/** The errors the reactor ignores never occur (internal/scheduler/core.go:149-167, 193, 250;
    internal/state/manager.go:28-63). */
module Legality {
  import opened Api
  import opened Graphs
  import opened StateManager
  import opened Reactor
  import opened ReactorInvariant
  import opened Runs

  /** Every decrement finds a positive counter, and every READY update it triggers is in the transition table. */
  ghost predicate ReleasesLegal(c: Core, ds: seq<Dependency>, now: real)
    decreases |ds|
  {
    ds == [] ||
    var t := ds[0].targetTaskID;
    && t in c.rem && c.rem[t] > 0 && Legal(c.tasks, t, Ready)
    && ReleasesLegal(ReleaseOne(c, t, now), ds[1..], now)
  }

  ghost predicate DispatchesLegal(c: Core, trace: seq<Job>) {
    trace == [] ||
    var n := |trace| - 1;
    DispatchesLegal(c, trace[..n]) && Legal(DispatchAll(c, trace[..n]).tasks, trace[n].task, Running)
  }

  /** The state updates made while handling one event are all accepted. */
  ghost predicate HandlingLegal(c: Core, e: Event, now: real) {
    match e
    case DagArrived(d, h, _) => d in c.dags || forall t :: t in h ==> Legal(c.tasks, t, FirstStates(h)[t])
    case TaskCompleted(t, w) =>
      t in c.g && Legal(c.tasks, t, Completed) && ReleasesLegal(MarkCompleted(c, t, w), c.g[t], now)
    case WorkerIdle(_) => true
  }

  lemma {:induction false} ReleasesAreLegal(c: Core, ws: seq<Id>, jobs: multiset<Job>, ds: seq<Dependency>, now: real)
    requires Inv(c, ws, jobs, Targets(ds))
    requires forall k :: 0 <= k < |ds| ==> ds[k].targetTaskID in c.g
    ensures ReleasesLegal(c, ds, now)
    decreases |ds|
  {
    hide Registry, Counted, Staged, Ledger, Assigned, ExitMarked, ReleaseOne;
    if ds != [] {
      var t := ds[0].targetTaskID;
      ReleaseOneKeeps(c, ws, jobs, Targets(ds), t, now);
      assert Targets(ds) - multiset{t} == Targets(ds[1..]);
      SameGraph(c, t, now);
      ReleasesAreLegal(ReleaseOne(c, t, now), ws, jobs, ds[1..], now);
    }
  }

  lemma SameGraph(c: Core, t: Id, now: real)
    ensures ReleaseOne(c, t, now).g == c.g
  {
  }

  lemma {:induction false} DispatchesAreLegal(c: Core, ws: seq<Id>, jobs: multiset<Job>, trace: seq<Job>,
                                              aging: real, now: real)
    requires Inv(c, ws, jobs, multiset{}) && CanDispatchAll(c, ws, trace, aging, now)
    ensures DispatchesLegal(c, trace)
    decreases |trace|
  {
    hide Inv, CanDispatch, Dispatch, DispatchAll, Legal;
    if trace != [] {
      var n := |trace| - 1;
      DispatchesAreLegal(c, ws, jobs, trace[..n], aging, now);
      DispatchAllKeeps(c, ws, jobs, trace[..n], aging, now);
      DispatchKeeps(DispatchAll(c, trace[..n]), ws, jobs + multiset(trace[..n]), trace[n], aging, now);
    }
  }

  lemma HandlingIsLegal(cfg: Config, s: Sys, now: real)
    requires SysInv(cfg, s) && s.events != []
    ensures HandlingLegal(s.core, s.events[0], now)
  {
    hide Counted, Staged, Ledger, Assigned, ExitMarked, Quiet, Legal;
    match s.events[0]
    case DagArrived(d, h, _) =>
      assert EventFits(cfg, s.events[0]);
      if d !in s.core.dags {
        ArrivalDisjoint(s.core, d, h);
        NewTasksLegal(s.core.tasks, h);
      }
    case TaskCompleted(t, w) =>
      hide Registry;
      assert Pending(s.events) == multiset{Job(t, w)} + Pending(s.events[1..]);
      CompletionStarts(s.core, cfg.ws, Jobs(s), Job(t, w));
      RegistryClosed(s.core.dags, s.core.g);
      ReleasesAreLegal(MarkCompleted(s.core, t, w), cfg.ws, Jobs(s) - multiset{Job(t, w)}, s.core.g[t], now);
    case WorkerIdle(_) =>
  }

  lemma NewTasksLegal(tasks: map<Id, TaskState>, h: Graph)
    requires tasks.Keys !! h.Keys
    ensures forall t :: t in h ==> Legal(tasks, t, FirstStates(h)[t])
  {
  }

  /** In every run, none of the state updates whose error the reactor discards is refused. */
  lemma NoErrorIgnored(cfg: Config, ss: seq<Sys>, ls: seq<Label>, i: nat)
    requires IsRun(cfg, ss, ls) && i < |ls| && ls[i].React? && ss[i].events != []
    ensures HandlingLegal(ss[i].core, ss[i].events[0], ls[i].handledAt)
    ensures DispatchesLegal(Handled(ss[i], ls[i].arrival, ls[i].handledAt), ls[i].trace)
  {
    hide Inv, EventsFit, CanDispatchAll, Quiet, Handle, DispatchAll;
    RunKeeps(cfg, ss, ls, i);
    assert Step(cfg, ss[i], ls[i], ss[i + 1]);
    HandlingIsLegal(cfg, ss[i], ls[i].handledAt);
    HandleKeeps(cfg, ss[i], ls[i].arrival, ls[i].handledAt);
    DispatchesAreLegal(Handled(ss[i], ls[i].arrival, ls[i].handledAt), cfg.ws,
                       ss[i].running + Pending(ss[i].events[1..]), ls[i].trace, cfg.aging, ls[i].scheduledAt);
  }
}
