/** What accumulates over a run: registered graphs only grow, and the kernel's rules are those of the tasks
    dispatched. */
module Histories {
  import opened Api
  import opened Graphs
  import opened LongestPaths
  import opened Reactor
  import opened ReactorInvariant
  import opened RuleTable
  import opened Runs
  import Termination

  // ---------- the registered graphs ----------

  /** h knows all tasks of g, with the same edges. */
  ghost predicate Extends(g: Graph, h: Graph) {
    forall t :: t in g ==> t in h && h[t] == g[t]
  }

  lemma HandlingExtends(cfg: Config, s: Sys, a: Arrival, at: real)
    requires SysInv(cfg, s) && s.events != []
    ensures Extends(s.core.g, Handled(s, a, at).g)
  {
    hide Counted, Staged, Ledger, Assigned, ExitMarked, Quiet, Release, ValidDag, Registry, Good, Admitted, Stamped;
    hide Termination.SameCompleted;
    match s.events[0]
    case DagArrived(d, h, _) =>
      assert EventFits(cfg, s.events[0]);
      if d !in s.core.dags { ArrivalDisjoint(s.core, d, h); }
    case TaskCompleted(t, w) =>
      var c1 := MarkCompleted(s.core, t, w);
      if t in c1.g { Termination.ReleaseCompletesNothing(c1, c1.g[t], at); }
    case WorkerIdle(_) =>
  }

  lemma OneRegistered(c: Core, ws: seq<Id>, job: Job, aging: real, now: real)
    requires CanDispatch(c, ws, job.task, job.worker, aging, now)
    ensures job.task in c.g
  {
    hide FirstIdle, Priority;
  }

  /** Dispatched tasks come from the queue, and so are registered; dispatching changes no graph. */
  lemma {:induction false} TraceRegistered(c: Core, ws: seq<Id>, trace: seq<Job>, aging: real, now: real)
    requires CanDispatchAll(c, ws, trace, aging, now)
    ensures DispatchAll(c, trace).g == c.g && forall t :: t in TasksOf(trace) ==> t in c.g
    decreases |trace|
  {
    hide CanDispatch;
    if trace != [] {
      var n := |trace| - 1;
      TraceRegistered(c, ws, trace[..n], aging, now);
      OneRegistered(DispatchAll(c, trace[..n]), ws, trace[n], aging, now);
      assert TasksOf(trace) == TasksOf(trace[..n]) + [trace[n].task];
    }
  }

  lemma StepExtends(cfg: Config, s: Sys, l: Label, s': Sys)
    requires SysInv(cfg, s) && Step(cfg, s, l, s')
    ensures Extends(s.core.g, s'.core.g)
    ensures l.React? ==> forall t :: t in TasksOf(l.trace) ==> t in s'.core.g
  {
    hide SysInv, Handled, CanDispatchAll, DispatchAll, Quiet, ArrivalKnown, MayArrive;
    if l.React? {
      HandlingExtends(cfg, s, l.arrival, l.handledAt);
      TraceRegistered(Handled(s, l.arrival, l.handledAt), cfg.ws, l.trace, cfg.aging, l.scheduledAt);
    }
  }

  // ---------- what the kernel's rules are ----------

  /** The tasks dispatched in a run, in order. */
  ghost function AllDispatched(ls: seq<Label>): seq<Id> {
    if ls == [] then [] else
    var l, before := ls[|ls| - 1], AllDispatched(ls[..|ls| - 1]);
    if l.React? then before + TasksOf(l.trace) else before
  }

  lemma DispatchedNext(ls: seq<Label>, l: Label)
    ensures AllDispatched(ls + [l]) ==
            if l.React? then AllDispatched(ls) + TasksOf(l.trace) else AllDispatched(ls)
  {
    assert (ls + [l])[..|ls|] == ls;
  }

  lemma {:induction false} DispatchedRegistered(cfg: Config, ss: seq<Sys>, ls: seq<Label>)
    requires IsRun(cfg, ss, ls)
    ensures forall t :: t in AllDispatched(ls) ==> t in ss[|ls|].core.g
    decreases |ls|
  {
    hide Step, SysInv;
    if ls != [] {
      var n := |ls| - 1;
      DispatchedRegistered(cfg, ss[..n + 1], ls[..n]);
      RunKeeps(cfg, ss, ls, n);
      StepExtends(cfg, ss[n], ls[n], ss[n + 1]);
    }
  }

  /** One more step of a run, as the rule table sees it. */
  lemma RulesNext(cfg: Config, ss: seq<Sys>, ls: seq<Label>, l: Label, s: Sys, table: Rules)
    requires |ss| == |ls| + 1 && IsRun(cfg, ss, ls) && Step(cfg, ss[|ls|], l, s)
    requires table == Written(map[], AllDispatched(ls), ss[|ls|].core.g)
    ensures Written(map[], AllDispatched(ls + [l]), s.core.g) ==
            if l.React? then Written(table, TasksOf(l.trace), s.core.g) else table
  {
    hide IsRun, Step, Written, AllDispatched, SysInv;
    DispatchedNext(ls, l);
    DispatchedRegistered(cfg, ss, ls);
    RunKeeps(cfg, ss, ls, |ls|);
    StepExtends(cfg, ss[|ls|], l, s);
    WrittenBefore(map[], AllDispatched(ls), ss[|ls|].core.g, s.core.g);
    if l.React? { WrittenInTwo(map[], AllDispatched(ls), TasksOf(l.trace), s.core.g); }
  }
}
