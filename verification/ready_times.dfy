/** When a task became ready, and what its time stamp says (internal/scheduler/core.go:150-151, 183-194, 628-641). */
module ReadyTimes {
  import opened Api
  import opened AlgorithmOne
  import opened Graphs
  import opened Histories
  import opened LongestPaths
  import opened Overtaking
  import opened Reactor
  import opened ReactorInvariant
  import opened Runs
  import Termination

  ghost predicate PastWaiting(c: Core, v: Id) {
    v in c.tasks && c.tasks[v] != Waiting
  }

  // ---------- one step ----------

  /** Either the successor still waits, or it has just been stamped with the completion's time. */
  lemma {:induction false} ReleaseStamps(c: Core, ws: seq<Id>, jobs: multiset<Job>, ds: seq<Dependency>, now: real,
                                         v: Id)
    requires Inv(c, ws, jobs, Targets(ds)) && v in c.g && Is(c.tasks, v, Waiting)
    requires forall k :: 0 <= k < |ds| ==> ds[k].targetTaskID in c.g
    ensures var c' := Release(c, ds, now); Is(c'.tasks, v, Waiting) || ReadySince(c', v, now)
    decreases |ds|
  {
    hide Inv, ReleaseOne, ReadySince, Is;
    if ds != [] {
      var t := ds[0].targetTaskID;
      var c1 := ReleaseOne(c, t, now);
      ReleaseOneKeeps(c, ws, jobs, Targets(ds), t, now);
      ReleaseOneStamps(c, ws, jobs, Targets(ds), t, now, v);
      assert Targets(ds) - multiset{t} == Targets(ds[1..]);
      if Is(c1.tasks, v, Waiting) {
        ReleaseStamps(c1, ws, jobs, ds[1..], now, v);
      } else {
        ReleaseKeepsStamp(c1, ws, jobs, ds[1..], now, v, now);
      }
    }
  }

  lemma ReleaseOneStamps(c: Core, ws: seq<Id>, jobs: multiset<Job>, owed: multiset<Id>, t: Id, now: real, v: Id)
    requires Inv(c, ws, jobs, owed) && t in owed && t in c.g && v in c.g && Is(c.tasks, v, Waiting)
    ensures var c' := ReleaseOne(c, t, now); Is(c'.tasks, v, Waiting) || ReadySince(c', v, now)
  {
    hide Inv, ReleaseOne, ReadySince;
    ReleaseFinds(c, ws, jobs, owed, t);
    ReleaseEffect(c, t, now, ReleaseOne(c, t, now));
    if t == v && c.rem[t] == 1 { NowReady(ReleaseOne(c, t, now), v, now); }
  }

  lemma NowReady(c: Core, v: Id, now: real)
    requires v in c.g && Is(c.tasks, v, Ready) && v in c.readyAt && c.readyAt[v] == now
    ensures ReadySince(c, v, now)
  {
  }

  lemma CompletionStamps(c: Core, ws: seq<Id>, jobs: multiset<Job>, j: Job, at: real, v: Id)
    requires Inv(c, ws, jobs, multiset{}) && j in jobs && !PastWaiting(c, v)
    requires PastWaiting(AfterCompletion(c, j.task, j.worker, at), v)
    ensures v in c.tasks && ReadySince(AfterCompletion(c, j.task, j.worker, at), v, at)
  {
    hide Counted, Staged, Ledger, Assigned, ExitMarked, Registry, ReadySince, Release;
    CompletionStarts(c, ws, jobs, j);
    RegistryClosed(c.dags, c.g);
    JobIsRunning(c.tasks, c.workers, ws, jobs, j);
    var c1 := MarkCompleted(c, j.task, j.worker);
    StillOpen(c1, ws, jobs - multiset{j}, c.g[j.task], at);
    ReleaseStamps(c1, ws, jobs - multiset{j}, c.g[j.task], at, v);
  }

  /** Releasing successors registers nothing. */
  lemma {:induction false} StillOpen(c: Core, ws: seq<Id>, jobs: multiset<Job>, ds: seq<Dependency>, now: real)
    requires Inv(c, ws, jobs, Targets(ds)) && forall k :: 0 <= k < |ds| ==> ds[k].targetTaskID in c.g
    ensures Release(c, ds, now).tasks.Keys == c.tasks.Keys == c.g.Keys
    decreases |ds|
  {
    hide Counted, Staged, Ledger, Assigned, ExitMarked, Registry;
    ReleaseKeeps(c, ws, jobs, ds, now);
    Termination.ReleaseCompletesNothing(c, ds, now);
  }

  lemma ArrivalStamps(c: Core, d: Id, h: Graph, a: Arrival, v: Id)
    requires Registry(c.dags, c.g) && Domains(c) && (d !in c.dags ==> ValidDag(d, h))
    requires a.rank.Keys == a.stale.Keys == a.clock.Keys == h.Keys
    requires !PastWaiting(c, v) && PastWaiting(AfterArrival(c, d, h, a), v)
    ensures v !in c.tasks && v in a.clock && IsEntry(h, v) && ReadySince(AfterArrival(c, d, h, a), v, a.clock[v])
  {
    if d !in c.dags {
      ArrivalDisjoint(c, d, h);
      NothingRefused(c.tasks, h);
      hide Registry, ValidDag;
    }
  }

  /** Dispatching starts no waiting task. */
  lemma {:induction false} DispatchWaits(c: Core, trace: seq<Job>, v: Id)
    requires (forall k :: 0 <= k < |trace| ==> trace[k].task in c.tasks)
    ensures DispatchAll(c, trace).tasks.Keys == c.tasks.Keys
    ensures PastWaiting(DispatchAll(c, trace), v) <==> PastWaiting(c, v)
    decreases |trace|
  {
    if trace != [] { DispatchWaits(c, trace[..|trace| - 1], v); }
  }

  lemma TraceKnown(cfg: Config, s: Sys, l: Label, s': Sys)
    requires SysInv(cfg, s) && Step(cfg, s, l, s') && l.React?
    ensures forall k :: 0 <= k < |l.trace| ==> l.trace[k].task in Handled(s, l.arrival, l.handledAt).tasks
  {
    hide Handled, Registry, Counted, Staged, Ledger, Assigned, ExitMarked, Quiet, EventsFit, DispatchAll;
    hide CanDispatchAll, ArrivalKnown;
    var c := Handled(s, l.arrival, l.handledAt);
    HandleKeeps(cfg, s, l.arrival, l.handledAt);
    TraceRegistered(c, cfg.ws, l.trace, cfg.aging, l.scheduledAt);
    forall k | 0 <= k < |l.trace| ensures l.trace[k].task in c.tasks {
      assert TasksOf(l.trace)[k] == l.trace[k].task;
    }
  }

  lemma HandlingStamps(cfg: Config, s: Sys, a: Arrival, at: real, later: real, v: Id)
    requires SysInv(cfg, s) && s.events != [] && ArrivalKnown(cfg, s.core, s.events[0], a) && ReadInTime(a, at, later)
    requires !PastWaiting(s.core, v) && PastWaiting(Handled(s, a, at), v) && at <= later
    ensures exists r :: at <= r <= later && ReadySince(Handled(s, a, at), v, r) && (v in s.core.tasks ==> r == at)
  {
    hide Counted, Staged, Ledger, Assigned, ExitMarked, Registry, AfterArrival, AfterCompletion, ByAlgorithmOne;
    hide ReadySince, ValidDag, Good, Quiet;
    assert EventFits(cfg, s.events[0]);
    match s.events[0]
    case DagArrived(d, h, _) =>
      ArrivalStamps(s.core, d, h, a, v);
      assert ReadySince(Handled(s, a, at), v, a.clock[v]);
    case TaskCompleted(t, w) =>
      assert Pending(s.events) == multiset{Job(t, w)} + Pending(s.events[1..]);
      CompletionStamps(s.core, cfg.ws, Jobs(s), Job(t, w), at, v);
      assert ReadySince(Handled(s, a, at), v, at);
    case WorkerIdle(_) => assert false;
  }

  /** A task that passes from WAITING to READY is stamped with the moment its last predecessor's completion was
      handled; one that is READY on arrival, with a moment between the beginning of that turn and its scheduling
      pass. */
  lemma StepStamps(cfg: Config, s: Sys, l: Label, s': Sys, v: Id)
    requires SysInv(cfg, s) && Step(cfg, s, l, s') && !PastWaiting(s.core, v) && PastWaiting(s'.core, v)
    ensures l.React? && v in s'.core.readyAt && l.handledAt <= s'.core.readyAt[v] <= l.scheduledAt
    ensures v in s.core.tasks ==> s'.core.readyAt[v] == l.handledAt
    ensures ReadySince(s'.core, v, s'.core.readyAt[v])
  {
    hide SysInv, Handled, DispatchAll, CanDispatchAll, Quiet, ArrivalKnown, ReadInTime, PastWaiting, MayArrive;
    if l.React? {
      var c := Handled(s, l.arrival, l.handledAt);
      TraceKnown(cfg, s, l, s');
      DispatchWaits(c, l.trace, v);
      HandlingStamps(cfg, s, l.arrival, l.handledAt, l.scheduledAt, v);
      var r :| l.handledAt <= r <= l.scheduledAt && ReadySince(c, v, r) && (v in s.core.tasks ==> r == l.handledAt);
      DispatchKeepsStamp(c, l.trace, v, r);
    }
  }

  // ---------- over whole runs ----------

  /** In step i of the run v becomes ready. */
  ghost predicate BecomesReady(ss: seq<Sys>, i: nat, v: Id) {
    i + 1 < |ss| && !PastWaiting(ss[i].core, v) && PastWaiting(ss[i + 1].core, v)
  }

  /** Such a step is a turn of the reactor, and the stamp is the clock of that turn. */
  lemma StampedWhenReady(cfg: Config, ss: seq<Sys>, ls: seq<Label>, i: nat, v: Id)
    requires IsRun(cfg, ss, ls) && BecomesReady(ss, i, v)
    ensures ls[i].React? && v in ss[i + 1].core.readyAt
    ensures ls[i].handledAt <= ss[i + 1].core.readyAt[v] <= ls[i].scheduledAt
    ensures v in ss[i].core.tasks ==> ss[i + 1].core.readyAt[v] == ls[i].handledAt
  {
    hide SysInv, PastWaiting;
    RunKeeps(cfg, ss, ls, i);
    assert Step(cfg, ss[i], ls[i], ss[i + 1]);
    hide Step;
    StepStamps(cfg, ss[i], ls[i], ss[i + 1], v);
  }

  /** From then on the stamp stays. */
  lemma StampStays(cfg: Config, ss: seq<Sys>, ls: seq<Label>, i: nat, j: nat, v: Id)
    requires IsRun(cfg, ss, ls) && BecomesReady(ss, i, v) && i < j <= |ls|
    ensures v in ss[j].core.readyAt && v in ss[i + 1].core.readyAt && ss[j].core.readyAt[v] == ss[i + 1].core.readyAt[v]
  {
    hide SysInv, PastWaiting;
    RunKeeps(cfg, ss, ls, i);
    assert Step(cfg, ss[i], ls[i], ss[i + 1]);
    hide Step;
    StepStamps(cfg, ss[i], ls[i], ss[i + 1], v);
    StampHolds(cfg, ss, ls, i + 1, j, v, ss[i + 1].core.readyAt[v]);
  }

  /** Every task past WAITING became ready in some step. */
  lemma {:induction false} BecameReady(cfg: Config, ss: seq<Sys>, ls: seq<Label>, j: nat, v: Id) returns (i: nat)
    requires IsRun(cfg, ss, ls) && j <= |ls| && PastWaiting(ss[j].core, v)
    ensures i < j && BecomesReady(ss, i, v)
  {
    hide Step;
    assert j > 0;
    if PastWaiting(ss[j - 1].core, v) { i := BecameReady(cfg, ss, ls, j - 1, v); } else { i := j - 1; }
  }

  /** The last moment at which v may have become ready in this step. */
  ghost function ReadyBy(s: Sys, l: Label, v: Id): real
    requires l.React?
  {
    if v in s.core.tasks then l.handledAt else l.scheduledAt
  }

  /** Over any run, by the reactor's clock: if u is dispatched in step j while v is passed over, u having become ready
      in step b and v in step a, then u's turn began at most bound / aging milliseconds after v's moment, where `bound`
      limits the longest path plus volume term of every submitted DAG. */
  lemma OvertakingByClock(cfg: Config, ss: seq<Sys>, ls: seq<Label>, a: nat, b: nat, j: nat, k: nat, v: Id, bound: real)
    requires IsRun(cfg, ss, ls) && cfg.aging > 0.0 && j < |ls| && ls[j].React? && ss[j].events != []
    requires k < |ls[j].trace|
    requires PassedOver(Handled(ss[j], ls[j].arrival, ls[j].handledAt), ls[j].trace, k, v)
    requires a <= j && BecomesReady(ss, a, v) && b <= j && BecomesReady(ss, b, ls[j].trace[k].task)
    requires forall n :: 0 <= n < |ls| && ls[n].Submit? ==> CostWithin(cfg, ls[n].topology, ls[n].work, bound)
    ensures ls[a].React? && ls[b].React? && ls[b].handledAt <= ReadyBy(ss[a], ls[a], v) + bound / cfg.aging
  {
    hide PastWaiting, Handled, CanDispatchAll, DispatchAll, Quiet, ArrivalKnown, CostWithin, Base, SysInv, ReadInTime;
    hide PassedOver;
    var c, u := Handled(ss[j], ls[j].arrival, ls[j].handledAt), ls[j].trace[k].task;
    StampedWhenReady(cfg, ss, ls, a, v);
    StampedWhenReady(cfg, ss, ls, b, u);
    StampStays(cfg, ss, ls, a, j + 1, v);
    StampStays(cfg, ss, ls, b, j + 1, u);
    RunWithin(cfg, ss, ls, j + 1, bound);
    assert Step(cfg, ss[j], ls[j], ss[j + 1]);
    DispatchFrames(c, ls[j].trace);
    SameBase(c, ss[j + 1].core);
    PassedOverBound(c, cfg.ws, ls[j].trace, cfg.aging, ls[j].scheduledAt, k, v, bound);
  }
}
