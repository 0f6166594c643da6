/** Aging bounds overtaking (internal/scheduler/core.go:220-242, 628-653). */
module Overtaking {
  import opened Api
  import opened AlgorithmOne
  import opened Graphs
  import opened LongestPaths
  import opened Reactor
  import opened ReactorInvariant
  import opened Runs

  /** The part of a task's priority that does not depend on time. */
  ghost function Base(c: Core, t: Id): real
    requires t in c.rank
  {
    c.rank[t] + if ExtractDAGID(t) in c.vol then c.vol[ExtractDAGID(t)] else 0.0
  }

  ghost predicate BaseWithin(c: Core, bound: real) {
    forall t :: t in c.rank ==> 0.0 <= Base(c, t) <= bound
  }

  /** Dispatching changes no rank and no time stamp, and only takes tasks off the queue. */
  lemma {:induction false} DispatchFrames(c: Core, trace: seq<Job>)
    ensures var d := DispatchAll(c, trace);
      && d.rank == c.rank && d.vol == c.vol && d.readyAt == c.readyAt && d.g == c.g
      && d.log.queue <= c.log.queue
    decreases |trace|
  {
    if trace != [] { DispatchFrames(c, trace[..|trace| - 1]); }
  }

  /** What is queued after k dispatches was queued after any smaller number of them. */
  lemma {:induction false} QueueShrinks(c: Core, trace: seq<Job>, k: nat)
    requires k <= |trace|
    ensures DispatchAll(c, trace).log.queue <= DispatchAll(c, trace[..k]).log.queue
    decreases |trace|
  {
    if k < |trace| {
      var n := |trace| - 1;
      QueueShrinks(c, trace[..n], k);
      assert trace[..n][..k] == trace[..k];
    } else {
      assert trace[..k] == trace;
    }
  }

  lemma {:induction false} DispatchedBest(c: Core, ws: seq<Id>, trace: seq<Job>, aging: real, now: real, k: nat)
    requires CanDispatchAll(c, ws, trace, aging, now) && k < |trace|
    ensures CanDispatch(DispatchAll(c, trace[..k]), ws, trace[k].task, trace[k].worker, aging, now)
    decreases |trace|
  {
    hide CanDispatch, Dispatch, DispatchAll;
    var n := |trace| - 1;
    if k < n {
      DispatchedBest(c, ws, trace[..n], aging, now, k);
      assert trace[..n][..k] == trace[..k];
    }
  }

  /** v is still on the queue when trace[k] is popped. */
  ghost predicate PassedOver(c: Core, trace: seq<Job>, k: nat, v: Id) {
    k < |trace| && (v in DispatchAll(c, trace).log.queue || exists m :: k < m < |trace| && trace[m].task == v)
  }

  lemma PassedOverQueued(c: Core, ws: seq<Id>, trace: seq<Job>, aging: real, now: real, k: nat, v: Id)
    requires CanDispatchAll(c, ws, trace, aging, now) && PassedOver(c, trace, k, v)
    ensures v in DispatchAll(c, trace[..k]).log.queue
  {
    hide CanDispatch, DispatchAll, CanDispatchAll;
    if v in DispatchAll(c, trace).log.queue {
      QueueShrinks(c, trace, k);
    } else {
      var m :| k < m < |trace| && trace[m].task == v;
      DispatchedBest(c, ws, trace, aging, now, m);
      CanDispatchMeans(DispatchAll(c, trace[..m]), ws, trace[m], aging, now);
      QueueShrinks(c, trace[..m], k);
      assert trace[..m][..k] == trace[..k];
    }
  }

  /** Within one scheduling pass tasks leave the queue in order of priority, and none that stays outranks one that
      left. */
  lemma BestFirst(c: Core, ws: seq<Id>, trace: seq<Job>, aging: real, now: real, k: nat, v: Id)
    requires CanDispatchAll(c, ws, trace, aging, now) && PassedOver(c, trace, k, v)
    ensures v in c.rank && v in c.readyAt && trace[k].task in c.rank && trace[k].task in c.readyAt
    ensures Priority(c, v, aging, now) <= Priority(c, trace[k].task, aging, now)
  {
    hide DispatchAll, CanDispatchAll, Priority, FirstIdle;
    var d := DispatchAll(c, trace[..k]);
    PassedOverQueued(c, ws, trace, aging, now, k, v);
    DispatchedBest(c, ws, trace, aging, now, k);
    DispatchFrames(c, trace[..k]);
    SamePriority(c, d, v, aging, now);
    SamePriority(c, d, trace[k].task, aging, now);
  }

  lemma SamePriority(c: Core, d: Core, t: Id, aging: real, now: real)
    requires d.rank == c.rank && d.vol == c.vol && d.readyAt == c.readyAt && t in c.rank && t in c.readyAt
    ensures Priority(d, t, aging, now) == Priority(c, t, aging, now)
  {
  }

  /** Within one scheduling pass a task can be preferred to v only if it became ready at most bound / aging after v. */
  lemma PassedOverBound(c: Core, ws: seq<Id>, trace: seq<Job>, aging: real, now: real, k: nat, v: Id, bound: real)
    requires CanDispatchAll(c, ws, trace, aging, now) && PassedOver(c, trace, k, v) && aging > 0.0
    requires BaseWithin(c, bound)
    ensures v in c.readyAt && trace[k].task in c.readyAt
    ensures c.readyAt[trace[k].task] <= c.readyAt[v] + bound / aging
  {
    hide DispatchAll, CanDispatchAll, CanDispatch, Priority, Base;
    PassedOverQueued(c, ws, trace, aging, now, k, v);
    DispatchedBest(c, ws, trace, aging, now, k);
    DispatchFrames(c, trace[..k]);
    SameBase(c, DispatchAll(c, trace[..k]));
    BestBound(DispatchAll(c, trace[..k]), ws, trace[k], v, aging, now, bound);
  }

  lemma SameBase(c: Core, d: Core)
    requires d.rank == c.rank && d.vol == c.vol
    ensures forall t :: t in c.rank ==> Base(d, t) == Base(c, t)
  {
  }

  lemma BestBound(c: Core, ws: seq<Id>, j: Job, v: Id, aging: real, now: real, bound: real)
    requires CanDispatch(c, ws, j.task, j.worker, aging, now) && v in c.log.queue && aging > 0.0
    requires BaseWithin(c, bound)
    ensures v in c.readyAt && j.task in c.readyAt && c.readyAt[j.task] <= c.readyAt[v] + bound / aging
  {
    hide FirstIdle, Base, Priority;
    PriorityIs(c, v, aging, now);
    PriorityIs(c, j.task, aging, now);
    WaitBound(c.readyAt[j.task], c.readyAt[v], Base(c, j.task), Base(c, v), aging, now, bound);
  }

  lemma PriorityIs(c: Core, t: Id, aging: real, now: real)
    requires t in c.rank && t in c.readyAt
    ensures Priority(c, t, aging, now) == Base(c, t) + (now - c.readyAt[t]) * aging
  {
  }

  lemma WaitBound(ru: real, rv: real, bu: real, bv: real, aging: real, now: real, bound: real)
    requires aging > 0.0 && 0.0 <= bu <= bound && 0.0 <= bv
    requires bv + (now - rv) * aging <= bu + (now - ru) * aging
    ensures ru <= rv + bound / aging
  {
    assert (ru - rv) * aging <= bound;
    DivideBound(ru - rv, aging, bound);
  }

  lemma DivideBound(x: real, a: real, b: real)
    requires a > 0.0 && x * a <= b
    ensures x <= b / a
  {
    assert x == x * a / a;
  }

  // ---------- over whole runs ----------

  /** v is registered, past WAITING, and has been ready since time r. */
  ghost predicate ReadySince(c: Core, v: Id, r: real) {
    v in c.g && v in c.tasks && c.tasks[v] != Waiting && v in c.readyAt && c.readyAt[v] == r
  }

  lemma {:induction false} ReleaseKeepsStamp(c: Core, ws: seq<Id>, jobs: multiset<Job>, ds: seq<Dependency>, now: real,
                                             v: Id, r: real)
    requires Inv(c, ws, jobs, Targets(ds)) && ReadySince(c, v, r)
    requires forall k :: 0 <= k < |ds| ==> ds[k].targetTaskID in c.g
    ensures ReadySince(Release(c, ds, now), v, r)
    decreases |ds|
  {
    hide Inv, Domains, ReleaseOne;
    if ds != [] {
      var t := ds[0].targetTaskID;
      ReleaseFinds(c, ws, jobs, Targets(ds), t);
      ReleaseOneKeeps(c, ws, jobs, Targets(ds), t, now);
      ReleaseEffect(c, t, now, ReleaseOne(c, t, now));
      assert Targets(ds) - multiset{t} == Targets(ds[1..]);
      ReleaseKeepsStamp(ReleaseOne(c, t, now), ws, jobs, ds[1..], now, v, r);
    }
  }

  lemma CompletionStamp(c: Core, ws: seq<Id>, jobs: multiset<Job>, j: Job, at: real, v: Id, r: real)
    requires Inv(c, ws, jobs, multiset{}) && j in jobs && ReadySince(c, v, r)
    ensures ReadySince(AfterCompletion(c, j.task, j.worker, at), v, r)
  {
    hide Counted, Staged, Ledger, Assigned, ExitMarked, Registry;
    CompletionStarts(c, ws, jobs, j);
    RegistryClosed(c.dags, c.g);
    ReleaseKeepsStamp(MarkCompleted(c, j.task, j.worker), ws, jobs - multiset{j}, c.g[j.task], at, v, r);
  }

  lemma ArrivalStamp(c: Core, d: Id, h: Graph, a: Arrival, v: Id, r: real)
    requires Registry(c.dags, c.g) && (d !in c.dags ==> ValidDag(d, h)) && ReadySince(c, v, r)
    ensures ReadySince(AfterArrival(c, d, h, a), v, r)
  {
    if d !in c.dags {
      ArrivalDisjoint(c, d, h);
      hide Registry, ValidDag, FirstStates;
      assert v !in Stamped(h, a.stale, a.clock) && v !in Admitted(c.tasks, h);
    }
  }

  lemma {:induction false} DispatchKeepsStamp(c: Core, trace: seq<Job>, v: Id, r: real)
    requires ReadySince(c, v, r)
    ensures ReadySince(DispatchAll(c, trace), v, r)
    decreases |trace|
  {
    if trace != [] { DispatchKeepsStamp(c, trace[..|trace| - 1], v, r); }
  }

  /** Once a task is past WAITING, neither does its state fall back nor does its time stamp move. */
  lemma StepKeepsStamp(cfg: Config, s: Sys, l: Label, s': Sys, v: Id, r: real)
    requires SysInv(cfg, s) && Step(cfg, s, l, s') && ReadySince(s.core, v, r)
    ensures ReadySince(s'.core, v, r)
  {
    hide ReadySince, Inv, DispatchAll, CanDispatchAll, Quiet, AfterArrival, AfterCompletion;
    if l.React? {
      match s.events[0] {
        case DagArrived(d, h, _) =>
          InvRegistry(s.core, cfg.ws, Jobs(s));
          assert EventFits(cfg, s.events[0]);
          ArrivalStamp(s.core, d, h, l.arrival, v, r);
        case TaskCompleted(t, w) =>
          assert Pending(s.events) == multiset{Job(t, w)} + Pending(s.events[1..]);
          CompletionStamp(s.core, cfg.ws, Jobs(s), Job(t, w), l.handledAt, v, r);
        case WorkerIdle(_) => assert false;
      }
      DispatchKeepsStamp(Handled(s, l.arrival, l.handledAt), l.trace, v, r);
    }
  }

  lemma InvRegistry(c: Core, ws: seq<Id>, jobs: multiset<Job>)
    requires Inv(c, ws, jobs, multiset{})
    ensures Registry(c.dags, c.g)
  {
  }

  lemma QueuedIsReady(c: Core, ws: seq<Id>, jobs: multiset<Job>, v: Id)
    requires Inv(c, ws, jobs, multiset{}) && v in c.log.queue
    ensures v in c.readyAt && ReadySince(c, v, c.readyAt[v])
  {
    hide Registry, Counted, Assigned, ExitMarked;
    assert LedgerOf(c.tasks, c.log, v);
  }

  lemma {:induction false} StampHolds(cfg: Config, ss: seq<Sys>, ls: seq<Label>, i: nat, j: nat, v: Id, r: real)
    requires IsRun(cfg, ss, ls) && i <= j <= |ls| && ReadySince(ss[i].core, v, r)
    ensures ReadySince(ss[j].core, v, r)
    decreases j
  {
    hide Step, ReadySince, SysInv;
    if i < j {
      StampHolds(cfg, ss, ls, i, j - 1, v, r);
      RunKeeps(cfg, ss, ls, j - 1);
      StepKeepsStamp(cfg, ss[j - 1], ls[j - 1], ss[j], v, r);
    }
  }

  /** Over any run: if v is queued in state i and u is dispatched in step j while v is still passed over, then u became
      ready at most bound / aging milliseconds after v, where `bound` limits rank plus volume term. */
  lemma BoundedOvertaking(cfg: Config, ss: seq<Sys>, ls: seq<Label>, i: nat, j: nat, k: nat, v: Id, bound: real)
    requires IsRun(cfg, ss, ls) && cfg.aging > 0.0 && i <= j < |ls| && ls[j].React? && ss[j].events != []
    requires v in ss[i].core.log.queue && k < |ls[j].trace|
    requires PassedOver(Handled(ss[j], ls[j].arrival, ls[j].handledAt), ls[j].trace, k, v)
    requires BaseWithin(ss[j + 1].core, bound)
    ensures var u := ls[j].trace[k].task; var later := ss[j + 1].core.readyAt; var first := ss[i].core.readyAt;
      u in later && v in first && later[u] <= first[v] + bound / cfg.aging
  {
    hide Inv, CanDispatchAll, PassedOver, Handled, Quiet, Base, DispatchAll;
    var c := Handled(ss[j], ls[j].arrival, ls[j].handledAt);
    RunKeeps(cfg, ss, ls, i);
    QueuedIsReady(ss[i].core, cfg.ws, Jobs(ss[i]), v);
    StampHolds(cfg, ss, ls, i, j + 1, v, ss[i].core.readyAt[v]);
    assert Step(cfg, ss[j], ls[j], ss[j + 1]);
    DispatchFrames(c, ls[j].trace);
    SameBase(c, ss[j + 1].core);
    PassedOverBound(c, cfg.ws, ls[j].trace, cfg.aging, ls[j].scheduledAt, k, v, bound);
  }

  // ---------- a bound known from the submitted DAGs ----------

  /** No path of the DAG costs, together with its volume term, more than `bound`. */
  ghost predicate CostWithin(cfg: Config, h: Graph, work: map<Id, int>, bound: real) {
    var m := WorstCase(cfg, h, work);
    Good(m) && forall e :: IsEntry(h, e) ==> Up(m, e) + Volume(m) <= bound
  }

  ghost predicate EventWithin(cfg: Config, e: Event, bound: real) {
    e.DagArrived? ==> CostWithin(cfg, e.topology, e.work, bound)
  }

  /** Everything registered or on its way respects the bound. */
  ghost predicate Affordable(cfg: Config, s: Sys, bound: real) {
    BaseWithin(s.core, bound) && forall k :: 0 <= k < |s.events| ==> EventWithin(cfg, s.events[k], bound)
  }

  lemma NewBase(cfg: Config, h: Graph, work: map<Id, int>, a: Arrival, bound: real, t: Id)
    requires CostWithin(cfg, h, work, bound) && ByAlgorithmOne(WorstCase(cfg, h, work), a) && t in h
    ensures t in a.rank && 0.0 <= a.rank[t] + a.vol <= bound
  {
    hide Good, Up, Volume, RankedBySearch;
    var e := RankWithinEntry(WorstCase(cfg, h, work), a.rank, t);
  }

  lemma ArrivalWithin(cfg: Config, c: Core, d: Id, h: Graph, work: map<Id, int>, a: Arrival, at: real, bound: real)
    requires Registry(c.dags, c.g) && Domains(c) && BaseWithin(c, bound) && d !in c.dags && ValidDag(d, h)
    requires CostWithin(cfg, h, work, bound) && ByAlgorithmOne(WorstCase(cfg, h, work), a) && a.rank.Keys == h.Keys
    ensures BaseWithin(AfterArrival(c, d, h, a), bound)
  {
    hide CostWithin, ByAlgorithmOne, Closed, Acyclic, Admitted, Stamped, Entries, InDegrees;
    var c' := AfterArrival(c, d, h, a);
    forall t | t in c'.rank ensures 0.0 <= Base(c', t) <= bound {
      if t in h {
        NewBase(cfg, h, work, a, bound, t);
      } else {
        assert Base(c', t) == Base(c, t);
      }
    }
  }

  lemma {:induction false} ReleaseKeepsRanks(c: Core, ds: seq<Dependency>, now: real)
    ensures Release(c, ds, now).rank == c.rank && Release(c, ds, now).vol == c.vol
    decreases |ds|
  {
    hide ReleaseOne;
    if ds != [] {
      OneKeepsRanks(c, ds[0].targetTaskID, now);
      ReleaseKeepsRanks(ReleaseOne(c, ds[0].targetTaskID, now), ds[1..], now);
    }
  }

  lemma OneKeepsRanks(c: Core, t: Id, now: real)
    ensures ReleaseOne(c, t, now).rank == c.rank && ReleaseOne(c, t, now).vol == c.vol
  {
    hide ReleaseOne;
    ReleasedOnce(c, t, now, if t !in c.rem then 0 else if c.rem[t] > 0 then c.rem[t] - 1 else c.rem[t]);
  }

  lemma HandlingWithin(cfg: Config, s: Sys, a: Arrival, at: real, bound: real)
    requires SysInv(cfg, s) && s.events != [] && ArrivalKnown(cfg, s.core, s.events[0], a) && Affordable(cfg, s, bound)
    ensures BaseWithin(Handled(s, a, at), bound)
  {
    hide Counted, Staged, Ledger, Assigned, ExitMarked, Quiet, Registry, ByAlgorithmOne, CostWithin, ValidDag;
    hide Good, Base, Release;
    assert EventFits(cfg, s.events[0]) && EventWithin(cfg, s.events[0], bound);
    match s.events[0]
    case DagArrived(d, h, work) =>
      if d !in s.core.dags {
        ArrivalWithin(cfg, s.core, d, h, work, a, at, bound);
      } else {
        SameBase(s.core, Handled(s, a, at));
      }
    case TaskCompleted(t, w) =>
      var c1 := MarkCompleted(s.core, t, w);
      if t in c1.g { ReleaseKeepsRanks(c1, c1.g[t], at); }
      SameBase(s.core, Handled(s, a, at));
    case WorkerIdle(_) => assert false;
  }

  lemma StepWithin(cfg: Config, s: Sys, l: Label, s': Sys, bound: real)
    requires SysInv(cfg, s) && Step(cfg, s, l, s') && Affordable(cfg, s, bound)
    requires l.Submit? ==> CostWithin(cfg, l.topology, l.work, bound)
    ensures Affordable(cfg, s', bound)
  {
    hide SysInv, CostWithin, Base, Handled, CanDispatchAll, Quiet, ArrivalKnown, DispatchAll, MayArrive;
    if l.React? {
      var c := Handled(s, l.arrival, l.handledAt);
      HandlingWithin(cfg, s, l.arrival, l.handledAt, bound);
      DispatchFrames(c, l.trace);
      SameBase(c, s'.core);
    }
  }

  lemma {:induction false} RunWithin(cfg: Config, ss: seq<Sys>, ls: seq<Label>, i: nat, bound: real)
    requires IsRun(cfg, ss, ls) && i <= |ls|
    requires forall n :: 0 <= n < |ls| && ls[n].Submit? ==> CostWithin(cfg, ls[n].topology, ls[n].work, bound)
    ensures Affordable(cfg, ss[i], bound)
  {
    hide CostWithin, Step, Affordable, SysInv;
    if i == 0 {
      InitWithin(cfg, bound);
    } else {
      RunWithin(cfg, ss, ls, i - 1, bound);
      RunKeeps(cfg, ss, ls, i - 1);
      StepWithin(cfg, ss[i - 1], ls[i - 1], ss[i], bound);
    }
  }

  lemma InitWithin(cfg: Config, bound: real)
    ensures Affordable(cfg, Init(cfg), bound)
  {
  }

  /** The same with a bound that can be read off the submitted DAGs: their longest paths and volume terms. */
  lemma OvertakingByCosts(cfg: Config, ss: seq<Sys>, ls: seq<Label>, i: nat, j: nat, k: nat, v: Id, bound: real)
    requires IsRun(cfg, ss, ls) && cfg.aging > 0.0 && i <= j < |ls| && ls[j].React? && ss[j].events != []
    requires v in ss[i].core.log.queue && k < |ls[j].trace|
    requires PassedOver(Handled(ss[j], ls[j].arrival, ls[j].handledAt), ls[j].trace, k, v)
    requires forall n :: 0 <= n < |ls| && ls[n].Submit? ==> CostWithin(cfg, ls[n].topology, ls[n].work, bound)
    ensures var u := ls[j].trace[k].task; var later := ss[j + 1].core.readyAt; var first := ss[i].core.readyAt;
      u in later && v in first && later[u] <= first[v] + bound / cfg.aging
  {
    hide IsRun, PassedOver, Handled, CostWithin, Base, BaseWithin;
    RunWithin(cfg, ss, ls, j + 1, bound);
    BoundedOvertaking(cfg, ss, ls, i, j, k, v, bound);
  }
}
