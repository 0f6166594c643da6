/** The reactor loop with its event channel and worker goroutines, as a transition system
    (internal/scheduler/core.go:94-128, 355-360). */
module Runs {
  import opened Api
  import opened AlgorithmOne
  import opened Graphs
  import opened LongestPaths
  import opened Reactor
  import opened ReactorInvariant

  /** The workers, the aging factor, and the slowest worker's and link's rates. */
  datatype Config = Config(ws: seq<Id>, aging: real, minComp: real, minBand: real)

  /** The scheduler's memory, the event channel, the worker goroutines still executing, and the clock. */
  datatype Sys = Sys(core: Core, events: seq<Event>, running: multiset<Job>, clock: real)

  datatype Label =
    | Submit(dagID: Id, topology: Graph, work: map<Id, int>)
    | Finish(job: Job)
    | React(arrival: Arrival, handledAt: real, scheduledAt: real, trace: seq<Job>)

  /** main registers every worker as IDLE before the loop starts. */
  ghost function Init(cfg: Config): Sys {
    Sys(Core({}, map[], map[], map[], map[], map w | w in cfg.ws :: Idle,
             Log(multiset{}, multiset{}, multiset{}, multiset{}), map[], map[], map[]),
        [], multiset{}, 0.0)
  }

  ghost function Handled(s: Sys, a: Arrival, at: real): Core
    requires s.events != []
  {
    Handle(s.core, s.events[0], a, at)
  }

  /** What a submitted DAG costs in the worst case. */
  function WorstCase(cfg: Config, h: Graph, work: map<Id, int>): Costs {
    Costs(h, work, cfg.minComp, cfg.minBand)
  }

  ghost predicate MayArrive(cfg: Config, d: Id, h: Graph, work: map<Id, int>) {
    ValidDag(d, h) && Good(WorstCase(cfg, h, work))
  }

  /** Ranks and volume are those Algorithm 1 computes. */
  ghost predicate ByAlgorithmOne(m: Costs, a: Arrival) {
    Good(m) && RankedBySearch(m, a.rank) && a.vol == Volume(m)
  }

  /** What an arriving DAG brings: ranks, stamps and clock readings for its tasks, the ranks of Algorithm 1 if it
      is new. */
  ghost predicate ArrivalKnown(cfg: Config, c: Core, e: Event, a: Arrival) {
    e.DagArrived? ==>
      && a.rank.Keys == a.stale.Keys == a.clock.Keys == e.topology.Keys
      && (e.dagID !in c.dags ==> ByAlgorithmOne(WorstCase(cfg, e.topology, e.work), a))
  }

  /** The clock is read after the turn has begun and before its scheduling pass. */
  ghost predicate ReadInTime(a: Arrival, at: real, later: real) {
    forall t :: t in a.clock ==> at <= a.clock[t] <= later
  }

  ghost predicate Step(cfg: Config, s: Sys, l: Label, s': Sys) {
    match l
    case Submit(d, h, work) =>
      MayArrive(cfg, d, h, work) && s' == s.(events := s.events + [DagArrived(d, h, work)])
    case Finish(j) =>
      && j in s.running
      && s' == s.(running := s.running - multiset{j}, events := s.events + [TaskCompleted(j.task, j.worker)])
    case React(a, at, later, trace) =>
      && s.events != [] && s.clock <= at <= later && ArrivalKnown(cfg, s.core, s.events[0], a)
      && ReadInTime(a, at, later)
      && CanDispatchAll(Handled(s, a, at), cfg.ws, trace, cfg.aging, later)
      && Quiet(DispatchAll(Handled(s, a, at), trace), cfg.ws)
      && s' == Sys(DispatchAll(Handled(s, a, at), trace), s.events[1..], s.running + multiset(trace), later)
  }

  ghost predicate IsRun(cfg: Config, ss: seq<Sys>, ls: seq<Label>) {
    && |ss| == |ls| + 1 && ss[0] == Init(cfg)
    && forall i :: 0 <= i < |ls| ==> Step(cfg, ss[i], ls[i], ss[i + 1])
  }

  // ---------- the system invariant ----------

  ghost function Reported(e: Event): multiset<Job> {
    match e
    case TaskCompleted(t, w) => multiset{Job(t, w)}
    case _ => multiset{}
  }

  /** Completion events still in the channel. */
  ghost function Pending(events: seq<Event>): multiset<Job> {
    if events == [] then multiset{} else Reported(events[0]) + Pending(events[1..])
  }

  lemma {:induction false} PendingSnoc(events: seq<Event>, e: Event)
    ensures Pending(events + [e]) == Pending(events) + Reported(e)
  {
    hide Reported;
    if events == [] {
      assert events + [e] == [e];
    } else {
      PendingSnoc(events[1..], e);
      assert (events + [e])[1..] == events[1..] + [e];
    }
  }

  /** Jobs not yet reported back to the reactor. */
  ghost function Jobs(s: Sys): multiset<Job> {
    s.running + Pending(s.events)
  }

  ghost predicate EventFits(cfg: Config, e: Event) {
    match e
    case DagArrived(d, h, work) => MayArrive(cfg, d, h, work)
    case TaskCompleted(_, _) => true
    case WorkerIdle(_) => false
  }

  ghost predicate SysInv(cfg: Config, s: Sys) {
    && Inv(s.core, cfg.ws, Jobs(s), multiset{})
    && Quiet(s.core, cfg.ws)
    && EventsFit(cfg, s.events)
  }

  lemma InitHolds(cfg: Config)
    ensures SysInv(cfg, Init(cfg))
  {
    var c := Init(cfg).core;
    assert Registry(c.dags, c.g);
    assert forall t :: LedgerOf(c.tasks, c.log, t);
    assert Assigned(c.tasks, c.workers, cfg.ws, multiset{});
  }

  lemma HandleKeeps(cfg: Config, s: Sys, a: Arrival, at: real)
    requires SysInv(cfg, s) && s.events != [] && ArrivalKnown(cfg, s.core, s.events[0], a)
    ensures Inv(Handled(s, a, at), cfg.ws, s.running + Pending(s.events[1..]), multiset{})
  {
    hide Inv;
    match s.events[0]
    case DagArrived(d, h, _) =>
      assert EventFits(cfg, s.events[0]);
      assert Jobs(s) == s.running + Pending(s.events[1..]);
      ArrivalKeeps(s.core, cfg.ws, Jobs(s), d, h, a);
    case TaskCompleted(t, w) =>
      CompletionKeeps(s.core, cfg.ws, Jobs(s), Job(t, w), at);
      assert Jobs(s) - multiset{Job(t, w)} == s.running + Pending(s.events[1..]);
    case WorkerIdle(_) =>
      assert false;
  }

  ghost predicate EventsFit(cfg: Config, events: seq<Event>) {
    forall k :: 0 <= k < |events| ==> EventFits(cfg, events[k])
  }

  lemma PostKeeps(cfg: Config, s: Sys, s': Sys, e: Event)
    requires SysInv(cfg, s) && EventFits(cfg, e)
    requires s'.core == s.core && s'.events == s.events + [e] && s'.running + Reported(e) == s.running
    ensures SysInv(cfg, s')
  {
    hide Inv, Quiet, EventFits, Reported;
    PendingSnoc(s.events, e);
    assert Jobs(s') == Jobs(s);
  }

  lemma ReactKeeps(cfg: Config, s: Sys, a: Arrival, at: real, later: real, trace: seq<Job>, s': Sys)
    requires SysInv(cfg, s) && Step(cfg, s, React(a, at, later, trace), s')
    ensures SysInv(cfg, s')
  {
    hide Inv, Quiet, EventFits, CanDispatchAll, DispatchAll, Handled, ArrivalKnown;
    HandleKeeps(cfg, s, a, at);
    DispatchAllKeeps(Handled(s, a, at), cfg.ws, s.running + Pending(s.events[1..]), trace, cfg.aging, later);
    assert Jobs(s') == s.running + Pending(s.events[1..]) + multiset(trace);
  }

  lemma StepKeeps(cfg: Config, s: Sys, l: Label, s': Sys)
    requires SysInv(cfg, s) && Step(cfg, s, l, s')
    ensures SysInv(cfg, s')
  {
    hide SysInv;
    match l
    case Submit(d, h, work) => PostKeeps(cfg, s, s', DagArrived(d, h, work));
    case Finish(j) => PostKeeps(cfg, s, s', TaskCompleted(j.task, j.worker));
    case React(a, at, later, trace) => ReactKeeps(cfg, s, a, at, later, trace, s');
  }

  /** The invariant holds in every state of every run. */
  lemma {:induction false} RunKeeps(cfg: Config, ss: seq<Sys>, ls: seq<Label>, i: nat)
    requires IsRun(cfg, ss, ls) && i <= |ls|
    ensures SysInv(cfg, ss[i])
  {
    hide SysInv, Step;
    if i == 0 {
      InitHolds(cfg);
    } else {
      RunKeeps(cfg, ss, ls, i - 1);
      StepKeeps(cfg, ss[i - 1], ls[i - 1], ss[i]);
    }
  }
}
