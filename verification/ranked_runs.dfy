/** What the priorities of a run are made of: each registered DAG keeps the ranks and the volume term that Algorithm 1
    computes for the DAG as submitted (internal/scheduler/core.go:133-163, 478-617, 628-653). */
module RankedRuns {
  import opened Api
  import opened AlgorithmOne
  import opened Graphs
  import opened Histories
  import opened LongestPaths
  import opened Overtaking
  import opened Reactor
  import opened ReactorInvariant
  import opened Runs
  import Termination

  /** The registered tasks of DAG d are those of h, ranked by a. */
  ghost predicate Carries(c: Core, d: Id, h: Graph, a: Arrival) {
    && d in c.vol && c.vol[d] == a.vol && (forall t :: t in c.g && ExtractDAGID(t) == d ==> t in h)
    && forall t :: t in h ==> t in c.g && c.g[t] == h[t] && t in c.rank && t in a.rank && c.rank[t] == a.rank[t]
  }

  ghost predicate RankedFrom(cfg: Config, c: Core, d: Id, h: Graph, work: map<Id, int>) {
    exists a :: ByAlgorithmOne(WorstCase(cfg, h, work), a) && Carries(c, d, h, a)
  }

  /** One of the first i steps submitted this DAG. */
  ghost predicate WasSubmitted(ls: seq<Label>, i: nat, d: Id, h: Graph, work: map<Id, int>) {
    exists n :: 0 <= n < i && n < |ls| && ls[n] == Submit(d, h, work)
  }

  ghost predicate EventsSubmitted(ls: seq<Label>, i: nat, events: seq<Event>) {
    forall k :: 0 <= k < |events| && events[k].DagArrived? ==>
      WasSubmitted(ls, i, events[k].dagID, events[k].topology, events[k].work)
  }

  lemma SubmittedLater(ls: seq<Label>, i: nat, j: nat, d: Id, h: Graph, work: map<Id, int>)
    requires i <= j && WasSubmitted(ls, i, d, h, work)
    ensures WasSubmitted(ls, j, d, h, work)
  {
  }

  /** Every DAG in the channel was submitted. */
  lemma {:induction false} ChannelSubmitted(cfg: Config, ss: seq<Sys>, ls: seq<Label>, i: nat)
    requires IsRun(cfg, ss, ls) && i <= |ls|
    ensures EventsSubmitted(ls, i, ss[i].events)
  {
    hide MayArrive, ArrivalKnown, CanDispatchAll, DispatchAll, Quiet, Handled;
    if i > 0 {
      ChannelSubmitted(cfg, ss, ls, i - 1);
      assert Step(cfg, ss[i - 1], ls[i - 1], ss[i]);
      forall k | 0 <= k < |ss[i].events| && ss[i].events[k].DagArrived?
        ensures WasSubmitted(ls, i, ss[i].events[k].dagID, ss[i].events[k].topology, ss[i].events[k].work)
      {
        if k < |ss[i - 1].events| && ss[i].events[k] == ss[i - 1].events[k] {
        } else if ls[i - 1].React? {
          assert ss[i].events[k] == ss[i - 1].events[k + 1];
        } else {
          var e := ss[i].events[k];
          assert ls[i - 1] == Submit(e.dagID, e.topology, e.work);
        }
      }
    }
  }

  // ---------- one step ----------

  /** Handling anything but a DAG's own first arrival leaves its ranks and volume term alone. */
  lemma HandlingCarries(cfg: Config, s: Sys, a: Arrival, at: real, d: Id, h: Graph, b: Arrival)
    requires SysInv(cfg, s) && s.events != [] && ArrivalKnown(cfg, s.core, s.events[0], a)
    requires d in s.core.dags && Carries(s.core, d, h, b)
    ensures Carries(Handled(s, a, at), d, h, b)
  {
    hide Counted, Staged, Ledger, Assigned, ExitMarked, Quiet, ByAlgorithmOne, Registry, ValidDag, Good, Release;
    hide AfterArrival, Carries;
    assert EventFits(cfg, s.events[0]);
    match s.events[0]
    case DagArrived(e, k, _) => ArrivalCarries(s.core, e, k, a, d, h, b);
    case TaskCompleted(t, w) => CompletionCarries(s.core, t, w, at, d, h, b);
    case WorkerIdle(_) => assert false;
  }

  lemma CompletionCarries(c: Core, t: Id, w: Id, at: real, d: Id, h: Graph, b: Arrival)
    requires Carries(c, d, h, b)
    ensures Carries(AfterCompletion(c, t, w, at), d, h, b)
  {
    hide Release, ExtractDAGID;
    var c1 := MarkCompleted(c, t, w);
    if t in c1.g {
      ReleaseKeepsRanks(c1, c1.g[t], at);
      Termination.ReleaseCompletesNothing(c1, c1.g[t], at);
    }
  }

  lemma NewParts(c: Core, d: Id, h: Graph, a: Arrival)
    requires d !in c.dags
    ensures var c' := AfterArrival(c, d, h, a);
            c'.g == c.g + h && c'.rank == c.rank + a.rank && c'.vol == c.vol[d := a.vol]
  {
    hide Admitted, Stamped, InDegrees, Entries, Pushed;
  }

  lemma ArrivalCarries(c: Core, e: Id, k: Graph, a: Arrival, d: Id, h: Graph, b: Arrival)
    requires Registry(c.dags, c.g) && Domains(c) && (e !in c.dags ==> ValidDag(e, k) && a.rank.Keys == k.Keys)
    requires d in c.dags && Carries(c, d, h, b)
    ensures Carries(AfterArrival(c, e, k, a), d, h, b)
  {
    hide AfterArrival, Closed, Acyclic, ExtractDAGID;
    if e !in c.dags {
      ArrivalDisjoint(c, e, k);
      NewParts(c, e, k, a);
    } else {
      ArrivalRefused(c, e, k, a);
    }
  }

  /** A new DAG carries what it brings. */
  lemma NewCarries(c: Core, d: Id, h: Graph, a: Arrival)
    requires Registry(c.dags, c.g) && d !in c.dags && ValidDag(d, h) && a.rank.Keys == h.Keys
    ensures Carries(AfterArrival(c, d, h, a), d, h, a)
  {
    hide AfterArrival, Closed, Acyclic, ExtractDAGID;
    ArrivalDisjoint(c, d, h);
    NewParts(c, d, h, a);
  }

  lemma DispatchCarries(c: Core, trace: seq<Job>, d: Id, h: Graph, a: Arrival)
    ensures Carries(DispatchAll(c, trace), d, h, a) <==> Carries(c, d, h, a)
  {
    hide DispatchAll;
    DispatchFrames(c, trace);
  }

  lemma StepCarries(cfg: Config, s: Sys, l: Label, s': Sys, d: Id, h: Graph, b: Arrival)
    requires SysInv(cfg, s) && Step(cfg, s, l, s') && d in s.core.dags && Carries(s.core, d, h, b)
    ensures Carries(s'.core, d, h, b)
  {
    hide SysInv, Handled, DispatchAll, CanDispatchAll, Quiet, ArrivalKnown, MayArrive, Carries;
    if l.React? {
      HandlingCarries(cfg, s, l.arrival, l.handledAt, d, h, b);
      DispatchCarries(Handled(s, l.arrival, l.handledAt), l.trace, d, h, b);
    }
  }

  /** The step that registers a DAG handles its arrival, and gives it the ranks of Algorithm 1. */
  lemma StepRegisters(cfg: Config, s: Sys, l: Label, s': Sys, d: Id)
    requires SysInv(cfg, s) && Step(cfg, s, l, s') && d !in s.core.dags && d in s'.core.dags
    ensures s.events != [] && s.events[0].DagArrived? && s.events[0].dagID == d
    ensures RankedFrom(cfg, s'.core, d, s.events[0].topology, s.events[0].work)
  {
    hide Counted, Staged, Ledger, Assigned, ExitMarked, Quiet, EventsFit, CanDispatchAll, DispatchAll, MayArrive;
    hide AfterArrival, AfterCompletion, Carries, ByAlgorithmOne, Registry, ValidDag;
    var c := Handled(s, l.arrival, l.handledAt);
    Termination.DispatchCompletesNothing(c, l.trace);
    HandlingRegisters(cfg, s, l.arrival, l.handledAt, d);
    var h := s.events[0].topology;
    DispatchCarries(c, l.trace, d, h, l.arrival);
  }

  lemma HandlingRegisters(cfg: Config, s: Sys, a: Arrival, at: real, d: Id)
    requires SysInv(cfg, s) && s.events != [] && ArrivalKnown(cfg, s.core, s.events[0], a)
    requires d !in s.core.dags && d in Handled(s, a, at).dags
    ensures s.events[0].DagArrived? && s.events[0].dagID == d
    ensures Carries(Handled(s, a, at), d, s.events[0].topology, a)
  {
    hide Counted, Staged, Ledger, Assigned, ExitMarked, Quiet, Release, Carries, ByAlgorithmOne, Registry, ValidDag;
    hide Admitted, Stamped, InDegrees, Good;
    assert EventFits(cfg, s.events[0]);
    match s.events[0]
    case DagArrived(e, h, _) =>
      if d == e { NewCarries(s.core, d, h, a); }
    case TaskCompleted(t, w) =>
      var c1 := MarkCompleted(s.core, t, w);
      if t in c1.g { Termination.ReleaseCompletesNothing(c1, c1.g[t], at); }
    case WorkerIdle(_) =>
  }

  // ---------- over whole runs ----------

  /** Every registered DAG carries, in every state of every run, the tasks, edges, ranks and volume term of one that was
      submitted under its ID. */
  lemma {:induction false} RankedAsSubmitted(cfg: Config, ss: seq<Sys>, ls: seq<Label>, i: nat, d: Id)
    returns (h: Graph, work: map<Id, int>)
    requires IsRun(cfg, ss, ls) && i <= |ls| && d in ss[i].core.dags
    ensures WasSubmitted(ls, i, d, h, work) && RankedFrom(cfg, ss[i].core, d, h, work)
  {
    hide SysInv, Step, Carries, ByAlgorithmOne;
    RunKeeps(cfg, ss, ls, i - 1);
    var l := ls[i - 1];
    if d in ss[i - 1].core.dags {
      h, work := RankedAsSubmitted(cfg, ss, ls, i - 1, d);
      SubmittedLater(ls, i - 1, i, d, h, work);
      var a :| ByAlgorithmOne(WorstCase(cfg, h, work), a) && Carries(ss[i - 1].core, d, h, a);
      StepCarries(cfg, ss[i - 1], l, ss[i], d, h, a);
    } else {
      StepRegisters(cfg, ss[i - 1], l, ss[i], d);
      ChannelSubmitted(cfg, ss, ls, i - 1);
      h, work := ss[i - 1].events[0].topology, ss[i - 1].events[0].work;
      SubmittedLater(ls, i - 1, i, d, h, work);
    }
  }

  lemma QueuedRegistered(cfg: Config, s: Sys, v: Id)
    requires SysInv(cfg, s) && v in s.core.g
    ensures ExtractDAGID(v) in s.core.dags && v in s.core.rank && v in s.core.readyAt
  {
    hide Closed, Acyclic, Counted, Staged, Ledger, Assigned, ExitMarked, Quiet, EventsFit;
  }

  /** Eq. 19 decides: over any run, a task dispatched while v is passed over has at least v's rank plus volume term plus
      aged waiting time at the moment of the scheduling pass. */
  lemma BestByEquation(cfg: Config, ss: seq<Sys>, ls: seq<Label>, j: nat, k: nat, v: Id)
    requires IsRun(cfg, ss, ls) && j < |ls| && ls[j].React? && ss[j].events != [] && k < |ls[j].trace|
    requires PassedOver(Handled(ss[j], ls[j].arrival, ls[j].handledAt), ls[j].trace, k, v)
    ensures var c, u := ss[j + 1].core, ls[j].trace[k].task;
      && u in c.rank && u in c.readyAt && ExtractDAGID(u) in c.vol
      && v in c.rank && v in c.readyAt && ExtractDAGID(v) in c.vol
      && c.rank[v] + c.vol[ExtractDAGID(v)] + (ls[j].scheduledAt - c.readyAt[v]) * cfg.aging
         <= c.rank[u] + c.vol[ExtractDAGID(u)] + (ls[j].scheduledAt - c.readyAt[u]) * cfg.aging
  {
    hide CanDispatchAll, DispatchAll, Quiet, ArrivalKnown, SysInv, PassedOver, Handled, Carries, ByAlgorithmOne;
    hide ExtractDAGID;
    var c, u, now := Handled(ss[j], ls[j].arrival, ls[j].handledAt), ls[j].trace[k].task, ls[j].scheduledAt;
    assert Step(cfg, ss[j], ls[j], ss[j + 1]);
    BestFirst(c, cfg.ws, ls[j].trace, cfg.aging, now, k, v);
    DispatchFrames(c, ls[j].trace);
    RunKeeps(cfg, ss, ls, j);
    RunKeeps(cfg, ss, ls, j + 1);
    TermKnown(cfg, ss, ls, j + 1, u);
    TermKnown(cfg, ss, ls, j + 1, v);
    Spelled(c, u, cfg.aging, now);
    Spelled(c, v, cfg.aging, now);
  }

  lemma TermKnown(cfg: Config, ss: seq<Sys>, ls: seq<Label>, i: nat, v: Id)
    requires IsRun(cfg, ss, ls) && i <= |ls| && v in ss[i].core.rank
    ensures ExtractDAGID(v) in ss[i].core.vol
  {
    hide Step, ByAlgorithmOne, ExtractDAGID;
    RunKeeps(cfg, ss, ls, i);
    RankRegistered(cfg, ss[i], v);
    QueuedRegistered(cfg, ss[i], v);
    hide SysInv;
    var h, work := RankedAsSubmitted(cfg, ss, ls, i, ExtractDAGID(v));
  }

  lemma RankRegistered(cfg: Config, s: Sys, v: Id)
    requires SysInv(cfg, s) && v in s.core.rank
    ensures v in s.core.g
  {
    hide Registry, Counted, Staged, Ledger, Assigned, ExitMarked, Quiet, EventsFit;
  }

  lemma Spelled(c: Core, t: Id, aging: real, now: real)
    requires t in c.rank && t in c.readyAt && ExtractDAGID(t) in c.vol
    ensures Priority(c, t, aging, now) == c.rank[t] + c.vol[ExtractDAGID(t)] + (now - c.readyAt[t]) * aging
  {
  }

  /** Each dispatch goes to the first worker in the list that is idle at that moment. */
  lemma ToFirstIdle(cfg: Config, ss: seq<Sys>, ls: seq<Label>, j: nat, k: nat) returns (i: nat)
    requires IsRun(cfg, ss, ls) && j < |ls| && ls[j].React? && ss[j].events != [] && k < |ls[j].trace|
    ensures i < |cfg.ws| && cfg.ws[i] == ls[j].trace[k].worker
    ensures var before := DispatchAll(Handled(ss[j], ls[j].arrival, ls[j].handledAt), ls[j].trace[..k]).workers;
      && cfg.ws[i] in before && before[cfg.ws[i]] == Idle
      && forall n :: 0 <= n < i ==> !(cfg.ws[n] in before && before[cfg.ws[n]] == Idle)
  {
    hide CanDispatchAll, DispatchAll, Quiet, ArrivalKnown, Handled, Priority;
    var c := Handled(ss[j], ls[j].arrival, ls[j].handledAt);
    assert Step(cfg, ss[j], ls[j], ss[j + 1]);
    DispatchedBest(c, cfg.ws, ls[j].trace, cfg.aging, ls[j].scheduledAt, k);
    i := NoneIdleBefore(DispatchAll(c, ls[j].trace[..k]).workers, cfg.ws);
  }
}
