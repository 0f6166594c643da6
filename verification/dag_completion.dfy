/** When does the COMPLETED mark on a DAG mean that all its tasks are done?  (internal/scheduler/core.go:176-180) */
module DagCompletion {
  import opened Api
  import opened Graphs
  import opened Histories
  import opened Reactor
  import opened ReactorInvariant
  import opened Runs
  import RunTheorems
  import StateManager
  import Termination

  /** Every proper ancestor of a task that is not waiting has completed. */
  lemma {:induction false} AncestorsCompleted(c: Core, ws: seq<Id>, jobs: multiset<Job>, u: Id, ks: seq<nat>)
    requires Inv(c, ws, jobs, multiset{}) && Walk(c.g, u, ks) && ks != []
    requires End(c.g, u, ks) in c.tasks && c.tasks[End(c.g, u, ks)] != Waiting
    ensures Is(c.tasks, u, Completed)
    decreases |ks|
  {
    hide Inv;
    var v := c.g[u][ks[0]].targetTaskID;
    if ks[1..] != [] {
      AncestorsCompleted(c, ws, jobs, v, ks[1..]);
    }
    assert Edge(c.g, u, v);
    InGraph(c, ws, jobs, v);
    RunTheorems.WaitsIff(c, ws, jobs, v);
  }

  lemma InGraph(c: Core, ws: seq<Id>, jobs: multiset<Job>, t: Id)
    requires Inv(c, ws, jobs, multiset{})
    ensures t in c.tasks <==> t in c.g
    ensures Closed(c.g) && Acyclic(c.g)
  {
  }

  ghost predicate ExitOf(g: Graph, d: Id, x: Id) {
    x in g && g[x] == [] && ExtractDAGID(x) == d
  }

  ghost predicate AllDone(c: Core, d: Id) {
    forall x :: x in c.g && ExtractDAGID(x) == d ==> Is(c.tasks, x, Completed)
  }

  /** Every exit task of the DAG but t has completed. */
  ghost predicate OtherExitsDone(g: Graph, tasks: map<Id, TaskState>, d: Id, t: Id) {
    forall x :: ExitOf(g, d, x) && x != t ==> Is(tasks, x, Completed)
  }

  /** From every task of a DAG some exit task of the same DAG can be reached. */
  lemma {:induction false} ReachesExit(dags: set<Id>, g: Graph, u: Id) returns (ks: seq<nat>)
    requires Registry(dags, g) && u in g
    ensures Walk(g, u, ks) && ExitOf(g, ExtractDAGID(u), End(g, u, ks))
    decreases Topo(g)[u]
  {
    if g[u] == [] {
      ks := [];
    } else {
      var rest := ReachesExit(dags, g, g[u][0].targetTaskID);
      ks := [0] + rest;
      assert ks[1..] == rest;
    }
  }

  /** Completing the last exit of a DAG finds the rest of the DAG complete. */
  lemma OthersDone(c: Core, ws: seq<Id>, jobs: multiset<Job>, t: Id, x: Id)
    requires Inv(c, ws, jobs, multiset{}) && Is(c.tasks, t, Running)
    requires OtherExitsDone(c.g, c.tasks, ExtractDAGID(t), t)
    requires x in c.g && ExtractDAGID(x) == ExtractDAGID(t) && x != t
    ensures Is(c.tasks, x, Completed)
  {
    hide Counted, Staged, Ledger, ExitMarked, Assigned, Registry;
    var ks := ReachesExit(c.dags, c.g, x);
    if ks != [] { AncestorsCompleted(c, ws, jobs, x, ks); }
  }

  /** Handling the completion of an exit task marks the DAG COMPLETED; at that moment all its tasks are complete exactly
      when all its other exit tasks are. */
  lemma ExitCompletes(c: Core, ws: seq<Id>, jobs: multiset<Job>, t: Id, w: Id, now: real)
    requires Inv(c, ws, jobs, multiset{}) && Job(t, w) in jobs && t in c.g && c.g[t] == []
    ensures var c' := AfterCompletion(c, t, w, now);
      && c'.g == c.g && c'.dagStates == c.dagStates[ExtractDAGID(t) := DagCompleted]
      && (AllDone(c', ExtractDAGID(t)) <==> OtherExitsDone(c.g, c.tasks, ExtractDAGID(t), t))
  {
    hide Counted, Staged, Ledger, ExitMarked, Assigned, Registry, AfterCompletion;
    var d := ExtractDAGID(t);
    JobIsRunning(c.tasks, c.workers, ws, jobs, Job(t, w));
    Termination.CompletionCompletes(c, t, w, now);
    if OtherExitsDone(c.g, c.tasks, d, t) {
      forall x | x in c.g && ExtractDAGID(x) == d && x != t {
        OthersDone(c, ws, jobs, t, x);
      }
    }
  }

  /** The same, in any run. */
  lemma MarkMeansDoneIffLastExit(cfg: Config, ss: seq<Sys>, ls: seq<Label>, i: nat, t: Id, w: Id)
    requires IsRun(cfg, ss, ls) && i < |ls| && ls[i].React?
    requires ss[i].events != [] && ss[i].events[0] == TaskCompleted(t, w)
    requires t in ss[i].core.g && ss[i].core.g[t] == []
    ensures var c := Handled(ss[i], ls[i].arrival, ls[i].handledAt);
      && c.dagStates == ss[i].core.dagStates[ExtractDAGID(t) := DagCompleted]
      && (AllDone(c, ExtractDAGID(t)) <==> OtherExitsDone(ss[i].core.g, ss[i].core.tasks, ExtractDAGID(t), t))
  {
    RunKeeps(cfg, ss, ls, i);
    hide Inv, AfterCompletion, AllDone, OtherExitsDone;
    assert Pending(ss[i].events) == multiset{Job(t, w)} + Pending(ss[i].events[1..]);
    ExitCompletes(ss[i].core, cfg.ws, Jobs(ss[i]), t, w, ls[i].handledAt);
  }

  ghost predicate OnlyExit(g: Graph, d: Id, t: Id) {
    forall x :: ExitOf(g, d, x) ==> x == t
  }

  /** A DAG with a single exit task is never marked before all its tasks are complete. */
  lemma SingleExitMarksDone(cfg: Config, ss: seq<Sys>, ls: seq<Label>, i: nat, t: Id, w: Id)
    requires IsRun(cfg, ss, ls) && i < |ls| && ls[i].React?
    requires ss[i].events != [] && ss[i].events[0] == TaskCompleted(t, w)
    requires t in ss[i].core.g && ss[i].core.g[t] == [] && OnlyExit(ss[i].core.g, ExtractDAGID(t), t)
    ensures AllDone(Handled(ss[i], ls[i].arrival, ls[i].handledAt), ExtractDAGID(t))
  {
    hide Step, AllDone, Inv;
    assert OtherExitsDone(ss[i].core.g, ss[i].core.tasks, ExtractDAGID(t), t);
    MarkMeansDoneIffLastExit(cfg, ss, ls, i, t, w);
  }

  // ---------- which DAGs are ever marked too early ----------

  ghost predicate Marked(c: Core, d: Id) {
    d in c.dagStates && c.dagStates[d] == DagCompleted
  }

  /** The DAG counts as COMPLETED while some task of it is not. */
  ghost predicate MarkedEarly(c: Core, d: Id) {
    Marked(c, d) && !AllDone(c, d)
  }

  ghost predicate SomeExitDone(c: Core, d: Id) {
    exists x :: CompletedExit(c.g, c.tasks, d, x)
  }

  ghost predicate SeveralExits(g: Graph, d: Id) {
    exists x, y :: ExitOf(g, d, x) && ExitOf(g, d, y) && x != y
  }

  /** When the only exit task has completed, so has everything before it. */
  lemma OnlyExitDone(c: Core, ws: seq<Id>, jobs: multiset<Job>, d: Id, x: Id, u: Id)
    requires Inv(c, ws, jobs, multiset{}) && CompletedExit(c.g, c.tasks, d, x) && OnlyExit(c.g, d, x)
    requires u in c.g && ExtractDAGID(u) == d
    ensures Is(c.tasks, u, Completed)
  {
    hide Counted, Staged, Ledger, ExitMarked, Assigned, Registry;
    var ks := ReachesExit(c.dags, c.g, u);
    if ks != [] { AncestorsCompleted(c, ws, jobs, u, ks); }
  }

  lemma EarlyNeedsSeveral(cfg: Config, s: Sys, d: Id)
    requires SysInv(cfg, s) && MarkedEarly(s.core, d)
    ensures SeveralExits(s.core.g, d)
  {
    hide Registry, Domains, Counted, Staged, Ledger, Assigned, Quiet, EventsFit;
    var x :| CompletedExit(s.core.g, s.core.tasks, d, x);
    assert ExitOf(s.core.g, d, x);
    if OnlyExit(s.core.g, d, x) {
      forall u | u in s.core.g && ExtractDAGID(u) == d ensures Is(s.core.tasks, u, Completed) {
        OnlyExitDone(s.core, cfg.ws, Jobs(s), d, x, u);
      }
    }
  }

  /** A registered DAG gets no further tasks. */
  lemma StepFixesDag(cfg: Config, s: Sys, l: Label, s': Sys, d: Id)
    requires SysInv(cfg, s) && Step(cfg, s, l, s') && d in s.core.dags
    ensures d in s'.core.dags && forall u :: u in s'.core.g && ExtractDAGID(u) == d ==> u in s.core.g
  {
    hide Inv, CanDispatchAll, DispatchAll, Quiet, MayArrive;
    if l.React? {
      HandlingFixesDag(cfg, s, l.arrival, l.handledAt, d);
      Termination.DispatchCompletesNothing(Handled(s, l.arrival, l.handledAt), l.trace);
    }
  }

  lemma HandlingFixesDag(cfg: Config, s: Sys, a: Arrival, at: real, d: Id)
    requires SysInv(cfg, s) && s.events != [] && d in s.core.dags
    ensures var c := Handled(s, a, at);
            d in c.dags && forall u :: u in c.g && ExtractDAGID(u) == d ==> u in s.core.g
  {
    hide Inv, Quiet, AfterArrival, AfterCompletion, LongestPaths.Good, ValidDag;
    match s.events[0]
    case DagArrived(e, h, _) =>
      assert EventFits(cfg, s.events[0]);
      ArrivalFixesDag(s.core, e, h, a, d);
    case TaskCompleted(t, w) => CompletionKeepsDags(s.core, t, w, at);
    case WorkerIdle(_) =>
  }

  lemma ArrivalFixesDag(c: Core, e: Id, h: Graph, a: Arrival, d: Id)
    requires ValidDag(e, h) && d in c.dags
    ensures var c' := AfterArrival(c, e, h, a);
            d in c'.dags && forall u :: u in c'.g && ExtractDAGID(u) == d ==> u in c.g
  {
    hide Closed, Acyclic, Admitted, Stamped, InDegrees, Entries, Pushed, ExtractDAGID;
  }

  lemma CompletionKeepsDags(c: Core, t: Id, w: Id, at: real)
    ensures AfterCompletion(c, t, w, at).g == c.g && AfterCompletion(c, t, w, at).dags == c.dags
  {
    hide Release, StateManager.Moved, ExtractDAGID, Termination.SameCompleted;
    var c1 := MarkCompleted(c, t, w);
    if t in c1.g { Termination.ReleaseCompletesNothing(c1, c1.g[t], at); }
  }

  /** From state i on, a registered DAG has the same exit tasks. */
  lemma {:induction false} SameExits(cfg: Config, ss: seq<Sys>, ls: seq<Label>, i: nat, j: nat, d: Id)
    requires IsRun(cfg, ss, ls) && i <= j <= |ls| && d in ss[i].core.dags
    ensures d in ss[j].core.dags
    ensures forall x :: ExitOf(ss[j].core.g, d, x) ==> ExitOf(ss[i].core.g, d, x)
    decreases j
  {
    hide SysInv, Step;
    if i < j {
      SameExits(cfg, ss, ls, i, j - 1, d);
      RunKeeps(cfg, ss, ls, j - 1);
      StepExtends(cfg, ss[j - 1], ls[j - 1], ss[j]);
      StepFixesDag(cfg, ss[j - 1], ls[j - 1], ss[j], d);
    }
  }

  lemma {:induction false} StillExits(cfg: Config, ss: seq<Sys>, ls: seq<Label>, i: nat, j: nat, d: Id, x: Id)
    requires IsRun(cfg, ss, ls) && i <= j <= |ls| && ExitOf(ss[i].core.g, d, x)
    ensures ExitOf(ss[j].core.g, d, x)
    decreases j
  {
    hide SysInv, Step;
    if i < j {
      StillExits(cfg, ss, ls, i, j - 1, d, x);
      RunKeeps(cfg, ss, ls, j - 1);
      StepExtends(cfg, ss[j - 1], ls[j - 1], ss[j]);
    }
  }

  /** The step in which the first exit task of a DAG completes. */
  lemma {:induction false} FirstExit(cfg: Config, ss: seq<Sys>, ls: seq<Label>, m: nat, d: Id) returns (n: nat)
    requires IsRun(cfg, ss, ls) && m <= |ls| && SomeExitDone(ss[m].core, d)
    ensures n < m && !SomeExitDone(ss[n].core, d) && SomeExitDone(ss[n + 1].core, d)
  {
    hide Step;
    assert m > 0;
    if SomeExitDone(ss[m - 1].core, d) { n := FirstExit(cfg, ss, ls, m - 1, d); } else { n := m - 1; }
  }

  /** All exit tasks of the DAG but t are open. */
  ghost predicate OthersOpen(g: Graph, tasks: map<Id, TaskState>, d: Id, t: Id) {
    forall y :: ExitOf(g, d, y) && y != t ==> !Is(tasks, y, Completed)
  }

  /** An arrival completes nothing. */
  lemma NoExitByArrival(cfg: Config, s: Sys, e: Id, h: Graph, a: Arrival, d: Id)
    requires SysInv(cfg, s)
    requires e !in s.core.dags ==> ValidDag(e, h) && a.rank.Keys == a.stale.Keys == a.clock.Keys == h.Keys
    requires SomeExitDone(AfterArrival(s.core, e, h, a), d)
    ensures SomeExitDone(s.core, d)
  {
    hide Counted, Staged, Ledger, Assigned, ExitMarked, Quiet, EventsFit, AfterArrival, Registry, ValidDag;
    var c := AfterArrival(s.core, e, h, a);
    var x :| CompletedExit(c.g, c.tasks, d, x);
    if e in s.core.dags {
      assert c == s.core.(dagStates := s.core.dagStates[e := DagFailed]) by { ArrivalRefused(s.core, e, h, a); }
    } else {
      ArrivalDisjoint(s.core, e, h);
      ArrivalFields(s.core, e, h, a, c);
      assert x in s.core.tasks;
    }
    assert CompletedExit(s.core.g, s.core.tasks, d, x);
  }

  /** A completion completes one task, and if that is the DAG's first exit task, it marks the DAG. */
  lemma ExitByCompletion(cfg: Config, s: Sys, t: Id, w: Id, at: real, d: Id)
    requires SysInv(cfg, s) && Job(t, w) in Jobs(s) && !SomeExitDone(s.core, d)
    requires SomeExitDone(AfterCompletion(s.core, t, w, at), d)
    ensures var c := AfterCompletion(s.core, t, w, at);
            c.g == s.core.g && Marked(c, d) && ExitOf(c.g, d, t) && OthersOpen(c.g, c.tasks, d, t)
  {
    hide Registry, Counted, Staged, Ledger, ExitMarked, Quiet, EventsFit, AfterCompletion, Assigned;
    JobIsRunning(s.core.tasks, s.core.workers, cfg.ws, Jobs(s), Job(t, w));
    Termination.CompletionCompletes(s.core, t, w, at);
    var c := AfterCompletion(s.core, t, w, at);
    forall y | y != t ensures CompletedExit(c.g, c.tasks, d, y) <==> CompletedExit(s.core.g, s.core.tasks, d, y) {
      OthersAsBefore(s.core, t, c, d, y);
    }
    forall y | ExitOf(c.g, d, y) && y != t ensures !Is(c.tasks, y, Completed) {
      assert !CompletedExit(s.core.g, s.core.tasks, d, y);
    }
  }

  lemma OthersAsBefore(c: Core, t: Id, c': Core, d: Id, y: Id)
    requires c'.g == c.g && Termination.SameCompleted(c.tasks[t := Completed], c'.tasks) && y != t
    ensures CompletedExit(c'.g, c'.tasks, d, y) <==> CompletedExit(c.g, c.tasks, d, y)
  {
  }

  lemma FirstExitHandled(cfg: Config, s: Sys, a: Arrival, at: real, d: Id) returns (t: Id)
    requires SysInv(cfg, s) && s.events != [] && ArrivalKnown(cfg, s.core, s.events[0], a)
    requires !SomeExitDone(s.core, d) && SomeExitDone(Handled(s, a, at), d)
    ensures var c := Handled(s, a, at);
            c.g == s.core.g && Marked(c, d) && ExitOf(c.g, d, t) && OthersOpen(c.g, c.tasks, d, t)
  {
    hide Inv, Quiet, AfterArrival, AfterCompletion, ByAlgorithmOne, SomeExitDone, Marked, OthersOpen, ExitOf, ValidDag;
    hide EventsFit, LongestPaths.Good;
    Termination.EventsAreFit(cfg, s);
    match s.events[0]
    case DagArrived(e, h, _) => NoExitByArrival(cfg, s, e, h, a, d);
    case TaskCompleted(x, w) =>
      assert Pending(s.events) == multiset{Job(x, w)} + Pending(s.events[1..]);
      t := x;
      ExitByCompletion(cfg, s, x, w, at, d);
    case WorkerIdle(_) =>
  }

  /** Dispatching changes neither mark nor completions. */
  lemma DispatchedSame(c: Core, trace: seq<Job>, d: Id, t: Id)
    ensures var c' := DispatchAll(c, trace);
            && c'.g == c.g && (SomeExitDone(c', d) ==> SomeExitDone(c, d)) && (Marked(c', d) <==> Marked(c, d))
            && (OthersOpen(c'.g, c'.tasks, d, t) <==> OthersOpen(c.g, c.tasks, d, t))
  {
    hide DispatchAll;
    var c' := DispatchAll(c, trace);
    Termination.DispatchCompletesNothing(c, trace);
    if x :| CompletedExit(c'.g, c'.tasks, d, x) { assert CompletedExit(c.g, c.tasks, d, x); }
  }

  /** The step that completes a DAG's first exit task marks the DAG, and leaves its other exit tasks open. */
  lemma FirstExitMarks(cfg: Config, s: Sys, l: Label, s': Sys, d: Id) returns (t: Id)
    requires SysInv(cfg, s) && Step(cfg, s, l, s') && !SomeExitDone(s.core, d) && SomeExitDone(s'.core, d)
    ensures Marked(s'.core, d) && ExitOf(s'.core.g, d, t) && OthersOpen(s'.core.g, s'.core.tasks, d, t)
  {
    hide SysInv, CanDispatchAll, DispatchAll, Quiet, MayArrive, Handled, SomeExitDone, ExitOf, Marked, OthersOpen;
    hide ArrivalKnown;
    var c := Handled(s, l.arrival, l.handledAt);
    DispatchedSame(c, l.trace, d, "");
    t := FirstExitHandled(cfg, s, l.arrival, l.handledAt, d);
    DispatchedSame(c, l.trace, d, t);
  }

  lemma ExitRegistered(cfg: Config, s: Sys, d: Id, t: Id)
    requires SysInv(cfg, s) && ExitOf(s.core.g, d, t)
    ensures d in s.core.dags
  {
    hide Counted, Staged, Ledger, Assigned, ExitMarked, Quiet, EventsFit, Closed, Acyclic;
  }

  lemma OtherOpenEarly(c: Core, d: Id, t: Id, y: Id)
    requires Marked(c, d) && OthersOpen(c.g, c.tasks, d, t) && ExitOf(c.g, d, y) && y != t
    ensures MarkedEarly(c, d)
  {
  }

  /** In every run that has completed an exit task of a DAG: the DAG has been marked COMPLETED too early exactly when it
      has several exit tasks. */
  lemma EarlyIffSeveralExits(cfg: Config, ss: seq<Sys>, ls: seq<Label>, d: Id)
    requires IsRun(cfg, ss, ls) && SomeExitDone(ss[|ls|].core, d)
    ensures (exists i :: 0 <= i <= |ls| && MarkedEarly(ss[i].core, d)) <==> SeveralExits(ss[|ls|].core.g, d)
  {
    hide SysInv, Step, SomeExitDone, MarkedEarly, Marked, OthersOpen, ExitOf;
    if i :| 0 <= i <= |ls| && MarkedEarly(ss[i].core, d) {
      RunKeeps(cfg, ss, ls, i);
      EarlyNeedsSeveral(cfg, ss[i], d);
      var x, y :| ExitOf(ss[i].core.g, d, x) && ExitOf(ss[i].core.g, d, y) && x != y;
      StillExits(cfg, ss, ls, i, |ls|, d, x);
      StillExits(cfg, ss, ls, i, |ls|, d, y);
    }
    if SeveralExits(ss[|ls|].core.g, d) {
      var n := FirstExit(cfg, ss, ls, |ls|, d);
      RunKeeps(cfg, ss, ls, n);
      RunKeeps(cfg, ss, ls, n + 1);
      var t := FirstExitMarks(cfg, ss[n], ls[n], ss[n + 1], d);
      ExitRegistered(cfg, ss[n + 1], d, t);
      SameExits(cfg, ss, ls, n + 1, |ls|, d);
      var y :| ExitOf(ss[|ls|].core.g, d, y) && y != t;
      OtherOpenEarly(ss[n + 1].core, d, t, y);
    }
  }

  /** On arrival a new DAG is marked ACTIVE and registered with the tasks submitted; one whose ID is taken is marked
      FAILED and leaves the registered graph as it is.  No other DAG's mark changes. */
  lemma MarkOnArrival(cfg: Config, ss: seq<Sys>, ls: seq<Label>, i: nat)
    requires IsRun(cfg, ss, ls) && i < |ls| && ls[i].React? && ss[i].events != [] && ss[i].events[0].DagArrived?
    ensures var d, h := ss[i].events[0].dagID, ss[i].events[0].topology; var c, c' := ss[i].core, ss[i + 1].core;
      && c'.dagStates == c.dagStates[d := if d in c.dags then DagFailed else DagActive]
      && c'.dags == c.dags + {d} && c'.g == if d in c.dags then c.g else c.g + h
  {
    hide CanDispatchAll, DispatchAll, Quiet, ArrivalKnown, AfterArrival, SysInv;
    var d, h, l := ss[i].events[0].dagID, ss[i].events[0].topology, ls[i];
    assert Step(cfg, ss[i], l, ss[i + 1]);
    Termination.DispatchCompletesNothing(Handled(ss[i], l.arrival, l.handledAt), l.trace);
    MarkOfArrival(ss[i].core, d, h, l.arrival);
  }

  lemma MarkOfArrival(c: Core, d: Id, h: Graph, a: Arrival)
    ensures var c' := AfterArrival(c, d, h, a);
      && c'.dagStates == c.dagStates[d := if d in c.dags then DagFailed else DagActive]
      && c'.dags == c.dags + {d} && c'.g == if d in c.dags then c.g else c.g + h
  {
    hide Admitted, Stamped, InDegrees, Entries, Pushed;
  }

  // ---------- a mark that comes too early ----------

  /** One worker. */
  ghost function OneWorker(): Config {
    Config(["w"], 1.0, 1.0, 1.0)
  }

  /** A DAG of two tasks without edges, both of them exits. */
  ghost function TwoExits(): Graph {
    map["d:a" := [], "d:b" := []]
  }

  ghost function TwoWorks(): map<Id, int> {
    map["d:a" := 1, "d:b" := 1]
  }

  lemma TwoExitsArrive()
    ensures MayArrive(OneWorker(), "d", TwoExits(), TwoWorks())
  {
    assert "d:a" == GlobalID("d", "a") && "d:b" == GlobalID("d", "b");
    DagIDRoundTrip("d", "a");
    DagIDRoundTrip("d", "b");
    assert forall u, v :: !Edge(TwoExits(), u, v);
  }

  lemma FirstJob(s: Sys) returns (j: Job)
    requires SysInv(OneWorker(), s) && s.events == [] && s.core.g == TwoExits()
    requires forall x :: !Is(s.core.tasks, x, Completed)
    ensures j in s.running && j.task in TwoExits()
  {
    hide Inv, Quiet, EventsFit;
    j := RunTheorems.SomeoneWorks(OneWorker(), s, "d:a");
    InGraph(s.core, OneWorker().ws, Jobs(s), j.task);
  }

  /** With two exit tasks the first completion already marks the DAG COMPLETED, while its other task is not done. */
  lemma TwoExitsMarkedEarly() returns (ss: seq<Sys>, ls: seq<Label>, i: nat)
    ensures IsRun(OneWorker(), ss, ls) && i < |ls| && ls[i].React? && ss[i].events != []
    ensures MarkedEarly(Handled(ss[i], ls[i].arrival, ls[i].handledAt), "d")
  {
    hide SysInv, Step, Handled, AllDone, MayArrive;
    var cfg := OneWorker();
    TwoExitsArrive();
    InitHolds(cfg);
    var s1, l1, s2 := Termination.SubmitAndReact(cfg, Init(cfg), "d", TwoExits(), TwoWorks());
    assert s2.core.g == TwoExits();
    var j := FirstJob(s2);
    var s3 := s2.(running := s2.running - multiset{j}, events := s2.events + [TaskCompleted(j.task, j.worker)]);
    FinishIsStep(s2, j, s3);
    StepKeeps(cfg, s2, Finish(j), s3);
    var l3, s4 := Termination.ReactCan(cfg, s3);
    ss, ls, i := [Init(cfg), s1, s2, s3, s4], [Submit("d", TwoExits(), TwoWorks()), l1, Finish(j), l3], 3;
    ExitsOfD(j.task);
    MarkMeansDoneIffLastExit(cfg, ss, ls, 3, j.task, j.worker);
    OtherExitOpen(s3.core, j.task);
  }

  lemma FinishIsStep(s: Sys, j: Job, s': Sys)
    requires j in s.running
    requires s' == s.(running := s.running - multiset{j}, events := s.events + [TaskCompleted(j.task, j.worker)])
    ensures Step(OneWorker(), s, Finish(j), s')
  {
  }

  lemma ExitsOfD(t: Id)
    requires t in TwoExits()
    ensures ExtractDAGID(t) == "d" && TwoExits()[t] == []
  {
    hide ExtractDAGID, GlobalID;
    TwoExitsArrive();
  }

  lemma OtherExitOpen(c: Core, t: Id)
    requires c.g == TwoExits() && t in TwoExits() && forall x :: !Is(c.tasks, x, Completed)
    ensures !OtherExitsDone(c.g, c.tasks, "d", t)
  {
    var x := if t == "d:a" then "d:b" else "d:a";
    ExitsOfD(x);
    assert ExitOf(c.g, "d", x) && x != t;
  }
}
