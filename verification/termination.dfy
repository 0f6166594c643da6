/** Every run without new submissions ends, and ends with everything completed. */
module Termination {
  import opened Api
  import opened AlgorithmOne
  import opened Graphs
  import opened LongestPaths
  import opened StateManager
  import opened Reactor
  import opened ReactorInvariant
  import opened Runs
  import RunTheorems

  // ---------- what a step does to the set of incomplete tasks ----------

  ghost predicate SameCompleted(tasks: map<Id, TaskState>, tasks': map<Id, TaskState>) {
    forall x :: Is(tasks, x, Completed) <==> Is(tasks', x, Completed)
  }

  lemma ReleaseOneFields(c: Core, t: Id, now: real, c': Core)
    requires c' == ReleaseOne(c, t, now)
    ensures c'.g == c.g && c'.dags == c.dags && c'.dagStates == c.dagStates
    ensures c'.tasks == c.tasks || c'.tasks == Moved(c.tasks, t, Ready)
  {
    hide ReleaseOne, Enqueue;
    var r := if t in c.rem then if c.rem[t] > 0 then c.rem[t] - 1 else c.rem[t] else 0;
    ReleasedOnce(c, t, now, r);
    if t in c.rem { EnqueueFields(c.(rem := c.rem[t := r]), t, now); }
  }

  lemma EnqueueFields(c: Core, t: Id, now: real)
    ensures var d := Enqueue(c, t, now);
            && d.g == c.g && d.dags == c.dags && d.dagStates == c.dagStates
            && d.tasks == Moved(c.tasks, t, Ready)
  {
    hide Moved, Pushed;
  }

  lemma ReleaseOneCompletesNothing(c: Core, t: Id, now: real, c': Core)
    requires c' == ReleaseOne(c, t, now)
    ensures c'.g == c.g && c'.dags == c.dags && c'.dagStates == c.dagStates && SameCompleted(c.tasks, c'.tasks)
  {
    hide Moved, ReleaseOne, SameCompleted;
    ReleaseOneFields(c, t, now, c');
    ReadyCompletesNothing(c.tasks, t);
  }

  lemma ReadyCompletesNothing(tasks: map<Id, TaskState>, t: Id)
    ensures SameCompleted(tasks, Moved(tasks, t, Ready)) && SameCompleted(tasks, tasks)
  {
  }

  lemma {:induction false} ReleaseCompletesNothing(c: Core, ds: seq<Dependency>, now: real)
    ensures var c' := Release(c, ds, now);
      c'.g == c.g && c'.dags == c.dags && c'.dagStates == c.dagStates && SameCompleted(c.tasks, c'.tasks)
    decreases |ds|
  {
    hide ReleaseOne;
    if ds != [] {
      var c1 := ReleaseOne(c, ds[0].targetTaskID, now);
      ReleaseOneCompletesNothing(c, ds[0].targetTaskID, now, c1);
      ReleaseCompletesNothing(c1, ds[1..], now);
    }
  }

  lemma {:induction false} DispatchCompletesNothing(c: Core, trace: seq<Job>)
    ensures var c' := DispatchAll(c, trace);
      c'.g == c.g && c'.dags == c.dags && c'.dagStates == c.dagStates && SameCompleted(c.tasks, c'.tasks)
    decreases |trace|
  {
    if trace != [] {
      DispatchCompletesNothing(c, trace[..|trace| - 1]);
    }
  }

  lemma CompletionCompletes(c: Core, t: Id, w: Id, now: real)
    requires t in c.g && Is(c.tasks, t, Running)
    ensures var c' := AfterCompletion(c, t, w, now);
      c'.g == c.g && SameCompleted(c.tasks[t := Completed], c'.tasks)
    ensures c.g[t] == [] ==> AfterCompletion(c, t, w, now).dagStates == c.dagStates[ExtractDAGID(t) := DagCompleted]
  {
    ReleaseCompletesNothing(MarkCompleted(c, t, w), c.g[t], now);
  }

  // ---------- a measure ----------

  ghost predicate ReportPending(s: Sys, t: Id) {
    HasJob(Pending(s.events), t)
  }

  ghost function Open(s: Sys): set<Id> {
    Incomplete(s.core.g, s.core.tasks)
  }

  /** Incomplete tasks whose completion is not in the channel yet. */
  ghost function Unreported(s: Sys): set<Id> {
    set t | t in Open(s) && !ReportPending(s, t)
  }

  ghost function ArrivalWork(events: seq<Event>): nat {
    if events == [] then 0 else
    (match events[0]
     case DagArrived(_, h, _) => 1 + 2 * |h.Keys|
     case TaskCompleted(_, _) => 0
     case WorkerIdle(_) => 1) + ArrivalWork(events[1..])
  }

  /** How many steps are left at most: two per incomplete task (finish, handle), one per queued DAG. */
  ghost function Work(s: Sys): nat {
    |Open(s)| + |Unreported(s)| + ArrivalWork(s.events)
  }

  lemma {:induction false} ArrivalWorkSnoc(events: seq<Event>, t: Id, w: Id)
    ensures ArrivalWork(events + [TaskCompleted(t, w)]) == ArrivalWork(events)
  {
    if events == [] {
      assert events + [TaskCompleted(t, w)] == [TaskCompleted(t, w)];
    } else {
      ArrivalWorkSnoc(events[1..], t, w);
      assert (events + [TaskCompleted(t, w)])[1..] == events[1..] + [TaskCompleted(t, w)];
    }
  }

  /** A goroutine's job is reported once: its completion is not already in the channel. */
  lemma NotYetReported(cfg: Config, s: Sys, j: Job)
    requires SysInv(cfg, s) && j in s.running
    ensures !ReportPending(s, j.task) && j.task in Open(s)
  {
    hide Registry, Counted, Staged, Ledger, ExitMarked, Quiet, EventsFit, RunningWorked, BusyWorking, Registered;
    assert j in Jobs(s);
    assert JobOf(s.core.tasks, s.core.workers, cfg.ws, j);
    assert Jobs(s)[j] == s.running[j] + Pending(s.events)[j];
    forall k | k in Pending(s.events) && k.task == j.task ensures k == j {
      assert k in Jobs(s);
    }
  }

  lemma FinishWorks(cfg: Config, s: Sys, j: Job, s': Sys)
    requires SysInv(cfg, s) && Step(cfg, s, Finish(j), s')
    ensures Work(s') + 1 == Work(s)
  {
    hide SysInv;
    NotYetReported(cfg, s, j);
    PendingSnoc(s.events, TaskCompleted(j.task, j.worker));
    ArrivalWorkSnoc(s.events, j.task, j.worker);
    forall t ensures ReportPending(s', t) <==> ReportPending(s, t) || t == j.task {
      ReportedSnoc(Pending(s.events), j, t);
    }
    assert Unreported(s') == Unreported(s) - {j.task};
  }

  lemma ReportedSnoc(p: multiset<Job>, j: Job, t: Id)
    ensures HasJob(p + multiset{j}, t) <==> HasJob(p, t) || t == j.task
  {
    if w :| Job(t, w) in p { assert Job(t, w) in p + multiset{j}; }
    if t == j.task { assert Job(t, j.worker) in p + multiset{j}; }
  }

  // ---------- handling an event ----------

  /** Jobs in the channel belong to registered running tasks. */
  lemma PendingIsOpen(cfg: Config, s: Sys, t: Id)
    requires SysInv(cfg, s) && ReportPending(s, t)
    ensures t in s.core.g && Is(s.core.tasks, t, Running)
  {
    hide Registry, Counted, Staged, Ledger, ExitMarked, Quiet, EventsFit, Assigned;
    var w :| Job(t, w) in Pending(s.events);
    assert Job(t, w) in Jobs(s);
    JobIsRunning(s.core.tasks, s.core.workers, cfg.ws, Jobs(s), Job(t, w));
  }

  /** Handling a completion removes one incomplete task, which had been reported. */
  lemma CompletionHandledWork(cfg: Config, s: Sys, t: Id, w: Id, at: real, s': Sys)
    requires SysInv(cfg, s) && s.events != [] && s.events[0] == TaskCompleted(t, w) && s'.events == s.events[1..]
    requires s'.core.g == AfterCompletion(s.core, t, w, at).g
    requires SameCompleted(AfterCompletion(s.core, t, w, at).tasks, s'.core.tasks)
    ensures Work(s') + 1 == Work(s)
  {
    hide SysInv, AfterCompletion;
    assert Pending(s.events) == multiset{Job(t, w)} + Pending(s.events[1..]);
    assert Job(t, w) in Pending(s.events);
    PendingIsOpen(cfg, s, t);
    CompletionCompletes(s.core, t, w, at);
    assert Open(s') == Open(s) - {t};
    forall x | x != t ensures ReportPending(s', x) <==> ReportPending(s, x) {
      ReportedSnoc(Pending(s'.events), Job(t, w), x);
    }
    assert Unreported(s') == Unreported(s);
  }

  lemma WorkAdded(s: Sys, s': Sys, added: set<Id>)
    requires Open(s') == Open(s) + added && Open(s) !! added
    requires forall x :: ReportPending(s', x) <==> ReportPending(s, x)
    requires forall x :: x in added ==> !ReportPending(s, x)
    requires ArrivalWork(s.events) == 1 + 2 * |added| + ArrivalWork(s'.events)
    ensures Work(s') + 1 == Work(s)
  {
    hide Open, ReportPending, ArrivalWork;
    assert Unreported(s') == Unreported(s) + added;
  }

  lemma NewUnreported(cfg: Config, s: Sys, h: Graph)
    requires SysInv(cfg, s) && s.core.g.Keys !! h.Keys
    ensures forall x :: x in h ==> !ReportPending(s, x)
  {
    hide SysInv, ReportPending;
    forall x | x in h ensures !ReportPending(s, x) {
      if ReportPending(s, x) { PendingIsOpen(cfg, s, x); }
    }
  }

  /** Handling an accepted DAG trades its one channel entry for two steps per task. */
  lemma ArrivalAcceptedWork(cfg: Config, s: Sys, d: Id, h: Graph, work: map<Id, int>, a: Arrival, s': Sys)
    requires SysInv(cfg, s) && s.events != [] && s.events[0] == DagArrived(d, h, work)
    requires s'.events == s.events[1..]
    requires a.rank.Keys == a.stale.Keys == a.clock.Keys == h.Keys && d !in s.core.dags && ValidDag(d, h)
    requires s'.core.g == AfterArrival(s.core, d, h, a).g
    requires SameCompleted(AfterArrival(s.core, d, h, a).tasks, s'.core.tasks)
    ensures Work(s') + 1 == Work(s)
  {
    hide Counted, Staged, Ledger, ExitMarked, Quiet, Assigned, AfterArrival, EventsFit, Registry, ValidDag;
    hide SameCompleted, FirstStates, Work, HasJob;
    ArrivalDisjoint(s.core, d, h);
    ArrivalFields(s.core, d, h, a, AfterArrival(s.core, d, h, a));
    assert Pending(s.events) == Pending(s.events[1..]);
    NewUnreported(cfg, s, h);
    ArrivalOpens(s.core, h, s'.core);
    OpenRegistered(s);
    WorkAdded(s, s', h.Keys);
  }

  lemma OpenRegistered(s: Sys)
    ensures Open(s) <= s.core.g.Keys
  {
  }

  lemma ArrivalRefusedWork(s: Sys, d: Id, h: Graph, work: map<Id, int>, a: Arrival, s': Sys)
    requires s.events != [] && s.events[0] == DagArrived(d, h, work) && s'.events == s.events[1..]
    requires d in s.core.dags
    requires s'.core.g == AfterArrival(s.core, d, h, a).g
    requires SameCompleted(AfterArrival(s.core, d, h, a).tasks, s'.core.tasks)
    ensures Work(s') < Work(s)
  {
    assert Pending(s.events) == Pending(s.events[1..]);
    assert Open(s') == Open(s);
    assert Unreported(s') == Unreported(s);
  }

  lemma ArrivalOpens(c: Core, h: Graph, c': Core)
    requires Domains(c) && c.g.Keys !! h.Keys && c'.g == c.g + h && SameCompleted(c.tasks + FirstStates(h), c'.tasks)
    ensures Incomplete(c'.g, c'.tasks) == Incomplete(c.g, c.tasks) + h.Keys
  {
    assert forall x :: Is(c.tasks + FirstStates(h), x, Completed) <==> Is(c.tasks, x, Completed);
  }

  lemma ReactWorks(cfg: Config, s: Sys, a: Arrival, at: real, later: real, trace: seq<Job>, s': Sys)
    requires SysInv(cfg, s) && Step(cfg, s, React(a, at, later, trace), s')
    ensures Work(s') < Work(s)
  {
    hide SysInv, CanDispatchAll, AfterCompletion, AfterArrival, DispatchAll;
    DispatchCompletesNothing(Handled(s, a, at), trace);
    match s.events[0]
    case DagArrived(d, h, work) =>
      EventsAreFit(cfg, s);
      if d in s.core.dags {
        ArrivalRefusedWork(s, d, h, work, a, s');
      } else {
        ArrivalAcceptedWork(cfg, s, d, h, work, a, s');
      }
    case TaskCompleted(t, w) => CompletionHandledWork(cfg, s, t, w, at, s');
    case WorkerIdle(_) => EventsAreFit(cfg, s);
  }

  lemma EventsAreFit(cfg: Config, s: Sys)
    requires SysInv(cfg, s) && s.events != []
    ensures EventFits(cfg, s.events[0])
  {
    assert EventFits(cfg, s.events[0]);
  }

  /** Between submissions every step uses up some of the remaining work. */
  lemma {:induction false} RunsOutOfWork(cfg: Config, ss: seq<Sys>, ls: seq<Label>, i: nat, j: nat)
    requires IsRun(cfg, ss, ls) && i <= j <= |ls| && forall k :: i <= k < j ==> !ls[k].Submit?
    ensures Work(ss[j]) + (j - i) <= Work(ss[i])
    decreases j
  {
    if i < j {
      hide SysInv, Work;
      RunsOutOfWork(cfg, ss, ls, i, j - 1);
      RunKeeps(cfg, ss, ls, j - 1);
      match ls[j - 1]
      case Finish(job) => FinishWorks(cfg, ss[j - 1], job, ss[j]);
      case React(a, at, later, trace) => ReactWorks(cfg, ss[j - 1], a, at, later, trace, ss[j]);
    }
  }

  // ---------- what the end looks like ----------

  /** A run that cannot continue without a new submission has completed every registered task, each exactly once. */
  lemma EndsComplete(cfg: Config, ss: seq<Sys>, ls: seq<Label>, t: Id)
    requires IsRun(cfg, ss, ls) && cfg.ws != []
    requires ss[|ls|].events == [] && ss[|ls|].running == multiset{}
    requires t in ss[|ls|].core.g
    ensures var c := ss[|ls|].core;
      Is(c.tasks, t, Completed) && c.log.pushed[t] == c.log.dispatched[t] == c.log.completed[t] == 1
  {
    if !Is(ss[|ls|].core.tasks, t, Completed) {
      RunTheorems.NoDeadlock(cfg, ss, ls, |ls|, t);
    }
    RunTheorems.ExactlyOnce(cfg, ss, ls, |ls|, t);
  }

  /** With an event in the channel the reactor can always take its step. */
  lemma ReactCan(cfg: Config, s: Sys) returns (l: Label, s': Sys)
    requires SysInv(cfg, s) && s.events != []
    ensures l.React? && Step(cfg, s, l, s')
  {
    hide Inv, DispatchAll, CanDispatchAll, Quiet, ByAlgorithmOne, Good, ValidDag, ArrivalKnown, ReadInTime, Handled;
    var a := SomeKnown(cfg, s);
    HandleKeeps(cfg, s, a, s.clock);
    var trace := ScheduleExists(Handled(s, a, s.clock), cfg.ws, s.running + Pending(s.events[1..]), cfg.aging, s.clock);
    l := React(a, s.clock, s.clock, trace);
    s' := Sys(DispatchAll(Handled(s, a, s.clock), trace), s.events[1..], s.running + multiset(trace), s.clock);
  }

  lemma SomeKnown(cfg: Config, s: Sys) returns (a: Arrival)
    requires SysInv(cfg, s) && s.events != []
    ensures ArrivalKnown(cfg, s.core, s.events[0], a) && ReadInTime(a, s.clock, s.clock)
  {
    hide Inv, Quiet, ByAlgorithmOne, Good, ValidDag;
    EventsAreFit(cfg, s);
    a := Arrival(map[], map[], 0.0, map[]);
    if s.events[0].DagArrived? { a := SomeArrival(WorstCase(cfg, s.events[0].topology, s.events[0].work), s.clock); }
  }

  lemma SomeArrival(m: Costs, now: real) returns (a: Arrival)
    requires Good(m)
    ensures ReadInTime(a, now, now) && ByAlgorithmOne(m, a) && a.rank.Keys == a.stale.Keys == a.clock.Keys == m.g.Keys
  {
    var rank := RankingExists(m);
    a := Arrival(rank, rank, Volume(m), map t | t in rank :: now);
  }

  /** Dispatching the best queued task while a worker is idle comes to an end. */
  lemma ScheduleExists(c: Core, ws: seq<Id>, jobs: multiset<Job>, aging: real, now: real) returns (trace: seq<Job>)
    requires Inv(c, ws, jobs, multiset{})
    ensures CanDispatchAll(c, ws, trace, aging, now) && Quiet(DispatchAll(c, trace), ws)
  {
    hide Inv, CanDispatch, Quiet, Dispatch;
    trace := [];
    while !Quiet(DispatchAll(c, trace), ws)
      invariant CanDispatchAll(c, ws, trace, aging, now)
      decreases |DispatchAll(c, trace).log.queue|
    {
      DispatchAllKeeps(c, ws, jobs, trace, aging, now);
      var job := NextJob(DispatchAll(c, trace), ws, jobs + multiset(trace), aging, now);
      assert (trace + [job])[..|trace|] == trace;
      trace := trace + [job];
    }
  }

  lemma NextJob(c: Core, ws: seq<Id>, jobs: multiset<Job>, aging: real, now: real) returns (job: Job)
    requires Inv(c, ws, jobs, multiset{}) && !Quiet(c, ws)
    ensures CanDispatch(c, ws, job.task, job.worker, aging, now)
    ensures |Dispatch(c, job.task, job.worker).log.queue| < |c.log.queue|
  {
    hide Registry, Counted, Staged, Assigned, ExitMarked, Priority;
    forall t | t in c.log.queue ensures t in c.rank && t in c.readyAt && t in c.g {
      assert LedgerOf(c.tasks, c.log, t);
    }
    var best := BestOf(c, c.log.queue, aging, now);
    job := Job(best, FirstIdle(c.workers, ws).value);
  }

  lemma {:induction false} BestOf(c: Core, q: multiset<Id>, aging: real, now: real) returns (best: Id)
    requires q != multiset{} && forall t :: t in q ==> t in c.rank && t in c.readyAt
    ensures best in q && forall t :: t in q ==> Priority(c, t, aging, now) <= Priority(c, best, aging, now)
    decreases |q|
  {
    hide Priority;
    var t :| t in q;
    best := t;
    var rest := q[t := 0];
    if rest != multiset{} {
      assert |rest| < |q| by { assert q == rest + multiset{t}[t := q[t]]; }
      var other := BestOf(c, rest, aging, now);
      if Priority(c, t, aging, now) < Priority(c, other, aging, now) { best := other; }
    }
    assert forall x :: x in q ==> x == t || x in rest;
  }

  // ---------- a run's beginning ----------

  ghost predicate NothingCompleted(c: Core) {
    forall t :: !Is(c.tasks, t, Completed)
  }

  /** A client submits a DAG while nothing is in the channel, and the reactor takes its turn. */
  lemma SubmitAndReact(cfg: Config, s: Sys, d: Id, h: Graph, work: map<Id, int>) returns (s1: Sys, l: Label, s2: Sys)
    requires SysInv(cfg, s) && s.events == [] && MayArrive(cfg, d, h, work) && d !in s.core.dags
    requires NothingCompleted(s.core)
    ensures Step(cfg, s, Submit(d, h, work), s1) && l.React? && Step(cfg, s1, l, s2) && SysInv(cfg, s2)
    ensures s2.events == [] && s2.core.g == s.core.g + h && s2.core.dags == s.core.dags + {d}
    ensures NothingCompleted(s2.core)
  {
    hide SysInv, MayArrive, DispatchAll, CanDispatchAll, Quiet, AfterArrival, ByAlgorithmOne;
    s1 := s.(events := [DagArrived(d, h, work)]);
    assert s.events + [DagArrived(d, h, work)] == s1.events;
    StepKeeps(cfg, s, Submit(d, h, work), s1);
    l, s2 := ReactCan(cfg, s1);
    StepKeeps(cfg, s1, l, s2);
    FirstAdmission(cfg, s, d, h, work, l.arrival);
    DispatchCompletesNothing(Handled(s1, l.arrival, l.handledAt), l.trace);
  }

  lemma FirstAdmission(cfg: Config, s: Sys, d: Id, h: Graph, work: map<Id, int>, a: Arrival)
    requires SysInv(cfg, s) && MayArrive(cfg, d, h, work) && d !in s.core.dags && NothingCompleted(s.core)
    requires a.rank.Keys == a.stale.Keys == a.clock.Keys == h.Keys
    ensures var c := AfterArrival(s.core, d, h, a);
            c.g == s.core.g + h && c.dags == s.core.dags + {d} && NothingCompleted(c)
  {
    hide Registry, ValidDag, Counted, Staged, Ledger, Assigned, ExitMarked, Quiet, EventsFit, AfterArrival, Good;
    hide FirstStates;
    ArrivalDisjoint(s.core, d, h);
    ArrivalFields(s.core, d, h, a, AfterArrival(s.core, d, h, a));
    FirstCompleteNothing(s.core.tasks, h);
  }

  lemma FirstCompleteNothing(tasks: map<Id, TaskState>, h: Graph)
    requires tasks.Keys !! h.Keys
    ensures forall t :: Is(tasks + FirstStates(h), t, Completed) <==> Is(tasks, t, Completed)
  {
    hide Entries;
  }
}
