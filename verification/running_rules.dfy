/** Does a running task's packet find that task's own rule?  (internal/scheduler/core.go:286-304, 701-722) */
module RunningRules {
  import opened Api
  import opened Graphs
  import opened Histories
  import opened Reactor
  import opened ReactorInvariant
  import opened RuleTable
  import opened Runs
  import RunTheorems
  import Termination

  /** Each job finds its task's own reference count in the table. */
  ghost predicate JobsRight(table: Rules, jobs: multiset<Job>, g: Graph) {
    forall j :: j in jobs ==>
      ParseNumericTaskID(j.task) in table && table[ParseNumericTaskID(j.task)] == RefCount(g, j.task)
  }

  /** Jobs whose tasks share a number have equally many successors. */
  ghost predicate Agree(jobs: multiset<Job>, g: Graph) {
    forall j, k :: j in jobs && k in jobs && ParseNumericTaskID(j.task) == ParseNumericTaskID(k.task) ==>
                     RefCount(g, j.task) == RefCount(g, k.task)
  }

  lemma RightAgree(table: Rules, jobs: multiset<Job>, g: Graph)
    requires JobsRight(table, jobs, g)
    ensures Agree(jobs, g)
  {
    hide ParseNumericTaskID, RefCount;
  }

  /** A key under which nothing is written keeps its rule. */
  lemma {:induction false} OthersKept(table: Rules, ts: seq<Id>, g: Graph, n: nat)
    requires forall k :: 0 <= k < |ts| ==> ParseNumericTaskID(ts[k]) != n
    ensures n in Written(table, ts, g) <==> n in table
    ensures n in table ==> Written(table, ts, g)[n] == table[n]
    decreases |ts|
  {
    hide ParseNumericTaskID, RefCount;
    if ts != [] { OthersKept(table, ts[..|ts| - 1], g, n); }
  }

  /** Dispatches keep the rules of all jobs right, old and new, exactly when jobs that share a number agree. */
  lemma DispatchesRightIff(table: Rules, jobs: multiset<Job>, trace: seq<Job>, g: Graph)
    requires JobsRight(table, jobs, g)
    ensures JobsRight(Written(table, TasksOf(trace), g), jobs + multiset(trace), g) <==>
            Agree(jobs + multiset(trace), g)
  {
    hide ParseNumericTaskID, RefCount, Written;
    var table' := Written(table, TasksOf(trace), g);
    if Agree(jobs + multiset(trace), g) {
      forall j | j in jobs + multiset(trace)
        ensures ParseNumericTaskID(j.task) in table' && table'[ParseNumericTaskID(j.task)] == RefCount(g, j.task)
      {
        JobRight(table, jobs, trace, g, j);
      }
    }
  }

  lemma JobRight(table: Rules, jobs: multiset<Job>, trace: seq<Job>, g: Graph, j: Job)
    requires JobsRight(table, jobs, g) && Agree(jobs + multiset(trace), g) && j in jobs + multiset(trace)
    ensures var table' := Written(table, TasksOf(trace), g); var n := ParseNumericTaskID(j.task);
            n in table' && table'[n] == RefCount(g, j.task)
  {
    hide ParseNumericTaskID, RefCount, Written;
    var ts, n := TasksOf(trace), ParseNumericTaskID(j.task);
    if k :| 0 <= k < |ts| && ParseNumericTaskID(ts[k]) == n {
      var l := LastWithNumber(ts, k);
      LastWriteHolds(table, ts, g, l);
      assert trace[l] in multiset(trace);
    } else {
      forall k | 0 <= k < |trace| ensures trace[k] != j {
        assert ts[k] == trace[k].task;
      }
      OthersKept(table, ts, g, n);
    }
  }

  // ---------- over whole runs ----------

  /** The rule table in state i of a run. */
  ghost function RulesAt(ss: seq<Sys>, ls: seq<Label>, i: nat): Rules
    requires |ss| == |ls| + 1 && i <= |ls|
  {
    Written(map[], AllDispatched(ls[..i]), ss[i].core.g)
  }

  ghost predicate RightAt(ss: seq<Sys>, ls: seq<Label>, i: nat)
    requires |ss| == |ls| + 1 && i <= |ls|
  {
    JobsRight(RulesAt(ss, ls, i), ss[i].running, ss[i].core.g)
  }

  ghost predicate AgreeAt(ss: seq<Sys>, i: nat)
    requires i < |ss|
  {
    Agree(ss[i].running, ss[i].core.g)
  }

  lemma RunningRegistered(cfg: Config, s: Sys, j: Job)
    requires SysInv(cfg, s) && j in s.running
    ensures j.task in s.core.g && j.worker in cfg.ws && Is(s.core.tasks, j.task, Running)
  {
    hide Registry, Counted, Staged, Ledger, ExitMarked, Quiet, EventsFit;
    assert j in Jobs(s);
    JobIsRunning(s.core.tasks, s.core.workers, cfg.ws, Jobs(s), j);
    assert JobOf(s.core.tasks, s.core.workers, cfg.ws, j);
  }

  /** New DAGs leave the running tasks' successors alone. */
  lemma RightInLarger(cfg: Config, s: Sys, table: Rules, g: Graph)
    requires SysInv(cfg, s) && JobsRight(table, s.running, s.core.g) && Extends(s.core.g, g)
    ensures JobsRight(table, s.running, g)
  {
    hide SysInv, ParseNumericTaskID;
    forall j | j in s.running ensures RefCount(g, j.task) == RefCount(s.core.g, j.task) {
      RunningRegistered(cfg, s, j);
    }
  }

  lemma StepRightIff(cfg: Config, s: Sys, l: Label, s': Sys, table: Rules, table': Rules)
    requires SysInv(cfg, s) && Step(cfg, s, l, s') && JobsRight(table, s.running, s.core.g)
    requires table' == if l.React? then Written(table, TasksOf(l.trace), s'.core.g) else table
    ensures JobsRight(table', s'.running, s'.core.g) <==> Agree(s'.running, s'.core.g)
  {
    hide SysInv, Handled, CanDispatchAll, DispatchAll, Quiet, ArrivalKnown, MayArrive, Written, Extends;
    hide ParseNumericTaskID, RefCount;
    StepExtends(cfg, s, l, s');
    RightInLarger(cfg, s, table, s'.core.g);
    if l.React? {
      DispatchesRightIff(table, s.running, l.trace, s'.core.g);
    } else {
      RightAgree(table, s.running, s'.core.g);
    }
  }

  lemma {:induction false} RightWhileAgreeing(cfg: Config, ss: seq<Sys>, ls: seq<Label>, i: nat)
    requires IsRun(cfg, ss, ls) && i <= |ls| && forall k :: 0 <= k <= i ==> AgreeAt(ss, k)
    ensures RightAt(ss, ls, i)
  {
    hide Step, SysInv, Agree, JobsRight, Written, AllDispatched;
    if i == 0 {
      assert RightAt(ss, ls, 0) by { NothingRuns(cfg, ss, ls); }
    } else {
      RightWhileAgreeing(cfg, ss, ls, i - 1);
      RunKeeps(cfg, ss, ls, i - 1);
      assert ls[..i] == ls[..i - 1] + [ls[i - 1]];
      RulesNext(cfg, ss[..i], ls[..i - 1], ls[i - 1], ss[i], RulesAt(ss, ls, i - 1));
      StepRightIff(cfg, ss[i - 1], ls[i - 1], ss[i], RulesAt(ss, ls, i - 1), RulesAt(ss, ls, i));
      assert AgreeAt(ss, i);
    }
  }

  lemma NothingRuns(cfg: Config, ss: seq<Sys>, ls: seq<Label>)
    requires IsRun(cfg, ss, ls)
    ensures RightAt(ss, ls, 0)
  {
    assert ss[0].running == multiset{};
  }

  /** Over a whole run every running task has its own rule in the table exactly when running tasks that share a number
      always have equally many successors. */
  lemma RunningRightIff(cfg: Config, ss: seq<Sys>, ls: seq<Label>)
    requires IsRun(cfg, ss, ls)
    ensures (forall i :: 0 <= i <= |ls| ==> RightAt(ss, ls, i)) <==> (forall i :: 0 <= i <= |ls| ==> AgreeAt(ss, i))
  {
    hide Step, Agree, JobsRight, Written, AllDispatched;
    if forall i :: 0 <= i <= |ls| ==> AgreeAt(ss, i) {
      forall i | 0 <= i <= |ls| ensures RightAt(ss, ls, i) {
        RightWhileAgreeing(cfg, ss, ls, i);
      }
    }
    forall i | 0 <= i <= |ls| && RightAt(ss, ls, i) ensures AgreeAt(ss, i) {
      RightAgree(RulesAt(ss, ls, i), ss[i].running, ss[i].core.g);
    }
  }

  /** A single worker runs one task at a time, which always has its own rule. */
  lemma OneWorkerRight(cfg: Config, ss: seq<Sys>, ls: seq<Label>, i: nat)
    requires IsRun(cfg, ss, ls) && i <= |ls| && forall v, w :: v in cfg.ws && w in cfg.ws ==> v == w
    ensures RightAt(ss, ls, i)
  {
    hide Step, Agree, JobsRight, Written, AllDispatched;
    forall k | 0 <= k <= i ensures AgreeAt(ss, k) {
      RunKeeps(cfg, ss, ls, k);
      OneRuns(cfg, ss[k]);
    }
    RightWhileAgreeing(cfg, ss, ls, i);
  }

  lemma OneRuns(cfg: Config, s: Sys)
    requires SysInv(cfg, s) && forall v, w :: v in cfg.ws && w in cfg.ws ==> v == w
    ensures Agree(s.running, s.core.g)
  {
    hide SysInv, ParseNumericTaskID, RefCount;
    forall j, k | j in s.running && k in s.running ensures j == k {
      RunningRegistered(cfg, s, j);
      RunningRegistered(cfg, s, k);
      Paired(cfg, s, j, k);
    }
  }

  /** No worker has two jobs, and no task two workers. */
  lemma Paired(cfg: Config, s: Sys, j: Job, k: Job)
    requires SysInv(cfg, s) && j in s.running && k in s.running && (j.task == k.task || j.worker == k.worker)
    ensures j == k
  {
    hide Registry, Counted, Staged, Ledger, ExitMarked, Quiet, EventsFit, JobsSound, RunningWorked, BusyWorking;
    assert j in Jobs(s) && k in Jobs(s);
  }

  // ---------- two workers ----------

  ghost function TwoWorkers(): Config {
    Config(["w1", "w2"], 1.0, 1.0, 1.0)
  }

  lemma FirstAcyclic()
    ensures Closed(FirstDag()) && Acyclic(FirstDag())
  {
    var ord: map<Id, nat> := map["d1:task-0" := 1, "d1:task-1" := 0, "d1:task-2" := 0];
    assert IsTopological(FirstDag(), ord);
    AcyclicIffTopological(FirstDag());
    hide Acyclic;
  }

  lemma Named(dagID: Id, taskID: Id, globalID: Id)
    requires ':' !in dagID && globalID == GlobalID(dagID, taskID)
    ensures ExtractDAGID(globalID) == dagID
  {
    hide GlobalID, ExtractDAGID;
    DagIDRoundTrip(dagID, taskID);
  }

  lemma FirstNamed()
    ensures forall t :: t in FirstDag() ==> ExtractDAGID(t) == "d1"
  {
    hide ExtractDAGID;
    Named("d1", "task-0", "d1:task-0");
    Named("d1", "task-1", "d1:task-1");
    Named("d1", "task-2", "d1:task-2");
  }

  lemma FirstArrives()
    ensures MayArrive(TwoWorkers(), "d1", FirstDag(), map["d1:task-0" := 1, "d1:task-1" := 1, "d1:task-2" := 1])
  {
    hide Closed, Acyclic, ExtractDAGID;
    FirstAcyclic();
    FirstNamed();
  }

  lemma SecondArrives()
    ensures MayArrive(TwoWorkers(), "d2", SecondDag(), map["d2:task-0" := 1])
  {
    var ord: map<Id, nat> := map["d2:task-0" := 0];
    assert IsTopological(SecondDag(), ord);
    AcyclicIffTopological(SecondDag());
    hide Acyclic, IsTopological, ExtractDAGID;
    Named("d2", "task-0", "d2:task-0");
  }

  /** With nothing completed only the two entry tasks can be at work. */
  lemma OnlyEntriesRun(s: Sys, t: Id)
    requires SysInv(TwoWorkers(), s) && s.core.g == TwoDags() && Termination.NothingCompleted(s.core)
    requires Is(s.core.tasks, t, Running)
    ensures t == "d1:task-0" || t == "d2:task-0"
  {
    hide Registry, Counted, Staged, Ledger, Assigned, ExitMarked, Quiet, EventsFit;
    RunTheorems.WaitsIff(s.core, TwoWorkers().ws, Jobs(s), t);
    var g: Graph := TwoDags();
    assert g["d1:task-0"][0].targetTaskID == "d1:task-1" && g["d1:task-0"][1].targetTaskID == "d1:task-2";
    assert Edge(g, "d1:task-0", "d1:task-1") && Edge(g, "d1:task-0", "d1:task-2");
  }

  lemma EntryStarted(s: Sys, t: Id)
    requires SysInv(TwoWorkers(), s) && s.core.g == TwoDags() && Termination.NothingCompleted(s.core)
    requires t == "d1:task-0" || t == "d2:task-0"
    ensures Is(s.core.tasks, t, Running) || (Is(s.core.tasks, t, Ready) && t in s.core.log.queue)
  {
    hide Registry, Counted, Assigned, ExitMarked, Quiet, EventsFit;
    RunTheorems.WaitsIff(s.core, TwoWorkers().ws, Jobs(s), t);
    assert forall u :: !Edge(TwoDags(), u, t) by { NoEdgeTo(t); }
    assert LedgerOf(s.core.tasks, s.core.log, t);
  }

  lemma NoEdgeTo(t: Id)
    requires t == "d1:task-0" || t == "d2:task-0"
    ensures forall u :: !Edge(TwoDags(), u, t)
  {
  }

  /** A queued task means that both workers have a job. */
  lemma BothBusy(s: Sys, t: Id) returns (j: Job, k: Job)
    requires SysInv(TwoWorkers(), s) && t in s.core.log.queue
    ensures j in Jobs(s) && k in Jobs(s) && j.task != k.task
    ensures Is(s.core.tasks, j.task, Running) && Is(s.core.tasks, k.task, Running)
  {
    hide Registry, Counted, Staged, Ledger, ExitMarked, EventsFit, JobsSound, RunningWorked;
    var c, ws := s.core, TwoWorkers().ws;
    assert ws[0] == "w1" && ws[1] == "w2";
    assert c.workers["w1"] == Busy && c.workers["w2"] == Busy;
    assert Works(Jobs(s), "w1") && Works(Jobs(s), "w2");
    var t1 :| Job(t1, "w1") in Jobs(s);
    var t2 :| Job(t2, "w2") in Jobs(s);
    j, k := Job(t1, "w1"), Job(t2, "w2");
    JobIsRunning(c.tasks, c.workers, ws, Jobs(s), j);
    JobIsRunning(c.tasks, c.workers, ws, Jobs(s), k);
  }

  lemma EntryRuns(s: Sys, t: Id) returns (j: Job)
    requires SysInv(TwoWorkers(), s) && s.core.g == TwoDags() && Termination.NothingCompleted(s.core)
    requires (t == "d1:task-0" || t == "d2:task-0") && s.events == []
    ensures j in s.running && j.task == t
  {
    hide SysInv, TwoDags, TwoWorkers, Termination.NothingCompleted;
    EntryStarted(s, t);
    if !Is(s.core.tasks, t, Running) {
      var i, k := BothBusy(s, t);
      OnlyEntriesRun(s, i.task);
      OnlyEntriesRun(s, k.task);
      assert false;
    }
    j := RunningHasJob(s, t);
  }

  lemma RunningHasJob(s: Sys, t: Id) returns (j: Job)
    requires SysInv(TwoWorkers(), s) && Is(s.core.tasks, t, Running) && s.events == []
    ensures j in s.running && j.task == t
  {
    hide Registry, Counted, Staged, Ledger, ExitMarked, Quiet, EventsFit, JobsSound, OneToOne, BusyWorking;
    assert HasJob(Jobs(s), t);
    var w :| Job(t, w) in Jobs(s);
    j := Job(t, w);
  }

  lemma DifferentCounts()
    ensures RefCount(TwoDags(), "d1:task-0") == 2 && RefCount(TwoDags(), "d2:task-0") == 0
  {
  }

  /** Two workers, each with the task-0 of a DAG, one for two consumers and one for none: they share key 0, and one of
      the two finds the other's rule. */
  lemma RunningRuleOverwritten() returns (ss: seq<Sys>, ls: seq<Label>, j: Job, k: Job)
    ensures IsRun(TwoWorkers(), ss, ls) && ss[|ls|].core.g == TwoDags()
    ensures j in ss[|ls|].running && k in ss[|ls|].running
    ensures j.task == "d1:task-0" && k.task == "d2:task-0" && !RightAt(ss, ls, |ls|)
  {
    hide SysInv, Step, MayArrive, FirstDag, SecondDag, JobsRight, ParseNumericTaskID, RefCount;
    var cfg := TwoWorkers();
    var w1, w2 := map["d1:task-0" := 1, "d1:task-1" := 1, "d1:task-2" := 1], map["d2:task-0" := 1];
    FirstArrives();
    SecondArrives();
    InitHolds(cfg);
    var s1, l1, s2 := Termination.SubmitAndReact(cfg, Init(cfg), "d1", FirstDag(), w1);
    var s3, l2, s4 := Termination.SubmitAndReact(cfg, s2, "d2", SecondDag(), w2);
    assert Init(cfg).core.g + FirstDag() == FirstDag();
    ss, ls := [Init(cfg), s1, s2, s3, s4], [Submit("d1", FirstDag(), w1), l1, Submit("d2", SecondDag(), w2), l2];
    j := EntryRuns(s4, "d1:task-0");
    k := EntryRuns(s4, "d2:task-0");
    BothZero();
    DifferentCounts();
    assert !Agree(s4.running, s4.core.g);
    if RightAt(ss, ls, 4) { RightAgree(RulesAt(ss, ls, 4), s4.running, s4.core.g); }
  }
}
