/** What holds of every run of the reactor. */
module RunTheorems {
  import opened Api
  import opened Graphs
  import opened Reactor
  import opened ReactorInvariant
  import opened Runs

  // ---------- dependency safety ----------

  /** In every reachable state a task waits exactly while one of its predecessors is incomplete. */
  lemma DependencySafety(cfg: Config, ss: seq<Sys>, ls: seq<Label>, i: nat, t: Id)
    requires IsRun(cfg, ss, ls) && i <= |ls| && t in ss[i].core.g
    ensures var c := ss[i].core;
      t in c.tasks &&
      (c.tasks[t] == Waiting <==> exists u :: Edge(c.g, u, t) && !Is(c.tasks, u, Completed))
  {
    RunKeeps(cfg, ss, ls, i);
    WaitsIff(ss[i].core, cfg.ws, Jobs(ss[i]), t);
  }

  lemma WaitsIff(c: Core, ws: seq<Id>, jobs: multiset<Job>, t: Id)
    requires Inv(c, ws, jobs, multiset{}) && t in c.g
    ensures c.tasks[t] == Waiting <==> exists u :: Edge(c.g, u, t) && !Is(c.tasks, u, Completed)
  {
    hide Registry, Ledger, Assigned, ExitMarked, Edge;
    var live := Incomplete(c.g, c.tasks);
    InEdgesIn(c.g, live, t);
    assert c.tasks[t] == Waiting <==> t in InEdges(c.g, live);
    if u :| Edge(c.g, u, t) && !Is(c.tasks, u, Completed) {
      EdgeSource(c.g, u, t);
      assert u in live;
    }
  }

  lemma EdgeSource(g: Graph, u: Id, t: Id)
    requires Edge(g, u, t)
    ensures u in g
  {
  }

  // ---------- no deadlock ----------

  /** While anything registered is incomplete and there is a worker, some task is being worked on:
      its worker goroutine is executing or its completion is waiting in the channel. */
  lemma NoDeadlock(cfg: Config, ss: seq<Sys>, ls: seq<Label>, i: nat, t: Id)
    requires IsRun(cfg, ss, ls) && i <= |ls| && cfg.ws != []
    requires t in ss[i].core.g && !Is(ss[i].core.tasks, t, Completed)
    ensures exists j :: j in Jobs(ss[i]) && Is(ss[i].core.tasks, j.task, Running)
  {
    RunKeeps(cfg, ss, ls, i);
    var j := SomeoneWorks(cfg, ss[i], t);
  }

  lemma SomeoneWorks(cfg: Config, s: Sys, t: Id) returns (j: Job)
    requires SysInv(cfg, s) && cfg.ws != [] && t in s.core.g && !Is(s.core.tasks, t, Completed)
    ensures j in Jobs(s) && Is(s.core.tasks, j.task, Running)
  {
    hide Counted, ExitMarked, Assigned, Jobs, EventsFit;
    var c := s.core;
    assert t in Incomplete(c.g, c.tasks);
    var v := SourceOf(c.g, Incomplete(c.g, c.tasks));
    WaitsIff(c, cfg.ws, Jobs(s), v);
    assert LedgerOf(c.tasks, c.log, v);
    j := JobFor(c, cfg.ws, Jobs(s), v);
  }

  /** A ready or running task means somebody works: a ready one waits only because the workers are busy. */
  lemma JobFor(c: Core, ws: seq<Id>, jobs: multiset<Job>, v: Id) returns (j: Job)
    requires Assigned(c.tasks, c.workers, ws, jobs) && ws != []
    requires Is(c.tasks, v, Running) || (v in c.log.queue && Quiet(c, ws))
    ensures j in jobs && Is(c.tasks, j.task, Running)
  {
    hide JobsSound, OneToOne;
    if Is(c.tasks, v, Running) {
      assert HasJob(jobs, v);
      var w :| Job(v, w) in jobs;
      j := Job(v, w);
    } else {
      assert ws[0] in ws && c.workers[ws[0]] == Busy;
      assert Works(jobs, ws[0]);
      var t :| Job(t, ws[0]) in jobs;
      j := Job(t, ws[0]);
    }
    JobIsRunning(c.tasks, c.workers, ws, jobs, j);
  }

  // ---------- exactly once ----------

  /** Over any run each task is pushed, dispatched and completed at most once, and in that order. */
  lemma ExactlyOnce(cfg: Config, ss: seq<Sys>, ls: seq<Label>, i: nat, t: Id)
    requires IsRun(cfg, ss, ls) && i <= |ls|
    ensures var l := ss[i].core.log;
      && 1 >= l.pushed[t] >= l.dispatched[t] >= l.completed[t]
      && (l.completed[t] == 1 <==> Is(ss[i].core.tasks, t, Completed))
      && l.queue[t] == l.pushed[t] - l.dispatched[t]
  {
    RunKeeps(cfg, ss, ls, i);
    assert LedgerOf(ss[i].core.tasks, ss[i].core.log, t);
  }

  /** BUSY exactly while one running task is assigned, and no task runs twice. */
  lemma BusyIffWorking(cfg: Config, ss: seq<Sys>, ls: seq<Label>, i: nat, w: Id)
    requires IsRun(cfg, ss, ls) && i <= |ls| && w in cfg.ws
    ensures WorkerInOrder(ss[i].core.tasks, ss[i].core.workers, Jobs(ss[i]), w)
  {
    hide Jobs;
    RunKeeps(cfg, ss, ls, i);
    AssignedWorker(ss[i].core.tasks, ss[i].core.workers, cfg.ws, Jobs(ss[i]), w);
  }

  ghost predicate WorkerInOrder(tasks: map<Id, TaskState>, workers: map<Id, WorkerState>, jobs: multiset<Job>, w: Id) {
    && w in workers && (workers[w] == Busy || workers[w] == Idle)
    && (workers[w] == Busy <==> Works(jobs, w))
    && (forall t, u :: Job(t, w) in jobs && Job(u, w) in jobs ==> t == u)
    && (forall t :: Job(t, w) in jobs ==> jobs[Job(t, w)] == 1 && Is(tasks, t, Running))
  }

  lemma AssignedWorker(tasks: map<Id, TaskState>, workers: map<Id, WorkerState>, ws: seq<Id>, jobs: multiset<Job>,
                       w: Id)
    requires Assigned(tasks, workers, ws, jobs) && w in ws
    ensures WorkerInOrder(tasks, workers, jobs, w)
  {
    hide RunningWorked;
    if Works(jobs, w) {
      var t :| Job(t, w) in jobs;
      assert JobOf(tasks, workers, ws, Job(t, w));
    }
    forall t | Job(t, w) in jobs ensures jobs[Job(t, w)] == 1 && Is(tasks, t, Running) {
      assert JobOf(tasks, workers, ws, Job(t, w));
    }
  }

  // ---------- the premise on WORKER_IDLE ----------

  /** Handling a WORKER_IDLE event keeps the invariant exactly when the worker is not one that is busy. */
  lemma WorkerIdleExact(c: Core, ws: seq<Id>, jobs: multiset<Job>, w: Id, a: Arrival, now: real)
    requires Inv(c, ws, jobs, multiset{})
    ensures Inv(Handle(c, WorkerIdle(w), a, now), ws, jobs, multiset{}) <==>
            !(w in ws && Working(c.workers, w))
  {
    hide Registry, Counted, Ledger, ExitMarked, Assigned;
    IdleAssigned(c.tasks, c.workers, ws, jobs, w);
  }

  predicate Working(workers: map<Id, WorkerState>, w: Id) {
    w in workers && workers[w] == Busy
  }

  lemma IdleAssigned(tasks: map<Id, TaskState>, workers: map<Id, WorkerState>, ws: seq<Id>, jobs: multiset<Job>, w: Id)
    requires Assigned(tasks, workers, ws, jobs)
    ensures Assigned(tasks, workers[w := Idle], ws, jobs) <==> !(w in ws && Working(workers, w))
  {
    hide RunningWorked, OneToOne, Registered;
    assert Registered(workers[w := Idle], ws) by { RegisteredStays(workers, ws, w); }
    if w in ws && Working(workers, w) {
      hide JobOf;
      assert Works(jobs, w);
      var t :| Job(t, w) in jobs;
      assert !JobOf(tasks, workers[w := Idle], ws, Job(t, w)) by { NoJobWhenIdle(tasks, workers, ws, Job(t, w)); }
    } else {
      hide JobsSound, BusyWorking;
      IdleHarmless(tasks, workers, ws, jobs, w);
    }
  }

  lemma RegisteredStays(workers: map<Id, WorkerState>, ws: seq<Id>, w: Id)
    requires Registered(workers, ws)
    ensures Registered(workers[w := Idle], ws)
  {
  }

  lemma NoJobWhenIdle(tasks: map<Id, TaskState>, workers: map<Id, WorkerState>, ws: seq<Id>, j: Job)
    ensures !JobOf(tasks, workers[j.worker := Idle], ws, j)
  {
  }

  lemma IdleHarmless(tasks: map<Id, TaskState>, workers: map<Id, WorkerState>, ws: seq<Id>, jobs: multiset<Job>, w: Id)
    requires JobsSound(tasks, workers, ws, jobs) && BusyWorking(workers, ws, jobs)
    requires !(w in ws && Working(workers, w))
    ensures JobsSound(tasks, workers[w := Idle], ws, jobs) && BusyWorking(workers[w := Idle], ws, jobs)
  {
    forall j | j in jobs ensures jobs[j] == 1 && JobOf(tasks, workers[w := Idle], ws, j) {
      assert JobOf(tasks, workers, ws, j);
    }
  }
}
