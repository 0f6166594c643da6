/** Every step of the reactor keeps the invariant. */
module ReactorInvariant {
  import opened Api
  import opened Graphs
  import opened StateManager
  import opened Reactor

  // ---------- who works on what ----------

  lemma JobAdded(tasks: map<Id, TaskState>, workers: map<Id, WorkerState>, ws: seq<Id>, jobs: multiset<Job>, j: Job)
    requires Assigned(tasks, workers, ws, jobs) && !Is(tasks, j.task, Running)
    requires j.worker in ws && j.worker in workers && workers[j.worker] == Idle
    ensures Assigned(tasks[j.task := Running], workers[j.worker := Busy], ws, jobs + multiset{j})
  {
    JobAddedSound(tasks, workers, ws, jobs, j);
    JobAddedWorked(tasks, workers, ws, jobs, j);
    hide JobsSound, OneToOne, RunningWorked, BusyWorking;
  }

  lemma JobAddedWorked(tasks: map<Id, TaskState>, workers: map<Id, WorkerState>, ws: seq<Id>, jobs: multiset<Job>,
                       j: Job)
    requires RunningWorked(tasks, jobs) && BusyWorking(workers, ws, jobs)
    ensures RunningWorked(tasks[j.task := Running], jobs + multiset{j})
    ensures BusyWorking(workers[j.worker := Busy], ws, jobs + multiset{j})
  {
    var more := jobs + multiset{j};
    assert j == Job(j.task, j.worker) && j in more;
    forall t | Is(tasks, t, Running) ensures HasJob(more, t) {
      assert HasJob(jobs, t);
      var w :| Job(t, w) in jobs;
      assert Job(t, w) in more;
    }
    forall w | w in ws && w in workers && workers[w] == Busy ensures Works(more, w) {
      assert Works(jobs, w);
      var t :| Job(t, w) in jobs;
      assert Job(t, w) in more;
    }
  }

  lemma JobAddedSound(tasks: map<Id, TaskState>, workers: map<Id, WorkerState>, ws: seq<Id>, jobs: multiset<Job>,
                      j: Job)
    requires JobsSound(tasks, workers, ws, jobs) && OneToOne(jobs) && !Is(tasks, j.task, Running)
    requires j.worker in ws && j.worker in workers && workers[j.worker] == Idle
    ensures JobsSound(tasks[j.task := Running], workers[j.worker := Busy], ws, jobs + multiset{j})
    ensures OneToOne(jobs + multiset{j})
  {
    forall k | k in jobs ensures k.task != j.task && k.worker != j.worker {
      assert JobOf(tasks, workers, ws, k);
    }
    forall k | k in jobs + multiset{j}
      ensures (jobs + multiset{j})[k] == 1 && JobOf(tasks[j.task := Running], workers[j.worker := Busy], ws, k)
    {
      if k in jobs { assert JobOf(tasks, workers, ws, k); }
    }
  }

  lemma JobRemoved(tasks: map<Id, TaskState>, workers: map<Id, WorkerState>, ws: seq<Id>, jobs: multiset<Job>, j: Job)
    requires Assigned(tasks, workers, ws, jobs) && j in jobs
    ensures Assigned(tasks[j.task := Completed], workers[j.worker := Idle], ws, jobs - multiset{j})
  {
    JobRemovedSound(tasks, workers, ws, jobs, j);
    JobRemovedWorked(tasks, workers, ws, jobs, j);
    hide JobsSound, OneToOne, RunningWorked, BusyWorking;
  }

  lemma JobRemovedSound(tasks: map<Id, TaskState>, workers: map<Id, WorkerState>, ws: seq<Id>, jobs: multiset<Job>,
                        j: Job)
    requires JobsSound(tasks, workers, ws, jobs) && OneToOne(jobs) && j in jobs
    ensures JobsSound(tasks[j.task := Completed], workers[j.worker := Idle], ws, jobs - multiset{j})
    ensures OneToOne(jobs - multiset{j})
  {
    var fewer := jobs - multiset{j};
    assert jobs[j] == 1;
    assert forall k :: k in fewer ==> k in jobs && k != j;
    forall k | k in fewer
      ensures fewer[k] == 1 && JobOf(tasks[j.task := Completed], workers[j.worker := Idle], ws, k)
    {
      assert JobOf(tasks, workers, ws, k) && k.task != j.task && k.worker != j.worker;
    }
  }

  lemma JobRemovedWorked(tasks: map<Id, TaskState>, workers: map<Id, WorkerState>, ws: seq<Id>, jobs: multiset<Job>,
                         j: Job)
    requires RunningWorked(tasks, jobs) && BusyWorking(workers, ws, jobs)
    ensures RunningWorked(tasks[j.task := Completed], jobs - multiset{j})
    ensures BusyWorking(workers[j.worker := Idle], ws, jobs - multiset{j})
  {
    var fewer := jobs - multiset{j};
    forall t | Is(tasks[j.task := Completed], t, Running) ensures HasJob(fewer, t) {
      assert Is(tasks, t, Running) && HasJob(jobs, t);
      var w :| Job(t, w) in jobs;
      assert Job(t, w) in fewer;
    }
    forall w | w in ws && w in workers && workers[w] == Busy && w != j.worker ensures Works(fewer, w) {
      assert Works(jobs, w);
      var t :| Job(t, w) in jobs;
      assert Job(t, w) in fewer;
    }
  }

  /** A change to a task that is neither running nor becomes so leaves the assignment alone. */
  lemma JobsUntouched(tasks: map<Id, TaskState>, workers: map<Id, WorkerState>, ws: seq<Id>, jobs: multiset<Job>,
                      tasks': map<Id, TaskState>)
    requires Assigned(tasks, workers, ws, jobs)
    requires forall t :: Is(tasks, t, Running) <==> Is(tasks', t, Running)
    ensures Assigned(tasks', workers, ws, jobs)
  {
    forall j | j in jobs ensures jobs[j] == 1 && JobOf(tasks', workers, ws, j) {
      assert JobOf(tasks, workers, ws, j);
    }
  }

  lemma JobIsRunning(tasks: map<Id, TaskState>, workers: map<Id, WorkerState>, ws: seq<Id>, jobs: multiset<Job>, j: Job)
    requires Assigned(tasks, workers, ws, jobs) && j in jobs
    ensures Is(tasks, j.task, Running) && j.worker in ws && j.worker in workers && workers[j.worker] == Busy
  {
    assert JobOf(tasks, workers, ws, j);
  }

  // ---------- dispatching ----------

  lemma DispatchLedger(c: Core, t: Id, w: Id)
    requires Ledger(c.tasks, c.log) && Is(c.tasks, t, Ready)
    ensures var d := Dispatch(c, t, w); Ledger(d.tasks, d.log)
  {
    var d := Dispatch(c, t, w);
    forall x ensures LedgerOf(d.tasks, d.log, x) {
      assert LedgerOf(c.tasks, c.log, x);
    }
  }

  lemma DispatchKeeps(c: Core, ws: seq<Id>, jobs: multiset<Job>, j: Job, aging: real, now: real)
    requires Inv(c, ws, jobs, multiset{}) && CanDispatch(c, ws, j.task, j.worker, aging, now)
    ensures Legal(c.tasks, j.task, Running)
    ensures Inv(Dispatch(c, j.task, j.worker), ws, jobs + multiset{j}, multiset{})
  {
    hide Registry, Counted, Assigned, CanDispatch;
    var d := Dispatch(c, j.task, j.worker);
    CanDispatchMeans(c, ws, j, aging, now);
    assert LedgerOf(c.tasks, c.log, j.task);
    assert Incomplete(d.g, d.tasks) == Incomplete(c.g, c.tasks);
    DispatchLedger(c, j.task, j.worker);
    JobAdded(c.tasks, c.workers, ws, jobs, j);
    ExitStays(c.g, c.tasks, c.dagStates, d.tasks);
  }

  lemma CanDispatchMeans(c: Core, ws: seq<Id>, j: Job, aging: real, now: real)
    requires CanDispatch(c, ws, j.task, j.worker, aging, now)
    ensures j.task in c.log.queue && j.worker in ws && j.worker in c.workers && c.workers[j.worker] == Idle
  {
  }

  lemma ExitStays(g: Graph, tasks: map<Id, TaskState>, dagStates: map<Id, DagState>, tasks': map<Id, TaskState>)
    requires ExitMarked(g, tasks, dagStates)
    requires forall t :: Is(tasks, t, Completed) ==> Is(tasks', t, Completed)
    ensures ExitMarked(g, tasks', dagStates)
  {
    forall d | d in dagStates && dagStates[d] == DagCompleted ensures exists t :: CompletedExit(g, tasks', d, t) {
      var t :| CompletedExit(g, tasks, d, t);
      assert CompletedExit(g, tasks', d, t);
    }
  }

  lemma {:induction false} DispatchAllKeeps(c: Core, ws: seq<Id>, jobs: multiset<Job>, trace: seq<Job>,
                                            aging: real, now: real)
    requires Inv(c, ws, jobs, multiset{}) && CanDispatchAll(c, ws, trace, aging, now)
    ensures Inv(DispatchAll(c, trace), ws, jobs + multiset(trace), multiset{})
    decreases |trace|
  {
    hide Inv, CanDispatch, Dispatch;
    if trace == [] {
      assert jobs + multiset(trace) == jobs;
    } else {
      var n := |trace| - 1;
      DispatchAllKeeps(c, ws, jobs, trace[..n], aging, now);
      DispatchKeeps(DispatchAll(c, trace[..n]), ws, jobs + multiset(trace[..n]), trace[n], aging, now);
      assert trace == trace[..n] + [trace[n]];
      assert jobs + multiset(trace) == jobs + multiset(trace[..n]) + multiset{trace[n]};
    }
  }

  // ---------- completions ----------

  lemma CompletionLedger(c: Core, j: Job)
    requires Ledger(c.tasks, c.log) && Is(c.tasks, j.task, Running)
    ensures var d := MarkCompleted(c, j.task, j.worker); Ledger(d.tasks, d.log)
  {
    var d := MarkCompleted(c, j.task, j.worker);
    forall x ensures LedgerOf(d.tasks, d.log, x) {
      assert LedgerOf(c.tasks, c.log, x);
    }
  }

  lemma CompletionMarks(c: Core, t: Id, w: Id)
    requires ExitMarked(c.g, c.tasks, c.dagStates) && Is(c.tasks, t, Running)
    ensures var d := MarkCompleted(c, t, w); ExitMarked(d.g, d.tasks, d.dagStates)
  {
    var d := MarkCompleted(c, t, w);
    forall k | k in d.dagStates && d.dagStates[k] == DagCompleted
      ensures exists x :: CompletedExit(d.g, d.tasks, k, x)
    {
      if t in c.g && c.g[t] == [] && k == ExtractDAGID(t) {
        assert CompletedExit(d.g, d.tasks, k, t);
      } else {
        var x :| CompletedExit(c.g, c.tasks, k, x);
        assert CompletedExit(d.g, d.tasks, k, x);
      }
    }
  }

  lemma CompletionCounts(c: Core, t: Id)
    requires Counted(c.g, c.rem, Incomplete(c.g, c.tasks), multiset{})
    requires t in c.g && Is(c.tasks, t, Running)
    ensures Counted(c.g, c.rem, Incomplete(c.g, c.tasks[t := Completed]), Targets(c.g[t]))
  {
    InEdgesRemove(c.g, Incomplete(c.g, c.tasks), t);
    assert Incomplete(c.g, c.tasks[t := Completed]) == Incomplete(c.g, c.tasks) - {t};
  }

  lemma CompletionStarts(c: Core, ws: seq<Id>, jobs: multiset<Job>, j: Job)
    requires Inv(c, ws, jobs, multiset{}) && j in jobs
    ensures j.task in c.g && Legal(c.tasks, j.task, Completed)
    ensures Inv(MarkCompleted(c, j.task, j.worker), ws, jobs - multiset{j}, Targets(c.g[j.task]))
  {
    hide Registry, Counted, Ledger, ExitMarked, Assigned;
    var d := MarkCompleted(c, j.task, j.worker);
    JobIsRunning(c.tasks, c.workers, ws, jobs, j);
    CompletionCounts(c, j.task);
    CompletionLedger(c, j);
    JobRemoved(c.tasks, c.workers, ws, jobs, j);
    CompletionMarks(c, j.task, j.worker);
  }

  lemma ReleaseCounts(g: Graph, rem: map<Id, int>, live: set<Id>, owed: multiset<Id>, t: Id)
    requires live <= g.Keys && Counted(g, rem, live, owed) && t in owed && t in rem
    ensures rem[t] > 0 && Counted(g, rem[t := rem[t] - 1], live, owed - multiset{t})
  {
  }

  lemma EnqueueLedger(tasks: map<Id, TaskState>, l: Log, t: Id)
    requires Ledger(tasks, l) && Is(tasks, t, Waiting)
    ensures Ledger(tasks[t := Ready], Pushed(l, multiset{t}))
  {
    var tasks', l' := tasks[t := Ready], Pushed(l, multiset{t});
    forall x ensures LedgerOf(tasks', l', x) {
      assert LedgerOf(tasks, l, x);
      if x != t { assert Is(tasks', x, Ready) == Is(tasks, x, Ready); }
    }
  }

  lemma ReleaseLedger(c: Core, t: Id, now: real)
    requires Ledger(c.tasks, c.log) && Is(c.tasks, t, Waiting)
    ensures var d := ReleaseOne(c, t, now); Ledger(d.tasks, d.log)
  {
    hide Ledger, Pushed;
    EnqueueLedger(c.tasks, c.log, t);
  }

  /** The successor is decremented, and becomes READY exactly when its counter reaches zero. */
  lemma ReleaseEffect(c: Core, t: Id, now: real, d: Core)
    requires Domains(c) && Is(c.tasks, t, Waiting) && c.rem[t] > 0 && d == ReleaseOne(c, t, now)
    ensures d.dags == c.dags && d.g == c.g && d.workers == c.workers && d.dagStates == c.dagStates
    ensures d.rem == c.rem[t := c.rem[t] - 1] && d.rank == c.rank
    ensures d.readyAt == if c.rem[t] == 1 then c.readyAt[t := now] else c.readyAt
    ensures d.tasks == if c.rem[t] == 1 then c.tasks[t := Ready] else c.tasks
  {
    var c1 := c.(rem := c.rem[t := c.rem[t] - 1]);
    if c.rem[t] == 1 {
      assert d == Enqueue(c1, t, now);
    } else {
      assert d == c1;
    }
  }

  /** One release, step by step: the counter, then the queue if it reached zero. */
  lemma ReleasedOnce(c: Core, t: Id, now: real, r: int)
    requires t in c.rem ==> r == if c.rem[t] > 0 then c.rem[t] - 1 else c.rem[t]
    ensures ReleaseOne(c, t, now) == if t !in c.rem then c
                                     else if r == 0 then Enqueue(c.(rem := c.rem[t := r]), t, now)
                                     else c.(rem := c.rem[t := r])
  {
    hide Enqueue;
  }

  lemma ReleaseStages(tasks: map<Id, TaskState>, rem: map<Id, int>, t: Id)
    requires Staged(tasks, rem) && Is(tasks, t, Waiting) && t in rem && rem[t] > 0
    ensures Staged(if rem[t] == 1 then tasks[t := Ready] else tasks, rem[t := rem[t] - 1])
  {
  }

  /** What a release finds: the counter of a task that is owed a decrement is positive, so the task is WAITING. */
  lemma ReleaseFinds(c: Core, ws: seq<Id>, jobs: multiset<Job>, owed: multiset<Id>, t: Id)
    requires Inv(c, ws, jobs, owed) && t in owed && t in c.g
    ensures Domains(c) && t in c.rem && Is(c.tasks, t, Waiting) && c.rem[t] > 0
    ensures Counted(c.g, c.rem[t := c.rem[t] - 1], Incomplete(c.g, c.tasks), owed - multiset{t})
  {
    hide Registry, Counted, Ledger, Assigned, ExitMarked;
    ReleaseCounts(c.g, c.rem, Incomplete(c.g, c.tasks), owed, t);
  }

  /** Becoming READY completes nothing and starts no job. */
  lemma ReadyIsQuiet(g: Graph, tasks: map<Id, TaskState>, tasks': map<Id, TaskState>, t: Id)
    requires Is(tasks, t, Waiting) && (tasks' == tasks || tasks' == tasks[t := Ready])
    ensures Incomplete(g, tasks') == Incomplete(g, tasks)
    ensures forall x :: Is(tasks, x, Running) <==> Is(tasks', x, Running)
    ensures forall x :: Is(tasks, x, Completed) ==> Is(tasks', x, Completed)
  {
  }

  /** A release that is owed makes its task READY at most once. */
  lemma ReleaseOneKeeps(c: Core, ws: seq<Id>, jobs: multiset<Job>, owed: multiset<Id>, t: Id, now: real)
    requires Inv(c, ws, jobs, owed) && t in owed && t in c.g
    ensures c.rem[t] > 0 && Legal(c.tasks, t, Ready)
    ensures Inv(ReleaseOne(c, t, now), ws, jobs, owed - multiset{t}) && ReleaseOne(c, t, now).g == c.g
  {
    hide Registry, Counted, Ledger, Assigned, ExitMarked, ReleaseOne, Staged, Incomplete, Is;
    var d := ReleaseOne(c, t, now);
    ReleaseFinds(c, ws, jobs, owed, t);
    ReleaseEffect(c, t, now, d);
    ReadyIsQuiet(c.g, c.tasks, d.tasks, t);
    ReleaseStages(c.tasks, c.rem, t);
    ReleaseLedger(c, t, now);
    JobsUntouched(c.tasks, c.workers, ws, jobs, d.tasks);
    ExitStays(c.g, c.tasks, c.dagStates, d.tasks);
    WaitingMayReady(c.tasks, t);
  }

  lemma WaitingMayReady(tasks: map<Id, TaskState>, t: Id)
    requires Is(tasks, t, Waiting)
    ensures Legal(tasks, t, Ready) && t in tasks
  {
  }

  lemma {:induction false} ReleaseKeeps(c: Core, ws: seq<Id>, jobs: multiset<Job>, ds: seq<Dependency>, now: real)
    requires Inv(c, ws, jobs, Targets(ds))
    requires forall k :: 0 <= k < |ds| ==> ds[k].targetTaskID in c.g
    ensures Inv(Release(c, ds, now), ws, jobs, multiset{})
    decreases |ds|
  {
    hide Inv, ReleaseOne;
    if ds != [] {
      var t := ds[0].targetTaskID;
      ReleaseOneKeeps(c, ws, jobs, Targets(ds), t, now);
      assert Targets(ds) - multiset{t} == Targets(ds[1..]);
      ReleaseKeeps(ReleaseOne(c, t, now), ws, jobs, ds[1..], now);
    }
  }

  lemma CompletionKeeps(c: Core, ws: seq<Id>, jobs: multiset<Job>, j: Job, now: real)
    requires Inv(c, ws, jobs, multiset{}) && j in jobs
    ensures Inv(AfterCompletion(c, j.task, j.worker, now), ws, jobs - multiset{j}, multiset{})
  {
    CompletionStarts(c, ws, jobs, j);
    ReleaseKeeps(MarkCompleted(c, j.task, j.worker), ws, jobs - multiset{j}, c.g[j.task], now);
  }

  // ---------- arrivals ----------

  ghost predicate ArrivalFits(c: Core, d: Id, h: Graph, a: Arrival) {
    d !in c.dags ==> ValidDag(d, h) && a.rank.Keys == a.stale.Keys == a.clock.Keys == h.Keys
  }

  lemma ArrivalDisjoint(c: Core, d: Id, h: Graph)
    requires Registry(c.dags, c.g) && ValidDag(d, h) && d !in c.dags
    ensures c.g.Keys !! h.Keys && Registry(c.dags + {d}, c.g + h)
  {
    forall t | t in h ensures t !in c.g {
      assert ExtractDAGID(t) == d;
    }
    UnionAcyclic(c.g, h);
  }

  /** All tasks of an accepted DAG are new to the state table, so no update is refused. */
  lemma NothingRefused(tasks: map<Id, TaskState>, h: Graph)
    requires tasks.Keys !! h.Keys
    ensures Admitted(tasks, h) == FirstStates(h)
  {
  }

  lemma IncompleteGrows(g: Graph, tasks: map<Id, TaskState>, h: Graph)
    requires g.Keys !! h.Keys && tasks.Keys == g.Keys
    ensures Incomplete(g + h, tasks + FirstStates(h)) == Incomplete(g, tasks) + h.Keys
  {
  }

  lemma ArrivalCounts(c: Core, h: Graph)
    requires Counted(c.g, c.rem, Incomplete(c.g, c.tasks), multiset{}) && Domains(c)
    requires c.g.Keys !! h.Keys && Closed(c.g) && Closed(h)
    ensures Counted(c.g + h, c.rem + InDegrees(h), Incomplete(c.g + h, c.tasks + FirstStates(h)), multiset{})
  {
    var live := Incomplete(c.g, c.tasks);
    IncompleteGrows(c.g, c.tasks, h);
    hide Incomplete, FirstStates, Closed, InEdges;
    forall t | t in c.g + h ensures (c.rem + InDegrees(h))[t] == InEdges(c.g + h, live + h.Keys)[t] {
      InEdgesSides(c.g, h, live, t);
    }
  }

  lemma ArrivalLedger(tasks: map<Id, TaskState>, l: Log, h: Graph)
    requires Ledger(tasks, l) && tasks.Keys !! h.Keys
    ensures Ledger(tasks + FirstStates(h), Pushed(l, multiset(Entries(h))))
  {
    var l' := Pushed(l, multiset(Entries(h)));
    forall x ensures LedgerOf(tasks + FirstStates(h), l', x) {
      assert LedgerOf(tasks, l, x);
      assert x in tasks ==> x !in h;
    }
  }

  lemma ArrivalMarks(g: Graph, tasks: map<Id, TaskState>, dagStates: map<Id, DagState>, d: Id, h: Graph)
    requires ExitMarked(g, tasks, dagStates) && g.Keys !! h.Keys && tasks.Keys == g.Keys
    ensures ExitMarked(g + h, tasks + FirstStates(h), dagStates[d := DagActive])
  {
    forall k | k in dagStates && k != d && dagStates[k] == DagCompleted
      ensures exists x :: CompletedExit(g + h, tasks + FirstStates(h), k, x)
    {
      var x :| CompletedExit(g, tasks, k, x);
      assert CompletedExit(g + h, tasks + FirstStates(h), k, x);
    }
  }

  lemma ArrivalStages(tasks: map<Id, TaskState>, rem: map<Id, int>, h: Graph)
    requires Staged(tasks, rem) && tasks.Keys == rem.Keys && tasks.Keys !! h.Keys
    ensures Staged(tasks + FirstStates(h), rem + InDegrees(h))
  {
    hide IsEntry, InDegree;
    forall t | t in h ensures t in Entries(h) <==> InDegree(h, t) == 0 {
      EntryDegree(h, t);
    }
  }

  lemma RegistryClosed(dags: set<Id>, g: Graph)
    requires Registry(dags, g)
    ensures Closed(g) && Acyclic(g)
  {
  }

  lemma ArrivalFields(c: Core, d: Id, h: Graph, a: Arrival, c': Core)
    requires Domains(c) && d !in c.dags && c.g.Keys !! h.Keys && a.rank.Keys == a.stale.Keys == a.clock.Keys == h.Keys
    requires c' == AfterArrival(c, d, h, a)
    ensures c'.dags == c.dags + {d} && c'.g == c.g + h && c'.workers == c.workers
    ensures c'.tasks == c.tasks + FirstStates(h) && c'.rem == c.rem + InDegrees(h)
    ensures c'.dagStates == c.dagStates[d := DagActive] && c'.log == Pushed(c.log, multiset(Entries(h)))
    ensures Domains(c')
  {
    hide FirstStates, Admitted, Entries, InDegrees, Stamped, Legal;
    NothingRefused(c.tasks, h);
    ArrivalKeys(h, a.stale, a.clock);
  }

  lemma ArrivalKeys(h: Graph, stale: map<Id, real>, clock: map<Id, real>)
    requires stale.Keys == h.Keys
    ensures InDegrees(h).Keys == FirstStates(h).Keys == Stamped(h, stale, clock).Keys == h.Keys
  {
  }

  lemma ArrivalAccepted(c: Core, ws: seq<Id>, jobs: multiset<Job>, d: Id, h: Graph, a: Arrival)
    requires Inv(c, ws, jobs, multiset{}) && d !in c.dags && ValidDag(d, h)
    requires a.rank.Keys == a.stale.Keys == a.clock.Keys == h.Keys
    ensures Inv(AfterArrival(c, d, h, a), ws, jobs, multiset{})
  {
    hide Registry, Counted, Ledger, Assigned, ExitMarked, Staged, FirstStates, ValidDag, AfterArrival;
    var c' := AfterArrival(c, d, h, a);
    ArrivalDisjoint(c, d, h);
    ArrivalFields(c, d, h, a, c');
    RegistryClosed(c.dags, c.g);
    ValidClosed(d, h);
    ArrivalCounts(c, h);
    ArrivalLedger(c.tasks, c.log, h);
    ArrivalMarks(c.g, c.tasks, c.dagStates, d, h);
    RunningOnlyOld(c.tasks, h);
    JobsUntouched(c.tasks, c.workers, ws, jobs, c'.tasks);
    ArrivalStages(c.tasks, c.rem, h);
  }

  lemma ValidClosed(d: Id, h: Graph)
    requires ValidDag(d, h)
    ensures Closed(h) && FirstStates(h).Keys == h.Keys
  {
  }

  lemma RunningOnlyOld(tasks: map<Id, TaskState>, h: Graph)
    requires tasks.Keys !! h.Keys
    ensures forall t :: Is(tasks, t, Running) <==> Is(tasks + FirstStates(h), t, Running)
  {
  }

  lemma ArrivalKeeps(c: Core, ws: seq<Id>, jobs: multiset<Job>, d: Id, h: Graph, a: Arrival)
    requires Inv(c, ws, jobs, multiset{}) && ArrivalFits(c, d, h, a)
    ensures Inv(AfterArrival(c, d, h, a), ws, jobs, multiset{})
  {
    hide Registry, Counted, Assigned;
    if d in c.dags {
      assert ExitMarked(c.g, c.tasks, c.dagStates[d := DagFailed]);
    } else {
      ArrivalAccepted(c, ws, jobs, d, h, a);
    }
  }

  // ---------- the loop over an arriving DAG's tasks, in any order ----------

  lemma AdmittedOneMore(tasks: map<Id, TaskState>, h: Graph, done: set<Id>, t: Id, first: TaskState)
    requires t in h && first == FirstStates(h)[t]
    ensures AdmittedIn(tasks, h, done + {t}) ==
            AdmittedIn(tasks, h, done)[t := if Legal(tasks, t, first) then first else tasks[t]]
  {
    hide Legal, Entries;
  }

  lemma AdmitsStates(tasks: map<Id, TaskState>, h: Graph, done: set<Id>, t: Id)
    requires t in h && t !in done
    ensures tasks + AdmittedIn(tasks, h, done + {t}) == Moved(tasks + AdmittedIn(tasks, h, done), t, FirstStates(h)[t])
  {
    var first := FirstStates(h)[t];
    var m := AdmittedIn(tasks, h, done);
    AdmittedOneMore(tasks, h, done, t, first);
    assert t !in m;
    hide AdmittedIn, FirstStates, Allowed;
    if Legal(tasks, t, first) {
      assert tasks + m[t := first] == (tasks + m)[t := first];
    } else {
      assert tasks + m[t := tasks[t]] == tasks + m;
    }
  }

  lemma AdmitsStamps(readyAt: map<Id, real>, h: Graph, done: set<Id>, t: Id, clock: map<Id, real>)
    requires t in h && t !in done && t in readyAt && t in clock
    ensures readyAt + StampedIn(h, done + {t}, clock) ==
            var before := readyAt + StampedIn(h, done, clock); if t in Entries(h) then before[t := clock[t]] else before
  {
  }

  lemma AdmitsPushes(l: Log, h: Graph, done: set<Id>, t: Id)
    requires t in h && t !in done
    ensures Pushed(l, multiset(Entries(h) * (done + {t}))) ==
            if t in Entries(h) then Pushed(Pushed(l, multiset(Entries(h) * done)), multiset{t})
            else Pushed(l, multiset(Entries(h) * done))
  {
    if t in Entries(h) {
      assert Entries(h) * (done + {t}) == Entries(h) * done + {t};
    } else {
      assert Entries(h) * (done + {t}) == Entries(h) * done;
    }
  }

  /** One more turn of the loop. */
  lemma AdmitStep(c: Core, h: Graph, done: set<Id>, t: Id, clock: map<Id, real>)
    requires t in h && t !in done && t in c.readyAt && t in clock
    ensures AdmittedSoFar(c, h, done + {t}, clock) == AdmitOne(AdmittedSoFar(c, h, done, clock), h, t, clock[t])
  {
    hide AdmittedIn, StampedIn, Entries, Moved, Pushed;
    AdmitsStates(c.tasks, h, done, t);
    AdmitsStamps(c.readyAt, h, done, t, clock);
    AdmitsPushes(c.log, h, done, t);
  }

  /** A DAG whose ID is taken only changes that DAG's mark. */
  lemma ArrivalRefused(c: Core, d: Id, h: Graph, a: Arrival)
    requires d in c.dags
    ensures AfterArrival(c, d, h, a) == c.(dagStates := c.dagStates[d := DagFailed])
  {
  }

  /** Registering, then ranking, is what WithDag says. */
  lemma RegisteredThenRanked(c: Core, d: Id, h: Graph, a: Arrival, rank0: map<Id, real>, c1: Core, c2: Core)
    requires c1 == c.(dags := c.dags + {d}, g := c.g + h, rem := c.rem + InDegrees(h),
                      dagStates := c.dagStates[d := DagActive], rank := c.rank + rank0, readyAt := c.readyAt + a.stale)
    requires c2 == c1.(rank := c.rank + a.rank, vol := c1.vol[d := a.vol])
    ensures c2 == WithDag(c, d, h, a)
  {
  }

  lemma AdmitNone(c: Core, h: Graph, clock: map<Id, real>)
    ensures AdmittedSoFar(c, h, {}, clock) == c
  {
    assert Entries(h) * {} == {};
  }

  /** At the end the whole arrival has been handled. */
  lemma AdmitEnd(c: Core, d: Id, h: Graph, a: Arrival)
    requires d !in c.dags && a.stale.Keys == a.clock.Keys == h.Keys
    ensures AdmittedSoFar(WithDag(c, d, h, a), h, h.Keys, a.clock) == AfterArrival(c, d, h, a)
  {
    hide AdmittedIn, Admitted, StampedIn, Stamped, Entries, InDegrees;
    AdmitEndStates(c.tasks, h);
    AdmitEndStamps(c.readyAt, h, a.stale, a.clock);
  }

  lemma AdmitEndStates(tasks: map<Id, TaskState>, h: Graph)
    ensures AdmittedIn(tasks, h, h.Keys) == Admitted(tasks, h) && Entries(h) * h.Keys == Entries(h)
  {
    hide Legal, IsEntry;
  }

  lemma AdmitEndStamps(readyAt: map<Id, real>, h: Graph, stale: map<Id, real>, clock: map<Id, real>)
    requires stale.Keys == clock.Keys == h.Keys
    ensures readyAt + stale + StampedIn(h, h.Keys, clock) == readyAt + Stamped(h, stale, clock)
  {
    hide IsEntry;
  }
}
