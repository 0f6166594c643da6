/** What one reactor step does to the scheduler's state, on values (internal/scheduler/core.go:130-304). */
module Reactor {
  import opened Api
  import opened Graphs
  import opened StateManager

  /** The ready queue without its arrangement, and the history of what went through it. */
  datatype Log = Log(
    queue: multiset<Id>,
    pushed: multiset<Id>,             // tasks put on the queue so far,
    dispatched: multiset<Id>,         // handed to a worker,
    completed: multiset<Id>           // reported complete
  )

  /** Everything the scheduler, the graph engine and the state manager remember. */
  datatype Core = Core(
    dags: set<Id>,
    g: Graph,                         // successors of every registered task
    rem: map<Id, int>,                // RemainingDependencies
    tasks: map<Id, TaskState>,
    dagStates: map<Id, DagState>,
    workers: map<Id, WorkerState>,
    log: Log,
    rank: map<Id, real>,              // StaticRankU + StaticRankD
    vol: map<Id, real>,               // VolPerSubtask of each DAG
    readyAt: map<Id, real>
  )

  /** A task handed to a worker. */
  datatype Job = Job(task: Id, worker: Id)

  function TasksOf(trace: seq<Job>): (ts: seq<Id>)
    ensures |ts| == |trace|
  {
    seq(|trace|, i requires 0 <= i < |trace| => trace[i].task)
  }

  /** What an arriving DAG brings: its ranks, its ReadyAt fields and its volume term; and what the clock says when the
      loop comes to each of its tasks. */
  datatype Arrival = Arrival(rank: map<Id, real>, stale: map<Id, real>, vol: real, clock: map<Id, real>)

  datatype Event =
    | DagArrived(dagID: Id, topology: Graph, work: map<Id, int>)
    | TaskCompleted(taskID: Id, workerID: Id)
    | WorkerIdle(workerID: Id)

  // ---------- the steps ----------

  function Pushed(l: Log, ts: multiset<Id>): Log {
    l.(queue := l.queue + ts, pushed := l.pushed + ts)
  }

  function Enqueue(c: Core, t: Id, now: real): Core {
    c.(tasks := Moved(c.tasks, t, Ready),
       readyAt := c.readyAt[t := now],
       log := Pushed(c.log, multiset{t}))
  }

  /** One turn of the loop that releases the successors of a completed task. */
  function ReleaseOne(c: Core, t: Id, now: real): Core {
    if t !in c.rem then c else
    var r := if c.rem[t] > 0 then c.rem[t] - 1 else c.rem[t];
    var c1 := c.(rem := c.rem[t := r]);
    if r == 0 then Enqueue(c1, t, now) else c1
  }

  function Release(c: Core, ds: seq<Dependency>, now: real): Core
    decreases |ds|
  {
    if ds == [] then c else Release(ReleaseOne(c, ds[0].targetTaskID, now), ds[1..], now)
  }

  function MarkCompleted(c: Core, t: Id, w: Id): Core {
    c.(tasks := Moved(c.tasks, t, Completed),
       workers := c.workers[w := Idle],
       log := c.log.(completed := c.log.completed + multiset{t}),
       dagStates := if t in c.g && c.g[t] == [] then c.dagStates[ExtractDAGID(t) := DagCompleted] else c.dagStates)
  }

  function AfterCompletion(c: Core, t: Id, w: Id, now: real): Core {
    var c1 := MarkCompleted(c, t, w);
    if t !in c.g then c1 else Release(c1, c.g[t], now)
  }

  ghost function Entries(g: Graph): set<Id> {
    set t | t in g && IsEntry(g, t)
  }

  ghost function InDegrees(h: Graph): map<Id, int> {
    map t | t in h :: InDegree(h, t)
  }

  /** Entry tasks start READY, the others WAITING. */
  ghost function FirstStates(h: Graph): map<Id, TaskState> {
    map t | t in h :: if t in Entries(h) then Ready else Waiting
  }

  /** The state table's answer to each of those first updates. */
  ghost function Admitted(tasks: map<Id, TaskState>, h: Graph): map<Id, TaskState> {
    map t | t in h :: if Legal(tasks, t, FirstStates(h)[t]) then FirstStates(h)[t] else tasks[t]
  }

  /** Entry tasks are stamped, each with its own reading of the clock. */
  ghost function Stamped(h: Graph, stale: map<Id, real>, clock: map<Id, real>): map<Id, real> {
    map t | t in h && t in stale :: if t in Entries(h) && t in clock then clock[t] else stale[t]
  }

  ghost function AfterArrival(c: Core, d: Id, h: Graph, a: Arrival): Core {
    if d in c.dags then c.(dagStates := c.dagStates[d := DagFailed]) else
    c.(dags := c.dags + {d},
       g := c.g + h,
       rem := c.rem + InDegrees(h),
       tasks := c.tasks + Admitted(c.tasks, h),
       dagStates := c.dagStates[d := DagActive],
       log := Pushed(c.log, multiset(Entries(h))),
       rank := c.rank + a.rank,
       vol := c.vol[d := a.vol],
       readyAt := c.readyAt + Stamped(h, a.stale, a.clock))
  }

  // ---------- an arrival, one task at a time ----------

  /** After registration and ranking, before any task of the DAG has been looked at. */
  ghost function WithDag(c: Core, d: Id, h: Graph, a: Arrival): Core {
    c.(dags := c.dags + {d},
       g := c.g + h,
       rem := c.rem + InDegrees(h),
       dagStates := c.dagStates[d := DagActive],
       rank := c.rank + a.rank,
       vol := c.vol[d := a.vol],
       readyAt := c.readyAt + a.stale)
  }

  /** One turn of the loop over the tasks of an arriving DAG. */
  ghost function AdmitOne(c: Core, h: Graph, t: Id, now: real): Core {
    if t in Entries(h) then Enqueue(c, t, now) else c.(tasks := Moved(c.tasks, t, Waiting))
  }

  ghost function AdmittedIn(tasks: map<Id, TaskState>, h: Graph, done: set<Id>): map<Id, TaskState> {
    map t | t in h && t in done :: Admitted(tasks, h)[t]
  }

  ghost function StampedIn(h: Graph, done: set<Id>, clock: map<Id, real>): map<Id, real> {
    map t | t in Entries(h) && t in done && t in clock :: clock[t]
  }

  /** The loop's effect once the tasks in `done` have had their turn, in whatever order. */
  ghost function AdmittedSoFar(c: Core, h: Graph, done: set<Id>, clock: map<Id, real>): Core {
    c.(tasks := c.tasks + AdmittedIn(c.tasks, h, done),
       readyAt := c.readyAt + StampedIn(h, done, clock),
       log := Pushed(c.log, multiset(Entries(h) * done)))
  }

  ghost function Handle(c: Core, e: Event, a: Arrival, now: real): Core {
    match e
    case DagArrived(d, h, _) => AfterArrival(c, d, h, a)
    case TaskCompleted(t, w) => AfterCompletion(c, t, w, now)
    case WorkerIdle(w) => c.(workers := c.workers[w := Idle])
  }

  /** Eq. 19 of the DPLS paper as the code computes it; times are in milliseconds. */
  function Priority(c: Core, t: Id, aging: real, now: real): real
    requires t in c.rank && t in c.readyAt
  {
    var d := ExtractDAGID(t);
    c.rank[t] + (now - c.readyAt[t]) * aging + if d in c.vol then c.vol[d] else 0.0
  }

  /** The first worker in the list that is registered and idle. */
  function FirstIdle(states: map<Id, WorkerState>, ws: seq<Id>): (r: Option<Id>)
    ensures r.Some? ==> r.value in ws && r.value in states && states[r.value] == Idle
    ensures r == None ==> forall w :: w in ws && w in states ==> states[w] != Idle
  {
    if ws == [] then None
    else if ws[0] in states && states[ws[0]] == Idle then Some(ws[0])
    else FirstIdle(states, ws[1..])
  }

  /** No worker earlier in the list is idle. */
  lemma {:induction false} NoneIdleBefore(states: map<Id, WorkerState>, ws: seq<Id>) returns (i: nat)
    requires FirstIdle(states, ws).Some?
    ensures i < |ws| && ws[i] == FirstIdle(states, ws).value && ws[i] in states && states[ws[i]] == Idle
    ensures forall j :: 0 <= j < i ==> !(ws[j] in states && states[ws[j]] == Idle)
  {
    if ws[0] in states && states[ws[0]] == Idle {
      i := 0;
    } else {
      var n := NoneIdleBefore(states, ws[1..]);
      i := n + 1;
      assert forall j :: 0 < j < i ==> ws[j] == ws[1..][j - 1];
    }
  }

  function Dispatch(c: Core, t: Id, w: Id): Core {
    c.(tasks := Moved(c.tasks, t, Running),
       workers := c.workers[w := Busy],
       log := c.log.(queue := c.log.queue - multiset{t}, dispatched := c.log.dispatched + multiset{t}))
  }

  /** The pop returns a queued task no other queued task outranks, and it goes to the first idle worker. */
  ghost predicate CanDispatch(c: Core, ws: seq<Id>, t: Id, w: Id, aging: real, now: real) {
    && FirstIdle(c.workers, ws) == Some(w) && t in c.log.queue
    && c.rank.Keys == c.readyAt.Keys == c.g.Keys && (forall u :: u in c.log.queue ==> u in c.g)
    && forall u :: u in c.log.queue ==> Priority(c, u, aging, now) <= Priority(c, t, aging, now)
  }

  function DispatchAll(c: Core, trace: seq<Job>): Core {
    if trace == [] then c else
    var n := |trace| - 1;
    Dispatch(DispatchAll(c, trace[..n]), trace[n].task, trace[n].worker)
  }

  ghost predicate CanDispatchAll(c: Core, ws: seq<Id>, trace: seq<Job>, aging: real, now: real) {
    trace == [] ||
    var n := |trace| - 1;
    && CanDispatchAll(c, ws, trace[..n], aging, now)
    && CanDispatch(DispatchAll(c, trace[..n]), ws, trace[n].task, trace[n].worker, aging, now)
  }

  /** Work conservation: nothing is queued, or nobody is idle. */
  ghost predicate Quiet(c: Core, ws: seq<Id>) {
    c.log.queue == multiset{} || FirstIdle(c.workers, ws) == None
  }

  // ---------- what a submitted DAG must look like ----------

  /** As the parser leaves it: acyclic, closed, and every task ID starts with this DAG's ID. */
  ghost predicate ValidDag(d: Id, h: Graph) {
    Closed(h) && Acyclic(h) && forall t :: t in h ==> ExtractDAGID(t) == d
  }

  // ---------- the invariant ----------

  ghost predicate Registry(dags: set<Id>, g: Graph) {
    && Closed(g) && Acyclic(g)
    && (forall t :: t in g ==> ExtractDAGID(t) in dags)
    && (forall t, k :: t in g && 0 <= k < |g[t]| ==> ExtractDAGID(g[t][k].targetTaskID) == ExtractDAGID(t))
  }

  ghost predicate Domains(c: Core) {
    c.g.Keys == c.rem.Keys == c.tasks.Keys == c.rank.Keys == c.readyAt.Keys
  }

  predicate Is(tasks: map<Id, TaskState>, t: Id, state: TaskState) {
    t in tasks && tasks[t] == state
  }

  ghost function Incomplete(g: Graph, tasks: map<Id, TaskState>): set<Id> {
    set t | t in g && !Is(tasks, t, Completed)
  }

  /** Each counter is the number of incoming edges whose source has not completed, plus decrements still owed. */
  ghost predicate Counted(g: Graph, rem: map<Id, int>, live: set<Id>, owed: multiset<Id>)
    requires live <= g.Keys
  {
    forall t :: t in rem ==> rem[t] == InEdges(g, live)[t] + owed[t]
  }

  /** A task waits exactly while its counter is positive. */
  ghost predicate Staged(tasks: map<Id, TaskState>, rem: map<Id, int>) {
    forall t :: t in tasks && t in rem ==> tasks[t] != Failed && rem[t] >= 0 && (tasks[t] == Waiting <==> rem[t] > 0)
  }

  /** How often a task in each state has been pushed, is queued, has been dispatched and has been completed. */
  ghost predicate LedgerOf(tasks: map<Id, TaskState>, l: Log, t: Id) {
    && l.queue[t] == (if Is(tasks, t, Ready) then 1 else 0)
    && l.completed[t] == (if Is(tasks, t, Completed) then 1 else 0)
    && l.dispatched[t] == (if Is(tasks, t, Running) || Is(tasks, t, Completed) then 1 else 0)
    && l.pushed[t] == l.queue[t] + l.dispatched[t]
  }

  ghost predicate Ledger(tasks: map<Id, TaskState>, l: Log) {
    forall t :: LedgerOf(tasks, l, t)
  }

  ghost predicate Registered(workers: map<Id, WorkerState>, ws: seq<Id>) {
    forall w :: w in ws ==> w in workers && !workers[w].Other?
  }

  /** A job in progress: its task is running and its worker busy. */
  ghost predicate JobOf(tasks: map<Id, TaskState>, workers: map<Id, WorkerState>, ws: seq<Id>, j: Job) {
    Is(tasks, j.task, Running) && j.worker in ws && j.worker in workers && workers[j.worker] == Busy
  }

  ghost predicate JobsSound(tasks: map<Id, TaskState>, workers: map<Id, WorkerState>, ws: seq<Id>,
                            jobs: multiset<Job>) {
    forall j :: j in jobs ==> jobs[j] == 1 && JobOf(tasks, workers, ws, j)
  }

  ghost predicate OneToOne(jobs: multiset<Job>) {
    forall j, k :: j in jobs && k in jobs && (j.task == k.task || j.worker == k.worker) ==> j == k
  }

  ghost predicate HasJob(jobs: multiset<Job>, t: Id) {
    exists w :: Job(t, w) in jobs
  }

  ghost predicate RunningWorked(tasks: map<Id, TaskState>, jobs: multiset<Job>) {
    forall t :: Is(tasks, t, Running) ==> HasJob(jobs, t)
  }

  ghost predicate Works(jobs: multiset<Job>, w: Id) {
    exists t :: Job(t, w) in jobs
  }

  ghost predicate BusyWorking(workers: map<Id, WorkerState>, ws: seq<Id>, jobs: multiset<Job>) {
    forall w :: w in ws && w in workers && workers[w] == Busy ==> Works(jobs, w)
  }

  /** Jobs pair running tasks with busy workers, one to one. */
  ghost predicate Assigned(tasks: map<Id, TaskState>, workers: map<Id, WorkerState>, ws: seq<Id>, jobs: multiset<Job>) {
    && Registered(workers, ws) && JobsSound(tasks, workers, ws, jobs) && OneToOne(jobs)
    && RunningWorked(tasks, jobs) && BusyWorking(workers, ws, jobs)
  }

  ghost predicate CompletedExit(g: Graph, tasks: map<Id, TaskState>, d: Id, t: Id) {
    t in g && g[t] == [] && ExtractDAGID(t) == d && Is(tasks, t, Completed)
  }

  /** A DAG marked COMPLETED has a completed exit task. */
  ghost predicate ExitMarked(g: Graph, tasks: map<Id, TaskState>, dagStates: map<Id, DagState>) {
    forall d :: d in dagStates && dagStates[d] == DagCompleted ==> exists t :: CompletedExit(g, tasks, d, t)
  }

  ghost predicate Inv(c: Core, ws: seq<Id>, jobs: multiset<Job>, owed: multiset<Id>) {
    && Registry(c.dags, c.g) && Domains(c)
    && Counted(c.g, c.rem, Incomplete(c.g, c.tasks), owed) && Staged(c.tasks, c.rem) && Ledger(c.tasks, c.log)
    && Assigned(c.tasks, c.workers, ws, jobs) && ExitMarked(c.g, c.tasks, c.dagStates)
  }
}
