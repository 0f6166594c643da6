/** The reactor on its own data structures is a step of the transition system (internal/scheduler/core.go:116-129). */
module ReactorLoop {
  import opened AlgorithmOne
  import opened Api
  import opened Graphs
  import opened QueueBags
  import opened RuleTable
  import opened Scheduling
  import LongestPaths
  import Reactor
  import ReactorInvariant
  import Runs
  import Termination
  import PriorityQueues
  import GraphEngine
  import StateManager

  /** No task is queued twice, so every queued node knows its position in the heap. */
  lemma QueuedOnce(sch: Scheduler, jobs: multiset<Reactor.Job>)
    requires Reactor.Inv(sch.View(), sch.WorkerIDs(), jobs, multiset{}) && sch.Tidy()
    ensures sch.pq.Indexed()
  {
    forall t ensures BagOf(sch.pq.items)[t] <= 1 {
      assert Reactor.LedgerOf(sch.View().tasks, sch.View().log, t);
    }
  }

  /** An arriving DAG whose ID is new brings only new tasks. */
  lemma ArrivesFresh(sch: Scheduler, dag: DAG, jobs: multiset<Reactor.Job>)
    requires Reactor.Inv(sch.View(), sch.WorkerIDs(), jobs, multiset{}) && dag.id !in sch.graphEng.dags
    requires Reactor.ValidDag(dag.id, GraphOf(dag.tasks)) && Fresh(dag.tasks)
    ensures sch.Arrivable(dag)
  {
    ReactorInvariant.ArrivalDisjoint(sch.View(), dag.id, GraphOf(dag.tasks));
  }

  /** The transition system's parameters for a scheduler. */
  ghost function ConfigOf(sch: Scheduler): Runs.Config {
    Runs.Config(sch.WorkerIDs(), sch.agingFactor, MinMultiplier(sch.workers), MinBandwidth(sch.workers))
  }

  ghost function NewIDs(e: SchedulerEvent): set<Id> {
    if e.DagArrived? then {e.dag.id} else {}
  }

  /** The DAGs known after an event: an arrival's ID is always known. */
  lemma DagsHandled(c: Reactor.Core, e: SchedulerEvent, a: Reactor.Arrival, at: real)
    ensures Reactor.Handle(c, EventView(e), a, at).dags == c.dags + NewIDs(e)
  {
    hide Reactor.Release, Termination.SameCompleted;
    match e
    case DagArrived(dag) =>
    case TaskCompleted(t, w) =>
      var c1 := Reactor.MarkCompleted(c, t, w);
      if t in c1.g { Termination.ReleaseCompletesNothing(c1, c1.g[t], at); }
    case WorkerIdle(_) =>
  }

  lemma DagsDispatched(c: Reactor.Core, trace: seq<Reactor.Job>)
    ensures Reactor.DispatchAll(c, trace).dags == c.dags
  {
    Termination.DispatchCompletesNothing(c, trace);
  }

  /** Run's loop body: one event is handled, then ready tasks are dispatched. */
  method React(sch: Scheduler, e: SchedulerEvent, at: real, clock: map<Id, real>, later: real, ghost cfg: Runs.Config,
               ghost s: Runs.Sys)
    returns (trace: seq<Reactor.Job>, ghost l: Runs.Label, ghost s': Runs.Sys)
    requires sch.Valid() && sch.Tidy()
    requires e.DagArrived? && e.dag.id !in sch.graphEng.dags ==> Fresh(e.dag.tasks)
    requires forall w :: w in sch.workers ==> w.computeMultiplier > 0.0
    requires e.DagArrived? ==> clock.Keys == e.dag.tasks.Keys && forall t :: t in clock ==> at <= clock[t] <= later
    requires cfg == ConfigOf(sch)
    requires Runs.SysInv(cfg, s) && s.core == sch.View() && s.clock <= at <= later
    requires s.events != [] && s.events[0] == EventView(e)
    modifies sch, sch.graphEng, sch.stateMgr, sch.pq, sch.graphEng.nodes.Values, Involved(e)
    ensures Runs.Step(cfg, s, l, s') && s'.clock == later
    ensures l.React? && l.handledAt == at && l.scheduledAt == later && l.trace == trace
    ensures e.DagArrived? ==> l.arrival.clock == clock
    ensures s'.core == sch.View() && s'.events == s.events[1..] && s'.running == s.running + multiset(trace)
    ensures Runs.SysInv(cfg, s') && sch.Valid() && sch.Tidy() && sch.pq.Indexed()
    ensures sch.refCounts == Written(old(sch.refCounts), Reactor.TasksOf(trace), s'.core.g)
    ensures sch.graphEng.dags.Keys == old(sch.graphEng.dags.Keys) + NewIDs(e)
    ensures sch.graphEng.nodes.Values <= old(sch.graphEng.nodes.Values) + Involved(e)
  {
    hide Runs.SysInv, Scheduler.Valid, Scheduler.Tidy, Scheduler.View, Scheduler.WorkerIDs, Fresh, Scheduler.Arrivable;
    hide Reactor.Handle, Reactor.CanDispatchAll, Reactor.DispatchAll, Reactor.Quiet, Written, Scheduler.Brought;
    hide PriorityQueues.PriorityQueue.Indexed, Runs.ByAlgorithmOne, EventView, GraphOf, MinMultiplier, MinBandwidth;
    MayHandle(sch, e, cfg, s);
    sch.ViewDags();
    var a := sch.HandleEvent(e, at, clock);
    ArrivalIsKnown(sch, s.core, e, a);
    DagsHandled(s.core, e, a, at);
    StillQueuedOnce(sch, cfg, s, a, at);
    sch.QueueWithinTasks();
    trace := sch.ScheduleReadyTasks(later);
    DagsDispatched(Runs.Handled(s, a, at), trace);
    sch.ViewDags();
    l := Runs.React(a, at, later, trace);
    s' := Runs.Sys(sch.View(), s.events[1..], s.running + multiset(trace), later);
    Runs.StepKeeps(cfg, s, l, s');
    IndexedIsTidy(sch);
  }

  /** What Algorithm 1 stored is what the transition system expects of an arrival. */
  lemma ArrivalIsKnown(sch: Scheduler, c: Reactor.Core, e: SchedulerEvent, a: Reactor.Arrival)
    requires e.DagArrived? ==> a.rank.Keys == a.stale.Keys == a.clock.Keys == GraphOf(e.dag.tasks).Keys
    requires e.DagArrived? && e.dag.id !in c.dags ==> sch.Brought(e.dag, a)
    ensures Runs.ArrivalKnown(ConfigOf(sch), c, EventView(e), a)
  {
    hide LongestPaths.Good, AlgorithmOne.RankedBySearch, AlgorithmOne.Volume, GraphOf, WorkOf, Scheduler.WorkerIDs;
  }

  lemma IndexedIsTidy(sch: Scheduler)
    requires sch.pq.Indexed()
    ensures sch.Tidy()
  {
  }

  /** The invariant meets what HandleEvent asks of an arriving DAG. */
  lemma MayHandle(sch: Scheduler, e: SchedulerEvent, cfg: Runs.Config, s: Runs.Sys)
    requires Runs.SysInv(cfg, s) && s.core == sch.View() && cfg.ws == sch.WorkerIDs()
    requires s.events != [] && s.events[0] == EventView(e)
    requires e.DagArrived? && e.dag.id !in sch.graphEng.dags ==> Fresh(e.dag.tasks)
    ensures e.DagArrived? && e.dag.id !in sch.graphEng.dags ==> sch.Arrivable(e.dag)
  {
    hide Reactor.Inv, Reactor.Quiet, Scheduler.View, Fresh, Scheduler.Arrivable, Reactor.ValidDag;
    assert Runs.EventFits(cfg, s.events[0]);
    if e.DagArrived? && e.dag.id !in sch.graphEng.dags { ArrivesFresh(sch, e.dag, Runs.Jobs(s)); }
  }

  lemma StillQueuedOnce(sch: Scheduler, cfg: Runs.Config, s: Runs.Sys, a: Reactor.Arrival, at: real)
    requires Runs.SysInv(cfg, s) && s.events != [] && Runs.ArrivalKnown(cfg, s.core, s.events[0], a)
    requires sch.View() == Runs.Handled(s, a, at) && cfg.ws == sch.WorkerIDs() && sch.Tidy()
    ensures sch.pq.Indexed()
  {
    hide Runs.SysInv, Scheduler.View, Scheduler.Tidy, Reactor.Inv, Runs.ArrivalKnown, Reactor.Handle;
    hide PriorityQueues.PriorityQueue.Indexed;
    Runs.HandleKeeps(cfg, s, a, at);
    QueuedOnce(sch, s.running + Runs.Pending(s.events[1..]));
  }

  ghost function IdleWorkers(ids: seq<Id>): map<Id, WorkerState> {
    map w | w in ids :: Idle
  }

  /** main's setup: every worker is registered as IDLE before the loop starts. */
  method Start(workers: seq<Worker>, agingFactor: real) returns (sch: Scheduler)
    ensures fresh(sch) && fresh(sch.graphEng) && fresh(sch.stateMgr) && fresh(sch.pq)
    ensures sch.graphEng.dags == map[] && sch.graphEng.nodes == map[]
    ensures sch.workers == workers && sch.agingFactor == agingFactor
    ensures sch.Valid() && sch.Tidy() && sch.pq.Indexed()
    ensures sch.View() == Runs.Init(ConfigOf(sch)).core && sch.refCounts == map[]
  {
    var graphEng := new GraphEngine.Engine();
    var stateMgr := new StateManager.Manager();
    ghost var ids: seq<Id> := seq(|workers|, i requires 0 <= i < |workers| => workers[i].id);
    for i := 0 to |workers|
      invariant stateMgr.workerStates == IdleWorkers(ids[..i])
      invariant stateMgr.taskStates == map[] && stateMgr.dagStates == map[]
      invariant graphEng.Valid() && graphEng.dags == map[] && graphEng.nodes == map[]
    {
      var accepted := stateMgr.UpdateWorkerState(workers[i].id, Idle);
      assert accepted;
      assert ids[..i + 1] == ids[..i] + [workers[i].id];
    }
    assert ids[..|workers|] == ids;
    sch := new Scheduler(graphEng, stateMgr, workers, agingFactor);
  }
}
