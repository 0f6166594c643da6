/** The IDs of queued nodes, without their order. */
module QueueBags {
  import opened Api

  ghost function BagOf(items: seq<TaskNode>): multiset<Id> {
    if items == [] then multiset{} else multiset{items[0].id} + BagOf(items[1..])
  }

  lemma {:induction false} BagExtract(items: seq<TaskNode>, k: nat)
    requires k < |items|
    ensures BagOf(items) == multiset{items[k].id} + BagOf(items[..k] + items[k + 1..])
  {
    if k > 0 {
      BagExtract(items[1..], k - 1);
      assert (items[..k] + items[k + 1..])[1..] == items[1..][..k - 1] + items[1..][k..];
    } else {
      assert items[..0] + items[1..] == items[1..];
    }
  }

  /** Rearranging nodes does not change the bag. */
  lemma {:induction false} BagRearranged(a: seq<TaskNode>, b: seq<TaskNode>)
    requires multiset(a) == multiset(b)
    ensures BagOf(a) == BagOf(b)
    decreases |a|
  {
    if a == [] {
      assert |multiset(b)| == |b|;
    } else {
      var k := Removed(a, b);
      var rest := b[..k] + b[k + 1..];
      BagRearranged(a[1..], rest);
      BagExtract(b, k);
    }
  }

  lemma WithoutOne(b: seq<TaskNode>, k: nat)
    requires k < |b|
    ensures multiset(b[..k] + b[k + 1..]) == multiset(b) - multiset{b[k]}
  {
    assert b == b[..k] + [b[k]] + b[k + 1..];
  }

  lemma Removed(a: seq<TaskNode>, b: seq<TaskNode>) returns (k: nat)
    requires multiset(a) == multiset(b) && a != []
    ensures k < |b| && b[k] == a[0] && multiset(b[..k] + b[k + 1..]) == multiset(a[1..])
  {
    assert a[0] in multiset(b);
    k :| 0 <= k < |b| && b[k] == a[0];
    WithoutOne(b, k);
    WithoutOne(a, 0);
    assert a[..0] + a[1..] == a[1..];
  }

  lemma BagPushed(a: seq<TaskNode>, b: seq<TaskNode>, x: TaskNode)
    requires multiset(b) == multiset(a) + multiset{x}
    ensures BagOf(b) == BagOf(a) + multiset{x.id}
  {
    assert multiset([x] + a) == multiset(b) && ([x] + a)[1..] == a;
    BagRearranged([x] + a, b);
  }

  lemma {:induction false} BagMember(items: seq<TaskNode>, t: Id)
    ensures t in BagOf(items) <==> exists n :: n in items && n.id == t
  {
    if items != [] {
      BagMember(items[1..], t);
      assert forall n :: n in items <==> n == items[0] || n in items[1..];
    }
  }
}

/** The reactor on its own data structures (internal/scheduler/core.go:130-304, 622-653). */
module Scheduling {
  import opened Api
  import opened Graphs
  import opened HeapOrder
  import opened QueueBags
  import opened RuleTable
  import AlgorithmOne
  import StateManager
  import GraphEngine
  import PriorityQueues
  import Ranks
  import Reactor
  import ReactorInvariant

  datatype SchedulerEvent =
    | DagArrived(dag: DAG)
    | TaskCompleted(taskID: Id, workerID: Id)
    | WorkerIdle(workerID: Id)

  /** An event as the reactor's specification sees it. */
  ghost function EventView(e: SchedulerEvent): Reactor.Event
  {
    match e
    case DagArrived(dag) => Reactor.DagArrived(dag.id, GraphOf(dag.tasks), AlgorithmOne.WorkOf(dag.tasks))
    case TaskCompleted(t, w) => Reactor.TaskCompleted(t, w)
    case WorkerIdle(w) => Reactor.WorkerIdle(w)
  }

  /** The nodes an event brings along. */
  ghost function Involved(e: SchedulerEvent): set<TaskNode> {
    if e.DagArrived? then e.dag.tasks.Values else {}
  }

  ghost predicate Known(items: multiset<TaskNode>, nodes: map<Id, TaskNode>) {
    forall n :: n in items ==> n.id in nodes && nodes[n.id] == n
  }

  /** Tasks as the parser leaves them: not ranked, linked backwards, counting their incoming edges. */
  ghost predicate Fresh(tasks: map<Id, TaskNode>)
    reads tasks.Values
  {
    && Ranks.Rankable(tasks)
    && forall t :: t in tasks ==>
         && tasks[t].remainingDependencies == InDegree(GraphOf(tasks), t)
         && (tasks[t].predecessors == [] <==> IsEntry(GraphOf(tasks), t))
  }

  lemma FewerNodes(a: seq<TaskNode>, b: seq<TaskNode>, x: TaskNode)
    requires multiset(a) + multiset{x} == multiset(b)
    ensures forall n :: n in a ==> n in b
  {
    assert forall n :: n in a ==> n in multiset(a) && n in multiset(b);
  }

  lemma KnownPushed(items: multiset<TaskNode>, nodes: map<Id, TaskNode>, n: TaskNode)
    requires Known(items, nodes) && n.id in nodes && nodes[n.id] == n
    ensures Known(items + multiset{n}, nodes)
  {
  }

  class Scheduler {
    const graphEng: GraphEngine.Engine
    const stateMgr: StateManager.Manager
    const workers: seq<Worker>
    const pq: PriorityQueues.PriorityQueue
    const agingFactor: real
    var dagMeta: map<Id, AlgorithmOne.TaskMeta>
    /** The reference counts in the kernel's rules, by numeric task ID. */
    var refCounts: Rules
    ghost var pushed: multiset<Id>
    ghost var dispatched: multiset<Id>
    ghost var completed: multiset<Id>

    constructor (graphEng: GraphEngine.Engine, stateMgr: StateManager.Manager, workers: seq<Worker>, agingFactor: real)
      ensures this.graphEng == graphEng && this.stateMgr == stateMgr && this.workers == workers
      ensures this.agingFactor == agingFactor && fresh(pq) && pq.items == [] && dagMeta == map[] && refCounts == map[]
      ensures pushed == dispatched == completed == multiset{}
    {
      this.graphEng, this.stateMgr, this.workers, this.agingFactor := graphEng, stateMgr, workers, agingFactor;
      pq := new PriorityQueues.PriorityQueue();
      dagMeta, refCounts := map[], map[];
      pushed, dispatched, completed := multiset{}, multiset{}, multiset{};
    }

    /** The engine is consistent, and everything queued is a registered task. */
    ghost predicate Valid()
      reads graphEng, pq
    {
      graphEng.Valid() && Known(multiset(pq.items), graphEng.nodes)
    }

    /** Unless some task is queued twice, every queued node knows its position. */
    ghost predicate Tidy()
      reads pq, pq.items`queueIndex
    {
      (forall t :: BagOf(pq.items)[t] <= 1) ==> pq.Indexed()
    }

    ghost function StaticRanks(): map<Id, real>
      reads graphEng, graphEng.nodes.Values`staticRankU, graphEng.nodes.Values`staticRankD
    {
      GraphEngine.RankSums(graphEng.nodes)
    }

    ghost function ReadyTimes(): map<Id, real>
      reads graphEng, graphEng.nodes.Values`readyAt
    {
      GraphEngine.Stamps(graphEng.nodes)
    }

    ghost function Volumes(): map<Id, real>
      reads `dagMeta
    {
      map d | d in dagMeta :: dagMeta[d].volPerSubtask
    }

    ghost function Log(): Reactor.Log
      reads `pushed, `dispatched, `completed, pq
    {
      Reactor.Log(BagOf(pq.items), pushed, dispatched, completed)
    }

    /** What the scheduler remembers, as a value. */
    ghost function View(): Reactor.Core
      reads this, graphEng, stateMgr, pq
      reads graphEng.nodes.Values`remainingDependencies, graphEng.nodes.Values`readyAt
      reads graphEng.nodes.Values`staticRankU, graphEng.nodes.Values`staticRankD
    {
      Reactor.Core(graphEng.dags.Keys, GraphOf(graphEng.nodes), graphEng.Remaining(), stateMgr.taskStates,
                   stateMgr.dagStates, stateMgr.workerStates, Log(), StaticRanks(), Volumes(), ReadyTimes())
    }

    ghost function WorkerIDs(): seq<Id> {
      seq(|workers|, i requires 0 <= i < |workers| => workers[i].id)
    }

    // ---------- making a task ready ----------

    /** The time-independent part of a task's priority: Rank(v) + vol/|V|. */
    function BasePriority(node: TaskNode): real
      reads `dagMeta, node`staticRankU, node`staticRankD
    {
      var d := ExtractDAGID(node.id);
      node.staticRankU + node.staticRankD + if d in dagMeta then dagMeta[d].volPerSubtask else 0.0
    }

    /** Eq. 19: rank, aged waiting time in milliseconds, volume term. */
    function NodePriority(node: TaskNode, now: real): real
      reads `dagMeta, node`staticRankU, node`staticRankD, node`readyAt
    {
      var d := ExtractDAGID(node.id);
      node.staticRankU + node.staticRankD + (now - node.readyAt) * agingFactor
      + if d in dagMeta then dagMeta[d].volPerSubtask else 0.0
    }

    /** A task that just became ready has waited for no time. */
    lemma NoWaitYet(node: TaskNode)
      ensures BasePriority(node) == NodePriority(node, node.readyAt)
    {
      hide ExtractDAGID;
    }

    method StampReady(node: TaskNode, now: real)
      requires Valid() && node.id in graphEng.nodes && graphEng.nodes[node.id] == node
      modifies node`readyAt
      ensures ReadyTimes() == old(ReadyTimes())[node.id := now] && node.readyAt == now
    {
      node.readyAt := now;
      assert forall t :: t in graphEng.nodes && t != node.id ==> graphEng.nodes[t] != node;
    }

    /** heap.Push, with the history that goes with it. */
    method PushReady(node: TaskNode)
      requires Valid() && node.id in graphEng.nodes && graphEng.nodes[node.id] == node
      modifies this`pushed, pq, pq.Nodes()`queueIndex, node`queueIndex
      ensures Valid() && Log() == Reactor.Pushed(old(Log()), multiset{node.id})
      ensures old(Tidy()) ==> Tidy()
    {
      hide Known, BagOf, IsHeap, GraphEngine.Engine.Valid;
      pq.Push(node);
      BagPushed(old(pq.items), pq.items, node);
      KnownPushed(multiset(old(pq.items)), graphEng.nodes, node);
      pushed := pushed + multiset{node.id};
      if node in old(pq.items) {
        BagMember(old(pq.items), node.id);
        assert BagOf(pq.items)[node.id] > 1;
      }
      assert forall t :: old(BagOf(pq.items))[t] <= BagOf(pq.items)[t];
    }

    /** READY, time stamp, initial priority, heap.Push. */
    method MakeReadyParts(node: TaskNode, now: real)
      requires Valid() && node.id in graphEng.nodes && graphEng.nodes[node.id] == node
      modifies this`pushed, stateMgr`taskStates, pq, pq.Nodes()`queueIndex
      modifies node`readyAt, node`dynamicPriority, node`queueIndex
      ensures Valid() && (old(Tidy()) ==> Tidy())
      ensures stateMgr.taskStates == StateManager.Moved(old(stateMgr.taskStates), node.id, Ready)
      ensures ReadyTimes() == old(ReadyTimes())[node.id := now]
      ensures Log() == Reactor.Pushed(old(Log()), multiset{node.id})
      ensures node.dynamicPriority == NodePriority(node, now)
    {
      hide Valid, ExtractDAGID, StateManager.Moved, ReadyTimes, Log, Reactor.Pushed, BasePriority, NodePriority, Tidy;
      var _ := stateMgr.UpdateTaskState(node.id, Ready);
      StampReady(node, now);
      node.dynamicPriority := BasePriority(node);
      NoWaitYet(node);
      PushReady(node);
    }

    /** Its effect on the whole state. */
    method MakeReady(node: TaskNode, now: real)
      requires Valid() && node.id in graphEng.nodes && graphEng.nodes[node.id] == node
      modifies this`pushed, stateMgr`taskStates, pq, pq.Nodes()`queueIndex
      modifies node`readyAt, node`dynamicPriority, node`queueIndex
      ensures Valid() && View() == Reactor.Enqueue(old(View()), node.id, now) && (old(Tidy()) ==> Tidy())
      ensures node.dynamicPriority == NodePriority(node, now)
    {
      hide Valid, StateManager.Moved, ReadyTimes, StaticRanks, Volumes, Tidy, NodePriority;
      hide Log, GraphEngine.Engine.Remaining, Reactor.Pushed;
      MakeReadyParts(node, now);
    }

    // ---------- completions ----------

    lemma QueueWithinTasks()
      requires Valid()
      ensures pq.Nodes() <= graphEng.nodes.Values
    {
      forall n | n in pq.Nodes() ensures n in graphEng.nodes.Values {
        assert n in multiset(pq.items) && graphEng.nodes[n.id] == n;
      }
    }

    lemma NodeNamed(t: Id)
      requires Valid() && t in graphEng.nodes
      ensures graphEng.nodes[t].id == t
    {
    }

    lemma EngineValid()
      requires Valid()
      ensures graphEng.Valid()
    {
    }

    /** The decrement, as part of the whole state. */
    method CountDown(target: Id) returns (rem: Option<int>)
      requires Valid()
      modifies graphEng.nodes.Values`remainingDependencies
      ensures Valid() && (rem.Some? <==> target in old(View()).rem)
      ensures rem.Some? ==> rem.value == if old(View()).rem[target] > 0 then old(View()).rem[target] - 1
                                         else old(View()).rem[target]
      ensures View() == if rem.Some? then old(View()).(rem := old(View()).rem[target := rem.value]) else old(View())
      ensures Tidy() == old(Tidy()) && (rem.Some? <==> target in graphEng.nodes)
    {
      hide Tidy, Valid, ReadyTimes, StaticRanks, Volumes, Log, GraphOf;
      hide GraphEngine.Engine.Remaining, GraphEngine.Engine.Valid;
      EngineValid();
      rem := graphEng.DecrementIndegree(target);
    }

    method Lookup(target: Id) returns (node: Option<TaskNode>)
      requires Valid() && target in graphEng.nodes
      ensures node == Some(graphEng.nodes[target]) && node.value.id == target
      ensures Valid() && View() == old(View()) && Tidy() == old(Tidy())
    {
      hide View, Tidy, Valid, GraphEngine.Engine.Valid;
      EngineValid();
      NodeNamed(target);
      node := graphEng.GetTask(target);
    }

    /** A successor whose counter has reached zero becomes ready. */
    method ReadyIfFree(target: Id, left: int, now: real)
      requires Valid() && target in graphEng.nodes
      modifies this`pushed, stateMgr`taskStates, pq, graphEng.nodes.Values`queueIndex
      modifies graphEng.nodes.Values`readyAt, graphEng.nodes.Values`dynamicPriority
      ensures Valid() && (old(Tidy()) ==> Tidy())
      ensures View() == if left == 0 then Reactor.Enqueue(old(View()), target, now) else old(View())
    {
      hide Valid, View, Tidy, Reactor.Enqueue, NodePriority, GraphEngine.Engine.Valid;
      if left == 0 {
        var node := Lookup(target);
        QueueWithinTasks();
        if node.Some? { MakeReady(node.value, now); }
      }
    }

    /** One turn of the loop that releases the successors of a completed task. */
    method ReleaseSuccessor(target: Id, now: real)
      requires Valid()
      modifies this`pushed, stateMgr`taskStates, pq, graphEng.nodes.Values`queueIndex
      modifies graphEng.nodes.Values`remainingDependencies, graphEng.nodes.Values`readyAt
      modifies graphEng.nodes.Values`dynamicPriority
      ensures Valid() && View() == Reactor.ReleaseOne(old(View()), target, now) && (old(Tidy()) ==> Tidy())
    {
      hide Valid, View, Tidy, Reactor.Enqueue, Reactor.ReleaseOne;
      ghost var c := View();
      var rem := CountDown(target);
      ReactorInvariant.ReleasedOnce(c, target, now, if rem.Some? then rem.value else 0);
      if rem.Some? { ReadyIfFree(target, rem.value, now); }
    }

    /** The loop over the successors of a completed task. */
    method ReleaseAll(succs: seq<Dependency>, now: real)
      requires Valid()
      modifies this`pushed, stateMgr`taskStates, pq, graphEng.nodes.Values`queueIndex
      modifies graphEng.nodes.Values`remainingDependencies, graphEng.nodes.Values`readyAt
      modifies graphEng.nodes.Values`dynamicPriority
      ensures Valid() && View() == Reactor.Release(old(View()), succs, now) && (old(Tidy()) ==> Tidy())
    {
      hide Known, GraphEngine.Engine.Valid, Reactor.ReleaseOne, Tidy, View;
      for i := 0 to |succs|
        invariant Valid() && Reactor.Release(View(), succs[i..], now) == Reactor.Release(old(View()), succs, now)
        invariant old(Tidy()) ==> Tidy()
      {
        assert succs[i..][0] == succs[i] && succs[i..][1..] == succs[i + 1..];
        ReleaseSuccessor(succs[i].targetTaskID, now);
      }
    }

    /** States and history on a completion, before any successor is released. */
    method MarkStates(taskID: Id, workerID: Id) returns (succs: Option<seq<Dependency>>)
      requires Valid()
      modifies this`completed, stateMgr
      ensures stateMgr.taskStates == StateManager.Moved(old(stateMgr.taskStates), taskID, Completed)
      ensures stateMgr.workerStates == old(stateMgr.workerStates)[workerID := Idle]
      ensures stateMgr.dagStates ==
              if succs == Some([]) then old(stateMgr.dagStates)[ExtractDAGID(taskID) := DagCompleted]
              else old(stateMgr.dagStates)
      ensures Log() == old(Log()).(completed := old(Log()).completed + multiset{taskID})
      ensures succs == if taskID in graphEng.nodes then Some(GraphOf(graphEng.nodes)[taskID]) else None
    {
      hide Known, GraphEngine.Engine.Valid, StateManager.Moved, ExtractDAGID, BagOf;
      var _ := stateMgr.UpdateTaskState(taskID, Completed);
      var accepted := stateMgr.UpdateWorkerState(workerID, Idle);
      assert accepted;
      completed := completed + multiset{taskID};
      succs := graphEng.GetSuccessors(taskID);
      if succs.Some? && |succs.value| == 0 { stateMgr.UpdateDAGState(ExtractDAGID(taskID), DagCompleted); }
    }

    /** Their effect on the whole state. */
    method MarkDone(taskID: Id, workerID: Id) returns (succs: Option<seq<Dependency>>)
      requires Valid()
      modifies this`completed, stateMgr
      ensures Valid() && View() == Reactor.MarkCompleted(old(View()), taskID, workerID)
      ensures succs == if taskID in View().g then Some(View().g[taskID]) else None
    {
      hide Valid, ReadyTimes, StaticRanks, Volumes, Log;
      hide GraphEngine.Engine.Remaining, StateManager.Moved, ExtractDAGID;
      succs := MarkStates(taskID, workerID);
    }

    /** A task has completed on a worker. */
    method HandleCompletion(taskID: Id, workerID: Id, now: real)
      requires Valid()
      modifies this`pushed, this`completed, stateMgr, pq, graphEng.nodes.Values`queueIndex
      modifies graphEng.nodes.Values`remainingDependencies, graphEng.nodes.Values`readyAt
      modifies graphEng.nodes.Values`dynamicPriority
      ensures Valid() && View() == Reactor.AfterCompletion(old(View()), taskID, workerID, now)
      ensures old(Tidy()) ==> Tidy()
    {
      hide Known, GraphEngine.Engine.Valid, Reactor.Release, Tidy, View;
      var succs := MarkDone(taskID, workerID);
      if succs.Some? { ReleaseAll(succs.value, now); }
    }

    // ---------- arrivals ----------

    /** A DAG as the parser leaves it, whose tasks are new to the engine. */
    ghost predicate Arrivable(dag: DAG)
      reads graphEng, dag.tasks.Values
    {
      dag.tasks.Keys !! graphEng.nodes.Keys && Fresh(dag.tasks)
    }

    /** The ranks, time stamps and volume a DAG brings along. */
    ghost function ArrivalOf(dag: DAG, clock: map<Id, real>): Reactor.Arrival
      reads `dagMeta, dag.tasks.Values`staticRankU, dag.tasks.Values`staticRankD, dag.tasks.Values`readyAt
    {
      Reactor.Arrival(GraphEngine.RankSums(dag.tasks), GraphEngine.Stamps(dag.tasks),
                      if dag.id in dagMeta then dagMeta[dag.id].volPerSubtask else 0.0, clock)
    }

    /** The DAG's ranks, volume and critical set are those of Algorithm 1 under the slowest worker and link. */
    ghost predicate Analysed(dag: DAG)
      reads `dagMeta, dag.tasks.Values`staticRankU, dag.tasks.Values`staticRankD
    {
      && dag.id in dagMeta
      && AlgorithmOne.Analysed(AlgorithmOne.DagCosts(dag.tasks, workers), GraphEngine.RankSums(dag.tasks),
                               dagMeta[dag.id])
    }

    /** A new DAG is ranked, and a carries its ranks and volume. */
    ghost predicate Brought(dag: DAG, a: Reactor.Arrival)
      reads `dagMeta, dag.tasks.Values`staticRankU, dag.tasks.Values`staticRankD
    {
      Analysed(dag) && a.rank == GraphEngine.RankSums(dag.tasks) && a.vol == dagMeta[dag.id].volPerSubtask
    }

    lemma DisjointNodes(dag: DAG)
      requires Valid() && Arrivable(dag)
      ensures dag.tasks.Values !! graphEng.nodes.Values && Ranks.Rankable(dag.tasks)
    {
      assert forall n :: n in graphEng.nodes.Values ==> n.id in graphEng.nodes;
      assert forall n :: n in dag.tasks.Values ==> n.id in dag.tasks;
    }

    lemma CountersFit(dag: DAG)
      requires Arrivable(dag)
      ensures GraphEngine.Counters(dag.tasks) == Reactor.InDegrees(GraphOf(dag.tasks))
      ensures dag.tasks.Keys !! graphEng.nodes.Keys && forall t :: t in dag.tasks ==> dag.tasks[t].id == t
    {
    }

    /** RegisterDAG and the ACTIVE mark; a DAG whose ID is taken is marked FAILED. */
    method RegisterNodes(dag: DAG) returns (ok: bool)
      requires Valid() && (dag.id !in graphEng.dags ==> Arrivable(dag))
      modifies graphEng, stateMgr`dagStates
      ensures Valid() && ok == (dag.id !in old(graphEng.dags))
      ensures graphEng.nodes == if ok then old(graphEng.nodes) + dag.tasks else old(graphEng.nodes)
      ensures graphEng.dags.Keys == if ok then old(graphEng.dags.Keys) + {dag.id} else old(graphEng.dags.Keys)
      ensures stateMgr.dagStates == old(stateMgr.dagStates)[dag.id := if ok then DagActive else DagFailed]
      ensures ok ==> old(graphEng.nodes).Values !! dag.tasks.Values && Ranks.Rankable(dag.tasks)
    {
      hide Ranks.Rankable, GraphEngine.Engine.Valid, Known, Arrivable;
      if dag.id !in graphEng.dags {
        CountersFit(dag);
        DisjointNodes(dag);
        KnownMore(multiset(pq.items), graphEng.nodes, dag.tasks);
      }
      ok := graphEng.RegisterDAG(dag);
      if !ok {
        stateMgr.UpdateDAGState(dag.id, DagFailed);
        return;
      }
      stateMgr.UpdateDAGState(dag.id, DagActive);
    }

    /** Its effect on what the engine knows of its tasks. */
    method RegisterParts(dag: DAG) returns (ok: bool)
      requires Valid() && (dag.id !in graphEng.dags ==> Arrivable(dag))
      modifies graphEng, stateMgr`dagStates
      ensures Valid() && ok == (dag.id !in old(graphEng.dags))
      ensures graphEng.nodes == if ok then old(graphEng.nodes) + dag.tasks else old(graphEng.nodes)
      ensures graphEng.dags.Keys == if ok then old(graphEng.dags.Keys) + {dag.id} else old(graphEng.dags.Keys)
      ensures stateMgr.dagStates == old(stateMgr.dagStates)[dag.id := if ok then DagActive else DagFailed]
      ensures ok ==> old(graphEng.nodes).Values !! dag.tasks.Values && Ranks.Rankable(dag.tasks)
      ensures !ok ==> graphEng.Remaining() == old(graphEng.Remaining())
      ensures ok ==> GraphOf(graphEng.nodes) == old(GraphOf(graphEng.nodes)) + GraphOf(dag.tasks)
      ensures ok ==> graphEng.Remaining() == old(graphEng.Remaining()) + Reactor.InDegrees(GraphOf(dag.tasks))
      ensures ok ==> StaticRanks() == old(StaticRanks()) + GraphEngine.RankSums(dag.tasks)
      ensures ok ==> ReadyTimes() == old(ReadyTimes()) + GraphEngine.Stamps(dag.tasks)
    {
      hide Ranks.Rankable, GraphEngine.Counters, GraphEngine.RankSums, GraphEngine.Stamps, GraphOf;
      hide GraphEngine.Engine.Valid, Known, Arrivable, Reactor.InDegrees, Valid;
      if dag.id !in graphEng.dags {
        CountersFit(dag);
        GraphEngine.GraphUnion(graphEng.nodes, dag.tasks);
        GraphEngine.CountersUnion(graphEng.nodes, dag.tasks);
        GraphEngine.StampsUnion(graphEng.nodes, dag.tasks);
        GraphEngine.RankSumsUnion(graphEng.nodes, dag.tasks);
      }
      ok := RegisterNodes(dag);
    }

    /** Its effect on the whole state. */
    method Register(dag: DAG) returns (ok: bool)
      requires Valid() && (dag.id !in graphEng.dags ==> Arrivable(dag))
      modifies graphEng, stateMgr`dagStates
      ensures Valid() && ok == (dag.id !in old(graphEng.dags))
      ensures graphEng.nodes == if ok then old(graphEng.nodes) + dag.tasks else old(graphEng.nodes)
      ensures ok ==> old(graphEng.nodes).Values !! dag.tasks.Values && Ranks.Rankable(dag.tasks)
      ensures ok ==> GraphEngine.RankSums(old(graphEng.nodes)) == old(View()).rank
      ensures !ok ==> View() == old(View()).(dagStates := old(View()).dagStates[dag.id := DagFailed])
      ensures ok ==> var c := old(View()); View() == c.(
                dags := c.dags + {dag.id}, g := c.g + GraphOf(dag.tasks),
                rem := c.rem + Reactor.InDegrees(GraphOf(dag.tasks)), dagStates := c.dagStates[dag.id := DagActive],
                rank := c.rank + GraphEngine.RankSums(dag.tasks), readyAt := c.readyAt + GraphEngine.Stamps(dag.tasks))
    {
      hide Ranks.Rankable, GraphEngine.RankSums, GraphEngine.Stamps, GraphOf, Log, Volumes;
      hide Arrivable, Reactor.InDegrees, Valid, GraphEngine.Engine.Remaining;
      ok := RegisterParts(dag);
    }

    /** Algorithm 1 on a DAG just registered next to the tasks `others`. */
    method RankNodes(dag: DAG, ghost others: map<Id, TaskNode>, ghost clock: map<Id, real>)
      requires Ranks.Rankable(dag.tasks) && forall w :: w in workers ==> w.computeMultiplier > 0.0
      requires graphEng.nodes == others + dag.tasks && others.Values !! dag.tasks.Values
      modifies this`dagMeta, dag.tasks.Values`staticRankU, dag.tasks.Values`staticRankD
      ensures StaticRanks() == old(GraphEngine.RankSums(others)) + ArrivalOf(dag, clock).rank
      ensures Volumes() == old(Volumes())[dag.id := ArrivalOf(dag, clock).vol] && Analysed(dag)
      ensures ReadyTimes() == old(ReadyTimes()) && graphEng.Remaining() == old(graphEng.Remaining())
    {
      hide GraphEngine.Stamps, GraphEngine.Counters;
      hide Ranks.Rankable, GraphEngine.RankSums, Ranks.UpwardDone, Ranks.Preds, GraphOf;
      hide AlgorithmOne.RanksOf, AlgorithmOne.Analysed, AlgorithmOne.DagCosts;
      var meta, es := Ranks.CalculateRanks(dag, workers);
      dagMeta := dagMeta[dag.id := meta];
      GraphEngine.RankSumsUnion(others, dag.tasks);
    }

    /** Its effect on the whole state. */
    method Rank(dag: DAG, ghost others: map<Id, TaskNode>, ghost clock: map<Id, real>)
      requires Ranks.Rankable(dag.tasks) && forall w :: w in workers ==> w.computeMultiplier > 0.0
      requires graphEng.nodes == others + dag.tasks && others.Values !! dag.tasks.Values
      modifies this`dagMeta, dag.tasks.Values`staticRankU, dag.tasks.Values`staticRankD
      ensures View() == old(View()).(rank := old(GraphEngine.RankSums(others)) + ArrivalOf(dag, clock).rank,
                                     vol := old(View()).vol[dag.id := ArrivalOf(dag, clock).vol])
      ensures Analysed(dag)
    {
      hide Analysed, Ranks.Rankable, GraphEngine.RankSums, GraphOf, GraphEngine.Stamps, Log, Volumes, StaticRanks;
      hide ArrivalOf;
      hide GraphEngine.Engine.Remaining, ReadyTimes;
      RankNodes(dag, others, clock);
    }

    method RegisterAndRank(dag: DAG, ghost clock: map<Id, real>) returns (ok: bool)
      requires Valid() && (dag.id !in graphEng.dags ==> Arrivable(dag))
      requires forall w :: w in workers ==> w.computeMultiplier > 0.0
      modifies graphEng, this`dagMeta, stateMgr`dagStates
      modifies dag.tasks.Values`staticRankU, dag.tasks.Values`staticRankD
      ensures Valid() && ok == (dag.id !in old(graphEng.dags))
      ensures graphEng.nodes == if ok then old(graphEng.nodes) + dag.tasks else old(graphEng.nodes)
      ensures !ok ==> View() == old(View()).(dagStates := old(View()).dagStates[dag.id := DagFailed])
      ensures ok ==> View() == Reactor.WithDag(old(View()), dag.id, GraphOf(dag.tasks), ArrivalOf(dag, clock))
      ensures ok ==> Analysed(dag)
    {
      hide Analysed, Ranks.Rankable, GraphEngine.RankSums, GraphEngine.Stamps, GraphOf, Reactor.InDegrees;
      hide Reactor.WithDag;
      hide Known, Arrivable, Valid, View;
      ghost var others, c := graphEng.nodes, View();
      ok := Register(dag);
      if !ok { return; }
      ghost var c1, r := View(), GraphEngine.RankSums(dag.tasks);
      Rank(dag, others, clock);
      ReactorInvariant.RegisteredThenRanked(c, dag.id, GraphOf(dag.tasks), ArrivalOf(dag, clock), r, c1, View());
    }

    /** Entry tasks, as the loop over an arriving DAG recognises them. */
    ghost predicate EntriesMarked(tasks: map<Id, TaskNode>, h: Graph)
      reads tasks.Values`predecessors
    {
      forall t :: t in tasks ==> (tasks[t].predecessors == [] <==> t in Reactor.Entries(h))
    }

    /** One turn of the loop over the tasks of an arriving DAG. */
    method AdmitTask(dag: DAG, t: Id, now: real)
      requires Valid() && t in dag.tasks && dag.tasks[t].id == t && EntriesMarked(dag.tasks, GraphOf(dag.tasks))
      requires t in graphEng.nodes && graphEng.nodes[t] == dag.tasks[t]
      modifies this`pushed, stateMgr`taskStates, pq, graphEng.nodes.Values`queueIndex
      modifies graphEng.nodes.Values`readyAt, graphEng.nodes.Values`dynamicPriority
      ensures Valid() && View() == Reactor.AdmitOne(old(View()), GraphOf(dag.tasks), t, now) && (old(Tidy()) ==> Tidy())
    {
      hide Reactor.Enqueue, Reactor.Entries, Tidy, StateManager.Moved, Log, Volumes, StaticRanks, ReadyTimes, GraphOf;
      hide GraphEngine.Engine.Remaining, GraphEngine.Engine.Valid, Known;
      QueueWithinTasks();
      var node := dag.tasks[t];
      if |node.predecessors| == 0 {
        MakeReady(node, now);
      } else {
        var _ := stateMgr.UpdateTaskState(t, Waiting);
      }
    }

    /** The loop over the tasks of an arriving DAG, in any order. */
    method AdmitAll(dag: DAG, clock: map<Id, real>)
      requires clock.Keys == dag.tasks.Keys
      requires Valid() && EntriesMarked(dag.tasks, GraphOf(dag.tasks))
      requires forall t :: t in dag.tasks ==>
                 dag.tasks[t].id == t && t in graphEng.nodes && graphEng.nodes[t] == dag.tasks[t]
      modifies this`pushed, stateMgr`taskStates, pq, graphEng.nodes.Values`queueIndex
      modifies graphEng.nodes.Values`readyAt, graphEng.nodes.Values`dynamicPriority
      ensures Valid() && (old(Tidy()) ==> Tidy())
      ensures View() == Reactor.AdmittedSoFar(old(View()), GraphOf(dag.tasks), dag.tasks.Keys, clock)
    {
      hide Tidy, Reactor.AdmitOne, Reactor.AdmittedSoFar, Valid, View, EntriesMarked;
      ghost var c: Reactor.Core, h: Graph := View(), GraphOf(dag.tasks);
      var todo := dag.tasks.Keys;
      assert dag.tasks.Keys - todo == {};
      ReactorInvariant.AdmitNone(c, h, clock);
      InReadyTimes(dag);
      while todo != {}
        invariant todo <= dag.tasks.Keys && Valid() && (old(Tidy()) ==> Tidy())
        invariant View() == Reactor.AdmittedSoFar(c, h, dag.tasks.Keys - todo, clock)
      {
        var t :| t in todo;
        ReactorInvariant.AdmitStep(c, h, dag.tasks.Keys - todo, t, clock);
        assert dag.tasks.Keys - todo + {t} == dag.tasks.Keys - (todo - {t});
        AdmitTask(dag, t, clock[t]);
        todo := todo - {t};
      }
      assert dag.tasks.Keys - todo == dag.tasks.Keys;
    }

    lemma InReadyTimes(dag: DAG)
      requires forall t :: t in dag.tasks ==> t in graphEng.nodes
      ensures forall t :: t in dag.tasks ==> t in View().readyAt
    {
    }

    /** Every task of the DAG is registered, and its entry tasks can be told apart. */
    ghost predicate Admissible(dag: DAG)
      reads graphEng, dag.tasks.Values`predecessors
    {
      && EntriesMarked(dag.tasks, GraphOf(dag.tasks))
      && forall t :: t in dag.tasks ==> dag.tasks[t].id == t && t in graphEng.nodes && graphEng.nodes[t] == dag.tasks[t]
    }

    /** The first half of an arrival. */
    method Enter(dag: DAG, ghost clock: map<Id, real>) returns (ok: bool)
      requires Valid() && (dag.id !in graphEng.dags ==> Arrivable(dag))
      requires forall w :: w in workers ==> w.computeMultiplier > 0.0
      modifies graphEng, this`dagMeta, stateMgr`dagStates
      modifies dag.tasks.Values`staticRankU, dag.tasks.Values`staticRankD
      ensures Valid() && ok == (dag.id !in old(View()).dags) && (ok ==> Admissible(dag))
      ensures ok == (dag.id !in old(graphEng.dags))
      ensures graphEng.nodes == if ok then old(graphEng.nodes) + dag.tasks else old(graphEng.nodes)
      ensures !ok ==> View() == old(View()).(dagStates := old(View()).dagStates[dag.id := DagFailed])
      ensures ok ==> View() == Reactor.WithDag(old(View()), dag.id, GraphOf(dag.tasks), ArrivalOf(dag, clock))
      ensures ok ==> Analysed(dag)
    {
      hide Analysed, Reactor.WithDag, Valid, View, Arrivable, EntriesMarked, ArrivalOf, GraphOf;
      ViewDags();
      if dag.id !in graphEng.dags { ShapeOf(dag); }
      ok := RegisterAndRank(dag, clock);
    }

    /** Handling a submitted DAG; the clock is read once for each task that is stamped. */
    method HandleArrival(dag: DAG, clock: map<Id, real>) returns (ghost a: Reactor.Arrival)
      requires Valid() && (dag.id !in graphEng.dags ==> Arrivable(dag)) && clock.Keys == dag.tasks.Keys
      requires forall w :: w in workers ==> w.computeMultiplier > 0.0
      modifies graphEng, this`dagMeta, this`pushed, stateMgr, pq
      modifies dag.tasks.Values`staticRankU, dag.tasks.Values`staticRankD
      modifies (graphEng.nodes.Values + dag.tasks.Values)`readyAt
      modifies (graphEng.nodes.Values + dag.tasks.Values)`dynamicPriority
      modifies (graphEng.nodes.Values + dag.tasks.Values)`queueIndex
      ensures Valid() && a.rank.Keys == a.stale.Keys == a.clock.Keys == GraphOf(dag.tasks).Keys && a.clock == clock
      ensures View() == Reactor.AfterArrival(old(View()), dag.id, GraphOf(dag.tasks), a)
      ensures old(Tidy()) ==> Tidy()
      ensures dag.id in old(graphEng.dags) ==> graphEng.nodes == old(graphEng.nodes)
      ensures dag.id !in old(graphEng.dags) ==> graphEng.nodes == old(graphEng.nodes) + dag.tasks && Brought(dag, a)
    {
      hide Tidy, Reactor.WithDag, Valid, View, Arrivable, Admissible, Reactor.AfterArrival, ArrivalOf, GraphOf;
      hide Analysed, Brought;
      ghost var c := View();
      var ok := Enter(dag, clock);
      if ok {
        ValuesOfUnion(old(graphEng.nodes), dag.tasks);
        a := AdmitRanked(dag, clock, c);
      } else {
        a := ArrivalOf(dag, clock);
        ArrivalKeys(dag, clock);
        ReactorInvariant.ArrivalRefused(c, dag.id, GraphOf(dag.tasks), a);
      }
    }

    /** The admission of a DAG already registered and ranked, as part of its arrival. */
    method AdmitRanked(dag: DAG, clock: map<Id, real>, ghost c: Reactor.Core) returns (ghost a: Reactor.Arrival)
      requires Valid() && Admissible(dag) && Analysed(dag) && dag.id !in c.dags && clock.Keys == dag.tasks.Keys
      requires View() == Reactor.WithDag(c, dag.id, GraphOf(dag.tasks), ArrivalOf(dag, clock))
      modifies this`pushed, stateMgr`taskStates, pq, graphEng.nodes.Values`queueIndex
      modifies graphEng.nodes.Values`readyAt, graphEng.nodes.Values`dynamicPriority
      ensures Valid() && (old(Tidy()) ==> Tidy()) && Brought(dag, a)
      ensures a.rank.Keys == a.stale.Keys == a.clock.Keys == GraphOf(dag.tasks).Keys && a.clock == clock
      ensures View() == Reactor.AfterArrival(c, dag.id, GraphOf(dag.tasks), a)
    {
      hide Tidy, Reactor.WithDag, Valid, View, Reactor.AdmittedSoFar, EntriesMarked, Reactor.AfterArrival, GraphOf;
      hide Analysed, Brought, ArrivalOf;
      a := ArrivalOf(dag, clock);
      ArrivalKeys(dag, clock);
      BroughtBy(dag, clock);
      AdmitAll(dag, clock);
      ReactorInvariant.AdmitEnd(c, dag.id, GraphOf(dag.tasks), a);
    }

    lemma ArrivalKeys(dag: DAG, clock: map<Id, real>)
      ensures var a := ArrivalOf(dag, clock);
              a.rank.Keys == a.stale.Keys == GraphOf(dag.tasks).Keys == dag.tasks.Keys && a.clock == clock
    {
    }

    lemma BroughtBy(dag: DAG, clock: map<Id, real>)
      requires Analysed(dag)
      ensures Brought(dag, ArrivalOf(dag, clock))
    {
    }

    lemma ViewDags()
      ensures View().dags == graphEng.dags.Keys && View().g == GraphOf(graphEng.nodes)
    {
    }

    lemma ShapeOf(dag: DAG)
      requires Arrivable(dag)
      ensures EntriesMarked(dag.tasks, GraphOf(dag.tasks))
      ensures forall t :: t in dag.tasks ==> dag.tasks[t].id == t
    {
    }

    // ---------- scheduling ----------

    /** All queued priorities are those of time `now`. */
    ghost predicate Current(now: real)
      reads `dagMeta, pq, pq.items`dynamicPriority, pq.items`staticRankU, pq.items`staticRankD, pq.items`readyAt
    {
      forall n :: n in multiset(pq.items) ==> n.dynamicPriority == NodePriority(n, now)
    }

    /** The loop that recomputes every queued priority in place. */
    method Reprice(now: real)
      modifies pq.Nodes()`dynamicPriority
      ensures Current(now)
    {
      hide ExtractDAGID;
      for i := 0 to |pq.items|
        invariant forall k :: 0 <= k < i ==> pq.items[k].dynamicPriority == NodePriority(pq.items[k], now)
      {
        pq.items[i].dynamicPriority := NodePriority(pq.items[i], now);
      }
    }

    /** heap.Init changes the arrangement only. */
    method Reheap(now: real)
      requires Valid() && Current(now)
      modifies pq, pq.Nodes()`queueIndex
      ensures Valid() && Log() == old(Log()) && IsHeap(pq.Priorities()) && Current(now) && pq.Nodes() == old(pq.Nodes())
      ensures old(pq.Indexed()) ==> pq.Indexed()
    {
      hide Known, GraphEngine.Engine.Valid, IsHeap, ExtractDAGID, PriorityQueues.PriorityQueue.Indexed;
      pq.Init();
      BagRearranged(old(pq.items), pq.items);
    }

    method UpdateDynamicPriorities(now: real)
      requires Valid()
      modifies pq, pq.Nodes()`queueIndex, pq.Nodes()`dynamicPriority
      ensures Valid() && View() == old(View()) && IsHeap(pq.Priorities()) && Current(now)
      ensures pq.Nodes() == old(pq.Nodes())
      ensures old(pq.Indexed()) ==> pq.Indexed()
    {
      hide Known, GraphEngine.Engine.Valid, IsHeap, PriorityQueues.PriorityQueue.Indexed, Log, Current;
      hide Volumes, StaticRanks, ReadyTimes, GraphEngine.Engine.Remaining;
      Reprice(now);
      Reheap(now);
    }

    method FindIdle() returns (idle: Option<Worker>)
      ensures Reactor.FirstIdle(stateMgr.workerStates, WorkerIDs()) ==
              if idle == None then None else Some(idle.value.id)
    {
      var ids := WorkerIDs();
      for i := 0 to |workers|
        invariant Reactor.FirstIdle(stateMgr.workerStates, ids[i..]) == Reactor.FirstIdle(stateMgr.workerStates, ids)
      {
        assert ids[i..][0] == workers[i].id && ids[i..][1..] == ids[i + 1..];
        var w := workers[i];
        if w.id in stateMgr.workerStates && stateMgr.workerStates[w.id] == Idle { return Some(w); }
      }
      return None;
    }

    /** No queued task outranks t. */
    ghost predicate Outranks(queue: multiset<Id>, t: Id, now: real)
      reads graphEng, `dagMeta
      reads graphEng.nodes.Values`staticRankU, graphEng.nodes.Values`staticRankD, graphEng.nodes.Values`readyAt
    {
      t in graphEng.nodes && t in queue &&
      forall u :: u in queue ==>
        u in graphEng.nodes && NodePriority(graphEng.nodes[u], now) <= NodePriority(graphEng.nodes[t], now)
    }

    lemma TopOutranks(now: real, top: TaskNode)
      requires Valid() && Current(now) && top in pq.items
      requires forall n :: n in pq.items ==> n.dynamicPriority <= top.dynamicPriority
      ensures Outranks(BagOf(pq.items), top.id, now)
    {
      hide GraphEngine.Engine.Valid, NodePriority;
      assert top in multiset(pq.items);
      BagMember(pq.items, top.id);
      forall u | u in BagOf(pq.items)
        ensures u in graphEng.nodes && NodePriority(graphEng.nodes[u], now) <= NodePriority(graphEng.nodes[top.id], now)
      {
        BagMember(pq.items, u);
        var n :| n in pq.items && n.id == u;
        assert n in multiset(pq.items);
      }
    }

    method PopBest(now: real) returns (task: TaskNode)
      requires Valid() && IsHeap(pq.Priorities()) && Current(now) && pq.items != []
      modifies pq, pq.Nodes()`queueIndex
      ensures Valid() && IsHeap(pq.Priorities()) && Current(now) && |pq.items| < |old(pq.items)|
      ensures pq.Nodes() <= old(pq.Nodes())
      ensures task == old(pq.items)[0] && task.queueIndex == -1
      ensures task.id in graphEng.nodes && graphEng.nodes[task.id] == task
      ensures Log() == old(Log()).(queue := old(Log()).queue - multiset{task.id})
      ensures old(pq.Indexed()) ==> pq.Indexed() && task !in pq.items
    {
      hide GraphEngine.Engine.Valid, IsHeap, PriorityQueues.PriorityQueue.Indexed, NodePriority, BagOf;
      task := pq.Pop();
      assert task in multiset(old(pq.items)) && |multiset(pq.items)| + 1 == |multiset(old(pq.items))|;
      BagPushed(pq.items, old(pq.items), task);
      FewerNodes(pq.items, old(pq.items), task);
    }

    method Assign(task: TaskNode, ip: string)
      modifies task`assignedNodeIP
      ensures task.assignedNodeIP == ip && pq.Priorities() == old(pq.Priorities())
    {
      task.assignedNodeIP := ip;
    }

    /** States, reference count and history for a task handed to a worker. */
    method DispatchTask(task: TaskNode, worker: Worker)
      requires Valid()
      modifies this`refCounts, this`dispatched, stateMgr`taskStates, stateMgr`workerStates, task`assignedNodeIP
      ensures Valid()
      ensures stateMgr.taskStates == StateManager.Moved(old(stateMgr.taskStates), task.id, Running)
      ensures stateMgr.workerStates == old(stateMgr.workerStates)[worker.id := Busy]
      ensures task.assignedNodeIP == worker.ip
      ensures Log() == old(Log()).(dispatched := old(Log()).dispatched + multiset{task.id})
      ensures pq.Priorities() == old(pq.Priorities())
      ensures refCounts == old(refCounts)[ParseNumericTaskID(task.id) := RefCount(GraphOf(graphEng.nodes), task.id)]
    {
      hide Known, GraphEngine.Engine.Valid, StateManager.Moved, Valid, PriorityQueues.PriorityQueue.Priorities, BagOf;
      hide ParseNumericTaskID;
      EngineValid();
      Assign(task, worker.ip);
      var _ := stateMgr.UpdateTaskState(task.id, Running);
      var accepted := stateMgr.UpdateWorkerState(worker.id, Busy);
      assert accepted;
      var succs := graphEng.GetSuccessors(task.id);
      refCounts := refCounts[ParseNumericTaskID(task.id) := (if succs.Some? then |succs.value| else 0) % U32_LIMIT];
      dispatched := dispatched + multiset{task.id};
    }

    lemma PriorityMatches(u: Id, now: real)
      requires u in graphEng.nodes && graphEng.nodes[u].id == u
      ensures u in View().rank && u in View().readyAt
      ensures Reactor.Priority(View(), u, agingFactor, now) == NodePriority(graphEng.nodes[u], now)
    {
    }

    /** The spec's choice rule follows from the heap's. */
    lemma Choice(t: Id, w: Id, now: real)
      requires Valid() && Outranks(Log().queue, t, now)
      requires Reactor.FirstIdle(stateMgr.workerStates, WorkerIDs()) == Some(w)
      ensures Reactor.CanDispatch(View(), WorkerIDs(), t, w, agingFactor, now)
    {
      hide Reactor.Priority, NodePriority, Known, Log, Reactor.FirstIdle;
      forall u | u in Log().queue
        ensures u in View().g
        ensures Reactor.Priority(View(), u, agingFactor, now) <= Reactor.Priority(View(), t, agingFactor, now)
      {
        PriorityMatches(u, now);
        PriorityMatches(t, now);
      }
    }

    /** What heap.Pop is about to return is a permitted choice. */
    lemma TopIsChoice(w: Id, now: real)
      requires Valid() && IsHeap(pq.Priorities()) && Current(now) && pq.items != []
      requires Reactor.FirstIdle(stateMgr.workerStates, WorkerIDs()) == Some(w)
      ensures Reactor.CanDispatch(View(), WorkerIDs(), pq.items[0].id, w, agingFactor, now)
    {
      hide Valid, IsHeap, Current, Outranks, View, Reactor.CanDispatch, Reactor.FirstIdle;
      pq.TopDominates();
      TopOutranks(now, pq.items[0]);
      Choice(pq.items[0].id, w, now);
    }

    /** A popped task handed to the worker. */
    method PopAndDispatch(worker: Worker, now: real) returns (task: TaskNode)
      requires Valid() && IsHeap(pq.Priorities()) && Current(now) && pq.items != []
      modifies pq, pq.Nodes()`queueIndex, this`refCounts, this`dispatched, stateMgr`taskStates, stateMgr`workerStates
      modifies pq.Nodes()`assignedNodeIP
      ensures Valid() && IsHeap(pq.Priorities()) && Current(now) && |pq.items| < |old(pq.items)|
      ensures pq.Nodes() <= old(pq.Nodes())
      ensures task == old(pq.items)[0]
      ensures stateMgr.taskStates == StateManager.Moved(old(stateMgr.taskStates), task.id, Running)
      ensures stateMgr.workerStates == old(stateMgr.workerStates)[worker.id := Busy]
      ensures Log() == old(Log()).(queue := old(Log()).queue - multiset{task.id},
                                   dispatched := old(Log()).dispatched + multiset{task.id})
      ensures old(pq.Indexed()) ==> pq.Indexed() && task !in pq.items
      ensures task.queueIndex == -1 && task.assignedNodeIP == worker.ip
      ensures refCounts == old(refCounts)[ParseNumericTaskID(task.id) := RefCount(GraphOf(graphEng.nodes), task.id)]
    {
      hide GraphEngine.Engine.Valid, IsHeap, PriorityQueues.PriorityQueue.Indexed, NodePriority, Outranks, Known, BagOf;
      hide StateManager.Moved, Current, Valid, Log, ParseNumericTaskID, RefCount, GraphOf;
      task := PopBest(now);
      DispatchTask(task, worker);
    }

    /** Its effect on the whole state. */
    method PopToWorker(worker: Worker, now: real) returns (task: TaskNode)
      requires Valid() && IsHeap(pq.Priorities()) && Current(now) && pq.items != []
      modifies pq, pq.Nodes()`queueIndex, this`refCounts, this`dispatched, stateMgr`taskStates, stateMgr`workerStates
      modifies pq.Nodes()`assignedNodeIP
      ensures Valid() && IsHeap(pq.Priorities()) && Current(now) && |pq.items| < |old(pq.items)|
      ensures pq.Nodes() <= old(pq.Nodes()) && task == old(pq.items)[0]
      ensures View() == Reactor.Dispatch(old(View()), task.id, worker.id)
      ensures old(pq.Indexed()) ==> pq.Indexed()
      ensures refCounts == old(refCounts)[ParseNumericTaskID(task.id) := RefCount(GraphOf(graphEng.nodes), task.id)]
    {
      hide GraphEngine.Engine.Valid, IsHeap, PriorityQueues.PriorityQueue.Indexed, NodePriority, Outranks, Known, BagOf;
      hide Volumes, StaticRanks, ReadyTimes, GraphEngine.Engine.Remaining;
      hide StateManager.Moved, GraphOf, Current, Valid, Log, ParseNumericTaskID, RefCount;
      task := PopAndDispatch(worker, now);
    }

    /** One dispatch: the best queued task goes to the idle worker. */
    method DispatchNext(worker: Worker, now: real) returns (job: Reactor.Job)
      requires Valid() && IsHeap(pq.Priorities()) && Current(now) && pq.items != []
      requires Reactor.FirstIdle(stateMgr.workerStates, WorkerIDs()) == Some(worker.id)
      modifies pq, pq.Nodes()`queueIndex, this`refCounts, this`dispatched, stateMgr`taskStates, stateMgr`workerStates
      modifies pq.Nodes()`assignedNodeIP
      ensures Valid() && IsHeap(pq.Priorities()) && Current(now) && |pq.items| < |old(pq.items)|
      ensures pq.Nodes() <= old(pq.Nodes())
      ensures View() == Reactor.Dispatch(old(View()), job.task, job.worker)
      ensures Reactor.CanDispatch(old(View()), WorkerIDs(), job.task, job.worker, agingFactor, now)
      ensures old(pq.Indexed()) ==> pq.Indexed()
      ensures refCounts == old(refCounts)[ParseNumericTaskID(job.task) := RefCount(GraphOf(graphEng.nodes), job.task)]
    {
      hide GraphEngine.Engine.Valid, IsHeap, PriorityQueues.PriorityQueue.Indexed, NodePriority, Outranks, Known, BagOf;
      hide Reactor.CanDispatch, Reactor.FirstIdle, Reactor.Dispatch, View;
      hide WorkerIDs, GraphOf, Current, Valid, ParseNumericTaskID, RefCount;
      job := Reactor.Job(pq.items[0].id, worker.id);
      TopIsChoice(worker.id, now);
      var _ := PopToWorker(worker, now);
    }

    lemma QueueEmptyIff()
      ensures View().log.queue == multiset{} <==> pq.items == []
      ensures View().workers == stateMgr.workerStates
    {
      if pq.items != [] { BagMember(pq.items, pq.items[0].id); }
    }

    /** Dispatches while something is queued and some worker is idle. */
    method ScheduleReadyTasks(now: real) returns (trace: seq<Reactor.Job>)
      requires Valid()
      modifies pq, pq.Nodes()`queueIndex, pq.Nodes()`dynamicPriority, pq.Nodes()`assignedNodeIP
      modifies this`refCounts, this`dispatched, stateMgr`taskStates, stateMgr`workerStates
      ensures Valid() && View() == Reactor.DispatchAll(old(View()), trace)
      ensures Reactor.CanDispatchAll(old(View()), WorkerIDs(), trace, agingFactor, now)
      ensures Reactor.Quiet(View(), WorkerIDs())
      ensures old(pq.Indexed()) ==> pq.Indexed()
      ensures refCounts == Written(old(refCounts), Reactor.TasksOf(trace), GraphOf(graphEng.nodes))
    {
      hide Valid, IsHeap, Current, View, PriorityQueues.PriorityQueue.Indexed, Reactor.CanDispatch, Reactor.Dispatch;
      hide Reactor.FirstIdle, BagOf, WorkerIDs, ParseNumericTaskID, RefCount, GraphOf, Written;
      ghost var c := View();
      UpdateDynamicPriorities(now);
      trace := [];
      NothingWritten(refCounts, GraphOf(graphEng.nodes));
      assert Reactor.TasksOf(trace) == [];
      while pq.items != []
        invariant Valid() && IsHeap(pq.Priorities()) && Current(now) && pq.Nodes() <= old(pq.Nodes())
        invariant View() == Reactor.DispatchAll(c, trace)
        invariant Reactor.CanDispatchAll(c, WorkerIDs(), trace, agingFactor, now)
        invariant old(pq.Indexed()) ==> pq.Indexed()
        invariant refCounts == Written(old(refCounts), Reactor.TasksOf(trace), GraphOf(graphEng.nodes))
        decreases |pq.items|
      {
        var worker := FindIdle();
        if worker == None { break; }
        var job := DispatchNext(worker.value, now);
        TraceGrows(trace, job);
        WrittenOneMore(old(refCounts), Reactor.TasksOf(trace), GraphOf(graphEng.nodes), job.task);
        trace := trace + [job];
      }
      QueueEmptyIff();
    }

    lemma TraceGrows(trace: seq<Reactor.Job>, job: Reactor.Job)
      ensures (trace + [job])[..|trace|] == trace && (trace + [job])[|trace|] == job
      ensures Reactor.TasksOf(trace + [job]) == Reactor.TasksOf(trace) + [job.task]
    {
    }

    // ---------- the reactor ----------

    method HandleEvent(e: SchedulerEvent, now: real, clock: map<Id, real>) returns (ghost a: Reactor.Arrival)
      requires e.DagArrived? ==> clock.Keys == e.dag.tasks.Keys
      requires Valid() && (e.DagArrived? && e.dag.id !in graphEng.dags ==> Arrivable(e.dag))
      requires forall w :: w in workers ==> w.computeMultiplier > 0.0
      modifies graphEng, this`dagMeta, this`pushed, this`completed, stateMgr, pq
      modifies graphEng.nodes.Values`remainingDependencies
      modifies Involved(e)`staticRankU, Involved(e)`staticRankD
      modifies (graphEng.nodes.Values + Involved(e))`readyAt
      modifies (graphEng.nodes.Values + Involved(e))`dynamicPriority
      modifies (graphEng.nodes.Values + Involved(e))`queueIndex
      ensures Valid() && View() == Reactor.Handle(old(View()), EventView(e), a, now)
      ensures e.DagArrived? ==> a.rank.Keys == a.stale.Keys == a.clock.Keys == GraphOf(e.dag.tasks).Keys
      ensures e.DagArrived? ==> a.clock == clock
      ensures e.DagArrived? || a.clock == map[]
      ensures old(Tidy()) ==> Tidy()
      ensures graphEng.nodes.Values <= old(graphEng.nodes.Values) + Involved(e)
      ensures e.DagArrived? && e.dag.id !in old(graphEng.dags) ==> Brought(e.dag, a)
    {
      hide Valid, Tidy, View, Arrivable, Reactor.AfterArrival, Reactor.AfterCompletion, GraphOf, Brought;
      a := Reactor.Arrival(map[], map[], 0.0, map[]);
      match e
      case DagArrived(dag) =>
        a := HandleArrival(dag, clock);
        ValuesOfUnion(old(graphEng.nodes), dag.tasks);
      case TaskCompleted(t, w) => HandleCompletion(t, w, now);
      case WorkerIdle(w) => ReportIdle(w);
    }

    method ReportIdle(w: Id)
      requires Valid()
      modifies stateMgr`workerStates
      ensures Valid() && View() == old(View()).(workers := old(View()).workers[w := Idle])
      ensures old(Tidy()) ==> Tidy()
    {
      hide Valid, Tidy, Log, StaticRanks, ReadyTimes, Volumes, GraphEngine.Engine.Remaining;
      var accepted := stateMgr.UpdateWorkerState(w, Idle);
      assert accepted;
    }
  }

  lemma ValuesOfUnion(a: map<Id, TaskNode>, b: map<Id, TaskNode>)
    ensures (a + b).Values <= a.Values + b.Values
  {
  }

  lemma KnownMore(items: multiset<TaskNode>, nodes: map<Id, TaskNode>, more: map<Id, TaskNode>)
    requires Known(items, nodes) && nodes.Keys !! more.Keys
    ensures Known(items, nodes + more)
  {
  }
}
