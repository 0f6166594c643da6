/** Registered DAGs and dependency counters (internal/graph/engine.go). */
module GraphEngine {
  import opened Api
  import opened Graphs

  /** One field of every node, as a map: dependency counters, static ranks, time stamps. */
  ghost function Counters(nodes: map<Id, TaskNode>): map<Id, int>
    reads nodes.Values`remainingDependencies
  {
    map t | t in nodes :: nodes[t].remainingDependencies
  }

  ghost function RankSums(nodes: map<Id, TaskNode>): map<Id, real>
    reads nodes.Values`staticRankU, nodes.Values`staticRankD
  {
    map t | t in nodes :: nodes[t].staticRankU + nodes[t].staticRankD
  }

  ghost function Stamps(nodes: map<Id, TaskNode>): map<Id, real>
    reads nodes.Values`readyAt
  {
    map t | t in nodes :: nodes[t].readyAt
  }

  lemma GraphUnion(a: map<Id, TaskNode>, b: map<Id, TaskNode>)
    ensures GraphOf(a + b) == GraphOf(a) + GraphOf(b)
  {
  }

  lemma CountersUnion(a: map<Id, TaskNode>, b: map<Id, TaskNode>)
    ensures Counters(a + b) == Counters(a) + Counters(b)
  {
  }

  lemma RankSumsUnion(a: map<Id, TaskNode>, b: map<Id, TaskNode>)
    ensures RankSums(a + b) == RankSums(a) + RankSums(b)
  {
  }

  lemma StampsUnion(a: map<Id, TaskNode>, b: map<Id, TaskNode>)
    ensures Stamps(a + b) == Stamps(a) + Stamps(b)
  {
  }

  /** Each node is stored under its own ID. */
  ghost predicate Named(tasks: map<Id, TaskNode>) {
    forall t :: t in tasks ==> tasks[t].id == t
  }

  /** The union of the registered DAGs' tasks, each in no more than one of them. */
  ghost predicate Consistent(dags: map<Id, DAG>, nodes: map<Id, TaskNode>) {
    && (forall d :: d in dags ==> dags[d].id == d)
    && (forall d, t :: d in dags && t in dags[d].tasks ==> t in nodes && nodes[t] == dags[d].tasks[t])
    && (forall t :: t in nodes ==> nodes[t].id == t && exists d :: d in dags && t in dags[d].tasks)
  }

  lemma ConsistentMore(dags: map<Id, DAG>, nodes: map<Id, TaskNode>, dag: DAG)
    requires Consistent(dags, nodes) && dag.id !in dags && dag.tasks.Keys !! nodes.Keys && Named(dag.tasks)
    ensures Consistent(dags[dag.id := dag], nodes + dag.tasks)
  {
    var more := dags[dag.id := dag];
    forall t | t in nodes + dag.tasks ensures exists d :: d in more && t in more[d].tasks {
      if t in dag.tasks {
        assert t in more[dag.id].tasks;
      } else {
        var d :| d in dags && t in dags[d].tasks;
        assert t in more[d].tasks;
      }
    }
  }

  class Engine {
    var dags: map<Id, DAG>
    /** All registered tasks, whichever DAG they belong to. */
    ghost var nodes: map<Id, TaskNode>

    ghost predicate Valid()
      reads this
    {
      Consistent(dags, nodes)
    }

    /** The current counter of every registered task. */
    ghost function Remaining(): map<Id, int>
      reads this, nodes.Values`remainingDependencies
    {
      Counters(nodes)
    }

    constructor ()
      ensures Valid() && dags == map[] && nodes == map[]
    {
      dags, nodes := map[], map[];
    }

    method RegisterDAG(dag: DAG) returns (ok: bool)
      requires Valid()
      modifies this
      ensures ok == (dag.id !in old(dags))
      ensures !ok || (dag.tasks.Keys !! old(nodes).Keys && Named(dag.tasks)) ==> Valid()
      ensures dags == if ok then old(dags)[dag.id := dag] else old(dags)
      ensures dags.Keys == if ok then old(dags).Keys + {dag.id} else old(dags).Keys
      ensures nodes == if ok then old(nodes) + dag.tasks else old(nodes)
    {
      hide Consistent, Named;
      if dag.id in dags { return false; }
      if dag.tasks.Keys !! nodes.Keys && Named(dag.tasks) { ConsistentMore(dags, nodes, dag); }
      dags := dags[dag.id := dag];
      nodes := nodes + dag.tasks;
      return true;
    }

    /** Scans the registered DAGs, in any order, for the first that holds the task. */
    method GetTask(taskID: Id) returns (node: Option<TaskNode>)
      requires Valid()
      ensures node == if taskID in nodes then Some(nodes[taskID]) else None
    {
      var todo := dags.Keys;
      while todo != {}
        invariant todo <= dags.Keys
        invariant forall d :: d in dags && d !in todo ==> taskID !in dags[d].tasks
      {
        var d :| d in todo;
        if taskID in dags[d].tasks { return Some(dags[d].tasks[taskID]); }
        todo := todo - {d};
      }
      return None;
    }

    /** Decrements the task's counter, never below zero, and reports the new value. */
    method DecrementIndegree(taskID: Id) returns (rem: Option<int>)
      requires Valid()
      modifies nodes.Values`remainingDependencies
      ensures rem.Some? <==> taskID in nodes
      ensures rem.Some? <==> taskID in old(Remaining())
      ensures rem.Some? ==> rem.value == if old(Remaining())[taskID] > 0 then old(Remaining())[taskID] - 1
                                         else old(Remaining())[taskID]
      ensures Remaining() == if rem.Some? then old(Remaining())[taskID := rem.value] else old(Remaining())
    {
      var node := GetTask(taskID);
      if node == None { return None; }
      var n := node.value;
      if n.remainingDependencies > 0 { n.remainingDependencies := n.remainingDependencies - 1; }
      return Some(n.remainingDependencies);
    }

    method GetSuccessors(taskID: Id) returns (succs: Option<seq<Dependency>>)
      requires Valid()
      ensures succs == if taskID in nodes then Some(GraphOf(nodes)[taskID]) else None
    {
      var node := GetTask(taskID);
      if node == None { return None; }
      return Some(node.value.successors);
    }
  }
}
