/** What the parser delivers is what the reactor and the rank computation assume. */
module Admission {
  import opened Api
  import opened Graphs
  import opened Parser
  import AlgorithmOne
  import LongestPaths
  import Ranks
  import Reactor
  import Scheduling

  /** The DAG Parse returns for an accepted payload. */
  ghost predicate Parsed(raw: IngestedDAG, dag: DAG)
    reads dag.tasks.Values
  {
    && Accepts(raw) && dag.id == raw.dagID && NodesOf(dag.tasks, Topology(raw, |raw.tasks|))
    && ReverseLinked(dag.tasks) && Unranked(dag.tasks) && CostsOf(raw, |raw.tasks|, dag.tasks)
  }

  /** Every task of the payload's graph comes from one of its entries. */
  lemma {:induction false} TaskFrom(raw: IngestedDAG, n: nat, t: Id) returns (i: nat)
    requires n <= |raw.tasks| && t in Topology(raw, n)
    ensures i < n && t == Key(raw, i) && Topology(raw, n)[t] == Normalised(raw.dagID, raw.tasks[i].successors)
  {
    i := n - 1;
    if t != Key(raw, n - 1) { i := TaskFrom(raw, n - 1, t); }
  }

  /** An accepted payload is a DAG in the reactor's sense exactly when its DAG ID holds no colon. */
  lemma AcceptedIsValid(raw: IngestedDAG)
    requires Accepts(raw)
    ensures Reactor.ValidDag(raw.dagID, Topology(raw, |raw.tasks|)) <==> ':' !in raw.dagID
  {
    hide Acyclic, Closed, Normalised, Topology, GlobalID, ExtractDAGID;
    var g := Topology(raw, |raw.tasks|);
    if ':' !in raw.dagID {
      forall t | t in g ensures ExtractDAGID(t) == raw.dagID {
        var i := TaskFrom(raw, |raw.tasks|, t);
        DagIDRoundTrip(raw.dagID, raw.tasks[i].taskID);
      }
    } else {
      TopologyKeys(raw, |raw.tasks|);
      DagIDRoundTrip(raw.dagID, raw.tasks[0].taskID);
      assert Key(raw, 0) in g && ExtractDAGID(Key(raw, 0)) != raw.dagID;
    }
  }

  lemma EdgesSafe(raw: IngestedDAG, t: Id)
    requires Accepts(raw) && t in Topology(raw, |raw.tasks|)
    ensures forall k :: 0 <= k < |Topology(raw, |raw.tasks|)[t]| ==> Topology(raw, |raw.tasks|)[t][k].dataSize >= 0
  {
    hide Acyclic, Closed, Topology;
    var i := TaskFrom(raw, |raw.tasks|, t);
    assert FieldsValid(raw.tasks[i]);
  }

  lemma WorkPositive(raw: IngestedDAG, tasks: map<Id, TaskNode>, t: Id)
    requires Accepts(raw) && CostsOf(raw, |raw.tasks|, tasks) && t in Topology(raw, |raw.tasks|)
    requires t in tasks
    ensures tasks[t].baseComputation > 0
  {
    hide Acyclic, Closed, Topology;
    var i := TaskFrom(raw, |raw.tasks|, t);
    assert FieldsValid(raw.tasks[i]);
  }

  /** The multiset of reverse edges names exactly the sources of incoming edges. */
  lemma PredecessorNames(tasks: map<Id, TaskNode>, t: Id)
    requires t in tasks && ReverseLinked(tasks)
    ensures forall u :: u in tasks[t].predecessors <==> Edge(GraphOf(tasks), u, t)
  {
    var g: Graph := GraphOf(tasks);
    forall u ensures u in tasks[t].predecessors <==> Edge(g, u, t) {
      assert u in tasks[t].predecessors <==> multiset(tasks[t].predecessors)[u] > 0;
      if u in g { TargetsIn(g[u], t); }
    }
  }

  lemma PredecessorsKnown(tasks: map<Id, TaskNode>)
    requires ReverseLinked(tasks)
    ensures LongestPaths.PredecessorsOf(GraphOf(tasks), Ranks.Preds(tasks))
  {
    hide ReverseLinked, Edge;
    forall t | t in tasks ensures forall u :: u in Ranks.Preds(tasks)[t] <==> Edge(GraphOf(tasks), u, t) {
      PredecessorNames(tasks, t);
    }
  }

  /** Ranks, counters and entry tests find the tasks in the shape they rely on. */
  lemma ParsedIsFresh(raw: IngestedDAG, dag: DAG)
    requires Parsed(raw, dag)
    ensures Scheduling.Fresh(dag.tasks)
  {
    hide Acyclic, Closed, Topology, CostsOf, LongestPaths.PredecessorsOf, InDegree, IsEntry;
    var g := Topology(raw, |raw.tasks|);
    NodesGraph(dag.tasks, g);
    PredecessorsKnown(dag.tasks);
    forall t | t in dag.tasks
      ensures dag.tasks[t].predecessors == [] <==> IsEntry(g, t)
      ensures dag.tasks[t].baseComputation >= 0
      ensures forall k :: 0 <= k < |dag.tasks[t].successors| ==> dag.tasks[t].successors[k].dataSize >= 0
    {
      Ranks.EmptyIsEntry(g, Ranks.Preds(dag.tasks), t);
      EdgesSafe(raw, t);
      WorkPositive(raw, dag.tasks, t);
    }
  }

  /** A parsed DAG whose ID has no colon may be submitted. */
  lemma ParsedMayBeSubmitted(raw: IngestedDAG, dag: DAG, workers: seq<Worker>)
    requires Parsed(raw, dag) && ':' !in raw.dagID && forall w :: w in workers ==> w.computeMultiplier > 0.0
    ensures Reactor.ValidDag(dag.id, GraphOf(dag.tasks)) && LongestPaths.Good(AlgorithmOne.DagCosts(dag.tasks, workers))
  {
    hide Acyclic, Closed, Topology, CostsOf, LongestPaths.Good, AlgorithmOne.DagCosts, Reactor.ValidDag, Ranks.Rankable;
    NodesGraph(dag.tasks, Topology(raw, |raw.tasks|));
    AcceptedIsValid(raw);
    ParsedIsFresh(raw, dag);
    Ranks.ModelFits(dag.tasks, workers);
  }

  /** An accepted DAG has an entry task, and every task can be traced back to one. */
  lemma TracedToEntry(raw: IngestedDAG, v: Id) returns (e: Id, ks: seq<nat>)
    requires Accepts(raw) && v in Topology(raw, |raw.tasks|)
    ensures var g := Topology(raw, |raw.tasks|); e in Reactor.Entries(g) && Walk(g, e, ks) && End(g, e, ks) == v
  {
    hide Acyclic, Closed, Topology;
    var g := Topology(raw, |raw.tasks|);
    e, ks := FromEntry(g, v);
  }

  lemma SomeEntry(raw: IngestedDAG)
    requires Accepts(raw)
    ensures Reactor.Entries(Topology(raw, |raw.tasks|)) != {}
  {
    hide Acyclic, Closed, Topology;
    TopologyKeys(raw, |raw.tasks|);
    var e, _ := TracedToEntry(raw, Key(raw, 0));
  }

  // ---------- edges counted from both ends ----------

  ghost function Sum(f: map<Id, nat>, S: set<Id>): nat
    requires S <= f.Keys
  {
    if S == {} then 0 else var u :| u in S; f[u] + Sum(f, S - {u})
  }

  ghost function SuccessorCounts(tasks: map<Id, TaskNode>): map<Id, nat> {
    map t | t in tasks :: |tasks[t].successors|
  }

  ghost function PredecessorCounts(tasks: map<Id, TaskNode>): map<Id, nat>
    reads tasks.Values`predecessors
  {
    map t | t in tasks :: |tasks[t].predecessors|
  }

  lemma {:induction false} SuccessorsAreEdges(tasks: map<Id, TaskNode>, S: set<Id>)
    requires S <= tasks.Keys
    ensures Sum(SuccessorCounts(tasks), S) == |InEdges(GraphOf(tasks), S)|
  {
    if S != {} {
      var f := SuccessorCounts(tasks);
      var u :| u in S && Sum(f, S) == f[u] + Sum(f, S - {u});
      TargetsSize(tasks[u].successors);
      InEdgesRemove(GraphOf(tasks), S, u);
      SuccessorsAreEdges(tasks, S - {u});
    }
  }

  lemma {:induction false} CountsFillUp(f: map<Id, nat>, m: multiset<Id>, S: set<Id>)
    requires S <= f.Keys && (forall t :: t in m ==> t in S) && forall t :: t in S ==> f[t] == m[t]
    ensures Sum(f, S) == |m|
  {
    if S == {} {
      assert m == multiset{};
    } else {
      var u :| u in S && Sum(f, S) == f[u] + Sum(f, S - {u});
      CountsFillUp(f, m[u := 0], S - {u});
    }
  }

  /** On acceptance no edge is lost or invented: the reverse lists hold as many entries as the successor lists. */
  lemma DegreesMatch(tasks: map<Id, TaskNode>)
    requires ReverseLinked(tasks) && Closed(GraphOf(tasks))
    ensures Sum(PredecessorCounts(tasks), tasks.Keys) == Sum(SuccessorCounts(tasks), tasks.Keys)
  {
    var g: Graph := GraphOf(tasks);
    assert g.Keys == tasks.Keys;
    forall t | t in InEdges(g, g.Keys) ensures t in tasks {
      InEdgesIn(g, g.Keys, t);
    }
    SuccessorsAreEdges(tasks, tasks.Keys);
    CountsFillUp(PredecessorCounts(tasks), InEdges(g, g.Keys), tasks.Keys);
  }
}
