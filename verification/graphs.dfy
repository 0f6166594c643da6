/** Finite directed multigraphs: walks, cycles, sources and edge counting. */
module Graphs {
  import opened Api

  /** Every task with its outgoing edges, in the order the payload lists them. */
  type Graph = map<Id, seq<Dependency>>

  /** The topology that a map of task nodes spells out. */
  function GraphOf(tasks: map<Id, TaskNode>): Graph {
    map t | t in tasks :: tasks[t].successors
  }

  ghost predicate Closed(g: Graph) {
    forall u, k :: u in g && 0 <= k < |g[u]| ==> g[u][k].targetTaskID in g
  }

  ghost predicate Edge(g: Graph, u: Id, v: Id) {
    u in g && exists k :: 0 <= k < |g[u]| && g[u][k].targetTaskID == v
  }

  /** No edge leads to t. */
  ghost predicate IsEntry(g: Graph, t: Id) {
    t in g && forall u :: !Edge(g, u, t)
  }

  /** A walk names its start and, at each step, which outgoing edge it takes; parallel edges differ. */
  ghost predicate Walk(g: Graph, u: Id, ks: seq<nat>)
    decreases |ks|
  {
    u in g && (ks == [] || (ks[0] < |g[u]| && Walk(g, g[u][ks[0]].targetTaskID, ks[1..])))
  }

  ghost function End(g: Graph, u: Id, ks: seq<nat>): Id
    requires Walk(g, u, ks)
    decreases |ks|
  {
    if ks == [] then u else End(g, g[u][ks[0]].targetTaskID, ks[1..])
  }

  /** No walk of one step or more returns to its start; a self-loop is such a walk. */
  ghost predicate Acyclic(g: Graph) {
    forall u, ks :: Walk(g, u, ks) && ks != [] ==> End(g, u, ks) != u
  }

  ghost predicate Reaches(g: Graph, u: Id, v: Id) {
    exists ks :: Walk(g, u, ks) && ks != [] && End(g, u, ks) == v
  }

  lemma {:induction false} WalkAppend(g: Graph, u: Id, ks: seq<nat>, ms: seq<nat>)
    requires Walk(g, u, ks) && Walk(g, End(g, u, ks), ms)
    ensures Walk(g, u, ks + ms) && End(g, u, ks + ms) == End(g, End(g, u, ks), ms)
    decreases |ks|
  {
    if ks == [] {
      assert ks + ms == ms;
    } else {
      WalkAppend(g, g[u][ks[0]].targetTaskID, ks[1..], ms);
      assert (ks + ms)[1..] == ks[1..] + ms;
    }
  }

  lemma EdgeWalk(g: Graph, u: Id, v: Id) returns (k: nat)
    requires Edge(g, u, v) && v in g
    ensures Walk(g, u, [k]) && End(g, u, [k]) == v && k < |g[u]| && g[u][k].targetTaskID == v
  {
    k :| 0 <= k < |g[u]| && g[u][k].targetTaskID == v;
    assert Walk(g, v, []);
    assert [k][1..] == [];
  }

  lemma ReachesTransitive(g: Graph, u: Id, v: Id, w: Id)
    requires Reaches(g, u, v) && Reaches(g, v, w)
    ensures Reaches(g, u, w)
  {
    var ks :| Walk(g, u, ks) && ks != [] && End(g, u, ks) == v;
    var ms :| Walk(g, v, ms) && ms != [] && End(g, v, ms) == w;
    WalkAppend(g, u, ks, ms);
  }

  lemma EdgeReaches(g: Graph, u: Id, v: Id)
    requires Edge(g, u, v) && v in g
    ensures Reaches(g, u, v)
  {
    var k := EdgeWalk(g, u, v);
  }

  /** A walk leaves a set only over an edge that leaves it. */
  lemma {:induction false} WalkStaysIn(g: Graph, S: set<Id>, u: Id, ks: seq<nat>)
    requires Walk(g, u, ks) && u in S
    requires forall x, k :: x in S && x in g && 0 <= k < |g[x]| ==> g[x][k].targetTaskID in S
    ensures End(g, u, ks) in S
    decreases |ks|
  {
    if ks != [] {
      WalkStaysIn(g, S, g[u][ks[0]].targetTaskID, ks[1..]);
    }
  }

  // ---------- sources ----------

  /** Progress: in an acyclic graph every non-empty set of tasks has one with no predecessor in the set. */
  lemma {:induction false} SourceOf(g: Graph, S: set<Id>) returns (v: Id)
    requires Acyclic(g) && S != {} && S <= g.Keys
    ensures v in S && forall u :: u in S ==> !Edge(g, u, v)
    decreases |S|
  {
    v :| v in S;
    var P := set u | u in S && Reaches(g, u, v);
    if P == {} {
      forall u | u in S && Edge(g, u, v) ensures u in P {
        EdgeReaches(g, u, v);
      }
    } else {
      assert v !in P;
      SubsetSmaller(P, S, v);
      var top := v;
      v := SourceOf(g, P);
      forall u | u in S && Edge(g, u, v) ensures u in P {
        EdgeReaches(g, u, v);
        ReachesTransitive(g, u, v, top);
      }
    }
  }

  lemma SubsetSmaller<T>(A: set<T>, B: set<T>, x: T)
    requires A <= B && x in B && x !in A
    ensures |A| < |B|
  {
    SubsetSize(A, B - {x});
  }

  lemma {:induction false} SubsetSize<T>(A: set<T>, B: set<T>)
    requires A <= B
    ensures |A| <= |B|
    decreases A
  {
    if A != {} {
      var x :| x in A;
      SubsetSize(A - {x}, B - {x});
    }
  }

  /** Every task of an acyclic graph can be traced back to an entry task. */
  lemma FromEntry(g: Graph, v: Id) returns (e: Id, ks: seq<nat>)
    requires Acyclic(g) && Closed(g) && v in g
    ensures e in g && (forall u :: !Edge(g, u, e))
    ensures Walk(g, e, ks) && End(g, e, ks) == v
  {
    var P := set u | u in g && Reaches(g, u, v);
    if P == {} {
      e, ks := v, [];
      forall u | Edge(g, u, v) ensures u in P {
        EdgeReaches(g, u, v);
      }
    } else {
      e := SourceOf(g, P);
      ks :| Walk(g, e, ks) && ks != [] && End(g, e, ks) == v;
      forall u | Edge(g, u, e) ensures u in P {
        EdgeReaches(g, u, e);
        ReachesTransitive(g, u, e, v);
      }
    }
  }

  // ---------- topological numbering ----------

  /** Every edge goes to a smaller number. */
  ghost predicate IsTopological(g: Graph, ord: map<Id, nat>) {
    ord.Keys == g.Keys &&
    forall u, k :: u in g && 0 <= k < |g[u]| && g[u][k].targetTaskID in g ==> ord[g[u][k].targetTaskID] < ord[u]
  }

  lemma {:induction false} TopologicalWithin(g: Graph, S: set<Id>) returns (ord: map<Id, nat>)
    requires Acyclic(g) && S <= g.Keys
    ensures ord.Keys == S && forall u :: u in S ==> ord[u] < |S|
    ensures forall u, k :: u in S && 0 <= k < |g[u]| && g[u][k].targetTaskID in S ==>
                             ord[g[u][k].targetTaskID] < ord[u]
    decreases |S|
  {
    if S == {} {
      ord := map[];
    } else {
      var v := SourceOf(g, S);
      var rest := TopologicalWithin(g, S - {v});
      ord := rest[v := |S| - 1];
      forall u, k | u in S && 0 <= k < |g[u]| && g[u][k].targetTaskID in S
        ensures ord[g[u][k].targetTaskID] < ord[u]
      {
        assert Edge(g, u, g[u][k].targetTaskID);
      }
    }
  }

  ghost function Topo(g: Graph): (ord: map<Id, nat>)
    requires Acyclic(g)
    ensures IsTopological(g, ord)
  {
    TopoExists(g);
    var ord :| IsTopological(g, ord);
    ord
  }

  lemma TopoExists(g: Graph)
    requires Acyclic(g)
    ensures exists ord :: IsTopological(g, ord)
  {
    var ord := TopologicalWithin(g, g.Keys);
    assert IsTopological(g, ord);
  }

  /** The converse: a numbering that every edge decreases rules out cycles. */
  lemma {:induction false} WalkDescends(g: Graph, ord: map<Id, nat>, u: Id, ks: seq<nat>)
    requires IsTopological(g, ord) && Walk(g, u, ks)
    ensures End(g, u, ks) in g && (ks != [] ==> ord[End(g, u, ks)] < ord[u])
    decreases |ks|
  {
    if ks != [] {
      WalkDescends(g, ord, g[u][ks[0]].targetTaskID, ks[1..]);
    }
  }

  lemma AcyclicIffTopological(g: Graph)
    ensures Acyclic(g) <==> exists ord :: IsTopological(g, ord)
  {
    if Acyclic(g) {
      TopoExists(g);
    }
    if ord :| IsTopological(g, ord) {
      forall u, ks | Walk(g, u, ks) && ks != [] ensures End(g, u, ks) != u {
        WalkDescends(g, ord, u, ks);
      }
    }
  }

  // ---------- putting graphs side by side ----------

  /** Walks of a union of disjoint closed graphs stay on the side they start on. */
  lemma {:induction false} WalkOnSide(g: Graph, h: Graph, u: Id, ks: seq<nat>)
    requires g.Keys !! h.Keys && Closed(g) && Closed(h) && Walk(g + h, u, ks)
    ensures u in g ==> Walk(g, u, ks) && End(g + h, u, ks) == End(g, u, ks)
    ensures u in h ==> Walk(h, u, ks) && End(g + h, u, ks) == End(h, u, ks)
    decreases |ks|
  {
    if ks != [] {
      WalkOnSide(g, h, (g + h)[u][ks[0]].targetTaskID, ks[1..]);
    }
  }

  lemma UnionAcyclic(g: Graph, h: Graph)
    requires g.Keys !! h.Keys && Closed(g) && Closed(h) && Acyclic(g) && Acyclic(h)
    ensures Closed(g + h) && Acyclic(g + h)
  {
    forall u, ks | Walk(g + h, u, ks) && ks != [] ensures End(g + h, u, ks) != u {
      WalkOnSide(g, h, u, ks);
    }
  }

  // ---------- counting edges ----------

  /** The targets of a successor list, with multiplicity. */
  ghost function Targets(ds: seq<Dependency>): multiset<Id> {
    if ds == [] then multiset{} else multiset{ds[0].targetTaskID} + Targets(ds[1..])
  }

  lemma {:induction false} TargetsIn(ds: seq<Dependency>, v: Id)
    ensures v in Targets(ds) <==> exists k :: 0 <= k < |ds| && ds[k].targetTaskID == v
  {
    if ds != [] {
      TargetsIn(ds[1..], v);
      if k :| 0 <= k < |ds| && ds[k].targetTaskID == v {
        if k > 0 { assert ds[1..][k - 1].targetTaskID == v; }
      }
      if k :| 0 <= k < |ds[1..]| && ds[1..][k].targetTaskID == v {
        assert ds[k + 1].targetTaskID == v;
      }
    }
  }

  lemma {:induction false} TargetsSnoc(ds: seq<Dependency>, d: Dependency)
    ensures Targets(ds + [d]) == Targets(ds) + multiset{d.targetTaskID}
  {
    if ds == [] {
      assert (ds + [d])[1..] == [];
    } else {
      TargetsSnoc(ds[1..], d);
      assert (ds + [d])[1..] == ds[1..] + [d];
    }
  }

  lemma {:induction false} TargetsSize(ds: seq<Dependency>)
    ensures |Targets(ds)| == |ds|
  {
    if ds != [] { TargetsSize(ds[1..]); }
  }

  /** Incoming edges of every task, counting only edges whose source lies in S. */
  ghost function InEdges(g: Graph, S: set<Id>): multiset<Id>
    requires S <= g.Keys
  {
    if S == {} then multiset{} else
    var u :| u in S; Targets(g[u]) + InEdges(g, S - {u})
  }

  /** The count does not depend on the order in which sources are taken. */
  lemma {:induction false} InEdgesRemove(g: Graph, S: set<Id>, u: Id)
    requires S <= g.Keys && u in S
    ensures InEdges(g, S) == Targets(g[u]) + InEdges(g, S - {u})
    decreases |S|
  {
    var x :| x in S && InEdges(g, S) == Targets(g[x]) + InEdges(g, S - {x});
    if x != u {
      InEdgesRemove(g, S - {x}, u);
      InEdgesRemove(g, S - {u}, x);
      assert S - {x} - {u} == S - {u} - {x};
    }
  }

  lemma {:induction false} InEdgesIn(g: Graph, S: set<Id>, v: Id)
    requires S <= g.Keys
    ensures v in InEdges(g, S) <==> exists u :: u in S && Edge(g, u, v)
    decreases |S|
  {
    if S != {} {
      var x :| x in S && InEdges(g, S) == Targets(g[x]) + InEdges(g, S - {x});
      InEdgesIn(g, S - {x}, v);
      TargetsIn(g[x], v);
    }
  }

  /** Only the successor lists of the counted sources matter. */
  lemma {:induction false} InEdgesSame(g: Graph, h: Graph, S: set<Id>)
    requires S <= g.Keys && S <= h.Keys && forall u :: u in S ==> g[u] == h[u]
    ensures InEdges(g, S) == InEdges(h, S)
    decreases |S|
  {
    if S != {} {
      var x :| x in S;
      InEdgesRemove(g, S, x);
      InEdgesRemove(h, S, x);
      InEdgesSame(g, h, S - {x});
    }
  }

  lemma BothWithout(S: set<Id>, U: set<Id>, x: Id)
    requires S <= U && x in S
    ensures S - {x} <= U - {x} && U - {x} - (S - {x}) == U - S
  {
  }

  lemma {:induction false} InEdgesSplit(g: Graph, S: set<Id>, U: set<Id>)
    requires S <= U <= g.Keys
    ensures InEdges(g, U) == InEdges(g, S) + InEdges(g, U - S)
    decreases |S|
  {
    if S == {} {
      assert U - S == U;
    } else {
      var x :| x in S;
      hide InEdges;
      InEdgesRemove(g, S, x);
      InEdgesRemove(g, U, x);
      BothWithout(S, U, x);
      InEdgesSplit(g, S - {x}, U - {x});
    }
  }

  /** In a union of disjoint closed graphs each task keeps its own incoming edges. */
  lemma InEdgesSides(g: Graph, h: Graph, S: set<Id>, t: Id)
    requires g.Keys !! h.Keys && Closed(g) && Closed(h) && S <= g.Keys && t in g + h
    ensures InEdges(g + h, S + h.Keys)[t] == if t in g then InEdges(g, S)[t] else InEdges(h, h.Keys)[t]
  {
    InEdgesSplit(g + h, S, S + h.Keys);
    assert S + h.Keys - S == h.Keys;
    InEdgesSame(g, g + h, S);
    InEdgesSame(h, g + h, h.Keys);
    InEdgesIn(g, S, t);
    InEdgesIn(h, h.Keys, t);
  }

  ghost function InDegree(g: Graph, t: Id): nat {
    InEdges(g, g.Keys)[t]
  }

  /** An entry task is one with no incoming edge to count. */
  lemma EntryDegree(g: Graph, t: Id)
    requires t in g
    ensures IsEntry(g, t) <==> InDegree(g, t) == 0
  {
    InEdgesIn(g, g.Keys, t);
  }
}
