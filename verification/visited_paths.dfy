/** What the visit-once downward rank computes in every order (internal/scheduler/core.go:538-572): the longest of the
    paths whose tasks are visited in path order. */
module VisitedPaths {
  import opened Api
  import opened Graphs
  import opened LongestPaths

  /** The last task of a path that starts at u and goes on through order[ps[0]], order[ps[1]], ... */
  ghost function Tip(order: seq<Id>, u: Id, ps: seq<nat>): Id {
    if ps == [] || ps[|ps| - 1] >= |order| then u else order[ps[|ps| - 1]]
  }

  /** The path's edges exist, and its tasks after the first are visited one after the other. */
  ghost predicate InOrder(g: Graph, order: seq<Id>, u: Id, ps: seq<nat>) {
    if ps == [] then u in g else
    var n := |ps| - 1;
    && InOrder(g, order, u, ps[..n]) && ps[n] < |order| && (n > 0 ==> ps[n - 1] < ps[n])
    && Edge(g, Tip(order, u, ps[..n]), order[ps[n]])
  }

  /** Its cost: each task but the last runs, and each first edge from task to task is used. */
  ghost function Cost(m: Costs, order: seq<Id>, u: Id, ps: seq<nat>): (r: real)
    requires Good(m) && InOrder(m.g, order, u, ps)
    ensures r >= 0.0
  {
    if ps == [] then 0.0 else
    var n := |ps| - 1;
    var x := Tip(order, u, ps[..n]);
    Cost(m, order, u, ps[..n]) + StepCost(m, x, FirstEdge(m.g, x, order[ps[n]]))
  }

  /** A path that keeps to the first n visits does not depend on the others. */
  lemma {:induction false} EarlyVisits(m: Costs, order: seq<Id>, n: nat, u: Id, ps: seq<nat>)
    requires Good(m) && n <= |order| && (ps != [] ==> ps[|ps| - 1] < n)
    ensures InOrder(m.g, order, u, ps) ==> InOrder(m.g, order[..n], u, ps)
    ensures InOrder(m.g, order[..n], u, ps) ==> InOrder(m.g, order, u, ps)
    ensures Tip(order[..n], u, ps) == Tip(order, u, ps)
    ensures InOrder(m.g, order, u, ps) ==> Cost(m, order[..n], u, ps) == Cost(m, order, u, ps)
    decreases |ps|
  {
    hide Good, StepCost, FirstEdge, Edge;
    if ps != [] {
      var k := |ps| - 1;
      assert order[..n][ps[k]] == order[ps[k]];
      if k == 0 || ps[k - 1] < ps[k] { EarlyVisits(m, order, n, u, ps[..k]); }
    }
  }

  lemma {:induction false} RankedNonNegative(m: Costs, preds: map<Id, seq<Id>>, order: seq<Id>, v: Id)
    requires Good(m) && PredecessorsOf(m.g, preds) && (forall t :: t in order ==> t in m.g) && v in m.g
    ensures Ranked(m, preds, order)[v] >= 0.0
    decreases |order|
  {
    hide Good, PredecessorsOf;
    if order != [] { RankedNonNegative(m, preds, order[..|order| - 1], v); }
  }

  lemma Shorter(order: seq<Id>)
    requires order != [] && NoRepeats(order)
    ensures NoRepeats(order[..|order| - 1]) && forall i :: 0 <= i < |order| - 1 ==> order[i] != order[|order| - 1]
  {
  }

  /** No path visited in order costs more than the rank of its last task. */
  lemma {:induction false} RankedCovers(m: Costs, preds: map<Id, seq<Id>>, order: seq<Id>, u: Id, ps: seq<nat>)
    requires Good(m) && PredecessorsOf(m.g, preds) && (forall t :: t in order ==> t in m.g) && NoRepeats(order)
    requires InOrder(m.g, order, u, ps)
    ensures Tip(order, u, ps) in m.g && Cost(m, order, u, ps) <= Ranked(m, preds, order)[Tip(order, u, ps)]
    decreases |order|
  {
    hide Good, PredecessorsOf, NoRepeats, BestPredecessor, StepCost, FirstEdge, Ranked, Edge;
    if ps == [] {
      RankedNonNegative(m, preds, order, u);
    } else {
      var n, k := |order| - 1, |ps| - 1;
      Shorter(order);
      RankedStep(m, preds, order);
      if ps[k] < n {
        EarlyVisits(m, order, n, u, ps);
        RankedCovers(m, preds, order[..n], u, ps);
      } else {
        EarlyVisits(m, order, n, u, ps[..k]);
        RankedCovers(m, preds, order[..n], u, ps[..k]);
        var x := Tip(order, u, ps[..k]);
        var j := PredecessorAt(m.g, preds, x, order[n]);
        BestPredecessorBounds(m, preds, Ranked(m, preds, order[..n]), order[n], |preds[order[n]]|, j);
      }
    }
  }

  /** The best of at least one predecessor is the cost through one of them. */
  lemma {:induction false} BestPredecessorAttained(m: Costs, preds: map<Id, seq<Id>>, r: map<Id, real>, v: Id, i: nat)
    returns (j: nat)
    requires Good(m) && PredecessorsOf(m.g, preds) && r.Keys == m.g.Keys && v in m.g && 0 < i <= |preds[v]|
    requires forall t :: t in r ==> r[t] >= 0.0
    ensures j < i && Edge(m.g, preds[v][j], v) && preds[v][j] in m.g
    ensures BestPredecessor(m, preds, r, v, i) ==
            r[preds[v][j]] + StepCost(m, preds[v][j], FirstEdge(m.g, preds[v][j], v))
    decreases i
  {
    hide Good, StepCost, FirstEdge;
    var u := preds[v][i - 1];
    assert u in preds[v] && Edge(m.g, u, v);
    j := i - 1;
    if i > 1 && r[u] + StepCost(m, u, FirstEdge(m.g, u, v)) <= BestPredecessor(m, preds, r, v, i - 1) {
      j := BestPredecessorAttained(m, preds, r, v, i - 1);
    }
  }

  lemma HasPredecessors(g: Graph, preds: map<Id, seq<Id>>, v: Id)
    requires PredecessorsOf(g, preds) && v in g && !IsEntry(g, v)
    ensures v in preds && preds[v] != []
  {
    assert forall u :: u in preds[v] <==> Edge(g, u, v);
  }

  /** Some path visited in order costs exactly the rank of its last task. */
  lemma {:induction false} RankedAttained(m: Costs, preds: map<Id, seq<Id>>, order: seq<Id>, v: Id)
    returns (u: Id, ps: seq<nat>)
    requires Good(m) && PredecessorsOf(m.g, preds) && (forall t :: t in order ==> t in m.g && !IsEntry(m.g, t))
    requires v in m.g
    ensures InOrder(m.g, order, u, ps) && Tip(order, u, ps) == v
    ensures Cost(m, order, u, ps) == Ranked(m, preds, order)[v]
    decreases |order|
  {
    hide Good, PredecessorsOf, BestPredecessor, StepCost, FirstEdge, Edge, IsEntry;
    if order == [] {
      u, ps := v, [];
    } else {
      var n := |order| - 1;
      var r := Ranked(m, preds, order[..n]);
      if v != order[n] {
        u, ps := RankedAttained(m, preds, order[..n], v);
        EarlyVisits(m, order, n, u, ps);
      } else {
        HasPredecessors(m.g, preds, v);
        forall t | t in m.g ensures r[t] >= 0.0 { RankedNonNegative(m, preds, order[..n], t); }
        var j := BestPredecessorAttained(m, preds, r, v, |preds[v]|);
        var qs;
        u, qs := RankedAttained(m, preds, order[..n], preds[v][j]);
        EarlyVisits(m, order, n, u, qs);
        ps := qs + [n];
        OneMoreVisit(m, order, u, qs, preds[v][j]);
      }
    }
  }

  lemma OneMoreVisit(m: Costs, order: seq<Id>, u: Id, qs: seq<nat>, x: Id)
    requires Good(m) && order != [] && InOrder(m.g, order, u, qs) && Tip(order, u, qs) == x
    requires (qs != [] ==> qs[|qs| - 1] < |order| - 1) && Edge(m.g, x, order[|order| - 1])
    ensures var ps := qs + [|order| - 1];
            && InOrder(m.g, order, u, ps) && Tip(order, u, ps) == order[|order| - 1]
            && Cost(m, order, u, ps) == Cost(m, order, u, qs) + StepCost(m, x, FirstEdge(m.g, x, order[|order| - 1]))
  {
    hide Good, StepCost, FirstEdge, Edge;
    assert (qs + [|order| - 1])[..|qs|] == qs;
  }

  /** r is the cost of a path to v visited in order, and no such path costs more. */
  ghost predicate BestVisited(m: Costs, order: seq<Id>, v: Id, r: real)
    requires Good(m)
  {
    && (exists u, ps :: InOrder(m.g, order, u, ps) && Tip(order, u, ps) == v && Cost(m, order, u, ps) == r)
    && forall u, ps :: InOrder(m.g, order, u, ps) && Tip(order, u, ps) == v ==> Cost(m, order, u, ps) <= r
  }

  /** In every visiting order, parallel edges or not, the downward rank is the longest path visited in order. */
  lemma RankedIsBestVisited(m: Costs, preds: map<Id, seq<Id>>, order: seq<Id>, v: Id)
    requires Good(m) && PredecessorsOf(m.g, preds) && (forall t :: t in order ==> t in m.g && !IsEntry(m.g, t))
    requires NoRepeats(order) && v in m.g
    ensures BestVisited(m, order, v, Ranked(m, preds, order)[v])
  {
    hide Good, PredecessorsOf, NoRepeats, Ranked, IsEntry, InOrder, Cost, Tip;
    var u, ps := RankedAttained(m, preds, order, v);
    forall x, qs | InOrder(m.g, order, x, qs) && Tip(order, x, qs) == v
      ensures Cost(m, order, x, qs) <= Ranked(m, preds, order)[v]
    {
      RankedCovers(m, preds, order, x, qs);
    }
  }

  /** Some longest path to v is visited in order. */
  ghost predicate LongestVisited(m: Costs, order: seq<Id>, v: Id)
    requires Good(m)
  {
    exists u, ps :: InOrder(m.g, order, u, ps) && Tip(order, u, ps) == v && IsDownwardRank(m, v, Cost(m, order, u, ps))
  }

  /** Exactly when the code's downward rank is the longest path from an entry task. */
  lemma ExactIffLongestVisited(m: Costs, preds: map<Id, seq<Id>>, order: seq<Id>, v: Id)
    requires Good(m) && PredecessorsOf(m.g, preds) && (forall t :: t in order ==> t in m.g && !IsEntry(m.g, t))
    requires NoRepeats(order) && v in m.g
    ensures IsDownwardRank(m, v, Ranked(m, preds, order)[v]) <==> LongestVisited(m, order, v)
  {
    hide Good, PredecessorsOf, NoRepeats, Ranked, IsEntry, InOrder, Cost, Tip, IsDownwardRank;
    var r := Ranked(m, preds, order)[v];
    RankedIsBestVisited(m, preds, order, v);
    if LongestVisited(m, order, v) {
      var u, ps :| InOrder(m.g, order, u, ps) && Tip(order, u, ps) == v && IsDownwardRank(m, v, Cost(m, order, u, ps));
      RankedBound(m, preds, order, v);
      NothingLonger(m, v, Cost(m, order, u, ps), r);
    }
  }

  lemma NothingLonger(m: Costs, v: Id, longest: real, r: real)
    requires Good(m) && IsDownwardRank(m, v, longest) && ReachedAtCost(m, v, r)
    ensures r <= longest
  {
    hide Good, IsEntry;
  }
}
