/** Longest weighted walks: what the ranks of Algorithm 1 of the DPLS paper stand for. */
module LongestPaths {
  import opened Api
  import opened Graphs

  /** A DAG with its computation costs, under the worst-case compute speed and bandwidth. */
  datatype Costs = Costs(g: Graph, work: map<Id, int>, minComp: real, minBand: real)

  ghost predicate Good(m: Costs) {
    && Closed(m.g) && Acyclic(m.g) && m.work.Keys == m.g.Keys && m.minComp > 0.0 && m.minBand > 0.0
    && (forall t :: t in m.work ==> m.work[t] >= 0)
    && (forall t, k :: t in m.g && 0 <= k < |m.g[t]| ==> m.g[t][k].dataSize >= 0)
  }

  /** Worst-case execution time. */
  function Exec(work: int, minComp: real): (r: real)
    requires minComp > 0.0
    ensures work >= 0 ==> r >= 0.0
  {
    work as real / minComp
  }

  /** Worst-case transmission time. */
  function Comm(d: Dependency, minBand: real): (r: real)
    requires minBand > 0.0
    ensures d.dataSize >= 0 ==> r >= 0.0
  {
    d.dataSize as real / (minBand * 1024.0 * 1024.0)
  }

  ghost predicate IsExit(g: Graph, t: Id) {
    t in g && g[t] == []
  }

  /** Computing at u and sending over its k-th edge. */
  ghost function StepCost(m: Costs, u: Id, k: nat): (r: real)
    requires Good(m) && u in m.g && k < |m.g[u]|
    ensures r >= 0.0
  {
    Exec(m.work[u], m.minComp) + Comm(m.g[u][k], m.minBand)
  }

  ghost function StepSum(m: Costs, u: Id, ks: seq<nat>): (r: real)
    requires Good(m) && Walk(m.g, u, ks)
    ensures r >= 0.0
    decreases |ks|
  {
    if ks == [] then 0.0 else StepCost(m, u, ks[0]) + StepSum(m, m.g[u][ks[0]].targetTaskID, ks[1..])
  }

  lemma {:induction false} EndInGraph(m: Costs, u: Id, ks: seq<nat>)
    requires Good(m) && Walk(m.g, u, ks)
    ensures End(m.g, u, ks) in m.g
    decreases |ks|
  {
    if ks != [] { EndInGraph(m, m.g[u][ks[0]].targetTaskID, ks[1..]); }
  }

  /** Cost of a walk including the computation at its end. */
  ghost function PathCost(m: Costs, u: Id, ks: seq<nat>): real
    requires Good(m) && Walk(m.g, u, ks)
  {
    EndInGraph(m, u, ks);
    StepSum(m, u, ks) + Exec(m.work[End(m.g, u, ks)], m.minComp)
  }

  lemma {:induction false} StepSumAppend(m: Costs, u: Id, ks: seq<nat>, ms: seq<nat>)
    requires Good(m) && Walk(m.g, u, ks) && Walk(m.g, End(m.g, u, ks), ms)
    ensures Walk(m.g, u, ks + ms) && End(m.g, u, ks + ms) == End(m.g, End(m.g, u, ks), ms)
    ensures StepSum(m, u, ks + ms) == StepSum(m, u, ks) + StepSum(m, End(m.g, u, ks), ms)
    decreases |ks|
  {
    WalkAppend(m.g, u, ks, ms);
    if ks == [] {
      assert ks + ms == ms;
    } else {
      StepSumAppend(m, m.g[u][ks[0]].targetTaskID, ks[1..], ms);
      assert (ks + ms)[1..] == ks[1..] + ms;
    }
  }

  // ---------- upward rank ----------

  /** The plain recursion, before memoisation. */
  ghost function Up(m: Costs, u: Id): (r: real)
    requires Good(m) && u in m.g
    ensures r >= 0.0
    decreases Topo(m.g)[u], |m.g[u]| + 1
  {
    Exec(m.work[u], m.minComp) + BestSuccessor(m, u, |m.g[u]|)
  }

  ghost function BestSuccessor(m: Costs, u: Id, i: nat): (r: real)
    requires Good(m) && u in m.g && i <= |m.g[u]|
    ensures r >= 0.0
    decreases Topo(m.g)[u], i
  {
    if i == 0 then 0.0 else
    var cost := Comm(m.g[u][i - 1], m.minBand) + Up(m, m.g[u][i - 1].targetTaskID);
    var best := BestSuccessor(m, u, i - 1);
    if cost > best then cost else best
  }

  /** r is the largest cost of a walk from u, and some walk to an exit task attains it. */
  ghost predicate IsUpwardRank(m: Costs, u: Id, r: real)
    requires Good(m)
  {
    && (forall ks :: Walk(m.g, u, ks) ==> PathCost(m, u, ks) <= r)
    && exists ks :: Walk(m.g, u, ks) && IsExit(m.g, End(m.g, u, ks)) && PathCost(m, u, ks) == r
  }

  lemma {:induction false} BestSuccessorBounds(m: Costs, u: Id, i: nat, k: nat)
    requires Good(m) && u in m.g && k < i <= |m.g[u]|
    ensures Comm(m.g[u][k], m.minBand) + Up(m, m.g[u][k].targetTaskID) <= BestSuccessor(m, u, i)
    decreases i
  {
    if k < i - 1 { BestSuccessorBounds(m, u, i - 1, k); }
  }

  lemma {:induction false} BestSuccessorAttained(m: Costs, u: Id, i: nat) returns (k: nat)
    requires Good(m) && u in m.g && 0 < i <= |m.g[u]|
    ensures k < i && BestSuccessor(m, u, i) == Comm(m.g[u][k], m.minBand) + Up(m, m.g[u][k].targetTaskID)
    decreases i
  {
    if i == 1 || BestSuccessor(m, u, i) > BestSuccessor(m, u, i - 1) {
      k := i - 1;
    } else {
      k := BestSuccessorAttained(m, u, i - 1);
    }
  }

  lemma {:induction false} WalkBelowUp(m: Costs, u: Id, ks: seq<nat>)
    requires Good(m) && Walk(m.g, u, ks)
    ensures PathCost(m, u, ks) <= Up(m, u)
    decreases |ks|
  {
    if ks != [] {
      WalkBelowUp(m, m.g[u][ks[0]].targetTaskID, ks[1..]);
      BestSuccessorBounds(m, u, |m.g[u]|, ks[0]);
    }
  }

  lemma {:induction false} UpAttained(m: Costs, u: Id) returns (ks: seq<nat>)
    requires Good(m) && u in m.g
    ensures Walk(m.g, u, ks) && IsExit(m.g, End(m.g, u, ks)) && PathCost(m, u, ks) == Up(m, u)
    decreases Topo(m.g)[u]
  {
    if m.g[u] == [] {
      ks := [];
    } else {
      var k := BestSuccessorAttained(m, u, |m.g[u]|);
      var rest := UpAttained(m, m.g[u][k].targetTaskID);
      ks := [k] + rest;
      assert ks[1..] == rest;
    }
  }

  /** The upward rank is the longest path to an exit. */
  lemma UpIsLongest(m: Costs, u: Id)
    requires Good(m) && u in m.g
    ensures IsUpwardRank(m, u, Up(m, u))
  {
    forall ks | Walk(m.g, u, ks) ensures PathCost(m, u, ks) <= Up(m, u) { WalkBelowUp(m, u, ks); }
    var ks := UpAttained(m, u);
  }

  // ---------- downward rank ----------

  /** r is the largest cost, before v itself runs, of a walk to v, and some walk from an entry task attains it. */
  ghost predicate IsDownwardRank(m: Costs, v: Id, r: real)
    requires Good(m)
  {
    && Dominates(m, v, r)
    && exists e, ks :: IsEntry(m.g, e) && Walk(m.g, e, ks) && End(m.g, e, ks) == v && StepSum(m, e, ks) == r
  }

  /** r is at least the cost of every walk to v. */
  ghost predicate Dominates(m: Costs, v: Id, r: real)
    requires Good(m)
  {
    forall x, ks :: Walk(m.g, x, ks) && End(m.g, x, ks) == v ==> StepSum(m, x, ks) <= r
  }

  /** Some walk from an entry task to v costs at least r. */
  ghost predicate ReachedAtCost(m: Costs, v: Id, r: real)
    requires Good(m)
  {
    exists e, ks :: IsEntry(m.g, e) && Walk(m.g, e, ks) && End(m.g, e, ks) == v && StepSum(m, e, ks) >= r
  }

  /** Walking further back only adds cost. */
  lemma WalkFromEntry(m: Costs, x: Id, ks: seq<nat>)
    requires Good(m) && Walk(m.g, x, ks)
    ensures ReachedAtCost(m, End(m.g, x, ks), StepSum(m, x, ks))
  {
    var e, ms := FromEntry(m.g, x);
    StepSumAppend(m, e, ms, ks);
    assert IsEntry(m.g, e);
  }

  /** The first edge from u to v, the one whose data size the code uses. */
  ghost function FirstEdge(g: Graph, u: Id, v: Id): (k: nat)
    requires Edge(g, u, v)
    ensures k < |g[u]| && g[u][k].targetTaskID == v
    ensures forall i :: 0 <= i < k ==> g[u][i].targetTaskID != v
  {
    FirstFrom(g[u], v, 0)
  }

  ghost function FirstFrom(ds: seq<Dependency>, v: Id, i: nat): (k: nat)
    requires exists j :: i <= j < |ds| && ds[j].targetTaskID == v
    ensures i <= k < |ds| && ds[k].targetTaskID == v
    ensures forall j :: i <= j < k ==> ds[j].targetTaskID != v
    decreases |ds| - i
  {
    if ds[i].targetTaskID == v then i else FirstFrom(ds, v, i + 1)
  }

  /** The predecessor lists name exactly the sources of incoming edges. */
  ghost predicate PredecessorsOf(g: Graph, preds: map<Id, seq<Id>>) {
    preds.Keys == g.Keys && forall u, v :: v in g ==> (u in preds[v] <==> Edge(g, u, v))
  }

  /** The best cost over the first i predecessors of v, from the ranks r as they stand. */
  ghost function BestPredecessor(m: Costs, preds: map<Id, seq<Id>>, r: map<Id, real>, v: Id, i: nat): (best: real)
    requires Good(m) && PredecessorsOf(m.g, preds) && r.Keys == m.g.Keys && v in m.g && i <= |preds[v]|
    ensures best >= 0.0
  {
    if i == 0 then 0.0 else
    var u := preds[v][i - 1];
    assert u in preds[v] && Edge(m.g, u, v);
    var cost := r[u] + StepCost(m, u, FirstEdge(m.g, u, v));
    var best := BestPredecessor(m, preds, r, v, i - 1);
    if cost > best then cost else best
  }

  /** The ranks after visiting the tasks in the given order: each visit takes the other ranks as they are. */
  ghost function Ranked(m: Costs, preds: map<Id, seq<Id>>, order: seq<Id>): (r: map<Id, real>)
    requires Good(m) && PredecessorsOf(m.g, preds) && forall v :: v in order ==> v in m.g
    ensures r.Keys == m.g.Keys
  {
    if order == [] then map t | t in m.g :: 0.0 else
    var n := |order| - 1;
    var r := Ranked(m, preds, order[..n]);
    r[order[n] := BestPredecessor(m, preds, r, order[n], |preds[order[n]]|)]
  }

  /** One more visit changes the visited task's rank only. */
  lemma RankedStep(m: Costs, preds: map<Id, seq<Id>>, order: seq<Id>)
    requires Good(m) && PredecessorsOf(m.g, preds) && (forall t :: t in order ==> t in m.g) && order != []
    ensures var n := |order| - 1; var r := Ranked(m, preds, order[..n]);
            Ranked(m, preds, order) == r[order[n] := BestPredecessor(m, preds, r, order[n], |preds[order[n]]|)]
  {
    hide Good, PredecessorsOf, BestPredecessor;
  }

  /** A task that is never visited keeps rank zero. */
  lemma {:induction false} UnvisitedRank(m: Costs, preds: map<Id, seq<Id>>, order: seq<Id>, v: Id)
    requires Good(m) && PredecessorsOf(m.g, preds) && (forall t :: t in order ==> t in m.g) && v in m.g && v !in order
    ensures Ranked(m, preds, order)[v] == 0.0
    decreases |order|
  {
    if order != [] { UnvisitedRank(m, preds, order[..|order| - 1], v); }
  }

  /** Some walk to v costs exactly r. */
  ghost predicate WalkCosts(m: Costs, v: Id, r: real)
    requires Good(m)
  {
    exists x, ks :: Walk(m.g, x, ks) && End(m.g, x, ks) == v && StepSum(m, x, ks) == r
  }

  lemma NoSteps(m: Costs, v: Id)
    requires Good(m) && v in m.g
    ensures WalkCosts(m, v, 0.0)
  {
    assert Walk(m.g, v, []) && StepSum(m, v, []) == 0.0;
  }

  lemma OneStep(m: Costs, u: Id, k: nat)
    requires Good(m) && u in m.g && k < |m.g[u]|
    ensures Walk(m.g, u, [k]) && End(m.g, u, [k]) == m.g[u][k].targetTaskID && StepSum(m, u, [k]) == StepCost(m, u, k)
  {
    assert [k][0] == k && [k][1..] == [];
    assert StepSum(m, m.g[u][k].targetTaskID, []) == 0.0;
  }

  lemma WalkOneMore(m: Costs, u: Id, r: real, k: nat)
    requires Good(m) && WalkCosts(m, u, r) && u in m.g && k < |m.g[u]|
    ensures WalkCosts(m, m.g[u][k].targetTaskID, r + StepCost(m, u, k))
  {
    var x, ks :| Walk(m.g, x, ks) && End(m.g, x, ks) == u && StepSum(m, x, ks) == r;
    OneStep(m, u, k);
    StepSumAppend(m, x, ks, [k]);
  }

  lemma {:induction false} BestPredecessorWalk(m: Costs, preds: map<Id, seq<Id>>, r: map<Id, real>, v: Id, i: nat)
    requires Good(m) && PredecessorsOf(m.g, preds) && r.Keys == m.g.Keys && v in m.g && i <= |preds[v]|
    requires forall t :: t in r ==> WalkCosts(m, t, r[t])
    ensures WalkCosts(m, v, BestPredecessor(m, preds, r, v, i))
    decreases i
  {
    hide WalkCosts, Good, StepCost, FirstEdge;
    if i == 0 {
      NoSteps(m, v);
    } else {
      BestPredecessorWalk(m, preds, r, v, i - 1);
      var u := preds[v][i - 1];
      assert u in preds[v] && Edge(m.g, u, v);
      WalkOneMore(m, u, r[u], FirstEdge(m.g, u, v));
    }
  }

  /** Whatever the visiting order, every rank is the cost of a real walk. */
  lemma {:induction false} RankedWalk(m: Costs, preds: map<Id, seq<Id>>, order: seq<Id>)
    requires Good(m) && PredecessorsOf(m.g, preds) && forall v :: v in order ==> v in m.g
    ensures forall t :: t in m.g ==> WalkCosts(m, t, Ranked(m, preds, order)[t])
    decreases |order|
  {
    hide WalkCosts, Good, BestPredecessor;
    if order == [] {
      forall t | t in m.g ensures WalkCosts(m, t, 0.0) { NoSteps(m, t); }
    } else {
      var n := |order| - 1;
      RankedWalk(m, preds, order[..n]);
      BestPredecessorWalk(m, preds, Ranked(m, preds, order[..n]), order[n], |preds[order[n]]|);
    }
  }

  /** A walk to v followed by the best path onward is a path from its start. */
  lemma ThroughBound(m: Costs, e: Id, ks: seq<nat>, v: Id)
    requires Good(m) && Walk(m.g, e, ks) && End(m.g, e, ks) == v
    ensures v in m.g && StepSum(m, e, ks) + Up(m, v) <= Up(m, e)
  {
    EndInGraph(m, e, ks);
    var ms := UpAttained(m, v);
    StepSumAppend(m, e, ks, ms);
    WalkBelowUp(m, e, ks + ms);
  }

  /** So no rank exceeds the longest path from an entry, and upward plus downward rank no entry's upward rank. */
  lemma RankedBound(m: Costs, preds: map<Id, seq<Id>>, order: seq<Id>, v: Id)
    requires Good(m) && PredecessorsOf(m.g, preds) && (forall t :: t in order ==> t in m.g) && v in m.g
    ensures ReachedAtCost(m, v, Ranked(m, preds, order)[v])
    ensures exists e :: IsEntry(m.g, e) && Ranked(m, preds, order)[v] + Up(m, v) <= Up(m, e)
  {
    hide Ranked, PredecessorsOf, WalkCosts;
    RankedWalk(m, preds, order);
    WalkCostBound(m, v, Ranked(m, preds, order)[v]);
  }

  lemma WalkCostBound(m: Costs, v: Id, r: real)
    requires Good(m) && WalkCosts(m, v, r) && v in m.g
    ensures ReachedAtCost(m, v, r) && exists e :: IsEntry(m.g, e) && r + Up(m, v) <= Up(m, e)
  {
    hide Good, IsEntry, Up;
    var x, ks :| Walk(m.g, x, ks) && End(m.g, x, ks) == v && StepSum(m, x, ks) == r;
    WalkFromEntry(m, x, ks);
    var e, ms :| IsEntry(m.g, e) && Walk(m.g, e, ms) && End(m.g, e, ms) == v && StepSum(m, e, ms) >= r;
    EntryInGraph(m.g, e);
    ThroughBound(m, e, ms, v);
  }

  lemma EntryInGraph(g: Graph, e: Id)
    requires IsEntry(g, e)
    ensures e in g
  {
  }

  // ---------- when the downward rank is exact ----------

  /** Each task comes after all its predecessors that are not entry tasks. */
  ghost predicate PredecessorsFirst(g: Graph, order: seq<Id>) {
    forall k, u :: 0 <= k < |order| && Edge(g, u, order[k]) ==> IsEntry(g, u) || u in order[..k]
  }

  ghost predicate NoParallelEdges(g: Graph) {
    forall u, i, j ::
      u in g && 0 <= i < |g[u]| && 0 <= j < |g[u]| && g[u][i].targetTaskID == g[u][j].targetTaskID ==> i == j
  }

  ghost predicate NoRepeats(order: seq<Id>) {
    forall i, j :: 0 <= i < j < |order| ==> order[i] != order[j]
  }

  lemma {:induction false} BestPredecessorBounds(m: Costs, preds: map<Id, seq<Id>>, r: map<Id, real>, v: Id, i: nat,
                                                 j: nat)
    requires Good(m) && PredecessorsOf(m.g, preds) && r.Keys == m.g.Keys && v in m.g && j < i <= |preds[v]|
    ensures Edge(m.g, preds[v][j], v)
    ensures r[preds[v][j]] + StepCost(m, preds[v][j], FirstEdge(m.g, preds[v][j], v)) <=
            BestPredecessor(m, preds, r, v, i)
    decreases i
  {
    if j < i - 1 {
      BestPredecessorBounds(m, preds, r, v, i - 1, j);
    } else {
      assert preds[v][j] in preds[v];
    }
  }

  /** Splitting off the last step of a walk. */
  lemma {:induction false} LastStep(m: Costs, x: Id, ks: seq<nat>) returns (u: Id, k: nat)
    requires Good(m) && Walk(m.g, x, ks) && ks != []
    ensures Walk(m.g, x, ks[..|ks| - 1]) && End(m.g, x, ks[..|ks| - 1]) == u && u in m.g
    ensures k < |m.g[u]| && m.g[u][k].targetTaskID == End(m.g, x, ks)
    ensures StepSum(m, x, ks) == StepSum(m, x, ks[..|ks| - 1]) + StepCost(m, u, k)
    decreases |ks|
  {
    if |ks| == 1 {
      u, k := x, ks[0];
      assert ks[1..] == [] && ks[..0] == [];
    } else {
      u, k := LastStep(m, m.g[x][ks[0]].targetTaskID, ks[1..]);
      assert ks[1..][..|ks[1..]| - 1] == ks[..|ks| - 1][1..];
    }
  }

  lemma EntryDominated(m: Costs, v: Id)
    requires Good(m) && IsEntry(m.g, v)
    ensures Dominates(m, v, 0.0)
  {
    forall x, ks | Walk(m.g, x, ks) && ks != [] ensures !IsEntry(m.g, End(m.g, x, ks)) {
      StepsLeaveEntries(m, x, ks);
    }
  }

  /** A walk with at least one step does not end at an entry task. */
  lemma StepsLeaveEntries(m: Costs, x: Id, ks: seq<nat>)
    requires Good(m) && Walk(m.g, x, ks) && ks != []
    ensures !IsEntry(m.g, End(m.g, x, ks))
  {
    var u, k := LastStep(m, x, ks);
    assert Edge(m.g, u, End(m.g, x, ks));
  }

  /** If all predecessors of v already dominate, so does v once visited. */
  lemma VisitDominates(m: Costs, preds: map<Id, seq<Id>>, r: map<Id, real>, v: Id)
    requires Good(m) && PredecessorsOf(m.g, preds) && r.Keys == m.g.Keys && v in m.g && NoParallelEdges(m.g)
    requires forall u :: Edge(m.g, u, v) && u in r ==> Dominates(m, u, r[u])
    ensures Dominates(m, v, BestPredecessor(m, preds, r, v, |preds[v]|))
  {
    hide Good, Dominates;
    var best := BestPredecessor(m, preds, r, v, |preds[v]|);
    forall x, ks | Walk(m.g, x, ks) && End(m.g, x, ks) == v ensures StepSum(m, x, ks) <= best {
      if ks != [] { WalkBelowBest(m, preds, r, v, x, ks); }
    }
    DominatesIf(m, v, best);
  }

  lemma DominatesIf(m: Costs, v: Id, r: real)
    requires Good(m) && forall x, ks :: Walk(m.g, x, ks) && End(m.g, x, ks) == v ==> StepSum(m, x, ks) <= r
    ensures Dominates(m, v, r)
  {
  }

  lemma WalkBelowBest(m: Costs, preds: map<Id, seq<Id>>, r: map<Id, real>, v: Id, x: Id, ks: seq<nat>)
    requires Good(m) && PredecessorsOf(m.g, preds) && r.Keys == m.g.Keys && v in m.g && NoParallelEdges(m.g)
    requires forall u :: Edge(m.g, u, v) && u in r ==> Dominates(m, u, r[u])
    requires Walk(m.g, x, ks) && ks != [] && End(m.g, x, ks) == v
    ensures StepSum(m, x, ks) <= BestPredecessor(m, preds, r, v, |preds[v]|)
  {
    hide Good, BestPredecessor, StepCost, PredecessorsOf, NoParallelEdges, Edge, FirstEdge;
    var u, k := LastStep(m, x, ks);
    OnlyEdge(m.g, u, v, k);
    var j := PredecessorAt(m.g, preds, u, v);
    BestPredecessorBounds(m, preds, r, v, |preds[v]|, j);
  }

  lemma OnlyEdge(g: Graph, u: Id, v: Id, k: nat)
    requires NoParallelEdges(g) && u in g && k < |g[u]| && g[u][k].targetTaskID == v
    ensures Edge(g, u, v) && FirstEdge(g, u, v) == k
  {
  }

  lemma PredecessorAt(g: Graph, preds: map<Id, seq<Id>>, u: Id, v: Id) returns (j: nat)
    requires PredecessorsOf(g, preds) && Edge(g, u, v) && v in g
    ensures v in preds && j < |preds[v]| && preds[v][j] == u
  {
    assert u in preds[v];
    j :| 0 <= j < |preds[v]| && preds[v][j] == u;
  }

  lemma PrefixFits(g: Graph, order: seq<Id>, v: Id)
    requires order != [] && PredecessorsFirst(g, order) && NoRepeats(order)
    requires forall t :: t in order ==> t in g && !IsEntry(g, t)
    ensures var first := order[..|order| - 1];
            && PredecessorsFirst(g, first) && NoRepeats(first) && (forall t :: t in first ==> t in g && !IsEntry(g, t))
            && (v in order && v != order[|order| - 1] ==> v in first)
  {
    var n := |order| - 1;
    var first := order[..n];
    forall k, u | 0 <= k < n && Edge(g, u, first[k]) ensures IsEntry(g, u) || u in first[..k] {
      assert order[..k] == first[..k] && order[k] == first[k];
    }
    assert order == first + [order[n]];
  }

  /** With predecessors first and no parallel edges, every visited task dominates all walks to it. */
  lemma {:induction false} RankedDominates(m: Costs, preds: map<Id, seq<Id>>, order: seq<Id>, v: Id)
    requires Good(m) && PredecessorsOf(m.g, preds) && (forall t :: t in order ==> t in m.g && !IsEntry(m.g, t))
    requires PredecessorsFirst(m.g, order) && NoRepeats(order) && NoParallelEdges(m.g)
    requires v in m.g && (IsEntry(m.g, v) || v in order)
    ensures Dominates(m, v, Ranked(m, preds, order)[v])
    decreases |order|
  {
    hide Dominates, NoRepeats, NoParallelEdges, Good, BestPredecessor, IsEntry;
    if order == [] {
      EntryDominated(m, v);
    } else {
      var n := |order| - 1;
      PrefixFits(m.g, order, v);
      if v != order[n] {
        RankedDominates(m, preds, order[..n], v);
      } else {
        var r := Ranked(m, preds, order[..n]);
        forall u | Edge(m.g, u, v) && u in r ensures Dominates(m, u, r[u]) {
          RankedDominates(m, preds, order[..n], u);
        }
        VisitDominates(m, preds, r, v);
      }
    }
  }

  /** Then the code's downward rank is the longest path from an entry task. */
  lemma RankedExact(m: Costs, preds: map<Id, seq<Id>>, order: seq<Id>, v: Id)
    requires Good(m) && PredecessorsOf(m.g, preds) && (forall t :: t in order ==> t in m.g && !IsEntry(m.g, t))
    requires PredecessorsFirst(m.g, order) && NoRepeats(order) && NoParallelEdges(m.g)
    requires v in m.g && (IsEntry(m.g, v) || v in order)
    ensures IsDownwardRank(m, v, Ranked(m, preds, order)[v])
  {
    var r := Ranked(m, preds, order)[v];
    RankedDominates(m, preds, order, v);
    RankedBound(m, preds, order, v);
    var e, ks :| IsEntry(m.g, e) && Walk(m.g, e, ks) && End(m.g, e, ks) == v && StepSum(m, e, ks) >= r;
    assert StepSum(m, e, ks) == r;
  }
}
