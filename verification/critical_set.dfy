/** The critical set of Algorithm 1 (internal/scheduler/core.go:590-616): tasks whose ranks add up to the source's. */
module CriticalSet {
  import opened Api
  import opened Graphs
  import opened LongestPaths
  import opened Preorder
  import opened VisitedPaths

  /** v lies on a walk from e to an exit that no walk from e exceeds in cost. */
  ghost predicate OnLongestPath(m: Costs, e: Id, v: Id)
    requires Good(m) && e in m.g
  {
    exists ks, ms :: Walk(m.g, e, ks) && End(m.g, e, ks) == v && FinishesAt(m, e, ks, ms, Up(m, e))
  }

  ghost predicate FinishesAt(m: Costs, e: Id, ks: seq<nat>, ms: seq<nat>, cost: real)
    requires Good(m) && Walk(m.g, e, ks)
  {
    && Walk(m.g, End(m.g, e, ks), ms) && IsExit(m.g, End(m.g, End(m.g, e, ks), ms))
    && StepSum(m, e, ks) + PathCost(m, End(m.g, e, ks), ms) == cost
  }

  ghost predicate OnlyEntry(g: Graph, e: Id) {
    IsEntry(g, e) && forall x :: IsEntry(g, x) ==> x == e
  }

  /** Soundness, whatever the visiting order: with one entry, ranks that add up to its rank name a longest path. */
  lemma CriticalSound(m: Costs, preds: map<Id, seq<Id>>, order: seq<Id>, e: Id, v: Id)
    requires Good(m) && PredecessorsOf(m.g, preds) && (forall t :: t in order ==> t in m.g) && v in m.g
    requires OnlyEntry(m.g, e) && Up(m, v) + Ranked(m, preds, order)[v] == Up(m, e)
    ensures OnLongestPath(m, e, v)
  {
    hide Ranked, PredecessorsOf, Good;
    var r := Ranked(m, preds, order)[v];
    RankedBound(m, preds, order, v);
    var x, ks :| IsEntry(m.g, x) && Walk(m.g, x, ks) && End(m.g, x, ks) == v && StepSum(m, x, ks) >= r;
    ThroughBound(m, e, ks, v);
    var ms := UpAttained(m, v);
    assert FinishesAt(m, e, ks, ms, Up(m, e));
  }

  /** Completeness, when the downward rank is exact: everything on a longest path is found. */
  lemma CriticalComplete(m: Costs, e: Id, v: Id, r: real)
    requires Good(m) && e in m.g && v in m.g && OnLongestPath(m, e, v)
    requires Dominates(m, v, r) && exists ks :: Walk(m.g, e, ks) && End(m.g, e, ks) == v && StepSum(m, e, ks) == r
    ensures Up(m, v) + r == Up(m, e)
  {
    hide Good;
    var best :| Walk(m.g, e, best) && End(m.g, e, best) == v && StepSum(m, e, best) == r;
    ThroughBound(m, e, best, v);
    var ks, ms :| Walk(m.g, e, ks) && End(m.g, e, ks) == v && FinishesAt(m, e, ks, ms, Up(m, e));
    WalkBelowUp(m, v, ms);
  }

  /** Ranks that add up to the entry's leave no longer way to the task. */
  lemma AddingUpIsExact(m: Costs, e: Id, v: Id, r: real)
    requires Good(m) && OnlyEntry(m.g, e) && v in m.g && ReachedAtCost(m, v, r) && Up(m, v) + r == Up(m, e)
    ensures IsDownwardRank(m, v, r)
  {
    hide Good, Up, Dominates, ReachedAtCost;
    forall x, ks | Walk(m.g, x, ks) && End(m.g, x, ks) == v ensures StepSum(m, x, ks) <= r {
      BelowAddedUp(m, e, v, x, ks);
    }
    DominatesIf(m, v, r);
    BestAttained(m, v, r);
  }

  lemma BelowAddedUp(m: Costs, e: Id, v: Id, x: Id, ks: seq<nat>)
    requires Good(m) && OnlyEntry(m.g, e) && Walk(m.g, x, ks) && End(m.g, x, ks) == v
    ensures v in m.g && StepSum(m, x, ks) + Up(m, v) <= Up(m, e)
  {
    hide Good, Up;
    WalkFromEntry(m, x, ks);
    var y, ms :| IsEntry(m.g, y) && Walk(m.g, y, ms) && End(m.g, y, ms) == v && StepSum(m, y, ms) >= StepSum(m, x, ks);
    ThroughBound(m, y, ms, v);
  }

  lemma BestAttained(m: Costs, v: Id, r: real)
    requires Good(m) && Dominates(m, v, r) && ReachedAtCost(m, v, r)
    ensures IsDownwardRank(m, v, r)
  {
    hide Good, IsEntry;
    var e, ks :| IsEntry(m.g, e) && Walk(m.g, e, ks) && End(m.g, e, ks) == v && StepSum(m, e, ks) >= r;
    assert StepSum(m, e, ks) == r;
  }

  /** In every visiting order: a single-entry DAG's task is found critical exactly when it lies on a longest path and
      some longest path to it is visited in order. */
  lemma CriticalIff(m: Costs, preds: map<Id, seq<Id>>, es: seq<Id>, e: Id, v: Id)
    requires Good(m) && PredecessorsOf(m.g, preds) && AreEntries(m.g, es) && (forall x :: IsEntry(m.g, x) ==> x in es)
    requires OnlyEntry(m.g, e) && v in m.g
    ensures forall t :: t in FromEntries(m.g, es) ==> t in m.g
    ensures Up(m, v) + Ranked(m, preds, FromEntries(m.g, es))[v] == Up(m, e) <==>
            OnLongestPath(m, e, v) && LongestVisited(m, FromEntries(m.g, es), v)
  {
    SearchCovers(m.g, es);
    var order := FromEntries(m.g, es);
    hide Good, PredecessorsOf, FromEntries, Ranked, Up, LongestVisited, OnLongestPath, IsEntry, IsDownwardRank;
    var r := Ranked(m, preds, order)[v];
    ExactIffLongestVisited(m, preds, order, v);
    if Up(m, v) + r == Up(m, e) {
      CriticalSound(m, preds, order, e, v);
      RankedBound(m, preds, order, v);
      AddingUpIsExact(m, e, v, r);
    } else if OnLongestPath(m, e, v) && LongestVisited(m, order, v) {
      ExactAddsUp(m, e, v, r);
    }
  }

  lemma ExactAddsUp(m: Costs, e: Id, v: Id, r: real)
    requires Good(m) && OnlyEntry(m.g, e) && v in m.g && OnLongestPath(m, e, v) && IsDownwardRank(m, v, r)
    ensures Up(m, v) + r == Up(m, e)
  {
    hide Good, Dominates, Up, OnLongestPath;
    var x, ks :| IsEntry(m.g, x) && Walk(m.g, x, ks) && End(m.g, x, ks) == v && StepSum(m, x, ks) == r;
    CriticalComplete(m, e, v, r);
  }

  /** With one entry, predecessors visited first and no parallel edges, the critical set is the set of tasks on longest
      paths. */
  lemma CriticalExact(m: Costs, preds: map<Id, seq<Id>>, es: seq<Id>, e: Id, v: Id)
    requires Good(m) && PredecessorsOf(m.g, preds) && AreEntries(m.g, es) && (forall x :: IsEntry(m.g, x) ==> x in es)
    requires OnlyEntry(m.g, e) && NoParallelEdges(m.g) && PredecessorsFirst(m.g, FromEntries(m.g, es)) && v in m.g
    ensures forall t :: t in FromEntries(m.g, es) ==> t in m.g
    ensures Up(m, v) + Ranked(m, preds, FromEntries(m.g, es))[v] == Up(m, e) <==> OnLongestPath(m, e, v)
  {
    SearchCovers(m.g, es);
    var order := FromEntries(m.g, es);
    if OnLongestPath(m, e, v) {
      hide Good, PredecessorsFirst, NoParallelEdges, PredecessorsOf, FromEntries, Ranked;
      var r := Ranked(m, preds, order)[v];
      RankedExact(m, preds, order, v);
      var x, ks :| IsEntry(m.g, x) && Walk(m.g, x, ks) && End(m.g, x, ks) == v && StepSum(m, x, ks) == r;
      CriticalComplete(m, e, v, r);
    }
    if Up(m, v) + Ranked(m, preds, order)[v] == Up(m, e) {
      CriticalSound(m, preds, order, e, v);
    }
  }

  // ---------- the order matters ----------

  /** a -> c and a -> b -> c, with the short edge listed first; every task costs one unit and no edge carries data. */
  ghost function Shortcut(): Graph {
    map["a" := [Dependency("c", 0), Dependency("b", 0)], "b" := [Dependency("c", 0)], "c" := []]
  }

  ghost function ShortcutCosts(): Costs {
    Costs(Shortcut(), map["a" := 1, "b" := 1, "c" := 1], 1.0, 1.0)
  }

  ghost function ShortcutPreds(): map<Id, seq<Id>> {
    map["a" := [], "b" := ["a"], "c" := ["a", "b"]]
  }

  lemma ShortcutEdges()
    ensures forall u, v :: Edge(Shortcut(), u, v) <==> (u == "a" && (v == "c" || v == "b")) || (u == "b" && v == "c")
  {
    var g: Graph := Shortcut();
    assert g["a"][0].targetTaskID == "c" && g["a"][1].targetTaskID == "b" && g["b"][0].targetTaskID == "c";
  }

  lemma ShortcutGood()
    ensures Good(ShortcutCosts())
  {
    var ord: map<Id, nat> := map["a" := 2, "b" := 1, "c" := 0];
    assert IsTopological(Shortcut(), ord);
    AcyclicIffTopological(Shortcut());
    hide Acyclic;
  }

  lemma ShortcutFits()
    ensures PredecessorsOf(Shortcut(), ShortcutPreds())
    ensures AreEntries(Shortcut(), ["a"]) && OnlyEntry(Shortcut(), "a") && NoParallelEdges(Shortcut())
  {
    ShortcutEdges();
    hide Edge;
    assert Edge(Shortcut(), "a", "b") && Edge(Shortcut(), "a", "c");
    assert forall x :: IsEntry(Shortcut(), x) ==> x == "a";
  }

  /** The search visits c before b. */
  lemma ShortcutOrder()
    requires Closed(Shortcut()) && AreEntries(Shortcut(), ["a"])
    ensures FromEntries(Shortcut(), ["a"]) == ["c", "b"]
  {
    var g: Graph := Shortcut();
    assert ["a"][..0] == [];
    assert Visit(g, [], "c") == VisitAll(g, ["c"], g["c"]) == ["c"] by { assert [] + ["c"] == ["c"]; }
    assert Visit(g, ["c", "b"], "c") == ["c", "b"];
    assert VisitAll(g, ["c", "b"], g["b"]) == ["c", "b"] by { assert g["b"][1..] == []; }
    assert Visit(g, ["c"], "b") == ["c", "b"] by { assert ["c"] + ["b"] == ["c", "b"]; }
    assert g["a"][1..] == [Dependency("b", 0)] && g["a"][1..][1..] == [];
  }

  lemma ShortcutUp()
    requires Good(ShortcutCosts())
    ensures Up(ShortcutCosts(), "c") == 1.0 && Up(ShortcutCosts(), "a") == 3.0
  {
    hide Good;
    var m := ShortcutCosts();
    assert BestSuccessor(m, "c", 0) == 0.0 && Up(m, "c") == 1.0;
    assert BestSuccessor(m, "b", 0) == 0.0 && BestSuccessor(m, "b", 1) == 1.0 && Up(m, "b") == 2.0;
    assert BestSuccessor(m, "a", 0) == 0.0 && BestSuccessor(m, "a", 1) == 1.0 && BestSuccessor(m, "a", 2) == 2.0;
  }

  lemma ShortcutRanked()
    requires Good(ShortcutCosts()) && PredecessorsOf(Shortcut(), ShortcutPreds())
    ensures Ranked(ShortcutCosts(), ShortcutPreds(), ["c", "b"])["c"] == 1.0
  {
    hide Good, PredecessorsOf;
    var m, preds := ShortcutCosts(), ShortcutPreds();
    var zero := Ranked(m, preds, []);
    ShortcutEdges();
    assert BestPredecessor(m, preds, zero, "c", 0) == 0.0;
    assert BestPredecessor(m, preds, zero, "c", 1) == 1.0;
    assert BestPredecessor(m, preds, zero, "c", 2) == 1.0;
    assert ["c"][..0] == [] && ["c", "b"][..1] == ["c"];
  }

  lemma ShortcutLongest()
    requires Good(ShortcutCosts()) && Up(ShortcutCosts(), "a") == 3.0
    ensures OnLongestPath(ShortcutCosts(), "a", "c")
  {
    hide Good;
    var m := ShortcutCosts();
    var ks: seq<nat> := [1, 0];
    assert ks[1..] == [0] && ks[1..][1..] == [];
    assert Walk(m.g, "a", ks) && End(m.g, "a", ks) == "c" && StepSum(m, "a", ks) == 2.0;
    assert PathCost(m, "c", []) == 1.0;
    assert FinishesAt(m, "a", ks, [], 3.0);
  }

  /** Preorder is not enough: here the search visits c before its predecessor b, the downward rank of c falls short,
      and c, which lies on the longest path, is left out of the critical set. */
  lemma PreorderMissesCriticalTask()
    ensures Good(ShortcutCosts()) && PredecessorsOf(Shortcut(), ShortcutPreds()) && AreEntries(Shortcut(), ["a"])
    ensures FromEntries(Shortcut(), ["a"]) == ["c", "b"]
    ensures OnLongestPath(ShortcutCosts(), "a", "c")
    ensures Up(ShortcutCosts(), "c") + Ranked(ShortcutCosts(), ShortcutPreds(), ["c", "b"])["c"]
          < Up(ShortcutCosts(), "a")
  {
    ShortcutGood();
    ShortcutFits();
    ShortcutOrder();
    ShortcutUp();
    ShortcutRanked();
    ShortcutLongest();
  }
}
