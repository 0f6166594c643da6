/** What Algorithm 1 leaves behind, as values, and what it means (internal/scheduler/core.go:478-619, 659-690). */
module AlgorithmOne {
  import opened Api
  import opened Graphs
  import opened LongestPaths
  import opened Preorder
  import opened VisitedPaths
  import opened CriticalSet

  // ---------- worst-case speed and bandwidth ----------

  /** The smallest compute multiplier, or 1 without workers. */
  ghost predicate SlowestMultiplier(workers: seq<Worker>, r: real) {
    && (workers == [] ==> r == 1.0)
    && (workers != [] ==> exists w :: w in workers && r == w.computeMultiplier)
    && forall w :: w in workers ==> r <= w.computeMultiplier
  }

  /** The smallest positive bandwidth if the first worker's is positive, else the default; never zero. */
  ghost predicate SlowestBandwidth(workers: seq<Worker>, r: real) {
    && r > 0.0
    && (workers == [] || workers[0].networkBandwidth <= 0.0 ==> r == 50.0)
    && (workers != [] && workers[0].networkBandwidth > 0.0 ==>
          && (exists w :: w in workers && r == w.networkBandwidth)
          && forall w :: w in workers && w.networkBandwidth > 0.0 ==> r <= w.networkBandwidth)
  }

  lemma {:induction false} MultiplierExists(workers: seq<Worker>) returns (r: real)
    ensures SlowestMultiplier(workers, r)
  {
    if |workers| == 0 {
      r := 1.0;
    } else {
      var last := workers[|workers| - 1];
      var rest := workers[..|workers| - 1];
      assert workers == rest + [last];
      r := last.computeMultiplier;
      if rest != [] {
        var s := MultiplierExists(rest);
        if s < r { r := s; }
      }
    }
  }

  lemma {:induction false} BandwidthExists(workers: seq<Worker>) returns (r: real)
    ensures SlowestBandwidth(workers, r)
  {
    if workers == [] || workers[0].networkBandwidth <= 0.0 {
      r := 50.0;
    } else if |workers| == 1 {
      r := workers[0].networkBandwidth;
    } else {
      var last := workers[|workers| - 1];
      var rest := workers[..|workers| - 1];
      assert workers == rest + [last];
      r := BandwidthExists(rest);
      if 0.0 < last.networkBandwidth < r { r := last.networkBandwidth; }
    }
  }

  ghost function MinMultiplier(workers: seq<Worker>): (r: real)
    ensures SlowestMultiplier(workers, r)
  {
    assert exists r :: SlowestMultiplier(workers, r) by { var r := MultiplierExists(workers); }
    var r :| SlowestMultiplier(workers, r);
    r
  }

  ghost function MinBandwidth(workers: seq<Worker>): (r: real)
    ensures SlowestBandwidth(workers, r)
  {
    assert exists r :: SlowestBandwidth(workers, r) by { var r := BandwidthExists(workers); }
    var r :| SlowestBandwidth(workers, r);
    r
  }

  /** There is only one slowest rate of each kind. */
  lemma SlowestIsMin(workers: seq<Worker>, comp: real, band: real)
    requires SlowestMultiplier(workers, comp) && SlowestBandwidth(workers, band)
    ensures comp == MinMultiplier(workers) && band == MinBandwidth(workers)
  {
  }

  // ---------- what a DAG costs ----------

  function WorkOf(tasks: map<Id, TaskNode>): map<Id, int> {
    map t | t in tasks :: tasks[t].baseComputation
  }

  /** A DAG's costs under the slowest worker and link. */
  ghost function DagCosts(tasks: map<Id, TaskNode>, workers: seq<Worker>): Costs {
    Costs(GraphOf(tasks), WorkOf(tasks), MinMultiplier(workers), MinBandwidth(workers))
  }

  /** vol(G): the worst-case execution times of the tasks in S, added up. */
  ghost function ExecSum(m: Costs, S: set<Id>): (r: real)
    requires Good(m) && S <= m.g.Keys
    ensures r >= 0.0
  {
    if S == {} then 0.0 else
    var t :| t in S; Exec(m.work[t], m.minComp) + ExecSum(m, S - {t})
  }

  lemma {:induction false} ExecSumRemove(m: Costs, S: set<Id>, t: Id)
    requires Good(m) && S <= m.g.Keys && t in S
    ensures ExecSum(m, S) == Exec(m.work[t], m.minComp) + ExecSum(m, S - {t})
    decreases |S|
  {
    var x :| x in S && ExecSum(m, S) == Exec(m.work[x], m.minComp) + ExecSum(m, S - {x});
    if x != t {
      ExecSumRemove(m, S - {x}, t);
      ExecSumRemove(m, S - {t}, x);
      assert S - {x} - {t} == S - {t} - {x};
    }
  }

  /** vol(G) / |V| */
  ghost function Volume(m: Costs): (r: real)
    requires Good(m)
    ensures r >= 0.0
  {
    if m.g == map[] then 0.0 else
    Quotient(ExecSum(m, m.g.Keys), |m.g.Keys| as real);
    ExecSum(m, m.g.Keys) / |m.g.Keys| as real
  }

  lemma Quotient(x: real, y: real)
    requires x >= 0.0 && y > 0.0
    ensures x / y >= 0.0
  {
  }

  // ---------- what Algorithm 1 leaves ----------

  /** taskMeta: the volume term of a DAG and its critical set. */
  datatype TaskMeta = TaskMeta(volPerSubtask: real, critical: set<Id>)

  /** What the search from the entry tasks es must have covered. */
  ghost predicate SearchedFrom(g: Graph, es: seq<Id>) {
    && Closed(g) && AreEntries(g, es) && (forall e :: IsEntry(g, e) ==> e in es)
    && forall v :: v in FromEntries(g, es) ==> v in g
  }

  /** Each task's rank is its upward rank plus the downward rank that a search from es determines. */
  ghost predicate RanksOf(m: Costs, preds: map<Id, seq<Id>>, es: seq<Id>, rank: map<Id, real>)
    requires Good(m)
  {
    && PredecessorsOf(m.g, preds) && SearchedFrom(m.g, es) && rank.Keys == m.g.Keys
    && forall t :: t in rank ==> rank[t] == Up(m, t) + Ranked(m, preds, FromEntries(m.g, es))[t]
  }

  ghost predicate RankedBySearch(m: Costs, rank: map<Id, real>)
    requires Good(m)
  {
    exists preds, es :: RanksOf(m, preds, es, rank)
  }

  /** The tasks whose rank is r. */
  ghost function TasksRanked(rank: map<Id, real>, r: real): set<Id> {
    set t | t in rank && rank[t] == r
  }

  /** r is the rank of some entry task, whichever the iteration meets first. */
  ghost predicate SourceRankOf(g: Graph, rank: map<Id, real>, r: real)
    requires rank.Keys == g.Keys
  {
    if exists e :: IsEntry(g, e) then exists e :: IsEntry(g, e) && r == rank[e] else r == 0.0
  }

  ghost predicate SummedUp(m: Costs, rank: map<Id, real>, meta: TaskMeta)
    requires Good(m) && rank.Keys == m.g.Keys
  {
    && meta.volPerSubtask == Volume(m)
    && exists r :: SourceRankOf(m.g, rank, r) && meta.critical == TasksRanked(rank, r)
  }

  /** The ranks, volume and critical set of Algorithm 1. */
  ghost predicate Analysed(m: Costs, rank: map<Id, real>, meta: TaskMeta) {
    Good(m) && rank.Keys == m.g.Keys && RankedBySearch(m, rank) && SummedUp(m, rank, meta)
  }

  lemma AnalysedBy(m: Costs, rank: map<Id, real>, meta: TaskMeta, preds: map<Id, seq<Id>>, es: seq<Id>, r: real)
    requires Good(m) && RanksOf(m, preds, es, rank) && SourceRankOf(m.g, rank, r)
    requires meta == TaskMeta(Volume(m), TasksRanked(rank, r))
    ensures Analysed(m, rank, meta)
  {
    hide Good, PredecessorsOf, SearchedFrom, Volume, SourceRankOf, TasksRanked, Ranked, Up;
  }

  lemma {:induction false} ListOf(S: set<Id>) returns (s: seq<Id>)
    ensures forall x :: x in s <==> x in S
  {
    if S == {} {
      s := [];
    } else {
      var x :| x in S;
      s := ListOf(S - {x});
      s := s + [x];
    }
  }

  /** Predecessor lists exist for every graph. */
  lemma {:induction false} ListsExist(g: Graph, S: set<Id>) returns (preds: map<Id, seq<Id>>)
    ensures preds.Keys == S && forall u, v :: v in S ==> (u in preds[v] <==> Edge(g, u, v))
  {
    if S == {} {
      preds := map[];
    } else {
      var v :| v in S;
      preds := ListsExist(g, S - {v});
      var ps := ListOf(set u | u in g && Edge(g, u, v));
      preds := preds[v := ps];
    }
  }

  /** Every DAG can be ranked. */
  lemma RankingExists(m: Costs) returns (rank: map<Id, real>)
    requires Good(m)
    ensures rank.Keys == m.g.Keys && RankedBySearch(m, rank)
  {
    var preds := ListsExist(m.g, m.g.Keys);
    var es := ListOf(set e | e in m.g && IsEntry(m.g, e));
    GoodAcyclic(m);
    SearchCovers(m.g, es);
    rank := map t | t in m.g :: Up(m, t) + Ranked(m, preds, FromEntries(m.g, es))[t];
    assert RanksOf(m, preds, es, rank);
  }

  // ---------- what it means ----------

  lemma GoodAcyclic(m: Costs)
    requires Good(m)
    ensures Closed(m.g) && Acyclic(m.g)
  {
  }

  /** An entry task is never visited, so its rank is its upward rank. */
  lemma EntryRank(m: Costs, preds: map<Id, seq<Id>>, es: seq<Id>, rank: map<Id, real>, e: Id)
    requires Good(m) && RanksOf(m, preds, es, rank) && IsEntry(m.g, e)
    ensures e in rank && rank[e] == Up(m, e)
  {
    hide Good, PredecessorsOf, Ranked, FromEntries, Up;
    SearchCovers(m.g, es) by { GoodAcyclic(m); }
    UnvisitedRank(m, preds, FromEntries(m.g, es), e);
  }

  /** No rank exceeds the longest path from some entry task through the task. */
  lemma RankWithinEntry(m: Costs, rank: map<Id, real>, t: Id) returns (e: Id)
    requires Good(m) && RankedBySearch(m, rank) && t in m.g
    ensures IsEntry(m.g, e) && e in m.g && t in rank && 0.0 <= rank[t] <= Up(m, e)
  {
    var preds, es :| RanksOf(m, preds, es, rank);
    hide Good, PredecessorsOf, Ranked, FromEntries, Up;
    RankedBound(m, preds, FromEntries(m.g, es), t);
    RankedNonNegative(m, preds, FromEntries(m.g, es), t);
    e :| IsEntry(m.g, e) && Ranked(m, preds, FromEntries(m.g, es))[t] + Up(m, t) <= Up(m, e);
  }

  /** With one entry task the source rank is its upward rank. */
  lemma SourceIsEntry(m: Costs, rank: map<Id, real>, meta: TaskMeta, e: Id)
    requires Analysed(m, rank, meta) && OnlyEntry(m.g, e)
    ensures meta.critical == TasksRanked(rank, Up(m, e))
  {
    hide Good, Up;
    var preds, es :| RanksOf(m, preds, es, rank);
    EntryRank(m, preds, es, rank, e);
  }

  /** For a DAG with one entry task the source rank is the longest path, every task put in the critical set lies on a
      longest path, and the entry is in it, whatever the order of the search. */
  lemma CriticalSetSound(m: Costs, rank: map<Id, real>, meta: TaskMeta, e: Id)
    requires Analysed(m, rank, meta) && OnlyEntry(m.g, e)
    ensures e in meta.critical && forall v :: v in meta.critical ==> OnLongestPath(m, e, v)
  {
    hide Good, PredecessorsOf, Ranked, FromEntries, OnLongestPath, SummedUp, Up;
    SourceIsEntry(m, rank, meta, e);
    var preds, es :| RanksOf(m, preds, es, rank);
    EntryRank(m, preds, es, rank, e);
    forall v | v in meta.critical ensures OnLongestPath(m, e, v) {
      CriticalSound(m, preds, FromEntries(m.g, es), e, v);
    }
  }

  /** In every search order, parallel edges or not: a task is put in the critical set exactly when it lies on a longest
      path and the search visits some longest path to it in path order. */
  lemma CriticalSetIff(m: Costs, rank: map<Id, real>, meta: TaskMeta, preds: map<Id, seq<Id>>, es: seq<Id>, e: Id,
                       v: Id)
    requires Analysed(m, rank, meta) && OnlyEntry(m.g, e) && RanksOf(m, preds, es, rank) && v in m.g
    ensures v in meta.critical <==> OnLongestPath(m, e, v) && LongestVisited(m, FromEntries(m.g, es), v)
  {
    hide Good, PredecessorsOf, Ranked, FromEntries, OnLongestPath, LongestVisited, SummedUp, Up;
    SourceIsEntry(m, rank, meta, e);
    CriticalIff(m, preds, es, e, v);
  }

  /** If moreover the search visits predecessors first and no two edges are parallel, the critical set is exactly the
      set of tasks on longest paths. */
  lemma CriticalSetExact(m: Costs, rank: map<Id, real>, meta: TaskMeta, preds: map<Id, seq<Id>>, es: seq<Id>, e: Id,
                         v: Id)
    requires Analysed(m, rank, meta) && OnlyEntry(m.g, e) && RanksOf(m, preds, es, rank) && v in m.g
    requires NoParallelEdges(m.g) && PredecessorsFirst(m.g, FromEntries(m.g, es))
    ensures v in meta.critical <==> OnLongestPath(m, e, v)
  {
    hide Good, PredecessorsOf, Ranked, FromEntries, OnLongestPath, NoParallelEdges, PredecessorsFirst, SummedUp, Up;
    SourceIsEntry(m, rank, meta, e);
    CriticalExact(m, preds, es, e, v);
  }

  // ---------- several entry tasks ----------

  /** No entry task starts a longer path than e. */
  ghost predicate LongestEntry(m: Costs, e: Id)
    requires Good(m)
  {
    IsEntry(m.g, e) && forall x :: IsEntry(m.g, x) ==> Up(m, x) <= Up(m, e)
  }

  /** v lies on a path that is longest among all paths of the DAG. */
  ghost predicate OnOverallLongest(m: Costs, v: Id)
    requires Good(m)
  {
    exists x :: LongestEntry(m, x) && OnLongestPath(m, x, v)
  }

  /** A walk that ends at an entry task has no steps. */
  lemma WalkToEntry(m: Costs, x: Id, e: Id)
    requires Good(m) && x in m.g && IsEntry(m.g, e) && OnLongestPath(m, x, e)
    ensures x == e
  {
    hide Good;
    var ks, ms :| Walk(m.g, x, ks) && End(m.g, x, ks) == e && FinishesAt(m, x, ks, ms, Up(m, x));
    if ks != [] { StepsLeaveEntries(m, x, ks); }
  }

  /** A task whose rank is the overall longest lies on such a path. */
  lemma TopRankedOnLongest(m: Costs, preds: map<Id, seq<Id>>, es: seq<Id>, rank: map<Id, real>, e: Id, v: Id)
    requires Good(m) && RanksOf(m, preds, es, rank) && LongestEntry(m, e) && v in rank && rank[v] == Up(m, e)
    ensures OnOverallLongest(m, v)
  {
    hide Good, PredecessorsOf, Ranked, FromEntries, Up, Walk, End, IsEntry;
    var r := Ranked(m, preds, FromEntries(m.g, es))[v];
    RankedBound(m, preds, FromEntries(m.g, es), v);
    var x, ks :| IsEntry(m.g, x) && Walk(m.g, x, ks) && End(m.g, x, ks) == v && StepSum(m, x, ks) >= r;
    EntryInGraph(m.g, x);
    ThroughBound(m, x, ks, v);
    var ms := UpAttained(m, v);
    assert FinishesAt(m, x, ks, ms, Up(m, x));
    assert OnLongestPath(m, x, v) && LongestEntry(m, x);
  }

  /** With several entry tasks, and e the one whose rank was compared with: all critical tasks lie on longest paths of
      the DAG exactly when no other entry starts a longer path than e. */
  lemma CriticalSetAnyEntry(m: Costs, rank: map<Id, real>, meta: TaskMeta, e: Id)
    requires Analysed(m, rank, meta) && IsEntry(m.g, e) && meta.critical == TasksRanked(rank, Up(m, e))
    ensures (forall v :: v in meta.critical ==> OnOverallLongest(m, v)) <==> LongestEntry(m, e)
  {
    hide Good, PredecessorsOf, Ranked, FromEntries, Up, SummedUp, OnLongestPath;
    var preds, es :| RanksOf(m, preds, es, rank);
    EntryRank(m, preds, es, rank, e);
    if LongestEntry(m, e) {
      forall v | v in meta.critical ensures OnOverallLongest(m, v) {
        TopRankedOnLongest(m, preds, es, rank, e, v);
      }
    } else {
      assert e in meta.critical;
      if OnOverallLongest(m, e) {
        var x :| LongestEntry(m, x) && OnLongestPath(m, x, e);
        WalkToEntry(m, x, e);
      }
    }
  }

  /** The source rank is always some entry task's upward rank. */
  lemma SomeSource(m: Costs, rank: map<Id, real>, meta: TaskMeta) returns (e: Id)
    requires Analysed(m, rank, meta) && m.g != map[]
    ensures IsEntry(m.g, e) && e in m.g && meta.critical == TasksRanked(rank, Up(m, e))
  {
    hide Good, Up, PredecessorsOf, Ranked;
    var preds, es :| RanksOf(m, preds, es, rank);
    var t :| t in m.g;
    GoodAcyclic(m);
    var x, ks := FromEntry(m.g, t);
    assert IsEntry(m.g, x);
    var r :| SourceRankOf(m.g, rank, r) && meta.critical == TasksRanked(rank, r);
    e :| IsEntry(m.g, e) && r == rank[e];
    EntryRank(m, preds, es, rank, e);
  }

  /** All entry tasks start equally long paths. */
  ghost predicate EntriesAlike(m: Costs)
    requires Good(m)
  {
    forall e, x :: IsEntry(m.g, e) && IsEntry(m.g, x) ==> Up(m, e) == Up(m, x)
  }

  /** Whatever Algorithm 1 leaves for this DAG, its critical set lies on longest paths. */
  ghost predicate CriticalWhateverMet(m: Costs)
    requires Good(m)
  {
    forall rank, meta, v :: Analysed(m, rank, meta) && v in meta.critical ==> OnOverallLongest(m, v)
  }

  /** The entry met first may be any entry. */
  lemma AnyEntryMayBeMet(m: Costs, e: Id) returns (rank: map<Id, real>, meta: TaskMeta)
    requires Good(m) && IsEntry(m.g, e)
    ensures Analysed(m, rank, meta) && meta.critical == TasksRanked(rank, Up(m, e))
  {
    hide Good, PredecessorsOf, Ranked, FromEntries, Up, Volume, SearchedFrom;
    rank := RankingExists(m);
    var preds, es :| RanksOf(m, preds, es, rank);
    EntryRank(m, preds, es, rank, e);
    meta := TaskMeta(Volume(m), TasksRanked(rank, Up(m, e)));
    AnalysedBy(m, rank, meta, preds, es, Up(m, e));
  }

  /** What a submitter can check: the critical set lies on longest paths in every order of iteration exactly when all
      entry tasks start equally long paths. */
  lemma CriticalIffEntriesAlike(m: Costs)
    requires Good(m)
    ensures CriticalWhateverMet(m) <==> EntriesAlike(m)
  {
    hide Good, Up, Analysed, OnOverallLongest, TasksRanked;
    if CriticalWhateverMet(m) {
      forall e, x | IsEntry(m.g, e) && IsEntry(m.g, x) ensures Up(m, x) <= Up(m, e) {
        var rank, meta := AnyEntryMayBeMet(m, e);
        CriticalSetAnyEntry(m, rank, meta, e);
      }
    }
    if EntriesAlike(m) {
      forall rank, meta, v | Analysed(m, rank, meta) && v in meta.critical ensures OnOverallLongest(m, v) {
        CriticalInGraph(m, rank, meta, v);
        var e := SomeSource(m, rank, meta);
        CriticalSetAnyEntry(m, rank, meta, e);
      }
    }
  }

  lemma CriticalInGraph(m: Costs, rank: map<Id, real>, meta: TaskMeta, v: Id)
    requires Analysed(m, rank, meta) && v in meta.critical
    ensures v in m.g
  {
    hide Good, RankedBySearch, SourceRankOf, Volume;
  }

  /** Two unconnected tasks, the second twice as long as the first. */
  ghost function TwoTasks(): Costs {
    Costs(map["a" := [], "b" := []], map["a" := 1, "b" := 2], 1.0, 1.0)
  }

  lemma TwoTasksGood()
    ensures Good(TwoTasks()) && forall t :: t in TwoTasks().g ==> IsEntry(TwoTasks().g, t)
  {
    assert forall u, v :: !Edge(TwoTasks().g, u, v);
  }

  lemma TwoTasksUp()
    requires Good(TwoTasks())
    ensures Up(TwoTasks(), "a") == 1.0 && Up(TwoTasks(), "b") == 2.0
  {
    hide Good;
    assert BestSuccessor(TwoTasks(), "a", 0) == 0.0 && BestSuccessor(TwoTasks(), "b", 0) == 0.0;
  }

  lemma TwoTasksVolume()
    requires Good(TwoTasks())
    ensures Volume(TwoTasks()) == 1.5
  {
    hide Good, ExecSum, Exec;
    TwoTasksSum();
    assert TwoTasks().g.Keys == {"a", "b"};
  }

  lemma TwoTasksSum()
    requires Good(TwoTasks())
    ensures ExecSum(TwoTasks(), {"a", "b"}) == 3.0
  {
    var m := TwoTasks();
    ExecSumRemove(m, {"a", "b"}, "a");
    assert {"a", "b"} - {"a"} == {"b"};
    ExecSumRemove(m, {"b"}, "b");
    assert {"b"} - {"b"} == {};
    hide Good;
  }

  lemma TwoTasksRanks()
    requires Good(TwoTasks()) && Up(TwoTasks(), "a") == 1.0 && Up(TwoTasks(), "b") == 2.0
    ensures RanksOf(TwoTasks(), map["a" := [], "b" := []], ["a", "b"], TwoRanks())
  {
    hide Up;
    var g: Graph := TwoTasks().g;
    assert forall u, v :: !Edge(g, u, v);
    assert ["a", "b"][..1] == ["a"] && ["a"][..0] == [];
    assert FromEntries(g, ["a"]) == [] && FromEntries(g, ["a", "b"]) == [];
  }

  lemma TwoTasksAnalysed()
    ensures Analysed(TwoTasks(), TwoRanks(), TaskMeta(1.5, {"a"}))
  {
    hide Good, Up, Volume, RanksOf, IsEntry, TasksRanked, Analysed;
    TwoTasksGood();
    TwoTasksUp();
    TwoTasksVolume();
    TwoTasksRanks();
    OneOfTwo();
    AnalysedBy(TwoTasks(), TwoRanks(), TaskMeta(1.5, {"a"}), map["a" := [], "b" := []], ["a", "b"], 1.0);
  }

  ghost function TwoRanks(): map<Id, real> {
    map["a" := 1.0, "b" := 2.0]
  }

  lemma OneOfTwo()
    requires IsEntry(TwoTasks().g, "a")
    ensures TasksRanked(TwoRanks(), 1.0) == {"a"} && TwoTasks().g.Keys == TwoRanks().Keys
    ensures SourceRankOf(TwoTasks().g, TwoRanks(), 1.0)
  {
    hide IsEntry;
  }

  /** The entry task met first decides: if it is "a", the critical set is {"a"}, which is on no longest path. */
  lemma FirstEntryMisleads()
    ensures Analysed(TwoTasks(), TwoRanks(), TaskMeta(1.5, {"a"}))
    ensures !OnOverallLongest(TwoTasks(), "a")
  {
    TwoTasksGood();
    TwoTasksUp();
    TwoTasksAnalysed();
    hide Good, Up, Analysed, OnOverallLongest, IsEntry, TasksRanked;
    OneOfTwo();
    CriticalSetAnyEntry(TwoTasks(), TwoRanks(), TaskMeta(1.5, {"a"}), "a");
    assert "b" in TwoTasks().g;
  }
}
