/** Algorithm 1 as the code runs it on task nodes (internal/scheduler/core.go:478-619, 659-690). */
module Ranks {
  import opened Api
  import opened Graphs
  import opened LongestPaths
  import opened Preorder
  import opened AlgorithmOne
  import opened GraphEngine

  // ---------- worst-case speed and bandwidth ----------

  method ComputeMinComputeMultiplier(workers: seq<Worker>) returns (minVal: real)
    ensures SlowestMultiplier(workers, minVal) && (workers == [] ==> minVal == 1.0)
  {
    if |workers| == 0 { return 1.0; }
    minVal := workers[0].computeMultiplier;
    for i := 1 to |workers|
      invariant exists w :: w in workers && minVal == w.computeMultiplier
      invariant forall j :: 0 <= j < i ==> minVal <= workers[j].computeMultiplier
    {
      if workers[i].computeMultiplier < minVal { minVal := workers[i].computeMultiplier; }
    }
  }

  method ComputeMinBandwidth(workers: seq<Worker>) returns (minVal: real)
    ensures SlowestBandwidth(workers, minVal)
    ensures workers == [] || workers[0].networkBandwidth <= 0.0 ==> minVal == 50.0
  {
    if |workers| == 0 { return 50.0; }
    minVal := workers[0].networkBandwidth;
    for i := 1 to |workers|
      invariant exists w :: w in workers && minVal == w.networkBandwidth
      invariant workers[0].networkBandwidth <= 0.0 ==> minVal == workers[0].networkBandwidth
      invariant workers[0].networkBandwidth > 0.0 ==> minVal > 0.0
      invariant forall j :: 0 <= j < i && workers[j].networkBandwidth > 0.0 && minVal > 0.0 ==>
                              minVal <= workers[j].networkBandwidth
    {
      if workers[i].networkBandwidth < minVal && workers[i].networkBandwidth > 0.0 {
        minVal := workers[i].networkBandwidth;
      }
    }
    if minVal <= 0.0 { return 50.0; }
  }

  // ---------- the nodes and what they stand for ----------

  ghost predicate Models(m: Costs, tasks: map<Id, TaskNode>, minComp: real, minBand: real) {
    && m.minComp == minComp && m.minBand == minBand && m.g.Keys == tasks.Keys == m.work.Keys
    && forall t :: t in tasks ==> m.g[t] == tasks[t].successors && m.work[t] == tasks[t].baseComputation
  }

  ghost function RankUs(tasks: map<Id, TaskNode>): map<Id, real>
    reads tasks.Values`staticRankU
  {
    map t | t in tasks :: tasks[t].staticRankU
  }

  ghost function RankDs(tasks: map<Id, TaskNode>): map<Id, real>
    reads tasks.Values`staticRankD
  {
    map t | t in tasks :: tasks[t].staticRankD
  }

  ghost function Preds(tasks: map<Id, TaskNode>): map<Id, seq<Id>>
    reads tasks.Values`predecessors
  {
    map t | t in tasks :: tasks[t].predecessors
  }

  // ---------- upward ranks ----------

  /** The memo: a stored rank is zero (not cached) or right. */
  ghost predicate Memo(r: map<Id, real>, m: Costs)
    requires Good(m)
  {
    r.Keys == m.g.Keys && forall t :: t in r ==> r[t] == 0.0 || r[t] == Up(m, t)
  }

  /** Ranks already right stay so. */
  ghost predicate StillRight(before: map<Id, real>, after: map<Id, real>, m: Costs)
    requires Good(m)
  {
    forall t :: t in before && t in after && t in m.g && before[t] == Up(m, t) ==> after[t] == Up(m, t)
  }

  lemma MemoSet(before: map<Id, real>, r: map<Id, real>, m: Costs, t: Id)
    requires Good(m) && Memo(r, m) && t in m.g && StillRight(before, r, m)
    ensures Memo(r[t := Up(m, t)], m) && StillRight(before, r[t := Up(m, t)], m)
  {
  }

  lemma StillRightTransitive(a: map<Id, real>, b: map<Id, real>, c: map<Id, real>, m: Costs)
    requires Good(m) && StillRight(a, b, m) && StillRight(b, c, m) && Memo(b, m)
    ensures StillRight(a, c, m)
  {
  }

  lemma UpIs(m: Costs, u: Id)
    requires Good(m) && u in m.g
    ensures m.minComp > 0.0 && Up(m, u) == Exec(m.work[u], m.minComp) + BestSuccessor(m, u, |m.g[u]|)
  {
  }

  lemma RankUOf(tasks: map<Id, TaskNode>, t: Id)
    requires t in tasks
    ensures t in RankUs(tasks) && RankUs(tasks)[t] == tasks[t].staticRankU
  {
  }

  method StoreRankU(ghost tasks: map<Id, TaskNode>, ghost taskID: Id, node: TaskNode, rank: real)
    requires Named(tasks) && taskID in tasks && tasks[taskID] == node
    modifies node`staticRankU
    ensures RankUs(tasks) == old(RankUs(tasks))[taskID := rank] && node.staticRankU == rank
  {
    node.staticRankU := rank;
  }

  /** The memoising closure computeUpwardRank. */
  method ComputeUpwardRank(tasks: map<Id, TaskNode>, taskID: Id, minComp: real, minBand: real, ghost m: Costs)
    returns (rank: real)
    requires Models(m, tasks, minComp, minBand) && Good(m) && Named(tasks) && taskID in tasks
    requires Memo(RankUs(tasks), m)
    modifies tasks.Values`staticRankU
    ensures rank == Up(m, taskID) == tasks[taskID].staticRankU
    ensures Memo(RankUs(tasks), m) && StillRight(old(RankUs(tasks)), RankUs(tasks), m)
    decreases Topo(m.g)[taskID]
  {
    hide Good, RankUs, Named, Up, Memo, StillRight, BestSuccessor;
    GoodRates(m);
    var node := tasks[taskID];
    ghost var first := RankUs(tasks);
    MemoRead(first, m, taskID);
    RankUOf(tasks, taskID);
    if node.staticRankU > 0.0 { return node.staticRankU; }
    var wHat := Exec(node.baseComputation, minComp);
    var maxSuccCost := 0.0;
    NoSuccessors(m, taskID);
    if |node.successors| != 0 {
      for i := 0 to |node.successors|
        invariant maxSuccCost == BestSuccessor(m, taskID, i)
        invariant Memo(RankUs(tasks), m) && StillRight(first, RankUs(tasks), m)
      {
        var succ := node.successors[i];
        EdgeDown(m, taskID, i);
        ghost var before := RankUs(tasks);
        var up := ComputeUpwardRank(tasks, succ.targetTaskID, minComp, minBand, m);
        StillRightTransitive(first, before, RankUs(tasks), m);
        var cost := Comm(succ, minBand) + up;
        if cost > maxSuccCost { maxSuccCost := cost; }
      }
    }
    MemoSet(first, RankUs(tasks), m, taskID);
    UpIs(m, taskID);
    StoreRankU(tasks, taskID, node, wHat + maxSuccCost);
    return node.staticRankU;
  }

  lemma MemoRead(r: map<Id, real>, m: Costs, t: Id)
    requires Good(m) && Memo(r, m) && t in m.g
    ensures t in r && (r[t] > 0.0 ==> r[t] == Up(m, t)) && StillRight(r, r, m)
  {
  }

  lemma NoSuccessors(m: Costs, u: Id)
    requires Good(m) && u in m.g
    ensures BestSuccessor(m, u, 0) == 0.0
  {
  }

  lemma GoodRates(m: Costs)
    requires Good(m)
    ensures m.minComp > 0.0 && m.minBand > 0.0
  {
  }

  /** One turn of the loop over successors. */
  lemma EdgeDown(m: Costs, u: Id, k: nat)
    requires Good(m) && u in m.g && k < |m.g[u]|
    ensures m.g[u][k].targetTaskID in m.g && Topo(m.g)[m.g[u][k].targetTaskID] < Topo(m.g)[u]
    ensures var cost := Comm(m.g[u][k], m.minBand) + Up(m, m.g[u][k].targetTaskID); var best := BestSuccessor(m, u, k);
      BestSuccessor(m, u, k + 1) == if cost > best then cost else best
  {
  }

  /** Step 1: the upward rank of every task, in any order of tasks. */
  method ComputeUpwardRanks(tasks: map<Id, TaskNode>, minComp: real, minBand: real, ghost m: Costs)
    requires Models(m, tasks, minComp, minBand) && Good(m) && Named(tasks)
    requires forall t :: t in tasks ==> tasks[t].staticRankU == 0.0
    modifies tasks.Values`staticRankU
    ensures forall t :: t in tasks ==> tasks[t].staticRankU == Up(m, t)
  {
    var todo := tasks.Keys;
    while todo != {}
      invariant todo <= tasks.Keys && Memo(RankUs(tasks), m)
      invariant forall t :: t in tasks && t !in todo ==> RankUs(tasks)[t] == Up(m, t)
    {
      var id :| id in todo;
      var _ := ComputeUpwardRank(tasks, id, minComp, minBand, m);
      todo := todo - {id};
    }
    assert forall t :: t in tasks ==> RankUs(tasks)[t] == tasks[t].staticRankU;
  }

  // ---------- downward ranks ----------

  /** Tasks other than entries are marked exactly when they have been ranked. */
  ghost predicate Marked(g: Graph, visited: set<Id>, order: seq<Id>) {
    && (forall v :: v in order ==> v in g && !IsEntry(g, v))
    && (forall v :: v in g && !IsEntry(g, v) ==> (v in visited <==> v in order))
  }

  lemma MarkOne(g: Graph, visited: set<Id>, order: seq<Id>, v: Id)
    requires Marked(g, visited, order) && v in g
    ensures !IsEntry(g, v) ==> Marked(g, visited + {v}, order + [v])
    ensures IsEntry(g, v) ==> Marked(g, visited + {v}, order) && v !in order
  {
    hide IsEntry;
  }

  ghost predicate TracksOrder(m: Costs, preds: map<Id, seq<Id>>, visited: set<Id>, order: seq<Id>, r: map<Id, real>) {
    && Good(m) && PredecessorsOf(m.g, preds) && Marked(m.g, visited, order) && (forall v :: v in order ==> v in m.g)
    && r == Ranked(m, preds, order)
  }

  /** Ranking a task from the ranks as they stand is one more visit. */
  lemma TracksOneMore(m: Costs, preds: map<Id, seq<Id>>, visited: set<Id>, order: seq<Id>, r: map<Id, real>, t: Id)
    requires TracksOrder(m, preds, visited, order, r) && t in m.g && !IsEntry(m.g, t)
    ensures r.Keys == m.g.Keys && Good(m) && PredecessorsOf(m.g, preds)
    ensures TracksOrder(m, preds, visited + {t}, order + [t],
                        r[t := BestPredecessor(m, preds, r, t, |preds[t]|)])
  {
    hide Good, PredecessorsOf, IsEntry, BestPredecessor, Marked, Ranked;
    MarkOne(m.g, visited, order, t);
    MarkedInGraph(m.g, visited + {t}, order + [t]);
    RankedStep(m, preds, order + [t]);
    assert (order + [t])[..|order|] == order;
  }

  /** Starting an entry task changes its mark only. */
  lemma TracksEntry(m: Costs, preds: map<Id, seq<Id>>, visited: set<Id>, order: seq<Id>, r: map<Id, real>, e: Id)
    requires TracksOrder(m, preds, visited, order, r) && IsEntry(m.g, e)
    ensures e in r && r[e := 0.0] == r && TracksOrder(m, preds, visited + {e}, order, r)
  {
    hide Good, PredecessorsOf, Marked, Ranked;
    MarkOne(m.g, visited, order, e);
    UnvisitedRank(m, preds, order, e);
    assert r[e := 0.0] == r;
  }

  /** The closure computeDownwardRank with the map it captures. */
  class DownwardRanker {
    const tasks: map<Id, TaskNode>
    const minComp: real
    const minBand: real
    ghost const m: Costs
    ghost const preds: map<Id, seq<Id>>
    /** The keys of downwardVisited. */
    var visited: set<Id>
    /** Tasks given a rank so far, in order. */
    ghost var order: seq<Id>

    constructor (tasks: map<Id, TaskNode>, minComp: real, minBand: real, ghost m: Costs, ghost preds: map<Id, seq<Id>>)
      ensures this.tasks == tasks && this.minComp == minComp && this.minBand == minBand
      ensures this.m == m && this.preds == preds && visited == {} && order == []
    {
      this.tasks, this.minComp, this.minBand, this.m, this.preds := tasks, minComp, minBand, m, preds;
      visited, order := {}, [];
    }

    /** The nodes, their predecessor lists and costs are as given. */
    ghost predicate Fits()
      reads tasks.Values`predecessors
    {
      && Models(m, tasks, minComp, minBand) && Good(m) && Named(tasks)
      && preds == Preds(tasks) && PredecessorsOf(m.g, preds)
    }

    /** Visited tasks are marked, and the stored ranks are those that the visiting order determines. */
    ghost predicate Tracks()
      reads this, tasks.Values`predecessors, tasks.Values`staticRankD
    {
      Fits() && TracksOrder(m, preds, visited, order, RankDs(tasks))
    }

    lemma Means()
      requires Tracks()
      ensures Fits() && TracksOrder(m, preds, visited, order, RankDs(tasks))
      ensures Good(m) && PredecessorsOf(m.g, preds) && Named(tasks) && Closed(m.g)
      ensures m.g.Keys == tasks.Keys == preds.Keys
      ensures forall t :: t in tasks ==> tasks[t].successors == m.g[t] && tasks[t].predecessors == preds[t]
    {
    }

    lemma TracksAgain()
      requires Fits() && TracksOrder(m, preds, visited, order, RankDs(tasks))
      ensures Tracks()
    {
    }

    /** The data size of the first edge from predNode to the task. */
    method FirstDataSize(predID: Id, taskID: Id) returns (dataSize: int)
      requires Fits() && Edge(m.g, predID, taskID)
      ensures dataSize == m.g[predID][FirstEdge(m.g, predID, taskID)].dataSize
    {
      var succs := tasks[predID].successors;
      dataSize := 0;
      for i := 0 to |succs|
        invariant forall j :: 0 <= j < i ==> succs[j].targetTaskID != taskID
      {
        if succs[i].targetTaskID == taskID { return succs[i].dataSize; }
      }
    }

    /** The loop over the predecessors. */
    method MaxPredecessorCost(taskID: Id) returns (maxPredCost: real)
      requires Fits() && taskID in tasks
      ensures maxPredCost == BestPredecessor(m, preds, RankDs(tasks), taskID, |preds[taskID]|)
      ensures Fits() && RankDs(tasks) == old(RankDs(tasks))
    {
      var ps := tasks[taskID].predecessors;
      assert ps == preds[taskID];
      maxPredCost := 0.0;
      for i := 0 to |ps|
        invariant maxPredCost == BestPredecessor(m, preds, RankDs(tasks), taskID, i)
      {
        var predID := ps[i];
        assert predID in preds[taskID] && Edge(m.g, predID, taskID);
        var predNode := tasks[predID];
        var dataSize := FirstDataSize(predID, taskID);
        var edge := Dependency(taskID, dataSize);
        assert edge == m.g[predID][FirstEdge(m.g, predID, taskID)];
        var cost := predNode.staticRankD + Exec(predNode.baseComputation, minComp) + Comm(edge, minBand);
        if cost > maxPredCost { maxPredCost := cost; }
      }
    }

    /** Marks a task and stores its rank; `more` is what that adds to the visiting order. */
    method Record(taskID: Id, rank: real, ghost more: seq<Id>)
      requires Fits() && taskID in tasks
      modifies this, tasks.Values`staticRankD
      ensures Fits() && RankDs(tasks) == old(RankDs(tasks))[taskID := rank]
      ensures visited == old(visited) + {taskID} && order == old(order) + more
    {
      hide Good, PredecessorsOf, Models;
      visited := visited + {taskID};
      tasks[taskID].staticRankD := rank;
      order := order + more;
    }

    /** Ranks one task from its predecessors as they stand. */
    method RankOne(taskID: Id)
      requires Tracks() && taskID in tasks && !IsEntry(m.g, taskID)
      modifies this, tasks.Values`staticRankD
      ensures Tracks() && order == old(order) + [taskID]
    {
      hide Tracks, Fits, Good, PredecessorsOf, IsEntry, BestPredecessor, RankDs, Named, TracksOrder;
      Means();
      TracksOneMore(m, preds, visited, order, RankDs(tasks), taskID);
      var maxPredCost := MaxPredecessorCost(taskID);
      Record(taskID, maxPredCost, [taskID]);
      TracksAgain();
    }

    method ComputeDownwardRank(taskID: Id)
      requires Closed(m.g) && Tracks() && taskID in tasks && taskID in m.g && !IsEntry(m.g, taskID)
      modifies this, tasks.Values`staticRankD
      ensures Tracks() && order == Visit(m.g, old(order), taskID)
      decreases |Unseen(m.g, order)|
    {
      hide Tracks, Fits, Good, PredecessorsOf, IsEntry, RankDs, Named, TracksOrder, Closed;
      Means();
      MarkedMeans(taskID);
      if taskID in visited { return; }
      RankOne(taskID);
      var succs := tasks[taskID].successors;
      ghost var goal := VisitAll(m.g, order, succs);
      for i := 0 to |succs|
        invariant Tracks() && old(order) + [taskID] <= order
        invariant VisitAll(m.g, order, succs[i..]) == goal
      {
        assert succs[i..][0] == succs[i] && succs[i..][1..] == succs[i + 1..];
        NotEntry(m.g, taskID, i);
        FewerUnseen(m.g, old(order), taskID, order);
        ComputeDownwardRank(succs[i].targetTaskID);
      }
    }

    lemma MarkedMeans(t: Id)
      requires Tracks() && t in m.g && !IsEntry(m.g, t)
      ensures t in visited <==> t in order
    {
    }

    /** Step 2: the entry tasks, in any order of tasks, and everything below them. */
    method ComputeDownwardRanks() returns (ghost es: seq<Id>)
      requires Closed(m.g) && Tracks() && order == []
      modifies this, tasks.Values`staticRankD
      ensures Tracks() && AreEntries(m.g, es) && (forall e :: IsEntry(m.g, e) ==> e in es)
      ensures order == FromEntries(m.g, es)
    {
      hide Tracks, Fits, Good, PredecessorsOf, IsEntry, RankDs, Named, TracksOrder, Closed;
      es := [];
      var todo := tasks.Keys;
      Means();
      EntriesInGraph(m.g);
      while todo != {}
        invariant todo <= tasks.Keys && Tracks() && AreEntries(m.g, es)
        invariant forall e :: IsEntry(m.g, e) && e !in todo ==> e in es
        invariant order == FromEntries(m.g, es)
      {
        var id :| id in todo;
        todo := todo - {id};
        Means();
        EmptyIsEntry(m.g, preds, id);
        if |tasks[id].predecessors| == 0 {
          StartEntry(id);
          assert (es + [id])[..|es|] == es;
          es := es + [id];
        }
      }
    }

    method StartEntry(id: Id)
      requires Closed(m.g) && Tracks() && id in tasks && id in m.g && IsEntry(m.g, id)
      modifies this, tasks.Values`staticRankD
      ensures Tracks() && order == VisitAll(m.g, old(order), m.g[id])
    {
      hide Tracks, Fits, Good, PredecessorsOf, IsEntry, RankDs, Named, TracksOrder, Closed;
      Means();
      TracksEntry(m, preds, visited, order, RankDs(tasks), id);
      Record(id, 0.0, []);
      assert order == old(order);
      TracksAgain();
      var succs := tasks[id].successors;
      for i := 0 to |succs|
        invariant Tracks() && VisitAll(m.g, order, succs[i..]) == VisitAll(m.g, old(order), succs)
      {
        assert succs[i..][0] == succs[i] && succs[i..][1..] == succs[i + 1..];
        NotEntry(m.g, id, i);
        ComputeDownwardRank(succs[i].targetTaskID);
      }
    }
  }

  lemma GoodClosed(m: Costs)
    requires Good(m)
    ensures Closed(m.g)
  {
  }

  lemma MarkedInGraph(g: Graph, visited: set<Id>, order: seq<Id>)
    requires Marked(g, visited, order)
    ensures forall v :: v in order ==> v in g
  {
  }

  lemma EntriesInGraph(g: Graph)
    ensures forall e :: IsEntry(g, e) ==> e in g
  {
  }

  lemma NotEntry(g: Graph, u: Id, k: nat)
    requires Closed(g) && u in g && k < |g[u]|
    ensures g[u][k].targetTaskID in g && !IsEntry(g, g[u][k].targetTaskID)
  {
    assert Edge(g, u, g[u][k].targetTaskID);
  }

  lemma FewerUnseen(g: Graph, seen: seq<Id>, t: Id, r: seq<Id>)
    requires t in g && t !in seen && seen + [t] <= r
    ensures |Unseen(g, r)| < |Unseen(g, seen)|
  {
    assert (seen + [t])[|seen|] == t && forall x :: x in seen ==> x in seen + [t];
    assert forall x :: x in seen + [t] ==> x in r;
    SubsetSmaller(Unseen(g, r), Unseen(g, seen), t);
  }

  lemma EmptyIsEntry(g: Graph, preds: map<Id, seq<Id>>, v: Id)
    requires PredecessorsOf(g, preds) && v in g
    ensures preds[v] == [] <==> IsEntry(g, v)
  {
    if preds[v] != [] { assert preds[v][0] in preds[v]; }
  }

  // ---------- all of Algorithm 1 ----------

  /** The rank of the first entry task the iteration meets. */
  method SourceRank(tasks: map<Id, TaskNode>, ghost g: Graph) returns (srcRank: real)
    requires g.Keys == tasks.Keys && PredecessorsOf(g, Preds(tasks))
    ensures SourceRankOf(g, RankSums(tasks), srcRank)
  {
    hide PredecessorsOf, IsEntry;
    EntriesInGraph(g);
    var todo := tasks.Keys;
    while todo != {}
      invariant todo <= tasks.Keys
      invariant forall e :: IsEntry(g, e) ==> e in todo
    {
      var id :| id in todo;
      EmptyIsEntry(g, Preds(tasks), id);
      if |tasks[id].predecessors| == 0 { return tasks[id].staticRankU + tasks[id].staticRankD; }
      todo := todo - {id};
    }
    return 0.0;
  }

  /** One turn of the loop that adds up the volume. */
  lemma OneMoreTask(m: Costs, all: set<Id>, todo: set<Id>, t: Id)
    requires Good(m) && all == m.g.Keys && t in todo && todo <= all
    ensures m.minComp > 0.0
    ensures ExecSum(m, all - (todo - {t})) == Exec(m.work[t], m.minComp) + ExecSum(m, all - todo)
  {
    ExecSumRemove(m, all - (todo - {t}), t);
    assert all - (todo - {t}) - {t} == all - todo;
  }

  /** The same turn, for the critical set. */
  lemma OneMoreCandidate(rank: map<Id, real>, r: real, todo: set<Id>, t: Id)
    requires t in todo && t in rank
    ensures TasksRanked(rank, r) - (todo - {t}) == TasksRanked(rank, r) - todo + if rank[t] == r then {t} else {}
  {
  }

  lemma NoCandidates(rank: map<Id, real>, r: real)
    ensures TasksRanked(rank, r) - rank.Keys == {}
  {
  }

  /** The loop over the tasks that adds up the volume and picks the critical tasks. */
  method BuildMeta(tasks: map<Id, TaskNode>, minComp: real, srcRank: real, ghost m: Costs, ghost minBand: real)
    returns (meta: TaskMeta)
    requires Models(m, tasks, minComp, minBand) && Good(m)
    ensures meta == TaskMeta(Volume(m), TasksRanked(RankSums(tasks), srcRank))
  {
    hide Good, ExecSum, Exec, TasksRanked, Volume, Average, RankSums;
    GoodRates(m);
    NoVolume(m);
    ghost var rank, all := RankSums(tasks), tasks.Keys;
    NoCandidates(rank, srcRank);
    RankSumsAre(tasks);
    var totalWHat, critical: set<Id> := 0.0, {};
    var todo := tasks.Keys;
    assert all - todo == {};
    while todo != {}
      invariant todo <= all && totalWHat == ExecSum(m, all - todo) && critical == TasksRanked(rank, srcRank) - todo
    {
      var id :| id in todo;
      var node := tasks[id];
      OneMoreTask(m, all, todo, id);
      OneMoreCandidate(rank, srcRank, todo, id);
      totalWHat := totalWHat + Exec(node.baseComputation, minComp);
      if node.staticRankU + node.staticRankD == srcRank { critical := critical + {id}; }
      todo := todo - {id};
    }
    assert all - todo == all;
    AverageIsVolume(m, totalWHat, |tasks|);
    meta := TaskMeta(Average(totalWHat, |tasks|), critical);
  }

  lemma RankSumsAre(tasks: map<Id, TaskNode>)
    ensures RankSums(tasks).Keys == tasks.Keys
    ensures forall t :: t in tasks ==> RankSums(tasks)[t] == tasks[t].staticRankU + tasks[t].staticRankD
  {
  }

  function Average(total: real, n: nat): real {
    if n > 0 then total / n as real else 0.0
  }

  lemma AverageIsVolume(m: Costs, total: real, n: nat)
    requires Good(m) && total == ExecSum(m, m.g.Keys) && n == |m.g.Keys|
    ensures Average(total, n) == Volume(m)
  {
    hide Good, Exec;
  }

  lemma NoVolume(m: Costs)
    requires Good(m)
    ensures ExecSum(m, {}) == 0.0
  {
  }

  /** What Algorithm 1 needs of a DAG: the shape the parser leaves behind. */
  ghost predicate Rankable(tasks: map<Id, TaskNode>)
    reads tasks.Values`predecessors, tasks.Values`staticRankU, tasks.Values`staticRankD
  {
    && Named(tasks) && Closed(GraphOf(tasks)) && Acyclic(GraphOf(tasks)) && PredecessorsOf(GraphOf(tasks), Preds(tasks))
    && (forall t :: t in tasks ==> tasks[t].baseComputation >= 0 && tasks[t].staticRankU == tasks[t].staticRankD == 0.0)
    && (forall t, k :: t in tasks && 0 <= k < |tasks[t].successors| ==> tasks[t].successors[k].dataSize >= 0)
  }

  /** Every stored upward rank is the recursion's value. */
  ghost predicate UpwardDone(tasks: map<Id, TaskNode>, m: Costs)
    requires Good(m) && m.g.Keys == tasks.Keys
    reads tasks.Values`staticRankU
  {
    forall t :: t in tasks ==> tasks[t].staticRankU == Up(m, t)
  }

  ghost predicate Zero(r: map<Id, real>) {
    forall t :: t in r ==> r[t] == 0.0
  }

  lemma RankedKeys(tasks: map<Id, TaskNode>)
    ensures RankDs(tasks).Keys == Preds(tasks).Keys == tasks.Keys
  {
  }

  lemma NothingRanked(m: Costs, preds: map<Id, seq<Id>>, r: map<Id, real>)
    requires Good(m) && PredecessorsOf(m.g, preds) && r.Keys == m.g.Keys && Zero(r)
    ensures TracksOrder(m, preds, {}, [], r)
  {
    hide Good, PredecessorsOf, IsEntry;
  }

  lemma OrderRanked(m: Costs, preds: map<Id, seq<Id>>, visited: set<Id>, order: seq<Id>, r: map<Id, real>)
    requires TracksOrder(m, preds, visited, order, r)
    ensures Good(m) && PredecessorsOf(m.g, preds) && (forall v :: v in order ==> v in m.g)
    ensures r == Ranked(m, preds, order)
  {
    hide Good, PredecessorsOf, Marked, Ranked;
  }

  /** Steps 9-15, from fresh ranks. */
  method RankDownwards(tasks: map<Id, TaskNode>, minComp: real, minBand: real, ghost m: Costs)
    returns (ghost es: seq<Id>)
    requires Models(m, tasks, minComp, minBand) && Good(m) && Named(tasks) && PredecessorsOf(m.g, Preds(tasks))
    requires Zero(RankDs(tasks))
    modifies tasks.Values`staticRankD
    ensures SearchedFrom(m.g, es) && RankDs(tasks) == Ranked(m, Preds(tasks), FromEntries(m.g, es))
  {
    hide Good, PredecessorsOf, IsEntry, Marked, Ranked, TracksOrder, Preds, RankDs;
    GoodClosed(m);
    var ranker := new DownwardRanker(tasks, minComp, minBand, m, Preds(tasks));
    RankedKeys(tasks);
    NothingRanked(m, Preds(tasks), RankDs(tasks));
    ranker.TracksAgain();
    es := ranker.ComputeDownwardRanks();
    OrderRanked(m, Preds(tasks), ranker.visited, ranker.order, RankDs(tasks));
  }

  lemma ModelFits(tasks: map<Id, TaskNode>, workers: seq<Worker>)
    requires Rankable(tasks) && forall w :: w in workers ==> w.computeMultiplier > 0.0
    ensures var m := DagCosts(tasks, workers);
            && Good(m) && Models(m, tasks, m.minComp, m.minBand) && Named(tasks)
            && PredecessorsOf(m.g, Preds(tasks)) && Zero(RankDs(tasks))
    ensures forall t :: t in tasks ==> tasks[t].staticRankU == 0.0
  {
  }

  /** Steps 2-15: both ranks of every task. */
  method RankTasks(tasks: map<Id, TaskNode>, minComp: real, minBand: real, ghost m: Costs) returns (ghost es: seq<Id>)
    requires Good(m) && Models(m, tasks, minComp, minBand) && Named(tasks) && PredecessorsOf(m.g, Preds(tasks))
    requires Zero(RankDs(tasks)) && forall t :: t in tasks ==> tasks[t].staticRankU == 0.0
    modifies tasks.Values`staticRankU, tasks.Values`staticRankD
    ensures UpwardDone(tasks, m)
    ensures SearchedFrom(m.g, es) && RankDs(tasks) == Ranked(m, Preds(tasks), FromEntries(m.g, es))
  {
    hide Good, PredecessorsOf, SearchedFrom, Ranked, Named, Zero, RankDs, Preds, FromEntries;
    ComputeUpwardRanks(tasks, minComp, minBand, m);
    es := RankDownwards(tasks, minComp, minBand, m);
  }

  /** Steps 16-22: source rank, volume and critical set. */
  method Summarise(tasks: map<Id, TaskNode>, minComp: real, minBand: real, ghost m: Costs)
    returns (meta: TaskMeta, srcRank: real)
    requires Good(m) && Models(m, tasks, minComp, minBand) && PredecessorsOf(m.g, Preds(tasks))
    ensures SourceRankOf(m.g, RankSums(tasks), srcRank)
    ensures meta == TaskMeta(Volume(m), TasksRanked(RankSums(tasks), srcRank))
  {
    hide Good, PredecessorsOf, SourceRankOf, TasksRanked, Volume;
    srcRank := SourceRank(tasks, m.g);
    meta := BuildMeta(tasks, minComp, srcRank, m, minBand);
  }

  /** The two stored ranks add up to what Algorithm 1 calls the rank. */
  lemma RanksAddUp(tasks: map<Id, TaskNode>, m: Costs, es: seq<Id>)
    requires Good(m) && m.g.Keys == tasks.Keys && UpwardDone(tasks, m) && PredecessorsOf(m.g, Preds(tasks))
    requires SearchedFrom(m.g, es) && RankDs(tasks) == Ranked(m, Preds(tasks), FromEntries(m.g, es))
    ensures RanksOf(m, Preds(tasks), es, RankSums(tasks))
  {
    hide Good, Up, PredecessorsOf, SearchedFrom, Ranked, FromEntries, Preds;
    assert forall t :: t in tasks ==> RankDs(tasks)[t] == tasks[t].staticRankD;
  }

  /** calculateRanks: the stored ranks and the metadata are those of Algorithm 1 under the slowest worker and link. */
  method CalculateRanks(dag: DAG, workers: seq<Worker>) returns (meta: TaskMeta, ghost es: seq<Id>)
    requires Rankable(dag.tasks) && forall w :: w in workers ==> w.computeMultiplier > 0.0
    modifies dag.tasks.Values`staticRankU, dag.tasks.Values`staticRankD
    ensures var m := DagCosts(dag.tasks, workers);
            && Good(m) && UpwardDone(dag.tasks, m) && RanksOf(m, Preds(dag.tasks), es, RankSums(dag.tasks))
            && Analysed(m, RankSums(dag.tasks), meta)
  {
    hide Rankable, Good, PredecessorsOf, SearchedFrom, Ranked, Named, Zero, SourceRankOf, TasksRanked, Volume, Models;
    hide RankUs, RankDs, Preds, FromEntries, SlowestMultiplier, SlowestBandwidth, RankSums, UpwardDone, RanksOf;
    hide Analysed, DagCosts;
    ghost var m := DagCosts(dag.tasks, workers);
    ModelFits(dag.tasks, workers);
    var minComp, minBand := SlowestRates(dag, workers);
    es := RankTasks(dag.tasks, minComp, minBand, m);
    var src;
    meta, src := Summarise(dag.tasks, minComp, minBand, m);
    GraphsAgree(dag.tasks, workers);
    RanksAddUp(dag.tasks, m, es);
    AnalysedBy(m, RankSums(dag.tasks), meta, Preds(dag.tasks), es, src);
  }

  method SlowestRates(dag: DAG, workers: seq<Worker>) returns (minComp: real, minBand: real)
    ensures minComp == DagCosts(dag.tasks, workers).minComp && minBand == DagCosts(dag.tasks, workers).minBand
  {
    hide SlowestMultiplier, SlowestBandwidth;
    minComp := ComputeMinComputeMultiplier(workers);
    minBand := ComputeMinBandwidth(workers);
    SlowestIsMin(workers, minComp, minBand);
  }

  lemma GraphsAgree(tasks: map<Id, TaskNode>, workers: seq<Worker>)
    ensures DagCosts(tasks, workers).g.Keys == tasks.Keys
  {
  }
}
