/** The costs that ranks add up, in numbers: work over the slowest speed, bytes over the slowest bandwidth in megabytes
    (internal/scheduler/core.go:507-527, 550-566, 602-616). */
module PathCosts {
  import opened Api
  import opened AlgorithmOne
  import opened Graphs
  import opened LongestPaths
  import opened CriticalSet
  import opened Preorder
  import GraphEngine
  import Ranks

  /** The computation of the tasks a walk leaves, added up. */
  ghost function WorkLeft(m: Costs, u: Id, ks: seq<nat>): int
    requires Good(m) && Walk(m.g, u, ks)
    decreases |ks|
  {
    if ks == [] then 0 else m.work[u] + WorkLeft(m, m.g[u][ks[0]].targetTaskID, ks[1..])
  }

  /** The bytes sent along its edges. */
  ghost function BytesSent(m: Costs, u: Id, ks: seq<nat>): int
    requires Good(m) && Walk(m.g, u, ks)
    decreases |ks|
  {
    if ks == [] then 0 else m.g[u][ks[0]].dataSize + BytesSent(m, m.g[u][ks[0]].targetTaskID, ks[1..])
  }

  /** `work` operations at speed f and `bytes` bytes at b megabytes per unit of time take the time r. */
  ghost predicate Takes(work: int, bytes: int, f: real, b: real, r: real) {
    r * f * (b * 1048576.0) == work as real * (b * 1048576.0) + bytes as real * f
  }

  lemma DivisionTakes(work: int, bytes: int, f: real, b: real)
    requires f > 0.0 && b > 0.0
    ensures Takes(work, bytes, f, b, work as real / f + bytes as real / (b * 1048576.0))
  {
    var x, y, c := work as real / f, bytes as real / (b * 1048576.0), b * 1048576.0;
    assert x * f == work as real && y * c == bytes as real;
    Distribute(x, y, f, c);
  }

  lemma Distribute(x: real, y: real, f: real, c: real)
    ensures (x + y) * f * c == (x * f) * c + (y * c) * f
  {
  }

  lemma TakesAdd(w: int, v: int, w': int, v': int, f: real, b: real, r: real, r': real)
    requires Takes(w, v, f, b, r) && Takes(w', v', f, b, r')
    ensures Takes(w + w', v + v', f, b, r + r')
  {
    var c := b * 1048576.0;
    Sums(r, r', f, c);
    Products(w as real, w' as real, c);
    Products(v as real, v' as real, f);
  }

  lemma Sums(r: real, r': real, f: real, c: real)
    ensures (r + r') * f * c == r * f * c + r' * f * c
  {
  }

  lemma Products(x: real, y: real, c: real)
    ensures (x + y) * c == x * c + y * c
  {
  }

  lemma StepTakes(m: Costs, u: Id, k: nat)
    requires Good(m) && u in m.g && k < |m.g[u]|
    ensures Takes(m.work[u], m.g[u][k].dataSize, m.minComp, m.minBand, StepCost(m, u, k))
  {
    var b := m.minBand;
    assert b * 1024.0 * 1024.0 == b * 1048576.0;
    DivisionTakes(m.work[u], m.g[u][k].dataSize, m.minComp, b);
  }

  /** A walk up to its last task. */
  lemma {:induction false} StepSumInNumbers(m: Costs, u: Id, ks: seq<nat>)
    requires Good(m) && Walk(m.g, u, ks)
    ensures Takes(WorkLeft(m, u, ks), BytesSent(m, u, ks), m.minComp, m.minBand, StepSum(m, u, ks))
    decreases |ks|
  {
    hide Closed, Acyclic, Takes, StepCost;
    if ks == [] {
      NothingTakes(m.minComp, m.minBand);
    } else {
      var v := m.g[u][ks[0]].targetTaskID;
      StepTakes(m, u, ks[0]);
      StepSumInNumbers(m, v, ks[1..]);
      TakesAdd(m.work[u], m.g[u][ks[0]].dataSize, WorkLeft(m, v, ks[1..]), BytesSent(m, v, ks[1..]),
               m.minComp, m.minBand, StepCost(m, u, ks[0]), StepSum(m, v, ks[1..]));
    }
  }

  lemma NothingTakes(f: real, b: real)
    ensures Takes(0, 0, f, b, 0.0)
  {
  }

  lemma ExecTakes(m: Costs, t: Id)
    requires Good(m) && t in m.g
    ensures Takes(m.work[t], 0, m.minComp, m.minBand, Exec(m.work[t], m.minComp))
  {
    DivisionTakes(m.work[t], 0, m.minComp, m.minBand);
  }

  lemma PathTakes(m: Costs, u: Id, ks: seq<nat>)
    requires Good(m) && Walk(m.g, u, ks)
    ensures End(m.g, u, ks) in m.g
    ensures Takes(WorkLeft(m, u, ks) + m.work[End(m.g, u, ks)], BytesSent(m, u, ks), m.minComp, m.minBand,
                  PathCost(m, u, ks))
  {
    hide Takes;
    EndInGraph(m, u, ks);
    StepSumInNumbers(m, u, ks);
    ExecTakes(m, End(m.g, u, ks));
    TakesAdd(WorkLeft(m, u, ks), BytesSent(m, u, ks), m.work[End(m.g, u, ks)], 0, m.minComp, m.minBand,
             StepSum(m, u, ks), Exec(m.work[End(m.g, u, ks)], m.minComp));
  }

  /** The cost of a whole path: all its tasks' work at the slowest speed, and all its edges' bytes over the slowest
      link. */
  lemma PathCostInNumbers(m: Costs, u: Id, ks: seq<nat>)
    requires Good(m) && Walk(m.g, u, ks)
    ensures End(m.g, u, ks) in m.g
    ensures PathCost(m, u, ks) * m.minComp * (m.minBand * 1048576.0) ==
            (WorkLeft(m, u, ks) + m.work[End(m.g, u, ks)]) as real * (m.minBand * 1048576.0)
            + BytesSent(m, u, ks) as real * m.minComp
  {
    hide Closed, Acyclic, Takes, WorkLeft, BytesSent, Walk, End, PathCost;
    PathTakes(m, u, ks);
    TakesMeans(WorkLeft(m, u, ks) + m.work[End(m.g, u, ks)], BytesSent(m, u, ks), m.minComp, m.minBand,
               PathCost(m, u, ks));
  }

  /** So the upward rank is the time of some path to an exit task, and no path takes longer. */
  lemma UpInNumbers(m: Costs, u: Id) returns (ks: seq<nat>)
    requires Good(m) && u in m.g
    ensures Walk(m.g, u, ks) && IsExit(m.g, End(m.g, u, ks)) && End(m.g, u, ks) in m.g
    ensures Takes(WorkLeft(m, u, ks) + m.work[End(m.g, u, ks)], BytesSent(m, u, ks), m.minComp, m.minBand, Up(m, u))
    ensures forall ms :: Walk(m.g, u, ms) ==> PathCost(m, u, ms) <= Up(m, u)
  {
    hide Takes, Good, Up;
    UpIsLongest(m, u);
    ks := UpAttained(m, u);
    PathTakes(m, u, ks);
  }

  // ---------- slower workers, slower links ----------

  /** The same DAG with nothing faster. */
  ghost predicate Slower(m: Costs, m': Costs) {
    m'.g == m.g && m'.work == m.work && 0.0 < m'.minComp <= m.minComp && 0.0 < m'.minBand <= m.minBand
  }

  lemma QuotientGrows(x: real, y: real, y': real)
    requires x >= 0.0 && 0.0 < y' <= y
    ensures x / y <= x / y'
  {
    var q, q' := x / y, x / y';
    assert q * y == x && q' * y' == x;
    Quotient(x, y');
    NonNegative(q', y - y');
    assert q' * y == q' * y' + q' * (y - y');
    Cancel(q, q', y);
  }

  lemma NonNegative(x: real, y: real)
    requires x >= 0.0 && y >= 0.0
    ensures x * y >= 0.0
  {
  }

  lemma Cancel(x: real, x': real, y: real)
    requires y > 0.0 && x * y <= x' * y
    ensures x <= x'
  {
    assert (x' - x) * y >= 0.0;
  }

  lemma ExecGrows(work: int, f: real, f': real)
    requires work >= 0 && 0.0 < f' <= f
    ensures Exec(work, f) <= Exec(work, f')
  {
    QuotientGrows(work as real, f, f');
  }

  lemma CommGrows(d: Dependency, b: real, b': real)
    requires d.dataSize >= 0 && 0.0 < b' <= b
    ensures Comm(d, b) <= Comm(d, b')
  {
    QuotientGrows(d.dataSize as real, b * 1024.0 * 1024.0, b' * 1024.0 * 1024.0);
  }

  lemma {:induction false} StepSumGrows(m: Costs, m': Costs, u: Id, ks: seq<nat>)
    requires Good(m) && Good(m') && Slower(m, m') && Walk(m.g, u, ks)
    ensures StepSum(m, u, ks) <= StepSum(m', u, ks)
    decreases |ks|
  {
    hide Exec, Comm, Closed, Acyclic;
    if ks != [] {
      ExecGrows(m.work[u], m.minComp, m'.minComp);
      CommGrows(m.g[u][ks[0]], m.minBand, m'.minBand);
      StepSumGrows(m, m', m.g[u][ks[0]].targetTaskID, ks[1..]);
    }
  }

  lemma PathCostGrows(m: Costs, m': Costs, u: Id, ks: seq<nat>)
    requires Good(m) && Good(m') && Slower(m, m') && Walk(m.g, u, ks)
    ensures PathCost(m, u, ks) <= PathCost(m', u, ks)
  {
    hide Exec, StepSum, Closed, Acyclic;
    EndInGraph(m, u, ks);
    StepSumGrows(m, m', u, ks);
    ExecGrows(m.work[End(m.g, u, ks)], m.minComp, m'.minComp);
  }

  /** A slower worker or link never lowers an upward rank. */
  lemma SlowerNeverLower(m: Costs, m': Costs, u: Id)
    requires Good(m) && Good(m') && Slower(m, m') && u in m.g
    ensures Up(m, u) <= Up(m', u)
  {
    hide Good, Up, PathCost;
    var ks := UpAttained(m, u);
    PathCostGrows(m, m', u, ks);
    WalkBelowUp(m', u, ks);
  }

  // ---------- the volume term ----------

  ghost function TotalWork(m: Costs, S: set<Id>): int
    requires Good(m) && S <= m.g.Keys
  {
    if S == {} then 0 else var t :| t in S; m.work[t] + TotalWork(m, S - {t})
  }

  lemma {:induction false} TotalWorkRemove(m: Costs, S: set<Id>, t: Id)
    requires Good(m) && S <= m.g.Keys && t in S
    ensures TotalWork(m, S) == m.work[t] + TotalWork(m, S - {t})
    decreases |S|
  {
    var x :| x in S && TotalWork(m, S) == m.work[x] + TotalWork(m, S - {x});
    if x != t {
      TotalWorkRemove(m, S - {x}, t);
      TotalWorkRemove(m, S - {t}, x);
      assert S - {x} - {t} == S - {t} - {x};
    }
  }

  lemma {:induction false} ExecSumInNumbers(m: Costs, S: set<Id>)
    requires Good(m) && S <= m.g.Keys
    ensures Takes(TotalWork(m, S), 0, m.minComp, m.minBand, ExecSum(m, S))
  {
    hide Closed, Acyclic, Takes, Exec;
    if S == {} {
      NothingTakes(m.minComp, m.minBand);
    } else {
      var t :| t in S;
      ExecSumRemove(m, S, t);
      TotalWorkRemove(m, S, t);
      ExecSumInNumbers(m, S - {t});
      ExecTakes(m, t);
      TakesAdd(m.work[t], 0, TotalWork(m, S - {t}), 0, m.minComp, m.minBand, Exec(m.work[t], m.minComp),
               ExecSum(m, S - {t}));
    }
  }

  /** The volume term is the time of all the DAG's work, divided by the number of its tasks. */
  lemma VolumeInNumbers(m: Costs)
    requires Good(m)
    ensures Takes(TotalWork(m, m.g.Keys), 0, m.minComp, m.minBand, Volume(m) * |m.g.Keys| as real)
  {
    hide Takes, Good, ExecSum, Volume;
    VolumeTimes(m);
    ExecSumInNumbers(m, m.g.Keys);
  }

  lemma VolumeTimes(m: Costs)
    requires Good(m)
    ensures Volume(m) * |m.g.Keys| as real == ExecSum(m, m.g.Keys)
  {
    hide Good;
    if m.g != map[] { Divided(ExecSum(m, m.g.Keys), |m.g.Keys| as real); }
  }

  lemma Divided(s: real, n: real)
    requires n > 0.0
    ensures s / n * n == s
  {
  }

  // ---------- two tasks in a row ----------

  /** a sends `size` bytes to b; f and c are the slowest worker's and link's rates. */
  ghost predicate IsChain(m: Costs, a: Id, b: Id, size: int) {
    Good(m) && a != b && m.g == map[a := [Dependency(b, size)], b := []]
  }

  lemma ChainEdges(m: Costs, a: Id, b: Id, size: int)
    requires IsChain(m, a, b, size)
    ensures forall u, v :: Edge(m.g, u, v) <==> u == a && v == b
    ensures OnlyEntry(m.g, a) && NoParallelEdges(m.g) && forall e :: IsEntry(m.g, e) <==> e == a
  {
    hide Closed, Acyclic;
    assert m.g[a][0].targetTaskID == b && Edge(m.g, a, b);
    assert IsEntry(m.g, a);
  }

  /** The only walks are the two tasks and the edge between them. */
  lemma ChainWalks(m: Costs, a: Id, b: Id, size: int, ks: seq<nat>)
    requires IsChain(m, a, b, size)
    ensures Walk(m.g, b, ks) ==> ks == []
    ensures Walk(m.g, a, ks) ==> ks == [] || ks == [0]
  {
    hide Closed, Acyclic;
    if ks != [] && Walk(m.g, a, ks) {
      assert ks[0] == 0 && m.g[a][0].targetTaskID == b && Walk(m.g, b, ks[1..]);
      assert ks == [0] + ks[1..];
    }
  }

  lemma ChainSums(m: Costs, a: Id, b: Id, size: int)
    requires IsChain(m, a, b, size)
    ensures Walk(m.g, a, [0]) && End(m.g, a, [0]) == b && WorkLeft(m, a, [0]) == m.work[a]
    ensures BytesSent(m, a, [0]) == size && WorkLeft(m, b, []) == BytesSent(m, b, []) == 0
    ensures IsExit(m.g, b) && !IsExit(m.g, a) && End(m.g, a, []) == a
  {
    hide Closed, Acyclic;
    assert [0][1..] == [] && m.g[a][0].targetTaskID == b;
    assert Walk(m.g, b, []);
  }

  lemma ChainTakes(m: Costs, a: Id, b: Id, size: int)
    requires IsChain(m, a, b, size)
    ensures m.work.Keys == m.g.Keys == {a, b}
    ensures Takes(m.work[b], 0, m.minComp, m.minBand, Up(m, b))
    ensures Takes(m.work[a] + m.work[b], size, m.minComp, m.minBand, Up(m, a))
  {
    hide Good, Takes, Up, Walk, End, IsExit, WorkLeft, BytesSent;
    var ks := UpInNumbers(m, b);
    var ms := UpInNumbers(m, a);
    ChainWalks(m, a, b, size, ks);
    ChainWalks(m, a, b, size, ms);
    ChainSums(m, a, b, size);
    ChainKeys(m, a, b, size);
  }

  /** The second task's upward rank is its own work; the first one's adds its work and the bytes sent. */
  lemma ChainUp(m: Costs, a: Id, b: Id, size: int)
    requires IsChain(m, a, b, size)
    ensures m.work.Keys == {a, b} && Up(m, b) * m.minComp == m.work[b] as real
    ensures Up(m, a) * m.minComp * (m.minBand * 1048576.0) ==
            (m.work[a] + m.work[b]) as real * (m.minBand * 1048576.0) + size as real * m.minComp
  {
    hide Good, Takes, Up, IsChain;
    ChainTakes(m, a, b, size);
    ChainRates(m, a, b, size);
    WorkAlone(m.work[b], m.minComp, m.minBand, Up(m, b));
    TakesMeans(m.work[a] + m.work[b], size, m.minComp, m.minBand, Up(m, a));
  }

  lemma ChainRates(m: Costs, a: Id, b: Id, size: int)
    requires IsChain(m, a, b, size)
    ensures Good(m) && m.minComp > 0.0 && m.minBand > 0.0
  {
    hide Closed, Acyclic;
  }

  lemma TakesMeans(work: int, bytes: int, f: real, b: real, r: real)
    requires Takes(work, bytes, f, b, r)
    ensures r * f * (b * 1048576.0) == work as real * (b * 1048576.0) + bytes as real * f
  {
  }

  /** Without bytes, only the speed counts. */
  lemma WorkAlone(work: int, f: real, b: real, r: real)
    requires f > 0.0 && b > 0.0 && Takes(work, 0, f, b, r)
    ensures r * f == work as real
  {
    var c := b * 1048576.0;
    Cancel(r * f, work as real, c);
    Cancel(work as real, r * f, c);
  }

  lemma SameTime(work: int, bytes: int, f: real, b: real, r: real, r': real)
    requires f > 0.0 && b > 0.0 && Takes(work, bytes, f, b, r) && Takes(work, bytes, f, b, r')
    ensures r == r'
  {
    var c := b * 1048576.0;
    Cancel(r * f, r' * f, c);
    Cancel(r' * f, r * f, c);
    Cancel(r, r', f);
    Cancel(r', r, f);
  }

  /** Whatever order the iterations take, the second task's downward rank is the first one's work and the bytes sent. */
  lemma ChainDown(m: Costs, preds: map<Id, seq<Id>>, es: seq<Id>, a: Id, b: Id, size: int)
    requires IsChain(m, a, b, size) && PredecessorsOf(m.g, preds) && SearchedFrom(m.g, es)
    ensures a in m.work && b in m.g
    ensures Takes(m.work[a], size, m.minComp, m.minBand, Ranked(m, preds, FromEntries(m.g, es))[b])
  {
    hide Closed, Acyclic, Takes, Ranked, FromEntries, PredecessorsOf, WorkLeft, BytesSent, Walk, StepSum, End;
    hide Dominates, NoParallelEdges;
    ChainEdges(m, a, b, size);
    SearchCovers(m.g, es);
    SinglePredecessorsFirst(m.g, es);
    var r := Ranked(m, preds, FromEntries(m.g, es))[b];
    RankedExact(m, preds, FromEntries(m.g, es), b);
    ChainArrives(m, a, b, size, r);
  }

  lemma ChainArrives(m: Costs, a: Id, b: Id, size: int, r: real)
    requires IsChain(m, a, b, size) && IsDownwardRank(m, b, r)
    ensures a in m.work && Takes(m.work[a], size, m.minComp, m.minBand, r)
  {
    hide Closed, Acyclic, Takes, WorkLeft, BytesSent, Walk, StepSum, End, Dominates, IsEntry;
    ChainEdges(m, a, b, size);
    ChainKeys(m, a, b, size);
    var e, ks :| IsEntry(m.g, e) && Walk(m.g, e, ks) && End(m.g, e, ks) == b && StepSum(m, e, ks) == r;
    ChainWalks(m, a, b, size, ks);
    ChainSums(m, a, b, size);
    StepSumInNumbers(m, a, ks);
  }

  /** The downward part of the second task's rank. */
  lemma ChainBelow(m: Costs, preds: map<Id, seq<Id>>, es: seq<Id>, rank: map<Id, real>, a: Id, b: Id, size: int)
    requires IsChain(m, a, b, size) && RanksOf(m, preds, es, rank)
    ensures b in rank && b in m.g && a in m.work && Takes(m.work[a], size, m.minComp, m.minBand, rank[b] - Up(m, b))
  {
    hide Closed, Acyclic, Takes, Up, Ranked, FromEntries, PredecessorsOf;
    ChainKeys(m, a, b, size);
    ChainDown(m, preds, es, a, b, size);
    assert rank[b] == Up(m, b) + Ranked(m, preds, FromEntries(m.g, es))[b];
  }

  /** What Algorithm 1 leaves for such a DAG: both tasks have the rank of the whole path, and both are critical. */
  lemma ChainAnalysed(m: Costs, rank: map<Id, real>, meta: TaskMeta, a: Id, b: Id, size: int)
    requires IsChain(m, a, b, size) && Analysed(m, rank, meta)
    ensures rank.Keys == m.g.Keys == {a, b} && rank[a] == rank[b] == Up(m, a) && meta.critical == {a, b}
    ensures meta.volPerSubtask == Volume(m)
  {
    hide Closed, Acyclic, Takes, Up, PredecessorsOf, Ranked, FromEntries, Volume;
    ChainEdges(m, a, b, size);
    ChainKeys(m, a, b, size);
    var preds, es :| RanksOf(m, preds, es, rank);
    EntryRank(m, preds, es, rank, a);
    ChainBelow(m, preds, es, rank, a, b, size);
    ChainWhole(m, a, b, size, rank[b] - Up(m, b));
    SourceIsEntry(m, rank, meta, a);
  }

  lemma ChainWhole(m: Costs, a: Id, b: Id, size: int, r: real)
    requires IsChain(m, a, b, size) && a in m.work && Takes(m.work[a], size, m.minComp, m.minBand, r)
    ensures r + Up(m, b) == Up(m, a)
  {
    hide Closed, Acyclic, Takes, Up;
    ChainTakes(m, a, b, size);
    TakesAdd(m.work[a], size, m.work[b], 0, m.minComp, m.minBand, r, Up(m, b));
    SameTime(m.work[a] + m.work[b], size, m.minComp, m.minBand, r + Up(m, b), Up(m, a));
  }

  lemma ChainVolume(m: Costs, a: Id, b: Id, size: int)
    requires IsChain(m, a, b, size)
    ensures Volume(m) * 2.0 * m.minComp == (m.work[a] + m.work[b]) as real
  {
    hide Good, Takes, Volume, TotalWork;
    VolumeInNumbers(m);
    ChainRates(m, a, b, size);
    ChainKeys(m, a, b, size);
    ChainWork(m, a, b, size);
    WorkAlone(m.work[a] + m.work[b], m.minComp, m.minBand, Volume(m) * 2.0);
  }

  lemma ChainWork(m: Costs, a: Id, b: Id, size: int)
    requires IsChain(m, a, b, size)
    ensures m.work.Keys == {a, b} && TotalWork(m, m.g.Keys) == m.work[a] + m.work[b]
  {
    hide Closed, Acyclic, TotalWork;
    ChainKeys(m, a, b, size);
    TotalWorkRemove(m, {a, b}, a);
    TotalWorkRemove(m, {b}, b);
    assert {a, b} - {a} == {b} && {b} - {b} == {};
    NoWork(m);
  }

  lemma ChainKeys(m: Costs, a: Id, b: Id, size: int)
    requires IsChain(m, a, b, size)
    ensures m.g.Keys == m.work.Keys == {a, b} && |m.g.Keys| == 2
  {
    hide Closed, Acyclic;
  }

  lemma NoWork(m: Costs)
    requires Good(m)
    ensures TotalWork(m, {}) == 0
  {
  }

  // ---------- what calculateRanks stores ----------

  /** A stored rank sum is the two stored ranks. */
  lemma StoredRanks(tasks: map<Id, TaskNode>, m: Costs, t: Id)
    requires Good(m) && m.g.Keys == tasks.Keys && Ranks.UpwardDone(tasks, m) && t in tasks
    ensures tasks[t].staticRankU == Up(m, t) && t in GraphEngine.RankSums(tasks)
    ensures tasks[t].staticRankD == GraphEngine.RankSums(tasks)[t] - Up(m, t)
  {
    hide Good, Up;
  }

  /** Ranks and volume term of two tasks in a row, in numbers: work w0 and w1, `size` bytes, speed f, bandwidth b. */
  ghost predicate ChainNumbers(w0: int, w1: int, size: int, f: real, b: real, upA: real, upB: real, downB: real,
                               vol: real) {
    var c := b * 1048576.0;
    && upA * f * c == (w0 + w1) as real * c + size as real * f && upB * f == w1 as real
    && downB * f * c == w0 as real * c + size as real * f && vol * 2.0 * f == (w0 + w1) as real
  }

  lemma ChainInNumbers(m: Costs, a: Id, b: Id, size: int, downB: real)
    requires IsChain(m, a, b, size) && a in m.work && Takes(m.work[a], size, m.minComp, m.minBand, downB)
    ensures m.work.Keys == m.g.Keys == {a, b}
    ensures ChainNumbers(m.work[a], m.work[b], size, m.minComp, m.minBand, Up(m, a), Up(m, b), downB, Volume(m))
  {
    hide Good, IsChain, Up, Volume, Takes;
    ChainRates(m, a, b, size);
    ChainKeys(m, a, b, size);
    ChainUp(m, a, b, size);
    ChainVolume(m, a, b, size);
    TakesMeans(m.work[a], size, m.minComp, m.minBand, downB);
  }

  /** calculateRanks on a DAG of two tasks in a row: the numbers on its nodes. */
  method CalculateChain(dag: DAG, workers: seq<Worker>, a: Id, b: Id, size: int) returns (meta: TaskMeta)
    requires Ranks.Rankable(dag.tasks) && forall w :: w in workers ==> w.computeMultiplier > 0.0
    requires a != b && GraphOf(dag.tasks) == map[a := [Dependency(b, size)], b := []] && dag.tasks.Keys == {a, b}
    modifies dag.tasks.Values`staticRankU, dag.tasks.Values`staticRankD
    ensures ChainNumbers(dag.tasks[a].baseComputation, dag.tasks[b].baseComputation, size, MinMultiplier(workers),
                         MinBandwidth(workers), dag.tasks[a].staticRankU, dag.tasks[b].staticRankU,
                         dag.tasks[b].staticRankD, meta.volPerSubtask)
    ensures dag.tasks[a].staticRankD == 0.0 && meta.critical == {a, b}
  {
    hide Ranks.Rankable, Good, Volume, Analysed, MinMultiplier, MinBandwidth, PredecessorsOf, SearchedFrom;
    hide Ranks.UpwardDone, RanksOf, GraphEngine.RankSums, Takes, Up, ChainNumbers;
    ghost var m := DagCosts(dag.tasks, workers);
    ghost var es;
    meta, es := Ranks.CalculateRanks(dag, workers);
    ghost var rank := GraphEngine.RankSums(dag.tasks);
    StoredRanks(dag.tasks, m, a);
    StoredRanks(dag.tasks, m, b);
    ChainBelow(m, Ranks.Preds(dag.tasks), es, rank, a, b, size);
    ChainInNumbers(m, a, b, size, dag.tasks[b].staticRankD);
    ChainAnalysed(m, rank, meta, a, b, size);
  }
}
