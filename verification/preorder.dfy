/** The visiting order of the downward-rank search: depth first, each task once, successors in list order
    (internal/scheduler/core.go:533-571, 579-588). */
module Preorder {
  import opened Api
  import opened Graphs
  import opened LongestPaths

  ghost function Unseen(g: Graph, seen: seq<Id>): set<Id> {
    set t | t in g && t !in seen
  }

  /** The order after one call of the closure for task t. */
  ghost function Visit(g: Graph, seen: seq<Id>, t: Id): (r: seq<Id>)
    requires Closed(g) && t in g
    ensures seen <= r
    decreases |Unseen(g, seen)|, 0
  {
    if t in seen then seen else
    assert Unseen(g, seen + [t]) == Unseen(g, seen) - {t};
    VisitAll(g, seen + [t], g[t])
  }

  ghost function VisitAll(g: Graph, seen: seq<Id>, ds: seq<Dependency>): (r: seq<Id>)
    requires Closed(g) && forall k :: 0 <= k < |ds| ==> ds[k].targetTaskID in g
    ensures seen <= r
    decreases |Unseen(g, seen)|, 1 + |ds|
  {
    if ds == [] then seen else
    var r := Visit(g, seen, ds[0].targetTaskID);
    SubsetSize(Unseen(g, r), Unseen(g, seen));
    VisitAll(g, r, ds[1..])
  }

  ghost predicate AreEntries(g: Graph, es: seq<Id>) {
    forall e :: e in es ==> e in g && IsEntry(g, e)
  }

  /** The order after the entry tasks es have been started, one after the other. */
  ghost function FromEntries(g: Graph, es: seq<Id>): seq<Id>
    requires Closed(g) && AreEntries(g, es)
  {
    if es == [] then [] else
    VisitAll(g, FromEntries(g, es[..|es| - 1]), g[es[|es| - 1]])
  }

  /** Some predecessor of r[i] is an entry task or was visited earlier. */
  ghost predicate HasParent(g: Graph, r: seq<Id>, i: nat)
    requires i < |r|
  {
    exists u :: Edge(g, u, r[i]) && (IsEntry(g, u) || u in r[..i])
  }

  /** All successors of v are in r. */
  ghost predicate Expanded(g: Graph, r: seq<Id>, v: Id) {
    v in g && forall k :: 0 <= k < |g[v]| ==> g[v][k].targetTaskID in r
  }

  /** What one piece of the search, from `seen` to r, guarantees. */
  ghost predicate Grown(g: Graph, seen: seq<Id>, r: seq<Id>) {
    && seen <= r
    && (NoRepeats(seen) ==> NoRepeats(r))
    && (forall i :: |seen| <= i < |r| ==> HasParent(g, r, i))
    && (forall v :: v in r && v !in seen ==> Expanded(g, r, v))
  }

  lemma GrownTransitive(g: Graph, a: seq<Id>, b: seq<Id>, c: seq<Id>)
    requires Grown(g, a, b) && Grown(g, b, c)
    ensures Grown(g, a, c)
  {
    forall i | |a| <= i < |c| ensures HasParent(g, c, i) {
      if i < |b| {
        assert HasParent(g, b, i) && b[..i] == c[..i];
      }
    }
    forall v | v in c && v !in a ensures Expanded(g, c, v) {
      if v in b { assert Expanded(g, b, v); }
    }
  }

  lemma {:induction false} VisitGrows(g: Graph, seen: seq<Id>, t: Id, parent: Id)
    requires Closed(g) && Edge(g, parent, t) && t in g && (IsEntry(g, parent) || parent in seen)
    ensures Grown(g, seen, Visit(g, seen, t)) && t in Visit(g, seen, t)
    decreases |Unseen(g, seen)|, 0
  {
    if t !in seen {
      assert Unseen(g, seen + [t]) == Unseen(g, seen) - {t};
      var r := VisitAll(g, seen + [t], g[t]);
      VisitAllGrows(g, seen + [t], g[t], t);
      AddedGrows(g, seen, t, parent, r);
    }
  }

  lemma AddedGrows(g: Graph, seen: seq<Id>, t: Id, parent: Id, r: seq<Id>)
    requires t !in seen && Edge(g, parent, t) && (IsEntry(g, parent) || parent in seen)
    requires Grown(g, seen + [t], r) && Expanded(g, r, t)
    ensures Grown(g, seen, r) && t in r
  {
    assert r[|seen|] == t && r[..|seen|] == seen;
    assert HasParent(g, r, |seen|);
  }

  lemma {:induction false} VisitAllGrows(g: Graph, seen: seq<Id>, ds: seq<Dependency>, parent: Id)
    requires Closed(g) && (IsEntry(g, parent) || parent in seen)
    requires forall k :: 0 <= k < |ds| ==> ds[k].targetTaskID in g && Edge(g, parent, ds[k].targetTaskID)
    ensures Grown(g, seen, VisitAll(g, seen, ds))
    ensures forall k :: 0 <= k < |ds| ==> ds[k].targetTaskID in VisitAll(g, seen, ds)
    decreases |Unseen(g, seen)|, 1 + |ds|
  {
    hide Grown, Edge, IsEntry;
    if ds == [] {
      GrownSelf(g, seen);
    } else {
      VisitGrows(g, seen, ds[0].targetTaskID, parent);
      var r := Visit(g, seen, ds[0].targetTaskID);
      SubsetSize(Unseen(g, r), Unseen(g, seen));
      VisitAllGrows(g, r, ds[1..], parent);
      GrownTransitive(g, seen, r, VisitAll(g, r, ds[1..]));
    }
  }

  lemma GrownSelf(g: Graph, seen: seq<Id>)
    ensures Grown(g, seen, seen)
  {
  }

  // ---------- the whole search ----------

  lemma {:induction false} SearchGrows(g: Graph, es: seq<Id>)
    requires Closed(g) && AreEntries(g, es)
    ensures Grown(g, [], FromEntries(g, es))
    ensures forall e :: e in es ==> Expanded(g, FromEntries(g, es), e)
    decreases |es|
  {
    hide Grown, IsEntry;
    if es == [] {
      GrownSelf(g, []);
    } else {
      var n := |es| - 1;
      var before := FromEntries(g, es[..n]);
      SearchGrows(g, es[..n]);
      EntryEdges(g, es[n]);
      VisitAllGrows(g, before, g[es[n]], es[n]);
      GrownTransitive(g, [], before, FromEntries(g, es));
      forall e | e in es ensures Expanded(g, FromEntries(g, es), e) {
        if e != es[n] { assert Expanded(g, before, e); }
      }
    }
  }

  lemma EntryEdges(g: Graph, e: Id)
    requires IsEntry(g, e)
    ensures e in g && forall k :: 0 <= k < |g[e]| ==> Edge(g, e, g[e][k].targetTaskID)
  {
  }

  /** Every task but the entries is visited, once; no entry is. */
  lemma SearchCovers(g: Graph, es: seq<Id>)
    requires Closed(g) && Acyclic(g) && AreEntries(g, es) && forall e :: IsEntry(g, e) ==> e in es
    ensures NoRepeats(FromEntries(g, es))
    ensures forall v :: v in FromEntries(g, es) <==> v in g && !IsEntry(g, v)
  {
    var r := FromEntries(g, es);
    SearchGrows(g, es);
    forall v | v in g && !IsEntry(g, v) ensures v in r {
      var e, ks := FromEntry(g, v);
      assert IsEntry(g, e);
      WalkVisited(g, r, es, e, ks);
    }
    forall v | v in r ensures v in g && !IsEntry(g, v) {
      var i :| 0 <= i < |r| && r[i] == v;
      assert HasParent(g, r, i);
    }
  }

  lemma {:induction false} WalkVisited(g: Graph, r: seq<Id>, es: seq<Id>, x: Id, ks: seq<nat>)
    requires Walk(g, x, ks) && ks != [] && (x in es || x in r)
    requires forall v :: v in es || v in r ==> Expanded(g, r, v)
    ensures End(g, x, ks) in r
    decreases |ks|
  {
    assert Expanded(g, r, x);
    if |ks| > 1 { WalkVisited(g, r, es, g[x][ks[0]].targetTaskID, ks[1..]); }
  }

  /** When no task has two different predecessors, the search visits predecessors first. */
  lemma SinglePredecessorsFirst(g: Graph, es: seq<Id>)
    requires Closed(g) && Acyclic(g) && AreEntries(g, es) && forall e :: IsEntry(g, e) ==> e in es
    requires forall u, v, w :: Edge(g, u, w) && Edge(g, v, w) ==> u == v
    ensures PredecessorsFirst(g, FromEntries(g, es))
  {
    var r := FromEntries(g, es);
    SearchGrows(g, es);
    forall k, u | 0 <= k < |r| && Edge(g, u, r[k]) ensures IsEntry(g, u) || u in r[..k] {
      assert HasParent(g, r, k);
    }
  }

  /** Successors already seen are passed over. */
  lemma {:induction false} SeenSkipped(g: Graph, seen: seq<Id>, ds: seq<Dependency>, k: nat)
    requires Closed(g) && (forall i :: 0 <= i < |ds| ==> ds[i].targetTaskID in g) && k <= |ds|
    requires forall i :: 0 <= i < k ==> ds[i].targetTaskID in seen
    ensures VisitAll(g, seen, ds) == VisitAll(g, seen, ds[k..])
    decreases k
  {
    if k > 0 {
      SeenSkipped(g, seen, ds[1..], k - 1);
      assert ds[1..][k - 1..] == ds[k..];
    } else {
      assert ds[0..] == ds;
    }
  }

  /** Depth first: right after a task comes its first successor not yet seen. */
  lemma FirstSuccessorNext(g: Graph, seen: seq<Id>, t: Id, k: nat)
    requires Closed(g) && t in g && t !in seen && k < |g[t]| && g[t][k].targetTaskID !in seen + [t]
    requires forall i :: 0 <= i < k ==> g[t][i].targetTaskID in seen + [t]
    ensures seen + [t] + [g[t][k].targetTaskID] <= Visit(g, seen, t)
  {
    var s, ds, u := seen + [t], g[t], g[t][k].targetTaskID;
    SeenSkipped(g, s, ds, k);
    assert ds[k..][0] == ds[k];
    assert s + [u] <= Visit(g, s, u) <= VisitAll(g, s, ds[k..]);
  }
}
