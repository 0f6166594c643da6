/** The three-colour depth-first search of the parser (internal/parser/parser.go:95-127). */
module CycleDetection {
  import opened Api
  import opened Graphs

  datatype Color = White | Gray | Black

  /** Finished tasks point only at finished tasks, and none of them lies on a cycle. */
  ghost predicate Sealed(g: Graph, done: set<Id>) {
    && done <= g.Keys
    && (forall u, k :: u in done && 0 <= k < |g[u]| ==> g[u][k].targetTaskID in done)
    && (forall u :: u in done ==> !Reaches(g, u, u))
  }

  /** A task whose successors are all finished cannot be on a cycle, so it can be finished too. */
  lemma Seal(g: Graph, done: set<Id>, id: Id)
    requires Sealed(g, done) && id in g && id !in done
    requires forall k :: 0 <= k < |g[id]| ==> g[id][k].targetTaskID in done
    ensures Sealed(g, done + {id})
  {
    if ks :| Walk(g, id, ks) && ks != [] && End(g, id, ks) == id {
      WalkStaysIn(g, done, g[id][ks[0]].targetTaskID, ks[1..]);
    }
  }

  lemma OnCycle(g: Graph, t: Id)
    requires Reaches(g, t, t)
    ensures !Acyclic(g)
  {
  }

  class CycleDetector {
    const tasks: map<Id, TaskNode>
    var colors: map<Id, Color>

    constructor (tasks: map<Id, TaskNode>)
      ensures this.tasks == tasks
    {
      this.tasks := tasks;
      colors := map[];
    }

    ghost function G(): Graph {
      GraphOf(tasks)
    }

    ghost function Coloured(c: Color): set<Id>
      reads this
    {
      set u | u in colors && colors[u] == c
    }

    ghost predicate Sound()
      reads this
    {
      Closed(G()) && colors.Keys == G().Keys && Sealed(G(), Coloured(Black))
    }

    method Mark(id: Id, c: Color)
      requires id in colors && colors[id] != c
      modifies this
      ensures colors == old(colors)[id := c]
      ensures Coloured(c) == old(Coloured(c)) + {id}
      ensures forall d :: d != c ==> Coloured(d) == old(Coloured(d)) - {id}
    {
      colors := colors[id := c];
    }

    /** One call of the closure hasCycle: every gray task is an ancestor of the one being visited. */
    method HasCycle(id: Id) returns (found: bool)
      requires Sound() && id in Coloured(White)
      requires forall u :: u in Coloured(Gray) ==> Reaches(G(), u, id)
      modifies this
      ensures found ==> !Acyclic(G())
      ensures !found ==> Sound() && id in Coloured(Black)
      ensures !found ==> Coloured(Gray) == old(Coloured(Gray)) && old(Coloured(Black)) <= Coloured(Black)
      ensures !found ==> Coloured(White) < old(Coloured(White))
      decreases Coloured(White)
    {
      hide Reaches, Acyclic, Sealed;
      Mark(id, Gray);
      assert Coloured(Black) == old(Coloured(Black));
      ghost var gray := Coloured(Gray);
      var succs := tasks[id].successors;
      assert succs == G()[id];
      for i := 0 to |succs|
        invariant Sound() && Coloured(Gray) == gray && old(Coloured(Black)) <= Coloured(Black)
        invariant Coloured(White) < old(Coloured(White))
        invariant forall k :: 0 <= k < i ==> succs[k].targetTaskID in Coloured(Black)
      {
        var target := succs[i].targetTaskID;
        GrayReaches(id, target);
        if colors[target] == Gray {
          assert target in Coloured(Gray);
          OnCycle(G(), target);
          return true;
        }
        if colors[target] == White {
          found := HasCycle(target);
          if found { return true; }
        }
      }
      assert id in Coloured(Gray);
      Seal(G(), Coloured(Black), id);
      Mark(id, Black);
      return false;
    }

    /** Extending the search path by one edge; a gray target closes a cycle. */
    lemma GrayReaches(id: Id, target: Id)
      requires Edge(G(), id, target) && target in G()
      requires forall u :: u in Coloured(Gray) ==> u == id || Reaches(G(), u, id)
      ensures forall u :: u in Coloured(Gray) ==> Reaches(G(), u, target)
    {
      EdgeReaches(G(), id, target);
      forall u | u in Coloured(Gray) ensures Reaches(G(), u, target) {
        if u != id { ReachesTransitive(G(), u, id, target); }
      }
    }

    /** The whole search, from any order of starting tasks: it reports a cycle exactly when there is one. */
    method Detect() returns (found: bool)
      requires Closed(G())
      modifies this
      ensures found <==> !Acyclic(G())
    {
      colors := map id | id in tasks :: White;
      assert colors.Keys == G().Keys;
      var todo := tasks.Keys;
      while todo != {}
        invariant Sound() && Coloured(Gray) == {} && todo <= tasks.Keys
        invariant tasks.Keys - todo <= Coloured(Black)
      {
        var id :| id in todo;
        todo := todo - {id};
        if colors[id] == White {
          found := HasCycle(id);
          if found { return; }
        }
        assert id in Coloured(Black) by { assert id !in Coloured(Gray); }
      }
      forall u, ks | Walk(G(), u, ks) && ks != [] ensures End(G(), u, ks) != u {
        assert u in Coloured(Black);
      }
      return false;
    }
  }
}
