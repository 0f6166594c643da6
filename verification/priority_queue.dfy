/** Max-heaps laid out in a sequence: order facts about the priorities alone. */
module HeapOrder {

  function Parent(j: nat): nat
    requires j > 0
  {
    (j - 1) / 2
  }

  function Swapped<T>(s: seq<T>, i: nat, j: nat): (r: seq<T>)
    requires i < |s| && j < |s|
    ensures |r| == |s|
  {
    s[i := s[j]][j := s[i]]
  }

  lemma SwappedSame<T>(s: seq<T>, i: nat, j: nat)
    requires i < |s| && j < |s|
    ensures multiset(Swapped(s, i, j)) == multiset(s)
    ensures forall x :: x in Swapped(s, i, j) <==> x in s
  {
    forall x ensures x in Swapped(s, i, j) <==> x in s {
      assert x in Swapped(s, i, j) <==> x in multiset(Swapped(s, i, j));
    }
  }

  /** No child beats its parent, for parents at positions `root` and later and children before n. */
  ghost predicate OrderedFrom(p: seq<real>, root: nat, n: nat) {
    forall k :: 0 < k < n <= |p| && root <= Parent(k) ==> p[k] <= p[Parent(k)]
  }

  ghost predicate IsHeap(p: seq<real>) {
    OrderedFrom(p, 0, |p|)
  }

  /** The top of a heap is a maximum. */
  lemma {:induction false} TopIsMax(p: seq<real>, k: nat)
    requires IsHeap(p) && k < |p|
    ensures p[k] <= p[0]
  {
    if k > 0 { TopIsMax(p, Parent(k)); }
  }

  /** While an element rises: order holds except between j and its parent, and j's children fit its parent. */
  ghost predicate Rising(p: seq<real>, j: nat) {
    && j < |p|
    && (forall k :: 0 < k < |p| && k != j ==> p[k] <= p[Parent(k)])
    && (forall k :: 0 < k < |p| && Parent(k) == j && j > 0 ==> p[k] <= p[Parent(j)])
  }

  lemma RiseStep(p: seq<real>, j: nat)
    requires Rising(p, j) && j > 0 && p[j] > p[Parent(j)]
    ensures Rising(Swapped(p, Parent(j), j), Parent(j))
  {
    var i := Parent(j);
    var q := Swapped(p, i, j);
    assert q[i] == p[j] && q[j] == p[i] && forall k :: 0 <= k < |p| && k != i && k != j ==> q[k] == p[k];
    forall k | 0 < k < |q| && k != i ensures q[k] <= q[Parent(k)] {
      if k != j {
        assert p[k] <= p[Parent(k)];
        assert Parent(k) == j ==> p[k] <= p[i];
      }
    }
    forall k | 0 < k < |q| && Parent(k) == i && i > 0 ensures q[k] <= q[Parent(i)] {
      assert p[i] <= p[Parent(i)] && (k != j ==> p[k] <= p[i]);
    }
  }

  lemma RiseDone(p: seq<real>, j: nat)
    requires Rising(p, j) && (j == 0 || p[j] <= p[Parent(j)])
    ensures IsHeap(p)
  {
  }

  lemma RiseStart(p: seq<real>, x: real)
    requires IsHeap(p)
    ensures Rising(p + [x], |p|)
  {
    assert forall k :: 0 < k < |p| ==> (p + [x])[Parent(k)] == p[Parent(k)];
  }

  /** While an element sinks: order holds except between i and its children, which fit i's parent. */
  ghost predicate Sinking(p: seq<real>, root: nat, i: nat, n: nat) {
    && root <= i && n <= |p|
    && (forall k :: 0 < k < n && root <= Parent(k) && Parent(k) != i ==> p[k] <= p[Parent(k)])
    && (forall k :: 0 < k < n && Parent(k) == i && i > root && Parent(i) >= root ==> p[k] <= p[Parent(i)])
  }

  /** c is the larger child of i. */
  ghost predicate LargerChild(p: seq<real>, i: nat, c: nat, n: nat) {
    && i < c < n <= |p| && Parent(c) == i
    && forall k :: 0 < k < n && Parent(k) == i ==> p[k] <= p[c]
  }

  lemma SinkStep(p: seq<real>, root: nat, i: nat, c: nat, n: nat)
    requires Sinking(p, root, i, n) && LargerChild(p, i, c, n) && p[c] > p[i]
    ensures Sinking(Swapped(p, i, c), root, c, n)
  {
  }

  lemma SinkDone(p: seq<real>, root: nat, i: nat, c: nat, n: nat)
    requires Sinking(p, root, i, n)
    requires 2 * i + 1 >= n || (LargerChild(p, i, c, n) && p[c] <= p[i])
    ensures OrderedFrom(p, root, n)
  {
  }

  lemma SinkStart(p: seq<real>, root: nat, n: nat)
    requires OrderedFrom(p, root + 1, n) && n <= |p|
    ensures Sinking(p, root, root, n)
  {
  }

  /** The second half of a heap has no children. */
  lemma LeavesOrdered(p: seq<real>)
    ensures OrderedFrom(p, |p| / 2, |p|)
  {
  }

  lemma PopDone(p: seq<real>, n: nat)
    requires OrderedFrom(p, 0, n) && n <= |p|
    ensures IsHeap(p[..n])
  {
  }

  lemma HeapFromZero(p: seq<real>)
    requires OrderedFrom(p, 0, |p|)
    ensures IsHeap(p)
  {
  }

  /** Moving the last element to the top leaves only the top out of order. */
  lemma PopStart(p: seq<real>)
    requires IsHeap(p) && p != []
    ensures Sinking(Swapped(p, 0, |p| - 1), 0, 0, |p| - 1)
  {
  }
}

/** The ready queue (internal/scheduler/queue.go) under Go's container/heap algorithms. */
module PriorityQueues {
  import opened Api
  import opened HeapOrder

  class PriorityQueue {
    var items: seq<TaskNode>

    constructor ()
      ensures items == []
    {
      items := [];
    }

    ghost function Nodes(): set<TaskNode>
      reads this
    {
      set x | x in items
    }

    /** Every node knows its own position; in particular no node is queued twice. */
    ghost predicate Indexed()
      reads this, items`queueIndex
    {
      forall i :: 0 <= i < |items| ==> items[i].queueIndex == i
    }

    ghost function Priorities(): (p: seq<real>)
      reads this, Nodes()
      ensures |p| == |items| && forall i :: 0 <= i < |p| ==> p[i] == items[i].dynamicPriority
    {
      seq(|items|, i requires 0 <= i < |items| reads this, Nodes() => items[i].dynamicPriority)
    }

    predicate Less(i: nat, j: nat)
      requires i < |items| && j < |items|
      reads this, Nodes()`dynamicPriority
    {
      items[i].dynamicPriority > items[j].dynamicPriority
    }

    /** The same nodes, however arranged. */
    twostate predicate Rearranged()
      reads this
    {
      multiset(items) == multiset(old(items)) && Nodes() == old(Nodes())
    }

    method Swap(i: nat, j: nat)
      requires i < |items| && j < |items|
      modifies this, Nodes()`queueIndex
      ensures items == Swapped(old(items), i, j) && Rearranged()
      ensures forall k :: 0 <= k < |items| && k != i && k != j ==> items[k] == old(items)[k]
      ensures Priorities() == Swapped(old(Priorities()), i, j)
      ensures items[j].queueIndex == j && (items[i] != items[j] ==> items[i].queueIndex == i)
      ensures forall x: TaskNode :: x in items && x != items[i] && x != items[j] ==> x.queueIndex == old(x.queueIndex)
      ensures old(Indexed()) ==> Indexed()
    {
      SwappedSame(items, i, j);
      items := items[i := items[j]][j := items[i]];
      items[i].queueIndex := i;
      items[j].queueIndex := j;
    }

    /** heap.up: on a heap whose element j0 may be too large it restores the order. */
    method Up(j0: nat)
      requires j0 < |items|
      modifies this, Nodes()`queueIndex
      ensures Rearranged() && (old(Rising(Priorities(), j0)) ==> IsHeap(Priorities()))
      ensures old(Indexed()) ==> Indexed()
    {
      hide Rising, IsHeap, Indexed;
      ghost var fits := Rising(Priorities(), j0);
      var j: nat := j0;
      while j > 0
        invariant j < |items| == |old(items)| && Rearranged() && (fits ==> Rising(Priorities(), j))
        invariant old(Indexed()) ==> Indexed()
      {
        var i := Parent(j);
        if !Less(j, i) { break; }
        if fits { RiseStep(Priorities(), j); }
        Swap(i, j);
        j := i;
      }
      if fits { RiseDone(Priorities(), j); }
    }

    /** The choice heap.down makes between the two children of i. */
    method LargerOf(i: nat, n: nat) returns (c: nat)
      requires 2 * i + 1 < n <= |items|
      ensures LargerChild(Priorities(), i, c, n)
    {
      c := 2 * i + 1;
      if c + 1 < n && Less(c + 1, c) { c := c + 1; }
    }

    /** heap.down, from position i0, among the first n items */
    method Down(i0: nat, n: nat)
      requires n <= |items| && Sinking(Priorities(), i0, i0, n)
      modifies this, Nodes()`queueIndex
      ensures Rearranged() && OrderedFrom(Priorities(), i0, n)
      ensures |items| == |old(items)| && forall k :: n <= k < |items| ==> items[k] == old(items)[k]
      ensures old(Indexed()) ==> Indexed()
    {
      hide Sinking, OrderedFrom, Indexed, LargerChild, Swapped;
      var i: nat := i0;
      while 2 * i + 1 < n
        invariant |items| == |old(items)| && Rearranged() && Sinking(Priorities(), i0, i, n)
        invariant forall k :: n <= k < |items| ==> items[k] == old(items)[k]
        invariant old(Indexed()) ==> Indexed()
        decreases n - i
      {
        var j := LargerOf(i, n);
        if !Less(j, i) {
          SinkDone(Priorities(), i0, i, j, n);
          return;
        }
        SinkStep(Priorities(), i0, i, j, n);
        Swap(i, j);
        i := j;
      }
      SinkDone(Priorities(), i0, i, 0, n);
    }

    /** heap.Init: restores the order after priorities were changed in place. */
    method Init()
      modifies this, Nodes()`queueIndex
      ensures Rearranged() && IsHeap(Priorities())
      ensures old(Indexed()) ==> Indexed()
    {
      hide Sinking, OrderedFrom, IsHeap;
      var n := |items|;
      var i := n / 2;
      LeavesOrdered(Priorities());
      while i > 0
        invariant 0 <= i <= n / 2 && |items| == n && Rearranged()
        invariant OrderedFrom(Priorities(), i, n)
        invariant old(Indexed()) ==> Indexed()
      {
        i := i - 1;
        SinkStart(Priorities(), i, n);
        Down(i, n);
      }
      HeapFromZero(Priorities());
    }

    /** PriorityQueue.Push: appends. */
    method Append(x: TaskNode)
      modifies this, x`queueIndex
      ensures items == old(items) + [x] && Nodes() == old(Nodes()) + {x}
      ensures multiset(items) == multiset(old(items)) + multiset{x}
      ensures Priorities() == old(Priorities()) + [x.dynamicPriority]
      ensures old(Indexed()) && x !in old(items) ==> Indexed()
    {
      x.queueIndex := |items|;
      items := items + [x];
    }

    /** heap.Push: the new element is appended, then rises. */
    method Push(x: TaskNode)
      modifies this, Nodes()`queueIndex, x`queueIndex
      ensures multiset(items) == multiset(old(items)) + multiset{x} && Nodes() == old(Nodes()) + {x}
      ensures old(IsHeap(Priorities())) ==> IsHeap(Priorities())
      ensures old(Indexed()) && x !in old(items) ==> Indexed()
    {
      hide IsHeap, Rising, Indexed, Priorities;
      if IsHeap(Priorities()) { RiseStart(Priorities(), x.dynamicPriority); }
      assert |Priorities()| == |items|;
      Append(x);
      Up(|items| - 1);
    }

    lemma TopDominates()
      requires IsHeap(Priorities()) && items != []
      ensures forall y :: y in items ==> y.dynamicPriority <= items[0].dynamicPriority
    {
      forall k | 0 <= k < |items| ensures items[k].dynamicPriority <= items[0].dynamicPriority {
        TopIsMax(Priorities(), k);
      }
    }

    /** PriorityQueue.Pop: drops the last element. */
    method DropLast() returns (x: TaskNode)
      requires items != []
      modifies this, Nodes()`queueIndex
      ensures |old(items)| == |items| + 1 && x == old(items)[|items|] && x.queueIndex == -1
      ensures multiset(items) + multiset{x} == multiset(old(items))
      ensures Priorities() == old(Priorities())[..|items|]
      ensures old(Indexed()) ==> Indexed() && x !in items
    {
      var n := |items| - 1;
      x := items[n];
      x.queueIndex := -1;
      items := items[..n];
      assert old(items) == items + [x];
    }

    /** heap.Pop: the top changes places with the last element, the rest sinks, PriorityQueue.Pop shrinks. */
    method Pop() returns (x: TaskNode)
      requires IsHeap(Priorities()) && items != []
      modifies this, Nodes()`queueIndex
      ensures x == old(items)[0] && x.queueIndex == -1
      ensures IsHeap(Priorities()) && multiset(items) + multiset{x} == multiset(old(items))
      ensures forall y :: y in old(items) ==> y.dynamicPriority <= x.dynamicPriority
      ensures old(Indexed()) ==> Indexed() && x !in items
    {
      hide IsHeap, OrderedFrom, Sinking, Indexed;
      TopDominates();
      var n := |items| - 1;
      PopStart(Priorities());
      Swap(0, n);
      Down(0, n);
      PopDone(Priorities(), n);
      x := DropLast();
    }
  }
}
