/** Consumers served at the same time: lookup, locked decrement and delete interleave
    (internal/ebpf/c/tc_bridge.c:257-295). */
module ConcurrentRetention {
  import opened Checksums
  import R = Retention

  /** How far a consumer's packet has come; `left` is the value it decremented the counter to. */
  datatype Consumer =
    | Arrived
    | Found
    | Counted(left: u32)
    | Finished(left: u32)
    | Missed

  /** One task's entry, and the consumers that touch it. */
  datatype Entry = Entry(present: bool, remaining: u32, deletes: nat, consumers: seq<Consumer>)

  /** The storing packet has finished: the entry is there, for r consumers, and n are about to come. */
  function JustStored(r: u32, n: nat): Entry {
    Entry(true, r, 0, seq(n, _ => Arrived))
  }

  /** One atomic step of consumer t.  A freed entry's memory can still be decremented through a held pointer. */
  function Step(e: Entry, t: nat): (e': Entry)
    requires t < |e.consumers|
    ensures |e'.consumers| == |e.consumers|
  {
    match e.consumers[t]
    case Arrived => e.(consumers := e.consumers[t := if e.present then Found else Missed])
    case Found =>
      var left := (e.remaining - 1) % 0x1_0000_0000;
      e.(remaining := left, consumers := e.consumers[t := Counted(left)])
    case Counted(left) =>
      if left == 0 then e.(present := false, deletes := e.deletes + 1, consumers := e.consumers[t := Finished(left)])
      else e.(consumers := e.consumers[t := Finished(left)])
    case _ => e
  }

  /** The consumers take their steps in the order given. */
  function Interleaved(e: Entry, schedule: seq<nat>): (e': Entry)
    requires forall i :: 0 <= i < |schedule| ==> schedule[i] < |e.consumers|
    ensures |e'.consumers| == |e.consumers|
  {
    if schedule == [] then e else
    var k := |schedule| - 1;
    Step(Interleaved(e, schedule[..k]), schedule[k])
  }

  ghost predicate IsSchedule(schedule: seq<nat>, n: nat) {
    forall i :: 0 <= i < |schedule| ==> schedule[i] < n
  }

  /** Left to itself, a consumer's three steps are what the sequential hook does in one. */
  lemma UninterruptedIsServed(s: R.Store, id: u32, e: Entry, t: nat)
    requires id in s.held && e.present && e.remaining == s.held[id].remaining
    requires t < |e.consumers| && e.consumers[t].Arrived?
    ensures var s', e' := R.Served(s, id), Step(Step(Step(e, t), t), t);
            && (id in s'.held <==> e'.present) && (e'.present ==> s'.held[id].remaining == e'.remaining)
            && s'.ledger.deletes - s.ledger.deletes == e'.deletes - e.deletes
  {
    var left: u32 := (e.remaining - 1) % 0x1_0000_0000;
    assert Step(Step(e, t), t) == e.(remaining := left, consumers := e.consumers[t := Counted(left)]);
  }

  // ---------- the invariant ----------

  predicate HasCounted(c: Consumer) {
    c.Counted? || c.Finished?
  }

  function Value(c: Consumer): u32
    requires HasCounted(c)
  {
    match c
    case Counted(left) => left
    case Finished(left) => left
  }

  /** The consumers that have decremented the counter. */
  ghost function Decremented(cs: seq<Consumer>): set<nat> {
    set t | 0 <= t < |cs| && HasCounted(cs[t])
  }

  ghost predicate Freed(cs: seq<Consumer>) {
    exists t :: 0 <= t < |cs| && cs[t] == Finished(0)
  }

  ghost predicate NoneMissed(cs: seq<Consumer>) {
    forall t :: 0 <= t < |cs| ==> !cs[t].Missed?
  }

  /** Each decrement saw a value of its own, below r and not below the current counter. */
  ghost predicate OwnValues(remaining: u32, r: u32, cs: seq<Consumer>) {
    && (forall t :: 0 <= t < |cs| && HasCounted(cs[t]) ==> remaining <= Value(cs[t]) < r)
    && forall t, u :: 0 <= t < u < |cs| && HasCounted(cs[t]) && HasCounted(cs[u]) ==> Value(cs[t]) != Value(cs[u])
  }

  /** The current counter is the value the latest decrement saw. */
  ghost predicate LatestSeen(remaining: u32, r: u32, cs: seq<Consumer>) {
    remaining < r ==> exists t :: 0 <= t < |cs| && HasCounted(cs[t]) && Value(cs[t]) == remaining
  }

  ghost predicate Inv(e: Entry, r: u32) {
    && e.remaining == r - |Decremented(e.consumers)|
    && LatestSeen(e.remaining, r, e.consumers)
    && OwnValues(e.remaining, r, e.consumers)
    && NoneMissed(e.consumers)
    && (e.present <==> !Freed(e.consumers))
    && e.deletes == (if e.present then 0 else 1)
  }

  lemma {:induction false} BelowBound(S: set<nat>, n: nat)
    requires forall t :: t in S ==> t < n
    ensures |S| <= n
  {
    if n == 0 {
      assert S == {};
    } else {
      BelowBound(S - {n - 1}, n - 1);
    }
  }

  /** While a consumer has not decremented, the counter is positive. */
  lemma StillWanted(e: Entry, r: u32, t: nat)
    requires Inv(e, r) && |e.consumers| <= r && t < |e.consumers| && !HasCounted(e.consumers[t])
    ensures e.remaining >= 1 && e.present
  {
    var S := Decremented(e.consumers);
    BelowBound(S + {t}, |e.consumers|);
    assert |S + {t}| == |S| + 1;
    assert forall u :: 0 <= u < |e.consumers| && HasCounted(e.consumers[u]) ==> Value(e.consumers[u]) >= 1;
    assert forall u :: 0 <= u < |e.consumers| && e.consumers[u].Finished? ==> HasCounted(e.consumers[u]);
  }

  /** A step that is not a decrement leaves the decrements and their values as they were. */
  lemma SameValues(remaining: u32, r: u32, cs: seq<Consumer>, t: nat, c: Consumer)
    requires t < |cs| && (HasCounted(cs[t]) <==> HasCounted(c)) && (HasCounted(c) ==> Value(c) == Value(cs[t]))
    requires OwnValues(remaining, r, cs) && LatestSeen(remaining, r, cs)
    ensures OwnValues(remaining, r, cs[t := c]) && LatestSeen(remaining, r, cs[t := c])
    ensures Decremented(cs[t := c]) == Decremented(cs)
  {
    if remaining < r {
      var u :| 0 <= u < |cs| && HasCounted(cs[u]) && Value(cs[u]) == remaining;
      assert HasCounted(cs[t := c][u]) && Value(cs[t := c][u]) == remaining;
    }
  }

  lemma NewValue(remaining: u32, r: u32, cs: seq<Consumer>, t: nat)
    requires t < |cs| && !HasCounted(cs[t]) && 1 <= remaining <= r && OwnValues(remaining, r, cs)
    ensures var cs' := cs[t := Counted(remaining - 1)];
            && OwnValues(remaining - 1, r, cs') && LatestSeen(remaining - 1, r, cs')
            && Decremented(cs') == Decremented(cs) + {t} && |Decremented(cs')| == |Decremented(cs)| + 1
  {
    var cs' := cs[t := Counted(remaining - 1)];
    assert HasCounted(cs'[t]) && Value(cs'[t]) == remaining - 1;
    assert Decremented(cs') == Decremented(cs) + {t};
  }

  lemma FreedAfter(cs: seq<Consumer>, t: nat, c: Consumer)
    requires t < |cs| && cs[t] != Finished(0)
    ensures Freed(cs[t := c]) <==> Freed(cs) || c == Finished(0)
  {
    if c == Finished(0) { assert cs[t := c][t] == Finished(0); }
    if Freed(cs) {
      var u :| 0 <= u < |cs| && cs[u] == Finished(0);
      assert cs[t := c][u] == Finished(0);
    }
  }

  /** The one consumer that counted down to zero is the only one that frees. */
  lemma NotFreedBefore(e: Entry, r: u32, t: nat)
    requires OwnValues(e.remaining, r, e.consumers) && t < |e.consumers| && e.consumers[t] == Counted(0)
    ensures !Freed(e.consumers)
  {
    var cs := e.consumers;
    assert HasCounted(cs[t]) && Value(cs[t]) == 0;
    forall u | 0 <= u < |cs| ensures cs[u] != Finished(0) {
      assert u != t && HasCounted(cs[u]) ==> Value(cs[u]) != 0;
      assert cs[u].Finished? ==> HasCounted(cs[u]);
    }
  }

  lemma InitInv(r: u32, n: nat)
    ensures Inv(JustStored(r, n), r)
  {
    assert Decremented(JustStored(r, n).consumers) == {};
  }

  lemma LookupKeeps(e: Entry, r: u32, t: nat)
    requires Inv(e, r) && |e.consumers| <= r && t < |e.consumers| && e.consumers[t].Arrived?
    ensures Inv(Step(e, t), r)
  {
    hide Decremented, OwnValues, LatestSeen, Freed;
    StillWanted(e, r, t);
    SameValues(e.remaining, r, e.consumers, t, Found);
    FreedAfter(e.consumers, t, Found);
  }

  lemma DecrementKeeps(e: Entry, r: u32, t: nat)
    requires Inv(e, r) && |e.consumers| <= r && t < |e.consumers| && e.consumers[t].Found?
    ensures Inv(Step(e, t), r)
  {
    hide Decremented, OwnValues, LatestSeen, Freed;
    StillWanted(e, r, t);
    NewValue(e.remaining, r, e.consumers, t);
    FreedAfter(e.consumers, t, Counted(e.remaining - 1));
  }

  lemma FinishKeeps(e: Entry, r: u32, t: nat)
    requires Inv(e, r) && t < |e.consumers| && e.consumers[t].Counted?
    ensures Inv(Step(e, t), r)
  {
    hide Decremented, OwnValues, LatestSeen, Freed;
    var left := e.consumers[t].left;
    SameValues(e.remaining, r, e.consumers, t, Finished(left));
    FreedAfter(e.consumers, t, Finished(left));
    if left == 0 { NotFreedBefore(e, r, t); }
  }

  /** With no more consumers than promised, every interleaving keeps the invariant. */
  lemma {:induction false} InterleavedKeeps(r: u32, n: nat, schedule: seq<nat>)
    requires n <= r && IsSchedule(schedule, n)
    ensures Inv(Interleaved(JustStored(r, n), schedule), r)
  {
    hide Inv, Step;
    if schedule == [] {
      InitInv(r, n);
    } else {
      var k := |schedule| - 1;
      InterleavedKeeps(r, n, schedule[..k]);
      var e, t := Interleaved(JustStored(r, n), schedule[..k]), schedule[k];
      StepKeeps(e, r, t);
    }
  }

  lemma StepKeeps(e: Entry, r: u32, t: nat)
    requires Inv(e, r) && |e.consumers| <= r && t < |e.consumers|
    ensures Inv(Step(e, t), r)
  {
    hide Inv;
    match e.consumers[t]
    case Arrived => LookupKeeps(e, r, t);
    case Found => DecrementKeeps(e, r, t);
    case Counted(_) => FinishKeeps(e, r, t);
    case _ =>
  }

  // ---------- what it means for a run to go wrong ----------

  /** A lookup missed, or the counter went below zero. */
  ghost predicate WentWrong(e: Entry) {
    exists t :: 0 <= t < |e.consumers| && (e.consumers[t].Missed? || e.consumers[t] == Counted(0xffff_ffff))
  }

  /** Every consumer has been through. */
  ghost predicate AllFinished(cs: seq<Consumer>) {
    forall t :: 0 <= t < |cs| ==> cs[t].Finished?
  }

  lemma InvIsSafe(e: Entry, r: u32)
    requires Inv(e, r)
    ensures !WentWrong(e)
  {
    assert forall t :: 0 <= t < |e.consumers| && e.consumers[t].Counted? ==> HasCounted(e.consumers[t]);
  }

  // ---------- the theorems ----------

  /** No more consumers than promised: in every interleaving every lookup hits, the counter is exact and never goes
      below zero, and the entry is deleted at most once, after the r-th decrement. */
  lemma NeverEarly(r: u32, n: nat, schedule: seq<nat>)
    requires n <= r && IsSchedule(schedule, n)
    ensures var e := Interleaved(JustStored(r, n), schedule);
            && !WentWrong(e) && e.remaining == r - |Decremented(e.consumers)|
            && (e.present <==> e.deletes == 0) && e.deletes <= 1
            && (e.deletes == 1 ==> |Decremented(e.consumers)| == r)
  {
    hide Interleaved, OwnValues, LatestSeen, WentWrong;
    var e := Interleaved(JustStored(r, n), schedule);
    InterleavedKeeps(r, n, schedule);
    InvIsSafe(e, r);
    FreedAtZero(e, r);
  }

  lemma FreedAtZero(e: Entry, r: u32)
    requires Inv(e, r)
    ensures !e.present ==> e.remaining == 0
  {
    assert forall u :: 0 <= u < |e.consumers| && e.consumers[u].Finished? ==> HasCounted(e.consumers[u]);
  }

  lemma {:induction false} AllCounted(cs: seq<Consumer>)
    requires AllFinished(cs)
    ensures |Decremented(cs)| == |cs|
  {
    if cs == [] {
      assert Decremented(cs) == {};
    } else {
      var n := |cs| - 1;
      AllCounted(cs[..n]);
      assert HasCounted(cs[n]) && forall t :: 0 <= t < n ==> cs[..n][t] == cs[t];
      assert Decremented(cs) == Decremented(cs[..n]) + {n};
    }
  }

  /** When all consumers are through, the entry is gone exactly if all those promised have come; it was deleted once. */
  lemma GoneWhenServed(r: u32, n: nat, schedule: seq<nat>)
    requires 1 <= r && n <= r && IsSchedule(schedule, n)
    requires AllFinished(Interleaved(JustStored(r, n), schedule).consumers)
    ensures var e := Interleaved(JustStored(r, n), schedule);
            && (e.present <==> n < r) && e.remaining == r - n && e.deletes == if n == r then 1 else 0
  {
    hide Interleaved, OwnValues, Decremented, Freed;
    var e := Interleaved(JustStored(r, n), schedule);
    InterleavedKeeps(r, n, schedule);
    AllCounted(e.consumers);
    FreedAtZero(e, r);
    if n == r { ZeroFreed(e, r); }
  }

  lemma ZeroFreed(e: Entry, r: u32)
    requires Inv(e, r) && e.remaining == 0 && r > 0 && AllFinished(e.consumers)
    ensures Freed(e.consumers)
  {
    var t :| 0 <= t < |e.consumers| && HasCounted(e.consumers[t]) && Value(e.consumers[t]) == 0;
    assert e.consumers[t] == Finished(0);
  }

  // ---------- one consumer too many ----------

  lemma Snoc(e: Entry, schedule: seq<nat>, t: nat)
    requires IsSchedule(schedule, |e.consumers|) && t < |e.consumers|
    ensures IsSchedule(schedule + [t], |e.consumers|)
    ensures Interleaved(e, schedule + [t]) == Step(Interleaved(e, schedule), t)
  {
    assert (schedule + [t])[..|schedule|] == schedule;
  }

  /** The first k consumers come one after the other. */
  function Serial(k: nat): (schedule: seq<nat>)
    ensures IsSchedule(schedule, k)
  {
    if k == 0 then [] else Serial(k - 1) + [k - 1] + [k - 1] + [k - 1]
  }

  function AfterSerial(r: u32, n: nat, k: nat): Entry
    requires k <= r
  {
    Entry(k < r || r == 0, r - k, if k < r || r == 0 then 0 else 1,
          seq(n, i requires 0 <= i => if i < k then Finished(r - 1 - i) else Arrived))
  }

  lemma {:induction false} SerialRuns(r: u32, n: nat, k: nat)
    requires k <= r <= n
    ensures Interleaved(JustStored(r, n), Serial(k)) == AfterSerial(r, n, k)
  {
    hide Interleaved, Step, AfterSerial;
    if k == 0 {
      NoneYet(r, n);
    } else {
      SerialRuns(r, n, k - 1);
      ThriceMore(JustStored(r, n), Serial(k - 1), k - 1);
      ThreeSteps(r, n, k - 1);
    }
  }

  lemma NoneYet(r: u32, n: nat)
    ensures Interleaved(JustStored(r, n), []) == AfterSerial(r, n, 0)
  {
    assert JustStored(r, n).consumers == AfterSerial(r, n, 0).consumers;
  }

  lemma ThriceMore(e: Entry, schedule: seq<nat>, t: nat)
    requires IsSchedule(schedule, |e.consumers|) && t < |e.consumers|
    ensures IsSchedule(schedule + [t] + [t] + [t], |e.consumers|)
    ensures Interleaved(e, schedule + [t] + [t] + [t]) == Step(Step(Step(Interleaved(e, schedule), t), t), t)
  {
    hide Interleaved, Step;
    Snoc(e, schedule, t);
    Snoc(e, schedule + [t], t);
    Snoc(e, schedule + [t] + [t], t);
  }

  lemma ThreeSteps(r: u32, n: nat, t: nat)
    requires t < r <= n
    ensures Step(Step(Step(AfterSerial(r, n, t), t), t), t) == AfterSerial(r, n, t + 1)
  {
    var e := AfterSerial(r, n, t);
    var e1 := Step(e, t);
    assert e1 == e.(consumers := e.consumers[t := Found]);
    var e2 := Step(e1, t);
    assert e2 == e.(remaining := r - t - 1, consumers := e.consumers[t := Counted(r - t - 1)]);
    assert e.consumers[t := Finished(r - t - 1)] == AfterSerial(r, n, t + 1).consumers;
  }

  /** A consumer beyond those promised finds nothing: its packet would be taken for a producer's. */
  lemma OneTooManyMisses(r: u32, n: nat)
    requires 1 <= r < n
    ensures IsSchedule(Serial(r) + [r as nat], n)
    ensures Interleaved(JustStored(r, n), Serial(r) + [r as nat]).consumers[r].Missed?
  {
    SerialRuns(r, n, r);
    Snoc(JustStored(r, n), Serial(r), r);
  }

  /** The first k consumers find the entry, and then the first j of them count. */
  function FoundThenCounted(k: nat, j: nat): (schedule: seq<nat>)
    requires j <= k
    ensures IsSchedule(schedule, k)
  {
    if j > 0 then FoundThenCounted(k, j - 1) + [j - 1]
    else if k > 0 then FoundThenCounted(k - 1, 0) + [k - 1]
    else []
  }

  /** No one has deleted anything: the counter is r - j, as a 32-bit number. */
  function AfterCounts(r: u32, n: nat, k: nat, j: nat): Entry {
    Entry(true, (r as int - j) % 0x1_0000_0000, 0,
          seq(n, i requires 0 <= i => if i < j then Counted((r as int - i - 1) % 0x1_0000_0000)
                                      else if i < k then Found else Arrived))
  }

  lemma {:induction false} FoundThenCountedRuns(r: u32, n: nat, k: nat, j: nat)
    requires j <= k <= n
    ensures Interleaved(JustStored(r, n), FoundThenCounted(k, j)) == AfterCounts(r, n, k, j)
  {
    hide Interleaved, Step, AfterCounts;
    if j > 0 {
      FoundThenCountedRuns(r, n, k, j - 1);
      Snoc(JustStored(r, n), FoundThenCounted(k, j - 1), j - 1);
      OneMoreCount(r, n, k, j - 1);
    } else if k > 0 {
      FoundThenCountedRuns(r, n, k - 1, 0);
      Snoc(JustStored(r, n), FoundThenCounted(k - 1, 0), k - 1);
      OneMoreFinds(r, n, k - 1);
    } else {
      assert JustStored(r, n) == AfterCounts(r, n, 0, 0) by { NoCounts(r, n); }
      NoSteps(JustStored(r, n));
    }
  }

  lemma NoSteps(e: Entry)
    ensures Interleaved(e, []) == e
  {
  }

  lemma NoCounts(r: u32, n: nat)
    ensures JustStored(r, n) == AfterCounts(r, n, 0, 0)
  {
    assert JustStored(r, n).consumers == AfterCounts(r, n, 0, 0).consumers;
  }

  lemma OneMoreFinds(r: u32, n: nat, k: nat)
    requires k < n
    ensures Step(AfterCounts(r, n, k, 0), k) == AfterCounts(r, n, k + 1, 0)
  {
    var e := AfterCounts(r, n, k, 0);
    assert e.consumers[k := Found] == AfterCounts(r, n, k + 1, 0).consumers;
  }

  lemma OneMoreCount(r: u32, n: nat, k: nat, j: nat)
    requires j < k <= n
    ensures Step(AfterCounts(r, n, k, j), j) == AfterCounts(r, n, k, j + 1)
  {
    var e := AfterCounts(r, n, k, j);
    var left: u32 := (r as int - j - 1) % 0x1_0000_0000;
    assert e.consumers[j := Counted(left)] == AfterCounts(r, n, k, j + 1).consumers;
  }

  /** Or it finds the entry in time, and then the counter goes below zero. */
  lemma OneTooManyUnderflows(r: u32, n: nat)
    requires r < n
    ensures IsSchedule(FoundThenCounted(r + 1, r + 1), n)
    ensures Interleaved(JustStored(r, n), FoundThenCounted(r + 1, r + 1)).consumers[r] == Counted(0xffff_ffff)
  {
    FoundThenCountedRuns(r, n, r + 1, r + 1);
  }

  ghost predicate AlwaysSafe(r: u32, n: nat) {
    forall schedule :: IsSchedule(schedule, n) ==> !WentWrong(Interleaved(JustStored(r, n), schedule))
  }

  /** Reference counting is safe in every interleaving exactly when no more consumers come than were promised. */
  lemma SafeIffEnough(r: u32, n: nat)
    requires 1 <= r
    ensures AlwaysSafe(r, n) <==> n <= r
  {
    if n <= r {
      forall schedule | IsSchedule(schedule, n) ensures !WentWrong(Interleaved(JustStored(r, n), schedule)) {
        NeverEarly(r, n, schedule);
      }
    } else {
      OneTooManyMisses(r, n);
    }
  }
}
