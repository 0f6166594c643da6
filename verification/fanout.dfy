/** Kernel-side fan-out delivery (internal/ebpf/c/fanout.c). */
module Fanouts {
  import opened Checksums

  const TRIGGER_PORT: u16 := 9000
  const CONSUMER_PORT: u16 := 9001
  const MAX_FANOUT_P2: nat := 16
  const UDP_DEST_OFF: nat := 36
  const UDP_CHECK_OFF: nat := 40
  /** 16-bit words in an IPv4 header without options. */
  const PLAIN: nat := 10

  datatype Action = Pass | Shot

  datatype FanoutRule = FanoutRule(n: u32, dst: seq<u32>)

  type Rules = map<u32, FanoutRule>

  ghost predicate RulesFit(rules: Rules) {
    forall id :: id in rules ==> |rules[id].dst| == MAX_FANOUT_P2
  }

  /** An unfragmented view of what the hook looks for: UDP in plain IPv4, to the trigger port, with a task ID. */
  predicate IsTrigger(p: seq<u8>) {
    46 <= |p| && Word(p, 12) == 0x0800 && p[23] == 17 && p[14] % 16 == 5 && Word(p, UDP_DEST_OFF) == TRIGGER_PORT
  }

  /** The first four payload bytes, little-endian. */
  function TaskID(p: seq<u8>): u32
    requires 46 <= |p|
  {
    LittleEndian(p[42..46])
  }

  predicate Matches(p: seq<u8>, rules: Rules) {
    IsTrigger(p) && TaskID(p) in rules
  }

  predicate Rewritten(i: int) {
    24 <= i < 26 || 30 <= i < 34 || 36 <= i < 38 || 40 <= i < 42
  }

  /** q is what the consumer at address d should receive for the trigger p. */
  ghost predicate DeliveredTo(p: seq<u8>, q: seq<u8>, d: u32) {
    && 46 <= |p| == |q| && Long(q, IP_DADDR_OFF) == d
    && Word(q, UDP_DEST_OFF) == CONSUMER_PORT && Word(q, UDP_CHECK_OFF) == 0
    && (forall i :: 0 <= i < |p| && !Rewritten(i) ==> q[i] == p[i])
    && (HeaderValid(q, PLAIN) <==> HeaderValid(p, PLAIN))
    && (Word(p, 24) == HeaderChecksum(p, PLAIN) ==> Word(q, 24) == HeaderChecksum(q, PLAIN))
  }

  /** One clone per consumer, in rule order, up to the sixteenth. */
  ghost predicate AllDelivered(p: seq<u8>, r: FanoutRule, clones: seq<seq<u8>>) {
    && |r.dst| == 16 && |clones| == (if r.n < 16 then r.n else 16)
    && forall i :: 0 <= i < |clones| ==> DeliveredTo(p, clones[i], r.dst[i])
  }

  /** One invocation of the hook: the rules at that moment, the packet, and what was cloned. */
  datatype Turn = Turn(rules: Rules, input: seq<u8>, clones: seq<seq<u8>>)

  /** What Fanout promises about an invocation. */
  ghost predicate HookDoes(t: Turn) {
    if Matches(t.input, t.rules) then AllDelivered(t.input, t.rules[TaskID(t.input)], t.clones) else t.clones == []
  }

  /** The packet after the port and UDP checksum were rewritten, before any address was. */
  function Prepared(p: seq<u8>): (q: seq<u8>)
    requires 46 <= |p|
    ensures |q| == |p|
  {
    StoredWord(StoredWord(p, UDP_DEST_OFF, CONSUMER_PORT), UDP_CHECK_OFF, 0)
  }

  lemma PreparedDelivers(p: seq<u8>)
    requires 46 <= |p|
    ensures DeliveredTo(p, Prepared(p), Long(p, IP_DADDR_OFF))
  {
    var q := Prepared(p);
    hide HeaderValid, HeaderChecksum, Prepared, Word;
    PreparedBytes(p);
    HeaderUntouched(p, q);
  }

  lemma HeaderUntouched(p: seq<u8>, q: seq<u8>)
    requires 46 <= |p| == |q| && forall i :: 14 <= i < 34 ==> q[i] == p[i]
    ensures HeaderValid(q, PLAIN) == HeaderValid(p, PLAIN) && HeaderChecksum(q, PLAIN) == HeaderChecksum(p, PLAIN)
    ensures Word(q, 24) == Word(p, 24) && Long(q, IP_DADDR_OFF) == Long(p, IP_DADDR_OFF)
  {
    hide Fold, WordSum;
    WordSumSame(p, q, ETH_LEN, PLAIN);
    WordSumSame(p, q, ETH_LEN, 5);
    WordSumSame(p, q, 26, 4);
  }

  lemma PreparedBytes(p: seq<u8>)
    requires 46 <= |p|
    ensures var q := Prepared(p);
            && Word(q, UDP_DEST_OFF) == CONSUMER_PORT && Word(q, UDP_CHECK_OFF) == 0
            && forall i :: 0 <= i < |p| && !(36 <= i < 38 || 40 <= i < 42) ==> q[i] == p[i]
  {
  }

  /** With `cur` the packet's actual destination, the next redirect delivers to the next consumer. */
  lemma RedirectDelivers(p: seq<u8>, q: seq<u8>, cur: u32, d: u32)
    requires DeliveredTo(p, q, cur) && p[23] == 17
    ensures DeliveredTo(p, Redirected(q, cur, d), d)
  {
    hide HeaderValid, HeaderChecksum, Redirected;
    RedirectedValid(q, d, PLAIN);
  }

  /** The hook. */
  method Fanout(skb: array<u8>, fanoutMap: Rules) returns (action: Action, clones: seq<seq<u8>>)
    requires RulesFit(fanoutMap)
    modifies skb
    ensures !Matches(old(skb[..]), fanoutMap) ==> action == Pass && clones == [] && skb[..] == old(skb[..])
    ensures Matches(old(skb[..]), fanoutMap) ==>
              action == Shot && AllDelivered(old(skb[..]), fanoutMap[TaskID(old(skb[..]))], clones)
    ensures Matches(old(skb[..]), fanoutMap) ==>
              var rule := fanoutMap[TaskID(old(skb[..]))];
              && |rule.dst| == 16 && |clones| <= rule.n && |clones| <= 16
              && forall i :: 0 <= i < rule.n && i < 16 ==>
                   i < |clones| && DeliveredTo(old(skb[..]), clones[i], rule.dst[i])
    ensures HookDoes(Turn(fanoutMap, old(skb[..]), clones))
  {
    hide DeliveredTo, Redirected, Long, Word, Prepared, TaskID;
    ghost var p := skb[..];
    clones := [];
    if skb.Length < 14 { return Pass, clones; }
    if Word(skb[..], 12) != 0x0800 { return Pass, clones; }
    if skb.Length < 34 { return Pass, clones; }
    if skb[23] != 17 { return Pass, clones; }
    if skb[14] % 16 != 5 { return Pass, clones; }
    if skb.Length < 42 { return Pass, clones; }
    if Word(skb[..], UDP_DEST_OFF) != TRIGGER_PORT { return Pass, clones; }
    if skb.Length < 46 { return Pass, clones; }
    var taskID := TaskID(skb[..]);
    if taskID !in fanoutMap { return Pass, clones; }
    clones := Deliver(skb, fanoutMap[taskID]);
    return Shot, clones;
  }

  /** The rewriting loop. */
  method Deliver(skb: array<u8>, fo: FanoutRule) returns (clones: seq<seq<u8>>)
    requires 46 <= skb.Length && skb[23] == 17 && |fo.dst| == MAX_FANOUT_P2
    modifies skb
    ensures AllDelivered(old(skb[..]), fo, clones)
  {
    hide DeliveredTo, Redirected, Long;
    ghost var p := skb[..];
    PreparedDelivers(p);
    var cur := Long(skb[..], IP_DADDR_OFF);
    StoreWord(skb, UDP_DEST_OFF, CONSUMER_PORT);
    StoreWord(skb, UDP_CHECK_OFF, 0);
    clones := [];
    for i := 0 to MAX_FANOUT_P2
      invariant |clones| == i <= fo.n && DeliveredTo(p, skb[..], cur)
      invariant forall k :: 0 <= k < i ==> DeliveredTo(p, clones[k], fo.dst[k])
    {
      if i >= fo.n { break; }
      var nd := fo.dst[i];
      RedirectDelivers(p, skb[..], cur, nd);
      Redirect(skb, cur, nd);
      clones := clones + [skb[..]];
      cur := nd;
    }
  }

  // ---------- the clones pin down the bytes, and do not fan out again ----------

  lemma SameWord(p: seq<u8>, q: seq<u8>, i: nat)
    requires i + 2 <= |p| == |q| && Word(p, i) == Word(q, i)
    ensures p[i] == q[i] && p[i + 1] == q[i + 1]
  {
  }

  lemma SameLong(p: seq<u8>, q: seq<u8>, i: nat)
    requires i + 4 <= |p| == |q| && Long(p, i) == Long(q, i)
    ensures forall k :: i <= k < i + 4 ==> p[k] == q[k]
  {
    hide Word;
    LongWords(p, i);
    LongWords(q, i);
    SameWord(p, q, i);
    SameWord(p, q, i + 2);
  }

  lemma SameChecksum(q: seq<u8>, r: seq<u8>)
    requires 46 <= |q| == |r| && forall i :: 14 <= i < 34 && i != 24 && i != 25 ==> q[i] == r[i]
    ensures HeaderChecksum(q, PLAIN) == HeaderChecksum(r, PLAIN)
  {
    WordSumSame(q, r, ETH_LEN, 5);
    WordSumSame(q, r, 26, 4);
  }

  /** For a trigger whose checksum is as RFC 791 computes it, a consumer's packet is determined to the last byte. */
  lemma DeliveryDetermined(p: seq<u8>, q: seq<u8>, r: seq<u8>, d: u32)
    requires DeliveredTo(p, q, d) && DeliveredTo(p, r, d) && Word(p, 24) == HeaderChecksum(p, PLAIN)
    ensures q == r
  {
    hide HeaderChecksum, HeaderValid, Word, Long;
    SameLong(q, r, IP_DADDR_OFF);
    SameWord(q, r, UDP_DEST_OFF);
    SameWord(q, r, UDP_CHECK_OFF);
    SameChecksum(q, r);
    SameWord(q, r, IP_CHECK_OFF);
    assert forall i :: 0 <= i < |q| ==> q[i] == r[i];
  }

  /** The turns are the hook's invocations so far, and `rest` is what they leave on the interface; clones queue up
      again, and any packet may be next.  Nothing says that the turns come to an end. */
  ghost predicate IngressRun(pending: seq<seq<u8>>, turns: seq<Turn>, rest: seq<seq<u8>>)
    decreases |turns|
  {
    if turns == [] then pending == rest
    else
      && HookDoes(turns[0])
      && exists k :: 0 <= k < |pending| && pending[k] == turns[0].input
                     && IngressRun(pending[..k] + pending[k + 1..] + turns[0].clones, turns[1..], rest)
  }

  ghost predicate NoTriggers(pending: seq<seq<u8>>) {
    forall k :: 0 <= k < |pending| ==> !IsTrigger(pending[k])
  }

  lemma ClonesPass(p: seq<u8>, r: FanoutRule, clones: seq<seq<u8>>)
    requires AllDelivered(p, r, clones)
    ensures NoTriggers(clones)
  {
    forall i | 0 <= i < |clones| ensures !IsTrigger(clones[i]) {
      assert DeliveredTo(p, clones[i], r.dst[i]);
    }
  }

  lemma {:induction false} OthersPassOnce(pending: seq<seq<u8>>, turns: seq<Turn>, rest: seq<seq<u8>>)
    requires IngressRun(pending, turns, rest) && NoTriggers(pending)
    ensures |turns| + |rest| == |pending| && NoTriggers(rest) && forall i :: 0 <= i < |turns| ==> turns[i].clones == []
    decreases |turns|
  {
    hide IsTrigger, AllDelivered;
    if turns != [] {
      var t := turns[0];
      var k :| 0 <= k < |pending| && pending[k] == t.input
               && IngressRun(pending[..k] + pending[k + 1..] + t.clones, turns[1..], rest);
      assert !Matches(t.input, t.rules);
      OthersPassOnce(pending[..k] + pending[k + 1..] + t.clones, turns[1..], rest);
      assert forall i :: 0 < i < |turns| ==> turns[i] == turns[1..][i - 1];
    }
  }

  /** Processing a packet comes to an end, whatever the order and whatever rules are written meanwhile: after any
      number of invocations, those made and the packets left add up to 1, or to 1 + min(n, 16) if the packet was a
      trigger with n consumers.  No clone is cloned again. */
  lemma InvocationsBounded(p: seq<u8>, turns: seq<Turn>, rest: seq<seq<u8>>)
    requires IngressRun([p], turns, rest)
    ensures |turns| + |rest| ==
            1 + if turns != [] && Matches(p, turns[0].rules) then
                  (if turns[0].rules[TaskID(p)].n < 16 then turns[0].rules[TaskID(p)].n else 16)
                else 0
    ensures forall i :: 0 < i < |turns| ==> turns[i].clones == []
  {
    hide TaskID, AllDelivered, NoTriggers, DeliveredTo, Word;
    if turns != [] {
      var t := turns[0];
      var k :| 0 <= k < |[p]| && [p][k] == t.input && IngressRun([p][..k] + [p][k + 1..] + t.clones, turns[1..], rest);
      assert [p][..k] + [p][k + 1..] + t.clones == t.clones;
      if Matches(p, t.rules) {
        ClonesPass(p, t.rules[TaskID(p)], t.clones);
        CloneCount(p, t.rules[TaskID(p)], t.clones);
      } else {
        NoClones(t.clones);
      }
      OthersPassOnce(t.clones, turns[1..], rest);
      assert forall i :: 0 < i < |turns| ==> turns[i] == turns[1..][i - 1];
    }
  }

  lemma CloneCount(p: seq<u8>, r: FanoutRule, clones: seq<seq<u8>>)
    requires AllDelivered(p, r, clones)
    ensures |clones| == if r.n < 16 then r.n else 16
  {
  }

  lemma NoClones(clones: seq<seq<u8>>)
    requires clones == []
    ensures NoTriggers(clones)
  {
  }
}
