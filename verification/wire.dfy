/** From a task's ID to the kernel's map entries, byte by byte (internal/scheduler/core.go:318-330, 724-729;
    internal/ebpf/c/tc_bridge.c:227-275; internal/ebpf/c/fanout.c:73-108). */
module Wire {
  import opened Api
  import opened Checksums
  import Bridges
  import Fanouts
  import Retention
  import RuleTable

  // ---------- what a worker sends ----------

  /** byte(v), byte(v >> 8), byte(v >> 16), byte(v >> 24) */
  function Sent(v: u32): seq<u8> {
    [v % 0x100, v / 0x100 % 0x100, v / 0x1_0000 % 0x100, v / 0x100_0000 % 0x100]
  }

  method ImportLittleEndianUint32(b: array<u8>, v: u32)
    requires b.Length >= 4
    modifies b
    ensures b[..] == Sent(v) + old(b[4..])
  {
    b[0] := v % 0x100;
    b[1] := v / 0x100 % 0x100;
    b[2] := v / 0x1_0000 % 0x100;
    b[3] := v / 0x100_0000 % 0x100;
  }

  /** The payload of a worker's packet: as long as the first successor's data, but no shorter than the number. */
  method WorkerPayload(taskID: Id, successors: seq<Dependency>) returns (payload: array<u8>)
    ensures fresh(payload) && payload.Length >= 4 && payload[..4] == Sent(RuleTable.ParseNumericTaskID(taskID))
    ensures successors != [] && successors[0].dataSize >= 4 ==> payload.Length == successors[0].dataSize
    ensures successors == [] || successors[0].dataSize < 4 ==> payload.Length == 4
    ensures forall i :: 4 <= i < payload.Length ==> payload[i] == 0
  {
    hide RuleTable.NumberIn, RuleTable.TaskPart;
    var payloadSize := 4;
    if |successors| > 0 { payloadSize := successors[0].dataSize; }
    if payloadSize < 4 { payloadSize := 4; }
    payload := new u8[payloadSize](_ => 0);
    ImportLittleEndianUint32(payload, RuleTable.ParseNumericTaskID(taskID));
  }

  // ---------- what the hooks read ----------

  lemma ReadBack(v: u32)
    ensures LittleEndian(Sent(v)) == v
  {
    var w := v / 0x100;
    assert v == w * 0x100 + v % 0x100;
    assert v / 0x1_0000 == w / 0x100 && v / 0x100_0000 == w / 0x1_0000;
    assert w == w / 0x100 * 0x100 + w % 0x100;
    assert w / 0x100 == w / 0x1_0000 * 0x100 + w / 0x100 % 0x100;
  }

  /** Whatever number a worker sends is the ID that the fan-out hook looks up. */
  lemma FanoutReads(p: seq<u8>, v: u32)
    requires Fanouts.IsTrigger(p) && p[42..46] == Sent(v)
    ensures Fanouts.TaskID(p) == v
  {
    hide Sent, LittleEndian;
    ReadBack(v);
  }

  /** And the one that the receiver-side hook looks up, behind a header of any length. */
  lemma BridgeReads(p: seq<u8>, v: u32)
    requires Bridges.IsTrigger(p) && p[22 + p[14] % 16 * 4..26 + p[14] % 16 * 4] == Sent(v)
    ensures Bridges.TaskID(p) == v && Bridges.Payload(p) == Sent(v)
  {
    hide Sent, LittleEndian;
    ReadBack(v);
  }

  /** A task's output is retained under the number that the scheduler wrote its rule under, for as many consumers as
      the rule says, and what is retained is that number. */
  lemma RetainedUnderNumber(k: Retention.Kernel, p: seq<u8>, t: Id)
    requires Bridges.IsTrigger(p)
    requires p[22 + p[14] % 16 * 4..26 + p[14] % 16 * 4] == Sent(RuleTable.ParseNumericTaskID(t))
    requires RuleTable.ParseNumericTaskID(t) in k.vault && k.vault[RuleTable.ParseNumericTaskID(t)].refCount > 1
    requires RuleTable.ParseNumericTaskID(t) !in k.store.held && |k.store.held| < 4096
    ensures var n: u32 := RuleTable.ParseNumericTaskID(t);
            var held := Retention.Step(k, Retention.Trigger(Bridges.TaskID(p), Bridges.Payload(p))).store.held;
            held == k.store.held[n := Retention.Held(n, k.vault[n].refCount, Sent(n))]
  {
    hide RuleTable.NumberIn, RuleTable.TaskPart, Sent, LittleEndian, Bridges.IsTrigger;
    BridgeReads(p, RuleTable.ParseNumericTaskID(t));
  }

  // ---------- which packets, and what becomes of them ----------

  /** The fan-out hook takes UDP in plain IPv4 to port 9000. */
  lemma FanoutTriggerBytes(p: seq<u8>)
    ensures Fanouts.IsTrigger(p) <==>
            && |p| >= 46 && p[12] == 0x08 && p[13] == 0x00 && p[23] == 17 && p[14] % 16 == 5
            && p[36] == 0x23 && p[37] == 0x28
  {
  }

  /** The receiver-side hook takes the same port behind any IPv4 header. */
  lemma BridgeTriggerBytes(p: seq<u8>)
    ensures Bridges.IsTrigger(p) <==>
            && |p| >= 34 && p[12] == 0x08 && p[13] == 0x00 && p[23] == 17 && p[14] % 16 >= 5
            && |p| >= 26 + p[14] % 16 * 4 && p[16 + p[14] % 16 * 4] == 0x23 && p[17 + p[14] % 16 * 4] == 0x28
  {
  }

  /** An address in network order. */
  ghost predicate AddressBytes(q: seq<u8>, d: u32) {
    && |q| >= 34 && q[30] == d / 0x100_0000 && q[31] == d / 0x1_0000 % 0x100
    && q[32] == d / 0x100 % 0x100 && q[33] == d % 0x100
  }

  lemma LongBytes(q: seq<u8>)
    requires |q| >= 34
    ensures AddressBytes(q, Long(q, IP_DADDR_OFF))
  {
    var hi, lo := Word(q, 30), Word(q, 32);
    assert hi / 0x100 == q[30] && hi % 0x100 == q[31] && lo / 0x100 == q[32] && lo % 0x100 == q[33];
    Halves(hi, lo);
  }

  lemma Halves(hi: u16, lo: u16)
    ensures var d := hi as int * 0x1_0000 + lo as int;
            && d / 0x100_0000 == hi / 0x100 && d / 0x1_0000 % 0x100 == hi % 0x100
            && d / 0x100 % 0x100 == lo / 0x100 && d % 0x100 == lo % 0x100
  {
  }

  /** A consumer's packet: its address, port 9001, no UDP checksum, and otherwise, but for the header checksum, the
      trigger's bytes. */
  lemma DeliveredBytes(p: seq<u8>, q: seq<u8>, d: u32)
    requires Fanouts.DeliveredTo(p, q, d)
    ensures |q| == |p| && AddressBytes(q, d) && q[36] == 0x23 && q[37] == 0x29 && q[40] == q[41] == 0
    ensures forall i :: 0 <= i < |p| && i !in {24, 25, 30, 31, 32, 33, 36, 37, 40, 41} ==> q[i] == p[i]
  {
    hide HeaderValid, HeaderChecksum;
    LongBytes(q);
  }

  /** A packet sent on by the receiver-side hook: the new address, and otherwise, but for the header checksum, the same
      bytes. */
  lemma SentBytes(p: seq<u8>, q: seq<u8>, d: u32)
    requires Bridges.IsTrigger(p) && Bridges.SentTo(p, q, d)
    ensures |q| == |p| && AddressBytes(q, d)
    ensures forall i :: 0 <= i < |p| && i !in {24, 25, 30, 31, 32, 33} ==> q[i] == p[i]
  {
    hide HeaderValid, HeaderChecksum;
    LongBytes(q);
  }
}
