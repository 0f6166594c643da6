/** Reference-counted retention in the kernel, one packet after another (internal/ebpf/c/tc_bridge.c). */
module Retention {
  import opened Checksums

  const WORKER_TRIGGER_PORT: u16 := 9000
  const MAX_RETAINED: nat := 4096

  /** dependency_rule: how many consumers need a task's output, and where they are. */
  datatype Rule = Rule(refCount: u32, destIPs: seq<u32>)

  /** retained_payload, without its lock */
  datatype Held = Held(taskID: u32, remaining: u32, payload: seq<u8>)

  type HeldMap = map<u32, Held>

  /** What has happened so far: consumers promised by successful stores, stores, serves, deletes. */
  datatype Ledger = Ledger(promised: nat, stores: nat, serves: nat, deletes: nat)

  datatype Store = Store(held: HeldMap, ledger: Ledger)

  // ---------- the retention branch ----------

  /** The first interception: an entry is created unless the map is full. */
  function Stored(s: Store, id: u32, count: u32, payload: seq<u8>): Store {
    if |s.held| >= MAX_RETAINED then s else
    Store(s.held[id := Held(id, count, payload)],
          s.ledger.(promised := s.ledger.promised + count, stores := s.ledger.stores + 1))
  }

  /** A later interception: one consumer fewer, in 32-bit arithmetic; the last one frees the entry. */
  function Served(s: Store, id: u32): Store
    requires id in s.held
  {
    var left: u32 := (s.held[id].remaining - 1) % 0x1_0000_0000;
    var l := s.ledger.(serves := s.ledger.serves + 1);
    if left == 0 then Store(s.held - {id}, l.(deletes := l.deletes + 1))
    else Store(s.held[id := s.held[id].(remaining := left)], l)
  }

  function Intercepted(s: Store, id: u32, rule: Rule, payload: seq<u8>): Store {
    if rule.refCount <= 1 then s
    else if id !in s.held then Stored(s, id, rule.refCount, payload)
    else Served(s, id)
  }

  /** An entry is created as long as fewer than 4096 are there. */
  lemma StoredUnlessFull(s: Store, id: u32, count: u32, payload: seq<u8>)
    requires id !in s.held
    ensures id in Stored(s, id, count, payload).held <==> |s.held| < 4096
    ensures |s.held| >= 4096 ==> Stored(s, id, count, payload) == s
  {
  }

  // ---------- conservation ----------

  /** Consumers still to be served, over all retained outputs. */
  ghost function Outstanding(held: HeldMap): nat {
    if held == map[] then 0 else var id :| id in held; held[id].remaining + Outstanding(held - {id})
  }

  lemma {:induction false} OutstandingWithout(held: HeldMap, id: u32)
    requires id in held
    ensures Outstanding(held) == held[id].remaining + Outstanding(held - {id})
    decreases |held|
  {
    var x :| x in held && Outstanding(held) == held[x].remaining + Outstanding(held - {x});
    if x != id {
      OutstandingWithout(held - {x}, id);
      OutstandingWithout(held - {id}, x);
      assert held - {x} - {id} == held - {id} - {x};
    }
  }

  ghost predicate Live(held: HeldMap) {
    forall id :: id in held ==> held[id].remaining >= 1
  }

  /** Nothing is lost and nothing leaks: what was promised has been served or is still outstanding, every entry is
      still wanted, and the entries present are those stored and not yet deleted. */
  ghost predicate Balanced(s: Store) {
    && s.ledger.promised == s.ledger.serves + Outstanding(s.held)
    && Live(s.held)
    && s.ledger.stores == s.ledger.deletes + |s.held|
    && |s.held| <= MAX_RETAINED
  }

  lemma StoredKeeps(s: Store, id: u32, count: u32, payload: seq<u8>)
    requires Balanced(s) && id !in s.held && count > 1
    ensures Balanced(Stored(s, id, count, payload))
  {
    var held' := s.held[id := Held(id, count, payload)];
    OutstandingWithout(held', id);
    assert held' - {id} == s.held;
  }

  /** A live entry loses one consumer, and the last one takes the entry with it. */
  lemma ServedHeld(s: Store, id: u32)
    requires id in s.held && s.held[id].remaining >= 1
    ensures Served(s, id).held == if s.held[id].remaining == 1 then s.held - {id}
                                  else s.held[id := s.held[id].(remaining := s.held[id].remaining - 1)]
    ensures Served(s, id).ledger == s.ledger.(serves := s.ledger.serves + 1, deletes := s.ledger.deletes
                                              + if s.held[id].remaining == 1 then 1 else 0)
  {
  }

  lemma OutstandingServed(held: HeldMap, id: u32, h: Held)
    requires id in held && h.remaining + 1 == held[id].remaining
    ensures Outstanding(held) == Outstanding(held[id := h]) + 1
    ensures h.remaining == 0 ==> Outstanding(held) == Outstanding(held - {id}) + 1
    ensures |held| == |held - {id}| + 1
  {
    OutstandingWithout(held, id);
    OutstandingWithout(held[id := h], id);
    assert held[id := h] - {id} == held - {id};
  }

  lemma ServedKeeps(s: Store, id: u32)
    requires Balanced(s) && id in s.held
    ensures Balanced(Served(s, id))
  {
    hide Served, Outstanding;
    ServedHeld(s, id);
    OutstandingServed(s.held, id, s.held[id].(remaining := s.held[id].remaining - 1));
  }

  lemma InterceptedKeeps(s: Store, id: u32, rule: Rule, payload: seq<u8>)
    requires Balanced(s)
    ensures Balanced(Intercepted(s, id, rule, payload))
  {
    hide Balanced, Served, Stored;
    if rule.refCount > 1 {
      if id in s.held { ServedKeeps(s, id); } else { StoredKeeps(s, id, rule.refCount, payload); }
    }
  }

  // ---------- runs: packets and rule rewrites in any order ----------

  datatype Event = Trigger(id: u32, payload: seq<u8>) | Write(id: u32, rule: Rule)

  datatype Kernel = Kernel(vault: map<u32, Rule>, store: Store)

  const EMPTY: Kernel := Kernel(map[], Store(map[], Ledger(0, 0, 0, 0)))

  function Step(k: Kernel, e: Event): Kernel {
    match e
    case Write(id, rule) => k.(vault := k.vault[id := rule])
    case Trigger(id, payload) =>
      if id in k.vault then k.(store := Intercepted(k.store, id, k.vault[id], payload)) else k
  }

  function Run(k: Kernel, es: seq<Event>): Kernel {
    if es == [] then k else Step(Run(k, es[..|es| - 1]), es[|es| - 1])
  }

  /** Conservation holds after any packets and rule rewrites, stores refused by a full map included. */
  lemma {:induction false} RunKeeps(k: Kernel, es: seq<Event>)
    requires Balanced(k.store)
    ensures Balanced(Run(k, es).store)
  {
    hide Balanced, Intercepted;
    if es != [] {
      var n := |es| - 1;
      RunKeeps(k, es[..n]);
      var k' := Run(k, es[..n]);
      match es[n]
      case Write(_, _) =>
      case Trigger(id, payload) => if id in k'.vault { InterceptedKeeps(k'.store, id, k'.vault[id], payload); }
    }
  }

  /** From an empty map on: consumers promised are served or outstanding, and no entry outlives its last consumer. */
  lemma Conservation(es: seq<Event>)
    ensures var s := Run(EMPTY, es).store;
            && s.ledger.promised == s.ledger.serves + Outstanding(s.held)
            && (forall id :: id in s.held ==> s.held[id].remaining >= 1)
            && s.ledger.stores - s.ledger.deletes == |s.held|
  {
    RunKeeps(EMPTY, es);
  }

  // ---------- the life of one entry ----------

  /** The event is a packet of this task that reaches the retention branch. */
  predicate Counts(k: Kernel, id: u32, e: Event) {
    e.Trigger? && e.id == id && id in k.vault && k.vault[id].refCount > 1
  }

  /** How many events of the run do. */
  function Accesses(k: Kernel, id: u32, es: seq<Event>): nat {
    if es == [] then 0 else
    var n := |es| - 1;
    Accesses(k, id, es[..n]) + if Counts(Run(k, es[..n]), id, es[n]) then 1 else 0
  }

  /** Other tasks' packets and rule rewrites leave a task's entry alone. */
  lemma OthersLeave(k: Kernel, id: u32, e: Event)
    requires !Counts(k, id, e)
    ensures id in Step(k, e).store.held <==> id in k.store.held
    ensures id in k.store.held ==> Step(k, e).store.held[id] == k.store.held[id]
  {
  }

  /** No premature eviction: while fewer consumers than promised have come, the entry is there with its payload and
      the right count, whatever the rules say meanwhile. */
  lemma {:induction false} HeldUntilServed(k: Kernel, id: u32, es: seq<Event>)
    requires Balanced(k.store) && id in k.store.held && Accesses(k, id, es) < k.store.held[id].remaining
    ensures var held := Run(k, es).store.held;
            && id in held && held[id].payload == k.store.held[id].payload
            && held[id].remaining == k.store.held[id].remaining - Accesses(k, id, es)
  {
    hide Balanced, Step, Counts;
    if es != [] {
      var n := |es| - 1;
      var k' := Run(k, es[..n]);
      HeldUntilServed(k, id, es[..n]);
      RunKeeps(k, es[..n]);
      if Counts(k', id, es[n]) { AccessServes(k', id, es[n]); } else { OthersLeave(k', id, es[n]); }
    }
  }

  lemma AccessServes(k: Kernel, id: u32, e: Event)
    requires Balanced(k.store) && id in k.store.held && Counts(k, id, e)
    ensures Step(k, e).store.held == if k.store.held[id].remaining == 1 then k.store.held - {id}
              else k.store.held[id := k.store.held[id].(remaining := k.store.held[id].remaining - 1)]
  {
    hide Served;
    ServedHeld(k.store, id);
  }

  /** No leak: the access of the last promised consumer removes the entry. */
  lemma FreedByLast(k: Kernel, id: u32, es: seq<Event>)
    requires Balanced(k.store) && id in k.store.held && es != []
    requires Accesses(k, id, es[..|es| - 1]) == k.store.held[id].remaining - 1
    requires Accesses(k, id, es) == k.store.held[id].remaining
    ensures id !in Run(k, es).store.held
  {
    hide Balanced, Step, Counts;
    var n := |es| - 1;
    HeldUntilServed(k, id, es[..n]);
    RunKeeps(k, es[..n]);
    AccessServes(Run(k, es[..n]), id, es[n]);
  }

  /** Output for one consumer, or for none, is never retained. */
  lemma {:induction false} UnsharedNotRetained(k: Kernel, id: u32, es: seq<Event>)
    requires id !in k.store.held && (id in k.vault ==> k.vault[id].refCount <= 1)
    requires forall i :: 0 <= i < |es| && es[i].Write? && es[i].id == id ==> es[i].rule.refCount <= 1
    ensures id !in Run(k, es).store.held && (id in Run(k, es).vault ==> Run(k, es).vault[id].refCount <= 1)
  {
    hide Served;
    if es != [] {
      var n := |es| - 1;
      UnsharedNotRetained(k, id, es[..n]);
      OthersLeave(Run(k, es[..n]), id, es[n]);
    }
  }

  // ---------- many life cycles under one rule ----------

  /** The task's rule is never changed, and no store of its output meets a full map. */
  ghost predicate Undisturbed(k: Kernel, id: u32, es: seq<Event>) {
    es == [] ||
    var n := |es| - 1;
    && Undisturbed(k, id, es[..n])
    && (es[n].Write? && es[n].id == id ==> id in k.vault && es[n].rule == k.vault[id])
    && (es[n].Trigger? && es[n].id == id && id !in Run(k, es[..n]).store.held ==>
          |Run(k, es[..n]).store.held| < MAX_RETAINED)
  }

  function Triggers(id: u32, es: seq<Event>): nat {
    if es == [] then 0 else
    var n := |es| - 1;
    Triggers(id, es[..n]) + if es[n].Trigger? && es[n].id == id then 1 else 0
  }

  lemma ModStep(k: nat, m: nat)
    requires m > 1
    ensures (k + 1) % m == if k % m == m - 1 then 0 else k % m + 1
  {
    var q, r := k / m, k % m;
    assert k == m * q + r;
    if r == m - 1 {
      assert k + 1 == m * (q + 1) + 0;
      DivisionIs(k + 1, m, q + 1, 0);
    } else {
      DivisionIs(k + 1, m, q, r + 1);
    }
  }

  lemma DivisionIs(x: nat, m: nat, q: nat, r: nat)
    requires m > 0 && r < m && x == m * q + r
    ensures x % m == r
  {
    assert m * (x / m - q) == m * (x / m) - m * q;
    assert x == m * (x / m) + x % m;
    MultipleIsFar(m, x / m - q);
  }

  lemma MultipleIsFar(m: nat, d: int)
    ensures d == 0 || m * d >= m || m * d <= 0 - m
  {
  }

  /** Where a task's entry is after n triggers under reference count r: absent, or with this many consumers to go. */
  ghost predicate InPhase(held: HeldMap, id: u32, r: nat, n: nat) {
    if n % (r + 1) == 0 then id !in held else id in held && held[id].remaining == r + 1 - n % (r + 1)
  }

  lemma PhaseAdvances(k: Kernel, id: u32, payload: seq<u8>, n: nat)
    requires Balanced(k.store) && id in k.vault && k.vault[id].refCount > 1
    requires InPhase(k.store.held, id, k.vault[id].refCount, n)
    requires id !in k.store.held ==> |k.store.held| < MAX_RETAINED
    ensures InPhase(Step(k, Trigger(id, payload)).store.held, id, k.vault[id].refCount, n + 1)
  {
    hide Balanced;
    ModStep(n, k.vault[id].refCount + 1);
    if id in k.store.held { AccessServes(k, id, Trigger(id, payload)); }
  }

  lemma PhaseStarts(held: HeldMap, id: u32, r: nat)
    requires id !in held
    ensures InPhase(held, id, r, 0)
  {
  }

  lemma PhaseStays(held: HeldMap, held': HeldMap, id: u32, r: nat, n: nat)
    requires InPhase(held, id, r, n) && (id in held' <==> id in held) && (id in held ==> held'[id] == held[id])
    ensures InPhase(held', id, r, n)
  {
  }

  /** One life cycle is one store and refCount serves: after n triggers the output is retained exactly when
      n mod (refCount + 1) is not zero, whatever other tasks do in between. */
  lemma {:induction false} LifeCycles(k: Kernel, id: u32, es: seq<Event>)
    requires Balanced(k.store) && id in k.vault && k.vault[id].refCount > 1 && id !in k.store.held
    requires Undisturbed(k, id, es)
    ensures id in Run(k, es).vault && Run(k, es).vault[id] == k.vault[id]
    ensures InPhase(Run(k, es).store.held, id, k.vault[id].refCount, Triggers(id, es))
  {
    hide Balanced, InPhase;
    if es == [] {
      PhaseStarts(k.store.held, id, k.vault[id].refCount);
    } else {
      var n := |es| - 1;
      var k' := Run(k, es[..n]);
      LifeCycles(k, id, es[..n]);
      RunKeeps(k, es[..n]);
      if es[n].Trigger? && es[n].id == id {
        PhaseAdvances(k', id, es[n].payload, Triggers(id, es[..n]));
      } else {
        OthersLeave(k', id, es[n]);
        PhaseStays(k'.store.held, Step(k', es[n]).store.held, id, k.vault[id].refCount, Triggers(id, es[..n]));
      }
    }
  }
}

/** The receiver-side hook: retention, then the destination rewrite (internal/ebpf/c/tc_bridge.c:188-339). */
module Bridges {
  import opened Checksums
  import opened Retention

  const MAX_FANOUT: nat := 4

  /** Where the UDP header starts, IP options included. */
  function UdpOffset(p: seq<u8>): nat
    requires 34 <= |p|
  {
    ETH_LEN + 4 * (p[14] % 16)
  }

  /** UDP over IPv4, with or without IP options, to the trigger port, with room for a task ID. */
  predicate IsTrigger(p: seq<u8>) {
    && 34 <= |p| && Word(p, 12) == 0x0800 && p[23] == 17 && p[14] % 16 >= 5
    && UdpOffset(p) + 12 <= |p| && Word(p, UdpOffset(p) + 2) == WORKER_TRIGGER_PORT
  }

  function Payload(p: seq<u8>): (r: seq<u8>)
    requires IsTrigger(p)
    ensures |r| == 4
  {
    p[UdpOffset(p) + 8..UdpOffset(p) + 12]
  }

  function TaskID(p: seq<u8>): u32
    requires IsTrigger(p)
  {
    LittleEndian(Payload(p))
  }

  ghost predicate RulesFit(vault: map<u32, Rule>) {
    forall id :: id in vault ==> |vault[id].destIPs| == MAX_FANOUT
  }

  predicate Matches(p: seq<u8>, vault: map<u32, Rule>) {
    IsTrigger(p) && TaskID(p) in vault
  }

  /** Where the packet ought to go: to the rule's first destination, if there is one. */
  ghost function Target(p: seq<u8>, vault: map<u32, Rule>): u32
    requires RulesFit(vault) && 34 <= |p|
  {
    if Matches(p, vault) && vault[TaskID(p)].destIPs[0] != 0 then vault[TaskID(p)].destIPs[0] else Long(p, IP_DADDR_OFF)
  }

  ghost predicate AsValid(p: seq<u8>, q: seq<u8>, words: nat)
    requires HasHeader(p, words) && HasHeader(q, words)
  {
    && (HeaderValid(q, words) <==> HeaderValid(p, words))
    && (Word(p, 24) == HeaderChecksum(p, words) ==> Word(q, 24) == HeaderChecksum(q, words))
  }

  /** q is p sent to address d: nothing else changed, and the header checksum is as right as it was. */
  ghost predicate SentTo(p: seq<u8>, q: seq<u8>, d: u32)
    requires IsTrigger(p)
  {
    && |q| == |p| && Long(q, IP_DADDR_OFF) == d && (d == Long(p, IP_DADDR_OFF) ==> q == p)
    && (forall i :: 0 <= i < |p| && i != 24 && i != 25 && !(30 <= i < 34) ==> q[i] == p[i])
    && AsValid(p, q, 2 * (p[14] % 16))
  }

  lemma RedirectSends(p: seq<u8>, d: u32)
    requires IsTrigger(p) && d != Long(p, IP_DADDR_OFF)
    ensures SentTo(p, Redirected(p, Long(p, IP_DADDR_OFF), d), d)
  {
    hide HeaderValid, HeaderChecksum, Redirected, Word;
    RedirectedValid(p, d, 2 * (p[14] % 16));
  }

  // ---------- what is retained ----------

  /** Each entry holds four bytes, and they are the task's own ID. */
  ghost predicate OnlyIDs(held: HeldMap) {
    forall id :: id in held ==>
      held[id].taskID == id && |held[id].payload| == 4 && LittleEndian(held[id].payload) == id
  }

  lemma StillOnlyIDs(s: Store, id: u32, rule: Rule, payload: seq<u8>)
    requires OnlyIDs(s.held) && |payload| == 4 && LittleEndian(payload) == id
    ensures OnlyIDs(Intercepted(s, id, rule, payload).held)
  {
    hide LittleEndian;
  }

  /** What reaches the hook: packets, and rules written by the scheduler. */
  datatype Input = Packet(bytes: seq<u8>) | NewRule(id: u32, rule: Rule)

  /** The inputs as the retention model sees them: packets that are no triggers do not count. */
  function EventsOf(inputs: seq<Input>): seq<Event> {
    if inputs == [] then [] else
    var before := EventsOf(inputs[..|inputs| - 1]);
    match inputs[|inputs| - 1]
    case NewRule(id, rule) => before + [Write(id, rule)]
    case Packet(p) => if IsTrigger(p) then before + [Trigger(TaskID(p), Payload(p))] else before
  }

  /** What the map retains of a task's output is the task's own ID and nothing else, whatever arrives. */
  lemma {:induction false} OnlyTheIDIsRetained(inputs: seq<Input>)
    ensures OnlyIDs(Run(EMPTY, EventsOf(inputs)).store.held)
  {
    hide OnlyIDs, Intercepted, IsTrigger, TaskID, Payload;
    if inputs == [] {
      NothingRetained();
    } else {
      var n := |inputs| - 1;
      OnlyTheIDIsRetained(inputs[..n]);
      var k := Run(EMPTY, EventsOf(inputs[..n]));
      match inputs[n]
      case NewRule(id, rule) =>
        RunOneMore(EventsOf(inputs[..n]), Write(id, rule));
      case Packet(p) =>
        if IsTrigger(p) {
          RunOneMore(EventsOf(inputs[..n]), Trigger(TaskID(p), Payload(p)));
          ReadFromPayload(p);
          if TaskID(p) in k.vault { StillOnlyIDs(k.store, TaskID(p), k.vault[TaskID(p)], Payload(p)); }
        }
    }
  }

  lemma RunOneMore(es: seq<Event>, e: Event)
    ensures Run(EMPTY, es + [e]) == Step(Run(EMPTY, es), e)
  {
    hide Step;
    assert (es + [e])[..|es|] == es;
  }

  lemma ReadFromPayload(p: seq<u8>)
    requires IsTrigger(p)
    ensures |Payload(p)| == 4 && LittleEndian(Payload(p)) == TaskID(p)
  {
  }

  lemma NothingRetained()
    ensures OnlyIDs(Run(EMPTY, []).store.held)
  {
  }

  class Bridge {
    var vaultMap: map<u32, Rule>
    var retentionMap: HeldMap
    ghost var ledger: Ledger

    constructor ()
      ensures View() == EMPTY && OnlyIDs(retentionMap)
    {
      vaultMap, retentionMap := map[], map[];
      ledger := Ledger(0, 0, 0, 0);
    }

    ghost function View(): Kernel
      reads this
    {
      Kernel(vaultMap, Store(retentionMap, ledger))
    }

    /** The Channeler writes, or rewrites, a rule. */
    method WriteRule(id: u32, rule: Rule)
      modifies this`vaultMap
      ensures View() == Step(old(View()), Write(id, rule))
    {
      vaultMap := vaultMap[id := rule];
    }

    /** Step 10 of the hook. */
    method Retain(taskID: u32, rule: Rule, payload: seq<u8>)
      modifies this`retentionMap, this`ledger
      ensures View() == old(View()).(store := Intercepted(old(View()).store, taskID, rule, payload))
    {
      if rule.refCount > 1 {
        if taskID !in retentionMap {
          if |retentionMap| < MAX_RETAINED {
            retentionMap := retentionMap[taskID := Held(taskID, rule.refCount, payload)];
            ledger := ledger.(promised := ledger.promised + rule.refCount, stores := ledger.stores + 1);
          }
        } else {
          var held := retentionMap[taskID];
          var left := (held.remaining - 1) % 0x1_0000_0000;
          ghost var before := retentionMap;
          retentionMap := retentionMap[taskID := held.(remaining := left)];
          ledger := ledger.(serves := ledger.serves + 1);
          if left == 0 {
            retentionMap := retentionMap - {taskID};
            ledger := ledger.(deletes := ledger.deletes + 1);
            assert retentionMap == before - {taskID};
          }
        }
      }
    }

    /** The whole hook; every path lets the packet continue up the stack. */
    method Ingress(skb: array<u8>)
      requires RulesFit(vaultMap)
      modifies this`retentionMap, this`ledger, skb
      ensures View() == if IsTrigger(old(skb[..])) then
                          Step(old(View()), Trigger(TaskID(old(skb[..])), Payload(old(skb[..]))))
                        else old(View())
      ensures !IsTrigger(old(skb[..])) ==> skb[..] == old(skb[..])
      ensures IsTrigger(old(skb[..])) ==>
                SentTo(old(skb[..]), skb[..], Target(old(skb[..]), old(vaultMap)))
      ensures var p := old(skb[..]); var vault := old(vaultMap);
              if Matches(p, vault) && vault[TaskID(p)].destIPs[0] != 0 then
                Long(skb[..], IP_DADDR_OFF) == vault[TaskID(p)].destIPs[0]
              else skb[..] == p
      ensures old(OnlyIDs(retentionMap)) ==> OnlyIDs(retentionMap)
    {
      hide OnlyIDs, Word, Long, Intercepted, Redirected, LittleEndian, AsValid;
      ghost var p := skb[..];
      if skb.Length < 14 { return; }
      if Word(skb[..], 12) != 0x0800 { return; }
      if skb.Length < 34 { return; }
      if skb[23] != 17 { return; }
      var ipLen := skb[14] % 16 * 4;
      if ipLen < 20 { return; }
      var udp := ETH_LEN + ipLen;
      if skb.Length < udp + 8 { return; }
      if Word(skb[..], udp + 2) != WORKER_TRIGGER_PORT { return; }
      if skb.Length < udp + 12 { return; }
      assert p == skb[..] && IsTrigger(p);
      SentNowhere(p);
      var payload := skb[udp + 8..udp + 12];
      var taskID := LittleEndian(payload);
      assert taskID == TaskID(p) && payload == Payload(p);
      if taskID !in vaultMap { return; }
      var rule := vaultMap[taskID];
      Retain(taskID, rule, payload);
      if old(OnlyIDs(retentionMap)) { StillOnlyIDs(old(View()).store, taskID, rule, payload); }
      if rule.destIPs[0] == 0 { return; }
      var oldDaddr := Long(skb[..], IP_DADDR_OFF);
      var newDaddr := rule.destIPs[0];
      if oldDaddr == newDaddr { return; }
      RedirectSends(p, newDaddr);
      Redirect(skb, oldDaddr, newDaddr);
    }
  }

  /** A bridge that has seen these packets and rules, in this order, holds what the retention model says. */
  method Process(inputs: seq<Input>) returns (bridge: Bridge)
    requires forall i :: 0 <= i < |inputs| && inputs[i].NewRule? ==> |inputs[i].rule.destIPs| == MAX_FANOUT
    ensures bridge.View() == Run(EMPTY, EventsOf(inputs))
  {
    hide Step, IsTrigger, TaskID, Payload, Target, Long;
    bridge := new Bridge();
    assert inputs[..0] == [];
    for i := 0 to |inputs|
      invariant fresh(bridge) && RulesFit(bridge.vaultMap) && bridge.View() == Run(EMPTY, EventsOf(inputs[..i]))
    {
      ghost var es := EventsOf(inputs[..i]);
      assert inputs[..i + 1][..i] == inputs[..i];
      match inputs[i] {
        case NewRule(id, rule) =>
          RunOneMore(es, Write(id, rule));
          bridge.WriteRule(id, rule);
          RuleWritten(Run(EMPTY, es), id, rule);
        case Packet(bytes) =>
          var skb := new u8[|bytes|](k requires 0 <= k < |bytes| => bytes[k]);
          assert skb[..] == bytes;
          if IsTrigger(bytes) { RunOneMore(es, Trigger(TaskID(bytes), Payload(bytes))); }
          bridge.Ingress(skb);
      }
    }
    assert inputs[..|inputs|] == inputs;
  }

  lemma RuleWritten(k: Kernel, id: u32, rule: Rule)
    requires RulesFit(k.vault) && |rule.destIPs| == MAX_FANOUT
    ensures RulesFit(Step(k, Write(id, rule)).vault)
  {
  }

  lemma SentNowhere(p: seq<u8>)
    requires IsTrigger(p)
    ensures SentTo(p, p, Long(p, IP_DADDR_OFF))
  {
  }
}
