/** Packet bytes and the IPv4 header checksum (section 3.1 of RFC 791, Eqn. 3 in section 3 of RFC 1624). */
module Checksums {
  type u8 = x: int | 0 <= x < 0x100
  type u16 = x: int | 0 <= x < 0x1_0000
  type u32 = x: int | 0 <= x < 0x1_0000_0000

  const ETH_LEN: nat := 14
  const IP_CHECK_OFF: nat := 24
  const IP_DADDR_OFF: nat := 30

  // ---------- one's complement arithmetic ----------

  /** End-around carry until the sum fits in 16 bits. */
  function Fold(x: nat): (r: u16)
    ensures r % 65535 == x % 65535 && (r == 0 <==> x == 0)
  {
    if x < 0x1_0000 then x else Fold(x % 0x1_0000 + x / 0x1_0000)
  }

  function Complement(x: u16): u16 {
    65535 - x
  }

  /** Eqn. 3: the new checksum after a 32-bit field changed, one 16-bit word at a time. */
  function Replaced(check: u16, from: u32, to: u32): u16 {
    Complement(Fold(Complement(check) + Complement(from / 0x1_0000) + Complement(from % 0x1_0000)
                    + to / 0x1_0000 + to % 0x1_0000))
  }

  lemma ReplacedMod(check: u16, from: u32, to: u32)
    ensures (Replaced(check, from, to) + to / 0x1_0000 + to % 0x1_0000) % 65535
         == (check + from / 0x1_0000 + from % 0x1_0000) % 65535
    ensures Replaced(check, from, to) == 0xffff <==> check == 0xffff && from == 0xffff_ffff && to == 0
  {
    ComplementsFold(check, from / 0x1_0000, from % 0x1_0000, to / 0x1_0000, to % 0x1_0000);
  }

  /** Taking words away and adding others, in one's complement. */
  lemma ComplementsFold(c: u16, m: u16, n: u16, a: u16, b: u16)
    ensures var x: nat := Complement(c) + Complement(m) + Complement(n) + a + b;
            && (Complement(Fold(x)) + a + b) % 65535 == (c + m + n) % 65535
            && (Complement(Fold(x)) == 0xffff <==> c == m == n == 0xffff && a == b == 0)
  {
    hide Fold;
    var x: nat := Complement(c) + Complement(m) + Complement(n) + a + b;
    assert Fold(x) % 65535 == x % 65535;
  }

  // ---------- words of a packet ----------

  /** Two bytes in network order. */
  function Word(p: seq<u8>, i: nat): u16
    requires i + 2 <= |p|
  {
    p[i] as int * 0x100 + p[i + 1] as int
  }

  /** Four bytes in network order. */
  function Long(p: seq<u8>, i: nat): u32
    requires i + 4 <= |p|
  {
    Word(p, i) as int * 0x1_0000 + Word(p, i + 2) as int
  }

  /** Four bytes as a little-endian number, the way task IDs are sent. */
  function LittleEndian(b: seq<u8>): u32
    requires |b| == 4
  {
    b[0] as int + b[1] as int * 0x100 + b[2] as int * 0x1_0000 + b[3] as int * 0x100_0000
  }

  /** The sum of n 16-bit words from offset i on. */
  function WordSum(p: seq<u8>, i: nat, n: nat): nat
    requires i + 2 * n <= |p|
    decreases n
  {
    if n == 0 then 0 else Word(p, i) + WordSum(p, i + 2, n - 1)
  }

  lemma {:induction false} WordSumSplit(p: seq<u8>, i: nat, n: nat, k: nat)
    requires i + 2 * n <= |p| && k <= n
    ensures WordSum(p, i, n) == WordSum(p, i, k) + WordSum(p, i + 2 * k, n - k)
    decreases k
  {
    if k > 0 { WordSumSplit(p, i + 2, n - 1, k - 1); }
  }

  lemma {:induction false} WordSumSame(p: seq<u8>, q: seq<u8>, i: nat, n: nat)
    requires i + 2 * n <= |p| == |q| && forall k :: i <= k < i + 2 * n ==> p[k] == q[k]
    ensures WordSum(p, i, n) == WordSum(q, i, n)
    decreases n
  {
    if n > 0 { WordSumSame(p, q, i + 2, n - 1); }
  }

  // ---------- the header checksum ----------

  /** The packet holds an IPv4 header of `words` 16-bit words after the Ethernet header. */
  predicate HasHeader(p: seq<u8>, words: nat) {
    10 <= words && ETH_LEN + 2 * words <= |p|
  }

  function HeaderSum(p: seq<u8>, words: nat): nat
    requires HasHeader(p, words)
  {
    WordSum(p, ETH_LEN, words)
  }

  /** A receiver's test: the folded sum of the whole header is all ones. */
  predicate HeaderValid(p: seq<u8>, words: nat)
    requires HasHeader(p, words)
  {
    Fold(HeaderSum(p, words)) == 0xffff
  }

  /** The field as section 3.1 of RFC 791 computes it, with the field itself taken as zero. */
  function HeaderChecksum(p: seq<u8>, words: nat): u16
    requires HasHeader(p, words)
  {
    Complement(Fold(WordSum(p, ETH_LEN, 5) + WordSum(p, 26, words - 6)))
  }

  /** The part of the header sum that neither the checksum nor the destination address contributes. */
  function RestSum(p: seq<u8>, words: nat): nat
    requires HasHeader(p, words)
  {
    WordSum(p, ETH_LEN, 5) + WordSum(p, 26, 2) + WordSum(p, 34, words - 10)
  }

  lemma HeaderSumParts(p: seq<u8>, words: nat)
    requires HasHeader(p, words)
    ensures HeaderSum(p, words) == WordSum(p, ETH_LEN, 5) + Word(p, 24) + WordSum(p, 26, words - 6)
    ensures HeaderSum(p, words) == RestSum(p, words) + Word(p, 24) + Word(p, 30) + Word(p, 32)
  {
    WordSumSplit(p, ETH_LEN, words, 5);
    WordSumSplit(p, 24, words - 5, 1);
    WordSumSplit(p, 26, words - 6, 2);
    WordSumSplit(p, 30, words - 8, 2);
    assert WordSum(p, 24, 1) == Word(p, 24) + WordSum(p, 26, 0);
    assert WordSum(p, 30, 2) == Word(p, 30) + WordSum(p, 32, 1) && WordSum(p, 32, 1) == Word(p, 32) + WordSum(p, 34, 0);
  }

  /** A stored field is what RFC 791 asks for exactly when it passes the receiver's test and is not minus zero. */
  lemma ChecksumIffValid(p: seq<u8>, words: nat)
    requires HasHeader(p, words) && HeaderSum(p, words) > Word(p, 24)
    ensures Word(p, 24) == HeaderChecksum(p, words) <==> HeaderValid(p, words) && Word(p, 24) != 0xffff
  {
    hide WordSum, Fold;
    HeaderSumParts(p, words);
    var rest := WordSum(p, ETH_LEN, 5) + WordSum(p, 26, words - 6);
    assert Fold(rest) % 65535 == rest % 65535;
    assert Fold(rest + Word(p, 24)) % 65535 == (rest + Word(p, 24)) % 65535;
  }

  /** A header with checksum b861, as bytes. */
  function Sample(): seq<u8> {
    [0, 0, 0, 0, 0, 0, 0, 0, 0, 0, 0, 0, 0x08, 0x00,
     0x45, 0x00, 0x00, 0x73, 0x00, 0x00, 0x40, 0x00, 0x40, 0x11, 0xb8, 0x61,
     0xc0, 0xa8, 0x00, 0x01, 0xc0, 0xa8, 0x00, 0xc7]
  }

  lemma SampleWords()
    ensures |Sample()| == 34
    ensures var p := Sample();
            && Word(p, 14) == 0x4500 && Word(p, 16) == 0x73 && Word(p, 18) == 0 && Word(p, 20) == 0x4000
            && Word(p, 22) == 0x4011 && Word(p, 24) == 0xb861 && Word(p, 26) == 0xc0a8 && Word(p, 28) == 1
            && Word(p, 30) == 0xc0a8 && Word(p, 32) == 0xc7
  {
  }

  lemma SampleSums()
    ensures |Sample()| == 34 && WordSum(Sample(), 14, 5) == 0x4500 + 0x73 + 0x4000 + 0x4011
    ensures WordSum(Sample(), 26, 4) == 0xc0a8 + 1 + 0xc0a8 + 0xc7
  {
    SampleWords();
    hide Word, Sample;
    var p := Sample();
    assert WordSum(p, 24, 0) == 0 && WordSum(p, 34, 0) == 0;
    assert WordSum(p, 22, 1) == 0x4011 && WordSum(p, 32, 1) == 0xc7;
    assert WordSum(p, 20, 2) == 0x4000 + 0x4011 && WordSum(p, 30, 2) == 0xc0a8 + 0xc7;
    assert WordSum(p, 18, 3) == 0x4000 + 0x4011 && WordSum(p, 28, 3) == 1 + 0xc0a8 + 0xc7;
    assert WordSum(p, 16, 4) == 0x73 + 0x4000 + 0x4011;
  }

  /** The checksum of a header with known checksum: it is computed, and it passes the receiver's test. */
  lemma SampleChecksum()
    ensures HasHeader(Sample(), 10) && HeaderChecksum(Sample(), 10) == 0xb861 && HeaderValid(Sample(), 10)
  {
    SampleSums();
    SampleWords();
    hide WordSum, Word, Sample;
    HeaderSumParts(Sample(), 10);
    assert Fold(0x2479c) == Fold(0x479e) == 0x479e;
    assert Fold(0x2fffd) == Fold(0xffff) == 0xffff;
  }

  /** q is p with another destination address and the checksum Eqn. 3 gives for that change. */
  ghost predicate Readdressed(p: seq<u8>, q: seq<u8>, words: nat)
    requires HasHeader(p, words) && |q| == |p|
  {
    && (forall i :: 14 <= i < 14 + 2 * words && i != 24 && i != 25 && !(30 <= i < 34) ==> q[i] == p[i])
    && Word(q, 24) == Replaced(Word(p, 24), Long(p, 30), Long(q, 30))
  }

  lemma ValidByMod(p: seq<u8>, words: nat)
    requires HasHeader(p, words)
    ensures HeaderValid(p, words) <==> HeaderSum(p, words) > 0 && HeaderSum(p, words) % 65535 == 0
  {
    hide HeaderSum, Fold;
    var s := HeaderSum(p, words);
    assert Fold(s) % 65535 == s % 65535;
  }

  lemma RestSame(p: seq<u8>, q: seq<u8>, words: nat)
    requires HasHeader(p, words) && |q| == |p| && Readdressed(p, q, words)
    ensures RestSum(q, words) == RestSum(p, words)
  {
    hide WordSum, Replaced;
    WordSumSame(p, q, ETH_LEN, 5);
    WordSumSame(p, q, 26, 2);
    WordSumSame(p, q, 34, words - 10);
  }

  lemma LongWords(p: seq<u8>, i: nat)
    requires i + 4 <= |p|
    ensures Long(p, i) / 0x1_0000 == Word(p, i) && Long(p, i) % 0x1_0000 == Word(p, i + 2)
  {
    hide Word;
  }

  lemma SumsAgree(rest: nat, c: u16, m: u16, n: u16, c': u16, m': u16, n': u16)
    requires (c' + m' + n') % 65535 == (c + m + n) % 65535
    ensures (rest + c' + m' + n') % 65535 == (rest + c + m + n) % 65535
  {
  }

  lemma SumKept(p: seq<u8>, q: seq<u8>, words: nat)
    requires HasHeader(p, words) && |q| == |p| && Readdressed(p, q, words)
    ensures HeaderSum(q, words) % 65535 == HeaderSum(p, words) % 65535
    ensures Word(p, 24) != 0xffff ==> Word(q, 24) != 0xffff
  {
    hide HeaderSum, RestSum, Replaced, Word, Long, WordSum;
    HeaderSumParts(p, words);
    HeaderSumParts(q, words);
    RestSame(p, q, words);
    LongWords(p, 30);
    LongWords(q, 30);
    ReplacedMod(Word(p, 24), Long(p, 30), Long(q, 30));
    SumsAgree(RestSum(p, words), Word(p, 24), Word(p, 30), Word(p, 32), Word(q, 24), Word(q, 30), Word(q, 32));
  }

  /** The update keeps a valid header valid and an invalid one invalid, and a field that was as section 3.1 of
      RFC 791 computes it is so again, for the new address. */
  lemma ReaddressedValid(p: seq<u8>, q: seq<u8>, words: nat)
    requires HasHeader(p, words) && |q| == |p| && Readdressed(p, q, words) && RestSum(p, words) > 0
    ensures HeaderValid(q, words) <==> HeaderValid(p, words)
    ensures Word(p, 24) == HeaderChecksum(p, words) ==> Word(q, 24) == HeaderChecksum(q, words)
  {
    hide HeaderSum, RestSum, Readdressed, Word, HeaderChecksum, HeaderValid;
    HeaderSumParts(p, words);
    HeaderSumParts(q, words);
    RestSame(p, q, words);
    SumKept(p, q, words);
    ValidByMod(p, words);
    ValidByMod(q, words);
    ChecksumIffValid(p, words);
    ChecksumIffValid(q, words);
  }

  /** A header whose protocol byte is set has something besides its checksum and destination. */
  lemma ProtocolCounts(p: seq<u8>, words: nat)
    requires HasHeader(p, words) && p[23] > 0
    ensures RestSum(p, words) > 0
  {
    WordSumSplit(p, ETH_LEN, 5, 4);
    assert WordSum(p, 22, 1) == Word(p, 22) + WordSum(p, 24, 0);
  }

  // ---------- the helpers that write to a packet ----------

  function StoredWord(p: seq<u8>, i: nat, v: u16): (q: seq<u8>)
    requires i + 2 <= |p|
    ensures |q| == |p| && Word(q, i) == v
    ensures forall k :: 0 <= k < |p| && k != i && k != i + 1 ==> q[k] == p[k]
  {
    p[i := v / 0x100][i + 1 := v % 0x100]
  }

  function StoredLong(p: seq<u8>, i: nat, v: u32): (q: seq<u8>)
    requires i + 4 <= |p|
    ensures |q| == |p| && Long(q, i) == v
    ensures forall k :: 0 <= k < |p| && !(i <= k < i + 4) ==> q[k] == p[k]
  {
    var q := StoredWord(StoredWord(p, i, v / 0x1_0000), i + 2, v % 0x1_0000);
    assert Word(q, i) == v / 0x1_0000;
    q
  }

  /** bpf_skb_store_bytes with two bytes */
  method StoreWord(skb: array<u8>, i: nat, v: u16)
    requires i + 2 <= skb.Length
    modifies skb
    ensures skb[..] == StoredWord(old(skb[..]), i, v)
  {
    skb[i] := v / 0x100;
    skb[i + 1] := v % 0x100;
  }

  /** bpf_skb_store_bytes with four bytes */
  method StoreLong(skb: array<u8>, i: nat, v: u32)
    requires i + 4 <= skb.Length
    modifies skb
    ensures skb[..] == StoredLong(old(skb[..]), i, v)
  {
    StoreWord(skb, i, v / 0x1_0000);
    StoreWord(skb, i + 2, v % 0x1_0000);
  }

  /** A packet with a new destination address and the checksum updated for it. */
  function Redirected(p: seq<u8>, from: u32, to: u32): (q: seq<u8>)
    requires 34 <= |p|
    ensures |q| == |p| && Long(q, IP_DADDR_OFF) == to
    ensures forall k :: 0 <= k < |p| && k != 24 && k != 25 && !(30 <= k < 34) ==> q[k] == p[k]
    ensures Word(q, IP_CHECK_OFF) == Replaced(Word(p, IP_CHECK_OFF), from, to)
  {
    hide Replaced;
    StoredLong(StoredWord(p, IP_CHECK_OFF, Replaced(Word(p, IP_CHECK_OFF), from, to)), IP_DADDR_OFF, to)
  }

  /** bpf_l3_csum_replace for a four-byte field, then the store of the destination address. */
  method Redirect(skb: array<u8>, from: u32, to: u32)
    requires 34 <= skb.Length
    modifies skb
    ensures skb[..] == Redirected(old(skb[..]), from, to)
  {
    hide Replaced;
    var check := Word(skb[..], IP_CHECK_OFF);
    StoreWord(skb, IP_CHECK_OFF, Replaced(check, from, to));
    StoreLong(skb, IP_DADDR_OFF, to);
  }

  /** When `from` really is the packet's destination, the redirected packet's header is as valid as before. */
  lemma RedirectedValid(p: seq<u8>, to: u32, words: nat)
    requires HasHeader(p, words) && p[23] > 0
    ensures var q := Redirected(p, Long(p, IP_DADDR_OFF), to);
            && (HeaderValid(q, words) <==> HeaderValid(p, words))
            && (Word(p, 24) == HeaderChecksum(p, words) ==> Word(q, 24) == HeaderChecksum(q, words))
  {
    hide RestSum, HeaderValid, HeaderChecksum, Replaced;
    ProtocolCounts(p, words);
    ReaddressedValid(p, Redirected(p, Long(p, IP_DADDR_OFF), to), words);
  }
}
