/** Which number a task's rule is kept under (internal/scheduler/core.go:287-292, 701-722). */
module TaskNumbers {
  import opened Api
  import opened Graphs
  import opened RuleTable

  // ---------- the part of the ID that is read ----------

  lemma {:induction false} PartBeforeColon(p: string, rest: string)
    requires ':' !in p
    ensures ExtractDAGID(p) == p && ExtractDAGID(p + ":" + rest) == p
  {
    if p == "" {
      assert "" + ":" + rest == ":" + rest;
    } else {
      PartBeforeColon(p[1..], rest);
      assert (p + ":" + rest)[1..] == p[1..] + ":" + rest;
      assert p == [p[0]] + p[1..];
    }
  }

  /** strings.Split: without a colon the whole ID is read, otherwise what is between the first two colons, or after the
      only one. */
  lemma PartRead(p: string, q: string, rest: string)
    requires ':' !in p && ':' !in q
    ensures TaskPart(p) == p && TaskPart(p + ":" + q) == q && TaskPart(p + ":" + q + ":" + rest) == q
  {
    PartBeforeColon(p, q);
    PartBeforeColon(p, q + ":" + rest);
    PartBeforeColon(q, rest);
    assert p + ":" + (q + ":" + rest) == p + ":" + q + ":" + rest;
    assert (p + ":" + q)[|p| + 1..] == q;
    assert (p + ":" + q + ":" + rest)[|p| + 1..] == q + ":" + rest;
  }

  // ---------- the number that is read ----------

  const NUMERALS: string := "0123456789"

  /** n in decimal, without leading zeros. */
  function Printed(n: nat): string {
    if n < 10 then [NUMERALS[n]] else Printed(n / 10) + [NUMERALS[n % 10]]
  }

  /** s is the digits ds, with other characters anywhere in between. */
  predicate Spells(s: string, ds: string) {
    if s == "" then ds == ""
    else if s[0] in NUMERALS then ds != "" && ds[0] == s[0] && Spells(s[1..], ds[1..])
    else Spells(s[1..], ds)
  }

  lemma Numeral(c: char)
    ensures IsDigit(c) <==> c in NUMERALS
    ensures forall d :: 0 <= d < 10 ==> IsDigit(NUMERALS[d]) && NUMERALS[d] as int - '0' as int == d
  {
    assert forall d :: 0 <= d < 10 ==> NUMERALS[d] as int - '0' as int == d;
    if IsDigit(c) { assert NUMERALS[c as int - '0' as int] == c; }
  }

  /** Reading keeps the digits and drops the rest. */
  lemma {:induction false} SpelledDigits(s: string, ds: string)
    requires Spells(s, ds)
    ensures Digits(s) == ds
  {
    if s != "" {
      Numeral(s[0]);
      if s[0] in NUMERALS {
        SpelledDigits(s[1..], ds[1..]);
        assert ds == [ds[0]] + ds[1..];
      } else {
        SpelledDigits(s[1..], ds);
      }
    }
  }

  lemma {:induction false} PrintedDigits(n: nat)
    ensures Printed(n) != "" && forall c :: c in Printed(n) ==> IsDigit(c)
  {
    Numeral('0');
    if n >= 10 { PrintedDigits(n / 10); }
  }

  /** Printing, then reading, gives the number back. */
  lemma {:induction false} ReadPrinted(n: nat)
    ensures forall c :: c in Printed(n) ==> IsDigit(c)
    ensures Decimal(Printed(n)) == n
  {
    PrintedDigits(n);
    Numeral('0');
    if n < 10 {
      assert Printed(n)[..0] == "" && |Printed(n)| == 1;
    } else {
      ReadPrinted(n / 10);
      var ds := Printed(n);
      assert ds[..|ds| - 1] == Printed(n / 10) && ds[|ds| - 1] == NUMERALS[n % 10];
    }
  }

  /** A name that spells a number has that number, if it fits into 32 bits, and 0 otherwise. */
  lemma NameNumber(name: string, n: nat)
    requires Spells(name, Printed(n))
    ensures NumberIn(name) == if n < 0x1_0000_0000 then n else 0
  {
    hide Digits, Decimal, Printed, Spells;
    SpelledDigits(name, Printed(n));
    PrintedDigits(n);
    ReadPrinted(n);
  }

  /** So task "d:name" has key n when its name spells n, whatever else its ID says. */
  lemma TaskNumber(d: Id, name: Id, n: nat)
    requires ':' !in d && ':' !in name && Spells(name, Printed(n))
    ensures ParseNumericTaskID(GlobalID(d, name)) == if n < 0x1_0000_0000 then n else 0
  {
    hide NumberIn, Spells, Printed, TaskPart;
    PartRead(d, name, "");
    NameNumber(name, n);
  }

  /** Tasks with different 32-bit numbers never share a rule. */
  lemma OwnRules(table: Rules, g: Graph, d: Id, name: Id, n: nat, d': Id, name': Id, n': nat)
    requires ':' !in d && ':' !in name && Spells(name, Printed(n)) && n < 0x1_0000_0000
    requires ':' !in d' && ':' !in name' && Spells(name', Printed(n')) && n' < 0x1_0000_0000 && n != n'
    ensures var rules := Written(table, [GlobalID(d, name), GlobalID(d', name')], g);
            n in rules && n' in rules
            && rules[n] == RefCount(g, GlobalID(d, name)) && rules[n'] == RefCount(g, GlobalID(d', name'))
  {
    hide ParseNumericTaskID, RefCount, Spells, Printed, GlobalID, Written;
    TaskNumber(d, name, n);
    TaskNumber(d', name', n');
    var ts := [GlobalID(d, name), GlobalID(d', name')];
    LastWriteHolds(table, ts, g, 0);
    LastWriteHolds(table, ts, g, 1);
  }

  /** A rule's count is the number of the task's successor edges, as long as it fits into 32 bits. */
  lemma CountsSuccessors(table: Rules, ts: seq<Id>, t: Id, g: Graph)
    requires t in g && |g[t]| < 0x1_0000_0000
    ensures ParseNumericTaskID(t) in Written(table, ts + [t], g)
    ensures Written(table, ts + [t], g)[ParseNumericTaskID(t)] == |g[t]|
  {
    hide ParseNumericTaskID, Written;
    WrittenOneMore(table, ts, g, t);
  }
}
