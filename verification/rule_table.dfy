/** The rules the scheduler writes to the kernel, one per numeric task ID
    (internal/scheduler/core.go:286-301, 701-722). */
module RuleTable {
  import opened Api
  import opened Graphs

  const U32_LIMIT: nat := 0x1_0000_0000

  /** What strings.Split(id, ":")[1] is, or the whole ID if it has no colon. */
  function TaskPart(id: Id): string {
    var d := |ExtractDAGID(id)|;
    if d == |id| then id else ExtractDAGID(id[d + 1..])
  }

  predicate IsDigit(c: char) {
    '0' <= c <= '9'
  }

  function Digits(s: string): (r: string)
    ensures forall c :: c in r ==> IsDigit(c)
  {
    if s == "" then "" else (if IsDigit(s[0]) then [s[0]] else "") + Digits(s[1..])
  }

  function Decimal(ds: string): nat
    requires forall c :: c in ds ==> IsDigit(c)
  {
    if ds == "" then 0 else
    assert IsDigit(ds[|ds| - 1]);
    Decimal(ds[..|ds| - 1]) * 10 + (ds[|ds| - 1] as int - '0' as int)
  }

  /** The number strconv.ParseUint finds among the digits of s, or 0 if that is no 32-bit number. */
  function NumberIn(s: string): (r: nat)
    ensures r < U32_LIMIT
  {
    var ds := Digits(s);
    if ds == "" || Decimal(ds) >= U32_LIMIT then 0 else Decimal(ds)
  }

  /** The key of a task's rule. */
  function ParseNumericTaskID(id: Id): (r: nat)
    ensures r < U32_LIMIT
  {
    NumberIn(TaskPart(id))
  }

  /** The key depends on the task's own part of the ID only: DAGs that name tasks alike share their keys. */
  lemma KeyIgnoresDag(dagID: Id, taskID: Id)
    requires ':' !in dagID && ':' !in taskID
    ensures ParseNumericTaskID(GlobalID(dagID, taskID)) == NumberIn(taskID)
  {
    DagIDRoundTrip(dagID, taskID);
    assert GlobalID(dagID, taskID)[|dagID| + 1..] == taskID;
    assert ExtractDAGID(taskID) == taskID;
  }

  /** The reference count of a task's rule: its number of successor edges, as a 32-bit number. */
  function RefCount(g: Graph, t: Id): nat {
    (if t in g then |g[t]| else 0) % U32_LIMIT
  }

  type Rules = map<nat, nat>

  /** The table after the tasks ts have been dispatched in this order. */
  function Written(table: Rules, ts: seq<Id>, g: Graph): Rules {
    if ts == [] then table else
    var n := |ts| - 1;
    Written(table, ts[..n], g)[ParseNumericTaskID(ts[n]) := RefCount(g, ts[n])]
  }

  lemma NothingWritten(table: Rules, g: Graph)
    ensures Written(table, [], g) == table
  {
  }

  lemma WrittenOneMore(table: Rules, ts: seq<Id>, g: Graph, t: Id)
    ensures Written(table, ts + [t], g) == Written(table, ts, g)[ParseNumericTaskID(t) := RefCount(g, t)]
  {
    hide ParseNumericTaskID, RefCount;
    assert (ts + [t])[..|ts|] == ts;
  }

  lemma {:induction false} WrittenInTwo(table: Rules, a: seq<Id>, b: seq<Id>, g: Graph)
    ensures Written(table, a + b, g) == Written(Written(table, a, g), b, g)
    decreases |b|
  {
    hide ParseNumericTaskID, RefCount;
    if b == [] {
      assert a + b == a;
    } else {
      var n := |b| - 1;
      WrittenInTwo(table, a, b[..n], g);
      assert (a + b)[..|a + b| - 1] == a + b[..n];
    }
  }

  /** Registering more tasks changes no rule already written. */
  lemma {:induction false} WrittenBefore(table: Rules, ts: seq<Id>, g: Graph, g': Graph)
    requires forall t :: t in ts ==> t in g && t in g' && g[t] == g'[t]
    ensures Written(table, ts, g) == Written(table, ts, g')
  {
    hide ParseNumericTaskID;
    if ts != [] { WrittenBefore(table, ts[..|ts| - 1], g, g'); }
  }

  /** Key n holds the reference count of the task numbered n that was dispatched last. */
  lemma {:induction false} LastWriteHolds(table: Rules, ts: seq<Id>, g: Graph, k: nat)
    requires k < |ts| && forall j :: k < j < |ts| ==> ParseNumericTaskID(ts[j]) != ParseNumericTaskID(ts[k])
    ensures ParseNumericTaskID(ts[k]) in Written(table, ts, g)
    ensures Written(table, ts, g)[ParseNumericTaskID(ts[k])] == RefCount(g, ts[k])
    decreases |ts|
  {
    hide ParseNumericTaskID, RefCount;
    if k < |ts| - 1 { LastWriteHolds(table, ts[..|ts| - 1], g, k); }
  }

  /** Each task's key holds that task's own reference count. */
  ghost predicate AllRight(table: Rules, ts: seq<Id>, g: Graph) {
    forall k :: 0 <= k < |ts| ==>
      ParseNumericTaskID(ts[k]) in table && table[ParseNumericTaskID(ts[k])] == RefCount(g, ts[k])
  }

  /** Tasks with the same number have equally many successors. */
  ghost predicate Compatible(ts: seq<Id>, g: Graph) {
    forall i, j :: 0 <= i < j < |ts| && ParseNumericTaskID(ts[i]) == ParseNumericTaskID(ts[j]) ==>
                     RefCount(g, ts[i]) == RefCount(g, ts[j])
  }

  lemma {:induction false} LastWithNumber(ts: seq<Id>, k: nat) returns (l: nat)
    requires k < |ts|
    ensures k <= l < |ts| && ParseNumericTaskID(ts[l]) == ParseNumericTaskID(ts[k])
    ensures forall j :: l < j < |ts| ==> ParseNumericTaskID(ts[j]) != ParseNumericTaskID(ts[k])
    decreases |ts| - k
  {
    hide ParseNumericTaskID;
    if m :| k < m < |ts| && ParseNumericTaskID(ts[m]) == ParseNumericTaskID(ts[k]) {
      l := LastWithNumber(ts, m);
    } else {
      l := k;
    }
  }

  /** The rules of all dispatched tasks are right exactly when tasks that share a number have equally many
      successors. */
  lemma RulesRightIff(table: Rules, ts: seq<Id>, g: Graph)
    ensures AllRight(Written(table, ts, g), ts, g) <==> Compatible(ts, g)
  {
    hide ParseNumericTaskID, RefCount, Written;
    forall k | 0 <= k < |ts|
      ensures exists l :: k <= l < |ts| && ParseNumericTaskID(ts[l]) == ParseNumericTaskID(ts[k]) &&
                          ParseNumericTaskID(ts[k]) in Written(table, ts, g) &&
                          Written(table, ts, g)[ParseNumericTaskID(ts[k])] == RefCount(g, ts[l])
    {
      var l := LastWithNumber(ts, k);
      LastWriteHolds(table, ts, g, l);
    }
  }

  lemma DigitsOfTaskZero()
    ensures NumberIn("task-0") == 0 && Digits("task-0") == "0"
  {
    assert Digits("0") == "0" && Digits("-0") == "0" by { assert "-0"[1..] == "0" && "0"[1..] == ""; }
    assert "k-0"[1..] == "-0" && "sk-0"[1..] == "k-0";
    assert Digits("k-0") == "0" && Digits("sk-0") == "0";
    assert "ask-0"[1..] == "sk-0" && "task-0"[1..] == "ask-0";
    assert Digits("ask-0") == "0";
    assert Decimal("0") == 0 by { assert "0"[..0] == ""; }
  }

  /** One output for two consumers. */
  ghost function FirstDag(): Graph {
    map["d1:task-0" := [Dependency("d1:task-1", 0), Dependency("d1:task-2", 0)], "d1:task-1" := [], "d1:task-2" := []]
  }

  /** A task without consumers. */
  ghost function SecondDag(): Graph {
    map["d2:task-0" := []]
  }

  ghost function TwoDags(): Graph {
    FirstDag() + SecondDag()
  }

  lemma BothZero()
    ensures ParseNumericTaskID("d1:task-0") == ParseNumericTaskID("d2:task-0") == 0
  {
    hide ParseNumericTaskID, NumberIn, GlobalID, Digits;
    DigitsOfTaskZero();
    Spelled();
    KeyIgnoresDag("d1", "task-0");
    KeyIgnoresDag("d2", "task-0");
  }

  lemma Spelled()
    ensures GlobalID("d1", "task-0") == "d1:task-0" && GlobalID("d2", "task-0") == "d2:task-0"
  {
  }

  /** Two tasks with one key: the second dispatch decides. */
  lemma SecondOverwrites(table: Rules, t: Id, u: Id, g: Graph)
    requires ParseNumericTaskID(t) == ParseNumericTaskID(u)
    ensures Written(table, [t, u], g) == table[ParseNumericTaskID(u) := RefCount(g, u)]
  {
    hide ParseNumericTaskID, RefCount;
    WrittenOneMore(table, [], g, t);
    WrittenOneMore(table, [t], g, u);
    assert [] + [t] == [t] && [t] + [u] == [t, u];
  }

  /** Dispatching the second DAG's task overwrites the rule of the first's, which is left with no consumers. */
  lemma RuleOverwritten()
    ensures RefCount(TwoDags(), "d1:task-0") == 2
    ensures Written(map[], ["d1:task-0", "d2:task-0"], TwoDags()) == map[0 := 0]
  {
    hide ParseNumericTaskID, Written;
    BothZero();
    SecondOverwrites(map[], "d1:task-0", "d2:task-0", TwoDags());
  }

  lemma {:induction false} NoDigits(s: string)
    requires forall c :: c in s ==> !IsDigit(c)
    ensures Digits(s) == "" && NumberIn(s) == 0
  {
    if s != "" { NoDigits(s[1..]); }
  }

  /** Even inside one DAG all tasks without a digit in their names share key 0. */
  lemma NamelessShareZero(dagID: Id, t: Id, u: Id)
    requires ':' !in dagID && ':' !in t && ':' !in u && forall c :: c in t + u ==> !IsDigit(c)
    ensures ParseNumericTaskID(GlobalID(dagID, t)) == ParseNumericTaskID(GlobalID(dagID, u)) == 0
  {
    KeyIgnoresDag(dagID, t);
    KeyIgnoresDag(dagID, u);
    NoDigits(t);
    NoDigits(u);
  }
}
