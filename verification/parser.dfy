/** Admission of a DAG (internal/parser/parser.go), from the decoded payload on. */
module Parser {
  import opened Api
  import opened Graphs
  import CycleDetection

  datatype IngestedTask = IngestedTask(taskID: string, baseComputation: int, successors: seq<Dependency>)

  datatype IngestedDAG = IngestedDAG(dagID: string, arrivalTime: int, tasks: seq<IngestedTask>)

  datatype ParseError =
    | MissingDagID
    | NoTasks
    | MissingTaskID
    | DuplicateTask(id: string)
    | BadComputation(id: string)
    | MissingTarget
    | NegativeDataSize(target: string)
    | UnknownSuccessor
    | CycleDetected

  datatype Result<T> = Ok(value: T) | Err(error: ParseError)

  // ---------- what the payload says ----------

  /** A successor list with its targets turned into global IDs. */
  function Normalised(dagID: string, ds: seq<Dependency>): (r: seq<Dependency>)
    ensures |r| == |ds|
    ensures forall k :: 0 <= k < |ds| ==> r[k] == Dependency(GlobalID(dagID, ds[k].targetTaskID), ds[k].dataSize)
  {
    seq(|ds|, k requires 0 <= k < |ds| => Dependency(GlobalID(dagID, ds[k].targetTaskID), ds[k].dataSize))
  }

  ghost function Key(raw: IngestedDAG, i: nat): Id
    requires i < |raw.tasks|
  {
    GlobalID(raw.dagID, raw.tasks[i].taskID)
  }

  /** The graph spelled out by the first n tasks of the payload. */
  ghost function Topology(raw: IngestedDAG, n: nat): Graph
    requires n <= |raw.tasks|
  {
    if n == 0 then map[]
    else Topology(raw, n - 1)[Key(raw, n - 1) := Normalised(raw.dagID, raw.tasks[n - 1].successors)]
  }

  // ---------- field checks ----------

  function SuccessorError(ds: seq<Dependency>): (r: Option<ParseError>)
    ensures r == None <==> forall k :: 0 <= k < |ds| ==> ds[k].targetTaskID != "" && ds[k].dataSize >= 0
  {
    if ds == [] then None
    else if ds[0].targetTaskID == "" then Some(MissingTarget)
    else if ds[0].dataSize < 0 then Some(NegativeDataSize(ds[0].targetTaskID))
    else
      assert forall k :: 0 < k < |ds| ==> ds[k] == ds[1..][k - 1];
      SuccessorError(ds[1..])
  }

  /** The first complaint about task i, in the order the code checks. */
  ghost function TaskError(raw: IngestedDAG, i: nat): Option<ParseError>
    requires i < |raw.tasks|
  {
    var t := raw.tasks[i];
    if t.taskID == "" then Some(MissingTaskID)
    else if Key(raw, i) in Topology(raw, i) then Some(DuplicateTask(t.taskID))
    else if t.baseComputation <= 0 then Some(BadComputation(t.taskID))
    else SuccessorError(t.successors)
  }

  /** The first complaint about any of the first n tasks. */
  ghost function FirstError(raw: IngestedDAG, n: nat): Option<ParseError>
    requires n <= |raw.tasks|
  {
    if n == 0 then None
    else if FirstError(raw, n - 1).Some? then FirstError(raw, n - 1)
    else TaskError(raw, n - 1)
  }

  ghost predicate FieldsValid(t: IngestedTask) {
    && t.taskID != "" && t.baseComputation > 0
    && forall k :: 0 <= k < |t.successors| ==> t.successors[k].targetTaskID != "" && t.successors[k].dataSize >= 0
  }

  /** The payload passes the field checks exactly when every field is valid and the task IDs are distinct. */
  lemma {:induction false} FirstErrorMeaning(raw: IngestedDAG, n: nat)
    requires n <= |raw.tasks|
    ensures FirstError(raw, n) == None <==>
            && (forall i :: 0 <= i < n ==> FieldsValid(raw.tasks[i]))
            && (forall i, j :: 0 <= i < j < n ==> raw.tasks[i].taskID != raw.tasks[j].taskID)
  {
    if n > 0 {
      FirstErrorMeaning(raw, n - 1);
      TopologyKeys(raw, n - 1);
      forall i | 0 <= i < n - 1
        ensures Key(raw, i) == Key(raw, n - 1) <==> raw.tasks[i].taskID == raw.tasks[n - 1].taskID
      {
        assert Key(raw, i)[|raw.dagID| + 1..] == raw.tasks[i].taskID;
      }
    }
  }

  lemma {:induction false} TopologyKeys(raw: IngestedDAG, n: nat)
    requires n <= |raw.tasks|
    ensures forall t :: t in Topology(raw, n) <==> exists i :: 0 <= i < n && Key(raw, i) == t
  {
    if n > 0 { TopologyKeys(raw, n - 1); }
  }

  // ---------- the nodes built for a graph ----------

  /** Each task of g has one node, carrying its ID and its edges. */
  ghost predicate NodesOf(tasks: map<Id, TaskNode>, g: Graph) {
    && tasks.Keys == g.Keys
    && forall t :: t in g ==> tasks[t].id == t && tasks[t].successors == g[t]
  }

  lemma NodesGraph(tasks: map<Id, TaskNode>, g: Graph)
    requires NodesOf(tasks, g)
    ensures GraphOf(tasks) == g
  {
  }

  ghost predicate Unlinked(tasks: map<Id, TaskNode>)
    reads tasks.Values
  {
    forall t :: t in tasks ==> tasks[t].predecessors == [] && tasks[t].remainingDependencies == 0
  }

  ghost predicate Unranked(tasks: map<Id, TaskNode>)
    reads tasks.Values
  {
    forall t :: t in tasks ==> tasks[t].staticRankU == tasks[t].staticRankD == 0.0
  }

  /** How many edges lead from u to t. */
  ghost function EdgeCount(g: Graph, u: Id, t: Id): nat {
    if u in g then Targets(g[u])[t] else 0
  }

  /** What the reverse edges look like at the end: one entry per incoming edge, and the counter is their number. */
  ghost predicate ReverseLinked(tasks: map<Id, TaskNode>)
    reads tasks.Values
  {
    forall t :: t in tasks ==>
      && tasks[t].remainingDependencies == |tasks[t].predecessors| == InDegree(GraphOf(tasks), t)
      && forall u :: multiset(tasks[t].predecessors)[u] == EdgeCount(GraphOf(tasks), u, t)
  }

  /** The reverse edges of task t once the sources in `done`, and the edges `ds` of source `id`, are processed. */
  ghost predicate NodeLinked(g: Graph, done: set<Id>, id: Id, ds: seq<Dependency>, t: Id, preds: seq<Id>, rem: int)
    requires done <= g.Keys
  {
    && rem == |preds| == InEdges(g, done)[t] + Targets(ds)[t]
    && forall u :: multiset(preds)[u] == if u in done then Targets(g[u])[t] else if u == id then Targets(ds)[t] else 0
  }

  ghost predicate LinkedSoFar(tasks: map<Id, TaskNode>, g: Graph, done: set<Id>, id: Id, ds: seq<Dependency>)
    requires done <= g.Keys
    reads tasks.Values
  {
    forall t :: t in tasks ==>
      NodeLinked(g, done, id, ds, t, tasks[t].predecessors, tasks[t].remainingDependencies)
  }

  lemma NodeLinkStep(g: Graph, done: set<Id>, id: Id, ds: seq<Dependency>, t: Id, preds: seq<Id>, rem: int,
                     d: Dependency)
    requires done <= g.Keys && id !in done && NodeLinked(g, done, id, ds, t, preds, rem)
    ensures d.targetTaskID != t ==> NodeLinked(g, done, id, ds + [d], t, preds, rem)
    ensures d.targetTaskID == t ==> NodeLinked(g, done, id, ds + [d], t, preds + [id], rem + 1)
  {
    TargetsSnoc(ds, d);
    assert multiset(preds + [id]) == multiset(preds) + multiset{id};
  }

  lemma NodeLinkStart(g: Graph, t: Id, preds: seq<Id>, rem: int)
    requires preds == [] && rem == 0
    ensures NodeLinked(g, {}, "", [], t, preds, rem)
  {
  }

  lemma NodeLinkAll(g: Graph, t: Id, preds: seq<Id>, rem: int)
    requires NodeLinked(g, g.Keys, "", [], t, preds, rem)
    ensures rem == |preds| == InDegree(g, t)
    ensures forall u :: multiset(preds)[u] == EdgeCount(g, u, t)
  {
  }

  /** Before the first edge of a source: nothing of it has been counted. */
  lemma NodeLinkOpen(g: Graph, done: set<Id>, id: Id, t: Id, preds: seq<Id>, rem: int)
    requires done <= g.Keys && NodeLinked(g, done, "", [], t, preds, rem)
    ensures NodeLinked(g, done, id, [], t, preds, rem)
  {
  }

  /** After its last edge the source is done. */
  lemma NodeLinkClose(g: Graph, done: set<Id>, id: Id, t: Id, preds: seq<Id>, rem: int)
    requires done <= g.Keys && id in g && id !in done && NodeLinked(g, done, id, g[id], t, preds, rem)
    ensures NodeLinked(g, done + {id}, "", [], t, preds, rem)
  {
    InEdgesRemove(g, done + {id}, id);
    assert done + {id} - {id} == done;
  }

  /** The body of the loop that adds reverse edges, for one edge. */
  method LinkEdge(tasks: map<Id, TaskNode>, ghost g: Graph, ghost done: set<Id>, id: Id, ghost ds: seq<Dependency>,
                  d: Dependency)
    requires NodesOf(tasks, g) && done <= g.Keys && id !in done && d.targetTaskID in tasks
    requires LinkedSoFar(tasks, g, done, id, ds)
    modifies tasks.Values`predecessors, tasks.Values`remainingDependencies
    ensures LinkedSoFar(tasks, g, done, id, ds + [d])
  {
    hide NodeLinked;
    forall t | t in tasks {
      NodeLinkStep(g, done, id, ds, t, tasks[t].predecessors, tasks[t].remainingDependencies, d);
    }
    var succNode := tasks[d.targetTaskID];
    succNode.predecessors := succNode.predecessors + [id];
    succNode.remainingDependencies := succNode.remainingDependencies + 1;
    assert forall t :: t in tasks && t != d.targetTaskID ==> tasks[t] != succNode;
  }

  /** The loop over the edges of one source. */
  method LinkSource(tasks: map<Id, TaskNode>, ghost g: Graph, ghost done: set<Id>, id: Id)
    requires NodesOf(tasks, g) && Closed(g) && done <= g.Keys && id in tasks && id !in done
    requires LinkedSoFar(tasks, g, done, "", [])
    modifies tasks.Values`predecessors, tasks.Values`remainingDependencies
    ensures LinkedSoFar(tasks, g, done + {id}, "", [])
  {
    hide NodeLinked;
    var succs := tasks[id].successors;
    forall t | t in tasks {
      NodeLinkOpen(g, done, id, t, tasks[t].predecessors, tasks[t].remainingDependencies);
    }
    assert succs[..0] == [];
    for i := 0 to |succs|
      invariant LinkedSoFar(tasks, g, done, id, succs[..i])
    {
      assert g[id][i].targetTaskID in g;
      LinkEdge(tasks, g, done, id, succs[..i], succs[i]);
      assert succs[..i + 1] == succs[..i] + [succs[i]];
    }
    assert succs[..|succs|] == g[id];
    forall t | t in tasks {
      NodeLinkClose(g, done, id, t, tasks[t].predecessors, tasks[t].remainingDependencies);
    }
  }

  method LinkPredecessors(tasks: map<Id, TaskNode>)
    requires NodesOf(tasks, GraphOf(tasks)) && Closed(GraphOf(tasks)) && Unlinked(tasks)
    modifies tasks.Values`predecessors, tasks.Values`remainingDependencies
    ensures ReverseLinked(tasks)
  {
    hide NodeLinked;
    ghost var g: Graph := GraphOf(tasks);
    forall t | t in tasks {
      NodeLinkStart(g, t, tasks[t].predecessors, tasks[t].remainingDependencies);
    }
    var todo := tasks.Keys;
    assert g.Keys - todo == {};
    while todo != {}
      invariant todo <= tasks.Keys && LinkedSoFar(tasks, g, g.Keys - todo, "", [])
    {
      var id :| id in todo;
      LinkSource(tasks, g, g.Keys - todo, id);
      assert g.Keys - todo + {id} == g.Keys - (todo - {id});
      todo := todo - {id};
    }
    assert g.Keys - todo == g.Keys;
    forall t | t in tasks {
      NodeLinkAll(g, t, tasks[t].predecessors, tasks[t].remainingDependencies);
    }
  }

  /** Are all successors among the tasks?  (Any order of tasks: it stops at the first one missing.) */
  method SuccessorsExist(tasks: map<Id, TaskNode>) returns (ok: bool)
    ensures ok <==> Closed(GraphOf(tasks))
  {
    ghost var g: Graph := GraphOf(tasks);
    var todo := tasks.Keys;
    while todo != {}
      invariant todo <= tasks.Keys
      invariant forall u, k :: u in g && u !in todo && 0 <= k < |g[u]| ==> g[u][k].targetTaskID in g
    {
      var id :| id in todo;
      var succs := tasks[id].successors;
      for i := 0 to |succs|
        invariant forall k :: 0 <= k < i ==> g[id][k].targetTaskID in g
      {
        if succs[i].targetTaskID !in tasks {
          assert id in g && g[id][i].targetTaskID !in g;
          return false;
        }
      }
      todo := todo - {id};
    }
    return true;
  }

  ghost predicate CostsOf(raw: IngestedDAG, n: nat, tasks: map<Id, TaskNode>)
    requires n <= |raw.tasks|
  {
    forall i :: 0 <= i < n ==>
                  Key(raw, i) in tasks && tasks[Key(raw, i)].baseComputation == raw.tasks[i].baseComputation
  }

  lemma NoNodes(raw: IngestedDAG)
    ensures NodesOf(map[], Topology(raw, 0)) && CostsOf(raw, 0, map[])
  {
  }

  lemma NodeAdded(raw: IngestedDAG, i: nat, tasks: map<Id, TaskNode>, node: TaskNode)
    requires i < |raw.tasks| && NodesOf(tasks, Topology(raw, i)) && CostsOf(raw, i, tasks)
    requires node.id == Key(raw, i) && node.id !in tasks
    requires node.successors == Normalised(raw.dagID, raw.tasks[i].successors)
    requires node.baseComputation == raw.tasks[i].baseComputation
    ensures NodesOf(tasks[node.id := node], Topology(raw, i + 1)) && CostsOf(raw, i + 1, tasks[node.id := node])
  {
  }

  /** The first pass: field checks and node construction. */
  method BuildNodes(raw: IngestedDAG) returns (tasks: map<Id, TaskNode>, error: Option<ParseError>)
    ensures error == FirstError(raw, |raw.tasks|)
    ensures error == None ==> NodesOf(tasks, Topology(raw, |raw.tasks|))
    ensures error == None ==> CostsOf(raw, |raw.tasks|, tasks)
    ensures fresh(tasks.Values) && Unlinked(tasks) && Unranked(tasks)
  {
    hide TaskError, GlobalID, Normalised, NodesOf, CostsOf;
    tasks := map[];
    NoNodes(raw);
    for i := 0 to |raw.tasks|
      invariant FirstError(raw, i) == None
      invariant NodesOf(tasks, Topology(raw, i))
      invariant CostsOf(raw, i, tasks)
      invariant fresh(tasks.Values) && Unlinked(tasks) && Unranked(tasks)
    {
      var task := raw.tasks[i];
      NodesGraph(tasks, Topology(raw, i));
      error := CheckTask(raw, i, tasks.Keys);
      if error.Some? {
        ErrorIsFinal(raw, i + 1, |raw.tasks|);
        return;
      }
      var globalID := GlobalID(raw.dagID, task.taskID);
      var node := new TaskNode(globalID, task.baseComputation, Normalised(raw.dagID, task.successors));
      NodeAdded(raw, i, tasks, node);
      ghost var before := tasks.Values;
      tasks := tasks[globalID := node];
      assert tasks.Values <= before + {node};
    }
    error := None;
  }

  method CheckTask(raw: IngestedDAG, i: nat, known: set<Id>) returns (error: Option<ParseError>)
    requires i < |raw.tasks| && known == Topology(raw, i).Keys
    ensures error == TaskError(raw, i)
    ensures error == None ==> Key(raw, i) !in known
  {
    var task := raw.tasks[i];
    if task.taskID == "" {
      error := Some(MissingTaskID);
    } else if GlobalID(raw.dagID, task.taskID) in known {
      error := Some(DuplicateTask(task.taskID));
    } else if task.baseComputation <= 0 {
      error := Some(BadComputation(task.taskID));
    } else {
      error := SuccessorError(task.successors);
    }
  }

  lemma {:induction false} ErrorIsFinal(raw: IngestedDAG, i: nat, n: nat)
    requires i <= n <= |raw.tasks| && FirstError(raw, i).Some?
    ensures FirstError(raw, n) == FirstError(raw, i)
  {
    if i < n { ErrorIsFinal(raw, i, n - 1); }
  }

  // ---------- the whole of Parse ----------

  /** Exactly the payloads that describe a DAG. */
  ghost predicate Accepts(raw: IngestedDAG) {
    && raw.dagID != "" && raw.tasks != []
    && (forall i :: 0 <= i < |raw.tasks| ==> FieldsValid(raw.tasks[i]))
    && (forall i, j :: 0 <= i < j < |raw.tasks| ==> raw.tasks[i].taskID != raw.tasks[j].taskID)
    && Closed(Topology(raw, |raw.tasks|)) && Acyclic(Topology(raw, |raw.tasks|))
  }

  /** The error a rejected payload gets: the checks run in this order. */
  ghost function ErrorFor(raw: IngestedDAG): ParseError
    requires !Accepts(raw)
  {
    if raw.dagID == "" then MissingDagID
    else if raw.tasks == [] then NoTasks
    else if FirstError(raw, |raw.tasks|).Some? then FirstError(raw, |raw.tasks|).value
    else if !Closed(Topology(raw, |raw.tasks|)) then UnknownSuccessor
    else CycleDetected
  }

  method Parse(raw: IngestedDAG) returns (r: Result<DAG>)
    ensures r.Ok? <==> Accepts(raw)
    ensures r.Err? ==> r.error == ErrorFor(raw)
    ensures r.Ok? ==> r.value.id == raw.dagID && r.value.arrivalTime == raw.arrivalTime
    ensures r.Ok? ==> NodesOf(r.value.tasks, Topology(raw, |raw.tasks|))
    ensures r.Ok? ==> ReverseLinked(r.value.tasks) && Unranked(r.value.tasks) && fresh(r.value.tasks.Values)
    ensures r.Ok? ==> CostsOf(raw, |raw.tasks|, r.value.tasks)
  {
    hide NodesOf, FirstError, Topology, Closed, Acyclic, ReverseLinked, CostsOf, FieldsValid, GraphOf;
    if raw.dagID == "" { return Err(MissingDagID); }
    if |raw.tasks| == 0 { return Err(NoTasks); }
    FirstErrorMeaning(raw, |raw.tasks|);
    var tasks, error := BuildNodes(raw);
    if error.Some? { return Err(error.value); }
    NodesGraph(tasks, Topology(raw, |raw.tasks|));
    var closed := SuccessorsExist(tasks);
    if !closed { return Err(UnknownSuccessor); }
    var detector := new CycleDetection.CycleDetector(tasks);
    var found := detector.Detect();
    if found { return Err(CycleDetected); }
    LinkPredecessors(tasks);
    var dag := new DAG(raw.dagID, raw.arrivalTime, tasks);
    return Ok(dag);
  }

  // ---------- which error a rejected payload gets ----------

  /** The tasks before the i-th have valid fields and different IDs. */
  ghost predicate GoodBefore(raw: IngestedDAG, i: nat) {
    && i < |raw.tasks| && (forall j :: 0 <= j < i ==> FieldsValid(raw.tasks[j]))
    && forall j, k :: 0 <= j < k < i ==> raw.tasks[j].taskID != raw.tasks[k].taskID
  }

  /** The i-th task has an ID, and one that no earlier task has. */
  ghost predicate NewID(raw: IngestedDAG, i: nat)
    requires i < |raw.tasks|
  {
    raw.tasks[i].taskID != "" && forall j :: 0 <= j < i ==> raw.tasks[j].taskID != raw.tasks[i].taskID
  }

  /** The k-th successor is the first one whose fields are not valid. */
  ghost predicate FirstBadSuccessor(ds: seq<Dependency>, k: nat) {
    && k < |ds| && (ds[k].targetTaskID == "" || ds[k].dataSize < 0)
    && forall j :: 0 <= j < k ==> ds[j].targetTaskID != "" && ds[j].dataSize >= 0
  }

  /** The i-th task is the first with a fault, and e names the fault. */
  ghost predicate Faulty(raw: IngestedDAG, i: nat, e: ParseError) {
    && GoodBefore(raw, i)
    && var t := raw.tasks[i];
       match e
       case MissingTaskID => t.taskID == ""
       case DuplicateTask(id) => id == t.taskID != "" && exists j :: 0 <= j < i && raw.tasks[j].taskID == id
       case BadComputation(id) => NewID(raw, i) && id == t.taskID && t.baseComputation <= 0
       case MissingTarget =>
         && NewID(raw, i) && t.baseComputation > 0
         && exists k: nat :: FirstBadSuccessor(t.successors, k) && t.successors[k].targetTaskID == ""
       case NegativeDataSize(target) =>
         && NewID(raw, i) && t.baseComputation > 0
         && exists k: nat :: FirstBadSuccessor(t.successors, k) && target == t.successors[k].targetTaskID != ""
       case _ => false
  }

  lemma {:induction false} FirstSuccessorError(ds: seq<Dependency>) returns (k: nat)
    requires SuccessorError(ds).Some?
    ensures FirstBadSuccessor(ds, k)
    ensures SuccessorError(ds).value ==
            if ds[k].targetTaskID == "" then MissingTarget else NegativeDataSize(ds[k].targetTaskID)
  {
    if ds[0].targetTaskID == "" || ds[0].dataSize < 0 {
      k := 0;
    } else {
      var n := FirstSuccessorError(ds[1..]);
      k := n + 1;
      forall j | 0 < j < k ensures ds[j].targetTaskID != "" && ds[j].dataSize >= 0 {
        assert ds[j] == ds[1..][j - 1];
      }
    }
  }

  /** An ID is known exactly when an earlier task has it. */
  lemma KeyKnown(raw: IngestedDAG, i: nat)
    requires i < |raw.tasks|
    ensures Key(raw, i) in Topology(raw, i) <==> exists j :: 0 <= j < i && raw.tasks[j].taskID == raw.tasks[i].taskID
  {
    TopologyKeys(raw, i);
    forall j | 0 <= j < i ensures Key(raw, j) == Key(raw, i) <==> raw.tasks[j].taskID == raw.tasks[i].taskID {
      assert Key(raw, j)[|raw.dagID| + 1..] == raw.tasks[j].taskID;
      assert Key(raw, i)[|raw.dagID| + 1..] == raw.tasks[i].taskID;
    }
  }

  lemma TaskFaulty(raw: IngestedDAG, i: nat)
    requires GoodBefore(raw, i) && TaskError(raw, i).Some?
    ensures Faulty(raw, i, TaskError(raw, i).value)
  {
    hide Topology, GlobalID, FieldsValid, SuccessorError;
    KeyKnown(raw, i);
    if NewID(raw, i) && raw.tasks[i].baseComputation > 0 {
      var k := FirstSuccessorError(raw.tasks[i].successors);
    }
  }

  lemma {:induction false} FirstFault(raw: IngestedDAG, n: nat) returns (i: nat)
    requires n <= |raw.tasks| && FirstError(raw, n).Some?
    ensures i < n && Faulty(raw, i, FirstError(raw, n).value)
  {
    hide Faulty, TaskError;
    if FirstError(raw, n - 1).Some? {
      i := FirstFault(raw, n - 1);
    } else {
      i := n - 1;
      FirstErrorMeaning(raw, i);
      TaskFaulty(raw, i);
    }
  }

  /** What each answer of Parse says about the payload: the first fault in the order of the checks, and within the
      tasks the first one of the first faulty task. */
  lemma WhyRejected(raw: IngestedDAG)
    requires !Accepts(raw)
    ensures match ErrorFor(raw)
            case MissingDagID => raw.dagID == ""
            case NoTasks => raw.dagID != "" && raw.tasks == []
            case UnknownSuccessor =>
              && raw.dagID != "" && raw.tasks != [] && FirstError(raw, |raw.tasks|) == None
              && !Closed(Topology(raw, |raw.tasks|))
            case CycleDetected =>
              && raw.dagID != "" && raw.tasks != [] && FirstError(raw, |raw.tasks|) == None
              && Closed(Topology(raw, |raw.tasks|)) && !Acyclic(Topology(raw, |raw.tasks|))
            case e => raw.dagID != "" && exists i :: Faulty(raw, i, e)
  {
    hide Closed, Acyclic, Topology, Faulty, FirstError;
    FirstErrorMeaning(raw, |raw.tasks|);
    if raw.dagID != "" && raw.tasks != [] && FirstError(raw, |raw.tasks|).Some? {
      var i := FirstFault(raw, |raw.tasks|);
      FaultKinds(raw, i, FirstError(raw, |raw.tasks|).value);
    }
  }

  lemma FaultKinds(raw: IngestedDAG, i: nat, e: ParseError)
    requires Faulty(raw, i, e)
    ensures !e.MissingDagID? && !e.NoTasks? && !e.UnknownSuccessor? && !e.CycleDetected?
  {
  }
}
