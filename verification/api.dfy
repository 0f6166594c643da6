/** The records shared by every component (pkg/api/schemas.go). */
module Api {

  type Id = string

  datatype Option<+T> = None | Some(value: T)

  datatype TaskState = Waiting | Ready | Running | Completed | Failed

  datatype DagState = DagActive | DagCompleted | DagFailed

  /** The two legal worker states, and any other text a caller might pass. */
  datatype WorkerState = Idle | Busy | Other(text: string)

  datatype Dependency = Dependency(targetTaskID: Id, dataSize: int)

  datatype Worker = Worker(id: Id, ip: string, computeMultiplier: real, networkBandwidth: real)

  /** A task inside a DAG.  The constant fields are written once, by the parser. */
  class TaskNode {
    const id: Id
    const baseComputation: int
    const successors: seq<Dependency>
    var predecessors: seq<Id>
    var assignedNodeIP: string
    var staticRankU: real
    var staticRankD: real
    var dynamicPriority: real
    var remainingDependencies: int
    var readyAt: real
    var queueIndex: int

    constructor (id: Id, baseComputation: int, successors: seq<Dependency>)
      ensures this.id == id && this.baseComputation == baseComputation && this.successors == successors
      ensures predecessors == [] && remainingDependencies == 0
      ensures staticRankU == staticRankD == dynamicPriority == 0.0
    {
      this.id, this.baseComputation, this.successors := id, baseComputation, successors;
      predecessors, remainingDependencies := [], 0;
      staticRankU, staticRankD, dynamicPriority := 0.0, 0.0, 0.0;
      assignedNodeIP, readyAt, queueIndex := "", 0.0, 0;
    }
  }

  class DAG {
    const id: Id
    const arrivalTime: int
    const tasks: map<Id, TaskNode>

    constructor (id: Id, arrivalTime: int, tasks: map<Id, TaskNode>)
      ensures this.id == id && this.arrivalTime == arrivalTime && this.tasks == tasks
    {
      this.id, this.arrivalTime, this.tasks := id, arrivalTime, tasks;
    }
  }

  /** What strings.Split(id, ":")[0] is: the text before the first colon, or all of it. */
  function ExtractDAGID(globalTaskID: Id): (r: Id)
    ensures r <= globalTaskID && ':' !in r
    ensures |r| < |globalTaskID| ==> globalTaskID[|r|] == ':'
  {
    if globalTaskID == "" || globalTaskID[0] == ':' then ""
    else [globalTaskID[0]] + ExtractDAGID(globalTaskID[1..])
  }

  /** fmt.Sprintf("%s:%s", dagID, taskID) */
  function GlobalID(dagID: Id, taskID: Id): (r: Id)
    ensures |r| == |dagID| + 1 + |taskID|
    ensures r[..|dagID|] == dagID && r[|dagID| + 1..] == taskID
  {
    dagID + ":" + taskID
  }

  /** A task's DAG can be read off its global ID exactly when the DAG's own ID has no colon. */
  lemma {:induction false} DagIDRoundTrip(dagID: Id, taskID: Id)
    ensures ExtractDAGID(GlobalID(dagID, taskID)) == dagID <==> ':' !in dagID
  {
    if dagID != "" {
      DagIDRoundTrip(dagID[1..], taskID);
      assert GlobalID(dagID, taskID)[1..] == GlobalID(dagID[1..], taskID);
      assert dagID == [dagID[0]] + dagID[1..];
    }
  }
}
