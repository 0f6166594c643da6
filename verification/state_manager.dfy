/** Task, DAG and worker states (internal/state/manager.go). */
module StateManager {
  import opened Api

  /** The transition table: which new states a task may move to. */
  predicate Allowed(current: TaskState, next: TaskState) {
    match current
    case Waiting => next == Ready || next == Failed
    case Ready => next == Running || next == Failed
    case Running => next == Completed || next == Failed
    case Failed => next == Ready
    case Completed => false
  }

  /** May the task be moved to `next`?  The first state of a task is not checked. */
  predicate Legal(states: map<Id, TaskState>, taskID: Id, next: TaskState) {
    taskID in states ==> Allowed(states[taskID], next)
  }

  /** The table after an attempted update: an illegal one is refused and changes nothing. */
  function Moved(states: map<Id, TaskState>, taskID: Id, next: TaskState): map<Id, TaskState> {
    if Legal(states, taskID, next) then states[taskID := next] else states
  }

  /** Each state can be left for the next one. */
  ghost predicate Moves(states: seq<TaskState>) {
    forall i :: 0 < i < |states| ==> Allowed(states[i - 1], states[i])
  }

  /** A task that has completed was READY, then RUNNING, then COMPLETED, and moves no more. */
  lemma CompletedLast(states: seq<TaskState>, i: nat)
    requires Moves(states) && i < |states| && states[i] == Completed
    ensures i == |states| - 1
    ensures i >= 1 ==> states[i - 1] == Running
    ensures i >= 2 ==> states[i - 2] == Ready
  {
    assert i + 1 < |states| ==> Allowed(states[i], states[i + 1]);
    assert i >= 1 ==> Allowed(states[i - 1], states[i]);
    assert i >= 2 ==> Allowed(states[i - 2], states[i - 1]);
  }

  /** A task can fail from any state but the final ones, starts over only from FAILED, and never waits again. */
  lemma FailureAndRetry(s: TaskState)
    ensures Allowed(s, Failed) <==> s != Failed && s != Completed
    ensures Allowed(s, Ready) <==> s == Waiting || s == Failed
    ensures !Allowed(s, Waiting) && !Allowed(s, s)
  {
  }

  class Manager {
    var taskStates: map<Id, TaskState>
    var dagStates: map<Id, DagState>
    var workerStates: map<Id, WorkerState>

    constructor ()
      ensures taskStates == map[] && dagStates == map[] && workerStates == map[]
    {
      taskStates, dagStates, workerStates := map[], map[], map[];
    }

    method UpdateTaskState(taskID: Id, newState: TaskState) returns (ok: bool)
      modifies this`taskStates
      ensures ok == Legal(old(taskStates), taskID, newState)
      ensures taskStates == Moved(old(taskStates), taskID, newState)
    {
      if taskID !in taskStates {
        taskStates := taskStates[taskID := newState];
        return true;
      }
      match taskStates[taskID] {
        case Waiting => if newState != Ready && newState != Failed { return false; }
        case Ready => if newState != Running && newState != Failed { return false; }
        case Running => if newState != Completed && newState != Failed { return false; }
        case Failed => if newState != Ready { return false; }
        case Completed => return false;
      }
      taskStates := taskStates[taskID := newState];
      return true;
    }

    method UpdateDAGState(dagID: Id, state: DagState)
      modifies this`dagStates
      ensures dagStates == old(dagStates)[dagID := state]
    {
      dagStates := dagStates[dagID := state];
    }

    method UpdateWorkerState(workerID: Id, state: WorkerState) returns (ok: bool)
      modifies this`workerStates
      ensures ok == !state.Other?
      ensures workerStates == if ok then old(workerStates)[workerID := state] else old(workerStates)
    {
      if state != Idle && state != Busy { return false; }
      workerStates := workerStates[workerID := state];
      return true;
    }
  }
}
