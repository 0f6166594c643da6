# A verified model of the DPLS scheduler and its in-kernel retention

The system offloads tasks whose dependencies form a directed acyclic graph. A
Go scheduler admits graphs, ranks their tasks, and hands ready tasks to idle
workers; eBPF programs retain a task's output in the kernel until all its
consumers have been served, or fan one packet out to all of them. This project
models the four cooperating pieces and proves what each promises the next.

1. **Admission.** `Parse` accepts exactly the payloads that describe a DAG. The
   three-colour search finds a cycle exactly when there is one, in any map
   iteration order; the reverse edges are the forward edges counted with
   multiplicity.
2. **Ranks and the ready queue.** The memoised upward rank is the longest path
   to an exit. The downward rank is computed in visiting order, not in
   topological order; it is the longest of the paths whose tasks the search
   visits in path order, and the true longest path exactly when one of those is
   visited in order. The critical set inherits exactly that condition for a DAG
   with one entry task; with several it lies on longest paths exactly when the
   entry met first starts one. The queue is a binary heap under
   `container/heap`'s up, down and init.
3. **The reactor.** Classes for the graph engine, the state manager, the queue
   and the scheduler run the source's statements. Each method's contract equates
   the scheduler's whole abstract state (`View`) with a function of the state
   before, and `ReactorLoop.React` shows that one turn of the reactor loop is a
   step of the transition system in `Runs`. `Execution.Execute` plays any script
   of submissions, completions and turns on these objects and returns the run it
   has followed. Invariants, safety, progress, exactly-once, termination, bounded
   overtaking and legality are proved over every run of that system, whose
   arriving DAGs carry the ranks and the volume term that Algorithm 1 gives them.
   The table of kernel rules is keyed as the code keys it, by the number in the
   task's own name.
4. **The kernel side.** Retention is modelled packet by packet, with rule
   rewrites and refused stores in between, and again with lookup, locked
   decrement and delete as separate steps of concurrent consumers. Fan-out and
   the destination rewrite work on packet bytes with the incremental IPv4
   header checksum (section 3.1 of RFC 791; Eqn. 3 in section 3 of RFC 1624).
   `Wire` follows a task's number from its name through the worker's payload to
   the hooks and the map entry they keep under it.

`fit_line`, the closed-form least squares behind the cost figures, is proved to
return the one best line.

## Reading order

`api`, `graphs`, `cycle_detector`, `parser` (admission); `longest_paths`,
`preorder`, `visited_paths`, `critical_set`, `algorithm_one`, `ranks`,
`path_costs`, `priority_queue` (ranks and queue); `state_manager`,
`graph_engine`, `reactor`, `reactor_invariant`, `rule_table`, `task_numbers`,
`scheduler`, `admission`, `runs`, `reactor_loop`, `execution` (the reactor);
`run_theorems`, `termination`, `histories`, `running_rules`, `dag_completion`,
`overtaking`, `ready_times`, `ranked_runs`, `legality` (theorems over runs);
`checksum`, `fanout`, `retention`, `concurrent_retention`, `wire` (the kernel
side); `least_squares`.

`dafny verify dfyconfig.toml` checks everything.

## Premises

- A DAG reaches the reactor as `Parse` leaves it (`Admission.ParsedIsFresh`
  shows that this is what the reactor needs). The hand-built DAGs of
  `main.go:87-105` leave `RemainingDependencies` at zero and use task IDs
  without a DAG prefix; they are outside the model.
- DAG IDs contain no colon. `Admission.AcceptedIsValid` shows that this is
  exactly when every task ID leads back to its DAG; task IDs are then disjoint
  across DAGs, which `GetTask` relies on when it scans all of them.
- All workers are registered as IDLE before the loop starts (`main.go:62-64`),
  their compute multipliers are positive, and only `executeWorker` posts
  completions, once per dispatch. Nothing in the repository posts a
  `WORKER_IDLE` event; `RunTheorems.WorkerIdleExact` says when one would do
  harm.
- The clock is a parameter that never goes back. A completion and a scheduling
  pass read it once, an arrival once for every task it stamps.
- Ranks and priorities are real numbers. Equality of ranks
  (`internal/scheduler/core.go:609`) is therefore a statement about exact
  arithmetic, not about floats.
- Packets lie whole in the linear part of the buffer, and the kernel's packet
  and map helpers succeed, except that storing into a full map fails.

## Where the code and its documentation differ

- `internal/ebpf/c/tc_bridge.c:73-75` and `:253-256` speak of retaining the
  task's output bytes. The code copies the first four payload bytes
  (`:271-274`), which are the task's own ID: `Bridges.OnlyTheIDIsRetained`,
  for any packets and rules, and `Bridges.Bridge.Ingress`, for the hook itself.
- The comment on the visited set (`internal/scheduler/core.go:540`) calls the
  downward order topological. It is a preorder:
  `CriticalSet.PreorderMissesCriticalTask` is a three-task DAG on which a
  longest path loses a task.
- The first interception of an output is described as a consumer's
  (`internal/ebpf/c/tc_bridge.c:260`). It does not count as one: a life cycle
  is one store and `ref_count` serves (`Retention.LifeCycles`).

## What can go wrong, and exactly when

- A rule's key is the number made of the digits in the task's own name
  (`internal/scheduler/core.go:701-722`), so a later dispatch may overwrite the
  rule of a task still running: `RunningRules.RunningRuleOverwritten` is such a
  run with two workers and two DAGs, and inside one DAG
  `RuleTable.NamelessShareZero` says which tasks share a key. Over a whole run
  every running task keeps its own rule exactly when running tasks that share a
  number always have equally many successors (`RunningRules.RunningRightIff`);
  with one worker it always does (`RunningRules.OneWorkerRight`).
  `RuleTable.RulesRightIff` is the condition for all tasks ever dispatched.
- The first exit task to complete marks its DAG COMPLETED, which the code itself
  calls a hack (`internal/scheduler/core.go:176-180`). In every run that
  completes an exit task of a DAG, the mark has come too early exactly when the
  DAG has several exit tasks (`DagCompletion.EarlyIffSeveralExits`).
- The critical set is compared with one entry task's rank, whichever the map
  iteration meets first (`internal/scheduler/core.go:594-600`).
  `AlgorithmOne.FirstEntryMisleads` is a DAG where it misses the longest path;
  it lies on longest paths in every order of iteration exactly when all entry
  tasks start equally long paths (`AlgorithmOne.CriticalIffEntriesAlike`).
- One consumer more than `ref_count` can miss the entry
  (`ConcurrentRetention.OneTooManyMisses`) or take the counter below zero
  (`ConcurrentRetention.OneTooManyUnderflows`;
  `internal/ebpf/c/tc_bridge.c:278-293`): every interleaving is safe exactly
  when no more come (`ConcurrentRetention.SafeIffEnough`).

## Model

| member | source | states |
|---|---|---|
| Api.ExtractDAGID | internal/scheduler/core.go:693-699 | the colon-free prefix of the ID that ends at its first colon, if it has one |
| Api.DagIDRoundTrip | internal/scheduler/core.go:693-699 | a global ID leads back to its DAG exactly when the DAG's ID has no colon |
| CycleDetection.CycleDetector.HasCycle | internal/parser/parser.go:101-119 | from a white task with a gray path behind it: a cycle is reported only if one exists; otherwise the task turns black, gray tasks are unchanged, black tasks stay black and white ones get fewer |
| CycleDetection.CycleDetector.Detect | internal/parser/parser.go:95-127 | a cycle is reported exactly when the graph has one, self-loops included, in any order of starting tasks |
| CycleDetection.Seal | internal/parser/parser.go:106-118 | a task all of whose successors are finished lies on no cycle |
| Graphs.AcyclicIffTopological | internal/parser/parser.go:95-127 | a closed graph is acyclic exactly when its tasks can be numbered so that every edge goes down |
| Graphs.UnionAcyclic | internal/graph/engine.go:24-34 | registering a DAG next to disjoint ones creates no cycle |
| Parser.FirstErrorMeaning | internal/parser/parser.go:47-84 | the field checks pass exactly when all fields are valid and all task IDs differ |
| Parser.BuildNodes | internal/parser/parser.go:47-84 | the first error in payload order, or one node per task with its ID, cost and normalised edges |
| Parser.SuccessorsExist | internal/parser/parser.go:86-93 | all successors exist exactly when the graph is closed |
| Parser.LinkPredecessors | internal/parser/parser.go:129-136 | afterwards each predecessor list holds every source as often as it has edges to the task, and the counter is the list's length and the in-degree |
| Parser.Parse | internal/parser/parser.go:26-139 | accepts exactly the payloads that describe a DAG, reports the first failed check otherwise, and returns the nodes linked both ways |
| Parser.WhyRejected | internal/parser/parser.go:32-127 | what each error answer says about the payload: missing ID, no tasks, the first fault of the first faulty task, a missing successor, or a cycle, in this order |
| Admission.AcceptedIsValid | internal/parser/parser.go:53-54 | an accepted payload is a DAG in the reactor's sense exactly when its DAG ID holds no colon |
| Admission.ParsedIsFresh | internal/parser/parser.go:129-138 | what Parse returns has the shape that ranking, counting and entry tests rely on |
| Admission.ParsedMayBeSubmitted | internal/parser/parser.go:129-138 | a parsed DAG whose ID has no colon, under workers of positive speed, is what the transition system lets a client submit |
| Admission.TracedToEntry | internal/parser/parser.go:95-127 | every task of an accepted DAG is reached from an entry task |
| Admission.SomeEntry | internal/parser/parser.go:36-38 | an accepted DAG has an entry task |
| Admission.DegreesMatch | internal/parser/parser.go:129-136 | the predecessor lists hold together as many entries as the successor lists |
| StateManager.Manager.UpdateTaskState | internal/state/manager.go:28-63 | the update is made exactly when the transition table allows it and refused without effect otherwise |
| StateManager.CompletedLast | internal/state/manager.go:36-57 | a task that completes was READY, then RUNNING, just before, and moves no more |
| StateManager.FailureAndRetry | internal/state/manager.go:36-57 | any state but the final ones can fail, READY is reached only from WAITING and FAILED, and no task waits again |
| StateManager.Manager.UpdateWorkerState | internal/state/manager.go:92-102 | only IDLE and BUSY are stored |
| GraphEngine.Engine.RegisterDAG | internal/graph/engine.go:24-34 | accepts a DAG exactly when its ID is new, whatever its tasks; afterwards they are the registered ones, over tasks with the same ID; the tables stay consistent when no task ID was taken |
| GraphEngine.Engine.GetTask | internal/graph/engine.go:37-48 | finds the task exactly when some registered DAG holds it, in any order of DAGs |
| GraphEngine.Engine.DecrementIndegree | internal/graph/engine.go:51-64 | takes one off the task's counter unless it is zero, changes no other counter, and reports the new value |
| GraphEngine.Engine.GetSuccessors | internal/graph/engine.go:67-80 | the task's edges in the union graph |
| PriorityQueues.PriorityQueue.Swap | internal/scheduler/queue.go:21-25 | the two nodes change places and know their new positions, whatever positions were recorded before; no other node's position changes |
| PriorityQueues.PriorityQueue.Init | internal/scheduler/core.go:651-652 | a heap again, from any priorities, with the same nodes and tracked positions |
| PriorityQueues.PriorityQueue.Push | internal/scheduler/queue.go:28-33 | one node more, still a heap, positions tracked |
| PriorityQueues.PriorityQueue.Pop | internal/scheduler/queue.go:36-44 | removes a node no queued node outranks, position -1; the rest is a heap with tracked positions |
| HeapOrder.TopIsMax | internal/scheduler/queue.go:16-18 | the top of a heap is a maximum |
| LongestPaths.UpIsLongest | internal/scheduler/core.go:500-531 | the plain recursion is the largest cost of a path from the task to an exit, and is attained |
| Ranks.ComputeUpwardRank | internal/scheduler/core.go:503-531 | returns and stores the recursion's value, whatever ranks are already memoised, zero ranks included |
| Ranks.ComputeUpwardRanks | internal/scheduler/core.go:574-577 | every task ends with the recursion's value, in any order of tasks |
| Preorder.SearchCovers | internal/scheduler/core.go:536-588 | the visit-once search reaches every task but the entries, each once |
| Preorder.FirstSuccessorNext | internal/scheduler/core.go:569-571 | depth first: right after a task comes its first successor not yet seen |
| LongestPaths.RankedWalk | internal/scheduler/core.go:538-572 | in every visiting order each downward rank is the cost of a real walk to the task |
| LongestPaths.RankedBound | internal/scheduler/core.go:533-588 | no downward rank exceeds the longest path from an entry, and upward plus downward rank never exceeds an entry's upward rank |
| VisitedPaths.RankedIsBestVisited | internal/scheduler/core.go:538-572 | in every visiting order the downward rank is the longest of the paths whose tasks are visited in path order |
| VisitedPaths.ExactIffLongestVisited | internal/scheduler/core.go:538-572 | the downward rank is the longest path from an entry exactly when some longest path is visited in path order |
| LongestPaths.RankedExact | internal/scheduler/core.go:533-588 | with predecessors visited first and no parallel edges it is always the longest path |
| Preorder.SinglePredecessorsFirst | internal/scheduler/core.go:569-571 | predecessors come first whenever no task has two |
| Ranks.DownwardRanker.ComputeDownwardRank | internal/scheduler/core.go:538-572 | one call visits in preorder and leaves the ranks that order determines |
| Ranks.DownwardRanker.ComputeDownwardRanks | internal/scheduler/core.go:579-588 | all entry tasks started, in any order: the ranks are those of the whole preorder |
| Ranks.ComputeMinComputeMultiplier | internal/scheduler/core.go:660-671 | the smallest multiplier, attained by a worker, or 1 without workers |
| Ranks.ComputeMinBandwidth | internal/scheduler/core.go:676-690 | the smallest positive bandwidth when the first worker's is positive, 50 otherwise |
| Ranks.BuildMeta | internal/scheduler/core.go:602-616 | average worst-case execution time of all tasks, and exactly the tasks whose two ranks add up to the given source rank |
| Ranks.CalculateRanks | internal/scheduler/core.go:493-617 | under the slowest worker and link: upward ranks are longest paths, each rank sum is that plus the downward rank of the search made, and volume and critical set are Algorithm 1's |
| PathCosts.PathCostInNumbers | internal/scheduler/core.go:507-527 | a path's cost: the work of its tasks over the slowest speed, plus the bytes of its edges over the slowest bandwidth in megabytes |
| PathCosts.UpInNumbers | internal/scheduler/core.go:503-531 | an upward rank is that time for some path to an exit task, and no path takes longer |
| PathCosts.SlowerNeverLower | internal/scheduler/core.go:497-527 | a slower worker or link never lowers an upward rank |
| PathCosts.VolumeInNumbers | internal/scheduler/core.go:602-615 | the volume term times the number of tasks is the time of all the work at the slowest speed |
| PathCosts.ChainUp | internal/scheduler/core.go:503-531 | two tasks in a row, any work, size and rates: both upward ranks in numbers |
| PathCosts.ChainDown | internal/scheduler/core.go:538-567 | the second one's downward rank is the first one's work and the bytes sent, in any iteration order |
| PathCosts.CalculateChain | internal/scheduler/core.go:487-617 | what is stored for such a DAG: both ranks of both nodes, volume term and critical set, in numbers |
| AlgorithmOne.CriticalSetSound | internal/scheduler/core.go:590-616 | with one entry task: every critical task lies on a longest path and the entry is critical, in any search order |
| AlgorithmOne.CriticalSetIff | internal/scheduler/core.go:590-616 | with one entry task: a task is critical exactly when it lies on a longest path and some longest path to it is visited in path order |
| AlgorithmOne.CriticalSetExact | internal/scheduler/core.go:590-616 | with predecessors visited first and no parallel edges the critical set is exactly the tasks on longest paths |
| AlgorithmOne.SomeSource | internal/scheduler/core.go:594-600 | for a DAG with a task, the critical set is the tasks whose rank equals the longest path from some entry task |
| AlgorithmOne.CriticalSetAnyEntry | internal/scheduler/core.go:590-616 | with several entry tasks: all critical tasks lie on longest paths of the DAG exactly when no entry starts a longer path than the one whose rank was compared with |
| AlgorithmOne.CriticalIffEntriesAlike | internal/scheduler/core.go:590-616 | a submitter's test: whatever order the iterations take, the critical set lies on longest paths of the DAG exactly when all entry tasks start equally long paths |
| AlgorithmOne.FirstEntryMisleads | internal/scheduler/core.go:594-600 | two unconnected tasks, the shorter met first: the critical set is that task, which is on no longest path |
| CriticalSet.PreorderMissesCriticalTask | internal/scheduler/core.go:538-571 | a three-task DAG where preorder under-counts and the critical set loses a task of the only longest path |
| Scheduling.Scheduler.MakeReady | internal/scheduler/core.go:190-207 | the task is READY, stamped and queued, and its first priority is Eq. 19's at that moment |
| Scheduling.Scheduler.HandleArrival | internal/scheduler/core.go:133-163 | the whole new state of an arrival: refused, or registered with Algorithm 1's ranks, volume and critical set, entries READY, each stamped with its own clock reading, and pushed, others WAITING |
| Scheduling.Scheduler.HandleCompletion | internal/scheduler/core.go:165-211 | the whole new state of a completion: states, DAG mark, counters, and the successors released |
| Scheduling.Scheduler.HandleEvent | internal/scheduler/core.go:131-216 | every event has the effect the specification gives it, and a new DAG enters with the ranks, volume and critical set of Algorithm 1 |
| Scheduling.Scheduler.UpdateDynamicPriorities | internal/scheduler/core.go:628-653 | every queued priority is that of one instant, the queue is a heap of the same tasks, nothing else changes |
| Scheduling.Scheduler.FindIdle | internal/scheduler/core.go:224-231 | the first idle worker in the list, or none |
| Scheduling.Scheduler.PopAndDispatch | internal/scheduler/core.go:238-256 | the popped task is the queue's first and becomes RUNNING, its worker BUSY, its address is set, and the rule under its number, and no other rule, now holds its number of successor edges |
| Scheduling.Scheduler.ScheduleReadyTasks | internal/scheduler/core.go:220-242 | dispatches best-first to the first idle worker until nothing is queued or nobody is idle; the rule table is the old one with the dispatched tasks' rules written in this order |
| RankedRuns.ToFirstIdle | internal/scheduler/core.go:224-231 | over any run each dispatch goes to the first listed worker that is idle at that moment |
| TaskNumbers.PartRead | internal/scheduler/core.go:701-708 | of an ID without a colon all is read, otherwise what stands between the first two colons or after the only one |
| TaskNumbers.TaskNumber | internal/scheduler/core.go:701-722 | a task whose name spells n in decimal, other characters anywhere in between, has key n, or 0 if n does not fit into 32 bits |
| TaskNumbers.OwnRules | internal/scheduler/core.go:286-301 | tasks with different 32-bit numbers each keep their own rule |
| TaskNumbers.CountsSuccessors | internal/scheduler/core.go:286-301 | a dispatched task's rule counts its successor edges exactly, below 2^32 of them |
| RuleTable.KeyIgnoresDag | internal/scheduler/core.go:701-722 | the key of a rule depends on the task's own part of the ID only |
| RuleTable.LastWriteHolds | internal/scheduler/core.go:286-301 | after any dispatches a key holds the successor count of the last task dispatched with that number |
| RuleTable.RulesRightIff | internal/scheduler/core.go:286-301 | the rules of all dispatched tasks are right exactly when tasks with the same number have equally many successors |
| RuleTable.RuleOverwritten | internal/scheduler/core.go:286-301 | a task-0 with two successors, then another DAG's task-0 with none: the one rule left promises no consumer |
| RuleTable.NamelessShareZero | internal/scheduler/core.go:711-722 | tasks without a digit in their names share key 0, inside one DAG too |
| RunningRules.DispatchesRightIff | internal/scheduler/core.go:286-304 | when every job finds its own rule, dispatching more keeps that so exactly when jobs that share a number, old and new, have equally many successors |
| RunningRules.RunningRightIff | internal/scheduler/core.go:220-304 | over a whole run every running task has its own rule in the table exactly when running tasks that share a number always have equally many successors |
| RunningRules.OneWorkerRight | internal/scheduler/core.go:224-242 | with a single worker a running task always has its own rule |
| RunningRules.RunningRuleOverwritten | internal/scheduler/core.go:286-304 | a run with two workers and two DAGs in which two running tasks share key 0 and one of them does not have its own rule |
| ReactorLoop.React | internal/scheduler/core.go:116-129 | one turn of the loop on the real data structures is a step of the transition system, which asks a new DAG's ranks and volume to be Algorithm 1's, and keeps its invariant; queue positions are exact; the rules written are those of the tasks dispatched |
| ReactorLoop.Start | main.go:52-66 | the scheduler starts in the transition system's initial state |
| Execution.Execute | internal/scheduler/core.go:102-129 | any script of submissions, completions and turns, played on the real data structures, follows the run of the transition system that takes exactly the script's possible steps; the rule table holds the rules of the tasks dispatched in that run, in their order |
| ReactorInvariant.ArrivalKeeps | internal/scheduler/core.go:133-163 | handling an arrival keeps the invariant |
| ReactorInvariant.CompletionKeeps | internal/scheduler/core.go:165-211 | handling a completion keeps the invariant |
| ReactorInvariant.ReleaseOneKeeps | internal/scheduler/core.go:185-207 | a released successor has a positive counter and is WAITING, so it becomes READY exactly once |
| ReactorInvariant.DispatchAllKeeps | internal/scheduler/core.go:220-242 | a scheduling pass keeps the invariant |
| ReactorInvariant.AdmitStep | internal/scheduler/core.go:147-163 | admitting one task more, whichever it is, leads from one partial arrival to the next, so the map's iteration order does not matter |
| ReactorInvariant.AdmitEnd | internal/scheduler/core.go:147-163 | with every task of an arriving DAG admitted, states, stamps and queue are those of one simultaneous arrival |
| Runs.RunKeeps | internal/scheduler/core.go:116-129 | counters, states, queue and workers agree in every state of every run |
| RunTheorems.DependencySafety | internal/scheduler/core.go:164-211 | a task waits exactly while one of its predecessors is incomplete |
| RunTheorems.NoDeadlock | internal/scheduler/core.go:116-242 | while a registered task is incomplete and there is a worker, some task is running |
| RunTheorems.ExactlyOnce | internal/scheduler/core.go:131-242 | each task is pushed, dispatched and completed at most once, in this order |
| RunTheorems.BusyIffWorking | internal/scheduler/core.go:249-251 | a worker is BUSY exactly while one running task is assigned to it |
| RunTheorems.WorkerIdleExact | internal/scheduler/core.go:213-215 | a WORKER_IDLE event keeps the invariant exactly when its worker is not busy |
| Legality.NoErrorIgnored | internal/scheduler/core.go:149-167 | every task-state update and every decrement the reactor makes is legal, so the errors it ignores there never occur |
| Termination.ReactWorks | internal/scheduler/core.go:122-124 | handling an event strictly lowers the work left |
| Termination.FinishWorks | internal/scheduler/core.go:355-360 | posting a completion strictly lowers the work left |
| Termination.RunsOutOfWork | internal/scheduler/core.go:116-242 | without new submissions a run has no more steps than the work left at its start |
| Termination.EndsComplete | internal/scheduler/core.go:116-242 | a run with nothing left to do has completed every registered task exactly once |
| Termination.ReactCan | internal/scheduler/core.go:122-124 | the reactor can always take its turn while events are waiting |
| DagCompletion.MarkMeansDoneIffLastExit | internal/scheduler/core.go:176-180 | when an exit task's completion marks its DAG COMPLETED, all the DAG's tasks are done exactly when all its other exit tasks are |
| DagCompletion.TwoExitsMarkedEarly | internal/scheduler/core.go:176-180 | a run with one worker in which a DAG with two exit tasks is marked COMPLETED after the first |
| DagCompletion.SingleExitMarksDone | internal/scheduler/core.go:176-180 | a DAG with one exit task is marked COMPLETED only when all its tasks are done |
| DagCompletion.EarlyIffSeveralExits | internal/scheduler/core.go:176-180 | in every run that has completed an exit task of a DAG, the DAG was at some point marked COMPLETED with a task left to do exactly when it has several exit tasks |
| DagCompletion.MarkOnArrival | internal/scheduler/core.go:133-145 | over any run an arriving DAG is marked ACTIVE and registered if its ID is new, and otherwise marked FAILED with the graph left alone; no other mark changes |
| Overtaking.BestFirst | internal/scheduler/core.go:239-240 | within a pass no task is dispatched before one that outranks it |
| Overtaking.BoundedOvertaking | internal/scheduler/core.go:628-653 | on any run the stamp of a task preferred to a queued task v is at most B / AgingFactor after v's, ranks plus volume lying in [0, B] |
| Overtaking.OvertakingByCosts | internal/scheduler/core.go:628-653 | the same with the bound read off the submitted DAGs: for each, its longest paths plus its volume term stay within B |
| ReadyTimes.StampedWhenReady | internal/scheduler/core.go:150-194 | a task becomes ready only in a turn of the reactor; if it was waiting, its stamp is the moment that completion was handled, otherwise one between the beginning of the turn and its scheduling pass |
| ReadyTimes.BecameReady | internal/scheduler/core.go:131-211 | every task past WAITING became ready in some earlier step |
| ReadyTimes.OvertakingByClock | internal/scheduler/core.go:628-653 | bounded overtaking by the reactor's clock: the turn in which the preferred task became ready began at most B / AgingFactor after the other one became ready |
| RankedRuns.RankedAsSubmitted | internal/scheduler/core.go:133-163 | in every state of every run each registered DAG has the tasks, edges, Algorithm 1 ranks and volume term of one submitted under its ID |
| RankedRuns.BestByEquation | internal/scheduler/core.go:628-653 | over any run a dispatched task has at least a passed-over one's rank plus volume term plus aged waiting time, Eq. 19 written out |
| Checksums.ReplacedMod | internal/ebpf/c/fanout.c:104 | Eqn. 3 keeps the one's complement sum when a field changes, and gives minus zero exactly when the old checksum was minus zero, the old field all ones and the new field zero |
| Checksums.ChecksumIffValid | internal/ebpf/c/fanout.c:104 | a stored checksum is the one RFC 791 computes exactly when the header passes the receiver's test and the field is not minus zero |
| Checksums.SampleChecksum | internal/ebpf/c/fanout.c:104 | a header with the known checksum b861: it is computed, and it passes the receiver's test |
| Checksums.RedirectedValid | internal/ebpf/c/tc_bridge.c:311-331 | with the true old address the rewrite keeps valid headers valid, invalid ones invalid, and canonical checksums canonical |
| Fanouts.Fanout | internal/ebpf/c/fanout.c:56-112 | a non-matching packet passes unchanged; a trigger is dropped after min(n, 16) clones: for each i below n and 16 the i-th exists and has the i-th destination, port 9001, UDP checksum zero, a header checksum as right as the trigger's, and no other byte changed |
| Fanouts.Deliver | internal/ebpf/c/fanout.c:90-109 | the same for the rewriting loop; its invariant says that cur is the packet's destination |
| Fanouts.DeliveryDetermined | internal/ebpf/c/fanout.c:92-108 | for a trigger with a canonical checksum those properties determine a clone to the last byte |
| Fanouts.InvocationsBounded | internal/ebpf/c/fanout.c:78-79 | after any number of invocations, finished or not, those made and the packets still queued add up to 1, or 1 + min(n, 16) for a trigger, whatever order and whatever rules are written meanwhile: processing stops, and no clone is cloned again |
| Wire.FanoutTriggerBytes | internal/ebpf/c/fanout.c:62-82 | which packets are triggers, in bytes |
| Wire.DeliveredBytes | internal/ebpf/c/fanout.c:92-108 | a consumer's packet in bytes: address in network order, port 9001, UDP checksum zero, the rest but the header checksum as in the trigger |
| Wire.FanoutReads | internal/ebpf/c/fanout.c:84 | the ID looked up is the number a worker has written into the payload |
| Retention.Conservation | internal/ebpf/c/tc_bridge.c:257-295 | after any packets and rule rewrites: consumers promised = served + outstanding, every entry is still wanted, stores minus deletes = entries |
| Retention.RunKeeps | internal/ebpf/c/tc_bridge.c:257-295 | the same from any balanced state |
| Retention.HeldUntilServed | internal/ebpf/c/tc_bridge.c:278-287 | no premature eviction: until the last promised consumer the entry is there, with its payload and the exact count, whatever the rules become |
| Retention.FreedByLast | internal/ebpf/c/tc_bridge.c:288-293 | no leak: the last promised consumer's access removes the entry |
| Retention.LifeCycles | internal/ebpf/c/tc_bridge.c:257-295 | under a fixed rule R > 1 with no refused store, after k triggers the entry is present exactly when k mod (R + 1) is not 0, with R + 1 - (k mod (R + 1)) consumers to go |
| Retention.StoredUnlessFull | internal/ebpf/c/tc_bridge.c:148 | an entry is created exactly while fewer than 4096 are there |
| Retention.UnsharedNotRetained | internal/ebpf/c/tc_bridge.c:257 | an output with at most one consumer is never retained, whatever arrives |
| Bridges.Bridge.Retain | internal/ebpf/c/tc_bridge.c:257-295 | the branch on the maps is the specification's step |
| Bridges.Bridge.Ingress | internal/ebpf/c/tc_bridge.c:188-339 | the hook takes the specification's step for the packet's task; a matching packet whose rule has a first destination leaves with it, any other packet unchanged; only address and checksum change, IP options allowed; a map that holds task IDs only still does |
| Bridges.Process | internal/ebpf/c/tc_bridge.c:188-339 | after any packets and rules the bridge holds what the retention model says |
| Wire.BridgeTriggerBytes | internal/ebpf/c/tc_bridge.c:207-233 | which packets are triggers, in bytes, behind a header of any length |
| Wire.SentBytes | internal/ebpf/c/tc_bridge.c:311-331 | the packet sent on, in bytes |
| Wire.BridgeReads | internal/ebpf/c/tc_bridge.c:235 | the ID looked up is the number a worker has written into the payload |
| Wire.WorkerPayload | internal/scheduler/core.go:318-330 | a worker's payload: the task's number in little-endian order, then zeros, as long as the first successor's data but at least four bytes |
| Wire.RetainedUnderNumber | internal/ebpf/c/tc_bridge.c:257-276 | a task's output is retained under the number its rule was written under, for as many consumers as the rule says |
| Bridges.OnlyTheIDIsRetained | internal/ebpf/c/tc_bridge.c:266-275 | for any sequence of packet bytes and rules, the bytes retained for a task are its own ID |
| ConcurrentRetention.NeverEarly | internal/ebpf/c/tc_bridge.c:278-293 | with at most R consumers, in every interleaving every lookup hits, the counter is exact and never below zero, and one delete at most follows the R-th decrement |
| ConcurrentRetention.GoneWhenServed | internal/ebpf/c/tc_bridge.c:278-293 | when all have finished the entry is gone, deleted once, exactly if all R have come |
| ConcurrentRetention.SafeIffEnough | internal/ebpf/c/tc_bridge.c:257-295 | every interleaving is safe exactly when no more than R consumers come |
| ConcurrentRetention.OneTooManyMisses | internal/ebpf/c/tc_bridge.c:257-260 | with more than R consumers some interleaving makes one of them miss the entry |
| ConcurrentRetention.OneTooManyUnderflows | internal/ebpf/c/tc_bridge.c:278-288 | with more than R consumers some interleaving takes the counter below zero |
| ConcurrentRetention.UninterruptedIsServed | internal/ebpf/c/tc_bridge.c:278-293 | a consumer left to itself does what the sequential model's serve does |
| LeastSquares.FitsIffSpread | analysis/energy_vs_basepaper.py:79-83 | a line is returned exactly when the xs are not all equal |
| LeastSquares.SpreadMeaning | analysis/energy_vs_basepaper.py:82 | n*sxx - sx*sx is never negative and zero exactly when all xs are equal |
| LeastSquares.BestFit | analysis/energy_vs_basepaper.py:79-83 | the returned line's squared error is below every other line's |

## Left out

- RankedExact: gives a sufficient condition; the exact one is ExactIffLongestVisited.
- CriticalSetExact: gives a sufficient condition; the exact one is CriticalSetIff.
- BestFit: speaks of equally long lists; for others the code divides the sums of the longer one, and the model computes the same without a claim.
- The port a worker sends to (9000 plus the task's number) and its rewriting by `connect4`: a packet enters the model when it reaches a hook.
- Integer widths: `int32` counters, `int64` costs and sizes are unbounded here; the kernel's 32-bit counters and 16-bit checksums are modelled as such.
- JSON decoding, sockets, UDP round trips and their statistics, logging, simulated CPU work, CSV files and plots: input and output without a property. `executeWorker` is a step that later posts one completion.
- The event channel's capacity of 1000: the model's channel is unbounded and first in, first out.
- Mutexes of the engine and the state manager: one goroutine changes that state, so each method is one step.
- `contentionLevel`, `DAG.State` and `TaskNode.State`: written, never read.
- Predicted destinations (`selectOptimalWorkerForTask`, `selectEarliestAvailableWorker`, `AssignedNodeIP` of successors): of a dispatched task's rule the key and the reference count are modelled; its destinations and their packing into addresses are not.
- Execute: one action at a time, in the script's order; goroutines that post or wait at the same moment are covered as the orders in which the channel receives their events.
- Failing writes of a rule, failing clones and failing packet stores: assumed to succeed.
- Concurrent first stores, and what follows once more than `ref_count` consumers are in flight: the exact limit is proved, not the behaviour beyond it.
- The UDP checksum after the destination rewrite of `tc_bridge.c`: the code leaves it stale.
- The egress hook, `connect4`, XDP lookup, program loading and attachment, the worker registry and the benchmarks: single lookups or plumbing.
- Byte order inside the incremental checksum: words are taken in network order; the one's complement sum does not depend on it.
