/** The whole program: a reactor, the clients that submit DAGs, and the worker goroutines (main.go:58-120;
    internal/scheduler/core.go:102-129, 304, 355-360). */
module Execution {
  import opened AlgorithmOne
  import opened Api
  import opened Graphs
  import opened Histories
  import opened RuleTable
  import opened Scheduling
  import LongestPaths
  import Reactor
  import ReactorLoop
  import Runs

  /** What can happen next: a client submits a DAG, a worker goroutine posts its completion, or the reactor takes its
      turn, some time after its last one; arriving tasks may read the clock a little after its beginning. */
  datatype Action =
    | Submit(dag: DAG)
    | Finish(job: Reactor.Job)
    | Turn(waited: real, lags: map<Id, real>, took: real)

  // ---------- what clients submit ----------

  /** A DAG that Parse has produced, with its nodes not yet touched. */
  ghost predicate Submittable(dag: DAG, workers: seq<Worker>)
    reads dag.tasks.Values
  {
    Sound(dag, workers) && Fresh(dag.tasks)
  }

  /** The part of it that no one ever changes. */
  ghost predicate Sound(dag: DAG, workers: seq<Worker>) {
    && Reactor.ValidDag(dag.id, GraphOf(dag.tasks)) && LongestPaths.Good(DagCosts(dag.tasks, workers))
    && forall t :: t in dag.tasks ==> dag.tasks[t].id == t
  }

  ghost function NodesIn(dags: set<DAG>): set<TaskNode> {
    set d, n | d in dags && n in d.tasks.Values :: n
  }

  ghost function Submitted(script: seq<Action>): set<DAG> {
    set i | 0 <= i < |script| && script[i].Submit? :: script[i].dag
  }

  ghost predicate AllSound(dags: set<DAG>, workers: seq<Worker>) {
    forall d :: d in dags ==> Sound(d, workers)
  }

  /** DAGs whose ID is not taken yet are as their clients made them. */
  ghost predicate Untouched(dags: set<DAG>, taken: set<Id>)
    reads NodesIn(dags)
  {
    forall d :: d in dags && d.id !in taken ==> Fresh(d.tasks)
  }

  // ---------- following the transition system ----------

  ghost function EventViews(events: seq<SchedulerEvent>): seq<Reactor.Event> {
    seq(|events|, i requires 0 <= i < |events| => EventView(events[i]))
  }

  /** The run so far ends in the program's current state. */
  ghost predicate Follows(cfg: Runs.Config, ss: seq<Runs.Sys>, ls: seq<Runs.Label>, core: Reactor.Core,
                          events: seq<SchedulerEvent>, running: multiset<Reactor.Job>, clock: real)
  {
    |ss| == |ls| + 1 && Runs.IsRun(cfg, ss, ls) && ss[|ls|] == Runs.Sys(core, EventViews(events), running, clock)
  }

  /** Events speak of submitted DAGs and completions only. */
  ghost predicate EventsFrom(events: seq<SchedulerEvent>, dags: set<DAG>) {
    forall i :: 0 <= i < |events| ==> !events[i].WorkerIdle? && (events[i].DagArrived? ==> events[i].dag in dags)
  }

  // ---------- what a script asks for ----------

  /** What the clock says for each task of an arriving DAG. */
  function Readings(tasks: set<Id>, now: real, lags: map<Id, real>): map<Id, real> {
    map t | t in tasks :: now + if t in lags then lags[t] else 0.0
  }

  /** Time passes, and no task's reading comes after the turn's end. */
  ghost predicate Timely(action: Action) {
    action.Turn? ==>
      && action.waited >= 0.0 && action.took >= 0.0
      && forall t :: t in action.lags ==> 0.0 <= action.lags[t] <= action.took
  }

  /** A completion needs a running job, and a turn needs a waiting event. */
  ghost predicate Possible(action: Action, s: Runs.Sys) {
    match action
    case Submit(_) => true
    case Finish(job) => job in s.running
    case Turn(_, _, _) => s.events != []
  }

  /** The step l that the action is, in state s. */
  ghost predicate Does(action: Action, s: Runs.Sys, l: Runs.Label) {
    match action
    case Submit(dag) => l == Runs.Submit(dag.id, GraphOf(dag.tasks), WorkOf(dag.tasks))
    case Finish(job) => l == Runs.Finish(job)
    case Turn(waited, lags, took) =>
      && l.React? && l.handledAt == s.clock + waited && l.scheduledAt == s.clock + waited + took
      && (s.events != [] && s.events[0].DagArrived? ==>
            l.arrival.clock == Readings(s.events[0].topology.Keys, s.clock + waited, lags))
  }

  /** The run takes the script's possible actions one after the other, and no other steps. */
  ghost predicate Plays(script: seq<Action>, ss: seq<Runs.Sys>, ls: seq<Runs.Label>)
    requires |ss| == |ls| + 1
    decreases |script|
  {
    var n, m := |script| - 1, |ls|;
    if script == [] then ls == []
    else
      || (!Possible(script[n], ss[m]) && Plays(script[..n], ss, ls))
      || (&& m > 0 && Possible(script[n], ss[m - 1]) && Does(script[n], ss[m - 1], ls[m - 1])
          && Plays(script[..n], ss[..m], ls[..m - 1]))
  }

  lemma PlaysOn(script: seq<Action>, i: nat, ss: seq<Runs.Sys>, ls: seq<Runs.Label>, s: Runs.Sys, l: Runs.Label)
    requires i < |script| && |ss| == |ls| + 1 && Plays(script[..i], ss, ls)
    requires Possible(script[i], ss[|ls|]) && Does(script[i], ss[|ls|], l)
    ensures Plays(script[..i + 1], ss + [s], ls + [l])
  {
    hide Possible, Does;
    assert script[..i + 1][..i] == script[..i];
    assert (ss + [s])[..|ls| + 1] == ss && (ls + [l])[..|ls|] == ls;
  }

  lemma PlaysNothing(script: seq<Action>, i: nat, ss: seq<Runs.Sys>, ls: seq<Runs.Label>)
    requires i < |script| && |ss| == |ls| + 1 && Plays(script[..i], ss, ls) && !Possible(script[i], ss[|ls|])
    ensures Plays(script[..i + 1], ss, ls)
  {
    hide Possible, Does;
    assert script[..i + 1][..i] == script[..i];
  }

  lemma OneMoreStep(cfg: Runs.Config, ss: seq<Runs.Sys>, ls: seq<Runs.Label>, l: Runs.Label, s: Runs.Sys)
    requires Runs.IsRun(cfg, ss, ls) && Runs.Step(cfg, ss[|ls|], l, s)
    ensures Runs.IsRun(cfg, ss + [s], ls + [l])
  {
    hide Runs.Step;
  }

  // ---------- the reactor's turn ----------

  /** Registered nodes and an unregistered DAG's nodes are different objects. */
  lemma Apart(sch: Scheduler, cfg: Runs.Config, s: Runs.Sys, d: DAG)
    requires Runs.SysInv(cfg, s) && s.core == sch.View() && sch.Valid() && Sound(d, sch.workers)
    requires d.id !in sch.graphEng.dags
    ensures d.tasks.Values !! sch.graphEng.nodes.Values
  {
    hide LongestPaths.Good, Reactor.Ledger, Reactor.Staged, Reactor.Counted, Reactor.Assigned, Reactor.ExitMarked;
    hide Reactor.Quiet, Runs.EventsFit, Known, Closed, Acyclic;
    assert Reactor.Registry(s.core.dags, s.core.g);
    forall n | n in sch.graphEng.nodes.Values ensures n !in d.tasks.Values {
      assert n.id in s.core.g;
    }
  }

  /** Two DAGs with different IDs share no node. */
  lemma ApartFromEvent(d: DAG, e: SchedulerEvent, workers: seq<Worker>)
    requires Sound(d, workers) && (e.DagArrived? ==> Sound(e.dag, workers) && e.dag.id != d.id)
    ensures d.tasks.Values !! Involved(e)
  {
    hide Sound;
    forall n | n in d.tasks.Values ensures ExtractDAGID(n.id) == d.id { NamedAfter(d, workers, n); }
    forall n | n in Involved(e) ensures ExtractDAGID(n.id) == e.dag.id { NamedAfter(e.dag, workers, n); }
  }

  lemma NamedAfter(d: DAG, workers: seq<Worker>, n: TaskNode)
    requires Sound(d, workers) && n in d.tasks.Values
    ensures ExtractDAGID(n.id) == d.id
  {
    hide LongestPaths.Good, Closed, Acyclic;
    assert n.id in GraphOf(d.tasks);
  }

  /** React leaves the DAGs alone that have not arrived yet. */
  method TakeTurn(sch: Scheduler, e: SchedulerEvent, at: real, clock: map<Id, real>, later: real,
                  ghost cfg: Runs.Config, ghost s: Runs.Sys, ghost dags: set<DAG>)
    returns (trace: seq<Reactor.Job>, ghost l: Runs.Label, ghost s': Runs.Sys)
    requires sch.Valid() && sch.Tidy() && cfg == ReactorLoop.ConfigOf(sch)
    requires forall w :: w in sch.workers ==> w.computeMultiplier > 0.0
    requires Runs.SysInv(cfg, s) && s.core == sch.View() && s.clock <= at <= later
    requires s.events != [] && s.events[0] == EventView(e)
    requires e.DagArrived? ==> clock.Keys == e.dag.tasks.Keys && forall t :: t in clock ==> at <= clock[t] <= later
    requires AllSound(dags, sch.workers) && Untouched(dags, sch.graphEng.dags.Keys) && (e.DagArrived? ==> e.dag in dags)
    requires sch.graphEng.nodes.Values <= NodesIn(dags)
    modifies sch, sch.graphEng, sch.stateMgr, sch.pq, NodesIn(dags)
    ensures Runs.Step(cfg, s, l, s') && s'.clock == later
    ensures l.React? && l.handledAt == at && l.scheduledAt == later && l.trace == trace
    ensures e.DagArrived? ==> l.arrival.clock == clock
    ensures s'.core == sch.View() && s'.events == s.events[1..] && s'.running == s.running + multiset(trace)
    ensures sch.Valid() && sch.Tidy() && sch.pq.Indexed()
    ensures sch.refCounts == Written(old(sch.refCounts), Reactor.TasksOf(trace), s'.core.g)
    ensures Untouched(dags, sch.graphEng.dags.Keys) && sch.graphEng.nodes.Values <= NodesIn(dags)
  {
    hide Scheduler.Valid, Scheduler.Tidy, Scheduler.View, Runs.SysInv, Fresh, Sound, Runs.Step, Written, EventView;
    hide ReactorLoop.ConfigOf;
    assert Involved(e) <= NodesIn(dags);
    forall d | d in dags && d.id !in sch.graphEng.dags.Keys + ReactorLoop.NewIDs(e)
      ensures d.tasks.Values !! sch.graphEng.nodes.Values && d.tasks.Values !! Involved(e)
    {
      Apart(sch, cfg, s, d);
      ApartFromEvent(d, e, sch.workers);
    }
    trace, l, s' := ReactorLoop.React(sch, e, at, clock, later, cfg, s);
  }

  // ---------- any script of submissions, completions and turns ----------

  lemma FollowsMeans(cfg: Runs.Config, ss: seq<Runs.Sys>, ls: seq<Runs.Label>, core: Reactor.Core,
                     events: seq<SchedulerEvent>, running: multiset<Reactor.Job>, clock: real)
    requires Follows(cfg, ss, ls, core, events, running, clock)
    ensures |ss| == |ls| + 1 && Runs.IsRun(cfg, ss, ls) && Runs.SysInv(cfg, ss[|ls|])
    ensures ss[|ls|] == Runs.Sys(core, EventViews(events), running, clock) && |EventViews(events)| == |events|
    ensures events != [] ==> EventViews(events) != [] && EventViews(events)[0] == EventView(events[0])
    ensures events != [] ==> EventViews(events)[1..] == EventViews(events[1..])
  {
    hide Runs.IsRun, Runs.SysInv;
    Runs.RunKeeps(cfg, ss, ls, |ls|);
  }

  lemma RatesOf(sch: Scheduler)
    ensures ReactorLoop.ConfigOf(sch).minComp == MinMultiplier(sch.workers)
    ensures ReactorLoop.ConfigOf(sch).minBand == MinBandwidth(sch.workers)
  {
  }

  lemma FollowsOn(cfg: Runs.Config, ss: seq<Runs.Sys>, ls: seq<Runs.Label>, l: Runs.Label, s: Runs.Sys,
                  events: seq<SchedulerEvent>)
    requires |ss| == |ls| + 1 && Runs.IsRun(cfg, ss, ls) && Runs.Step(cfg, ss[|ls|], l, s)
    requires s.events == EventViews(events)
    ensures Follows(cfg, ss + [s], ls + [l], s.core, events, s.running, s.clock)
  {
    hide Runs.IsRun, Runs.Step;
    OneMoreStep(cfg, ss, ls, l, s);
  }

  lemma SubmitFollows(cfg: Runs.Config, ss: seq<Runs.Sys>, ls: seq<Runs.Label>, core: Reactor.Core,
                      events: seq<SchedulerEvent>, running: multiset<Reactor.Job>, clock: real, dag: DAG,
                      workers: seq<Worker>)
    returns (l: Runs.Label, s: Runs.Sys)
    requires Follows(cfg, ss, ls, core, events, running, clock) && Sound(dag, workers)
    requires cfg.minComp == MinMultiplier(workers) && cfg.minBand == MinBandwidth(workers)
    ensures Follows(cfg, ss + [s], ls + [l], core, events + [DagArrived(dag)], running, clock)
    ensures l == Runs.Submit(dag.id, GraphOf(dag.tasks), WorkOf(dag.tasks))
    ensures Written(map[], AllDispatched(ls + [l]), core.g) == Written(map[], AllDispatched(ls), core.g)
  {
    hide Reactor.ValidDag, LongestPaths.Good, MinMultiplier, MinBandwidth, Runs.IsRun, Written, AllDispatched;
    var e := EventView(DagArrived(dag));
    l := Runs.Submit(e.dagID, e.topology, e.work);
    s := Runs.Sys(core, EventViews(events) + [e], running, clock);
    assert EventViews(events + [DagArrived(dag)]) == EventViews(events) + [e];
    FollowsOn(cfg, ss, ls, l, s, events + [DagArrived(dag)]);
    RulesNext(cfg, ss, ls, l, s, Written(map[], AllDispatched(ls), core.g));
  }

  lemma FinishFollows(cfg: Runs.Config, ss: seq<Runs.Sys>, ls: seq<Runs.Label>, core: Reactor.Core,
                      events: seq<SchedulerEvent>, running: multiset<Reactor.Job>, clock: real, job: Reactor.Job)
    returns (l: Runs.Label, s: Runs.Sys)
    requires Follows(cfg, ss, ls, core, events, running, clock) && job in running
    ensures Follows(cfg, ss + [s], ls + [l], core, events + [TaskCompleted(job.task, job.worker)],
                    running - multiset{job}, clock)
    ensures l == Runs.Finish(job)
    ensures Written(map[], AllDispatched(ls + [l]), core.g) == Written(map[], AllDispatched(ls), core.g)
  {
    hide Runs.IsRun, Written, AllDispatched;
    var e := TaskCompleted(job.task, job.worker);
    l := Runs.Finish(job);
    s := Runs.Sys(core, EventViews(events) + [EventView(e)], running - multiset{job}, clock);
    assert EventViews(events + [e]) == EventViews(events) + [EventView(e)];
    FollowsOn(cfg, ss, ls, l, s, events + [e]);
    RulesNext(cfg, ss, ls, l, s, Written(map[], AllDispatched(ls), core.g));
  }

  lemma StartFollows(cfg: Runs.Config)
    ensures Follows(cfg, [Runs.Init(cfg)], [], Runs.Init(cfg).core, [], multiset{}, 0.0)
    ensures Written(map[], AllDispatched([]), Runs.Init(cfg).core.g) == map[] && Plays([], [Runs.Init(cfg)], [])
  {
  }

  lemma StartSound(script: seq<Action>, workers: seq<Worker>)
    requires forall i :: 0 <= i < |script| ==> script[i].Submit? ==> Submittable(script[i].dag, workers)
    ensures AllSound(Submitted(script), workers) && Untouched(Submitted(script), {})
  {
    hide Sound, Fresh;
  }

  lemma SoundOne(script: seq<Action>, i: nat, workers: seq<Worker>)
    requires AllSound(Submitted(script), workers) && i < |script| && script[i].Submit?
    ensures Sound(script[i].dag, workers) && script[i].dag in Submitted(script)
  {
    hide Sound;
  }

  lemma EventTasks(e: SchedulerEvent)
    ensures EventView(e).DagArrived? <==> e.DagArrived?
    ensures e.DagArrived? ==> EventView(e).topology.Keys == e.dag.tasks.Keys
  {
  }

  /** The reactor's turn, if an event is waiting, as the next step of the run. */
  method Turn(sch: Scheduler, events: seq<SchedulerEvent>, ghost running: multiset<Reactor.Job>, clock: real,
              action: Action, ghost cfg: Runs.Config, ghost ss: seq<Runs.Sys>, ghost ls: seq<Runs.Label>,
              ghost dags: set<DAG>)
    returns (trace: seq<Reactor.Job>, ghost l: Runs.Label, ghost s: Runs.Sys)
    requires sch.Valid() && sch.Tidy() && cfg == ReactorLoop.ConfigOf(sch)
    requires forall w :: w in sch.workers ==> w.computeMultiplier > 0.0
    requires events != [] && action.Turn? && Timely(action)
    requires Follows(cfg, ss, ls, sch.View(), events, running, clock) && EventsFrom(events, dags)
    requires AllSound(dags, sch.workers) && Untouched(dags, sch.graphEng.dags.Keys)
    requires sch.graphEng.nodes.Values <= NodesIn(dags)
    requires sch.refCounts == Written(map[], AllDispatched(ls), sch.View().g)
    modifies sch, sch.graphEng, sch.stateMgr, sch.pq, NodesIn(dags)
    ensures Follows(cfg, ss + [s], ls + [l], sch.View(), events[1..], running + multiset(trace),
                    clock + action.waited + action.took)
    ensures Does(action, ss[|ls|], l)
    ensures sch.Valid() && sch.Tidy() && sch.pq.Indexed()
    ensures Untouched(dags, sch.graphEng.dags.Keys) && sch.graphEng.nodes.Values <= NodesIn(dags)
    ensures sch.refCounts == Written(map[], AllDispatched(ls + [l]), sch.View().g)
  {
    hide Scheduler.Valid, Scheduler.Tidy, Scheduler.View, Runs.SysInv, Runs.IsRun, Runs.Step, Fresh, Sound, Follows;
    hide Untouched, EventView, EventViews, Written, AllDispatched, ReactorLoop.ConfigOf, NodesIn, AllSound;
    FollowsMeans(cfg, ss, ls, sch.View(), events, running, clock);
    ghost var table := sch.refCounts;
    EventTasks(events[0]);
    var now := clock + action.waited;
    var readings: map<Id, real> := map[];
    if events[0].DagArrived? { readings := Readings(events[0].dag.tasks.Keys, now, action.lags); }
    trace, l, s := TakeTurn(sch, events[0], now, readings, now + action.took, cfg, ss[|ls|], dags);
    FollowsOn(cfg, ss, ls, l, s, events[1..]);
    RulesNext(cfg, ss, ls, l, s, table);
  }

  /** The program: whatever the order of submissions, completions and turns, what happens is the run of the transition
      system that takes these steps, and the kernel's rules are those written for the dispatched tasks, one after the
      other. */
  method Execute(workers: seq<Worker>, agingFactor: real, script: seq<Action>)
    returns (sch: Scheduler, ghost ss: seq<Runs.Sys>, ghost ls: seq<Runs.Label>)
    requires forall w :: w in workers ==> w.computeMultiplier > 0.0
    requires forall i :: 0 <= i < |script| ==> script[i].Submit? ==> Submittable(script[i].dag, workers)
    requires forall i :: 0 <= i < |script| ==> Timely(script[i])
    modifies NodesIn(Submitted(script))
    ensures sch.workers == workers && sch.agingFactor == agingFactor
    ensures |ss| == |ls| + 1 && Runs.IsRun(ReactorLoop.ConfigOf(sch), ss, ls) && ss[|ls|].core == sch.View()
    ensures Plays(script, ss, ls)
    ensures sch.Valid() && sch.pq.Indexed()
    ensures sch.refCounts == Written(map[], AllDispatched(ls), sch.View().g)
  {
    hide Scheduler.Valid, Scheduler.Tidy, Scheduler.View, Runs.SysInv, Runs.IsRun, Runs.Step, Fresh, Sound, Follows;
    hide EventView, EventViews, Written, AllDispatched, ReactorLoop.ConfigOf, NodesIn, AllSound, Plays;
    sch := ReactorLoop.Start(workers, agingFactor);
    ghost var cfg, dags := ReactorLoop.ConfigOf(sch), Submitted(script);
    var events: seq<SchedulerEvent>, running: multiset<Reactor.Job>, clock := [], multiset{}, 0.0;
    ss, ls := [Runs.Init(cfg)], [];
    StartFollows(cfg);
    RatesOf(sch);
    StartSound(script, workers);
    for i := 0 to |script|
      invariant sch.workers == workers && sch.agingFactor == agingFactor && cfg == ReactorLoop.ConfigOf(sch)
      invariant fresh(sch) && fresh(sch.graphEng) && fresh(sch.stateMgr) && fresh(sch.pq)
      invariant sch.Valid() && sch.Tidy() && sch.pq.Indexed()
      invariant Follows(cfg, ss, ls, sch.View(), events, running, clock) && EventsFrom(events, dags)
      invariant |ss| == |ls| + 1 && Plays(script[..i], ss, ls)
      invariant AllSound(dags, workers) && Untouched(dags, sch.graphEng.dags.Keys)
      invariant sch.graphEng.nodes.Values <= NodesIn(dags)
      invariant sch.refCounts == Written(map[], AllDispatched(ls), sch.View().g)
    {
      FollowsMeans(cfg, ss, ls, sch.View(), events, running, clock);
      match script[i] {
        case Submit(dag) =>
          SoundOne(script, i, workers);
          ghost var l, s := SubmitFollows(cfg, ss, ls, sch.View(), events, running, clock, dag, workers);
          PlaysOn(script, i, ss, ls, s, l);
          ss, ls := ss + [s], ls + [l];
          events := events + [DagArrived(dag)];
        case Finish(job) =>
          if job in running {
            ghost var l, s := FinishFollows(cfg, ss, ls, sch.View(), events, running, clock, job);
            PlaysOn(script, i, ss, ls, s, l);
            ss, ls := ss + [s], ls + [l];
            events := events + [TaskCompleted(job.task, job.worker)];
            running := running - multiset{job};
          } else {
            PlaysNothing(script, i, ss, ls);
          }
        case Turn(waited, _, took) =>
          if events != [] {
            var trace, l, s := Turn(sch, events, running, clock, script[i], cfg, ss, ls, dags);
            PlaysOn(script, i, ss, ls, s, l);
            ss, ls := ss + [s], ls + [l];
            events, running, clock := events[1..], running + multiset(trace), clock + waited + took;
          } else {
            PlaysNothing(script, i, ss, ls);
          }
      }
    }
    FollowsMeans(cfg, ss, ls, sch.View(), events, running, clock);
    assert script[..|script|] == script;
  }
}
