/**
  The mission tasking scheduler: a queue of satellite tasks, rotated until the one at its
  front has all of its dependencies on the timeline.

  `Step` is one turn of the scheduling loop on plain values; `TaskingScheduler` is the
  mutable scheduler and is proved against it.
 */
module Tasking {
  import opened Timeline

  type TaskId = nat
  type TerminalId = nat
  type SatelliteId = string

  datatype Priority = Critical | High | Medium | Low | Background

  datatype TaskType =
    | Observation(target: string, sensor: string)
    | Downlink(groundStation: string)
    | OpticalLinkEstablishment(peerTerminal: TerminalId)
    | DataRelay(source: string, destination: string)
    | DataTransfer(volumeBytes: nat)

  datatype SatelliteTask = SatelliteTask(
    id: TaskId,
    satellite: SatelliteId,
    kind: TaskType,
    window: TimeWindow,
    deps: seq<TaskId>,
    priority: Priority)

  datatype ScheduledTask = ScheduledTask(task: SatelliteTask, start: int, end: int, dependenciesSatisfied: bool)

  datatype ScheduleError = WindowExceeded(taskId: TaskId, required: int, available: int)

  datatype ResolutionStrategy = PrioritizeBySLA | DelayLowerPriority | SplitTask | RejectTask

  /** A terminal contention; `tasks` names the newly placed task and the one it collides with. */
  datatype ConflictResolution = TerminalContention(
    terminal: TerminalId,
    tasks: seq<TaskId>,
    resolution: ResolutionStrategy)

  /** The scheduler as a value. `contended` lists the tasks whose placement recorded a contention. */
  datatype State = State(queue: seq<SatelliteTask>, done: map<TaskId, ScheduledTask>, contended: seq<TaskId>)

  datatype Outcome =
    | Running(state: State)
    | Finished(state: State)
    | Failed(state: State, error: ScheduleError)

  const EMPTY := State([], map[], [])

  // ---------------------------------------------------------------- one turn of the loop

  /** Default duration by task type; a transfer assumes 1 Gbps and drops fractions of a second. */
  function Duration(kind: TaskType): (d: int)
    ensures d >= 0
  {
    match kind
    case OpticalLinkEstablishment(_) => 30 * SECOND
    case DataTransfer(volume) => (volume / 125_000_000) * SECOND
    case Observation(_, _) => 5 * MINUTE
    case Downlink(_) => 10 * MINUTE
    case DataRelay(_, _) => 5 * MINUTE
  }

  predicate Ready(t: SatelliteTask, done: map<TaskId, ScheduledTask>) {
    forall d | d in t.deps :: d in done
  }

  /** Latest end among the dependencies that are on the timeline. */
  function LatestEnd(deps: seq<TaskId>, done: map<TaskId, ScheduledTask>): (latest: Option<int>)
    ensures latest.None? <==> forall d | d in deps :: d !in done
    ensures latest.Some? ==> forall d | d in deps && d in done :: done[d].end <= latest.value
    ensures latest.Some? ==> exists d :: d in deps && d in done && done[d].end == latest.value
  {
    if deps == [] then None
    else
      var rest := LatestEnd(deps[1..], done);
      if deps[0] !in done then rest
      else if rest.None? then Some(done[deps[0]].end)
      else Some(Max(done[deps[0]].end, rest.value))
  }

  function StartTime(t: SatelliteTask, done: map<TaskId, ScheduledTask>): (start: int) {
    match LatestEnd(t.deps, done)
    case None => t.window.start
    case Some(latest) => Max(latest, t.window.start)
  }

  /** The placement of a task is the earliest instant its window and its dependencies allow. */
  lemma StartTimeIsEarliest(t: SatelliteTask, done: map<TaskId, ScheduledTask>, other: int)
    ensures t.window.start <= StartTime(t, done)
    ensures forall d | d in t.deps && d in done :: done[d].end <= StartTime(t, done)
    ensures t.window.start <= other && (forall d | d in t.deps && d in done :: done[d].end <= other)
            ==> StartTime(t, done) <= other
  {
  }

  predicate Rivals(t: SatelliteTask, other: SatelliteTask) {
    t.kind.OpticalLinkEstablishment? && other.kind.OpticalLinkEstablishment? &&
    t.kind.peerTerminal == other.kind.peerTerminal && t.window.Overlaps(other.window)
  }

  /** Two link tasks are rivals when they want the same peer terminal at the same time. */
  lemma RivalsIff(t: SatelliteTask, other: SatelliteTask)
    requires t.window.start < t.window.end && other.window.start < other.window.end
    ensures Rivals(t, other) <==>
            && ShareAnInstant(t.window, other.window)
            && exists terminal :: t.kind == OpticalLinkEstablishment(terminal) &&
                                  other.kind == OpticalLinkEstablishment(terminal)
  {
    OverlapsIff(t.window, other.window);
  }

  predicate Contends(t: SatelliteTask, done: map<TaskId, ScheduledTask>) {
    exists id | id in done :: Rivals(t, done[id].task)
  }

  /** One iteration: pop the front task, then rotate it, fail on it, or place it. */
  function Step(s: State): (o: Outcome) {
    if s.queue == [] then Finished(s)
    else
      var t, rest := s.queue[0], s.queue[1..];
      if !Ready(t, s.done) then Running(s.(queue := rest + [t]))
      else
        var start := StartTime(t, s.done);
        var end := start + Duration(t.kind);
        if end > t.window.end then
          Failed(s.(queue := rest), WindowExceeded(t.id, Duration(t.kind), t.window.end - start))
        else
          Running(State(rest,
                        s.done[t.id := ScheduledTask(t, start, end, true)],
                        if Contends(t, s.done) then s.contended + [t.id] else s.contended))
  }

  /** The loop cut off after `n` iterations. */
  function Run(s: State, n: nat): (o: Outcome)
    decreases n
  {
    if n == 0 then Running(s)
    else match Step(s)
      case Running(s') => Run(s', n - 1)
      case Finished(s') => Finished(s')
      case Failed(s', e) => Failed(s', e)
  }

  ghost predicate StopsWithin(s: State, n: nat) {
    !Run(s, n).Running?
  }

  /** The loop of `schedule` ends, with success or with an error. */
  ghost predicate Stops(s: State) {
    exists n: nat :: StopsWithin(s, n)
  }

  ghost predicate FinishesWithin(s: State, n: nat) {
    Run(s, n).Finished?
  }

  ghost predicate Succeeds(s: State) {
    exists n: nat :: FinishesWithin(s, n)
  }

  // ---------------------------------------------------------------- what every turn keeps

  ghost predicate DistinctIds(queue: seq<SatelliteTask>) {
    forall i, j :: 0 <= i < j < |queue| ==> queue[i].id != queue[j].id
  }

  /** Task ids name one task each, queued or placed. */
  ghost predicate UniqueIds(s: State) {
    DistinctIds(s.queue) && forall t | t in s.queue :: t.id !in s.done
  }

  /** Every placed task sits inside its window, for its duration, after its direct dependencies. */
  ghost predicate Consistent(done: map<TaskId, ScheduledTask>) {
    forall id | id in done ::
      var p := done[id];
      && p.task.id == id
      && p.end == p.start + Duration(p.task.kind)
      && p.task.window.start <= p.start && p.end <= p.task.window.end
      && forall d | d in p.task.deps :: d in done && done[d].end <= p.start
  }

  lemma RotationKeepsDistinct(queue: seq<SatelliteTask>)
    requires queue != [] && DistinctIds(queue)
    ensures DistinctIds(queue[1..]) && DistinctIds(queue[1..] + [queue[0]])
    ensures forall t | t in queue[1..] :: t.id != queue[0].id
  {
  }

  lemma StepKeepsUniqueIds(s: State)
    requires UniqueIds(s)
    ensures UniqueIds(Step(s).state)
  {
    if s.queue != [] {
      RotationKeepsDistinct(s.queue);
    }
  }

  lemma StepKeepsConsistent(s: State)
    requires UniqueIds(s) && Consistent(s.done)
    ensures Consistent(Step(s).state.done)
  {
    if s.queue != [] && Step(s).Running? && Ready(s.queue[0], s.done) {
      var t, done' := s.queue[0], Step(s).state.done;
      StartTimeIsEarliest(t, s.done, 0);
      assert t.id !in s.done && done'[t.id].task == t;
    }
  }

  // ---------------------------------------------------------------- every run, from an empty scheduler

  /** Calls reach the scheduler as enqueues and as turns of the scheduling loop, in any order. */
  datatype Event = Enqueue(task: SatelliteTask) | Turn

  function Apply(s: State, e: Event): (s': State) {
    match e
    case Enqueue(t) => s.(queue := s.queue + [t])
    case Turn => Step(s).state
  }

  function Replay(s: State, events: seq<Event>): (s': State)
    decreases |events|
  {
    if events == [] then s else Replay(Apply(s, events[0]), events[1..])
  }

  /** Every enqueued task carries an id that is not in use at that moment. */
  ghost predicate FreshIds(s: State, events: seq<Event>)
    decreases |events|
  {
    events == [] ||
    (&& (events[0].Enqueue? ==> events[0].task.id !in s.done &&
                                forall t | t in s.queue :: t.id != events[0].task.id)
     && FreshIds(Apply(s, events[0]), events[1..]))
  }

  lemma {:induction false} ReplayKeepsConsistent(s: State, events: seq<Event>)
    requires UniqueIds(s) && Consistent(s.done) && FreshIds(s, events)
    ensures UniqueIds(Replay(s, events)) && Consistent(Replay(s, events).done)
    decreases |events|
  {
    if events == [] {
    } else {
      if events[0].Turn? {
        StepKeepsUniqueIds(s);
        StepKeepsConsistent(s);
      }
      ReplayKeepsConsistent(Apply(s, events[0]), events[1..]);
    }
  }

  /** `path` walks from a placed task down its dependencies. */
  ghost predicate DependencyPath(done: map<TaskId, ScheduledTask>, path: seq<TaskId>) {
    && |path| >= 2
    && path[0] in done && path[1] in done[path[0]].task.deps
    && (|path| > 2 ==> DependencyPath(done, path[1..]))
  }

  lemma {:induction false} PathIsOrdered(done: map<TaskId, ScheduledTask>, path: seq<TaskId>)
    requires Consistent(done) && DependencyPath(done, path)
    ensures path[|path| - 1] in done && done[path[|path| - 1]].end <= done[path[0]].start
    decreases |path|
  {
    if |path| == 2 {
    } else {
      PathIsOrdered(done, path[1..]);
      assert path[1..][|path| - 2] == path[|path| - 1];
      assert done[path[1]].end == done[path[1]].start + Duration(done[path[1]].task.kind);
    }
  }

  /**
    Safety over whole runs, whether or not some call to `schedule` stopped on an error:
    each placed task lies in its window and starts after every transitive dependency ended.
   */
  lemma EveryRunRespectsDependencies(events: seq<Event>, path: seq<TaskId>)
    requires FreshIds(EMPTY, events)
    ensures var done := Replay(EMPTY, events).done;
            && Consistent(done)
            && (DependencyPath(done, path) ==>
                  var last := path[|path| - 1];
                  last in done && done[last].end <= done[path[0]].start)
  {
    ReplayKeepsConsistent(EMPTY, events);
    if DependencyPath(Replay(EMPTY, events).done, path) {
      PathIsOrdered(Replay(EMPTY, events).done, path);
    }
  }

  // ---------------------------------------------------------------- when the loop stops, and how

  function TaskSet(queue: seq<SatelliteTask>): (ts: set<SatelliteTask>) {
    set t | t in queue
  }

  /** `rank` orders `ts` so that each dependency is already placed or is a member of lower rank. */
  ghost predicate Ranked(ts: set<SatelliteTask>, done: map<TaskId, ScheduledTask>, rank: map<TaskId, nat>) {
    forall t | t in ts ::
      t.id in rank &&
      forall d | d in t.deps && d !in done :: exists u :: u in ts && u.id == d && d in rank && rank[d] < rank[t.id]
  }

  /** The tasks of `ts` depend on nothing missing and on no cycle. */
  ghost predicate Grounded(ts: set<SatelliteTask>, done: map<TaskId, ScheduledTask>) {
    exists rank :: Ranked(ts, done, rank)
  }

  /** `f` gives each task of `ts` a start inside its window and after its dependencies. */
  ghost predicate Fits(ts: set<SatelliteTask>, done: map<TaskId, ScheduledTask>, f: map<TaskId, int>) {
    forall t | t in ts ::
      && t.id in f
      && t.window.start <= f[t.id] && f[t.id] + Duration(t.kind) <= t.window.end
      && (forall d | d in t.deps && d in done :: done[d].end <= f[t.id])
      && (forall u | u in ts && u.id in t.deps && u.id !in done ::
            u.id in f && f[u.id] + Duration(u.kind) <= f[t.id])
  }

  ghost predicate Feasible(ts: set<SatelliteTask>, done: map<TaskId, ScheduledTask>) {
    exists f :: Fits(ts, done, f)
  }

  /** A set of queued tasks that can be reached but for which no timeline exists. */
  ghost predicate Doomed(ts: set<SatelliteTask>, s: State) {
    ts <= TaskSet(s.queue) && Grounded(ts, s.done) && !Feasible(ts, s.done)
  }

  ghost predicate AllPlaced(ts: set<SatelliteTask>, done: map<TaskId, ScheduledTask>) {
    forall t | t in ts :: t.id in done
  }

  /** A nonempty ranked set holds a task whose dependencies are all placed. */
  lemma {:induction false} SomeTaskIsReady(ts: set<SatelliteTask>, done: map<TaskId, ScheduledTask>,
                                           rank: map<TaskId, nat>, t: SatelliteTask)
    returns (r: SatelliteTask)
    requires t in ts && Ranked(ts, done, rank)
    ensures r in ts && Ready(r, done)
    decreases rank[t.id]
  {
    if Ready(t, done) {
      r := t;
    } else {
      var d :| d in t.deps && d !in done;
      var u :| u in ts && u.id == d && d in rank && rank[d] < rank[t.id];
      r := SomeTaskIsReady(ts, done, rank, u);
    }
  }

  /** Rotation brings any ranked set onto the timeline, unless some placement fails first. */
  lemma {:induction false} Progress(s: State, ts: set<SatelliteTask>, rank: map<TaskId, nat>, p: nat) returns (n: nat)
    requires UniqueIds(s) && ts <= TaskSet(s.queue) && Ranked(ts, s.done, rank)
    requires ReadyAt(s, ts, p)
    ensures !Run(s, n).Finished?
    ensures Run(s, n).Running? ==> AllPlaced(ts, Run(s, n).state.done)
    decreases |ts|, p
  {
    if ts == {} {
      return 0;
    }
    RunStep(s, 1);
    if Step(s).Failed? {
      return 1;
    }
    StepKeepsUniqueIds(s);
    RankedAfterStep(s, ts, rank);
    var p' := NextReady(s, ts, rank, p);
    n := Progress(Step(s).state, Waiting(s, ts), rank, p');
    PlacedOneStepEarlier(s, ts, n);
    n := n + 1;
  }

  ghost predicate ReadyAt(s: State, ts: set<SatelliteTask>, p: nat) {
    ts != {} ==> p < |s.queue| && s.queue[p] in ts && Ready(s.queue[p], s.done)
  }

  /** A turn shrinks the waiting set or moves its ready member one place forward. */
  lemma NextReady(s: State, ts: set<SatelliteTask>, rank: map<TaskId, nat>, p: nat) returns (p': nat)
    requires ts != {} && ts <= TaskSet(s.queue) && Ranked(ts, s.done, rank) && ReadyAt(s, ts, p) && Step(s).Running?
    ensures ReadyAt(Step(s).state, Waiting(s, ts), p')
    ensures |Waiting(s, ts)| < |ts| || (Waiting(s, ts) == ts && p' < p)
  {
    if Waiting(s, ts) == ts {
      p' := p - 1;
      OneForward(s, p);
    } else {
      assert |Waiting(s, ts)| == |ts| - 1;
      RankedAfterStep(s, ts, rank);
      p' := FindReady(Step(s).state, Waiting(s, ts), rank);
    }
  }

  lemma FindReady(s: State, ts: set<SatelliteTask>, rank: map<TaskId, nat>) returns (p: nat)
    requires ts <= TaskSet(s.queue) && Ranked(ts, s.done, rank)
    ensures ReadyAt(s, ts, p)
  {
    p := 0;
    if ts != {} {
      var t :| t in ts;
      var r := SomeTaskIsReady(ts, s.done, rank, t);
      assert r in s.queue;
      p :| 0 <= p < |s.queue| && s.queue[p] == r;
    }
  }

  lemma OneForward(s: State, p: nat)
    requires 0 < p < |s.queue| && Step(s).Running? && Ready(s.queue[p], s.done)
    ensures p - 1 < |Step(s).state.queue| && Step(s).state.queue[p - 1] == s.queue[p]
    ensures Ready(s.queue[p], Step(s).state.done)
  {
  }

  lemma PlacedOneStepEarlier(s: State, ts: set<SatelliteTask>, m: nat)
    requires UniqueIds(s) && s.queue != [] && Step(s).Running?
    requires Run(Step(s).state, m).Running? ==> AllPlaced(Waiting(s, ts), Run(Step(s).state, m).state.done)
    ensures Run(s, m + 1) == Run(Step(s).state, m)
    ensures Run(s, m + 1).Running? ==> AllPlaced(ts, Run(s, m + 1).state.done)
  {
    StepKeepsUniqueIds(s);
    RunKeepsPlaced(Step(s).state, m);
    assert Ready(s.queue[0], s.done) ==> s.queue[0].id in Step(s).state.done;
  }

  lemma RunStep(s: State, n: nat)
    requires n > 0
    ensures Step(s).Running? ==> Run(s, n) == Run(Step(s).state, n - 1)
    ensures !Step(s).Running? ==> Run(s, n) == Step(s)
  {
  }

  /** The members of `ts` still queued after one turn. */
  ghost function Waiting(s: State, ts: set<SatelliteTask>): set<SatelliteTask>
    requires s.queue != []
  {
    if Ready(s.queue[0], s.done) then ts - {s.queue[0]} else ts
  }

  lemma RankedAfterStep(s: State, ts: set<SatelliteTask>, rank: map<TaskId, nat>)
    requires ts <= TaskSet(s.queue) && Ranked(ts, s.done, rank) && s.queue != [] && Step(s).Running?
    ensures Waiting(s, ts) <= TaskSet(Step(s).state.queue)
    ensures Ranked(Waiting(s, ts), Step(s).state.done, rank)
    ensures forall t | t in ts && t !in Waiting(s, ts) :: t.id in Step(s).state.done
  {
    var s', ts' := Step(s).state, Waiting(s, ts);
    forall t | t in ts' ensures t in s'.queue {
      var i :| 0 <= i < |s.queue| && s.queue[i] == t;
      assert s'.queue[if i > 0 then i - 1 else |s'.queue| - 1] == t;
    }
    forall t, d | t in ts' && d in t.deps && d !in s'.done
      ensures exists u :: u in ts' && u.id == d && d in rank && rank[d] < rank[t.id]
    {
      var u :| u in ts && u.id == d && d in rank && rank[d] < rank[t.id];
      assert u in ts';
    }
  }

  lemma {:induction false} RunKeepsPlaced(s: State, n: nat)
    requires UniqueIds(s)
    ensures UniqueIds(Run(s, n).state)
    ensures forall id | id in s.done :: id in Run(s, n).state.done && Run(s, n).state.done[id] == s.done[id]
    ensures TaskSet(Run(s, n).state.queue) <= TaskSet(s.queue)
    decreases n
  {
    if n == 0 {
    } else {
      StepKeepsUniqueIds(s);
      if Step(s).Running? {
        RunKeepsPlaced(Step(s).state, n - 1);
      }
    }
  }

  lemma FitsOnSubset(ts: set<SatelliteTask>, sup: set<SatelliteTask>, done: map<TaskId, ScheduledTask>,
                     f: map<TaskId, int>)
    requires ts <= sup && Fits(sup, done, f)
    ensures Fits(ts, done, f)
  {
  }

  /** A timeline for the queue is still one after its first task was placed as early as possible. */
  lemma FitsAfterPlacing(s: State, ts: set<SatelliteTask>, f: map<TaskId, int>)
    requires UniqueIds(s) && s.queue != [] && Ready(s.queue[0], s.done) && Step(s).Running?
    requires s.queue[0] in ts && ts <= TaskSet(s.queue) && Fits(ts, s.done, f)
    ensures StartTime(s.queue[0], s.done) <= f[s.queue[0].id]
    ensures Fits(ts - {s.queue[0]}, Step(s).state.done, f)
  {
  }

  /** A run that fails has met a set of tasks that is grounded but has no timeline. */
  lemma {:induction false} FailureHasACause(s: State, n: nat) returns (ts: set<SatelliteTask>)
    requires UniqueIds(s) && Run(s, n).Failed?
    ensures Doomed(ts, s)
    decreases n
  {
    var t, s' := s.queue[0], Step(s).state;
    match Step(s)
    case Failed(_, _) =>
      ts := {t};
      assert Ranked(ts, s.done, map[t.id := 0]);
      forall f ensures !Fits(ts, s.done, f) {
        if t.id in f { StartTimeIsEarliest(t, s.done, f[t.id]); }
      }
    case Running(_) =>
      StepKeepsUniqueIds(s);
      var ts' := FailureHasACause(s', n - 1);
      assert ts' <= TaskSet(s.queue) by {
        assert forall u | u in s'.queue :: u in s.queue;
      }
      if !Ready(t, s.done) {
        ts := ts';
      } else {
        ts := ts' + {t};
        var rank' :| Ranked(ts', s'.done, rank');
        GroundedWithPlaced(s, ts', rank');
        assert t !in ts' by { assert t !in s'.queue; }
        assert ts - {t} == ts';
        forall f ensures !Fits(ts, s.done, f) {
          if Fits(ts, s.done, f) { FitsAfterPlacing(s, ts, f); }
        }
      }
  }

  lemma GroundedWithPlaced(s: State, ts': set<SatelliteTask>, rank': map<TaskId, nat>)
    requires UniqueIds(s) && s.queue != [] && Ready(s.queue[0], s.done) && Step(s).Running?
    requires ts' <= TaskSet(Step(s).state.queue) && Ranked(ts', Step(s).state.done, rank')
    ensures Grounded(ts' + {s.queue[0]}, s.done)
  {
    var t := s.queue[0];
    assert forall u | u in ts' :: u.id != t.id;
    RankedWithPlaced(t, s.done, Step(s).state.done, ts', rank');
  }

  lemma RankedWithPlaced(t: SatelliteTask, done: map<TaskId, ScheduledTask>, done': map<TaskId, ScheduledTask>,
                         ts': set<SatelliteTask>, rank': map<TaskId, nat>)
    requires Ready(t, done) && done'.Keys == done.Keys + {t.id}
    requires Ranked(ts', done', rank') && forall u | u in ts' :: u.id != t.id
    ensures Grounded(ts' + {t}, done)
  {
    var rank := (map id | id in rank' :: rank'[id] + 1)[t.id := 0];
    var ts := ts' + {t};
    forall u, d | u in ts' && d in u.deps && d !in done
      ensures exists w :: w in ts && w.id == d && d in rank && rank[d] < rank[u.id]
    {
      if d == t.id {
        assert t in ts && t.id == d;
      } else {
        var w :| w in ts' && w.id == d && d in rank' && rank'[d] < rank'[u.id];
        assert w in ts;
      }
    }
    assert Ranked(ts, done, rank);
  }

  /** Start times on the timeline `done`. */
  function Starts(done: map<TaskId, ScheduledTask>): (f: map<TaskId, int>) {
    map id | id in done :: done[id].start
  }

  /** `t` sits in its window, for its duration, after its dependencies. */
  ghost predicate WellPlaced(t: SatelliteTask, done: map<TaskId, ScheduledTask>) {
    && t.id in done && done[t.id].task == t && done[t.id].dependenciesSatisfied
    && done[t.id].end == done[t.id].start + Duration(t.kind)
    && t.window.start <= done[t.id].start && done[t.id].end <= t.window.end
    && forall d | d in t.deps :: d in done && done[d].end <= done[t.id].start
  }

  /** `done'` extends `done` by exactly the tasks of `ts`, at times that fit. */
  ghost predicate Extends(ts: set<SatelliteTask>, done: map<TaskId, ScheduledTask>, done': map<TaskId, ScheduledTask>) {
    && (forall id :: id in done' <==> id in done || exists t :: t in ts && t.id == id)
    && (forall id | id in done :: done'[id] == done[id])
    && (forall t | t in ts :: WellPlaced(t, done'))
  }

  /** No timeline for `ts` starts any task earlier than `done'` does. */
  ghost predicate Least(ts: set<SatelliteTask>, done: map<TaskId, ScheduledTask>, done': map<TaskId, ScheduledTask>) {
    forall f, t | Fits(ts, done, f) && t in ts && t.id in done' :: done'[t.id].start <= f[t.id]
  }

  /** A successful run places every queued task, groundedly, and at its least possible start. */
  lemma {:induction false} SuccessPlacesAll(s: State, n: nat)
    requires UniqueIds(s) && Run(s, n).Finished?
    ensures Run(s, n).state.queue == []
    ensures Grounded(TaskSet(s.queue), s.done)
    ensures Extends(TaskSet(s.queue), s.done, Run(s, n).state.done)
    ensures Least(TaskSet(s.queue), s.done, Run(s, n).state.done)
    decreases n
  {
    var ts, end := TaskSet(s.queue), Run(s, n).state.done;
    if s.queue == [] {
      assert Ranked(ts, s.done, map[]);
      return;
    }
    var t, s' := s.queue[0], Step(s).state;
    StepKeepsUniqueIds(s);
    SuccessPlacesAll(s', n - 1);
    FrontAndRest(s);
    var ts' := TaskSet(s'.queue);
    if !Ready(t, s.done) {
      assert ts' == ts;
    } else {
      assert ts == ts' + {t};
      assert t !in ts' by { assert t !in s'.queue; }
      assert ts - {t} == ts';
      var rank' :| Ranked(ts', s'.done, rank');
      GroundedWithPlaced(s, ts', rank');
      ExtendsByFront(s, ts', end);
      forall f, u | Fits(ts, s.done, f) && u in ts && u.id in end ensures end[u.id].start <= f[u.id] {
        FitsAfterPlacing(s, ts, f);
      }
    }
  }

  /** The front of the queue, once placed, is well placed in every extension of the timeline. */
  lemma FrontIsWellPlaced(s: State, end: map<TaskId, ScheduledTask>)
    requires s.queue != [] && Ready(s.queue[0], s.done) && Step(s).Running? && s.queue[0].id !in s.done
    requires forall id | id in Step(s).state.done :: id in end && end[id] == Step(s).state.done[id]
    ensures WellPlaced(s.queue[0], end)
  {
    var t, done' := s.queue[0], Step(s).state.done;
    StartTimeIsEarliest(t, s.done, 0);
    assert t.id in done';
    forall d | d in t.deps ensures d in end && end[d].end <= end[t.id].start {
      assert d in s.done && d in done' && done'[d] == s.done[d];
    }
  }

  lemma ExtendsByFront(s: State, ts': set<SatelliteTask>, end: map<TaskId, ScheduledTask>)
    requires UniqueIds(s) && s.queue != [] && Ready(s.queue[0], s.done) && Step(s).Running?
    requires ts' == TaskSet(Step(s).state.queue) && Extends(ts', Step(s).state.done, end)
    ensures Extends(ts' + {s.queue[0]}, s.done, end)
  {
    var t, done' := s.queue[0], Step(s).state.done;
    FrontIsWellPlaced(s, end);
    forall id ensures id in end <==> id in s.done || exists u :: u in ts' + {t} && u.id == id {
      if id in end && id !in s.done {
        if id == t.id {
          assert t in ts' + {t};
        } else {
          var u :| u in ts' && u.id == id;
          assert u in ts' + {t};
        }
      } else if u :| u in ts' + {t} && u.id == id {
        assert u.id in done' || u in ts';
      }
    }
    forall id | id in s.done ensures end[id] == s.done[id] {
      assert id in done' && done'[id] == s.done[id];
    }
  }

  lemma StartsFit(ts: set<SatelliteTask>, done: map<TaskId, ScheduledTask>, done': map<TaskId, ScheduledTask>)
    requires Extends(ts, done, done')
    requires forall t, u | t in ts && u in ts && t.id == u.id :: t == u
    requires forall t | t in ts :: t.id !in done
    ensures Fits(ts, done, Starts(done'))
  {
  }

  lemma UniqueInSet(s: State)
    requires UniqueIds(s)
    ensures forall t, u | t in TaskSet(s.queue) && u in TaskSet(s.queue) && t.id == u.id :: t == u
    ensures forall t | t in TaskSet(s.queue) :: t.id !in s.done
  {
  }

  /**
    `schedule` succeeds exactly when the queue depends on nothing missing and on no cycle and
    some timeline puts every task in its window after its dependencies.
   */
  lemma SucceedsIff(s: State)
    requires UniqueIds(s)
    ensures Succeeds(s) <==> Grounded(TaskSet(s.queue), s.done) && Feasible(TaskSet(s.queue), s.done)
  {
    var ts := TaskSet(s.queue);
    if Succeeds(s) {
      var n: nat :| FinishesWithin(s, n);
      SuccessPlacesAll(s, n);
      UniqueInSet(s);
      StartsFit(ts, s.done, Run(s, n).state.done);
    }
    if Grounded(ts, s.done) && Feasible(ts, s.done) {
      var n := GroundedStops(s);
      if Run(s, n).Failed? {
        var bad := FailureHasACause(s, n);
        var f :| Fits(ts, s.done, f);
        FitsOnSubset(bad, ts, s.done, f);
      }
      assert FinishesWithin(s, n);
    }
  }

  /** A grounded set is wholly placed after some number of turns, unless the run failed. */
  lemma GroundedIsPlaced(s: State, ts: set<SatelliteTask>) returns (n: nat)
    requires UniqueIds(s) && ts <= TaskSet(s.queue) && Grounded(ts, s.done)
    ensures !Run(s, n).Finished?
    ensures Run(s, n).Running? ==> AllPlaced(ts, Run(s, n).state.done)
  {
    var rank :| Ranked(ts, s.done, rank);
    var p := FindReady(s, ts, rank);
    n := Progress(s, ts, rank, p);
  }

  lemma GroundedStops(s: State) returns (n: nat)
    requires UniqueIds(s) && Grounded(TaskSet(s.queue), s.done)
    ensures !Run(s, n).Running?
  {
    n := GroundedIsPlaced(s, TaskSet(s.queue));
    if Run(s, n).Running? {
      AllPlacedEmptiesQueue(s, n);
      RunOneMore(s, n);
      n := n + 1;
    }
  }

  lemma AllPlacedEmptiesQueue(s: State, n: nat)
    requires UniqueIds(s) && AllPlaced(TaskSet(s.queue), Run(s, n).state.done)
    ensures Run(s, n).state.queue == []
  {
    var s' := Run(s, n).state;
    if s'.queue != [] {
      assert s'.queue[0] in TaskSet(s'.queue);
      RunKeepsPlaced(s, n);
    }
  }

  lemma {:induction false} RunOneMore(s: State, n: nat)
    ensures Run(s, n + 1) == match Run(s, n) case Running(s') => Step(s') case o => o
    decreases n
  {
    if n == 0 {
      assert Run(s, 1) == Step(s) by {
        if Step(s).Running? { assert Run(Step(s).state, 0) == Step(s); }
      }
    } else if Step(s).Running? {
      RunOneMore(Step(s).state, n - 1);
    }
  }

  /**
    The loop stops exactly when the whole queue is grounded or some grounded part of it has no
    timeline; in every other case it rotates the same tasks forever.
   */
  lemma StopsIff(s: State)
    requires UniqueIds(s)
    ensures Stops(s) <==> Grounded(TaskSet(s.queue), s.done) || exists ts :: Doomed(ts, s)
  {
    if Stops(s) {
      var n: nat :| StopsWithin(s, n);
      if Run(s, n).Failed? {
        var ts := FailureHasACause(s, n);
      } else {
        SuccessPlacesAll(s, n);
      }
    }
    if Grounded(TaskSet(s.queue), s.done) {
      var n := GroundedStops(s);
      assert StopsWithin(s, n);
    }
    if ts :| Doomed(ts, s) {
      DoomedStops(s, ts);
    }
  }

  /** While nothing queued is ready the loop only rotates: it places nothing and never ends. */
  lemma {:induction false} NothingReadySpins(s: State, n: nat)
    requires s.queue != [] && forall t | t in s.queue :: !Ready(t, s.done)
    ensures Run(s, n).Running? && Run(s, n).state.done == s.done && Run(s, n).state.contended == s.contended
    ensures multiset(Run(s, n).state.queue) == multiset(s.queue)
    decreases n
  {
    if n > 0 {
      var s' := Step(s).state;
      assert s.queue == [s.queue[0]] + s.queue[1..];
      assert forall t | t in s'.queue :: t in s.queue;
      NothingReadySpins(s', n - 1);
    }
  }

  /** A task that depends on itself, or on a task that was never queued, keeps `schedule` from returning. */
  lemma LoneBlockedTaskSpins(t: SatelliteTask, done: map<TaskId, ScheduledTask>)
    requires exists d :: d in t.deps && d !in done
    ensures !Stops(State([t], done, []))
  {
    forall n: nat ensures !StopsWithin(State([t], done, []), n) {
      NothingReadySpins(State([t], done, []), n);
    }
  }

  lemma DoomedStops(s: State, ts: set<SatelliteTask>)
    requires UniqueIds(s) && Doomed(ts, s)
    ensures Stops(s)
  {
    var n := GroundedIsPlaced(s, ts);
    if Run(s, n).Running? {
      PlacedPartFits(s, n, ts);
    }
    assert StopsWithin(s, n);
  }

  /** Whatever part of the queue a run has placed by some moment has a timeline. */
  lemma {:induction false} PlacedPartFits(s: State, n: nat, ts: set<SatelliteTask>)
    requires UniqueIds(s) && ts <= TaskSet(s.queue) && AllPlaced(ts, Run(s, n).state.done)
    ensures Feasible(ts, s.done)
  {
    var end := Run(s, n).state.done;
    forall t | t in ts ensures WellPlaced(t, end) {
      RunPlacesCorrectly(s, n, t);
    }
    RunKeepsPlaced(s, n);
    UniqueInSet(s);
    var f := Starts(end);
    assert Fits(ts, s.done, f) by {
      forall t | t in ts ensures t.id in f && f[t.id] == end[t.id].start {
      }
    }
  }

  lemma {:induction false} RunPlacesCorrectly(s: State, n: nat, t: SatelliteTask)
    requires UniqueIds(s) && t in s.queue && t.id in Run(s, n).state.done
    ensures WellPlaced(t, Run(s, n).state.done)
    decreases n
  {
    PlacedLater(s, n, t);
    var s' := Step(s).state;
    StaysOrIsPlaced(s, t);
    if t in s'.queue {
      RunPlacesCorrectly(s', n - 1, t);
    } else {
      RunKeepsPlaced(s', n - 1);
      FrontIsWellPlaced(s, Run(s', n - 1).state.done);
    }
  }

  lemma PlacedLater(s: State, n: nat, t: SatelliteTask)
    requires UniqueIds(s) && t in s.queue && t.id in Run(s, n).state.done
    ensures n > 0 && s.queue != [] && Step(s).Running? && UniqueIds(Step(s).state)
    ensures Run(s, n) == Run(Step(s).state, n - 1)
  {
  }

  lemma StaysOrIsPlaced(s: State, t: SatelliteTask)
    requires t in s.queue && Step(s).Running?
    ensures t in Step(s).state.queue || (t == s.queue[0] && Ready(t, s.done))
  {
  }

  lemma FrontAndRest(s: State)
    requires s.queue != [] && Step(s).Running?
    ensures !Ready(s.queue[0], s.done) ==> TaskSet(Step(s).state.queue) == TaskSet(s.queue)
    ensures Ready(s.queue[0], s.done) ==> TaskSet(s.queue) == TaskSet(Step(s).state.queue) + {s.queue[0]}
  {
  }

  /**
    The timeline does not depend on the order in which tasks were queued: any order of the
    same tasks succeeds together and places every task at the same time.
   */
  lemma OrderDoesNotMatter(s1: State, s2: State, n1: nat)
    requires UniqueIds(s1) && UniqueIds(s2)
    requires s1.done == s2.done && multiset(s1.queue) == multiset(s2.queue)
    requires Run(s1, n1).Finished?
    ensures exists n2: nat :: Run(s2, n2).Finished? && Run(s2, n2).state.done == Run(s1, n1).state.done
  {
    var ts := TaskSet(s1.queue);
    assert TaskSet(s2.queue) == ts by {
      assert forall t :: t in s1.queue <==> t in multiset(s1.queue);
      assert forall t :: t in s2.queue <==> t in multiset(s2.queue);
    }
    assert FinishesWithin(s1, n1);
    SucceedsIff(s1);
    SucceedsIff(s2);
    var n2: nat :| FinishesWithin(s2, n2);
    var d1, d2 := Run(s1, n1).state.done, Run(s2, n2).state.done;
    SuccessPlacesAll(s1, n1);
    SuccessPlacesAll(s2, n2);
    UniqueInSet(s1);
    LeastIsUnique(ts, s1.done, d1, d2);
  }

  lemma LeastIsUnique(ts: set<SatelliteTask>, done: map<TaskId, ScheduledTask>,
                      d1: map<TaskId, ScheduledTask>, d2: map<TaskId, ScheduledTask>)
    requires forall t, u | t in ts && u in ts && t.id == u.id :: t == u
    requires forall t | t in ts :: t.id !in done
    requires Extends(ts, done, d1) && Least(ts, done, d1)
    requires Extends(ts, done, d2) && Least(ts, done, d2)
    ensures d1 == d2
  {
    forall id ensures id in d1 <==> id in d2 {
    }
    forall id | id in d1 ensures d1[id] == d2[id] {
      if id !in done {
        var t :| t in ts && t.id == id;
        LeastIsLower(ts, done, d1, d2, t);
        LeastIsLower(ts, done, d2, d1, t);
      }
    }
  }

  lemma LeastIsLower(ts: set<SatelliteTask>, done: map<TaskId, ScheduledTask>,
                     d1: map<TaskId, ScheduledTask>, d2: map<TaskId, ScheduledTask>, t: SatelliteTask)
    requires forall t, u | t in ts && u in ts && t.id == u.id :: t == u
    requires forall t | t in ts :: t.id !in done
    requires t in ts && Extends(ts, done, d1) && Least(ts, done, d1) && Extends(ts, done, d2)
    ensures WellPlaced(t, d1) && WellPlaced(t, d2) && d1[t.id].start <= d2[t.id].start
  {
    StartsFit(ts, done, d2);
    assert Starts(d2)[t.id] == d2[t.id].start;
  }

  // ---------------------------------------------------------------- what a placement needs, in seconds

  /** A task of this kind fits in `available`, which is in nanoseconds. */
  ghost predicate FitsIn(kind: TaskType, available: int) {
    match kind
    case Observation(_, _) => available >= 300 * SECOND
    case DataRelay(_, _) => available >= 300 * SECOND
    case Downlink(_) => available >= 600 * SECOND
    case OpticalLinkEstablishment(_) => available >= 30 * SECOND
    case DataTransfer(v) => exists d: nat :: WholeSecondsAtOneGbps(v, d) && available >= d * SECOND
  }

  /** `d` is the number of whole seconds in which 10^9 bits a second move `v` bytes. */
  predicate WholeSecondsAtOneGbps(v: nat, d: nat) {
    d * 1_000_000_000 <= 8 * v < (d + 1) * 1_000_000_000
  }

  lemma FitsInIff(kind: TaskType, available: int)
    ensures FitsIn(kind, available) <==> available >= Duration(kind)
  {
    if kind.DataTransfer? {
      var d := kind.volumeBytes / 125_000_000;
      assert WholeSecondsAtOneGbps(kind.volumeBytes, d);
      forall e: nat | WholeSecondsAtOneGbps(kind.volumeBytes, e) ensures e == d {
      }
    }
  }

  /** A task without dependencies succeeds exactly when its window lasts as long as its kind needs. */
  lemma LoneTaskSucceedsIff(t: SatelliteTask)
    requires t.deps == []
    ensures var s := State([t], map[], []);
            && (Succeeds(s) <==> FitsIn(t.kind, t.window.end - t.window.start))
            && Stops(s)
  {
    var s := State([t], map[], []);
    FitsInIff(t.kind, t.window.end - t.window.start);
    assert Step(s).state.queue == [];
    RunStep(s, 1);
    RunOneMore(s, 1);
    if Step(s).Running? {
      assert FinishesWithin(s, 2) && StopsWithin(s, 2);
    } else {
      assert StopsWithin(s, 1);
      forall n: nat ensures !FinishesWithin(s, n) {
        if n > 0 { RunStep(s, n); }
      }
    }
  }

  /**
    The error names the task, the least time it needs and the shorter time it was left with,
    counted from the earliest start its window and its dependencies allow.
   */
  ghost predicate IsShortage(t: SatelliteTask, done: map<TaskId, ScheduledTask>, e: ScheduleError) {
    && e.taskId == t.id && !FitsIn(t.kind, e.available)
    && (forall a | a < e.required :: !FitsIn(t.kind, a)) && FitsIn(t.kind, e.required)
    && (forall d | d in t.deps :: d in done && done[d].end <= t.window.end - e.available)
    && t.window.start <= t.window.end - e.available
    && (t.window.start == t.window.end - e.available ||
        exists d :: d in t.deps && d in done && done[d].end == t.window.end - e.available)
  }

  lemma StepNamesShortage(s: State)
    requires Step(s).Failed?
    ensures s.queue != [] && Step(s).state.done == s.done && IsShortage(s.queue[0], s.done, Step(s).error)
  {
    var t, e := s.queue[0], Step(s).error;
    StartTimeIsEarliest(t, s.done, 0);
    FitsInIff(t.kind, e.available);
    FitsInIff(t.kind, e.required);
    forall a | a < e.required ensures !FitsIn(t.kind, a) {
      FitsInIff(t.kind, a);
    }
  }

  lemma StepQueuesNothingNew(s: State, t: SatelliteTask)
    requires t in Step(s).state.queue
    ensures t in s.queue
  {
  }

  /** Whatever the run before it, the error of `schedule` is exact. */
  lemma {:induction false} FailureNamesShortage(s: State, n: nat) returns (t: SatelliteTask)
    requires Run(s, n).Failed?
    ensures t in s.queue && IsShortage(t, Run(s, n).state.done, Run(s, n).error)
    decreases n
  {
    RunStep(s, n);
    if Step(s).Failed? {
      StepNamesShortage(s);
      t := s.queue[0];
    } else {
      t := FailureNamesShortage(Step(s).state, n - 1);
      StepQueuesNothingNew(s, t);
    }
  }

  // ---------------------------------------------------------------- plans in dependency order

  /** Each task of the plan depends only on placed tasks and on tasks before it. */
  ghost predicate InOrder(plan: seq<SatelliteTask>, done: map<TaskId, ScheduledTask>) {
    forall k, d | 0 <= k < |plan| && d in plan[k].deps :: d in done || exists j :: 0 <= j < k && plan[j].id == d
  }

  lemma InOrderAfterStep(plan: seq<SatelliteTask>, done: map<TaskId, ScheduledTask>, contended: seq<TaskId>)
    requires InOrder(plan, done) && plan != []
    ensures Ready(plan[0], done) && Step(State(plan, done, contended)).state.queue == plan[1..]
    ensures var r := Step(State(plan, done, contended)); r.Running? ==> InOrder(plan[1..], r.state.done)
  {
  }

  /** Where a run stands that never queued a task again: `n` turns consumed `n` tasks. */
  ghost predicate Straight(plan: seq<SatelliteTask>, n: nat, o: Outcome) {
    match o
    case Running(s) => n <= |plan| && s.queue == plan[n..]
    case Finished(s) => n > |plan| && s.queue == []
    case Failed(s, e) => exists k :: 0 <= k < n && k < |plan| && s.queue == plan[k + 1..] && e.taskId == plan[k].id
  }

  lemma StraightOneEarlier(plan: seq<SatelliteTask>, n: nat, o: Outcome)
    requires plan != [] && n > 0 && Straight(plan[1..], n - 1, o)
    ensures Straight(plan, n, o)
  {
  }

  /** A plan in dependency order is consumed front to back: no task is ever queued again. */
  lemma {:induction false} InOrderNeverRequeues(plan: seq<SatelliteTask>, done: map<TaskId, ScheduledTask>,
                                                contended: seq<TaskId>, n: nat)
    requires InOrder(plan, done)
    ensures Straight(plan, n, Run(State(plan, done, contended), n))
    decreases n
  {
    var s := State(plan, done, contended);
    if n == 0 || plan == [] {
    } else {
      InOrderAfterStep(plan, done, contended);
      RunStep(s, n);
      match Step(s)
      case Failed(_, _) =>
        assert plan[1..] == plan[0 + 1..];
      case Running(s') =>
        InOrderNeverRequeues(s'.queue, s'.done, s'.contended, n - 1);
        StraightOneEarlier(plan, n, Run(s, n));
    }
  }

  // ---------------------------------------------------------------- the scheduler object

  class TaskingScheduler {
    var taskQueue: seq<SatelliteTask>
    var scheduledTasks: map<TaskId, ScheduledTask>
    var resourceConflicts: seq<ConflictResolution>

    /** Every recorded contention names the placed task and another task. */
    ghost predicate Valid()
      reads this
    {
      forall c | c in resourceConflicts :: |c.tasks| == 2
    }

    ghost function View(): State
      requires Valid()
      reads this
    {
      State(taskQueue, scheduledTasks, seq(|resourceConflicts|, i requires 0 <= i < |resourceConflicts| reads this
                                                                  requires Valid() => resourceConflicts[i].tasks[0]))
    }

    constructor ()
      ensures Valid() && View() == EMPTY
    {
      taskQueue, scheduledTasks, resourceConflicts := [], map[], [];
    }

    method Enqueue(task: SatelliteTask)
      requires Valid()
      modifies this
      ensures Valid() && View() == Apply(old(View()), Event.Enqueue(task))
    {
      taskQueue := taskQueue + [task];
    }

    /** Looks through the placed tasks in arbitrary order for a rival of `task`. */
    method DetectConflicts(task: SatelliteTask) returns (r: Option<ConflictResolution>)
      ensures r.Some? <==> Contends(task, scheduledTasks)
      ensures r.Some? ==>
                && |r.value.tasks| == 2 && r.value.tasks[0] == task.id && r.value.resolution == PrioritizeBySLA
                && task.kind.OpticalLinkEstablishment? && r.value.terminal == task.kind.peerTerminal
                && exists id :: id in scheduledTasks && Rivals(task, scheduledTasks[id].task) &&
                                r.value.tasks[1] == scheduledTasks[id].task.id
    {
      if task.kind.OpticalLinkEstablishment? {
        var todo := scheduledTasks.Keys;
        while todo != {}
          invariant todo <= scheduledTasks.Keys
          invariant forall id | id in scheduledTasks && id !in todo :: !Rivals(task, scheduledTasks[id].task)
          decreases |todo|
        {
          var id :| id in todo;
          var existing := scheduledTasks[id];
          if Rivals(task, existing.task) {
            return Some(TerminalContention(task.kind.peerTerminal, [task.id, existing.task.id], PrioritizeBySLA));
          }
          todo := todo - {id};
        }
      }
      return None;
    }

    /** Handles one satellite task just popped from the front of the queue. */
    method ScheduleSingleTask(task: SatelliteTask) returns (r: Result<(), ScheduleError>)
      requires Valid()
      modifies this
      ensures Valid()
      ensures var before := State([task] + old(taskQueue), old(scheduledTasks), old(View()).contended);
              r.Ok? ==> Step(before) == Running(View())
      ensures var before := State([task] + old(taskQueue), old(scheduledTasks), old(View()).contended);
              r.Err? ==> Step(before) == Failed(View(), r.error)
    {
      ghost var before := State([task] + taskQueue, scheduledTasks, View().contended);
      assert before.queue[1..] == taskQueue;
      if !(forall d | d in task.deps :: d in scheduledTasks) {
        taskQueue := taskQueue + [task];
        return Ok(());
      }
      var start := StartTime(task, scheduledTasks);
      var end := start + Duration(task.kind);
      if end > task.window.end {
        return Err(WindowExceeded(task.id, Duration(task.kind), task.window.end - start));
      }
      var conflict := DetectConflicts(task);
      if conflict.Some? {
        resourceConflicts := resourceConflicts + [conflict.value];
      }
      scheduledTasks := scheduledTasks[task.id := ScheduledTask(task, start, end, true)];
      return Ok(());
    }

    /** Any queue: the loop cut off after `turns` iterations; `None` means it is still going. */
    method ScheduleWithin(turns: nat) returns (r: Option<Result<(), ScheduleError>>)
      requires Valid()
      modifies this
      ensures Valid()
      ensures Run(old(View()), turns) == match r
                case None => Running(View())
                case Some(Ok(_)) => Finished(View())
                case Some(Err(e)) => Failed(View(), e)
    {
      for i := 0 to turns
        invariant Valid() && Run(View(), turns - i) == Run(old(View()), turns)
      {
        RunStep(View(), turns - i);
        if taskQueue == [] {
          return Some(Ok(()));
        }
        ghost var v := View();
        var task := taskQueue[0];
        taskQueue := taskQueue[1..];
        assert [task] + taskQueue == v.queue;
        assert State([task] + taskQueue, scheduledTasks, View().contended) == v;
        var step := ScheduleSingleTask(task);
        if step.Err? {
          return Some(step);
        }
      }
      return None;
    }

    /** Runs to the end; defined whenever there is one, and `StopsIff` says when that is. */
    method Schedule() returns (r: Result<(), ScheduleError>)
      requires Valid() && Stops(View())
      modifies this
      ensures Valid()
      ensures r.Ok? ==> exists n: nat :: Run(old(View()), n) == Finished(View())
      ensures r.Err? ==> exists n: nat :: Run(old(View()), n) == Failed(View(), r.error)
      ensures r.Ok? && UniqueIds(old(View())) ==>
                taskQueue == [] && Extends(TaskSet(old(taskQueue)), old(scheduledTasks), scheduledTasks)
    {
      ghost var left: nat :| StopsWithin(View(), left);
      ghost var total := left;
      while taskQueue != []
        invariant Valid() && StopsWithin(View(), left) && left <= total
        invariant Run(View(), left) == Run(old(View()), total)
        decreases left
      {
        var task := taskQueue[0];
        assert [task] + taskQueue[1..] == taskQueue;
        assert left > 0;
        RunStep(View(), left);
        ghost var v := View();
        taskQueue := taskQueue[1..];
        assert State([task] + taskQueue, scheduledTasks, View().contended) == v;
        r := ScheduleSingleTask(task);
        if r.Err? {
          return;
        }
        left := left - 1;
      }
      if UniqueIds(old(View())) {
        SuccessPlacesAll(old(View()), total);
      }
      return Ok(());
    }
  }
}
