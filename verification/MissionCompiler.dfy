/**
  The intent compiler's two chain-shaped plans, custody and data relay, and what the tasking
  scheduler makes of them.

  Iteration order of the constellation map, fresh UUIDs and name-derived terminal ids are
  parameters.
 */
module MissionCompiler {
  import opened Timeline
  import opened Tasking
  import Modular

  const SEGMENT_SECS: int := 600
  const OVERLAP_SECS: int := 60
  const STRIDE: int := (SEGMENT_SECS - OVERLAP_SECS) * SECOND
  const LINK_SETUP: int := 30 * SECOND

  datatype BandwidthAllocation = BandwidthAllocation(dataRate: nat, validWindow: TimeWindow)

  datatype LinkReservation = LinkReservation(
    linkId: nat,
    source: SatelliteId, destination: SatelliteId,
    terminalA: TerminalId, terminalB: TerminalId,
    window: TimeWindow, bandwidth: BandwidthAllocation)

  datatype CompilationError =
    | InvalidIntent(asset: string)
    | NoFeasibleRoute(source: SatelliteId, destination: string)
    | Internal(message: string)

  datatype Satellite = Satellite(opticalTerminals: seq<TerminalId>)

  /** Everything a custody plan is computed from once its target is resolved. */
  datatype CustodyJob = CustodyJob(
    target: SatelliteId,
    start: int,
    relays: seq<SatelliteId>,
    constellation: map<SatelliteId, Satellite>,
    named: string -> TerminalId,
    ids: nat -> TaskId,
    linkIds: nat -> nat,
    priority: Priority)

  function TerminalOf(constellation: map<SatelliteId, Satellite>, sat: SatelliteId, named: string -> TerminalId)
    : (t: TerminalId)
  {
    if sat in constellation && constellation[sat].opticalTerminals != [] then constellation[sat].opticalTerminals[0]
    else named(sat)
  }

  function Relays(keys: seq<SatelliteId>, target: SatelliteId): (relays: seq<SatelliteId>)
    ensures forall id :: id in relays <==> id in keys && id != target
  {
    if keys == [] then []
    else if keys[0] != target then [keys[0]] + Relays(keys[1..], target)
    else Relays(keys[1..], target)
  }

  /** The constellation's order is kept. */
  lemma {:induction false} RelaysAppend(keys: seq<SatelliteId>, key: SatelliteId, target: SatelliteId)
    ensures Relays(keys + [key], target) == Relays(keys, target) + if key != target then [key] else []
    decreases |keys|
  {
    var all := keys + [key];
    if keys == [] {
      assert all[1..] == [];
    } else {
      var last := if key != target then [key] else [];
      assert all[0] == keys[0] && all[1..] == keys[1..] + [key];
      RelaysAppend(keys[1..], key, target);
      assert [keys[0]] + (Relays(keys[1..], target) + last) == [keys[0]] + Relays(keys[1..], target) + last;
    }
  }

  /** Seconds of custody asked for: the horizon, cut to the persistence. */
  function CustodySeconds(horizonStart: int, horizonEnd: int, persistence: int): (secs: int) {
    Min(NumSeconds(horizonEnd - horizonStart), NumSeconds(persistence))
  }

  /** Integer division that truncates toward zero, then at least one segment. */
  function NumSegments(secs: int): (n: nat)
    ensures n >= 1
    ensures secs > 0 ==> (n - 1) * SEGMENT_SECS < secs <= n * SEGMENT_SECS
    ensures secs <= 0 ==> n == 1
  {
    var up := secs + SEGMENT_SECS - 1;
    Max(if up >= 0 then up / SEGMENT_SECS else -((-up) / SEGMENT_SECS), 1)
  }

  function Segment(start: int, i: nat): (w: TimeWindow) {
    var segStart := start + i * STRIDE;
    TimeWindow(segStart, segStart + SEGMENT_SECS * SECOND)
  }

  function CustodyTask(job: CustodyJob, i: nat): (t: SatelliteTask)
    requires job.relays != []
  {
    SatelliteTask(
      job.ids(i), job.relays[i % |job.relays|],
      OpticalLinkEstablishment(TerminalOf(job.constellation, job.target, job.named)),
      Segment(job.start, i), if i == 0 then [] else [job.ids(i - 1)], job.priority)
  }

  function CustodyReservation(job: CustodyJob, i: nat): (l: LinkReservation)
    requires job.relays != []
  {
    var relay := job.relays[i % |job.relays|];
    LinkReservation(
      job.linkIds(i), relay, job.target,
      TerminalOf(job.constellation, relay, job.named), TerminalOf(job.constellation, job.target, job.named),
      Segment(job.start, i), BandwidthAllocation(10_000_000, Segment(job.start, i)))
  }

  function CustodyPlan(job: CustodyJob, n: nat): (plan: seq<SatelliteTask>)
    requires job.relays != []
    ensures |plan| == n
    ensures forall i | 0 <= i < n :: plan[i] == CustodyTask(job, i)
  {
    seq(n, i requires 0 <= i < n => CustodyTask(job, i))
  }

  /** `keys` is the constellation's satellites in whatever order its map yields them. */
  method CompileCustody(asset: string, target: Option<SatelliteId>, persistence: int,
                        constellation: map<SatelliteId, Satellite>, keys: seq<SatelliteId>,
                        horizonStart: int, horizonEnd: int, priority: Priority,
                        ids: nat -> TaskId, linkIds: nat -> nat, named: string -> TerminalId)
    returns (r: Result<(seq<SatelliteTask>, seq<LinkReservation>), CompilationError>)
    ensures target.None? ==> r == Err(InvalidIntent(asset))
    ensures target.Some? && (forall k | k in keys :: k == target.value) ==>
              r == Err(NoFeasibleRoute(target.value, "custody-relay"))
    ensures target.Some? && (exists k :: k in keys && k != target.value) ==>
              var n := NumSegments(CustodySeconds(horizonStart, horizonEnd, persistence));
              var job := CustodyJob(target.value, horizonStart, Relays(keys, target.value), constellation,
                                    named, ids, linkIds, priority);
              && r.Ok? && r.value.0 == CustodyPlan(job, n)
              && |r.value.1| == n && forall i | 0 <= i < n :: r.value.1[i] == CustodyReservation(job, i)
  {
    if target.None? {
      return Err(InvalidIntent(asset));
    }
    var numSegments := NumSegments(CustodySeconds(horizonStart, horizonEnd, persistence));
    var relays := Relays(keys, target.value);
    if relays == [] {
      return Err(NoFeasibleRoute(target.value, "custody-relay"));
    }
    assert relays[0] in relays;
    var tasks, reservations := [], [];
    var prevTaskId: Option<TaskId> := None;
    ghost var job := CustodyJob(target.value, horizonStart, relays, constellation, named, ids, linkIds, priority);
    for seg := 0 to numSegments
      invariant |tasks| == |reservations| == seg
      invariant prevTaskId == if seg == 0 then None else Some(ids(seg - 1))
      invariant forall i | 0 <= i < seg :: tasks[i] == CustodyTask(job, i)
      invariant forall i | 0 <= i < seg :: reservations[i] == CustodyReservation(job, i)
    {
      var segStart := horizonStart + seg * STRIDE;
      var window := TimeWindow(segStart, segStart + SEGMENT_SECS * SECOND);
      var relay := relays[seg % |relays|];
      var targetTerminal := TerminalOf(constellation, target.value, named);
      tasks := tasks + [SatelliteTask(ids(seg), relay, OpticalLinkEstablishment(targetTerminal), window,
                                      if prevTaskId.Some? then [prevTaskId.value] else [], priority)];
      reservations := reservations + [LinkReservation(linkIds(seg), relay, target.value,
                                                      TerminalOf(constellation, relay, named), targetTerminal,
                                                      window, BandwidthAllocation(10_000_000, window))];
      prevTaskId := Some(ids(seg));
    }
    r := Ok((tasks, reservations));
  }

  /** The reservation joins the task's satellite to the task's peer terminal over the task's window. */
  ghost predicate Joins(l: LinkReservation, t: SatelliteTask, peer: SatelliteId) {
    && l.source == t.satellite && l.destination == peer && l.window == t.window
    && t.kind == OpticalLinkEstablishment(l.terminalB)
  }

  /** A satellite's first terminal if the constellation knows one, else one derived from its name. */
  ghost predicate IsTerminalOf(terminal: TerminalId, sat: SatelliteId, constellation: map<SatelliteId, Satellite>,
                               named: string -> TerminalId)
  {
    && (sat in constellation && constellation[sat].opticalTerminals != [] ==>
          terminal == constellation[sat].opticalTerminals[0])
    && (sat !in constellation || constellation[sat].opticalTerminals == [] ==> terminal == named(sat))
  }

  /** Segment `i` of a custody plan waits for the one before it only; its link is reserved with it. */
  lemma CustodySegmentIsReserved(job: CustodyJob, n: nat, i: nat)
    requires job.relays != [] && i < n
    ensures var t, l := CustodyPlan(job, n)[i], CustodyReservation(job, i);
            && Joins(l, t, job.target) && IsLink(CustodyPlan(job, n), i)
            && t.id == job.ids(i) && t.satellite in job.relays && t.priority == job.priority
            && t.window == TimeWindow(job.start + 540 * i * SECOND, job.start + (540 * i + 600) * SECOND)
            && IsTerminalOf(l.terminalA, t.satellite, job.constellation, job.named)
            && IsTerminalOf(l.terminalB, job.target, job.constellation, job.named)
            && l.linkId == job.linkIds(i) && l.bandwidth == BandwidthAllocation(10_000_000, t.window)
  {
  }

  // ---------------------------------------------------------------- the windows of a custody plan

  ghost predicate Covered(start: int, n: nat, t: int) {
    exists i: nat :: i < n && Segment(start, i).Contains(t)
  }

  function CoverageEnd(start: int, n: nat): (end: int) {
    start + n * STRIDE + OVERLAP_SECS * SECOND
  }

  /** The windows leave no gap up to `CoverageEnd` and cover nothing after it. */
  lemma {:induction false} CoverageIsContiguous(start: int, n: nat, t: int)
    requires n >= 1 && start <= t
    ensures Covered(start, n, t) <==> t <= CoverageEnd(start, n)
    decreases n
  {
    if t <= CoverageEnd(start, n) {
      var last: nat := n - 1;
      if Segment(start, last).start <= t {
        assert Segment(start, last).Contains(t);
      } else {
        CoverageIsContiguous(start, n - 1, t);
        var i: nat :| i < n - 1 && Segment(start, i).Contains(t);
        assert i < n;
      }
    } else {
      forall i: nat | i < n ensures !Segment(start, i).Contains(t) {
        assert i * STRIDE <= (n - 1) * STRIDE;
      }
    }
  }

  /** Neighbours overlap by exactly 60 s; windows further apart share no instant. */
  lemma AtMostTwoAtOnce(start: int, i: nat, j: nat, t: int)
    ensures Segment(start, i).end - Segment(start, i + 1).start == OVERLAP_SECS * SECOND
    ensures Segment(start, i).Contains(t) && Segment(start, j).Contains(t) ==> -1 <= i - j <= 1
  {
  }

  /** Truncating both durations and taking the smaller is truncating the smaller one. */
  lemma CustodySecondsTruncate(horizonStart: int, horizonEnd: int, persistence: int)
    ensures CustodySeconds(horizonStart, horizonEnd, persistence) ==
            NumSeconds(Min(horizonEnd - horizonStart, persistence))
  {
  }

  /**
    Custody is meant to last the whole horizon, or the persistence if that is shorter. It does
    exactly when that duration fits in 540 s per segment plus one overlap; otherwise it falls
    short, by less than 60 s per handover and the second that truncation drops.
   */
  lemma CustodyCoversIff(horizonStart: int, horizonEnd: int, persistence: int)
    ensures var d := Min(horizonEnd - horizonStart, persistence);
            var n := NumSegments(CustodySeconds(horizonStart, horizonEnd, persistence));
            && ((forall t | horizonStart <= t <= horizonStart + d :: Covered(horizonStart, n, t)) <==>
                d <= ((SEGMENT_SECS - OVERLAP_SECS) * n + OVERLAP_SECS) * SECOND)
            && horizonStart + d - CoverageEnd(horizonStart, n) < (OVERLAP_SECS * (n - 1) + 1) * SECOND
  {
    var d := Min(horizonEnd - horizonStart, persistence);
    var n := NumSegments(CustodySeconds(horizonStart, horizonEnd, persistence));
    CustodySecondsTruncate(horizonStart, horizonEnd, persistence);
    assert CoverageEnd(horizonStart, n) == horizonStart + ((SEGMENT_SECS - OVERLAP_SECS) * n + OVERLAP_SECS) * SECOND;
    forall t | horizonStart <= t ensures Covered(horizonStart, n, t) <==> t <= CoverageEnd(horizonStart, n) {
      CoverageIsContiguous(horizonStart, n, t);
    }
    if d > ((SEGMENT_SECS - OVERLAP_SECS) * n + OVERLAP_SECS) * SECOND {
      assert !Covered(horizonStart, n, horizonStart + d);
    }
  }

  /** Past 100 minutes every custody request falls short of what was asked. */
  lemma LongCustodyFallsShort(horizonStart: int, horizonEnd: int, persistence: int)
    requires Min(horizonEnd - horizonStart, persistence) > 6000 * SECOND
    ensures !Covered(horizonStart, NumSegments(CustodySeconds(horizonStart, horizonEnd, persistence)),
                     horizonStart + Min(horizonEnd - horizonStart, persistence))
  {
    CustodySecondsTruncate(horizonStart, horizonEnd, persistence);
    CoverageIsContiguous(horizonStart, NumSegments(CustodySeconds(horizonStart, horizonEnd, persistence)),
                         horizonStart + Min(horizonEnd - horizonStart, persistence));
  }

  /** Consecutive segments are served by different satellites exactly when there are two relays or more. */
  lemma HandoverChangesRelay(job: CustodyJob, i: nat)
    requires job.relays != [] && Distinct(job.relays)
    ensures CustodyTask(job, i).satellite != CustodyTask(job, i + 1).satellite <==> |job.relays| >= 2
  {
    var m := |job.relays|;
    Modular.ModSuccessor(i, m);
  }

  // ---------------------------------------------------------------- a custody plan on the scheduler

  ghost predicate DistinctUpTo(ids: nat -> TaskId, n: nat) {
    forall i: nat, j: nat | i < j < n :: ids(i) != ids(j)
  }

  function CustodyPlacement(job: CustodyJob, i: nat): (p: ScheduledTask)
    requires job.relays != []
  {
    var start := Segment(job.start, i).start;
    ScheduledTask(CustodyTask(job, i), start, start + LINK_SETUP, true)
  }

  /** The timeline holding the first `k` segments, each at the start of its window. */
  function CustodyTimeline(job: CustodyJob, k: nat): (done: map<TaskId, ScheduledTask>)
    requires job.relays != []
  {
    if k == 0 then map[] else CustodyTimeline(job, k - 1)[job.ids(k - 1) := CustodyPlacement(job, k - 1)]
  }

  function IdsFromTo(ids: nat -> TaskId, lo: nat, hi: nat): (s: seq<TaskId>)
    ensures |s| == if lo <= hi then hi - lo else 0
  {
    seq(if lo <= hi then hi - lo else 0, i requires i >= 0 => ids(lo + i))
  }

  ghost function CustodyState(job: CustodyJob, n: nat, k: nat): State
    requires job.relays != [] && k <= n
  {
    State(CustodyPlan(job, n)[k..], CustodyTimeline(job, k), IdsFromTo(job.ids, 1, k))
  }

  lemma CustodyStep(job: CustodyJob, n: nat, k: nat)
    requires job.relays != [] && k < n
    ensures Step(CustodyState(job, n, k)) == Running(CustodyState(job, n, k + 1))
  {
    var s, t := CustodyState(job, n, k), CustodyTask(job, k);
    assert s.queue[0] == t && s.queue[1..] == CustodyPlan(job, n)[k + 1..];
    if k == 0 {
      assert IdsFromTo(job.ids, 1, 1) == IdsFromTo(job.ids, 1, 0);
    } else {
      var prev := CustodyPlacement(job, k - 1);
      assert job.ids(k - 1) in s.done && s.done[job.ids(k - 1)] == prev;
      assert prev.end <= t.window.start by { assert k * STRIDE == (k - 1) * STRIDE + STRIDE; }
      assert StartTime(t, s.done) == t.window.start by {
        assert LatestEnd(t.deps, s.done) == Some(prev.end);
      }
      assert Rivals(t, prev.task) by { assert k * STRIDE == (k - 1) * STRIDE + STRIDE; }
      assert IdsFromTo(job.ids, 1, k + 1) == IdsFromTo(job.ids, 1, k) + [job.ids(k)];
    }
  }

  lemma CustodyStarts(job: CustodyJob, n: nat)
    requires job.relays != []
    ensures CustodyState(job, n, 0) == State(CustodyPlan(job, n), map[], [])
  {
  }

  lemma {:induction false} CustodyRun(job: CustodyJob, n: nat, s: State, k: nat)
    requires job.relays != [] && k <= n && s == CustodyState(job, n, 0)
    ensures Run(s, k) == Running(CustodyState(job, n, k))
    decreases k
  {
    if k > 0 {
      CustodyRun(job, n, s, k - 1);
      RunOneMore(s, k - 1);
      CustodyStep(job, n, k - 1);
    }
  }

  lemma {:induction false} TimelineHoldsEach(job: CustodyJob, k: nat, i: nat)
    requires job.relays != [] && DistinctUpTo(job.ids, k) && i < k
    ensures job.ids(i) in CustodyTimeline(job, k)
    ensures CustodyTimeline(job, k)[job.ids(i)] == CustodyPlacement(job, i)
    decreases k
  {
    if i < k - 1 {
      TimelineHoldsEach(job, k - 1, i);
      assert job.ids(i) != job.ids(k - 1);
    }
  }

  /**
    A custody plan queued in order on an empty scheduler is placed completely, one task per
    turn and none queued again, each at the start of its window; every segment but the first
    records a contention for the target's terminal.
   */
  lemma CustodyPlanIsScheduled(job: CustodyJob, n: nat)
    requires job.relays != [] && DistinctUpTo(job.ids, n)
    ensures var o := Run(State(CustodyPlan(job, n), map[], []), n + 1);
            && o.Finished? && o.state.queue == []
            && (forall i: nat | i < n ::
                  job.ids(i) in o.state.done && o.state.done[job.ids(i)] == CustodyPlacement(job, i))
            && o.state.contended == IdsFromTo(job.ids, 1, n)
    ensures forall k: nat | k <= n ::
              Run(State(CustodyPlan(job, n), map[], []), k).Running? &&
              Run(State(CustodyPlan(job, n), map[], []), k).state.queue == CustodyPlan(job, n)[k..]
  {
    var s := State(CustodyPlan(job, n), map[], []);
    CustodyStarts(job, n);
    forall k: nat | k <= n ensures Run(s, k) == Running(CustodyState(job, n, k)) {
      CustodyRun(job, n, s, k);
    }
    RunOneMore(s, n);
    forall i: nat | i < n
      ensures job.ids(i) in CustodyTimeline(job, n) && CustodyTimeline(job, n)[job.ids(i)] == CustodyPlacement(job, i)
    {
      TimelineHoldsEach(job, n, i);
    }
  }

  // ---------------------------------------------------------------- data relay

  /** One hop of a computed route: the two satellites and the window it uses. */
  datatype Hop = Hop(source: SatelliteId, destination: SatelliteId, window: TimeWindow, bandwidth: BandwidthAllocation)

  /** Why there is no route: the router's lock was poisoned, or it found none. */
  datatype RoutingError = LockPoisoned | NoRoute

  function RelayTask(hops: seq<Hop>, terminals: string -> TerminalId, ids: nat -> TaskId, i: nat): (t: SatelliteTask)
    requires i < |hops|
  {
    SatelliteTask(ids(i), hops[i].source, OpticalLinkEstablishment(terminals(hops[i].destination)), hops[i].window,
                  if i > 0 then [ids(i - 1)] else [], Medium)
  }

  function RelayReservation(hop: Hop, terminals: string -> TerminalId, linkId: nat): (l: LinkReservation) {
    LinkReservation(linkId, hop.source, hop.destination, terminals(hop.source), terminals(hop.destination),
                    hop.window, hop.bandwidth)
  }

  /** The route and the satellites' terminals are parameters; errors of the lookups are passed on. */
  method CompileDataRelay(source: string, destination: string,
                          sourceSat: Option<SatelliteId>, destSat: Option<SatelliteId>,
                          route: Result<seq<Hop>, RoutingError>,
                          terminals: string -> TerminalId, ids: nat -> TaskId, linkIds: nat -> nat)
    returns (r: Result<(seq<SatelliteTask>, seq<LinkReservation>), CompilationError>)
    ensures sourceSat.None? ==> r == Err(InvalidIntent(source))
    ensures sourceSat.Some? && destSat.None? ==> r == Err(InvalidIntent(destination))
    ensures sourceSat.Some? && destSat.Some? && route == Err(LockPoisoned) ==>
              r == Err(Internal("Router lock poisoned"))
    ensures sourceSat.Some? && destSat.Some? && route == Err(NoRoute) ==>
              r == Err(NoFeasibleRoute(sourceSat.value, destSat.value))
    ensures sourceSat.Some? && destSat.Some? && route.Ok? ==>
              var hops := route.value;
              && r.Ok? && |r.value.0| == |r.value.1| == |hops|
              && forall i | 0 <= i < |hops| ::
                   && r.value.0[i] == RelayTask(hops, terminals, ids, i)
                   && r.value.1[i] == RelayReservation(hops[i], terminals, linkIds(i))
  {
    if sourceSat.None? {
      return Err(InvalidIntent(source));
    }
    if destSat.None? {
      return Err(InvalidIntent(destination));
    }
    if route.Err? {
      return Err(if route.error.LockPoisoned? then Internal("Router lock poisoned")
                 else NoFeasibleRoute(sourceSat.value, destSat.value));
    }
    var hops := route.value;
    var tasks, reservations := [], [];
    for i := 0 to |hops|
      invariant |tasks| == |reservations| == i
      invariant forall k | 0 <= k < i :: tasks[k] == RelayTask(hops, terminals, ids, k)
      invariant forall k | 0 <= k < i :: reservations[k] == RelayReservation(hops[k], terminals, linkIds(k))
    {
      var hop := hops[i];
      tasks := tasks + [SatelliteTask(ids(i), hop.source, OpticalLinkEstablishment(terminals(hop.destination)),
                                      hop.window, if i > 0 then [tasks[i - 1].id] else [], Medium)];
      reservations := reservations + [LinkReservation(linkIds(i), hop.source, hop.destination, terminals(hop.source),
                                                      terminals(hop.destination), hop.window, hop.bandwidth)];
    }
    r := Ok((tasks, reservations));
  }

  /** Task `i` sets up a link and waits for the one before it only. */
  ghost predicate IsLink(plan: seq<SatelliteTask>, i: nat)
    requires i < |plan|
  {
    plan[i].kind.OpticalLinkEstablishment? && plan[i].deps == if i == 0 then [] else [plan[i - 1].id]
  }

  ghost predicate IsRelayPlan(plan: seq<SatelliteTask>) {
    DistinctIds(plan) && forall i: nat | i < |plan| :: IsLink(plan, i)
  }

  /** What `CompileDataRelay` emits is such a chain when the ids are fresh. */
  lemma RelayTasksAreAChain(hops: seq<Hop>, terminals: string -> TerminalId, ids: nat -> TaskId,
                            plan: seq<SatelliteTask>)
    requires DistinctUpTo(ids, |hops|) && |plan| == |hops|
    requires forall i | 0 <= i < |hops| :: plan[i] == RelayTask(hops, terminals, ids, i)
    ensures IsRelayPlan(plan)
  {
  }

  /** Each hop is reserved with the task that sets it up. */
  lemma RelayHopIsReserved(hops: seq<Hop>, terminals: string -> TerminalId, ids: nat -> TaskId, linkId: nat, i: nat)
    requires i < |hops|
    ensures var t, l := RelayTask(hops, terminals, ids, i), RelayReservation(hops[i], terminals, linkId);
            && Joins(l, t, hops[i].destination)
            && t.satellite == hops[i].source && t.window == hops[i].window && t.priority == Medium
            && l.terminalA == terminals(hops[i].source) && l.terminalB == terminals(hops[i].destination)
            && l.bandwidth == hops[i].bandwidth && l.linkId == linkId
  {
  }

  /** Every hop's window leaves 30 s for each link from any earlier hop up to it. */
  ghost predicate WindowsLeaveTime(plan: seq<SatelliteTask>) {
    forall i, k | 0 <= i <= k < |plan| :: plan[i].window.start + (k - i + 1) * LINK_SETUP <= plan[k].window.end
  }

  /** Earliest moment link `k` can start to be set up. */
  function RelayStart(plan: seq<SatelliteTask>, k: nat): (start: int)
    requires k < |plan|
  {
    if k == 0 then plan[0].window.start
    else Max(RelayStart(plan, k - 1) + LINK_SETUP, plan[k].window.start)
  }

  lemma {:induction false} RelayStartIsAttained(plan: seq<SatelliteTask>, k: nat) returns (i: nat)
    requires k < |plan|
    ensures i <= k && RelayStart(plan, k) == plan[i].window.start + (k - i) * LINK_SETUP
    decreases k
  {
    if k == 0 || RelayStart(plan, k) == plan[k].window.start {
      i := k;
    } else {
      i := RelayStartIsAttained(plan, k - 1);
    }
  }

  lemma {:induction false} AnyFitIsLater(plan: seq<SatelliteTask>, f: map<TaskId, int>, i: nat, k: nat)
    requires IsRelayPlan(plan) && Fits(TaskSet(plan), map[], f) && i <= k < |plan|
    ensures plan[k].id in f && plan[i].window.start + (k - i) * LINK_SETUP <= f[plan[k].id]
    decreases k
  {
    assert plan[k] in TaskSet(plan) && IsLink(plan, k);
    if i < k {
      AnyFitIsLater(plan, f, i, k - 1);
      assert IsLink(plan, k - 1) && plan[k - 1] in TaskSet(plan) && plan[k - 1].id in plan[k].deps;
    }
  }

  /** Distinct ids can be given any values, position by position. */
  lemma {:induction false} AssignById<V>(plan: seq<SatelliteTask>, values: seq<V>) returns (f: map<TaskId, V>)
    requires DistinctIds(plan) && |values| == |plan|
    ensures forall k | 0 <= k < |plan| :: plan[k].id in f && f[plan[k].id] == values[k]
    decreases |plan|
  {
    if plan == [] {
      f := map[];
    } else {
      var rest := AssignById(plan[1..], values[1..]);
      f := rest[plan[0].id := values[0]];
      forall k | 0 <= k < |plan| ensures plan[k].id in f && f[plan[k].id] == values[k] {
        if k > 0 {
          assert plan[1..][k - 1] == plan[k] && values[1..][k - 1] == values[k];
        }
      }
    }
  }

  lemma RelayStartFitsWindow(plan: seq<SatelliteTask>, k: nat)
    requires WindowsLeaveTime(plan) && k < |plan|
    ensures plan[k].window.start <= RelayStart(plan, k) && RelayStart(plan, k) + LINK_SETUP <= plan[k].window.end
  {
    var i := RelayStartIsAttained(plan, k);
    assert (k - i + 1) * LINK_SETUP == (k - i) * LINK_SETUP + LINK_SETUP;
  }

  lemma RelayTaskFits(plan: seq<SatelliteTask>, f: map<TaskId, int>, k: nat)
    requires IsRelayPlan(plan) && WindowsLeaveTime(plan) && k < |plan|
    requires forall j: nat | j < |plan| :: plan[j].id in f && f[plan[j].id] == RelayStart(plan, j)
    ensures plan[k].window.start <= f[plan[k].id] && f[plan[k].id] + Duration(plan[k].kind) <= plan[k].window.end
    ensures forall u | u in TaskSet(plan) && u.id in plan[k].deps ::
              u.id in f && f[u.id] + Duration(u.kind) <= f[plan[k].id]
  {
    RelayStartFitsWindow(plan, k);
    assert IsLink(plan, k);
    forall u | u in TaskSet(plan) && u.id in plan[k].deps
      ensures u.id in f && f[u.id] + Duration(u.kind) <= f[plan[k].id]
    {
      var j :| 0 <= j < |plan| && plan[j] == u;
      assert IsLink(plan, j) && k > 0 && u.id == plan[k - 1].id;
    }
  }

  lemma RelayStartsFit(plan: seq<SatelliteTask>)
    requires IsRelayPlan(plan) && WindowsLeaveTime(plan)
    ensures Feasible(TaskSet(plan), map[])
  {
    var f := AssignById(plan, seq(|plan|, k requires 0 <= k < |plan| => RelayStart(plan, k)));
    forall t | t in TaskSet(plan)
      ensures t.id in f && t.window.start <= f[t.id] && f[t.id] + Duration(t.kind) <= t.window.end
      ensures forall u | u in TaskSet(plan) && u.id in t.deps :: u.id in f && f[u.id] + Duration(u.kind) <= f[t.id]
    {
      var k :| 0 <= k < |plan| && plan[k] == t;
      RelayTaskFits(plan, f, k);
    }
    assert Fits(TaskSet(plan), map[], f);
  }

  lemma RelayIsGrounded(plan: seq<SatelliteTask>)
    requires IsRelayPlan(plan)
    ensures Grounded(TaskSet(plan), map[])
  {
    var rank: map<TaskId, nat> := AssignById<nat>(plan, seq(|plan|, (k: nat) => k));
    forall t | t in TaskSet(plan)
      ensures t.id in rank
      ensures forall d | d in t.deps :: exists u :: u in TaskSet(plan) && u.id == d && d in rank && rank[d] < rank[t.id]
    {
      var k :| 0 <= k < |plan| && plan[k] == t;
      assert IsLink(plan, k);
      if k > 0 {
        assert plan[k - 1] in TaskSet(plan);
      }
    }
    assert Ranked(TaskSet(plan), map[], rank);
  }

  lemma RelayFeasibleIff(plan: seq<SatelliteTask>)
    requires IsRelayPlan(plan)
    ensures Feasible(TaskSet(plan), map[]) <==> WindowsLeaveTime(plan)
  {
    if Feasible(TaskSet(plan), map[]) {
      FeasibleLeavesTime(plan);
    }
    if WindowsLeaveTime(plan) {
      RelayStartsFit(plan);
    }
  }

  lemma RelayStopsInTime(plan: seq<SatelliteTask>)
    requires IsRelayPlan(plan)
    ensures StopsWithin(State(plan, map[], []), |plan| + 1)
  {
    RelayIsInOrder(plan);
    InOrderNeverRequeues(plan, map[], [], |plan| + 1);
  }

  lemma RelayIdsAreUnique(plan: seq<SatelliteTask>)
    requires IsRelayPlan(plan)
    ensures UniqueIds(State(plan, map[], []))
  {
  }

  /**
    A data-relay plan on an empty scheduler never waits on its queue and is placed completely
    exactly when every window leaves 30 s per link from each earlier hop.
   */
  lemma RelayPlanSucceedsIff(plan: seq<SatelliteTask>)
    requires IsRelayPlan(plan)
    ensures Succeeds(State(plan, map[], [])) <==> WindowsLeaveTime(plan)
    ensures StopsWithin(State(plan, map[], []), |plan| + 1)
  {
    RelayIdsAreUnique(plan);
    RelayIsGrounded(plan);
    RelayFeasibleIff(plan);
    SucceedsIff(State(plan, map[], []));
    RelayStopsInTime(plan);
  }

  lemma RelayIsInOrder(plan: seq<SatelliteTask>)
    requires IsRelayPlan(plan)
    ensures InOrder(plan, map[])
  {
    forall k, d | 0 <= k < |plan| && d in plan[k].deps ensures exists j :: 0 <= j < k && plan[j].id == d {
      assert IsLink(plan, k);
      assert k > 0 && plan[k - 1].id == d;
    }
  }

  lemma FeasibleLeavesTime(plan: seq<SatelliteTask>)
    requires IsRelayPlan(plan) && Feasible(TaskSet(plan), map[])
    ensures WindowsLeaveTime(plan)
  {
    var f :| Fits(TaskSet(plan), map[], f);
    forall i, k | 0 <= i <= k < |plan| ensures plan[i].window.start + (k - i + 1) * LINK_SETUP <= plan[k].window.end {
      AnyFitIsLater(plan, f, i, k);
      assert IsLink(plan, k) && plan[k] in TaskSet(plan);
      assert (k - i + 1) * LINK_SETUP == (k - i) * LINK_SETUP + LINK_SETUP;
    }
  }

  // ---------------------------------------------------------------- observation

  const PASS_CAP_SECS: int := 600
  const DOWNLINK_SECS: int := 300

  /** Everything an observation plan is computed from. `station` is the choice of a ground station. */
  datatype ObservationJob = ObservationJob(
    target: string, sensor: string, start: int, revisitSecs: int,
    satellites: seq<SatelliteId>,
    constellation: map<SatelliteId, Satellite>,
    station: (SatelliteId, TimeWindow) -> Option<string>,
    named: string -> TerminalId,
    ids: nat -> TaskId, downlinkIds: nat -> TaskId, linkIds: nat -> nat,
    priority: Priority)
  {
    predicate Valid() {
      satellites != [] && revisitSecs >= 60
    }

    function SatelliteAt(i: nat): (sat: SatelliteId)
      requires Valid()
    {
      satellites[i % |satellites|]
    }

    function ObservationWindow(i: nat): (w: TimeWindow) {
      var from := start + i * revisitSecs * SECOND;
      TimeWindow(from, from + Min(revisitSecs, PASS_CAP_SECS) * SECOND)
    }

    function DownlinkWindow(i: nat): (w: TimeWindow) {
      var from := ObservationWindow(i).end;
      TimeWindow(from, from + DOWNLINK_SECS * SECOND)
    }

    function StationFor(i: nat): (gs: Option<string>)
      requires Valid()
    {
      station(SatelliteAt(i), DownlinkWindow(i))
    }
  }

  function ObservationTask(job: ObservationJob, i: nat): (t: SatelliteTask)
    requires job.Valid()
  {
    SatelliteTask(job.ids(i), job.SatelliteAt(i), Observation(job.target, job.sensor), job.ObservationWindow(i), [],
                  job.priority)
  }

  function DownlinkTask(job: ObservationJob, i: nat): (t: SatelliteTask)
    requires job.Valid() && job.StationFor(i).Some?
  {
    SatelliteTask(job.downlinkIds(i), job.SatelliteAt(i), Downlink(job.StationFor(i).value), job.DownlinkWindow(i),
                  [job.ids(i)], job.priority)
  }

  function DownlinkReservation(job: ObservationJob, i: nat): (l: LinkReservation)
    requires job.Valid() && job.StationFor(i).Some?
  {
    var sat, gs := job.SatelliteAt(i), job.StationFor(i).value;
    LinkReservation(job.linkIds(i), sat, gs, TerminalOf(job.constellation, sat, job.named), job.named(gs),
                    job.DownlinkWindow(i), BandwidthAllocation(1_000_000, job.ObservationWindow(i)))
  }

  function ObservationPlan(job: ObservationJob, n: nat): (plan: seq<SatelliteTask>)
    requires job.Valid()
    decreases n
  {
    if n == 0 then []
    else ObservationPlan(job, n - 1) + [ObservationTask(job, n - 1)] +
         if job.StationFor(n - 1).Some? then [DownlinkTask(job, n - 1)] else []
  }

  function ObservationLinks(job: ObservationJob, n: nat): (links: seq<LinkReservation>)
    requires job.Valid()
    decreases n
  {
    if n == 0 then []
    else ObservationLinks(job, n - 1) + if job.StationFor(n - 1).Some? then [DownlinkReservation(job, n - 1)] else []
  }

  function RevisitSeconds(revisit: int): (secs: int)
    ensures secs >= 60 && secs >= NumSeconds(revisit)
    ensures secs == 60 || secs == NumSeconds(revisit)
  {
    Max(NumSeconds(revisit), 60)
  }

  /** How many whole revisits the horizon holds, and at least one. */
  function NumRevisits(horizon: int, revisitSecs: int): (n: nat)
    requires revisitSecs >= 60
    ensures n >= 1
    ensures NumSeconds(horizon) >= revisitSecs ==>
              n * revisitSecs <= NumSeconds(horizon) < (n + 1) * revisitSecs
    ensures NumSeconds(horizon) < revisitSecs ==> n == 1
  {
    var secs := NumSeconds(horizon);
    if secs < 0 then 1
    else
      QuotientBounds(secs, revisitSecs);
      Max(secs / revisitSecs, 1)
  }

  lemma QuotientBounds(a: nat, b: nat)
    requires b > 0
    ensures a / b * b <= a < (a / b + 1) * b
    ensures a >= b ==> a / b >= 1
    ensures a < b ==> a / b == 0
  {
    assert a == a / b * b + a % b;
    assert a / b >= 1 ==> a / b * b >= b;
  }

  method CompileObservation(target: string, sensor: string, revisit: int,
                            constellation: map<SatelliteId, Satellite>, keys: seq<SatelliteId>,
                            horizonStart: int, horizonEnd: int, priority: Priority,
                            station: (SatelliteId, TimeWindow) -> Option<string>, named: string -> TerminalId,
                            ids: nat -> TaskId, downlinkIds: nat -> TaskId, linkIds: nat -> nat)
    returns (r: Result<(seq<SatelliteTask>, seq<LinkReservation>), CompilationError>)
    ensures keys == [] ==> r == Err(NoFeasibleRoute("observation-asset", target))
    ensures keys != [] ==>
              var n := NumRevisits(horizonEnd - horizonStart, RevisitSeconds(revisit));
              var job := ObservationJob(target, sensor, horizonStart, RevisitSeconds(revisit), keys, constellation,
                                        station, named, ids, downlinkIds, linkIds, priority);
              r == Ok((ObservationPlan(job, n), ObservationLinks(job, n)))
  {
    var revisitSecs := RevisitSeconds(revisit);
    var numWindows := NumRevisits(horizonEnd - horizonStart, revisitSecs);
    if keys == [] {
      return Err(NoFeasibleRoute("observation-asset", target));
    }
    ghost var job := ObservationJob(target, sensor, horizonStart, revisitSecs, keys, constellation,
                                    station, named, ids, downlinkIds, linkIds, priority);
    var tasks, reservations := [], [];
    for i := 0 to numWindows
      invariant tasks == ObservationPlan(job, i) && reservations == ObservationLinks(job, i)
    {
      var windowStart := horizonStart + i * revisitSecs * SECOND;
      var windowEnd := windowStart + Min(revisitSecs, PASS_CAP_SECS) * SECOND;
      var window := TimeWindow(windowStart, windowEnd);
      var sat := keys[i % |keys|];
      assert sat == job.SatelliteAt(i) && window == job.ObservationWindow(i);
      tasks := tasks + [SatelliteTask(ids(i), sat, Observation(target, sensor), window, [], priority)];
      var downlinkWindow := TimeWindow(windowEnd, windowEnd + DOWNLINK_SECS * SECOND);
      var gs := station(sat, downlinkWindow);
      assert downlinkWindow == job.DownlinkWindow(i) && gs == job.StationFor(i);
      if gs.Some? {
        tasks := tasks + [SatelliteTask(downlinkIds(i), sat, Downlink(gs.value), downlinkWindow, [ids(i)], priority)];
        reservations := reservations + [LinkReservation(linkIds(i), sat, gs.value,
                                                        TerminalOf(constellation, sat, named), named(gs.value),
                                                        downlinkWindow, BandwidthAllocation(1_000_000, window))];
      }
    }
    r := Ok((tasks, reservations));
  }

  lemma {:induction false} ObservationPlanHolds(job: ObservationJob, n: nat, t: SatelliteTask)
    requires job.Valid()
    ensures t in ObservationPlan(job, n) <==>
            exists i: nat :: i < n && (t == ObservationTask(job, i) ||
                                       (job.StationFor(i).Some? && t == DownlinkTask(job, i)))
    decreases n
  {
    if n > 0 {
      ObservationPlanHolds(job, n - 1, t);
      if t in ObservationPlan(job, n) && t !in ObservationPlan(job, n - 1) {
        assert t == ObservationTask(job, n - 1) || (job.StationFor(n - 1).Some? && t == DownlinkTask(job, n - 1));
      }
    }
  }

  /** The plan is placed completely only if no downlink is in it: a downlink needs 600 s and gets 300 s. */
  ghost predicate NoDownlink(job: ObservationJob, n: nat)
    requires job.Valid()
  {
    forall i: nat | i < n :: job.StationFor(i).None?
  }

  lemma ObservationFits(job: ObservationJob, i: nat)
    requires job.Valid()
    ensures var t := ObservationTask(job, i);
            FitsIn(t.kind, t.window.end - t.window.start) <==> job.revisitSecs >= 300
  {
  }

  lemma DownlinkNeverFits(job: ObservationJob, i: nat)
    requires job.Valid() && job.StationFor(i).Some?
    ensures var t := DownlinkTask(job, i);
            t.window.end - t.window.start == 300 * SECOND && Duration(t.kind) == 600 * SECOND
  {
    var t := DownlinkTask(job, i);
    FitsInIff(t.kind, 600 * SECOND);
    FitsInIff(t.kind, 600 * SECOND - 1);
  }

  /**
    An observation plan can be scheduled exactly when it revisits every 300 s or more and no
    ground station is found for any of its downlinks.
   */
  lemma ObservationPlanSucceedsIff(job: ObservationJob, n: nat)
    requires job.Valid() && n >= 1 && DistinctIds(ObservationPlan(job, n))
    ensures Succeeds(State(ObservationPlan(job, n), map[], [])) <==> job.revisitSecs >= 300 && NoDownlink(job, n)
  {
    var s := State(ObservationPlan(job, n), map[], []);
    var ts := TaskSet(s.queue);
    SucceedsIff(s);
    if Succeeds(s) {
      var f :| Fits(ts, map[], f);
      ObservationPlanHolds(job, n, ObservationTask(job, 0));
      ObservationFits(job, 0);
      FitsInIff(ObservationTask(job, 0).kind,
                ObservationTask(job, 0).window.end - ObservationTask(job, 0).window.start);
      assert ObservationTask(job, 0) in ts;
      forall i: nat | i < n ensures job.StationFor(i).None? {
        if job.StationFor(i).Some? {
          ObservationPlanHolds(job, n, DownlinkTask(job, i));
          assert DownlinkTask(job, i) in ts;
          DownlinkNeverFits(job, i);
        }
      }
    }
    if job.revisitSecs >= 300 && NoDownlink(job, n) {
      ObservationsFit(job, n);
    }
  }

  lemma ObservationsFit(job: ObservationJob, n: nat)
    requires job.Valid() && job.revisitSecs >= 300 && NoDownlink(job, n) && DistinctIds(ObservationPlan(job, n))
    ensures Grounded(TaskSet(ObservationPlan(job, n)), map[]) && Feasible(TaskSet(ObservationPlan(job, n)), map[])
  {
    var ts := TaskSet(ObservationPlan(job, n));
    forall t | t in ts ensures Independent(t) {
      ObservationPlanHolds(job, n, t);
      var i: nat :| i < n && t == ObservationTask(job, i);
      ObservationFits(job, i);
      FitsInIff(t.kind, t.window.end - t.window.start);
    }
    forall t, u | t in ts && u in ts && t.id == u.id ensures t == u {
      SameIdSameTask(ObservationPlan(job, n), t, u);
    }
    IndependentTasksFit(ts, map[]);
  }

  ghost predicate Independent(t: SatelliteTask) {
    t.deps == [] && t.window.start + Duration(t.kind) <= t.window.end
  }

  lemma IndependentTasksFit(ts: set<SatelliteTask>, done: map<TaskId, ScheduledTask>)
    requires (forall t | t in ts :: Independent(t)) && forall t, u | t in ts && u in ts && t.id == u.id :: t == u
    ensures Grounded(ts, done) && Feasible(ts, done)
  {
    var ids := set t | t in ts :: t.id;
    var f := map id | id in ids :: StartOf(ts, id);
    var rank: map<TaskId, nat> := map id | id in ids :: 0;
    forall t | t in ts ensures t.id in f && f[t.id] == t.window.start && t.id in rank && Independent(t) {
    }
    assert Ranked(ts, done, rank);
    assert Fits(ts, done, f);
  }

  ghost function StartOf(ts: set<SatelliteTask>, id: TaskId): int
    requires exists t :: t in ts && t.id == id
  {
    var t :| t in ts && t.id == id;
    t.window.start
  }

  lemma InOrderAppend(plan: seq<SatelliteTask>, done: map<TaskId, ScheduledTask>, t: SatelliteTask)
    requires InOrder(plan, done) && forall d | d in t.deps :: exists j :: 0 <= j < |plan| && plan[j].id == d
    ensures InOrder(plan + [t], done)
  {
    var longer := plan + [t];
    forall k, d | 0 <= k < |longer| && d in longer[k].deps
      ensures d in done || exists j :: 0 <= j < k && longer[j].id == d
    {
      if d !in done || k == |plan| {
        assert k < |plan| ==> d in plan[k].deps;
        var j :| 0 <= j < k && plan[j].id == d;
        assert longer[j].id == d;
      }
    }
  }

  lemma {:induction false} ObservationPlanIsInOrder(job: ObservationJob, n: nat)
    requires job.Valid()
    ensures InOrder(ObservationPlan(job, n), map[])
    decreases n
  {
    if n > 0 {
      var front, t := ObservationPlan(job, n - 1), ObservationTask(job, n - 1);
      ObservationPlanIsInOrder(job, n - 1);
      InOrderAppend(front, map[], t);
      if job.StationFor(n - 1).Some? {
        assert (front + [t])[|front|] == t;
        InOrderAppend(front + [t], map[], DownlinkTask(job, n - 1));
      } else {
        assert ObservationPlan(job, n) == front + [t];
      }
    }
  }

  lemma {:induction false} ObservationPlanStarts(job: ObservationJob, n: nat)
    requires job.Valid() && n >= 1
    ensures ObservationPlan(job, n) != [] && ObservationPlan(job, n)[0] == ObservationTask(job, 0)
    decreases n
  {
    if n > 1 {
      ObservationPlanStarts(job, n - 1);
    }
  }

  /** More frequent revisits fail at once: the first observation gets less than the 300 s it needs. */
  lemma ShortRevisitFails(job: ObservationJob, n: nat)
    requires job.Valid() && n >= 1 && job.revisitSecs < 300
    ensures var o := Step(State(ObservationPlan(job, n), map[], []));
            o.Failed? && o.error == WindowExceeded(job.ids(0), 300 * SECOND, job.revisitSecs * SECOND)
  {
    ObservationPlanStarts(job, n);
    var t := ObservationTask(job, 0);
    FitsInIff(t.kind, 300 * SECOND);
    FitsInIff(t.kind, 300 * SECOND - 1);
  }

  /** Each downlink is reserved from its satellite to its station, right after the observation it waits for. */
  lemma DownlinkIsReserved(job: ObservationJob, i: nat)
    requires job.Valid() && job.StationFor(i).Some?
    ensures var o, t, l := ObservationTask(job, i), DownlinkTask(job, i), DownlinkReservation(job, i);
            && t.deps == [o.id] && t.satellite == o.satellite && t.window.start == o.window.end
            && t.kind == Downlink(l.destination) && l.source == t.satellite && l.window == t.window
            && IsTerminalOf(l.terminalA, t.satellite, job.constellation, job.named)
            && l.terminalB == job.named(l.destination)
            && l.bandwidth == BandwidthAllocation(1_000_000, o.window) && l.linkId == job.linkIds(i)
            && o.window.start == job.start + i * job.revisitSecs * SECOND
            && o.window.end - o.window.start == Min(job.revisitSecs, 600) * SECOND
            && o.satellite == job.satellites[i % |job.satellites|] && o.kind == Observation(job.target, job.sensor)
  {
  }

  lemma {:induction false} RunKeepsConsistent(s: State, n: nat)
    requires UniqueIds(s) && Consistent(s.done)
    ensures Consistent(Run(s, n).state.done)
    decreases n
  {
    if n > 0 {
      RunStep(s, n);
      StepKeepsUniqueIds(s);
      StepKeepsConsistent(s);
      if Step(s).Running? {
        RunKeepsConsistent(Step(s).state, n - 1);
      }
    }
  }

  /** Every task in the timeline under the id of a planned task is that task. */
  ghost predicate PlacesOnly(plan: seq<SatelliteTask>, done: map<TaskId, ScheduledTask>) {
    forall id | id in done :: done[id].task in plan
  }

  lemma {:induction false} RunPlacesOnly(plan: seq<SatelliteTask>, s: State, n: nat)
    requires (forall t | t in s.queue :: t in plan) && PlacesOnly(plan, s.done)
    ensures PlacesOnly(plan, Run(s, n).state.done)
    decreases n
  {
    if n > 0 {
      RunStep(s, n);
      if Step(s).Running? {
        RunPlacesOnly(plan, Step(s).state, n - 1);
      }
    }
  }

  lemma SameIdSameTask(plan: seq<SatelliteTask>, t: SatelliteTask, u: SatelliteTask)
    requires DistinctIds(plan) && t in plan && u in plan && t.id == u.id
    ensures t == u
  {
  }

  lemma ObservationPlanStops(job: ObservationJob, n: nat)
    requires job.Valid()
    ensures var plan := ObservationPlan(job, n);
            Succeeds(State(plan, map[], [])) || Run(State(plan, map[], []), |plan| + 1).Failed?
  {
    var plan := ObservationPlan(job, n);
    ObservationPlanIsInOrder(job, n);
    InOrderNeverRequeues(plan, map[], [], |plan| + 1);
    if !Run(State(plan, map[], []), |plan| + 1).Failed? {
      assert FinishesWithin(State(plan, map[], []), |plan| + 1);
    }
  }

  /**
    Otherwise, with revisits of 300 s or more, it fails on a downlink, which needs 600 s and was
    given 300 s.
   */
  lemma ObservationPlanFails(job: ObservationJob, n: nat) returns (i: nat)
    requires job.Valid() && n >= 1 && DistinctIds(ObservationPlan(job, n))
    requires job.revisitSecs >= 300 && !NoDownlink(job, n)
    ensures var plan := ObservationPlan(job, n);
            var o := Run(State(plan, map[], []), |plan| + 1);
            && i < n && job.StationFor(i).Some? && o.Failed?
            && o.error == WindowExceeded(job.downlinkIds(i), 600 * SECOND, 300 * SECOND)
  {
    var plan := ObservationPlan(job, n);
    var s, m := State(plan, map[], []), |plan| + 1;
    ObservationPlanSucceedsIff(job, n);
    ObservationPlanStops(job, n);
    var done, e := Run(s, m).state.done, Run(s, m).error;
    var t := FailureNamesShortage(s, m);
    RunKeepsConsistent(s, m);
    RunPlacesOnly(plan, s, m);
    i := ShortageIsADownlink(job, n, t, done, e);
  }

  lemma ShortageIsADownlink(job: ObservationJob, n: nat, t: SatelliteTask, done: map<TaskId, ScheduledTask>,
                            e: ScheduleError) returns (i: nat)
    requires job.Valid() && job.revisitSecs >= 300 && DistinctIds(ObservationPlan(job, n))
    requires t in ObservationPlan(job, n) && IsShortage(t, done, e)
    requires Consistent(done) && PlacesOnly(ObservationPlan(job, n), done)
    ensures i < n && job.StationFor(i).Some?
    ensures e == WindowExceeded(job.downlinkIds(i), 600 * SECOND, 300 * SECOND)
  {
    ObservationPlanHolds(job, n, t);
    i :| i < n && (t == ObservationTask(job, i) || (job.StationFor(i).Some? && t == DownlinkTask(job, i)));
    FitsInIff(t.kind, e.required);
    FitsInIff(t.kind, e.required - 1);
    if t == ObservationTask(job, i) {
      ObservationFits(job, i);
    } else {
      DownlinkNeverFits(job, i);
      var d := job.ids(i);
      assert d in t.deps && d in done;
      ObservationPlanHolds(job, n, ObservationTask(job, i));
      SameIdSameTask(ObservationPlan(job, n), ObservationTask(job, i), done[d].task);
      assert done[d].end <= job.ObservationWindow(i).end;
    }
  }
}
