/**
  The schedule optimizer: simulated annealing over a horizon and a greedy re-optimization of
  the passes that have not started. Random numbers, clock readings, fresh ids and the
  annealer's coin are the fields of a `Draw`; a property proved for every draw holds for every
  sequence of random choices.
 */
module Optimizer {
  import opened Timeline
  import opened PassSchedule

  datatype SlaTier = BestEffort | Standard | Premium | MissionCritical {
    predicate RequiresShadow() {
      Premium? || MissionCritical?
    }
  }

  datatype PassRequest = PassRequest(
    requestId: string, customer: string, satellite: string, window: PassWindow, slaTier: SlaTier)

  datatype HardwareConfig = HardwareConfig(
    sdrDevices: seq<DeviceId>, shadowSdrDevices: seq<DeviceId>, antennaIds: seq<DeviceId>, rotatorIds: seq<DeviceId>)

  datatype Schedule = Schedule(passes: seq<ScheduledPass>, horizonStart: int, horizonEnd: int, version: nat)

  /** The fairness and reputation statistics that enter the score. */
  datatype Standing = Standing(fairnessGap: real, avgReputation: real)

  /** What one iteration draws: random numbers, clock, fresh id, the annealer's coin, the timeout. */
  datatype Draw = Draw(
    index: nat, operation: nat, shift: int, later: bool, antenna: nat,
    now: int, freshId: string, coin: bool, timedOut: bool)

  // ---------------------------------------------------------------- moves

  /** Remainder with the sign of the dividend. */
  function TruncRem(a: int, m: int): (r: int)
    requires m > 0
    ensures -m < r < m
  {
    if a >= 0 then a % m else -((-a) % m)
  }

  function ShiftMinutes(random: int): (minutes: int)
    ensures 0 <= minutes <= 10
  {
    var m := TruncRem(random, 10) + 1;
    if m >= 0 then m else -m
  }

  /**
    The move is documented as one to five minutes. Absolute value is taken after adding one, so
    a draw stays in that range exactly for these remainders; -1 gives no shift and 9 gives ten.
   */
  lemma ShiftAsDocumentedIff(random: int)
    ensures 1 <= ShiftMinutes(random) <= 5 <==>
            0 <= TruncRem(random, 10) <= 4 || -6 <= TruncRem(random, 10) <= -2
    ensures ShiftMinutes(-1) == 0 && ShiftMinutes(9) == 10
  {
  }

  function ShiftTimeSlot(p: ScheduledPass, draw: Draw): (p': ScheduledPass) {
    var shift := ShiftMinutes(draw.shift) * MINUTE;
    var newStart := if draw.later then p.window.start + shift else p.window.start - shift;
    var newEnd := newStart + (p.window.end - p.window.start);
    if newStart > draw.now && newEnd < p.window.end + 60 * MINUTE
    then p.(window := p.window.(start := newStart, end := newEnd))
    else p
  }

  /** A shifted pass moves by at most ten minutes, keeps its length and starts in the future. */
  lemma ShiftIsBounded(p: ScheduledPass, draw: Draw)
    ensures var w, w' := p.window, ShiftTimeSlot(p, draw).window;
            && ShiftTimeSlot(p, draw) == p.(window := w')
            && w'.Duration() == w.Duration() && w'.minDurationSec == w.minDurationSec
            && -10 * MINUTE <= w'.start - w.start <= 10 * MINUTE
            && (w' != w ==> w'.start > draw.now && (w'.start > w.start <==> draw.later))
  {
  }

  /** The drawn minutes are added or taken off whenever that starts in the future; the hour's guard never refuses. */
  lemma ShiftIsExact(p: ScheduledPass, draw: Draw)
    ensures var back := (-draw.shift) % 10;
            var minutes := if draw.shift >= 0 then draw.shift % 10 + 1 else if back == 0 then 1 else back - 1;
            var target := p.window.start + (if draw.later then minutes else -minutes) * 60 * SECOND;
            ShiftTimeSlot(p, draw).window.start == if target > draw.now then target else p.window.start
  {
  }

  function PositionOf(ids: seq<DeviceId>, id: DeviceId): (k: Option<nat>)
    ensures k.Some? ==> k.value < |ids| && ids[k.value] == id && id !in ids[..k.value]
    ensures k.None? ==> id !in ids
  {
    if ids == [] then None
    else if ids[0] == id then Some(0)
    else match PositionOf(ids[1..], id)
      case None => None
      case Some(k) => Some(k + 1)
  }

  function ReallocateHardware(config: HardwareConfig, p: ScheduledPass, draw: Draw): (p': ScheduledPass) {
    if config.sdrDevices == [] then p
    else
      var own := p.hardware.sdrDevices;
      var current := if own == [] then None else PositionOf(config.sdrDevices, own[0]);
      var next := ((if current.Some? then current.value else 0) + 1) % |config.sdrDevices|;
      var h := p.hardware.(sdrDevices := [config.sdrDevices[next]]);
      p.(hardware := if config.antennaIds == [] then h
                     else h.(antenna := config.antennaIds[draw.antenna % |config.antennaIds|]))
  }

  /** A reallocated pass keeps its shadow and rotator; its antenna stays or comes from the pool. */
  lemma ReallocationKeepsRest(config: HardwareConfig, p: ScheduledPass, draw: Draw)
    ensures var h, h' := p.hardware, ReallocateHardware(config, p, draw).hardware;
            && ReallocateHardware(config, p, draw) == p.(hardware := h')
            && h'.shadowSdr == h.shadowSdr && h'.rotator == h.rotator
            && (h'.antenna == h.antenna || h'.antenna in config.antennaIds)
            && (config.sdrDevices != [] && config.antennaIds != [] ==>
                  h'.antenna == config.antennaIds[draw.antenna % |config.antennaIds|])
            && (config.sdrDevices == [] ==> h' == h)
  {
  }

  /** It moves on to the next SDR of the pool, around the end. */
  lemma ReallocationRotates(config: HardwareConfig, p: ScheduledPass, draw: Draw, k: nat)
    requires Distinct(config.sdrDevices) && k < |config.sdrDevices| && p.hardware.sdrDevices == [config.sdrDevices[k]]
    ensures ReallocateHardware(config, p, draw).hardware.sdrDevices ==
            [config.sdrDevices[if k + 1 == |config.sdrDevices| then 0 else k + 1]]
  {
    PositionIsUnique(config.sdrDevices, k);
    NextInPool(k, |config.sdrDevices|);
  }

  /** From an SDR the pool does not have it moves to the second one, if there is one. */
  lemma ReallocationFromOutside(config: HardwareConfig, p: ScheduledPass, draw: Draw)
    requires config.sdrDevices != [] && (p.hardware.sdrDevices == [] || p.hardware.sdrDevices[0] !in config.sdrDevices)
    ensures ReallocateHardware(config, p, draw).hardware.sdrDevices ==
            [config.sdrDevices[if |config.sdrDevices| == 1 then 0 else 1]]
  {
    NextInPool(0, |config.sdrDevices|);
  }

  lemma NextInPool(k: nat, n: nat)
    requires k < n
    ensures (k + 1) % n == if k + 1 == n then 0 else k + 1
  {
  }

  lemma PositionIsUnique(ids: seq<DeviceId>, k: nat)
    requires Distinct(ids) && k < |ids|
    ensures PositionOf(ids, ids[k]) == Some(k)
  {
  }

  function FirstOr(ids: seq<DeviceId>, default: DeviceId): (id: DeviceId) {
    if ids == [] then default else ids[0]
  }

  function CreatePass(config: HardwareConfig, r: PassRequest, freshId: string, now: int): (p: ScheduledPass) {
    ScheduledPass(
      freshId, r.requestId, r.customer, r.satellite, r.window,
      HardwareAllocation(
        [FirstOr(config.sdrDevices, "sdr-0")],
        if r.slaTier.RequiresShadow() && config.shadowSdrDevices != [] then Some(config.shadowSdrDevices[0]) else None,
        FirstOr(config.antennaIds, "antenna-0"),
        FirstOr(config.rotatorIds, "rotator-0")),
      now, Scheduled, None)
  }

  predicate HasRequest(passes: seq<ScheduledPass>, requestId: string) {
    exists p | p in passes :: p.requestId == requestId
  }

  function FirstUnscheduled(passes: seq<ScheduledPass>, requests: seq<PassRequest>): (r: Option<PassRequest>)
    ensures r.None? <==> forall q | q in requests :: HasRequest(passes, q.requestId)
    ensures r.Some? ==> r.value in requests && !HasRequest(passes, r.value.requestId)
  {
    if requests == [] then None
    else if !HasRequest(passes, requests[0].requestId) then Some(requests[0])
    else FirstUnscheduled(passes, requests[1..])
  }

  function Swap(passes: seq<ScheduledPass>, k: nat): (passes': seq<ScheduledPass>)
    requires 0 < k < |passes|
  {
    passes[k := passes[k - 1]][k - 1 := passes[k]]
  }

  function GenerateNeighbor(config: HardwareConfig, passes: seq<ScheduledPass>, requests: seq<PassRequest>, draw: Draw)
    : (neighbor: seq<ScheduledPass>)
  {
    if passes == [] then
      if requests == [] then [] else [CreatePass(config, requests[0], draw.freshId, draw.now)]
    else
      var idx := draw.index % |passes|;
      var operation := draw.operation % 4;
      if operation == 0 then passes[idx := ShiftTimeSlot(passes[idx], draw)]
      else if operation == 1 then passes[idx := ReallocateHardware(config, passes[idx], draw)]
      else if operation == 2 then if idx == 0 then passes else Swap(passes, idx)
      else match FirstUnscheduled(passes, requests)
        case None => passes
        case Some(r) => passes + [CreatePass(config, r, draw.freshId, draw.now)]
  }

  /** The pass is for this request and nothing about it is changed. */
  ghost predicate IsFor(p: ScheduledPass, r: PassRequest) {
    p.requestId == r.requestId && p.customer == r.customer && p.satellite == r.satellite && p.window == r.window
  }

  /** A new pass is as requested, and has a shadow exactly for the two upper tiers when the pool has one. */
  lemma CreatedPass(config: HardwareConfig, r: PassRequest, freshId: string, now: int)
    ensures var p := CreatePass(config, r, freshId, now);
            && IsFor(p, r) && p.passId == freshId && p.scheduledAt == now && p.status == Scheduled && p.keyhole == None
            && (p.hardware.shadowSdr.Some? <==>
                (r.slaTier == Premium || r.slaTier == MissionCritical) && |config.shadowSdrDevices| > 0)
            && (p.hardware.shadowSdr.Some? ==> p.hardware.shadowSdr.value == config.shadowSdrDevices[0])
            && p.hardware.sdrDevices == [if |config.sdrDevices| > 0 then config.sdrDevices[0] else "sdr-0"]
            && p.hardware.antenna == (if |config.antennaIds| > 0 then config.antennaIds[0] else "antenna-0")
            && p.hardware.rotator == (if |config.rotatorIds| > 0 then config.rotatorIds[0] else "rotator-0")
  {
  }

  /** Request `k` is the first in the list that no pass is for. */
  ghost predicate IsFirstUnscheduled(passes: seq<ScheduledPass>, requests: seq<PassRequest>, k: nat) {
    && k < |requests| && (forall p | p in passes :: p.requestId != requests[k].requestId)
    && forall j | 0 <= j < k :: exists p :: p in passes && p.requestId == requests[j].requestId
  }

  lemma {:induction false} FirstUnscheduledIsFirst(passes: seq<ScheduledPass>, requests: seq<PassRequest>)
    ensures var r := FirstUnscheduled(passes, requests);
            r.Some? ==> exists k: nat :: IsFirstUnscheduled(passes, requests, k) && requests[k] == r.value
    decreases |requests|
  {
    var r := FirstUnscheduled(passes, requests);
    if r.Some? {
      if !HasRequest(passes, requests[0].requestId) {
        assert IsFirstUnscheduled(passes, requests, 0);
      } else {
        FirstUnscheduledIsFirst(passes, requests[1..]);
        var k: nat :| IsFirstUnscheduled(passes, requests[1..], k) && requests[1..][k] == r.value;
        forall j | 0 <= j < k + 1 ensures exists p :: p in passes && p.requestId == requests[j].requestId {
          assert j > 0 ==> requests[j] == requests[1..][j - 1];
        }
        assert IsFirstUnscheduled(passes, requests, k + 1);
      }
    }
  }

  /** An empty schedule gets the first request, and the adding move the first one not yet scheduled. */
  lemma NeighborAdds(config: HardwareConfig, passes: seq<ScheduledPass>, requests: seq<PassRequest>, draw: Draw)
    ensures var n := GenerateNeighbor(config, passes, requests, draw);
            && (passes == [] && requests != [] ==> |n| == 1 && IsFor(n[0], requests[0]))
            && (passes == [] && requests == [] ==> n == [])
            && (passes != [] && draw.operation % 4 == 3 ==>
                  (n == passes && forall r | r in requests :: HasRequest(passes, r.requestId)) ||
                  exists k: nat :: IsFirstUnscheduled(passes, requests, k) && |n| == |passes| + 1 &&
                              n[..|passes|] == passes && IsFor(n[|passes|], requests[k]))
  {
    FirstUnscheduledIsFirst(passes, requests);
  }

  /** The other three moves keep every pass but one, and of that one what they are not about. */
  lemma NeighborEdits(config: HardwareConfig, passes: seq<ScheduledPass>, requests: seq<PassRequest>, draw: Draw)
    requires passes != [] && draw.operation % 4 != 3
    ensures var n, k := GenerateNeighbor(config, passes, requests, draw), draw.index % |passes|;
            && |n| == |passes|
            && (draw.operation % 4 == 0 ==> n == passes[k := passes[k].(window := n[k].window)] &&
                                            n[k] == ShiftTimeSlot(passes[k], draw))
            && (draw.operation % 4 == 1 ==> n == passes[k := passes[k].(hardware := n[k].hardware)] &&
                                            n[k] == ReallocateHardware(config, passes[k], draw))
            && (draw.operation % 4 == 2 ==> multiset(n) == multiset(passes) &&
                                            (k > 0 ==> n[k - 1] == passes[k] && n[k] == passes[k - 1]) &&
                                            forall i | 0 <= i < |passes| && i != k && i != k - 1 :: n[i] == passes[i])
  {
    ShiftIsBounded(passes[draw.index % |passes|], draw);
    ReallocationKeepsRest(config, passes[draw.index % |passes|], draw);
  }

  // ---------------------------------------------------------------- what the moves keep

  /** A pass without its position in time and its hardware. */
  datatype Identity = Identity(
    passId: string, requestId: string, customer: string, satellite: string,
    duration: int, minDurationSec: nat, scheduledAt: int, status: PassStatus, keyhole: Option<KeyholeWarning>)

  function IdentityOf(p: ScheduledPass): (id: Identity) {
    Identity(p.passId, p.requestId, p.customer, p.satellite, p.window.Duration(), p.window.minDurationSec,
             p.scheduledAt, p.status, p.keyhole)
  }

  function Identities(passes: seq<ScheduledPass>): (ids: seq<Identity>)
    ensures |ids| == |passes| && forall i | 0 <= i < |passes| :: ids[i] == IdentityOf(passes[i])
  {
    seq(|passes|, i requires 0 <= i < |passes| => IdentityOf(passes[i]))
  }

  /** The three things a neighbour can be. */
  ghost predicate Edited(passes: seq<ScheduledPass>, neighbor: seq<ScheduledPass>) {
    Identities(neighbor) == Identities(passes)
  }

  ghost predicate Swapped(passes: seq<ScheduledPass>, neighbor: seq<ScheduledPass>) {
    exists k: nat :: 0 < k < |passes| && neighbor == Swap(passes, k)
  }

  ghost predicate Added(config: HardwareConfig, passes: seq<ScheduledPass>, neighbor: seq<ScheduledPass>,
                        requests: seq<PassRequest>, draw: Draw)
  {
    exists r :: r in requests && !HasRequest(passes, r.requestId) &&
                neighbor == passes + [CreatePass(config, r, draw.freshId, draw.now)]
  }

  lemma NeighborCases(config: HardwareConfig, passes: seq<ScheduledPass>, requests: seq<PassRequest>, draw: Draw)
    ensures var n := GenerateNeighbor(config, passes, requests, draw);
            Edited(passes, n) || Swapped(passes, n) || Added(config, passes, n, requests, draw)
  {
  }

  ghost predicate DistinctRequests(passes: seq<ScheduledPass>) {
    forall i, j | 0 <= i < j < |passes| :: passes[i].requestId != passes[j].requestId
  }

  /** The identity a request would be scheduled under. */
  ghost predicate From(id: Identity, requests: seq<PassRequest>) {
    exists r :: r in requests && id.requestId == r.requestId && id.customer == r.customer &&
                id.satellite == r.satellite && id.duration == r.window.Duration() &&
                id.minDurationSec == r.window.minDurationSec && id.status == Scheduled && id.keyhole == None
  }

  /** `s` still holds every pass of `start`, whole and unstretched, and otherwise only requests. */
  ghost predicate Descends(start: seq<ScheduledPass>, s: seq<ScheduledPass>, requests: seq<PassRequest>) {
    && multiset(Identities(start)) <= multiset(Identities(s))
    && (forall id | id in Identities(s) :: id in Identities(start) || From(id, requests))
    && (DistinctRequests(start) ==> DistinctRequests(s))
  }

  lemma SwapIsPermutation(passes: seq<ScheduledPass>, k: nat)
    requires 0 < k < |passes|
    ensures multiset(Identities(Swap(passes, k))) == multiset(Identities(passes))
  {
    var a, b := Identities(passes), Identities(Swap(passes, k));
    assert b == a[k := a[k - 1]][k - 1 := a[k]];
  }

  lemma IdentityMembers(s: seq<ScheduledPass>, t: seq<ScheduledPass>)
    requires multiset(Identities(s)) == multiset(Identities(t))
    ensures forall id :: id in Identities(s) <==> id in Identities(t)
  {
    assert forall id :: id in Identities(s) <==> id in multiset(Identities(s));
    assert forall id :: id in Identities(t) <==> id in multiset(Identities(t));
  }

  lemma EditKeepsRequests(s: seq<ScheduledPass>, t: seq<ScheduledPass>)
    requires Identities(s) == Identities(t)
    ensures forall i | 0 <= i < |s| :: s[i].requestId == t[i].requestId
  {
  }

  lemma NeighborDescends(config: HardwareConfig, start: seq<ScheduledPass>, s: seq<ScheduledPass>,
                         requests: seq<PassRequest>, draw: Draw)
    requires Descends(start, s, requests)
    ensures Descends(start, GenerateNeighbor(config, s, requests, draw), requests)
  {
    var n := GenerateNeighbor(config, s, requests, draw);
    NeighborCases(config, s, requests, draw);
    if Edited(s, n) {
      EditKeepsRequests(s, n);
    } else if Swapped(s, n) {
      var k: nat :| 0 < k < |s| && n == Swap(s, k);
      SwapDescends(start, s, requests, k);
    } else {
      var r :| r in requests && !HasRequest(s, r.requestId) && n == s + [CreatePass(config, r, draw.freshId, draw.now)];
      AdditionDescends(config, start, s, requests, r, draw);
    }
  }

  lemma SwapDescends(start: seq<ScheduledPass>, s: seq<ScheduledPass>, requests: seq<PassRequest>, k: nat)
    requires Descends(start, s, requests) && 0 < k < |s|
    ensures Descends(start, Swap(s, k), requests)
  {
    SwapIsPermutation(s, k);
    IdentityMembers(Swap(s, k), s);
  }

  lemma AdditionDescends(config: HardwareConfig, start: seq<ScheduledPass>, s: seq<ScheduledPass>,
                         requests: seq<PassRequest>, r: PassRequest, draw: Draw)
    requires Descends(start, s, requests) && r in requests && !HasRequest(s, r.requestId)
    ensures Descends(start, s + [CreatePass(config, r, draw.freshId, draw.now)], requests)
  {
    var p := CreatePass(config, r, draw.freshId, draw.now);
    assert Identities(s + [p]) == Identities(s) + [IdentityOf(p)];
    assert From(IdentityOf(p), requests);
  }

  // ---------------------------------------------------------------- the score

  function SumOf(passes: seq<ScheduledPass>, weight: ScheduledPass -> real): (sum: real) {
    if passes == [] then 0.0 else SumOf(passes[..|passes| - 1], weight) + weight(passes[|passes| - 1])
  }

  /** A pass counts as fulfilled when it lasts five minutes. */
  function Fulfilled(p: ScheduledPass): (w: real) {
    var secs := NumSeconds(p.window.Duration());
    if secs >= 300 || -secs >= 300 then 1.0 else 0.0
  }

  function KeyholePenalty(p: ScheduledPass): (w: real) {
    match p.keyhole
    case None => 0.0
    case Some(k) => if k.handoffScheduled then -(k.lossFraction * 100.0) * 0.3 else -(k.lossFraction * 100.0)
  }

  ghost function Score(standing: Standing, passes: seq<ScheduledPass>): real {
    (1.0 - standing.fairnessGap) * 100.0 + standing.avgReputation * 50.0
    - (|Clashes(passes)| as real) * 200.0
    + (if passes == [] then 0.0 else SumOf(passes, Fulfilled) / (|passes| as real)) * 30.0
    + SumOf(passes, KeyholePenalty)
  }

  /** The conflict check visits its map in arbitrary order, yet the score is a function of the schedule. */
  method EvaluateSchedule(standing: Standing, passes: seq<ScheduledPass>) returns (score: real)
    ensures score == Score(standing, passes)
  {
    score := (1.0 - standing.fairnessGap) * 100.0 + standing.avgReputation * 50.0;
    var conflicts, _ := CheckConflicts(passes);
    score := score - (|conflicts| as real) * 200.0;
    var fulfilled, penalty := 0.0, 0.0;
    for i := 0 to |passes|
      invariant fulfilled == SumOf(passes[..i], Fulfilled) && penalty == SumOf(passes[..i], KeyholePenalty)
    {
      assert passes[..i + 1][..i] == passes[..i];
      fulfilled, penalty := fulfilled + Fulfilled(passes[i]), penalty + KeyholePenalty(passes[i]);
    }
    assert passes[..|passes|] == passes;
    score := score + (if passes == [] then 0.0 else fulfilled / (|passes| as real)) * 30.0 + penalty;
  }

  lemma {:induction false} SumSplits(xs: seq<ScheduledPass>, ys: seq<ScheduledPass>, weight: ScheduledPass -> real)
    ensures SumOf(xs + ys, weight) == SumOf(xs, weight) + SumOf(ys, weight)
    decreases |ys|
  {
    if ys == [] {
      assert xs + ys == xs;
    } else {
      var n := |ys| - 1;
      assert (xs + ys)[..|xs + ys| - 1] == xs + ys[..n];
      SumSplits(xs, ys[..n], weight);
    }
  }

  lemma SumOfTwo(a: ScheduledPass, b: ScheduledPass, weight: ScheduledPass -> real)
    ensures SumOf([a, b], weight) == weight(a) + weight(b)
  {
    var one, two := [a], [a, b];
    assert one[..|one| - 1] == [] && two[..|two| - 1] == one;
    assert SumOf(one, weight) == weight(a);
  }

  lemma SumAround(pre: seq<ScheduledPass>, mid: seq<ScheduledPass>, post: seq<ScheduledPass>,
                  weight: ScheduledPass -> real)
    ensures SumOf(pre + mid + post, weight) == SumOf(pre, weight) + SumOf(mid, weight) + SumOf(post, weight)
  {
    SumSplits(pre + mid, post, weight);
    SumSplits(pre, mid, weight);
  }

  lemma SwapShape(passes: seq<ScheduledPass>, k: nat)
    requires 0 < k < |passes|
    ensures passes == passes[..k - 1] + [passes[k - 1], passes[k]] + passes[k + 1..]
    ensures Swap(passes, k) == passes[..k - 1] + [passes[k], passes[k - 1]] + passes[k + 1..]
  {
  }

  lemma SumIgnoresSwapInPlace(pre: seq<ScheduledPass>, a: ScheduledPass, b: ScheduledPass, post: seq<ScheduledPass>,
                              weight: ScheduledPass -> real)
    ensures SumOf(pre + [b, a] + post, weight) == SumOf(pre + [a, b] + post, weight)
  {
    SumAround(pre, [a, b], post, weight);
    SumAround(pre, [b, a], post, weight);
    SumOfTwo(a, b, weight);
    SumOfTwo(b, a, weight);
  }

  lemma SumIgnoresSwap(passes: seq<ScheduledPass>, k: nat, weight: ScheduledPass -> real)
    requires 0 < k < |passes|
    ensures SumOf(Swap(passes, k), weight) == SumOf(passes, weight)
  {
    SwapShape(passes, k);
    SumIgnoresSwapInPlace(passes[..k - 1], passes[k - 1], passes[k], passes[k + 1..], weight);
  }

  lemma {:induction false} SumFollowsIdentity(s: seq<ScheduledPass>, t: seq<ScheduledPass>)
    requires Identities(s) == Identities(t)
    ensures SumOf(s, Fulfilled) == SumOf(t, Fulfilled) && SumOf(s, KeyholePenalty) == SumOf(t, KeyholePenalty)
    decreases |s|
  {
    if s == [] {
    } else {
      var n := |s| - 1;
      assert Identities(s)[n] == Identities(t)[n];
      assert Identities(s[..n]) == Identities(s)[..n] == Identities(t)[..n] == Identities(t[..n]);
      SumFollowsIdentity(s[..n], t[..n]);
    }
  }

  // ---------------------------------------------------------------- the score ignores order

  function SwapIndex(k: nat, i: nat): (j: nat)
    requires k > 0
  {
    if i == k then k - 1 else if i == k - 1 then k else i
  }

  function SwapPair(k: nat, p: (nat, nat)): (q: (nat, nat))
    requires k > 0
  {
    var a, b := SwapIndex(k, p.0), SwapIndex(k, p.1);
    if a <= b then (a, b) else (b, a)
  }

  lemma ClashesMoveWithSwap(passes: seq<ScheduledPass>, k: nat, p: (nat, nat))
    requires 0 < k < |passes| && p in Clashes(passes)
    ensures SwapPair(k, p) in Clashes(Swap(passes, k)) && SwapPair(k, SwapPair(k, p)) == p
  {
  }

  lemma {:induction false} SwapMapsInto(k: nat, a: set<(nat, nat)>, b: set<(nat, nat)>)
    requires k > 0 && forall p | p in a :: SwapPair(k, p) in b && SwapPair(k, SwapPair(k, p)) == p
    ensures |a| <= |b|
    decreases |a|
  {
    if a == {} {
    } else {
      var p :| p in a;
      var q := SwapPair(k, p);
      forall x | x in a - {p} ensures SwapPair(k, x) in b - {q} {
      }
      SwapMapsInto(k, a - {p}, b - {q});
    }
  }

  lemma SwapTwice(passes: seq<ScheduledPass>, k: nat)
    requires 0 < k < |passes|
    ensures Swap(Swap(passes, k), k) == passes
  {
  }

  /** Reordering passes does not change the score, so the preemption move never improves it. */
  lemma SwapKeepsScore(standing: Standing, passes: seq<ScheduledPass>, k: nat)
    requires 0 < k < |passes|
    ensures Score(standing, Swap(passes, k)) == Score(standing, passes)
  {
    var s' := Swap(passes, k);
    forall p | p in Clashes(passes) ensures SwapPair(k, p) in Clashes(s') && SwapPair(k, SwapPair(k, p)) == p {
      ClashesMoveWithSwap(passes, k, p);
    }
    forall p | p in Clashes(s') ensures SwapPair(k, p) in Clashes(passes) && SwapPair(k, SwapPair(k, p)) == p {
      ClashesMoveWithSwap(s', k, p);
      SwapTwice(passes, k);
    }
    SwapMapsInto(k, Clashes(passes), Clashes(s'));
    SwapMapsInto(k, Clashes(s'), Clashes(passes));
    SumIgnoresSwap(passes, k, Fulfilled);
    SumIgnoresSwap(passes, k, KeyholePenalty);
  }

  /** Between schedules with the same identities the score counts conflicts and nothing else. */
  lemma ScoreCountsConflicts(standing: Standing, s: seq<ScheduledPass>, t: seq<ScheduledPass>)
    requires Identities(s) == Identities(t)
    ensures Score(standing, s) > Score(standing, t) <==> |Clashes(s)| < |Clashes(t)|
  {
    SumFollowsIdentity(s, t);
    assert |s| == |Identities(s)| == |t|;
  }

  // ---------------------------------------------------------------- what the score pays

  /** Five minutes of window, in either direction. */
  predicate LastsFiveMinutes(w: PassWindow) {
    w.end - w.start >= 300 * SECOND || w.start - w.end >= 300 * SECOND
  }

  lemma FulfilledIff(p: ScheduledPass)
    ensures Fulfilled(p) == if LastsFiveMinutes(p.window) then 1.0 else 0.0
  {
  }

  /** The passes that last five minutes. */
  ghost function Lasting(passes: seq<ScheduledPass>): nat {
    |LastingPasses(passes)|
  }

  ghost function LastingPasses(passes: seq<ScheduledPass>): set<int> {
    set i | 0 <= i < |passes| && LastsFiveMinutes(passes[i].window)
  }

  lemma {:induction false} FulfilledCounts(passes: seq<ScheduledPass>)
    ensures SumOf(passes, Fulfilled) == Lasting(passes) as real
    decreases |passes|
  {
    if passes != [] {
      var n := |passes| - 1;
      FulfilledCounts(passes[..n]);
      FulfilledIff(passes[n]);
      OneMoreLasting(passes);
    } else {
      assert LastingPasses(passes) == {};
    }
  }

  lemma OneMoreLasting(passes: seq<ScheduledPass>)
    requires passes != []
    ensures var n := |passes| - 1;
            Lasting(passes) == Lasting(passes[..n]) + if LastsFiveMinutes(passes[n].window) then 1 else 0
  {
    var n := |passes| - 1;
    var before := LastingPasses(passes[..n]);
    assert n !in before;
    assert LastingPasses(passes) == if LastsFiveMinutes(passes[n].window) then before + {n} else before;
  }

  /** What the two statistics, the conflicts, the share of lasting passes and the keyholes contribute. */
  lemma ScoreIs(standing: Standing, passes: seq<ScheduledPass>)
    ensures var share := if passes == [] then 0.0 else Lasting(passes) as real / |passes| as real;
            Score(standing, passes) ==
            100.0 - 100.0 * standing.fairnessGap + 50.0 * standing.avgReputation
            - 200.0 * |Clashes(passes)| as real + 30.0 * share + SumOf(passes, KeyholePenalty)
  {
    FulfilledCounts(passes);
  }

  /** A keyhole warning costs a hundred times the fraction lost, and thirty with a handoff. */
  lemma KeyholeCosts(standing: Standing, passes: seq<ScheduledPass>, k: nat, warning: KeyholeWarning)
    requires k < |passes| && passes[k].keyhole == None
    ensures Score(standing, passes[k := passes[k].(keyhole := Some(warning))]) ==
            Score(standing, passes) - (if warning.handoffScheduled then 30.0 else 100.0) * warning.lossFraction
  {
    var warned := passes[k := passes[k].(keyhole := Some(warning))];
    ReplacedSum(passes, k, warned[k], Fulfilled);
    ReplacedSum(passes, k, warned[k], KeyholePenalty);
    SameClashes(passes, warned);
  }

  lemma SameClashes(s: seq<ScheduledPass>, t: seq<ScheduledPass>)
    requires |s| == |t| && forall i | 0 <= i < |s| :: s[i].window == t[i].window && s[i].hardware == t[i].hardware
    ensures Clashes(s) == Clashes(t)
  {
    forall a: nat, b: nat | a <= b < |s| ensures Clash(s, a, b) <==> Clash(t, a, b) {
    }
  }

  lemma {:induction false} ReplacedSum(passes: seq<ScheduledPass>, k: nat, p: ScheduledPass,
                                       weight: ScheduledPass -> real)
    requires k < |passes|
    ensures SumOf(passes[k := p], weight) == SumOf(passes, weight) - weight(passes[k]) + weight(p)
    decreases |passes|
  {
    var n := |passes| - 1;
    var replaced := passes[k := p];
    if k < n {
      ReplacedSum(passes[..n], k, p, weight);
      assert replaced[..n] == passes[..n][k := p];
    } else {
      assert replaced[..n] == passes[..n];
    }
  }

  /** A first pass pays exactly when it lasts five minutes and does not clash with itself. */
  lemma FirstPassPaysIff(standing: Standing, p: ScheduledPass)
    requires p.keyhole == None
    ensures Score(standing, [p]) > Score(standing, []) <==>
            LastsFiveMinutes(p.window) && (Distinct(Devices(p.hardware)) || p.window.end <= p.window.start)
  {
    ScoreIs(standing, [p]);
    ScoreIs(standing, []);
    assert LastingPasses([p]) == if LastsFiveMinutes(p.window) then {0} else {};
    assert SumOf([p], KeyholePenalty) == 0.0 by { assert [p][..0] == []; }
    assert Clashes([]) == {};
    ListsTwiceIff(p.hardware);
    var clashes: bool := p.window.start < p.window.end && !Distinct(Devices(p.hardware));
    assert (0, 0) in Clashes([p]) <==> clashes;
    assert forall x | x in Clashes([p]) :: x == (0, 0);
    assert Clashes([p]) == if clashes then {(0, 0)} else {};
  }

  /** Passes made from requests that last less than five minutes never score above an empty schedule. */
  lemma ShortRequestsDoNotPay(standing: Standing, s: seq<ScheduledPass>, requests: seq<PassRequest>)
    requires Descends([], s, requests) && forall r | r in requests :: !LastsFiveMinutes(r.window)
    ensures Score(standing, s) <= Score(standing, [])
  {
    forall p | p in s ensures !LastsFiveMinutes(p.window) && p.keyhole == None {
      var i :| 0 <= i < |s| && s[i] == p;
      assert Identities(s)[i] in Identities(s) && Identities([]) == [];
      assert From(IdentityOf(p), requests);
    }
    ShortPassesDoNotPay(standing, s);
  }

  lemma ShortPassesDoNotPay(standing: Standing, s: seq<ScheduledPass>)
    requires forall p | p in s :: !LastsFiveMinutes(p.window) && p.keyhole == None
    ensures Score(standing, s) <= Score(standing, [])
  {
    assert LastingPasses(s) == {};
    NoKeyholeNoPenalty(s);
    NoKeyholeNoPenalty([]);
    ScoreIs(standing, s);
    ScoreIs(standing, []);
    assert Clashes([]) == {};
  }

  lemma {:induction false} NoKeyholeNoPenalty(s: seq<ScheduledPass>)
    requires forall p | p in s :: p.keyhole == None
    ensures SumOf(s, KeyholePenalty) == 0.0
    decreases |s|
  {
    if s != [] {
      assert s[|s| - 1] in s;
      NoKeyholeNoPenalty(s[..|s| - 1]);
    }
  }

  // ---------------------------------------------------------------- simulated annealing

  /** The first request lasts five minutes and the pool's first devices for it are distinct. */
  ghost predicate FirstPays(config: HardwareConfig, requests: seq<PassRequest>) {
    requests != [] && LastsFiveMinutes(requests[0].window) &&
    Distinct(Devices(CreatePass(config, requests[0], "", 0).hardware))
  }

  lemma FirstMovePays(standing: Standing, config: HardwareConfig, requests: seq<PassRequest>, draw: Draw)
    requires FirstPays(config, requests)
    ensures Score(standing, GenerateNeighbor(config, [], requests, draw)) > Score(standing, [])
  {
    var p := CreatePass(config, requests[0], draw.freshId, draw.now);
    assert p.hardware == CreatePass(config, requests[0], "", 0).hardware;
    FirstPassPaysIff(standing, p);
  }

  /**
    For every stream of draws and any timeout the result scores at least as high as the start,
    keeps each starting pass with its duration, adds only requests, and schedules no request
    twice if the start did not. `rolledBack` tells whether the rollback branch was taken.
    From an empty start something is scheduled as soon as the first request pays for itself and
    one iteration runs; nothing is, whatever the draws, if no request lasts five minutes.
   */
  method Optimize(standing: Standing, config: HardwareConfig, maxIterations: nat, requests: seq<PassRequest>,
                  horizonStart: int, horizonEnd: int, existing: Option<Schedule>, draws: nat -> Draw)
    returns (result: Schedule, ghost rolledBack: bool)
    ensures !rolledBack
    ensures var start := if existing.Some? then existing.value.passes else [];
            && Score(standing, result.passes) >= Score(standing, start)
            && Descends(start, result.passes, requests)
            && (start == [] && maxIterations > 0 && !draws(0).timedOut && FirstPays(config, requests) ==>
                  result.passes != [])
            && (start == [] && (forall r | r in requests :: !LastsFiveMinutes(r.window)) ==> result.passes == [])
    ensures result.horizonStart == horizonStart && result.horizonEnd == horizonEnd && result.version == 0
  {
    var schedule := Schedule(if existing.Some? then existing.value.passes else [], horizonStart, horizonEnd, 0);
    var snapshot := schedule;
    var preScore := EvaluateSchedule(standing, schedule.passes);
    var best, bestScore := schedule, preScore;
    ghost var pays := schedule.passes == [] && !draws(0).timedOut && FirstPays(config, requests);
    for iteration := 0 to maxIterations
      invariant Descends(snapshot.passes, schedule.passes, requests) && Descends(snapshot.passes, best.passes, requests)
      invariant bestScore == Score(standing, best.passes) && bestScore >= preScore
      invariant schedule == snapshot.(passes := schedule.passes) && best == snapshot.(passes := best.passes)
      invariant best.passes == snapshot.passes || bestScore > preScore
      invariant iteration == 0 ==> schedule == snapshot && best == snapshot
      invariant pays && iteration > 0 ==> bestScore > preScore
    {
      var draw := draws(iteration);
      if draw.timedOut {
        break;
      }
      NeighborDescends(config, snapshot.passes, schedule.passes, requests, draw);
      var neighbor := schedule.(passes := GenerateNeighbor(config, schedule.passes, requests, draw));
      var neighborScore := EvaluateSchedule(standing, neighbor.passes);
      if pays && iteration == 0 {
        FirstMovePays(standing, config, requests, draw);
      }
      if neighborScore - bestScore > 0.0 || draw.coin {
        schedule := neighbor;
        if neighborScore > bestScore {
          best, bestScore := schedule, neighborScore;
        }
      }
    }
    if snapshot.passes == [] && forall r | r in requests :: !LastsFiveMinutes(r.window) {
      ShortRequestsDoNotPay(standing, best.passes, requests);
    }
    rolledBack := bestScore < preScore;
    result := if bestScore < preScore then snapshot else best;
  }

  // ---------------------------------------------------------------- incremental re-optimization

  /** The passes that have started (`started`) or have not, in schedule order. */
  function Select(passes: seq<ScheduledPass>, now: int, started: bool): (selected: seq<ScheduledPass>)
    ensures forall p :: p in selected <==> p in passes && (p.window.start <= now <==> started)
  {
    if passes == [] then []
    else Chosen(passes[0], now, started) + Select(passes[1..], now, started)
  }

  function CreateAll(config: HardwareConfig, requests: seq<PassRequest>, freshIds: nat -> string, now: int)
    : (passes: seq<ScheduledPass>)
    ensures |passes| == |requests|
    ensures forall i | 0 <= i < |requests| :: passes[i] == CreatePass(config, requests[i], freshIds(i), now)
  {
    seq(|requests|, i requires 0 <= i < |requests| => CreatePass(config, requests[i], freshIds(i), now))
  }

  function Chosen(p: ScheduledPass, now: int, started: bool): (selected: seq<ScheduledPass>)
    ensures selected == if p.window.start <= now <==> started then [p] else []
  {
    if started then if p.window.start <= now then [p] else []
    else if p.window.start > now then [p] else []
  }

  /** The order of the schedule is kept. */
  lemma {:induction false} SelectAppends(passes: seq<ScheduledPass>, p: ScheduledPass, now: int, started: bool)
    ensures Select(passes + [p], now, started) == Select(passes, now, started) + Chosen(p, now, started)
    decreases |passes|
  {
    var all := passes + [p];
    if passes == [] {
      assert all[1..] == [] && Select(all[1..], now, started) == [];
    } else {
      var head, last := Chosen(passes[0], now, started), Chosen(p, now, started);
      assert all[0] == passes[0] && all[1..] == passes[1..] + [p];
      SelectAppends(passes[1..], p, now, started);
      Associates(head, Select(passes[1..], now, started), last);
    }
  }

  lemma Associates<T>(a: seq<T>, b: seq<T>, c: seq<T>)
    ensures a + (b + c) == a + b + c
  {
  }

  ghost predicate AllScheduled(passes: seq<ScheduledPass>, requests: seq<PassRequest>) {
    forall r | r in requests :: HasRequest(passes, r.requestId)
  }

  /** One greedy iteration keeps every pass in its place and can only lower the number of conflicts. */
  lemma GreedyStep(standing: Standing, config: HardwareConfig, tail: seq<ScheduledPass>,
                   requests: seq<PassRequest>, draw: Draw)
    requires AllScheduled(tail, requests)
    ensures var n := GenerateNeighbor(config, tail, requests, draw);
            Score(standing, n) > Score(standing, tail) ==>
              Identities(n) == Identities(tail) && AllScheduled(n, requests) && |Clashes(n)| < |Clashes(tail)|
  {
    var n := GenerateNeighbor(config, tail, requests, draw);
    NeighborCases(config, tail, requests, draw);
    if Swapped(tail, n) {
      var k: nat :| 0 < k < |tail| && n == Swap(tail, k);
      SwapKeepsScore(standing, tail, k);
    } else if Edited(tail, n) {
      ScoreCountsConflicts(standing, n, tail);
      EditKeepsRequests(tail, n);
      forall r | r in requests ensures HasRequest(n, r.requestId) {
        var p :| p in tail && p.requestId == r.requestId;
        var i :| 0 <= i < |tail| && tail[i] == p;
        assert n[i] in n && n[i].requestId == r.requestId;
      }
    }
  }

  lemma CreatedRequestsAreScheduled(config: HardwareConfig, future: seq<ScheduledPass>, requests: seq<PassRequest>,
                                    freshIds: nat -> string, now: int)
    ensures AllScheduled(future + CreateAll(config, requests, freshIds, now), requests)
  {
  }

  // ---------------------------------------------------------------- the tail against the started passes

  /** Conflicts between a started pass and one of the tail. */
  ghost function Cross(stable: seq<ScheduledPass>, tail: seq<ScheduledPass>): set<(nat, nat)> {
    set a: nat, b: nat | a < |stable| && b < |tail| && CrossClash(stable[a], tail[b]) :: (a, b)
  }

  ghost predicate CrossClash(p: ScheduledPass, q: ScheduledPass) {
    WindowsOverlap(p.window, q.window) && Share(p.hardware, q.hardware)
  }

  ghost function Moved(pairs: set<(nat, nat)>, m: nat, n: nat): set<(nat, nat)> {
    set p | p in pairs :: (p.0 + m, p.1 + n)
  }

  lemma MovedOneMore(pairs: set<(nat, nat)>, p: (nat, nat), m: nat, n: nat)
    requires p in pairs
    ensures Moved(pairs, m, n) == Moved(pairs - {p}, m, n) + {(p.0 + m, p.1 + n)}
    ensures (p.0 + m, p.1 + n) !in Moved(pairs - {p}, m, n)
  {
  }

  lemma {:induction false} MovedSize(pairs: set<(nat, nat)>, m: nat, n: nat)
    ensures |Moved(pairs, m, n)| == |pairs|
    decreases |pairs|
  {
    if pairs == {} {
      assert Moved(pairs, m, n) == {};
    } else {
      var p :| p in pairs;
      MovedOneMore(pairs, p, m, n);
      MovedSize(pairs - {p}, m, n);
    }
  }

  lemma ClashOfWhole(stable: seq<ScheduledPass>, tail: seq<ScheduledPass>, a: nat, b: nat)
    ensures var n := |stable|;
            (a, b) in Clashes(stable + tail) <==>
              || (a, b) in Clashes(stable)
              || (a >= n && b >= n && (a - n, b - n) in Clashes(tail))
              || (b >= n && (a, b - n) in Cross(stable, tail))
  {
  }

  /** The conflicts of a schedule are those of its two parts and those across. */
  lemma ClashesOfWhole(stable: seq<ScheduledPass>, tail: seq<ScheduledPass>)
    ensures |Clashes(stable + tail)| == |Clashes(stable)| + |Clashes(tail)| + |Cross(stable, tail)|
  {
    var n := |stable|;
    var own, later, cross := Clashes(stable), Moved(Clashes(tail), n, n), Moved(Cross(stable, tail), 0, n);
    forall a: nat, b: nat ensures (a, b) in Clashes(stable + tail) <==> (a, b) in own + later + cross {
      ClashOfWhole(stable, tail, a, b);
      MovedMember(Clashes(tail), n, n, a, b);
      MovedMember(Cross(stable, tail), 0, n, a, b);
    }
    assert forall p :: p in Clashes(stable + tail) <==> (p.0, p.1) in own + later + cross;
    assert Clashes(stable + tail) == own + later + cross;
    assert own !! later && (own + later) !! cross;
    MovedSize(Clashes(tail), n, n);
    MovedSize(Cross(stable, tail), 0, n);
  }

  lemma MovedMember(pairs: set<(nat, nat)>, m: nat, n: nat, a: nat, b: nat)
    ensures (a, b) in Moved(pairs, m, n) <==> a >= m && b >= n && (a - m, b - n) in pairs
  {
    if a >= m && b >= n && (a - m, b - n) in pairs {
      var p := (a - m, b - n);
      assert p in pairs && (p.0 + m, p.1 + n) == (a, b);
    }
  }

  /** With the same passes behind them, the started passes fare by the conflicts in the tail and across. */
  lemma WholeScoreCounts(standing: Standing, stable: seq<ScheduledPass>, tail: seq<ScheduledPass>,
                         tail': seq<ScheduledPass>)
    requires Identities(tail) == Identities(tail')
    ensures Score(standing, stable + tail') >= Score(standing, stable + tail) <==>
            Disturbance(stable, tail') <= Disturbance(stable, tail)
  {
    ClashesOfWhole(stable, tail);
    ClashesOfWhole(stable, tail');
    assert Identities(stable + tail) == Identities(stable) + Identities(tail);
    assert Identities(stable + tail') == Identities(stable) + Identities(tail');
    ScoreCountsConflicts(standing, stable + tail, stable + tail');
  }

  /** The conflicts in which a pass of the tail takes part. */
  ghost function Disturbance(stable: seq<ScheduledPass>, tail: seq<ScheduledPass>): nat {
    |Clashes(tail)| + |Cross(stable, tail)|
  }

  /** A device some move of the tail can allocate. */
  ghost predicate CanReach(config: HardwareConfig, tail: seq<ScheduledPass>, d: DeviceId) {
    d in config.sdrDevices || d in config.antennaIds || exists q :: q in tail && d in Devices(q.hardware)
  }

  /** The pass ends after `from` and holds a device that the tail could get. */
  ghost predicate Exposed(config: HardwareConfig, tail: seq<ScheduledPass>, p: ScheduledPass, from: int) {
    p.window.end > from && exists d :: d in Devices(p.hardware) && CanReach(config, tail, d)
  }

  ghost predicate AtMostOneExposed(config: HardwareConfig, stable: seq<ScheduledPass>, tail: seq<ScheduledPass>,
                                   from: int)
  {
    forall i, j | 0 <= i < j < |stable| ::
      !(Exposed(config, tail, stable[i], from) && Exposed(config, tail, stable[j], from))
  }

  /** The pass starts no earlier than `from` and uses only devices the moves of `start` can allocate. */
  ghost predicate Confined(config: HardwareConfig, start: seq<ScheduledPass>, q: ScheduledPass, from: int) {
    q.window.start >= from && forall d | d in Devices(q.hardware) :: CanReach(config, start, d)
  }

  ghost predicate AllConfined(config: HardwareConfig, start: seq<ScheduledPass>, tail: seq<ScheduledPass>, from: int) {
    forall q | q in tail :: Confined(config, start, q, from)
  }

  lemma EditStaysConfined(config: HardwareConfig, start: seq<ScheduledPass>, q: ScheduledPass, draw: Draw, from: int)
    requires Confined(config, start, q, from) && draw.now >= from - 1
    ensures Confined(config, start, ShiftTimeSlot(q, draw), from)
    ensures Confined(config, start, ReallocateHardware(config, q, draw), from)
  {
    ShiftIsBounded(q, draw);
    var h, h' := q.hardware, ReallocateHardware(config, q, draw).hardware;
    forall d | d in Devices(h') ensures d in Devices(h) || d in config.sdrDevices || d in config.antennaIds {
      DevicesByRole(h, d);
      DevicesByRole(h', d);
    }
  }

  lemma DevicesByRole(h: HardwareAllocation, d: DeviceId)
    ensures d in Devices(h) <==> d in h.sdrDevices || h.shadowSdr == Some(d) || d == h.antenna || d == h.rotator
  {
    var shadow := if h.shadowSdr.Some? then [h.shadowSdr.value] else [];
    assert Devices(h) == h.sdrDevices + shadow + [h.antenna, h.rotator];
    assert d in shadow <==> h.shadowSdr == Some(d);
  }

  lemma NeighborStaysConfined(config: HardwareConfig, start: seq<ScheduledPass>, tail: seq<ScheduledPass>,
                              requests: seq<PassRequest>, draw: Draw, from: int)
    requires AllConfined(config, start, tail, from) && AllScheduled(tail, requests) && draw.now >= from - 1
    ensures AllConfined(config, start, GenerateNeighbor(config, tail, requests, draw), from)
  {
    if tail == [] {
      assert requests != [] ==> HasRequest(tail, requests[0].requestId);
    } else {
      EditStaysConfined(config, start, tail[draw.index % |tail|], draw, from);
    }
  }

  lemma StartsConfined(config: HardwareConfig, passes: seq<ScheduledPass>, requests: seq<PassRequest>,
                       freshIds: nat -> string, now: int)
    requires forall r | r in requests :: r.window.start >= now
    ensures var tail := Select(passes, now, false) + CreateAll(config, requests, freshIds, now);
            AllConfined(config, tail, tail, now)
  {
    var tail := Select(passes, now, false) + CreateAll(config, requests, freshIds, now);
    forall q | q in tail ensures q.window.start >= now {
      if q !in Select(passes, now, false) {
        var i :| 0 <= i < |requests| && q == CreateAll(config, requests, freshIds, now)[i];
        assert requests[i] in requests;
      }
    }
  }

  // ---------------------------------------------------------------- when the whole schedule is safe

  /** An accepted move changes one pass of the tail. */
  lemma AcceptedMoveEditsOne(standing: Standing, config: HardwareConfig, tail: seq<ScheduledPass>,
                             requests: seq<PassRequest>, draw: Draw) returns (k: nat)
    requires AllScheduled(tail, requests)
    requires Score(standing, GenerateNeighbor(config, tail, requests, draw)) > Score(standing, tail)
    ensures var n := GenerateNeighbor(config, tail, requests, draw);
            |n| == |tail| && k < |tail| && n == tail[k := n[k]]
  {
    assert tail == [] && requests != [] ==> HasRequest(tail, requests[0].requestId);
    k := draw.index % |tail|;
    if draw.operation % 4 == 2 && k > 0 {
      SwapKeepsScore(standing, tail, k);
    }
  }

  lemma OneMore<T>(a: set<T>, b: set<T>, x: T)
    requires a <= b + {x}
    ensures |a| <= |b| + 1
  {
    SubsetSize(a, b + {x});
  }

  lemma {:induction false} SubsetSize<T>(a: set<T>, b: set<T>)
    requires a <= b
    ensures |a| <= |b|
    decreases |a|
  {
    if x :| x in a {
      SubsetSize(a - {x}, b - {x});
    }
  }

  /** An edited pass gains at most the conflict with the one exposed started pass. */
  lemma EditGainsAtMostOne(config: HardwareConfig, stable: seq<ScheduledPass>, start: seq<ScheduledPass>,
                           tail: seq<ScheduledPass>, q: ScheduledPass, k: nat, from: int)
    requires AtMostOneExposed(config, stable, start, from) && Confined(config, start, q, from) && k < |tail|
    ensures |Cross(stable, tail[k := q])| <= |Cross(stable, tail)| + 1
  {
    var before, after := Cross(stable, tail), Cross(stable, tail[k := q]);
    forall a: nat | a < |stable| && CrossClash(stable[a], q) ensures Exposed(config, start, stable[a], from) {
    }
    if a: nat :| a < |stable| && CrossClash(stable[a], q) {
      assert after <= before + {(a, k)};
      OneMore(after, before, (a, k));
    } else {
      assert after <= before;
      SubsetSize(after, before);
    }
  }

  /** So it cannot cost the whole schedule more than the tail has gained. */
  lemma MoveKeepsDisturbance(standing: Standing, config: HardwareConfig, stable: seq<ScheduledPass>,
                             start: seq<ScheduledPass>, tail: seq<ScheduledPass>, requests: seq<PassRequest>,
                             draw: Draw, from: int)
    requires AtMostOneExposed(config, stable, start, from) && AllConfined(config, start, tail, from)
    requires AllScheduled(tail, requests) && draw.now >= from - 1
    ensures var n := GenerateNeighbor(config, tail, requests, draw);
            Score(standing, n) > Score(standing, tail) ==> Disturbance(stable, n) <= Disturbance(stable, tail)
  {
    var n := GenerateNeighbor(config, tail, requests, draw);
    if Score(standing, n) > Score(standing, tail) {
      var k := AcceptedMoveEditsOne(standing, config, tail, requests, draw);
      NeighborStaysConfined(config, start, tail, requests, draw, from);
      assert n[k] in n;
      EditGainsAtMostOne(config, stable, start, tail, n[k], k, from);
      GreedyStep(standing, config, tail, requests, draw);
    }
  }

  /** One greedy iteration: the neighbour if it scores higher. */
  ghost function Greedy(standing: Standing, config: HardwareConfig, tail: seq<ScheduledPass>,
                        requests: seq<PassRequest>, draw: Draw): seq<ScheduledPass>
  {
    var neighbor := GenerateNeighbor(config, tail, requests, draw);
    if Score(standing, neighbor) > Score(standing, tail) then neighbor else tail
  }

  /** `n` rounds of `step` from `start`. */
  ghost function Iterate<T>(step: (T, nat) -> T, start: T, n: nat): T
    decreases n, start
  {
    if n == 0 then start else step(Iterate(step, start, n - 1), n - 1)
  }

  lemma {:induction false} IterateKeeps<T(!new)>(step: (T, nat) -> T, keeps: T -> bool, start: T, n: nat)
    requires keeps(start) && forall t, i: nat :: keeps(t) && i < n ==> keeps(step(t, i))
    ensures keeps(Iterate(step, start, n))
    decreases n
  {
    if n > 0 {
      IterateKeeps(step, keeps, start, n - 1);
    }
  }

  lemma {:induction false} IterateSettles<T>(step: (T, nat) -> T, start: T, n: nat)
    requires n > 0 && forall i: nat | 0 < i < n :: step(step(start, 0), i) == step(start, 0)
    ensures Iterate(step, start, n) == step(start, 0)
    decreases n
  {
    if n == 1 {
      assert Iterate(step, start, 0) == start;
    } else {
      IterateSettles(step, start, n - 1);
    }
  }

  ghost function Rounds(standing: Standing, config: HardwareConfig, requests: seq<PassRequest>, draws: nat -> Draw)
    : (seq<ScheduledPass>, nat) -> seq<ScheduledPass>
  {
    (tail, i: nat) => Greedy(standing, config, tail, requests, draws(i))
  }

  /** The greedy loop after `n` iterations. */
  ghost function Climb(standing: Standing, config: HardwareConfig, start: seq<ScheduledPass>,
                       requests: seq<PassRequest>, draws: nat -> Draw, n: nat): seq<ScheduledPass>
  {
    Iterate(Rounds(standing, config, requests, draws), start, n)
  }

  lemma ClimbNext(standing: Standing, config: HardwareConfig, start: seq<ScheduledPass>,
                  requests: seq<PassRequest>, draws: nat -> Draw, n: nat)
    ensures Climb(standing, config, start, requests, draws, 0) == start
    ensures Climb(standing, config, start, requests, draws, n + 1) ==
            Greedy(standing, config, Climb(standing, config, start, requests, draws, n), requests, draws(n))
  {
  }

  /** The same passes in order, with no more conflicts and therefore no lower score. */
  ghost predicate NoWorse(tail: seq<ScheduledPass>, tail': seq<ScheduledPass>) {
    Identities(tail') == Identities(tail) && |Clashes(tail')| <= |Clashes(tail)|
  }

  lemma GreedyIsNoWorse(standing: Standing, config: HardwareConfig, tail: seq<ScheduledPass>,
                        requests: seq<PassRequest>, draw: Draw)
    requires AllScheduled(tail, requests)
    ensures var tail' := Greedy(standing, config, tail, requests, draw);
            NoWorse(tail, tail') && AllScheduled(tail', requests)
  {
    GreedyStep(standing, config, tail, requests, draw);
  }

  lemma ClimbIsNoWorse(standing: Standing, config: HardwareConfig, start: seq<ScheduledPass>,
                       requests: seq<PassRequest>, draws: nat -> Draw, n: nat)
    requires AllScheduled(start, requests)
    ensures var tail := Climb(standing, config, start, requests, draws, n);
            NoWorse(start, tail) && AllScheduled(tail, requests)
  {
    var step := Rounds(standing, config, requests, draws);
    var keeps := tail => NoWorse(start, tail) && AllScheduled(tail, requests);
    forall tail, i: nat | keeps(tail) && i < n ensures keeps(step(tail, i)) {
      GreedyIsNoWorse(standing, config, tail, requests, draws(i));
    }
    IterateKeeps(step, keeps, start, n);
  }

  lemma ClimbScoresNoLower(standing: Standing, config: HardwareConfig, start: seq<ScheduledPass>,
                           requests: seq<PassRequest>, draws: nat -> Draw, n: nat)
    requires AllScheduled(start, requests)
    ensures var tail := Climb(standing, config, start, requests, draws, n);
            NoWorse(start, tail) && Score(standing, tail) >= Score(standing, start)
  {
    ClimbIsNoWorse(standing, config, start, requests, draws, n);
    ScoreCountsConflicts(standing, start, Climb(standing, config, start, requests, draws, n));
  }

  lemma GreedyKeepsDisturbance(standing: Standing, config: HardwareConfig, stable: seq<ScheduledPass>,
                               start: seq<ScheduledPass>, tail: seq<ScheduledPass>, requests: seq<PassRequest>,
                               draw: Draw, from: int)
    requires AtMostOneExposed(config, stable, start, from) && AllConfined(config, start, tail, from)
    requires AllScheduled(tail, requests) && draw.now >= from - 1
    ensures var tail' := Greedy(standing, config, tail, requests, draw);
            AllConfined(config, start, tail', from) && Disturbance(stable, tail') <= Disturbance(stable, tail)
  {
    MoveKeepsDisturbance(standing, config, stable, start, tail, requests, draw, from);
    NeighborStaysConfined(config, start, tail, requests, draw, from);
  }

  lemma ClimbKeepsDisturbance(standing: Standing, config: HardwareConfig, stable: seq<ScheduledPass>,
                              start: seq<ScheduledPass>, requests: seq<PassRequest>, draws: nat -> Draw,
                              n: nat, from: int)
    requires AtMostOneExposed(config, stable, start, from) && AllConfined(config, start, start, from)
    requires AllScheduled(start, requests) && forall i :: draws(i).now >= from - 1
    ensures Disturbance(stable, Climb(standing, config, start, requests, draws, n)) <= Disturbance(stable, start)
  {
    var step := Rounds(standing, config, requests, draws);
    var keeps := tail => AllScheduled(tail, requests) && AllConfined(config, start, tail, from) &&
                         Disturbance(stable, tail) <= Disturbance(stable, start);
    forall tail, i: nat | keeps(tail) && i < n ensures keeps(step(tail, i)) {
      GreedyIsNoWorse(standing, config, tail, requests, draws(i));
      GreedyKeepsDisturbance(standing, config, stable, start, tail, requests, draws(i), from);
    }
    IterateKeeps(step, keeps, start, n);
  }

  /** The loop never lowers the whole score while at most one started pass is exposed to the tail. */
  lemma ClimbKeepsWholeScore(standing: Standing, config: HardwareConfig, stable: seq<ScheduledPass>,
                             start: seq<ScheduledPass>, requests: seq<PassRequest>, draws: nat -> Draw,
                             n: nat, from: int)
    requires AtMostOneExposed(config, stable, start, from) && AllConfined(config, start, start, from)
    requires AllScheduled(start, requests) && forall i :: draws(i).now >= from - 1
    ensures Score(standing, stable + Climb(standing, config, start, requests, draws, n)) >=
            Score(standing, stable + start)
  {
    ClimbIsNoWorse(standing, config, start, requests, draws, n);
    ClimbKeepsDisturbance(standing, config, stable, start, requests, draws, n, from);
    WholeScoreCounts(standing, stable, start, Climb(standing, config, start, requests, draws, n));
  }

  // ---------------------------------------------------------------- and when it is not

  ghost predicate Later(tail: seq<ScheduledPass>, now: int) {
    forall q | q in tail :: q.window.start > now
  }

  /** Two passes are still running when the earliest pass of a tail can start. */
  ghost predicate TwoRunning(stable: seq<ScheduledPass>, now: int) {
    exists i, j :: 0 <= i < j < |stable| && stable[i].window.end > now + 1 && stable[j].window.end > now + 1
  }

  /** An accepted move does not lower the score of the schedule it is part of. */
  ghost predicate MoveKeepsWhole(standing: Standing, config: HardwareConfig, stable: seq<ScheduledPass>,
                                 tail: seq<ScheduledPass>, requests: seq<PassRequest>, draw: Draw)
  {
    var n := GenerateNeighbor(config, tail, requests, draw);
    Score(standing, n) > Score(standing, tail) ==> Score(standing, stable + n) >= Score(standing, stable + tail)
  }

  ghost predicate ClimbKeepsWhole(standing: Standing, config: HardwareConfig, stable: seq<ScheduledPass>,
                                  tail: seq<ScheduledPass>, requests: seq<PassRequest>, draws: nat -> Draw,
                                  n: nat)
  {
    Score(standing, stable + Climb(standing, config, tail, requests, draws, n)) >= Score(standing, stable + tail)
  }

  lemma FewRunningFewExposed(config: HardwareConfig, stable: seq<ScheduledPass>, tail: seq<ScheduledPass>, now: int)
    requires !TwoRunning(stable, now) && Later(tail, now)
    ensures AtMostOneExposed(config, stable, tail, now + 1) && AllConfined(config, tail, tail, now + 1)
  {
  }

  /**
    Whatever the configuration, the tail and the draw, an accepted move never lowers the whole
    score exactly when fewer than two started passes are still running.
   */
  lemma MoveKeepsWholeIff(standing: Standing, stable: seq<ScheduledPass>, now: int)
    requires forall p | p in stable :: p.window.start <= now
    ensures (forall config, tail, requests, draw: Draw |
               Later(tail, now) && AllScheduled(tail, requests) && draw.now >= now ::
               MoveKeepsWhole(standing, config, stable, tail, requests, draw)) <==> !TwoRunning(stable, now)
  {
    if TwoRunning(stable, now) {
      var config, tail := AcceptedLoss(standing, stable, now);
      assert AllScheduled(tail, []);
    } else {
      forall config, tail, requests, draw: Draw | Later(tail, now) && AllScheduled(tail, requests) && draw.now >= now
        ensures MoveKeepsWhole(standing, config, stable, tail, requests, draw)
      {
        FewRunningFewExposed(config, stable, tail, now);
        AcceptedMoveIsSafe(standing, config, stable, tail, requests, draw, now + 1);
      }
    }
  }

  lemma AcceptedMoveIsSafe(standing: Standing, config: HardwareConfig, stable: seq<ScheduledPass>,
                           tail: seq<ScheduledPass>, requests: seq<PassRequest>, draw: Draw, from: int)
    requires AtMostOneExposed(config, stable, tail, from) && AllConfined(config, tail, tail, from)
    requires AllScheduled(tail, requests) && draw.now >= from - 1
    ensures MoveKeepsWhole(standing, config, stable, tail, requests, draw)
  {
    var n := GenerateNeighbor(config, tail, requests, draw);
    MoveKeepsDisturbance(standing, config, stable, tail, tail, requests, draw, from);
    GreedyStep(standing, config, tail, requests, draw);
    if Score(standing, n) > Score(standing, tail) {
      WholeScoreCounts(standing, stable, tail, n);
    }
  }

  lemma AcceptedLoss(standing: Standing, stable: seq<ScheduledPass>, now: int)
    returns (config: HardwareConfig, tail: seq<ScheduledPass>)
    requires (forall p | p in stable :: p.window.start <= now) && TwoRunning(stable, now)
    ensures Later(tail, now) && !MoveKeepsWhole(standing, config, stable, tail, [], Reallocating(now))
  {
    var i, j :| 0 <= i < j < |stable| && stable[i].window.end > now + 1 && stable[j].window.end > now + 1;
    var moved;
    config, tail, moved := LosingMove(stable, now, i, j);
    LosesWhole(standing, config, stable, tail, moved, Reallocating(now));
  }

  /** And so for the loop, however often it iterates: no run of it lowers the whole score exactly in that case. */
  lemma ClimbKeepsWholeIff(standing: Standing, stable: seq<ScheduledPass>, now: int, n: nat)
    requires n > 0 && forall p | p in stable :: p.window.start <= now
    ensures (forall config, tail, requests, draws: nat -> Draw |
               Later(tail, now) && AllScheduled(tail, requests) && (forall i :: draws(i).now >= now) ::
               ClimbKeepsWhole(standing, config, stable, tail, requests, draws, n)) <==> !TwoRunning(stable, now)
  {
    if TwoRunning(stable, now) {
      var config, tail, draws := LosingClimb(standing, stable, now, n);
      assert AllScheduled(tail, []);
    } else {
      forall config, tail, requests, draws: nat -> Draw |
        Later(tail, now) && AllScheduled(tail, requests) && (forall i :: draws(i).now >= now)
        ensures ClimbKeepsWhole(standing, config, stable, tail, requests, draws, n)
      {
        FewRunningFewExposed(config, stable, tail, now);
        ClimbKeepsWholeScore(standing, config, stable, tail, requests, draws, n, now + 1);
      }
    }
  }

  lemma LosingClimb(standing: Standing, stable: seq<ScheduledPass>, now: int, n: nat)
    returns (config: HardwareConfig, tail: seq<ScheduledPass>, draws: nat -> Draw)
    requires n > 0 && (forall p | p in stable :: p.window.start <= now) && TwoRunning(stable, now)
    ensures Later(tail, now) && forall i :: draws(i).now >= now
    ensures !ClimbKeepsWhole(standing, config, stable, tail, [], draws, n)
  {
    var i, j :| 0 <= i < j < |stable| && stable[i].window.end > now + 1 && stable[j].window.end > now + 1;
    var moved;
    config, tail, moved := LosingMove(stable, now, i, j);
    draws := OneMove(now);
    forall k: nat ensures draws(k).now >= now { OneMoveClock(now, k); }
    GainsAndLosesScore(standing, stable, tail, moved);
    ClimbOnce(standing, config, tail, moved, now, n);
  }

  /** Moves the first pass to the next SDR and the first antenna of the pool. */
  function Reallocating(now: int): (draw: Draw) {
    Draw(0, 1, 0, false, 0, now, "", false, false)
  }

  /** Swaps the first pass with nothing. */
  function Idle(now: int): (draw: Draw) {
    Draw(0, 2, 0, false, 0, now, "", false, false)
  }

  ghost function OneMove(now: int): nat -> Draw {
    (k: nat) => if k == 0 then Reallocating(now) else Idle(now)
  }

  lemma OneMoveClock(now: int, i: nat)
    ensures OneMove(now)(i).now == now
  {
    assert Reallocating(now).now == now && Idle(now).now == now;
  }

  lemma ClimbOnce(standing: Standing, config: HardwareConfig, tail: seq<ScheduledPass>,
                  moved: seq<ScheduledPass>, now: int, n: nat)
    requires n > 0 && moved == GenerateNeighbor(config, tail, [], Reallocating(now))
    requires Score(standing, moved) > Score(standing, tail)
    ensures Climb(standing, config, tail, [], OneMove(now), n) == moved
  {
    var step := Rounds(standing, config, [], OneMove(now));
    assert step(tail, 0) == moved;
    forall i: nat | 0 < i < n ensures step(moved, i) == moved {
      IdleStays(standing, config, moved, Idle(now));
    }
    IterateSettles(step, tail, n);
  }

  lemma IdleStays(standing: Standing, config: HardwareConfig, tail: seq<ScheduledPass>, draw: Draw)
    requires draw.operation == 2 && draw.index == 0
    ensures Greedy(standing, config, tail, [], draw) == tail
  {
  }

  // A device name longer than all in use is in no one's hands.

  ghost function LongestName(ds: seq<DeviceId>): (n: nat)
    ensures forall d | d in ds :: |d| < n
  {
    if ds == [] then 0 else Max(LongestName(ds[..|ds| - 1]), |ds[|ds| - 1]| + 1)
  }

  ghost function LongestDevice(passes: seq<ScheduledPass>): (n: nat)
    ensures forall p, d | p in passes && d in Devices(p.hardware) :: |d| < n
  {
    if passes == [] then 0
    else Max(LongestDevice(passes[..|passes| - 1]), LongestName(Devices(passes[|passes| - 1].hardware)))
  }

  function NameOf(length: nat): (d: DeviceId)
    ensures |d| == length
  {
    seq(length, _ => 'x')
  }

  /** A pass over the first instants after `now`. */
  function Brief(now: int, sdr: DeviceId, antenna: DeviceId, rotator: DeviceId): (p: ScheduledPass) {
    ScheduledPass("", "", "", "", PassWindow(now + 1, now + 2, 0),
                  HardwareAllocation([sdr], None, antenna, rotator), 0, Scheduled, None)
  }

  /** It shares no device with a pass whose names are all shorter. */
  lemma BriefIsApart(p: ScheduledPass, now: int, n: nat, i: nat, j: nat, k: nat)
    requires forall d | d in Devices(p.hardware) :: |d| < n
    requires n <= i && n <= j && n <= k
    ensures !CrossClash(p, Brief(now, NameOf(i), NameOf(j), NameOf(k)))
  {
    var h := Brief(now, NameOf(i), NameOf(j), NameOf(k)).hardware;
    forall d | d in Devices(h) ensures |d| >= n {
      DevicesByRole(h, d);
    }
  }

  lemma BriefClash(p: ScheduledPass, q: ScheduledPass, now: int, d: DeviceId)
    requires q.window == PassWindow(now + 1, now + 2, 0) && p.window.start <= now + 1 && p.window.end > now + 1
    requires d in Devices(p.hardware) && d in Devices(q.hardware)
    ensures CrossClash(p, q)
  {
  }

  /** Three device names, all different. */
  lemma BriefDevices(now: int, sdr: DeviceId, antenna: DeviceId, rotator: DeviceId)
    requires sdr != antenna && antenna != rotator && sdr != rotator
    ensures var h := Brief(now, sdr, antenna, rotator).hardware;
            Devices(h) == [sdr, antenna, rotator] && Distinct(Devices(h))
  {
  }

  lemma ReallocationOf(config: HardwareConfig, now: int, sdr: DeviceId, antenna: DeviceId, rotator: DeviceId,
                       a: DeviceId, b: DeviceId, q: ScheduledPass)
    requires config == HardwareConfig([a], [], [b], []) && sdr != a
    ensures GenerateNeighbor(config, [Brief(now, sdr, antenna, rotator), q], [], Reallocating(now)) ==
            [Brief(now, a, b, rotator), q]
  {
  }

  /** The first pass of the losing tail after its move clashes with both started passes. */
  lemma ClashesWithBoth(p: ScheduledPass, q: ScheduledPass, now: int, antenna: DeviceId, rotator: DeviceId)
    requires p.window.start <= now && q.window.start <= now && p.window.end > now + 1 && q.window.end > now + 1
    requires antenna == q.hardware.antenna || p.hardware.antenna == q.hardware.antenna
    ensures var t := Brief(now, p.hardware.antenna, antenna, rotator); CrossClash(p, t) && CrossClash(q, t)
  {
    var t := Brief(now, p.hardware.antenna, antenna, rotator);
    DevicesByRole(p.hardware, p.hardware.antenna);
    DevicesByRole(q.hardware, q.hardware.antenna);
    DevicesByRole(t.hardware, p.hardware.antenna);
    DevicesByRole(t.hardware, q.hardware.antenna);
    BriefClash(p, t, now, p.hardware.antenna);
    BriefClash(q, t, now, q.hardware.antenna);
  }

  /** Before its move the tail has one clash of its own and none with passes whose device names are shorter. */
  lemma TailClashes(stable: seq<ScheduledPass>, now: int, n: nat)
    requires n == LongestDevice(stable)
    ensures var t1 := Brief(now, NameOf(n), NameOf(n + 1), NameOf(n + 2));
            var t2 := Brief(now, NameOf(n), NameOf(n + 3), NameOf(n + 4));
            && Distinct(Devices(t1.hardware)) && Distinct(Devices(t2.hardware)) && CrossClash(t1, t2)
            && forall p | p in stable :: !CrossClash(p, t1) && !CrossClash(p, t2)
  {
    var t1 := Brief(now, NameOf(n), NameOf(n + 1), NameOf(n + 2));
    var t2 := Brief(now, NameOf(n), NameOf(n + 3), NameOf(n + 4));
    BriefDevices(now, NameOf(n), NameOf(n + 1), NameOf(n + 2));
    BriefDevices(now, NameOf(n), NameOf(n + 3), NameOf(n + 4));
    BriefClash(t1, t2, now, NameOf(n));
    forall p | p in stable ensures !CrossClash(p, t1) && !CrossClash(p, t2) {
      BriefIsApart(p, now, n, n, n + 1, n + 2);
      BriefIsApart(p, now, n, n, n + 3, n + 4);
    }
  }

  /** After it the first pass shares nothing with the second. */
  lemma MovedApart(now: int, a: DeviceId, b: DeviceId, n: nat)
    requires |a| < n && a != b && (|b| < n || b == NameOf(n + 1))
    ensures var t1' := Brief(now, a, b, NameOf(n + 2));
            && Distinct(Devices(t1'.hardware))
            && !CrossClash(t1', Brief(now, NameOf(n), NameOf(n + 3), NameOf(n + 4)))
  {
    BriefDevices(now, a, b, NameOf(n + 2));
    BriefDevices(now, NameOf(n), NameOf(n + 3), NameOf(n + 4));
  }

  /**
    Two passes on one SDR, the first of which is reallocated to the antennas of two started
    passes that are still running: one conflict ends and two begin.
   */
  lemma LosingMove(stable: seq<ScheduledPass>, now: int, i: nat, j: nat)
    returns (config: HardwareConfig, tail: seq<ScheduledPass>, moved: seq<ScheduledPass>)
    requires (forall p | p in stable :: p.window.start <= now) && i < j < |stable|
    requires stable[i].window.end > now + 1 && stable[j].window.end > now + 1
    ensures Later(tail, now) && moved == GenerateNeighbor(config, tail, [], Reallocating(now))
    ensures GainsAndLoses(stable, tail, moved)
  {
    var a, b, n := stable[i].hardware.antenna, stable[j].hardware.antenna, LongestDevice(stable);
    assert |a| < n && |b| < n by {
      assert stable[i] in stable && stable[j] in stable;
      DevicesByRole(stable[i].hardware, a);
      DevicesByRole(stable[j].hardware, b);
    }
    var b' := if a == b then NameOf(n + 1) else b;
    config := HardwareConfig([a], [], [b'], []);
    tail, moved := LosingPair(config, stable, now, i, j, b', n);
  }

  lemma LosingPair(config: HardwareConfig, stable: seq<ScheduledPass>, now: int, i: nat, j: nat, b: DeviceId, n: nat)
    returns (tail: seq<ScheduledPass>, moved: seq<ScheduledPass>)
    requires (forall p | p in stable :: p.window.start <= now) && i < j < |stable|
    requires stable[i].window.end > now + 1 && stable[j].window.end > now + 1
    requires n == LongestDevice(stable) && |stable[i].hardware.antenna| < n
    requires if stable[j].hardware.antenna == stable[i].hardware.antenna then b == NameOf(n + 1)
             else b == stable[j].hardware.antenna && |b| < n
    requires config == HardwareConfig([stable[i].hardware.antenna], [], [b], [])
    ensures Later(tail, now) && moved == GenerateNeighbor(config, tail, [], Reallocating(now))
    ensures GainsAndLoses(stable, tail, moved)
  {
    var t1, t2, t1' := LosingPasses(config, stable, now, i, j, b, n);
    tail, moved := [t1, t2], [t1', t2];
    BothLater(t1, t2, now);
    assert GainsAndLoses(stable, tail, moved) by {
      OneGainTwoLosses(stable, i, j, t1, t2, t1');
    }
  }

  lemma BothLater(t1: ScheduledPass, t2: ScheduledPass, now: int)
    requires t1.window.start > now && t2.window.start > now
    ensures Later([t1, t2], now)
  {
  }

  lemma LosingPasses(config: HardwareConfig, stable: seq<ScheduledPass>, now: int, i: nat, j: nat, b: DeviceId, n: nat)
    returns (t1: ScheduledPass, t2: ScheduledPass, t1': ScheduledPass)
    requires (forall p | p in stable :: p.window.start <= now) && i < j < |stable|
    requires stable[i].window.end > now + 1 && stable[j].window.end > now + 1
    requires n == LongestDevice(stable) && |stable[i].hardware.antenna| < n
    requires if stable[j].hardware.antenna == stable[i].hardware.antenna then b == NameOf(n + 1)
             else b == stable[j].hardware.antenna && |b| < n
    requires config == HardwareConfig([stable[i].hardware.antenna], [], [b], [])
    ensures t1.window.start > now && t2.window.start > now && IdentityOf(t1) == IdentityOf(t1')
    ensures GenerateNeighbor(config, [t1, t2], [], Reallocating(now)) == [t1', t2]
    ensures Distinct(Devices(t1.hardware)) && Distinct(Devices(t1'.hardware)) && Distinct(Devices(t2.hardware))
    ensures CrossClash(t1, t2) && !CrossClash(t1', t2) && CrossClash(stable[i], t1') && CrossClash(stable[j], t1')
    ensures forall p | p in stable :: !CrossClash(p, t1) && !CrossClash(p, t2)
  {
    var a := stable[i].hardware.antenna;
    t1 := Brief(now, NameOf(n), NameOf(n + 1), NameOf(n + 2));
    t2 := Brief(now, NameOf(n), NameOf(n + 3), NameOf(n + 4));
    t1' := Brief(now, a, b, NameOf(n + 2));
    ReallocationOf(config, now, NameOf(n), NameOf(n + 1), NameOf(n + 2), a, b, t2);
    ClashesWithBoth(stable[i], stable[j], now, b, NameOf(n + 2));
    MovedApart(now, a, b, n);
    TailClashes(stable, now, n);
  }

  /** The loop accepts the move that `draw` gives, and the schedule as a whole gets worse. */
  ghost predicate GainsAtALoss(standing: Standing, config: HardwareConfig, stable: seq<ScheduledPass>,
                               tail: seq<ScheduledPass>, draw: Draw)
  {
    && (forall p | p in stable :: p.window.start <= draw.now) && Later(tail, draw.now)
    && !MoveKeepsWhole(standing, config, stable, tail, [], draw)
  }

  /**
    A shift can do it too, under any configuration: ten minutes earlier ends one conflict in the
    tail and starts two with passes that are still running.
   */
  lemma TailGainCanBeAWholeLoss(standing: Standing, config: HardwareConfig)
    ensures exists stable, tail, draw :: GainsAtALoss(standing, config, stable, tail, draw)
  {
    var stable, tail, moved, draw := LosingShift(config);
    LosesWhole(standing, config, stable, tail, moved, draw);
  }

  lemma LosingShift(config: HardwareConfig)
    returns (stable: seq<ScheduledPass>, tail: seq<ScheduledPass>, moved: seq<ScheduledPass>, draw: Draw)
    ensures (forall p | p in stable :: p.window.start <= draw.now) && Later(tail, draw.now)
    ensures moved == GenerateNeighbor(config, tail, [], draw) && GainsAndLoses(stable, tail, moved)
  {
    stable := [PassOn("a", "d", 0, 25), PassOn("b", "e", 0, 25)];
    tail := [PassOn("a", "b", 30, 40), PassOn("a", "c", 38, 48)];
    moved := [PassOn("a", "b", 20, 30), PassOn("a", "c", 38, 48)];
    draw := Draw(0, 0, 9, false, 0, 10 * MINUTE, "", false, false);
    ShiftTenEarlier(config, draw);
    ShiftGainsAndLoses(stable, tail, moved);
  }

  lemma ShiftTenEarlier(config: HardwareConfig, draw: Draw)
    requires draw == Draw(0, 0, 9, false, 0, 10 * MINUTE, "", false, false)
    ensures GenerateNeighbor(config, [PassOn("a", "b", 30, 40), PassOn("a", "c", 38, 48)], [], draw) ==
            [PassOn("a", "b", 20, 30), PassOn("a", "c", 38, 48)]
  {
    assert ShiftTimeSlot(PassOn("a", "b", 30, 40), draw) == PassOn("a", "b", 20, 30);
  }

  lemma ShiftGainsAndLoses(stable: seq<ScheduledPass>, tail: seq<ScheduledPass>, moved: seq<ScheduledPass>)
    requires stable == [PassOn("a", "d", 0, 25), PassOn("b", "e", 0, 25)]
    requires tail == [PassOn("a", "b", 30, 40), PassOn("a", "c", 38, 48)]
    requires moved == [PassOn("a", "b", 20, 30), PassOn("a", "c", 38, 48)]
    ensures GainsAndLoses(stable, tail, moved)
  {
    SharingAntenna(tail[0], tail[1], "a");
    SharingAntenna(stable[0], moved[0], "a");
    SharingAntenna(stable[1], moved[0], "b");
    OneGainTwoLosses(stable, 0, 1, tail[0], tail[1], moved[0]);
  }

  lemma SharingAntenna(p: ScheduledPass, q: ScheduledPass, antenna: DeviceId)
    requires p.hardware.antenna == antenna && antenna in Devices(q.hardware)
    requires WindowsOverlap(p.window, q.window)
    ensures CrossClash(p, q)
  {
    DevicesByRole(p.hardware, antenna);
  }

  /** A pass on an antenna and a rotator, from one minute to another. */
  function PassOn(antenna: DeviceId, rotator: DeviceId, start: int, end: int): (p: ScheduledPass) {
    ScheduledPass("", "", "", "", PassWindow(start * MINUTE, end * MINUTE, 0),
                  HardwareAllocation([], None, antenna, rotator), 0, Scheduled, None)
  }

  lemma OneGainTwoLosses(stable: seq<ScheduledPass>, i: nat, j: nat, t1: ScheduledPass, t2: ScheduledPass,
                         t1': ScheduledPass)
    requires Distinct(Devices(t1.hardware)) && Distinct(Devices(t1'.hardware)) && Distinct(Devices(t2.hardware))
    requires IdentityOf(t1) == IdentityOf(t1') && CrossClash(t1, t2) && !CrossClash(t1', t2)
    requires i < j < |stable| && CrossClash(stable[i], t1') && CrossClash(stable[j], t1')
    requires forall p | p in stable :: !CrossClash(p, t1) && !CrossClash(p, t2)
    ensures GainsAndLoses(stable, [t1, t2], [t1', t2])
  {
    PairClashes(t1, t2);
    PairClashes(t1', t2);
    TwoAcross(stable, [t1', t2], i, j);
    assert Cross(stable, [t1, t2]) == {};
  }

  /** The same passes with fewer conflicts among themselves and more in the schedule. */
  ghost predicate GainsAndLoses(stable: seq<ScheduledPass>, tail: seq<ScheduledPass>, moved: seq<ScheduledPass>) {
    && Identities(tail) == Identities(moved) && |Clashes(moved)| < |Clashes(tail)|
    && Disturbance(stable, moved) > Disturbance(stable, tail)
  }

  lemma LosesWhole(standing: Standing, config: HardwareConfig, stable: seq<ScheduledPass>,
                   tail: seq<ScheduledPass>, moved: seq<ScheduledPass>, draw: Draw)
    requires (forall p | p in stable :: p.window.start <= draw.now) && Later(tail, draw.now)
    requires moved == GenerateNeighbor(config, tail, [], draw) && GainsAndLoses(stable, tail, moved)
    ensures GainsAtALoss(standing, config, stable, tail, draw)
  {
    GainsAndLosesScore(standing, stable, tail, moved);
  }

  lemma GainsAndLosesScore(standing: Standing, stable: seq<ScheduledPass>, tail: seq<ScheduledPass>,
                           moved: seq<ScheduledPass>)
    requires GainsAndLoses(stable, tail, moved)
    ensures Score(standing, moved) > Score(standing, tail)
    ensures Score(standing, stable + moved) < Score(standing, stable + tail)
  {
    WholeScoreCounts(standing, stable, tail, moved);
    ScoreCountsConflicts(standing, moved, tail);
  }

  lemma TwoAcross(stable: seq<ScheduledPass>, tail: seq<ScheduledPass>, i: nat, j: nat)
    requires i < j < |stable| && tail != [] && CrossClash(stable[i], tail[0]) && CrossClash(stable[j], tail[0])
    ensures |Cross(stable, tail)| >= 2
  {
    var cross := Cross(stable, tail);
    assert (i, 0) in cross && (j, 0) in cross - {(i, 0)};
    assert |cross| == 2 + |cross - {(i, 0)} - {(j, 0)}|;
  }

  lemma PairClashes(p: ScheduledPass, q: ScheduledPass)
    requires Distinct(Devices(p.hardware)) && Distinct(Devices(q.hardware))
    ensures Clashes([p, q]) == if CrossClash(p, q) then {(0, 1)} else {}
  {
    forall a: nat, b: nat ensures (a, b) in Clashes([p, q]) <==> (a, b) == (0, 1) && CrossClash(p, q) {
      ClashesOfDistinctDevices([p, q], a, b);
    }
    assert forall x :: x in Clashes([p, q]) <==> (x.0, x.1) == (0, 1) && CrossClash(p, q);
  }

  method ClimbStep(standing: Standing, config: HardwareConfig, tail: seq<ScheduledPass>, requests: seq<PassRequest>,
                   draw: Draw)
    returns (next: seq<ScheduledPass>)
    ensures next == Greedy(standing, config, tail, requests, draw)
  {
    var neighbor := GenerateNeighbor(config, tail, requests, draw);
    var currentScore := EvaluateSchedule(standing, tail);
    var neighborScore := EvaluateSchedule(standing, neighbor);
    next := if neighborScore > currentScore then neighbor else tail;
  }

  /** The greedy loop: 200 iterations, each keeping only a strict improvement. */
  method HillClimb(standing: Standing, config: HardwareConfig, start: seq<ScheduledPass>, requests: seq<PassRequest>,
                   draws: nat -> Draw)
    returns (tail: seq<ScheduledPass>)
    requires AllScheduled(start, requests)
    ensures tail == Climb(standing, config, start, requests, draws, 200)
    ensures Identities(tail) == Identities(start)
    ensures |Clashes(tail)| <= |Clashes(start)| && Score(standing, tail) >= Score(standing, start)
  {
    tail := start;
    for i := 0 to 200
      invariant tail == Climb(standing, config, start, requests, draws, i)
    {
      ClimbNext(standing, config, start, requests, draws, i);
      tail := ClimbStep(standing, config, tail, requests, draws(i));
    }
    ClimbScoresNoLower(standing, config, start, requests, draws, 200);
  }

  /**
    For every stream of draws: the passes already started come first, untouched; behind them
    stand the same future passes and the new requests, in the same order, each with its own
    duration; and the tail has at most as many conflicts as before. The whole schedule scores no
    lower either if the clock does not run backwards, no new request lies in the past, and at
    most one started pass is still running on a device the tail could get.
   */
  method IncrementalOptimize(standing: Standing, config: HardwareConfig, schedule: Schedule,
                             newRequests: seq<PassRequest>, now: int, freshIds: nat -> string, draws: nat -> Draw)
    returns (result: Schedule)
    ensures var stable := Select(schedule.passes, now, true);
            var tail0 := Select(schedule.passes, now, false) + CreateAll(config, newRequests, freshIds, now);
            && |stable| <= |result.passes| && result.passes[..|stable|] == stable
            && result.passes[|stable|..] == Climb(standing, config, tail0, newRequests, draws, 200)
            && Identities(result.passes[|stable|..]) == Identities(tail0)
            && |Clashes(result.passes[|stable|..])| <= |Clashes(tail0)|
            && Score(standing, result.passes[|stable|..]) >= Score(standing, tail0)
    ensures var stable := Select(schedule.passes, now, true);
            var tail0 := Select(schedule.passes, now, false) + CreateAll(config, newRequests, freshIds, now);
            && (forall i :: draws(i).now >= now) && (forall r | r in newRequests :: r.window.start >= now)
            && AtMostOneExposed(config, stable, tail0, now) ==>
              Score(standing, result.passes) >= Score(standing, stable + tail0)
    ensures result.version == schedule.version + 1
    ensures result.horizonStart == schedule.horizonStart && result.horizonEnd == schedule.horizonEnd
  {
    var stable, tail := Select(schedule.passes, now, true), Select(schedule.passes, now, false);
    ghost var future := tail;
    for i := 0 to |newRequests|
      invariant tail == future + CreateAll(config, newRequests, freshIds, now)[..i]
    {
      tail := tail + [CreatePass(config, newRequests[i], freshIds(i), now)];
    }
    ghost var tail0 := future + CreateAll(config, newRequests, freshIds, now);
    assert tail == tail0;
    CreatedRequestsAreScheduled(config, future, newRequests, freshIds, now);
    tail := HillClimb(standing, config, tail, newRequests, draws);
    result := Schedule(stable + tail, schedule.horizonStart, schedule.horizonEnd, schedule.version + 1);
    assert (stable + tail)[|stable|..] == tail;
    if && (forall i :: draws(i).now >= now) && (forall r | r in newRequests :: r.window.start >= now)
       && AtMostOneExposed(config, stable, tail0, now)
    {
      StartsConfined(config, schedule.passes, newRequests, freshIds, now);
      ClimbKeepsWholeScore(standing, config, stable, tail0, newRequests, draws, 200, now);
    }
  }
}
