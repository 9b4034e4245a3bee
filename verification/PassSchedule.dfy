/**
  Passes on a ground station's schedule and the device-indexed conflict check that stands in
  for a scan of all pairs.
 */
module PassSchedule {
  import opened Timeline

  type DeviceId = string

  datatype PassWindow = PassWindow(start: int, end: int, minDurationSec: nat) {
    function Duration(): (d: int) {
      end - start
    }
  }

  datatype HardwareAllocation = HardwareAllocation(
    sdrDevices: seq<DeviceId>,
    shadowSdr: Option<DeviceId>,
    antenna: DeviceId,
    rotator: DeviceId)

  datatype PassStatus = Scheduled | Preparing | InProgress | Completed | Failed | Cancelled

  datatype KeyholeWarning = KeyholeWarning(handoffScheduled: bool, lossFraction: real)

  datatype ScheduledPass = ScheduledPass(
    passId: string,
    requestId: string,
    customer: string,
    satellite: string,
    window: PassWindow,
    hardware: HardwareAllocation,
    scheduledAt: int,
    status: PassStatus,
    keyhole: Option<KeyholeWarning>)

  datatype ConflictType = HardwareOverlap | TimeOverlap | FrequencyConflict

  datatype ScheduleConflict = ScheduleConflict(pass1: string, pass2: string, kind: ConflictType)

  predicate WindowsOverlap(w1: PassWindow, w2: PassWindow) {
    w1.start < w2.end && w2.start < w1.end
  }

  /** Windows that hold an instant overlap exactly when they share one. */
  lemma WindowsOverlapIff(w1: PassWindow, w2: PassWindow)
    requires w1.start < w1.end && w2.start < w2.end
    ensures WindowsOverlap(w1, w2) <==> exists t :: Up(w1, t) && Up(w2, t)
  {
    if WindowsOverlap(w1, w2) {
      assert Up(w1, Max(w1.start, w2.start)) && Up(w2, Max(w1.start, w2.start));
    }
  }

  predicate Up(w: PassWindow, t: int) {
    w.start <= t < w.end
  }

  /** Every device of an allocation, in any role, in the order it is indexed. */
  function Devices(h: HardwareAllocation): (ds: seq<DeviceId>) {
    h.sdrDevices + (if h.shadowSdr.Some? then [h.shadowSdr.value] else []) + [h.antenna, h.rotator]
  }

  ghost predicate Share(h1: HardwareAllocation, h2: HardwareAllocation) {
    exists d :: d in Devices(h1) && d in Devices(h2)
  }

  ghost predicate ListsTwice(h: HardwareAllocation) {
    exists d :: Count(Devices(h), d) >= 2
  }

  /** Passes `a` and `b` collide: two passes on one device, or one pass listing a device twice. */
  ghost predicate Clash(passes: seq<ScheduledPass>, a: nat, b: nat)
    requires a <= b < |passes|
  {
    && WindowsOverlap(passes[a].window, passes[b].window)
    && if a < b then Share(passes[a].hardware, passes[b].hardware) else ListsTwice(passes[a].hardware)
  }

  ghost function Clashes(passes: seq<ScheduledPass>): set<(nat, nat)> {
    set a: nat, b: nat | a <= b < |passes| && a < |passes| && Clash(passes, a, b) :: (a, b)
  }

  // ---------------------------------------------------------------- buckets

  function Count(ds: seq<DeviceId>, d: DeviceId): (n: nat) {
    if ds == [] then 0 else Count(ds[..|ds| - 1], d) + if ds[|ds| - 1] == d then 1 else 0
  }

  lemma {:induction false} CountIsMembership(ds: seq<DeviceId>, d: DeviceId)
    ensures d in ds <==> Count(ds, d) >= 1
    decreases |ds|
  {
    if ds == [] {
    } else {
      var n := |ds| - 1;
      assert ds == ds[..n] + [ds[n]];
      CountIsMembership(ds[..n], d);
    }
  }

  function Repeat(x: nat, n: nat): (s: seq<nat>)
    ensures |s| == n && forall i | 0 <= i < n :: s[i] == x
  {
    seq(n, _ => x)
  }

  /** The passes among the first `n` that use `d`, once per listing, in order. */
  ghost function Bucket(passes: seq<ScheduledPass>, n: nat, d: DeviceId): seq<nat>
    requires n <= |passes|
  {
    if n == 0 then [] else Bucket(passes, n - 1, d) + Repeat(n - 1, Count(Devices(passes[n - 1].hardware), d))
  }

  /** `a` stands before `b` somewhere in `s`. */
  ghost predicate Before(s: seq<nat>, a: nat, b: nat) {
    exists i, j :: 0 <= i < j < |s| && s[i] == a && s[j] == b
  }

  lemma BeforeConcat(s: seq<nat>, x: nat, n: nat, a: nat, b: nat)
    ensures Before(s + Repeat(x, n), a, b) <==>
            Before(s, a, b) || (a == b == x && n >= 2) || (a in s && b == x && n >= 1)
  {
    var t := s + Repeat(x, n);
    if i, j :| 0 <= i < j < |s| && s[i] == a && s[j] == b {
      assert t[i] == a && t[j] == b;
    }
    if a == b == x && n >= 2 {
      assert t[|s|] == a && t[|s| + 1] == b;
    }
    if a in s && b == x && n >= 1 {
      var i :| 0 <= i < |s| && s[i] == a;
      assert t[i] == a && t[|s|] == b;
    }
  }

  lemma {:induction false} BucketHolds(passes: seq<ScheduledPass>, n: nat, d: DeviceId, a: nat)
    requires n <= |passes|
    ensures a in Bucket(passes, n, d) <==> a < n && d in Devices(passes[a].hardware)
    decreases n
  {
    if n == 0 {
    } else {
      BucketHolds(passes, n - 1, d, a);
      CountIsMembership(Devices(passes[n - 1].hardware), d);
      var c := Count(Devices(passes[n - 1].hardware), d);
      assert c >= 1 ==> Repeat(n - 1, c)[0] == n - 1;
    }
  }

  /** Which pairs one device puts next to each other. */
  ghost predicate Meet(passes: seq<ScheduledPass>, d: DeviceId, a: nat, b: nat) {
    && a <= b < |passes|
    && if a < b then d in Devices(passes[a].hardware) && d in Devices(passes[b].hardware)
       else Count(Devices(passes[a].hardware), d) >= 2
  }

  lemma {:induction false} BucketPairs(passes: seq<ScheduledPass>, n: nat, d: DeviceId, a: nat, b: nat)
    requires n <= |passes|
    ensures Before(Bucket(passes, n, d), a, b) <==> b < n && Meet(passes, d, a, b)
    decreases n
  {
    if n == 0 {
    } else {
      var c := Count(Devices(passes[n - 1].hardware), d);
      BucketPairs(passes, n - 1, d, a, b);
      assert Bucket(passes, n, d) == Bucket(passes, n - 1, d) + Repeat(n - 1, c);
      BeforeConcat(Bucket(passes, n - 1, d), n - 1, c, a, b);
      BucketHolds(passes, n - 1, d, a);
      CountIsMembership(Devices(passes[n - 1].hardware), d);
    }
  }

  // ---------------------------------------------------------------- conflict detection

  /** The bucket of `d` after the first `n` passes and the devices `ds` of the next one. */
  ghost function PartialBucket(passes: seq<ScheduledPass>, n: nat, ds: seq<DeviceId>, d: DeviceId): seq<nat>
    requires n <= |passes|
  {
    Bucket(passes, n, d) + Repeat(n, Count(ds, d))
  }

  ghost predicate Indexed(passes: seq<ScheduledPass>, index: map<DeviceId, seq<nat>>, n: nat, ds: seq<DeviceId>)
    requires n <= |passes|
  {
    forall d :: Entry(index, d) == PartialBucket(passes, n, ds, d)
  }

  lemma PushOne(passes: seq<ScheduledPass>, n: nat, ds: seq<DeviceId>, x: DeviceId, d: DeviceId)
    requires n <= |passes|
    ensures PartialBucket(passes, n, ds + [x], d) == PartialBucket(passes, n, ds, d) + if d == x then [n] else []
  {
  }

  lemma PushKeepsIndexed(passes: seq<ScheduledPass>, index: map<DeviceId, seq<nat>>, n: nat, ds: seq<DeviceId>,
                         x: DeviceId)
    requires n <= |passes| && Indexed(passes, index, n, ds)
    ensures Indexed(passes, Push(index, x, n), n, ds + [x])
  {
    forall d ensures Entry(Push(index, x, n), d) == PartialBucket(passes, n, ds + [x], d) {
      PushOne(passes, n, ds, x, d);
      assert Entry(index, d) == PartialBucket(passes, n, ds, d);
    }
  }

  lemma NextPassIndexed(passes: seq<ScheduledPass>, index: map<DeviceId, seq<nat>>, n: nat)
    requires n < |passes| && Indexed(passes, index, n, Devices(passes[n].hardware))
    ensures Indexed(passes, index, n + 1, [])
  {
  }

  /** Files one pass under each of its devices. */
  method IndexPass(passes: seq<ScheduledPass>, idx: nat, index0: map<DeviceId, seq<nat>>)
    returns (index: map<DeviceId, seq<nat>>)
    requires idx < |passes| && Indexed(passes, index0, idx, [])
    ensures Indexed(passes, index, idx, Devices(passes[idx].hardware))
  {
    index := index0;
    var devices := Devices(passes[idx].hardware);
    ghost var filed := [];
    for k := 0 to |devices|
      invariant filed == devices[..k] && Indexed(passes, index, idx, filed)
    {
      PushKeepsIndexed(passes, index, idx, filed, devices[k]);
      index := Push(index, devices[k], idx);
      filed := filed + [devices[k]];
    }
    assert filed == devices;
  }

  /** Maps each device to the passes that use it. */
  method BuildIndex(passes: seq<ScheduledPass>) returns (index: map<DeviceId, seq<nat>>)
    ensures Indexed(passes, index, |passes|, [])
  {
    index := map[];
    for idx := 0 to |passes|
      invariant Indexed(passes, index, idx, [])
    {
      index := IndexPass(passes, idx, index);
      NextPassIndexed(passes, index, idx);
    }
  }

  lemma FullIndex(passes: seq<ScheduledPass>, index: map<DeviceId, seq<nat>>, d: DeviceId)
    requires Indexed(passes, index, |passes|, [])
    ensures Entry(index, d) == Bucket(passes, |passes|, d)
  {
  }

  /** `pairs` lists, once each, exactly the pairs of `seen` whose windows overlap. */
  ghost predicate Reported(passes: seq<ScheduledPass>, seen: set<(nat, nat)>, pairs: seq<(nat, nat)>) {
    && Distinct(pairs)
    && (forall p | p in seen :: p.0 <= p.1 < |passes|)
    && forall p :: p in pairs <==> p in seen && WindowsOverlap(passes[p.0].window, passes[p.1].window)
  }

  ghost function Conflicts(passes: seq<ScheduledPass>, pairs: seq<(nat, nat)>): seq<ScheduleConflict>
    requires forall p | p in pairs :: p.0 <= p.1 < |passes|
  {
    seq(|pairs|, k requires 0 <= k < |pairs| =>
      assert pairs[k] in pairs;
      ScheduleConflict(passes[pairs[k].0].passId, passes[pairs[k].1].passId, HardwareOverlap))
  }

  /** Positions `x < y` of a bucket visited by the nested loops before row `i`, column `j`. */
  ghost predicate Visited(bucket: seq<nat>, i: nat, j: nat, a: nat, b: nat) {
    exists x, y :: 0 <= x < y < |bucket| && bucket[x] == a && bucket[y] == b && (x < i || (x == i && y < j))
  }

  /** Checks all pairs within one device's bucket. */
  method ScanBucket(passes: seq<ScheduledPass>, bucket: seq<nat>, seen0: set<(nat, nat)>,
                    conflicts0: seq<ScheduleConflict>, ghost pairs0: seq<(nat, nat)>)
    returns (seen: set<(nat, nat)>, conflicts: seq<ScheduleConflict>, ghost pairs: seq<(nat, nat)>)
    requires Reported(passes, seen0, pairs0) && conflicts0 == Conflicts(passes, pairs0)
    requires Sorted(bucket, |passes|)
    ensures Reported(passes, seen, pairs) && conflicts == Conflicts(passes, pairs)
    ensures forall a: nat, b: nat :: (a, b) in seen <==> (a, b) in seen0 || Before(bucket, a, b)
  {
    seen, conflicts, pairs := seen0, conflicts0, pairs0;
    for i := 0 to |bucket|
      invariant Reported(passes, seen, pairs) && conflicts == Conflicts(passes, pairs)
      invariant forall a: nat, b: nat :: (a, b) in seen <==> (a, b) in seen0 || Visited(bucket, i, 0, a, b)
    {
      for j := i + 1 to |bucket|
        invariant Reported(passes, seen, pairs) && conflicts == Conflicts(passes, pairs)
        invariant forall a: nat, b: nat :: (a, b) in seen <==> (a, b) in seen0 || Visited(bucket, i, j, a, b)
      {
        var a, b := bucket[i], bucket[j];
        var key := if a < b then (a, b) else (b, a);
        VisitNext(bucket, i, j);
        if key !in seen {
          seen := seen + {key};
          if WindowsOverlap(passes[a].window, passes[b].window) {
            ReportNext(passes, seen - {key}, pairs, key);
            conflicts := conflicts + [ScheduleConflict(passes[a].passId, passes[b].passId, HardwareOverlap)];
            pairs := pairs + [key];
          }
        }
      }
      RowDone(bucket, i);
    }
    forall a: nat, b: nat ensures Visited(bucket, |bucket|, 0, a, b) <==> Before(bucket, a, b) {
    }
  }

  lemma ReportNext(passes: seq<ScheduledPass>, seen: set<(nat, nat)>, pairs: seq<(nat, nat)>, key: (nat, nat))
    requires Reported(passes, seen, pairs) && key !in seen && key.0 <= key.1 < |passes|
    requires WindowsOverlap(passes[key.0].window, passes[key.1].window)
    ensures Reported(passes, seen + {key}, pairs + [key])
    ensures Conflicts(passes, pairs + [key]) ==
            Conflicts(passes, pairs) + [ScheduleConflict(passes[key.0].passId, passes[key.1].passId, HardwareOverlap)]
  {
  }

  lemma VisitNext(bucket: seq<nat>, i: nat, j: nat)
    requires i < j < |bucket|
    ensures forall a: nat, b: nat ::
              Visited(bucket, i, j + 1, a, b) <==> Visited(bucket, i, j, a, b) || (a == bucket[i] && b == bucket[j])
  {
    forall a: nat, b: nat
      ensures Visited(bucket, i, j + 1, a, b) <==> Visited(bucket, i, j, a, b) || (a == bucket[i] && b == bucket[j])
    {
      if x, y :| 0 <= x < y < |bucket| && bucket[x] == a && bucket[y] == b && (x < i || (x == i && y < j)) {
        assert x < i || (x == i && y < j + 1);
      }
      if a == bucket[i] && b == bucket[j] {
        assert Visited(bucket, i, j + 1, a, b);
      }
    }
  }

  lemma RowDone(bucket: seq<nat>, i: nat)
    requires i < |bucket|
    ensures forall a: nat, b: nat :: Visited(bucket, i + 1, 0, a, b) <==> Visited(bucket, i, |bucket|, a, b)
  {
  }

  ghost predicate Sorted(s: seq<nat>, bound: nat) {
    forall i, j | 0 <= i < j < |s| :: s[i] <= s[j] < bound
  }

  lemma BucketIsSorted(passes: seq<ScheduledPass>, d: DeviceId)
    ensures Sorted(Bucket(passes, |passes|, d), |passes|)
  {
    var s := Bucket(passes, |passes|, d);
    forall i, j | 0 <= i < j < |s| ensures s[i] <= s[j] < |passes| {
      assert Before(s, s[i], s[j]);
      BucketPairs(passes, |passes|, d, s[i], s[j]);
    }
  }

  /**
    The devices are visited in arbitrary order; `pairs` names the passes of each conflict by
    position. Every clash is reported exactly once and nothing else is, whatever the order,
    so the number of conflicts is a function of the schedule.
   */
  method CheckConflicts(passes: seq<ScheduledPass>)
    returns (conflicts: seq<ScheduleConflict>, ghost pairs: seq<(nat, nat)>)
    ensures Distinct(pairs) && forall p :: p in pairs <==> p in Clashes(passes)
    ensures conflicts == Conflicts(passes, pairs)
    ensures |conflicts| == |Clashes(passes)|
  {
    var index := BuildIndex(passes);
    conflicts, pairs := [], [];
    var seen: set<(nat, nat)> := {};
    var todo := index.Keys;
    while todo != {}
      invariant todo <= index.Keys
      invariant Reported(passes, seen, pairs) && conflicts == Conflicts(passes, pairs)
      invariant forall a: nat, b: nat ::
                  (a, b) in seen <==> exists d :: d in index && d !in todo && Before(index[d], a, b)
      decreases |todo|
    {
      var d :| d in todo;
      FullIndex(passes, index, d);
      BucketIsSorted(passes, d);
      seen, conflicts, pairs := ScanBucket(passes, index[d], seen, conflicts, pairs);
      todo := todo - {d};
    }
    forall p ensures p in pairs <==> p in Clashes(passes) {
      IndexedIsMeet(passes, index, p.0, p.1);
      MeetIsClash(passes, p.0, p.1);
      assert p == (p.0, p.1);
    }
    DistinctCardinality(pairs, Clashes(passes));
  }

  /** Some device puts `a` before `b` in its bucket exactly when some device makes them meet. */
  lemma IndexedIsMeet(passes: seq<ScheduledPass>, index: map<DeviceId, seq<nat>>, a: nat, b: nat)
    requires Indexed(passes, index, |passes|, [])
    ensures (exists d :: d in index && Before(index[d], a, b)) <==> exists d :: Meet(passes, d, a, b)
  {
    if d :| d in index && Before(index[d], a, b) {
      FullIndex(passes, index, d);
      BucketPairs(passes, |passes|, d, a, b);
    }
    if d :| Meet(passes, d, a, b) {
      BucketPairs(passes, |passes|, d, a, b);
      FullIndex(passes, index, d);
      assert d in index && Before(index[d], a, b);
    }
  }

  lemma MeetIsClash(passes: seq<ScheduledPass>, a: nat, b: nat)
    ensures (exists d :: Meet(passes, d, a, b)) <==>
            a <= b < |passes| &&
            if a < b then Share(passes[a].hardware, passes[b].hardware) else ListsTwice(passes[a].hardware)
  {
    if d :| Meet(passes, d, a, b) {
    }
    if a < b < |passes| && Share(passes[a].hardware, passes[b].hardware) {
      var d :| d in Devices(passes[a].hardware) && d in Devices(passes[b].hardware);
      assert Meet(passes, d, a, b);
    }
    if a == b < |passes| && ListsTwice(passes[a].hardware) {
      var d :| Count(Devices(passes[a].hardware), d) >= 2;
      assert Meet(passes, d, a, b);
    }
  }

  lemma {:induction false} DistinctCardinality<T>(s: seq<T>, elems: set<T>)
    requires Distinct(s) && forall x :: x in s <==> x in elems
    ensures |s| == |elems|
    decreases |s|
  {
    if s == [] {
      assert elems == {};
    } else {
      DistinctTail(s);
      var rest := elems - {s[0]};
      forall x ensures x in s[1..] <==> x in rest {
        assert s == [s[0]] + s[1..];
      }
      DistinctCardinality(s[1..], rest);
      assert s[0] in s;
      assert elems == rest + {s[0]};
    }
  }

  // ---------------------------------------------------------------- the pairwise test it replaces

  /** The role-by-role test on two allocations. */
  predicate HardwareConflicts(h1: HardwareAllocation, h2: HardwareAllocation) {
    || (exists d | d in h1.sdrDevices :: d in h2.sdrDevices)
    || (h1.shadowSdr.Some? && h2.shadowSdr.Some? && h1.shadowSdr.value == h2.shadowSdr.value)
    || h1.antenna == h2.antenna
    || h1.rotator == h2.rotator
  }

  /** No pass lists one of its own devices twice. */
  ghost predicate OwnDevicesDistinct(passes: seq<ScheduledPass>) {
    forall a | 0 <= a < |passes| :: Distinct(Devices(passes[a].hardware))
  }

  lemma {:induction false} DistinctCount(ds: seq<DeviceId>, d: DeviceId)
    requires Distinct(ds)
    ensures Count(ds, d) <= 1
    decreases |ds|
  {
    if ds != [] {
      var n := |ds| - 1;
      DistinctCount(ds[..n], d);
      CountIsMembership(ds[..n], d);
    }
  }

  lemma {:induction false} RepeatedCount(ds: seq<DeviceId>, i: nat, j: nat)
    requires i < j < |ds| && ds[i] == ds[j]
    ensures Count(ds, ds[i]) >= 2
    decreases |ds|
  {
    var n := |ds| - 1;
    if j < n {
      RepeatedCount(ds[..n], i, j);
    } else {
      assert ds[..n][i] == ds[i] && ds[i] in ds[..n];
      CountIsMembership(ds[..n], ds[i]);
    }
  }

  /** A pass lists some device twice exactly when its devices are not distinct. */
  lemma ListsTwiceIff(h: HardwareAllocation)
    ensures ListsTwice(h) <==> !Distinct(Devices(h))
  {
    var ds := Devices(h);
    if Distinct(ds) {
      forall d ensures Count(ds, d) <= 1 {
        DistinctCount(ds, d);
      }
    } else {
      var i, j :| 0 <= i < j < |ds| && ds[i] == ds[j];
      RepeatedCount(ds, i, j);
    }
  }

  /**
    When each pass's own devices are distinct the clashes are exactly the pairs of different
    passes that overlap in time and share a device in any roles; that covers every overlapping
    pair the role-by-role test flags.
   */
  lemma ClashesOfDistinctDevices(passes: seq<ScheduledPass>, a: nat, b: nat)
    requires OwnDevicesDistinct(passes)
    ensures (a, b) in Clashes(passes) <==>
            a < b < |passes| && WindowsOverlap(passes[a].window, passes[b].window) &&
            Share(passes[a].hardware, passes[b].hardware)
    ensures (a < b < |passes| && WindowsOverlap(passes[a].window, passes[b].window) &&
             HardwareConflicts(passes[a].hardware, passes[b].hardware)) ==> (a, b) in Clashes(passes)
  {
    if a == b < |passes| && ListsTwice(passes[a].hardware) {
      var d :| Count(Devices(passes[a].hardware), d) >= 2;
      DistinctCount(Devices(passes[a].hardware), d);
    }
    if a < b < |passes| && HardwareConflicts(passes[a].hardware, passes[b].hardware) {
      SameRoleIsShared(passes[a].hardware, passes[b].hardware);
    }
  }

  lemma SameRoleIsShared(h1: HardwareAllocation, h2: HardwareAllocation)
    requires HardwareConflicts(h1, h2)
    ensures Share(h1, h2)
  {
    if d :| d in h1.sdrDevices && d in h2.sdrDevices {
      assert d in Devices(h1) && d in Devices(h2);
    } else if h1.shadowSdr.Some? && h2.shadowSdr.Some? && h1.shadowSdr.value == h2.shadowSdr.value {
      assert h1.shadowSdr.value in Devices(h1) && h1.shadowSdr.value in Devices(h2);
    } else if h1.antenna == h2.antenna {
      assert h1.antenna in Devices(h1) && h1.antenna in Devices(h2);
    } else {
      assert h1.rotator in Devices(h1) && h1.rotator in Devices(h2);
    }
  }

  /** A device serves the two allocations in different roles. */
  predicate SharesAcrossRoles(h1: HardwareAllocation, h2: HardwareAllocation) {
    var shadow1, shadow2 := h1.shadowSdr, h2.shadowSdr;
    || (shadow2.Some? && shadow2.value in h1.sdrDevices + [h1.antenna, h1.rotator])
    || (shadow1.Some? && shadow1.value in h2.sdrDevices + [h2.antenna, h2.rotator])
    || h2.antenna in h1.sdrDevices + [h1.rotator] || h1.antenna in h2.sdrDevices + [h2.rotator]
    || h2.rotator in h1.sdrDevices || h1.rotator in h2.sdrDevices
  }

  /**
    Two allocations share a device exactly when the role-by-role test says so or a device
    changes roles; so the test misses a shared device exactly when all sharing is across roles.
   */
  lemma SharedIff(h1: HardwareAllocation, h2: HardwareAllocation)
    ensures Share(h1, h2) <==> HardwareConflicts(h1, h2) || SharesAcrossRoles(h1, h2)
  {
    if HardwareConflicts(h1, h2) {
      SameRoleIsShared(h1, h2);
    } else if SharesAcrossRoles(h1, h2) {
      CrossRoleIsShared(h1, h2);
    }
  }

  lemma CrossRoleIsShared(h1: HardwareAllocation, h2: HardwareAllocation)
    requires SharesAcrossRoles(h1, h2)
    ensures Share(h1, h2)
  {
    var d1, d2 := Devices(h1), Devices(h2);
    assert h1.antenna in d1 && h1.rotator in d1 && h2.antenna in d2 && h2.rotator in d2;
    assert h1.shadowSdr.Some? ==> h1.shadowSdr.value in d1;
    assert h2.shadowSdr.Some? ==> h2.shadowSdr.value in d2;
    assert forall d | d in h1.sdrDevices :: d in d1;
    assert forall d | d in h2.sdrDevices :: d in d2;
  }

  /** That happens: here one pass's shadow is another's primary. */
  lemma RolesCanHideAConflict()
    ensures exists h1, h2 ::
              Distinct(Devices(h1)) && Distinct(Devices(h2)) && Share(h1, h2) && !HardwareConflicts(h1, h2)
  {
    var h1 := HardwareAllocation(["s"], Some("t"), "a", "r");
    var h2 := HardwareAllocation(["t"], None, "b", "q");
    assert "s"[0] == 's' && "t"[0] == 't' && "a"[0] == 'a' && "r"[0] == 'r' && "b"[0] == 'b' && "q"[0] == 'q';
    assert Devices(h1) == ["s", "t", "a", "r"];
    assert Devices(h2) == ["t", "b", "q"];
    assert "t" in h2.sdrDevices && SharesAcrossRoles(h1, h2);
    SharedIff(h1, h2);
    assert Distinct(Devices(h1)) && Distinct(Devices(h2));
    assert !HardwareConflicts(h1, h2);
  }

  ghost predicate DistinctPassIds(passes: seq<ScheduledPass>) {
    forall a, b | 0 <= a < b < |passes| :: passes[a].passId != passes[b].passId
  }

  /**
    Reading a list that `CheckConflicts` returned: with distinct pass ids it names passes `a` and
    `b` in this order exactly when they clash, and names a pass twice exactly when the pass lists
    a device twice in a nonempty window.
   */
  lemma ReportNamesClashes(passes: seq<ScheduledPass>, conflicts: seq<ScheduleConflict>, pairs: seq<(nat, nat)>,
                           a: nat, b: nat)
    requires forall p :: p in pairs <==> p in Clashes(passes)
    requires conflicts == Conflicts(passes, pairs) && DistinctPassIds(passes) && a < |passes| && b < |passes|
    ensures ScheduleConflict(passes[a].passId, passes[b].passId, HardwareOverlap) in conflicts <==>
            a <= b && Clash(passes, a, b)
    ensures ScheduleConflict(passes[a].passId, passes[a].passId, HardwareOverlap) in conflicts <==>
            passes[a].window.start < passes[a].window.end && ListsTwice(passes[a].hardware)
  {
    NamedIff(passes, conflicts, pairs, a, b);
    NamedIff(passes, conflicts, pairs, a, a);
  }

  lemma NamedIff(passes: seq<ScheduledPass>, conflicts: seq<ScheduleConflict>, pairs: seq<(nat, nat)>, a: nat, b: nat)
    requires forall p :: p in pairs <==> p in Clashes(passes)
    requires conflicts == Conflicts(passes, pairs) && DistinctPassIds(passes) && a < |passes| && b < |passes|
    ensures ScheduleConflict(passes[a].passId, passes[b].passId, HardwareOverlap) in conflicts <==> (a, b) in pairs
  {
    var c := ScheduleConflict(passes[a].passId, passes[b].passId, HardwareOverlap);
    if c in conflicts {
      var k :| 0 <= k < |conflicts| && conflicts[k] == c;
      assert pairs[k] in pairs;
      assert pairs[k] == (a, b);
    }
    if (a, b) in pairs {
      var k :| 0 <= k < |pairs| && pairs[k] == (a, b);
      assert conflicts[k] == c;
    }
  }
}
