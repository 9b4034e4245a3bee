/**
  Pass prediction: a sampled elevation profile is cut into the maximal runs of samples at or
  above the station's minimum elevation. Elevation and range of a sample are its inputs.
 */
module PassPrediction {
  import opened Timeline

  type StationId = string

  datatype Sample = Sample(time: int, elevation: real, range: real)

  datatype PassWindow = PassWindow(riseTime: int, setTime: int, maxElevation: real, maxElevationTime: int)

  datatype Pass = Pass(satellite: string, station: StationId, window: PassWindow, maxRange: real)

  datatype TrackingError = StationNotFound(station: StationId)

  /** Samples `lo` up to but not including `hi` are up, and neither neighbour is. */
  ghost predicate MaximalRun(profile: seq<Sample>, minimum: real, lo: nat, hi: nat) {
    && lo < hi <= |profile|
    && (forall k | lo <= k < hi :: profile[k].elevation >= minimum)
    && (lo > 0 ==> profile[lo - 1].elevation < minimum)
    && (hi < |profile| ==> profile[hi].elevation < minimum)
  }

  /** `elevation` is the largest over the run and `time` that of its first occurrence. */
  ghost predicate IsPeak(profile: seq<Sample>, lo: nat, hi: nat, elevation: real, time: int)
    requires lo < hi <= |profile|
  {
    && (forall k | lo <= k < hi :: profile[k].elevation <= elevation)
    && exists k :: lo <= k < hi && profile[k].elevation == elevation && profile[k].time == time &&
                   forall j | lo <= j < k :: profile[j].elevation < elevation
  }

  ghost predicate IsFarthest(profile: seq<Sample>, lo: nat, hi: nat, range: real)
    requires lo < hi <= |profile|
  {
    (forall k | lo <= k < hi :: profile[k].range <= range) && exists k :: lo <= k < hi && profile[k].range == range
  }

  /** `p` describes the run from `lo` to `hi`. */
  ghost predicate Describes(profile: seq<Sample>, lo: nat, hi: nat, p: Pass)
    requires lo < hi <= |profile|
  {
    && p.window.riseTime == profile[lo].time
    && p.window.setTime == profile[if hi < |profile| then hi else |profile| - 1].time
    && IsPeak(profile, lo, hi, p.window.maxElevation, p.window.maxElevationTime)
    && IsFarthest(profile, lo, hi, p.maxRange)
  }

  ghost predicate InOrder(runs: seq<(nat, nat)>) {
    forall i, j | 0 <= i < j < |runs| :: runs[i].1 < runs[j].0
  }

  ghost predicate Holds(runs: seq<(nat, nat)>, k: nat) {
    exists i :: 0 <= i < |runs| && runs[i].0 <= k < runs[i].1
  }

  /** The passes found so far, one per closed run. */
  ghost predicate Matched(profile: seq<Sample>, minimum: real, satellite: string, station: StationId,
                          runs: seq<(nat, nat)>, passes: seq<Pass>)
  {
    && |runs| == |passes| && InOrder(runs)
    && forall i | 0 <= i < |runs| ::
         MaximalRun(profile, minimum, runs[i].0, runs[i].1) && Describes(profile, runs[i].0, runs[i].1, passes[i]) &&
         passes[i].satellite == satellite && passes[i].station == station
  }

  /** Maximal runs that share a sample are the same run. */
  lemma SharedSampleSameRun(profile: seq<Sample>, minimum: real, lo: nat, hi: nat, lo': nat, hi': nat, k: nat)
    requires MaximalRun(profile, minimum, lo, hi) && MaximalRun(profile, minimum, lo', hi')
    requires lo <= k < hi && lo' <= k < hi'
    ensures lo == lo' && hi == hi'
  {
  }

  lemma PeakGrows(profile: seq<Sample>, lo: nat, hi: nat, elevation: real, time: int)
    requires lo < hi < |profile| && IsPeak(profile, lo, hi, elevation, time)
    ensures if profile[hi].elevation > elevation
            then IsPeak(profile, lo, hi + 1, profile[hi].elevation, profile[hi].time)
            else IsPeak(profile, lo, hi + 1, elevation, time)
  {
  }

  lemma FarthestGrows(profile: seq<Sample>, lo: nat, hi: nat, range: real)
    requires lo < hi < |profile| && IsFarthest(profile, lo, hi, range)
    ensures IsFarthest(profile, lo, hi + 1, if profile[hi].range > range then profile[hi].range else range)
  {
  }

  lemma CoveredRunsAreAll(profile: seq<Sample>, minimum: real, satellite: string, station: StationId,
                          runs: seq<(nat, nat)>, passes: seq<Pass>, lo: nat, hi: nat)
    requires Matched(profile, minimum, satellite, station, runs, passes)
    requires AllHeld(profile, minimum, runs)
    ensures (lo, hi) in runs <==> MaximalRun(profile, minimum, lo, hi)
  {
    if MaximalRun(profile, minimum, lo, hi) {
      assert Holds(runs, lo);
      var i :| 0 <= i < |runs| && runs[i].0 <= lo < runs[i].1;
      SharedSampleSameRun(profile, minimum, lo, hi, runs[i].0, runs[i].1, lo);
      assert runs[i] == (lo, hi);
    }
  }

  ghost predicate AllHeld(profile: seq<Sample>, minimum: real, runs: seq<(nat, nat)>) {
    forall k: nat | k < |profile| && profile[k].elevation >= minimum :: Holds(runs, k)
  }

  // ---------------------------------------------------------------- the scan

  /** The running values of a pass. */
  datatype Running = Running(riseTime: int, maxElevation: real, maxElevationTime: int, maxRange: real)

  function Rise(s: Sample): (c: Running) {
    Running(s.time, s.elevation, s.time, s.range)
  }

  function Continue(c: Running, s: Sample): (c': Running) {
    var c1 := if s.elevation > c.maxElevation then c.(maxElevation := s.elevation, maxElevationTime := s.time) else c;
    if s.range > c.maxRange then c1.(maxRange := s.range) else c1
  }

  function Finish(c: Running, setTime: int, satellite: string, station: StationId): (p: Pass) {
    Pass(satellite, station, PassWindow(c.riseTime, setTime, c.maxElevation, c.maxElevationTime), c.maxRange)
  }

  /** The running values after samples `lo` up to `hi`. */
  function Accumulate(profile: seq<Sample>, lo: nat, hi: nat): (c: Running)
    requires lo < hi <= |profile|
    decreases hi
  {
    if hi == lo + 1 then Rise(profile[lo]) else Continue(Accumulate(profile, lo, hi - 1), profile[hi - 1])
  }

  lemma {:induction false} AccumulateIsExtreme(profile: seq<Sample>, lo: nat, hi: nat)
    requires lo < hi <= |profile|
    ensures var c := Accumulate(profile, lo, hi);
            && c.riseTime == profile[lo].time
            && IsPeak(profile, lo, hi, c.maxElevation, c.maxElevationTime) && IsFarthest(profile, lo, hi, c.maxRange)
    decreases hi
  {
    if hi > lo + 1 {
      AccumulateIsExtreme(profile, lo, hi - 1);
      var c := Accumulate(profile, lo, hi - 1);
      PeakGrows(profile, lo, hi - 1, c.maxElevation, c.maxElevationTime);
      FarthestGrows(profile, lo, hi - 1, c.maxRange);
    }
  }

  ghost predicate IsRun(profile: seq<Sample>, run: (nat, nat)) {
    run.0 < run.1 <= |profile|
  }

  ghost function PassOf(profile: seq<Sample>, run: (nat, nat), satellite: string, station: StationId): Pass
    requires IsRun(profile, run)
  {
    var last := if run.1 < |profile| then run.1 else |profile| - 1;
    Finish(Accumulate(profile, run.0, run.1), profile[last].time, satellite, station)
  }

  ghost function PassesOf(profile: seq<Sample>, runs: seq<(nat, nat)>, satellite: string, station: StationId)
    : (ps: seq<Pass>)
    requires forall r | r in runs :: IsRun(profile, r)
    ensures |ps| == |runs| && forall i | 0 <= i < |runs| :: ps[i] == PassOf(profile, runs[i], satellite, station)
  {
    seq(|runs|, i requires 0 <= i < |runs| => assert runs[i] in runs; PassOf(profile, runs[i], satellite, station))
  }

  /** The closed runs among the first `k` samples and, if `inPass`, where the open one rose. */
  datatype Scan = Scan(runs: seq<(nat, nat)>, inPass: bool, lo: nat)

  ghost function ScanTo(profile: seq<Sample>, minimum: real, k: nat): Scan
    requires k <= |profile|
    decreases k
  {
    if k == 0 then Scan([], false, 0)
    else
      var s := ScanTo(profile, minimum, k - 1);
      if profile[k - 1].elevation >= minimum then if s.inPass then s else Scan(s.runs, true, k - 1)
      else if s.inPass then Scan(s.runs + [(s.lo, k - 1)], false, s.lo)
      else s
  }

  ghost predicate OpenRun(profile: seq<Sample>, minimum: real, lo: nat, k: nat) {
    && lo < k <= |profile| && (lo > 0 ==> profile[lo - 1].elevation < minimum)
    && (forall j | lo <= j < k :: profile[j].elevation >= minimum)
  }

  ghost predicate MaximalRuns(profile: seq<Sample>, minimum: real, runs: seq<(nat, nat)>) {
    InOrder(runs) && forall i | 0 <= i < |runs| :: MaximalRun(profile, minimum, runs[i].0, runs[i].1)
  }

  /** Closed runs are maximal and in order, the open one comes last, and together they hold every sample that is up. */
  ghost predicate Sound(profile: seq<Sample>, minimum: real, k: nat, s: Scan)
    requires k <= |profile|
  {
    && MaximalRuns(profile, minimum, s.runs)
    && (forall i | 0 <= i < |s.runs| :: s.runs[i].1 < if s.inPass then s.lo else k)
    && (if s.inPass then OpenRun(profile, minimum, s.lo, k) else k > 0 ==> profile[k - 1].elevation < minimum)
    && forall j: nat | j < k && profile[j].elevation >= minimum :: Holds(s.runs, j) || (s.inPass && s.lo <= j)
  }

  lemma RiseIsSound(profile: seq<Sample>, minimum: real, k: nat, s: Scan)
    requires k < |profile| && Sound(profile, minimum, k, s) && !s.inPass && profile[k].elevation >= minimum
    ensures Sound(profile, minimum, k + 1, Scan(s.runs, true, k))
  {
  }

  lemma ContinueIsSound(profile: seq<Sample>, minimum: real, k: nat, s: Scan)
    requires k < |profile| && Sound(profile, minimum, k, s)
    requires s.inPass == (profile[k].elevation >= minimum)
    ensures Sound(profile, minimum, k + 1, s)
  {
  }

  lemma SetIsSound(profile: seq<Sample>, minimum: real, k: nat, s: Scan)
    requires k < |profile| && Sound(profile, minimum, k, s) && s.inPass && profile[k].elevation < minimum
    ensures Sound(profile, minimum, k + 1, Scan(s.runs + [(s.lo, k)], false, s.lo))
  {
    MaximalRunsGrow(profile, minimum, s.runs, (s.lo, k));
    HoldsMore(s.runs, (s.lo, k));
  }

  lemma MaximalRunsGrow(profile: seq<Sample>, minimum: real, runs: seq<(nat, nat)>, run: (nat, nat))
    requires MaximalRuns(profile, minimum, runs) && MaximalRun(profile, minimum, run.0, run.1)
    requires forall i | 0 <= i < |runs| :: runs[i].1 < run.0
    ensures MaximalRuns(profile, minimum, runs + [run])
  {
  }

  lemma {:induction false} ScanIsSound(profile: seq<Sample>, minimum: real, k: nat)
    requires k <= |profile|
    ensures Sound(profile, minimum, k, ScanTo(profile, minimum, k))
    decreases k
  {
    if k > 0 {
      ScanIsSound(profile, minimum, k - 1);
      var s, i := ScanTo(profile, minimum, k - 1), k - 1;
      if s.inPass == (profile[i].elevation >= minimum) {
        ContinueIsSound(profile, minimum, i, s);
        assert ScanTo(profile, minimum, k) == s;
      } else if s.inPass {
        SetIsSound(profile, minimum, i, s);
        assert ScanTo(profile, minimum, k) == Scan(s.runs + [(s.lo, i)], false, s.lo);
      } else {
        RiseIsSound(profile, minimum, i, s);
        assert ScanTo(profile, minimum, k) == Scan(s.runs, true, i);
      }
    }
  }

  /** The closed runs at the end of the profile, with the open one closed there. */
  ghost function AllRuns(profile: seq<Sample>, minimum: real): seq<(nat, nat)> {
    var s := ScanTo(profile, minimum, |profile|);
    if s.inPass then s.runs + [(s.lo, |profile|)] else s.runs
  }

  lemma AllRunsAreMaximal(profile: seq<Sample>, minimum: real)
    ensures MaximalRuns(profile, minimum, AllRuns(profile, minimum))
    ensures AllHeld(profile, minimum, AllRuns(profile, minimum))
  {
    ScanIsSound(profile, minimum, |profile|);
    var s := ScanTo(profile, minimum, |profile|);
    if s.inPass {
      MaximalRunsGrow(profile, minimum, s.runs, (s.lo, |profile|));
      HoldsMore(s.runs, (s.lo, |profile|));
    }
  }

  lemma PassesMatch(profile: seq<Sample>, minimum: real, satellite: string, station: StationId, runs: seq<(nat, nat)>)
    requires MaximalRuns(profile, minimum, runs) && forall r | r in runs :: IsRun(profile, r)
    ensures Matched(profile, minimum, satellite, station, runs, PassesOf(profile, runs, satellite, station))
  {
    forall i | 0 <= i < |runs|
      ensures Describes(profile, runs[i].0, runs[i].1, PassesOf(profile, runs, satellite, station)[i])
    {
      assert runs[i] in runs;
      AccumulateIsExtreme(profile, runs[i].0, runs[i].1);
    }
  }

  lemma PassesGrow(profile: seq<Sample>, runs: seq<(nat, nat)>, run: (nat, nat), satellite: string, station: StationId)
    requires (forall r | r in runs :: IsRun(profile, r)) && IsRun(profile, run)
    ensures forall r | r in runs + [run] :: IsRun(profile, r)
    ensures PassesOf(profile, runs + [run], satellite, station) ==
            PassesOf(profile, runs, satellite, station) + [PassOf(profile, run, satellite, station)]
  {
  }

  /** The loop over the profile: one pass per run of the scan. */
  method ScanProfile(satellite: string, profile: seq<Sample>, station: StationId, minimum: real)
    returns (passes: seq<Pass>)
    ensures forall r | r in AllRuns(profile, minimum) :: IsRun(profile, r)
    ensures passes == PassesOf(profile, AllRuns(profile, minimum), satellite, station)
  {
    passes := [];
    ghost var runs: seq<(nat, nat)> := [];
    var inPass := false;
    var current := Running(0, 0.0, 0, 0.0);
    ghost var lo: nat := 0;
    for k := 0 to |profile|
      invariant ScanTo(profile, minimum, k) == Scan(runs, inPass, lo)
      invariant inPass ==> lo < k && current == Accumulate(profile, lo, k)
      invariant (forall r | r in runs :: IsRun(profile, r)) && passes == PassesOf(profile, runs, satellite, station)
    {
      var state := profile[k];
      if state.elevation >= minimum {
        if !inPass {
          inPass, current := true, Rise(state);
          lo := k;
        } else {
          current := Continue(current, state);
        }
      } else if inPass {
        inPass := false;
        PassesGrow(profile, runs, (lo, k), satellite, station);
        passes := passes + [Finish(current, state.time, satellite, station)];
        runs := runs + [(lo, k)];
      }
    }
    if inPass {
      PassesGrow(profile, runs, (lo, |profile|), satellite, station);
      passes := passes + [Finish(current, profile[|profile| - 1].time, satellite, station)];
      runs := runs + [(lo, |profile|)];
    }
  }

  /**
    The passes are exactly the maximal runs of the profile, in order; `runs` gives the samples
    each one spans.
   */
  method PredictPasses(stations: map<StationId, real>, satellite: string, profile: seq<Sample>, station: StationId)
    returns (r: Result<seq<Pass>, TrackingError>, ghost runs: seq<(nat, nat)>)
    ensures station !in stations ==> r == Err(StationNotFound(station))
    ensures station in stations ==>
              r.Ok? && Matched(profile, stations[station], satellite, station, runs, r.value)
    ensures station in stations ==>
              forall lo: nat, hi: nat :: (lo, hi) in runs <==> MaximalRun(profile, stations[station], lo, hi)
  {
    if station !in stations {
      return Err(StationNotFound(station)), [];
    }
    var passes := ScanProfile(satellite, profile, station, stations[station]);
    runs := AllRuns(profile, stations[station]);
    AllRunsAreMaximal(profile, stations[station]);
    PassesMatch(profile, stations[station], satellite, station, runs);
    forall lo: nat, hi: nat ensures (lo, hi) in runs <==> MaximalRun(profile, stations[station], lo, hi) {
      CoveredRunsAreAll(profile, stations[station], satellite, station, runs, passes, lo, hi);
    }
    r := Ok(passes);
  }

  lemma HoldsMore(runs: seq<(nat, nat)>, run: (nat, nat))
    ensures forall k: nat :: Holds(runs + [run], k) <==> Holds(runs, k) || run.0 <= k < run.1
  {
    var all := runs + [run];
    forall k: nat ensures Holds(all, k) <==> Holds(runs, k) || run.0 <= k < run.1 {
      if i :| 0 <= i < |runs| && runs[i].0 <= k < runs[i].1 {
        assert all[i].0 <= k < all[i].1;
      }
      if run.0 <= k < run.1 {
        assert all[|runs|] == run;
      }
    }
  }

  ghost predicate TimeOrdered(profile: seq<Sample>) {
    forall i, j | 0 <= i < j < |profile| :: profile[i].time <= profile[j].time
  }

  /** On a time-ordered profile each pass sets before the next one rises, and peaks in between. */
  lemma PassesAreDisjointInTime(profile: seq<Sample>, minimum: real, satellite: string, station: StationId,
                                runs: seq<(nat, nat)>, passes: seq<Pass>, i: nat, j: nat)
    requires TimeOrdered(profile) && Matched(profile, minimum, satellite, station, runs, passes) && i < j < |passes|
    ensures passes[i].window.riseTime <= passes[i].window.maxElevationTime <= passes[i].window.setTime
    ensures passes[i].window.setTime <= passes[j].window.riseTime
  {
  }
}
