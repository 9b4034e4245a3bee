/**
  Divergence detection: observations against predicted intervals, with one CUSUM
  change-point detector per (link, metric).
 */
module Divergence {
  import opened Timeline

  type LinkId = nat

  datatype MetricType = Snr | Ber | Throughput | Latency | Doppler | Rssi | Temperature | PointingError

  datatype Interval = Interval(lower: real, upper: real) {

    predicate Contains(value: real) {
      lower <= value <= upper
    }

    function Width(): (w: real) {
      upper - lower
    }

    /** Zero exactly inside the interval and positive outside, also for a reversed one. */
    function Distance(value: real): (d: real)
      ensures d >= 0.0
      ensures d == 0.0 <==> Contains(value)
    {
      if Contains(value) then 0.0 else if value < lower then lower - value else value - upper
    }
  }

  // ---------------------------------------------------------------- one CUSUM detector

  datatype Cusum = Cusum(
    cusum: real, threshold: real, reference: real, minShift: real,
    changeDetected: bool, detectionTime: Option<int>)
  {
    function Reset(): (c: Cusum) {
      this.(cusum := 0.0, changeDetected := false, detectionTime := None)
    }

    /** The new detector and whether this observation is the change point. */
    function Update(observation: real, time: int): (r: (Cusum, bool)) {
      if changeDetected then (this, false)
      else
        var s := cusum + (observation - reference) - minShift;
        var c := this.(cusum := if s > 0.0 then s else 0.0);
        if c.cusum >= threshold then (c.(changeDetected := true, detectionTime := Some(time)), true)
        else (c, false)
    }
  }

  function NewCusum(threshold: real, reference: real, minShift: real): (c: Cusum) {
    Cusum(0.0, threshold, reference, minShift, false, None)
  }

  /** Total of observation minus reference minus minShift. */
  function Excess(c: Cusum, xs: seq<real>): (sum: real) {
    if xs == [] then 0.0 else Excess(c, xs[..|xs| - 1]) + (xs[|xs| - 1] - c.reference) - c.minShift
  }

  /** `best` is the largest excess of a suffix of `xs`, the empty one included. */
  ghost predicate IsLargestSuffix(c: Cusum, xs: seq<real>, best: real) {
    && (forall k | 0 <= k <= |xs| :: Excess(c, xs[k..]) <= best)
    && (exists k :: 0 <= k <= |xs| && Excess(c, xs[k..]) == best)
  }

  ghost predicate SomeSuffixReaches(c: Cusum, xs: seq<real>) {
    exists k :: 0 <= k <= |xs| && Excess(c, xs[k..]) >= c.threshold
  }

  /** The detector after a stream of observations, each with its time. */
  function Feed(c: Cusum, xs: seq<(real, int)>): (c': Cusum) {
    if xs == [] then c else Feed(c, xs[..|xs| - 1]).Update(xs[|xs| - 1].0, xs[|xs| - 1].1).0
  }

  /** Whether the last observation of the stream is reported as the change point. */
  function Fires(c: Cusum, xs: seq<(real, int)>): (b: bool)
    requires xs != []
  {
    Feed(c, xs[..|xs| - 1]).Update(xs[|xs| - 1].0, xs[|xs| - 1].1).1
  }

  function Values(xs: seq<(real, int)>): (vs: seq<real>)
    ensures |vs| == |xs| && forall i | 0 <= i < |xs| :: vs[i] == xs[i].0
  {
    seq(|xs|, i requires 0 <= i < |xs| => xs[i].0)
  }

  /** Appending one observation: every suffix grows by it, and the empty suffix is new. */
  lemma SuffixStep(c: Cusum, xs: seq<real>, x: real, best: real)
    requires IsLargestSuffix(c, xs, best)
    ensures var s := best + (x - c.reference) - c.minShift;
            IsLargestSuffix(c, xs + [x], if s > 0.0 then s else 0.0)
  {
    var s := best + (x - c.reference) - c.minShift;
    var ys := xs + [x];
    forall k | 0 <= k <= |xs| ensures Excess(c, ys[k..]) == Excess(c, xs[k..]) + (x - c.reference) - c.minShift {
      assert ys[k..] == xs[k..] + [x];
      assert ys[k..][..|ys[k..]| - 1] == xs[k..];
    }
    assert ys[|ys|..] == [];
    var k :| 0 <= k <= |xs| && Excess(c, xs[k..]) == best;
    if s > 0.0 {
      assert Excess(c, ys[k..]) == s;
    } else {
      assert Excess(c, ys[|ys|..]) == 0.0;
    }
  }

  lemma {:induction false} FeedKeepsParameters(c: Cusum, xs: seq<(real, int)>)
    ensures var f := Feed(c, xs);
            f.threshold == c.threshold && f.reference == c.reference && f.minShift == c.minShift
    decreases |xs|
  {
    if xs != [] { FeedKeepsParameters(c, xs[..|xs| - 1]); }
  }

  /** Until detection the statistic is the largest suffix excess since the reset. */
  lemma {:induction false} CusumIsLargestSuffix(c: Cusum, xs: seq<(real, int)>)
    requires !c.changeDetected && c.cusum == 0.0 && !Feed(c, xs).changeDetected
    ensures IsLargestSuffix(c, Values(xs), Feed(c, xs).cusum)
    ensures xs != [] ==> Feed(c, xs).cusum < c.threshold
    decreases |xs|
  {
    FeedKeepsParameters(c, xs);
    if xs == [] {
      assert Values(xs)[0..] == [];
      assert Excess(c, Values(xs)[0..]) == 0.0;
    } else {
      var n := |xs| - 1;
      FeedKeepsParameters(c, xs[..n]);
      CusumIsLargestSuffix(c, xs[..n]);
      assert Values(xs) == Values(xs[..n]) + [xs[n].0];
      SuffixStep(c, Values(xs[..n]), xs[n].0, Feed(c, xs[..n]).cusum);
    }
  }

  lemma LargestReaches(c: Cusum, xs: seq<real>, best: real)
    requires IsLargestSuffix(c, xs, best)
    ensures SomeSuffixReaches(c, xs) <==> best >= c.threshold
  {
  }

  /** An undetected detector reports the next observation exactly when a suffix now reaches the threshold. */
  lemma NextFires(c: Cusum, before: seq<(real, int)>, x: (real, int))
    requires !c.changeDetected && c.cusum == 0.0 && !Feed(c, before).changeDetected
    ensures var (next, fires) := Feed(c, before).Update(x.0, x.1);
            fires == next.changeDetected && (fires <==> SomeSuffixReaches(c, Values(before + [x])))
  {
    FeedKeepsParameters(c, before);
    CusumIsLargestSuffix(c, before);
    assert Values(before + [x]) == Values(before) + [x.0];
    SuffixStep(c, Values(before), x.0, Feed(c, before).cusum);
    LargestReaches(c, Values(before + [x]), Feed(c, before).Update(x.0, x.1).0.cusum);
  }

  /** Some suffix reached the threshold after the first `m` observations. */
  ghost predicate CrossedAt(c: Cusum, xs: seq<(real, int)>, m: int) {
    0 < m <= |xs| && SomeSuffixReaches(c, Values(xs[..m]))
  }

  lemma CrossedLater(c: Cusum, before: seq<(real, int)>, x: (real, int))
    ensures (exists m :: CrossedAt(c, before + [x], m)) <==>
            (exists m :: CrossedAt(c, before, m)) || SomeSuffixReaches(c, Values(before + [x]))
  {
    var xs := before + [x];
    assert xs[..|xs|] == xs;
    assert forall m | 0 < m <= |before| :: xs[..m] == before[..m];
    if m :| CrossedAt(c, before, m) {
      assert CrossedAt(c, xs, m);
    }
    if m :| CrossedAt(c, xs, m) {
      assert m == |xs| || CrossedAt(c, before, m);
    }
    if SomeSuffixReaches(c, Values(xs)) {
      assert CrossedAt(c, xs, |xs|);
    }
  }

  lemma {:induction false} DetectedIffCrossed(c: Cusum, xs: seq<(real, int)>)
    requires !c.changeDetected && c.cusum == 0.0
    ensures Feed(c, xs).changeDetected <==> exists m :: CrossedAt(c, xs, m)
    decreases |xs|
  {
    if xs == [] {
    } else {
      var before, x := xs[..|xs| - 1], xs[|xs| - 1];
      assert xs == before + [x];
      DetectedIffCrossed(c, before);
      CrossedLater(c, before, x);
      if !Feed(c, before).changeDetected {
        NextFires(c, before, x);
      }
    }
  }

  /**
    A detector that was just created or reset reports a change point at the last of `xs`
    exactly when some suffix excess reaches the threshold there and none did after any earlier
    observation; so it reports exactly once, at the first such observation.
   */
  lemma FiresAtFirstCrossing(c: Cusum, xs: seq<(real, int)>)
    requires !c.changeDetected && c.cusum == 0.0 && xs != []
    ensures Fires(c, xs) <==> CrossedAt(c, xs, |xs|) && forall m | m < |xs| :: !CrossedAt(c, xs, m)
  {
    var before, x := xs[..|xs| - 1], xs[|xs| - 1];
    assert xs == before + [x] && xs[..|xs|] == xs;
    DetectedIffCrossed(c, before);
    assert forall m | 0 < m <= |before| :: xs[..m] == before[..m];
    assert forall m | m < |xs| :: CrossedAt(c, xs, m) <==> CrossedAt(c, before, m);
    if !Feed(c, before).changeDetected {
      NextFires(c, before, x);
    }
  }

  // ---------------------------------------------------------------- all links and metrics

  datatype Key = Key(link: LinkId, metric: MetricType)

  datatype Observation = Observation(key: Key, predicted: Interval, observed: real, eventTime: int, receptionTime: int)

  datatype MetricDivergence = MetricDivergence(observation: Observation, sigma: real, changePointAt: Option<int>)

  /** Distance from the interval, in widths when the width is positive. */
  function Sigma(o: Observation): (sigma: real)
    ensures sigma >= 0.0
    ensures sigma == 0.0 <==> o.predicted.Contains(o.observed)
    ensures sigma == 0.0 <==> o.predicted.lower <= o.observed <= o.predicted.upper
    ensures var i, x := o.predicted, o.observed;
            var unit := if i.lower < i.upper then i.upper - i.lower else 1.0;
            && (x < i.lower ==> sigma * unit == i.lower - x)
            && (i.lower <= x && i.upper < x ==> sigma * unit == x - i.upper)
  {
    var distance := o.predicted.Distance(o.observed);
    if o.predicted.Width() > 0.0 then
      assert distance > 0.0 ==> distance / o.predicted.Width() > 0.0;
      distance / o.predicted.Width()
    else distance
  }

  type Detectors = map<Key, Cusum>

  function DetectorOf(ds: Detectors, k: Key): (c: Cusum) {
    if k in ds then ds[k] else NewCusum(5.0, 0.0, 1.0)
  }

  /** The detectors after an observation and the record it produces, if any. */
  function Observe(ds: Detectors, o: Observation): (r: (Detectors, Option<MetricDivergence>)) {
    var (detector, changed) := DetectorOf(ds, o.key).Update(Sigma(o), o.receptionTime);
    (ds[o.key := detector],
     if !o.predicted.Contains(o.observed) || changed
     then Some(MetricDivergence(o, Sigma(o), if changed then detector.detectionTime else None))
     else None)
  }

  function ResetAll(ds: Detectors): (ds': Detectors) {
    map k | k in ds :: ds[k].Reset()
  }

  datatype Event = Observed(o: Observation) | ResetDetectors

  function DetectorsAfter(events: seq<Event>): (ds: Detectors) {
    if events == [] then map[]
    else
      var before := DetectorsAfter(events[..|events| - 1]);
      match events[|events| - 1]
      case Observed(o) => Observe(before, o).0
      case ResetDetectors => ResetAll(before)
  }

  /** The record produced by the last event. */
  function LastRecord(events: seq<Event>): (r: Option<MetricDivergence>)
    requires events != [] && events[|events| - 1].Observed?
  {
    Observe(DetectorsAfter(events[..|events| - 1]), events[|events| - 1].o).1
  }

  /** What one (link, metric) sees: its own observations and the resets. */
  function Project(events: seq<Event>, k: Key): (own: seq<Event>) {
    if events == [] then []
    else
      var last := events[|events| - 1];
      Project(events[..|events| - 1], k) + if last.Observed? && last.o.key != k then [] else [last]
  }

  /** A detector is never touched by the observations of other links or metrics. */
  lemma {:induction false} StreamsDoNotMix(events: seq<Event>, k: Key)
    ensures DetectorOf(DetectorsAfter(events), k) == DetectorOf(DetectorsAfter(Project(events, k)), k)
    decreases |events|
  {
    if events == [] {
    } else {
      var n := |events| - 1;
      var last, own := events[n], Project(events[..n], k);
      StreamsDoNotMix(events[..n], k);
      if last.Observed? && last.o.key != k {
        assert own + [] == own;
      } else {
        assert (own + [last])[..|own|] == own;
      }
    }
  }

  /** The records of one (link, metric) are those of a detector that saw nothing else. */
  lemma ResultsDoNotMix(events: seq<Event>)
    requires events != [] && events[|events| - 1].Observed?
    ensures var own := Project(events, events[|events| - 1].o.key);
            own != [] && own[|own| - 1] == events[|events| - 1] && LastRecord(own) == LastRecord(events)
  {
    var n := |events| - 1;
    var last := events[n];
    var own := Project(events[..n], last.o.key);
    StreamsDoNotMix(events[..n], last.o.key);
    assert Project(events, last.o.key) == own + [last];
    assert (own + [last])[..|own|] == own;
  }

  /** The sigmas one (link, metric) has produced since the last reset, with their times. */
  function SinceReset(events: seq<Event>, k: Key): (xs: seq<(real, int)>) {
    if events == [] then []
    else
      var before := SinceReset(events[..|events| - 1], k);
      match events[|events| - 1]
      case ResetDetectors => []
      case Observed(o) => if o.key == k then before + [(Sigma(o), o.receptionTime)] else before
  }

  lemma {:induction false} DetectorFollowsItsStream(events: seq<Event>, k: Key)
    ensures DetectorOf(DetectorsAfter(events), k) == Feed(NewCusum(5.0, 0.0, 1.0), SinceReset(events, k))
    decreases |events|
  {
    var start := NewCusum(5.0, 0.0, 1.0);
    if events == [] {
    } else {
      var n := |events| - 1;
      var before := SinceReset(events[..n], k);
      DetectorFollowsItsStream(events[..n], k);
      match events[n]
      case ResetDetectors =>
        FeedKeepsParameters(start, before);
        assert Feed(start, before).Reset() == start;
      case Observed(o) =>
        if o.key == k {
          assert (before + [(Sigma(o), o.receptionTime)])[..|before|] == before;
        }
    }
  }

  /**
    End to end, for any interleaving of links, metrics and resets: a record appears exactly
    when the observation lies outside its interval, and it is marked as a change point, at its
    own reception time, exactly when the stream of its (link, metric) since the last reset
    first has a suffix whose sigmas exceed one each by five in total.
   */
  lemma RecordsAreExact(events: seq<Event>)
    requires events != [] && events[|events| - 1].Observed?
    ensures var o := events[|events| - 1].o;
            var xs := SinceReset(events, o.key);
            var c := NewCusum(5.0, 0.0, 1.0);
            && (LastRecord(events).Some? <==> !o.predicted.Contains(o.observed))
            && (LastRecord(events).Some? ==>
                  && LastRecord(events).value.observation == o && LastRecord(events).value.sigma == Sigma(o)
                  && LastRecord(events).value.changePointAt ==
                     if CrossedAt(c, xs, |xs|) && (forall m | m < |xs| :: !CrossedAt(c, xs, m))
                     then Some(o.receptionTime) else None)
  {
    var n := |events| - 1;
    var o, c := events[n].o, NewCusum(5.0, 0.0, 1.0);
    var before, xs := SinceReset(events[..n], o.key), SinceReset(events, o.key);
    DetectorFollowsItsStream(events[..n], o.key);
    assert xs == before + [(Sigma(o), o.receptionTime)] && xs[..|before|] == before;
    FiresAtFirstCrossing(c, xs);
    if o.predicted.Contains(o.observed) {
      InsideNeverFires(c, before, o.receptionTime);
    }
  }

  lemma RecordedIffOutside(events: seq<Event>, o: Observation)
    ensures var all := events + [Observed(o)];
            && all[..|events|] == events
            && (LastRecord(all).Some? <==> !o.predicted.Contains(o.observed))
  {
    RecordsAreExact(events + [Observed(o)]);
  }

  function Total(xs: seq<real>): (sum: real) {
    if xs == [] then 0.0 else Total(xs[..|xs| - 1]) + xs[|xs| - 1]
  }

  lemma {:induction false} ExcessIsTotal(c: Cusum, xs: seq<real>)
    requires c.reference == 0.0 && c.minShift == 1.0
    ensures Excess(c, xs) == Total(xs) - |xs| as real
    decreases |xs|
  {
    if xs != [] {
      ExcessIsTotal(c, xs[..|xs| - 1]);
    }
  }

  /** With the detector's parameters a crossing is a stretch whose sigmas exceed one each by five in total. */
  lemma CrossingMeans(xs: seq<(real, int)>, m: nat)
    requires 0 < m <= |xs|
    ensures CrossedAt(NewCusum(5.0, 0.0, 1.0), xs, m) <==>
            exists k :: 0 <= k <= m && Total(Values(xs[..m])[k..]) >= 5.0 + (m - k) as real
  {
    var c, vs := NewCusum(5.0, 0.0, 1.0), Values(xs[..m]);
    forall k | 0 <= k <= m
      ensures Excess(c, vs[k..]) >= c.threshold <==> Total(vs[k..]) >= 5.0 + (m - k) as real
    {
      ExcessIsTotal(c, vs[k..]);
    }
  }

  /** An in-interval sample has sigma zero, which cannot carry the statistic over the threshold. */
  lemma InsideNeverFires(c: Cusum, xs: seq<(real, int)>, time: int)
    requires c == NewCusum(5.0, 0.0, 1.0)
    ensures !Feed(c, xs).Update(0.0, time).1
  {
    FeedKeepsParameters(c, xs);
    if !Feed(c, xs).changeDetected {
      CusumIsLargestSuffix(c, xs);
    }
  }

  // ---------------------------------------------------------------- the detector object

  class DivergenceDetector {
    var detectors: Detectors
    var divergenceLog: seq<MetricDivergence>
    const anomalyThreshold: real

    constructor (anomalyThreshold: real)
      ensures detectors == DetectorsAfter([]) && divergenceLog == [] && this.anomalyThreshold == anomalyThreshold
    {
      detectors, divergenceLog := map[], [];
      this.anomalyThreshold := anomalyThreshold;
    }

    /** `events` is everything this detector has seen so far. */
    method ProcessObservation(o: Observation, ghost events: seq<Event>) returns (r: Option<MetricDivergence>)
      requires detectors == DetectorsAfter(events)
      modifies this
      ensures detectors == DetectorsAfter(events + [Observed(o)])
      ensures r == LastRecord(events + [Observed(o)])
      ensures r.Some? <==> !o.predicted.Contains(o.observed)
      ensures divergenceLog == old(divergenceLog) + if r.Some? then [r.value] else []
    {
      RecordedIffOutside(events, o);
      var sigma := Sigma(o);
      var isAnomaly := !o.predicted.Contains(o.observed);
      if o.key !in detectors {
        detectors := detectors[o.key := NewCusum(5.0, 0.0, 1.0)];
      }
      var (detector, changeDetected) := detectors[o.key].Update(sigma, o.receptionTime);
      detectors := detectors[o.key := detector];
      if isAnomaly || changeDetected {
        var divergence := MetricDivergence(o, sigma, None);
        if changeDetected && detector.detectionTime.Some? {
          divergence := divergence.(changePointAt := detector.detectionTime);
        }
        divergenceLog := divergenceLog + [divergence];
        r := Some(divergence);
      } else {
        r := None;
      }
    }

    method ClearLog()
      modifies this
      ensures divergenceLog == [] && detectors == old(detectors)
    {
      divergenceLog := [];
    }

    method ResetDetectors(ghost events: seq<Event>)
      requires detectors == DetectorsAfter(events)
      modifies this
      ensures detectors == DetectorsAfter(events + [Event.ResetDetectors]) && divergenceLog == old(divergenceLog)
    {
      assert (events + [Event.ResetDetectors])[..|events|] == events;
      detectors := map k | k in detectors :: detectors[k].Reset();
    }
  }
}
