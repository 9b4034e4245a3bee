/**
  Pass acquisition with a shadow receiver, periodic snapshots of the demodulator and failover.
  The demodulator's per-sample step and its state type are parameters.
 */
module ShadowFailover {
  import opened Timeline

  /** Sample ids are 64-bit unsigned. */
  type SampleId = n: nat | n < U64

  /** Unsigned subtraction, which wraps around below zero. */
  function WrappingSub(a: SampleId, b: SampleId): (d: nat)
    ensures a >= b ==> d == a - b
    ensures a < b ==> d == U64 - (b - a)
  {
    if a >= b then a - b else a - b + U64
  }

  datatype Sample = Sample(i: real, q: real, eventTime: int, receptionTime: int, id: SampleId)

  /** One sample in, the next state and possibly a decoded byte out. */
  type Demod<!D> = (D, Sample) -> (D, Option<nat>)

  const MAX_SNAPSHOTS: nat := 100
  const SNAPSHOT_INTERVAL: nat := 50

  // ---------------------------------------------------------------- snapshots

  datatype Snapshot<D> = Snapshot(sampleId: SampleId, state: D, capturedAtReception: int, capturedAtEvent: int)

  datatype SnapshotManager<D> = SnapshotManager(
    snapshots: seq<Snapshot<D>>, maxSnapshots: nat, interval: nat, lastSnapshotSample: SampleId)
  {
    predicate ShouldSnapshot(id: SampleId) {
      WrappingSub(id, lastSnapshotSample) >= interval
    }

    function AddSnapshot(s: Snapshot<D>): (m: SnapshotManager<D>) {
      var all := snapshots + [s];
      this.(snapshots := if |all| > maxSnapshots then all[1..] else all)
    }

    /** Captures the state the sample is about to be applied to. */
    function CaptureIfNeeded(state: D, sample: Sample): (m: SnapshotManager<D>) {
      if ShouldSnapshot(sample.id) then
        var s := Snapshot(sample.id, state, sample.receptionTime, sample.eventTime);
        AddSnapshot(s).(lastSnapshotSample := sample.id)
      else this
    }

    function Latest(): (s: Option<Snapshot<D>>) {
      if snapshots == [] then None else Some(snapshots[|snapshots| - 1])
    }
  }

  // ---------------------------------------------------------------- the acquisition as a value

  datatype Acquisition<D> = Acquisition(
    primary: string, shadow: Option<string>,
    primaryState: D, shadowState: D,
    lastCommittedSample: SampleId, shadowActive: bool,
    manager: SnapshotManager<D>, primarySampleCount: nat)
  {
    function Process(demod: Demod<D>, sample: Sample): (a: Acquisition<D>) {
      var next := demod(primaryState, sample).0;
      this.(manager := manager.CaptureIfNeeded(primaryState, sample),
            primaryState := next,
            lastCommittedSample := sample.id,
            primarySampleCount := primarySampleCount + 1,
            shadowState := if shadowActive then next else shadowState)
    }

    function Promote(): (r: Option<Acquisition<D>>) {
      if shadow.None? then None
      else
        var restored := match manager.Latest() case None => primaryState case Some(s) => s.state;
        Some(this.(primary := shadow.value, shadow := None, primaryState := restored, shadowActive := false))
    }
  }

  function NewAcquisition<D>(primary: string, shadow: Option<string>, initial: D): (a: Acquisition<D>) {
    Acquisition(primary, shadow, initial, initial, 0, shadow.Some?,
                SnapshotManager([], MAX_SNAPSHOTS, SNAPSHOT_INTERVAL, 0), 0)
  }

  /** The acquisition after a stream of samples. */
  function After<D>(demod: Demod<D>, a: Acquisition<D>, samples: seq<Sample>): (a': Acquisition<D>) {
    if samples == [] then a
    else After(demod, a, samples[..|samples| - 1]).Process(demod, samples[|samples| - 1])
  }

  /** Plain replay of samples over a state. */
  function Replay<D>(demod: Demod<D>, state: D, samples: seq<Sample>): (state': D) {
    if samples == [] then state
    else demod(Replay(demod, state, samples[..|samples| - 1]), samples[|samples| - 1]).0
  }

  lemma {:induction false} ReplayConcat<D>(demod: Demod<D>, state: D, xs: seq<Sample>, ys: seq<Sample>)
    ensures Replay(demod, state, xs + ys) == Replay(demod, Replay(demod, state, xs), ys)
    decreases |ys|
  {
    if ys == [] {
      assert xs + ys == xs;
    } else {
      var n := |ys| - 1;
      assert (xs + ys)[..|xs + ys| - 1] == xs + ys[..n];
      ReplayConcat(demod, state, xs, ys[..n]);
    }
  }

  ghost predicate IncreasingIds(samples: seq<Sample>) {
    forall i, j | 0 <= i < j < |samples| :: samples[i].id < samples[j].id
  }

  /** The samples with id at least `id`, in order. */
  function Since(samples: seq<Sample>, id: nat): (own: seq<Sample>) {
    if samples == [] then []
    else Since(samples[..|samples| - 1], id) + if samples[|samples| - 1].id >= id then [samples[|samples| - 1]] else []
  }

  function Before(samples: seq<Sample>, id: nat): (own: seq<Sample>) {
    if samples == [] then []
    else Before(samples[..|samples| - 1], id) + if samples[|samples| - 1].id < id then [samples[|samples| - 1]] else []
  }

  lemma {:induction false} BeforeHoldsAll(samples: seq<Sample>, id: nat)
    requires forall i | 0 <= i < |samples| :: samples[i].id < id
    ensures Before(samples, id) == samples
    decreases |samples|
  {
    if samples != [] {
      BeforeHoldsAll(samples[..|samples| - 1], id);
    }
  }

  lemma {:induction false} SinceHoldsNone(samples: seq<Sample>, id: nat)
    requires forall i | 0 <= i < |samples| :: samples[i].id < id
    ensures Since(samples, id) == []
    decreases |samples|
  {
    if samples != [] {
      SinceHoldsNone(samples[..|samples| - 1], id);
    }
  }

  lemma SplitGrows(samples: seq<Sample>, id: nat)
    requires samples != [] && samples[|samples| - 1].id >= id
    requires var front := samples[..|samples| - 1]; front == Before(front, id) + Since(front, id)
    ensures samples == Before(samples, id) + Since(samples, id)
  {
    var front, last := samples[..|samples| - 1], samples[|samples| - 1];
    assert samples == front + [last];
    assert Before(samples, id) == Before(front, id) && Since(samples, id) == Since(front, id) + [last];
  }

  lemma {:induction false} SplitAtId(samples: seq<Sample>, id: nat)
    requires IncreasingIds(samples)
    ensures samples == Before(samples, id) + Since(samples, id)
    ensures samples != [] && samples[|samples| - 1].id < id ==>
              Before(samples, id) == samples && Since(samples, id) == []
    decreases |samples|
  {
    if samples != [] {
      if samples[|samples| - 1].id < id {
        BeforeHoldsAll(samples, id);
        SinceHoldsNone(samples, id);
      } else {
        SplitAtId(samples[..|samples| - 1], id);
        SplitGrows(samples, id);
      }
    }
  }

  /** A snapshot holds the state just before its own sample. */
  ghost predicate Exact<D>(demod: Demod<D>, initial: D, samples: seq<Sample>, s: Snapshot<D>) {
    s.state == Replay(demod, initial, Before(samples, s.sampleId))
  }

  /** The last snapshot is at most one interval old, and every retained one has an id of the run. */
  ghost predicate Recent<D>(samples: seq<Sample>, m: SnapshotManager<D>) {
    && |m.snapshots| <= m.maxSnapshots
    && (samples == [] ==> m.snapshots == [])
    && (forall s | s in m.snapshots :: s.sampleId <= samples[|samples| - 1].id)
    && (if m.snapshots == [] then m.lastSnapshotSample == 0
        else m.Latest().value.sampleId == m.lastSnapshotSample)
    && (samples != [] ==> 0 <= samples[|samples| - 1].id - m.lastSnapshotSample < m.interval)
  }

  ghost predicate Tracks<D>(demod: Demod<D>, initial: D, samples: seq<Sample>, a: Acquisition<D>) {
    && a.primaryState == Replay(demod, initial, samples)
    && (a.shadowActive ==> a.shadowState == a.primaryState)
    && (forall s | s in a.manager.snapshots :: Exact(demod, initial, samples, s))
  }

  lemma CaptureKeepsRecent<D>(samples: seq<Sample>, m: SnapshotManager<D>, state: D, x: Sample)
    requires Recent(samples, m) && IncreasingIds(samples + [x]) && m.maxSnapshots > 0 && m.interval > 0
    ensures Recent(samples + [x], m.CaptureIfNeeded(state, x))
  {
    var all := samples + [x];
    assert samples != [] ==> all[|samples| - 1].id < all[|samples|].id;
    assert samples == [] ==> m.lastSnapshotSample == 0;
  }

  lemma ExactAfterMore<D>(demod: Demod<D>, initial: D, samples: seq<Sample>, x: Sample, s: Snapshot<D>)
    requires Exact(demod, initial, samples, s) && s.sampleId <= x.id
    ensures Exact(demod, initial, samples + [x], s)
  {
    assert (samples + [x])[..|samples|] == samples;
    assert Before(samples, s.sampleId) + [] == Before(samples, s.sampleId);
  }

  lemma NewSnapshotIsExact<D>(demod: Demod<D>, initial: D, samples: seq<Sample>, x: Sample, s: Snapshot<D>)
    requires IncreasingIds(samples + [x])
    requires s.sampleId == x.id && s.state == Replay(demod, initial, samples)
    ensures Exact(demod, initial, samples + [x], s)
  {
    var all := samples + [x];
    assert all[..|samples|] == samples;
    assert samples != [] ==> all[|samples| - 1].id < all[|samples|].id;
    assert IncreasingIds(samples) by {
      forall i, j | 0 <= i < j < |samples| ensures samples[i].id < samples[j].id {
        assert all[i].id < all[j].id;
      }
    }
    SplitAtId(samples, x.id);
    assert Before(all, x.id) == Before(samples, x.id) == samples;
  }

  lemma ProcessKeepsTrack<D>(demod: Demod<D>, initial: D, samples: seq<Sample>, a: Acquisition<D>, x: Sample)
    requires Tracks(demod, initial, samples, a) && Recent(samples, a.manager) && IncreasingIds(samples + [x])
    ensures Tracks(demod, initial, samples + [x], a.Process(demod, x))
  {
    var all, a' := samples + [x], a.Process(demod, x);
    assert all[..|samples|] == samples;
    assert samples != [] ==> all[|samples| - 1].id < all[|samples|].id;
    forall s | s in a'.manager.snapshots ensures Exact(demod, initial, all, s) {
      if s in a.manager.snapshots {
        ExactAfterMore(demod, initial, samples, x, s);
      } else {
        NewSnapshotIsExact(demod, initial, samples, x, s);
      }
    }
  }

  lemma {:induction false} RunIsRecent<D>(demod: Demod<D>, primary: string, shadow: Option<string>, initial: D,
                                          samples: seq<Sample>)
    requires IncreasingIds(samples)
    ensures var a := After(demod, NewAcquisition(primary, shadow, initial), samples);
            && Recent(samples, a.manager)
            && a.manager.maxSnapshots == MAX_SNAPSHOTS && a.manager.interval == SNAPSHOT_INTERVAL
            && a.shadow == shadow && a.primary == primary && a.shadowActive == shadow.Some?
    decreases |samples|
  {
    if samples != [] {
      var n := |samples| - 1;
      RunIsRecent(demod, primary, shadow, initial, samples[..n]);
      var a := After(demod, NewAcquisition(primary, shadow, initial), samples[..n]);
      assert samples == samples[..n] + [samples[n]];
      CaptureKeepsRecent(samples[..n], a.manager, a.primaryState, samples[n]);
    }
  }

  lemma {:induction false} RunTracks<D>(demod: Demod<D>, primary: string, shadow: Option<string>, initial: D,
                                        samples: seq<Sample>)
    requires IncreasingIds(samples)
    ensures Tracks(demod, initial, samples, After(demod, NewAcquisition(primary, shadow, initial), samples))
    decreases |samples|
  {
    if samples != [] {
      var n := |samples| - 1;
      RunTracks(demod, primary, shadow, initial, samples[..n]);
      RunIsRecent(demod, primary, shadow, initial, samples[..n]);
      var a := After(demod, NewAcquisition(primary, shadow, initial), samples[..n]);
      assert samples == samples[..n] + [samples[n]];
      ProcessKeepsTrack(demod, initial, samples[..n], a, samples[n]);
    }
  }

  /** The ids a snapshot is due at: the first at least fifty past the one before, counting from zero. */
  function DueIds(samples: seq<Sample>): (due: seq<nat>) {
    if samples == [] then []
    else
      var due, id := DueIds(samples[..|samples| - 1]), samples[|samples| - 1].id;
      if id - LastOr0(due) >= 50 then due + [id as nat] else due
  }

  function LastOr0(ids: seq<nat>): (id: nat) {
    if ids == [] then 0 else ids[|ids| - 1]
  }

  function SnapshotIds<D>(snapshots: seq<Snapshot<D>>): (ids: seq<nat>)
    ensures |ids| == |snapshots| && forall i | 0 <= i < |snapshots| :: ids[i] == snapshots[i].sampleId
  {
    seq(|snapshots|, i requires 0 <= i < |snapshots| => snapshots[i].sampleId as nat)
  }

  function Newest(ids: seq<nat>): (kept: seq<nat>) {
    ids[|ids| - Min(|ids|, 100)..]
  }

  lemma NewestGrows(ids: seq<nat>, id: nat)
    ensures Newest(ids + [id]) == if |Newest(ids)| == 100 then Newest(ids)[1..] + [id] else Newest(ids) + [id]
  {
  }

  /** Exactly the snapshots that were due have been taken, and the newest hundred of them are kept. */
  lemma {:induction false} NewestDueAreKept<D>(demod: Demod<D>, primary: string, shadow: Option<string>, initial: D,
                                               samples: seq<Sample>)
    requires IncreasingIds(samples)
    ensures var m := After(demod, NewAcquisition(primary, shadow, initial), samples).manager;
            SnapshotIds(m.snapshots) == Newest(DueIds(samples)) && m.lastSnapshotSample == LastOr0(DueIds(samples))
    decreases |samples|
  {
    if samples != [] {
      var n := |samples| - 1;
      var front, x := samples[..n], samples[n];
      var a := After(demod, NewAcquisition(primary, shadow, initial), front);
      NewestDueAreKept(demod, primary, shadow, initial, front);
      RunIsRecent(demod, primary, shadow, initial, front);
      assert front != [] ==> front[n - 1].id < x.id;
      CaptureKeepsNewest(a.manager, a.primaryState, x, DueIds(front));
      AfterCaptures(demod, NewAcquisition(primary, shadow, initial), samples);
    }
  }

  lemma AfterCaptures<D>(demod: Demod<D>, start: Acquisition<D>, samples: seq<Sample>)
    requires samples != []
    ensures var a, x := After(demod, start, samples[..|samples| - 1]), samples[|samples| - 1];
            After(demod, start, samples).manager == a.manager.CaptureIfNeeded(a.primaryState, x)
  {
  }

  lemma CaptureKeepsNewest<D>(m: SnapshotManager<D>, state: D, x: Sample, due: seq<nat>)
    requires m.maxSnapshots == 100 && m.interval == 50 && m.lastSnapshotSample == LastOr0(due) <= x.id
    requires SnapshotIds(m.snapshots) == Newest(due)
    ensures var m', due' := m.CaptureIfNeeded(state, x), if x.id - LastOr0(due) >= 50 then due + [x.id as nat] else due;
            SnapshotIds(m'.snapshots) == Newest(due') && m'.lastSnapshotSample == LastOr0(due')
  {
    NewestGrows(due, x.id);
    assert |m.snapshots| == |SnapshotIds(m.snapshots)|;
    SnapshotAdded(m, Snapshot(x.id, state, x.receptionTime, x.eventTime));
  }

  lemma SnapshotAdded<D>(m: SnapshotManager<D>, s: Snapshot<D>)
    requires m.maxSnapshots == 100 && |m.snapshots| <= 100
    ensures var ids := SnapshotIds(m.snapshots);
            SnapshotIds(m.AddSnapshot(s).snapshots) == if |ids| == 100 then ids[1..] + [s.sampleId as nat]
                                                       else ids + [s.sampleId as nat]
  {
  }

  /** The acquisition's own books: how many samples, the last one, and what each snapshot was taken from. */
  lemma {:induction false} RunKeepsBooks<D>(demod: Demod<D>, primary: string, shadow: Option<string>, initial: D,
                                            samples: seq<Sample>)
    ensures var a := After(demod, NewAcquisition(primary, shadow, initial), samples);
            && a.primarySampleCount == |samples|
            && a.lastCommittedSample == (if samples == [] then 0 else samples[|samples| - 1].id)
            && forall s | s in a.manager.snapshots ::
                 exists x :: x in samples && s.sampleId == x.id && s.capturedAtReception == x.receptionTime &&
                             s.capturedAtEvent == x.eventTime
    decreases |samples|
  {
    if samples != [] {
      var front, last := samples[..|samples| - 1], samples[|samples| - 1];
      RunKeepsBooks(demod, primary, shadow, initial, front);
      assert last in samples && forall x | x in front :: x in samples;
    }
  }

  /**
    In every run with increasing ids: the shadow mirrors the primary, and replaying the samples
    from any retained snapshot's own sample onward over its state gives the live primary state.
   */
  lemma SnapshotPlusReplayIsLive<D>(demod: Demod<D>, primary: string, shadow: Option<string>, initial: D,
                                    samples: seq<Sample>)
    requires IncreasingIds(samples)
    ensures var a := After(demod, NewAcquisition(primary, shadow, initial), samples);
            && a.primaryState == Replay(demod, initial, samples)
            && (shadow.Some? ==> a.shadowState == a.primaryState)
            && |a.manager.snapshots| <= 100
            && forall s | s in a.manager.snapshots ::
                 Replay(demod, s.state, Since(samples, s.sampleId)) == a.primaryState
  {
    RunTracks(demod, primary, shadow, initial, samples);
    RunIsRecent(demod, primary, shadow, initial, samples);
    var a := After(demod, NewAcquisition(primary, shadow, initial), samples);
    forall s | s in a.manager.snapshots ensures Replay(demod, s.state, Since(samples, s.sampleId)) == a.primaryState {
      SplitAtId(samples, s.sampleId);
      ReplayConcat(demod, initial, Before(samples, s.sampleId), Since(samples, s.sampleId));
    }
  }

  // ---------------------------------------------------------------- how much must be replayed

  /** Increasing ids from `id` to the last one leave room for that many samples at most. */
  lemma {:induction false} SinceIsBounded(samples: seq<Sample>, id: nat)
    requires IncreasingIds(samples) && samples != [] && id <= samples[|samples| - 1].id
    ensures 1 <= |Since(samples, id)| <= samples[|samples| - 1].id + 1 - id
    decreases |samples|
  {
    var n := |samples| - 1;
    var front := samples[..n];
    if n > 0 {
      assert front[n - 1].id < samples[n].id;
      if id <= front[n - 1].id {
        SinceIsBounded(front, id);
      } else {
        SplitAtId(front, id);
      }
    }
  }

  lemma {:induction false} SinceZeroIsAll(samples: seq<Sample>)
    ensures Since(samples, 0) == samples
    decreases |samples|
  {
    if samples != [] {
      var n := |samples| - 1;
      SinceZeroIsAll(samples[..n]);
      assert samples == samples[..n] + [samples[n]];
    }
  }

  /** At least one and at most fifty samples have to be replayed, gaps in the ids or not. */
  lemma ReplayIsBounded<D>(demod: Demod<D>, primary: string, shadow: Option<string>, initial: D,
                           samples: seq<Sample>)
    requires IncreasingIds(samples) && samples != []
    ensures var m := After(demod, NewAcquisition(primary, shadow, initial), samples).manager;
            match m.Latest()
            case None => |samples| <= 50
            case Some(s) => 1 <= |Since(samples, s.sampleId)| <= 50
  {
    RunIsRecent(demod, primary, shadow, initial, samples);
    SinceIsBounded(samples, After(demod, NewAcquisition(primary, shadow, initial), samples).manager.lastSnapshotSample);
    SinceZeroIsAll(samples);
  }

  /** Whether a snapshot exists depends on the ids alone: the first id past the interval takes one. */
  lemma {:induction false} SnapshotTakenIff<D>(demod: Demod<D>, primary: string, shadow: Option<string>, initial: D,
                                               samples: seq<Sample>)
    requires IncreasingIds(samples)
    ensures After(demod, NewAcquisition(primary, shadow, initial), samples).manager.snapshots != [] <==>
            samples != [] && samples[|samples| - 1].id >= 50
    decreases |samples|
  {
    if samples != [] {
      var n := |samples| - 1;
      assert n > 0 ==> samples[n - 1].id < samples[n].id;
      SnapshotTakenIff(demod, primary, shadow, initial, samples[..n]);
      RunIsRecent(demod, primary, shadow, initial, samples[..n]);
    }
  }

  /** A sample older than the last snapshot wraps the subtraction and forces a snapshot. */
  lemma OldSampleForcesSnapshot<D>(m: SnapshotManager<D>, id: SampleId)
    requires id < m.lastSnapshotSample
    ensures m.ShouldSnapshot(id) <==> m.lastSnapshotSample - id <= U64 - m.interval
  {
  }

  // ---------------------------------------------------------------- failover

  /**
    Promotion swaps in the shadow's handle and rolls the primary state back to the latest
    snapshot; replaying the samples since then restores the live state, which the shadow's
    own state still holds.
   */
  lemma PromotionRollsBack<D>(demod: Demod<D>, primary: string, shadow: string, initial: D, samples: seq<Sample>)
    requires IncreasingIds(samples)
    ensures var a := After(demod, NewAcquisition(primary, Some(shadow), initial), samples);
            && a.Promote().Some?
            && var p := a.Promote().value;
               && p.primary == shadow && p.shadow == None && !p.shadowActive && p.Promote() == None
               && p.shadowState == a.primaryState
               && match a.manager.Latest()
                  case None => p.primaryState == a.primaryState
                  case Some(s) =>
                    p.primaryState == Replay(demod, initial, Before(samples, s.sampleId)) &&
                    Replay(demod, p.primaryState, Since(samples, s.sampleId)) == a.primaryState
  {
    RunTracks(demod, primary, Some(shadow), initial, samples);
    RunIsRecent(demod, primary, Some(shadow), initial, samples);
    SnapshotPlusReplayIsLive(demod, primary, Some(shadow), initial, samples);
    var a := After(demod, NewAcquisition(primary, Some(shadow), initial), samples);
    if a.manager.snapshots != [] {
      assert a.manager.Latest().value in a.manager.snapshots;
    }
  }

  ghost predicate PromotionKeeps<D>(demod: Demod<D>, primary: string, shadow: string, initial: D,
                                    samples: seq<Sample>)
  {
    var a := After(demod, NewAcquisition(primary, Some(shadow), initial), samples);
    a.Promote().Some? && a.Promote().value.primaryState == a.primaryState
  }

  /** Until the first snapshot promotion keeps the state, whatever the demodulator. */
  lemma NoSnapshotNoLoss<D>(demod: Demod<D>, primary: string, shadow: string, initial: D, samples: seq<Sample>)
    requires IncreasingIds(samples) && (samples == [] || samples[|samples| - 1].id < 50)
    ensures PromotionKeeps(demod, primary, shadow, initial, samples)
  {
    PromotionRollsBack(demod, primary, shadow, initial, samples);
    SnapshotTakenIff(demod, primary, Some(shadow), initial, samples);
  }

  /** The state remembers the id of the sample it was made from, as the source's does. */
  ghost predicate RecordsIds<D(!new)>(demod: Demod<D>, idOf: D -> nat) {
    forall state, sample :: idOf(demod(state, sample).0) == sample.id
  }

  lemma ReplayRecordsLast<D(!new)>(demod: Demod<D>, idOf: D -> nat, initial: D, samples: seq<Sample>)
    requires RecordsIds(demod, idOf)
    ensures idOf(Replay(demod, initial, samples)) ==
            if samples == [] then idOf(initial) else samples[|samples| - 1].id
  {
  }

  lemma {:induction false} BeforeIsEarlier(samples: seq<Sample>, id: nat)
    ensures forall s | s in Before(samples, id) :: s.id < id
    decreases |samples|
  {
    if samples != [] {
      BeforeIsEarlier(samples[..|samples| - 1], id);
    }
  }

  /**
    Failover is described as lossless. For every demodulator that records sample ids it is
    exactly while the last id is below the snapshot interval; afterwards the restored state is
    always that of an earlier sample.
   */
  lemma FailoverIsLosslessIff<D(!new)>(demod: Demod<D>, idOf: D -> nat, primary: string, shadow: string, initial: D,
                                       samples: seq<Sample>)
    requires IncreasingIds(samples) && RecordsIds(demod, idOf) && idOf(initial) == 0
    ensures PromotionKeeps(demod, primary, shadow, initial, samples) <==>
            samples == [] || samples[|samples| - 1].id < 50
  {
    if samples == [] || samples[|samples| - 1].id < 50 {
      NoSnapshotNoLoss(demod, primary, shadow, initial, samples);
    } else {
      var a := After(demod, NewAcquisition(primary, Some(shadow), initial), samples);
      PromotionRollsBack(demod, primary, shadow, initial, samples);
      SnapshotTakenIff(demod, primary, Some(shadow), initial, samples);
      RunIsRecent(demod, primary, Some(shadow), initial, samples);
      SnapshotPlusReplayIsLive(demod, primary, Some(shadow), initial, samples);
      var id := a.manager.Latest().value.sampleId;
      BeforeIsEarlier(samples, id);
      ReplayRecordsLast(demod, idOf, initial, samples);
      ReplayRecordsLast(demod, idOf, initial, Before(samples, id));
    }
  }

  // ---------------------------------------------------------------- the acquisition object

  class PassAcquisition<D(!new)> {
    const demod: Demod<D>
    var primary: string
    var shadow: Option<string>
    var primaryState: D
    var shadowState: D
    var lastCommittedSample: SampleId
    var shadowActive: bool
    var snapshots: seq<Snapshot<D>>
    var lastSnapshotSample: SampleId
    var primarySampleCount: nat

    ghost function View(): Acquisition<D>
      reads this
    {
      Acquisition(primary, shadow, primaryState, shadowState, lastCommittedSample, shadowActive,
                  SnapshotManager(snapshots, MAX_SNAPSHOTS, SNAPSHOT_INTERVAL, lastSnapshotSample), primarySampleCount)
    }

    constructor (demod: Demod<D>, primary: string, shadow: Option<string>, initial: D)
      ensures View() == NewAcquisition(primary, shadow, initial) && this.demod == demod
    {
      this.demod, this.primary, this.shadow := demod, primary, shadow;
      primaryState, shadowState, lastCommittedSample, shadowActive := initial, initial, 0, shadow.Some?;
      snapshots, lastSnapshotSample, primarySampleCount := [], 0, 0;
    }

    method ProcessPrimarySample(sample: Sample) returns (r: Option<nat>)
      modifies this
      ensures View() == old(View()).Process(demod, sample) && r == demod(old(primaryState), sample).1
    {
      if WrappingSub(sample.id, lastSnapshotSample) >= SNAPSHOT_INTERVAL {
        snapshots := snapshots + [Snapshot(sample.id, primaryState, sample.receptionTime, sample.eventTime)];
        if |snapshots| > MAX_SNAPSHOTS {
          snapshots := snapshots[1..];
        }
        lastSnapshotSample := sample.id;
      }
      var (next, decoded) := demod(primaryState, sample);
      primaryState := next;
      lastCommittedSample := sample.id;
      primarySampleCount := primarySampleCount + 1;
      if shadowActive {
        shadowState := primaryState;
      }
      return decoded;
    }

    method PromoteShadow() returns (ok: bool)
      modifies this
      ensures ok <==> old(View()).Promote().Some?
      ensures View() == if ok then old(View()).Promote().value else old(View())
    {
      if shadow.None? {
        return false;
      }
      primary, shadow := shadow.value, None;
      if snapshots != [] {
        primaryState := snapshots[|snapshots| - 1].state;
      }
      shadowActive := false;
      return true;
    }
  }
}
