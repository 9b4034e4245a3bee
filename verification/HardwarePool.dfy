/**
  The hardware pool shared by concurrent passes.

  A region that holds the device lock is one atomic step. `allocate` is one such step; a
  release is two: it copies its record under the allocation lock, lets go of it, and acts on
  that copy later. `System` is the pool together with the copies held by unfinished releases.
 */
module HardwarePool {
  import opened Timeline

  type DeviceId = string
  type PassId = string

  datatype HardwareType = Sdr | Rotator | Antenna | Amplifier

  datatype Device = Device(kind: HardwareType, healthy: bool, holder: Option<PassId>) {
    predicate IsAvailable() {
      healthy && holder.None?
    }
  }

  datatype Record = Record(pass: PassId, devices: seq<DeviceId>, allocatedAt: int, expectedDurationSec: nat)

  datatype HardwareError =
    | DeviceNotFound(device: DeviceId)
    | DeviceNotAvailable(device: DeviceId)
    | NoAllocation(pass: PassId)

  // ---------------------------------------------------------------- the two loops over device ids

  /** Takes the devices one by one for `pass`; stops at the first that cannot be taken. */
  function Take(devices: map<DeviceId, Device>, ids: seq<DeviceId>, pass: PassId)
    : (r: (map<DeviceId, Device>, Option<HardwareError>))
    ensures r.0.Keys == devices.Keys
    decreases |ids|
  {
    if ids == [] then (devices, None)
    else if ids[0] !in devices then (devices, Some(DeviceNotFound(ids[0])))
    else if !devices[ids[0]].IsAvailable() then (devices, Some(DeviceNotAvailable(ids[0])))
    else Take(devices[ids[0] := devices[ids[0]].(holder := Some(pass))], ids[1..], pass)
  }

  /** Frees the listed devices that `pass` holds and ignores the others. */
  function Free(devices: map<DeviceId, Device>, ids: seq<DeviceId>, pass: PassId): (r: map<DeviceId, Device>)
    ensures r.Keys == devices.Keys
    decreases |ids|
  {
    if ids == [] then devices
    else if ids[0] in devices && devices[ids[0]].holder == Some(pass) then
      Free(devices[ids[0] := devices[ids[0]].(holder := None)], ids[1..], pass)
    else Free(devices, ids[1..], pass)
  }

  /** What a take does to one device, in terms of the devices before it. */
  lemma {:induction false} TakeEffect(devices: map<DeviceId, Device>, ids: seq<DeviceId>, pass: PassId, d: DeviceId)
    ensures var (after, error) := Take(devices, ids, pass);
            && (d in devices && devices[d].holder.Some? ==> after[d] == devices[d])
            && (d in devices && d !in ids ==> after[d] == devices[d])
            && (d in devices ==> after[d].healthy == devices[d].healthy)
            && (error.None? && d in ids ==> d in devices && devices[d].IsAvailable() && after[d].holder == Some(pass))
    decreases |ids|
  {
    if ids == [] || ids[0] !in devices || !devices[ids[0]].IsAvailable() {
    } else {
      TakeEffect(devices[ids[0] := devices[ids[0]].(holder := Some(pass))], ids[1..], pass, d);
    }
  }

  lemma {:induction false} FreeEffect(devices: map<DeviceId, Device>, ids: seq<DeviceId>, pass: PassId, d: DeviceId)
    ensures d in devices ==>
              Free(devices, ids, pass)[d] ==
              if d in ids && devices[d].holder == Some(pass) then devices[d].(holder := None) else devices[d]
    decreases |ids|
  {
    if ids == [] {
    } else {
      var next := if ids[0] in devices && devices[ids[0]].holder == Some(pass)
                  then devices[ids[0] := devices[ids[0]].(holder := None)] else devices;
      FreeEffect(next, ids[1..], pass, d);
    }
  }

  /**
    A take fails at the first id that is unknown, unavailable or already in the list, and by
    then every earlier device is held by the pass.
   */
  lemma {:induction false} TakeFailsPartway(devices: map<DeviceId, Device>, ids: seq<DeviceId>, pass: PassId)
    returns (k: nat)
    requires Take(devices, ids, pass).1.Some?
    ensures k < |ids|
    ensures forall i | 0 <= i < k :: ids[i] in devices && devices[ids[i]].IsAvailable() &&
                                     Take(devices, ids, pass).0[ids[i]].holder == Some(pass)
    ensures ids[k] !in devices || !devices[ids[k]].IsAvailable() || ids[k] in ids[..k]
    ensures k == 0 ==> Take(devices, ids, pass).0 == devices
    decreases |ids|
  {
    if ids[0] !in devices || !devices[ids[0]].IsAvailable() {
      k := 0;
    } else {
      var next := devices[ids[0] := devices[ids[0]].(holder := Some(pass))];
      var j := TakeFailsPartway(next, ids[1..], pass);
      k := j + 1;
      var after := Take(devices, ids, pass).0;
      forall i | 0 <= i < k
        ensures ids[i] in devices && devices[ids[i]].IsAvailable() && after[ids[i]].holder == Some(pass)
      {
        if i == 0 {
          TakeEffect(next, ids[1..], pass, ids[0]);
        } else {
          assert ids[1..][i - 1] == ids[i];
        }
      }
      assert ids[1..][..j] == ids[1..k];
      assert ids[..k] == [ids[0]] + ids[1..k];
    }
  }

  /** The pool has the device, it is healthy and nobody holds it. */
  predicate CanBeTaken(devices: map<DeviceId, Device>, d: DeviceId) {
    d in devices && devices[d].healthy && devices[d].holder == None
  }

  /** A take succeeds exactly when the ids are distinct and each names a healthy device that is free. */
  lemma {:induction false} TakeSucceedsIff(devices: map<DeviceId, Device>, ids: seq<DeviceId>, pass: PassId)
    ensures Take(devices, ids, pass).1.None? <==> Distinct(ids) && forall d | d in ids :: CanBeTaken(devices, d)
    decreases |ids|
  {
    if ids != [] {
      var first, rest := ids[0], ids[1..];
      assert ids == [first] + rest && first in ids;
      if CanBeTaken(devices, first) {
        var next := devices[first := devices[first].(holder := Some(pass))];
        TakeSucceedsIff(next, rest, pass);
        assert forall d | d != first :: CanBeTaken(next, d) <==> CanBeTaken(devices, d);
        DistinctByFirst(ids);
      }
    }
  }

  lemma DistinctByFirst(ids: seq<DeviceId>)
    requires ids != []
    ensures Distinct(ids) <==> ids[0] !in ids[1..] && Distinct(ids[1..])
  {
    if Distinct(ids) {
      DistinctTail(ids);
    }
    if ids[0] !in ids[1..] && Distinct(ids[1..]) {
      forall i, j | 0 <= i < j < |ids| ensures ids[i] != ids[j] {
        assert ids[j] == ids[1..][j - 1];
        assert i > 0 ==> ids[i] == ids[1..][i - 1];
      }
    }
  }

  /** Otherwise the error is about the first id that cannot be taken, and says whether the pool has it. */
  lemma {:induction false} TakeErrorIsFirst(devices: map<DeviceId, Device>, ids: seq<DeviceId>, pass: PassId)
    returns (k: nat)
    requires Take(devices, ids, pass).1.Some?
    ensures k < |ids| && Distinct(ids[..k]) && (forall d | d in ids[..k] :: CanBeTaken(devices, d))
    ensures !CanBeTaken(devices, ids[k]) || ids[k] in ids[..k]
    ensures Take(devices, ids, pass).1.value ==
            if ids[k] in devices then DeviceNotAvailable(ids[k]) else DeviceNotFound(ids[k])
    decreases |ids|
  {
    var first, rest := ids[0], ids[1..];
    if !CanBeTaken(devices, first) {
      k := 0;
    } else {
      var next := devices[first := devices[first].(holder := Some(pass))];
      var j := TakeErrorIsFirst(next, rest, pass);
      k := j + 1;
      assert ids[..k] == [first] + rest[..j] && ids[k] == rest[j];
      assert forall d | d in rest[..j] :: CanBeTaken(next, d) && d != first;
      DistinctByFirst(ids[..k]);
      assert ids[..k][1..] == rest[..j];
    }
  }

  // ---------------------------------------------------------------- interleaved steps

  datatype System = System(
    devices: map<DeviceId, Device>,
    records: map<PassId, Record>,
    releasing: multiset<Record>)

  datatype Action =
    | AddDevice(id: DeviceId, device: Device)
    | MarkUnhealthy(id: DeviceId)
    | Allocate(pass: PassId, ids: seq<DeviceId>, now: int, durationSec: nat)
    | BeginRelease(pass: PassId)
    | FinishRelease(record: Record)

  function Apply(s: System, a: Action): (s': System) {
    match a
    case AddDevice(id, device) => s.(devices := s.devices[id := device])
    case MarkUnhealthy(id) =>
      if id in s.devices then s.(devices := s.devices[id := s.devices[id].(healthy := false)]) else s
    case Allocate(pass, ids, now, durationSec) =>
      var taken := Take(s.devices, ids, pass);
      if taken.1.Some? then s.(devices := taken.0)
      else s.(devices := taken.0, records := s.records[pass := Record(pass, ids, now, durationSec)])
    case BeginRelease(pass) =>
      if pass in s.records then s.(releasing := s.releasing + multiset{s.records[pass]}) else s
    case FinishRelease(r) =>
      if r !in s.releasing then s
      else System(Free(s.devices, r.devices, r.pass), s.records - {r.pass}, s.releasing - multiset{r})
  }

  function Replay(s: System, actions: seq<Action>): (s': System)
    decreases |actions|
  {
    if actions == [] then s else Replay(Apply(s, actions[0]), actions[1..])
  }

  /** Some live record lists the device. */
  ghost predicate Listed(s: System, d: DeviceId) {
    exists p :: p in s.records && d in s.records[p].devices
  }

  /** Every device listed in a live record is held by exactly the pass of that record. */
  ghost predicate RecordsHold(s: System) {
    forall p | p in s.records ::
      && s.records[p].pass == p
      && forall d | d in s.records[p].devices :: d in s.devices && s.devices[d].holder == Some(p)
  }

  lemma AllocateKeepsRecords(s: System, a: Action)
    requires RecordsHold(s) && a.Allocate?
    ensures RecordsHold(Apply(s, a))
  {
    forall p, d | p in Apply(s, a).records && d in Apply(s, a).records[p].devices
      ensures d in Apply(s, a).devices && Apply(s, a).devices[d].holder == Some(p)
    {
      TakeEffect(s.devices, a.ids, a.pass, d);
      if Take(s.devices, a.ids, a.pass).1.None? && p == a.pass {
        assert Apply(s, a).records[p].devices == a.ids;
      } else {
        assert p in s.records && Apply(s, a).records[p] == s.records[p];
      }
    }
  }

  lemma FinishKeepsRecords(s: System, a: Action)
    requires RecordsHold(s) && a.FinishRelease?
    ensures RecordsHold(Apply(s, a))
  {
    if a.record in s.releasing {
      forall p, d | p in Apply(s, a).records && d in Apply(s, a).records[p].devices
        ensures d in Apply(s, a).devices && Apply(s, a).devices[d].holder == Some(p)
      {
        FreeEffect(s.devices, a.record.devices, a.record.pass, d);
        assert p in s.records && p != a.record.pass;
      }
    }
  }

  /** Every live record that lists the id is of the pass the given device is already held by. */
  ghost predicate MayAdd(s: System, id: DeviceId, device: Device) {
    forall p | p in s.records && id in s.records[p].devices :: device.holder == Some(p)
  }

  /** Adding a device, in whatever state, is safe exactly then; a free one when no live record lists its id. */
  lemma AddDeviceIsSafeIff(s: System, id: DeviceId, device: Device)
    requires RecordsHold(s)
    ensures RecordsHold(Apply(s, AddDevice(id, device))) <==> MayAdd(s, id, device)
    ensures device.holder == None ==> (MayAdd(s, id, device) <==> !Listed(s, id))
  {
    var s' := Apply(s, AddDevice(id, device));
    assert s'.devices[id] == device && s'.records == s.records;
  }

  ghost predicate NeverReAdded(s: System, actions: seq<Action>)
    decreases |actions|
  {
    actions == [] ||
    (&& (actions[0].AddDevice? ==> MayAdd(s, actions[0].id, actions[0].device))
     && NeverReAdded(Apply(s, actions[0]), actions[1..]))
  }

  /**
    In every interleaving, with allocations that fail partway and releases that act on stale
    copies, every device of a live record is held by that record's pass.
   */
  lemma {:induction false} EveryInterleavingHolds(s: System, actions: seq<Action>)
    requires RecordsHold(s) && NeverReAdded(s, actions)
    ensures RecordsHold(Replay(s, actions))
    decreases |actions|
  {
    if actions == [] {
    } else {
      var a := actions[0];
      match a {
        case AddDevice(id, device) => AddDeviceIsSafeIff(s, id, device);
        case Allocate(_, _, _, _) => AllocateKeepsRecords(s, a);
        case FinishRelease(_) => FinishKeepsRecords(s, a);
        case MarkUnhealthy(_) =>
        case BeginRelease(_) =>
      }
      EveryInterleavingHolds(Apply(s, a), actions[1..]);
    }
  }

  /** So no two live records ever share a device. */
  lemma NoSharedDevice(actions: seq<Action>, p: PassId, q: PassId, d: DeviceId)
    requires NeverReAdded(System(map[], map[], multiset{}), actions)
    ensures var s := Replay(System(map[], map[], multiset{}), actions);
            p in s.records && q in s.records && d in s.records[p].devices && d in s.records[q].devices ==> p == q
  {
    EveryInterleavingHolds(System(map[], map[], multiset{}), actions);
  }

  lemma StepSparesUnhealthy(s: System, a: Action, d: DeviceId)
    requires d in s.devices && !s.devices[d].healthy && !(a.AddDevice? && a.id == d)
    ensures var s' := Apply(s, a);
            && d in s'.devices && !s'.devices[d].healthy
            && (s'.devices[d].holder == s.devices[d].holder || s'.devices[d].holder == None)
  {
    if a.Allocate? {
      TakeEffect(s.devices, a.ids, a.pass, d);
      UnhealthyNotTaken(s.devices, a.ids, a.pass, d);
    } else if a.FinishRelease? {
      FreeEffect(s.devices, a.record.devices, a.record.pass, d);
    }
  }

  lemma {:induction false} UnhealthyNotTaken(devices: map<DeviceId, Device>, ids: seq<DeviceId>, pass: PassId,
                                             d: DeviceId)
    requires d in devices && !devices[d].healthy
    ensures Take(devices, ids, pass).0[d] == devices[d]
    decreases |ids|
  {
    if ids != [] && CanBeTaken(devices, ids[0]) {
      UnhealthyNotTaken(devices[ids[0] := devices[ids[0]].(holder := Some(pass))], ids[1..], pass, d);
    }
  }

  /** A device marked unhealthy is handed to no one in any later run that does not add it anew. */
  lemma {:induction false} UnhealthyIsNeverTaken(s: System, actions: seq<Action>, d: DeviceId)
    requires d in s.devices && !s.devices[d].healthy && forall a | a in actions :: !(a.AddDevice? && a.id == d)
    ensures var s' := Replay(s, actions);
            && d in s'.devices && !s'.devices[d].healthy
            && (s'.devices[d].holder == s.devices[d].holder || s'.devices[d].holder == None)
    decreases |actions|
  {
    if actions != [] {
      assert actions[0] in actions && forall a | a in actions[1..] :: a in actions;
      StepSparesUnhealthy(s, actions[0], d);
      UnhealthyIsNeverTaken(Apply(s, actions[0]), actions[1..], d);
    }
  }

  lemma MarkedUnhealthy(s: System, d: DeviceId)
    requires d in s.devices
    ensures var s' := Apply(s, MarkUnhealthy(d));
            && s' == s.(devices := s'.devices) && s'.devices.Keys == s.devices.Keys
            && !s'.devices[d].healthy && s'.devices[d].holder == s.devices[d].holder
            && forall e | e in s.devices && e != d :: s'.devices[e] == s.devices[e]
  {
  }

  // ---------------------------------------------------------------- devices lost to a failed allocation

  /** An unfinished release of the pass will free the device. */
  ghost predicate Covered(s: System, d: DeviceId, pass: PassId) {
    exists r :: r in s.releasing && r.pass == pass && d in r.devices
  }

  /** The pass holds the device, but neither a live record nor an unfinished release knows of it. */
  ghost predicate Orphaned(s: System, d: DeviceId, pass: PassId) {
    && d in s.devices && s.devices[d].holder == Some(pass)
    && !Listed(s, d)
    && forall r | r in s.releasing :: r.pass == pass ==> d !in r.devices
  }

  lemma OrphanStays(s: System, a: Action, d: DeviceId, pass: PassId)
    requires Orphaned(s, d, pass) && !(a.AddDevice? && a.id == d)
    ensures Orphaned(Apply(s, a), d, pass)
  {
    var s' := Apply(s, a);
    match a
    case Allocate(_, ids, _, _) =>
      TakeEffect(s.devices, ids, a.pass, d);
      forall p | p in s'.records ensures d !in s'.records[p].devices {
        if Take(s.devices, ids, a.pass).1.None? && p == a.pass {
          assert s'.records[p].devices == ids;
        } else {
          assert p in s.records && s'.records[p] == s.records[p];
        }
      }
    case FinishRelease(r) =>
      FreeEffect(s.devices, r.devices, r.pass, d);
    case BeginRelease(p) =>
    case AddDevice(_, _) =>
    case MarkUnhealthy(_) =>
  }

  /** An orphaned device stays held through every later run that does not add it anew. */
  lemma {:induction false} OrphanedForever(s: System, actions: seq<Action>, d: DeviceId, pass: PassId)
    requires Orphaned(s, d, pass) && forall a | a in actions :: !(a.AddDevice? && a.id == d)
    ensures Orphaned(Replay(s, actions), d, pass) && !Replay(s, actions).devices[d].IsAvailable()
    decreases |actions|
  {
    if actions == [] {
    } else {
      assert actions[0] in actions;
      OrphanStays(s, actions[0], d, pass);
      assert forall a | a in actions[1..] :: a in actions;
      OrphanedForever(Apply(s, actions[0]), actions[1..], d, pass);
    }
  }

  /**
    An allocation that fails leaves the pool as it was exactly when it fails on its first
    device; otherwise each device it took before failing is orphaned.
   */
  lemma FailedAllocationOrphans(s: System, a: Action)
    requires RecordsHold(s) && a.Allocate? && Take(s.devices, a.ids, a.pass).1.Some?
    ensures Apply(s, a) == s <==> a.ids[0] !in s.devices || !s.devices[a.ids[0]].IsAvailable()
    ensures forall d | d in Apply(s, a).devices && Apply(s, a).devices[d] != s.devices[d] &&
                       (forall r | r in s.releasing :: r.pass == a.pass ==> d !in r.devices) ::
              Orphaned(Apply(s, a), d, a.pass)
  {
    var k := TakeFailsPartway(s.devices, a.ids, a.pass);
    var s' := Apply(s, a);
    if k > 0 {
      assert s.devices[a.ids[0]].IsAvailable() && s'.devices[a.ids[0]].holder == Some(a.pass);
    }
    forall d | d in s'.devices && s'.devices[d] != s.devices[d] &&
               (forall r | r in s.releasing :: r.pass == a.pass ==> d !in r.devices)
      ensures Orphaned(s', d, a.pass)
    {
      TakeEffect(s.devices, a.ids, a.pass, d);
      TakenByPass(s.devices, a.ids, a.pass, d);
    }
  }

  /** Allocating again for a pass that still has a record orphans the devices of the old record. */
  lemma ReallocationOrphans(s: System, a: Action, d: DeviceId)
    requires RecordsHold(s) && a.Allocate? && Take(s.devices, a.ids, a.pass).1.None?
    requires a.pass in s.records && d in s.records[a.pass].devices
    requires forall r | r in s.releasing :: r.pass == a.pass ==> d !in r.devices
    ensures Orphaned(Apply(s, a), d, a.pass)
  {
    TakeEffect(s.devices, a.ids, a.pass, d);
    forall p | p in Apply(s, a).records ensures d !in Apply(s, a).records[p].devices {
      if p != a.pass {
        assert Apply(s, a).records[p] == s.records[p];
      }
    }
  }

  /**
    A release finishing on a stale copy removes whatever record its pass has by then and orphans
    the devices of that record its copy does not list.
   */
  lemma StaleReleaseOrphans(s: System, r: Record, d: DeviceId)
    requires RecordsHold(s) && r in s.releasing && r.pass in s.records && d in s.records[r.pass].devices
    requires !Covered(s, d, r.pass)
    ensures Orphaned(Apply(s, FinishRelease(r)), d, r.pass)
  {
    FreeEffect(s.devices, r.devices, r.pass, d);
    assert d !in r.devices;
  }

  lemma TakeOne(devices: map<DeviceId, Device>, d: DeviceId, pass: PassId)
    requires d in devices && devices[d].IsAvailable()
    ensures Take(devices, [d], pass) == (devices[d := devices[d].(holder := Some(pass))], None)
  {
    var next := devices[d := devices[d].(holder := Some(pass))];
    assert [d][1..] == [] && Take(next, [], pass) == (next, None);
  }

  /**
    Such a copy needs two releases of one pass that overlap, and an allocation between their
    ends. On any pool with two free devices this run loses the second, though no step fails.
   */
  lemma OverlappingReleasesLoseADevice(s: System, pass: PassId, d1: DeviceId, d2: DeviceId) returns (lost: System)
    requires RecordsHold(s) && pass !in s.records && !Covered(s, d2, pass) && d1 != d2
    requires d1 in s.devices && s.devices[d1].IsAvailable() && d2 in s.devices && s.devices[d2].IsAvailable()
    ensures var r := Record(pass, [d1], 0, 0);
            var both := Apply(Apply(Apply(s, Allocate(pass, [d1], 0, 0)), BeginRelease(pass)), BeginRelease(pass));
            lost == Apply(Apply(Apply(both, FinishRelease(r)), Allocate(pass, [d2], 0, 0)), FinishRelease(r))
    ensures Orphaned(lost, d2, pass)
  {
    var r := Record(pass, [d1], 0, 0);
    var s3 := TwoReleasesUnderWay(s, pass, d1);
    var s4 := Apply(s3, FinishRelease(r));
    FinishKeepsRecords(s3, FinishRelease(r));
    FreeEffect(s3.devices, [d1], pass, d2);
    assert s4.devices[d2] == s.devices[d2] && s4.releasing == s.releasing + multiset{r};
    assert !Covered(s4, d2, pass);
    lost := StaleAfterAllocation(s4, r, d2);
  }

  lemma TwoReleasesUnderWay(s: System, pass: PassId, d: DeviceId) returns (s': System)
    requires RecordsHold(s) && d in s.devices && s.devices[d].IsAvailable()
    ensures s' == Apply(Apply(Apply(s, Allocate(pass, [d], 0, 0)), BeginRelease(pass)), BeginRelease(pass))
    ensures RecordsHold(s') && s'.devices == s.devices[d := s.devices[d].(holder := Some(pass))]
    ensures var r := Record(pass, [d], 0, 0);
            s'.records == s.records[pass := r] && s'.releasing == s.releasing + multiset{r, r}
  {
    TakeOne(s.devices, d, pass);
    AllocateKeepsRecords(s, Allocate(pass, [d], 0, 0));
    var s1 := Apply(s, Allocate(pass, [d], 0, 0));
    s' := Apply(Apply(s1, BeginRelease(pass)), BeginRelease(pass));
  }

  /** The second half of that run: a copy is left over when its pass allocates again. */
  lemma StaleAfterAllocation(s: System, r: Record, d: DeviceId) returns (lost: System)
    requires RecordsHold(s) && r in s.releasing && !Covered(s, d, r.pass)
    requires d in s.devices && s.devices[d].IsAvailable()
    ensures lost == Apply(Apply(s, Allocate(r.pass, [d], 0, 0)), FinishRelease(r)) && Orphaned(lost, d, r.pass)
  {
    TakeOne(s.devices, d, r.pass);
    var s' := Apply(s, Allocate(r.pass, [d], 0, 0));
    AllocateKeepsRecords(s, Allocate(r.pass, [d], 0, 0));
    StaleReleaseOrphans(s', r, d);
    lost := Apply(s', FinishRelease(r));
  }

  // ---------------------------------------------------------------- which runs lose a device

  /** Every held device is in a live record or in an unfinished release of its holder. */
  ghost predicate AllAccounted(s: System) {
    forall d | d in s.devices :: Accounted(s, d)
  }

  ghost predicate Accounted(s: System, d: DeviceId)
    requires d in s.devices
  {
    s.devices[d].holder.Some? ==> Listed(s, d) || Covered(s, d, s.devices[d].holder.value)
  }

  lemma AccountedIff(s: System)
    ensures AllAccounted(s) <==> forall d, pass :: !Orphaned(s, d, pass)
  {
    if !AllAccounted(s) {
      var d :| d in s.devices && !Accounted(s, d);
      assert Orphaned(s, d, s.devices[d].holder.value);
    }
  }

  /** The pass has no record, or unfinished releases cover all of its devices. */
  ghost predicate MayForget(s: System, pass: PassId) {
    pass in s.records ==> forall d | d in s.records[pass].devices :: Covered(s, d, pass)
  }

  /** What a caller must see to, step by step, so that no device is lost. */
  ghost predicate KeepsTrack(s: System, a: Action) {
    match a
    case AddDevice(id, device) =>
      device.holder.Some? ==> Listed(s, id) || Covered(s, id, device.holder.value)
    case Allocate(pass, ids, _, _) =>
      var taken := Take(s.devices, ids, pass);
      if taken.1.None? then MayForget(s, pass)
      else forall d | d in s.devices && taken.0[d] != s.devices[d] :: Covered(s, d, pass)
    case FinishRelease(r) => r in s.releasing ==> MayForget(s, r.pass)
    case BeginRelease(_) => true
    case MarkUnhealthy(_) => true
  }

  /** The three ways to lose a device, and a device added as held by no one known. */
  lemma LosesTrack(s: System, a: Action)
    requires RecordsHold(s) && !KeepsTrack(s, a)
    ensures !AllAccounted(Apply(s, a))
  {
    AccountedIff(Apply(s, a));
    match a
    case AddDevice(id, device) =>
      assert Orphaned(Apply(s, a), id, device.holder.value);
    case Allocate(pass, ids, _, _) =>
      if Take(s.devices, ids, pass).1.None? {
        var d :| d in s.records[pass].devices && !Covered(s, d, pass);
        ReallocationOrphans(s, a, d);
      } else {
        var d :| d in s.devices && Take(s.devices, ids, pass).0[d] != s.devices[d] && !Covered(s, d, pass);
        FailedAllocationOrphans(s, a);
        assert Orphaned(Apply(s, a), d, pass);
      }
    case FinishRelease(r) =>
      var d :| d in s.records[r.pass].devices && !Covered(s, d, r.pass);
      StaleReleaseOrphans(s, r, d);
    case BeginRelease(_) =>
    case MarkUnhealthy(_) =>
  }

  lemma AllocateKeepsTrack(s: System, a: Action, d: DeviceId)
    requires RecordsHold(s) && AllAccounted(s) && a.Allocate? && KeepsTrack(s, a) && d in Apply(s, a).devices
    ensures Accounted(Apply(s, a), d)
  {
    var s' := Apply(s, a);
    TakenByPass(s.devices, a.ids, a.pass, d);
    assert Accounted(s, d);
    if s'.devices[d] != s.devices[d] {
      TakenIsListed(s.devices, a.ids, a.pass, d);
      assert s'.records != s.records ==> a.pass in s'.records && d in s'.records[a.pass].devices;
    } else if s.devices[d].holder.Some? && Listed(s, d) {
      var p :| p in s.records && d in s.records[p].devices;
      assert p != a.pass ==> p in s'.records && d in s'.records[p].devices;
    }
  }

  lemma {:induction false} TakenIsListed(devices: map<DeviceId, Device>, ids: seq<DeviceId>, pass: PassId, d: DeviceId)
    requires d in devices && Take(devices, ids, pass).0[d] != devices[d]
    ensures d in ids
    decreases |ids|
  {
    TakeEffect(devices, ids, pass, d);
  }

  lemma FinishKeepsTrack(s: System, r: Record, d: DeviceId)
    requires RecordsHold(s) && AllAccounted(s) && r in s.releasing && MayForget(s, r.pass)
    requires d in Apply(s, FinishRelease(r)).devices
    ensures Accounted(Apply(s, FinishRelease(r)), d)
  {
    var s' := Apply(s, FinishRelease(r));
    FreeEffect(s.devices, r.devices, r.pass, d);
    assert Accounted(s, d);
    if s'.devices[d].holder.Some? {
      var pass := s.devices[d].holder.value;
      if Covered(s, d, pass) {
        var c :| c in s.releasing && c.pass == pass && d in c.devices;
        assert c in s'.releasing;
      } else {
        var p :| p in s.records && d in s.records[p].devices;
        assert p in s'.records;
      }
    }
  }

  /** One step loses no device exactly when its condition holds. */
  lemma StepKeepsTrackIff(s: System, a: Action)
    requires RecordsHold(s) && AllAccounted(s)
    ensures AllAccounted(Apply(s, a)) <==> KeepsTrack(s, a)
  {
    if !KeepsTrack(s, a) {
      LosesTrack(s, a);
    } else {
      forall d | d in Apply(s, a).devices ensures Accounted(Apply(s, a), d) {
        match a
        case Allocate(_, _, _, _) => AllocateKeepsTrack(s, a, d);
        case FinishRelease(r) => if r in s.releasing { FinishKeepsTrack(s, r, d); }
        case AddDevice(_, _) => OthersStayAccounted(s, a, d);
        case BeginRelease(_) => OthersStayAccounted(s, a, d);
        case MarkUnhealthy(_) => OthersStayAccounted(s, a, d);
      }
    }
  }

  lemma OthersStayAccounted(s: System, a: Action, d: DeviceId)
    requires AllAccounted(s) && (a.AddDevice? || a.BeginRelease? || a.MarkUnhealthy?) && KeepsTrack(s, a)
    requires d in Apply(s, a).devices
    ensures Accounted(Apply(s, a), d)
  {
    var s' := Apply(s, a);
    assert s'.records == s.records && s.releasing <= s'.releasing;
    assert d in s.devices ==> Accounted(s, d);
    assert forall pass :: Covered(s, d, pass) ==> Covered(s', d, pass);
  }

  /** Only devices that are not in the pool are added. */
  ghost predicate OnlyNewDevices(s: System, actions: seq<Action>)
    decreases |actions|
  {
    actions == [] ||
    ((actions[0].AddDevice? ==> actions[0].id !in s.devices) && OnlyNewDevices(Apply(s, actions[0]), actions[1..]))
  }

  ghost predicate AlwaysKeepsTrack(s: System, actions: seq<Action>)
    decreases |actions|
  {
    actions == [] || (KeepsTrack(s, actions[0]) && AlwaysKeepsTrack(Apply(s, actions[0]), actions[1..]))
  }

  lemma {:induction false} OrphanOutlives(s: System, actions: seq<Action>, d: DeviceId, pass: PassId)
    requires Orphaned(s, d, pass) && OnlyNewDevices(s, actions)
    ensures Orphaned(Replay(s, actions), d, pass)
    decreases |actions|
  {
    if actions != [] {
      OrphanStays(s, actions[0], d, pass);
      OrphanOutlives(Apply(s, actions[0]), actions[1..], d, pass);
    }
  }

  lemma NewDeviceKeepsRecords(s: System, a: Action)
    requires RecordsHold(s) && (a.AddDevice? ==> a.id !in s.devices)
    ensures RecordsHold(Apply(s, a))
  {
    match a
    case Allocate(_, _, _, _) => AllocateKeepsRecords(s, a);
    case FinishRelease(_) => FinishKeepsRecords(s, a);
    case AddDevice(id, device) => AddDeviceIsSafeIff(s, id, device);
    case MarkUnhealthy(_) =>
    case BeginRelease(_) =>
  }

  /**
    An interleaving that adds only new devices ends with every held device in a record or an
    unfinished release of its pass exactly when each of its steps kept track.
   */
  lemma {:induction false} NoDeviceLostIff(s: System, actions: seq<Action>)
    requires RecordsHold(s) && AllAccounted(s) && OnlyNewDevices(s, actions)
    ensures AllAccounted(Replay(s, actions)) <==> AlwaysKeepsTrack(s, actions)
    decreases |actions|
  {
    if actions != [] {
      var s', rest := Apply(s, actions[0]), actions[1..];
      NewDeviceKeepsRecords(s, actions[0]);
      StepKeepsTrackIff(s, actions[0]);
      if AllAccounted(s') {
        NoDeviceLostIff(s', rest);
      } else {
        AccountedIff(s');
        AccountedIff(Replay(s', rest));
        var d, pass :| Orphaned(s', d, pass);
        OrphanOutlives(s', rest, d, pass);
      }
    }
  }

  lemma {:induction false} TakenByPass(devices: map<DeviceId, Device>, ids: seq<DeviceId>, pass: PassId, d: DeviceId)
    requires d in devices && d in Take(devices, ids, pass).0
    ensures Take(devices, ids, pass).0[d] == devices[d] || Take(devices, ids, pass).0[d].holder == Some(pass)
    decreases |ids|
  {
    if ids == [] || ids[0] !in devices || !devices[ids[0]].IsAvailable() {
    } else {
      var next := devices[ids[0] := devices[ids[0]].(holder := Some(pass))];
      TakeEffect(next, ids[1..], pass, d);
      TakenByPass(next, ids[1..], pass, d);
    }
  }

  // ---------------------------------------------------------------- the pool object

  class Pool {
    var devices: map<DeviceId, Device>
    var allocations: map<PassId, Record>

    constructor ()
      ensures devices == map[] && allocations == map[]
    {
      devices, allocations := map[], map[];
    }

    method AddDevice(id: DeviceId, device: Device)
      modifies this
      ensures forall releasing ::
                System(devices, allocations, releasing) ==
                Apply(old(System(devices, allocations, releasing)), Action.AddDevice(id, device))
    {
      devices := devices[id := device];
    }

    method Allocate(pass: PassId, ids: seq<DeviceId>, now: int, durationSec: nat)
      returns (r: Result<Record, HardwareError>)
      modifies this
      ensures forall releasing ::
                System(devices, allocations, releasing) ==
                Apply(old(System(devices, allocations, releasing)), Action.Allocate(pass, ids, now, durationSec))
      ensures r == match Take(old(devices), ids, pass).1
                   case None => Ok(Record(pass, ids, now, durationSec))
                   case Some(e) => Err(e)
    {
      for i := 0 to |ids|
        invariant Take(old(devices), ids, pass) == Take(devices, ids[i..], pass)
        invariant allocations == old(allocations)
      {
        var id := ids[i];
        assert ids[i..][1..] == ids[i + 1..];
        if id !in devices {
          return Err(DeviceNotFound(id));
        }
        if !devices[id].IsAvailable() {
          return Err(DeviceNotAvailable(id));
        }
        devices := devices[id := devices[id].(holder := Some(pass))];
      }
      var allocation := Record(pass, ids, now, durationSec);
      allocations := allocations[pass := allocation];
      return Ok(allocation);
    }

    /** First half of a release: copy the record and let go of the lock. */
    method BeginRelease(pass: PassId) returns (r: Result<Record, HardwareError>)
      ensures r == if pass in allocations then Ok(allocations[pass]) else Err(NoAllocation(pass))
      ensures forall releasing ::
                Apply(System(devices, allocations, releasing), Action.BeginRelease(pass)) ==
                System(devices, allocations, if r.Ok? then releasing + multiset{r.value} else releasing)
    {
      if pass !in allocations {
        return Err(NoAllocation(pass));
      }
      return Ok(allocations[pass]);
    }

    /** Second half: act on the copy, whatever has happened since. */
    method FinishRelease(copy: Record)
      modifies this
      ensures forall releasing: multiset<Record> | copy in releasing ::
                System(devices, allocations, releasing - multiset{copy}) ==
                Apply(old(System(devices, allocations, releasing)), Action.FinishRelease(copy))
    {
      for i := 0 to |copy.devices|
        invariant Free(old(devices), copy.devices, copy.pass) == Free(devices, copy.devices[i..], copy.pass)
        invariant allocations == old(allocations)
      {
        var id := copy.devices[i];
        assert copy.devices[i..][1..] == copy.devices[i + 1..];
        if id in devices && devices[id].holder == Some(copy.pass) {
          devices := devices[id := devices[id].(holder := None)];
        }
      }
      allocations := allocations - {copy.pass};
    }
  }
}
