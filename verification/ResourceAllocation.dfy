/**
  The multi-tenant resource allocator.

  `Ledger` is the allocator without its indexes: conflicts and usage come from scans of the
  whole allocation list. `ResourceAllocator` keeps a terminal index and a tenant index by
  hand; each of its methods is proved to do what the ledger does.
 */
module ResourceAllocation {
  import opened Timeline
  import Tasking

  type TaskId = Tasking.TaskId
  type TerminalId = Tasking.TerminalId
  type Priority = Tasking.Priority
  type AllocationId = nat
  type TenantId = string

  datatype ResourceClaim = ResourceClaim(
    opticalTerminal: Option<TerminalId>,
    bandwidth: Option<nat>,
    duration: int,
    powerWatts: real,
    storageBytes: Option<nat>,
    computeCycles: Option<nat>)

  datatype Allocation = Allocation(
    id: AllocationId,
    taskId: TaskId,
    tenant: TenantId,
    resources: ResourceClaim,
    window: TimeWindow,
    priority: Priority,
    preemptible: bool)
  {
    predicate CanPreempt() {
      preemptible && priority != Tasking.Critical
    }
  }

  datatype TenantQuota = TenantQuota(
    maxPowerWatts: real, maxBandwidthBps: nat, maxStorageBytes: nat, maxAllocations: nat)

  datatype AllocationError =
    | NotFound(id: AllocationId)
    | QuotaExceeded(tenant: TenantId, resource: string)
    | ResourceConflict(conflicting: AllocationId)
    | NotPreemptible(id: AllocationId)

  // ---------------------------------------------------------------- scans of the allocation list

  predicate Uses(a: Allocation, terminal: TerminalId) {
    a.resources.opticalTerminal == Some(terminal)
  }

  /** The first allocation on `terminal`, in list order, whose window overlaps `w`. */
  function FirstConflict(allocations: seq<Allocation>, terminal: TerminalId, w: TimeWindow): (r: Option<AllocationId>)
    ensures r.None? <==> forall a | a in allocations :: !(Uses(a, terminal) && a.window.Overlaps(w))
  {
    if allocations == [] then None
    else if Uses(allocations[0], terminal) && allocations[0].window.Overlaps(w) then Some(allocations[0].id)
    else FirstConflict(allocations[1..], terminal, w)
  }

  /** Power of a tenant, summed in list order. */
  function Usage(allocations: seq<Allocation>, tenant: TenantId): (power: real) {
    if allocations == [] then 0.0
    else
      var last := allocations[|allocations| - 1];
      Usage(allocations[..|allocations| - 1], tenant) + if last.tenant == tenant then last.resources.powerWatts else 0.0
  }

  function Position(allocations: seq<Allocation>, id: AllocationId): (p: Option<nat>)
    ensures p.None? <==> forall a | a in allocations :: a.id != id
    ensures p.Some? ==> p.value < |allocations| && allocations[p.value].id == id
  {
    if allocations == [] then None
    else if allocations[0].id == id then Some(0)
    else match Position(allocations[1..], id)
      case None => None
      case Some(p) => Some(p + 1)
  }

  function Without(allocations: seq<Allocation>, p: nat): (rest: seq<Allocation>)
    requires p < |allocations|
  {
    allocations[..p] + allocations[p + 1..]
  }

  // ---------------------------------------------------------------- the ledger

  datatype Ledger = Ledger(allocations: seq<Allocation>, quotas: map<TenantId, TenantQuota>) {

    function SetQuota(tenant: TenantId, quota: TenantQuota): (l: Ledger) {
      this.(quotas := quotas[tenant := quota])
    }

    /** `id` is the fresh identifier given to the allocation if it is granted. */
    function Allocate(id: AllocationId, claim: ResourceClaim, task: TaskId, tenant: TenantId,
                      priority: Priority, w: TimeWindow): (r: (Ledger, Result<AllocationId, AllocationError>))
    {
      if tenant in quotas && Usage(allocations, tenant) + claim.powerWatts > quotas[tenant].maxPowerWatts then
        (this, Err(QuotaExceeded(tenant, "power")))
      else
        var conflict := match claim.opticalTerminal case None => None case Some(t) => FirstConflict(allocations, t, w);
        if conflict.Some? then (this, Err(ResourceConflict(conflict.value)))
        else (this.(allocations := allocations + [Allocation(id, task, tenant, claim, w, priority, true)]), Ok(id))
    }

    function Release(id: AllocationId): (r: (Ledger, Result<(), AllocationError>)) {
      match Position(allocations, id)
      case None => (this, Err(NotFound(id)))
      case Some(p) => (this.(allocations := Without(allocations, p)), Ok(()))
    }

    function Preempt(id: AllocationId): (r: (Ledger, Result<(), AllocationError>)) {
      match Position(allocations, id)
      case None => (this, Err(NotFound(id)))
      case Some(p) => if allocations[p].CanPreempt() then Release(id) else (this, Err(NotPreemptible(id)))
    }
  }

  /** A live allocation on the claimed terminal collides in time with the window. */
  ghost predicate Collides(a: Allocation, claim: ResourceClaim, w: TimeWindow) {
    && claim.opticalTerminal.Some? && a.resources.opticalTerminal == claim.opticalTerminal
    && (ShareAnInstant(a.window, w) || EmptyInside(a.window, w) || EmptyInside(w, a.window))
  }

  /** What a tenant's live allocations and the claim would draw together exceeds its quota. */
  ghost predicate ExceedsQuota(l: Ledger, tenant: TenantId, claim: ResourceClaim) {
    tenant in l.quotas && Usage(l.allocations, tenant) + claim.powerWatts > l.quotas[tenant].maxPowerWatts
  }

  /**
    A claim is granted exactly when the quota allows it and no live allocation of its terminal
    holds an instant of its window; what is recorded is the call. Otherwise nothing changes, the
    quota is reported before a collision, and a collision names the first one in the list.
   */
  lemma AllocateGrantsIff(l: Ledger, id: AllocationId, claim: ResourceClaim, task: TaskId, tenant: TenantId,
                          priority: Priority, w: TimeWindow)
    ensures var (l', r) := l.Allocate(id, claim, task, tenant, priority, w);
            && (r.Ok? <==> !ExceedsQuota(l, tenant, claim) && forall a | a in l.allocations :: !Collides(a, claim, w))
            && (r.Ok? ==> r.value == id && l'.quotas == l.quotas && |l'.allocations| == |l.allocations| + 1 &&
                          l'.allocations[..|l.allocations|] == l.allocations &&
                          Records(l'.allocations[|l.allocations|], id, claim, task, tenant, priority, w))
            && (r.Err? ==> l' == l)
            && (ExceedsQuota(l, tenant, claim) ==> r == Err(QuotaExceeded(tenant, "power")))
            && (r.Err? && !ExceedsQuota(l, tenant, claim) ==>
                  exists k :: 0 <= k < |l.allocations| && Collides(l.allocations[k], claim, w) &&
                              r == Err(ResourceConflict(l.allocations[k].id)) &&
                              forall j | 0 <= j < k :: !Collides(l.allocations[j], claim, w))
  {
    if claim.opticalTerminal.Some? {
      forall a | a in l.allocations
        ensures Collides(a, claim, w) <==> Uses(a, claim.opticalTerminal.value) && a.window.Overlaps(w)
      {
        OverlapsIff(a.window, w);
      }
      FirstConflictIsFirst(l.allocations, claim.opticalTerminal.value, w);
    }
  }

  /** The allocation carries what the call asked for, and can be preempted unless it is critical. */
  ghost predicate Records(a: Allocation, id: AllocationId, claim: ResourceClaim, task: TaskId, tenant: TenantId,
                          priority: Priority, w: TimeWindow)
  {
    && a.id == id && a.taskId == task && a.tenant == tenant && a.resources == claim && a.window == w
    && a.priority == priority && a.preemptible
  }

  lemma {:induction false} FirstConflictIsFirst(allocations: seq<Allocation>, terminal: TerminalId, w: TimeWindow)
    ensures var r := FirstConflict(allocations, terminal, w);
            r.Some? ==>
              exists k :: 0 <= k < |allocations| && r.value == allocations[k].id &&
                          Uses(allocations[k], terminal) && allocations[k].window.Overlaps(w) &&
                          forall j | 0 <= j < k ::
                            !(Uses(allocations[j], terminal) && allocations[j].window.Overlaps(w))
    decreases |allocations|
  {
    var r := FirstConflict(allocations, terminal, w);
    if r.Some? && !(Uses(allocations[0], terminal) && allocations[0].window.Overlaps(w)) {
      FirstConflictIsFirst(allocations[1..], terminal, w);
      var k :| 0 <= k < |allocations[1..]| && r.value == allocations[1..][k].id &&
               Uses(allocations[1..][k], terminal) && allocations[1..][k].window.Overlaps(w) &&
               forall j | 0 <= j < k ::
                 !(Uses(allocations[1..][j], terminal) && allocations[1..][j].window.Overlaps(w));
      assert allocations[1..][k] == allocations[k + 1];
      forall j | 0 <= j < k + 1 ensures !(Uses(allocations[j], terminal) && allocations[j].window.Overlaps(w)) {
        assert j > 0 ==> allocations[j] == allocations[1..][j - 1];
      }
    }
  }

  ghost predicate UniqueIds(allocations: seq<Allocation>) {
    forall i, j | 0 <= i < j < |allocations| :: allocations[i].id != allocations[j].id
  }

  /** No two live allocations on one terminal have overlapping windows. */
  ghost predicate Exclusive(allocations: seq<Allocation>) {
    forall i, j | 0 <= i < j < |allocations| && allocations[i].resources.opticalTerminal.Some? &&
                  allocations[i].resources.opticalTerminal == allocations[j].resources.opticalTerminal ::
      !allocations[i].window.Overlaps(allocations[j].window)
  }

  ghost predicate WithinQuota(l: Ledger) {
    forall tenant | tenant in l.quotas :: Usage(l.allocations, tenant) <= l.quotas[tenant].maxPowerWatts
  }

  ghost predicate NonNegative(allocations: seq<Allocation>) {
    forall a | a in allocations :: a.resources.powerWatts >= 0.0
  }

  // ---------------------------------------------------------------- every run of the ledger

  datatype Event =
    | SetQuota(tenant: TenantId, quota: TenantQuota)
    | Allocate(id: AllocationId, claim: ResourceClaim, task: TaskId, owner: TenantId,
               priority: Priority, window: TimeWindow)
    | Release(id: AllocationId)
    | Preempt(id: AllocationId)

  function Apply(l: Ledger, e: Event): (l': Ledger) {
    match e
    case SetQuota(tenant, quota) => l.SetQuota(tenant, quota)
    case Allocate(id, claim, task, owner, priority, w) => l.Allocate(id, claim, task, owner, priority, w).0
    case Release(id) => l.Release(id).0
    case Preempt(id) => l.Preempt(id).0
  }

  function Replay(l: Ledger, events: seq<Event>): (l': Ledger)
    decreases |events|
  {
    if events == [] then l else Replay(Apply(l, events[0]), events[1..])
  }

  /** Fresh identifiers are fresh. */
  ghost predicate FreshIn(l: Ledger, e: Event) {
    e.Allocate? ==> forall a | a in l.allocations :: a.id != e.id
  }

  ghost predicate FreshRun(l: Ledger, events: seq<Event>)
    decreases |events|
  {
    events == [] || (FreshIn(l, events[0]) && FreshRun(Apply(l, events[0]), events[1..]))
  }

  lemma RemovalKeepsExclusive(allocations: seq<Allocation>, p: nat)
    requires p < |allocations| && UniqueIds(allocations)
    ensures UniqueIds(Without(allocations, p))
    ensures Exclusive(allocations) ==> Exclusive(Without(allocations, p))
  {
  }

  lemma GrantKeepsUnique(allocations: seq<Allocation>, a: Allocation)
    requires UniqueIds(allocations) && forall b | b in allocations :: b.id != a.id
    ensures UniqueIds(allocations + [a])
  {
  }

  lemma GrantKeepsExclusive(allocations: seq<Allocation>, a: Allocation)
    requires Exclusive(allocations)
    requires var t := a.resources.opticalTerminal;
             t.Some? ==> FirstConflict(allocations, t.value, a.window).None?
    ensures Exclusive(allocations + [a])
  {
  }

  lemma ApplyKeepsExclusive(l: Ledger, e: Event)
    requires UniqueIds(l.allocations) && FreshIn(l, e)
    ensures UniqueIds(Apply(l, e).allocations)
    ensures Exclusive(l.allocations) ==> Exclusive(Apply(l, e).allocations)
  {
    match e
    case SetQuota(_, _) =>
    case Allocate(id, claim, task, owner, priority, w) =>
      var a := Allocation(id, task, owner, claim, w, priority, true);
      if Apply(l, e) != l {
        GrantKeepsUnique(l.allocations, a);
        if Exclusive(l.allocations) {
          GrantKeepsExclusive(l.allocations, a);
        }
      }
    case Release(id) =>
      if Position(l.allocations, id).Some? { RemovalKeepsExclusive(l.allocations, Position(l.allocations, id).value); }
    case Preempt(id) =>
      if Position(l.allocations, id).Some? { RemovalKeepsExclusive(l.allocations, Position(l.allocations, id).value); }
  }

  /** In every run of the allocator two live allocations never overlap on one terminal. */
  lemma {:induction false} EveryRunIsExclusive(l: Ledger, events: seq<Event>)
    requires UniqueIds(l.allocations) && Exclusive(l.allocations) && FreshRun(l, events)
    ensures UniqueIds(Replay(l, events).allocations) && Exclusive(Replay(l, events).allocations)
    decreases |events|
  {
    if events == [] {
    } else {
      ApplyKeepsExclusive(l, events[0]);
      EveryRunIsExclusive(Apply(l, events[0]), events[1..]);
    }
  }

  /** So after any run from the empty allocator no instant of a terminal is allocated twice. */
  lemma NoInstantTwice(events: seq<Event>, i: nat, j: nat, t: int)
    requires FreshRun(Ledger([], map[]), events) && i < j < |Replay(Ledger([], map[]), events).allocations|
    ensures var all := Replay(Ledger([], map[]), events).allocations;
            all[i].resources.opticalTerminal.Some? &&
            all[i].resources.opticalTerminal == all[j].resources.opticalTerminal ==>
              !(all[i].window.start <= t < all[i].window.end && all[j].window.start <= t < all[j].window.end)
  {
    var all := Replay(Ledger([], map[]), events).allocations;
    EveryRunIsExclusive(Ledger([], map[]), events);
    OverlapsIff(all[i].window, all[j].window);
    assert Lasts(all[i].window, t) && Lasts(all[j].window, t) ==> ShareAnInstant(all[i].window, all[j].window);
  }

  lemma {:induction false} UsageSplits(xs: seq<Allocation>, ys: seq<Allocation>, tenant: TenantId)
    ensures Usage(xs + ys, tenant) == Usage(xs, tenant) + Usage(ys, tenant)
    decreases |ys|
  {
    if ys == [] {
      assert xs + ys == xs;
    } else {
      var n := |ys| - 1;
      assert (xs + ys)[..|xs + ys| - 1] == xs + ys[..n];
      UsageSplits(xs, ys[..n], tenant);
    }
  }

  lemma UsageWithout(allocations: seq<Allocation>, p: nat, tenant: TenantId)
    requires p < |allocations|
    ensures var a := allocations[p];
            Usage(allocations, tenant) ==
            Usage(Without(allocations, p), tenant) + if a.tenant == tenant then a.resources.powerWatts else 0.0
  {
    var one := [allocations[p]];
    assert allocations == allocations[..p] + one + allocations[p + 1..];
    UsageSplits(allocations[..p] + one, allocations[p + 1..], tenant);
    UsageSplits(allocations[..p], one, tenant);
    UsageSplits(allocations[..p], allocations[p + 1..], tenant);
    assert one[..0] == [];
  }

  /** Setting a quota keeps every tenant within quota exactly when the tenant's usage already fits it. */
  lemma SetQuotaKeepsQuotaIff(l: Ledger, tenant: TenantId, quota: TenantQuota)
    requires WithinQuota(l)
    ensures WithinQuota(l.SetQuota(tenant, quota)) <==> Usage(l.allocations, tenant) <= quota.maxPowerWatts
  {
  }

  /** A quota set before the tenant holds power, or raised later, is one its usage fits. */
  lemma RaisingAQuotaIsAdmissible(l: Ledger, tenant: TenantId, quota: TenantQuota)
    requires WithinQuota(l)
    requires if tenant in l.quotas then l.quotas[tenant].maxPowerWatts <= quota.maxPowerWatts
             else 0.0 <= quota.maxPowerWatts && forall a | a in l.allocations :: a.tenant != tenant
    ensures Usage(l.allocations, tenant) <= quota.maxPowerWatts
  {
    if tenant !in l.quotas {
      NoAllocationsNoUsage(l.allocations, tenant);
    }
  }

  lemma {:induction false} NoAllocationsNoUsage(allocations: seq<Allocation>, tenant: TenantId)
    requires forall a | a in allocations :: a.tenant != tenant
    ensures Usage(allocations, tenant) == 0.0
    decreases |allocations|
  {
    if allocations != [] {
      NoAllocationsNoUsage(allocations[..|allocations| - 1], tenant);
    }
  }

  /** Claims are not negative and no quota is set below the usage of that moment. */
  ghost predicate Admissible(l: Ledger, e: Event) {
    match e
    case SetQuota(tenant, quota) => Usage(l.allocations, tenant) <= quota.maxPowerWatts
    case Allocate(_, claim, _, _, _, _) => claim.powerWatts >= 0.0
    case _ => true
  }

  ghost predicate AdmissibleRun(l: Ledger, events: seq<Event>)
    decreases |events|
  {
    events == [] || (Admissible(l, events[0]) && AdmissibleRun(Apply(l, events[0]), events[1..]))
  }

  lemma RemovalKeepsQuota(l: Ledger, p: nat)
    requires p < |l.allocations| && WithinQuota(l) && NonNegative(l.allocations)
    ensures WithinQuota(l.(allocations := Without(l.allocations, p))) && NonNegative(Without(l.allocations, p))
  {
    forall tenant | tenant in l.quotas
      ensures Usage(Without(l.allocations, p), tenant) <= l.quotas[tenant].maxPowerWatts
    {
      UsageWithout(l.allocations, p, tenant);
    }
  }

  lemma ApplyKeepsQuota(l: Ledger, e: Event)
    requires WithinQuota(l) && NonNegative(l.allocations) && Admissible(l, e)
    ensures WithinQuota(Apply(l, e)) && NonNegative(Apply(l, e).allocations)
  {
    match e
    case SetQuota(tenant, quota) => SetQuotaKeepsQuotaIff(l, tenant, quota);
    case Allocate(_, _, _, _, _, _) =>
      var l' := Apply(l, e);
      if l' != l {
        var last := |l.allocations|;
        assert l'.allocations[..last] == l.allocations;
      }
    case Release(id) =>
      if Position(l.allocations, id).Some? { RemovalKeepsQuota(l, Position(l.allocations, id).value); }
    case Preempt(id) =>
      if Position(l.allocations, id).Some? { RemovalKeepsQuota(l, Position(l.allocations, id).value); }
  }

  /** In every admissible run no tenant's total power exceeds its quota. */
  lemma {:induction false} EveryRunStaysWithinQuota(l: Ledger, events: seq<Event>)
    requires WithinQuota(l) && NonNegative(l.allocations) && AdmissibleRun(l, events)
    ensures WithinQuota(Replay(l, events)) && NonNegative(Replay(l, events).allocations)
    decreases |events|
  {
    if events == [] {
    } else {
      ApplyKeepsQuota(l, events[0]);
      EveryRunStaysWithinQuota(Apply(l, events[0]), events[1..]);
    }
  }

  // ---------------------------------------------------------------- claims of negative power

  /** Releasing the allocation at `p` keeps every quota exactly when its tenant has none or the rest still fits. */
  lemma ReleaseKeepsQuotaIff(l: Ledger, p: nat)
    requires p < |l.allocations| && WithinQuota(l)
    ensures var a := l.allocations[p];
            WithinQuota(l.(allocations := Without(l.allocations, p))) <==>
            (a.tenant in l.quotas ==>
               Usage(l.allocations, a.tenant) - a.resources.powerWatts <= l.quotas[a.tenant].maxPowerWatts)
  {
    var l' := l.(allocations := Without(l.allocations, p));
    forall tenant | tenant in l.quotas
      ensures Usage(l'.allocations, tenant) == Usage(l.allocations, tenant) -
                                               if l.allocations[p].tenant == tenant
                                               then l.allocations[p].resources.powerWatts else 0.0
    {
      UsageWithout(l.allocations, p, tenant);
    }
  }

  /** Power of a tenant's positive claims alone. */
  function Gross(allocations: seq<Allocation>, tenant: TenantId): (power: real)
    ensures power >= 0.0
  {
    if allocations == [] then 0.0
    else
      var last := allocations[|allocations| - 1];
      Gross(allocations[..|allocations| - 1], tenant) + GrossOf(last, tenant)
  }

  function GrossOf(a: Allocation, tenant: TenantId): (power: real)
    ensures power >= 0.0
  {
    if a.tenant == tenant && a.resources.powerWatts > 0.0 then a.resources.powerWatts else 0.0
  }

  lemma {:induction false} UsageIsAtMostGross(allocations: seq<Allocation>, tenant: TenantId)
    ensures Usage(allocations, tenant) <= Gross(allocations, tenant)
    decreases |allocations|
  {
    if allocations != [] {
      UsageIsAtMostGross(allocations[..|allocations| - 1], tenant);
    }
  }

  lemma {:induction false} GrossSplits(xs: seq<Allocation>, ys: seq<Allocation>, tenant: TenantId)
    ensures Gross(xs + ys, tenant) == Gross(xs, tenant) + Gross(ys, tenant)
    decreases |ys|
  {
    if ys == [] {
      assert xs + ys == xs;
    } else {
      var n := |ys| - 1;
      assert (xs + ys)[..|xs + ys| - 1] == xs + ys[..n];
      GrossSplits(xs, ys[..n], tenant);
    }
  }

  lemma GrossWithout(allocations: seq<Allocation>, p: nat, tenant: TenantId)
    requires p < |allocations|
    ensures Gross(allocations, tenant) == Gross(Without(allocations, p), tenant) + GrossOf(allocations[p], tenant)
  {
    var one := [allocations[p]];
    assert allocations == allocations[..p] + one + allocations[p + 1..];
    GrossSplits(allocations[..p] + one, allocations[p + 1..], tenant);
    GrossSplits(allocations[..p], one, tenant);
    GrossSplits(allocations[..p], allocations[p + 1..], tenant);
    assert one[..0] == [];
  }

  ghost predicate OnlyRemovals(events: seq<Event>) {
    forall e | e in events :: e.Release? || e.Preempt?
  }

  /** Every tenant's positive claims fit its quota, so taking claims away can never exceed it. */
  ghost predicate GrossFits(l: Ledger) {
    forall tenant | tenant in l.quotas :: Gross(l.allocations, tenant) <= l.quotas[tenant].maxPowerWatts
  }

  lemma RemovalKeepsGross(l: Ledger, e: Event)
    requires GrossFits(l) && (e.Release? || e.Preempt?)
    ensures GrossFits(Apply(l, e))
  {
    var p := Position(l.allocations, e.id);
    if p.Some? {
      forall tenant | tenant in l.quotas
        ensures Gross(Without(l.allocations, p.value), tenant) <= Gross(l.allocations, tenant)
      {
        GrossWithout(l.allocations, p.value, tenant);
      }
    }
  }

  lemma {:induction false} RemovalsStayWithinGross(l: Ledger, events: seq<Event>)
    requires GrossFits(l) && OnlyRemovals(events)
    ensures WithinQuota(Replay(l, events))
    decreases |events|
  {
    if events == [] {
      forall tenant | tenant in l.quotas ensures Usage(l.allocations, tenant) <= l.quotas[tenant].maxPowerWatts {
        UsageIsAtMostGross(l.allocations, tenant);
      }
    } else {
      assert events[0] in events && forall e | e in events[1..] :: e in events;
      RemovalKeepsGross(l, events[0]);
      RemovalsStayWithinGross(Apply(l, events[0]), events[1..]);
    }
  }

  lemma {:induction false} NoNegativesNoGap(allocations: seq<Allocation>, tenant: TenantId)
    requires forall a | a in allocations && a.tenant == tenant :: a.resources.powerWatts >= 0.0
    ensures Usage(allocations, tenant) == Gross(allocations, tenant)
    decreases |allocations|
  {
    if allocations != [] {
      assert allocations[|allocations| - 1] in allocations;
      NoNegativesNoGap(allocations[..|allocations| - 1], tenant);
    }
  }

  lemma ReleaseFindsItsOwn(l: Ledger, p: nat)
    requires UniqueIds(l.allocations) && p < |l.allocations|
    ensures l.Release(l.allocations[p].id).0 == l.(allocations := Without(l.allocations, p))
    ensures UniqueIds(Without(l.allocations, p))
  {
    RemovalKeepsExclusive(l.allocations, p);
  }

  lemma ReplayFirst(l: Ledger, e: Event, rest: seq<Event>)
    ensures Replay(l, [e] + rest) == Replay(Apply(l, e), rest)
  {
    assert ([e] + rest)[1..] == rest;
  }

  /** Releasing a tenant's negative claims brings its usage up to its positive claims. */
  lemma {:induction false} ReleasingNegatives(l: Ledger, tenant: TenantId) returns (events: seq<Event>)
    requires UniqueIds(l.allocations)
    ensures OnlyRemovals(events) && Replay(l, events).quotas == l.quotas
    ensures Usage(Replay(l, events).allocations, tenant) == Gross(l.allocations, tenant)
    decreases |l.allocations|
  {
    if a :| a in l.allocations && a.tenant == tenant && a.resources.powerWatts < 0.0 {
      var p :| 0 <= p < |l.allocations| && l.allocations[p] == a;
      ReleaseFindsItsOwn(l, p);
      GrossWithout(l.allocations, p, tenant);
      var l' := l.(allocations := Without(l.allocations, p));
      var rest := ReleasingNegatives(l', tenant);
      events := [Event.Release(a.id)] + rest;
      ReplayFirst(l, Event.Release(a.id), rest);
    } else {
      events := [];
      NoNegativesNoGap(l.allocations, tenant);
    }
  }

  /**
    Without non-negative claims the quota can be exceeded by releasing. Every run of releases and
    preemptions stays within quota exactly when each quota covers its tenant's positive claims.
   */
  lemma RemovalsKeepQuotaIff(l: Ledger)
    requires UniqueIds(l.allocations)
    ensures (forall events | OnlyRemovals(events) :: WithinQuota(Replay(l, events))) <==> GrossFits(l)
  {
    if GrossFits(l) {
      forall events | OnlyRemovals(events) ensures WithinQuota(Replay(l, events)) {
        RemovalsStayWithinGross(l, events);
      }
    } else {
      var tenant :| tenant in l.quotas && Gross(l.allocations, tenant) > l.quotas[tenant].maxPowerWatts;
      var events := ReleasingNegatives(l, tenant);
      assert !WithinQuota(Replay(l, events));
    }
  }

  lemma ThreeEvents(l: Ledger, e1: Event, e2: Event, e3: Event)
    ensures Replay(l, [e1, e2, e3]) == Apply(Apply(Apply(l, e1), e2), e3)
    ensures FreshIn(l, e1) && FreshIn(Apply(l, e1), e2) && FreshIn(Apply(Apply(l, e1), e2), e3) ==>
              FreshRun(l, [e1, e2, e3])
  {
    var l1 := Apply(l, e1);
    var l2 := Apply(l1, e2);
    assert [e1, e2, e3][1..] == [e2, e3] && [e2, e3][1..] == [e3] && [e3][1..] == [];
    assert Replay(l2, [e3]) == Apply(l2, e3) && Replay(l1, [e2, e3]) == Apply(l2, e3);
    assert FreshIn(l2, e3) ==> FreshRun(l2, [e3]);
    assert FreshIn(l1, e2) && FreshIn(l2, e3) ==> FreshRun(l1, [e2, e3]);
  }

  function Claiming(watts: real): ResourceClaim {
    ResourceClaim(None, None, 0, watts, None, None)
  }

  function Granting(id: AllocationId, watts: real): Event {
    Event.Allocate(id, Claiming(watts), id, "t", Tasking.Low, TimeWindow(0, 1))
  }

  function Granted(id: AllocationId, watts: real): Allocation {
    Allocation(id, id, "t", Claiming(watts), TimeWindow(0, 1), Tasking.Low, true)
  }

  lemma UnboundedTenantIsGranted(l: Ledger, id: AllocationId, watts: real)
    requires "t" !in l.quotas
    ensures Apply(l, Granting(id, watts)) == l.(allocations := l.allocations + [Granted(id, watts)])
  {
  }

  /** Usage 0 W fits a quota of 1 W; without the negative claim it is 2 W. */
  lemma ReleaseExceedsTheQuota(l: Ledger)
    requires l == Ledger([Granted(0, 2.0), Granted(1, -2.0)], map["t" := TenantQuota(1.0, 0, 0, 0)])
    ensures WithinQuota(l) && !WithinQuota(l.Release(1).0)
  {
    var a, b := Granted(0, 2.0), Granted(1, -2.0);
    TwoClaims(a, b, "t");
    ReleaseFindsItsOwn(l, 1);
    assert Without(l.allocations, 1) == [a];
    assert "t" in l.quotas;
  }

  /**
    A run from the empty allocator that gets there: 2 W and -2 W are granted, a quota of 1 W fits
    the total of nothing, and releasing the second claim leaves 2 W.
   */
  lemma NegativeClaimsBreakTheQuota()
    ensures exists events, id ::
              && FreshRun(Ledger([], map[]), events)
              && WithinQuota(Replay(Ledger([], map[]), events))
              && !WithinQuota(Replay(Ledger([], map[]), events).Release(id).0)
  {
    var events, l := TwoGrantsAndAQuota();
    ReleaseExceedsTheQuota(l);
  }

  lemma TwoGrantsAndAQuota() returns (events: seq<Event>, l: Ledger)
    ensures FreshRun(Ledger([], map[]), events) && l == Replay(Ledger([], map[]), events)
    ensures l == Ledger([Granted(0, 2.0), Granted(1, -2.0)], map["t" := TenantQuota(1.0, 0, 0, 0)])
  {
    var l0: Ledger := Ledger([], map[]);
    var e1, e2, e3 := Granting(0, 2.0), Granting(1, -2.0), Event.SetQuota("t", TenantQuota(1.0, 0, 0, 0));
    UnboundedTenantIsGranted(l0, 0, 2.0);
    var l1 := Apply(l0, e1);
    UnboundedTenantIsGranted(l1, 1, -2.0);
    assert l1.allocations == [Granted(0, 2.0)] && Apply(l1, e2).allocations == [Granted(0, 2.0), Granted(1, -2.0)];
    ThreeEvents(l0, e1, e2, e3);
    events, l := [e1, e2, e3], Apply(Apply(l1, e2), e3);
  }

  lemma TwoClaims(a: Allocation, b: Allocation, tenant: TenantId)
    requires a.tenant == b.tenant == tenant
    ensures Usage([a], tenant) == a.resources.powerWatts
    ensures Usage([a, b], tenant) == a.resources.powerWatts + b.resources.powerWatts
  {
    var one, two := [a], [a, b];
    assert one[..|one| - 1] == [] && two[..|two| - 1] == one;
  }

  ghost predicate AllPreemptible(allocations: seq<Allocation>) {
    forall a | a in allocations :: a.preemptible
  }

  lemma {:induction false} RunStaysPreemptible(l: Ledger, events: seq<Event>)
    requires AllPreemptible(l.allocations)
    ensures AllPreemptible(Replay(l, events).allocations)
    decreases |events|
  {
    if events != [] {
      RunStaysPreemptible(Apply(l, events[0]), events[1..]);
    }
  }

  /**
    After any run from the empty allocator, preempting a live allocation removes exactly that
    one unless it is critical, in which case it is refused and nothing changes; so is an id that
    is not live.
   */
  lemma PreemptsExactlyIff(events: seq<Event>, p: nat)
    requires FreshRun(Ledger([], map[]), events) && p < |Replay(Ledger([], map[]), events).allocations|
    ensures var l := Replay(Ledger([], map[]), events);
            var a := l.allocations[p];
            && l.Preempt(a.id) == (if a.priority == Tasking.Critical then (l, Err(NotPreemptible(a.id)))
                                   else (Ledger(l.allocations[..p] + l.allocations[p + 1..], l.quotas), Ok(())))
            && forall id | (forall b | b in l.allocations :: b.id != id) :: l.Preempt(id) == (l, Err(NotFound(id)))
  {
    var l := Replay(Ledger([], map[]), events);
    EveryRunIsExclusive(Ledger([], map[]), events);
    RunStaysPreemptible(Ledger([], map[]), events);
    assert l.allocations[p] in l.allocations;
    ReleaseFindsItsOwn(l, p);
    assert Position(l.allocations, l.allocations[p].id) == Some(p);
  }

  /** A critical allocation outlives every run that does not release it by name. */
  lemma {:induction false} CriticalIsNeverPreempted(l: Ledger, events: seq<Event>, a: Allocation)
    requires UniqueIds(l.allocations) && FreshRun(l, events) && a in l.allocations && a.priority == Tasking.Critical
    requires forall e | e in events :: e != Event.Release(a.id)
    ensures a in Replay(l, events).allocations
    decreases |events|
  {
    if events != [] {
      var l', e := Apply(l, events[0]), events[0];
      assert e in events;
      CriticalSurvivesOne(l, e, a);
      ApplyKeepsExclusive(l, e);
      assert forall x | x in events[1..] :: x in events;
      CriticalIsNeverPreempted(l', events[1..], a);
    }
  }

  lemma CriticalSurvivesOne(l: Ledger, e: Event, a: Allocation)
    requires UniqueIds(l.allocations) && FreshIn(l, e) && e != Event.Release(a.id)
    requires a in l.allocations && a.priority == Tasking.Critical
    ensures a in Apply(l, e).allocations
  {
    if e.Release? || e.Preempt? {
      var p := Position(l.allocations, e.id);
      if p.Some? {
        var k :| 0 <= k < |l.allocations| && l.allocations[k] == a;
        if k != p.value {
          assert Without(l.allocations, p.value)[if k < p.value then k else k - 1] == a;
        }
      }
    }
  }

  // ---------------------------------------------------------------- the indexes

  /** What an index is keyed by. */
  datatype Key = OnTerminal(terminal: TerminalId) | OfTenant(tenant: TenantId) {
    predicate Matches(a: Allocation) {
      match this
      case OnTerminal(t) => Uses(a, t)
      case OfTenant(t) => a.tenant == t
    }
  }

  /** Ids of the matching allocations, in list order. */
  function IdsFor(allocations: seq<Allocation>, key: Key): (ids: seq<AllocationId>) {
    if allocations == [] then []
    else (if key.Matches(allocations[0]) then [allocations[0].id] else []) + IdsFor(allocations[1..], key)
  }

  function Retain(ids: seq<AllocationId>, gone: AllocationId): (kept: seq<AllocationId>) {
    if ids == [] then []
    else (if ids[0] != gone then [ids[0]] else []) + Retain(ids[1..], gone)
  }

  ghost predicate IndexesAgree(allocations: seq<Allocation>, byTerminal: map<TerminalId, seq<AllocationId>>,
                               byTenant: map<TenantId, seq<AllocationId>>)
  {
    && (forall t :: Entry(byTerminal, t) == IdsFor(allocations, OnTerminal(t)))
    && (forall t :: Entry(byTenant, t) == IdsFor(allocations, OfTenant(t)))
  }

  lemma {:induction false} IdsForAppend(allocations: seq<Allocation>, a: Allocation, key: Key)
    ensures IdsFor(allocations + [a], key) == IdsFor(allocations, key) + if key.Matches(a) then [a.id] else []
    decreases |allocations|
  {
    var all := allocations + [a];
    if allocations == [] {
      assert all[1..] == [];
    } else {
      var head := if key.Matches(all[0]) then [all[0].id] else [];
      var tail := if key.Matches(a) then [a.id] else [];
      assert all[1..] == allocations[1..] + [a] && all[0] == allocations[0];
      IdsForAppend(allocations[1..], a, key);
      assert IdsFor(all, key) == head + (IdsFor(allocations[1..], key) + tail);
      assert IdsFor(allocations, key) == head + IdsFor(allocations[1..], key);
    }
  }

  lemma {:induction false} IdsForOnlyLive(allocations: seq<Allocation>, key: Key, id: AllocationId)
    ensures id in IdsFor(allocations, key) <==> exists a :: a in allocations && key.Matches(a) && a.id == id
    decreases |allocations|
  {
    if allocations == [] {
    } else {
      IdsForOnlyLive(allocations[1..], key, id);
      assert allocations == [allocations[0]] + allocations[1..];
    }
  }

  lemma {:induction false} RetainAbsent(ids: seq<AllocationId>, gone: AllocationId)
    requires gone !in ids
    ensures Retain(ids, gone) == ids
    decreases |ids|
  {
    if ids != [] {
      RetainAbsent(ids[1..], gone);
    }
  }

  /** Removing an allocation from the list removes its id, and nothing else, from every entry. */
  lemma {:induction false} IdsForWithout(allocations: seq<Allocation>, p: nat, key: Key)
    requires p < |allocations| && UniqueIds(allocations)
    ensures IdsFor(Without(allocations, p), key) == Retain(IdsFor(allocations, key), allocations[p].id)
    ensures !key.Matches(allocations[p]) ==> IdsFor(Without(allocations, p), key) == IdsFor(allocations, key)
    decreases p
  {
    var gone, rest := allocations[p].id, allocations[1..];
    if p == 0 {
      assert Without(allocations, 0) == rest;
      var ids := IdsFor(rest, key);
      assert gone !in ids by { IdsForOnlyLive(rest, key, gone); }
      RetainAbsent(ids, gone);
      assert ([gone] + ids)[1..] == ids && [] + ids == ids;
    } else {
      assert Without(allocations, p)[1..] == Without(rest, p - 1);
      IdsForWithout(rest, p - 1, key);
      var ids, x := IdsFor(rest, key), allocations[0].id;
      assert ([x] + ids)[1..] == ids && [] + ids == ids;
      assert Without(allocations, p)[0] == allocations[0] && x != gone;
      assert [] + Retain(ids, gone) == Retain(ids, gone);
    }
  }

  /** Retaining in an entry that does not exist changes nothing. */
  function Drop<K>(index: map<K, seq<AllocationId>>, key: K, gone: AllocationId): (index': map<K, seq<AllocationId>>) {
    if key in index then index[key := Retain(index[key], gone)] else index
  }

  lemma IndexesAfterAppend(allocations: seq<Allocation>, a: Allocation, byTerminal: map<TerminalId, seq<AllocationId>>,
                           byTenant: map<TenantId, seq<AllocationId>>)
    requires IndexesAgree(allocations, byTerminal, byTenant)
    ensures var t := a.resources.opticalTerminal;
            IndexesAgree(allocations + [a], if t.Some? then Push(byTerminal, t.value, a.id) else byTerminal,
                         Push(byTenant, a.tenant, a.id))
  {
    var t := a.resources.opticalTerminal;
    var byTerminal' := if t.Some? then Push(byTerminal, t.value, a.id) else byTerminal;
    forall u ensures Entry(byTerminal', u) == IdsFor(allocations + [a], OnTerminal(u)) {
      IdsForAppend(allocations, a, OnTerminal(u));
      assert Entry(byTerminal, u) + [] == Entry(byTerminal, u);
    }
    forall u ensures Entry(Push(byTenant, a.tenant, a.id), u) == IdsFor(allocations + [a], OfTenant(u)) {
      IdsForAppend(allocations, a, OfTenant(u));
      assert Entry(byTenant, u) + [] == Entry(byTenant, u);
    }
  }

  lemma IndexesAfterRemoval(allocations: seq<Allocation>, p: nat, byTerminal: map<TerminalId, seq<AllocationId>>,
                            byTenant: map<TenantId, seq<AllocationId>>)
    requires p < |allocations| && UniqueIds(allocations) && IndexesAgree(allocations, byTerminal, byTenant)
    ensures var a := allocations[p];
            var t := a.resources.opticalTerminal;
            IndexesAgree(Without(allocations, p), if t.Some? then Drop(byTerminal, t.value, a.id) else byTerminal,
                         Drop(byTenant, a.tenant, a.id))
  {
    var a := allocations[p];
    var t := a.resources.opticalTerminal;
    var byTerminal' := if t.Some? then Drop(byTerminal, t.value, a.id) else byTerminal;
    forall u ensures Entry(byTerminal', u) == IdsFor(Without(allocations, p), OnTerminal(u)) {
      IdsForWithout(allocations, p, OnTerminal(u));
      assert Entry(byTerminal, u) == IdsFor(allocations, OnTerminal(u));
    }
    forall u ensures Entry(Drop(byTenant, a.tenant, a.id), u) == IdsFor(Without(allocations, p), OfTenant(u)) {
      IdsForWithout(allocations, p, OfTenant(u));
      assert Entry(byTenant, u) == IdsFor(allocations, OfTenant(u));
    }
  }

  function FindOverlapping(allocations: seq<Allocation>, id: AllocationId, w: TimeWindow): (r: Option<Allocation>) {
    if allocations == [] then None
    else if allocations[0].id == id && allocations[0].window.Overlaps(w) then Some(allocations[0])
    else FindOverlapping(allocations[1..], id, w)
  }

  lemma {:induction false} FindsItsOwn(allocations: seq<Allocation>, k: nat, w: TimeWindow)
    requires UniqueIds(allocations) && k < |allocations|
    ensures FindOverlapping(allocations, allocations[k].id, w) ==
            if allocations[k].window.Overlaps(w) then Some(allocations[k]) else None
    decreases |allocations|
  {
    if k == 0 {
      FindsNothing(allocations[1..], allocations[0].id, w);
    } else {
      FindsItsOwn(allocations[1..], k - 1, w);
    }
  }

  lemma {:induction false} FindsNothing(allocations: seq<Allocation>, id: AllocationId, w: TimeWindow)
    requires forall a | a in allocations :: a.id != id
    ensures FindOverlapping(allocations, id, w) == None
    decreases |allocations|
  {
    if allocations != [] {
      FindsNothing(allocations[1..], id, w);
    }
  }

  /** The indexed check, as a walk over the ids of one entry. */
  function ScanIds(allocations: seq<Allocation>, ids: seq<AllocationId>, w: TimeWindow): (r: Option<AllocationId>) {
    if ids == [] then None
    else match FindOverlapping(allocations, ids[0], w)
      case Some(a) => Some(a.id)
      case None => ScanIds(allocations, ids[1..], w)
  }

  /** Walking the entry of a terminal finds the same first conflict as scanning the whole list. */
  lemma {:induction false} IndexedScanIsFullScan(allocations: seq<Allocation>, k: nat, terminal: TerminalId,
                                                 w: TimeWindow)
    requires UniqueIds(allocations) && k <= |allocations|
    ensures ScanIds(allocations, IdsFor(allocations[k..], OnTerminal(terminal)), w) ==
            FirstConflict(allocations[k..], terminal, w)
    decreases |allocations| - k
  {
    if k == |allocations| {
    } else {
      var rest := allocations[k..];
      assert rest[1..] == allocations[k + 1..];
      IndexedScanIsFullScan(allocations, k + 1, terminal, w);
      FindsItsOwn(allocations, k, w);
      var ids := IdsFor(rest[1..], OnTerminal(terminal));
      assert ([rest[0].id] + ids)[1..] == ids && [] + ids == ids;
    }
  }

  function FindById(allocations: seq<Allocation>, id: AllocationId): (r: Option<Allocation>) {
    match Position(allocations, id)
    case None => None
    case Some(p) => Some(allocations[p])
  }

  function PowerOf(allocations: seq<Allocation>, ids: seq<AllocationId>): (power: real) {
    if ids == [] then 0.0
    else
      var last := FindById(allocations, ids[|ids| - 1]);
      PowerOf(allocations, ids[..|ids| - 1]) + if last.Some? then last.value.resources.powerWatts else 0.0
  }

  lemma PowerOfNext(allocations: seq<Allocation>, ids: seq<AllocationId>, i: nat)
    requires i < |ids|
    ensures var a := FindById(allocations, ids[i]);
            PowerOf(allocations, ids[..i + 1]) ==
            PowerOf(allocations, ids[..i]) + if a.Some? then a.value.resources.powerWatts else 0.0
  {
    assert ids[..i + 1][..i] == ids[..i];
  }

  /** Summing over a tenant's entry adds the same terms in the same order as the full scan. */
  lemma {:induction false} IndexedSumIsFullSum(allocations: seq<Allocation>, k: nat, tenant: TenantId)
    requires UniqueIds(allocations) && k <= |allocations|
    ensures PowerOf(allocations, IdsFor(allocations[..k], OfTenant(tenant))) == Usage(allocations[..k], tenant)
    decreases k
  {
    if k == 0 {
    } else {
      var a := allocations[k - 1];
      assert allocations[..k] == allocations[..k - 1] + [a];
      assert allocations[..k][..k - 1] == allocations[..k - 1];
      IdsForAppend(allocations[..k - 1], a, OfTenant(tenant));
      IndexedSumIsFullSum(allocations, k - 1, tenant);
      if a.tenant == tenant {
        var ids := IdsFor(allocations[..k - 1], OfTenant(tenant));
        assert (ids + [a.id])[..|ids|] == ids;
        assert FindById(allocations, a.id) == Some(a);
      } else {
        assert IdsFor(allocations[..k - 1], OfTenant(tenant)) + [] == IdsFor(allocations[..k - 1], OfTenant(tenant));
      }
    }
  }

  // ---------------------------------------------------------------- the allocator object

  class ResourceAllocator {
    var allocations: seq<Allocation>
    var tenantQuotas: map<TenantId, TenantQuota>
    var terminalIndex: map<TerminalId, seq<AllocationId>>
    var tenantIndex: map<TenantId, seq<AllocationId>>

    ghost predicate Valid()
      reads this
    {
      UniqueIds(allocations) && IndexesAgree(allocations, terminalIndex, tenantIndex)
    }

    ghost function View(): Ledger
      reads this
    {
      Ledger(allocations, tenantQuotas)
    }

    constructor ()
      ensures Valid() && View() == Ledger([], map[])
    {
      allocations, tenantQuotas, terminalIndex, tenantIndex := [], map[], map[], map[];
    }

    method SetTenantQuota(tenant: TenantId, quota: TenantQuota)
      requires Valid()
      modifies this
      ensures Valid() && View() == old(View()).SetQuota(tenant, quota)
    {
      tenantQuotas := tenantQuotas[tenant := quota];
    }

    /** Looks only at the allocations indexed under the claimed terminal. */
    method CheckConflicts(claim: ResourceClaim, w: TimeWindow) returns (r: Option<AllocationId>)
      requires Valid()
      ensures r == match claim.opticalTerminal case None => None case Some(t) => FirstConflict(allocations, t, w)
    {
      r := None;
      if claim.opticalTerminal.Some? {
        var t := claim.opticalTerminal.value;
        var ids := Entry(terminalIndex, t);
        assert allocations[0..] == allocations;
        IndexedScanIsFullScan(allocations, 0, t, w);
        var i := 0;
        while i < |ids|
          invariant 0 <= i <= |ids| && r == None
          invariant ScanIds(allocations, ids[i..], w) == FirstConflict(allocations, t, w)
        {
          var found := FindOverlapping(allocations, ids[i], w);
          assert ids[i..][1..] == ids[i + 1..];
          if found.Some? {
            return Some(found.value.id);
          }
          i := i + 1;
        }
      }
    }

    /** Adds up only the allocations indexed under the tenant. */
    method TenantUsage(tenant: TenantId) returns (power: real)
      requires Valid()
      ensures power == Usage(allocations, tenant)
    {
      var ids := Entry(tenantIndex, tenant);
      power := 0.0;
      for i := 0 to |ids|
        invariant power == PowerOf(allocations, ids[..i])
      {
        var a := FindById(allocations, ids[i]);
        PowerOfNext(allocations, ids, i);
        if a.Some? {
          power := power + a.value.resources.powerWatts;
        }
      }
      assert ids[..|ids|] == ids;
      assert PowerOf(allocations, ids) == Usage(allocations, tenant) by {
        assert allocations[..|allocations|] == allocations;
        IndexedSumIsFullSum(allocations, |allocations|, tenant);
      }
    }

    /** Appends a granted allocation and indexes it under its terminal and its tenant. */
    method Record(allocation: Allocation)
      requires Valid() && forall a | a in allocations :: a.id != allocation.id
      modifies this
      ensures Valid() && allocations == old(allocations) + [allocation] && tenantQuotas == old(tenantQuotas)
    {
      IndexesAfterAppend(allocations, allocation, terminalIndex, tenantIndex);
      GrantKeepsUnique(allocations, allocation);
      var byTerminal, byTenant := terminalIndex, Push(tenantIndex, allocation.tenant, allocation.id);
      if allocation.resources.opticalTerminal.Some? {
        byTerminal := Push(terminalIndex, allocation.resources.opticalTerminal.value, allocation.id);
      }
      terminalIndex, tenantIndex, allocations := byTerminal, byTenant, allocations + [allocation];
    }

    method Allocate(id: AllocationId, claim: ResourceClaim, task: TaskId, tenant: TenantId,
                    priority: Priority, w: TimeWindow)
      returns (r: Result<AllocationId, AllocationError>)
      requires Valid() && forall a | a in allocations :: a.id != id
      modifies this
      ensures Valid() && (View(), r) == old(View()).Allocate(id, claim, task, tenant, priority, w)
    {
      if tenant in tenantQuotas {
        var usage := TenantUsage(tenant);
        if usage + claim.powerWatts > tenantQuotas[tenant].maxPowerWatts {
          return Err(QuotaExceeded(tenant, "power"));
        }
      }
      var conflict := CheckConflicts(claim, w);
      if conflict.Some? {
        return Err(ResourceConflict(conflict.value));
      }
      var allocation := Allocation(id, task, tenant, claim, w, priority, true);
      Record(allocation);
      return Ok(id);
    }

    method Release(id: AllocationId) returns (r: Result<(), AllocationError>)
      requires Valid()
      modifies this
      ensures Valid() && (View(), r) == old(View()).Release(id)
    {
      var pos := Position(allocations, id);
      if pos.None? {
        return Err(NotFound(id));
      }
      var removed := allocations[pos.value];
      IndexesAfterRemoval(allocations, pos.value, terminalIndex, tenantIndex);
      RemovalKeepsExclusive(allocations, pos.value);
      allocations := Without(allocations, pos.value);
      if removed.resources.opticalTerminal.Some? {
        terminalIndex := Drop(terminalIndex, removed.resources.opticalTerminal.value, id);
      }
      tenantIndex := Drop(tenantIndex, removed.tenant, id);
      return Ok(());
    }

    method Preempt(id: AllocationId) returns (r: Result<(), AllocationError>)
      requires Valid()
      modifies this
      ensures Valid() && (View(), r) == old(View()).Preempt(id)
    {
      var pos := Position(allocations, id);
      if pos.None? {
        return Err(NotFound(id));
      }
      if !allocations[pos.value].CanPreempt() {
        return Err(NotPreemptible(id));
      }
      r := Release(id);
    }
  }
}
