/**
  The hash-chained bi-temporal log. The digest of an entry's fields is a parameter; it is
  taken to be injective only where a lemma says so.
 */
module BitemporalLog {
  import opened Timeline

  type Hash = nat
  type EntryId = nat
  type PassId = nat

  /** The fields an entry's hash is computed over. */
  datatype Content = Content(
    entryId: EntryId, passId: PassId, entryType: string,
    eventTime: int, receptionTime: int, data: string, previous: Option<Hash>)

  datatype LogEntry = LogEntry(content: Content, hash: Hash)

  datatype LogError = VerificationFailed | ChainBroken

  type Digest = Content -> Hash

  predicate Verifies(h: Digest, e: LogEntry) {
    h(e.content) == e.hash
  }

  predicate Collide(h: Digest, c: Content, d: Content) {
    h(c) == h(d)
  }

  ghost predicate Injective(h: Digest) {
    forall c, d :: Collide(h, c, d) ==> c == d
  }

  lemma SameHashSameEntry(h: Digest, e: LogEntry, f: LogEntry)
    requires Injective(h) && Verifies(h, e) && Verifies(h, f) && e.hash == f.hash
    ensures e == f
  {
    assert Collide(h, e.content, f.content);
  }

  // ---------------------------------------------------------------- histories of accepted appends

  function LatestHash(es: seq<LogEntry>): (r: Option<Hash>) {
    if es == [] then None else Some(es[|es| - 1].hash)
  }

  /** What `append` checks: integrity, and the link to the latest entry once there is one. */
  predicate Accepts(h: Digest, latest: Option<Hash>, e: LogEntry) {
    Verifies(h, e) && (latest.Some? ==> e.content.previous == latest)
  }

  /** Entry `i` was accepted by the log holding the entries before it. */
  ghost predicate AcceptedAt(h: Digest, es: seq<LogEntry>, i: nat)
    requires i < |es|
  {
    Accepts(h, LatestHash(es[..i]), es[i])
  }

  /** Every entry of `es` was accepted in turn by a log that started empty. */
  ghost predicate Accepted(h: Digest, es: seq<LogEntry>) {
    forall i: nat | i < |es| :: AcceptedAt(h, es, i)
  }

  lemma AcceptedLink(h: Digest, es: seq<LogEntry>, i: nat)
    requires Accepted(h, es) && i < |es|
    ensures Verifies(h, es[i])
    ensures i > 0 ==> es[i].content.previous == Some(es[i - 1].hash)
  {
    assert AcceptedAt(h, es, i);
  }

  lemma AcceptedPrefix(h: Digest, es: seq<LogEntry>, n: nat)
    requires Accepted(h, es) && n <= |es|
    ensures Accepted(h, es[..n])
  {
    forall i: nat | i < n ensures AcceptedAt(h, es[..n], i) {
      assert AcceptedAt(h, es, i);
      assert es[..n][..i] == es[..i];
    }
  }

  lemma AcceptedAppend(h: Digest, es: seq<LogEntry>, e: LogEntry)
    requires Accepted(h, es) && Accepts(h, LatestHash(es), e)
    ensures Accepted(h, es + [e])
  {
    forall i: nat | i < |es| + 1 ensures AcceptedAt(h, es + [e], i) {
      assert (es + [e])[..i] == es[..i];
      if i < |es| {
        assert AcceptedAt(h, es, i);
      } else {
        assert es[..i] == es;
      }
    }
  }

  ghost predicate FreshIds(es: seq<LogEntry>) {
    forall i, j | 0 <= i < j < |es| :: es[i].content.entryId != es[j].content.entryId
  }

  /** The map of entries by id: a repeated id overwrites. */
  function EntriesOf(es: seq<LogEntry>): (m: map<EntryId, LogEntry>) {
    if es == [] then map[]
    else EntriesOf(es[..|es| - 1])[es[|es| - 1].content.entryId := es[|es| - 1]]
  }

  function OfPass(es: seq<LogEntry>, p: PassId): (own: seq<LogEntry>) {
    if es == [] then []
    else OfPass(es[..|es| - 1], p) + if es[|es| - 1].content.passId == p then [es[|es| - 1]] else []
  }

  function Ids(es: seq<LogEntry>): (ids: seq<EntryId>)
    ensures |ids| == |es| && forall i | 0 <= i < |es| :: ids[i] == es[i].content.entryId
  {
    seq(|es|, i requires 0 <= i < |es| => es[i].content.entryId)
  }

  lemma {:induction false} OfPassIsLive(es: seq<LogEntry>, p: PassId)
    ensures forall e | e in OfPass(es, p) :: e in es && e.content.passId == p
    ensures forall e | e in es && e.content.passId == p :: e in OfPass(es, p)
    decreases |es|
  {
    if es != [] {
      OfPassIsLive(es[..|es| - 1], p);
      assert es == es[..|es| - 1] + [es[|es| - 1]];
    }
  }

  lemma {:induction false} EntriesHoldEach(es: seq<LogEntry>)
    ensures forall e | e in es :: e.content.entryId in EntriesOf(es)
    ensures forall id | id in EntriesOf(es) :: EntriesOf(es)[id] in es && EntriesOf(es)[id].content.entryId == id
    ensures FreshIds(es) ==> forall e | e in es :: EntriesOf(es)[e.content.entryId] == e
    decreases |es|
  {
    if es != [] {
      var n := |es| - 1;
      EntriesHoldEach(es[..n]);
      assert es == es[..n] + [es[n]];
    }
  }

  // ---------------------------------------------------------------- sorting by reception time

  function Insert(e: LogEntry, es: seq<LogEntry>): (r: seq<LogEntry>) {
    if es == [] || e.content.receptionTime <= es[0].content.receptionTime then [e] + es
    else [es[0]] + Insert(e, es[1..])
  }

  /** A stable sort. */
  function Sort(es: seq<LogEntry>): (r: seq<LogEntry>) {
    if es == [] then [] else Insert(es[0], Sort(es[1..]))
  }

  ghost predicate Sorted(es: seq<LogEntry>) {
    forall i, j | 0 <= i < j < |es| :: es[i].content.receptionTime <= es[j].content.receptionTime
  }

  ghost predicate StrictlyIncreasing(es: seq<LogEntry>) {
    forall i, j | 0 <= i < j < |es| :: es[i].content.receptionTime < es[j].content.receptionTime
  }

  lemma {:induction false} InsertKeepsEntries(e: LogEntry, es: seq<LogEntry>)
    ensures multiset(Insert(e, es)) == multiset(es) + multiset{e}
    ensures forall x :: x in Insert(e, es) <==> x == e || x in es
    decreases |es|
  {
    if es == [] || e.content.receptionTime <= es[0].content.receptionTime {
    } else {
      InsertKeepsEntries(e, es[1..]);
      assert es == [es[0]] + es[1..];
    }
  }

  lemma {:induction false} InsertSorts(e: LogEntry, es: seq<LogEntry>)
    requires Sorted(es)
    ensures Sorted(Insert(e, es))
    decreases |es|
  {
    if es == [] || e.content.receptionTime <= es[0].content.receptionTime {
    } else {
      InsertSorts(e, es[1..]);
      InsertKeepsEntries(e, es[1..]);
      SortedCons(es[0], Insert(e, es[1..]));
    }
  }

  lemma SortedCons(e: LogEntry, es: seq<LogEntry>)
    requires Sorted(es) && forall x | x in es :: e.content.receptionTime <= x.content.receptionTime
    ensures Sorted([e] + es)
  {
  }

  lemma {:induction false} SortSorts(es: seq<LogEntry>)
    ensures Sorted(Sort(es)) && multiset(Sort(es)) == multiset(es)
    decreases |es|
  {
    if es != [] {
      SortSorts(es[1..]);
      InsertSorts(es[0], Sort(es[1..]));
      InsertKeepsEntries(es[0], Sort(es[1..]));
      assert es == [es[0]] + es[1..];
    }
  }

  /** The entries received at one time, in order. */
  function ReceivedAt(es: seq<LogEntry>, t: int): (own: seq<LogEntry>) {
    if es == [] then []
    else (if es[0].content.receptionTime == t then [es[0]] else []) + ReceivedAt(es[1..], t)
  }

  lemma {:induction false} InsertIsStable(e: LogEntry, es: seq<LogEntry>, t: int)
    ensures ReceivedAt(Insert(e, es), t) == ReceivedAt([e] + es, t)
    decreases |es|
  {
    assert ([e] + es)[1..] == es;
    if es != [] && e.content.receptionTime > es[0].content.receptionTime {
      InsertIsStable(e, es[1..], t);
      assert ([e] + es[1..])[1..] == es[1..];
      assert ([es[0]] + Insert(e, es[1..]))[1..] == Insert(e, es[1..]);
    }
  }

  /** The sort is stable: entries with equal reception times keep the order they came in. */
  lemma {:induction false} SortIsStable(es: seq<LogEntry>, t: int)
    ensures ReceivedAt(Sort(es), t) == ReceivedAt(es, t)
    decreases |es|
  {
    if es != [] {
      SortIsStable(es[1..], t);
      InsertIsStable(es[0], Sort(es[1..]), t);
      assert ([es[0]] + Sort(es[1..]))[1..] == Sort(es[1..]);
    }
  }

  lemma {:induction false} SortKeepsSorted(es: seq<LogEntry>)
    requires Sorted(es)
    ensures Sort(es) == es
    decreases |es|
  {
    if es != [] {
      SortKeepsSorted(es[1..]);
      assert es == [es[0]] + es[1..];
    }
  }

  lemma SameFirst(t: seq<LogEntry>, es: seq<LogEntry>)
    requires Sorted(t) && StrictlyIncreasing(es) && t != [] && es != []
    requires t[0] in es && es[0] in t
    ensures t[0] == es[0]
  {
  }

  lemma MultisetTail(t: seq<LogEntry>)
    requires t != []
    ensures multiset(t[1..]) == multiset(t) - multiset{t[0]}
  {
    assert t == [t[0]] + t[1..];
  }

  lemma SamePopulation(t: seq<LogEntry>, es: seq<LogEntry>)
    requires multiset(t) == multiset(es)
    ensures |t| == |es| && forall e :: e in t <==> e in es
  {
    assert |t| == |multiset(t)| && |es| == |multiset(es)|;
    forall e ensures e in t <==> e in es {
      assert e in t <==> e in multiset(t);
      assert e in es <==> e in multiset(es);
    }
  }

  /** Distinct times leave one sorted order. */
  lemma {:induction false} SortedOrderIsUnique(t: seq<LogEntry>, es: seq<LogEntry>)
    requires Sorted(t) && StrictlyIncreasing(es) && multiset(t) == multiset(es)
    ensures t == es
    decreases |es|
  {
    SamePopulation(t, es);
    if es != [] {
      SameFirst(t, es);
      MultisetTail(t);
      MultisetTail(es);
      SortedOrderIsUnique(t[1..], es[1..]);
      assert t == [t[0]] + t[1..] && es == [es[0]] + es[1..];
    }
  }

  // ---------------------------------------------------------------- chain verification

  /** The running check: links from `previous` on, and the integrity of every entry. */
  predicate ChainOk(h: Digest, es: seq<LogEntry>, previous: Option<Hash>)
    decreases |es|
  {
    es == [] ||
    (es[0].content.previous == previous && Verifies(h, es[0]) && ChainOk(h, es[1..], Some(es[0].hash)))
  }

  /** The log verifies whatever order its map yields the entries in. */
  ghost predicate VerifiesInEveryOrder(h: Digest, es: seq<LogEntry>) {
    forall order | multiset(order) == multiset(es) :: ChainOk(h, Sort(order), None)
  }

  ghost predicate StartsUnlinked(es: seq<LogEntry>) {
    es == [] || es[0].content.previous == None
  }

  lemma {:induction false} AcceptedIsChain(h: Digest, es: seq<LogEntry>, k: nat)
    requires Accepted(h, es) && StartsUnlinked(es) && k <= |es|
    ensures ChainOk(h, es[k..], LatestHash(es[..k]))
    decreases |es| - k
  {
    if k < |es| {
      AcceptedLink(h, es, k);
      AcceptedIsChain(h, es, k + 1);
      assert es[k..][1..] == es[k + 1..] && LatestHash(es[..k + 1]) == Some(es[k].hash);
      assert k > 0 ==> LatestHash(es[..k]) == Some(es[k - 1].hash);
    }
  }

  /** Accepted appends with increasing reception times and an unlinked first entry verify. */
  lemma IncreasingLogVerifies(h: Digest, es: seq<LogEntry>)
    requires Accepted(h, es) && StartsUnlinked(es) && StrictlyIncreasing(es)
    ensures VerifiesInEveryOrder(h, es)
  {
    forall order | multiset(order) == multiset(es) ensures ChainOk(h, Sort(order), None) {
      SortSorts(order);
      SortedOrderIsUnique(Sort(order), es);
      assert es[0..] == es && es[..0] == [];
      AcceptedIsChain(h, es, 0);
    }
  }

  lemma {:induction false} ChainLinks(h: Digest, es: seq<LogEntry>, previous: Option<Hash>, i: nat)
    requires ChainOk(h, es, previous) && i < |es|
    ensures es[i].content.previous == (if i == 0 then previous else Some(es[i - 1].hash)) && Verifies(h, es[i])
    decreases |es|
  {
    if i > 0 {
      ChainLinks(h, es[1..], Some(es[0].hash), i - 1);
    }
  }

  /** The successor of entry `i` in a chain over the same entries is entry `i + 1`. */
  lemma SuccessorIsNext(h: Digest, es: seq<LogEntry>, e: LogEntry, i: nat)
    requires Injective(h) && Accepted(h, es) && FreshIds(es) && i < |es|
    requires e in es && e.content.previous == Some(es[i].hash) && e != es[0]
    ensures i + 1 < |es| && e == es[i + 1]
  {
    var j :| 0 <= j < |es| && es[j] == e;
    AcceptedLink(h, es, j);
    AcceptedLink(h, es, j - 1);
    AcceptedLink(h, es, i);
    SameHashSameEntry(h, es[j - 1], es[i]);
  }

  lemma OnlyFirstUnlinked(h: Digest, es: seq<LogEntry>, e: LogEntry)
    requires Accepted(h, es) && e in es && e.content.previous == None
    ensures e == es[0]
  {
    var j :| 0 <= j < |es| && es[j] == e;
    AcceptedLink(h, es, j);
  }

  /** With an injective digest only one order of the entries is a chain: the append order. */
  lemma {:induction false} ChainOrderIsAppendOrder(h: Digest, es: seq<LogEntry>, t: seq<LogEntry>, i: nat)
    requires Injective(h) && Accepted(h, es) && FreshIds(es)
    requires multiset(t) == multiset(es) && ChainOk(h, t, None) && i < |t|
    ensures |t| == |es| && t[i] == es[i]
    ensures es[0].content.previous == None
    decreases i
  {
    SamePopulation(t, es);
    ChainLinks(h, t, None, i);
    assert t[i] in es;
    if i == 0 {
      OnlyFirstUnlinked(h, es, t[0]);
    } else {
      ChainOrderIsAppendOrder(h, es, t, i - 1);
      assert t[i] != es[0];
      SuccessorIsNext(h, es, t[i], i - 1);
    }
  }

  lemma ChainIsAppendOrder(h: Digest, es: seq<LogEntry>, t: seq<LogEntry>)
    requires Injective(h) && Accepted(h, es) && FreshIds(es)
    requires multiset(t) == multiset(es) && ChainOk(h, t, None)
    ensures t == es && StartsUnlinked(es)
  {
    SamePopulation(t, es);
    forall i: nat | i < |t| ensures t[i] == es[i] {
      ChainOrderIsAppendOrder(h, es, t, i);
    }
    if es != [] {
      ChainOrderIsAppendOrder(h, es, t, 0);
    }
  }

  lemma SwapNeighbours(es: seq<LogEntry>, i: nat) returns (t: seq<LogEntry>)
    requires i + 1 < |es| && Sorted(es) && es[i].content.receptionTime == es[i + 1].content.receptionTime
    ensures t == es[i := es[i + 1]][i + 1 := es[i]] && Sorted(t) && multiset(t) == multiset(es)
  {
    t := es[i := es[i + 1]][i + 1 := es[i]];
  }

  /** In one map order a log verifies exactly when the stable sort restores the append order. */
  lemma OrderVerifiesIff(h: Digest, es: seq<LogEntry>, order: seq<LogEntry>)
    requires Injective(h) && Accepted(h, es) && FreshIds(es) && multiset(order) == multiset(es)
    ensures ChainOk(h, Sort(order), None) <==> StartsUnlinked(es) && Sort(order) == es
  {
    SortSorts(order);
    if ChainOk(h, Sort(order), None) {
      ChainIsAppendOrder(h, es, Sort(order));
    } else if StartsUnlinked(es) {
      assert es[0..] == es && es[..0] == [];
      AcceptedIsChain(h, es, 0);
    }
  }

  /**
    Exactly when a log of accepted appends with fresh ids verifies in every map order: its
    first entry names no predecessor and its reception times strictly increase.
   */
  lemma LogVerifiesIff(h: Digest, es: seq<LogEntry>)
    requires Injective(h) && Accepted(h, es) && FreshIds(es)
    ensures VerifiesInEveryOrder(h, es) <==> StartsUnlinked(es) && StrictlyIncreasing(es)
  {
    if StartsUnlinked(es) && StrictlyIncreasing(es) {
      IncreasingLogVerifies(h, es);
    }
    if VerifiesInEveryOrder(h, es) {
      SortSorts(es);
      ChainIsAppendOrder(h, es, Sort(es));
      forall i: nat | i + 1 < |es| ensures es[i].content.receptionTime < es[i + 1].content.receptionTime {
        if es[i].content.receptionTime == es[i + 1].content.receptionTime {
          var t := SwapNeighbours(es, i);
          SortKeepsSorted(t);
          ChainIsAppendOrder(h, es, t);
        }
      }
      NeighboursIncrease(es);
    }
  }

  /** Two accepted entries whose reception times decrease do not verify, whatever the digest. */
  lemma LateEntryBreaksTheChain(h: Digest)
    ensures exists es :: Accepted(h, es) && FreshIds(es) && StartsUnlinked(es) && !ChainOk(h, Sort(es), None)
  {
    var c := Content(0, 0, "", 0, 1, "", None);
    var d := Content(1, 0, "", 0, 0, "", Some(h(c)));
    var e, f := LogEntry(c, h(c)), LogEntry(d, h(d));
    assert [e][..0] == [] && Accepted(h, [e]) by { AcceptedAppend(h, [], e); assert [] + [e] == [e]; }
    AcceptedAppend(h, [e], f);
    assert [e] + [f] == [e, f];
    assert Sort([f]) == [f] by { assert [f][1..] == []; }
    assert Insert(e, [f]) == [f, e] by { assert [f][1..] == [] && Insert(e, []) == [e]; }
    assert Sort([e, f]) == [f, e] by { assert [e, f][1..] == [f]; }
    assert !ChainOk(h, [f, e], None);
  }

  /** Nor does a first entry that names a predecessor, which an empty log accepts. */
  lemma LinkedFirstEntryBreaksTheChain(h: Digest, previous: Hash)
    ensures exists es :: Accepted(h, es) && FreshIds(es) && StrictlyIncreasing(es) && !ChainOk(h, Sort(es), None)
  {
    var c := Content(0, 0, "", 0, 0, "", Some(previous));
    var e := LogEntry(c, h(c));
    AcceptedAppend(h, [], e);
    assert [] + [e] == [e];
    assert Sort([e]) == [e] by { assert [e][1..] == []; }
    assert !ChainOk(h, [e], None);
  }

  lemma {:induction false} NeighboursIncrease(es: seq<LogEntry>)
    requires forall i: nat | i + 1 < |es| :: es[i].content.receptionTime < es[i + 1].content.receptionTime
    ensures StrictlyIncreasing(es)
    decreases |es|
  {
    if |es| > 1 {
      var n := |es| - 1;
      NeighboursIncrease(es[..n]);
      assert es[n - 1].content.receptionTime < es[n - 1 + 1].content.receptionTime;
      forall i, j | 0 <= i < j < |es| ensures es[i].content.receptionTime < es[j].content.receptionTime {
        assert i < n - 1 ==> es[..n][i].content.receptionTime < es[..n][n - 1].content.receptionTime;
        if j < n {
          assert es[..n][i].content.receptionTime < es[..n][j].content.receptionTime;
        }
      }
    }
  }

  /** The latest hash determines the whole log. */
  lemma {:induction false} LatestHashDeterminesLog(h: Digest, es: seq<LogEntry>, fs: seq<LogEntry>)
    requires Injective(h) && Accepted(h, es) && Accepted(h, fs)
    requires StartsUnlinked(es) && StartsUnlinked(fs) && LatestHash(es) == LatestHash(fs)
    ensures es == fs
    decreases |es|
  {
    if es == [] {
    } else {
      var n, m := |es| - 1, |fs| - 1;
      AcceptedLink(h, es, n);
      AcceptedLink(h, fs, m);
      SameHashSameEntry(h, es[n], fs[m]);
      AcceptedPrefix(h, es, n);
      AcceptedPrefix(h, fs, m);
      LatestHashDeterminesLog(h, es[..n], fs[..m]);
      assert es == es[..n] + [es[n]] && fs == fs[..m] + [fs[m]];
    }
  }

  // ---------------------------------------------------------------- the log object

  /** The maps and the latest hash are those of the accepted appends `es`. */
  ghost predicate Reflects(h: Digest, es: seq<LogEntry>, entries: map<EntryId, LogEntry>,
                           passEntries: map<PassId, seq<EntryId>>, latest: Option<Hash>)
  {
    && Accepted(h, es)
    && entries == EntriesOf(es)
    && latest == LatestHash(es)
    && forall p :: Entry(passEntries, p) == Ids(OfPass(es, p))
  }

  lemma ReflectsAppend(h: Digest, es: seq<LogEntry>, entries: map<EntryId, LogEntry>,
                       passEntries: map<PassId, seq<EntryId>>, latest: Option<Hash>, e: LogEntry)
    requires Reflects(h, es, entries, passEntries, latest) && Accepts(h, latest, e)
    ensures Reflects(h, es + [e], entries[e.content.entryId := e],
                     Push(passEntries, e.content.passId, e.content.entryId), Some(e.hash))
  {
    AcceptedAppend(h, es, e);
    assert (es + [e])[..|es|] == es;
    forall p ensures Entry(Push(passEntries, e.content.passId, e.content.entryId), p)
                     == Ids(OfPass(es + [e], p))
    {
      PassIndexAppend(es, passEntries, e, p);
    }
  }

  lemma PassIndexAppend(es: seq<LogEntry>, passEntries: map<PassId, seq<EntryId>>, e: LogEntry, p: PassId)
    requires Entry(passEntries, p) == Ids(OfPass(es, p))
    ensures Entry(Push(passEntries, e.content.passId, e.content.entryId), p)
            == Ids(OfPass(es + [e], p))
  {
    assert (es + [e])[..|es|] == es;
    var own := OfPass(es, p);
    assert OfPass(es + [e], p) == own + if e.content.passId == p then [e] else [];
    assert Ids(own + [e]) == Ids(own) + [e.content.entryId];
  }

  /** `order` lists the values of the map, each once. */
  ghost predicate Enumerates(order: seq<LogEntry>, entries: map<EntryId, LogEntry>) {
    && FreshIds(order)
    && forall e :: e in order <==> e.content.entryId in entries && entries[e.content.entryId] == e
  }

  lemma {:induction false} CountedOnce(es: seq<LogEntry>, e: LogEntry)
    requires FreshIds(es)
    ensures multiset(es)[e] == if e in es then 1 else 0
    decreases |es|
  {
    if es != [] {
      var n := |es| - 1;
      CountedOnce(es[..n], e);
      assert es == es[..n] + [es[n]];
    }
  }

  lemma EnumerationIsHistory(es: seq<LogEntry>, order: seq<LogEntry>)
    requires FreshIds(es) && Enumerates(order, EntriesOf(es))
    ensures multiset(order) == multiset(es)
  {
    EntriesHoldEach(es);
    forall e ensures multiset(order)[e] == multiset(es)[e] {
      CountedOnce(order, e);
      CountedOnce(es, e);
    }
  }

  lemma LookupGivesOwn(es: seq<LogEntry>, p: PassId, i: nat)
    requires i < |OfPass(es, p)|
    ensures var e := OfPass(es, p)[i];
            && e.content.entryId in EntriesOf(es)
            && EntriesOf(es)[e.content.entryId] in es
            && EntriesOf(es)[e.content.entryId].content.entryId == e.content.entryId
            && (FreshIds(es) ==> EntriesOf(es)[e.content.entryId] == e)
  {
    OfPassIsLive(es, p);
    EntriesHoldEach(es);
    assert OfPass(es, p)[i] in OfPass(es, p);
  }

  class Log {
    const digest: Digest
    var entries: map<EntryId, LogEntry>
    var passEntries: map<PassId, seq<EntryId>>
    var latestHash: Option<Hash>
    ghost var history: seq<LogEntry>

    ghost predicate Valid()
      reads this
    {
      Reflects(digest, history, entries, passEntries, latestHash)
    }

    constructor (digest: Digest)
      ensures Valid() && history == [] && this.digest == digest
    {
      this.digest := digest;
      entries, passEntries, latestHash, history := map[], map[], None, [];
    }

    method Append(e: LogEntry) returns (r: Result<(), LogError>)
      requires Valid()
      modifies this
      ensures Valid()
      ensures r.Ok? <==> Accepts(digest, LatestHash(old(history)), e)
      ensures history == if r.Ok? then old(history) + [e] else old(history)
      ensures !Verifies(digest, e) ==> r == Err(VerificationFailed)
      ensures Verifies(digest, e) && r.Err? ==> r == Err(ChainBroken)
    {
      if !Verifies(digest, e) {
        return Err(VerificationFailed);
      }
      if latestHash.Some? && e.content.previous != latestHash {
        return Err(ChainBroken);
      }
      ReflectsAppend(digest, history, entries, passEntries, latestHash, e);
      entries := entries[e.content.entryId := e];
      passEntries := Push(passEntries, e.content.passId, e.content.entryId);
      latestHash := Some(e.hash);
      history := history + [e];
      return Ok(());
    }

    /** With fresh ids these are the pass's entries in append order. */
    method GetPassEntries(p: PassId) returns (r: seq<LogEntry>)
      requires Valid()
      ensures |r| == |OfPass(history, p)|
      ensures forall i | 0 <= i < |r| ::
                r[i].content.entryId == OfPass(history, p)[i].content.entryId && r[i] in history
      ensures FreshIds(history) ==> r == OfPass(history, p)
    {
      var ids := Entry(passEntries, p);
      ghost var own := OfPass(history, p);
      assert ids == Ids(own);
      r := [];
      for i := 0 to |ids|
        invariant |r| == i
        invariant forall k | 0 <= k < i :: r[k].content.entryId == own[k].content.entryId && r[k] in history
        invariant FreshIds(history) ==> r == own[..i]
      {
        LookupGivesOwn(history, p, i);
        if ids[i] in entries {
          r := r + [entries[ids[i]]];
        }
      }
    }

    /** `order` is the entries as the map happens to yield them. */
    method VerifyChain(order: seq<LogEntry>) returns (ok: bool)
      requires Valid() && Enumerates(order, entries)
      ensures ok == ChainOk(digest, Sort(order), None)
      ensures FreshIds(history) && StartsUnlinked(history) && StrictlyIncreasing(history) ==> ok
      ensures Injective(digest) && FreshIds(history) ==> (ok <==> StartsUnlinked(history) && Sort(order) == history)
    {
      if Injective(digest) && FreshIds(history) {
        EnumerationIsHistory(history, order);
        OrderVerifiesIff(digest, history, order);
      }
      if FreshIds(history) && StartsUnlinked(history) && StrictlyIncreasing(history) {
        EnumerationIsHistory(history, order);
        IncreasingLogVerifies(digest, history);
      }
      var sorted := Sort(order);
      var previous: Option<Hash> := None;
      for i := 0 to |sorted|
        invariant ChainOk(digest, sorted, None) == ChainOk(digest, sorted[i..], previous)
      {
        var e := sorted[i];
        assert sorted[i..][1..] == sorted[i + 1..];
        if e.content.previous != previous {
          return false;
        }
        if !Verifies(digest, e) {
          return false;
        }
        previous := Some(e.hash);
      }
      return true;
    }
  }
}
