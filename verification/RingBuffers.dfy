/**
  The two sample buffers, both circular arrays: the pass shard's, which keeps one slot free and
  accepts as much as fits, and the radio's, which counts samples without bound and accepts all
  of a write or none. Both are proved to be one first-in first-out queue.
 */
module RingBuffers {
  import opened Timeline
  import Modular

  // ---------------------------------------------------------------- the queue they implement

  datatype Policy = Prefix | AllOrNothing

  /** What a queue holding `queued` of at most `limit` items takes of a write. */
  function Accept<T>(policy: Policy, limit: nat, queued: nat, xs: seq<T>): (taken: seq<T>)
    requires queued <= limit
    ensures taken <= xs && queued + |taken| <= limit
    ensures policy == Prefix ==> taken == xs || queued + |taken| == limit
    ensures policy == AllOrNothing ==> taken == (if queued + |xs| <= limit then xs else [])
  {
    match policy
    case Prefix => xs[..Min(|xs|, limit - queued)]
    case AllOrNothing => if |xs| <= limit - queued then xs else []
  }

  datatype Operation<T> = Write(xs: seq<T>) | Read(n: nat)

  /** A queue together with all it ever accepted and delivered. */
  datatype Fifo<T> = Fifo(queue: seq<T>, accepted: seq<T>, delivered: seq<T>)

  function Step<T>(policy: Policy, limit: nat, f: Fifo<T>, op: Operation<T>): (f': Fifo<T>)
    requires |f.queue| <= limit
    ensures |f'.queue| <= limit
  {
    match op
    case Write(xs) =>
      var taken := Accept(policy, limit, |f.queue|, xs);
      Fifo(f.queue + taken, f.accepted + taken, f.delivered)
    case Read(n) =>
      var k := Min(n, |f.queue|);
      Fifo(f.queue[k..], f.accepted, f.delivered + f.queue[..k])
  }

  /** A run of operations from any state of the queue. */
  function Run<T>(policy: Policy, limit: nat, start: Fifo<T>, ops: seq<Operation<T>>): (f: Fifo<T>)
    requires |start.queue| <= limit
    ensures |f.queue| <= limit
    decreases |ops|
  {
    if ops == [] then start
    else Step(policy, limit, Run(policy, limit, start, ops[..|ops| - 1]), ops[|ops| - 1])
  }

  ghost predicate Conserves<T>(f: Fifo<T>) {
    f.accepted == f.delivered + f.queue
  }

  lemma StepConserves<T>(policy: Policy, limit: nat, f: Fifo<T>, op: Operation<T>)
    requires |f.queue| <= limit && Conserves(f)
    ensures Conserves(Step(policy, limit, f, op))
  {
  }

  /** In every run what was accepted is what was delivered, in order, followed by what is queued. */
  lemma {:induction false} NothingLostOrReordered<T>(policy: Policy, limit: nat, start: Fifo<T>, ops: seq<Operation<T>>)
    requires |start.queue| <= limit && Conserves(start)
    ensures Conserves(Run(policy, limit, start, ops))
    decreases |ops|
  {
    if ops != [] {
      var n := |ops| - 1;
      NothingLostOrReordered(policy, limit, start, ops[..n]);
      StepConserves(policy, limit, Run(policy, limit, start, ops[..n]), ops[n]);
    }
  }

  lemma RunNext<T>(policy: Policy, limit: nat, start: Fifo<T>, ops: seq<Operation<T>>, i: nat)
    requires |start.queue| <= limit && i < |ops|
    ensures Run(policy, limit, start, ops[..i + 1]) == Step(policy, limit, Run(policy, limit, start, ops[..i]), ops[i])
  {
    assert ops[..i + 1][..i] == ops[..i];
  }

  // ---------------------------------------------------------------- circular windows

  function Slot(position: nat, capacity: nat): (i: nat)
    requires capacity > 0
    ensures i < capacity
  {
    position % capacity
  }

  /** The `n` items from position `start` on, wrapping around. */
  function Window<T>(b: seq<T>, start: nat, n: nat): (w: seq<T>)
    requires n > 0 ==> |b| > 0
    ensures |w| == n
    decreases n
  {
    if n == 0 then [] else Window(b, start, n - 1) + [b[Slot(start + n - 1, |b|)]]
  }

  lemma {:induction false} WindowAt<T>(b: seq<T>, start: nat, n: nat, i: nat)
    requires i < n && |b| > 0
    ensures Window(b, start, n)[i] == b[Slot(start + i, |b|)]
    decreases n
  {
    if i < n - 1 {
      WindowAt(b, start, n - 1, i);
    }
  }

  /** Storing outside a window leaves it alone. */
  lemma {:induction false} WindowFrame<T>(b: seq<T>, start: nat, n: nat, p: nat, x: T)
    requires n <= p - start < |b| && start <= p
    ensures Window(b[Slot(p, |b|) := x], start, n) == Window(b, start, n)
    decreases n
  {
    if n > 0 {
      WindowFrame(b, start, n - 1, p, x);
      Modular.ModDistinct(start, n - 1, p - start, |b|);
    }
  }

  /** Storing behind a window that is not full extends it. */
  lemma WindowGrows<T>(b: seq<T>, start: nat, n: nat, x: T)
    requires n < |b|
    ensures Window(b[Slot(start + n, |b|) := x], start, n + 1) == Window(b, start, n) + [x]
  {
    WindowFrame(b, start, n, start + n, x);
  }

  /** Dropping the front of a window moves its start. */
  lemma {:induction false} WindowDrops<T>(b: seq<T>, start: nat, k: nat, n: nat)
    requires |b| > 0
    ensures Window(b, start + k, n) == Window(b, start, k + n)[k..]
    decreases n
  {
    if n > 0 {
      WindowDrops(b, start, k, n - 1);
      var w, x := Window(b, start, k + (n - 1)), b[Slot(start + k + (n - 1), |b|)];
      assert Window(b, start, k + n) == w + [x];
      assert (w + [x])[k..] == w[k..] + [x];
    }
  }

  /** Taking a remainder of the start does not move the window. */
  lemma {:induction false} WindowWraps<T>(b: seq<T>, start: nat, n: nat)
    requires |b| > 0
    ensures Window(b, Slot(start, |b|), n) == Window(b, start, n)
    decreases n
  {
    if n > 0 {
      WindowWraps(b, start, n - 1);
      Modular.ModAdd(start, n - 1, |b|);
    }
  }

  lemma SameSlot(p: nat, q: nat, i: nat, capacity: nat)
    requires capacity > 0 && Slot(p, capacity) == Slot(q, capacity)
    ensures Slot(p + i, capacity) == Slot(q + i, capacity)
  {
    Modular.ModAdd(p, i, capacity);
    Modular.ModAdd(q, i, capacity);
  }

  /** The storing loop: `position` is congruent to the end of the window that starts at `start`. */
  method Store<T>(buffer: array<T>, samples: seq<T>, position: nat, count: nat, ghost start: nat, ghost n: nat)
    requires count <= |samples| && n + count <= buffer.Length
    requires buffer.Length > 0 ==> Slot(position, buffer.Length) == Slot(start + n, buffer.Length)
    modifies buffer
    ensures Window(buffer[..], start, n + count) == old(Window(buffer[..], start, n)) + samples[..count]
  {
    for i := 0 to count
      invariant Window(buffer[..], start, n + i) == old(Window(buffer[..], start, n)) + samples[..i]
    {
      SameSlot(position, start + n, i, buffer.Length);
      ghost var b := buffer[..];
      WindowGrows(b, start, n + i, samples[i]);
      var idx := Slot(position + i, buffer.Length);
      buffer[idx] := samples[i];
      assert buffer[..] == b[idx := samples[i]];
      assert samples[..i + 1] == samples[..i] + [samples[i]];
    }
  }

  /** The copying loop: the first `count` items of the window into `out`. */
  method CopyOut<T>(buffer: array<T>, start: nat, count: nat, out: array<T>)
    requires count <= out.Length && out != buffer && (count > 0 ==> buffer.Length > 0)
    modifies out
    ensures out[..count] == Window(buffer[..], start, count) && out[count..] == old(out[..])[count..]
  {
    ghost var b, before := buffer[..], out[..];
    for i := 0 to count
      invariant buffer[..] == b && out[..i] == Window(b, start, i) && out[i..] == before[i..]
    {
      out[i] := buffer[Slot(start + i, buffer.Length)];
    }
  }

  lemma {:induction false} WindowPrefix<T>(b: seq<T>, start: nat, k: nat, n: nat)
    requires k <= n && (n > 0 ==> |b| > 0)
    ensures Window(b, start, n)[..k] == Window(b, start, k)
    decreases n
  {
    if k < n {
      WindowPrefix(b, start, k, n - 1);
    }
  }

  // ---------------------------------------------------------------- the shard's buffer

  function UsedOf(head: nat, tail: nat, capacity: nat): (n: nat)
    requires head < capacity && tail < capacity
    ensures n < capacity
  {
    if head >= tail then head - tail else capacity - (tail - head)
  }

  function AvailableOf(head: nat, tail: nat, capacity: nat): (n: nat)
    requires head < capacity && tail < capacity
    ensures n + UsedOf(head, tail, capacity) == capacity - 1
  {
    if head >= tail then capacity - (head - tail) - 1 else tail - head - 1
  }

  /** The used count is the distance from tail to head around the buffer. */
  lemma UsedIsDistance(head: nat, tail: nat, capacity: nat, n: nat)
    requires head < capacity && tail < capacity && n < capacity
    ensures UsedOf(head, tail, capacity) == n <==> head == Slot(tail + n, capacity)
  {
    var used := UsedOf(head, tail, capacity);
    if head >= tail {
      Modular.ModUnique(tail + used, capacity, 0, head);
    } else {
      Modular.ModUnique(tail + used, capacity, 1, head);
    }
    if n < used {
      Modular.ModDistinct(tail, n, used, capacity);
    } else if used < n {
      Modular.ModDistinct(tail, used, n, capacity);
    }
  }

  lemma HeadAdvances(head: nat, tail: nat, capacity: nat, count: nat)
    requires head < capacity && tail < capacity && UsedOf(head, tail, capacity) + count < capacity
    ensures Slot(head, capacity) == Slot(tail + UsedOf(head, tail, capacity), capacity)
    ensures UsedOf(Slot(head + count, capacity), tail, capacity) == UsedOf(head, tail, capacity) + count
  {
    var used := UsedOf(head, tail, capacity);
    UsedIsDistance(head, tail, capacity, used);
    Modular.ModAdd(tail + used, 0, capacity);
    Modular.ModAdd(tail + used, count, capacity);
    UsedIsDistance(Slot(head + count, capacity), tail, capacity, used + count);
  }

  lemma TailAdvances(head: nat, tail: nat, capacity: nat, count: nat)
    requires head < capacity && tail < capacity && count <= UsedOf(head, tail, capacity)
    ensures UsedOf(head, Slot(tail + count, capacity), capacity) == UsedOf(head, tail, capacity) - count
  {
    var used := UsedOf(head, tail, capacity);
    UsedIsDistance(head, tail, capacity, used);
    Modular.ModAdd(tail + count, used - count, capacity);
    UsedIsDistance(head, Slot(tail + count, capacity), capacity, used - count);
  }

  lemma FrontRemoved<T>(b: seq<T>, head: nat, tail: nat, count: nat)
    requires head < |b| && tail < |b| && count <= UsedOf(head, tail, |b|)
    ensures var used, tail' := UsedOf(head, tail, |b|), Slot(tail + count, |b|);
            && Window(b, tail, used)[..count] == Window(b, tail, count)
            && Window(b, tail', UsedOf(head, tail', |b|)) == Window(b, tail, used)[count..]
  {
    var used := UsedOf(head, tail, |b|);
    WindowPrefix(b, tail, count, used);
    WindowDrops(b, tail, count, used - count);
    WindowWraps(b, tail + count, used - count);
    TailAdvances(head, tail, |b|, count);
  }

  class ShardRing<T> {
    const buffer: array<T>
    var head: nat
    var tail: nat

    ghost predicate Valid()
      reads this
    {
      head < buffer.Length && tail < buffer.Length
    }

    ghost function Contents(): seq<T>
      requires Valid()
      reads this, buffer
    {
      Window(buffer[..], tail, UsedOf(head, tail, buffer.Length))
    }

    /** A buffer of no slots would make every operation divide by zero. */
    constructor (buffer: array<T>)
      requires buffer.Length > 0
      ensures Valid() && Contents() == [] && this.buffer == buffer
    {
      this.buffer := buffer;
      head, tail := 0, 0;
    }

    method Write(samples: seq<T>) returns (count: nat)
      requires Valid()
      modifies this`head, buffer
      ensures Valid()
      ensures |old(Contents())| <= buffer.Length - 1
      ensures Contents() == old(Contents()) + Accept(Prefix, buffer.Length - 1, |old(Contents())|, samples)
      ensures count == |Accept(Prefix, buffer.Length - 1, |old(Contents())|, samples)|
    {
      var capacity := buffer.Length;
      ghost var used := UsedOf(head, tail, capacity);
      count := Min(|samples|, AvailableOf(head, tail, capacity));
      HeadAdvances(head, tail, capacity, count);
      Store(buffer, samples, head, count, tail, used);
      head := Slot(head + count, capacity);
    }

    method Read(out: array<T>) returns (count: nat)
      requires Valid() && out != buffer
      modifies this`tail, out
      ensures Valid()
      ensures count == Min(out.Length, |old(Contents())|)
      ensures out[..] == old(Contents())[..count] + old(out[..])[count..]
      ensures Contents() == old(Contents())[count..]
    {
      var capacity := buffer.Length;
      var used := UsedOf(head, tail, capacity);
      count := Min(out.Length, used);
      ghost var b := buffer[..];
      CopyOut(buffer, tail, count, out);
      assert out[..] == out[..count] + out[count..];
      FrontRemoved(b, head, tail, count);
      tail := Slot(tail + count, capacity);
    }
  }

  // ---------------------------------------------------------------- the radio's buffer

  class SampleRing<T> {
    const buffer: array<T>
    var head: nat
    var tail: nat

    ghost predicate Valid()
      reads this
    {
      tail <= head <= tail + buffer.Length
    }

    ghost function Contents(): seq<T>
      requires Valid()
      reads this, buffer
    {
      Window(buffer[..], tail, head - tail)
    }

    ghost function View(): Ring<T>
      reads this, buffer
    {
      Ring(buffer[..], head, tail)
    }

    constructor (capacity: nat, blank: T)
      ensures Valid() && Contents() == [] && buffer.Length == capacity && fresh(buffer)
    {
      buffer := new T[capacity](_ => blank);
      head, tail := 0, 0;
    }

    /** `None` is the overflow error. */
    method Write(samples: seq<T>) returns (r: Option<nat>)
      requires Valid()
      modifies this`head, buffer
      ensures Valid()
      ensures |old(Contents())| <= buffer.Length
      ensures Contents() == old(Contents()) + Accept(AllOrNothing, buffer.Length, |old(Contents())|, samples)
      ensures r == if |old(Contents())| + |samples| <= buffer.Length then Some(|samples|) else None
    {
      var capacity := buffer.Length;
      ghost var used := head - tail;
      var available := capacity - (head - tail);
      ghost var taken := Accept(AllOrNothing, capacity, used, samples);
      if |samples| > available {
        assert taken == [] && Contents() + taken == Contents();
        return None;
      }
      var count := |samples|;
      assert taken == samples && samples[..count] == samples;
      Store(buffer, samples, head, count, tail, used);
      head := head + count;
      return Some(count);
    }

    method Read(out: array<T>) returns (count: nat)
      requires Valid() && out != buffer
      modifies this`tail, out
      ensures Valid()
      ensures count == Min(out.Length, |old(Contents())|)
      ensures out[..] == old(Contents())[..count] + old(out[..])[count..]
      ensures Contents() == old(Contents())[count..]
      ensures View() == old(View()).Advance(old(View()).Load(out.Length))
    {
      ghost var ring := View();
      var used := head - tail;
      count := Min(out.Length, used);
      CopyOut(buffer, tail, count, out);
      assert out[..] == out[..count] + out[count..];
      FrontCopied(ring, Ticket(tail, count));
      tail := tail + count;
    }
  }

  // ---------------------------------------------------------------- whole runs of the two buffers

  lemma AppendAssociates<T>(a: seq<T>, b: seq<T>, c: seq<T>)
    ensures a + b + c == a + (b + c)
  {
  }

  /** What a buffer holds, seen as a queue that has accepted it and delivered nothing yet. */
  ghost function Holding<T>(contents: seq<T>): Fifo<T> {
    Fifo(contents, contents, [])
  }

  /** One operation: `taken` was accepted and `given` delivered. `f` is the queue so far. */
  method OperateShard<T>(ring: ShardRing<T>, op: Operation<T>, blank: T, ghost f: Fifo<T>)
    returns (taken: seq<T>, given: seq<T>)
    requires ring.Valid() && f.queue == ring.Contents() && |f.queue| <= ring.buffer.Length - 1
    modifies ring, ring.buffer
    ensures ring.Valid()
    ensures Step(Prefix, ring.buffer.Length - 1, f, op) ==
            Fifo(ring.Contents(), f.accepted + taken, f.delivered + given)
  {
    taken, given := [], [];
    match op
    case Write(xs) =>
      var count := ring.Write(xs);
      taken := xs[..count];
    case Read(n) =>
      var out := new T[n](_ => blank);
      var count := ring.Read(out);
      given := out[..count];
      assert given == f.queue[..count];
  }

  /** One operation: `taken` was accepted and `given` delivered. `f` is the queue so far. */
  method OperateSample<T>(ring: SampleRing<T>, op: Operation<T>, blank: T, ghost f: Fifo<T>)
    returns (taken: seq<T>, given: seq<T>)
    requires ring.Valid() && f.queue == ring.Contents() && |f.queue| <= ring.buffer.Length
    modifies ring, ring.buffer
    ensures ring.Valid()
    ensures Step(AllOrNothing, ring.buffer.Length, f, op) ==
            Fifo(ring.Contents(), f.accepted + taken, f.delivered + given)
  {
    taken, given := [], [];
    match op
    case Write(xs) =>
      var r := ring.Write(xs);
      taken := if r.Some? then xs else [];
    case Read(n) =>
      var out := new T[n](_ => blank);
      var count := ring.Read(out);
      given := out[..count];
      assert given == f.queue[..count];
  }

  /**
    Drives a shard buffer through any sequence of writes and reads. What it accepted (`sent`) and
    what it delivered (`got`) are those of the queue, and nothing is lost or reordered.
   */
  method DriveShard<T>(ring: ShardRing<T>, ops: seq<Operation<T>>, blank: T) returns (sent: seq<T>, got: seq<T>)
    requires ring.Valid()
    modifies ring, ring.buffer
    ensures ring.Valid() && |old(ring.Contents())| <= ring.buffer.Length - 1
    ensures Run(Prefix, ring.buffer.Length - 1, Holding(old(ring.Contents())), ops) ==
            Fifo(ring.Contents(), old(ring.Contents()) + sent, got)
    ensures old(ring.Contents()) + sent == got + ring.Contents() && |ring.Contents()| <= ring.buffer.Length - 1
  {
    ghost var limit, start := ring.buffer.Length - 1, Holding(ring.Contents());
    ghost var f := start;
    sent, got := [], [];
    for i := 0 to |ops|
      invariant ring.Valid() && |start.queue| <= limit && f == Run(Prefix, limit, start, ops[..i])
      invariant f.queue == ring.Contents() && f.accepted == start.queue + sent && f.delivered == got
    {
      var taken, given := OperateShard(ring, ops[i], blank, f);
      RunNext(Prefix, limit, start, ops, i);
      f := Step(Prefix, limit, f, ops[i]);
      AppendAssociates(start.queue, sent, taken);
      sent, got := sent + taken, got + given;
    }
    assert ops[..|ops|] == ops && Conserves(start);
    NothingLostOrReordered(Prefix, limit, start, ops);
  }

  /** The same for the radio's buffer, which refuses a write that does not fit. */
  method DriveSample<T>(ring: SampleRing<T>, ops: seq<Operation<T>>, blank: T) returns (sent: seq<T>, got: seq<T>)
    requires ring.Valid()
    modifies ring, ring.buffer
    ensures ring.Valid() && |old(ring.Contents())| <= ring.buffer.Length
    ensures Run(AllOrNothing, ring.buffer.Length, Holding(old(ring.Contents())), ops) ==
            Fifo(ring.Contents(), old(ring.Contents()) + sent, got)
    ensures old(ring.Contents()) + sent == got + ring.Contents() && |ring.Contents()| <= ring.buffer.Length
  {
    ghost var limit, start := ring.buffer.Length, Holding(ring.Contents());
    ghost var f := start;
    sent, got := [], [];
    for i := 0 to |ops|
      invariant ring.Valid() && |start.queue| <= limit && f == Run(AllOrNothing, limit, start, ops[..i])
      invariant f.queue == ring.Contents() && f.accepted == start.queue + sent && f.delivered == got
    {
      var taken, given := OperateSample(ring, ops[i], blank, f);
      RunNext(AllOrNothing, limit, start, ops, i);
      f := Step(AllOrNothing, limit, f, ops[i]);
      AppendAssociates(start.queue, sent, taken);
      sent, got := sent + taken, got + given;
    }
    assert ops[..|ops|] == ops && Conserves(start);
    NothingLostOrReordered(AllOrNothing, limit, start, ops);
  }

  // ---------------------------------------------------------------- concurrent readers of the radio's buffer

  /** What a read has fixed once it has loaded the counters. */
  datatype Ticket = Ticket(tail: nat, count: nat)

  /** The radio's buffer as a value. A read loads the counters, copies, and then advances the tail. */
  datatype Ring<T> = Ring(buffer: seq<T>, head: nat, tail: nat) {

    predicate Valid() {
      tail <= head <= tail + |buffer|
    }

    ghost function Contents(): seq<T>
      requires Valid()
    {
      Window(buffer, tail, head - tail)
    }

    /** The unsigned difference wraps once the tail has passed the head. */
    function Load(wanted: nat): (t: Ticket) {
      Ticket(tail, Min(wanted, if tail <= head then head - tail else (head - tail) % U64))
    }

    ghost function Copy(t: Ticket): seq<T> {
      if |buffer| == 0 then [] else Window(buffer, t.tail, t.count)
    }

    /** The tail is advanced from where it is now, not from where the read loaded it. */
    function Advance(t: Ticket): (r: Ring<T>) {
      this.(tail := tail + t.count)
    }
  }

  lemma FrontCopied<T>(r: Ring<T>, t: Ticket)
    requires r.Valid() && t.tail == r.tail && t.count <= r.head - r.tail
    ensures r.Advance(t).Valid() && r.Copy(t) == r.Contents()[..t.count]
    ensures r.Advance(t).Contents() == r.Contents()[t.count..]
  {
    WindowPrefix(r.buffer, r.tail, t.count, r.head - r.tail);
    if |r.buffer| > 0 {
      WindowDrops(r.buffer, r.tail, t.count, r.head - r.tail - t.count);
    }
  }

  /**
    The radio's `read` takes a shared reference, so two readers may load the same counters
    before either advances the tail. The tail then passes the head exactly when their counts
    exceed what is held. They deliver the queue in order exactly when the counts fit and the
    second reader's items repeat behind the first's; with distinct samples that is, when one
    of them asked for nothing or nothing was held.
   */
  lemma OverlappingReadsAreFifoIff<T>(r: Ring<T>, n1: nat, n2: nat)
    requires r.Valid()
    ensures var t1, t2 := r.Load(n1), r.Load(n2);
            var r', q := r.Advance(t1).Advance(t2), r.Contents();
            && (r'.Valid() <==> t1.count + t2.count <= |q|)
            && (r'.Valid() && q == r.Copy(t1) + r.Copy(t2) + r'.Contents() <==>
                t1.count + t2.count <= |q| && q[..t2.count] == q[t1.count..t1.count + t2.count])
            && (Distinct(q) ==>
                  (r'.Valid() && q == r.Copy(t1) + r.Copy(t2) + r'.Contents() <==> n1 == 0 || n2 == 0 || q == []))
  {
    var t1, t2, q := r.Load(n1), r.Load(n2), r.Contents();
    FrontCopied(r, t1);
    FrontCopied(r, t2);
    if t1.count + t2.count <= |q| {
      var both := Ticket(r.tail, t1.count + t2.count);
      assert r.Advance(t1).Advance(t2) == r.Advance(both);
      FrontCopied(r, both);
      ThreeParts(q, t1.count, t2.count);
      if t1.count > 0 && t2.count > 0 && Distinct(q) {
        assert q[..t2.count][0] == q[0] && q[t1.count..t1.count + t2.count][0] == q[t1.count];
      }
    }
  }

  lemma ThreeParts<T>(q: seq<T>, a: nat, b: nat)
    requires a + b <= |q|
    ensures q == q[..a] + q[..b] + q[a + b..] <==> q[..b] == q[a..a + b]
  {
    var parts := q[..a] + q[..b] + q[a + b..];
    assert q == q[..a] + q[a..a + b] + q[a + b..];
    assert parts[a..a + b] == q[..b];
  }

  /** Any number of readers: what each has loaded, and what was delivered, in the order the reads finished. */
  datatype Reading<T> = Reading(ring: Ring<T>, pending: multiset<Ticket>, delivered: seq<T>)

  datatype ReadEvent = Begin(wanted: nat) | Finish(ticket: Ticket)

  ghost function ReadStep<T>(s: Reading<T>, e: ReadEvent): Reading<T> {
    match e
    case Begin(wanted) => s.(pending := s.pending + multiset{s.ring.Load(wanted)})
    case Finish(t) =>
      if t !in s.pending then s
      else Reading(s.ring.Advance(t), s.pending - multiset{t}, s.delivered + s.ring.Copy(t))
  }

  ghost function ReadAll<T>(s: Reading<T>, events: seq<ReadEvent>): Reading<T>
    decreases |events|
  {
    if events == [] then s else ReadAll(ReadStep(s, events[0]), events[1..])
  }

  /** A read that will deliver something begins while another such read is unfinished. */
  ghost predicate Overlaps<T>(s: Reading<T>, e: ReadEvent) {
    e.Begin? && s.ring.Load(e.wanted).count > 0 && exists t :: t in s.pending && t.count > 0
  }

  ghost predicate NeverOverlaps<T>(s: Reading<T>, events: seq<ReadEvent>)
    decreases |events|
  {
    events == [] || (!Overlaps(s, events[0]) && NeverOverlaps(ReadStep(s, events[0]), events[1..]))
  }

  /** `all` was delivered once and in order, as far as the reads have come. */
  ghost predicate InSequence<T>(s: Reading<T>, all: seq<T>) {
    s.ring.Valid() && all == s.delivered + s.ring.Contents()
  }

  ghost predicate Orderly<T>(s: Reading<T>, all: seq<T>) {
    && InSequence(s, all)
    && (forall t | t in s.pending && t.count > 0 :: t.tail == s.ring.tail && t.count <= s.ring.head - s.ring.tail)
    && forall t, u | t in s.pending && t.count > 0 && u in s.pending - multiset{t} :: u.count == 0
  }

  lemma BeginStaysOrderly<T>(s: Reading<T>, wanted: nat, all: seq<T>)
    requires Orderly(s, all) && !Overlaps(s, Begin(wanted))
    ensures Orderly(ReadStep(s, Begin(wanted)), all)
  {
    var t, s' := s.ring.Load(wanted), ReadStep(s, Begin(wanted));
    forall a, b | a in s'.pending && a.count > 0 && b in s'.pending - multiset{a} ensures b.count == 0 {
      assert t.count > 0 ==> a == t && s'.pending - multiset{a} == s.pending;
      assert t.count == 0 ==> b == t || b in s.pending - multiset{a};
    }
  }

  lemma FinishStaysOrderly<T>(s: Reading<T>, t: Ticket, all: seq<T>)
    requires Orderly(s, all) && t in s.pending
    ensures Orderly(ReadStep(s, Finish(t)), all)
  {
    var s' := ReadStep(s, Finish(t));
    assert s'.pending == s.pending - multiset{t};
    if t.count > 0 {
      FrontCopied(s.ring, t);
      assert InSequence(s', all);
    } else {
      assert s'.ring == s.ring && s'.delivered == s.delivered;
    }
  }

  lemma StepStaysOrderly<T>(s: Reading<T>, e: ReadEvent, all: seq<T>)
    requires Orderly(s, all) && !Overlaps(s, e)
    ensures Orderly(ReadStep(s, e), all)
  {
    match e
    case Begin(wanted) => BeginStaysOrderly(s, wanted, all);
    case Finish(t) => if t in s.pending { FinishStaysOrderly(s, t, all); }
  }

  lemma {:induction false} ApartStaysOrderly<T>(s: Reading<T>, events: seq<ReadEvent>, all: seq<T>)
    requires Orderly(s, all) && NeverOverlaps(s, events)
    ensures Orderly(ReadAll(s, events), all)
    decreases |events|
  {
    if events != [] {
      StepStaysOrderly(s, events[0], all);
      ApartStaysOrderly(ReadStep(s, events[0]), events[1..], all);
    }
  }

  /** Two reads from one tail: the item there has been delivered once for each that has finished. */
  ghost predicate Doubled<T>(s: Reading<T>, a: Ticket, b: Ticket) {
    && |s.ring.buffer| > 0 && a.count > 0 && b.count > 0 && a.tail == b.tail
    && var times := multiset(s.delivered)[s.ring.buffer[Slot(a.tail, |s.ring.buffer|)]];
       multiset{a, b} <= s.pending || ((a in s.pending || b in s.pending) && times >= 1) || times >= 2
  }

  /** A finished read adds to the deliveries of every item, and of the one at its tail at least once. */
  lemma FinishDelivers<T>(s: Reading<T>, t: Ticket, x: T)
    requires t in s.pending && |s.ring.buffer| > 0
    ensures multiset(ReadStep(s, Finish(t)).delivered)[x] >= multiset(s.delivered)[x]
    ensures t.count > 0 && x == s.ring.buffer[Slot(t.tail, |s.ring.buffer|)] ==>
              multiset(ReadStep(s, Finish(t)).delivered)[x] >= multiset(s.delivered)[x] + 1
  {
    var copied := s.ring.Copy(t);
    assert multiset(s.delivered + copied) == multiset(s.delivered) + multiset(copied);
    if t.count > 0 {
      WindowAt(s.ring.buffer, t.tail, t.count, 0);
      assert copied[0] in copied;
    }
  }

  lemma StepStaysDoubled<T>(s: Reading<T>, e: ReadEvent, a: Ticket, b: Ticket)
    requires Doubled(s, a, b)
    ensures Doubled(ReadStep(s, e), a, b)
  {
    if e.Finish? && e.ticket in s.pending {
      FinishDelivers(s, e.ticket, s.ring.buffer[Slot(a.tail, |s.ring.buffer|)]);
      assert ReadStep(s, e).pending == s.pending - multiset{e.ticket};
    }
  }

  lemma {:induction false} StaysDoubled<T>(s: Reading<T>, events: seq<ReadEvent>, a: Ticket, b: Ticket)
    requires Doubled(s, a, b)
    ensures Doubled(ReadAll(s, events), a, b)
    decreases |events|
  {
    if events != [] {
      StepStaysDoubled(s, events[0], a, b);
      StaysDoubled(ReadStep(s, events[0]), events[1..], a, b);
    }
  }

  lemma OverlapDoubles<T>(s: Reading<T>, e: ReadEvent, all: seq<T>) returns (a: Ticket, b: Ticket)
    requires Orderly(s, all) && Overlaps(s, e)
    ensures Doubled(ReadStep(s, e), a, b)
  {
    a :| a in s.pending && a.count > 0;
    b := s.ring.Load(e.wanted);
  }

  lemma {:induction false} OverlapEndsDoubled<T>(s: Reading<T>, events: seq<ReadEvent>, all: seq<T>)
    returns (a: Ticket, b: Ticket)
    requires Orderly(s, all) && !NeverOverlaps(s, events)
    ensures Doubled(ReadAll(s, events), a, b)
    decreases |events|
  {
    if Overlaps(s, events[0]) {
      a, b := OverlapDoubles(s, events[0], all);
      StaysDoubled(ReadStep(s, events[0]), events[1..], a, b);
    } else {
      StepStaysOrderly(s, events[0], all);
      a, b := OverlapEndsDoubled(ReadStep(s, events[0]), events[1..], all);
    }
  }

  lemma {:induction false} DistinctOnce<T>(q: seq<T>, x: T)
    requires Distinct(q)
    ensures multiset(q)[x] <= 1
    decreases |q|
  {
    if q != [] {
      DistinctTail(q);
      DistinctOnce(q[1..], x);
      assert q == [q[0]] + q[1..];
    }
  }

  lemma DeliveredOnce<T>(s: Reading<T>, all: seq<T>, x: T)
    requires InSequence(s, all) && Distinct(all)
    ensures multiset(s.delivered)[x] <= 1
  {
    DistinctOnce(all, x);
    assert multiset(all) == multiset(s.delivered) + multiset(s.ring.Contents());
  }

  /**
    Any run of concurrent reads in which every read finishes delivers the distinct samples held
    once and in order, and leaves the rest, exactly when no two reads that deliver something
    overlap.
   */
  lemma ConcurrentReadsAreFifoIff<T>(r: Ring<T>, events: seq<ReadEvent>)
    requires r.Valid() && Distinct(r.Contents())
    requires ReadAll(Reading(r, multiset{}, []), events).pending == multiset{}
    ensures InSequence(ReadAll(Reading(r, multiset{}, []), events), r.Contents()) <==>
            NeverOverlaps(Reading(r, multiset{}, []), events)
  {
    var s, all := Reading(r, multiset{}, []), r.Contents();
    assert s.delivered + all == all;
    var end := ReadAll(s, events);
    if NeverOverlaps(s, events) {
      ApartStaysOrderly(s, events, all);
    } else {
      var a, b := OverlapEndsDoubled(s, events, all);
      if InSequence(end, all) {
        DeliveredOnce(end, all, end.ring.buffer[Slot(a.tail, |end.ring.buffer|)]);
      }
    }
  }
}
