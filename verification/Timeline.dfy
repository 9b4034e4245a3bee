/** Instants, durations and half-open windows shared by the mission and resource planners. */
module Timeline {

  /** Instants and durations are counted in nanoseconds, the resolution of the source's clock. */
  const SECOND: int := 1_000_000_000
  const MINUTE: int := 60 * SECOND

  /** The number of values of a 64-bit unsigned counter. */
  const U64: nat := 0x1_0000_0000_0000_0000

  datatype Option<+T> = None | Some(value: T)

  datatype Result<+T, +E> = Ok(value: T) | Err(error: E)

  datatype TimeWindow = TimeWindow(start: int, end: int) {

    predicate Contains(t: int) {
      start <= t <= end
    }

    predicate Overlaps(other: TimeWindow) {
      start < other.end && end > other.start
    }
  }

  /** Some instant lies in both windows, the end of a window not included. */
  ghost predicate ShareAnInstant(v: TimeWindow, w: TimeWindow) {
    exists t :: Lasts(v, t) && Lasts(w, t)
  }

  predicate Lasts(w: TimeWindow, t: int) {
    w.start <= t < w.end
  }

  /** The window holds no instant, yet both of its bounds lie strictly inside the other. */
  predicate EmptyInside(v: TimeWindow, w: TimeWindow) {
    v.end <= v.start < w.end && w.start < v.end
  }

  /** Windows overlap when they share an instant, or when one is empty and inside the other. */
  lemma OverlapsIff(v: TimeWindow, w: TimeWindow)
    ensures v.Overlaps(w) <==> ShareAnInstant(v, w) || EmptyInside(v, w) || EmptyInside(w, v)
    ensures v.start < v.end && w.start < w.end ==> (v.Overlaps(w) <==> ShareAnInstant(v, w))
  {
    var t := Max(v.start, w.start);
    if v.Overlaps(w) && !EmptyInside(v, w) && !EmptyInside(w, v) {
      assert Lasts(v, t) && Lasts(w, t);
    }
  }

  /** Whole seconds of a duration, truncated toward zero. */
  function NumSeconds(d: int): (s: int)
    ensures d >= 0 ==> s * SECOND <= d < (s + 1) * SECOND
    ensures d <= 0 ==> (s - 1) * SECOND < d <= s * SECOND
  {
    if d >= 0 then d / SECOND else -((-d) / SECOND)
  }

  function Max(a: int, b: int): (m: int) {
    if a < b then b else a
  }

  function Min(a: int, b: int): (m: int) {
    if a < b then a else b
  }

  /** The list filed under `key` in an index, empty if there is none. */
  function Entry<K, V>(index: map<K, seq<V>>, key: K): (v: seq<V>) {
    if key in index then index[key] else []
  }

  /** Files `v` under `key`, behind what is already there. */
  function Push<K, V>(index: map<K, seq<V>>, key: K, v: V): (index': map<K, seq<V>>) {
    index[key := Entry(index, key) + [v]]
  }

  ghost predicate Distinct<T>(s: seq<T>) {
    forall i, j :: 0 <= i < j < |s| ==> s[i] != s[j]
  }

  /** Removing one occurrence of a value from a sequence without repetitions leaves none. */
  lemma DistinctTail<T>(s: seq<T>)
    requires s != [] && Distinct(s)
    ensures Distinct(s[1..]) && s[0] !in s[1..]
  {
  }
}
