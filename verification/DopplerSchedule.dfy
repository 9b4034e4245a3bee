/** The Doppler correction schedule: knots computed from an orbital prediction and interpolated. */
module DopplerSchedule {
  import opened Timeline

  /** A frequency offset in Hz at a sample. */
  datatype Knot = Knot(id: nat, offset: int)

  datatype Prediction = Prediction(time: int, offset: int)

  // ---------------------------------------------------------------- building the schedule

  /** One prediction per millisecond, placed by integer division. */
  function Build(sampleRate: nat, predictions: seq<Prediction>, start: nat): (knots: seq<Knot>)
    ensures |knots| == |predictions|
    ensures forall i: nat | i < |knots| :: knots[i] == Knot(start + i * sampleRate / 1000, predictions[i].offset)
  {
    seq(|predictions|, i requires 0 <= i < |predictions| => Knot(start + i * sampleRate / 1000, predictions[i].offset))
  }

  ghost predicate Increasing(knots: seq<Knot>) {
    forall i, j | 0 <= i < j < |knots| :: knots[i].id < knots[j].id
  }

  ghost predicate Sorted(knots: seq<Knot>) {
    forall i, j | 0 <= i < j < |knots| :: knots[i].id <= knots[j].id
  }

  lemma {:induction false} MulGap(i: nat, j: nat, r: nat)
    requires i < j
    ensures i * r + r <= j * r
    decreases j
  {
    assert j * r == (j - 1) * r + r;
    if i < j - 1 {
      MulGap(i, j - 1, r);
    }
  }

  lemma DivGap(x: nat, y: nat)
    requires x <= y
    ensures x / 1000 <= y / 1000
    ensures x + 1000 <= y ==> x / 1000 < y / 1000
  {
  }

  /** The ids never decrease; they strictly increase exactly from 1 kHz on, or when there is at most one. */
  lemma BuiltIdsIncreaseIff(sampleRate: nat, predictions: seq<Prediction>, start: nat)
    ensures Sorted(Build(sampleRate, predictions, start))
    ensures Increasing(Build(sampleRate, predictions, start)) <==> sampleRate >= 1000 || |predictions| <= 1
  {
    var knots := Build(sampleRate, predictions, start);
    forall i, j | 0 <= i < j < |knots|
      ensures knots[i].id <= knots[j].id && (sampleRate >= 1000 ==> knots[i].id < knots[j].id)
    {
      MulGap(i, j, sampleRate);
      DivGap(i * sampleRate, j * sampleRate);
    }
    if sampleRate < 1000 && |predictions| >= 2 {
      assert knots[0].id == knots[1].id == start;
    }
  }

  // ---------------------------------------------------------------- truncation

  /** Conversion of a float to an integer drops the fraction. */
  function Trunc(x: real): (n: int) {
    if x >= 0.0 then x.Floor else -((-x).Floor)
  }

  lemma TruncIsMonotone(x: real, y: real)
    requires x <= y
    ensures Trunc(x) <= Trunc(y)
  {
  }

  lemma TruncOfInteger(n: int)
    ensures Trunc(n as real) == n
  {
  }

  // ---------------------------------------------------------------- interpolation

  /** How many knots lie before the sample: where a binary search would insert it. */
  function Rank(knots: seq<Knot>, id: nat): (k: nat)
    ensures k <= |knots|
    ensures forall i | 0 <= i < k :: knots[i].id < id
    ensures k < |knots| ==> knots[k].id >= id
  {
    if knots == [] || knots[0].id >= id then 0 else 1 + Rank(knots[1..], id)
  }

  /** The point on the line between two knots. */
  function Line(a: Knot, b: Knot, id: nat): (y: real)
    requires a.id < b.id && a.id <= id
  {
    var t := (id - a.id) as real / (b.id - a.id) as real;
    Blend(a.offset as real, b.offset as real, t)
  }

  function Interpolate(knots: seq<Knot>, id: nat): (offset: int) {
    var k := Rank(knots, id);
    if k < |knots| && knots[k].id == id then knots[k].offset
    else if k == 0 then if knots == [] then 0 else knots[0].offset
    else if k == |knots| then knots[k - 1].offset
    else Trunc(Line(knots[k - 1], knots[k], id))
  }

  lemma Fraction(n: int, d: int)
    requires 0 <= n <= d && d > 0
    ensures 0.0 <= n as real / d as real <= 1.0
  {
  }

  function Scale(t: real, d: real): (y: real) {
    t * d
  }

  lemma ScaleBounds(t: real, d: real)
    requires 0.0 <= t <= 1.0
    ensures d >= 0.0 ==> 0.0 <= Scale(t, d) <= d
    ensures d <= 0.0 ==> d <= Scale(t, d) <= 0.0
  {
  }

  function Blend(p: real, q: real, t: real): (y: real) {
    p + Scale(t, q - p)
  }

  lemma BlendBounds(p: real, q: real, t: real)
    requires 0.0 <= t <= 1.0
    ensures p <= q ==> p <= Blend(p, q, t) <= q
    ensures q <= p ==> q <= Blend(p, q, t) <= p
  {
    ScaleBounds(t, q - p);
  }

  /** Between two knots the truncated value stays between their offsets. */
  lemma LineStaysBetween(a: Knot, b: Knot, id: nat)
    requires a.id < b.id && a.id <= id <= b.id
    ensures Min(a.offset, b.offset) <= Trunc(Line(a, b, id)) <= Max(a.offset, b.offset)
  {
    var t, y := (id - a.id) as real / (b.id - a.id) as real, Line(a, b, id);
    Fraction(id - a.id, b.id - a.id);
    BlendBounds(a.offset as real, b.offset as real, t);
    TruncOfInteger(a.offset);
    TruncOfInteger(b.offset);
    if a.offset <= b.offset {
      TruncIsMonotone(a.offset as real, y);
      TruncIsMonotone(y, b.offset as real);
    } else {
      TruncIsMonotone(b.offset as real, y);
      TruncIsMonotone(y, a.offset as real);
    }
  }

  lemma RankIsUnique(knots: seq<Knot>, id: nat, k: nat)
    requires Increasing(knots) && k <= |knots|
    requires k > 0 ==> knots[k - 1].id < id
    requires k < |knots| ==> knots[k].id >= id
    ensures Rank(knots, id) == k
  {
  }

  lemma ExactAtKnots(knots: seq<Knot>, i: nat)
    requires Increasing(knots) && i < |knots|
    ensures Interpolate(knots, knots[i].id) == knots[i].offset
  {
  }

  lemma ClampedOutside(knots: seq<Knot>, id: nat)
    requires Increasing(knots) && knots != []
    ensures id <= knots[0].id ==> Interpolate(knots, id) == knots[0].offset
    ensures id >= knots[|knots| - 1].id ==> Interpolate(knots, id) == knots[|knots| - 1].offset
  {
  }

  /** Between two neighbouring knots the value stays between their offsets. */
  lemma StaysBetweenNeighbours(knots: seq<Knot>, i: nat, id: nat)
    requires Increasing(knots) && i + 1 < |knots| && knots[i].id <= id <= knots[i + 1].id
    ensures Min(knots[i].offset, knots[i + 1].offset) <= Interpolate(knots, id)
    ensures Interpolate(knots, id) <= Max(knots[i].offset, knots[i + 1].offset)
  {
    if id == knots[i].id {
      ExactAtKnots(knots, i);
    } else if id == knots[i + 1].id {
      ExactAtKnots(knots, i + 1);
    } else {
      RankIsUnique(knots, id, i + 1);
      LineStaysBetween(knots[i], knots[i + 1], id);
    }
  }

  /** From 1 kHz on the correction at each prediction's own sample is that prediction. */
  lemma PredictionsAreKept(sampleRate: nat, predictions: seq<Prediction>, start: nat, i: nat)
    requires sampleRate >= 1000 && i < |predictions|
    ensures Interpolate(Build(sampleRate, predictions, start), start + i * sampleRate / 1000) == predictions[i].offset
  {
    BuiltIdsIncreaseIff(sampleRate, predictions, start);
    ExactAtKnots(Build(sampleRate, predictions, start), i);
  }

  // ---------------------------------------------------------------- the exact value, in integers

  /** Width of the step times the value on the line between two knots. */
  function Weighted(a: Knot, b: Knot, id: nat): (n: int) {
    a.offset * (b.id - id) + b.offset * (id - a.id)
  }

  /** `v` is the value on the line between two knots with its fraction dropped. */
  ghost predicate IsTruncatedLine(a: Knot, b: Knot, id: nat, v: int) {
    var n, w := Weighted(a, b, id), b.id - a.id;
    Abs(v) * w <= Abs(n) < (Abs(v) + 1) * w && v * n >= 0
  }

  function Abs(x: int): (y: nat) {
    if x >= 0 then x else -x
  }

  lemma LineTimesWidth(a: Knot, b: Knot, id: nat)
    requires a.id < id < b.id
    ensures Line(a, b, id) * (b.id - a.id) as real == Weighted(a, b, id) as real
  {
    var x, w, p, q := (id - a.id) as real, (b.id - a.id) as real, a.offset as real, b.offset as real;
    var t := x / w;
    assert t * w == x;
    assert Line(a, b, id) == p + t * (q - p);
    assert (p + t * (q - p)) * w == p * w + (t * w) * (q - p);
    assert p * w + x * (q - p) == p * (w - x) + q * x;
    assert w - x == (b.id - id) as real;
    assert (a.offset * (b.id - id)) as real == p * (b.id - id) as real;
    assert (b.offset * (id - a.id)) as real == q * (id - a.id) as real;
  }

  lemma FloorTimes(y: real, w: int, n: int)
    requires w > 0 && y >= 0.0 && y * w as real == n as real
    ensures var v := y.Floor; 0 <= v && v * w <= n < (v + 1) * w
  {
    TimesIsMonotone(y, y.Floor, w, n);
    TimesIsMonotone(y, y.Floor + 1, w, n);
  }

  lemma TimesIsMonotone(y: real, u: int, w: int, n: int)
    requires w > 0 && y * w as real == n as real
    ensures u as real <= y ==> u * w <= n
    ensures y < u as real ==> n < u * w
  {
    MulAsReal(u, w);
    if u as real <= y {
      ScaleOrder(u as real, y, y + 1.0, w as real);
    } else {
      ScaleOrder(y, y, u as real, w as real);
    }
  }

  lemma MulAsReal(a: int, b: int)
    ensures (a * b) as real == a as real * b as real
  {
  }

  lemma SameSign(v: int, n: int)
    requires (v >= 0 && n >= 0) || (v <= 0 && n <= 0)
    ensures v * n >= 0
  {
  }

  lemma TruncTimes(y: real, w: int, n: int)
    requires w > 0 && y * w as real == n as real
    ensures var v := Trunc(y); Abs(v) * w <= Abs(n) < (Abs(v) + 1) * w && v * n >= 0
  {
    if y >= 0.0 {
      FloorTimes(y, w, n);
      SameSign(Trunc(y), n);
    } else {
      assert -y * w as real == (-n) as real;
      FloorTimes(-y, w, -n);
      SameSign(Trunc(y), n);
    }
  }

  lemma ScaleOrder(lo: real, y: real, hi: real, w: real)
    requires lo <= y < hi && w > 0.0
    ensures lo * w <= y * w < hi * w
  {
  }

  /** Between two knots the correction is the value on the line between them, its fraction dropped. */
  lemma InterpolatesTheLine(knots: seq<Knot>, i: nat, id: nat)
    requires Increasing(knots) && i + 1 < |knots| && knots[i].id < id < knots[i + 1].id
    ensures IsTruncatedLine(knots[i], knots[i + 1], id, Interpolate(knots, id))
  {
    RankIsUnique(knots, id, i + 1);
    LineIsTruncated(knots[i], knots[i + 1], id);
  }

  lemma LineIsTruncated(a: Knot, b: Knot, id: nat)
    requires a.id < id < b.id
    ensures IsTruncatedLine(a, b, id, Trunc(Line(a, b, id)))
  {
    LineTimesWidth(a, b, id);
    TruncTimes(Line(a, b, id), b.id - a.id, Weighted(a, b, id));
  }

  // ---------------------------------------------------------------- monotonicity

  ghost predicate Rising(knots: seq<Knot>) {
    forall i, j | 0 <= i < j < |knots| :: knots[i].offset <= knots[j].offset
  }

  lemma LineRises(a: Knot, b: Knot, x: nat, y: nat)
    requires a.id < b.id && a.id <= x <= y && a.offset <= b.offset
    ensures Line(a, b, x) <= Line(a, b, y)
  {
    var d, w := b.offset as real - a.offset as real, (b.id - a.id) as real;
    var s, t := (x - a.id) as real / w, (y - a.id) as real / w;
    assert s <= t;
    assert (t - s) * d >= 0.0;
    assert t * d - s * d == (t - s) * d;
  }

  /** With rising offsets the value at a sample lies between the neighbouring knots' offsets. */
  lemma BracketedByNeighbours(knots: seq<Knot>, id: nat)
    requires Increasing(knots) && Rising(knots) && knots != []
    ensures var k := Rank(knots, id);
            && (k < |knots| ==> Interpolate(knots, id) <= knots[k].offset)
            && (k > 0 ==> knots[k - 1].offset <= Interpolate(knots, id))
  {
    var k := Rank(knots, id);
    if 0 < k < |knots| && knots[k].id != id {
      LineStaysBetween(knots[k - 1], knots[k], id);
    }
  }

  lemma InterpolationRises(knots: seq<Knot>, x: nat, y: nat)
    requires Increasing(knots) && Rising(knots) && x <= y
    ensures Interpolate(knots, x) <= Interpolate(knots, y)
  {
    if knots == [] {
      return;
    }
    var j, k := Rank(knots, x), Rank(knots, y);
    BracketedByNeighbours(knots, x);
    BracketedByNeighbours(knots, y);
    if j < k {
      assert j == k - 1 || knots[j].offset <= knots[k - 1].offset;
    } else {
      assert j == k;
      if 0 < k < |knots| && knots[k].id != y {
        LineRises(knots[k - 1], knots[k], x, y);
        TruncIsMonotone(Line(knots[k - 1], knots[k], x), Line(knots[k - 1], knots[k], y));
      }
    }
  }

  function Negate(knots: seq<Knot>): (neg: seq<Knot>)
    ensures |neg| == |knots| && forall i | 0 <= i < |knots| :: neg[i] == Knot(knots[i].id, -knots[i].offset)
  {
    seq(|knots|, i requires 0 <= i < |knots| => Knot(knots[i].id, -knots[i].offset))
  }

  /** Truncation toward zero makes interpolation symmetric in the sign of the offsets. */
  lemma InterpolationIsOdd(knots: seq<Knot>, id: nat)
    requires Increasing(knots)
    ensures Interpolate(Negate(knots), id) == -Interpolate(knots, id)
  {
    var neg, k := Negate(knots), Rank(knots, id);
    RankIsUnique(neg, id, k);
    if 0 < k < |knots| && knots[k].id != id {
      var a, b := knots[k - 1], knots[k];
      LineIsOdd(a, b, id);
      TruncIsOdd(Line(a, b, id));
    }
  }

  lemma TruncIsOdd(x: real)
    ensures Trunc(-x) == -Trunc(x)
  {
  }

  lemma LineIsOdd(a: Knot, b: Knot, id: nat)
    requires a.id < b.id && a.id <= id
    ensures Line(Knot(a.id, -a.offset), Knot(b.id, -b.offset), id) == -Line(a, b, id)
  {
    var t, p, q := (id - a.id) as real / (b.id - a.id) as real, a.offset as real, b.offset as real;
    assert (-a.offset) as real == -p && (-b.offset) as real == -q;
    assert t * (-q - -p) == -(t * (q - p));
  }

  /** The correction follows the prediction: it rises, or falls, wherever the offsets do throughout. */
  lemma InterpolationIsMonotone(knots: seq<Knot>, x: nat, y: nat)
    requires Increasing(knots) && x <= y
    ensures Rising(knots) ==> Interpolate(knots, x) <= Interpolate(knots, y)
    ensures Rising(Negate(knots)) ==> Interpolate(knots, x) >= Interpolate(knots, y)
  {
    if Rising(knots) {
      InterpolationRises(knots, x, y);
    }
    if Rising(Negate(knots)) {
      InterpolationRises(Negate(knots), x, y);
      InterpolationIsOdd(knots, x);
      InterpolationIsOdd(knots, y);
    }
  }

  // ---------------------------------------------------------------- the search

  /** `Ok` with a position holding the id, or `Err` with the position it would be inserted at. */
  method BinarySearch(knots: seq<Knot>, id: nat) returns (r: Result<nat, nat>)
    requires Sorted(knots)
    ensures r.Ok? ==> r.value < |knots| && knots[r.value].id == id
    ensures r.Err? ==> r.error <= |knots| &&
                       (forall i | 0 <= i < r.error :: knots[i].id < id) &&
                       (forall i | r.error <= i < |knots| :: knots[i].id > id)
  {
    var lo, hi := 0, |knots|;
    while lo < hi
      invariant 0 <= lo <= hi <= |knots|
      invariant forall i | 0 <= i < lo :: knots[i].id < id
      invariant forall i | hi <= i < |knots| :: knots[i].id > id
    {
      var mid := lo + (hi - lo) / 2;
      if knots[mid].id == id {
        return Ok(mid);
      } else if knots[mid].id < id {
        lo := mid + 1;
      } else {
        hi := mid;
      }
    }
    return Err(lo);
  }

  lemma NoGapAt(knots: seq<Knot>, k: nat)
    requires Sorted(knots) && k < |knots|
    ensures forall i | 0 < i < |knots| :: !(knots[i - 1].id < knots[k].id < knots[i].id)
    ensures knots[0].id <= knots[k].id <= knots[|knots| - 1].id
  {
    forall i | 0 < i < |knots| ensures !(knots[i - 1].id < knots[k].id < knots[i].id) {
      assert i <= k ==> knots[i].id <= knots[k].id;
      assert k < i ==> knots[k].id <= knots[i - 1].id;
    }
  }

  /**
    Safe on every built schedule: the two knots it divides by are apart even when the schedule
    repeats ids. On strictly increasing ids it is `Interpolate`.
   */
  method InterpolateBySearch(knots: seq<Knot>, id: nat) returns (offset: int)
    requires Sorted(knots)
    ensures Increasing(knots) ==> offset == Interpolate(knots, id)
    ensures (exists i :: 0 <= i < |knots| && knots[i].id == id) ==>
              exists i :: 0 <= i < |knots| && knots[i].id == id && knots[i].offset == offset
    ensures forall i | 0 < i < |knots| && knots[i - 1].id < id < knots[i].id ::
              IsTruncatedLine(knots[i - 1], knots[i], id, offset)
    ensures knots != [] && id < knots[0].id ==> offset == knots[0].offset
    ensures knots != [] && id > knots[|knots| - 1].id ==> offset == knots[|knots| - 1].offset
    ensures knots == [] ==> offset == 0
  {
    var found := BinarySearch(knots, id);
    if found.Ok? {
      if Increasing(knots) {
        RankIsUnique(knots, id, found.value);
      }
      NoGapAt(knots, found.value);
      return knots[found.value].offset;
    }
    var idx := found.error;
    if Increasing(knots) {
      RankIsUnique(knots, id, idx);
    }
    if idx == 0 {
      return if knots == [] then 0 else knots[0].offset;
    }
    if idx >= |knots| {
      return knots[|knots| - 1].offset;
    }
    LineIsTruncated(knots[idx - 1], knots[idx], id);
    return Trunc(Line(knots[idx - 1], knots[idx], id));
  }
}
