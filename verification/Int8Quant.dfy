/** The per-token int8 reference quantiser, in exact arithmetic: when dequantising misses the input by
    at most half a step. The zero point is a 32-bit integer. */
module Int8Quant {

  const TWO31: int := 0x8000_0000

  function Abs(x: real): real { if x < 0.0 then -x else x }
  function Min(x: real, y: real): real { if x < y then x else y }
  function Max(x: real, y: real): real { if x > y then x else y }

  /** Round to the nearest integer, ties to the even one. */
  function Round(x: real): (r: int)
    ensures Abs(r as real - x) <= 0.5
  {
    var low := x.Floor;
    var part := x - low as real;
    if part < 0.5 then low
    else if part > 0.5 then low + 1
    else if low % 2 == 0 then low else low + 1
  }

  function Clamp(r: int, low: int, high: int): int {
    if r < low then low else if r > high then high else r
  }

  function Pow2(n: nat): (p: int)
    ensures p >= 1
  {
    if n == 0 then 1 else 2 * Pow2(n - 1)
  }

  function RowMin(row: seq<real>): (m: real)
    requires row != []
    ensures m in row && forall x :: x in row ==> m <= x
  {
    assert row == [row[0]] + row[1..];
    if |row| == 1 then row[0] else Min(row[0], RowMin(row[1..]))
  }

  function RowMax(row: seq<real>): (m: real)
    requires row != []
    ensures m in row && forall x :: x in row ==> x <= m
  {
    assert row == [row[0]] + row[1..];
    if |row| == 1 then row[0] else Max(row[0], RowMax(row[1..]))
  }

  function QMin(symmetric: bool, bits: nat): int
    requires bits >= 1
  {
    if symmetric then -Pow2(bits - 1) else 0
  }

  function QMax(symmetric: bool, bits: nat): int
    requires bits >= 1
  {
    if symmetric then Pow2(bits - 1) - 1 else Pow2(bits) - 1
  }

  /** The value a stored level stands for. */
  function Dequantize(level: int, zeroPoint: int, scale: real): real {
    (level - zeroPoint) as real * scale
  }

  datatype Quantized = Quantized(values: seq<int>, scale: real, zeroPoint: int)

  function Scale(low: real, high: real, symmetric: bool, bits: nat): (s: real)
    requires bits >= 1 && QMax(symmetric, bits) > 0
    ensures s >= 0.00001
  {
    var span := if symmetric then Max(Abs(low), Abs(high)) else high - low;
    Max(span / QMax(symmetric, bits) as real, 0.00001)
  }

  /** The level of the smallest entry before the cast to 32 bits. */
  function LowLevel(low: real, high: real, bits: nat): int
    requires bits >= 1 && QMax(false, bits) > 0
  {
    Round(low / Scale(low, high, false, bits))
  }

  /** Casting to a 32-bit integer: exact in range, any 32-bit value outside it. */
  predicate CastsTo(r: int, c: int) {
    -TWO31 <= c < TWO31 && (-TWO31 <= r < TWO31 ==> c == r)
  }

  /** Minus one times a 32-bit integer, wrapping around. */
  function Negate32(c: int): int {
    if c == -TWO31 then c else -c
  }

  /** What the cast may have given for this row. A symmetric row has no cast. */
  ghost predicate Outcome(row: seq<real>, symmetric: bool, bits: nat, cast: int)
    requires row != [] && 1 <= bits <= 8 && (symmetric ==> bits >= 2)
  {
    PositiveMax(symmetric, bits);
    symmetric || CastsTo(LowLevel(RowMin(row), RowMax(row), bits), cast)
  }

  /** One row of the quantiser, given what the cast gave. One symmetric bit would leave no positive
      level to divide by. */
  function Quantize(row: seq<real>, symmetric: bool, bits: nat, cast: int): (q: Quantized)
    requires row != [] && 1 <= bits <= 8 && (symmetric ==> bits >= 2)
  {
    PositiveMax(symmetric, bits);
    var scale := Scale(RowMin(row), RowMax(row), symmetric, bits);
    var zero := if symmetric then 0 else Negate32(cast);
    Quantized(
      seq(|row|, i requires 0 <= i < |row| =>
        Clamp(Round(row[i] / scale + zero as real), QMin(symmetric, bits), QMax(symmetric, bits))),
      scale, zero)
  }

  /** Rounding half-way values goes to the even neighbour. */
  lemma {:induction false} TiesToEven(k: int)
    ensures Round(k as real + 0.5) % 2 == 0
  {
    assert (k as real + 0.5).Floor == k;
  }

  /** The scale is as fine as the range allows: above its floor the largest entry in size reaches the
      highest level exactly, or the whole span takes all steps; at its floor everything still fits. */
  lemma {:induction false} ScaleIsTight(low: real, high: real, symmetric: bool, bits: nat)
    requires bits >= 1 && QMax(symmetric, bits) > 0 && low <= high
    ensures var reach := QMax(symmetric, bits) as real * Scale(low, high, symmetric, bits);
            && (symmetric ==> -reach <= low && high <= reach)
            && (!symmetric ==> high - low <= reach)
            && (Scale(low, high, symmetric, bits) > 0.00001 ==>
                  if symmetric then -low == reach || high == reach else high - low == reach)
  {
    TightSpan(if symmetric then Max(Abs(low), Abs(high)) else high - low, QMax(symmetric, bits) as real);
  }

  lemma {:induction false} TightSpan(span: real, top: real)
    requires top > 0.0
    ensures var s := Max(span / top, 0.00001); span <= top * s && (s > 0.00001 ==> span == top * s)
  {
    assert top * (span / top) == span;
  }

  /** The levels of each width: all of them are used, half of them for negative values in symmetric mode. */
  lemma {:induction false} LevelTable(bits: nat)
    requires 1 <= bits <= 8
    ensures QMin(false, bits) == 0 && QMax(false, bits) == [1, 3, 7, 15, 31, 63, 127, 255][bits-1]
    ensures QMax(true, bits) == [0, 1, 3, 7, 15, 31, 63, 127][bits-1] && QMin(true, bits) == -QMax(true, bits) - 1
  {
    PowTable(bits);
    PowTable(bits - 1);
  }

  lemma {:induction false} PositiveMax(symmetric: bool, bits: nat)
    requires bits >= 1 && (symmetric ==> bits >= 2)
    ensures QMax(symmetric, bits) > 0
    ensures QMin(symmetric, bits) >= -QMax(symmetric, bits) - 1
  {
  }

  /** Clamping costs nothing extra when the value is within half a level of the range. */
  lemma {:induction false} ClampKeepsRounding(v: real, low: int, high: int)
    requires low <= high && low as real - 0.5 <= v <= high as real + 0.5
    ensures Abs(Clamp(Round(v), low, high) as real - v) <= 0.5
  {
  }

  lemma {:induction false} ScaleBack(x: real, s: real, level: real)
    requires s > 0.0 && Abs(level - x / s) <= 0.5
    ensures Abs(level * s - x) <= s / 2.0
  {
    var e := level - x / s;
    assert x / s * s == x;
    assert e * s == level * s - x;
    HalfTimes(e, s);
  }

  lemma {:induction false} HalfTimes(e: real, s: real)
    requires s > 0.0 && -0.5 <= e <= 0.5
    ensures -s / 2.0 <= e * s <= s / 2.0
  {
    assert (0.5 - e) * s >= 0.0;
    assert (e + 0.5) * s >= 0.0;
  }

  lemma {:induction false} Factor(a: real, s: real)
    requires s > 0.0 && a * s >= 0.0
    ensures a >= 0.0
  {
  }

  lemma {:induction false} QuotientAtMost(x: real, s: real, n: real)
    requires s > 0.0 && x <= n * s
    ensures x / s <= n
  {
    assert x / s * s == x;
    assert (n - x / s) * s == n * s - x / s * s;
    Factor(n - x / s, s);
  }

  lemma {:induction false} QuotientDifference(x: real, y: real, s: real)
    requires s > 0.0
    ensures (x - y) / s == x / s - y / s
  {
  }

  lemma {:induction false} SpanWithin(span: real, levels: real, s: real)
    requires levels > 0.0 && s >= span / levels
    ensures span <= levels * s
  {
    assert span / levels * levels == span;
    assert (s - span / levels) * levels >= 0.0;
  }

  lemma {:induction false} SymmetricRange(x: real, span: real, top: real, s: real)
    requires s > 0.0 && span <= top * s && -span <= x <= span
    ensures -top <= x / s <= top
  {
    QuotientAtMost(x, s, top);
    QuotientAtMost(-x, s, top);
    QuotientDifference(0.0, x, s);
  }

  lemma {:induction false} AsymmetricRange(x: real, low: real, high: real, top: real, s: real)
    requires s > 0.0 && high - low <= top * s && low <= x <= high
    ensures -0.5 <= x / s - Round(low / s) as real <= top + 0.5
  {
    QuotientAtMost(x - low, s, top);
    QuotientAtMost(low - x, s, 0.0);
    QuotientDifference(x, low, s);
    QuotientDifference(low, x, s);
  }

  /** With the right zero point every scaled value lies within half a level of the representable
      range. */
  lemma {:induction false} WithinRange(low: real, high: real, symmetric: bool, bits: nat, x: real)
    requires low <= x <= high && bits >= 1 && (symmetric ==> bits >= 2) && QMax(symmetric, bits) > 0
    ensures var s, zero := Scale(low, high, symmetric, bits), if symmetric then 0 else -LowLevel(low, high, bits);
            QMin(symmetric, bits) as real - 0.5 <= x / s + zero as real <= QMax(symmetric, bits) as real + 0.5
  {
    var s, top := Scale(low, high, symmetric, bits), QMax(symmetric, bits) as real;
    if symmetric {
      SpanWithin(Max(Abs(low), Abs(high)), top, s);
      SymmetricRange(x, Max(Abs(low), Abs(high)), top, s);
    } else {
      SpanWithin(high - low, top, s);
      AsymmetricRange(x, low, high, top, s);
    }
  }

  lemma {:induction false} LevelError(x: real, s: real, zero: int, low: int, high: int)
    requires s > 0.0 && low <= high && low as real - 0.5 <= x / s + zero as real <= high as real + 0.5
    ensures Abs(Dequantize(Clamp(Round(x / s + zero as real), low, high), zero, s) - x) <= s / 2.0
    ensures low <= Clamp(Round(x / s + zero as real), low, high) <= high
  {
    var level := Clamp(Round(x / s + zero as real), low, high);
    ClampKeepsRounding(x / s + zero as real, low, high);
    ScaleBack(x, s, (level - zero) as real);
  }

  /** Entry i comes back within half a step. */
  ghost predicate HalfStep(row: seq<real>, q: Quantized, i: int) {
    0 <= i < |row| == |q.values| && Abs(Dequantize(q.values[i], q.zeroPoint, q.scale) - row[i]) <= q.scale / 2.0
  }

  /** Every entry comes back within half a step, whatever the cast gives. */
  ghost predicate AlwaysHalfStep(row: seq<real>, symmetric: bool, bits: nat)
    requires row != [] && 1 <= bits <= 8 && (symmetric ==> bits >= 2)
  {
    forall cast, i :: Outcome(row, symmetric, bits, cast) && 0 <= i < |row| ==>
      HalfStep(row, Quantize(row, symmetric, bits, cast), i)
  }

  /** The level of the smallest entry fits 32 bits together with its negative. */
  predicate ZeroPointFits(low: real, high: real, bits: nat)
    requires bits >= 1 && QMax(false, bits) > 0
  {
    -TWO31 < LowLevel(low, high, bits) < TWO31
  }

  /** The stored levels fit the target byte and the scale keeps its floor, whatever the cast gives. */
  lemma {:induction false} LevelsFit(row: seq<real>, symmetric: bool, bits: nat, cast: int, i: nat)
    requires row != [] && 1 <= bits <= 8 && (symmetric ==> bits >= 2) && i < |row|
    ensures var q := Quantize(row, symmetric, bits, cast);
            && |q.values| == |row| && q.scale >= 0.00001
            && (if symmetric then -128 <= q.values[i] <= 127 else 0 <= q.values[i] <= 255)
  {
    hide Round, Scale, QMin, QMax;
    LevelRange(symmetric, bits);
    var q := Quantize(row, symmetric, bits, cast);
    assert q.values[i] ==
           Clamp(Round(row[i] / q.scale + q.zeroPoint as real), QMin(symmetric, bits), QMax(symmetric, bits));
  }

  /** With the true zero point, dequantising is off by at most half a step. */
  lemma {:induction false} QuantizationError(row: seq<real>, symmetric: bool, bits: nat, cast: int, i: nat)
    requires row != [] && 1 <= bits <= 8 && (symmetric ==> bits >= 2) && i < |row|
    requires Outcome(row, symmetric, bits, cast) && QMax(false, bits) > 0
    requires symmetric || ZeroPointFits(RowMin(row), RowMax(row), bits)
    ensures HalfStep(row, Quantize(row, symmetric, bits, cast), i)
  {
    hide Round, Clamp, Scale, QMin, QMax, Abs, Dequantize;
    LevelRange(symmetric, bits);
    var q := Quantize(row, symmetric, bits, cast);
    assert row[i] in row;
    WithinRange(RowMin(row), RowMax(row), symmetric, bits, row[i]);
    LevelError(row[i], q.scale, q.zeroPoint, QMin(symmetric, bits), QMax(symmetric, bits));
    assert q.values[i] ==
           Clamp(Round(row[i] / q.scale + q.zeroPoint as real), QMin(symmetric, bits), QMax(symmetric, bits));
  }

  /** More than half a level off is more than half a step off. */
  lemma {:induction false} FarOff(x: real, s: real, level: real)
    requires s > 0.0 && Abs(level - x / s) > 0.5
    ensures Abs(level * s - x) > s / 2.0
  {
    var e := level - x / s;
    assert x / s * s == x;
    assert e * s == level * s - x;
    if e > 0.5 {
      assert (e - 0.5) * s > 0.0;
    } else {
      assert (-0.5 - e) * s > 0.0;
    }
  }

  /** A cast that loses the zero point: what it gave for a row whose level does not fit. */
  function LostCast(r: int): int {
    if r == -TWO31 then r else 0
  }

  lemma {:induction false} LostLevel(r: int, v: real, level: int)
    requires Abs(r as real - v) <= 0.5 && 0 <= level <= 255 && !(-TWO31 < r < TWO31)
    ensures Abs((level - Negate32(LostCast(r))) as real - v) > 0.5
    ensures CastsTo(r, LostCast(r))
  {
  }

  lemma {:induction false} LostEntry(x: real, s: real, r: int, level: int)
    requires s > 0.0 && Abs(r as real - x / s) <= 0.5 && 0 <= level <= 255 && !(-TWO31 < r < TWO31)
    ensures Abs(Dequantize(level, Negate32(LostCast(r)), s) - x) > s / 2.0
  {
    LostLevel(r, x / s, level);
    hide Abs, Negate32, LostCast;
    FarOff(x, s, (level - Negate32(LostCast(r))) as real);
  }

  /** A level that does not fit 32 bits: some outcome of the cast brings the smallest entry back wrong. */
  lemma {:induction false} LostZeroPoint(row: seq<real>, bits: nat, i: nat)
    requires row != [] && 1 <= bits <= 8 && QMax(false, bits) > 0 && i < |row| && row[i] == RowMin(row)
    requires !ZeroPointFits(RowMin(row), RowMax(row), bits)
    ensures var cast := LostCast(LowLevel(RowMin(row), RowMax(row), bits));
            Outcome(row, false, bits, cast) && !HalfStep(row, Quantize(row, false, bits, cast), i)
  {
    hide Round, Scale, QMax, QMin, Clamp, Abs, Negate32, LostCast, Dequantize, CastsTo;
    var r := LowLevel(RowMin(row), RowMax(row), bits);
    var cast := LostCast(r);
    var q := Quantize(row, false, bits, cast);
    LevelsFit(row, false, bits, cast, i);
    LostLevel(r, row[i] / q.scale, q.values[i]);
    LostEntry(row[i], q.scale, r, q.values[i]);
  }

  /** The error bound holds for every entry and every outcome of the cast if and only if the row is
      quantised symmetrically or the level of its minimum fits 32 bits. */
  lemma {:induction false} BoundHoldsExactly(row: seq<real>, symmetric: bool, bits: nat)
    requires row != [] && 1 <= bits <= 8 && (symmetric ==> bits >= 2)
    ensures QMax(false, bits) > 0
    ensures AlwaysHalfStep(row, symmetric, bits) <==> symmetric || ZeroPointFits(RowMin(row), RowMax(row), bits)
  {
    PositiveMax(false, bits);
    hide Round, Scale, QMax, QMin, Clamp, Outcome, Quantize, HalfStep, ZeroPointFits;
    if symmetric || ZeroPointFits(RowMin(row), RowMax(row), bits) {
      forall cast, i | Outcome(row, symmetric, bits, cast) && 0 <= i < |row|
        ensures HalfStep(row, Quantize(row, symmetric, bits, cast), i)
      {
        QuantizationError(row, symmetric, bits, cast, i);
      }
    } else {
      var i :| 0 <= i < |row| && row[i] == RowMin(row);
      LostZeroPoint(row, bits, i);
    }
  }

  lemma {:induction false} QuotientBound(x: real, s: real, top: real)
    requires s >= 0.00001 && -top <= x * 100000.0 <= top
    ensures -top <= x / s <= top
  {
    assert top >= 0.0;
    assert top * s >= top * 0.00001 by { assert (s - 0.00001) * top >= 0.0; }
    SymmetricRange(x, top * 0.00001, top, s);
  }

  /** Rows whose smallest entry is below 21474 in size are always within the bound. */
  lemma {:induction false} SmallRowsFit(low: real, high: real, bits: nat)
    requires bits >= 1 && QMax(false, bits) > 0 && -21474.0 <= low <= 21474.0
    ensures ZeroPointFits(low, high, bits)
  {
    QuotientBound(low, Scale(low, high, false, bits), 2147400000.0);
    hide Scale;
  }

  /** A row that fails: one entry 30000, eight bits. The scale is at its floor, the level three thousand
      million, and every outcome of the cast brings the entry back more than 8000 too small. */
  lemma {:induction false} LargeConstantRowFails(cast: int)
    requires Outcome([30000.0], false, 8, cast)
    ensures var q := Quantize([30000.0], false, 8, cast);
            && !ZeroPointFits(30000.0, 30000.0, 8) && |q.values| == 1
            && 30000.0 - Dequantize(q.values[0], q.zeroPoint, q.scale) > 8000.0
  {
    PowTable(8);
    var q := Quantize([30000.0], false, 8, cast);
    LevelsFit([30000.0], false, 8, cast, 0);
    assert RowMin([30000.0]) == 30000.0 && RowMax([30000.0]) == 30000.0;
    assert q.scale == 0.00001;
    assert 30000.0 / 0.00001 == 3000000000.0;
    assert q.values[0] - q.zeroPoint <= 255 + TWO31;
  }

  lemma {:induction false} LevelRange(symmetric: bool, bits: nat)
    requires 1 <= bits <= 8 && (symmetric ==> bits >= 2)
    ensures QMax(symmetric, bits) > 0
    ensures symmetric ==> -128 <= QMin(symmetric, bits) <= QMax(symmetric, bits) <= 127
    ensures !symmetric ==> 0 <= QMin(symmetric, bits) <= QMax(symmetric, bits) <= 255
  {
    PositiveMax(symmetric, bits);
    PowTable(bits);
    PowTable(bits - 1);
  }

  lemma {:induction false} PowTable(bits: nat)
    requires bits <= 8
    ensures bits <= 7 ==> Pow2(bits) <= 128
    ensures Pow2(bits) <= 256
  {
    assert Pow2(2) == 4;
    assert Pow2(4) == 16;
    assert Pow2(6) == 64;
    assert Pow2(8) == 256;
  }
}
