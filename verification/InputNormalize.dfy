/** Axis calibration and normalisation: a raw reading to a percentage with a centre dead zone. */
module InputNormalize {
  import opened Arith

  const INT32_MIN: int := -0x8000_0000
  const INT32_MAX: int := 0x7fff_ffff
  const DEFAULT_DEADZONE: int := 15
  const MAX_DEADZONE: int := 50

  type Int32 = x: int | INT32_MIN <= x <= INT32_MAX

  datatype Range = Range(min: Int32, max: Int32, deadzone: Int32) {
    /** Ranges the normaliser accepts. */
    predicate Accepted() {
      min < max && 0 <= deadzone <= MAX_DEADZONE
    }

    /** Ranges whose span is a C int, so that no intermediate overflows. */
    predicate Fits() {
      max - min <= INT32_MAX
    }
  }

  datatype Reading = Invalid | Percent(value: int)

  function ClampTo(r: Range, raw: int): int {
    var a := if raw < r.min then r.min else raw;
    if a > r.max then r.max else a
  }

  /** Half the dead zone, `span * deadzone / 200`. */
  function Half(r: Range): int {
    (r.max - r.min) * r.deadzone / 200
  }

  function Low(r: Range): int {
    r.min + (r.max - r.min) / 2 - Half(r)
  }

  function High(r: Range): int {
    Low(r) + 2 * Half(r)
  }

  /** `cart_input_axis_normalize`. */
  function Normalize(raw: int, r: Range): Reading {
    if !r.Accepted() then Invalid
    else
      var x := ClampTo(r, raw);
      if Low(r) <= x <= High(r) then Percent(0)
      else if x < Low(r) then
        Edges(r);
        Percent(Trunc((x - Low(r)) * 100, Low(r) - r.min))
      else
        Edges(r);
        Percent(Trunc((x - High(r)) * 100, r.max - High(r)))
  }

  /** The dead zone lies strictly inside the range: no divisor is ever zero. */
  lemma Edges(r: Range)
    requires r.Accepted()
    ensures 0 <= Half(r)
    ensures r.min <= Low(r) && High(r) < r.max
    ensures r.max - r.min >= 2 ==> r.min < Low(r)
  {
    var span := r.max - r.min;
    MulLe(0, r.deadzone, span);
    MulLe(r.deadzone, MAX_DEADZONE, span);
    assert 0 <= span * r.deadzone <= span * 50;
    assert span * 50 / 200 == span / 4;
    DivMonotone(span * r.deadzone, span * 50, 200);
    DivMonotone(0, span * r.deadzone, 200);
  }

  lemma ScaledRange(part: int, whole: int)
    requires 0 <= part <= whole && whole > 0
    ensures 0 <= part * 100 / whole <= 100
    ensures part == whole ==> part * 100 / whole == 100
  {
    MulLe(part, whole, 100);
    DivIs(whole * 100, whole, 100);
    DivIs(0, whole, 0);
    DivMonotone(0, part * 100, whole);
    DivMonotone(part * 100, whole * 100, whole);
  }

  /** Every accepted reading is a percentage, exactly 100 at the top and, from a span of 2, -100 at the bottom. */
  lemma NormalizeRange(raw: int, r: Range)
    requires r.Accepted()
    ensures Normalize(raw, r).Percent? && -100 <= Normalize(raw, r).value <= 100
    ensures raw >= r.max ==> Normalize(raw, r) == Percent(100)
    ensures raw <= r.min && r.max - r.min >= 2 ==> Normalize(raw, r) == Percent(-100)
    ensures raw <= r.min && r.max - r.min == 1 ==> Normalize(raw, r) == Percent(0)
  {
    Edges(r);
    var x := ClampTo(r, raw);
    if x < Low(r) {
      ScaledRange(Low(r) - x, Low(r) - r.min);
      assert -((x - Low(r)) * 100) == (Low(r) - x) * 100;
    } else if x > High(r) {
      ScaledRange(x - High(r), r.max - High(r));
    }
  }

  lemma TruncMonotone(a: int, b: int, n: int)
    requires a <= b && n > 0
    ensures Trunc(a, n) <= Trunc(b, n)
  {
    if 0 <= a {
      DivMonotone(a, b, n);
    } else if b < 0 {
      DivMonotone(-b, -a, n);
    } else {
      DivMonotone(0, -a, n);
      DivMonotone(0, b, n);
    }
  }

  lemma TruncSign(a: int, n: int)
    requires n > 0
    ensures a <= 0 ==> Trunc(a, n) <= 0
    ensures a >= 0 ==> Trunc(a, n) >= 0
  {
    DivMonotone(0, if a >= 0 then a else -a, n);
  }

  /** Pushing the stick further never lowers the reading. */
  lemma NormalizeMonotone(raw: int, raw': int, r: Range)
    requires r.Accepted() && raw <= raw'
    ensures Normalize(raw, r).Percent? && Normalize(raw', r).Percent?
    ensures Normalize(raw, r).value <= Normalize(raw', r).value
  {
    Edges(r);
    var x, x' := ClampTo(r, raw), ClampTo(r, raw');
    if x < Low(r) {
      if x' < Low(r) {
        TruncMonotone((x - Low(r)) * 100, (x' - Low(r)) * 100, Low(r) - r.min);
      } else {
        TruncSign((x - Low(r)) * 100, Low(r) - r.min);
        TruncSign((x' - High(r)) * 100, r.max - High(r));
      }
    } else if x' > High(r) {
      TruncSign((x' - High(r)) * 100, r.max - High(r));
      if x > High(r) {
        TruncMonotone((x - High(r)) * 100, (x' - High(r)) * 100, r.max - High(r));
      }
    }
  }

  /** On an even span the reading is odd about the centre. */
  lemma NormalizeOdd(raw: int, r: Range)
    requires r.Accepted() && (r.max - r.min) % 2 == 0
    ensures Normalize(raw, r).Percent? && Normalize(r.min + r.max - raw, r).Percent?
    ensures Normalize(r.min + r.max - raw, r).value == -Normalize(raw, r).value
  {
    Edges(r);
    assert Low(r) - r.min == r.max - High(r);
    assert ClampTo(r, r.min + r.max - raw) == r.min + r.max - ClampTo(r, raw);
    TruncOdd((ClampTo(r, raw) - Low(r)) * 100, Low(r) - r.min);
    TruncOdd((ClampTo(r, raw) - High(r)) * 100, r.max - High(r));
  }

  lemma TruncOdd(a: int, n: int)
    ensures n > 0 ==> Trunc(-a, n) == -Trunc(a, n)
  {
    if n > 0 {
      DivIs(0, n, 0);
    }
  }

  /**
   What a reading is, by the bounds that fix it: with `centre` the middle of the range rounded
   down and `half` half the dead zone's share of it rounded down, the dead zone reads 0, and
   outside it the reading is the percentage of the way to the end, rounded toward 0.
   */
  lemma ReadingIs(raw: int, r: Range, centre: int, half: int, way: int)
    requires r.Accepted() && 2 * (centre - r.min) <= r.max - r.min <= 2 * (centre - r.min) + 1
    requires 200 * half <= (r.max - r.min) * r.deadzone < 200 * half + 200
    ensures centre - half <= raw <= centre + half ==> Normalize(raw, r) == Percent(0)
    ensures r.min <= raw < centre - half && way * (centre - half - r.min) <= (centre - half - raw) * 100 < (way + 1) * (centre - half - r.min) ==>
              Normalize(raw, r) == Percent(-way)
    ensures centre + half < raw <= r.max && way * (r.max - centre - half) <= (raw - centre - half) * 100 < (way + 1) * (r.max - centre - half) ==>
              Normalize(raw, r) == Percent(way)
  {
    Edges(r);
    DivIs((r.max - r.min) * r.deadzone, 200, half);
    assert Low(r) == centre - half && High(r) == centre + half;
    var below, above := centre - half - r.min, r.max - centre - half;
    if r.min <= raw < centre - half && way * below <= (centre - half - raw) * 100 < (way + 1) * below {
      WayDown(raw, r, way);
    }
    if centre + half < raw <= r.max && way * above <= (raw - centre - half) * 100 < (way + 1) * above {
      WayUp(raw, r, way);
    }
  }

  lemma WayDown(raw: int, r: Range, way: int)
    requires r.Accepted() && r.min <= raw < Low(r)
    requires way * (Low(r) - r.min) <= (Low(r) - raw) * 100 < (way + 1) * (Low(r) - r.min)
    ensures Normalize(raw, r) == Percent(-way)
  {
    Edges(r);
    DivIs((Low(r) - raw) * 100, Low(r) - r.min, way);
    assert -((raw - Low(r)) * 100) == (Low(r) - raw) * 100;
  }

  lemma WayUp(raw: int, r: Range, way: int)
    requires r.Accepted() && High(r) < raw <= r.max
    requires way * (r.max - High(r)) <= (raw - High(r)) * 100 < (way + 1) * (r.max - High(r))
    ensures Normalize(raw, r) == Percent(way)
  {
    Edges(r);
    DivIs((raw - High(r)) * 100, r.max - High(r), way);
  }

  /** Two's-complement 32-bit wrap-around. */
  function Wrap32(x: int): Int32 {
    (x - INT32_MIN) % 0x1_0000_0000 + INT32_MIN
  }

  /** The C code's 32-bit span is the true span exactly when the range fits; its 64-bit products then do too. */
  lemma SpanExact(r: Range, raw: Int32)
    requires r.Accepted()
    ensures Wrap32(r.max - r.min) == r.max - r.min <==> r.Fits()
    ensures r.Fits() ==> 0 <= (r.max - r.min) * r.deadzone <= INT32_MAX * MAX_DEADZONE
    ensures -100 * 0x1_0000_0000 <= (ClampTo(r, raw) - Low(r)) * 100 <= 100 * 0x1_0000_0000
  {
    Edges(r);
    MulLe(0, r.deadzone, r.max - r.min);
    MulLe(r.deadzone, MAX_DEADZONE, r.max - r.min);
    if !r.Fits() {
      assert (r.max - r.min - INT32_MIN) % 0x1_0000_0000 == r.max - r.min - INT32_MIN - 0x1_0000_0000;
    }
  }

  /** The dead zone `probe_snapshot_axes` derives from the device's flat value. */
  function Calibrated(minimum: Int32, maximum: Int32, flat: Int32): (r: Range)
    ensures r.min == minimum && r.max == maximum && DEFAULT_DEADZONE <= r.deadzone <= MAX_DEADZONE
  {
    var span := Wrap32(maximum - minimum);
    var suggested := if span > 0 && flat > 0 then Trunc(Wrap32(flat * 200), span) else 0;
    Range(minimum, maximum, if suggested > DEFAULT_DEADZONE && suggested <= MAX_DEADZONE then suggested else DEFAULT_DEADZONE)
  }

  /**
   The dead zone comes from the device: its flat value on both sides of the centre as a
   percentage of the span, rounded down, if that is above 15 and at most 50; else 15. Stated for
   ranges and flat values whose products a C int holds.
   */
  lemma DeadzoneFromFlat(minimum: Int32, maximum: Int32, flat: Int32, percent: int)
    requires 0 < maximum - minimum <= INT32_MAX && 0 <= flat && flat * 200 <= INT32_MAX
    requires percent * (maximum - minimum) <= flat * 200 < (percent + 1) * (maximum - minimum)
    ensures Calibrated(minimum, maximum, flat).deadzone == if 15 < percent <= 50 then percent else 15
  {
    var span := maximum - minimum;
    assert Wrap32(span) == span && Wrap32(flat * 200) == flat * 200;
    DivIs(flat * 200, span, percent);
    if flat == 0 {
      DivIs(0, span, 0);
    }
  }

  /** A range that is not proper, or a device without a flat value, gets the default. */
  lemma DeadzoneDefault(minimum: Int32, maximum: Int32, flat: Int32)
    requires flat <= 0 || (maximum <= minimum && minimum - maximum <= INT32_MAX)
    ensures Calibrated(minimum, maximum, flat).deadzone == 15
  {
  }
}
