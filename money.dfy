/** The part of java.math.BigDecimal the core relies on: exact decimals and setScale(2, HALF_UP). */
module Money {

  /** A BigDecimal: the value is unscaled * 10^(-scale); the scale may be negative (1E+3 has scale -3). */
  datatype Decimal = Decimal(unscaled: int, scale: int)

  function Pow10(n: nat): (p: nat)
    ensures p >= 1
    ensures n >= 1 ==> p % 10 == 0
  {
    if n == 0 then 1 else 10 * Pow10(n - 1)
  }

  /** BigDecimal.ZERO */
  const Zero := Decimal(0, 0)

  /** The value of a decimal, as an exact rational. */
  ghost function Value(d: Decimal): real
  {
    if d.scale >= 0 then d.unscaled as real / Pow10(d.scale) as real
    else (d.unscaled * Pow10(-d.scale)) as real
  }

  /** `r` is `u / p` rounded to the nearest integer, ties away from zero (RoundingMode.HALF_UP). */
  ghost predicate RoundsHalfUp(u: int, p: int, r: int)
    requires p >= 1
  {
    if u >= 0 then -p <= 2 * (u - r * p) < p
    else -p < 2 * (u - r * p) <= p
  }

  /** Divide a non-negative amount by p, rounding half up. */
  function DivHalfUp(v: nat, p: nat): (q: nat)
    requires p >= 1
    ensures RoundsHalfUp(v, p, q)
  {
    (2 * v + p) / (2 * p)
  }

  /**
   * BigDecimal.setScale(2, RoundingMode.HALF_UP): the same value with exactly two fractional digits,
   * rounded to the nearest cent, ties away from zero. Exact when the scale is at most 2.
   */
  function SetScale2HalfUp(d: Decimal): (r: Decimal)
    ensures r.scale == 2
    ensures d.scale <= 2 ==> Value(r) == Value(d)
    ensures d.scale > 2 ==> RoundsHalfUp(d.unscaled, Pow10(d.scale - 2), r.unscaled)
    ensures d.unscaled >= 0 ==> r.unscaled >= 0
    ensures d.unscaled <= 0 ==> r.unscaled <= 0
  {
    if d.scale <= 2 then
      var r := Decimal(d.unscaled * Pow10(2 - d.scale), 2);
      ExactRescale(d, r);
      r
    else
      var p := Pow10(d.scale - 2);
      if d.unscaled >= 0 then Decimal(DivHalfUp(d.unscaled, p), 2)
      else Decimal(-(DivHalfUp(-d.unscaled, p) as int), 2)
  }

  lemma Pow10Add(a: nat, b: nat)
    ensures Pow10(a + b) == Pow10(a) * Pow10(b)
  {
    if a > 0 { Pow10Add(a - 1, b); }
  }

  /** Multiplying the unscaled value by 10^(2 - scale) and setting the scale to 2 keeps the value. */
  lemma ExactRescale(d: Decimal, r: Decimal)
    requires d.scale <= 2 && r == Decimal(d.unscaled * Pow10(2 - d.scale), 2)
    ensures Value(r) == Value(d)
  {
    if d.scale >= 0 {
      var k: nat := 2 - d.scale;
      Pow10Add(k, d.scale);
      assert Pow10(2) == 100;
      assert Pow10(k) * Pow10(d.scale) == 100;
      calc {
        Value(r);
        (d.unscaled * Pow10(k)) as real / 100.0;
        (d.unscaled * Pow10(k)) as real / (Pow10(k) * Pow10(d.scale)) as real;
        d.unscaled as real / Pow10(d.scale) as real;
      }
    } else {
      var k: nat := -d.scale;
      Pow10Add(2, k);
      assert Pow10(2) == 100;
      calc {
        Value(r);
        (d.unscaled * Pow10(2 + k)) as real / 100.0;
        (d.unscaled * Pow10(k) * 100) as real / 100.0;
        (d.unscaled * Pow10(k)) as real;
      }
    }
  }

  /** The half-up rounding is unique: whatever satisfies RoundsHalfUp is what setScale returns. */
  lemma {:induction false} RoundsHalfUpUnique(u: int, p: int, r1: int, r2: int)
    requires p >= 1
    requires RoundsHalfUp(u, p, r1) && RoundsHalfUp(u, p, r2)
    ensures r1 == r2
  {
    if r1 < r2 {
      assert (r2 - r1) * p >= p by { MulMonotone(r2 - r1, p); }
    } else if r2 < r1 {
      assert (r1 - r2) * p >= p by { MulMonotone(r1 - r2, p); }
    }
  }

  lemma MulMonotone(k: int, p: int)
    requires k >= 1 && p >= 0
    ensures k * p >= p
  {
  }

  /** A value already at scale 2 (200.50 as Decimal(20050, 2)) is left exactly as it is. */
  lemma SetScale2AtScale2(d: Decimal)
    requires d.scale == 2
    ensures SetScale2HalfUp(d) == d
  {
  }

  /** Rounding is idempotent: a rounded value rounds to itself. */
  lemma SetScale2Idempotent(d: Decimal)
    ensures SetScale2HalfUp(SetScale2HalfUp(d)) == SetScale2HalfUp(d)
  {
  }
}
