/** Exact decimals: stripping trailing zeros from a nano amount and scaling it to sixteen digits. */
module ExactDecimals {
  import opened Machine
  import opened Arithmetic
  import opened Futures

  const NANO_PRECISION: nat := 9
  const FIXED_PRECISION: nat := 16

  datatype ExactDecimal = ExactDecimal(coefficient: u128, scale: nat)

  datatype MappingError = NonPositiveValue | ScaleOverflow | InstrumentTickMismatch

  function Pow10(n: nat): int { if n == 0 then 1 else 10 * Pow10(n - 1) }

  /** The decimal without trailing zeros, as long as there are decimal places to give up. */
  function Normal(coefficient: u128, scale: nat): ExactDecimal {
    if scale > 0 && coefficient % 10 == 0 then Normal(coefficient / 10, scale - 1) else ExactDecimal(coefficient, scale)
  }

  method Normalized(coefficient: u128, scale: nat) returns (d: ExactDecimal)
    ensures d == Normal(coefficient, scale)
  {
    var c, s := coefficient, scale;
    while s > 0 && c % 10 == 0
      invariant Normal(c, s) == Normal(coefficient, scale)
    {
      c, s := c / 10, s - 1;
    }
    return ExactDecimal(c, s);
  }

  method FixedPointPrecision(total: i128) returns (precision: nat)
    ensures precision == Normal(Abs(total), NANO_PRECISION).scale
  {
    var magnitude: u128 := Abs(total);
    precision := NANO_PRECISION;
    while precision > 0 && magnitude % 10 == 0
      invariant Normal(magnitude, precision) == Normal(Abs(total), NANO_PRECISION)
    {
      magnitude, precision := magnitude / 10, precision - 1;
    }
  }

  function ToRaw(d: ExactDecimal): Result<u128, MappingError>
    requires d.scale <= FIXED_PRECISION
  {
    var raw := d.coefficient * Pow10(FIXED_PRECISION - d.scale);
    PowersArePositive(FIXED_PRECISION - d.scale);
    MulMonotone(d.coefficient, 0, Pow10(FIXED_PRECISION - d.scale));
    if raw <= U128_MAX then Ok(raw) else Err(ScaleOverflow)
  }

  function FromPositive(total: i128): Result<ExactDecimal, MappingError> {
    if total <= 0 then Err(NonPositiveValue) else Ok(Normal(total, NANO_PRECISION))
  }

  /** Money per point of a future whose instrument agrees on the tick. */
  function MoneyPerPoint(instrumentTick: i128, e: Economics): Result<ExactDecimal, MappingError> {
    if instrumentTick <= 0 || e.tick <= 0 then Err(NonPositiveValue)
    else if instrumentTick != e.tick then Err(InstrumentTickMismatch)
    else FromPositive(e.moneyPerPoint)
  }

  lemma {:induction false} PowersArePositive(n: nat)
    ensures Pow10(n) >= 1
  {
    if n > 0 { PowersArePositive(n - 1); }
  }

  lemma {:induction false} PowersAdd(m: nat, n: nat)
    ensures Pow10(m + n) == Pow10(m) * Pow10(n)
  {
    if m > 0 {
      PowersAdd(m - 1, n);
      assert Pow10(m) * Pow10(n) == 10 * (Pow10(m - 1) * Pow10(n));
    }
  }

  /** Same value as before, and no trailing zero left to strip. */
  lemma {:induction false} NormalKeepsValue(coefficient: u128, scale: nat)
    ensures var d := Normal(coefficient, scale);
            && d.scale <= scale && d.coefficient * Pow10(scale - d.scale) == coefficient
            && (d.scale == 0 || d.coefficient % 10 != 0)
  {
    if scale > 0 && coefficient % 10 == 0 {
      NormalKeepsValue(coefficient / 10, scale - 1);
      var d := Normal(coefficient, scale);
      assert Pow10(scale - d.scale) == 10 * Pow10(scale - 1 - d.scale);
      assert d.coefficient * (10 * Pow10(scale - 1 - d.scale)) == 10 * (d.coefficient * Pow10(scale - 1 - d.scale));
    }
  }

  /** No decimal with the same value has fewer places, and with as many places it is the same decimal. */
  lemma {:induction false} NormalIsMinimal(coefficient: u128, scale: nat, other: ExactDecimal)
    requires other.scale <= scale && other.coefficient * Pow10(scale - other.scale) == coefficient
    ensures Normal(coefficient, scale).scale <= other.scale
    ensures Normal(coefficient, scale) == Normal(other.coefficient, other.scale)
    decreases scale
  {
    if other.scale < scale {
      var rest := other.coefficient * Pow10(scale - 1 - other.scale);
      assert Pow10(scale - other.scale) == 10 * Pow10(scale - 1 - other.scale);
      assert coefficient == 10 * rest;
      NormalIsMinimal(coefficient / 10, scale - 1, other);
    } else {
      NormalKeepsValue(coefficient, scale);
    }
  }

  /** Money per point is there exactly for a positive tick that the instrument agrees on and a positive amount; its
      decimal then has the value of that amount. */
  lemma MoneyPerPointExactly(instrumentTick: i128, e: Economics)
    ensures var d := MoneyPerPoint(instrumentTick, e);
            && (d.Ok? <==> 0 < instrumentTick == e.tick && 0 < e.moneyPerPoint)
            && (d == Err(InstrumentTickMismatch) <==> 0 < instrumentTick != e.tick && 0 < e.tick)
            && (d.Ok? ==> d.value.scale <= NANO_PRECISION && d.value.coefficient * Pow10(NANO_PRECISION - d.value.scale) == e.moneyPerPoint)
  {
    if 0 < e.moneyPerPoint { NormalKeepsValue(e.moneyPerPoint, NANO_PRECISION); }
  }

  /** Normalising and scaling to sixteen digits yields the nanos times ten million, or an overflow exactly
      when that does not fit. */
  lemma RawIsExact(total: i128)
    requires total > 0
    ensures var d := FromPositive(total);
            d.Ok? && d.value.scale <= NANO_PRECISION
    ensures ToRaw(FromPositive(total).value) == if total * 10_000_000 <= U128_MAX then Ok(total * 10_000_000) else Err(ScaleOverflow)
  {
    var d := Normal(total, NANO_PRECISION);
    NormalKeepsValue(total, NANO_PRECISION);
    PowersAdd(NANO_PRECISION - d.scale, 7);
    assert Pow10(7) == 10_000_000 by { assert Pow10(3) == 1000; PowersAdd(4, 3); assert Pow10(4) == 10 * Pow10(3); }
    assert d.coefficient * Pow10(FIXED_PRECISION - d.scale) == d.coefficient * Pow10(NANO_PRECISION - d.scale) * 10_000_000;
  }

  lemma MoneyIsPositive(e: Economics)
    requires Exact(e)
    ensures e.moneyPerPoint > 0
  {
    if e.moneyPerPoint <= 0 { MulMonotone(e.tick, e.moneyPerPoint, 0); }
  }

  lemma Reordered(money: int, tick: int)
    ensures money * 10_000_000 * tick == tick * money * 10_000_000
  {}

  /** From tick metadata to the stored quantity nothing is rounded: the raw quantity times the tick is the
      tick amount at sixteen digits. */
  lemma MoneyPerPointIsExact(instrumentTick: i128, e: Economics)
    requires Exact(e) && instrumentTick == e.tick
    requires e.moneyPerPoint * 10_000_000 <= U128_MAX
    ensures var d := MoneyPerPoint(instrumentTick, e);
            && d.Ok? && d.value.scale <= NANO_PRECISION
            && ToRaw(d.value).Ok? && ToRaw(d.value).value * e.tick == e.tickAmount * NANO * 10_000_000
  {
    MoneyIsPositive(e);
    RawIsExact(e.moneyPerPoint);
    Reordered(e.moneyPerPoint, e.tick);
  }
}
