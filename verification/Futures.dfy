/** Exact money: the units/nano form of fixed-point values and the economics of a futures tick. All
    amounts are total nanos in a 128-bit integer. */
module Futures {
  import opened Machine
  import opened Arithmetic

  const NANO: int := 1_000_000_000

  // ---- units and nanos ----

  predicate NanoInRange(nano: int) { -999_999_999 <= nano <= 999_999_999 }

  function FromUnitsNano(units: i64, nano: int): Option<int> {
    if NanoInRange(nano) then Some(units * NANO + nano) else None
  }

  function UnitsNano(total: i128): (int, int) { (TruncDiv(total, NANO), TruncRem(total, NANO)) }

  /** A pair in which units and nanos do not point in opposite directions. */
  predicate Canonical(units: int, nano: int) {
    NanoInRange(nano) && (units > 0 ==> nano >= 0) && (units < 0 ==> nano <= 0)
  }

  /** The pair has the value, is canonical, and is the only canonical pair with that value. */
  lemma UnitsNanoIsTheCanonicalForm(total: i128)
    ensures var (units, nano) := UnitsNano(total);
            && units * NANO + nano == total && Canonical(units, nano)
            && forall u, n :: Canonical(u, n) && u * NANO + n == total ==> (u, n) == (units, nano)
  {}

  /** A provider pair comes back unchanged exactly when its parts agree in sign. */
  lemma UnitsNanoRoundTrip(units: i64, nano: int)
    requires NanoInRange(nano)
    ensures FitsI128(FromUnitsNano(units, nano).value)
    ensures UnitsNano(FromUnitsNano(units, nano).value) == (units, nano) <==> Canonical(units, nano)
  {
    UnitsNanoIsTheCanonicalForm(FromUnitsNano(units, nano).value);
  }

  // ---- futures ----

  datatype EconomicsError = NonPositive | TickMismatch | ArithmeticOverflow | InexactMoneyPerPoint | InexactMonetaryValue

  datatype Economics = Economics(tick: i128, tickAmount: i128, moneyPerPoint: i128)

  function NewEconomics(catalogueTick: i128, marginTick: i128, tickAmount: i128): Result<Economics, EconomicsError> {
    if catalogueTick <= 0 || marginTick <= 0 || tickAmount <= 0 then Err(NonPositive)
    else if catalogueTick != marginTick then Err(TickMismatch)
    else if !FitsI128(tickAmount * NANO) then Err(ArithmeticOverflow)
    else if tickAmount * NANO % marginTick != 0 then Err(InexactMoneyPerPoint)
    else
      QuotientFits(tickAmount * NANO, marginTick);
      Ok(Economics(marginTick, tickAmount, tickAmount * NANO / marginTick))
  }

  function ValueForPrice(e: Economics, price: i128, contracts: u64): Result<i128, EconomicsError> {
    if price <= 0 || contracts == 0 then Err(NonPositive)
    else if !FitsI128(price * e.moneyPerPoint) then Err(ArithmeticOverflow)
    else if TruncRem(price * e.moneyPerPoint, NANO) != 0 then Err(InexactMonetaryValue)
    else
      var perContract := TruncDiv(price * e.moneyPerPoint, NANO);
      if FitsI128(perContract * contracts) then Ok(perContract * contracts) else Err(ArithmeticOverflow)
  }

  lemma QuotientFits(x: int, q: int)
    requires 0 <= x <= I128_MAX && 0 < q
    ensures 0 <= x / q <= I128_MAX
  {
    MulMonotone(x, 1, q);
    assert q * x == x * q;
    QuotientAtMost(x, q, x);
  }

  /** What accepted metadata guarantees: money per point is the exact ratio of tick amount and tick. */
  predicate Exact(e: Economics) { 0 < e.tick && 0 < e.tickAmount && e.tick * e.moneyPerPoint == e.tickAmount * NANO }

  /** Metadata is accepted exactly when it is positive, consistent, representable and divides exactly. */
  lemma AcceptedMetadataIsExact(catalogueTick: i128, marginTick: i128, tickAmount: i128)
    ensures var r := NewEconomics(catalogueTick, marginTick, tickAmount);
            && (r.Ok? ==> Exact(r.value) && r.value.tick == catalogueTick && r.value.tickAmount == tickAmount)
            && (r.Ok? <==> && 0 < catalogueTick == marginTick && 0 < tickAmount && tickAmount * NANO <= I128_MAX
                           && exists m :: marginTick * m == tickAmount * NANO)
  {
    if 0 < catalogueTick == marginTick && 0 < tickAmount && tickAmount * NANO <= I128_MAX {
      var x, q := tickAmount * NANO, marginTick;
      assert x == q * (x / q) + x % q;
      if exists m :: q * m == x {
        var m :| q * m == x;
        MultipleDivides(x, q, m);
      }
    }
  }

  /** Refused metadata says what is wrong with it. */
  lemma RefusedMetadataNamesItsReason(catalogueTick: i128, marginTick: i128, tickAmount: i128)
    requires NewEconomics(catalogueTick, marginTick, tickAmount).Err?
    ensures match NewEconomics(catalogueTick, marginTick, tickAmount).error
            case NonPositive => catalogueTick <= 0 || marginTick <= 0 || tickAmount <= 0
            case TickMismatch => catalogueTick != marginTick
            case ArithmeticOverflow => tickAmount * NANO > I128_MAX
            case InexactMoneyPerPoint => 0 < marginTick && forall m :: marginTick * m != tickAmount * NANO
            case InexactMonetaryValue => false
  {
    if NewEconomics(catalogueTick, marginTick, tickAmount).error.InexactMoneyPerPoint? {
      forall m ensures marginTick * m != tickAmount * NANO {
        if marginTick * m == tickAmount * NANO { MultipleDivides(tickAmount * NANO, marginTick, m); }
      }
    }
  }

  lemma MultipleDivides(x: int, q: int, m: int)
    requires 0 < q && 0 < x && q * m == x
    ensures x % q == 0 && x / q == m
  {
    QuotientAtMost(x, q, m);
  }

  lemma TickProduct(e: Economics, k: int)
    requires Exact(e)
    ensures k * e.tick * e.moneyPerPoint == k * e.tickAmount * NANO
  {
    assert k * e.tick * e.moneyPerPoint == k * (e.tick * e.moneyPerPoint);
    assert k * (e.tickAmount * NANO) == k * e.tickAmount * NANO;
  }

  /** The value of a price of `k` ticks is exactly `k` tick amounts per contract, or an overflow; it is
      never reported as inexact. */
  lemma TickPricesAreExact(e: Economics, k: int, price: i128, contracts: u64)
    requires Exact(e) && 0 < k && price == k * e.tick && 0 < contracts
    ensures ValueForPrice(e, price, contracts)
         == if k * e.tickAmount * NANO <= I128_MAX && k * e.tickAmount * contracts <= I128_MAX
            then Ok(k * e.tickAmount * contracts) else Err(ArithmeticOverflow)
  {
    var units := k * e.tickAmount;
    TickProduct(e, k);
    MulMonotone(k, 1, e.tick);
    MulMonotone(k, 1, e.tickAmount);
    assert price > 0 && units > 0 && price * e.moneyPerPoint == units * NANO;
    assert TruncRem(units * NANO, NANO) == 0 && TruncDiv(units * NANO, NANO) == units;
    MulMonotone(units, 1, contracts);
  }

  /** Any value that is returned is exact: it is the price times the tick ratio times the contracts. */
  lemma ReturnedValuesAreExact(e: Economics, price: i128, contracts: u64)
    requires Exact(e) && ValueForPrice(e, price, contracts).Ok?
    ensures ValueForPrice(e, price, contracts).value * e.tick == price * e.tickAmount * contracts
  {
    var product := price * e.moneyPerPoint;
    var perContract := TruncDiv(product, NANO);
    assert product == perContract * NANO;
    assert perContract * NANO * e.tick == price * (e.tick * e.moneyPerPoint) by {
      assert product * e.tick == price * (e.tick * e.moneyPerPoint);
    }
    assert perContract * e.tick * NANO == price * e.tickAmount * NANO by {
      assert perContract * e.tick * NANO == perContract * NANO * e.tick;
      assert price * (e.tickAmount * NANO) == price * e.tickAmount * NANO;
    }
    assert perContract * e.tick == price * e.tickAmount;
    assert perContract * contracts * e.tick == perContract * e.tick * contracts;
  }
}
