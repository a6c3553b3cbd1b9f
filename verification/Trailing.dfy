/** The trailing-stop reference: the tracked extreme and the threshold that follows it. Prices and
    distances are total nanos; a relative distance is in nano percent. */
module Trailing {
  import opened Machine
  import opened Arithmetic

  datatype PositionSide = Long | Short

  datatype DistanceMode = AbsolutePrice | RelativePercent

  datatype TrailingDistance = TrailingDistance(mode: DistanceMode, value: i128)

  /** One hundred percent, in nano percent. */
  const FULL: int := 100_000_000_000

  function Better(side: PositionSide, extreme: i128, price: i128): i128 {
    if side.Long? then (if price > extreme then price else extreme) else if price < extreme then price else extreme
  }

  /** The extreme after a sequence of observed prices. */
  function Extreme(side: PositionSide, reference: i128, prices: seq<i128>): i128 {
    if prices == [] then reference
    else Better(side, Extreme(side, reference, prices[..|prices| - 1]), prices[|prices| - 1])
  }

  function Delta(extreme: i128, d: TrailingDistance): Option<int> {
    if d.mode.AbsolutePrice? then Some(d.value)
    else if !FitsI128(extreme * d.value) then None else Some(TruncDiv(extreme * d.value, FULL))
  }

  /** The stop price for an extreme; `None` when a step of the computation overflows. */
  function Threshold(side: PositionSide, d: TrailingDistance, extreme: i128): Option<i128> {
    var delta := Delta(extreme, d);
    if delta.None? then None
    else
      var t := if side.Long? then extreme - delta.value else extreme + delta.value;
      if FitsI128(t) then Some(t) else None
  }

  class TrailingSemanticReference {
    const side: PositionSide
    const distance: TrailingDistance
    var favorableExtreme: i128

    constructor (side: PositionSide, reference: i128, distance: TrailingDistance)
      ensures this.side == side && this.distance == distance
      ensures favorableExtreme == Extreme(side, reference, [])
    {
      this.side, this.distance, favorableExtreme := side, distance, reference;
    }

    /** Extends the observed sequence by one price. */
    method Observe(price: i128, ghost reference: i128, ghost prices: seq<i128>)
      requires favorableExtreme == Extreme(side, reference, prices)
      modifies this
      ensures favorableExtreme == Extreme(side, reference, prices + [price])
    {
      assert (prices + [price])[..|prices|] == prices;
      var favorable := if side.Long? then price > favorableExtreme else price < favorableExtreme;
      if favorable { favorableExtreme := price; }
    }

    method CurrentThreshold() returns (r: Option<i128>)
      ensures r == Threshold(side, distance, favorableExtreme)
    {
      var delta := distance.value;
      if distance.mode.RelativePercent? {
        var product := favorableExtreme * distance.value;
        if !FitsI128(product) { return None; }
        delta := TruncDiv(product, FULL);
      }
      var threshold := if side.Long? then favorableExtreme - delta else favorableExtreme + delta;
      return if FitsI128(threshold) then Some(threshold) else None;
    }
  }

  // ---- the extreme ----

  /** At least as favourable for the position. */
  predicate Favours(side: PositionSide, a: int, b: int) { if side.Long? then a >= b else a <= b }

  /** The tracked extreme is the most favourable of the reference and everything observed. */
  lemma {:induction false} ExtremeIsTheBest(side: PositionSide, reference: i128, prices: seq<i128>)
    ensures var e := Extreme(side, reference, prices);
            && (e == reference || e in prices)
            && Favours(side, e, reference)
            && forall i :: 0 <= i < |prices| ==> Favours(side, e, prices[i])
  {
    if prices != [] {
      var init := prices[..|prices| - 1];
      ExtremeIsTheBest(side, reference, init);
      forall i | 0 <= i < |prices| ensures Favours(side, Extreme(side, reference, prices), prices[i]) {
        if i < |init| { assert prices[i] == init[i]; }
      }
    }
  }

  lemma {:induction false} ExtremeOnlyImproves(side: PositionSide, reference: i128, prices: seq<i128>, n: nat)
    requires n <= |prices|
    ensures Favours(side, Extreme(side, reference, prices), Extreme(side, reference, prices[..n]))
  {
    if n == |prices| {
      assert prices[..n] == prices;
    } else {
      var init := prices[..|prices| - 1];
      assert init[..n] == prices[..n];
      ExtremeOnlyImproves(side, reference, init, n);
    }
  }

  // ---- the threshold ----

  /** How far the stop is from the extreme, measured toward the losing side. */
  function Gap(side: PositionSide, extreme: int, stop: int): int { if side.Long? then extreme - stop else stop - extreme }

  /** An absolute stop is exactly its distance away, on the losing side, wherever that can be represented. */
  lemma AbsoluteStopIsItsDistanceAway(side: PositionSide, d: TrailingDistance, extreme: i128, stop: i128)
    requires d.mode.AbsolutePrice?
    ensures Threshold(side, d, extreme) == Some(stop) <==> Gap(side, extreme, stop) == d.value
    ensures Threshold(side, d, extreme).None? <==>
              (if side.Long? then !FitsI128(extreme - d.value) else !FitsI128(extreme + d.value))
  {}

  /** A relative stop is that share of the extreme away, cut off toward zero. */
  predicate ShareOf(extreme: int, share: int, gap: int) {
    if extreme * share >= 0 then gap * FULL <= extreme * share < (gap + 1) * FULL
    else (gap - 1) * FULL < extreme * share <= gap * FULL
  }

  lemma RelativeStopIsItsShareAway(side: PositionSide, d: TrailingDistance, extreme: i128, stop: i128)
    requires d.mode.RelativePercent?
    ensures Threshold(side, d, extreme) == Some(stop) <==>
              FitsI128(extreme * d.value) && ShareOf(extreme, d.value, Gap(side, extreme, stop))
  {
    var product := extreme * d.value;
    var gap := Gap(side, extreme, stop);
    TruncIsCutOff(product, gap);
  }

  lemma TruncIsCutOff(x: int, q: int)
    ensures TruncDiv(x, FULL) == q <==> if x >= 0 then q * FULL <= x < (q + 1) * FULL else (q - 1) * FULL < x <= q * FULL
  {}

  lemma TruncIsMonotone(x: int, y: int)
    requires x <= y
    ensures TruncDiv(x, FULL) <= TruncDiv(y, FULL)
  {}

  lemma TruncShift(x: int, g: nat)
    ensures TruncDiv(x + g * FULL, FULL) <= TruncDiv(x, FULL) + g
  {}

  /** Moving the extreme up by `g` moves a distance of at most one hundred percent by at most `g`. */
  lemma DeltaGrowsSlowly(low: int, high: int, d: int)
    requires low <= high && d <= FULL
    ensures TruncDiv(high * d, FULL) <= TruncDiv(low * d, FULL) + (high - low)
  {
    var g := high - low;
    assert high * d == low * d + g * d;
    MulMonotone(g, d, FULL);
    TruncIsMonotone(high * d, low * d + g * FULL);
    TruncShift(low * d, g);
  }

  lemma TruncIsOdd(x: int)
    ensures TruncDiv(-x, FULL) == -TruncDiv(x, FULL)
  {}

  lemma DeltaFallsSlowly(low: int, high: int, d: int)
    requires low <= high && d >= -FULL
    ensures TruncDiv(low * d, FULL) <= TruncDiv(high * d, FULL) + (high - low)
  {
    DeltaGrowsSlowly(low, high, -d);
    assert high * -d == -(high * d) && low * -d == -(low * d);
    TruncIsOdd(high * d);
    TruncIsOdd(low * d);
  }

  /** The distances with which the stop cannot move away from the price. */
  predicate Ratchets(side: PositionSide, d: TrailingDistance) {
    d.mode.AbsolutePrice? || (if side.Long? then d.value <= FULL else d.value >= -FULL)
  }

  /** The threshold never moves against the position when the extreme improves, as far as it is defined. */
  ghost predicate NeverWidens(side: PositionSide, d: TrailingDistance) {
    forall a: i128, b: i128 ::
      Favours(side, b, a) && Threshold(side, d, a).Some? && Threshold(side, d, b).Some? ==>
        Favours(side, Threshold(side, d, b).value, Threshold(side, d, a).value)
  }

  lemma RatchetNeverWidens(side: PositionSide, d: TrailingDistance, a: i128, b: i128)
    requires Ratchets(side, d) && Favours(side, b, a)
    requires Threshold(side, d, a).Some? && Threshold(side, d, b).Some?
    ensures Favours(side, Threshold(side, d, b).value, Threshold(side, d, a).value)
  {
    if d.mode.RelativePercent? {
      if side.Long? { DeltaGrowsSlowly(a, b, d.value); } else { DeltaFallsSlowly(b, a, d.value); }
    }
  }

  /** Beyond one hundred percent the threshold falls while the price rises: a long loses its stop, and a
      short gets it back as the price falls to zero. */
  lemma ExcessiveDistanceWidens(side: PositionSide, d: TrailingDistance)
    requires !Ratchets(side, d)
    ensures !NeverWidens(side, d)
  {
    var one: i128, full: i128 := 1, 100_000_000_000;
    assert Threshold(side, d, 0) == Some(0);
    if side.Long? {
      var price := if d.value >= 2 * FULL then one else full;
      assert Threshold(side, d, price).Some? && Threshold(side, d, price).value < 0;
      assert Favours(side, price, 0);
    } else {
      var price := if d.value <= -2 * FULL then one else full;
      assert Threshold(side, d, price).Some? && Threshold(side, d, price).value < 0;
      assert Favours(side, 0, price);
    }
  }

  /** The exact condition, for every distance. */
  lemma NeverWidensExactly(side: PositionSide, d: TrailingDistance)
    ensures NeverWidens(side, d) <==> Ratchets(side, d)
  {
    if Ratchets(side, d) {
      forall a: i128, b: i128 | Favours(side, b, a) && Threshold(side, d, a).Some? && Threshold(side, d, b).Some?
        ensures Favours(side, Threshold(side, d, b).value, Threshold(side, d, a).value)
      {
        RatchetNeverWidens(side, d, a, b);
      }
    } else {
      ExcessiveDistanceWidens(side, d);
    }
  }

  /** Over any price sequence, later thresholds are never less favourable than earlier ones. */
  lemma ThresholdsFollowThePrice(side: PositionSide, reference: i128, d: TrailingDistance, prices: seq<i128>, n: nat)
    requires Ratchets(side, d) && n <= |prices|
    requires Threshold(side, d, Extreme(side, reference, prices[..n])).Some?
    requires Threshold(side, d, Extreme(side, reference, prices)).Some?
    ensures Favours(side, Threshold(side, d, Extreme(side, reference, prices)).value,
                    Threshold(side, d, Extreme(side, reference, prices[..n])).value)
  {
    ExtremeOnlyImproves(side, reference, prices, n);
    RatchetNeverWidens(side, d, Extreme(side, reference, prices[..n]), Extreme(side, reference, prices));
  }
}
