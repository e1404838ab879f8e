/** Conversions between collateral and RWA amounts, and fees (the math helpers of contracts/RWAHub.sol). */
module HubMath {
  import opened Words
  import opened Rounding

  const E18: nat := 1_000_000_000_000_000_000

  // ---------------------------------------------------------------- as computed, with overflow checks

  function TryScaleUp(amount: uint256, multiplier: nat): Option<uint256> {
    Unsigned(amount * multiplier)
  }

  /** A missing price (zero) makes the division, and with it the mint, revert. */
  function TryMintAmount(deposit: uint256, price: uint256, multiplier: nat): Option<uint256> {
    var scaled :- TryScaleUp(deposit, multiplier);
    var amountE36 :- Unsigned(scaled * E18);
    var _ :- Require(price != 0);
    Unsigned(amountE36 / price)
  }

  /** A missing price (zero) makes the redemption worth zero. */
  function TryRedemptionAmount(rwaAmount: uint256, price: uint256, multiplier: nat): Option<uint256>
    requires multiplier > 0
  {
    var amountE36 :- Unsigned(rwaAmount * price);
    Unsigned(amountE36 / E18 / multiplier)
  }

  function TryFee(amount: uint256, bps: uint256): Option<uint256> {
    var scaled :- Unsigned(amount * bps);
    Unsigned(scaled / BPS_DENOMINATOR)
  }

  // ---------------------------------------------------------------- what the results mean

  /** price / Unit(multiplier) is the collateral value of one unit of RWA. */
  function Unit(multiplier: nat): nat { multiplier * E18 }

  /** rwa is deposit * unit / price rounded down. */
  predicate MintsTo(deposit: nat, price: nat, unit: nat, rwa: nat) {
    rwa * price <= deposit * unit < rwa * price + price
  }

  /** due is rwa * price / unit rounded down. */
  predicate RedeemsTo(rwa: nat, price: nat, unit: nat, due: nat) {
    due * unit <= rwa * price < due * unit + unit
  }

  lemma MintAmountIsFloor(deposit: uint256, price: uint256, multiplier: nat)
    requires TryMintAmount(deposit, price, multiplier).Some?
    ensures price > 0 && MintsTo(deposit, price, Unit(multiplier), TryMintAmount(deposit, price, multiplier).value)
  {
    var amountE36 := deposit * multiplier * E18;
    assert amountE36 == deposit * Unit(multiplier) by { Swap(deposit, multiplier, E18); }
    FloorBounds(amountE36, price);
  }

  /** The two nested floors are one. */
  lemma RedemptionAmountIsFloor(rwa: uint256, price: uint256, multiplier: nat)
    requires multiplier > 0 && TryRedemptionAmount(rwa, price, multiplier).Some?
    ensures RedeemsTo(rwa, price, Unit(multiplier), TryRedemptionAmount(rwa, price, multiplier).value)
  {
    FloorTwice(rwa * price, E18, multiplier);
    FloorBounds(rwa * price, E18 * multiplier);
  }

  lemma FeeIsFloor(amount: uint256, bps: uint256)
    requires TryFee(amount, bps).Some?
    ensures TryFee(amount, bps).value == amount * bps / BPS_DENOMINATOR
    ensures bps <= BPS_DENOMINATOR ==> TryFee(amount, bps).value <= amount
  {
    FloorBounds(amount * bps, BPS_DENOMINATOR);
    if bps <= BPS_DENOMINATOR {
      MulMono(bps, BPS_DENOMINATOR, amount);
      FloorLess(amount + 1, amount * bps, BPS_DENOMINATOR);
    }
  }

  // ---------------------------------------------------------------- when the helpers revert

  /** A mint amount is computed exactly for a price, if deposit * multiplier * 1e18 fits a word; it is the
      floor of that over the price. */
  lemma MintAmountExactly(deposit: uint256, price: uint256, multiplier: nat)
    requires multiplier > 0
    ensures var scaled := deposit * (multiplier * 1_000_000_000_000_000_000);
            TryMintAmount(deposit, price, multiplier) ==
            if price > 0 && scaled < TWO_256 then Some(scaled / price) else None
  {
    var whole := deposit * multiplier;
    Swap(deposit, multiplier, E18);
    MulMono(0, whole, E18);
    MulMono(1, E18, whole);
    if price > 0 && whole * E18 < TWO_256 {
      FloorGreatest(0, whole * E18, price);
      MulMono(1, price, whole * E18 + 1);
      FloorLess(whole * E18 + 1, whole * E18, price);
    }
  }

  /** A redemption amount is computed exactly if amount * price fits a word; it is the floor of that over
      multiplier * 1e18. */
  lemma RedemptionAmountExactly(rwa: uint256, price: uint256, multiplier: nat)
    requires multiplier > 0
    ensures TryRedemptionAmount(rwa, price, multiplier) ==
            if rwa * price < TWO_256 then Some(rwa * price / (multiplier * 1_000_000_000_000_000_000)) else None
  {
    var product := rwa * price;
    MulMono(0, rwa, price);
    FloorTwice(product, E18, multiplier);
    Shrinks(product, E18);
    Shrinks(product / E18, multiplier);
  }

  /** A fee is computed exactly if amount * bps fits a word; it is the floor of that over 10000. */
  lemma FeeExactly(amount: uint256, bps: uint256)
    ensures TryFee(amount, bps) == if amount * bps < TWO_256 then Some(amount * bps / 10000) else None
  {
    MulMono(0, amount, bps);
  }

  lemma Shrinks(a: nat, d: nat)
    requires d > 0
    ensures 0 <= a / d <= a
  {
    FloorGreatest(0, a, d);
    MulMono(1, d, a + 1);
    FloorLess(a + 1, a, d);
  }

  // ---------------------------------------------------------------- round trips

  /** Redeeming at the same price what a deposit minted returns the deposit, short of exactly the
      rounded-up value of the part of it the mint could not represent. */
  lemma RoundTripExact(deposit: nat, price: nat, unit: nat, rwa: nat, back: nat)
    requires MintsTo(deposit, price, unit, rwa) && RedeemsTo(rwa, price, unit, back)
    ensures var lost := deposit * unit - rwa * price;
            0 <= lost < price && back == deposit - CeilDiv(lost, unit)
  {
    var lost := deposit * unit - rwa * price;
    var c := CeilDiv(lost, unit);
    // back * unit <= deposit * unit - lost < (back + 1) * unit
    Distribute(deposit, back, unit);
    CeilLeast(deposit - back, lost, unit);
    if c < deposit - back {
      MulMono(c, deposit - back - 1, unit);
      Distribute(deposit - back, 1, unit);
    }
  }

  lemma Distribute(a: int, b: int, c: int)
    ensures (a - b) * c == a * c - b * c
  {}

  /** The loss of a round trip lies between 0 and (price - 1) / unit rounded up; it is at most
      one collateral unit when the price is at most unit + 1. */
  lemma RoundTripBound(deposit: nat, price: nat, unit: nat, rwa: nat, back: nat)
    requires MintsTo(deposit, price, unit, rwa) && RedeemsTo(rwa, price, unit, back)
    ensures deposit - CeilDiv(price - 1, unit) <= back <= deposit
    ensures price <= unit + 1 ==> deposit - 1 <= back
  {
    RoundTripExact(deposit, price, unit, rwa, back);
    var lost := deposit * unit - rwa * price;
    CeilLeast(CeilDiv(price - 1, unit), lost, unit);
    CeilLeast(1, price - 1, unit);
    CeilLeast(0, lost, unit);
  }

  /** Depositing what a redemption paid mints back at most the RWA redeemed. */
  lemma ReverseRoundTrip(rwa: nat, price: nat, unit: nat, due: nat, back: nat)
    requires RedeemsTo(rwa, price, unit, due) && MintsTo(due, price, unit, back)
    ensures back <= rwa
  {
    CancelFactor(back, rwa, price);
  }

  /** A deposit minted and redeemed again through the checked arithmetic of the hub. */
  lemma RoundTripOfCalls(amount: uint256, price: uint256, multiplier: nat)
    requires multiplier > 0
    ensures var minted := TryMintAmount(amount, price, multiplier);
            minted.Some? ==>
              var back := TryRedemptionAmount(minted.value, price, multiplier);
              back.Some? ==>
                && price > 0
                && amount - CeilDiv(price - 1, Unit(multiplier)) <= back.value <= amount
                && (price <= Unit(multiplier) + 1 ==> amount - 1 <= back.value)
  {
    hide TryMintAmount, TryRedemptionAmount, MintsTo, RedeemsTo;
    var minted := TryMintAmount(amount, price, multiplier);
    if minted.Some? && TryRedemptionAmount(minted.value, price, multiplier).Some? {
      MintAmountIsFloor(amount, price, multiplier);
      RedemptionAmountIsFloor(minted.value, price, multiplier);
      RoundTripBound(amount, price, Unit(multiplier), minted.value,
                     TryRedemptionAmount(minted.value, price, multiplier).value);
    }
  }

  /** RWA redeemed and its proceeds deposited again through the checked arithmetic of the hub. */
  lemma ReverseRoundTripOfCalls(amount: uint256, price: uint256, multiplier: nat)
    requires multiplier > 0
    ensures var due := TryRedemptionAmount(amount, price, multiplier);
            due.Some? ==>
              var back := TryMintAmount(due.value, price, multiplier);
              back.Some? ==> back.value <= amount
  {
    hide TryMintAmount, TryRedemptionAmount, MintsTo, RedeemsTo;
    var due := TryRedemptionAmount(amount, price, multiplier);
    if due.Some? && TryMintAmount(due.value, price, multiplier).Some? {
      RedemptionAmountIsFloor(amount, price, multiplier);
      MintAmountIsFloor(due.value, price, multiplier);
      ReverseRoundTrip(amount, price, Unit(multiplier), due.value, TryMintAmount(due.value, price, multiplier).value);
    }
  }

  lemma FloorPair(q1: nat, q2: nat, q: nat, a1: nat, a2: nat, d: nat)
    requires q1 * d <= a1 < q1 * d + d && q2 * d <= a2 < q2 * d + d && q * d <= a1 + a2 < q * d + d
    ensures q1 + q2 <= q <= q1 + q2 + 1
  {
    FloorUnique(q1, a1, d);
    FloorUnique(q2, a2, d);
    FloorUnique(q, a1 + a2, d);
    FloorSuperadditive(a1, a2, d);
  }

  /** Splitting a deposit in two never mints more, and costs at most one unit. */
  lemma SplitDeposit(d1: nat, d2: nat, price: nat, unit: nat, r1: nat, r2: nat, r: nat)
    requires MintsTo(d1, price, unit, r1) && MintsTo(d2, price, unit, r2)
    requires MintsTo(d1 + d2, price, unit, r)
    ensures r1 + r2 <= r <= r1 + r2 + 1
  {
    assert (d1 + d2) * unit == d1 * unit + d2 * unit;
    FloorPair(r1, r2, r, d1 * unit, d2 * unit, price);
  }

  /** Splitting a redemption in two never pays more, and costs at most one unit. */
  lemma SplitRedemption(x1: nat, x2: nat, price: nat, unit: nat, c1: nat, c2: nat, c: nat)
    requires RedeemsTo(x1, price, unit, c1) && RedeemsTo(x2, price, unit, c2)
    requires RedeemsTo(x1 + x2, price, unit, c)
    ensures c1 + c2 <= c <= c1 + c2 + 1
  {
    assert (x1 + x2) * price == x1 * price + x2 * price;
    FloorPair(c1, c2, c, x1 * price, x2 * price, unit);
  }
}
