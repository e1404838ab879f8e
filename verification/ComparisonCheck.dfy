/** The oracle whose price may move by at most 200 basis points, and by at most 74 more or fewer
    than a Chainlink reference (contracts/rwaOracles/RWAOracleExternalComparisonCheck.sol). */
module ComparisonCheck {
  import opened Words
  import opened Rounding

  const MAX_CL_WINDOW: nat := 90000
  const MAX_CHANGE_DIFF_BPS: nat := 74
  const MAX_ABSOLUTE_DIFF_BPS: nat := 200

  datatype Round = Round(roundId: nat, answer: int256, startedAt: uint256, updatedAt: uint256, answeredInRound: nat)

  datatype Oracle = Oracle(price: int256, timestamp: nat, lastSetRound: Round)

  // ---------------------------------------------------------------- arithmetic

  /** Solidity's signed division truncates toward zero. */
  function TruncDiv(a: int, b: int): int
    requires b != 0
  {
    var q := Abs(a) / Abs(b);
    if (a >= 0) == (b > 0) then q else -q
  }

  /** The remainder of a truncating division is smaller than the divisor and has the dividend's sign. */
  lemma TruncBounds(a: int, b: int)
    requires b != 0
    ensures var e := a - TruncDiv(a, b) * b;
            && Abs(e) < Abs(b)
            && (a >= 0 ==> e >= 0)
            && (a <= 0 ==> e <= 0)
  {
    var q := Abs(a) / Abs(b);
    FloorBounds(Abs(a), Abs(b));
    SignsOfProduct(q, b);
  }

  lemma SignsOfProduct(q: int, b: int)
    ensures -q * b == -(q * b) && q * -b == -(q * b)
  {}

  /** Size and sign of a truncating division. */
  lemma TruncMagnitude(x: int, d: int)
    requires d > 0
    ensures var q := TruncDiv(x, d);
            && Abs(q) * d <= Abs(x) < (Abs(q) + 1) * d
            && (q > 0 ==> x > 0) && (q < 0 ==> x < 0)
            && (x >= 0 ==> q >= 0) && (x <= 0 ==> q <= 0)
  {
    FloorBounds(Abs(x), d);
    FloorGreatest(0, Abs(x), d);
    OneMore(Abs(x) / d, d);
  }

  function PriceChangeBps(previous: int256, next: int256): Option<int256> {
    var change :- Signed(next - previous);
    var scaled :- Signed(change * BPS_DENOMINATOR);
    var _ :- Require(previous != 0);
    Signed(TruncDiv(scaled, previous))
  }

  function AbsUnsigned(x: int256): Option<uint256> {
    if x >= 0 then Some(x)
    else
      var negated :- Signed(-(x as int));
      Some(ToUnsigned(negated))
  }

  // ---------------------------------------------------------------- the oracle

  /** latestRoundData after the corruption checks. */
  function LatestRound(now: nat, response: Round): Option<Round> {
    if || response.answer < 0
       || response.roundId != response.answeredInRound
       || response.roundId == 0
       || response.updatedAt == 0
       || response.updatedAt > now
    then None else Some(response)
  }

  function FreshRound(now: nat, response: Round): Option<Round> {
    var round :- LatestRound(now, response);
    var limit :- Unsigned(round.updatedAt + MAX_CL_WINDOW);
    var _ :- Require(now <= limit);
    Some(round)
  }

  /** The constructor: any initial price is stored, even a non-positive one. */
  function Create(now: nat, response: Round, chainlinkDecimals: nat, initialPrice: int256): Option<Oracle> {
    var _ :- Require(chainlinkDecimals == 8);
    var round :- FreshRound(now, response);
    Some(Oracle(initialPrice, now, round))
  }

  function TrySetPrice(o: Oracle, now: nat, response: Round, price: int256): Option<Oracle> {
    var _ :- Require(price > 0);
    var round :- FreshRound(now, response);
    var _ :- Require(round.roundId != o.lastSetRound.roundId);
    var opens :- Unsigned(o.timestamp + MIN_PRICE_UPDATE_WINDOW);
    var _ :- Require(now >= opens);
    var rwaBps :- PriceChangeBps(o.price, price);
    var rwaMove :- AbsUnsigned(rwaBps);
    var _ :- Require(rwaMove <= MAX_ABSOLUTE_DIFF_BPS);
    var clBps :- PriceChangeBps(o.lastSetRound.answer, round.answer);
    var clMove :- AbsUnsigned(clBps);
    if clMove <= MAX_ABSOLUTE_DIFF_BPS + MAX_CHANGE_DIFF_BPS then
      var difference :- Signed(rwaBps - clBps);
      var gap :- AbsUnsigned(difference);
      var _ :- Require(gap <= MAX_CHANGE_DIFF_BPS);
      Some(Oracle(price, now, round))
    else
      Some(Oracle(price, now, round))
  }

  class RWAOracleExternalComparisonCheck {
    var rwaPrice: int256
    var priceTimestamp: nat
    var lastSetRound: Round

    function State(): Oracle
      reads this
    {
      Oracle(rwaPrice, priceTimestamp, lastSetRound)
    }

    constructor (now: nat, response: Round, chainlinkDecimals: nat, initialPrice: int256)
      requires Create(now, response, chainlinkDecimals, initialPrice).Some?
      ensures Create(now, response, chainlinkDecimals, initialPrice) == Some(State())
    {
      rwaPrice := initialPrice;
      priceTimestamp := now;
      lastSetRound := response;
    }

    method GetPriceData() returns (price: uint256, timestamp: nat)
      ensures price == ToUnsigned(State().price) && timestamp == State().timestamp
    {
      return ToUnsigned(rwaPrice), priceTimestamp;
    }

    method SetPrice(now: nat, response: Round, newPrice: int256) returns (ok: bool)
      modifies this
      ensures Transacts(ok, old(State()), State(), TrySetPrice(old(State()), now, response, newPrice))
    {
      if newPrice <= 0 {
        return false;
      }
      var round := FreshRound(now, response);
      if round.None? || round.value.roundId == lastSetRound.roundId {
        return false;
      }
      var opens := Unsigned(priceTimestamp + MIN_PRICE_UPDATE_WINDOW);
      if opens.None? || now < opens.value {
        return false;
      }
      var rwaBps := PriceChangeBps(rwaPrice, newPrice);
      if rwaBps.None? {
        return false;
      }
      var rwaMove := AbsUnsigned(rwaBps.value);
      if rwaMove.None? || rwaMove.value > MAX_ABSOLUTE_DIFF_BPS {
        return false;
      }
      var clBps := PriceChangeBps(lastSetRound.answer, round.value.answer);
      if clBps.None? {
        return false;
      }
      var clMove := AbsUnsigned(clBps.value);
      if clMove.None? {
        return false;
      }
      if clMove.value <= MAX_ABSOLUTE_DIFF_BPS + MAX_CHANGE_DIFF_BPS {
        var difference := Signed(rwaBps.value - clBps.value);
        if difference.None? {
          return false;
        }
        var gap := AbsUnsigned(difference.value);
        if gap.None? || gap.value > MAX_CHANGE_DIFF_BPS {
          return false;
        }
      }
      rwaPrice := newPrice;
      priceTimestamp := now;
      lastSetRound := round.value;
      return true;
    }
  }

  // ---------------------------------------------------------------- one update

  /** The reference moved so far that the comparison is skipped. */
  predicate Ignored(lastAnswer: int256, answer: int256) {
    var bps := PriceChangeBps(lastAnswer, answer);
    bps.Some? && Abs(bps.value) > MAX_ABSOLUTE_DIFF_BPS + MAX_CHANGE_DIFF_BPS
  }

  /** An oracle holding a non-positive price never accepts an update. */
  lemma NonPositiveNeverAccepts(o: Oracle, now: nat, response: Round, price: int256)
    requires o.price <= 0
    ensures TrySetPrice(o, now, response, price).None?
  {
    if price > 0 && o.price < 0 {
      var scaled := (price - o.price) * BPS_DENOMINATOR;
      FloorGreatest(201, scaled, -(o.price as int));
      assert TruncDiv(scaled, o.price) <= -201;
    }
  }

  /** An accepted price lies strictly within 201 basis points of the old one. */
  lemma OneUpdateBounds(o: Oracle, now: nat, response: Round, price: int256)
    requires TrySetPrice(o, now, response, price).Some?
    ensures o.price > 0 && price > 0
    ensures 9799 * o.price < 10000 * price < 10201 * o.price
    ensures now >= o.timestamp + MIN_PRICE_UPDATE_WINDOW
    ensures TrySetPrice(o, now, response, price) == Some(Oracle(price, now, response))
  {
    if o.price <= 0 {
      NonPositiveNeverAccepts(o, now, response, price);
    } else {
      var scaled := (price - o.price) * BPS_DENOMINATOR;
      TruncBounds(scaled, o.price);
      var q := TruncDiv(scaled, o.price);
      assert -200 <= q <= 200;
      MulMono(q, 200, o.price);
      MulMono(-200, q, o.price);
    }
  }

  lemma BoundedMultiple(n: int, bound: nat, c: nat)
    ensures Abs(n) <= bound ==> Abs(n * c) <= bound * c
    ensures Abs(n) < bound && c > 0 ==> Abs(n * c) < bound * c
    ensures n >= 0 ==> n * c >= 0
    ensures n <= 0 ==> n * c <= 0
  {
    if Abs(n) <= bound { MulMono(n, bound, c); MulMono(-(bound as int), n, c); }
    if Abs(n) < bound && c > 0 { MulMonoStrict(n, bound, c); MulMonoStrict(-(bound as int), n, c); }
    if n >= 0 { MulMono(0, n, c); }
    if n <= 0 { MulMono(n, 0, c); }
  }

  /** Cross-multiplied changes q p + e and r a + f: the quotients' difference and the truncation errors. */
  lemma CrossDifference(p: int, a: int, q: int, r: int, e: int, f: int)
    ensures (q * p + e) * a - (r * a + f) * p == (q - r) * (p * a) + (e * a - f * p)
  {
    assert (q * p + e) * a == q * (p * a) + e * a;
    assert (r * a + f) * p == r * (p * a) + f * p;
  }

  /** Two errors below their divisors: their cross difference is below 2 p a, and below p a
      when they have the same sign. */
  lemma CrossErrors(e: int, f: int, p: nat, a: nat)
    requires p > 0 && a > 0 && Abs(e) < p && Abs(f) < a
    ensures Abs(e * a - f * p) < 2 * (p * a)
    ensures (e >= 0 && f >= 0) || (e <= 0 && f <= 0) ==> Abs(e * a - f * p) < p * a
  {
    BoundedMultiple(e, p, a);
    BoundedMultiple(f, a, p);
    assert a * p == p * a;
  }

  lemma DeviationFromErrors(x: int, y: int, p: nat, a: nat, q: int, r: int)
    requires p > 0 && a > 0 && Abs(q - r) <= 74
    requires Abs(x - q * p) < p && Abs(y - r * a) < a
    ensures Abs(x * a - y * p) < 76 * (p * a)
    ensures (x - q * p >= 0 && y - r * a >= 0) || (x - q * p <= 0 && y - r * a <= 0) ==>
              Abs(x * a - y * p) < 75 * (p * a)
  {
    var e, f := x - q * p, y - r * a;
    var P := p * a;
    CrossErrors(e, f, p, a);
    BoundedMultiple(q - r, 74, P);
    CrossDifference(p, a, q, r, e, f);
    assert q * p + e == x && r * a + f == y;
  }

  /** |dp/p - da/a| < bps/10000, cleared of fractions. */
  predicate DeviationBelow(bps: nat, dp: int, p: int, da: int, a: int) {
    10000 * Abs(dp * a - da * p) < bps * (p * a)
  }

  lemma ScaleCross(dp: int, da: int, p: int, a: int)
    ensures (dp * 10000) * a - (da * 10000) * p == 10000 * (dp * a - da * p)
  {}

  lemma DeviationOfChanges(dp: int, da: int, p: nat, a: nat, q: int, r: int)
    requires p > 0 && a > 0 && Abs(q - r) <= 74
    requires q == TruncDiv(dp * BPS_DENOMINATOR, p) && r == TruncDiv(da * BPS_DENOMINATOR, a)
    ensures DeviationBelow(76, dp, p, da, a)
    ensures (dp >= 0 && da >= 0) || (dp <= 0 && da <= 0) ==> DeviationBelow(75, dp, p, da, a)
  {
    TruncBounds(dp * BPS_DENOMINATOR, p);
    TruncBounds(da * BPS_DENOMINATOR, a);
    DeviationFromErrors(dp * BPS_DENOMINATOR, da * BPS_DENOMINATOR, p, a, q, r);
    ScaleCross(dp, da, p, a);
  }

  lemma AcceptedAnswer(o: Oracle, now: nat, response: Round, price: int256)
    requires TrySetPrice(o, now, response, price).Some?
    ensures o.lastSetRound.answer != 0
  {}

  /** The two changes setPrice compares when it does not ignore the round. */
  lemma ComparedChanges(o: Oracle, now: nat, response: Round, price: int256)
    requires TrySetPrice(o, now, response, price).Some?
    requires o.price > 0 && o.lastSetRound.answer > 0
    requires !Ignored(o.lastSetRound.answer, response.answer)
    ensures Abs(TruncDiv((price - o.price) * BPS_DENOMINATOR, o.price)
                - TruncDiv((response.answer - o.lastSetRound.answer) * BPS_DENOMINATOR, o.lastSetRound.answer)) <= 74
  {}

  /** The true relative change of the accepted price differs from that of the reference by less
      than 76 basis points, although both are compared after truncation; by less than 75 when the
      two do not move in opposite directions. */
  lemma TrueDeviation(o: Oracle, now: nat, response: Round, price: int256)
    requires TrySetPrice(o, now, response, price).Some?
    requires o.lastSetRound.answer >= 0
    requires !Ignored(o.lastSetRound.answer, response.answer)
    ensures var dp, da := price - o.price, response.answer - o.lastSetRound.answer;
            && DeviationBelow(76, dp, o.price, da, o.lastSetRound.answer)
            && ((dp >= 0 && da >= 0) || (dp <= 0 && da <= 0) ==>
                  DeviationBelow(75, dp, o.price, da, o.lastSetRound.answer))
  {
    hide TrySetPrice, TruncDiv, DeviationBelow;
    OneUpdateBounds(o, now, response, price);
    AcceptedAnswer(o, now, response, price);
    ComparedChanges(o, now, response, price);
    var p, a := o.price, o.lastSetRound.answer;
    var dp: int, da: int := price - p, response.answer - a;
    DeviationOfChanges(dp, da, p, a, TruncDiv(dp * BPS_DENOMINATOR, p), TruncDiv(da * BPS_DENOMINATOR, a));
  }

  /** A pair of basis-point changes that passes both limits. */
  predicate Passes(rwaBps: int, clBps: int) {
    Abs(rwaBps) <= MAX_ABSOLUTE_DIFF_BPS && Abs(rwaBps - clBps) <= MAX_CHANGE_DIFF_BPS
  }

  /** The ignore threshold is exact: 274 is the largest reference change some price change can follow. */
  lemma IgnoreThresholdIsExact(clBps: int)
    ensures (exists rwaBps :: Passes(rwaBps, clBps)) <==> Abs(clBps) <= MAX_ABSOLUTE_DIFF_BPS + MAX_CHANGE_DIFF_BPS
  {
    if Abs(clBps) <= 274 {
      assert Passes(Followed(clBps), clBps);
    }
  }

  /** The allowed price change closest to the reference change. */
  function Followed(clBps: int): (bps: int)
    ensures Abs(bps) <= 200
    ensures Abs(clBps) <= 274 ==> Passes(bps, clBps)
    ensures Abs(clBps) > 274 ==> bps == 0
  {
    if Abs(clBps) > 274 then 0
    else if clBps > 200 then 200
    else if clBps < -200 then -200
    else clBps
  }

  /** Everything setPrice asks for that does not depend on the submitted price: a consistent round,
      other than the stored one, at most 25 hours old, and 23 hours since the last update. */
  predicate Usable(o: Oracle, now: nat, response: Round) {
    && response.answer >= 0
    && 0 < response.roundId == response.answeredInRound != o.lastSetRound.roundId
    && 0 < response.updatedAt <= now <= response.updatedAt + MAX_CL_WINDOW < TWO_256
    && o.timestamp + MIN_PRICE_UPDATE_WINDOW < TWO_256
    && now >= o.timestamp + MIN_PRICE_UPDATE_WINDOW
  }

  /** The constructor accepts exactly a consistent round, at most 25 hours old, of a reference with 8 decimals; it
      stores the price, the block time and the round as given. */
  lemma CreateExactly(now: nat, response: Round, decimals: nat, price: int256)
    ensures Create(now, response, decimals, price) ==
            if && decimals == 8
               && response.answer >= 0
               && 0 < response.roundId == response.answeredInRound
               && 0 < response.updatedAt <= now <= response.updatedAt + 90000 < TWO_256
            then Some(Oracle(price, now, response)) else None
  {}

  /** The exact acceptance region of setPrice: a positive price strictly within 201 basis points of the
      old one which, unless the reference moved by 275 basis points or more, follows its truncated change
      to within 74. */
  lemma SetPriceAcceptsExactly(o: Oracle, now: nat, response: Round, price: int256)
    requires o.price > 0 && o.lastSetRound.answer > 0
    ensures var dp := (price - o.price) * BPS_DENOMINATOR;
            var da := (response.answer - o.lastSetRound.answer) * BPS_DENOMINATOR;
            TrySetPrice(o, now, response, price) ==
            if && price > 0
               && Usable(o, now, response)
               && Signed(dp).Some? && Signed(da).Some?
               && Abs(dp) < 201 * o.price
               && (|| Abs(da) >= 275 * o.lastSetRound.answer
                   || Abs(TruncDiv(dp, o.price) - TruncDiv(da, o.lastSetRound.answer)) <= MAX_CHANGE_DIFF_BPS)
            then Some(Oracle(price, now, response)) else None
  {
    hide PriceChangeBps, TruncDiv;
    if price > 0 && response.answer >= 0 {
      var a := o.lastSetRound.answer;
      ChangeIs(o.price, price);
      ChangeIs(a, response.answer);
      TruncWithin((price - o.price) * BPS_DENOMINATOR, o.price, 200);
      TruncWithin((response.answer - a) * BPS_DENOMINATOR, a, 274);
    }
  }

  lemma ChangeIs(previous: int256, next: int256)
    requires previous > 0 && next >= 0
    ensures var scaled := (next - previous) * BPS_DENOMINATOR;
            && (Signed(scaled).Some? ==> -TWO_255 < TruncDiv(scaled, previous) < TWO_255)
            && PriceChangeBps(previous, next) ==
               if Signed(scaled).Some? then Some(TruncDiv(scaled, previous)) else None
  {
    var scaled := (next - previous) * BPS_DENOMINATOR;
    if Signed(scaled).Some? { TruncatedFits(scaled, previous); }
  }

  lemma TruncWithin(x: int, d: int, bound: nat)
    requires d > 0
    ensures Abs(TruncDiv(x, d)) <= bound <==> Abs(x) < (bound + 1) * d
  {
    if Abs(x) < (bound + 1) * d { FloorLess(bound + 1, Abs(x), d); } else { FloorGreatest(bound + 1, Abs(x), d); }
  }

  predicate Accepts(o: Oracle, now: nat, response: Round, price: int256) {
    TrySetPrice(o, now, response, price).Some?
  }

  // ---------------------------------------------------------------- which oracles can move

  /** The price-dependent part of acceptance, against a reference change of clBps. */
  predicate Moves(price: int, next: int, clBps: int)
    requires price > 0
  {
    var dp := (next - price) * BPS_DENOMINATOR;
    && 0 < next <= MAX_INT256
    && Signed(dp).Some?
    && Abs(dp) < 201 * price
    && (Abs(clBps) > 274 || Abs(TruncDiv(dp, price) - clBps) <= MAX_CHANGE_DIFF_BPS)
  }

  /** Least and largest basis points a price may move to follow the reference. */
  function LeastBps(clBps: int): nat {
    if Abs(clBps) > 274 || Abs(clBps) < 74 then 0 else Abs(clBps) - 74
  }

  function MostBps(clBps: int): nat { Min(Abs(clBps) + 74, 200) }

  /** The smallest whole-unit move of at least LeastBps, in the direction of the reference. */
  function LeastMove(price: nat, clBps: int): nat {
    CeilDiv(LeastBps(clBps) * price, BPS_DENOMINATOR)
  }

  function NearestPrice(price: nat, clBps: int): int {
    if clBps >= 0 then price + LeastMove(price, clBps) else price - LeastMove(price, clBps)
  }

  /** The smallest move does not overshoot, and nothing overflows. */
  predicate CanFollow(price: nat, clBps: int) {
    || Abs(clBps) > 274
    || (&& LeastMove(price, clBps) * BPS_DENOMINATOR < (MostBps(clBps) + 1) * price
        && Signed(NearestPrice(price, clBps)).Some?
        && Signed((NearestPrice(price, clBps) - price) * BPS_DENOMINATOR).Some?)
  }

  /** The window is 23 hours to the second, and a round may be 25 hours old to the second. */
  lemma WindowsAreSharp(o: Oracle, response: Round, price: int256)
    requires o.price > 0 && o.lastSetRound.answer > 0
    requires response.answer == o.lastSetRound.answer
    requires 0 < response.roundId == response.answeredInRound != o.lastSetRound.roundId
    requires 0 < response.updatedAt < TWO_256 - 25 * 60 * 60
    ensures TrySetPrice(o, o.timestamp + 23 * 60 * 60 - 1, response, price).None?
    ensures response.updatedAt <= o.timestamp + 23 * 60 * 60 <= response.updatedAt + 25 * 60 * 60 ==>
              TrySetPrice(o, o.timestamp + 23 * 60 * 60, response, o.price).Some?
    ensures response.updatedAt + 2 * 60 * 60 == o.timestamp ==>
              && TrySetPrice(o, response.updatedAt + 25 * 60 * 60, response, o.price).Some?
              && TrySetPrice(o, response.updatedAt + 25 * 60 * 60 + 1, response, o.price).None?
  {
    hide TrySetPrice, TruncDiv;
    var opens, late := o.timestamp + 23 * 60 * 60, response.updatedAt + 25 * 60 * 60;
    TruncWithin(0, o.price, 0);
    TruncWithin(0, o.lastSetRound.answer, 0);
    SetPriceAcceptsExactly(o, opens - 1, response, price);
    SetPriceAcceptsExactly(o, opens, response, o.price);
    SetPriceAcceptsExactly(o, late, response, o.price);
    SetPriceAcceptsExactly(o, late + 1, response, o.price);
  }

  lemma NearestPriceMoves(price: int256, clBps: int)
    requires price > 0 && CanFollow(price, clBps)
    ensures Moves(price, NearestPrice(price, clBps), clBps)
  {
    hide TruncDiv, CeilDiv;
    var next := NearestPrice(price, clBps);
    var dp := (next - price) * BPS_DENOMINATOR;
    if Abs(clBps) > 274 {
      CeilLeast(0, 0, BPS_DENOMINATOR);
    } else {
      CeilLeast(LeastMove(price, clBps), LeastBps(clBps) * price, BPS_DENOMINATOR);
      MulMono(MostBps(clBps) + 1, 201, price);
      QuotientInRange(dp, price, LeastBps(clBps), MostBps(clBps));
    }
  }

  lemma QuotientInRange(x: int, d: nat, lo: nat, hi: nat)
    requires d > 0 && lo * d <= Abs(x) < (hi + 1) * d
    ensures lo <= Abs(TruncDiv(x, d)) <= hi
    ensures (x >= 0 ==> TruncDiv(x, d) >= 0) && (x <= 0 ==> TruncDiv(x, d) <= 0)
  {
    FloorGreatest(lo, Abs(x), d);
    FloorLess(hi + 1, Abs(x), d);
  }

  lemma MovesCanFollow(price: int256, next: int256, clBps: int)
    requires price > 0 && Moves(price, next, clBps)
    ensures CanFollow(price, clBps)
  {
    hide TruncDiv, CeilDiv;
    var dp := (next - price) * BPS_DENOMINATOR;
    var q := TruncDiv(dp, price);
    TruncMagnitude(dp, price);
    TruncWithin(dp, price, 200);
    CeilLeast(if LeastBps(clBps) == 0 then 0 else Abs(next - price), LeastBps(clBps) * price, BPS_DENOMINATOR);
    if Abs(clBps) <= 274 {
      MulMono(LeastBps(clBps), Abs(q), price);
      MulMono(Abs(q) + 1, MostBps(clBps) + 1, price);
      MulMono(1, MostBps(clBps) + 1, price);
    }
  }

  /** The oracle can move exactly when its price is positive, the round is usable, the previous answer
      is not zero, the scaled change of the reference fits in a signed word, and the smallest whole-unit
      move towards that change does not overshoot. */
  lemma CanAlwaysMove(o: Oracle, now: nat, response: Round)
    requires o.lastSetRound.answer >= 0
    ensures (exists price: int256 :: Accepts(o, now, response, price)) <==>
            && o.price > 0
            && o.lastSetRound.answer > 0
            && Usable(o, now, response)
            && var scaled := (response.answer - o.lastSetRound.answer) * BPS_DENOMINATOR;
               Signed(scaled).Some? && CanFollow(o.price, TruncDiv(scaled, o.lastSetRound.answer))
  {
    hide TrySetPrice, TruncDiv, Moves, CanFollow, NearestPrice;
    var a := o.lastSetRound.answer;
    if o.price <= 0 {
      forall price: int256 ensures !Accepts(o, now, response, price) {
        NonPositiveNeverAccepts(o, now, response, price);
      }
    } else if a == 0 {
      forall price: int256 ensures !Accepts(o, now, response, price) {
        ZeroAnswerNeverAccepts(o, now, response, price);
      }
    } else {
      var scaled := (response.answer - a) * BPS_DENOMINATOR;
      var clBps := TruncDiv(scaled, a);
      forall price: int256
        ensures Accepts(o, now, response, price) <==>
                Usable(o, now, response) && Signed(scaled).Some? && Moves(o.price, price, clBps)
      {
        AcceptsWhenMoves(o, now, response, price);
      }
      if Usable(o, now, response) && Signed(scaled).Some? && CanFollow(o.price, clBps) {
        NearestPriceMoves(o.price, clBps);
        MovesIsSigned(o.price, NearestPrice(o.price, clBps), clBps);
        assert Accepts(o, now, response, NearestPrice(o.price, clBps));
      }
      forall price: int256 | Accepts(o, now, response, price) ensures CanFollow(o.price, clBps) {
        MovesCanFollow(o.price, price, clBps);
      }
    }
  }

  lemma MovesIsSigned(price: int, next: int, clBps: int)
    requires price > 0 && Moves(price, next, clBps)
    ensures Signed(next).Some?
  {}

  lemma AcceptsWhenMoves(o: Oracle, now: nat, response: Round, price: int256)
    requires o.price > 0 && o.lastSetRound.answer > 0
    ensures var scaled := (response.answer - o.lastSetRound.answer) * BPS_DENOMINATOR;
            Accepts(o, now, response, price) <==>
            && Usable(o, now, response) && Signed(scaled).Some?
            && Moves(o.price, price, TruncDiv(scaled, o.lastSetRound.answer))
  {
    hide TrySetPrice, TruncDiv;
    SetPriceAcceptsExactly(o, now, response, price);
    TruncWithin((response.answer - o.lastSetRound.answer) * BPS_DENOMINATOR, o.lastSetRound.answer, 274);
  }

  lemma ZeroAnswerNeverAccepts(o: Oracle, now: nat, response: Round, price: int256)
    requires o.lastSetRound.answer == 0
    ensures !Accepts(o, now, response, price)
  {}

  /** From 10000 units up (and 201 times the price representable) every reference change can be
      followed; up to 49 units none between 75 and 274 basis points can. */
  lemma FollowingByPrice(price: nat, clBps: int)
    requires price > 0
    ensures price >= 10000 && 201 * price <= MAX_INT256 ==> CanFollow(price, clBps)
    ensures price <= 49 && 75 <= Abs(clBps) <= 274 ==> !CanFollow(price, clBps)
  {
    hide CeilDiv;
    var lo, hi := LeastBps(clBps), MostBps(clBps);
    var move := LeastMove(price, clBps);
    CeilLeast(move, lo * price, BPS_DENOMINATOR);
    CeilLeast((move as int) - 1, lo * price, BPS_DENOMINATOR);
    if Abs(clBps) <= 274 {
      assert lo <= hi <= 200;
      MulMono(lo + 1, hi + 1, price);
      MulMono(hi + 1, 201, price);
      assert (lo + 1) * price == lo * price + price;
      if lo >= 1 { MulMono(1, lo, price); }
    }
  }

  /** In between it depends on both: 5000 units can follow every reference change, 5001 cannot follow
      one of 274 basis points. */
  lemma FollowingInBetween(clBps: int)
    ensures CanFollow(5000, clBps) && !CanFollow(5001, 274)
  {
    var lo := LeastBps(clBps);
    CeilLeast((lo + 1) / 2, lo * 5000, BPS_DENOMINATOR);
    CeilLeast(100, 200 * 5001, BPS_DENOMINATOR);
  }

  /** The bounds of `TrueDeviation` are the least whole ones, and a price may change by more than
      200 basis points: three updates accepted by an oracle as constructed with a price and an answer of
      1000000. */
  lemma DeviationIsSharp(now: nat)
    requires 200000 <= now <= MAX_UINT256 - MAX_CL_WINDOW
    ensures var first := Round(1, 1000000, 1, 100000, 1);
            var o := Oracle(1000000, 100000, first);
            && Create(100000, first, 8, 1000000) == Some(o)
            && Accepts(o, now, Round(2, 992501, 1, now, 2), 1000000)
            && !DeviationBelow(74, 1000000 - o.price, o.price, 992501 - 1000000, 1000000)
            && Accepts(o, now, Round(2, 992501, 1, now, 2), 1000099)
            && !DeviationBelow(75, 1000099 - o.price, o.price, 992501 - 1000000, 1000000)
            && Accepts(o, now, Round(2, 1020000, 1, now, 2), 1020099)
            && (1020099 - o.price) * BPS_DENOMINATOR > 200 * o.price
  {
    hide TrySetPrice;
    var o := Oracle(1000000, 100000, Round(1, 1000000, 1, 100000, 1));
    SetPriceAcceptsExactly(o, now, Round(2, 992501, 1, now, 2), 1000000);
    SetPriceAcceptsExactly(o, now, Round(2, 992501, 1, now, 2), 1000099);
    SetPriceAcceptsExactly(o, now, Round(2, 1020000, 1, now, 2), 1020099);
  }

  lemma TruncatedFits(x: int256, a: int256)
    requires a > 0
    ensures Abs(TruncDiv(x, a)) <= Abs(x)
    ensures x > -TWO_255 ==> Signed(-TruncDiv(x, a)).Some?
    ensures x % 10000 == 0 ==> x > -TWO_255
    ensures Signed(TruncDiv(x, a)).Some?
  {
    FloorGreatest(0, Abs(x), a);
    MulMono(1, a, Abs(x) + 1);
    FloorLess(Abs(x) + 1, Abs(x), a);
  }

  // ---------------------------------------------------------------- runs

  datatype Update = Update(now: nat, response: Round, price: int256)

  function After(o: Oracle, updates: seq<Update>): Oracle {
    if updates == [] then o
    else
      var before := After(o, updates[..|updates| - 1]);
      var u := updates[|updates| - 1];
      match TrySetPrice(before, u.now, u.response, u.price)
      case Some(next) => next
      case None => before
  }

  function Accepted(o: Oracle, updates: seq<Update>): nat {
    if updates == [] then 0
    else
      var init := updates[..|updates| - 1];
      var u := updates[|updates| - 1];
      Accepted(o, init) + if TrySetPrice(After(o, init), u.now, u.response, u.price).Some? then 1 else 0
  }

  /** The initial price and the price after each accepted update. */
  function Prices(o: Oracle, updates: seq<Update>): seq<int> {
    if updates == [] then [o.price]
    else
      var init, u := updates[..|updates| - 1], updates[|updates| - 1];
      Prices(o, init) + if TrySetPrice(After(o, init), u.now, u.response, u.price).Some? then [u.price as int] else []
  }

  lemma {:induction false} PricesFormChain(o: Oracle, updates: seq<Update>)
    requires o.price > 0
    ensures var prices := Prices(o, updates);
            && |prices| == Accepted(o, updates) + 1
            && prices[0] == o.price && prices[|prices| - 1] == After(o, updates).price
            && IsChain(prices, 9799, 10000, 10201)
    ensures After(o, updates).timestamp >= o.timestamp + Accepted(o, updates) * MIN_PRICE_UPDATE_WINDOW
  {
    hide TrySetPrice;
    if updates == [] {
    } else {
      var init, u := updates[..|updates| - 1], updates[|updates| - 1];
      var before := After(o, init);
      PricesFormChain(o, init);
      assert Prices(o, init) + [] == Prices(o, init);
      if TrySetPrice(before, u.now, u.response, u.price).Some? {
        OneUpdateBounds(before, u.now, u.response, u.price);
        assert (Prices(o, init) + [u.price as int])[..|Prices(o, init)|] == Prices(o, init);
      }
    }
  }

  /** After k accepted updates from a positive price the price is positive and has moved by less
      than k compounded 201 basis points (strictly, once k is positive), and k windows have passed. */
  lemma CompoundedBounds(o: Oracle, updates: seq<Update>)
    requires o.price > 0
    ensures var k, last := Accepted(o, updates), After(o, updates);
            && last.price > 0
            && (k > 0 ==> Pow(9799, k) * o.price < Pow(10000, k) * last.price < Pow(10201, k) * o.price)
            && last.timestamp >= o.timestamp + k * MIN_PRICE_UPDATE_WINDOW
  {
    hide *;
    PricesFormChain(o, updates);
    CompoundChain(Prices(o, updates), 9799, 10000, 10201);
  }

  /** Two ways to be stuck forever: a non-positive price, or a stored reference answer of zero. */
  predicate Stuck(o: Oracle) {
    o.price <= 0 || o.lastSetRound.answer == 0
  }

  lemma {:induction false} StuckForever(o: Oracle, updates: seq<Update>)
    requires Stuck(o)
    ensures After(o, updates) == o && Accepted(o, updates) == 0
  {
    if updates == [] {
    } else {
      var init, u := updates[..|updates| - 1], updates[|updates| - 1];
      StuckForever(o, init);
      if o.price <= 0 {
        NonPositiveNeverAccepts(o, u.now, u.response, u.price);
      }
    }
  }

  /** Exactly the stuck oracles never change again: any other still accepts its own price with the same
      answer in a new round (as long as the clock has room left). */
  lemma StuckExactly(o: Oracle)
    requires o.lastSetRound.answer >= 0
    requires o.timestamp + MIN_PRICE_UPDATE_WINDOW + MAX_CL_WINDOW < TWO_256
    ensures Stuck(o) <==> forall updates: seq<Update> :: After(o, updates) == o
  {
    hide TrySetPrice;
    if Stuck(o) {
      forall updates: seq<Update> ensures After(o, updates) == o { StuckForever(o, updates); }
    } else {
      var now, id := o.timestamp + MIN_PRICE_UPDATE_WINDOW, if o.lastSetRound.roundId == 1 then 2 else 1;
      var u := Update(now, Round(id, o.lastSetRound.answer, 0, now, id), o.price);
      FloorUnique(0, 0, o.price);
      FloorUnique(0, 0, o.lastSetRound.answer);
      SetPriceAcceptsExactly(o, now, u.response, o.price);
      assert Usable(o, now, u.response);
      assert TrySetPrice(o, now, u.response, o.price) == Some(Oracle(o.price, now, u.response));
      assert [u][..|[u]| - 1] == [];
      assert After(o, [u]).timestamp != o.timestamp;
    }
  }

  /** A stored answer is never negative: the constructor and setPrice refuse such rounds. */
  lemma {:induction false} StoredAnswerIsNotNegative(
    now: nat, response: Round, decimals: nat, price: int256, updates: seq<Update>)
    requires Create(now, response, decimals, price).Some?
    ensures After(Create(now, response, decimals, price).value, updates).lastSetRound.answer >= 0
  {
    hide PriceChangeBps, TruncDiv;
    if updates == [] {
    } else {
      StoredAnswerIsNotNegative(now, response, decimals, price, updates[..|updates| - 1]);
    }
  }

  lemma {:induction false} StuckAfter(o: Oracle, u: Update, later: seq<Update>)
    requires TrySetPrice(o, u.now, u.response, u.price).Some?
    requires Stuck(TrySetPrice(o, u.now, u.response, u.price).value)
    ensures After(o, [u] + later) == TrySetPrice(o, u.now, u.response, u.price).value
  {
    hide TrySetPrice, Stuck;
    if later == [] {
      assert [u] + later == [u] && [u][..0] == [];
    } else {
      var init, v := later[..|later| - 1], later[|later| - 1];
      assert ([u] + later)[..|later|] == [u] + init;
      StuckAfter(o, u, init);
      StuckForever(After(o, [u] + init), [v]);
      assert [v][..0] == [];
    }
  }

  /** A usable round that answers zero counts as ignored: it is stored with any price strictly within
      201 basis points, and the oracle keeps both whatever is submitted later. */
  lemma ZeroAnswerIsStoredAndFinal(o: Oracle, now: nat, response: Round, price: int256, later: seq<Update>)
    requires 0 < o.price && 0 < o.lastSetRound.answer && Signed(10000 * o.lastSetRound.answer).Some?
    requires Usable(o, now, response) && response.answer == 0
    requires 0 < price && Signed((price - o.price) * BPS_DENOMINATOR).Some?
    requires Abs(price - o.price) * BPS_DENOMINATOR < 201 * o.price
    ensures After(o, [Update(now, response, price)] + later) == Oracle(price, now, response)
  {
    hide TrySetPrice, TruncDiv;
    SetPriceAcceptsExactly(o, now, response, price);
    StuckAfter(o, Update(now, response, price), later);
  }
}
