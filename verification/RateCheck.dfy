/** The oracle whose price may move by at most 1% every 23 hours
    (contracts/rwaOracles/RWAOracleRateCheck.sol). */
module RateCheck {
  import opened Words
  import opened Rounding

  const MAX_CHANGE_DIFF_BPS: nat := 100

  // ---------------------------------------------------------------- EVM instructions

  function Mul(x: uint256, y: uint256): uint256 { (x * y) % TWO_256 }

  function Add(x: uint256, y: uint256): uint256 { (x + y) % TWO_256 }

  function Div(x: uint256, y: uint256): uint256 {
    if y == 0 then 0 else QuotientIsWord(x, y); x / y
  }

  function Mod(x: uint256, y: uint256): uint256 { if y == 0 then 0 else x % y }

  function Gt(x: uint256, y: uint256): uint256 { if x > y then 1 else 0 }

  function IsZero(x: uint256): uint256 { if x == 0 then 1 else 0 }

  lemma QuotientIsWord(x: uint256, y: uint256)
    requires y > 0
    ensures 0 <= x / y <= x
  {
    FloorGreatest(0, x, y);
    MulMono(1, y, x + 1);
    FloorLess(x + 1, x, y);
  }

  /** The assembly block, instruction by instruction, on wrapping words. */
  function MulDivUp(x: uint256, y: uint256, denominator: uint256): Option<uint256> {
    if IsZero(Mul(denominator, IsZero(Mul(y, Gt(x, Div(MAX_UINT256, y)))))) != 0 then
      None
    else
      Some(Add(Gt(Mod(Mul(x, y), denominator), 0), Div(Mul(x, y), denominator)))
  }

  lemma QuotientTest(x: uint256, y: uint256)
    requires y > 0
    ensures x > MAX_UINT256 / y <==> x * y > MAX_UINT256
  {
    if x > MAX_UINT256 / y {
      FloorBounds(MAX_UINT256, y);
      MulMono(MAX_UINT256 / y + 1, x, y);
    } else {
      FloorBounds(MAX_UINT256, y);
      MulMono(x, MAX_UINT256 / y, y);
    }
  }

  /** The branch test of the assembly reverts exactly on a zero denominator or an overflowing product. */
  lemma MulDivUpReverts(x: uint256, y: uint256, d: uint256)
    ensures MulDivUp(x, y, d).None? <==> d == 0 || x * y > MAX_UINT256
  {
    if y == 0 {
      assert Mul(y, Gt(x, Div(MAX_UINT256, y))) == 0;
    } else {
      QuotientTest(x, y);
      assert Mul(y, 1) == y && Mul(y, 0) == 0;
    }
    assert Mul(d, 1) == d && Mul(d, 0) == 0;
  }

  /** The value the assembly computes once the product is known not to wrap. */
  lemma CeilingInWords(p: uint256, d: uint256)
    requires d != 0
    ensures Add(Gt(Mod(p, d), 0), Div(p, d)) == CeilDiv(p, d)
  {
    QuotientIsWord(p, d);
    FloorBounds(p, d);
    if p % d > 0 {
      assert p / d < MAX_UINT256;
    }
  }

  /** On wrapping words the assembly is the mathematical ceiling, and reverts exactly
      when the denominator is zero or the product leaves 256 bits. */
  lemma MulDivUpIsCeiling(x: uint256, y: uint256, d: uint256)
    ensures MulDivUp(x, y, d) ==
            if d == 0 || x * y > MAX_UINT256 then None else Some(CeilDiv(x * y, d))
  {
    hide CeilDiv, Add, Mod, Div;
    MulDivUpReverts(x, y, d);
    if d != 0 && x * y <= MAX_UINT256 {
      var p: uint256 := x * y;
      assert Mul(x, y) == p;
      CeilingInWords(p, d);
    }
  }

  // ---------------------------------------------------------------- the oracle

  datatype Oracle = Oracle(price: int256, timestamp: nat)

  /** The constructor: a non-positive initial price reverts. */
  function Create(now: nat, initialPrice: int256): Option<Oracle> {
    if initialPrice <= 0 then None else Some(Oracle(initialPrice, now))
  }

  function PriceChangeBps(previous: int256, next: int256): Option<uint256> {
    var change :- Signed(if next > previous then next - previous else previous - next);
    MulDivUp(ToUnsigned(change), BPS_DENOMINATOR, ToUnsigned(previous))
  }

  function TrySetPrice(o: Oracle, now: nat, price: int256): Option<Oracle> {
    var _ :- Require(price > 0);
    var elapsed :- Unsigned(now - o.timestamp);
    var _ :- Require(elapsed >= MIN_PRICE_UPDATE_WINDOW);
    var change :- PriceChangeBps(o.price, price);
    var _ :- Require(change <= MAX_CHANGE_DIFF_BPS);
    Some(Oracle(price, now))
  }

  /** What the rate check is meant to accept. */
  predicate Admissible(o: Oracle, now: nat, price: int256) {
    && price > 0
    && MIN_PRICE_UPDATE_WINDOW <= now - o.timestamp <= MAX_UINT256
    && 100 * Abs(price - o.price) <= o.price
    && Abs(price - o.price) * BPS_DENOMINATOR <= MAX_UINT256
  }

  /** The constructor accepts exactly positive prices and stamps them with its block. */
  lemma CreateExactly(now: nat, initialPrice: int256)
    ensures initialPrice > 0 ==> Create(now, initialPrice) == Some(Oracle(initialPrice, now))
    ensures initialPrice <= 0 ==> Create(now, initialPrice) == None
  {}

  /** The window is 23 hours to the second. */
  lemma WindowIsSharp(o: Oracle, price: int256)
    requires o.price > 0
    ensures TrySetPrice(o, o.timestamp + 23 * 60 * 60, o.price) == Some(Oracle(o.price, o.timestamp + 23 * 60 * 60))
    ensures TrySetPrice(o, o.timestamp + 23 * 60 * 60 - 1, price).None?
  {
    SetPriceAcceptsExactly(o, o.timestamp + 23 * 60 * 60, o.price);
    SetPriceAcceptsExactly(o, o.timestamp + 23 * 60 * 60 - 1, price);
  }

  /** The exact acceptance region of setPrice. */
  lemma SetPriceAcceptsExactly(o: Oracle, now: nat, price: int256)
    requires o.price > 0
    ensures TrySetPrice(o, now, price) == if Admissible(o, now, price) then Some(Oracle(price, now)) else None
  {
    if price > 0 {
      var change: uint256 := Abs(price - o.price);
      MulDivUpIsCeiling(change, BPS_DENOMINATOR, o.price);
      CeilLeast(MAX_CHANGE_DIFF_BPS, change * BPS_DENOMINATOR, o.price);
    }
  }

  class RWAOracleRateCheck {
    var rwaPrice: int256
    var priceTimestamp: nat

    function State(): Oracle
      reads this
    {
      Oracle(rwaPrice, priceTimestamp)
    }

    constructor (now: nat, initialPrice: int256)
      requires Create(now, initialPrice).Some?
      ensures Create(now, initialPrice) == Some(State())
    {
      rwaPrice := initialPrice;
      priceTimestamp := now;
    }

    method GetPriceData() returns (price: uint256, timestamp: nat)
      ensures price == ToUnsigned(State().price) && timestamp == State().timestamp
    {
      return ToUnsigned(rwaPrice), priceTimestamp;
    }

    /** setPrice, and from a positive price exactly the admissible prices are stored. */
    method SetPrice(now: nat, newPrice: int256) returns (ok: bool)
      modifies this
      ensures Transacts(ok, old(State()), State(), TrySetPrice(old(State()), now, newPrice))
      ensures old(rwaPrice) > 0 ==> (ok <==> Admissible(old(State()), now, newPrice))
    {
      if rwaPrice > 0 { SetPriceAcceptsExactly(State(), now, newPrice); }
      if newPrice <= 0 {
        return false;
      }
      var elapsed := Unsigned(now - priceTimestamp);
      if elapsed.None? || elapsed.value < MIN_PRICE_UPDATE_WINDOW {
        return false;
      }
      var change := PriceChangeBps(rwaPrice, newPrice);
      if change.None? || change.value > MAX_CHANGE_DIFF_BPS {
        return false;
      }
      rwaPrice := newPrice;
      priceTimestamp := now;
      return true;
    }
  }

  // ---------------------------------------------------------------- runs

  datatype Update = Update(now: nat, price: int256)

  /** State after a run of setPrice calls; a reverting call changes nothing. */
  function After(o: Oracle, updates: seq<Update>): Oracle {
    if updates == [] then o
    else
      var before := After(o, updates[..|updates| - 1]);
      var u := updates[|updates| - 1];
      match TrySetPrice(before, u.now, u.price)
      case Some(next) => next
      case None => before
  }

  /** How many calls of the run were accepted. */
  function Accepted(o: Oracle, updates: seq<Update>): nat {
    if updates == [] then 0
    else
      var init := updates[..|updates| - 1];
      var u := updates[|updates| - 1];
      Accepted(o, init) + if TrySetPrice(After(o, init), u.now, u.price).Some? then 1 else 0
  }

  lemma OneUpdateBounds(o: Oracle, now: nat, price: int256)
    requires o.price > 0 && TrySetPrice(o, now, price).Some?
    ensures price > 0 && now >= o.timestamp + MIN_PRICE_UPDATE_WINDOW
    ensures 99 * o.price <= 100 * price <= 101 * o.price
  {
    SetPriceAcceptsExactly(o, now, price);
  }

  /** After k accepted updates the price has moved by at most k compounded percents,
      and k windows of 23 hours have passed. */
  lemma {:induction false} CompoundedBounds(o: Oracle, updates: seq<Update>)
    requires o.price > 0
    ensures var k, last := Accepted(o, updates), After(o, updates);
            && last.price > 0
            && Pow(99, k) * o.price <= Pow(100, k) * last.price
            && Pow(100, k) * last.price <= Pow(101, k) * o.price
            && last.timestamp >= o.timestamp + k * MIN_PRICE_UPDATE_WINDOW
  {
    assert Pow(99, 0) == 1 && Pow(100, 0) == 1 && Pow(101, 0) == 1;
    hide TrySetPrice, Pow;
    if updates == [] {
    } else {
      var init, u := updates[..|updates| - 1], updates[|updates| - 1];
      CompoundedBounds(o, init);
      var before, k := After(o, init), Accepted(o, init);
      if TrySetPrice(before, u.now, u.price).Some? {
        OneUpdateBounds(before, u.now, u.price);
        CompoundLower(99, 100, k, o.price, before.price, u.price);
        CompoundUpper(100, 101, k, o.price, before.price, u.price);
      }
    }
  }

  lemma {:induction false} RunWithinHorizon(o: Oracle, updates: seq<Update>, horizon: nat)
    requires o.timestamp <= horizon
    requires forall u | u in updates :: u.now <= horizon
    ensures After(o, updates).timestamp <= horizon
  {
    if updates == [] {
    } else {
      RunWithinHorizon(o, updates[..|updates| - 1], horizon);
      assert updates[|updates| - 1] in updates;
    }
  }

  /** The prices reachable by a given time are bounded by the elapsed time alone,
      whatever calls were made. */
  lemma ElapsedTimeBoundsPrice(o: Oracle, updates: seq<Update>, horizon: nat)
    requires o.price > 0 && o.timestamp <= horizon
    requires forall u | u in updates :: u.now <= horizon
    ensures var K := (horizon - o.timestamp) / MIN_PRICE_UPDATE_WINDOW;
            var last := After(o, updates);
            && Accepted(o, updates) <= K
            && Pow(99, K) * o.price <= Pow(100, K) * last.price
            && Pow(100, K) * last.price <= Pow(101, K) * o.price
  {
    var k, K := Accepted(o, updates), (horizon - o.timestamp) / MIN_PRICE_UPDATE_WINDOW;
    var last := After(o, updates);
    CompoundedBounds(o, updates);
    RunWithinHorizon(o, updates, horizon);
    FloorGreatest(k, horizon - o.timestamp, MIN_PRICE_UPDATE_WINDOW);
    CompoundMore(99, 100, k, K, o.price, last.price);
    CompoundMore(100, 101, k, K, last.price, o.price);
  }

  // ---------------------------------------------------------------- reachability

  /** A price below 100 units can never change again. */
  lemma {:induction false} SmallPricesAreFixed(o: Oracle, updates: seq<Update>)
    requires 0 < o.price < 100
    ensures After(o, updates).price == o.price
  {
    if updates == [] {
    } else {
      var init, u := updates[..|updates| - 1], updates[|updates| - 1];
      SmallPricesAreFixed(o, init);
      SetPriceAcceptsExactly(After(o, init), u.now, u.price);
    }
  }

  /** A price of at least 99 units never falls below 99. */
  lemma {:induction false} NeverBelow99(o: Oracle, updates: seq<Update>)
    requires o.price >= 99
    ensures After(o, updates).price >= 99
  {
    if updates == [] {
    } else {
      var init, u := updates[..|updates| - 1], updates[|updates| - 1];
      NeverBelow99(o, init);
      SetPriceAcceptsExactly(After(o, init), u.now, u.price);
    }
  }

  /** Largest single change of a price: one percent, and no more than the scaled change can represent. */
  function LargestMove(price: nat): nat { Min(price / 100, MAX_UINT256 / BPS_DENOMINATOR) }

  /** Largest admissible move towards a target. */
  function TowardsTarget(price: int256, target: int256): (next: int256)
    requires price >= 100 && target >= 99 && price != target
    ensures price < next <= target || target <= next < price
    ensures 100 * Abs(next - price) <= price && Abs(next - price) * BPS_DENOMINATOR <= MAX_UINT256
  {
    if target > price
    then Min(target, price + LargestMove(price))
    else -Min(-(target as int), LargestMove(price) - price)
  }

  /** A run that walks the price to the target, one window at a time. */
  function Route(o: Oracle, target: int256): (route: seq<Update>)
    requires o.price >= 100 && target >= 99
    decreases Abs(target - o.price)
  {
    if o.price == target then []
    else
      var step := Update(o.timestamp + MIN_PRICE_UPDATE_WINDOW, TowardsTarget(o.price, target));
      if step.price == target then [step] else [step] + Route(Oracle(step.price, step.now), target)
  }

  lemma {:induction false} AfterCons(o: Oracle, u: Update, rest: seq<Update>)
    requires TrySetPrice(o, u.now, u.price) == Some(Oracle(u.price, u.now))
    ensures After(o, [u] + rest) == After(Oracle(u.price, u.now), rest)
    ensures Accepted(o, [u] + rest) == 1 + Accepted(Oracle(u.price, u.now), rest)
  {
    var all := [u] + rest;
    if rest == [] {
      assert all[..0] == [] && all == [u];
    } else {
      AfterCons(o, u, rest[..|rest| - 1]);
      assert all[..|all| - 1] == [u] + rest[..|rest| - 1];
      assert all[|all| - 1] == rest[|rest| - 1];
    }
  }

  /** From any price of at least 100 units every target of at least 99 is reached, every call on the
      way being accepted. */
  lemma {:induction false} EveryTargetIsReachable(o: Oracle, target: int256)
    requires o.price >= 100 && target >= 99
    ensures var route := Route(o, target);
            After(o, route).price == target && Accepted(o, route) == |route|
    decreases Abs(target - o.price)
  {
    hide TrySetPrice;
    if o.price == target {
    } else {
      var next := TowardsTarget(o.price, target);
      var step := Update(o.timestamp + MIN_PRICE_UPDATE_WINDOW, next);
      var moved := Oracle(next, step.now);
      SetPriceAcceptsExactly(o, step.now, next);
      assert TrySetPrice(o, step.now, next) == Some(moved);
      if next == target {
        AfterCons(o, step, []);
        assert [step] + [] == [step];
      } else {
        EveryTargetIsReachable(moved, target);
        AfterCons(o, step, Route(moved, target));
      }
    }
  }

  /** The exact reachable set: a positive price can become exactly itself and, from 100 units up,
      anything from 99 units up. */
  lemma ReachablePrices(o: Oracle, target: int256)
    requires o.price > 0
    ensures (exists updates: seq<Update> :: After(o, updates).price == target) <==>
            target == o.price || (o.price >= 100 && target >= 99)
  {
    if target == o.price {
      assert After(o, []).price == target;
    } else if o.price >= 100 && target >= 99 {
      EveryTargetIsReachable(o, target);
    } else {
      forall updates: seq<Update> ensures After(o, updates).price != target {
        if o.price < 100 { SmallPricesAreFixed(o, updates); } else { NeverBelow99(o, updates); }
      }
    }
  }
}
