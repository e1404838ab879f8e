/** Which prices the compared oracle can ever reach, over all runs of usable rounds
    (contracts/rwaOracles/RWAOracleExternalComparisonCheck.sol). */
module ComparisonReach {
  import opened Words
  import opened Rounding
  import opened ComparisonCheck

  // ---------------------------------------------------------------- runs with a clock

  /** `n` updates, 23 hours each, can turn o into p. */
  ghost predicate Reaches(o: Oracle, n: nat, p: Oracle) {
    && p.timestamp <= o.timestamp + n * MIN_PRICE_UPDATE_WINDOW
    && exists updates: seq<Update> :: After(o, updates) == p
  }

  /** `n` more updates find the clock and the age limit of a round within 256 bits. */
  predicate HasTime(o: Oracle, n: nat) {
    o.timestamp + n * MIN_PRICE_UPDATE_WINDOW + MAX_CL_WINDOW < TWO_256
  }

  lemma {:induction false} AfterConcat(o: Oracle, us: seq<Update>, vs: seq<Update>)
    ensures After(o, us + vs) == After(After(o, us), vs)
  {
    hide TrySetPrice;
    if vs == [] {
      assert us + vs == us;
    } else {
      AfterConcat(o, us, vs[..|vs| - 1]);
      assert (us + vs)[..|us + vs| - 1] == us + vs[..|vs| - 1];
    }
  }

  lemma ReachesItself(o: Oracle)
    ensures Reaches(o, 0, o)
  {
    assert After(o, []) == o;
  }

  lemma ReachesOn(o: Oracle, m: nat, p: Oracle, n: nat, q: Oracle)
    requires Reaches(o, m, p) && Reaches(p, n, q)
    ensures Reaches(o, m + n, q)
  {
    hide After;
    var us: seq<Update> :| After(o, us) == p;
    var vs: seq<Update> :| After(p, vs) == q;
    AfterConcat(o, us, vs);
    assert After(o, us + vs) == q;
  }

  /** A round of the given answer that can be used at the next opportunity. */
  function NextRound(o: Oracle, answer: int256): Round
    requires HasTime(o, 1)
  {
    var id := if o.lastSetRound.roundId == 1 then 2 else 1;
    Round(id, answer, 0, o.timestamp + MIN_PRICE_UPDATE_WINDOW, id)
  }

  /** The step all routes are made of: an admissible price together with a round that does not forbid it. */
  lemma OneStep(o: Oracle, answer: int256, price: int256) returns (next: Oracle)
    requires HasTime(o, 1) && o.price > 0 && o.lastSetRound.answer > 0 && answer > 0 && price > 0
    requires var dp, da := (price - o.price) * BPS_DENOMINATOR, (answer - o.lastSetRound.answer) * BPS_DENOMINATOR;
             && Signed(dp).Some? && Signed(da).Some? && Abs(dp) < 201 * o.price
             && (Abs(da) >= 275 * o.lastSetRound.answer || (dp == 0 && Abs(da) < 75 * o.lastSetRound.answer))
    ensures Reaches(o, 1, next) && next.price == price && next.lastSetRound.answer == answer
    ensures next.timestamp == o.timestamp + MIN_PRICE_UPDATE_WINDOW
  {
    hide TrySetPrice, TruncDiv;
    var now, round := o.timestamp + MIN_PRICE_UPDATE_WINDOW, NextRound(o, answer);
    var da := (answer - o.lastSetRound.answer) * BPS_DENOMINATOR;
    next := Oracle(price, now, round);
    SetPriceAcceptsExactly(o, now, round, price);
    if Abs(da) < 275 * o.lastSetRound.answer {
      TruncWithin(da, o.lastSetRound.answer, 74);
      TruncWithin(0, o.price, 0);
    }
    assert Usable(o, now, round);
    var u := Update(now, round, price);
    assert [u][..0] == [];
    assert After(o, [u]) == next;
  }

  // ---------------------------------------------------------------- routes

  /** A small reference answer, between whose values 1 and 2 every change is ignored. */
  predicate Free(o: Oracle) {
    o.price > 0 && 1 <= o.lastSetRound.answer <= 2
  }

  /** Towards q in steps of at most `step`. */
  lemma {:induction false} Walk(o: Oracle, q: int256, step: nat, n: nat) returns (end: Oracle)
    requires Free(o) && q > 0 && HasTime(o, n)
    requires Abs(q - o.price) <= n * step && step * BPS_DENOMINATOR <= MAX_INT256
    requires step * BPS_DENOMINATOR < 201 * if q >= o.price then o.price as int else q + 1
    ensures Reaches(o, n, end) && end.price == q && Free(end)
    decreases n
  {
    if q == o.price {
      ReachesItself(o);
      end := o;
    } else {
      var price: int256 := if q > o.price then Min(q, o.price + step) else Max(q, o.price - step);
      var next := OneStep(o, 3 - o.lastSetRound.answer, price);
      assert (n - 1) * step == n * step - step;
      end := next;
      if price != q {
        end := Walk(next, q, step, n - 1);
        ReachesOn(o, 1, next, n - 1, end);
      }
    }
  }

  const HOP: nat := 10001

  /** At most a factor of two up or down. */
  lemma Hop(o: Oracle, q: int256) returns (end: Oracle)
    requires Free(o) && o.price >= 50 && q >= 49 && q <= 2 * o.price && o.price <= 2 * q
    requires HasTime(o, HOP)
    ensures Reaches(o, HOP, end) && end.price == q && Free(end)
  {
    var least := if q >= o.price then o.price as int else q + 1;
    var step := Min(least / 50, MAX_INT256 / BPS_DENOMINATOR);
    end := Walk(o, q, step, HOP);
  }

  lemma HalfThePower(k: nat, p: int, q: int)
    requires k > 0
    ensures Pow(2, k) * p == 2 * (Pow(2, k - 1) * p) && Pow(2, k) * q == 2 * (Pow(2, k - 1) * q)
    ensures k == 1 ==> Pow(2, k - 1) == 1
    ensures Pow(2, k - 1) >= 1
  {
    Swap(2, Pow(2, k - 1), p);
    Swap(2, Pow(2, k - 1), q);
  }

  /** What is left of a way of 2 * power after its first doubling or halving. */
  lemma HalfWay(power: nat, p: int, q: int, middle: int)
    requires p > 0 && q > 0 && power >= 1
    requires q <= 2 * (power * p) && p <= 2 * (power * q)
    requires if q > 2 * p then middle == 2 * p else p > 2 * q && middle == (p + 1) / 2
    ensures power > 1 && q <= power * middle && middle <= power * q
  {
    if q > 2 * p {
      assert power * middle == 2 * (power * p);
      MulMono(1, power, q);
    } else {
      MulMono(middle, power * q, 1);
      MulMono(1, power, middle);
    }
  }

  /** Up or down by any number of doublings. */
  lemma {:induction false} Travel(o: Oracle, q: int256, k: nat) returns (end: Oracle)
    requires Free(o) && o.price >= 50 && q >= 49 && k > 0 && HasTime(o, k * HOP)
    requires q <= Pow(2, k) * o.price && o.price <= Pow(2, k) * q
    ensures Reaches(o, k * HOP, end) && end.price == q && Free(end)
    decreases k
  {
    hide Pow, Free;
    HalfThePower(k, o.price, q);
    if q <= 2 * o.price && o.price <= 2 * q {
      end := Hop(o, q);
    } else {
      var middle: int256 := if q > 2 * o.price then 2 * o.price else (o.price + 1) / 2;
      var mid := Hop(o, middle);
      HalfWay(Pow(2, k - 1), o.price, q, middle);
      end := Travel(mid, q, k - 1);
      ReachesOn(o, HOP, mid, (k - 1) * HOP, end);
    }
  }

  /** The decrease of the reference that every price can ignore. */
  const DROP: nat := MAX_INT256 / 2_000_000

  /** From any stored answer to a small one, at the same price. */
  lemma {:induction false} Lower(o: Oracle, n: nat) returns (end: Oracle)
    requires o.price > 0 && 0 < o.lastSetRound.answer <= n * DROP && HasTime(o, n + 1)
    ensures Reaches(o, n + 1, end) && end.price == o.price && Free(end)
    decreases n
  {
    var a := o.lastSetRound.answer;
    if a <= 2 {
      ReachesItself(o);
      end := o;
    } else if a <= MAX_INT256 / BPS_DENOMINATOR {
      end := OneStep(o, 1, o.price);
    } else {
      var next := OneStep(o, a - DROP, o.price);
      assert (n - 1) * DROP == n * DROP - DROP;
      end := Lower(next, n - 1);
      ReachesOn(o, 1, next, n, end);
    }
  }

  // ---------------------------------------------------------------- the reachable prices

  /** A price of at least 50 never falls below 49, and a price below 50 never changes. */
  lemma {:induction false} FloorOfPrices(o: Oracle, updates: seq<Update>)
    requires o.price > 0
    ensures o.price >= 50 ==> After(o, updates).price >= 49
    ensures o.price < 50 ==> After(o, updates).price == o.price
  {
    hide TrySetPrice;
    if updates == [] {
    } else {
      var init, u := updates[..|updates| - 1], updates[|updates| - 1];
      FloorOfPrices(o, init);
      if TrySetPrice(After(o, init), u.now, u.response, u.price).Some? {
        OneUpdateBounds(After(o, init), u.now, u.response, u.price);
      }
    }
  }

  lemma {:induction false} PowerSquared(k: nat)
    ensures Pow(2, 2 * k) == Pow(2, k) * Pow(2, k)
  {
    if k == 0 {
    } else {
      PowerSquared(k - 1);
      var half := Pow(2, k - 1);
      assert Pow(2, 2 * k) == 2 * Pow(2, 2 * k - 1) == 4 * (half * half);
      assert (2 * half) * (2 * half) == 4 * (half * half);
    }
  }

  lemma PowerOfTwo()
    ensures Pow(2, 256) == TWO_256
  {
    assert Pow(2, 4) == 16;
    PowerSquared(4);
    PowerSquared(8);
    PowerSquared(16);
    PowerSquared(32);
    PowerSquared(64);
    PowerSquared(128);
  }

  /** Less than 32000 years. */
  const ENOUGH_TIME: nat := 1_000_000_000_000

  /** The prices that runs make of any oracle, while the clock is not about to overflow: its own and, from
      a price of at least 50 with a stored answer that is not zero, every price from 49 up. */
  lemma ReachablePrices(o: Oracle, target: int256)
    requires o.lastSetRound.answer >= 0 && o.timestamp + ENOUGH_TIME < TWO_256
    ensures (exists updates: seq<Update> :: After(o, updates).price == target) <==>
            target == o.price || (o.price >= 50 && o.lastSetRound.answer > 0 && target >= 49)
  {
    if updates: seq<Update> :| After(o, updates).price == target {
      if Stuck(o) { StuckForever(o, updates); } else { FloorOfPrices(o, updates); }
    }
    if target == o.price {
      assert After(o, []).price == target;
    } else if o.price >= 50 && o.lastSetRound.answer > 0 && target >= 49 {
      var n := 2_000_001;
      var low := Lower(o, n);
      PowerOfTwo();
      MulMono(1, o.price, TWO_256);
      MulMono(1, target, TWO_256);
      var end := Travel(low, target, 256);
      ReachesOn(o, n + 1, low, 256 * HOP, end);
      var updates: seq<Update> :| After(o, updates) == end;
      assert After(o, updates).price == target;
    }
  }
}
