/** Hub, pricer and oracle together: the hub asks the pricer for its prices, and the pricer keeps
    its oracle in step. */
module Protocol {
  import opened Words
  import opened Rounding
  import opened Sums
  import opened HubMath
  import opened Books
  import opened Tokens
  import opened Hubs
  import opened Pricers
  import HubRuns
  import Rate = RateCheck
  import Comparison = ComparisonCheck
  import Synced = SyncedPricer

  /** The pricer contract stands at `address`; other addresses may hold other pricers. */
  datatype World = World(hub: Hub, address: Address, pricer: Synced.Pair)

  datatype Step = HubCall(call: Hubs.Call) | PricerCall(pricerCall: Synced.Call)

  /** What getPrice answers. */
  function Answers(l: PriceLog): (answers: map<nat, uint256>)
    ensures forall id: nat :: l.Info(id).price == if id in answers then answers[id] else 0
  {
    map id | id in l.prices :: l.prices[id].price
  }

  function Priced(w: World, call: Hubs.Call): Hubs.Call {
    call.(ctx := call.ctx.(pricers := call.ctx.pricers[w.address := Answers(w.pricer.log)]))
  }

  function TryStep(w: World, s: Step): Option<World> {
    match s
    case HubCall(call) =>
      var hub :- Hubs.TryStep(w.hub, Priced(w, call));
      Some(w.(hub := hub))
    case PricerCall(call) =>
      var pricer :- Synced.TryStep(w.pricer, call);
      Some(w.(pricer := pricer))
  }

  function Run(w: World, steps: seq<Step>): World {
    if steps == [] then w
    else
      var before := Run(w, steps[..|steps| - 1]);
      match TryStep(before, steps[|steps| - 1])
      case Some(next) => next
      case None => before
  }

  /** The hub's share of a run, with the prices it was given. */
  function HubSide(w: World, steps: seq<Step>): seq<Hubs.Call> {
    if steps == [] then []
    else
      var init := steps[..|steps| - 1];
      HubSide(w, init) + match steps[|steps| - 1]
                         case HubCall(call) => [Priced(Run(w, init), call)]
                         case PricerCall(_) => []
  }

  /** The pricer's share of a run. */
  function PricerSide(steps: seq<Step>): seq<Synced.Call> {
    if steps == [] then []
    else
      PricerSide(steps[..|steps| - 1]) + match steps[|steps| - 1]
                                         case HubCall(_) => []
                                         case PricerCall(call) => [call]
  }

  lemma PricerRunsOneMore(p: Synced.Pair, calls: seq<Synced.Call>, c: Synced.Call)
    ensures var before := Synced.Run(p, calls);
            Synced.Run(p, calls + [c]) ==
            if Synced.TryStep(before, c).Some? then Synced.TryStep(before, c).value else before
  {
    hide Synced.TryStep;
    assert (calls + [c])[..|calls|] == calls;
  }

  /** A run of the whole is a run of each part, so whatever holds of all runs of a part holds here. */
  lemma {:induction false} RunsProject(w: World, steps: seq<Step>)
    ensures Run(w, steps).hub == Hubs.Run(w.hub, HubSide(w, steps))
    ensures Run(w, steps).pricer == Synced.Run(w.pricer, PricerSide(steps))
  {
    hide Hubs.TryStep, Synced.TryStep, Hubs.Run, Synced.Run, Priced;
    if steps == [] {
      EmptyRunsProject(w);
    } else {
      var init, s := steps[..|steps| - 1], steps[|steps| - 1];
      RunsProject(w, init);
      match s
      case HubCall(call) =>
        RunOneMore(w.hub, HubSide(w, init), Priced(Run(w, init), call));
        assert PricerSide(init) + [] == PricerSide(init);
      case PricerCall(call) =>
        PricerRunsOneMore(w.pricer, PricerSide(init), call);
        assert HubSide(w, init) + [] == HubSide(w, init);
    }
  }

  lemma EmptyRunsProject(w: World)
    ensures Hubs.Run(w.hub, []) == w.hub && Synced.Run(w.pricer, []) == w.pricer
  {}

  // ---------------------------------------------------------------- settlements use recorded prices

  /** Every mint was priced by a recorded price; every redemption by a recorded price or by none. */
  ghost predicate PricedFrom(log: Log, prices: map<nat, uint256>) {
    forall e | e in log :: EntryPricedFrom(e, prices)
  }

  predicate EntryPricedFrom(e: Entry, prices: map<nat, uint256>) {
    && (e.event.MintCompleted? ==>
          e.event.priceId in prices && prices[e.event.priceId] == e.event.price && e.event.price != 0)
    && (e.event.RedemptionCompleted? ==>
          e.event.price == 0 || (e.event.priceId in prices && prices[e.event.priceId] == e.event.price))
  }

  /** What the hub's pricer, if there is one, answers to a call. */
  predicate AnswersAre(h: Hub, c: Ctx, prices: map<nat, uint256>) {
    c.HasPricer(h.params.pricer) ==> c.pricers[h.params.pricer] == prices
  }

  lemma {:induction false} ClaimsArePriced(h: Hub, c: Ctx, prices: map<nat, uint256>, ids: seq<Id>)
    requires PricedFrom(h.log, prices) && AnswersAre(h, c, prices) && TryClaimEach(h, c, ids).Some?
    ensures PricedFrom(TryClaimEach(h, c, ids).value.log, prices)
    decreases |ids|
  {
    if ids == [] {
    } else {
      ClaimsArePriced(TryClaimOne(h, c, ids[0]).value, c, prices, ids[1..]);
    }
  }

  lemma SettleOneIsPriced(h: Hub, c: Ctx, prices: map<nat, uint256>, id: Id)
    requires PricedFrom(h.log, prices) && AnswersAre(h, c, prices) && TrySettleOne(h, c, id).Some?
    ensures PricedFrom(TrySettleOne(h, c, id).value.log, prices)
  {
    hide TryRedemptionAmount, TryFee, Ledger.TransferFrom;
  }

  lemma {:induction false} SettlementsArePriced(h: Hub, c: Ctx, prices: map<nat, uint256>, ids: seq<Id>, fees: uint256)
    requires PricedFrom(h.log, prices) && AnswersAre(h, c, prices) && TrySettleEach(h, c, ids, fees).Some?
    ensures PricedFrom(TrySettleEach(h, c, ids, fees).value.log, prices)
    decreases |ids|
  {
    hide TrySettleOne, TryQuote, PricedFrom, Ledger.TransferFrom;
    if ids == [] {
    } else {
      SettleOneIsPriced(h, c, prices, ids[0]);
      SettlementsArePriced(TrySettleOne(h, c, ids[0]).value, c, prices, ids[1..],
                           fees + TryQuote(h, c, ids[0]).value.fee);
    }
  }

  lemma {:induction false} SettingsArePriced(
    h: Hub, c: Ctx, prices: map<nat, uint256>, ids: seq<Id>, priceIds: seq<uint256>, n: uint256)
    requires PricedFrom(h.log, prices) && AnswersAre(h, c, prices)
    ensures PricedFrom(SetTimestamps(h, c, n, ids).log, prices)
    ensures |ids| == |priceIds| && TrySetDepositPrices(h, c, ids, priceIds).Some? ==>
              PricedFrom(TrySetDepositPrices(h, c, ids, priceIds).value.log, prices)
    ensures |ids| == |priceIds| && TrySetRedemptionPrices(h, c, ids, priceIds).Some? ==>
              PricedFrom(TrySetRedemptionPrices(h, c, ids, priceIds).value.log, prices)
    decreases |ids|
  {
    if ids == [] {
    } else {
      var rest := if priceIds == [] then [] else priceIds[1..];
      SettingsArePriced(Record(h, c, ClaimableTimestampSet(n, ids[0])), c, prices, ids[1..], rest, n);
      if |ids| == |priceIds| {
        SettingsArePriced(Record(h, c, PriceIdSetForDeposit(ids[0], priceIds[0])), c, prices, ids[1..], rest, n);
        SettingsArePriced(Record(h, c, PriceIdSetForRedemption(ids[0], priceIds[0])), c, prices, ids[1..], rest, n);
      }
    }
  }

  /** A hub call settles only at the prices it is given. */
  lemma CallKeepsPriced(h: Hub, call: Hubs.Call, prices: map<nat, uint256>)
    requires PricedFrom(h.log, prices) && AnswersAre(h, call.ctx, prices) && Hubs.TryStep(h, call).Some?
    ensures PricedFrom(Hubs.TryStep(h, call).value.log, prices)
  {
    hide TryClaimEach, TrySettleEach;
    match call.op
    case ClaimMint(ids) => ClaimsArePriced(h, call.ctx, prices, ids);
    case ClaimRedemption(ids) => SettlementsArePriced(h, call.ctx, prices, ids, 0);
    case SetClaimableTimestamp(timestamp, ids) => SettingsArePriced(h, call.ctx, prices, ids, [], timestamp);
    case SetPriceIdForDeposits(ids, priceIds) => SettingsArePriced(h, call.ctx, prices, ids, priceIds, 0);
    case SetPriceIdForRedemptions(ids, priceIds) => SettingsArePriced(h, call.ctx, prices, ids, priceIds, 0);
    case _ =>
  }

  /** No call of the run succeeded in changing a recorded price. */
  predicate NoPriceUpdates(w: World, steps: seq<Step>) {
    steps != [] ==>
      var init, s := steps[..|steps| - 1], steps[|steps| - 1];
      && NoPriceUpdates(w, init)
      && (s.PricerCall? && s.pricerCall.op.UpdatePrice? ==> TryStep(Run(w, init), s).None?)
  }

  /** The run gives the hub no other pricer than the one at `address`. */
  predicate KeepsPricer(address: Address, steps: seq<Step>) {
    forall s | s in steps ::
      s.HubCall? && s.call.op.Set? && s.call.op.setting.Pricer? ==> s.call.op.setting.account in {0, address}
  }

  lemma {:induction false} PricerIsKept(w: World, steps: seq<Step>)
    requires w.hub.params.pricer == 0 && KeepsPricer(w.address, steps)
    ensures Run(w, steps).address == w.address && Run(w, steps).hub.params.pricer in {0, w.address}
  {
    hide Hubs.TryStep, Synced.TryStep;
    if steps == [] {
    } else {
      var init, s := steps[..|steps| - 1], steps[|steps| - 1];
      PricerIsKept(w, init);
      assert s in steps;
      var before := Run(w, init);
      if s.HubCall? && TryStep(before, s).Some? {
        StepKeepsPricer(before.hub, Priced(before, s.call));
      }
    }
  }

  lemma PricerKeepsAnswers(p: Synced.Pair, call: Synced.Call)
    requires Synced.WellFormed(p) && !call.op.UpdatePrice? && Synced.TryStep(p, call).Some?
    ensures forall id | id in Answers(p.log) ::
              id in Answers(Synced.TryStep(p, call).value.log)
              && Answers(Synced.TryStep(p, call).value.log)[id] == Answers(p.log)[id]
  {
    hide Synced.TrySetOracle;
  }

  /** Without updatePrice a price id means one price for ever: every settlement under it was made at the
      price recorded for it, except redemptions settled before any price was recorded. */
  lemma {:induction false} OnePricePerId(w: World, steps: seq<Step>, oracle: Synced.Oracle)
    requires w.hub.log == [] && w.hub.params.pricer == 0 && w.pricer == Synced.Create(oracle)
    requires KeepsPricer(w.address, steps) && NoPriceUpdates(w, steps)
    ensures PricedFrom(Run(w, steps).hub.log, Answers(Run(w, steps).pricer.log))
  {
    hide Hubs.TryStep, Synced.TryStep, EntryPricedFrom;
    if steps == [] {
    } else {
      var init, s := steps[..|steps| - 1], steps[|steps| - 1];
      OnePricePerId(w, init, oracle);
      PricerIsKept(w, init);
      var before := Run(w, init);
      if TryStep(before, s).Some? {
        match s
        case HubCall(call) => CallKeepsPriced(before.hub, Priced(before, call), Answers(before.pricer.log));
        case PricerCall(call) =>
          RunsProject(w, init);
          Synced.RunIsWellFormed(oracle, PricerSide(init));
          PricerKeepsAnswers(before.pricer, call);
          PricedWithMore(before.hub.log, Answers(before.pricer.log), Answers(Run(w, steps).pricer.log));
      }
    }
  }

  lemma PricedWithMore(log: Log, prices: map<nat, uint256>, more: map<nat, uint256>)
    requires PricedFrom(log, prices)
    requires forall id | id in prices :: id in more && more[id] == prices[id]
    ensures PricedFrom(log, more)
  {}

  // ---------------------------------------------------------------- the oracle bounds the payouts

  /** One accepted update keeps the price between lo/base and hi/base of the old one. */
  datatype Band = Band(lo: nat, base: nat, hi: nat)

  function BandOf(o: Synced.Oracle): Band {
    match o
    case RateChecked(_) => Band(99, 100, 101)
    case ExternallyChecked(_) => Band(9799, 10000, 10201)
  }

  predicate Positive(o: Synced.Oracle) {
    match o
    case RateChecked(r) => r.price > 0
    case ExternallyChecked(c) => c.price > 0
  }

  /** price lies within k compounded steps of the band from first. */
  predicate Within(b: Band, first: nat, k: nat, price: nat) {
    Pow(b.lo, k) * first <= Pow(b.base, k) * price && Pow(b.base, k) * price <= Pow(b.hi, k) * first
  }

  /** o is what k accepted updates, the last no later than the horizon, can make of `first`. */
  predicate Stage(first: Synced.Oracle, horizon: nat, o: Synced.Oracle, k: nat) {
    && first.Timestamp() + k * MIN_PRICE_UPDATE_WINDOW <= o.Timestamp() <= horizon
    && Within(BandOf(first), first.Price(), k, o.Price())
  }

  ghost predicate Reached(first: Synced.Oracle, horizon: nat, o: Synced.Oracle) {
    BandOf(o) == BandOf(first) && Positive(o) && exists k: nat :: Stage(first, horizon, o, k)
  }

  lemma FirstIsReached(first: Synced.Oracle, horizon: nat)
    requires Positive(first) && first.Timestamp() <= horizon
    ensures Reached(first, horizon, first)
  {
    assert Stage(first, horizon, first, 0);
  }

  /** An accepted setPrice of either oracle stays in its band. */
  lemma SetStaysInBand(o: Synced.Oracle, env: Synced.Env, price: int256)
    requires Positive(o) && Synced.TrySetOracle(o, env, price).Some?
    ensures var next, b := Synced.TrySetOracle(o, env, price).value, BandOf(o);
            && BandOf(next) == b && Positive(next)
            && b.lo * o.Price() <= b.base * next.Price() <= b.hi * o.Price()
            && next.Timestamp() == env.now >= o.Timestamp() + MIN_PRICE_UPDATE_WINDOW
            && next.Price() == price
  {
    Synced.OracleAfterSet(o, env, price);
    hide Rate.TrySetPrice, Comparison.TrySetPrice;
    match o
    case RateChecked(r) => Rate.OneUpdateBounds(r, env.now, price);
    case ExternallyChecked(c) => Comparison.OneUpdateBounds(c, env.now, env.response, price);
  }

  lemma SetStaysReached(first: Synced.Oracle, horizon: nat, o: Synced.Oracle, env: Synced.Env, price: int256)
    requires Reached(first, horizon, o) && env.now <= horizon
    requires Synced.TrySetOracle(o, env, price).Some?
    ensures Reached(first, horizon, Synced.TrySetOracle(o, env, price).value)
  {
    hide Synced.TrySetOracle, Pow, Synced.Oracle.Price, Synced.Oracle.Timestamp;
    var k: nat :| Stage(first, horizon, o, k);
    var next, b := Synced.TrySetOracle(o, env, price).value, BandOf(first);
    SetStaysInBand(o, env, price);
    CompoundLower(b.lo, b.base, k, first.Price(), o.Price(), next.Price());
    CompoundUpper(b.base, b.hi, k, first.Price(), o.Price(), next.Price());
    assert Stage(first, horizon, next, k + 1);
  }

  /** The 23-hour windows between the creation of the oracle and the horizon. */
  function Windows(first: Synced.Oracle, horizon: nat): nat
    requires first.Timestamp() <= horizon
  {
    FloorGreatest(0, horizon - first.Timestamp(), MIN_PRICE_UPDATE_WINDOW);
    (horizon - first.Timestamp()) / MIN_PRICE_UPDATE_WINDOW
  }

  /** prices a and b, in this order or the other, lie within (base/lo)^K of each other. */
  predicate Apart(band: Band, K: nat, a: nat, b: nat) {
    Pow(band.lo, K) * a <= Pow(band.base, K) * b && Pow(band.lo, K) * b <= Pow(band.base, K) * a
  }

  /** An oracle state and one reached from it, both since `first`. */
  lemma ReachedIsNear(first: Synced.Oracle, horizon: nat, a: Synced.Oracle, b: Synced.Oracle)
    requires first.Timestamp() <= a.Timestamp() <= horizon && BandOf(a) == BandOf(first)
    requires Reached(a, horizon, b)
    ensures Apart(BandOf(first), Windows(first, horizon), a.Price(), b.Price())
  {
    hide Pow, Synced.Oracle.Price, Synced.Oracle.Timestamp;
    var k: nat :| Stage(a, horizon, b, k);
    var band, K := BandOf(first), Windows(first, horizon);
    FloorGreatest(k, horizon - first.Timestamp(), MIN_PRICE_UPDATE_WINDOW);
    CompoundMore(band.lo, band.base, k, K, a.Price(), b.Price());
    CompoundFlip(band.lo, band.base, band.hi, k, a.Price(), b.Price());
    CompoundMore(band.lo, band.base, k, K, b.Price(), a.Price());
  }

  /** Every price enters the log through the oracle: no updatePrice succeeds, and addPrice only when it
      advances the pointer. Calls are made no later than the horizon. */
  predicate Disciplined(p: Synced.Pair, calls: seq<Synced.Call>, horizon: nat) {
    calls != [] ==>
      var init, c := calls[..|calls| - 1], calls[|calls| - 1];
      var before := Synced.Run(p, init);
      && Disciplined(p, init, horizon)
      && (Synced.TryStep(before, c).Some? ==>
            c.env.now <= horizon && !c.op.UpdatePrice? && (c.op.AddPrice? ==> Synced.Advances(before, c)))
  }

  /** The oracle states whose prices were recorded, in the order of their ids. */
  function Sources(first: Synced.Oracle, calls: seq<Synced.Call>): seq<Synced.Oracle> {
    if calls == [] then [first]
    else
      var init, c := calls[..|calls| - 1], calls[|calls| - 1];
      var next := Synced.TryStep(Synced.Run(Synced.Create(first), init), c);
      Sources(first, init) +
      if next.Some? && (c.op.AddPrice? || c.op.AddLatestOraclePrice?) then [next.value.oracle] else []
  }

  /** Every recorded price is that of a source; later sources, and the current oracle, are reached from
      earlier ones. */
  ghost predicate Sourced(horizon: nat, p: Synced.Pair, sources: seq<Synced.Oracle>) {
    && Synced.WellFormed(p)
    && |sources| == p.log.currentPriceId
    && (forall id | 1 <= id <= |sources| :: p.log.Info(id).price == sources[id - 1].Price())
    && (forall i, j | 0 <= i <= j < |sources| :: Reached(sources[i], horizon, sources[j]))
    && (forall i | 0 <= i < |sources| :: Reached(sources[i], horizon, p.oracle))
  }

  lemma SourcedWithOracle(horizon: nat, sources: seq<Synced.Oracle>, o: Synced.Oracle)
    requires forall i, j | 0 <= i <= j < |sources| :: Reached(sources[i], horizon, sources[j])
    requires forall i | 0 <= i < |sources| :: Reached(sources[i], horizon, o)
    requires Positive(o) && o.Timestamp() <= horizon
    ensures var more := sources + [o];
            && (forall i, j | 0 <= i <= j < |more| :: Reached(more[i], horizon, more[j]))
            && (forall i | 0 <= i < |more| :: Reached(more[i], horizon, o))
  {
    FirstIsReached(o, horizon);
    hide Reached;
  }

  lemma StepKeepsSourced(horizon: nat, p: Synced.Pair, c: Synced.Call, sources: seq<Synced.Oracle>)
    requires Sourced(horizon, p, sources) && Synced.TryStep(p, c).Some? && c.env.now <= horizon
    requires !c.op.UpdatePrice? && (c.op.AddPrice? ==> Synced.Advances(p, c))
    ensures Sourced(horizon, Synced.TryStep(p, c).value,
                    sources +
                    if c.op.AddPrice? || c.op.AddLatestOraclePrice? then [Synced.TryStep(p, c).value.oracle] else [])
  {
    hide Synced.TrySetOracle, Reached, Synced.Oracle.Price, Synced.Oracle.Timestamp;
    Synced.StepKeepsWellFormed(p, c);
    ReachedIsPositive(sources[0], horizon, p.oracle);
    match c.op
    case AddPrice(price, _) =>
      SetStaysInBand(p.oracle, c.env, ToSigned(price));
      forall i | 0 <= i < |sources| ensures Reached(sources[i], horizon, Synced.TryStep(p, c).value.oracle) {
        SetStaysReached(sources[i], horizon, p.oracle, c.env, ToSigned(price));
      }
      SourcedWithOracle(horizon, sources, Synced.TryStep(p, c).value.oracle);
      Synced.AddPriceRecords(p, c);
    case SetOracle(signed) =>
      forall i | 0 <= i < |sources| ensures Reached(sources[i], horizon, Synced.TryStep(p, c).value.oracle) {
        SetStaysReached(sources[i], horizon, p.oracle, c.env, signed);
      }
      assert sources + [] == sources;
    case AddLatestOraclePrice =>
      SourcedWithOracle(horizon, sources, p.oracle);
      var next := Synced.TryStep(p, c).value;
      assert forall id | 1 <= id <= |sources| :: next.log.Info(id) == p.log.Info(id);
  }

  lemma ReachedIsPositive(first: Synced.Oracle, horizon: nat, o: Synced.Oracle)
    requires Reached(first, horizon, o)
    ensures Positive(o) && BandOf(o) == BandOf(first) && first.Timestamp() <= o.Timestamp() <= horizon
  {}

  lemma {:induction false} DisciplinedIsSourced(first: Synced.Oracle, horizon: nat, calls: seq<Synced.Call>)
    requires Positive(first) && first.Timestamp() <= horizon
    requires Disciplined(Synced.Create(first), calls, horizon)
    ensures Sources(first, calls) != [] && Sources(first, calls)[0] == first
    ensures Sourced(horizon, Synced.Run(Synced.Create(first), calls), Sources(first, calls))
  {
    hide Synced.TryStep, Sourced, Synced.Advances;
    if calls == [] {
      CreatedIsSourced(first, horizon);
    } else {
      var init, c := calls[..|calls| - 1], calls[|calls| - 1];
      DisciplinedIsSourced(first, horizon, init);
      var before := Synced.Run(Synced.Create(first), init);
      if Synced.TryStep(before, c).Some? {
        StepKeepsSourced(horizon, before, c, Sources(first, init));
      } else {
        assert Sources(first, init) + [] == Sources(first, init);
      }
    }
  }

  lemma CreatedIsSourced(first: Synced.Oracle, horizon: nat)
    requires Positive(first) && first.Timestamp() <= horizon
    ensures Sourced(horizon, Synced.Create(first), [first])
  {
    FirstIsReached(first, horizon);
  }

  lemma SourcedPricesAreNear(
    first: Synced.Oracle, horizon: nat, p: Synced.Pair, sources: seq<Synced.Oracle>, x: nat, y: nat)
    requires sources != [] && sources[0] == first && Sourced(horizon, p, sources) && first.Timestamp() <= horizon
    requires x in p.log.prices && y in p.log.prices
    ensures Apart(BandOf(first), Windows(first, horizon), p.log.prices[x].price, p.log.prices[y].price)
  {
    hide Reached, Apart, Windows, Synced.Oracle.Price, Synced.Oracle.Timestamp;
    var i, j := Min(x, y) - 1, (if x < y then y else x) - 1;
    assert p.log.Info(x).price == sources[x - 1].Price() && p.log.Info(y).price == sources[y - 1].Price();
    assert Reached(sources[0], horizon, sources[i]) && Reached(sources[i], horizon, sources[j]);
    ReachedIsPositive(first, horizon, sources[i]);
    ReachedIsNear(first, horizon, sources[i], sources[j]);
    ApartIsSymmetric(BandOf(first), Windows(first, horizon), sources[i].Price(), sources[j].Price());
  }

  /** In every run whose prices enter through the oracle, any two recorded prices are within (base/lo)^K of
      each other. */
  lemma RecordedPricesAreNear(first: Synced.Oracle, horizon: nat, calls: seq<Synced.Call>, x: nat, y: nat)
    requires Positive(first) && first.Timestamp() <= horizon
    requires Disciplined(Synced.Create(first), calls, horizon)
    requires var prices := Synced.Run(Synced.Create(first), calls).log.prices; x in prices && y in prices
    ensures var prices := Synced.Run(Synced.Create(first), calls).log.prices;
            Apart(BandOf(first), Windows(first, horizon), prices[x].price, prices[y].price)
  {
    hide *;
    DisciplinedIsSourced(first, horizon, calls);
    SourcedPricesAreNear(first, horizon, Synced.Run(Synced.Create(first), calls), Sources(first, calls), x, y);
  }

  lemma ApartIsSymmetric(band: Band, K: nat, a: nat, b: nat)
    ensures Apart(band, K, a, b) <==> Apart(band, K, b, a)
  {}

  lemma {:induction false} DisciplineForbidsUpdates(w: World, steps: seq<Step>, horizon: nat)
    requires Disciplined(w.pricer, PricerSide(steps), horizon)
    ensures NoPriceUpdates(w, steps)
  {
    hide Hubs.TryStep, Synced.TryStep, Synced.Advances;
    if steps == [] {
    } else {
      var init, s := steps[..|steps| - 1], steps[|steps| - 1];
      RunsProject(w, init);
      if s.PricerCall? {
        var calls := PricerSide(init) + [s.pricerCall];
        assert calls[..|calls| - 1] == PricerSide(init);
      } else {
        assert PricerSide(init) + [] == PricerSide(init);
      }
      DisciplineForbidsUpdates(w, init, horizon);
    }
  }

  /** The largest price a redemption was settled at. */
  function TopPrice(log: Log): (q: nat)
    ensures RedemptionPricesAtMost(log, q)
    ensures q > 0 ==> exists e | e in log :: e.event.RedemptionCompleted? && e.event.price == q
  {
    if log == [] then 0
    else
      var top, e := TopPrice(Init(log)), Last(log).event;
      assert forall f | f in log :: f in Init(log) || f == Last(log);
      assert forall f | f in Init(log) :: f in log;
      if e.RedemptionCompleted? && e.price > top then assert Last(log) in log; e.price else top
  }

  /** No mint was made at a price of zero, or below the top redemption price scaled down. */
  predicate MintsNear(log: Log, lo: nat, base: nat, q: nat) {
    forall e | e in log && e.event.MintCompleted? :: e.event.price > 0 && lo * q <= base * e.event.price
  }

  lemma MintPricesNearTop(log: Log, first: Synced.Oracle, horizon: nat, p: Synced.Pair, sources: seq<Synced.Oracle>)
    requires sources != [] && sources[0] == first && Sourced(horizon, p, sources) && first.Timestamp() <= horizon
    requires PricedFrom(log, Answers(p.log))
    ensures var K, band := Windows(first, horizon), BandOf(first);
            MintsNear(log, Pow(band.lo, K), Pow(band.base, K), TopPrice(log))
  {
    hide Pow, Sourced, Windows;
    var K, band, q := Windows(first, horizon), BandOf(first), TopPrice(log);
    if q > 0 {
      var f :| f in log && f.event.RedemptionCompleted? && f.event.price == q;
      forall e | e in log && e.event.MintCompleted?
        ensures Pow(band.lo, K) * q <= Pow(band.base, K) * e.event.price
      {
        SourcedPricesAreNear(first, horizon, p, sources, f.event.priceId, e.event.priceId);
      }
    }
  }

  /** The least mint price, a whole number of units. */
  function LeastMintPrice(lo: nat, base: nat, q: nat): nat
    requires base > 0
  {
    if q == 0 then 1 else CeilDiv(lo * q, base)
  }

  lemma MintsAtLeast(log: Log, lo: nat, base: nat, q: nat)
    requires base > 0 && MintsNear(log, lo, base, q)
    ensures MintPricesAtLeast(log, LeastMintPrice(lo, base, q))
  {
    forall e | e in log && e.event.MintCompleted? ensures e.event.price >= LeastMintPrice(lo, base, q) {
      CeilLeast(e.event.price, lo * q, base);
    }
  }

  /** The whole protocol over either oracle: from an empty supply, with no overwrites, only the hub minting,
      and every price entering through the oracle, the collateral due on settled redemptions is at most
      (base/lo)^K of the collateral credited to deposits: 100/99 for the rate-checked oracle, 10000/9799 for
      the compared one, K being the number of 23-hour windows since the oracle was created. */
  lemma OracleBoundsPayouts(w: World, steps: seq<Step>, first: Synced.Oracle, horizon: nat)
    requires Initial(w.hub) && w.pricer == Synced.Create(first)
    requires Positive(first) && first.Timestamp() <= horizon
    requires KeepsPricer(w.address, steps) && Disciplined(w.pricer, PricerSide(steps), horizon)
    requires var log := Run(w, steps).hub.log;
             NoDepositorOverwrites(log) && NoRedeemerOverwrites(log) && OnlyHubMints(log)
    ensures var log, K, band := Run(w, steps).hub.log, Windows(first, horizon), BandOf(first);
            Sum(Due, log) * Pow(band.lo, K) <= Sum(Credited, log) * Pow(band.base, K)
  {
    hide *;
    RunsProject(w, steps);
    DisciplineForbidsUpdates(w, steps, horizon);
    InitialLogIsEmpty(w.hub);
    OnePricePerId(w, steps, first);
    DisciplinedIsSourced(first, horizon, PricerSide(steps));
    var log, K, band := Run(w, steps).hub.log, Windows(first, horizon), BandOf(first);
    BaseIsPositive(first);
    MintPricesNearTop(log, first, horizon, Run(w, steps).pricer, Sources(first, PricerSide(steps)));
    var lo, base, q := Pow(band.lo, K), Pow(band.base, K), TopPrice(log);
    MintsAtLeast(log, lo, base, q);
    var p := LeastMintPrice(lo, base, q);
    HubRuns.Solvency(w.hub, HubSide(w, steps), p, q);
    LeastIsEnough(lo, base, q);
    ScaleBound(Sum(Due, log), Sum(Credited, log), p, q, lo, base);
  }

  lemma LeastIsEnough(lo: nat, base: nat, q: nat)
    requires base > 0
    ensures var p := LeastMintPrice(lo, base, q); if q == 0 then p == 1 else lo * q <= p * base
  {}

  lemma BaseIsPositive(first: Synced.Oracle)
    ensures BandOf(first).base > 0
  {}

  lemma InitialLogIsEmpty(h: Hub)
    requires Initial(h)
    ensures h.log == [] && h.params.pricer == 0
  {}

  /** due * p <= credited * q, with lo * q <= p * base, scales to due * lo <= credited * base. */
  lemma ScaleBound(due: nat, credited: nat, p: nat, q: nat, lo: nat, base: nat)
    requires due * p <= credited * q
    requires if q == 0 then p == 1 else lo * q <= p * base
    ensures due * lo <= credited * base
  {
    if q == 0 {
      assert due == 0;
    } else {
      calc {
        (due * lo) * q;
        { Swap(due, lo, q); }
        due * (lo * q);
      <= { MulMono(lo * q, p * base, due); }
        due * (p * base);
        { Swap(due, p, base); }
        (due * p) * base;
      <= { MulMono(due * p, credited * q, base); }
        (credited * q) * base;
        { Swap(credited, q, base); }
        (credited * base) * q;
      }
      CancelFactor(due * lo, credited * base, q);
    }
  }
}
