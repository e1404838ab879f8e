/** The pricer that keeps an oracle in step with its latest price
    (contracts/PricerWithOracle.sol), over either of the two oracles. */
module SyncedPricer {
  import opened Words
  import opened Pricers
  import Rate = RateCheck
  import Comparison = ComparisonCheck

  // ---------------------------------------------------------------- the oracle behind IRWAOracleSetter

  datatype Oracle =
    | RateChecked(rate: Rate.Oracle)
    | ExternallyChecked(comparison: Comparison.Oracle)
  {
    function Price(): uint256 {
      ToUnsigned(match this case RateChecked(o) => o.price case ExternallyChecked(o) => o.price)
    }

    function Timestamp(): nat {
      match this case RateChecked(o) => o.timestamp case ExternallyChecked(o) => o.timestamp
    }
  }

  /** Block time and Chainlink answer a call runs under. */
  datatype Env = Env(now: nat, response: Comparison.Round)

  function TrySetOracle(o: Oracle, env: Env, price: int256): Option<Oracle> {
    match o
    case RateChecked(r) =>
      var next :- Rate.TrySetPrice(r, env.now, price);
      Some(RateChecked(next))
    case ExternallyChecked(c) =>
      var next :- Comparison.TrySetPrice(c, env.now, env.response, price);
      Some(ExternallyChecked(next))
  }

  /** Both oracles store a positive price under the current block time, at least 23 hours after the last. */
  lemma OracleAfterSet(o: Oracle, env: Env, price: int256)
    requires TrySetOracle(o, env, price).Some?
    ensures var next := TrySetOracle(o, env, price).value;
            && price > 0
            && next.Price() == price
            && next.Timestamp() == env.now >= o.Timestamp() + MIN_PRICE_UPDATE_WINDOW
  {}

  // ---------------------------------------------------------------- the pair of contracts

  datatype Pair = Pair(log: PriceLog, oracle: Oracle) {
    function LatestTimestamp(): nat { log.Info(log.latestPriceId).timestamp }
  }

  function Create(oracle: Oracle): Pair {
    var log := PriceLog(map[1 := PriceInfo(oracle.Price(), oracle.Timestamp())], [1], 1, 1);
    Pair(log, oracle)
  }

  function TryUpdateOraclePrice(log: PriceLog, oracle: Oracle, env: Env, price: uint256): Option<Oracle> {
    var _ :- Require(log.LatestPrice() == oracle.Price());
    TrySetOracle(oracle, env, ToSigned(price))
  }

  function TryAddSyncedPrice(p: Pair, env: Env, price: uint256, timestamp: nat): Option<Pair> {
    var _ :- Require(price != 0);
    var added :- p.log.Append(PriceInfo(price, timestamp));
    if timestamp > added.Info(added.latestPriceId).timestamp then
      var oracle :- TryUpdateOraclePrice(added, p.oracle, env, price);
      Some(Pair(added.(latestPriceId := added.currentPriceId), oracle))
    else
      Some(Pair(added, p.oracle))
  }

  function TryAddLatestOraclePrice(p: Pair): Option<Pair> {
    var info := PriceInfo(p.oracle.Price(), p.oracle.Timestamp());
    var _ :- Require(p.log.Info(p.log.latestPriceId) != info);
    var added :- p.log.Append(info);
    Some(Pair(added.(latestPriceId := added.currentPriceId), p.oracle))
  }

  /** The oracle contract a PricerWithOracle points to. */
  datatype OracleRef =
    | RateRef(rate: Rate.RWAOracleRateCheck)
    | ComparisonRef(comparison: Comparison.RWAOracleExternalComparisonCheck)
  {
    function Footprint(): set<object> {
      match this case RateRef(o) => {o} case ComparisonRef(o) => {o}
    }

    function State(): Oracle
      reads Footprint()
    {
      match this case RateRef(o) => RateChecked(o.State()) case ComparisonRef(o) => ExternallyChecked(o.State())
    }
  }

  class PricerWithOracle {
    var prices: map<nat, PriceInfo>
    var priceIds: seq<nat>
    var currentPriceId: nat
    var latestPriceId: nat
    const rwaOracle: OracleRef

    function State(): Pair
      reads this, rwaOracle.Footprint()
    {
      Pair(PriceLog(prices, priceIds, currentPriceId, latestPriceId), rwaOracle.State())
    }

    constructor (oracle: OracleRef)
      ensures State() == Create(oracle.State()) && rwaOracle == oracle
    {
      rwaOracle := oracle;
      currentPriceId, latestPriceId, priceIds := 1, 1, [1];
      prices := map[1 := PriceInfo(oracle.State().Price(), oracle.State().Timestamp())];
    }

    method GetOracleData() returns (info: PriceInfo)
      ensures info == PriceInfo(rwaOracle.State().Price(), rwaOracle.State().Timestamp())
    {
      var price, timestamp;
      match rwaOracle {
        case RateRef(o) => price, timestamp := o.GetPriceData();
        case ComparisonRef(o) => price, timestamp := o.GetPriceData();
      }
      return PriceInfo(price, timestamp);
    }

    method SetOraclePrice(env: Env, price: int256) returns (ok: bool)
      modifies rwaOracle.Footprint()
      ensures Transacts(ok, old(rwaOracle.State()), rwaOracle.State(), TrySetOracle(old(rwaOracle.State()), env, price))
    {
      match rwaOracle
      case RateRef(o) => ok := o.SetPrice(env.now, price);
      case ComparisonRef(o) => ok := o.SetPrice(env.now, env.response, price);
    }

    method AddPrice(env: Env, price: uint256, timestamp: nat) returns (ok: bool)
      modifies this, rwaOracle.Footprint()
      ensures Transacts(ok, old(State()), State(), TryAddSyncedPrice(old(State()), env, price, timestamp))
    {
      hide Rate.TrySetPrice, Comparison.TrySetPrice;
      if price == 0 || currentPriceId + 1 >= TWO_256 {
        return false;
      }
      var before := State().log;
      currentPriceId := currentPriceId + 1;
      var priceId := currentPriceId;
      prices := prices[priceId := PriceInfo(price, timestamp)];
      priceIds := priceIds + [priceId];
      var latest := if latestPriceId in prices then prices[latestPriceId] else PriceInfo(0, 0);
      if timestamp > latest.timestamp {
        var data := GetOracleData();
        ok := latest.price == data.price;
        if ok {
          ok := SetOraclePrice(env, ToSigned(price));
        }
        if !ok {
          // the whole transaction is rolled back
          prices, priceIds, currentPriceId := before.prices, before.priceIds, before.currentPriceId;
          return;
        }
        latestPriceId := priceId;
      }
      return true;
    }

    method UpdatePrice(priceId: nat, price: uint256) returns (ok: bool)
      modifies this
      ensures rwaOracle.State() == old(rwaOracle.State())
      ensures Transacts(ok, old(State()).log, State().log, TryUpdatePrice(old(State()).log, priceId, price))
    {
      if price == 0 || priceId !in prices || prices[priceId].price == 0 {
        return false;
      }
      prices := prices[priceId := PriceInfo(price, prices[priceId].timestamp)];
      return true;
    }

    method AddLatestOraclePrice() returns (ok: bool)
      modifies this
      ensures Transacts(ok, old(State()), State(), TryAddLatestOraclePrice(old(State())))
    {
      var info := GetOracleData();
      var latest := if latestPriceId in prices then prices[latestPriceId] else PriceInfo(0, 0);
      if latest == info || currentPriceId + 1 >= TWO_256 {
        return false;
      }
      currentPriceId := currentPriceId + 1;
      prices := prices[currentPriceId := info];
      priceIds := priceIds + [currentPriceId];
      latestPriceId := currentPriceId;
      return true;
    }
  }

  // ---------------------------------------------------------------- runs

  /** `SetOracle` is a setPrice call that reaches the oracle from outside the pricer. */
  datatype Op =
    | AddPrice(price: uint256, timestamp: nat)
    | UpdatePrice(id: nat, price: uint256)
    | AddLatestOraclePrice
    | SetOracle(signedPrice: int256)

  datatype Call = Call(env: Env, op: Op)

  function TryStep(p: Pair, c: Call): Option<Pair> {
    match c.op
    case AddPrice(price, timestamp) => TryAddSyncedPrice(p, c.env, price, timestamp)
    case UpdatePrice(id, price) =>
      var log :- TryUpdatePrice(p.log, id, price);
      Some(Pair(log, p.oracle))
    case AddLatestOraclePrice => TryAddLatestOraclePrice(p)
    case SetOracle(price) =>
      var oracle :- TrySetOracle(p.oracle, c.env, price);
      Some(Pair(p.log, oracle))
  }

  function Run(p: Pair, calls: seq<Call>): Pair {
    if calls == [] then p
    else
      var before := Run(p, calls[..|calls| - 1]);
      match TryStep(before, calls[|calls| - 1])
      case Some(next) => next
      case None => before
  }

  /** A successful call that moves the pointer to a price given by the caller. */
  predicate Advances(p: Pair, c: Call) {
    c.op.AddPrice? && TryStep(p, c).Some? && TryStep(p, c).value.log.latestPriceId != p.log.latestPriceId
  }

  ghost predicate WellFormed(p: Pair) {
    Sequential(p.log) && 1 <= p.log.latestPriceId <= p.log.currentPriceId
  }

  lemma StepKeepsWellFormed(p: Pair, c: Call)
    requires WellFormed(p) && TryStep(p, c).Some?
    ensures WellFormed(TryStep(p, c).value)
  {
    hide TrySetOracle;
  }

  lemma {:induction false} RunIsWellFormed(oracle: Oracle, calls: seq<Call>)
    ensures WellFormed(Run(Create(oracle), calls))
  {
    hide TryStep;
    if calls == [] {
    } else {
      var init, c := calls[..|calls| - 1], calls[|calls| - 1];
      RunIsWellFormed(oracle, init);
      if TryStep(Run(Create(oracle), init), c).Some? {
        StepKeepsWellFormed(Run(Create(oracle), init), c);
      }
    }
  }

  /** addPrice records exactly the given price under the next id, whether or not it advances the
      pointer; it advances exactly for a timestamp later than the latest, and otherwise leaves the oracle alone. */
  lemma AddPriceRecords(p: Pair, c: Call)
    requires WellFormed(p) && c.op.AddPrice? && TryStep(p, c).Some?
    ensures var next := TryStep(p, c).value;
            && next.log.currentPriceId == p.log.currentPriceId + 1
            && (forall id: nat :: next.log.Info(id) ==
                  if id == next.log.currentPriceId then PriceInfo(c.op.price, c.op.timestamp) else p.log.Info(id))
            && (Advances(p, c) <==> c.op.timestamp > p.LatestTimestamp())
            && (if Advances(p, c) then next.log.latestPriceId == next.log.currentPriceId else next.oracle == p.oracle)
  {
    hide TrySetOracle;
  }

  /** The constructor records the oracle's price and timestamp under id 1 and points to it. */
  lemma CreateExactly(oracle: Oracle, id: nat)
    ensures var p := Create(oracle);
            && p.oracle == oracle && p.log.currentPriceId == 1 == p.log.latestPriceId && WellFormed(p)
            && p.log.Info(id) == if id == 1 then PriceInfo(oracle.Price(), oracle.Timestamp()) else PriceInfo(0, 0)
  {}

  // ---------------------------------------------------------------- price agreement

  predicate InSync(p: Pair) { p.log.LatestPrice() == p.oracle.Price() }

  /** The oracle takes the price under the call's block and round. */
  predicate OracleTakes(o: Oracle, env: Env, price: int256) {
    match o
    case RateChecked(r) => Rate.TrySetPrice(r, env.now, price).Some?
    case ExternallyChecked(c) => Comparison.TrySetPrice(c, env.now, env.response, price).Some?
  }

  /** Exactly when each call succeeds. addPrice takes every non-zero price while there are ids, also one that is
      out of order; only a timestamp later than the latest needs agreement and the oracle's consent. */
  lemma CallsSucceedExactly(p: Pair, c: Call)
    requires WellFormed(p)
    ensures TryStep(p, c).Some? <==>
            match c.op
            case AddPrice(price, timestamp) =>
              && price != 0 && p.log.currentPriceId + 1 < TWO_256
              && (timestamp > p.LatestTimestamp() ==> InSync(p) && OracleTakes(p.oracle, c.env, ToSigned(price)))
            case UpdatePrice(id, price) => price != 0 && 1 <= id <= p.log.currentPriceId && p.log.Info(id).price != 0
            case AddLatestOraclePrice =>
              && p.log.currentPriceId + 1 < TWO_256
              && (!InSync(p) || p.LatestTimestamp() != p.oracle.Timestamp())
            case SetOracle(price) => OracleTakes(p.oracle, c.env, price)
  {
    hide Rate.TrySetPrice, Comparison.TrySetPrice;
  }

  /** What the calls other than addPrice change. */
  lemma OtherCallsChange(p: Pair, c: Call)
    requires WellFormed(p) && TryStep(p, c).Some? && !c.op.AddPrice?
    ensures var next := TryStep(p, c).value;
            match c.op
            case UpdatePrice(target, price) =>
              && next == p.(log := p.log.(prices := next.log.prices))
              && forall id: nat :: next.log.Info(id) ==
                   if id == target then PriceInfo(price, p.log.Info(id).timestamp) else p.log.Info(id)
            case AddLatestOraclePrice =>
              var added := p.log.currentPriceId + 1;
              && next == p.(log := PriceLog(next.log.prices, p.log.priceIds + [added], added, added))
              && forall id: nat :: next.log.Info(id) ==
                   if id == added then PriceInfo(p.oracle.Price(), p.oracle.Timestamp()) else p.log.Info(id)
            case SetOracle(price) =>
              && next.log == p.log && price > 0
              && next.oracle.Price() == price && next.oracle.Timestamp() == c.env.now
  {
    hide Rate.TrySetPrice, Comparison.TrySetPrice, TrySetOracle;
    if c.op.SetOracle? {
      OracleAfterSet(p.oracle, c.env, c.op.signedPrice);
    }
  }

  /** An outside setPrice, or an updatePrice of the latest id, has succeeded since the last sync. */
  predicate Disturbed(p: Pair, calls: seq<Call>) {
    if calls == [] then false
    else
      var init, c := calls[..|calls| - 1], calls[|calls| - 1];
      var before := Run(p, init);
      if TryStep(before, c).None? then Disturbed(p, init)
      else match c.op
        case SetOracle(_) => true
        case UpdatePrice(id, _) => id == before.log.latestPriceId || Disturbed(p, init)
        case AddLatestOraclePrice => false
        case AddPrice(_, _) => !Advances(before, c) && Disturbed(p, init)
  }

  /** A pointer-advancing addPrice succeeds only from a state whose prices agree; it ends in one,
      with the oracle stamped by the block. */
  lemma AdvanceNeedsAndKeepsSync(p: Pair, c: Call)
    requires WellFormed(p) && Advances(p, c)
    ensures InSync(p) && InSync(TryStep(p, c).value)
    ensures TryStep(p, c).value.LatestTimestamp() == c.op.timestamp > p.LatestTimestamp()
    ensures TryStep(p, c).value.oracle.Timestamp() == c.env.now >= p.oracle.Timestamp() + MIN_PRICE_UPDATE_WINDOW
  {
    hide TrySetOracle;
    OracleAfterSet(p.oracle, c.env, ToSigned(c.op.price));
  }

  /** After addLatestOraclePrice, successful or refused, price and timestamp both agree
      (unless the ids are exhausted). */
  lemma CatchUpRestoresAgreement(p: Pair)
    requires p.log.currentPriceId + 1 < TWO_256
    ensures var after := match TryAddLatestOraclePrice(p) case Some(next) => next case None => p;
            after.log.Info(after.log.latestPriceId) == PriceInfo(p.oracle.Price(), p.oracle.Timestamp())
            && after.oracle == p.oracle
  {}

  /** From construction on, the pricer's latest price is the oracle's price in every state that
      is not disturbed. */
  lemma {:induction false} AgreementOverRuns(oracle: Oracle, calls: seq<Call>)
    ensures Disturbed(Create(oracle), calls) || InSync(Run(Create(oracle), calls))
  {
    hide TrySetOracle;
    if calls == [] {
    } else {
      var init, c := calls[..|calls| - 1], calls[|calls| - 1];
      var before := Run(Create(oracle), init);
      AgreementOverRuns(oracle, init);
      RunIsWellFormed(oracle, init);
      if Advances(before, c) {
        AdvanceNeedsAndKeepsSync(before, c);
      }
    }
  }

  // ---------------------------------------------------------------- the skipped timestamp check

  /** The fact addLatestOraclePrice relies on without checking it: the pointer holds the largest
      recorded timestamp, and the oracle's is not smaller. */
  ghost predicate PointerIsLatest(p: Pair) {
    && (forall id: nat | 1 <= id <= p.log.currentPriceId :: p.log.Info(id).timestamp <= p.LatestTimestamp())
    && p.LatestTimestamp() <= p.oracle.Timestamp()
  }

  /** A call that moves the pointer to a timestamp later than its own block. */
  predicate Premature(p: Pair, c: Call) {
    Advances(p, c) && c.op.timestamp > c.env.now
  }

  /** One step breaks the fact exactly when it is premature. */
  lemma StepKeepsPointerLatest(p: Pair, c: Call)
    requires WellFormed(p) && PointerIsLatest(p) && TryStep(p, c).Some?
    ensures PointerIsLatest(TryStep(p, c).value) <==> !Premature(p, c)
  {
    hide TrySetOracle;
    var next := TryStep(p, c).value;
    assert forall i: nat | 1 <= i <= p.log.currentPriceId :: next.log.Info(i).timestamp == p.log.Info(i).timestamp;
    match c.op
    case AddPrice(price, timestamp) =>
      if Advances(p, c) { AdvanceNeedsAndKeepsSync(p, c); }
    case UpdatePrice(id, price) =>
    case AddLatestOraclePrice =>
    case SetOracle(price) =>
      OracleAfterSet(p.oracle, c.env, price);
  }

  /** The fact holds in every state of the run. */
  ghost predicate AlwaysLatest(p: Pair, calls: seq<Call>) {
    PointerIsLatest(Run(p, calls)) && (calls != [] ==> AlwaysLatest(p, calls[..|calls| - 1]))
  }

  predicate NeverPremature(p: Pair, calls: seq<Call>) {
    calls != [] ==>
      && NeverPremature(p, calls[..|calls| - 1])
      && !Premature(Run(p, calls[..|calls| - 1]), calls[|calls| - 1])
  }

  /** Over whole runs the fact holds in every state exactly when no addPrice that advanced the
      pointer carried a timestamp later than its own block. */
  lemma {:induction false} PointerLatestOverRuns(oracle: Oracle, calls: seq<Call>)
    ensures AlwaysLatest(Create(oracle), calls) <==> NeverPremature(Create(oracle), calls)
  {
    hide TryStep, Premature, PointerIsLatest;
    var start := Create(oracle);
    if calls == [] {
      CreatedIsLatest(oracle);
    } else {
      var init, c := calls[..|calls| - 1], calls[|calls| - 1];
      var before := Run(start, init);
      PointerLatestOverRuns(oracle, init);
      if AlwaysLatest(start, init) {
        RunIsWellFormed(oracle, init);
        CallKeepsPointerLatest(before, c);
      }
    }
  }

  lemma CreatedIsLatest(oracle: Oracle)
    ensures PointerIsLatest(Create(oracle))
  {}

  lemma CallKeepsPointerLatest(p: Pair, c: Call)
    requires WellFormed(p) && PointerIsLatest(p)
    ensures PointerIsLatest(if TryStep(p, c).Some? then TryStep(p, c).value else p) <==> !Premature(p, c)
  {
    hide PointerIsLatest, TrySetOracle;
    if TryStep(p, c).Some? { StepKeepsPointerLatest(p, c); }
  }

  /** addLatestOraclePrice leaves the pointer on the largest recorded timestamp exactly when the
      oracle's timestamp is not before the one it replaces. */
  lemma SkippedCheckIsExact(p: Pair)
    requires WellFormed(p) && TryAddLatestOraclePrice(p).Some?
    requires forall id: nat | 1 <= id <= p.log.currentPriceId :: p.log.Info(id).timestamp <= p.LatestTimestamp()
    ensures var next := TryAddLatestOraclePrice(p).value;
            (forall id: nat | 1 <= id <= next.log.currentPriceId ::
               next.log.Info(id).timestamp <= next.LatestTimestamp())
            <==> p.LatestTimestamp() <= p.oracle.Timestamp()
  {
    var next := TryAddLatestOraclePrice(p).value;
    assert forall id: nat | 1 <= id <= p.log.currentPriceId :: next.log.Info(id) == p.log.Info(id);
    assert next.log.Info(p.log.latestPriceId).timestamp == p.LatestTimestamp();
  }

  lemma RunOneMore(p: Pair, calls: seq<Call>, c: Call, after: Pair)
    requires TryStep(Run(p, calls), c) == Some(after)
    ensures Run(p, calls + [c]) == after
  {
    assert (calls + [c])[..|calls|] == calls;
  }

  /** A price stamped in the future, an outside setPrice, and a catch-up. */
  function FutureTimestampRun(): seq<Call> {
    var quiet := Comparison.Round(0, 0, 0, 0, 0);
    [] + [Call(Env(200000, quiet), Op.AddPrice(1000, 900000))]
       + [Call(Env(300000, quiet), SetOracle(1001))]
       + [Call(Env(300000, quiet), AddLatestOraclePrice)]
  }

  /** In this run the skipped check would have failed: the pointer ends on a price older than
      one already recorded. */
  lemma FutureTimestampMovesPointerBack()
    ensures var p := Run(Create(RateChecked(Rate.Oracle(1000, 100000))), FutureTimestampRun());
            p.log.currentPriceId == p.log.latestPriceId == 3
            && p.LatestTimestamp() == 300000 && p.log.Info(2).timestamp == 900000
  {
    hide Rate.TrySetPrice, Run, Comparison.TrySetPrice;
    Rate.SetPriceAcceptsExactly(Rate.Oracle(1000, 100000), 200000, 1000);
    Rate.SetPriceAcceptsExactly(Rate.Oracle(1000, 200000), 300000, 1001);
    var p0 := Create(RateChecked(Rate.Oracle(1000, 100000)));
    var l1 := p0.log.prices[2 := PriceInfo(1000, 900000)];
    var p1 := Pair(PriceLog(l1, [1] + [2], 2, 2), RateChecked(Rate.Oracle(1000, 200000)));
    var p2 := Pair(p1.log, RateChecked(Rate.Oracle(1001, 300000)));
    var p3 := Pair(PriceLog(l1[3 := PriceInfo(1001, 300000)], [1] + [2] + [3], 3, 3), p2.oracle);
    var calls := FutureTimestampRun();
    EmptyRun(p0);
    RunOneMore(p0, [], calls[0], p1);
    RunOneMore(p0, [] + [calls[0]], calls[1], p2);
    RunOneMore(p0, [] + [calls[0]] + [calls[1]], calls[2], p3);
  }

  lemma EmptyRun(p: Pair)
    ensures Run(p, []) == p
  {}
}
