/** The price log and its cached pointer to the latest price (contracts/Pricer.sol). */
module Pricers {
  import opened Words

  datatype PriceInfo = PriceInfo(price: uint256, timestamp: nat)

  datatype PriceLog = PriceLog(
    prices: map<nat, PriceInfo>, priceIds: seq<nat>, currentPriceId: nat, latestPriceId: nat)
  {
    /** A mapping read: ids never written hold zeros. */
    function Info(id: nat): PriceInfo {
      if id in prices then prices[id] else PriceInfo(0, 0)
    }

    function LatestPrice(): uint256 { Info(latestPriceId).price }

    /** Record a price under the next id, leaving the pointer alone. */
    function Append(info: PriceInfo): Option<PriceLog> {
      var id :- Unsigned(currentPriceId + 1);
      Some(PriceLog(prices[id := info], priceIds + [id], id, latestPriceId))
    }
  }

  const EMPTY_LOG: PriceLog := PriceLog(map[], [], 0, 0)

  function TryAddPrice(l: PriceLog, price: uint256, timestamp: nat): Option<PriceLog> {
    var _ :- Require(price != 0);
    var added :- l.Append(PriceInfo(price, timestamp));
    if timestamp > added.Info(added.latestPriceId).timestamp then
      Some(added.(latestPriceId := added.currentPriceId))
    else
      Some(added)
  }

  function TryUpdatePrice(l: PriceLog, id: nat, price: uint256): Option<PriceLog> {
    var _ :- Require(price != 0);
    var _ :- Require(l.Info(id).price != 0);
    Some(l.(prices := l.prices[id := PriceInfo(price, l.Info(id).timestamp)]))
  }

  class Pricer {
    var prices: map<nat, PriceInfo>
    var priceIds: seq<nat>
    var currentPriceId: nat
    var latestPriceId: nat

    function State(): PriceLog
      reads this
    {
      PriceLog(prices, priceIds, currentPriceId, latestPriceId)
    }

    constructor ()
      ensures State() == EMPTY_LOG
    {
      prices, priceIds, currentPriceId, latestPriceId := map[], [], 0, 0;
    }

    /** In a state reached from deployment: the price at the id a scan of the whole log finds. */
    method GetLatestPrice() returns (price: uint256)
      ensures Reachable(State()) ==> forall m: nat | FirstLatest(State(), m) :: price == State().Info(m).price
    {
      price := if latestPriceId in prices then prices[latestPriceId].price else 0;
      if Reachable(State()) { ReachableAgreesWithScan(State()); }
    }

    /** The recorded price; in a state reached from deployment zero exactly for ids never issued. */
    method GetPrice(priceId: nat) returns (price: uint256)
      ensures price == State().Info(priceId).price
      ensures Reachable(State()) ==> (price != 0 <==> 1 <= priceId <= State().currentPriceId)
    {
      price := if priceId in prices then prices[priceId].price else 0;
      if Reachable(State()) { ReachableAgreesWithScan(State()); }
    }

    method AddPrice(price: uint256, timestamp: nat) returns (ok: bool)
      modifies this
      ensures Transacts(ok, old(State()), State(), TryAddPrice(old(State()), price, timestamp))
    {
      if price == 0 || currentPriceId + 1 >= TWO_256 {
        return false;
      }
      currentPriceId := currentPriceId + 1;
      var priceId := currentPriceId;
      prices := prices[priceId := PriceInfo(price, timestamp)];
      priceIds := priceIds + [priceId];
      var latestTimestamp := if latestPriceId in prices then prices[latestPriceId].timestamp else 0;
      if timestamp > latestTimestamp {
        latestPriceId := priceId;
      }
      return true;
    }

    method UpdatePrice(priceId: nat, price: uint256) returns (ok: bool)
      modifies this
      ensures Transacts(ok, old(State()), State(), TryUpdatePrice(old(State()), priceId, price))
    {
      if price == 0 || priceId !in prices || prices[priceId].price == 0 {
        return false;
      }
      prices := prices[priceId := PriceInfo(price, prices[priceId].timestamp)];
      return true;
    }
  }

  // ---------------------------------------------------------------- runs

  datatype Op = AddPrice(price: uint256, timestamp: nat) | UpdatePrice(id: nat, price: uint256)

  function TryStep(l: PriceLog, op: Op): Option<PriceLog> {
    match op
    case AddPrice(price, timestamp) => TryAddPrice(l, price, timestamp)
    case UpdatePrice(id, price) => TryUpdatePrice(l, id, price)
  }

  function Run(l: PriceLog, ops: seq<Op>): PriceLog {
    if ops == [] then l
    else
      var before := Run(l, ops[..|ops| - 1]);
      match TryStep(before, ops[|ops| - 1])
      case Some(next) => next
      case None => before
  }

  /** The ids are 1, 2, ..., currentPriceId, and they are exactly the keys of the mapping. */
  ghost predicate Sequential(l: PriceLog) {
    && |l.priceIds| == l.currentPriceId
    && (forall i | 0 <= i < |l.priceIds| :: l.priceIds[i] == i + 1)
    && (forall id: nat :: id in l.prices <==> 1 <= id <= l.currentPriceId)
  }

  /** `m` is the first recorded id with the largest timestamp, and 0 when all timestamps are 0. */
  ghost predicate FirstLatest(l: PriceLog, m: nat) {
    && m <= l.currentPriceId
    && (forall id: nat | id <= l.currentPriceId :: l.Info(id).timestamp <= l.Info(m).timestamp)
    && (forall id: nat | id < m :: l.Info(id).timestamp < l.Info(m).timestamp)
  }

  lemma FirstLatestIsUnique(l: PriceLog, m: nat, n: nat)
    requires FirstLatest(l, m) && FirstLatest(l, n)
    ensures m == n
  {
    assert l.Info(m).timestamp == l.Info(n).timestamp;
  }

  lemma StepKeepsPointer(l: PriceLog, op: Op)
    requires Sequential(l) && FirstLatest(l, l.latestPriceId) && TryStep(l, op).Some?
    requires forall id: nat :: l.Info(id).price != 0 <==> 1 <= id <= l.currentPriceId
    ensures var next := TryStep(l, op).value;
            && Sequential(next)
            && FirstLatest(next, next.latestPriceId)
            && (forall id: nat :: next.Info(id).price != 0 <==> 1 <= id <= next.currentPriceId)
  {
    var next := TryStep(l, op).value;
    assert forall id: nat | id <= l.currentPriceId :: next.Info(id).timestamp == l.Info(id).timestamp;
  }

  /** In every run, whatever the order of timestamps and updates, a price is recorded for exactly
      the ids 1..currentPriceId, and the cached pointer is the one a scan of the whole log finds. */
  lemma {:induction false} PointerAgreesWithScan(ops: seq<Op>)
    ensures var l := Run(EMPTY_LOG, ops);
            && Sequential(l)
            && (forall id: nat :: l.Info(id).price != 0 <==> 1 <= id <= l.currentPriceId)
            && (forall m: nat :: FirstLatest(l, m) <==> m == l.latestPriceId)
  {
    hide TryStep;
    var l := Run(EMPTY_LOG, ops);
    if ops == [] {
    } else {
      var init, op := ops[..|ops| - 1], ops[|ops| - 1];
      PointerAgreesWithScan(init);
      if TryStep(Run(EMPTY_LOG, init), op).Some? {
        StepKeepsPointer(Run(EMPTY_LOG, init), op);
      }
    }
    forall m: nat | FirstLatest(l, m) ensures m == l.latestPriceId {
      FirstLatestIsUnique(l, m, l.latestPriceId);
    }
  }

  ghost predicate Reachable(l: PriceLog) {
    exists ops: seq<Op> :: Run(EMPTY_LOG, ops) == l
  }

  lemma ReachableAgreesWithScan(l: PriceLog)
    requires Reachable(l)
    ensures forall id: nat :: l.Info(id).price != 0 <==> 1 <= id <= l.currentPriceId
    ensures forall m: nat :: FirstLatest(l, m) <==> m == l.latestPriceId
  {
    var ops: seq<Op> :| Run(EMPTY_LOG, ops) == l;
    PointerAgreesWithScan(ops);
  }

  /** addPrice takes exactly non-zero prices while there are ids; updatePrice exactly non-zero prices for ids
      that have one. */
  lemma CallsSucceedExactly(l: PriceLog, op: Op)
    ensures TryStep(l, op).Some? <==>
            && op.price != 0
            && (op.AddPrice? ==> l.currentPriceId + 1 < TWO_256)
            && (op.UpdatePrice? ==> op.id in l.prices && l.prices[op.id].price != 0)
  {}

  /** addPrice records exactly the given price under the next id, and points to it exactly for a timestamp
      later than the latest; updatePrice changes exactly one price. */
  lemma CallsRecordWhatTheySay(l: PriceLog, op: Op)
    requires TryStep(l, op).Some?
    ensures var next := TryStep(l, op).value;
            match op
            case AddPrice(price, timestamp) =>
              next.currentPriceId == l.currentPriceId + 1 && next.priceIds == l.priceIds + [l.currentPriceId + 1]
              && (l.latestPriceId <= l.currentPriceId ==>
                    next.latestPriceId == if timestamp > l.Info(l.latestPriceId).timestamp then l.currentPriceId + 1
                                          else l.latestPriceId)
              && forall id: nat :: next.Info(id) ==
                   if id == next.currentPriceId then PriceInfo(price, timestamp) else l.Info(id)
            case UpdatePrice(target, price) =>
              next.priceIds == l.priceIds && next.latestPriceId == l.latestPriceId
              && next.currentPriceId == l.currentPriceId && l.Info(target).price != 0
              && forall id: nat :: next.Info(id) ==
                   if id == target then PriceInfo(price, l.Info(id).timestamp) else l.Info(id)
  {}

  // ---------------------------------------------------------------- the log as a history

  /** The prices a run adds, in order: every non-zero one. */
  function Added(ops: seq<Op>): seq<PriceInfo> {
    if ops == [] then []
    else
      var init, op := ops[..|ops| - 1], ops[|ops| - 1];
      Added(init) + if op.AddPrice? && op.price != 0 then [PriceInfo(op.price, op.timestamp)] else []
  }

  /** The price last given to an id: the one it was added with, or the last non-zero update after that. */
  function LastPrice(ops: seq<Op>, id: nat): uint256 {
    if ops == [] then 0
    else
      var init, op := ops[..|ops| - 1], ops[|ops| - 1];
      if op.price != 0 && (if op.AddPrice? then id == |Added(ops)| else id == op.id && 1 <= id <= |Added(init)|)
      then op.price
      else LastPrice(init, id)
  }

  /** As long as there are ids, the log of a run is its history: the ids number the added prices in order, each
      id holds the timestamp it was added with and the price last given to it. */
  lemma {:induction false} RunIsHistory(ops: seq<Op>)
    requires |Added(ops)| < TWO_256
    ensures var l := Run(EMPTY_LOG, ops);
            && l.currentPriceId == |Added(ops)|
            && (forall id: nat :: l.Info(id).price == LastPrice(ops, id))
            && (forall id: nat | 1 <= id <= |Added(ops)| :: l.Info(id).timestamp == Added(ops)[id - 1].timestamp)
  {
    hide TryStep;
    PointerAgreesWithScan(ops);
    if ops == [] {
    } else {
      var init, op := ops[..|ops| - 1], ops[|ops| - 1];
      var before := Run(EMPTY_LOG, init);
      RunIsHistory(init);
      PointerAgreesWithScan(init);
      CallsSucceedExactly(before, op);
      if TryStep(before, op).Some? {
        CallsRecordWhatTheySay(before, op);
      }
    }
  }

  /** A recorded id keeps its timestamp for ever, and its price unless updatePrice names it. */
  lemma {:induction false} RecordsArePermanent(l: PriceLog, ops: seq<Op>, id: nat)
    requires Sequential(l) && 1 <= id <= l.currentPriceId
    ensures Sequential(Run(l, ops)) && id <= Run(l, ops).currentPriceId
    ensures Run(l, ops).Info(id).timestamp == l.Info(id).timestamp
    ensures (forall op | op in ops :: op.AddPrice? || op.id != id) ==> Run(l, ops).Info(id) == l.Info(id)
  {
    if ops == [] {
    } else {
      var init, op := ops[..|ops| - 1], ops[|ops| - 1];
      RecordsArePermanent(l, init, id);
      assert op in ops;
    }
  }
}
