/** The subscription and redemption hub of USDY as a state machine: every external call of
    contracts/RWAHub.sol, contracts/RWAHubOffChainRedemptions.sol and contracts/usdy/USDYManager.sol
    as a function from states to states, `None` when the call reverts. */
module Hubs {
  import opened Words
  import opened Sums
  import opened HubMath
  import opened Books
  import opened Tokens

  /** Set once by the constructors: decimalsMultiplier, the hub's own address and assetRecipient. */
  datatype Config = Config(multiplier: Multiplier, self: Address, assetRecipient: Address)

  type Multiplier = m: uint256 | m > 0 witness 1

  datatype Params = Params(
    mintFee: uint256, redemptionFee: uint256,
    minimumDeposit: uint256, minimumRedemption: uint256, minimumOffChainRedemption: uint256,
    subscriptionPaused: bool, redemptionPaused: bool, offChainRedemptionPaused: bool,
    feeRecipient: Address, assetSender: Address, pricer: Address)

  datatype Hub = Hub(cfg: Config, params: Params, book: Book, rwa: Ledger, collateral: Ledger, log: Log)

  /** What a call sees of its surroundings: sender, block time, whether the sender holds the role the
      call asks for, whether the hub may mint the token, the hub's own lists, the token's gate, and what
      the pricers there are answer. All of it may differ from one call to the next. */
  datatype Ctx = Ctx(
    sender: Address, now: BlockTime, hasRole: bool, hubMayMint: bool,
    blocked: set<Address>, sanctioned: set<Address>, gate: Gate, pricers: map<Address, map<nat, uint256>>)
  {
    /** A call to getPrice reverts where there is no pricer, as at the zero address. */
    predicate HasPricer(pricer: Address) {
      pricer != 0 && pricer in pricers
    }

    function Price(pricer: Address, priceId: nat): uint256 {
      if HasPricer(pricer) && priceId in pricers[pricer] then pricers[pricer][priceId] else 0
    }

    /** _checkRestrictions does not revert. */
    predicate Unrestricted(a: Address) {
      a !in blocked && a !in sanctioned
    }
  }

  function Record(h: Hub, c: Ctx, e: Event): Hub {
    h.(book := Apply(h.book, e), log := h.log + [Entry(c.now, e)])
  }

  // ---------------------------------------------------------------- subscriptions

  /** The fee, if there is one, and then the rest, out of the sender's collateral. */
  function TryTakeDeposit(
    l: Ledger, cfg: Config, feeRecipient: Address, sender: Address, afterFee: uint256, fee: uint256)
    : Option<Ledger>
  {
    var paidFee :- if fee > 0 then l.TransferFrom(cfg.self, sender, feeRecipient, fee) else Some(l);
    paidFee.TransferFrom(cfg.self, sender, cfg.assetRecipient, afterFee)
  }

  function TryRequestSubscription(h: Hub, c: Ctx, amount: uint256): Option<Hub> {
    var _ :- Require(!h.params.subscriptionPaused && c.Unrestricted(c.sender));
    var _ :- Require(amount >= h.params.minimumDeposit);
    var fee :- TryFee(amount, h.params.mintFee);
    var afterFee :- Unsigned(amount - fee);
    var _ :- Unsigned(h.book.nextDeposit + 1);
    var paid :- TryTakeDeposit(h.collateral, h.cfg, h.params.feeRecipient, c.sender, afterFee, fee);
    Some(Record(h, c, MintRequested(c.sender, h.book.nextDeposit, amount, afterFee, fee)).(collateral := paid))
  }

  function TryAddProof(h: Hub, c: Ctx, id: Id, user: Address, amountAfterFee: uint256): Option<Hub> {
    var _ :- Require(c.hasRole && c.Unrestricted(user));
    var _ :- Require(h.book.Deposit(id).user == 0);
    Some(Record(h, c, DepositProofAdded(id, user, amountAfterFee)))
  }

  /** The manager's _claimMint around the hub's. */
  function TryClaimOne(h: Hub, c: Ctx, id: Id): Option<Hub> {
    var _ :- Require(0 < h.book.Claimable(id) <= c.now);
    var d := h.book.Deposit(id);
    var _ :- Require(d.priceId != 0 && c.HasPricer(h.params.pricer));
    var price := c.Price(h.params.pricer, d.priceId);
    var owed :- TryMintAmount(d.amount, price, h.cfg.multiplier);
    var _ :- Require(c.hubMayMint);
    var rwa :- TryMint(h.rwa, c.gate, h.cfg.self, d.user, owed);
    Some(Record(h, c, MintCompleted(d.user, id, owed, d.amount, price, d.priceId)).(rwa := rwa))
  }

  function TryClaimEach(h: Hub, c: Ctx, ids: seq<Id>): (r: Option<Hub>)
    ensures r.Some? ==> r.value.cfg == h.cfg && r.value.params == h.params && r.value.collateral == h.collateral
    decreases |ids|
  {
    if ids == [] then Some(h)
    else
      var next :- TryClaimOne(h, c, ids[0]);
      TryClaimEach(next, c, ids[1..])
  }

  function TryClaimMint(h: Hub, c: Ctx, ids: seq<Id>): Option<Hub> {
    var _ :- Require(!h.params.subscriptionPaused);
    TryClaimEach(h, c, ids)
  }

  function TrySetClaimableTimestamp(h: Hub, c: Ctx, timestamp: uint256, ids: seq<Id>): Option<Hub> {
    var _ :- Require(c.hasRole && timestamp >= c.now);
    Some(SetTimestamps(h, c, timestamp, ids))
  }

  function SetTimestamps(h: Hub, c: Ctx, timestamp: uint256, ids: seq<Id>): (r: Hub)
    ensures r == h.(book := r.book, log := r.log)
    decreases |ids|
  {
    if ids == [] then h
    else SetTimestamps(Record(h, c, ClaimableTimestampSet(timestamp, ids[0])), c, timestamp, ids[1..])
  }

  // ---------------------------------------------------------------- redemptions

  function TryRequestRedemption(h: Hub, c: Ctx, amount: uint256): Option<Hub> {
    var _ :- Require(!h.params.redemptionPaused && amount >= h.params.minimumRedemption);
    var _ :- Unsigned(h.book.nextRedemption + 1);
    var rwa :- TryBurnFrom(h.rwa, c.gate, h.cfg.self, c.sender, amount);
    Some(Record(h, c, RedemptionRequested(c.sender, h.book.nextRedemption, amount)).(rwa := rwa))
  }

  function TryRequestRedemptionServicedOffchain(h: Hub, c: Ctx, amount: uint256): Option<Hub> {
    var _ :- Require(!h.params.offChainRedemptionPaused && amount >= h.params.minimumOffChainRedemption);
    var _ :- Unsigned(h.book.nextRedemption + 1);
    var rwa :- TryBurnFrom(h.rwa, c.gate, h.cfg.self, c.sender, amount);
    Some(Record(h, c, RedemptionRequestedServicedOffChain(c.sender, h.book.nextRedemption, amount)).(rwa := rwa))
  }

  /** What one record is worth: payee, collateral due and the fee kept from it. */
  datatype Payment = Payment(user: Address, due: uint256, fee: uint256) {
    function Net(): nat { if fee <= due then due - fee else 0 }
  }

  function TryQuote(h: Hub, c: Ctx, id: Id): Option<Payment>
  {
    var r := h.book.Redemption(id);
    var _ :- Require(c.Unrestricted(r.user) && r.priceId != 0 && c.HasPricer(h.params.pricer));
    var due :- TryRedemptionAmount(r.amount, c.Price(h.params.pricer, r.priceId), h.cfg.multiplier);
    var fee :- TryFee(due, h.params.redemptionFee);
    var _ :- Unsigned(due - fee);
    Some(Payment(r.user, due, fee))
  }

  function TrySettleOne(h: Hub, c: Ctx, id: Id): Option<Hub>
  {
    var p :- TryQuote(h, c, id);
    var r := h.book.Redemption(id);
    var paid :- h.collateral.TransferFrom(h.cfg.self, h.params.assetSender, p.user, p.Net());
    var e := RedemptionCompleted(p.user, id, r.amount, p.due, p.fee, c.Price(h.params.pricer, r.priceId), r.priceId);
    Some(Record(h, c, e).(collateral := paid))
  }

  /** The loop of claimRedemption, accumulating fees, and the fee transfer after it. */
  function TrySettleEach(h: Hub, c: Ctx, ids: seq<Id>, fees: uint256): (r: Option<Hub>)
    ensures r.Some? ==> r.value.cfg == h.cfg && r.value.params == h.params && r.value.rwa == h.rwa
    decreases |ids|
  {
    if ids == [] then
      if fees > 0 then
        var paid :- h.collateral.TransferFrom(h.cfg.self, h.params.assetSender, h.params.feeRecipient, fees);
        Some(h.(collateral := paid))
      else Some(h)
    else
      var p :- TryQuote(h, c, ids[0]);
      var sum :- Unsigned(fees + p.fee);
      var next :- TrySettleOne(h, c, ids[0]);
      TrySettleEach(next, c, ids[1..], sum)
  }

  function TryClaimRedemption(h: Hub, c: Ctx, ids: seq<Id>): Option<Hub>
  {
    var _ :- Require(!h.params.redemptionPaused);
    TrySettleEach(h, c, ids, 0)
  }

  // ---------------------------------------------------------------- price ids

  function TrySetDepositPrices(h: Hub, c: Ctx, ids: seq<Id>, priceIds: seq<uint256>): (r: Option<Hub>)
    requires |ids| == |priceIds|
    ensures r.Some? ==> r.value == h.(book := r.value.book, log := r.value.log)
    decreases |ids|
  {
    if ids == [] then Some(h)
    else
      var d := h.book.Deposit(ids[0]);
      var _ :- Require(d.user != 0 && d.priceId == 0);
      TrySetDepositPrices(Record(h, c, PriceIdSetForDeposit(ids[0], priceIds[0])), c, ids[1..], priceIds[1..])
  }

  function TrySetPriceIdForDeposits(h: Hub, c: Ctx, ids: seq<Id>, priceIds: seq<uint256>): Option<Hub> {
    if !c.hasRole || |ids| != |priceIds| then None else TrySetDepositPrices(h, c, ids, priceIds)
  }

  function TrySetRedemptionPrices(h: Hub, c: Ctx, ids: seq<Id>, priceIds: seq<uint256>): (r: Option<Hub>)
    requires |ids| == |priceIds|
    ensures r.Some? ==> r.value == h.(book := r.value.book, log := r.value.log)
    decreases |ids|
  {
    if ids == [] then Some(h)
    else
      var _ :- Require(h.book.Redemption(ids[0]).priceId == 0);
      TrySetRedemptionPrices(Record(h, c, PriceIdSetForRedemption(ids[0], priceIds[0])), c, ids[1..], priceIds[1..])
  }

  function TrySetPriceIdForRedemptions(h: Hub, c: Ctx, ids: seq<Id>, priceIds: seq<uint256>): Option<Hub> {
    if !c.hasRole || |ids| != |priceIds| then None else TrySetRedemptionPrices(h, c, ids, priceIds)
  }

  // ---------------------------------------------------------------- administration

  function TryOverwriteDepositor(h: Hub, c: Ctx, id: Id, user: Address, amount: uint256, priceId: uint256): Option<Hub>
  {
    var _ :- Require(c.hasRole && c.Unrestricted(user));
    Some(Record(h, c, DepositorOverwritten(id, user, amount, priceId)))
  }

  function TryOverwriteRedeemer(h: Hub, c: Ctx, id: Id, user: Address, amount: uint256, priceId: uint256): Option<Hub> {
    var _ :- Require(c.hasRole && c.Unrestricted(user));
    Some(Record(h, c, RedeemerOverwritten(id, user, amount, priceId)))
  }

  /** The one-field setters and the pause switches. */
  datatype Setting =
    | MintFee(bps: uint256)
    | RedemptionFee(bps: uint256)
    | MinimumDeposit(minimum: uint256)
    | MinimumRedemption(minimum: uint256)
    | MinimumOffChainRedemption(minimum: uint256)
    | FeeRecipient(account: Address)
    | AssetSender(account: Address)
    | Pricer(account: Address)
    | PauseSubscription(paused: bool)
    | PauseRedemption(paused: bool)
    | PauseOffChainRedemption(paused: bool)

  function TrySet(p: Params, c: Ctx, s: Setting): Option<Params> {
    var _ :- Require(c.hasRole);
    match s
    case MintFee(bps) =>
      var _ :- Require(bps <= BPS_DENOMINATOR);
      Some(p.(mintFee := bps))
    case RedemptionFee(bps) =>
      var _ :- Require(bps <= BPS_DENOMINATOR);
      Some(p.(redemptionFee := bps))
    case MinimumDeposit(minimum) =>
      var _ :- Require(minimum >= BPS_DENOMINATOR);
      Some(p.(minimumDeposit := minimum))
    case MinimumRedemption(minimum) =>
      var _ :- Require(minimum >= BPS_DENOMINATOR);
      Some(p.(minimumRedemption := minimum))
    case MinimumOffChainRedemption(minimum) => Some(p.(minimumOffChainRedemption := minimum))
    case FeeRecipient(account) => Some(p.(feeRecipient := account))
    case AssetSender(account) => Some(p.(assetSender := account))
    case Pricer(account) => Some(p.(pricer := account))
    case PauseSubscription(paused) => Some(p.(subscriptionPaused := paused))
    case PauseRedemption(paused) => Some(p.(redemptionPaused := paused))
    case PauseOffChainRedemption(paused) => Some(p.(offChainRedemptionPaused := paused))
  }

  // ---------------------------------------------------------------- calls and runs

  /** `Usdy` is a token call that does not go through the hub; `Collateral` is anything the outside
      world does to the collateral token. */
  datatype Op =
    | RequestSubscription(amount: uint256)
    | AddProof(id: Id, user: Address, amount: uint256)
    | ClaimMint(ids: seq<Id>)
    | SetClaimableTimestamp(timestamp: uint256, ids: seq<Id>)
    | RequestRedemption(amount: uint256)
    | RequestRedemptionServicedOffchain(amount: uint256)
    | ClaimRedemption(ids: seq<Id>)
    | SetPriceIdForDeposits(ids: seq<Id>, priceIds: seq<uint256>)
    | SetPriceIdForRedemptions(ids: seq<Id>, priceIds: seq<uint256>)
    | OverwriteDepositor(id: Id, user: Address, amount: uint256, priceId: uint256)
    | OverwriteRedeemer(id: Id, user: Address, amount: uint256, priceId: uint256)
    | Set(setting: Setting)
    | Usdy(call: Tokens.Op)
    | Collateral(ledger: Ledger)

  datatype Call = Call(ctx: Ctx, op: Op)

  function TryUsdy(h: Hub, c: Ctx, call: Tokens.Op): Option<Hub> {
    var rwa :- Tokens.TryStep(h.rwa, c.gate, c.sender, c.hasRole, call);
    if call.Mint? then Some(Record(h, c, UsdyMinted(call.to, call.amount)).(rwa := rwa))
    else Some(h.(rwa := rwa))
  }

  function TryStep(h: Hub, call: Call): Option<Hub>
  {
    var c := call.ctx;
    match call.op
    case RequestSubscription(amount) => TryRequestSubscription(h, c, amount)
    case AddProof(id, user, amount) => TryAddProof(h, c, id, user, amount)
    case ClaimMint(ids) => TryClaimMint(h, c, ids)
    case SetClaimableTimestamp(timestamp, ids) => TrySetClaimableTimestamp(h, c, timestamp, ids)
    case RequestRedemption(amount) => TryRequestRedemption(h, c, amount)
    case RequestRedemptionServicedOffchain(amount) => TryRequestRedemptionServicedOffchain(h, c, amount)
    case ClaimRedemption(ids) => TryClaimRedemption(h, c, ids)
    case SetPriceIdForDeposits(ids, priceIds) => TrySetPriceIdForDeposits(h, c, ids, priceIds)
    case SetPriceIdForRedemptions(ids, priceIds) => TrySetPriceIdForRedemptions(h, c, ids, priceIds)
    case OverwriteDepositor(id, user, amount, priceId) => TryOverwriteDepositor(h, c, id, user, amount, priceId)
    case OverwriteRedeemer(id, user, amount, priceId) => TryOverwriteRedeemer(h, c, id, user, amount, priceId)
    case Set(setting) =>
      var params :- TrySet(h.params, c, setting);
      Some(h.(params := params))
    case Usdy(tokenCall) => TryUsdy(h, c, tokenCall)
    case Collateral(ledger) => Some(h.(collateral := ledger))
  }

  /** The hub invariant: the log is legal, the records are its replay, fees are at most 100%, the
      token's balances add up to its supply, and the supply plus what redemptions burned never
      exceeds what was minted. */
  ghost predicate Inv(h: Hub) {
    && Legal(Unit(h.cfg.multiplier), h.log)
    && h.book == Replay(h.log)
    && h.params.mintFee <= BPS_DENOMINATOR && h.params.redemptionFee <= BPS_DENOMINATOR
    && Balanced(h.rwa)
    && h.rwa.supply + Sum(Burned, h.log) <= Sum(Minted, h.log)
  }

  /** A deployed hub over a token without supply. */
  ghost predicate Initial(h: Hub) {
    && h.book == EMPTY_BOOK && h.log == []
    && h.params.mintFee == 0 && h.params.redemptionFee == 0 && h.params.pricer == 0
    && h.rwa == Ledger(map[], map[], 0)
  }

  /** State after a run; a reverting call changes nothing. */
  function Run(h: Hub, calls: seq<Call>): Hub {
    if calls == [] then h
    else
      var before := Run(h, calls[..|calls| - 1]);
      match TryStep(before, calls[|calls| - 1])
      case Some(next) => next
      case None => before
  }

  lemma RunOneMore(h: Hub, calls: seq<Call>, c: Call)
    ensures var before := Run(h, calls);
            Run(h, calls + [c]) == if TryStep(before, c).Some? then TryStep(before, c).value else before
  {
    hide TryStep;
    assert (calls + [c])[..|calls|] == calls;
  }

  // ---------------------------------------------------------------- the invariant holds in every run

  /** Recording an enabled event keeps the invariant, whatever the token does meanwhile, as long as
      the supply moves by no more than the event accounts for. */
  lemma RecordKeepsInv(h: Hub, c: Ctx, e: Event, rwa: Ledger)
    requires Inv(h) && Enabled(Unit(h.cfg.multiplier), h.book, Entry(c.now, e))
    requires Balanced(rwa)
    requires rwa.supply + Burned(Entry(c.now, e)) <= h.rwa.supply + Minted(Entry(c.now, e))
    ensures Inv(Record(h, c, e).(rwa := rwa))
  {
    var entry := Entry(c.now, e);
    LegalSnoc(Unit(h.cfg.multiplier), h.log, entry);
    SumSnoc(Burned, h.log, entry);
    SumSnoc(Minted, h.log, entry);
  }

  lemma MintKeepsBalanced(l: Ledger, g: Gate, sender: Address, to: Address, amount: uint256)
    requires Balanced(l) && TryMint(l, g, sender, to, amount).Some?
    ensures Balanced(TryMint(l, g, sender, to, amount).value)
    ensures TryMint(l, g, sender, to, amount).value.supply == l.supply + amount
  {
    StepKeepsBalanced(l, g, sender, true, Tokens.Op.Mint(to, amount));
  }

  lemma BurnFromKeepsBalanced(l: Ledger, g: Gate, sender: Address, from: Address, amount: uint256)
    requires Balanced(l) && TryBurnFrom(l, g, sender, from, amount).Some?
    ensures Balanced(TryBurnFrom(l, g, sender, from, amount).value)
    ensures TryBurnFrom(l, g, sender, from, amount).value.supply == l.supply - amount
  {
    StepKeepsBalanced(l, g, sender, true, Tokens.Op.BurnFrom(from, amount));
  }

  lemma ClaimOneKeepsInv(h: Hub, c: Ctx, id: Id)
    requires Inv(h) && TryClaimOne(h, c, id).Some?
    ensures Inv(TryClaimOne(h, c, id).value)
  {
    hide Inv, TryMint, TryMintAmount, Enabled;
    var d := h.book.Deposit(id);
    var price := c.Price(h.params.pricer, d.priceId);
    var owed := TryMintAmount(d.amount, price, h.cfg.multiplier).value;
    var rwa := TryMint(h.rwa, c.gate, h.cfg.self, d.user, owed).value;
    ClaimIsEnabled(h, c, id);
    InvIsBalanced(h);
    MintKeepsBalanced(h.rwa, c.gate, h.cfg.self, d.user, owed);
    RecordKeepsInv(h, c, MintCompleted(d.user, id, owed, d.amount, price, d.priceId), rwa);
  }

  lemma InvIsBalanced(h: Hub)
    requires Inv(h)
    ensures Balanced(h.rwa)
  {}

  lemma ClaimIsEnabled(h: Hub, c: Ctx, id: Id)
    requires TryClaimOne(h, c, id).Some?
    ensures var d := h.book.Deposit(id);
            var price := c.Price(h.params.pricer, d.priceId);
            var owed := TryMintAmount(d.amount, price, h.cfg.multiplier).value;
            Enabled(Unit(h.cfg.multiplier), h.book,
                    Entry(c.now, MintCompleted(d.user, id, owed, d.amount, price, d.priceId)))
  {
    hide TryMintAmount, MintsTo;
    var d := h.book.Deposit(id);
    MintAmountIsFloor(d.amount, c.Price(h.params.pricer, d.priceId), h.cfg.multiplier);
  }

  lemma {:induction false} ClaimEachKeepsInv(h: Hub, c: Ctx, ids: seq<Id>)
    requires Inv(h) && TryClaimEach(h, c, ids).Some?
    ensures Inv(TryClaimEach(h, c, ids).value)
    decreases |ids|
  {
    hide Inv, TryClaimOne;
    if ids == [] {
    } else {
      ClaimOneKeepsInv(h, c, ids[0]);
      ClaimEachKeepsInv(TryClaimOne(h, c, ids[0]).value, c, ids[1..]);
    }
  }

  lemma SettleOneKeepsInv(h: Hub, c: Ctx, id: Id)
    requires Inv(h) && TrySettleOne(h, c, id).Some?
    ensures Inv(TrySettleOne(h, c, id).value)
  {
    hide TryRedemptionAmount, TryFee, RedeemsTo;
    var p, r := TryQuote(h, c, id).value, h.book.Redemption(id);
    var price := c.Price(h.params.pricer, r.priceId);
    RedemptionAmountIsFloor(r.amount, price, h.cfg.multiplier);
    RecordKeepsInv(h, c, RedemptionCompleted(p.user, id, r.amount, p.due, p.fee, price, r.priceId), h.rwa);
  }

  lemma {:induction false} SettleEachKeepsInv(h: Hub, c: Ctx, ids: seq<Id>, fees: uint256)
    requires Inv(h) && TrySettleEach(h, c, ids, fees).Some?
    ensures Inv(TrySettleEach(h, c, ids, fees).value)
    decreases |ids|
  {
    hide TrySettleOne, TryQuote;
    if ids == [] {
    } else {
      SettleOneKeepsInv(h, c, ids[0]);
      SettleEachKeepsInv(TrySettleOne(h, c, ids[0]).value, c, ids[1..], fees + TryQuote(h, c, ids[0]).value.fee);
    }
  }

  lemma {:induction false} SetTimestampsKeepsInv(h: Hub, c: Ctx, timestamp: uint256, ids: seq<Id>)
    requires Inv(h) && timestamp >= c.now
    ensures Inv(SetTimestamps(h, c, timestamp, ids))
    decreases |ids|
  {
    if ids == [] {
    } else {
      var e := ClaimableTimestampSet(timestamp, ids[0]);
      RecordKeepsInv(h, c, e, h.rwa);
      SetTimestampsKeepsInv(Record(h, c, e), c, timestamp, ids[1..]);
    }
  }

  lemma {:induction false} SetDepositPricesKeepsInv(h: Hub, c: Ctx, ids: seq<Id>, priceIds: seq<uint256>)
    requires |ids| == |priceIds| && Inv(h) && TrySetDepositPrices(h, c, ids, priceIds).Some?
    ensures Inv(TrySetDepositPrices(h, c, ids, priceIds).value)
    decreases |ids|
  {
    if ids == [] {
    } else {
      var e := PriceIdSetForDeposit(ids[0], priceIds[0]);
      RecordKeepsInv(h, c, e, h.rwa);
      SetDepositPricesKeepsInv(Record(h, c, e), c, ids[1..], priceIds[1..]);
    }
  }

  lemma {:induction false} SetRedemptionPricesKeepsInv(h: Hub, c: Ctx, ids: seq<Id>, priceIds: seq<uint256>)
    requires |ids| == |priceIds| && Inv(h) && TrySetRedemptionPrices(h, c, ids, priceIds).Some?
    ensures Inv(TrySetRedemptionPrices(h, c, ids, priceIds).value)
    decreases |ids|
  {
    if ids == [] {
    } else {
      var e := PriceIdSetForRedemption(ids[0], priceIds[0]);
      RecordKeepsInv(h, c, e, h.rwa);
      SetRedemptionPricesKeepsInv(Record(h, c, e), c, ids[1..], priceIds[1..]);
    }
  }

  lemma SubscriptionIsRecorded(h: Hub, c: Ctx, amount: uint256)
    requires TryRequestSubscription(h, c, amount).Some?
    ensures var next := TryRequestSubscription(h, c, amount).value;
            exists afterFee: uint256, fee: uint256 ::
              var e := MintRequested(c.sender, h.book.nextDeposit, amount, afterFee, fee);
              && Enabled(Unit(h.cfg.multiplier), h.book, Entry(c.now, e))
              && next == Record(h, c, e).(collateral := next.collateral)
  {
    hide TryFee, Ledger.TransferFrom;
    var next, fee := TryRequestSubscription(h, c, amount).value, TryFee(amount, h.params.mintFee).value;
    var afterFee: uint256 := amount - fee;
    var e := MintRequested(c.sender, h.book.nextDeposit, amount, afterFee, fee);
    assert next == Record(h, c, e).(collateral := next.collateral);
  }

  lemma UsdyKeepsInv(h: Hub, c: Ctx, call: Tokens.Op)
    requires Inv(h) && TryUsdy(h, c, call).Some?
    ensures Inv(TryUsdy(h, c, call).value)
  {
    StepKeepsBalanced(h.rwa, c.gate, c.sender, c.hasRole, call);
    var rwa := Tokens.TryStep(h.rwa, c.gate, c.sender, c.hasRole, call).value;
    if call.Mint? {
      RecordKeepsInv(h, c, UsdyMinted(call.to, call.amount), rwa);
    }
  }

  /** Every external call keeps the invariant. */
  lemma StepKeepsInv(h: Hub, call: Call)
    requires Inv(h) && TryStep(h, call).Some?
    ensures Inv(TryStep(h, call).value) && TryStep(h, call).value.cfg == h.cfg
  {
    hide Inv, Legal, Replay, Balanced, TryUsdy, TryBurnFrom, TryRequestSubscription;
    var c := call.ctx;
    InvIsBalanced(h);
    StepKeepsConfig(h, call);
    match call.op
    case RequestSubscription(amount) =>
      SubscriptionIsRecorded(h, c, amount);
      var next := TryStep(h, call).value;
      var afterFee: uint256, fee: uint256 :|
        var e := MintRequested(c.sender, h.book.nextDeposit, amount, afterFee, fee);
        && Enabled(Unit(h.cfg.multiplier), h.book, Entry(c.now, e))
        && next == Record(h, c, e).(collateral := next.collateral);
      var e := MintRequested(c.sender, h.book.nextDeposit, amount, afterFee, fee);
      RecordKeepsInv(h, c, e, h.rwa);
      CollateralKeepsInv(Record(h, c, e), next.collateral);
    case AddProof(id, user, amount) => RecordKeepsInv(h, c, DepositProofAdded(id, user, amount), h.rwa);
    case ClaimMint(ids) => ClaimEachKeepsInv(h, c, ids);
    case SetClaimableTimestamp(timestamp, ids) => SetTimestampsKeepsInv(h, c, timestamp, ids);
    case RequestRedemption(amount) =>
      BurnFromKeepsBalanced(h.rwa, c.gate, h.cfg.self, c.sender, amount);
      RecordKeepsInv(h, c, RedemptionRequested(c.sender, h.book.nextRedemption, amount),
                     TryBurnFrom(h.rwa, c.gate, h.cfg.self, c.sender, amount).value);
    case RequestRedemptionServicedOffchain(amount) =>
      BurnFromKeepsBalanced(h.rwa, c.gate, h.cfg.self, c.sender, amount);
      RecordKeepsInv(h, c, RedemptionRequestedServicedOffChain(c.sender, h.book.nextRedemption, amount),
                     TryBurnFrom(h.rwa, c.gate, h.cfg.self, c.sender, amount).value);
    case ClaimRedemption(ids) => SettleEachKeepsInv(h, c, ids, 0);
    case SetPriceIdForDeposits(ids, priceIds) => SetDepositPricesKeepsInv(h, c, ids, priceIds);
    case SetPriceIdForRedemptions(ids, priceIds) => SetRedemptionPricesKeepsInv(h, c, ids, priceIds);
    case OverwriteDepositor(id, user, amount, priceId) =>
      RecordKeepsInv(h, c, DepositorOverwritten(id, user, amount, priceId), h.rwa);
    case OverwriteRedeemer(id, user, amount, priceId) =>
      RecordKeepsInv(h, c, RedeemerOverwritten(id, user, amount, priceId), h.rwa);
    case Set(setting) => SettingsKeepInv(h, c, setting);
    case Usdy(tokenCall) => UsdyKeepsInv(h, c, tokenCall);
    case Collateral(ledger) => CollateralKeepsInv(h, ledger);
  }

  /** Only setPricer changes the pricer. */
  lemma StepKeepsPricer(h: Hub, call: Call)
    requires TryStep(h, call).Some?
    ensures TryStep(h, call).value.params.pricer ==
            if call.op.Set? && call.op.setting.Pricer? then call.op.setting.account else h.params.pricer
  {}

  lemma StepKeepsConfig(h: Hub, call: Call)
    requires TryStep(h, call).Some?
    ensures TryStep(h, call).value.cfg == h.cfg
  {}

  lemma SettingsKeepInv(h: Hub, c: Ctx, s: Setting)
    requires Inv(h) && TrySet(h.params, c, s).Some?
    ensures Inv(h.(params := TrySet(h.params, c, s).value))
  {}

  lemma CollateralKeepsInv(h: Hub, ledger: Ledger)
    requires Inv(h)
    ensures Inv(h.(collateral := ledger))
  {}

  lemma {:induction false} RunKeepsInv(h: Hub, calls: seq<Call>)
    requires Initial(h)
    ensures Inv(Run(h, calls)) && Run(h, calls).cfg == h.cfg
  {
    hide TryStep, Inv;
    if calls == [] {
      InitialHasInv(h);
    } else {
      RunKeepsInv(h, calls[..|calls| - 1]);
      var before := Run(h, calls[..|calls| - 1]);
      if TryStep(before, calls[|calls| - 1]).Some? {
        StepKeepsInv(before, calls[|calls| - 1]);
      }
    }
  }

  lemma InitialHasInv(h: Hub)
    requires Initial(h)
    ensures Inv(h)
  {}
}
