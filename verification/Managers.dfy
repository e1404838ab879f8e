/** The USDYManager contract as an object: its fields, the two token contracts it calls, and its
    external methods, each proved to do exactly what the state machine of module Hubs prescribes.
    A method that fails half-way restores what it wrote, as a reverting transaction does. */
module Managers {
  import opened Words
  import opened HubMath
  import opened Books
  import opened Tokens
  import opened Hubs

  class USDYManager {
    const cfg: Config
    const rwa: Usdy
    const collateral: Erc20

    var depositIdToDepositor: map<Id, Depositor>
    var redemptionIdToRedeemer: map<Id, Redeemer>
    var depositIdToClaimableTimestamp: map<Id, nat>
    var subscriptionRequestCounter: nat
    var redemptionRequestCounter: nat

    var mintFee: uint256
    var redemptionFee: uint256
    var minimumDepositAmount: uint256
    var minimumRedemptionAmount: uint256
    var minimumOffChainRedemptionAmount: uint256
    var subscriptionPaused: bool
    var redemptionPaused: bool
    var offChainRedemptionPaused: bool
    var feeRecipient: Address
    var assetSender: Address
    var pricer: Address

    var log: Log

    function CurrentBook(): Book
      reads this
    {
      Book(depositIdToDepositor, redemptionIdToRedeemer, depositIdToClaimableTimestamp,
           subscriptionRequestCounter, redemptionRequestCounter)
    }

    function CurrentParams(): Params
      reads this
    {
      Params(mintFee, redemptionFee, minimumDepositAmount, minimumRedemptionAmount, minimumOffChainRedemptionAmount,
             subscriptionPaused, redemptionPaused, offChainRedemptionPaused, feeRecipient, assetSender, pricer)
    }

    function State(): Hub
      reads this, rwa, collateral
    {
      Hub(cfg, CurrentParams(), CurrentBook(), rwa.State(), collateral.State(), log)
    }

    /** The source's constructor reverts on a zero fee recipient or asset sender. */
    constructor (cfg: Config, rwa: Usdy, collateral: Erc20, assetSender: Address, feeRecipient: Address,
                 minimumDepositAmount: uint256, minimumRedemptionAmount: uint256)
      requires assetSender != 0 && feeRecipient != 0
      ensures this.rwa == rwa && this.collateral == collateral
      ensures State() == Hub(cfg, Params(0, 0, minimumDepositAmount, minimumRedemptionAmount, minimumRedemptionAmount,
                                         false, false, false, feeRecipient, assetSender, 0),
                             EMPTY_BOOK, rwa.State(), collateral.State(), [])
      ensures rwa.State() == Ledger(map[], map[], 0) ==> Initial(State()) && Inv(State())
    {
      this.cfg, this.rwa, this.collateral := cfg, rwa, collateral;
      depositIdToDepositor, redemptionIdToRedeemer, depositIdToClaimableTimestamp := map[], map[], map[];
      subscriptionRequestCounter, redemptionRequestCounter := 1, 1;
      mintFee, redemptionFee := 0, 0;
      this.minimumDepositAmount, this.minimumRedemptionAmount := minimumDepositAmount, minimumRedemptionAmount;
      minimumOffChainRedemptionAmount := minimumRedemptionAmount;
      subscriptionPaused, redemptionPaused, offChainRedemptionPaused := false, false, false;
      this.feeRecipient, this.assetSender, pricer := feeRecipient, assetSender, 0;
      log := [];
      new;
      if rwa.State() == Ledger(map[], map[], 0) {
        InitialHasInv(State());
      }
    }

    method RestoreBook(b: Book, log: Log)
      modifies this
      ensures CurrentBook() == b && this.log == log && CurrentParams() == old(CurrentParams())
    {
      depositIdToDepositor, redemptionIdToRedeemer := b.deposits, b.redemptions;
      depositIdToClaimableTimestamp := b.claimable;
      subscriptionRequestCounter, redemptionRequestCounter := b.nextDeposit, b.nextRedemption;
      this.log := log;
    }

    /** The rollback of a reverting transaction; the settings are never written before one. */
    method Restore(h: Hub)
      requires h.cfg == cfg && h.params == CurrentParams()
      modifies this, rwa, collateral
      ensures State() == h
    {
      RestoreBook(h.book, h.log);
      rwa.Restore(h.rwa);
      collateral.Restore(h.collateral);
    }

    method Emit(c: Ctx, e: Event)
      modifies `log
      ensures log == old(log) + [Entry(c.now, e)]
    {
      log := log + [Entry(c.now, e)];
    }

    // -------------------------------------------------------------- subscriptions

    method TakeDeposit(c: Ctx, afterFee: uint256, fee: uint256) returns (ok: bool)
      modifies collateral
      ensures Transacts(ok, old(collateral.State()), collateral.State(),
                        TryTakeDeposit(old(collateral.State()), cfg, feeRecipient, c.sender, afterFee, fee))
    {
      hide Ledger.TransferFrom;
      var before := collateral.State();
      ok := true;
      if fee > 0 {
        ok := collateral.TransferFrom(cfg.self, c.sender, feeRecipient, fee);
      }
      if ok {
        ok := collateral.TransferFrom(cfg.self, c.sender, cfg.assetRecipient, afterFee);
      }
      if !ok {
        collateral.Restore(before);
      }
    }

    method RequestSubscription(c: Ctx, amount: uint256) returns (ok: bool)
      modifies this, rwa, collateral
      ensures Transacts(ok, old(State()), State(), TryRequestSubscription(old(State()), c, amount))
    {
      hide TryFee, TryTakeDeposit;
      if subscriptionPaused || !c.Unrestricted(c.sender) || amount < minimumDepositAmount {
        return false;
      }
      var fees := TryFee(amount, mintFee);
      if fees.None? || fees.value > amount || subscriptionRequestCounter + 1 >= TWO_256 {
        return false;
      }
      var book := CurrentBook();
      var fee, afterFee := fees.value, amount - fees.value;
      var depositId := subscriptionRequestCounter;
      subscriptionRequestCounter := subscriptionRequestCounter + 1;
      depositIdToDepositor := depositIdToDepositor[depositId := Depositor(c.sender, afterFee, 0)];
      ok := TakeDeposit(c, afterFee, fee);
      if !ok {
        RestoreBook(book, log);
        return;
      }
      Emit(c, MintRequested(c.sender, depositId, amount, afterFee, fee));
    }

    method AddProof(c: Ctx, txHash: Id, user: Address, amountAfterFee: uint256) returns (ok: bool)
      modifies this
      ensures Transacts(ok, old(State()), State(), TryAddProof(old(State()), c, txHash, user, amountAfterFee))
    {
      if !c.hasRole || !c.Unrestricted(user) || State().book.Deposit(txHash).user != 0 {
        return false;
      }
      depositIdToDepositor := depositIdToDepositor[txHash := Depositor(user, amountAfterFee, 0)];
      Emit(c, DepositProofAdded(txHash, user, amountAfterFee));
      return true;
    }

    method ClaimOne(c: Ctx, depositId: Id) returns (ok: bool)
      modifies this, rwa
      ensures collateral.State() == old(collateral.State()) && CurrentParams() == old(CurrentParams())
      ensures Transacts(ok, old(State()), State(), TryClaimOne(old(State()), c, depositId))
    {
      hide TryMintAmount, TryMint;
      var claimable, depositor := State().book.Claimable(depositId), State().book.Deposit(depositId);
      if claimable == 0 || claimable > c.now || depositor.priceId == 0 || !c.HasPricer(pricer) {
        return false;
      }
      var price := c.Price(pricer, depositor.priceId);
      var rwaOwed := TryMintAmount(depositor.amount, price, cfg.multiplier);
      if rwaOwed.None? || !c.hubMayMint {
        return false;
      }
      var deposits := depositIdToDepositor;
      depositIdToDepositor := depositIdToDepositor - {depositId};
      ok := rwa.Mint(c.gate, cfg.self, depositor.user, rwaOwed.value);
      if !ok {
        depositIdToDepositor := deposits;
        return;
      }
      Emit(c, MintCompleted(depositor.user, depositId, rwaOwed.value, depositor.amount, price, depositor.priceId));
      depositIdToClaimableTimestamp := depositIdToClaimableTimestamp - {depositId};
    }

    method ClaimMint(c: Ctx, depositIds: seq<Id>) returns (ok: bool)
      modifies this, rwa, collateral
      ensures Transacts(ok, old(State()), State(), TryClaimMint(old(State()), c, depositIds))
    {
      hide TryClaimOne;
      if subscriptionPaused {
        return false;
      }
      var before := State();
      for i := 0 to |depositIds|
        invariant State().params == before.params
        invariant TryClaimEach(before, c, depositIds) == TryClaimEach(State(), c, depositIds[i..])
      {
        var claimed := ClaimOne(c, depositIds[i]);
        assert depositIds[i..][1..] == depositIds[i + 1..];
        if !claimed {
          Restore(before);
          return false;
        }
      }
      return true;
    }

    method SetClaimableTimestamp(c: Ctx, claimTimestamp: uint256, depositIds: seq<Id>) returns (ok: bool)
      modifies this
      ensures Transacts(ok, old(State()), State(),
                        TrySetClaimableTimestamp(old(State()), c, claimTimestamp, depositIds))
    {
      if !c.hasRole || claimTimestamp < c.now {
        return false;
      }
      for i := 0 to |depositIds|
        invariant SetTimestamps(old(State()), c, claimTimestamp, depositIds)
               == SetTimestamps(State(), c, claimTimestamp, depositIds[i..])
      {
        depositIdToClaimableTimestamp := depositIdToClaimableTimestamp[depositIds[i] := claimTimestamp];
        Emit(c, ClaimableTimestampSet(claimTimestamp, depositIds[i]));
        assert depositIds[i..][1..] == depositIds[i + 1..];
      }
      return true;
    }

    // -------------------------------------------------------------- redemptions

    method RequestRedemption(c: Ctx, amount: uint256) returns (ok: bool)
      modifies this, rwa
      ensures Transacts(ok, old(State()), State(), TryRequestRedemption(old(State()), c, amount))
    {
      hide TryBurnFrom;
      if redemptionPaused || amount < minimumRedemptionAmount || redemptionRequestCounter + 1 >= TWO_256 {
        return false;
      }
      var book, redemptionId := CurrentBook(), redemptionRequestCounter;
      redemptionRequestCounter := redemptionRequestCounter + 1;
      redemptionIdToRedeemer := redemptionIdToRedeemer[redemptionId := Redeemer(c.sender, amount, 0)];
      ok := rwa.BurnFrom(c.gate, cfg.self, c.sender, amount);
      if !ok {
        RestoreBook(book, log);
        return;
      }
      Emit(c, RedemptionRequested(c.sender, redemptionId, amount));
    }

    method RequestRedemptionServicedOffchain(c: Ctx, amount: uint256) returns (ok: bool)
      modifies this, rwa
      ensures Transacts(ok, old(State()), State(), TryRequestRedemptionServicedOffchain(old(State()), c, amount))
    {
      hide TryBurnFrom;
      if
        || offChainRedemptionPaused
        || amount < minimumOffChainRedemptionAmount
        || redemptionRequestCounter + 1 >= TWO_256
      {
        return false;
      }
      var redemptionId := redemptionRequestCounter;
      redemptionRequestCounter := redemptionRequestCounter + 1;
      ok := rwa.BurnFrom(c.gate, cfg.self, c.sender, amount);
      if !ok {
        redemptionRequestCounter := redemptionId;
        return;
      }
      Emit(c, RedemptionRequestedServicedOffChain(c.sender, redemptionId, amount));
    }

    method SettleOne(c: Ctx, redemptionId: Id) returns (ok: bool, fee: uint256)
      modifies this, collateral
      ensures rwa.State() == old(rwa.State()) && CurrentParams() == old(CurrentParams())
      ensures Transacts(ok, old(State()), State(), TrySettleOne(old(State()), c, redemptionId))
      ensures ok ==> fee == TryQuote(old(State()), c, redemptionId).value.fee
    {
      hide TryFee, TryRedemptionAmount, Ledger.TransferFrom;
      var member := State().book.Redemption(redemptionId);
      if !c.Unrestricted(member.user) || member.priceId == 0 || !c.HasPricer(pricer) {
        return false, 0;
      }
      var price := c.Price(pricer, member.priceId);
      var collateralDue := TryRedemptionAmount(member.amount, price, cfg.multiplier);
      if collateralDue.None? {
        return false, 0;
      }
      var fees := TryFee(collateralDue.value, redemptionFee);
      if fees.None? || fees.value > collateralDue.value {
        return false, 0;
      }
      fee := fees.value;
      var redeemers := redemptionIdToRedeemer;
      redemptionIdToRedeemer := redemptionIdToRedeemer - {redemptionId};
      ok := collateral.TransferFrom(cfg.self, assetSender, member.user, collateralDue.value - fee);
      if !ok {
        redemptionIdToRedeemer := redeemers;
        return;
      }
      Emit(c, RedemptionCompleted(member.user, redemptionId, member.amount, collateralDue.value, fee,
                                  price, member.priceId));
    }

    method ClaimRedemption(c: Ctx, redemptionIds: seq<Id>) returns (ok: bool)
      modifies this, rwa, collateral
      ensures Transacts(ok, old(State()), State(), TryClaimRedemption(old(State()), c, redemptionIds))
    {
      hide TrySettleOne, TryQuote;
      if redemptionPaused {
        return false;
      }
      var before := State();
      var fees: uint256 := 0;
      for i := 0 to |redemptionIds|
        invariant State().params == before.params
        invariant TrySettleEach(before, c, redemptionIds, 0) == TrySettleEach(State(), c, redemptionIds[i..], fees)
      {
        ghost var now := State();
        SettledIsQuoted(now, c, redemptionIds[i]);
        assert redemptionIds[i..][1..] == redemptionIds[i + 1..];
        var settled, fee := SettleOne(c, redemptionIds[i]);
        if !settled || fees + fee >= TWO_256 {
          Restore(before);
          return false;
        }
        fees := fees + fee;
      }
      if fees > 0 {
        ok := collateral.TransferFrom(cfg.self, assetSender, feeRecipient, fees);
        if !ok {
          Restore(before);
          return;
        }
      }
      return true;
    }

    // -------------------------------------------------------------- price ids

    method SetPriceIdForDeposits(c: Ctx, depositIds: seq<Id>, priceIds: seq<uint256>) returns (ok: bool)
      modifies this, rwa, collateral
      ensures Transacts(ok, old(State()), State(), TrySetPriceIdForDeposits(old(State()), c, depositIds, priceIds))
    {
      if !c.hasRole || |depositIds| != |priceIds| {
        return false;
      }
      var before := State();
      for i := 0 to |depositIds|
        invariant State().params == before.params
        invariant TrySetDepositPrices(before, c, depositIds, priceIds)
               == TrySetDepositPrices(State(), c, depositIds[i..], priceIds[i..])
      {
        var depositor := State().book.Deposit(depositIds[i]);
        if depositor.user == 0 || depositor.priceId != 0 {
          Restore(before);
          return false;
        }
        depositIdToDepositor := depositIdToDepositor[depositIds[i] := depositor.(priceId := priceIds[i])];
        Emit(c, PriceIdSetForDeposit(depositIds[i], priceIds[i]));
        assert depositIds[i..][1..] == depositIds[i + 1..] && priceIds[i..][1..] == priceIds[i + 1..];
      }
      return true;
    }

    method SetPriceIdForRedemptions(c: Ctx, redemptionIds: seq<Id>, priceIds: seq<uint256>) returns (ok: bool)
      modifies this, rwa, collateral
      ensures Transacts(ok, old(State()), State(),
                        TrySetPriceIdForRedemptions(old(State()), c, redemptionIds, priceIds))
    {
      if !c.hasRole || |redemptionIds| != |priceIds| {
        return false;
      }
      var before := State();
      for i := 0 to |redemptionIds|
        invariant State().params == before.params
        invariant TrySetRedemptionPrices(before, c, redemptionIds, priceIds)
               == TrySetRedemptionPrices(State(), c, redemptionIds[i..], priceIds[i..])
      {
        ghost var now := State();
        var member := State().book.Redemption(redemptionIds[i]);
        if member.priceId != 0 {
          Restore(before);
          return false;
        }
        redemptionIdToRedeemer := redemptionIdToRedeemer[redemptionIds[i] := member.(priceId := priceIds[i])];
        Emit(c, PriceIdSetForRedemption(redemptionIds[i], priceIds[i]));
        assert State() == Record(now, c, PriceIdSetForRedemption(redemptionIds[i], priceIds[i]));
        assert redemptionIds[i..][1..] == redemptionIds[i + 1..] && priceIds[i..][1..] == priceIds[i + 1..];
      }
      return true;
    }

    // -------------------------------------------------------------- administration

    method OverwriteDepositor(c: Ctx, id: Id, user: Address, amount: uint256, priceId: uint256) returns (ok: bool)
      modifies this
      ensures Transacts(ok, old(State()), State(), TryOverwriteDepositor(old(State()), c, id, user, amount, priceId))
    {
      if !c.hasRole || !c.Unrestricted(user) {
        return false;
      }
      depositIdToDepositor := depositIdToDepositor[id := Depositor(user, amount, priceId)];
      Emit(c, DepositorOverwritten(id, user, amount, priceId));
      return true;
    }

    method OverwriteRedeemer(c: Ctx, id: Id, user: Address, amount: uint256, priceId: uint256) returns (ok: bool)
      modifies this
      ensures Transacts(ok, old(State()), State(), TryOverwriteRedeemer(old(State()), c, id, user, amount, priceId))
    {
      if !c.hasRole || !c.Unrestricted(user) {
        return false;
      }
      redemptionIdToRedeemer := redemptionIdToRedeemer[id := Redeemer(user, amount, priceId)];
      Emit(c, RedeemerOverwritten(id, user, amount, priceId));
      return true;
    }

    /** The setters and pause switches, one per case. */
    method Configure(c: Ctx, s: Setting) returns (ok: bool)
      modifies this
      ensures Transacts(ok, old(CurrentParams()), CurrentParams(), TrySet(old(CurrentParams()), c, s))
      ensures CurrentBook() == old(CurrentBook()) && log == old(log)
    {
      if !c.hasRole {
        return false;
      }
      match s {
      case MintFee(bps) =>
        if bps > BPS_DENOMINATOR { return false; }
        mintFee := bps;
      case RedemptionFee(bps) =>
        if bps > BPS_DENOMINATOR { return false; }
        redemptionFee := bps;
      case MinimumDeposit(minimum) =>
        if minimum < BPS_DENOMINATOR { return false; }
        minimumDepositAmount := minimum;
      case MinimumRedemption(minimum) =>
        if minimum < BPS_DENOMINATOR { return false; }
        minimumRedemptionAmount := minimum;
      case MinimumOffChainRedemption(minimum) => minimumOffChainRedemptionAmount := minimum;
      case FeeRecipient(account) => feeRecipient := account;
      case AssetSender(account) => assetSender := account;
      case Pricer(account) => pricer := account;
      case PauseSubscription(paused) => subscriptionPaused := paused;
      case PauseRedemption(paused) => redemptionPaused := paused;
      case PauseOffChainRedemption(paused) => offChainRedemptionPaused := paused;
      }
      return true;
    }
  }

  /** Whatever a method prescribed by the state machine did, it kept the run invariant. */
  lemma TransactionKeepsInv(ok: bool, before: Hub, after: Hub, call: Call)
    requires Inv(before) && Transacts(ok, before, after, Hubs.TryStep(before, call))
    ensures Inv(after)
  {
    hide Hubs.TryStep, Inv;
    if Hubs.TryStep(before, call).Some? {
      StepKeepsInv(before, call);
    }
  }

  lemma SettledIsQuoted(h: Hub, c: Ctx, id: Id)
    ensures TrySettleOne(h, c, id).Some? ==> TryQuote(h, c, id).Some?
  {}
}
