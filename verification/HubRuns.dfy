/** What holds of the hub over whole runs: any finite sequence of external calls, by anyone, under any
    block times, lists and prices. */
module HubRuns {
  import opened Words
  import opened Rounding
  import opened Sums
  import opened HubMath
  import opened Books
  import opened Tokens
  import opened Hubs
  import Settlement
  import HubEffects

  // ---------------------------------------------------------------- solvency

  /** From an empty supply with only the hub minting, and no overwrites: if every mint is settled at a
      price of at least p and every redemption at a price of at most q, the collateral due on settled
      redemptions, fees included, is at most q/p of the after-fee collateral credited to deposits. */
  lemma Solvency(start: Hub, calls: seq<Call>, p: nat, q: nat)
    requires Initial(start)
    requires var log := Run(start, calls).log;
             && NoDepositorOverwrites(log) && NoRedeemerOverwrites(log) && OnlyHubMints(log)
             && MintPricesAtLeast(log, p) && RedemptionPricesAtMost(log, q)
    ensures var log := Run(start, calls).log; Sum(Due, log) * p <= Sum(Credited, log) * q
  {
    hide Run, Legal, Replay, TryMintAmount, TryRedemptionAmount;
    var h := Run(start, calls);
    var log, unit := h.log, Unit(h.cfg.multiplier);
    RunKeepsInv(start, calls);
    RedemptionConservation(unit, log);
    DepositConservation(unit, log);
    OnlyHubMintsTotals(log);
    MintedIsCovered(unit, log, p);
    DueIsCovered(unit, log, q);
    Squeeze(Sum(Due, log), unit, Sum(Redeemed, log), q, Sum(HubMinted, log), p,
            Sum(Subscribed, log), Sum(Credited, log));
  }

  /** With one price p for all settlements, or mints above it and redemptions below it, what is due
      never exceeds what was credited. */
  lemma SolvencyAtAPrice(start: Hub, calls: seq<Call>, p: nat)
    requires Initial(start) && p > 0
    requires var log := Run(start, calls).log;
             && NoDepositorOverwrites(log) && NoRedeemerOverwrites(log) && OnlyHubMints(log)
             && MintPricesAtLeast(log, p) && RedemptionPricesAtMost(log, p)
    ensures var log := Run(start, calls).log; Sum(Due, log) <= Sum(Credited, log)
  {
    hide *;
    Solvency(start, calls, p, p);
    var log := Run(start, calls).log;
    CancelFactor(Sum(Due, log), Sum(Credited, log), p);
  }

  lemma {:induction false} OnlyHubMintsTotals(log: Log)
    requires OnlyHubMints(log)
    ensures Sum(Minted, log) == Sum(HubMinted, log)
  {
    if log == [] {
    } else {
      assert Last(log) in log;
      OnlyHubMintsTotals(Init(log));
    }
  }

  /** due * unit <= redeemed * q, redeemed <= minted, minted * p <= subscribed * unit. */
  lemma Squeeze(due: nat, unit: nat, redeemed: nat, q: nat, minted: nat, p: nat, subscribed: nat, credited: nat)
    requires unit > 0
    requires due * unit <= redeemed * q && redeemed <= minted
    requires minted * p <= subscribed * unit && subscribed <= credited
    ensures due * p <= credited * q
  {
    calc {
      (due * p) * unit;
      { Swap(due, p, unit); }
      (due * unit) * p;
    <= { MulMono(due * unit, redeemed * q, p); }
      (redeemed * q) * p;
    <= { MulMono(redeemed, minted, q); MulMono(redeemed * q, minted * q, p); }
      (minted * q) * p;
      { Swap(minted, q, p); }
      (minted * p) * q;
    <= { MulMono(minted * p, subscribed * unit, q); }
      (subscribed * unit) * q;
    <= { MulMono(subscribed, credited, unit); MulMono(subscribed * unit, credited * unit, q); }
      (credited * unit) * q;
      { Swap(credited, unit, q); }
      (credited * q) * unit;
    }
    CancelFactor(due * p, credited * q, unit);
  }

  // ---------------------------------------------------------------- the ledger over runs

  /** In every run the records are the replay of the log, the token's balances add up to its supply,
      and, without overwrites, burned RWA is outstanding or settled, credited collateral is outstanding,
      minted against or replaced, and ids never issued or issued off chain hold nothing. */
  lemma RecordsOverRuns(start: Hub, calls: seq<Call>)
    requires Initial(start)
    ensures var h := Run(start, calls);
            && h.book == Replay(h.log)
            && Balanced(h.rwa)
            && h.rwa.supply + Sum(Burned, h.log) <= Sum(Minted, h.log)
            && (NoRedeemerOverwrites(h.log) ==>
                  && MapSum(RedemptionAmount, h.book.redemptions) + Sum(Redeemed, h.log) == Sum(Burned, h.log)
                  && forall id: Id | id >= h.book.nextRedemption || Sum(OffChainRequest(id), h.log) > 0 ::
                       h.book.Redemption(id).amount == 0)
            && (NoDepositorOverwrites(h.log) ==>
                  MapSum(DepositAmount, h.book.deposits) + Sum(Subscribed, h.log) + Replaced(h.log) ==
                  Sum(Credited, h.log))
  {
    hide Run, Legal, Replay;
    var h := Run(start, calls);
    RunKeepsInv(start, calls);
    if NoDepositorOverwrites(h.log) {
      DepositConservation(Unit(h.cfg.multiplier), h.log);
    }
    if NoRedeemerOverwrites(h.log) {
      RedemptionConservation(Unit(h.cfg.multiplier), h.log);
    }
  }

  /** In every run a record is settled at most once per creation. */
  lemma SettledAtMostOnceOverRuns(start: Hub, calls: seq<Call>, id: Id)
    requires Initial(start)
    ensures var h := Run(start, calls);
            && Sum(MintOf(id), h.log) + (if h.book.Deposit(id) != NO_DEPOSITOR then 1 else 0)
               <= Sum(DepositCreated(id), h.log)
            && Sum(SettlementOf(id), h.log) + (if h.book.Redemption(id).amount != 0 then 1 else 0)
               <= Sum(RedemptionCreated(id), h.log)
            && (NoRedeemerOverwrites(h.log) ==> Sum(SettlementOf(id), h.log) <= 1)
  {
    hide Run, Legal, Replay;
    var h := Run(start, calls);
    RunKeepsInv(start, calls);
    MintAtMostOnce(Unit(h.cfg.multiplier), h.log, id);
    SettleAtMostOnce(Unit(h.cfg.multiplier), h.log, id);
    if NoRedeemerOverwrites(h.log) {
      RedemptionIdPaysOnce(Unit(h.cfg.multiplier), h.log, id);
    }
  }

  /** In every run every mint respects the gate set for it, with no other gate and no mint of the id in
      between, and uses the only price id assigned since its record was created. */
  lemma MintsAreGatedOverRuns(start: Hub, calls: seq<Call>, k: nat)
    requires Initial(start) && k < |Run(start, calls).log|
    requires Run(start, calls).log[k].event.MintCompleted?
    ensures var log := Run(start, calls).log;
            var id, j := log[k].event.id, PendingGate(log[..k], log[k].event.id);
            && 0 <= j < k
            && log[j].event.ClaimableTimestampSet? && log[j].event.id == id
            && log[j].time <= log[j].event.claimTimestamp <= log[k].time
            && (forall i | j < i < k ::
                  (log[i].event.ClaimableTimestampSet? || log[i].event.MintCompleted?) ==> log[i].event.id != id)
            && (NoDepositorOverwrites(log) ==> DepositPriceIds(log[..k], id) == [log[k].event.priceId])
  {
    hide Run, Legal, Replay;
    var h := Run(start, calls);
    RunKeepsInv(start, calls);
    TimeGate(Unit(h.cfg.multiplier), h.log, k);
    SettlementUsesTheAssignedPrice(Unit(h.cfg.multiplier), h.log, k);
  }

  /** In every run without overwrites every redemption settled for a non-zero amount uses the only price id
      assigned since its record was created. */
  lemma RedemptionsUseTheAssignedPriceOverRuns(start: Hub, calls: seq<Call>, k: nat)
    requires Initial(start) && k < |Run(start, calls).log| && NoRedeemerOverwrites(Run(start, calls).log)
    requires var e := Run(start, calls).log[k].event; e.RedemptionCompleted? && e.burned != 0
    ensures var log := Run(start, calls).log;
            RedemptionPriceIds(log[..k], log[k].event.id) == [log[k].event.priceId]
  {
    hide Run, Legal, Replay;
    var h := Run(start, calls);
    RunKeepsInv(start, calls);
    SettlementUsesTheAssignedPrice(Unit(h.cfg.multiplier), h.log, k);
  }

  // ---------------------------------------------------------------- lost deposits

  lemma TwoCalls(start: Hub, c: Call, d: Call)
    requires Hubs.TryStep(start, c).Some? && Hubs.TryStep(Hubs.TryStep(start, c).value, d).Some?
    ensures Run(start, [c, d]) == Hubs.TryStep(Hubs.TryStep(start, c).value, d).value
  {
    hide Hubs.TryStep;
    assert [] + [c] == [c] && [c] + [d] == [c, d];
    Settlement.RunNothing(start);
    RunOneMore(start, [], c);
    RunOneMore(start, [c], d);
  }

  /** First way to lose a credit: after addProof under the first id, any subscription that would have
      succeeded without it takes that id, and the proven amount x is neither outstanding nor minted. */
  lemma SubscriptionLosesProof(start: Hub, c: Ctx, d: Ctx, user: Address, x: uint256, y: uint256)
    requires Initial(start) && c.hasRole && c.Unrestricted(user)
    requires TryRequestSubscription(start, d, y).Some?
    ensures var h := Run(start, [Call(c, AddProof(1, user, x)), Call(d, RequestSubscription(y))]);
            && h.book.Deposit(1) == Depositor(d.sender, y, 0)
            && MapSum(DepositAmount, h.book.deposits) + Sum(Subscribed, h.log) + x == Sum(Credited, h.log)
  {
    hide Run, TryTakeDeposit, Replaced, MapSum, Sum;
    var calls := [Call(c, AddProof(1, user, x)), Call(d, RequestSubscription(y))];
    TwoCalls(start, calls[0], calls[1]);
    SubscriptionReplacesProof(Unit(start.cfg.multiplier), c.now, d.now, user, x, d.sender, y);
    assert Run(start, calls).log ==
           [Entry(c.now, DepositProofAdded(1, user, x)), Entry(d.now, MintRequested(d.sender, 1, y, y, 0))];
    RecordsOverRuns(start, calls);
  }

  /** Second way: a proof for the zero address does not keep a later one from taking its id. */
  lemma ProofLosesProofOfNobody(start: Hub, c: Ctx, d: Ctx, id: Id, x: uint256, user: Address, y: uint256)
    requires Initial(start) && c.hasRole && c.Unrestricted(0) && d.hasRole && d.Unrestricted(user)
    ensures var h := Run(start, [Call(c, AddProof(id, 0, x)), Call(d, AddProof(id, user, y))]);
            && h.book.Deposit(id) == Depositor(user, y, 0)
            && MapSum(DepositAmount, h.book.deposits) + Sum(Subscribed, h.log) + x == Sum(Credited, h.log)
  {
    hide Run, Replaced, MapSum, Sum;
    var calls := [Call(c, AddProof(id, 0, x)), Call(d, AddProof(id, user, y))];
    TwoCalls(start, calls[0], calls[1]);
    ProofReplacesProofOfNobody(Unit(start.cfg.multiplier), c.now, d.now, id, x, user, y);
    assert Run(start, calls).log ==
           [Entry(c.now, DepositProofAdded(id, 0, x)), Entry(d.now, DepositProofAdded(id, user, y))];
    RecordsOverRuns(start, calls);
  }

  // ---------------------------------------------------------------- claimMint batches

  /** After a claim the id cannot be claimed again, and other records are untouched. */
  lemma ClaimedIsGone(h: Hub, c: Ctx, id: Id, other: Id)
    requires TryClaimOne(h, c, id).Some?
    ensures var next := TryClaimOne(h, c, id).value;
            && (other == id ==> TryClaimOne(next, c, other).None?)
            && (other != id ==> next.book.Deposit(other) == h.book.Deposit(other)
                                && next.book.Claimable(other) == h.book.Claimable(other))
            && next.cfg == h.cfg
  {
    hide TryMint, TryMintAmount;
  }

  lemma {:induction false} UnclaimableBlocks(h: Hub, c: Ctx, ids: seq<Id>, id: Id)
    requires id in ids && h.book.Claimable(id) == 0
    ensures TryClaimEach(h, c, ids).None?
    decreases |ids|
  {
    hide TryMint, TryMintAmount;
    if ids[0] != id && TryClaimOne(h, c, ids[0]).Some? {
      ClaimedIsGone(h, c, ids[0], id);
      UnclaimableBlocks(TryClaimOne(h, c, ids[0]).value, c, ids[1..], id);
    }
  }

  /** A claimMint batch that names an id twice reverts. */
  lemma {:induction false} RepeatedIdReverts(h: Hub, c: Ctx, ids: seq<Id>, i: nat, j: nat)
    requires i < j < |ids| && ids[i] == ids[j]
    ensures TryClaimMint(h, c, ids).None?
    decreases |ids|
  {
    hide TryMint, TryMintAmount;
    if TryClaimOne(h, c, ids[0]).Some? {
      var next := TryClaimOne(h, c, ids[0]).value;
      if i == 0 {
        assert next.book.Claimable(ids[0]) == 0;
        assert ids[j] == ids[1..][j - 1];
        UnclaimableBlocks(next, c, ids[1..], ids[0]);
      } else {
        RepeatedIdReverts(next, c, ids[1..], i - 1, j - 1);
      }
    }
  }

  // ---------------------------------------------------------------- frozen accounts

  lemma {:induction false} ClaimsSpareFrozen(h: Hub, c: Ctx, ids: seq<Id>, a: Address)
    requires Frozen(c.gate, a)
    ensures var r := TryClaimEach(h, c, ids); r.Some? ==> r.value.rwa.Bal(a) == h.rwa.Bal(a)
    decreases |ids|
  {
    hide TryMintAmount;
    if ids == [] {
    } else if TryClaimOne(h, c, ids[0]).Some? {
      ClaimsSpareFrozen(TryClaimOne(h, c, ids[0]).value, c, ids[1..], a);
    }
  }

  /** No call of any kind changes the USDY balance of an account that is frozen when it is made. */
  lemma HubStepSparesFrozen(h: Hub, call: Call, a: Address)
    requires Frozen(call.ctx.gate, a) && Hubs.TryStep(h, call).Some?
    ensures Hubs.TryStep(h, call).value.rwa.Bal(a) == h.rwa.Bal(a)
  {
    hide Gate.Cleared;
    var c := call.ctx;
    match call.op
    case ClaimMint(ids) => ClaimsSpareFrozen(h, c, ids, a);
    case RequestRedemption(amount) => BurnSparesFrozen(h.rwa, c.gate, h.cfg.self, c.sender, amount, a);
    case RequestRedemptionServicedOffchain(amount) => BurnSparesFrozen(h.rwa, c.gate, h.cfg.self, c.sender, amount, a);
    case Usdy(tokenCall) => StepSparesFrozen(h.rwa, c.gate, c.sender, c.hasRole, tokenCall, a);
    case _ =>
  }

  lemma BurnSparesFrozen(l: Ledger, g: Gate, sender: Address, from: Address, amount: uint256, a: Address)
    requires Frozen(g, a)
    ensures var r := TryBurnFrom(l, g, sender, from, amount); r.Some? ==> r.value.Bal(a) == l.Bal(a)
  {
    if TryBurnFrom(l, g, sender, from, amount).Some? {
      StepSparesFrozen(l, g, sender, true, Tokens.Op.BurnFrom(from, amount), a);
    }
  }

  /** While an account stays frozen its USDY balance does not move, whatever anyone calls. */
  lemma {:induction false} FrozenOverRuns(start: Hub, calls: seq<Call>, a: Address)
    requires forall call | call in calls :: Frozen(call.ctx.gate, a)
    ensures Run(start, calls).rwa.Bal(a) == start.rwa.Bal(a)
  {
    hide Hubs.TryStep, Gate.Cleared;
    if calls == [] {
    } else {
      var before, last := Run(start, calls[..|calls| - 1]), calls[|calls| - 1];
      FrozenOverRuns(start, calls[..|calls| - 1], a);
      assert last in calls;
      if Hubs.TryStep(before, last).Some? {
        HubStepSparesFrozen(before, last, a);
      }
    }
  }

  /** A claimMint batch containing the deposit of a frozen account reverts. */
  lemma {:induction false} FrozenDepositReverts(h: Hub, c: Ctx, ids: seq<Id>, id: Id)
    requires id in ids && Frozen(c.gate, h.book.Deposit(id).user)
    ensures TryClaimMint(h, c, ids).None?
    decreases |ids|
  {
    hide TryMintAmount, Gate.Cleared;
    if TryClaimOne(h, c, ids[0]).Some? {
      ClaimedIsGone(h, c, ids[0], id);
      assert ids[0] != id;
      FrozenDepositReverts(TryClaimOne(h, c, ids[0]).value, c, ids[1..], id);
    }
  }

  // ---------------------------------------------------------------- allowances over runs

  /** `owner` approves `spender`. */
  predicate Approves(call: Call, owner: Address, spender: Address) {
    call.ctx.sender == owner && call.op.Usdy? && call.op.call.Approve? && call.op.call.spender == spender
  }

  lemma StepAddsNoAllowance(h: Hub, call: Call, owner: Address, spender: Address)
    requires Hubs.TryStep(h, call).Some? && !Approves(call, owner, spender)
    ensures Hubs.TryStep(h, call).value.rwa.Allowance(owner, spender) <= h.rwa.Allowance(owner, spender)
  {
    hide Hubs.TryStep, Ledger.Allowance, Tokens.TryStep, Ledger.Bal;
    var c := call.ctx;
    match call.op
    case RequestSubscription(amount) => HubEffects.SubscriptionExactly(h, c, amount);
    case ClaimMint(ids) => HubEffects.ClaimMintPays(h, c, ids); SameAllowance(h, call, owner, spender);
    case RequestRedemption(amount) => HubEffects.RedemptionRequestExactly(h, c, amount);
    case RequestRedemptionServicedOffchain(amount) => HubEffects.OffChainRequestExactly(h, c, amount);
    case ClaimRedemption(ids) => HubEffects.ClaimRedemptionClears(h, c, ids);
    case Usdy(op) =>
      HubEffects.OutsideCallsExactly(h, c, op, h.collateral);
      StepAllowancesExactly(h.rwa, c.gate, c.sender, c.hasRole, op);
    case _ => OtherCallsKeepToken(h, call);
  }

  lemma SameAllowance(h: Hub, call: Call, owner: Address, spender: Address)
    requires Hubs.TryStep(h, call).Some? && Hubs.TryStep(h, call).value.rwa.allowances == h.rwa.allowances
    ensures Hubs.TryStep(h, call).value.rwa.Allowance(owner, spender) == h.rwa.Allowance(owner, spender)
  {
    hide Hubs.TryStep;
  }

  /** Only claimMint, the requests and the token's own calls touch the token. */
  lemma OtherCallsKeepToken(h: Hub, call: Call)
    requires Hubs.TryStep(h, call).Some? && !call.op.Usdy? && !call.op.ClaimMint?
    requires !call.op.RequestRedemption? && !call.op.RequestRedemptionServicedOffchain?
    ensures Hubs.TryStep(h, call).value.rwa == h.rwa
  {
    hide TryFee, TryTakeDeposit;
  }

  /** In a run from an empty token, whoever never approves a spender is never spent from by it: not by another
      account's transferFrom or burnFrom, nor, if the spender is the hub, by a redemption request. */
  lemma {:induction false} NoApprovalNoSpending(start: Hub, calls: seq<Call>, owner: Address, spender: Address)
    requires Initial(start)
    requires forall call | call in calls :: !Approves(call, owner, spender)
    ensures Run(start, calls).rwa.Allowance(owner, spender) == 0
    ensures forall g: Gate, hasRole: bool, to: Address, amount: uint256 | amount > 0 ::
              var l := Run(start, calls).rwa;
              && Tokens.TryStep(l, g, spender, hasRole, TransferFrom(owner, to, amount)).None?
              && Tokens.TryStep(l, g, spender, hasRole, Tokens.Op.BurnFrom(owner, amount)).None?
    ensures forall c: Ctx, amount: uint256 | c.sender == owner && start.cfg.self == spender && amount > 0 ::
              var h := Run(start, calls);
              && Hubs.TryStep(h, Call(c, RequestRedemption(amount))).None?
              && Hubs.TryStep(h, Call(c, RequestRedemptionServicedOffchain(amount))).None?
  {
    hide Hubs.TryStep, Tokens.TryStep;
    if calls == [] {
    } else {
      var init, call := calls[..|calls| - 1], calls[|calls| - 1];
      NoApprovalNoSpending(start, init, owner, spender);
      assert call in calls;
      if Hubs.TryStep(Run(start, init), call).Some? {
        StepAddsNoAllowance(Run(start, init), call, owner, spender);
      }
    }
    var h := Run(start, calls);
    forall g: Gate, hasRole: bool, to: Address, amount: uint256 | amount > 0
      ensures Tokens.TryStep(h.rwa, g, spender, hasRole, TransferFrom(owner, to, amount)).None?
      ensures Tokens.TryStep(h.rwa, g, spender, hasRole, Tokens.Op.BurnFrom(owner, amount)).None?
    {
      StepSucceedsExactly(h.rwa, g, spender, hasRole, TransferFrom(owner, to, amount));
      StepSucceedsExactly(h.rwa, g, spender, hasRole, Tokens.Op.BurnFrom(owner, amount));
    }
    RunKeepsInv(start, calls);
    forall c: Ctx, amount: uint256 | c.sender == owner && start.cfg.self == spender && amount > 0
      ensures Hubs.TryStep(h, Call(c, RequestRedemption(amount))).None?
      ensures Hubs.TryStep(h, Call(c, RequestRedemptionServicedOffchain(amount))).None?
    {
      HubEffects.RedemptionRequestExactly(h, c, amount);
      HubEffects.OffChainRequestExactly(h, c, amount);
    }
  }

  // ---------------------------------------------------------------- missing prices

  lemma QuoteWithoutPrice(h: Hub, c: Ctx, id: Id)
    requires h.book.Redemption(id).priceId != 0 && c.Price(h.params.pricer, h.book.Redemption(id).priceId) == 0
    requires c.Unrestricted(h.book.Redemption(id).user) && c.HasPricer(h.params.pricer)
    ensures TryQuote(h, c, id) == Some(Payment(h.book.Redemption(id).user, 0, 0))
  {
    FloorUnique(0, 0, h.cfg.multiplier);
  }

  /** Until setPricer has named a pricer every batch with an id in it reverts. */
  lemma NoPricerNoClaims(h: Hub, c: Ctx, ids: seq<Id>)
    requires !c.HasPricer(h.params.pricer) && ids != []
    ensures TryClaimMint(h, c, ids).None? && TryClaimRedemption(h, c, ids).None?
  {}

  /** With no price recorded under its price id a deposit cannot be claimed, alone or in a batch; a
      redemption can, and is settled for nothing: its record is gone and no balance has moved. */
  lemma MissingPrice(h: Hub, c: Ctx, id: Id)
    ensures var d := h.book.Deposit(id);
            d.priceId != 0 && c.Price(h.params.pricer, d.priceId) == 0 ==> TryClaimOne(h, c, id).None?
    ensures var r := h.book.Redemption(id);
            && r.priceId != 0 && c.HasPricer(h.params.pricer) && c.Price(h.params.pricer, r.priceId) == 0
            && !h.params.redemptionPaused && c.Unrestricted(r.user) && r.user != 0 && h.params.assetSender != 0 ==>
              var next := TryClaimRedemption(h, c, [id]);
              && next.Some?
              && next.value.book.Redemption(id) == NO_REDEEMER
              && next.value.log == h.log + [Entry(c.now, RedemptionCompleted(r.user, id, r.amount, 0, 0, 0, r.priceId))]
              && forall a :: next.value.collateral.Bal(a) == h.collateral.Bal(a)
  {
    hide TryQuote, TryClaimRedemption, TryMint, Settlement.PayAll, Ledger.Bal;
    var r := h.book.Redemption(id);
    if
      && r.priceId != 0 && c.HasPricer(h.params.pricer) && c.Price(h.params.pricer, r.priceId) == 0
      && c.Unrestricted(r.user) && !h.params.redemptionPaused
    {
      QuoteWithoutPrice(h, c, id);
      Settlement.ClaimOnePays(h, c, id);
      if r.user != 0 && h.params.assetSender != 0 {
        PayingNothing(h.collateral, h.cfg.self, h.params.assetSender, r.user);
      }
      assert [Settlement.Payout(r.user, 0)] + [] == [Settlement.Payout(r.user, 0)];
    }
  }

  lemma PayingNothing(l: Ledger, spender: Address, from: Address, to: Address)
    requires from != 0 && to != 0
    ensures var r := Settlement.PayAll(l, spender, from, [Settlement.Payout(to, 0)]);
            r.Some? && forall a :: r.value.Bal(a) == l.Bal(a)
  {
    hide Ledger.TransferFrom, Ledger.Bal, Ledger.Allowance;
    Settlement.TransferExact(l, spender, from, to, 0);
    assert [Settlement.Payout(to, 0)][1..] == [];
  }

  // ---------------------------------------------------------------- without a role

  /** No price id, no claimable timestamp, no supply, and nothing settled yet. */
  ghost predicate Untouched(h: Hub) {
    && h.book.claimable == map[]
    && (forall id: Id :: h.book.Redemption(id).priceId == 0)
    && h.rwa.supply == 0
    && forall e | e in h.log :: !e.event.MintCompleted? && !e.event.RedemptionCompleted? && !e.event.UsdyMinted?
  }

  lemma BurnKeepsNoSupply(l: Ledger, g: Gate, sender: Address, from: Address, amount: uint256)
    requires l.supply == 0
    ensures var r := TryBurnFrom(l, g, sender, from, amount); r.Some? ==> r.value.supply == 0
  {
    if TryBurnFrom(l, g, sender, from, amount).Some? {
      StepMovesExactly(l, g, sender, true, Tokens.Op.BurnFrom(from, amount));
    }
  }

  lemma RolelessStepKeepsUntouched(h: Hub, call: Call)
    requires Untouched(h) && !call.ctx.hasRole && Hubs.TryStep(h, call).Some?
    ensures Untouched(Hubs.TryStep(h, call).value)
  {
    hide Gate.HookPasses, TryFee, TryMint, TryMintAmount, TryBurnFrom, Ledger.TransferFrom;
    var c := call.ctx;
    match call.op
    case ClaimMint(_) =>
    case ClaimRedemption(_) =>
    case RequestSubscription(amount) =>
      var next := TryRequestSubscription(h, c, amount).value;
      assert forall i: Id :: next.book.Redemption(i) == h.book.Redemption(i);
    case RequestRedemption(amount) =>
      BurnKeepsNoSupply(h.rwa, c.gate, h.cfg.self, c.sender, amount);
      var next, id := TryRequestRedemption(h, c, amount).value, h.book.nextRedemption;
      assert next.book.Redemption(id).priceId == 0;
      assert forall i: Id | i != id :: next.book.Redemption(i) == h.book.Redemption(i);
    case RequestRedemptionServicedOffchain(amount) =>
      BurnKeepsNoSupply(h.rwa, c.gate, h.cfg.self, c.sender, amount);
      var next := TryRequestRedemptionServicedOffchain(h, c, amount).value;
      assert forall i: Id :: next.book.Redemption(i) == h.book.Redemption(i);
    case Usdy(tokenCall) =>
      hide TryBurn, TryTransfer, TryTransferFrom;
      StepMovesExactly(h.rwa, c.gate, c.sender, c.hasRole, tokenCall);
    case _ =>
  }

  /** In a run in which no caller ever holds a role, nothing is minted and nothing is settled: every
      subscription and redemption waits for a price setter, and mints for a timestamp setter too. */
  lemma {:induction false} NoRoleNoPayout(start: Hub, calls: seq<Call>)
    requires Initial(start)
    requires forall call | call in calls :: !call.ctx.hasRole
    ensures Untouched(Run(start, calls))
  {
    hide Hubs.TryStep;
    if calls == [] {
    } else {
      var before, last := Run(start, calls[..|calls| - 1]), calls[|calls| - 1];
      NoRoleNoPayout(start, calls[..|calls| - 1]);
      assert last in calls;
      if Hubs.TryStep(before, last).Some? {
        RolelessStepKeepsUntouched(before, last);
      }
    }
  }
}
