/** Exactly when each external call of the hub succeeds, and everything that is different afterwards,
    in terms of the hub's own fields, lists, balances and allowances. */
module HubEffects {
  import opened Words
  import opened Rounding
  import opened Sums
  import opened HubMath
  import opened Books
  import opened Tokens
  import opened Hubs
  import Settlement
  import HubCalls

  function Try(h: Hub, c: Ctx, op: Hubs.Op): Option<Hub> {
    Hubs.TryStep(h, Call(c, op))
  }

  /** Neither of the hub's own lists names the account. */
  predicate Free(c: Ctx, a: Address) {
    a !in c.blocked + c.sanctioned
  }

  // ---------------------------------------------------------------- subscriptions

  /** Fee and deposit are two transferFroms out of the sender's account. */
  lemma DepositIsPaid(l: Ledger, cfg: Config, feeRecipient: Address, sender: Address, afterFee: uint256, fee: uint256)
    ensures TryTakeDeposit(l, cfg, feeRecipient, sender, afterFee, fee) ==
            Settlement.PayAll(l, cfg.self, sender, DepositPayouts(cfg, feeRecipient, afterFee, fee))
  {
    hide Ledger.TransferFrom;
    var paidFee := if fee > 0 then l.TransferFrom(cfg.self, sender, feeRecipient, fee) else Some(l);
    Settlement.PayAllConcat(l, cfg.self, sender, Settlement.FeePayout(feeRecipient, fee),
                            [Settlement.Payout(cfg.assetRecipient, afterFee)]);
    PayOne(l, cfg.self, sender, feeRecipient, fee);
    if paidFee.Some? {
      PayOne(paidFee.value, cfg.self, sender, cfg.assetRecipient, afterFee);
    }
  }

  lemma PayOne(l: Ledger, spender: Address, from: Address, to: Address, amount: uint256)
    ensures Settlement.PayAll(l, spender, from, [Settlement.Payout(to, amount)]) ==
            l.TransferFrom(spender, from, to, amount)
  {
    hide Ledger.TransferFrom;
    var ts := [Settlement.Payout(to, amount)];
    assert ts[1..] == [];
    var paid := l.TransferFrom(spender, from, to, amount);
    if paid.Some? {
      assert Settlement.PayAll(paid.value, spender, from, []) == paid;
    }
  }

  function DepositPayouts(cfg: Config, feeRecipient: Address, afterFee: uint256, fee: uint256)
    : seq<Settlement.Payout>
  {
    Settlement.FeePayout(feeRecipient, fee) + [Settlement.Payout(cfg.assetRecipient, afterFee)]
  }

  /** requestSubscription. */
  lemma SubscriptionExactly(h: Hub, c: Ctx, amount: uint256)
    ensures var fee := amount * h.params.mintFee / 10000;
            Try(h, c, RequestSubscription(amount)).Some? <==>
            && !h.params.subscriptionPaused && Free(c, c.sender)
            && amount >= h.params.minimumDeposit
            && amount * h.params.mintFee < TWO_256 && fee <= amount
            && h.book.nextDeposit + 1 < TWO_256
            && Settlement.Affordable(h.collateral, h.cfg.self, c.sender,
                                     DepositPayouts(h.cfg, h.params.feeRecipient, amount - fee, fee))
    ensures Try(h, c, RequestSubscription(amount)).Some? ==>
              var next, id := Try(h, c, RequestSubscription(amount)).value, h.book.nextDeposit;
              var fee := amount * h.params.mintFee / 10000;
              && next == h.(book := next.book, log := next.log, collateral := next.collateral)
              && next.book == h.book.(deposits := h.book.deposits[id := Depositor(c.sender, amount - fee, 0)],
                                      nextDeposit := id + 1)
              && next.log == h.log + [Entry(c.now, MintRequested(c.sender, id, amount, amount - fee, fee))]
              && Sum(Credited, next.log) == Sum(Credited, h.log) + amount - fee
              && (forall o, s :: next.collateral.Allowance(o, s) ==
                    if o == c.sender && s == h.cfg.self && h.collateral.Allowance(o, s) != MAX_UINT256
                    then h.collateral.Allowance(o, s) - amount
                    else h.collateral.Allowance(o, s))
  {
    hide TryFee, TryTakeDeposit, Settlement.PayAll, Settlement.Affordable, Ledger.Allowance, DepositPayouts;
    FeeExactly(amount, h.params.mintFee);
    Shrinks(amount * h.params.mintFee, 10000);
    var fee := amount * h.params.mintFee / 10000;
    if amount * h.params.mintFee < TWO_256 && fee <= amount {
      DepositIsPaid(h.collateral, h.cfg, h.params.feeRecipient, c.sender, amount - fee, fee);
      Settlement.PayAllExact(h.collateral, h.cfg.self, c.sender,
                             DepositPayouts(h.cfg, h.params.feeRecipient, amount - fee, fee));
      DepositTotals(h.cfg, h.params.feeRecipient, amount - fee, fee);
      SumSnoc(Credited, h.log, Entry(c.now, MintRequested(c.sender, h.book.nextDeposit, amount, amount - fee, fee)));
    }
  }

  lemma DepositTotals(cfg: Config, feeRecipient: Address, afterFee: uint256, fee: uint256)
    ensures Settlement.Total(DepositPayouts(cfg, feeRecipient, afterFee, fee)) == afterFee + fee
  {
    Settlement.FeePayoutTotals(feeRecipient, fee);
    Settlement.ConcatTotals(Settlement.FeePayout(feeRecipient, fee),
                            [Settlement.Payout(cfg.assetRecipient, afterFee)]);
  }

  /** addProof. */
  lemma AddProofExactly(h: Hub, c: Ctx, id: Id, user: Address, amount: uint256)
    ensures Try(h, c, AddProof(id, user, amount)) ==
            if c.hasRole && Free(c, user) && (id in h.book.deposits ==> h.book.deposits[id].user == 0)
            then Some(h.(book := h.book.(deposits := h.book.deposits[id := Depositor(user, amount, 0)]),
                         log := h.log + [Entry(c.now, DepositProofAdded(id, user, amount))]))
            else None
  {}

  // ---------------------------------------------------------------- claimMint

  /** claimMint mints: every account's balance and the supply grow by exactly what the new events say, one
      event per id that describes the record as it stood; the records and their timestamps are gone, and
      nothing else is different. */
  lemma ClaimMintPays(h: Hub, c: Ctx, ids: seq<Id>)
    requires Try(h, c, ClaimMint(ids)).Some?
    ensures var next := Try(h, c, ClaimMint(ids)).value;
            && !h.params.subscriptionPaused
            && next == h.(book := next.book, log := next.log, rwa := next.rwa)
            && |next.log| == |h.log| + |ids| && next.log[..|h.log|] == h.log
            && (forall i | 0 <= i < |ids| :: HubCalls.DescribesClaim(h, c, ids[i], next.log[|h.log| + i]))
            && (forall i | 0 <= i < |ids| :: 0 < h.book.Claimable(ids[i]) <= c.now)
            && (forall a :: next.rwa.Bal(a) + Sum(HubCalls.MintedTo(a), h.log)
                         == h.rwa.Bal(a) + Sum(HubCalls.MintedTo(a), next.log))
            && next.rwa.supply + Sum(HubMinted, h.log) == h.rwa.supply + Sum(HubMinted, next.log)
            && next.rwa.allowances == h.rwa.allowances
            && next.book == h.book.(deposits := next.book.deposits, claimable := next.book.claimable)
            && (forall i: Id :: next.book.Deposit(i) == if i in ids then NO_DEPOSITOR else h.book.Deposit(i))
            && (forall i: Id :: next.book.Claimable(i) == if i in ids then 0 else h.book.Claimable(i))
  {
    hide TryClaimEach, HubCalls.DescribesClaim, Sum;
    HubCalls.ClaimEachPaysRecords(h, c, ids);
    ClaimsChangeNothingElse(h, c, ids);
  }

  lemma {:induction false} ClaimsChangeNothingElse(h: Hub, c: Ctx, ids: seq<Id>)
    requires TryClaimEach(h, c, ids).Some?
    ensures var next := TryClaimEach(h, c, ids).value;
            && next == h.(book := next.book, log := next.log, rwa := next.rwa)
            && next.rwa.supply + Sum(HubMinted, h.log) == h.rwa.supply + Sum(HubMinted, next.log)
            && next.rwa.allowances == h.rwa.allowances
            && next.book == h.book.(deposits := next.book.deposits, claimable := next.book.claimable)
    decreases |ids|
  {
    hide TryMintAmount, Gate.HookPasses;
    if ids == [] {
    } else {
      var mid := TryClaimOne(h, c, ids[0]).value;
      HubCalls.ClaimOneMints(h, c, ids[0]);
      assert mid.log == h.log + [mid.log[|h.log|]];
      SumSnoc(HubMinted, h.log, mid.log[|h.log|]);
      ClaimsChangeNothingElse(mid, c, ids[1..]);
    }
  }

  /** setClaimableTimestamp. */
  lemma ClaimableTimestampExactly(h: Hub, c: Ctx, timestamp: uint256, ids: seq<Id>)
    ensures Try(h, c, SetClaimableTimestamp(timestamp, ids)).Some? <==> c.hasRole && timestamp >= c.now
    ensures Try(h, c, SetClaimableTimestamp(timestamp, ids)).Some? ==>
              var next := Try(h, c, SetClaimableTimestamp(timestamp, ids)).value;
              && next == h.(book := h.book.(claimable := next.book.claimable), log := next.log)
              && (forall id: Id :: next.book.Claimable(id) == if id in ids then timestamp else h.book.Claimable(id))
              && next.log == h.log + seq(|ids|, i requires 0 <= i < |ids| =>
                                           Entry(c.now, ClaimableTimestampSet(timestamp, ids[i])))
  {
    HubCalls.TimestampsAreSet(h, c, timestamp, ids);
  }

  // ---------------------------------------------------------------- redemption requests

  /** What burning `amount` of the caller's RWA through its allowance to the hub asks for. */
  predicate Burnable(h: Hub, c: Ctx, amount: uint256) {
    var l := h.rwa;
    && c.sender != 0
    && c.gate.HookPasses(h.cfg.self, c.sender, 0)
    && (l.Allowance(c.sender, h.cfg.self) == MAX_UINT256 || amount <= l.Allowance(c.sender, h.cfg.self))
    && amount <= l.Bal(c.sender) && amount <= l.supply
  }

  /** What burning `amount` of the caller's RWA does to the token. */
  ghost predicate Burned(h: Hub, c: Ctx, amount: uint256, rwa: Ledger) {
    && (forall a :: rwa.Bal(a) == h.rwa.Bal(a) - if a == c.sender then amount else 0)
    && rwa.supply == h.rwa.supply - amount
    && (forall o, s :: rwa.Allowance(o, s) ==
          if o == c.sender && s == h.cfg.self && h.rwa.Allowance(o, s) != MAX_UINT256
          then h.rwa.Allowance(o, s) - amount
          else h.rwa.Allowance(o, s))
  }

  lemma BurnFromExactly(h: Hub, c: Ctx, amount: uint256)
    ensures var burned := TryBurnFrom(h.rwa, c.gate, h.cfg.self, c.sender, amount);
            && (burned.Some? <==> Burnable(h, c, amount))
            && (burned.Some? ==> Burned(h, c, amount, burned.value))
  {
    hide TryBurnFrom, Gate.HookPasses, Ledger.Bal, Ledger.Allowance;
    var op := Tokens.Op.BurnFrom(c.sender, amount);
    StepSucceedsExactly(h.rwa, c.gate, h.cfg.self, false, op);
    if TryBurnFrom(h.rwa, c.gate, h.cfg.self, c.sender, amount).Some? {
      StepMovesExactly(h.rwa, c.gate, h.cfg.self, false, op);
      StepAllowancesExactly(h.rwa, c.gate, h.cfg.self, false, op);
    }
  }

  /** requestRedemption. */
  lemma RedemptionRequestExactly(h: Hub, c: Ctx, amount: uint256)
    ensures Try(h, c, RequestRedemption(amount)).Some? <==>
            && !h.params.redemptionPaused && amount >= h.params.minimumRedemption
            && h.book.nextRedemption + 1 < TWO_256 && Burnable(h, c, amount)
    ensures Try(h, c, RequestRedemption(amount)).Some? ==>
              var next, id := Try(h, c, RequestRedemption(amount)).value, h.book.nextRedemption;
              && next == h.(book := next.book, log := next.log, rwa := next.rwa)
              && Burned(h, c, amount, next.rwa)
              && next.book == h.book.(redemptions := h.book.redemptions[id := Redeemer(c.sender, amount, 0)],
                                      nextRedemption := id + 1)
              && next.log == h.log + [Entry(c.now, RedemptionRequested(c.sender, id, amount))]
  {
    hide TryBurnFrom, Burnable, Burned;
    BurnFromExactly(h, c, amount);
  }

  /** requestRedemptionServicedOffchain. */
  lemma OffChainRequestExactly(h: Hub, c: Ctx, amount: uint256)
    ensures Try(h, c, RequestRedemptionServicedOffchain(amount)).Some? <==>
            && !h.params.offChainRedemptionPaused && amount >= h.params.minimumOffChainRedemption
            && h.book.nextRedemption + 1 < TWO_256 && Burnable(h, c, amount)
    ensures Try(h, c, RequestRedemptionServicedOffchain(amount)).Some? ==>
              var next, id := Try(h, c, RequestRedemptionServicedOffchain(amount)).value, h.book.nextRedemption;
              && next == h.(book := next.book, log := next.log, rwa := next.rwa)
              && Burned(h, c, amount, next.rwa)
              && next.book == h.book.(nextRedemption := id + 1)
              && next.log == h.log + [Entry(c.now, RedemptionRequestedServicedOffChain(c.sender, id, amount))]
  {
    hide TryBurnFrom, Burnable, Burned;
    BurnFromExactly(h, c, amount);
  }

  // ---------------------------------------------------------------- claimRedemption

  /** A record can be quoted exactly when the hub's lists do not name its user, it has a price id, there is a
      pricer to ask, and nothing overflows; its due and fee are one floor division each. */
  lemma QuoteExactly(h: Hub, c: Ctx, id: Id)
    ensures var r, pricer := h.book.Redemption(id), h.params.pricer;
            var price := if pricer in c.pricers && r.priceId in c.pricers[pricer] then c.pricers[pricer][r.priceId]
                         else 0;
            var due := r.amount * price / (h.cfg.multiplier * 1_000_000_000_000_000_000);
            var fee := due * h.params.redemptionFee / 10000;
            && (TryQuote(h, c, id).Some? <==>
                  && Free(c, r.user) && r.priceId != 0
                  && pricer != 0 && pricer in c.pricers
                  && r.amount * price < TWO_256
                  && due * h.params.redemptionFee < TWO_256 && fee <= due)
            && (TryQuote(h, c, id).Some? ==>
                  && TryQuote(h, c, id).value.user == r.user
                  && TryQuote(h, c, id).value.due == due
                  && TryQuote(h, c, id).value.fee == fee)
  {
    hide TryRedemptionAmount, TryFee;
    var r, pricer := h.book.Redemption(id), h.params.pricer;
    var price := c.Price(pricer, r.priceId);
    RedemptionAmountExactly(r.amount, price, h.cfg.multiplier);
    var due := TryRedemptionAmount(r.amount, price, h.cfg.multiplier);
    if due.Some? {
      FeeExactly(due.value, h.params.redemptionFee);
      Shrinks(due.value * h.params.redemptionFee, 10000);
    }
  }

  /** The event that settling `id` emits on the records of h. */
  predicate DescribesSettlement(h: Hub, c: Ctx, id: Id, p: Payment, e: Entry) {
    var r := h.book.Redemption(id);
    e == Entry(c.now, RedemptionCompleted(r.user, id, r.amount, p.due, p.fee,
                                          c.Price(h.params.pricer, r.priceId), r.priceId))
  }

  lemma MarkedRecord(h: Hub, c: Ctx, id: Id)
    requires TryQuote(h, c, id).Some?
    ensures var mid, p := Settlement.MarkSettled(h, c, id), TryQuote(h, c, id).value;
            && mid == h.(book := h.book.(redemptions := mid.book.redemptions), log := mid.log)
            && (forall i: Id :: mid.book.Redemption(i) == if i == id then NO_REDEEMER else h.book.Redemption(i))
            && |mid.log| == |h.log| + 1 && mid.log[..|h.log|] == h.log
            && DescribesSettlement(h, c, id, p, mid.log[|h.log|])
            && Sum(Due, mid.log) == Sum(Due, h.log) + p.due
  {
    var mid := Settlement.MarkSettled(h, c, id);
    QuoteIsOfUser(h, c, id);
    SumSnoc(Due, h.log, mid.log[|h.log|]);
  }

  lemma QuoteIsOfUser(h: Hub, c: Ctx, id: Id)
    requires TryQuote(h, c, id).Some?
    ensures TryQuote(h, c, id).value.user == h.book.Redemption(id).user
  {}

  /** The records after the settling loop. */
  lemma {:induction false} SettledRecords(h: Hub, c: Ctx, ids: seq<Id>)
    requires Settlement.TryQuotes(h, c, ids).Some?
    ensures var next, qs := Settlement.MarkAll(h, c, ids), Settlement.TryQuotes(h, c, ids).value;
            && next == h.(book := h.book.(redemptions := next.book.redemptions), log := next.log)
            && (forall i: Id :: next.book.Redemption(i) == if i in ids then NO_REDEEMER else h.book.Redemption(i))
            && Sum(Due, next.log) == Sum(Due, h.log) + Settlement.TotalDue(qs)
    decreases |ids|
  {
    hide TryQuote, Settlement.MarkSettled, Sum, DescribesSettlement;
    if ids == [] {
    } else {
      var mid, rest := Settlement.MarkSettled(h, c, ids[0]), ids[1..];
      MarkedRecord(h, c, ids[0]);
      SettledRecords(mid, c, rest);
      assert Settlement.TryQuotes(h, c, ids).value[1..] == Settlement.TryQuotes(mid, c, rest).value;
    }
  }

  /** The events of the settling loop. */
  lemma {:induction false} SettledEvents(h: Hub, c: Ctx, ids: seq<Id>)
    requires Settlement.TryQuotes(h, c, ids).Some?
    ensures var next, qs := Settlement.MarkAll(h, c, ids), Settlement.TryQuotes(h, c, ids).value;
            && |next.log| == |h.log| + |ids| && next.log[..|h.log|] == h.log
            && (forall i | 0 <= i < |ids| :: DescribesSettlement(h, c, ids[i], qs[i], next.log[|h.log| + i]))
    decreases |ids|
  {
    hide TryQuote, Settlement.MarkSettled, Sum, DescribesSettlement, Book.Redemption;
    if ids == [] {
    } else {
      var mid, rest := Settlement.MarkSettled(h, c, ids[0]), ids[1..];
      var next, qs := Settlement.MarkAll(h, c, ids), Settlement.TryQuotes(h, c, ids).value;
      MarkedRecord(h, c, ids[0]);
      SettledEvents(mid, c, rest);
      assert Settlement.Distinct(ids) by { Settlement.QuotesAreRecords(h, c, ids); }
      assert qs[1..] == Settlement.TryQuotes(mid, c, rest).value;
      assert next.log[..|h.log|] == next.log[..|mid.log|][..|h.log|];
      assert next.log[|h.log|] == next.log[..|mid.log|][|h.log|];
      forall i | 1 <= i < |ids| ensures DescribesSettlement(h, c, ids[i], qs[i], next.log[|h.log| + i]) {
        assert ids[i] == rest[i - 1] && ids[i] != ids[0];
        SameSettlement(h, mid, c, ids[i], qs[i], next.log[|mid.log| + (i - 1)]);
      }
    }
  }

  lemma SameSettlement(h: Hub, mid: Hub, c: Ctx, id: Id, p: Payment, e: Entry)
    requires DescribesSettlement(mid, c, id, p, e)
    requires mid.book.Redemption(id) == h.book.Redemption(id) && mid.params == h.params
    ensures DescribesSettlement(h, c, id, p, e)
  {}

  /** Exactly when claimRedemption succeeds: `QuoteExactly` says what can be quoted and
      `Settlement.PayAllExact` what is affordable. */
  lemma ClaimRedemptionExactly(h: Hub, c: Ctx, ids: seq<Id>)
    ensures Try(h, c, ClaimRedemption(ids)).Some? <==>
            && !h.params.redemptionPaused
            && (forall i, j | 0 <= i < j < |ids| :: ids[i] != ids[j])
            && (forall i | 0 <= i < |ids| :: TryQuote(h, c, ids[i]).Some?)
            && var qs := Settlement.QuotesOf(h, c, ids);
               && Settlement.TotalFee(qs) < TWO_256
               && Settlement.Affordable(h.collateral, h.cfg.self, h.params.assetSender,
                                        Settlement.BatchPayouts(qs, h.params.feeRecipient))
  {
    hide TryQuote, TryClaimRedemption, Settlement.QuotesOf, Settlement.Affordable;
    Settlement.ClaimRedemptionSucceedsExactly(h, c, ids);
  }

  /** claimRedemption deletes exactly the listed records, emits one event per id that describes the record as
      it stood, and changes nothing else but the collateral ledger, of which `Settlement.BatchPaysExactly`
      says the rest. */
  lemma ClaimRedemptionClears(h: Hub, c: Ctx, ids: seq<Id>)
    requires Try(h, c, ClaimRedemption(ids)).Some?
    ensures Settlement.Distinct(ids) && Settlement.AllQuoted(h, c, ids)
    ensures var next, qs := Try(h, c, ClaimRedemption(ids)).value, Settlement.QuotesOf(h, c, ids);
            && next == h.(book := h.book.(redemptions := next.book.redemptions), log := next.log,
                          collateral := next.collateral)
            && (forall i: Id :: next.book.Redemption(i) == if i in ids then NO_REDEEMER else h.book.Redemption(i))
            && |next.log| == |h.log| + |ids| && next.log[..|h.log|] == h.log
            && (forall i | 0 <= i < |ids| :: DescribesSettlement(h, c, ids[i], qs[i], next.log[|h.log| + i]))
            && Sum(Due, next.log) == Sum(Due, h.log) + Settlement.TotalDue(qs)
            && (forall o, s :: next.collateral.Allowance(o, s) ==
                  if o == h.params.assetSender && s == h.cfg.self && h.collateral.Allowance(o, s) != MAX_UINT256
                  then h.collateral.Allowance(o, s) - Settlement.TotalDue(qs)
                  else h.collateral.Allowance(o, s))
  {
    hide Settlement.TryQuotes, TryQuote, TrySettleEach, Settlement.PayAll, Settlement.Affordable, Settlement.QuotesOf;
    hide Settlement.MarkAll, Settlement.Distinct, Settlement.AllQuoted, Ledger.Allowance, DescribesSettlement;
    Settlement.SettleEachPays(h, c, ids, 0);
    Settlement.QuotesAreRecords(h, c, ids);
    SettledRecords(h, c, ids);
    SettledEvents(h, c, ids);
    var qs := Settlement.QuotesOf(h, c, ids);
    Settlement.SamePayouts(qs, h.params.feeRecipient);
    Settlement.PayAllExact(h.collateral, h.cfg.self, h.params.assetSender,
                           Settlement.BatchPayouts(qs, h.params.feeRecipient));
  }

  /** A record of a user that either of the hub's lists names makes any batch with it revert. */
  lemma RestrictedPayeeReverts(h: Hub, c: Ctx, ids: seq<Id>, id: Id)
    requires id in ids
    requires h.book.Redemption(id).user in c.blocked || h.book.Redemption(id).user in c.sanctioned
    ensures Try(h, c, ClaimRedemption(ids)).None?
  {
    hide TryQuote, TryClaimRedemption;
    Settlement.ClaimRedemptionSucceedsExactly(h, c, ids);
    if Try(h, c, ClaimRedemption(ids)).Some? {
      var i :| 0 <= i < |ids| && ids[i] == id;
      QuoteExactly(h, c, ids[i]);
    }
  }

  // ---------------------------------------------------------------- price ids

  /** setPriceIdForDeposits succeeds exactly for as many price ids as records, all of which exist and have no
      price id; a record may be named again only after a zero price id. */
  lemma DepositPricesSucceedExactly(h: Hub, c: Ctx, ids: seq<Id>, priceIds: seq<uint256>)
    ensures Try(h, c, SetPriceIdForDeposits(ids, priceIds)).Some? <==>
            && c.hasRole && |ids| == |priceIds|
            && (forall i | 0 <= i < |ids| :: h.book.Deposit(ids[i]).user != 0 && h.book.Deposit(ids[i]).priceId == 0)
            && (forall i, j | 0 <= i < j < |ids| && ids[i] == ids[j] :: priceIds[i] == 0)
  {
    if |ids| == |priceIds| { DepositPricesExactly(h, c, ids, priceIds); }
  }

  lemma {:induction false} DepositPricesExactly(h: Hub, c: Ctx, ids: seq<Id>, priceIds: seq<uint256>)
    requires |ids| == |priceIds|
    ensures TrySetDepositPrices(h, c, ids, priceIds).Some? <==>
            && (forall i | 0 <= i < |ids| :: h.book.Deposit(ids[i]).user != 0 && h.book.Deposit(ids[i]).priceId == 0)
            && (forall i, j | 0 <= i < j < |ids| && ids[i] == ids[j] :: priceIds[i] == 0)
    decreases |ids|
  {
    if ids == [] {
    } else {
      var mid, rest, others := Record(h, c, PriceIdSetForDeposit(ids[0], priceIds[0])), ids[1..], priceIds[1..];
      DepositPricesExactly(mid, c, rest, others);
      assert forall i | 1 <= i < |ids| :: ids[i] == rest[i - 1] && priceIds[i] == others[i - 1];
      assert forall i | 0 <= i < |rest| :: rest[i] == ids[i + 1] && others[i] == priceIds[i + 1];
      assert forall id: Id :: mid.book.Deposit(id) ==
                              if id == ids[0] then h.book.Deposit(id).(priceId := priceIds[0]) else h.book.Deposit(id);
    }
  }

  /** The same for redemptions, whose records need not exist. */
  lemma RedemptionPricesSucceedExactly(h: Hub, c: Ctx, ids: seq<Id>, priceIds: seq<uint256>)
    ensures Try(h, c, SetPriceIdForRedemptions(ids, priceIds)).Some? <==>
            && c.hasRole && |ids| == |priceIds|
            && (forall i | 0 <= i < |ids| :: h.book.Redemption(ids[i]).priceId == 0)
            && (forall i, j | 0 <= i < j < |ids| && ids[i] == ids[j] :: priceIds[i] == 0)
  {
    if |ids| == |priceIds| { RedemptionPricesExactly(h, c, ids, priceIds); }
  }

  lemma {:induction false} RedemptionPricesExactly(h: Hub, c: Ctx, ids: seq<Id>, priceIds: seq<uint256>)
    requires |ids| == |priceIds|
    ensures TrySetRedemptionPrices(h, c, ids, priceIds).Some? <==>
            && (forall i | 0 <= i < |ids| :: h.book.Redemption(ids[i]).priceId == 0)
            && (forall i, j | 0 <= i < j < |ids| && ids[i] == ids[j] :: priceIds[i] == 0)
    decreases |ids|
  {
    if ids == [] {
    } else {
      var mid, rest, others := Record(h, c, PriceIdSetForRedemption(ids[0], priceIds[0])), ids[1..], priceIds[1..];
      RedemptionPricesExactly(mid, c, rest, others);
      assert forall i | 1 <= i < |ids| :: ids[i] == rest[i - 1] && priceIds[i] == others[i - 1];
      assert forall i | 0 <= i < |rest| :: rest[i] == ids[i + 1] && others[i] == priceIds[i + 1];
      assert forall id: Id :: mid.book.Redemption(id) ==
                              if id == ids[0] then h.book.Redemption(id).(priceId := priceIds[0])
                              else h.book.Redemption(id);
    }
  }

  /** What a successful setPriceIdForDeposits changes: the price id of each listed record becomes the last one
      listed for it, and one event per pair is emitted. */
  lemma DepositPricesChange(h: Hub, c: Ctx, ids: seq<Id>, priceIds: seq<uint256>)
    requires Try(h, c, SetPriceIdForDeposits(ids, priceIds)).Some?
    ensures |ids| == |priceIds|
    ensures var next := Try(h, c, SetPriceIdForDeposits(ids, priceIds)).value;
            && next == h.(book := h.book.(deposits := next.book.deposits), log := next.log)
            && (forall id: Id :: next.book.Deposit(id).(priceId := 0) == h.book.Deposit(id).(priceId := 0))
            && (forall id: Id | id !in ids :: next.book.Deposit(id) == h.book.Deposit(id))
            && (forall i | 0 <= i < |ids| && ids[i] !in ids[i + 1..] ::
                  next.book.Deposit(ids[i]).priceId == priceIds[i])
            && next.log == h.log + seq(|ids|, i requires 0 <= i < |ids| =>
                                         Entry(c.now, PriceIdSetForDeposit(ids[i], priceIds[i])))
  {
    DepositPricesInTurn(h, c, ids, priceIds);
  }

  lemma DepositPriceRecorded(h: Hub, c: Ctx, id: Id, priceId: uint256)
    ensures var mid := Record(h, c, PriceIdSetForDeposit(id, priceId));
            && mid == h.(book := h.book.(deposits := mid.book.deposits),
                         log := h.log + [Entry(c.now, PriceIdSetForDeposit(id, priceId))])
            && (forall i: Id :: mid.book.Deposit(i) ==
                  if i == id then h.book.Deposit(i).(priceId := priceId) else h.book.Deposit(i))
  {}

  lemma {:induction false} DepositPricesInTurn(h: Hub, c: Ctx, ids: seq<Id>, priceIds: seq<uint256>)
    requires |ids| == |priceIds| && TrySetDepositPrices(h, c, ids, priceIds).Some?
    ensures var next := TrySetDepositPrices(h, c, ids, priceIds).value;
            && next == h.(book := h.book.(deposits := next.book.deposits), log := next.log)
            && (forall id: Id :: next.book.Deposit(id).(priceId := 0) == h.book.Deposit(id).(priceId := 0))
            && (forall id: Id | id !in ids :: next.book.Deposit(id) == h.book.Deposit(id))
            && (forall i | 0 <= i < |ids| && ids[i] !in ids[i + 1..] ::
                  next.book.Deposit(ids[i]).priceId == priceIds[i])
            && next.log == h.log + seq(|ids|, i requires 0 <= i < |ids| =>
                                         Entry(c.now, PriceIdSetForDeposit(ids[i], priceIds[i])))
    decreases |ids|
  {
    hide Record;
    if ids == [] {
    } else {
      var mid, rest, others := Record(h, c, PriceIdSetForDeposit(ids[0], priceIds[0])), ids[1..], priceIds[1..];
      DepositPriceRecorded(h, c, ids[0], priceIds[0]);
      DepositPricesInTurn(mid, c, rest, others);
      assert forall i | 1 <= i < |ids| :: ids[i] == rest[i - 1] && priceIds[i] == others[i - 1];
      assert forall i | 1 <= i < |ids| :: ids[i + 1..] == rest[i..];
    }
  }

  /** The same for redemptions. */
  lemma RedemptionPricesChange(h: Hub, c: Ctx, ids: seq<Id>, priceIds: seq<uint256>)
    requires Try(h, c, SetPriceIdForRedemptions(ids, priceIds)).Some?
    ensures |ids| == |priceIds|
    ensures var next := Try(h, c, SetPriceIdForRedemptions(ids, priceIds)).value;
            && next == h.(book := h.book.(redemptions := next.book.redemptions), log := next.log)
            && (forall id: Id :: next.book.Redemption(id).(priceId := 0) == h.book.Redemption(id).(priceId := 0))
            && (forall id: Id | id !in ids :: next.book.Redemption(id) == h.book.Redemption(id))
            && (forall i | 0 <= i < |ids| && ids[i] !in ids[i + 1..] ::
                  next.book.Redemption(ids[i]).priceId == priceIds[i])
            && next.log == h.log + seq(|ids|, i requires 0 <= i < |ids| =>
                                         Entry(c.now, PriceIdSetForRedemption(ids[i], priceIds[i])))
  {
    RedemptionPricesInTurn(h, c, ids, priceIds);
  }

  lemma RedemptionPriceRecorded(h: Hub, c: Ctx, id: Id, priceId: uint256)
    ensures var mid := Record(h, c, PriceIdSetForRedemption(id, priceId));
            && mid == h.(book := h.book.(redemptions := mid.book.redemptions),
                         log := h.log + [Entry(c.now, PriceIdSetForRedemption(id, priceId))])
            && (forall i: Id :: mid.book.Redemption(i) ==
                  if i == id then h.book.Redemption(i).(priceId := priceId) else h.book.Redemption(i))
  {}

  lemma {:induction false} RedemptionPricesInTurn(h: Hub, c: Ctx, ids: seq<Id>, priceIds: seq<uint256>)
    requires |ids| == |priceIds| && TrySetRedemptionPrices(h, c, ids, priceIds).Some?
    ensures var next := TrySetRedemptionPrices(h, c, ids, priceIds).value;
            && next == h.(book := h.book.(redemptions := next.book.redemptions), log := next.log)
            && (forall id: Id :: next.book.Redemption(id).(priceId := 0) == h.book.Redemption(id).(priceId := 0))
            && (forall id: Id | id !in ids :: next.book.Redemption(id) == h.book.Redemption(id))
            && (forall i | 0 <= i < |ids| && ids[i] !in ids[i + 1..] ::
                  next.book.Redemption(ids[i]).priceId == priceIds[i])
            && next.log == h.log + seq(|ids|, i requires 0 <= i < |ids| =>
                                         Entry(c.now, PriceIdSetForRedemption(ids[i], priceIds[i])))
    decreases |ids|
  {
    hide Record;
    if ids == [] {
    } else {
      var mid, rest, others := Record(h, c, PriceIdSetForRedemption(ids[0], priceIds[0])), ids[1..], priceIds[1..];
      RedemptionPriceRecorded(h, c, ids[0], priceIds[0]);
      RedemptionPricesInTurn(mid, c, rest, others);
      assert forall i | 1 <= i < |ids| :: ids[i] == rest[i - 1] && priceIds[i] == others[i - 1];
      assert forall i | 1 <= i < |ids| :: ids[i + 1..] == rest[i..];
    }
  }

  // ---------------------------------------------------------------- administration

  /** overwriteDepositor and overwriteRedeemer. */
  lemma OverwritesExactly(h: Hub, c: Ctx, id: Id, user: Address, amount: uint256, priceId: uint256)
    ensures Try(h, c, OverwriteDepositor(id, user, amount, priceId)) ==
            if c.hasRole && Free(c, user)
            then Some(h.(book := h.book.(deposits := h.book.deposits[id := Depositor(user, amount, priceId)]),
                         log := h.log + [Entry(c.now, DepositorOverwritten(id, user, amount, priceId))]))
            else None
    ensures Try(h, c, OverwriteRedeemer(id, user, amount, priceId)) ==
            if c.hasRole && Free(c, user)
            then Some(h.(book := h.book.(redemptions := h.book.redemptions[id := Redeemer(user, amount, priceId)]),
                         log := h.log + [Entry(c.now, RedeemerOverwritten(id, user, amount, priceId))]))
            else None
  {}

  /** A setter needs the role, fees of at most 10000 basis points and minimums of deposits and redemptions of at
      least 10000 units; it changes its own setting and nothing else. */
  lemma SettingsExactly(h: Hub, c: Ctx, s: Setting)
    ensures Try(h, c, Set(s)).Some? <==>
            && c.hasRole
            && (s.MintFee? || s.RedemptionFee? ==> s.bps <= 10000)
            && (s.MinimumDeposit? || s.MinimumRedemption? ==> s.minimum >= 10000)
    ensures Try(h, c, Set(s)).Some? ==>
              var p, q := h.params, Try(h, c, Set(s)).value.params;
              && Try(h, c, Set(s)).value == h.(params := q)
              && q.mintFee == (if s.MintFee? then s.bps else p.mintFee)
              && q.redemptionFee == (if s.RedemptionFee? then s.bps else p.redemptionFee)
              && q.minimumDeposit == (if s.MinimumDeposit? then s.minimum else p.minimumDeposit)
              && q.minimumRedemption == (if s.MinimumRedemption? then s.minimum else p.minimumRedemption)
              && q.minimumOffChainRedemption ==
                   (if s.MinimumOffChainRedemption? then s.minimum else p.minimumOffChainRedemption)
              && q.subscriptionPaused == (if s.PauseSubscription? then s.paused else p.subscriptionPaused)
              && q.redemptionPaused == (if s.PauseRedemption? then s.paused else p.redemptionPaused)
              && q.offChainRedemptionPaused ==
                   (if s.PauseOffChainRedemption? then s.paused else p.offChainRedemptionPaused)
              && q.feeRecipient == (if s.FeeRecipient? then s.account else p.feeRecipient)
              && q.assetSender == (if s.AssetSender? then s.account else p.assetSender)
              && q.pricer == (if s.Pricer? then s.account else p.pricer)
  {}

  /** A token call that does not go through the hub changes the token, and the log for a mint; the hub learns
      nothing of what happens to the collateral but the ledger itself. */
  lemma OutsideCallsExactly(h: Hub, c: Ctx, call: Tokens.Op, ledger: Ledger)
    ensures var moved := Tokens.TryStep(h.rwa, c.gate, c.sender, c.hasRole, call);
            Try(h, c, Usdy(call)) ==
            if moved.None? then None
            else Some(h.(rwa := moved.value,
                         log := if call.Mint? then h.log + [Entry(c.now, UsdyMinted(call.to, call.amount))] else h.log))
    ensures Try(h, c, Collateral(ledger)) == Some(h.(collateral := ledger))
  {
    hide Tokens.TryStep;
  }
}
