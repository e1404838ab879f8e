/** What single hub calls do to balances and records, and who cannot make them. */
module HubCalls {
  import opened Words
  import opened Sums
  import opened HubMath
  import opened Books
  import opened Tokens
  import opened Hubs
  import Settlement

  // ---------------------------------------------------------------- requests

  /** A subscription takes exactly `amount` from the sender: the fee goes to the fee recipient, the
      rest to the asset recipient, whoever these are, and the rest is what the new record holds. */
  lemma SubscriptionMovesAmount(h: Hub, c: Ctx, amount: uint256)
    requires TryRequestSubscription(h, c, amount).Some?
    ensures var next, id := TryRequestSubscription(h, c, amount).value, h.book.nextDeposit;
            var d := next.book.Deposit(id);
            var fee := amount - d.amount;
            && 0 <= fee == amount * h.params.mintFee / BPS_DENOMINATOR
            && d.user == c.sender && d.priceId == 0 && next.book.nextDeposit == id + 1
            && (forall i: Id | i != id :: next.book.Deposit(i) == h.book.Deposit(i))
            && (forall a :: next.collateral.Bal(a) == h.collateral.Bal(a) - (if a == c.sender then amount else 0)
                                                      + (if a == h.params.feeRecipient then fee else 0)
                                                      + (if a == h.cfg.assetRecipient then d.amount else 0))
            && next.rwa == h.rwa
  {
    hide TryFee, Ledger.TransferFrom, Ledger.Bal, Ledger.Allowance;
    FeeIsFloor(amount, h.params.mintFee);
    var fee := TryFee(amount, h.params.mintFee).value;
    var first := h.collateral.TransferFrom(h.cfg.self, c.sender, h.params.feeRecipient, fee);
    Settlement.TransferExact(h.collateral, h.cfg.self, c.sender, h.params.feeRecipient, fee);
    var paid := if fee > 0 then first.value else h.collateral;
    Settlement.TransferExact(paid, h.cfg.self, c.sender, h.cfg.assetRecipient, amount - fee);
  }

  /** What the two calls that create deposit records wipe out: a subscription whatever amount its id
      already held, addProof the amount of a record without a user. */
  lemma CreationReplaces(h: Hub, c: Ctx, amount: uint256, id: Id, user: Address)
    requires h.book == Replay(h.log)
    ensures TryRequestSubscription(h, c, amount).Some? ==>
              Replaced(TryRequestSubscription(h, c, amount).value.log)
              == Replaced(h.log) + h.book.Deposit(h.book.nextDeposit).amount
    ensures TryAddProof(h, c, id, user, amount).Some? ==>
              && h.book.Deposit(id).user == 0
              && Replaced(TryAddProof(h, c, id, user, amount).value.log) == Replaced(h.log) + h.book.Deposit(id).amount
  {
    hide TryFee, Ledger.TransferFrom;
    if TryRequestSubscription(h, c, amount).Some? {
      assert Init(TryRequestSubscription(h, c, amount).value.log) == h.log;
    }
    if TryAddProof(h, c, id, user, amount).Some? {
      assert Init(TryAddProof(h, c, id, user, amount).value.log) == h.log;
    }
  }

  // ---------------------------------------------------------------- claimMint

  /** RWA that the log says the hub minted to an account. */
  function MintedTo(a: Address): Entry -> nat {
    (e: Entry) => if e.event.MintCompleted? && e.event.user == a then e.event.rwaOwed else 0
  }

  /** The event a claim of `id` emits on the records of h. */
  predicate DescribesClaim(h: Hub, c: Ctx, id: Id, e: Entry) {
    var d := h.book.Deposit(id);
    && e.time == c.now
    && e.event.MintCompleted?
    && e.event.id == id && e.event.user == d.user && e.event.deposited == d.amount && e.event.priceId == d.priceId
    && e.event.price == c.Price(h.params.pricer, d.priceId)
    && TryMintAmount(d.amount, e.event.price, h.cfg.multiplier) == Some(e.event.rwaOwed)
  }

  lemma ClaimOneMints(h: Hub, c: Ctx, id: Id)
    requires TryClaimOne(h, c, id).Some?
    ensures var next := TryClaimOne(h, c, id).value;
            && |next.log| == |h.log| + 1 && next.log[..|h.log|] == h.log
            && DescribesClaim(h, c, id, next.log[|h.log|])
            && (forall a :: next.rwa.Bal(a) == h.rwa.Bal(a) + MintedTo(a)(next.log[|h.log|]))
            && next.rwa.supply == h.rwa.supply + HubMinted(next.log[|h.log|])
            && next.book.redemptions == h.book.redemptions
            && (forall i: Id | i != id ::
                  next.book.Deposit(i) == h.book.Deposit(i) && next.book.Claimable(i) == h.book.Claimable(i))
            && next.book.Deposit(id) == NO_DEPOSITOR && next.book.Claimable(id) == 0
            && 0 < h.book.Claimable(id) <= c.now
            && next.cfg == h.cfg && next.params == h.params
  {
    hide TryMintAmount, Gate.HookPasses;
  }

  /** A successful run of the claims emits one event per id, in order, each describing the record as it stood
      before the batch; every account's RWA balance grows by exactly what those events say; and the
      claimed records and their timestamps are gone. */
  lemma {:induction false} ClaimEachPaysRecords(h: Hub, c: Ctx, ids: seq<Id>)
    requires TryClaimEach(h, c, ids).Some?
    ensures var next := TryClaimEach(h, c, ids).value;
            && |next.log| == |h.log| + |ids| && next.log[..|h.log|] == h.log
            && (forall i | 0 <= i < |ids| :: DescribesClaim(h, c, ids[i], next.log[|h.log| + i]))
            && (forall i | 0 <= i < |ids| :: 0 < h.book.Claimable(ids[i]) <= c.now)
            && (forall a :: next.rwa.Bal(a) + Sum(MintedTo(a), h.log) == h.rwa.Bal(a) + Sum(MintedTo(a), next.log))
            && (forall i: Id :: next.book.Deposit(i) == if i in ids then NO_DEPOSITOR else h.book.Deposit(i))
            && (forall i: Id :: next.book.Claimable(i) == if i in ids then 0 else h.book.Claimable(i))
    decreases |ids|
  {
    hide TryClaimOne, DescribesClaim;
    if ids == [] {
    } else {
      var mid, last := TryClaimOne(h, c, ids[0]).value, TryClaimEach(h, c, ids).value;
      ClaimOneMints(h, c, ids[0]);
      ClaimEachPaysRecords(mid, c, ids[1..]);
      assert last.log[..|h.log|] == last.log[..|mid.log|][..|h.log|];
      assert last.log[|h.log|] == last.log[..|mid.log|][|h.log|];
      forall i | 1 <= i < |ids|
        ensures DescribesClaim(h, c, ids[i], last.log[|h.log| + i]) && 0 < h.book.Claimable(ids[i]) <= c.now
      {
        assert ids[i] == ids[1..][i - 1];
        OtherClaimsUnaffected(h, mid, c, ids[i], last.log[|mid.log| + (i - 1)]);
      }
      forall a ensures last.rwa.Bal(a) + Sum(MintedTo(a), h.log) == h.rwa.Bal(a) + Sum(MintedTo(a), last.log) {
        assert mid.log == h.log + [mid.log[|h.log|]];
        SumSnoc(MintedTo(a), h.log, mid.log[|h.log|]);
      }
    }
  }

  lemma OtherClaimsUnaffected(h: Hub, mid: Hub, c: Ctx, id: Id, e: Entry)
    requires DescribesClaim(mid, c, id, e) && mid.cfg == h.cfg && mid.params == h.params
    requires mid.book.Deposit(id) == h.book.Deposit(id)
    ensures DescribesClaim(h, c, id, e)
  {}

  /** Everything a claim of `id` asks for except room in the supply. */
  predicate ClaimReady(h: Hub, c: Ctx, id: Id) {
    var d := h.book.Deposit(id);
    && 0 < h.book.Claimable(id) <= c.now
    && d.priceId != 0 && c.HasPricer(h.params.pricer)
    && TryMintAmount(d.amount, c.Price(h.params.pricer, d.priceId), h.cfg.multiplier).Some?
    && c.hubMayMint
    && d.user != 0 && c.gate.HookPasses(h.cfg.self, 0, d.user)
  }

  function Owed(h: Hub, c: Ctx, id: Id): nat {
    var d := h.book.Deposit(id);
    var owed := TryMintAmount(d.amount, c.Price(h.params.pricer, d.priceId), h.cfg.multiplier);
    if owed.Some? then owed.value else 0
  }

  function TotalOwed(h: Hub, c: Ctx, ids: seq<Id>): nat {
    if ids == [] then 0 else Owed(h, c, ids[0]) + TotalOwed(h, c, ids[1..])
  }

  lemma ClaimOneSucceedsExactly(h: Hub, c: Ctx, id: Id)
    requires Balanced(h.rwa)
    ensures TryClaimOne(h, c, id).Some? <==> ClaimReady(h, c, id) && h.rwa.supply + Owed(h, c, id) < TWO_256
    ensures TryClaimOne(h, c, id).Some? ==>
              && Balanced(TryClaimOne(h, c, id).value.rwa)
              && TryClaimOne(h, c, id).value.rwa.supply == h.rwa.supply + Owed(h, c, id)
  {
    hide TryMintAmount, Gate.HookPasses, Balanced;
    var d := h.book.Deposit(id);
    BalanceWithinSupply(h.rwa, d.user);
    if TryClaimOne(h, c, id).Some? {
      MintKeepsBalanced(h.rwa, c.gate, h.cfg.self, d.user, Owed(h, c, id));
    }
  }

  lemma {:induction false} OwedUnaffected(h: Hub, next: Hub, c: Ctx, ids: seq<Id>)
    requires next.cfg == h.cfg && next.params == h.params
    requires forall i | 0 <= i < |ids| :: next.book.Deposit(ids[i]) == h.book.Deposit(ids[i])
    ensures TotalOwed(next, c, ids) == TotalOwed(h, c, ids)
  {
    hide TryMintAmount;
    if ids == [] {
    } else {
      assert forall i | 0 <= i < |ids[1..]| :: ids[1..][i] == ids[i + 1];
      OwedUnaffected(h, next, c, ids[1..]);
    }
  }

  lemma {:induction false} ClaimEachSucceedsExactly(h: Hub, c: Ctx, ids: seq<Id>)
    requires Balanced(h.rwa)
    ensures TryClaimEach(h, c, ids).Some? <==>
            && Settlement.Distinct(ids)
            && (forall i | 0 <= i < |ids| :: ClaimReady(h, c, ids[i]))
            && h.rwa.supply + TotalOwed(h, c, ids) < TWO_256
    decreases |ids|
  {
    hide TryClaimOne, TryMintAmount, Gate.HookPasses, Balanced, Owed;
    if ids == [] {
    } else {
      ClaimOneSucceedsExactly(h, c, ids[0]);
      if TryClaimOne(h, c, ids[0]).Some? {
        var next, rest := TryClaimOne(h, c, ids[0]).value, ids[1..];
        ClaimOneMints(h, c, ids[0]);
        ClaimEachSucceedsExactly(next, c, rest);
        assert forall i | 1 <= i < |ids| :: ids[i] == rest[i - 1];
        assert forall i | 0 <= i < |rest| :: rest[i] == ids[i + 1];
        if ids[0] !in rest {
          OwedUnaffected(h, next, c, rest);
        } else {
          var k :| 0 <= k < |rest| && rest[k] == ids[0];
          assert !ClaimReady(next, c, rest[k]) && ids[k + 1] == ids[0];
        }
      } else if ClaimReady(h, c, ids[0]) {
        assert TotalOwed(h, c, ids) >= Owed(h, c, ids[0]);
      }
    }
  }

  /** claimMint succeeds exactly for distinct ids each of which is ready, unless paused, if the supply has room. */
  lemma ClaimMintSucceedsExactly(h: Hub, c: Ctx, ids: seq<Id>)
    requires Balanced(h.rwa)
    ensures Hubs.TryStep(h, Call(c, ClaimMint(ids))).Some? <==>
            && !h.params.subscriptionPaused
            && Settlement.Distinct(ids)
            && (forall i | 0 <= i < |ids| :: ClaimReady(h, c, ids[i]))
            && h.rwa.supply + TotalOwed(h, c, ids) < TWO_256
  {
    ClaimEachSucceedsExactly(h, c, ids);
  }

  // ---------------------------------------------------------------- timestamps

  /** The loop of setClaimableTimestamp sets exactly the listed ids and emits one event each. */
  lemma {:induction false} TimestampsAreSet(h: Hub, c: Ctx, timestamp: uint256, ids: seq<Id>)
    ensures var next := SetTimestamps(h, c, timestamp, ids);
            && next == h.(book := h.book.(claimable := next.book.claimable), log := next.log)
            && (forall id: Id :: next.book.Claimable(id) == if id in ids then timestamp else h.book.Claimable(id))
            && next.log == h.log + seq(|ids|, i requires 0 <= i < |ids| =>
                                         Entry(c.now, ClaimableTimestampSet(timestamp, ids[i])))
    decreases |ids|
  {
    if ids == [] {
    } else {
      TimestampsAreSet(Record(h, c, ClaimableTimestampSet(timestamp, ids[0])), c, timestamp, ids[1..]);
    }
  }

  // ---------------------------------------------------------------- guards

  /** Calls that need a role fail without it. */
  predicate NeedsRole(op: Hubs.Op) {
    op.AddProof? || op.SetClaimableTimestamp? || op.SetPriceIdForDeposits? || op.SetPriceIdForRedemptions?
    || op.OverwriteDepositor? || op.OverwriteRedeemer? || op.Set? || (op.Usdy? && (op.call.AdminBurn? || op.call.Mint?))
  }

  /** The call is switched off. */
  predicate Paused(p: Params, op: Hubs.Op) {
    || (p.subscriptionPaused && (op.RequestSubscription? || op.ClaimMint?))
    || (p.redemptionPaused && (op.RequestRedemption? || op.ClaimRedemption?))
    || (p.offChainRedemptionPaused && op.RequestRedemptionServicedOffchain?)
  }

  /** The user whom the call would credit or charge is blocked or sanctioned. */
  predicate Restricted(c: Ctx, op: Hubs.Op) {
    || (op.RequestSubscription? && (c.sender in c.blocked || c.sender in c.sanctioned))
    || ((op.AddProof? || op.OverwriteDepositor? || op.OverwriteRedeemer?) &&
        (op.user in c.blocked || op.user in c.sanctioned))
  }

  /** Paused, restricted and role-less calls revert. */
  lemma GuardedCallsRevert(h: Hub, call: Call)
    requires Paused(h.params, call.op) || Restricted(call.ctx, call.op) || (NeedsRole(call.op) && !call.ctx.hasRole)
    ensures Hubs.TryStep(h, call).None?
  {}
}
