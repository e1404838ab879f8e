/** Batch settlement of redemptions: what claimRedemption pays, and that a batch is nothing but
    its records settled one by one (contracts/RWAHub.sol, claimRedemption). */
module Settlement {
  import opened Words
  import opened Rounding
  import opened HubMath
  import opened Books
  import opened Tokens
  import opened Hubs

  // ---------------------------------------------------------------- lists of payouts

  datatype Payout = Payout(to: Address, amount: uint256)

  /** transferFrom, one after the other, all out of `from`. */
  function PayAll(l: Ledger, spender: Address, from: Address, ts: seq<Payout>): Option<Ledger>
    decreases |ts|
  {
    if ts == [] then Some(l)
    else
      var next :- l.TransferFrom(spender, from, ts[0].to, ts[0].amount);
      PayAll(next, spender, from, ts[1..])
  }

  function Total(ts: seq<Payout>): nat {
    if ts == [] then 0 else ts[0].amount + Total(ts[1..])
  }

  function PaidTo(ts: seq<Payout>, a: Address): nat {
    if ts == [] then 0 else (if ts[0].to == a then ts[0].amount else 0) + PaidTo(ts[1..], a)
  }

  /** Each payment is within what the ones before it left; paying oneself takes nothing away. */
  predicate Covered(balance: nat, from: Address, ts: seq<Payout>) {
    ts != [] ==>
      && ts[0].amount <= balance
      && Covered(balance - if ts[0].to == from then 0 else ts[0].amount, from, ts[1..])
  }

  predicate NoZeroPayee(ts: seq<Payout>) {
    ts != [] ==> ts[0].to != 0 && NoZeroPayee(ts[1..])
  }

  ghost predicate Affordable(l: Ledger, spender: Address, from: Address, ts: seq<Payout>) {
    && (ts != [] ==> from != 0)
    && NoZeroPayee(ts)
    && Covered(l.Bal(from), from, ts)
    && (l.Allowance(from, spender) == MAX_UINT256 || Total(ts) <= l.Allowance(from, spender))
    && forall a: Address | a != from :: l.Bal(a) + PaidTo(ts, a) < TWO_256
  }

  lemma TransferExact(l: Ledger, spender: Address, from: Address, to: Address, amount: uint256)
    ensures var r := l.TransferFrom(spender, from, to, amount);
            && (r.Some? <==> && from != 0 && to != 0
                             && amount <= l.Bal(from)
                             && (l.Allowance(from, spender) == MAX_UINT256 || amount <= l.Allowance(from, spender))
                             && (to != from ==> l.Bal(to) + amount < TWO_256))
            && (r.Some? ==>
                  && r.value.supply == l.supply
                  && (forall a :: r.value.Bal(a) == l.Bal(a) - (if a == from then amount else 0)
                                                    + if a == to then amount else 0)
                  && (forall o, s :: r.value.Allowance(o, s) ==
                        if o == from && s == spender && l.Allowance(o, s) != MAX_UINT256 then l.Allowance(o, s) - amount
                        else l.Allowance(o, s)))
  {}

  /** A list of payments goes through exactly when it can be afforded, and then every balance, the
      payer's included, moves by exactly its share. */
  lemma {:induction false} PayAllExact(l: Ledger, spender: Address, from: Address, ts: seq<Payout>)
    ensures var r := PayAll(l, spender, from, ts);
            && (r.Some? <==> Affordable(l, spender, from, ts))
            && (r.Some? ==>
                  && r.value.supply == l.supply
                  && (forall a :: r.value.Bal(a) == l.Bal(a) - (if a == from then Total(ts) else 0) + PaidTo(ts, a))
                  && (forall o, s :: r.value.Allowance(o, s) ==
                        if o == from && s == spender && l.Allowance(o, s) != MAX_UINT256
                        then l.Allowance(o, s) - Total(ts)
                        else l.Allowance(o, s)))
    decreases |ts|
  {
    hide Ledger.TransferFrom, Ledger.Bal, Ledger.Allowance;
    if ts == [] {
    } else {
      var t := ts[0];
      TransferExact(l, spender, from, t.to, t.amount);
      if Affordable(l, spender, from, ts) {
        FirstIsAffordable(l, spender, from, ts);
      }
      var first := l.TransferFrom(spender, from, t.to, t.amount);
      if first.Some? {
        PayAllExact(first.value, spender, from, ts[1..]);
        AffordableStep(l, first.value, spender, from, ts);
      }
    }
  }

  lemma FirstIsAffordable(l: Ledger, spender: Address, from: Address, ts: seq<Payout>)
    requires ts != [] && Affordable(l, spender, from, ts)
    ensures l.TransferFrom(spender, from, ts[0].to, ts[0].amount).Some?
  {
    hide Ledger.TransferFrom, Ledger.Bal, Ledger.Allowance;
    var t := ts[0];
    TransferExact(l, spender, from, t.to, t.amount);
    assert PaidTo(ts, t.to) >= t.amount;
    assert t.to != from ==> l.Bal(t.to) + PaidTo(ts, t.to) < TWO_256;
  }

  lemma AffordableStep(l: Ledger, next: Ledger, spender: Address, from: Address, ts: seq<Payout>)
    requires ts != []
    requires l.TransferFrom(spender, from, ts[0].to, ts[0].amount) == Some(next)
    ensures Affordable(l, spender, from, ts) <==> Affordable(next, spender, from, ts[1..])
  {
    hide Ledger.TransferFrom, Ledger.Bal, Ledger.Allowance;
    TransferExact(l, spender, from, ts[0].to, ts[0].amount);
    assert forall a: Address | a != from :: l.Bal(a) + PaidTo(ts, a) == next.Bal(a) + PaidTo(ts[1..], a);
  }

  /** The least balance that covers a list. */
  function Needed(from: Address, ts: seq<Payout>): nat {
    if ts == [] then 0
    else
      var first, rest := ts[0].amount, Needed(from, ts[1..]);
      Max(first, rest + if ts[0].to == from then 0 else first)
  }

  lemma {:induction false} CoveredExactly(balance: nat, from: Address, ts: seq<Payout>)
    ensures Covered(balance, from, ts) <==> Needed(from, ts) <= balance
  {
    if ts == [] {
    } else if ts[0].amount <= balance {
      CoveredExactly(balance - if ts[0].to == from then 0 else ts[0].amount, from, ts[1..]);
    }
  }

  /** A balance of the whole total covers any list, and nothing less covers one that pays only others. */
  lemma {:induction false} CoveredByTotal(balance: nat, from: Address, ts: seq<Payout>)
    ensures Total(ts) <= balance ==> Covered(balance, from, ts)
    ensures PaidTo(ts, from) == 0 && Covered(balance, from, ts) ==> Total(ts) <= balance
  {
    if ts == [] {
    } else if ts[0].amount <= balance {
      CoveredByTotal(balance - if ts[0].to == from then 0 else ts[0].amount, from, ts[1..]);
    }
  }

  lemma {:induction false} PayAllConcat(l: Ledger, spender: Address, from: Address, ts: seq<Payout>, us: seq<Payout>)
    ensures PayAll(l, spender, from, ts + us) ==
            match PayAll(l, spender, from, ts)
            case Some(next) => PayAll(next, spender, from, us)
            case None => None
    decreases |ts|
  {
    if ts == [] {
      assert ts + us == us;
    } else {
      assert (ts + us)[1..] == ts[1..] + us;
      var first := l.TransferFrom(spender, from, ts[0].to, ts[0].amount);
      if first.Some? { PayAllConcat(first.value, spender, from, ts[1..], us); }
    }
  }

  lemma {:induction false} ConcatTotals(ts: seq<Payout>, us: seq<Payout>)
    ensures Total(ts + us) == Total(ts) + Total(us)
    ensures forall a :: PaidTo(ts + us, a) == PaidTo(ts, a) + PaidTo(us, a)
  {
    if ts == [] {
      assert ts + us == us;
    } else {
      assert (ts + us)[1..] == ts[1..] + us;
      ConcatTotals(ts[1..], us);
    }
  }

  // ---------------------------------------------------------------- what a batch pays

  /** The record of a settled redemption, without the money. */
  function MarkSettled(h: Hub, c: Ctx, id: Id): Hub
    requires TryQuote(h, c, id).Some?
  {
    var p, r := TryQuote(h, c, id).value, h.book.Redemption(id);
    var price := c.Price(h.params.pricer, r.priceId);
    Record(h, c, RedemptionCompleted(p.user, id, r.amount, p.due, p.fee, price, r.priceId))
  }

  /** The payments for the ids in turn, each quoted on the records the earlier ones left. */
  function TryQuotes(h: Hub, c: Ctx, ids: seq<Id>): (qs: Option<seq<Payment>>)
    ensures qs.Some? ==> |qs.value| == |ids| && forall i | 0 <= i < |ids| :: qs.value[i].fee <= qs.value[i].due
    decreases |ids|
  {
    if ids == [] then Some([])
    else
      var p :- TryQuote(h, c, ids[0]);
      var rest :- TryQuotes(MarkSettled(h, c, ids[0]), c, ids[1..]);
      Some([p] + rest)
  }

  /** The records after settling the ids in turn. */
  function MarkAll(h: Hub, c: Ctx, ids: seq<Id>): Hub
    requires TryQuotes(h, c, ids).Some?
    decreases |ids|
  {
    if ids == [] then h else MarkAll(MarkSettled(h, c, ids[0]), c, ids[1..])
  }

  function NetPayout(p: Payment): Payout
    requires p.fee <= p.due
  {
    Payout(p.user, p.due - p.fee)
  }

  function FeePayout(recipient: Address, fees: uint256): seq<Payout> {
    if fees > 0 then [Payout(recipient, fees)] else []
  }

  predicate Sound(qs: seq<Payment>) { forall i | 0 <= i < |qs| :: qs[i].fee <= qs[i].due }

  function Nets(qs: seq<Payment>): (ts: seq<Payout>)
    requires Sound(qs)
    ensures |ts| == |qs| && forall i | 0 <= i < |qs| :: ts[i] == NetPayout(qs[i])
  {
    if qs == [] then [] else [NetPayout(qs[0])] + Nets(qs[1..])
  }

  function Separately(qs: seq<Payment>, recipient: Address): seq<Payout>
    requires Sound(qs)
  {
    if qs == [] then []
    else [NetPayout(qs[0])] + FeePayout(recipient, qs[0].fee) + Separately(qs[1..], recipient)
  }

  function TotalDue(qs: seq<Payment>): nat {
    if qs == [] then 0 else qs[0].due + TotalDue(qs[1..])
  }

  function TotalFee(qs: seq<Payment>): nat {
    if qs == [] then 0 else qs[0].fee + TotalFee(qs[1..])
  }

  /** What a user's own records in the batch are worth after fees. */
  function NetTo(qs: seq<Payment>, a: Address): nat {
    if qs == [] then 0 else (if qs[0].user == a then qs[0].Net() else 0) + NetTo(qs[1..], a)
  }

  lemma {:induction false} NetsTotals(qs: seq<Payment>)
    requires Sound(qs)
    ensures Total(Nets(qs)) + TotalFee(qs) == TotalDue(qs)
    ensures forall a :: PaidTo(Nets(qs), a) == NetTo(qs, a)
  {
    if qs == [] {
    } else {
      NetsTotals(qs[1..]);
    }
  }

  lemma {:induction false} SeparatelyTotals(qs: seq<Payment>, recipient: Address)
    requires Sound(qs)
    ensures Total(Separately(qs, recipient)) == TotalDue(qs)
    ensures forall a ::
              PaidTo(Separately(qs, recipient), a) == NetTo(qs, a) + if a == recipient then TotalFee(qs) else 0
  {
    if qs == [] {
    } else {
      SeparatelyTotals(qs[1..], recipient);
      var first := [NetPayout(qs[0])] + FeePayout(recipient, qs[0].fee);
      ConcatTotals(first, Separately(qs[1..], recipient));
      ConcatTotals([NetPayout(qs[0])], FeePayout(recipient, qs[0].fee));
    }
  }

  /** Quotes, records, and one list of payments. */
  function Outcome(h: Hub, c: Ctx, ids: seq<Id>, fees: uint256): Option<Hub> {
    var qs :- TryQuotes(h, c, ids);
    if fees + TotalFee(qs) >= TWO_256 then None
    else
      var l :- PayAll(h.collateral, h.cfg.self, h.params.assetSender,
                      Nets(qs) + FeePayout(h.params.feeRecipient, fees + TotalFee(qs)));
      Some(MarkAll(h, c, ids).(collateral := l))
  }

  lemma OutcomeStep(h: Hub, c: Ctx, ids: seq<Id>, fees: uint256)
    requires ids != [] && TryQuote(h, c, ids[0]).Some?
    ensures var p := TryQuote(h, c, ids[0]).value;
            p.fee <= p.due
            && var paid := h.collateral.TransferFrom(h.cfg.self, h.params.assetSender, p.user, p.due - p.fee);
               Outcome(h, c, ids, fees) ==
               if fees + p.fee >= TWO_256 || paid.None? then None
               else Outcome(MarkSettled(h, c, ids[0]).(collateral := paid.value), c, ids[1..], fees + p.fee)
  {
    hide TryQuote, Ledger.TransferFrom, PayAll, Nets, FeePayout;
    QuoteIsSound(h, c, ids[0]);
    var p, marked := TryQuote(h, c, ids[0]).value, MarkSettled(h, c, ids[0]);
    var paid := h.collateral.TransferFrom(h.cfg.self, h.params.assetSender, p.user, p.due - p.fee);
    if paid.Some? {
      MoneyDoesNotMatter(marked, paid.value, c, ids[1..]);
    }
    if TryQuotes(marked, c, ids[1..]).Some? {
      var rest := TryQuotes(marked, c, ids[1..]).value;
      QuotesStep(p, rest);
      if fees + p.fee + TotalFee(rest) < TWO_256 {
        var tail := FeePayout(h.params.feeRecipient, fees + p.fee + TotalFee(rest));
        PayFirst(h.collateral, h.cfg.self, h.params.assetSender, p, rest, tail);
      }
    }
  }

  lemma QuotesStep(p: Payment, rest: seq<Payment>)
    ensures TotalFee([p] + rest) == p.fee + TotalFee(rest)
  {
    assert ([p] + rest)[1..] == rest;
  }

  lemma PayFirst(l: Ledger, spender: Address, from: Address, p: Payment, rest: seq<Payment>, tail: seq<Payout>)
    requires p.fee <= p.due && Sound(rest)
    ensures Sound([p] + rest)
    ensures PayAll(l, spender, from, Nets([p] + rest) + tail) ==
            match l.TransferFrom(spender, from, p.user, p.due - p.fee)
            case Some(next) => PayAll(next, spender, from, Nets(rest) + tail)
            case None => None
  {
    hide Ledger.TransferFrom;
    var qs := [p] + rest;
    assert qs[1..] == rest;
    assert Nets(qs) + tail == [NetPayout(p)] + (Nets(rest) + tail);
    assert (Nets(qs) + tail)[1..] == Nets(rest) + tail;
  }

  lemma {:induction false} SettleEachPays(h: Hub, c: Ctx, ids: seq<Id>, fees: uint256)
    ensures TrySettleEach(h, c, ids, fees) == Outcome(h, c, ids, fees)
    decreases |ids|
  {
    hide TryQuote, TrySettleOne, MarkSettled, Ledger.TransferFrom;
    if ids == [] {
      SettleNothingPays(h, c, fees);
    } else {
      hide Outcome;
      if TryQuote(h, c, ids[0]).Some? {
        var p := TryQuote(h, c, ids[0]).value;
        OutcomeStep(h, c, ids, fees);
        SettleOnePays(h, c, ids[0]);
        var paid := h.collateral.TransferFrom(h.cfg.self, h.params.assetSender, p.user, p.due - p.fee);
        if fees + p.fee < TWO_256 && paid.Some? {
          SettleEachPays(MarkSettled(h, c, ids[0]).(collateral := paid.value), c, ids[1..], fees + p.fee);
        }
      } else {
        UnquotedHasNoOutcome(h, c, ids, fees);
      }
    }
  }

  lemma SettleNothingPays(h: Hub, c: Ctx, fees: uint256)
    ensures TrySettleEach(h, c, [], fees) == Outcome(h, c, [], fees)
  {
    var ts := FeePayout(h.params.feeRecipient, fees);
    assert Nets([]) + ts == ts;
    if fees > 0 {
      assert ts[1..] == [];
      var l := h.collateral.TransferFrom(h.cfg.self, h.params.assetSender, ts[0].to, ts[0].amount);
      assert l.Some? ==> PayAll(l.value, h.cfg.self, h.params.assetSender, []) == l;
    }
  }

  lemma UnquotedHasNoOutcome(h: Hub, c: Ctx, ids: seq<Id>, fees: uint256)
    requires ids != [] && TryQuote(h, c, ids[0]).None?
    ensures Outcome(h, c, ids, fees).None?
  {}

  lemma QuoteIsSound(h: Hub, c: Ctx, id: Id)
    requires TryQuote(h, c, id).Some?
    ensures TryQuote(h, c, id).value.fee <= TryQuote(h, c, id).value.due
  {}

  lemma SettleOnePays(h: Hub, c: Ctx, id: Id)
    requires TryQuote(h, c, id).Some?
    ensures var p := TryQuote(h, c, id).value;
            TrySettleOne(h, c, id) ==
            match h.collateral.TransferFrom(h.cfg.self, h.params.assetSender, p.user, p.due - p.fee)
            case Some(l) => Some(MarkSettled(h, c, id).(collateral := l))
            case None => None
  {
    hide TryQuote, Ledger.TransferFrom;
    QuoteIsSound(h, c, id);
  }

  /** Quotes and records do not depend on the collateral ledger. */
  lemma {:induction false} MoneyDoesNotMatter(h: Hub, l: Ledger, c: Ctx, ids: seq<Id>)
    ensures TryQuotes(h.(collateral := l), c, ids) == TryQuotes(h, c, ids)
    ensures TryQuotes(h, c, ids).Some? ==> MarkAll(h.(collateral := l), c, ids) == MarkAll(h, c, ids).(collateral := l)
    decreases |ids|
  {
    if ids == [] {
    } else if TryQuote(h, c, ids[0]).Some? {
      var marked := MarkSettled(h, c, ids[0]);
      assert MarkSettled(h.(collateral := l), c, ids[0]) == marked.(collateral := l);
      MoneyDoesNotMatter(marked, l, c, ids[1..]);
    }
  }

  /** claimRedemption called once per id. */
  function TryClaimSeparately(h: Hub, c: Ctx, ids: seq<Id>): Option<Hub>
    decreases |ids|
  {
    if ids == [] then Some(h)
    else
      var next :- TryClaimRedemption(h, c, [ids[0]]);
      TryClaimSeparately(next, c, ids[1..])
  }

  lemma ClaimOnePays(h: Hub, c: Ctx, id: Id)
    requires !h.params.redemptionPaused
    ensures TryQuote(h, c, id).None? ==> TryClaimRedemption(h, c, [id]).None?
    ensures TryQuote(h, c, id).Some? ==>
              var p := TryQuote(h, c, id).value;
              p.fee <= p.due &&
              TryClaimRedemption(h, c, [id]) ==
              match PayAll(h.collateral, h.cfg.self, h.params.assetSender,
                           [NetPayout(p)] + FeePayout(h.params.feeRecipient, p.fee))
              case Some(l) => Some(MarkSettled(h, c, id).(collateral := l))
              case None => None
  {
    hide TryQuote, PayAll;
    SettleEachPays(h, c, [id], 0);
    assert [id][1..] == [];
    if TryQuote(h, c, id).Some? {
      var p := TryQuote(h, c, id).value;
      QuoteIsSound(h, c, id);
      assert TryQuotes(h, c, [id]) == Some([p] + []);
      assert [p] + [] == [p] && [p][1..] == [];
      assert Nets([p]) == [NetPayout(p)] && TotalFee([p]) == p.fee;
      assert FeePayout(h.params.feeRecipient, 0 + TotalFee([p])) == FeePayout(h.params.feeRecipient, p.fee);
      assert MarkAll(h, c, [id]) == MarkSettled(h, c, id);
    }
  }

  lemma {:induction false} SeparatelyPays(h: Hub, c: Ctx, ids: seq<Id>)
    requires !h.params.redemptionPaused
    ensures var qs := TryQuotes(h, c, ids);
            TryClaimSeparately(h, c, ids) ==
            if qs.None? then None
            else
              match PayAll(h.collateral, h.cfg.self, h.params.assetSender, Separately(qs.value, h.params.feeRecipient))
              case Some(l) => Some(MarkAll(h, c, ids).(collateral := l))
              case None => None
    decreases |ids|
  {
    hide TryQuote, Ledger.TransferFrom, TryClaimRedemption;
    if ids == [] {
    } else {
      ClaimOnePays(h, c, ids[0]);
      if TryQuote(h, c, ids[0]).Some? {
        var p := TryQuote(h, c, ids[0]).value;
        var marked := MarkSettled(h, c, ids[0]);
        var first := [NetPayout(p)] + FeePayout(h.params.feeRecipient, p.fee);
        var paid := PayAll(h.collateral, h.cfg.self, h.params.assetSender, first);
        if paid.Some? {
          SeparatelyPays(marked.(collateral := paid.value), c, ids[1..]);
          MoneyDoesNotMatter(marked, paid.value, c, ids[1..]);
        }
        if TryQuotes(marked, c, ids[1..]).Some? {
          var rest := TryQuotes(marked, c, ids[1..]).value;
          assert ([p] + rest)[1..] == rest;
          PayAllConcat(h.collateral, h.cfg.self, h.params.assetSender, first, Separately(rest, h.params.feeRecipient));
        }
      }
    }
  }

  /** One list for the whole batch: the net amounts, then all fees at once. */
  function BatchPayouts(qs: seq<Payment>, recipient: Address): seq<Payout>
    requires Sound(qs) && TotalFee(qs) < TWO_256
  {
    Nets(qs) + FeePayout(recipient, TotalFee(qs))
  }

  ghost predicate SameMoney(l: Ledger, m: Ledger) {
    && l.supply == m.supply
    && (forall a :: l.Bal(a) == m.Bal(a))
    && (forall o, s :: l.Allowance(o, s) == m.Allowance(o, s))
  }

  lemma FeePayoutTotals(recipient: Address, fees: uint256)
    ensures Total(FeePayout(recipient, fees)) == fees
    ensures forall a :: PaidTo(FeePayout(recipient, fees), a) == if a == recipient then fees else 0
    ensures NoZeroPayee(FeePayout(recipient, fees)) <==> (fees > 0 ==> recipient != 0)
  {}

  lemma {:induction false} NoZeroPayeeConcat(ts: seq<Payout>, us: seq<Payout>)
    ensures NoZeroPayee(ts + us) <==> NoZeroPayee(ts) && NoZeroPayee(us)
  {
    if ts == [] {
      assert ts + us == us;
    } else {
      assert (ts + us)[1..] == ts[1..] + us;
      NoZeroPayeeConcat(ts[1..], us);
    }
  }

  lemma {:induction false} SeparatelyZeroPayees(qs: seq<Payment>, recipient: Address)
    requires Sound(qs)
    ensures NoZeroPayee(Separately(qs, recipient)) <==>
            NoZeroPayee(Nets(qs)) && (TotalFee(qs) > 0 ==> recipient != 0)
  {
    if qs == [] {
    } else {
      SeparatelyZeroPayees(qs[1..], recipient);
      var first := [NetPayout(qs[0])] + FeePayout(recipient, qs[0].fee);
      NoZeroPayeeConcat(first, Separately(qs[1..], recipient));
      NoZeroPayeeConcat([NetPayout(qs[0])], FeePayout(recipient, qs[0].fee));
      FeePayoutTotals(recipient, qs[0].fee);
      assert [NetPayout(qs[0])][1..] == [];
    }
  }

  /** The single list of a batch and the lists of its records pay everyone the same. */
  lemma SamePayouts(qs: seq<Payment>, recipient: Address)
    requires Sound(qs) && TotalFee(qs) < TWO_256
    ensures var batch, alone := BatchPayouts(qs, recipient), Separately(qs, recipient);
            && Total(batch) == TotalDue(qs) == Total(alone)
            && (forall a :: PaidTo(batch, a) == NetTo(qs, a) + if a == recipient then TotalFee(qs) else 0)
            && (forall a :: PaidTo(alone, a) == PaidTo(batch, a))
            && (NoZeroPayee(batch) <==> NoZeroPayee(alone))
            && (batch == [] <==> qs == []) && (alone == [] <==> qs == [])
  {
    var fee := FeePayout(recipient, TotalFee(qs));
    NetsTotals(qs);
    SeparatelyTotals(qs, recipient);
    ConcatTotals(Nets(qs), fee);
    FeePayoutTotals(recipient, TotalFee(qs));
    NoZeroPayeeConcat(Nets(qs), fee);
    SeparatelyZeroPayees(qs, recipient);
  }

  lemma {:induction false} FeesWithinDue(qs: seq<Payment>)
    requires Sound(qs)
    ensures TotalFee(qs) <= TotalDue(qs)
  {
    if qs == [] {
    } else {
      FeesWithinDue(qs[1..]);
    }
  }

  lemma {:induction false} SeparateFeesFit(balance: nat, from: Address, qs: seq<Payment>, recipient: Address)
    requires Sound(qs) && recipient != from && Covered(balance, from, Separately(qs, recipient))
    ensures TotalFee(qs) <= balance
  {
    if qs == [] {
    } else {
      var p := qs[0];
      var rest := Separately(qs[1..], recipient);
      var left: nat := balance - if p.user == from then 0 else p.due - p.fee;
      assert Separately(qs, recipient)[1..] == FeePayout(recipient, p.fee) + rest;
      assert Covered(left, from, FeePayout(recipient, p.fee) + rest);
      if p.fee > 0 {
        assert (FeePayout(recipient, p.fee) + rest)[1..] == rest;
      } else {
        assert FeePayout(recipient, p.fee) + rest == rest;
      }
      SeparateFeesFit(left - p.fee, from, qs[1..], recipient);
    }
  }

  lemma CoveredFirst(balance: nat, from: Address, first: Payout, rest: seq<Payout>)
    ensures Covered(balance, from, [first] + rest) <==>
            first.amount <= balance && Covered(balance - if first.to == from then 0 else first.amount, from, rest)
  {
    assert ([first] + rest)[1..] == rest;
  }

  // ---------------------------------------------------------------- which batches succeed

  predicate Distinct(ids: seq<Id>) {
    forall i, j | 0 <= i < j < |ids| :: ids[i] != ids[j]
  }

  /** Every id has a price id, an unrestricted user and computable amounts. */
  predicate AllQuoted(h: Hub, c: Ctx, ids: seq<Id>) {
    forall i | 0 <= i < |ids| :: TryQuote(h, c, ids[i]).Some?
  }

  /** The quotes of all ids on the records as they stand. */
  function QuotesOf(h: Hub, c: Ctx, ids: seq<Id>): (qs: seq<Payment>)
    requires AllQuoted(h, c, ids)
    ensures |qs| == |ids| && Sound(qs)
  {
    seq(|ids|, i requires 0 <= i < |ids| => TryQuote(h, c, ids[i]).value)
  }

  /** Settling an id uses up its record and touches no other. */
  lemma SettledIsGone(h: Hub, c: Ctx, id: Id, other: Id)
    requires TryQuote(h, c, id).Some?
    ensures TryQuote(MarkSettled(h, c, id), c, other) == if other == id then None else TryQuote(h, c, other)
  {
    var next := MarkSettled(h, c, id);
    assert next.book.Redemption(other) == if other == id then NO_REDEEMER else h.book.Redemption(other);
  }

  /** The loop can quote every id in turn exactly when the ids are distinct and each can be quoted on the
      initial records; and then it uses those quotes. */
  lemma {:induction false} QuotesAreRecords(h: Hub, c: Ctx, ids: seq<Id>)
    ensures TryQuotes(h, c, ids).Some? <==> Distinct(ids) && AllQuoted(h, c, ids)
    ensures TryQuotes(h, c, ids).Some? ==> TryQuotes(h, c, ids).value == QuotesOf(h, c, ids)
    decreases |ids|
  {
    hide TryQuote, MarkSettled;
    if ids == [] {
    } else if TryQuote(h, c, ids[0]).Some? {
      var next, rest := MarkSettled(h, c, ids[0]), ids[1..];
      QuotesAreRecords(next, c, rest);
      forall i | 0 <= i < |rest|
        ensures TryQuote(next, c, rest[i]) == if rest[i] == ids[0] then None else TryQuote(h, c, rest[i])
      {
        SettledIsGone(h, c, ids[0], rest[i]);
      }
      assert forall i | 1 <= i < |ids| :: ids[i] == rest[i - 1];
      if Distinct(ids) && AllQuoted(h, c, ids) {
        assert forall i | 0 <= i < |rest| :: rest[i] == ids[i + 1];
      }
      if TryQuotes(h, c, ids).Some? {
        assert forall i | 1 <= i < |ids| :: ids[i] != ids[0] && TryQuote(h, c, ids[i]) == TryQuote(next, c, ids[i]);
      }
    } else {
      assert !AllQuoted(h, c, ids);
    }
  }

  /** claimRedemption succeeds exactly for distinct ids that can all be quoted and whose payouts can be
      afforded. */
  lemma ClaimRedemptionSucceedsExactly(h: Hub, c: Ctx, ids: seq<Id>)
    ensures TryClaimRedemption(h, c, ids).Some? <==>
            && !h.params.redemptionPaused
            && Distinct(ids)
            && AllQuoted(h, c, ids)
            && TotalFee(QuotesOf(h, c, ids)) < TWO_256
            && Affordable(h.collateral, h.cfg.self, h.params.assetSender,
                          BatchPayouts(QuotesOf(h, c, ids), h.params.feeRecipient))
  {
    hide TryQuotes, TryQuote, TrySettleEach, PayAll, Affordable, QuotesOf, Distinct, AllQuoted;
    SettleEachPays(h, c, ids, 0);
    QuotesAreRecords(h, c, ids);
    if TryQuotes(h, c, ids).Some? && TotalFee(QuotesOf(h, c, ids)) < TWO_256 {
      PayAllExact(h.collateral, h.cfg.self, h.params.assetSender,
                  BatchPayouts(QuotesOf(h, c, ids), h.params.feeRecipient));
    }
  }

  // ---------------------------------------------------------------- batches and separate claims

  /** All that a batch and its separate claims ask for alike, apart from the payer's balance. */
  ghost predicate Payable(h: Hub, qs: seq<Payment>)
    requires Sound(qs)
  {
    var l, payer, recipient := h.collateral, h.params.assetSender, h.params.feeRecipient;
    && (qs != [] ==> payer != 0)
    && NoZeroPayee(Nets(qs)) && (TotalFee(qs) > 0 ==> recipient != 0)
    && (l.Allowance(payer, h.cfg.self) == MAX_UINT256 || TotalDue(qs) <= l.Allowance(payer, h.cfg.self))
    && forall a: Address | a != payer ::
         l.Bal(a) + NetTo(qs, a) + (if a == recipient then TotalFee(qs) else 0) < TWO_256
  }

  /** Of all that a list needs, only the payer's balance depends on the order and the grouping of the fees. */
  lemma AffordableExactly(h: Hub, qs: seq<Payment>)
    requires Sound(qs)
    ensures var l, payer, recipient := h.collateral, h.params.assetSender, h.params.feeRecipient;
            && (Affordable(l, h.cfg.self, payer, Separately(qs, recipient)) <==>
                  Payable(h, qs) && Needed(payer, Separately(qs, recipient)) <= l.Bal(payer))
            && (TotalFee(qs) < TWO_256 ==>
                  (Affordable(l, h.cfg.self, payer, BatchPayouts(qs, recipient)) <==>
                     Payable(h, qs) && Needed(payer, BatchPayouts(qs, recipient)) <= l.Bal(payer)))
  {
    hide Ledger.Bal, Ledger.Allowance, Covered, NoZeroPayee, Needed, Nets;
    var l, payer, recipient := h.collateral, h.params.assetSender, h.params.feeRecipient;
    var alone := Separately(qs, recipient);
    SeparatelyTotals(qs, recipient);
    SeparatelyZeroPayees(qs, recipient);
    CoveredExactly(l.Bal(payer), payer, alone);
    assert forall a: Address :: PaidTo(alone, a) == NetTo(qs, a) + if a == recipient then TotalFee(qs) else 0;
    if TotalFee(qs) < TWO_256 {
      SamePayouts(qs, recipient);
      CoveredExactly(l.Bal(payer), payer, BatchPayouts(qs, recipient));
    }
  }

  /** claimRedemption and one call per id succeed on the same quotes and the same conditions, except that
      each needs its own balance of the payer, and that the batch adds up its fees in one word. */
  lemma BatchAndSeparateSucceedExactly(h: Hub, c: Ctx, ids: seq<Id>)
    requires !h.params.redemptionPaused
    ensures TryClaimRedemption(h, c, ids).Some? <==>
            && Distinct(ids) && AllQuoted(h, c, ids)
            && var qs, payer := QuotesOf(h, c, ids), h.params.assetSender;
               && Payable(h, qs) && TotalFee(qs) < TWO_256
               && Needed(payer, BatchPayouts(qs, h.params.feeRecipient)) <= h.collateral.Bal(payer)
    ensures TryClaimSeparately(h, c, ids).Some? <==>
            && Distinct(ids) && AllQuoted(h, c, ids)
            && var qs, payer := QuotesOf(h, c, ids), h.params.assetSender;
               && Payable(h, qs)
               && Needed(payer, Separately(qs, h.params.feeRecipient)) <= h.collateral.Bal(payer)
  {
    hide TryQuotes, TryQuote, TrySettleEach, TryClaimRedemption, TryClaimSeparately, PayAll, Affordable, QuotesOf;
    hide Distinct, AllQuoted, Needed, Payable, Ledger.Bal;
    ClaimRedemptionSucceedsExactly(h, c, ids);
    SeparatelyPays(h, c, ids);
    QuotesAreRecords(h, c, ids);
    if TryQuotes(h, c, ids).Some? {
      var qs := QuotesOf(h, c, ids);
      AffordableExactly(h, qs);
      PayAllExact(h.collateral, h.cfg.self, h.params.assetSender, Separately(qs, h.params.feeRecipient));
    }
  }

  /** Fees kept back and paid at once to somebody else need no more than fees paid one by one. */
  lemma {:induction false} LateFeesNeedNoMore(b: nat, kept: nat, from: Address, qs: seq<Payment>, recipient: Address)
    requires Sound(qs) && recipient != from && kept + TotalFee(qs) < TWO_256
    requires Covered(b, from, Separately(qs, recipient))
    ensures Covered(b + kept, from, Nets(qs) + FeePayout(recipient, kept + TotalFee(qs)))
  {
    var late := FeePayout(recipient, kept + TotalFee(qs));
    if qs == [] {
      assert Nets(qs) + late == late;
    } else {
      hide Separately, Covered;
      var p := qs[0];
      SeparatelyFirst(b, from, qs, recipient);
      var left: nat := b - if p.user == from then 0 else p.due - p.fee;
      LateFeesNeedNoMore(left - p.fee, kept + p.fee, from, qs[1..], recipient);
      assert Nets(qs) + late == [NetPayout(p)] + (Nets(qs[1..]) + late);
      CoveredFirst(b + kept, from, NetPayout(p), Nets(qs[1..]) + late);
    }
  }

  /** What covers separate claims covers the first of them and then the others. */
  lemma SeparatelyFirst(b: nat, from: Address, qs: seq<Payment>, recipient: Address)
    requires Sound(qs) && qs != []
    ensures var net := qs[0].due - qs[0].fee;
            Covered(b, from, Separately(qs, recipient)) <==>
            && net <= b
            && var left := b - if qs[0].user == from then 0 else net;
               && qs[0].fee <= left
               && Covered(left - if recipient == from then 0 else qs[0].fee, from, Separately(qs[1..], recipient))
  {
    var p, rest := qs[0], Separately(qs[1..], recipient);
    var net := p.due - p.fee;
    assert Separately(qs, recipient) == [NetPayout(p)] + (FeePayout(recipient, p.fee) + rest);
    CoveredFirst(b, from, NetPayout(p), FeePayout(recipient, p.fee) + rest);
    if net <= b {
      var left: nat := b - if p.user == from then 0 else net;
      if p.fee > 0 {
        CoveredFirst(left, from, Payout(recipient, p.fee), rest);
      } else {
        assert FeePayout(recipient, p.fee) + rest == rest;
      }
    }
  }

  /** Covering a list means covering it up to its last payout, and that one out of what is left. */
  lemma {:induction false} CoveredLast(b: nat, from: Address, ts: seq<Payout>, last: Payout)
    ensures PaidTo(ts, from) <= Total(ts)
    ensures Covered(b, from, ts + [last]) <==>
            Covered(b, from, ts) && Total(ts) - PaidTo(ts, from) + last.amount <= b
  {
    if ts == [] {
      assert ts + [last] == [last] && [last][1..] == [];
    } else {
      assert (ts + [last])[1..] == ts[1..] + [last];
      PaidWithinTotal(ts[1..], from);
      if ts[0].amount <= b {
        CoveredLast(b - if ts[0].to == from then 0 else ts[0].amount, from, ts[1..], last);
      }
    }
  }

  lemma {:induction false} PaidWithinTotal(ts: seq<Payout>, a: Address)
    ensures PaidTo(ts, a) <= Total(ts)
  {
    if ts == [] {
    } else {
      PaidWithinTotal(ts[1..], a);
    }
  }

  /** With fees going back to the payer, separate claims need the net amounts alone, and each fee for a
      moment. */
  lemma {:induction false} ReturnedFees(b: nat, from: Address, qs: seq<Payment>)
    requires Sound(qs)
    ensures Covered(b, from, Separately(qs, from)) ==> Covered(b, from, Nets(qs))
    ensures Covered(b, from, Nets(qs)) && Total(Nets(qs)) - PaidTo(Nets(qs), from) + TotalFee(qs) <= b ==>
              Covered(b, from, Separately(qs, from))
  {
    if qs == [] {
    } else {
      var p := qs[0];
      var net := p.due - p.fee;
      SeparatelyFirst(b, from, qs, from);
      assert Nets(qs)[1..] == Nets(qs[1..]);
      PaidWithinTotal(Nets(qs[1..]), from);
      if net <= b {
        ReturnedFees(b - if p.user == from then 0 else net, from, qs[1..]);
      }
    }
  }

  /** Fees that return to the payer at the end must be there at the end. */
  lemma BatchNeedsFeesAtTheEnd(b: nat, from: Address, qs: seq<Payment>)
    requires Sound(qs) && TotalFee(qs) < TWO_256
    ensures Covered(b, from, BatchPayouts(qs, from)) <==>
            Covered(b, from, Separately(qs, from)) && TotalDue(qs) - NetTo(qs, from) <= b
  {
    var nets := Nets(qs);
    NetsTotals(qs);
    assert PaidTo(nets, from) == NetTo(qs, from);
    ReturnedFees(b, from, qs);
    if TotalFee(qs) > 0 {
      CoveredLast(b, from, nets, Payout(from, TotalFee(qs)));
    } else {
      assert BatchPayouts(qs, from) == nets;
      if Covered(b, from, nets) { CoveredSpends(b, from, nets); }
    }
  }

  lemma {:induction false} CoveredSpends(b: nat, from: Address, ts: seq<Payout>)
    requires Covered(b, from, ts)
    ensures Total(ts) - PaidTo(ts, from) <= b
  {
    if ts == [] {
    } else {
      CoveredSpends(b - if ts[0].to == from then 0 else ts[0].amount, from, ts[1..]);
    }
  }

  /** A batch refines its records. Whenever claimRedemption(ids) and claiming the ids one call at a time
      both succeed, they end with the same records, log, balances and allowances. With fees going to
      somebody else, the batch succeeds whenever the separate calls do; with fees going back to the payer,
      the separate calls succeed whenever the batch does. If the payer holds all that is due, or is not
      itself paid, they succeed alike. */
  lemma BatchRefinesSeparateClaims(h: Hub, c: Ctx, ids: seq<Id>)
    requires !h.params.redemptionPaused
    ensures var batch, single := TryClaimRedemption(h, c, ids), TryClaimSeparately(h, c, ids);
            && (batch.Some? && single.Some? ==>
                  && single.value == batch.value.(collateral := single.value.collateral)
                  && SameMoney(batch.value.collateral, single.value.collateral))
            && (h.params.feeRecipient != h.params.assetSender ==> single.Some? ==> batch.Some?)
            && (h.params.feeRecipient == h.params.assetSender ==> batch.Some? ==> single.Some?)
            && (AllQuoted(h, c, ids) ==>
                  var qs, payer := QuotesOf(h, c, ids), h.params.assetSender;
                  || TotalDue(qs) <= h.collateral.Bal(payer)
                  || (h.params.feeRecipient != payer && NetTo(qs, payer) == 0) ==>
                    (batch.Some? <==> single.Some?))
  {
    hide TryQuotes, TryQuote, TrySettleEach, TryClaimRedemption, TryClaimSeparately, PayAll, Affordable, QuotesOf;
    hide Distinct, AllQuoted, Needed, Payable, Covered, Ledger.Bal;
    BatchAndSeparateSucceedExactly(h, c, ids);
    if TryClaimRedemption(h, c, ids).Some? && TryClaimSeparately(h, c, ids).Some? { SameOutcome(h, c, ids); }
    if AllQuoted(h, c, ids) {
      SamePayers(h.collateral.Bal(h.params.assetSender), h.params.assetSender, h.params.feeRecipient,
                 QuotesOf(h, c, ids));
    }
  }

  /** How the balances that the two ways need compare. */
  lemma SamePayers(b: uint256, from: Address, recipient: Address, qs: seq<Payment>)
    requires Sound(qs)
    ensures recipient != from && Needed(from, Separately(qs, recipient)) <= b ==>
              TotalFee(qs) < TWO_256 && Needed(from, BatchPayouts(qs, recipient)) <= b
    ensures recipient == from && TotalFee(qs) < TWO_256 && Needed(from, BatchPayouts(qs, recipient)) <= b ==>
              Needed(from, Separately(qs, recipient)) <= b
    ensures TotalDue(qs) <= b ==>
              && Needed(from, Separately(qs, recipient)) <= b
              && TotalFee(qs) < TWO_256 && Needed(from, BatchPayouts(qs, recipient)) <= b
    ensures recipient != from && NetTo(qs, from) == 0 && TotalFee(qs) < TWO_256
            && Needed(from, BatchPayouts(qs, recipient)) <= b ==>
              Needed(from, Separately(qs, recipient)) <= b
  {
    hide Covered, Needed;
    var alone := Separately(qs, recipient);
    FeesWithinDue(qs);
    SeparatelyTotals(qs, recipient);
    CoveredExactly(b, from, alone);
    CoveredByTotal(b, from, alone);
    if recipient != from && Covered(b, from, alone) {
      SeparateFeesFit(b, from, qs, recipient);
      LateFeesNeedNoMore(b, 0, from, qs, recipient);
    }
    if TotalFee(qs) < TWO_256 {
      SamePayouts(qs, recipient);
      CoveredExactly(b, from, BatchPayouts(qs, recipient));
      CoveredByTotal(b, from, BatchPayouts(qs, recipient));
      BatchNeedsFeesAtTheEnd(b, from, qs);
    }
  }

  lemma SameOutcome(h: Hub, c: Ctx, ids: seq<Id>)
    requires !h.params.redemptionPaused
    requires TryClaimRedemption(h, c, ids).Some? && TryClaimSeparately(h, c, ids).Some?
    ensures var batch, single := TryClaimRedemption(h, c, ids).value, TryClaimSeparately(h, c, ids).value;
            && single == batch.(collateral := single.collateral)
            && SameMoney(batch.collateral, single.collateral)
  {
    hide TryQuotes, TrySettleEach, TryClaimSeparately, PayAll, Ledger.Bal, Ledger.Allowance, MarkAll, Affordable;
    SettleEachPays(h, c, ids, 0);
    SeparatelyPays(h, c, ids);
    var qs := TryQuotes(h, c, ids).value;
    SamePayouts(qs, h.params.feeRecipient);
    PayAllExact(h.collateral, h.cfg.self, h.params.assetSender, Separately(qs, h.params.feeRecipient));
    PayAllExact(h.collateral, h.cfg.self, h.params.assetSender, BatchPayouts(qs, h.params.feeRecipient));
  }

  /** When the fees return to the payer, a batch succeeds exactly when the separate calls do and the payer
      holds all that is due to others, the fees included. */
  lemma BatchWithFeesToPayer(h: Hub, c: Ctx, ids: seq<Id>)
    requires !h.params.redemptionPaused && h.params.feeRecipient == h.params.assetSender
    ensures TryClaimRedemption(h, c, ids).Some? <==>
            && TryClaimSeparately(h, c, ids).Some?
            && AllQuoted(h, c, ids)
            && var qs, payer := QuotesOf(h, c, ids), h.params.assetSender;
               TotalDue(qs) - NetTo(qs, payer) <= h.collateral.Bal(payer)
  {
    hide TryQuotes, TryQuote, TrySettleEach, TryClaimRedemption, TryClaimSeparately, PayAll, Affordable, QuotesOf;
    hide Distinct, AllQuoted, Needed, Payable, Covered, Ledger.Bal, Nets, Separately;
    BatchAndSeparateSucceedExactly(h, c, ids);
    if AllQuoted(h, c, ids) {
      var qs, payer := QuotesOf(h, c, ids), h.params.assetSender;
      var b := h.collateral.Bal(payer);
      FeesWithinOthers(qs, payer);
      CoveredExactly(b, payer, Separately(qs, payer));
      if TotalFee(qs) < TWO_256 {
        CoveredExactly(b, payer, BatchPayouts(qs, payer));
        BatchNeedsFeesAtTheEnd(b, payer, qs);
      }
    }
  }

  lemma FeesWithinOthers(qs: seq<Payment>, a: Address)
    requires Sound(qs)
    ensures TotalFee(qs) <= TotalDue(qs) - NetTo(qs, a)
  {
    NetsTotals(qs);
    PaidWithinTotal(Nets(qs), a);
    assert PaidTo(Nets(qs), a) == NetTo(qs, a);
  }

  lemma TwoPayments(p: Payment, q: Payment, recipient: Address)
    requires 0 < p.fee <= p.due && 0 < q.fee <= q.due && p.fee + q.fee < TWO_256
    ensures Sound([p, q]) && TotalFee([p, q]) == p.fee + q.fee
    ensures BatchPayouts([p, q], recipient) == [NetPayout(p), NetPayout(q), Payout(recipient, p.fee + q.fee)]
    ensures Separately([p, q], recipient) ==
            [NetPayout(p), Payout(recipient, p.fee), NetPayout(q), Payout(recipient, q.fee)]
  {
    assert [p, q][1..] == [q] && [q][1..] == [];
    assert TotalFee([q]) == q.fee;
    assert Separately([q], recipient) == [NetPayout(q)] + [Payout(recipient, q.fee)] + [];
  }

  lemma NeededFirst(from: Address, first: Payout, rest: seq<Payout>)
    ensures Needed(from, [first] + rest) ==
            Max(first.amount, Needed(from, rest) + if first.to == from then 0 else first.amount)
  {
    assert ([first] + rest)[1..] == rest;
  }

  /** What a payout takes away from the payer. */
  function Taken(from: Address, t: Payout): nat { if t.to == from then 0 else t.amount }

  lemma NeededInTurn(from: Address, a: Payout, b: Payout, c: Payout, d: Payout)
    ensures Needed(from, [a, b, c]) == Max(a.amount, Taken(from, a) + Max(b.amount, Taken(from, b) + c.amount))
    ensures Needed(from, [a, b, c, d]) ==
            Max(a.amount, Taken(from, a) + Max(b.amount, Taken(from, b) + Max(c.amount, Taken(from, c) + d.amount)))
  {
    hide Needed;
    NeededOfNone(from);
    assert [a, b, c] == [a] + ([b] + ([c] + [])) && [a, b, c, d] == [a] + ([b] + ([c] + ([d] + [])));
    NeededFirst(from, c, []);
    NeededFirst(from, b, [c] + []);
    NeededFirst(from, a, [b] + ([c] + []));
    NeededFirst(from, d, []);
    NeededFirst(from, c, [d] + []);
    NeededFirst(from, b, [c] + ([d] + []));
    NeededFirst(from, a, [b] + ([c] + ([d] + [])));
  }

  lemma NeededOfNone(from: Address)
    ensures Needed(from, []) == 0
  {}

  // ---------------------------------------------------------------- paid payers

  /** A hub as deployed for a collateral of 6 decimals, whose payer holds 100 units and lets the hub pay. */
  ghost predicate DeployedWith100(h: Hub) {
    var payer := h.params.assetSender;
    && Initial(h) && h.cfg.multiplier == 1_000_000_000_000
    && payer != 0 && !h.params.redemptionPaused
    && h.collateral == Ledger(map[payer := 100], map[(payer, h.cfg.self) := MAX_UINT256], 100)
  }

  /** An administrator's calls that set pricer, fees and two redemption records. */
  function SetUp(c: Ctx, pricer: Address, recipient: Address, bps: uint256, r: Redeemer, t: Redeemer): seq<Call> {
    [Call(c, Set(Pricer(pricer))), Call(c, Set(FeeRecipient(recipient))), Call(c, Set(RedemptionFee(bps))),
     Call(c, OverwriteRedeemer(1, r.user, r.amount, r.priceId)),
     Call(c, OverwriteRedeemer(2, t.user, t.amount, t.priceId))]
  }

  lemma RunNothing(h: Hub)
    ensures Run(h, []) == h
  {}

  lemma SettingStep(h: Hub, c: Ctx, s: Setting)
    ensures Hubs.TryStep(h, Call(c, Set(s))) ==
            match TrySet(h.params, c, s)
            case Some(params) => Some(h.(params := params))
            case None => None
  {}

  lemma OverwriteStep(h: Hub, c: Ctx, id: Id, r: Redeemer)
    ensures Hubs.TryStep(h, Call(c, OverwriteRedeemer(id, r.user, r.amount, r.priceId))) ==
            if c.hasRole && c.Unrestricted(r.user)
            then Some(Record(h, c, RedeemerOverwritten(id, r.user, r.amount, r.priceId)))
            else None
  {}

  lemma SettingsRun(start: Hub, c: Ctx, s: Setting, t: Setting, u: Setting)
    requires c.hasRole && s.Pricer? && t.FeeRecipient? && u.RedemptionFee? && u.bps <= BPS_DENOMINATOR
    ensures Run(start, [Call(c, Set(s)), Call(c, Set(t)), Call(c, Set(u))]) ==
            start.(params := start.params.(pricer := s.account, feeRecipient := t.account, redemptionFee := u.bps))
  {
    hide Run, Hubs.TryStep;
    var one, two := [Call(c, Set(s))], [Call(c, Set(s)), Call(c, Set(t))];
    var a := start.(params := start.params.(pricer := s.account));
    RunNothing(start);
    assert [] + [Call(c, Set(s))] == one && one + [Call(c, Set(t))] == two;
    SettingStep(start, c, s);
    RunOneMore(start, [], Call(c, Set(s)));
    SettingStep(a, c, t);
    RunOneMore(start, one, Call(c, Set(t)));
    SettingStep(a.(params := a.params.(feeRecipient := t.account)), c, u);
    RunOneMore(start, two, Call(c, Set(u)));
    assert two + [Call(c, Set(u))] == [Call(c, Set(s)), Call(c, Set(t)), Call(c, Set(u))];
  }

  lemma SetUpRuns(start: Hub, c: Ctx, pricer: Address, recipient: Address, bps: uint256, r: Redeemer, t: Redeemer)
    requires c.hasRole && c.Unrestricted(r.user) && c.Unrestricted(t.user) && bps <= BPS_DENOMINATOR
    ensures var h := Run(start, SetUp(c, pricer, recipient, bps, r, t));
            && h.params == start.params.(pricer := pricer, feeRecipient := recipient, redemptionFee := bps)
            && h.cfg == start.cfg && h.collateral == start.collateral
            && h.book.Redemption(1) == r && h.book.Redemption(2) == t
  {
    hide Run, Hubs.TryStep;
    var calls := SetUp(c, pricer, recipient, bps, r, t);
    var d := start.(params := start.params.(pricer := pricer, feeRecipient := recipient, redemptionFee := bps));
    SettingsRun(start, c, Pricer(pricer), FeeRecipient(recipient), RedemptionFee(bps));
    assert calls[..3] == [calls[0], calls[1], calls[2]];
    assert Run(start, calls[..3]) == d;
    var e := Record(d, c, RedeemerOverwritten(1, r.user, r.amount, r.priceId));
    OverwriteStep(d, c, 1, r);
    RunOneMore(start, calls[..3], calls[3]);
    assert calls[..3] + [calls[3]] == calls[..4];
    assert Run(start, calls[..4]) == e;
    OverwriteStep(e, c, 2, t);
    RunOneMore(start, calls[..4], calls[4]);
    assert calls[..4] + [calls[4]] == calls;
  }

  /** Two quotes of a deployed hub that the payer's 100 units decide. */
  lemma TwoClaims(h: Hub, c: Ctx, p: Payment, q: Payment)
    requires !h.params.redemptionPaused && h.params.assetSender != 0 && h.params.feeRecipient != 0
    requires var payer := h.params.assetSender;
             h.collateral == Ledger(map[payer := 100], map[(payer, h.cfg.self) := MAX_UINT256], 100)
    requires TryQuote(h, c, 1) == Some(p) && TryQuote(h, c, 2) == Some(q)
    requires 0 < p.fee <= p.due <= 100 && 0 < q.fee <= q.due <= 100 && p.user != 0 && q.user != 0
    ensures var payer, recipient := h.params.assetSender, h.params.feeRecipient;
            && Sound([p, q]) && TotalFee([p, q]) < TWO_256
            && (TryClaimRedemption(h, c, [1, 2]).Some? <==> Needed(payer, BatchPayouts([p, q], recipient)) <= 100)
            && (TryClaimSeparately(h, c, [1, 2]).Some? <==> Needed(payer, Separately([p, q], recipient)) <= 100)
  {
    hide TryQuote, TryClaimRedemption, TryClaimSeparately, Needed;
    TwoPayments(p, q, h.params.feeRecipient);
    var ids: seq<Id> := [1, 2];
    BatchAndSeparateSucceedExactly(h, c, ids);
    assert QuotesOf(h, c, ids) == [p, q];
    NetsTotals([p, q]);
    assert [p, q][1..] == [q] && [q][1..] == [];
    var ts := Nets([p, q]);
    assert ts == [NetPayout(p), NetPayout(q)] && ts[1..] == [NetPayout(q)] && ts[1..][1..] == [];
    assert NoZeroPayee(ts[1..]);
    assert forall a :: NetTo([q], a) <= 100 && NetTo([p, q], a) <= 200;
    assert Payable(h, [p, q]);
  }

  /** When the payer is paid, the two ways differ in both directions on hubs that runs reach. With 100
      units: at 1667 bps, dues of 60 to a user and 54 to the payer succeed as a batch only; at 2000 bps with
      the fees back to the payer, dues of 50 and 55 to a user succeed as separate calls only. */
  lemma PaidPayersCanDiffer(start: Hub, c: Ctx, pricer: Address, user: Address, recipient: Address)
    requires DeployedWith100(start) && c.hasRole && c.HasPricer(pricer) && c.Price(pricer, 1) == E18
    requires c.Unrestricted(user) && c.Unrestricted(start.params.assetSender)
    requires user != 0 && recipient != 0 && start.params.assetSender !in {user, recipient}
    ensures var r := Redeemer(user, 60_000_000_000_000, 1);
            var t := Redeemer(start.params.assetSender, 54_000_000_000_000, 1);
            var h := Run(start, SetUp(c, pricer, recipient, 1667, r, t));
            TryClaimRedemption(h, c, [1, 2]).Some? && TryClaimSeparately(h, c, [1, 2]).None?
    ensures var r, t := Redeemer(user, 50_000_000_000_000, 1), Redeemer(user, 55_000_000_000_000, 1);
            var h := Run(start, SetUp(c, pricer, start.params.assetSender, 2000, r, t));
            TryClaimRedemption(h, c, [1, 2]).None? && TryClaimSeparately(h, c, [1, 2]).Some?
  {
    hide Run, SetUp, Needed, TryClaimRedemption, TryClaimSeparately;
    var payer := start.params.assetSender;
    {
      var r, t := Redeemer(user, 60_000_000_000_000, 1), Redeemer(payer, 54_000_000_000_000, 1);
      var h := Run(start, SetUp(c, pricer, recipient, 1667, r, t));
      var p, q := Payment(user, 60, 10), Payment(payer, 54, 9);
      SetUpRuns(start, c, pricer, recipient, 1667, r, t);
      TwoClaims(h, c, p, q);
      TwoPayments(p, q, recipient);
      NeededInTurn(payer, Payout(user, 50), Payout(payer, 45), Payout(recipient, 19), Payout(recipient, 0));
      NeededInTurn(payer, Payout(user, 50), Payout(recipient, 10), Payout(payer, 45), Payout(recipient, 9));
    }
    {
      var r, t := Redeemer(user, 50_000_000_000_000, 1), Redeemer(user, 55_000_000_000_000, 1);
      var h := Run(start, SetUp(c, pricer, payer, 2000, r, t));
      var p, q := Payment(user, 50, 10), Payment(user, 55, 11);
      SetUpRuns(start, c, pricer, payer, 2000, r, t);
      TwoClaims(h, c, p, q);
      TwoPayments(p, q, payer);
      NeededInTurn(payer, Payout(user, 40), Payout(user, 44), Payout(payer, 21), Payout(payer, 0));
      NeededInTurn(payer, Payout(user, 40), Payout(payer, 10), Payout(user, 44), Payout(payer, 11));
    }
  }

  // ---------------------------------------------------------------- fees of a batch

  lemma {:induction false} FeeOfTotal(qs: seq<Payment>, bps: nat)
    requires forall i | 0 <= i < |qs| :: qs[i].fee == qs[i].due * bps / BPS_DENOMINATOR
    ensures var whole := TotalDue(qs) * bps / BPS_DENOMINATOR;
            TotalFee(qs) <= whole <= TotalFee(qs) + if qs == [] then 0 else |qs| - 1
  {
    if qs == [] {
    } else {
      FeeOfTotal(qs[1..], bps);
      var due, rest := qs[0].due, TotalDue(qs[1..]);
      assert TotalDue(qs) * bps == due * bps + rest * bps;
      FloorSuperadditive(due * bps, rest * bps, BPS_DENOMINATOR);
      if |qs| == 1 { assert rest == 0; }
    }
  }

  lemma QuoteFee(h: Hub, c: Ctx, id: Id)
    requires TryQuote(h, c, id).Some?
    ensures var p := TryQuote(h, c, id).value; p.fee == p.due * h.params.redemptionFee / BPS_DENOMINATOR
  {
    var p := TryQuote(h, c, id).value;
    FeeIsFloor(p.due, h.params.redemptionFee);
  }

  lemma QuotedFees(h: Hub, c: Ctx, ids: seq<Id>)
    requires AllQuoted(h, c, ids)
    ensures var qs := QuotesOf(h, c, ids);
            var whole := TotalDue(qs) * h.params.redemptionFee / BPS_DENOMINATOR;
            TotalFee(qs) <= whole <= TotalFee(qs) + if ids == [] then 0 else |ids| - 1
  {
    hide TryQuote;
    var qs := QuotesOf(h, c, ids);
    forall i | 0 <= i < |qs| ensures qs[i].fee == qs[i].due * h.params.redemptionFee / BPS_DENOMINATOR {
      QuoteFee(h, c, ids[i]);
    }
    FeeOfTotal(qs, h.params.redemptionFee);
  }

  /** A successful batch has pairwise distinct ids. It takes exactly the collateral due, on the records as
      they stood, from the payer, and gives each user exactly its net amounts and the fee recipient exactly
      the fees, whoever these are; the fees are at most |ids| - 1 units below the fee on the sum. */
  lemma BatchPaysExactly(h: Hub, c: Ctx, ids: seq<Id>)
    requires TryClaimRedemption(h, c, ids).Some?
    ensures Distinct(ids) && AllQuoted(h, c, ids)
    ensures var qs, after := QuotesOf(h, c, ids), TryClaimRedemption(h, c, ids).value.collateral;
            && (forall a ::
                  after.Bal(a) ==
                  h.collateral.Bal(a) - (if a == h.params.assetSender then TotalDue(qs) else 0)
                  + NetTo(qs, a) + if a == h.params.feeRecipient then TotalFee(qs) else 0)
            && var whole := TotalDue(qs) * h.params.redemptionFee / BPS_DENOMINATOR;
               TotalFee(qs) <= whole <= TotalFee(qs) + if ids == [] then 0 else |ids| - 1
  {
    hide TryQuotes, TryQuote, TrySettleEach, PayAll, Affordable, QuotesOf, Distinct, AllQuoted;
    hide MarkAll, Ledger.Bal, Ledger.Allowance;
    SettleEachPays(h, c, ids, 0);
    QuotesAreRecords(h, c, ids);
    var qs := QuotesOf(h, c, ids);
    QuotedFees(h, c, ids);
    SamePayouts(qs, h.params.feeRecipient);
    PayAllExact(h.collateral, h.cfg.self, h.params.assetSender, BatchPayouts(qs, h.params.feeRecipient));
  }
}
