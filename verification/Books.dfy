/** The hub's records and the event log they are a function of. */
module Books {
  import opened Words
  import opened Sums
  import opened HubMath

  /** Deposit and redemption ids: bytes32 values. */
  type Id = nat

  type BlockTime = t: nat | t > 0 witness 1

  datatype Depositor = Depositor(user: Address, amount: uint256, priceId: uint256)

  datatype Redeemer = Redeemer(user: Address, amount: uint256, priceId: uint256)

  const NO_DEPOSITOR: Depositor := Depositor(0, 0, 0)
  const NO_REDEEMER: Redeemer := Redeemer(0, 0, 0)

  /** What the contracts emit. RedemptionCompleted also carries the price id and the fee, and
      UsdyMinted stands for a USDY mint that did not come from the hub. */
  datatype Event =
    | MintRequested(user: Address, id: Id, amount: uint256, amountAfterFee: uint256, feeAmount: uint256)
    | DepositProofAdded(id: Id, user: Address, amountAfterFee: uint256)
    | PriceIdSetForDeposit(id: Id, priceId: uint256)
    | MintCompleted(user: Address, id: Id, rwaOwed: uint256, deposited: uint256, price: uint256, priceId: uint256)
    | RedemptionRequested(user: Address, id: Id, amount: uint256)
    | RedemptionRequestedServicedOffChain(user: Address, id: Id, amount: uint256)
    | PriceIdSetForRedemption(id: Id, priceId: uint256)
    | RedemptionCompleted(user: Address, id: Id, burned: uint256, due: uint256, fee: uint256,
                          price: uint256, priceId: uint256)
    | DepositorOverwritten(id: Id, user: Address, amount: uint256, priceId: uint256)
    | RedeemerOverwritten(id: Id, user: Address, amount: uint256, priceId: uint256)
    | ClaimableTimestampSet(claimTimestamp: nat, id: Id)
    | UsdyMinted(to: Address, amount: uint256)

  datatype Entry = Entry(time: BlockTime, event: Event)

  type Log = seq<Entry>

  /** The storage of the hub that events write. A key never written reads as zeros. */
  datatype Book = Book(
    deposits: map<Id, Depositor>, redemptions: map<Id, Redeemer>, claimable: map<Id, nat>,
    nextDeposit: nat, nextRedemption: nat)
  {
    function Deposit(id: Id): Depositor {
      if id in deposits then deposits[id] else NO_DEPOSITOR
    }

    function Redemption(id: Id): Redeemer {
      if id in redemptions then redemptions[id] else NO_REDEEMER
    }

    function Claimable(id: Id): nat {
      if id in claimable then claimable[id] else 0
    }
  }

  const EMPTY_BOOK: Book := Book(map[], map[], map[], 1, 1)

  /** A call may emit `e` in a hub whose records are `b`. */
  predicate Enabled(unit: nat, b: Book, e: Entry)
  {
    match e.event
    case MintRequested(_, id, amount, afterFee, fee) =>
      id == b.nextDeposit && id + 1 < TWO_256 && afterFee + fee == amount
    case DepositProofAdded(id, _, _) => b.Deposit(id).user == 0
    case PriceIdSetForDeposit(id, _) => b.Deposit(id).user != 0 && b.Deposit(id).priceId == 0
    case MintCompleted(user, id, owed, deposited, price, priceId) =>
      && 0 < b.Claimable(id) <= e.time
      && b.Deposit(id) == Depositor(user, deposited, priceId)
      && priceId != 0
      && MintsTo(deposited, price, unit, owed)
    case RedemptionRequested(_, id, _) => id == b.nextRedemption && id + 1 < TWO_256
    case RedemptionRequestedServicedOffChain(_, id, _) => id == b.nextRedemption && id + 1 < TWO_256
    case PriceIdSetForRedemption(id, _) => b.Redemption(id).priceId == 0
    case RedemptionCompleted(user, id, burned, due, fee, price, priceId) =>
      && b.Redemption(id) == Redeemer(user, burned, priceId)
      && priceId != 0
      && RedeemsTo(burned, price, unit, due)
      && fee <= due
    case ClaimableTimestampSet(timestamp, _) => timestamp >= e.time
    case DepositorOverwritten(_, _, _, _) => true
    case RedeemerOverwritten(_, _, _, _) => true
    case UsdyMinted(_, _) => true
  }

  /** The storage writes that go with an event. */
  function Apply(b: Book, e: Event): Book {
    match e
    case MintRequested(user, id, _, afterFee, _) =>
      b.(deposits := b.deposits[id := Depositor(user, afterFee, 0)], nextDeposit := b.nextDeposit + 1)
    case DepositProofAdded(id, user, amount) =>
      b.(deposits := b.deposits[id := Depositor(user, amount, 0)])
    case PriceIdSetForDeposit(id, priceId) =>
      b.(deposits := b.deposits[id := b.Deposit(id).(priceId := priceId)])
    case MintCompleted(_, id, _, _, _, _) =>
      b.(deposits := b.deposits - {id}, claimable := b.claimable - {id})
    case RedemptionRequested(user, id, amount) =>
      b.(redemptions := b.redemptions[id := Redeemer(user, amount, 0)], nextRedemption := b.nextRedemption + 1)
    case RedemptionRequestedServicedOffChain(_, _, _) =>
      b.(nextRedemption := b.nextRedemption + 1)
    case PriceIdSetForRedemption(id, priceId) =>
      b.(redemptions := b.redemptions[id := b.Redemption(id).(priceId := priceId)])
    case RedemptionCompleted(_, id, _, _, _, _, _) =>
      b.(redemptions := b.redemptions - {id})
    case DepositorOverwritten(id, user, amount, priceId) =>
      b.(deposits := b.deposits[id := Depositor(user, amount, priceId)])
    case RedeemerOverwritten(id, user, amount, priceId) =>
      b.(redemptions := b.redemptions[id := Redeemer(user, amount, priceId)])
    case ClaimableTimestampSet(timestamp, id) =>
      b.(claimable := b.claimable[id := timestamp])
    case UsdyMinted(_, _) => b
  }

  function Init(log: Log): Log
    requires log != []
  {
    log[..|log| - 1]
  }

  function Last(log: Log): Entry
    requires log != []
  {
    log[|log| - 1]
  }

  /** The records after a log. */
  function Replay(log: Log): Book {
    if log == [] then EMPTY_BOOK else Apply(Replay(Init(log)), Last(log).event)
  }

  /** Every event was enabled when it was emitted. */
  predicate Legal(unit: nat, log: Log)
  {
    log == [] || (Legal(unit, Init(log)) && Enabled(unit, Replay(Init(log)), Last(log)))
  }

  lemma {:induction false} LegalPrefix(unit: nat, log: Log, k: nat)
    requires k < |log| && Legal(unit, log)
    ensures Legal(unit, log[..k]) && Enabled(unit, Replay(log[..k]), log[k])
  {
    if k < |log| - 1 {
      LegalPrefix(unit, Init(log), k);
      assert Init(log)[..k] == log[..k];
    }
  }

  lemma LegalSnoc(unit: nat, log: Log, e: Entry)
    requires Legal(unit, log) && Enabled(unit, Replay(log), e)
    ensures Legal(unit, log + [e]) && Replay(log + [e]) == Apply(Replay(log), e.event)
  {
    assert Init(log + [e]) == log;
  }

  // ---------------------------------------------------------------- quantities read off the log

  /** RWA burned by requestRedemption. */
  function Burned(e: Entry): nat { if e.event.RedemptionRequested? then e.event.amount else 0 }

  /** RWA amount of settled redemptions. */
  function Redeemed(e: Entry): nat { if e.event.RedemptionCompleted? then e.event.burned else 0 }

  /** Collateral due on settled redemptions, fees included. */
  function Due(e: Entry): nat { if e.event.RedemptionCompleted? then e.event.due else 0 }

  /** After-fee collateral credited to deposit records. */
  function Credited(e: Entry): nat {
    if e.event.MintRequested? || e.event.DepositProofAdded? then e.event.amountAfterFee else 0
  }

  /** After-fee collateral of deposits that were minted. */
  function Subscribed(e: Entry): nat { if e.event.MintCompleted? then e.event.deposited else 0 }

  /** RWA minted by the hub. */
  function HubMinted(e: Entry): nat { if e.event.MintCompleted? then e.event.rwaOwed else 0 }

  /** RWA minted by anyone. */
  function Minted(e: Entry): nat {
    if e.event.MintCompleted? then e.event.rwaOwed else if e.event.UsdyMinted? then e.event.amount else 0
  }

  predicate NoDepositorOverwrites(log: Log) { forall e | e in log :: !e.event.DepositorOverwritten? }

  predicate NoRedeemerOverwrites(log: Log) { forall e | e in log :: !e.event.RedeemerOverwritten? }

  predicate OnlyHubMints(log: Log) { forall e | e in log :: !e.event.UsdyMinted? }

  function DepositAmount(d: Depositor): nat { d.amount }

  function RedemptionAmount(r: Redeemer): nat { r.amount }

  // ---------------------------------------------------------------- redemption ids

  function OnChainRequest(id: Id): Entry -> nat {
    (e: Entry) => if e.event.RedemptionRequested? && e.event.id == id then 1 else 0
  }

  function OffChainRequest(id: Id): Entry -> nat {
    (e: Entry) => if e.event.RedemptionRequestedServicedOffChain? && e.event.id == id then 1 else 0
  }

  /** On-chain and off-chain requests share one counter: an id is issued at most once, to one of them. */
  lemma {:induction false} RedemptionIdsIssuedOnce(unit: nat, log: Log, id: Id)
    requires Legal(unit, log)
    ensures Sum(OnChainRequest(id), log) + Sum(OffChainRequest(id), log) <= 1
    ensures id >= Replay(log).nextRedemption ==> Sum(OnChainRequest(id), log) == Sum(OffChainRequest(id), log) == 0
  {
    if log == [] {
    } else {
      RedemptionIdsIssuedOnce(unit, Init(log), id);
    }
  }

  /** Without overwrites an id that no on-chain request was issued holds no amount and no user,
      whatever price ids were set on it. */
  lemma {:induction false} UnissuedIdsAreEmpty(unit: nat, log: Log, id: Id)
    requires Legal(unit, log) && NoRedeemerOverwrites(log)
    requires Sum(OnChainRequest(id), log) == 0
    ensures Replay(log).Redemption(id).amount == 0 && Replay(log).Redemption(id).user == 0
  {
    if log == [] {
    } else {
      assert Last(log) in log;
      UnissuedIdsAreEmpty(unit, Init(log), id);
    }
  }

  /** Redemption ledger conservation: what requestRedemption burned is outstanding or settled.
      Ids not yet issued, and ids issued to off-chain redemptions, hold nothing. */
  lemma {:induction false} RedemptionConservation(unit: nat, log: Log)
    requires Legal(unit, log) && NoRedeemerOverwrites(log)
    ensures MapSum(RedemptionAmount, Replay(log).redemptions) + Sum(Redeemed, log) == Sum(Burned, log)
    ensures forall id: Id | id >= Replay(log).nextRedemption || Sum(OffChainRequest(id), log) > 0 ::
              Replay(log).Redemption(id).amount == 0
  {
    forall id: Id | id >= Replay(log).nextRedemption || Sum(OffChainRequest(id), log) > 0
      ensures Replay(log).Redemption(id).amount == 0
    {
      RedemptionIdsIssuedOnce(unit, log, id);
      UnissuedIdsAreEmpty(unit, log, id);
    }
    if log == [] {
    } else {
      assert Last(log) in log;
      RedemptionConservation(unit, Init(log));
      RedemptionConservationStep(Replay(Init(log)), Last(log));
      if Last(log).event.RedemptionRequested? {
        assert Replay(Init(log)).Redemption(Last(log).event.id).amount == 0;
      }
    }
  }

  lemma RedemptionConservationStep(b: Book, e: Entry)
    requires e.event.RedemptionRequested? ==> b.Redemption(e.event.id).amount == 0
    requires e.event.RedemptionCompleted? ==> b.Redemption(e.event.id).amount == e.event.burned
    requires !e.event.RedeemerOverwritten?
    ensures MapSum(RedemptionAmount, Apply(b, e.event).redemptions) + Redeemed(e)
         == MapSum(RedemptionAmount, b.redemptions) + Burned(e)
  {
    match e.event
    case RedemptionRequested(user, id, amount) =>
      MapSumPut(RedemptionAmount, b.redemptions, id, Redeemer(user, amount, 0));
    case PriceIdSetForRedemption(id, priceId) =>
      MapSumPut(RedemptionAmount, b.redemptions, id, b.Redemption(id).(priceId := priceId));
    case RedemptionCompleted(_, id, _, _, _, _, _) => MapSumDelete(RedemptionAmount, b.redemptions, id);
    case _ =>
  }

  /** Credited collateral a new record for a used id wipes out. Neither requestSubscription nor addProof
      looks at the amount already stored there. */
  function ReplacedBy(b: Book, e: Event): nat {
    if e.MintRequested? || e.DepositProofAdded? then b.Deposit(e.id).amount else 0
  }

  function Replaced(log: Log): nat {
    if log == [] then 0 else Replaced(Init(log)) + ReplacedBy(Replay(Init(log)), Last(log).event)
  }

  /** Deposit ledger conservation: credited collateral is outstanding, minted against, or replaced. */
  lemma {:induction false} DepositConservation(unit: nat, log: Log)
    requires Legal(unit, log) && NoDepositorOverwrites(log)
    ensures MapSum(DepositAmount, Replay(log).deposits) + Sum(Subscribed, log) + Replaced(log) == Sum(Credited, log)
  {
    if log == [] {
    } else {
      assert Last(log) in log;
      DepositConservation(unit, Init(log));
      DepositConservationStep(unit, Replay(Init(log)), Last(log));
    }
  }

  lemma DepositConservationStep(unit: nat, b: Book, e: Entry)
    requires Enabled(unit, b, e) && !e.event.DepositorOverwritten?
    ensures MapSum(DepositAmount, Apply(b, e.event).deposits) + Subscribed(e) + ReplacedBy(b, e.event)
         == MapSum(DepositAmount, b.deposits) + Credited(e)
  {
    match e.event
    case MintRequested(user, id, _, amount, _) => MapSumPut(DepositAmount, b.deposits, id, Depositor(user, amount, 0));
    case DepositProofAdded(id, user, amount) => MapSumPut(DepositAmount, b.deposits, id, Depositor(user, amount, 0));
    case PriceIdSetForDeposit(id, priceId) =>
      MapSumPut(DepositAmount, b.deposits, id, b.Deposit(id).(priceId := priceId));
    case MintCompleted(_, id, _, _, _, _) => MapSumDelete(DepositAmount, b.deposits, id);
    case _ =>
  }

  /** Nothing is lost exactly when no record with an amount was ever replaced. */
  lemma NothingLostExactly(unit: nat, log: Log)
    requires Legal(unit, log) && NoDepositorOverwrites(log)
    ensures MapSum(DepositAmount, Replay(log).deposits) + Sum(Subscribed, log) == Sum(Credited, log) <==>
            Replaced(log) == 0
  {
    DepositConservation(unit, log);
  }

  lemma TwoEntries(unit: nat, e: Entry, f: Entry)
    requires Enabled(unit, EMPTY_BOOK, e)
    requires Enabled(unit, Apply(EMPTY_BOOK, e.event), f)
    ensures Legal(unit, [e, f]) && Replay([e, f]) == Apply(Apply(EMPTY_BOOK, e.event), f.event)
    ensures Replaced([e, f]) == ReplacedBy(Apply(EMPTY_BOOK, e.event), f.event)
  {
    assert Init([e, f]) == [e] && Init([e]) == [];
    assert Replay([]) == EMPTY_BOOK && Replay([e]) == Apply(EMPTY_BOOK, e.event);
    assert Replaced([e]) == ReplacedBy(EMPTY_BOOK, e.event) == 0;
  }

  /** First way to lose a credit: a proof filed under the id the next subscription takes. */
  lemma SubscriptionReplacesProof(
    unit: nat, t: BlockTime, t': BlockTime, user: Address, x: uint256, other: Address, y: uint256)
    ensures var log := [Entry(t, DepositProofAdded(1, user, x)), Entry(t', MintRequested(other, 1, y, y, 0))];
            Legal(unit, log) && Replaced(log) == x && Replay(log).Deposit(1) == Depositor(other, y, 0)
  {
    TwoEntries(unit, Entry(t, DepositProofAdded(1, user, x)), Entry(t', MintRequested(other, 1, y, y, 0)));
  }

  /** Second way: a proof filed for the zero address, which does not count as an existing one. */
  lemma ProofReplacesProofOfNobody(
    unit: nat, t: BlockTime, t': BlockTime, id: Id, x: uint256, user: Address, y: uint256)
    ensures var log := [Entry(t, DepositProofAdded(id, 0, x)), Entry(t', DepositProofAdded(id, user, y))];
            Legal(unit, log) && Replaced(log) == x && Replay(log).Deposit(id) == Depositor(user, y, 0)
  {
    TwoEntries(unit, Entry(t, DepositProofAdded(id, 0, x)), Entry(t', DepositProofAdded(id, user, y)));
  }

  // ---------------------------------------------------------------- settlement at most once

  /** Creations of the deposit record `id`: requests, proofs and overwrites. */
  function DepositCreated(id: Id): Entry -> nat {
    (e: Entry) =>
      if (e.event.MintRequested? || e.event.DepositProofAdded? || e.event.DepositorOverwritten?) && e.event.id == id
      then 1 else 0
  }

  function MintOf(id: Id): Entry -> nat {
    (e: Entry) => if e.event.MintCompleted? && e.event.id == id then 1 else 0
  }

  /** Creations of the redemption record `id`: on-chain requests and overwrites. */
  function RedemptionCreated(id: Id): Entry -> nat {
    (e: Entry) => if (e.event.RedemptionRequested? || e.event.RedeemerOverwritten?) && e.event.id == id then 1 else 0
  }

  /** Settlements of the redemption record `id` that paid for a non-zero amount. */
  function SettlementOf(id: Id): Entry -> nat {
    (e: Entry) => if e.event.RedemptionCompleted? && e.event.id == id && e.event.burned != 0 then 1 else 0
  }

  /** A deposit record is minted at most once per creation, and a live record is still unminted. */
  lemma {:induction false} MintAtMostOnce(unit: nat, log: Log, id: Id)
    requires Legal(unit, log)
    ensures Sum(MintOf(id), log) + (if Replay(log).Deposit(id) != NO_DEPOSITOR then 1 else 0)
         <= Sum(DepositCreated(id), log)
  {
    if log == [] {
    } else {
      MintAtMostOnce(unit, Init(log), id);
    }
  }

  /** A redemption record pays at most once per creation, and a live record is still unpaid. */
  lemma {:induction false} SettleAtMostOnce(unit: nat, log: Log, id: Id)
    requires Legal(unit, log)
    ensures Sum(SettlementOf(id), log) + (if Replay(log).Redemption(id).amount != 0 then 1 else 0)
         <= Sum(RedemptionCreated(id), log)
  {
    if log == [] {
    } else {
      SettleAtMostOnce(unit, Init(log), id);
    }
  }

  /** Without overwrites a redemption id pays at most once for ever. */
  lemma {:induction false} RedemptionIdPaysOnce(unit: nat, log: Log, id: Id)
    requires Legal(unit, log) && NoRedeemerOverwrites(log)
    ensures Sum(SettlementOf(id), log) <= 1
  {
    SettleAtMostOnce(unit, log, id);
    RedemptionIdsIssuedOnce(unit, log, id);
    CreationsAreRequests(log, id);
  }

  lemma {:induction false} CreationsAreRequests(log: Log, id: Id)
    requires NoRedeemerOverwrites(log)
    ensures Sum(RedemptionCreated(id), log) == Sum(OnChainRequest(id), log)
  {
    if log == [] {
    } else {
      assert Last(log) in log;
      CreationsAreRequests(Init(log), id);
    }
  }

  // ---------------------------------------------------------------- which price is used

  /** The non-zero price ids assigned to a deposit id since its record was last created. */
  function DepositPriceIds(log: Log, id: Id): seq<uint256> {
    if log == [] then []
    else
      var before := DepositPriceIds(Init(log), id);
      match Last(log).event
      case MintRequested(_, i, _, _, _) => if i == id then [] else before
      case DepositProofAdded(i, _, _) => if i == id then [] else before
      case PriceIdSetForDeposit(i, priceId) => if i == id && priceId != 0 then before + [priceId] else before
      case _ => before
  }

  function RedemptionPriceIds(log: Log, id: Id): seq<uint256> {
    if log == [] then []
    else
      var before := RedemptionPriceIds(Init(log), id);
      match Last(log).event
      case RedemptionRequested(_, i, _) => if i == id then [] else before
      case PriceIdSetForRedemption(i, priceId) => if i == id && priceId != 0 then before + [priceId] else before
      case _ => before
  }

  function PriceIdList(priceId: uint256): seq<uint256> { if priceId == 0 then [] else [priceId] }

  lemma {:induction false} LiveDepositPriceId(unit: nat, log: Log, id: Id)
    requires Legal(unit, log) && NoDepositorOverwrites(log)
    requires Replay(log).Deposit(id) != NO_DEPOSITOR
    ensures DepositPriceIds(log, id) == PriceIdList(Replay(log).Deposit(id).priceId)
  {
    if log == [] {
    } else {
      assert Last(log) in log;
      if Replay(Init(log)).Deposit(id) != NO_DEPOSITOR {
        LiveDepositPriceId(unit, Init(log), id);
      }
    }
  }

  lemma {:induction false} LiveRedemptionPriceId(unit: nat, log: Log, id: Id)
    requires Legal(unit, log) && NoRedeemerOverwrites(log)
    requires Replay(log).Redemption(id).amount != 0
    ensures RedemptionPriceIds(log, id) == PriceIdList(Replay(log).Redemption(id).priceId)
  {
    if log == [] {
    } else {
      assert Last(log) in log;
      if Replay(Init(log)).Redemption(id).amount != 0 {
        LiveRedemptionPriceId(unit, Init(log), id);
      }
    }
  }

  /** Every mint used the only non-zero price id assigned since its record was created; so did
      every redemption settled for a non-zero amount. */
  lemma SettlementUsesTheAssignedPrice(unit: nat, log: Log, k: nat)
    requires Legal(unit, log) && k < |log|
    ensures NoDepositorOverwrites(log) && log[k].event.MintCompleted? ==>
              DepositPriceIds(log[..k], log[k].event.id) == [log[k].event.priceId]
    ensures NoRedeemerOverwrites(log) && log[k].event.RedemptionCompleted? && log[k].event.burned != 0 ==>
              RedemptionPriceIds(log[..k], log[k].event.id) == [log[k].event.priceId]
  {
    LegalPrefix(unit, log, k);
    assert forall e | e in log[..k] :: e in log;
    if NoDepositorOverwrites(log) && log[k].event.MintCompleted? {
      LiveDepositPriceId(unit, log[..k], log[k].event.id);
    }
    if NoRedeemerOverwrites(log) && log[k].event.RedemptionCompleted? && log[k].event.burned != 0 {
      LiveRedemptionPriceId(unit, log[..k], log[k].event.id);
    }
  }

  // ---------------------------------------------------------------- the time gate

  /** Position of the last setting of the id's claimable timestamp, -1 if there is none or a mint
      of the id has used it up. */
  function PendingGate(log: Log, id: Id): (j: int)
    ensures -1 <= j < |log|
    ensures j >= 0 ==>
              && log[j].event.ClaimableTimestampSet? && log[j].event.id == id
              && forall i | j < i < |log| ::
                   (log[i].event.ClaimableTimestampSet? || log[i].event.MintCompleted?) ==> log[i].event.id != id
  {
    if log == [] then -1
    else
      match Last(log).event
      case ClaimableTimestampSet(_, i) => if i == id then |log| - 1 else PendingGate(Init(log), id)
      case MintCompleted(_, i, _, _, _, _) => if i == id then -1 else PendingGate(Init(log), id)
      case _ => PendingGate(Init(log), id)
  }

  lemma {:induction false} ClaimableIsPendingGate(unit: nat, log: Log, id: Id)
    requires Legal(unit, log)
    ensures var j := PendingGate(log, id);
            if j < 0 then Replay(log).Claimable(id) == 0
            else Replay(log).Claimable(id) == log[j].event.claimTimestamp >= log[j].time
  {
    if log == [] {
    } else {
      ClaimableIsPendingGate(unit, Init(log), id);
    }
  }

  /** Every mint happens at or after the claimable timestamp most recently set for its id, which was
      not in the past when it was set; and no earlier mint of the id came after that setting. */
  lemma TimeGate(unit: nat, log: Log, k: nat)
    requires Legal(unit, log) && k < |log| && log[k].event.MintCompleted?
    ensures var id, j := log[k].event.id, PendingGate(log[..k], log[k].event.id);
            && 0 <= j < k
            && log[j].event.ClaimableTimestampSet? && log[j].event.id == id
            && log[j].time <= log[j].event.claimTimestamp <= log[k].time
            && forall i | j < i < k ::
                 (log[i].event.ClaimableTimestampSet? || log[i].event.MintCompleted?) ==> log[i].event.id != id
  {
    LegalPrefix(unit, log, k);
    ClaimableIsPendingGate(unit, log[..k], log[k].event.id);
    assert forall i | 0 <= i < k :: log[..k][i] == log[i];
  }

  /** Between two mints of the same id its claimable timestamp has been set again. */
  lemma NewGateBetweenMints(unit: nat, log: Log, i: nat, k: nat)
    requires Legal(unit, log) && i < k < |log|
    requires log[i].event.MintCompleted? && log[k].event.MintCompleted? && log[i].event.id == log[k].event.id
    ensures exists j | i < j < k ::
              log[j].event.ClaimableTimestampSet? && log[j].event.id == log[k].event.id
              && log[j].event.claimTimestamp <= log[k].time
  {
    TimeGate(unit, log, k);
  }

  // ---------------------------------------------------------------- value

  predicate MintPricesAtLeast(log: Log, p: nat) {
    forall e | e in log :: e.event.MintCompleted? ==> e.event.price >= p
  }

  predicate RedemptionPricesAtMost(log: Log, q: nat) {
    forall e | e in log :: e.event.RedemptionCompleted? ==> e.event.price <= q
  }

  /** At prices of at least p, the RWA minted by the hub is covered by the deposits. */
  lemma {:induction false} MintedIsCovered(unit: nat, log: Log, p: nat)
    requires Legal(unit, log) && MintPricesAtLeast(log, p)
    ensures Sum(HubMinted, log) * p <= Sum(Subscribed, log) * unit
  {
    if log == [] {
    } else {
      var e := Last(log).event;
      assert Last(log) in log;
      MintedIsCovered(unit, Init(log), p);
      if e.MintCompleted? {
        MintStep(Sum(HubMinted, Init(log)), e.rwaOwed, p, e.price,
                 Sum(Subscribed, Init(log)), e.deposited, unit);
      }
    }
  }

  lemma MintStep(total: nat, owed: nat, p: nat, price: nat, covered: nat, deposited: nat, unit: nat)
    requires total * p <= covered * unit && p <= price && owed * price <= deposited * unit
    ensures (total + owed) * p <= (covered + deposited) * unit
  {
    assert owed * p <= owed * price;
    assert (total + owed) * p == total * p + owed * p;
    assert (covered + deposited) * unit == covered * unit + deposited * unit;
  }

  /** At prices of at most q, the collateral due is covered by the RWA redeemed. */
  lemma {:induction false} DueIsCovered(unit: nat, log: Log, q: nat)
    requires Legal(unit, log) && RedemptionPricesAtMost(log, q)
    ensures Sum(Due, log) * unit <= Sum(Redeemed, log) * q
  {
    if log == [] {
    } else {
      var e := Last(log).event;
      assert Last(log) in log;
      DueIsCovered(unit, Init(log), q);
      if e.RedemptionCompleted? {
        DueStep(Sum(Due, Init(log)), e.due, unit, Sum(Redeemed, Init(log)), e.burned, e.price, q);
      }
    }
  }

  lemma DueStep(total: nat, due: nat, unit: nat, covered: nat, burned: nat, price: nat, q: nat)
    requires total * unit <= covered * q && price <= q && due * unit <= burned * price
    ensures (total + due) * unit <= (covered + burned) * q
  {
    assert burned * price <= burned * q;
    assert (total + due) * unit == total * unit + due * unit;
    assert (covered + burned) * q == covered * q + burned * q;
  }
}
