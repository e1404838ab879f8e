/** EIP-20 ledgers, and the USDY token with its transfer hook (contracts/usdy/USDY.sol over the
    ERC20 presets it inherits). Address 0 is the zero address. */
module Tokens {
  import opened Words
  import opened Sums
  import Allowlist

  datatype Ledger = Ledger(
    balances: map<Address, uint256>, allowances: map<(Address, Address), uint256>, supply: uint256)
  {
    function Bal(a: Address): uint256 {
      if a in balances then balances[a] else 0
    }

    function Allowance(owner: Address, spender: Address): uint256 {
      if (owner, spender) in allowances then allowances[(owner, spender)] else 0
    }

    function Debit(from: Address, amount: uint256): Option<Ledger> {
      var rest :- Unsigned(Bal(from) - amount);
      Some(this.(balances := balances[from := rest]))
    }

    function Credit(to: Address, amount: uint256): Option<Ledger> {
      var sum :- Unsigned(Bal(to) + amount);
      Some(this.(balances := balances[to := sum]))
    }

    function Move(from: Address, to: Address, amount: uint256): Option<Ledger> {
      var debited :- Debit(from, amount);
      debited.Credit(to, amount)
    }

    /** An allowance of 2^256 - 1 is never used up. */
    function Spend(owner: Address, spender: Address, amount: uint256): Option<Ledger> {
      if Allowance(owner, spender) == MAX_UINT256 then Some(this)
      else
        var rest :- Unsigned(Allowance(owner, spender) - amount);
        Some(this.(allowances := allowances[(owner, spender) := rest]))
    }

    /** transferFrom of the collateral token. */
    function TransferFrom(spender: Address, from: Address, to: Address, amount: uint256): Option<Ledger> {
      var spent :- Spend(from, spender, amount);
      var _ :- Require(from != 0 && to != 0);
      spent.Move(from, to, amount)
    }
  }

  /** What the token sees when it asks its pause flag and its three lists. */
  datatype Gate = Gate(
    paused: bool, blocked: set<Address>, sanctioned: set<Address>, allowlist: Allowlist.State, contracts: set<Address>)
  {
    predicate Cleared(a: Address) {
      && a !in blocked
      && a !in sanctioned
      && allowlist.IsAllowed(contracts, a)
    }

    /** _beforeTokenTransfer does not revert. */
    predicate HookPasses(sender: Address, from: Address, to: Address) {
      && !paused
      && (from != sender && to != sender ==> Cleared(sender))
      && (from != 0 ==> Cleared(from))
      && (to != 0 ==> Cleared(to))
    }
  }

  function TryTransfer(l: Ledger, g: Gate, sender: Address, from: Address, to: Address, amount: uint256)
    : Option<Ledger>
  {
    var _ :- Require(from != 0 && to != 0);
    var _ :- Require(g.HookPasses(sender, from, to));
    l.Move(from, to, amount)
  }

  function TryTransferFrom(l: Ledger, g: Gate, sender: Address, from: Address, to: Address, amount: uint256)
    : Option<Ledger>
  {
    var spent :- l.Spend(from, sender, amount);
    TryTransfer(spent, g, sender, from, to, amount)
  }

  function TryMint(l: Ledger, g: Gate, sender: Address, to: Address, amount: uint256): Option<Ledger> {
    var _ :- Require(to != 0);
    var _ :- Require(g.HookPasses(sender, 0, to));
    var supply :- Unsigned(l.supply + amount);
    l.(supply := supply).Credit(to, amount)
  }

  function TryBurn(l: Ledger, g: Gate, sender: Address, from: Address, amount: uint256): Option<Ledger> {
    var _ :- Require(from != 0);
    var _ :- Require(g.HookPasses(sender, from, 0));
    var debited :- l.Debit(from, amount);
    var supply :- Unsigned(l.supply - amount);
    Some(debited.(supply := supply))
  }

  function TryBurnFrom(l: Ledger, g: Gate, sender: Address, from: Address, amount: uint256): Option<Ledger> {
    var spent :- l.Spend(from, sender, amount);
    TryBurn(spent, g, sender, from, amount)
  }

  function TryApprove(l: Ledger, owner: Address, spender: Address, amount: uint256): Option<Ledger> {
    var _ :- Require(owner != 0 && spender != 0);
    Some(l.(allowances := l.allowances[(owner, spender) := amount]))
  }

  class Erc20 {
    var balances: map<Address, uint256>
    var allowances: map<(Address, Address), uint256>
    var totalSupply: uint256

    function State(): Ledger
      reads this
    {
      Ledger(balances, allowances, totalSupply)
    }

    method Restore(l: Ledger)
      modifies this
      ensures State() == l
    {
      balances, allowances, totalSupply := l.balances, l.allowances, l.supply;
    }

    method TransferFrom(spender: Address, from: Address, to: Address, amount: uint256) returns (ok: bool)
      modifies this
      ensures Transacts(ok, old(State()), State(), old(State()).TransferFrom(spender, from, to, amount))
    {
      var before := State();
      if before.Allowance(from, spender) != MAX_UINT256 {
        if before.Allowance(from, spender) < amount {
          return false;
        }
        allowances := allowances[(from, spender) := before.Allowance(from, spender) - amount];
      }
      if from == 0 || to == 0 || before.Bal(from) < amount {
        Restore(before);
        return false;
      }
      balances := balances[from := before.Bal(from) - amount];
      if State().Bal(to) + amount >= TWO_256 {
        Restore(before);
        return false;
      }
      balances := balances[to := State().Bal(to) + amount];
      return true;
    }
  }

  class Usdy {
    var balances: map<Address, uint256>
    var allowances: map<(Address, Address), uint256>
    var totalSupply: uint256

    function State(): Ledger
      reads this
    {
      Ledger(balances, allowances, totalSupply)
    }

    constructor ()
      ensures State() == Ledger(map[], map[], 0)
    {
      balances, allowances, totalSupply := map[], map[], 0;
    }

    method Restore(l: Ledger)
      modifies this
      ensures State() == l
    {
      balances, allowances, totalSupply := l.balances, l.allowances, l.supply;
    }

    method SpendAllowance(owner: Address, spender: Address, amount: uint256) returns (ok: bool)
      modifies this
      ensures Transacts(ok, old(State()), State(), old(State()).Spend(owner, spender, amount))
    {
      var current := State().Allowance(owner, spender);
      if current != MAX_UINT256 {
        if current < amount {
          return false;
        }
        allowances := allowances[(owner, spender) := current - amount];
      }
      return true;
    }

    method Transfer(g: Gate, sender: Address, from: Address, to: Address, amount: uint256) returns (ok: bool)
      modifies this
      ensures Transacts(ok, old(State()), State(), TryTransfer(old(State()), g, sender, from, to, amount))
    {
      if from == 0 || to == 0 || !g.HookPasses(sender, from, to) || State().Bal(from) < amount {
        return false;
      }
      var before := balances;
      balances := balances[from := State().Bal(from) - amount];
      if State().Bal(to) + amount >= TWO_256 {
        balances := before;
        return false;
      }
      balances := balances[to := State().Bal(to) + amount];
      return true;
    }

    method TransferFrom(g: Gate, sender: Address, from: Address, to: Address, amount: uint256) returns (ok: bool)
      modifies this
      ensures Transacts(ok, old(State()), State(), TryTransferFrom(old(State()), g, sender, from, to, amount))
    {
      var before := State();
      ok := SpendAllowance(from, sender, amount);
      if ok {
        ok := Transfer(g, sender, from, to, amount);
        if !ok {
          Restore(before);
        }
      }
    }

    method Approve(owner: Address, spender: Address, amount: uint256) returns (ok: bool)
      modifies this
      ensures Transacts(ok, old(State()), State(), TryApprove(old(State()), owner, spender, amount))
    {
      if owner == 0 || spender == 0 {
        return false;
      }
      allowances := allowances[(owner, spender) := amount];
      return true;
    }

    method Mint(g: Gate, sender: Address, to: Address, amount: uint256) returns (ok: bool)
      modifies this
      ensures Transacts(ok, old(State()), State(), TryMint(old(State()), g, sender, to, amount))
    {
      if to == 0 || !g.HookPasses(sender, 0, to)
         || totalSupply + amount >= TWO_256 || State().Bal(to) + amount >= TWO_256 {
        return false;
      }
      totalSupply := totalSupply + amount;
      balances := balances[to := State().Bal(to) + amount];
      return true;
    }

    /** The admin burn, and the last step of every other burn. */
    method Burn(g: Gate, sender: Address, from: Address, amount: uint256) returns (ok: bool)
      modifies this
      ensures Transacts(ok, old(State()), State(), TryBurn(old(State()), g, sender, from, amount))
    {
      if from == 0 || !g.HookPasses(sender, from, 0) || State().Bal(from) < amount || totalSupply < amount {
        return false;
      }
      balances := balances[from := State().Bal(from) - amount];
      totalSupply := totalSupply - amount;
      return true;
    }

    method BurnFrom(g: Gate, sender: Address, from: Address, amount: uint256) returns (ok: bool)
      modifies this
      ensures Transacts(ok, old(State()), State(), TryBurnFrom(old(State()), g, sender, from, amount))
    {
      var before := State();
      ok := SpendAllowance(from, sender, amount);
      if ok {
        ok := Burn(g, sender, from, amount);
        if !ok {
          Restore(before);
        }
      }
    }
  }

  // ---------------------------------------------------------------- token calls that bypass the hub

  datatype Op =
    | Transfer(to: Address, amount: uint256)
    | TransferFrom(from: Address, to: Address, amount: uint256)
    | Approve(spender: Address, amount: uint256)
    | Burn(amount: uint256)
    | BurnFrom(from: Address, amount: uint256)
    | AdminBurn(from: Address, amount: uint256)
    | Mint(to: Address, amount: uint256)

  function TryStep(l: Ledger, g: Gate, sender: Address, hasRole: bool, op: Op): Option<Ledger> {
    match op
    case Transfer(to, amount) => TryTransfer(l, g, sender, sender, to, amount)
    case TransferFrom(from, to, amount) => TryTransferFrom(l, g, sender, from, to, amount)
    case Approve(spender, amount) => TryApprove(l, sender, spender, amount)
    case Burn(amount) => TryBurn(l, g, sender, sender, amount)
    case BurnFrom(from, amount) => TryBurnFrom(l, g, sender, from, amount)
    case AdminBurn(from, amount) =>
      var _ :- Require(hasRole);
      TryBurn(l, g, sender, from, amount)
    case Mint(to, amount) =>
      var _ :- Require(hasRole);
      TryMint(l, g, sender, to, amount)
  }

  function Held(b: uint256): nat { b }

  /** The amounts held by all accounts add up to the supply. */
  ghost predicate Balanced(l: Ledger) {
    MapSum<uint256>(Held, l.balances) == l.supply
  }

  lemma CreditAdds(l: Ledger, to: Address, amount: uint256)
    requires l.Credit(to, amount).Some?
    ensures MapSum<uint256>(Held, l.Credit(to, amount).value.balances) == MapSum<uint256>(Held, l.balances) + amount
  {
    MapSumPut<uint256>(Held, l.balances, to, l.Bal(to) + amount);
  }

  lemma DebitSubtracts(l: Ledger, from: Address, amount: uint256)
    requires l.Debit(from, amount).Some?
    ensures MapSum<uint256>(Held, l.Debit(from, amount).value.balances) + amount == MapSum<uint256>(Held, l.balances)
  {
    MapSumPut<uint256>(Held, l.balances, from, l.Bal(from) - amount);
  }

  lemma BalanceWithinSupply(l: Ledger, a: Address)
    requires Balanced(l)
    ensures l.Bal(a) <= l.supply
  {
    if a in l.balances {
      MapSumSplit<uint256>(Held, l.balances, a);
    }
  }

  lemma MoveConserves(l: Ledger, from: Address, to: Address, amount: uint256)
    requires l.Move(from, to, amount).Some?
    ensures MapSum<uint256>(Held, l.Move(from, to, amount).value.balances) == MapSum<uint256>(Held, l.balances)
  {
    DebitSubtracts(l, from, amount);
    CreditAdds(l.Debit(from, amount).value, to, amount);
  }

  /** Every token call keeps the sum of balances equal to the supply. */
  lemma StepKeepsBalanced(l: Ledger, g: Gate, sender: Address, hasRole: bool, op: Op)
    requires Balanced(l) && TryStep(l, g, sender, hasRole, op).Some?
    ensures Balanced(TryStep(l, g, sender, hasRole, op).value)
  {
    hide MapSum, Ledger.Bal;
    match op
    case Transfer(to, amount) => MoveConserves(l, sender, to, amount);
    case TransferFrom(from, to, amount) => MoveConserves(l.Spend(from, sender, amount).value, from, to, amount);
    case Approve(_, _) =>
    case Burn(amount) => DebitSubtracts(l, sender, amount);
    case BurnFrom(from, amount) => DebitSubtracts(l.Spend(from, sender, amount).value, from, amount);
    case AdminBurn(from, amount) => DebitSubtracts(l, from, amount);
    case Mint(to, amount) => CreditAdds(l.(supply := l.supply + amount), to, amount);
  }

  /** A frozen account is one the hook refuses: blocked, sanctioned or not allowed. */
  predicate Frozen(g: Gate, a: Address) {
    a != 0 && !g.Cleared(a)
  }

  lemma MoveExact(l: Ledger, from: Address, to: Address, amount: uint256)
    requires l.Move(from, to, amount).Some?
    ensures var next := l.Move(from, to, amount).value;
            && (forall a :: next.Bal(a) + (if a == from then amount else 0) == l.Bal(a) + if a == to then amount else 0)
            && next.supply == l.supply
  {}

  lemma BurnExact(l: Ledger, g: Gate, sender: Address, from: Address, amount: uint256)
    requires TryBurn(l, g, sender, from, amount).Some?
    ensures var next := TryBurn(l, g, sender, from, amount).value;
            && (forall a :: next.Bal(a) + (if a == from then amount else 0) == l.Bal(a))
            && next.supply + amount == l.supply
  {
    hide Gate.HookPasses;
  }

  lemma MintExact(l: Ledger, g: Gate, sender: Address, to: Address, amount: uint256)
    requires TryMint(l, g, sender, to, amount).Some?
    ensures var next := TryMint(l, g, sender, to, amount).value;
            && (forall a :: next.Bal(a) == l.Bal(a) + if a == to then amount else 0)
            && next.supply == l.supply + amount
  {
    hide Gate.HookPasses;
  }

  lemma SpendKeepsBalances(l: Ledger, owner: Address, spender: Address, amount: uint256)
    requires l.Spend(owner, spender, amount).Some?
    ensures l.Spend(owner, spender, amount).value.balances == l.balances
    ensures l.Spend(owner, spender, amount).value.supply == l.supply
  {}

  /** What a successful token call does to every balance and to the supply. */
  lemma StepMovesExactly(l: Ledger, g: Gate, sender: Address, hasRole: bool, op: Op)
    requires TryStep(l, g, sender, hasRole, op).Some?
    ensures var next := TryStep(l, g, sender, hasRole, op).value;
            forall a :: next.Bal(a) + Outgoing(sender, op, a) == l.Bal(a) + Incoming(op, a)
    ensures TryStep(l, g, sender, hasRole, op).value.supply
            + (if op.Burn? || op.BurnFrom? || op.AdminBurn? then op.amount else 0)
         == l.supply + if op.Mint? then op.amount else 0
  {
    hide Gate.HookPasses, TryBurn, TryMint, Ledger.Move, Ledger.Spend;
    match op
    case Transfer(to, amount) => MoveExact(l, sender, to, amount);
    case TransferFrom(from, to, amount) =>
      SpendKeepsBalances(l, from, sender, amount);
      MoveExact(l.Spend(from, sender, amount).value, from, to, amount);
    case Approve(_, _) =>
    case Burn(amount) => BurnExact(l, g, sender, sender, amount);
    case BurnFrom(from, amount) =>
      SpendKeepsBalances(l, from, sender, amount);
      BurnExact(l.Spend(from, sender, amount).value, g, sender, from, amount);
    case AdminBurn(from, amount) => BurnExact(l, g, sender, from, amount);
    case Mint(to, amount) => MintExact(l, g, sender, to, amount);
  }

  // ---------------------------------------------------------------- which token calls succeed

  /** Whose tokens the call takes, 0 when it creates them. */
  function Giver(sender: Address, op: Op): Address {
    match op
    case Transfer(_, _) => sender
    case Burn(_) => sender
    case TransferFrom(from, _, _) => from
    case BurnFrom(from, _) => from
    case AdminBurn(from, _) => from
    case _ => 0
  }

  /** Who gets the tokens, 0 when they are destroyed. */
  function Taker(op: Op): Address {
    match op
    case Transfer(to, _) => to
    case TransferFrom(_, to, _) => to
    case Mint(to, _) => to
    case _ => 0
  }

  predicate Burns(op: Op) { op.Burn? || op.BurnFrom? || op.AdminBurn? }

  /** Everyone the hook looks at: giver and taker, if any, and a sender who is neither. */
  function Parties(sender: Address, from: Address, to: Address): set<Address> {
    ({from, to} - {0}) + if sender in {from, to} then {} else {sender}
  }

  /** The hook passes exactly when the token is not paused and no party is blocked or sanctioned, and each
      is a contract or verified for a valid term. */
  lemma HookExactly(g: Gate, sender: Address, from: Address, to: Address)
    ensures g.HookPasses(sender, from, to) <==>
            && !g.paused
            && Parties(sender, from, to) !! g.blocked
            && Parties(sender, from, to) !! g.sanctioned
            && forall a | a in Parties(sender, from, to) ::
                 || a in g.contracts
                 || exists i | 0 <= i < |g.allowlist.validIndexes| ::
                      g.allowlist.Verified(a, g.allowlist.validIndexes[i])
  {
    var all := Parties(sender, from, to);
    assert g.HookPasses(sender, from, to) <==> !g.paused && forall a | a in all :: g.Cleared(a);
    if forall a | a in all :: g.Cleared(a) {
    } else {
      var a :| a in all && !g.Cleared(a);
      assert a in g.blocked || a in g.sanctioned || !g.allowlist.IsAllowed(g.contracts, a);
    }
  }

  /** Exactly when a token call succeeds: the role of mints and admin burns, no zero account, a passing hook,
      the allowance of the From calls, a sufficient balance, and no overflow. */
  lemma StepSucceedsExactly(l: Ledger, g: Gate, sender: Address, hasRole: bool, op: Op)
    ensures var from, to := Giver(sender, op), Taker(op);
            TryStep(l, g, sender, hasRole, op).Some? <==>
            if op.Approve? then sender != 0 && op.spender != 0
            else
              && (op.AdminBurn? || op.Mint? ==> hasRole)
              && (op.Mint? || from != 0) && (Burns(op) || to != 0)
              && g.HookPasses(sender, from, to)
              && (op.TransferFrom? || op.BurnFrom? ==>
                    l.Allowance(from, sender) == MAX_UINT256 || op.amount <= l.Allowance(from, sender))
              && (!op.Mint? ==> op.amount <= l.Bal(from))
              && (Burns(op) ==> op.amount <= l.supply)
              && (op.Mint? ==> l.supply + op.amount < TWO_256)
              && (!Burns(op) && to != from ==> l.Bal(to) + op.amount < TWO_256)
  {
    hide Gate.HookPasses, Ledger.Move, Ledger.Spend;
    match op
    case Transfer(to, amount) => MoveSucceedsExactly(l, sender, to, amount);
    case TransferFrom(from, to, amount) =>
      SpendExactly(l, from, sender, amount);
      if l.Spend(from, sender, amount).Some? {
        MoveSucceedsExactly(l.Spend(from, sender, amount).value, from, to, amount);
      }
    case BurnFrom(from, amount) => SpendExactly(l, from, sender, amount);
    case _ =>
  }

  lemma MoveSucceedsExactly(l: Ledger, from: Address, to: Address, amount: uint256)
    ensures l.Move(from, to, amount).Some? <==>
            amount <= l.Bal(from) && (to != from ==> l.Bal(to) + amount < TWO_256)
  {}

  lemma SpendExactly(l: Ledger, owner: Address, spender: Address, amount: uint256)
    ensures l.Spend(owner, spender, amount).Some? <==>
            l.Allowance(owner, spender) == MAX_UINT256 || amount <= l.Allowance(owner, spender)
    ensures l.Spend(owner, spender, amount).Some? ==>
              var next := l.Spend(owner, spender, amount).value;
              && (forall a :: next.Bal(a) == l.Bal(a)) && next.supply == l.supply
  {}

  /** Allowances after a successful token call: approve sets one, the From calls use one up unless it is
      2^256 - 1, and nothing else changes any. */
  lemma StepAllowancesExactly(l: Ledger, g: Gate, sender: Address, hasRole: bool, op: Op)
    requires TryStep(l, g, sender, hasRole, op).Some?
    ensures forall owner, spender ::
              TryStep(l, g, sender, hasRole, op).value.Allowance(owner, spender) ==
              if op.Approve? && owner == sender && spender == op.spender then op.amount
              else if (op.TransferFrom? || op.BurnFrom?) && owner == op.from && spender == sender
                      && l.Allowance(owner, spender) != MAX_UINT256
              then l.Allowance(owner, spender) - op.amount
              else l.Allowance(owner, spender)
  {
    hide Gate.HookPasses;
  }

  function Outgoing(sender: Address, op: Op, a: Address): nat {
    match op
    case Transfer(_, amount) => if a == sender then amount else 0
    case TransferFrom(from, _, amount) => if a == from then amount else 0
    case Burn(amount) => if a == sender then amount else 0
    case BurnFrom(from, amount) => if a == from then amount else 0
    case AdminBurn(from, amount) => if a == from then amount else 0
    case _ => 0
  }

  function Incoming(op: Op, a: Address): nat {
    match op
    case Transfer(to, amount) => if a == to then amount else 0
    case TransferFrom(_, to, amount) => if a == to then amount else 0
    case Mint(to, amount) => if a == to then amount else 0
    case _ => 0
  }

  /** A frozen account can neither give, receive, nor move other people's tokens, not even none. */
  lemma FrozenCannotTakePart(l: Ledger, g: Gate, sender: Address, hasRole: bool, op: Op, a: Address)
    requires Frozen(g, a) && !op.Approve?
    requires a == sender || (op.Transfer? && a == op.to) || (op.TransferFrom? && (a == op.to || a == op.from))
             || ((op.BurnFrom? || op.AdminBurn?) && a == op.from) || (op.Mint? && a == op.to)
    ensures TryStep(l, g, sender, hasRole, op).None?
  {
    hide Gate.Cleared;
  }

  /** No token call changes the balance of a frozen account. */
  lemma StepSparesFrozen(l: Ledger, g: Gate, sender: Address, hasRole: bool, op: Op, a: Address)
    requires Frozen(g, a) && TryStep(l, g, sender, hasRole, op).Some?
    ensures TryStep(l, g, sender, hasRole, op).value.Bal(a) == l.Bal(a)
  {}
}
