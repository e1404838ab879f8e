/** Who has agreed to which terms, and who may therefore hold the token
    (contracts/usdy/allowlist/AllowlistUpgradeable.sol). */
module Allowlist {
  import opened Words

  datatype State = State(
    terms: seq<string>, currentTermIndex: nat, validIndexes: seq<nat>, verifications: map<(Address, nat), bool>)
  {
    predicate Verified(account: Address, term: nat) {
      (account, term) in verifications && verifications[(account, term)]
    }

    /** A contract, or an account verified for some valid term. */
    predicate IsAllowed(contracts: set<Address>, account: Address) {
      account in contracts || exists i | 0 <= i < |validIndexes| :: Verified(account, validIndexes[i])
    }
  }

  function TrySetCurrentTermIndex(s: State, index: nat): Option<State> {
    var _ :- Require(index < |s.terms|);
    Some(s.(currentTermIndex := index))
  }

  function TryAddTerm(s: State, term: string): Option<State> {
    TrySetCurrentTermIndex(s.(terms := s.terms + [term]), |s.terms|)
  }

  function TrySetValidTermIndexes(s: State, indexes: seq<nat>): Option<State> {
    var _ :- Require(forall i | 0 <= i < |indexes| :: indexes[i] < |s.terms|);
    Some(s.(validIndexes := indexes))
  }

  function TrySetStatus(s: State, account: Address, term: nat, status: bool): Option<State> {
    var _ :- Require(term < |s.terms|);
    Some(s.(verifications := s.verifications[(account, term) := status]))
  }

  /** addSelfToAllowlist, and addAccountToAllowlist once the signature is known to be (or not to be)
      the account's own over the text of the term. */
  function TryAgree(s: State, account: Address, term: nat, agreed: bool): Option<State> {
    var _ :- Require(!s.Verified(account, term) && agreed);
    TrySetStatus(s, account, term, true)
  }

  class AllowlistUpgradeable {
    var terms: seq<string>
    var currentTermIndex: nat
    var validIndexes: seq<nat>
    var verifications: map<(Address, nat), bool>

    function View(): State
      reads this
    {
      State(terms, currentTermIndex, validIndexes, verifications)
    }

    constructor ()
      ensures View() == State([], 0, [], map[])
    {
      terms, currentTermIndex, validIndexes, verifications := [], 0, [], map[];
    }

    method SetCurrentTermIndex(index: nat) returns (ok: bool)
      modifies this
      ensures Transacts(ok, old(View()), View(), TrySetCurrentTermIndex(old(View()), index))
    {
      if index >= |terms| {
        return false;
      }
      currentTermIndex := index;
      return true;
    }

    method AddTerm(term: string) returns (ok: bool)
      modifies this
      ensures ok && TryAddTerm(old(View()), term) == Some(View())
    {
      terms := terms + [term];
      ok := SetCurrentTermIndex(|terms| - 1);
    }

    method SetValidTermIndexes(indexes: seq<nat>) returns (ok: bool)
      modifies this
      ensures Transacts(ok, old(View()), View(), TrySetValidTermIndexes(old(View()), indexes))
    {
      for i := 0 to |indexes|
        invariant forall j | 0 <= j < i :: indexes[j] < |terms|
        invariant View() == old(View())
      {
        if indexes[i] >= |terms| {
          return false;
        }
      }
      validIndexes := indexes;
      return true;
    }

    method SetAccountStatus(account: Address, term: nat, status: bool) returns (ok: bool)
      modifies this
      ensures Transacts(ok, old(View()), View(), TrySetStatus(old(View()), account, term, status))
    {
      if term >= |terms| {
        return false;
      }
      verifications := verifications[(account, term) := status];
      return true;
    }

    method AddToAllowlist(account: Address, term: nat, agreed: bool) returns (ok: bool)
      modifies this
      ensures Transacts(ok, old(View()), View(), TryAgree(old(View()), account, term, agreed))
    {
      if View().Verified(account, term) || !agreed {
        return false;
      }
      ok := SetAccountStatus(account, term, true);
    }

    /** The scan answers exactly the allowlist question. */
    method IsAllowed(contracts: set<Address>, account: Address) returns (allowed: bool)
      ensures allowed <==> View().IsAllowed(contracts, account)
    {
      if account in contracts {
        return true;
      }
      for i := 0 to |validIndexes|
        invariant forall j | 0 <= j < i :: !View().Verified(account, validIndexes[j])
      {
        if View().Verified(account, validIndexes[i]) {
          return true;
        }
      }
      return false;
    }
  }

  // ---------------------------------------------------------------- runs

  datatype Op =
    | AddTerm(term: string)
    | SetCurrentTermIndex(index: nat)
    | SetValidTermIndexes(indexes: seq<nat>)
    | SetAccountStatus(account: Address, termIndex: nat, status: bool)
    | AddToAllowlist(who: Address, agreedTerm: nat, agreed: bool)

  function TryStep(s: State, op: Op): Option<State> {
    match op
    case AddTerm(term) => TryAddTerm(s, term)
    case SetCurrentTermIndex(index) => TrySetCurrentTermIndex(s, index)
    case SetValidTermIndexes(indexes) => TrySetValidTermIndexes(s, indexes)
    case SetAccountStatus(account, term, status) => TrySetStatus(s, account, term, status)
    case AddToAllowlist(account, term, agreed) => TryAgree(s, account, term, agreed)
  }

  function Run(s: State, ops: seq<Op>): State {
    if ops == [] then s
    else
      var before := Run(s, ops[..|ops| - 1]);
      match TryStep(before, ops[|ops| - 1])
      case Some(next) => next
      case None => before
  }

  /** Exactly when each step succeeds: indexes must name terms, and an account agrees, by its own call or
      signature, only to a term it is not verified for yet. */
  lemma StepsSucceedExactly(s: State, op: Op)
    ensures TryStep(s, op).Some? <==>
            match op
            case AddTerm(_) => true
            case SetCurrentTermIndex(index) => index < |s.terms|
            case SetValidTermIndexes(indexes) => forall i | 0 <= i < |indexes| :: indexes[i] < |s.terms|
            case SetAccountStatus(_, term, _) => term < |s.terms|
            case AddToAllowlist(account, term, agreed) =>
              agreed && term < |s.terms| && ((account, term) in s.verifications ==> !s.verifications[(account, term)])
  {}

  /** What a successful step changes. */
  lemma StepsChangeExactly(s: State, op: Op)
    requires TryStep(s, op).Some?
    ensures var next := TryStep(s, op).value;
            && next.terms == (if op.AddTerm? then s.terms + [op.term] else s.terms)
            && next.validIndexes == (if op.SetValidTermIndexes? then op.indexes else s.validIndexes)
            && next.currentTermIndex ==
                 (if op.AddTerm? then |s.terms| else if op.SetCurrentTermIndex? then op.index else s.currentTermIndex)
            && forall account, term :: next.Verified(account, term) <==>
                 if op.SetAccountStatus? && account == op.account && term == op.termIndex then op.status
                 else s.Verified(account, term) || (op.AddToAllowlist? && account == op.who && term == op.agreedTerm)
  {}

  const EMPTY: State := State([], 0, [], map[])

  /** A step that sets the status of the account for the term, when it succeeds. */
  predicate SetsStatus(op: Op, account: Address, term: nat) {
    match op
    case SetAccountStatus(a, t, _) => a == account && t == term
    case AddToAllowlist(a, t, _) => a == account && t == term
    case _ => false
  }

  /** Position of the last successful step of the run that set the status, -1 if there is none. */
  function LastChange(ops: seq<Op>, account: Address, term: nat): (k: int)
    ensures -1 <= k < |ops|
    ensures k >= 0 ==> SetsStatus(ops[k], account, term)
  {
    if ops == [] then -1
    else
      var init, op := ops[..|ops| - 1], ops[|ops| - 1];
      if SetsStatus(op, account, term) && TryStep(Run(EMPTY, init), op).Some? then |ops| - 1
      else LastChange(init, account, term)
  }

  /** The last successful change put the account on the list: it agreed, or the setter said so. */
  predicate AdmittedLast(ops: seq<Op>, account: Address, term: nat) {
    var k := LastChange(ops, account, term);
    k >= 0 && (ops[k].SetAccountStatus? ==> ops[k].status)
  }

  lemma {:induction false} VerifiedExactly(ops: seq<Op>, account: Address, term: nat)
    ensures Run(EMPTY, ops).Verified(account, term) <==> AdmittedLast(ops, account, term)
  {
    if ops == [] {
    } else {
      VerifiedExactly(ops[..|ops| - 1], account, term);
    }
  }

  lemma {:induction false} RunIndexes(ops: seq<Op>)
    ensures var s := Run(EMPTY, ops);
            && (forall i | 0 <= i < |s.validIndexes| :: s.validIndexes[i] < |s.terms|)
            && (s.terms != [] ==> s.currentTermIndex < |s.terms|)
  {
    if ops == [] {
    } else {
      RunIndexes(ops[..|ops| - 1]);
    }
  }

  /** In every run the current index and all valid indexes name existing terms, and an account is allowed
      exactly if it is a contract or, for some term valid now, the last successful change of its status
      admitted it. */
  lemma AllowedExactlyByAgreement(ops: seq<Op>, contracts: set<Address>, account: Address)
    ensures var s := Run(EMPTY, ops);
            && (forall i | 0 <= i < |s.validIndexes| :: s.validIndexes[i] < |s.terms|)
            && (s.terms != [] ==> s.currentTermIndex < |s.terms|)
            && (s.IsAllowed(contracts, account) <==>
                  account in contracts
                  || exists i | 0 <= i < |s.validIndexes| :: AdmittedLast(ops, account, s.validIndexes[i]))
  {
    hide AdmittedLast;
    RunIndexes(ops);
    var s := Run(EMPTY, ops);
    forall i | 0 <= i < |s.validIndexes|
      ensures s.Verified(account, s.validIndexes[i]) <==> AdmittedLast(ops, account, s.validIndexes[i])
    {
      VerifiedExactly(ops, account, s.validIndexes[i]);
    }
  }
}
