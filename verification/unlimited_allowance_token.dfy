/** The variant whose `transfer` checks the sender's balance before writing. */
module UnlimitedAllowanceToken {
  import opened Wrappers
  import opened Uint64
  import opened Ledger
  import opened Token

  /** The free helper `check_optional`: a missing entry reads as zero. */
  function CheckOptional(o: Option<U64>): (r: U64)
    ensures o.None? ==> r == 0
    ensures o.Some? ==> r == o.value
  {
    match o
    case Some(data) => data
    case None => 0
  }

  /** `get_balance_of(owner)`: the stored amount, zero for an unknown owner. */
  function GetBalanceOf(s: TokenState, owner: AccountId): (r: U64)
    ensures r == BalanceOf(s.balances, owner)
    ensures owner !in s.balances ==> r == 0
  {
    match Get(s.balances, owner)
    case Some(balance) => balance
    case None => 0
  }

  /** `transfer(to, amount)` called by `caller`.

      An insufficient balance returns `false` before anything is written.
      Otherwise both new amounts are computed from balances read before
      either write, then the sender's entry and the recipient's entry are
      written in that order; the credit is a checked `u64` addition that
      panics on overflow. When `caller == to` the second write overwrites
      the first, so the account ends `amount` richer. */
  function Transfer(s: TokenState, caller: AccountId, to: AccountId, amount: U64): (r: Outcome)
    ensures r == Completed(s, false) <==> amount > BalanceOf(s.balances, caller)
    ensures r.Panicked? <==>
      amount <= BalanceOf(s.balances, caller) && BalanceOf(s.balances, to) + amount >= Modulus
    ensures r.Completed? ==> (r.result <==> amount <= BalanceOf(s.balances, caller))
    ensures r.Completed? ==> SameMetadata(s, r.state)
    ensures r.Completed? && r.result ==>
      && OnlyKeysChanged(s.balances, r.state.balances, {caller, to})
      && caller in r.state.balances && to in r.state.balances
    ensures r.Completed? && r.result && caller != to ==>
      && BalanceOf(r.state.balances, caller) == BalanceOf(s.balances, caller) - amount
      && BalanceOf(r.state.balances, to) == BalanceOf(s.balances, to) + amount
    ensures r.Completed? && r.result && caller == to ==>
      BalanceOf(r.state.balances, caller) == BalanceOf(s.balances, caller) + amount
  {
    var fromBalance := CheckOptional(Get(s.balances, caller));
    if fromBalance < amount then Completed(s, false)
    else
      var toBalance := CheckOptional(Get(s.balances, to));
      // the guard above rules out an underflow of the debit
      var newFromBalance := fromBalance - amount;
      match CheckedAdd(toBalance, amount)
      case None => Panicked
      case Some(newToBalance) =>
        Completed(s.(balances := s.balances[caller := newFromBalance][to := newToBalance]), true)
  }

  /** A failed transfer leaves the whole state as it was and reports `false`;
      a transfer that completes reports `false` only when it failed. */
  lemma FailedTransferChangesNothing(s: TokenState, caller: AccountId, to: AccountId, amount: U64)
    requires amount > BalanceOf(s.balances, caller)
    ensures Transfer(s, caller, to, amount) == Completed(s, false)
    ensures Persisted(s, Transfer(s, caller, to, amount)) == s
  {
  }

  /** Between two distinct accounts a transfer moves value without creating
      or destroying any. */
  lemma TransferConservesSum(s: TokenState, caller: AccountId, to: AccountId, amount: U64)
    requires caller != to
    ensures Sum(Persisted(s, Transfer(s, caller, to, amount)).balances) == Sum(s.balances)
  {
    var r := Transfer(s, caller, to, amount);
    if r.Completed? && r.result {
      var m := s.balances;
      var m1 := m[caller := BalanceOf(m, caller) - amount];
      assert r.state.balances == m1[to := BalanceOf(m, to) + amount];
      SumInsert(m, caller, BalanceOf(m, caller) - amount);
      SumInsert(m1, to, BalanceOf(m, to) + amount);
    }
  }

  /** Under the conservation invariant, a transfer between distinct accounts
      cannot overflow: the recipient's balance plus the amount is bounded by
      the supply. */
  lemma DistinctTransferNeverPanics(s: TokenState, caller: AccountId, to: AccountId, amount: U64)
    requires SupplyConserved(s)
    requires caller != to
    ensures Transfer(s, caller, to, amount).Completed?
  {
    PairBelowSum(s.balances, caller, to);
  }

  /** The self-transfer defect: a successful `transfer` to oneself credits the
      account with `amount` out of nothing, raising the total by `amount`. */
  lemma SelfTransferMints(s: TokenState, a: AccountId, amount: U64)
    requires amount <= BalanceOf(s.balances, a)
    requires BalanceOf(s.balances, a) + amount < Modulus
    ensures Transfer(s, a, a, amount).Completed?
    ensures BalanceOf(Transfer(s, a, a, amount).state.balances, a) == BalanceOf(s.balances, a) + amount
    ensures Sum(Transfer(s, a, a, amount).state.balances) == Sum(s.balances) + amount
  {
    SumInsert(s.balances[a := BalanceOf(s.balances, a) - amount], a, BalanceOf(s.balances, a) + amount);
    SumInsert(s.balances, a, BalanceOf(s.balances, a) - amount);
  }
}
