/** The variant whose `transfer` performs no balance check. */
module FungibleToken {
  import opened Wrappers
  import opened Uint64
  import opened Ledger
  import opened Token
  import Checked = UnlimitedAllowanceToken

  /** `get_balance_of(owner)` as its `unwrap_or_default` lookup intends it:
      the stored amount, zero for an unknown owner. */
  function GetBalanceOf(s: TokenState, owner: AccountId): (r: U64)
    ensures r == BalanceOf(s.balances, owner)
    ensures r == Checked.GetBalanceOf(s, owner)
  {
    Get(s.balances, owner).GetOr(0)
  }

  /** `transfer(to, amount)` called by `caller`.

      Both balances are read first, then the debit and the credit are written
      in that order, each computed with checked `u64` arithmetic. There is no
      sufficiency test: an amount above the sender's balance makes the debit
      underflow and the call panics. Every call that completes returns `true`.
      As in the checked variant, `caller == to` ends `amount` richer. */
  function Transfer(s: TokenState, caller: AccountId, to: AccountId, amount: U64): (r: Outcome)
    ensures r.Completed? ==> r.result
    ensures r.Panicked? <==>
      amount > BalanceOf(s.balances, caller) || BalanceOf(s.balances, to) + amount >= Modulus
    ensures r.Completed? ==>
      && SameMetadata(s, r.state)
      && OnlyKeysChanged(s.balances, r.state.balances, {caller, to})
      && caller in r.state.balances && to in r.state.balances
    ensures r.Completed? && caller != to ==>
      && BalanceOf(r.state.balances, caller) == BalanceOf(s.balances, caller) - amount
      && BalanceOf(r.state.balances, to) == BalanceOf(s.balances, to) + amount
    ensures r.Completed? && caller == to ==>
      BalanceOf(r.state.balances, caller) == BalanceOf(s.balances, caller) + amount
  {
    var fromBalance := Get(s.balances, caller).GetOr(0);
    var toBalance := Get(s.balances, to).GetOr(0);
    match CheckedSub(fromBalance, amount)
    case None => Panicked
    case Some(newFromBalance) =>
      match CheckedAdd(toBalance, amount)
      case None => Panicked
      case Some(newToBalance) =>
        Completed(s.(balances := s.balances[caller := newFromBalance][to := newToBalance]), true)
  }

  /** When the sender can cover the amount, the unchecked transfer is exactly
      the checked one: same outcome, same state, including the panic on an
      overflowing credit and the self-transfer defect. */
  lemma AgreesWithCheckedWhenCovered(s: TokenState, caller: AccountId, to: AccountId, amount: U64)
    requires amount <= BalanceOf(s.balances, caller)
    ensures Transfer(s, caller, to, amount) == Checked.Transfer(s, caller, to, amount)
  {
  }

  /** On every input the two variants leave the host the same state; they
      differ only in reporting an uncovered amount, as `false` in the checked
      variant and as a panic here. */
  lemma PersistsLikeChecked(s: TokenState, caller: AccountId, to: AccountId, amount: U64)
    ensures Persisted(s, Transfer(s, caller, to, amount))
         == Persisted(s, Checked.Transfer(s, caller, to, amount))
    ensures amount > BalanceOf(s.balances, caller) ==>
      Transfer(s, caller, to, amount).Panicked? && !Checked.Transfer(s, caller, to, amount).result
  {
  }

  /** Between two distinct accounts the unchecked transfer conserves the total. */
  lemma TransferConservesSum(s: TokenState, caller: AccountId, to: AccountId, amount: U64)
    requires caller != to
    ensures Sum(Persisted(s, Transfer(s, caller, to, amount)).balances) == Sum(s.balances)
  {
    PersistsLikeChecked(s, caller, to, amount);
    Checked.TransferConservesSum(s, caller, to, amount);
  }

  /** The same self-transfer defect as the checked variant: the account is
      credited `amount` out of nothing. */
  lemma SelfTransferMints(s: TokenState, a: AccountId, amount: U64)
    requires amount <= BalanceOf(s.balances, a)
    requires BalanceOf(s.balances, a) + amount < Modulus
    ensures Transfer(s, a, a, amount).Completed?
    ensures BalanceOf(Transfer(s, a, a, amount).state.balances, a) == BalanceOf(s.balances, a) + amount
    ensures Sum(Transfer(s, a, a, amount).state.balances) == Sum(s.balances) + amount
  {
    AgreesWithCheckedWhenCovered(s, a, a, amount);
    Checked.SelfTransferMints(s, a, amount);
  }
}
