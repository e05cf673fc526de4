/** A transfer without the self-transfer defect: the debit is written before
    the recipient's balance is read, so a transfer to oneself leaves the
    balance as it was. On distinct accounts it is the checked transfer. */
module CorrectedTransfer {
  import opened Uint64
  import opened Ledger
  import opened Token
  import Checked = UnlimitedAllowanceToken

  function Transfer(s: TokenState, caller: AccountId, to: AccountId, amount: U64): (r: Outcome)
    ensures r == Completed(s, false) <==> amount > BalanceOf(s.balances, caller)
    ensures r.Completed? ==> (r.result <==> amount <= BalanceOf(s.balances, caller))
    ensures caller != to ==> r == Checked.Transfer(s, caller, to, amount)
    ensures caller == to && amount <= BalanceOf(s.balances, caller) ==> r.Completed? && r.result
    ensures r.Completed? ==>
      && SameMetadata(s, r.state)
      && OnlyKeysChanged(s.balances, r.state.balances, {caller, to})
    ensures r.Completed? && caller == to ==>
      forall a :: BalanceOf(r.state.balances, a) == BalanceOf(s.balances, a)
  {
    var fromBalance := BalanceOf(s.balances, caller);
    if fromBalance < amount then Completed(s, false)
    else
      var debited := s.balances[caller := fromBalance - amount];
      var toBalance := BalanceOf(debited, to);
      match CheckedAdd(toBalance, amount)
      case None => Panicked
      case Some(newToBalance) =>
        Completed(s.(balances := debited[to := newToBalance]), true)
  }

  /** Every transfer, to oneself included, conserves the total. */
  lemma ConservesSum(s: TokenState, caller: AccountId, to: AccountId, amount: U64)
    ensures Sum(Persisted(s, Transfer(s, caller, to, amount)).balances) == Sum(s.balances)
  {
    var r := Transfer(s, caller, to, amount);
    if r.Completed? && r.result {
      var m := s.balances;
      var debited := m[caller := BalanceOf(m, caller) - amount];
      SumInsert(m, caller, BalanceOf(m, caller) - amount);
      SumInsert(debited, to, BalanceOf(debited, to) + amount);
    }
  }

  /** Under the conservation invariant no transfer panics: a self-transfer
      restores the balance it debited, and a transfer between distinct
      accounts is bounded by the supply. */
  lemma NeverPanics(s: TokenState, caller: AccountId, to: AccountId, amount: U64)
    requires SupplyConserved(s)
    ensures Transfer(s, caller, to, amount).Completed?
  {
    if caller != to {
      Checked.DistinctTransferNeverPanics(s, caller, to, amount);
    }
  }
}
