/** Concrete runs: the `setupAndTransferToken` scenario of both variants, and
    the smallest run that shows the self-transfer defect. */
module Scenarios {
  import opened Uint64
  import opened Ledger
  import opened Token
  import opened Sessions
  import Checked = UnlimitedAllowanceToken
  import Unchecked = FungibleToken
  import Corrected = CorrectedTransfer

  /** The identity bytes of "alice" and "bob". */
  const Alice: AccountId := [97, 108, 105, 99, 101]
  const Bob: AccountId := [98, 111, 98]

  /** alice initializes a 1 000 000 supply and sends 100 to bob through the
      checked `transfer`: alice keeps 999 900 and bob holds 100. */
  lemma CheckedSetupAndTransfer()
    ensures var s1 := Init(Default(), Alice, "test token", 1000000);
      && s1.creator == Alice && s1.maxSupply == 1000000
      && s1.initialized && s1.name == "test token"
      && Checked.GetBalanceOf(s1, Alice) == 1000000
      && var s2 := Persisted(s1, Checked.Transfer(s1, Alice, Bob, 100));
         && Checked.GetBalanceOf(s2, Alice) == 999900
         && Checked.GetBalanceOf(s2, Bob) == 100
  {
  }

  /** The same scenario through the unchecked `transfer`. */
  lemma UncheckedSetupAndTransfer()
    ensures var s1 := Init(Default(), Alice, "test token", 1000000);
      && s1.creator == Alice && s1.maxSupply == 1000000
      && s1.initialized && s1.name == "test token"
      && Unchecked.GetBalanceOf(s1, Alice) == 1000000
      && var s2 := Persisted(s1, Unchecked.Transfer(s1, Alice, Bob, 100));
         && Unchecked.GetBalanceOf(s2, Alice) == 999900
         && Unchecked.GetBalanceOf(s2, Bob) == 100
  {
  }

  /** alice initializes a supply of 100 and sends 40 to herself: as written,
      she ends with 140 and the balances no longer add up to the supply; with
      the corrected transfer she keeps 100 and the invariant holds. */
  lemma SelfTransferCounterexample()
    ensures var s := Run(CheckedVariant, Default(),
                         [InitCall(Alice, "test token", 100), TransferCall(Alice, Alice, 40)]);
      BalanceOf(s.balances, Alice) == 140 && Sum(s.balances) == 140 && !SupplyConserved(s)
    ensures var s := Run(CorrectedVariant, Default(),
                         [InitCall(Alice, "test token", 100), TransferCall(Alice, Alice, 40)]);
      BalanceOf(s.balances, Alice) == 100 && SupplyConserved(s)
  {
    var calls := [InitCall(Alice, "test token", 100), TransferCall(Alice, Alice, 40)];
    var s1 := Init(Default(), Alice, "test token", 100);
    assert s1.balances == map[Alice := 100];
    var rest := [TransferCall(Alice, Alice, 40)];
    assert calls[1..] == rest && rest[1..] == [];

    var s := Persisted(s1, Checked.Transfer(s1, Alice, Alice, 40));
    assert Run(CheckedVariant, Default(), calls) == Run(CheckedVariant, s1, rest);
    assert Run(CheckedVariant, s1, rest) == Run(CheckedVariant, s, []);
    assert s.balances == map[Alice := 140];
    SumRemove(s.balances, Alice);
    assert s.balances - {Alice} == map[];

    var t := Persisted(s1, Corrected.Transfer(s1, Alice, Alice, 40));
    assert Run(CorrectedVariant, Default(), calls) == Run(CorrectedVariant, s1, rest);
    assert Run(CorrectedVariant, s1, rest) == Run(CorrectedVariant, t, []);
    assert t.balances == map[Alice := 100];
    SumRemove(t.balances, Alice);
    assert t.balances - {Alice} == map[];
  }

  /** bob, holding nothing, sends 1 to alice: the checked variant answers
      `false`, the unchecked one underflows its debit and panics. */
  lemma UncoveredTransferCounterexample()
    ensures var s := Init(Default(), Alice, "test token", 100);
      && Checked.Transfer(s, Bob, Alice, 1) == Completed(s, false)
      && Unchecked.Transfer(s, Bob, Alice, 1).Panicked?
  {
  }
}
