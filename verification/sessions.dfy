/** Sequences of calls against one contract, as the host runs them: one call
    at a time, each starting from the state the previous one persisted. */
module Sessions {
  import opened Uint64
  import opened Ledger
  import opened Token
  import Checked = UnlimitedAllowanceToken
  import Unchecked = FungibleToken
  import Corrected = CorrectedTransfer

  /** Which `transfer` the contract runs. */
  datatype Variant = CheckedVariant | UncheckedVariant | CorrectedVariant

  /** One external call, with the caller identity the host supplies. */
  datatype Call =
    | InitCall(caller: AccountId, name: string, maxSupply: U64)
    | TransferCall(caller: AccountId, to: AccountId, amount: U64)

  function TransferOf(v: Variant, s: TokenState, caller: AccountId, to: AccountId, amount: U64): Outcome {
    match v
    case CheckedVariant => Checked.Transfer(s, caller, to, amount)
    case UncheckedVariant => Unchecked.Transfer(s, caller, to, amount)
    case CorrectedVariant => Corrected.Transfer(s, caller, to, amount)
  }

  function Step(v: Variant, s: TokenState, c: Call): TokenState {
    match c
    case InitCall(caller, name, maxSupply) => Init(s, caller, name, maxSupply)
    case TransferCall(caller, to, amount) => Persisted(s, TransferOf(v, s, caller, to, amount))
  }

  function Run(v: Variant, s: TokenState, calls: seq<Call>): TokenState
    decreases |calls|
  {
    if |calls| == 0 then s else Run(v, Step(v, s, calls[0]), calls[1..])
  }

  predicate IsSelfTransfer(c: Call) {
    c.TransferCall? && c.caller == c.to
  }

  predicate NoSelfTransfer(calls: seq<Call>) {
    forall i :: 0 <= i < |calls| ==> !IsSelfTransfer(calls[i])
  }

  /** The checked and the unchecked contract, fed the same calls, persist the
      same states. */
  lemma {:induction false} RunVariantsAgree(s: TokenState, calls: seq<Call>)
    ensures Run(CheckedVariant, s, calls) == Run(UncheckedVariant, s, calls)
    decreases |calls|
  {
    if |calls| > 0 {
      if calls[0].TransferCall? {
        Unchecked.PersistsLikeChecked(s, calls[0].caller, calls[0].to, calls[0].amount);
      }
      RunVariantsAgree(Step(CheckedVariant, s, calls[0]), calls[1..]);
    }
  }

  /** Once initialized, the creator, name, supply and flag never change again. */
  lemma {:induction false} RunKeepsMetadata(v: Variant, s: TokenState, calls: seq<Call>)
    requires s.initialized
    ensures SameMetadata(s, Run(v, s, calls))
    decreases |calls|
  {
    if |calls| > 0 {
      RunKeepsMetadata(v, Step(v, s, calls[0]), calls[1..]);
    }
  }

  lemma StepConservesSupply(v: Variant, s: TokenState, c: Call)
    requires SupplyConserved(s)
    requires v == CorrectedVariant || !IsSelfTransfer(c)
    ensures SupplyConserved(Step(v, s, c))
  {
    match c
    case InitCall(caller, name, maxSupply) =>
      InitConservesSupply(s, caller, name, maxSupply);
    case TransferCall(caller, to, amount) =>
      match v
      case CheckedVariant => Checked.TransferConservesSum(s, caller, to, amount);
      case UncheckedVariant => Unchecked.TransferConservesSum(s, caller, to, amount);
      case CorrectedVariant => Corrected.ConservesSum(s, caller, to, amount);
  }

  /** Conservation over any run: the corrected contract keeps the balances
      summing to the minted supply whatever the calls; the two contracts as
      written keep it as long as nobody transfers to themselves. */
  lemma {:induction false} RunConservesSupply(v: Variant, s: TokenState, calls: seq<Call>)
    requires SupplyConserved(s)
    requires v == CorrectedVariant || NoSelfTransfer(calls)
    ensures SupplyConserved(Run(v, s, calls))
    decreases |calls|
  {
    if |calls| > 0 {
      StepConservesSupply(v, s, calls[0]);
      RunConservesSupply(v, Step(v, s, calls[0]), calls[1..]);
    }
  }

  /** From deployment onward, the balances always sum to the minted supply,
      for the corrected contract on every run. */
  lemma DeployedRunConservesSupply(calls: seq<Call>)
    ensures SupplyConserved(Run(CorrectedVariant, Default(), calls))
  {
    DefaultConserved();
    RunConservesSupply(CorrectedVariant, Default(), calls);
  }
}
