/** The contract state both token variants share, its one-shot `init`, and
    the outcome of a call as the host sees it. */
module Token {
  import opened Uint64
  import opened Ledger

  /** The persisted contract record. Both variants declare the same five
      fields. */
  datatype TokenState = TokenState(
    balances: Balances,
    creator: AccountId,
    name: string,
    maxSupply: U64,
    initialized: bool)

  /** The state a freshly deployed contract starts from (`#[derive(Default)]`). */
  function Default(): (r: TokenState)
    ensures !r.initialized
    ensures r.creator == [] && r.name == "" && r.maxSupply == 0
    ensures forall a :: BalanceOf(r.balances, a) == 0
  {
    TokenState(map[], [], "", 0, false)
  }

  /** `t` carries the same creator, name, supply and flag as `s`. */
  predicate SameMetadata(s: TokenState, t: TokenState) {
    && t.creator == s.creator
    && t.name == s.name
    && t.maxSupply == s.maxSupply
    && t.initialized == s.initialized
  }

  /** `init(name, max_supply)` called by `caller`. The first call makes the
      caller the creator, records the name and supply, mints the whole supply
      to the creator and raises the flag; every later call changes nothing. */
  function Init(s: TokenState, caller: AccountId, name: string, maxSupply: U64): (r: TokenState)
    ensures r.initialized
    ensures s.initialized ==> r == s
    ensures !s.initialized ==>
      && r.creator == caller
      && r.name == name
      && r.maxSupply == maxSupply
      && BalanceOf(r.balances, caller) == maxSupply
      && OnlyKeysChanged(s.balances, r.balances, {caller})
  {
    if s.initialized then s
    else
      s.(creator := caller,
         name := name,
         maxSupply := maxSupply,
         balances := s.balances[caller := maxSupply],
         initialized := true)
  }

  /** Once initialized, no further `init`, whoever calls it and with whatever
      arguments, alters the state. */
  lemma InitIsOneShot(s: TokenState, c1: AccountId, n1: string, m1: U64,
                      c2: AccountId, n2: string, m2: U64)
    ensures Init(Init(s, c1, n1, m1), c2, n2, m2) == Init(s, c1, n1, m1)
  {
  }

  /** What a call did: it ran to completion with a new state and a returned
      flag, or it panicked on `u64` arithmetic. */
  datatype Outcome = Completed(state: TokenState, result: bool) | Panicked

  /** The state the host keeps after the call: a panic discards every write
      the call made. */
  function Persisted(s: TokenState, o: Outcome): TokenState {
    match o
    case Completed(t, _) => t
    case Panicked => s
  }

  /** The conservation invariant: before `init` no value exists, afterwards
      the balances add up to the supply minted at `init`. */
  ghost predicate SupplyConserved(s: TokenState) {
    Sum(s.balances) == if s.initialized then s.maxSupply else 0
  }

  lemma DefaultConserved()
    ensures SupplyConserved(Default())
  {
  }

  /** `init` keeps the invariant; the first `init` mints exactly the supply,
      since every balance written before it is zero. */
  lemma InitConservesSupply(s: TokenState, caller: AccountId, name: string, maxSupply: U64)
    requires SupplyConserved(s)
    ensures SupplyConserved(Init(s, caller, name, maxSupply))
    ensures !s.initialized ==> Sum(Init(s, caller, name, maxSupply).balances) == maxSupply
  {
    if !s.initialized {
      ZeroSumMeansAllZero(s.balances, caller);
      SumInsert(s.balances, caller, maxSupply);
    }
  }
}
