# Single-token balance ledger

A Dafny model of the NEAR fungible-token contract in two near-identical variants:

- `UnlimitedAllowanceToken` (src/unlimited_allowance_token.rs), whose `transfer` checks the sender's balance first.
- `FungibleToken` (src/fungible_token.rs), whose `transfer` does not.

Both keep the same record: a `HashMap<Vec<u8>, u64>` of balances, plus `creator`, `name`, `max_supply` and `initialized`. Both have the same one-shot `init`, which mints the whole supply to its caller.

The model is functional. A contract state is an immutable `Token.TokenState`. Every entry point is a pure function of that state and of the caller's identity. The host would otherwise supply that identity through `ENV.originator_id()`.

Rust's `u64` is the subset type `Uint64.U64`. Each `+` and `-` the contract performs is checked arithmetic: an overflow or underflow panics. A call outcome (`Token.Outcome`) is therefore either `Completed(state, result)` or `Panicked`. The host keeps the pre-call state after a panic (`Token.Persisted`).

Modules:

- `Wrappers`: `Option`, for `HashMap::get`.
- `Uint64`: the width, plus checked `+` and `-`.
- `Ledger`: account ids as byte strings, the default-zero lookup, the sum of all balances (ghost), and the frame predicate `OnlyKeysChanged`.
- `Token`: the shared record, `init`, call outcomes, and the conservation invariant `SupplyConserved`. This invariant says the balances sum to 0 before `init` and to `max_supply` afterwards.
- `UnlimitedAllowanceToken`, `FungibleToken`: each variant's `check_optional`, `get_balance_of` and `transfer`, with their properties.
- `CorrectedTransfer`: a transfer without the self-transfer defect (see Findings).
- `Sessions`: runs of calls, one at a time, against one contract. It holds the conservation, agreement and immutability properties over whole runs.
- `Scenarios`: the `setupAndTransferToken` tests of both files as concrete lemmas, plus the counterexamples behind the findings.

The model follows the code where it departs from what a ledger would be expected to do:

- A self-transfer would be expected to leave the balance unchanged. The code credits the account with `amount`.
- A `transfer` returning `bool` would be expected to report an uncovered amount as `false`. The unchecked variant panics instead.

## Model

| member | source | states |
|---|---|---|
| Uint64.CheckedAdd | src/unlimited_allowance_token.rs:51 | the `u64` credit succeeds exactly when the true sum fits in 64 bits, and then yields that sum; otherwise it panics rather than wraps |
| Uint64.CheckedSub | src/fungible_token.rs:39 | the `u64` debit succeeds exactly when the amount does not exceed the balance, and then yields the difference; otherwise it panics rather than wraps |
| Ledger.Get | src/unlimited_allowance_token.rs:41 | `HashMap::get` yields a value exactly for stored keys, namely the stored amount |
| Wrappers.Option.GetOr | src/fungible_token.rs:36 | `unwrap_or_default` yields the stored value when there is one and the default (zero) otherwise |
| Token.Default | src/unlimited_allowance_token.rs:7-14 | the derived default state is uninitialized, with empty creator and name, zero supply and every balance zero (same derive at src/fungible_token.rs:7-14) |
| Token.Init | src/unlimited_allowance_token.rs:18-27 | a first `init` makes the caller the creator, records name and supply, gives the creator exactly the supply, touches no other balance and raises the flag; on an initialized state it returns the state unchanged (identical code at src/fungible_token.rs:18-27) |
| Token.InitIsOneShot | src/fungible_token.rs:18-27 | a second `init`, by any caller with any arguments, leaves the state of the first in effect |
| Token.InitConservesSupply | src/unlimited_allowance_token.rs:24 | `init` preserves the conservation invariant; the first `init` leaves the balances summing to exactly `max_supply` |
| UnlimitedAllowanceToken.CheckOptional | src/unlimited_allowance_token.rs:59-64 | an absent entry reads as 0, a present one as its value |
| UnlimitedAllowanceToken.GetBalanceOf | src/unlimited_allowance_token.rs:29-37 | the query agrees with the default-zero lookup on every account, and is 0 for unknown owners |
| UnlimitedAllowanceToken.Transfer | src/unlimited_allowance_token.rs:39-56 | returns `false` with the state untouched exactly when the amount exceeds the sender's balance; panics exactly when a covered credit overflows; a completed call returns `true` exactly when the amount is covered, and then keeps creator/name/supply/flag, writes only the sender's and recipient's entries, moves `amount` between distinct accounts and credits a self-transfer with `amount` |
| UnlimitedAllowanceToken.FailedTransferChangesNothing | src/unlimited_allowance_token.rs:43-45 | an uncovered transfer reports `false` and the persisted state is the pre-call state |
| UnlimitedAllowanceToken.TransferConservesSum | src/unlimited_allowance_token.rs:50-53 | between distinct accounts, the sum of all balances after the call equals the sum before |
| UnlimitedAllowanceToken.DistinctTransferNeverPanics | src/unlimited_allowance_token.rs:51 | while balances sum to the supply, a transfer between distinct accounts cannot overflow the credit |
| UnlimitedAllowanceToken.SelfTransferMints | src/unlimited_allowance_token.rs:47-53 | a covered self-transfer completes with the account `amount` richer and the total raised by `amount` |
| FungibleToken.GetBalanceOf | src/fungible_token.rs:29-32 | the intended `unwrap_or_default` query agrees with the default-zero lookup and with the checked variant's query |
| FungibleToken.Transfer | src/fungible_token.rs:34-42 | every completed call returns `true`; it panics exactly when the amount exceeds the sender's balance or the credit overflows; a completed call keeps the metadata, writes only the two entries, moves `amount` between distinct accounts and credits a self-transfer with `amount` |
| FungibleToken.AgreesWithCheckedWhenCovered | src/fungible_token.rs:36-40 | when the sender covers the amount, the unchecked transfer gives the same outcome and state as the checked one |
| FungibleToken.PersistsLikeChecked | src/fungible_token.rs:34-41 | on every input both variants persist the same state; an uncovered amount is a panic here and `false` there |
| FungibleToken.TransferConservesSum | src/fungible_token.rs:39-40 | between distinct accounts the sum of all balances is unchanged |
| FungibleToken.SelfTransferMints | src/fungible_token.rs:36-40 | a covered self-transfer completes with the account `amount` richer and the total raised by `amount` |
| CorrectedTransfer.Transfer | src/unlimited_allowance_token.rs:39-56 | coincides with the checked transfer on distinct accounts; a covered self-transfer completes with `true` and leaves every balance as it was; a completed call returns `true` exactly when the amount is covered; failure is `false` with the state untouched |
| CorrectedTransfer.ConservesSum | src/unlimited_allowance_token.rs:50-53 | every transfer, self-transfers included, keeps the sum of all balances |
| CorrectedTransfer.NeverPanics | src/unlimited_allowance_token.rs:51 | while balances sum to the supply, no transfer panics |
| Sessions.RunVariantsAgree | src/fungible_token.rs:34-42 | the two variants, given the same sequence of calls, persist the same state |
| Sessions.RunKeepsMetadata | src/unlimited_allowance_token.rs:19 | after initialization no sequence of calls changes creator, name, supply or flag |
| Sessions.RunConservesSupply | src/unlimited_allowance_token.rs:18-56 | any run without self-transfers keeps the balances summing to the minted supply; with the corrected transfer, every run does |
| Sessions.DeployedRunConservesSupply | src/unlimited_allowance_token.rs:24 | from a freshly deployed contract, every run of the corrected contract keeps the sum equal to the supply minted at `init` |
| Scenarios.CheckedSetupAndTransfer | src/unlimited_allowance_token.rs:67-96 | alice's `init` of 1 000 000 sets all four fields; after sending 100 to bob, alice holds 999 900 and bob holds 100 |
| Scenarios.UncheckedSetupAndTransfer | src/fungible_token.rs:47-76 | the same scenario through the unchecked transfer gives the same balances |
| Scenarios.SelfTransferCounterexample | src/unlimited_allowance_token.rs:47-53 | after `init` of 100 and a self-transfer of 40, alice holds 140 and the invariant is broken; with the corrected transfer she holds 100 and it holds |
| Scenarios.UncoveredTransferCounterexample | src/fungible_token.rs:34-41 | an account holding nothing that sends 1 gets `false` from the checked variant and a panic from the unchecked one |

## Left out

- The host environment (`ENV.originator_id()`, `near_bindgen` dispatch) is not modelled. The caller's identity is an explicit parameter of `init` and `transfer`, and `Sessions` plays the host's one-call-at-a-time dispatch.
- `MockedEnvironment` and the serde state persistence are host I/O, not ledger logic. `Token.Persisted` stands for what the host keeps after a call.
- No allowance or delegated spending exists in either file despite the file name, so there is nothing to model.
- The conversion `String::into_bytes` (UTF-8 encoding of a recipient name) is not modelled. Recipients are given as `AccountId` bytes directly.
- Rust references (`&u64` return values) are not modelled. Only value-level behaviour is.
- `FungibleToken.GetBalanceOf`: the source body computes `unwrap_or_default()` but has no return expression (src/fungible_token.rs:31-32), so the file does not compile as written. The model gives the lookup its evident meaning, as the test at src/fungible_token.rs:64-65 and 73-75 expects.
- Arithmetic follows Rust with overflow checks enabled: an overflow or underflow panics and the host discards the call. A build without overflow checks would wrap instead; that mode is not modelled.
- Concurrency is not modelled: the host serialises calls.

## Findings

| source | as written | input that shows it | evidently intended | confidence | as-written member | corrected member |
|---|---|---|---|---|---|---|
| src/unlimited_allowance_token.rs:47-53 | both new balances are computed from reads taken before either insert, so when `to` is the caller the credit overwrites the debit | alice holds 100 of a supply of 100 and calls `transfer("alice", 40)`: she ends with 140 and the balances sum to 140 | a self-transfer leaves the balance, and so the total supply, unchanged | high; not executed | Scenarios.SelfTransferCounterexample | CorrectedTransfer.ConservesSum |
| src/fungible_token.rs:36-40 | the same two stale reads and overwriting insert | as above: alice ends with 140 | as above | high; not executed | FungibleToken.SelfTransferMints | CorrectedTransfer.Transfer |
| src/fungible_token.rs:34-41 | no sufficiency test: an uncovered amount underflows the debit. With overflow checks the call panics even though `transfer` returns `bool`; in a build without overflow checks the debit wraps, so bob is left with 2^64 - 1, alice gains 1 and the call returns `true` | bob holds nothing and calls `transfer("alice", 1)` | report `false` and leave the state untouched, as the checked variant does | medium; not executed | Scenarios.UncoveredTransferCounterexample | UnlimitedAllowanceToken.FailedTransferChangesNothing |

`Sessions` runs the contract with any of the three transfers. The conservation result for every run, `Sessions.DeployedRunConservesSupply`, is stated for the corrected one. The two as-written variants keep their defects, and their conservation results carry the no-self-transfer condition.
