/** The balances table: account identifiers (byte strings) mapped to `u64`
    amounts, the default-zero lookup over it, and the total of all entries. */
module Ledger {
  import opened Wrappers
  import opened Uint64

  newtype Byte = x: int | 0 <= x < 256

  /** An account as the host names it: the caller's identity bytes, or the
      bytes of a recipient name. Equality is byte-exact. */
  type AccountId = seq<Byte>

  /** `HashMap<Vec<u8>, u64>`. Entries are created on first write and are
      never removed; an absent entry reads as zero. */
  type Balances = map<AccountId, U64>

  /** `HashMap::get`. */
  function Get(m: Balances, a: AccountId): (r: Option<U64>)
    ensures r.Some? <==> a in m
    ensures r.Some? ==> r.value == m[a]
  {
    if a in m then Some(m[a]) else None
  }

  /** The balance of `a`: the stored amount, or zero for an unknown account. */
  function BalanceOf(m: Balances, a: AccountId): U64 {
    if a in m then m[a] else 0
  }

  /** `m'` differs from `m` at most at the keys in `keys`: every other key is
      present in both or in neither, with the same amount. */
  ghost predicate OnlyKeysChanged(m: Balances, m': Balances, keys: set<AccountId>) {
    && (forall a | a !in keys :: a in m' <==> a in m)
    && (forall a | a in m && a !in keys :: a in m' && m'[a] == m[a])
  }

  /** Some key of a non-empty map, chosen once so that `Sum` and the lemmas
      about it agree on the choice. */
  ghost function Pick<K>(m: map<K, nat>): (k: K)
    requires m != map[]
    ensures k in m
  {
    assert m.Keys != {};
    var k :| k in m.Keys; k
  }

  /** The sum of all amounts in a table. */
  ghost function Sum<K>(m: map<K, nat>): nat
    decreases |m.Keys|
  {
    if m == map[] then 0
    else
      var k := Pick(m);
      assert (m - {k}).Keys == m.Keys - {k};
      m[k] + Sum(m - {k})
  }

  /** Any one entry can be split off the sum. */
  lemma {:induction false} SumRemove<K>(m: map<K, nat>, k: K)
    requires k in m
    ensures Sum(m) == m[k] + Sum(m - {k})
    decreases |m.Keys|
  {
    var j := Pick(m);
    if j != k {
      assert (m - {j}).Keys == m.Keys - {j};
      assert (m - {k}).Keys == m.Keys - {k};
      SumRemove(m - {j}, k);
      SumRemove(m - {k}, j);
      assert m - {j} - {k} == m - {k} - {j};
    }
  }

  /** Overwriting one entry changes the sum by exactly the difference between
      the new amount and the old one (zero when the key was absent). */
  lemma SumInsert<K>(m: map<K, nat>, k: K, v: nat)
    ensures Sum(m[k := v]) + (if k in m then m[k] else 0) == Sum(m) + v
  {
    SumRemove(m[k := v], k);
    assert m[k := v] - {k} == m - {k};
    if k in m {
      SumRemove(m, k);
    } else {
      assert m - {k} == m;
    }
  }

  /** The balances of two distinct accounts together never exceed the total. */
  lemma PairBelowSum(m: Balances, a: AccountId, b: AccountId)
    requires a != b
    ensures BalanceOf(m, a) + BalanceOf(m, b) <= Sum(m)
  {
    if a in m {
      SumRemove(m, a);
      if b in m {
        SumRemove(m - {a}, b);
      }
    } else if b in m {
      SumRemove(m, b);
    }
  }

  /** A table whose total is zero holds zero for every account. */
  lemma ZeroSumMeansAllZero(m: Balances, a: AccountId)
    requires Sum(m) == 0
    ensures BalanceOf(m, a) == 0
  {
    if a in m {
      SumRemove(m, a);
    }
  }
}
