/**
 * The sum of the balances held in one currency of the share ledger.
 *
 * The ledger stores balances in a map keyed by (account, currency); the
 * accounting invariant of the pallet is that, for every currency, the sum of
 * the balances stored under it equals that currency's total issuance. This
 * module defines that sum and proves how it reacts to writing one entry.
 */
module Supply {
  import opened Common

  type Key = (AccountId, CoreId)
  type Table = map<Key, Balance>

  /** What entry `k` contributes to the holdings of currency `c`. */
  function Weight(m: Table, k: Key, c: CoreId): nat
  {
    if k in m && k.1 == c then m[k] else 0
  }

  /** Sum of the entries of `m` whose key is in `ks` and whose currency is `c`. */
  ghost function SumOver(m: Table, ks: set<Key>, c: CoreId): nat
    requires ks <= m.Keys
    decreases ks
  {
    if ks == {} then 0
    else
      var k :| k in ks;
      Weight(m, k, c) + SumOver(m, ks - {k}, c)
  }

  /** Everything held in currency `c` across all accounts. */
  ghost function Holdings(m: Table, c: CoreId): nat
  {
    SumOver(m, m.Keys, c)
  }

  /** The sum can be split at any key, not only at the one the definition picks. */
  lemma {:induction false} SumOverPick(m: Table, ks: set<Key>, c: CoreId, k: Key)
    requires ks <= m.Keys && k in ks
    ensures SumOver(m, ks, c) == Weight(m, k, c) + SumOver(m, ks - {k}, c)
    decreases ks
  {
    var j :| j in ks && SumOver(m, ks, c) == Weight(m, j, c) + SumOver(m, ks - {j}, c);
    if j != k {
      SumOverPick(m, ks - {j}, c, k);
      SumOverPick(m, ks - {k}, c, j);
      assert ks - {j} - {k} == ks - {k} - {j};
    }
  }

  /** Two tables that agree on the currency-`c` entries of `ks` have the same sum over `ks`. */
  lemma {:induction false} SumOverFrame(m1: Table, m2: Table, ks: set<Key>, c: CoreId)
    requires ks <= m1.Keys && ks <= m2.Keys
    requires forall k :: k in ks ==> Weight(m1, k, c) == Weight(m2, k, c)
    ensures SumOver(m1, ks, c) == SumOver(m2, ks, c)
    decreases ks
  {
    if ks != {} {
      var k :| k in ks && SumOver(m1, ks, c) == Weight(m1, k, c) + SumOver(m1, ks - {k}, c);
      SumOverPick(m2, ks, c, k);
      SumOverFrame(m1, m2, ks - {k}, c);
    }
  }

  /**
   * Writing `v` at key `k` changes the holdings of `c` by exactly the
   * difference between the new and the old contribution of `k`; the
   * holdings of every other currency are untouched.
   */
  lemma UpdateHoldings(m: Table, k: Key, v: Balance, c: CoreId)
    ensures Holdings(m[k := v], c) + Weight(m, k, c) == Holdings(m, c) + Weight(m[k := v], k, c)
  {
    var m' := m[k := v];
    forall j | j in m.Keys - {k} ensures Weight(m, j, c) == Weight(m', j, c) {}
    SumOverFrame(m, m', m.Keys - {k}, c);
    SumOverPick(m', m'.Keys, c, k);
    if k in m {
      SumOverPick(m, m.Keys, c, k);
      assert m'.Keys - {k} == m.Keys - {k};
    } else {
      assert m'.Keys - {k} == m.Keys;
      assert m.Keys - {k} == m.Keys;
    }
  }

  /** No single stored balance exceeds the holdings of its currency. */
  lemma BalanceWithinHoldings(m: Table, k: Key)
    requires k in m
    ensures m[k] <= Holdings(m, k.1)
  {
    SumOverPick(m, m.Keys, k.1, k);
  }
}
