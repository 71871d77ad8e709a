/**
 * The miner node's mempool (network/miner/mempool.py): a set of pending
 * transactions. Iterating a Python set visits its elements in an order the
 * program does not control, so listing and selection first enumerate the set
 * in some order, and `select_transactions` then sorts by tip, largest
 * first. Logging is left out.
 */
module NodeMempool {
  import opened PyText
  import opened Ledger
  import Sorting

  /** `BlockSettings.MAX_TRANSACTIONS`, the default selection size. */
  const MaxTransactions: int := 1024

  predicate Distinct(s: seq<Tx>)
  {
    forall i, j :: 0 <= i < j < |s| ==> s[i] != s[j]
  }

  function Tip(): Tx -> int
  {
    (t: Tx) => t.tip
  }

  /** In a sequence without repeats every element occurs once. */
  lemma {:induction false} DistinctCounts(a: seq<Tx>, x: Tx)
    requires Distinct(a)
    ensures multiset(a)[x] <= 1
  {
    if |a| > 0 {
      var p := a[..|a| - 1];
      assert a == p + [a[|a| - 1]];
      assert Distinct(p);
      DistinctCounts(p, x);
      if x == a[|a| - 1] {
        assert x !in p by {
          forall i | 0 <= i < |p| ensures p[i] != x {
            assert p[i] == a[i];
          }
        }
      }
    }
  }

  /** A permutation of a sequence without repeats has no repeats. */
  lemma PermutationDistinct(a: seq<Tx>, s: seq<Tx>)
    requires Distinct(a) && multiset(s) == multiset(a)
    ensures Distinct(s)
  {
    forall i, j | 0 <= i < j < |s| ensures s[i] != s[j] {
      DistinctCounts(a, s[i]);
      RepeatCounts(s, i, j);
    }
  }

  /** Two equal elements at different positions make a count of at least two. */
  lemma RepeatCounts(s: seq<Tx>, i: nat, j: nat)
    requires i < j < |s|
    ensures s[i] == s[j] ==> multiset(s)[s[i]] >= 2
  {
    if s[i] == s[j] {
      var x := s[i];
      assert s == s[..i] + [x] + s[i + 1..j] + [x] + s[j + 1..];
    }
  }

  class Mempool {
    var transactions: set<Tx>

    /** `Mempool()`: an empty pool. */
    constructor ()
      ensures transactions == {}
    {
      transactions := {};
    }

    /** `add_transactions`: each transaction not yet present is added. */
    method AddTransactions(txs: seq<Tx>)
      modifies this
      ensures transactions == old(transactions) + set t | t in txs
    {
      var k := 0;
      while k < |txs|
        invariant 0 <= k <= |txs|
        invariant transactions == old(transactions) + set t | t in txs[..k]
      {
        assert txs[..k + 1] == txs[..k] + [txs[k]];
        if txs[k] !in transactions {
          transactions := transactions + {txs[k]};
        }
        k := k + 1;
      }
      assert txs[..k] == txs;
    }

    /** `remove_transactions`: each listed transaction is discarded; absent ones are ignored. */
    method RemoveTransactions(txs: seq<Tx>)
      modifies this
      ensures transactions == old(transactions) - set t | t in txs
    {
      var k := 0;
      while k < |txs|
        invariant 0 <= k <= |txs|
        invariant transactions == old(transactions) - set t | t in txs[..k]
      {
        assert txs[..k + 1] == txs[..k] + [txs[k]];
        transactions := transactions - {txs[k]};
        k := k + 1;
      }
      assert txs[..k] == txs;
    }

    predicate HasTransaction(t: Tx)
      reads this
    {
      t in transactions
    }

    /** `get_all_transactions`: `list(set)`, every member once, in the set's own order. */
    method GetAllTransactions() returns (all: seq<Tx>)
      ensures Distinct(all) && |all| == |transactions|
      ensures forall t :: t in all <==> t in transactions
    {
      var rest := transactions;
      all := [];
      while rest != {}
        invariant rest <= transactions
        invariant Distinct(all) && (forall t :: t in all <==> t in transactions - rest)
        invariant |all| + |rest| == |transactions|
        decreases |rest|
      {
        var t :| t in rest;
        assert t !in all;
        all := all + [t];
        rest := rest - {t};
      }
      assert transactions - rest == transactions;
    }

    /**
     * `select_transactions(num_transactions)`: the pool sorted by tip, largest
     * first, cut to `num_transactions` (Python's `[:n]`, so a negative count
     * drops from the end). The selection has no repeats, comes from the pool,
     * and no transaction left in the pool has a larger tip than one selected.
     */
    method SelectTransactions(n: int) returns (selected: seq<Tx>)
      ensures Distinct(selected) && forall t :: t in selected ==> t in transactions
      ensures Sorting.SortedDesc(selected, Tip())
      ensures n >= 0 ==> |selected| == if n > |transactions| then |transactions| else n
      ensures n < 0 ==> |selected| == if |transactions| + n < 0 then 0 else |transactions| + n
      ensures forall t, i :: t in transactions && t !in selected && 0 <= i < |selected| ==> t.tip <= selected[i].tip
    {
      var all := GetAllTransactions();
      var sorted := Sorting.SortDesc(all, Tip());
      Sorting.SortDescSorted(all, Tip());
      PermutationDistinct(all, sorted);
      if n > |sorted| {
        selected := sorted;
      } else {
        selected := PyTake(sorted, n);
      }
      var k := |selected|;
      assert selected == sorted[..k];
      TopOfPool(transactions, all, sorted, k);
    }
  }

  /**
   * A prefix of the pool's listing sorted by tip, largest first, holds pool
   * members only, and every member left out has a tip no larger than a kept one.
   */
  lemma TopOfPool(pool: set<Tx>, all: seq<Tx>, sorted: seq<Tx>, k: nat)
    requires forall t :: t in all <==> t in pool
    requires multiset(sorted) == multiset(all) && Sorting.SortedDesc(sorted, Tip())
    requires Distinct(sorted) && k <= |sorted|
    ensures Distinct(sorted[..k]) && Sorting.SortedDesc(sorted[..k], Tip())
    ensures forall t :: t in sorted[..k] ==> t in pool
    ensures forall t, i :: t in pool && t !in sorted[..k] && 0 <= i < k ==> t.tip <= sorted[..k][i].tip
  {
    var selected := sorted[..k];
    assert forall i :: 0 <= i < k ==> selected[i] == sorted[i];
    forall t | t in selected ensures t in pool {
      assert t in multiset(sorted);
    }
    forall t, i | t in pool && t !in selected && 0 <= i < k ensures t.tip <= selected[i].tip {
      assert t in multiset(all);
      assert t in sorted;
      var j :| 0 <= j < |sorted| && sorted[j] == t;
      assert forall m :: 0 <= m < k ==> sorted[m] != t;
      assert selected[i] == sorted[i];
      assert Tip()(sorted[i]) >= Tip()(sorted[j]);
    }
  }

  /**
   * The module's own check: ten distinct transactions all go in, removing one
   * leaves nine, and selecting two returns two, the larger tip first.
   */
  method SampleCheck(txs: seq<Tx>) returns (added: int, afterRemove: int, picked: seq<Tx>)
    requires |txs| == 10 && Distinct(txs)
    ensures added == 10 && afterRemove == 9
    ensures |picked| == 2 && picked[0].tip >= picked[1].tip
  {
    var pool := new Mempool();
    pool.AddTransactions(txs);
    SetOfDistinct(txs);
    var all := pool.GetAllTransactions();
    added := |all|;
    pool.RemoveTransactions([txs[0]]);
    assert pool.transactions == (set t | t in txs) - {txs[0]};
    all := pool.GetAllTransactions();
    afterRemove := |all|;
    picked := pool.SelectTransactions(2);
  }

  /** A sequence without repeats has as many members as elements. */
  lemma {:induction false} SetOfDistinct(s: seq<Tx>)
    requires Distinct(s)
    ensures |set t | t in s| == |s|
  {
    if |s| > 0 {
      var p := s[..|s| - 1];
      var x := s[|s| - 1];
      assert Distinct(p);
      SetOfDistinct(p);
      assert x !in p by {
        forall i | 0 <= i < |p| ensures p[i] != x {
          assert p[i] == s[i];
        }
      }
      assert (set t | t in s) == (set t | t in p) + {x};
    }
  }
}
