/**
 * The standalone miner's mempool (Miner/mempool.py): a list of transactions
 * of any type that has a `priority` and a `calculate_hash()`; both are
 * parameters of the pool.
 */
module MinerMempool {
  import opened Wrappers
  import opened PyText
  import Sorting

  /** The selection size of `select_transactions`. */
  const SelectionSize: int := 10

  /** The transactions whose hash is not in `processed`, in their original order. */
  function Unprocessed<T(==)>(txs: seq<T>, hashOf: T -> string, processed: set<string>): (r: seq<T>)
    ensures |r| <= |txs|
    ensures forall i :: 0 <= i < |r| ==> r[i] in txs && hashOf(r[i]) !in processed
    ensures forall i :: 0 <= i < |txs| && hashOf(txs[i]) !in processed ==> txs[i] in r
  {
    if |txs| == 0 then []
    else (if hashOf(txs[0]) in processed then [] else [txs[0]]) + Unprocessed(txs[1..], hashOf, processed)
  }

  /** Updating only removes: every kept transaction was in the pool, as often as it was there at most. */
  lemma {:induction false} UnprocessedIsSubsequence<T>(txs: seq<T>, hashOf: T -> string, processed: set<string>)
    ensures multiset(Unprocessed(txs, hashOf, processed)) <= multiset(txs)
  {
    if |txs| > 0 {
      UnprocessedIsSubsequence(txs[1..], hashOf, processed);
      assert txs == [txs[0]] + txs[1..];
    }
  }

  /** Filtering twice by the same hashes is filtering once. */
  lemma {:induction false} UnprocessedIdempotent<T>(txs: seq<T>, hashOf: T -> string, processed: set<string>)
    ensures Unprocessed(Unprocessed(txs, hashOf, processed), hashOf, processed) == Unprocessed(txs, hashOf, processed)
  {
    if |txs| > 0 {
      UnprocessedIdempotent(txs[1..], hashOf, processed);
      var rest := Unprocessed(txs[1..], hashOf, processed);
      if hashOf(txs[0]) !in processed {
        var kept := [txs[0]] + rest;
        assert kept[0] == txs[0] && kept[1..] == rest;
        assert Unprocessed(kept, hashOf, processed) == [txs[0]] + Unprocessed(rest, hashOf, processed);
      } else {
        assert Unprocessed(txs, hashOf, processed) == rest;
      }
    }
  }

  /** `{tx.calculate_hash() for tx in transactions}`. */
  function HashesOf<T(==)>(txs: seq<T>, hashOf: T -> string): (r: set<string>)
    ensures forall i :: 0 <= i < |txs| ==> hashOf(txs[i]) in r
    ensures forall h :: h in r ==> exists i :: 0 <= i < |txs| && hashOf(txs[i]) == h
  {
    set t | t in txs :: hashOf(t)
  }

  /**
   * `sorted(transactions, key=priority, reverse=True)[:10]`: at most ten
   * transactions of the pool, highest priority first, none of lower priority
   * than a transaction left out.
   */
  function Select<T>(txs: seq<T>, priority: T -> int): (r: seq<T>)
  {
    PyTake(Sorting.SortDesc(txs, priority), SelectionSize)
  }

  lemma SelectIsTop<T>(txs: seq<T>, priority: T -> int)
    ensures var r := Select(txs, priority);
      var s := Sorting.SortDesc(txs, priority);
      |r| == (if |txs| < SelectionSize then |txs| else SelectionSize) &&
      Sorting.SortedDesc(r, priority) && multiset(r) <= multiset(txs) &&
      (forall i, j :: 0 <= i < |r| <= j < |s| ==> priority(r[i]) >= priority(s[j]))
  {
    var s := Sorting.SortDesc(txs, priority);
    var r := Select(txs, priority);
    Sorting.SortDescSorted(txs, priority);
    SortedPrefix(s, |r|, priority);
  }

  /** A prefix of a list sorted highest first is sorted, is a sub-multiset, and outranks the rest. */
  lemma SortedPrefix<T>(s: seq<T>, k: nat, key: T -> int)
    requires Sorting.SortedDesc(s, key) && k <= |s|
    ensures Sorting.SortedDesc(s[..k], key) && multiset(s[..k]) <= multiset(s)
    ensures forall i, j :: 0 <= i < k <= j < |s| ==> key(s[..k][i]) >= key(s[j])
  {
    assert s == s[..k] + s[k..];
    assert multiset(s) == multiset(s[..k]) + multiset(s[k..]);
  }

  class Mempool<T(==)> {
    var transactions: seq<T>
    const priority: T -> int
    const hashOf: T -> string

    /** `Mempool(transactions=None)`: an empty list by default. */
    constructor (transactions: Option<seq<T>>, priority: T -> int, hashOf: T -> string)
      ensures this.transactions == if transactions.Some? then transactions.value else []
      ensures this.priority == priority && this.hashOf == hashOf
    {
      this.transactions := if transactions.Some? then transactions.value else [];
      this.priority := priority;
      this.hashOf := hashOf;
    }

    /** `select_transactions`: up to ten pooled transactions, the highest priorities first. */
    function SelectTransactions(): (r: seq<T>)
      reads this
      ensures |r| == (if |transactions| < SelectionSize then |transactions| else SelectionSize)
      ensures Sorting.SortedDesc(r, priority) && multiset(r) <= multiset(transactions)
      ensures forall i, j :: 0 <= i < |r| <= j < |transactions| ==>
                priority(r[i]) >= priority(Sorting.SortDesc(transactions, priority)[j])
    {
      SelectIsTop(transactions, priority);
      Select(transactions, priority)
    }

    /** `update(transactions)`: drops every pooled transaction whose hash was processed. */
    method Update(processed: seq<T>)
      modifies this
      ensures transactions == Unprocessed(old(transactions), hashOf, HashesOf(processed, hashOf))
    {
      transactions := Unprocessed(transactions, hashOf, HashesOf(processed, hashOf));
    }
  }
}
