/**
 * The dini2 dashboard (dini2/app/page.tsx): the same snapshot merge as the
 * miner page, starting from 1000, with an approved buy crediting its full
 * amount and an approved sell or transfer debiting it. Over polls of a
 * server that only appends records and only settles pending ones, the
 * incrementally kept balance equals 1000 plus the balance frontend/app/page.tsx
 * recomputes from the latest snapshot.
 */
module Dini2Page {
  import opened Wrappers
  import opened ClientTx
  import HomePage

  const InitialBalance: real := 1000.0

  function Delta(n: Tx, old_: Option<Tx>): (d: real)
    ensures d != 0.0 ==> n.status == "approved" && (old_.None? || old_.value.status != "approved")
    ensures (old_.None? || old_.value.status != n.status) ==> d == HomePage.Contribution(n)
  {
    if (old_.None? || old_.value.status != n.status) && n.status == "approved" then
      (if n.kind == "buy" then n.amount else 0.0) +
      (if n.kind == "sell" || n.kind == "transfer" then -n.amount else 0.0)
    else 0.0
  }

  function Deltas(prev: seq<Tx>, data: seq<Tx>): (r: seq<real>)
    ensures |r| == |data|
    ensures forall i :: 0 <= i < |data| ==> r[i] == Delta(data[i], FindById(prev, data[i].id))
  {
    seq(|data|, i requires 0 <= i < |data| => Delta(data[i], FindById(prev, data[i].id)))
  }

  lemma DeltasSnoc(prev: seq<Tx>, data: seq<Tx>, i: nat)
    requires i < |data|
    ensures Deltas(prev, data[..i + 1]) == Deltas(prev, data[..i]) + [Delta(data[i], FindById(prev, data[i].id))]
  {
    assert data[..i + 1][i] == data[i];
  }

  function BalanceChange(prev: seq<Tx>, data: seq<Tx>): real
  {
    Sum(Deltas(prev, data))
  }

  /** Polling the same snapshot again (distinct ids) moves the balance by nothing. */
  lemma RepollChangesNothing(prev: seq<Tx>, data: seq<Tx>)
    requires DistinctIds(data)
    ensures Merge(Merge(prev, data), data) == Merge(prev, data)
    ensures BalanceChange(Merge(prev, data), data) == 0.0
  {
    MergeIdempotent(prev, data);
    var m := Merge(prev, data);
    forall i | 0 <= i < |data| ensures Deltas(m, data)[i] == 0.0 {
      FindInMerged(prev, data, i);
    }
    SumZero(Deltas(m, data));
  }

  /** The local list carries the snapshot's ids, types, amounts and statuses, position by position. */
  predicate Agrees(local: seq<Tx>, s: seq<Tx>)
  {
    |local| == |s| &&
    forall i :: 0 <= i < |s| ==>
      local[i].id == s[i].id && local[i].kind == s[i].kind &&
      local[i].amount == s[i].amount && local[i].status == s[i].status
  }

  /** The list and balance after polling `snaps` in order. */
  function Replay(local: seq<Tx>, balance: real, snaps: seq<seq<Tx>>): (seq<Tx>, real)
    decreases |snaps|
  {
    if |snaps| == 0 then (local, balance)
    else Replay(Merge(local, snaps[0]), balance + BalanceChange(local, snaps[0]), snaps[1..])
  }

  /** Where the merge finds each id of the new snapshot in a list that agrees with the old one. */
  lemma FindAfterAgree(local: seq<Tx>, s: seq<Tx>, t: seq<Tx>, i: nat)
    requires Agrees(local, s) && Evolves(s, t) && DistinctIds(t) && i < |t|
    ensures FindById(local, t[i].id) == if i < |s| then Some(local[i]) else None
  {
    assert DistinctIds(local) by {
      forall a, b | 0 <= a < b < |local| ensures local[a].id != local[b].id {
        assert local[a].id == t[a].id && local[b].id == t[b].id;
      }
    }
    if i < |s| {
      FindAtDistinct(local, i);
    } else {
      forall j | 0 <= j < |local| ensures local[j].id != t[i].id {
        assert local[j].id == t[j].id;
      }
    }
  }

  lemma DeltaAfterAgree(local: seq<Tx>, s: seq<Tx>, t: seq<Tx>, i: nat)
    requires Agrees(local, s) && Evolves(s, t) && DistinctIds(t) && i < |t|
    ensures Delta(t[i], FindById(local, t[i].id)) ==
              HomePage.Contribution(t[i]) - (if i < |s| then HomePage.Contribution(s[i]) else 0.0)
  {
    FindAfterAgree(local, s, t, i);
  }

  lemma MergeAfterAgree(local: seq<Tx>, s: seq<Tx>, t: seq<Tx>)
    requires Agrees(local, s) && Evolves(s, t) && DistinctIds(t)
    ensures Agrees(Merge(local, t), t)
  {
    var m := Merge(local, t);
    forall i | 0 <= i < |t| ensures m[i].kind == t[i].kind && m[i].amount == t[i].amount {
      FindAfterAgree(local, s, t, i);
    }
  }

  /** One poll against a snapshot that evolved from the one the list agrees with. */
  lemma PollStep(local: seq<Tx>, s: seq<Tx>, t: seq<Tx>)
    requires Agrees(local, s) && Evolves(s, t) && DistinctIds(t)
    ensures Agrees(Merge(local, t), t)
    ensures BalanceChange(local, t) == Sum(HomePage.Contributions(t)) - Sum(HomePage.Contributions(s))
  {
    MergeAfterAgree(local, s, t);
    var cs := HomePage.Contributions(s);
    var zeros := seq(|t| - |s|, i => 0.0);
    var padded := cs + zeros;
    var ds := Deltas(local, t);
    var ct := HomePage.Contributions(t);
    forall i | 0 <= i < |t| ensures ds[i] == ct[i] - padded[i] {
      DeltaAfterAgree(local, s, t, i);
    }
    SumDiff(ds, ct, padded);
    SumAppend(cs, zeros);
    SumZero(zeros);
  }

  /** Every snapshot has distinct ids and evolves from the one before it. */
  predicate Polls(s: seq<Tx>, snaps: seq<seq<Tx>>)
    decreases |snaps|
  {
    |snaps| == 0 || (DistinctIds(snaps[0]) && Evolves(s, snaps[0]) && Polls(snaps[0], snaps[1..]))
  }

  lemma {:induction false} PollsFromChain(s: seq<Tx>, snaps: seq<seq<Tx>>)
    requires |snaps| > 0 ==> Evolves(s, snaps[0])
    requires forall j :: 0 <= j < |snaps| ==> DistinctIds(snaps[j])
    requires forall j :: 0 <= j < |snaps| - 1 ==> Evolves(snaps[j], snaps[j + 1])
    ensures Polls(s, snaps)
    decreases |snaps|
  {
    if |snaps| > 0 {
      var rest := snaps[1..];
      assert forall j :: 0 <= j < |rest| ==> rest[j] == snaps[j + 1];
      PollsFromChain(snaps[0], rest);
    }
  }

  /** The page's list agrees with snapshot `s` and its balance is 1000 plus `s`'s total. */
  predicate Tracks(local: seq<Tx>, balance: real, s: seq<Tx>)
  {
    Agrees(local, s) && balance == InitialBalance + Sum(HomePage.Contributions(s))
  }

  lemma TracksStep(local: seq<Tx>, balance: real, s: seq<Tx>, t: seq<Tx>)
    requires Tracks(local, balance, s) && Evolves(s, t) && DistinctIds(t)
    ensures Tracks(Merge(local, t), balance + BalanceChange(local, t), t)
  {
    PollStep(local, s, t);
  }

  lemma {:induction false} ReplayFrom(local: seq<Tx>, balance: real, s: seq<Tx>, snaps: seq<seq<Tx>>)
    requires |snaps| > 0
    requires Tracks(local, balance, s) && Polls(s, snaps)
    ensures Tracks(Replay(local, balance, snaps).0, Replay(local, balance, snaps).1, snaps[|snaps| - 1])
    decreases |snaps|
  {
    var t := snaps[0];
    var local' := Merge(local, t);
    var balance' := balance + BalanceChange(local, t);
    TracksStep(local, balance, s, t);
    var rest := snaps[1..];
    if |snaps| == 1 {
      assert Replay(local', balance', rest) == (local', balance');
    } else {
      var r := Replay(local', balance', rest);
      assert Replay(local, balance, snaps) == r;
      ReplayFrom(local', balance', t, rest);
      assert rest[|rest| - 1] == snaps[|snaps| - 1];
    }
  }

  /**
   * Starting from the first render (no records, 1000) and polling snapshots
   * each of which evolves from the one before, the dini2 balance is 1000 plus
   * the home page's recomputed balance of the latest snapshot.
   */
  lemma PollsMatchRecompute(snaps: seq<seq<Tx>>)
    requires |snaps| > 0
    requires forall j :: 0 <= j < |snaps| ==> DistinctIds(snaps[j])
    requires forall j :: 0 <= j < |snaps| - 1 ==> Evolves(snaps[j], snaps[j + 1])
    ensures Replay([], InitialBalance, snaps).1 == InitialBalance + HomePage.RecomputeBalance(snaps[|snaps| - 1])
    ensures |Replay([], InitialBalance, snaps).0| == |snaps[|snaps| - 1]|
  {
    PollsFromChain([], snaps);
    ReplayFrom([], InitialBalance, [], snaps);
    HomePage.RecomputeIsSum(snaps[|snaps| - 1]);
  }

  class Dini2Page {
    var balance: real
    var transactions: seq<Tx>
    /** Whether the 5-second polling interval is installed. */
    var polling: bool
    var requests: seq<PostBody>

    predicate Valid()
      reads this
    {
      polling == HasPending(transactions)
    }

    constructor ()
      ensures Valid()
      ensures balance == InitialBalance && transactions == [] && requests == [] && !polling
    {
      balance := InitialBalance;
      transactions := [];
      polling := false;
      requests := [];
    }

    /** `fetchAllTransactions`; `None` is a failed fetch or an unparsable body. */
    method FetchAllTransactions(snapshot: Option<seq<Tx>>)
      requires Valid()
      modifies this
      ensures Valid()
      ensures snapshot.None? ==> transactions == old(transactions) && balance == old(balance)
      ensures snapshot.Some? ==>
                transactions == Merge(old(transactions), snapshot.value) &&
                balance == old(balance) + BalanceChange(old(transactions), snapshot.value)
      ensures requests == old(requests)
    {
      if snapshot.None? {
        return;
      }
      var data := snapshot.value;
      var prev := transactions;
      var updated: seq<Tx> := [];
      var bal := balance;
      var i := 0;
      while i < |data|
        modifies {}
        invariant 0 <= i <= |data|
        invariant updated == Merge(prev, data[..i])
        invariant bal == old(balance) + Sum(Deltas(prev, data[..i]))
      {
        var newTx := data[i];
        var oldTx := FindById(prev, newTx.id);
        DeltasSnoc(prev, data, i);
        SumAppend(Deltas(prev, data[..i]), [Delta(newTx, oldTx)]);
        bal := bal + Delta(newTx, oldTx);
        if oldTx.None? || oldTx.value.status != newTx.status {
          updated := updated + [newTx];
        } else {
          updated := updated + [oldTx.value];
        }
        MergeSnoc(prev, data, i);
        i := i + 1;
      }
      assert data[..|data|] == data;
      transactions := updated;
      balance := bal;
      polling := HasPending(transactions);
    }

    /** `createTransaction`: always POSTs; a 2xx answer with a body prepends the record. */
    method CreateTransaction(kind: string, amount: real, details: Option<string>, response: Response<Tx>)
      requires Valid()
      modifies this
      ensures Valid()
      ensures requests == old(requests) + [PostBody(kind, amount, details, "pending")]
      ensures response.Ok() && response.body.Some? ==> transactions == [response.body.value] + old(transactions)
      ensures !(response.Ok() && response.body.Some?) ==> transactions == old(transactions)
      ensures balance == old(balance)
    {
      requests := requests + [PostBody(kind, amount, details, "pending")];
      if response.Ok() && response.body.Some? {
        transactions := [response.body.value] + transactions;
        polling := HasPending(transactions);
      }
    }
  }
}
