/**
 * The miner dashboard (frontend/app/miner/page.tsx). Its state cells are the
 * fields of `MinerPage`; the polling effect is the `polling` flag, which is
 * re-derived whenever the transaction list changes. An approved buy or mine
 * record credits half its amount; an approved sell or transfer debits its
 * amount minus 2. Credits and debits apply only when the record is new to
 * the local list or its status changed.
 */
module MinerPage {
  import opened Wrappers
  import opened ClientTx

  const InitialBalance: real := 2000.0
  const MiningReward: real := 20.0

  /** The balance change the merge callback applies for one snapshot record. */
  function Delta(n: Tx, old_: Option<Tx>): (d: real)
    ensures d != 0.0 ==> n.status == "approved" && (old_.None? || old_.value.status != "approved")
    ensures n.status == "approved" && (old_.None? || old_.value.status != "approved") ==>
              d == (if n.kind == "buy" || n.kind == "mine" then n.amount / 2.0
                    else if n.kind == "sell" || n.kind == "transfer" then -(n.amount - 2.0)
                    else 0.0)
  {
    if (old_.None? || old_.value.status != n.status) && n.status == "approved" then
      (if n.kind == "buy" || n.kind == "mine" then n.amount / 2.0 else 0.0) +
      (if n.kind == "sell" || n.kind == "transfer" then -(n.amount - 2.0) else 0.0)
    else 0.0
  }

  function Deltas(prev: seq<Tx>, data: seq<Tx>): seq<real>
  {
    seq(|data|, i requires 0 <= i < |data| => Delta(data[i], FindById(prev, data[i].id)))
  }

  lemma DeltasSnoc(prev: seq<Tx>, data: seq<Tx>, i: nat)
    requires i < |data|
    ensures Deltas(prev, data[..i + 1]) == Deltas(prev, data[..i]) + [Delta(data[i], FindById(prev, data[i].id))]
  {
    assert data[..i + 1][i] == data[i];
  }

  /** The total of the `setBalance` updates one fetch issues. */
  function BalanceChange(prev: seq<Tx>, data: seq<Tx>): real
  {
    Sum(Deltas(prev, data))
  }

  /** Polling the same snapshot again (distinct ids) moves the balance by nothing. */
  lemma RepollChangesNothing(prev: seq<Tx>, data: seq<Tx>)
    requires DistinctIds(data)
    ensures Merge(Merge(prev, data), data) == Merge(prev, data)
    ensures BalanceChange(Merge(prev, data), data) == 0.0
  {
    MergeIdempotent(prev, data);
    var m := Merge(prev, data);
    forall i | 0 <= i < |data| ensures Deltas(m, data)[i] == 0.0 {
      FindInMerged(prev, data, i);
    }
    SumZero(Deltas(m, data));
  }

  /** An approved record already approved locally is never credited again. */
  lemma ApprovedOnce(prev: seq<Tx>, data: seq<Tx>, i: nat)
    requires i < |data|
    requires FindById(prev, data[i].id).Some? && FindById(prev, data[i].id).value.status == "approved"
    ensures Deltas(prev, data)[i] == 0.0
  {
  }

  class MinerPage {
    var balance: real
    var transactions: seq<Tx>
    var isMining: bool
    var miningOpen: bool
    /** Whether the 5-second polling interval is installed. */
    var polling: bool
    /** Every POST body sent to `/transactions`, oldest first. */
    var requests: seq<PostBody>

    /** The polling effect has run for the current transaction list. */
    predicate Valid()
      reads this
    {
      polling == HasPending(transactions)
    }

    constructor ()
      ensures Valid()
      ensures balance == InitialBalance && transactions == [] && requests == []
      ensures !isMining && !miningOpen && !polling
    {
      balance := InitialBalance;
      transactions := [];
      isMining := false;
      miningOpen := false;
      polling := false;
      requests := [];
    }

    /**
     * `fetchAllTransactions`: `None` is a failed fetch or an unparsable body,
     * which is logged and changes nothing.
     */
    method FetchAllTransactions(snapshot: Option<seq<Tx>>)
      requires Valid()
      modifies this
      ensures Valid()
      ensures snapshot.None? ==> transactions == old(transactions) && balance == old(balance)
      ensures snapshot.Some? ==>
                transactions == Merge(old(transactions), snapshot.value) &&
                balance == old(balance) + BalanceChange(old(transactions), snapshot.value)
      ensures isMining == old(isMining) && miningOpen == old(miningOpen) && requests == old(requests)
    {
      if snapshot.None? {
        return;
      }
      var data := snapshot.value;
      var prev := transactions;
      var updated: seq<Tx> := [];
      var bal := balance;
      var i := 0;
      while i < |data|
        modifies {}
        invariant 0 <= i <= |data|
        invariant updated == Merge(prev, data[..i])
        invariant bal == old(balance) + Sum(Deltas(prev, data[..i]))
      {
        var newTx := data[i];
        var oldTx := FindById(prev, newTx.id);
        DeltasSnoc(prev, data, i);
        SumAppend(Deltas(prev, data[..i]), [Delta(newTx, oldTx)]);
        bal := bal + Delta(newTx, oldTx);
        if oldTx.None? || oldTx.value.status != newTx.status {
          updated := updated + [newTx];
        } else {
          updated := updated + [oldTx.value];
        }
        MergeSnoc(prev, data, i);
        i := i + 1;
      }
      assert data[..|data|] == data;
      transactions := updated;
      balance := bal;
      polling := HasPending(transactions);
    }

    /**
     * `createTransaction`: the POST is always sent; only a 2xx response with a
     * parsable body prepends the created record.
     */
    method CreateTransaction(kind: string, amount: real, details: Option<string>, response: Response<Tx>)
      requires Valid()
      modifies this
      ensures Valid()
      ensures requests == old(requests) + [PostBody(kind, amount, details, "pending")]
      ensures response.Ok() && response.body.Some? ==> transactions == [response.body.value] + old(transactions)
      ensures !(response.Ok() && response.body.Some?) ==> transactions == old(transactions)
      ensures balance == old(balance) && isMining == old(isMining) && miningOpen == old(miningOpen)
    {
      requests := requests + [PostBody(kind, amount, details, "pending")];
      if response.Ok() && response.body.Some? {
        transactions := [response.body.value] + transactions;
        polling := HasPending(transactions);
      }
    }

    /** `startMining`: ignored while a mining round is running. */
    method StartMining()
      modifies this
      ensures old(isMining) ==> isMining && miningOpen == old(miningOpen)
      ensures !old(isMining) ==> isMining && miningOpen
      ensures balance == old(balance) && transactions == old(transactions)
      ensures polling == old(polling) && requests == old(requests)
    {
      if isMining {
        return;
      }
      isMining := true;
      miningOpen := true;
    }

    /** The modal's `onOpenChange`, wired to `setMiningOpen`. */
    method SetMiningOpen(open: bool)
      modifies this
      ensures miningOpen == open
      ensures balance == old(balance) && transactions == old(transactions) && isMining == old(isMining)
      ensures polling == old(polling) && requests == old(requests)
    {
      miningOpen := open;
    }

    /**
     * `handleMiningComplete`: submits one pending "mine" record of 20 and ends
     * the round; the modal is left open.
     */
    method HandleMiningComplete(response: Response<Tx>)
      requires Valid()
      modifies this
      ensures Valid()
      ensures requests == old(requests) + [PostBody("mine", MiningReward, None, "pending")]
      ensures !isMining && miningOpen == old(miningOpen) && balance == old(balance)
      ensures response.Ok() && response.body.Some? ==> transactions == [response.body.value] + old(transactions)
      ensures !(response.Ok() && response.body.Some?) ==> transactions == old(transactions)
    {
      CreateTransaction("mine", MiningReward, None, response);
      isMining := false;
    }
  }
}
