/**
 * The FastAPI mock backend (frontend/sample_backend.py): an in-memory list
 * of `Transaction` records. Create appends, the background job settles the
 * first pending record with the id, PUT overwrites the status of the first
 * record with the id. The uuid, `datetime.now().isoformat()` and
 * `random.randint(1, 4)` are parameters.
 */
module FrontendSampleBackend {
  import opened Wrappers
  import opened ClientTx

  /** The validated request model `CreateTransaction`. */
  datatype CreateBody = CreateBody(kind: string, amount: real, status: string, details: Option<string>)

  function SettledStatus(draw: int): (s: string)
    requires 1 <= draw <= 4
    ensures s in {"approved", "failed"} && (s == "failed" <==> draw == 2)
  {
    if draw == 2 then "failed" else "approved"
  }

  /** The position of the first record with the id, if it is pending. */
  function FirstMatch(txs: seq<Tx>, id: string, pendingOnly: bool): (r: Option<nat>)
    ensures r.Some? ==> r.value < |txs| && txs[r.value].id == id && (pendingOnly ==> txs[r.value].status == "pending")
    ensures r.Some? ==> forall j :: 0 <= j < r.value ==> !(txs[j].id == id && (pendingOnly ==> txs[j].status == "pending"))
    ensures r.None? ==> forall j :: 0 <= j < |txs| ==> !(txs[j].id == id && (pendingOnly ==> txs[j].status == "pending"))
  {
    if |txs| == 0 then None
    else if txs[0].id == id && (pendingOnly ==> txs[0].status == "pending") then Some(0)
    else
      var r := FirstMatch(txs[1..], id, pendingOnly);
      if r.Some? then Some(r.value + 1) else None
  }

  function WithStatus(txs: seq<Tx>, at: Option<nat>, status: string): (r: seq<Tx>)
    requires at.Some? ==> at.value < |txs|
    ensures |r| == |txs|
  {
    if at.Some? then txs[at.value := txs[at.value].(status := status)] else txs
  }

  /** The list after `update_transaction_status` has run. */
  function Settled(txs: seq<Tx>, id: string, draw: int): seq<Tx>
    requires 1 <= draw <= 4
  {
    WithStatus(txs, FirstMatch(txs, id, true), SettledStatus(draw))
  }

  /** Settling only moves a pending record out of pending, so the server list evolves. */
  lemma SettleEvolves(txs: seq<Tx>, id: string, draw: int)
    requires 1 <= draw <= 4
    ensures Evolves(txs, Settled(txs, id, draw))
    ensures |Settled(txs, id, draw)| == |txs|
  {
  }

  /** Appending a record is an evolution too, and a fresh id keeps the ids distinct. */
  lemma CreateEvolves(txs: seq<Tx>, t: Tx)
    ensures Evolves(txs, txs + [t])
    ensures DistinctIds(txs) && (forall i :: 0 <= i < |txs| ==> txs[i].id != t.id) ==> DistinctIds(txs + [t])
  {
  }

  /** A PUT can move an approved record back to pending, which no poll-based client expects. */
  lemma PutCanRegress()
    ensures var before := [Tx("a", "buy", 1.0, "t", "approved", None)];
      var after := WithStatus(before, FirstMatch(before, "a", false), "pending");
      !Evolves(before, after)
  {
    var before := [Tx("a", "buy", 1.0, "t", "approved", None)];
    assert FirstMatch(before, "a", false) == Some(0);
  }

  class TransactionStore {
    var transactions: seq<Tx>

    constructor ()
      ensures transactions == []
    {
      transactions := [];
    }

    /** `update_transaction_status`: settle the first pending record with the id, if any. */
    method UpdateTransactionStatus(id: string, draw: int)
      requires 1 <= draw <= 4
      modifies this
      ensures transactions == Settled(old(transactions), id, draw)
    {
      var i := 0;
      while i < |transactions|
        invariant 0 <= i <= |transactions|
        invariant transactions == old(transactions)
        invariant forall j :: 0 <= j < i ==> !(transactions[j].id == id && transactions[j].status == "pending")
      {
        if transactions[i].id == id && transactions[i].status == "pending" {
          FirstMatchIs(transactions, id, true, i);
          transactions := transactions[i := transactions[i].(status := SettledStatus(draw))];
          return;
        }
        i := i + 1;
      }
      FirstMatchNone(transactions, id, true);
    }

    /** `create_transaction`: the record as posted, with a new id and timestamp, appended. */
    method CreateTransaction(body: CreateBody, freshId: string, now: string) returns (t: Tx)
      modifies this
      ensures t == Tx(freshId, body.kind, body.amount, now, body.status, body.details)
      ensures transactions == old(transactions) + [t]
    {
      t := Tx(freshId, body.kind, body.amount, now, body.status, body.details);
      transactions := transactions + [t];
    }

    /** `get_pending_transactions`. */
    function Pending(): (r: seq<Tx>)
      reads this
      ensures forall t :: t in r <==> t in transactions && t.status == "pending"
      ensures forall t :: multiset(r)[t] == if t.status == "pending" then multiset(transactions)[t] else 0
      ensures |r| <= |transactions|
    {
      PendingOf(transactions)
    }

    /** The PUT route: overwrite the first match's status, or 404. */
    method UpdateTransactionStatusApi(id: string, status: string) returns (r: Result<Tx, int>)
      modifies this
      ensures var at := FirstMatch(old(transactions), id, false);
        transactions == WithStatus(old(transactions), at, status) &&
        (at.None? ==> r == Err(404)) &&
        (at.Some? ==> r == Ok(transactions[at.value]) && r.value.status == status && r.value.id == id)
    {
      var i := 0;
      while i < |transactions|
        invariant 0 <= i <= |transactions|
        invariant transactions == old(transactions)
        invariant forall j :: 0 <= j < i ==> transactions[j].id != id
      {
        if transactions[i].id == id {
          FirstMatchIs(transactions, id, false, i);
          transactions := transactions[i := transactions[i].(status := status)];
          return Ok(transactions[i]);
        }
        i := i + 1;
      }
      FirstMatchNone(transactions, id, false);
      return Err(404);
    }

    /** `get_all_transactions`. */
    function All(): seq<Tx>
      reads this
    {
      transactions
    }
  }

  /** `[t for t in transactions if t.status == "pending"]`. */
  function PendingOf(txs: seq<Tx>): (r: seq<Tx>)
    ensures forall t :: t in r <==> t in txs && t.status == "pending"
    ensures forall t :: multiset(r)[t] == if t.status == "pending" then multiset(txs)[t] else 0
    ensures |r| <= |txs|
  {
    if |txs| == 0 then []
    else
      assert txs == [txs[0]] + txs[1..];
      if txs[0].status == "pending" then [txs[0]] + PendingOf(txs[1..])
      else PendingOf(txs[1..])
  }

  /** The filter keeps the order: filtering a concatenation concatenates the filtered parts. */
  lemma {:induction false} PendingOfAppend(a: seq<Tx>, b: seq<Tx>)
    ensures PendingOf(a + b) == PendingOf(a) + PendingOf(b)
  {
    if |a| > 0 {
      assert (a + b)[1..] == a[1..] + b;
      PendingOfAppend(a[1..], b);
    } else {
      assert a + b == b;
    }
  }

  lemma {:induction false} FirstMatchIs(txs: seq<Tx>, id: string, pendingOnly: bool, i: nat)
    requires i < |txs| && txs[i].id == id && (pendingOnly ==> txs[i].status == "pending")
    requires forall j :: 0 <= j < i ==> !(txs[j].id == id && (pendingOnly ==> txs[j].status == "pending"))
    ensures FirstMatch(txs, id, pendingOnly) == Some(i)
  {
    if i > 0 {
      FirstMatchIs(txs[1..], id, pendingOnly, i - 1);
    }
  }

  lemma FirstMatchNone(txs: seq<Tx>, id: string, pendingOnly: bool)
    requires forall j :: 0 <= j < |txs| ==> !(txs[j].id == id && (pendingOnly ==> txs[j].status == "pending"))
    ensures FirstMatch(txs, id, pendingOnly) == None
  {
  }
}
