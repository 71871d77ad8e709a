/**
 * The Flask mock backend (backend/sample_backend.py): one mock user whose
 * transactions are a dict from id to record, a POST handler that validates
 * and stores a pending record, a GET handler that lists the dict in
 * insertion order, and a background job that settles one record. The
 * generated uuid, `time.time()` and `random.randint(1, 5)` are parameters.
 */
module SampleBackend {
  import opened Wrappers
  import opened PyDict

  datatype TxData = TxData(kind: string, amount: real, status: string, timestamp: real, details: string)

  /** One entry of the GET listing. */
  datatype TxView = TxView(id: string, kind: string, amount: real, status: string, timestamp: real, details: string)

  /** The POST body's fields; `None` is a missing key. */
  datatype PostFields = PostFields(kind: Option<string>, amount: Option<real>, details: Option<string>, status: Option<string>)

  datatype Reply = Created(view: TxView) | BadRequest(error: string)
  {
    function Code(): int { if Created? then 201 else 400 }
  }

  const ValidTypes: seq<string> := ["buy", "sell", "transfer", "mine"]

  /** The checks the POST handler makes, in its order; `None` means accepted. */
  function Rejection(body: PostFields): (r: Option<string>)
    ensures r.None? <==>
              body.kind.Some? && body.kind.value in ValidTypes &&
              body.amount.Some? && body.amount.value > 0.0 &&
              (body.status.None? || body.status.value == "pending")
    ensures body.kind.None? || body.kind.value !in ValidTypes ==> r == Some("Invalid transaction type")
  {
    var amount := if body.amount.Some? then body.amount.value else 0.0;
    var status := if body.status.Some? then body.status.value else "pending";
    if body.kind.None? || body.kind.value !in ValidTypes then Some("Invalid transaction type")
    else if amount <= 0.0 then Some("Invalid amount")
    else if status != "pending" then Some("Invalid status")
    else None
  }

  /** A settled record is failed on a 2 and approved otherwise. */
  function FinalStatus(draw: int): (s: string)
    requires 1 <= draw <= 5
    ensures s in {"approved", "failed"}
    ensures s == "failed" <==> draw == 2
  {
    if draw == 2 then "failed" else "approved"
  }

  function View(id: string, d: TxData): TxView
  {
    TxView(id, d.kind, d.amount, d.status, d.timestamp, d.details)
  }

  /** The GET listing of a dict: one view per entry, in insertion order. */
  function Listing(d: Items<string, TxData>): (r: seq<TxView>)
    ensures |r| == |d|
    ensures forall i :: 0 <= i < |d| ==> r[i].id == d[i].0 && r[i] == View(d[i].0, d[i].1)
  {
    seq(|d|, i requires 0 <= i < |d| => View(d[i].0, d[i].1))
  }

  class MockUser {
    const userId: string
    var walletBalance: int
    var transactions: Items<string, TxData>

    constructor (userId: string, walletBalance: int)
      ensures this.userId == userId && this.walletBalance == walletBalance && transactions == []
    {
      this.userId := userId;
      this.walletBalance := walletBalance;
      transactions := [];
    }

    /** `add_transaction`: `transactions[id] = data`. */
    method AddTransaction(id: string, data: TxData)
      modifies this
      ensures transactions == Put(old(transactions), id, data)
      ensures walletBalance == old(walletBalance)
    {
      transactions := Put(transactions, id, data);
    }

    /** `update_transaction_status`: only an existing id is touched. */
    method UpdateTransactionStatus(id: string, status: string)
      modifies this
      ensures var o := Get(old(transactions), id);
        o.None? ==> transactions == old(transactions)
      ensures var o := Get(old(transactions), id);
        o.Some? ==> transactions == Put(old(transactions), id, o.value.(status := status))
      ensures walletBalance == old(walletBalance)
    {
      var o := Get(transactions, id);
      if o.Some? {
        transactions := Put(transactions, id, o.value.(status := status));
      }
    }
  }

  /** The POST branch of `handle_transactions`. */
  method HandlePost(user: MockUser, body: PostFields, freshId: string, now: real) returns (reply: Reply)
    modifies user
    ensures Rejection(body).Some? ==> reply == BadRequest(Rejection(body).value) && user.transactions == old(user.transactions)
    ensures Rejection(body).None? ==>
              var d := TxData(body.kind.value, body.amount.value, "pending", now,
                              if body.details.Some? then body.details.value else "");
              reply == Created(View(freshId, d)) && user.transactions == Put(old(user.transactions), freshId, d)
    ensures user.walletBalance == old(user.walletBalance)
  {
    var rejection := Rejection(body);
    if rejection.Some? {
      return BadRequest(rejection.value);
    }
    var details := if body.details.Some? then body.details.value else "";
    var data := TxData(body.kind.value, body.amount.value, "pending", now, details);
    user.AddTransaction(freshId, data);
    reply := Created(View(freshId, data));
  }

  /** The GET branch of `handle_transactions`. */
  method HandleGet(user: MockUser) returns (all: seq<TxView>)
    ensures all == Listing(user.transactions)
  {
    all := [];
    var i := 0;
    while i < |user.transactions|
      invariant 0 <= i <= |user.transactions|
      invariant all == Listing(user.transactions[..i])
    {
      var (id, data) := user.transactions[i];
      all := all + [View(id, data)];
      i := i + 1;
      assert user.transactions[..i] == user.transactions[..i - 1] + [(id, data)];
    }
    assert user.transactions[..|user.transactions|] == user.transactions;
  }

  /** `process_transaction_in_background`, once its sleep is over. */
  method ProcessInBackground(user: MockUser, id: string, draw: int)
    requires 1 <= draw <= 5
    modifies user
    ensures var o := Get(old(user.transactions), id);
      o.Some? ==> user.transactions == Put(old(user.transactions), id, o.value.(status := FinalStatus(draw)))
    ensures !HasKey(old(user.transactions), id) ==> user.transactions == old(user.transactions)
  {
    user.UpdateTransactionStatus(id, FinalStatus(draw));
  }

  /** Accepting a POST under a fresh id keeps the ids distinct and makes the new record retrievable as pending. */
  lemma AcceptedIsStored(d: Items<string, TxData>, id: string, data: TxData)
    requires DistinctKeys(d) && !HasKey(d, id)
    requires data.status == "pending"
    ensures DistinctKeys(Put(d, id, data))
    ensures Listing(Put(d, id, data)) == Listing(d) + [View(id, data)]
    ensures Get(Put(d, id, data), id) == Some(data)
  {
    PutKeepsDistinct(d, id, data);
  }

  /** Settling changes only the status of the settled record, to approved or failed. */
  lemma SettleKeepsOthers(d: Items<string, TxData>, id: string, draw: int, i: nat)
    requires DistinctKeys(d) && 1 <= draw <= 5 && i < |d|
    ensures var o := Get(d, id);
      var r := if o.Some? then Put(d, id, o.value.(status := FinalStatus(draw))) else d;
      |r| == |d| && r[i].0 == d[i].0 &&
      (d[i].0 != id ==> r[i] == d[i]) &&
      (d[i].0 == id ==> r[i].1 == d[i].1.(status := FinalStatus(draw)))
  {
    if d[i].0 == id {
      GetDistinct(d, i);
    }
  }
}
