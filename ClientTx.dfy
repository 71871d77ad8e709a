/**
 * The transaction record the dashboards receive from `/transactions`
 * (the `Transaction` interface of frontend/components/history.tsx, which is
 * also the response model of frontend/sample_backend.py), together with the
 * snapshot merge that frontend/app/miner/page.tsx and dini2/app/page.tsx
 * share: every record of the server snapshot is kept, in snapshot order, and
 * a record whose local copy has the same status keeps the local copy.
 */
module ClientTx {
  import opened Wrappers

  /** JavaScript numbers are modelled as reals; `details` is optional. */
  datatype Tx = Tx(id: string, kind: string, amount: real, timestamp: string, status: string, details: Option<string>)

  /** The JSON body every dashboard POSTs to `/transactions`; the status is always "pending". */
  datatype PostBody = PostBody(kind: string, amount: real, details: Option<string>, status: string)

  /**
   * What a `fetch` can come back with: a network failure (the promise
   * rejects), or an HTTP status with a body that may fail to parse as the
   * expected JSON (`None`).
   */
  datatype Response<T> = NetworkError | Http(status: int, body: Option<T>)
  {
    predicate Ok() { Http? && 200 <= status <= 299 }
  }

  predicate DistinctIds(s: seq<Tx>)
  {
    forall i, j :: 0 <= i < j < |s| ==> s[i].id != s[j].id
  }

  /** `txs.find(tx => tx.id === id)`: the first record with that id. */
  function FindById(txs: seq<Tx>, id: string): (r: Option<Tx>)
    ensures r.None? <==> forall i :: 0 <= i < |txs| ==> txs[i].id != id
    ensures r.Some? ==> exists i :: 0 <= i < |txs| && txs[i] == r.value && r.value.id == id
                          && forall j :: 0 <= j < i ==> txs[j].id != id
  {
    if |txs| == 0 then None
    else if txs[0].id == id then Some(txs[0])
    else
      var r := FindById(txs[1..], id);
      assert forall i :: 1 <= i < |txs| ==> txs[i] == txs[1..][i - 1];
      r
  }

  /** `txs.some(tx => tx.status === "pending")`. */
  predicate HasPending(txs: seq<Tx>)
  {
    exists i :: 0 <= i < |txs| && txs[i].status == "pending"
  }

  /** The body of the `data.map` callback: the server record unless the local copy has the same status. */
  function MergeOne(prev: seq<Tx>, n: Tx): Tx
  {
    var o := FindById(prev, n.id);
    if o.None? || o.value.status != n.status then n else o.value
  }

  /** The list the merge stores: one entry per snapshot record, in snapshot order. */
  function Merge(prev: seq<Tx>, data: seq<Tx>): (r: seq<Tx>)
    ensures |r| == |data|
    ensures forall i :: 0 <= i < |data| ==> r[i].id == data[i].id && r[i].status == data[i].status
    ensures forall i :: 0 <= i < |data| ==>
              r[i] == data[i] || (r[i] in prev && FindById(prev, data[i].id) == Some(r[i]))
  {
    seq(|data|, i requires 0 <= i < |data| => MergeOne(prev, data[i]))
  }

  /** Merging one snapshot record more appends its merged entry. */
  lemma MergeSnoc(prev: seq<Tx>, data: seq<Tx>, i: nat)
    requires i < |data|
    ensures Merge(prev, data[..i + 1]) == Merge(prev, data[..i]) + [MergeOne(prev, data[i])]
  {
    assert data[..i + 1][i] == data[i];
  }

  /** A local copy is replaced exactly when it is missing or its status differs. */
  lemma MergeKeepsUnchanged(prev: seq<Tx>, data: seq<Tx>, i: nat)
    requires i < |data|
    ensures var o := FindById(prev, data[i].id);
      Merge(prev, data)[i] == if o.Some? && o.value.status == data[i].status then o.value else data[i]
  {
  }

  /** With distinct snapshot ids, looking up the `i`-th id in the merged list finds the `i`-th entry. */
  lemma FindInMerged(prev: seq<Tx>, data: seq<Tx>, i: nat)
    requires DistinctIds(data) && i < |data|
    ensures FindById(Merge(prev, data), data[i].id) == Some(Merge(prev, data)[i])
  {
    var m := Merge(prev, data);
    FindAtDistinct(m, i);
  }

  lemma {:induction false} FindAtDistinct(s: seq<Tx>, i: nat)
    requires DistinctIds(s) && i < |s|
    ensures FindById(s, s[i].id) == Some(s[i])
  {
    if i > 0 {
      assert s[1..][i - 1] == s[i];
      assert DistinctIds(s[1..]);
      FindAtDistinct(s[1..], i - 1);
    }
  }

  /** Merging the same snapshot twice changes nothing the second time. */
  lemma MergeIdempotent(prev: seq<Tx>, data: seq<Tx>)
    requires DistinctIds(data)
    ensures Merge(Merge(prev, data), data) == Merge(prev, data)
  {
    var m := Merge(prev, data);
    forall i | 0 <= i < |data| ensures Merge(m, data)[i] == m[i] {
      FindInMerged(prev, data, i);
    }
  }

  /**
   * How a server snapshot may evolve between two polls when the server only
   * appends records and only moves records out of `pending`: every earlier
   * record keeps its position, id, type and amount, and a non-pending status
   * never changes.
   */
  predicate Evolves(s: seq<Tx>, t: seq<Tx>)
  {
    |s| <= |t| &&
    forall i :: 0 <= i < |s| ==>
      t[i].id == s[i].id && t[i].kind == s[i].kind && t[i].amount == s[i].amount &&
      (s[i].status == "pending" || t[i].status == s[i].status)
  }

  /** The sum of a sequence of reals, left to right. */
  function Sum(s: seq<real>): real
  {
    if |s| == 0 then 0.0 else s[0] + Sum(s[1..])
  }

  lemma {:induction false} SumAppend(a: seq<real>, b: seq<real>)
    ensures Sum(a + b) == Sum(a) + Sum(b)
  {
    if |a| == 0 {
      assert a + b == b;
    } else {
      assert (a + b)[1..] == a[1..] + b;
      SumAppend(a[1..], b);
    }
  }

  lemma {:induction false} SumDiff(a: seq<real>, b: seq<real>, c: seq<real>)
    requires |a| == |b| == |c|
    requires forall i :: 0 <= i < |a| ==> a[i] == b[i] - c[i]
    ensures Sum(a) == Sum(b) - Sum(c)
  {
    if |a| > 0 {
      SumDiff(a[1..], b[1..], c[1..]);
    }
  }

  lemma {:induction false} SumZero(a: seq<real>)
    requires forall i :: 0 <= i < |a| ==> a[i] == 0.0
    ensures Sum(a) == 0.0
  {
    if |a| > 0 {
      SumZero(a[1..]);
    }
  }

  lemma {:induction false} SumLast(a: seq<real>)
    requires |a| > 0
    ensures Sum(a) == Sum(a[..|a| - 1]) + a[|a| - 1]
  {
    assert a == a[..|a| - 1] + [a[|a| - 1]];
    SumAppend(a[..|a| - 1], [a[|a| - 1]]);
  }
}
