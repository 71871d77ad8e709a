/**
 * The session-aware user dashboard (frontend/app/page.tsx). Each successful
 * fetch replaces the list with the server snapshot and recomputes the
 * balance from zero over the approved records: a buy adds its amount, a sell
 * or a transfer subtracts it. Nothing is requested without a session id, and
 * a 401 on create logs the user out.
 */
module HomePage {
  import opened Wrappers
  import opened ClientTx
  import UserContext

  const InitialBalance: real := 0.0
  /** The balance shown before the first successful fetch. */
  const FirstRenderBalance: real := 1000.0

  /** `data.filter(tx => tx.status === "approved")`. */
  function Approved(data: seq<Tx>): (r: seq<Tx>)
    ensures |r| <= |data|
    ensures forall t :: t in r <==> t in data && t.status == "approved"
    ensures forall t :: multiset(r)[t] == if t.status == "approved" then multiset(data)[t] else 0
  {
    if |data| == 0 then []
    else
      assert data == [data[0]] + data[1..];
      if data[0].status == "approved" then [data[0]] + Approved(data[1..])
      else Approved(data[1..])
  }

  /** The filter keeps the order: filtering a concatenation concatenates the filtered parts. */
  lemma {:induction false} ApprovedAppend(a: seq<Tx>, b: seq<Tx>)
    ensures Approved(a + b) == Approved(a) + Approved(b)
  {
    if |a| > 0 {
      assert (a + b)[1..] == a[1..] + b;
      ApprovedAppend(a[1..], b);
    } else {
      assert a + b == b;
    }
  }

  /** The reducer step. */
  function Step(balance: real, tx: Tx): real
  {
    if tx.kind == "buy" then balance + tx.amount
    else if tx.kind == "sell" || tx.kind == "transfer" then balance - tx.amount
    else balance
  }

  function Reduce(acc: real, s: seq<Tx>): real
    decreases |s|
  {
    if |s| == 0 then acc else Reduce(Step(acc, s[0]), s[1..])
  }

  /** `data.filter(approved).reduce(step, INITIAL_BALANCE)`. */
  function RecomputeBalance(data: seq<Tx>): real
  {
    Reduce(InitialBalance, Approved(data))
  }

  /** What one record adds to the recomputed balance. */
  function Contribution(tx: Tx): real
  {
    if tx.status != "approved" then 0.0
    else if tx.kind == "buy" then tx.amount
    else if tx.kind == "sell" || tx.kind == "transfer" then -tx.amount
    else 0.0
  }

  function Contributions(data: seq<Tx>): (r: seq<real>)
    ensures |r| == |data| && forall i :: 0 <= i < |data| ==> r[i] == Contribution(data[i])
  {
    seq(|data|, i requires 0 <= i < |data| => Contribution(data[i]))
  }

  function Steps(s: seq<Tx>): (r: seq<real>)
    ensures |r| == |s| && forall i :: 0 <= i < |s| ==> r[i] == Step(0.0, s[i])
  {
    seq(|s|, i requires 0 <= i < |s| => Step(0.0, s[i]))
  }

  lemma StepsTail(s: seq<Tx>)
    requires |s| > 0
    ensures Steps(s)[1..] == Steps(s[1..])
  {
  }

  lemma StepsSumCons(t: Tx, a: seq<Tx>)
    ensures Sum(Steps([t] + a)) == Step(0.0, t) + Sum(Steps(a))
  {
    StepsTail([t] + a);
    assert ([t] + a)[1..] == a;
  }

  lemma ContributionsTail(s: seq<Tx>)
    requires |s| > 0
    ensures Contributions(s)[1..] == Contributions(s[1..])
  {
  }

  lemma {:induction false} ReduceIsSum(acc: real, s: seq<Tx>)
    ensures Reduce(acc, s) == acc + Sum(Steps(s))
    decreases |s|
  {
    if |s| > 0 {
      ReduceIsSum(Step(acc, s[0]), s[1..]);
      StepsTail(s);
    }
  }

  /** The filter-then-reduce is the sum of every record's contribution. */
  lemma {:induction false} RecomputeIsSum(data: seq<Tx>)
    ensures RecomputeBalance(data) == Sum(Contributions(data))
  {
    ReduceIsSum(InitialBalance, Approved(data));
    ApprovedSteps(data);
  }

  lemma {:induction false} ApprovedSteps(data: seq<Tx>)
    ensures Sum(Steps(Approved(data))) == Sum(Contributions(data))
  {
    if |data| > 0 {
      ApprovedSteps(data[1..]);
      ContributionsTail(data);
      if data[0].status == "approved" {
        StepsSumCons(data[0], Approved(data[1..]));
      }
    }
  }

  /** The recomputed balance does not depend on the order of the snapshot. */
  lemma {:induction false} RecomputeOrderFree(a: seq<Tx>, b: seq<Tx>)
    requires multiset(a) == multiset(b)
    ensures RecomputeBalance(a) == RecomputeBalance(b)
  {
    RecomputeIsSum(a);
    RecomputeIsSum(b);
    SumPermutation(a, b);
  }

  lemma {:induction false} SumPermutation(a: seq<Tx>, b: seq<Tx>)
    requires multiset(a) == multiset(b)
    ensures Sum(Contributions(a)) == Sum(Contributions(b))
    decreases |a|
  {
    if |a| > 0 {
      assert a[0] in multiset(b);
      var k :| 0 <= k < |b| && b[k] == a[0];
      var rest := b[..k] + b[k + 1..];
      TailPermutation(a, b, k);
      SumPermutation(a[1..], rest);
      ContributionsTail(a);
      SumWithout(b, k);
    }
  }

  /** Dropping the first element of `a` and a copy of it from `b` keeps them permutations. */
  lemma TailPermutation(a: seq<Tx>, b: seq<Tx>, k: nat)
    requires |a| > 0 && k < |b| && b[k] == a[0] && multiset(a) == multiset(b)
    ensures multiset(a[1..]) == multiset(b[..k] + b[k + 1..])
  {
    MultisetWithout(b, k);
    assert a == [a[0]] + a[1..];
  }

  lemma MultisetWithout(b: seq<Tx>, k: nat)
    requires k < |b|
    ensures multiset(b[..k] + b[k + 1..]) == multiset(b) - multiset{b[k]}
  {
    assert b == b[..k] + [b[k]] + b[k + 1..];
  }

  lemma SumWithout(b: seq<Tx>, k: nat)
    requires k < |b|
    ensures Sum(Contributions(b)) == Contribution(b[k]) + Sum(Contributions(b[..k] + b[k + 1..]))
  {
    var c := Contributions(b);
    assert c == Contributions(b[..k]) + [Contribution(b[k])] + Contributions(b[k + 1..]);
    assert Contributions(b[..k] + b[k + 1..]) == Contributions(b[..k]) + Contributions(b[k + 1..]);
    SumAppend(Contributions(b[..k]) + [Contribution(b[k])], Contributions(b[k + 1..]));
    SumAppend(Contributions(b[..k]), [Contribution(b[k])]);
    SumAppend(Contributions(b[..k]), Contributions(b[k + 1..]));
  }

  /** The requests the page sends, with the session id it sends them under. */
  datatype Request = GetTransactions(session: string) | PostTransaction(session: string, body: PostBody)

  class HomePage {
    var balance: real
    var transactions: seq<Tx>
    /** Whether the 5-second polling interval is installed. */
    var polling: bool
    var requests: seq<Request>
    const ctx: UserContext.UserStore

    /** The polling effect has run for the current session id. */
    predicate Valid()
      reads this, ctx
    {
      polling == UserContext.HasSession(ctx.user) && ctx.Valid()
    }

    constructor (ctx: UserContext.UserStore)
      requires ctx.Valid()
      ensures this.ctx == ctx && Valid()
      ensures balance == FirstRenderBalance && transactions == [] && requests == []
    {
      this.ctx := ctx;
      balance := FirstRenderBalance;
      transactions := [];
      polling := UserContext.HasSession(ctx.user);
      requests := [];
    }

    /** The polling effect, re-run when the session id changes. */
    method SyncPolling()
      requires ctx.Valid()
      modifies this
      ensures Valid()
      ensures balance == old(balance) && transactions == old(transactions) && requests == old(requests)
    {
      polling := UserContext.HasSession(ctx.user);
    }

    /**
     * `fetchAllTransactions`: without a session nothing is requested; a non-2xx
     * answer, a failed fetch or an unparsable body changes nothing.
     */
    method FetchAllTransactions(response: Response<seq<Tx>>)
      requires Valid()
      modifies this
      ensures Valid()
      ensures !UserContext.HasSession(ctx.user) ==> requests == old(requests)
      ensures UserContext.HasSession(ctx.user) ==> requests == old(requests) + [GetTransactions(ctx.user.value.sessionId)]
      ensures UserContext.HasSession(ctx.user) && response.Ok() && response.body.Some? ==>
                transactions == response.body.value && balance == RecomputeBalance(response.body.value)
      ensures !(UserContext.HasSession(ctx.user) && response.Ok() && response.body.Some?) ==>
                transactions == old(transactions) && balance == old(balance)
    {
      if !UserContext.HasSession(ctx.user) {
        return;
      }
      requests := requests + [GetTransactions(ctx.user.value.sessionId)];
      if !response.Ok() || response.body.None? {
        return;
      }
      var data := response.body.value;
      transactions := data;
      balance := RecomputeBalance(data);
    }

    /**
     * `createTransaction`: without a session nothing is sent; a 401 logs out;
     * another non-2xx answer, a failed fetch or an unparsable body is only
     * logged; a success re-fetches the list with `refetch` as the answer.
     */
    method CreateTransaction(kind: string, amount: real, details: Option<string>,
                             response: Response<Tx>, refetch: Response<seq<Tx>>)
      requires Valid()
      modifies this, ctx
      ensures Valid()
      ensures !old(UserContext.HasSession(ctx.user)) ==>
                unchanged(this) && unchanged(ctx)
      ensures old(UserContext.HasSession(ctx.user)) && response.Http? && response.status == 401 ==>
                requests == old(requests) + [PostTransaction(old(ctx.user).value.sessionId,
                                                             PostBody(kind, amount, details, "pending"))] &&
                ctx.user == None && ctx.stored == None && ctx.navigations == old(ctx.navigations) + [UserContext.AuthPath] &&
                !polling && transactions == old(transactions) && balance == old(balance)
      ensures old(UserContext.HasSession(ctx.user)) && !(response.Http? && response.status == 401) &&
              !(response.Ok() && response.body.Some?) ==>
                requests == old(requests) + [PostTransaction(old(ctx.user).value.sessionId,
                                                             PostBody(kind, amount, details, "pending"))] &&
                unchanged(ctx) && transactions == old(transactions) && balance == old(balance)
      ensures old(UserContext.HasSession(ctx.user)) && response.Ok() && response.body.Some? ==>
                requests == old(requests) + [PostTransaction(old(ctx.user).value.sessionId,
                                                             PostBody(kind, amount, details, "pending")),
                                             GetTransactions(old(ctx.user).value.sessionId)] &&
                unchanged(ctx)
      ensures old(UserContext.HasSession(ctx.user)) && response.Ok() && response.body.Some? && refetch.Ok() && refetch.body.Some? ==>
                transactions == refetch.body.value && balance == RecomputeBalance(refetch.body.value)
      ensures old(UserContext.HasSession(ctx.user)) && response.Ok() && response.body.Some? &&
              !(refetch.Ok() && refetch.body.Some?) ==>
                transactions == old(transactions) && balance == old(balance)
    {
      if !UserContext.HasSession(ctx.user) {
        return;
      }
      var sid := ctx.user.value.sessionId;
      requests := requests + [PostTransaction(sid, PostBody(kind, amount, details, "pending"))];
      if response.Http? && response.status == 401 {
        ctx.Logout();
        SyncPolling();
        return;
      }
      if !response.Ok() || response.body.None? {
        return;
      }
      FetchAllTransactions(refetch);
    }
  }
}
