/**
 * The older light chain (Blockchain/light_blockchain.py). It differs from
 * `LightChain` in three ways that the model keeps: the recipient test is
 * `recipient_pk is not owner_pk` (identity, negated), a transaction received
 * by the owner's own key object is refused, and the transaction list may be
 * `None` (the constructor's default), in which case `append` raises after the
 * balance has already changed. An exception ends `filter_and_add_block`'s loop.
 */
module LegacyLightChain {
  import opened Wrappers
  import opened Ledger
  import CoreBlock
  import LightChain

  /** What `filter_and_add_transaction` does: returns False, appends, or raises on a `None` list. */
  datatype Outcome = Refused | Appended | Raised

  datatype LegacyState = LegacyState(balance: int, transactions: Option<seq<Tx>>)

  /** The as-written balance change: the sender branch, then the negated identity test on the recipient. */
  function Delta(owner: Key, t: Tx): int
  {
    if SameKey(t.sender, owner) then -t.amount
    else if !IsKey(t.recipient, owner) then t.amount
    else 0
  }

  predicate Touches(owner: Key, t: Tx)
  {
    SameKey(t.sender, owner) || !IsKey(t.recipient, owner)
  }

  function Step(owner: Key, s: LegacyState, t: Tx): (LegacyState, Outcome)
  {
    if !Touches(owner, t) then (s, Refused)
    else if s.transactions.None? then (LegacyState(s.balance + Delta(owner, t), None), Raised)
    else (LegacyState(s.balance + Delta(owner, t), Some(s.transactions.value + [t])), Appended)
  }

  /** The block loop: the state after `txs`, and whether an exception stopped it. */
  function Steps(owner: Key, s: LegacyState, txs: seq<Tx>): (LegacyState, bool)
  {
    if |txs| == 0 then (s, false)
    else
      var (p, raised) := Steps(owner, s, txs[..|txs| - 1]);
      if raised then (p, true)
      else
        var (q, o) := Step(owner, p, txs[|txs| - 1]);
        (q, o == Raised)
  }

  /** Once the loop has raised, further transactions change nothing. */
  lemma {:induction false} StopsAfterRaise(owner: Key, s: LegacyState, txs: seq<Tx>, k: nat)
    requires k <= |txs| && Steps(owner, s, txs[..k]).1
    ensures Steps(owner, s, txs) == Steps(owner, s, txs[..k])
    decreases |txs| - k
  {
    if k < |txs| {
      assert txs[..k + 1][..k] == txs[..k];
      StopsAfterRaise(owner, s, txs, k + 1);
    } else {
      assert txs[..k] == txs;
    }
  }

  /** A transfer between two strangers credits the owner: the recipient is not the owner's key object. */
  lemma StrangersCreditOwner()
    ensures var owner := Rsa(1, 11);
      var t := NewTx(Rsa(2, 22), Rsa(3, 33), 40);
      Step(owner, LegacyState(100, Some([])), t) == (LegacyState(140, Some([t])), Appended)
  {
    var t := NewTx(Rsa(2, 22), Rsa(3, 33), 40);
    assert [] + [t] == [t];
  }

  /** A payment received by the owner's own key object is refused and leaves the balance unchanged. */
  lemma PaymentToOwnerRefused(owner: Key, t: Tx, s: LegacyState)
    requires IsKey(t.recipient, owner) && !SameKey(t.sender, owner)
    ensures Step(owner, s, t) == (s, Refused)
  {
  }

  /** With the default `None` list the balance changes and then the append raises. */
  lemma NoneListRaisesAfterCharging(owner: Key, t: Tx, balance: int)
    requires SameKey(t.sender, owner)
    ensures Step(owner, LegacyState(balance, None), t) == (LegacyState(balance - t.amount, None), Raised)
  {
  }

  /**
   * The evidently intended filter is the one of core/light_blockchain.py:
   * only transactions sent or received by the owner count, and the corrected
   * step on a list agrees with `LightChain.Step` there.
   */
  function FixedStep(owner: Key, s: LegacyState, t: Tx): (LegacyState, Outcome)
  {
    if !LightChain.Relevant(owner, t) then (s, Refused)
    else if s.transactions.None? then (LegacyState(s.balance + LightChain.Delta(owner, t), None), Raised)
    else (LegacyState(s.balance + LightChain.Delta(owner, t), Some(s.transactions.value + [t])), Appended)
  }

  lemma FixedStepMatchesLightChain(owner: Key, balance: int, txs: seq<Tx>, t: Tx)
    ensures var (r, o) := FixedStep(owner, LegacyState(balance, Some(txs)), t);
      var l := LightChain.Step(owner, LightChain.LightState(balance, txs), t);
      r == LegacyState(l.balance, Some(l.transactions)) && (o == Refused <==> !LightChain.Relevant(owner, t))
  {
  }

  /** With the correction a transfer between strangers is refused. */
  lemma FixedIgnoresStrangers()
    ensures var t := NewTx(Rsa(2, 22), Rsa(3, 33), 40);
      FixedStep(Rsa(1, 11), LegacyState(100, Some([])), t) == (LegacyState(100, Some([])), Refused)
  {
  }

  class LightBlockchain {
    const owner: Key
    var balance: int
    var transactions: Option<seq<Tx>>
    var latestHash: Option<string>

    function State(): LegacyState
      reads this
    {
      LegacyState(balance, transactions)
    }

    /** `LightBlockchain(owner_pk, balance=0, transactions=None, latest_hash=None)`: no default list. */
    constructor (owner: Key, balance: int, transactions: Option<seq<Tx>>, latestHash: Option<string>)
      ensures this.owner == owner && this.balance == balance
      ensures this.transactions == transactions && this.latestHash == latestHash
    {
      this.owner := owner;
      this.balance := balance;
      this.transactions := transactions;
      this.latestHash := latestHash;
    }

    method FilterAndAddTransaction(t: Tx) returns (o: Outcome)
      modifies this
      ensures (State(), o) == Step(owner, old(State()), t) && latestHash == old(latestHash)
    {
      if SameKey(t.sender, owner) {
        balance := balance - t.amount;
      } else if !IsKey(t.recipient, owner) {
        balance := balance + t.amount;
      } else {
        return Refused;
      }
      if transactions.None? {
        return Raised;
      }
      transactions := Some(transactions.value + [t]);
      o := Appended;
    }

    /** `filter_and_add_block`: refused off the latest hash; `raised` when an append failed and ended the loop. */
    method FilterAndAddBlock(b: CoreBlock.Block) returns (refused: bool, raised: bool)
      modifies this
      ensures refused <==> b.previousHash != old(latestHash)
      ensures refused ==> !raised && State() == old(State()) && latestHash == old(latestHash)
      ensures !refused ==> latestHash == b.hash && (State(), raised) == Steps(owner, old(State()), b.transactions)
    {
      if b.previousHash != latestHash {
        return true, false;
      }
      refused := false;
      latestHash := b.hash;
      ghost var start := State();
      raised := false;
      var k := 0;
      while k < |b.transactions| && !raised
        invariant 0 <= k <= |b.transactions|
        invariant latestHash == b.hash
        invariant (State(), raised) == Steps(owner, start, b.transactions[..k])
      {
        assert b.transactions[..k + 1][..k] == b.transactions[..k];
        var o := FilterAndAddTransaction(b.transactions[k]);
        raised := o == Raised;
        k := k + 1;
      }
      if raised {
        StopsAfterRaise(owner, start, b.transactions, k);
      } else {
        assert b.transactions[..k] == b.transactions;
      }
    }
  }
}
