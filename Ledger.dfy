/**
 * The values every ledger component shares: public keys and transactions
 * (Blockchain/transaction.py). An RSA key object is known by its identity
 * `obj` and its public numbers; keys written as plain strings in
 * utils/config.py (the LORD, BONUS and TIPPING keys) are `Named`. Signing and
 * signature verification are left to the callers as function parameters.
 */
module Ledger {
  import opened Wrappers

  datatype Key = Rsa(obj: nat, numbers: int) | Named(name: string)

  /** `a == b` on keys: RSA key objects compare by their public numbers, strings by value. */
  predicate SameKey(a: Key, b: Key)
  {
    match a
    case Rsa(_, n) => b.Rsa? && b.numbers == n
    case Named(s) => b.Named? && b.name == s
  }

  /** `a is b`: the very same key object. */
  predicate IsKey(a: Key, b: Key)
  {
    a == b
  }

  /** The same object is always an equal key, but two equal keys need not be one object. */
  lemma IdentityIsFinerThanEquality(a: Key, b: Key)
    ensures IsKey(a, b) ==> SameKey(a, b)
    ensures SameKey(Rsa(0, 7), Rsa(1, 7)) && !IsKey(Rsa(0, 7), Rsa(1, 7))
  {
  }

  /** `Transaction(sender_pk, recipient_pk, amount, tip=0, signature=None)`. */
  datatype Tx = Tx(sender: Key, recipient: Key, amount: int, tip: int, signature: Option<string>)

  function NewTx(sender: Key, recipient: Key, amount: int): (t: Tx)
    ensures t.sender == sender && t.recipient == recipient && t.amount == amount
    ensures t.tip == 0 && t.signature.None?
  {
    Tx(sender, recipient, amount, 0, None)
  }

  /** `BlockSettings.TIPPING_PK`. */
  const TippingPk: Key := Named("tipping_public_string")

  /** The sum of the tips of `txs`. */
  function TipSum(txs: seq<Tx>): int
  {
    if |txs| == 0 then 0 else TipSum(txs[..|txs| - 1]) + txs[|txs| - 1].tip
  }

  lemma {:induction false} TipSumAppend(a: seq<Tx>, b: seq<Tx>)
    ensures TipSum(a + b) == TipSum(a) + TipSum(b)
    decreases |b|
  {
    if |b| == 0 {
      assert a + b == a;
    } else {
      assert (a + b)[..|a + b| - 1] == a + b[..|b| - 1];
      TipSumAppend(a, b[..|b| - 1]);
    }
  }

  /** Each tip counts once, whatever its position. */
  lemma TipSumCons(t: Tx, txs: seq<Tx>)
    ensures TipSum([t] + txs) == t.tip + TipSum(txs)
  {
    TipSumAppend([t], txs);
    assert [t][..0] == [];
  }
}
