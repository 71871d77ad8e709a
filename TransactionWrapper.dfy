/**
 * The wallet's wrapper around a transaction (network/miner/transaction_wrapper.py):
 * an id cut from the signature, a creation time and a status. The wrapped
 * transaction type `T`, its signature, and its own `to_dict`/`from_dict`
 * are parameters, as are `datetime.now()` and the ISO codec of `MinerAction`.
 * `TransactionSettings.ID_LENGTH` is not defined in utils/config.py, so
 * the id length is the parameter `idLength`.
 */
module MinerTransactionWrapper {
  import opened Wrappers
  import opened PyText
  import opened MinerAction

  datatype Wrapper<T> = Wrapper(transaction: T, id: string, createdAt: Instant, status: string)

  datatype WrapperDict<D> = WrapperDict(id: string, status: string, createdAt: string, transaction: D)

  /** `sig[:ID_LENGTH] if len(sig) >= ID_LENGTH else sig`, with a missing signature read as "". */
  function IdOf(signature: Option<string>, idLength: nat): (id: string)
    ensures signature.None? ==> id == ""
    ensures signature.Some? ==> |id| <= idLength && |id| <= |signature.value| && id == signature.value[..|id|]
    ensures signature.Some? ==> |id| == if |signature.value| < idLength then |signature.value| else idLength
  {
    var sig := if signature.Some? then signature.value else "";
    if |sig| >= idLength then sig[..idLength] else sig
  }

  /** The id rule is Python's `sig[:ID_LENGTH]`. */
  lemma IdIsPrefix(signature: string, idLength: nat)
    ensures IdOf(Some(signature), idLength) == PyTake(signature, idLength)
  {
  }

  /** `TransactionWrapper(transaction, status, created_at)`. */
  function NewWrapper<T>(transaction: T, status: string, createdAt: Option<Instant>, now: Instant,
                         signatureOf: T -> Option<string>, idLength: nat): (w: Wrapper<T>)
    ensures w.transaction == transaction && w.status == status
    ensures w.id == IdOf(signatureOf(transaction), idLength)
    ensures w.createdAt == if createdAt.Some? then createdAt.value else now
  {
    Wrapper(transaction, IdOf(signatureOf(transaction), idLength), if createdAt.Some? then createdAt.value else now, status)
  }

  function ToDict<T, D>(w: Wrapper<T>, iso: Instant -> string, txToDict: T -> D): (d: WrapperDict<D>)
    ensures d.id == w.id && d.status == w.status && d.createdAt == iso(w.createdAt) && d.transaction == txToDict(w.transaction)
  {
    WrapperDict(w.id, w.status, iso(w.createdAt), txToDict(w.transaction))
  }

  /** `from_dict`: rebuilt through the constructor, so the id is cut again from the signature. */
  function FromDict<T, D>(d: WrapperDict<D>, fromIso: string -> Option<Instant>, txFromDict: D -> T,
                          signatureOf: T -> Option<string>, idLength: nat): (r: Option<Wrapper<T>>)
    ensures r.None? <==> fromIso(d.createdAt).None?
    ensures r.Some? ==> r.value.transaction == txFromDict(d.transaction) && r.value.status == d.status &&
                        r.value.id == IdOf(signatureOf(txFromDict(d.transaction)), idLength)
    ensures r.Some? ==> Some(r.value.createdAt) == fromIso(d.createdAt)
  {
    var t := fromIso(d.createdAt);
    if t.None? then None
    else Some(NewWrapper(txFromDict(d.transaction), d.status, t, 0, signatureOf, idLength))
  }

  /** The stored "id" plays no part in `from_dict`. */
  lemma StoredIdIgnored<T, D>(d: WrapperDict<D>, other: string, fromIso: string -> Option<Instant>,
                              txFromDict: D -> T, signatureOf: T -> Option<string>, idLength: nat)
    ensures FromDict(d.(id := other), fromIso, txFromDict, signatureOf, idLength) ==
            FromDict(d, fromIso, txFromDict, signatureOf, idLength)
  {
  }

  /** A wrapper built by the constructor survives the dict round trip. */
  lemma RoundTrip<T, D>(transaction: T, status: string, createdAt: Option<Instant>, now: Instant,
                        iso: Instant -> string, fromIso: string -> Option<Instant>,
                        txToDict: T -> D, txFromDict: D -> T, signatureOf: T -> Option<string>, idLength: nat)
    requires forall t :: fromIso(iso(t)) == Some(t)
    requires forall x :: txFromDict(txToDict(x)) == x
    ensures var w := NewWrapper(transaction, status, createdAt, now, signatureOf, idLength);
      FromDict(ToDict(w, iso, txToDict), fromIso, txFromDict, signatureOf, idLength) == Some(w)
  {
    var w := NewWrapper(transaction, status, createdAt, now, signatureOf, idLength);
    assert fromIso(iso(w.createdAt)) == Some(w.createdAt);
    assert txFromDict(txToDict(transaction)) == transaction;
  }
}
