/**
 * A user's wallet (core/wallet.py): a balance, the transactions that touched
 * the owner (transaction -> time), the pending ones, and the hash of the
 * latest block seen. Dicts keyed by transaction are `PyDict` lists;
 * `datetime.now()` is an explicit time, PEM and ISO conversions and the
 * transaction's own dict codec are parameters. `BlockChainSettings.FIRST_HASH`
 * is not in utils/config.py, so it is the parameter `firstHash`.
 */
module Wallet {
  import opened Wrappers
  import opened PyText
  import opened PyDict
  import opened Ledger
  import Sorting
  import CoreBlock

  type Time = int

  /** The part of the wallet that transactions change. */
  datatype Books = Books(balance: int, transactions: Items<Tx, Time>, pending: Items<Tx, Time>)

  predicate Relevant(owner: Key, t: Tx)
  {
    SameKey(t.sender, owner) || SameKey(t.recipient, owner)
  }

  /** The balance change of `filter_and_add_transaction`: a sender pays amount and tip, a recipient gets the amount. */
  function Delta(owner: Key, t: Tx): int
  {
    if SameKey(t.sender, owner) then -t.amount - t.tip
    else if SameKey(t.recipient, owner) then t.amount
    else 0
  }

  /** `filter_and_add_transaction` on the books: a relevant transaction is recorded and leaves the pending pool. */
  function Step(owner: Key, b: Books, t: Tx, now: Time): Books
  {
    if !Relevant(owner, t) then b
    else Books(b.balance + Delta(owner, t), Put(b.transactions, t, now),
               if HasKey(b.pending, t) then Remove(b.pending, t) else b.pending)
  }

  /** The transactions of a block applied in order, the `i`-th at `times[i]`. */
  function Steps(owner: Key, b: Books, txs: seq<Tx>, times: seq<Time>): Books
    requires |times| == |txs|
  {
    if |txs| == 0 then b
    else Step(owner, Steps(owner, b, txs[..|txs| - 1], times[..|txs| - 1]), txs[|txs| - 1], times[|txs| - 1])
  }

  function NetDelta(owner: Key, txs: seq<Tx>): int
  {
    if |txs| == 0 then 0 else NetDelta(owner, txs[..|txs| - 1]) + Delta(owner, txs[|txs| - 1])
  }

  predicate BooksValid(b: Books)
  {
    DistinctKeys(b.transactions) && DistinctKeys(b.pending)
  }

  /** One transaction: irrelevant ones change nothing; relevant ones are recorded at `now` and are no longer pending. */
  lemma StepEffect(owner: Key, b: Books, t: Tx, now: Time)
    requires BooksValid(b)
    ensures var r := Step(owner, b, t, now);
      BooksValid(r) && r.balance == b.balance + Delta(owner, t) &&
      (!Relevant(owner, t) ==> r == b) &&
      (Relevant(owner, t) ==> Get(r.transactions, t) == Some(now) && !HasKey(r.pending, t))
  {
    PutKeepsDistinct(b.transactions, t, now);
    RemoveKeepsDistinct(b.pending, t);
  }

  /** A transfer to oneself is treated as spending: the owner pays the amount and the tip. */
  lemma SelfTransferDebits(owner: Key, t: Tx)
    requires SameKey(t.sender, owner) && SameKey(t.recipient, owner)
    ensures Delta(owner, t) == -t.amount - t.tip
  {
  }

  /** After a block the balance has moved by the net effect of its transactions, and the books stay well formed. */
  lemma {:induction false} StepsEffect(owner: Key, b: Books, txs: seq<Tx>, times: seq<Time>)
    requires |times| == |txs| && BooksValid(b)
    ensures BooksValid(Steps(owner, b, txs, times))
    ensures Steps(owner, b, txs, times).balance == b.balance + NetDelta(owner, txs)
  {
    if |txs| > 0 {
      var n := |txs| - 1;
      StepsEffect(owner, b, txs[..n], times[..n]);
      StepEffect(owner, Steps(owner, b, txs[..n], times[..n]), txs[n], times[n]);
    }
  }

  /** A block none of whose transactions touch the owner leaves the books as they were. */
  lemma {:induction false} IrrelevantBlockNoChange(owner: Key, b: Books, txs: seq<Tx>, times: seq<Time>)
    requires |times| == |txs|
    requires forall i :: 0 <= i < |txs| ==> !Relevant(owner, txs[i])
    ensures Steps(owner, b, txs, times) == b
  {
    if |txs| > 0 {
      var n := |txs| - 1;
      IrrelevantBlockNoChange(owner, b, txs[..n], times[..n]);
    }
  }

  // ------------------------------------------------------------ recent list

  /** The shape `get_recent_transactions` returns: `(transaction, time)` pairs or bare transactions. */
  datatype Recent = Pairs(items: Items<Tx, Time>) | Bare(txs: seq<Tx>)

  function ByTime(): ((Tx, Time)) -> int
  {
    (p: (Tx, Time)) => p.1
  }

  /** Finalized then pending entries, sorted newest first. */
  function NewestFirst(b: Books): (r: Items<Tx, Time>)
    ensures multiset(r) == multiset(b.transactions + b.pending)
  {
    Sorting.SortDesc(b.transactions + b.pending, ByTime())
  }

  function Firsts(s: Items<Tx, Time>): (r: seq<Tx>)
    ensures |r| == |s| && forall i :: 0 <= i < |s| ==> r[i] == s[i].0
  {
    if |s| == 0 then [] else [s[0].0] + Firsts(s[1..])
  }

  /** `get_recent_transactions(num)` as written: pairs for `-1` or a count above the size, bare transactions otherwise. */
  function GetRecent(b: Books, num: int): Recent
  {
    var sorted := NewestFirst(b);
    if num > |sorted| || num == -1 then Pairs(sorted)
    else Bare(Firsts(PyTake(sorted, num)))
  }

  /**
   * For `0 <= num <=` the number of entries, the answer holds `num`
   * transactions, newest first, none older than any entry left out.
   */
  lemma RecentAreNewest(b: Books, num: int)
    requires 0 <= num <= |b.transactions| + |b.pending|
    ensures var s := NewestFirst(b);
      GetRecent(b, num).Bare? && |GetRecent(b, num).txs| == num &&
      Sorting.SortedDesc(s, ByTime()) &&
      (forall i :: 0 <= i < num ==> GetRecent(b, num).txs[i] == s[i].0) &&
      (forall i, j :: 0 <= i < num <= j < |s| ==> s[i].1 >= s[j].1)
  {
    Sorting.SortDescSorted(b.transactions + b.pending, ByTime());
  }

  /**
   * The shape of the answer depends on `num`: the same one-entry wallet
   * yields pairs for `-1` and bare transactions for `1`.
   */
  lemma RecentShapeDepends(t: Tx, at: Time)
    ensures GetRecent(Books(0, [(t, at)], []), -1) == Pairs([(t, at)])
    ensures GetRecent(Books(0, [(t, at)], []), 1) == Bare([t])
  {
    var b := Books(0, [(t, at)], []);
    assert b.transactions + b.pending == [(t, at)];
    assert Sorting.SortDesc([(t, at)], ByTime()) == [(t, at)] by {
      assert [(t, at)][..0] == [];
    }
  }

  /** The evidently intended answer: always transactions, newest first, limited by `num` unless `num == -1`. */
  function GetRecentFixed(b: Books, num: int): (r: seq<Tx>)
    ensures num == -1 || num > |b.transactions| + |b.pending| ==> r == Firsts(NewestFirst(b))
    ensures 0 <= num <= |b.transactions| + |b.pending| ==> r == Firsts(NewestFirst(b))[..num]
  {
    var sorted := NewestFirst(b);
    if num > |sorted| || num == -1 then Firsts(sorted)
    else Firsts(PyTake(sorted, num))
  }

  /** The corrected answer agrees with the written one wherever the written one returns transactions. */
  lemma FixedAgreesWithBare(b: Books, num: int)
    ensures GetRecent(b, num).Bare? ==> GetRecentFixed(b, num) == GetRecent(b, num).txs
    ensures GetRecent(b, num).Pairs? ==> GetRecentFixed(b, num) == Firsts(GetRecent(b, num).items)
  {
  }

  // ------------------------------------------------------------ dict form

  /** `to_dict`: the owner as PEM text, each dict as a list of (transaction dict, ISO time) entries. */
  datatype WalletDict<D> = WalletDict(
    ownerPem: string, balance: int, transactions: seq<(D, string)>, pending: seq<(D, string)>,
    latestHash: Option<string>)

  datatype WalletData = WalletData(owner: Key, books: Books, latestHash: Option<string>)

  function Entries<D>(items: Items<Tx, Time>, txToDict: Tx -> D, iso: Time -> string): (r: seq<(D, string)>)
    ensures |r| == |items| && forall i :: 0 <= i < |items| ==> r[i] == (txToDict(items[i].0), iso(items[i].1))
  {
    if |items| == 0 then [] else [(txToDict(items[0].0), iso(items[0].1))] + Entries(items[1..], txToDict, iso)
  }

  /** The `from_dict` loop: each entry is stored under its rebuilt transaction, later entries overwriting earlier ones. */
  function Rebuild<D>(entries: seq<(D, string)>, txFromDict: D -> Tx, fromIso: string -> Time): Items<Tx, Time>
  {
    if |entries| == 0 then []
    else
      var last := entries[|entries| - 1];
      Put(Rebuild(entries[..|entries| - 1], txFromDict, fromIso), txFromDict(last.0), fromIso(last.1))
  }

  /** Storing through `Put` never repeats a key, whatever the entries hold. */
  lemma {:induction false} RebuildDistinct<D>(entries: seq<(D, string)>, txFromDict: D -> Tx, fromIso: string -> Time)
    ensures DistinctKeys(Rebuild(entries, txFromDict, fromIso))
  {
    if |entries| > 0 {
      var last := entries[|entries| - 1];
      RebuildDistinct(entries[..|entries| - 1], txFromDict, fromIso);
      PutKeepsDistinct(Rebuild(entries[..|entries| - 1], txFromDict, fromIso), txFromDict(last.0), fromIso(last.1));
    }
  }

  /** A falsy hash is written as `None`. */
  function TruthyHash(h: Option<string>): Option<string>
  {
    if h.Some? && h.value != "" then h else None
  }

  function DataToDict<D>(w: WalletData, pem: Key -> string, txToDict: Tx -> D, iso: Time -> string): (d: WalletDict<D>)
    ensures d.ownerPem == pem(w.owner) && d.balance == w.books.balance && d.latestHash == TruthyHash(w.latestHash)
    ensures |d.transactions| == |w.books.transactions| && |d.pending| == |w.books.pending|
  {
    WalletDict(pem(w.owner), w.books.balance, Entries(w.books.transactions, txToDict, iso),
               Entries(w.books.pending, txToDict, iso), TruthyHash(w.latestHash))
  }

  /** `Wallet(owner_pk, balance, transactions, latest_hash)`: a falsy latest hash becomes the first hash. */
  function InitialLatest(latestHash: Option<string>, firstHash: Option<string>): (r: Option<string>)
    ensures latestHash.Some? && latestHash.value != "" ==> r == latestHash
    ensures (latestHash.None? || latestHash.value == "") ==> r == firstHash
  {
    if latestHash.Some? && latestHash.value != "" then latestHash else firstHash
  }

  function DataFromDict<D>(d: WalletDict<D>, loadPem: string -> Key, txFromDict: D -> Tx, fromIso: string -> Time,
                       firstHash: Option<string>): (w: WalletData)
    ensures w.owner == loadPem(d.ownerPem) && w.books.balance == d.balance
    ensures w.latestHash == InitialLatest(d.latestHash, firstHash)
  {
    WalletData(loadPem(d.ownerPem),
               Books(d.balance, Rebuild(d.transactions, txFromDict, fromIso), Rebuild(d.pending, txFromDict, fromIso)),
               InitialLatest(d.latestHash, firstHash))
  }

  /** In a dict with distinct keys, no earlier entry carries the key of entry `n`. */
  lemma KeyNotEarlier(items: Items<Tx, Time>, n: nat)
    requires DistinctKeys(items) && n < |items|
    ensures !HasKey(items[..n], items[n].0)
  {
    forall i | 0 <= i < n ensures items[..n][i].0 != items[n].0 {
      assert items[..n][i] == items[i];
    }
  }

  lemma EntriesPrefix<D>(items: Items<Tx, Time>, txToDict: Tx -> D, iso: Time -> string, n: nat)
    requires n <= |items|
    ensures Entries(items, txToDict, iso)[..n] == Entries(items[..n], txToDict, iso)
  {
  }

  /** Rebuilding the entries of a dict with distinct keys gives the dict back, in order. */
  lemma {:induction false} RebuildEntries<D>(items: Items<Tx, Time>, txToDict: Tx -> D, iso: Time -> string,
                                            txFromDict: D -> Tx, fromIso: string -> Time)
    requires DistinctKeys(items)
    requires forall t :: txFromDict(txToDict(t)) == t
    requires forall t :: fromIso(iso(t)) == t
    ensures Rebuild(Entries(items, txToDict, iso), txFromDict, fromIso) == items
    decreases |items|
  {
    if |items| > 0 {
      var n := |items| - 1;
      var e := Entries(items, txToDict, iso);
      var p := items[..n];
      EntriesPrefix(items, txToDict, iso, n);
      assert DistinctKeys(p);
      RebuildEntries(p, txToDict, iso, txFromDict, fromIso);
      KeyNotEarlier(items, n);
      RebuildStep(e, items, txFromDict, fromIso);
    }
  }

  lemma PutFresh(d: Items<Tx, Time>, k: Tx, v: Time)
    requires !HasKey(d, k)
    ensures Put(d, k, v) == d + [(k, v)]
  {
  }

  /** The last entry of a rebuilt dict is stored after the others when its key is new. */
  lemma RebuildStep<D>(e: seq<(D, string)>, items: Items<Tx, Time>, txFromDict: D -> Tx, fromIso: string -> Time)
    requires |e| == |items| > 0
    requires Rebuild(e[..|e| - 1], txFromDict, fromIso) == items[..|items| - 1]
    requires txFromDict(e[|e| - 1].0) == items[|items| - 1].0 && fromIso(e[|e| - 1].1) == items[|items| - 1].1
    requires !HasKey(items[..|items| - 1], items[|items| - 1].0)
    ensures Rebuild(e, txFromDict, fromIso) == items
  {
    var d := items[..|items| - 1];
    var last := items[|items| - 1];
    assert Rebuild(e, txFromDict, fromIso) == Put(d, last.0, last.1);
    assert Put(d, last.0, last.1) == d + [(last.0, last.1)] by {
      PutFresh(d, last.0, last.1);
    }
    TakeOneMore(items, |items| - 1);
    assert items[..|items|] == items;
  }

  /** A wallet with a truthy latest hash comes back from its dict form with the same books and hash and an equal owner key. */
  lemma RoundTrip<D>(w: WalletData, pem: Key -> string, loadPem: string -> Key,
                     txToDict: Tx -> D, txFromDict: D -> Tx, iso: Time -> string, fromIso: string -> Time,
                     firstHash: Option<string>)
    requires BooksValid(w.books)
    requires w.latestHash.Some? && w.latestHash.value != ""
    requires forall k :: SameKey(loadPem(pem(k)), k)
    requires forall t :: txFromDict(txToDict(t)) == t
    requires forall t :: fromIso(iso(t)) == t
    ensures var r := DataFromDict(DataToDict(w, pem, txToDict, iso), loadPem, txFromDict, fromIso, firstHash);
      r.books == w.books && r.latestHash == w.latestHash && SameKey(r.owner, w.owner)
  {
    RebuildEntries(w.books.transactions, txToDict, iso, txFromDict, fromIso);
    RebuildEntries(w.books.pending, txToDict, iso, txFromDict, fromIso);
    assert SameKey(loadPem(pem(w.owner)), w.owner);
  }

  /** A wallet whose latest hash was cleared (a block without hash) reloads with the first hash. */
  lemma ClearedHashReloadsAsFirst<D>(w: WalletData, pem: Key -> string, loadPem: string -> Key,
                                     txToDict: Tx -> D, txFromDict: D -> Tx, iso: Time -> string, fromIso: string -> Time,
                                     firstHash: Option<string>)
    requires w.latestHash.None?
    ensures DataFromDict(DataToDict(w, pem, txToDict, iso), loadPem, txFromDict, fromIso, firstHash).latestHash == firstHash
  {
  }

  // ------------------------------------------------------------ the wallet

  class Wallet {
    const owner: Key
    var balance: int
    var transactions: Items<Tx, Time>
    var pending: Items<Tx, Time>
    var latestHash: Option<string>

    function State(): Books
      reads this
    {
      Books(balance, transactions, pending)
    }

    predicate Valid()
      reads this
    {
      BooksValid(State())
    }

    function Data(): WalletData
      reads this
    {
      WalletData(owner, State(), latestHash)
    }

    /** `Wallet(owner_pk, balance=0, transactions=None, latest_hash=None)`; nothing is pending. */
    constructor (owner: Key, balance: int, transactions: Option<Items<Tx, Time>>, latestHash: Option<string>,
                 firstHash: Option<string>)
      requires transactions.Some? ==> DistinctKeys(transactions.value)
      ensures Valid()
      ensures this.owner == owner && this.balance == balance && pending == []
      ensures this.transactions == if transactions.Some? then transactions.value else []
      ensures this.latestHash == InitialLatest(latestHash, firstHash)
    {
      this.owner := owner;
      this.balance := balance;
      this.transactions := if transactions.Some? then transactions.value else [];
      pending := [];
      this.latestHash := InitialLatest(latestHash, firstHash);
    }

    /** `Wallet.from_dict`: the constructor, then the pending pool from the dict. */
    constructor FromDict<D>(d: WalletDict<D>, loadPem: string -> Key, txFromDict: D -> Tx, fromIso: string -> Time,
                            firstHash: Option<string>)
      ensures Valid()
      ensures Data() == DataFromDict(d, loadPem, txFromDict, fromIso, firstHash)
    {
      RebuildDistinct(d.transactions, txFromDict, fromIso);
      RebuildDistinct(d.pending, txFromDict, fromIso);
      owner := loadPem(d.ownerPem);
      balance := d.balance;
      transactions := Rebuild(d.transactions, txFromDict, fromIso);
      pending := Rebuild(d.pending, txFromDict, fromIso);
      latestHash := InitialLatest(d.latestHash, firstHash);
    }

    /** `add_pending_transaction`: the transaction is pending since `now`. */
    method AddPendingTransaction(t: Tx, now: Time)
      requires Valid()
      modifies this
      ensures Valid()
      ensures pending == Put(old(pending), t, now) && Get(pending, t) == Some(now)
      ensures balance == old(balance) && transactions == old(transactions) && latestHash == old(latestHash)
    {
      PutKeepsDistinct(pending, t, now);
      pending := Put(pending, t, now);
    }

    /** `filter_and_add_transaction`: returns whether the transaction touched the owner. */
    method FilterAndAddTransaction(t: Tx, now: Time) returns (relevant: bool)
      requires Valid()
      modifies this
      ensures Valid()
      ensures relevant == Relevant(owner, t)
      ensures State() == Step(owner, old(State()), t, now) && latestHash == old(latestHash)
    {
      ghost var next := Step(owner, State(), t, now);
      assert BooksValid(next) by {
        StepEffect(owner, State(), t, now);
      }
      if SameKey(t.sender, owner) {
        balance := balance - t.amount;
        balance := balance - t.tip;
      } else if SameKey(t.recipient, owner) {
        balance := balance + t.amount;
      } else {
        return false;
      }
      transactions := Put(transactions, t, now);
      if HasKey(pending, t) {
        pending := Remove(pending, t);
      }
      relevant := true;
      assert State() == next;
    }

    /**
     * `filter_and_add_block`: a block that does not follow the latest hash is
     * refused (the method returns True); otherwise the latest hash moves to
     * the block's hash and each transaction is filtered, the `i`-th at `times[i]`.
     */
    method FilterAndAddBlock(b: CoreBlock.Block, times: seq<Time>) returns (refused: bool)
      requires Valid() && |times| == |b.transactions|
      modifies this
      ensures Valid()
      ensures refused <==> b.previousHash != old(latestHash)
      ensures refused ==> State() == old(State()) && latestHash == old(latestHash)
      ensures !refused ==> latestHash == b.hash && State() == Steps(owner, old(State()), b.transactions, times)
    {
      if b.previousHash != latestHash {
        return true;
      }
      latestHash := b.hash;
      ghost var start := State();
      var k := 0;
      while k < |b.transactions|
        invariant 0 <= k <= |b.transactions|
        invariant Valid()
        invariant latestHash == b.hash
        invariant State() == Steps(owner, start, b.transactions[..k], times[..k])
      {
        assert b.transactions[..k + 1][..k] == b.transactions[..k];
        assert times[..k + 1][..k] == times[..k];
        var _ := FilterAndAddTransaction(b.transactions[k], times[k]);
        k := k + 1;
      }
      assert b.transactions[..k] == b.transactions && times[..k] == times;
      refused := false;
    }

    /** `get_recent_transactions(num)`. */
    function GetRecentTransactions(num: int): (r: Recent)
      reads this
      ensures r == GetRecent(State(), num)
      ensures r.Pairs? <==> num > |transactions| + |pending| || num == -1
      ensures r.Pairs? ==> multiset(r.items) == multiset(transactions + pending)
      ensures 0 <= num <= |transactions| + |pending| ==> r.Bare? && |r.txs| == num
    {
      if 0 <= num <= |transactions| + |pending| then RecentAreNewest(State(), num); GetRecent(State(), num)
      else GetRecent(State(), num)
    }
  }
}
