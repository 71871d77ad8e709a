/**
 * The user's light chain (core/light_blockchain.py): a balance, the list of
 * transactions that touched the owner, and the latest block hash. The latest
 * hash is either text (a block's hash) or bytes (as `from_dict` produces and
 * as the module's own check stores); `to_dict` writes bytes as hex and fails
 * on text, whose `str` has no `.hex()`.
 */
module LightChain {
  import opened Wrappers
  import opened PyText
  import opened Ledger
  import CoreBlock

  datatype HashValue = Text(text: string) | Bytes(bytes: seq<byte>)

  /** Python truthiness of an optional hash. */
  predicate Truthy(h: Option<HashValue>)
  {
    h.Some? && match h.value
      case Text(s) => s != ""
      case Bytes(b) => b != []
  }

  /** A block's `previous_hash` (a `str` or `None`) as a latest-hash value; a `str` never equals `bytes`. */
  function AsHash(h: Option<string>): Option<HashValue>
  {
    if h.Some? then Some(Text(h.value)) else None
  }

  // ------------------------------------------------------------ hex codec

  function HexDigit(n: int): (c: char)
    requires 0 <= n < 16
  {
    if n < 10 then (48 + n) as char else (87 + n) as char
  }

  /** The value of one hex digit, either case, or `None`. */
  function HexValue(c: char): (r: Option<int>)
    ensures r.Some? ==> 0 <= r.value < 16
  {
    if '0' <= c <= '9' then Some(c as int - 48)
    else if 'a' <= c <= 'f' then Some(c as int - 87)
    else if 'A' <= c <= 'F' then Some(c as int - 55)
    else None
  }

  lemma HexDigitValue(n: int)
    requires 0 <= n < 16
    ensures HexValue(HexDigit(n)) == Some(n)
  {
  }

  /** `bytes.hex()`: two lower-case digits per byte. */
  function Hex(b: seq<byte>): (s: string)
    ensures |s| == 2 * |b|
  {
    if |b| == 0 then "" else [HexDigit(b[0] / 16), HexDigit(b[0] % 16)] + Hex(b[1..])
  }

  /** `bytes.fromhex(s)` on digit pairs; `None` stands for the `ValueError` on anything else. */
  function FromHex(s: string): (r: Option<seq<byte>>)
    decreases |s|
  {
    if |s| == 0 then Some([])
    else if |s| == 1 then None
    else match (HexValue(s[0]), HexValue(s[1]), FromHex(s[2..]))
      case (Some(hi), Some(lo), Some(rest)) => Some([(hi * 16 + lo) as byte] + rest)
      case _ => None
  }

  lemma {:induction false} HexRoundTrip(b: seq<byte>)
    ensures FromHex(Hex(b)) == Some(b)
  {
    if |b| > 0 {
      var s := Hex(b);
      HexDigitValue(b[0] / 16);
      HexDigitValue(b[0] % 16);
      assert s[2..] == Hex(b[1..]);
      HexRoundTrip(b[1..]);
      assert [b[0]] + b[1..] == b;
    }
  }

  // ------------------------------------------------------------ filtering

  datatype LightState = LightState(balance: int, transactions: seq<Tx>)

  predicate Relevant(owner: Key, t: Tx)
  {
    SameKey(t.sender, owner) || SameKey(t.recipient, owner)
  }

  /** The balance change of `filter_and_add_transaction`: the tip is not charged here. */
  function Delta(owner: Key, t: Tx): int
  {
    if SameKey(t.sender, owner) then -t.amount
    else if SameKey(t.recipient, owner) then t.amount
    else 0
  }

  function Step(owner: Key, s: LightState, t: Tx): LightState
  {
    if Relevant(owner, t) then LightState(s.balance + Delta(owner, t), s.transactions + [t]) else s
  }

  function Steps(owner: Key, s: LightState, txs: seq<Tx>): LightState
  {
    if |txs| == 0 then s else Step(owner, Steps(owner, s, txs[..|txs| - 1]), txs[|txs| - 1])
  }

  /** The relevant transactions of `txs`, in order. */
  function RelevantOf(owner: Key, txs: seq<Tx>): (r: seq<Tx>)
    ensures forall t :: t in r ==> t in txs && Relevant(owner, t)
  {
    if |txs| == 0 then []
    else RelevantOf(owner, txs[..|txs| - 1]) + if Relevant(owner, txs[|txs| - 1]) then [txs[|txs| - 1]] else []
  }

  function NetDelta(owner: Key, txs: seq<Tx>): int
  {
    if |txs| == 0 then 0 else NetDelta(owner, txs[..|txs| - 1]) + Delta(owner, txs[|txs| - 1])
  }

  /** A block's transactions move the balance by their net effect and append exactly the relevant ones, in order. */
  lemma {:induction false} StepsEffect(owner: Key, s: LightState, txs: seq<Tx>)
    ensures Steps(owner, s, txs).balance == s.balance + NetDelta(owner, txs)
    ensures Steps(owner, s, txs).transactions == s.transactions + RelevantOf(owner, txs)
  {
    if |txs| > 0 {
      StepsEffect(owner, s, txs[..|txs| - 1]);
    }
  }

  /** `get_recent_transactions(num)`: everything when `num` exceeds the count, else `transactions[-num:]`. */
  function Recent(txs: seq<Tx>, num: int): seq<Tx>
  {
    if num > |txs| then txs else PyDrop(txs, -num)
  }

  /** For `0 < num <=` the count, the answer is the last `num` transactions. */
  lemma RecentIsSuffix(txs: seq<Tx>, num: int)
    requires 0 < num <= |txs|
    ensures |Recent(txs, num)| == num && Recent(txs, num) == txs[|txs| - num..]
  {
  }

  /** `transactions[-0:]` is the whole list, so asking for none returns all; `-1` drops the first. */
  lemma RecentEdgeCases(txs: seq<Tx>)
    ensures Recent(txs, 0) == txs
    ensures |txs| > 0 ==> Recent(txs, -1) == txs[1..]
  {
  }

  // ------------------------------------------------------------ dict form

  datatype LightDict<D> = LightDict(ownerPem: string, balance: int, transactions: seq<D>, latestHash: Option<string>)

  datatype LightData = LightData(owner: Key, state: LightState, latestHash: Option<HashValue>)

  function MapTx<A, B>(s: seq<A>, f: A -> B): (r: seq<B>)
    ensures |r| == |s| && forall i :: 0 <= i < |s| ==> r[i] == f(s[i])
  {
    if |s| == 0 then [] else [f(s[0])] + MapTx(s[1..], f)
  }

  /** `to_dict`; `None` stands for the `AttributeError` of `.hex()` on a text hash. */
  function DataToDict<D>(w: LightData, pem: Key -> string, txToDict: Tx -> D): (r: Option<LightDict<D>>)
    ensures r.None? <==> Truthy(w.latestHash) && w.latestHash.value.Text?
    ensures r.Some? ==> r.value.ownerPem == pem(w.owner) && r.value.balance == w.state.balance &&
                        |r.value.transactions| == |w.state.transactions|
  {
    var txs := MapTx(w.state.transactions, txToDict);
    if !Truthy(w.latestHash) then Some(LightDict(pem(w.owner), w.state.balance, txs, None))
    else match w.latestHash.value
      case Text(_) => None
      case Bytes(b) => Some(LightDict(pem(w.owner), w.state.balance, txs, Some(Hex(b))))
  }

  /** `from_dict`; `None` stands for the `ValueError` of `bytes.fromhex`. */
  function DataFromDict<D>(d: LightDict<D>, loadPem: string -> Key, txFromDict: D -> Tx): (r: Option<LightData>)
    ensures (d.latestHash.None? || d.latestHash.value == "") ==> r.Some? && r.value.latestHash.None?
    ensures r.Some? ==> r.value.owner == loadPem(d.ownerPem) && r.value.state.balance == d.balance
  {
    var state := LightState(d.balance, MapTx(d.transactions, txFromDict));
    if d.latestHash.None? || d.latestHash.value == "" then Some(LightData(loadPem(d.ownerPem), state, None))
    else match FromHex(d.latestHash.value)
      case None => None
      case Some(b) => Some(LightData(loadPem(d.ownerPem), state, Some(Bytes(b))))
  }

  /**
   * A light chain whose latest hash is bytes or falsy survives the dict round
   * trip: same balance, transactions and truthy hash, an equal owner key; a
   * falsy hash comes back as `None`.
   */
  lemma RoundTrip<D>(w: LightData, pem: Key -> string, loadPem: string -> Key, txToDict: Tx -> D, txFromDict: D -> Tx)
    requires !(Truthy(w.latestHash) && w.latestHash.value.Text?)
    requires forall k :: SameKey(loadPem(pem(k)), k)
    requires forall t :: txFromDict(txToDict(t)) == t
    ensures DataToDict(w, pem, txToDict).Some?
    ensures var r := DataFromDict(DataToDict(w, pem, txToDict).value, loadPem, txFromDict);
      r.Some? && r.value.state == w.state && SameKey(r.value.owner, w.owner) &&
      r.value.latestHash == if Truthy(w.latestHash) then w.latestHash else None
  {
    var d := DataToDict(w, pem, txToDict).value;
    assert MapTx(d.transactions, txFromDict) == w.state.transactions;
    assert SameKey(loadPem(pem(w.owner)), w.owner);
    if Truthy(w.latestHash) {
      var b := w.latestHash.value.bytes;
      HexRoundTrip(b);
      assert Hex(b) != "";
    }
  }

  // ------------------------------------------------------------ the chain

  class LightBlockchain {
    const owner: Key
    var balance: int
    var transactions: seq<Tx>
    var latestHash: Option<HashValue>

    function State(): LightState
      reads this
    {
      LightState(balance, transactions)
    }

    /** `LightBlockchain(owner_pk, balance=0, transactions=None, latest_hash=None)`. */
    constructor (owner: Key, balance: int, transactions: Option<seq<Tx>>, latestHash: Option<HashValue>)
      ensures this.owner == owner && this.balance == balance && this.latestHash == latestHash
      ensures this.transactions == if transactions.Some? then transactions.value else []
    {
      this.owner := owner;
      this.balance := balance;
      this.transactions := if transactions.Some? then transactions.value else [];
      this.latestHash := latestHash;
    }

    /** `filter_and_add_transaction`: `relevant` is false exactly when the method returns False. */
    method FilterAndAddTransaction(t: Tx) returns (relevant: bool)
      modifies this
      ensures relevant == Relevant(owner, t)
      ensures State() == Step(owner, old(State()), t) && latestHash == old(latestHash)
    {
      if SameKey(t.sender, owner) {
        balance := balance - t.amount;
      } else if SameKey(t.recipient, owner) {
        balance := balance + t.amount;
      } else {
        return false;
      }
      transactions := transactions + [t];
      relevant := true;
    }

    /** `filter_and_add_block`: a block that does not follow the latest hash is refused (returns False). */
    method FilterAndAddBlock(b: CoreBlock.Block) returns (refused: bool)
      modifies this
      ensures refused <==> AsHash(b.previousHash) != old(latestHash)
      ensures refused ==> State() == old(State()) && latestHash == old(latestHash)
      ensures !refused ==> latestHash == AsHash(b.hash) && State() == Steps(owner, old(State()), b.transactions)
    {
      if AsHash(b.previousHash) != latestHash {
        return true;
      }
      latestHash := AsHash(b.hash);
      ghost var start := State();
      var k := 0;
      while k < |b.transactions|
        invariant 0 <= k <= |b.transactions|
        invariant latestHash == AsHash(b.hash)
        invariant State() == Steps(owner, start, b.transactions[..k])
      {
        assert b.transactions[..k + 1][..k] == b.transactions[..k];
        var _ := FilterAndAddTransaction(b.transactions[k]);
        k := k + 1;
      }
      assert b.transactions[..k] == b.transactions;
      refused := false;
    }

    function GetRecentTransactions(num: int): (r: seq<Tx>)
      reads this
      ensures r == Recent(transactions, num)
      ensures num > |transactions| || num == 0 ==> r == transactions
      ensures 0 < num <= |transactions| ==> r == transactions[|transactions| - num..]
    {
      RecentEdgeCases(transactions);
      if 0 < num <= |transactions| then RecentIsSuffix(transactions, num); Recent(transactions, num)
      else Recent(transactions, num)
    }
  }

  /**
   * The module's own check: from 100, paying 50 and receiving 30 leaves 80;
   * a block on top of `None` carrying both transactions moves the latest hash
   * to "hash123" and doubles the list to four entries.
   */
  method SampleRun() returns (balance: int, latest: Option<HashValue>, count: int)
    ensures balance == 80 && latest == Some(Text("hash123")) && count == 4
  {
    var me := Rsa(1, 11);
    var other := Rsa(2, 22);
    var chain := new LightBlockchain(me, 100, None, None);
    var t1 := NewTx(me, other, 50);
    var t2 := NewTx(other, me, 30);
    var _ := chain.FilterAndAddTransaction(t1);
    var _ := chain.FilterAndAddTransaction(t2);
    balance := chain.balance;
    var block := CoreBlock.NewBlock(None, [t1, t2], CoreBlock.DifficultyLevel, CoreBlock.Seconds(0.0), 0, Some("hash123"), 1.0);
    chain.latestHash := None;
    ghost var before := chain.State();
    var _ := chain.FilterAndAddBlock(block);
    assert [t1, t2][..1] == [t1] && [t1][..0] == [];
    assert Steps(me, before, [t1]) == Step(me, before, t1);
    assert chain.State() == Step(me, Step(me, before, t1), t2);
    latest := chain.latestHash;
    count := |chain.transactions|;
  }
}
