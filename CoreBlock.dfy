/**
 * A block of the node's ledger (core/block.py). The block is a value here:
 * `add_tipping_transaction` returns the block with the tipping transaction in
 * front instead of inserting into the shared list. SHA-256 over the block's
 * fields is the parameter `sha`, and signature verification is `verify`.
 */
module CoreBlock {
  import opened Wrappers
  import opened PyText
  import opened Ledger

  /** `MinerSettings.DIFFICULTY_LEVEL`. */
  const DifficultyLevel: int := 2

  /** A timestamp: seconds from `time.time()`, or a label such as the genesis block's "time-zero". */
  datatype Stamp = Seconds(seconds: real) | Label(text: string)

  /** Python truthiness of a timestamp. */
  predicate Truthy(s: Stamp)
  {
    match s
    case Seconds(t) => t != 0.0
    case Label(l) => l != ""
  }

  datatype Block = Block(
    previousHash: Option<string>, transactions: seq<Tx>, difficulty: int,
    timestamp: Stamp, nonce: int, hash: Option<string>)

  /** The fields `calculate_hash` serialises; the stored hash is not one of them. */
  datatype HashInput = HashInput(previousHash: Option<string>, transactions: seq<Tx>, difficulty: int, timestamp: Stamp, nonce: int)

  /** `Block(previous_hash, transactions, difficulty, timestamp, nonce, block_hash)` with `timestamp or time.time()`. */
  function NewBlock(previousHash: Option<string>, transactions: seq<Tx>, difficulty: int,
                    timestamp: Stamp, nonce: int, hash: Option<string>, now: real): (b: Block)
    ensures b.previousHash == previousHash && b.transactions == transactions && b.difficulty == difficulty
    ensures b.nonce == nonce && b.hash == hash
    ensures Truthy(timestamp) ==> b.timestamp == timestamp
    ensures !Truthy(timestamp) ==> b.timestamp == Seconds(now)
  {
    Block(previousHash, transactions, difficulty, if Truthy(timestamp) then timestamp else Seconds(now), nonce, hash)
  }

  function CalculateHash(b: Block, sha: HashInput -> string): string
  {
    sha(HashInput(b.previousHash, b.transactions, b.difficulty, b.timestamp, b.nonce))
  }

  /** The hash is a function of the contents only: storing a hash does not change it. */
  lemma HashIgnoresStoredHash(b: Block, h: Option<string>, sha: HashInput -> string)
    ensures CalculateHash(b.(hash := h), sha) == CalculateHash(b, sha)
  {
  }

  /** Every transaction after the first has a positive amount and a valid signature. */
  predicate SignedAndPositive(txs: seq<Tx>, verify: Tx -> bool)
  {
    forall i :: 0 <= i < |txs| ==> txs[i].amount > 0 && verify(txs[i])
  }

  /**
   * The verdict of `validate_block`: `None` stands for the `IndexError` raised
   * on a block with no transactions; otherwise the block is valid exactly when
   * every transaction after the first is positive and signed, and the first
   * one's amount is the sum of their tips.
   */
  function Validity(b: Block, verify: Tx -> bool): Option<bool>
  {
    if |b.transactions| == 0 then None
    else Some(SignedAndPositive(b.transactions[1..], verify) && TipSum(b.transactions[1..]) == b.transactions[0].amount)
  }

  /** `validate_block`: the early-exit scan with a running tip sum. */
  method ValidateBlock(b: Block, verify: Tx -> bool) returns (r: Option<bool>)
    ensures r == Validity(b, verify)
    ensures r.None? <==> |b.transactions| == 0
    ensures r == Some(true) <==> |b.transactions| > 0 && SignedAndPositive(b.transactions[1..], verify) &&
                                 TipSum(b.transactions[1..]) == b.transactions[0].amount
  {
    var rest := if |b.transactions| == 0 then [] else b.transactions[1..];
    var tipsSum := 0;
    var i := 0;
    while i < |rest|
      invariant 0 <= i <= |rest|
      invariant SignedAndPositive(rest[..i], verify)
      invariant tipsSum == TipSum(rest[..i])
    {
      var t := rest[i];
      if t.amount <= 0 || !verify(t) {
        return Some(false);
      }
      assert rest[..i + 1][..i] == rest[..i];
      tipsSum := tipsSum + t.tip;
      i := i + 1;
    }
    assert rest[..i] == rest;
    if |b.transactions| == 0 {
      return None;
    }
    r := Some(tipsSum == b.transactions[0].amount);
  }

  /** `add_tipping_transaction(public_key)` on values: the tipping transaction goes in front. */
  function Tipped(b: Block, publicKey: Key): Block
  {
    b.(transactions := [NewTx(TippingPk, publicKey, TipSum(b.transactions))] + b.transactions)
  }

  /** The summing loop of `add_tipping_transaction`, followed by the insertion at index 0. */
  method AddTippingTransaction(b: Block, publicKey: Key) returns (r: Block)
    ensures r == Tipped(b, publicKey)
    ensures |r.transactions| == |b.transactions| + 1 && r.transactions[1..] == b.transactions
    ensures r.transactions[0].sender == TippingPk && r.transactions[0].recipient == publicKey
  {
    var tipsSum := 0;
    var i := 0;
    while i < |b.transactions|
      invariant 0 <= i <= |b.transactions|
      invariant tipsSum == TipSum(b.transactions[..i])
    {
      assert b.transactions[..i + 1][..i] == b.transactions[..i];
      tipsSum := tipsSum + b.transactions[i].tip;
      i := i + 1;
    }
    assert b.transactions[..i] == b.transactions;
    r := b.(transactions := [NewTx(TippingPk, publicKey, tipsSum)] + b.transactions);
    assert r.transactions[1..] == b.transactions;
  }

  /**
   * A miner's output passes validation: once the tipping transaction is in
   * front of positive, signed transactions, `validate_block` accepts the block.
   */
  lemma TippedBlockValidates(b: Block, publicKey: Key, verify: Tx -> bool)
    requires SignedAndPositive(b.transactions, verify)
    ensures Validity(Tipped(b, publicKey), verify) == Some(true)
  {
    var t := Tipped(b, publicKey).transactions;
    assert t[1..] == b.transactions;
  }

  /** Validation fails when the tipping amount is off from the tips, whatever the signatures say. */
  lemma WrongTipTotalFails(b: Block, verify: Tx -> bool)
    requires |b.transactions| > 0 && TipSum(b.transactions[1..]) != b.transactions[0].amount
    ensures Validity(b, verify) == Some(false)
  {
  }

  /** A transaction after the first that is unsigned or not positive makes the block invalid. */
  lemma BadTransactionFails(b: Block, verify: Tx -> bool, i: int)
    requires 0 < i < |b.transactions|
    requires b.transactions[i].amount <= 0 || !verify(b.transactions[i])
    ensures Validity(b, verify) == Some(false)
  {
    assert b.transactions[1..][i - 1] == b.transactions[i];
  }

  /** The dict form: transactions go through their own `to_dict` (the parameter of the conversions). */
  datatype BlockDict<D> = BlockDict(
    previousHash: Option<string>, transactions: seq<D>, difficulty: int,
    timestamp: Stamp, nonce: int, hash: Option<string>)

  function MapTx<A, B>(s: seq<A>, f: A -> B): (r: seq<B>)
    ensures |r| == |s| && forall i :: 0 <= i < |s| ==> r[i] == f(s[i])
  {
    if |s| == 0 then [] else [f(s[0])] + MapTx(s[1..], f)
  }

  function ToDict<D>(b: Block, txToDict: Tx -> D): (d: BlockDict<D>)
    ensures d.previousHash == b.previousHash && d.difficulty == b.difficulty && d.timestamp == b.timestamp
    ensures d.nonce == b.nonce && d.hash == b.hash
    ensures |d.transactions| == |b.transactions|
    ensures forall i :: 0 <= i < |b.transactions| ==> d.transactions[i] == txToDict(b.transactions[i])
  {
    BlockDict(b.previousHash, MapTx(b.transactions, txToDict), b.difficulty, b.timestamp, b.nonce, b.hash)
  }

  /** `from_dict`: rebuilt through the constructor, so a falsy timestamp becomes the current time. */
  function FromDict<D>(d: BlockDict<D>, txFromDict: D -> Tx, now: real): (b: Block)
    ensures |b.transactions| == |d.transactions|
    ensures forall i :: 0 <= i < |d.transactions| ==> b.transactions[i] == txFromDict(d.transactions[i])
  {
    NewBlock(d.previousHash, MapTx(d.transactions, txFromDict), d.difficulty, d.timestamp, d.nonce, d.hash, now)
  }

  lemma MapRoundTrip<A, B>(s: seq<A>, f: A -> B, g: B -> A)
    requires forall x :: g(f(x)) == x
    ensures MapTx(MapTx(s, f), g) == s
  {
  }

  /** A block with a truthy timestamp survives the dict round trip unchanged. */
  lemma RoundTrip<D>(b: Block, txToDict: Tx -> D, txFromDict: D -> Tx, now: real)
    requires forall t :: txFromDict(txToDict(t)) == t
    requires Truthy(b.timestamp)
    ensures FromDict(ToDict(b, txToDict), txFromDict, now) == b
  {
    MapRoundTrip(b.transactions, txToDict, txFromDict);
  }

  /** A falsy timestamp (`0.0` or "") does not survive: it is replaced by the current time. */
  lemma FalsyTimestampReplaced<D>(b: Block, txToDict: Tx -> D, txFromDict: D -> Tx, now: real)
    requires !Truthy(b.timestamp)
    ensures FromDict(ToDict(b, txToDict), txFromDict, now).timestamp == Seconds(now)
  {
  }
}
