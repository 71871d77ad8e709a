/**
 * The block of the RSA-signed chain (Blockchain/block.py), as a value. Its
 * hash covers the previous hash, the `repr` of each transaction, the
 * timestamp and the nonce. A transaction's `repr` shows the first three
 * digits of each key's modulus, the amount and the tip, and not the
 * signature. SHA-256 is the parameter `sha` and `verify_signature` is
 * `verify`.
 */
module SignedBlock {
  import opened Wrappers
  import opened PyText
  import opened Ledger
  import CoreBlock
  import Wire

  datatype Block = Block(
    previousHash: Option<string>, transactions: seq<Tx>, timestamp: real,
    nonce: int, blockHash: Option<string>)

  /**
   * `Block(previous_hash, transactions, timestamp=None, nonce=0, block_hash=None)`:
   * `timestamp or time.time()`, so a missing or zero timestamp becomes `now`.
   */
  function NewBlock(previousHash: Option<string>, transactions: seq<Tx>, timestamp: Option<real>,
                    nonce: int, blockHash: Option<string>, now: real): (b: Block)
    ensures b.previousHash == previousHash && b.transactions == transactions
    ensures b.nonce == nonce && b.blockHash == blockHash
    ensures timestamp.Some? && timestamp.value != 0.0 ==> b.timestamp == timestamp.value
    ensures timestamp.None? || timestamp.value == 0.0 ==> b.timestamp == now
  {
    Block(previousHash, transactions, if timestamp.Some? && timestamp.value != 0.0 then timestamp.value else now,
          nonce, blockHash)
  }

  /** With the defaults a new block has nonce 0, no hash yet, and the current time. */
  lemma NewBlockDefaults(previousHash: Option<string>, transactions: seq<Tx>, now: real)
    ensures var b := NewBlock(previousHash, transactions, None, 0, None, now);
      b.nonce == 0 && b.blockHash.None? && b.timestamp == now
  {
  }

  /** What `repr` shows of a key: `str(n)[:3]`; a string key has no `public_numbers` (None). */
  function KeyId(k: Key): Option<string>
  {
    match k
    case Rsa(_, n) => Some(PyTake(IntToDecimal(n), 3))
    case Named(_) => None
  }

  /** What `Transaction.__repr__` shows: the key ids, the amount and the tip. */
  datatype TxView = TxView(sender: Option<string>, recipient: Option<string>, amount: int, tip: int)

  function View(t: Tx): (v: TxView)
    ensures v.amount == t.amount && v.tip == t.tip
    ensures v.sender == KeyId(t.sender) && v.recipient == KeyId(t.recipient)
  {
    TxView(KeyId(t.sender), KeyId(t.recipient), t.amount, t.tip)
  }

  /** The fields `calculate_hash` formats into its input. */
  datatype HashInput = HashInput(previousHash: Option<string>, transactions: seq<TxView>, timestamp: real, nonce: int)

  function CalculateHash(b: Block, sha: HashInput -> string): string
  {
    sha(HashInput(b.previousHash, CoreBlock.MapTx(b.transactions, View), b.timestamp, b.nonce))
  }

  /** The stored hash is not part of the hashed contents. */
  lemma HashIgnoresStoredHash(b: Block, h: Option<string>, sha: HashInput -> string)
    ensures CalculateHash(b.(blockHash := h), sha) == CalculateHash(b, sha)
  {
  }

  /** Signatures are not hashed: re-signing the transactions leaves the block hash as it was. */
  lemma HashIgnoresSignatures(b: Block, c: Block, sha: HashInput -> string)
    requires c.previousHash == b.previousHash && c.timestamp == b.timestamp && c.nonce == b.nonce
    requires |c.transactions| == |b.transactions|
    requires forall i :: 0 <= i < |b.transactions| ==>
               c.transactions[i].(signature := b.transactions[i].signature) == b.transactions[i]
    ensures CalculateHash(c, sha) == CalculateHash(b, sha)
  {
    var vb := CoreBlock.MapTx(b.transactions, View);
    var vc := CoreBlock.MapTx(c.transactions, View);
    forall i | 0 <= i < |vb| ensures vc[i] == vb[i] {
      assert View(c.transactions[i]) == View(c.transactions[i].(signature := b.transactions[i].signature));
    }
    assert vc == vb;
  }

  /** Keys are hashed by three digits only: two transfers from different keys can hash alike. */
  lemma KeysHashedByLeadingDigits()
    ensures View(NewTx(Rsa(0, 1234), Rsa(2, 999), 5)) == View(NewTx(Rsa(1, 1235), Rsa(2, 999), 5))
  {
    assert NatToDecimal(1234) == "1234" by {
      assert NatToDecimal(123) == "123" by {
        assert NatToDecimal(12) == "12";
      }
    }
    assert NatToDecimal(1235) == "1235" by {
      assert NatToDecimal(123) == "123" by {
        assert NatToDecimal(12) == "12";
      }
    }
  }

  /**
   * `not self.signature` in `verify_signature`: no signature, or an empty
   * one, makes it raise `ValueError` instead of answering.
   */
  predicate Unsigned(t: Tx)
  {
    t.signature.None? || t.signature.value == ""
  }

  /** What `verify_signature` does for one transaction: raise when unsigned, otherwise the RSA check. */
  function VerifySignature(t: Tx, verify: Tx -> bool): (r: Result<bool, Wire.Fault>)
    ensures Unsigned(t) <==> r.Err?
    ensures r.Err? ==> r.error == Wire.ValueError
    ensures r.Ok? ==> r.value == verify(t)
  {
    if Unsigned(t) then Err(Wire.ValueError) else Ok(verify(t))
  }

  /**
   * `validate_transactions`: the scan stops at the first transaction that
   * does not verify (False) or whose `verify_signature` raises; nothing
   * catches the `ValueError`, so it leaves the scan.
   */
  function ValidateTransactions(txs: seq<Tx>, verify: Tx -> bool): (r: Result<bool, Wire.Fault>)
    ensures r.Err? ==> r.error == Wire.ValueError
  {
    if |txs| == 0 then Ok(true)
    else match VerifySignature(txs[0], verify)
      case Err(e) => Err(e)
      case Ok(false) => Ok(false)
      case Ok(true) => ValidateTransactions(txs[1..], verify)
  }

  /** Transaction `i` is signed and its signature verifies. */
  predicate Passes(txs: seq<Tx>, i: int, verify: Tx -> bool)
    requires 0 <= i < |txs|
  {
    !Unsigned(txs[i]) && verify(txs[i])
  }

  /** The index of the first transaction that does not pass, or `|txs|` when all do. */
  function FirstFail(txs: seq<Tx>, verify: Tx -> bool): (n: nat)
    ensures n <= |txs|
    ensures forall i :: 0 <= i < n ==> Passes(txs, i, verify)
    ensures n < |txs| ==> !Passes(txs, n, verify)
    decreases |txs|
  {
    if |txs| == 0 || !Passes(txs, 0, verify) then 0
    else
      var m := FirstFail(txs[1..], verify);
      assert forall i :: 0 <= i < m + 1 ==> Passes(txs, i, verify) by {
        forall i | 1 <= i < m + 1 ensures Passes(txs, i, verify) {
          assert Passes(txs[1..], i - 1, verify) && txs[1..][i - 1] == txs[i];
        }
      }
      1 + m
  }

  /** The scan answers by the first transaction that does not pass. */
  lemma {:induction false} ValidateAtFirstFail(txs: seq<Tx>, verify: Tx -> bool)
    ensures var n := FirstFail(txs, verify);
            ValidateTransactions(txs, verify) ==
              if n == |txs| then Ok(true) else if Unsigned(txs[n]) then Err(Wire.ValueError) else Ok(false)
    decreases |txs|
  {
    if |txs| > 0 && Passes(txs, 0, verify) {
      ValidateAtFirstFail(txs[1..], verify);
    }
  }

  /**
   * The scan's three answers: True exactly when every transaction is signed
   * and verifies; it raises exactly when the first transaction that does not
   * pass is unsigned; False exactly when that one is signed but fails.
   */
  lemma ValidateMeaning(txs: seq<Tx>, verify: Tx -> bool)
    ensures var r := ValidateTransactions(txs, verify);
            (r == Ok(true) <==> forall i :: 0 <= i < |txs| ==> Passes(txs, i, verify)) &&
            (r.Err? <==> exists k :: 0 <= k < |txs| && Unsigned(txs[k]) && forall i :: 0 <= i < k ==> Passes(txs, i, verify)) &&
            (r == Ok(false) <==> exists k :: 0 <= k < |txs| && !Unsigned(txs[k]) && !verify(txs[k]) &&
                                             forall i :: 0 <= i < k ==> Passes(txs, i, verify))
  {
    var n := FirstFail(txs, verify);
    ValidateAtFirstFail(txs, verify);
    forall k | 0 <= k < |txs| && !Passes(txs, k, verify) && forall i :: 0 <= i < k ==> Passes(txs, i, verify)
      ensures k == n
    {
    }
    if n < |txs| {
      assert forall i :: 0 <= i < n ==> Passes(txs, i, verify);
      assert !Passes(txs, n, verify);
    }
  }

  /** A block whose first transaction to fail is unsigned makes the scan raise. */
  lemma UnsignedRaises(txs: seq<Tx>, k: nat, verify: Tx -> bool)
    requires k < |txs| && Unsigned(txs[k]) && forall i :: 0 <= i < k ==> Passes(txs, i, verify)
    ensures ValidateTransactions(txs, verify) == Err(Wire.ValueError)
  {
    ValidateMeaning(txs, verify);
  }

  /** The dict form; transactions go through their own `to_dict`, a parameter of the conversions. */
  datatype BlockDict<D> = BlockDict(
    previousHash: Option<string>, transactions: seq<D>, timestamp: real, nonce: int, hash: Option<string>)

  function ToDict<D>(b: Block, txToDict: Tx -> D): (d: BlockDict<D>)
    ensures d.previousHash == b.previousHash && d.timestamp == b.timestamp
    ensures d.nonce == b.nonce && d.hash == b.blockHash
    ensures |d.transactions| == |b.transactions|
    ensures forall i :: 0 <= i < |b.transactions| ==> d.transactions[i] == txToDict(b.transactions[i])
  {
    BlockDict(b.previousHash, CoreBlock.MapTx(b.transactions, txToDict), b.timestamp, b.nonce, b.blockHash)
  }

  /** `from_dict`: rebuilt through the constructor, so a zero timestamp becomes the current time. */
  function FromDict<D>(d: BlockDict<D>, txFromDict: D -> Tx, now: real): (b: Block)
    ensures |b.transactions| == |d.transactions|
    ensures forall i :: 0 <= i < |d.transactions| ==> b.transactions[i] == txFromDict(d.transactions[i])
    ensures b.previousHash == d.previousHash && b.nonce == d.nonce && b.blockHash == d.hash
  {
    NewBlock(d.previousHash, CoreBlock.MapTx(d.transactions, txFromDict), Some(d.timestamp), d.nonce, d.hash, now)
  }

  /** Every field survives the round trip when the timestamp is not zero. */
  lemma RoundTrip<D>(b: Block, txToDict: Tx -> D, txFromDict: D -> Tx, now: real)
    requires forall t :: txFromDict(txToDict(t)) == t
    requires b.timestamp != 0.0
    ensures FromDict(ToDict(b, txToDict), txFromDict, now) == b
  {
    CoreBlock.MapRoundTrip(b.transactions, txToDict, txFromDict);
  }

  /** A zero timestamp does not survive: it comes back as the current time. */
  lemma ZeroTimestampReplaced<D>(b: Block, txToDict: Tx -> D, txFromDict: D -> Tx, now: real)
    requires b.timestamp == 0.0
    ensures FromDict(ToDict(b, txToDict), txFromDict, now).timestamp == now
  {
  }
}
