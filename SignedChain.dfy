/**
 * The RSA-signed chain (Blockchain/blockchain.py): a list of `SignedBlock`
 * values and a difficulty. The genesis keys come from `get_sk_pk_pair`, so
 * the genesis transfer's keys, its signature and the clock are parameters.
 * `add_block` rewrites the caller's block; the model returns the rewritten
 * block beside the verdict.
 */
module SignedChain {
  import opened Wrappers
  import opened PyText
  import opened Ledger
  import opened SignedBlock
  import Wire

  /** The default of `Blockchain(difficulty=4)`. */
  const DefaultDifficulty: int := 4

  /** What `create_genesis_block` draws: two fresh keys and the signature over the zero transfer. */
  datatype Genesis = Genesis(genesisKey: Key, networkKey: Key, signature: Option<string>, now: real)

  /** `create_genesis_block`: a signed zero transfer in a block on "0", pre-mined with its own hash. */
  function GenesisBlock(g: Genesis, sha: HashInput -> string): (b: Block)
    ensures b.previousHash == Some("0") && b.nonce == 0
    ensures b.transactions == [Tx(g.genesisKey, g.networkKey, 0, 0, g.signature)]
    ensures b.blockHash == Some(CalculateHash(b, sha))
  {
    var b := NewBlock(Some("0"), [Tx(g.genesisKey, g.networkKey, 0, 0, g.signature)], None, 0, None, g.now);
    b.(blockHash := Some(CalculateHash(b, sha)))
  }

  /** The difficulty gate of `add_block`: a hash is present and has `difficulty` leading '0's. */
  predicate Mined(b: Block, difficulty: int)
  {
    b.blockHash.Some? && MeetsDifficulty(b.blockHash.value, difficulty)
  }

  /**
   * The block object after `add_block`: past the difficulty gate its previous
   * hash is overwritten with the latest block's hash, whether or not the block
   * is then appended.
   */
  function Relinked(chain: seq<Block>, b: Block, difficulty: int): Block
  {
    if !Mined(b, difficulty) || |chain| == 0 then b
    else b.(previousHash := chain[|chain| - 1].blockHash)
  }

  /**
   * The verdict of `add_block`: False for an unmined block, the `IndexError`
   * of `chain[-1]` on an empty chain, otherwise `validate_transactions`,
   * whose `ValueError` for an unsigned transaction passes through.
   */
  function Admission(chain: seq<Block>, b: Block, difficulty: int, verify: Tx -> bool): (r: Result<bool, Wire.Fault>)
    ensures r == Err(Wire.IndexError) <==> Mined(b, difficulty) && |chain| == 0
    ensures r.Err? ==> r.error == Wire.IndexError || r.error == Wire.ValueError
  {
    if !Mined(b, difficulty) then Ok(false)
    else if |chain| == 0 then Err(Wire.IndexError)
    else ValidateTransactions(b.transactions, verify)
  }

  /** `calculate_hash` of a block, as the scan of `is_chain_valid` uses it. */
  function HashOf(sha: HashInput -> string): Block -> string
  {
    b => CalculateHash(b, sha)
  }

  /** Block `i` stores its own hash and points at block `i - 1`: the two checks before the signatures. */
  predicate Headed(chain: seq<Block>, i: int, hash: Block -> string)
    requires 1 <= i < |chain|
  {
    chain[i].blockHash == Some(hash(chain[i])) &&
    chain[i].previousHash == chain[i - 1].blockHash
  }

  /** Block `i` holds its own hash, points at block `i - 1` and its signatures verify. */
  predicate Linked(chain: seq<Block>, i: int, hash: Block -> string, verify: Tx -> bool)
    requires 1 <= i < |chain|
  {
    Headed(chain, i, hash) && ValidateTransactions(chain[i].transactions, verify) == Ok(true)
  }

  /** Block `i` passes the hash checks and then its signature scan raises. */
  predicate RaisesAt(chain: seq<Block>, i: int, hash: Block -> string, verify: Tx -> bool)
    requires 1 <= i < |chain|
  {
    Headed(chain, i, hash) && ValidateTransactions(chain[i].transactions, verify).Err?
  }

  /**
   * The scan of `is_chain_valid` from index `i`, with `hash` standing for
   * `calculate_hash`: True exactly when every block from `i` on is linked; a
   * `ValueError` from a block's signature scan leaves the loop.
   */
  function CheckFrom(chain: seq<Block>, i: nat, hash: Block -> string, verify: Tx -> bool): (r: Result<bool, Wire.Fault>)
    requires i >= 1
    ensures r.Err? ==> r.error == Wire.ValueError
    decreases |chain| - i
  {
    if i >= |chain| then Ok(true)
    else if !Headed(chain, i, hash) then
      // a hash or link mismatch at block `i` ends the scan
      Ok(false)
    else match ValidateTransactions(chain[i].transactions, verify)
      case Err(e) => Err(e)
      case Ok(false) => Ok(false)
      case Ok(true) => CheckFrom(chain, i + 1, hash, verify)
  }

  /** The first block from `i` on that is not linked, or `|chain|` when every one is. */
  function FirstUnlinked(chain: seq<Block>, i: nat, hash: Block -> string, verify: Tx -> bool): (n: nat)
    requires i >= 1
    ensures i <= |chain| ==> i <= n <= |chain|
    ensures i > |chain| ==> n == i
    ensures forall m :: i <= m < n && m < |chain| ==> Linked(chain, m, hash, verify)
    ensures n < |chain| ==> !Linked(chain, n, hash, verify)
    decreases |chain| - i
  {
    if i >= |chain| || !Linked(chain, i, hash, verify) then i
    else FirstUnlinked(chain, i + 1, hash, verify)
  }

  /** One step of the scan, in terms of the block at `i`. */
  lemma CheckFromStep(chain: seq<Block>, i: nat, hash: Block -> string, verify: Tx -> bool)
    requires 1 <= i < |chain|
    ensures CheckFrom(chain, i, hash, verify) ==
              if Linked(chain, i, hash, verify) then CheckFrom(chain, i + 1, hash, verify)
              else if RaisesAt(chain, i, hash, verify) then Err(Wire.ValueError)
              else Ok(false)
  {
    var v := ValidateTransactions(chain[i].transactions, verify);
    assert v.Err? ==> v.error == Wire.ValueError;
  }

  /** What the scan answers when block `n` is the first one that is not linked. */
  function AnswerAt(chain: seq<Block>, n: nat, hash: Block -> string, verify: Tx -> bool): Result<bool, Wire.Fault>
  {
    if n >= |chain| || n < 1 then Ok(true)
    else if RaisesAt(chain, n, hash, verify) then Err(Wire.ValueError)
    else Ok(false)
  }

  /** The scan answers by the first block that is not linked. */
  lemma {:induction false} CheckFromAtFirst(chain: seq<Block>, i: nat, hash: Block -> string, verify: Tx -> bool)
    requires i >= 1
    ensures CheckFrom(chain, i, hash, verify) == AnswerAt(chain, FirstUnlinked(chain, i, hash, verify), hash, verify)
    decreases |chain| - i
  {
    if i < |chain| {
      CheckFromStep(chain, i, hash, verify);
      if Linked(chain, i, hash, verify) {
        assert FirstUnlinked(chain, i, hash, verify) == FirstUnlinked(chain, i + 1, hash, verify);
        CheckFromAtFirst(chain, i + 1, hash, verify);
      } else {
        assert FirstUnlinked(chain, i, hash, verify) == i;
      }
    } else {
      assert FirstUnlinked(chain, i, hash, verify) == i;
    }
  }

  /** The scan from `i` answers True exactly when every block from `i` on is linked. */
  lemma CheckFromMeaning(chain: seq<Block>, i: nat, hash: Block -> string, verify: Tx -> bool)
    requires i >= 1
    ensures CheckFrom(chain, i, hash, verify) == Ok(true) <==>
            forall j :: i <= j < |chain| ==> Linked(chain, j, hash, verify)
  {
    CheckFromAtFirst(chain, i, hash, verify);
  }

  /** The scan raises exactly when some block raises and every block before it is linked. */
  lemma CheckFromRaises(chain: seq<Block>, i: nat, hash: Block -> string, verify: Tx -> bool)
    requires i >= 1
    ensures CheckFrom(chain, i, hash, verify).Err? <==>
            exists j :: i <= j < |chain| && RaisesAt(chain, j, hash, verify) &&
                        forall m :: i <= m < j ==> Linked(chain, m, hash, verify)
  {
    var n := FirstUnlinked(chain, i, hash, verify);
    CheckFromAtFirst(chain, i, hash, verify);
    if CheckFrom(chain, i, hash, verify).Err? {
      assert n < |chain| && RaisesAt(chain, n, hash, verify);
      assert forall m :: i <= m < n ==> Linked(chain, m, hash, verify);
    }
    if exists j :: i <= j < |chain| && RaisesAt(chain, j, hash, verify) &&
                   forall m :: i <= m < j ==> Linked(chain, m, hash, verify) {
      var j :| i <= j < |chain| && RaisesAt(chain, j, hash, verify) &&
               forall m :: i <= m < j ==> Linked(chain, m, hash, verify);
      assert !Linked(chain, j, hash, verify);
      assert n == j;
    }
  }

  predicate ChainValid(chain: seq<Block>, sha: HashInput -> string, verify: Tx -> bool)
  {
    CheckFrom(chain, 1, HashOf(sha), verify) == Ok(true)
  }

  /** `is_chain_valid` holds exactly when every block after the genesis block is linked, hashed and signed. */
  lemma ChainValidMeaning(chain: seq<Block>, sha: HashInput -> string, verify: Tx -> bool)
    ensures ChainValid(chain, sha, verify) <==> forall j :: 1 <= j < |chain| ==> Linked(chain, j, HashOf(sha), verify)
  {
    CheckFromMeaning(chain, 1, HashOf(sha), verify);
  }

  /**
   * A block mined on the latest hash and carrying signed transactions keeps a
   * valid chain valid once `add_block` appends it.
   */
  lemma AddedKeepsValid(chain: seq<Block>, b: Block, difficulty: int, sha: HashInput -> string, verify: Tx -> bool)
    requires ChainValid(chain, sha, verify)
    requires Admission(chain, b, difficulty, verify) == Ok(true)
    requires |chain| > 0 && b.blockHash == Some(CalculateHash(b.(previousHash := chain[|chain| - 1].blockHash), sha))
    ensures ChainValid(chain + [Relinked(chain, b, difficulty)], sha, verify)
  {
    var c := chain + [Relinked(chain, b, difficulty)];
    ChainValidMeaning(chain, sha, verify);
    forall j | 1 <= j < |c| ensures Linked(c, j, HashOf(sha), verify) {
      if j < |chain| {
        assert Linked(chain, j, HashOf(sha), verify);
        assert c[j] == chain[j] && c[j - 1] == chain[j - 1];
      }
    }
    ChainValidMeaning(c, sha, verify);
  }

  /**
   * Because the previous hash is rewritten after mining, a block mined on some
   * other block passes every gate of `add_block` and leaves the chain invalid.
   */
  lemma AddBlockCanBreakChain()
    ensures var sha := (h: HashInput) => if h.previousHash == Some("elsewhere") then "0000a" else "0000b";
            var verify := (t: Tx) => true;
            var g := GenesisBlock(Genesis(Rsa(0, 1), Rsa(1, 2), None, 1.0), sha);
            var b := Block(Some("elsewhere"), [], 2.0, 7, Some("0000a"));
            b.blockHash == Some(CalculateHash(b, sha)) &&
            ChainValid([g], sha, verify) &&
            Admission([g], b, DefaultDifficulty, verify) == Ok(true) &&
            !ChainValid([g, Relinked([g], b, DefaultDifficulty)], sha, verify)
  {
    var sha := (h: HashInput) => if h.previousHash == Some("elsewhere") then "0000a" else "0000b";
    var verify := (t: Tx) => true;
    var g := GenesisBlock(Genesis(Rsa(0, 1), Rsa(1, 2), None, 1.0), sha);
    var b := Block(Some("elsewhere"), [], 2.0, 7, Some("0000a"));
    assert MeetsDifficulty("0000a", DefaultDifficulty) by {
      assert PyTake("0000a", 4) == "0000";
      assert Repeat('0', 4) == "0000";
    }
    assert g.blockHash == Some("0000b");
    var nb := Relinked([g], b, DefaultDifficulty);
    assert CalculateHash(nb, sha) == "0000b";
    assert !Linked([g, nb], 1, HashOf(sha), verify);
    ChainValidMeaning([g], sha, verify);
    ChainValidMeaning([g, nb], sha, verify);
  }

  /**
   * The evidently intended admission: after the rewrite the stored hash must
   * still be the block's own hash, as `is_chain_valid` demands.
   */
  function CheckedAdmission(chain: seq<Block>, b: Block, difficulty: int, sha: HashInput -> string, verify: Tx -> bool): (r: Result<bool, Wire.Fault>)
    ensures r == Ok(true) ==> Admission(chain, b, difficulty, verify) == Ok(true)
    ensures r != Admission(chain, b, difficulty, verify) ==> r == Ok(false)
  {
    var nb := Relinked(chain, b, difficulty);
    if Admission(chain, b, difficulty, verify) == Ok(true) && nb.blockHash != Some(CalculateHash(nb, sha)) then Ok(false)
    else Admission(chain, b, difficulty, verify)
  }

  /** With the check, `add_block` never turns a valid chain invalid. */
  lemma CheckedAdmissionKeepsValid(chain: seq<Block>, b: Block, difficulty: int, sha: HashInput -> string, verify: Tx -> bool)
    requires ChainValid(chain, sha, verify)
    ensures CheckedAdmission(chain, b, difficulty, sha, verify) == Ok(true) ==>
            ChainValid(chain + [Relinked(chain, b, difficulty)], sha, verify)
  {
    if CheckedAdmission(chain, b, difficulty, sha, verify) == Ok(true) {
      AddedKeepsValid(chain, b, difficulty, sha, verify);
    }
  }

  /** `Blockchain.to_dict`. */
  datatype ChainDict<D> = ChainDict(chain: seq<BlockDict<D>>, difficulty: int)

  function ChainToDict<D>(chain: seq<Block>, difficulty: int, txToDict: Tx -> D): (d: ChainDict<D>)
    ensures d.difficulty == difficulty && |d.chain| == |chain|
    ensures forall i :: 0 <= i < |chain| ==> d.chain[i] == ToDict(chain[i], txToDict)
  {
    ChainDict(seq(|chain|, i requires 0 <= i < |chain| => ToDict(chain[i], txToDict)), difficulty)
  }

  /** `Blockchain.from_dict`: the stored blocks replace the fresh chain's genesis block. */
  function ChainFromDict<D>(d: ChainDict<D>, txFromDict: D -> Tx, now: real): (r: seq<Block>)
    ensures |r| == |d.chain| && forall i :: 0 <= i < |d.chain| ==> r[i] == FromDict(d.chain[i], txFromDict, now)
  {
    seq(|d.chain|, i requires 0 <= i < |d.chain| => FromDict(d.chain[i], txFromDict, now))
  }

  /** The chain and the difficulty survive the round trip when no timestamp is zero. */
  lemma ChainRoundTrip<D>(chain: seq<Block>, difficulty: int, txToDict: Tx -> D, txFromDict: D -> Tx, now: real)
    requires forall t :: txFromDict(txToDict(t)) == t
    requires forall i :: 0 <= i < |chain| ==> chain[i].timestamp != 0.0
    ensures ChainToDict(chain, difficulty, txToDict).difficulty == difficulty
    ensures ChainFromDict(ChainToDict(chain, difficulty, txToDict), txFromDict, now) == chain
  {
    var r := ChainFromDict(ChainToDict(chain, difficulty, txToDict), txFromDict, now);
    forall i | 0 <= i < |chain| ensures r[i] == chain[i] {
      RoundTrip(chain[i], txToDict, txFromDict, now);
    }
  }

  class Blockchain {
    var chain: seq<Block>
    var difficulty: int
    const sha: HashInput -> string
    const verify: Tx -> bool

    /** `Blockchain(difficulty)`: the genesis block alone. */
    constructor (difficulty: int, genesis: Genesis, sha: HashInput -> string, verify: Tx -> bool)
      ensures chain == [GenesisBlock(genesis, sha)] && this.difficulty == difficulty
      ensures this.sha == sha && this.verify == verify
    {
      chain := [GenesisBlock(genesis, sha)];
      this.difficulty := difficulty;
      this.sha := sha;
      this.verify := verify;
    }

    /** `Blockchain.from_dict`: the stored difficulty and blocks. */
    constructor FromDict<D>(d: ChainDict<D>, txFromDict: D -> Tx, now: real, sha: HashInput -> string, verify: Tx -> bool)
      ensures chain == ChainFromDict(d, txFromDict, now) && difficulty == d.difficulty
      ensures this.sha == sha && this.verify == verify
    {
      chain := ChainFromDict(d, txFromDict, now);
      difficulty := d.difficulty;
      this.sha := sha;
      this.verify := verify;
    }

    /**
     * `add_block(new_block)`: the verdict, and the caller's block as the method
     * leaves it. Past the difficulty gate its previous hash is rewritten, also
     * when the signature scan then raises. Exactly one block, the rewritten
     * one, is appended on success.
     */
    method AddBlock(b: Block) returns (r: Result<bool, Wire.Fault>, block: Block)
      modifies this
      ensures r == Admission(old(chain), b, difficulty, verify) && block == Relinked(old(chain), b, difficulty)
      ensures r == Ok(true) <==> Mined(b, difficulty) && |old(chain)| > 0 &&
                                 forall i :: 0 <= i < |b.transactions| ==> Passes(b.transactions, i, verify)
      ensures r == Err(Wire.IndexError) <==> Mined(b, difficulty) && |old(chain)| == 0
      ensures r == Err(Wire.ValueError) <==>
                Mined(b, difficulty) && |old(chain)| > 0 &&
                exists k :: 0 <= k < |b.transactions| && Unsigned(b.transactions[k]) &&
                            forall i :: 0 <= i < k ==> Passes(b.transactions, i, verify)
      ensures Mined(b, difficulty) && |old(chain)| > 0 ==> block.previousHash == old(chain)[|old(chain)| - 1].blockHash
      ensures !Mined(b, difficulty) ==> block == b
      ensures chain == if r == Ok(true) then old(chain) + [block] else old(chain)
      ensures difficulty == old(difficulty)
    {
      block := b;
      if b.blockHash.None? || PyTake(b.blockHash.value, difficulty) != Repeat('0', difficulty) {
        return Ok(false), block;
      }
      if |chain| == 0 {
        // `chain[-1]` of an empty list
        return Err(Wire.IndexError), block;
      }
      block := block.(previousHash := chain[|chain| - 1].blockHash);
      ValidateMeaning(block.transactions, verify);
      var valid := ValidateTransactions(block.transactions, verify);
      if valid.Err? {
        return Err(valid.error), block;
      }
      if valid.value {
        chain := chain + [block];
        r := Ok(true);
      } else {
        r := Ok(false);
      }
    }

    /** `is_chain_valid`: True, False, or the `ValueError` of a block's signature scan. */
    function IsChainValid(): (r: Result<bool, Wire.Fault>)
      reads this
      ensures r == Ok(true) <==> forall j :: 1 <= j < |chain| ==> Linked(chain, j, HashOf(sha), verify)
      ensures r.Err? <==> exists j :: 1 <= j < |chain| && RaisesAt(chain, j, HashOf(sha), verify) &&
                                      forall m :: 1 <= m < j ==> Linked(chain, m, HashOf(sha), verify)
      ensures r.Err? ==> r.error == Wire.ValueError
    {
      CheckFromMeaning(chain, 1, HashOf(sha), verify);
      CheckFromRaises(chain, 1, HashOf(sha), verify);
      CheckFrom(chain, 1, HashOf(sha), verify)
    }
  }
}
