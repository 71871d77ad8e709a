/**
 * The node's full chain (core/blockchain.py): a list of `CoreBlock` values
 * that starts with a pre-mined genesis block. The genesis key pair, the
 * genesis signature and `BlockChainSettings.FIRST_HASH` come from modules
 * that are not part of this model, so they are the `Genesis` parameters;
 * hashing and signature checks are the `sha` and `verify` parameters.
 */
module CoreChain {
  import opened Wrappers
  import opened PyText
  import opened Ledger
  import opened CoreBlock

  /** What `create_genesis_block` reads from configuration and key files. */
  datatype Genesis = Genesis(firstHash: Option<string>, key: Key, signature: Option<string>)

  /** `create_genesis_block`: one signed zero transfer from the genesis key to itself, pre-mined. */
  function GenesisBlock(g: Genesis, sha: HashInput -> string): (b: Block)
    ensures b.previousHash == g.firstHash && b.timestamp == Label("time-zero")
    ensures b.transactions == [Tx(g.key, g.key, 0, 0, g.signature)]
    ensures b.hash == Some(CalculateHash(b, sha))
  {
    var b := NewBlock(g.firstHash, [Tx(g.key, g.key, 0, 0, g.signature)], DifficultyLevel, Label("time-zero"), 0, None, 0.0);
    b.(hash := Some(CalculateHash(b, sha)))
  }

  /**
   * The gates of `filter_and_add_block`, in order: a missing hash or one
   * below the block's difficulty, a previous hash other than the latest
   * block's, then `validate_block`. `None` is an exception: `IndexError`
   * from an empty chain or from validating a block without transactions.
   */
  function Admission(chain: seq<Block>, b: Block, verify: Tx -> bool): Option<bool>
  {
    if b.hash.None? || !MeetsDifficulty(b.hash.value, b.difficulty) then Some(false)
    else if |chain| == 0 then None
    else if b.previousHash != chain[|chain| - 1].hash then Some(false)
    else Validity(b, verify)
  }

  /** Block `i` holds its own hash, points at block `i - 1` and validates. */
  predicate Linked(chain: seq<Block>, i: int, sha: HashInput -> string, verify: Tx -> bool)
    requires 1 <= i < |chain|
  {
    chain[i].hash == Some(CalculateHash(chain[i], sha)) &&
    chain[i].previousHash == chain[i - 1].hash &&
    Validity(chain[i], verify) == Some(true)
  }

  /** The verdict of `is_chain_valid`'s scan from index `i`; `None` is an exception from `validate_block`. */
  function CheckFrom(chain: seq<Block>, i: nat, sha: HashInput -> string, verify: Tx -> bool): Option<bool>
    requires i >= 1
    decreases |chain| - i
  {
    if i >= |chain| then Some(true)
    else if chain[i].hash != Some(CalculateHash(chain[i], sha)) then Some(false)
    else if chain[i].previousHash != chain[i - 1].hash then Some(false)
    else match Validity(chain[i], verify)
      case None => None
      case Some(ok) => if ok then CheckFrom(chain, i + 1, sha, verify) else Some(false)
  }

  predicate ChainValid(chain: seq<Block>, sha: HashInput -> string, verify: Tx -> bool)
  {
    CheckFrom(chain, 1, sha, verify) == Some(true)
  }

  lemma {:induction false} CheckFromMeaning(chain: seq<Block>, i: nat, sha: HashInput -> string, verify: Tx -> bool)
    requires i >= 1
    ensures CheckFrom(chain, i, sha, verify) == Some(true) <==>
            forall j :: i <= j < |chain| ==> Linked(chain, j, sha, verify)
    decreases |chain| - i
  {
    if i < |chain| {
      CheckFromMeaning(chain, i + 1, sha, verify);
      assert CheckFrom(chain, i, sha, verify) == Some(true) <==>
             Linked(chain, i, sha, verify) && CheckFrom(chain, i + 1, sha, verify) == Some(true);
    }
  }

  /** `is_chain_valid` holds exactly when every block after the genesis block is linked, hashed and valid. */
  lemma ChainValidMeaning(chain: seq<Block>, sha: HashInput -> string, verify: Tx -> bool)
    ensures ChainValid(chain, sha, verify) <==> forall j :: 1 <= j < |chain| ==> Linked(chain, j, sha, verify)
  {
    CheckFromMeaning(chain, 1, sha, verify);
  }

  /** An admitted block whose stored hash is its own hash extends a valid chain to a valid chain. */
  lemma AdmittedKeepsValid(chain: seq<Block>, b: Block, sha: HashInput -> string, verify: Tx -> bool)
    requires ChainValid(chain, sha, verify)
    requires Admission(chain, b, verify) == Some(true)
    requires b.hash == Some(CalculateHash(b, sha))
    ensures ChainValid(chain + [b], sha, verify)
  {
    var c := chain + [b];
    ChainValidMeaning(chain, sha, verify);
    forall j | 1 <= j < |c| ensures Linked(c, j, sha, verify) {
      if j < |chain| {
        assert Linked(chain, j, sha, verify);
        assert c[j] == chain[j] && c[j - 1] == chain[j - 1];
      }
    }
    ChainValidMeaning(c, sha, verify);
  }

  /**
   * `filter_and_add_block` does not recompute the hash: a block carrying an
   * invented "00" hash is appended to a valid chain, which is then invalid.
   */
  lemma FabricatedHashAdmitted()
    ensures var sha := (h: HashInput) => "ab";
            var verify := (t: Tx) => true;
            var g := GenesisBlock(Genesis(None, Named("genesis"), None), sha);
            var b := Block(g.hash, [NewTx(TippingPk, Named("miner"), 0)], 2, Seconds(1.0), 0, Some("00"));
            ChainValid([g], sha, verify) &&
            Admission([g], b, verify) == Some(true) &&
            !ChainValid([g, b], sha, verify)
  {
    var sha := (h: HashInput) => "ab";
    var verify := (t: Tx) => true;
    var g := GenesisBlock(Genesis(None, Named("genesis"), None), sha);
    var b := Block(g.hash, [NewTx(TippingPk, Named("miner"), 0)], 2, Seconds(1.0), 0, Some("00"));
    assert b.transactions[1..] == [];
    assert TipSum([]) == 0;
    assert MeetsDifficulty("00", 2) by {
      assert PyTake("00", 2) == "00";
      assert Repeat('0', 2) == "00";
    }
    assert CalculateHash(b, sha) == "ab";
  }

  /** The admission rule with the missing check: the stored hash must be the block's own hash. */
  function CheckedAdmission(chain: seq<Block>, b: Block, sha: HashInput -> string, verify: Tx -> bool): Option<bool>
  {
    if b.hash != Some(CalculateHash(b, sha)) then Some(false)
    else Admission(chain, b, verify)
  }

  /** With the check, admitting a block never turns a valid chain invalid. */
  lemma CheckedAdmissionKeepsValid(chain: seq<Block>, b: Block, sha: HashInput -> string, verify: Tx -> bool)
    requires ChainValid(chain, sha, verify)
    ensures CheckedAdmission(chain, b, sha, verify) == Some(true) ==> ChainValid(chain + [b], sha, verify)
  {
    if CheckedAdmission(chain, b, sha, verify) == Some(true) {
      AdmittedKeepsValid(chain, b, sha, verify);
    }
  }

  /** The index of the first block carrying hash `h`. */
  function FirstWithHash(chain: seq<Block>, h: Option<string>): (r: Option<nat>)
    ensures r.None? ==> forall j :: 0 <= j < |chain| ==> chain[j].hash != h
    ensures r.Some? ==> r.value < |chain| && chain[r.value].hash == h &&
                        forall j :: 0 <= j < r.value ==> chain[j].hash != h
  {
    if |chain| == 0 then None
    else if chain[0].hash == h then Some(0)
    else match FirstWithHash(chain[1..], h)
      case None => None
      case Some(k) => Some(k + 1)
  }

  /** A first match, or no match at all, is what `FirstWithHash` finds. */
  lemma FirstWithHashAt(chain: seq<Block>, h: Option<string>, at: Option<nat>)
    requires at.None? ==> forall j :: 0 <= j < |chain| ==> chain[j].hash != h
    requires at.Some? ==> at.value < |chain| && chain[at.value].hash == h &&
                          forall j :: 0 <= j < at.value ==> chain[j].hash != h
    ensures FirstWithHash(chain, h) == at
  {
    var r := FirstWithHash(chain, h);
    if r.Some? && at.Some? {
      assert !(r.value < at.value) && !(at.value < r.value);
    }
  }

  /** What `get_blocks_after` collects: the blocks after the first one with hash `h`, or none. */
  function BlocksAfter(chain: seq<Block>, h: Option<string>): seq<Block>
  {
    match FirstWithHash(chain, h)
    case None => []
    case Some(i) => chain[i + 1..]
  }

  /** Asking for the blocks after the latest block returns exactly the blocks appended since. */
  lemma BlocksAfterLatest(chain: seq<Block>, added: seq<Block>)
    requires |chain| > 0
    requires forall j :: 0 <= j < |chain| - 1 ==> chain[j].hash != chain[|chain| - 1].hash
    ensures BlocksAfter(chain + added, chain[|chain| - 1].hash) == added
  {
    var c := chain + added;
    var h := chain[|chain| - 1].hash;
    var r := FirstWithHash(c, h);
    assert c[|chain| - 1].hash == h;
    assert forall j :: 0 <= j < |chain| - 1 ==> c[j] == chain[j];
    assert c[|chain|..] == added;
  }

  function ChainToDict<D>(chain: seq<Block>, txToDict: Tx -> D): (r: seq<BlockDict<D>>)
    ensures |r| == |chain| && forall i :: 0 <= i < |chain| ==> r[i] == ToDict(chain[i], txToDict)
  {
    if |chain| == 0 then [] else [ToDict(chain[0], txToDict)] + ChainToDict(chain[1..], txToDict)
  }

  /** `Blockchain.from_dict`: the fresh chain's genesis block is replaced by the stored blocks. */
  function ChainFromDict<D>(d: seq<BlockDict<D>>, txFromDict: D -> Tx, now: real): (r: seq<Block>)
    ensures |r| == |d| && forall i :: 0 <= i < |d| ==> r[i] == FromDict(d[i], txFromDict, now)
  {
    if |d| == 0 then [] else [FromDict(d[0], txFromDict, now)] + ChainFromDict(d[1..], txFromDict, now)
  }

  /** A chain whose timestamps are all truthy survives the dict round trip block for block. */
  lemma ChainRoundTrip<D>(chain: seq<Block>, txToDict: Tx -> D, txFromDict: D -> Tx, now: real)
    requires forall t :: txFromDict(txToDict(t)) == t
    requires forall i :: 0 <= i < |chain| ==> Truthy(chain[i].timestamp)
    ensures ChainFromDict(ChainToDict(chain, txToDict), txFromDict, now) == chain
  {
    var r := ChainFromDict(ChainToDict(chain, txToDict), txFromDict, now);
    forall i | 0 <= i < |chain| ensures r[i] == chain[i] {
      RoundTrip(chain[i], txToDict, txFromDict, now);
    }
  }

  class Blockchain {
    var chain: seq<Block>
    const genesis: Genesis
    const sha: HashInput -> string
    const verify: Tx -> bool

    /** `Blockchain()`: the chain holds the genesis block alone. */
    constructor (genesis: Genesis, sha: HashInput -> string, verify: Tx -> bool)
      ensures chain == [GenesisBlock(genesis, sha)]
      ensures this.genesis == genesis && this.sha == sha && this.verify == verify
    {
      this.genesis := genesis;
      this.sha := sha;
      this.verify := verify;
      chain := [GenesisBlock(genesis, sha)];
    }

    /** `Blockchain.from_dict`. */
    constructor FromDict<D>(d: seq<BlockDict<D>>, txFromDict: D -> Tx, now: real,
                            genesis: Genesis, sha: HashInput -> string, verify: Tx -> bool)
      ensures chain == ChainFromDict(d, txFromDict, now)
      ensures this.genesis == genesis && this.sha == sha && this.verify == verify
    {
      this.genesis := genesis;
      this.sha := sha;
      this.verify := verify;
      chain := ChainFromDict(d, txFromDict, now);
    }

    /** `get_latest_block`: `chain[-1]`, which raises on an empty chain. */
    function GetLatestBlock(): (r: Option<Block>)
      reads this
      ensures r.None? <==> |chain| == 0
      ensures r.Some? ==> r.value == chain[|chain| - 1]
    {
      if |chain| == 0 then None else Some(chain[|chain| - 1])
    }

    /** `filter_and_add_block`: appends the block exactly when every gate passes. */
    method FilterAndAddBlock(b: Block) returns (r: Option<bool>)
      modifies this
      ensures r == Admission(old(chain), b, verify)
      ensures r == Some(true) <==> b.hash.Some? && MeetsDifficulty(b.hash.value, b.difficulty) && |old(chain)| > 0 &&
                                   b.previousHash == old(chain)[|old(chain)| - 1].hash && Validity(b, verify) == Some(true)
      ensures chain == if r == Some(true) then old(chain) + [b] else old(chain)
    {
      if b.hash.None? || !MeetsDifficulty(b.hash.value, b.difficulty) {
        return Some(false);
      }
      var latest := GetLatestBlock();
      if latest.None? {
        return None;
      }
      if b.previousHash != latest.value.hash {
        return Some(false);
      }
      r := ValidateBlock(b, verify);
      if r == Some(true) {
        chain := chain + [b];
      }
    }

    /** `get_blocks_after(latest_hash)`: the scan with a `found` flag. */
    method GetBlocksAfter(h: Option<string>) returns (blocks: seq<Block>)
      ensures blocks == BlocksAfter(chain, h)
    {
      var c := chain;
      blocks := [];
      var found := false;
      ghost var at := 0;
      var k := 0;
      while k < |c|
        invariant 0 <= k <= |c|
        invariant !found ==> blocks == [] && forall j :: 0 <= j < k ==> c[j].hash != h
        invariant found ==> 0 <= at < k && c[at].hash == h && (forall j :: 0 <= j < at ==> c[j].hash != h) &&
                            blocks == c[at + 1..k]
      {
        if found {
          assert c[at + 1..k + 1] == c[at + 1..k] + [c[k]];
          blocks := blocks + [c[k]];
        } else if c[k].hash == h {
          found := true;
          at := k;
        }
        k := k + 1;
      }
      // the scan stops at the same block as `FirstWithHash`
      FirstWithHashAt(c, h, if found then Some(at) else None);
    }

    /** `create_sub_blockchain`: a fresh chain, its own genesis block first, then the blocks after `h`. */
    method CreateSubBlockchain(h: Option<string>) returns (sub: Blockchain)
      ensures fresh(sub)
      ensures sub.chain == [GenesisBlock(genesis, sha)] + BlocksAfter(chain, h)
      ensures sub.genesis == genesis && sub.sha == sha && sub.verify == verify
    {
      sub := new Blockchain(genesis, sha, verify);
      var after := GetBlocksAfter(h);
      sub.chain := sub.chain + after;
    }

    /** `is_chain_valid`: the first failing check ends the scan. */
    method IsChainValid() returns (r: Option<bool>)
      ensures r == CheckFrom(chain, 1, sha, verify)
      ensures r == Some(true) <==> forall j :: 1 <= j < |chain| ==> Linked(chain, j, sha, verify)
    {
      ChainValidMeaning(chain, sha, verify);
      var c := chain;
      var i := 1;
      while i < |c|
        invariant 1 <= i
        invariant CheckFrom(c, 1, sha, verify) == CheckFrom(c, i, sha, verify)
        decreases |c| - i
      {
        if c[i].hash != Some(CalculateHash(c[i], sha)) {
          return Some(false);
        }
        if c[i].previousHash != c[i - 1].hash {
          return Some(false);
        }
        var ok := ValidateBlock(c[i], verify);
        if ok != Some(true) {
          return ok;
        }
        i := i + 1;
      }
      r := Some(true);
    }
  }
}
