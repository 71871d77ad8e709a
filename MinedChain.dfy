/**
 * The proof-of-work chain (Blockchain/Blockchain.py): a list of `MinedBlock`
 * objects. `add_block` rewrites the caller's block in place, mines it and
 * appends it; the chain keeps a reference to that same object.
 */
module MinedChain {
  import opened Wrappers
  import opened PyText
  import opened MinedBlock

  /** The default of `Blockchain(difficulty=4)`. */
  const DefaultDifficulty: int := 4

  /** The one transaction of the genesis block. */
  const GenesisTransactions: seq<string> := ["Genesis Block"]

  class Blockchain {
    var chain: seq<Block>
    var difficulty: int

    /** `Blockchain(difficulty)`: a fresh genesis block on "0", stamped `now`, and nothing else. */
    constructor (difficulty: int, now: real, sha: HashInput -> string)
      ensures |chain| == 1 && fresh(chain[0]) && this.difficulty == difficulty
      ensures chain[0].previousHash == "0" && chain[0].transactions == GenesisTransactions
      ensures chain[0].nonce == 0 && chain[0].hash == chain[0].CalculateHash() && chain[0].sha == sha
    {
      var genesis := new Block("0", GenesisTransactions, None, now, sha);
      chain := [genesis];
      this.difficulty := difficulty;
    }

    /** `get_latest_block`: `chain[-1]`, defined while the chain is not empty. */
    function GetLatestBlock(): (b: Block)
      requires |chain| > 0
      reads this
      ensures b == chain[|chain| - 1]
    {
      chain[|chain| - 1]
    }

    /** Block `i` holds its own hash and points at block `i - 1`. */
    predicate Linked(i: int)
      requires 1 <= i < |chain|
      reads this, chain
    {
      chain[i].hash == chain[i].CalculateHash() && chain[i].previousHash == chain[i - 1].hash
    }

    predicate ChainValid()
      reads this, chain
    {
      forall i :: 1 <= i < |chain| ==> Linked(i)
    }

    /** `is_chain_valid`: the scan stops at the first block that is not linked. */
    method IsChainValid() returns (r: bool)
      ensures r <==> ChainValid()
    {
      var i := 1;
      while i < |chain|
        invariant 1 <= i
        invariant forall j :: 1 <= j < i && j < |chain| ==> Linked(j)
        decreases |chain| - i
      {
        var current := chain[i];
        var previous := chain[i - 1];
        if current.hash != current.CalculateHash() {
          assert !Linked(i);
          return false;
        }
        if current.previousHash != previous.hash {
          assert !Linked(i);
          return false;
        }
        i := i + 1;
      }
      r := true;
    }

    /**
     * `add_block(new_block)` as written: the block is pointed at the latest
     * hash, mined with `MineBlock`, and appended. The block keeps its stored
     * hash when that hash already meets the difficulty.
     */
    method AddBlock(nb: Block)
      requires |chain| > 0
      requires MeetsDifficulty(nb.hash, difficulty) ||
               exists n {:trigger nb.HashOn(chain[|chain| - 1].hash, n)} :: n > nb.nonce &&
                 MeetsDifficulty(nb.HashOn(chain[|chain| - 1].hash, n), difficulty)
      modifies this, nb
      ensures chain == old(chain) + [nb] && difficulty == old(difficulty)
      ensures nb.previousHash == old(chain[|chain| - 1].hash)
      ensures MeetsDifficulty(nb.hash, difficulty) && nb.nonce >= old(nb.nonce)
      ensures MeetsDifficulty(old(nb.hash), difficulty) ==> nb.hash == old(nb.hash) && nb.nonce == old(nb.nonce)
      ensures !MeetsDifficulty(old(nb.hash), difficulty) ==>
                nb.hash == nb.CalculateHash() &&
                forall n :: old(nb.nonce) < n < nb.nonce ==> !MeetsDifficulty(nb.HashAt(n), difficulty)
    {
      var prev := GetLatestBlock().hash;
      nb.previousHash := prev;
      if !MeetsDifficulty(nb.hash, difficulty) {
        ghost var n :| n > nb.nonce && MeetsDifficulty(nb.HashOn(prev, n), difficulty);
        assert nb.HashAt(n) == nb.HashOn(prev, n);
      }
      nb.MineBlock(difficulty);
      chain := chain + [nb];
    }

    /**
     * `add_block` with the corrected mining: the appended block holds its own
     * hash, so a valid chain stays valid when a new block object is added.
     */
    method AddBlockFixed(nb: Block)
      requires |chain| > 0
      requires exists n {:trigger nb.HashOn(chain[|chain| - 1].hash, n)} :: n >= nb.nonce &&
                 MeetsDifficulty(nb.HashOn(chain[|chain| - 1].hash, n), difficulty)
      modifies this, nb
      ensures chain == old(chain) + [nb] && difficulty == old(difficulty)
      ensures nb.previousHash == old(chain[|chain| - 1].hash)
      ensures MeetsDifficulty(nb.hash, difficulty) && nb.hash == nb.CalculateHash() && nb.nonce >= old(nb.nonce)
      ensures forall n :: old(nb.nonce) <= n < nb.nonce ==> !MeetsDifficulty(nb.HashAt(n), difficulty)
      ensures old(ChainValid()) && nb !in old(chain) ==> ChainValid()
    {
      ghost var wasValid := ChainValid() && nb !in chain;
      ghost var before := chain;
      var prev := GetLatestBlock().hash;
      nb.previousHash := prev;
      ghost var n :| n >= nb.nonce && MeetsDifficulty(nb.HashOn(prev, n), difficulty);
      assert nb.HashAt(n) == nb.HashOn(prev, n);
      nb.MineBlockFixed(difficulty);
      chain := chain + [nb];
      if wasValid {
        forall i | 1 <= i < |chain| ensures Linked(i) {
          if i < |before| {
            assert old(Linked(i));
            assert chain[i] == before[i] && chain[i - 1] == before[i - 1];
            assert before[i] != nb && before[i - 1] != nb;
          }
        }
      }
    }
  }

  /**
   * The stale hash in a concrete run: the new block's constructor hash happens
   * to meet the difficulty ("0000"), `add_block` re-points it at the genesis
   * hash, mining keeps the stale hash, and the chain is invalid.
   */
  method StaleHashScenario() returns (stored: string, own: string, valid: bool)
    ensures MeetsDifficulty(stored, DefaultDifficulty) && stored != own && !valid
  {
    var sha := (h: HashInput) =>
      if h.previousHash == "0" then "G"
      else if h.previousHash == "G" then (if h.nonce >= 1 then "0000G1" else "1")
      else "0000";
    var c := new Blockchain(DefaultDifficulty, 1.0, sha);
    var b := new Block("unmined", ["tx"], Some(2.0), 3.0, sha);
    assert MeetsDifficulty("0000", DefaultDifficulty) by {
      assert PyTake("0000", 4) == Repeat('0', 4);
    }
    c.AddBlock(b);
    stored := b.hash;
    own := b.CalculateHash();
    assert !c.Linked(1);
    valid := c.IsChainValid();
  }

  /** The same run with the corrected mining: the block is mined at nonce 1 and the chain is valid. */
  method FixedScenario() returns (stored: string, nonce: int, valid: bool)
    ensures stored == "0000G1" && nonce == 1 && valid
  {
    var sha := (h: HashInput) =>
      if h.previousHash == "0" then "G"
      else if h.previousHash == "G" then (if h.nonce >= 1 then "0000G1" else "1")
      else "0000";
    var c := new Blockchain(DefaultDifficulty, 1.0, sha);
    var b := new Block("unmined", ["tx"], Some(2.0), 3.0, sha);
    assert MeetsDifficulty("0000G1", DefaultDifficulty) by {
      assert PyTake("0000G1", 4) == "0000" == Repeat('0', 4);
    }
    assert !MeetsDifficulty("1", DefaultDifficulty);
    assert b.nonce == 0 && b.HashOn("G", 1) == "0000G1";
    c.AddBlockFixed(b);
    assert b.HashAt(0) == "1" && b.HashAt(1) == "0000G1";
    stored := b.hash;
    nonce := b.nonce;
    valid := c.IsChainValid();
  }
}
