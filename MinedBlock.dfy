/**
 * The proof-of-work block (Blockchain/Block.py): an object whose nonce and
 * hash change while it is mined. SHA-256 over the formatted contents is the
 * block's parameter `sha`; the transactions are the strings the chain puts
 * in a block. The "Block mined!" message is left out.
 */
module MinedBlock {
  import opened Wrappers
  import opened PyText

  /** The fields `calculate_hash` formats into its input. */
  datatype HashInput = HashInput(previousHash: string, transactions: seq<string>, timestamp: real, nonce: int)

  class Block {
    var previousHash: string
    const transactions: seq<string>
    const timestamp: real
    var nonce: int
    var hash: string
    const sha: HashInput -> string

    /** The hash the block would have on previous hash `prev` with nonce `n`. */
    function HashOn(prev: string, n: int): string
    {
      sha(HashInput(prev, transactions, timestamp, n))
    }

    /** The hash the block would have with nonce `n`. */
    function HashAt(n: int): string
      reads this`previousHash
    {
      HashOn(previousHash, n)
    }

    /** `calculate_hash`: a function of the previous hash, the transactions, the timestamp and the nonce. */
    function CalculateHash(): (h: string)
      reads this
      ensures h == HashAt(nonce)
    {
      sha(HashInput(previousHash, transactions, timestamp, nonce))
    }

    /** `Block(previous_hash, transactions, timestamp=None)`: nonce 0, and the hash of those contents. */
    constructor (previousHash: string, transactions: seq<string>, timestamp: Option<real>, now: real,
                 sha: HashInput -> string)
      ensures this.previousHash == previousHash && this.transactions == transactions && this.sha == sha
      ensures this.timestamp == if timestamp.Some? && timestamp.value != 0.0 then timestamp.value else now
      ensures nonce == 0 && hash == CalculateHash()
    {
      var stamp := if timestamp.Some? && timestamp.value != 0.0 then timestamp.value else now;
      this.previousHash := previousHash;
      this.transactions := transactions;
      this.timestamp := stamp;
      this.sha := sha;
      nonce := 0;
      hash := sha(HashInput(previousHash, transactions, stamp, 0));
    }

    /**
     * `mine_block(difficulty)` as written: the loop tests the stored hash
     * before it ever recomputes one, so a stored hash that already meets the
     * difficulty is kept even when it is not the block's own hash. Otherwise
     * the nonce goes up one at a time to the first nonce whose hash meets
     * the difficulty. Termination needs such a nonce to exist.
     */
    method MineBlock(difficulty: int)
      requires MeetsDifficulty(hash, difficulty) || exists n :: n > nonce && MeetsDifficulty(HashAt(n), difficulty)
      modifies this
      ensures previousHash == old(previousHash) && MeetsDifficulty(hash, difficulty) && nonce >= old(nonce)
      ensures MeetsDifficulty(old(hash), difficulty) ==> nonce == old(nonce) && hash == old(hash)
      ensures !MeetsDifficulty(old(hash), difficulty) ==>
                nonce > old(nonce) && hash == CalculateHash() &&
                forall n :: old(nonce) < n < nonce ==> !MeetsDifficulty(HashAt(n), difficulty)
    {
      ghost var bound := nonce;
      if !MeetsDifficulty(hash, difficulty) {
        bound :| bound > nonce && MeetsDifficulty(HashAt(bound), difficulty);
      }
      var target := Repeat('0', difficulty);
      while PyTake(hash, difficulty) != target
        invariant previousHash == old(previousHash) && nonce >= old(nonce)
        invariant nonce == old(nonce) ==> hash == old(hash)
        invariant MeetsDifficulty(old(hash), difficulty) ==> nonce == old(nonce)
        invariant nonce > old(nonce) ==> hash == CalculateHash()
        invariant forall n :: old(nonce) < n < nonce ==> !MeetsDifficulty(HashAt(n), difficulty)
        invariant MeetsDifficulty(hash, difficulty) || nonce < bound
        decreases bound - nonce
      {
        nonce := nonce + 1;
        hash := CalculateHash();
      }
    }

    /**
     * The evidently intended `mine_block`: the hash is recomputed before the
     * first test, so the block ends with its own hash, and that hash is the
     * first one from the current nonce on that meets the difficulty.
     */
    method MineBlockFixed(difficulty: int)
      requires exists n :: n >= nonce && MeetsDifficulty(HashAt(n), difficulty)
      modifies this
      ensures previousHash == old(previousHash) && nonce >= old(nonce)
      ensures MeetsDifficulty(hash, difficulty) && hash == CalculateHash()
      ensures forall n :: old(nonce) <= n < nonce ==> !MeetsDifficulty(HashAt(n), difficulty)
    {
      ghost var bound :| bound >= nonce && MeetsDifficulty(HashAt(bound), difficulty);
      hash := CalculateHash();
      var target := Repeat('0', difficulty);
      while PyTake(hash, difficulty) != target
        invariant previousHash == old(previousHash) && nonce >= old(nonce)
        invariant hash == CalculateHash()
        invariant forall n :: old(nonce) <= n < nonce ==> !MeetsDifficulty(HashAt(n), difficulty)
        invariant nonce <= bound
        decreases bound - nonce
      {
        nonce := nonce + 1;
        hash := CalculateHash();
      }
    }
  }
}
