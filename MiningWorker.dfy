/**
 * The worker of Miner/mining_process.py. `mine_worker` hashes the serialized
 * block followed by the decimal nonce. `start_mining_processes` hands each
 * worker a fixed-size range. SHA-256 over the UTF-8 bytes is the parameter
 * `sha`. The stop event is observed as in `RangeMining`.
 */
module MiningWorker {
  import opened Wrappers
  import opened PyText
  import opened RangeMining

  /** `MinerSettings.PROCESSES_NUMBER` and `PROCESS_RANGE` (dini_settings.py). */
  const ProcessesNumber: nat := 10
  const ProcessRange: nat := 10000

  /** The best hash so far is taken only at multiples of this nonce. */
  const LogPeriod: nat := 100000

  /** `f"{block_data}{nonce}"`. */
  function BlockString(blockData: string, nonce: int): string
  {
    blockData + IntToDecimal(nonce)
  }

  /** The hash `mine_worker` computes for each nonce. */
  function WorkerHash(sha: seq<byte> -> string, blockData: string): int -> string
  {
    n => sha(Utf8(BlockString(blockData, n)))
  }

  lemma WorkerHashAt(sha: seq<byte> -> string, blockData: string, n: int)
    ensures WorkerHash(sha, blockData)(n) == sha(Utf8(BlockString(blockData, n)))
  {
  }

  /** The result queue of `mine_worker`, which puts `(hash, nonce)` pairs. */
  class WorkerQueue {
    var items: seq<(string, int)>

    constructor ()
      ensures items == []
    {
      items := [];
    }

    method Put(item: (string, int))
      modifies this
      ensures items == old(items) + [item]
    {
      items := items + [item];
    }
  }

  /**
   * The loop of `mine_worker` over the nonce hashes `hashAt` (for the worker,
   * `WorkerHash(sha, blockData)`): the first qualifying nonce, unless the
   * event stops it first. The best hash is sampled every `period` nonces
   * (for the worker, `LogPeriod`).
   */
  method SearchWorker(hashAt: int -> string, start: int, end: int, difficulty: int, stopped: int -> bool,
                      period: int)
    returns (r: Search, maxTrailingZeros: nat, bestHash: Option<string>)
    requires period > 0
    ensures r == FirstHit(hashAt, difficulty, start, end, stopped)
    ensures maxTrailingZeros == BestZeros(hashAt, start, Searched(r, end), period)
    ensures bestHash.Some? ==> TrailingZeros(bestHash.value) == maxTrailingZeros
  {
    var target := Repeat('0', difficulty);
    maxTrailingZeros := 0;
    bestHash := None;
    var nonce := start;
    while nonce < end
      invariant start <= nonce && (nonce <= end || nonce == start)
      invariant FirstHit(hashAt, difficulty, start, end, stopped) == FirstHit(hashAt, difficulty, nonce, end, stopped)
      invariant maxTrailingZeros == BestZeros(hashAt, start, nonce, period)
      invariant bestHash.Some? ==> TrailingZeros(bestHash.value) == maxTrailingZeros
      decreases end - nonce
    {
      if stopped(nonce) {
        // a new block was mined elsewhere
        return Stopped(nonce), maxTrailingZeros, bestHash;
      }
      var blockHash := hashAt(nonce);
      if PyTake(blockHash, difficulty) == target {
        return Found(nonce, blockHash), maxTrailingZeros, bestHash;
      }
      FirstHitMiss(hashAt, difficulty, nonce, end, stopped);
      BestZerosStep(hashAt, start, nonce, period);
      if nonce % period == 0 {
        var trailingZeros := TrailingZeros(blockHash);
        if trailingZeros > maxTrailingZeros {
          maxTrailingZeros := trailingZeros;
          bestHash := Some(blockHash);
        }
      }
      nonce := nonce + 1;
    }
    r := Exhausted;
  }

  /** `mine_worker`: the search, and on a hit `(hash, nonce)` is queued and the event set. */
  method MineWorker(sha: seq<byte> -> string, blockData: string, start: int, end: int, difficulty: int,
                    stopped: int -> bool, event: StopEvent, queue: WorkerQueue)
    returns (r: Search)
    modifies event, queue
    ensures r == FirstHit(WorkerHash(sha, blockData), difficulty, start, end, stopped)
    ensures r.Found? ==> r.hash == sha(Utf8(BlockString(blockData, r.nonce)))
    ensures queue.items == old(queue.items) + (if r.Found? then [(r.hash, r.nonce)] else [])
    ensures event.isSet == (old(event.isSet) || r.Found?)
  {
    var maxTrailingZeros, bestHash;
    r, maxTrailingZeros, bestHash := SearchWorker(WorkerHash(sha, blockData), start, end, difficulty, stopped, LogPeriod);
    if r.Found? {
      FirstHitMeaning(WorkerHash(sha, blockData), difficulty, start, end, stopped);
      WorkerHashAt(sha, blockData, r.nonce);
      queue.Put((r.hash, r.nonce));
      event.isSet := true;
    }
  }

  /** A hit is the hash of the block string with the decimal nonce appended, and it meets the difficulty. */
  lemma HitHashesBlockString(sha: seq<byte> -> string, blockData: string, start: int, end: int, difficulty: int,
                             stopped: int -> bool)
    ensures var r := FirstHit(WorkerHash(sha, blockData), difficulty, start, end, stopped);
            r.Found? ==> start <= r.nonce < end && r.hash == sha(Utf8(blockData + IntToDecimal(r.nonce))) &&
                         MeetsDifficulty(r.hash, difficulty)
  {
    var hashAt := WorkerHash(sha, blockData);
    var r := FirstHit(hashAt, difficulty, start, end, stopped);
    FirstHitMeaning(hashAt, difficulty, start, end, stopped);
    if r.Found? {
      assert r.hash == hashAt(r.nonce);
      assert BlockString(blockData, r.nonce) == blockData + IntToDecimal(r.nonce);
      assert hashAt(r.nonce) == sha(Utf8(BlockString(blockData, r.nonce)));
    }
  }

  /** The loop of `start_mining_processes`: worker `i` gets `[i * PROCESS_RANGE, (i + 1) * PROCESS_RANGE)`. */
  method StartMiningRanges() returns (ranges: seq<(int, int)>)
    ensures ranges == Ranges(ProcessesNumber, ProcessRange)
  {
    ranges := [];
    for i := 0 to ProcessesNumber
      invariant |ranges| == i
      invariant forall j :: 0 <= j < i ==> ranges[j] == (j * ProcessRange, (j + 1) * ProcessRange)
    {
      ranges := ranges + [(i * ProcessRange, (i + 1) * ProcessRange)];
    }
  }

  /**
   * The workers' ranges start at 0, are contiguous and disjoint, and cover
   * the nonces below 100000 exactly once.
   */
  lemma WorkerRangesCover(k: int)
    requires 0 <= k < ProcessesNumber * ProcessRange
    ensures var rs := Ranges(ProcessesNumber, ProcessRange);
            rs[0].0 == 0 && rs[ProcessesNumber - 1].1 == 100000 &&
            rs[k / ProcessRange].0 <= k < rs[k / ProcessRange].1
    ensures forall i :: 0 <= i < ProcessesNumber && Ranges(ProcessesNumber, ProcessRange)[i].0 <= k < Ranges(ProcessesNumber, ProcessRange)[i].1 ==>
              i == k / ProcessRange
  {
    RangesPartition(ProcessesNumber, ProcessRange);
    RangeOfNonce(ProcessesNumber, ProcessRange, k);
  }
}
