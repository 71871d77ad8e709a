/**
 * The sequential part of the multiprocess miner: `_mine_range` searches one
 * nonce range, and `get_block_hash` splits the 32-bit nonce space into one
 * range per process. network/miner/multiprocess_mining.py and
 * Miner/multiprocess_mining.py share this code.
 *
 * `hashAt(n)` is the block's `calculate_hash()` with nonce `n`: the block's
 * other fields stay fixed during the search. Other processes may set the
 * shared stop event at any time. `stopped(n)` says whether the event is seen
 * set at the check before nonce `n`.
 */
module RangeMining {
  import opened Wrappers
  import opened PyText

  /** How a search over `[start, end)` ends. */
  datatype Search = Found(nonce: int, hash: string) | Stopped(at: int) | Exhausted

  /**
   * The nonces in ascending order. A set event stops the search before a
   * nonce. The first nonce whose hash meets the difficulty is the result.
   */
  function FirstHit(hashAt: int -> string, difficulty: int, start: int, end: int, stopped: int -> bool): Search
    decreases end - start
  {
    if start >= end then Exhausted
    else if stopped(start) then Stopped(start)
    else if MeetsDifficulty(hashAt(start), difficulty) then Found(start, hashAt(start))
    else FirstHit(hashAt, difficulty, start + 1, end, stopped)
  }

  /**
   * A hit is a qualifying nonce of the range seen before the event; a stop
   * is where the event was first seen; every nonce before the end is
   * unstopped and misses.
   */
  lemma {:induction false} FirstHitMeaning(hashAt: int -> string, difficulty: int, start: int, end: int, stopped: int -> bool)
    ensures var r := FirstHit(hashAt, difficulty, start, end, stopped);
            (r.Found? ==>
               start <= r.nonce < end && r.hash == hashAt(r.nonce) && MeetsDifficulty(r.hash, difficulty) && !stopped(r.nonce) &&
               forall n :: start <= n < r.nonce ==> !stopped(n) && !MeetsDifficulty(hashAt(n), difficulty)) &&
            (r.Stopped? ==>
               start <= r.at < end && stopped(r.at) &&
               forall n :: start <= n < r.at ==> !stopped(n) && !MeetsDifficulty(hashAt(n), difficulty)) &&
            (r.Exhausted? ==>
               forall n :: start <= n < end ==> !stopped(n) && !MeetsDifficulty(hashAt(n), difficulty))
    decreases end - start
  {
    if start < end && !stopped(start) && !MeetsDifficulty(hashAt(start), difficulty) {
      FirstHitMeaning(hashAt, difficulty, start + 1, end, stopped);
    }
  }

  /** The search finds the least qualifying nonce, unless the event stops it first. */
  lemma FirstHitIsLeast(hashAt: int -> string, difficulty: int, start: int, end: int, stopped: int -> bool, k: int)
    requires start <= k < end && MeetsDifficulty(hashAt(k), difficulty)
    requires forall n :: start <= n <= k ==> !stopped(n)
    ensures FirstHit(hashAt, difficulty, start, end, stopped).Found?
    ensures FirstHit(hashAt, difficulty, start, end, stopped).nonce <= k
  {
    FirstHitMeaning(hashAt, difficulty, start, end, stopped);
  }

  /** The nonces before the one where the search ended, or the whole range. */
  function Searched(r: Search, end: int): int
  {
    match r
    case Found(n, _) => n
    case Stopped(n) => n
    case Exhausted => end
  }

  /**
   * `max_trailing_zeros` after the nonces in `[start, n)` have missed: the
   * most trailing '0's among the hashes it was taken over. `_mine_range`
   * takes it at every nonce (`period` 1), `mine_worker` only at multiples
   * of its logging period.
   */
  function BestZeros(hashAt: int -> string, start: int, n: int, period: int): nat
    requires period > 0
    decreases n - start
  {
    if n <= start then 0
    else
      var before := BestZeros(hashAt, start, n - 1, period);
      if (n - 1) % period == 0 && TrailingZeros(hashAt(n - 1)) > before then TrailingZeros(hashAt(n - 1)) else before
  }

  /** The best count is at least the count of every sampled hash. */
  lemma {:induction false} BestZerosBound(hashAt: int -> string, start: int, n: int, period: int)
    requires period > 0
    ensures forall i :: start <= i < n && i % period == 0 ==> TrailingZeros(hashAt(i)) <= BestZeros(hashAt, start, n, period)
    decreases n - start
  {
    if n > start {
      BestZerosBound(hashAt, start, n - 1, period);
    }
  }

  /** A nonce that is neither stopped nor a hit passes the search on to the next one. */
  lemma FirstHitMiss(hashAt: int -> string, difficulty: int, n: int, end: int, stopped: int -> bool)
    requires n < end && !stopped(n) && !MeetsDifficulty(hashAt(n), difficulty)
    ensures FirstHit(hashAt, difficulty, n, end, stopped) == FirstHit(hashAt, difficulty, n + 1, end, stopped)
  {
  }

  /** The best count so far is 0 or the count of a sampled hash. */
  lemma {:induction false} BestZerosAttained(hashAt: int -> string, start: int, n: int, period: int)
    requires period > 0
    ensures var z := BestZeros(hashAt, start, n, period);
            z == 0 || exists i :: start <= i < n && i % period == 0 && TrailingZeros(hashAt(i)) == z
    decreases n - start
  {
    if n > start {
      BestZerosAttained(hashAt, start, n - 1, period);
    }
  }

  /** One more nonce: the count moves up to that hash's zeros when it is sampled and beats the best so far. */
  lemma BestZerosStep(hashAt: int -> string, start: int, n: int, period: int)
    requires start <= n && period > 0
    ensures BestZeros(hashAt, start, n + 1, period) ==
            if n % period == 0 && TrailingZeros(hashAt(n)) > BestZeros(hashAt, start, n, period)
            then TrailingZeros(hashAt(n)) else BestZeros(hashAt, start, n, period)
  {
  }

  /** `max_trailing_zeros` never decreases as the search goes on. */
  lemma {:induction false} BestZerosMonotone(hashAt: int -> string, start: int, m: int, n: int, period: int)
    requires m <= n && period > 0
    ensures BestZeros(hashAt, start, m, period) <= BestZeros(hashAt, start, n, period)
    decreases n - m
  {
    if m < n {
      BestZerosMonotone(hashAt, start, m, n - 1, period);
    }
  }

  /** The shared stop event. */
  class StopEvent {
    var isSet: bool

    constructor ()
      ensures !isSet
    {
      isSet := false;
    }
  }

  /** The result queue; `_mine_range` puts the mined block's nonce and hash. */
  class ResultQueue {
    var items: seq<(int, string)>

    constructor ()
      ensures items == []
    {
      items := [];
    }

    method Put(item: (int, string))
      modifies this
      ensures items == old(items) + [item]
    {
      items := items + [item];
    }
  }

  /**
   * The loop of `_mine_range`: the nonce it stops at, plus the best
   * trailing-zero count over the nonces that missed and the hash that
   * reached it.
   */
  method SearchRange(hashAt: int -> string, difficulty: int, start: int, end: int, stopped: int -> bool)
    returns (r: Search, maxTrailingZeros: nat, bestHash: Option<string>)
    ensures r == FirstHit(hashAt, difficulty, start, end, stopped)
    ensures maxTrailingZeros == BestZeros(hashAt, start, Searched(r, end), 1)
    ensures bestHash.Some? ==> TrailingZeros(bestHash.value) == maxTrailingZeros && maxTrailingZeros > 0
  {
    var target := Repeat('0', difficulty);
    maxTrailingZeros := 0;
    bestHash := None;
    var nonce := start;
    while nonce < end
      invariant start <= nonce && (nonce <= end || nonce == start)
      invariant FirstHit(hashAt, difficulty, start, end, stopped) == FirstHit(hashAt, difficulty, nonce, end, stopped)
      invariant maxTrailingZeros == BestZeros(hashAt, start, nonce, 1)
      invariant bestHash.Some? ==> TrailingZeros(bestHash.value) == maxTrailingZeros && maxTrailingZeros > 0
      decreases end - nonce
    {
      if stopped(nonce) {
        // another process has mined the block
        return Stopped(nonce), maxTrailingZeros, bestHash;
      }
      var hash := hashAt(nonce);
      if PyTake(hash, difficulty) == target {
        return Found(nonce, hash), maxTrailingZeros, bestHash;
      }
      FirstHitMiss(hashAt, difficulty, nonce, end, stopped);
      var trailingZeros := TrailingZeros(hash);
      BestZerosStep(hashAt, start, nonce, 1);
      assert nonce % 1 == 0;
      if trailingZeros > maxTrailingZeros {
        maxTrailingZeros := trailingZeros;
        bestHash := Some(hash);
      }
      nonce := nonce + 1;
    }
    r := Exhausted;
  }

  /** `_mine_range`: the search, and on a hit the mined block is queued and the event set. */
  method MineRange(hashAt: int -> string, difficulty: int, start: int, end: int, stopped: int -> bool,
                   event: StopEvent, queue: ResultQueue)
    returns (r: Search, maxTrailingZeros: nat, bestHash: Option<string>)
    modifies event, queue
    ensures r == FirstHit(hashAt, difficulty, start, end, stopped)
    ensures queue.items == old(queue.items) + (if r.Found? then [(r.nonce, r.hash)] else [])
    ensures event.isSet == (old(event.isSet) || r.Found?)
    ensures maxTrailingZeros == BestZeros(hashAt, start, Searched(r, end), 1)
  {
    r, maxTrailingZeros, bestHash := SearchRange(hashAt, difficulty, start, end, stopped);
    if r.Found? {
      queue.Put((r.nonce, r.hash));
      event.isSet := true;
    }
  }

  /** An event set before the search starts ends it at once, with nothing queued. */
  lemma SetEventStopsAtOnce(hashAt: int -> string, difficulty: int, start: int, end: int, stopped: int -> bool)
    requires start < end && stopped(start)
    ensures FirstHit(hashAt, difficulty, start, end, stopped) == Stopped(start)
  {
  }

  /** `2**32`, the size of the nonce space `get_block_hash` splits. */
  const NonceSpace: nat := 0x1_0000_0000

  /** Range `i` of `count` ranges of `width` nonces each: `[i * width, (i + 1) * width)`. */
  function Ranges(count: nat, width: int): (rs: seq<(int, int)>)
    ensures |rs| == count
    ensures forall i :: 0 <= i < count ==> rs[i] == (i * width, (i + 1) * width)
  {
    seq(count, i => (i * width, (i + 1) * width))
  }

  /**
   * `get_block_hash`'s split among `processes` workers: `2**32 // processes`
   * nonces each. No processes raise `ZeroDivisionError` (None), and a
   * negative number starts none.
   */
  function NonceRanges(processes: int): (r: Option<seq<(int, int)>>)
    ensures r.None? <==> processes == 0
    ensures processes < 0 ==> r == Some([])
    ensures processes > 0 ==> r == Some(Ranges(processes, NonceSpace / processes))
  {
    if processes == 0 then None
    else if processes < 0 then Some([])
    else Some(Ranges(processes, NonceSpace / processes))
  }

  /** The loop of `get_block_hash` that gives each process its range. */
  method PartitionNonces(processes: int) returns (r: Option<seq<(int, int)>>)
    ensures r == NonceRanges(processes)
  {
    if processes == 0 {
      return None;
    }
    var nonceRange := if processes > 0 then NonceSpace / processes else 0;
    var ranges: seq<(int, int)> := [];
    var i := 0;
    while i < processes
      invariant 0 <= i <= processes || (processes < 0 && i == 0)
      invariant |ranges| == i
      invariant forall j :: 0 <= j < i ==> ranges[j] == (j * nonceRange, (j + 1) * nonceRange)
      decreases processes - i
    {
      ranges := ranges + [(i * nonceRange, (i + 1) * nonceRange)];
      i := i + 1;
    }
    assert processes > 0 ==> ranges == Ranges(processes, nonceRange);
    r := Some(ranges);
  }

  /**
   * Ranges of a positive width start at 0, each ends where the next begins,
   * and they are pairwise disjoint.
   */
  lemma RangesPartition(count: nat, width: int)
    requires width > 0
    ensures count > 0 ==> Ranges(count, width)[0].0 == 0
    ensures forall i :: 0 <= i < count - 1 ==> Ranges(count, width)[i].1 == Ranges(count, width)[i + 1].0
    ensures forall i, j :: 0 <= i < j < count ==> Ranges(count, width)[i].1 <= Ranges(count, width)[j].0
  {
    var rs := Ranges(count, width);
    forall i, j | 0 <= i < j < count ensures rs[i].1 <= rs[j].0 {
      assert (i + 1) * width <= j * width by {
        MultiplyMonotone(i + 1, j, width);
      }
    }
  }

  lemma MultiplyMonotone(a: int, b: int, w: int)
    requires a <= b && w > 0
    ensures a * w <= b * w
  {
  }

  /** Nonce `k` of the covered span lies in range `k / width` and in no other. */
  lemma {:induction false} RangeOfNonce(count: nat, width: int, k: int)
    requires width > 0 && 0 <= k < count * width
    ensures 0 <= k / width < count
    ensures var rs := Ranges(count, width); rs[k / width].0 <= k < rs[k / width].1
    ensures forall i :: 0 <= i < count && Ranges(count, width)[i].0 <= k < Ranges(count, width)[i].1 ==> i == k / width
  {
    var q := k / width;
    assert q * width <= k < (q + 1) * width;
    if q >= count {
      MultiplyMonotone(count, q, width);
    }
    forall i | 0 <= i < count && i * width <= k < (i + 1) * width ensures i == q {
      if i < q {
        MultiplyMonotone(i + 1, q, width);
      } else if i > q {
        MultiplyMonotone(q + 1, i, width);
      }
    }
  }

  /**
   * The split of the 32-bit nonce space stays below `2**32`. It leaves out
   * at most `processes - 1` of the highest nonces.
   */
  lemma NonceRangesInSpace(processes: int)
    requires processes > 0
    ensures var rs := NonceRanges(processes).value;
            rs[processes - 1].1 <= NonceSpace && NonceSpace - rs[processes - 1].1 < processes
  {
    var w := NonceSpace / processes;
    assert processes * w + NonceSpace % processes == NonceSpace;
  }
}
