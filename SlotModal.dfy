/**
 * The slot-machine mining dialog of the frontend
 * (frontend/components/mining-modal.tsx). Its effect depends on `slots`, so
 * every spin re-runs it; each run with `isMining` set clears the previous
 * spin interval but schedules a fresh completion timeout that nothing ever
 * cancels. `SlotModalAsWritten` models that; `SlotModal` is the intended
 * behaviour, one completion timeout per run, cancelled by the cleanup.
 * `Math.random()` draws are the `draws` parameters, already scaled to a
 * symbol index.
 */
module SlotMiningModal {

  const Symbols: seq<string> := ["💎", "🔔", "❤️", "7️⃣", "🍋", "🍒"]
  const Idle: seq<string> := ["?", "?", "?"]
  const Won: seq<string> := ["🎉", "🎉", "🎉"]

  /** `slots.map(() => symbols[Math.floor(Math.random() * symbols.length)])`. */
  function SpinResult(draws: seq<nat>): (r: seq<string>)
    requires |draws| == 3 && forall i :: 0 <= i < 3 ==> draws[i] < |Symbols|
    ensures |r| == 3 && forall i :: 0 <= i < 3 ==> r[i] in Symbols
  {
    [Symbols[draws[0]], Symbols[draws[1]], Symbols[draws[2]]]
  }

  /** `Math.floor(Math.random() * 4000) + 3000`: a whole number of milliseconds from 3 s up to 7 s. */
  function MiningDuration(draw: real): (ms: int)
    requires 0.0 <= draw < 1.0
    ensures 3000 <= ms < 7000
    ensures draw == 0.0 ==> ms == 3000
  {
    (draw * 4000.0).Floor + 3000
  }

  /** The component as written. */
  class SlotModalAsWritten {
    var isMining: bool
    var slots: seq<string>
    var jackpot: bool
    /** Whether the 100 ms spin interval is installed. */
    var spinning: bool
    /** Completion timeouts scheduled and not yet fired. */
    var timeouts: nat
    var starts: nat
    var completions: nat

    predicate Valid()
      reads this
    {
      spinning == isMining && |slots| == 3 && (isMining ==> timeouts >= 1)
    }

    constructor ()
      ensures Valid()
      ensures !isMining && slots == Idle && !jackpot && timeouts == 0 && starts == 0 && completions == 0
    {
      isMining := false;
      slots := Idle;
      jackpot := false;
      spinning := false;
      timeouts := 0;
      starts := 0;
      completions := 0;
    }

    /** The effect body, run after a change of `isMining` or `slots`. */
    method Effect()
      requires |slots| == 3
      modifies this
      ensures spinning == isMining
      ensures timeouts == old(timeouts) + (if isMining then 1 else 0)
      ensures isMining == old(isMining) && slots == old(slots) && jackpot == old(jackpot)
      ensures starts == old(starts) && completions == old(completions)
    {
      spinning := false;
      if isMining {
        spinning := true;
        timeouts := timeouts + 1;
      }
    }

    method StartClicked()
      requires Valid()
      modifies this
      ensures Valid()
      ensures !old(isMining) ==> isMining && !jackpot && starts == old(starts) + 1 && timeouts == old(timeouts) + 1
      ensures old(isMining) ==> starts == old(starts) && timeouts == old(timeouts)
      ensures completions == old(completions)
    {
      if isMining {
        return;
      }
      isMining := true;
      jackpot := false;
      starts := starts + 1;
      Effect();
    }

    /** One tick of the spin interval: new symbols, so the effect runs again. */
    method Spin(draws: seq<nat>)
      requires Valid() && spinning
      requires |draws| == 3 && forall i :: 0 <= i < 3 ==> draws[i] < |Symbols|
      modifies this
      ensures Valid()
      ensures slots == SpinResult(draws) && isMining
      ensures timeouts == old(timeouts) + 1 && completions == old(completions) && starts == old(starts)
    {
      slots := SpinResult(draws);
      Effect();
    }

    /** One scheduled timeout fires: it completes the run, whether or not one is running. */
    method FireTimeout()
      requires Valid() && timeouts > 0
      modifies this
      ensures Valid()
      ensures !isMining && jackpot && slots == Won && !spinning
      ensures timeouts == old(timeouts) - 1 && completions == old(completions) + 1 && starts == old(starts)
    {
      timeouts := timeouts - 1;
      spinning := false;
      isMining := false;
      jackpot := true;
      slots := Won;
      completions := completions + 1;
      Effect();
    }
  }

  /** One start, one spin, then the timeouts fire: the parent is told twice. */
  method OneSpinCompletesTwice() returns (starts: nat, completions: nat)
    ensures starts == 1 && completions == 2
  {
    var m := new SlotModalAsWritten();
    m.StartClicked();
    m.Spin([0, 1, 2]);
    m.FireTimeout();
    m.FireTimeout();
    starts := m.starts;
    completions := m.completions;
  }

  /** The intended component: the effect does not re-run on spins and its cleanup cancels the timeout. */
  class SlotModal {
    var isMining: bool
    var slots: seq<string>
    var jackpot: bool
    var spinning: bool
    var timeouts: nat
    var starts: nat
    var completions: nat

    /** At most one completion is pending, exactly while a run is in progress. */
    predicate Valid()
      reads this
    {
      spinning == isMining && |slots| == 3 &&
      timeouts == (if isMining then 1 else 0) &&
      completions + timeouts == starts
    }

    constructor ()
      ensures Valid()
      ensures !isMining && slots == Idle && !jackpot && starts == 0 && completions == 0
    {
      isMining := false;
      slots := Idle;
      jackpot := false;
      spinning := false;
      timeouts := 0;
      starts := 0;
      completions := 0;
    }

    method StartClicked()
      requires Valid()
      modifies this
      ensures Valid()
      ensures !old(isMining) ==> isMining && !jackpot && starts == old(starts) + 1
      ensures old(isMining) ==> starts == old(starts)
      ensures completions == old(completions) && completions <= starts
    {
      if isMining {
        return;
      }
      isMining := true;
      jackpot := false;
      starts := starts + 1;
      spinning := true;
      timeouts := 1;
    }

    method Spin(draws: seq<nat>)
      requires Valid() && spinning
      requires |draws| == 3 && forall i :: 0 <= i < 3 ==> draws[i] < |Symbols|
      modifies this
      ensures Valid()
      ensures slots == SpinResult(draws) && isMining
      ensures timeouts == old(timeouts) && completions == old(completions) && starts == old(starts)
    {
      slots := SpinResult(draws);
    }

    method FireTimeout()
      requires Valid() && timeouts > 0
      modifies this
      ensures Valid()
      ensures !isMining && jackpot && slots == Won
      ensures completions == old(completions) + 1 && completions == starts
    {
      timeouts := 0;
      spinning := false;
      isMining := false;
      jackpot := true;
      slots := Won;
      completions := completions + 1;
    }
  }

  /** However many spins happen, one start completes once. */
  method SpinsCompleteOnce(spins: seq<seq<nat>>) returns (starts: nat, completions: nat)
    requires forall k :: 0 <= k < |spins| ==>
               |spins[k]| == 3 && forall i :: 0 <= i < 3 ==> spins[k][i] < |Symbols|
    ensures starts == 1 && completions == 1
  {
    var m := new SlotModal();
    m.StartClicked();
    var k := 0;
    while k < |spins|
      invariant 0 <= k <= |spins|
      invariant m.Valid() && m.isMining && m.starts == 1 && m.completions == 0
    {
      m.Spin(spins[k]);
      k := k + 1;
    }
    m.FireTimeout();
    starts := m.starts;
    completions := m.completions;
  }
}
