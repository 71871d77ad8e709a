/**
 * The progress-bar mining dialog of dini2 (dini2/components/mining-modal.tsx).
 * `open` is the parent's state, changed only through the modal's
 * `onOpenChange` calls; `ticking` is the 500 ms interval, installed exactly
 * while a run is in progress. `Math.random()` is the `draw` parameter.
 */
module ProgressMiningModal {

  function Min(a: real, b: real): real { if a <= b then a else b }

  class ProgressModal {
    var open: bool
    var isMining: bool
    var progress: real
    var ticking: bool
    /** How many runs were started, and how many times `onMiningComplete` was called. */
    var runs: nat
    var completions: nat

    predicate Valid()
      reads this
    {
      0.0 <= progress <= 100.0 &&
      ticking == isMining &&
      (isMining ==> open) &&
      (!open ==> progress == 0.0) &&
      completions + (if isMining then 1 else 0) == runs
    }

    constructor (open: bool)
      ensures Valid()
      ensures this.open == open && !isMining && progress == 0.0 && runs == 0 && completions == 0
    {
      this.open := open;
      isMining := false;
      progress := 0.0;
      ticking := false;
      runs := 0;
      completions := 0;
    }

    /** The parent's `onOpenChange`; closing also runs the reset effect. */
    method SetOpen(value: bool)
      requires Valid() && (isMining ==> value)
      modifies this
      ensures Valid()
      ensures open == value
      ensures !value ==> progress == 0.0 && !isMining
      ensures value ==> progress == old(progress) && isMining == old(isMining)
      ensures runs == old(runs) && completions == old(completions)
    {
      open := value;
      if !value {
        progress := 0.0;
        isMining := false;
        ticking := false;
      }
    }

    /** The dialog's own open/close request: ignored while mining. */
    method DialogOpenChange(newOpen: bool)
      requires Valid()
      modifies this
      ensures Valid()
      ensures old(isMining) ==> open == old(open) && progress == old(progress) && isMining
      ensures !old(isMining) ==> open == newOpen && !isMining
      ensures runs == old(runs) && completions == old(completions)
    {
      if !isMining {
        SetOpen(newOpen);
      }
    }

    /** The Close button, disabled while mining. */
    method CloseClicked()
      requires Valid()
      modifies this
      ensures Valid()
      ensures old(isMining) ==> open == old(open) && progress == old(progress) && isMining
      ensures !old(isMining) ==> !open && progress == 0.0 && !isMining
      ensures runs == old(runs) && completions == old(completions)
    {
      if !isMining {
        SetOpen(false);
      }
    }

    /** The Start button, shown only while open and disabled while mining. */
    method StartClicked()
      requires Valid() && open
      modifies this
      ensures Valid()
      ensures old(isMining) ==> progress == old(progress) && runs == old(runs)
      ensures !old(isMining) ==> isMining && progress == 0.0 && runs == old(runs) + 1
      ensures isMining && open && completions == old(completions)
    {
      if !isMining {
        isMining := true;
        progress := 0.0;
        ticking := true;
        runs := runs + 1;
      }
    }

    /**
     * One interval tick. A tick that observes exactly 100 stops the interval
     * and completes the run; any other tick advances by `draw`, capped at 100.
     */
    method Tick(draw: real)
      requires Valid() && ticking
      requires 0.0 <= draw < 10.0
      modifies this
      ensures Valid()
      ensures old(progress) == 100.0 ==>
                !isMining && !ticking && !open && progress == 0.0 && completions == old(completions) + 1
      ensures old(progress) != 100.0 ==>
                isMining && open && progress == Min(old(progress) + draw, 100.0) && completions == old(completions)
      ensures progress >= old(progress) || old(progress) == 100.0
      ensures runs == old(runs)
    {
      if progress == 100.0 {
        ticking := false;
        // handleMiningComplete: reset, notify, ask the parent to close
        isMining := false;
        progress := 0.0;
        completions := completions + 1;
        SetOpen(false);
      } else {
        progress := Min(progress + draw, 100.0);
      }
    }
  }

  /** A run completes after the tick that follows the one reaching 100, and only once. */
  method RunToCompletion(draws: seq<real>) returns (completions: nat, ticks: nat)
    requires forall i :: 0 <= i < |draws| ==> 0.0 <= draws[i] < 10.0
    ensures completions <= 1
    ensures ticks <= |draws|
  {
    var m := new ProgressModal(true);
    m.StartClicked();
    ticks := 0;
    while ticks < |draws| && m.ticking
      invariant m.Valid() && m.runs == 1 && ticks <= |draws|
      invariant m.completions <= 1
      decreases |draws| - ticks
    {
      m.Tick(draws[ticks]);
      ticks := ticks + 1;
    }
    completions := m.completions;
  }
}
