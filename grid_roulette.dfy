/** The grid spin engine of src/components/GridRoulette.tsx.

    A spin picks a winner from all events, builds a fresh 24-slot grid from a
    shuffled subset of 23 events with the winner spliced in at a drawn position,
    and then runs a self-rescheduling `tick` callback: tick number `step`
    highlights card `step % 24`, stops once `step >= 48` and the highlighted
    card is the drawn position, and otherwise schedules the next tick after a
    delay that grows as the spin slows down.

    The timer chain is modelled as a loop that records, in order, every
    highlighted index and every scheduled delay. */
module GridRoulette {
  import opened Types
  import RandomPick
  import Arith

  /** Number of cards the grid is meant to show. */
  const GRID_SIZE: nat := 24
  /** Delay before the second tick, in milliseconds. */
  const BASE_DELAY: int := 50

  /** `list.slice(0, n)`. */
  function Take<T>(s: seq<T>, n: nat): (r: seq<T>)
    ensures |r| == if |s| <= n then |s| else n
    ensures r == s[..|r|]
  {
    if |s| <= n then s else s[..n]
  }

  /** Where `list.splice(pos, 0, x)` puts `x`: a start past the end means the end. */
  function SpliceIndex(len: nat, pos: nat): (k: nat)
    ensures k <= len
  {
    if pos <= len then pos else len
  }

  /** `list.splice(pos, 0, x)` on a copy: `x` is inserted, nothing is lost. */
  function Splice<T>(s: seq<T>, pos: nat, x: T): (r: seq<T>)
    ensures |r| == |s| + 1
    ensures r[SpliceIndex(|s|, pos)] == x
    ensures multiset(r) == multiset(s) + multiset{x}
  {
    var k := SpliceIndex(|s|, pos);
    assert s == s[..k] + s[k..];
    s[..k] + [x] + s[k..]
  }

  /** The grid a spin animates over (GridRoulette.tsx:54-59): the first 23
      events of a shuffle of all events, with the winner spliced in at the
      drawn position. */
  function PrepareGrid(shuffled: seq<Event>, winnerPos: nat, picked: Event): seq<Event>
  {
    Splice(Take(shuffled, GRID_SIZE - 1), winnerPos, picked)
  }

  /** With at least 23 events the grid has exactly 24 cards, the winner sits at
      the drawn position and the other cards are the first 23 of the shuffle. */
  lemma FullGridHoldsWinner(shuffled: seq<Event>, winnerPos: nat, picked: Event)
    requires |shuffled| >= GRID_SIZE - 1 && winnerPos < GRID_SIZE
    ensures var grid := PrepareGrid(shuffled, winnerPos, picked);
            |grid| == GRID_SIZE && grid[winnerPos] == picked
            && multiset(grid) == multiset(shuffled[..GRID_SIZE - 1]) + multiset{picked}
  {
  }

  /** With fewer than 23 events the grid is shorter than 24, and a drawn
      position past the end of the subset does not hold the winner: `splice`
      put it at the end instead (GridRoulette.tsx:58-59). */
  lemma ShortGridMisplacesWinner(shuffled: seq<Event>, winnerPos: nat, picked: Event)
    requires |shuffled| < GRID_SIZE - 1 && |shuffled| < winnerPos < GRID_SIZE
    ensures var grid := PrepareGrid(shuffled, winnerPos, picked);
            |grid| < GRID_SIZE && |grid| <= winnerPos && grid[|grid| - 1] == picked
  {
  }

  /** The subset is drawn from all events, the winner included, so the
      winner's id can be carried by two cards (GridRoulette.tsx:54, 130). */
  lemma WinnerCanAppearTwice(shuffled: seq<Event>, winnerPos: nat, picked: Event, j: nat)
    requires winnerPos < GRID_SIZE && j < GRID_SIZE - 1 && j < |shuffled|
    requires shuffled[j] == picked
    ensures var grid := PrepareGrid(shuffled, winnerPos, picked);
            var k := SpliceIndex(|Take(shuffled, GRID_SIZE - 1)|, winnerPos);
            var other := if j < k then j else j + 1;
            other != k && other < |grid| && grid[other].id == grid[k].id == picked.id
  {
  }

  /** The delay added once `tick` has advanced the step counter to `step`
      (GridRoulette.tsx:96-103): +30 in the final approach (the last ten steps
      before `2 * cycle`), +5 after the first full lap, nothing before. */
  function Increment(cycle: nat, step: nat): int
  {
    if step > 2 * cycle - 10 then 30 else if step > cycle then 5 else 0
  }

  /** The value of `speed` once the step counter has reached `step`. */
  function Delay(cycle: nat, step: nat): int
  {
    if step == 0 then BASE_DELAY else Delay(cycle, step - 1) + Increment(cycle, step)
  }

  /** The delay never decreases as the spin goes on. */
  lemma {:induction false} DelayMonotone(cycle: nat, j: nat, k: nat)
    requires j <= k
    ensures BASE_DELAY <= Delay(cycle, j) <= Delay(cycle, k)
    decreases k
  {
    if j < k {
      DelayMonotone(cycle, j, k - 1);
    } else if j > 0 {
      DelayMonotone(cycle, 0, j - 1);
    }
  }

  /** Closed form of the delay for the 24-card grid: flat at 50 for the first
      lap, +5 per step up to step 38, then +30 per step. */
  lemma {:induction false} DelayClosedForm(step: nat)
    ensures Delay(GRID_SIZE, step) ==
      if step <= 24 then 50
      else if step <= 38 then 50 + 5 * (step - 24)
      else 120 + 30 * (step - 38)
    decreases step
  {
    if step > 0 {
      DelayClosedForm(step - 1);
    }
  }

  /** The last delay a spin schedules, before its final tick at step
      48 + winnerPos, is 420 + 30 * winnerPos milliseconds. */
  lemma FinalDelay(winnerPos: nat)
    requires winnerPos < GRID_SIZE
    ensures Delay(GRID_SIZE, 2 * GRID_SIZE + winnerPos) == 420 + 30 * winnerPos
  {
    DelayClosedForm(2 * GRID_SIZE + winnerPos);
  }

  /** The slowdown in the final approach is steeper than after the first lap. */
  lemma FinalPhaseSlowsFaster(cycle: nat, middle: nat, last: nat)
    requires cycle < middle <= 2 * cycle - 10 < last
    ensures 0 < Increment(cycle, middle) < Increment(cycle, last)
  {
  }

  /** The stop rule `step >= 2 * cycle && step % cycle == winnerPos` first holds
      at step 2 * cycle + winnerPos: passing the winner's slot on an earlier lap
      does not stop the spin. */
  lemma {:induction false} StopStepIsFirst(cycle: nat, winnerPos: nat, step: nat)
    requires winnerPos < cycle
    ensures step >= 2 * cycle && step % cycle == winnerPos && step <= 2 * cycle + winnerPos
            <==> step == 2 * cycle + winnerPos
  {
    if 2 * cycle <= step <= 2 * cycle + winnerPos {
      Arith.ModInLap(cycle, 2, step);
    }
  }

  /** The `tick` chain of GridRoulette.tsx:71-106 for a grid of `gridLen`
      cards, highlighting `step % cycle` (the source uses cycle = GRID_SIZE
      whatever the grid's length) and stopping at `winnerPos` once
      `step >= 2 * cycle`. A tick whose index is past the end of the grid reads
      `newGrid[idx].id` of `undefined` and throws: the chain ends there without
      stopping (`stopped` is false). `highlights` are the indices passed to
      `setHighlightIndex`, `delays` the delays passed to `setTimeout`. */
  method TickLoop(gridLen: nat, cycle: nat, winnerPos: nat)
    returns (highlights: seq<nat>, delays: seq<int>, stopped: bool)
    requires 0 < cycle && winnerPos < cycle
    ensures forall s :: 0 <= s < |highlights| ==> highlights[s] == s % cycle
    ensures |highlights| == |delays| + 1
    ensures forall s :: 0 <= s < |delays| ==> delays[s] == Delay(cycle, s + 1)
    ensures stopped <==> cycle <= gridLen
    ensures stopped ==> |highlights| == 2 * cycle + winnerPos + 1
    ensures stopped ==> highlights[|highlights| - 1] == winnerPos
    ensures !stopped ==> |highlights| == gridLen + 1 && highlights[gridLen] == gridLen
  {
    var step: nat := 0;
    var speed := BASE_DELAY;
    highlights, delays := [], [];
    while true
      invariant step <= 2 * cycle + winnerPos
      invariant |highlights| == step && |delays| == step
      invariant forall s :: 0 <= s < step ==> highlights[s] == s % cycle
      invariant forall s :: 0 <= s < step ==> delays[s] == Delay(cycle, s + 1)
      invariant speed == Delay(cycle, step)
      invariant gridLen < cycle ==> step <= gridLen
      decreases 2 * cycle + winnerPos - step
    {
      var idx := step % cycle;
      highlights := highlights + [idx];
      if gridLen <= idx {
        // `newGrid[idx]` is undefined: reading its `id` throws.
        Arith.ModInLap(cycle, 0, step);
        stopped := false;
        return;
      }
      StopStepIsFirst(cycle, winnerPos, step);
      if step >= 2 * cycle && idx == winnerPos {
        stopped := true;
        return;
      }
      if gridLen < cycle {
        Arith.ModInLap(cycle, 0, step);
      }
      step := step + 1;
      if step > 2 * cycle - 10 {
        speed := speed + 30;
      } else if step > cycle {
        speed := speed + 5;
      }
      delays := delays + [speed];
    }
  }

  /** The component's state (GridRoulette.tsx:15-18) together with the calls
      it makes to its parent's callbacks. */
  class Roulette {
    var allEvents: seq<Event>
    var displayEvents: seq<Event>
    var highlightIndex: int
    var isSpinning: bool
    var winner: Option<Event>
    /** Number of `onSpinStart` calls. */
    var spinStarts: nat
    /** Arguments of the `onSpinEnd` calls, in order. */
    var spinEnds: seq<Event>

    constructor ()
      ensures allEvents == [] && displayEvents == [] && highlightIndex == -1
      ensures !isSpinning && winner == None && spinStarts == 0 && spinEnds == []
    {
      allEvents, displayEvents, highlightIndex := [], [], -1;
      isSpinning, winner := false, None;
      spinStarts, spinEnds := 0, [];
    }

    /** A card is drawn highlighted only while spinning, and only at
        `highlightIndex` (GridRoulette.tsx:129). */
    predicate CardHighlighted(idx: int)
      reads this
    {
      isSpinning && idx == highlightIndex
    }

    /** A card is drawn as the winner when it carries the winner's id
        (GridRoulette.tsx:130). */
    predicate CardMarkedWinner(e: Event)
      reads this
    {
      winner.Some? && winner.value.id == e.id
    }

    /** `resetGrid` (GridRoulette.tsx:29-35): shows the first 24 of a shuffle
        of all events and clears the highlight and the winner. */
    method ResetGrid(shuffled: seq<Event>)
      requires multiset(shuffled) == multiset(allEvents)
      modifies this
      ensures allEvents == old(allEvents) && isSpinning == old(isSpinning)
      ensures spinStarts == old(spinStarts) && spinEnds == old(spinEnds)
      ensures old(allEvents) == [] ==>
        displayEvents == old(displayEvents) && highlightIndex == old(highlightIndex) && winner == old(winner)
      ensures old(allEvents) != [] ==>
        displayEvents == Take(shuffled, GRID_SIZE) && highlightIndex == -1 && winner == None
      ensures old(allEvents) != [] ==>
        |displayEvents| == if |allEvents| < GRID_SIZE then |allEvents| else GRID_SIZE
      ensures multiset(displayEvents) <= multiset(allEvents) || displayEvents == old(displayEvents)
    {
      if |allEvents| == 0 {
        return;
      }
      assert |shuffled| == |allEvents| by {
        assert |multiset(shuffled)| == |multiset(allEvents)|;
      }
      displayEvents := Take(shuffled, GRID_SIZE);
      highlightIndex := -1;
      winner := None;
      assert shuffled == displayEvents + shuffled[|displayEvents|..];
    }

    /** The effect of GridRoulette.tsx:23-27: new `allEvents` arrive, and the
        grid is filled the first time there are events to show. */
    method ReceiveEvents(events: seq<Event>, shuffled: seq<Event>)
      requires multiset(shuffled) == multiset(events)
      modifies this
      ensures allEvents == events && isSpinning == old(isSpinning)
      ensures spinStarts == old(spinStarts) && spinEnds == old(spinEnds)
      ensures events != [] && old(displayEvents) == [] ==>
        displayEvents == Take(shuffled, GRID_SIZE) && highlightIndex == -1 && winner == None
      ensures !(events != [] && old(displayEvents) == []) ==>
        displayEvents == old(displayEvents) && highlightIndex == old(highlightIndex) && winner == old(winner)
    {
      allEvents := events;
      if |allEvents| > 0 && |displayEvents| == 0 {
        ResetGrid(shuffled);
      }
    }

    /** `handleSpin` (GridRoulette.tsx:37-109) run to the end of its `tick`
        chain. `pickDraw`, `shuffled` and `posDraw` are the three random
        inputs: the draw of `getRandomItem`, the shuffle and the draw of the
        winner's position. Returns what the ticks emitted. */
    method HandleSpin(pickDraw: real, shuffled: seq<Event>, posDraw: real)
      returns (highlights: seq<nat>, delays: seq<int>)
      requires 0.0 <= pickDraw < 1.0 && 0.0 <= posDraw < 1.0
      requires multiset(shuffled) == multiset(allEvents)
      modifies this
      ensures allEvents == old(allEvents)
      // A spin already running, or no events: nothing happens.
      ensures old(isSpinning) || allEvents == [] ==>
        displayEvents == old(displayEvents) && highlightIndex == old(highlightIndex)
        && isSpinning == old(isSpinning) && winner == old(winner)
        && spinStarts == old(spinStarts) && spinEnds == old(spinEnds)
        && highlights == [] && delays == []
      ensures !old(isSpinning) && allEvents != [] ==>
        var picked := RandomPick.GetRandomItem(allEvents, pickDraw).value;
        var winnerPos := RandomPick.ScaledFloor(posDraw, GRID_SIZE);
        && spinStarts == old(spinStarts) + 1
        && displayEvents == PrepareGrid(shuffled, winnerPos, picked)
        && (forall s :: 0 <= s < |highlights| ==> highlights[s] == s % GRID_SIZE)
        && |highlights| == |delays| + 1
        && (forall s :: 0 <= s < |delays| ==> delays[s] == Delay(GRID_SIZE, s + 1))
        && highlightIndex == highlights[|highlights| - 1]
        && (forall i :: 0 <= i < |displayEvents| ==> !CardHighlighted(i))
        // At least 23 events: the spin stops on the winner at step 48 + winnerPos.
        && (|allEvents| >= GRID_SIZE - 1 ==>
              |highlights| == 2 * GRID_SIZE + winnerPos + 1
              && highlightIndex == winnerPos && displayEvents[winnerPos] == picked
              && !isSpinning && winner == Some(picked)
              && spinEnds == old(spinEnds) + [picked])
        // Fewer: the tick after the last card throws and the spin never ends.
        && (|allEvents| < GRID_SIZE - 1 ==>
              |highlights| == |displayEvents| + 1 && highlightIndex == |displayEvents|
              && isSpinning && winner == None && spinEnds == old(spinEnds))
    {
      if isSpinning || |allEvents| == 0 {
        return [], [];
      }
      spinStarts := spinStarts + 1;
      isSpinning := true;
      winner := None;
      highlightIndex := -1;

      // `getRandomItem` returns null only for an empty list, so the early
      // return on a missing winner is never taken here.
      var picked := RandomPick.GetRandomItem(allEvents, pickDraw).value;

      assert |shuffled| == |allEvents| by {
        assert |multiset(shuffled)| == |multiset(allEvents)|;
      }
      var winnerPos := RandomPick.ScaledFloor(posDraw, GRID_SIZE);
      var newGrid := PrepareGrid(shuffled, winnerPos, picked);
      displayEvents := newGrid;

      var stopped;
      highlights, delays, stopped := TickLoop(|newGrid|, GRID_SIZE, winnerPos);
      highlightIndex := highlights[|highlights| - 1];
      if stopped {
        winner := Some(picked);
        isSpinning := false;
        spinEnds := spinEnds + [picked];
      }
    }
  }

  /** Events whose id differs from `id`. */
  function WithoutId(events: seq<Event>, id: string): (r: seq<Event>)
    ensures forall i :: 0 <= i < |r| ==> r[i].id != id
    ensures forall e :: e in r <==> e in events && e.id != id
  {
    if events == [] then []
    else if events[0].id == id then WithoutId(events[1..], id)
    else [events[0]] + WithoutId(events[1..], id)
  }

  /** The grid as evidently intended: the subset leaves the winner out, so
      exactly one card carries the winner's id, at the index where it was
      spliced in. */
  function PrepareGridUnique(shuffled: seq<Event>, winnerPos: nat, picked: Event): (grid: seq<Event>)
    ensures var k := SpliceIndex(|Take(WithoutId(shuffled, picked.id), GRID_SIZE - 1)|, winnerPos);
            k < |grid| && grid[k] == picked
            && forall i :: 0 <= i < |grid| ==> (grid[i].id == picked.id <==> i == k)
  {
    var subset := Take(WithoutId(shuffled, picked.id), GRID_SIZE - 1);
    var k := SpliceIndex(|subset|, winnerPos);
    var grid := Splice(subset, winnerPos, picked);
    assert grid == subset[..k] + [picked] + subset[k..];
    grid
  }

  /** The spin as evidently intended (the corrected counterpart of
      `Roulette.HandleSpin`): the cycle length and the minimum of two laps
      come from the grid actually shown, and the spin stops where the winner
      actually is. It stops for every non-empty event list, only ever
      highlights cards of the grid, and lands on the winner after at least two
      full laps. */
  method FixedSpin(allEvents: seq<Event>, pickDraw: real, shuffled: seq<Event>, posDraw: real)
    returns (grid: seq<Event>, winnerIndex: nat, highlights: seq<nat>, delays: seq<int>, stopped: bool)
    requires allEvents != []
    requires 0.0 <= pickDraw < 1.0 && 0.0 <= posDraw < 1.0
    ensures stopped
    ensures var picked := RandomPick.GetRandomItem(allEvents, pickDraw).value;
            winnerIndex < |grid| && grid[winnerIndex] == picked
            && forall i :: 0 <= i < |grid| ==> (grid[i].id == picked.id <==> i == winnerIndex)
    ensures forall s :: 0 <= s < |highlights| ==> highlights[s] < |grid|
    ensures |highlights| == 2 * |grid| + winnerIndex + 1
    ensures highlights[|highlights| - 1] == winnerIndex
    ensures |highlights| == |delays| + 1
    ensures forall s :: 0 <= s < |delays| ==> delays[s] == Delay(|grid|, s + 1)
  {
    var picked := RandomPick.GetRandomItem(allEvents, pickDraw).value;
    var winnerPos := RandomPick.ScaledFloor(posDraw, GRID_SIZE);
    grid := PrepareGridUnique(shuffled, winnerPos, picked);
    winnerIndex := SpliceIndex(|Take(WithoutId(shuffled, picked.id), GRID_SIZE - 1)|, winnerPos);
    highlights, delays, stopped := TickLoop(|grid|, |grid|, winnerIndex);
  }
}
