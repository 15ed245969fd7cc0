/** The horizontal strip of src/components/HorizontalScroller.tsx.

    The events are repeated many times into one long `displayList`; a spin
    draws a winning index in the range [60%, 90%] of that list, animates the
    strip to the pixel offset that centres that card and then reports the card's
    event. Offsets are integers: 236 px per card (220 px wide, 16 px gap) and
    110 px to the centre of a card. The animation itself (duration, easing,
    tick sounds) is left out; only its target offset is kept. */
module HorizontalScroller {
  import opened Types
  import RandomPick
  import Arith

  const CARD_WIDTH: int := 220
  const CARD_GAP: int := 16
  const TOTAL_CARD_WIDTH: int := CARD_WIDTH + CARD_GAP

  /** Copies of the event list: 50 below 100 events, 20 from 100 on. */
  function Multiplier(n: nat): nat
  {
    if n < 100 then 50 else 20
  }

  /** `Array(k).fill(s).flat()`: `s` concatenated `k` times. */
  function Repeat<T>(s: seq<T>, k: nat): (r: seq<T>)
    ensures |r| == |s| * k
    ensures forall i :: 0 <= i < |r| ==> |s| > 0 && r[i] == s[i % |s|]
  {
    if k == 0 then []
    else
      var rest := Repeat(s, k - 1);
      assert |s| * k == |s| + |s| * (k - 1);
      forall i | |s| <= i < |s| + |rest|
        ensures (i - |s|) % |s| == i % |s|
      {
        Arith.ModShift(i, |s|);
      }
      s + rest
  }

  /** The list the strip shows (HorizontalScroller.tsx:37-38). */
  function DisplayList(events: seq<Event>): (list: seq<Event>)
    ensures |list| == |events| * Multiplier(|events|)
    ensures forall i :: 0 <= i < |list| ==> |events| > 0 && list[i] == events[i % |events|]
  {
    Repeat(events, Multiplier(|events|))
  }

  /** `Math.floor(L * 0.6)` and `Math.floor(L * 0.9)`, in exact arithmetic. */
  function MinIndex(len: nat): nat { len * 6 / 10 }
  function MaxIndex(len: nat): nat { len * 9 / 10 }

  /** The winning index (HorizontalScroller.tsx:74-76): a draw over
      [MinIndex, MaxIndex]; it always names a card of a non-empty list. */
  function WinnerIndex(len: nat, r: real): (k: nat)
    requires 0.0 <= r < 1.0
    ensures len > 0 ==> MinIndex(len) <= k <= MaxIndex(len) < len
  {
    RandomPick.ScaledFloor(r, MaxIndex(len) - MinIndex(len) + 1) + MinIndex(len)
  }

  /** The strip offset that centres card `index` under the pointer. */
  function CardOffset(index: int): int
  {
    -(index * TOTAL_CARD_WIDTH) - CARD_WIDTH / 2
  }

  /** The offset that centres the middle card before the first spin
      (HorizontalScroller.tsx:46-48). */
  function InitialOffset(len: nat): int
  {
    CardOffset(len / 2)
  }

  /** A card further down the list sits further left: offsets strictly
      decrease, by one card pitch per index. */
  lemma CardOffsetDecreasing(i: int, j: int)
    requires i < j
    ensures CardOffset(j) < CardOffset(i)
    ensures CardOffset(i) - CardOffset(j) == (j - i) * TOTAL_CARD_WIDTH
  {
  }

  /** The winning card lies beyond the middle card the strip starts from, so
      a spin always scrolls left. */
  lemma SpinScrollsLeft(len: nat, r: real)
    requires len > 0 && 0.0 <= r < 1.0
    ensures CardOffset(WinnerIndex(len, r)) <= InitialOffset(len)
  {
    if len / 2 < WinnerIndex(len, r) {
      CardOffsetDecreasing(len / 2, WinnerIndex(len, r));
    }
  }

  /** State of the component: the list shown, the winning index, the strip's
      offset, the `initialized` ref and the `isReady` flag. `source` is the
      event list the shown list was built from. */
  class Scroller {
    var displayList: seq<Event>
    var winningIndex: Option<nat>
    var offset: int
    var initialized: bool
    var isReady: bool
    ghost var source: seq<Event>

    ghost predicate Valid()
      reads this
    {
      (source == [] && displayList == []) || (source != [] && displayList == DisplayList(source))
    }

    constructor ()
      ensures Valid() && displayList == [] && winningIndex == None
      ensures offset == 0 && !initialized && !isReady
    {
      displayList, winningIndex, offset := [], None, 0;
      initialized, isReady := false, false;
      source := [];
    }

    /** A card is drawn as the stopped winner only at the winning index, once
        the spin is over, and when it carries the winner's id
        (HorizontalScroller.tsx:133-134). */
    predicate IsWinnerAndStopped(idx: nat, isSpinning: bool, winner: Option<Event>)
      reads this
    {
      winningIndex == Some(idx) && !isSpinning && winner.Some?
      && idx < |displayList| && displayList[idx].id == winner.value.id
    }

    /** The effect of HorizontalScroller.tsx:34-41: a non-empty event list is
        repeated into the shown list; an empty one leaves it as it was. */
    method EventsChanged(events: seq<Event>)
      requires Valid()
      modifies this
      ensures Valid()
      ensures events != [] ==> displayList == DisplayList(events) && source == events
      ensures events == [] ==> displayList == old(displayList) && source == old(source)
      ensures winningIndex == old(winningIndex) && offset == old(offset)
      ensures initialized == old(initialized) && isReady == old(isReady)
    {
      if |events| > 0 {
        displayList := DisplayList(events);
        source := events;
      }
    }

    /** The effect of HorizontalScroller.tsx:43-55: once, before any spin,
        centre the middle card and show the strip. */
    method CentreInitially(isSpinning: bool)
      requires Valid()
      modifies this
      ensures Valid() && displayList == old(displayList) && source == old(source)
      ensures winningIndex == old(winningIndex)
      ensures old(displayList) != [] && !isSpinning && !old(initialized) ==>
        offset == InitialOffset(|displayList|) && initialized && isReady
      ensures !(old(displayList) != [] && !isSpinning && !old(initialized)) ==>
        offset == old(offset) && initialized == old(initialized) && isReady == old(isReady)
    {
      if |displayList| > 0 && !isSpinning && !initialized {
        offset := InitialOffset(|displayList|);
        initialized := true;
        isReady := true;
      }
    }

    /** `startSpin` (HorizontalScroller.tsx:65-96) run to completion: returns
        the event passed to `onSpinEnd`, or None when the list is empty and
        nothing happens. `winningIndex` is first cleared and then set within
        one synchronous step, so only the new index is ever rendered. */
    method StartSpin(r: real) returns (ended: Option<Event>)
      requires Valid() && 0.0 <= r < 1.0
      modifies this
      ensures Valid() && displayList == old(displayList) && source == old(source)
      ensures initialized == old(initialized) && isReady == old(isReady)
      ensures displayList == [] ==>
        ended == None && winningIndex == old(winningIndex) && offset == old(offset)
      ensures displayList != [] ==>
        var k := WinnerIndex(|displayList|, r);
        && winningIndex == Some(k)
        && k < |displayList|
        && offset == CardOffset(k)
        && ended == Some(displayList[k])
        && displayList[k] == source[k % |source|]
    {
      if |displayList| == 0 {
        return None;
      }
      winningIndex := None;
      var k := WinnerIndex(|displayList|, r);
      winningIndex := Some(k);
      var targetEvent := displayList[k];
      offset := CardOffset(k);
      ended := Some(targetEvent);
    }
  }
}
