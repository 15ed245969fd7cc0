/** The spin session of src/App.tsx: two state fields, `isSpinning` and
    `winner`, driven by the spin button and by the strip's end-of-spin
    callback, and the parts of the page that depend on them. The event list,
    `loading` and `error` come from the events hook and are passed in. Audio,
    confetti and the share sheet itself are left out. */
module App {
  import opened Types
  import HorizontalScroller

  const SHARE_REF := "?ref=OG_Cryptooo"
  const SHARE_LEAD := "I got "
  const SHARE_MIDDLE := "! Check out OpinionRandomMarket: "

  class Session {
    var winner: Option<Event>
    var isSpinning: bool

    /** Never spinning while a winner is shown. */
    ghost predicate Valid()
      reads this
    {
      !(isSpinning && winner.Some?)
    }

    constructor ()
      ensures Valid() && winner == None && !isSpinning
    {
      winner, isSpinning := None, false;
    }

    /** `handleSpinStart` (App.tsx:20-24): ignored while spinning, while
        loading or without events; otherwise clears the winner and starts. */
    method HandleSpinStart(loading: bool, events: seq<Event>)
      requires Valid()
      modifies this
      ensures Valid()
      ensures old(isSpinning) || loading || events == [] ==>
        winner == old(winner) && isSpinning == old(isSpinning)
      ensures !(old(isSpinning) || loading || events == []) ==>
        winner == None && isSpinning
    {
      if isSpinning || loading || |events| == 0 {
        return;
      }
      winner := None;
      isSpinning := true;
    }

    /** `handleSpinEnd` (App.tsx:26-28): records the reported event and stops. */
    method HandleSpinEnd(wonEvent: Event)
      modifies this
      ensures Valid()
      ensures winner == Some(wonEvent) && !isSpinning
    {
      winner := Some(wonEvent);
      isSpinning := false;
    }

    /** The detail view is rendered iff there is a winner and no spin runs
        (App.tsx:136). */
    predicate DetailViewShown()
      reads this
    {
      winner.Some? && !isSpinning
    }

    /** The spin button (App.tsx:91). */
    predicate ButtonDisabled(loading: bool, error: Option<string>)
      reads this
    {
      isSpinning || loading || ErrorShown(error)
    }
  }

  /** JavaScript truthiness of the `error` state: an empty message counts as
      no error. */
  predicate ErrorShown(error: Option<string>)
  {
    error.Some? && error.value != ""
  }

  /** A page that is not loading and shows no error has an enabled button
      exactly when no spin runs. */
  lemma ButtonEnabledWhenIdle(s: Session, error: Option<string>)
    requires !ErrorShown(error)
    ensures s.ButtonDisabled(false, error) <==> s.isSpinning
  {
  }

  /** The text `handleShare` shares (App.tsx:59-62); nothing without a winner. */
  function ShareText(winner: Option<Event>, origin: string, pathname: string): (text: Option<string>)
    ensures text.None? <==> winner.None?
    ensures text.Some? ==>
      var t := text.value;
      var title := winner.value.title;
      && |t| == |SHARE_LEAD| + |title| + |SHARE_MIDDLE| + |origin| + |pathname| + |SHARE_REF|
      && t[..|SHARE_LEAD|] == SHARE_LEAD
      && t[|SHARE_LEAD|..|SHARE_LEAD| + |title|] == title
      && t[|SHARE_LEAD| + |title|..|t| - |SHARE_REF|] == SHARE_MIDDLE + origin + pathname
      && t[|t| - |SHARE_REF|..] == SHARE_REF
  {
    match winner
    case None => None
    case Some(w) =>
      var url := origin + pathname + SHARE_REF;
      Some(SHARE_LEAD + w.title + SHARE_MIDDLE + url)
  }

  /** The shared text names the winner unambiguously: two winners whose
      texts agree for the same page have the same title. */
  lemma ShareTextDeterminesTitle(w1: Event, w2: Event, origin: string, pathname: string)
    requires ShareText(Some(w1), origin, pathname) == ShareText(Some(w2), origin, pathname)
    ensures w1.title == w2.title
  {
  }

  /** One full round: the button is clicked, the strip's effect runs the spin
      with draw `r`, and the strip reports its card back. When the click is
      accepted, the session ends with the reported card as winner, the detail
      view is shown, and the strip draws exactly that card as the stopped
      winner. */
  method SpinRound(s: Session, strip: HorizontalScroller.Scroller, loading: bool,
                   events: seq<Event>, r: real)
    requires s.Valid() && strip.Valid() && 0.0 <= r < 1.0
    requires strip.source == events
    modifies s, strip
    ensures s.Valid() && strip.Valid()
    ensures old(s.isSpinning) || loading || events == [] ==>
      s.winner == old(s.winner) && s.isSpinning == old(s.isSpinning)
    ensures !(old(s.isSpinning) || loading || events == []) ==>
      var k := HorizontalScroller.WinnerIndex(|strip.displayList|, r);
      && s.DetailViewShown()
      && k < |strip.displayList|
      && s.winner == Some(events[k % |events|])
      && strip.IsWinnerAndStopped(k, s.isSpinning, s.winner)
      && forall i :: 0 <= i < |strip.displayList| && i != k ==>
           !strip.IsWinnerAndStopped(i, s.isSpinning, s.winner)
  {
    var accepted := !(s.isSpinning || loading || |events| == 0);
    s.HandleSpinStart(loading, events);
    if !accepted {
      return;
    }
    assert |strip.displayList| == |events| * HorizontalScroller.Multiplier(|events|) >= |events|;
    var ended := strip.StartSpin(r);
    s.HandleSpinEnd(ended.value);
  }
}
