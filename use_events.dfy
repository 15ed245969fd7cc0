/** The `useEvents` hook of src/hooks/useEvents.ts: three state fields
    (`events`, `loading`, `error`) and the `load` routine that fills them from
    one call of `fetchEvents`. The call's outcome is a parameter: the list it
    returned, or the error it threw. */
module UseEvents {
  import opened Types

  const NO_EVENTS := "No events found. API might be down."
  const NO_VALID_EVENTS := "No valid events found after filtering."
  const LOAD_FAILED := "Failed to load events"

  /** The filter of useEvents.ts:27-29: at least one market and a non-empty
      (truthy) title. */
  predicate IsDisplayable(e: Event)
  {
    |e.markets| > 0 && e.title != ""
  }

  /** `data.filter(IsDisplayable)`. */
  function ValidEvents(data: seq<Event>): (kept: seq<Event>)
    ensures |kept| <= |data|
    ensures forall i :: 0 <= i < |kept| ==> IsDisplayable(kept[i]) && kept[i] in data
    ensures forall e :: e in data && IsDisplayable(e) ==> e in kept
  {
    if data == [] then []
    else if IsDisplayable(data[0]) then [data[0]] + ValidEvents(data[1..])
    else ValidEvents(data[1..])
  }

  /** Filtering keeps the original order: filtering a concatenation filters
      each part and concatenates the results. */
  lemma {:induction false} ValidEventsAppend(a: seq<Event>, b: seq<Event>)
    ensures ValidEvents(a + b) == ValidEvents(a) + ValidEvents(b)
    decreases |a|
  {
    if a == [] {
      assert a + b == b;
    } else {
      var ab := a + b;
      assert ab[0] == a[0] && ab[1..] == a[1..] + b;
      ValidEventsAppend(a[1..], b);
      if IsDisplayable(a[0]) {
        assert [a[0]] + (ValidEvents(a[1..]) + ValidEvents(b))
            == ([a[0]] + ValidEvents(a[1..])) + ValidEvents(b);
      }
    }
  }

  /** Filtering a filtered list changes nothing. */
  lemma {:induction false} ValidEventsIdempotent(data: seq<Event>)
    ensures ValidEvents(ValidEvents(data)) == ValidEvents(data)
    decreases |data|
  {
    if data != [] {
      ValidEventsIdempotent(data[1..]);
    }
  }

  /** A list of displayable events is kept whole. */
  lemma {:induction false} ValidEventsKeepsDisplayable(data: seq<Event>)
    requires forall i :: 0 <= i < |data| ==> IsDisplayable(data[i])
    ensures ValidEvents(data) == data
    decreases |data|
  {
    if data != [] {
      ValidEventsKeepsDisplayable(data[1..]);
    }
  }

  /** What awaiting `fetchEvents()` produced: a list, or a thrown value that
      is an `Error` with a message, or something else. */
  datatype FetchOutcome = Returned(data: seq<Event>) | Threw(message: Option<string>)

  /** The message the catch block stores (useEvents.ts:39). */
  function ThrownMessage(message: Option<string>): (text: string)
    ensures message.Some? ==> text == message.value
    ensures message.None? ==> text == LOAD_FAILED
  {
    if message.Some? then message.value else LOAD_FAILED
  }

  class EventsHook {
    var events: seq<Event>
    var loading: bool
    var error: Option<string>

    /** The initial state (useEvents.ts:6-8). */
    constructor ()
      ensures events == [] && loading && error == None
    {
      events, loading, error := [], true, None;
    }

    /** `load` (useEvents.ts:11-44). */
    method Load(outcome: FetchOutcome)
      modifies this
      ensures !loading
      ensures outcome.Threw? ==>
        error == Some(ThrownMessage(outcome.message)) && events == old(events)
      ensures outcome == Returned([]) ==>
        error == Some(NO_EVENTS) && events == old(events)
      ensures outcome.Returned? && outcome.data != [] && ValidEvents(outcome.data) == [] ==>
        error == Some(NO_VALID_EVENTS) && events == old(events)
      ensures outcome.Returned? && ValidEvents(outcome.data) != [] ==>
        error == None && events == ValidEvents(outcome.data)
    {
      loading := true;
      error := None;
      match outcome {
        case Threw(message) =>
          error := Some(ThrownMessage(message));
        case Returned(data) =>
          if |data| == 0 {
            error := Some(NO_EVENTS);
            // the early return clears `loading`, and so does `finally`
            loading := false;
            return;
          }
          var validEvents := ValidEvents(data);
          if |validEvents| == 0 {
            error := Some(NO_VALID_EVENTS);
          } else {
            events := validEvents;
          }
      }
      loading := false;
    }
  }
}
