/** The counters of src/components/VisitorStats.tsx: the stored visitor record
    (`total`, `today`, `week`, `lastVisit`), its update on mount (first visit
    or a new day) and the interval that moves the live-viewer count and
    occasionally counts one more visitor.

    `localStorage` is the field `stored`; today's date and the number of whole
    days since the last visit are parameters (date parsing is not modelled);
    every `Math.random()` is a real draw in [0, 1). */
module VisitorStats {
  import opened Types
  import RandomPick

  const BASE_TOTAL := 124
  const DAILY_GROWTH_MIN := 2
  const DAILY_GROWTH_MAX := 8
  /** Live viewers stay within these bounds (VisitorStats.tsx:74-75). */
  const MIN_LIVE := 2
  const MAX_LIVE := 9

  datatype VisitorData = VisitorData(total: int, today: int, week: int, lastVisit: string)

  predicate IsDraw(r: real) { 0.0 <= r < 1.0 }

  /** Visitors added for one missed day:
      `Math.floor(r * (MAX - MIN + 1)) + MIN`, between 2 and 8. */
  function DailyGrowth(r: real): (g: int)
    requires IsDraw(r)
    ensures DAILY_GROWTH_MIN <= g <= DAILY_GROWTH_MAX
  {
    RandomPick.ScaledFloor(r, DAILY_GROWTH_MAX - DAILY_GROWTH_MIN + 1) + DAILY_GROWTH_MIN
  }

  /** The visitors added for a run of missed days, one draw per day. */
  function Growth(draws: seq<real>): (g: int)
    requires forall i :: 0 <= i < |draws| ==> IsDraw(draws[i])
    ensures DAILY_GROWTH_MIN * |draws| <= g <= DAILY_GROWTH_MAX * |draws|
  {
    if draws == [] then 0
    else Growth(draws[..|draws| - 1]) + DailyGrowth(draws[|draws| - 1])
  }

  /** The loop of VisitorStats.tsx:37-40 over `diffDays` missed days. */
  method MissedVisitors(diffDays: nat, draws: seq<real>) returns (missed: int)
    requires diffDays <= |draws|
    requires forall i :: 0 <= i < |draws| ==> IsDraw(draws[i])
    ensures missed == Growth(draws[..diffDays])
    ensures DAILY_GROWTH_MIN * diffDays <= missed <= DAILY_GROWTH_MAX * diffDays
  {
    missed := 0;
    var i := 0;
    while i < diffDays
      invariant 0 <= i <= diffDays
      invariant missed == Growth(draws[..i])
    {
      assert draws[..i + 1][..i] == draws[..i];
      missed := missed + DailyGrowth(draws[i]);
      i := i + 1;
    }
  }

  /** The record written on a first visit (VisitorStats.tsx:54-61): today in
      [5, 19], the week `startWeek + today` with `startWeek` in [30, 79], the
      total in [124, 143]. */
  function FirstVisit(date: string, todayDraw: real, weekDraw: real, totalDraw: real): (d: VisitorData)
    requires IsDraw(todayDraw) && IsDraw(weekDraw) && IsDraw(totalDraw)
    ensures 5 <= d.today <= 19
    ensures 30 <= d.week - d.today <= 79
    ensures BASE_TOTAL <= d.total <= BASE_TOTAL + 19
    ensures d.lastVisit == date
  {
    var startToday := RandomPick.ScaledFloor(todayDraw, 15) + 5;
    var startWeek := RandomPick.ScaledFloor(weekDraw, 50) + 30;
    VisitorData(BASE_TOTAL + RandomPick.ScaledFloor(totalDraw, 20), startToday, startWeek + startToday, date)
  }

  /** One interval step of the live-viewer count (VisitorStats.tsx:71-77):
      with probability 0.3 it moves one step up or down, then it is clamped to
      [2, 9]. */
  function NextLiveViewers(prev: int, directionDraw: real, moveDraw: real): (next: int)
    ensures MIN_LIVE <= next <= MAX_LIVE
    ensures MIN_LIVE <= prev <= MAX_LIVE ==> prev - 1 <= next <= prev + 1
    ensures moveDraw <= 0.7 && MIN_LIVE <= prev <= MAX_LIVE ==> next == prev
  {
    var change := if directionDraw > 0.5 then 1 else -1;
    var newVal := prev + (if moveDraw > 0.7 then change else 0);
    var low := if newVal < MIN_LIVE then MIN_LIVE else newVal;
    if low > MAX_LIVE then MAX_LIVE else low
  }

  /** From the initial count 3 (or any count in [2, 9]) the live count
      never leaves [2, 9], and after `n` steps it is at most `n` away from
      where it started. */
  lemma {:induction false} LiveViewersStayInRange(start: int, directions: seq<real>, moves: seq<real>)
    requires MIN_LIVE <= start <= MAX_LIVE && |directions| == |moves|
    ensures var n := LiveAfter(start, directions, moves);
      MIN_LIVE <= n <= MAX_LIVE && start - |moves| <= n <= start + |moves|
    decreases |moves|
  {
    if moves != [] {
      LiveViewersStayInRange(start, directions[..|directions| - 1], moves[..|moves| - 1]);
    }
  }

  /** The count after a series of interval steps. */
  function LiveAfter(start: int, directions: seq<real>, moves: seq<real>): int
    requires |directions| == |moves|
    decreases |moves|
  {
    if moves == [] then start
    else NextLiveViewers(LiveAfter(start, directions[..|directions| - 1], moves[..|moves| - 1]),
                         directions[|directions| - 1], moves[|moves| - 1])
  }

  /** The visitor bump of VisitorStats.tsx:81-87. */
  function Bump(d: VisitorData): (e: VisitorData)
    ensures e.total == d.total + 1 && e.today == d.today + 1 && e.week == d.week + 1
    ensures e.lastVisit == d.lastVisit
  {
    d.(total := d.total + 1, today := d.today + 1, week := d.week + 1)
  }

  /** A bump happens when the draw exceeds 0.85. */
  const BUMP_THRESHOLD: real := 0.85

  class VisitorCounter {
    var stats: VisitorData
    var liveViewers: int
    /** The JSON record under the storage key, if any. */
    var stored: Option<VisitorData>

    /** The component's initial state (VisitorStats.tsx:16-17). */
    constructor (stored: Option<VisitorData>)
      ensures this.stored == stored
      ensures stats == VisitorData(BASE_TOTAL, 12, 45, "") && liveViewers == 3
    {
      this.stored := stored;
      stats := VisitorData(BASE_TOTAL, 12, 45, "");
      liveViewers := 3;
    }

    /** The mount effect (VisitorStats.tsx:19-66). `date` is today's date and
        `diffDays` the whole days between the stored `lastVisit` and today
        (taken as 0 when the stored date does not parse). */
    method Mount(date: string, diffDays: int, growthDraws: seq<real>, todayDraw: real,
                 firstTodayDraw: real, firstWeekDraw: real, firstTotalDraw: real)
      requires diffDays <= |growthDraws|
      requires forall i :: 0 <= i < |growthDraws| ==> IsDraw(growthDraws[i])
      requires IsDraw(todayDraw) && IsDraw(firstTodayDraw) && IsDraw(firstWeekDraw) && IsDraw(firstTotalDraw)
      modifies this
      ensures stored == Some(stats) && liveViewers == old(liveViewers)
      ensures old(stored).None? ==> stats == FirstVisit(date, firstTodayDraw, firstWeekDraw, firstTotalDraw)
      ensures old(stored).Some? && (old(stored).value.lastVisit == date || diffDays <= 0) ==>
        stats == old(stored).value
      ensures old(stored).Some? && old(stored).value.lastVisit != date && diffDays > 0 ==>
        var prev := old(stored).value;
        && stats.total - prev.total == stats.week - prev.week == Growth(growthDraws[..diffDays])
        && DAILY_GROWTH_MIN * diffDays <= stats.total - prev.total <= DAILY_GROWTH_MAX * diffDays
        && 2 <= stats.today <= 6
        && stats.lastVisit == date
    {
      var currentData: VisitorData;
      if stored.Some? {
        currentData := stored.value;
        if currentData.lastVisit != date {
          if diffDays > 0 {
            var missedVisitors := MissedVisitors(diffDays, growthDraws);
            currentData := currentData.(total := currentData.total + missedVisitors);
            currentData := currentData.(week := currentData.week + missedVisitors);
            currentData := currentData.(today := RandomPick.ScaledFloor(todayDraw, 5) + 2);
            currentData := currentData.(lastVisit := date);
          }
        }
      } else {
        currentData := FirstVisit(date, firstTodayDraw, firstWeekDraw, firstTotalDraw);
      }
      stats := currentData;
      stored := Some(currentData);
    }

    /** One run of the interval callback (VisitorStats.tsx:69-92): the live
        count moves, and when `bumpDraw > 0.85` one visitor is counted and
        stored. The total never decreases. */
    method Tick(directionDraw: real, moveDraw: real, bumpDraw: real)
      modifies this
      ensures liveViewers == NextLiveViewers(old(liveViewers), directionDraw, moveDraw)
      ensures bumpDraw > BUMP_THRESHOLD ==> stats == Bump(old(stats)) && stored == Some(stats)
      ensures bumpDraw <= BUMP_THRESHOLD ==> stats == old(stats) && stored == old(stored)
      ensures stats.total >= old(stats.total)
    {
      liveViewers := NextLiveViewers(liveViewers, directionDraw, moveDraw);
      if bumpDraw > BUMP_THRESHOLD {
        var newData := Bump(stats);
        stored := Some(newData);
        stats := newData;
      }
    }
  }
}
