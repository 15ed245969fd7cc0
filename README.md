# OpinionRandomMarket in Dafny

A model of the logic of OpinionRandomMarket, a browser page that shows
prediction-market events as cards and "spins" to pick one at random. The
model also covers the two maintenance scripts that rewrite and check the
built-in event list. One Dafny module per source file:

- `RandomPick` (random.dfy): `getRandomItem` and the `Math.floor(Math.random() * n)` draws.
- `GridRoulette` (grid_roulette.dfy): the grid spin. It builds a 24-card grid, runs
  the decelerating `tick` chain, stops on the winner and keeps the component state.
- `HorizontalScroller` (horizontal_scroller.dfy): the strip spin. The event list is
  repeated, a winning index is drawn in the 60 %–90 % band, and the strip
  scrolls to that card's offset.
- `App` (app.dfy): the spin session (`isSpinning`, `winner`), the button, the
  detail view, the share text and one full round through the strip.
- `Api` (api.dfy): the slugs, the market link, the mapping of API markets to
  events, and `fetchEvents`' choice between the API list and the built-in list.
- `UseEvents` (use_events.dfy): the `useEvents` hook's filter and its
  `events`/`loading`/`error` state.
- `VisitorStats` (visitor_stats.dfy): the visitor record, its update on mount
  and the interval's live-viewer and visitor counters.
- `UpdateMarkets` (update_markets.dfy): `scripts/update_markets.cjs`. It covers
  the image picker, the topic-image endpoint loop with the og:image fallback,
  and the capped selection loops of Opinion mode and Polymarket mode.
- `ValidateMocks` (validate_mocks.dfy): `scripts/validate_mocks.cjs`. It covers
  the value pattern scanned over the event-list source, duplicate removal, the
  link checks and the exit status.
- `Types`, `Text` and `Arith` hold the shared event records, the string
  built-ins (`String(n)`, `toLowerCase`, `startsWith`, `trim`) and facts about
  remainders.

Modelling conventions:

- Every `Math.random()` value is a real parameter in [0, 1).
- Every shuffle is a parameter with the same multiset as the list it shuffles.
- Every network answer, file, `localStorage` value and clock reading is a parameter.
- Components whose state React updates are classes. Their methods change the
  fields as the handlers do.
- The `setTimeout` chain of the grid and the `for`/`while` loops of the
  scripts are `while` loops, proved against specification functions.

The grid's code (GridRoulette.tsx:73, 85) uses the constant `GRID_SIZE` for
both the cycle of the highlight and the minimum run, whatever the length of
the grid it has built. `GridRoulette.Roulette.HandleSpin` models that as
written; `GridRoulette.FixedSpin` takes both from the grid actually shown
(see Findings).

## Model

| member | source | states |
|---|---|---|
| RandomPick.ScaledFloor | opinion-random-market/src/utils/random.ts:3 | `Math.floor(r * n)` for a draw in [0, 1) is an index in [0, n) |
| RandomPick.GetRandomItem | opinion-random-market/src/utils/random.ts:1-5 | null exactly for an empty list; otherwise an element of the list |
| RandomPick.EveryItemReachable | opinion-random-market/src/utils/random.ts:3-4 | every position k of a list is drawn by some draw (namely k/n) |
| Text.Decimal | opinion-random-market/src/utils/api.ts:220 | `toString()` of a non-negative integer: digits only, no leading zero |
| Text.DecimalRoundTrip | opinion-random-market/src/utils/api.ts:220 | reading the decimal numeral back gives the number |
| Text.DecimalInjective | opinion-random-market/src/utils/api.ts:220 | distinct ids give distinct numerals |
| Text.Lower | opinion-random-market/src/utils/api.ts:222 | `toLowerCase` keeps the length and lowers each ASCII letter |
| Text.Trim | opinion-random-market/scripts/update_markets.cjs:111 | `trim()` returns the infix of the string left when only white space is removed before and after it, and the infix neither starts nor ends with white space |
| Text.TrimUnchanged | opinion-random-market/scripts/update_markets.cjs:111 | a string without edge white space is its own trim |
| GridRoulette.Take | opinion-random-market/src/components/GridRoulette.tsx:32 | `slice(0, n)` is the prefix of length min(n, length) |
| GridRoulette.SpliceIndex | opinion-random-market/src/components/GridRoulette.tsx:59 | a splice start past the end inserts at the end |
| GridRoulette.Splice | opinion-random-market/src/components/GridRoulette.tsx:59 | `splice(pos, 0, x)` adds one element, `x` at the insert index, and loses nothing (multiset) |
| GridRoulette.FullGridHoldsWinner | opinion-random-market/src/components/GridRoulette.tsx:54-59 | with at least 23 events the grid has 24 cards, the winner at the drawn position, the rest the first 23 of the shuffle |
| GridRoulette.ShortGridMisplacesWinner | opinion-random-market/src/components/GridRoulette.tsx:54-59 | with fewer than 23 events the grid is shorter than 24 and a drawn position past its end does not hold the winner |
| GridRoulette.WinnerCanAppearTwice | opinion-random-market/src/components/GridRoulette.tsx:54-59 | when the shuffled subset contains the winner, two different cards carry the winner's id |
| GridRoulette.DelayMonotone | opinion-random-market/src/components/GridRoulette.tsx:96-105 | the scheduled delay never decreases and never drops below 50 ms |
| GridRoulette.DelayClosedForm | opinion-random-market/src/components/GridRoulette.tsx:96-103 | delay is 50 ms for the first lap, +5 ms per step up to step 38, then +30 ms per step |
| GridRoulette.FinalDelay | opinion-random-market/src/components/GridRoulette.tsx:85-105 | the last delay before the stopping tick is 420 + 30·winnerPos ms |
| GridRoulette.FinalPhaseSlowsFaster | opinion-random-market/src/components/GridRoulette.tsx:99-103 | the final-approach increment is positive and larger than the middle-phase one |
| GridRoulette.StopStepIsFirst | opinion-random-market/src/components/GridRoulette.tsx:85-87 | the stop rule first holds at step 2·cycle + winnerPos; passing the slot earlier does not stop |
| GridRoulette.TickLoop | opinion-random-market/src/components/GridRoulette.tsx:71-108 | tick s highlights s mod cycle; delays follow `Delay`; the chain stops on winnerPos after 2·cycle + winnerPos steps iff the grid covers the cycle, and otherwise ends by a throw on the first index past the grid |
| GridRoulette.Roulette.constructor | opinion-random-market/src/components/GridRoulette.tsx:15-18 | empty grid, highlight −1, not spinning, no winner |
| GridRoulette.Roulette.ResetGrid | opinion-random-market/src/components/GridRoulette.tsx:29-35 | no events: nothing changes; otherwise the grid is the first min(24, n) of the shuffle, highlight and winner cleared |
| GridRoulette.Roulette.ReceiveEvents | opinion-random-market/src/components/GridRoulette.tsx:23-27 | new events are stored; the grid is filled only when there are events and it was empty |
| GridRoulette.Roulette.HandleSpin | opinion-random-market/src/components/GridRoulette.tsx:37-109 | ignored while spinning or without events; otherwise the grid is the prepared grid, ticks cycle mod 24 with `Delay`; with ≥ 23 events the spin stops on the winner at step 48 + winnerPos and reports it once; with fewer it never stops |
| GridRoulette.WithoutId | opinion-random-market/src/components/GridRoulette.tsx:54 | keeps exactly the events whose id differs from the winner's |
| GridRoulette.PrepareGridUnique | opinion-random-market/src/components/GridRoulette.tsx:54-59 | corrected grid: exactly one card carries the winner's id, at the splice index |
| GridRoulette.FixedSpin | opinion-random-market/src/components/GridRoulette.tsx:37-109 | corrected spin: always stops, only highlights cards of the grid, lands on the unique winner card after exactly two full laps plus its index |
| HorizontalScroller.Repeat | opinion-random-market/src/components/HorizontalScroller.tsx:38 | `Array(k).fill(s).flat()` has k times the length of s, and position i holds s[i mod length] |
| HorizontalScroller.DisplayList | opinion-random-market/src/components/HorizontalScroller.tsx:34-41 | the shown list is 50 copies (20 from 100 events on), position i holding event i mod n |
| HorizontalScroller.WinnerIndex | opinion-random-market/src/components/HorizontalScroller.tsx:74-76 | the winning index lies in [⌊0.6L⌋, ⌊0.9L⌋] and inside the list |
| HorizontalScroller.CardOffsetDecreasing | opinion-random-market/src/components/HorizontalScroller.tsx:83 | later cards have strictly smaller offsets, one 236 px pitch per index |
| HorizontalScroller.SpinScrollsLeft | opinion-random-market/src/components/HorizontalScroller.tsx:46-83 | the spin target is never right of the initial centred card |
| HorizontalScroller.Scroller.constructor | opinion-random-market/src/components/HorizontalScroller.tsx:28-32 | empty list, no winning index, not initialised, not ready |
| HorizontalScroller.Scroller.EventsChanged | opinion-random-market/src/components/HorizontalScroller.tsx:34-41 | a non-empty list becomes the repeated list; an empty one changes nothing |
| HorizontalScroller.Scroller.CentreInitially | opinion-random-market/src/components/HorizontalScroller.tsx:43-55 | once, with a list and no spin, the middle card is centred and the strip shown; otherwise nothing changes |
| HorizontalScroller.Scroller.StartSpin | opinion-random-market/src/components/HorizontalScroller.tsx:65-96 | empty list: nothing; otherwise the winning index is drawn, the strip moves to its offset and the card's event is reported |
| App.Session.constructor | opinion-random-market/src/App.tsx:16-17 | no winner, not spinning |
| App.Session.HandleSpinStart | opinion-random-market/src/App.tsx:19-24 | ignored while spinning, loading or without events; otherwise clears the winner and starts spinning; never spinning with a winner |
| App.Session.HandleSpinEnd | opinion-random-market/src/App.tsx:26-28 | the reported event is the winner and the spin is over |
| App.ButtonEnabledWhenIdle | opinion-random-market/src/App.tsx:91 | not loading and no error shown: the button is disabled exactly while spinning |
| App.ShareText | opinion-random-market/src/App.tsx:58-62 | nothing iff no winner; otherwise "I got ", the title, "! Check out OpinionRandomMarket: ", origin and pathname, then "?ref=OG_Cryptooo" |
| App.ShareTextDeterminesTitle | opinion-random-market/src/App.tsx:59-62 | on the same page, equal shared texts mean equal winner titles |
| App.SpinRound | opinion-random-market/src/App.tsx:19-28 | an accepted click ends with the strip's drawn card as winner, the detail view shown, and exactly that strip card drawn as the stopped winner |
| Api.Dashify | opinion-random-market/src/utils/api.ts:222 | `replace(/[^a-z0-9]+/g, '-')` yields only [a-z0-9-] with no double dash; a leading slug character is kept, a leading other character gives a dash |
| Api.DashifyKeepsSlugChars | opinion-random-market/src/utils/api.ts:222 | with its dashes deleted, the result is exactly the [a-z0-9] characters of the input, in order |
| Api.DashifySlugRun | opinion-random-market/src/utils/api.ts:222 | a run of [a-z0-9] characters is copied unchanged |
| Api.DashifyGapRun | opinion-random-market/src/utils/api.ts:222 | a maximal run of other characters becomes exactly one dash |
| Api.TrimDashesUndash | opinion-random-market/src/utils/api.ts:222 | removing the edge dashes removes nothing but dashes |
| Api.TrimDashes | opinion-random-market/src/utils/api.ts:222 | removing the edge dashes drops at most one dash per end and leaves no edge dash |
| Api.MarketSlug | opinion-random-market/src/utils/api.ts:227 | the market slug is in [a-z0-9-] without double dashes, and without its dashes it is the [a-z0-9] characters of the lower-cased title |
| Api.EventSlug | opinion-random-market/src/utils/api.ts:222 | the event slug is well formed ([a-z0-9-], no double or edge dash), and without its dashes it is the [a-z0-9] characters of the lower-cased title |
| Api.DashifyFixes | opinion-random-market/src/utils/api.ts:222 | a string already in dash form is left unchanged |
| Api.LowerOfSlug | opinion-random-market/src/utils/api.ts:222 | lower-casing leaves slug-alphabet strings alone |
| Api.EventSlugIdempotent | opinion-random-market/src/utils/api.ts:222 | slugging an event slug gives the same slug |
| Api.LinkSlug | opinion-random-market/src/utils/api.ts:33 | the event's slug, else the first market's, else none |
| Api.OpinionMarketUrl | opinion-random-market/src/utils/api.ts:30-38 | always the referral base; `&market=` plus the encoded slug exactly when a slug exists |
| Api.MapMarket | opinion-random-market/src/utils/api.ts:219-238 | throws exactly when `marketId` or `marketTitle` is missing; otherwise every field of the mapped event: decimal id, title, slugs, one market with 0.5/0.5, active iff status 2, closed iff not active |
| Api.MapAll | opinion-random-market/src/utils/api.ts:219-238 | the map throws iff some entry lacks `marketId` or `marketTitle`; otherwise one mapped event per market, in order |
| Api.MappedIdsUnique | opinion-random-market/src/utils/api.ts:219-220 | distinct market ids give distinct event ids |
| Api.FetchEvents | opinion-random-market/src/utils/api.ts:185-245 | no key, any failure (network, status, JSON, code, list) or an entry the map throws on: the built-in list; otherwise the mapped list |
| UseEvents.ValidEvents | opinion-random-market/src/hooks/useEvents.ts:27-29 | keeps exactly the events with a market and a title |
| UseEvents.ValidEventsAppend | opinion-random-market/src/hooks/useEvents.ts:27-29 | the filter keeps order: it distributes over concatenation |
| UseEvents.ValidEventsIdempotent | opinion-random-market/src/hooks/useEvents.ts:27-29 | filtering twice is filtering once |
| UseEvents.ValidEventsKeepsDisplayable | opinion-random-market/src/hooks/useEvents.ts:27-29 | a list of displayable events passes whole |
| UseEvents.ThrownMessage | opinion-random-market/src/hooks/useEvents.ts:39 | an Error's message, else "Failed to load events" |
| UseEvents.EventsHook.constructor | opinion-random-market/src/hooks/useEvents.ts:6-8 | no events, loading, no error |
| UseEvents.EventsHook.Load | opinion-random-market/src/hooks/useEvents.ts:11-44 | loading ends; a throw, an empty answer or an all-filtered answer sets its error and keeps the events; otherwise the filtered events with no error |
| VisitorStats.DailyGrowth | opinion-random-market/src/components/VisitorStats.tsx:39 | one missed day adds 2 to 8 visitors |
| VisitorStats.Growth | opinion-random-market/src/components/VisitorStats.tsx:37-40 | d missed days add between 2d and 8d visitors |
| VisitorStats.MissedVisitors | opinion-random-market/src/components/VisitorStats.tsx:37-40 | the loop sums one daily growth per missed day |
| VisitorStats.FirstVisit | opinion-random-market/src/components/VisitorStats.tsx:54-62 | first record: today in [5, 19], week − today in [30, 79], total in [124, 143], dated today |
| VisitorStats.NextLiveViewers | opinion-random-market/src/components/VisitorStats.tsx:71-77 | the live count stays in [2, 9], moves by at most one, and stays put unless the move draw exceeds 0.7 |
| VisitorStats.LiveViewersStayInRange | opinion-random-market/src/components/VisitorStats.tsx:69-77 | over any run of intervals the live count stays in [2, 9] and within n of its start after n steps |
| VisitorStats.Bump | opinion-random-market/src/components/VisitorStats.tsx:81-87 | total, today and week each grow by one; the date is kept |
| VisitorStats.VisitorCounter.constructor | opinion-random-market/src/components/VisitorStats.tsx:16-17 | the placeholder record (124, 12, 45) and three live viewers |
| VisitorStats.VisitorCounter.Mount | opinion-random-market/src/components/VisitorStats.tsx:19-66 | first visit, same day and new day each give their record, which is stored; a new day adds 2–8 per missed day to total and week and resets today to 2–6 |
| VisitorStats.VisitorCounter.Tick | opinion-random-market/src/components/VisitorStats.tsx:69-92 | the live count moves one step; above 0.85 one visitor is counted and stored; the total never decreases |
| UpdateMarkets.Get | opinion-random-market/scripts/update_markets.cjs:68 | `obj?.key` yields a value exactly for an object holding the key |
| UpdateMarkets.Group | opinion-random-market/scripts/update_markets.cjs:67-70 | one candidate per image key, in key order |
| UpdateMarkets.UrlOf | opinion-random-market/scripts/update_markets.cjs:72 | a candidate counts exactly when it is a string starting with http(s)://, any case |
| UpdateMarkets.Urls | opinion-random-market/scripts/update_markets.cjs:72 | the URL test applied to each candidate, in order |
| UpdateMarkets.FirstSome | opinion-random-market/scripts/update_markets.cjs:72 | `find`: none iff no candidate passes; otherwise the first that does |
| UpdateMarkets.FirstSomeAt | opinion-random-market/scripts/update_markets.cjs:72 | the first passing position determines the result |
| UpdateMarkets.FirstSomeAppend | opinion-random-market/scripts/update_markets.cjs:67-72 | searching a concatenation searches the first part first |
| UpdateMarkets.PickImage | opinion-random-market/scripts/update_markets.cjs:65-74 | a non-object gives nothing; a result is always an http(s) URL |
| UpdateMarkets.PickImageGroupOrder | opinion-random-market/scripts/update_markets.cjs:67-72 | `result.*` wins over `data.*`, which wins over top-level fields |
| UpdateMarkets.GroupImageKeyOrder | opinion-random-market/scripts/update_markets.cjs:67-72 | within a group the first key with an http(s) string wins |
| UpdateMarkets.Absolutise | opinion-random-market/scripts/update_markets.cjs:112-113 | `//…` gets `https:`, `/…` the app origin, anything else is kept; a slash start always becomes an http(s) URL |
| UpdateMarkets.OgImage | opinion-random-market/scripts/update_markets.cjs:110-115 | trimmed, made absolute, kept iff it is then an http(s) URL; a slash start is always kept |
| UpdateMarkets.OgImageIdempotent | opinion-random-market/scripts/update_markets.cjs:111-114 | normalising a normalised og:image value changes nothing |
| UpdateMarkets.OgFallback | opinion-random-market/scripts/update_markets.cjs:109-116 | no match or an empty capture gives nothing; a non-empty capture gives its normalised og:image, always an http(s) URL |
| UpdateMarkets.EndpointImages | opinion-random-market/scripts/update_markets.cjs:94-98 | the picked image of each endpoint answer, in endpoint order |
| UpdateMarkets.TopicImage | opinion-random-market/scripts/update_markets.cjs:62-117 | any topic image found is an http(s) URL |
| UpdateMarkets.EndpointOrder | opinion-random-market/scripts/update_markets.cjs:94-116 | /topic/detail, then /topic, then /topic/get, then the og:image fallback, each only when all before gave nothing |
| UpdateMarkets.FetchTopicImage | opinion-random-market/scripts/update_markets.cjs:62-117 | the endpoint loop returns exactly `TopicImage`, an http(s) URL when present |
| UpdateMarkets.TopicOf | opinion-random-market/scripts/update_markets.cjs:148 | an absent or zero topic id falls back to the market id |
| UpdateMarkets.OpinionImage | opinion-random-market/scripts/update_markets.cjs:150-164 | the local icon path iff an image was found and downloaded; otherwise the Opinion logo |
| UpdateMarkets.OpinionEntryFields | opinion-random-market/scripts/update_markets.cjs:165-186 | the written event: id `op-<marketId>`, slug and title, the icon or the Opinion logo, one market at 0.50/0.50, active iff "Activated", never closed |
| UpdateMarkets.Entries | opinion-random-market/scripts/update_markets.cjs:146-189 | one entry per listing |
| UpdateMarkets.EntriesPointwise | opinion-random-market/scripts/update_markets.cjs:146-189 | entry i is the entry of listing i |
| UpdateMarkets.OpinionMode | opinion-random-market/scripts/update_markets.cjs:120-202 | aborts iff the answer is unreadable or its code is not 0; otherwise writes the entries of the first min(20, n) listings, in order |
| UpdateMarkets.PricesTest | opinion-random-market/scripts/update_markets.cjs:226-229 | passes iff the array, or the parsed non-empty text, has length at least 2; throws iff a non-empty text parses to null or not at all |
| UpdateMarkets.FindValidMarket | opinion-random-market/scripts/update_markets.cjs:226-231 | the first market whose test does not fail decides: found iff it passes (and it is the market found), a throw iff it throws, not found iff every market fails |
| UpdateMarkets.FormatPrices | opinion-random-market/scripts/update_markets.cjs:249-261 | the array itself or the parsed array, at least two entries; it throws exactly for a parsed string |
| UpdateMarkets.ImageUrl | opinion-random-market/scripts/update_markets.cjs:234-238 | event image, else event icon, else market image, else market icon, else the logo; never empty |
| UpdateMarkets.Step | opinion-random-market/scripts/update_markets.cjs:223-274 | no valid market: skipped; a kept event is numbered count + 1, has a reachable image and the valid market's question |
| UpdateMarkets.StepDecides | opinion-random-market/scripts/update_markets.cjs:223-274 | a pass aborts iff `find` throws, the image check throws, or the prices of a reachable image cannot be mapped; a reachable image with mappable prices is taken, with those prices |
| UpdateMarkets.Then | opinion-random-market/scripts/update_markets.cjs:273 | an event kept ahead of the rest of the loop, aborting with it |
| UpdateMarkets.Select | opinion-random-market/scripts/update_markets.cjs:219-276 | the loop never keeps more than 20 events in all |
| UpdateMarkets.SelectNumbering | opinion-random-market/scripts/update_markets.cjs:252-274 | the kept events are numbered on from the count, in order |
| UpdateMarkets.PolymarketWritten | opinion-random-market/scripts/update_markets.cjs:216-281 | a written list has 10–20 events numbered mock-1, mock-2, … with markets m1, m2, …, each active, open and priced; the ids are distinct |
| UpdateMarkets.PolymarketMode | opinion-random-market/scripts/update_markets.cjs:204-300 | the loop's outcome is exactly `PolymarketOutcome`: abort on a bad answer, a throw, or fewer than 10 kept |
| ValidateMocks.CheckUrl | opinion-random-market/scripts/validate_mocks.cjs:9-48 | an empty URL fails; otherwise passes iff the status is in [200, 400) |
| ValidateMocks.MatchAt | opinion-random-market/scripts/validate_mocks.cjs:62 | a match at a position captures a non-empty, quote-free value and ends past it |
| ValidateMocks.FindMatch | opinion-random-market/scripts/validate_mocks.cjs:65 | `exec` from `lastIndex` finds a match ending after it, with a well-formed value |
| ValidateMocks.Scan | opinion-random-market/scripts/validate_mocks.cjs:62 | every captured value is non-empty and quote-free |
| ValidateMocks.ExtractValues | opinion-random-market/scripts/validate_mocks.cjs:62-74 | the `exec` loop collects exactly the scan's values |
| ValidateMocks.Dedup | opinion-random-market/scripts/validate_mocks.cjs:76-77 | `[...new Set(xs)]` has no duplicates, the same values, and lists them in the order of their first occurrence |
| ValidateMocks.DedupOfDistinct | opinion-random-market/scripts/validate_mocks.cjs:76-77 | a duplicate-free list is unchanged, so deduplication is idempotent |
| ValidateMocks.DedupKeepsHead | opinion-random-market/scripts/validate_mocks.cjs:76-77 | the first value of the list is the first value of the result |
| ValidateMocks.Unique | opinion-random-market/scripts/validate_mocks.cjs:76-77 | the loop with a seen-set computes `Dedup` |
| ValidateMocks.AggregateErrors | opinion-random-market/scripts/validate_mocks.cjs:81-102 | an error iff the site check fails or some non-clearbit image fails |
| ValidateMocks.Run | opinion-random-market/scripts/validate_mocks.cjs:50-112 | a missing file exits 1; otherwise exit 1 iff the site or a non-clearbit image fails, with both counts reported |

## Left out

- Timers, animation and effects: `setTimeout`, `requestAnimationFrame`, the
  framer-motion animation (its duration and easing), `scrollIntoView`,
  sounds, vibration and confetti. Only what the handlers compute and the
  order of the ticks are modelled.
- React scheduling: batching, stale closures and effect ordering. Each
  handler runs to completion on the current fields.
- Floating point: `0.6 * L`, `0.9 * L` and `Math.random() * n` are exact
  rational products with a floor. Volumes (`parseFloat`) are not modelled.
- Uniformity: whether `Math.random()` and the `sort(() => 0.5 - Math.random())`
  shuffle are uniform is a property of the random source. The model only
  states which results are possible.
- `navigator.share`, the clipboard and `alert` in `handleShare`. Only the text
  shared is modelled.
- `encodeURIComponent` is an opaque function parameter.
- `toLowerCase` is ASCII-only.
- `String(n)` is modelled for non-negative integer ids only.
- Date handling in VisitorStats.tsx: today's date and the whole-day difference
  are parameters. A date that does not parse gives `NaN`, which counts as no
  missed day.
- A stored visitor record that `JSON.parse` rejects is not modelled. The
  stored value is a record or absent.
- VisitorStats.VisitorCounter.Mount: takes one growth draw per missed day from
  a list at least that long. It does not model the `localStorage` string form.
- UpdateMarkets.PricesTest: a JSON-parsed object with a numeric `length` is
  folded into the failing case. The source would accept it and then throw in
  `map`.
- UpdateMarkets.FormatPrices: non-string prices and `map(String)` are not
  modelled. Prices are strings already.
- UpdateMarkets.OpinionEntryOf: the market's `id` is written as the JSON
  number `marketId` (update_markets.cjs:172). The model's market ids are
  strings, so it holds the decimal numeral of `marketId`: the same digits
  that `JSON.stringify` prints, but without the number/string distinction.
- UpdateMarkets.Step: `volume` and the `liquidity || '0'` defaults are dropped.
  Liquidity is an integer.
- The og:image regular expression over the fetched HTML is not modelled. Its
  captured group is the parameter of `UpdateMarkets.FetchTopicImage`.
- The HTTP requests, `downloadFile`, `mkdir`, writing `mock_data.ts`, console
  output and process exit are parameters or outcomes.
- ValidateMocks.ExtractValues: the pattern is modelled for keys that do not
  start with a quote character. `slug` and `image` do not.
- scripts/serve.cjs, scripts/fetch_real.cjs, the display components and the
  styling are not part of this model.
- The cleanup of the interval and of the grid's timer chain on unmount is not
  modelled: a removed component simply runs no more ticks.

## Findings

| source | as written | input that shows it | evidently intended | confidence | as-written member | corrected member |
|---|---|---|---|---|---|---|
| opinion-random-market/src/components/GridRoulette.tsx:54-87 | the grid holds only min(23, n) + 1 cards, but `tick` cycles `step % 24` and waits for step 48 | 5 events and a winner position of 10: the grid has 6 cards, tick 6 reads `newGrid[6].id` of `undefined` and throws, so the spin never ends and `isSpinning` stays true | cycle and minimum run taken from the grid actually shown, stopping where the winner was spliced in | not executed | GridRoulette.Roulette.HandleSpin | GridRoulette.FixedSpin |
| opinion-random-market/src/components/GridRoulette.tsx:54 | the 23-card subset is drawn from all events, the winner included | 24 events whose shuffle puts the winner first, winner position 5: cards 0 and 5 both carry the winner's id and both are drawn as winner (line 130) | the subset leaves the winner out, so exactly one card is the winner | not executed | GridRoulette.WinnerCanAppearTwice | GridRoulette.PrepareGridUnique |
