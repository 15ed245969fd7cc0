/** The pure parts of src/utils/api.ts: the slug expressions, the market link,
    the mapping of Opinion API markets to events, and the decision of
    `fetchEvents` between the mapped API list and the built-in list.

    The HTTP request is replaced by an `ApiResponse` value, the API key by a
    string parameter and `encodeURIComponent` by an opaque function parameter.
    Lower-casing is ASCII-only. */
module Api {
  import opened Types
  import opened Text

  /** Characters the slug regular expressions keep: `[a-z0-9]`. */
  predicate IsSlugChar(c: char)
  {
    'a' <= c <= 'z' || '0' <= c <= '9'
  }

  /** Every character is a slug character or a dash. */
  predicate InSlugAlphabet(s: string)
  {
    forall i :: 0 <= i < |s| ==> IsSlugChar(s[i]) || s[i] == '-'
  }

  /** No two dashes in a row. */
  predicate NoDoubleDash(s: string)
  {
    forall i :: 0 <= i < |s| - 1 ==> !(s[i] == '-' && s[i + 1] == '-')
  }

  /** Neither the first nor the last character is a dash. */
  predicate NoEdgeDash(s: string)
  {
    s == [] || (s[0] != '-' && s[|s| - 1] != '-')
  }

  /** A well-formed event slug. */
  predicate IsEventSlug(s: string)
  {
    InSlugAlphabet(s) && NoDoubleDash(s) && NoEdgeDash(s)
  }

  /** `replace(/[^a-z0-9]+/g, '-')`: every maximal run of characters outside
      `[a-z0-9]` becomes one dash. `inRun` says that the character before `s`
      was already part of such a run, whose dash has been written. */
  function Dashify(s: string, inRun: bool): (r: string)
    ensures InSlugAlphabet(r) && NoDoubleDash(r)
    ensures inRun ==> r == [] || r[0] != '-'
    ensures s != [] && !IsSlugChar(s[0]) && !inRun ==> r != [] && r[0] == '-'
    ensures s != [] && IsSlugChar(s[0]) ==> r != [] && r[0] == s[0]
    ensures s == [] ==> r == []
  {
    if s == [] then []
    else if IsSlugChar(s[0]) then
      var rest := Dashify(s[1..], false);
      [s[0]] + rest
    else if inRun then Dashify(s[1..], true)
    else
      var rest := Dashify(s[1..], true);
      ['-'] + rest
  }

  /** `replace(/^-|-$/g, '')`: one leading and one trailing dash removed. */
  function TrimDashes(s: string): (r: string)
    ensures InSlugAlphabet(s) ==> InSlugAlphabet(r)
    ensures NoDoubleDash(s) ==> NoDoubleDash(r)
    ensures NoDoubleDash(s) ==> NoEdgeDash(r)
    ensures NoEdgeDash(s) ==> r == s
    ensures var k := if s != [] && s[0] == '-' then 1 else 0;
            |r| + k <= |s| <= |r| + k + 1 && r == s[k..k + |r|]
  {
    var a := if s != [] && s[0] == '-' then s[1..] else s;
    assert NoDoubleDash(s) && s != [] && s[0] == '-' && a != [] ==> a[0] != '-' by {
      if NoDoubleDash(s) && s != [] && s[0] == '-' && a != [] {
        assert a[0] == s[1];
      }
    }
    if a != [] && a[|a| - 1] == '-' then a[..|a| - 1] else a
  }

  /** The `[a-z0-9]` characters of `s`, in order. */
  function SlugChars(s: string): string
  {
    if s == [] then [] else (if IsSlugChar(s[0]) then [s[0]] else []) + SlugChars(s[1..])
  }

  /** `s` with every dash deleted. */
  function Undash(s: string): string
  {
    if s == [] then [] else (if s[0] == '-' then [] else [s[0]]) + Undash(s[1..])
  }

  lemma {:induction false} UndashAppend(a: string, b: string)
    ensures Undash(a + b) == Undash(a) + Undash(b)
    decreases |a|
  {
    if a != [] {
      assert (a + b)[1..] == a[1..] + b;
      UndashAppend(a[1..], b);
    } else {
      assert a + b == b;
    }
  }

  /** Dashify keeps every slug character, in order, and adds nothing but
      dashes. */
  lemma {:induction false} DashifyKeepsSlugChars(s: string, inRun: bool)
    ensures Undash(Dashify(s, inRun)) == SlugChars(s)
    decreases |s|
  {
    if s != [] {
      var rest := Dashify(s[1..], !IsSlugChar(s[0]));
      DashifyKeepsSlugChars(s[1..], !IsSlugChar(s[0]));
      if IsSlugChar(s[0]) {
        assert ([s[0]] + rest)[1..] == rest;
      } else if !inRun {
        assert (['-'] + rest)[1..] == rest;
      }
    }
  }

  /** A run of slug characters is copied as it is. */
  lemma {:induction false} DashifySlugRun(a: string, b: string, inRun: bool)
    requires a != [] && forall i :: 0 <= i < |a| ==> IsSlugChar(a[i])
    ensures Dashify(a + b, inRun) == a + Dashify(b, false)
    decreases |a|
  {
    assert (a + b)[1..] == a[1..] + b;
    if |a| > 1 {
      DashifySlugRun(a[1..], b, false);
    }
  }

  /** A maximal run of other characters becomes a single dash, or nothing
      when the run continues one whose dash is already written. */
  lemma {:induction false} DashifyGapRun(g: string, b: string, inRun: bool)
    requires g != [] && forall i :: 0 <= i < |g| ==> !IsSlugChar(g[i])
    requires b == [] || IsSlugChar(b[0])
    ensures Dashify(g + b, inRun) == (if inRun then [] else ['-']) + Dashify(b, false)
    decreases |g|
  {
    assert (g + b)[1..] == g[1..] + b;
    if |g| > 1 {
      DashifyGapRun(g[1..], b, true);
    }
  }

  /** The market slug of api.ts:227: lower-cased, runs collapsed, no trim.
      Without its dashes it is exactly the slug characters of the
      lower-cased title. */
  function MarketSlug(title: string): (slug: string)
    ensures InSlugAlphabet(slug) && NoDoubleDash(slug)
    ensures Undash(slug) == SlugChars(Lower(title))
  {
    DashifyKeepsSlugChars(Lower(title), false);
    Dashify(Lower(title), false)
  }

  /** Removing edge dashes keeps the other characters. */
  lemma TrimDashesUndash(s: string)
    ensures Undash(TrimDashes(s)) == Undash(s)
  {
    var r := TrimDashes(s);
    var k := if s != [] && s[0] == '-' then 1 else 0;
    assert s == s[..k] + r + s[k + |r|..];
    UndashAppend(s[..k] + r, s[k + |r|..]);
    UndashAppend(s[..k], r);
    assert Undash(s[..k]) == [] by {
      if k == 1 { assert s[..k][1..] == []; }
    }
    assert Undash(s[k + |r|..]) == [] by {
      var t := s[k + |r|..];
      if t != [] {
        assert |t| == 1 && t[0] == '-' && t[1..] == [];
      }
    }
  }

  /** The event slug of api.ts:222: the market slug with its edge dashes
      removed; it too holds exactly the slug characters of the lower-cased
      title. */
  function EventSlug(title: string): (slug: string)
    ensures IsEventSlug(slug)
    ensures Undash(slug) == SlugChars(Lower(title))
  {
    TrimDashesUndash(MarketSlug(title));
    TrimDashes(MarketSlug(title))
  }

  /** A slug-alphabet string without double dashes, not starting with a dash
      where a run is open, is its own dash form. */
  lemma {:induction false} DashifyFixes(s: string, inRun: bool)
    requires InSlugAlphabet(s) && NoDoubleDash(s)
    requires inRun ==> s == [] || s[0] != '-'
    ensures Dashify(s, inRun) == s
    decreases |s|
  {
    if s != [] {
      var t := s[1..];
      assert InSlugAlphabet(t);
      assert NoDoubleDash(t) by {
        forall i | 0 <= i < |t| - 1
          ensures !(t[i] == '-' && t[i + 1] == '-')
        {
          assert t[i] == s[i + 1] && t[i + 1] == s[i + 2];
        }
      }
      if IsSlugChar(s[0]) {
        DashifyFixes(t, false);
      } else {
        assert t == [] || t[0] != '-' by {
          if t != [] {
            assert t[0] == s[1];
          }
        }
        DashifyFixes(t, true);
      }
    }
  }

  /** Characters that lower-casing leaves alone include the whole slug alphabet. */
  lemma LowerOfSlug(s: string)
    requires InSlugAlphabet(s)
    ensures Lower(s) == s
  {
    var l := Lower(s);
    assert forall i :: 0 <= i < |s| ==> l[i] == s[i];
  }

  /** Slugging an event slug changes nothing. */
  lemma EventSlugIdempotent(title: string)
    ensures EventSlug(EventSlug(title)) == EventSlug(title)
  {
    var s := EventSlug(title);
    LowerOfSlug(s);
    DashifyFixes(s, false);
  }

  const MARKET_URL_BASE := "https://opinion.trade/?ref=RandomMarket"
  const MARKET_PARAM := "&market="

  /** The slug `getOpinionMarketUrl` uses (api.ts:33): the event's own slug,
      else the first market's, else none. */
  function LinkSlug(e: Event): (slug: string)
    ensures e.slug != "" ==> slug == e.slug
    ensures e.slug == "" && e.markets != [] ==> slug == e.markets[0].slug
    ensures e.slug == "" && e.markets == [] ==> slug == ""
  {
    if e.slug != "" then e.slug
    else if |e.markets| > 0 then e.markets[0].slug
    else ""
  }

  /** `getOpinionMarketUrl` (api.ts:30-38); `encode` stands for
      `encodeURIComponent`. */
  function OpinionMarketUrl(e: Event, encode: string -> string): (url: string)
    ensures StartsWith(url, MARKET_URL_BASE)
    ensures LinkSlug(e) == "" ==> url == MARKET_URL_BASE
    ensures LinkSlug(e) != "" ==>
      url == MARKET_URL_BASE + MARKET_PARAM + encode(LinkSlug(e))
  {
    var slug := LinkSlug(e);
    if slug != "" then MARKET_URL_BASE + MARKET_PARAM + encode(slug)
    else MARKET_URL_BASE
  }

  /** One entry of the API's `result.list`; a `marketId` or `marketTitle`
      that is null or missing is `None`. `volume` is not modelled. */
  datatype ApiMarket = ApiMarket(marketId: Option<nat>, marketTitle: Option<string>, status: int)

  /** The entry has both fields the mapping dereferences (`toString` and
      `toLowerCase` throw on a null or missing value). */
  predicate Complete(m: ApiMarket)
  {
    m.marketId.Some? && m.marketTitle.Some?
  }

  /** `ev` carries every field api.ts:219-238 derives from the complete
      entry `m`. */
  predicate MappedFrom(m: ApiMarket, ev: Event)
    requires Complete(m)
  {
    var title := m.marketTitle.value;
    && ev.id == Decimal(m.marketId.value) && ev.title == title
    && ev.slug == EventSlug(title) && ev.image == ""
    && |ev.markets| == 1
    && ev.markets[0].id == "m-" + ev.id
    && ev.markets[0].question == title
    && ev.markets[0].slug == MarketSlug(title)
    && ev.markets[0].outcomePrices == ["0.5", "0.5"]
    && ev.liquidity == 0 && ev.markets[0].liquidity == 0
    && (ev.active <==> m.status == 2)
    && ev.closed == !ev.active
    && ev.markets[0].active == ev.active && ev.markets[0].closed == ev.closed
  }

  /** The mapping of one API market to an event (api.ts:219-238); `None` when
      it throws. */
  function MapMarket(m: ApiMarket): (e: Option<Event>)
    ensures e.Some? <==> Complete(m)
    ensures e.Some? ==> MappedFrom(m, e.value)
  {
    match (m.marketId, m.marketTitle)
    case (Some(marketId), Some(title)) =>
      var id := Decimal(marketId);
      var active := m.status == 2;
      var market := Market("m-" + id, title, MarketSlug(title), ["0.5", "0.5"], 0, active, !active);
      Some(Event(id, title, EventSlug(title), "", [market], 0, active, !active))
    case _ => None
  }

  /** `list.map(...)`: one event per market, in order; the whole map throws
      as soon as one entry does. */
  function MapAll(list: seq<ApiMarket>): (events: Option<seq<Event>>)
    ensures events.Some? <==> forall i :: 0 <= i < |list| ==> Complete(list[i])
    ensures events.Some? ==> |events.value| == |list|
    ensures events.Some? ==> forall i :: 0 <= i < |list| ==> MapMarket(list[i]) == Some(events.value[i])
  {
    if forall i :: 0 <= i < |list| ==> Complete(list[i]) then
      Some(seq(|list|, i requires 0 <= i < |list| => MapMarket(list[i]).value))
    else None
  }

  /** Markets with distinct ids become events with distinct ids. */
  lemma MappedIdsUnique(list: seq<ApiMarket>)
    requires forall i, j :: 0 <= i < j < |list| ==> list[i].marketId != list[j].marketId
    ensures MapAll(list).Some? ==>
      var events := MapAll(list).value;
      forall i, j :: 0 <= i < j < |events| ==> events[i].id != events[j].id
  {
    if MapAll(list).Some? {
      var events := MapAll(list).value;
      forall i, j | 0 <= i < j < |events|
        ensures events[i].id != events[j].id
      {
        assert Complete(list[i]) && Complete(list[j]);
        DecimalInjective(list[i].marketId.value, list[j].marketId.value);
      }
    }
  }

  /** The parsed JSON body: not parsable at all, or a `code` with an optional
      `result.list` (absent or null counts as absent). */
  datatype ApiBody = Unparsable | Body(code: int, list: Option<seq<ApiMarket>>)

  /** What the request yields: a failure to connect, or a status and a body. */
  datatype ApiResponse = NetworkError | Response(ok: bool, body: ApiBody)

  /** The response `fetchEvents` maps instead of falling back. */
  predicate Usable(response: ApiResponse)
  {
    response.Response? && response.ok && response.body.Body?
    && response.body.code == 0 && response.body.list.Some?
  }

  /** `fetchEvents` (api.ts:185-245): without a key, or when the request,
      its status, its JSON, its `code`, its list or the mapping of an entry
      fails, the built-in list; otherwise the mapped list, which may be
      empty. */
  function FetchEvents(apiKey: string, response: ApiResponse, builtin: seq<Event>): (events: seq<Event>)
    ensures apiKey == "" ==> events == builtin
    ensures apiKey != "" && !Usable(response) ==> events == builtin
    ensures apiKey != "" && Usable(response) ==>
      var list := response.body.list.value;
      && ((exists i :: 0 <= i < |list| && !Complete(list[i])) ==> events == builtin)
      && ((forall i :: 0 <= i < |list| ==> Complete(list[i])) ==>
            |events| == |list| && forall i :: 0 <= i < |list| ==> MapMarket(list[i]) == Some(events[i]))
  {
    if apiKey == "" then builtin
    else match response
      case NetworkError => builtin
      case Response(ok, body) =>
        if !ok then builtin
        else match body
          case Unparsable => builtin
          case Body(code, list) =>
            if code != 0 || list.None? then builtin
            else match MapAll(list.value)
              case None => builtin
              case Some(mapped) => mapped
  }
}
