/** The decision logic of scripts/update_markets.cjs, the script that rewrites
    the built-in event list.

    - `pickImage` and the endpoint loop of `fetchTopicImageFlexible`, with
      every HTTP answer given as a parsed `Json` value.
    - The og:image fallback, from the captured attribute value onwards.
    - The two capped selection loops of `main`, in Opinion mode and in
      Polymarket mode. The network, the icon lookup, the download and the
      image check are function parameters.

    The outcome of `main` is the list that would be written to
    src/utils/mock_data.ts, or `Aborted` when the process exits with status 1
    without writing. */
module UpdateMarkets {
  import opened Types
  import opened Text

  // ---------------------------------------------------------------------
  // Parsed JSON and the image picker
  // ---------------------------------------------------------------------

  /** A parsed JSON value, as far as the picker looks into it. `JNull` is
      also what a failed endpoint request resolves to; `JOther` stands for
      numbers, booleans and arrays. */
  datatype Json = JString(s: string) | JObject(fields: map<string, Json>) | JNull | JOther

  /** Optional chaining `j?.key`: a value only when `j` is an object that has
      the key. */
  function Get(j: Json, key: string): (v: Option<Json>)
    ensures v.Some? <==> j.JObject? && key in j.fields
  {
    if j.JObject? && key in j.fields then Some(j.fields[key]) else None
  }

  /** The property names the picker reads, in order (update_markets.cjs:68-70). */
  const IMAGE_KEYS: seq<string> := ["iconUrl", "icon", "logo", "cover", "imgUrl", "image", "topicIcon"]

  /** `/^https?:\/\//i`: starts with http:// or https://, ignoring case. */
  predicate IsHttpUrl(u: string)
  {
    StartsWithIgnoreCase(u, "http://") || StartsWithIgnoreCase(u, "https://")
  }

  /** The candidate `parent?.key` for each key, in key order. */
  function Group(parent: Option<Json>): (c: seq<Option<Json>>)
    ensures |c| == |IMAGE_KEYS|
    ensures forall i :: 0 <= i < |c| ==>
      c[i] == (if parent.Some? then Get(parent.value, IMAGE_KEYS[i]) else None)
  {
    seq(|IMAGE_KEYS|, i requires 0 <= i < |IMAGE_KEYS| =>
      if parent.Some? then Get(parent.value, IMAGE_KEYS[i]) else None)
  }

  /** The URL a candidate offers: a string that starts with http(s)://. */
  function UrlOf(c: Option<Json>): (u: Option<string>)
    ensures u.Some? <==> c.Some? && c.value.JString? && IsHttpUrl(c.value.s)
    ensures u.Some? ==> u.value == c.value.s
  {
    if c.Some? && c.value.JString? && IsHttpUrl(c.value.s) then Some(c.value.s) else None
  }

  function Urls(cs: seq<Option<Json>>): (us: seq<Option<string>>)
    ensures |us| == |cs|
    ensures forall i :: 0 <= i < |cs| ==> us[i] == UrlOf(cs[i])
  {
    seq(|cs|, i requires 0 <= i < |cs| => UrlOf(cs[i]))
  }

  /** The first present value of a list: `Array.prototype.find` over options. */
  function FirstSome<T>(s: seq<Option<T>>): (r: Option<T>)
    ensures r.None? <==> forall i :: 0 <= i < |s| ==> s[i].None?
    ensures r.Some? ==> exists k :: 0 <= k < |s| && s[k] == r && forall j :: 0 <= j < k ==> s[j].None?
  {
    if s == [] then None
    else if s[0].Some? then s[0]
    else
      var r := FirstSome(s[1..]);
      assert r.Some? ==> exists k :: 0 <= k < |s| && s[k] == r && forall j :: 0 <= j < k ==> s[j].None? by {
        if r.Some? {
          var k :| 0 <= k < |s[1..]| && s[1..][k] == r && forall j :: 0 <= j < k ==> s[1..][j].None?;
          assert s[k + 1] == r;
          assert forall j :: 0 < j < k + 1 ==> s[j] == s[1..][j - 1];
        }
      }
      r
  }

  /** The first present value is the one at the first present position. */
  lemma FirstSomeAt<T>(s: seq<Option<T>>, k: nat)
    requires k < |s| && s[k].Some?
    requires forall j :: 0 <= j < k ==> s[j].None?
    ensures FirstSome(s) == s[k]
  {
    var r := FirstSome(s);
    var k' :| 0 <= k' < |s| && s[k'] == r && forall j :: 0 <= j < k' ==> s[j].None?;
  }

  /** `a ?? b` for options. */
  function OrElse<T>(a: Option<T>, b: Option<T>): (r: Option<T>)
    ensures a.Some? ==> r == a
    ensures a.None? ==> r == b
  {
    if a.Some? then a else b
  }

  /** Searching a concatenation searches the first part first. */
  lemma {:induction false} FirstSomeAppend<T>(a: seq<Option<T>>, b: seq<Option<T>>)
    ensures FirstSome(a + b) == OrElse(FirstSome(a), FirstSome(b))
    decreases |a|
  {
    if a == [] {
      assert a + b == b;
    } else {
      assert (a + b)[0] == a[0] && (a + b)[1..] == a[1..] + b;
      if a[0].None? {
        FirstSomeAppend(a[1..], b);
      }
    }
  }

  /** The image of one group of candidates. */
  function GroupImage(parent: Option<Json>): Option<string>
  {
    FirstSome(Urls(Group(parent)))
  }

  /** `pickImage` (update_markets.cjs:65-74): nothing for a non-object;
      otherwise the first candidate that is an http(s) URL, looking at
      `result.*`, then `data.*`, then the top level. */
  function PickImage(obj: Json): (url: Option<string>)
    ensures !obj.JObject? ==> url.None?
    ensures url.Some? ==> IsHttpUrl(url.value)
  {
    if !obj.JObject? then None
    else
      var cs := Group(Get(obj, "result")) + Group(Get(obj, "data")) + Group(Some(obj));
      var r := FirstSome(Urls(cs));
      assert r.Some? ==> IsHttpUrl(r.value) by {
        if r.Some? {
          var k :| 0 <= k < |cs| && Urls(cs)[k] == r && forall j :: 0 <= j < k ==> Urls(cs)[j].None?;
          assert UrlOf(cs[k]) == r;
        }
      }
      r
  }

  /** The groups are searched in order: `result.*` wins over `data.*`, which
      wins over the top-level fields. */
  lemma PickImageGroupOrder(obj: Json)
    requires obj.JObject?
    ensures PickImage(obj) ==
      OrElse(GroupImage(Get(obj, "result")),
        OrElse(GroupImage(Get(obj, "data")), GroupImage(Some(obj))))
  {
    var r, d, t := Group(Get(obj, "result")), Group(Get(obj, "data")), Group(Some(obj));
    assert Urls(r + d + t) == Urls(r) + (Urls(d) + Urls(t));
    FirstSomeAppend(Urls(r), Urls(d) + Urls(t));
    FirstSomeAppend(Urls(d), Urls(t));
  }

  /** Within a group the first key with an http(s) string wins, in the order
      of `IMAGE_KEYS`. */
  lemma GroupImageKeyOrder(parent: Json, k: nat, url: string)
    requires k < |IMAGE_KEYS| && Get(parent, IMAGE_KEYS[k]) == Some(JString(url)) && IsHttpUrl(url)
    requires forall j :: 0 <= j < k ==> UrlOf(Get(parent, IMAGE_KEYS[j])).None?
    ensures GroupImage(Some(parent)) == Some(url)
  {
    var us := Urls(Group(Some(parent)));
    assert us[k] == Some(url);
    FirstSomeAt(us, k);
  }

  // ---------------------------------------------------------------------
  // fetchTopicImageFlexible
  // ---------------------------------------------------------------------

  /** The endpoints tried, in order (update_markets.cjs:94). */
  const TOPIC_DETAIL := "/topic/detail"
  const TOPIC := "/topic"
  const TOPIC_GET := "/topic/get"
  const ENDPOINTS: seq<string> := [TOPIC_DETAIL, TOPIC, TOPIC_GET]

  const HTTPS := "https://"
  const APP_ORIGIN := HTTPS + "app.opinion.trade"

  /** The scheme prefix is all lower case. */
  lemma HttpsLower()
    ensures forall i :: 0 <= i < |HTTPS| ==> LowerChar(HTTPS[i]) == HTTPS[i]
  {
    forall i | 0 <= i < |HTTPS|
      ensures LowerChar(HTTPS[i]) == HTTPS[i]
    {
      assert i == 0 || i == 1 || i == 2 || i == 3 || i == 4 || i == 5 || i == 6 || i == 7;
    }
  }

  /** A string that starts with https:// is an http(s) URL. */
  lemma HttpsPrefixed(rest: string)
    ensures IsHttpUrl(HTTPS + rest)
  {
    HttpsLower();
    var s := HTTPS + rest;
    assert forall i :: 0 <= i < |HTTPS| ==> s[i] == HTTPS[i];
  }

  /** The two rewrites of update_markets.cjs:112-113: a protocol-relative
      `//host/...` gets `https:`, a root-relative `/...` the app's origin.
      Anything that starts with a slash comes out as an http(s) URL. */
  function Absolutise(t: string): (b: string)
    ensures StartsWith(t, "//") ==> b == "https:" + t
    ensures StartsWith(t, "/") && !StartsWith(t, "//") ==> b == APP_ORIGIN + t
    ensures !StartsWith(t, "/") ==> b == t
    ensures StartsWith(t, "/") ==> IsHttpUrl(b)
    ensures t != [] ==> b != [] && b[|b| - 1] == t[|t| - 1]
  {
    var a := if StartsWith(t, "//") then "https:" + t else t;
    assert StartsWith(t, "//") ==> a == HTTPS + t[2..] && a[0] == HTTPS[0];
    assert StartsWith(t, "//") ==> IsHttpUrl(a) by {
      if StartsWith(t, "//") {
        HttpsPrefixed(t[2..]);
      }
    }
    assert StartsWith(a, "/") ==> APP_ORIGIN + a == HTTPS + ("app.opinion.trade" + a);
    assert StartsWith(a, "/") ==> IsHttpUrl(APP_ORIGIN + a) by {
      if StartsWith(a, "/") {
        HttpsPrefixed("app.opinion.trade" + a);
      }
    }
    if StartsWith(a, "/") then APP_ORIGIN + a else a
  }

  /** The og:image normalisation (update_markets.cjs:111-115) of a captured
      `content` value: trimmed, made absolute, and kept only if it is then an
      http(s) URL. A value that starts with a slash is always kept. */
  function OgImage(captured: string): (url: Option<string>)
    ensures url.Some? ==> IsHttpUrl(url.value)
    ensures url.Some? <==> IsHttpUrl(Absolutise(Trim(captured)))
    ensures url.Some? ==> url.value == Absolutise(Trim(captured))
    ensures StartsWith(Trim(captured), "/") ==> url.Some?
  {
    var b := Absolutise(Trim(captured));
    if IsHttpUrl(b) then Some(b) else None
  }

  /** An http(s) URL does not start with white space or a slash. */
  lemma HttpUrlStart(u: string)
    requires IsHttpUrl(u)
    ensures u != [] && !IsSpace(u[0]) && u[0] != '/'
  {
    assert LowerChar(u[0]) == 'h';
  }

  /** An http(s) URL is left alone by the two rewrites. */
  lemma AbsolutiseKeepsUrl(v: string)
    requires IsHttpUrl(v)
    ensures Absolutise(v) == v
  {
    HttpUrlStart(v);
    assert !StartsWith(v, "/");
  }

  /** An http(s) URL that does not end in white space is its own trim. */
  lemma TrimKeepsUrl(v: string)
    requires IsHttpUrl(v) && !IsSpace(v[|v| - 1])
    ensures Trim(v) == v
  {
    HttpUrlStart(v);
    TrimUnchanged(v);
  }

  /** A normalised og:image value normalises to itself. */
  lemma OgImageIdempotent(captured: string)
    requires OgImage(captured).Some?
    ensures OgImage(OgImage(captured).value) == OgImage(captured)
  {
    var t := Trim(captured);
    var v := Absolutise(t);
    assert OgImage(captured) == Some(v) && IsHttpUrl(v);
    assert t != [] && v[|v| - 1] == t[|t| - 1];
    TrimKeepsUrl(v);
    AbsolutiseKeepsUrl(v);
  }

  /** The og fallback: `m && m[1]` requires a captured, non-empty value. */
  function OgFallback(captured: Option<string>): (url: Option<string>)
    ensures url.Some? ==> IsHttpUrl(url.value)
    ensures captured.None? || captured.value == "" ==> url.None?
    ensures captured.Some? && captured.value != "" ==> url == OgImage(captured.value)
  {
    if captured.Some? && captured.value != "" then OgImage(captured.value) else None
  }

  /** What each endpoint's answer yields, in endpoint order. */
  function EndpointImages(endpoint: string -> Json): (imgs: seq<Option<string>>)
    ensures |imgs| == |ENDPOINTS|
    ensures forall i :: 0 <= i < |ENDPOINTS| ==> imgs[i] == PickImage(endpoint(ENDPOINTS[i]))
  {
    seq(|ENDPOINTS|, i requires 0 <= i < |ENDPOINTS| => PickImage(endpoint(ENDPOINTS[i])))
  }

  /** The result of `fetchTopicImageFlexible`: the first endpoint image, else
      the og fallback. */
  function TopicImage(endpoint: string -> Json, ogCapture: Option<string>): (url: Option<string>)
    ensures url.Some? ==> IsHttpUrl(url.value)
  {
    var found := FirstSome(EndpointImages(endpoint));
    assert found.Some? ==> IsHttpUrl(found.value) by {
      if found.Some? {
        var k :| 0 <= k < |ENDPOINTS| && EndpointImages(endpoint)[k] == found
          && forall j :: 0 <= j < k ==> EndpointImages(endpoint)[j].None?;
      }
    }
    OrElse(found, OgFallback(ogCapture))
  }

  /** `/topic/detail` is asked first, `/topic` only when it yields nothing,
      `/topic/get` only when both yield nothing, and the page's og:image only
      when all three yield nothing (`imgs[i]` is what `ENDPOINTS[i]` yields). */
  lemma EndpointOrder(endpoint: string -> Json, og: Option<string>)
    ensures var imgs := EndpointImages(endpoint);
      && (imgs[0].Some? ==> TopicImage(endpoint, og) == imgs[0])
      && (imgs[0].None? && imgs[1].Some? ==> TopicImage(endpoint, og) == imgs[1])
      && (imgs[0].None? && imgs[1].None? && imgs[2].Some? ==> TopicImage(endpoint, og) == imgs[2])
      && (imgs[0].None? && imgs[1].None? && imgs[2].None? ==> TopicImage(endpoint, og) == OgFallback(og))
  {
    var imgs := EndpointImages(endpoint);
    assert TopicImage(endpoint, og) == OrElse(FirstSome(imgs), OgFallback(og));
    FirstOfThree(imgs, OgFallback(og));
  }

  /** The first present value of three, else the fallback. */
  lemma FirstOfThree<T>(s: seq<Option<T>>, fallback: Option<T>)
    requires |s| == 3
    ensures s[0].Some? ==> OrElse(FirstSome(s), fallback) == s[0]
    ensures s[0].None? && s[1].Some? ==> OrElse(FirstSome(s), fallback) == s[1]
    ensures s[0].None? && s[1].None? && s[2].Some? ==> OrElse(FirstSome(s), fallback) == s[2]
    ensures s[0].None? && s[1].None? && s[2].None? ==> OrElse(FirstSome(s), fallback) == fallback
  {
    if s[0].Some? {
      FirstSomeAt(s, 0);
    } else if s[1].Some? {
      FirstSomeAt(s, 1);
    } else if s[2].Some? {
      FirstSomeAt(s, 2);
    }
  }

  /** `fetchTopicImageFlexible` (update_markets.cjs:62-117). `endpoint` gives
      the parsed answer of each endpoint for this topic (`JNull` when the
      request or the parse failed); `ogCapture` the value the og:image pattern
      captured in the public page, if it matched. */
  method FetchTopicImage(endpoint: string -> Json, ogCapture: Option<string>) returns (img: Option<string>)
    ensures img == TopicImage(endpoint, ogCapture)
    ensures img.Some? ==> IsHttpUrl(img.value)
  {
    var i := 0;
    while i < |ENDPOINTS|
      invariant 0 <= i <= |ENDPOINTS|
      invariant forall j :: 0 <= j < i ==> PickImage(endpoint(ENDPOINTS[j])).None?
    {
      var json := endpoint(ENDPOINTS[i]);
      var found := PickImage(json);
      if found.Some? {
        FirstSomeAt(EndpointImages(endpoint), i);
        return found;
      }
      i := i + 1;
    }
    img := OgFallback(ogCapture);
  }

  // ---------------------------------------------------------------------
  // main: the two selection loops
  // ---------------------------------------------------------------------

  /** At most this many events are written in either mode. */
  const MAX_EVENTS := 20
  /** Polymarket mode refuses to write fewer than this many. */
  const MIN_EVENTS := 10

  /** The script's outcome: the list written, or exit status 1 without writing. */
  datatype Outcome<T> = Written(items: seq<T>) | Aborted

  const OPINION_LOGO := HTTPS + "opinion.trade/static/opinion-logo.svg"
  const ICON_DIR := "/opinion-icons/"

  /** One entry of the Opinion `result.list`. A missing `topicId` is `None`. */
  datatype Listing = Listing(marketId: nat, topicId: Option<nat>, marketTitle: string, statusEnum: string)

  /** The Opinion answer: unparsable or null (the request rejects), or a
      `code` and an optional `result.list`. */
  datatype OpinionResponse = OpinionUnreadable | OpinionBody(code: int, list: Option<seq<Listing>>)

  /** An Opinion-mode event and the topic id it records. */
  datatype OpinionEntry = OpinionEntry(event: Event, topicId: nat)

  /** `m.topicId || m.marketId`: an absent or zero topic id falls back. */
  function TopicOf(m: Listing): (t: nat)
    ensures m.topicId.Some? && m.topicId.value != 0 ==> t == m.topicId.value
    ensures m.topicId.None? || m.topicId.value == 0 ==> t == m.marketId
  {
    if m.topicId.Some? && m.topicId.value != 0 then m.topicId.value else m.marketId
  }

  function IconPath(topic: nat): string
  {
    ICON_DIR + Decimal(topic) + ".png"
  }

  /** The image of an Opinion entry (update_markets.cjs:150-164): the local
      icon when a topic image was found and downloaded, else the Opinion
      logo. `found` is what the icon lookup returned (None also when it
      threw); `download` says whether the download succeeded. */
  function OpinionImage(topic: nat, found: Option<string>, download: (string, nat) -> bool): (image: string)
    ensures image == IconPath(topic) <==> found.Some? && download(found.value, topic)
    ensures image != IconPath(topic) ==> image == OPINION_LOGO
  {
    assert IconPath(topic)[0] == '/';
    assert OPINION_LOGO[0] == HTTPS[0];
    if found.Some? && download(found.value, topic) then IconPath(topic) else OPINION_LOGO
  }

  /** The event written for one Opinion listing (update_markets.cjs:165-186). */
  function OpinionEntryOf(m: Listing, iconFor: nat -> Option<string>,
                          download: (string, nat) -> bool): OpinionEntry
  {
    var topic := TopicOf(m);
    var id := Decimal(m.marketId);
    var active := m.statusEnum == "Activated";
    var market := Market(id, m.marketTitle, id, ["0.50", "0.50"], 0, active, false);
    OpinionEntry(Event("op-" + id, m.marketTitle, id, OpinionImage(topic, iconFor(topic), download),
                       [market], 0, active, false), topic)
  }

  /** The fields of the written event: id `op-<marketId>`, slug and title,
      the icon or the Opinion logo, one market at 0.50/0.50, active exactly
      for an "Activated" listing, never closed. */
  lemma OpinionEntryFields(m: Listing, iconFor: nat -> Option<string>, download: (string, nat) -> bool)
    ensures OpinionEntryOf(m, iconFor, download).topicId == TopicOf(m)
    ensures OpinionEntryOf(m, iconFor, download).event.id == "op-" + Decimal(m.marketId)
    ensures OpinionEntryOf(m, iconFor, download).event.slug == Decimal(m.marketId) && OpinionEntryOf(m, iconFor, download).event.title == m.marketTitle
    ensures OpinionEntryOf(m, iconFor, download).event.image == OpinionImage(TopicOf(m), iconFor(TopicOf(m)), download)
    ensures |OpinionEntryOf(m, iconFor, download).event.markets| == 1 && OpinionEntryOf(m, iconFor, download).event.markets[0].outcomePrices == ["0.50", "0.50"]
    ensures OpinionEntryOf(m, iconFor, download).event.active <==> m.statusEnum == "Activated"
    ensures !OpinionEntryOf(m, iconFor, download).event.closed
  {
  }

  /** The entries written for a list of listings, in order (built from the
      end, as the loop that appends builds it). */
  function Entries(list: seq<Listing>, iconFor: nat -> Option<string>,
                   download: (string, nat) -> bool): (entries: seq<OpinionEntry>)
    ensures |entries| == |list|
    decreases |list|
  {
    if list == [] then []
    else Entries(list[..|list| - 1], iconFor, download)
         + [OpinionEntryOf(list[|list| - 1], iconFor, download)]
  }

  /** Entry `i` is the entry of listing `i`. */
  lemma {:induction false} EntriesPointwise(list: seq<Listing>, i: nat, iconFor: nat -> Option<string>,
                                            download: (string, nat) -> bool)
    requires i < |list|
    ensures Entries(list, iconFor, download)[i] == OpinionEntryOf(list[i], iconFor, download)
    decreases |list|
  {
    var init := list[..|list| - 1];
    if i < |init| {
      EntriesPointwise(init, i, iconFor, download);
      assert list[i] == init[i];
    }
  }

  /** The entries of one more listing are those of the listings before it
      followed by its own. */
  lemma EntriesSnoc(list: seq<Listing>, i: nat, iconFor: nat -> Option<string>,
                    download: (string, nat) -> bool)
    requires i < |list|
    ensures Entries(list[..i + 1], iconFor, download)
            == Entries(list[..i], iconFor, download) + [OpinionEntryOf(list[i], iconFor, download)]
  {
    assert list[..i + 1][..i] == list[..i];
  }

  /** Opinion mode of `main` (update_markets.cjs:120-202): a bad answer
      aborts; otherwise the first 20 listings become entries, in order. */
  method OpinionMode(response: OpinionResponse, iconFor: nat -> Option<string>,
                     download: (string, nat) -> bool) returns (out: Outcome<OpinionEntry>)
    ensures response.OpinionUnreadable? || response.code != 0 <==> out.Aborted?
    ensures out.Written? ==>
      var list := if response.list.Some? then response.list.value else [];
      out.items == Entries(list[..if |list| < MAX_EVENTS then |list| else MAX_EVENTS], iconFor, download)
  {
    if response.OpinionUnreadable? || response.code != 0 {
      return Aborted;
    }
    var list := if response.list.Some? then response.list.value else [];
    var validEvents: seq<OpinionEntry> := [];
    var count := 0;
    var i := 0;
    while i < |list|
      invariant 0 <= i <= |list|
      invariant count == i <= MAX_EVENTS
      invariant validEvents == Entries(list[..i], iconFor, download)
    {
      if count >= MAX_EVENTS {
        break;
      }
      EntriesSnoc(list, i, iconFor, download);
      validEvents := validEvents + [OpinionEntryOf(list[i], iconFor, download)];
      count := count + 1;
      i := i + 1;
    }
    assert i == if |list| < MAX_EVENTS then |list| else MAX_EVENTS;
    out := Written(validEvents);
  }

  /** What `JSON.parse` made of a string-valued `outcomePrices`. */
  datatype Parsed = ParseError | ParsedArray(values: seq<string>) | ParsedNull
                  | ParsedString(text: string) | ParsedOther

  /** A market's `outcomePrices`: absent, an array, or a JSON string. */
  datatype Prices = NoPrices | PriceArray(values: seq<string>) | PriceText(text: string, parsed: Parsed)

  datatype PolyMarket = PolyMarket(question: string, image: string, icon: string, outcomePrices: Prices)

  /** One Gamma API event; a missing `markets` is the empty list and a missing
      string is "". */
  datatype PolyEvent = PolyEvent(title: string, slug: string, image: string, icon: string,
                                 markets: seq<PolyMarket>, liquidity: int)

  /** The answer of the events request: a rejection (status outside 2xx,
      unparsable body or request error), a non-array, or the events. */
  datatype PolyResponse = PolyFetchFailed | NotArray | PolyEvents(events: seq<PolyEvent>)

  /** The result of a test that may throw. */
  datatype Test = Pass | Fail | Throws

  /** The `find` predicate of update_markets.cjs:226-229: truthy prices with
      at least two entries. `null.length` and a parse error throw. */
  function PricesTest(p: Prices): (t: Test)
    ensures t == Throws <==>
      p.PriceText? && p.text != "" && (p.parsed.ParseError? || p.parsed.ParsedNull?)
    ensures t == Pass <==>
      || (p.PriceArray? && |p.values| >= 2)
      || (p.PriceText? && p.text != "" &&
            ((p.parsed.ParsedArray? && |p.parsed.values| >= 2)
             || (p.parsed.ParsedString? && |p.parsed.text| >= 2)))
  {
    match p
    case NoPrices => Fail
    case PriceArray(values) => if |values| >= 2 then Pass else Fail
    case PriceText(text, parsed) =>
      if text == "" then Fail
      else match parsed
        case ParseError => Throws
        case ParsedNull => Throws
        case ParsedArray(values) => if |values| >= 2 then Pass else Fail
        case ParsedString(s) => if |s| >= 2 then Pass else Fail
        case ParsedOther => Fail
  }

  datatype Found = Found(m: PolyMarket) | NotFound | FindThrew

  /** The first market whose test does not fail is at `k`. */
  predicate FirstDecidedAt(ms: seq<PolyMarket>, k: int)
  {
    && 0 <= k < |ms| && PricesTest(ms[k].outcomePrices) != Fail
    && forall j :: 0 <= j < k ==> PricesTest(ms[j].outcomePrices) == Fail
  }

  /** Every market's test fails. */
  predicate AllFail(ms: seq<PolyMarket>)
  {
    forall j :: 0 <= j < |ms| ==> PricesTest(ms[j].outcomePrices) == Fail
  }

  /** Behind a failing first market, every position moves up by one. */
  lemma DecidedShifts(ms: seq<PolyMarket>)
    requires ms != [] && PricesTest(ms[0].outcomePrices) == Fail
    ensures !FirstDecidedAt(ms, 0)
    ensures forall k :: FirstDecidedAt(ms[1..], k) <==> FirstDecidedAt(ms, k + 1)
    ensures forall k :: 0 <= k < |ms| - 1 ==> ms[1..][k] == ms[k + 1]
    ensures AllFail(ms) <==> AllFail(ms[1..])
  {
    var tail := ms[1..];
    assert forall j :: 0 <= j < |tail| ==> tail[j] == ms[j + 1];
    forall k
      ensures FirstDecidedAt(tail, k) <==> FirstDecidedAt(ms, k + 1)
    {
      if FirstDecidedAt(ms, k + 1) {
        assert forall j :: 0 <= j < k ==> tail[j] == ms[j + 1];
      }
    }
    if AllFail(tail) {
      forall j | 0 <= j < |ms|
        ensures PricesTest(ms[j].outcomePrices) == Fail
      {
        if j > 0 { assert ms[j] == tail[j - 1]; }
      }
    }
  }

  /** A market that does not fail at the head is the first decided one. */
  lemma DecidedAtHead(ms: seq<PolyMarket>)
    requires ms != [] && PricesTest(ms[0].outcomePrices) != Fail
    ensures FirstDecidedAt(ms, 0) && !AllFail(ms)
    ensures forall k :: FirstDecidedAt(ms, k) ==> k == 0
  {
  }

  /** `e.markets.find(...)` (update_markets.cjs:226-229): the first market
      whose test does not fail decides. A pass there is the market found, a
      throw there stops the search and escapes; with no such market nothing
      is found. */
  function FindValidMarket(ms: seq<PolyMarket>): (r: Found)
    ensures r.Found? ==> PricesTest(r.m.outcomePrices) == Pass
    ensures r.Found? <==> exists k :: FirstDecidedAt(ms, k) && PricesTest(ms[k].outcomePrices) == Pass
    ensures r.Found? ==> exists k :: FirstDecidedAt(ms, k) && ms[k] == r.m
    ensures r == FindThrew <==> exists k :: FirstDecidedAt(ms, k) && PricesTest(ms[k].outcomePrices) == Throws
    ensures r == NotFound <==> AllFail(ms)
  {
    if ms == [] then NotFound
    else match PricesTest(ms[0].outcomePrices)
      case Pass =>
        DecidedAtHead(ms);
        Found(ms[0])
      case Throws =>
        DecidedAtHead(ms);
        FindThrew
      case Fail =>
        DecidedShifts(ms);
        var r := FindValidMarket(ms[1..]);
        assert r.Found? ==> exists k :: FirstDecidedAt(ms, k) && ms[k] == r.m by {
          if r.Found? {
            var k :| FirstDecidedAt(ms[1..], k) && ms[1..][k] == r.m;
            assert FirstDecidedAt(ms, k + 1);
          }
        }
        r
  }

  /** The prices written (update_markets.cjs:249-250, 261): the array, or the
      parsed array; a parsed string has no `map` and throws. */
  function FormatPrices(p: Prices): (values: Option<seq<string>>)
    requires PricesTest(p) == Pass
    ensures values.Some? <==> !(p.PriceText? && p.parsed.ParsedString?)
    ensures values.Some? ==> values.value == (if p.PriceArray? then p.values else p.parsed.values)
    ensures values.Some? ==> |values.value| >= 2
  {
    match p
    case PriceArray(values) => Some(values)
    case PriceText(_, parsed) =>
      if parsed.ParsedArray? then Some(parsed.values) else None
  }

  const POLY_LOGO := "https://polymarket.com/static/logo-icon.svg"

  /** `e.image || e.icon || vm.image || vm.icon`, else the generic logo. */
  function ImageUrl(e: PolyEvent, vm: PolyMarket): (url: string)
    ensures url != ""
    ensures e.image != "" ==> url == e.image
    ensures e.image == "" && e.icon != "" ==> url == e.icon
    ensures e.image == "" && e.icon == "" && vm.image != "" ==> url == vm.image
    ensures e.image == "" && e.icon == "" && vm.image == "" && vm.icon != "" ==> url == vm.icon
    ensures e.image == "" && e.icon == "" && vm.image == "" && vm.icon == "" ==> url == POLY_LOGO
  {
    if e.image != "" then e.image
    else if e.icon != "" then e.icon
    else if vm.image != "" then vm.image
    else if vm.icon != "" then vm.icon
    else POLY_LOGO
  }

  /** What the HEAD request of `checkImage` reports: status 200, another
      status or a network error, or a synchronous throw (an unusable URL),
      which rejects the promise. */
  datatype Check = Reachable | Unreachable | CheckThrew

  function MockId(n: nat): string { "mock-" + Decimal(n) }
  function MockMarketId(n: nat): string { "m" + Decimal(n) }

  /** Event number `n` of the written list: ids mock-n and mn, one market
      with at least two prices, active and open. */
  predicate Numbered(ev: Event, n: nat)
  {
    && ev.id == MockId(n)
    && |ev.markets| == 1
    && ev.markets[0].id == MockMarketId(n)
    && |ev.markets[0].outcomePrices| >= 2
    && ev.active && !ev.closed
  }

  /** One pass of the Polymarket loop body with `count` events kept so far. */
  datatype StepResult = Skip | Abort | Take(ev: Event)

  function Step(e: PolyEvent, count: nat, check: string -> Check): (r: StepResult)
    ensures e.markets == [] ==> r == Skip
    ensures FindValidMarket(e.markets) == NotFound ==> r == Skip
    ensures r.Take? ==> FindValidMarket(e.markets).Found?
    ensures r.Take? ==>
      var vm := FindValidMarket(e.markets).m;
      && Numbered(r.ev, count + 1)
      && r.ev.title == e.title && r.ev.slug == e.slug
      && r.ev.image == ImageUrl(e, vm) && check(r.ev.image) == Reachable
      && r.ev.markets[0].question == vm.question
      && r.ev.markets[0].slug == e.slug
  {
    if |e.markets| == 0 then Skip
    else match FindValidMarket(e.markets)
      case NotFound => Skip
      case FindThrew => Abort
      case Found(vm) =>
        var imageUrl := ImageUrl(e, vm);
        match check(imageUrl)
        case CheckThrew => Abort
        case Unreachable => Skip
        case Reachable =>
          assert PricesTest(vm.outcomePrices) == Pass;
          match FormatPrices(vm.outcomePrices)
          case None => Abort
          case Some(prices) =>
            var market := Market(MockMarketId(count + 1), vm.question, e.slug, prices,
                                 e.liquidity, true, false);
            Take(Event(MockId(count + 1), e.title, e.slug, imageUrl, [market],
                       e.liquidity, true, false))
  }

  /** When a pass of the loop aborts and when it takes the event: it aborts
      exactly when `find` throws, the image check throws, or the prices of a
      market with a reachable image cannot be mapped; a reachable image with
      mappable prices is always taken, with those prices. */
  lemma StepDecides(e: PolyEvent, count: nat, check: string -> Check)
    ensures var r := Step(e, count, check);
      var found := FindValidMarket(e.markets);
      r == Abort <==>
        || found == FindThrew
        || (found.Found? && check(ImageUrl(e, found.m)) == CheckThrew)
        || (found.Found? && check(ImageUrl(e, found.m)) == Reachable
              && FormatPrices(found.m.outcomePrices).None?)
    ensures var r := Step(e, count, check);
      var found := FindValidMarket(e.markets);
      found.Found? && check(ImageUrl(e, found.m)) == Reachable
        && FormatPrices(found.m.outcomePrices).Some? ==>
          && r.Take? && |r.ev.markets| == 1
          && r.ev.markets[0].outcomePrices == FormatPrices(found.m.outcomePrices).value
  {
  }

  /** `prefix` followed by what the rest of the loop keeps. */
  function Then<T>(prefix: seq<T>, rest: Outcome<T>): (r: Outcome<T>)
    ensures rest.Aborted? <==> r.Aborted?
    ensures rest.Written? ==> r.items == prefix + rest.items
  {
    match rest
    case Aborted => Aborted
    case Written(items) => Written(prefix + items)
  }

  /** The events the Polymarket loop keeps from `events` once `count` have
      been kept: it stops at 20 and aborts on a throw. */
  function Select(events: seq<PolyEvent>, count: nat, check: string -> Check): (r: Outcome<Event>)
    ensures r.Written? ==> count + |r.items| <= MAX_EVENTS || r.items == []
    decreases |events|
  {
    if events == [] || count >= MAX_EVENTS then Written([])
    else match Step(events[0], count, check)
      case Skip => Select(events[1..], count, check)
      case Abort => Aborted
      case Take(ev) => Then([ev], Select(events[1..], count + 1, check))
  }

  /** The outcome `r`, if written, numbers its events on from `count`. */
  predicate NumberedFrom(r: Outcome<Event>, count: nat)
  {
    r.Written? ==> forall i :: 0 <= i < |r.items| ==> Numbered(r.items[i], count + i + 1)
  }

  /** An event numbered `count + 1` ahead of events numbered on from it. */
  lemma ThenNumbered(ev: Event, rest: Outcome<Event>, count: nat)
    requires Numbered(ev, count + 1) && NumberedFrom(rest, count + 1)
    ensures NumberedFrom(Then([ev], rest), count)
  {
    var r := Then([ev], rest);
    if rest.Written? {
      forall i | 0 <= i < |r.items|
        ensures Numbered(r.items[i], count + i + 1)
      {
        if i > 0 {
          assert r.items[i] == rest.items[i - 1];
        }
      }
    }
  }

  /** The kept events are numbered on from `count`. */
  lemma {:induction false} SelectNumbering(events: seq<PolyEvent>, count: nat, check: string -> Check)
    ensures NumberedFrom(Select(events, count, check), count)
    decreases |events|
  {
    if events != [] && count < MAX_EVENTS {
      var st := Step(events[0], count, check);
      if st.Skip? {
        SelectNumbering(events[1..], count, check);
      } else if st.Take? {
        SelectNumbering(events[1..], count + 1, check);
        ThenNumbered(st.ev, Select(events[1..], count + 1, check), count);
      }
    }
  }

  /** The Polymarket mode outcome: the request failing or not giving an array
      aborts, a throw in the loop aborts, and fewer than 10 kept events abort. */
  function PolymarketOutcome(response: PolyResponse, check: string -> Check): Outcome<Event>
  {
    match response
    case PolyFetchFailed => Aborted
    case NotArray => Aborted
    case PolyEvents(events) =>
      match Select(events, 0, check)
      case Aborted => Aborted
      case Written(kept) => if |kept| < MIN_EVENTS then Aborted else Written(kept)
  }

  /** A written Polymarket list has 10 to 20 events numbered mock-1, mock-2, …
      in output order with markets m1, m2, …, each with at least two prices,
      active and open; so the ids are distinct. */
  lemma PolymarketWritten(response: PolyResponse, check: string -> Check)
    requires PolymarketOutcome(response, check).Written?
    ensures var kept := PolymarketOutcome(response, check).items;
      && MIN_EVENTS <= |kept| <= MAX_EVENTS
      && (forall i :: 0 <= i < |kept| ==> Numbered(kept[i], i + 1))
      && forall i, j :: 0 <= i < j < |kept| ==> kept[i].id != kept[j].id
  {
    var kept := PolymarketOutcome(response, check).items;
    SelectNumbering(response.events, 0, check);
    forall i, j | 0 <= i < j < |kept|
      ensures kept[i].id != kept[j].id
    {
      DecimalInjective(i + 1, j + 1);
      assert MockId(i + 1)[5..] == Decimal(i + 1);
      assert MockId(j + 1)[5..] == Decimal(j + 1);
    }
  }

  /** Splitting one kept event off the front of the loop. */
  lemma ThenTake<T>(prefix: seq<T>, ev: T, rest: Outcome<T>)
    ensures Then(prefix, Then([ev], rest)) == Then(prefix + [ev], rest)
  {
    if rest.Written? {
      assert prefix + ([ev] + rest.items) == (prefix + [ev]) + rest.items;
    }
  }

  /** One pass of the loop, as `Select` takes it. */
  lemma SelectStep(events: seq<PolyEvent>, count: nat, check: string -> Check)
    requires events != [] && count < MAX_EVENTS
    ensures var st := Step(events[0], count, check);
      && (st.Skip? ==> Select(events, count, check) == Select(events[1..], count, check))
      && (st.Abort? ==> Select(events, count, check) == Aborted)
      && (st.Take? ==> Select(events, count, check) == Then([st.ev], Select(events[1..], count + 1, check)))
  {
  }

  /** One pass of the loop keeps the loop invariant of `PolymarketMode`:
      `total` is what the whole loop yields. */
  lemma LoopStep(events: seq<PolyEvent>, i: nat, count: nat, kept: seq<Event>,
                 check: string -> Check, total: Outcome<Event>)
    requires i < |events| && count < MAX_EVENTS
    requires total == Then(kept, Select(events[i..], count, check))
    ensures var st := Step(events[i], count, check);
      && (st.Abort? ==> total == Aborted)
      && (st.Skip? ==> total == Then(kept, Select(events[i + 1..], count, check)))
      && (st.Take? ==> total == Then(kept + [st.ev], Select(events[i + 1..], count + 1, check)))
  {
    assert events[i..][0] == events[i] && events[i..][1..] == events[i + 1..];
    SelectStep(events[i..], count, check);
    var st := Step(events[i], count, check);
    if st.Take? {
      ThenTake(kept, st.ev, Select(events[i + 1..], count + 1, check));
    }
  }

  /** Nothing is left to keep once the events run out or 20 are kept. */
  lemma SelectDone(events: seq<PolyEvent>, count: nat, check: string -> Check)
    requires events == [] || count >= MAX_EVENTS
    ensures Select(events, count, check) == Written([])
  {
  }

  /** Polymarket mode of `main` (update_markets.cjs:204-300). */
  method PolymarketMode(response: PolyResponse, check: string -> Check) returns (out: Outcome<Event>)
    ensures out == PolymarketOutcome(response, check)
  {
    if !response.PolyEvents? {
      return Aborted;
    }
    var events := response.events;
    ghost var total := Select(events, 0, check);
    assert events[0..] == events;
    var validEvents: seq<Event> := [];
    var count := 0;
    var i := 0;
    while i < |events|
      invariant 0 <= i <= |events|
      invariant count == |validEvents|
      invariant total == Then(validEvents, Select(events[i..], count, check))
    {
      if count >= MAX_EVENTS {
        break;
      }
      var st := Step(events[i], count, check);
      LoopStep(events, i, count, validEvents, check, total);
      if st.Abort? {
        return Aborted;
      } else if st.Take? {
        validEvents := validEvents + [st.ev];
        count := count + 1;
      }
      i := i + 1;
    }
    SelectDone(events[i..], count, check);
    assert validEvents + [] == validEvents;
    if |validEvents| < MIN_EVENTS {
      return Aborted;
    }
    out := Written(validEvents);
  }
}
