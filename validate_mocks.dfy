/** scripts/validate_mocks.cjs: scans the built-in event list's source text
    for `slug` and `image` values, removes duplicates, checks the Opinion site
    and every image with a HEAD request, and exits with status 1 when a
    required link is broken.

    The file's existence and text are parameters; each HEAD request is an
    oracle `probe` from URL to what the request reported. */
module ValidateMocks {
  import opened Types
  import opened Text

  // ---------------------------------------------------------------------
  // checkUrl
  // ---------------------------------------------------------------------

  /** What one HEAD request reports: a status code, a request error, or a URL
      that `url.parse` rejects. */
  datatype Probe = Status(code: int) | RequestError | InvalidUrl

  /** `checkUrl` (validate_mocks.cjs:9-48): an empty URL fails without a
      request; otherwise a 2xx or 3xx status passes and anything else fails. */
  function CheckUrl(url: string, probe: Probe): (ok: bool)
    ensures url == "" ==> !ok
    ensures url != "" && probe.Status? ==> (ok <==> 200 <= probe.code < 400)
    ensures !probe.Status? ==> !ok
  {
    if url == "" then false
    else match probe
      case InvalidUrl => false
      case RequestError => false
      case Status(code) => 200 <= code < 400
  }

  // ---------------------------------------------------------------------
  // The value pattern /["']?KEY["']?:\s*["']([^"']+)["']/g
  // ---------------------------------------------------------------------

  predicate IsQuote(c: char) { c == '"' || c == '\'' }

  predicate NoQuote(v: string) { forall i :: 0 <= i < |v| ==> !IsQuote(v[i]) }

  /** A captured value: non-empty and free of quote characters. */
  predicate WellFormedValue(v: string) { v != [] && NoQuote(v) }

  /** `key` occurs in `s` at position `i`. */
  predicate OccursAt(s: string, i: nat, key: string)
  {
    i + |key| <= |s| && s[i..i + |key|] == key
  }

  /** `\s*`: the first position at or after `i` that is not white space. */
  function SkipSpaces(s: string, i: nat): (j: nat)
    requires i <= |s|
    ensures i <= j <= |s|
    ensures j == |s| || !IsSpace(s[j])
    ensures forall k :: i <= k < j ==> IsSpace(s[k])
    decreases |s| - i
  {
    if i < |s| && IsSpace(s[i]) then SkipSpaces(s, i + 1) else i
  }

  /** `[^"']*`: the first quote at or after `i`, or the end. */
  function RunEnd(s: string, i: nat): (j: nat)
    requires i <= |s|
    ensures i <= j <= |s|
    ensures j == |s| || IsQuote(s[j])
    ensures forall k :: i <= k < j ==> !IsQuote(s[k])
    decreases |s| - i
  {
    if i < |s| && !IsQuote(s[i]) then RunEnd(s, i + 1) else i
  }

  /** A match: the captured value and the index just past the closing quote
      (the new `lastIndex`). */
  datatype Match = Match(value: string, end: nat)

  /** The pattern tried at position `p`. Every part is deterministic once
      backtracking is taken into account: an optional quote is consumed only
      if the key (or the colon) follows it, `\s*` and `[^"']+` stop exactly
      where the next part can begin. */
  function MatchAt(s: string, p: nat, key: string): (m: Option<Match>)
    requires p <= |s|
    ensures m.Some? ==> p < m.value.end <= |s| && WellFormedValue(m.value.value)
  {
    var k := if p < |s| && IsQuote(s[p]) then p + 1 else p;
    if !OccursAt(s, k, key) then None
    else
      var q := k + |key|;
      var c := if q < |s| && IsQuote(s[q]) then q + 1 else q;
      if !(c < |s| && s[c] == ':') then None
      else
        var w := SkipSpaces(s, c + 1);
        if !(w < |s| && IsQuote(s[w])) then None
        else
          var v := RunEnd(s, w + 1);
          if v == w + 1 || v == |s| then None
          else Some(Match(s[w + 1..v], v + 1))
  }

  /** `regex.exec(content)` with `lastIndex == from`: the leftmost match
      starting at or after `from`. */
  function FindMatch(s: string, from: nat, key: string): (m: Option<Match>)
    requires from <= |s|
    ensures m.Some? ==> from < m.value.end <= |s| && WellFormedValue(m.value.value)
    decreases |s| - from
  {
    var here := MatchAt(s, from, key);
    if here.Some? then here
    else if from == |s| then None
    else FindMatch(s, from + 1, key)
  }

  /** Every value the global pattern captures from `from` on, in order. */
  function Scan(s: string, from: nat, key: string): (values: seq<string>)
    requires from <= |s|
    ensures forall i :: 0 <= i < |values| ==> WellFormedValue(values[i])
    decreases |s| - from
  {
    match FindMatch(s, from, key)
    case None => []
    case Some(m) => [m.value] + Scan(s, m.end, key)
  }

  /** One match found: the scan records its value and goes on past it. */
  lemma ScanStep(s: string, from: nat, key: string, m: Match)
    requires from <= |s| && FindMatch(s, from, key) == Some(m)
    ensures m.end <= |s| && Scan(s, from, key) == [m.value] + Scan(s, m.end, key)
    ensures Scan(s, from, key)[0] == m.value && Scan(s, from, key)[1..] == Scan(s, m.end, key)
  {
  }

  /** The `while ((match = regex.exec(content)) !== null)` loops
      (validate_mocks.cjs:62-74). */
  method ExtractValues(content: string, key: string) returns (values: seq<string>)
    ensures values == Scan(content, 0, key)
    ensures forall i :: 0 <= i < |values| ==> values[i] != [] && NoQuote(values[i])
  {
    values := [];
    var lastIndex := 0;
    ghost var rest := Scan(content, 0, key);
    var m := FindMatch(content, lastIndex, key);
    while m.Some?
      invariant lastIndex <= |content|
      invariant m == FindMatch(content, lastIndex, key)
      invariant rest == Scan(content, lastIndex, key)
      invariant values + rest == Scan(content, 0, key)
      decreases |content| - lastIndex
    {
      ScanStep(content, lastIndex, key, m.value);
      assert rest[0] == m.value.value;
      values := values + [m.value.value];
      rest := rest[1..];
      lastIndex := m.value.end;
      m := FindMatch(content, lastIndex, key);
    }
    assert rest == [];
  }

  // ---------------------------------------------------------------------
  // [...new Set(values)]
  // ---------------------------------------------------------------------

  /** The position of the first occurrence of `y` in `xs`. */
  function FirstIndex(xs: seq<string>, y: string): (k: nat)
    requires y in xs
    ensures k < |xs| && xs[k] == y
    ensures forall j :: 0 <= j < k ==> xs[j] != y
  {
    if xs[0] == y then 0 else 1 + FirstIndex(xs[1..], y)
  }

  /** Appending an element leaves the first occurrences of earlier values
      where they were. */
  lemma FirstIndexAppend(xs: seq<string>, x: string, y: string)
    requires y in xs
    ensures y in xs + [x] && FirstIndex(xs + [x], y) == FirstIndex(xs, y)
  {
    var k := FirstIndex(xs, y);
    assert (xs + [x])[k] == y;
    assert forall j :: 0 <= j < k ==> (xs + [x])[j] == xs[j];
  }

  /** `[...new Set(xs)]`: each value once, in the order of first occurrence.
      A value is appended exactly when it has not been seen before. */
  function Dedup(xs: seq<string>): (ys: seq<string>)
    ensures forall i, j :: 0 <= i < j < |ys| ==> ys[i] != ys[j]
    ensures forall y :: y in ys <==> y in xs
    ensures forall i, j :: 0 <= i < j < |ys| ==> FirstIndex(xs, ys[i]) < FirstIndex(xs, ys[j])
    ensures |ys| <= |xs|
  {
    if xs == [] then []
    else
      var init := xs[..|xs| - 1];
      var x := xs[|xs| - 1];
      assert xs == init + [x];
      var prev := Dedup(init);
      forall y | y in init
        ensures FirstIndex(xs, y) == FirstIndex(init, y)
      {
        FirstIndexAppend(init, x, y);
      }
      if x in init then prev
      else
        assert FirstIndex(xs, x) == |init|;
        prev + [x]
  }

  /** A list without duplicates is left as it is; in particular removing
      duplicates twice is removing them once. */
  lemma {:induction false} DedupOfDistinct(xs: seq<string>)
    requires forall i, j :: 0 <= i < j < |xs| ==> xs[i] != xs[j]
    ensures Dedup(xs) == xs
  {
    if xs != [] {
      var init := xs[..|xs| - 1];
      assert xs == init + [xs[|xs| - 1]];
      DedupOfDistinct(init);
    }
  }

  /** The order is the order of first occurrence: a list that starts with
      `x` keeps `x` first. */
  lemma {:induction false} DedupKeepsHead(x: string, rest: seq<string>)
    ensures Dedup([x] + rest) != [] && Dedup([x] + rest)[0] == x
    decreases |rest|
  {
    var xs := [x] + rest;
    if rest != [] {
      var init := xs[..|xs| - 1];
      assert init == [x] + rest[..|rest| - 1];
      DedupKeepsHead(x, rest[..|rest| - 1]);
    }
  }

  /** The spread of the Set as a loop with the set of values seen so far. */
  method Unique(xs: seq<string>) returns (ys: seq<string>)
    ensures ys == Dedup(xs)
    ensures forall i, j :: 0 <= i < j < |ys| ==> ys[i] != ys[j]
  {
    ys := [];
    var seen: set<string> := {};
    var i := 0;
    while i < |xs|
      invariant 0 <= i <= |xs|
      invariant ys == Dedup(xs[..i])
      invariant forall y :: y in seen <==> y in xs[..i]
    {
      assert xs[..i + 1][..i] == xs[..i] && xs[..i + 1][i] == xs[i];
      if xs[i] !in seen {
        seen := seen + {xs[i]};
        ys := ys + [xs[i]];
      }
      assert xs[..i + 1] == xs[..i] + [xs[i]];
      i := i + 1;
    }
    assert xs[..i] == xs;
  }

  // ---------------------------------------------------------------------
  // run
  // ---------------------------------------------------------------------

  const SITE_URL := "https://opinion.trade/"
  const CLEARBIT := "logo.clearbit.com"

  /** An image whose failure is an error: not reachable and not a clearbit
      logo (clearbit failures only warn, validate_mocks.cjs:95-101). */
  predicate ImageBroken(img: string, probe: string -> Probe)
  {
    !CheckUrl(img, probe(img)) && !Contains(img, CLEARBIT)
  }

  /** `hasError` (validate_mocks.cjs:81-102): the site check fails, or some
      image is broken. */
  method AggregateErrors(images: seq<string>, probe: string -> Probe) returns (hasError: bool)
    ensures hasError <==>
      !CheckUrl(SITE_URL, probe(SITE_URL)) || exists i :: 0 <= i < |images| && ImageBroken(images[i], probe)
  {
    hasError := false;
    var success := CheckUrl(SITE_URL, probe(SITE_URL));
    if !success {
      hasError := true;
    }
    var i := 0;
    while i < |images|
      invariant 0 <= i <= |images|
      invariant hasError <==>
        !CheckUrl(SITE_URL, probe(SITE_URL)) || exists j :: 0 <= j < i && ImageBroken(images[j], probe)
    {
      var img := images[i];
      var isClearbit := Contains(img, CLEARBIT);
      var ok := CheckUrl(img, probe(img));
      if !ok && !isClearbit {
        hasError := true;
      }
      i := i + 1;
    }
  }

  /** The script's result: its exit status and the two counts it reports. */
  datatype Report = Report(exitCode: int, slugCount: nat, imageCount: nat)

  /** `run` (validate_mocks.cjs:50-112). A missing file exits with 1 before
      any request. Otherwise the exit status is 1 exactly when the site or a
      non-clearbit image fails; slugs are only counted. */
  method Run(fileExists: bool, content: string, probe: string -> Probe) returns (r: Report)
    ensures !fileExists ==> r.exitCode == 1
    ensures fileExists ==>
      var images := Dedup(Scan(content, 0, "image"));
      && r.slugCount == |Dedup(Scan(content, 0, "slug"))|
      && r.imageCount == |images|
      && (r.exitCode == 1 <==> !CheckUrl(SITE_URL, probe(SITE_URL))
                               || exists i :: 0 <= i < |images| && ImageBroken(images[i], probe))
      && (r.exitCode == 0 || r.exitCode == 1)
  {
    if !fileExists {
      return Report(1, 0, 0);
    }
    var slugs := ExtractValues(content, "slug");
    var images := ExtractValues(content, "image");
    var uniqueSlugs := Unique(slugs);
    var uniqueImages := Unique(images);
    var hasError := AggregateErrors(uniqueImages, probe);
    var exitCode := if hasError then 1 else 0;
    r := Report(exitCode, |uniqueSlugs|, |uniqueImages|);
  }
}
