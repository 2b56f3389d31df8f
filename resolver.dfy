/**
 * The resolving half of `AnimeDownloader` (app/downloader.py): anime identity,
 * season detection, the episode sort key and listing, the server preference
 * cascade, and the chain that turns a server id into a media URL and subtitle
 * tracks.
 *
 * The remote side (the site and the encode/decode service) is a `Remote` value:
 * one map per kind of response, keyed by what is sent. A key that is absent
 * stands for every way that request can fail (network error, HTTP error,
 * missing `result`, empty `result`), all of which the source turns into the
 * same empty answer.
 */
module Resolver {
  import opened Text
  import opened Seqs

  const BaseUrl := "https://anikai.to"

  /** A title element as far as `get_anime_details` looks at it. */
  datatype TitleElem = TitleElem(titleAttr: Option<string>, text: string)

  /** A fetched anime page: the `data-id` of the first `div[data-id]`, and what each
      of the three title selectors found, in the order they are tried. */
  datatype AnimePage = AnimePage(dataId: Option<string>, titleCandidates: seq<Option<TitleElem>>)

  /** One `div.eplist a` anchor with its `token`, `num` and `langs` attributes. */
  datatype Anchor = Anchor(token: Option<string>, num: Option<string>, langs: Option<string>)

  datatype Server = Server(typeId: string, serverId: string, name: string)

  datatype Source = Source(file: Option<string>)
  datatype Track = Track(kind: Option<string>, file: Option<string>, caption: Option<string>)
  /** The decoded media payload: its `sources` and `tracks` lists. */
  datatype MediaPayload = MediaPayload(sources: seq<Source>, tracks: seq<Track>)

  datatype Remote = Remote(
    encoded: map<string, string>,                 // enc-kai: text to token
    pages: map<string, AnimePage>,                // anime page URL to parsed page
    episodeLists: map<string, seq<Anchor>>,       // episode-list URL to its anchors
    serverLists: map<string, seq<Server>>,        // server-list URL to its servers
    results: map<string, string>,                 // JSON endpoint URL to its `result` string
    decodedLinks: map<string, string>,            // dec-kai: text to the decoded `url`
    decodedMedia: map<string, MediaPayload>,      // dec-mega: text to the decoded payload
    fetchable: set<string>)                       // subtitle URLs that download

  function Lookup(m: map<string, string>, k: string): string {
    if k in m then m[k] else ""
  }

  function GetOr(o: Option<string>, d: string): string {
    match o
    case Some(v) => v
    case None => d
  }

  // ---------------------------------------------------------------------------
  // Anime identity

  function FirstPresent(cands: seq<Option<TitleElem>>): (r: Option<TitleElem>)
    ensures r.Some? ==> Some(r.value) in cands
    ensures r.None? ==> forall i :: 0 <= i < |cands| ==> cands[i].None?
  {
    if cands == [] then None else if cands[0].Some? then cands[0] else FirstPresent(cands[1..])
  }

  /** The title attribute if present and non-empty, else the stripped text, else "Unknown". */
  function TitleOf(elem: Option<TitleElem>): string {
    match elem
    case None => "Unknown"
    case Some(e) => if e.titleAttr.Some? && e.titleAttr.value != "" then e.titleAttr.value else Strip(e.text)
  }

  /** `get_anime_details`: the anime id (if any) and the sanitised title. */
  function AnimeDetails(remote: Remote, url: string): (r: (Option<string>, string))
    ensures NoForbidden(r.1)
    ensures url !in remote.pages ==> r == (None, "Unknown")
    ensures url in remote.pages ==> r.0 == remote.pages[url].dataId
  {
    if url !in remote.pages then (None, "Unknown")
    else
      var page := remote.pages[url];
      (page.dataId, Sanitize(TitleOf(FirstPresent(page.titleCandidates))))
  }

  // ---------------------------------------------------------------------------
  // Season detection

  function DigitRunEnd(s: string, i: nat): (j: nat)
    requires i <= |s|
    ensures i <= j <= |s|
    ensures forall k :: i <= k < j ==> IsDigit(s[k])
    ensures j == |s| || !IsDigit(s[j])
    decreases |s| - i
  {
    if i < |s| && IsDigit(s[i]) then DigitRunEnd(s, i + 1) else i
  }

  function SpaceRunEnd(s: string, i: nat): (j: nat)
    requires i <= |s|
    ensures i <= j <= |s|
    ensures forall k :: i <= k < j ==> IsSpace(s[k])
    ensures j == |s| || !IsSpace(s[j])
    decreases |s| - i
  {
    if i < |s| && IsSpace(s[i]) then SpaceRunEnd(s, i + 1) else i
  }

  /** The value of the maximal run of digits starting at k (the greedy `(\d+)`). */
  function NumberAt(s: string, k: nat): nat
    requires k <= |s|
  {
    var j := DigitRunEnd(s, k);
    assert AllDigits(s[k..j]);
    DigitsValue(s[k..j])
  }

  predicate WordAt(s: string, i: nat, w: string) {
    i + |w| <= |s| && s[i..i + |w|] == w
  }

  predicate IsSLetter(c: char) { c == 'S' || c == 's' }

  /** Python's `$` without MULTILINE: the end of the string, or just before a final newline. */
  predicate AtEnd(s: string, m: nat) {
    m == |s| || (m == |s| - 1 && s[m] == '\n')
  }

  /** `\s+(\d+)` at position i. */
  function SpacedNumberAt(s: string, i: nat): Option<nat>
    requires i <= |s|
  {
    var k := SpaceRunEnd(s, i);
    if k > i && k < |s| && IsDigit(s[k]) then Some(NumberAt(s, k)) else None
  }

  /** The six season patterns, in the order they are tried. */
  datatype SeasonPattern =
    | SeasonWord      // [Ss]eason\s+(\d+)
    | LetterS         // [Ss](\d+)
    | OrdinalSeason   // (\d+)(?:st|nd|rd|th)\s+[Ss]eason
    | TrailingNumber  // \s+(\d+)$
    | PartWord        // Part\s+(\d+)
    | CourWord        // Cour\s+(\d+)

  const SeasonPatterns: seq<SeasonPattern> :=
    [SeasonWord, LetterS, OrdinalSeason, TrailingNumber, PartWord, CourWord]

  predicate OrdinalSuffixAt(s: string, j: nat) {
    WordAt(s, j, "st") || WordAt(s, j, "nd") || WordAt(s, j, "rd") || WordAt(s, j, "th")
  }

  /** The number captured by pattern p if a match of p starts at position i.
      Backtracking never yields another match here: after each greedy run the
      pattern needs a character the run cannot contain. */
  function MatchAt(p: SeasonPattern, s: string, i: nat): Option<nat>
    requires i <= |s|
  {
    match p
    case SeasonWord =>
      if i < |s| && IsSLetter(s[i]) && WordAt(s, i + 1, "eason") then SpacedNumberAt(s, i + 6) else None
    case LetterS =>
      if i + 1 < |s| && IsSLetter(s[i]) && IsDigit(s[i + 1]) then Some(NumberAt(s, i + 1)) else None
    case OrdinalSeason =>
      if i < |s| && IsDigit(s[i]) then
        var j := DigitRunEnd(s, i);
        if OrdinalSuffixAt(s, j) then
          var k := SpaceRunEnd(s, j + 2);
          if k > j + 2 && k < |s| && IsSLetter(s[k]) && WordAt(s, k + 1, "eason") then Some(NumberAt(s, i)) else None
        else None
      else None
    case TrailingNumber =>
      var k := SpaceRunEnd(s, i);
      if k > i && k < |s| && IsDigit(s[k]) && AtEnd(s, DigitRunEnd(s, k)) then Some(NumberAt(s, k)) else None
    case PartWord =>
      if WordAt(s, i, "Part") then SpacedNumberAt(s, i + 4) else None
    case CourWord =>
      if WordAt(s, i, "Cour") then SpacedNumberAt(s, i + 4) else None
  }

  /** What p matches at each start position 0..|s|, in scanning order. */
  function Matches(p: SeasonPattern, s: string): (ms: seq<Option<nat>>)
    ensures |ms| == |s| + 1
  {
    seq(|s| + 1, j requires 0 <= j <= |s| => MatchAt(p, s, j))
  }

  lemma MatchesAt(p: SeasonPattern, s: string, j: nat)
    requires j <= |s|
    ensures Matches(p, s)[j] == MatchAt(p, s, j)
  {
  }

  /** The scan from position i: the first position holding a match. */
  function FirstSome(ms: seq<Option<nat>>, i: nat): Option<nat>
    requires i <= |ms|
    decreases |ms| - i
  {
    if i == |ms| then None else if ms[i].Some? then ms[i] else FirstSome(ms, i + 1)
  }

  /** `re.search`: the match at the leftmost start position at which p matches. */
  function Search(p: SeasonPattern, s: string): Option<nat> {
    FirstSome(Matches(p, s), 0)
  }

  /** j is the leftmost position at which p matches. */
  predicate LeftmostMatch(p: SeasonPattern, s: string, j: nat) {
    j <= |s| && MatchAt(p, s, j).Some? && forall l :: 0 <= l < j ==> MatchAt(p, s, l).None?
  }

  lemma {:induction false} FirstSomeNone(ms: seq<Option<nat>>, i: nat)
    requires i <= |ms|
    ensures FirstSome(ms, i).None? <==> forall j :: i <= j < |ms| ==> ms[j].None?
    decreases |ms| - i
  {
    if i < |ms| && ms[i].None? {
      FirstSomeNone(ms, i + 1);
    }
  }

  lemma {:induction false} FirstSomeLeftmost(ms: seq<Option<nat>>, i: nat) returns (j: nat)
    requires i <= |ms| && FirstSome(ms, i).Some?
    ensures i <= j < |ms| && ms[j] == FirstSome(ms, i) && forall l :: i <= l < j ==> ms[l].None?
    decreases |ms| - i
  {
    if ms[i].Some? {
      j := i;
    } else {
      j := FirstSomeLeftmost(ms, i + 1);
    }
  }

  /** The scan from i stops at the first position j at or after i holding a match. */
  lemma {:induction false} FirstSomeReaches(ms: seq<Option<nat>>, i: nat, j: nat)
    requires i <= j < |ms| && ms[j].Some?
    requires forall l :: i <= l < j ==> ms[l].None?
    ensures FirstSome(ms, i) == ms[j]
    decreases j - i
  {
    if i < j {
      FirstSomeReaches(ms, i + 1, j);
    }
  }

  /** `re.search` at the first start position j where p matches, given that none before j does. */
  lemma SearchReaches(p: SeasonPattern, s: string, j: nat)
    requires j <= |s| && MatchAt(p, s, j).Some?
    requires forall l :: 0 <= l < j ==> MatchAt(p, s, l).None?
    ensures Search(p, s) == MatchAt(p, s, j)
  {
    var ms := Matches(p, s);
    forall l | 0 <= l < j ensures ms[l].None? {
      MatchesAt(p, s, l);
    }
    MatchesAt(p, s, j);
    FirstSomeReaches(ms, 0, j);
  }

  /** `re.search` finds nothing when p matches at no start position. */
  lemma SearchNone(p: SeasonPattern, s: string)
    requires forall j :: 0 <= j <= |s| ==> MatchAt(p, s, j).None?
    ensures Search(p, s).None?
  {
    var ms := Matches(p, s);
    forall j | 0 <= j < |ms| ensures ms[j].None? {
      MatchesAt(p, s, j);
    }
    FirstSomeNone(ms, 0);
  }

  /** `re.search` finds the leftmost match, and finds nothing only when no position matches. */
  lemma SearchSpec(p: SeasonPattern, s: string)
    ensures Search(p, s).None? <==> forall j :: 0 <= j <= |s| ==> MatchAt(p, s, j).None?
    ensures Search(p, s).Some? ==> exists j :: LeftmostMatch(p, s, j) && MatchAt(p, s, j) == Search(p, s)
  {
    var ms := Matches(p, s);
    FirstSomeNone(ms, 0);
    forall j | 0 <= j <= |s| ensures ms[j] == MatchAt(p, s, j) {
      MatchesAt(p, s, j);
    }
    if Search(p, s).Some? {
      var j := FirstSomeLeftmost(ms, 0);
      assert LeftmostMatch(p, s, j);
    }
  }

  function FirstPatternMatch(ps: seq<SeasonPattern>, title: string): Option<nat> {
    if ps == [] then None
    else
      var m := Search(ps[0], title);
      if m.Some? then m else FirstPatternMatch(ps[1..], title)
  }

  /** `detect_season_from_title`. */
  function DetectSeason(title: string): nat {
    match FirstPatternMatch(SeasonPatterns, title)
    case Some(n) => n
    case None => 1
  }

  lemma {:induction false} FirstPatternMatchSpec(ps: seq<SeasonPattern>, title: string)
    ensures forall k :: (0 <= k < |ps| && Search(ps[k], title).Some? &&
      (forall j :: 0 <= j < k ==> Search(ps[j], title).None?)) ==> FirstPatternMatch(ps, title) == Search(ps[k], title)
    ensures (forall k :: 0 <= k < |ps| ==> Search(ps[k], title).None?) ==> FirstPatternMatch(ps, title).None?
  {
    if ps != [] {
      var tail := ps[1..];
      FirstPatternMatchSpec(tail, title);
      forall k | 0 <= k < |ps| && Search(ps[k], title).Some? && (forall j :: 0 <= j < k ==> Search(ps[j], title).None?)
        ensures FirstPatternMatch(ps, title) == Search(ps[k], title)
      {
        if k > 0 {
          assert Search(ps[0], title).None?;
          assert tail[k - 1] == ps[k];
          assert forall j :: 0 <= j < k - 1 ==> Search(tail[j], title).None? by {
            forall j | 0 <= j < k - 1 ensures Search(tail[j], title).None? {
              assert tail[j] == ps[j + 1];
            }
          }
        }
      }
      if forall k :: 0 <= k < |ps| ==> Search(ps[k], title).None? {
        assert Search(ps[0], title).None?;
        assert forall k :: 0 <= k < |tail| ==> Search(tail[k], title).None? by {
          forall k | 0 <= k < |tail| ensures Search(tail[k], title).None? {
            assert tail[k] == ps[k + 1];
          }
        }
      }
    }
  }

  /** The first pattern (in fixed order) that matches decides the season; none matching means season 1. */
  lemma DetectSeasonSpec(title: string)
    ensures forall k :: (0 <= k < |SeasonPatterns| && Search(SeasonPatterns[k], title).Some? &&
      (forall j :: 0 <= j < k ==> Search(SeasonPatterns[j], title).None?)) ==>
        DetectSeason(title) == Search(SeasonPatterns[k], title).value
    ensures (forall k :: 0 <= k < |SeasonPatterns| ==> Search(SeasonPatterns[k], title).None?) ==>
      DetectSeason(title) == 1
  {
    FirstPatternMatchSpec(SeasonPatterns, title);
  }

  // ---------------------------------------------------------------------------
  // Episode sort key

  /** `(int, float)` key; the fraction `float("0.ddd")` is kept exact. */
  datatype SortKey = SortKey(main: nat, frac: real)

  const Sentinel: nat := 1_000_000_000

  /** `safe_episode_key`: `re.match(r"(\d+)(?:\.(\d+))?", id)`, anchored at the start. */
  function SafeEpisodeKey(id: string): (k: SortKey)
    ensures 0.0 <= k.frac < 1.0
    ensures (id == [] || !IsDigit(id[0])) ==> k == SortKey(Sentinel, 0.0)
  {
    if id != [] && IsDigit(id[0]) then
      var j := DigitRunEnd(id, 0);
      if j + 1 < |id| && id[j] == '.' && IsDigit(id[j + 1]) then
        var e := DigitRunEnd(id, j + 1);
        var f := id[j + 1..e];
        assert AllDigits(f);
        SortKey(NumberAt(id, 0), Fraction(f))
      else SortKey(NumberAt(id, 0), 0.0)
    else SortKey(Sentinel, 0.0)
  }

  /** `float(f"0.{f}")` for a digit string f, kept exact. */
  function Fraction(f: string): (r: real)
    requires AllDigits(f)
    ensures 0.0 <= r < 1.0
  {
    DigitsValueBound(f);
    RatioBelowOne(DigitsValue(f), Pow10(|f|));
    DigitsValue(f) as real / Pow10(|f|) as real
  }

  lemma RatioBelowOne(a: nat, b: nat)
    requires a < b
    ensures 0.0 <= a as real / b as real < 1.0
  {
    assert (a as real / b as real) * (b as real) == a as real;
  }

  /** Python's tuple `<=` on keys: lexicographic. */
  predicate KeyLe(a: SortKey, b: SortKey) {
    a.main < b.main || (a.main == b.main && a.frac <= b.frac)
  }

  lemma DigitRunEndAll(s: string, i: nat)
    requires i <= |s| && forall k :: i <= k < |s| ==> IsDigit(s[k])
    ensures DigitRunEnd(s, i) == |s|
    decreases |s| - i
  {
    if i < |s| {
      DigitRunEndAll(s, i + 1);
    }
  }

  lemma DigitRunEndPrefix(d: string, rest: string)
    requires AllDigits(d) && (rest == [] || !IsDigit(rest[0]))
    ensures DigitRunEnd(d + rest, 0) == |d|
  {
    DigitRunEndConcat(d, rest, 0);
  }

  lemma DigitRunEndConcat(d: string, rest: string, i: nat)
    requires i <= |d| && AllDigits(d) && (rest == [] || !IsDigit(rest[0]))
    ensures DigitRunEnd(d + rest, i) == |d|
    decreases |d| - i
  {
    if i < |d| {
      assert (d + rest)[i] == d[i];
      DigitRunEndConcat(d, rest, i + 1);
    } else if rest != [] {
      assert (d + rest)[i] == rest[0];
    }
  }

  /** The key reads the leading digits, plus an optional `.digits` fraction, and ignores the rest. */
  lemma KeyOfNumeral(d: string, f: string, rest: string)
    requires d != [] && AllDigits(d) && AllDigits(f)
    requires rest == [] || !IsDigit(rest[0])
    requires f == [] ==> !(|rest| >= 2 && rest[0] == '.' && IsDigit(rest[1]))
    ensures f == [] ==> SafeEpisodeKey(d + rest) == SortKey(DigitsValue(d), 0.0)
    ensures f != [] ==>
      SafeEpisodeKey(d + "." + f + rest) == SortKey(DigitsValue(d), Fraction(f))
  {
    if f == [] {
      KeyOfWhole(d, rest);
    } else {
      KeyOfFraction(d, f, rest);
    }
  }

  lemma KeyOfWhole(d: string, rest: string)
    requires d != [] && AllDigits(d)
    requires rest == [] || !IsDigit(rest[0])
    requires !(|rest| >= 2 && rest[0] == '.' && IsDigit(rest[1]))
    ensures SafeEpisodeKey(d + rest) == SortKey(DigitsValue(d), 0.0)
  {
    var id := d + rest;
    DigitRunEndPrefix(d, rest);
    assert id[..|d|] == d;
    assert id[0] == d[0];
  }

  lemma KeyOfFraction(d: string, f: string, rest: string)
    requires d != [] && AllDigits(d) && f != [] && AllDigits(f)
    requires rest == [] || !IsDigit(rest[0])
    ensures SafeEpisodeKey(d + "." + f + rest) == SortKey(DigitsValue(d), Fraction(f))
  {
    var pre, tail := d + ".", "." + f + rest;
    var id := d + tail;
    assert d + "." + f + rest == id == pre + f + rest;
    DigitRunEndPrefix(d, tail);
    DigitRunEndShift(pre, f, rest);
    assert id[..|d|] == d && id[0] == d[0];
    assert id[|d|] == '.' && id[|d| + 1] == f[0];
    assert id[|pre|..|pre| + |f|] == f;
    assert NumberAt(id, 0) == DigitsValue(d);
  }

  lemma DigitRunEndShift(pre: string, f: string, rest: string)
    requires AllDigits(f) && (rest == [] || !IsDigit(rest[0]))
    ensures DigitRunEnd(pre + f + rest, |pre|) == |pre| + |f|
  {
    var s := pre + f + rest;
    assert s == pre + (f + rest);
    ShiftRun(pre, f, rest, 0);
  }

  lemma ShiftRun(pre: string, f: string, rest: string, i: nat)
    requires i <= |f| && AllDigits(f) && (rest == [] || !IsDigit(rest[0]))
    ensures DigitRunEnd(pre + f + rest, |pre| + i) == |pre| + |f|
    decreases |f| - i
  {
    var s := pre + f + rest;
    if i < |f| {
      assert s[|pre| + i] == f[i];
      ShiftRun(pre, f, rest, i + 1);
    } else if rest != [] {
      assert s[|pre| + i] == rest[0];
    }
  }

  /** Key comparison is a total order on keys (so a total preorder on ids). */
  lemma KeyLeTotalOrder()
    ensures forall a :: KeyLe(a, a)
    ensures forall a, b :: KeyLe(a, b) && KeyLe(b, a) ==> a == b
    ensures forall a, b, c :: KeyLe(a, b) && KeyLe(b, c) ==> KeyLe(a, c)
    ensures forall a, b :: KeyLe(a, b) || KeyLe(b, a)
  {
  }

  // ---------------------------------------------------------------------------
  // Episode list

  datatype Episode = Episode(id: string, sortKey: SortKey, token: string, subdub: string, title: string)

  /** Python's `int(s)` on a decimal string: surrounding whitespace, an optional sign, digits. */
  function ParseInt(s: string): Option<int> {
    ParseSigned(Strip(s))
  }

  function ParseSigned(t: string): Option<int> {
    if t != [] && (t[0] == '+' || t[0] == '-') then
      var d := t[1..];
      if d != [] && AllDigits(d) then Some(Signed(t[0] == '-', DigitsValue(d))) else None
    else if t != [] && AllDigits(t) then Some(DigitsValue(t))
    else None
  }

  function Signed(negative: bool, v: nat): int {
    if negative then -(v as int) else v
  }

  lemma StripNoSpace(s: string)
    requires s != [] && !IsSpace(s[0]) && !IsSpace(s[|s| - 1])
    ensures Strip(s) == s
  {
    assert TrimLeft(s) == s;
    assert TrimRight(s) == s;
  }

  lemma NegativeNumeral(digits: string)
    requires digits != [] && AllDigits(digits)
    ensures ParseInt("-" + digits) == Some(Signed(true, DigitsValue(digits)))
  {
    var s := "-" + digits;
    assert s[0] == '-' && s[|s| - 1] == digits[|digits| - 1];
    StripNoSpace(s);
    assert s[1..] == digits;
    assert ParseSigned(s) == Some(Signed(true, DigitsValue(digits)));
  }

  lemma PositiveNumeral(digits: string)
    requires digits != [] && AllDigits(digits)
    ensures ParseInt(digits) == Some(DigitsValue(digits))
  {
    assert !IsSpace(digits[0]) && !IsSpace(digits[|digits| - 1]);
    StripNoSpace(digits);
  }

  /** `int` reads back what `str` writes. */
  lemma ParseIntRoundTrip(n: int)
    ensures ParseInt(IntToString(n)) == Some(n)
  {
    var m: nat := if n < 0 then -n else n;
    var digits := NatToString(m);
    NatToStringRoundTrip(m);
    if n < 0 {
      NegativeNumeral(digits);
    } else {
      PositiveNumeral(digits);
    }
  }

  /** The `langs` flag: 1 is "Sub", 3 is "Dub & Sub", anything else (unparsable too) is "". */
  function LangsLabel(langs: string): string {
    match ParseInt(langs)
    case Some(n) => if n == 1 then "Sub" else if n == 3 then "Dub & Sub" else ""
    case None => ""
  }

  lemma LangsOfNumber(n: int)
    ensures LangsLabel(IntToString(n)) == if n == 1 then "Sub" else if n == 3 then "Dub & Sub" else ""
  {
    ParseIntRoundTrip(n);
  }

  /** One listing entry, built from one anchor. */
  function MakeEpisode(a: Anchor): (e: Episode)
    ensures e.title == "Episode " + e.id
    ensures e.sortKey == SafeEpisodeKey(e.id)
  {
    var id := Strip(GetOr(a.num, ""));
    Episode(id, SafeEpisodeKey(id), GetOr(a.token, ""), LangsLabel(GetOr(a.langs, "0")), "Episode " + id)
  }

  predicate EpisodeLe(a: Episode, b: Episode) {
    KeyLe(a.sortKey, b.sortKey)
  }

  lemma EpisodeLeTotalPreorder()
    ensures TotalPreorder(EpisodeLe)
  {
    KeyLeTotalOrder();
  }

  function Unsorted(anchors: seq<Anchor>): (r: seq<Episode>)
    ensures |r| == |anchors|
  {
    Map(anchors, MakeEpisode)
  }

  function EpisodeListUrl(animeId: string, enc: string): string {
    BaseUrl + "/ajax/episodes/list?ani_id=" + animeId + "&_=" + enc
  }

  /** The anchors the listing returns for an anime id: empty when any step fails. */
  function ListingAnchors(remote: Remote, animeId: string): seq<Anchor> {
    var enc := Lookup(remote.encoded, animeId);
    var url := EpisodeListUrl(animeId, enc);
    if enc == "" || url !in remote.episodeLists then [] else remote.episodeLists[url]
  }

  /** What `get_episode_list` returns: the entries sorted by key. */
  function EpisodeList(remote: Remote, animeId: string): seq<Episode> {
    SortBy(Unsorted(ListingAnchors(remote, animeId)), EpisodeLe)
  }

  /** `get_episode_list`: append one entry per anchor, then sort in place by key. */
  method GetEpisodeList(remote: Remote, animeId: string) returns (episodes: seq<Episode>)
    ensures episodes == EpisodeList(remote, animeId)
    ensures |episodes| == |ListingAnchors(remote, animeId)|
  {
    var enc := Lookup(remote.encoded, animeId);
    if enc == "" {
      return [];
    }
    var url := EpisodeListUrl(animeId, enc);
    if url !in remote.episodeLists {
      return [];
    }
    var anchors := remote.episodeLists[url];
    episodes := [];
    for i := 0 to |anchors|
      invariant episodes == Map(anchors[..i], MakeEpisode)
    {
      MapPrefix(anchors, i, MakeEpisode);
      episodes := episodes + [MakeEpisode(anchors[i])];
    }
    assert anchors[..|anchors|] == anchors;
    episodes := SortBy(episodes, EpisodeLe);
  }

  /** The listing is ordered by key, holds exactly one entry per anchor, and keeps
      entries with equal keys in listing order. */
  lemma EpisodeListSpec(remote: Remote, animeId: string, k: Episode)
    ensures SortedBy(EpisodeList(remote, animeId), EpisodeLe)
    ensures multiset(EpisodeList(remote, animeId)) == multiset(Unsorted(ListingAnchors(remote, animeId)))
    ensures ClassOf(EpisodeList(remote, animeId), k, EpisodeLe) ==
      ClassOf(Unsorted(ListingAnchors(remote, animeId)), k, EpisodeLe)
  {
    var u := Unsorted(ListingAnchors(remote, animeId));
    EpisodeLeTotalPreorder();
    SortBySorted(u, EpisodeLe);
    SortByPermutation(u, EpisodeLe);
    SortByStable(u, k, EpisodeLe);
  }

  // ---------------------------------------------------------------------------
  // Server choice

  /** The preference label's server type; an unknown label means "softsub". */
  function PreferTypeId(preferType: string): string {
    if preferType == "Hard Sub" then "sub"
    else if preferType == "Soft Sub" then "softsub"
    else if preferType == "Dub (with subs)" then "dub"
    else "softsub"
  }

  datatype Rule = ExactMatch | NameMatch | TypeMatch

  /** `needle` is the lower-cased preferred server name. */
  predicate Satisfies(rule: Rule, s: Server, typeId: string, needle: string) {
    match rule
    case ExactMatch => s.typeId == typeId && Contains(needle, Lower(s.name))
    case NameMatch => Contains(needle, Lower(s.name))
    case TypeMatch => s.typeId == typeId
  }

  /** The index of the first server from i on that satisfies the rule. */
  function FirstIndexFrom(servers: seq<Server>, i: nat, rule: Rule, typeId: string, needle: string): (r: Option<nat>)
    requires i <= |servers|
    ensures r.Some? ==>
      && i <= r.value < |servers| && Satisfies(rule, servers[r.value], typeId, needle)
      && forall j :: i <= j < r.value ==> !Satisfies(rule, servers[j], typeId, needle)
    ensures r.None? ==> forall j :: i <= j < |servers| ==> !Satisfies(rule, servers[j], typeId, needle)
    decreases |servers| - i
  {
    if i == |servers| then None
    else if Satisfies(rule, servers[i], typeId, needle) then Some(i)
    else FirstIndexFrom(servers, i + 1, rule, typeId, needle)
  }

  /** `choose_server`: exact, then name, then type, then the first server. */
  function ChooseServer(servers: seq<Server>, preferType: string, preferServer: string): (r: Option<Server>)
    ensures r.None? <==> servers == []
    ensures r.Some? ==> r.value in servers
  {
    var t := PreferTypeId(preferType);
    var n := Lower(preferServer);
    if servers == [] then None
    else match FirstIndexFrom(servers, 0, ExactMatch, t, n)
      case Some(i) => Some(servers[i])
      case None => match FirstIndexFrom(servers, 0, NameMatch, t, n)
        case Some(i) => Some(servers[i])
        case None => match FirstIndexFrom(servers, 0, TypeMatch, t, n)
          case Some(i) => Some(servers[i])
          case None => Some(servers[0])
  }

  /** A server is the first one in the list satisfying the rule. */
  predicate FirstSatisfying(servers: seq<Server>, i: nat, rule: Rule, typeId: string, needle: string) {
    i < |servers| && Satisfies(rule, servers[i], typeId, needle)
    && forall j :: 0 <= j < i ==> !Satisfies(rule, servers[j], typeId, needle)
  }

  predicate SomeSatisfies(servers: seq<Server>, rule: Rule, typeId: string, needle: string) {
    exists i :: 0 <= i < |servers| && Satisfies(rule, servers[i], typeId, needle)
  }

  /** The cascade: the first rule any server satisfies decides, and the first such server is chosen. */
  lemma ChooseServerCascade(servers: seq<Server>, preferType: string, preferServer: string)
    ensures var t, n, r := PreferTypeId(preferType), Lower(preferServer), ChooseServer(servers, preferType, preferServer);
      && (SomeSatisfies(servers, ExactMatch, t, n) ==>
            exists i: nat :: FirstSatisfying(servers, i, ExactMatch, t, n) && r == Some(servers[i]))
      && (!SomeSatisfies(servers, ExactMatch, t, n) && SomeSatisfies(servers, NameMatch, t, n) ==>
            exists i: nat :: FirstSatisfying(servers, i, NameMatch, t, n) && r == Some(servers[i]))
      && (!SomeSatisfies(servers, ExactMatch, t, n) && !SomeSatisfies(servers, NameMatch, t, n)
          && SomeSatisfies(servers, TypeMatch, t, n) ==>
            exists i: nat :: FirstSatisfying(servers, i, TypeMatch, t, n) && r == Some(servers[i]))
      && ((servers != [] && !SomeSatisfies(servers, ExactMatch, t, n) && !SomeSatisfies(servers, NameMatch, t, n)
           && !SomeSatisfies(servers, TypeMatch, t, n)) ==> r == Some(servers[0]))
  {
    var t, n := PreferTypeId(preferType), Lower(preferServer);
    var e := FirstIndexFrom(servers, 0, ExactMatch, t, n);
    var m := FirstIndexFrom(servers, 0, NameMatch, t, n);
    var y := FirstIndexFrom(servers, 0, TypeMatch, t, n);
    if e.Some? {
      assert FirstSatisfying(servers, e.value, ExactMatch, t, n);
    } else if m.Some? {
      assert FirstSatisfying(servers, m.value, NameMatch, t, n);
    } else if y.Some? {
      assert FirstSatisfying(servers, y.value, TypeMatch, t, n);
    }
  }

  function ServerListUrl(token: string, enc: string): string {
    BaseUrl + "/ajax/links/list?token=" + token + "&_=" + enc
  }

  /** The servers listed for an episode token; empty when any step fails. */
  function VideoServers(remote: Remote, token: string): seq<Server> {
    var enc := Lookup(remote.encoded, token);
    var url := ServerListUrl(token, enc);
    if enc == "" || url !in remote.serverLists then [] else remote.serverLists[url]
  }

  // ---------------------------------------------------------------------------
  // Media URL derivation

  /** The parts of `urllib.parse.urlparse` the media URL uses. */
  datatype Url = Url(scheme: string, netloc: string, path: string)

  /** The first index of one of the characters in cs, or |s| if there is none. */
  function IndexOfAny(s: string, cs: set<char>): (r: nat)
    ensures r <= |s|
    ensures forall k :: 0 <= k < r ==> s[k] !in cs
    ensures r < |s| ==> s[r] in cs
  {
    if s == [] then 0 else if s[0] in cs then 0 else 1 + IndexOfAny(s[1..], cs)
  }

  lemma IndexOfAnyConcat(a: string, b: string, cs: set<char>)
    requires forall k :: 0 <= k < |a| ==> a[k] !in cs
    ensures IndexOfAny(a + b, cs) == |a| + IndexOfAny(b, cs)
  {
    if a != [] {
      assert (a + b)[1..] == a[1..] + b;
      IndexOfAnyConcat(a[1..], b, cs);
    } else {
      assert a + b == b;
    }
  }

  predicate IsSchemeChar(c: char) {
    ('a' <= c <= 'z') || ('A' <= c <= 'Z') || ('0' <= c <= '9') || c == '+' || c == '-' || c == '.'
  }

  predicate IsAsciiAlpha(c: char) { ('a' <= c <= 'z') || ('A' <= c <= 'Z') }

  predicate ValidScheme(s: string) {
    s != [] && IsAsciiAlpha(s[0]) && forall k :: 0 <= k < |s| ==> IsSchemeChar(s[k])
  }

  /** Schemes for which `urlparse` splits `;params` off the last path segment. */
  const UsesParams: set<string> := {"", "ftp", "hdl", "prospero", "http", "imap", "https", "shttp",
    "rtsp", "rtsps", "rtspu", "sip", "sips", "mms", "sftp", "tel"}

  /** `_splitparams`: the path without the `;params` that follow its last slash. */
  function StripParams(p: string): string {
    var seg := LastSegment(p);
    var dir := p[..|p| - |seg|];
    if '/' in p then dir + seg[..IndexOfAny(seg, {';'})]
    else p[..IndexOfAny(p, {';'})]
  }

  /** The scheme `urlparse` recognises (lower-cased) before the first ':', and the rest. */
  function SplitScheme(u: string): (string, string) {
    var i := IndexOfAny(u, {':'});
    if 0 < i < |u| && ValidScheme(u[..i]) then (Lower(u[..i]), u[i + 1..]) else ("", u)
  }

  /** The network location after a leading "//", up to the next '/', '?' or '#', and what follows it. */
  function SplitNetloc(rest: string): (string, string) {
    if StartsWith(rest, "//") then
      var e := IndexOfAny(rest[2..], {'/', '?', '#'});
      (rest[2..][..e], rest[2..][e..])
    else ("", rest)
  }

  /** The path: what precedes the query or fragment, without the last segment's `;params`. */
  function PathPart(scheme: string, tail: string): string {
    var beforeQuery := tail[..IndexOfAny(tail, {'?', '#'})];
    if scheme in UsesParams && ';' in beforeQuery then StripParams(beforeQuery) else beforeQuery
  }

  /** The characters `urlsplit` deletes from anywhere in a URL before splitting it. */
  predicate UrlBreak(c: char) { c == '\t' || c == '\r' || c == '\n' }

  /** The string without its tabs, carriage returns and line feeds. */
  function DropBreaks(s: string): (r: string)
    ensures |r| <= |s|
  {
    if s == [] then []
    else (if UrlBreak(s[0]) then [] else [s[0]]) + DropBreaks(s[1..])
  }

  /** The string without its leading C0 control characters and spaces. */
  function LStripControls(s: string): (r: string)
    ensures r == [] || r[0] > ' '
    ensures |r| <= |s| && r == s[|s| - |r|..]
  {
    if s != [] && s[0] <= ' ' then LStripControls(s[1..]) else s
  }

  /** What `urlsplit` cleans a URL to before splitting it. */
  function CleanUrl(u: string): string {
    DropBreaks(LStripControls(u))
  }

  /** The split of an already cleaned URL into scheme, network location and path. */
  function SplitUrl(u: string): Url {
    var (scheme, rest) := SplitScheme(u);
    var (netloc, tail) := SplitNetloc(rest);
    Url(scheme, netloc, PathPart(scheme, tail))
  }

  /** `urlparse(u)`: scheme, network location, and path (query, fragment and params removed). */
  function UrlParse(u: string): Url {
    SplitUrl(CleanUrl(u))
  }

  /** `f"{scheme}://{netloc}/media/{token}"` where token is the last path segment of the iframe URL. */
  function MediaUrl(iframeUrl: string): string {
    var p := UrlParse(iframeUrl);
    p.scheme + "://" + p.netloc + "/media/" + LastSegment(p.path)
  }

  predicate NoneOf(s: string, cs: set<char>) {
    forall k :: 0 <= k < |s| ==> s[k] !in cs
  }

  lemma LastSegmentAfterSlash(dir: string, token: string)
    requires '/' !in token
    ensures LastSegment(dir + "/" + token) == token
  {
    var s := dir + "/" + token;
    var r := LastSegment(s);
    assert s[|s| - |token|..] == token;
    assert s[|s| - |token| - 1] == '/';
  }

  lemma SchemeSplit(scheme: string, rest: string)
    requires ValidScheme(scheme) && Lower(scheme) == scheme
    ensures SplitScheme(scheme + ":" + rest) == (scheme, rest)
  {
    var u := scheme + ":" + rest;
    assert u == scheme + (":" + rest);
    IndexOfAnyConcat(scheme, ":" + rest, {':'});
    assert u[..|scheme|] == scheme && u[|scheme| + 1..] == rest;
  }

  lemma NetlocSplit(host: string, tail: string)
    requires NoneOf(host, {'/', '?', '#'}) && tail != [] && tail[0] == '/'
    ensures SplitNetloc("//" + host + tail) == (host, tail)
  {
    var rest := "//" + host + tail;
    assert StartsWith(rest, "//");
    assert rest[2..] == host + tail;
    IndexOfAnyConcat(host, tail, {'/', '?', '#'});
    assert (host + tail)[..|host|] == host && (host + tail)[|host|..] == tail;
  }

  lemma QuerySplit(scheme: string, path: string, query: string)
    requires NoneOf(path, {'?', '#', ';'}) && (query == [] || query[0] == '?' || query[0] == '#')
    ensures PathPart(scheme, path + query) == path
  {
    assert NoneOf(path, {'?', '#'}) by {
      forall k | 0 <= k < |path| ensures path[k] !in {'?', '#'} {
        assert path[k] !in {'?', '#', ';'};
      }
    }
    IndexOfAnyConcat(path, query, {'?', '#'});
    assert (path + query)[..|path|] == path;
    assert ';' !in path by {
      forall k | 0 <= k < |path| ensures path[k] != ';' {
        assert path[k] !in {'?', '#', ';'};
      }
    }
  }

  lemma SplitUrlOfEmbed(scheme: string, host: string, path: string, query: string)
    requires ValidScheme(scheme) && Lower(scheme) == scheme
    requires path != [] && path[0] == '/' && NoneOf(path, {'?', '#', ';'})
    requires NoneOf(host, {'/', '?', '#'})
    requires query == [] || query[0] == '?' || query[0] == '#'
    ensures SplitUrl(scheme + "://" + host + path + query) == Url(scheme, host, path)
  {
    var rest := "//" + host + (path + query);
    assert scheme + "://" + host + path + query == scheme + ":" + rest;
    SchemeSplit(scheme, rest);
    NetlocSplit(host, path + query);
    QuerySplit(scheme, path, query);
  }

  lemma {:induction false} DropBreaksConcat(a: string, b: string)
    ensures DropBreaks(a + b) == DropBreaks(a) + DropBreaks(b)
  {
    if a == [] {
      assert a + b == b;
    } else {
      assert (a + b)[1..] == a[1..] + b;
      DropBreaksConcat(a[1..], b);
    }
  }

  lemma {:induction false} DropBreaksKeeps(s: string)
    requires forall k :: 0 <= k < |s| ==> !UrlBreak(s[k])
    ensures DropBreaks(s) == s
  {
    if s != [] {
      DropBreaksKeeps(s[1..]);
    }
  }

  lemma {:induction false} DropBreaksRemovesAll(s: string)
    ensures forall k :: 0 <= k < |DropBreaks(s)| ==> !UrlBreak(DropBreaks(s)[k])
    ensures forall k :: 0 <= k < |s| && !UrlBreak(s[k]) ==> s[k] in DropBreaks(s)
  {
    if s != [] {
      DropBreaksRemovesAll(s[1..]);
      forall k | 0 <= k < |s| && !UrlBreak(s[k]) ensures s[k] in DropBreaks(s) {
        if k > 0 { assert s[1..][k - 1] == s[k]; }
      }
    }
  }

  /** A cleaned URL cleans to itself: it starts with neither a control character nor a space,
      and holds no tab, carriage return or line feed. */
  lemma CleanUrlIdempotent(u: string)
    ensures CleanUrl(CleanUrl(u)) == CleanUrl(u)
  {
    var l := LStripControls(u);
    var c := DropBreaks(l);
    DropBreaksRemovesAll(l);
    if l != [] {
      assert c[0] == l[0];
    }
    assert LStripControls(c) == c;
    DropBreaksKeeps(c);
  }

  /** Cleaning an embed URL removes the line breaks from each part and leaves the scheme as it is. */
  lemma CleanEmbed(scheme: string, host: string, path: string, query: string)
    requires ValidScheme(scheme)
    ensures CleanUrl(scheme + "://" + host + path + query)
      == scheme + "://" + DropBreaks(host) + DropBreaks(path) + DropBreaks(query)
  {
    var u := scheme + "://" + host + path + query;
    assert u[0] == scheme[0];
    assert LStripControls(u) == u;
    forall k | 0 <= k < |scheme| ensures !UrlBreak(scheme[k]) {
      assert IsSchemeChar(scheme[k]);
    }
    DropBreaksKeeps(scheme);
    DropBreaksKeeps("://");
    DropBreaksConcat(scheme, "://");
    DropBreaksConcat(scheme + "://", host);
    DropBreaksConcat(scheme + "://" + host, path);
    DropBreaksConcat(scheme + "://" + host + path, query);
  }

  /** `urlparse` of `scheme://host/path?query` gives that scheme, and the host and path without line breaks. */
  lemma UrlParseOfEmbed(scheme: string, host: string, path: string, query: string)
    requires ValidScheme(scheme) && Lower(scheme) == scheme
    requires var p := DropBreaks(path); p != [] && p[0] == '/' && NoneOf(p, {'?', '#', ';'})
    requires NoneOf(DropBreaks(host), {'/', '?', '#'})
    requires var q := DropBreaks(query); q == [] || q[0] == '?' || q[0] == '#'
    ensures UrlParse(scheme + "://" + host + path + query) == Url(scheme, DropBreaks(host), DropBreaks(path))
  {
    CleanEmbed(scheme, host, path, query);
    SplitUrlOfEmbed(scheme, DropBreaks(host), DropBreaks(path), DropBreaks(query));
  }

  lemma DropBreaksPath(dirs: string, token: string)
    ensures DropBreaks(dirs + "/" + token) == DropBreaks(dirs) + "/" + DropBreaks(token)
  {
    DropBreaksConcat(dirs, "/");
    DropBreaksKeeps("/");
    DropBreaksConcat(dirs + "/", token);
  }

  lemma EmbedPath(dirs: string, token: string)
    requires dirs == [] || dirs[0] == '/'
    requires NoneOf(dirs, {'?', '#', ';'}) && NoneOf(token, {'/', '?', '#', ';'})
    ensures var p := dirs + "/" + token; p[0] == '/' && NoneOf(p, {'?', '#', ';'})
  {
    var p := dirs + "/" + token;
    assert p[0] == '/' by {
      if dirs != [] { assert p[0] == dirs[0]; }
    }
    forall k | 0 <= k < |p| ensures p[k] !in {'?', '#', ';'} {
      if k < |dirs| { assert p[k] == dirs[k]; }
      else if k > |dirs| { assert p[k] == token[k - |dirs| - 1]; }
    }
  }

  /** For an embed URL `scheme://host/dirs/token?query`, the media URL is `scheme://host/media/token`,
      with any tab, carriage return or line feed removed from host and token. */
  lemma MediaUrlOfEmbed(scheme: string, host: string, dirs: string, token: string, query: string)
    requires ValidScheme(scheme) && Lower(scheme) == scheme
    requires var d := DropBreaks(dirs); d == [] || d[0] == '/'
    requires NoneOf(DropBreaks(host), {'/', '?', '#'}) && NoneOf(DropBreaks(dirs), {'?', '#', ';'})
    requires NoneOf(DropBreaks(token), {'/', '?', '#', ';'})
    requires var q := DropBreaks(query); q == [] || q[0] == '?' || q[0] == '#'
    ensures MediaUrl(scheme + "://" + host + dirs + "/" + token + query)
      == scheme + "://" + DropBreaks(host) + "/media/" + DropBreaks(token)
  {
    var d, t := DropBreaks(dirs), DropBreaks(token);
    DropBreaksPath(dirs, token);
    EmbedPath(d, t);
    MediaUrlOfPath(scheme, host, dirs + "/" + token, query);
    LastSegmentAfterSlash(d, t);
    EmbedConcat(scheme, host, dirs, token, query);
  }

  lemma EmbedConcat(scheme: string, host: string, dirs: string, token: string, query: string)
    ensures scheme + "://" + host + dirs + "/" + token + query == scheme + "://" + host + (dirs + "/" + token) + query
  {
  }

  lemma MediaUrlOfPath(scheme: string, host: string, path: string, query: string)
    requires ValidScheme(scheme) && Lower(scheme) == scheme
    requires var p := DropBreaks(path); p != [] && p[0] == '/' && NoneOf(p, {'?', '#', ';'})
    requires NoneOf(DropBreaks(host), {'/', '?', '#'})
    requires var q := DropBreaks(query); q == [] || q[0] == '?' || q[0] == '#'
    ensures MediaUrl(scheme + "://" + host + path + query)
      == scheme + "://" + DropBreaks(host) + "/media/" + LastSegment(DropBreaks(path))
  {
    UrlParseOfEmbed(scheme, host, path, query);
  }

  // ---------------------------------------------------------------------------
  // Video data

  datatype Subtitle = Subtitle(url: string, lang: string)
  datatype VideoData = VideoData(videoUrl: string, subtitles: seq<Subtitle>)

  function LinkViewUrl(serverId: string, enc: string): string {
    BaseUrl + "/ajax/links/view?id=" + serverId + "&_=" + enc
  }

  /** The stage chain of `get_video_data` up to the decoded payload; the first stage
      that yields nothing makes the whole chain yield nothing. */
  function ResolvePayload(remote: Remote, serverId: string): (r: Option<MediaPayload>)
    ensures r.Some? ==> |r.value.sources| > 0
    ensures Lookup(remote.encoded, serverId) == "" ==> r.None?
  {
    var enc := Lookup(remote.encoded, serverId);
    var encodedLink := Lookup(remote.results, LinkViewUrl(serverId, enc));
    var iframeUrl := Lookup(remote.decodedLinks, encodedLink);
    var megaToken := Lookup(remote.results, MediaUrl(iframeUrl));
    if enc == "" || encodedLink == "" || iframeUrl == "" || megaToken == "" then None
    else if megaToken !in remote.decodedMedia then None
    else if remote.decodedMedia[megaToken].sources == [] then None
    else Some(remote.decodedMedia[megaToken])
  }

  /** A track is kept when its kind is "captions" and its file ends in ".vtt". */
  predicate KeepsTrack(t: Track) {
    t.kind == Some("captions") && EndsWith(GetOr(t.file, ""), ".vtt")
  }

  function SubtitleOf(t: Track): Subtitle {
    Subtitle(GetOr(t.file, ""), GetOr(t.caption, "Unknown"))
  }


  /** The subtitle loop of `get_video_data`: one entry per kept track, in track order. */
  method CaptionTracks(tracks: seq<Track>) returns (subtitleTracks: seq<Subtitle>)
    ensures subtitleTracks == Map(Filter(tracks, KeepsTrack), SubtitleOf)
    ensures forall i :: 0 <= i < |subtitleTracks| ==> EndsWith(subtitleTracks[i].url, ".vtt")
  {
    subtitleTracks := [];
    for i := 0 to |tracks|
      invariant subtitleTracks == Map(Filter(tracks[..i], KeepsTrack), SubtitleOf)
    {
      FilterAppend(tracks[..i], tracks[i], KeepsTrack);
      assert tracks[..i + 1] == tracks[..i] + [tracks[i]];
      if KeepsTrack(tracks[i]) {
        MapAppend(Filter(tracks[..i], KeepsTrack), tracks[i], SubtitleOf);
        subtitleTracks := subtitleTracks + [SubtitleOf(tracks[i])];
      }
    }
    assert tracks[..|tracks|] == tracks;
    FilterSpec(tracks, KeepsTrack);
    forall i | 0 <= i < |subtitleTracks| ensures EndsWith(subtitleTracks[i].url, ".vtt") {
      var f := Filter(tracks, KeepsTrack);
      assert f[i] in f;
    }
  }

  /** What `get_video_data` returns. */
  function VideoDataOf(remote: Remote, serverId: string): (r: Option<VideoData>)
    ensures r.None? <==> ResolvePayload(remote, serverId).None?
  {
    match ResolvePayload(remote, serverId)
    case None => None
    case Some(p) => Some(VideoData(GetOr(p.sources[0].file, ""), Map(Filter(p.tracks, KeepsTrack), SubtitleOf)))
  }

  /** `get_video_data`: the first source's file, and the caption tracks in input order. */
  method GetVideoData(remote: Remote, serverId: string) returns (r: Option<VideoData>)
    ensures r == VideoDataOf(remote, serverId)
    ensures r.None? <==> ResolvePayload(remote, serverId).None?
  {
    var payload := ResolvePayload(remote, serverId);
    if payload.None? {
      return None;
    }
    var mega := payload.value;
    var subtitleTracks := CaptionTracks(mega.tracks);
    r := Some(VideoData(GetOr(mega.sources[0].file, ""), subtitleTracks));
  }

  // ---------------------------------------------------------------------------
  // Worked examples

  lemma SeasonExample0()
    ensures DetectSeason("Show Season 2") == 2
  {
    var s := "Show Season 2";
    SeasonWordIn0();
    DetectSeasonSpec(s);
    assert SeasonPatterns[0] == SeasonWord;
  }

  lemma SeasonWordIn0()
    ensures Search(SeasonWord, "Show Season 2") == Some(2)
  {
    var s := "Show Season 2";
    assert WordAt(s, 6, "eason");
    assert SpaceRunEnd(s, 12) == 12 && SpaceRunEnd(s, 11) == 12;
    assert DigitRunEnd(s, 13) == 13 && DigitRunEnd(s, 12) == 13 && s[12..13] == "2";
    assert SpacedNumberAt(s, 11) == Some(2);
    assert MatchAt(SeasonWord, s, 5) == Some(2);
    forall l | 0 <= l < 5 ensures MatchAt(SeasonWord, s, l).None? {
      if l == 0 {
        assert s[1..6][0] != 'e';
      } else {
        assert !IsSLetter(s[l]);
      }
    }
    SearchReaches(SeasonWord, s, 5);
  }

  lemma SeasonExample1()
    ensures DetectSeason("Show S3") == 3
  {
    var s := "Show S3";
    forall i | 0 <= i <= |s| ensures MatchAt(SeasonWord, s, i).None? {
      if i == 0 {
        assert s[1..6][0] != 'e';
      }
    }
    SearchNone(SeasonWord, s);
    assert DigitRunEnd(s, 7) == 7 && DigitRunEnd(s, 6) == 7 && s[6..7] == "3";
    assert MatchAt(LetterS, s, 5) == Some(3);
    forall l | 0 <= l < 5 ensures MatchAt(LetterS, s, l).None? {
      assert l == 0 ==> !IsDigit(s[1]);
    }
    SearchReaches(LetterS, s, 5);
    DetectSeasonSpec(s);
    assert SeasonPatterns[0] == SeasonWord && SeasonPatterns[1] == LetterS;
  }

  lemma SeasonExample2()
    ensures DetectSeason("Show 2nd Season") == 2
  {
    var s := "Show 2nd Season";
    NoSeasonWordIn2nd();
    NoLetterSIn2nd();
    OrdinalIn2nd();
    DetectSeasonSpec(s);
    assert SeasonPatterns[0] == SeasonWord && SeasonPatterns[1] == LetterS && SeasonPatterns[2] == OrdinalSeason;
  }

  lemma OrdinalIn2nd()
    ensures Search(OrdinalSeason, "Show 2nd Season") == Some(2)
  {
    var s := "Show 2nd Season";
    assert DigitRunEnd(s, 6) == 6 && DigitRunEnd(s, 5) == 6 && s[5..6] == "2";
    assert OrdinalSuffixAt(s, 6);
    assert SpaceRunEnd(s, 9) == 9 && SpaceRunEnd(s, 8) == 9;
    assert WordAt(s, 10, "eason");
    assert MatchAt(OrdinalSeason, s, 5) == Some(2);
    forall l | 0 <= l < 5 ensures MatchAt(OrdinalSeason, s, l).None? {
      assert !IsDigit(s[l]);
    }
    SearchReaches(OrdinalSeason, s, 5);
  }

  lemma SeasonExample3()
    ensures DetectSeason("Show 4") == 4
  {
    var s := "Show 4";
    NoEarlierPatternIn4();
    TrailingIn4();
    DetectSeasonSpec(s);
    assert SeasonPatterns[0] == SeasonWord && SeasonPatterns[1] == LetterS && SeasonPatterns[2] == OrdinalSeason;
    assert SeasonPatterns[3] == TrailingNumber;
  }

  lemma NoEarlierPatternIn4()
    ensures Search(SeasonWord, "Show 4").None? && Search(LetterS, "Show 4").None? && Search(OrdinalSeason, "Show 4").None?
  {
    var s := "Show 4";
    forall i | 0 <= i <= |s| ensures MatchAt(SeasonWord, s, i).None? {
      assert i == 0 ==> s[1..6][0] != 'e';
    }
    forall i | 0 <= i <= |s| ensures MatchAt(LetterS, s, i).None? {
      assert i == 0 ==> !IsDigit(s[1]);
    }
    forall i | 0 <= i <= |s| ensures MatchAt(OrdinalSeason, s, i).None? {
      if i == 5 {
        assert DigitRunEnd(s, 6) == 6 && DigitRunEnd(s, 5) == 6;
        assert !OrdinalSuffixAt(s, 6);
      }
    }
    SearchNone(SeasonWord, s);
    SearchNone(LetterS, s);
    SearchNone(OrdinalSeason, s);
  }

  lemma TrailingIn4()
    ensures Search(TrailingNumber, "Show 4") == Some(4)
  {
    var s := "Show 4";
    assert SpaceRunEnd(s, 5) == 5 && SpaceRunEnd(s, 4) == 5;
    assert DigitRunEnd(s, 6) == 6 && DigitRunEnd(s, 5) == 6 && s[5..6] == "4";
    assert MatchAt(TrailingNumber, s, 4) == Some(4);
    forall i | 0 <= i < 4 ensures MatchAt(TrailingNumber, s, i).None? {
      assert SpaceRunEnd(s, i) == i;
    }
    SearchReaches(TrailingNumber, s, 4);
  }

  lemma SeasonExample4()
    ensures DetectSeason("Show") == 1
  {
    var s := "Show";
    forall p: SeasonPattern, i | 0 <= i <= |s| ensures MatchAt(p, s, i).None? {
      assert SpaceRunEnd(s, i) == i;
      assert i == 0 ==> s[i..i + 4][0] == 'S';
    }
    forall k | 0 <= k < |SeasonPatterns| ensures Search(SeasonPatterns[k], s).None? {
      SearchNone(SeasonPatterns[k], s);
    }
    DetectSeasonSpec(s);
  }

  lemma NoSeasonWordIn2nd()
    ensures Search(SeasonWord, "Show 2nd Season").None?
  {
    var s := "Show 2nd Season";
    forall i | 0 <= i <= |s| ensures MatchAt(SeasonWord, s, i).None? {
      if i == 0 {
        assert s[1..6][0] != 'e';
      } else if i == 9 {
        assert SpaceRunEnd(s, 15) == 15;
      }
    }
    SearchNone(SeasonWord, s);
  }

  lemma NoLetterSIn2nd()
    ensures Search(LetterS, "Show 2nd Season").None?
  {
    var s := "Show 2nd Season";
    forall i | 0 <= i <= |s| ensures MatchAt(LetterS, s, i).None? {
      assert i + 1 < |s| && IsSLetter(s[i]) ==> !IsDigit(s[i + 1]);
    }
    SearchNone(LetterS, s);
  }

  lemma ChooseServerExample()
    ensures ChooseServer([Server("sub", "a", "Server 1"), Server("softsub", "b", "Server 2")], "Soft Sub", "Server 1")
      == Some(Server("sub", "a", "Server 1"))
  {
    assert Lower("Server 1") == "server 1" && Lower("Server 2") == "server 2";
    assert StartsWith("server 1", "server 1") && !StartsWith("server 2", "server 1") by {
      assert "server 2"[..8][7] != "server 1"[7];
    }
    ContainsShorter("server 1", "server 2"[1..]);
    var servers := [Server("sub", "a", "Server 1"), Server("softsub", "b", "Server 2")];
    assert FirstIndexFrom(servers, 0, ExactMatch, "softsub", "server 1").None?;
    assert FirstIndexFrom(servers, 0, NameMatch, "softsub", "server 1") == Some(0);
  }
}
