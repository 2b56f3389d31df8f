/**
 * `search_anime` (app/search.py): the loop that turns the candidate elements of a
 * search results page into result records.
 *
 * The HTTP request and the HTML parsing are outside the model: each candidate
 * element arrives as an `Item` holding what the selector lookups found in it.
 */
module Search {
  import opened Text
  import opened Seqs

  /** The anchor chosen for an item: its `href` attribute if it has one, and its text
      (`get_text(strip=True)`). */
  datatype Link = Link(href: Option<string>, text: string)

  /** The item's `img` element: its `src` and `data-src` attributes. */
  datatype Image = Image(src: Option<string>, dataSrc: Option<string>)

  /** One candidate element: its link, the text of its title element, its image. */
  datatype Item = Item(link: Option<Link>, title: Option<string>, image: Option<Image>)

  /** One search result: `{title, url, image, anime_id}`. */
  datatype Anime = Anime(title: string, url: string, image: string, animeId: string)

  const SiteRoot: string := "https://anikai.to"

  /** `elem.get(name, default)`. */
  function AttrOr(a: Option<string>, default: string): string {
    if a.Some? then a.value else default
  }

  /** A link target made absolute: anything not starting with "http" is taken as a path
      on the site. */
  function AbsoluteUrl(href: string): (u: string)
    ensures StartsWith(u, "http")
    ensures EndsWith(u, href)
    ensures StartsWith(href, "http") ==> u == href
  {
    if StartsWith(href, "http") then href else SiteRoot + href
  }

  function UrlOf(link: Link): string {
    AbsoluteUrl(AttrOr(link.href, ""))
  }

  /** The title element's text, or the link's text when the item has no title element. */
  function TitleOf(it: Item): string
    requires it.link.Some?
  {
    if it.title.Some? then it.title.value else it.link.value.text
  }

  /** `src or data-src` of the image, or "" without one. */
  function ImageUrl(img: Option<Image>): string {
    if img.None? then ""
    else
      var src := AttrOr(img.value.src, "");
      if src != "" then src else AttrOr(img.value.dataSrc, "")
  }

  /** The record an item with a link yields when it is kept. */
  function Found(it: Item): Anime
    requires it.link.Some?
  {
    var url := UrlOf(it.link.value);
    Anime(TitleOf(it), url, ImageUrl(it.image), LastSegment(url))
  }

  /** The loop's state: the results so far and the URLs seen. */
  datatype Scan = Scan(results: seq<Anime>, seen: set<string>)

  /** The state after the loop body has looked at one item, and whether it breaks. */
  datatype Visited = Visited(scan: Scan, stop: bool)

  /** The loop body on `it`: an item without a link, or whose URL was already seen, is
      skipped; otherwise its URL is marked seen and, when it has a title, its record is
      appended; the loop breaks right after an append that brings the results to
      `maxResults`. */
  function Visit(it: Item, maxResults: int, s: Scan): (r: Visited)
    ensures s.seen <= r.scan.seen
    ensures r.scan.results == s.results || (it.link.Some? && r.scan.results == s.results + [Found(it)])
    ensures r.stop <==> r.scan.results != s.results && |r.scan.results| >= maxResults
  {
    if it.link.None? then Visited(s, false)
    else
      var url := UrlOf(it.link.value);
      if url in s.seen then Visited(s, false)
      else if TitleOf(it) == "" || url == "" then Visited(Scan(s.results, s.seen + {url}), false)
      else
        var rs := s.results + [Found(it)];
        Visited(Scan(rs, s.seen + {url}), |rs| >= maxResults)
  }

  /** The loop over `cands` from the state `s`. */
  function Collect(cands: seq<Item>, maxResults: int, s: Scan): Scan
    decreases |cands|
  {
    if cands == [] then s
    else
      var v := Visit(cands[0], maxResults, s);
      if v.stop then v.scan else Collect(cands[1..], maxResults, v.scan)
  }

  /** The loop only appends, at most one result per item, and only adds to the URLs seen. */
  lemma {:induction false} CollectExtends(cands: seq<Item>, maxResults: int, s: Scan)
    ensures var r := Collect(cands, maxResults, s);
      && |s.results| <= |r.results| <= |s.results| + |cands|
      && r.results[..|s.results|] == s.results
      && s.seen <= r.seen
    decreases |cands|
  {
    if cands != [] {
      var v := Visit(cands[0], maxResults, s);
      if !v.stop {
        CollectExtends(cands[1..], maxResults, v.scan);
        var r := Collect(cands[1..], maxResults, v.scan).results;
        var n := |s.results|;
        assert r[..n] == r[..|v.scan.results|][..n];
      }
    }
  }

  /** The items the loop looks at: `anime_items[:max_results * 2]`. */
  function Candidates(items: seq<Item>, maxResults: int): seq<Item> {
    SliceTo(items, 2 * maxResults)
  }

  /** What `search_anime` returns for the candidate elements `items`. */
  function SearchResults(items: seq<Item>, maxResults: int): seq<Anime> {
    Collect(Candidates(items, maxResults), maxResults, Scan([], {})).results
  }

  /** The search loop, with its `continue` and its `break`. */
  method SearchItems(items: seq<Item>, maxResults: int) returns (results: seq<Anime>)
    ensures results == SearchResults(items, maxResults)
  {
    var cands := SliceTo(items, 2 * maxResults);
    var seen: set<string> := {};
    results := [];
    for i := 0 to |cands|
      invariant Collect(cands, maxResults, Scan([], {})) == Collect(cands[i..], maxResults, Scan(results, seen))
    {
      var it := cands[i];
      assert cands[i..][0] == it && cands[i..][1..] == cands[i + 1..];
      if it.link.Some? {
        var link := it.link.value;
        var url := AttrOr(link.href, "");
        if !StartsWith(url, "http") {
          url := SiteRoot + url;
        }
        if url in seen {
          continue;
        }
        seen := seen + {url};
        var title := if it.title.Some? then it.title.value else link.text;
        var image := ImageUrl(it.image);
        if title != "" && url != "" {
          results := results + [Anime(title, url, image, LastSegment(url))];
          if |results| >= maxResults {
            break;
          }
        }
      }
    }
  }

  /** A result has a title, an absolute URL, and as id the URL's last segment. */
  predicate WellFormed(a: Anime) {
    a.title != "" && StartsWith(a.url, "http") && a.animeId == LastSegment(a.url)
  }

  /** The results are well formed, their URLs are pairwise distinct, and all were seen. */
  predicate Consistent(s: Scan) {
    && (forall i :: 0 <= i < |s.results| ==> WellFormed(s.results[i]) && s.results[i].url in s.seen)
    && (forall i, j :: 0 <= i < j < |s.results| ==> s.results[i].url != s.results[j].url)
  }

  lemma {:induction false} CollectConsistent(cands: seq<Item>, maxResults: int, s: Scan)
    requires Consistent(s)
    ensures Consistent(Collect(cands, maxResults, s))
    decreases |cands|
  {
    if cands != [] {
      var v := Visit(cands[0], maxResults, s);
      VisitConsistent(cands[0], maxResults, s);
      if !v.stop {
        CollectConsistent(cands[1..], maxResults, v.scan);
      }
    }
  }

  /** One step of the loop keeps the results consistent with the URLs seen. */
  lemma VisitConsistent(it: Item, maxResults: int, s: Scan)
    requires Consistent(s)
    ensures Consistent(Visit(it, maxResults, s).scan)
  {
    var r := Visit(it, maxResults, s).scan;
    if r.results != s.results {
      var url := UrlOf(it.link.value);
      var n := |s.results|;
      assert url !in s.seen && r.seen == s.seen + {url} && r.results == s.results + [Found(it)];
      assert WellFormed(r.results[n]);
      forall i | 0 <= i < |r.results| ensures WellFormed(r.results[i]) && r.results[i].url in r.seen {
        if i < n { assert r.results[i] == s.results[i]; }
      }
      forall i, j | 0 <= i < j < |r.results| ensures r.results[i].url != r.results[j].url {
        assert r.results[i] == s.results[i];
        if j < n { assert r.results[j] == s.results[j]; }
      }
    }
  }

  /** Every result has a non-empty title and an absolute URL whose last segment is its id,
      and no URL occurs twice. */
  lemma ResultsWellFormed(items: seq<Item>, maxResults: int)
    ensures var r := SearchResults(items, maxResults);
      && (forall i :: 0 <= i < |r| ==> WellFormed(r[i]))
      && (forall i, j :: 0 <= i < j < |r| ==> r[i].url != r[j].url)
  {
    CollectConsistent(Candidates(items, maxResults), maxResults, Scan([], {}));
  }

  lemma {:induction false} CollectBound(cands: seq<Item>, maxResults: int, s: Scan)
    requires s.results == [] || |s.results| < maxResults
    ensures var n := |Collect(cands, maxResults, s).results|;
      n <= maxResults || (n <= 1 && maxResults <= 0)
    decreases |cands|
  {
    if cands != [] {
      var v := Visit(cands[0], maxResults, s);
      if !v.stop {
        CollectBound(cands[1..], maxResults, v.scan);
      }
    }
  }

  /** There are never more than `maxResults` results, nor more than twice that many items
      looked at; a limit of 0 gives none, and a negative limit at most one. */
  lemma ResultCount(items: seq<Item>, maxResults: int)
    ensures var r := SearchResults(items, maxResults);
      && |r| <= |Candidates(items, maxResults)|
      && (maxResults >= 0 ==> |r| <= maxResults && |Candidates(items, maxResults)| <= 2 * maxResults)
      && (maxResults < 0 ==> |r| <= 1)
  {
    CollectBound(Candidates(items, maxResults), maxResults, Scan([], {}));
    CollectExtends(Candidates(items, maxResults), maxResults, Scan([], {}));
  }

  /** The records of the items of `cands` that have a link, in order. */
  function Records(cands: seq<Item>): (r: seq<Anime>)
    ensures |r| <= |cands|
  {
    if cands == [] then []
    else (if cands[0].link.Some? then [Found(cands[0])] else []) + Records(cands[1..])
  }

  /** The results the loop adds from state `s` are, in order, records of linked items of `cands`. */
  ghost predicate AddsRecords(cands: seq<Item>, maxResults: int, s: Scan) {
    var r := Collect(cands, maxResults, s).results;
    |s.results| <= |r| && IsSubsequence(r[|s.results|..], Records(cands))
  }

  lemma {:induction false} CollectFrom(cands: seq<Item>, maxResults: int, s: Scan)
    ensures AddsRecords(cands, maxResults, s)
    decreases |cands|
  {
    if cands == [] {
      assert Collect(cands, maxResults, s).results[|s.results|..] == [];
    } else {
      var v := Visit(cands[0], maxResults, s);
      if v.stop {
        FromStop(cands, maxResults, s);
      } else {
        CollectFrom(cands[1..], maxResults, v.scan);
        CollectExtends(cands[1..], maxResults, v.scan);
        if v.scan.results == s.results {
          FromSkip(cands, maxResults, s);
        } else {
          FromKeep(cands, maxResults, s);
        }
      }
    }
  }

  lemma FromStop(cands: seq<Item>, maxResults: int, s: Scan)
    requires cands != [] && Visit(cands[0], maxResults, s).stop
    ensures AddsRecords(cands, maxResults, s)
  {
    var r := Collect(cands, maxResults, s).results;
    assert r == s.results + [Found(cands[0])];
    assert Records(cands) == [Found(cands[0])] + Records(cands[1..]);
    KeepHead(r, |s.results|, Found(cands[0]), []);
  }

  lemma FromSkip(cands: seq<Item>, maxResults: int, s: Scan)
    requires cands != []
    requires var v := Visit(cands[0], maxResults, s);
      !v.stop && v.scan.results == s.results && AddsRecords(cands[1..], maxResults, v.scan)
    ensures AddsRecords(cands, maxResults, s)
  {
    var r := Collect(cands, maxResults, s).results;
    var n, tail := |s.results|, Records(cands[1..]);
    assert IsSubsequence(r[n..], tail);
    if cands[0].link.Some? {
      assert Records(cands)[1..] == tail;
      SkipHeadSubsequence(r[n..], Records(cands));
    } else {
      assert Records(cands) == tail;
    }
  }

  lemma FromKeep(cands: seq<Item>, maxResults: int, s: Scan)
    requires cands != []
    requires var v := Visit(cands[0], maxResults, s);
      && !v.stop && v.scan.results != s.results && AddsRecords(cands[1..], maxResults, v.scan)
      && Collect(cands[1..], maxResults, v.scan).results[..|v.scan.results|] == v.scan.results
    ensures AddsRecords(cands, maxResults, s)
  {
    var r := Collect(cands, maxResults, s).results;
    var n, tail := |s.results|, Records(cands[1..]);
    assert r[..n + 1] == s.results + [Found(cands[0])];
    assert Records(cands) == [Found(cands[0])] + tail;
    KeepHead(r, n, Found(cands[0]), tail);
  }

  lemma KeepHead(r: seq<Anime>, n: nat, x: Anime, tail: seq<Anime>)
    requires n < |r| && r[..n + 1][n] == x && IsSubsequence(r[n + 1..], tail)
    ensures IsSubsequence(r[n..], [x] + tail)
  {
    assert r[n..] == [x] + r[n + 1..];
    ConsSubsequence(x, r[n + 1..], tail);
  }

  /** Only the first `2 * maxResults` items are looked at: the results are, in order, the
      records of some of those that have a link, with each title taken from the title
      element or else the link text. */
  lemma ResultsFromCandidates(items: seq<Item>, maxResults: int)
    ensures IsSubsequence(SearchResults(items, maxResults), Records(Candidates(items, maxResults)))
  {
    CollectFrom(Candidates(items, maxResults), maxResults, Scan([], {}));
  }

  /** No item before index k links to the URL of item k. */
  predicate FirstWithUrl(cands: seq<Item>, k: int)
    requires 0 <= k < |cands| && cands[k].link.Some?
  {
    forall j :: 0 <= j < k && cands[j].link.Some? ==> UrlOf(cands[j].link.value) != UrlOf(cands[k].link.value)
  }

  /** Item k would be kept if the loop reached it with its URL unseen. */
  predicate Keepable(cands: seq<Item>, k: int, seen: set<string>) {
    && 0 <= k < |cands| && cands[k].link.Some? && TitleOf(cands[k]) != ""
    && UrlOf(cands[k].link.value) !in seen && FirstWithUrl(cands, k)
  }

  /** A keepable first item is appended by the first visit and stays in the results. */
  lemma CollectCompleteHead(cands: seq<Item>, maxResults: int, s: Scan)
    requires Keepable(cands, 0, s.seen)
    ensures Found(cands[0]) in Collect(cands, maxResults, s).results
  {
    var v := Visit(cands[0], maxResults, s);
    var m := |v.scan.results|;
    assert UrlOf(cands[0].link.value) != "";
    assert v.scan.results == s.results + [Found(cands[0])];
    assert v.scan.results[m - 1] == Found(cands[0]);
    if !v.stop {
      var r := Collect(cands[1..], maxResults, v.scan).results;
      CollectExtends(cands[1..], maxResults, v.scan);
      assert r[..m] == v.scan.results;
      assert r[m - 1] == Found(cands[0]);
    }
  }

  /** A later keepable item stays keepable after the first visit. */
  lemma KeepableAfterVisit(cands: seq<Item>, maxResults: int, s: Scan, k: int)
    requires Keepable(cands, k, s.seen) && k > 0
    ensures Keepable(cands[1..], k - 1, Visit(cands[0], maxResults, s).scan.seen)
  {
    var tail := cands[1..];
    var v := Visit(cands[0], maxResults, s);
    var u := UrlOf(cands[k].link.value);
    assert tail[k - 1] == cands[k];
    if cands[0].link.Some? {
      assert UrlOf(cands[0].link.value) != u;
      assert v.scan.seen <= s.seen + {UrlOf(cands[0].link.value)};
    }
    assert u !in v.scan.seen;
    forall j | 0 <= j < k - 1 && tail[j].link.Some?
      ensures UrlOf(tail[j].link.value) != UrlOf(tail[k - 1].link.value)
    {
      assert tail[j] == cands[j + 1];
    }
  }

  lemma {:induction false} CollectComplete(cands: seq<Item>, maxResults: int, s: Scan, k: int)
    requires Keepable(cands, k, s.seen)
    requires |Collect(cands, maxResults, s).results| < maxResults
    ensures Found(cands[k]) in Collect(cands, maxResults, s).results
    decreases |cands|
  {
    if k == 0 {
      CollectCompleteHead(cands, maxResults, s);
    } else {
      var v := Visit(cands[0], maxResults, s);
      assert !v.stop;
      KeepableAfterVisit(cands, maxResults, s, k);
      CollectComplete(cands[1..], maxResults, v.scan, k - 1);
    }
  }

  /** Unless the limit was reached, every looked-at item with a link and a title is in
      the results, provided no earlier item linked to the same URL. */
  lemma ResultsComplete(items: seq<Item>, maxResults: int, k: int)
    requires Keepable(Candidates(items, maxResults), k, {})
    requires |SearchResults(items, maxResults)| < maxResults
    ensures Found(items[k]) in SearchResults(items, maxResults)
  {
    var cands := Candidates(items, maxResults);
    assert cands[k] == items[k];
    CollectComplete(cands, maxResults, Scan([], {}), k);
  }

  /** A URL is marked seen before the title is looked at: when the first item linking to
      it has no title, a later item with the same link and a title is skipped too. */
  lemma SeenBeforeTitle(href: string, text: string, maxResults: int)
    requires text != "" && maxResults >= 1
    ensures SearchResults([Item(Some(Link(Some(href), "")), None, None), Item(Some(Link(Some(href), text)), None, None)], maxResults) == []
  {
    var first, second := Item(Some(Link(Some(href), "")), None, None), Item(Some(Link(Some(href), text)), None, None);
    var items := [first, second];
    var url := AbsoluteUrl(href);
    assert Candidates(items, maxResults) == items;
    var s1 := Scan([], {url});
    assert Visit(first, maxResults, Scan([], {})) == Visited(s1, false);
    assert Visit(second, maxResults, s1) == Visited(s1, false);
    assert Collect([second], maxResults, s1) == s1 by {
      assert [second][1..] == [];
    }
    assert items[1..] == [second];
  }
}
