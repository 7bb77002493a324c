/** The feed list of scripts/translate_rss.py: the (title, URL) pairs read
    from the OPML outlines (`parse_opml`), de-duplicated by URL, and the
    optional URL-substring filter of `main`. */
module FeedList {
  import opened Text
  import opened Distinct
  import opened Wrappers

  /** One source feed; its identity is the URL. */
  datatype Feed = Feed(title: string, url: string)

  /** The attributes `parse_opml` reads from one XML element. An attribute
      that is missing is the empty string: the source combines them with
      Python's `or`, for which a missing and an empty value are alike. */
  datatype Element = Element(tag: string, xmlUrl: string, xmlurl: string, text: string, title: string)

  function UrlOf(f: Feed): string { f.url }

  /** No URL occurs twice. */
  predicate DistinctUrls(feeds: seq<Feed>) {
    forall k, l :: 0 <= k < l < |feeds| ==> feeds[k].url != feeds[l].url
  }

  /** The feed an element contributes, if any: an element whose tag ends in
      "outline" (in any case) and that has an `xmlUrl` (or `xmlurl`); its
      title is `text`, else `title`, else "Feed". */
  function FeedOf(el: Element): (r: Option<Feed>)
    ensures r.Some? <==> EndsWith(Lower(el.tag), "outline") && (el.xmlUrl != "" || el.xmlurl != "")
    ensures r.Some? ==> r.value.url != "" && r.value.title != ""
    ensures r.Some? ==> r.value.url == (if el.xmlUrl != "" then el.xmlUrl else el.xmlurl)
    ensures r.Some? ==> r.value.title == (if el.text != "" then el.text else if el.title != "" then el.title else "Feed")
  {
    if !EndsWith(Lower(el.tag), "outline") then None
    else
      var url := if el.xmlUrl != "" then el.xmlUrl else el.xmlurl;
      var title := if el.text != "" then el.text else if el.title != "" then el.title else "Feed";
      if url != "" then Some(Feed(title, url)) else None
  }

  /** The feeds of the elements in document order, before de-duplication. */
  function Candidates(els: seq<Element>): seq<Feed> {
    if els == [] then []
    else
      var before := Candidates(els[..|els| - 1]);
      match FeedOf(els[|els| - 1])
      case Some(f) => before + [f]
      case None => before
  }

  /** `parse_opml` after the XML is parsed: collect the feeds of the
      outline elements, then keep the first (title, URL) pair of every URL.
      The result has pairwise distinct URLs, loses no URL, and every pair is
      the first one of its URL, in document order. */
  method ParseOpml(els: seq<Element>) returns (feeds: seq<Feed>)
    ensures feeds == Dedup(Candidates(els), UrlOf)
    ensures DistinctUrls(feeds)
    ensures KeySet(feeds, UrlOf) == KeySet(Candidates(els), UrlOf)
    ensures forall f :: f in feeds ==> f.url != "" && f.title != ""
  {
    var all: seq<Feed> := [];
    for i := 0 to |els|
      invariant all == Candidates(els[..i])
    {
      assert els[..i + 1][..i] == els[..i];
      var f := FeedOf(els[i]);
      if f.Some? {
        all := all + [f.value];
      }
    }
    assert els[..|els|] == els;
    CandidatesWellFormed(els);
    feeds := DedupByKey(all, UrlOf);
    DedupIsFirstOccurrences(all, UrlOf);
  }

  /** Every candidate has a URL and a title. */
  lemma {:induction false} CandidatesWellFormed(els: seq<Element>)
    ensures forall f :: f in Candidates(els) ==> f.url != "" && f.title != ""
  {
    if els != [] {
      CandidatesWellFormed(els[..|els| - 1]);
    }
  }

  /** The feeds whose URL contains `needle`, in their order. */
  function KeepMatching(feeds: seq<Feed>, needle: string): (r: seq<Feed>)
    ensures |r| <= |feeds|
    ensures forall f :: f in r <==> f in feeds && Contains(f.url, needle)
  {
    if feeds == [] then []
    else (if Contains(feeds[0].url, needle) then [feeds[0]] else []) + KeepMatching(feeds[1..], needle)
  }

  /** The filter keeps the order of the list: filtering two lists one after
      the other gives the two results one after the other. With the bound on
      the length, each feed of the list gives itself or nothing, in its
      place. */
  lemma {:induction false} KeepMatchingAppend(a: seq<Feed>, b: seq<Feed>, needle: string)
    ensures KeepMatching(a + b, needle) == KeepMatching(a, needle) + KeepMatching(b, needle)
  {
    if a == [] {
      assert a + b == b;
    } else {
      assert (a + b)[0] == a[0] && (a + b)[1..] == a[1..] + b;
      KeepMatchingAppend(a[1..], b, needle);
    }
  }

  /** When every URL holds the needle, the whole list is kept as it is. */
  lemma {:induction false} KeepMatchingAll(feeds: seq<Feed>, needle: string)
    requires forall i :: 0 <= i < |feeds| ==> Contains(feeds[i].url, needle)
    ensures KeepMatching(feeds, needle) == feeds
  {
    if feeds != [] {
      KeepMatchingAll(feeds[1..], needle);
    }
  }

  /** The `--only_lang_ceid` filter of `main`: with a needle, keep the feeds
      whose URL contains it; without one, keep every feed. */
  function FilterByUrl(feeds: seq<Feed>, needle: string): seq<Feed> {
    if needle != "" then KeepMatching(feeds, needle) else feeds
  }

  /** The filter keeps exactly the feeds whose URL holds the needle (every
      URL holds the empty one), in their order, and a list with distinct URLs
      stays so. */
  lemma {:induction false} FilterByUrlKeeps(feeds: seq<Feed>, needle: string)
    requires DistinctUrls(feeds)
    ensures FilterByUrl(feeds, needle) == KeepMatching(feeds, needle)
    ensures forall f :: f in FilterByUrl(feeds, needle) <==> f in feeds && Contains(f.url, needle)
    ensures DistinctUrls(FilterByUrl(feeds, needle))
  {
    if needle == "" {
      forall i | 0 <= i < |feeds| ensures Contains(feeds[i].url, needle) {
        assert OccursAt(feeds[i].url, needle, 0);
      }
      KeepMatchingAll(feeds, needle);
    } else {
      KeepMatchingDistinct(feeds, needle);
    }
  }

  lemma {:induction false} KeepMatchingDistinct(feeds: seq<Feed>, needle: string)
    requires DistinctUrls(feeds)
    ensures DistinctUrls(KeepMatching(feeds, needle))
  {
    if feeds != [] {
      var rest := KeepMatching(feeds[1..], needle);
      KeepMatchingDistinct(feeds[1..], needle);
      if Contains(feeds[0].url, needle) {
        var r := [feeds[0]] + rest;
        forall k, l | 0 <= k < l < |r| ensures r[k].url != r[l].url {
          if k == 0 {
            assert r[l] == rest[l - 1];
            assert r[l] in feeds[1..];
            var j :| 0 <= j < |feeds[1..]| && feeds[1..][j] == r[l];
            assert feeds[j + 1] == r[l];
          } else {
            assert r[k] == rest[k - 1] && r[l] == rest[l - 1];
          }
        }
      }
    }
  }
}
