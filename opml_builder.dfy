/** scripts/build_translated_opml.py: the OPML that points a feed reader at
    the translated files. Every distinct source title becomes a folder that
    links, in sorted order, every `.xml` file of the output directory whose
    name starts with the title's slug and a dot; titles without such a file
    are counted as missing. */
module OpmlBuilder {
  import opened Text
  import opened Wrappers
  import opened Slug
  import opened Distinct
  import opened FeedList
  import opened Pipeline

  /** Python's order on strings: code point by code point, a proper prefix
      first. */
  predicate LexLeq(a: string, b: string)
    decreases |a|
  {
    a == [] || (b != [] && (a[0] < b[0] || (a[0] == b[0] && LexLeq(a[1..], b[1..]))))
  }

  lemma {:induction false} LexTotal(a: string, b: string)
    ensures LexLeq(a, b) || LexLeq(b, a)
    decreases |a|
  {
    if a != [] && b != [] && a[0] == b[0] {
      LexTotal(a[1..], b[1..]);
    }
  }

  /** A common prefix does not change the order. */
  lemma {:induction false} LexLeqPrefix(p: string, a: string, b: string)
    ensures LexLeq(p + a, p + b) == LexLeq(a, b)
  {
    if p != [] {
      assert (p + a)[0] == p[0] == (p + b)[0];
      assert (p + a)[1..] == p[1..] + a;
      assert (p + b)[1..] == p[1..] + b;
      LexLeqPrefix(p[1..], a, b);
      assert LexLeq(p + a, p + b) == LexLeq(p[1..] + a, p[1..] + b);
    } else {
      assert p + a == a && p + b == b;
    }
  }

  /** Neighbours are in order. */
  predicate Sorted(s: seq<string>) {
    forall i :: 0 < i < |s| ==> LexLeq(s[i - 1], s[i])
  }

  /** `x` put into its place in the sorted list `s`. */
  function Insert(x: string, s: seq<string>): (r: seq<string>)
    requires Sorted(s)
    ensures Sorted(r) && multiset(r) == multiset(s) + multiset{x}
    ensures |r| == |s| + 1 && (r[0] == x || (s != [] && r[0] == s[0]))
  {
    if s == [] then [x]
    else if LexLeq(x, s[0]) then [x] + s
    else
      LexTotal(x, s[0]);
      assert s == [s[0]] + s[1..];
      var rest := Insert(x, s[1..]);
      [s[0]] + rest
  }

  /** `sorted` on strings: the same strings, in order. */
  function Sort(s: seq<string>): (r: seq<string>)
    ensures Sorted(r) && multiset(r) == multiset(s)
  {
    if s == [] then []
    else
      assert s == [s[0]] + s[1..];
      Insert(s[0], Sort(s[1..]))
  }

  /** The names of the directory listing that end in ".xml" in any case. */
  function XmlFiles(listing: seq<string>): (r: seq<string>)
    ensures forall fn :: fn in r <==> fn in listing && EndsWith(Lower(fn), ".xml")
  {
    if listing == [] then []
    else (if EndsWith(Lower(listing[0]), ".xml") then [listing[0]] else []) + XmlFiles(listing[1..])
  }

  /** The files whose name starts with `prefix`. */
  function Matching(files: seq<string>, prefix: string): (r: seq<string>)
    ensures forall fn :: fn in r <==> fn in files && StartsWith(fn, prefix)
    ensures multiset(r) <= multiset(files)
  {
    if files == [] then []
    else
      assert files == [files[0]] + files[1..];
      (if StartsWith(files[0], prefix) then [files[0]] else []) + Matching(files[1..], prefix)
  }

  /** `slugify(t) + "."`: the start of the names of the title's files. */
  function PrefixOf(title: string): string {
    Slugify(title) + "."
  }

  /** A name that starts with a prefix ending in a dot holds a dot. */
  lemma DotInMatch(fn: string, prefix: string)
    requires prefix != [] && prefix[|prefix| - 1] == '.' && StartsWith(fn, prefix)
    ensures '.' in fn
  {
    assert fn[|prefix| - 1] == prefix[|prefix| - 1];
  }

  /** `fn.split('.')[-2]`: the piece before the last dot, which for a file
      written by the translator is the language. */
  function Label(fn: string): string
    requires '.' in fn
  {
    SplitHasTwoParts(fn, '.');
    var parts := Split(fn, '.');
    parts[|parts| - 2]
  }

  /** One feed outline of the generated OPML. */
  datatype Link = Link(text: string, kind: string, xmlUrl: string)

  /** One folder outline: a source title and its translated feeds. */
  datatype Folder = Folder(text: string, links: seq<Link>)

  /** The generated document: the collection name is both the head title and
      the text of the outline that holds the folders. */
  datatype Opml = Opml(collection: string, folders: seq<Folder>)

  /** The outline of one translated file. */
  function LinkFor(title: string, fn: string, baseUrl: string): Link
    requires '.' in fn
  {
    Link(title + " (" + Upper(Label(fn)) + " translated)", "rss", baseUrl + fn)
  }

  /** The outlines of `fns`, in their order. */
  function Links(title: string, fns: seq<string>, baseUrl: string): (r: seq<Link>)
    requires forall fn :: fn in fns ==> '.' in fn
    ensures |r| == |fns|
    ensures forall i :: 0 <= i < |fns| ==> r[i] == LinkFor(title, fns[i], baseUrl)
  {
    if fns == [] then [] else [LinkFor(title, fns[0], baseUrl)] + Links(title, fns[1..], baseUrl)
  }

  /** The folder of a title whose files start with `prefix`, or none when
      no file does. */
  function FolderMatching(title: string, prefix: string, files: seq<string>, baseUrl: string): Option<Folder>
    requires prefix != [] && prefix[|prefix| - 1] == '.'
  {
    var matched := Matching(files, prefix);
    if matched == [] then None
    else
      forall fn | fn in Sort(matched) ensures '.' in fn {
        assert fn in multiset(matched);
        DotInMatch(fn, prefix);
      }
      Some(Folder(title, Links(title, Sort(matched), baseUrl)))
  }

  /** The folder of one title, or none when no file matches it. */
  function FolderFor(title: string, files: seq<string>, baseUrl: string): Option<Folder> {
    var prefix := PrefixOf(title);
    assert prefix[|prefix| - 1] == '.';
    FolderMatching(title, prefix, files, baseUrl)
  }

  /** The URLs of some links, in order. */
  function Urls(links: seq<Link>): (r: seq<string>)
    ensures |r| == |links| && forall i :: 0 <= i < |links| ==> r[i] == links[i].xmlUrl
  {
    seq(|links|, i requires 0 <= i < |links| => links[i].xmlUrl)
  }

  /** A title gets a folder exactly when some file starts with its prefix;
      the folder carries the title and one link per matching file. */
  lemma FolderMatchingExists(title: string, prefix: string, files: seq<string>, baseUrl: string)
    requires prefix != [] && prefix[|prefix| - 1] == '.'
    ensures var f := FolderMatching(title, prefix, files, baseUrl);
      && (f.Some? <==> exists fn :: fn in files && StartsWith(fn, prefix))
      && (f.Some? ==> f.value.text == title && |f.value.links| == |Matching(files, prefix)|)
  {
    var matched := Matching(files, prefix);
    if matched == [] {
      forall fn | fn in files && StartsWith(fn, prefix) ensures fn in matched {
      }
    } else {
      assert matched[0] in matched;
      assert |multiset(Sort(matched))| == |multiset(matched)|;
    }
  }

  /** The links of a folder are RSS outlines in the order of their URLs,
      which is the sorted order of the file names. */
  lemma FolderMatchingSorted(title: string, prefix: string, files: seq<string>, baseUrl: string)
    requires prefix != [] && prefix[|prefix| - 1] == '.'
    ensures var f := FolderMatching(title, prefix, files, baseUrl);
      f.Some? ==> Sorted(Urls(f.value.links)) && forall l :: l in f.value.links ==> l.kind == "rss"
  {
    var f := FolderMatching(title, prefix, files, baseUrl);
    if f.Some? {
      var sorted := Sort(Matching(files, prefix));
      var links := f.value.links;
      forall i | 0 < i < |links| ensures LexLeq(Urls(links)[i - 1], Urls(links)[i]) {
        LexLeqPrefix(baseUrl, sorted[i - 1], sorted[i]);
      }
    }
  }

  /** A folder links every matching file... */
  lemma FolderMatchingLinksAll(title: string, prefix: string, files: seq<string>, baseUrl: string)
    requires prefix != [] && prefix[|prefix| - 1] == '.'
    ensures var f := FolderMatching(title, prefix, files, baseUrl);
      f.Some? ==>
        forall fn :: fn in files && StartsWith(fn, prefix) ==>
          '.' in fn && LinkFor(title, fn, baseUrl) in f.value.links
  {
    var f := FolderMatching(title, prefix, files, baseUrl);
    if f.Some? {
      var sorted := Sort(Matching(files, prefix));
      var links := f.value.links;
      forall fn | fn in files && StartsWith(fn, prefix)
        ensures '.' in fn && LinkFor(title, fn, baseUrl) in links
      {
        DotInMatch(fn, prefix);
        assert fn in multiset(sorted);
        var i :| 0 <= i < |sorted| && sorted[i] == fn;
        assert links[i] == LinkFor(title, fn, baseUrl);
      }
    }
  }

  /** ...and nothing else. */
  lemma FolderMatchingLinksOnly(title: string, prefix: string, files: seq<string>, baseUrl: string)
    requires prefix != [] && prefix[|prefix| - 1] == '.'
    ensures var f := FolderMatching(title, prefix, files, baseUrl);
      f.Some? ==>
        forall l :: l in f.value.links ==>
          exists fn :: fn in files && StartsWith(fn, prefix) && '.' in fn && l == LinkFor(title, fn, baseUrl)
  {
    var f := FolderMatching(title, prefix, files, baseUrl);
    if f.Some? {
      var matched := Matching(files, prefix);
      var sorted := Sort(matched);
      var links := f.value.links;
      forall l | l in links
        ensures exists fn :: fn in files && StartsWith(fn, prefix) && '.' in fn && l == LinkFor(title, fn, baseUrl)
      {
        var i :| 0 <= i < |links| && links[i] == l;
        assert sorted[i] in multiset(matched);
        DotInMatch(sorted[i], prefix);
      }
    }
  }

  /** A title's folder carries the title and at least one link. */
  lemma FolderForShape(title: string, files: seq<string>, baseUrl: string)
    ensures var f := FolderFor(title, files, baseUrl);
      f.Some? ==> f.value.text == title && f.value.links != []
  {
    var prefix := PrefixOf(title);
    assert prefix[|prefix| - 1] == '.';
    FolderMatchingExists(title, prefix, files, baseUrl);
  }

  /** What the title loop produces: the folders and the number of titles
      without one. */
  datatype Outlines = Outlines(folders: seq<Folder>, missing: nat)

  /** One pass of the title loop: a title without a folder is counted. */
  function AddFolder(o: Outlines, f: Option<Folder>): Outlines {
    match f
    case None => Outlines(o.folders, o.missing + 1)
    case Some(folder) => Outlines(o.folders + [folder], o.missing)
  }

  /** The title loop of `main` over `titles`. */
  function FoldersSpec(titles: seq<string>, files: seq<string>, baseUrl: string): Outlines {
    if titles == [] then Outlines([], 0)
    else AddFolder(FoldersSpec(titles[..|titles| - 1], files, baseUrl), FolderFor(titles[|titles| - 1], files, baseUrl))
  }

  /** The loop's step: one more title adds its folder or counts as missing. */
  lemma FoldersSpecSnoc(titles: seq<string>, i: nat, files: seq<string>, baseUrl: string)
    requires i < |titles|
    ensures FoldersSpec(titles[..i + 1], files, baseUrl)
      == AddFolder(FoldersSpec(titles[..i], files, baseUrl), FolderFor(titles[i], files, baseUrl))
  {
    assert titles[..i + 1][..i] == titles[..i];
  }

  ghost predicate DistinctTitles(titles: seq<string>) {
    forall i, j :: 0 <= i < j < |titles| ==> titles[i] != titles[j]
  }

  /** Every title so far is accounted for once, each folder belongs to one
      of them and links something, and distinct titles give distinct
      folders. */
  ghost predicate Accounts(titles: seq<string>, o: Outlines) {
    && |o.folders| + o.missing == |titles|
    && (forall f :: f in o.folders ==> f.text in titles && f.links != [])
    && (DistinctTitles(titles) ==> forall i, j :: 0 <= i < j < |o.folders| ==> o.folders[i].text != o.folders[j].text)
  }

  lemma AccountsStep(titles: seq<string>, t: string, o: Outlines, f: Option<Folder>)
    requires Accounts(titles, o)
    requires f.Some? ==> f.value.text == t && f.value.links != []
    ensures Accounts(titles + [t], AddFolder(o, f))
  {
    var ts := titles + [t];
    assert forall x :: x in titles ==> x in ts;
    if DistinctTitles(ts) {
      forall i, j | 0 <= i < j < |titles| ensures titles[i] != titles[j] {
        assert titles[i] == ts[i] && titles[j] == ts[j];
      }
    }
    if f.Some? {
      var fs := o.folders + [f.value];
      if DistinctTitles(ts) {
        forall i, j | 0 <= i < j < |fs| ensures fs[i].text != fs[j].text {
          assert fs[i] == o.folders[i];
          if j < |o.folders| {
            assert fs[j] == o.folders[j];
          } else {
            var k :| 0 <= k < |titles| && titles[k] == fs[i].text;
            assert ts[k] == fs[i].text && ts[|titles|] == t;
          }
        }
      }
    }
  }

  /** Every title is accounted for once: it has a folder or is counted
      missing. Each folder belongs to a title and links at least one file,
      and distinct titles give folders with distinct texts. */
  lemma {:induction false} FoldersAccount(titles: seq<string>, files: seq<string>, baseUrl: string)
    ensures Accounts(titles, FoldersSpec(titles, files, baseUrl))
  {
    if titles != [] {
      var init, t := titles[..|titles| - 1], titles[|titles| - 1];
      assert titles == init + [t];
      FoldersAccount(init, files, baseUrl);
      FolderForShape(t, files, baseUrl);
      AccountsStep(init, t, FoldersSpec(init, files, baseUrl), FolderFor(t, files, baseUrl));
    }
  }

  /** `parse_opml_titles`: the titles of the feed outlines, first
      occurrence of each, in document order. */
  method ParseOpmlTitles(els: seq<Element>) returns (titles: seq<string>)
    ensures titles == Dedup(TitleList(els), Id)
    ensures forall i, j :: 0 <= i < j < |titles| ==> titles[i] != titles[j]
    ensures forall t :: t in titles <==> exists f :: f in Candidates(els) && f.title == t
  {
    var all: seq<string> := [];
    for i := 0 to |els|
      invariant all == TitleList(els[..i])
    {
      assert els[..i + 1][..i] == els[..i];
      var f := FeedOf(els[i]);
      if f.Some? {
        all := all + [f.value.title];
      }
    }
    assert els[..|els|] == els;
    titles := DedupByKey(all, Id);
    DedupIsFirstOccurrences(all, Id);
    forall i, j | 0 <= i < j < |titles| ensures titles[i] != titles[j] {
      assert Id(titles[i]) != Id(titles[j]);
    }
    TitleListTitles(els);
    forall t ensures t in titles <==> t in all {
      assert t in titles <==> Id(t) in KeySet(titles, Id);
      assert t in all <==> Id(t) in KeySet(all, Id);
    }
  }

  function Id(t: string): string { t }

  /** The titles of the candidate feeds, before de-duplication. */
  function TitleList(els: seq<Element>): seq<string> {
    if els == [] then []
    else
      var before := TitleList(els[..|els| - 1]);
      match FeedOf(els[|els| - 1])
      case Some(f) => before + [f.title]
      case None => before
  }

  lemma {:induction false} TitleListTitles(els: seq<Element>)
    ensures forall t :: t in TitleList(els) <==> exists f :: f in Candidates(els) && f.title == t
  {
    if els != [] {
      TitleListTitles(els[..|els| - 1]);
    }
  }

  /** The base URL: the argument, else the environment's, stripped; it must
      end with "/". */
  function BaseUrl(argument: string, setting: string): (r: Result<string, string>)
    ensures r.Ok? <==> EndsWith(Strip(if argument != "" then argument else setting), "/")
    ensures r.Ok? ==> r.value == Strip(if argument != "" then argument else setting) && r.value != []
  {
    var base := Strip(if argument != "" then argument else setting);
    if !EndsWith(base, "/") then
      Err("PUBLIC_BASE_URL must be set and must end with '/' (e.g. https://.../feeds/)")
    else Ok(base)
  }

  /** `main`: check the base URL, read the titles, keep the listing's `.xml`
      names, and build a folder per title that has files. */
  method BuildTranslatedOpml(els: seq<Element>, listing: seq<string>, collection: string,
                             baseArgument: string, baseSetting: string)
    returns (r: Result<(Opml, nat), string>)
    ensures r.Err? <==> BaseUrl(baseArgument, baseSetting).Err?
    ensures r.Ok? ==>
      var o := FoldersSpec(Dedup(TitleList(els), Id), XmlFiles(listing), BaseUrl(baseArgument, baseSetting).value);
      r.value == (Opml(collection, o.folders), o.missing)
  {
    var base := BaseUrl(baseArgument, baseSetting);
    if base.Err? {
      return Err(base.error);
    }
    var titles := ParseOpmlTitles(els);
    var files := XmlFiles(listing);
    var folders: seq<Folder> := [];
    var missing: nat := 0;
    for i := 0 to |titles|
      invariant Outlines(folders, missing) == FoldersSpec(titles[..i], files, base.value)
    {
      var folder := FolderFor(titles[i], files, base.value);
      FoldersSpecSnoc(titles, i, files, base.value);
      if folder.None? {
        missing := missing + 1;
      } else {
        folders := folders + [folder.value];
      }
    }
    assert titles[..|titles|] == titles;
    r := Ok((Opml(collection, folders), missing));
  }

  /** A slug holds no dot. */
  lemma SlugHasNoDot(title: string)
    ensures '.' !in Slugify(title)
  {
    SlugifyWellFormed(title);
    var s := Slugify(title);
    forall i | 0 <= i < |s| ensures s[i] != '.' {
      assert IsSlugChar(s[i]) || s[i] == '-';
    }
  }

  /** Since slugs hold no dot, a file written by the translator for one
      title starts with the prefix of another title exactly when the two
      titles have the same slug. */
  lemma FileMatchesItsSlug(title: string, other: string, lang: string)
    ensures StartsWith(FileName(other, lang), PrefixOf(title)) <==> Slugify(title) == Slugify(other)
  {
    SlugHasNoDot(title);
    SlugHasNoDot(other);
    FileNameOfMatches(Slugify(title), Slugify(other), lang);
  }

  lemma FileNameOfMatches(s: string, o: string, lang: string)
    requires '.' !in s && '.' !in o
    ensures StartsWith(FileNameOf(o, lang), s + ".") <==> s == o
  {
    var fn := FileNameOf(o, lang);
    var p := s + ".";
    assert fn == o + ("." + lang + ".xml");
    if s == o {
      assert fn[..|p|] == p;
    } else if |s| < |o| {
      assert fn[|s|] == o[|s|] && o[|s|] in o;
      assert p[|s|] == '.';
      assert fn[..|p|][|s|] != p[|s|];
    } else if |s| > |o| {
      assert fn[|o|] == '.';
      assert p[|o|] == s[|o|] && s[|o|] in s;
      assert |fn| > |p| ==> fn[..|p|][|o|] != p[|o|];
    } else {
      var k :| 0 <= k < |s| && s[k] != o[k];
      assert fn[k] == o[k] && p[k] == s[k];
      assert |fn| > |p| ==> fn[..|p|][k] != p[k];
    }
  }

  /** The language part of a file the translator wrote is the language,
      when the language holds no dot. */
  lemma LabelOfFileName(s: string, lang: string)
    requires '.' !in s && '.' !in lang
    ensures '.' in FileNameOf(s, lang)
    ensures Label(FileNameOf(s, lang)) == lang
  {
    var fn := FileNameOf(s, lang);
    assert fn[|s|] == '.';
    var c := "xml";
    assert '.' !in c;
    var bc := lang + "." + c;
    SplitNoSep(c);
    SplitAt(lang, c);
    SplitAt(s, bc);
    assert fn == s + "." + bc;
  }

  lemma SplitNoSep(s: string)
    requires '.' !in s
    ensures Split(s, '.') == [s]
  {
    assert IndexOf(s, '.') == |s|;
  }

  lemma SplitAt(a: string, rest: string)
    requires '.' !in a
    ensures Split(a + "." + rest, '.') == [a] + Split(rest, '.')
  {
    var s := a + "." + rest;
    assert s[|a|] == '.';
    assert forall i :: 0 <= i < |a| ==> s[i] == a[i];
    assert IndexOf(s, '.') == |a|;
    assert s[..|a|] == a;
    assert s[|a| + 1..] == rest;
  }

  /** Lower-casing keeps the ".xml" ending of a file the translator wrote. */
  lemma FileNameIsXml(s: string, lang: string)
    ensures EndsWith(Lower(FileNameOf(s, lang)), ".xml")
  {
    var fn := FileNameOf(s, lang);
    var l := Lower(fn);
    var n := |fn|;
    assert fn[n - 4] == '.' && fn[n - 3] == 'x' && fn[n - 2] == 'm' && fn[n - 1] == 'l';
    assert l[n - 4] == '.' && l[n - 3] == 'x' && l[n - 2] == 'm' && l[n - 1] == 'l';
    assert l[n - 4..] == ".xml";
  }

  /** The two scripts agree: every file the translator wrote for a source
      title (with a dot-free language) that is in the listing gets an
      outline in that title's folder, labelled with the upper-cased
      language and pointing at the base URL followed by the file name. */
  lemma TranslatedFileIsLinked(title: string, lang: string, listing: seq<string>, baseUrl: string)
    requires '.' !in lang && FileName(title, lang) in listing
    ensures var f := FolderFor(title, XmlFiles(listing), baseUrl);
      && f.Some?
      && Link(title + " (" + Upper(lang) + " translated)", "rss", baseUrl + FileName(title, lang)) in f.value.links
  {
    var fn := FileName(title, lang);
    SlugHasNoDot(title);
    FileNameIsXml(Slugify(title), lang);
    FileNameOfMatches(Slugify(title), Slugify(title), lang);
    LabelOfFileName(Slugify(title), lang);
    FolderMatchingLinksAll(title, PrefixOf(title), XmlFiles(listing), baseUrl);
    assert FolderFor(title, XmlFiles(listing), baseUrl) == FolderMatching(title, PrefixOf(title), XmlFiles(listing), baseUrl);
    assert fn in XmlFiles(listing) && StartsWith(fn, PrefixOf(title));
  }
}
