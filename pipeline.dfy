/** The translation pipeline of scripts/translate_rss.py: the SQLite store
    (translation cache and seen items), the per-entry step, the per-feed
    loop and `main`. Everything the script reaches over the network or
    through a library (feedparser, requests, BeautifulSoup, dateutil, the
    OpenAI client, SHA-1) is a function field of `World`. */
module Pipeline {
  import opened Text
  import opened Wrappers
  import opened Slug
  import opened Distinct
  import opened SourceText
  import opened RssWriter
  import opened FeedList

  /** One row of `translated_cache`, without its `created_at` clock
      reading. */
  datatype CacheRecord = CacheRecord(translator: string, targetLang: string, sourceLen: nat, translated: string)

  /** One feedparser entry; a missing attribute is "". */
  datatype Entry = Entry(id: string, link: string, title: string, summary: string, description: string,
                         published: string, updated: string)

  /** The code the script calls but that is not part of this model. */
  datatype World = World(
    sha1: string -> string,                 // hex SHA-1 of the UTF-8 text
    parseFeed: string -> seq<Entry>,        // feedparser.parse(url).entries
    fetch: string -> Option<string>,        // fetch_url: None on an error or a status >= 400
    mainText: string -> string,             // extract_main_text up to `get_text` ("" without a candidate)
    plainText: string -> string,            // BeautifulSoup(summary).get_text(" ", strip=True)
    formatDate: string -> Option<string>,   // dateparser.parse + strftime; None when it fails
    translate: (string, string) -> Option<string>)  // translator.translate(text, target_lang); None when it raises

  /** The translator's name and the target language of one run. */
  datatype Config = Config(translatorName: string, targetLang: string)

  /** The database contents: the cache by key, and `first_seen` by item id. */
  datatype State = State(cache: map<string, CacheRecord>, seen: map<string, string>)

  /** The SQLite connection of `load_db`, with its two tables. */
  class Store {
    var cache: map<string, CacheRecord>
    var seen: map<string, string>

    constructor (cache0: map<string, CacheRecord>, seen0: map<string, string>)
      ensures cache == cache0 && seen == seen0
    {
      cache := cache0;
      seen := seen0;
    }

    /** `cache_get`: the stored translation, if the key has a row. */
    method CacheGet(key: string) returns (r: Option<string>)
      ensures key in cache ==> r == Some(cache[key].translated)
      ensures key !in cache ==> r == None
    {
      if key in cache {
        r := Some(cache[key].translated);
      } else {
        r := None;
      }
    }

    /** `cache_put`: INSERT OR REPLACE, so a row for the key is replaced. */
    method CachePut(key: string, translator: string, targetLang: string, source: string, translated: string)
      modifies this
      ensures cache == old(cache)[key := CacheRecord(translator, targetLang, |source|, translated)]
      ensures seen == old(seen)
    {
      cache := cache[key := CacheRecord(translator, targetLang, |source|, translated)];
    }

    /** `mark_seen`: INSERT OR IGNORE, so an id keeps its first `first_seen`. */
    method MarkSeen(id: string, now: string)
      modifies this
      ensures id in old(seen) ==> seen == old(seen)
      ensures id !in old(seen) ==> seen == old(seen)[id := now]
      ensures cache == old(cache)
    {
      if id !in seen {
        seen := seen[id := now];
      }
    }

    /** `is_seen`. */
    method IsSeen(id: string) returns (b: bool)
      ensures b <==> id in seen
    {
      b := id in seen;
    }
  }

  /** Python's `s[:m]`; a negative `m` counts from the end. */
  function Take<T>(s: seq<T>, m: int): (r: seq<T>)
    ensures |r| <= |s| && r == s[..|r|]
    ensures m >= 0 ==> |r| == (if m <= |s| then m else |s|)
    ensures m < 0 ==> |r| == (if |s| + m >= 0 then |s| + m else 0)
  {
    if m >= 0 then (if m <= |s| then s[..m] else s)
    else if |s| + m >= 0 then s[..|s| + m] else []
  }

  /** The item id: SHA-1 of id, link and title run together. */
  function EntryId(w: World, e: Entry): string {
    w.sha1(e.id + e.link + e.title)
  }

  /** `summary`, else `description`. */
  function RawSummary(e: Entry): string {
    if e.summary != "" then e.summary else e.description
  }

  /** The RFC 822 date of `published`, else of `updated`; "" when there is
      neither or the date cannot be read. */
  function PubDate(w: World, e: Entry): string {
    var parsed := if e.published != "" then w.formatDate(e.published)
                  else if e.updated != "" then w.formatDate(e.updated)
                  else None;
    if parsed.Some? then parsed.value else ""
  }

  /** The article text of a link: nothing without a link or a page, else the
      main text with runs of blank lines collapsed. */
  function ArticleText(w: World, link: string): string {
    if link == "" then ""
    else
      var html := w.fetch(link);
      if html.None? || html.value == "" then "" else CollapseNewlines(w.mainText(html.value))
  }

  /** The text sent to the translator for an entry. */
  function SourceFor(w: World, e: Entry): string {
    var chosen := ChooseSource(ArticleText(w, e.link), w.plainText(RawSummary(e)));
    TruncateForTranslation(chosen, MaxTranslationChars)
  }

  /** The cache key: SHA-1 of "translator:language:text". */
  function CacheKey(w: World, cfg: Config, src: string): string {
    w.sha1(cfg.translatorName + ":" + cfg.targetLang + ":" + src)
  }

  /** A cache row with a non-empty translation. */
  predicate Filled(cache: map<string, CacheRecord>, key: string) {
    key in cache && cache[key].translated != ""
  }

  /** What one translation does: the value used, the cache after it, and
      the texts sent to the translator (none or one). */
  datatype Translated = Translated(value: string, cache: map<string, CacheRecord>, calls: seq<string>)

  /** A non-empty cached translation is reused; otherwise the translator is
      called, an empty answer falls back to the source text, and the value
      is written to the cache. A call that raises is handled like an empty
      answer: the script as written lets it end the run instead (see
      `StepAsWritten`). */
  function Translation(w: World, cfg: Config, cache: map<string, CacheRecord>, src: string): Translated {
    var key := CacheKey(w, cfg, src);
    if Filled(cache, key) then Translated(cache[key].translated, cache, [])
    else
      var answer := w.translate(src, cfg.targetLang);
      var value := if answer.Some? && answer.value != "" then answer.value else src;
      Translated(value, cache[key := CacheRecord(cfg.translatorName, cfg.targetLang, |src|, value)], [src])
  }

  /** After a translation the value is the non-empty cached one when there
      is such a row, and otherwise the translator's answer, or the source
      text when the answer is empty or the call raised; the cache holds that
      value under the text's key; the value is empty only for an empty
      text; no non-empty row is replaced; and the translator is called
      exactly when there was no non-empty row. */
  lemma TranslationCached(w: World, cfg: Config, cache: map<string, CacheRecord>, src: string)
    ensures var t := Translation(w, cfg, cache, src); var key := CacheKey(w, cfg, src);
      var answer := w.translate(src, cfg.targetLang);
      && (Filled(cache, key) ==> t.value == cache[key].translated)
      && (!Filled(cache, key) && answer.Some? && answer.value != "" ==> t.value == answer.value)
      && (!Filled(cache, key) && (answer.None? || answer.value == "") ==> t.value == src)
      && key in t.cache && t.cache[key].translated == t.value
      && (t.value == "" ==> src == "")
      && (t.calls == [] <==> Filled(cache, key))
      && (t.calls != [] ==> t.calls == [src])
      && (forall k :: Filled(cache, k) ==> k in t.cache && t.cache[k] == cache[k])
      && (forall k :: k in cache ==> k in t.cache)
  {
  }

  /** The original text shown under the translation: 600 characters and
      "..." when longer. */
  function Snippet(src: string): (r: string)
    ensures |src| <= 600 ==> r == src
    ensures |src| > 600 ==> |r| == 603 && StartsWith(src, r[..600]) && r[600..] == "..."
  {
    if |src| > 600 then src[..600] + "..." else src
  }

  /** `s.replace("\n", "<br/>")`. */
  function Breaks(s: string): string {
    ReplaceChar(s, '\n', "<br/>")
  }

  /** The item description: the translation, then the original snippet. */
  function Describe(translated: string, src: string): string {
    "<p><b>Translated:</b></p><p>" + Breaks(translated) + "</p>"
    + "<hr/><p><b>Original snippet:</b></p><p>" + Breaks(Snippet(src)) + "</p>"
  }

  /** What handling one entry does: the new state, the item (none for an
      entry already seen) and the translator calls. */
  datatype Stepped = Stepped(state: State, item: Option<Item>, calls: seq<string>)

  /** The body of the entry loop of `main`. */
  function Step(w: World, cfg: Config, st: State, e: Entry, now: string): Stepped {
    var eid := EntryId(w, e);
    if eid in st.seen then Stepped(st, None, [])
    else
      var src := SourceFor(w, e);
      var t := Translation(w, cfg, st.cache, src);
      var item := Item("[" + Upper(cfg.targetLang) + "] " + e.title, e.link, eid, PubDate(w, e), Describe(t.value, src));
      Stepped(State(t.cache, st.seen[eid := now]), Some(item), t.calls)
  }

  /** What handling a list of entries does. */
  datatype Outcome = Outcome(state: State, items: seq<Item>, calls: seq<string>)

  /** The entry loop of `main` over `entries`, from state `st`. */
  function FeedSpec(w: World, cfg: Config, st: State, entries: seq<Entry>, now: string): Outcome {
    if entries == [] then Outcome(st, [], [])
    else
      var o := FeedSpec(w, cfg, st, entries[..|entries| - 1], now);
      var s := Step(w, cfg, o.state, entries[|entries| - 1], now);
      Outcome(s.state, o.items + (if s.item.Some? then [s.item.value] else []), o.calls + s.calls)
  }

  /** `cache_get`, then, on a miss or an empty row, `translate` and
      `cache_put`. */
  method TranslateCached(db: Store, w: World, cfg: Config, src: string) returns (value: string, ghost calls: seq<string>)
    modifies db
    ensures Translated(value, db.cache, calls) == Translation(w, cfg, old(db.cache), src)
    ensures db.seen == old(db.seen)
  {
    var key := CacheKey(w, cfg, src);
    var hit := db.CacheGet(key);
    if hit.Some? && hit.value != "" {
      value := hit.value;
      calls := [];
    } else {
      var answer := w.translate(src, cfg.targetLang);
      value := if answer.Some? then answer.value else "";
      if value == "" {
        value := src;
      }
      db.CachePut(key, cfg.translatorName, cfg.targetLang, src, value);
      calls := [src];
    }
  }

  /** One pass of the entry loop: skip an entry already seen, otherwise
      translate it, build its item and mark it seen. */
  method ProcessEntry(db: Store, w: World, cfg: Config, e: Entry, now: string)
    returns (item: Option<Item>, ghost calls: seq<string>)
    modifies db
    ensures Stepped(State(db.cache, db.seen), item, calls) == Step(w, cfg, State(old(db.cache), old(db.seen)), e, now)
  {
    var eid := EntryId(w, e);
    var seen := db.IsSeen(eid);
    if seen {
      return None, [];
    }
    var src := SourceFor(w, e);
    var translated;
    translated, calls := TranslateCached(db, w, cfg, src);
    var desc := Describe(translated, src);
    item := Some(Item("[" + Upper(cfg.targetLang) + "] " + e.title, e.link, eid, PubDate(w, e), desc));
    db.MarkSeen(eid, now);
  }

  /** The entry loop of `main` for one feed: at most `maxItems` entries,
      as Python's slice takes them. */
  method ProcessFeed(db: Store, w: World, cfg: Config, entries: seq<Entry>, maxItems: int, now: string)
    returns (items: seq<Item>, ghost calls: seq<string>)
    modifies db
    ensures Outcome(State(db.cache, db.seen), items, calls)
         == FeedSpec(w, cfg, State(old(db.cache), old(db.seen)), Take(entries, maxItems), now)
  {
    var taken := Take(entries, maxItems);
    ghost var st0 := State(db.cache, db.seen);
    items, calls := [], [];
    for i := 0 to |taken|
      invariant Outcome(State(db.cache, db.seen), items, calls) == FeedSpec(w, cfg, st0, taken[..i], now)
    {
      FeedSpecSnoc(w, cfg, st0, taken[..i], taken[i], now);
      assert taken[..i + 1] == taken[..i] + [taken[i]];
      var item, c := ProcessEntry(db, w, cfg, taken[i], now);
      if item.Some? {
        items := items + [item.value];
      }
      calls := calls + c;
    }
    assert taken[..|taken|] == taken;
  }

  lemma FeedSpecSnoc(w: World, cfg: Config, st: State, entries: seq<Entry>, e: Entry, now: string)
    ensures var o := FeedSpec(w, cfg, st, entries, now);
      var s := Step(w, cfg, o.state, e, now);
      FeedSpec(w, cfg, st, entries + [e], now)
        == Outcome(s.state, o.items + (if s.item.Some? then [s.item.value] else []), o.calls + s.calls)
  {
    var all := entries + [e];
    assert all[..|all| - 1] == entries && all[|all| - 1] == e;
  }

  /** `b` keeps every key of `a` with its value. */
  ghost predicate Extends(a: map<string, string>, b: map<string, string>) {
    forall k :: k in a ==> k in b && b[k] == a[k]
  }

  /** `b` keeps every non-empty row of `a` as it is. */
  ghost predicate KeepsFilled(a: map<string, CacheRecord>, b: map<string, CacheRecord>) {
    forall k :: Filled(a, k) ==> k in b && b[k] == a[k]
  }

  lemma StepMonotone(w: World, cfg: Config, st: State, e: Entry, now: string)
    ensures var s := Step(w, cfg, st, e, now);
      Extends(st.seen, s.state.seen) && KeepsFilled(st.cache, s.state.cache)
      && EntryId(w, e) in s.state.seen
  {
    TranslationCached(w, cfg, st.cache, SourceFor(w, e));
  }

  /** The seen table only grows and keeps every `first_seen`, and no
      non-empty cached translation is replaced. */
  lemma {:induction false} FeedSpecMonotone(w: World, cfg: Config, st: State, entries: seq<Entry>, now: string)
    ensures var o := FeedSpec(w, cfg, st, entries, now);
      Extends(st.seen, o.state.seen) && KeepsFilled(st.cache, o.state.cache)
  {
    if entries != [] {
      var o := FeedSpec(w, cfg, st, entries[..|entries| - 1], now);
      FeedSpecMonotone(w, cfg, st, entries[..|entries| - 1], now);
      StepMonotone(w, cfg, o.state, entries[|entries| - 1], now);
    }
  }

  /** There are at most as many items as entries. */
  lemma {:induction false} FeedSpecCount(w: World, cfg: Config, st: State, entries: seq<Entry>, now: string)
    ensures |FeedSpec(w, cfg, st, entries, now).items| <= |entries|
  {
    if entries != [] {
      FeedSpecCount(w, cfg, st, entries[..|entries| - 1], now);
    }
  }

  /** A feed yields at most `maxItems` items when that is not negative. */
  lemma FeedItemsBound(w: World, cfg: Config, st: State, entries: seq<Entry>, maxItems: int, now: string)
    ensures |FeedSpec(w, cfg, st, Take(entries, maxItems), now).items| <= |entries|
    ensures maxItems >= 0 ==> |FeedSpec(w, cfg, st, Take(entries, maxItems), now).items| <= maxItems
  {
    FeedSpecCount(w, cfg, st, Take(entries, maxItems), now);
  }

  /** The guids of `items` were not in `before`, are in `after`, and no
      two are equal. */
  ghost predicate FreshGuids(items: seq<Item>, before: map<string, string>, after: map<string, string>) {
    && (forall i :: 0 <= i < |items| ==> items[i].guid !in before && items[i].guid in after)
    && (forall i, j :: 0 <= i < j < |items| ==> items[i].guid != items[j].guid)
  }

  lemma FreshGuidsAppend(items: seq<Item>, it: Item, before: map<string, string>, mid: map<string, string>,
                         after: map<string, string>)
    requires FreshGuids(items, before, mid) && Extends(before, mid) && Extends(mid, after)
    requires it.guid !in mid && it.guid in after
    ensures FreshGuids(items + [it], before, after)
  {
    var r := items + [it];
    forall i | 0 <= i < |r| ensures r[i].guid !in before && r[i].guid in after {
      if i < |items| {
        assert r[i] == items[i];
      }
    }
    forall i, j | 0 <= i < j < |r| ensures r[i].guid != r[j].guid {
      assert r[i] == items[i];
      if j < |items| {
        assert r[j] == items[j];
      }
    }
  }

  lemma FreshGuidsLater(items: seq<Item>, before: map<string, string>, mid: map<string, string>,
                        after: map<string, string>)
    requires FreshGuids(items, before, mid) && Extends(mid, after)
    ensures FreshGuids(items, before, after)
  {
  }

  /** Every item's guid is new: it was not seen before the feed, it is seen
      after it, and no two items share one. */
  lemma {:induction false} FeedSpecGuids(w: World, cfg: Config, st: State, entries: seq<Entry>, now: string)
    ensures var o := FeedSpec(w, cfg, st, entries, now);
      FreshGuids(o.items, st.seen, o.state.seen)
  {
    if entries != [] {
      var init := entries[..|entries| - 1];
      var o := FeedSpec(w, cfg, st, init, now);
      var s := Step(w, cfg, o.state, entries[|entries| - 1], now);
      FeedSpecGuids(w, cfg, st, init, now);
      FeedSpecMonotone(w, cfg, st, init, now);
      StepMonotone(w, cfg, o.state, entries[|entries| - 1], now);
      if s.item.Some? {
        FreshGuidsAppend(o.items, s.item.value, st.seen, o.state.seen, s.state.seen);
      } else {
        FreshGuidsLater(o.items, st.seen, o.state.seen, s.state.seen);
        assert o.items + [] == o.items;
      }
    }
  }

  /** After a feed every entry's id is in the seen table. */
  lemma {:induction false} FeedSpecSeesAll(w: World, cfg: Config, st: State, entries: seq<Entry>, now: string)
    ensures forall e :: e in entries ==> EntryId(w, e) in FeedSpec(w, cfg, st, entries, now).state.seen
  {
    if entries != [] {
      var init := entries[..|entries| - 1];
      var o := FeedSpec(w, cfg, st, init, now);
      FeedSpecSeesAll(w, cfg, st, init, now);
      StepMonotone(w, cfg, o.state, entries[|entries| - 1], now);
      forall e | e in entries ensures EntryId(w, e) in FeedSpec(w, cfg, st, entries, now).state.seen {
        if e != entries[|entries| - 1] {
          var k :| 0 <= k < |entries| && entries[k] == e;
          assert init[k] == e;
        }
      }
    }
  }

  /** Entries that are all seen produce nothing, call nothing and change
      nothing. */
  lemma {:induction false} FeedSpecQuiet(w: World, cfg: Config, st: State, entries: seq<Entry>, now: string)
    requires forall e :: e in entries ==> EntryId(w, e) in st.seen
    ensures FeedSpec(w, cfg, st, entries, now) == Outcome(st, [], [])
  {
    if entries != [] {
      FeedSpecQuiet(w, cfg, st, entries[..|entries| - 1], now);
    }
  }

  /** Running a feed again on the same entries right after yields no item
      and no translator call, and leaves the database as it is. */
  lemma RerunIsQuiet(w: World, cfg: Config, st: State, entries: seq<Entry>, now: string, later: string)
    ensures var o := FeedSpec(w, cfg, st, entries, now);
      FeedSpec(w, cfg, o.state, entries, later) == Outcome(o.state, [], [])
  {
    FeedSpecSeesAll(w, cfg, st, entries, now);
    FeedSpecQuiet(w, cfg, FeedSpec(w, cfg, st, entries, now).state, entries, later);
  }

  /** Every non-empty text sent to the translator has a non-empty cached
      translation afterwards. */
  lemma {:induction false} FeedSpecCallsCached(w: World, cfg: Config, st: State, entries: seq<Entry>, now: string)
    ensures var o := FeedSpec(w, cfg, st, entries, now);
      forall c :: c in o.calls && c != "" ==> Filled(o.state.cache, CacheKey(w, cfg, c))
  {
    if entries != [] {
      var init := entries[..|entries| - 1];
      var o := FeedSpec(w, cfg, st, init, now);
      var s := Step(w, cfg, o.state, entries[|entries| - 1], now);
      assert FeedSpec(w, cfg, st, entries, now) == Outcome(s.state, FeedSpec(w, cfg, st, entries, now).items, o.calls + s.calls);
      FeedSpecCallsCached(w, cfg, st, init, now);
      StepMonotone(w, cfg, o.state, entries[|entries| - 1], now);
      StepCallsFilled(w, cfg, o.state, entries[|entries| - 1], now);
      FilledAppend(w, cfg, o.state.cache, s.state.cache, o.calls, s.calls);
    }
  }

  /** A text a step sends to the translator, when not empty, has a
      non-empty cached translation after the step. */
  lemma StepCallsFilled(w: World, cfg: Config, st: State, e: Entry, now: string)
    ensures var s := Step(w, cfg, st, e, now);
      forall c :: c in s.calls && c != "" ==> Filled(s.state.cache, CacheKey(w, cfg, c))
  {
    if EntryId(w, e) !in st.seen {
      TranslationCached(w, cfg, st.cache, SourceFor(w, e));
    }
  }

  lemma FilledAppend(w: World, cfg: Config, mid: map<string, CacheRecord>, after: map<string, CacheRecord>,
                     a: seq<string>, b: seq<string>)
    requires KeepsFilled(mid, after)
    requires forall c :: c in a && c != "" ==> Filled(mid, CacheKey(w, cfg, c))
    requires forall c :: c in b && c != "" ==> Filled(after, CacheKey(w, cfg, c))
    ensures forall c :: c in a + b && c != "" ==> Filled(after, CacheKey(w, cfg, c))
  {
  }

  /** Within one feed the translator is never asked twice for the same
      non-empty text: the first answer is cached and reused. */
  lemma {:induction false} NoRepeatedCalls(w: World, cfg: Config, st: State, entries: seq<Entry>, now: string)
    ensures NoRepeats(FeedSpec(w, cfg, st, entries, now).calls)
  {
    if entries != [] {
      var init := entries[..|entries| - 1];
      var o := FeedSpec(w, cfg, st, init, now);
      var e := entries[|entries| - 1];
      var s := Step(w, cfg, o.state, e, now);
      NoRepeatedCalls(w, cfg, st, init, now);
      FeedSpecCallsCached(w, cfg, st, init, now);
      StepCallsUnfilled(w, cfg, o.state, e, now);
      CachedNotCalled(w, cfg, o.state.cache, o.calls, s.calls);
      NoRepeatsAppend(o.calls, s.calls);
    }
  }

  /** One step calls the translator at most once, and only for a text with
      no non-empty cached translation. */
  lemma StepCallsUnfilled(w: World, cfg: Config, st: State, e: Entry, now: string)
    ensures var calls := Step(w, cfg, st, e, now).calls;
      |calls| <= 1 && forall c :: c in calls ==> !Filled(st.cache, CacheKey(w, cfg, c))
  {
    if EntryId(w, e) !in st.seen {
      TranslationCached(w, cfg, st.cache, SourceFor(w, e));
    }
  }

  /** One output file: its name in the output directory and its text. */
  datatype OutputFile = OutputFile(name: string, content: string)

  /** The title of a translated feed. */
  function OutTitle(title: string, lang: string): string {
    title + " (Translated → " + lang + ")"
  }

  /** The file name of a translated feed: the title's slug, the language
      and the ".xml" extension, separated by dots. */
  function FileName(title: string, lang: string): string {
    FileNameOf(Slugify(title), lang)
  }

  function FileNameOf(slug: string, lang: string): string {
    slug + "." + lang + ".xml"
  }

  /** What translating one feed does: the database after it, the file
      written, and the translator calls. */
  datatype FeedRun = FeedRun(state: State, file: OutputFile, calls: seq<string>)

  /** One pass of the feed loop of `main`: read the feed's entries,
      translate them, and render the file. */
  function RunFeed(w: World, cfg: Config, st: State, f: Feed, maxItems: int, now: string): FeedRun {
    var o := FeedSpec(w, cfg, st, Take(w.parseFeed(f.url), maxItems), now);
    FeedRun(o.state, FeedFile(f, cfg.targetLang, o.items, now), o.calls)
  }

  /** The file written for a feed: its name and the RSS of its items. */
  function FeedFile(f: Feed, lang: string, items: seq<Item>, now: string): OutputFile {
    OutputFile(FileName(f.title, lang), JoinLines(RssLines(OutTitle(f.title, lang), items, now)))
  }

  /** What the feed loop of `main` does: the database after it, the files
      written in order, and the translator calls. */
  datatype RunOutcome = RunOutcome(state: State, files: seq<OutputFile>, calls: seq<string>)

  /** The feed loop of `main` over `feeds`. */
  function RunSpec(w: World, cfg: Config, st: State, feeds: seq<Feed>, maxItems: int, now: string): RunOutcome {
    if feeds == [] then RunOutcome(st, [], [])
    else
      var r := RunSpec(w, cfg, st, feeds[..|feeds| - 1], maxItems, now);
      var x := RunFeed(w, cfg, r.state, feeds[|feeds| - 1], maxItems, now);
      RunOutcome(x.state, r.files + [x.file], r.calls + x.calls)
  }

  /** The last feed of the run starts from the state the others leave. */
  lemma RunSpecLast(w: World, cfg: Config, st: State, feeds: seq<Feed>, maxItems: int, now: string)
    requires feeds != []
    ensures var r := RunSpec(w, cfg, st, feeds[..|feeds| - 1], maxItems, now);
      var o := FeedSpec(w, cfg, r.state, Take(w.parseFeed(feeds[|feeds| - 1].url), maxItems), now);
      var all := RunSpec(w, cfg, st, feeds, maxItems, now);
      all.state == o.state && all.calls == r.calls + o.calls
  {
  }

  lemma RunSpecSnoc(w: World, cfg: Config, st: State, feeds: seq<Feed>, f: Feed, maxItems: int, now: string)
    ensures var r := RunSpec(w, cfg, st, feeds, maxItems, now);
      var x := RunFeed(w, cfg, r.state, f, maxItems, now);
      RunSpec(w, cfg, st, feeds + [f], maxItems, now) == RunOutcome(x.state, r.files + [x.file], r.calls + x.calls)
  {
    var all := feeds + [f];
    assert all[..|all| - 1] == feeds && all[|all| - 1] == f;
  }

  /** The feed loop of `main`: translate every feed and write its file. */
  method RunFeeds(db: Store, w: World, cfg: Config, feeds: seq<Feed>, maxItems: int, now: string)
    returns (files: seq<OutputFile>, ghost calls: seq<string>)
    modifies db
    ensures RunOutcome(State(db.cache, db.seen), files, calls)
         == RunSpec(w, cfg, State(old(db.cache), old(db.seen)), feeds, maxItems, now)
  {
    ghost var st0 := State(db.cache, db.seen);
    files, calls := [], [];
    for i := 0 to |feeds|
      invariant RunOutcome(State(db.cache, db.seen), files, calls) == RunSpec(w, cfg, st0, feeds[..i], maxItems, now)
    {
      assert feeds[..i + 1][..i] == feeds[..i];
      var f := feeds[i];
      var entries := w.parseFeed(f.url);
      var items, c := ProcessFeed(db, w, cfg, entries, maxItems, now);
      var xml := BuildRss(OutTitle(f.title, cfg.targetLang), items, now);
      files := files + [OutputFile(FileName(f.title, cfg.targetLang), xml)];
      calls := calls + c;
    }
    assert feeds[..|feeds|] == feeds;
  }

  /** One file per feed, in feed order, each named after its feed. */
  ghost predicate NamedAfter(files: seq<OutputFile>, feeds: seq<Feed>, lang: string) {
    |files| == |feeds| && forall i :: 0 <= i < |feeds| ==> files[i].name == FileName(feeds[i].title, lang)
  }

  lemma NamedAfterAppend(files: seq<OutputFile>, feeds: seq<Feed>, file: OutputFile, f: Feed, lang: string)
    requires NamedAfter(files, feeds, lang) && file.name == FileName(f.title, lang)
    ensures NamedAfter(files + [file], feeds + [f], lang)
  {
    var fs, gs := files + [file], feeds + [f];
    forall i | 0 <= i < |gs| ensures fs[i].name == FileName(gs[i].title, lang) {
      if i < |feeds| {
        assert fs[i] == files[i] && gs[i] == feeds[i];
      }
    }
  }

  /** One file per feed, in feed order, named after the feed's slug and
      the target language. */
  lemma {:induction false} RunSpecFiles(w: World, cfg: Config, st: State, feeds: seq<Feed>, maxItems: int, now: string)
    ensures NamedAfter(RunSpec(w, cfg, st, feeds, maxItems, now).files, feeds, cfg.targetLang)
  {
    if feeds != [] {
      var init, f := feeds[..|feeds| - 1], feeds[|feeds| - 1];
      assert init + [f] == feeds;
      var r := RunSpec(w, cfg, st, init, maxItems, now);
      var x := RunFeed(w, cfg, r.state, f, maxItems, now);
      RunSpecFiles(w, cfg, st, init, maxItems, now);
      NamedAfterAppend(r.files, init, x.file, f, cfg.targetLang);
    }
  }

  /** Over the whole run the seen table only grows and keeps every
      `first_seen`, and no non-empty cached translation is replaced. */
  lemma {:induction false} RunSpecMonotone(w: World, cfg: Config, st: State, feeds: seq<Feed>, maxItems: int, now: string)
    ensures var r := RunSpec(w, cfg, st, feeds, maxItems, now);
      Extends(st.seen, r.state.seen) && KeepsFilled(st.cache, r.state.cache)
  {
    if feeds != [] {
      var init := feeds[..|feeds| - 1];
      var r := RunSpec(w, cfg, st, init, maxItems, now);
      RunSpecMonotone(w, cfg, st, init, maxItems, now);
      FeedSpecMonotone(w, cfg, r.state, Take(w.parseFeed(feeds[|feeds| - 1].url), maxItems), now);
      assert RunSpec(w, cfg, st, feeds, maxItems, now).state
          == FeedSpec(w, cfg, r.state, Take(w.parseFeed(feeds[|feeds| - 1].url), maxItems), now).state;
    }
  }

  /** The items of every feed of the run, in the order they are built. */
  ghost function RunItems(w: World, cfg: Config, st: State, feeds: seq<Feed>, maxItems: int, now: string): seq<Item> {
    if feeds == [] then []
    else
      var r := RunSpec(w, cfg, st, feeds[..|feeds| - 1], maxItems, now);
      RunItems(w, cfg, st, feeds[..|feeds| - 1], maxItems, now)
        + FeedSpec(w, cfg, r.state, Take(w.parseFeed(feeds[|feeds| - 1].url), maxItems), now).items
  }

  lemma FreshGuidsConcat(a: seq<Item>, b: seq<Item>, before: map<string, string>, mid: map<string, string>,
                         after: map<string, string>)
    requires FreshGuids(a, before, mid) && FreshGuids(b, mid, after)
    requires Extends(before, mid) && Extends(mid, after)
    ensures FreshGuids(a + b, before, after)
  {
    var r := a + b;
    forall i | 0 <= i < |r| ensures r[i].guid !in before && r[i].guid in after {
      if i < |a| {
        assert r[i] == a[i];
      } else {
        assert r[i] == b[i - |a|];
      }
    }
    forall i, j | 0 <= i < j < |r| ensures r[i].guid != r[j].guid {
      if j < |a| {
        assert r[i] == a[i] && r[j] == a[j];
      } else if i >= |a| {
        assert r[i] == b[i - |a|] && r[j] == b[j - |a|];
      } else {
        assert r[i] == a[i] && r[j] == b[j - |a|];
      }
    }
  }

  /** Across all feeds of a run, every item's guid was not seen before the
      run, is seen after it, and no two items share one, even when two
      feeds carry the same entry. */
  lemma {:induction false} RunSpecGuids(w: World, cfg: Config, st: State, feeds: seq<Feed>, maxItems: int, now: string)
    ensures FreshGuids(RunItems(w, cfg, st, feeds, maxItems, now), st.seen, RunSpec(w, cfg, st, feeds, maxItems, now).state.seen)
  {
    if feeds != [] {
      var init := feeds[..|feeds| - 1];
      var r := RunSpec(w, cfg, st, init, maxItems, now);
      var entries := Take(w.parseFeed(feeds[|feeds| - 1].url), maxItems);
      var o := FeedSpec(w, cfg, r.state, entries, now);
      assert RunSpec(w, cfg, st, feeds, maxItems, now).state == o.state;
      RunSpecGuids(w, cfg, st, init, maxItems, now);
      RunSpecMonotone(w, cfg, st, init, maxItems, now);
      FeedSpecGuids(w, cfg, r.state, entries, now);
      FeedSpecMonotone(w, cfg, r.state, entries, now);
      FreshGuidsConcat(RunItems(w, cfg, st, init, maxItems, now), o.items, st.seen, r.state.seen, o.state.seen);
    }
  }

  /** A text sent to the translator during a feed had no non-empty cached
      translation when the feed began. */
  lemma {:induction false} FeedSpecCallsUnfilled(w: World, cfg: Config, st: State, entries: seq<Entry>, now: string)
    ensures forall c :: c in FeedSpec(w, cfg, st, entries, now).calls ==> !Filled(st.cache, CacheKey(w, cfg, c))
  {
    if entries != [] {
      var init := entries[..|entries| - 1];
      var o := FeedSpec(w, cfg, st, init, now);
      var s := Step(w, cfg, o.state, entries[|entries| - 1], now);
      assert FeedSpec(w, cfg, st, entries, now).calls == o.calls + s.calls;
      FeedSpecCallsUnfilled(w, cfg, st, init, now);
      FeedSpecMonotone(w, cfg, st, init, now);
      StepCallsUnfilled(w, cfg, o.state, entries[|entries| - 1], now);
      UnfilledAppend(w, cfg, st.cache, o.state.cache, o.calls, s.calls);
    }
  }

  lemma UnfilledAppend(w: World, cfg: Config, before: map<string, CacheRecord>, mid: map<string, CacheRecord>,
                       a: seq<string>, b: seq<string>)
    requires KeepsFilled(before, mid)
    requires forall c :: c in a ==> !Filled(before, CacheKey(w, cfg, c))
    requires forall c :: c in b ==> !Filled(mid, CacheKey(w, cfg, c))
    ensures forall c :: c in a + b ==> !Filled(before, CacheKey(w, cfg, c))
  {
  }

  /** Over the whole run every non-empty text sent to the translator has a
      non-empty cached translation afterwards. */
  lemma {:induction false} RunSpecCallsCached(w: World, cfg: Config, st: State, feeds: seq<Feed>, maxItems: int, now: string)
    ensures var r := RunSpec(w, cfg, st, feeds, maxItems, now);
      forall c :: c in r.calls && c != "" ==> Filled(r.state.cache, CacheKey(w, cfg, c))
  {
    if feeds != [] {
      var init := feeds[..|feeds| - 1];
      var r := RunSpec(w, cfg, st, init, maxItems, now);
      var entries := Take(w.parseFeed(feeds[|feeds| - 1].url), maxItems);
      RunSpecCallsCached(w, cfg, st, init, maxItems, now);
      FeedSpecMonotone(w, cfg, r.state, entries, now);
      FeedSpecCallsCached(w, cfg, r.state, entries, now);
    }
  }

  /** Over the whole run, across feeds as well as within one, the translator
      is never asked twice for the same non-empty text: the cache and the
      seen table are shared by all feeds of the run. */
  lemma {:induction false} RunNoRepeatedCalls(w: World, cfg: Config, st: State, feeds: seq<Feed>, maxItems: int, now: string)
    ensures NoRepeats(RunSpec(w, cfg, st, feeds, maxItems, now).calls)
  {
    if feeds != [] {
      var init := feeds[..|feeds| - 1];
      var r := RunSpec(w, cfg, st, init, maxItems, now);
      var entries := Take(w.parseFeed(feeds[|feeds| - 1].url), maxItems);
      var more := FeedSpec(w, cfg, r.state, entries, now).calls;
      RunSpecLast(w, cfg, st, feeds, maxItems, now);
      RunNoRepeatedCalls(w, cfg, st, init, maxItems, now);
      RunSpecCallsCached(w, cfg, st, init, maxItems, now);
      NoRepeatedCalls(w, cfg, r.state, entries, now);
      FeedSpecCallsUnfilled(w, cfg, r.state, entries, now);
      CachedNotCalled(w, cfg, r.state.cache, r.calls, more);
      NoRepeatsAppend(r.calls, more);
    }
  }

  lemma CachedNotCalled(w: World, cfg: Config, cache: map<string, CacheRecord>, a: seq<string>, b: seq<string>)
    requires forall c :: c in a && c != "" ==> Filled(cache, CacheKey(w, cfg, c))
    requires forall c :: c in b ==> !Filled(cache, CacheKey(w, cfg, c))
    ensures forall c :: c in a && c != "" ==> c !in b
  {
  }

  /** No non-empty text occurs twice. */
  ghost predicate NoRepeats(calls: seq<string>) {
    forall i, j :: 0 <= i < j < |calls| && calls[i] == calls[j] ==> calls[i] == ""
  }

  lemma NoRepeatsAppend(a: seq<string>, b: seq<string>)
    requires NoRepeats(a) && NoRepeats(b)
    requires forall c :: c in a && c != "" ==> c !in b
    ensures NoRepeats(a + b)
  {
    var calls := a + b;
    forall i, j | 0 <= i < j < |calls| && calls[i] == calls[j] ensures calls[i] == "" {
      if j < |a| {
        assert calls[i] == a[i] && calls[j] == a[j];
      } else if i >= |a| {
        assert calls[i] == b[i - |a|] && calls[j] == b[j - |a|];
      } else {
        assert calls[i] == a[i] && calls[j] == b[j - |a|];
        assert a[i] in a && b[j - |a|] in b;
      }
    }
  }

  /** Every entry the run reads (the first `maxItems` of each feed) has its
      id in `seen`. */
  ghost predicate EntriesSeen(w: World, feeds: seq<Feed>, maxItems: int, seen: map<string, string>) {
    forall i :: 0 <= i < |feeds| ==> FeedSeen(w, feeds[i], maxItems, seen)
  }

  /** Every entry read from `f` has its id in `seen`. */
  ghost predicate FeedSeen(w: World, f: Feed, maxItems: int, seen: map<string, string>) {
    forall e :: e in Take(w.parseFeed(f.url), maxItems) ==> EntryId(w, e) in seen
  }

  lemma FeedSeenLater(w: World, f: Feed, maxItems: int, before: map<string, string>, after: map<string, string>)
    requires FeedSeen(w, f, maxItems, before) && Extends(before, after)
    ensures FeedSeen(w, f, maxItems, after)
  {
  }

  lemma EntriesSeenSnoc(w: World, init: seq<Feed>, f: Feed, maxItems: int, before: map<string, string>,
                        after: map<string, string>)
    requires EntriesSeen(w, init, maxItems, before) && Extends(before, after)
    requires FeedSeen(w, f, maxItems, after)
    ensures EntriesSeen(w, init + [f], maxItems, after)
  {
    var feeds := init + [f];
    forall i | 0 <= i < |feeds| ensures FeedSeen(w, feeds[i], maxItems, after) {
      if i < |init| {
        assert feeds[i] == init[i];
        FeedSeenLater(w, init[i], maxItems, before, after);
      }
    }
  }

  /** After the run every entry it read is in the seen table. */
  lemma {:induction false} RunSpecSeesAll(w: World, cfg: Config, st: State, feeds: seq<Feed>, maxItems: int, now: string)
    ensures EntriesSeen(w, feeds, maxItems, RunSpec(w, cfg, st, feeds, maxItems, now).state.seen)
  {
    if feeds != [] {
      var init, f := feeds[..|feeds| - 1], feeds[|feeds| - 1];
      assert init + [f] == feeds;
      var r := RunSpec(w, cfg, st, init, maxItems, now);
      var entries := Take(w.parseFeed(f.url), maxItems);
      var after := FeedSpec(w, cfg, r.state, entries, now).state.seen;
      assert RunSpec(w, cfg, st, feeds, maxItems, now).state.seen == after;
      RunSpecSeesAll(w, cfg, st, init, maxItems, now);
      FeedSpecMonotone(w, cfg, r.state, entries, now);
      FeedSpecSeesAll(w, cfg, r.state, entries, now);
      EntriesSeenSnoc(w, init, f, maxItems, r.state.seen, after);
    }
  }

  /** The file written for a feed with no new item. */
  function QuietFile(f: Feed, lang: string, now: string): OutputFile {
    OutputFile(FileName(f.title, lang), JoinLines(RssLines(OutTitle(f.title, lang), [], now)))
  }

  /** Each file is the item-less file of its feed. */
  ghost predicate QuietFiles(files: seq<OutputFile>, feeds: seq<Feed>, lang: string, now: string) {
    |files| == |feeds| && forall i :: 0 <= i < |feeds| ==> files[i] == QuietFile(feeds[i], lang, now)
  }

  lemma QuietFilesSnoc(files: seq<OutputFile>, feeds: seq<Feed>, f: Feed, lang: string, now: string)
    requires QuietFiles(files, feeds, lang, now)
    ensures QuietFiles(files + [QuietFile(f, lang, now)], feeds + [f], lang, now)
  {
    var fs, gs := files + [QuietFile(f, lang, now)], feeds + [f];
    forall i | 0 <= i < |gs| ensures fs[i] == QuietFile(gs[i], lang, now) {
      if i < |feeds| {
        assert fs[i] == files[i] && gs[i] == feeds[i];
      }
    }
  }

  lemma EntriesSeenInit(w: World, feeds: seq<Feed>, maxItems: int, seen: map<string, string>)
    requires feeds != [] && EntriesSeen(w, feeds, maxItems, seen)
    ensures EntriesSeen(w, feeds[..|feeds| - 1], maxItems, seen)
    ensures FeedSeen(w, feeds[|feeds| - 1], maxItems, seen)
  {
    var init := feeds[..|feeds| - 1];
    forall i | 0 <= i < |init| ensures FeedSeen(w, init[i], maxItems, seen) {
      assert init[i] == feeds[i];
    }
  }

  /** A feed whose entries are all seen adds no item, no call and no change,
      and its file is the item-less one. */
  lemma QuietFeed(w: World, cfg: Config, st: State, f: Feed, maxItems: int, now: string)
    requires FeedSeen(w, f, maxItems, st.seen)
    ensures RunFeed(w, cfg, st, f, maxItems, now) == FeedRun(st, QuietFile(f, cfg.targetLang, now), [])
  {
    FeedSpecQuiet(w, cfg, st, Take(w.parseFeed(f.url), maxItems), now);
  }

  /** A run whose entries are all seen calls nothing, changes nothing, and
      writes for every feed a file without items. */
  lemma {:induction false} RunSpecQuiet(w: World, cfg: Config, st: State, feeds: seq<Feed>, maxItems: int, now: string)
    requires EntriesSeen(w, feeds, maxItems, st.seen)
    ensures var r := RunSpec(w, cfg, st, feeds, maxItems, now);
      r.state == st && r.calls == [] && QuietFiles(r.files, feeds, cfg.targetLang, now)
  {
    if feeds != [] {
      var init, f := feeds[..|feeds| - 1], feeds[|feeds| - 1];
      assert init + [f] == feeds;
      EntriesSeenInit(w, feeds, maxItems, st.seen);
      RunSpecQuiet(w, cfg, st, init, maxItems, now);
      var r := RunSpec(w, cfg, st, init, maxItems, now);
      QuietFeed(w, cfg, st, f, maxItems, now);
      QuietFilesSnoc(r.files, init, f, cfg.targetLang, now);
    }
  }

  /** Running `main` again on the same feeds right after calls the
      translator for nothing, leaves the database as it is, and writes each
      feed's file without items. */
  lemma RunRerunIsQuiet(w: World, cfg: Config, st: State, feeds: seq<Feed>, maxItems: int, now: string, later: string)
    ensures var r := RunSpec(w, cfg, st, feeds, maxItems, now);
      var again := RunSpec(w, cfg, r.state, feeds, maxItems, later);
      again.state == r.state && again.calls == [] && QuietFiles(again.files, feeds, cfg.targetLang, later)
  {
    RunSpecSeesAll(w, cfg, st, feeds, maxItems, now);
    RunSpecQuiet(w, cfg, RunSpec(w, cfg, st, feeds, maxItems, now).state, feeds, maxItems, later);
  }

  /** `items` holds an item whose guid is `id`. */
  ghost predicate HasGuid(items: seq<Item>, id: string) {
    exists i :: 0 <= i < |items| && items[i].guid == id
  }

  /** The ids a feed newly marks seen are exactly the guids of its items:
      no id is marked without its item going into the feed's file. */
  lemma {:induction false} FeedSpecMarksItsItems(w: World, cfg: Config, st: State, entries: seq<Entry>, now: string)
    ensures var o := FeedSpec(w, cfg, st, entries, now);
      forall id :: (id in o.state.seen && id !in st.seen) <==> HasGuid(o.items, id)
  {
    if entries != [] {
      var init, e := entries[..|entries| - 1], entries[|entries| - 1];
      var o := FeedSpec(w, cfg, st, init, now);
      var s := Step(w, cfg, o.state, e, now);
      FeedSpecMarksItsItems(w, cfg, st, init, now);
      FeedSpecMonotone(w, cfg, st, init, now);
      StepMarks(w, cfg, o.state, e, now);
      if s.item.Some? {
        MarkedWithItem(o.items, s.item.value, st.seen, o.state.seen, s.state.seen, now);
      } else {
        assert o.items + [] == o.items;
      }
    }
  }

  /** The item an unseen entry yields: the title tagged with the target
      language, the entry's link, its id as guid, its publication date, and
      a description that embeds the translation now cached under the source
      text's key together with the source snippet. */
  lemma StepItem(w: World, cfg: Config, st: State, e: Entry, now: string)
    requires EntryId(w, e) !in st.seen
    ensures var s := Step(w, cfg, st, e, now); var src := SourceFor(w, e);
      var key := CacheKey(w, cfg, src);
      && s.item.Some? && key in s.state.cache
      && s.item.value == Item("[" + Upper(cfg.targetLang) + "] " + e.title, e.link, EntryId(w, e), PubDate(w, e),
                              Describe(s.state.cache[key].translated, src))
  {
    TranslationCached(w, cfg, st.cache, SourceFor(w, e));
  }

  /** One step marks the entry's id, with the date `now`, exactly when it
      builds an item, and that item's guid is the id. */
  lemma StepMarks(w: World, cfg: Config, st: State, e: Entry, now: string)
    ensures var s := Step(w, cfg, st, e, now); var eid := EntryId(w, e);
      && (eid in st.seen ==> s.state.seen == st.seen && s.item == None)
      && (eid !in st.seen ==> s.item.Some? && s.item.value.guid == eid && s.state.seen == st.seen[eid := now])
  {
  }

  lemma MarkedWithItem(items: seq<Item>, it: Item, before: map<string, string>, mid: map<string, string>,
                       after: map<string, string>, now: string)
    requires forall id :: (id in mid && id !in before) <==> HasGuid(items, id)
    requires Extends(before, mid) && it.guid !in mid && after == mid[it.guid := now]
    ensures forall id :: (id in after && id !in before) <==> HasGuid(items + [it], id)
  {
    var all := items + [it];
    assert all[|items|].guid == it.guid;
    forall id | HasGuid(all, id) ensures id in after && id !in before {
      var i :| 0 <= i < |all| && all[i].guid == id;
      if i < |items| {
        assert all[i] == items[i];
      }
    }
    forall id | HasGuid(items, id) ensures HasGuid(all, id) {
      var i :| 0 <= i < |items| && items[i].guid == id;
      assert all[i] == items[i];
    }
  }

  /** One pass of the entry loop as the script is written. The OpenAI call
      sits outside any `try`, so when the translator raises on a text with
      no non-empty cached translation the pass ends with the exception
      (`None`) before anything is written. Otherwise it is `Step`. */
  function StepAsWritten(w: World, cfg: Config, st: State, e: Entry, now: string): Option<Stepped> {
    var src := SourceFor(w, e);
    if EntryId(w, e) !in st.seen && !Filled(st.cache, CacheKey(w, cfg, src))
       && w.translate(src, cfg.targetLang).None?
    then None
    else Some(Step(w, cfg, st, e, now))
  }

  /** How far a loop as written gets: its outcome so far, and whether an
      exception ended it. */
  datatype Attempt = Attempt(outcome: Outcome, raised: bool)

  /** The entry loop as written: it stops at the first exception, keeping
      what the earlier passes committed to the database. */
  function FeedAsWritten(w: World, cfg: Config, st: State, entries: seq<Entry>, now: string): Attempt {
    if entries == [] then Attempt(Outcome(st, [], []), false)
    else
      var a := FeedAsWritten(w, cfg, st, entries[..|entries| - 1], now);
      var e := entries[|entries| - 1];
      if a.raised then a
      else match StepAsWritten(w, cfg, a.outcome.state, e, now)
        case None => Attempt(Outcome(a.outcome.state, a.outcome.items, a.outcome.calls + [SourceFor(w, e)]), true)
        case Some(s) =>
          Attempt(Outcome(s.state, a.outcome.items + (if s.item.Some? then [s.item.value] else []),
                          a.outcome.calls + s.calls), false)
  }

  /** How far the feed loop as written gets. */
  datatype RunAttempt = RunAttempt(run: RunOutcome, raised: bool)

  /** The feed loop of `main` as written: an exception ends the run before
      the current feed's file is written, and no later feed is read. */
  function RunAsWritten(w: World, cfg: Config, st: State, feeds: seq<Feed>, maxItems: int, now: string): RunAttempt {
    if feeds == [] then RunAttempt(RunOutcome(st, [], []), false)
    else
      var r := RunAsWritten(w, cfg, st, feeds[..|feeds| - 1], maxItems, now);
      var f := feeds[|feeds| - 1];
      if r.raised then r
      else
        var a := FeedAsWritten(w, cfg, r.run.state, Take(w.parseFeed(f.url), maxItems), now);
        var calls := r.run.calls + a.outcome.calls;
        if a.raised then RunAttempt(RunOutcome(a.outcome.state, r.run.files, calls), true)
        else RunAttempt(RunOutcome(a.outcome.state, r.run.files + [FeedFile(f, cfg.targetLang, a.outcome.items, now)], calls), false)
  }

  /** As long as the translator does not raise, the entry loop as written
      is the one of `FeedSpec`. */
  lemma {:induction false} FeedAsWrittenAgrees(w: World, cfg: Config, st: State, entries: seq<Entry>, now: string)
    ensures var a := FeedAsWritten(w, cfg, st, entries, now);
      !a.raised ==> a.outcome == FeedSpec(w, cfg, st, entries, now)
  {
    if entries != [] {
      FeedAsWrittenAgrees(w, cfg, st, entries[..|entries| - 1], now);
    }
  }

  /** As long as the translator does not raise, the run as written is the
      one of `RunSpec`. */
  lemma {:induction false} RunAsWrittenAgrees(w: World, cfg: Config, st: State, feeds: seq<Feed>, maxItems: int, now: string)
    ensures var r := RunAsWritten(w, cfg, st, feeds, maxItems, now);
      !r.raised ==> r.run == RunSpec(w, cfg, st, feeds, maxItems, now)
  {
    if feeds != [] {
      var init, f := feeds[..|feeds| - 1], feeds[|feeds| - 1];
      var r := RunAsWritten(w, cfg, st, init, maxItems, now);
      RunAsWrittenAgrees(w, cfg, st, init, maxItems, now);
      if !r.raised {
        FeedAsWrittenAgrees(w, cfg, r.run.state, Take(w.parseFeed(f.url), maxItems), now);
      }
    }
  }

  /** The defect of the script as written. Say the entries before `e` went
      through and the translator raises on `e`. The feed's loop ends with
      the exception, yet the guid of every item it had built is already
      committed to the seen table; the run writes no file for the feed
      (`RunAsWrittenRaises`), and every later run skips those entries
      (`StepMarks`), so their items never reach any file. */
  lemma AbortLosesItems(w: World, cfg: Config, st: State, entries: seq<Entry>, e: Entry, now: string)
    requires !FeedAsWritten(w, cfg, st, entries, now).raised
    requires StepAsWritten(w, cfg, FeedAsWritten(w, cfg, st, entries, now).outcome.state, e, now) == None
    ensures var a := FeedAsWritten(w, cfg, st, entries + [e], now);
      && a.raised
      && a.outcome.items == FeedSpec(w, cfg, st, entries, now).items
      && forall id :: HasGuid(a.outcome.items, id) ==> id in a.outcome.state.seen && id !in st.seen
  {
    FeedAsWrittenSnocRaises(w, cfg, st, entries, e, now);
    FeedAsWrittenAgrees(w, cfg, st, entries, now);
    FeedSpecMarksItsItems(w, cfg, st, entries, now);
  }

  lemma FeedAsWrittenSnocRaises(w: World, cfg: Config, st: State, entries: seq<Entry>, e: Entry, now: string)
    requires !FeedAsWritten(w, cfg, st, entries, now).raised
    requires StepAsWritten(w, cfg, FeedAsWritten(w, cfg, st, entries, now).outcome.state, e, now) == None
    ensures var a := FeedAsWritten(w, cfg, st, entries + [e], now);
      var b := FeedAsWritten(w, cfg, st, entries, now).outcome;
      a.raised && a.outcome.state == b.state && a.outcome.items == b.items
  {
    var all := entries + [e];
    assert all[..|all| - 1] == entries && all[|all| - 1] == e;
  }

  /** When a feed's loop raises, the run as written ends there: it writes
      no file for that feed and keeps what the loop committed. */
  lemma RunAsWrittenRaises(w: World, cfg: Config, st: State, feeds: seq<Feed>, f: Feed, maxItems: int, now: string)
    requires !RunAsWritten(w, cfg, st, feeds, maxItems, now).raised
    requires FeedAsWritten(w, cfg, RunAsWritten(w, cfg, st, feeds, maxItems, now).run.state,
                           Take(w.parseFeed(f.url), maxItems), now).raised
    ensures var r := RunAsWritten(w, cfg, st, feeds + [f], maxItems, now);
      var a := FeedAsWritten(w, cfg, RunAsWritten(w, cfg, st, feeds, maxItems, now).run.state,
                             Take(w.parseFeed(f.url), maxItems), now);
      && r.raised
      && r.run.files == RunAsWritten(w, cfg, st, feeds, maxItems, now).run.files
      && r.run.state == a.outcome.state
  {
    var all := feeds + [f];
    assert all[..|all| - 1] == feeds && all[|all| - 1] == f;
  }

  /** Once the run as written has raised, no later feed is read. */
  lemma {:induction false} RunAsWrittenStops(w: World, cfg: Config, st: State, feeds: seq<Feed>, more: seq<Feed>,
                                             maxItems: int, now: string)
    requires RunAsWritten(w, cfg, st, feeds, maxItems, now).raised
    ensures RunAsWritten(w, cfg, st, feeds + more, maxItems, now) == RunAsWritten(w, cfg, st, feeds, maxItems, now)
    decreases |more|
  {
    if more != [] {
      var init := more[..|more| - 1];
      var all := feeds + more;
      assert all[..|all| - 1] == feeds + init && all[|all| - 1] == more[|more| - 1];
      RunAsWrittenStops(w, cfg, st, feeds, init, maxItems, now);
    } else {
      assert feeds + more == feeds;
    }
  }

  /** `pick_translator` with the OpenAI constructor's key check: the
      `TRANSLATOR` setting (default "openai"), stripped and lower-cased,
      must be "openai", and an API key (the override, else the
      environment's) must be non-empty once stripped. */
  function PickTranslator(translator: string, apiKeyOverride: string, envApiKey: string): (r: Result<string, string>)
    ensures r.Ok? <==> Lower(Strip(if translator != "" then translator else "openai")) == "openai"
                       && Strip(if apiKeyOverride != "" then apiKeyOverride else envApiKey) != ""
    ensures r.Ok? ==> r.value == "openai"
  {
    var which := Lower(Strip(if translator != "" then translator else "openai"));
    if which != "openai" then
      Err("Unsupported TRANSLATOR=" + which + ". This pack includes OpenAI by default.")
    else
      var key := Strip(if apiKeyOverride != "" then apiKeyOverride else envApiKey);
      if key == "" then Err("Missing OPENAI_API_KEY. Set it in .env, or pass --api_key to translate_rss.py")
      else Ok(which)
  }

  /** `TRANSLATE_TARGET_LANG` (default "en"), stripped and lower-cased: no
      white space at either end and no upper-case ASCII letter. */
  function TargetLang(setting: string): (r: string)
    ensures setting == "" ==> r == "en"
    ensures setting != "" ==>
      |r| == |Strip(setting)| && forall i :: 0 <= i < |r| ==> r[i] == LowerChar(Strip(setting)[i])
    ensures Strip(r) == r
    ensures NoUpper(r)
  {
    var t := Strip(if setting != "" then setting else "en");
    LowerStaysStripped(t);
    EnIsNormal();
    Lower(t)
  }

  lemma EnIsNormal()
    ensures Strip("en") == "en" && Lower("en") == "en"
  {
    var en := "en";
    assert en[0] == 'e' && en[1] == 'n' && |en| == 2;
    assert !IsSpace(en[0]) && !IsSpace(en[|en| - 1]);
    var l := Lower(en);
    assert l[0] == 'e' && l[1] == 'n';
    assert l == en;
  }

  /** The environment settings `main` reads. */
  datatype Env = Env(translator: string, targetLang: string, maxItems: int, openaiApiKey: string)

  /** `main`: pick the translator (an error ends the run before anything is
      read or written), read the feed list, apply the optional URL filter
      and translate every feed. */
  method TranslateRss(db: Store, w: World, env: Env, opml: seq<Element>, onlyLangCeid: string,
                      apiKeyOverride: string, now: string)
    returns (r: Result<seq<OutputFile>, string>, ghost calls: seq<string>)
    modifies db
    ensures r.Err? <==> PickTranslator(env.translator, apiKeyOverride, env.openaiApiKey).Err?
    ensures r.Err? ==> db.cache == old(db.cache) && db.seen == old(db.seen) && calls == []
    ensures r.Ok? ==>
      var cfg := Config("openai", TargetLang(env.targetLang));
      var feeds := FilterByUrl(Dedup(Candidates(opml), UrlOf), onlyLangCeid);
      RunOutcome(State(db.cache, db.seen), r.value, calls)
        == RunSpec(w, cfg, State(old(db.cache), old(db.seen)), feeds, env.maxItems, now)
  {
    var lang := TargetLang(env.targetLang);
    var picked := PickTranslator(env.translator, apiKeyOverride, env.openaiApiKey);
    if picked.Err? {
      return Err(picked.error), [];
    }
    var feeds := ParseOpml(opml);
    if onlyLangCeid != "" {
      feeds := KeepMatching(feeds, onlyLangCeid);
    }
    var files;
    files, calls := RunFeeds(db, w, Config(picked.value, lang), feeds, env.maxItems, now);
    r := Ok(files);
  }
}
