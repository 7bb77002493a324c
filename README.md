# rss-translated-feeds in Dafny

This project models the core of *rss-translated-feeds*. That project is three
Python scripts:

- `translate_rss.py` reads an OPML list of news feeds and pulls every entry
  it has not seen before. It translates the article, or else the summary,
  with a cache keyed by the text, and writes one RSS 2.0 file per feed.
- `build_translated_opml.py` writes an OPML file for a feed reader. Each
  source title becomes a folder, which links every translated file named
  after that title's slug.
- `sanitize_opml.py` repairs an OPML file so it parses as XML. It deletes
  control characters and escapes every bare `&`.

The modules follow the scripts:

| module | file | what it holds |
|---|---|---|
| `Text` | text.dfy | Python's `strip`, `lower`, `upper`, `startswith`, `endswith`, `in` and `split` on `seq<char>` |
| `Slug` | slug.dfy | `slugify`. Both scripts define it identically, so it is defined once here |
| `Distinct` | distinct.dfy | the first-occurrence de-duplication loop both scripts use |
| `Wrappers` | wrappers.dfy | `Option` and `Result` |
| `FeedList` | feed_list.dfy | `parse_opml` after the XML is parsed, and the `--only_lang_ceid` filter |
| `SourceText` | source_text.dfy | the blank-line collapse, the article/summary choice, `truncate_for_translation` |
| `RssWriter` | rss_writer.dfy | `esc` and `build_rss`, plus a reader that proves the output loses nothing |
| `Pipeline` | pipeline.dfy | the SQLite store as a class, the entry loop, the feed loop and `main` of `translate_rss.py` |
| `OpmlBuilder` | opml_builder.dfy | `parse_opml_titles`, the base-URL check and the folder loop of `build_translated_opml.py` |
| `Sanitize` | sanitize.dfy | `sanitize_text` |

The code that changes state is imperative Dafny:

- The database is the class `Pipeline.Store`. Its two tables are maps, and
  its methods state the new contents.
- The entry loop, the feed loop, `build_rss`, the OPML title loop and the
  de-duplication loop are `for` loops. Each is proved equal to a function
  of its inputs.
- The properties the scripts rely on are lemmas about those functions.

Every call the scripts make over the network or into a library is a field of
`Pipeline.World`. This covers feedparser, requests, BeautifulSoup, dateutil,
the OpenAI client and SHA-1. The clock reading is the parameter `now`.

## Model

| member | source | states |
|---|---|---|
| Text.StripLeft | scripts/translate_rss.py:139 | the result is a suffix of the input; everything dropped is white space (Python's `isspace` set), and the result does not start with white space |
| Text.StripRight | scripts/translate_rss.py:139 | the result is a prefix of the input; everything dropped is white space, and the result does not end with white space |
| Text.Strip | scripts/translate_rss.py:139 | the result is a slice of the input with only white space cut from either end, and no white space is left at either end; a text already without it is returned unchanged |
| Text.Lower | scripts/translate_rss.py:45 | same length; each character is its ASCII lower case |
| Text.Upper | scripts/translate_rss.py:301 | same length; each character is its ASCII upper case |
| Text.LowerStaysStripped | scripts/translate_rss.py:235 | lower-casing a stripped text keeps it stripped and leaves no upper-case letter |
| Text.LowerCharKeepsSpace | scripts/translate_rss.py:235 | lower-casing a character keeps whether it is white space and leaves no upper-case letter |
| Text.IndexOf | scripts/build_translated_opml.py:76 | the first position of the separator, or the length when there is none |
| Text.Split | scripts/build_translated_opml.py:76 | `split('.')` returns at least one piece, no piece holds the separator, and joining the pieces with the separator gives the input back |
| Text.SplitHasTwoParts | scripts/build_translated_opml.py:76 | a text holding the separator splits into at least two pieces, so `[-2]` exists |
| Slug.KeepAppend | scripts/translate_rss.py:44-48 | the letters and digits of a concatenation are those of its parts |
| Slug.SkipSeparators | scripts/translate_rss.py:46 | dropping a leading run of non-`[a-z0-9]` characters keeps a suffix and loses no letter or digit |
| Slug.DashRuns | scripts/translate_rss.py:46 | the `[^a-z0-9]+` → `-` pass gives only `[a-z0-9-]` and no `--`, keeps every letter and digit in order, and starts with `-` exactly when the input starts with a separator |
| Slug.DashRunsAppend | scripts/translate_rss.py:46 | the pass works run by run: cut where no separator run is split, the text gives the two halves' results put together |
| Slug.DashRunsRun | scripts/translate_rss.py:46 | a separator run between two words becomes exactly one `-` |
| Slug.DashRunsWord | scripts/translate_rss.py:46 | a text of letters and digits only is left as it is |
| Slug.SkipDashes | scripts/translate_rss.py:47 | dropping the leading `-` run keeps a suffix that does not start with `-`, and everything dropped is `-` |
| Slug.CollapseDashesKeeps | scripts/translate_rss.py:47 | the `-{2,}` → `-` pass changes nothing on a text without `--` |
| Slug.LeadingDashes | scripts/translate_rss.py:47 | the length of the leading `-` run |
| Slug.TrailingDashes | scripts/translate_rss.py:47 | the length of the trailing `-` run |
| Slug.TrimDashes | scripts/translate_rss.py:47 | `strip("-")` leaves a slice of the input with no `-` at either end, and everything cut away is `-` |
| Slug.KeepAllDashes | scripts/translate_rss.py:47 | a run of dashes has no letter or digit |
| Slug.SlugifyWellFormed | scripts/translate_rss.py:43-48 | `Slugify` (`slugify`): a slug is non-empty, uses only `[a-z0-9-]`, has no `--` and no `-` at either end; its letters and digits are those of the stripped, lower-cased title; it is "feed" when the title has none |
| Slug.SlugPasses | scripts/translate_rss.py:46-47 | the three regex passes yield a text in the slug alphabet, without `--`, with the input's letters and digits |
| Slug.TrimmedSlug | scripts/translate_rss.py:47 | trimming the dashes keeps the slug alphabet, the lack of `--` and every letter and digit; the result is empty only when there are none |
| Slug.InfixKeepsShape | scripts/translate_rss.py:47 | a slice of a text in the slug alphabet without `--` keeps both properties |
| Slug.KeepAroundDashes | scripts/translate_rss.py:47 | cutting away runs of dashes loses no letter or digit |
| Distinct.FirstIndices | scripts/translate_rss.py:101-108 | the positions holding the first occurrence of their key, increasing, and every such position |
| Distinct.DedupIsFirstOccurrences | scripts/translate_rss.py:101-108 | the loop keeps exactly the first occurrence of every key, in input order, and loses no key |
| Distinct.DedupDistinct | scripts/translate_rss.py:101-108 | the kept elements have pairwise distinct keys |
| Distinct.DedupByKey | scripts/build_translated_opml.py:32-37 | the loop with its `seen` set returns the de-duplicated list: every key once, the first element for it, in order |
| FeedList.FeedOf | scripts/translate_rss.py:95-99 | an element gives a feed exactly when its tag ends in "outline" (any case) and it has a `xmlUrl` or `xmlurl`; the URL is `xmlUrl`, else `xmlurl`; the title is `text`, else `title`, else "Feed" |
| FeedList.ParseOpml | scripts/translate_rss.py:90-108 | the feeds are the candidates de-duplicated by URL; URLs are pairwise distinct, no candidate URL is lost, and every feed has a URL and a title |
| FeedList.CandidatesWellFormed | scripts/translate_rss.py:97-100 | every candidate has a non-empty URL and title |
| FeedList.KeepMatching | scripts/translate_rss.py:247 | a feed is kept exactly when its URL contains the needle; with `KeepMatchingAppend` the kept feeds are the input's in input order |
| FeedList.KeepMatchingAppend | scripts/translate_rss.py:247 | the filter works feed by feed: filtering a concatenation is filtering each part, so the kept feeds keep their order |
| FeedList.KeepMatchingAll | scripts/translate_rss.py:247 | when every URL holds the needle, the list is kept as it is |
| FeedList.FilterByUrlKeeps | scripts/translate_rss.py:246-247 | `FilterByUrl` (the `--only_lang_ceid` filter) is `KeepMatching` on the list: with or without a needle it keeps exactly the feeds whose URL holds it, and the URLs stay distinct |
| FeedList.KeepMatchingDistinct | scripts/translate_rss.py:247 | filtering keeps the URLs pairwise distinct |
| SourceText.LeadingNewlines | scripts/translate_rss.py:135 | the length of the leading run of newlines |
| SourceText.CollapseNewlines | scripts/translate_rss.py:135 | the `\n{3,}` → `\n\n` pass leaves no three newlines in a row, is empty exactly when the input is, and starts with a newline exactly when the input does; `CollapseNewlinesRun` pins each run |
| SourceText.CollapseNewlinesAppend | scripts/translate_rss.py:135 | the collapse works run by run: cut where no newline run is split, the text gives the two halves' results put together |
| SourceText.CollapseNewlinesRun | scripts/translate_rss.py:135 | a run of k newlines between other characters becomes two newlines when k ≥ 3 and stays as it is otherwise |
| SourceText.NoTripleAfter | scripts/translate_rss.py:135 | one or two characters in front of a text without triples add none, when no newline run is lengthened |
| SourceText.VisibleOfNewlines | scripts/translate_rss.py:135 | a leading run of newlines carries no other character |
| SourceText.CollapseNewlinesKeepsText | scripts/translate_rss.py:135 | the collapse keeps every character other than newline, in order |
| SourceText.CollapseNewlinesIdempotent | scripts/translate_rss.py:135 | collapsing twice is collapsing once |
| SourceText.NoTripleIsFixed | scripts/translate_rss.py:135 | a text without three newlines in a row is left unchanged |
| SourceText.NoTripleSuffix | scripts/translate_rss.py:135 | a suffix of a text without triples has none |
| SourceText.ChooseSource | scripts/translate_rss.py:282 | a stripped article of at least 400 characters is used, otherwise the summary's plain text |
| SourceText.TruncateShape | scripts/translate_rss.py:138-145 | `TruncateForTranslation` (`truncate_for_translation`): a cut text is at most max + marker length long, starts with the stripped text's first ⌊0.7·max⌋ characters and ends with its last ⌊0.3·max⌋ after the marker; a stripped text within the budget comes back unchanged; with a zero tail length the whole text follows the marker (`text[-0:]`) |
| SourceText.TruncateFitsIffUncut | scripts/translate_rss.py:138-145 | the result fits the budget exactly when the stripped text did, so a truncated text is never within the budget |
| RssWriter.ReplaceCharAppend | scripts/translate_rss.py:201 | `replace` of one character distributes over concatenation |
| RssWriter.ReplaceCharAbsent | scripts/translate_rss.py:201 | `replace` changes nothing when the character does not occur |
| RssWriter.ReplaceCharOne | scripts/translate_rss.py:201 | `replace` on one character is its replacement or the character |
| RssWriter.EscOne | scripts/translate_rss.py:200-201 | the three `replace` passes on one character give its escape |
| RssWriter.EscAppend | scripts/translate_rss.py:200-201 | `esc` distributes over concatenation |
| RssWriter.EscIsCharwise | scripts/translate_rss.py:200-201 | `Esc` (`esc`): the three sequential `replace` passes equal escaping each character once, so `&lt;` is never double-escaped |
| RssWriter.EscIsClean | scripts/translate_rss.py:200-201 | `Esc`: escaped text has no `<` or `>`, and every `&` in it starts `&amp;`, `&lt;` or `&gt;` |
| RssWriter.EscEachIsClean | scripts/translate_rss.py:200-201 | the same for the per-character escape |
| RssWriter.UnescapeEsc | scripts/translate_rss.py:200-201 | `Esc` loses nothing: decoding the escaped text gives the input back |
| RssWriter.UnescapeFront | scripts/translate_rss.py:200-201 | decoding reads back the character whose escape comes first |
| RssWriter.UnescapeEntity | scripts/translate_rss.py:201 | each entity `esc` writes decodes to its character |
| RssWriter.UnescapePlain | scripts/translate_rss.py:201 | a character other than `&` decodes to itself |
| RssWriter.UnescapeEscEach | scripts/translate_rss.py:200-201 | decoding the per-character escape gives the input back |
| RssWriter.ItemLinesAppend | scripts/translate_rss.py:211-221 | the item lines of a longer list add the last item's block |
| RssWriter.Header | scripts/translate_rss.py:203-210 | the appended lines are the declaration, `<rss>`, `<channel>`, the escaped title, an empty link, the escaped description and the build date |
| RssWriter.AppendItem | scripts/translate_rss.py:212-221 | one item adds its block: escaped title, link and guid, a `pubDate` line only for a non-empty date, the unescaped description in CDATA |
| RssWriter.BuildRss | scripts/translate_rss.py:198-223 | the document is the header, one block per item in order, and the footer, joined with newlines |
| RssWriter.BetweenWrapped | scripts/translate_rss.py:207 | a line built as open + text + close reads back as the text |
| RssWriter.ReadItemBlock | scripts/translate_rss.py:212-221 | an item's block reads back as that item, with or without a publication date |
| RssWriter.ReadItemsRoundTrip | scripts/translate_rss.py:211-221 | the item lines read back as the items |
| RssWriter.RssRoundTrip | scripts/translate_rss.py:198-223 | read back line by line, the document's lines give the channel title and the items: the line layout `build_rss` writes loses no field (well-formedness as XML is not stated) |
| Pipeline.Store.constructor | scripts/translate_rss.py:50-69 | the store opens with the given tables |
| Pipeline.Store.CacheGet | scripts/translate_rss.py:71-73 | the stored translation when the key has a row, nothing otherwise |
| Pipeline.Store.CachePut | scripts/translate_rss.py:75-80 | INSERT OR REPLACE: the key now maps to the new row; every other row and the seen table are unchanged |
| Pipeline.Store.MarkSeen | scripts/translate_rss.py:82-84 | INSERT OR IGNORE: a new id is added with `now`; a known id keeps its first `first_seen`; the cache is unchanged |
| Pipeline.Store.IsSeen | scripts/translate_rss.py:86-88 | true exactly when the id has a row |
| Pipeline.Take | scripts/translate_rss.py:252 | `entries[:max_items]`: a prefix, of length `min(m, n)` for `m >= 0` and `max(n + m, 0)` for negative `m` |
| Pipeline.TranslationCached | scripts/translate_rss.py:285-292 | `Translation` (the cache lookup and translator call): the value is the non-empty cached translation when the key has one; otherwise it is the translator's non-empty answer, or the source text when the answer is empty or the call raised; afterwards the cache holds that value under the text's key; the value is empty only for an empty text; the translator is called, once, exactly when there was no non-empty row; no non-empty row and no key is lost |
| Pipeline.Snippet | scripts/translate_rss.py:296 | a text of at most 600 characters is kept; a longer one becomes its first 600 characters followed by "..." |
| Pipeline.TranslateCached | scripts/translate_rss.py:285-292 | `cache_get`, then on a miss or an empty row `translate` and `cache_put`, as `Translation` says; the seen table is unchanged |
| Pipeline.ProcessEntry | scripts/translate_rss.py:255-307 | one pass of the entry loop does what `Step` says: a seen entry is skipped with nothing changed; otherwise the item is built and its id marked seen |
| Pipeline.ProcessFeed | scripts/translate_rss.py:252-307 | the entry loop over the first `max_items` entries yields the store, items and calls of `FeedSpec` |
| Pipeline.FeedSpecSnoc | scripts/translate_rss.py:254-307 | `FeedSpec` (the entry loop): one more entry adds exactly what `Step` (one pass of it) does for that entry |
| Pipeline.StepMonotone | scripts/translate_rss.py:257-307 | one entry keeps every seen id with its date, keeps every non-empty cached row, and leaves the entry's id seen |
| Pipeline.FeedSpecMonotone | scripts/translate_rss.py:254-307 | over a feed the seen table only grows and keeps every `first_seen`, and no non-empty cached translation is replaced |
| Pipeline.FeedSpecCount | scripts/translate_rss.py:254-307 | there are at most as many items as entries |
| Pipeline.FeedItemsBound | scripts/translate_rss.py:252 | a feed yields at most `max_items` items when that is not negative |
| Pipeline.FreshGuidsAppend | scripts/translate_rss.py:300-307 | a new item whose guid was unseen and is now seen keeps the guids fresh and distinct |
| Pipeline.FreshGuidsLater | scripts/translate_rss.py:307 | fresh guids stay fresh as the seen table grows |
| Pipeline.FeedSpecGuids | scripts/translate_rss.py:256-307 | every item's guid was not seen before the feed and is seen after it, and no two items share a guid |
| Pipeline.RunSpecGuids | scripts/translate_rss.py:249-307 | across all feeds of a run (`RunItems`), every item's guid was unseen before the run and is seen after it, and no two items share a guid, even when two feeds carry the same entry |
| Pipeline.FeedSpecSeesAll | scripts/translate_rss.py:257-307 | after a feed every entry's id is in the seen table |
| Pipeline.FeedSpecQuiet | scripts/translate_rss.py:257-258 | entries that are all seen produce no item, no translator call and no change |
| Pipeline.RerunIsQuiet | scripts/translate_rss.py:254-307 | running a feed again on the same entries yields nothing, calls nothing and changes nothing |
| Pipeline.FeedSpecCallsCached | scripts/translate_rss.py:287-292 | every non-empty text sent to the translator has a non-empty cached translation afterwards |
| Pipeline.NoRepeatedCalls | scripts/translate_rss.py:287-292 | within one feed the translator is never asked twice for the same non-empty text |
| Pipeline.StepCallsFilled | scripts/translate_rss.py:287-292 | a non-empty text one entry sends to the translator has a non-empty cached translation after the entry |
| Pipeline.StepCallsUnfilled | scripts/translate_rss.py:287-289 | one entry calls the translator at most once, and only for a text with no non-empty cached translation |
| Pipeline.FeedSpecCallsUnfilled | scripts/translate_rss.py:254-292 | every text sent to the translator during a feed had no non-empty cached translation when the feed began |
| Pipeline.FeedSpecMarksItsItems | scripts/translate_rss.py:300-307 | the ids a feed newly marks seen are exactly the guids of its items: no id is marked without its item going into the feed's file |
| Pipeline.StepMarks | scripts/translate_rss.py:257-307 | a seen entry changes no seen row and builds no item; an unseen one builds an item whose guid is its id and adds that id with `now` |
| Pipeline.StepItem | scripts/translate_rss.py:255-306 | an unseen entry yields the item `[LANG] title`, its link, the guid `EntryId` (SHA-1 of id + link + title), the date `PubDate` (`published`, else `updated`, formatted, "" when unreadable), and the description `Describe` (`Breaks` turns newlines into `<br/>`) embedding the translation now cached under `CacheKey` (SHA-1 of translator:language:text) and the snippet of `SourceFor`, the truncated `ChooseSource` of `ArticleText` (fetched main text with blank lines collapsed) and the plain text of `RawSummary` (`summary`, else `description`) |
| Pipeline.RunFeeds | scripts/translate_rss.py:249-316 | the feed loop gives the store, files and calls of `RunSpec`, which runs `RunFeed` (one feed: its entry loop, then its RSS file `FeedFile`, titled by `OutTitle` as title + " (Translated → " + language + ")") feed after feed |
| Pipeline.RunSpecLast | scripts/translate_rss.py:249-307 | the last feed of the run starts from the state the others leave, and its calls come last |
| Pipeline.RunSpecSnoc | scripts/translate_rss.py:249-316 | one more feed adds that feed's `RunFeed` state, file and calls |
| Pipeline.NamedAfterAppend | scripts/translate_rss.py:312 | a new file named after a new feed keeps the files named after their feeds |
| Pipeline.RunSpecFiles | scripts/translate_rss.py:309-316 | one file per feed, in feed order, named slug + "." + language + ".xml" |
| Pipeline.RunSpecMonotone | scripts/translate_rss.py:249-316 | over the whole run the seen table only grows and keeps every `first_seen`, and no non-empty cached translation is replaced |
| Pipeline.RunSpecCallsCached | scripts/translate_rss.py:249-292 | over the whole run every non-empty text sent to the translator has a non-empty cached translation afterwards |
| Pipeline.RunNoRepeatedCalls | scripts/translate_rss.py:249-292 | across feeds as well as within one, the translator is never asked twice for the same non-empty text |
| Pipeline.RunSpecSeesAll | scripts/translate_rss.py:249-307 | after the run every entry it read (the first `max_items` of each feed) is in the seen table |
| Pipeline.QuietFeed | scripts/translate_rss.py:249-316 | a feed whose entries are all seen adds no call, changes nothing, and gets the file without items |
| Pipeline.RunSpecQuiet | scripts/translate_rss.py:249-316 | a run whose entries are all seen calls nothing, changes nothing, and writes every feed's file without items |
| Pipeline.RunRerunIsQuiet | scripts/translate_rss.py:249-316 | running `main` again on the same feeds calls the translator for nothing, leaves the database as it is, and writes files without items |
| Pipeline.FeedAsWrittenAgrees | scripts/translate_rss.py:254-307 | as long as the translator does not raise, `FeedAsWritten` (the entry loop with the OpenAI call outside any `try`) is `FeedSpec` |
| Pipeline.RunAsWrittenAgrees | scripts/translate_rss.py:249-316 | as long as the translator does not raise, `RunAsWritten` (the feed loop as written) is `RunSpec` |
| Pipeline.AbortLosesItems | scripts/translate_rss.py:254-307 | when the translator raises on an entry after earlier entries went through, the loop ends with the exception while every guid of the items it built is already committed to the seen table |
| Pipeline.FeedAsWrittenSnocRaises | scripts/translate_rss.py:288-289 | an entry on which the translator raises ends the loop, keeping the state and items so far |
| Pipeline.RunAsWrittenRaises | scripts/translate_rss.py:249-316 | when a feed's loop raises, the run writes no file for that feed and keeps what the loop committed |
| Pipeline.RunAsWrittenStops | scripts/translate_rss.py:249-316 | once the run has raised, no later feed is read and nothing more changes |
| Pipeline.PickTranslator | scripts/translate_rss.py:191-196 | succeeds exactly when `TRANSLATOR` (default "openai"), stripped and lower-cased, is "openai" and the API key (override, else environment) is non-empty once stripped |
| Pipeline.TargetLang | scripts/translate_rss.py:235 | the language is "en" for an empty setting; otherwise it has the stripped setting's length and each character is that character lower-cased; no white space at either end and no upper-case letter |
| Pipeline.TranslateRss | scripts/translate_rss.py:225-316 | fails, changing nothing, exactly when the translator cannot be picked; otherwise its files and store are `RunSpec` over the de-duplicated, optionally filtered feed list, with a raising translator call handled like an empty answer (see "## Findings") |
| OpmlBuilder.LexTotal | scripts/build_translated_opml.py:74 | Python's string order is total |
| OpmlBuilder.LexLeqPrefix | scripts/build_translated_opml.py:74-78 | a common prefix such as the base URL does not change the order |
| OpmlBuilder.Insert | scripts/build_translated_opml.py:74 | inserting into a sorted list keeps it sorted and adds exactly that element |
| OpmlBuilder.Sort | scripts/build_translated_opml.py:74 | `sorted`: the result is sorted and a permutation of the input |
| OpmlBuilder.XmlFiles | scripts/build_translated_opml.py:56 | a name is kept exactly when its lower-cased form ends in ".xml" |
| OpmlBuilder.Matching | scripts/build_translated_opml.py:69 | a file is matched exactly when it starts with the prefix; nothing is added |
| OpmlBuilder.DotInMatch | scripts/build_translated_opml.py:68-69 | a matched name holds a dot, so `split('.')[-2]` is defined |
| OpmlBuilder.Links | scripts/build_translated_opml.py:74-79 | one outline per file, in order |
| OpmlBuilder.FolderMatchingExists | scripts/build_translated_opml.py:66-79 | `FolderMatching`/`FolderFor` (one title of the folder loop): a title gets a folder exactly when some file starts with its prefix; the folder carries the title and one link (`LinkFor`) per matching file |
| OpmlBuilder.FolderMatchingSorted | scripts/build_translated_opml.py:74-79 | a folder's links are RSS outlines whose URLs are in sorted order |
| OpmlBuilder.FolderMatchingLinksAll | scripts/build_translated_opml.py:69-79 | every matching file has its outline in the folder |
| OpmlBuilder.FolderMatchingLinksOnly | scripts/build_translated_opml.py:69-79 | every outline in the folder belongs to a matching file |
| OpmlBuilder.FolderForShape | scripts/build_translated_opml.py:66-73 | a title's folder carries the title and at least one link |
| OpmlBuilder.FoldersSpecSnoc | scripts/build_translated_opml.py:66-79 | `FoldersSpec` (the folder loop): one more title adds its folder or counts as missing |
| OpmlBuilder.AccountsStep | scripts/build_translated_opml.py:66-73 | one pass of the title loop keeps the accounting of titles, folders and missing |
| OpmlBuilder.FoldersAccount | scripts/build_translated_opml.py:65-79 | folders + missing = titles; each folder belongs to a title and links something; distinct titles give folders with distinct texts |
| OpmlBuilder.ParseOpmlTitles | scripts/build_translated_opml.py:22-37 | the titles of the feed outlines, de-duplicated in first-occurrence order: pairwise distinct, and a title is returned exactly when some feed outline has it |
| OpmlBuilder.TitleListTitles | scripts/build_translated_opml.py:26-31 | the collected titles are exactly the titles of the candidate feeds |
| OpmlBuilder.BaseUrl | scripts/build_translated_opml.py:49-51 | the argument, else the environment's value, stripped, is accepted exactly when it ends with "/" |
| OpmlBuilder.BuildTranslatedOpml | scripts/build_translated_opml.py:49-79 | fails exactly on a bad base URL; otherwise the document holds the collection name and the folders of the title loop, with the number of titles without files |
| OpmlBuilder.SlugHasNoDot | scripts/build_translated_opml.py:16-20 | a slug holds no dot |
| OpmlBuilder.FileMatchesItsSlug | scripts/build_translated_opml.py:68-69 | a file the translator wrote for one title starts with another title's prefix exactly when the two slugs are equal |
| OpmlBuilder.FileNameOfMatches | scripts/build_translated_opml.py:68-69 | for dot-free slugs, slug + "." + language + ".xml" starts with another slug + "." exactly when the slugs are equal |
| OpmlBuilder.LabelOfFileName | scripts/build_translated_opml.py:76 | `Label` (`fn.split('.')[-2].upper()`) of a translated file's name is its language upper-cased, when the language holds no dot |
| OpmlBuilder.SplitNoSep | scripts/build_translated_opml.py:76 | a text without dots splits into itself |
| OpmlBuilder.SplitAt | scripts/build_translated_opml.py:76 | splitting at the first dot gives the part before it and the split of the rest |
| OpmlBuilder.FileNameIsXml | scripts/build_translated_opml.py:56 | a translated file's name passes the ".xml" filter |
| OpmlBuilder.TranslatedFileIsLinked | scripts/build_translated_opml.py:66-79 | the two scripts agree: a file the translator wrote for a title (dot-free language) that is in the listing gets an outline in that title's folder, labelled with the upper-cased language and pointing at base URL + file name |
| Sanitize.DropControl | scripts/sanitize_opml.py:24 | a character remains exactly when it was in the input and is not one of 0x00–0x08, 0x0B, 0x0C, 0x0E–0x1F, 0x7F; tab, LF and CR are kept |
| Sanitize.DropControlAppend | scripts/sanitize_opml.py:24 | the removal works character by character, so what is kept stays in order |
| Sanitize.DropControlKeepsClean | scripts/sanitize_opml.py:24 | a text without control characters is left unchanged |
| Sanitize.DigitsHaveNoAmp | scripts/sanitize_opml.py:27 | a run of digits holds no `&` |
| Sanitize.RefHasNoAmp | scripts/sanitize_opml.py:27 | a reference (`amp;`, `lt;`, `gt;`, `quot;`, `apos;`, `#digits;`, `#xhex;`) holds no `&` |
| Sanitize.Escape | scripts/sanitize_opml.py:26-28 | each bare `&` adds four characters, and nothing else changes the length; `EscapeIsPointwise` states the output itself |
| Sanitize.EscapeBare | scripts/sanitize_opml.py:26-28 | an `&` the lookahead rejects becomes `&amp;`, and the pass goes on after it |
| Sanitize.EscapeIsPointwise | scripts/sanitize_opml.py:26-28 | the output is, in order, `&amp;` for each bare `&` and every other character as it is, each judged on the input |
| Sanitize.EscapeNoAmp | scripts/sanitize_opml.py:26-28 | text without `&` is copied as it is |
| Sanitize.AmpBeforeRef | scripts/sanitize_opml.py:26-28 | an `&` the lookahead accepts is copied |
| Sanitize.RefUntouched | scripts/sanitize_opml.py:26-28 | an `&` followed by a valid reference is copied with the reference, and the pass goes on after it |
| Sanitize.RefStarts | scripts/sanitize_opml.py:27 | a text that begins with a reference satisfies the lookahead |
| Sanitize.CopiedRef | scripts/sanitize_opml.py:26-28 | an accepted `&` and the `&`-free text after it are copied |
| Sanitize.EscapeKeepsRef | scripts/sanitize_opml.py:26-28 | a text that starts with a reference still does after the pass |
| Sanitize.PrefixKept | scripts/sanitize_opml.py:26-28 | an `&`-free prefix survives the pass |
| Sanitize.EscapeIsClean | scripts/sanitize_opml.py:26-28 | after the pass every `&` begins `amp;`, `lt;`, `gt;`, `quot;`, `apos;`, `#digits;` or `#xhex;` |
| Sanitize.EscapeFixedIffClean | scripts/sanitize_opml.py:26-28 | the pass leaves a text alone exactly when every `&` already starts a reference, that is, when it has no bare `&` |
| Sanitize.EscapeAddsNoControl | scripts/sanitize_opml.py:26-28 | the pass adds no control character |
| Sanitize.SanitizeIsClean | scripts/sanitize_opml.py:22-29 | `SanitizeText` (`sanitize_text`): after it no control character is left and every `&` begins a reference |
| Sanitize.SanitizeIdempotent | scripts/sanitize_opml.py:22-29 | `SanitizeText` twice is `SanitizeText` once |

## Findings

| source | as written | input that shows it | evidently intended | confidence | as-written member | corrected member |
|---|---|---|---|---|---|---|
| scripts/translate_rss.py:288-292 | `translator.translate` (the OpenAI request at lines 169-175) is outside any `try`, so an exception ends `main`. The entries before it in the same feed are already marked seen (line 307), but the feed's file (line 315) is never written | a feed with two new entries, where the first translates and the request for the second raises (a rate-limit or network error) | a failed call is handled like an empty answer and the source text is used, so every entry marked seen has its item in that feed's file | not executed | Pipeline.AbortLosesItems | Pipeline.FeedSpecMarksItsItems |

The entry loop, `Translation` and `TranslateCached` follow the corrected
handling: a call that raises falls back to the source text, as an empty answer
does. `StepAsWritten`, `FeedAsWritten` and `RunAsWritten` model the script as
written. `FeedAsWrittenAgrees` and `RunAsWrittenAgrees` show that the two agree
whenever nothing raises.

## Left out

- Network and libraries are the function fields of `Pipeline.World`. This covers `fetch_url` (HTTP, the timeout, encoding detection), `feedparser.parse`, BeautifulSoup extraction and the summary's plain text, `dateutil` parsing and `strftime`, the OpenAI call and SHA-1 (`sha1`). They are taken to be deterministic functions of their inputs.
- Clock readings: `build_rss`'s build date and `mark_seen`'s `first_seen` are one parameter `now` per run. `created_at` of the cache table is not kept.
- SQLite itself (`load_db`, `commit`) is not modelled. The connection is the class `Pipeline.Store`, and its two tables are maps.
- XML parsing and writing are not modelled. ElementTree's `parse` becomes a list of `FeedList.Element` records in document order. The generated OPML is the `OpmlBuilder.Opml` value, not its serialised text, and the listing of the output directory is a parameter.
- File writes become returned `Pipeline.OutputFile` values. When two feeds share a slug, the later file overwrites the earlier one on disk; the model returns both, in order.
- `main`'s argument parsing, `load_dotenv`, `makedirs` and `print` are not modelled. `_env_int` is not modelled either: `maxItems` is given as an integer.
- `sanitize_opml.py`'s `main` is file I/O and is not modelled: the backup copy, the UTF-8 decode with replacement, the write, and the parse check with its context printout.
- `scripts/generate_daily_site.py` and `scripts/inspect_opml_lines.py` are not part of this model.
- SourceText.TruncateShape: the head and tail lengths are integer floors of 70% and 30% of the budget. Python computes `int(max_chars * 0.7)` in floating point, which differs for some budgets (for 90 the head is `int(62.99…) = 62`, not 63). It agrees at the only budget the pipeline uses, 12000 (8400 and 3600).
- Text.Lower, Text.Upper: `str.lower()` and `str.upper()` are modelled on ASCII letters only. Other Unicode case mappings (the Kelvin sign, for one) are not.
- RssWriter.RssRoundTrip: the round trip is stated over the list of lines before `"\n".join`, and it reads them back with a positional line reader (`ReadRss`), not an XML parser. A CDATA description or a `now` holding a newline would split a line, so the round trip is not stated for the joined text. Nor does the model state that the document is well-formed XML, and it is not always so: the description is pasted raw into `<![CDATA[…]]>`, so a translation or snippet holding `]]>` closes the section early, and `esc` lets control characters such as U+0001 through into the title, link and guid, which XML 1.0 forbids. The round trip holds in both cases; an XML reader would reject the file.
- Pipeline.TranslateRss: the translator's name is "openai" once picked. The model ID (`OPENAI_MODEL`) only reaches the OpenAI call, which is a `World` field.
- Translation errors: the script lets an exception from the OpenAI call end the run (see "## Findings"). The model's methods treat a raising call like an empty answer, as the script's other best-effort steps do: `fetch_url` returns `None` and the date parse gives "" on error. `Pipeline.RunAsWritten` follows the script as written.
- `OpenAITranslator.translate`'s reading of the response (`output_text`, else the joined text parts, else "") is part of the `World.translate` field. A `None` answer from that field stands for a call that raised.
