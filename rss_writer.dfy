/** `build_rss` of scripts/translate_rss.py: a small RSS 2.0 writer. Text
    fields go through `esc`, which escapes `&`, `<` and `>`; the item
    description, which holds generated HTML, goes into a CDATA section
    (section 2.7 of XML 1.0) as it is. The document is a list of lines
    joined with newlines; the model states its properties on that list. */
module RssWriter {
  import opened Text
  import opened Wrappers

  /** One output item; a key the source's dictionary lacks is "". */
  datatype Item = Item(title: string, link: string, guid: string, pubDate: string, description: string)

  /** `s.replace(c, rep)` for a one-character pattern. */
  function ReplaceChar(s: string, c: char, rep: string): string {
    if s == [] then [] else (if s[0] == c then rep else [s[0]]) + ReplaceChar(s[1..], c, rep)
  }

  /** `esc`: `&` first, then `<`, then `>`. */
  function Esc(s: string): string {
    ReplaceChar(ReplaceChar(ReplaceChar(s, '&', "&amp;"), '<', "&lt;"), '>', "&gt;")
  }

  /** What `esc` makes of one character. */
  function EscChar(c: char): string {
    if c == '&' then "&amp;" else if c == '<' then "&lt;" else if c == '>' then "&gt;" else [c]
  }

  /** The character-by-character reading of `esc`. */
  function EscEach(s: string): string {
    if s == [] then [] else EscChar(s[0]) + EscEach(s[1..])
  }

  lemma {:induction false} ReplaceCharAppend(a: string, b: string, c: char, rep: string)
    ensures ReplaceChar(a + b, c, rep) == ReplaceChar(a, c, rep) + ReplaceChar(b, c, rep)
  {
    if a == [] {
      assert a + b == b;
    } else {
      assert (a + b)[1..] == a[1..] + b;
      ReplaceCharAppend(a[1..], b, c, rep);
    }
  }

  lemma {:induction false} ReplaceCharAbsent(s: string, c: char, rep: string)
    requires c !in s
    ensures ReplaceChar(s, c, rep) == s
  {
    if s != [] {
      ReplaceCharAbsent(s[1..], c, rep);
    }
  }

  lemma ReplaceCharOne(c: char, x: char, rep: string)
    ensures ReplaceChar([c], x, rep) == (if c == x then rep else [c])
  {
    assert [c][1..] == [];
  }

  /** `esc` of one character is `EscChar`: `&` is replaced first, so the
      `&` of an entity written by a later pass is never replaced again. */
  lemma EscOne(c: char)
    ensures Esc([c]) == EscChar(c)
  {
    ReplaceCharOne(c, '&', "&amp;");
    if c == '&' {
      ReplaceCharAbsent("&amp;", '<', "&lt;");
      ReplaceCharAbsent("&amp;", '>', "&gt;");
    } else {
      ReplaceCharOne(c, '<', "&lt;");
      if c == '<' {
        ReplaceCharAbsent("&lt;", '>', "&gt;");
      } else {
        ReplaceCharOne(c, '>', "&gt;");
      }
    }
  }

  lemma EscAppend(a: string, b: string)
    ensures Esc(a + b) == Esc(a) + Esc(b)
  {
    var a1, b1 := ReplaceChar(a, '&', "&amp;"), ReplaceChar(b, '&', "&amp;");
    ReplaceCharAppend(a, b, '&', "&amp;");
    ReplaceCharAppend(a1, b1, '<', "&lt;");
    ReplaceCharAppend(ReplaceChar(a1, '<', "&lt;"), ReplaceChar(b1, '<', "&lt;"), '>', "&gt;");
  }

  /** Replacing `&` before `<` and `>` means no entity is escaped twice:
      the three passes of `esc` act on each character on its own. */
  lemma {:induction false} EscIsCharwise(s: string)
    ensures Esc(s) == EscEach(s)
  {
    if s != [] {
      assert s == [s[0]] + s[1..];
      EscAppend([s[0]], s[1..]);
      EscOne(s[0]);
      EscIsCharwise(s[1..]);
    }
  }

  /** `esc` leaves no raw `<` or `>`, and every `&` it leaves starts one of
      the entities it writes. */
  lemma {:induction false} EscIsClean(s: string)
    ensures '<' !in Esc(s) && '>' !in Esc(s)
    ensures forall i :: 0 <= i < |Esc(s)| && Esc(s)[i] == '&' ==>
      StartsWith(Esc(s)[i..], "&amp;") || StartsWith(Esc(s)[i..], "&lt;") || StartsWith(Esc(s)[i..], "&gt;")
  {
    EscIsCharwise(s);
    EscEachIsClean(s);
  }

  lemma {:induction false} EscEachIsClean(s: string)
    ensures '<' !in EscEach(s) && '>' !in EscEach(s)
    ensures forall i :: 0 <= i < |EscEach(s)| && EscEach(s)[i] == '&' ==>
      StartsWith(EscEach(s)[i..], "&amp;") || StartsWith(EscEach(s)[i..], "&lt;") || StartsWith(EscEach(s)[i..], "&gt;")
  {
    if s != [] {
      EscEachIsClean(s[1..]);
      var e, rest := EscChar(s[0]), EscEach(s[1..]);
      var r := e + rest;
      forall i | 0 <= i < |r| && r[i] == '&'
        ensures StartsWith(r[i..], "&amp;") || StartsWith(r[i..], "&lt;") || StartsWith(r[i..], "&gt;")
      {
        if i < |e| {
          assert i == 0;
          assert r[..|e|] == e;
        } else {
          assert r[i..] == rest[i - |e|..];
        }
      }
    }
  }

  /** Decodes the three entities `esc` writes. */
  function Unescape(s: string): string
    decreases |s|
  {
    if s == [] then []
    else if StartsWith(s, "&amp;") then "&" + Unescape(s[5..])
    else if StartsWith(s, "&lt;") then "<" + Unescape(s[4..])
    else if StartsWith(s, "&gt;") then ">" + Unescape(s[4..])
    else [s[0]] + Unescape(s[1..])
  }

  /** Escaping loses nothing: decoding the escaped text gives it back. */
  lemma {:induction false} UnescapeEsc(s: string)
    ensures Unescape(Esc(s)) == s
  {
    EscIsCharwise(s);
    UnescapeEscEach(s);
  }

  /** Decoding reads back exactly the character `EscChar` wrote first. */
  lemma UnescapeFront(c: char, rest: string)
    ensures Unescape(EscChar(c) + rest) == [c] + Unescape(rest)
  {
    if c == '&' {
      UnescapeEntity("&amp;", '&', rest);
    } else if c == '<' {
      UnescapeEntity("&lt;", '<', rest);
    } else if c == '>' {
      UnescapeEntity("&gt;", '>', rest);
    } else {
      UnescapePlain(c, rest);
    }
  }

  lemma UnescapeEntity(e: string, c: char, rest: string)
    requires (e, c) == ("&amp;", '&') || (e, c) == ("&lt;", '<') || (e, c) == ("&gt;", '>')
    ensures Unescape(e + rest) == [c] + Unescape(rest)
  {
    var s := e + rest;
    assert s[..|e|] == e;
    assert s[|e|..] == rest;
    if c != '&' {
      assert !StartsWith(s, "&amp;") by { assert s[1] != 'a'; }
      if c == '>' {
        assert !StartsWith(s, "&lt;") by { assert s[1] == 'g'; }
      }
    }
  }

  lemma UnescapePlain(c: char, rest: string)
    requires c != '&'
    ensures Unescape([c] + rest) == [c] + Unescape(rest)
  {
    var s := [c] + rest;
    assert s[0] == c && s[1..] == rest;
  }

  lemma {:induction false} UnescapeEscEach(s: string)
    ensures Unescape(EscEach(s)) == s
  {
    if s != [] {
      UnescapeFront(s[0], EscEach(s[1..]));
      UnescapeEscEach(s[1..]);
      assert s == [s[0]] + s[1..];
    }
  }

  const XmlDecl: string := "<?xml version=\"1.0\" encoding=\"UTF-8\"?>"
  const RssOpen: string := "<rss version=\"2.0\">"
  const ChannelOpen: string := "<channel>"
  const GuidOpen: string := "<guid isPermaLink=\"false\">"
  const CdataOpen: string := "<description><![CDATA["
  const CdataClose: string := "]]></description>"
  const Footer: string := "</channel></rss>"

  /** The lines `build_rss` writes before the items; `now` is the
      RFC 822 build date the source takes from the clock. */
  function HeaderLines(feedTitle: string, now: string): seq<string> {
    [ XmlDecl,
      RssOpen,
      ChannelOpen,
      "<title>" + Esc(feedTitle) + "</title>",
      "<link></link>",
      "<description>" + Esc(feedTitle) + "</description>",
      "<lastBuildDate>" + now + "</lastBuildDate>" ]
  }

  /** The lines of one `<item>` block: `<pubDate>` only when the item has
      one. */
  function ItemBlock(it: Item): seq<string> {
    [ "<item>",
      "<title>" + Esc(it.title) + "</title>",
      "<link>" + Esc(it.link) + "</link>",
      GuidOpen + Esc(it.guid) + "</guid>" ]
    + (if it.pubDate != "" then ["<pubDate>" + Esc(it.pubDate) + "</pubDate>"] else [])
    + [ CdataOpen + it.description + CdataClose,
        "</item>" ]
  }

  /** The item blocks of `items`, in order. */
  function ItemLines(items: seq<Item>): seq<string> {
    if items == [] then [] else ItemBlock(items[0]) + ItemLines(items[1..])
  }

  lemma {:induction false} ItemLinesAppend(items: seq<Item>, it: Item)
    ensures ItemLines(items + [it]) == ItemLines(items) + ItemBlock(it)
  {
    if items == [] {
      assert [it][1..] == [];
    } else {
      assert (items + [it])[1..] == items[1..] + [it];
      ItemLinesAppend(items[1..], it);
    }
  }

  /** `"\n".join(lines)`. */
  function JoinLines(lines: seq<string>): string {
    if lines == [] then ""
    else if |lines| == 1 then lines[0]
    else lines[0] + "\n" + JoinLines(lines[1..])
  }

  /** All the lines of the document. */
  function RssLines(feedTitle: string, items: seq<Item>, now: string): seq<string> {
    HeaderLines(feedTitle, now) + ItemLines(items) + [Footer]
  }

  /** `build_rss`: append the channel lines, one block per item, the
      closing line, and join them with newlines. */
  method BuildRss(feedTitle: string, items: seq<Item>, now: string) returns (xml: string)
    ensures xml == JoinLines(RssLines(feedTitle, items, now))
  {
    var out := Header(feedTitle, now);
    for i := 0 to |items|
      invariant out == HeaderLines(feedTitle, now) + ItemLines(items[..i])
    {
      out := AppendItem(out, items[i]);
      ItemLinesAppend(items[..i], items[i]);
      assert items[..i + 1] == items[..i] + [items[i]];
    }
    out := out + [Footer];
    assert items[..|items|] == items;
    xml := JoinLines(out);
  }

  /** The first lines `build_rss` appends, one by one. */
  method Header(feedTitle: string, now: string) returns (out: seq<string>)
    ensures out == HeaderLines(feedTitle, now)
  {
    out := [];
    out := out + [XmlDecl];
    out := out + [RssOpen];
    out := out + [ChannelOpen];
    out := out + ["<title>" + Esc(feedTitle) + "</title>"];
    out := out + ["<link></link>"];
    out := out + ["<description>" + Esc(feedTitle) + "</description>"];
    out := out + ["<lastBuildDate>" + now + "</lastBuildDate>"];
  }

  /** The body of the item loop of `build_rss`: appends the block of `it`. */
  method AppendItem(out: seq<string>, it: Item) returns (out': seq<string>)
    ensures out' == out + ItemBlock(it)
  {
    out' := out + ["<item>"];
    out' := out' + ["<title>" + Esc(it.title) + "</title>"];
    out' := out' + ["<link>" + Esc(it.link) + "</link>"];
    out' := out' + [GuidOpen + Esc(it.guid) + "</guid>"];
    if it.pubDate != "" {
      out' := out' + ["<pubDate>" + Esc(it.pubDate) + "</pubDate>"];
    }
    out' := out' + [CdataOpen + it.description + CdataClose];
    out' := out' + ["</item>"];
  }

  /** The text between a known opening and closing part of a line. */
  function Between(line: string, open: string, close: string): Option<string> {
    if |open| + |close| <= |line| && StartsWith(line, open) && EndsWith(line, close)
    then Some(line[|open|..|line| - |close|]) else None
  }

  lemma BetweenWrapped(open: string, body: string, close: string)
    ensures Between(open + body + close, open, close) == Some(body)
  {
    var line := open + body + close;
    assert line[..|open|] == open;
    assert line[|line| - |close|..] == close;
    assert line[|open|..|line| - |close|] == body;
  }

  /** Reads one item block back: the item and the number of lines used. */
  function ReadItem(lines: seq<string>): Option<(Item, nat)> {
    if |lines| < 6 || lines[0] != "<item>" then None
    else
      var hasPub := StartsWith(lines[4], "<pubDate>");
      var n := if hasPub then 7 else 6;
      if |lines| < n || lines[n - 1] != "</item>" then None
      else
        match (Between(lines[1], "<title>", "</title>"), Between(lines[2], "<link>", "</link>"),
               Between(lines[3], GuidOpen, "</guid>"),
               if hasPub then Between(lines[4], "<pubDate>", "</pubDate>") else Some(""),
               Between(lines[n - 2], CdataOpen, CdataClose))
        case (Some(t), Some(l), Some(g), Some(p), Some(d)) =>
          Some((Item(Unescape(t), Unescape(l), Unescape(g), Unescape(p), d), n))
        case _ => None
  }

  /** Reads consecutive item blocks back, up to the end of `lines`. */
  function ReadItems(lines: seq<string>): Option<seq<Item>>
    decreases |lines|
  {
    if lines == [] then Some([])
    else
      match ReadItem(lines)
      case None => None
      case Some((it, n)) =>
        if n == 0 || n > |lines| then None
        else
          match ReadItems(lines[n..])
          case None => None
          case Some(rest) => Some([it] + rest)
  }

  /** A reader of the whole document: the channel title and the items. */
  function ReadRss(lines: seq<string>): Option<(string, seq<Item>)> {
    if |lines| < 8 || lines[0] != XmlDecl || lines[1] != RssOpen || lines[2] != ChannelOpen || lines[|lines| - 1] != Footer then None
    else
      match (Between(lines[3], "<title>", "</title>"), ReadItems(lines[7..|lines| - 1]))
      case (Some(t), Some(items)) => Some((Unescape(t), items))
      case _ => None
  }

  lemma ReadItemBlock(it: Item, rest: seq<string>)
    ensures ReadItem(ItemBlock(it) + rest) == Some((it, |ItemBlock(it)|))
  {
    var lines := ItemBlock(it) + rest;
    var n := |ItemBlock(it)|;
    BetweenWrapped("<title>", Esc(it.title), "</title>");
    BetweenWrapped("<link>", Esc(it.link), "</link>");
    BetweenWrapped(GuidOpen, Esc(it.guid), "</guid>");
    BetweenWrapped(CdataOpen, it.description, CdataClose);
    UnescapeEsc(it.title);
    UnescapeEsc(it.link);
    UnescapeEsc(it.guid);
    if it.pubDate != "" {
      BetweenWrapped("<pubDate>", Esc(it.pubDate), "</pubDate>");
      UnescapeEsc(it.pubDate);
      assert lines[4][..9] == "<pubDate>";
    } else {
      assert lines[4][..9] != "<pubDate>" by {
        assert lines[4][1] == 'd';
      }
      assert Unescape("") == "";
    }
    assert lines[n - 1] == "</item>";
  }

  /** Exactly one block per item, in input order: reading the item lines
      back gives the items themselves, with a `<pubDate>` line read back
      exactly for the items that have a date. */
  lemma {:induction false} ReadItemsRoundTrip(items: seq<Item>)
    ensures ReadItems(ItemLines(items)) == Some(items)
  {
    if items != [] {
      var block := ItemBlock(items[0]);
      var rest := ItemLines(items[1..]);
      ReadItemBlock(items[0], rest);
      assert (block + rest)[|block|..] == rest;
      ReadItemsRoundTrip(items[1..]);
      assert items == [items[0]] + items[1..];
    }
  }

  /** The document reads back as its channel title and its items. */
  lemma RssRoundTrip(feedTitle: string, items: seq<Item>, now: string)
    ensures ReadRss(RssLines(feedTitle, items, now)) == Some((feedTitle, items))
  {
    var head := HeaderLines(feedTitle, now);
    var body := ItemLines(items);
    var lines := RssLines(feedTitle, items, now);
    assert |head| == 7;
    assert lines == head + body + [Footer];
    assert lines[..7] == head;
    assert lines[7..|lines| - 1] == body;
    assert lines[|lines| - 1] == Footer;
    assert lines[0] == XmlDecl && lines[1] == RssOpen && lines[2] == ChannelOpen;
    assert lines[3] == "<title>" + Esc(feedTitle) + "</title>";
    BetweenWrapped("<title>", Esc(feedTitle), "</title>");
    UnescapeEsc(feedTitle);
    ReadItemsRoundTrip(items);
  }
}
