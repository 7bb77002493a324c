/** How scripts/translate_rss.py prepares the text it sends to the
    translator: the blank-line collapse at the end of `extract_main_text`,
    the choice between the article and the feed summary, and
    `truncate_for_translation`. */
module SourceText {
  import opened Text

  /** Articles shorter than this (after stripping) give way to the summary. */
  const MinArticleChars: nat := 400

  /** The budget the pipeline passes to `truncate_for_translation`. */
  const MaxTranslationChars: nat := 12000

  /** The divider put between the head and the tail of a truncated text. */
  const Marker: string := "\n\n[...TRUNCATED...]\n\n"

  /** Three newlines in a row start at `i`. */
  predicate TripleNewlineAt(s: string, i: nat)
    requires i + 3 <= |s|
  {
    s[i] == '\n' && s[i + 1] == '\n' && s[i + 2] == '\n'
  }

  /** The length of the leading run of newlines. */
  function LeadingNewlines(s: string): (k: nat)
    ensures k <= |s|
    ensures forall i :: 0 <= i < k ==> s[i] == '\n'
    ensures k < |s| ==> s[k] != '\n'
  {
    if s != [] && s[0] == '\n' then 1 + LeadingNewlines(s[1..]) else 0
  }

  /** No three newlines in a row anywhere. */
  predicate NoTriple(s: string) {
    forall i :: 0 <= i && i + 3 <= |s| ==> !TripleNewlineAt(s, i)
  }

  /** `re.sub(r"\n{3,}", "\n\n", text)`: every run of three or more
      newlines becomes exactly two; shorter runs and all other characters
      stay as they are. */
  function CollapseNewlines(s: string): (r: string)
    ensures NoTriple(r)
    ensures r == [] <==> s == []
    ensures r != [] ==> (r[0] == '\n' <==> s[0] == '\n')
    decreases |s|
  {
    if s == [] then []
    else if s[0] != '\n' then
      var rest := CollapseNewlines(s[1..]);
      NoTripleAfter([s[0]], rest);
      [s[0]] + rest
    else
      var k := LeadingNewlines(s);
      var run := if k >= 3 then "\n\n" else s[..k];
      var rest := CollapseNewlines(s[k..]);
      NoTripleAfter(run, rest);
      run + rest
  }

  /** Putting at most two characters in front of a text without triples
      makes none, when they are a single non-newline or the text does not
      start with a newline. */
  lemma NoTripleAfter(a: string, b: string)
    requires |a| <= 2 && NoTriple(b)
    requires (|a| == 1 && a[0] != '\n') || b == [] || b[0] != '\n'
    ensures NoTriple(a + b)
  {
    var r := a + b;
    forall i | 0 <= i && i + 3 <= |r| ensures !TripleNewlineAt(r, i) {
      if i >= |a| {
        assert r[i] == b[i - |a|] && r[i + 1] == b[i - |a| + 1] && r[i + 2] == b[i - |a| + 2];
        assert !TripleNewlineAt(b, i - |a|);
      } else if |a| == 1 && a[0] != '\n' {
        assert r[0] == a[0];
      } else {
        assert r[|a|] == b[0];
      }
    }
  }

  /** `k` newlines. */
  function Newlines(k: nat): (r: string)
    ensures |r| == k && forall i :: 0 <= i < k ==> r[i] == '\n'
  {
    if k == 0 then [] else "\n" + Newlines(k - 1)
  }

  /** The first step of the collapse on a text that starts with a newline. */
  lemma CollapseNewlinesFirstRun(s: string)
    requires s != [] && s[0] == '\n'
    ensures var k := LeadingNewlines(s);
      CollapseNewlines(s) == (if k >= 3 then "\n\n" else s[..k]) + CollapseNewlines(s[k..])
  {
  }

  lemma CollapseNewlinesCons(c: char, t: string)
    requires c != '\n'
    ensures CollapseNewlines([c] + t) == [c] + CollapseNewlines(t)
  {
    assert ([c] + t)[1..] == t;
  }

  /** The newline run at the front of `a + b` is the one of `a` when `a`
      has another character, and runs on into `b` otherwise. */
  lemma {:induction false} LeadingNewlinesAppend(a: string, b: string)
    ensures LeadingNewlines(a) < |a| ==> LeadingNewlines(a + b) == LeadingNewlines(a)
    ensures LeadingNewlines(a) == |a| ==> LeadingNewlines(a + b) == |a| + LeadingNewlines(b)
  {
    if a == [] {
      assert a + b == b;
    } else if a[0] == '\n' {
      ConsAppend(a, b);
      LeadingNewlinesAppend(a[1..], b);
    }
  }

  /** The collapse works run by run: a text cut where no newline run is
      split in two is the two halves' results put together. */
  lemma {:induction false} CollapseNewlinesAppend(a: string, b: string)
    requires a == [] || b == [] || a[|a| - 1] != '\n' || b[0] != '\n'
    ensures CollapseNewlines(a + b) == CollapseNewlines(a) + CollapseNewlines(b)
    decreases |a|
  {
    if a == [] {
      assert a + b == b;
    } else if a[0] != '\n' {
      CollapseNewlinesAppend(a[1..], b);
      CollapseAppendChar(a, b);
    } else {
      var k := LeadingNewlines(a);
      LeadingNewlinesAppend(a, b);
      AppendHead(a, b);
      if k < |a| {
        CollapseNewlinesAppend(a[k..], b);
        CollapseAppendRun(a, b, k);
      } else {
        CollapseAppendAllRun(a, b);
      }
    }
  }

  lemma CollapseAppendChar(a: string, b: string)
    requires a != [] && a[0] != '\n'
    requires CollapseNewlines(a[1..] + b) == CollapseNewlines(a[1..]) + CollapseNewlines(b)
    ensures CollapseNewlines(a + b) == CollapseNewlines(a) + CollapseNewlines(b)
  {
    ConsAppend(a, b);
    CollapseNewlinesCons(a[0], a[1..] + b);
    CollapseNewlinesCons(a[0], a[1..]);
    AppendAssoc([a[0]], CollapseNewlines(a[1..]), CollapseNewlines(b));
  }

  lemma CollapseAppendRun(a: string, b: string, k: nat)
    requires a != [] && a[0] == '\n' && k == LeadingNewlines(a) && k < |a|
    requires LeadingNewlines(a + b) == k
    requires CollapseNewlines(a[k..] + b) == CollapseNewlines(a[k..]) + CollapseNewlines(b)
    ensures CollapseNewlines(a + b) == CollapseNewlines(a) + CollapseNewlines(b)
  {
    AppendHead(a, b);
    var run := if k >= 3 then "\n\n" else a[..k];
    assert (a + b)[..k] == a[..k] && (a + b)[k..] == a[k..] + b;
    CollapseNewlinesFirstRun(a + b);
    CollapseNewlinesFirstRun(a);
    AppendAssoc(run, CollapseNewlines(a[k..]), CollapseNewlines(b));
  }

  lemma CollapseAppendAllRun(a: string, b: string)
    requires a != [] && a[0] == '\n' && LeadingNewlines(a) == |a|
    requires b == [] || b[0] != '\n'
    requires LeadingNewlines(a + b) == |a| + LeadingNewlines(b)
    ensures CollapseNewlines(a + b) == CollapseNewlines(a) + CollapseNewlines(b)
  {
    var k := |a|;
    var run := if k >= 3 then "\n\n" else a;
    AppendHead(a, b);
    assert LeadingNewlines(b) == 0;
    assert (a + b)[..k] == a && (a + b)[k..] == b;
    CollapseNewlinesFirstRun(a + b);
    assert CollapseNewlines(a + b) == run + CollapseNewlines(b);
    CollapseNewlinesFirstRun(a);
    assert a[..k] == a && a[k..] == [];
    assert CollapseNewlines(a) == run;
  }

  /** A maximal run of `k` newlines (nothing or another character on each
      side) becomes exactly two newlines when `k` is at least three and is
      kept as it is otherwise; the text on either side is handled on its
      own. */
  lemma CollapseNewlinesRun(a: string, k: nat, b: string)
    requires a == [] || a[|a| - 1] != '\n'
    requires b == [] || b[0] != '\n'
    ensures CollapseNewlines(a + Newlines(k) + b)
         == CollapseNewlines(a) + (if k >= 3 then "\n\n" else Newlines(k)) + CollapseNewlines(b)
  {
    var n := Newlines(k);
    AppendAssoc(a, n, b);
    CollapseNewlinesAppend(a, n + b);
    CollapseOneRun(n, b);
    AppendAssoc(CollapseNewlines(a), if k >= 3 then "\n\n" else n, CollapseNewlines(b));
  }

  lemma CollapseOneRun(n: string, b: string)
    requires forall i :: 0 <= i < |n| ==> n[i] == '\n'
    requires b == [] || b[0] != '\n'
    ensures CollapseNewlines(n + b) == (if |n| >= 3 then "\n\n" else n) + CollapseNewlines(b)
  {
    if n == [] {
      assert n + b == b;
    } else {
      AllNewlinesLead(n);
      LeadingNewlinesAppend(n, b);
      CollapseAppendAllRun(n, b);
      CollapseNewlinesFirstRun(n);
      assert n[..|n|] == n && n[|n|..] == [];
    }
  }

  lemma {:induction false} AllNewlinesLead(n: string)
    requires forall i :: 0 <= i < |n| ==> n[i] == '\n'
    ensures LeadingNewlines(n) == |n|
  {
    if n != [] {
      AllNewlinesLead(n[1..]);
    }
  }

  /** The characters of `s` other than newlines, in order. */
  function Visible(s: string): string {
    if s == [] then [] else (if s[0] == '\n' then [] else [s[0]]) + Visible(s[1..])
  }

  lemma {:induction false} VisibleOfNewlines(s: string, k: nat)
    requires k <= |s| && forall i :: 0 <= i < k ==> s[i] == '\n'
    ensures Visible(s) == Visible(s[k..])
  {
    if k > 0 {
      VisibleOfNewlines(s[1..], k - 1);
      assert s[1..][k - 1..] == s[k..];
    }
  }

  /** The collapse only removes newlines: every other character is kept, in
      order. */
  lemma {:induction false} CollapseNewlinesKeepsText(s: string)
    ensures Visible(CollapseNewlines(s)) == Visible(s)
    decreases |s|
  {
    if s != [] {
      if s[0] != '\n' {
        CollapseNewlinesKeepsText(s[1..]);
        assert ([s[0]] + CollapseNewlines(s[1..]))[1..] == CollapseNewlines(s[1..]);
      } else {
        var k := LeadingNewlines(s);
        var run := if k >= 3 then "\n\n" else s[..k];
        var rest := CollapseNewlines(s[k..]);
        CollapseNewlinesKeepsText(s[k..]);
        VisibleOfNewlines(s, k);
        VisibleOfNewlines(run + rest, |run|);
        assert (run + rest)[|run|..] == rest;
      }
    }
  }

  /** Running the collapse on its own output changes nothing. */
  lemma CollapseNewlinesIdempotent(s: string)
    ensures CollapseNewlines(CollapseNewlines(s)) == CollapseNewlines(s)
  {
    NoTripleIsFixed(CollapseNewlines(s));
  }

  lemma {:induction false} NoTripleIsFixed(s: string)
    requires NoTriple(s)
    ensures CollapseNewlines(s) == s
    decreases |s|
  {
    if s != [] {
      if s[0] != '\n' {
        NoTripleSuffix(s, 1);
        NoTripleIsFixed(s[1..]);
      } else {
        var k := LeadingNewlines(s);
        if k >= 3 {
          assert TripleNewlineAt(s, 0);
        }
        NoTripleSuffix(s, k);
        NoTripleIsFixed(s[k..]);
        assert s == s[..k] + s[k..];
      }
    }
  }

  lemma NoTripleSuffix(s: string, k: nat)
    requires k <= |s| && NoTriple(s)
    ensures NoTriple(s[k..])
  {
    var t := s[k..];
    forall i | 0 <= i && i + 3 <= |t| ensures !TripleNewlineAt(t, i) {
      assert !TripleNewlineAt(s, i + k);
    }
  }

  /** The text to translate: the extracted article when, stripped, it has
      at least `MinArticleChars` characters, otherwise the plain text of
      the summary. */
  function ChooseSource(article: string, summaryText: string): (r: string)
    ensures |Strip(article)| >= MinArticleChars ==> r == Strip(article) && |r| >= MinArticleChars
    ensures |Strip(article)| < MinArticleChars ==> r == summaryText
  {
    if |Strip(article)| >= MinArticleChars then Strip(article) else summaryText
  }

  /** `int(max_chars * 0.7)`, taken as an integer floor. */
  function HeadLen(maxChars: nat): nat { maxChars * 7 / 10 }

  /** `int(max_chars * 0.3)`, taken as an integer floor. */
  function TailLen(maxChars: nat): nat { maxChars * 3 / 10 }

  /** `truncate_for_translation`. A text that fits the budget once stripped
      is returned stripped; a longer one keeps its head and its tail around
      `Marker`. Python's `text[-0:]` is the whole text, so a budget whose
      tail length rounds down to 0 keeps all of it. */
  function TruncateForTranslation(text: string, maxChars: nat): string {
    var t := Strip(text);
    if |t| <= maxChars then t
    else
      var tail := if TailLen(maxChars) == 0 then t else t[|t| - TailLen(maxChars)..];
      t[..HeadLen(maxChars)] + Marker + tail
  }

  /** A stripped text within the budget comes back unchanged. A longer one
      becomes its first `HeadLen` characters, the marker and its last
      `TailLen` characters, at most `maxChars + |Marker|` long (for a budget
      of at least 4, where the tail is not empty). */
  lemma TruncateShape(text: string, maxChars: nat)
    ensures var t := Strip(text); var r := TruncateForTranslation(text, maxChars);
      && (|t| <= maxChars ==> r == t)
      && (|t| > maxChars && maxChars >= 4 ==>
            && r == t[..HeadLen(maxChars)] + Marker + t[|t| - TailLen(maxChars)..]
            && |r| <= maxChars + |Marker|)
      && (|t| > maxChars && maxChars < 4 ==> r == t[..HeadLen(maxChars)] + Marker + t)
  {
  }

  /** The result fits the budget exactly when nothing was cut: a truncated
      text is always longer than `maxChars`. */
  lemma TruncateFitsIffUncut(text: string, maxChars: nat)
    ensures |TruncateForTranslation(text, maxChars)| <= maxChars <==> |Strip(text)| <= maxChars
  {
    var t := Strip(text);
    if |t| > maxChars {
      var r := TruncateForTranslation(text, maxChars);
      assert |Marker| == 21;
      assert HeadLen(maxChars) + TailLen(maxChars) + 2 >= maxChars;
      assert |r| >= HeadLen(maxChars) + 21 + TailLen(maxChars);
    }
  }
}
