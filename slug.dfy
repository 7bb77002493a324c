/** The file-name slug of a feed title (`slugify`), which both
    scripts/translate_rss.py and scripts/build_translated_opml.py define
    identically: strip and lower-case the title, turn every run of characters
    outside `[a-z0-9]` into one `-`, collapse runs of `-`, trim `-` from both
    ends, and fall back to "feed" when nothing is left. */
module Slug {
  import opened Text

  /** The characters a slug keeps as they are: `[a-z0-9]`. */
  predicate IsSlugChar(c: char) {
    ('a' <= c <= 'z') || ('0' <= c <= '9')
  }

  /** Letters, digits and `-` only. */
  predicate SlugAlphabet(s: string) {
    forall i :: 0 <= i < |s| ==> IsSlugChar(s[i]) || s[i] == '-'
  }

  /** No `--` anywhere. */
  predicate NoDoubleDash(s: string) {
    forall i :: 0 <= i < |s| - 1 ==> !(s[i] == '-' && s[i + 1] == '-')
  }

  /** The letters and digits of `s`, in order. */
  function Keep(s: string): string {
    if s == [] then [] else (if IsSlugChar(s[0]) then [s[0]] else []) + Keep(s[1..])
  }

  lemma {:induction false} KeepAppend(a: string, b: string)
    ensures Keep(a + b) == Keep(a) + Keep(b)
  {
    if a == [] {
      assert a + b == b;
    } else {
      assert (a + b)[1..] == a[1..] + b;
      KeepAppend(a[1..], b);
    }
  }

  /** Drops the leading run of characters outside `[a-z0-9]`. */
  function SkipSeparators(s: string): (r: string)
    ensures |r| <= |s| && r == s[|s| - |r|..]
    ensures r == [] || IsSlugChar(r[0])
    ensures forall i :: 0 <= i < |s| - |r| ==> !IsSlugChar(s[i])
    ensures Keep(r) == Keep(s)
  {
    if s != [] && !IsSlugChar(s[0]) then SkipSeparators(s[1..]) else s
  }

  /** `re.sub(r"[^a-z0-9]+", "-", s)`: every maximal run of characters
      outside `[a-z0-9]` becomes a single `-`. */
  function DashRuns(s: string): (r: string)
    ensures SlugAlphabet(r) && NoDoubleDash(r)
    ensures Keep(r) == Keep(s)
    ensures (r != [] && r[0] == '-') <==> (s != [] && !IsSlugChar(s[0]))
    decreases |s|
  {
    if s == [] then []
    else if IsSlugChar(s[0]) then
      var rest := DashRuns(s[1..]);
      assert ([s[0]] + rest)[1..] == rest;
      [s[0]] + rest
    else
      var rest := DashRuns(SkipSeparators(s));
      assert ("-" + rest)[1..] == rest;
      "-" + rest
  }

  lemma {:induction false} SkipSeparatorsAppend(a: string, b: string)
    ensures SkipSeparators(a) != [] ==> SkipSeparators(a + b) == SkipSeparators(a) + b
    ensures SkipSeparators(a) == [] ==> SkipSeparators(a + b) == SkipSeparators(b)
  {
    if a == [] {
      assert a + b == b;
    } else if !IsSlugChar(a[0]) {
      assert (a + b)[1..] == a[1..] + b;
      SkipSeparatorsAppend(a[1..], b);
    }
  }

  /** The pass works run by run: a text cut where no separator run is split
      in two is the two halves' results put together. */
  lemma {:induction false} DashRunsAppend(a: string, b: string)
    requires a == [] || b == [] || IsSlugChar(a[|a| - 1]) || IsSlugChar(b[0])
    ensures DashRuns(a + b) == DashRuns(a) + DashRuns(b)
    decreases |a|
  {
    if a == [] {
      assert a + b == b;
    } else if IsSlugChar(a[0]) {
      DashRunsAppend(a[1..], b);
      DashRunsWordFirst(a, b);
    } else {
      var sa := SkipSeparators(a);
      SkipSeparatorsAppend(a, b);
      if sa != [] {
        assert sa[|sa| - 1] == a[|a| - 1];
        DashRunsAppend(sa, b);
        DashRunsSepFirst(a, b, sa);
      } else {
        assert !IsSlugChar(a[|a| - 1]);
        DashRunsSepOnly(a, b);
      }
    }
  }

  lemma DashRunsWordFirst(a: string, b: string)
    requires a != [] && IsSlugChar(a[0])
    requires DashRuns(a[1..] + b) == DashRuns(a[1..]) + DashRuns(b)
    ensures DashRuns(a + b) == DashRuns(a) + DashRuns(b)
  {
    var c, t := a[0], a[1..];
    ConsAppend(a, b);
    calc {
      DashRuns(a + b);
      DashRuns([c] + (t + b));
      { DashRunsCons(c, t + b); }
      [c] + DashRuns(t + b);
      [c] + (DashRuns(t) + DashRuns(b));
      { AppendAssoc([c], DashRuns(t), DashRuns(b)); }
      ([c] + DashRuns(t)) + DashRuns(b);
      { DashRunsCons(c, t); }
      DashRuns([c] + t) + DashRuns(b);
      DashRuns(a) + DashRuns(b);
    }
  }

  /** One letter or digit in front is kept in front. */
  lemma DashRunsCons(c: char, t: string)
    requires IsSlugChar(c)
    ensures DashRuns([c] + t) == [c] + DashRuns(t)
  {
    assert ([c] + t)[1..] == t;
  }

  /** A leading separator run becomes one `-`. */
  lemma DashRunsSkip(s: string)
    requires s != [] && !IsSlugChar(s[0])
    ensures DashRuns(s) == "-" + DashRuns(SkipSeparators(s))
  {
  }

  lemma DashRunsSepFirst(a: string, b: string, sa: string)
    requires a != [] && !IsSlugChar(a[0]) && sa == SkipSeparators(a)
    requires SkipSeparators(a + b) == sa + b
    requires DashRuns(sa + b) == DashRuns(sa) + DashRuns(b)
    ensures DashRuns(a + b) == DashRuns(a) + DashRuns(b)
  {
    AppendHead(a, b);
    DashRunsSkip(a + b);
    DashRunsSkip(a);
    AppendAssoc("-", DashRuns(sa), DashRuns(b));
  }

  lemma DashRunsSepOnly(a: string, b: string)
    requires a != [] && !IsSlugChar(a[0]) && SkipSeparators(a) == []
    requires SkipSeparators(a + b) == SkipSeparators(b)
    requires b == [] || IsSlugChar(b[0])
    ensures DashRuns(a + b) == DashRuns(a) + DashRuns(b)
  {
    AppendHead(a, b);
    DashRunsSkip(a + b);
    SkipSeparatorsWordFirst(b);
    DashRunsAllSeparators(a);
  }

  lemma SkipSeparatorsWordFirst(b: string)
    requires b == [] || IsSlugChar(b[0])
    ensures SkipSeparators(b) == b
  {
  }

  lemma DashRunsAllSeparators(a: string)
    requires a != [] && !IsSlugChar(a[0]) && SkipSeparators(a) == []
    ensures DashRuns(a) == "-"
  {
    DashRunsSkip(a);
    assert DashRuns([]) == [];
  }

  /** A text of letters and digits only is left as it is. */
  lemma {:induction false} DashRunsWord(w: string)
    requires forall i :: 0 <= i < |w| ==> IsSlugChar(w[i])
    ensures DashRuns(w) == w
  {
    if w != [] {
      DashRunsWord(w[1..]);
    }
  }

  /** A maximal run of characters outside `[a-z0-9]` (with a letter or digit,
      or nothing, on each side) becomes a single `-` in its place, and the
      text on either side is handled on its own. */
  lemma DashRunsRun(a: string, sep: string, b: string)
    requires sep != [] && forall i :: 0 <= i < |sep| ==> !IsSlugChar(sep[i])
    requires a == [] || IsSlugChar(a[|a| - 1])
    requires b == [] || IsSlugChar(b[0])
    ensures DashRuns(a + sep + b) == DashRuns(a) + "-" + DashRuns(b)
  {
    AppendAssoc(a, sep, b);
    DashRunsAppend(a, sep + b);
    DashRunsOneRun(sep, b);
    AppendAssoc(DashRuns(a), "-", DashRuns(b));
  }

  lemma DashRunsOneRun(sep: string, b: string)
    requires sep != [] && forall i :: 0 <= i < |sep| ==> !IsSlugChar(sep[i])
    requires b == [] || IsSlugChar(b[0])
    ensures DashRuns(sep + b) == "-" + DashRuns(b)
  {
    SkipSeparatorsAppend(sep, b);
    SkipAllSeparators(sep);
    AppendHead(sep, b);
    DashRunsSkip(sep + b);
    SkipSeparatorsWordFirst(b);
  }

  lemma {:induction false} SkipAllSeparators(sep: string)
    requires forall i :: 0 <= i < |sep| ==> !IsSlugChar(sep[i])
    ensures SkipSeparators(sep) == []
  {
    if sep != [] {
      SkipAllSeparators(sep[1..]);
    }
  }

  /** Drops the leading run of `-`. */
  function SkipDashes(s: string): (r: string)
    ensures |r| <= |s| && r == s[|s| - |r|..]
    ensures r == [] || r[0] != '-'
    ensures forall i :: 0 <= i < |s| - |r| ==> s[i] == '-'
  {
    if s != [] && s[0] == '-' then SkipDashes(s[1..]) else s
  }

  /** `re.sub(r"-{2,}", "-", s)`: every run of two or more `-` becomes
      one (a single `-` stays as it is). */
  function CollapseDashes(s: string): string
    decreases |s|
  {
    if s == [] then []
    else if s[0] == '-' then "-" + CollapseDashes(SkipDashes(s))
    else [s[0]] + CollapseDashes(s[1..])
  }

  /** The first pass already leaves no `--`, so the second is the identity
      on its output. */
  lemma {:induction false} CollapseDashesKeeps(s: string)
    requires NoDoubleDash(s)
    ensures CollapseDashes(s) == s
    decreases |s|
  {
    if s != [] {
      assert NoDoubleDash(s[1..]);
      if s[0] == '-' {
        assert SkipDashes(s) == s[1..];
      }
      CollapseDashesKeeps(s[1..]);
    }
  }

  /** The length of the leading run of `-`. */
  function LeadingDashes(s: string): (k: nat)
    ensures k <= |s| && AllDashes(s[..k])
    ensures k < |s| ==> s[k] != '-'
  {
    if s != [] && s[0] == '-' then
      var k := 1 + LeadingDashes(s[1..]);
      assert s[..k] == [s[0]] + s[1..][..k - 1];
      k
    else 0
  }

  /** The length of the trailing run of `-`. */
  function TrailingDashes(s: string): (k: nat)
    ensures k <= |s| && AllDashes(s[|s| - k..])
    ensures k < |s| ==> s[|s| - k - 1] != '-'
  {
    if s != [] && s[|s| - 1] == '-' then
      var k := 1 + TrailingDashes(s[..|s| - 1]);
      assert s[|s| - k..] == s[..|s| - 1][|s| - k..] + [s[|s| - 1]];
      k
    else 0
  }

  /** `s.strip("-")`: removes the runs of `-` at both ends. What is left is
      a piece of `s` with no `-` at either end, and everything cut off is
      `-`. */
  function TrimDashes(s: string): (r: string)
    ensures r == [] || (r[0] != '-' && r[|r| - 1] != '-')
    ensures exists a :: DashTrimmedAt(s, r, a)
  {
    var rest := s[LeadingDashes(s)..];
    var r := rest[..|rest| - TrailingDashes(rest)];
    DashTrimmedOf(s, LeadingDashes(s), rest, TrailingDashes(rest), r);
    r
  }

  /** `r` is the piece of `s` starting at `a`, and all of `s` outside it is
      `-`. */
  predicate DashTrimmedAt(s: string, r: string, a: nat) {
    a + |r| <= |s| && r == s[a..a + |r|] && AllDashes(s[..a]) && AllDashes(s[a + |r|..])
  }

  lemma DashTrimmedOf(s: string, a: nat, rest: string, t: nat, r: string)
    requires a <= |s| && AllDashes(s[..a]) && rest == s[a..]
    requires t <= |rest| && AllDashes(rest[|rest| - t..]) && r == rest[..|rest| - t]
    ensures DashTrimmedAt(s, r, a)
  {
    assert s[a..a + |r|] == rest[..|r|];
    assert s[a + |r|..] == rest[|rest| - t..];
  }

  predicate AllDashes(s: string) {
    forall i :: 0 <= i < |s| ==> s[i] == '-'
  }

  lemma {:induction false} KeepAllDashes(s: string)
    requires AllDashes(s)
    ensures Keep(s) == []
  {
    if s != [] {
      KeepAllDashes(s[1..]);
    }
  }

  /** `slugify`: the file-name slug of a feed title. */
  function Slugify(s: string): string {
    var trimmed := TrimDashes(CollapseDashes(DashRuns(Lower(Strip(s)))));
    if trimmed == [] then "feed" else trimmed
  }

  /** A slug uses only `[a-z0-9-]`, is never empty, has no `-` at either
      end and no `--`; its letters and digits are exactly those of the
      stripped, lower-cased title, and it is "feed" when the title has
      none. */
  lemma SlugifyWellFormed(s: string)
    ensures var r := Slugify(s);
      && r != [] && SlugAlphabet(r) && NoDoubleDash(r)
      && r[0] != '-' && r[|r| - 1] != '-'
      && (Keep(Lower(Strip(s))) == [] ==> r == "feed")
      && (Keep(Lower(Strip(s))) != [] ==> Keep(r) == Keep(Lower(Strip(s))))
  {
    var lowered := Lower(Strip(s));
    var trimmed := TrimDashes(CollapseDashes(DashRuns(lowered)));
    SlugPasses(lowered);
    if trimmed == [] {
      FeedIsSlug();
    }
  }

  lemma FeedIsSlug()
    ensures SlugAlphabet("feed") && NoDoubleDash("feed")
  {
  }

  /** What `TrimDashes` keeps of a string in the slug alphabet without
      `--`: the same alphabet, still no `--`, the same letters and digits,
      and something non-empty exactly when there was a letter or digit. */
  lemma SlugPasses(t: string)
    ensures var r := TrimDashes(CollapseDashes(DashRuns(t)));
      SlugAlphabet(r) && NoDoubleDash(r) && Keep(r) == Keep(t) && (r == [] <==> Keep(t) == [])
  {
    var d := DashRuns(t);
    CollapseDashesKeeps(d);
    TrimmedSlug(d, TrimDashes(d));
  }

  lemma TrimmedSlug(s: string, r: string)
    requires SlugAlphabet(s) && NoDoubleDash(s)
    requires r == TrimDashes(s)
    ensures SlugAlphabet(r) && NoDoubleDash(r)
    ensures Keep(r) == Keep(s)
    ensures r == [] <==> Keep(s) == []
  {
    var a := LeadingDashes(s);
    var rest := s[a..];
    var b := a + |rest| - TrailingDashes(rest);
    assert r == s[a..b];
    assert AllDashes(s[b..]) by {
      assert rest[|rest| - TrailingDashes(rest)..] == s[b..];
    }
    InfixKeepsShape(s, a, b);
    KeepAroundDashes(s, a, b);
    if r != [] {
      assert IsSlugChar(r[0]);
      assert Keep(r) == [r[0]] + Keep(r[1..]);
    }
  }

  lemma InfixKeepsShape(s: string, a: nat, b: nat)
    requires a <= b <= |s|
    requires SlugAlphabet(s) && NoDoubleDash(s)
    ensures SlugAlphabet(s[a..b]) && NoDoubleDash(s[a..b])
  {
    var r := s[a..b];
    forall i | 0 <= i < |r| - 1 ensures !(r[i] == '-' && r[i + 1] == '-') {
      assert r[i] == s[a + i] && r[i + 1] == s[a + i + 1];
    }
  }

  lemma KeepAroundDashes(s: string, a: nat, b: nat)
    requires a <= b <= |s|
    requires AllDashes(s[..a]) && AllDashes(s[b..])
    ensures Keep(s[a..b]) == Keep(s)
  {
    assert s == s[..a] + s[a..b] + s[b..];
    KeepAppend(s[..a], s[a..b]);
    KeepAppend(s[..a] + s[a..b], s[b..]);
    KeepAllDashes(s[..a]);
    KeepAllDashes(s[b..]);
  }
}
