/** `sanitize_text` of the OPML sanitizer: two rewriting passes that make a
    text acceptable to an XML parser. The first deletes the C0 control
    characters that XML 1.0 (section 2.2, the `Char` production) forbids,
    keeping tab, line feed and carriage return, and deletes DEL as well. The
    second turns every `&` that does not begin a predefined entity
    (section 4.6) or a character reference (section 4.1) into `&amp;`. */
module Sanitize {
  import opened Text

  /** The characters the first pass deletes. */
  predicate IsControl(c: char) {
    || c <= '\U{08}' || c == '\U{0B}' || c == '\U{0C}'
    || ('\U{0E}' <= c <= '\U{1F}') || c == '\U{7F}'
  }

  /** The first pass: every control character removed, everything else kept
      in order. */
  function DropControl(s: string): (r: string)
    ensures |r| <= |s|
    ensures forall c :: c in r <==> c in s && !IsControl(c)
  {
    if s == [] then []
    else (if IsControl(s[0]) then [] else [s[0]]) + DropControl(s[1..])
  }

  /** The first pass works character by character, so it keeps the order of
      what it keeps. */
  lemma {:induction false} DropControlAppend(a: string, b: string)
    ensures DropControl(a + b) == DropControl(a) + DropControl(b)
  {
    if a == [] {
      assert a + b == b;
    } else {
      assert (a + b)[1..] == a[1..] + b;
      DropControlAppend(a[1..], b);
    }
  }

  /** A text without control characters passes the first pass unchanged. */
  lemma {:induction false} DropControlKeepsClean(s: string)
    requires forall i :: 0 <= i < |s| ==> !IsControl(s[i])
    ensures DropControl(s) == s
  {
    if s != [] {
      DropControlKeepsClean(s[1..]);
    }
  }

  /** A decimal digit, or with `hex` also `a`-`f` and `A`-`F`. */
  predicate IsRefDigit(c: char, hex: bool) {
    ('0' <= c <= '9') || (hex && (('a' <= c <= 'f') || ('A' <= c <= 'F')))
  }

  /** A non-empty run of digits. */
  predicate Digits(s: string, hex: bool) {
    s != [] && IsRefDigit(s[0], hex) && (|s| == 1 || Digits(s[1..], hex))
  }

  /** The text of one reference without its `&`: a predefined entity
      (`amp;`, `lt;`, `gt;`, `quot;`, `apos;`), `#` decimal digits `;`, or
      `#x` hexadecimal digits `;`. */
  predicate IsRef(w: string) {
    || w == "amp;" || w == "lt;" || w == "gt;" || w == "quot;" || w == "apos;"
    || (|w| >= 3 && w[0] == '#' && w[|w| - 1] == ';' && Digits(w[1..|w| - 1], false))
    || (|w| >= 4 && w[0] == '#' && w[1] == 'x' && w[|w| - 1] == ';' && Digits(w[2..|w| - 1], true))
  }

  /** The lookahead after an `&`: some prefix of the text that follows is a
      reference. */
  predicate StartsRef(t: string) {
    exists n :: 0 < n <= |t| && IsRef(t[..n])
  }

  lemma {:induction false} DigitsHaveNoAmp(s: string, hex: bool)
    requires Digits(s, hex)
    ensures forall i :: 0 <= i < |s| ==> s[i] != '&'
  {
    if |s| > 1 {
      DigitsHaveNoAmp(s[1..], hex);
      forall i | 1 <= i < |s| ensures s[i] != '&' {
        assert s[i] == s[1..][i - 1];
      }
    }
  }

  /** A reference holds no `&`. */
  lemma RefHasNoAmp(w: string)
    requires IsRef(w)
    ensures forall i :: 0 <= i < |w| ==> w[i] != '&'
  {
    if |w| >= 3 && w[0] == '#' && w[|w| - 1] == ';' && Digits(w[1..|w| - 1], false) {
      DigitsHaveNoAmp(w[1..|w| - 1], false);
      forall i | 1 <= i < |w| - 1 ensures w[i] != '&' {
        assert w[i] == w[1..|w| - 1][i - 1];
      }
    } else if |w| >= 4 && w[0] == '#' && w[1] == 'x' && w[|w| - 1] == ';' && Digits(w[2..|w| - 1], true) {
      DigitsHaveNoAmp(w[2..|w| - 1], true);
      forall i | 2 <= i < |w| - 1 ensures w[i] != '&' {
        assert w[i] == w[2..|w| - 1][i - 2];
      }
    }
  }

  /** An `&` that does not start a reference. */
  predicate Bare(s: string, i: nat)
    requires i < |s|
  {
    s[i] == '&' && !StartsRef(s[i + 1..])
  }

  /** The number of bare `&` in `s`. */
  function BareCount(s: string): nat {
    if s == [] then 0 else (if Bare(s, 0) then 1 else 0) + BareCount(s[1..])
  }

  /** The second pass: each bare `&` becomes `&amp;`, judged on the text as
      it was before the pass; every other character is copied. Each
      replacement adds four characters. */
  function Escape(s: string): (r: string)
    ensures |r| == |s| + 4 * BareCount(s)
  {
    if s == [] then []
    else if Bare(s, 0) then "&amp;" + Escape(s[1..])
    else [s[0]] + Escape(s[1..])
  }

  /** `sanitize_text`. */
  function SanitizeText(s: string): string {
    Escape(DropControl(s))
  }

  /** Every `&` starts a reference. */
  ghost predicate Clean(s: string) {
    forall i :: 0 <= i < |s| && s[i] == '&' ==> StartsRef(s[i + 1..])
  }

  /** Text without `&` is copied as it is. */
  lemma {:induction false} EscapeNoAmp(p: string, q: string)
    requires forall i :: 0 <= i < |p| ==> p[i] != '&'
    ensures Escape(p + q) == p + Escape(q)
  {
    if p == [] {
      assert p + q == q;
    } else {
      assert (p + q)[1..] == p[1..] + q;
      EscapeNoAmp(p[1..], q);
      assert !Bare(p + q, 0);
      assert p == [p[0]] + p[1..];
    }
  }

  /** An `&` that starts a reference is copied. */
  lemma AmpBeforeRef(t: string)
    requires t != [] && t[0] == '&' && StartsRef(t[1..])
    ensures Escape(t) == [t[0]] + Escape(t[1..])
  {
    assert !Bare(t, 0);
  }

  /** A valid reference in the input is copied untouched, and the pass goes
      on after it. */
  lemma RefUntouched(ref: string, rest: string)
    requires IsRef(ref)
    ensures Escape("&" + ref + rest) == "&" + ref + Escape(rest)
  {
    RefStarts(ref, rest);
    CopiedRef(ref, rest);
  }

  lemma RefStarts(ref: string, rest: string)
    requires IsRef(ref)
    ensures StartsRef(ref + rest)
    ensures forall i :: 0 <= i < |ref| ==> ref[i] != '&'
  {
    assert (ref + rest)[..|ref|] == ref;
    RefHasNoAmp(ref);
  }

  lemma CopiedRef(ref: string, rest: string)
    requires StartsRef(ref + rest)
    requires forall i :: 0 <= i < |ref| ==> ref[i] != '&'
    ensures Escape("&" + ref + rest) == "&" + ref + Escape(rest)
  {
    var t := "&" + ref + rest;
    assert t[1..] == ref + rest;
    AmpBeforeRef(t);
    EscapeNoAmp(ref, rest);
  }

  /** An `&` the lookahead rejects becomes `&amp;`, and the pass goes on
      with the text after it. */
  lemma EscapeBare(t: string)
    requires !StartsRef(t)
    ensures Escape("&" + t) == "&amp;" + Escape(t)
  {
    var s := "&" + t;
    assert s[0] == '&' && s[1..] == t;
    assert Bare(s, 0);
  }

  /** What the pass writes for the character at `i`: `&amp;` for a bare
      `&`, the character itself otherwise. */
  function EscapedAt(s: string, i: nat): string
    requires i < |s|
  {
    if Bare(s, i) then "&amp;" else [s[i]]
  }

  /** The pieces `EscapedAt` gives for the characters from `i` on, in
      order. */
  function EscapedFrom(s: string, i: nat): string
    requires i <= |s|
    decreases |s| - i
  {
    if i == |s| then [] else EscapedAt(s, i) + EscapedFrom(s, i + 1)
  }

  /** The pass is character by character: its output is, in order, `&amp;`
      for each bare `&` and every other character as it is, each judged on
      the whole input. */
  lemma EscapeIsPointwise(s: string)
    ensures Escape(s) == EscapedFrom(s, 0)
  {
    EscapeSuffix(s, 0);
    assert s[0..] == s;
  }

  lemma {:induction false} EscapeSuffix(s: string, i: nat)
    requires i <= |s|
    ensures Escape(s[i..]) == EscapedFrom(s, i)
    decreases |s| - i
  {
    if i < |s| {
      EscapeSuffix(s, i + 1);
      BareInSuffix(s, i);
    }
  }

  lemma BareInSuffix(s: string, i: nat)
    requires i < |s|
    ensures Escape(s[i..]) == EscapedAt(s, i) + Escape(s[i + 1..])
  {
    var u := s[i..];
    assert u[0] == s[i] && u[1..] == s[i + 1..];
    assert Bare(u, 0) == Bare(s, i);
  }

  /** The text after an `&` that starts a reference still starts one after
      the pass. */
  lemma EscapeKeepsRef(u: string)
    requires StartsRef(u)
    ensures StartsRef(Escape(u))
  {
    var n :| 0 < n <= |u| && IsRef(u[..n]);
    RefHasNoAmp(u[..n]);
    PrefixKept(u[..n], u[n..]);
    assert u[..n] + u[n..] == u;
  }

  lemma PrefixKept(p: string, q: string)
    requires forall i :: 0 <= i < |p| ==> p[i] != '&'
    ensures |p| <= |Escape(p + q)| && Escape(p + q)[..|p|] == p
  {
    EscapeNoAmp(p, q);
    assert (p + Escape(q))[..|p|] == p;
  }

  /** After the second pass every `&` starts a reference. */
  lemma {:induction false} EscapeIsClean(s: string)
    ensures Clean(Escape(s))
  {
    if s != [] {
      EscapeIsClean(s[1..]);
      if Bare(s, 0) {
        CleanAfterAmpEntity(Escape(s[1..]));
      } else {
        if s[0] == '&' {
          EscapeKeepsRef(s[1..]);
        }
        CleanAfterChar(s[0], Escape(s[1..]));
      }
    }
  }

  /** `&amp;` in front of a clean text keeps it clean. */
  lemma CleanAfterAmpEntity(rest: string)
    requires Clean(rest)
    ensures Clean("&amp;" + rest)
  {
    var r := "&amp;" + rest;
    assert r[1..][..4] == "amp;";
    forall i | 0 <= i < |r| && r[i] == '&' ensures StartsRef(r[i + 1..]) {
      if i >= 5 {
        assert r[i] == rest[i - 5] && r[i + 1..] == rest[i - 4..];
      }
    }
  }

  /** One character in front of a clean text keeps it clean, provided an
      `&` is followed by a reference. */
  lemma CleanAfterChar(c: char, rest: string)
    requires Clean(rest)
    requires c == '&' ==> StartsRef(rest)
    ensures Clean([c] + rest)
  {
    var r := [c] + rest;
    forall i | 0 <= i < |r| && r[i] == '&' ensures StartsRef(r[i + 1..]) {
      if i >= 1 {
        assert r[i] == rest[i - 1] && r[i + 1..] == rest[i..];
      } else {
        assert r[1..] == rest;
      }
    }
  }

  /** The second pass leaves a text alone exactly when it has no bare `&`,
      that is, when every `&` already starts a reference. */
  lemma {:induction false} EscapeFixedIffClean(s: string)
    ensures Escape(s) == s <==> Clean(s)
    ensures Clean(s) <==> BareCount(s) == 0
  {
    if s != [] {
      EscapeFixedIffClean(s[1..]);
      if Clean(s) {
        forall i | 0 <= i < |s[1..]| && s[1..][i] == '&' ensures StartsRef(s[1..][i + 1..]) {
          assert s[1..][i + 1..] == s[i + 2..];
        }
      } else {
        var i :| 0 <= i < |s| && s[i] == '&' && !StartsRef(s[i + 1..]);
        if i > 0 {
          assert s[1..][i - 1] == '&' && s[1..][i..] == s[i + 1..];
        }
      }
    }
  }

  /** The output holds no control character. */
  lemma {:induction false} EscapeAddsNoControl(s: string)
    requires forall c :: c in s ==> !IsControl(c)
    ensures forall c :: c in Escape(s) ==> !IsControl(c)
  {
    if s != [] {
      EscapeAddsNoControl(s[1..]);
    }
  }

  /** After sanitizing, no control character is left and every `&` begins a
      reference. */
  lemma SanitizeIsClean(s: string)
    ensures forall i :: 0 <= i < |SanitizeText(s)| ==> !IsControl(SanitizeText(s)[i])
    ensures Clean(SanitizeText(s))
  {
    EscapeAddsNoControl(DropControl(s));
    EscapeIsClean(DropControl(s));
  }

  /** Sanitizing twice is sanitizing once. */
  lemma SanitizeIdempotent(s: string)
    ensures SanitizeText(SanitizeText(s)) == SanitizeText(s)
  {
    var once := SanitizeText(s);
    SanitizeIsClean(s);
    DropControlKeepsClean(once);
    EscapeFixedIffClean(once);
  }
}
