/** De-duplication that keeps the first element for each key, in input
    order: the loop with a `seen` set that both scripts run over the feed
    list (scripts/translate_rss.py, by URL) and over the titles
    (scripts/build_translated_opml.py, by the title itself). */
module Distinct {

  /** The keys that occur in `s`. */
  function KeySet<T(==), K(==)>(s: seq<T>, key: T -> K): set<K> {
    set x | x in s :: key(x)
  }

  /** What the loop has produced after reading `s`: an element is appended
      when its key is not yet among the keys of what was kept. */
  function Dedup<T(==), K(==)>(s: seq<T>, key: T -> K): seq<T> {
    if s == [] then []
    else
      var kept := Dedup(s[..|s| - 1], key);
      if key(s[|s| - 1]) in KeySet(kept, key) then kept else kept + [s[|s| - 1]]
  }

  /** Position `i` holds the first occurrence of its key. */
  predicate IsFirst<T(==), K(==)>(s: seq<T>, key: T -> K, i: nat)
    requires i < |s|
  {
    forall j :: 0 <= j < i ==> key(s[j]) != key(s[i])
  }

  /** The positions of first occurrences, in increasing order: the
      reference that the loop's result is compared with. */
  function FirstIndices<T(==), K(==)>(s: seq<T>, key: T -> K): (idx: seq<nat>)
    ensures forall k :: 0 <= k < |idx| ==> idx[k] < |s| && IsFirst(s, key, idx[k])
    ensures forall k, l :: 0 <= k < l < |idx| ==> idx[k] < idx[l]
    ensures forall i :: 0 <= i < |s| && IsFirst(s, key, i) ==> i in idx
  {
    if s == [] then []
    else
      var p := s[..|s| - 1];
      var before := FirstIndices(p, key);
      assert forall i :: 0 <= i < |p| ==> (IsFirst(p, key, i) <==> IsFirst(s, key, i));
      before + (if IsFirst(s, key, |s| - 1) then [|s| - 1] else [])
  }

  /** The loop keeps exactly the first occurrence of every key, in the
      order of the input, and loses no key. */
  lemma {:induction false} DedupIsFirstOccurrences<T, K>(s: seq<T>, key: T -> K)
    ensures KeySet(Dedup(s, key), key) == KeySet(s, key)
    ensures var idx := FirstIndices(s, key);
      |Dedup(s, key)| == |idx| && forall k :: 0 <= k < |idx| ==> Dedup(s, key)[k] == s[idx[k]]
  {
    if s != [] {
      var p, x := s[..|s| - 1], s[|s| - 1];
      assert s == p + [x];
      DedupIsFirstOccurrences(p, key);
      var kept := Dedup(p, key);
      assert KeySet(s, key) == KeySet(p, key) + {key(x)};
      assert IsFirst(s, key, |s| - 1) <==> key(x) !in KeySet(p, key) by {
        if key(x) in KeySet(p, key) {
          var y :| y in p && key(y) == key(x);
          var j :| 0 <= j < |p| && p[j] == y;
          assert key(s[j]) == key(s[|s| - 1]);
        }
      }
      if key(x) !in KeySet(kept, key) {
        assert KeySet(kept + [x], key) == KeySet(kept, key) + {key(x)};
      }
    }
  }

  /** Keys in the de-duplicated sequence are pairwise distinct. */
  lemma DedupDistinct<T, K>(s: seq<T>, key: T -> K)
    ensures var d := Dedup(s, key);
      forall k, l :: 0 <= k < l < |d| ==> key(d[k]) != key(d[l])
  {
    DedupIsFirstOccurrences(s, key);
    var d, idx := Dedup(s, key), FirstIndices(s, key);
    forall k, l | 0 <= k < l < |d| ensures key(d[k]) != key(d[l]) {
      assert IsFirst(s, key, idx[l]);
    }
  }

  /** The loop of both scripts: walk the input once, keep an element when
      its key has not been seen, and add the key to `seen`. */
  method DedupByKey<T(==), K(==)>(s: seq<T>, key: T -> K) returns (out: seq<T>)
    ensures out == Dedup(s, key)
    ensures KeySet(out, key) == KeySet(s, key)
    ensures forall k, l :: 0 <= k < l < |out| ==> key(out[k]) != key(out[l])
  {
    var seen: set<K> := {};
    out := [];
    for i := 0 to |s|
      invariant out == Dedup(s[..i], key)
      invariant seen == KeySet(out, key)
    {
      assert s[..i + 1][..i] == s[..i];
      if key(s[i]) !in seen {
        out := out + [s[i]];
        seen := seen + {key(s[i])};
      }
    }
    assert s[..|s|] == s;
    DedupIsFirstOccurrences(s, key);
    DedupDistinct(s, key);
  }
}
