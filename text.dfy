/**
 * Byte strings and the dictionary: what it means for a pattern to occur in
 * an input, which strings the trie holds, and which dictionary indices a
 * scan must report. Everything here is independent of the automaton.
 */
module Text {

  /** One input or pattern byte (Go's `byte`). */
  type byte = x: int | 0 <= x < 256

  /** The first `i + 1` bytes of `s` are its first `i` bytes followed by byte `i`. */
  lemma PrefixGrows<T>(s: seq<T>, i: int)
    requires 0 <= i < |s|
    ensures s[..i + 1] == s[..i] + [s[i]]
  {
  }

  /** Adding a pattern to the dictionary adds its length to the total. */
  lemma TotalLengthGrows(dict: seq<seq<byte>>, i: int)
    requires 0 <= i < |dict|
    ensures TotalLength(dict[..i + 1]) == TotalLength(dict[..i]) + |dict[i]|
  {
    assert dict[..i + 1][..i] == dict[..i];
  }

  /** `p` occurs in `s` as a contiguous substring. */
  ghost predicate Occurs(p: seq<byte>, s: seq<byte>)
  {
    exists i :: 0 <= i <= |s| && p <= s[i..]
  }

  /** `v` is a (not necessarily proper) suffix of `t`. */
  ghost predicate IsSuffix(v: seq<byte>, t: seq<byte>)
  {
    |v| <= |t| && t[|t| - |v|..] == v
  }

  /**
   * `w` is the path of some trie node: the empty path of the root, or a
   * prefix of some pattern.
   */
  ghost predicate InTrie(dict: seq<seq<byte>>, w: seq<byte>)
  {
    w == [] || exists k :: 0 <= k < |dict| && w <= dict[k]
  }

  /** `w` is itself one of the patterns. */
  ghost predicate IsPattern(dict: seq<seq<byte>>, w: seq<byte>)
  {
    exists k :: 0 <= k < |dict| && dict[k] == w
  }

  /** `k` is the last index at which its pattern appears in the dictionary. */
  ghost predicate IsLastIndex(dict: seq<seq<byte>>, k: int)
  {
    0 <= k < |dict| && forall k' :: k < k' < |dict| ==> dict[k'] != dict[k]
  }

  /**
   * The indices a scan of `s` must report: every non-empty pattern that
   * occurs in `s`, named by the last index it has in the dictionary.
   */
  ghost function Found(dict: seq<seq<byte>>, s: seq<byte>): set<int>
  {
    set k | 0 <= k < |dict| && dict[k] != [] && IsLastIndex(dict, k) && Occurs(dict[k], s)
  }

  /**
   * `w` is the longest suffix of `t` that is in the trie: the state the
   * scanner must be in after reading `t`.
   */
  ghost predicate Longest(dict: seq<seq<byte>>, w: seq<byte>, t: seq<byte>)
  {
    IsSuffix(w, t) && InTrie(dict, w) &&
    forall j :: 0 <= j < |t| - |w| ==> !InTrie(dict, t[j..])
  }

  /** Total number of pattern bytes: with the root, a bound on the node count. */
  function TotalLength(dict: seq<seq<byte>>): (n: nat)
    ensures dict != [] ==> n >= |dict[|dict| - 1]|
  {
    if dict == [] then 0 else TotalLength(dict[..|dict| - 1]) + |dict[|dict| - 1]|
  }

  /** The strings in the trie are closed under taking prefixes. */
  lemma InTriePrefix(dict: seq<seq<byte>>, v: seq<byte>, c: byte)
    ensures InTrie(dict, v + [c]) ==> InTrie(dict, v)
  {
    if v != [] && InTrie(dict, v + [c]) {
      var k :| 0 <= k < |dict| && v + [c] <= dict[k];
      assert v <= dict[k];
    }
  }

  /** Every pattern is in the trie. */
  lemma PatternInTrie(dict: seq<seq<byte>>, w: seq<byte>)
    ensures IsPattern(dict, w) ==> InTrie(dict, w)
  {
    if IsPattern(dict, w) {
      var k :| 0 <= k < |dict| && dict[k] == w;
      assert w <= dict[k];
    }
  }

  /** A prefix of a string in the trie is in the trie. */
  lemma InTriePrefixOf(dict: seq<seq<byte>>, v: seq<byte>, u: seq<byte>)
    requires InTrie(dict, v + u)
    ensures InTrie(dict, v)
  {
    if v != [] {
      var k :| 0 <= k < |dict| && v + u <= dict[k];
      assert v == (v + u)[..|v|];
      assert v <= dict[k];
    }
  }

  /** A suffix of a suffix is a suffix. */
  lemma SuffixTransitive(a: seq<byte>, b: seq<byte>, c: seq<byte>)
    requires IsSuffix(a, b) && IsSuffix(b, c)
    ensures IsSuffix(a, c)
  {
    assert c[|c| - |a|..] == c[|c| - |b|..][|b| - |a|..];
  }

  /** Of two suffixes of one string, the shorter is a suffix of the longer. */
  lemma SuffixOfLonger(a: seq<byte>, b: seq<byte>, c: seq<byte>)
    requires IsSuffix(a, c) && IsSuffix(b, c) && |a| <= |b|
    ensures IsSuffix(a, b)
  {
    assert b[|b| - |a|..] == c[|c| - |b|..][|b| - |a|..];
  }

  /** A suffix of something that occurs in `s` occurs in `s`. */
  lemma OccursSuffix(u: seq<byte>, v: seq<byte>, s: seq<byte>)
    requires Occurs(v, s) && IsSuffix(u, v)
    ensures Occurs(u, s)
  {
    var i :| 0 <= i <= |s| && v <= s[i..];
    var i' := i + |v| - |u|;
    forall k | 0 <= k < |u|
      ensures s[i'..][k] == u[k]
    {
      assert u[k] == v[|v| - |u| + k] == s[i..][|v| - |u| + k];
    }
    assert u == s[i'..][..|u|];
  }

  /**
   * When `w` is the longest suffix of `t` in the trie, the suffixes of `t`
   * that are in the trie are exactly those of `w`.
   */
  lemma LongestSuffixes(dict: seq<seq<byte>>, w: seq<byte>, t: seq<byte>, p: seq<byte>)
    requires Longest(dict, w, t) && InTrie(dict, p)
    ensures IsSuffix(p, t) <==> IsSuffix(p, w)
  {
    if IsSuffix(p, t) {
      assert t[|t| - |p|..] == p;
      SuffixOfLonger(p, w, t);
    }
    if IsSuffix(p, w) {
      SuffixTransitive(p, w, t);
    }
  }

  /**
   * Extending the pattern being inserted by one byte adds exactly one
   * string to the trie.
   */
  lemma InTrieExtend(e: seq<seq<byte>>, p: seq<byte>, b: byte, w: seq<byte>)
    ensures InTrie(e + [p + [b]], w) <==> InTrie(e + [p], w) || w == p + [b]
  {
    var e1, e2 := e + [p], e + [p + [b]];
    if w != [] && InTrie(e2, w) {
      var k :| 0 <= k < |e2| && w <= e2[k];
      if k < |e| {
        assert e1[k] == e[k];
      } else if w != p + [b] {
        assert w <= e1[|e|];
      }
    }
    if w != [] && InTrie(e1, w) {
      var k :| 0 <= k < |e1| && w <= e1[k];
      if k < |e| {
        assert e2[k] == e[k];
      } else {
        assert w <= e2[|e|];
      }
    }
    if w == p + [b] {
      assert w <= e2[|e|];
    }
  }

  /** Adding a pattern removes nothing from the trie. */
  lemma InTrieMono(e: seq<seq<byte>>, p: seq<byte>, w: seq<byte>)
    ensures InTrie(e, w) ==> InTrie(e + [p], w)
  {
    if w != [] && InTrie(e, w) {
      var k :| 0 <= k < |e| && w <= e[k];
      assert (e + [p])[k] == e[k];
    }
  }

  /** Starting to insert a pattern adds nothing to the trie. */
  lemma InTrieStart(e: seq<seq<byte>>, w: seq<byte>)
    ensures InTrie(e + [[]], w) <==> InTrie(e, w)
  {
    if w != [] && InTrie(e + [[]], w) {
      var k :| 0 <= k < |e| + 1 && w <= (e + [[]])[k];
      assert e[k] == (e + [[]])[k];
    }
    if w != [] && InTrie(e, w) {
      var k :| 0 <= k < |e| && w <= e[k];
      assert w <= (e + [[]])[k];
    }
  }

  /** Patterns of a dictionary prefix, before and after adding one more pattern. */
  lemma IsPatternExtend(dict: seq<seq<byte>>, i: int, w: seq<byte>)
    requires 0 <= i < |dict|
    ensures IsPattern(dict[..i + 1], w) <==> IsPattern(dict[..i], w) || w == dict[i]
  {
    if IsPattern(dict[..i + 1], w) && w != dict[i] {
      var k :| 0 <= k < i + 1 && dict[..i + 1][k] == w;
      assert dict[..i][k] == w;
    }
    if IsPattern(dict[..i], w) {
      var k :| 0 <= k < i && dict[..i][k] == w;
      assert dict[..i + 1][k] == w;
    }
    if w == dict[i] {
      assert dict[..i + 1][i] == w;
    }
  }

  /**
   * Reading one more byte adds exactly the occurrences that end at the new
   * byte, that is, the suffixes of the extended input.
   */
  lemma {:induction false} OccursExtend(p: seq<byte>, t: seq<byte>, c: byte)
    ensures Occurs(p, t + [c]) <==> Occurs(p, t) || IsSuffix(p, t + [c])
  {
    if Occurs(p, t + [c]) {
      var i :| 0 <= i <= |t + [c]| && p <= (t + [c])[i..];
      OccurrenceInExtension(p, t, c, i);
    }
    if Occurs(p, t) {
      var i :| 0 <= i <= |t| && p <= t[i..];
      OccurrenceKept(p, t, c, i);
    }
    if IsSuffix(p, t + [c]) {
      assert p <= (t + [c])[|t + [c]| - |p|..];
    }
  }

  lemma OccurrenceInExtension(p: seq<byte>, t: seq<byte>, c: byte, i: int)
    requires 0 <= i <= |t| + 1 && p <= (t + [c])[i..]
    ensures Occurs(p, t) || IsSuffix(p, t + [c])
  {
    var tc := t + [c];
    if i + |p| <= |t| {
      assert p == tc[i..i + |p|] == t[i..i + |p|];
      assert p <= t[i..];
    } else {
      assert p == tc[i..];
    }
  }

  lemma OccurrenceKept(p: seq<byte>, t: seq<byte>, c: byte, i: int)
    requires 0 <= i <= |t| && p <= t[i..]
    ensures Occurs(p, t + [c])
  {
    var tc := t + [c];
    assert p == t[i..i + |p|] == tc[i..i + |p|];
    assert p <= tc[i..];
  }

  /** Nothing non-empty occurs in the empty input, so a scan of it reports nothing. */
  lemma FoundInEmptyInput(dict: seq<seq<byte>>)
    ensures Found(dict, []) == {}
  {
  }
}
