/**
 * Outputs, failure links, output (suffix) links and the precomputed
 * transition table of the automaton, each stated against the dictionary,
 * and the facts about them the scanner relies on.
 */
module Links {
  import opened Text
  import opened Trie

  /**
   * A node is an output node exactly when its path is a pattern, and then
   * its index is the last dictionary index of that pattern.
   */
  ghost predicate Outputs(path: seq<seq<byte>>, output: seq<bool>, index: seq<int>, dict: seq<seq<byte>>)
  {
    |output| == |path| && |index| == |path| &&
    forall m :: 0 <= m < |path| ==>
      (output[m] <==> IsPattern(dict, path[m])) &&
      (output[m] ==> IsLastIndex(dict, index[m]) && dict[index[m]] == path[m])
  }

  /**
   * The failure link of `x` is the node of the longest proper suffix of its
   * path that is in the trie (the root when only the empty suffix is).
   */
  ghost predicate FailOk(path: seq<seq<byte>>, dict: seq<seq<byte>>, x: int, f: int)
    requires 0 <= x < |path|
  {
    0 <= f < |path| && |path[f]| < |path[x]| && IsSuffix(path[f], path[x]) &&
    forall j :: 0 < j < |path[x]| - |path[f]| ==> !InTrie(dict, path[x][j..])
  }

  /**
   * The suffix link of `x` is the output node of the longest non-empty proper
   * suffix of its path that is a pattern, or the root when there is none.
   */
  ghost predicate SuffixOk(path: seq<seq<byte>>, output: seq<bool>, dict: seq<seq<byte>>, x: int, s: int)
    requires 0 <= x < |path| == |output|
  {
    0 <= s < |path| && (s == Root || (output[s] && path[s] != [])) &&
    |path[s]| < |path[x]| && IsSuffix(path[s], path[x]) &&
    forall j :: 0 < j < |path[x]| - |path[s]| ==> !IsPattern(dict, path[x][j..])
  }

  /**
   * `fails[x][c]` is the node of the longest suffix of the path of `x`
   * (itself included) that can be extended by `c` within the trie, or the
   * root when none can.
   */
  ghost predicate FailsOk(path: seq<seq<byte>>, child: seq<seq<int>>, dict: seq<seq<byte>>,
                          x: int, c: byte, r: int)
    requires Edges(child) && |path| == |child| && 0 <= x < |path|
  {
    0 <= r < |path| && IsSuffix(path[r], path[x]) && (child[r][c] != Nil || r == Root) &&
    forall j :: 0 <= j < |path[x]| - |path[r]| ==> !InTrie(dict, path[x][j..] + [c])
  }

  /** The whole built automaton for `dict`. */
  ghost predicate Automaton(path: seq<seq<byte>>, child: seq<seq<int>>, output: seq<bool>, index: seq<int>,
                            fail: seq<int>, suffix: seq<int>, fails: seq<seq<int>>, dict: seq<seq<byte>>)
  {
    TrieShape(path, child, dict) && Outputs(path, output, index, dict) &&
    |fail| == |path| && |suffix| == |path| && |fails| == |path| &&
    (forall x :: 0 < x < |path| ==> FailOk(path, dict, x, fail[x]) && SuffixOk(path, output, dict, x, suffix[x])) &&
    (forall x :: 0 <= x < |path| ==> |fails[x]| == 256) &&
    (forall x, c :: 0 <= x < |path| && 0 <= c < 256 ==> FailsOk(path, child, dict, x, c, fails[x][c]))
  }

  /** A node of depth one fails to the root; every failure link leads to a shorter path. */
  lemma FailOfDepthOne(path: seq<seq<byte>>, child: seq<seq<int>>, dict: seq<seq<byte>>, x: int, f: int)
    requires TrieShape(path, child, dict) && 0 < x < |path| && FailOk(path, dict, x, f)
    ensures |path[f]| < |path[x]|
    ensures |path[x]| == 1 ==> f == Root
  {
    if |path[x]| == 1 {
      assert path[f] == [] == path[Root];
    }
  }

  /**
   * One scanner step (Go's Match, the two `if`s on one byte) keeps the
   * state at the node of the longest suffix of the input read so far that
   * is in the trie.
   */
  lemma StepKeepsLongest(path: seq<seq<byte>>, child: seq<seq<int>>, fails: seq<seq<int>>,
                         dict: seq<seq<byte>>, t: seq<byte>, c: byte, n: int, n1: int, r: int)
    requires TrieShape(path, child, dict) && |fails| == |path| && 0 <= n < |path|
    requires |fails[n]| == 256 && FailsOk(path, child, dict, n, c, fails[n][c])
    requires Longest(dict, path[n], t)
    requires n1 == (if n != Root && child[n][c] == Nil then fails[n][c] else n)
    requires r == (if child[n1][c] != Nil then child[n1][c] else n1)
    ensures Longest(dict, path[r], t + [c])
  {
    var w, tc := path[n], t + [c];
    if n != Root && child[n][c] == Nil {
      assert FailsOk(path, child, dict, n, c, n1);
    }
    SuffixTransitive(path[n1], w, t);
    if child[n1][c] != Nil {
      assert tc[|tc| - |path[r]|..] == t[|t| - |path[n1]|..] + [c];
    } else {
      assert n1 == Root;
    }
    StepNoLonger(path, child, dict, t, c, w, n1, r);
  }

  /**
   * No suffix of `t + [c]` longer than the path of the node reached is in
   * the trie, when `n1` is the longest suffix of `w` that `c` extends.
   */
  lemma StepNoLonger(path: seq<seq<byte>>, child: seq<seq<int>>, dict: seq<seq<byte>>,
                     t: seq<byte>, c: byte, w: seq<byte>, n1: int, r: int)
    requires TrieShape(path, child, dict) && Longest(dict, w, t)
    requires 0 <= n1 < |path| && IsSuffix(path[n1], w)
    requires forall j :: 0 <= j < |w| - |path[n1]| ==> !InTrie(dict, w[j..] + [c])
    requires 0 <= r < |path|
    requires child[n1][c] != Nil ==> path[r] == path[n1] + [c]
    requires child[n1][c] == Nil ==> n1 == Root && r == Root
    ensures forall j :: 0 <= j < |t| + 1 - |path[r]| ==> !InTrie(dict, (t + [c])[j..])
  {
    forall j | 0 <= j < |t| + 1 - |path[r]|
      ensures !InTrie(dict, (t + [c])[j..])
    {
      assert (t + [c])[j..] == t[j..] + [c];
      InTriePrefix(dict, t[j..], c);
      if j >= |t| - |w| {
        var j' := j - (|t| - |w|);
        assert t[j..] == w[j'..];
        if j' == |w| {
          assert t[j..] + [c] == path[Root] + [c];
        }
      }
    }
  }

  /**
   * The patterns that are proper suffixes of the path of `f` are exactly
   * the patterns that are suffixes of the path of its suffix link, and
   * there are none when the suffix link is the root.
   */
  lemma SuffixLinkOutputs(path: seq<seq<byte>>, child: seq<seq<int>>, output: seq<bool>, index: seq<int>,
                          suffix: seq<int>, dict: seq<seq<byte>>, f: int, m: int)
    requires TrieShape(path, child, dict) && Outputs(path, output, index, dict) && |suffix| == |path|
    requires 0 < f < |path| && SuffixOk(path, output, dict, f, suffix[f]) && 0 < m < |path| && output[m]
    ensures IsSuffix(path[m], path[f]) && |path[m]| < |path[f]| <==>
            suffix[f] != Root && IsSuffix(path[m], path[suffix[f]])
  {
    var s := suffix[f];
    if IsSuffix(path[m], path[f]) && |path[m]| < |path[f]| {
      assert path[m] != path[Root];
      var j := |path[f]| - |path[m]|;
      assert path[f][j..] == path[m];
      assert !(j < |path[f]| - |path[s]|);
      if s == Root {
        assert false;
      }
      SuffixOfLonger(path[m], path[s], path[f]);
    }
    if s != Root && IsSuffix(path[m], path[s]) {
      SuffixTransitive(path[m], path[s], path[f]);
    }
  }

  /**
   * The output nodes whose paths occur in `s`, named by their indices, are
   * exactly the indices a scan of `s` must report.
   */
  lemma ReportedIsFound(path: seq<seq<byte>>, child: seq<seq<int>>, output: seq<bool>, index: seq<int>,
                        dict: seq<seq<byte>>, s: seq<byte>)
    requires TrieShape(path, child, dict) && Outputs(path, output, index, dict)
    ensures (set m | 0 < m < |path| && output[m] && Occurs(path[m], s) :: index[m]) == Found(dict, s)
  {
    var reported := set m | 0 < m < |path| && output[m] && Occurs(path[m], s) :: index[m];
    forall k | k in reported
      ensures k in Found(dict, s)
    {
      var m :| 0 < m < |path| && output[m] && Occurs(path[m], s) && index[m] == k;
      assert path[m] != path[Root];
      assert dict[k] == path[m] && IsLastIndex(dict, k);
    }
    forall k | k in Found(dict, s)
      ensures k in reported
    {
      var x := FoundNode(path, child, output, index, dict, s, k);
    }
  }

  /** The node of a found pattern is an output node carrying its index. */
  lemma FoundNode(path: seq<seq<byte>>, child: seq<seq<int>>, output: seq<bool>, index: seq<int>,
                  dict: seq<seq<byte>>, s: seq<byte>, k: int) returns (x: int)
    requires TrieShape(path, child, dict) && Outputs(path, output, index, dict) && k in Found(dict, s)
    ensures 0 < x < |path| && output[x] && Occurs(path[x], s) && index[x] == k
  {
    PatternInTrie(dict, dict[k]);
    NodeOfString(path, child, dict, dict[k]);
    x := Walk(child, Root, dict[k]);
    assert IsPattern(dict, path[x]);
    var k' := index[x];
    assert dict[k'] == dict[k];
    assert !(k' < k) && !(k < k');
    assert x != Root;
  }

  /** A node appended with `output` false keeps the outputs right when its path is no pattern. */
  lemma OutputsAddNode(path: seq<seq<byte>>, output: seq<bool>, index: seq<int>, dict: seq<seq<byte>>,
                       q: seq<byte>)
    requires Outputs(path, output, index, dict) && !IsPattern(dict, q)
    ensures Outputs(path + [q], output + [false], index + [0], dict)
  {
  }

  /**
   * Marking the node of pattern `i` as output with index `i` (Go's
   * `n.output = true; n.index = i`) gives the outputs of one more pattern;
   * an earlier equal pattern loses its index to `i`.
   */
  lemma OutputsAddPattern(path: seq<seq<byte>>, child: seq<seq<int>>, d: seq<seq<byte>>, output: seq<bool>,
                          index: seq<int>, dict: seq<seq<byte>>, i: int, n: int)
    requires TrieShape(path, child, d) && 0 <= i < |dict| && 0 <= n < |path| && path[n] == dict[i]
    requires Outputs(path, output, index, dict[..i])
    ensures Outputs(path, output[n := true], index[n := i], dict[..i + 1])
  {
    var output', index' := output[n := true], index[n := i];
    forall m | 0 <= m < |path|
      ensures output'[m] <==> IsPattern(dict[..i + 1], path[m])
      ensures output'[m] ==> IsLastIndex(dict[..i + 1], index'[m]) && dict[..i + 1][index'[m]] == path[m]
    {
      IsPatternExtend(dict, i, path[m]);
      if m != n {
        assert path[m] != dict[i];
        if output[m] {
          assert IsLastIndex(dict[..i], index[m]);
          assert dict[..i][index[m]] == path[m];
        }
      }
    }
  }

  /**
   * Walking any pattern from the root reaches an output node whose path is
   * that pattern, and whose index is the last dictionary index of it (so a
   * repeated pattern keeps its later index).
   */
  lemma PatternNode(path: seq<seq<byte>>, child: seq<seq<int>>, output: seq<bool>, index: seq<int>,
                    dict: seq<seq<byte>>, k: int)
    requires TrieShape(path, child, dict) && Outputs(path, output, index, dict) && 0 <= k < |dict|
    ensures Walk(child, Root, dict[k]) != Nil
    ensures path[Walk(child, Root, dict[k])] == dict[k] && output[Walk(child, Root, dict[k])]
    ensures k <= index[Walk(child, Root, dict[k])] && IsLastIndex(dict, index[Walk(child, Root, dict[k])])
  {
    assert IsPattern(dict, dict[k]);
    PatternInTrie(dict, dict[k]);
    NodeOfString(path, child, dict, dict[k]);
  }

  /**
   * One step down the failure chain for byte `c` (Go's `n = n.fail` while
   * `n.child[c] == nil`): no suffix skipped over can be extended by `c`.
   */
  lemma FailChainStep(path: seq<seq<byte>>, child: seq<seq<int>>, dict: seq<seq<byte>>,
                      k: int, n: int, f: int, c: byte)
    requires TrieShape(path, child, dict) && 0 <= k < |path| && 0 < n < |path| && child[n][c] == Nil
    requires FailOk(path, dict, n, f) && IsSuffix(path[n], path[k])
    requires forall j :: 0 <= j < |path[k]| - |path[n]| ==> !InTrie(dict, path[k][j..] + [c])
    ensures IsSuffix(path[f], path[k])
    ensures forall j :: 0 <= j < |path[k]| - |path[f]| ==> !InTrie(dict, path[k][j..] + [c])
  {
    SuffixTransitive(path[f], path[n], path[k]);
    var d := |path[k]| - |path[n]|;
    forall j | d <= j < |path[k]| - |path[f]|
      ensures !InTrie(dict, path[k][j..] + [c])
    {
      assert path[k][j..] == path[n][j - d..];
      InTriePrefix(dict, path[k][j..], c);
    }
  }

  /** `m` is an output node (not the root) whose pattern occurs in `t`. */
  ghost predicate Reported(path: seq<seq<byte>>, output: seq<bool>, t: seq<byte>, m: int)
    requires 0 <= m < |path| == |output|
  {
    m != Root && output[m] && Occurs(path[m], t)
  }

  /** `m` is an output node (not the root) whose pattern is a suffix of `w`. */
  ghost predicate SuffixOutput(path: seq<seq<byte>>, output: seq<bool>, w: seq<byte>, m: int)
    requires 0 <= m < |path| == |output|
  {
    m != Root && output[m] && IsSuffix(path[m], w)
  }

  /**
   * After reading `c`, with the state at the node of `w`, the patterns that
   * occur are those that occurred before and those that are suffixes of `w`.
   */
  lemma ReportedAfterStep(path: seq<seq<byte>>, child: seq<seq<int>>, output: seq<bool>, index: seq<int>,
                          dict: seq<seq<byte>>, t: seq<byte>, c: byte, w: seq<byte>, m: int)
    requires TrieShape(path, child, dict) && Outputs(path, output, index, dict)
    requires Longest(dict, w, t + [c]) && 0 <= m < |path|
    ensures Reported(path, output, t + [c], m) <==>
            Reported(path, output, t, m) || SuffixOutput(path, output, w, m)
  {
    OccursExtend(path[m], t, c);
    LongestSuffixes(dict, w, t + [c], path[m]);
  }

  /**
   * Moving along the suffix link from `f` to `g`: the patterns that are
   * proper suffixes of the path of `f` are `g` and those that are proper
   * suffixes of the path of `g`.
   */
  lemma ChainAdvance(path: seq<seq<byte>>, child: seq<seq<int>>, output: seq<bool>, index: seq<int>,
                     suffix: seq<int>, dict: seq<seq<byte>>, f: int, m: int)
    requires TrieShape(path, child, dict) && Outputs(path, output, index, dict) && |suffix| == |path|
    requires 0 < f < |path| && SuffixOk(path, output, dict, f, suffix[f]) && 0 <= m < |path|
    ensures SuffixOutput(path, output, path[f], m) && |path[m]| < |path[f]| <==>
            suffix[f] != Root &&
            (m == suffix[f] || (SuffixOutput(path, output, path[suffix[f]], m) && |path[m]| < |path[suffix[f]]|))
  {
    var g := suffix[f];
    if m != Root && output[m] {
      SuffixLinkOutputs(path, child, output, index, suffix, dict, f, m);
      if g != Root && IsSuffix(path[m], path[g]) && |path[m]| == |path[g]| {
        assert path[m] == path[g];
      }
      if m == g {
        assert IsSuffix(path[g], path[g]);
      }
    }
  }

  /**
   * Once the suffix chain reaches a node whose pattern already occurred, every
   * pattern further along the chain already occurred too.
   */
  lemma ChainStop(path: seq<seq<byte>>, child: seq<seq<int>>, output: seq<bool>, index: seq<int>,
                  suffix: seq<int>, dict: seq<seq<byte>>, t: seq<byte>, g: int, m: int)
    requires TrieShape(path, child, dict) && Outputs(path, output, index, dict)
    requires 0 <= g < |path| && Reported(path, output, t, g) && 0 <= m < |path|
    requires SuffixOutput(path, output, path[g], m)
    ensures Reported(path, output, t, m)
  {
    OccursSuffix(path[m], path[g], t);
  }

  /**
   * The suffix-link chain from `x`: it ends at the root after at most
   * |path of x| links, and every node before the root is followed by its
   * suffix link.
   */
  ghost function SuffixChain(path: seq<seq<byte>>, suffix: seq<int>, x: int): (chain: seq<int>)
    requires |suffix| == |path| && 0 <= x < |path|
    requires forall y :: 0 < y < |path| ==> 0 <= suffix[y] < |path| && |path[suffix[y]]| < |path[y]|
    ensures 1 <= |chain| <= |path[x]| + 1 && chain[0] == x && chain[|chain| - 1] == Root
    ensures forall j :: 0 <= j < |chain| - 1 ==>
              chain[j] != Root && 0 <= chain[j] < |path| && chain[j + 1] == suffix[chain[j]]
    decreases |path[x]|
  {
    if x == Root then [Root] else [x] + SuffixChain(path, suffix, suffix[x])
  }
}
