/**
 * The trie part of the node arena. A node is an id into parallel sequences;
 * `child[n][c]` is the id of the node reached from `n` on byte `c`, or `Nil`
 * (Go's nil pointer). The root has id `Root`.
 */
module Trie {
  import opened Text

  const Root := 0
  const Nil := -1

  /** Go's zero `[256]*node`: no edge on any byte. */
  function NilRow(): (row: seq<int>)
    ensures |row| == 256 && forall c :: 0 <= c < 256 ==> row[c] == Nil
  {
    seq(256, _ => Nil)
  }

  /** Every node has 256 edge slots, each absent or naming a non-root node. */
  ghost predicate Edges(child: seq<seq<int>>)
  {
    forall m :: 0 <= m < |child| ==>
      |child[m]| == 256 &&
      forall c :: 0 <= c < 256 ==> child[m][c] == Nil || 0 < child[m][c] < |child|
  }

  /**
   * The nodes are exactly the strings in the trie of `dict`: the root holds
   * the empty path, paths are distinct, an edge on `c` leads to the path
   * extended by `c`, and a missing edge means that extension is in no pattern.
   */
  ghost predicate TrieShape(path: seq<seq<byte>>, child: seq<seq<int>>, dict: seq<seq<byte>>)
  {
    |path| == |child| >= 1 && path[Root] == [] && Edges(child) &&
    (forall m :: 0 <= m < |path| ==> InTrie(dict, path[m])) &&
    (forall m, m' :: 0 <= m < |path| && 0 <= m' < |path| && path[m] == path[m'] ==> m == m') &&
    (forall m, c :: 0 <= m < |path| && 0 <= c < 256 && child[m][c] != Nil ==>
       path[child[m][c]] == path[m] + [c]) &&
    (forall m, c :: 0 <= m < |path| && 0 <= c < 256 && child[m][c] == Nil ==>
       !InTrie(dict, path[m] + [c]))
  }

  /**
   * Following edges from `n` along `b`, one byte at a time, stopping at
   * `Nil` as soon as an edge is missing (Go's `findBlice` starts at the root).
   */
  ghost function Walk(child: seq<seq<int>>, n: int, b: seq<byte>): (r: int)
    requires Edges(child) && (n == Nil || 0 <= n < |child|)
    ensures r == Nil || 0 <= r < |child|
    decreases |b|
  {
    if n == Nil || b == [] then n else Walk(child, child[n][b[0]], b[1..])
  }

  /**
   * Walking `b` from node `n` fails exactly when the path of `n` extended
   * by `b` is not in the trie, and otherwise ends at the node of that path.
   */
  lemma {:induction false} WalkFinds(path: seq<seq<byte>>, child: seq<seq<int>>, dict: seq<seq<byte>>,
                                     n: int, b: seq<byte>)
    requires TrieShape(path, child, dict) && 0 <= n < |path|
    ensures Walk(child, n, b) != Nil <==> InTrie(dict, path[n] + b)
    ensures Walk(child, n, b) != Nil ==> path[Walk(child, n, b)] == path[n] + b
    decreases |b|
  {
    if b == [] {
      assert path[n] + b == path[n];
    } else {
      var k := child[n][b[0]];
      assert path[n] + b == (path[n] + [b[0]]) + b[1..];
      if k == Nil {
        if InTrie(dict, path[n] + b) {
          InTriePrefixOf(dict, path[n] + [b[0]], b[1..]);
        }
      } else {
        WalkFinds(path, child, dict, k, b[1..]);
      }
    }
  }

  /** Every string in the trie has a node, reached by walking it from the root. */
  lemma NodeOfString(path: seq<seq<byte>>, child: seq<seq<int>>, dict: seq<seq<byte>>, w: seq<byte>)
    requires TrieShape(path, child, dict) && InTrie(dict, w)
    ensures Walk(child, Root, w) != Nil && path[Walk(child, Root, w)] == w
  {
    WalkFinds(path, child, dict, Root, w);
  }

  /** Walking a node's own path from the root reaches that node and no other. */
  lemma WalkToNode(path: seq<seq<byte>>, child: seq<seq<int>>, dict: seq<seq<byte>>, x: int)
    requires TrieShape(path, child, dict) && 0 <= x < |path|
    ensures Walk(child, Root, path[x]) == x
  {
    NodeOfString(path, child, dict, path[x]);
  }

  /** Walking `u` and then `v` is walking `u + v`. */
  lemma {:induction false} WalkAppend(child: seq<seq<int>>, n: int, u: seq<byte>, v: seq<byte>)
    requires Edges(child) && (n == Nil || 0 <= n < |child|)
    ensures Walk(child, n, u + v) == Walk(child, Walk(child, n, u), v)
    decreases |u|
  {
    if n == Nil {
      WalkFromNil(child, v);
      WalkFromNil(child, u + v);
    } else if u != [] {
      assert (u + v)[0] == u[0] && (u + v)[1..] == u[1..] + v;
      WalkAppend(child, child[n][u[0]], u[1..], v);
    } else {
      assert u + v == v;
    }
  }

  /**
   * A pattern that is a prefix of another one is not given a node of its
   * own: the walk of the longer pattern passes through its node.
   */
  lemma SharedPrefix(path: seq<seq<byte>>, child: seq<seq<int>>, dict: seq<seq<byte>>, k: int, k': int)
    requires TrieShape(path, child, dict) && 0 <= k < |dict| && 0 <= k' < |dict| && dict[k] <= dict[k']
    ensures Walk(child, Walk(child, Root, dict[k]), dict[k'][|dict[k]|..]) == Walk(child, Root, dict[k'])
  {
    assert dict[k] + dict[k'][|dict[k]|..] == dict[k'];
    WalkAppend(child, Root, dict[k], dict[k'][|dict[k]|..]);
  }

  /** Nothing is reached from Go's nil. */
  lemma WalkFromNil(child: seq<seq<int>>, b: seq<byte>)
    requires Edges(child)
    ensures Walk(child, Nil, b) == Nil
  {
  }

  /**
   * A set of nodes that holds `n` and is closed under edges holds every
   * node reached by walking from `n`.
   */
  lemma {:induction false} WalkStaysIn(child: seq<seq<int>>, seen: set<int>, n: int, b: seq<byte>)
    requires Edges(child) && 0 <= n < |child| && n in seen
    requires forall d, c :: d in seen && 0 <= d < |child| && 0 <= c < 256 && child[d][c] != Nil ==>
               child[d][c] in seen
    ensures Walk(child, n, b) == Nil || Walk(child, n, b) in seen
    decreases |b|
  {
    if b != [] {
      var k := child[n][b[0]];
      if k == Nil {
        WalkFromNil(child, b[1..]);
      } else {
        WalkStaysIn(child, seen, k, b[1..]);
      }
    }
  }

  /** Which strings are in the trie is all that the shape depends on. */
  lemma TrieSameStrings(path: seq<seq<byte>>, child: seq<seq<int>>, d1: seq<seq<byte>>, d2: seq<seq<byte>>)
    requires TrieShape(path, child, d1)
    requires forall w :: InTrie(d1, w) <==> InTrie(d2, w)
    ensures TrieShape(path, child, d2)
  {
  }

  /** Starting to insert a pattern (its empty prefix) leaves the trie as it is. */
  lemma TrieStart(path: seq<seq<byte>>, child: seq<seq<int>>, e: seq<seq<byte>>)
    requires TrieShape(path, child, e)
    ensures TrieShape(path, child, e + [[]])
  {
    forall w {
      InTrieStart(e, w);
    }
    TrieSameStrings(path, child, e, e + [[]]);
  }

  /**
   * Following an existing edge while inserting a pattern leaves the trie
   * as it is (Go reuses the shared node).
   */
  lemma TrieFollowEdge(path: seq<seq<byte>>, child: seq<seq<int>>, e: seq<seq<byte>>, p: seq<byte>,
                       n: int, b: byte)
    requires TrieShape(path, child, e + [p]) && 0 <= n < |path| && path[n] == p && child[n][b] != Nil
    ensures TrieShape(path, child, e + [p + [b]])
  {
    forall w {
      InTrieExtend(e, p, b, w);
    }
    TrieSameStrings(path, child, e + [p], e + [p + [b]]);
  }

  /** Appending one byte is injective. */
  lemma AppendOneInjective(u: seq<byte>, c: byte, v: seq<byte>, b: byte)
    ensures u + [c] == v + [b] ==> u == v && c == b
  {
    if u + [c] == v + [b] {
      assert u == (u + [c])[..|u|];
      assert v == (v + [b])[..|v|];
    }
  }

  /**
   * Appending a node for the missing edge `b` of node `n` (Go's
   * `n.child[b] = c` on a fresh `c`) gives the trie with one string added,
   * a string that was not a pattern of the earlier dictionary.
   */
  lemma TrieAddNode(path: seq<seq<byte>>, child: seq<seq<int>>, e: seq<seq<byte>>, p: seq<byte>,
                    n: int, b: byte)
    requires TrieShape(path, child, e + [p]) && 0 <= n < |path| && path[n] == p && child[n][b] == Nil
    ensures TrieShape(path + [p + [b]], (child + [NilRow()])[n := child[n][b := |path|]], e + [p + [b]])
  {
    var d2 := e + [p + [b]];
    var path', child' := path + [p + [b]], (child + [NilRow()])[n := child[n][b := |path|]];
    assert Edges(child') by {
      forall m | 0 <= m < |child'|
        ensures |child'[m]| == 256
        ensures forall c :: 0 <= c < 256 ==> child'[m][c] == Nil || 0 < child'[m][c] < |child'|
      {
      }
    }
    forall m | 0 <= m < |path'|
      ensures InTrie(d2, path'[m])
    {
      InTrieExtend(e, p, b, path'[m]);
    }
    AddNodeDistinct(path, child, e, p, n, b, path');
    AddNodeFollow(path, child, e, p, n, b, path', child');
    AddNodeMissing(path, child, e, p, n, b, path', child');
  }

  /** After appending, every edge still leads to its source's path extended by its byte. */
  lemma AddNodeFollow(path: seq<seq<byte>>, child: seq<seq<int>>, e: seq<seq<byte>>, p: seq<byte>,
                      n: int, b: byte, path': seq<seq<byte>>, child': seq<seq<int>>)
    requires TrieShape(path, child, e + [p]) && 0 <= n < |path| && path[n] == p && child[n][b] == Nil
    requires path' == path + [p + [b]] && child' == (child + [NilRow()])[n := child[n][b := |path|]]
    ensures forall m, c :: 0 <= m < |path'| && 0 <= c < 256 && child'[m][c] != Nil ==>
              0 <= child'[m][c] < |path'| && path'[child'[m][c]] == path'[m] + [c]
  {
    forall m, c | 0 <= m < |path'| && 0 <= c < 256 && child'[m][c] != Nil
      ensures 0 <= child'[m][c] < |path'| && path'[child'[m][c]] == path'[m] + [c]
    {
      if m == n && c == b {
        assert child'[m][c] == |path|;
      } else {
        assert m < |path| && child'[m][c] == child[m][c];
      }
    }
  }

  /** The path of the appended node is new. */
  lemma AddNodeDistinct(path: seq<seq<byte>>, child: seq<seq<int>>, e: seq<seq<byte>>, p: seq<byte>,
                        n: int, b: byte, path': seq<seq<byte>>)
    requires TrieShape(path, child, e + [p]) && 0 <= n < |path| && path[n] == p && child[n][b] == Nil
    requires path' == path + [p + [b]]
    ensures forall m, m' :: 0 <= m < |path'| && 0 <= m' < |path'| && path'[m] == path'[m'] ==> m == m'
  {
    forall m, m' | 0 <= m < |path'| && 0 <= m' < |path'| && path'[m] == path'[m']
      ensures m == m'
    {
      if m == |path| || m' == |path| {
        assert m == m' || InTrie(e + [p], p + [b]);
      }
    }
  }

  /** After appending, a missing edge still leads out of the trie. */
  lemma AddNodeMissing(path: seq<seq<byte>>, child: seq<seq<int>>, e: seq<seq<byte>>, p: seq<byte>,
                       n: int, b: byte, path': seq<seq<byte>>, child': seq<seq<int>>)
    requires TrieShape(path, child, e + [p]) && 0 <= n < |path| && path[n] == p && child[n][b] == Nil
    requires path' == path + [p + [b]] && child' == (child + [NilRow()])[n := child[n][b := |path|]]
    ensures forall m, c :: 0 <= m < |path'| && 0 <= c < 256 && child'[m][c] == Nil ==>
              !InTrie(e + [p + [b]], path'[m] + [c])
  {
    var d1, d2 := e + [p], e + [p + [b]];
    var q := p + [b];
    forall m, c | 0 <= m < |path'| && 0 <= c < 256 && child'[m][c] == Nil
      ensures !InTrie(d2, path'[m] + [c])
    {
      InTrieExtend(e, p, b, path'[m] + [c]);
      if m == |path| {
        assert path'[m] == q;
        InTriePrefix(d1, q, c);
        assert |q + [c]| != |q|;
        assert !InTrie(d1, path[n] + [b]);
      } else {
        assert path'[m] == path[m];
        assert child[m][c] == Nil;
        assert !InTrie(d1, path[m] + [c]);
        AppendOneInjective(path[m], c, path[n], b);
      }
    }
  }

  /** The string of a missing edge is no pattern of the patterns inserted before. */
  lemma MissingEdgeNoPattern(path: seq<seq<byte>>, child: seq<seq<int>>, e: seq<seq<byte>>, p: seq<byte>,
                             n: int, b: byte)
    requires TrieShape(path, child, e + [p]) && 0 <= n < |path| && path[n] == p && child[n][b] == Nil
    ensures !IsPattern(e, p + [b])
  {
    PatternInTrie(e, p + [b]);
    InTrieMono(e, p, p + [b]);
  }
  /**
   * The parent of a node: the node of its path without the last byte (Go
   * keeps no parent pointer; the breadth-first pass meets each node once,
   * from its parent).
   */
  ghost function Parent(path: seq<seq<byte>>, child: seq<seq<int>>, x: int): int
    requires Edges(child) && |child| >= 1 && 0 <= x < |path|
  {
    if path[x] == [] then Nil else Walk(child, Root, path[x][..|path[x]| - 1])
  }

  /** Every node but the root hangs under its parent, on its last byte. */
  lemma ParentEdge(path: seq<seq<byte>>, child: seq<seq<int>>, dict: seq<seq<byte>>, x: int)
    requires TrieShape(path, child, dict) && 0 < x < |path|
    ensures path[x] != [] && 0 <= Parent(path, child, x) < |path|
    ensures child[Parent(path, child, x)][path[x][|path[x]| - 1]] == x
  {
    assert path[x] != path[Root];
    var q, c := path[x][..|path[x]| - 1], path[x][|path[x]| - 1];
    assert q + [c] == path[x];
    InTriePrefix(dict, q, c);
    NodeOfString(path, child, dict, q);
  }

  /** A node's children have it as their parent. */
  lemma ChildParent(path: seq<seq<byte>>, child: seq<seq<int>>, dict: seq<seq<byte>>, n: int, c: byte)
    requires TrieShape(path, child, dict) && 0 <= n < |path| && child[n][c] != Nil
    ensures Parent(path, child, child[n][c]) == n && path[child[n][c]] == path[n] + [c]
  {
    var x := child[n][c];
    assert path[x] == path[n] + [c];
    assert path[x][..|path[x]| - 1] == path[n];
    WalkToNode(path, child, dict, n);
  }
}
