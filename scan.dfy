/**
 * The bookkeeping of Go's `Match` (ahocorasick.go:196-236): which nodes carry
 * the stamp of the current call, which indices have been appended to the
 * hits, and how one input byte and the walk along the suffix links keep both
 * in step with the patterns that occur in the input read so far.
 */
module Scan {
  import opened Text
  import opened Trie
  import opened Links
  import opened Arena

  /** The nodes stamped with `counter` are exactly the output nodes whose patterns occur in `s`. */
  ghost predicate Marks(t: Nodes, st: seq<int>, counter: int, s: seq<byte>)
    requires Sized(t) && |st| == |t.path|
  {
    forall m :: 0 <= m < |t.path| ==> (st[m] == counter <==> Reported(t.path, t.output, s, m))
  }

  /**
   * Midway through the step that reached the node of `w` after `s`: the
   * stamped nodes are the output nodes whose patterns occur in `s`, and the
   * output nodes whose patterns are suffixes of `w` at least `len` long.
   */
  ghost predicate Stamped(t: Nodes, st: seq<int>, counter: int, s: seq<byte>, w: seq<byte>, len: int)
    requires Sized(t) && |st| == |t.path|
  {
    forall m :: 0 <= m < |t.path| ==>
      (st[m] == counter <==>
         Reported(t.path, t.output, s, m) || (SuffixOutput(t.path, t.output, w, m) && |t.path[m]| >= len))
  }

  /**
   * `hits` holds the indices of the nodes `marked`, in order; these are
   * exactly the stamped nodes, each listed once.
   */
  ghost predicate Hits(t: Nodes, st: seq<int>, counter: int, marked: seq<int>, hits: seq<int>)
    requires Sized(t) && |st| == |t.path|
  {
    |marked| == |hits| && NoDuplicates(marked) &&
    (forall j :: 0 <= j < |marked| ==>
       0 <= marked[j] < |t.path| && st[marked[j]] == counter && hits[j] == t.index[marked[j]]) &&
    (forall m :: 0 <= m < |t.path| && st[m] == counter ==> m in marked)
  }

  /** No node carries a stamp from a later call than `counter`. */
  ghost predicate StampsUpTo(t: Nodes, st: seq<int>, counter: int)
    requires Sized(t) && |st| == |t.path|
  {
    forall x :: 0 <= x < |t.path| ==> st[x] <= counter
  }

  /** The scan state between two input bytes, after reading `s`. */
  ghost predicate Scanned(t: Nodes, dict: seq<seq<byte>>, st: seq<int>, counter: int, s: seq<byte>,
                          marked: seq<int>, hits: seq<int>)
  {
    Built(t, dict) && |st| == |t.path| && StampsUpTo(t, st, counter) && Marks(t, st, counter, s) && Hits(t, st, counter, marked, hits)
  }

  /** The scan state while the suffix links from the node of `w` are followed. */
  ghost predicate Chain(t: Nodes, dict: seq<seq<byte>>, st: seq<int>, counter: int, s: seq<byte>, w: seq<byte>, len: int,
                        marked: seq<int>, hits: seq<int>)
  {
    Built(t, dict) && |st| == |t.path| && StampsUpTo(t, st, counter) && Stamped(t, st, counter, s, w, len) && Hits(t, st, counter, marked, hits)
  }

  /**
   * With a counter above every stamp (Go's `m.counter += 1`), no node is
   * stamped and nothing has occurred in the empty input; the root is the
   * longest suffix of it in the trie.
   */
  lemma ScanStart(t: Nodes, dict: seq<seq<byte>>, st: seq<int>, counter: int)
    requires Built(t, dict) && |st| == |t.path| && forall x :: 0 <= x < |t.path| ==> st[x] < counter
    ensures Scanned(t, dict, st, counter, [], [], []) && Longest(dict, t.path[Root], [])
  {
    forall m | 0 <= m < |t.path|
      ensures st[m] == counter <==> Reported(t.path, t.output, [], m)
    {
      if m != Root {
        assert t.path[m] != t.path[Root];
      }
    }
    assert Marks(t, st, counter, []);
    assert Hits(t, st, counter, [], []);
  }

  /** Before the suffixes of `w` are looked at, only the earlier occurrences are stamped. */
  lemma EnterStep(t: Nodes, st: seq<int>, counter: int, s: seq<byte>, w: seq<byte>)
    requires Sized(t) && |st| == |t.path| && Marks(t, st, counter, s)
    ensures Stamped(t, st, counter, s, w, |w| + 1)
  {
  }

  /**
   * Once every output node on a suffix of `w`, the longest suffix of
   * `s + [c]` in the trie, is stamped, the stamps are those of `s + [c]`.
   */
  lemma LeaveStep(t: Nodes, dict: seq<seq<byte>>, st: seq<int>, counter: int, s: seq<byte>, c: byte, w: seq<byte>)
    requires Built(t, dict) && |st| == |t.path| && Stamped(t, st, counter, s, w, 0) && Longest(dict, w, s + [c])
    ensures Marks(t, st, counter, s + [c])
  {
    forall m | 0 <= m < |t.path|
      ensures Reported(t.path, t.output, s + [c], m) <==>
              Reported(t.path, t.output, s, m) || SuffixOutput(t.path, t.output, w, m)
    {
      ReportedAfterStep(t.path, t.child, t.output, t.index, dict, s, c, w, m);
    }
  }

  /**
   * When no node has an edge on `c` the scan goes back to the root, and no
   * new pattern occurs: only the empty pattern ends there, and it is never reported.
   */
  lemma NoEdgeStep(t: Nodes, dict: seq<seq<byte>>, st: seq<int>, counter: int, s: seq<byte>, c: byte)
    requires Built(t, dict) && |st| == |t.path| && Marks(t, st, counter, s) && Longest(dict, t.path[Root], s + [c])
    ensures Marks(t, st, counter, s + [c])
  {
    forall m | 0 <= m < |t.path|
      ensures !SuffixOutput(t.path, t.output, t.path[Root], m)
    {
      if m != Root {
        assert t.path[m] != t.path[Root];
      }
    }
    LeaveStep(t, dict, st, counter, s, c, t.path[Root]);
  }

  /**
   * Stamping output node `f`, whose pattern is a suffix of `w` and which is
   * not stamped yet, and appending its index to the hits (Go's
   * `hits = append(hits, f.index); f.counter = m.counter`).
   */
  lemma StampAt(t: Nodes, dict: seq<seq<byte>>, st: seq<int>, counter: int, s: seq<byte>, w: seq<byte>, f: int,
                marked: seq<int>, hits: seq<int>)
    requires 0 < f < |t.path| && Chain(t, dict, st, counter, s, w, |t.path[f]| + 1, marked, hits)
    requires t.output[f] && IsSuffix(t.path[f], w) && st[f] != counter
    ensures Chain(t, dict, st[f := counter], counter, s, w, |t.path[f]|,
                  marked + [f], hits + [t.index[f]])
  {
    assert f !in marked;
    var marked' := marked + [f];
    forall a, b | 0 <= a < b < |marked'|
      ensures marked'[a] != marked'[b]
    {
      if b == |marked| {
        assert marked'[a] == marked[a];
      }
    }
  }

  /**
   * Passing over node `f`, whose pattern is a suffix of `w` and which is
   * either no output node or already stamped.
   */
  lemma SkipAt(t: Nodes, dict: seq<seq<byte>>, st: seq<int>, counter: int, s: seq<byte>, w: seq<byte>, f: int,
               marked: seq<int>, hits: seq<int>)
    requires 0 < f < |t.path| && Chain(t, dict, st, counter, s, w, |t.path[f]| + 1, marked, hits)
    requires IsSuffix(t.path[f], w) && (t.output[f] ==> st[f] == counter)
    ensures Chain(t, dict, st, counter, s, w, |t.path[f]|, marked, hits)
  {
  }

  /**
   * The suffix link `g` of `f` skips no output node: between the path of
   * `f` and that of `g` no suffix of `w` is a pattern, and below `f` there
   * is none at all when `g` is the root.
   */
  lemma ChainGap(t: Nodes, dict: seq<seq<byte>>, st: seq<int>, counter: int, s: seq<byte>, w: seq<byte>, f: int,
                 marked: seq<int>, hits: seq<int>)
    requires 0 < f < |t.path| && Chain(t, dict, st, counter, s, w, |t.path[f]|, marked, hits)
    requires IsSuffix(t.path[f], w)
    ensures t.suffix[f] != Root ==>
              0 < t.suffix[f] < |t.path| && t.output[t.suffix[f]] && IsSuffix(t.path[t.suffix[f]], w) &&
              |t.path[t.suffix[f]]| < |t.path[f]| &&
              Chain(t, dict, st, counter, s, w, |t.path[t.suffix[f]]| + 1, marked, hits)
    ensures t.suffix[f] == Root ==> Chain(t, dict, st, counter, s, w, 0, marked, hits)
  {
    var g := t.suffix[f];
    assert SuffixOk(t.path, t.output, dict, f, g);
    if g != Root {
      SuffixTransitive(t.path[g], t.path[f], w);
    }
    forall m | 0 <= m < |t.path| && SuffixOutput(t.path, t.output, w, m) && |t.path[m]| < |t.path[f]|
      ensures g != Root && |t.path[m]| <= |t.path[g]|
    {
      SuffixOfLonger(t.path[m], t.path[f], w);
      ChainAdvance(t.path, t.child, t.output, t.index, t.suffix, dict, f, m);
    }
  }

  /**
   * Go's early `break` in the suffix walk: once the suffix link `g` of `f`
   * is found stamped, its pattern occurred earlier, and so did every
   * pattern further along the chain.
   */
  lemma ChainStopAll(t: Nodes, dict: seq<seq<byte>>, st: seq<int>, counter: int, s: seq<byte>, w: seq<byte>, f: int,
                     marked: seq<int>, hits: seq<int>)
    requires 0 < f < |t.path| && Chain(t, dict, st, counter, s, w, |t.path[f]|, marked, hits)
    requires IsSuffix(t.path[f], w)
    requires t.suffix[f] != Root && st[t.suffix[f]] == counter
    ensures Chain(t, dict, st, counter, s, w, 0, marked, hits)
  {
    var g := t.suffix[f];
    assert SuffixOk(t.path, t.output, dict, f, g);
    assert Reported(t.path, t.output, s, g);
    forall m | 0 <= m < |t.path| && SuffixOutput(t.path, t.output, w, m) && |t.path[m]| < |t.path[f]|
      ensures Reported(t.path, t.output, s, m)
    {
      SuffixOfLonger(t.path[m], t.path[f], w);
      ChainAdvance(t.path, t.child, t.output, t.index, t.suffix, dict, f, m);
      if m != g {
        ChainStop(t.path, t.child, t.output, t.index, t.suffix, dict, s, g, m);
      }
    }
  }

  /**
   * At the end of the scan the hits are the indices the input must
   * report: each dictionary index of a non-empty pattern occurring in it,
   * the last index when a pattern is repeated, and no index twice.
   */
  lemma HitsFound(t: Nodes, dict: seq<seq<byte>>, st: seq<int>, counter: int, s: seq<byte>, marked: seq<int>, hits: seq<int>)
    requires Scanned(t, dict, st, counter, s, marked, hits)
    ensures NoDuplicates(hits)
    ensures forall k :: k in hits <==> k in Found(dict, s)
  {
    ReportedIsFound(t.path, t.child, t.output, t.index, dict, s);
    forall k | k in hits
      ensures k in Found(dict, s)
    {
      var j :| 0 <= j < |hits| && hits[j] == k;
      assert Reported(t.path, t.output, s, marked[j]);
    }
    forall k | k in Found(dict, s)
      ensures k in hits
    {
      var m :| 0 < m < |t.path| && t.output[m] && Occurs(t.path[m], s) && t.index[m] == k;
      assert Reported(t.path, t.output, s, m);
      var j :| 0 <= j < |marked| && marked[j] == m;
      assert hits[j] == k;
    }
    forall a, b | 0 <= a < b < |hits|
      ensures hits[a] != hits[b]
    {
      var x, y := marked[a], marked[b];
      assert Reported(t.path, t.output, s, x) && Reported(t.path, t.output, s, y);
    }
  }
}
