/**
 * The matcher of ahocorasick.go: a class holding the match counter and the
 * node arena, with the trie building, the link computations and the scan.
 */
module AhoCorasick {
  import opened Text
  import opened Trie
  import opened Links
  import opened Arena
  import opened Traversal
  import opened Table
  import opened Scan

  class Matcher {
    /** Number of Match calls so far; stamps the nodes reported by the current call. */
    var counter: int
    /** The dictionary the automaton was built from. */
    ghost var dict: seq<seq<byte>>
    /** The trie nodes; Go's `root` is node `Root` of it. */
    var nodes: Nodes
    /** Go's per-node `counter`: the last Match call that reported the node. */
    var stamps: seq<int>

    /** The built automaton for `dict`; no node carries a stamp from a later call. */
    ghost predicate Valid()
      reads this
    {
      Built(nodes, dict) && |stamps| == |nodes.path| && forall x :: 0 <= x < |stamps| ==> stamps[x] <= counter
    }

    /** Go's `new(Matcher)`: the zero matcher, with no nodes yet. */
    constructor ()
      ensures counter == 0 && nodes.path == [] && stamps == []
    {
      counter := 0;
      nodes := Nodes([], [], [], [], [], [], []);
      stamps := [];
    }

    /**
     * Go's `findBlice` (ahocorasick.go:60-69): follows child edges from the
     * root one byte at a time, and gives Nil as soon as one is missing.
     */
    method FindBlice(b: seq<byte>) returns (n: int)
      requires TrieShape(nodes.path, nodes.child, dict)
      ensures n == Walk(nodes.child, Root, b)
      ensures n == Nil <==> !InTrie(dict, b)
      ensures n != Nil ==> 0 <= n < |nodes.path| && nodes.path[n] == b
    {
      n := Root;
      var rest := b;
      while n != Nil && |rest| > 0
        invariant n == Nil || 0 <= n < |nodes.child|
        invariant Walk(nodes.child, n, rest) == Walk(nodes.child, Root, b)
        decreases |rest|
      {
        n := nodes.child[n][rest[0]];
        rest := rest[1..];
      }
      WalkFinds(nodes.path, nodes.child, dict, Root, b);
    }

    /**
     * The trie-building loop of Go's `buildTrie` (ahocorasick.go:75-123):
     * inserts each pattern in turn, so that the nodes are one per prefix of
     * a pattern, and no more than one per pattern byte besides the root.
     */
    method InsertPatterns(dictionary: seq<seq<byte>>)
      modifies this
      ensures dict == dictionary && counter == old(counter)
      ensures Fresh(nodes, dict, dict)
      ensures |nodes.path| <= 1 + TotalLength(dict)
    {
      dict := dictionary;
      nodes := RootOnly();
      assert forall w :: InTrie(dictionary[..0], w) ==> w == [];
      var i := 0;
      while i < |dictionary|
        invariant 0 <= i <= |dictionary| && dict == dictionary && counter == old(counter)
        invariant Fresh(nodes, dictionary[..i], dictionary[..i])
        invariant |nodes.path| <= 1 + TotalLength(dictionary[..i])
      {
        InsertPattern(dictionary, i);
        TotalLengthGrows(dictionary, i);
        i := i + 1;
      }
      assert dictionary[..i] == dictionary;
    }

    /**
     * One pass of the loop at ahocorasick.go:88-123: walks pattern `i` from
     * the root, creating the missing nodes, then marks the node reached as
     * output with index `i` (overwriting the index of an equal earlier pattern).
     */
    method InsertPattern(dictionary: seq<seq<byte>>, i: int)
      requires dictionary == dict && 0 <= i < |dict| && Fresh(nodes, dict[..i], dict[..i])
      modifies this
      ensures dict == old(dict) && counter == old(counter)
      ensures Fresh(nodes, dict[..i + 1], dict[..i + 1])
      ensures old(|nodes.path|) <= |nodes.path| <= old(|nodes.path|) + |dict[i]|
    {
      var n := Descend(dictionary[i], dict[..i]);
      PrefixGrows(dict, i);
      MarkPattern(nodes, dict, i, n);
      nodes := nodes.(output := nodes.output[n := true], index := nodes.index[n := i]);
    }

    /**
     * The walk down the trie at ahocorasick.go:91-122: follows the bytes of
     * `blice` from the root, creating a node wherever an edge is missing, and
     * returns the node whose path is `blice`.
     */
    method Descend(blice: seq<byte>, ghost e: seq<seq<byte>>) returns (n: int)
      requires Fresh(nodes, e, e)
      modifies this
      ensures dict == old(dict) && counter == old(counter)
      ensures Fresh(nodes, e + [blice], e) && 0 <= n < |nodes.path| && nodes.path[n] == blice
      ensures old(|nodes.path|) <= |nodes.path| <= old(|nodes.path|) + |blice|
    {
      n := Root;
      var prefix: seq<byte> := [];
      TrieStart(nodes.path, nodes.child, e);
      var j := 0;
      while j < |blice|
        invariant 0 <= j <= |blice| && prefix == blice[..j]
        invariant dict == old(dict) && counter == old(counter)
        invariant Fresh(nodes, e + [prefix], e)
        invariant 0 <= n < |nodes.path| && nodes.path[n] == prefix
        invariant old(|nodes.path|) <= |nodes.path| <= old(|nodes.path|) + j
      {
        var b := blice[j];
        var c := nodes.child[n][b];
        if c == Nil {
          c := NewChild(n, b, e, prefix);
        } else {
          TrieFollowEdge(nodes.path, nodes.child, e, prefix, n, b);
        }
        n := c;
        PrefixGrows(blice, j);
        prefix := prefix + [b];
        j := j + 1;
      }
      assert prefix == blice;
    }

    /**
     * Go's node creation at ahocorasick.go:96-113: a fresh node for the
     * path of `n` extended by `b`, hung under `n`.
     */
    method NewChild(n: int, b: byte, ghost e: seq<seq<byte>>, prefix: seq<byte>) returns (c: int)
      requires Fresh(nodes, e + [prefix], e) && 0 <= n < |nodes.path| && nodes.path[n] == prefix
      requires nodes.child[n][b] == Nil
      modifies this
      ensures dict == old(dict) && counter == old(counter)
      ensures Fresh(nodes, e + [prefix + [b]], e)
      ensures c == old(|nodes.path|) && nodes.path == old(nodes.path) + [prefix + [b]]
    {
      var t := nodes;
      c := |t.path|;
      AddNodeKeepsFresh(t, e, prefix, n, b);
      nodes := Nodes(t.path + [prefix + [b]], t.output + [false], t.index + [0],
                     (t.child + [NilRow()])[n := t.child[n][b := c]], t.fails + [NilRow()],
                     t.suffix + [Root], t.fail + [if |prefix| == 0 then Root else Nil]);
    }
    /**
     * Go's failure link for node `c` (ahocorasick.go:136-146): tries the
     * proper suffixes of the path of `c` from the longest down and takes the
     * node of the first one in the trie, or the root when none is. A direct
     * child of the root keeps the root it was created with.
     */
    method FailLink(c: int) returns (f: int)
      requires Sized(nodes) && TrieShape(nodes.path, nodes.child, dict)
      requires 0 < c < |nodes.path| && Unlinked(nodes, c)
      ensures FailOk(nodes.path, dict, c, f)
    {
      var b := nodes.path[c];
      assert b != nodes.path[Root];
      f := nodes.fail[c];
      var j := 1;
      while j < |b|
        invariant 1 <= j <= |b|
        invariant j == 1 ==> f == nodes.fail[c]
        invariant j > 1 ==> f == Nil
        invariant forall j' :: 0 < j' < j ==> !InTrie(dict, b[j'..])
      {
        f := FindBlice(b[j..]);
        if f != Nil {
          break;
        }
        j := j + 1;
      }
      if f == Nil {
        f := Root;
      }
    }

    /**
     * Go's suffix link for node `c` (ahocorasick.go:148-153): tries the
     * proper non-empty suffixes of the path of `c` from the longest down and
     * takes the node of the first one that is an output node; the link stays
     * the root it was created with when there is none.
     */
    method SuffixLink(c: int) returns (s: int)
      requires Sized(nodes) && TrieShape(nodes.path, nodes.child, dict)
      requires Outputs(nodes.path, nodes.output, nodes.index, dict)
      requires 0 < c < |nodes.path| && Unlinked(nodes, c)
      ensures SuffixOk(nodes.path, nodes.output, dict, c, s)
    {
      var b := nodes.path[c];
      s := nodes.suffix[c];
      var j := 1;
      while j < |b|
        invariant 1 <= j <= |b| && s == Root
        invariant forall j' :: 0 < j' < j ==> !IsPattern(dict, b[j'..])
      {
        var t := FindBlice(b[j..]);
        if t != Nil && nodes.output[t] {
          s := t;
          break;
        }
        PatternInTrie(dict, b[j..]);
        j := j + 1;
      }
    }

    /** Sets both links of node `c`, which has not been linked yet. */
    method SetLinks(c: int)
      requires Sized(nodes) && TrieShape(nodes.path, nodes.child, dict)
      requires Outputs(nodes.path, nodes.output, nodes.index, dict)
      requires 0 < c < |nodes.path| && Unlinked(nodes, c)
      modifies this
      ensures dict == old(dict) && counter == old(counter)
      ensures Sized(nodes) && |nodes.path| == old(|nodes.path|) && Linked(nodes, dict, c)
      ensures nodes == old(nodes).(fail := old(nodes.fail)[c := nodes.fail[c]],
                                   suffix := old(nodes.suffix)[c := nodes.suffix[c]])
    {
      var f := FailLink(c);
      var s := SuffixLink(c);
      nodes := nodes.(fail := nodes.fail[c := f], suffix := nodes.suffix[c := s]);
    }
    /**
     * The inner loop of the breadth-first pass (ahocorasick.go:130-154):
     * appends each child of `n` to the queue and links it.
     */
    method VisitChildren(n: int, queue: seq<int>, ghost seen: set<int>, ghost done: set<int>, ghost t0: Nodes)
      returns (queue': seq<int>, ghost seen': set<int>)
      requires Pass(t0, nodes, dict, queue, seen, done, n, 0) && n in done && 0 <= n < |t0.path|
      modifies this
      ensures dict == old(dict) && counter == old(counter)
      ensures Pass(t0, nodes, dict, queue', seen', done, Nil, 0)
      ensures |queue'| - |queue| == |seen'| - |seen|
    {
      queue', seen' := queue, seen;
      var i := 0;
      while i < 256
        invariant 0 <= i <= 256 && dict == old(dict) && counter == old(counter)
        invariant Pass(t0, nodes, dict, queue', seen', done, n, i)
        invariant |queue'| - |queue| == |seen'| - |seen|
      {
        var c := nodes.child[n][i];
        if c != Nil {
          PassEdgeNew(t0, nodes, dict, queue', seen', done, n, i);
          ghost var t1 := nodes;
          SetLinks(c);
          PassEdge(t0, t1, nodes, dict, queue', seen', done, n, i);
          AddOne(seen', c);
          queue' := queue' + [c];
          seen' := seen' + {c};
        } else {
          PassNoEdge(t0, nodes, dict, queue', seen', done, n, i);
        }
        i := i + 1;
      }
      PassNext(t0, nodes, dict, queue', seen', done, n);
    }

    /**
     * The breadth-first pass of Go's `buildTrie` (ahocorasick.go:125-156):
     * a queue (Go's `container/list`) starting at the root; each node taken
     * from the front has its children appended and linked. Every node but
     * the root is reached exactly once, from its parent, so every node ends
     * with its failure and suffix links.
     */
    method ComputeLinks()
      requires Fresh(nodes, dict, dict)
      modifies this
      ensures dict == old(dict) && counter == old(counter)
      ensures Sized(nodes) && nodes == old(nodes).(fail := nodes.fail, suffix := nodes.suffix)
      ensures Linkage(nodes, dict)
    {
      ghost var t0 := nodes;
      PassStart(t0, dict);
      var queue := [Root];
      ghost var seen, done := {Root}, {};
      BelowBound(seen, |t0.path|);
      while |queue| > 0
        invariant dict == old(dict) && counter == old(counter)
        invariant Pass(t0, nodes, dict, queue, seen, done, Nil, 0)
        invariant |seen| <= |t0.path|
        decreases |t0.path| - |seen| + |queue|
      {
        var n := queue[0];
        PassPop(t0, nodes, dict, queue, seen, done);
        queue := queue[1..];
        done := done + {n};
        queue, seen := VisitChildren(n, queue, seen, done, t0);
        BelowBound(seen, |t0.path|);
      }
      PassEnd(t0, nodes, dict, seen, done);
    }

    /**
     * Go's loop at ahocorasick.go:160-163 for node `k` and byte `c`: follows
     * failure links from `k` until a node with an edge on `c`, or the root.
     */
    method FailTarget(k: int, c: byte) returns (n: int)
      requires Linkage(nodes, dict) && 0 <= k < |nodes.path|
      ensures FailsOk(nodes.path, nodes.child, dict, k, c, n)
    {
      n := k;
      assert nodes.path[k][|nodes.path[k]| - |nodes.path[n]|..] == nodes.path[k];
      while nodes.child[n][c] == Nil && n != Root
        invariant 0 <= n < |nodes.path| && IsSuffix(nodes.path[n], nodes.path[k])
        invariant forall j :: 0 <= j < |nodes.path[k]| - |nodes.path[n]| ==> !InTrie(dict, nodes.path[k][j..] + [c])
        decreases |nodes.path[n]|
      {
        assert Linked(nodes, dict, n);
        FailChainStep(nodes.path, nodes.child, dict, k, n, nodes.fail[n], c);
        n := nodes.fail[n];
      }
    }

    /**
     * The last loop of Go's `buildTrie` (ahocorasick.go:158-166): fills the
     * `fails` row of every node, in creation order, byte by byte.
     */
    method ComputeFails()
      requires Linkage(nodes, dict)
      modifies this
      ensures dict == old(dict) && counter == old(counter)
      ensures Built(nodes, dict) && nodes == old(nodes).(fails := nodes.fails)
    {
      ghost var t0 := nodes;
      FilledStart(t0, dict);
      var i := 0;
      while i < |nodes.path|
        invariant dict == old(dict) && counter == old(counter)
        invariant |nodes.path| == |t0.path| && Filled(t0, nodes, dict, i, 0)
      {
        var c := 0;
        while c < 256
          invariant dict == old(dict) && counter == old(counter)
          invariant |nodes.path| == |t0.path| && i < |t0.path| && Filled(t0, nodes, dict, i, c)
        {
          FilledLinkage(t0, nodes, dict, i, c);
          var n := FailTarget(i, c);
          FilledStep(t0, nodes, dict, i, c, n);
          nodes := nodes.(fails := nodes.fails[i := nodes.fails[i][c := n]]);
          c := c + 1;
        }
        FilledRow(t0, nodes, dict, i);
        i := i + 1;
      }
      FilledEnd(t0, nodes, dict);
    }

    /**
     * Go's `buildTrie` (ahocorasick.go:73-167): the trie of the patterns,
     * then the links, then the transition table. The result is the complete
     * automaton of `dictionary`, with no node stamped, and with at most one
     * node per pattern byte besides the root.
     */
    method BuildTrie(dictionary: seq<seq<byte>>)
      modifies this
      ensures dict == dictionary && counter == old(counter)
      ensures Built(nodes, dict) && |stamps| == |nodes.path| && forall x :: 0 <= x < |stamps| ==> stamps[x] == 0
      ensures |nodes.path| <= 1 + TotalLength(dict)
    {
      InsertPatterns(dictionary);
      ComputeLinks();
      ComputeFails();
      stamps := seq(|nodes.path|, _ => 0);
    }

    /**
     * Go's `Match` (ahocorasick.go:196-236): bumps the call counter, then
     * runs the automaton over `input`, appending the index of every output
     * node met that is not yet stamped by this call and stamping it. The
     * hits are then the dictionary indices of the non-empty patterns that
     * occur in `input`, each once (for a repeated pattern, its last index);
     * only the stamps change.
     */
    method Match(input: seq<byte>) returns (hits: seq<int>)
      requires Valid()
      modifies this
      ensures dict == old(dict) && counter == old(counter) + 1
      ensures nodes == old(nodes) && Valid()
      ensures NoDuplicates(hits)
      ensures forall k :: k in hits <==> k in Found(dict, input)
    {
      counter := counter + 1;
      ScanStart(nodes, dict, stamps, counter);
      ghost var marked;
      hits, marked := Scan(input);
      HitsFound(nodes, dict, stamps, counter, input, marked, hits);
    }

    /**
     * The loop of Go's `Match` (ahocorasick.go:201-234) from the root: after
     * each byte the state is the node of the longest suffix of the input
     * read so far that is in the trie, and the stamps and hits are those of
     * the patterns that occur in it.
     */
    method Scan(input: seq<byte>) returns (hits: seq<int>, ghost marked: seq<int>)
      requires Scanned(nodes, dict, stamps, counter, [], [], [])
      modifies this
      ensures dict == old(dict) && counter == old(counter) && nodes == old(nodes)
      ensures Scanned(nodes, dict, stamps, counter, input, marked, hits)
    {
      hits, marked := [], [];
      var n := Root;
      for i := 0 to |input|
        invariant dict == old(dict) && counter == old(counter) && nodes == old(nodes)
        invariant 0 <= n < |nodes.path| && Longest(dict, nodes.path[n], input[..i])
        invariant Scanned(nodes, dict, stamps, counter, input[..i], marked, hits)
      {
        n, hits, marked := Feed(n, input[i], hits, marked, input[..i]);
        PrefixGrows(input, i);
      }
      assert input[..|input|] == input;
    }

    /**
     * One pass of the loop of Go's `Match` (ahocorasick.go:203-234) on byte
     * `c`, with the state at node `n` after the input `s`: falls back along
     * the precomputed table when `n` has no edge on `c`, then follows the
     * edge when there is one and reports the outputs met. The new state is
     * the node of the longest suffix of `s + [c]` in the trie, and the
     * stamps and hits become those of `s + [c]`.
     */
    method Feed(n: int, c: byte, hits: seq<int>, ghost marked: seq<int>, ghost s: seq<byte>)
      returns (n': int, hits': seq<int>, ghost marked': seq<int>)
      requires 0 <= n < |nodes.path| && Longest(dict, nodes.path[n], s)
      requires Scanned(nodes, dict, stamps, counter, s, marked, hits)
      modifies this
      ensures dict == old(dict) && counter == old(counter) && nodes == old(nodes)
      ensures 0 <= n' < |nodes.path| && Longest(dict, nodes.path[n'], s + [c])
      ensures Scanned(nodes, dict, stamps, counter, s + [c], marked', hits')
    {
      n', hits', marked' := n, hits, marked;
      if n' != Root && nodes.child[n'][c] == Nil {
        n' := nodes.fails[n'][c];
      }
      ghost var n1 := n';
      if nodes.child[n'][c] != Nil {
        var f := nodes.child[n'][c];
        n' := f;
        StepKeepsLongest(nodes.path, nodes.child, nodes.fails, dict, s, c, n, n1, n');
        EnterStep(nodes, stamps, counter, s, nodes.path[f]);
        hits', marked' := ReportOutputs(f, hits', marked', s);
        LeaveStep(nodes, dict, stamps, counter, s, c, nodes.path[f]);
      } else {
        StepKeepsLongest(nodes.path, nodes.child, nodes.fails, dict, s, c, n, n1, n');
        NoEdgeStep(nodes, dict, stamps, counter, s, c);
      }
    }

    /**
     * The reporting part of Go's `Match` (ahocorasick.go:212-232) at node
     * `f`, just reached: stamps and reports `f` when it is an output node
     * not stamped yet, then follows suffix links, stamping and reporting
     * each node, until the root or a node already stamped. Afterwards every
     * output node on a suffix of the path of `f` is stamped and reported.
     */
    method ReportOutputs(f: int, hits: seq<int>, ghost marked: seq<int>, ghost s: seq<byte>)
      returns (hits': seq<int>, ghost marked': seq<int>)
      requires 0 < f < |nodes.path| && Chain(nodes, dict, stamps, counter, s, nodes.path[f], |nodes.path[f]| + 1, marked, hits)
      modifies this
      ensures dict == old(dict) && counter == old(counter) && nodes == old(nodes)
      ensures Chain(nodes, dict, stamps, counter, s, nodes.path[f], 0, marked', hits')
    {
      ghost var w := nodes.path[f];
      hits', marked' := hits, marked;
      if nodes.output[f] && stamps[f] != counter {
        StampAt(nodes, dict, stamps, counter, s, w, f, marked', hits');
        hits', marked' := hits' + [nodes.index[f]], marked' + [f];
        stamps := stamps[f := counter];
      } else {
        SkipAt(nodes, dict, stamps, counter, s, w, f, marked', hits');
      }
      var g := f;
      while nodes.suffix[g] != Root
        invariant dict == old(dict) && counter == old(counter) && nodes == old(nodes)
        invariant 0 < g < |nodes.path| && IsSuffix(nodes.path[g], w)
        invariant Chain(nodes, dict, stamps, counter, s, w, |nodes.path[g]|, marked', hits')
        decreases |nodes.path[g]|
      {
        ChainGap(nodes, dict, stamps, counter, s, w, g, marked', hits');
        var h := nodes.suffix[g];
        if stamps[h] != counter {
          StampAt(nodes, dict, stamps, counter, s, w, h, marked', hits');
          hits', marked' := hits' + [nodes.index[h]], marked' + [h];
          stamps := stamps[h := counter];
          g := h;
        } else {
          ChainStopAll(nodes, dict, stamps, counter, s, w, g, marked', hits');
          break;
        }
      }
      if nodes.suffix[g] == Root {
        ChainGap(nodes, dict, stamps, counter, s, w, g, marked', hits');
      }
    }
  }

  /** Go's `NewMatcher` (ahocorasick.go:171-177): a matcher for `dictionary`, never used yet. */
  method NewMatcher(dictionary: seq<seq<byte>>) returns (m: Matcher)
    ensures fresh(m) && m.Valid() && m.dict == dictionary && m.counter == 0
  {
    m := new Matcher();
    m.BuildTrie(dictionary);
  }

  /**
   * Go's `NewStringMatcher` (ahocorasick.go:181-192). A Go string is a
   * sequence of bytes, so each string is taken as the bytes it holds; the
   * copied dictionary equals the given one.
   */
  method NewStringMatcher(dictionary: seq<seq<byte>>) returns (m: Matcher)
    ensures fresh(m) && m.Valid() && m.dict == dictionary && m.counter == 0
  {
    m := new Matcher();
    var d: seq<seq<byte>> := [];
    for i := 0 to |dictionary|
      invariant d == dictionary[..i]
    {
      d := d + [dictionary[i]];
    }
    assert d == dictionary;
    m.BuildTrie(d);
  }
}
