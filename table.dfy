/**
 * The precomputed transition table of ahocorasick.go:158-166: for every
 * node and byte, the node the scanner falls back to before following the
 * byte, filled in node by node and byte by byte.
 */
module Table {
  import opened Text
  import opened Trie
  import opened Links
  import opened Arena

  /**
   * The table of `t` is filled for every node before `i` and for the bytes
   * of node `i` before `c`; nothing else differs from the linked nodes `t0`.
   */
  ghost predicate Filled(t0: Nodes, t: Nodes, dict: seq<seq<byte>>, i: int, c: int)
  {
    Linkage(t0, dict) && Sized(t) && t == t0.(fails := t.fails) &&
    0 <= i <= |t0.path| && 0 <= c <= 256 &&
    forall x, b :: 0 <= x < |t0.path| && 0 <= b < 256 && (x < i || (x == i && b < c)) ==>
      FailsOk(t0.path, t0.child, dict, x, b, t.fails[x][b])
  }

  /** Before the first entry is written nothing is filled. */
  lemma FilledStart(t0: Nodes, dict: seq<seq<byte>>)
    requires Linkage(t0, dict)
    ensures Filled(t0, t0, dict, 0, 0)
  {
  }

  /** Writing the entries leaves the trie and its links as they were. */
  lemma FilledLinkage(t0: Nodes, t: Nodes, dict: seq<seq<byte>>, i: int, c: int)
    requires Filled(t0, t, dict, i, c)
    ensures Linkage(t, dict)
  {
    forall x | 0 < x < |t.path|
      ensures Linked(t, dict, x)
    {
      assert Linked(t0, dict, x);
    }
  }

  /** Writing a correct entry for byte `c` of node `i` moves on to the next byte. */
  lemma FilledStep(t0: Nodes, t: Nodes, dict: seq<seq<byte>>, i: int, c: int, n: int)
    requires Filled(t0, t, dict, i, c) && 0 <= i < |t0.path| && 0 <= c < 256
    requires FailsOk(t0.path, t0.child, dict, i, c, n)
    ensures Filled(t0, t.(fails := t.fails[i := t.fails[i][c := n]]), dict, i, c + 1)
  {
  }

  /** Once all 256 bytes of node `i` are written, the next node begins. */
  lemma FilledRow(t0: Nodes, t: Nodes, dict: seq<seq<byte>>, i: int)
    requires Filled(t0, t, dict, i, 256) && i < |t0.path|
    ensures Filled(t0, t, dict, i + 1, 0)
  {
  }

  /** Once every node is done, the automaton is complete. */
  lemma FilledEnd(t0: Nodes, t: Nodes, dict: seq<seq<byte>>)
    requires Filled(t0, t, dict, |t0.path|, 0)
    ensures Built(t, dict)
  {
    forall x | 0 < x < |t.path|
      ensures FailOk(t.path, dict, x, t.fail[x]) && SuffixOk(t.path, t.output, dict, x, t.suffix[x])
    {
      assert Linked(t0, dict, x);
    }
  }
}
