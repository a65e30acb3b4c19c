/**
 * The node arena of ahocorasick.go: node `x` is the `x`-th entry of each
 * per-field sequence of `Nodes`, in the order Go creates the nodes (Go's
 * local `nodes` slice in `buildTrie`); node `Root` (id 0) is the root and
 * `Nil` (-1) stands for Go's nil pointer.
 */
module Arena {
  import opened Text
  import opened Trie
  import opened Links

  /**
   * Go's node structs, one entry per node in each sequence: `path` is Go's
   * `b`; `child` and `fails` hold the 256-entry
   * pointer arrays. Go's `root` flag is true exactly for node `Root`.
   */
  datatype Nodes = Nodes(path: seq<seq<byte>>, output: seq<bool>, index: seq<int>,
                         child: seq<seq<int>>, fails: seq<seq<int>>, suffix: seq<int>, fail: seq<int>)

  /** Every per-node sequence has one entry per node; the `fails` rows have 256. */
  ghost predicate Sized(t: Nodes)
  {
    |t.output| == |t.path| && |t.index| == |t.path| &&
    |t.child| == |t.path| && |t.fails| == |t.path| && |t.suffix| == |t.path| && |t.fail| == |t.path| &&
    forall x :: 0 <= x < |t.path| ==> |t.fails[x]| == 256
  }

  /** No value appears twice in `s`. */
  ghost predicate NoDuplicates(s: seq<int>)
  {
    forall a, b :: 0 <= a < b < |s| ==> s[a] != s[b]
  }

  /**
   * Node `x` still has the links it was created with: the root as suffix
   * link, and the root as failure link when it is a direct child of the root.
   */
  ghost predicate Unlinked(t: Nodes, x: int)
    requires Sized(t) && 0 <= x < |t.path|
  {
    t.suffix[x] == Root && (|t.path[x]| == 1 ==> t.fail[x] == Root)
  }

  /** Node `x` has its failure link and its suffix (output) link. */
  ghost predicate Linked(t: Nodes, dict: seq<seq<byte>>, x: int)
    requires Sized(t) && 0 <= x < |t.path|
  {
    FailOk(t.path, dict, x, t.fail[x]) && SuffixOk(t.path, t.output, dict, x, t.suffix[x])
  }

  /**
   * The nodes are the trie of the strings of `d` with the outputs of the
   * patterns `e`; no node has been linked yet.
   */
  ghost predicate Fresh(t: Nodes, d: seq<seq<byte>>, e: seq<seq<byte>>)
  {
    Sized(t) && TrieShape(t.path, t.child, d) && Outputs(t.path, t.output, t.index, e) &&
    forall x :: 0 < x < |t.path| ==> Unlinked(t, x)
  }

  /**
   * The nodes are the trie of `dict` with its outputs, and every node but
   * the root has both its links; the `fails` table is not filled yet.
   */
  ghost predicate Linkage(t: Nodes, dict: seq<seq<byte>>)
  {
    Sized(t) && TrieShape(t.path, t.child, dict) && Outputs(t.path, t.output, t.index, dict) &&
    forall x :: 0 < x < |t.path| ==> Linked(t, dict, x)
  }

  /** The complete automaton for `dict`. */
  ghost predicate Built(t: Nodes, dict: seq<seq<byte>>)
  {
    Sized(t) && Automaton(t.path, t.child, t.output, t.index, t.fail, t.suffix, t.fails, dict)
  }

  /** Go's `&node{root: true}`: the root, with no edges yet. */
  function RootOnly(): (t: Nodes)
    ensures Fresh(t, [], []) && |t.path| == 1
  {
    Nodes([[]], [false], [0], [NilRow()], [NilRow()], [Nil], [Nil])
  }

  /**
   * Marking the node reached by pattern `i` as output with index `i` (Go's
   * `n.output = true; n.index = i`) completes the insertion of the pattern.
   */
  lemma MarkPattern(t: Nodes, dict: seq<seq<byte>>, i: int, n: int)
    requires 0 <= i < |dict| && Fresh(t, dict[..i + 1], dict[..i]) && 0 <= n < |t.path| && t.path[n] == dict[i]
    ensures Fresh(t.(output := t.output[n := true], index := t.index[n := i]), dict[..i + 1], dict[..i + 1])
  {
    OutputsAddPattern(t.path, t.child, dict[..i + 1], t.output, t.index, dict, i, n);
    var t' := t.(output := t.output[n := true], index := t.index[n := i]);
    forall x | 0 < x < |t.path|
      ensures Unlinked(t', x)
    {
      assert Unlinked(t, x);
    }
  }

  /**
   * Go's `c = &node{}` hung under `n` on byte `b` (ahocorasick.go:96-113):
   * the new node gets the next id, the path of `n` extended by `b`, the
   * root as suffix link, and the root as failure link at depth one.
   */
  lemma AddNodeKeepsFresh(t: Nodes, e: seq<seq<byte>>, p: seq<byte>, n: int, b: byte)
    requires Fresh(t, e + [p], e) && 0 <= n < |t.path| && t.path[n] == p && t.child[n][b] == Nil
    ensures Fresh(Nodes(t.path + [p + [b]], t.output + [false], t.index + [0],
                        (t.child + [NilRow()])[n := t.child[n][b := |t.path|]], t.fails + [NilRow()],
                        t.suffix + [Root], t.fail + [if |p| == 0 then Root else Nil]), e + [p + [b]], e)
  {
    TrieAddNode(t.path, t.child, e, p, n, b);
    MissingEdgeNoPattern(t.path, t.child, e, p, n, b);
    OutputsAddNode(t.path, t.output, t.index, e, p + [b]);
    var t' := Nodes(t.path + [p + [b]], t.output + [false], t.index + [0],
                    (t.child + [NilRow()])[n := t.child[n][b := |t.path|]], t.fails + [NilRow()],
                    t.suffix + [Root], t.fail + [if |p| == 0 then Root else Nil]);
    forall x | 0 < x < |t'.path|
      ensures Unlinked(t', x)
    {
      if x < |t.path| {
        assert Unlinked(t, x);
      }
    }
  }
}
