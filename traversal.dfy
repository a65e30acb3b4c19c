/**
 * The breadth-first pass of Go's `buildTrie` (ahocorasick.go:125-156),
 * stated on the arena: which nodes the queue has reached, which it has
 * visited, and why the pass links every node exactly once.
 */
module Traversal {
  import opened Text
  import opened Trie
  import opened Links
  import opened Arena

  /** The last byte of a non-empty path, and -1 for the empty path of the root. */
  ghost function LastByte(w: seq<byte>): int
  {
    if w == [] then -1 else w[|w| - 1]
  }

  /** The numbers from 0 up to `n`, excluded. */
  ghost function {:induction false} Below(n: nat): (s: set<int>)
    ensures forall x :: x in s <==> 0 <= x < n
  {
    if n == 0 then {} else Below(n - 1) + {n - 1}
  }

  /** Every node but the root hangs under its parent, on the last byte of its path. */
  ghost predicate ParentEdges(t: Nodes, dict: seq<seq<byte>>)
  {
    TrieShape(t.path, t.child, dict) &&
    forall x :: 0 < x < |t.path| ==>
      t.path[x] != [] && 0 <= Parent(t.path, t.child, x) < |t.path| &&
      t.child[Parent(t.path, t.child, x)][LastByte(t.path[x])] == x
  }

  lemma AllParentEdges(t: Nodes, dict: seq<seq<byte>>)
    requires TrieShape(t.path, t.child, dict)
    ensures ParentEdges(t, dict)
  {
    forall x | 0 < x < |t.path|
      ensures t.path[x] != [] && 0 <= Parent(t.path, t.child, x) < |t.path|
      ensures t.child[Parent(t.path, t.child, x)][LastByte(t.path[x])] == x
    {
      ParentEdge(t.path, t.child, dict, x);
    }
  }

  /** The queue holds, once each, the nodes reached but not yet visited. */
  ghost predicate Queued(queue: seq<int>, seen: set<int>, done: set<int>)
  {
    NoDuplicates(queue) && done <= seen && forall q :: q in queue <==> q in seen && q !in done
  }

  /**
   * The nodes reached so far are those whose parent has been visited, except
   * the children of `n` on bytes from `i` on, which are still to be reached.
   */
  ghost predicate Reached(t: Nodes, seen: set<int>, done: set<int>, n: int, i: int)
    requires Edges(t.child) && |t.child| >= 1
  {
    forall x :: 0 < x < |t.path| ==>
      (x in seen <==> Parent(t.path, t.child, x) in done &&
                      (Parent(t.path, t.child, x) != n || LastByte(t.path[x]) < i))
  }

  /** The nodes reached so far have their links; the others keep the links they were created with. */
  ghost predicate LinkedExactly(t: Nodes, dict: seq<seq<byte>>, seen: set<int>)
  {
    Sized(t) &&
    forall x :: 0 < x < |t.path| ==> if x in seen then Linked(t, dict, x) else Unlinked(t, x)
  }

  /**
   * The state of the pass over the trie `t0` of `dict`, now at `t` (only
   * links differ), while looking at byte `i` of node `n` (`n` is `Nil`
   * between two nodes).
   */
  ghost predicate Pass(t0: Nodes, t: Nodes, dict: seq<seq<byte>>, queue: seq<int>, seen: set<int>,
                       done: set<int>, n: int, i: int)
  {
    Fresh(t0, dict, dict) && ParentEdges(t0, dict) &&
    Sized(t) && t == t0.(fail := t.fail, suffix := t.suffix) &&
    Root in seen && seen <= Below(|t0.path|) &&
    Queued(queue, seen, done) && Reached(t0, seen, done, n, i) && LinkedExactly(t, dict, seen)
  }

  /** The pass starts with the root in the queue, reached and not visited. */
  lemma PassStart(t0: Nodes, dict: seq<seq<byte>>)
    requires Fresh(t0, dict, dict)
    ensures Pass(t0, t0, dict, [Root], {Root}, {}, Nil, 0)
  {
    AllParentEdges(t0, dict);
  }

  /**
   * Taking `n` from the front of the queue: it is visited, and none of its
   * children has been reached yet.
   */
  lemma PassPop(t0: Nodes, t: Nodes, dict: seq<seq<byte>>, queue: seq<int>, seen: set<int>, done: set<int>)
    requires Pass(t0, t, dict, queue, seen, done, Nil, 0) && |queue| > 0
    ensures 0 <= queue[0] < |t0.path|
    ensures Pass(t0, t, dict, queue[1..], seen, done + {queue[0]}, queue[0], 0)
  {
    var n := queue[0];
    assert n in queue && n in seen && n in Below(|t0.path|);
    QueuePop(queue, seen, done);
    forall x | 0 < x < |t0.path|
      ensures x in seen <==> Parent(t0.path, t0.child, x) in done + {n} &&
                             (Parent(t0.path, t0.child, x) != n || LastByte(t0.path[x]) < 0)
    {
    }
  }

  /** Taking the front of the queue moves it from the reached nodes to the visited ones. */
  lemma QueuePop(queue: seq<int>, seen: set<int>, done: set<int>)
    requires Queued(queue, seen, done) && |queue| > 0
    ensures Queued(queue[1..], seen, done + {queue[0]})
  {
    var rest := queue[1..];
    assert queue[0] in queue;
    forall a, b | 0 <= a < b < |rest|
      ensures rest[a] != rest[b]
    {
      assert rest[a] == queue[a + 1] && rest[b] == queue[b + 1];
    }
    forall q
      ensures q in rest <==> q in queue && q != queue[0]
    {
      if q in rest {
        var k :| 0 <= k < |rest| && rest[k] == q;
        assert queue[k + 1] == q;
      }
      if q in queue && q != queue[0] {
        var k :| 0 <= k < |queue| && queue[k] == q;
        assert rest[k - 1] == q;
      }
    }
  }

  /** Looking at a missing edge of `n` reaches nothing. */
  lemma PassNoEdge(t0: Nodes, t: Nodes, dict: seq<seq<byte>>, queue: seq<int>, seen: set<int>,
                   done: set<int>, n: int, i: int)
    requires Pass(t0, t, dict, queue, seen, done, n, i)
    requires 0 <= n < |t0.path| && 0 <= i < 256 && t0.child[n][i] == Nil
    ensures Pass(t0, t, dict, queue, seen, done, n, i + 1)
  {
  }

  /** The child on the edge of `n` that is looked at, visited node `n`, has not been reached. */
  lemma PassEdgeNew(t0: Nodes, t: Nodes, dict: seq<seq<byte>>, queue: seq<int>, seen: set<int>,
                    done: set<int>, n: int, i: int)
    requires Pass(t0, t, dict, queue, seen, done, n, i) && n in done
    requires 0 <= n < |t0.path| && 0 <= i < 256 && t0.child[n][i] != Nil
    ensures 0 < t0.child[n][i] < |t.path| && t0.child[n][i] !in seen && Unlinked(t, t0.child[n][i])
  {
    ChildParent(t0.path, t0.child, dict, n, i);
  }

  /** Appending a node not reached before keeps the queue right. */
  lemma QueuePush(queue: seq<int>, seen: set<int>, done: set<int>, c: int)
    requires Queued(queue, seen, done) && c !in seen
    ensures Queued(queue + [c], seen + {c}, done)
  {
    var q := queue + [c];
    forall a, b | 0 <= a < b < |q|
      ensures q[a] != q[b]
    {
      if b == |queue| {
        assert q[a] == queue[a] && queue[a] in queue;
      }
    }
  }

  /** Linking node `c` and counting it as reached keeps the others as they were. */
  lemma LinkOne(t1: Nodes, t2: Nodes, dict: seq<seq<byte>>, seen: set<int>, c: int)
    requires LinkedExactly(t1, dict, seen) && 0 < c < |t1.path| && Sized(t2) && |t2.path| == |t1.path|
    requires t2 == t1.(fail := t1.fail[c := t2.fail[c]], suffix := t1.suffix[c := t2.suffix[c]])
    requires Linked(t2, dict, c)
    ensures LinkedExactly(t2, dict, seen + {c})
  {
    forall x | 0 < x < |t2.path| && x != c
      ensures if x in seen then Linked(t2, dict, x) else Unlinked(t2, x)
    {
      assert t2.fail[x] == t1.fail[x] && t2.suffix[x] == t1.suffix[x];
      assert Linked(t2, dict, x) == Linked(t1, dict, x) && Unlinked(t2, x) == Unlinked(t1, x);
    }
  }

  /** The child on the edge of `n` looked at is reached next, and no other node. */
  lemma ReachChild(t0: Nodes, dict: seq<seq<byte>>, seen: set<int>, done: set<int>, n: int, i: int)
    requires ParentEdges(t0, dict) && Reached(t0, seen, done, n, i) && n in done
    requires 0 <= n < |t0.path| && 0 <= i < 256 && t0.child[n][i] != Nil
    ensures Reached(t0, seen + {t0.child[n][i]}, done, n, i + 1)
  {
    ChildParent(t0.path, t0.child, dict, n, i);
  }

  /**
   * Appending the child `c` on the edge of `n` looked at to the queue, and
   * linking it, moves the pass on to the next byte.
   */
  lemma PassEdge(t0: Nodes, t1: Nodes, t2: Nodes, dict: seq<seq<byte>>, queue: seq<int>, seen: set<int>,
                 done: set<int>, n: int, i: int)
    requires Pass(t0, t1, dict, queue, seen, done, n, i) && n in done
    requires 0 <= n < |t0.path| && 0 <= i < 256 && t0.child[n][i] != Nil && t0.child[n][i] !in seen
    requires Sized(t2) && |t2.path| == |t1.path| && Linked(t2, dict, t0.child[n][i])
    requires t2 == t1.(fail := t1.fail[t0.child[n][i] := t2.fail[t0.child[n][i]]],
                       suffix := t1.suffix[t0.child[n][i] := t2.suffix[t0.child[n][i]]])
    ensures Pass(t0, t2, dict, queue + [t0.child[n][i]], seen + {t0.child[n][i]}, done, n, i + 1)
  {
    var c := t0.child[n][i];
    assert 0 < c < |t1.path|;
    QueuePush(queue, seen, done, c);
    LinkOne(t1, t2, dict, seen, c);
    ReachChild(t0, dict, seen, done, n, i);
  }

  /** Once all bytes of `n` are looked at, the pass is between two nodes again. */
  lemma PassNext(t0: Nodes, t: Nodes, dict: seq<seq<byte>>, queue: seq<int>, seen: set<int>,
                 done: set<int>, n: int)
    requires Pass(t0, t, dict, queue, seen, done, n, 256)
    ensures Pass(t0, t, dict, queue, seen, done, Nil, 0)
  {
  }

  /** Reaching a node not reached before adds one to the count. */
  lemma AddOne(s: set<int>, c: int)
    requires c !in s
    ensures |s + {c}| == |s| + 1
  {
  }

  /** A set of node ids has no more elements than there are nodes. */
  lemma {:induction false} BelowBound(s: set<int>, n: nat)
    requires s <= Below(n)
    ensures |s| <= n
  {
    if n > 0 {
      var r := s - {n - 1};
      forall x | x in r
        ensures x in Below(n - 1)
      {
      }
      BelowBound(r, n - 1);
    }
  }

  /**
   * When the queue is empty every node has been reached, since the trie is
   * connected, and so every node but the root is linked.
   */
  lemma PassEnd(t0: Nodes, t: Nodes, dict: seq<seq<byte>>, seen: set<int>, done: set<int>)
    requires Pass(t0, t, dict, [], seen, done, Nil, 0)
    ensures Sized(t) && forall x :: 0 < x < |t.path| ==> Linked(t, dict, x)
  {
    assert seen == done;
    forall d, b | d in seen && 0 <= d < |t0.child| && 0 <= b < 256 && t0.child[d][b] != Nil
      ensures t0.child[d][b] in seen
    {
      ChildParent(t0.path, t0.child, dict, d, b);
    }
    forall x | 0 < x < |t0.path|
      ensures x in seen
    {
      WalkStaysIn(t0.child, seen, Root, t0.path[x]);
      WalkToNode(t0.path, t0.child, dict, x);
    }
  }
}
