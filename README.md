# Aho-Corasick byte-string matcher, modelled in Dafny

This project models `ahocorasick.go`, a multi-pattern exact matcher over byte
strings ("blices") built on the Aho-Corasick automaton. A `Matcher` is built
from a dictionary of patterns in three phases, all inside `buildTrie`:

- the trie of the patterns, with the node at the end of each pattern marked as
  an output node carrying its dictionary index;
- a breadth-first pass that gives every node its failure link (the longest
  proper suffix of its path that is in the trie) and its suffix link (the
  longest proper suffix that is a pattern, or the root);
- the `fails` table, which gives for each node and byte the first node on the
  failure chain with an edge on that byte.

`Match` then scans the input once, left to right. It reports each pattern met
once per call, using a per-call counter that it stamps on the nodes it reports.

The model is imperative, like the source. `AhoCorasick.Matcher` is a class
with Go's `counter`, the node arena `nodes` and the per-node stamps `stamps`
(Go's per-node `counter`). Every phase is a method whose loops carry their
invariants, and each method is proved against specification predicates over
the dictionary. The predicates are `InTrie`, `IsPattern`, `Occurs`, `Longest`
and `Found` in module `Text`, and `TrieShape`, `Outputs`, `FailOk`,
`SuffixOk` and `FailsOk` in modules `Trie` and `Links`.

The main result is the contract of `Match`:

- the call changes only the counters;
- the result has no duplicates;
- an index is returned exactly when its pattern is non-empty, is the last
  entry of the dictionary holding that pattern, and occurs in the input.

Modules, following the structure of the Go code:

| file | module | contents |
|---|---|---|
| text.dfy | `Text` | bytes; what it means for a string to be in the trie, to be a pattern, to occur; the expected result `Found` |
| trie.dfy | `Trie` | child edges, `Walk` (what `findBlice` computes), the shape of the trie and how node creation keeps it |
| links.dfy | `Links` | outputs, failure links, suffix links, the `fails` table, and the facts the scanner relies on |
| nodes.dfy | `Arena` | the node arena `Nodes` (one sequence per Go node field) and the states the build goes through |
| traversal.dfy | `Traversal` | the invariant of the breadth-first pass and why it links every node once |
| table.dfy | `Table` | the invariant of the loop filling the `fails` table |
| scan.dfy | `Scan` | the invariant of the scan: which nodes are stamped and which indices are in the hits |
| matcher.dfy | `AhoCorasick` | the `Matcher` class, `NewMatcher`, `NewStringMatcher` |
| scenarios.dfy | `Scenarios` | worked cases, among them "he", "she", "his", "hers" in "ushers" |

The code differs from the design description of the system in two places, and
the model follows the code:

- **Empty pattern.** The design says an empty pattern matches everywhere and
  its index must be in every result. In the code, an empty pattern marks the
  root as an output node (ahocorasick.go:89, 121-122). The scan only reports
  nodes it reaches through a child edge, or along suffix links that stop
  before the root (ahocorasick.go:209-218). So the index of an empty pattern
  is never returned, and `Found` leaves out empty patterns.
- **Duplicate patterns.** The design says duplicates keep distinct indices.
  In the code, inserting a repeated pattern overwrites the index of its node
  (ahocorasick.go:122). So only the last index of a repeated pattern is ever
  returned (`IsLastIndex`).

## Model

| member | source | states |
|---|---|---|
| AhoCorasick.Matcher.constructor | ahocorasick.go:172 | `new(Matcher)`: the counter is zero and there are no nodes yet |
| AhoCorasick.Matcher.FindBlice | ahocorasick.go:60-69 | the walk from the root along `b`; it gives Nil exactly when `b` is not a prefix of any pattern, and otherwise the node whose path is `b` |
| AhoCorasick.Matcher.InsertPatterns | ahocorasick.go:75-123 | afterwards the nodes are the trie of the dictionary: one node per prefix of a pattern, with distinct paths; an edge on `c` leads to the path extended by `c`, and a missing edge means that extension is no prefix; output nodes are exactly the patterns, each carrying its last index; no links yet; at most 1 + total pattern length nodes |
| AhoCorasick.Matcher.InsertPattern | ahocorasick.go:88-123 | inserting pattern `i` makes the trie that of the first `i + 1` patterns, marks the node of pattern `i` with index `i` (overwriting an equal earlier pattern), and adds at most one node per byte |
| AhoCorasick.Matcher.Descend | ahocorasick.go:89-116 | walking a pattern from the root while creating missing nodes ends at the node whose path is the pattern, and the trie then holds all its prefixes |
| AhoCorasick.Matcher.NewChild | ahocorasick.go:96-113 | the node created for the path extended by `b` is appended last with that path; the nodes are then the trie of the strings with that path added, and the new node has the root as suffix link, and as failure link when it is at depth one |
| AhoCorasick.Matcher.FailLink | ahocorasick.go:136-146 | the failure link is the node of the longest proper suffix of the path that is in the trie, the root when there is none; it is shorter than the path |
| AhoCorasick.Matcher.SuffixLink | ahocorasick.go:147-153 | the suffix link is the output node of the longest non-empty proper suffix of the path that is a pattern, or the root when there is none |
| AhoCorasick.Matcher.SetLinks | ahocorasick.go:136-153 | node `c` gets both links and no other node changes |
| AhoCorasick.Matcher.VisitChildren | ahocorasick.go:131-155 | every child of the node taken from the queue is appended to the queue once and linked; the pass invariant is kept |
| AhoCorasick.Matcher.ComputeLinks | ahocorasick.go:125-156 | the breadth-first pass ends, and when it does every node but the root has its failure and suffix links; only the links change |
| AhoCorasick.Matcher.FailTarget | ahocorasick.go:160-163 | following failure links from node `k` stops at the longest suffix of its path (itself included) with an edge on `c`, or at the root; the loop ends |
| AhoCorasick.Matcher.ComputeFails | ahocorasick.go:158-166 | afterwards every `fails[k][c]` is that node, so the automaton is complete; only the table changes |
| AhoCorasick.Matcher.BuildTrie | ahocorasick.go:73-167 | the result is the complete automaton of the dictionary, with every stamp zero and at most 1 + total pattern length nodes |
| AhoCorasick.Matcher.Match | ahocorasick.go:196-236 | the counter goes up by one; the automaton is unchanged and stays valid; no index is returned twice; `k` is returned exactly when `k` is in `Found(dict, input)` |
| AhoCorasick.Matcher.Scan | ahocorasick.go:200-235 | after the whole input, the stamps and hits are exactly those of the patterns occurring in it |
| AhoCorasick.Matcher.Feed | ahocorasick.go:203-233 | one byte moves the state to the node of the longest suffix, in the trie, of the input read so far, and brings the stamps and hits up to date with it |
| AhoCorasick.Matcher.ReportOutputs | ahocorasick.go:209-232 | after the suffix walk from `f`, including the early stop at a stamped node, every output node whose path is a suffix of that of `f` is stamped and reported once |
| AhoCorasick.NewMatcher | ahocorasick.go:171-177 | a fresh matcher holding the valid automaton of the dictionary, with counter zero |
| AhoCorasick.NewStringMatcher | ahocorasick.go:181-192 | the same as `NewMatcher` on the copied dictionary, which equals the given one |
| Trie.WalkFinds | ahocorasick.go:60-69 | walking `b` from a node fails exactly when the path extended by `b` is not in the trie, and otherwise reaches the node of that path |
| Trie.NodeOfString | ahocorasick.go:60-69 | every string in the trie has a node, found by walking it from the root |
| Trie.WalkToNode | ahocorasick.go:60-69 | walking a node's path from the root reaches that node |
| Trie.WalkAppend | ahocorasick.go:63-66 | walking `u + v` is walking `u` and then `v` |
| Trie.SharedPrefix | ahocorasick.go:89-116 | a pattern that is a prefix of another gets no node of its own: the longer pattern's walk goes through its node |
| Trie.TrieAddNode | ahocorasick.go:96-102 | appending the node for `p + [b]` under the node of `p` keeps the trie shape for the extended string set |
| Trie.TrieFollowEdge | ahocorasick.go:94-115 | following an existing edge keeps the trie shape for the extended string set |
| Trie.MissingEdgeNoPattern | ahocorasick.go:96-102 | a missing edge means the extended string is no earlier pattern, so a new node is no output yet |
| Trie.ParentEdge | ahocorasick.go:100 | every node but the root hangs under its parent on the last byte of its path |
| Trie.ChildParent | ahocorasick.go:100-102 | a child's path is its parent's path plus the edge byte |
| Trie.WalkStaysIn | ahocorasick.go:128-134 | a set of nodes holding the root and closed under edges holds every node reached from the root |
| Links.FailOfDepthOne | ahocorasick.go:108-110 | a failure link is always shorter than the path, and a node at depth one fails to the root |
| Links.StepKeepsLongest | ahocorasick.go:205-211 | the fall-back through `fails` and the child step move from the longest suffix of `t` in the trie to the longest suffix of `t + [c]` |
| Links.StepNoLonger | ahocorasick.go:205-211 | no suffix of `t + [c]` longer than the node reached is in the trie |
| Links.SuffixLinkOutputs | ahocorasick.go:218-219 | the patterns that are proper suffixes of a node's path are exactly those that are suffixes of its suffix link's path |
| Links.ChainAdvance | ahocorasick.go:218-222 | the output suffixes of `f` shorter than `f` are the suffix link and the output suffixes below it |
| Links.ChainStop | ahocorasick.go:223-229 | when the suffix walk meets a node already reported, all output suffixes of it have been reported too |
| Links.ReportedAfterStep | ahocorasick.go:202-232 | after byte `c`, the patterns that occur are those that occurred before and the output suffixes of the new state |
| Links.ReportedIsFound | ahocorasick.go:194-195 | the indices of output nodes whose patterns occur are exactly `Found` |
| Links.FoundNode | ahocorasick.go:118-122 | every found index is carried by the output node of its pattern |
| Links.PatternNode | ahocorasick.go:118-122 | walking any pattern from the root reaches an output node whose path is the pattern and whose index is its last index |
| Links.OutputsAddNode | ahocorasick.go:97-102 | a new node that is not a pattern keeps the outputs right |
| Links.OutputsAddPattern | ahocorasick.go:121-122 | marking the node of pattern `i` with index `i` keeps the outputs right for one more pattern |
| Links.FailChainStep | ahocorasick.go:161-163 | one failure step keeps the invariant of the `fails` loop: no longer suffix extends by `c` |
| Links.SuffixChain | ahocorasick.go:218-219 | following suffix links reaches the root in at most as many steps as the path is long |
| Arena.RootOnly | ahocorasick.go:82-83 | the lone root is the trie of the empty dictionary |
| Arena.MarkPattern | ahocorasick.go:121-122 | marking the pattern's node keeps the build state for one more pattern |
| Arena.AddNodeKeepsFresh | ahocorasick.go:96-113 | appending an unlinked node keeps the build state |
| Traversal.PassStart | ahocorasick.go:125-126 | a queue holding just the root satisfies the pass invariant |
| Traversal.PassPop | ahocorasick.go:129 | taking the front node moves it to the visited nodes and keeps the invariant |
| Traversal.QueuePop | ahocorasick.go:129 | removing the front keeps the queue free of repeats |
| Traversal.QueuePush | ahocorasick.go:134 | appending a node not reached before keeps the queue free of repeats |
| Traversal.PassEdge | ahocorasick.go:132-154 | queueing and linking a child keeps the pass invariant |
| Traversal.BelowBound | ahocorasick.go:128 | the reached nodes number at most the nodes, which bounds the pass |
| Traversal.PassEnd | ahocorasick.go:128-156 | when the queue is empty every node but the root has been linked |
| Table.FilledStep | ahocorasick.go:164 | writing a correct entry moves the table loop on by one byte |
| Table.FilledEnd | ahocorasick.go:158-166 | once every row is written the automaton is complete |
| Scan.ScanStart | ahocorasick.go:197-200 | after the counter goes up no node is stamped, and the root is the state for the empty input |
| Scan.LeaveStep | ahocorasick.go:209-232 | once the suffix walk is done, the stamps are those of the input extended by one byte |
| Scan.NoEdgeStep | ahocorasick.go:205-209 | when the step ends at the root, no pattern occurs that did not occur before |
| Scan.StampAt | ahocorasick.go:213-222 | stamping a node not yet stamped and appending its index keeps the hits exact and free of repeats |
| Scan.ChainGap | ahocorasick.go:218-219 | a suffix link skips no output node, and the walk ends at the root |
| Scan.ChainStopAll | ahocorasick.go:223-229 | the early `break` leaves nothing unreported |
| Scan.HitsFound | ahocorasick.go:196-236 | at the end of the scan the hits hold no repeats and hold exactly the found indices |
| Text.OccursExtend | ahocorasick.go:202 | a pattern occurs in `t + [c]` exactly when it occurs in `t` or is a suffix of `t + [c]` |
| Text.LongestSuffixes | ahocorasick.go:205-211 | the suffixes of the input in the trie are exactly the suffixes of the current state |
| Text.FoundInEmptyInput | ahocorasick.go:202-235 | an empty input reports nothing |
| Text.IsPatternExtend | ahocorasick.go:88-122 | the patterns of one more dictionary entry are the earlier ones plus that entry |
| Text.InTrieExtend | ahocorasick.go:91-92 | extending the current prefix by a byte adds exactly that string to the trie |
| Text.TotalLengthGrows | ahocorasick.go:75-78 | the capacity bound grows by each pattern's length |
| Scenarios.UshersFound | ahocorasick.go:194-195 | in "ushers", "he", "she" and "hers" occur and "his" does not |
| Scenarios.UshersHits | ahocorasick.go:196-236 | a matcher for "he", "she", "his", "hers" returns indices 0, 1 and 3 for "ushers", once each |
| Scenarios.OverlapsFound | ahocorasick.go:194-195 | "a", "ab" and "bc" all occur in "abc" |
| Scenarios.AbsentFound | ahocorasick.go:194-195 | "xyz" does not occur in "abc" |
| Scenarios.MatchTwice | ahocorasick.go:196-236 | matching the same input twice gives the same indices |

## Left out

- Concurrency: the counters make concurrent `Match` calls unsafe; only single-threaded calls are modelled.
- AhoCorasick.Matcher.Match: the counter is an unbounded integer, so Go's `int` wrap-around after 2^63 calls is not modelled. After a wrap a stale stamp could equal the counter.
- AhoCorasick.Matcher.Match: states which indices are returned, and that none repeats, but not the order Go appends them in. The order follows the scan and the suffix chains.
- Pointers: nodes are ids into an arena (`Root` = 0, Nil = -1). Go's `root` flag is the test `n == Root`. The arena is a datatype value that methods reassign, not structs updated through shared pointers.
- Go's `[256]*node` arrays are sequences of 256 ids.
- `container/list` is a sequence used as a FIFO queue.
- The capacity hint `max` (ahocorasick.go:75-80) only sizes an allocation. Only the node-count bound it implies is kept.
- Go's per-node `counter` is kept as a sequence `stamps` in the matcher, parallel to the nodes. It is zero for every node after building, as Go's zero value is.
- `NewStringMatcher` takes byte sequences. A Go string is already a sequence of bytes, so its `[]byte(s)` conversion is a copy.
- The dictionary is kept only as a ghost field for the specification. Go does not store it.
- Match positions and multiplicities are not reported by the source and are not modelled.
