/**
 * Worked cases of the matcher on small dictionaries, among them the classic
 * Aho-Corasick example: the patterns "he", "she", "his" and "hers"
 * searched for in "ushers".
 */
module Scenarios {
  import opened Text
  import opened Arena
  import opened AhoCorasick

  /** The dictionary "he", "she", "his", "hers", as bytes. */
  function Greetings(): (dict: seq<seq<byte>>)
    ensures |dict| == 4 && forall k :: 0 <= k < 4 ==> dict[k] != []
  {
    [[104, 101], [115, 104, 101], [104, 105, 115], [104, 101, 114, 115]]
  }

  /** The input "ushers", as bytes. */
  function Ushers(): (s: seq<byte>)
    ensures |s| == 6
  {
    [117, 115, 104, 101, 114, 115]
  }

  /** In "ushers", "he", "she" and "hers" occur and "his" does not. */
  lemma UshersFound()
    ensures forall k :: k in Found(Greetings(), Ushers()) <==> k == 0 || k == 1 || k == 3
  {
    var d: seq<seq<byte>> := Greetings();
    var s: seq<byte> := Ushers();
    assert d[0] <= s[2..] && d[1] <= s[1..] && d[3] <= s[2..];
    forall i | 0 <= i <= |s|
      ensures !(d[2] <= s[i..])
    {
      if i == 2 {
        assert s[i..][1] != d[2][1];
      } else if i < |s| - 2 {
        assert s[i..][0] != d[2][0];
      }
    }
    assert !Occurs(d[2], s);
  }

  /**
   * Building a matcher for the four patterns and matching "ushers" reports
   * indices 0, 1 and 3, each once, and never 2.
   */
  method UshersHits() returns (hits: seq<int>)
    ensures NoDuplicates(hits)
    ensures forall k :: k in hits <==> k == 0 || k == 1 || k == 3
  {
    var m := NewMatcher(Greetings());
    hits := m.Match(Ushers());
    UshersFound();
    assert forall k :: k in hits <==> k in Found(Greetings(), Ushers());
  }

  /** In "abc", each of "a", "ab" and "bc" occurs. */
  lemma OverlapsFound()
    ensures forall k :: k in Found([[97], [97, 98], [98, 99]], [97, 98, 99]) <==> 0 <= k < 3
  {
    var d: seq<seq<byte>> := [[97], [97, 98], [98, 99]];
    var s: seq<byte> := [97, 98, 99];
    assert d[0] <= s[0..] && d[1] <= s[0..] && d[2] <= s[1..];
  }

  /** "xyz" does not occur in "abc". */
  lemma AbsentFound()
    ensures Found([[120, 121, 122]], [97, 98, 99]) == {}
  {
    var d: seq<seq<byte>> := [[120, 121, 122]];
    var s: seq<byte> := [97, 98, 99];
    forall i | 0 <= i <= |s|
      ensures !(d[0] <= s[i..])
    {
      if i < |s| {
        assert s[i..][0] != d[0][0];
      }
    }
  }

  /** Matching the same input twice reports the same indices, since only the stamps change. */
  method MatchTwice(m: Matcher, input: seq<byte>) returns (first: seq<int>, second: seq<int>)
    requires m.Valid()
    modifies m
    ensures forall k :: k in first <==> k in second
  {
    first := m.Match(input);
    second := m.Match(input);
  }
}
