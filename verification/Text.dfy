// Searching in strings, as std::search and the find functions of std::string do it.

module Text {

  const CRLF: string := "\r\n"

  ghost predicate Match(s: string, pattern: string, i: nat) {
    i + |pattern| <= |s| && s[i..i + |pattern|] == pattern
  }

  /** The first occurrence at or after from, or |s| when there is none (std::search). */
  function Search(s: string, pattern: string, from: nat): (r: nat)
    requires from <= |s| && |pattern| > 0
    ensures from <= r <= |s|
    ensures r < |s| ==> Match(s, pattern, r)
    ensures forall i :: from <= i < r ==> !Match(s, pattern, i)
    ensures r == |s| ==> forall i :: from <= i ==> !Match(s, pattern, i)
    decreases |s| - from
  {
    if from + |pattern| > |s| then |s|
    else if s[from..from + |pattern|] == pattern then from
    else Search(s, pattern, from + 1)
  }

  /** Whatever is the first occurrence is what Search finds. */
  lemma SearchIs(s: string, pattern: string, from: nat, r: nat)
    requires from <= r < |s| && |pattern| > 0
    requires Match(s, pattern, r)
    requires forall i :: from <= i < r ==> !Match(s, pattern, i)
    ensures Search(s, pattern, from) == r
  {
  }

  /** A search in a tail is the search in the whole that starts where the tail does. */
  lemma {:induction false} SearchInTail(s: string, pattern: string, from: nat, k: nat)
    requires from + k <= |s| && |pattern| > 0
    ensures Search(s[from..], pattern, k) == Search(s, pattern, from + k) - from
    decreases |s| - from - k
  {
    if from + k + |pattern| <= |s| {
      assert s[from..][k..k + |pattern|] == s[from + k..from + k + |pattern|];
      if s[from + k..from + k + |pattern|] != pattern {
        SearchInTail(s, pattern, from, k + 1);
      }
    }
  }

  lemma MatchCRLF(s: string, i: nat)
    ensures Match(s, CRLF, i) <==> i + 2 <= |s| && s[i] == '\r' && s[i + 1] == '\n'
  {
  }
}
