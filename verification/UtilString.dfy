// The string helpers of utils/utilstring.cpp.  Positions are as in std::string, with |s| for
// npos; where std::string::substr throws out_of_range the result is Threw.

module UtilStrings {

  datatype Result<T> = Threw | Ok(value: T)

  /** find_first_of(c, from) */
  function FirstOf(s: string, c: char, from: nat): (r: nat)
    requires from <= |s|
    ensures from <= r <= |s| && (r < |s| ==> s[r] == c)
    ensures forall i :: from <= i < r ==> s[i] != c
    decreases |s| - from
  {
    if from == |s| || s[from] == c then from else FirstOf(s, c, from + 1)
  }

  /** find_first_not_of(c, from) */
  function FirstNotOf(s: string, c: char, from: nat): (r: nat)
    requires from <= |s|
    ensures from <= r <= |s| && (r < |s| ==> s[r] != c)
    ensures forall i :: from <= i < r ==> s[i] == c
    decreases |s| - from
  {
    if from == |s| || s[from] != c then from else FirstNotOf(s, c, from + 1)
  }

  /** find_last_not_of(c) + 1: how much is left when the c's at the end go. */
  function EndWithout(s: string, c: char): (r: nat)
    ensures r <= |s| && (r > 0 ==> s[r - 1] != c)
    ensures forall i :: r <= i < |s| ==> s[i] == c
  {
    if s == "" || s[|s| - 1] != c then |s| else EndWithout(s[..|s| - 1], c)
  }

  // ------------------------------------------------------------- StringTrim

  predicate Trimmed(s: string) {
    s != "" && s[0] != ' ' && s[|s| - 1] != ' '
  }

  predicate Blank(s: string) {
    forall i :: 0 <= i < |s| ==> s[i] == ' '
  }

  function Trim(s: string): Result<string> {
    var start := FirstNotOf(s, ' ', 0);
    var end := EndWithout(s, ' ');
    if start == |s| then Threw
    else if start <= end then Ok(s[start..end])
    else assert false; Threw
  }

  /** Trimming throws exactly on strings with nothing but spaces; otherwise it gives a trimmed
      part with only spaces around it. */
  lemma TrimIs(s: string)
    ensures Trim(s).Threw? <==> Blank(s)
    ensures Trim(s).Ok? ==>
      Trimmed(Trim(s).value)
      && exists i, j {:trigger s[i..j]} ::
           0 <= i < j <= |s| && Trim(s).value == s[i..j] && Blank(s[..i]) && Blank(s[j..])
  {
    var start, end := FirstNotOf(s, ' ', 0), EndWithout(s, ' ');
    if start < |s| {
      assert Trim(s).value == s[start..end] && Blank(s[..start]) && Blank(s[end..]);
    }
  }

  /** And there is only one such part. */
  lemma TrimSurrounded(a: string, t: string, b: string)
    requires Blank(a) && Trimmed(t) && Blank(b)
    ensures Trim(a + t + b) == Ok(t)
  {
    var s := a + t + b;
    assert s[|a|] == t[0] && s[|a| + |t| - 1] == t[|t| - 1];
    assert forall i :: 0 <= i < |a| ==> s[i] == a[i];
    assert forall i :: |a| + |t| <= i < |s| ==> s[i] == b[i - |a| - |t|];
    assert FirstNotOf(s, ' ', 0) == |a|;
    assert EndWithout(s, ' ') == |a| + |t|;
  }

  // ------------------------------------------------------------- StringSplitBychar

  /** Each call pushes the next token; a delimiter with nothing after it, and an empty string,
      throw. */
  function Split(src: string, delimiter: char, ret: seq<string>, startpos: nat): Result<seq<string>>
    requires startpos <= |src|
    decreases |src| - startpos
  {
    var first := FirstNotOf(src, delimiter, startpos);
    if first == |src| then Threw
    else
      var end := FirstOf(src, delimiter, first);
      var ret' := ret + [src[first..end]];
      if end == |src| then Ok(ret') else Split(src, delimiter, ret', end)
  }

  ghost predicate Tokens(ts: seq<string>, delimiter: char) {
    forall i :: 0 <= i < |ts| ==> ts[i] != "" && delimiter !in ts[i]
  }

  /** The string without its delimiters. */
  ghost function Without(s: string, c: char): string {
    if s == "" then "" else (if s[0] == c then "" else [s[0]]) + Without(s[1..], c)
  }

  ghost function Flat(ts: seq<string>): string {
    if ts == [] then "" else Flat(ts[..|ts| - 1]) + ts[|ts| - 1]
  }

  lemma {:induction false} WithoutDrops(s: string, c: char, n: nat)
    requires n <= |s| && forall i :: 0 <= i < n ==> s[i] == c
    ensures Without(s, c) == Without(s[n..], c)
  {
    if n > 0 {
      WithoutDrops(s[1..], c, n - 1);
      assert s[1..][n - 1..] == s[n..];
    }
  }

  lemma {:induction false} WithoutKeeps(s: string, c: char, n: nat)
    requires n <= |s| && forall i :: 0 <= i < n ==> s[i] != c
    ensures Without(s, c) == s[..n] + Without(s[n..], c)
  {
    if n > 0 {
      WithoutKeeps(s[1..], c, n - 1);
      assert s[1..][n - 1..] == s[n..];
      assert s[..n] == [s[0]] + s[1..][..n - 1];
    }
  }

  lemma FlatGrows(ts: seq<string>, t: string)
    ensures Flat(ts + [t]) == Flat(ts) + t
  {
    assert (ts + [t])[..|ts|] == ts;
  }

  /** Splitting throws exactly when the rest of the string is empty or ends with a delimiter;
      otherwise it appends non-empty tokens without delimiters, which are the rest of the
      string without its delimiters. */
  lemma {:induction false} SplitIs(src: string, delimiter: char, ret: seq<string>, startpos: nat)
    requires startpos <= |src|
    ensures Split(src, delimiter, ret, startpos).Threw? <==> startpos == |src| || src[|src| - 1] == delimiter
    ensures Split(src, delimiter, ret, startpos).Ok? ==>
      var ts := Split(src, delimiter, ret, startpos).value;
      && ret <= ts && Tokens(ts[|ret|..], delimiter)
      && Flat(ts) == Flat(ret) + Without(src[startpos..], delimiter)
    decreases |src| - startpos
  {
    hide Without, Flat, Tokens;
    var first := FirstNotOf(src, delimiter, startpos);
    if first < |src| {
      var end := FirstOf(src, delimiter, first);
      var token := src[first..end];
      WithoutToken(src, delimiter, startpos, first, end);
      FlatGrows(ret, token);
      if end < |src| {
        SplitIs(src, delimiter, ret + [token], end);
        var r := Split(src, delimiter, ret + [token], end);
        if r.Ok? {
          MoreTokens(ret, token, r.value, delimiter);
        }
      } else {
        MoreTokens(ret, token, ret + [token], delimiter);
      }
    }
  }

  lemma WithoutToken(src: string, c: char, start: nat, first: nat, end: nat)
    requires start <= first < end <= |src|
    requires forall i :: start <= i < first ==> src[i] == c
    requires forall i :: first <= i < end ==> src[i] != c
    ensures Without(src[start..], c) == src[first..end] + Without(src[end..], c)
    ensures end == |src| ==> Without(src[start..], c) == src[first..end]
  {
    hide Without;
    WithoutDrops(src[start..], c, first - start);
    WithoutKeeps(src[first..], c, end - first);
    WithoutNothing(c);
    assert src[start..][first - start..] == src[first..];
    assert src[first..][end - first..] == src[end..] && src[first..][..end - first] == src[first..end];
  }

  lemma WithoutNothing(c: char)
    ensures Without("", c) == ""
  {
  }

  lemma MoreTokens(ret: seq<string>, token: string, ts: seq<string>, delimiter: char)
    requires ret + [token] <= ts && (|ts| > |ret| + 1 ==> Tokens(ts[|ret| + 1..], delimiter))
    requires token != "" && delimiter !in token
    ensures ret <= ts && Tokens(ts[|ret|..], delimiter)
  {
    assert ts[|ret|..] == [token] + ts[|ret| + 1..];
  }

  /** Words with delimiters before, between and after them. */
  ghost function Spread(pads: seq<string>, words: seq<string>): string
    requires |pads| == |words| + 1
  {
    if words == [] then pads[0] else pads[0] + words[0] + Spread(pads[1..], words[1..])
  }

  ghost predicate AllAre(s: string, c: char) {
    forall i :: 0 <= i < |s| ==> s[i] == c
  }

  /** The pads hold delimiters only, and there is at least one between two words. */
  ghost predicate Separates(pads: seq<string>, words: seq<string>, delimiter: char) {
    && |pads| == |words| + 1 && Tokens(words, delimiter)
    && (forall i :: 0 <= i < |pads| ==> AllAre(pads[i], delimiter))
    && (forall i :: 0 < i < |words| ==> pads[i] != "")
  }

  lemma FirstWord(pads: seq<string>, words: seq<string>, d: char)
    requires Separates(pads, words, d) && words != []
    ensures
      var s, first := Spread(pads, words), |pads[0]|;
      var end := first + |words[0]|;
      && first < end <= |s| && s[first..end] == words[0] && d !in words[0]
      && (forall i :: 0 <= i < first ==> s[i] == d)
      && s[end..] == Spread(pads[1..], words[1..]) && (end < |s| ==> s[end] == d)
      && Separates(pads[1..], words[1..], d) && (|words| > 1 ==> end < |s|)
      && (|words| == 1 ==> s[end..] == pads[1])
  {
    var s := Spread(pads, words);
    var rest := Spread(pads[1..], words[1..]);
    assert s == pads[0] + words[0] + rest;
    assert words[0] != "" && d !in words[0] && AllAre(pads[0], d) && AllAre(pads[1], d);
    RestIsSeparate(pads, words, d);
    if |words| > 1 {
      assert pads[1] != "" && pads[1..][0] == pads[1] && rest[0] == pads[1][0];
    }
    hide Spread, Separates, Tokens;
  }

  lemma RestIsSeparate(pads: seq<string>, words: seq<string>, d: char)
    requires Separates(pads, words, d) && words != []
    ensures Separates(pads[1..], words[1..], d)
    ensures Spread(pads[1..], words[1..])
         == pads[1] + if |words| == 1 then "" else words[1] + Spread(pads[2..], words[2..])
  {
    assert forall i :: 0 <= i < |words[1..]| ==> words[1..][i] == words[i + 1];
    assert forall i :: 0 <= i < |pads[1..]| ==> pads[1..][i] == pads[i + 1];
    if |words| > 1 {
      assert pads[1..][1..] == pads[2..] && words[1..][1..] == words[2..];
      assert pads[1] + (words[1] + Spread(pads[2..], words[2..])) == pads[1] + words[1] + Spread(pads[2..], words[2..]);
    } else {
      assert pads[1] + "" == pads[1];
    }
  }

  /** The first word of a tail lies at first..end, and what follows it is spread likewise. */
  lemma WordAt(src: string, start: nat, pads: seq<string>, words: seq<string>, d: char) returns (first: nat, end: nat)
    requires start <= |src| && Separates(pads, words, d) && src[start..] == Spread(pads, words) && words != []
    ensures start <= first < end <= |src| && src[first..end] == words[0] && d !in words[0]
    ensures forall i :: start <= i < first ==> src[i] == d
    ensures (end < |src| ==> src[end] == d) && (|words| > 1 ==> end < |src|)
    ensures Separates(pads[1..], words[1..], d) && src[end..] == Spread(pads[1..], words[1..])
    ensures |words| == 1 ==> src[end..] == pads[1]
  {
    assert |pads| == |words| + 1;
    hide Spread, Separates;
    FirstWord(pads, words, d);
    first := start + |pads[0]|;
    end := first + |words[0]|;
    WordInTail(src, start, |pads[0]|, |pads[0]| + |words[0]|, words[0], d);
  }

  /** Splitting finds exactly the words, however many delimiters are around them, unless a
      delimiter follows the last one. */
  lemma {:induction false} SplitOfSpread(src: string, d: char, ret: seq<string>, start: nat,
                                         pads: seq<string>, words: seq<string>)
    requires start <= |src| && Separates(pads, words, d) && src[start..] == Spread(pads, words)
    requires words != [] && pads[|words|] == ""
    ensures Split(src, d, ret, start) == Ok(ret + words)
    decreases |words|
  {
    assert |pads| == |words| + 1;
    hide *;
    var first, end := WordAt(src, start, pads, words, d);
    NextToken(src, d, start, first, end, words[0], ret);
    OneByOne(ret, words);
    if |words| > 1 {
      SplitOfSpread(src, d, ret + [words[0]], end, pads[1..], words[1..]);
    }
  }

  lemma OneByOne(ret: seq<string>, words: seq<string>)
    requires words != []
    ensures ret + [words[0]] + words[1..] == ret + words
    ensures |words| == 1 ==> ret + [words[0]] == ret + words
  {
  }

  lemma WordInTail(src: string, start: nat, first: nat, end: nat, word: string, d: char)
    requires start <= |src|
    requires
      var s := src[start..];
      && first < end <= |s| && s[first..end] == word
      && (forall i :: 0 <= i < first ==> s[i] == d) && (end < |s| ==> s[end] == d)
    ensures start + end <= |src| && src[start + first..start + end] == word
    ensures forall i :: start <= i < start + first ==> src[i] == d
    ensures start + end < |src| ==> src[start + end] == d
    ensures src[start + end..] == src[start..][end..]
  {
    var s := src[start..];
    forall i | start <= i < start + first
      ensures src[i] == d
    {
      assert s[i - start] == src[i];
    }
  }

  /** Three tokens come back from between their spaces. */
  lemma SplitOfThree(a: string, b: string, c: string, d: char)
    requires Tokens([a, b, c], d)
    ensures Split(a + [d] + b + [d] + c, d, [], 0) == Ok([a, b, c])
  {
    hide *;
    var s := a + [d] + b + [d] + c;
    var p, q := |a|, |a| + 1 + |b|;
    ThreeTokens(a, b, c, d);
    ThreePieces(a, b, c, d);
    NextToken(s, d, 0, 0, p, a, []);
    NextToken(s, d, p, p + 1, q, b, [a]);
    NextToken(s, d, q, q + 1, |s|, c, [a, b]);
    assert [] + [a] == [a] && [a] + [b] == [a, b] && [a, b] + [c] == [a, b, c];
  }

  lemma ThreeTokens(a: string, b: string, c: string, d: char)
    requires Tokens([a, b, c], d)
    ensures a != "" && b != "" && c != "" && d !in a && d !in b && d !in c
  {
    assert [a, b, c][0] == a && [a, b, c][1] == b && [a, b, c][2] == c;
  }

  lemma ThreePieces(a: string, b: string, c: string, d: char)
    ensures
      var s := a + [d] + b + [d] + c;
      var p, q := |a|, |a| + 1 + |b|;
      |s| == q + 1 + |c| && s[0..p] == a && s[p] == d && s[p + 1..q] == b && s[q] == d && s[q + 1..|s|] == c
  {
  }

  /** One call of the split, at a token that lies at first..end. */
  lemma NextToken(s: string, d: char, start: nat, first: nat, end: nat, token: string, ret: seq<string>)
    requires start <= first < end <= |s| && s[first..end] == token && d !in token
    requires forall i :: start <= i < first ==> s[i] == d
    requires end < |s| ==> s[end] == d
    ensures Split(s, d, ret, start) == if end == |s| then Ok(ret + [token]) else Split(s, d, ret + [token], end)
  {
    assert forall i :: first <= i < end ==> s[i] == token[i - first];
    assert token[0] in token;
    assert FirstNotOf(s, d, start) == first;
    assert FirstOf(s, d, first) == end;
  }

  // ------------------------------------------------------------- StringRemoveRepeatChar

  /** A run of one character becomes that character. */
  function RemoveRepeat(s: string, c: char): string {
    if |s| < 2 then s
    else if s[0] == c && s[1] == c then RemoveRepeat(s[1..], c)
    else [s[0]] + RemoveRepeat(s[1..], c)
  }

  /** The characters that stay: all but a c that follows a c. */
  ghost function Kept(s: string, c: char): string {
    if s == "" then ""
    else
      var n := |s| - 1;
      Kept(s[..n], c) + if s[n] != c || n == 0 || s[n - 1] != c then [s[n]] else ""
  }

  lemma {:induction false} KeptBehind(s: string, c: char)
    requires |s| >= 2
    ensures Kept(s, c) == if s[0] == c && s[1] == c then Kept(s[1..], c) else [s[0]] + Kept(s[1..], c)
  {
    var n := |s| - 1;
    if n == 1 {
      assert s[..1] == [s[0]] && s[1..] == [s[1]];
      assert Kept([s[0]], c) == [s[0]] && Kept([s[1]], c) == [s[1]] by {
        assert [s[0]][..0] == "" && [s[1]][..0] == "";
      }
    } else {
      KeptBehind(s[..n], c);
      assert s[1..][..n - 1] == s[..n][1..];
      var last := if s[n] != c || s[n - 1] != c then [s[n]] else "";
      assert [s[0]] + Kept(s[..n][1..], c) + last == [s[0]] + (Kept(s[..n][1..], c) + last);
    }
  }

  /** A run becomes its first character, and nothing else changes. */
  lemma {:induction false} RemoveRepeatKeeps(s: string, c: char)
    ensures RemoveRepeat(s, c) == Kept(s, c)
  {
    if |s| >= 2 {
      RemoveRepeatKeeps(s[1..], c);
      KeptBehind(s, c);
    } else if |s| == 1 {
      assert s[..0] == "";
    }
  }

  ghost predicate NoRepeat(s: string, c: char) {
    forall i :: 0 <= i < |s| - 1 ==> !(s[i] == c && s[i + 1] == c)
  }

  /** No run is left, the other characters are all there in order, and the string starts as it
      did; a string without runs stays as it is. */
  lemma {:induction false} RemoveRepeatIs(s: string, c: char)
    ensures NoRepeat(RemoveRepeat(s, c), c)
    ensures Without(RemoveRepeat(s, c), c) == Without(s, c)
    ensures s != "" ==> RemoveRepeat(s, c) != "" && RemoveRepeat(s, c)[0] == s[0]
    ensures RemoveRepeat(s, c) == s <==> NoRepeat(s, c)
    ensures |RemoveRepeat(s, c)| <= |s|
  {
    if |s| >= 2 {
      RemoveRepeatIs(s[1..], c);
      var r := RemoveRepeat(s[1..], c);
      if s[0] == c && s[1] == c {
        assert !NoRepeat(s, c);
      } else {
        assert ([s[0]] + r)[1..] == r;
        assert s == [s[0]] + s[1..];
        if NoRepeat(s, c) {
          assert NoRepeat(s[1..], c);
        }
        if NoRepeat(s[1..], c) {
          forall i | 0 <= i < |s| - 1
            ensures !(s[i] == c && s[i + 1] == c)
          {
            assert i > 0 ==> s[1..][i - 1] == s[i] && s[1..][i] == s[i + 1];
          }
        }
      }
    }
  }
}
