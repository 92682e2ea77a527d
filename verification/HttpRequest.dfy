// The parser of the HTTP request header, http/HttpRequest.cpp.  It searches the end of the
// header once and keeps its address while it takes lines from the front of the buffer, so it
// relies on landing exactly there and on the buffer not moving.

module HttpRequests {
  import opened Collections
  import opened Text
  import opened Buffers
  import opened UtilStrings

  const END: string := "\r\n\r\n"

  datatype ReqState = BAD | GOOD | INCOMPLETE

  datatype Request = Request(verb: string, path: string, version: string, headers: map<string, string>)

  /** How parsing goes: on, or it stops at a request line without three tokens, or with an
      exception of std::string::substr. */
  datatype Status = Fine | NotThree | Thrown

  /** What parsing lines gives: the fields, which an exception leaves as they were then, and how
      many bytes were taken when it stops early. */
  datatype Parsed = Parsed(status: Status, r: Request, used: nat)

  // ------------------------------------------------------------- the grammar

  /** The lines that CRLFs separate. */
  function Lines(s: string): (lines: seq<string>)
    ensures lines != []
    decreases |s|
  {
    var p := Search(s, CRLF, 0);
    if p == |s| then [s] else [s[..p]] + Lines(s[p + 2..])
  }

  /** The request line: three tokens; slashes in the path are not repeated. */
  function FirstLine(r: Request, line: string): (parsed: Parsed)
    ensures parsed.used == |line|
  {
    match Split(line, ' ', [], 0)
    case Threw => Parsed(Thrown, r, |line|)
    case Ok(ts) =>
      if |ts| != 3 then Parsed(NotThree, r, |line|)
      else Parsed(Fine, Request(ts[0], RemoveRepeat(ts[1], '/'), ts[2], r.headers), |line|)
  }

  /** A header line: what is before and after the first colon, or the whole line twice when
      there is none.  The first value of a key stays. */
  function HeaderLine(r: Request, line: string, used: nat): (parsed: Parsed)
    ensures parsed.used == used
  {
    var colon := FirstOf(line, ':', 0);
    var key, value := Trim(line[..colon]), Trim(if colon < |line| then line[colon + 1..] else line);
    if key.Threw? || value.Threw? then Parsed(Thrown, r, used)
    else if key.value in r.headers then Parsed(Fine, r, used)
    else Parsed(Fine, r.(headers := r.headers[key.value := value.value]), used)
  }

  /** How long lines are with CRLFs between them. */
  function Length(lines: seq<string>): nat {
    if lines == [] then 0 else if |lines| == 1 then |lines[0]| else |lines[0]| + 2 + Length(lines[1..])
  }

  function HeaderLines(r: Request, lines: seq<string>, used: nat): (parsed: Parsed)
    ensures parsed.status != Fine ==> parsed.used <= used + Length(lines)
    decreases |lines|
  {
    if lines == [] then Parsed(Fine, r, used)
    else
      var next := HeaderLine(r, lines[0], used + |lines[0]|);
      if next.status == Fine then HeaderLines(next.r, lines[1..], used + |lines[0]| + 2) else next
  }

  function ParseLines(r: Request, lines: seq<string>): (parsed: Parsed)
    requires lines != []
    ensures parsed.status != Fine ==> parsed.used <= Length(lines)
  {
    var next := FirstLine(r, lines[0]);
    if next.status == Fine then HeaderLines(next.r, lines[1..], |lines[0]| + 2) else next
  }

  lemma {:induction false} LengthOfLines(s: string)
    ensures Length(Lines(s)) == |s|
    decreases |s|
  {
    var p := Search(s, CRLF, 0);
    if p < |s| {
      LengthOfLines(s[p + 2..]);
      assert Lines(s)[1..] == Lines(s[p + 2..]);
    }
  }

  /** What a call leaves: nothing changed, or the parse and the bytes that remain. */
  datatype Outcome = Incomplete | Complete(parsed: Parsed, rest: string)

  function Analyse(r: Request, content: string): Outcome {
    var p := Search(content, END, 0);
    if p == |content| then Incomplete
    else
      var parsed := ParseLines(r, Lines(content[..p]));
      LengthOfLines(content[..p]);
      Complete(parsed, content[if parsed.status == Fine then p + 4 else parsed.used..])
  }

  // ------------------------------------------------------------- framing

  lemma MatchEND(s: string, i: nat)
    ensures Match(s, END, i) <==> Match(s, CRLF, i) && Match(s, CRLF, i + 2)
  {
    if i + 4 <= |s| {
      assert s[i..i + 4] == s[i..i + 2] + s[i + 2..i + 4];
      assert s[i..i + 4][..2] == s[i..i + 2] && s[i..i + 4][2..] == s[i + 2..i + 4];
      assert END == CRLF + CRLF && END[..2] == CRLF && END[2..] == CRLF;
    }
  }

  /** From the start of a line inside the header the next CRLF is at the end of the header or
      before it, and in that case another line starts before the end. */
  lemma NextCRLF(content: string, p: nat, k: nat)
    requires p == Search(content, END, 0) < |content| && k <= p
    ensures
      var e := Search(content, CRLF, k);
      k <= e <= p && (e < p ==> e + 2 < p)
  {
    hide Match;
    MatchEND(content, p);
    var e := Search(content, CRLF, k);
    MatchEND(content, e);
    MatchCRLF(content, e);
    MatchCRLF(content, p);
  }

  /** So the lines of the header are found one by one. */
  lemma NextLine(content: string, p: nat, k: nat)
    requires p == Search(content, END, 0) < |content| && k <= p
    ensures
      var e := Search(content, CRLF, k);
      && k <= e <= p && (e < p ==> e + 2 < p)
      && Lines(content[k..p]) == if e == p then [content[k..p]] else [content[k..e]] + Lines(content[e + 2..p])
  {
    hide Search, Lines, Match;
    NextCRLF(content, p, k);
    var e := Search(content, CRLF, k);
    SearchInPart(content, k, p, e);
    LinesUnfold(content[k..p]);
    if e < p {
      Parts(content, k, e, p);
    }
  }

  lemma LinesUnfold(s: string)
    ensures
      var e := Search(s, CRLF, 0);
      && (e < |s| ==> e + 2 <= |s|)
      && Lines(s) == if e == |s| then [s] else [s[..e]] + Lines(s[e + 2..])
  {
  }

  lemma Parts(content: string, k: nat, e: nat, p: nat)
    requires k <= e && e + 2 <= p <= |content|
    ensures content[k..p][e - k + 2..] == content[e + 2..p] && content[k..p][..e - k] == content[k..e]
  {
  }

  lemma SearchInPart(content: string, k: nat, p: nat, e: nat)
    requires k <= e <= p <= |content| && e == Search(content, CRLF, k) && (e < p ==> e + 2 <= p)
    ensures Search(content[k..p], CRLF, 0) == e - k
  {
    hide Match;
    var s := content[k..p];
    forall i | 0 <= i < e - k
      ensures !Match(s, CRLF, i)
    {
      MatchCRLF(s, i);
      MatchCRLF(content, k + i);
    }
    MatchCRLF(s, Search(s, CRLF, 0));
    MatchCRLF(content, k + Search(s, CRLF, 0));
    MatchCRLF(s, e - k);
    MatchCRLF(content, e);
  }

  lemma EndStays(content: string, more: string)
    requires Search(content, END, 0) < |content|
    ensures Search(content + more, END, 0) == Search(content, END, 0)
  {
    hide Match;
    var p := Search(content, END, 0);
    var all := content + more;
    forall i | 0 <= i <= p
      ensures Match(all, END, i) <==> Match(content, END, i)
    {
      MatchEND(content, i);
      MatchEND(all, i);
      MatchCRLF(content, i);
      MatchCRLF(all, i);
      MatchCRLF(content, i + 2);
      MatchCRLF(all, i + 2);
      MatchEND(content, p);
      MatchCRLF(content, p + 2);
    }
    SearchIs(all, END, 0, p);
  }

  /** What follows the header does not matter and stays. */
  lemma TrailingBytesStay(r: Request, content: string, more: string)
    requires Analyse(r, content).Complete?
    ensures Analyse(r, content + more)
         == Complete(Analyse(r, content).parsed, Analyse(r, content).rest + more)
  {
    EndStays(content, more);
    var p := Search(content, END, 0);
    EndFits(content);
    LengthOfLines(content[..p]);
    var parsed := ParseLines(r, Lines(content[..p]));
    SumParts(content, more, p, if parsed.status == Fine then p + 4 else parsed.used);
    hide Lines, ParseLines, Search;
  }

  lemma EndFits(content: string)
    requires Search(content, END, 0) < |content|
    ensures Search(content, END, 0) + 4 <= |content|
  {
    assert Match(content, END, Search(content, END, 0));
  }

  lemma SumParts(a: string, b: string, p: nat, u: nat)
    requires p <= |a| && u <= |a|
    ensures (a + b)[..p] == a[..p] && (a + b)[u..] == a[u..] + b
  {
  }

  // ------------------------------------------------------------- one call after another

  /** The parser between calls: its fields, what is in the buffer, and what its complete parses
      gave. */
  datatype Session = Session(r: Request, content: string, parses: seq<Parsed>)

  /** A message has come, and the parser is called. */
  function Call(s: Session, chunk: string): Session {
    match Analyse(s.r, s.content + chunk)
    case Incomplete => s.(content := s.content + chunk)
    case Complete(parsed, rest) => Session(parsed.r, rest, s.parses + [parsed])
  }

  ghost function Calls(s: Session, chunks: seq<string>): Session {
    if chunks == [] then s else Call(Calls(s, chunks[..|chunks| - 1]), chunks[|chunks| - 1])
  }

  predicate HasEnd(s: string) {
    Search(s, END, 0) < |s|
  }

  /** What one call on all the bytes leaves gives nothing more to parse: after a good header no
      other one is complete; after a bad line or an exception, which leave the end of the
      header in the buffer, nothing follows that would cause another call. */
  predicate Settles(r: Request, content: string) {
    match Analyse(r, content)
    case Incomplete => true
    case Complete(parsed, rest) =>
      if parsed.status == Fine then !HasEnd(rest) else |content| == Search(content, END, 0) + 4
  }

  ghost predicate Messages(chunks: seq<string>) {
    forall i :: 0 <= i < |chunks| ==> chunks[i] != ""
  }

  /** Then the division into messages, with a call after each, does not matter. */
  lemma {:induction false} ChunksDoNotMatter(r: Request, chunks: seq<string>)
    requires Messages(chunks) && Settles(r, Concat(chunks))
    ensures Calls(Session(r, "", []), chunks) == Call(Session(r, "", []), Concat(chunks))
  {
    hide Analyse, HasEnd;
    if chunks == [] {
      NothingIsIncomplete(r);
    } else {
      var n := |chunks| - 1;
      var a := Concat(chunks[..n]);
      assert chunks[n] != "";
      assert "" + a == a && "" + (a + chunks[n]) == a + chunks[n];
      match Analyse(r, a)
      case Incomplete =>
        ChunksDoNotMatter(r, chunks[..n]);
      case Complete(parsed, rest) =>
        OneMoreMessage(r, a, chunks[n]);
        ChunksDoNotMatter(r, chunks[..n]);
        NotYetAgain(parsed.r, rest + chunks[n]);
    }
  }

  lemma OneMoreMessage(r: Request, a: string, b: string)
    requires Analyse(r, a).Complete? && b != "" && Settles(r, a + b)
    ensures Settles(r, a) && Analyse(r, a).parsed.status == Fine
    ensures Analyse(r, a + b) == Complete(Analyse(r, a).parsed, Analyse(r, a).rest + b)
    ensures !HasEnd(Analyse(r, a).rest + b)
  {
    TrailingBytesStay(r, a, b);
    CompleteHasEnd(r, a);
    EndStays(a, b);
    EndFits(a);
    var rest := Analyse(r, a).rest;
    if HasEnd(rest) {
      EndStays(rest, b);
    }
    hide Analyse, Search;
  }

  lemma CompleteHasEnd(r: Request, content: string)
    ensures Analyse(r, content).Complete? <==> HasEnd(content)
  {
  }

  lemma NotYetAgain(r: Request, content: string)
    requires !HasEnd(content)
    ensures Analyse(r, content) == Incomplete
  {
    CompleteHasEnd(r, content);
  }

  lemma NothingIsIncomplete(r: Request)
    ensures Analyse(r, "") == Incomplete
  {
  }

  /** And otherwise it does: a message that ends with the first header and one with the rest make
      the parser finish twice, where one message makes it finish once. */
  lemma SomeChunksMatter(r: Request, content: string) returns (chunks: seq<string>)
    requires !Settles(r, content)
    ensures Messages(chunks) && Concat(chunks) == content
    ensures |Calls(Session(r, "", []), chunks).parses| == 2
    ensures |Call(Session(r, "", []), content).parses| == 1
  {
    hide Analyse, Search, HasEnd, Calls, Call, Concat;
    CompleteHasEnd(r, content);
    FirstEnd(content);
    var p := Search(content, END, 0);
    var a, z := content[..p + 4], content[p + 4..];
    assert a + z == content;
    chunks := [a, z];
    FirstHeader(r, a, z);
    TrailingBytesStay(r, a, z);
    NothingHasNoEnd();
    assert "" + z == z;
    assert z != "";
    CompleteHasEnd(Analyse(r, a).parsed.r, Analyse(r, a).rest + z);
    TwoCalls(Session(r, "", []), a, z);
    CallCompletes(Session(r, "", []), a);
    CallCompletes(Call(Session(r, "", []), a), z);
    CallCompletes(Session(r, "", []), content);
    assert "" + a == a && "" + content == content;
  }

  lemma CallCompletes(s: Session, chunk: string)
    ensures
      var o := Analyse(s.r, s.content + chunk);
      o.Complete? ==> Call(s, chunk) == Session(o.parsed.r, o.rest, s.parses + [o.parsed])
  {
    hide Analyse;
  }

  lemma NothingHasNoEnd()
    ensures !HasEnd("")
  {
  }

  lemma FirstEnd(content: string)
    ensures HasEnd(content) ==> Search(content, END, 0) + 4 <= |content|
  {
    if HasEnd(content) {
      EndFits(content);
    }
  }

  lemma TwoCalls(s: Session, a: string, z: string)
    ensures Calls(s, [a, z]) == Call(Call(s, a), z) && Concat([a, z]) == a + z
  {
    assert [a, z][..1] == [a] && [a][..0] == [];
    assert Calls(s, [a]) == Call(s, a) && Concat([a]) == a;
    hide Call;
  }

  /** The bytes up to the first end are complete, and when parsing stops early the end stays. */
  lemma FirstHeader(r: Request, a: string, z: string)
    requires Search(a + z, END, 0) + 4 == |a|
    ensures Analyse(r, a).Complete?
    ensures Analyse(r, a).parsed.status == Fine ==> Analyse(r, a).rest == ""
    ensures Analyse(r, a).parsed.status != Fine ==> HasEnd(Analyse(r, a).rest + z)
  {
    var p := Search(a + z, END, 0);
    EndOfPrefix(a, z, p);
    AnalyseIs(r, a);
    LengthOfLines(a[..p]);
    hide Lines, ParseLines, Search, Analyse, HasEnd;
    var parsed := ParseLines(r, Lines(a[..p]));
    if parsed.status != Fine {
      EndInTail(a, z, p, parsed.used);
    }
  }

  lemma EndOfPrefix(a: string, z: string, p: nat)
    requires p == Search(a + z, END, 0) && p + 4 == |a|
    ensures Search(a, END, 0) == p && Match(a, END, p)
  {
    hide Match;
    forall i | 0 <= i <= p
      ensures Match(a, END, i) <==> Match(a + z, END, i)
    {
      MatchEND(a + z, i);
      MatchEND(a, i);
      MatchCRLF(a + z, i);
      MatchCRLF(a, i);
      MatchCRLF(a + z, i + 2);
      MatchCRLF(a, i + 2);
    }
    SearchIs(a, END, 0, p);
  }

  lemma EndInTail(a: string, z: string, p: nat, k: nat)
    requires k <= p && p + 4 == |a| && Match(a, END, p)
    ensures HasEnd(a[k..] + z)
  {
    var s := a[k..] + z;
    assert s[p - k..p - k + 4] == a[p..p + 4];
    assert Match(s, END, p - k);
  }

  /** The division into messages does not matter exactly when one call on all of the bytes
      leaves nothing more to parse. */
  lemma ChunksMatterExactly(r: Request, content: string)
    ensures Settles(r, content)
       <==> forall chunks :: Messages(chunks) && Concat(chunks) == content ==>
              Calls(Session(r, "", []), chunks) == Call(Session(r, "", []), content)
  {
    hide Settles, Call, Calls, Messages;
    if Settles(r, content) {
      forall chunks | Messages(chunks) && Concat(chunks) == content
        ensures Calls(Session(r, "", []), chunks) == Call(Session(r, "", []), content)
      {
        ChunksDoNotMatter(r, chunks);
      }
    } else {
      var chunks := SomeChunksMatter(r, content);
    }
  }

  /** std::string::substr throws on a request line exactly when it is empty or ends with a space. */
  lemma RequestLineThrows(r: Request, line: string)
    ensures FirstLine(r, line).status == Thrown <==> line == "" || line[|line| - 1] == ' '
  {
    hide Split;
    SplitIs(line, ' ', [], 0);
  }

  /** And on a header line exactly when there are only spaces before or after its first colon, or
      in all of it when it has none. */
  lemma HeaderLineThrows(r: Request, line: string, used: nat)
    ensures
      var colon := FirstOf(line, ':', 0);
      HeaderLine(r, line, used).status == Thrown
      <==> Blank(line[..colon]) || (colon < |line| && Blank(line[colon + 1..]))
  {
    hide *;
    var colon := FirstOf(line, ':', 0);
    HeaderLineTrims(r, line, used);
    TrimIs(line[..colon]);
    TrimIs(if colon < |line| then line[colon + 1..] else line);
    assert colon == |line| ==> line[..colon] == line;
  }

  lemma HeaderLineTrims(r: Request, line: string, used: nat)
    ensures
      var colon := FirstOf(line, ':', 0);
      HeaderLine(r, line, used).status == Thrown
      <==> Trim(line[..colon]).Threw? || Trim(if colon < |line| then line[colon + 1..] else line).Threw?
  {
    hide Trim, FirstOf;
  }

  // ------------------------------------------------------------- the class

  lemma {:induction false} TokenIsTrimmed(line: string, ts: seq<string>, i: nat)
    requires Split(line, ' ', [], 0) == Ok(ts) && i < |ts|
    ensures Trim(ts[i]) == Ok(ts[i])
  {
    SplitIs(line, ' ', [], 0);
    assert ts[0..] == ts;
    assert ts[i] != "" && ' ' !in ts[i];
    assert ts[i][0] in ts[i] && ts[i][|ts[i]| - 1] in ts[i];
    assert ts[i] == "" + ts[i] + "";
    TrimSurrounded("", ts[i], "");
  }

  class HttpRequest {
    var requestState: ReqState
    var verb: string                   // method_
    var path: string
    var version: string
    var headers: map<string, string>

    constructor ()
      ensures requestState == INCOMPLETE && View() == Request("", "", "", map[])
    {
      requestState := INCOMPLETE;
      verb, path, version, headers := "", "", "", map[];
    }

    ghost function View(): Request
      reads this
    {
      Request(verb, path, version, headers)
    }

    method ParseFirstLine(line: string) returns (status: Status)
      modifies `verb, `path, `version
      ensures View() == FirstLine(old(View()), line).r && status == FirstLine(old(View()), line).status
    {
      match Split(line, ' ', [], 0)
      case Threw => status := Thrown;
      case Ok(ts) =>
        if |ts| != 3 {
          status := NotThree;
        } else {
          TokenIsTrimmed(line, ts, 0);
          TokenIsTrimmed(line, ts, 1);
          TokenIsTrimmed(line, ts, 2);
          verb, path, version := Trim(ts[0]).value, Trim(ts[1]).value, Trim(ts[2]).value;
          path := RemoveRepeat(path, '/');
          status := Fine;
        }
    }

    method ParseHeaderLine(line: string, ghost used: nat) returns (status: Status)
      modifies `headers
      ensures View() == HeaderLine(old(View()), line, used).r && status == HeaderLine(old(View()), line, used).status
    {
      var splitPos := FirstOf(line, ':', 0);
      var key, value := Trim(line[..splitPos]), Trim(if splitPos < |line| then line[splitPos + 1..] else line);
      if key.Threw? || value.Threw? {
        return Thrown;
      }
      if key.value !in headers {
        headers := headers[key.value := value.value];
      }
      status := Fine;
    }

    /** The bytes up to the next CRLF leave the buffer. */
    method RetrieveLine(buffer: Buffer, ghost content: string, ghost p: nat, ghost k: nat)
        returns (line: string, ghost e: nat)
      requires buffer.Valid() && p == Search(content, END, 0) < |content| && k <= p && buffer.Contents() == content[k..]
      modifies buffer`readerIndex, buffer`writerIndex
      ensures buffer.Valid() && k <= e <= p && (e < p ==> e + 2 < p) && line == content[k..e]
      ensures buffer.Contents() == content[e..] && buffer.readerIndex == old(buffer.readerIndex) + (e - k)
      ensures Lines(content[k..p]) == if e == p then [content[k..p]] else [content[k..e]] + Lines(content[e + 2..p])
    {
      hide Lines, Search, Match;
      e := Search(content, CRLF, k);
      NextLine(content, p, k);
      SearchInTail(content, CRLF, k, 0);
      var crlf := buffer.FindCRLF();
      line := buffer.RetrieveAsString(crlf.value - buffer.readerIndex);
      Tails(content, k, e);
    }

    /** One turn of the loop up to its exit test: a line goes from the buffer to the fields. */
    method TakeLine(buffer: Buffer, firstLine: bool, ghost content: string, ghost p: nat, ghost k: nat)
        returns (status: Status, ghost e: nat)
      requires buffer.Valid() && p == Search(content, END, 0) < |content| && k <= p && buffer.Contents() == content[k..]
      requires firstLine ==> k == 0
      modifies this`verb, this`path, this`version, this`headers, buffer`readerIndex, buffer`writerIndex
      ensures buffer.Valid() && k <= e <= p && (e < p ==> e + 2 < p)
      ensures buffer.Contents() == content[e..] && buffer.readerIndex == old(buffer.readerIndex) + (e - k)
      ensures Lines(content[k..p]) == if e == p then [content[k..p]] else [content[k..e]] + Lines(content[e + 2..p])
      ensures
        var next := if firstLine then FirstLine(old(View()), content[k..e])
          else HeaderLine(old(View()), content[k..e], e);
        View() == next.r && status == next.status
    {
      hide Lines, FirstLine, HeaderLine, Search, Match;
      var line;
      line, e := RetrieveLine(buffer, content, p, k);
      if firstLine {
        status := ParseFirstLine(line);
      } else {
        status := ParseHeaderLine(line, e);
      }
    }

    /** The loop: it takes lines until the reader is where the end of the header was found. */
    method TakeLines(buffer: Buffer, pos: nat, ghost content: string, ghost p: nat, ghost parsed: Parsed)
        returns (status: Status)
      requires buffer.Valid() && buffer.Contents() == content && p == Search(content, END, 0) < |content|
      requires pos == buffer.readerIndex + p
      requires parsed == ParseLines(View(), Lines(content[..p])) && (parsed.status != Fine ==> parsed.used <= p)
      modifies this`verb, this`path, this`version, this`headers, buffer`readerIndex, buffer`writerIndex
      ensures buffer.Valid() && status == parsed.status && View() == parsed.r
      ensures buffer.Contents() == content[if status == Fine then p else parsed.used..]
    {
      hide Lines, FirstLine, HeaderLine, HeaderLines, ParseLines, Search, Match;
      ghost var base, r, k := buffer.readerIndex, View(), 0;
      Tails(content, 0, p);
      var firstLine := true;
      while true
        invariant buffer.Valid() && k <= p && buffer.readerIndex == base + k && buffer.Contents() == content[k..]
        invariant firstLine ==> k == 0 && View() == r
        invariant !firstLine ==> parsed == HeaderLines(View(), Lines(content[k..p]), k)
        decreases p - k
      {
        ghost var before := View();
        ghost var e;
        status, e := TakeLine(buffer, firstLine, content, p, k);
        OneLine(before, content, p, k, e, firstLine);
        firstLine := false;
        if status != Fine || buffer.readerIndex == pos {
          return;
        }
        buffer.Retrieve(2);
        Tails(content, e, e + 2);
        k := e + 2;
      }
    }

    /** analyseHttpRequestHeader; None stands for an exception.  Nothing is taken from the buffer
        until the header is there, then exactly the header and its end. */
    method AnalyseHttpRequestHeader(buffer: Buffer) returns (answer: Option<bool>)
      requires buffer.Valid()
      modifies this, buffer`readerIndex, buffer`writerIndex
      ensures buffer.Valid()
      ensures
        match Analyse(old(View()), old(buffer.Contents()))
        case Incomplete =>
          && answer == Some(false) && requestState == INCOMPLETE
          && View() == old(View()) && buffer.Contents() == old(buffer.Contents())
        case Complete(parsed, rest) =>
          && View() == parsed.r && buffer.Contents() == rest
          && (parsed.status == Fine ==> answer == Some(true) && requestState == GOOD)
          && (parsed.status == NotThree ==> answer == Some(false) && requestState == BAD)
          && (parsed.status == Thrown ==> answer == None && requestState == old(requestState))
    {
      hide Analyse, Lines, ParseLines, Search, Match;
      AnalyseIs(View(), buffer.Contents());
      ghost var content := buffer.Contents();
      var pos := buffer.FindChars(END);
      if pos == None {
        requestState := INCOMPLETE;
        return Some(false);
      }
      ghost var p := Search(content, END, 0);
      EndFits(content);
      LengthOfLines(content[..p]);
      var status := TakeLines(buffer, pos.value, content, p, ParseLines(View(), Lines(content[..p])));
      if status == NotThree {
        requestState := BAD;
        return Some(false);
      } else if status == Thrown {
        return None;
      }
      Tails(content, p, p + 4);
      buffer.Retrieve(4);
      requestState := GOOD;
      answer := Some(true);
    }
  }

  lemma AnalyseIs(r: Request, content: string)
    ensures
      var p := Search(content, END, 0);
      if p == |content| then Analyse(r, content) == Incomplete
      else
        var parsed := ParseLines(r, Lines(content[..p]));
        var used := if parsed.status == Fine then p + 4 else parsed.used;
        used <= |content| && Analyse(r, content) == Complete(parsed, content[used..])
  {
    hide Lines, ParseLines;
    var p := Search(content, END, 0);
    if p < |content| {
      EndFits(content);
      LengthOfLines(content[..p]);
    }
  }

  lemma Tails(content: string, k: nat, e: nat)
    requires k <= e <= |content|
    ensures content[k..][e - k..] == content[e..] && content[k..][..e - k] == content[k..e]
    ensures k == 0 ==> content[k..e] == content[..e] && content[k..] == content
  {
  }

  /** What the line at k..e contributes to the parse of the lines from k on. */
  lemma OneLine(r: Request, content: string, p: nat, k: nat, e: nat, first: bool)
    requires k <= e <= p <= |content| && (e < p ==> e + 2 < p) && (first ==> k == 0)
    requires Lines(content[k..p]) == if e == p then [content[k..p]] else [content[k..e]] + Lines(content[e + 2..p])
    ensures
      var line := content[k..e];
      var next := if first then FirstLine(r, line) else HeaderLine(r, line, e);
      var parsed := if first then ParseLines(r, Lines(content[k..p])) else HeaderLines(r, Lines(content[k..p]), k);
      && (next.status != Fine ==> parsed == next && parsed.used == e)
      && (next.status == Fine && e == p ==> parsed.status == Fine && parsed.r == next.r)
      && (next.status == Fine && e < p ==> parsed == HeaderLines(next.r, Lines(content[e + 2..p]), e + 2))
  {
    hide HeaderLine, Search;
    var lines := Lines(content[k..p]);
    assert lines[1..] == if e == p then [] else Lines(content[e + 2..p]);
  }

  // ------------------------------------------------------------- printing and parsing

  /** The lines with CRLFs between them. */
  ghost function Join(lines: seq<string>): string {
    if lines == [] then "" else if |lines| == 1 then lines[0] else lines[0] + CRLF + Join(lines[1..])
  }

  ghost predicate Plain(line: string) {
    line != "" && '\r' !in line && '\n' !in line
  }

  ghost predicate AllPlain(lines: seq<string>) {
    forall i :: 0 <= i < |lines| ==> Plain(lines[i])
  }

  /** Lines of plain text between CRLFs contain no header end, and are found again. */
  lemma {:induction false} JoinHasNoEnd(lines: seq<string>, rest: string, i: nat)
    requires lines != [] && AllPlain(lines) && i < |Join(lines)|
    ensures !Match(Join(lines) + END + rest, END, i)
    decreases |lines|
  {
    hide Match;
    var line := lines[0];
    var s := Join(lines) + END + rest;
    assert Plain(line);
    MatchEND(s, i);
    MatchCRLF(s, i);
    MatchCRLF(s, i + 2);
    if i < |line| {
      assert s[i] == line[i] && line[i] in line;
    } else {
      var tail := Join(lines[1..]);
      assert Join(lines) == line + CRLF + tail;
      assert AllPlain(lines[1..]) && Plain(lines[1]);
      JoinStarts(lines[1..]);
      if i < |line| + 2 {
        assert s[|line| + 2] == tail[0] && tail[0] in lines[1];
        assert s[|line| + 1] == '\n';
      } else {
        var j := i - |line| - 2;
        var t := tail + END + rest;
        JoinHasNoEnd(lines[1..], rest, j);
        assert s == line + CRLF + t;
        MatchEND(t, j);
        MatchCRLF(t, j);
        MatchCRLF(t, j + 2);
      }
    }
  }

  lemma JoinStarts(lines: seq<string>)
    requires lines != [] && AllPlain(lines)
    ensures Join(lines) != "" && Join(lines)[0] == lines[0][0]
  {
    assert Plain(lines[0]);
  }

  lemma {:induction false} LinesOfJoin(lines: seq<string>)
    requires lines != [] && AllPlain(lines)
    ensures Lines(Join(lines)) == lines
    decreases |lines|
  {
    hide Search, Lines, Join;
    var line := lines[0];
    JoinUnfolds(lines);
    LinesUnfold(Join(lines));
    assert Plain(line);
    CutLine(line, Join(lines[1..]));
    FirstCRLF(line, if |lines| == 1 then "" else CRLF + Join(lines[1..]));
    if |lines| > 1 {
      LinesOfJoin(lines[1..]);
    }
  }

  lemma JoinUnfolds(lines: seq<string>)
    requires lines != []
    ensures
      var line := lines[0];
      if |lines| == 1 then lines == [line] && Join(lines) == line == line + ""
      else lines == [line] + lines[1..] && Join(lines) == line + (CRLF + Join(lines[1..]))
  {
    if |lines| > 1 {
      assert lines[0] + CRLF + Join(lines[1..]) == lines[0] + (CRLF + Join(lines[1..])) by {
        hide Join;
      }
    }
  }

  lemma CutLine(line: string, tail: string)
    ensures
      var s := line + (CRLF + tail);
      |s| >= |line| + 2 && s[..|line|] == line && s[|line| + 2..] == tail && (CRLF + tail)[..2] == CRLF
  {
  }

  lemma FirstCRLF(line: string, rest: string)
    requires Plain(line) && (rest == "" || (|rest| >= 2 && rest[..2] == CRLF))
    ensures Search(line + rest, CRLF, 0) == |line|
  {
    hide Match;
    var s := line + rest;
    forall i | 0 <= i < |line|
      ensures !Match(s, CRLF, i)
    {
      MatchCRLF(s, i);
      assert s[i] == line[i] && line[i] in line;
    }
    if rest != "" {
      assert rest[0] == rest[..2][0] && rest[1] == rest[..2][1];
      MatchCRLF(s, |line|);
      SearchIs(s, CRLF, 0, |line|);
    }
  }

  /** A header is framed exactly, whatever follows it. */
  lemma Framing(r: Request, lines: seq<string>, rest: string)
    requires lines != [] && AllPlain(lines) && ParseLines(r, lines).status == Fine
    ensures Analyse(r, Join(lines) + END + rest) == Complete(ParseLines(r, lines), rest)
  {
    hide Lines, ParseLines, Match, Join;
    var n := |Join(lines)|;
    var s := Join(lines) + END + rest;
    forall i | 0 <= i < n
      ensures !Match(s, END, i)
    {
      JoinHasNoEnd(lines, rest, i);
    }
    EndAt(Join(lines), rest);
    SearchIs(s, END, 0, n);
    LinesOfJoin(lines);
    assert s[..n] == Join(lines) && s[n + 4..] == rest;
    hide Search;
  }

  lemma EndAt(a: string, rest: string)
    ensures Match(a + END + rest, END, |a|)
  {
  }

  /** Two requests that come together: in one message the first is parsed and the second stays in
      the buffer, in two messages both are parsed and the fields are the second one's. */
  lemma PipelinedRequests(r: Request, first: seq<string>, second: seq<string>)
    requires first != [] && AllPlain(first) && ParseLines(r, first).status == Fine
    requires second != [] && AllPlain(second) && ParseLines(ParseLines(r, first).r, second).status == Fine
    ensures
      var a, z := Join(first) + END, Join(second) + END;
      var p := ParseLines(r, first);
      var q := ParseLines(p.r, second);
      && Calls(Session(r, "", []), [a, z]) == Session(q.r, "", [p, q])
      && Call(Session(r, "", []), a + z) == Session(p.r, z, [p])
  {
    hide Analyse, ParseLines, Join, AllPlain;
    var a, z := Join(first) + END, Join(second) + END;
    var p := ParseLines(r, first);
    Framing(r, first, "");
    Framing(r, first, z);
    Framing(p.r, second, "");
    assert a + "" == a && z + "" == z && "" + a == a && "" + z == z && "" + (a + z) == a + z;
    TwoCalls(Session(r, "", []), a, z);
    assert [p] + [ParseLines(p.r, second)] == [p, ParseLines(p.r, second)];
    hide Calls;
  }

  /** A header field as it is printed. */
  datatype Field = Field(key: string, value: string)

  ghost function PrintField(f: Field): string {
    f.key + ": " + f.value
  }

  /** The fields after the first n that no field before them has the key of. */
  ghost function FirstWins(fields: seq<Field>): map<string, string> {
    if fields == [] then map[]
    else
      var n := |fields| - 1;
      var m := FirstWins(fields[..n]);
      if fields[n].key in m then m else m[fields[n].key := fields[n].value]
  }

  ghost predicate GoodField(f: Field) {
    Trimmed(f.key) && ':' !in f.key && Trimmed(f.value) && Plain(PrintField(f))
  }

  ghost predicate GoodRequestLine(verb: string, path: string, version: string) {
    Tokens([verb, path, version], ' ') && Plain(verb + " " + path + " " + version)
  }

  lemma FieldIsRead(r: Request, f: Field, used: nat)
    requires GoodField(f)
    ensures HeaderLine(r, PrintField(f), used)
         == Parsed(Fine, if f.key in r.headers then r else r.(headers := r.headers[f.key := f.value]), used)
  {
    hide Trim, Trimmed, Plain;
    var line := PrintField(f);
    assert line[|f.key|] == ':';
    assert forall i :: 0 <= i < |f.key| ==> line[i] == f.key[i];
    assert FirstOf(line, ':', 0) == |f.key|;
    assert line[..|f.key|] == "" + f.key + "";
    assert line[|f.key| + 1..] == " " + f.value + "";
    TrimSurrounded("", f.key, "");
    TrimSurrounded(" ", f.value, "");
  }

  ghost function Prints(fields: seq<Field>): (lines: seq<string>)
    ensures |lines| == |fields|
    ensures forall i :: 0 <= i < |fields| ==> lines[i] == PrintField(fields[i])
  {
    seq(|fields|, i requires 0 <= i < |fields| => PrintField(fields[i]))
  }

  /** The header lines fill in the map: of several fields with a key the first one counts. */
  lemma {:induction false} FieldsAreRead(r: Request, fields: seq<Field>, k: nat, used: nat)
    requires k <= |fields| && forall i :: 0 <= i < |fields| ==> GoodField(fields[i])
    requires r.headers == FirstWins(fields[..k])
    ensures HeaderLines(r, Prints(fields)[k..], used).status == Fine
    ensures HeaderLines(r, Prints(fields)[k..], used).r == r.(headers := FirstWins(fields))
    decreases |fields| - k
  {
    hide HeaderLine, GoodField, PrintField;
    if k == |fields| {
      assert fields[..k] == fields;
    } else {
      var line := Prints(fields)[k];
      FieldIsRead(r, fields[k], used + |line|);
      var next := HeaderLine(r, line, used + |line|).r;
      assert fields[..k + 1][..k] == fields[..k];
      assert Prints(fields)[k..][1..] == Prints(fields)[k + 1..];
      FieldsAreRead(next, fields, k + 1, used + |line| + 2);
    }
  }

  ghost function PrintRequest(verb: string, path: string, version: string, fields: seq<Field>): string {
    Join([verb + " " + path + " " + version] + Prints(fields)) + END
  }

  /** The round trip: a printed request, whatever bytes follow it, is parsed into the request,
      and exactly those bytes remain.  Of the path every character is kept but a slash that
      follows a slash. */
  lemma RoundTrip(verb: string, path: string, version: string, fields: seq<Field>, rest: string)
    requires GoodRequestLine(verb, path, version)
    requires forall i :: 0 <= i < |fields| ==> GoodField(fields[i])
    ensures
      var outcome := Analyse(Request("", "", "", map[]), PrintRequest(verb, path, version, fields) + rest);
      && outcome.Complete? && outcome.parsed.status == Fine && outcome.rest == rest
      && outcome.parsed.r == Request(verb, Kept(path, '/'), version, FirstWins(fields))
    ensures NoRepeat(Kept(path, '/'), '/') && (NoRepeat(path, '/') <==> Kept(path, '/') == path)
  {
    RemoveRepeatKeeps(path, '/');
    RemoveRepeatIs(path, '/');
    var line := verb + " " + path + " " + version;
    var lines := [line] + Prints(fields);
    AllArePlain(line, fields);
    hide Join, Analyse, ParseLines, FirstWins, Prints, AllPlain, GoodField, Kept, NoRepeat, RemoveRepeat;
    PrintedIsRead(verb, path, version, fields);
    Framing(Request("", "", "", map[]), lines, rest);
  }

  lemma PrintedIsRead(verb: string, path: string, version: string, fields: seq<Field>)
    requires GoodRequestLine(verb, path, version)
    requires forall i :: 0 <= i < |fields| ==> GoodField(fields[i])
    ensures
      var parsed := ParseLines(Request("", "", "", map[]), [verb + " " + path + " " + version] + Prints(fields));
      parsed.status == Fine && parsed.r == Request(verb, Kept(path, '/'), version, FirstWins(fields))
  {
    hide *;
    var empty := Request("", "", "", map[]);
    var line := verb + " " + path + " " + version;
    RequestLineIsRead(empty, verb, path, version);
    NoFields(fields);
    FieldsAreRead(Request(verb, Kept(path, '/'), version, map[]), fields, 0, |line| + 2);
    ParseUnfolds(empty, line, Prints(fields));
    assert Prints(fields)[0..] == Prints(fields);
  }

  lemma ParseUnfolds(r: Request, line: string, lines: seq<string>)
    ensures
      var next := FirstLine(r, line);
      next.status == Fine ==> ParseLines(r, [line] + lines) == HeaderLines(next.r, lines, |line| + 2)
  {
    hide FirstLine, HeaderLines;
    assert ([line] + lines)[1..] == lines;
  }

  lemma RequestLineIsRead(r: Request, verb: string, path: string, version: string)
    requires GoodRequestLine(verb, path, version)
    ensures
      var line := verb + " " + path + " " + version;
      FirstLine(r, line) == Parsed(Fine, Request(verb, Kept(path, '/'), version, r.headers), |line|)
  {
    hide Split, RemoveRepeat, Tokens, Plain, Kept;
    assert verb + " " + path + " " + version == verb + [' '] + path + [' '] + version;
    SplitOfThree(verb, path, version, ' ');
    RemoveRepeatKeeps(path, '/');
  }

  /** A request line is good exactly when it has three words, however many spaces are before and
      between them; spaces after the last one throw. */
  lemma RequestLineIs(r: Request, pads: seq<string>, words: seq<string>)
    requires Separates(pads, words, ' ') && words != [] && pads[|words|] == ""
    ensures
      var line := Spread(pads, words);
      FirstLine(r, line)
      == if |words| != 3 then Parsed(NotThree, r, |line|)
         else Parsed(Fine, Request(words[0], Kept(words[1], '/'), words[2], r.headers), |line|)
  {
    var line := Spread(pads, words);
    assert line[0..] == line;
    SplitOfSpread(line, ' ', [], 0, pads, words);
    assert [] + words == words;
    if |words| == 3 {
      RemoveRepeatKeeps(words[1], '/');
    }
    hide Split, RemoveRepeat, Kept, Separates, Spread;
  }

  /** A header line without a colon is a header whose key and value are the line without the
      spaces around it. */
  lemma LineWithoutColon(r: Request, before: string, text: string, after: string, used: nat)
    requires Blank(before) && Trimmed(text) && Blank(after) && ':' !in text
    ensures HeaderLine(r, before + text + after, used)
         == Parsed(Fine, if text in r.headers then r else r.(headers := r.headers[text := text]), used)
  {
    var line := before + text + after;
    forall i | 0 <= i < |line|
      ensures line[i] != ':'
    {
      assert line[i] == if i < |before| then before[i]
                        else if i < |before| + |text| then text[i - |before|]
                        else after[i - |before| - |text|];
      assert |before| <= i < |before| + |text| ==> text[i - |before|] in text;
    }
    assert FirstOf(line, ':', 0) == |line|;
    assert line[..|line|] == line;
    TrimSurrounded(before, text, after);
    hide Trim, Trimmed, Blank;
  }

  lemma NoFields(fields: seq<Field>)
    ensures FirstWins(fields[..0]) == map[]
  {
  }

  lemma AllArePlain(line: string, fields: seq<Field>)
    requires Plain(line) && forall i :: 0 <= i < |fields| ==> GoodField(fields[i])
    ensures AllPlain([line] + Prints(fields))
  {
    var lines := [line] + Prints(fields);
    forall i | 0 <= i < |lines|
      ensures Plain(lines[i])
    {
      if i > 0 {
        assert lines[i] == PrintField(fields[i - 1]) && GoodField(fields[i - 1]);
      }
    }
    hide Plain, PrintField;
  }

  /** With distinct keys nothing is dropped: the map is exactly the fields. */
  lemma {:induction false} DistinctFields(fields: seq<Field>)
    requires forall i, j :: 0 <= i < j < |fields| ==> fields[i].key != fields[j].key
    ensures forall i :: 0 <= i < |fields| ==>
      fields[i].key in FirstWins(fields) && FirstWins(fields)[fields[i].key] == fields[i].value
    ensures forall key :: key in FirstWins(fields) ==> exists i :: 0 <= i < |fields| && fields[i].key == key
  {
    if fields != [] {
      var n := |fields| - 1;
      DistinctFields(fields[..n]);
      var m := FirstWins(fields[..n]);
      assert fields[n].key !in m by {
        forall i | 0 <= i < |fields[..n]|
          ensures fields[..n][i].key != fields[n].key
        {
        }
      }
      forall key | key in FirstWins(fields)
        ensures exists i :: 0 <= i < |fields| && fields[i].key == key
      {
        if key in m {
          var i :| 0 <= i < |fields[..n]| && fields[..n][i].key == key;
          assert fields[i].key == key;
        } else {
          assert fields[n].key == key;
        }
      }
    }
  }
}
