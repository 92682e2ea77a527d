// The delivery of a file by http/HttpReqHandle.cpp: the answer to a GET puts the header text
// into the connection, and each successful write then reads the next piece of the file.

module HttpReqHandles {
  import opened Collections
  import opened Decimals
  import opened TcpConnections
  import opened Buffers
  import opened Text
  import opened HttpRequests
  import opened UtilStrings

  const READ_EVERY_TIME: nat := 1024

  /** SendMassDataContext; fd is 0 when it is cleared. */
  datatype Mass = Mass(fd: nat, length: nat, rdstart: nat, remaind: nat)

  const CLEARED: Mass := Mass(0, 0, 0, 0)

  /** What stat(2) and open(2) say about a path. */
  datatype Lookup = Missing | NotRegular | CannotOpen | Opened(fd: nat, file: string)

  /** The outcome of read(2): a number of bytes, an error to be tried again, another error. */
  datatype ReadOutcome = Bytes(n: nat) | Again | ReadError

  // ------------------------------------------------------------- the answer to a GET

  function GetPath(path: string): string {
    if path == "" || path == "/" then "index.html" else path
  }

  predicate GoesUp(path: string) {
    Search(path, "../", 0) < |path|
  }

  /** The text that precedes the file. */
  function Header(version: string, length: nat, contentType: string): string {
    version + " 200 OK" + CRLF
    + "Content-Length : " + Decimal(length) + CRLF
    + "Content-Type : " + contentType + CRLF
    + "Connection : close" + CRLF
    + CRLF
  }

  /** It announces the length in decimal digits, without a leading zero but for zero itself. */
  lemma HeaderAnnounces(version: string, length: nat, contentType: string) returns (digits: string)
    ensures AllDigits(digits) && digits != "" && (digits[0] == '0' <==> length == 0) && Positional(digits) == length
    ensures Header(version, length, contentType)
         == version + " 200 OK" + "\r\n"
            + "Content-Length : " + digits + "\r\n"
            + "Content-Type : " + contentType + "\r\n"
            + "Connection : close" + "\r\n"
            + "\r\n"
  {
    digits := Decimal(length);
    DecimalIs(length);
    hide Decimal, AllDigits, Positional;
  }

  /** A path goes up when "../" occurs anywhere in it. */
  lemma GoesUpIs(path: string)
    ensures GoesUp(path) <==> exists i :: 0 <= i < |path| && "../" <= path[i..]
  {
    var r := Search(path, "../", 0);
    if r < |path| {
      assert Match(path, "../", r);
      assert path[r..][..3] == "../";
    }
    if i :| 0 <= i < |path| && "../" <= path[i..] {
      assert path[i..i + 3] == path[i..][..3];
      assert Match(path, "../", i);
    }
  }

  /** What HandleGet asks of the connection. */
  function GetActions(version: string, path: string, found: Lookup, contentType: string): seq<Action> {
    if GoesUp(path) || found.Missing? || found.CannotOpen? then [Shutdown]
    else if found.NotRegular? then []
    else [
      SendString(version + " 200 OK\r\n"),
      SendString("Content-Length : " + Decimal(|found.file|) + "\r\n"),
      SendString("Content-Type : " + contentType + "\r\n"),
      SendString("Connection : " + "close\r\n"),
      SendString("\r\n"),
      SetMore]
  }

  /** The parsed request is one that HandleGet answers. */
  predicate Answers(parsed: Parsed) {
    parsed.status == Fine && parsed.r.verb == "GET"
  }

  function MassOf(found: Lookup): Mass
    requires found.Opened?
  {
    Mass(found.fd, |found.file|, 0, |found.file|)
  }

  // ------------------------------------------------------------- the next piece of the file

  /** What read(2) at rdstart may give: as many bytes as it likes up to what was asked and what
      the file holds, and none only at its end. */
  predicate CanRead(m: Mass, file: string, outcome: ReadOutcome) {
    outcome.Bytes? ==>
      && outcome.n <= READ_EVERY_TIME
      && m.rdstart + outcome.n <= |file|
      && (outcome.n == 0 ==> m.rdstart == |file|)
  }

  /** What sendMassData asks of the connection. */
  function MassActions(m: Mass, file: string, outcome: ReadOutcome): seq<Action>
    requires CanRead(m, file, outcome)
  {
    match outcome
    case Again => []
    case ReadError => [UnsetMore, Shutdown]
    case Bytes(n) =>
      if n == 0 then [UnsetMore]
      else [PutData(file[m.rdstart..m.rdstart + n])] + if m.remaind == n then [UnsetMore, Shutdown] else []
  }

  /** And what it makes of its context. */
  function NextMass(m: Mass, outcome: ReadOutcome): Mass
    requires outcome.Bytes? ==> outcome.n <= m.remaind
  {
    match outcome
    case Again => m
    case ReadError => CLEARED
    case Bytes(n) =>
      if n == 0 || m.remaind == n then CLEARED else Mass(m.fd, m.length, m.rdstart + n, m.remaind - n)
  }

  // ------------------------------------------------------------- delivery

  /** A connection and the context of the file it is sending. */
  datatype Sending = Sending(conn: Conn, mass: Mass)

  /** The file that is being sent has not changed. */
  predicate Tracks(s: Sending, file: string) {
    s.conn.hasMoreData ==>
      && s.mass.fd > 0 && s.mass.length == |file|
      && s.mass.length == s.mass.rdstart + s.mass.remaind
  }

  /** One writable event: what write(2) says, and read(2) if it is asked. */
  datatype Turn = Turn(result: WriteResult, outcome: ReadOutcome)

  predicate Allowed(s: Sending, file: string, t: Turn) {
    && (t.result.Wrote? ==> t.result.n <= |s.conn.output|)
    && (s.conn.hasMoreData ==> CanRead(s.mass, file, t.outcome))
  }

  function Refill(s: Sending, file: string, t: Turn): seq<Action>
    requires Allowed(s, file, t)
  {
    if s.conn.hasMoreData then MassActions(s.mass, file, t.outcome) else []
  }

  /** A writable event of a connection whose more-data callback is sendMassData. */
  function Deliver(s: Sending, file: string, t: Turn): Sending
    requires Tracks(s, file) && Allowed(s, file, t)
  {
    Sending(
      Write(s.conn, t.result, Refill(s, file, t)),
      if t.result.Wrote? && t.result.n > 0 && s.conn.hasMoreData && s.conn.moreDataCb then NextMass(s.mass, t.outcome)
      else s.mass)
  }

  /** A turn without an error of the peer: not a write of nothing. */
  predicate Fair(t: Turn) {
    t.result != Wrote(0)
  }

  /** The write takes all of the buffer, and read(2) is to be tried again. */
  predicate Drains(s: Sending, t: Turn) {
    t.result == Wrote(|s.conn.output|) && s.conn.hasMoreData && t.outcome.Again?
  }

  /** After the write the file cannot be read. */
  predicate Fails(s: Sending, t: Turn) {
    t.result.Wrote? && s.conn.hasMoreData && t.outcome.ReadError?
  }

  /** While the file is being sent: what was written, what is in the buffer and what has not
      been read yet make the header and the file, and the loop watches for writing.  Once the
      last byte has been read the shutdown waits for the buffer.  Closed, once, means sent. */
  predicate Delivering(s: Sending, header: string, file: string) {
    var c := s.conn;
    && Inv(c) && c.closeCb && c.moreDataCb && !c.forced
    && (c.registered ==> c.writeEnabled && !c.sendAllDataOut && c.output != "")
    && (if c.hasMoreData then
          && Tracks(s, file) && s.mass.remaind > 0 && c.registered && !c.shouldBeClosed
          && c.sent + c.output + file[s.mass.rdstart..] == header + file
        else
          && s.mass == CLEARED
          && c.sent + c.output == header + file
          && (if c.registered then c.shouldBeClosed else c.output == "" && c.closeCalls == 1))
  }

  /** The file is not finished, but the buffer is empty and nobody watches for writing, so there
      will be no writable event to go on with. */
  predicate Stalled(s: Sending, header: string, file: string) {
    var c := s.conn;
    && Inv(c) && c.closeCb && c.moreDataCb && !c.forced
    && c.hasMoreData && Tracks(s, file) && s.mass.remaind > 0
    && c.registered && !c.writeEnabled && !c.shouldBeClosed && c.output == ""
    && c.sent + file[s.mass.rdstart..] == header + file
  }

  /** The file could not be read to its end: what was written and what is in the buffer are less
      than the header and the file, and the shutdown waits for the buffer. */
  predicate CutShort(s: Sending, header: string, file: string) {
    var c := s.conn;
    && Inv(c) && c.closeCb && c.moreDataCb && !c.forced && !c.hasMoreData && s.mass == CLEARED
    && c.sent + c.output < header + file
    && (if c.registered then c.writeEnabled && !c.sendAllDataOut && c.output != "" && c.shouldBeClosed
        else c.output == "" && c.closeCalls == 1)
  }

  /** How a delivery goes: on its way or done, stalled, cut short by a read error. */
  datatype Course = Going | Stuck | Cut

  predicate Takes(course: Course, s: Sending, header: string, file: string) {
    match course
    case Going => Delivering(s, header, file)
    case Stuck => Stalled(s, header, file)
    case Cut => CutShort(s, header, file)
  }

  /** The course that a turn gives to a delivery that was on its way. */
  function CourseOf(s: Sending, t: Turn): Course {
    if Drains(s, t) then Stuck else if Fails(s, t) then Cut else Going
  }

  /** Drops with each successful write. */
  function Measure(s: Sending): nat {
    2 * s.mass.remaind + |s.conn.output|
  }

  /** A write while the file is being read: the next piece follows the bytes before it. */
  lemma ReadTurn(c: Conn, m: Mass, file: string, n: nat, k: nat)
    requires Tracks(Sending(c, m), file) && m.remaind > 0
    requires c.hasMoreData && !c.sendAllDataOut && c.registered && c.moreDataCb
    requires 0 < n <= |c.output| && CanRead(m, file, Bytes(k))
    ensures 0 < k
    ensures Write(c, Wrote(n), MassActions(m, file, Bytes(k)))
         == Written(c, n).(
              output := c.output[n..] + file[m.rdstart..m.rdstart + k],
              accepted := c.accepted + file[m.rdstart..m.rdstart + k],
              hasMoreData := m.remaind != k,
              shouldBeClosed := if c.closing then c.shouldBeClosed else c.shouldBeClosed || m.remaind == k)
  {
    hide Acts, Act, Settle, Put, Stop;
    var w := Written(c, n);
    var piece := file[m.rdstart..m.rdstart + k];
    assert [PutData(piece)] + [] == [PutData(piece)];
    assert |piece| == k > 0;
    ActsOne(w, PutData(piece));
    ActsThree(w, PutData(piece), UnsetMore, Shutdown);
    PutStop(w, piece);
    Settled(Act(w, PutData(piece)));
    Settled(Act(Act(Act(w, PutData(piece)), UnsetMore), Shutdown));
  }

  lemma Settled(c: Conn)
    requires c.output != ""
    ensures Settle(c) == c
  {
  }

  lemma PutStop(c: Conn, data: string)
    requires c.registered
    ensures Act(c, PutData(data))
         == c.(output := c.output + data, accepted := c.accepted + data, sendAllDataOut := false)
    ensures Act(Act(Act(c, PutData(data)), UnsetMore), Shutdown)
         == c.(output := c.output + data, accepted := c.accepted + data, sendAllDataOut := false,
               hasMoreData := false, shouldBeClosed := if c.closing then c.shouldBeClosed else true)
  {
  }

  lemma ActsOne(c: Conn, a: Action)
    ensures Acts(c, [a]) == Act(c, a)
  {
    hide Act;
    assert Acts(c, [a][..0]) == c;
  }

  lemma ActsNext(c: Conn, actions: seq<Action>, a: Action)
    ensures Acts(c, actions + [a]) == Act(Acts(c, actions), a)
  {
    hide Act;
    assert (actions + [a])[..|actions|] == actions;
  }

  lemma ActsThree(c: Conn, a1: Action, a2: Action, a3: Action)
    ensures Acts(c, [a1] + [a2, a3]) == Act(Act(Act(c, a1), a2), a3)
  {
    hide Act;
    ActsOne(c, a1);
    ActsNext(c, [a1], a2);
    ActsNext(c, [a1] + [a2], a3);
    assert [a1] + [a2, a3] == [a1] + [a2] + [a3];
    hide Acts;
  }

  /** A write after the file has been read: the shutdown happens when the buffer is empty. */
  lemma DrainTurn(c: Conn, n: nat, actions: seq<Action>)
    requires Inv(c) && !c.hasMoreData && c.shouldBeClosed && c.registered && c.closeCb && 0 < n <= |c.output|
    ensures
      var d := Write(c, Wrote(n), actions);
      && d.sent == c.sent + c.output[..n] && d.output == c.output[n..]
      && d.hasMoreData == c.hasMoreData && d.closeCb == c.closeCb
      && d.moreDataCb == c.moreDataCb && d.forced == c.forced
      && (n < |c.output| ==> d == Written(c, n))
      && (n == |c.output| ==> !d.registered && d.closeCalls == 1)
  {
  }

  /** Every fair turn keeps the delivery on its way, except two: one that drains the buffer while
      read(2) is to be tried again stalls it, and one after which the file cannot be read cuts
      it short.  A successful write brings the delivery nearer to its end in any case. */
  lemma TurnKeepsDelivery(s: Sending, header: string, file: string, t: Turn)
    requires Delivering(s, header, file) && Allowed(s, file, t) && Fair(t)
    ensures
      var d := Deliver(s, file, t);
      Takes(CourseOf(s, t), d, header, file) && Measure(d) + (if t.result.Wrote? then 1 else 0) <= Measure(s)
  {
    if t.result.Wrote? {
      StepKeepsInv(s.conn, Writable(t.result, Refill(s, file, t)));
      if !s.conn.hasMoreData {
        DrainTurnKeeps(s, header, file, t);
      } else if t.outcome.Again? {
        AgainTurnKeeps(s, header, file, t);
      } else if t.outcome.ReadError? {
        ErrorTurnCuts(s, header, file, t);
      } else {
        ReadTurnKeeps(s, header, file, t);
      }
    }
    hide Write, Inv, Refill;
  }

  /** A write after which the file cannot be read is like one after it has been read. */
  lemma ErrorTurn(c: Conn, n: nat)
    requires Inv(c) && c.hasMoreData && c.moreDataCb && c.registered && !c.sendAllDataOut && 0 < n <= |c.output|
    ensures Write(c, Wrote(n), [UnsetMore, Shutdown])
         == Write(c.(hasMoreData := false, shouldBeClosed := true), Wrote(n), [])
  {
    var w := Written(c, n);
    ActsTwo(w, UnsetMore, Shutdown);
    assert Act(Act(w, UnsetMore), Shutdown) == Written(c.(hasMoreData := false, shouldBeClosed := true), n);
    hide Acts, Settle;
  }

  lemma ErrorTurnCuts(s: Sending, header: string, file: string, t: Turn)
    requires Delivering(s, header, file) && Allowed(s, file, t) && t.result.Wrote? && t.result.n > 0
    requires s.conn.hasMoreData && t.outcome.ReadError?
    requires Inv(Deliver(s, file, t).conn)
    ensures CutShort(Deliver(s, file, t), header, file)
    ensures Measure(Deliver(s, file, t)) < Measure(s)
  {
    var c := s.conn;
    ErrorTurn(c, t.result.n);
    var e := c.(hasMoreData := false, shouldBeClosed := true);
    assert Inv(e);
    DrainTurn(e, t.result.n, []);
    SplitOutput(c.sent, c.output, t.result.n, "", "");
    assert |file[s.mass.rdstart..]| == s.mass.remaind;
    hide Write, Inv;
  }

  /** A delivery that was cut short goes on until the buffer is out, and then closes. */
  lemma CutTurnKeeps(s: Sending, header: string, file: string, t: Turn)
    requires CutShort(s, header, file) && Allowed(s, file, t) && Fair(t)
    ensures
      var d := Deliver(s, file, t);
      && CutShort(d, header, file) && d.conn.sent + d.conn.output == s.conn.sent + s.conn.output
      && Measure(d) + (if t.result.Wrote? then 1 else 0) <= Measure(s)
  {
    if t.result.Wrote? {
      StepKeepsInv(s.conn, Writable(t.result, Refill(s, file, t)));
      DrainTurn(s.conn, t.result.n, []);
      SplitOutput(s.conn.sent, s.conn.output, t.result.n, "", "");
    }
    hide Write, Inv;
  }

  lemma ReadTurnKeeps(s: Sending, header: string, file: string, t: Turn)
    requires Delivering(s, header, file) && Allowed(s, file, t) && t.result.Wrote? && t.result.n > 0
    requires s.conn.hasMoreData && t.outcome.Bytes?
    requires Inv(Deliver(s, file, t).conn)
    ensures Delivering(Deliver(s, file, t), header, file)
    ensures Measure(Deliver(s, file, t)) < Measure(s)
  {
    assert !s.conn.closing;
    hide Write, Inv, MassActions;
    var c := s.conn;
    var n := t.result.n;
    var k := t.outcome.n;
    ReadTurn(c, s.mass, file, n, k);
    NextPiece(file, s.mass.rdstart, k);
    SplitOutput(c.sent, c.output, n, file[s.mass.rdstart..s.mass.rdstart + k], file[s.mass.rdstart + k..]);
  }

  /** A write after which the callback adds nothing. */
  lemma AgainTurn(c: Conn, n: nat)
    requires c.hasMoreData && c.moreDataCb && c.registered && !c.shouldBeClosed && 0 < n <= |c.output|
    ensures Write(c, Wrote(n), [])
         == if n < |c.output| then Written(c, n)
            else Written(c, n).(sendAllDataOut := true, writeEnabled := false, polled := false)
  {
    assert Acts(Written(c, n), []) == Written(c, n);
  }

  lemma AgainTurnKeeps(s: Sending, header: string, file: string, t: Turn)
    requires Delivering(s, header, file) && Allowed(s, file, t) && t.result.Wrote? && t.result.n > 0
    requires s.conn.hasMoreData && t.outcome.Again?
    requires Inv(Deliver(s, file, t).conn)
    ensures
      var d := Deliver(s, file, t);
      && (if Drains(s, t) then Stalled(d, header, file) else Delivering(d, header, file))
      && Measure(d) < Measure(s)
  {
    hide Write, Inv;
    var c := s.conn;
    AgainTurn(c, t.result.n);
    SplitOutput(c.sent, c.output, t.result.n, "", file[s.mass.rdstart..]);
    assert "" + file[s.mass.rdstart..] == file[s.mass.rdstart..];
    assert c.output[t.result.n..] + "" == c.output[t.result.n..];
    assert c.sent + c.output[..t.result.n] + "" == c.sent + c.output[..t.result.n];
  }

  /** A stalled delivery stays as it is. */
  lemma StallLasts(s: Sending, header: string, file: string, t: Turn)
    requires Stalled(s, header, file) && Allowed(s, file, t) && Fair(t)
    ensures Deliver(s, file, t) == s && !t.result.Wrote?
  {
  }

  lemma DrainTurnKeeps(s: Sending, header: string, file: string, t: Turn)
    requires Delivering(s, header, file) && Allowed(s, file, t) && Fair(t) && t.result.Wrote? && !s.conn.hasMoreData
    requires Inv(Deliver(s, file, t).conn)
    ensures Delivering(Deliver(s, file, t), header, file)
    ensures Measure(Deliver(s, file, t)) < Measure(s)
  {
    var c := s.conn;
    var n := t.result.n;
    DrainTurn(c, n, []);
    SplitOutput(c.sent, c.output, n, "", "");
    hide Write, Inv;
  }

  lemma SplitOutput(sent: string, output: string, n: nat, piece: string, rest: string)
    requires n <= |output|
    ensures sent + output + (piece + rest) == (sent + output[..n]) + (output[n..] + piece) + rest
    ensures sent + output == (sent + output[..n]) + output[n..]
  {
  }

  lemma NextPiece(file: string, from: nat, k: nat)
    requires from + k <= |file|
    ensures file[from..] == file[from..from + k] + file[from + k..]
  {
  }

  // ------------------------------------------------------------- the beginning

  lemma SendMeans(c: Conn, msg: string)
    requires c.registered
    ensures Act(c, SendString(msg))
         == c.(output := c.output + msg, accepted := c.accepted + msg, sendAllDataOut := false,
               writeEnabled := true, polled := true)
  {
  }

  lemma GetSends(c: Conn, m1: string, m2: string, m3: string, m4: string, m5: string)
    requires c.registered
    ensures
      var text := m1 + m2 + m3 + m4 + m5;
      Acts(c, [SendString(m1), SendString(m2), SendString(m3), SendString(m4), SendString(m5), SetMore])
      == c.(output := c.output + text, accepted := c.accepted + text, sendAllDataOut := false,
            writeEnabled := true, polled := true, hasMoreData := true)
  {
    hide Act, Acts;
    var c1 := Act(c, SendString(m1));
    var c2 := Act(c1, SendString(m2));
    var c3 := Act(c2, SendString(m3));
    var c4 := Act(c3, SendString(m4));
    var c5 := Act(c4, SendString(m5));
    SendMeans(c, m1);
    SendMeans(c1, m2);
    SendMeans(c2, m3);
    SendMeans(c3, m4);
    SendMeans(c4, m5);
    SetMoreMeans(c5);
    SixActs(c, SendString(m1), SendString(m2), SendString(m3), SendString(m4), SendString(m5), SetMore);
    SixPieces(c.output, m1, m2, m3, m4, m5);
    SixPieces(c.accepted, m1, m2, m3, m4, m5);
  }

  lemma SixPieces(s: string, m1: string, m2: string, m3: string, m4: string, m5: string)
    ensures s + m1 + m2 + m3 + m4 + m5 == s + (m1 + m2 + m3 + m4 + m5)
  {
  }

  lemma SetMoreMeans(c: Conn)
    ensures Act(c, SetMore) == c.(hasMoreData := true)
  {
  }

  lemma HeaderPieces(version: string, length: nat, contentType: string)
    ensures version + " 200 OK\r\n" + ("Content-Length : " + Decimal(length) + "\r\n")
         + ("Content-Type : " + contentType + "\r\n") + ("Connection : " + "close\r\n") + "\r\n"
         == Header(version, length, contentType)
  {
    assert " 200 OK\r\n" == " 200 OK" + CRLF;
    assert "close\r\n" == "close" + CRLF && "Connection : close" == "Connection : " + "close";
    hide Decimal;
  }

  /** The GET of a file that is there and not empty, on a connection where nothing has happened
      yet, starts the delivery of the header and the file. */
  lemma GetStartsDelivery(c: Conn, version: string, path: string, found: Lookup, contentType: string)
    requires Fresh(c) && c.closeCb && c.moreDataCb
    requires !GoesUp(path) && found.Opened? && found.fd > 0 && found.file != ""
    ensures
      var s := Sending(Acts(c, GetActions(version, path, found, contentType)), MassOf(found));
      var header := Header(version, |found.file|, contentType);
      Delivering(s, header, found.file) && s.conn.output == header && s.conn.sent == ""
  {
    hide Acts;
    var m1 := version + " 200 OK\r\n";
    var m2 := "Content-Length : " + Decimal(|found.file|) + "\r\n";
    var m3 := "Content-Type : " + contentType + "\r\n";
    var m4 := "Connection : " + "close\r\n";
    GetSends(c, m1, m2, m3, m4, "\r\n");
    HeaderPieces(version, |found.file|, contentType);
    hide Header, Decimal;
    assert "" + Header(version, |found.file|, contentType) == Header(version, |found.file|, contentType);
    assert Header(version, |found.file|, contentType) != "" by {
      HeaderIsNotEmpty(version, |found.file|, contentType);
    }
  }

  lemma HeaderIsNotEmpty(version: string, length: nat, contentType: string)
    ensures Header(version, length, contentType) != ""
  {
  }

  /** A request that HandleGet refuses closes a fresh connection at once, without a byte of an
      answer; one for something that is no regular file leaves the connection as it is. */
  lemma GetIsRefused(c: Conn, version: string, path: string, found: Lookup, contentType: string)
    requires Fresh(c) && c.closeCb
    ensures
      var d := Acts(c, GetActions(version, path, found, contentType));
      && (GoesUp(path) || found.Missing? || found.CannotOpen? ==>
            !d.registered && d.closing && d.closeCalls == 1 && d.accepted == "" && d.sent == "")
      && (!GoesUp(path) && found.NotRegular? ==> d == c)
  {
    ActsOne(c, Shutdown);
    ActsNone(c);
    hide Acts, GoesUp;
  }

  // ------------------------------------------------------------- every run

  /** Writable events without error, one after another; None when one of them is not possible
      where it comes. */
  function DeliverAll(start: Sending, file: string, turns: seq<Turn>): Option<Sending> {
    if turns == [] then Some(start)
    else
      var t := turns[|turns| - 1];
      match DeliverAll(start, file, turns[..|turns| - 1])
      case None => None
      case Some(s) => if Tracks(s, file) && Allowed(s, file, t) && Fair(t) then Some(Deliver(s, file, t)) else None
  }

  /** The course of a run; the first turn that leaves the way decides it. */
  function RunCourse(start: Sending, file: string, turns: seq<Turn>): Course {
    if turns == [] then Going
    else
      var n := |turns| - 1;
      var course := RunCourse(start, file, turns[..n]);
      var before := DeliverAll(start, file, turns[..n]);
      if course.Going? && before.Some? then CourseOf(before.value, turns[n]) else course
  }

  function Successes(turns: seq<Turn>): nat {
    if turns == [] then 0
    else Successes(turns[..|turns| - 1]) + if turns[|turns| - 1].result.Wrote? then 1 else 0
  }

  lemma {:induction false} RunDelivers(start: Sending, header: string, file: string, turns: seq<Turn>)
    requires Delivering(start, header, file) && DeliverAll(start, file, turns).Some?
    ensures
      var end := DeliverAll(start, file, turns).value;
      && Takes(RunCourse(start, file, turns), end, header, file)
      && Measure(end) + Successes(turns) <= Measure(start)
    decreases |turns|
  {
    hide Delivering, Stalled, CutShort, Measure, Deliver, Allowed, Fair, CourseOf, Tracks;
    if turns != [] {
      var n := |turns| - 1;
      RunDelivers(start, header, file, turns[..n]);
      var s := DeliverAll(start, file, turns[..n]).value;
      match RunCourse(start, file, turns[..n])
      case Going => TurnKeepsDelivery(s, header, file, turns[n]);
      case Stuck => StallLasts(s, header, file, turns[n]);
      case Cut => CutTurnKeeps(s, header, file, turns[n]);
    }
  }

  /** The stall is within reach of every delivery whose file is not finished. */
  lemma AgainStalls(s: Sending, header: string, file: string)
    requires Delivering(s, header, file) && s.conn.hasMoreData
    ensures
      var t := Turn(Wrote(|s.conn.output|), Again);
      && Tracks(s, file) && Allowed(s, file, t) && Fair(t) && CourseOf(s, t).Stuck?
      && Stalled(Deliver(s, file, t), header, file)
  {
    TurnKeepsDelivery(s, header, file, Turn(Wrote(|s.conn.output|), Again));
    hide Deliver, Stalled, Inv;
  }

  /** A run leaves its way only by a read that fails, with the error that tells it. */
  lemma {:induction false} CourseNeedsError(start: Sending, file: string, turns: seq<Turn>)
    ensures RunCourse(start, file, turns).Stuck? ==>
      exists i :: 0 <= i < |turns| && turns[i].outcome.Again? && turns[i].result.Wrote?
    ensures RunCourse(start, file, turns).Cut? ==>
      exists i :: 0 <= i < |turns| && turns[i].outcome.ReadError? && turns[i].result.Wrote?
    decreases |turns|
  {
    hide DeliverAll;
    if turns != [] {
      var n := |turns| - 1;
      CourseNeedsError(start, file, turns[..n]);
      if RunCourse(start, file, turns[..n]).Stuck? {
        var i :| 0 <= i < n && turns[..n][i].outcome.Again? && turns[..n][i].result.Wrote?;
        assert turns[i].outcome.Again? && turns[i].result.Wrote?;
      } else if RunCourse(start, file, turns[..n]).Cut? {
        var i :| 0 <= i < n && turns[..n][i].outcome.ReadError? && turns[..n][i].result.Wrote?;
        assert turns[i].outcome.ReadError? && turns[i].result.Wrote?;
      }
    }
  }

  /** Where a run of writable events has brought the delivery of a file. */
  ghost predicate Progress(end: Sending, header: string, file: string, course: Course, successes: nat) {
    var c := end.conn;
    var whole := header + file;
    && c.sent <= whole
    && c.closeCalls == (if c.registered then 0 else 1)
    && (!c.registered ==> c.output == "" && (if course.Cut? then c.sent < whole else c.sent == whole))
    && (course.Stuck? ==> c.registered && !c.polled && c.sent < whole)
    && (!course.Stuck? && c.registered ==> c.polled && c.output != "")
    && successes <= |header| + 2 * |file|
    && (successes == |header| + 2 * |file| ==> !c.registered)
  }

  /** Every run of writable events after a GET of a file brings its header and its bytes forward. */
  ghost predicate Delivers(c: Conn, version: string, path: string, found: Lookup, contentType: string, turns: seq<Turn>)
    requires found.Opened?
  {
    var start := Sending(Acts(c, GetActions(version, path, found, contentType)), MassOf(found));
    var end := DeliverAll(start, found.file, turns);
    end.Some? ==>
      Progress(end.value, Header(version, |found.file|, contentType), found.file,
               RunCourse(start, found.file, turns), Successes(turns))
  }

  /** The composed law: however write(2) and read(2) split the bytes and whatever read(2) answers,
      at every moment the peer has received a prefix of the header and the file; the connection
      closes once, with an empty buffer, and only after the last byte, exactly unless the file
      could not be read to its end.  No run has more successful writes than the header's length
      and twice the file's, and that many writes end it.  Until then the loop watches the
      connection for writing, exactly unless some write drained the buffer while read(2) was
      to be tried again: then nothing watches, and the rest of the file is never sent. */
  lemma FileDelivery(c: Conn, version: string, path: string, found: Lookup, contentType: string, turns: seq<Turn>)
    requires Fresh(c) && c.closeCb && c.moreDataCb
    requires !GoesUp(path) && found.Opened? && found.fd > 0 && found.file != ""
    ensures Delivers(c, version, path, found, contentType, turns)
  {
    hide Acts, GetActions, Header, DeliverAll, RunCourse, GoesUp, Progress, Delivering, Takes;
    GetStartsDelivery(c, version, path, found, contentType);
    var start := Sending(Acts(c, GetActions(version, path, found, contentType)), MassOf(found));
    var header := Header(version, |found.file|, contentType);
    var end := DeliverAll(start, found.file, turns);
    if end.Some? {
      RunDelivers(start, header, found.file, turns);
      CourseProgress(RunCourse(start, found.file, turns), end.value, header, found.file, Successes(turns));
    }
  }

  lemma CourseProgress(course: Course, end: Sending, header: string, file: string, successes: nat)
    requires Takes(course, end, header, file) && Measure(end) + successes <= |header| + 2 * |file|
    ensures Progress(end, header, file, course, successes)
  {
    match course
    case Going => DeliveringProgress(end, header, file, successes);
    case Stuck => StalledProgress(end, header, file, successes);
    case Cut => CutProgress(end, header, file, successes);
    hide Progress, Delivering, Stalled, CutShort;
  }

  lemma DeliveringProgress(end: Sending, header: string, file: string, successes: nat)
    requires Delivering(end, header, file) && Measure(end) + successes <= |header| + 2 * |file|
    ensures Progress(end, header, file, Going, successes)
  {
    var c := end.conn;
    if c.hasMoreData {
      assert c.sent + c.output + file[end.mass.rdstart..] == c.sent + (c.output + file[end.mass.rdstart..]);
    }
  }

  lemma StalledProgress(end: Sending, header: string, file: string, successes: nat)
    requires Stalled(end, header, file) && Measure(end) + successes <= |header| + 2 * |file|
    ensures Progress(end, header, file, Stuck, successes)
  {
    assert |file[end.mass.rdstart..]| == end.mass.remaind;
  }

  lemma CutProgress(end: Sending, header: string, file: string, successes: nat)
    requires CutShort(end, header, file) && Measure(end) + successes <= |header| + 2 * |file|
    ensures Progress(end, header, file, Cut, successes)
  {
    assert end.conn.output == "" ==> end.conn.sent + end.conn.output == end.conn.sent;
  }

  /** The file that answers a path: slashes are not repeated, and the root is the index. */
  ghost function FileOf(serverPath: string, path: string): string {
    serverPath + if Kept(path, '/') == "/" then "index.html" else Kept(path, '/')
  }

  /** The messages hold one request, a GET, and what follows it stays in the buffer. */
  ghost predicate ReadOnce(chunks: seq<string>, r: Request, rest: string) {
    var session := Calls(Session(Request("", "", "", map[]), "", []), chunks);
    && |session.parses| == 1 && Answers(session.parses[0])
    && session.parses[0].r == r && session.content == rest
  }

  /** From the bytes of a request to the bytes of its answer: a printed GET, however it comes in
      messages and whatever follows it that is not another complete header, is parsed once,
      answered on a fresh connection with the header and the file that the file system holds
      for its path, and every run of writable events delivers these. */
  lemma RequestIsServed(path: string, version: string, fields: seq<Field>, rest: string, chunks: seq<string>, c: Conn,
                        serverPath: string, lookup: string -> Lookup, contentTypes: string -> string, turns: seq<Turn>)
    requires GoodRequestLine("GET", path, version) && forall i :: 0 <= i < |fields| ==> GoodField(fields[i])
    requires Concat(chunks) == PrintRequest("GET", path, version, fields) + rest && Messages(chunks) && !HasEnd(rest)
    requires Fresh(c) && c.closeCb && c.moreDataCb && !GoesUp(Kept(path, '/'))
    requires
      var found := lookup(FileOf(serverPath, path));
      found.Opened? && found.fd > 0 && found.file != ""
    ensures ReadOnce(chunks, Request("GET", Kept(path, '/'), version, FirstWins(fields)), rest)
    ensures serverPath + GetPath(Kept(path, '/')) == FileOf(serverPath, path)
    ensures
      var name := FileOf(serverPath, path);
      Delivers(c, version, Kept(path, '/'), lookup(name), contentTypes(name), turns)
  {
    var empty := Request("", "", "", map[]);
    RoundTrip("GET", path, version, fields, rest);
    SettledByRest(empty, Concat(chunks));
    ChunksDoNotMatter(empty, chunks);
    var name := FileOf(serverPath, path);
    FileDelivery(c, version, Kept(path, '/'), lookup(name), contentTypes(name), turns);
    PathIsNotEmpty(version, path);
    assert GoodRequestLine("GET", path, version);
    hide *;
    CallIs(empty, Concat(chunks));
    AnswersIs(Analyse(empty, Concat(chunks)).parsed);
    NameIs(serverPath, path);
    ReadOnceIs(chunks, Analyse(empty, Concat(chunks)).parsed, rest);
  }

  lemma ReadOnceIs(chunks: seq<string>, parsed: Parsed, rest: string)
    requires Calls(Session(Request("", "", "", map[]), "", []), chunks) == Session(parsed.r, rest, [parsed])
    requires Answers(parsed)
    ensures ReadOnce(chunks, parsed.r, rest)
  {
    hide Calls, Answers;
  }

  lemma PathIsNotEmpty(version: string, path: string)
    requires GoodRequestLine("GET", path, version)
    ensures Kept(path, '/') != ""
  {
    ThreeTokens("GET", path, version, ' ');
    RemoveRepeatKeeps(path, '/');
    RemoveRepeatIs(path, '/');
  }

  lemma NameIs(serverPath: string, path: string)
    requires Kept(path, '/') != ""
    ensures serverPath + GetPath(Kept(path, '/')) == FileOf(serverPath, path)
  {
  }

  lemma SettledByRest(r: Request, content: string)
    requires Analyse(r, content).Complete? && Analyse(r, content).parsed.status == Fine
    requires !HasEnd(Analyse(r, content).rest)
    ensures Settles(r, content)
  {
    hide Analyse, HasEnd;
  }

  lemma CallIs(r: Request, content: string)
    requires Analyse(r, content).Complete?
    ensures
      var o := Analyse(r, content);
      Call(Session(r, "", []), content) == Session(o.parsed.r, o.rest, [o.parsed])
  {
    hide Analyse;
    assert "" + content == content;
  }

  lemma AnswersIs(parsed: Parsed)
    ensures Answers(parsed) <==> parsed.status == Fine && parsed.r.verb == "GET"
  {
  }

  // ------------------------------------------------------------- an empty file

  /** Nobody has asked for a shutdown, and nobody will. */
  predicate Lingering(s: Sending) {
    && Inv(s.conn) && s.conn.registered && !s.conn.shouldBeClosed && s.conn.closeCalls == 0
    && (s.conn.output != "" ==> !s.conn.sendAllDataOut)
  }

  lemma TurnLingers(s: Sending, t: Turn)
    requires Lingering(s) && Tracks(s, "") && Allowed(s, "", t) && Fair(t) && !Fails(s, t)
    ensures
      var d := Deliver(s, "", t);
      && Lingering(d) && Tracks(d, "")
      && (Drains(s, t) ==> d.conn.output == "")
      && (!t.result.Wrote? ==> d == s)
  {
    var c := s.conn;
    if t.result.Wrote? {
      StepKeepsInv(c, Writable(t.result, Refill(s, "", t)));
      var w := Written(c, t.result.n);
      ActsOne(w, UnsetMore);
      ActsNone(w);
    }
    hide Inv, Acts;
  }

  lemma {:induction false} RunLingers(start: Sending, turns: seq<Turn>)
    requires Lingering(start) && Tracks(start, "") && DeliverAll(start, "", turns).Some?
    requires !RunCourse(start, "", turns).Cut?
    ensures
      var end := DeliverAll(start, "", turns).value;
      Lingering(end) && Tracks(end, "") && (RunCourse(start, "", turns).Stuck? ==> end.conn.output == "")
    decreases |turns|
  {
    hide Lingering, Deliver;
    if turns != [] {
      var n := |turns| - 1;
      RunLingers(start, turns[..n]);
      TurnLingers(DeliverAll(start, "", turns[..n]).value, turns[n]);
    }
  }

  /** An empty file is the exception: its answer promises to close the connection, but no run
      of writes does unless reading the file fails. */
  lemma EmptyFileLingers(c: Conn, version: string, path: string, fd: nat, contentType: string, turns: seq<Turn>)
    requires Fresh(c) && !GoesUp(path) && fd > 0
    ensures
      var start := Sending(Acts(c, GetActions(version, path, Opened(fd, ""), contentType)), Mass(fd, 0, 0, 0));
      var end := DeliverAll(start, "", turns);
      end.Some? && !RunCourse(start, "", turns).Cut? ==> end.value.conn.registered && end.value.conn.closeCalls == 0
  {
    var start := Sending(Acts(c, GetActions(version, path, Opened(fd, ""), contentType)), Mass(fd, 0, 0, 0));
    GetSends(c, version + " 200 OK\r\n", "Content-Length : " + Decimal(0) + "\r\n",
             "Content-Type : " + contentType + "\r\n", "Connection : " + "close\r\n", "\r\n");
    hide Acts, DeliverAll, RunCourse, Decimal, GoesUp;
    if DeliverAll(start, "", turns).Some? && !RunCourse(start, "", turns).Cut? {
      RunLingers(start, turns);
    }
  }

  // ------------------------------------------------------------- the class

  class HttpReqHandle {
    const request: HttpRequest         // request_
    const serverPath: string           // options_
    var mass: Mass                     // massDataC_

    constructor (serverPath: string, garbage: Mass)
      ensures mass == garbage && this.serverPath == serverPath && fresh(request)
      ensures request.View() == Request("", "", "", map[])
    {
      request := new HttpRequest();
      this.serverPath := serverPath;
      mass := garbage;
    }

    /** OnMessageCallback and handleMethod: an incomplete request stays in the buffer, a complete
        one is taken; if it asks for GET it is answered, and otherwise there is no answer.  The
        file system is given by what it says about each path. */
    method OnMessageCallback(conn: TcpConnection, buffer: Buffer, lookup: string -> Lookup,
                             contentTypes: string -> string)
        returns (thrown: bool)
      requires conn.Valid() && buffer.Valid() && buffer != conn.writeBuffer && buffer.buffer != conn.writeBuffer.buffer
      modifies `mass, request, buffer`readerIndex, buffer`writerIndex, conn, conn.writeBuffer, conn.writeBuffer.buffer
      ensures conn.Valid() && buffer.Valid()
      ensures
        match Analyse(old(request.View()), old(buffer.Contents()))
        case Incomplete =>
          && request.View() == old(request.View()) && request.requestState == INCOMPLETE
          && buffer.Contents() == old(buffer.Contents()) && !thrown
        case Complete(parsed, rest) =>
          && request.View() == parsed.r && buffer.Contents() == rest
          && (thrown <==> parsed.status == Thrown)
          && (parsed.status == Fine ==> request.requestState == GOOD)
          && (parsed.status == NotThree ==> request.requestState == BAD)
          && (parsed.status == Thrown ==> request.requestState == old(request.requestState))
      ensures
        var outcome := Analyse(old(request.View()), old(buffer.Contents()));
        if outcome.Complete? && Answers(outcome.parsed) then
          var r := outcome.parsed.r;
          var file := serverPath + GetPath(r.path);
          && conn.View() == Acts(old(conn.View()), GetActions(r.version, r.path, lookup(file), contentTypes(file)))
          && mass == (if !GoesUp(r.path) && lookup(file).Opened? then MassOf(lookup(file)) else old(mass))
        else conn.View() == old(conn.View()) && mass == old(mass)
    {
      hide Analyse, Acts, GetActions;
      var answer := request.AnalyseHttpRequestHeader(buffer);
      assert conn.View() == old(conn.View());
      thrown := answer == None;
      assert answer == Some(true) ==> request.requestState == GOOD;
      if answer == Some(true) && request.verb == "GET" {
        var file := serverPath + GetPath(request.path);
        var _ := HandleGet(conn, request.version, request.path, lookup(file), contentTypes(file));
      }
    }

    /** HandleGet: a path that goes up, a missing file and one that cannot be opened end the
        connection without an answer; what is no regular file gets none. */
    method HandleGet(conn: TcpConnection, version: string, path: string, found: Lookup, contentType: string)
        returns (ok: bool)
      requires conn.Valid()
      modifies `mass, conn, conn.writeBuffer, conn.writeBuffer.buffer
      ensures conn.Valid() && conn.View() == Acts(old(conn.View()), GetActions(version, path, found, contentType))
      ensures ok <==> !GoesUp(path) && (found.NotRegular? || found.Opened?)
      ensures mass == if ok && found.Opened? then Mass(found.fd, |found.file|, 0, |found.file|) else old(mass)
    {
      hide Act;
      ghost var c := conn.View();
      if Search(path, "../", 0) < |path| || found.Missing? {
        ActsOne(c, Shutdown);
        conn.Shutdown();
        return false;
      }
      if !found.NotRegular? {
        if found.CannotOpen? {
          ActsOne(c, Shutdown);
          conn.Shutdown();
          return false;
        }
        mass := Mass(found.fd, |found.file|, 0, |found.file|);
        SendAnswer(conn, version, |found.file|, contentType);
      }
      ok := true;
    }

    method SendAnswer(conn: TcpConnection, version: string, length: nat, contentType: string)
      requires conn.Valid()
      modifies conn, conn.writeBuffer, conn.writeBuffer.buffer
      ensures conn.Valid() && conn.View() == Acts(old(conn.View()), [
        SendString(version + " 200 OK\r\n"),
        SendString("Content-Length : " + Decimal(length) + "\r\n"),
        SendString("Content-Type : " + contentType + "\r\n"),
        SendString("Connection : " + "close\r\n"),
        SendString("\r\n"),
        SetMore])
    {
      hide Act, Acts, Decimal;
      ghost var c := conn.View();
      conn.SendString(version + " 200 OK\r\n");
      conn.SendString("Content-Length : " + Decimal(length) + "\r\n");
      conn.SendString("Content-Type : " + contentType + "\r\n");
      conn.SendString("Connection : " + "close\r\n");
      conn.SendString("\r\n");
      conn.SetHasMoreData();
      SixActs(c, SendString(version + " 200 OK\r\n"), SendString("Content-Length : " + Decimal(length) + "\r\n"),
              SendString("Content-Type : " + contentType + "\r\n"), SendString("Connection : " + "close\r\n"),
              SendString("\r\n"), SetMore);
    }

    /** sendMassData, called after a successful write; its assertions hold. */
    method SendMassData(conn: TcpConnection, file: string, outcome: ReadOutcome)
      requires conn.Valid() && mass.fd > 0 && mass.length == |file| == mass.rdstart + mass.remaind
      requires CanRead(mass, file, outcome)
      modifies `mass, conn, conn.writeBuffer, conn.writeBuffer.buffer
      ensures conn.Valid() && conn.View() == Acts(old(conn.View()), MassActions(old(mass), file, outcome))
      ensures mass == NextMass(old(mass), outcome)
    {
      hide Act, Acts;
      ghost var c := conn.View();
      assert mass.fd > 0;
      match outcome
      case Again =>
        ActsNone(c);
      case ReadError =>
        mass := CLEARED;
        ActsTwo(c, UnsetMore, Shutdown);
        conn.UnsetHasMoreData();
        conn.Shutdown();
      case Bytes(n) =>
        if n == 0 {
          ActsOne(c, UnsetMore);
          conn.UnsetHasMoreData();
          mass := CLEARED;
        } else {
          var piece := file[mass.rdstart..mass.rdstart + n];
          conn.PutDataToWriteBuffer(piece);
          mass := mass.(rdstart := mass.rdstart + n, remaind := mass.remaind - n);
          assert mass.length == mass.rdstart + mass.remaind;
          if mass.remaind == 0 {
            ActsThree(c, PutData(piece), UnsetMore, Shutdown);
            conn.UnsetHasMoreData();
            mass := CLEARED;
            conn.Shutdown();
          } else {
            ActsOne(c, PutData(piece));
            assert [PutData(piece)] + [] == [PutData(piece)];
          }
        }
    }

    /** handleWrite of a connection whose more-data callback is sendMassData. */
    method HandleWrite(conn: TcpConnection, attempts: seq<WriteResult>, file: string, outcome: ReadOutcome)
      requires conn.Valid() && conn.Attempted(attempts)
      requires conn.hasMoreData && conn.moreDataCb ==>
        && mass.fd > 0 && mass.length == |file| == mass.rdstart + mass.remaind && CanRead(mass, file, outcome)
      modifies `mass, conn, conn.writeBuffer, conn.writeBuffer.buffer
      ensures conn.Valid()
      ensures
        var more := old(conn.hasMoreData && conn.moreDataCb);
        var result := attempts[|attempts| - 1];
        && conn.View() == Write(old(conn.View()), result, if more then MassActions(old(mass), file, outcome) else [])
        && mass == if more && result.Wrote? && result.n > 0 then NextMass(old(mass), outcome) else old(mass)
    {
      hide Act, Acts, Settle, ForceClose, Written, MassActions, NextMass;
      var result := conn.TryWrite(attempts);
      match result
      case Wrote(n) =>
        if n == 0 {
          conn.GiveUp();
        } else {
          conn.TakeWritten(n);
          if conn.hasMoreData && conn.moreDataCb {
            SendMassData(conn, file, outcome);
          }
          conn.FinishWrite(conn.writeBuffer.ReadableBytes());
        }
      case _ =>
    }
  }

  lemma ActsNone(c: Conn)
    ensures Acts(c, []) == c
  {
  }

  lemma ActsTwo(c: Conn, a1: Action, a2: Action)
    ensures Acts(c, [a1, a2]) == Act(Act(c, a1), a2)
  {
    hide Act;
    ActsOne(c, a1);
    ActsNext(c, [a1], a2);
    assert [a1, a2] == [a1] + [a2];
    hide Acts;
  }

  lemma SixActs(c: Conn, a1: Action, a2: Action, a3: Action, a4: Action, a5: Action, a6: Action)
    ensures Acts(c, [a1, a2, a3, a4, a5, a6]) == Act(Act(Act(Act(Act(Act(c, a1), a2), a3), a4), a5), a6)
  {
    hide Act;
    ActsOne(c, a1);
    ActsNext(c, [a1], a2);
    ActsNext(c, [a1, a2], a3);
    ActsNext(c, [a1, a2, a3], a4);
    ActsNext(c, [a1, a2, a3, a4], a5);
    ActsNext(c, [a1, a2, a3, a4, a5], a6);
    hide Acts;
    assert [a1] + [a2] == [a1, a2] && [a1, a2] + [a3] == [a1, a2, a3] && [a1, a2, a3] + [a4] == [a1, a2, a3, a4];
    assert [a1, a2, a3, a4] + [a5] == [a1, a2, a3, a4, a5] && [a1, a2, a3, a4, a5] + [a6] == [a1, a2, a3, a4, a5, a6];
  }
}
