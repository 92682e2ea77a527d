// The output side of a connection and its close machine, base/TcpConnection.cpp: partial
// writes, the callback that supplies more data, and the shutdown that waits for the output.
// What a connection does is given on values; the class is proved against it, and the laws of
// a connection are proved for every run.

module TcpConnections {
  import opened Collections
  import opened Buffers

  /** A connection: the readable bytes of its write buffer, its flags, the write interest of
      its handle and of the poller, and whether the loop has its handle.  The rest is history:
      the bytes given to it and the bytes the socket took, how often the close callback was
      called, what the write buffer held when the handle was deleted, and whether the peer (an
      end of file, a hang-up, a write of no bytes) forced a close. */
  datatype Conn = Conn(
    output: string,
    sendAllDataOut: bool,
    shouldBeClosed: bool,
    closing: bool,
    hasMoreData: bool,
    closeCb: bool,
    moreDataCb: bool,
    writeEnabled: bool,
    polled: bool,
    registered: bool,
    accepted: string,
    sent: string,
    closeCalls: nat,
    left: string,
    forced: bool)

  /** What callbacks and users ask of a connection. */
  datatype Action = SendString(msg: string) | PutData(data: string) | Shutdown | SetMore | UnsetMore

  /** The outcome of write(2). */
  datatype WriteResult = Wrote(n: nat) | WouldBlock | Interrupted | Broken

  /** What happens to a connection: its socket is readable and the message callback acts, its
      socket is writable and the more-data callback acts if it is called, the peer hangs up,
      somebody uses it. */
  datatype Event =
    | Readable(input: ReadResult, actions: seq<Action>)
    | Writable(result: WriteResult, actions: seq<Action>)
    | HangUp
    | Use(action: Action)

  // ------------------------------------------------------------- what a connection does

  /** modHandle, which an unregistered handle does not get. */
  function Rewatched(c: Conn): Conn {
    if c.registered then c.(polled := c.writeEnabled) else c
  }

  function Unregistered(c: Conn): Conn {
    if c.registered then c.(registered := false, polled := false, left := c.output) else c
  }

  function Put(c: Conn, data: string): Conn {
    c.(sendAllDataOut := false, output := c.output + data, accepted := c.accepted + data)
  }

  function Send(c: Conn, msg: string): Conn {
    Put(Rewatched(c.(writeEnabled := true)), msg)
  }

  function Stop(c: Conn): Conn {
    if c.closing then c
    else if !c.sendAllDataOut then c.(shouldBeClosed := true)
    else if c.closeCb then Unregistered(c).(closing := true, closeCalls := c.closeCalls + 1)
    else Unregistered(c)
  }

  function Close(c: Conn): Conn {
    Stop(c.(sendAllDataOut := true))
  }

  function ForceClose(c: Conn): Conn {
    Close(c.(forced := true))
  }

  function Act(c: Conn, a: Action): Conn {
    match a
    case SendString(msg) => Send(c, msg)
    case PutData(data) => Put(c, data)
    case Shutdown => Stop(c)
    case SetMore => c.(hasMoreData := true)
    case UnsetMore => c.(hasMoreData := false)
  }

  function Acts(c: Conn, actions: seq<Action>): Conn {
    if actions == [] then c else Act(Acts(c, actions[..|actions| - 1]), actions[|actions| - 1])
  }

  function Written(c: Conn, n: nat): Conn
    requires n <= |c.output|
  {
    c.(output := c.output[n..], sent := c.sent + c.output[..n])
  }

  function Settle(c: Conn): Conn {
    if c.output != "" then c
    else if c.shouldBeClosed then Close(c.(sendAllDataOut := true))
    else Rewatched(c.(sendAllDataOut := true, writeEnabled := false))
  }

  function Write(c: Conn, result: WriteResult, actions: seq<Action>): Conn
    requires result.Wrote? ==> result.n <= |c.output|
  {
    match result
    case Wrote(n) =>
      if n == 0 then
        if c.closing then c else ForceClose(c)
      else if c.hasMoreData && c.moreDataCb then
        Settle(Acts(Written(c, n), actions))
      else
        Settle(Written(c, n))
    case _ => c
  }

  function Read(c: Conn, input: ReadResult, actions: seq<Action>): Conn {
    match input
    case Failed(_) => c
    case Received(data) =>
      if data != "" then Acts(c, actions) else if c.closing then c else ForceClose(c)
  }

  predicate Possible(c: Conn, e: Event) {
    e.Writable? && e.result.Wrote? ==> e.result.n <= |c.output|
  }

  function Step(c: Conn, e: Event): Conn
    requires Possible(c, e)
  {
    match e
    case Readable(input, actions) => Read(c, input, actions)
    case Writable(result, actions) => Write(c, result, actions)
    case HangUp => ForceClose(c)
    case Use(action) => Act(c, action)
  }

  /** Where events lead; None when one of them is not possible where it happens. */
  function After(start: Conn, events: seq<Event>): Option<Conn> {
    if events == [] then Some(start)
    else
      var e := events[|events| - 1];
      match After(start, events[..|events| - 1])
      case None => None
      case Some(c) => if Possible(c, e) then Some(Step(c, e)) else None
  }

  /** A run: each event is possible when it happens. */
  predicate Run(start: Conn, events: seq<Event>, end: Conn) {
    After(start, events) == Some(end)
  }

  /** A connection as the constructor leaves it, after its callbacks are set; hasMoreData_ has
      no initial value. */
  predicate Fresh(c: Conn) {
    && c.output == c.accepted == c.sent == c.left == ""
    && c.sendAllDataOut && !c.shouldBeClosed && !c.closing
    && c.registered && !c.writeEnabled && !c.polled
    && c.closeCalls == 0 && !c.forced
  }

  // ------------------------------------------------------------- what every run keeps

  /** No byte is lost or reordered; a registered connection that says that all its data is out
      has none; the close callback runs once at most; a handle that is deleted with output
      left was forced; the poller watches for writing as the handle asks. */
  predicate Inv(c: Conn) {
    && c.accepted == c.sent + c.output
    && (c.registered && c.sendAllDataOut ==> c.output == "")
    && (c.closing ==> !c.registered)
    && (c.closeCb && !c.registered ==> c.closing)
    && c.closeCalls == (if c.closing then 1 else 0)
    && (c.left != "" ==> c.forced)
    && (c.polled <==> c.registered && c.writeEnabled)
  }

  lemma ForceCloseKeepsInv(c: Conn)
    requires Inv(c)
    ensures Inv(ForceClose(c)) && !ForceClose(c).registered
  {
  }

  lemma StopKeepsInv(c: Conn)
    requires Inv(c)
    ensures Inv(Stop(c))
  {
  }

  lemma PutKeepsInv(c: Conn, data: string)
    requires Inv(c)
    ensures Inv(Put(c, data))
  {
    assert c.sent + c.output + data == c.sent + (c.output + data);
  }

  lemma EnabledKeepsInv(c: Conn)
    requires Inv(c)
    ensures Inv(Rewatched(c.(writeEnabled := true)))
  {
  }

  lemma ActKeepsInv(c: Conn, a: Action)
    requires Inv(c)
    ensures Inv(Act(c, a))
  {
    match a
    case SendString(msg) =>
      hide Inv, Put, Rewatched;
      EnabledKeepsInv(c);
      PutKeepsInv(Rewatched(c.(writeEnabled := true)), msg);
    case PutData(data) => PutKeepsInv(c, data);
    case Shutdown => StopKeepsInv(c);
    case SetMore =>
    case UnsetMore =>
  }

  lemma {:induction false} ActsKeepInv(c: Conn, actions: seq<Action>)
    requires Inv(c)
    ensures Inv(Acts(c, actions))
  {
    if actions != [] {
      ActsKeepInv(c, actions[..|actions| - 1]);
      ActKeepsInv(Acts(c, actions[..|actions| - 1]), actions[|actions| - 1]);
    }
  }

  lemma WrittenKeepsInv(c: Conn, n: nat)
    requires Inv(c) && n <= |c.output|
    ensures Inv(Written(c, n))
  {
    assert c.output == c.output[..n] + c.output[n..];
  }

  lemma DrainedKeepsInv(c: Conn)
    requires Inv(c) && c.output == ""
    ensures Inv(c.(sendAllDataOut := true))
    ensures Inv(Rewatched(c.(sendAllDataOut := true, writeEnabled := false)))
  {
  }

  lemma SettleKeepsInv(c: Conn)
    requires Inv(c)
    ensures Inv(Settle(c))
  {
    hide Inv, Stop, Rewatched;
    if c.output == "" {
      DrainedKeepsInv(c);
      StopKeepsInv(c.(sendAllDataOut := true));
    }
  }

  lemma StepKeepsInv(c: Conn, e: Event)
    requires Inv(c) && Possible(c, e)
    ensures Inv(Step(c, e))
  {
    hide Inv, Acts, Act, Settle, ForceClose, Written;
    match e
    case Readable(input, actions) =>
      ActsKeepInv(c, actions);
      ForceCloseKeepsInv(c);
    case HangUp =>
      ForceCloseKeepsInv(c);
    case Use(action) =>
      ActKeepsInv(c, action);
    case Writable(result, actions) =>
      ForceCloseKeepsInv(c);
      if result.Wrote? {
        WrittenKeepsInv(c, result.n);
        ActsKeepInv(Written(c, result.n), actions);
        SettleKeepsInv(Acts(Written(c, result.n), actions));
        SettleKeepsInv(Written(c, result.n));
      }
  }

  lemma {:induction false} RunKeepsInv(start: Conn, events: seq<Event>, end: Conn)
    requires Fresh(start) && Run(start, events, end)
    ensures Inv(end)
    decreases |events|
  {
    if events != [] {
      var n := |events| - 1;
      var c := After(start, events[..n]).value;
      RunKeepsInv(start, events[..n], c);
      StepKeepsInv(c, events[n]);
    }
  }

  // ------------------------------------------------------------- graceful close

  /** The peer's ways to force a close. */
  predicate Forces(e: Event) {
    match e
    case Readable(input, _) => input.Received? && input.data == ""
    case Writable(result, _) => result == Wrote(0)
    case HangUp => true
    case Use(_) => false
  }

  /** What no action changes. */
  predicate Kin(c: Conn, d: Conn) {
    d.forced == c.forced && d.sent == c.sent && d.closeCb == c.closeCb && d.moreDataCb == c.moreDataCb
  }

  lemma StopIsKin(c: Conn)
    ensures Kin(c, Stop(c))
  {
  }

  lemma SendIsKin(c: Conn, msg: string)
    ensures Kin(c, Send(c, msg))
  {
  }

  lemma ActIsKin(c: Conn, a: Action)
    ensures Kin(c, Act(c, a))
  {
    hide Stop, Send;
    StopIsKin(c);
    if a.SendString? {
      SendIsKin(c, a.msg);
    }
  }

  lemma {:induction false} ActsAreKin(c: Conn, actions: seq<Action>)
    ensures Kin(c, Acts(c, actions))
  {
    hide Act;
    if actions != [] {
      ActsAreKin(c, actions[..|actions| - 1]);
      ActIsKin(Acts(c, actions[..|actions| - 1]), actions[|actions| - 1]);
    }
  }

  lemma ForceCloseForces(c: Conn)
    ensures ForceClose(c).closeCb == c.closeCb
  {
    hide Stop;
    StopIsKin(c.(forced := true, sendAllDataOut := true));
  }

  lemma SettleForces(c: Conn)
    ensures Settle(c).closeCb == c.closeCb && Settle(c).forced == c.forced
  {
    hide Stop;
    StopIsKin(c.(sendAllDataOut := true));
  }

  lemma WrittenForces(c: Conn, n: nat)
    requires n <= |c.output|
    ensures Written(c, n).forced == c.forced && Written(c, n).closeCb == c.closeCb
    ensures Written(c, n).registered == c.registered
  {
  }

  lemma KinForces(c: Conn, d: Conn)
    requires Kin(c, d)
    ensures d.forced == c.forced && d.closeCb == c.closeCb
  {
  }

  lemma ForcedByEvent(c: Conn, e: Event)
    requires Possible(c, e)
    ensures (Step(c, e).forced ==> c.forced || Forces(e)) && Step(c, e).closeCb == c.closeCb
  {
    hide Acts, Act, Settle, ForceClose, Written, Kin;
    ForceCloseForces(c);
    match e
    case Readable(input, actions) =>
      ActsAreKin(c, actions);
      KinForces(c, Acts(c, actions));
    case Writable(result, actions) =>
      if result.Wrote? {
        var w := Written(c, result.n);
        WrittenForces(c, result.n);
        ActsAreKin(w, actions);
        KinForces(w, Acts(w, actions));
        SettleForces(w);
        SettleForces(Acts(w, actions));
      }
    case HangUp =>
    case Use(action) =>
      ActIsKin(c, action);
      KinForces(c, Act(c, action));
  }

  lemma {:induction false} ForcedByRun(start: Conn, events: seq<Event>, end: Conn)
    requires Fresh(start) && Run(start, events, end)
    ensures end.forced ==> exists i :: 0 <= i < |events| && Forces(events[i])
    ensures end.closeCb == start.closeCb
    decreases |events|
  {
    if events != [] {
      var n := |events| - 1;
      var c := After(start, events[..n]).value;
      ForcedByEvent(c, events[n]);
      ForcedByRun(start, events[..n], c);
      if c.forced {
        var i :| 0 <= i < n && Forces(events[..n][i]);
        assert Forces(events[i]);
      }
    }
  }

  /** Each of them deletes the handle and, with a close callback, has called it, once. */
  lemma ForcingCloses(c: Conn, e: Event)
    requires Inv(c) && Possible(c, e) && Forces(e)
    ensures !Step(c, e).registered && (c.closeCb ==> Step(c, e).closing && Step(c, e).closeCalls == 1)
  {
    ForceCloseKeepsInv(c);
    ForceCloseForces(c);
    match e
    case Readable(input, actions) => hide Acts, ForceClose;
    case Writable(result, actions) => hide Acts, ForceClose, Settle, Written;
    case HangUp => hide ForceClose;
    case Use(_) =>
  }

  lemma ActStaysGone(c: Conn, a: Action)
    ensures Act(c, a).registered ==> c.registered
  {
    ActWakes(c, a);
    hide Act;
  }

  lemma {:induction false} ActsStayGone(c: Conn, actions: seq<Action>)
    ensures Acts(c, actions).registered ==> c.registered
  {
    ActsWake(c, actions);
    hide Acts;
  }

  lemma SettleStaysGone(c: Conn)
    ensures Settle(c).registered ==> c.registered
  {
    StopWakes(c.(sendAllDataOut := true));
    hide Stop;
  }

  lemma ForceCloseStaysGone(c: Conn)
    ensures ForceClose(c).registered ==> c.registered
  {
    StopWakes(c.(forced := true, sendAllDataOut := true));
    hide Stop;
  }

  /** A handle that is gone does not come back. */
  lemma StepStaysGone(c: Conn, e: Event)
    requires Possible(c, e)
    ensures Step(c, e).registered ==> c.registered
  {
    hide Acts, Act, Settle, ForceClose, Written;
    ForceCloseStaysGone(c);
    match e
    case Readable(input, actions) => ActsStayGone(c, actions);
    case Writable(result, actions) =>
      if result.Wrote? {
        var w := Written(c, result.n);
        WrittenForces(c, result.n);
        ActsStayGone(w, actions);
        SettleStaysGone(w);
        SettleStaysGone(Acts(w, actions));
      }
    case HangUp =>
    case Use(a) => ActStaysGone(c, a);
  }

  /** So after an end of file, a hang-up or a write of no bytes the handle is gone for the rest of
      the run, whatever was in the buffer and whatever is asked for later. */
  lemma {:induction false} ForcedRunCloses(start: Conn, events: seq<Event>, end: Conn, i: nat)
    requires Fresh(start) && Run(start, events, end) && i < |events| && Forces(events[i])
    ensures !end.registered && (start.closeCb ==> end.closing && end.closeCalls == 1)
    decreases |events|
  {
    var n := |events| - 1;
    var c := After(start, events[..n]).value;
    RunKeepsInv(start, events[..n], c);
    RunKeepsInv(start, events, end);
    ForcedByRun(start, events, end);
    hide Step, Forces;
    if i == n {
      ForcingCloses(c, events[n]);
    } else {
      assert events[..n][i] == events[i];
      ForcedRunCloses(start, events[..n], c, i);
      StepStaysGone(c, events[n]);
    }
  }

  /** On a run in which the peer forces nothing, whatever shutdowns are asked for and whenever,
      the handle is deleted only when every byte given to the connection has been written. */
  lemma GracefulClose(start: Conn, events: seq<Event>, end: Conn)
    requires Fresh(start) && Run(start, events, end)
    requires forall i :: 0 <= i < |events| ==> !Forces(events[i])
    ensures end.left == ""
    ensures end.closeCalls <= 1 && (start.closeCb ==> (end.closeCalls == 1 <==> !end.registered))
    ensures end.registered && end.sendAllDataOut ==> end.sent == end.accepted
  {
    RunKeepsInv(start, events, end);
    ForcedByRun(start, events, end);
  }

  /** And a shutdown that was asked for happens as soon as the output is out: the write that
      empties the buffer without a refill deletes the handle and calls the close callback. */
  lemma ShutdownHappens(c: Conn, actions: seq<Action>)
    requires Inv(c) && c.registered && c.output != "" && c.shouldBeClosed && c.closeCb
    requires !(c.hasMoreData && c.moreDataCb)
    ensures
      var d := Step(c, Writable(Wrote(|c.output|), actions));
      !d.registered && d.closing && d.closeCalls == 1 && d.left == "" && d.sent == d.accepted
  {
    WrittenKeepsInv(c, |c.output|);
  }

  // ------------------------------------------------------------- writes of nothing

  /** The loop watches for writing only while there is something to write. */
  predicate Purposeful(c: Conn) {
    c.registered && c.writeEnabled ==> c.output != ""
  }

  /** What a request puts into the buffer. */
  function Text(a: Action): string {
    match a
    case SendString(msg) => msg
    case PutData(data) => data
    case _ => ""
  }

  function Texts(actions: seq<Action>): string {
    if actions == [] then "" else Texts(actions[..|actions| - 1]) + Text(actions[|actions| - 1])
  }

  /** Some message is sent, empty or not. */
  predicate Sends(actions: seq<Action>) {
    exists i :: 0 <= i < |actions| && actions[i].SendString?
  }

  /** The event makes the loop watch for writing with nothing to write: on a connection that has no
      output and stays registered, messages are sent but no byte with them. */
  predicate Harmful(c: Conn, e: Event) {
    match e
    case Readable(input, actions) =>
      && input.Received? && input.data != "" && c.output == ""
      && Sends(actions) && Texts(actions) == "" && Acts(c, actions).registered
    case Use(a) => a == SendString("") && c.registered && c.output == ""
    case _ => false
  }

  /** What requests can change of output, registration and write interest. */
  predicate Wakes(c: Conn, d: Conn, text: string, sends: bool) {
    && d.output == c.output + text && (d.registered ==> c.registered)
    && (d.writeEnabled <==> c.writeEnabled || sends)
  }

  lemma ActWakes(c: Conn, a: Action)
    ensures Wakes(c, Act(c, a), Text(a), a.SendString?)
  {
    match a
    case SendString(msg) => SendWakes(c, msg);
    case PutData(data) =>
    case Shutdown => StopWakes(c);
    case SetMore => hide Stop, Send;
    case UnsetMore => hide Stop, Send;
  }

  lemma SendWakes(c: Conn, msg: string)
    ensures Wakes(c, Send(c, msg), msg, true)
  {
  }

  lemma StopWakes(c: Conn)
    ensures Wakes(c, Stop(c), "", false)
  {
    assert c.output + "" == c.output;
    if c.closing || !c.sendAllDataOut {
      StopsLater(c);
      hide Stop;
    } else {
      StopsNow(c);
      UnregisteredKeeps(c);
      hide Stop, Unregistered;
    }
  }

  lemma StopsLater(c: Conn)
    requires c.closing || !c.sendAllDataOut
    ensures Stop(c) == if c.closing then c else c.(shouldBeClosed := true)
  {
    hide Unregistered;
  }

  lemma StopsNow(c: Conn)
    requires !c.closing && c.sendAllDataOut
    ensures Stop(c)
         == Unregistered(c).(closing := c.closeCb, closeCalls := if c.closeCb then c.closeCalls + 1 else c.closeCalls)
  {
  }

  lemma UnregisteredKeeps(c: Conn)
    ensures Unregistered(c).output == c.output && Unregistered(c).writeEnabled == c.writeEnabled
    ensures Unregistered(c).registered ==> c.registered
  {
  }

  lemma {:induction false} ActsWake(c: Conn, actions: seq<Action>)
    ensures Wakes(c, Acts(c, actions), Texts(actions), Sends(actions))
  {
    hide Act;
    if actions != [] {
      var n := |actions| - 1;
      ActsWake(c, actions[..n]);
      ActWakes(Acts(c, actions[..n]), actions[n]);
      SendsUnfolds(actions);
      assert c.output + Texts(actions[..n]) + Text(actions[n]) == c.output + (Texts(actions[..n]) + Text(actions[n]));
      hide Sends, Text;
    }
  }

  lemma SendsUnfolds(actions: seq<Action>)
    requires actions != []
    ensures Sends(actions) <==> Sends(actions[..|actions| - 1]) || actions[|actions| - 1].SendString?
  {
    var init := actions[..|actions| - 1];
    if Sends(init) {
      var i :| 0 <= i < |init| && init[i].SendString?;
      assert actions[i].SendString?;
    }
    if Sends(actions) && !actions[|actions| - 1].SendString? {
      var i :| 0 <= i < |actions| && actions[i].SendString?;
      assert init[i].SendString?;
    }
  }

  lemma CloseIsPurposeful(c: Conn)
    requires Purposeful(c)
    ensures Purposeful(ForceClose(c))
  {
  }

  lemma SettleIsPurposeful(c: Conn)
    requires Inv(c)
    ensures Purposeful(Settle(c))
  {
  }

  lemma UseIsPurposeful(c: Conn, a: Action)
    requires Purposeful(c)
    ensures Purposeful(Act(c, a)) <==> !Harmful(c, Use(a))
  {
  }

  /** Exactly the harmful events lead there. */
  lemma StepIsPurposeful(c: Conn, e: Event)
    requires Inv(c) && Possible(c, e) && Purposeful(c)
    ensures Purposeful(Step(c, e)) <==> !Harmful(c, e)
  {
    match e
    case Readable(input, actions) =>
      hide Acts, ForceClose, Texts, Sends;
      CloseIsPurposeful(c);
      ActsWake(c, actions);
    case Writable(result, actions) =>
      hide Inv, Acts, Settle, ForceClose, Written, Purposeful;
      CloseIsPurposeful(c);
      if result.Wrote? {
        var w := Written(c, result.n);
        WrittenKeepsInv(c, result.n);
        ActsKeepInv(w, actions);
        SettleIsPurposeful(w);
        SettleIsPurposeful(Acts(w, actions));
      }
    case HangUp =>
      hide ForceClose, Purposeful;
      CloseIsPurposeful(c);
    case Use(action) =>
      hide Act, Purposeful;
      UseIsPurposeful(c, action);
  }

  /** No event of the run is harmful where it happens. */
  predicate Harmless(start: Conn, events: seq<Event>) {
    events == []
    || var n := |events| - 1;
       var before := After(start, events[..n]);
       Harmless(start, events[..n]) && (before.Some? ==> !Harmful(before.value, events[n]))
  }

  /** At no moment of the run does the loop watch for writing with nothing to write. */
  predicate WatchesOutput(start: Conn, events: seq<Event>) {
    && (events != [] ==> WatchesOutput(start, events[..|events| - 1]))
    && var now := After(start, events);
       now.Some? ==> now.value.polled ==> now.value.output != ""
  }

  /** The loop watches for writing only while there are bytes to write, so that a write of no
      bytes is the peer's doing, throughout a run exactly if none of its events is harmful. */
  lemma {:induction false} WatchedMeansOutput(start: Conn, events: seq<Event>)
    requires Fresh(start) && After(start, events).Some?
    ensures Harmless(start, events) <==> WatchesOutput(start, events)
    ensures WatchesOutput(start, events) ==> Purposeful(After(start, events).value)
    decreases |events|
  {
    hide Harmful, Step, Possible;
    RunKeepsInv(start, events, After(start, events).value);
    if events != [] {
      var n := |events| - 1;
      var c := After(start, events[..n]).value;
      RunKeepsInv(start, events[..n], c);
      WatchedMeansOutput(start, events[..n]);
      if WatchesOutput(start, events[..n]) {
        StepIsPurposeful(c, events[n]);
      }
    }
  }

  /** An empty message on an idle connection closes it at the next writable event, although
      nobody asked for that. */
  lemma EmptyMessageCloses(c: Conn, actions: seq<Action>)
    requires Inv(c) && c.registered && c.output == "" && c.closeCb
    ensures
      var watched := Act(c, SendString(""));
      watched.polled && forall n :: Possible(watched, Writable(Wrote(n), actions)) ==>
        Step(watched, Writable(Wrote(n), actions)).closing
  {
  }

  // ------------------------------------------------------------- the class

  class TcpConnection {
    const readBuffer: Buffer
    const writeBuffer: Buffer
    var sendAllDataOut: bool
    var shouldBeClosed: bool
    var closing: bool
    var hasMoreData: bool
    var closeCb: bool                  // a close callback is set
    var moreDataCb: bool               // a more-data callback is set
    var writeEnabled: bool             // the events of the handle contain kWriteEvent
    var polled: bool                   // the poller watches for writing
    var registered: bool               // the loop has the handle
    ghost var accepted: string
    ghost var sent: string
    ghost var closeCalls: nat
    ghost var left: string
    ghost var forced: bool

    ghost predicate Valid()
      reads this, readBuffer, writeBuffer, readBuffer.buffer, writeBuffer.buffer
    {
      && readBuffer != writeBuffer && readBuffer.buffer != writeBuffer.buffer
      && readBuffer.Valid() && writeBuffer.Valid()
    }

    ghost function View(): Conn
      reads this, writeBuffer, writeBuffer.buffer
      requires writeBuffer.Valid()
    {
      Conn(writeBuffer.Contents(), sendAllDataOut, shouldBeClosed, closing, hasMoreData, closeCb, moreDataCb,
           writeEnabled, polled, registered, accepted, sent, closeCalls, left, forced)
    }

    /** hasMoreData is whatever the storage held. */
    constructor (garbage: bool)
      ensures Valid() && Fresh(View()) && !closeCb && !moreDataCb && hasMoreData == garbage
      ensures readBuffer.Contents() == ""
      ensures fresh(readBuffer) && fresh(writeBuffer) && fresh(readBuffer.buffer) && fresh(writeBuffer.buffer)
    {
      readBuffer := new Buffer(1024);
      writeBuffer := new Buffer(1024);
      sendAllDataOut, shouldBeClosed, closing, hasMoreData := true, false, false, garbage;
      closeCb, moreDataCb, writeEnabled, polled, registered := false, false, false, false, true;
      accepted, sent, closeCalls, left, forced := "", "", 0, "", false;
    }

    method SetOnCloseCallBack()
      requires Valid()
      modifies `closeCb
      ensures Valid() && View() == old(View()).(closeCb := true)
    {
      closeCb := true;
    }

    method SetHasMoreDataCallback()
      requires Valid()
      modifies `moreDataCb
      ensures Valid() && View() == old(View()).(moreDataCb := true)
    {
      moreDataCb := true;
    }

    method SetHasMoreData()
      requires Valid()
      modifies `hasMoreData
      ensures Valid() && View() == Act(old(View()), SetMore)
    {
      hasMoreData := true;
    }

    method UnsetHasMoreData()
      requires Valid()
      modifies `hasMoreData
      ensures Valid() && View() == Act(old(View()), UnsetMore)
    {
      hasMoreData := false;
    }

    /** modHandle, as the owner of the loop. */
    method ModHandle()
      requires Valid()
      modifies `polled
      ensures Valid() && View() == Rewatched(old(View()))
    {
      if registered {
        polled := writeEnabled;
      }
    }

    /** delHandle, as the owner of the loop. */
    method DelHandle()
      requires Valid()
      modifies `registered, `polled, `left
      ensures Valid() && View() == Unregistered(old(View()))
    {
      if registered {
        left := writeBuffer.Contents();
        registered, polled := false, false;
      }
    }

    /** sendString, sendData */
    method SendString(msg: string)
      requires Valid()
      modifies this, writeBuffer, writeBuffer.buffer
      ensures Valid() && View() == Act(old(View()), Action.SendString(msg))
      ensures writeBuffer.buffer == old(writeBuffer.buffer) || fresh(writeBuffer.buffer)
    {
      writeEnabled := true;
      ModHandle();
      PutDataToWriteBuffer(msg);
    }

    method PutDataToWriteBuffer(data: string)
      requires Valid()
      modifies this, writeBuffer, writeBuffer.buffer
      ensures Valid() && View() == Act(old(View()), PutData(data))
      ensures writeBuffer.buffer == old(writeBuffer.buffer) || fresh(writeBuffer.buffer)
    {
      sendAllDataOut := false;
      writeBuffer.Append(data);
      accepted := accepted + data;
    }

    /** The close callback is called once the flag is set. */
    method CallCloseCb()
      requires Valid()
      modifies `closing, `closeCalls
      ensures Valid() && View() == old(View()).(closing := true, closeCalls := old(closeCalls) + 1)
    {
      closing := true;
      closeCalls := closeCalls + 1;
    }

    method Shutdown()
      requires Valid()
      modifies this
      ensures Valid() && View() == Act(old(View()), Action.Shutdown)
    {
      hide Unregistered;
      if closing {
        return;
      }
      if sendAllDataOut {
        DelHandle();
        if closeCb {
          CallCloseCb();
        }
      } else {
        shouldBeClosed := true;
      }
    }

    method HandleClose()
      requires Valid()
      modifies this
      ensures Valid() && View() == Close(old(View()))
    {
      hide Stop;
      sendAllDataOut := true;
      Shutdown();
    }

    /** handleClose called by the loop on a hang-up. */
    method HandleHangUp()
      requires Valid()
      modifies this
      ensures Valid() && View() == Step(old(View()), HangUp)
    {
      hide Stop;
      forced := true;
      HandleClose();
    }

    /** clearInLoop, which the close callback has queued: its assertion holds. */
    method ClearInLoop()
      requires Valid() && Inv(View()) && closeCalls > 0
      ensures closing
    {
      assert closing;
    }

    /** One request of a callback or a user. */
    method Perform(a: Action)
      requires Valid()
      modifies this, writeBuffer, writeBuffer.buffer
      ensures Valid() && View() == Act(old(View()), a)
      ensures writeBuffer.buffer == old(writeBuffer.buffer) || fresh(writeBuffer.buffer)
    {
      match a
      case SendString(msg) => SendString(msg);
      case PutData(data) => PutDataToWriteBuffer(data);
      case Shutdown => Shutdown();
      case SetMore => SetHasMoreData();
      case UnsetMore => UnsetHasMoreData();
    }

    /** A callback. */
    method PerformAll(actions: seq<Action>)
      requires Valid()
      modifies this, writeBuffer, writeBuffer.buffer
      ensures Valid() && View() == Acts(old(View()), actions)
      ensures writeBuffer.buffer == old(writeBuffer.buffer) || fresh(writeBuffer.buffer)
    {
      hide Act;
      for i := 0 to |actions|
        invariant Valid() && View() == Acts(old(View()), actions[..i])
        invariant writeBuffer.buffer == old(writeBuffer.buffer) || fresh(writeBuffer.buffer)
      {
        assert actions[..i + 1][..i] == actions[..i];
        Perform(actions[i]);
      }
      assert actions[..|actions|] == actions;
    }

    /** handleRead: the message callback is run when bytes arrived; an end of file closes. */
    method HandleRead(input: ReadResult, actions: seq<Action>)
      requires Valid()
      requires input.Received? ==> |input.data| <= readBuffer.WritableBytes() + EXTRA
      modifies this, readBuffer, readBuffer.buffer, writeBuffer, writeBuffer.buffer
      ensures Valid() && View() == Step(old(View()), Readable(input, actions))
      ensures readBuffer.Contents() == old(readBuffer.Contents()) + if input.Received? then input.data else ""
    {
      hide Act, Acts, Stop;
      var n, _ := readBuffer.ReadFd(input);
      assert View() == old(View());
      if n == 0 {
        if !closing {
          forced := true;
          HandleClose();
        }
      } else if n > 0 {
        PerformAll(actions);
      }
    }

    /** The attempts of one writable event end with one that was not interrupted. */
    ghost predicate Attempted(attempts: seq<WriteResult>)
      reads writeBuffer, writeBuffer.buffer
      requires writeBuffer.Valid()
    {
      && attempts != []
      && (forall i :: 0 <= i < |attempts| - 1 ==> attempts[i] == Interrupted)
      && attempts[|attempts| - 1] != Interrupted
      && (attempts[|attempts| - 1].Wrote? ==> attempts[|attempts| - 1].n <= |writeBuffer.Contents()|)
    }

    /** write(2) until it is not interrupted. */
    method TryWrite(attempts: seq<WriteResult>) returns (result: WriteResult)
      requires Valid() && Attempted(attempts)
      ensures result == attempts[|attempts| - 1]
    {
      var i := 0;
      while attempts[i] == Interrupted
        invariant 0 <= i < |attempts|
        decreases |attempts| - i
      {
        i := i + 1;
      }
      result := attempts[i];
    }

    /** What handleWrite does before it calls the callback. */
    method TakeWritten(n: nat)
      requires Valid() && n <= |writeBuffer.Contents()|
      modifies `sent, writeBuffer`readerIndex, writeBuffer`writerIndex
      ensures Valid() && View() == Written(old(View()), n)
      ensures |writeBuffer.Contents()| == old(|writeBuffer.Contents()|) - n
    {
      sent := sent + writeBuffer.Contents()[..n];
      writeBuffer.Retrieve(n);
    }

    /** What handleWrite does after it. */
    method FinishWrite(readable: nat)
      requires Valid() && readable == |writeBuffer.Contents()|
      modifies this
      ensures Valid() && View() == Settle(old(View()))
    {
      hide Stop, Rewatched;
      if readable == 0 {
        sendAllDataOut := true;
        if shouldBeClosed {
          HandleClose();
        } else {
          writeEnabled := false;
          ModHandle();
        }
      }
    }

    /** What handleWrite does when write(2) took nothing. */
    method GiveUp()
      requires Valid()
      modifies this
      ensures Valid() && View() == if old(closing) then old(View()) else ForceClose(old(View()))
    {
      hide Stop;
      if !closing {
        sendAllDataOut := true;
        forced := true;
        HandleClose();
      }
    }

    /** handleWrite, with the requests that the more-data callback makes if it is called. */
    method HandleWrite(attempts: seq<WriteResult>, actions: seq<Action>)
      requires Valid() && Attempted(attempts)
      modifies this, writeBuffer, writeBuffer.buffer
      ensures Valid() && View() == Step(old(View()), Writable(attempts[|attempts| - 1], actions))
      ensures writeBuffer.buffer == old(writeBuffer.buffer) || fresh(writeBuffer.buffer)
    {
      hide Act, Acts, ForceClose, Settle, Written;
      var readable := writeBuffer.ReadableBytes();
      var result := TryWrite(attempts);
      match result
      case Wrote(n) =>
        if n == 0 {
          GiveUp();
        } else {
          readable := readable - n;
          TakeWritten(n);
          if hasMoreData && moreDataCb {
            PerformAll(actions);
            readable := writeBuffer.ReadableBytes();
          }
          FinishWrite(readable);
        }
      case _ =>
    }
  }
}
