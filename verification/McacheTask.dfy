// The memcached task machine of mdm/mcacheTask.cpp: it takes a command line from the buffer,
// waits for the data of a storage command, and forwards both to the node of the key.  What the
// node does is given with each call.

module McacheTasks {
  import opened Collections
  import opened Decimals
  import opened Text
  import opened Buffers
  import opened UtilStrings

  datatype TaskState = BAD | BEGIN_NEW_TASK | PARSE_PROTOCOL | BEGIN_HANDLE_CMD | WAIT_ENOUGH_DATA | GET_ALL_DATA

  datatype Task = Task(
    state: TaskState,
    head: string,
    items: seq<string>,
    verb: string,
    key: string,
    keys: seq<string>,
    flag: string,
    exptime: string,
    bytes: int,
    casUnique: string,
    noreply: string)

  /** The task that renew() leaves. */
  const NEW: Task := Task(BEGIN_NEW_TASK, "", [], "", "", [], "", "", 0, "", "")

  /** What the nodes do during one call: whether the node of the key can be reached and takes
      the head and the data, the line it answers with if any; what comes of the nodes of a
      retrieval, in the order in which poll reports them, or None when no node can be asked;
      and what is found beyond the last item of a touch command. */
  datatype Backend = Backend(
    connects: bool,
    takesHead: bool,
    takesBody: bool,
    reply: Option<string>,
    retrieved: Option<seq<NodeEvent>>,
    stray: string)

  /** One node of a retrieval: the key it is asked for, whether its connection failed, whether it
      takes the head, and what it answers before its END, if it does. */
  datatype NodeEvent = NodeEvent(key: string, broken: bool, takesHead: bool, answer: Option<string>)

  /** Text written to the node of a key. */
  datatype Forward = Forward(key: string, text: string)

  /** What one call leaves: the Task and the buffer, the messages sent to the client and to the
      nodes, and the answer; None stands for an exception of std::string. */
  datatype Outcome = Outcome(
    task: Task,
    content: string,
    replies: seq<string>,
    forwarded: seq<Forward>,
    answer: Option<bool>)

  const NOREPLY: string := "noreply"
  const ERROR: string := "ERROR\r\n"
  const END: string := "END\r\n"
  const SERVER_ERROR: string := "SERVER_ERROR\r\n"
  const BAD_CHUNK: string := "CLIENT_ERROR bad data chunk\r\n"
  const BAD_DELTA: string := "CLIENT_ERROR invalid numeric delta argument\r\n"
  const BAD_DELETE: string := "CLIENT_ERROR bad command line format.  Usage: delete <key> [noreply]\r\n"

  predicate IsStorage(cmd: string) {
    cmd in ["set", "add", "replace", "append", "prepend", "cas"]
  }

  predicate IsRetrieval(cmd: string) {
    cmd in ["get", "gets"]
  }

  predicate IsDelete(cmd: string) {
    cmd == "delete"
  }

  predicate IsIncrDecr(cmd: string) {
    cmd in ["incr", "decr"]
  }

  predicate IsOther(cmd: string) {
    cmd in ["touch", "flush_all", "version", "quit"]
  }

  predicate InCmdSet(cmd: string) {
    IsStorage(cmd) || IsRetrieval(cmd) || IsOther(cmd) || IsIncrDecr(cmd) || IsDelete(cmd)
  }

  // ------------------------------------------------------------- reading a command line

  /** boost::split at spaces, without the empty pieces. */
  function Items(s: string, from: nat): seq<string>
    requires from <= |s|
    decreases |s| - from
  {
    var start := FirstNotOf(s, ' ', from);
    if start == |s| then []
    else
      var end := FirstOf(s, ' ', start);
      [s[start..end]] + Items(s, end)
  }

  /** They are the words of the line, however many spaces are around them. */
  lemma {:induction false} ItemsOfSpread(s: string, from: nat, pads: seq<string>, words: seq<string>)
    requires from <= |s| && Separates(pads, words, ' ') && s[from..] == Spread(pads, words)
    ensures Items(s, from) == words
    decreases |words|
  {
    if words == [] {
      NoItems(s, from, pads);
    } else {
      hide Separates, Spread, Items;
      var first, end := WordAt(s, from, pads, words, ' ');
      ItemsOfSpread(s, end, pads[1..], words[1..]);
      OneItem(s, from, first, end);
      assert words == [words[0]] + words[1..];
    }
  }

  lemma NoItems(s: string, from: nat, pads: seq<string>)
    requires from <= |s| && Separates(pads, [], ' ') && s[from..] == Spread(pads, [])
    ensures Items(s, from) == []
  {
    assert AllAre(pads[0], ' ');
    assert forall i :: from <= i < |s| ==> s[i] == s[from..][i - from];
  }

  lemma OneItem(s: string, from: nat, first: nat, end: nat)
    requires from <= first < end <= |s| && ' ' !in s[first..end]
    requires (forall i :: from <= i < first ==> s[i] == ' ') && (end < |s| ==> s[end] == ' ')
    ensures Items(s, from) == [s[first..end]] + Items(s, end)
  {
    assert s[first] in s[first..end];
    assert forall i :: first <= i < end ==> s[i] in s[first..end];
    assert FirstNotOf(s, ' ', from) == first && FirstOf(s, ' ', first) == end;
  }

  // ------------------------------------------------------------- what a call does

  function Refused(content: string, message: string): Outcome {
    Outcome(NEW, content, [message], [], Some(false))
  }

  function Failed(t: Task, content: string, forwarded: seq<Forward>): Outcome {
    Outcome(t.(state := BAD), content, [SERVER_ERROR], forwarded, Some(false))
  }

  /** The exchange with the node of the key; data is the whole buffer of a storage command. */
  function Relay(t: Task, content: string, storing: bool, b: Backend): Outcome {
    var u := t.(head := t.head + CRLF);
    var head := Forward(t.key, t.head + CRLF);
    if !b.connects then Failed(t, content, [])
    else if !b.takesHead then Failed(u, content, [])
    else if storing && !b.takesBody then Failed(u, content, [head])
    else
      var sent := if storing then [head, Forward(t.key, content)] else [head];
      var left := if storing then "" else content;
      if t.noreply == NOREPLY then Outcome(NEW, left, [], sent, Some(true))
      else if b.reply == None || b.reply == Some("") then Failed(u, left, sent)
      else Outcome(NEW, left, [b.reply.value + CRLF], sent, Some(true))
  }

  /** What follows the count in a storage command; None when cas has nothing there. */
  function StorageOptions(u: Task): Option<Task>
    requires |u.items| >= 5
  {
    var n := |u.items|;
    if u.verb == "cas" then
      if n == 5 then None
      else Some(u.(casUnique := u.items[5], noreply := if n == 7 then u.items[6] else u.noreply))
    else
      Some(u.(noreply := if n == 6 then u.items[5] else u.noreply))
  }

  /** What the head of a storage command says; None when it is refused. */
  function StorageHead(t: Task): Option<Task>
    requires t.items != []
  {
    if |t.items| < 5 || |t.items| > 7 then None
    else
      StorageOptions(t.(verb := t.items[0], key := t.items[1], flag := t.items[2], exptime := t.items[3],
                        bytes := Atoi(t.items[4]), state := WAIT_ENOUGH_DATA))
  }

  /** The data is complete when it and its CRLF are there.  The count is compared as a size_t,
      so one below -2 is never reached; the end is then cut out of a copy of the buffer that
      stops at the first NUL, and cutting beyond its end throws. */
  function StorageData(t: Task, content: string, b: Backend): Outcome {
    if t.bytes + 2 < 0 || |content| < t.bytes + 2 then Outcome(t, content, [], [], Some(true))
    else if t.bytes < 0 || '\0' in content[..t.bytes] then Outcome(t, content, [], [], None)
    else if content[t.bytes..t.bytes + 2] != CRLF then Outcome(NEW, "", [BAD_CHUNK, ERROR], [], Some(false))
    else Relay(t.(state := GET_ALL_DATA), content, true, b)
  }

  function Renewed(content: string): Outcome {
    Outcome(NEW, content, [], [], Some(true))
  }

  function HandleStorage(t: Task, content: string, b: Backend): Outcome
    requires t.items != []
  {
    if t.state == BEGIN_HANDLE_CMD then
      match StorageHead(t)
      case None => Refused(content, ERROR)
      case Some(u) => StorageData(u, content, b)
    else if t.state == WAIT_ENOUGH_DATA then StorageData(t, content, b)
    else Renewed(content)
  }

  /** What a retrieval has sent to the client and to the nodes, and whether a failed connection
      has ended it. */
  datatype Gathered = Gathered(replies: seq<string>, forwarded: seq<Forward>, broken: bool)

  function Gather(verb: string, events: seq<NodeEvent>): Gathered {
    if events == [] then Gathered([], [], false)
    else
      var g := Gather(verb, events[..|events| - 1]);
      if g.broken then g else GatherOne(verb, g, events[|events| - 1])
  }

  /** One more node: its answer goes to the client at once; a node that takes no head or gives
      no answer is passed over. */
  function GatherOne(verb: string, g: Gathered, e: NodeEvent): Gathered {
    if e.broken then g.(broken := true)
    else if !e.takesHead then g
    else
      var asked := g.(forwarded := g.forwarded + [Forward(e.key, verb + " " + e.key + CRLF)]);
      if e.answer == None || e.answer == Some("") then asked else asked.(replies := g.replies + [e.answer.value])
  }

  function HandleRetrieval(t: Task, content: string, b: Backend): Outcome
    requires t.items != []
  {
    if t.state != BEGIN_HANDLE_CMD then Renewed(content)
    else if |t.items| == 1 then Refused(content, ERROR)
    else
      var u := t.(verb := t.items[0], keys := t.keys + t.items[1..]);
      if b.retrieved == None || b.retrieved == Some([]) then Failed(u, content, [])
      else
        var g := Gather(u.verb, b.retrieved.value);
        if g.broken then Outcome(u.(state := BAD), content, g.replies + [SERVER_ERROR], g.forwarded, Some(false))
        else Outcome(NEW, content, g.replies + [END], g.forwarded, Some(true))
  }

  function HandleDelete(t: Task, content: string, b: Backend): Outcome
    requires t.items != []
  {
    var n := |t.items|;
    if t.state != BEGIN_HANDLE_CMD then Renewed(content)
    else if n == 1 then Refused(content, ERROR)
    else if n > 3 || (n == 3 && t.items[2] != NOREPLY) then Refused(content, BAD_DELETE)
    else Relay(t.(noreply := if n == 3 then t.items[2] else t.noreply, key := t.items[1]), content, false, b)
  }

  function HandleIncrDecr(t: Task, content: string, b: Backend): Outcome
    requires t.items != []
  {
    var n := |t.items|;
    if t.state != BEGIN_HANDLE_CMD then Renewed(content)
    else if n != 3 && n != 4 then Refused(content, ERROR)
    else
      var u := t.(noreply := if n == 4 then t.items[3] else t.noreply);
      if Atoi(t.items[2]) < 0 then
        Outcome(NEW, content, if u.noreply != NOREPLY then [BAD_DELTA] else [], [], Some(false))
      else Relay(u.(key := t.items[1]), content, false, b)
  }

  function HandleOther(t: Task, content: string, b: Backend): Outcome
    requires t.items != []
  {
    var n := |t.items|;
    var u := t.(verb := t.items[0], key := "default key");
    if t.state != BEGIN_HANDLE_CMD then Renewed(content)
    else if u.verb == "quit" then Outcome(u.(state := BAD), content, [], [], Some(false))
    else if u.verb == "touch" then
      if n != 3 && n != 4 then Refused(content, ERROR)
      else Relay(u.(noreply := if n == 4 then b.stray else t.noreply, key := t.items[1]), content, false, b)
    else Relay(u, content, false, b)
  }

  function Dispatch(t: Task, content: string, b: Backend): Outcome
    requires t.items != []
  {
    var cmd := t.items[0];
    if IsStorage(cmd) then HandleStorage(t, content, b)
    else if IsRetrieval(cmd) then HandleRetrieval(t, content, b)
    else if IsDelete(cmd) then HandleDelete(t, content, b)
    else if IsIncrDecr(cmd) then HandleIncrDecr(t, content, b)
    else if IsOther(cmd) then HandleOther(t, content, b)
    else Refused(content, ERROR)
  }

  /** taskCommunition */
  function Communicate(t: Task, content: string, b: Backend): Outcome
    requires t.items == [] ==> t.state == BEGIN_NEW_TASK
    requires t.state != PARSE_PROTOCOL
  {
    if t.state == BEGIN_NEW_TASK then
      var end := Search(content, CRLF, 0);
      if end == |content| then Outcome(t, content, [], [], Some(false))
      else
        var items := t.items + Items(content[..end], 0);
        var rest := content[end + 2..];
        if items == [] || !InCmdSet(items[0]) then Refused(rest, ERROR)
        else Dispatch(t.(state := BEGIN_HANDLE_CMD, head := content[..end], items := items), rest, b)
    else Dispatch(t, content, b)
  }

  // ------------------------------------------------------------- where every call rests

  /** A storage command whose head has been read. */
  predicate Waiting(t: Task) {
    && t.state == WAIT_ENOUGH_DATA
    && 5 <= |t.items| <= 7 && IsStorage(t.items[0]) && (t.items[0] == "cas" ==> 6 <= |t.items|)
    && t.items == Items(t.head, 0)
    && t.verb == t.items[0] && t.key == t.items[1] && t.flag == t.items[2] && t.exptime == t.items[3]
    && t.bytes == Atoi(t.items[4])
    && t.keys == []
  }

  predicate Resting(t: Task) {
    t == NEW || Waiting(t) || (t.state == BAD && t.items != [])
  }

  lemma RelayRests(t: Task, content: string, storing: bool, b: Backend)
    requires t.items != []
    ensures Resting(Relay(t, content, storing, b).task) && Relay(t, content, storing, b).answer.Some?
  {
  }

  lemma StorageHeadWaits(t: Task)
    requires t.items != [] && t.items == Items(t.head, 0) && t.keys == [] && IsStorage(t.items[0])
    ensures StorageHead(t).Some? ==> Waiting(StorageHead(t).value)
    ensures StorageHead(t).None? <==> |t.items| < 5 || |t.items| > 7 || (t.items[0] == "cas" && |t.items| == 5)
  {
    hide Items, Atoi;
  }

  lemma StorageDataRests(t: Task, content: string, b: Backend)
    requires Waiting(t)
    ensures
      var o := StorageData(t, content, b);
      Resting(o.task) && (o.answer == None ==> o == Outcome(t, content, [], [], None))
  {
    RelayRests(t.(state := GET_ALL_DATA), content, true, b);
    hide Relay, Atoi, Items;
  }

  lemma RetrievalRests(t: Task, content: string, b: Backend)
    requires t.items != []
    ensures Resting(HandleRetrieval(t, content, b).task) && HandleRetrieval(t, content, b).answer.Some?
  {
  }

  lemma DeleteRests(t: Task, content: string, b: Backend)
    requires t.items != []
    ensures Resting(HandleDelete(t, content, b).task) && HandleDelete(t, content, b).answer.Some?
  {
    hide Relay;
    var n := |t.items|;
    if n >= 2 {
      RelayRests(t.(noreply := if n == 3 then t.items[2] else t.noreply, key := t.items[1]), content, false, b);
    }
  }

  lemma IncrDecrRests(t: Task, content: string, b: Backend)
    requires t.items != []
    ensures Resting(HandleIncrDecr(t, content, b).task) && HandleIncrDecr(t, content, b).answer.Some?
  {
    hide Relay, Atoi;
    var n := |t.items|;
    if n >= 2 {
      RelayRests(t.(noreply := if n == 4 then t.items[3] else t.noreply).(key := t.items[1]), content, false, b);
    }
  }

  lemma OtherRests(t: Task, content: string, b: Backend)
    requires t.items != []
    ensures Resting(HandleOther(t, content, b).task) && HandleOther(t, content, b).answer.Some?
  {
    hide Relay;
    var n := |t.items|;
    var u := t.(verb := t.items[0], key := "default key");
    RelayRests(u, content, false, b);
    if n >= 2 {
      RelayRests(u.(noreply := if n == 4 then b.stray else t.noreply, key := t.items[1]), content, false, b);
    }
  }

  /** Between calls a task is new, with every field cleared, or it has read the head of a storage
      command of five to seven items and waits for the data, or it is bad.  A call that ends
      with an exception leaves it waiting with the data still in the buffer. */
  lemma EveryCallRests(t: Task, content: string, b: Backend)
    requires Resting(t)
    ensures
      var o := Communicate(t, content, b);
      Resting(o.task) && (o.answer == None ==> Waiting(o.task))
  {
    hide Items, Atoi, HandleRetrieval, HandleDelete, HandleIncrDecr, HandleOther, StorageData, StorageHead;
    if t.state == BEGIN_NEW_TASK {
      var end := Search(content, CRLF, 0);
      if end < |content| {
        var items := Items(content[..end], 0);
        assert [] + items == items;
        if items != [] && InCmdSet(items[0]) {
          DispatchRests(t.(state := BEGIN_HANDLE_CMD, head := content[..end], items := items), content[end + 2..], b);
        }
      }
    } else {
      DispatchRests(t, content, b);
    }
    hide Dispatch;
  }

  lemma DispatchRests(t: Task, content: string, b: Backend)
    requires t.items != []
    requires t.state == BEGIN_HANDLE_CMD ==> t.items == Items(t.head, 0) && t.keys == []
    requires t.state != BEGIN_HANDLE_CMD ==> Waiting(t) || t.state == BAD
    ensures
      var o := Dispatch(t, content, b);
      Resting(o.task) && (o.answer == None ==> Waiting(o.task))
  {
    hide Items, Atoi, HandleRetrieval, HandleDelete, HandleIncrDecr, HandleOther, StorageData, StorageHead;
    RetrievalRests(t, content, b);
    DeleteRests(t, content, b);
    IncrDecrRests(t, content, b);
    OtherRests(t, content, b);
    if IsStorage(t.items[0]) {
      if t.state == WAIT_ENOUGH_DATA {
        StorageDataRests(t, content, b);
      } else if t.state == BEGIN_HANDLE_CMD {
        StorageHeadWaits(t);
        if StorageHead(t).Some? {
          StorageDataRests(StorageHead(t).value, content, b);
        }
      }
    }
  }

  /** A task that went bad is forgotten by the next call, which leaves the buffer alone. */
  lemma BadIsForgotten(t: Task, content: string, b: Backend)
    requires t.state == BAD && t.items != [] && InCmdSet(t.items[0])
    ensures Communicate(t, content, b) == Outcome(NEW, content, [], [], Some(true))
  {
  }

  // ------------------------------------------------------------- any division into chunks

  /** A client's bytes so far: the Task, what the buffer holds, what was sent to whom. */
  datatype Progress = Progress(task: Task, content: string, replies: seq<string>, forwarded: seq<Forward>)

  /** The call after chunk i is made while the nodes behave as b(i) says. */
  ghost function FeedAll(chunks: seq<string>, b: nat -> Backend): (p: Progress)
    ensures Resting(p.task)
  {
    if chunks == [] then Progress(NEW, "", [], [])
    else
      var n := |chunks| - 1;
      var p := FeedAll(chunks[..n], b);
      var o := Communicate(p.task, p.content + chunks[n], b(n));
      EveryCallRests(p.task, p.content + chunks[n], b(n));
      Progress(o.task, o.content, p.replies + o.replies, p.forwarded + o.forwarded)
  }

  /** The first CRLF after this text is the one that ends it; a lone CR or LF may be in it. */
  ghost predicate EndsAtCRLF(head: string) {
    Search(head + "\r", CRLF, 0) == |head| + 1
  }

  /** A head line of a storage command whose count is the length of the data, and data without
      a NUL. */
  ghost predicate WellFormed(head: string, data: string) {
    var items := Items(head, 0);
    && EndsAtCRLF(head)
    && 5 <= |items| <= 7 && IsStorage(items[0]) && (items[0] == "cas" ==> 6 <= |items|)
    && Reads(items[4], |data|) && '\0' !in data
  }

  ghost function Whole(head: string, data: string): string {
    head + CRLF + data + CRLF
  }

  /** The task that has read the head. */
  function Read(head: string): Task {
    var items := Items(head, 0);
    var t := NEW.(state := BEGIN_HANDLE_CMD, head := head, items := items);
    if items == [] || StorageHead(t).None? then NEW else StorageHead(t).value
  }

  predicate Serves(b: Backend) {
    b.connects && b.takesHead && b.takesBody && b.reply.Some? && b.reply.value != ""
  }

  lemma NoCRLFYet(head: string, data: string, c: string)
    requires EndsAtCRLF(head) && c <= Whole(head, data)
    ensures |c| < |head| + 2 ==> Search(c, CRLF, 0) == |c|
    ensures |head| + 2 <= |c| ==> Search(c, CRLF, 0) == |head| && c[..|head|] == head
  {
    WholeStarts(head, data, c);
    hide Match, Whole;
    forall i | 0 <= i < |c| && (i < |head| || |c| < |head| + 2)
      ensures !Match(c, CRLF, i)
    {
      MatchCRLF(c, i);
      MatchCRLF(head + "\r", i);
    }
    if |head| + 2 <= |c| {
      MatchCRLF(c, |head|);
      SearchIs(c, CRLF, 0, |head|);
    }
  }

  lemma WholeStarts(head: string, data: string, c: string)
    requires c <= Whole(head, data)
    ensures forall i :: 0 <= i < |c| && i <= |head| ==> c[i] == (head + "\r")[i]
    ensures |head| + 2 <= |c| ==> c[..|head|] == head && c[|head| + 1] == '\n'
  {
    var w := Whole(head, data);
    assert w[..|head|] == head && w[|head|] == '\r' && w[|head| + 1] == '\n';
    if |head| + 2 <= |c| {
      assert c[..|head|] == w[..|head|];
    }
  }

  /** A call that finds the head: it goes on with the data as if the head had been read before. */
  lemma HeadCall(head: string, data: string, c: string, b: Backend)
    requires WellFormed(head, data) && c <= Whole(head, data) && |head| + 2 <= |c|
    ensures Communicate(NEW, c, b) == StorageData(Read(head), c[|head| + 2..], b)
  {
    hide Items, Atoi, StorageData, Search;
    NoCRLFYet(head, data, c);
    var items := Items(head, 0);
    assert [] + items == items;
    var t := NEW.(state := BEGIN_HANDLE_CMD, head := head, items := items);
    StorageHeadWaits(t);
    hide StorageHead;
  }

  /** And a call that finds the head read. */
  lemma DataCall(head: string, data: string, c: string, b: Backend)
    requires WellFormed(head, data)
    ensures Waiting(Read(head)) && Read(head).bytes == |data| && Read(head).head == head
    ensures Communicate(Read(head), c, b) == StorageData(Read(head), c, b)
  {
    hide Items, Atoi, Reads, StorageData;
    var t := NEW.(state := BEGIN_HANDLE_CMD, head := head, items := Items(head, 0));
    AtoiIs(t.items[4], |data|);
    StorageHeadWaits(t);
    StorageHeadKeeps(t);
    hide StorageHead;
  }

  lemma StorageHeadKeeps(t: Task)
    requires t.items != []
    ensures StorageHead(t).Some? ==> StorageHead(t).value.head == t.head && StorageHead(t).value.items == t.items
  {
  }

  /** Data that is not complete waits; complete data is forwarded after the head. */
  lemma DataDecides(head: string, data: string, d: string, b: Backend)
    requires WellFormed(head, data) && d <= data + CRLF
    ensures
      var t := Read(head);
      var o := StorageData(t, d, b);
      && (d < data + CRLF ==> o == Outcome(t, d, [], [], Some(true)))
      && (d == data + CRLF && Serves(b) ==>
            o == Outcome(NEW, "", if t.noreply == NOREPLY then [] else [b.reply.value + CRLF],
                         [Forward(t.key, head + CRLF), Forward(t.key, data + CRLF)], Some(true)))
  {
    DataCall(head, data, d, b);
    hide Items, Atoi, WellFormed, Read;
    if d == data + CRLF {
      assert d[..|data|] == data && d[|data|..|data| + 2] == CRLF;
    }
  }

  /** Where the Task is when part of the command has come. */
  ghost function Underway(r: string, head: string): Progress {
    if |r| < |head| + 2 then Progress(NEW, r, [], []) else Progress(Read(head), r[|head| + 2..], [], [])
  }

  /** And when all of it has. */
  ghost function Finished(head: string, data: string, b: Backend): Progress
    requires Serves(b)
  {
    var t := Read(head);
    Progress(NEW, "", if t.noreply == NOREPLY then [] else [b.reply.value + CRLF],
             [Forward(t.key, head + CRLF), Forward(t.key, data + CRLF)])
  }

  lemma OneChunk(before: string, chunk: string, b: Backend, head: string, data: string)
    requires WellFormed(head, data) && before + chunk <= Whole(head, data) && |before| < |Whole(head, data)|
    ensures
      var p := Underway(before, head);
      var r := before + chunk;
      Resting(p.task) &&
      var o := Communicate(p.task, p.content + chunk, b);
      var next := Progress(o.task, o.content, o.replies, o.forwarded);
      && (|r| < |Whole(head, data)| ==> next == Underway(r, head))
      && (r == Whole(head, data) && Serves(b) ==> next == Finished(head, data, b))
  {
    hide WellFormed, StorageData, Read, Communicate, Whole, Serves;
    var r := before + chunk;
    NewAndReadRest(head, data);
    if |r| < |head| + 2 {
      HeadIsMissing(head, data, r, b);
    } else {
      var d := r[|head| + 2..];
      RestIsData(head, data, r);
      DataDecides(head, data, d, b);
      if |before| < |head| + 2 {
        HeadCall(head, data, r, b);
      } else {
        assert before[|head| + 2..] + chunk == d;
        DataCall(head, data, d, b);
      }
    }
  }

  lemma NewAndReadRest(head: string, data: string)
    requires WellFormed(head, data)
    ensures Resting(NEW) && Resting(Read(head))
  {
    DataCall(head, data, "", Backend(false, false, false, None, None, ""));
  }

  lemma HeadIsMissing(head: string, data: string, r: string, b: Backend)
    requires WellFormed(head, data) && r <= Whole(head, data) && |r| < |head| + 2
    ensures Communicate(NEW, r, b) == Outcome(NEW, r, [], [], Some(false)) && |r| < |Whole(head, data)|
  {
    NoCRLFYet(head, data, r);
  }

  lemma RestIsData(head: string, data: string, r: string)
    requires |head| + 2 <= |r| && r <= Whole(head, data)
    ensures r[|head| + 2..] <= data + CRLF
    ensures r == Whole(head, data) <==> r[|head| + 2..] == data + CRLF
    ensures |r| < |Whole(head, data)| <==> r[|head| + 2..] < data + CRLF
  {
    assert Whole(head, data)[|head| + 2..] == data + CRLF;
  }

  /** However the command is divided into chunks, with a call after each: until its last byte
      has come nothing is sent to anybody, and the call that gets it forwards the head and the
      data, once, and leaves a new task and an empty buffer. */
  lemma {:induction false} Fragmentation(chunks: seq<string>, b: nat -> Backend, head: string, data: string)
    requires WellFormed(head, data) && Concat(chunks) <= Whole(head, data)
    ensures |Concat(chunks)| < |Whole(head, data)| ==> FeedAll(chunks, b) == Underway(Concat(chunks), head)
    ensures
      var n := |chunks| - 1;
      n >= 0 && Concat(chunks) == Whole(head, data) && chunks[n] != "" && Serves(b(n)) ==>
        FeedAll(chunks, b) == Finished(head, data, b(n))
    decreases |chunks|
  {
    if chunks != [] {
      var n := |chunks| - 1;
      var before := Concat(chunks[..n]);
      assert Concat(chunks) == before + chunks[n];
      hide WellFormed, Whole, Communicate, Serves, Resting, Read;
      Fragmentation(chunks[..n], b, head, data);
      if |before| < |Whole(head, data)| {
        OneChunk(before, chunks[n], b(n), head, data);
      }
    }
  }

  // ------------------------------------------------------------- command lines

  /** A line of words, with spaces around them. */
  ghost predicate IsLine(pads: seq<string>, words: seq<string>) {
    Separates(pads, words, ' ') && EndsAtCRLF(Spread(pads, words))
  }

  /** A storage command of the protocol: its words, and data of the length that its fifth word
      reads as. */
  ghost predicate IsStore(words: seq<string>, data: string) {
    && 5 <= |words| <= 7
    && KindOf(words[0]).Storage? && (words[0] == "cas" ==> 6 <= |words|)
    && Reads(words[4], |data|) && '\0' !in data
  }

  /** The last word asks for no reply. */
  ghost predicate IsQuietStore(words: seq<string>) {
    |words| == (if |words| > 0 && words[0] == "cas" then 7 else 6) && words[|words| - 1] == "noreply"
  }

  /** The law of storage commands in terms of the protocol: the words of the head line and the
      data, in any chunks with a call after each.  Before the last byte nothing is sent; with
      it the node of the second word gets the line and the data, and the client the node's
      reply unless the line asks for none. */
  lemma StoreIsForwarded(chunks: seq<string>, b: nat -> Backend, pads: seq<string>, words: seq<string>, data: string)
    requires IsLine(pads, words) && IsStore(words, data)
    requires Concat(chunks) <= Whole(Spread(pads, words), data)
    ensures |Concat(chunks)| < |Whole(Spread(pads, words), data)| ==>
      FeedAll(chunks, b).replies == [] && FeedAll(chunks, b).forwarded == []
    ensures
      var n := |chunks| - 1;
      var line := Spread(pads, words);
      n >= 0 && Concat(chunks) == Whole(line, data) && chunks[n] != "" && Serves(b(n)) ==>
        FeedAll(chunks, b)
        == Progress(NEW, "", if IsQuietStore(words) then [] else [b(n).reply.value + "\r\n"],
                    [Forward(words[1], line + "\r\n"), Forward(words[1], data + "\r\n")])
  {
    var line := Spread(pads, words);
    ItemsOfSpread(line, 0, pads, words);
    assert line[0..] == line;
    StoreIsWellFormed(line, words, data);
    StoreRead(line, words);
    UnderwayIs(Concat(chunks), line);
    hide *;
    Fragmentation(chunks, b, line, data);
    var n := |chunks| - 1;
    if n >= 0 && Serves(b(n)) {
      FinishedIs(line, words, data, b(n));
    }
  }

  lemma StoreIsWellFormed(line: string, words: seq<string>, data: string)
    requires Items(line, 0) == words && EndsAtCRLF(line) && IsStore(words, data)
    ensures WellFormed(line, data)
  {
    KindIs(words[0]);
    hide Items, Reads, EndsAtCRLF, KindOf, IsStorage;
  }

  lemma UnderwayIs(r: string, head: string)
    ensures Underway(r, head).replies == [] && Underway(r, head).forwarded == []
  {
  }

  lemma StoreRead(line: string, words: seq<string>)
    requires Items(line, 0) == words && 5 <= |words| <= 7 && (words[0] == "cas" ==> 6 <= |words|)
    ensures Read(line).key == words[1] && (Read(line).noreply == "noreply" <==> IsQuietStore(words))
  {
    hide Items, Atoi;
  }

  lemma FinishedIs(line: string, words: seq<string>, data: string, b: Backend)
    requires Serves(b) && |words| >= 2
    requires Read(line).key == words[1] && (Read(line).noreply == "noreply" <==> IsQuietStore(words))
    ensures Finished(line, data, b)
         == Progress(NEW, "", if IsQuietStore(words) then [] else [b.reply.value + "\r\n"],
                     [Forward(words[1], line + "\r\n"), Forward(words[1], data + "\r\n")])
  {
    hide Read, IsQuietStore;
  }

  /** Data that ends in something else than a CRLF is refused, and the buffer is emptied. */
  lemma BadChunkIsRefused(head: string, data: string, end: string, more: string, b: Backend)
    requires WellFormed(head, data) && |end| == 2 && end != "\r\n"
    ensures Communicate(Read(head), data + end + more, b)
         == Outcome(NEW, "", ["CLIENT_ERROR bad data chunk\r\n", "ERROR\r\n"], [], Some(false))
  {
    var c := data + end + more;
    DataCall(head, data, c, b);
    assert c[..|data|] == data && c[|data|..|data| + 2] == end;
    hide Read, WellFormed, Communicate, Relay;
  }

  /** The exchange with a node: it succeeds exactly when the node is reached, takes all it is given
      and, if a reply is asked for, gives one; then all is forwarded and the reply passed on.
      Otherwise the client gets an error and the task is bad; what was forwarded by then is a
      beginning of it, and nothing if the node did not take the head. */
  lemma RelayIs(t: Task, content: string, storing: bool, b: Backend)
    ensures
      var o := Relay(t, content, storing, b);
      var all := [Forward(t.key, t.head + "\r\n")] + if storing then [Forward(t.key, content)] else [];
      var quiet := t.noreply == "noreply";
      && o.forwarded <= all && (o.forwarded == [] <==> !(b.connects && b.takesHead))
      && var taken := b.connects && b.takesHead && (storing ==> b.takesBody);
         if taken && (quiet || (b.reply.Some? && b.reply.value != "")) then
           o == Outcome(NEW, if storing then "" else content, if quiet then [] else [b.reply.value + "\r\n"],
                        all, Some(true))
         else
           o.task.state == BAD && o.replies == ["SERVER_ERROR\r\n"] && o.answer == Some(false)
  {
  }

  /** The commands of the protocol that are served, by kind. */
  datatype Kind = Storage | Get | Remove | Count | Touch | Plain | Quit | Unknown

  function KindOf(cmd: string): Kind {
    if cmd == "set" || cmd == "add" || cmd == "replace" then Storage
    else if cmd == "append" || cmd == "prepend" || cmd == "cas" then Storage
    else if cmd == "get" || cmd == "gets" then Get
    else if cmd == "delete" then Remove
    else if cmd == "incr" || cmd == "decr" then Count
    else if cmd == "touch" then Touch
    else if cmd == "flush_all" || cmd == "version" then Plain
    else if cmd == "quit" then Quit
    else Unknown
  }

  lemma KindIs(cmd: string)
    ensures IsStorage(cmd) <==> KindOf(cmd).Storage?
    ensures IsRetrieval(cmd) <==> KindOf(cmd).Get?
    ensures IsDelete(cmd) <==> KindOf(cmd).Remove?
    ensures IsIncrDecr(cmd) <==> KindOf(cmd).Count?
    ensures IsOther(cmd) <==> KindOf(cmd).Touch? || KindOf(cmd).Plain? || KindOf(cmd).Quit?
    ensures cmd == "cas" ==> KindOf(cmd).Storage?
    ensures cmd == "quit" <==> KindOf(cmd).Quit?
    ensures cmd == "touch" <==> KindOf(cmd).Touch?
  {
  }

  /** The word reads as a number that is not negative. */
  ghost predicate IsCount(word: string) {
    exists v: nat :: Reads(word, v)
  }

  /** The commands of one line that are sent to the node of a key, or of the default key. */
  ghost predicate IsRelayed(words: seq<string>) {
    words != [] && match KindOf(words[0])
      case Remove => |words| == 2 || (|words| == 3 && words[2] == "noreply")
      case Count => 3 <= |words| <= 4 && IsCount(words[2])
      case Touch => |words| == 3
      case Plain => true
      case _ => false
  }

  ghost predicate IsQuietLine(words: seq<string>) {
    words != [] && match KindOf(words[0])
      case Remove => |words| == 3
      case Count => |words| == 4 && words[3] == "noreply"
      case _ => false
  }

  ghost function KeyOf(words: seq<string>): string {
    if |words| < 2 || KindOf(words[0]).Plain? then "default key" else words[1]
  }

  const USAGE: string := "CLIENT_ERROR bad command line format.  Usage: delete <key> [noreply]\r\n"

  /** What the client is told about a line that is refused, nothing being the empty message; None
      when it is not refused. */
  ghost function Refusal(words: seq<string>): Option<string> {
    var error := Some("ERROR\r\n");
    var n := |words|;
    if n == 0 then error
    else
      match KindOf(words[0])
      case Storage => if 5 <= n <= 7 && !(words[0] == "cas" && n == 5) then None else error
      case Get => if n >= 2 then None else error
      case Remove =>
        if n == 1 then error else if n == 2 || (n == 3 && words[2] == "noreply") then None else Some(USAGE)
      case Count =>
        if n != 3 && n != 4 then error
        else if IsCount(words[2]) then None
        else if n == 4 && words[3] == "noreply" then Some("")
        else Some("CLIENT_ERROR invalid numeric delta argument\r\n")
      case Touch => if n == 3 || n == 4 then None else error
      case Plain => None
      case Quit => None
      case Unknown => error
  }

  /** The task that has read this line. */
  ghost function ReadLine(line: string, words: seq<string>): Task {
    NEW.(state := BEGIN_HANDLE_CMD, head := line, items := words)
  }

  function Told(rest: string, message: string): Outcome {
    Outcome(NEW, rest, if message == "" then [] else [message], [], Some(false))
  }

  lemma LineIsDispatched(pads: seq<string>, words: seq<string>, rest: string, b: Backend)
    requires IsLine(pads, words)
    ensures
      var line := Spread(pads, words);
      Communicate(NEW, line + "\r\n" + rest, b)
      == if words == [] || KindOf(words[0]).Unknown? then Told(rest, "ERROR\r\n")
         else DispatchKind(ReadLine(line, words), rest, b)
  {
    var line := Spread(pads, words);
    var content := line + "\r\n" + rest;
    ItemsOfSpread(line, 0, pads, words);
    assert line[0..] == line;
    HeadFound(line, rest);
    assert content[..|line|] == line && content[|line| + 2..] == rest;
    assert [] + words == words;
    if words != [] {
      KindIs(words[0]);
      DispatchIs(ReadLine(line, words), rest, b);
    }
    hide Items, Search, Dispatch, DispatchKind, KindOf, Spread, Separates;
    hide IsStorage, IsRetrieval, IsDelete, IsIncrDecr, IsOther;
  }

  /** The handler of a command's kind. */
  function DispatchKind(t: Task, content: string, b: Backend): Outcome
    requires t.items != []
  {
    match KindOf(t.items[0])
    case Storage => HandleStorage(t, content, b)
    case Get => HandleRetrieval(t, content, b)
    case Remove => HandleDelete(t, content, b)
    case Count => HandleIncrDecr(t, content, b)
    case Unknown => Told(content, "ERROR\r\n")
    case _ => HandleOther(t, content, b)
  }

  lemma DispatchIs(t: Task, content: string, b: Backend)
    requires t.items != []
    ensures Dispatch(t, content, b) == DispatchKind(t, content, b)
  {
    KindIs(t.items[0]);
    hide HandleStorage, HandleRetrieval, HandleDelete, HandleIncrDecr, HandleOther, KindOf;
    hide IsStorage, IsRetrieval, IsDelete, IsIncrDecr, IsOther;
  }

  lemma HeadFound(line: string, rest: string)
    requires EndsAtCRLF(line)
    ensures Search(line + "\r\n" + rest, CRLF, 0) == |line|
  {
    var c := line + "\r\n";
    assert c == c + "" && Whole(line, rest) == line + CRLF + rest + CRLF;
    var whole := Whole(line, rest);
    assert line + "\r\n" + rest == whole[..|line| + 2 + |rest|];
    NoCRLFYet(line, rest, line + "\r\n" + rest);
  }

  lemma DeltaIs(s: string)
    ensures Atoi(s) < 0 <==> !IsCount(s)
  {
    hide Atoi, Reads;
    AtoiIs(s, Atoi(s));
    if v: nat :| Reads(s, v) {
      AtoiIs(s, v);
    }
  }

  lemma StoreIsRefused(line: string, words: seq<string>, rest: string, b: Backend)
    requires words != [] && KindOf(words[0]).Storage? && Refusal(words).Some?
    ensures HandleStorage(ReadLine(line, words), rest, b) == Told(rest, Refusal(words).value)
  {
    hide KindOf, Atoi, StorageData;
  }

  lemma GetIsRefused(line: string, words: seq<string>, rest: string, b: Backend)
    requires words != [] && KindOf(words[0]).Get? && Refusal(words).Some?
    ensures HandleRetrieval(ReadLine(line, words), rest, b) == Told(rest, Refusal(words).value)
  {
    hide KindOf, Gather;
  }

  lemma RemoveIsRefused(line: string, words: seq<string>, rest: string, b: Backend)
    requires words != [] && KindOf(words[0]).Remove? && Refusal(words).Some?
    ensures HandleDelete(ReadLine(line, words), rest, b) == Told(rest, Refusal(words).value)
  {
    hide KindOf, Relay;
  }

  lemma CountIsRefused(line: string, words: seq<string>, rest: string, b: Backend)
    requires words != [] && KindOf(words[0]).Count? && Refusal(words).Some?
    ensures HandleIncrDecr(ReadLine(line, words), rest, b) == Told(rest, Refusal(words).value)
  {
    if |words| >= 3 {
      DeltaIs(words[2]);
    }
    hide KindOf, Relay, Atoi, IsCount;
  }

  lemma TouchIsRefused(line: string, words: seq<string>, rest: string, b: Backend)
    requires words != [] && KindOf(words[0]).Touch? && Refusal(words).Some?
    ensures HandleOther(ReadLine(line, words), rest, b) == Told(rest, Refusal(words).value)
  {
    KindIs(words[0]);
    hide KindOf, Relay;
  }

  /** A line is refused exactly as the protocol table says, without a byte for any node. */
  lemma LineIsRefused(pads: seq<string>, words: seq<string>, rest: string, b: Backend)
    requires IsLine(pads, words) && Refusal(words).Some?
    ensures Communicate(NEW, Spread(pads, words) + "\r\n" + rest, b) == Told(rest, Refusal(words).value)
  {
    LineIsDispatched(pads, words, rest, b);
    if words != [] {
      var line := Spread(pads, words);
      match KindOf(words[0])
      case Storage => StoreIsRefused(line, words, rest, b);
      case Get => GetIsRefused(line, words, rest, b);
      case Remove => RemoveIsRefused(line, words, rest, b);
      case Count => CountIsRefused(line, words, rest, b);
      case Touch => TouchIsRefused(line, words, rest, b);
      case _ =>
    }
    hide IsLine, Spread, Communicate, KindOf, Told, IsCount;
    hide HandleStorage, HandleRetrieval, HandleDelete, HandleIncrDecr, HandleOther;
  }

  /** The outcome of a line that the node of its key serves. */
  ghost function Relayed(line: string, words: seq<string>, rest: string, b: Backend): Outcome
    requires Serves(b)
  {
    Outcome(NEW, rest, if IsQuietLine(words) then [] else [b.reply.value + "\r\n"],
            [Forward(KeyOf(words), line + "\r\n")], Some(true))
  }

  lemma ServedRelay(t: Task, content: string, b: Backend)
    requires Serves(b)
    ensures Relay(t, content, false, b)
         == Outcome(NEW, content, if t.noreply == NOREPLY then [] else [b.reply.value + CRLF],
                    [Forward(t.key, t.head + CRLF)], Some(true))
  {
  }

  lemma RemoveIsRelayed(line: string, words: seq<string>, rest: string, b: Backend)
    requires IsRelayed(words) && KindOf(words[0]).Remove? && Serves(b)
    ensures HandleDelete(ReadLine(line, words), rest, b) == Relayed(line, words, rest, b)
  {
    var t := ReadLine(line, words);
    ServedRelay(t.(noreply := if |words| == 3 then words[2] else t.noreply, key := words[1]), rest, b);
    hide KindOf, Relay, Serves;
  }

  lemma CountIsRelayed(line: string, words: seq<string>, rest: string, b: Backend)
    requires IsRelayed(words) && KindOf(words[0]).Count? && Serves(b)
    ensures HandleIncrDecr(ReadLine(line, words), rest, b) == Relayed(line, words, rest, b)
  {
    var t := ReadLine(line, words);
    DeltaIs(words[2]);
    ServedRelay(t.(noreply := if |words| == 4 then words[3] else t.noreply).(key := words[1]), rest, b);
    hide KindOf, Relay, Serves, Atoi, IsCount;
  }

  lemma OtherIsRelayed(line: string, words: seq<string>, rest: string, b: Backend)
    requires IsRelayed(words) && (KindOf(words[0]).Touch? || KindOf(words[0]).Plain?) && Serves(b)
    ensures HandleOther(ReadLine(line, words), rest, b) == Relayed(line, words, rest, b)
  {
    var t := ReadLine(line, words);
    var u := t.(verb := words[0], key := "default key");
    KindIs(words[0]);
    ServedRelay(u, rest, b);
    if |words| == 3 {
      ServedRelay(u.(noreply := t.noreply, key := words[1]), rest, b);
    }
    hide KindOf, Relay, Serves;
  }

  /** And one that is relayed goes to the node of its key, as it is. */
  lemma LineIsRelayed(pads: seq<string>, words: seq<string>, rest: string, b: Backend)
    requires IsLine(pads, words) && IsRelayed(words) && Serves(b)
    ensures
      var line := Spread(pads, words);
      Communicate(NEW, line + "\r\n" + rest, b) == Relayed(line, words, rest, b)
  {
    LineIsDispatched(pads, words, rest, b);
    var line := Spread(pads, words);
    match KindOf(words[0])
    case Remove => RemoveIsRelayed(line, words, rest, b);
    case Count => CountIsRelayed(line, words, rest, b);
    case Touch => OtherIsRelayed(line, words, rest, b);
    case Plain => OtherIsRelayed(line, words, rest, b);
    hide IsLine, Spread, Communicate, KindOf, Relayed, Serves, IsCount;
    hide HandleStorage, HandleRetrieval, HandleDelete, HandleIncrDecr, HandleOther;
  }

  lemma QuitIsBad(pads: seq<string>, words: seq<string>, rest: string, b: Backend)
    requires IsLine(pads, words) && words != [] && words[0] == "quit"
    ensures
      var o := Communicate(NEW, Spread(pads, words) + "\r\n" + rest, b);
      o.task.state == BAD && o.content == rest && o.replies == [] && o.forwarded == [] && o.answer == Some(false)
  {
    LineIsDispatched(pads, words, rest, b);
    KindIs(words[0]);
    hide IsLine, Spread, Communicate, KindOf, Relay;
  }

  /** What the nodes of a retrieval are asked, and what they give, while no connection fails: a
      node that takes no head is passed over, and so is an answer that does not come or is
      empty. */
  ghost function Asked(verb: string, events: seq<NodeEvent>): seq<Forward> {
    if events == [] then []
    else
      var e := events[|events| - 1];
      Asked(verb, events[..|events| - 1]) + if e.takesHead then [Forward(e.key, verb + " " + e.key + "\r\n")] else []
  }

  ghost function Given(events: seq<NodeEvent>): seq<string> {
    if events == [] then []
    else
      var e := events[|events| - 1];
      Given(events[..|events| - 1])
      + if e.takesHead && e.answer.Some? && e.answer.value != "" then [e.answer.value] else []
  }

  lemma {:induction false} GatherIs(verb: string, events: seq<NodeEvent>)
    requires forall i :: 0 <= i < |events| ==> !events[i].broken
    ensures Gather(verb, events) == Gathered(Given(events), Asked(verb, events), false)
  {
    if events != [] {
      var n := |events| - 1;
      GatherIs(verb, events[..n]);
      assert !events[n].broken;
      assert Gather(verb, events) == GatherOne(verb, Gather(verb, events[..n]), events[n]);
      hide Gather;
    }
  }

  /** A retrieval passes on what its nodes give and ends it with END, exactly when some node is
      reported and no connection has failed; otherwise the client gets what the nodes before
      the first failed one gave, and an error, and the task is bad. */
  lemma RetrievalIs(pads: seq<string>, words: seq<string>, rest: string, b: Backend)
    requires IsLine(pads, words) && |words| >= 2 && KindOf(words[0]).Get?
    ensures
      var o := Communicate(NEW, Spread(pads, words) + "\r\n" + rest, b);
      var events := if b.retrieved == None then [] else b.retrieved.value;
      var n := FirstFailure(events);
      && o.content == rest && o.forwarded == Asked(words[0], events[..n])
      && if events != [] && n == |events| then
           o.task == NEW && o.replies == Given(events) + ["END\r\n"] && o.answer == Some(true)
         else
           o.task.state == BAD && o.replies == Given(events[..n]) + ["SERVER_ERROR\r\n"] && o.answer == Some(false)
  {
    LineIsDispatched(pads, words, rest, b);
    var events := if b.retrieved == None then [] else b.retrieved.value;
    var n := FirstFailure(events);
    RetrievalStopsAtFirstFailure(words[0], events);
    GatherIs(words[0], events[..n]);
    GetIs(ReadLine(Spread(pads, words), words), rest, b, events);
    assert events[..|events|] == events;
    hide IsLine, Spread, Communicate, KindOf, Gather, HandleRetrieval;
  }

  lemma GetIs(t: Task, rest: string, b: Backend, events: seq<NodeEvent>)
    requires |t.items| >= 2 && t.state == BEGIN_HANDLE_CMD
    requires events == if b.retrieved == None then [] else b.retrieved.value
    ensures
      var g := Gather(t.items[0], events);
      var o := HandleRetrieval(t, rest, b);
      && o.content == rest
      && if events == [] then
           o.task.state == BAD && o.replies == ["SERVER_ERROR\r\n"] && o.forwarded == [] && o.answer == Some(false)
         else if g.broken then
           o.task.state == BAD && o.replies == g.replies + ["SERVER_ERROR\r\n"] && o.forwarded == g.forwarded
           && o.answer == Some(false)
         else o == Outcome(NEW, rest, g.replies + ["END\r\n"], g.forwarded, Some(true))
  {
    hide Gather;
  }

  /** A negative count: below -2 the task waits for ever, whatever comes; otherwise the call
      throws as soon as the buffer holds two bytes more than the count. */
  lemma NegativeCounts(t: Task, content: string, b: Backend)
    requires Waiting(t) && t.bytes < 0
    ensures Communicate(t, content, b)
         == Outcome(t, content, [], [], if t.bytes < -2 || |content| < t.bytes + 2 then Some(true) else None)
  {
    hide Atoi, Items;
  }

  // ------------------------------------------------------------- failures

  lemma {:induction false} StaysBroken(verb: string, events: seq<NodeEvent>, n: nat)
    requires n <= |events| && Gather(verb, events[..n]).broken
    ensures Gather(verb, events) == Gather(verb, events[..n])
    decreases |events| - n
  {
    if n < |events| {
      assert events[..n + 1][..n] == events[..n];
      StaysBroken(verb, events, n + 1);
    } else {
      assert events[..n] == events;
    }
  }

  /** The first node whose connection failed, or |events| when there is none. */
  function FirstFailure(events: seq<NodeEvent>): (n: nat)
    ensures n <= |events| && (n < |events| ==> events[n].broken)
    ensures forall i :: 0 <= i < n ==> !events[i].broken
  {
    if events == [] || events[0].broken then 0 else 1 + FirstFailure(events[1..])
  }

  lemma {:induction false} NoFailure(verb: string, events: seq<NodeEvent>)
    requires forall i :: 0 <= i < |events| ==> !events[i].broken
    ensures !Gather(verb, events).broken
  {
    if events != [] {
      NoFailure(verb, events[..|events| - 1]);
      assert !events[|events| - 1].broken;
    }
  }

  /** A retrieval fails exactly when some reported connection has failed, although other nodes may
      have answered by then; the client has what the nodes before the first such one gave, in
      the order of the reports, and nothing is asked of those after it. */
  lemma RetrievalStopsAtFirstFailure(verb: string, events: seq<NodeEvent>)
    ensures
      var n := FirstFailure(events);
      Gather(verb, events) == Gather(verb, events[..n]).(broken := n < |events|)
  {
    var n := FirstFailure(events);
    NoFailure(verb, events[..n]);
    if n < |events| {
      assert events[..n + 1][..n] == events[..n];
      StaysBroken(verb, events, n + 1);
    } else {
      assert events[..n] == events;
    }
  }

  /** Data with a NUL never passes: the call that finds the data complete, and every later call,
      whatever else has come by then, ends with an exception and changes nothing. */
  lemma NulIsStuck(t: Task, content: string, more: string, b: Backend)
    requires Waiting(t) && 0 <= t.bytes && t.bytes + 2 <= |content| && '\0' in content[..t.bytes]
    ensures Communicate(t, content + more, b) == Outcome(t, content + more, [], [], None)
  {
    hide Atoi, Items;
    assert (content + more)[..t.bytes] == content[..t.bytes];
  }

  // ------------------------------------------------------------- the class

  class McacheTask {
    var taskState: TaskState
    var head: string
    var headerItems: seq<string>
    var verb: string                   // method_
    var key: string
    var keys: seq<string>
    var flag: string
    var exptime: string
    var bytes: int
    var casUnique: string
    var noreply: string

    ghost function View(): Task
      reads this
    {
      Task(taskState, head, headerItems, verb, key, keys, flag, exptime, bytes, casUnique, noreply)
    }

    constructor ()
      ensures View() == NEW
    {
      taskState, head, headerItems, verb, key, keys := BEGIN_NEW_TASK, "", [], "", "", [];
      flag, exptime, bytes, casUnique, noreply := "", "", 0, "", "";
    }

    method Renew()
      modifies this
      ensures View() == NEW
    {
      taskState, head, headerItems, verb, key, keys := BEGIN_NEW_TASK, "", [], "", "", [];
      flag, exptime, bytes, casUnique, noreply := "", "", 0, "", "";
    }

    method Fail() returns (replies: seq<string>, answer: Option<bool>)
      modifies `taskState
      ensures View() == old(View()).(state := BAD) && replies == [SERVER_ERROR] && answer == Some(false)
    {
      taskState := BAD;
      replies, answer := [SERVER_ERROR], Some(false);
    }

    /** The exchange that the handlers share. */
    method RelayToNode(buffer: Buffer, storing: bool, b: Backend)
        returns (replies: seq<string>, forwarded: seq<Forward>, answer: Option<bool>)
      requires buffer.Valid()
      modifies this, buffer`readerIndex, buffer`writerIndex
      ensures buffer.Valid()
      ensures Outcome(View(), buffer.Contents(), replies, forwarded, answer)
           == Relay(old(View()), old(buffer.Contents()), storing, b)
    {
      forwarded := [];
      if !b.connects {
        replies, answer := Fail();
        return;
      }
      head := head + CRLF;
      if !b.takesHead {
        replies, answer := Fail();
        return;
      }
      forwarded := [Forward(key, head)];
      if storing {
        if !b.takesBody {
          replies, answer := Fail();
          return;
        }
        var data := buffer.RetrieveAllAsString();
        forwarded := forwarded + [Forward(key, data)];
      }
      replies, answer := Reply(b);
    }

    /** The answer of the node goes to the client, and the Task is done. */
    method Reply(b: Backend) returns (replies: seq<string>, answer: Option<bool>)
      modifies this
      ensures
        if old(noreply) == NOREPLY then View() == NEW && replies == [] && answer == Some(true)
        else if b.reply == None || b.reply == Some("") then
          View() == old(View()).(state := BAD) && replies == [SERVER_ERROR] && answer == Some(false)
        else View() == NEW && replies == [b.reply.value + CRLF] && answer == Some(true)
    {
      replies, answer := [], Some(true);
      if noreply != NOREPLY {
        if b.reply == None || b.reply == Some("") {
          replies, answer := Fail();
          return;
        }
        replies := [b.reply.value + CRLF];
      }
      Renew();
    }

    method Refuse(message: string) returns (replies: seq<string>, answer: Option<bool>)
      modifies this
      ensures View() == NEW && replies == [message] && answer == Some(false)
    {
      Renew();
      replies, answer := [message], Some(false);
    }

    method ReadStorageOptions() returns (ok: bool)
      requires |headerItems| >= 5
      modifies `casUnique, `noreply
      ensures ok <==> StorageOptions(old(View())).Some?
      ensures ok ==> View() == StorageOptions(old(View())).value
    {
      var n := |headerItems|;
      if verb == "cas" {
        if n <= 5 {
          return false;
        }
        casUnique := headerItems[5];
        if n == 7 {
          noreply := headerItems[6];
        }
      } else if n == 6 {
        noreply := headerItems[5];
      }
      ok := true;
    }

    /** The head of a storage command. */
    method ReadStorageHead() returns (ok: bool)
      requires headerItems != []
      modifies this
      ensures ok <==> StorageHead(old(View())).Some?
      ensures ok ==> View() == StorageHead(old(View())).value
    {
      hide Atoi, StorageOptions;
      var n := |headerItems|;
      if n != 5 && n != 6 && n != 7 {
        return false;
      }
      verb, key, flag, exptime := headerItems[0], headerItems[1], headerItems[2], headerItems[3];
      bytes := Atoi(headerItems[4]);
      taskState := WAIT_ENOUGH_DATA;
      ok := ReadStorageOptions();
    }

    method TakeStorageData(buffer: Buffer, b: Backend)
        returns (replies: seq<string>, forwarded: seq<Forward>, answer: Option<bool>)
      requires buffer.Valid()
      modifies this, buffer`readerIndex, buffer`writerIndex
      ensures buffer.Valid()
      ensures Outcome(View(), buffer.Contents(), replies, forwarded, answer)
           == StorageData(old(View()), old(buffer.Contents()), b)
    {
      hide Relay;
      var content := buffer.buffer[buffer.readerIndex..buffer.writerIndex];
      replies, forwarded, answer := [], [], Some(true);
      if bytes + 2 < 0 || |content| < bytes + 2 {
        return;
      }
      if bytes < 0 || '\0' in content[..bytes] {
        answer := None;
        return;
      }
      if content[bytes..bytes + 2] != CRLF {
        buffer.RetrieveAll();
        Renew();
        replies, answer := [BAD_CHUNK, ERROR], Some(false);
        return;
      }
      taskState := GET_ALL_DATA;
      replies, forwarded, answer := RelayToNode(buffer, true, b);
    }

    method HandleStrogeCmd(buffer: Buffer, b: Backend)
        returns (replies: seq<string>, forwarded: seq<Forward>, answer: Option<bool>)
      requires buffer.Valid() && headerItems != []
      modifies this, buffer`readerIndex, buffer`writerIndex
      ensures buffer.Valid()
      ensures Outcome(View(), buffer.Contents(), replies, forwarded, answer)
           == HandleStorage(old(View()), old(buffer.Contents()), b)
    {
      hide StorageHead, StorageData;
      forwarded := [];
      if taskState == BEGIN_HANDLE_CMD {
        var ok := ReadStorageHead();
        if !ok {
          replies, answer := Refuse(ERROR);
          return;
        }
        replies, forwarded, answer := TakeStorageData(buffer, b);
      } else if taskState == WAIT_ENOUGH_DATA {
        replies, forwarded, answer := TakeStorageData(buffer, b);
      } else {
        Renew();
        replies, answer := [], Some(true);
      }
    }

    /** The loop over the nodes that poll has reported. */
    method GatherAnswers(events: seq<NodeEvent>) returns (replies: seq<string>, forwarded: seq<Forward>, broken: bool)
      ensures Gathered(replies, forwarded, broken) == Gather(verb, events)
    {
      replies, forwarded, broken := [], [], false;
      for i := 0 to |events|
        invariant !broken && Gathered(replies, forwarded, false) == Gather(verb, events[..i])
      {
        assert events[..i + 1][..i] == events[..i];
        var e := events[i];
        if e.broken {
          broken := true;
          StaysBroken(verb, events, i + 1);
          return;
        }
        if !e.takesHead {
          continue;
        }
        forwarded := forwarded + [Forward(e.key, verb + " " + e.key + CRLF)];
        if e.answer == None || e.answer == Some("") {
          continue;
        }
        replies := replies + [e.answer.value];
      }
      assert events[..|events|] == events;
    }

    method HandleRetriveCmd(buffer: Buffer, b: Backend)
        returns (replies: seq<string>, forwarded: seq<Forward>, answer: Option<bool>)
      requires buffer.Valid() && headerItems != []
      modifies this
      ensures buffer.Contents() == old(buffer.Contents())
      ensures Outcome(View(), buffer.Contents(), replies, forwarded, answer)
           == HandleRetrieval(old(View()), old(buffer.Contents()), b)
    {
      hide Gather;
      replies, forwarded, answer := [], [], Some(true);
      if taskState == BEGIN_HANDLE_CMD {
        if |headerItems| <= 1 {
          replies, answer := Refuse(ERROR);
          return;
        }
        verb := headerItems[0];
        keys := keys + headerItems[1..];
        if b.retrieved == None || b.retrieved == Some([]) {
          replies, answer := Fail();
          return;
        }
        var broken;
        replies, forwarded, broken := GatherAnswers(b.retrieved.value);
        if broken {
          var failure;
          failure, answer := Fail();
          replies := replies + failure;
          return;
        }
        replies := replies + [END];
      }
      Renew();
    }

    method HandleDeleteCmd(buffer: Buffer, b: Backend)
        returns (replies: seq<string>, forwarded: seq<Forward>, answer: Option<bool>)
      requires buffer.Valid() && headerItems != []
      modifies this, buffer`readerIndex, buffer`writerIndex
      ensures buffer.Valid()
      ensures Outcome(View(), buffer.Contents(), replies, forwarded, answer)
           == HandleDelete(old(View()), old(buffer.Contents()), b)
    {
      hide Relay;
      replies, forwarded, answer := [], [], Some(true);
      if taskState == BEGIN_HANDLE_CMD {
        if |headerItems| <= 1 {
          replies, answer := Refuse(ERROR);
          return;
        }
        if |headerItems| != 2 && |headerItems| != 3 {
          replies, answer := Refuse(BAD_DELETE);
          return;
        }
        if |headerItems| == 3 {
          if headerItems[2] != NOREPLY {
            replies, answer := Refuse(BAD_DELETE);
            return;
          }
          noreply := headerItems[2];
        }
        key := headerItems[1];
        replies, forwarded, answer := RelayToNode(buffer, false, b);
        return;
      }
      Renew();
    }

    method HandleIncrDecrCmd(buffer: Buffer, b: Backend)
        returns (replies: seq<string>, forwarded: seq<Forward>, answer: Option<bool>)
      requires buffer.Valid() && headerItems != []
      modifies this, buffer`readerIndex, buffer`writerIndex
      ensures buffer.Valid()
      ensures Outcome(View(), buffer.Contents(), replies, forwarded, answer)
           == HandleIncrDecr(old(View()), old(buffer.Contents()), b)
    {
      hide Relay, Atoi;
      replies, forwarded, answer := [], [], Some(true);
      if taskState == BEGIN_HANDLE_CMD {
        if |headerItems| != 3 && |headerItems| != 4 {
          replies, answer := Refuse(ERROR);
          return;
        }
        if |headerItems| == 4 {
          noreply := headerItems[3];
        }
        if Atoi(headerItems[2]) < 0 {
          if noreply != NOREPLY {
            replies := [BAD_DELTA];
          }
          Renew();
          answer := Some(false);
          return;
        }
        key := headerItems[1];
        replies, forwarded, answer := RelayToNode(buffer, false, b);
        return;
      }
      Renew();
    }

    method ReadTouch(b: Backend)
      requires 3 <= |headerItems| <= 4
      modifies `key, `noreply
      ensures View()
           == old(View()).(key := headerItems[1], noreply := if |headerItems| == 4 then b.stray else old(noreply))
    {
      if |headerItems| == 4 {
        noreply := b.stray;
      }
      key := headerItems[1];
    }

    method HandleOtherCmd(buffer: Buffer, b: Backend)
        returns (replies: seq<string>, forwarded: seq<Forward>, answer: Option<bool>)
      requires buffer.Valid() && headerItems != []
      modifies this, buffer`readerIndex, buffer`writerIndex
      ensures buffer.Valid()
      ensures Outcome(View(), buffer.Contents(), replies, forwarded, answer)
           == HandleOther(old(View()), old(buffer.Contents()), b)
    {
      hide Relay;
      replies, forwarded, answer := [], [], Some(true);
      if taskState == BEGIN_HANDLE_CMD {
        verb, key := headerItems[0], "default key";
        if verb == "quit" {
          taskState := BAD;
          answer := Some(false);
          return;
        } else if verb == "touch" {
          if |headerItems| != 3 && |headerItems| != 4 {
            replies, answer := Refuse(ERROR);
            return;
          }
          ReadTouch(b);
        }
        replies, forwarded, answer := RelayToNode(buffer, false, b);
        return;
      }
      Renew();
    }

    method DispatchCommand(buffer: Buffer, b: Backend)
        returns (replies: seq<string>, forwarded: seq<Forward>, answer: Option<bool>)
      requires buffer.Valid() && headerItems != []
      modifies this, buffer`readerIndex, buffer`writerIndex
      ensures buffer.Valid()
      ensures Outcome(View(), buffer.Contents(), replies, forwarded, answer)
           == Dispatch(old(View()), old(buffer.Contents()), b)
    {
      hide HandleStorage, HandleRetrieval, HandleDelete, HandleIncrDecr, HandleOther;
      hide IsStorage, IsRetrieval, IsDelete, IsIncrDecr, IsOther;
      forwarded := [];
      if IsStorage(headerItems[0]) {
        replies, forwarded, answer := HandleStrogeCmd(buffer, b);
      } else if IsRetrieval(headerItems[0]) {
        replies, forwarded, answer := HandleRetriveCmd(buffer, b);
      } else if IsDelete(headerItems[0]) {
        replies, forwarded, answer := HandleDeleteCmd(buffer, b);
      } else if IsIncrDecr(headerItems[0]) {
        replies, forwarded, answer := HandleIncrDecrCmd(buffer, b);
      } else if IsOther(headerItems[0]) {
        replies, forwarded, answer := HandleOtherCmd(buffer, b);
      } else {
        replies, answer := Refuse(ERROR);
      }
    }

    /** PARSE_PROTOCOL: the head leaves the buffer and is cut into items. */
    method ReadHead(buffer: Buffer, end: nat)
      requires buffer.Valid() && Search(buffer.Contents(), CRLF, 0) < |buffer.Contents()|
      requires end == buffer.readerIndex + Search(buffer.Contents(), CRLF, 0)
      modifies `head, `headerItems, buffer`readerIndex, buffer`writerIndex
      ensures buffer.Valid()
      ensures
        var content := old(buffer.Contents());
        var e := Search(content, CRLF, 0);
        && head == content[..e] && headerItems == old(headerItems) + Items(content[..e], 0)
        && e + 2 <= |content| && buffer.Contents() == content[e + 2..]
    {
      hide Items, Search;
      assert Match(buffer.Contents(), CRLF, Search(buffer.Contents(), CRLF, 0));
      head := buffer.RetrieveAsString(end - buffer.readerIndex);
      buffer.Retrieve(2);
      headerItems := headerItems + Items(head, 0);
    }

    method TaskCommunition(buffer: Buffer, b: Backend)
        returns (replies: seq<string>, forwarded: seq<Forward>, answer: Option<bool>)
      requires buffer.Valid() && Resting(View())
      modifies this, buffer`readerIndex, buffer`writerIndex
      ensures buffer.Valid()
      ensures Outcome(View(), buffer.Contents(), replies, forwarded, answer)
           == Communicate(old(View()), old(buffer.Contents()), b)
    {
      hide Dispatch, Items, Search, InCmdSet, Atoi;
      replies, forwarded, answer := [], [], Some(false);
      if taskState == BEGIN_NEW_TASK {
        var end := buffer.FindCRLF();
        if end == None {
          return;
        }
        taskState := PARSE_PROTOCOL;
        ReadHead(buffer, end.value);
        if headerItems == [] || !InCmdSet(headerItems[0]) {
          replies, answer := Refuse(ERROR);
          return;
        }
        taskState := BEGIN_HANDLE_CMD;
      }
      replies, forwarded, answer := DispatchCommand(buffer, b);
    }
  }
}
