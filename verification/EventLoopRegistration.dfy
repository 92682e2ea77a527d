// Registration of handles with the loop, base/EventLoop.cpp: handles_ and updates_, the states
// of the handles, and the interest map that the poller keeps.  Every operation below is one
// lock section, so every run is a sequence of them, whichever threads they come from.

module EventLoopRegistration {
  import opened Collections

  datatype HandleState = ADD | MOD | DEL | LOOP | NEW

  class Handle {
    const fd: int
    var events: bv32
    var state: HandleState

    constructor (fd: int, events: bv32)
      ensures this.fd == fd && this.events == events && state == NEW
    {
      this.fd, this.events, this.state := fd, events, NEW;
    }
  }

  /** One registration call made by a thread that does not own the loop. */
  datatype Call = Add(fd: int) | Mod(fd: int) | Del(fd: int)

  /** What the registration tables say: the registered descriptors and the pending changes. */
  datatype Tables = Tables(registered: set<int>, pending: map<int, HandleState>)

  /** A call from another thread: add always becomes pending, mod and del only when the
      descriptor is registered, and each replaces what was pending for the descriptor. */
  ghost function AfterCall(t: Tables, call: Call): Tables {
    match call
    case Add(fd) => t.(pending := t.pending[fd := ADD])
    case Mod(fd) => if fd in t.registered then t.(pending := t.pending[fd := MOD]) else t
    case Del(fd) => if fd in t.registered then t.(pending := t.pending[fd := DEL]) else t
  }

  ghost function AfterCalls(t: Tables, calls: seq<Call>): Tables {
    if calls == [] then t else AfterCall(AfterCalls(t, calls[..|calls| - 1]), calls[|calls| - 1])
  }

  /** The registered descriptors after a flush. */
  ghost function Flushed(t: Tables): set<int> {
    (t.registered + t.pending.Keys) - (set fd | fd in t.pending && t.pending[fd] == DEL)
  }

  class EventLoop {
    var handles: map<int, Handle>      // handles_
    var updates: map<int, Handle>      // updates_
    var poller: map<int, bv32>         // the interest set of poll_

    ghost predicate Valid()
      reads this, handles.Values, updates.Values
    {
      && poller.Keys == handles.Keys
      && (forall fd :: fd in handles ==> handles[fd].fd == fd && handles[fd].state in {LOOP, MOD, DEL})
      && (forall fd :: fd in updates ==> updates[fd].fd == fd && updates[fd].state in {ADD, MOD, DEL})
      && (forall fd :: fd in updates && updates[fd].state != ADD ==> fd in handles && handles[fd] == updates[fd])
      && (forall fd :: fd in handles && fd !in updates ==> handles[fd].state == LOOP)
    }

    ghost function View(): Tables
      reads this, updates.Values
    {
      Tables(handles.Keys, map fd | fd in updates :: updates[fd].state)
    }

    constructor ()
      ensures Valid() && handles == map[] && updates == map[]
    {
      handles, updates, poller := map[], map[], map[];
    }

    // ----------------------------------------------------------- the poller

    /** EPOLL_CTL_ADD: refused when the descriptor is already there. */
    method EventsAdd(fd: int, events: bv32)
      modifies this`poller
      ensures poller == if fd in old(poller) then old(poller) else old(poller)[fd := events]
    {
      if fd !in poller {
        poller := poller[fd := events];
      }
    }

    /** EPOLL_CTL_MOD: refused when the descriptor is not there. */
    method EventsMod(fd: int, events: bv32)
      modifies this`poller
      ensures poller == if fd in old(poller) then old(poller)[fd := events] else old(poller)
    {
      if fd in poller {
        poller := poller[fd := events];
      }
    }

    method EventsDel(fd: int)
      modifies this`poller
      ensures poller == old(poller) - {fd}
    {
      poller := poller - {fd};
    }

    // ----------------------------------------------------------- flushing

    /** One turn of the loop in updateHandlesUnlock; neither assertion in it can fail. */
    method ApplyUpdate(fd: int, handle: Handle)
      requires handle.fd == fd && handle.state in {ADD, MOD, DEL} && poller.Keys == handles.Keys
      requires handle.state != ADD ==> fd in handles
      modifies `handles, `poller, handle`state
      ensures poller.Keys == handles.Keys
      ensures fd in handles <==> old(handle.state) != DEL
      ensures fd in handles ==> handles[fd] == handle && handle.state == LOOP
      ensures fd in handles ==>
        poller[fd] == if old(handle.state) == ADD && fd in old(poller) then old(poller)[fd] else handle.events
      ensures forall other :: other != fd ==> Untouched(other)
    {
      if handle.state == ADD {
        EventsAdd(fd, handle.events);
        handle.state := LOOP;
        handles := handles[fd := handle];
      } else if handle.state == MOD {
        EventsMod(fd, handle.events);
        handle.state := LOOP;
        handles := handles[fd := handle];
      } else if handle.state == DEL {
        EventsDel(fd);
        assert handle.fd in handles;    // assert(n == 1)
        handles := handles - {handle.fd};
      } else {
        assert false;
      }
    }

    /** What the pending entry of a descriptor makes of its registration and interest. */
    twostate predicate Applied(fd: int, handle: Handle)
      reads this, handle
      requires poller.Keys == handles.Keys
    {
      && (fd in handles <==> old(handle.state) != DEL)
      && (fd in handles ==>
            && handles[fd] == handle && handle.state == LOOP
            && poller[fd] == if old(handle.state) == ADD && fd in old(poller) then old(poller)[fd] else handle.events)
    }

    twostate predicate Untouched(fd: int)
      reads this
      requires poller.Keys == handles.Keys && old(poller.Keys == handles.Keys)
    {
      && (fd in handles <==> fd in old(handles))
      && (fd in handles ==> handles[fd] == old(handles)[fd] && poller[fd] == old(poller)[fd])
    }

    /** The loop of updateHandlesUnlock. */
    method ApplyUpdates()
      requires Valid()
      modifies `handles, `poller, updates.Values`state
      ensures poller.Keys == handles.Keys
      ensures forall fd :: fd in old(updates) ==> Applied(fd, old(updates)[fd])
      ensures forall fd :: fd !in old(updates) ==> Untouched(fd)
    {
      var todo := updates.Keys;
      while todo != {}
        invariant todo <= updates.Keys
        invariant poller.Keys == handles.Keys
        invariant forall fd :: fd in todo ==> updates[fd].state == old(updates[fd].state)
        invariant forall fd :: fd in todo || fd !in updates ==> Untouched(fd)
        invariant forall fd :: fd in updates && fd !in todo ==> Applied(fd, updates[fd])
        decreases todo
      {
        ghost var some := SomeElement(todo);
        var fd :| fd in todo;
        label before:
        ApplyUpdate(fd, updates[fd]);
        forall other | other != fd && (other !in updates || other in todo)
          ensures Untouched(other)
        {
          assert Untouched@before(other);
        }
        forall other | other in updates && other !in todo
          ensures Applied(other, updates[other])
        {
          assert Untouched@before(other);
        }
        todo := todo - {fd};
      }
    }

    /** updateHandlesUnlock: every pending change is applied, and the poller and the table
        agree on what is registered. */
    method UpdateHandlesUnlock()
      requires Valid()
      modifies this, updates.Values`state
      ensures Valid() && updates == map[]
      ensures handles.Keys == Flushed(old(View()))
      ensures forall fd :: fd in handles ==> handles[fd].state == LOOP
      ensures forall fd :: fd in old(updates) ==> Applied(fd, old(updates)[fd])
      ensures forall fd :: fd !in old(updates) ==> Untouched(fd)
    {
      ApplyUpdates();
      KeysAreFlushed();
      RegisteredAreInLoop();
      updates := map[];
    }

    twostate lemma KeysAreFlushed()
      requires poller.Keys == handles.Keys && old(poller.Keys == handles.Keys)
      requires forall fd :: fd in old(updates) ==> Applied(fd, old(updates)[fd])
      requires forall fd :: fd !in old(updates) ==> Untouched(fd)
      ensures handles.Keys == Flushed(old(View()))
    {
      forall fd
        ensures fd in handles <==> fd in Flushed(old(View()))
      {
        if fd in old(updates) {
          assert Applied(fd, old(updates)[fd]);
        } else {
          assert Untouched(fd);
        }
      }
    }

    twostate lemma RegisteredAreInLoop()
      requires old(Valid()) && poller.Keys == handles.Keys
      requires forall fd :: fd in old(updates) ==> Applied(fd, old(updates)[fd])
      requires forall fd :: fd !in old(updates) ==> Untouched(fd)
      requires forall fd :: fd in old(handles) && fd !in old(updates) ==> unchanged(old(handles)[fd])
      ensures forall fd :: fd in handles ==> handles[fd].fd == fd && handles[fd].state == LOOP
    {
      forall fd | fd in handles
        ensures handles[fd].fd == fd && handles[fd].state == LOOP
      {
        if fd in old(updates) {
          assert Applied(fd, old(updates)[fd]);
        } else {
          assert Untouched(fd);
        }
      }
    }

    /** updateHandles: the same with the lock taken first. */
    method UpdateHandles()
      requires Valid()
      modifies this, updates.Values`state
      ensures Valid() && updates == map[]
      ensures handles.Keys == poller.Keys == Flushed(old(View()))
      ensures forall fd :: fd in handles ==> handles[fd].state == LOOP
    {
      UpdateHandlesUnlock();
    }

    // ----------------------------------------------------------- registering

    /** setState, and the entry in updates_. */
    method Note(handle: Handle, state: HandleState)
      requires Valid() && state in {ADD, MOD, DEL}
      requires if state == ADD then handle.state == NEW else handle.fd in handles && handles[handle.fd] == handle
      modifies `updates, handle`state
      ensures Valid() && updates == old(updates)[handle.fd := handle] && handle.state == state
      ensures View() == AfterCall(old(View()), CallOf(handle.fd, state))
    {
      handle.state := state;
      updates := updates[handle.fd := handle];
      assert forall fd :: fd in old(updates) && fd != handle.fd ==> updates[fd].state == old(updates[fd].state);
      ViewAfterNote(handle);
    }

    twostate lemma ViewAfterNote(handle: Handle)
      requires updates == old(updates)[handle.fd := handle] && handles == old(handles)
      requires handle.state in {ADD, MOD, DEL} && (handle.state != ADD ==> handle.fd in handles)
      requires forall fd :: fd in old(updates) && fd != handle.fd ==> updates[fd].state == old(updates[fd].state)
      ensures View() == AfterCall(old(View()), CallOf(handle.fd, handle.state))
    {
      assert View().pending == old(View()).pending[handle.fd := handle.state];
    }

    /** setState and updateHandle.  A thread that owns the loop flushes at once; any other
        thread changes nothing but the pending entry of the descriptor. */
    method Record(handle: Handle, state: HandleState, inOwnerThread: bool)
      requires Valid() && state in {ADD, MOD, DEL}
      requires if state == ADD then handle.state == NEW else handle.fd in handles && handles[handle.fd] == handle
      modifies this, updates.Values`state, handle`state
      ensures Valid()
      ensures !inOwnerThread ==>
        && handles == old(handles) && poller == old(poller)
        && updates == old(updates)[handle.fd := handle] && handle.state == state
        && View() == AfterCall(old(View()), CallOf(handle.fd, state))
      ensures inOwnerThread ==>
        && updates == map[]
        && handles.Keys == poller.Keys == Flushed(AfterCall(old(View()), CallOf(handle.fd, state)))
        && (state != DEL ==> handles[handle.fd] == handle)
        && (state != DEL ==>
              poller[handle.fd]
              == if state == ADD && handle.fd in old(poller) then old(poller)[handle.fd] else handle.events)
        && (forall fd :: fd in handles ==> handles[fd].state == LOOP)
    {
      Note(handle, state);
      if inOwnerThread {
        UpdateHandlesUnlock();
      }
    }

    method AddHandle(handle: Handle, inOwnerThread: bool) returns (ok: bool)
      requires Valid() && handle.state == NEW
      modifies this, updates.Values`state, handle`state
      ensures Valid() && ok
      ensures !inOwnerThread ==>
        && handles == old(handles) && poller == old(poller)
        && updates == old(updates)[handle.fd := handle] && handle.state == ADD
        && View() == AfterCall(old(View()), Add(handle.fd))
      ensures inOwnerThread ==>
        && updates == map[] && handle.fd in handles && handles[handle.fd] == handle && handle.state == LOOP
        && poller[handle.fd] == (if handle.fd in old(poller) then old(poller)[handle.fd] else handle.events)
        && handles.Keys == poller.Keys == Flushed(AfterCall(old(View()), Add(handle.fd)))
    {
      Record(handle, ADD, inOwnerThread);
      ok := true;
    }

    /** modHandle: the handle that is registered for the descriptor is the one that changes. */
    method ModHandle(handle: Handle, inOwnerThread: bool) returns (ok: bool)
      requires Valid()
      modifies this, updates.Values`state, handles.Values`state
      ensures Valid() && (ok <==> handle.fd in old(handles))
      ensures !ok ==> handles == old(handles) && updates == old(updates) && poller == old(poller)
      ensures !inOwnerThread ==>
        handles == old(handles) && poller == old(poller) && View() == AfterCall(old(View()), Mod(handle.fd))
      ensures inOwnerThread && ok ==>
        && updates == map[] && handles.Keys == poller.Keys == Flushed(AfterCall(old(View()), Mod(handle.fd)))
        && handles[handle.fd] == old(handles)[handle.fd] && poller[handle.fd] == handles[handle.fd].events
        && (forall fd :: fd in handles ==> handles[fd].state == LOOP)
    {
      if handle.fd !in handles {
        return false;
      }
      Record(handles[handle.fd], MOD, inOwnerThread);
      ok := true;
    }

    method DelHandle(handle: Handle, inOwnerThread: bool) returns (ok: bool)
      requires Valid()
      modifies this, updates.Values`state, handles.Values`state
      ensures Valid() && (ok <==> handle.fd in old(handles))
      ensures !ok ==> handles == old(handles) && updates == old(updates) && poller == old(poller)
      ensures !inOwnerThread ==>
        handles == old(handles) && poller == old(poller) && View() == AfterCall(old(View()), Del(handle.fd))
      ensures inOwnerThread && ok ==>
        && updates == map[] && handles.Keys == poller.Keys == Flushed(AfterCall(old(View()), Del(handle.fd)))
        && (forall fd :: fd in handles ==> handles[fd].state == LOOP)
    {
      if handle.fd !in handles {
        return false;
      }
      Record(handles[handle.fd], DEL, inOwnerThread);
      ok := true;
    }
  }

  function CallOf(fd: int, state: HandleState): Call
    requires state in {ADD, MOD, DEL}
  {
    if state == ADD then Add(fd) else if state == MOD then Mod(fd) else Del(fd)
  }

  // ------------------------------------------------------------- between two flushes

  /** Of the calls about the descriptor, the last is a deletion. */
  ghost predicate DeletedLast(calls: seq<Call>, fd: int) {
    if calls == [] then false
    else
      var last := calls[|calls| - 1];
      if last.fd == fd then last.Del? else DeletedLast(calls[..|calls| - 1], fd)
  }

  ghost predicate Added(calls: seq<Call>, fd: int) {
    exists i :: 0 <= i < |calls| && calls[i] == Add(fd)
  }

  lemma AddedUnfolds(calls: seq<Call>, fd: int)
    requires calls != []
    ensures Added(calls, fd) <==> Added(calls[..|calls| - 1], fd) || calls[|calls| - 1] == Add(fd)
  {
    var n := |calls| - 1;
    var init := calls[..n];
    if Added(calls, fd) && calls[n] != Add(fd) {
      var i :| 0 <= i < |calls| && calls[i] == Add(fd);
      assert init[i] == Add(fd);
    }
    if Added(init, fd) {
      var i :| 0 <= i < |init| && init[i] == Add(fd);
      assert calls[i] == Add(fd);
    }
  }

  /** What any number of calls from other threads does to one descriptor at the next flush:
      a registered descriptor goes exactly when the last call about it is a deletion, so a
      deletion is lost when a modification follows it before the flush; an unregistered
      descriptor comes exactly when it was added, whatever mod or del calls were made. */
  lemma {:induction false} RegisteredAfterFlush(t: Tables, calls: seq<Call>, fd: int)
    requires t.pending == map[]
    ensures AfterCalls(t, calls).registered == t.registered
    ensures fd in t.registered ==>
      (fd in AfterCalls(t, calls).pending && AfterCalls(t, calls).pending[fd] == DEL <==> DeletedLast(calls, fd))
    ensures fd !in t.registered ==>
      (fd in AfterCalls(t, calls).pending ==> AfterCalls(t, calls).pending[fd] == ADD)
      && (fd in AfterCalls(t, calls).pending <==> Added(calls, fd))
    ensures fd in Flushed(AfterCalls(t, calls))
      <==> if fd in t.registered then !DeletedLast(calls, fd) else Added(calls, fd)
    decreases |calls|
  {
    if calls != [] {
      RegisteredAfterFlush(t, calls[..|calls| - 1], fd);
      AddedUnfolds(calls, fd);
    }
  }

  /** The deletion of a registered descriptor does not survive a modification by another
      thread before the loop flushes. */
  lemma ModificationUndoesDeletion(t: Tables, fd: int)
    requires t.pending == map[] && fd in t.registered
    ensures fd !in Flushed(AfterCalls(t, [Del(fd)]))
    ensures fd in Flushed(AfterCalls(t, [Del(fd), Mod(fd)]))
  {
    RegisteredAfterFlush(t, [Del(fd)], fd);
    RegisteredAfterFlush(t, [Del(fd), Mod(fd)], fd);
  }
}
