// The timer scheduler of base/TimersScheduler.cpp: one timerfd, the heap of timers, and the
// batch of expired timers that is being run.

module TimersSchedulers {
  import opened Collections
  import opened TimerHeaps
  import opened TimerOperations
  import opened TimerArming

  lemma InsertPresent(s: seq<Key>, key: Key)
    requires Sorted(s)
    ensures key in s ==> Insert(s, key) == s
  {
    LowerBoundSplits(s, key);
  }

  class TimersScheduler {
    const heap: TimerHeap
    var expired: seq<Key>              // expired_
    var callbackRunning: bool          // timerCallbackRunning_
    var settings: seq<Setting>         // history: the calls of resetTimer

    ghost predicate Valid()
      reads this, heap
    {
      && heap.Valid()
      && (!callbackRunning ==> expired == [])
      && Distinct(expired)
      && (forall k :: k in expired ==> Live(heap.memory, k))
      && (forall k :: k in heap.timers ==> k.timer !in Addresses(expired))
      && (forall a :: a in heap.memory && heap.memory[a].state == DELETED ==> a in Addresses(expired))
      && (heap.change ==> heap.earliest.Some? && heap.earliest.value in heap.memory)
    }

    ghost function View(): State
      reads this, heap
    {
      State(heap.memory, heap.timers, heap.earliest, heap.change, heap.freed, settings)
    }

    constructor ()
      ensures Valid() && fresh(heap) && expired == [] && !callbackRunning && settings == []
      ensures heap.timers == [] && heap.memory == map[]
    {
      heap := new TimerHeap();
      expired, callbackRunning, settings := [], false, [];
    }

    /** resetTimer */
    method ResetTimer(earliest: int, now: int)
      modifies `settings
      ensures settings == old(settings) + [SettingFor(earliest, now)]
    {
      settings := settings + [SettingFor(earliest, now)];
    }

    /** The batch being run holds this timer. */
    predicate InBatch(a: Address)
      reads this, heap
      requires a in heap.memory
    {
      callbackRunning && Key(heap.memory[a].expiration, a) in expired
    }

    /** addTimer: a member of the running batch is refused. */
    method AddTimer(a: Address, now: int) returns (ok: bool)
      requires Valid() && a in heap.memory && heap.memory[a].expiration > 0
      modifies `settings, heap`timers, heap`earliest, heap`change
      ensures Valid() && (ok <==> !old(InBatch(a)))
      ensures View() == Added(old(View()), expired, a, now)
    {
      hide Armed, Recached, Insert;
      if callbackRunning && Key(heap.memory[a].expiration, a) in expired {
        return false;
      }
      PutIntoSet(a);
      ArmIfChanged(now);
      ok := true;
    }

    method PutIntoSet(a: Address)
      requires Valid() && a in heap.memory && heap.memory[a].expiration > 0 && !InBatch(a)
      modifies heap`timers, heap`earliest, heap`change
      ensures Valid()
      ensures
        var s := old(View());
        var key := Key(s.memory[a].expiration, a);
        View() == if key in s.timers then s else Recached(s, Insert(s.timers, key))
    {
      NotInBatch(a);
      InsertPresent(heap.timers, Key(heap.memory[a].expiration, a));
      var taken := heap.AddTimer(a);
      assert taken ==> Live(heap.memory, heap.timers[0]);
      hide Insert, Sorted, Distinct;
    }

    /** An allocated timer that is not found in the batch by its key is not in it at all. */
    lemma NotInBatch(a: Address)
      requires Valid() && a in heap.memory && !InBatch(a)
      ensures a !in Addresses(expired)
    {
    }

    /** Deleting would follow a cached address whose timer has just been deleted. */
    predicate Dangles(a: Address): (dangles: bool)
      reads this, heap
      requires a in heap.memory
      ensures dangles <==> Dangling(View(), a)
    {
      heap.change && heap.earliest == Some(a) && heap.timers == [Key(heap.memory[a].expiration, a)]
    }

    method MarkMember(a: Address)
      requires Valid() && a in heap.memory && InBatch(a)
      modifies heap`memory
      ensures Valid() && View() == old(View()).(memory := old(heap.memory)[a := old(heap.memory)[a].(state := DELETED)])
    {
      heap.memory := heap.memory[a := heap.memory[a].(state := DELETED)];
      assert a in Addresses(expired);
    }

    /** The timerfd is armed for the cached timer when the flag is set. */
    method ArmIfChanged(now: int)
      requires Valid()
      modifies `settings
      ensures Valid() && View() == Armed(old(View()), now)
    {
      if heap.change {
        ResetTimer(heap.EarliestExpiration(), now);
      }
    }

    method PullFromSet(a: Address)
      requires Valid() && a in heap.memory && !InBatch(a) && !Dangles(a)
      modifies heap
      ensures Valid()
      ensures
        var s := old(View());
        var key := Key(s.memory[a].expiration, a);
        View() == if key !in s.timers then s
                  else Recached(s, Remove(s.timers, key)).(memory := s.memory - {a}, freed := s.freed + [a])
    {
      NotInBatch(a);
      heap.DelTimer(a);
      assert heap.timers != [] ==> Live(heap.memory, heap.timers[0]);
      hide Remove, Sorted, Distinct;
    }

    method DeleteFromSet(a: Address, now: int)
      requires Valid() && a in heap.memory && !InBatch(a) && !Dangles(a)
      modifies `settings, heap
      ensures Valid() && View() == Deleted(old(View()), expired, a, now)
    {
      hide Armed, Recached, Remove;
      PullFromSet(a);
      ArmIfChanged(now);
    }

    /** delTimer: a member of the running batch is only marked; another timer of the set leaves
        it and is deleted. */
    method DelTimer(a: Address, now: int)
      requires Valid() && a in heap.memory && !Dangles(a)
      modifies `settings, heap
      ensures Valid() && View() == Deleted(old(View()), expired, a, now)
    {
      if callbackRunning && Key(heap.memory[a].expiration, a) in expired {
        MarkMember(a);
        return;
      }
      DeleteFromSet(a, now);
    }

    /** The condition is exact: the heap's deletion leaves a change flag that sends the scheduler
        to a cached address with no timer at it if and only if the deletion dangles. */
    method DeleteFromHeap(a: Address)
      requires Valid() && a in heap.memory
      modifies heap
      ensures heap.change && !(heap.earliest.Some? && heap.earliest.value in heap.memory) <==> old(Dangles(a))
    {
      assert heap.timers != [] ==> Live(heap.memory, heap.timers[0]);
      heap.DelTimer(a);
      assert heap.timers != [] ==> Live(heap.memory, heap.timers[0]);
    }

    predicate IsLegal(op: Op): (legal: bool)
      reads this, heap
      ensures legal <==> Legal(View(), op)
    {
      match op
      case Create(a, timer, now) => a !in heap.memory && a < SENTINEL && timer.expiration > 0 && timer.state == ADDED
      case Add(a, now) => a in heap.memory && heap.memory[a].expiration > 0
      case Del(a, now) => a in heap.memory && !Dangles(a)
    }

    method Allocate(a: Address, timer: Timer)
      requires Valid() && a !in heap.memory && a < SENTINEL && timer.state == ADDED
      modifies heap`memory
      ensures Valid() && heap.memory == old(heap.memory)[a := timer]
    {
      heap.memory := heap.memory[a := timer];
    }

    /** One operation of a callback. */
    method Perform(op: Op)
      requires Valid() && callbackRunning
      modifies `settings, heap
      ensures Valid() && View() == Performed(old(View()), expired, op)
    {
      hide Added, Deleted;
      if !IsLegal(op) {
        return;
      }
      match op {
        case Create(a, timer, now) =>
          Allocate(a, timer);
          var _ := AddTimer(a, now);
        case Add(a, now) =>
          var _ := AddTimer(a, now);
        case Del(a, now) =>
          DelTimer(a, now);
      }
    }

    lemma ViewIs()
      ensures View() == State(heap.memory, heap.timers, heap.earliest, heap.change, heap.freed, settings)
    {
    }

    lemma BatchIsApart()
      requires Valid()
      ensures Apart(View(), expired)
    {
    }

    /** One callback: its operations in order. */
    method RunCallback(ops: seq<Op>)
      requires Valid() && callbackRunning
      modifies `settings, heap
      ensures Valid() && View() == AllPerformed(old(View()), expired, ops)
      ensures Marked(old(heap.memory), heap.memory, expired, ops)
      ensures Spares(old(heap.freed), heap.freed, expired)
    {
      hide *;
      ghost var s := View();
      ghost var m := heap.memory;
      NothingMarked(m, heap.freed);
      NonePerformed(s, expired);
      for i := 0 to |ops|
        invariant Valid() && View() == AllPerformed(s, expired, ops[..i])
        invariant Marked(m, heap.memory, expired, ops[..i])
        invariant Spares(old(heap.freed), heap.freed, expired)
      {
        ghost var s1, m1, f1 := View(), heap.memory, heap.freed;
        BatchIsApart();
        ViewIs();
        Perform(ops[i]);
        OneMorePerformed(s, expired, ops, i);
        PerformedLeavesBatch(s1, expired, ops[i]);
        ViewIs();
        MarkedTwice(m, m1, heap.memory, expired, ops, i);
        SparesTwice(old(heap.freed), f1, heap.freed, expired);
      }
      assert ops[..|ops|] == ops;
    }

    lemma NothingMarked(m: map<Address, Timer>, f: seq<Address>)
      requires Valid() && m == heap.memory
      ensures Marked(m, m, expired, []) && Spares(f, f, expired)
    {
    }

    lemma BatchAtStart(script: nat -> seq<Op>)
      requires Valid()
      requires forall k :: k in expired ==> heap.memory[k.timer].state == ADDED
      ensures BatchPerformed(View(), expired, script, 0) == View()
      ensures Runs(expired, script, 0) == [] && MarksTell(heap.memory, heap.memory, expired, [], script)
      ensures Spares(heap.freed, heap.freed, expired)
    {
    }

    /** The loop of handdleRead: each batch member runs unless a callback run before it has
        deleted it. */
    method RunBatch(script: nat -> seq<Op>) returns (ran: seq<bool>)
      requires Valid() && callbackRunning
      requires forall k :: k in expired ==> heap.memory[k.timer].state == ADDED
      modifies `settings, heap
      ensures Valid()
      ensures ran == Runs(expired, script, |expired|)
      ensures View() == BatchPerformed(old(View()), expired, script, |expired|)
      ensures MarksTell(old(heap.memory), heap.memory, expired, ran, script)
      ensures Spares(old(heap.freed), heap.freed, expired)
    {
      hide *;
      ghost var m, s := heap.memory, View();
      BatchAtStart(script);
      ran := [];
      for i := 0 to |expired|
        invariant Valid()
        invariant ran == Runs(expired, script, i)
        invariant View() == BatchPerformed(s, expired, script, i)
        invariant MarksTell(m, heap.memory, expired, ran, script)
        invariant Spares(old(heap.freed), heap.freed, expired)
      {
        ghost var m1, f1 := heap.memory, heap.freed;
        MemberIsMarked(m, m1, expired, ran, script, expired[i]);
        RunsGrow(expired, script, i);
        OneMoreMember(s, expired, script, i);
        var run := heap.memory[expired[i].timer].state != DELETED;
        if run {
          RunCallback(script(i));
        }
        MarksGrow(m, m1, heap.memory, expired, ran, run, script);
        if run {
          SparesTwice(old(heap.freed), f1, heap.freed, expired);
        }
        ran := ran + [run];
      }
    }

    /** The head of handdleRead: the batch is exactly the timers whose time has come. */
    method TakeBatch(now: int)
      requires Valid() && !callbackRunning
      modifies this, heap`timers
      ensures Valid() && callbackRunning && View() == old(View()).(timers := heap.timers)
      ensures expired + heap.timers == old(heap.timers)
      ensures (forall k :: k in expired ==> k.when <= now) && (forall k :: k in heap.timers ==> now < k.when)
      ensures forall k :: k in expired ==> heap.memory[k.timer].state == ADDED
    {
      ghost var s := heap.timers;
      expired := heap.GetExpiredTimers(expired, now);
      callbackRunning := true;
      assert expired[0..] == expired;
      SplitIsDisjoint(heap.memory, s, expired, heap.timers);
      hide Distinct, Addresses, Sorted;
    }

    /** The tail of handdleRead: the batch is restarted or deleted, the timerfd is armed if a
        restarted timer became the earliest, and the batch is forgotten. */
    method FinishBatch(clock: nat -> int, end: int)
      requires Valid() && callbackRunning && forall i :: clock(i) > 0
      modifies this, heap
      ensures Valid() && !callbackRunning && expired == []
      ensures Finished(old(View()), old(expired), clock, end, View())
      ensures heap.change ==> heap.timers != [] && heap.earliest == Some(heap.timers[0].timer)
    {
      hide *;
      ghost var m, s, e, batch, before := heap.memory, heap.timers, heap.earliest, expired, View();
      ViewIs();
      BatchIsReady();
      callbackRunning := false;
      heap.RestartIntervalTimer(expired, clock);
      GoneIs(batch, m);
      if heap.change {
        ChangeIsLeast(s, e, NewKeys(batch, m, clock));
        LeastIsLive();
        ResetTimer(heap.EarliestExpiration(), end);
      }
      expired := [];
      ValidAgain(m, batch);
      ViewIs();
      FinishedIs(before, batch, clock, end, View());
    }

    lemma BatchIsReady()
      requires Valid()
      ensures heap.Valid() && Distinct(expired)
      ensures forall k :: k in expired ==> Live(heap.memory, k) && k.timer in heap.memory
      ensures Sorted(heap.timers)
      ensures forall k :: k in heap.timers ==> Live(heap.memory, k) && k.timer !in Addresses(expired)
      ensures forall a :: a in heap.memory && heap.memory[a].state == DELETED ==> a in Addresses(expired)
    {
    }

    lemma LeastIsLive()
      requires heap.Valid() && heap.timers != [] && heap.earliest == Some(heap.timers[0].timer)
      ensures heap.timers[0].timer in heap.memory && heap.EarliestExpiration() == heap.timers[0].when
    {
      assert Live(heap.memory, heap.timers[0]);
    }

    lemma ValidAgain(m: map<Address, Timer>, batch: seq<Key>)
      requires heap.Valid() && !callbackRunning && expired == []
      requires heap.change ==> heap.timers != [] && heap.earliest == Some(heap.timers[0].timer)
      requires forall a :: a in m && m[a].state == DELETED ==> a in Addresses(batch)
      requires forall a :: a in Gone(batch, m) <==> a in Addresses(batch) && !GoesBack(m, a)
      requires forall a :: a in heap.memory <==> a in m && a !in Gone(batch, m)
      requires forall a :: a in heap.memory ==> heap.memory[a] == m[a].(expiration := heap.memory[a].expiration)
      ensures Valid()
    {
      if heap.change {
        LeastIsLive();
      }
      hide Gone;
    }

    /** handdleRead.  script(j) is what the callback of batch member j does with timers, clock(i)
        the time at which member i is restarted, end the time at which the timerfd is armed.
        The batch is the due timers in order; each runs once at most, and only if no callback
        run before it has deleted it; a repeating member that nobody deleted is in the set
        again; every other member is deleted, once.  Afterwards the timerfd is set for the least
        expiration exactly if the tail has armed it or it was before the tail. */
    method HandleRead(now: int, script: nat -> seq<Op>, clock: nat -> int, end: int)
        returns (ghost batch: seq<Key>, ran: seq<bool>)
      requires Valid() && !callbackRunning && forall i :: clock(i) > 0
      modifies this, heap
      ensures Valid() && !callbackRunning && expired == []
      ensures batch <= old(heap.timers) && forall k :: k in batch ==> k.when <= now
      ensures forall k :: k in old(heap.timers)[|batch|..] ==> now < k.when
      ensures ran == Runs(batch, script, |batch|)
      ensures old(heap.freed) <= heap.freed
      ensures forall i :: 0 <= i < |batch| ==>
        batch[i].timer in old(heap.memory)
        && Fate(batch[i].timer, old(heap.memory)[batch[i].timer], MarkedBy(ran, script, batch[i].timer), clock(i),
                heap.memory, heap.timers, heap.freed[|old(heap.freed)|..])
      ensures
        var taken := old(View()).(timers := old(heap.timers)[|batch|..]);
        var late := BatchPerformed(taken, batch, script, |batch|);
        var keys := NewKeys(batch, late.memory, clock);
        && Finished(late, batch, clock, end, View())
        && (OnTime(View()) <==> SomeChange(late.timers, late.earliest, keys) || Foreseen(late, keys))
      ensures heap.change ==> heap.timers != [] && heap.earliest == Some(heap.timers[0].timer)
    {
      hide *;
      ghost var m, freed, s := heap.memory, heap.freed, heap.timers;
      ViewIs();
      TakeBatch(now);
      batch := expired;
      ViewIs();
      SuffixIs(s, batch, heap.timers);
      BatchIsReady();
      ran := RunBatch(script);
      BatchIsReady();
      ghost var late := View();
      ViewIs();
      FinishBatch(clock, end);
      BatchIsReady();
      ViewIs();
      Account(m, freed, late, View(), batch, ran, script, clock, end);
      TailIsExact(late, batch, clock, end, View());
    }
  }
}
