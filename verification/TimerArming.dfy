// When the timerfd is set for the least expiration of the set.  The scheduler arms for the
// cached timer whenever it sees the change flag, and several operations return with a flag that
// an earlier one has left, so this is not always so; here it is told exactly when.

module TimerArming {
  import opened Collections
  import opened TimerHeaps
  import opened TimerOperations

  ghost predicate Sound(s: State) {
    Sorted(s.timers) && forall k :: k in s.timers ==> Live(s.memory, k)
  }

  /** The expiration for which the timerfd was last armed. */
  function ArmedFor(s: State): Option<int> {
    if s.settings == [] then None else Some(s.settings[|s.settings| - 1].when)
  }

  /** The timerfd was last armed for the least expiration of the set. */
  predicate OnTime(s: State) {
    s.timers != [] && ArmedFor(s) == Some(s.timers[0].when)
  }

  /** And the cached timer is the least one. */
  predicate Tuned(s: State) {
    OnTime(s) && s.earliest == Some(s.timers[0].timer)
  }

  /** The cached timer is allocated and has the least expiration of the set. */
  predicate CacheIsLeast(s: State) {
    && s.timers != [] && s.earliest.Some? && s.earliest.value in s.memory
    && s.memory[s.earliest.value].expiration == s.timers[0].when
  }

  lemma LeastIsFirst(s: seq<Key>)
    requires Sorted(s) && s != []
    ensures forall k :: k in s ==> s[0].when <= k.when
  {
    forall k | k in s
      ensures s[0].when <= k.when
    {
      var i :| 0 <= i < |s| && s[i] == k;
      assert i > 0 ==> Less(s[0], s[i]);
    }
  }

  // ------------------------------------------------------------- one operation

  /** The flag is set and the cached timer is allocated, so that the timerfd is armed again. */
  predicate ArmsAgain(s: State) {
    s.change && s.earliest.Some? && s.earliest.value in s.memory
  }

  /** Cache, flag and timerfd follow the set: the cached timer is the least, the flag says whether
      it is another one than before, and exactly then the timerfd is armed, for the least
      expiration. */
  ghost predicate Follows(s: State, d: State, now: int) {
    && d.timers != [] && (forall k :: k in d.timers ==> d.timers[0].when <= k.when)
    && d.earliest == Some(d.timers[0].timer)
    && (d.change <==> d.earliest != s.earliest)
    && d.settings == s.settings + if d.change then [SettingFor(d.timers[0].when, now)] else []
  }

  /** Nothing changes but the timerfd, which is armed for the timer cached earlier. */
  ghost predicate Repeats(s: State, d: State, now: int) {
    d == if !ArmsAgain(s) then s
         else s.(settings := s.settings + [SettingFor(s.memory[s.earliest.value].expiration, now)])
  }

  lemma RecachedFollows(s: State, timers: seq<Key>, memory: map<Address, Timer>, freed: seq<Address>, now: int)
    requires Sorted(timers) && timers != [] && Live(memory, timers[0])
    ensures Follows(s, Armed(Recached(s, timers).(memory := memory, freed := freed), now), now)
  {
    LeastIsFirst(timers);
    hide Sorted;
  }

  /** An addition: refused for a batch member, an arming from the old cache for a timer that the
      set holds, and otherwise cache and timerfd follow. */
  lemma AdditionArms(s: State, batch: seq<Key>, a: Address, now: int)
    requires Sound(s) && a in s.memory
    ensures
      var key := Key(s.memory[a].expiration, a);
      var d := Added(s, batch, a, now);
      if key in batch then d == s
      else if key in s.timers then Repeats(s, d, now)
      else (forall k :: k in d.timers <==> k in s.timers || k == key) && Follows(s, d, now)
  {
    var key := Key(s.memory[a].expiration, a);
    if key !in batch && key !in s.timers {
      var timers := Insert(s.timers, key);
      InsertKeepsOrder(s.timers, key);
      assert timers[0] in timers;
      RecachedFollows(s, timers, s.memory, s.freed, now);
      var r := Recached(s, timers);
      assert r.(memory := s.memory, freed := s.freed) == r;
    }
    hide Insert, Sorted, Recached, Armed, Follows, Repeats;
  }

  /** A deletion: a mark for a batch member, an arming from the old cache for a timer that the set
      does not hold, and again, if the cached timer is allocated, when the last one leaves;
      otherwise cache and timerfd follow. */
  lemma DeletionArms(s: State, batch: seq<Key>, a: Address, now: int)
    requires Sound(s) && a in s.memory
    ensures
      var key := Key(s.memory[a].expiration, a);
      var d := Deleted(s, batch, a, now);
      if key in batch then d == s.(memory := s.memory[a := s.memory[a].(state := DELETED)])
      else if key !in s.timers then Repeats(s, d, now)
      else if |s.timers| == 1 then
        Repeats(s.(timers := [], memory := s.memory - {a}, freed := s.freed + [a]), d, now)
      else (forall k :: k in d.timers <==> k in s.timers && k.timer != a) && Follows(s, d, now)
  {
    var key := Key(s.memory[a].expiration, a);
    if key !in batch && key in s.timers {
      var timers := Remove(s.timers, key);
      RemovedIsOther(s, key);
      RemovingIsSound(s, a);
      if |s.timers| > 1 {
        assert timers[0] in timers;
        RecachedFollows(s, timers, s.memory - {a}, s.freed + [a], now);
      }
    }
    hide Remove, Sorted, Follows;
  }

  lemma RemovedIsOther(s: State, key: Key)
    requires Sound(s) && key in s.timers
    ensures Sorted(Remove(s.timers, key)) && |Remove(s.timers, key)| == |s.timers| - 1
    ensures forall k :: k in Remove(s.timers, key) <==> k in s.timers && k.timer != key.timer
  {
    RemoveIs(s.timers, key);
    forall k | k in s.timers
      ensures k.timer == key.timer ==> k == key
    {
      assert Live(s.memory, k) && Live(s.memory, key);
    }
    hide Remove, Sorted;
  }

  /** The set gains or loses a timer. */
  predicate ChangesSet(s: State, batch: seq<Key>, op: Op) {
    Legal(s, op)
    && var key := Key(if op.Create? then op.timer.expiration else s.memory[op.a].expiration, op.a);
       key !in batch && (key in s.timers <==> op.Del?)
  }

  /** What an operation does to the set, the cache and the timerfd. */
  lemma OperationArms(s: State, batch: seq<Key>, op: Op)
    requires Sound(s)
    ensures
      var d := Performed(s, batch, op);
      if !ChangesSet(s, batch, op) then
        && d.timers == s.timers && d.earliest == s.earliest && d.change == s.change
        && (d.settings == s.settings
            || (ArmsAgain(s) && d.settings == s.settings + [SettingFor(s.memory[s.earliest.value].expiration, op.now)]))
      else if op.Del? && |s.timers| == 1 then d.timers == []
      else Follows(s, d, op.now)
  {
    if Legal(s, op) {
      match op
      case Create(a, timer, now) =>
        CreatedIsSound(s, a, timer);
        AdditionArms(s.(memory := s.memory[a := timer]), batch, a, now);
      case Add(a, now) =>
        AdditionArms(s, batch, a, now);
      case Del(a, now) =>
        DeletionArms(s, batch, a, now);
    }
    hide Added, Deleted, Sorted;
  }

  /** The operation leaves the set as it is, and the scheduler sees a flag that an earlier one has
      left. */
  predicate ArmsFromOldCache(s: State, batch: seq<Key>, op: Op) {
    !op.Create? && Legal(s, op) && ArmsAgain(s)
    && var key := Key(s.memory[op.a].expiration, op.a);
       key !in batch && (key in s.timers <==> op.Add?)
  }

  /** The least of the set after an operation that changes it without emptying it. */
  function LeastAfter(s: State, op: Op): Key
    requires op.Create? || op.a in s.memory
    requires op.Del? ==> |s.timers| > 1
  {
    var key := Key(if op.Create? then op.timer.expiration else s.memory[op.a].expiration, op.a);
    if op.Del? then if s.timers[0] == key then s.timers[1] else s.timers[0]
    else if s.timers == [] || Less(key, s.timers[0]) then key
    else s.timers[0]
  }

  /** Whether the timerfd is set for the least expiration after an operation, told from the state
      before it.  When the operation changes the set: exactly if the new least timer is not the
      one cached before, for then it is armed, or it was armed for that very expiration.  When
      it does not: exactly if the timer cached before has the least expiration, where the flag
      makes the scheduler arm for it, and otherwise if it was so before. */
  lemma OnTimeExactly(s: State, batch: seq<Key>, op: Op)
    requires Sound(s)
    ensures
      var d := Performed(s, batch, op);
      if !ChangesSet(s, batch, op) then
        && (d.settings != s.settings <==> ArmsFromOldCache(s, batch, op))
        && (OnTime(d) <==> if ArmsFromOldCache(s, batch, op) then CacheIsLeast(s) else OnTime(s))
        && (Tuned(d) <==> OnTime(d) && s.timers != [] && s.earliest == Some(s.timers[0].timer))
      else if op.Del? && |s.timers| == 1 then d.timers == [] && !OnTime(d)
      else
        var least := LeastAfter(s, op);
        && d.timers != [] && d.timers[0] == least
        && (d.settings != s.settings <==> s.earliest != Some(least.timer))
        && (OnTime(d) <==> s.earliest != Some(least.timer) || ArmedFor(s) == Some(least.when))
        && (Tuned(d) <==> OnTime(d))
  {
    OperationArms(s, batch, op);
    if ChangesSet(s, batch, op) {
      if !(op.Del? && |s.timers| == 1) {
        LeastAfterIsLeast(s, batch, op);
      }
    } else {
      UnchangedArms(s, batch, op);
    }
    hide Performed, ChangesSet, Sorted, LeastAfter;
  }

  lemma UnchangedArms(s: State, batch: seq<Key>, op: Op)
    requires Sound(s) && !ChangesSet(s, batch, op)
    ensures
      var d := Performed(s, batch, op);
      d.settings == if !ArmsFromOldCache(s, batch, op) then s.settings
                    else s.settings + [SettingFor(s.memory[s.earliest.value].expiration, op.now)]
  {
    if op.Create? && Legal(s, op) {
      CreatedIsSound(s, op.a, op.timer);
    }
    hide Sorted, Insert, Remove;
  }

  lemma LeastAfterIsLeast(s: State, batch: seq<Key>, op: Op)
    requires Sound(s) && ChangesSet(s, batch, op) && !(op.Del? && |s.timers| == 1)
    ensures (op.Create? || op.a in s.memory) && (op.Del? ==> |s.timers| > 1)
    ensures Performed(s, batch, op).timers != [] && Performed(s, batch, op).timers[0] == LeastAfter(s, op)
  {
    var key := Key(if op.Create? then op.timer.expiration else s.memory[op.a].expiration, op.a);
    if op.Del? {
      RemovedFirst(s.timers, key);
    } else {
      InsertedFirst(s.timers, key);
    }
    hide Insert, Remove, Sorted, Less;
  }

  lemma InsertedFirst(s: seq<Key>, key: Key)
    requires key !in s
    ensures Insert(s, key) != [] && Insert(s, key)[0] == if s == [] || Less(key, s[0]) then key else s[0]
  {
    var n := LowerBound(s, key);
    assert n < |s| ==> s[n] in s;
    if s != [] {
      assert s[0] in s;
      LessIsTotal(s[0], key);
    }
  }

  lemma LessIsTotal(x: Key, y: Key)
    ensures Less(x, y) || Less(y, x) || x == y
  {
  }

  lemma RemovedFirst(s: seq<Key>, key: Key)
    requires Sorted(s) && key in s && |s| > 1
    ensures Remove(s, key) != [] && Remove(s, key)[0] == if s[0] == key then s[1] else s[0]
  {
    LowerBoundSplits(s, key);
    hide Sorted;
  }

  lemma CreatedIsSound(s: State, a: Address, timer: Timer)
    requires Sound(s) && a !in s.memory
    ensures Sound(s.(memory := s.memory[a := timer]))
    ensures forall k :: k in s.timers ==> k.timer != a
  {
  }

  lemma FirstIsLive(s: State)
    requires Sound(s)
    ensures s.timers != [] ==>
      s.timers[0].timer in s.memory && s.memory[s.timers[0].timer].expiration == s.timers[0].when
  {
    if s.timers != [] {
      assert Live(s.memory, s.timers[0]);
    }
  }

  lemma AddedIsSound(s: State, batch: seq<Key>, a: Address, now: int)
    requires Sound(s) && a in s.memory
    ensures Sound(Added(s, batch, a, now))
  {
    InsertKeepsOrder(s.timers, Key(s.memory[a].expiration, a));
    hide Sorted, Insert;
  }

  lemma DeletedIsSound(s: State, batch: seq<Key>, a: Address, now: int)
    requires Sound(s) && a in s.memory
    ensures Sound(Deleted(s, batch, a, now))
  {
    var key := Key(s.memory[a].expiration, a);
    if key in s.timers {
      RemovingIsSound(s, a);
    }
    hide Sorted, Remove;
  }

  lemma RemovingIsSound(s: State, a: Address)
    requires Sound(s) && a in s.memory && Key(s.memory[a].expiration, a) in s.timers
    ensures
      var timers := Remove(s.timers, Key(s.memory[a].expiration, a));
      Sorted(timers) && forall k :: k in timers ==> Live(s.memory - {a}, k)
  {
    RemovedIsOther(s, Key(s.memory[a].expiration, a));
    hide Remove, Sorted;
  }

  lemma SoundIsKept(s: State, batch: seq<Key>, op: Op)
    requires Sound(s)
    ensures Sound(Performed(s, batch, op))
  {
    if Legal(s, op) {
      match op
      case Create(a, timer, now) =>
        CreatedIsSound(s, a, timer);
        AddedIsSound(s.(memory := s.memory[a := timer]), batch, a, now);
      case Add(a, now) =>
        AddedIsSound(s, batch, a, now);
      case Del(a, now) =>
        DeletedIsSound(s, batch, a, now);
    }
    hide Sound, Added, Deleted;
  }

  /** Once the timerfd is set for the least timer and that one is cached, operations keep it so as
      long as they leave timers in the set. */
  lemma TunedIsKept(s: State, batch: seq<Key>, op: Op)
    requires Sound(s) && Tuned(s)
    ensures
      var d := Performed(s, batch, op);
      Sound(d) && (d.timers != [] ==> Tuned(d))
  {
    SoundIsKept(s, batch, op);
    OperationArms(s, batch, op);
    FirstIsLive(s);
    FirstIsLive(Performed(s, batch, op));
    ExpirationsStay(s, batch, op);
    hide Performed, Sorted, ChangesSet;
  }

  lemma ExpirationsStay(s: State, batch: seq<Key>, op: Op)
    ensures
      var d := Performed(s, batch, op);
      forall a :: a in s.memory && a in d.memory ==> d.memory[a].expiration == s.memory[a].expiration
  {
  }

  lemma {:induction false} TunedIsKeptByAll(s: State, batch: seq<Key>, ops: seq<Op>)
    requires Sound(s) && Tuned(s)
    requires forall i :: 0 <= i <= |ops| ==> AllPerformed(s, batch, ops[..i]).timers != []
    ensures Sound(AllPerformed(s, batch, ops)) && Tuned(AllPerformed(s, batch, ops))
  {
    if ops != [] {
      var n := |ops| - 1;
      forall i | 0 <= i <= n
        ensures ops[..n][..i] == ops[..i]
      {
      }
      TunedIsKeptByAll(s, batch, ops[..n]);
      assert ops[..|ops|] == ops;
      TunedIsKept(AllPerformed(s, batch, ops[..n]), batch, ops[n]);
    }
    hide Performed, Tuned, Sound;
  }

  // ------------------------------------------------------------- the tail of handdleRead

  /** The tail of handdleRead arms the timerfd exactly when, for some restarted members, the set
      with them has another least timer than the one cached before. */
  lemma {:induction false} ChangeIff(s: seq<Key>, cached: Option<Address>, keys: seq<Key>)
    ensures SomeChange(s, cached, keys)
      <==> exists n :: 1 <= n <= |keys| && Some(InsertAll(s, keys[..n])[0].timer) != cached
  {
    if keys != [] {
      var init := keys[..|keys| - 1];
      ChangeIff(s, cached, init);
      assert keys[..|keys|] == keys;
      forall n | 1 <= n <= |init|
        ensures init[..n] == keys[..n]
      {
      }
      if n :| 1 <= n <= |init| && Some(InsertAll(s, init[..n])[0].timer) != cached {
        assert Some(InsertAll(s, keys[..n])[0].timer) != cached;
      }
      if n :| 1 <= n <= |keys| && Some(InsertAll(s, keys[..n])[0].timer) != cached {
        assert n < |keys| ==> Some(InsertAll(s, init[..n])[0].timer) != cached;
      }
      assert init != [] ==> init[..|init|] == init;
    }
  }

  /** The least of the expirations that the set holds and that are about to be added is the one
      for which the timerfd is armed already. */
  ghost predicate Foreseen(s: State, keys: seq<Key>) {
    && ArmedFor(s).Some?
    && (exists k :: (k in s.timers || k in keys) && k.when == ArmedFor(s).value)
    && (forall k :: k in s.timers || k in keys ==> ArmedFor(s).value <= k.when)
  }

  /** Whether the timerfd is set for the least expiration after a batch, told from what the
      callbacks have left and the keys with which members go back: exactly when the tail arms,
      or the timerfd was armed for the least of them already. */
  lemma TailIsExact(late: State, batch: seq<Key>, clock: nat -> int, end: int, d: State)
    requires Sorted(late.timers) && Finished(late, batch, clock, end, d)
    ensures
      var keys := NewKeys(batch, late.memory, clock);
      OnTime(d) <==> SomeChange(late.timers, late.earliest, keys) || Foreseen(late, keys)
  {
    var keys := NewKeys(batch, late.memory, clock);
    InsertAllHas(late.timers, keys);
    FinishedArms(late, batch, clock, end, d);
    hide Finished, InsertAll, NewKeys, SomeChange, CachedAfter, ArmedFor;
    if d.timers != [] {
      LeastIsFirst(d.timers);
      assert d.timers[0] in d.timers;
      hide Sorted;
    }
  }

  /** In particular it is, whatever goes back, when the callbacks have left it set for the least
      timer and that one cached. */
  lemma TailKeepsTuned(late: State, batch: seq<Key>, clock: nat -> int, end: int, d: State)
    requires Sound(late) && Apart(late, batch) && Tuned(late) && Finished(late, batch, clock, end, d)
    ensures Tuned(d)
  {
    hide *;
    var keys := NewKeys(batch, late.memory, clock);
    TunedMeans(late);
    InsertAllHas(late.timers, keys);
    FinishedArms(late, batch, clock, end, d);
    if SomeChange(late.timers, late.earliest, keys) {
      ChangeIsLeast(late.timers, late.earliest, keys);
    } else {
      NoChangeKeepsCache(late.timers, late.earliest, keys);
      NewKeysAreMembers(batch, late.memory, clock);
      NotMember(late, batch);
      assert late.timers[0] in d.timers;
      assert d.timers[0] in d.timers;
      LeastStays(late, keys, d.timers[0]);
    }
    TunedMeans(d);
  }

  lemma TunedMeans(s: State)
    ensures Tuned(s)
       <==> s.timers != [] && ArmedFor(s) == Some(s.timers[0].when) && s.earliest == Some(s.timers[0].timer)
    ensures Sound(s) ==> Sorted(s.timers)
  {
  }

  lemma FinishedArms(s: State, batch: seq<Key>, clock: nat -> int, end: int, d: State)
    requires Finished(s, batch, clock, end, d)
    ensures
      var keys := NewKeys(batch, s.memory, clock);
      && d.timers == InsertAll(s.timers, keys)
      && d.earliest == CachedAfter(s.timers, s.earliest, keys)
      && if SomeChange(s.timers, s.earliest, keys) then d.timers != [] && ArmedFor(d) == Some(d.timers[0].when)
         else ArmedFor(d) == ArmedFor(s)
  {
  }

  lemma NotMember(s: State, batch: seq<Key>)
    requires Apart(s, batch) && s.timers != []
    ensures s.timers[0].timer !in Addresses(batch)
  {
    assert s.timers[0] in s.timers;
  }

  lemma LeastStays(s: State, keys: seq<Key>, k: Key)
    requires Sound(s) && s.timers != [] && (k in s.timers || k in keys) && k.timer == s.timers[0].timer
    requires forall k' :: k' in keys ==> k'.timer != s.timers[0].timer
    ensures k == s.timers[0]
  {
    assert Live(s.memory, s.timers[0]);
    if k in s.timers {
      assert Live(s.memory, k);
    }
  }

  // ------------------------------------------------------------- a whole batch

  lemma AddedIsApart(s: State, batch: seq<Key>, a: Address, now: int)
    requires Sound(s) && Apart(s, batch) && a in s.memory
    ensures Apart(Added(s, batch, a, now), batch)
  {
    var key := Key(s.memory[a].expiration, a);
    InsertKeepsOrder(s.timers, key);
    if key !in batch {
      OutsideBatch(s, batch, key);
    }
    hide Insert, Sorted, Addresses;
  }

  lemma DeletedIsApart(s: State, batch: seq<Key>, a: Address, now: int)
    requires Sound(s) && Apart(s, batch) && a in s.memory
    ensures Apart(Deleted(s, batch, a, now), batch)
  {
    var key := Key(s.memory[a].expiration, a);
    if key !in batch {
      OutsideBatch(s, batch, key);
      if key in s.timers {
        RemoveIs(s.timers, key);
      }
    }
    hide Remove, Sorted, Addresses;
  }

  lemma OutsideBatch(s: State, batch: seq<Key>, key: Key)
    requires Apart(s, batch) && key !in batch && Live(s.memory, key)
    ensures key.timer !in Addresses(batch)
    ensures forall k :: k in batch ==> k.timer != key.timer
  {
  }

  lemma ApartIsKept(s: State, batch: seq<Key>, op: Op)
    requires Sound(s) && Apart(s, batch)
    ensures Apart(Performed(s, batch, op), batch)
  {
    if Legal(s, op) {
      match op
      case Create(a, timer, now) =>
        CreatedIsSound(s, a, timer);
        AddedIsApart(s.(memory := s.memory[a := timer]), batch, a, now);
      case Add(a, now) =>
        AddedIsApart(s, batch, a, now);
      case Del(a, now) =>
        DeletedIsApart(s, batch, a, now);
    }
    hide Added, Deleted, Sound, Addresses;
  }

  lemma {:induction false} AllIsKept(s: State, batch: seq<Key>, ops: seq<Op>)
    requires Sound(s) && Apart(s, batch)
    ensures Sound(AllPerformed(s, batch, ops)) && Apart(AllPerformed(s, batch, ops), batch)
  {
    if ops != [] {
      var before := AllPerformed(s, batch, ops[..|ops| - 1]);
      AllIsKept(s, batch, ops[..|ops| - 1]);
      SoundIsKept(before, batch, ops[|ops| - 1]);
      ApartIsKept(before, batch, ops[|ops| - 1]);
    }
    hide Performed, Sound, Apart;
  }

  lemma {:induction false} BatchIsKept(s: State, batch: seq<Key>, script: nat -> seq<Op>, n: nat)
    requires n <= |batch| && Sound(s) && Apart(s, batch)
    ensures Sound(BatchPerformed(s, batch, script, n)) && Apart(BatchPerformed(s, batch, script, n), batch)
  {
    if n > 0 {
      BatchIsKept(s, batch, script, n - 1);
      AllIsKept(BatchPerformed(s, batch, script, n - 1), batch, script(n - 1));
    }
    hide AllPerformed, Sound, Apart;
  }

  /** From the k-th member's callback on, no operation empties the set. */
  ghost predicate NeverEmpty(s: State, batch: seq<Key>, script: nat -> seq<Op>, k: nat) {
    forall j, i :: k <= j < |batch| && 0 <= i <= |script(j)| ==>
      AllPerformed(BatchPerformed(s, batch, script, j), batch, script(j)[..i]).timers != []
  }

  lemma {:induction false} BatchKeepsTuned(s: State, batch: seq<Key>, script: nat -> seq<Op>, k: nat, n: nat)
    requires k <= n <= |batch| && Sound(s) && Apart(s, batch)
    requires Tuned(BatchPerformed(s, batch, script, k)) && NeverEmpty(s, batch, script, k)
    ensures Tuned(BatchPerformed(s, batch, script, n))
    decreases n - k
  {
    hide Sound, Apart, Tuned, AllPerformed;
    if k < n {
      BatchKeepsTuned(s, batch, script, k, n - 1);
      BatchIsKept(s, batch, script, n - 1);
      var before := BatchPerformed(s, batch, script, n - 1);
      var ops := script(n - 1);
      forall i | 0 <= i <= |ops|
        ensures AllPerformed(before, batch, ops[..i]).timers != []
      {
      }
      TunedIsKeptByAll(before, batch, ops);
    }
  }

  /** The law of a batch: if after some callback the timerfd is set for the least timer of the set
      and that one is cached, and no later operation empties the set, then it is so after
      handdleRead, whatever else the callbacks do and whatever goes back. */
  lemma BatchLeavesTuned(s: State, batch: seq<Key>, script: nat -> seq<Op>, k: nat, clock: nat -> int,
                         end: int, d: State)
    requires k <= |batch| && Sound(s) && Apart(s, batch)
    requires Tuned(BatchPerformed(s, batch, script, k)) && NeverEmpty(s, batch, script, k)
    requires Finished(BatchPerformed(s, batch, script, |batch|), batch, clock, end, d)
    ensures Tuned(d)
  {
    hide Sound, Apart, Tuned, Finished, BatchPerformed, NeverEmpty;
    BatchIsKept(s, batch, script, |batch|);
    BatchKeepsTuned(s, batch, script, k, |batch|);
    TailKeepsTuned(BatchPerformed(s, batch, script, |batch|), batch, clock, end, d);
  }

  lemma NoChangeKeepsCache(s: seq<Key>, cached: Option<Address>, keys: seq<Key>)
    requires !SomeChange(s, cached, keys)
    ensures CachedAfter(s, cached, keys) == cached && (keys == [] ==> InsertAll(s, keys) == s)
    ensures keys != [] ==> InsertAll(s, keys) != [] && Some(InsertAll(s, keys)[0].timer) == cached
  {
    if keys != [] {
      ChangeIff(s, cached, keys);
      assert keys[..|keys|] == keys;
    }
  }

  lemma {:induction false} NewKeysAreMembers(batch: seq<Key>, m: map<Address, Timer>, clock: nat -> int)
    ensures forall k :: k in NewKeys(batch, m, clock) ==> k.timer in Addresses(batch)
  {
    if batch != [] {
      NewKeysAreMembers(batch[..|batch| - 1], m, clock);
      assert batch[|batch| - 1] in batch;
    }
  }

  // ------------------------------------------------------------- where it fails

  lemma CreateInEmpty(s: State, batch: seq<Key>, a: Address, timer: Timer, now: int)
    requires s.timers == [] && Legal(s, Create(a, timer, now)) && Key(timer.expiration, a) !in batch
    ensures Performed(s, batch, Create(a, timer, now))
         == s.(memory := s.memory[a := timer], timers := [Key(timer.expiration, a)], earliest := Some(a),
               change := s.earliest != Some(a),
               settings := s.settings + if s.earliest != Some(a) then [SettingFor(timer.expiration, now)] else [])
  {
  }

  /** A timer that is added to an empty set cannot be deleted next: the deletion would follow its
      address after it is gone, unless the same address is cached from an earlier timer. */
  lemma NewTimerDangles(s: State, batch: seq<Key>, a: Address, timer: Timer, now: int)
    requires s.timers == [] && Legal(s, Create(a, timer, now)) && Key(timer.expiration, a) !in batch
    ensures
      var d := Performed(s, batch, Create(a, timer, now));
      a in d.memory && (Dangling(d, a) <==> s.earliest != Some(a))
  {
    CreateInEmpty(s, batch, a, timer, now);
    hide Performed;
  }

  /** A refused addition arms from a cache that the batch has left behind: of two timers the
      earlier one has expired, its callback adds the other one, which the set holds already,
      and the timerfd is armed for the expiration that is over. */
  lemma StaleArming()
    ensures
      var later, sooner := Timer(100, 0, false, ADDED), Timer(50, 0, false, ADDED);
      var empty := State(map[], [], None, false, [], []);
      var both := Performed(Performed(empty, [], Create(1, later, 0)), [], Create(2, sooner, 0));
      var taken := both.(timers := both.timers[1..]);
      var d := Performed(taken, both.timers[..1], Add(1, 60));
      && both.timers == [Key(50, 2), Key(100, 1)]
      && d.timers == [Key(100, 1)] && d.settings == taken.settings + [SettingFor(50, 60)] && !OnTime(d)
  {
    var later, sooner := Timer(100, 0, false, ADDED), Timer(50, 0, false, ADDED);
    var empty := State(map[], [], None, false, [], []);
    CreateInEmpty(empty, [], 1, later, 0);
    var one := Performed(empty, [], Create(1, later, 0));
    assert one.timers == [Key(100, 1)] && one.memory == map[1 := later] && one.earliest == Some(1);
    var both := Performed(one, [], Create(2, sooner, 0));
    assert both.timers == [Key(50, 2), Key(100, 1)];
  }

  /** And a timer at a reused address is not armed at all: the only timer has fired and is deleted,
      so that the set is empty and its address is still cached; when the allocator gives that
      address to the next timer, its expiration is never given to timerfd_settime. */
  lemma ReusedAddress(when: int, now: int, clock: nat -> int, end: int, d: State)
    requires when > 0 && when != 50
    requires
      var s := Performed(State(map[], [], None, false, [], []), [], Create(1, Timer(50, 0, false, ADDED), 0));
      Finished(s.(timers := []), s.timers, clock, end, d)
    ensures
      var op := Create(1, Timer(when, 0, false, ADDED), now);
      var e := Performed(d, [], op);
      && Legal(d, op) && e.timers == [Key(when, 1)]
      && e.settings == d.settings && ArmedFor(e) == Some(50) && !OnTime(e)
  {
    var empty := State(map[], [], None, false, [], []);
    var first := Timer(50, 0, false, ADDED);
    CreateInEmpty(empty, [], 1, first, 0);
    var s := Performed(empty, [], Create(1, first, 0));
    var late := s.(timers := []);
    assert s.timers == [Key(50, 1)];
    NothingGoesBack([], late.earliest, s.timers, late.memory, clock);
    FinishedArms(late, s.timers, clock, end, d);
    FinishedMeans(late, s.timers, clock, end, d);
    GoneIs(s.timers, late.memory);
    InAddresses(s.timers, 0);
    assert 1 !in d.memory;
    CreateInEmpty(d, [], 1, Timer(when, 0, false, ADDED), now);
    hide Finished, NewKeys, Gone, Performed, InsertAll, SomeChange;
  }

  /** A batch of which nothing goes back, and whose callbacks do nothing with timers, leaves the
      timerfd set for an expiration that is over, whatever timers the set still holds. */
  lemma OneShotsMiss(s: State, batch: seq<Key>, rest: seq<Key>, clock: nat -> int, end: int, d: State)
    requires OnTime(s) && s.timers == batch + rest && batch != [] && rest != [] && batch[0].when < rest[0].when
    requires forall k :: k in batch ==> !GoesBack(s.memory, k.timer)
    requires Finished(s.(timers := rest), batch, clock, end, d)
    ensures d.timers == rest && ArmedFor(d) == Some(batch[0].when) && !OnTime(d)
  {
    NothingGoesBack(rest, s.earliest, batch, s.memory, clock);
    hide NewKeys, Gone;
  }

  lemma {:induction false} NothingGoesBack(s: seq<Key>, cached: Option<Address>, batch: seq<Key>,
                                           m: map<Address, Timer>, clock: nat -> int)
    requires forall k :: k in batch ==> !GoesBack(m, k.timer)
    ensures NewKeys(batch, m, clock) == [] && !SomeChange(s, cached, NewKeys(batch, m, clock))
  {
    if batch != [] {
      NothingGoesBack(s, cached, batch[..|batch| - 1], m, clock);
      assert batch[|batch| - 1] in batch;
    }
  }

  /** So does a lone repeating timer that was the cached one: its new expiration is never given to
      timerfd_settime. */
  lemma LoneTimerMisses(s: State, key: Key, clock: nat -> int, end: int, d: State)
    requires s.timers == [key] && Tuned(s) && GoesBack(s.memory, key.timer)
    requires clock(0) + s.memory[key.timer].interval > key.when
    requires Finished(s.(timers := []), [key], clock, end, d)
    ensures
      && d.timers == [Key(clock(0) + s.memory[key.timer].interval, key.timer)]
      && ArmedFor(d) == Some(key.when) && !OnTime(d)
  {
    LoneKey(key, s.memory, clock);
    hide NewKeys, Gone, InsertAll, SomeChange;
  }

  lemma LoneKey(key: Key, m: map<Address, Timer>, clock: nat -> int)
    requires GoesBack(m, key.timer)
    ensures
      var keys := NewKeys([key], m, clock);
      InsertAll([], keys) == [Key(clock(0) + m[key.timer].interval, key.timer)]
        && !SomeChange([], Some(key.timer), keys)
  {
    var keys := NewKeys([key], m, clock);
    assert [key][..0] == [];
    assert NewKeys([key][..0], m, clock) == [];
    assert keys == [Key(clock(0) + m[key.timer].interval, key.timer)];
    assert keys[..0] == [];
  }

  /** But a callback that makes a timer makes up for it: the batch is one timer that does not
      repeat, its callback makes another, and the tail need not arm. */
  lemma CallbackArms(when: int, now: int, clock: nat -> int, end: int, d: State)
    requires when > 0
    requires
      var one := State(map[], [], None, false, [], []);
      var s := Performed(one, [], Create(1, Timer(50, 0, false, ADDED), 0));
      var late := Performed(s.(timers := []), s.timers, Create(2, Timer(when, 0, false, ADDED), now));
      Finished(late, s.timers, clock, end, d)
    ensures !d.change && d.timers == [Key(when, 2)] && OnTime(d)
  {
    var empty := State(map[], [], None, false, [], []);
    var first, second := Timer(50, 0, false, ADDED), Timer(when, 0, false, ADDED);
    CreateInEmpty(empty, [], 1, first, 0);
    var s := Performed(empty, [], Create(1, first, 0));
    CreateInEmpty(s.(timers := []), s.timers, 2, second, now);
    var late := Performed(s.(timers := []), s.timers, Create(2, second, now));
    NothingGoesBack(late.timers, late.earliest, s.timers, late.memory, clock);
    hide NewKeys, Gone, Performed;
  }
}
