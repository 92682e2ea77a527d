// The ordered set of timers of base/TimerHeap.cpp, with its cached earliest timer.  The set
// holds pairs of an expiration and the address of a timer; the timers themselves live in
// memory, which deleting a timer shrinks.

module TimerHeaps {
  import opened Collections

  type Address = nat

  /** UINTPTR_MAX: no timer lives there. */
  const SENTINEL: Address := 0xFFFF_FFFF_FFFF_FFFF

  datatype TimerState = ADDED | DELETED

  /** Times are microseconds; interval is what addTime adds to the clock. */
  datatype Timer = Timer(expiration: int, interval: nat, repeat: bool, state: TimerState)

  datatype Key = Key(when: int, timer: Address)

  /** The order of std::pair<Timestamp, Timer*>. */
  predicate Less(x: Key, y: Key) {
    x.when < y.when || (x.when == y.when && x.timer < y.timer)
  }

  ghost predicate Sorted(s: seq<Key>) {
    forall i, j :: 0 <= i < j < |s| ==> Less(s[i], s[j])
  }

  /** lower_bound: how many elements are less than the key. */
  function LowerBound(s: seq<Key>, key: Key): (n: nat)
    ensures n <= |s|
    ensures forall i :: 0 <= i < n ==> Less(s[i], key)
    ensures n < |s| ==> !Less(s[n], key)
  {
    if s == [] || !Less(s[0], key) then 0 else 1 + LowerBound(s[1..], key)
  }

  lemma LowerBoundSplits(s: seq<Key>, key: Key)
    requires Sorted(s)
    ensures forall i :: LowerBound(s, key) <= i < |s| ==> !Less(s[i], key)
    ensures key in s <==> LowerBound(s, key) < |s| && s[LowerBound(s, key)] == key
  {
    var n := LowerBound(s, key);
    forall i | n <= i < |s|
      ensures !Less(s[i], key) && (s[i] == key ==> i == n)
    {
      if i > n {
        assert Less(s[n], s[i]);
      }
    }
  }

  /** insert: the set with the key in its place; nothing changes when it is there. */
  function Insert(s: seq<Key>, key: Key): seq<Key> {
    var n := LowerBound(s, key);
    if n < |s| && s[n] == key then s else s[..n] + [key] + s[n..]
  }

  lemma SpliceIsSorted(a: seq<Key>, key: Key, b: seq<Key>)
    requires Sorted(a) && Sorted(b)
    requires forall x :: x in a ==> Less(x, key)
    requires forall x :: x in b ==> Less(key, x)
    ensures Sorted(a + [key] + b)
  {
    var s := a + [key] + b;
    forall i, j | 0 <= i < j < |s|
      ensures Less(s[i], s[j])
    {
      assert i < |a| ==> s[i] in a;
      assert j > |a| ==> s[j] in b;
    }
  }

  lemma InsertKeepsOrder(s: seq<Key>, key: Key)
    requires Sorted(s)
    ensures Sorted(Insert(s, key))
    ensures |Insert(s, key)| == if key in s then |s| else |s| + 1
    ensures forall k :: k in Insert(s, key) <==> k in s || k == key
  {
    LowerBoundSplits(s, key);
    var n := LowerBound(s, key);
    SpliceHas(s, key, n);
    if key !in s {
      PartsAreSorted(s, n);
      SpliceIsSorted(s[..n], key, s[n..]);
      assert Insert(s, key) == s[..n] + [key] + s[n..];
    }
    hide Sorted, LowerBound, Less;
  }

  lemma SpliceHas(s: seq<Key>, key: Key, n: nat)
    requires n <= |s|
    ensures forall k :: k in s[..n] + [key] + s[n..] <==> k in s || k == key
    ensures forall k :: k in s[..n] ==> exists i :: 0 <= i < n && s[i] == k
    ensures forall k :: k in s[n..] ==> exists i :: n <= i < |s| && s[i] == k
  {
    assert s == s[..n] + s[n..];
  }

  lemma PartsAreSorted(s: seq<Key>, n: nat)
    requires Sorted(s) && n <= |s|
    ensures Sorted(s[..n]) && Sorted(s[n..])
  {
  }

  /** erase: the set without the key. */
  function Remove(s: seq<Key>, key: Key): seq<Key> {
    var n := LowerBound(s, key);
    if n < |s| && s[n] == key then s[..n] + s[n + 1..] else s
  }

  lemma {:induction false} RemoveKeepsOrder(s: seq<Key>, n: nat)
    requires Sorted(s) && n < |s|
    ensures Sorted(s[..n] + s[n + 1..])
    ensures forall k :: k in s[..n] + s[n + 1..] <==> k in s && k != s[n]
  {
    var rest := s[..n] + s[n + 1..];
    forall k
      ensures k in rest <==> k in s && k != s[n]
    {
      if k in s && k != s[n] {
        var i :| 0 <= i < |s| && s[i] == k;
        assert rest[if i < n then i else i - 1] == k;
      }
      if k in rest {
        var i :| 0 <= i < |rest| && rest[i] == k;
        var j := if i < n then i else i + 1;
        assert s[j] == k && (j < n ==> Less(s[j], s[n])) && (j > n ==> Less(s[n], s[j]));
      }
    }
  }

  lemma RemoveIs(s: seq<Key>, key: Key)
    requires Sorted(s) && key in s
    ensures Sorted(Remove(s, key)) && |Remove(s, key)| == |s| - 1
    ensures forall k :: k in Remove(s, key) <==> k in s && k != key
  {
    var n := LowerBound(s, key);
    LowerBoundSplits(s, key);
    RemoveKeepsOrder(s, n);
    assert Remove(s, key) == s[..n] + s[n + 1..];
    hide LowerBound, Sorted;
  }

  // ------------------------------------------------------------- what a batch becomes

  /** A batch member goes back into the set when it repeats and nobody deleted it. */
  predicate GoesBack(memory: map<Address, Timer>, a: Address) {
    a in memory && memory[a].repeat && memory[a].state != DELETED
  }

  /** The keys with which a batch goes back, in batch order; clock(i) is the time at which
      member i is restarted. */
  ghost function NewKeys(batch: seq<Key>, memory: map<Address, Timer>, clock: nat -> int): seq<Key> {
    if batch == [] then []
    else
      var n := |batch| - 1;
      var a := batch[n].timer;
      NewKeys(batch[..n], memory, clock)
      + if GoesBack(memory, a) then [Key(clock(n) + memory[a].interval, a)] else []
  }

  /** The batch members that are deleted, in batch order. */
  ghost function Gone(batch: seq<Key>, memory: map<Address, Timer>): seq<Address> {
    if batch == [] then []
    else
      var n := |batch| - 1;
      Gone(batch[..n], memory) + if GoesBack(memory, batch[n].timer) then [] else [batch[n].timer]
  }

  /** The cached earliest timer after some keys have been added to a set. */
  ghost function CachedAfter(s: seq<Key>, cached: Option<Address>, keys: seq<Key>): Option<Address> {
    if keys == [] then cached else Some(InsertAll(s, keys)[0].timer)
  }

  ghost function InsertAll(s: seq<Key>, keys: seq<Key>): (r: seq<Key>)
    ensures |keys| > 0 ==> |r| > 0
  {
    if keys == [] then s else Insert(InsertAll(s, keys[..|keys| - 1]), keys[|keys| - 1])
  }

  /** Some addition moved the cached earliest timer to another address. */
  ghost predicate SomeChange(s: seq<Key>, cached: Option<Address>, keys: seq<Key>) {
    if keys == [] then false
    else
      var init := keys[..|keys| - 1];
      SomeChange(s, cached, init) || CachedAfter(s, cached, init) != CachedAfter(s, cached, keys)
  }

  function Addresses(s: seq<Key>): set<Address> {
    set k | k in s :: k.timer
  }

  ghost predicate Distinct(s: seq<Key>) {
    forall i, j :: 0 <= i < j < |s| ==> s[i].timer != s[j].timer
  }

  /** A key tells the expiration of a timer that is allocated. */
  ghost predicate Live(memory: map<Address, Timer>, key: Key) {
    key.timer in memory && memory[key.timer].expiration == key.when
  }

  class TimerHeap {
    var memory: map<Address, Timer>    // the timers that are allocated
    var timers: seq<Key>               // timers_
    var earliest: Option<Address>      // earlistExpiration_
    var change: bool                   // earlistChange_
    ghost var freed: seq<Address>      // history: timers deleted, in order

    ghost predicate Valid()
      reads `memory, `timers, `earliest
    {
      && Sorted(timers)
      && (forall k :: k in timers ==> Live(memory, k))
      && (forall a :: a in memory ==> a < SENTINEL)
      && (earliest.None? ==> timers == [])
    }

    constructor ()
      ensures Valid() && timers == [] && memory == map[] && earliest == None && !change && freed == []
    {
      memory, timers, earliest, change, freed := map[], [], None, false, [];
    }

    /** delete: the timer must still be there. */
    method Delete(a: Address)
      requires a in memory
      modifies `memory, `freed
      ensures memory == old(memory) - {a} && freed == old(freed) + [a]
    {
      memory := memory - {a};
      freed := freed + [a];
    }

    /** getEarlistExpiration, which follows the cached address. */
    function EarliestExpiration(): int
      reads this
      requires earliest.Some? && earliest.value in memory
    {
      memory[earliest.value].expiration
    }

    /** getExpiredTimers: exactly the timers whose time has come, in order. */
    method GetExpiredTimers(expired: seq<Key>, now: int) returns (more: seq<Key>)
      requires Valid()
      modifies `timers
      ensures Valid()
      ensures |expired| <= |more| && more[..|expired|] == expired && more[|expired|..] + timers == old(timers)
      ensures forall k :: k in more[|expired|..] ==> k.when <= now
      ensures forall k :: k in timers ==> now < k.when
    {
      var sentry := Key(now, SENTINEL);
      var end := LowerBound(timers, sentry);
      LowerBoundSplits(timers, sentry);
      assert end == |timers| || now < timers[end].when by {
        if end < |timers| {
          assert Live(memory, timers[end]);
        }
      }
      forall k | k in timers[end..]
        ensures now < k.when
      {
        assert Live(memory, k);
      }
      more := expired + timers[..end];
      timers := timers[end..];
      assert forall k :: k in timers ==> k in old(timers);
    }

    /** addTimer: refused when the timer is there already; otherwise the cached earliest timer
        is the least of the set and the flag says whether its address changed. */
    method AddTimer(a: Address) returns (ok: bool)
      requires Valid() && a in memory && memory[a].expiration > 0
      modifies `timers, `earliest, `change
      ensures Valid() && (ok <==> Key(memory[a].expiration, a) !in old(timers))
      ensures timers == Insert(old(timers), Key(memory[a].expiration, a))
      ensures forall k :: k in timers <==> k in old(timers) || k == Key(memory[a].expiration, a)
      ensures ok ==> timers != [] && earliest == Some(timers[0].timer) && (change <==> earliest != old(earliest))
      ensures !ok ==> earliest == old(earliest) && change == old(change)
    {
      var key := Key(memory[a].expiration, a);
      LowerBoundSplits(timers, key);
      InsertKeepsOrder(timers, key);
      ok := key !in timers;
      timers := Insert(timers, key);
      if !ok {
        return;
      }
      if earliest == None {
        assert timers == [key];
        earliest := Some(a);
        change := true;
      } else {
        change := false;
        if earliest.value != timers[0].timer {
          earliest := Some(timers[0].timer);
          change := true;
        }
      }
    }

    /** delTimer: a timer that is in the set leaves it and is deleted; when others remain the
        cache and the flag are brought up to date, and when none remains they are left as
        they were, although the cached timer may be the one that is gone. */
    method DelTimer(a: Address)
      requires Valid() && a in memory
      modifies this
      ensures Valid()
      ensures Key(old(memory)[a].expiration, a) !in old(timers) ==>
        memory == old(memory) && timers == old(timers) && earliest == old(earliest)
        && change == old(change) && freed == old(freed)
      ensures Key(old(memory)[a].expiration, a) in old(timers) ==>
        && memory == old(memory) - {a} && freed == old(freed) + [a]
        && timers == Remove(old(timers), Key(old(memory)[a].expiration, a))
        && (forall k :: k in timers <==> k in old(timers) && k.timer != a)
        && (timers != [] ==> earliest == Some(timers[0].timer) && (change <==> earliest != old(earliest)))
        && (timers == [] ==> earliest == old(earliest) && change == old(change))
    {
      var key := Key(memory[a].expiration, a);
      var n := LowerBound(timers, key);
      LowerBoundSplits(timers, key);
      if n == |timers| || timers[n] != key {
        return;
      }
      RemoveKeepsOrder(timers, n);
      forall k | k in timers && k != key
        ensures k.timer != a
      {
        assert Live(memory, k) && Live(memory, key);
      }
      timers := timers[..n] + timers[n + 1..];
      if timers != [] {
        change := false;
        if earliest.value != timers[0].timer {
          earliest := Some(timers[0].timer);
          change := true;
        }
      }
      Delete(a);
      forall k | k in timers
        ensures Live(memory, k)
      {
        assert Live(old(memory), k);
      }
    }

    /** restart, and the addTimer that follows it. */
    method RestartOne(a: Address, now: int)
      requires Valid() && a in memory && now > 0
      requires forall k :: k in timers ==> k.timer != a
      modifies `memory, `timers, `earliest, `change
      ensures Valid()
      ensures memory == old(memory)[a := old(memory)[a].(expiration := now + old(memory)[a].interval)]
      ensures timers == Insert(old(timers), Key(memory[a].expiration, a))
      ensures forall k :: k in timers <==> k in old(timers) || k == Key(memory[a].expiration, a)
      ensures timers != [] && earliest == Some(timers[0].timer) && (change <==> earliest != old(earliest))
    {
      memory := memory[a := memory[a].(expiration := now + memory[a].interval)];
      forall k | k in timers
        ensures Live(memory, k)
      {
        assert Live(old(memory), k);
      }
      var ok := AddTimer(a);
    }

    /** The loop body of restartIntervalTimer for a member that goes back. */
    method BringBack(batch: seq<Key>, i: nat, ghost m: map<Address, Timer>, now: int)
      requires Valid() && i < |batch| && Distinct(batch) && RestIsKept(memory, timers, batch, i, m) && now > 0
      requires GoesBack(m, batch[i].timer)
      modifies `memory, `timers, `earliest, `change
      ensures Valid() && RestIsKept(memory, timers, batch, i + 1, m)
      ensures timers == Insert(old(timers), Key(now + m[batch[i].timer].interval, batch[i].timer)) && timers != []
      ensures earliest == Some(timers[0].timer) && (change <==> earliest != old(earliest))
    {
      hide *;
      MemberIsKept(memory, timers, batch, i, m);
      GoesBackMeans(m, batch[i].timer);
      RestartOne(batch[i].timer, now);
      KeptAfterMember(old(memory), old(timers), memory, timers, batch, i, m);
    }

    /** The loop body of restartIntervalTimer for a member that does not. */
    method Discard(batch: seq<Key>, i: nat, ghost m: map<Address, Timer>)
      requires Valid() && i < |batch| && Distinct(batch) && RestIsKept(memory, timers, batch, i, m)
      requires !GoesBack(m, batch[i].timer)
      modifies `memory, `freed
      ensures Valid() && RestIsKept(memory, timers, batch, i + 1, m)
      ensures freed == old(freed) + [batch[i].timer]
    {
      hide *;
      MemberIsKept(memory, timers, batch, i, m);
      DeleteMember(batch[i].timer);
      KeptAfterMember(old(memory), old(timers), memory, timers, batch, i, m);
    }

    /** restartIntervalTimer: the repeating members that nobody deleted go back into the set,
        every other member is deleted once, and the flag says whether some addition moved the
        cached earliest timer. */
    method RestartIntervalTimer(batch: seq<Key>, clock: nat -> int)
      requires Valid() && Distinct(batch)
      requires forall k :: k in batch ==> Live(memory, k)
      requires forall k :: k in timers ==> k.timer !in Addresses(batch)
      requires forall i :: clock(i) > 0
      modifies this
      ensures Valid()
      ensures timers == InsertAll(old(timers), NewKeys(batch, old(memory), clock))
      ensures earliest == CachedAfter(old(timers), old(earliest), NewKeys(batch, old(memory), clock))
      ensures change <==> SomeChange(old(timers), old(earliest), NewKeys(batch, old(memory), clock))
      ensures freed == old(freed) + Gone(batch, old(memory))
      ensures forall a :: a in memory <==> a in old(memory) && a !in Gone(batch, old(memory))
      ensures forall a :: a in memory ==> memory[a] == old(memory)[a].(expiration := memory[a].expiration)
    {
      ghost var m, s, e := memory, timers, earliest;
      var earlistChangeTemp := false;
      hide *;
      RestAtStart(memory, timers, batch);
      NoMembers(batch, m, s, e, clock);
      for i := 0 to |batch|
        invariant Valid() && RestIsKept(memory, timers, batch, i, m)
        invariant timers == InsertAll(s, NewKeys(batch[..i], m, clock))
        invariant earliest == CachedAfter(s, e, NewKeys(batch[..i], m, clock))
        invariant earlistChangeTemp <==> SomeChange(s, e, NewKeys(batch[..i], m, clock))
        invariant freed == old(freed) + Gone(batch[..i], m)
      {
        MemberUnfolds(batch, i, m, clock, s, e);
        MemberIsKept(memory, timers, batch, i, m);
        GoesBackDepends(memory, m, batch[i].timer);
        if GoesBack(memory, batch[i].timer) {
          BringBack(batch, i, m, clock(i));
          earlistChangeTemp := earlistChangeTemp || change;
        } else {
          Discard(batch, i, m);
        }
      }
      RestAtEnd(memory, timers, batch, m);
      change := earlistChangeTemp;
    }

    method DeleteMember(a: Address)
      requires Valid() && a in memory && forall k :: k in timers ==> k.timer != a
      modifies `memory, `freed
      ensures Valid() && memory == old(memory) - {a} && freed == old(freed) + [a]
    {
      Delete(a);
      forall k | k in timers
        ensures Live(memory, k)
      {
        assert Live(old(memory), k);
      }
    }
  }

  lemma {:induction false} GoneIsAmong(batch: seq<Key>, m: map<Address, Timer>)
    ensures forall a :: a in Gone(batch, m) ==> a in Addresses(batch)
  {
    if batch != [] {
      var n := |batch| - 1;
      GoneIsAmong(batch[..n], m);
      assert batch[n] in batch;
    }
  }

  /** Member i of a batch lies between those before it and those after it, and is neither. */
  lemma SplitBatch(batch: seq<Key>, i: nat, m: map<Address, Timer>)
    requires i < |batch| && Distinct(batch)
    ensures batch[i].timer in Addresses(batch[i..]) && batch[i].timer !in Addresses(batch[i + 1..])
    ensures Addresses(batch[i + 1..]) <= Addresses(batch[i..])
    ensures batch[i].timer !in Gone(batch[..i], m)
    ensures Gone(batch[..i + 1], m)
         == Gone(batch[..i], m) + if GoesBack(m, batch[i].timer) then [] else [batch[i].timer]
  {
    GoneIsAmong(batch[..i], m);
    assert batch[..i + 1][..i] == batch[..i];
    assert batch[i..] == [batch[i]] + batch[i + 1..];
  }

  /** Members i and later are as the batch left them; of the earlier ones those that do not
      go back are deleted. */
  ghost predicate RestIsKept(memory: map<Address, Timer>, timers: seq<Key>, batch: seq<Key>, i: nat,
                             m: map<Address, Timer>)
    requires i <= |batch|
  {
    && (forall k :: k in batch[i..] ==> k.timer in memory && k.timer in m && memory[k.timer] == m[k.timer])
    && (forall k :: k in timers ==> k.timer !in Addresses(batch[i..]))
    && (forall a :: a in memory <==> a in m && a !in Gone(batch[..i], m))
    && (forall a :: a in memory ==> memory[a] == m[a].(expiration := memory[a].expiration))
  }

  lemma RestAtStart(memory: map<Address, Timer>, timers: seq<Key>, batch: seq<Key>)
    requires forall k :: k in batch ==> Live(memory, k)
    requires forall k :: k in timers ==> k.timer !in Addresses(batch)
    ensures RestIsKept(memory, timers, batch, 0, memory)
  {
    assert batch[0..] == batch;
  }

  lemma RestAtEnd(memory: map<Address, Timer>, timers: seq<Key>, batch: seq<Key>, m: map<Address, Timer>)
    requires RestIsKept(memory, timers, batch, |batch|, m)
    ensures forall a :: a in memory <==> a in m && a !in Gone(batch, m)
    ensures forall a :: a in memory ==> memory[a] == m[a].(expiration := memory[a].expiration)
  {
    assert batch[..|batch|] == batch;
  }

  lemma MemberIsKept(memory: map<Address, Timer>, timers: seq<Key>, batch: seq<Key>, i: nat, m: map<Address, Timer>)
    requires i < |batch| && RestIsKept(memory, timers, batch, i, m)
    ensures batch[i].timer in memory && batch[i].timer in m && memory[batch[i].timer] == m[batch[i].timer]
    ensures forall k :: k in timers ==> k.timer != batch[i].timer
  {
    assert batch[i] in batch[i..];
  }

  lemma KeptAfterMember(memory: map<Address, Timer>, timers: seq<Key>, memory': map<Address, Timer>, timers': seq<Key>,
                        batch: seq<Key>, i: nat, m: map<Address, Timer>)
    requires i < |batch| && Distinct(batch) && RestIsKept(memory, timers, batch, i, m) && batch[i].timer in m
    requires forall k :: k in timers' ==> k in timers || k.timer == batch[i].timer
    requires forall a :: a != batch[i].timer ==>
      (a in memory' <==> a in memory) && (a in memory' ==> memory'[a] == memory[a])
    requires batch[i].timer in memory' <==> GoesBack(m, batch[i].timer)
    requires batch[i].timer in memory' ==>
      memory'[batch[i].timer] == m[batch[i].timer].(expiration := memory'[batch[i].timer].expiration)
    ensures RestIsKept(memory', timers', batch, i + 1, m)
  {
    SplitBatch(batch, i, m);
    assert batch[i..] == [batch[i]] + batch[i + 1..];
    forall k | k in batch[i + 1..]
      ensures k.timer != batch[i].timer && k in batch[i..]
    {
      assert k.timer in Addresses(batch[i + 1..]);
    }
    hide Distinct, Gone, Addresses, GoesBack;
  }

  lemma NoMembers(batch: seq<Key>, m: map<Address, Timer>, s: seq<Key>, e: Option<Address>, clock: nat -> int)
    ensures batch[..|batch|] == batch
    ensures InsertAll(s, NewKeys(batch[..0], m, clock)) == s && CachedAfter(s, e, NewKeys(batch[..0], m, clock)) == e
    ensures !SomeChange(s, e, NewKeys(batch[..0], m, clock)) && Gone(batch[..0], m) == []
  {
  }

  lemma GoesBackMeans(m: map<Address, Timer>, a: Address)
    ensures GoesBack(m, a) ==> a in m && m[a].repeat && m[a].state != DELETED
  {
  }

  lemma GoesBackDepends(memory: map<Address, Timer>, m: map<Address, Timer>, a: Address)
    requires a in memory && a in m && memory[a] == m[a]
    ensures GoesBack(memory, a) <==> GoesBack(m, a)
  {
  }

  /** What one more member adds to the account of a batch. */
  lemma MemberUnfolds(batch: seq<Key>, i: nat, m: map<Address, Timer>, clock: nat -> int, s: seq<Key>,
                      e: Option<Address>)
    requires i < |batch| && Distinct(batch)
    ensures
      var a := batch[i].timer;
      var before, after := NewKeys(batch[..i], m, clock), NewKeys(batch[..i + 1], m, clock);
      && Gone(batch[..i + 1], m) == Gone(batch[..i], m) + (if GoesBack(m, a) then [] else [a])
      && if GoesBack(m, a) then
           && InsertAll(s, after) == Insert(InsertAll(s, before), Key(clock(i) + m[a].interval, a))
           && CachedAfter(s, e, after) == Some(InsertAll(s, after)[0].timer)
           && (SomeChange(s, e, after)
               <==> SomeChange(s, e, before) || CachedAfter(s, e, before) != CachedAfter(s, e, after))
         else
           after == before
  {
    SplitBatch(batch, i, m);
    assert batch[..i + 1][..i] == batch[..i];
    var before, after := NewKeys(batch[..i], m, clock), NewKeys(batch[..i + 1], m, clock);
    if GoesBack(m, batch[i].timer) {
      assert after[..|after| - 1] == before;
    }
  }
}
