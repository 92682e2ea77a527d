// What the operations of base/TimersScheduler.cpp do to the heap of timers and the timerfd, given
// on values, and what they leave of a batch of expired timers whose callbacks may themselves add
// and delete timers.

module TimerOperations {
  import opened Collections
  import opened TimerHeaps

  const MICROSECONDS_PER_SECOND: int := 1_000_000

  /** The it_value that timerfd_settime receives; it_interval is always zero. */
  datatype TimerSpec = TimerSpec(sec: int, nsec: int)

  function Max(x: int, y: int): int {
    if x < y then y else x
  }

  /** calculateTimerfdNewValue */
  function NewValue(earliest: int, now: int): TimerSpec {
    var microseconds := if earliest - now < 100 then 100 else earliest - now;
    TimerSpec(microseconds / MICROSECONDS_PER_SECOND, (microseconds % MICROSECONDS_PER_SECOND) * 1000)
  }

  /** The value is well formed, names the time that is left but at least 100 microseconds, and
      so never is the zero that disarms. */
  lemma NewValueArms(earliest: int, now: int)
    ensures
      var v := NewValue(earliest, now);
      && 0 <= v.nsec < 1_000_000_000 && 0 <= v.sec && (v.sec > 0 || v.nsec > 0)
      && v.nsec % 1000 == 0
      && v.sec * MICROSECONDS_PER_SECOND + v.nsec / 1000 == Max(100, earliest - now)
  {
    var microseconds := Max(100, earliest - now);
    var rest := microseconds % MICROSECONDS_PER_SECOND;
    assert (rest * 1000) / 1000 == rest && (rest * 1000) % 1000 == 0;
  }

  /** One call of resetTimer: the expiration it was called for, and what timerfd_settime got. */
  datatype Setting = Setting(when: int, value: TimerSpec)

  function SettingFor(earliest: int, now: int): Setting {
    Setting(earliest, NewValue(earliest, now))
  }

  /** What a callback does with timers, and when: create one and add it, add one that exists,
      delete one. */
  datatype Op =
    | Create(a: Address, timer: Timer, now: int)
    | Add(a: Address, now: int)
    | Del(a: Address, now: int)

  ghost predicate Deletes(ops: seq<Op>, a: Address) {
    exists i :: 0 <= i < |ops| && ops[i].Del? && ops[i].a == a
  }

  /** The callback run for some batch member deleted the timer at this address. */
  ghost predicate MarkedBy(ran: seq<bool>, script: nat -> seq<Op>, a: Address) {
    exists j :: 0 <= j < |ran| && ran[j] && Deletes(script(j), a)
  }

  /** Which of the first n batch members run: those that no callback run before them deleted. */
  ghost function Runs(batch: seq<Key>, script: nat -> seq<Op>, n: nat): (ran: seq<bool>)
    requires n <= |batch|
    ensures |ran| == n
  {
    if n == 0 then []
    else
      var before := Runs(batch, script, n - 1);
      before + [!MarkedBy(before, script, batch[n - 1].timer)]
  }

  /** A batch member runs exactly if no callback that ran before it deleted it. */
  lemma {:induction false} RunsExactly(batch: seq<Key>, script: nat -> seq<Op>, n: nat, i: nat)
    requires i < n <= |batch|
    ensures
      var ran := Runs(batch, script, n);
      ran[i] <==> forall j :: 0 <= j < i && ran[j] ==> !Deletes(script(j), batch[i].timer)
  {
    if i < n - 1 {
      RunsExactly(batch, script, n - 1, i);
    }
    hide Deletes;
  }

  // ------------------------------------------------------------- what operations do

  /** The heap, what it has freed, and how the timerfd was set. */
  datatype State = State(
    memory: map<Address, Timer>,
    timers: seq<Key>,
    earliest: Option<Address>,
    change: bool,
    freed: seq<Address>,
    settings: seq<Setting>)

  /** The cache and the flag after the set has changed. */
  function Recached(s: State, timers: seq<Key>): State {
    if timers == [] then s.(timers := timers)
    else s.(timers := timers, earliest := Some(timers[0].timer), change := Some(timers[0].timer) != s.earliest)
  }

  /** The timerfd is armed for the cached timer when the flag is set. */
  function Armed(s: State, now: int): State {
    if s.change && s.earliest.Some? && s.earliest.value in s.memory then
      s.(settings := s.settings + [SettingFor(s.memory[s.earliest.value].expiration, now)])
    else s
  }

  function Added(s: State, batch: seq<Key>, a: Address, now: int): State
    requires a in s.memory
  {
    var key := Key(s.memory[a].expiration, a);
    if key in batch then s
    else if key in s.timers then Armed(s, now)
    else Armed(Recached(s, Insert(s.timers, key)), now)
  }

  function Deleted(s: State, batch: seq<Key>, a: Address, now: int): State
    requires a in s.memory
  {
    var key := Key(s.memory[a].expiration, a);
    if key in batch then s.(memory := s.memory[a := s.memory[a].(state := DELETED)])
    else if key in s.timers then
      Armed(Recached(s, Remove(s.timers, key)).(memory := s.memory - {a}, freed := s.freed + [a]), now)
    else Armed(s, now)
  }

  /** Deleting would follow a cached address whose timer has just been deleted: the timer is the
      cached one, it is the last of the set, and the change flag is still set. */
  predicate Dangling(s: State, a: Address)
    requires a in s.memory
  {
    s.change && s.earliest == Some(a) && s.timers == [Key(s.memory[a].expiration, a)]
  }

  /** The operations a callback may ask for: a new timer lies where none is, others are used
      while they are allocated, and a deletion does not follow a cached address whose timer
      it has just deleted. */
  predicate Legal(s: State, op: Op) {
    match op
    case Create(a, timer, now) => a !in s.memory && a < SENTINEL && timer.expiration > 0 && timer.state == ADDED
    case Add(a, now) => a in s.memory && s.memory[a].expiration > 0
    case Del(a, now) => a in s.memory && !Dangling(s, a)
  }

  function Performed(s: State, batch: seq<Key>, op: Op): State {
    if !Legal(s, op) then s
    else
      match op
      case Create(a, timer, now) => Added(s.(memory := s.memory[a := timer]), batch, a, now)
      case Add(a, now) => Added(s, batch, a, now)
      case Del(a, now) => Deleted(s, batch, a, now)
  }

  function AllPerformed(s: State, batch: seq<Key>, ops: seq<Op>): State {
    if ops == [] then s else Performed(AllPerformed(s, batch, ops[..|ops| - 1]), batch, ops[|ops| - 1])
  }

  /** After the callbacks of those among the first n batch members that run. */
  ghost function BatchPerformed(s: State, batch: seq<Key>, script: nat -> seq<Op>, n: nat): State
    requires n <= |batch|
  {
    if n == 0 then s
    else
      var before := BatchPerformed(s, batch, script, n - 1);
      if MarkedBy(Runs(batch, script, n - 1), script, batch[n - 1].timer) then before
      else AllPerformed(before, batch, script(n - 1))
  }

  /** What operations leave of a batch: the members they delete are marked, nothing else
      about a member changes. */
  ghost predicate Marked(m: map<Address, Timer>, m': map<Address, Timer>, batch: seq<Key>, ops: seq<Op>) {
    forall k :: k in batch ==>
      && k.timer in m && k.timer in m'
      && m'[k.timer] == m[k.timer].(state := if Deletes(ops, k.timer) then DELETED else m[k.timer].state)
  }

  lemma MarkedTwice(m: map<Address, Timer>, m1: map<Address, Timer>, m2: map<Address, Timer>, batch: seq<Key>,
                    ops: seq<Op>, n: nat)
    requires n < |ops| && Marked(m, m1, batch, ops[..n]) && Marked(m1, m2, batch, [ops[n]])
    ensures Marked(m, m2, batch, ops[..n + 1])
  {
    forall k | k in batch
      ensures Deletes(ops[..n + 1], k.timer) <==> Deletes(ops[..n], k.timer) || Deletes([ops[n]], k.timer)
    {
      if Deletes(ops[..n], k.timer) {
        var i :| 0 <= i < n && ops[..n][i].Del? && ops[..n][i].a == k.timer;
        assert ops[..n + 1][i].Del? && ops[..n + 1][i].a == k.timer;
      }
      if Deletes([ops[n]], k.timer) {
        assert ops[..n + 1][n].Del? && ops[..n + 1][n].a == k.timer;
      }
      if Deletes(ops[..n + 1], k.timer) {
        var i :| 0 <= i < n + 1 && ops[..n + 1][i].Del? && ops[..n + 1][i].a == k.timer;
        assert i < n ==> ops[..n][i].Del? && ops[..n][i].a == k.timer;
        assert i == n ==> [ops[n]][0].Del? && [ops[n]][0].a == k.timer;
      }
    }
  }

  /** Deleting a member marks it; an operation that deletes no member leaves them all alone. */
  lemma MarkedOnce(m: map<Address, Timer>, m': map<Address, Timer>, batch: seq<Key>, op: Op)
    requires forall k :: k in batch ==> k.timer in m
    requires
      if op.Del? && op.a in Addresses(batch) then
        op.a in m && m' == m[op.a := m[op.a].(state := DELETED)]
      else
        forall k :: k in batch ==> k.timer in m' && m'[k.timer] == m[k.timer]
    ensures Marked(m, m', batch, [op])
  {
    forall k | k in batch
      ensures Deletes([op], k.timer) <==> op.Del? && op.a == k.timer
    {
      assert [op][0] == op;
    }
  }

  /** The timers freed since are not batch members. */
  ghost predicate Spares(freed: seq<Address>, freed': seq<Address>, batch: seq<Key>) {
    freed <= freed' && forall i :: |freed| <= i < |freed'| ==> freed'[i] !in Addresses(batch)
  }

  lemma NonePerformed(s: State, batch: seq<Key>)
    ensures AllPerformed(s, batch, []) == s
  {
  }

  lemma OneMorePerformed(s: State, batch: seq<Key>, ops: seq<Op>, i: nat)
    requires i < |ops|
    ensures AllPerformed(s, batch, ops[..i + 1]) == Performed(AllPerformed(s, batch, ops[..i]), batch, ops[i])
  {
    assert ops[..i + 1][..i] == ops[..i];
    hide Performed;
  }

  /** The batch's members are allocated, and none of them is in the set. */
  ghost predicate Apart(s: State, batch: seq<Key>) {
    && (forall k :: k in batch ==> Live(s.memory, k))
    && (forall k :: k in s.timers ==> k.timer !in Addresses(batch))
  }

  lemma PerformedLeavesBatch(s: State, batch: seq<Key>, op: Op)
    requires Apart(s, batch)
    ensures Marked(s.memory, Performed(s, batch, op).memory, batch, [op])
    ensures Spares(s.freed, Performed(s, batch, op).freed, batch)
  {
    var d := Performed(s, batch, op);
    if op.Del? && Legal(s, op) {
      DeletedLeavesBatch(s, batch, op.a, op.now);
    }
    hide Deleted, Insert;
    MarkedOnce(s.memory, d.memory, batch, op);
  }

  lemma DeletedLeavesBatch(s: State, batch: seq<Key>, a: Address, now: int)
    requires Apart(s, batch) && a in s.memory
    ensures
      var d := Deleted(s, batch, a, now);
      && Spares(s.freed, d.freed, batch)
      && if a in Addresses(batch) then d.memory == s.memory[a := s.memory[a].(state := DELETED)]
         else forall k :: k in batch ==> k.timer in d.memory && d.memory[k.timer] == s.memory[k.timer]
  {
    var key := Key(s.memory[a].expiration, a);
    assert key in batch <==> a in Addresses(batch);
    hide Remove;
  }

  /** After the callbacks run so far, exactly the members they deleted are marked. */
  ghost predicate MarksTell(m: map<Address, Timer>, m': map<Address, Timer>, batch: seq<Key>, ran: seq<bool>,
                            script: nat -> seq<Op>) {
    forall k :: k in batch ==>
      && k.timer in m && k.timer in m'
      && m'[k.timer] == m[k.timer].(state := if MarkedBy(ran, script, k.timer) then DELETED else ADDED)
  }

  lemma MarkedByGrows(ran: seq<bool>, did: bool, script: nat -> seq<Op>, a: Address)
    ensures MarkedBy(ran + [did], script, a) <==> MarkedBy(ran, script, a) || (did && Deletes(script(|ran|), a))
  {
    var after := ran + [did];
    if MarkedBy(ran, script, a) {
      var j :| 0 <= j < |ran| && ran[j] && Deletes(script(j), a);
      assert after[j];
    }
    if did && Deletes(script(|ran|), a) {
      assert after[|ran|];
    }
  }

  lemma MarksGrow(m: map<Address, Timer>, m1: map<Address, Timer>, m2: map<Address, Timer>, batch: seq<Key>,
                  ran: seq<bool>, did: bool, script: nat -> seq<Op>)
    requires MarksTell(m, m1, batch, ran, script)
    requires if did then Marked(m1, m2, batch, script(|ran|)) else m2 == m1
    ensures MarksTell(m, m2, batch, ran + [did], script)
  {
    forall k | k in batch
      ensures MarkedBy(ran + [did], script, k.timer)
        <==> MarkedBy(ran, script, k.timer) || (did && Deletes(script(|ran|), k.timer))
    {
      MarkedByGrows(ran, did, script, k.timer);
    }
    hide MarkedBy, Deletes;
  }

  lemma OneMoreMember(s: State, batch: seq<Key>, script: nat -> seq<Op>, i: nat)
    requires i < |batch|
    ensures BatchPerformed(s, batch, script, i + 1)
         == if MarkedBy(Runs(batch, script, i), script, batch[i].timer) then BatchPerformed(s, batch, script, i)
            else AllPerformed(BatchPerformed(s, batch, script, i), batch, script(i))
  {
  }

  lemma RunsGrow(batch: seq<Key>, script: nat -> seq<Op>, n: nat)
    requires n < |batch|
    ensures Runs(batch, script, n + 1)
      == Runs(batch, script, n) + [!MarkedBy(Runs(batch, script, n), script, batch[n].timer)]
  {
  }

  /** What the tail of handdleRead makes of the state that the callbacks left: the members that
      go back are in the set, the others are deleted in batch order, the flag says whether an
      addition moved the cache, and exactly then the timerfd is armed, for the least of the
      set.  Nothing else changes. */
  ghost predicate Finished(s: State, batch: seq<Key>, clock: nat -> int, end: int, d: State) {
    var keys := NewKeys(batch, s.memory, clock);
    && d.timers == InsertAll(s.timers, keys)
    && d.earliest == CachedAfter(s.timers, s.earliest, keys)
    && (d.change <==> SomeChange(s.timers, s.earliest, keys))
    && d.freed == s.freed + Gone(batch, s.memory)
    && (d.change ==> d.timers != [])
    && d.settings == s.settings + (if d.change then [SettingFor(d.timers[0].when, end)] else [])
    && (forall a :: a in d.memory <==> a in s.memory && a !in Gone(batch, s.memory))
    && (forall a :: a in d.memory ==> d.memory[a] == s.memory[a].(expiration := d.memory[a].expiration))
  }

  lemma FinishedIs(s: State, batch: seq<Key>, clock: nat -> int, end: int, d: State)
    requires
      var keys := NewKeys(batch, s.memory, clock);
      && d.timers == InsertAll(s.timers, keys)
      && d.earliest == CachedAfter(s.timers, s.earliest, keys)
      && (d.change <==> SomeChange(s.timers, s.earliest, keys))
      && (d.change ==> d.timers != [])
    requires d.freed == s.freed + Gone(batch, s.memory)
    requires d.settings == s.settings + if d.change then [SettingFor(d.timers[0].when, end)] else []
    requires forall a :: a in d.memory <==> a in s.memory && a !in Gone(batch, s.memory)
    requires forall a :: a in d.memory ==> d.memory[a] == s.memory[a].(expiration := d.memory[a].expiration)
    ensures Finished(s, batch, clock, end, d)
  {
  }

  lemma FinishedMeans(s: State, batch: seq<Key>, clock: nat -> int, end: int, d: State)
    requires Finished(s, batch, clock, end, d)
    ensures d.timers == InsertAll(s.timers, NewKeys(batch, s.memory, clock))
    ensures d.freed == s.freed + Gone(batch, s.memory)
    ensures forall a :: a in d.memory <==> a in s.memory && a !in Gone(batch, s.memory)
    ensures forall a :: a in d.memory ==> d.memory[a] == s.memory[a].(expiration := d.memory[a].expiration)
  {
  }

  /** What becomes of a batch member: it is in the set with its new expiration, or it is gone
      and was deleted exactly once. */
  ghost predicate Fate(a: Address, was: Timer, marked: bool, now: int, memory: map<Address, Timer>, timers: seq<Key>,
                       freed: seq<Address>) {
    if was.repeat && !marked then
      && a in memory && memory[a] == was.(expiration := now + was.interval)
      && Key(now + was.interval, a) in timers
      && multiset(freed)[a] == 0
    else
      && a !in memory
      && (forall k :: k in timers ==> k.timer != a)
      && multiset(freed)[a] == 1
  }

  lemma SuffixIs(s: seq<Key>, a: seq<Key>, b: seq<Key>)
    requires s == a + b
    ensures a <= s && s[|a|..] == b
  {
  }

  lemma SplitIsDisjoint(memory: map<Address, Timer>, s: seq<Key>, a: seq<Key>, b: seq<Key>)
    requires s == a + b && Sorted(s) && forall k :: k in s ==> Live(memory, k)
    ensures Distinct(a)
    ensures forall k :: k in a || k in b ==> k in s
    ensures forall k :: k in b ==> k.timer !in Addresses(a)
  {
    forall i, j | 0 <= i < j < |s|
      ensures s[i].timer != s[j].timer
    {
      assert Less(s[i], s[j]) && Live(memory, s[i]) && Live(memory, s[j]);
    }
    forall i, j | 0 <= i < j < |a|
      ensures a[i].timer != a[j].timer
    {
      assert s[i] == a[i] && s[j] == a[j];
    }
    forall k | k in b
      ensures k in s && k.timer !in Addresses(a)
    {
      var j :| 0 <= j < |b| && b[j] == k;
      assert s[|a| + j] == k;
      forall k' | k' in a
        ensures k'.timer != k.timer
      {
        var i :| 0 <= i < |a| && a[i] == k';
        assert s[i] == k';
      }
    }
  }

  /** Exactly the members that do not go back are deleted, each once. */
  lemma {:induction false} GoneIs(batch: seq<Key>, m: map<Address, Timer>)
    requires Distinct(batch)
    ensures forall a :: a in Gone(batch, m) <==> a in Addresses(batch) && !GoesBack(m, a)
    ensures forall a :: a in Gone(batch, m) ==> multiset(Gone(batch, m))[a] == 1
  {
    if batch != [] {
      var n := |batch| - 1;
      GoneIs(batch[..n], m);
      assert batch == batch[..n] + [batch[n]];
      assert batch[n].timer !in Addresses(batch[..n]);
      assert Addresses(batch) == Addresses(batch[..n]) + {batch[n].timer};
    }
  }

  lemma {:induction false} NewKeysHas(batch: seq<Key>, m: map<Address, Timer>, clock: nat -> int, i: nat)
    requires i < |batch| && GoesBack(m, batch[i].timer)
    ensures Key(clock(i) + m[batch[i].timer].interval, batch[i].timer) in NewKeys(batch, m, clock)
  {
    if i < |batch| - 1 {
      NewKeysHas(batch[..|batch| - 1], m, clock, i);
    }
  }

  lemma {:induction false} InsertAllHas(s: seq<Key>, keys: seq<Key>)
    requires Sorted(s)
    ensures Sorted(InsertAll(s, keys))
    ensures forall k :: k in InsertAll(s, keys) <==> k in s || k in keys
  {
    if keys != [] {
      var n := |keys| - 1;
      InsertAllHas(s, keys[..n]);
      InsertKeepsOrder(InsertAll(s, keys[..n]), keys[n]);
      assert keys == keys[..n] + [keys[n]];
    }
  }

  lemma {:induction false} ChangeIsLeast(s: seq<Key>, e: Option<Address>, keys: seq<Key>)
    requires SomeChange(s, e, keys)
    ensures InsertAll(s, keys) != [] && CachedAfter(s, e, keys) == Some(InsertAll(s, keys)[0].timer)
  {
  }

  lemma FateOfMember(m1: map<Address, Timer>, m2: map<Address, Timer>, timers: seq<Key>, batch: seq<Key>, i: nat,
                     clock: nat -> int, late: seq<Key>, during: seq<Address>, marked: bool, was: Timer)
    requires i < |batch| && Distinct(batch) && Sorted(late)
    requires forall k :: k in late ==> k.timer !in Addresses(batch)
    requires forall k :: k in timers ==> Live(m2, k)
    requires timers == InsertAll(late, NewKeys(batch, m1, clock))
    requires forall a :: a in during ==> a !in Addresses(batch)
    requires forall a :: a in m2 <==> a in m1 && a !in Gone(batch, m1)
    requires forall a :: a in m2 ==> m2[a] == m1[a].(expiration := m2[a].expiration)
    requires batch[i].timer in m1 && m1[batch[i].timer] == was.(state := if marked then DELETED else ADDED)
    requires was.state == ADDED
    ensures Fate(batch[i].timer, was, marked, clock(i), m2, timers, during + Gone(batch, m1))
  {
    hide *;
    var a := batch[i].timer;
    InAddresses(batch, i);
    GoneIs(batch, m1);
    CountIn(during, Gone(batch, m1), a);
    GoesBackIs(m1, a);
    if GoesBack(m1, a) {
      InsertAllHas(late, NewKeys(batch, m1, clock));
      NewKeysHas(batch, m1, clock, i);
      FateIfBack(a, was, marked, clock(i), m2, timers, during + Gone(batch, m1));
    } else {
      FateIfGone(a, was, marked, clock(i), m2, timers, during + Gone(batch, m1));
    }
  }

  lemma InAddresses(batch: seq<Key>, i: nat)
    requires i < |batch|
    ensures batch[i].timer in Addresses(batch)
  {
  }

  lemma CountIn(x: seq<Address>, y: seq<Address>, a: Address)
    requires a !in x
    ensures multiset(x + y)[a] == multiset(y)[a]
    ensures a !in y ==> multiset(x + y)[a] == 0
  {
  }

  lemma GoesBackIs(m: map<Address, Timer>, a: Address)
    requires a in m
    ensures GoesBack(m, a) <==> m[a].repeat && m[a].state != DELETED
  {
  }

  lemma FateIfBack(a: Address, was: Timer, marked: bool, now: int, memory: map<Address, Timer>, timers: seq<Key>,
                   freed: seq<Address>)
    requires was.repeat && !marked && a in memory && multiset(freed)[a] == 0
    requires memory[a] == was.(expiration := memory[a].expiration)
    requires Key(now + was.interval, a) in timers
    requires forall k :: k in timers ==> Live(memory, k)
    ensures Fate(a, was, marked, now, memory, timers, freed)
  {
    assert Live(memory, Key(now + was.interval, a));
  }

  lemma FateIfGone(a: Address, was: Timer, marked: bool, now: int, memory: map<Address, Timer>, timers: seq<Key>,
                   freed: seq<Address>)
    requires !(was.repeat && !marked) && a !in memory && multiset(freed)[a] == 1
    requires forall k :: k in timers ==> Live(memory, k)
    ensures Fate(a, was, marked, now, memory, timers, freed)
  {
  }

  lemma Account(m: map<Address, Timer>, freed: seq<Address>, late: State, d: State, batch: seq<Key>, ran: seq<bool>,
                script: nat -> seq<Op>, clock: nat -> int, end: int)
    requires Distinct(batch) && Sorted(late.timers) && MarksTell(m, late.memory, batch, ran, script)
    requires forall k :: k in late.timers ==> k.timer !in Addresses(batch)
    requires forall k :: k in d.timers ==> Live(d.memory, k)
    requires Spares(freed, late.freed, batch) && Finished(late, batch, clock, end, d)
    requires forall k :: k in batch ==> k.timer in m && m[k.timer].state == ADDED
    ensures freed <= d.freed
    ensures forall i :: 0 <= i < |batch| ==>
      Fate(batch[i].timer, m[batch[i].timer], MarkedBy(ran, script, batch[i].timer), clock(i), d.memory, d.timers,
          d.freed[|freed|..])
  {
    hide *;
    FinishedMeans(late, batch, clock, end, d);
    SparesMeans(freed, late.freed, batch);
    assert d.freed[|freed|..] == late.freed[|freed|..] + Gone(batch, late.memory);
    forall i | 0 <= i < |batch|
      ensures Fate(batch[i].timer, m[batch[i].timer], MarkedBy(ran, script, batch[i].timer), clock(i), d.memory,
          d.timers, d.freed[|freed|..])
    {
      MarkTells(m, late.memory, batch, ran, script, i);
      FateOfMember(late.memory, d.memory, d.timers, batch, i, clock, late.timers, late.freed[|freed|..],
                   MarkedBy(ran, script, batch[i].timer), m[batch[i].timer]);
    }
  }

  lemma MarkTells(m: map<Address, Timer>, m1: map<Address, Timer>, batch: seq<Key>, ran: seq<bool>,
                  script: nat -> seq<Op>, i: nat)
    requires i < |batch| && MarksTell(m, m1, batch, ran, script)
    ensures batch[i].timer in m && batch[i].timer in m1
    ensures m1[batch[i].timer]
         == m[batch[i].timer].(state := if MarkedBy(ran, script, batch[i].timer) then DELETED else ADDED)
  {
    assert batch[i] in batch;
  }

  lemma SparesMeans(freed: seq<Address>, freed1: seq<Address>, batch: seq<Key>)
    requires Spares(freed, freed1, batch)
    ensures freed <= freed1
    ensures forall a :: a in freed1[|freed|..] ==> a !in Addresses(batch)
  {
  }

  lemma MemberIsMarked(m: map<Address, Timer>, m': map<Address, Timer>, batch: seq<Key>, ran: seq<bool>,
                       script: nat -> seq<Op>, k: Key)
    requires MarksTell(m, m', batch, ran, script) && k in batch
    ensures k.timer in m' && (m'[k.timer].state == DELETED <==> MarkedBy(ran, script, k.timer))
  {
  }

  lemma SparesTwice(f: seq<Address>, f1: seq<Address>, f2: seq<Address>, batch: seq<Key>)
    requires Spares(f, f1, batch) && Spares(f1, f2, batch)
    ensures Spares(f, f2, batch)
  {
    forall i | |f| <= i < |f2|
      ensures f2[i] !in Addresses(batch)
    {
      assert i < |f1| ==> f2[i] == f1[i];
    }
  }
}
