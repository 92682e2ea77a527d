// The wake-up protocol of base/EventLoop.cpp.  One thread runs loop(); any number of other
// threads queue functors or ask it to quit.  A lock section is one step, and so is each
// access that the code makes outside the lock: in particular a thread writes the eventfd
// in a step of its own, after it has released the queue.

module EventLoopWakeUp {

  type Thread = nat
  type Functor = nat

  /** The largest count an eventfd holds; a write beyond it fails and leaves the count. */
  const MAX_COUNT: nat := 0xFFFF_FFFF_FFFF_FFFE

  /** Where the loop thread stands. */
  datatype Place =
    | Before                   // loop() has not been called yet
    | CheckQuit                // about to read quit_ in the while condition
    | Flush                    // about to apply pending registrations
    | Poll                     // in poll_->Loop
    | Dispatch(woken: bool)    // running handlers; woken: the eventfd was reported and is not read yet
    | Swap                     // in runFunctors, runningFunctors_ set, functors_ not yet taken
    | Round                    // between two functors of the batch
    | InFunctor                // a functor of the batch is running
    | OwesWake                 // the running functor has pushed and not yet called wakeUp
    | Returned                 // loop() has returned

  datatype State = State(
    place: Place,
    functors: seq<Functor>,    // functors_
    batch: seq<Functor>,       // what is left of the swapped vector
    running: bool,             // runningFunctors_
    quit: bool,                // quit_
    count: nat,                // the eventfd counter
    owing: set<Thread>,        // other threads between their push or quit and their wakeUp
    registrations: bool,       // updates_ is not empty
    silent: bool,              // history: one of them came from a thread that does not call wakeUp
    waking: bool,              // history: one of them came from a thread that does
    executed: seq<Functor>,    // history: functors run, in order
    queued: seq<Functor>,      // history: functors pushed, in lock order
    taken: nat,                // history: how many were queued when the batch was swapped
    early: seq<Functor>,       // history: functors the owner thread pushed before it called loop()
    swapped: bool)             // history: some batch has been swapped

  function Initial(): State {
    State(Before, [], [], false, false, 0, {}, false, false, false, [], [], 0, [], false)
  }

  datatype Step =
    | EarlyPushes(f: Functor)  // the owner thread, before loop()
    | EarlyQuits
    | EarlyRegisters           // applied at once
    | CallLoop
    | TestQuit
    | ApplyRegistrations
    | PollReturns(reported: bool)
    | ReadCounter              // handWakeUp
    | HandlerPushes(f: Functor)
    | HandlerQuits
    | HandlerDone              // a handler returned; registrations it made are applied
    | StartFunctors
    | SwapFunctors
    | CallNext
    | FunctorPushes(f: Functor)
    | FunctorWakes
    | FunctorQuits
    | FunctorReturns
    | EndFunctors
    | OtherPushes(t: Thread, f: Functor)
    | OtherQuits(t: Thread)
    | OtherWakes(t: Thread)    // the wakeUp that ends queueInLoop or quit, or follows a registration
    | OtherPokes               // a bare wakeUp
    | OtherRegisters(t: Thread, wakes: bool)
                               // add, mod or del of a handle by another thread, which goes on to
                               // call wakeUp, as TcpServer does, or does not

  function Bump(count: nat): nat {
    if count >= MAX_COUNT then count else count + 1
  }

  ghost predicate Enabled(s: State, step: Step) {
    match step
    case EarlyPushes(_) => s.place == Before
    case EarlyQuits => s.place == Before
    case EarlyRegisters => s.place == Before
    case CallLoop => s.place == Before
    case TestQuit => s.place == CheckQuit
    case ApplyRegistrations => s.place == Flush
    case PollReturns(reported) => s.place == Poll && (reported ==> s.count > 0)
    case ReadCounter => s.place == Dispatch(true)
    case HandlerPushes(_) => s.place.Dispatch?
    case HandlerQuits => s.place.Dispatch?
    case HandlerDone => s.place.Dispatch?
    case StartFunctors => s.place.Dispatch?
    case SwapFunctors => s.place == Swap
    case CallNext => s.place == Round && s.batch != []
    case FunctorPushes(_) => s.place == InFunctor
    case FunctorWakes => s.place == OwesWake
    case FunctorQuits => s.place == InFunctor
    case FunctorReturns => s.place == InFunctor
    case EndFunctors => s.place == Round && s.batch == []
    case OtherPushes(t, _) => t !in s.owing
    case OtherQuits(t) => t !in s.owing
    case OtherWakes(t) => t in s.owing
    case OtherPokes => true
    case OtherRegisters(t, _) => t !in s.owing
  }

  ghost function Apply(s: State, step: Step): State
    requires Enabled(s, step)
  {
    match step
    // queueInLoop in the owner thread: no wakeUp, because runningFunctors_ is false
    case EarlyPushes(f) => s.(functors := s.functors + [f], queued := s.queued + [f], early := s.early + [f])
    case EarlyQuits => s.(quit := true)
    case EarlyRegisters => s.(registrations := false, silent := false, waking := false)
    case CallLoop => s.(place := CheckQuit)
    case TestQuit => s.(place := if s.quit then Returned else Flush)
    case ApplyRegistrations => s.(place := Poll, registrations := false, silent := false, waking := false)
    case PollReturns(reported) => s.(place := Dispatch(reported))
    case ReadCounter => s.(place := Dispatch(false), count := 0)
    // queueInLoop in the loop thread: no wakeUp, because runningFunctors_ is false
    case HandlerPushes(f) => s.(functors := s.functors + [f], queued := s.queued + [f])
    case HandlerQuits => s.(quit := true)
    case HandlerDone => s.(registrations := false, silent := false, waking := false)
    case StartFunctors => s.(place := Swap, running := true)
    case SwapFunctors =>
      s.(place := Round, batch := s.functors, functors := [], taken := |s.queued|, swapped := true)
    case CallNext => s.(place := InFunctor, batch := s.batch[1..], executed := s.executed + [s.batch[0]])
    // queueInLoop in the loop thread while runningFunctors_: wakeUp follows
    case FunctorPushes(f) => s.(place := OwesWake, functors := s.functors + [f], queued := s.queued + [f])
    case FunctorWakes => s.(place := InFunctor, count := Bump(s.count))
    case FunctorQuits => s.(quit := true)
    case FunctorReturns => s.(place := Round, registrations := false, silent := false, waking := false)
    case EndFunctors => s.(place := CheckQuit, running := false)
    case OtherPushes(t, f) =>
      s.(functors := s.functors + [f], queued := s.queued + [f], owing := s.owing + {t})
    case OtherQuits(t) => s.(quit := true, owing := s.owing + {t})
    case OtherWakes(t) => s.(owing := s.owing - {t}, count := Bump(s.count))
    case OtherPokes => s.(count := Bump(s.count))
    case OtherRegisters(t, wakes) =>
      if wakes then s.(registrations := true, waking := true, owing := s.owing + {t})
      else s.(registrations := true, silent := true)
  }

  /** t is reached from s by these steps, whoever takes each of them. */
  ghost predicate Leads(s: State, steps: seq<Step>, t: State)
    decreases |steps|
  {
    if steps == [] then s == t
    else Enabled(s, steps[0]) && Leads(Apply(s, steps[0]), steps[1..], t)
  }

  ghost predicate Reachable(s: State) {
    exists steps :: Leads(Initial(), steps, s)
  }

  // ------------------------------------------------------------- the invariant

  /** A wake-up is certain: the counter is positive or some thread is about to raise it. */
  ghost predicate WakeIsDue(s: State) {
    s.count > 0 || s.owing != {}
  }

  ghost predicate InRound(s: State) {
    s.place.Round? || s.place.InFunctor? || s.place.OwesWake?
  }

  /** The loop will poll before it takes the next batch. */
  ghost predicate PastSwap(s: State) {
    s.place.Before? || s.place.Round? || s.place.InFunctor? || s.place.CheckQuit? || s.place.Flush? || s.place.Poll?
  }

  /** No batch has been swapped yet, and what is queued was pushed by the owner thread before it
      called loop(): for that nobody wakes. */
  ghost predicate OnlyEarly(s: State) {
    !s.swapped && s.functors == s.early
  }

  /** Functors queued past the swap, and a request to quit past its test, will be noticed. */
  ghost predicate WakeInv(s: State) {
    && (PastSwap(s) && (s.functors != [] || !s.swapped) ==> WakeIsDue(s) || OnlyEarly(s))
    && (InRound(s) ==> s.swapped) && (s.place.Before? ==> !s.swapped)
    && ((s.place.Flush? || s.place.Poll?) && s.quit ==> WakeIsDue(s))
    && (s.place.Poll? && s.waking ==> WakeIsDue(s))
    && (s.registrations <==> s.silent || s.waking)
    && s.count <= MAX_COUNT
  }

  ghost predicate OrderInv(s: State) {
    && s.executed + s.batch + s.functors == s.queued
    && (!s.swapped ==> s.executed == [] && s.batch == [])
    && (s.batch != [] ==> InRound(s))
    && s.taken <= |s.queued|
    && (InRound(s) ==> s.executed + s.batch == s.queued[..s.taken])
    && (s.running <==> InRound(s) || s.place.Swap?)
    && (s.place.Returned? ==> s.quit)
  }

  ghost predicate Inv(s: State) {
    WakeInv(s) && OrderInv(s)
  }

  lemma InvHoldsInitially()
    ensures Inv(Initial())
  {
  }

  /** The steps before loop(), and those between the test of quit_ and the end of the handlers. */
  predicate InTurn(step: Step) {
    step.EarlyPushes? || step.EarlyQuits? || step.EarlyRegisters? || step.CallLoop?
    || step.TestQuit? || step.ApplyRegistrations? || step.PollReturns? || step.ReadCounter?
    || step.HandlerPushes? || step.HandlerQuits? || step.HandlerDone?
  }

  predicate ByOther(step: Step) {
    step.OtherPushes? || step.OtherQuits? || step.OtherWakes? || step.OtherPokes? || step.OtherRegisters?
  }

  lemma TurnKeepsWake(s: State, step: Step)
    requires WakeInv(s) && Enabled(s, step) && InTurn(step)
    ensures WakeInv(Apply(s, step))
  {
  }

  lemma RoundKeepsWake(s: State, step: Step)
    requires WakeInv(s) && Enabled(s, step) && !InTurn(step) && !ByOther(step)
    ensures WakeInv(Apply(s, step))
  {
  }

  lemma PushKeepsWake(s: State, step: Step)
    requires WakeInv(s) && Enabled(s, step) && (step.OtherPushes? || step.OtherQuits?)
    ensures WakeInv(Apply(s, step))
  {
  }

  lemma WakingKeepsWake(s: State, step: Step)
    requires WakeInv(s) && Enabled(s, step) && (step.OtherWakes? || step.OtherPokes?)
    ensures WakeInv(Apply(s, step))
  {
  }

  lemma RegisteringKeepsWake(s: State, step: Step)
    requires WakeInv(s) && Enabled(s, step) && step.OtherRegisters?
    ensures WakeInv(Apply(s, step))
  {
  }

  lemma OtherKeepsWake(s: State, step: Step)
    requires WakeInv(s) && Enabled(s, step) && ByOther(step)
    ensures WakeInv(Apply(s, step))
  {
    hide Apply, WakeInv, Enabled;
    if step.OtherRegisters? {
      RegisteringKeepsWake(s, step);
    } else if step.OtherWakes? || step.OtherPokes? {
      WakingKeepsWake(s, step);
    } else {
      PushKeepsWake(s, step);
    }
  }

  lemma WakeInvIsKept(s: State, step: Step)
    requires WakeInv(s) && Enabled(s, step)
    ensures WakeInv(Apply(s, step))
  {
    hide *;
    if InTurn(step) {
      TurnKeepsWake(s, step);
    } else if ByOther(step) {
      OtherKeepsWake(s, step);
    } else {
      RoundKeepsWake(s, step);
    }
  }

  lemma PushKeepsOrder(executed: seq<Functor>, batch: seq<Functor>, functors: seq<Functor>, f: Functor)
    ensures executed + batch + (functors + [f]) == executed + batch + functors + [f]
  {
  }

  lemma TurnKeepsOrder(s: State, step: Step)
    requires OrderInv(s) && Enabled(s, step) && InTurn(step)
    ensures OrderInv(Apply(s, step))
  {
    match step
    case EarlyPushes(f) => PushKeepsOrder(s.executed, s.batch, s.functors, f);
    case HandlerPushes(f) => PushKeepsOrder(s.executed, s.batch, s.functors, f);
    case _ =>
  }

  lemma BatchKeepsOrder(s: State, step: Step)
    requires OrderInv(s) && Enabled(s, step) && (step.SwapFunctors? || step.CallNext?)
    ensures OrderInv(Apply(s, step))
  {
    match step
    case SwapFunctors =>
      assert s.queued[..|s.queued|] == s.queued;
    case CallNext =>
      assert s.executed + [s.batch[0]] + s.batch[1..] == s.executed + s.batch;
  }

  lemma FunctorKeepsOrder(s: State, step: Step)
    requires OrderInv(s) && Enabled(s, step)
    requires step.FunctorPushes? || step.FunctorWakes? || step.FunctorQuits? || step.FunctorReturns?
    ensures OrderInv(Apply(s, step))
  {
    if step.FunctorPushes? {
      PushKeepsOrder(s.executed, s.batch, s.functors, step.f);
    }
  }

  lemma RoundKeepsOrder(s: State, step: Step)
    requires OrderInv(s) && Enabled(s, step) && !InTurn(step) && !ByOther(step)
    ensures OrderInv(Apply(s, step))
  {
    if step.SwapFunctors? || step.CallNext? {
      hide Apply, OrderInv, Enabled;
      BatchKeepsOrder(s, step);
    } else if !step.StartFunctors? && !step.EndFunctors? {
      hide Apply, OrderInv, Enabled;
      FunctorKeepsOrder(s, step);
    }
  }

  lemma OtherKeepsOrder(s: State, step: Step)
    requires OrderInv(s) && Enabled(s, step) && ByOther(step)
    ensures OrderInv(Apply(s, step))
  {
    match step
    case OtherPushes(t, f) => PushKeepsOrder(s.executed, s.batch, s.functors, f);
    case _ =>
  }

  lemma OrderInvIsKept(s: State, step: Step)
    requires OrderInv(s) && Enabled(s, step)
    ensures OrderInv(Apply(s, step))
  {
    hide *;
    if InTurn(step) {
      TurnKeepsOrder(s, step);
    } else if ByOther(step) {
      OtherKeepsOrder(s, step);
    } else {
      RoundKeepsOrder(s, step);
    }
  }

  lemma InvIsKept(s: State, step: Step)
    requires Inv(s) && Enabled(s, step)
    ensures Inv(Apply(s, step))
  {
    hide *;
    InvSplits(s);
    WakeInvIsKept(s, step);
    OrderInvIsKept(s, step);
    InvSplits(Apply(s, step));
  }

  lemma InvSplits(s: State)
    ensures Inv(s) <==> WakeInv(s) && OrderInv(s)
  {
    hide WakeInv, OrderInv;
  }

  lemma {:induction false} InvAlong(s: State, steps: seq<Step>, t: State)
    requires Inv(s) && Leads(s, steps, t)
    ensures Inv(t)
    decreases |steps|
  {
    if steps != [] {
      InvIsKept(s, steps[0]);
      InvAlong(Apply(s, steps[0]), steps[1..], t);
    }
  }

  lemma ReachableInv(s: State)
    requires Reachable(s)
    ensures Inv(s)
  {
    var steps :| Leads(Initial(), steps, s);
    InvHoldsInitially();
    InvAlong(Initial(), steps, s);
  }

  // ------------------------------------------------------------- main results

  /** No wake-up is lost: in every interleaving, a loop thread that polls while there is a
      functor to run or a request to quit finds the counter positive, or some thread is still
      to raise it.  The one exception is the first poll, when all there is to run was queued by
      the owner thread itself before it called loop(). */
  lemma NoLostWakeUp(s: State)
    requires Reachable(s) && s.place == Poll
    ensures s.quit ==> WakeIsDue(s)
    ensures s.functors != [] ==> WakeIsDue(s) || (!s.swapped && s.functors == s.early == s.queued && s.executed == [])
    ensures s.functors != [] && s.early == [] ==> WakeIsDue(s)
  {
    ReachableInv(s);
    assert s.place.Poll? && s.batch == [];
    assert s.executed == [] ==> s.executed + s.batch + s.functors == s.functors;
  }

  /** The exception happens: such functors wait for an unrelated event or for the poll timeout. */
  lemma EarlyFunctorsWait(f: Functor)
    returns (steps: seq<Step>, s: State)
    ensures Leads(Initial(), steps, s)
    ensures s.place == Poll && s.functors == [f] && !WakeIsDue(s)
  {
    steps := [EarlyPushes(f), CallLoop, TestQuit, ApplyRegistrations];
    var s1 := Apply(Initial(), EarlyPushes(f));
    var s2 := Apply(s1, CallLoop);
    var s3 := Apply(s2, TestQuit);
    s := Apply(s3, ApplyRegistrations);
    assert Leads(s, [], s);
    LeadsOne(s3, ApplyRegistrations, [], s);
    LeadsOne(s2, TestQuit, [ApplyRegistrations], s);
    LeadsOne(s1, CallLoop, [TestQuit, ApplyRegistrations], s);
    LeadsOne(Initial(), EarlyPushes(f), [CallLoop, TestQuit, ApplyRegistrations], s);
    assert steps == [EarlyPushes(f)] + [CallLoop, TestQuit, ApplyRegistrations];
    assert [CallLoop, TestQuit, ApplyRegistrations] == [CallLoop] + [TestQuit, ApplyRegistrations];
    assert [TestQuit, ApplyRegistrations] == [TestQuit] + [ApplyRegistrations];
    assert [ApplyRegistrations] == [ApplyRegistrations] + [];
  }

  lemma LeadsOne(s: State, step: Step, steps: seq<Step>, t: State)
    requires Enabled(s, step) && Leads(Apply(s, step), steps, t)
    ensures Leads(s, [step] + steps, t)
  {
    assert ([step] + steps)[1..] == steps;
    hide Apply;
  }

  /** A poll that blocks with nobody about to wake it has nothing to miss, but for functors the
      owner queued early: otherwise all functors ever queued have run, once each and in the
      order of the lock. */
  lemma BlockedMeansDone(s: State)
    requires Reachable(s) && s.place == Poll && s.count == 0 && s.owing == {}
    ensures !s.quit
    ensures s.executed == s.queued || (!s.swapped && s.executed == [] && s.queued == s.early)
  {
    ReachableInv(s);
    assert s.executed + s.batch + s.functors == s.executed + s.functors;
    assert s.functors == [] ==> s.executed + s.functors == s.executed;
    assert s.executed == [] ==> s.executed + s.functors == s.functors;
  }

  /** Exactly once, in order: at every moment the functors that ran, those left of the batch
      and those still queued are together all that were queued, in lock order. */
  lemma FunctorsAreConserved(s: State)
    requires Reachable(s)
    ensures s.executed + s.batch + s.functors == s.queued
  {
    ReachableInv(s);
  }

  /** assert(!runningFunctors_) before runFunctors holds. */
  lemma NotRunningWhenDispatching(s: State)
    requires Reachable(s) && s.place.Dispatch?
    ensures !s.running
  {
    ReachableInv(s);
  }

  /** A round runs what was queued when it began and nothing queued since. */
  lemma RoundIsFixedAtSwap(s: State)
    requires Reachable(s) && InRound(s)
    ensures s.taken <= |s.queued| && s.executed + s.batch == s.queued[..s.taken]
    ensures s.functors == s.queued[s.taken..]
  {
    ReachableInv(s);
    var before := s.executed + s.batch;
    assert s.queued == before + s.functors;
  }

  // ------------------------------------------------------------- what the steps say

  /** A call of quit, by whichever thread. */
  predicate IsQuit(step: Step) {
    step.EarlyQuits? || step.HandlerQuits? || step.FunctorQuits? || step.OtherQuits?
  }

  predicate IsPush(step: Step) {
    step.EarlyPushes? || step.HandlerPushes? || step.FunctorPushes? || step.OtherPushes?
  }

  /** A write of the eventfd. */
  predicate IsWake(step: Step) {
    step.FunctorWakes? || step.OtherWakes? || step.OtherPokes?
  }

  ghost predicate QuitAmong(steps: seq<Step>) {
    exists i :: 0 <= i < |steps| && IsQuit(steps[i])
  }

  /** The functors that the steps push, in order. */
  ghost function Pushed(steps: seq<Step>): seq<Functor> {
    if steps == [] then [] else (if IsPush(steps[0]) then [steps[0].f] else []) + Pushed(steps[1..])
  }

  /** The functors that the steps run, taken from a queue in order: one for each call. */
  ghost function Called(steps: seq<Step>): nat {
    if steps == [] then 0 else (if steps[0].CallNext? then 1 else 0) + Called(steps[1..])
  }

  /** The eventfd after the steps: a write adds one up to the largest count, a read takes all. */
  ghost function CountAfter(count: nat, steps: seq<Step>): nat
    decreases |steps|
  {
    if steps == [] then count else CountAfter(NextCount(count, steps[0]), steps[1..])
  }

  function NextCount(count: nat, step: Step): nat {
    if step.ReadCounter? then 0 else if IsWake(step) && count < MAX_COUNT then count + 1 else count
  }

  /** What one step does to the flag, the queue, the calls and the counter. */
  ghost predicate Tells(s: State, step: Step, t: State) {
    && (t.quit <==> s.quit || IsQuit(step))
    && t.queued == s.queued + (if IsPush(step) then [step.f] else [])
    && |t.executed| == |s.executed| + (if step.CallNext? then 1 else 0)
    && t.count == NextCount(s.count, step)
  }

  lemma TurnTells(s: State, step: Step)
    requires Enabled(s, step) && InTurn(step)
    ensures Tells(s, step, Apply(s, step))
  {
  }

  lemma RoundTells(s: State, step: Step)
    requires Enabled(s, step) && !InTurn(step) && !ByOther(step)
    ensures Tells(s, step, Apply(s, step))
  {
  }

  lemma OtherTells(s: State, step: Step)
    requires Enabled(s, step) && ByOther(step)
    ensures Tells(s, step, Apply(s, step))
  {
  }

  lemma StepTells(s: State, step: Step)
    requires Enabled(s, step)
    ensures Tells(s, step, Apply(s, step))
  {
    hide *;
    if InTurn(step) {
      TurnTells(s, step);
    } else if ByOther(step) {
      OtherTells(s, step);
    } else {
      RoundTells(s, step);
    }
  }

  ghost predicate TellAll(s: State, steps: seq<Step>, t: State) {
    && (t.quit <==> s.quit || QuitAmong(steps))
    && t.queued == s.queued + Pushed(steps)
    && |t.executed| == |s.executed| + Called(steps)
    && t.count == CountAfter(s.count, steps)
  }

  lemma NoStepTells(s: State)
    ensures TellAll(s, [], s)
  {
    assert s.queued + [] == s.queued;
  }

  lemma FirstStepTells(s: State, next: State, steps: seq<Step>, t: State)
    requires steps != [] && Tells(s, steps[0], next) && TellAll(next, steps[1..], t)
    ensures TellAll(s, steps, t)
  {
    QuitUnfolds(steps);
    var first := if IsPush(steps[0]) then [steps[0].f] else [];
    assert s.queued + first + Pushed(steps[1..]) == s.queued + (first + Pushed(steps[1..]));
    hide QuitAmong, IsQuit, IsPush, NextCount;
  }

  /** Flag, queue, calls and counter of a state are those of the steps that lead to it: quit_ is
      set exactly if some thread has called quit, what was queued is what was pushed, in the
      order of the pushes, and the eventfd holds the writes since its last read. */
  lemma {:induction false} StepsTell(s: State, steps: seq<Step>, t: State)
    requires Leads(s, steps, t)
    ensures TellAll(s, steps, t)
    decreases |steps|
  {
    hide TellAll, Tells, Apply, Enabled;
    if steps == [] {
      NoStepTells(s);
    } else {
      var next := Apply(s, steps[0]);
      StepTells(s, steps[0]);
      StepsTell(next, steps[1..], t);
      FirstStepTells(s, next, steps, t);
    }
  }

  lemma QuitUnfolds(steps: seq<Step>)
    requires steps != []
    ensures QuitAmong(steps) <==> IsQuit(steps[0]) || QuitAmong(steps[1..])
  {
    if QuitAmong(steps[1..]) {
      var i :| 0 <= i < |steps[1..]| && IsQuit(steps[1..][i]);
      assert IsQuit(steps[i + 1]);
    }
    if QuitAmong(steps) && !IsQuit(steps[0]) {
      var i :| 0 <= i < |steps| && IsQuit(steps[i]);
      assert IsQuit(steps[1..][i - 1]);
    }
  }

  /** quit ends the loop: once any thread has called it, the next test of the condition returns,
      whatever happens in between. */
  lemma QuitEndsTheLoop(s: State, q: Step, steps: seq<Step>, u: State)
    requires Reachable(s) && IsQuit(q) && Enabled(s, q)
    requires Leads(Apply(s, q), steps, u) && u.place == CheckQuit
    ensures Enabled(u, TestQuit) && Apply(u, TestQuit).place == Returned
  {
    ReachableInv(s);
    InvIsKept(s, q);
    StepTells(s, q);
    StepsTell(Apply(s, q), steps, u);
    hide Inv, IsQuit, QuitAmong, Pushed, Called, CountAfter, NextCount;
  }

  /** And nothing else does: a loop that has returned was asked to quit. */
  lemma ReturnedWasAsked(steps: seq<Step>, s: State)
    requires Leads(Initial(), steps, s) && s.place == Returned
    ensures QuitAmong(steps)
  {
    InvHoldsInitially();
    StepsTell(Initial(), steps, s);
    InvAlong(Initial(), steps, s);
    hide QuitAmong;
  }

  /** A poll that finds the eventfd readable reports it, and the loop then reads it. */
  lemma ReportedIsRead(s: State)
    requires Reachable(s) && s.place == Poll && s.count > 0
    ensures
      var reported := PollReturns(true);
      && Enabled(s, reported) && Enabled(Apply(s, reported), ReadCounter)
      && Apply(Apply(s, reported), ReadCounter).count == 0
  {
  }

  /** The counter is taken back to zero by the loop, so a poll is not woken twice by the same
      writes: after a read the counter is positive only if some thread has written since. */
  lemma WakesAreTaken(s: State, steps: seq<Step>, t: State)
    requires Reachable(s) && Enabled(s, ReadCounter) && Leads(Apply(s, ReadCounter), steps, t) && t.count > 0
    ensures exists i :: 0 <= i < |steps| && IsWake(steps[i])
  {
    ReachableInv(s);
    InvIsKept(s, ReadCounter);
    StepTells(s, ReadCounter);
    StepsTell(Apply(s, ReadCounter), steps, t);
    CountNeedsWake(steps);
    hide Inv, IsWake, Apply, CountAfter;
  }

  lemma {:induction false} CountNeedsWake(steps: seq<Step>)
    ensures CountAfter(0, steps) > 0 ==> exists i :: 0 <= i < |steps| && IsWake(steps[i])
  {
    if steps != [] && !IsWake(steps[0]) {
      CountNeedsWake(steps[1..]);
      if CountAfter(0, steps) > 0 {
        var i :| 0 <= i < |steps[1..]| && IsWake(steps[1..][i]);
        assert IsWake(steps[i + 1]);
      }
    }
  }

  // ------------------------------------------------------------- every functor is run

  lemma TakenGrows(s: State, step: Step)
    requires Inv(s) && Enabled(s, step)
    ensures s.executed + s.batch <= Apply(s, step).executed + Apply(s, step).batch
    ensures s.queued <= Apply(s, step).queued
  {
    match step
    case CallNext =>
      assert s.executed + [s.batch[0]] + s.batch[1..] == s.executed + s.batch;
    case _ =>
  }

  lemma {:induction false} TakenGrowsAlong(s: State, steps: seq<Step>, t: State)
    requires Inv(s) && Leads(s, steps, t)
    ensures s.executed + s.batch <= t.executed + t.batch && s.queued <= t.queued
    decreases |steps|
  {
    if steps != [] {
      var next := Apply(s, steps[0]);
      InvIsKept(s, steps[0]);
      TakenGrows(s, steps[0]);
      TakenGrowsAlong(next, steps[1..], t);
    }
  }

  /** Whatever was queued at some moment has run by the end of the first round that is
      swapped after it, in every interleaving. */
  lemma QueuedRunsInNextRound(s: State, until: seq<Step>, atSwap: State, after: seq<Step>, end: State)
    requires Reachable(s)
    requires Leads(s, until, atSwap) && atSwap.place == Swap
    requires Leads(Apply(atSwap, SwapFunctors), after, end) && end.place == CheckQuit
    ensures s.queued <= end.executed
  {
    ReachableInv(s);
    TakenGrowsAlong(s, until, atSwap);
    InvAlong(s, until, atSwap);
    var swapped := Apply(atSwap, SwapFunctors);
    InvIsKept(atSwap, SwapFunctors);
    assert swapped.executed + swapped.batch == atSwap.queued by {
      assert swapped.functors == [];
    }
    TakenGrowsAlong(swapped, after, end);
    InvAlong(swapped, after, end);
    assert end.executed + end.batch == end.executed;
  }

  // ------------------------------------------------------------- what the protocol does not promise

  /** A registration whose thread goes on to call wakeUp is never left waiting, whatever other
      registrations are pending beside it. */
  lemma WakingRegistrationsAreNoticed(s: State)
    requires Reachable(s) && s.place == Poll && s.waking
    ensures WakeIsDue(s)
  {
    ReachableInv(s);
  }

  /** Along every run from such a registration: a loop that polls with no wake-up due has applied
      it, and what is still pending then came only from threads that do not call wakeUp. */
  lemma WakingRegistrationIsApplied(s: State, t: Thread, steps: seq<Step>, u: State)
    requires Reachable(s) && Enabled(s, OtherRegisters(t, true))
    requires Leads(Apply(s, OtherRegisters(t, true)), steps, u)
    requires u.place == Poll && !WakeIsDue(u)
    ensures !u.waking && (u.registrations <==> u.silent)
    ensures exists i :: 0 <= i < |steps| && Applies(steps[i])
  {
    ReachableInv(s);
    InvIsKept(s, OtherRegisters(t, true));
    InvAlong(Apply(s, OtherRegisters(t, true)), steps, u);
    if forall i :: 0 <= i < |steps| ==> !Applies(steps[i]) {
      WakingStays(Apply(s, OtherRegisters(t, true)), steps, u);
    }
  }

  /** The steps that apply what is pending. */
  predicate Applies(step: Step) {
    step.ApplyRegistrations? || step.HandlerDone? || step.FunctorReturns? || step.EarlyRegisters?
  }

  lemma {:induction false} WakingStays(s: State, steps: seq<Step>, u: State)
    requires s.waking && Leads(s, steps, u) && forall i :: 0 <= i < |steps| ==> !Applies(steps[i])
    ensures u.waking
    decreases |steps|
  {
    if steps != [] {
      assert !Applies(steps[0]);
      WakingStaysOnce(s, steps[0]);
      forall i | 0 <= i < |steps[1..]|
        ensures !Applies(steps[1..][i])
      {
        assert !Applies(steps[i + 1]);
      }
      WakingStays(Apply(s, steps[0]), steps[1..], u);
    }
    hide Apply;
  }

  lemma WakingStaysInTurn(s: State, step: Step)
    requires s.waking && Enabled(s, step) && !Applies(step) && InTurn(step)
    ensures Apply(s, step).waking
  {
  }

  lemma WakingStaysInRound(s: State, step: Step)
    requires s.waking && Enabled(s, step) && !Applies(step) && !InTurn(step) && !ByOther(step)
    ensures Apply(s, step).waking
  {
  }

  lemma WakingStaysByOther(s: State, step: Step)
    requires s.waking && Enabled(s, step) && ByOther(step)
    ensures Apply(s, step).waking
  {
    if step.OtherRegisters? {
      WakingStaysByRegistering(s, step);
      hide Apply, Enabled;
    }
  }

  lemma WakingStaysByRegistering(s: State, step: Step)
    requires s.waking && Enabled(s, step) && step.OtherRegisters?
    ensures Apply(s, step).waking
  {
  }

  lemma WakingStaysOnce(s: State, step: Step)
    requires s.waking && Enabled(s, step) && !Applies(step)
    ensures Apply(s, step).waking
  {
    hide Apply, Enabled, Applies;
    if InTurn(step) {
      WakingStaysInTurn(s, step);
    } else if ByOther(step) {
      WakingStaysByOther(s, step);
    } else {
      WakingStaysInRound(s, step);
    }
  }

  /** Add, mod and del themselves do not wake: a reachable state in which a registration waits
      for an unrelated event or for the poll timeout. */
  lemma RegistrationDoesNotWake()
    returns (steps: seq<Step>, s: State)
    ensures Leads(Initial(), steps, s)
    ensures s.place == Poll && s.registrations && !WakeIsDue(s)
  {
    var registers := OtherRegisters(0, false);
    steps := [CallLoop, TestQuit, ApplyRegistrations, registers];
    var s0 := Apply(Initial(), CallLoop);
    var s1 := Apply(s0, TestQuit);
    var s2 := Apply(s1, ApplyRegistrations);
    s := Apply(s2, registers);
    assert Leads(s, [], s);
    LeadsOne(s2, registers, [], s);
    LeadsOne(s1, ApplyRegistrations, [registers], s);
    LeadsOne(s0, TestQuit, [ApplyRegistrations, registers], s);
    LeadsOne(Initial(), CallLoop, [TestQuit, ApplyRegistrations, registers], s);
    assert steps == [CallLoop] + [TestQuit, ApplyRegistrations, registers];
    assert [TestQuit, ApplyRegistrations, registers] == [TestQuit] + [ApplyRegistrations, registers];
    assert [ApplyRegistrations, registers] == [ApplyRegistrations] + [registers];
    assert [registers] == [registers] + [];
  }
}
