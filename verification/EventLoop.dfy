/**
  The cross-thread queue of muduo-vip/muduo/net/EventLoop.cc, as a state machine.
  Any number of other threads queue functors and ask the loop to quit; the loop
  thread polls, handles events, swaps the queue out and runs it.  Every access to
  shared state is one step, and steps of different threads interleave freely.  A
  functor or an event handler may itself queue functors, from the loop thread.
 */
module EventLoop {
  import opened Sequences

  /** Queued callbacks, told apart by a number. */
  type Functor = nat

  datatype Pc =
    | Created                                     // before loop()
    | Testing                                     // at `while (!quit_)`
    | Polling                                     // inside poller_->poll()
    | Handling(wakeup: bool)                      // active channels; `wakeup`: the eventfd is still among them
    | Swapping                                    // in doPendingFunctors(), before the swap
    | Running(batch: seq<Functor>, next: nat)     // `next` functors of the batch have been started
    | Returned                                    // loop() is over

  datatype State = State(
    pc: Pc,
    own: bool,                 // the loop thread is inside queueInLoop(), between push and test
    pending: seq<Functor>,
    calling: bool,             // callingPendingFunctors_
    quit: bool,
    counter: nat,              // of the eventfd
    pushers: set<nat>,         // other threads inside queueInLoop(), between push and wakeup()
    quitters: set<nat>,        // other threads inside quit(), between the store and wakeup()
    // history
    queued: seq<Functor>,
    ran: seq<Functor>,
    early: bool)               // the loop thread queued before loop(), and no swap has happened since

  datatype Step =
    | Push(tid: nat, f: Functor)
    | Quit(tid: nat)
    | Wakeup(tid: nat)
    | OwnPush(f: Functor)
    | OwnTest
    | OwnQuit
    | Start
    | Test
    | PollReturn
    | ReadWakeup
    | EndHandling
    | Swap
    | RunNext
    | EndRunning

  const INITIAL: State := State(Created, false, [], false, false, 0, {}, {}, [], [], false)

  const COUNTER_MAX: nat := 0xFFFF_FFFF_FFFF_FFFE

  /** Writing 1 to the eventfd; at the maximum the write fails and is only logged. */
  function Written(counter: nat): nat {
    if counter < COUNTER_MAX then counter + 1 else counter
  }

  /** User code is running on the loop thread. */
  predicate UserCode(pc: Pc) {
    pc.Created? || pc.Handling? || (pc.Running? && pc.next > 0) || pc.Returned?
  }

  predicate Enabled(s: State, step: Step) {
    match step
    case Push(tid, _) => tid !in s.pushers && tid !in s.quitters
    case Quit(tid) => tid !in s.pushers && tid !in s.quitters
    case Wakeup(tid) => tid in s.pushers || tid in s.quitters
    case OwnPush(_) => UserCode(s.pc) && !s.own
    case OwnTest => s.own
    case OwnQuit => UserCode(s.pc) && !s.own
    case Start => s.pc.Created? && !s.own
    case Test => s.pc.Testing?
    case PollReturn => s.pc.Polling?
    case ReadWakeup => s.pc.Handling? && s.pc.wakeup && !s.own
    case EndHandling => s.pc.Handling? && !s.pc.wakeup && !s.own
    case Swap => s.pc.Swapping?
    case RunNext => s.pc.Running? && s.pc.next < |s.pc.batch| && !s.own
    case EndRunning => s.pc.Running? && s.pc.next >= |s.pc.batch| && !s.own
  }

  function Do(s: State, step: Step): State
    requires Enabled(s, step)
  {
    match step
    case Push(tid, f) =>
      s.(pending := s.pending + [f], queued := s.queued + [f], pushers := s.pushers + {tid})
    case Quit(tid) =>
      s.(quit := true, quitters := s.quitters + {tid})
    case Wakeup(tid) =>
      s.(counter := Written(s.counter), pushers := s.pushers - {tid}, quitters := s.quitters - {tid})
    case OwnPush(f) =>
      s.(pending := s.pending + [f], queued := s.queued + [f], own := true, early := s.early || s.pc.Created?)
    case OwnTest =>
      s.(counter := if s.calling then Written(s.counter) else s.counter, own := false)
    case OwnQuit =>
      s.(quit := true)
    case Start =>
      s.(quit := false, pc := Testing)
    case Test =>
      s.(pc := if s.quit then Returned else Polling)
    case PollReturn =>
      // on the eventfd, on another channel or on the timeout
      s.(pc := Handling(s.counter > 0))
    case ReadWakeup =>
      s.(counter := 0, pc := Handling(false))
    case EndHandling =>
      s.(calling := true, pc := Swapping)
    case Swap =>
      s.(pending := [], pc := Running(s.pending, 0), early := false)
    case RunNext =>
      s.(ran := s.ran + [s.pc.batch[s.pc.next]], pc := s.pc.(next := s.pc.next + 1))
    case EndRunning =>
      s.(calling := false, pc := Testing)
  }

  ghost predicate Run(s: State, steps: seq<Step>)
    decreases |steps|, 0
  {
    steps == [] ||
    (Run(s, steps[..|steps| - 1]) && Enabled(After(s, steps[..|steps| - 1]), steps[|steps| - 1]))
  }

  ghost function After(s: State, steps: seq<Step>): State
    requires Run(s, steps)
    decreases |steps|, 1
  {
    if steps == [] then s else Do(After(s, steps[..|steps| - 1]), steps[|steps| - 1])
  }

  // ----- what every step keeps -----

  /** Swapped out, not yet started. */
  function InFlight(s: State): seq<Functor> {
    if s.pc.Running? && s.pc.next <= |s.pc.batch| then s.pc.batch[s.pc.next..] else []
  }

  /** A sleeping loop has been, or is about to be, woken. */
  predicate WakeupDue(s: State) {
    s.counter > 0 || s.pushers != {}
  }

  ghost predicate Inv(s: State) {
    && (s.pc.Running? ==> s.pc.next <= |s.pc.batch|)
    && s.queued == s.ran + InFlight(s) + s.pending
    && s.calling == (s.pc.Swapping? || s.pc.Running?)
    && (s.own ==> UserCode(s.pc))
    && (s.early ==> !s.pc.Running?)
    && (s.own && s.pc.Created? ==> s.early)
    && (s.pc.Handling? && s.pc.wakeup ==> s.counter > 0)
    // whatever is queued before the next swap and not behind a wakeup is early
    && (s.pc.Created? || s.pc.Testing? || s.pc.Polling? || s.pc.Running? ==>
          s.pending != [] ==> WakeupDue(s) || s.own || s.early)
    && (s.pc.Polling? && s.quit ==> s.counter > 0 || s.quitters != {})
    && (s.pc.Returned? ==> s.quit)
  }

  predicate Queueing(step: Step) {
    step.Push? || step.Quit? || step.Wakeup? || step.OwnPush? || step.OwnTest? || step.OwnQuit?
  }

  lemma QueueingKeepsInv(s: State, step: Step)
    requires Inv(s) && Enabled(s, step) && Queueing(step)
    ensures Inv(Do(s, step))
  {
    match step {
      case Push(tid, f) =>
        assert s.ran + InFlight(s) + s.pending + [f] == s.ran + InFlight(s) + (s.pending + [f]);
        assert tid in s.pushers + {tid};
      case Quit(tid) =>
        assert tid in s.quitters + {tid};
      case OwnPush(f) =>
        assert s.ran + InFlight(s) + s.pending + [f] == s.ran + InFlight(s) + (s.pending + [f]);
      case _ =>
    }
  }

  lemma SwapKeepsInv(s: State)
    requires Inv(s) && Enabled(s, Swap)
    ensures Inv(Do(s, Swap))
  {
    assert s.ran + [] + s.pending == s.ran + s.pending[0..] + [];
  }

  lemma RunNextKeepsInv(s: State)
    requires Inv(s) && Enabled(s, RunNext)
    ensures Inv(Do(s, RunNext))
  {
    OneStarted(s.ran, s.pc.batch, s.pc.next, s.pending);
  }

  lemma OneStarted(ran: seq<Functor>, batch: seq<Functor>, next: nat, pending: seq<Functor>)
    requires next < |batch|
    ensures ran + batch[next..] + pending == (ran + [batch[next]]) + batch[next + 1..] + pending
  {
    assert batch[next..] == [batch[next]] + batch[next + 1..];
  }

  lemma StepKeepsInv(s: State, step: Step)
    requires Inv(s) && Enabled(s, step)
    ensures Inv(Do(s, step))
  {
    if Queueing(step) {
      QueueingKeepsInv(s, step);
    } else if step.Swap? {
      SwapKeepsInv(s);
    } else if step.RunNext? {
      RunNextKeepsInv(s);
    }
  }

  lemma {:induction false} RunKeepsInv(s: State, steps: seq<Step>)
    requires Inv(s) && Run(s, steps)
    ensures Inv(After(s, steps))
  {
    if steps != [] {
      RunKeepsInv(s, steps[..|steps| - 1]);
      StepKeepsInv(After(s, steps[..|steps| - 1]), steps[|steps| - 1]);
    }
  }

  // ----- what a run contains -----

  ghost predicate Some(steps: seq<Step>, p: Step -> bool) {
    exists i :: 0 <= i < |steps| && p(steps[i])
  }

  lemma SomeLast(steps: seq<Step>, p: Step -> bool)
    requires steps != []
    ensures Some(steps, p) <==> Some(steps[..|steps| - 1], p) || p(steps[|steps| - 1])
  {
    var front := steps[..|steps| - 1];
    if Some(front, p) {
      var i :| 0 <= i < |front| && p(front[i]);
      assert p(steps[i]);
    }
    if Some(steps, p) {
      var i :| 0 <= i < |steps| && p(steps[i]);
      assert i < |front| ==> p(front[i]);
    }
  }

  predicate IsPush(step: Step) {
    step.Push?
  }

  predicate IsOwnPush(step: Step) {
    step.OwnPush?
  }

  predicate IsWakeup(step: Step) {
    step.Wakeup?
  }

  predicate IsSwap(step: Step) {
    step.Swap?
  }

  lemma LastOf(steps: seq<Step>)
    requires steps != []
    ensures var front, last := steps[..|steps| - 1], steps[|steps| - 1];
            && (Some(steps, IsPush) <==> Some(front, IsPush) || last.Push?)
            && (Some(steps, IsOwnPush) <==> Some(front, IsOwnPush) || last.OwnPush?)
            && (Some(steps, IsWakeup) <==> Some(front, IsWakeup) || last.Wakeup?)
            && (Some(steps, IsSwap) <==> Some(front, IsSwap) || last.Swap?)
  {
    SomeLast(steps, IsPush);
    SomeLast(steps, IsOwnPush);
    SomeLast(steps, IsWakeup);
    SomeLast(steps, IsSwap);
  }

  /** Only the first turn of the loop can find functors queued before it. */
  lemma {:induction false} EarlyIsFirstTurn(steps: seq<Step>)
    requires Run(INITIAL, steps)
    ensures var s := After(INITIAL, steps);
            s.early || s.pc.Created? ==> !Some(steps, IsSwap)
  {
    if steps != [] {
      EarlyIsFirstTurn(steps[..|steps| - 1]);
      LastOf(steps);
    }
  }

  /** Where the first turn stands before its poll() returns. */
  ghost predicate FirstTurn(s: State, steps: seq<Step>) {
    && !s.pc.Running?
    && (s.pc.Created? || s.pc.Testing? || s.pc.Polling? || s.pc.Returned? ==>
          && !s.calling
          && (s.counter > 0 <==> Some(steps, IsWakeup))
          && (!Some(steps, IsWakeup) ==> (s.pushers != {} <==> Some(steps, IsPush)))
          && (s.pending != [] <==> Some(steps, IsPush) || Some(steps, IsOwnPush)))
  }

  lemma FirstTurnStep(s: State, front: seq<Step>, steps: seq<Step>)
    requires FirstTurn(s, front) && steps != [] && front == steps[..|steps| - 1]
    requires Enabled(s, steps[|steps| - 1]) && !steps[|steps| - 1].Swap?
    ensures FirstTurn(Do(s, steps[|steps| - 1]), steps)
  {
    LastOf(steps);
    var last := steps[|steps| - 1];
    if last.Push? {
      assert last.tid in Do(s, last).pushers;
    }
  }

  lemma {:induction false} RunOfFirstTurn(steps: seq<Step>)
    requires Run(INITIAL, steps) && !Some(steps, IsSwap)
    ensures FirstTurn(After(INITIAL, steps), steps)
  {
    if steps != [] {
      LastOf(steps);
      RunOfFirstTurn(steps[..|steps| - 1]);
      FirstTurnStep(After(INITIAL, steps[..|steps| - 1]), steps[..|steps| - 1], steps);
    }
  }

  // ----- the promises, over every interleaving -----

  /** The loop sleeps on queued functors, and nobody is about to wake it. */
  predicate Lost(s: State) {
    s.pc.Polling? && s.pending != [] && !WakeupDue(s)
  }

  /**
    Exactly when a wakeup is lost, over every run that ends in poll(): the loop's own
    thread has queued before its first turn, and until now no other thread has queued
    or woken the loop.
   */
  lemma NoLostWakeup(steps: seq<Step>)
    requires Run(INITIAL, steps) && After(INITIAL, steps).pc.Polling?
    ensures Lost(After(INITIAL, steps)) <==>
            && Some(steps, IsOwnPush) && !Some(steps, IsSwap)
            && !Some(steps, IsPush) && !Some(steps, IsWakeup)
  {
    RunKeepsInv(INITIAL, steps);
    EarlyIsFirstTurn(steps);
    if !Some(steps, IsSwap) {
      RunOfFirstTurn(steps);
    }
  }

  /** A quit requested while the loop sleeps wakes it too. */
  lemma QuitWakesPoll(steps: seq<Step>)
    requires Run(INITIAL, steps)
    ensures var s := After(INITIAL, steps);
            s.pc.Polling? && s.quit ==> s.counter > 0 || s.quitters != {}
  {
    RunKeepsInv(INITIAL, steps);
  }

  /** Each queued functor is in exactly one place, and they are started in queue order. */
  lemma EachOnceInOrder(steps: seq<Step>)
    requires Run(INITIAL, steps)
    ensures var s := After(INITIAL, steps);
            s.queued == s.ran + InFlight(s) + s.pending && s.ran <= s.queued
  {
    RunKeepsInv(INITIAL, steps);
  }

  /** The loop thread queues nothing before it calls loop(). */
  ghost predicate QueuesAfterStart(steps: seq<Step>) {
    steps == [] ||
    var front, last := steps[..|steps| - 1], steps[|steps| - 1];
    QueuesAfterStart(front) && (last.OwnPush? ==> Start in front)
  }

  lemma {:induction false} EarlyNeedsOwnPush(steps: seq<Step>)
    requires Run(INITIAL, steps) && QueuesAfterStart(steps)
    ensures !After(INITIAL, steps).early
    ensures After(INITIAL, steps).pc.Created? ==> Start !in steps
  {
    if steps != [] {
      var front, last := steps[..|steps| - 1], steps[|steps| - 1];
      EarlyNeedsOwnPush(front);
      assert steps == front + [last];
    }
  }

  /** Over runs: if the loop thread queues only once it loops, no wakeup is ever lost. */
  lemma NoLostWakeupWhileLooping(steps: seq<Step>)
    requires Run(INITIAL, steps) && QueuesAfterStart(steps)
    ensures !Lost(After(INITIAL, steps))
  {
    RunKeepsInv(INITIAL, steps);
    EarlyNeedsOwnPush(steps);
  }

  lemma Extended(steps: seq<Step>, last: Step)
    requires Run(INITIAL, steps) && Enabled(After(INITIAL, steps), last)
    ensures Run(INITIAL, steps + [last])
    ensures After(INITIAL, steps + [last]) == Do(After(INITIAL, steps), last)
  {
    assert (steps + [last])[..|steps|] == steps;
  }

  /**
    Calling loop() at once after any preparation: its first poll() sleeps on queued
    functors exactly when the loop's own thread has queued some, no other thread has
    queued any and no wakeup has been written.
   */
  lemma EarlyQueueingSleeps(front: seq<Step>)
    requires Run(INITIAL, front)
    requires After(INITIAL, front).pc.Created? && !After(INITIAL, front).own
    ensures var steps := front + [Start] + [Test];
            && Run(INITIAL, steps) && After(INITIAL, steps).pc.Polling?
            && (Lost(After(INITIAL, steps)) <==>
                  Some(front, IsOwnPush) && !Some(front, IsPush) && !Some(front, IsWakeup))
  {
    var started, steps := front + [Start], front + [Start] + [Test];
    Extended(front, Start);
    Extended(started, Test);
    assert started[..|front|] == front && steps[..|started|] == started;
    LastOf(started);
    LastOf(steps);
    NoLostWakeup(steps);
    EarlyIsFirstTurn(front);
  }

  /** Such a preparation exists. */
  lemma EarlyQueueingCanSleep()
    ensures exists steps :: Run(INITIAL, steps) && Lost(After(INITIAL, steps))
  {
    var pushed: seq<Step> := [] + [OwnPush(7)];
    Extended([], OwnPush(7));
    Extended(pushed, OwnTest);
    var front := pushed + [OwnTest];
    assert front[..1] == pushed && pushed[..0] == [];
    LastOf(pushed);
    LastOf(front);
    EarlyQueueingSleeps(front);
  }

  predicate IsQuit(step: Step) {
    step.Quit? || step.OwnQuit?
  }

  ghost predicate NoStartFrom(steps: seq<Step>, i: nat) {
    forall j :: i <= j < |steps| ==> !steps[j].Start?
  }

  /** Some quit() is followed by no call of loop(). */
  ghost predicate QuitAfterStart(steps: seq<Step>) {
    exists i: nat :: i < |steps| && IsQuit(steps[i]) && NoStartFrom(steps, i)
  }

  lemma QuitAfterStartLast(front: seq<Step>, last: Step)
    ensures QuitAfterStart(front + [last]) <==> IsQuit(last) || (QuitAfterStart(front) && !last.Start?)
  {
    var steps := front + [last];
    if IsQuit(last) {
      assert IsQuit(steps[|front|]) && NoStartFrom(steps, |front|);
    } else if QuitAfterStart(front) && !last.Start? {
      var i: nat :| i < |front| && IsQuit(front[i]) && NoStartFrom(front, i);
      assert IsQuit(steps[i]) && NoStartFrom(steps, i);
    }
    if QuitAfterStart(steps) && !IsQuit(last) {
      var i: nat :| i < |steps| && IsQuit(steps[i]) && NoStartFrom(steps, i);
      assert steps[|front|] == last && IsQuit(front[i]);
      forall j | i <= j < |front| ensures !front[j].Start? {
        assert steps[j] == front[j];
      }
      assert NoStartFrom(front, i);
    }
  }

  /** quit_ is set exactly when some quit() has had no loop() after it: an earlier one is forgotten. */
  lemma {:induction false} QuitIsKept(steps: seq<Step>)
    requires Run(INITIAL, steps)
    ensures After(INITIAL, steps).quit <==> QuitAfterStart(steps)
  {
    if steps != [] {
      QuitIsKept(steps[..|steps| - 1]);
      assert steps == steps[..|steps| - 1] + [steps[|steps| - 1]];
      QuitAfterStartLast(steps[..|steps| - 1], steps[|steps| - 1]);
    }
  }

  /** loop() returns only when asked to. */
  lemma ReturnedWasAsked(steps: seq<Step>)
    requires Run(INITIAL, steps) && After(INITIAL, steps).pc.Returned?
    ensures QuitAfterStart(steps)
  {
    RunKeepsInv(INITIAL, steps);
    QuitIsKept(steps);
  }

  /** And then it does: at its test the loop polls again exactly when no quit() is due. */
  lemma TestPolls(steps: seq<Step>)
    requires Run(INITIAL, steps) && After(INITIAL, steps).pc.Testing?
    ensures Run(INITIAL, steps + [Test])
    ensures var pc := After(INITIAL, steps + [Test]).pc;
            if QuitAfterStart(steps) then pc.Returned? else pc.Polling?
  {
    Extended(steps, Test);
    QuitIsKept(steps);
  }

  /** A loop that has been asked to quit before loop(), and sleeps. */
  lemma QuitBeforeLoopIsForgotten()
    ensures exists steps ::
              && Run(INITIAL, steps)
              && steps != [] && steps[0] == Quit(1)
              && After(INITIAL, steps).pc.Polling? && !After(INITIAL, steps).quit
  {
    var asked: seq<Step> := [] + [Quit(1)];
    Extended([], Quit(1));
    Extended(asked, Start);
    Extended(asked + [Start], Test);
    assert (asked + [Start] + [Test])[0] == Quit(1);
  }

  // ----- one turn of the loop runs everything that was queued when it began to poll -----

  /** The first `n` functors ever queued will have been started when the loop next tests `quit_`. */
  predicate Serves(s: State, n: nat) {
    match s.pc
    case Created => false
    case Running(batch, next) => next <= |batch| && |s.ran| + (|batch| - next) >= n
    case Testing => |s.ran| >= n
    case Returned => |s.ran| >= n
    case _ => |s.ran| + |s.pending| >= n
  }

  lemma StepServes(s: State, step: Step, n: nat)
    requires Inv(s) && Enabled(s, step) && Serves(s, n)
    ensures Serves(Do(s, step), n)
    ensures s.ran <= Do(s, step).ran && s.queued <= Do(s, step).queued
  {
  }

  lemma {:induction false} RunServes(s: State, steps: seq<Step>, n: nat)
    requires Inv(s) && Run(s, steps) && Serves(s, n)
    ensures Inv(After(s, steps)) && Serves(After(s, steps), n)
    ensures s.ran <= After(s, steps).ran && s.queued <= After(s, steps).queued
  {
    if steps != [] {
      var front := steps[..|steps| - 1];
      RunServes(s, front, n);
      StepKeepsInv(After(s, front), steps[|steps| - 1]);
      StepServes(After(s, front), steps[|steps| - 1], n);
    }
  }

  lemma Served(a: State, b: State)
    requires Inv(a) && a.pc.Polling?
    requires Inv(b) && (b.pc.Testing? || b.pc.Returned?) && Serves(b, |a.ran| + |a.pending|)
    requires a.queued <= b.queued
    ensures a.ran + a.pending <= b.ran
  {
    assert a.queued == a.ran + a.pending && b.queued == b.ran + b.pending;
    PrefixOfPrefix(a.queued, b.ran, b.queued);
  }

  /**
    From a state in which the loop polls, whatever any thread does, everything queued
    by then has been started, in order, by the time the loop tests `quit_` again.
   */
  lemma TurnRunsPending(before: seq<Step>, later: seq<Step>)
    requires Run(INITIAL, before) && After(INITIAL, before).pc.Polling?
    requires Run(After(INITIAL, before), later)
    ensures var a, b := After(INITIAL, before), After(After(INITIAL, before), later);
            b.pc.Testing? || b.pc.Returned? ==> a.ran + a.pending <= b.ran
  {
    var a := After(INITIAL, before);
    RunKeepsInv(INITIAL, before);
    RunServes(a, later, |a.ran| + |a.pending|);
    var b := After(a, later);
    if b.pc.Testing? || b.pc.Returned? {
      Served(a, b);
    }
  }

  /** Everything queued before a poll() has been started, in order, when the loop tests `quit_` after it. */
  lemma FullTurn(before: seq<Step>, during: seq<Step>, turn: seq<Step>)
    requires Run(INITIAL, before) && Run(After(INITIAL, before), during)
    requires var p := After(After(INITIAL, before), during); p.pc.Polling? && Run(p, turn)
    ensures var a := After(INITIAL, before);
            var b := After(After(a, during), turn);
            b.pc.Testing? || b.pc.Returned? ==> a.queued <= b.ran
  {
    var a, whole := After(INITIAL, before), before + during;
    RunAppends(INITIAL, before, during);
    QueueGrows(a, during);
    RunKeepsInv(INITIAL, whole);
    TurnRunsPending(whole, turn);
    var p := After(INITIAL, whole);
    AllPending(p);
    var b := After(p, turn);
    if b.pc.Testing? || b.pc.Returned? {
      PrefixThrough(a.queued, p.queued, b.ran);
    }
  }

  lemma AllPending(s: State)
    requires Inv(s) && s.pc.Polling?
    ensures s.queued == s.ran + s.pending
  {
  }

  lemma {:induction false} RunAppends(s: State, x: seq<Step>, y: seq<Step>)
    requires Run(s, x) && Run(After(s, x), y)
    ensures Run(s, x + y) && After(s, x + y) == After(After(s, x), y)
    decreases |y|
  {
    if y == [] {
      assert x + y == x;
    } else {
      var front, last := y[..|y| - 1], y[|y| - 1];
      RunAppends(s, x, front);
      assert x + y == (x + front) + [last];
      assert (x + y)[..|x + y| - 1] == x + front;
    }
  }

  lemma {:induction false} QueueGrows(s: State, steps: seq<Step>)
    requires Run(s, steps)
    ensures s.queued <= After(s, steps).queued
  {
    if steps != [] {
      var front := steps[..|steps| - 1];
      QueueGrows(s, front);
      StepQueues(After(s, front), steps[|steps| - 1]);
      PrefixThrough(s.queued, After(s, front).queued, After(s, steps).queued);
    }
  }

  lemma StepQueues(s: State, step: Step)
    requires Enabled(s, step)
    ensures s.queued <= Do(s, step).queued
  {
  }

  // ----- the loop thread on its own gets through its turn -----

  predicate Looping(s: State) {
    !s.pc.Created? && !s.pc.Returned?
  }

  /** What the loop thread does next, when user code adds nothing. */
  function Next(s: State): Step
    requires Looping(s)
  {
    if s.own then OwnTest else
      match s.pc
      case Testing => Test
      case Polling => PollReturn
      case Handling(wakeup) => if wakeup then ReadWakeup else EndHandling
      case Swapping => Swap
      case Running(batch, next) => if next < |batch| then RunNext else EndRunning
  }

  /** A step of the loop thread that is not user code. */
  predicate OfTheLoop(step: Step) {
    match step
    case OwnTest => true
    case Test => true
    case PollReturn => true
    case ReadWakeup => true
    case EndHandling => true
    case Swap => true
    case RunNext => true
    case EndRunning => true
    case _ => false
  }

  function Rank(pc: Pc): nat {
    match pc
    case Polling => 5
    case Handling(wakeup) => if wakeup then 4 else 3
    case Swapping => 2
    case Running(_, _) => 1
    case _ => 0
  }

  function Unstarted(pc: Pc): nat {
    if pc.Running? && pc.next < |pc.batch| then |pc.batch| - pc.next else 0
  }

  /** The eventfd is read or about to be read, and nobody on this thread is about to write it. */
  predicate Calm(s: State) {
    !s.own && (s.counter == 0 || (s.pc.Handling? && s.pc.wakeup))
  }

  /** All that is pending will be swapped out before the next test. */
  predicate Sweeping(s: State) {
    s.pc.Polling? || s.pc.Handling? || s.pc.Swapping? || s.pending == []
  }

  lemma NextStep(s: State)
    requires Inv(s) && Looping(s) && !s.pc.Testing?
    ensures Enabled(s, Next(s))
    ensures var r := Do(s, Next(s));
            && Inv(r) && Looping(r) && r.queued == s.queued && r.quit == s.quit
            && (s.pc.Polling? || Calm(s) ==> Calm(r))
            && (Sweeping(s) ==> Sweeping(r))
  {
    StepKeepsInv(s, Next(s));
  }

  /** By its own steps, the loop comes to its next test. */
  lemma {:induction false} ToTesting(s: State) returns (steps: seq<Step>)
    requires Inv(s) && Looping(s)
    ensures Run(s, steps) && forall i :: 0 <= i < |steps| ==> OfTheLoop(steps[i])
    ensures var t := After(s, steps);
            && Inv(t) && t.pc.Testing? && t.queued == s.queued && t.quit == s.quit
            && (s.pc.Polling? || Calm(s) ==> Calm(t))
            && (Sweeping(s) ==> t.pending == [])
    decreases Rank(s.pc), Unstarted(s.pc), s.own
  {
    steps := [];
    if !s.pc.Testing? {
      var step := Next(s);
      NextStep(s);
      var rest := ToTesting(Do(s, step));
      OneStep(s, step);
      RunAppends(s, [step], rest);
      steps := [step] + rest;
    }
  }

  lemma OneStep(s: State, step: Step)
    requires Enabled(s, step)
    ensures Run(s, [step]) && After(s, [step]) == Do(s, step)
  {
    var steps := [step];
    assert steps[..0] == [] && Run(s, []) && After(s, []) == s;
  }

  lemma ToPolling(s: State) returns (steps: seq<Step>)
    requires Inv(s) && Looping(s) && !s.quit
    ensures Run(s, steps) && forall i :: 0 <= i < |steps| ==> OfTheLoop(steps[i])
    ensures var t := After(s, steps);
            && Inv(t) && t.pc.Polling? && t.queued == s.queued && !t.quit
            && (s.pc.Polling? ==> Calm(t) && t.pending == [])
  {
    var turn := ToTesting(s);
    OneStep(After(s, turn), Test);
    StepKeepsInv(After(s, turn), Test);
    RunAppends(s, turn, [Test]);
    steps := turn + [Test];
  }

  /**
    Progress.  Once it loops and no quit() is due, the loop goes on by its own steps, from
    wherever it is, until everything queued has been started, in order, and it sleeps with nothing pending
    and no wakeup left over.
   */
  lemma QueuedGetStarted(before: seq<Step>) returns (later: seq<Step>)
    requires Run(INITIAL, before) && Looping(After(INITIAL, before)) && !QuitAfterStart(before)
    ensures var a := After(INITIAL, before);
            && Run(a, later) && (forall i :: 0 <= i < |later| ==> OfTheLoop(later[i]))
            && var b := After(a, later);
               b.pc.Polling? && b.ran == a.queued && b.pending == [] && b.counter == 0
  {
    var a := After(INITIAL, before);
    RunKeepsInv(INITIAL, before);
    QuitIsKept(before);
    var x := ToPolling(a);
    var y := ToPolling(After(a, x));
    RunAppends(a, x, y);
    later := x + y;
    var b := After(a, later);
    assert b.queued == b.ran + [] + [];
  }
}
