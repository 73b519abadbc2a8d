/**
  When timers of the queue are called back: a timer keeps the time it was given until it
  is called, a repeating one comes back an interval later, any other is gone.
 */
module TimerSchedule {
  import opened Options
  import opened Sequences
  import opened Timers
  import opened TimerRuns

  /** The timer at `p` is queued, with exactly these fields. */
  ghost predicate Holds(q: Queue, p: Address, t: Timer) {
    p in q.heap && q.heap[p] == t && p in q.h.place && q.h.place[p] == Queued
  }

  /** What a queued timer is to the two indexes. */
  lemma HeldIsIndexed(q: Queue, p: Address, t: Timer)
    requires Good(q) && Holds(q, p, t)
    ensures Entry(t.expiration, p) in q.timers && Handle(p, t.sequence) in q.active
    ensures t.sequence in q.h.owner && q.h.owner[t.sequence] == p
  {
  }

  // ----- a timer is what was asked for -----

  /** addTimer() in the loop thread queues a timer with the time, the repetition and the interval asked for. */
  lemma AddedAsAsked(q: Queue, when: Time, repeat: bool, interval: nat, p: Address, clock: Time)
    requires Indexed(q) && p !in q.heap
    ensures var r := AddIn(CreateIn(q, when, repeat, interval, p), p, clock);
            Holds(r, p, Timer(when, repeat, interval, q.created + 1))
  {
  }

  /** So does addTimer() in another thread, once the loop thread has taken it up. */
  lemma CreatedAsAsked(q: Queue, op: Op, clock: Time)
    requires Idle(q) && op.Create? && Enabled(q, op)
    ensures var c := Apply(q, op);
            && Idle(c) && Enabled(c, AddInLoop(op.address, clock))
            && Holds(Apply(c, AddInLoop(op.address, clock)), op.address,
                     Timer(op.when, op.repeat, op.interval, q.created + 1))
  {
    ApplyKeeps(q, op);
  }

  // ----- who cancels what -----

  /** Among the first `k` callbacks, counting only `j` actions of the last, one cancels `id`. */
  ghost predicate Asked(script: seq<seq<Action>>, k: nat, j: nat, id: Handle) {
    exists a: nat, b: nat ::
      a < k && b < |Script(script, a)| && (a + 1 < k || b < j) && Script(script, a)[b] == Cancel(id)
  }

  lemma AskedNextCall(script: seq<seq<Action>>, k: nat, id: Handle)
    requires k > 0
    ensures Asked(script, k, 0, id) <==> Asked(script, k - 1, Length(script, k - 1), id)
  {
    if Asked(script, k, 0, id) {
      var a: nat, b: nat :| a < k && b < |Script(script, a)| && (a + 1 < k || b < 0)
          && Script(script, a)[b] == Cancel(id);
      assert a < k - 1 && (a + 1 < k - 1 || b < Length(script, k - 1));
    }
  }

  lemma AskedNextAct(script: seq<seq<Action>>, k: nat, j: nat, id: Handle)
    requires k > 0 && 0 < j <= Length(script, k)
    ensures Asked(script, k, j, id) <==> Asked(script, k, j - 1, id) || Script(script, k - 1)[j - 1] == Cancel(id)
  {
    if Asked(script, k, j, id) && !Asked(script, k, j - 1, id) {
      var a: nat, b: nat :| a < k && b < |Script(script, a)| && (a + 1 < k || b < j)
          && Script(script, a)[b] == Cancel(id);
      assert a == k - 1 && b == j - 1;
    }
  }

  /** Some callback of a script cancels `id`. */
  ghost predicate Mentions(script: seq<seq<Action>>, id: Handle) {
    exists a: nat, b: nat :: a < |script| && b < |script[a]| && script[a][b] == Cancel(id)
  }

  lemma AskedIsMentioned(script: seq<seq<Action>>, k: nat, j: nat, id: Handle)
    requires Asked(script, k, j, id)
    ensures Mentions(script, id)
  {
    var a: nat, b: nat :| a < k && b < |Script(script, a)| && (a + 1 < k || b < j)
        && Script(script, a)[b] == Cancel(id);
    assert script[a][b] == Cancel(id);
  }

  ghost predicate Cancels(op: Op, id: Handle) {
    match op
    case CancelInLoop(x) => x == id
    case HandleRead(_, _, script, _) => Mentions(script, id)
    case _ => false
  }

  /** Nobody cancels `id`, in any thread or callback. */
  ghost predicate NeverCancelled(ops: seq<Op>, id: Handle) {
    forall i :: 0 <= i < |ops| ==> !Cancels(ops[i], id)
  }

  // ----- a timer keeps what it was given until it is called back or cancelled -----

  lemma CancelHolds(q: Queue, id: Handle, p: Address, t: Timer)
    requires Indexed(q) && Holds(q, p, t) && id != Handle(p, t.sequence)
    ensures Holds(CancelIn(q, id), p, t)
  {
  }

  /** Callbacks keep the indexes, and leave the batch alone. */
  lemma ActIndexed(q: Queue, a: Action)
    requires Indexed(q)
    ensures Indexed(Act(q, a)) && BatchKept(q, Act(q, a))
  {
    match a {
      case Add(when, repeat, interval, address, clock) =>
        if address !in q.heap {
          var created := CreateIn(q, when, repeat, interval, address);
          CreateIndexed(q, when, repeat, interval, address);
          InsertIndexed(created, address);
          SameButArmed(InsertIn(created, address), AddIn(created, address, clock));
          AddKeepsBatch(q, when, repeat, interval, address, clock);
        }
      case Cancel(id) =>
        CancelIndexed(q, id);
        CancelKeepsBatch(q, id);
    }
  }

  ghost predicate Kept(q: Queue, p: Address, t: Timer) {
    Indexed(q) && Holds(q, p, t)
  }

  lemma CallKept(q: Queue, x: Address, p: Address, t: Timer)
    requires Kept(q, p, t)
    ensures Kept(Call(q, x), p, t)
  {
  }

  lemma ActKept(q: Queue, a: Action, p: Address, t: Timer)
    requires Kept(q, p, t) && a != Cancel(Handle(p, t.sequence))
    ensures Kept(Act(q, a), p, t)
  {
    ActIndexed(q, a);
    if a.Cancel? {
      CancelHolds(q, a.id, p, t);
    }
  }

  /** The callbacks of a batch, whatever calling one and performing an action of one may be. */
  ghost function Sweep(
      q: Queue, expired: seq<Entry>, script: seq<seq<Action>>, k: nat, j: nat,
      call: (Queue, Address) -> Queue, act: (Queue, Action) -> Queue): Queue
    requires k <= |expired| && j <= Length(script, k)
    decreases k, j
  {
    if k == 0 then q
    else if j == 0 then
      call(Sweep(q, expired, script, k - 1, Length(script, k - 1), call, act), expired[k - 1].timer)
    else act(Sweep(q, expired, script, k, j - 1, call, act), Script(script, k - 1)[j - 1])
  }

  lemma {:induction false} CallsIsSweep(q: Queue, expired: seq<Entry>, script: seq<seq<Action>>, k: nat, j: nat)
    requires k <= |expired| && j <= Length(script, k)
    ensures Calls(q, expired, script, k, j) == Sweep(q, expired, script, k, j, Call, Act)
    decreases k, j
  {
    if k > 0 {
      if j == 0 {
        CallsIsSweep(q, expired, script, k - 1, Length(script, k - 1));
      } else {
        CallsIsSweep(q, expired, script, k, j - 1);
      }
    }
  }

  ghost predicate CallsKeep1(
      expired: seq<Entry>, script: seq<seq<Action>>, call: (Queue, Address) -> Queue, kept: (Queue, nat, nat) -> bool)
  {
    forall r, i: nat {:trigger call(r, expired[i].timer)} ::
      i < |expired| && kept(r, i, Length(script, i)) ==> kept(call(r, expired[i].timer), i + 1, 0)
  }

  ghost predicate ActsKeep1(script: seq<seq<Action>>, act: (Queue, Action) -> Queue, kept: (Queue, nat, nat) -> bool) {
    forall r, i: nat, b: nat {:trigger act(r, Script(script, i)[b])} ::
      b < |Script(script, i)| && kept(r, i + 1, b) ==> kept(act(r, Script(script, i)[b]), i + 1, b + 1)
  }

  /** What every call and every action keep holds from any point of the callbacks to any later one. */
  lemma {:induction false} AlongSweep(
      q: Queue, expired: seq<Entry>, script: seq<seq<Action>>, k: nat, j: nat, k': nat, j': nat,
      call: (Queue, Address) -> Queue, act: (Queue, Action) -> Queue, kept: (Queue, nat, nat) -> bool)
    requires k <= k' <= |expired| && j <= Length(script, k) && j' <= Length(script, k') && (k == k' ==> j <= j')
    requires CallsKeep1(expired, script, call, kept) && ActsKeep1(script, act, kept)
    requires kept(Sweep(q, expired, script, k, j, call, act), k, j)
    ensures kept(Sweep(q, expired, script, k', j', call, act), k', j')
    decreases k', j'
  {
    if k < k' || j < j' {
      if j' == 0 {
        AlongSweep(q, expired, script, k, j, k' - 1, Length(script, k' - 1), call, act, kept);
      } else {
        AlongSweep(q, expired, script, k, j, k', j' - 1, call, act, kept);
      }
    }
  }

  lemma NotMentioned(script: seq<seq<Action>>, c: nat, b: nat, id: Handle)
    requires b < |Script(script, c)|
    ensures Script(script, c)[b] == Cancel(id) ==> Mentions(script, id)
  {
    if Script(script, c)[b] == Cancel(id) {
      assert script[c][b] == Cancel(id);
    }
  }

  /** From one point of the callbacks of a batch to a later one. */
  lemma CallsKeepIt(
      q: Queue, expired: seq<Entry>, script: seq<seq<Action>>, k: nat, j: nat, k': nat, j': nat, p: Address, t: Timer)
    requires k <= k' <= |expired| && j <= Length(script, k) && j' <= Length(script, k') && (k == k' ==> j <= j')
    requires Kept(Calls(q, expired, script, k, j), p, t) && !Mentions(script, Handle(p, t.sequence))
    ensures Kept(Calls(q, expired, script, k', j'), p, t)
  {
    var kept := (r: Queue, _: nat, _: nat) => Kept(r, p, t);
    forall r, i: nat | i < |expired| && kept(r, i, Length(script, i))
      ensures kept(Call(r, expired[i].timer), i + 1, 0)
    {
      CallKept(r, expired[i].timer, p, t);
    }
    forall r, i: nat, b: nat | b < |Script(script, i)| && kept(r, i + 1, b)
      ensures kept(Act(r, Script(script, i)[b]), i + 1, b + 1)
    {
      NotMentioned(script, i, b, Handle(p, t.sequence));
      ActKept(r, Script(script, i)[b], p, t);
    }
    CallsIsSweep(q, expired, script, k, j);
    CallsIsSweep(q, expired, script, k', j');
    AlongSweep(q, expired, script, k, j, k', j', Call, Act, kept);
  }

  lemma ResetOneHolds(q: Queue, e: Entry, p: Address, t: Timer)
    requires Sound(q) && e in q.h.batch && Holds(q, p, t)
    ensures Holds(ResetOne(q, e), p, t)
  {
  }

  lemma {:induction false} ResetHolds(q: Queue, p: Address, t: Timer)
    requires Sound(q) && Holds(q, p, t)
    ensures Holds(ResetBatch(q), p, t)
    decreases |q.h.batch|
  {
    if q.h.batch != {} {
      var e := First(q.h.batch);
      ResetOneKeeps(q, e);
      ResetOneBatch(q, e);
      ResetOneHolds(q, e, p, t);
      ResetHolds(ResetOne(q, e), p, t);
    }
  }

  lemma TakeHolds(q: Queue, now: Time, fired: bool, p: Address, t: Timer)
    requires Good(q) && Holds(q, p, t) && t.expiration > now
    ensures Holds(Take(q, now, fired), p, t)
  {
  }

  lemma EndHolds(q: Queue, clock: Time, p: Address, t: Timer)
    ensures Holds(q, p, t) ==> Holds(Finish(q, clock), p, t)
    ensures Finish(q, clock).h.freed == q.h.freed
  {
  }

  lemma ReadTail(q: Queue, now: Time, fired: bool, script: seq<seq<Action>>, clock: Time, called: Queue)
    requires Idle(q) && now > 0
    requires called == Amid(q, now, fired, script, |Listing(Due(q, now))|, Length(script, |Listing(Due(q, now))|))
    ensures called.h.now == now && Sound(called.(calling := false))
    ensures HandleReadIn(q, now, fired, script, clock) == Finish(ResetBatch(called.(calling := false)), clock)
  {
    ReadEnds(q, now, fired, script, clock);
  }

  /** From some point of its callbacks to the end of handleRead(). */
  lemma RestHolds(q: Queue, now: Time, fired: bool, script: seq<seq<Action>>, clock: Time, k: nat, j: nat,
                  p: Address, t: Timer)
    requires Idle(q) && now > 0 && k <= |Listing(Due(q, now))| && j <= Length(script, k)
    requires Kept(Amid(q, now, fired, script, k, j), p, t) && !Mentions(script, Handle(p, t.sequence))
    ensures Holds(HandleReadIn(q, now, fired, script, clock), p, t)
  {
    var n := |Listing(Due(q, now))|;
    var m := Length(script, n);
    var called := Amid(q, now, fired, script, n, m);
    CallsKeepIt(Take(q, now, fired), Listing(Due(q, now)), script, k, j, n, m, p, t);
    ReadTail(q, now, fired, script, clock, called);
    ResetHolds(called.(calling := false), p, t);
    EndHolds(ResetBatch(called.(calling := false)), clock, p, t);
  }

  lemma ReadHolds(
      q: Queue, now: Time, fired: bool, script: seq<seq<Action>>, clock: Time, p: Address, t: Timer)
    requires Idle(q) && now > 0 && Holds(q, p, t) && t.expiration > now && !Mentions(script, Handle(p, t.sequence))
    ensures Holds(HandleReadIn(q, now, fired, script, clock), p, t)
  {
    TakeIndexed(q, now, fired);
    TakeHolds(q, now, fired, p, t);
    RestHolds(q, now, fired, script, clock, 0, 0, p, t);
  }

  lemma AmidIndexed(q: Queue, now: Time, fired: bool, script: seq<seq<Action>>, k: nat, j: nat)
    requires Idle(q) && now > 0 && k <= |Listing(Due(q, now))| && j <= Length(script, k)
    ensures Indexed(Amid(q, now, fired, script, k, j))
  {
    AmidIsSound(q, now, fired, script, k, j);
  }

  lemma AddedKept(mid: Queue, a: Action)
    requires Indexed(mid) && a.Add? && a.address !in mid.heap
    ensures Kept(Act(mid, a), a.address, Timer(a.when, a.repeat, a.interval, mid.created + 1))
  {
    AddedAsAsked(mid, a.when, a.repeat, a.interval, a.address, a.clock);
    ActIndexed(mid, a);
  }

  /** The state after action `j` of callback `k` is the action done to the state before it. */
  lemma NextAmid(q: Queue, now: Time, fired: bool, script: seq<seq<Action>>, k: nat, j: nat, mid: Queue, next: Queue)
    requires Idle(q) && 1 <= k <= |Listing(Due(q, now))| && j < |Script(script, k - 1)|
    requires mid == Amid(q, now, fired, script, k, j) && next == Amid(q, now, fired, script, k, j + 1)
    ensures next == Act(mid, Script(script, k - 1)[j])
  {
  }

  /** A timer that a callback adds is queued, as asked for, when handleRead() is over. */
  lemma AddedInCallback(q: Queue, now: Time, fired: bool, script: seq<seq<Action>>, clock: Time, k: nat, j: nat,
                        mid: Queue, a: Action, t: Timer)
    requires Idle(q) && now > 0 && 1 <= k <= |Listing(Due(q, now))| && j < |Script(script, k - 1)|
    requires mid == Amid(q, now, fired, script, k, j) && a == Script(script, k - 1)[j]
    requires a.Add? && a.address !in mid.heap && t == Timer(a.when, a.repeat, a.interval, mid.created + 1)
    requires !Mentions(script, Handle(a.address, t.sequence))
    ensures Holds(HandleReadIn(q, now, fired, script, clock), a.address, t)
  {
    AmidIndexed(q, now, fired, script, k, j);
    AddedKept(mid, a);
    NextAmid(q, now, fired, script, k, j, mid, Amid(q, now, fired, script, k, j + 1));
    RestHolds(q, now, fired, script, clock, k, j + 1, a.address, t);
  }

  /** The callbacks run by one operation. */
  ghost function RunBy(q: Queue, op: Op): seq<int>
    requires Idle(q) && Enabled(q, op)
  {
    if op.HandleRead? then NumbersOfDue(q, op.now) else []
  }

  ghost function NumbersOfDue(q: Queue, now: Time): seq<int>
    requires Idle(q)
  {
    DueListed(q, now);
    NumbersOf(q.heap, Listing(Due(q, now)), |Listing(Due(q, now))|)
  }

  lemma OpRuns(q: Queue, op: Op)
    requires Idle(q) && Enabled(q, op)
    ensures Apply(q, op).h.runs == q.h.runs + RunBy(q, op)
  {
    match op {
      case HandleRead(now, fired, script, clock) => HandleReadCallsDue(q, now, fired, script, clock);
      case _ =>
    }
  }

  /** A queued timer is called back by a handleRead() exactly when its time has come. */
  lemma DueIffTime(q: Queue, now: Time, p: Address, t: Timer)
    requires Idle(q) && Holds(q, p, t)
    ensures t.sequence in NumbersOfDue(q, now) <==> t.expiration <= now
  {
    var expired := Listing(Due(q, now));
    var numbers := NumbersOfDue(q, now);
    DueListed(q, now);
    HeldIsIndexed(q, p, t);
    if t.expiration <= now {
      var e := Entry(t.expiration, p);
      assert e in expired;
      var i :| 0 <= i < |expired| && expired[i] == e;
      assert numbers[i] == t.sequence;
    }
    if t.sequence in numbers {
      var i :| 0 <= i < |numbers| && numbers[i] == t.sequence;
      assert expired[i] in expired;
      assert q.h.owner[t.sequence] == expired[i].timer;
    }
  }

  lemma OpHolds(q: Queue, op: Op, p: Address, t: Timer)
    requires Idle(q) && Enabled(q, op) && Holds(q, p, t) && !Cancels(op, Handle(p, t.sequence))
    ensures Holds(Apply(q, op), p, t) || t.sequence in RunBy(q, op)
  {
    match op {
      case Create(_, _, _, _) =>
      case AddInLoop(_, _) =>
      case CancelInLoop(id) => CancelHolds(q, id, p, t);
      case HandleRead(now, fired, script, clock) =>
        DueIffTime(q, now, p, t);
        if t.expiration > now {
          ReadHolds(q, now, fired, script, clock, p, t);
        }
    }
  }

  ghost predicate CalledSince(a: Queue, b: Queue, n: int) {
    a.h.runs <= b.h.runs && n in b.h.runs[|a.h.runs|..]
  }

  /** Over any run in which nobody cancels it, a queued timer keeps what it was given until it is called back. */
  lemma {:induction false} KeptUntilCalled(q: Queue, ops: seq<Op>, p: Address, t: Timer)
    requires Idle(q) && Holds(q, p, t) && NeverCancelled(ops, Handle(p, t.sequence))
    ensures var r := After(q, ops);
            q.h.runs <= r.h.runs && (Holds(r, p, t) || CalledSince(q, r, t.sequence))
  {
    if ops != [] {
      var front, op := ops[..|ops| - 1], ops[|ops| - 1];
      KeptUntilCalled(q, front, p, t);
      EveryRunIsSound(q, front);
      var m := After(q, front);
      if Enabled(m, op) {
        OneMoreOp(q, m, op, p, t);
      }
    }
  }

  lemma OneMoreOp(q: Queue, m: Queue, op: Op, p: Address, t: Timer)
    requires Idle(m) && Enabled(m, op) && q.h.runs <= m.h.runs && !Cancels(op, Handle(p, t.sequence))
    requires Holds(m, p, t) || CalledSince(q, m, t.sequence)
    ensures var r := Apply(m, op);
            q.h.runs <= r.h.runs && (Holds(r, p, t) || CalledSince(q, r, t.sequence))
  {
    OpRuns(m, op);
    RunsGrow(q.h.runs, m.h.runs, RunBy(m, op), t.sequence);
    if Holds(m, p, t) {
      OpHolds(m, op, p, t);
    }
  }

  lemma RunsGrow(a: seq<int>, b: seq<int>, more: seq<int>, n: int)
    requires a <= b
    ensures a <= b + more
    ensures n in (b + more)[|a|..] <==> n in b[|a|..] || n in more
  {
    assert (b + more)[|a|..] == b[|a|..] + more;
  }

  // ----- which timers of a batch are cancelled in it -----

  /** While its timer is in the batch, `id` enters `cancelingTimers_` when it is cancelled, and only then. */
  lemma ActMarks(r: Queue, a: Action, id: Handle)
    requires Indexed(r) && r.calling && InCurrentBatch(r, id)
    ensures id in Act(r, a).canceling <==> id in r.canceling || a == Cancel(id)
  {
  }

  /** Callbacks are being called, the timer of `id` is among theirs, and `id` is marked if `asked`. */
  ghost predicate Marked(r: Queue, id: Handle, asked: bool) {
    Indexed(r) && r.calling && InBatchAs(r, id) && (id in r.canceling <==> asked)
  }

  lemma CallMarked(r: Queue, p: Address, id: Handle, asked: bool)
    requires Marked(r, id, asked)
    ensures Marked(Call(r, p), id, asked)
  {
  }

  lemma ActMarked(r: Queue, a: Action, id: Handle, asked: bool)
    requires Marked(r, id, asked)
    ensures Marked(Act(r, a), id, asked || a == Cancel(id))
  {
    BatchTimer(r, id);
    ActMarks(r, a, id);
    ActIndexed(r, a);
  }

  lemma {:induction false} MarkedIffAsked(
      q: Queue, expired: seq<Entry>, script: seq<seq<Action>>, k: nat, j: nat, id: Handle)
    requires k <= |expired| && j <= Length(script, k) && Marked(q, id, false)
    ensures Marked(Calls(q, expired, script, k, j), id, Asked(script, k, j, id))
    decreases k, j
  {
    if k > 0 {
      if j == 0 {
        var m := Length(script, k - 1);
        MarkedIffAsked(q, expired, script, k - 1, m, id);
        AskedNextCall(script, k, id);
        CallMarked(Calls(q, expired, script, k - 1, m), expired[k - 1].timer, id, Asked(script, k - 1, m, id));
      } else {
        MarkedIffAsked(q, expired, script, k, j - 1, id);
        AskedNextAct(script, k, j, id);
        ActMarked(Calls(q, expired, script, k, j - 1), Script(script, k - 1)[j - 1], id, Asked(script, k, j - 1, id));
      }
    }
  }

  /** The timer of `id` is in the batch, under its expiration. */
  ghost predicate InBatchAs(q: Queue, id: Handle) {
    && id.timer in q.heap && q.heap[id.timer].sequence == id.sequence
    && Entry(q.heap[id.timer].expiration, id.timer) in q.h.batch
  }

  lemma BatchTimer(q: Queue, id: Handle)
    requires Indexed(q) && InBatchAs(q, id)
    ensures InCurrentBatch(q, id)
  {
  }

  // ----- repeating timers come back, the others do not -----

  ghost function Again(q: Queue, p: Address): Timer
    requires p in q.heap
  {
    q.heap[p].(expiration := q.h.now + q.heap[p].interval)
  }

  /** reset() for the entry itself ... */
  lemma ResetOneRestarts(q: Queue, e: Entry)
    requires Sound(q) && e in q.h.batch
    ensures if Restarts(q, e.timer) then Holds(ResetOne(q, e), e.timer, Again(q, e.timer))
            else q.heap[e.timer].sequence in ResetOne(q, e).h.freed
  {
  }

  /** ... and for another one. */
  lemma ResetOneSpares(q: Queue, e: Entry, x: Entry)
    requires Sound(q) && e in q.h.batch && x in q.h.batch && x != e
    ensures var r := ResetOne(q, e);
            && x in r.h.batch && x.timer in r.heap && r.heap[x.timer] == q.heap[x.timer]
            && r.canceling == q.canceling && r.h.now == q.h.now
  {
  }

  lemma {:induction false} BatchRestarts(q: Queue, x: Entry)
    requires Sound(q) && x in q.h.batch
    ensures if Restarts(q, x.timer) then Holds(ResetBatch(q), x.timer, Again(q, x.timer))
            else q.heap[x.timer].sequence in ResetBatch(q).h.freed
    decreases |q.h.batch|
  {
    var e := First(q.h.batch);
    ResetOneKeeps(q, e);
    ResetOneBatch(q, e);
    var r := ResetOne(q, e);
    if x == e {
      ResetOneRestarts(q, e);
      ResetGrows(r);
      if Restarts(q, e.timer) {
        ResetHolds(r, e.timer, Again(q, e.timer));
      }
    } else {
      ResetOneSpares(q, e, x);
      BatchRestarts(r, x);
    }
  }

  /** Some callback of the batch cancels `id`. */
  ghost predicate CancelledInBatch(script: seq<seq<Action>>, n: nat, id: Handle) {
    Asked(script, n, Length(script, n), id)
  }

  lemma TakenInBatch(q: Queue, now: Time, fired: bool, e: Entry)
    requires Idle(q) && e in Due(q, now)
    ensures Marked(Take(q, now, fired), Handle(e.timer, q.heap[e.timer].sequence), false)
  {
    TakeIndexed(q, now, fired);
  }

  /** A due timer when all callbacks have been called. */
  lemma DueWhenCalled(q: Queue, now: Time, fired: bool, script: seq<seq<Action>>, e: Entry)
    requires Idle(q) && now > 0 && e in Due(q, now)
    ensures var n := |Listing(Due(q, now))|;
            var t, id := q.heap[e.timer], Handle(e.timer, q.heap[e.timer].sequence);
            var called := Amid(q, now, fired, script, n, Length(script, n));
            && e.timer in called.heap && called.heap[e.timer] == t
            && Marked(called, id, CancelledInBatch(script, n, id))
  {
    var t, expired := q.heap[e.timer], Listing(Due(q, now));
    var n := |expired|;
    TakenInBatch(q, now, fired, e);
    MarkedIffAsked(Take(q, now, fired), expired, script, n, Length(script, n), Handle(e.timer, t.sequence));
    AmidIsSound(q, now, fired, script, n, Length(script, n));
    DueListed(q, now);
    DueTimerKept(q, Amid(q, now, fired, script, n, Length(script, n)), expired, e);
  }

  lemma BatchComesBack(called: Queue, e: Entry, t: Timer, asked: bool, clock: Time)
    requires Sound(called.(calling := false)) && e.timer in called.heap && called.heap[e.timer] == t
    requires t.expiration == e.when && Marked(called, Handle(e.timer, t.sequence), asked)
    ensures var r := Finish(ResetBatch(called.(calling := false)), clock);
            if t.repeat && !asked then Holds(r, e.timer, t.(expiration := called.h.now + t.interval))
            else t.sequence in r.h.freed
  {
    var calm := called.(calling := false);
    BatchRestarts(calm, e);
    EndHolds(ResetBatch(calm), clock, e.timer, t.(expiration := called.h.now + t.interval));
  }

  /**
    What becomes of a timer that is called back: if it repeats and no callback of the batch
    cancels it, it is queued again, at the same address and under the same number, one
    interval after the time of this handleRead(); otherwise it is freed.
   */
  lemma CalledComesBack(q: Queue, now: Time, fired: bool, script: seq<seq<Action>>, clock: Time, e: Entry)
    requires Idle(q) && now > 0 && e in Due(q, now)
    ensures var t, r := q.heap[e.timer], HandleReadIn(q, now, fired, script, clock);
            if t.repeat && !CancelledInBatch(script, |Listing(Due(q, now))|, Handle(e.timer, t.sequence))
            then Holds(r, e.timer, t.(expiration := now + t.interval))
            else t.sequence in r.h.freed
  {
    var t, n := q.heap[e.timer], |Listing(Due(q, now))|;
    var called := Amid(q, now, fired, script, n, Length(script, n));
    DueWhenCalled(q, now, fired, script, e);
    ReadTail(q, now, fired, script, clock, called);
    BatchComesBack(called, e, t, CancelledInBatch(script, n, Handle(e.timer, t.sequence)), clock);
  }

  lemma DueTimerKept(q: Queue, called: Queue, expired: seq<Entry>, e: Entry)
    requires e in expired && SameTimers(q.heap, called.heap, expired)
    ensures e.timer in called.heap && e.timer in q.heap && called.heap[e.timer] == q.heap[e.timer]
  {
  }

  // ----- so: every interval -----

  /** The next handleRead() calls a queued timer back exactly when its time has come. */
  lemma NextCall(r: Queue, p: Address, t: Timer, now: Time, fired: bool, script: seq<seq<Action>>, clock: Time)
    requires Idle(r) && Holds(r, p, t) && now > 0
    ensures CalledSince(r, HandleReadIn(r, now, fired, script, clock), t.sequence) <==> now >= t.expiration
  {
    HandleReadCallsDue(r, now, fired, script, clock);
    DueIffTime(r, now, p, t);
    RunsGrow(r.h.runs, r.h.runs, NumbersOfDue(r, now), t.sequence);
  }

  /**
    A timer in the queue, after any run in which nobody cancels it and it is not called
    back: the next handleRead() calls it exactly when the time it was given has come.
   */
  lemma FirstCall(q: Queue, p: Address, t: Timer, between: seq<Op>, r: Queue, now: Time, fired: bool,
                  script: seq<seq<Action>>, clock: Time)
    requires Idle(q) && Holds(q, p, t) && now > 0
    requires r == After(q, between) && NeverCancelled(between, Handle(p, t.sequence)) && !CalledSince(q, r, t.sequence)
    ensures Idle(r)
    ensures CalledSince(r, HandleReadIn(r, now, fired, script, clock), t.sequence) <==> now >= t.expiration
  {
    EveryRunIsSound(q, between);
    KeptUntilCalled(q, between, p, t);
    NextCall(r, p, t, now, fired, script, clock);
  }

  /**
    A repeating timer that nobody cancels, over any run from the empty queue: called back at
    one handleRead(), it is called back at a later one, with no call in between, exactly when
    at least its interval has passed since the first.
   */
  lemma EveryInterval(
      before: seq<Op>, q: Queue, e: Entry, now: Time, fired: bool, script: seq<seq<Action>>, clock: Time, first: Queue,
      between: seq<Op>, r: Queue, now': Time, fired': bool, script': seq<seq<Action>>, clock': Time)
    requires q == Reached(before) && now > 0 && now' > 0
    requires e in Due(q, now) && q.heap[e.timer].repeat
    requires first == HandleReadIn(q, now, fired, script, clock) && r == After(first, between)
    requires var id := Handle(e.timer, q.heap[e.timer].sequence);
             !Mentions(script, id) && NeverCancelled(between, id) && !CalledSince(first, r, id.sequence)
    ensures Idle(r)
    ensures var t := q.heap[e.timer];
            CalledSince(r, HandleReadIn(r, now', fired', script', clock'), t.sequence) <==> now' >= now + t.interval
  {
    var t, n := q.heap[e.timer], |Listing(Due(q, now))|;
    var id := Handle(e.timer, t.sequence);
    if CancelledInBatch(script, n, id) {
      AskedIsMentioned(script, n, Length(script, n), id);
    }
    CalledComesBack(q, now, fired, script, clock, e);
    FirstCall(first, e.timer, t.(expiration := now + t.interval), between, r, now', fired', script', clock');
  }

  // ----- the timerfd -----

  /** After a handleRead() the timerfd is set for the earliest timer left, or 100 microseconds from now. */
  lemma ReadArms(q: Queue, now: Time, fired: bool, script: seq<seq<Action>>, clock: Time)
    requires Idle(q) && now > 0
    ensures var r := HandleReadIn(q, now, fired, script, clock);
            r.timers != {} && First(r.timers).when > 0 ==> r.armed == Some(Max(First(r.timers).when, clock + 100))
  {
    ReadEnds(q, now, fired, script, clock);
  }

  /** Adding sets it for the new timer exactly when that is earlier than all the others. */
  lemma AddArms(q: Queue, p: Address, clock: Time)
    requires Indexed(q) && p in q.heap && q.h.place[p] == Adding
    ensures var r := AddIn(q, p, clock);
            if q.timers == {} || q.heap[p].expiration < First(q.timers).when
            then r.armed == Some(Max(q.heap[p].expiration, clock + 100))
            else r.armed == q.armed
  {
    if q.timers != {} {
      var f := First(q.timers);
      assert forall e :: e in q.timers ==> f.when <= e.when;
    }
  }
}
