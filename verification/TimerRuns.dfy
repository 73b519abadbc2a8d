/** Whole runs of the timer queue: what holds after every one of them. */
module TimerRuns {
  import opened Sequences
  import opened Timers

  /** What happens to a queue: addTimer() in any thread, and the three in-loop operations. */
  datatype Op =
    | Create(when: Time, repeat: bool, interval: nat, address: Address)
    | AddInLoop(address: Address, clock: Time)
    | CancelInLoop(id: Handle)
    | HandleRead(now: Time, fired: bool, script: seq<seq<Action>>, clock: Time)

  ghost predicate Enabled(q: Queue, op: Op) {
    match op
    case Create(_, _, _, address) => address !in q.heap
    case AddInLoop(address, _) => address in q.heap && address in q.h.place && q.h.place[address] == Adding
    case CancelInLoop(_) => true
    case HandleRead(now, _, _, _) => now > 0
  }

  /** A sound queue between operations. */
  ghost predicate Idle(q: Queue) { Good(q) && !q.h.reading }

  ghost function Apply(q: Queue, op: Op): Queue
    requires Idle(q) && Enabled(q, op)
  {
    match op
    case Create(when, repeat, interval, address) => CreateIn(q, when, repeat, interval, address)
    case AddInLoop(address, clock) => AddIn(q, address, clock)
    case CancelInLoop(id) => CancelIn(q, id)
    case HandleRead(now, fired, script, clock) => HandleReadIn(q, now, fired, script, clock)
  }

  lemma ApplyKeeps(q: Queue, op: Op)
    requires Idle(q) && Enabled(q, op)
    ensures Idle(Apply(q, op))
  {
    match op {
      case Create(when, repeat, interval, address) => CreateKeeps(q, when, repeat, interval, address);
      case AddInLoop(address, clock) => AddKeeps(q, address, clock);
      case CancelInLoop(id) => CancelKeeps(q, id);
      case HandleRead(_, _, _, _) =>
    }
  }

  /** A run: operations in any order; one that cannot happen is skipped. */
  ghost function After(q: Queue, ops: seq<Op>): Queue {
    if ops == [] then q else
      var r, op := After(q, ops[..|ops| - 1]), ops[|ops| - 1];
      if Idle(r) && Enabled(r, op) then Apply(r, op) else r
  }

  /** Every run leaves a sound queue; what follows from that is stated next. */
  lemma {:induction false} EveryRunIsSound(q: Queue, ops: seq<Op>)
    requires Idle(q)
    ensures Idle(After(q, ops))
  {
    if ops != [] {
      EveryRunIsSound(q, ops[..|ops| - 1]);
      var r, op := After(q, ops[..|ops| - 1]), ops[|ops| - 1];
      if Enabled(r, op) {
        ApplyKeeps(r, op);
      }
    }
  }

  lemma EmptyIsIdle()
    ensures Idle(EMPTY)
  {
  }

  /** The queue after a run that begins with an empty one. */
  ghost function Reached(ops: seq<Op>): (q: Queue)
    ensures Idle(q)
  {
    EmptyIsIdle();
    EveryRunIsSound(EMPTY, ops);
    After(EMPTY, ops)
  }

  // ----- what holds of every sound queue, and so after every run -----

  /** `timers_` and `activeTimers_` hold exactly the same timers, keyed by their expirations. */
  lemma SameTimersInBothIndexes(q: Queue)
    requires Indexed(q)
    ensures |q.timers| == |q.active|
    ensures forall e :: e in q.timers ==>
              e.timer in q.heap && q.heap[e.timer].expiration == e.when
              && Handle(e.timer, q.heap[e.timer].sequence) in q.active
    ensures forall a :: a in q.active ==>
              a.timer in q.heap && q.heap[a.timer].sequence == a.sequence
              && Entry(q.heap[a.timer].expiration, a.timer) in q.timers
  {
    SameSize(q);
  }

  ghost function HandlesOf(heap: Heap, s: set<Entry>): set<Handle> {
    set e | e in s && e.timer in heap :: Handle(e.timer, heap[e.timer].sequence)
  }

  lemma {:induction false} HandlesCounted(heap: Heap, s: set<Entry>)
    requires forall e :: e in s ==> e.timer in heap && heap[e.timer].expiration == e.when
    ensures |HandlesOf(heap, s)| == |s|
    decreases |s|
  {
    if s == {} {
      assert HandlesOf(heap, s) == {};
    } else {
      var e := First(s);
      var rest := s - {e};
      HandlesCounted(heap, rest);
      assert HandlesOf(heap, s) == HandlesOf(heap, rest) + {Handle(e.timer, heap[e.timer].sequence)};
    }
  }

  lemma SameSize(q: Queue)
    requires Indexed(q)
    ensures |q.timers| == |q.active|
  {
    HandlesCounted(q.heap, q.timers);
    forall a | a in q.active
      ensures a in HandlesOf(q.heap, q.timers)
    {
      assert Entry(q.heap[a.timer].expiration, a.timer) in q.timers;
    }
    assert q.active == HandlesOf(q.heap, q.timers);
  }

  /** Every timer ever created is allocated, under its own number, or has been freed; never both. */
  lemma EachFreedOnce(q: Queue, n: int)
    requires Accounted(q) && 1 <= n <= q.created
    ensures n in q.h.freed <==> !exists p :: p in q.heap && q.heap[p].sequence == n
  {
    assert n in q.h.owner || n in q.h.freed;
    if n in q.h.owner {
      var p := q.h.owner[n];
      assert p in q.heap && q.heap[p].sequence == n;
    }
  }

  /** While timers are queued, the timerfd is set for the earliest of them or earlier, up to the floor. */
  lemma ArmedForEarliest(q: Queue)
    requires ArmedInTime(q) && !q.h.reading && q.timers != {}
    ensures q.armed.Some? && q.armed.value <= Max(First(q.timers).when, q.h.armedAt + 100)
  {
    var f := First(q.timers);
    assert f in q.timers;
  }

  /** A callback runs at most once after its timer has been cancelled, and then the timer is freed. */
  lemma CancelledRunsAtMostOnceMore(q: Queue, n: int)
    requires Indexed(q) && Accounted(q) && CancelKept(q) && q.h.batch == {}
    requires n in q.h.cancelled
    ensures n in q.h.freed
    ensures n in q.h.late ==> q.h.late[n] == 1
  {
    assert n in q.h.owner || n in q.h.freed;
    if n in q.h.owner {
      LiveNotCancelled(q, n);
    }
  }

  lemma LiveNotCancelled(q: Queue, n: int)
    requires Indexed(q) && Accounted(q) && CancelKept(q) && q.h.batch == {}
    requires n in q.h.owner
    ensures n !in q.h.cancelled
  {
    var p := q.h.owner[n];
    NoBatchPlaces(q);
    assert q.h.place[p] != InBatch;
    assert q.heap[p].sequence == n;
  }

  /** All of it, after every run that begins with an empty queue. */
  lemma EveryRunKeepsPromises(ops: seq<Op>)
    ensures var q := Reached(ops);
            && |q.timers| == |q.active|
            && (forall n :: 1 <= n <= q.created ==>
                  (n in q.h.freed <==> !exists p :: p in q.heap && q.heap[p].sequence == n))
            && (q.timers != {} ==>
                  q.armed.Some? && q.armed.value <= Max(First(q.timers).when, q.h.armedAt + 100))
            && (forall n :: n in q.h.cancelled ==> n in q.h.freed && (n in q.h.late ==> q.h.late[n] == 1))
  {
    var q := Reached(ops);
    SameTimersInBothIndexes(q);
    forall n | 1 <= n <= q.created
      ensures n in q.h.freed <==> !exists p :: p in q.heap && q.heap[p].sequence == n
    {
      EachFreedOnce(q, n);
    }
    if q.timers != {} {
      ArmedForEarliest(q);
    }
    forall n | n in q.h.cancelled
      ensures n in q.h.freed && (n in q.h.late ==> q.h.late[n] == 1)
    {
      CancelledRunsAtMostOnceMore(q, n);
    }
  }

  // ----- a freed timer never runs again -----

  /** History only grows. */
  ghost predicate Grown(q: Queue, r: Queue) {
    && q.h.freed <= r.h.freed
    && q.h.cancelled <= r.h.cancelled
    && q.h.runs <= r.h.runs
  }

  lemma GrownOn(a: Queue, b: Queue, c: Queue)
    requires Grown(a, b) && Grown(b, c)
    ensures Grown(a, c)
  {
  }

  lemma CallGrows(q: Queue, p: Address)
    ensures Grown(q, Call(q, p))
  {
  }

  lemma ActGrows(q: Queue, a: Action)
    ensures Grown(q, Act(q, a))
  {
  }

  lemma LastCallGrows(q: Queue, expired: seq<Entry>, script: seq<seq<Action>>, k: nat)
    requires 0 < k <= |expired|
    ensures Grown(Calls(q, expired, script, k - 1, Length(script, k - 1)), Calls(q, expired, script, k, 0))
  {
    CallGrows(Calls(q, expired, script, k - 1, Length(script, k - 1)), expired[k - 1].timer);
  }

  lemma LastActGrows(q: Queue, expired: seq<Entry>, script: seq<seq<Action>>, k: nat, j: nat)
    requires 0 < k <= |expired| && 0 < j <= Length(script, k)
    ensures Grown(Calls(q, expired, script, k, j - 1), Calls(q, expired, script, k, j))
  {
    ActGrows(Calls(q, expired, script, k, j - 1), Script(script, k - 1)[j - 1]);
  }

  /** From one point of the callbacks of a batch to a later one. */
  lemma {:induction false} CallsGrow(
      q: Queue, expired: seq<Entry>, script: seq<seq<Action>>, k: nat, j: nat, k': nat, j': nat)
    requires k <= k' <= |expired| && j <= Length(script, k) && j' <= Length(script, k')
    requires k == k' ==> j <= j'
    ensures Grown(Calls(q, expired, script, k, j), Calls(q, expired, script, k', j'))
    decreases k', j'
  {
    if k < k' || j < j' {
      var from, to := Calls(q, expired, script, k, j), Calls(q, expired, script, k', j');
      if j' == 0 {
        var m := Length(script, k' - 1);
        CallsGrow(q, expired, script, k, j, k' - 1, m);
        LastCallGrows(q, expired, script, k');
        GrownOn(from, Calls(q, expired, script, k' - 1, m), to);
      } else {
        CallsGrow(q, expired, script, k, j, k', j' - 1);
        LastActGrows(q, expired, script, k', j');
        GrownOn(from, Calls(q, expired, script, k', j' - 1), to);
      }
    }
  }

  lemma {:induction false} ResetGrows(q: Queue)
    requires Sound(q)
    ensures Grown(q, ResetBatch(q))
    decreases |q.h.batch|
  {
    if q.h.batch != {} {
      var e := First(q.h.batch);
      ResetOneKeeps(q, e);
      ResetOneBatch(q, e);
      ResetGrows(ResetOne(q, e));
    }
  }

  /** handleRead() after `k` callbacks, the last of which has performed `j` actions. */
  ghost function Amid(q: Queue, now: Time, fired: bool, script: seq<seq<Action>>, k: nat, j: nat): Queue
    requires Idle(q) && k <= |Listing(Due(q, now))| && j <= Length(script, k)
  {
    Calls(Take(q, now, fired), Listing(Due(q, now)), script, k, j)
  }

  /** What handleRead() does after the last callback. */
  lemma ReadEnds(q: Queue, now: Time, fired: bool, script: seq<seq<Action>>, clock: Time)
    requires Idle(q) && now > 0
    ensures var n := |Listing(Due(q, now))|;
            var called := Amid(q, now, fired, script, n, Length(script, n));
            && Good(called) && called.h.reading && called.h.now == now
            && Sound(called.(calling := false))
            && HandleReadIn(q, now, fired, script, clock) == Finish(ResetBatch(called.(calling := false)), clock)
  {
    var expired := Listing(Due(q, now));
    TakeKeeps(q, now, fired);
    TakeBatched(q, now, fired);
    CallsKeep(Take(q, now, fired), expired, script, |expired|, Length(script, |expired|));
    StopCalling(Amid(q, now, fired, script, |expired|, Length(script, |expired|)));
  }

  lemma EndGrows(called: Queue, clock: Time)
    requires Sound(called.(calling := false))
    ensures Grown(called, Finish(ResetBatch(called.(calling := false)), clock))
  {
    ResetGrows(called.(calling := false));
  }

  lemma ReadGrows(q: Queue, now: Time, fired: bool, script: seq<seq<Action>>, clock: Time, k: nat, j: nat)
    requires Idle(q) && now > 0 && k <= |Listing(Due(q, now))| && j <= Length(script, k)
    ensures Grown(Amid(q, now, fired, script, k, j), HandleReadIn(q, now, fired, script, clock))
  {
    var n := |Listing(Due(q, now))|;
    var m := Length(script, n);
    var called := Amid(q, now, fired, script, n, m);
    CallsGrow(Take(q, now, fired), Listing(Due(q, now)), script, k, j, n, m);
    ReadEnds(q, now, fired, script, clock);
    EndGrows(called, clock);
    GrownOn(Amid(q, now, fired, script, k, j), called, HandleReadIn(q, now, fired, script, clock));
  }

  lemma HandleReadGrows(q: Queue, now: Time, fired: bool, script: seq<seq<Action>>, clock: Time)
    requires Idle(q) && now > 0
    ensures Grown(q, HandleReadIn(q, now, fired, script, clock))
  {
    ReadGrows(q, now, fired, script, clock, 0, 0);
  }

  lemma FreedNotCalled(q: Queue, op: Op, n: int)
    requires Idle(q) && Enabled(q, op) && n in q.h.freed
    ensures n in Apply(q, op).h.freed
    ensures q.h.runs <= Apply(q, op).h.runs && n !in Apply(q, op).h.runs[|q.h.runs|..]
  {
    match op {
      case HandleRead(now, fired, script, clock) =>
        HandleReadGrows(q, now, fired, script, clock);
        HandleReadCallsDue(q, now, fired, script, clock);
        var numbers := NumbersOf(q.heap, Listing(Due(q, now)), |Listing(Due(q, now))|);
        assert Apply(q, op).h.runs[|q.h.runs|..] == numbers;
        assert n !in numbers;
      case _ =>
    }
  }

  lemma RunsSplit(x: seq<int>, y: seq<int>, z: seq<int>, n: int)
    requires x <= y <= z && n !in y[|x|..] && n !in z[|y|..]
    ensures x <= z && n !in z[|x|..]
  {
    assert z[|x|..] == y[|x|..] + z[|y|..];
  }

  /** Once freed, and so once cancelled outside a batch, a timer is never called back again. */
  lemma {:induction false} FreedNeverRuns(q: Queue, ops: seq<Op>, n: int)
    requires Idle(q) && n in q.h.freed
    ensures var r := After(q, ops);
            n in r.h.freed && q.h.runs <= r.h.runs && n !in r.h.runs[|q.h.runs|..]
  {
    if ops != [] {
      var front, op := ops[..|ops| - 1], ops[|ops| - 1];
      FreedNeverRuns(q, front, n);
      EveryRunIsSound(q, front);
      var r := After(q, front);
      if Enabled(r, op) {
        FreedNotCalled(r, op, n);
        RunsSplit(q.h.runs, r.h.runs, Apply(r, op).h.runs, n);
      }
    }
  }

  /** Cancelling a queued timer is final, whatever happens later and whoever gets its address. */
  lemma CancelIsFinal(q: Queue, id: Handle, ops: seq<Op>)
    requires Idle(q) && id in q.active
    ensures var c := CancelIn(q, id);
            var r := After(c, ops);
            && c.h.runs == q.h.runs && q.h.runs <= r.h.runs
            && id.sequence in r.h.freed && id.sequence !in r.h.runs[|q.h.runs|..]
  {
    CancelKeeps(q, id);
    FreedNeverRuns(CancelIn(q, id), ops, id.sequence);
  }

  // ----- cancelling from a callback -----

  /** cancelInLoop() will accept `id`: its timer is queued, or in the batch whose callbacks are being called. */
  ghost predicate Accepts(q: Queue, id: Handle) {
    id in q.active || (q.calling && InCurrentBatch(q, id))
  }

  lemma AcceptedTimer(q: Queue, id: Handle)
    requires Good(q) && Accepts(q, id)
    ensures id.timer in q.heap && q.heap[id.timer].sequence == id.sequence
    ensures id.sequence in CancelIn(q, id).h.cancelled
  {
  }

  /** Where handleRead() stands: a sound queue, the first `k` timers of the batch called and no others. */
  lemma AmidIsSound(q: Queue, now: Time, fired: bool, script: seq<seq<Action>>, k: nat, j: nat)
    requires Idle(q) && now > 0 && k <= |Listing(Due(q, now))| && j <= Length(script, k)
    ensures var expired, mid := Listing(Due(q, now)), Amid(q, now, fired, script, k, j);
            && Good(mid) && Batched(mid, expired, k)
            && SameTimers(q.heap, mid.heap, expired)
            && mid.h.runs == q.h.runs + NumbersOf(q.heap, expired, k)
  {
    TakeKeeps(q, now, fired);
    TakeBatched(q, now, fired);
    CallsKeep(Take(q, now, fired), Listing(Due(q, now)), script, k, j);
    CalledInOrder(Take(q, now, fired), Listing(Due(q, now)), script, k, j);
  }

  /** The callbacks still to come after `k` of them. */
  lemma ComingRuns(q: Queue, now: Time, fired: bool, script: seq<seq<Action>>, clock: Time, k: nat, j: nat)
    requires Idle(q) && now > 0 && k <= |Listing(Due(q, now))| && j <= Length(script, k)
    ensures var expired, mid := Listing(Due(q, now)), Amid(q, now, fired, script, k, j);
            var read := HandleReadIn(q, now, fired, script, clock);
            && SameTimers(q.heap, q.heap, expired)
            && mid.h.runs <= read.h.runs
            && read.h.runs[|mid.h.runs|..] == NumbersOf(q.heap, expired, |expired|)[k..]
  {
    AmidIsSound(q, now, fired, script, k, j);
    HandleReadCallsDue(q, now, fired, script, clock);
    ComingNumbers(q.heap, Listing(Due(q, now)), k, q.h.runs);
  }

  lemma ComingNumbers(heap: Heap, expired: seq<Entry>, k: nat, runs: seq<int>)
    requires SameTimers(heap, heap, expired) && k <= |expired|
    ensures var a, b := NumbersOf(heap, expired, k), NumbersOf(heap, expired, |expired|);
            runs + a <= runs + b && (runs + b)[|runs + a|..] == b[k..]
  {
    var a, b := NumbersOf(heap, expired, k), NumbersOf(heap, expired, |expired|);
    assert b == a + b[k..];
    Assoc(runs, a, b[k..]);
  }

  /** The batch entry number `i` is the timer of `id`. */
  ghost predicate Names(expired: seq<Entry>, i: nat, id: Handle)
    requires i < |expired|
  {
    expired[i].timer == id.timer
  }

  /** Some callback still to come after `k` of them is that of `id`. */
  ghost predicate StillToCome(expired: seq<Entry>, k: nat, id: Handle) {
    exists i: nat :: k <= i < |expired| && Names(expired, i, id)
  }

  lemma NumberStillToCome(q: Queue, mid: Queue, expired: seq<Entry>, k: nat, id: Handle)
    requires Good(mid) && Accepts(mid, id) && Batched(mid, expired, k) && k <= |expired|
    requires SameTimers(q.heap, mid.heap, expired)
    ensures id.sequence in NumbersOf(q.heap, expired, |expired|)[k..] <==> StillToCome(expired, k, id)
    ensures id in mid.active ==> !StillToCome(expired, k, id)
  {
    AcceptedTimer(mid, id);
    var numbers := NumbersOf(q.heap, expired, |expired|);
    if id.sequence in numbers[k..] {
      var i: nat :| k <= i < |expired| && numbers[i] == id.sequence;
      assert mid.heap[expired[i].timer].sequence == id.sequence;
      assert Names(expired, i, id);
    }
    if StillToCome(expired, k, id) {
      var i: nat :| k <= i < |expired| && Names(expired, i, id);
      assert numbers[k..][i - k] == id.sequence;
      assert expired[i] in mid.h.batch;
    }
  }

  /** A cancel accepted inside a callback has freed the timer when handleRead() is over. */
  lemma CancelledInRead(
      q: Queue, now: Time, fired: bool, script: seq<seq<Action>>, clock: Time, k: nat, j: nat, id: Handle)
    requires Idle(q) && now > 0 && 1 <= k <= |Listing(Due(q, now))| && j < |Script(script, k - 1)|
    requires Script(script, k - 1)[j] == Cancel(id) && Accepts(Amid(q, now, fired, script, k, j), id)
    ensures id.sequence in HandleReadIn(q, now, fired, script, clock).h.freed
  {
    CancelNoted(q, now, fired, script, k, j, id, Amid(q, now, fired, script, k, j));
    ReadGrows(q, now, fired, script, clock, k, j + 1);
    CancelledRunsAtMostOnceMore(HandleReadIn(q, now, fired, script, clock), id.sequence);
  }

  lemma CancelNoted(
      q: Queue, now: Time, fired: bool, script: seq<seq<Action>>, k: nat, j: nat, id: Handle, mid: Queue)
    requires Idle(q) && now > 0 && 1 <= k <= |Listing(Due(q, now))| && j < |Script(script, k - 1)|
    requires Script(script, k - 1)[j] == Cancel(id)
    requires mid == Amid(q, now, fired, script, k, j) && Accepts(mid, id)
    ensures id.sequence in Amid(q, now, fired, script, k, j + 1).h.cancelled
  {
    AmidIsGood(q, now, fired, script, k, j, mid);
    AcceptedTimer(mid, id);
    NextActAmid(q, now, fired, script, k, j, mid);
  }

  lemma AmidIsGood(q: Queue, now: Time, fired: bool, script: seq<seq<Action>>, k: nat, j: nat, mid: Queue)
    requires Idle(q) && now > 0 && k <= |Listing(Due(q, now))| && j <= Length(script, k)
    requires mid == Amid(q, now, fired, script, k, j)
    ensures Good(mid)
  {
    AmidIsSound(q, now, fired, script, k, j);
  }

  lemma NextActAmid(q: Queue, now: Time, fired: bool, script: seq<seq<Action>>, k: nat, j: nat, mid: Queue)
    requires Idle(q) && now > 0 && 1 <= k <= |Listing(Due(q, now))| && j < |Script(script, k - 1)|
    requires mid == Amid(q, now, fired, script, k, j)
    ensures Amid(q, now, fired, script, k, j + 1) == Act(mid, Script(script, k - 1)[j])
  {
  }

  lemma RunsAfter(a: seq<int>, b: seq<int>, c: seq<int>, n: int)
    requires a <= b <= c && n !in c[|b|..]
    ensures n in c[|a|..] <==> n in b[|a|..]
  {
    assert c[|a|..] == b[|a|..] + c[|b|..];
  }

  lemma CancelInRead(
      q: Queue, now: Time, fired: bool, script: seq<seq<Action>>, clock: Time, k: nat, j: nat, id: Handle,
      later: seq<Op>)
    requires Idle(q) && now > 0 && 1 <= k <= |Listing(Due(q, now))| && j < |Script(script, k - 1)|
    requires Script(script, k - 1)[j] == Cancel(id) && Accepts(Amid(q, now, fired, script, k, j), id)
    ensures var mid, read := Amid(q, now, fired, script, k, j), HandleReadIn(q, now, fired, script, clock);
            var end := After(read, later);
            && mid.h.runs <= read.h.runs <= end.h.runs
            && (id.sequence in end.h.runs[|mid.h.runs|..] <==> StillToCome(Listing(Due(q, now)), k, id))
            && (id in mid.active ==> !StillToCome(Listing(Due(q, now)), k, id))
            && id.sequence !in end.h.runs[|read.h.runs|..]
  {
    var mid, read := Amid(q, now, fired, script, k, j), HandleReadIn(q, now, fired, script, clock);
    AmidIsSound(q, now, fired, script, k, j);
    ComingRuns(q, now, fired, script, clock, k, j);
    NumberStillToCome(q, mid, Listing(Due(q, now)), k, id);
    CancelledInRead(q, now, fired, script, clock, k, j, id);
    FreedNeverRuns(read, later, id.sequence);
    RunsAfter(mid.h.runs, read.h.runs, After(read, later).h.runs, id.sequence);
  }

  /**
    Cancelling from a callback, in any run.  Of what is called back from then on, for
    ever, the cancelled timer is one exactly when its own callback was still to come in
    the batch under way; a queued timer is never called back again.
   */
  lemma CancelInCallback(
      before: seq<Op>, now: Time, fired: bool, script: seq<seq<Action>>, clock: Time, k: nat, j: nat, id: Handle,
      later: seq<Op>)
    requires var q := Reached(before);
             && now > 0 && 1 <= k <= |Listing(Due(q, now))| && j < |Script(script, k - 1)|
             && Script(script, k - 1)[j] == Cancel(id) && Accepts(Amid(q, now, fired, script, k, j), id)
    ensures var q := Reached(before);
            var expired, mid := Listing(Due(q, now)), Amid(q, now, fired, script, k, j);
            var read := HandleReadIn(q, now, fired, script, clock);
            var end := After(read, later);
            && mid.h.runs <= read.h.runs <= end.h.runs
            && (id.sequence in end.h.runs[|mid.h.runs|..] <==> StillToCome(expired, k, id))
            && (id in mid.active ==> id.sequence !in end.h.runs[|mid.h.runs|..])
            && id.sequence !in end.h.runs[|read.h.runs|..]
  {
    CancelInRead(Reached(before), now, fired, script, clock, k, j, id, later);
  }
}
