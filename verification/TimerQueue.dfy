/**
  The class of muduo-vip/muduo/net/TimerQueue.cc, field by field and loop by loop.
  Each method is proved to carry out the operation of module Timers on the value
  of the object; the assertions of the source appear as `assert`.
 */
module TimerQueue {
  import opened Options
  import opened Timers
  import opened TimerRuns

  class TimerQueue {
    var timers: set<Entry>
    var activeTimers: set<Handle>
    var cancelingTimers: set<Handle>
    var callingExpiredTimers: bool
    /** The timerfd. */
    var armed: Option<Time>
    /** The free store, and Timer::s_numCreated_. */
    var heap: Heap
    var numCreated: nat
    ghost var h: History

    ghost function Value(): Queue
      reads this
    {
      Queue(timers, activeTimers, cancelingTimers, callingExpiredTimers, armed, heap, numCreated, h)
    }

    constructor ()
      ensures Value() == EMPTY
    {
      timers, activeTimers, cancelingTimers, callingExpiredTimers := {}, {}, {}, false;
      armed, heap, numCreated := None, map[], 0;
      h := EMPTY.h;
    }

    /** addTimer() up to its runInLoop(): allocate a timer. */
    method Create(when: Time, repeat: bool, interval: nat, address: Address) returns (id: Handle)
      requires address !in heap
      modifies this
      ensures Value() == CreateIn(old(Value()), when, repeat, interval, address)
      ensures id == Handle(address, numCreated)
    {
      ghost var q := Value();
      numCreated := numCreated + 1;
      heap := heap[address := Timer(when, repeat, interval, numCreated)];
      id := Handle(address, numCreated);
      h := CreateIn(q, when, repeat, interval, address).h;
    }

    method ResetTimerfd(expiration: Time, clock: Time)
      modifies this
      ensures Value() == SetFd(old(Value()), expiration, clock)
    {
      ghost var q := Value();
      var microseconds := expiration - clock;
      if microseconds < 100 {
        microseconds := 100;
      }
      armed := Some(clock + microseconds);
      h := SetFd(q, expiration, clock).h;
    }

    /** timers_.begin() */
    method Begin() returns (e: Entry)
      requires timers != {}
      ensures IsFirst(e, timers)
    {
      ghost var first := HasFirst(timers);
      e :| e in timers && forall x :: x in timers && x != e ==> Before(e, x);
    }

    method WouldBeEarliest(when: Time) returns (earliest: bool)
      ensures earliest == EarlierThanAll(when, timers)
    {
      earliest := false;
      if timers == {} {
        earliest := true;
      } else {
        var first := Begin();
        if when < first.when {
          earliest := true;
        }
      }
    }

    method Insert(address: Address) returns (earliestChanged: bool)
      requires Indexed(Value()) && address in heap && h.place[address] == Adding
      modifies this
      ensures Value() == InsertIn(old(Value()), address)
      ensures earliestChanged == EarlierThanAll(heap[address].expiration, old(timers))
    {
      ghost var q := Value();
      SameSize(q);
      assert |timers| == |activeTimers|;
      var when := heap[address].expiration;
      earliestChanged := WouldBeEarliest(when);
      assert Entry(when, address) !in timers;
      timers := timers + {Entry(when, address)};
      assert Handle(address, heap[address].sequence) !in activeTimers;
      activeTimers := activeTimers + {Handle(address, heap[address].sequence)};
      h := InsertIn(q, address).h;
      InsertIndexed(q, address);
      SameSize(Value());
      assert |timers| == |activeTimers|;
    }

    method AddTimerInLoop(address: Address, clock: Time)
      requires Indexed(Value()) && address in heap && h.place[address] == Adding
      modifies this
      ensures Value() == AddIn(old(Value()), address, clock)
    {
      var earliestChanged := Insert(address);
      if earliestChanged {
        ResetTimerfd(heap[address].expiration, clock);
      }
    }

    method CancelInLoop(id: Handle)
      requires Indexed(Value())
      modifies this
      ensures Value() == CancelIn(old(Value()), id)
    {
      ghost var q := Value();
      SameSize(q);
      assert |timers| == |activeTimers|;
      if id in activeTimers {
        var key := Entry(heap[id.timer].expiration, id.timer);
        assert key in timers;
        timers := timers - {key};
        heap := heap - {id.timer};
        activeTimers := activeTimers - {id};
      } else if callingExpiredTimers {
        cancelingTimers := cancelingTimers + {id};
      }
      h := CancelIn(q, id).h;
      CancelIndexed(q, id);
      SameSize(Value());
      assert |timers| == |activeTimers|;
    }

    /** Move out all timers due at `now`. */
    method GetExpired(now: Time) returns (expired: seq<Entry>)
      requires Indexed(Value())
      modifies this`timers, this`activeTimers
      ensures expired == Listing(Due(old(Value()), now))
      ensures timers == old(timers) - Due(old(Value()), now)
      ensures activeTimers == LeftActive(old(Value()), Due(old(Value()), now))
    {
      ghost var q := Value();
      ghost var due := Due(q, now);
      SameSize(q);
      assert |timers| == |activeTimers|;
      expired := TakeDue(now);
      assert timers == q.timers - due;
      ListingAscends(due);
      for k := 0 to |expired|
        invariant timers == q.timers - due
        invariant activeTimers == LeftActive(q, set i | 0 <= i < k :: expired[i])
      {
        assert expired[k] in due;
        var timer := Handle(expired[k].timer, heap[expired[k].timer].sequence);
        assert forall i :: 0 <= i < k ==> Before(expired[i], expired[k]);
        EraseActive(q, expired, k);
        assert timer in activeTimers;
        activeTimers := activeTimers - {timer};
      }
      assert due == set i | 0 <= i < |expired| :: expired[i];
    }

    /** Copy the range from begin() to lower_bound(sentry), and erase it. */
    method TakeDue(now: Time) returns (expired: seq<Entry>)
      modifies this`timers
      ensures expired == Listing(set e | e in old(timers) && e.when <= now)
      ensures timers == set e | e in old(timers) && e.when > now
    {
      ghost var all := timers;
      ghost var due := set e | e in timers && e.when <= now;
      expired := [];
      assert timers * due == due;
      while timers != {}
        invariant timers <= all
        invariant all - timers <= due
        invariant expired + Listing(timers * due) == Listing(due)
        decreases |timers|
      {
        var e := Begin();
        if now < e.when {
          assert forall x :: x in timers ==> x == e || Before(e, x);
          assert timers * due == {};
          return;
        }
        FirstOfDue(e, timers, due);
        expired := expired + [e];
        timers := timers - {e};
      }
    }

    method DoAction(a: Action)
      requires Good(Value())
      modifies this
      ensures Value() == Act(old(Value()), a)
    {
      match a {
        case Add(when, repeat, interval, address, clock) =>
          if address !in heap {
            ghost var q := Value();
            var id := Create(when, repeat, interval, address);
            CreateIndexed(q, when, repeat, interval, address);
            AddTimerInLoop(address, clock);
          }
        case Cancel(id) =>
          CancelInLoop(id);
      }
    }

    /** Restart the repeating timers of the batch that nobody cancelled, delete the others, set the timerfd. */
    method Reset(expired: seq<Entry>, now: Time, clock: Time)
      requires Sound(Value()) && h.now == now
      requires expired == Listing(h.batch)
      modifies this
      ensures Value() == Finish(ResetBatch(old(Value())), clock)
    {
      ghost var q := Value();
      for k := 0 to |expired|
        invariant Resetting(q, Value(), expired[k..], now)
      {
        ResetNext(q, expired, k, now);
      }
      Rearm(clock);
    }

    method ResetNext(ghost q: Queue, expired: seq<Entry>, k: nat, now: Time)
      requires k < |expired| && Resetting(q, Value(), expired[k..], now)
      modifies this
      ensures Resetting(q, Value(), expired[k + 1..], now)
    {
      ResettingStep(q, Value(), expired[k..], now);
      assert expired[k..][1..] == expired[k + 1..];
      ResetExpired(expired[k], now);
    }

    method ResetExpired(e: Entry, now: Time)
      requires Indexed(Value()) && h.now == now && e in h.batch
      modifies this
      ensures Value() == ResetOne(old(Value()), e)
    {
      ghost var q := Value();
      var timer := Handle(e.timer, heap[e.timer].sequence);
      if heap[e.timer].repeat && timer !in cancelingTimers {
        heap := heap[e.timer := heap[e.timer].(expiration := now + heap[e.timer].interval)];
        h := Release(q, e).h;
        RestartIndexed(q, e);
        var ignored := Insert(e.timer);
      } else {
        heap := heap - {e.timer};
        h := ResetOne(q, e).h;
      }
    }

    method Rearm(clock: Time)
      modifies this
      ensures Value() == Finish(old(Value()), clock)
    {
      ghost var q := Value();
      h := h.(reading := false);
      if timers != {} {
        var first := Begin();
        ghost var f := First(timers);
        assert first == f;
        if first.when > 0 {
          ResetTimerfd(first.when, clock);
        }
      }
    }

    /** The timerfd is readable: call back the timers due, each with everything its callback does, and reset. */
    method HandleRead(now: Time, fired: bool, script: seq<seq<Action>>, clock: Time)
      requires Idle(Value()) && now > 0
      modifies this
      ensures Value() == HandleReadIn(old(Value()), now, fired, script, clock)
    {
      ghost var q := Value();
      var expired := BeginRead(now, fired);
      CallsSound(q, now, fired, script);
      RunCallbacks(expired, script);
      callingExpiredTimers := false;
      Reset(expired, now, clock);
    }

    /** Read the timerfd and move out the expired timers. */
    method BeginRead(now: Time, fired: bool) returns (expired: seq<Entry>)
      requires Indexed(Value())
      modifies this
      ensures expired == Listing(Due(old(Value()), now))
      ensures Value() == Take(old(Value()), now, fired)
    {
      ghost var q := Value();
      if fired {
        armed := None;
      }
      expired := GetExpired(now);
      callingExpiredTimers := true;
      cancelingTimers := {};
      h := Take(q, now, fired).h;
      TakenValue(q, now, fired, activeTimers);
    }

    method RunCallbacks(expired: seq<Entry>, script: seq<seq<Action>>)
      requires Good(Value()) && Batched(Value(), expired, 0) && Distinct(expired)
      modifies this
      ensures Value() == Calls(old(Value()), expired, script, |expired|, Length(script, |expired|))
    {
      ghost var taken := Value();
      for k := 0 to |expired|
        invariant Value() == Calls(taken, expired, script, k, Length(script, k))
      {
        RunCallback(expired, k, script, taken);
      }
    }

    /** it.second->run() */
    method RunCallback(expired: seq<Entry>, k: nat, script: seq<seq<Action>>, ghost taken: Queue)
      requires Good(taken) && Batched(taken, expired, 0) && Distinct(expired) && k < |expired|
      requires Value() == Calls(taken, expired, script, k, Length(script, k))
      modifies this
      ensures Value() == Calls(taken, expired, script, k + 1, Length(script, k + 1))
    {
      var actions := Script(script, k);
      h := Call(Value(), expired[k].timer).h;
      for j := 0 to |actions|
        invariant Value() == Calls(taken, expired, script, k + 1, j)
      {
        CallsKeep(taken, expired, script, k + 1, j);
        DoAction(actions[j]);
      }
    }
  }

  /** What is left of `activeTimers_` once the entries of `gone` are out. */
  ghost function LeftActive(q: Queue, gone: set<Entry>): set<Handle> {
    set a | a in q.active && (a.timer in q.heap ==> Entry(q.heap[a.timer].expiration, a.timer) !in gone)
  }

  lemma EraseActive(q: Queue, expired: seq<Entry>, k: nat)
    requires Indexed(q) && k < |expired| && expired[k] in q.timers
    requires forall i :: 0 <= i < k ==> expired[i] != expired[k]
    ensures var timer := Handle(expired[k].timer, q.heap[expired[k].timer].sequence);
            var gone := set i | 0 <= i < k :: expired[i];
            && timer in LeftActive(q, gone)
            && LeftActive(q, set i | 0 <= i < k + 1 :: expired[i]) == LeftActive(q, gone) - {timer}
  {
    assert (set i | 0 <= i < k + 1 :: expired[i]) == (set i | 0 <= i < k :: expired[i]) + {expired[k]};
  }

  /** What holds after the callbacks of a batch. */
  lemma CallsSound(q: Queue, now: Time, fired: bool, script: seq<seq<Action>>)
    requires Idle(q) && now > 0
    ensures var expired, taken := Listing(Due(q, now)), Take(q, now, fired);
            var called := Calls(taken, expired, script, |expired|, Length(script, |expired|));
            && Good(taken) && Batched(taken, expired, 0) && Distinct(expired)
            && Sound(called.(calling := false)) && called.h.now == now && called.h.batch == Due(q, now)
  {
    var expired, taken := Listing(Due(q, now)), Take(q, now, fired);
    TakeKeeps(q, now, fired);
    TakeBatched(q, now, fired);
    CallsKeep(taken, expired, script, |expired|, Length(script, |expired|));
    StopCalling(Calls(taken, expired, script, |expired|, Length(script, |expired|)));
  }

  lemma TakenValue(q: Queue, now: Time, fired: bool, active: set<Handle>)
    requires Indexed(q) && active == LeftActive(q, Due(q, now))
    ensures Take(q, now, fired).active == active
  {
  }

  /** From `q` to `r` reset() has seen to all of the batch but `rest`. */
  ghost predicate Resetting(q: Queue, r: Queue, rest: seq<Entry>, now: Time) {
    && Sound(q) && Sound(r) && r.h.now == now
    && rest == Listing(r.h.batch)
    && ResetBatch(r) == ResetBatch(q)
  }

  lemma ResettingStep(q: Queue, r: Queue, rest: seq<Entry>, now: Time)
    requires Resetting(q, r, rest, now) && rest != []
    ensures rest[0] in r.h.batch && Resetting(q, ResetOne(r, rest[0]), rest[1..], now)
  {
    var e := First(r.h.batch);
    ResetOneKeeps(r, e);
    ResetOneBatch(r, e);
  }

  lemma RestartIndexed(q: Queue, e: Entry)
    requires Indexed(q) && e in q.h.batch
    ensures Indexed(Restart(Release(q, e), e.timer))
  {
  }

  lemma FirstOfDue(e: Entry, all: set<Entry>, due: set<Entry>)
    requires IsFirst(e, all) && e in due
    ensures Listing(all * due) == [e] + Listing((all - {e}) * due)
  {
    var f := First(all * due);
    assert e in all * due;
    assert f == e;
    assert all * due - {e} == (all - {e}) * due;
  }
}
