/**
  The timer queue of muduo-vip/muduo/net/TimerQueue.cc: two indexes over the same
  timers, timers allocated and freed by hand, a cancel protocol for callbacks that
  cancel timers of their own batch, and a one-shot timerfd.

  `heap` is the part of the free store that holds timers; reading a timer is looking
  it up there, `delete` removes it, and an address may be handed out again later.
  Clock readings and addresses are parameters, and a callback is the list of
  operations it performs, so that every statement is about all of them.

  This module defines the operations on values and what they keep; module
  TimerQueue holds the class, proved to carry them out.
 */
module Timers {
  import opened Options

  type Time = int       // microseconds since the epoch
  type Address = int

  datatype Timer = Timer(expiration: Time, repeat: bool, interval: nat, sequence: int)

  /** An element of `timers_`, ordered by time, then by address. */
  datatype Entry = Entry(when: Time, timer: Address)

  /** An element of `activeTimers_` and `cancelingTimers_`; also what a `TimerId` holds. */
  datatype Handle = Handle(timer: Address, sequence: int)

  /** Where an allocated timer is: not yet added, in the indexes, or in the hands of handleRead(). */
  datatype Place = Adding | Queued | InBatch

  type Heap = map<Address, Timer>
  type Places = map<Address, Place>

  /** What the source does not store. */
  datatype History = History(
    place: Places,
    owner: map<int, Address>,   // which allocated timer has a sequence number
    freed: set<int>,            // the sequence numbers of deleted timers
    runs: seq<int>,             // the callbacks run, in order
    cancelled: set<int>,        // the timers whose cancellation has been accepted
    late: map<int, int>,        // how often a callback has run after that
    reading: bool,              // handleRead() is under way,
    now: Time,                  // at this time,
    batch: set<Entry>,          // with these entries to see to,
    done: set<Address>,         // and has called back these
    armedAt: Time)              // the clock when the timerfd was last set

  datatype Queue = Queue(
    timers: set<Entry>,
    active: set<Handle>,
    canceling: set<Handle>,
    calling: bool,
    armed: Option<Time>,        // when the timerfd will fire
    heap: Heap,
    created: nat,
    h: History)

  const EMPTY: Queue :=
    Queue({}, {}, {}, false, None, map[], 0, History(map[], map[], {}, [], {}, map[], false, 0, {}, {}, 0))

  /** What a timer callback may do to the queue. */
  datatype Action =
    | Add(when: Time, repeat: bool, interval: nat, address: Address, clock: Time)
    | Cancel(id: Handle)

  // ----- the order of entries -----

  function Max(a: int, b: int): int { if a < b then b else a }

  predicate Before(a: Entry, b: Entry) {
    a.when < b.when || (a.when == b.when && a.timer < b.timer)
  }

  ghost predicate IsFirst(e: Entry, s: set<Entry>) {
    e in s && forall x :: x in s && x != e ==> Before(e, x)
  }

  /** A non-empty set of entries has a first one. */
  lemma HasFirst(s: set<Entry>) returns (e: Entry)
    requires s != {}
    ensures IsFirst(e, s)
    decreases |s|
  {
    e :| e in s;
    if s != {e} {
      assert s - {e} != {};
      var f := HasFirst(s - {e});
      var first := if Before(e, f) then e else f;
      forall x | x in s && x != first
        ensures Before(first, x)
      {
        assert x == e || x in s - {e};
      }
      e := first;
    }
  }

  ghost function First(s: set<Entry>): (e: Entry)
    requires s != {}
    ensures IsFirst(e, s)
  {
    assert exists e :: IsFirst(e, s) by {
      var e := HasFirst(s);
    }
    var e :| IsFirst(e, s);
    e
  }

  /** The entries of `s` in order. */
  ghost function Listing(s: set<Entry>): seq<Entry>
    decreases |s|
  {
    if s == {} then [] else
      var e := First(s);
      [e] + Listing(s - {e})
  }

  lemma {:induction false} ListingElements(s: set<Entry>)
    ensures forall e :: e in Listing(s) <==> e in s
    decreases |s|
  {
    if s != {} {
      var e := First(s);
      ListingElements(s - {e});
      assert s == {e} + (s - {e});
    }
  }

  /** A listing holds exactly the entries of the set, in strictly ascending order. */
  lemma {:induction false} ListingAscends(s: set<Entry>)
    ensures forall e :: e in Listing(s) <==> e in s
    ensures forall i, j :: 0 <= i < j < |Listing(s)| ==> Before(Listing(s)[i], Listing(s)[j])
    decreases |s|
  {
    ListingElements(s);
    if s != {} {
      var e, rest := First(s), Listing(s - {First(s)});
      ListingAscends(s - {e});
      forall i, j | 0 <= i < j < |Listing(s)|
        ensures Before(Listing(s)[i], Listing(s)[j])
      {
        var x := rest[j - 1];
        assert x in rest;
        assert Listing(s)[j] == x && x in s && x != e;
        if i > 0 {
          assert Listing(s)[i] == rest[i - 1];
        }
      }
    }
  }

  // ----- the operations -----

  ghost function CreateIn(q: Queue, when: Time, repeat: bool, interval: nat, p: Address): Queue {
    var n := q.created + 1;
    q.(created := n, heap := q.heap[p := Timer(when, repeat, interval, n)],
       h := q.h.(place := q.h.place[p := Adding], owner := q.h.owner[n := p]))
  }

  ghost function InsertIn(q: Queue, p: Address): Queue
    requires p in q.heap
  {
    q.(timers := q.timers + {Entry(q.heap[p].expiration, p)},
       active := q.active + {Handle(p, q.heap[p].sequence)},
       h := q.h.(place := q.h.place[p := Queued]))
  }

  ghost predicate EarlierThanAll(t: Time, s: set<Entry>) {
    forall e :: e in s ==> t < e.when
  }

  ghost function SetFd(q: Queue, expiration: Time, clock: Time): Queue {
    q.(armed := Some(Max(expiration, clock + 100)), h := q.h.(armedAt := clock))
  }

  ghost function AddIn(q: Queue, p: Address, clock: Time): Queue
    requires p in q.heap
  {
    var t := q.heap[p].expiration;
    if EarlierThanAll(t, q.timers) then SetFd(InsertIn(q, p), t, clock) else InsertIn(q, p)
  }

  ghost function DeleteIn(q: Queue, p: Address): Queue
    requires p in q.heap
  {
    var n := q.heap[p].sequence;
    q.(heap := q.heap - {p},
       h := q.h.(place := q.h.place - {p}, owner := q.h.owner - {n}, freed := q.h.freed + {n}))
  }

  ghost predicate InCurrentBatch(q: Queue, id: Handle) {
    && id.timer in q.heap && id.timer in q.h.place
    && q.h.place[id.timer] == InBatch && q.heap[id.timer].sequence == id.sequence
  }

  ghost function CancelIn(q: Queue, id: Handle): Queue {
    if id in q.active && id.timer in q.heap then
      var q' := DeleteIn(q, id.timer);
      q'.(timers := q.timers - {Entry(q.heap[id.timer].expiration, id.timer)},
          active := q.active - {id},
          h := q'.h.(cancelled := q.h.cancelled + {id.sequence}))
    else if q.calling then
      q.(canceling := q.canceling + {id},
         h := q.h.(cancelled := if InCurrentBatch(q, id) then q.h.cancelled + {id.sequence} else q.h.cancelled))
    else q
  }

  // ----- what every operation keeps -----

  /** The two indexes hold the same timers, the queued ones, and every key is its timer's expiration. */
  ghost predicate Indexed(q: Queue) {
    && q.h.place.Keys == q.heap.Keys
    && (forall e :: e in q.timers <==>
          e.timer in q.heap && q.h.place[e.timer] == Queued && q.heap[e.timer].expiration == e.when)
    && (forall a :: a in q.active <==>
          a.timer in q.heap && q.h.place[a.timer] == Queued && q.heap[a.timer].sequence == a.sequence)
    && (forall e :: e in q.h.batch <==>
          e.timer in q.heap && q.h.place[e.timer] == InBatch && q.heap[e.timer].expiration == e.when)
  }

  /** Every number ever given out belongs to one allocated timer or has been freed, never both. */
  ghost predicate Accounted(q: Queue) {
    && (forall p :: p in q.heap ==> q.heap[p].sequence in q.h.owner && q.h.owner[q.heap[p].sequence] == p)
    && (forall n :: n in q.h.owner ==>
          q.h.owner[n] in q.heap && q.heap[q.h.owner[n]].sequence == n && n !in q.h.freed)
    && (forall n :: n in q.h.owner || n in q.h.freed <==> 1 <= n <= q.created)
  }

  /**
    A cancelled timer is freed, or is in the batch and marked not to be restarted; its
    callback has run at most once since, and then in this very batch.
   */
  ghost predicate CancelKept(q: Queue) {
    && q.h.place.Keys == q.heap.Keys
    && (forall p :: p in q.heap && q.heap[p].sequence in q.h.cancelled ==>
          q.h.place[p] == InBatch && Handle(p, q.heap[p].sequence) in q.canceling)
    && (forall p :: p in q.heap && q.heap[p].sequence in q.h.late ==> p in q.h.done)
    && (forall n :: n in q.h.cancelled ==> 1 <= n <= q.created)
    && (forall n :: n in q.h.late ==> n in q.h.cancelled && q.h.late[n] == 1)
  }

  /** The timerfd fires no later than the earliest timer, up to the 100 microsecond floor. */
  ghost predicate ArmedInTime(q: Queue) {
    match q.armed
    case None => forall e :: e in q.timers ==> q.h.reading && e.when >= q.h.now > 0
    case Some(t) => forall e :: e in q.timers ==> t <= Max(e.when, q.h.armedAt + 100)
  }

  ghost predicate Phased(q: Queue) {
    && (q.calling ==> q.h.reading)
    && (!q.h.reading ==> q.h.batch == {})
  }

  ghost predicate Good(q: Queue) {
    Indexed(q) && Accounted(q) && CancelKept(q) && ArmedInTime(q) && Phased(q)
  }

  lemma CreateIndexed(q: Queue, when: Time, repeat: bool, interval: nat, p: Address)
    requires Indexed(q) && p !in q.heap
    ensures Indexed(CreateIn(q, when, repeat, interval, p))
  {
  }

  lemma CreateAccounted(q: Queue, when: Time, repeat: bool, interval: nat, p: Address)
    requires Accounted(q) && p !in q.heap
    ensures Accounted(CreateIn(q, when, repeat, interval, p))
  {
  }

  lemma CreateCancelKept(q: Queue, when: Time, repeat: bool, interval: nat, p: Address)
    requires CancelKept(q) && p !in q.heap
    ensures CancelKept(CreateIn(q, when, repeat, interval, p))
  {
  }

  lemma CreateKeeps(q: Queue, when: Time, repeat: bool, interval: nat, p: Address)
    requires Good(q) && p !in q.heap
    ensures Good(CreateIn(q, when, repeat, interval, p))
  {
    CreateIndexed(q, when, repeat, interval, p);
    CreateAccounted(q, when, repeat, interval, p);
    CreateCancelKept(q, when, repeat, interval, p);
  }

  lemma InsertIndexed(q: Queue, p: Address)
    requires Indexed(q) && p in q.heap && q.h.place[p] == Adding
    ensures Indexed(InsertIn(q, p))
  {
  }

  lemma InsertCancelKept(q: Queue, p: Address)
    requires CancelKept(q) && p in q.heap && q.h.place[p] == Adding
    ensures CancelKept(InsertIn(q, p))
  {
  }

  lemma AddArmed(q: Queue, p: Address, clock: Time)
    requires ArmedInTime(q) && p in q.heap
    ensures ArmedInTime(AddIn(q, p, clock))
  {
    var t := q.heap[p].expiration;
    if !EarlierThanAll(t, q.timers) {
      var e :| e in q.timers && e.when <= t;
    }
  }

  lemma AddKeeps(q: Queue, p: Address, clock: Time)
    requires Good(q) && p in q.heap && q.h.place[p] == Adding
    ensures Good(AddIn(q, p, clock))
  {
    InsertIndexed(q, p);
    InsertCancelKept(q, p);
    AddArmed(q, p, clock);
    SameButArmed(InsertIn(q, p), AddIn(q, p, clock));
  }

  /** Only the timerfd differs. */
  lemma SameButArmed(q: Queue, r: Queue)
    requires r == q.(armed := r.armed, h := q.h.(armedAt := r.h.armedAt))
    ensures Indexed(q) ==> Indexed(r)
    ensures Accounted(q) ==> Accounted(r)
    ensures CancelKept(q) ==> CancelKept(r)
    ensures Phased(q) ==> Phased(r)
  {
  }

  lemma DeleteAccounted(q: Queue, p: Address)
    requires Accounted(q) && p in q.heap
    ensures Accounted(DeleteIn(q, p))
  {
  }

  lemma CancelIndexed(q: Queue, id: Handle)
    requires Indexed(q)
    ensures Indexed(CancelIn(q, id))
  {
  }

  lemma CancelCancelKept(q: Queue, id: Handle)
    requires Indexed(q) && Accounted(q) && CancelKept(q)
    ensures CancelKept(CancelIn(q, id))
  {
    if id.timer in q.heap {
      var n := q.heap[id.timer].sequence;
      assert forall p :: p in q.heap && q.heap[p].sequence == n ==> p == q.h.owner[n] == id.timer;
    }
  }

  lemma CancelKeeps(q: Queue, id: Handle)
    requires Good(q)
    ensures Good(CancelIn(q, id))
  {
    if id in q.active {
      DeleteAccounted(q, id.timer);
    }
    CancelIndexed(q, id);
    CancelCancelKept(q, id);
  }

  // ----- callbacks -----

  ghost function Act(q: Queue, a: Action): Queue {
    match a
    case Add(when, repeat, interval, address, clock) =>
      // the allocator never hands out an address that is in use
      if address in q.heap then q else AddIn(CreateIn(q, when, repeat, interval, address), address, clock)
    case Cancel(id) => CancelIn(q, id)
  }

  /** Callbacks leave the batch, its timers and the record of runs alone. */
  ghost predicate BatchKept(q: Queue, r: Queue) {
    && r.h.batch == q.h.batch && r.h.done == q.h.done && r.h.runs == q.h.runs
    && r.h.reading == q.h.reading && r.h.now == q.h.now && r.calling == q.calling
    && (forall e :: e in q.h.batch && e.timer in q.heap ==>
          e.timer in r.heap && r.heap[e.timer] == q.heap[e.timer])
  }

  lemma CancelKeepsBatch(q: Queue, id: Handle)
    requires Indexed(q)
    ensures BatchKept(q, CancelIn(q, id))
  {
  }

  lemma AddKeepsBatch(q: Queue, when: Time, repeat: bool, interval: nat, p: Address, clock: Time)
    requires p !in q.heap
    ensures BatchKept(q, AddIn(CreateIn(q, when, repeat, interval, p), p, clock))
  {
  }

  lemma ActKeeps(q: Queue, a: Action)
    requires Good(q)
    ensures Good(Act(q, a)) && BatchKept(q, Act(q, a))
  {
    match a {
      case Add(when, repeat, interval, address, clock) =>
        if address !in q.heap {
          CreateKeeps(q, when, repeat, interval, address);
          AddKeeps(CreateIn(q, when, repeat, interval, address), address, clock);
          AddKeepsBatch(q, when, repeat, interval, address, clock);
        }
      case Cancel(id) =>
        CancelKeeps(q, id);
        CancelKeepsBatch(q, id);
    }
  }

  /** The callback of the timer at `p` is called. */
  ghost function Call(q: Queue, p: Address): Queue {
    if p !in q.heap then q else
      var n := q.heap[p].sequence;
      q.(h := q.h.(runs := q.h.runs + [n], done := q.h.done + {p},
                   late := if n !in q.h.cancelled then q.h.late
                           else q.h.late[n := (if n in q.h.late then q.h.late[n] else 0) + 1]))
  }

  lemma CallKeeps(q: Queue, p: Address)
    requires Good(q) && p in q.heap && q.h.place[p] == InBatch && p !in q.h.done
    ensures Good(Call(q, p))
  {
    var q', n := Call(q, p), q.heap[p].sequence;
    assert n !in q.h.late;
    assert CancelKept(q') by {
      forall r | r in q.heap && q.heap[r].sequence in q'.h.late
        ensures r in q'.h.done
      {
        if q.heap[r].sequence == n {
          assert q.h.owner[n] == p && q.h.owner[n] == r;
        }
      }
    }
  }

  // ----- handleRead() -----

  /** The entries due at `now`. */
  ghost function Due(q: Queue, now: Time): set<Entry> {
    set e | e in q.timers && e.when <= now
  }

  /** The timerfd has been read and getExpired() has moved the due timers out of both indexes. */
  ghost function Take(q: Queue, now: Time, fired: bool): Queue
    requires Indexed(q)
  {
    var due := Due(q, now);
    q.(timers := q.timers - due,
       active := (set a | a in q.active && Entry(q.heap[a.timer].expiration, a.timer) !in due),
       armed := if fired then None else q.armed,
       calling := true,
       canceling := {},
       h := q.h.(place := (map p | p in q.heap ::
                             if Entry(q.heap[p].expiration, p) in due then InBatch else q.h.place[p]),
                 reading := true, now := now, batch := due, done := {}))
  }

  lemma NoBatchPlaces(q: Queue)
    requires Indexed(q) && q.h.batch == {}
    ensures forall p :: p in q.heap ==> q.h.place[p] != InBatch
  {
    assert forall p :: p in q.heap ==> Entry(q.heap[p].expiration, p) !in q.h.batch;
  }

  lemma TakeIndexed(q: Queue, now: Time, fired: bool)
    requires Indexed(q) && q.h.batch == {}
    ensures Indexed(Take(q, now, fired))
  {
    NoBatchPlaces(q);
  }

  lemma TakeCancelKept(q: Queue, now: Time, fired: bool)
    requires Indexed(q) && CancelKept(q) && q.h.batch == {}
    ensures CancelKept(Take(q, now, fired))
  {
    NoBatchPlaces(q);
  }

  lemma TakeKeeps(q: Queue, now: Time, fired: bool)
    requires Good(q) && !q.h.reading && now > 0
    ensures Good(Take(q, now, fired))
  {
    TakeIndexed(q, now, fired);
    TakeCancelKept(q, now, fired);
  }

  /** The callback list of the `k`-th expired timer; callbacks that are not listed do nothing. */
  function Script(script: seq<seq<Action>>, k: nat): seq<Action> {
    if k < |script| then script[k] else []
  }

  /** All entries of `expired` are in the batch, and the callbacks from `k` on are still to come. */
  ghost predicate Batched(q: Queue, expired: seq<Entry>, k: nat) {
    && q.h.reading
    && (forall i :: 0 <= i < |expired| ==> expired[i] in q.h.batch)
    && (forall i :: k <= i < |expired| ==> expired[i].timer !in q.h.done)
  }

  /** No timer is listed twice. */
  ghost predicate Distinct(expired: seq<Entry>) {
    forall i, j :: 0 <= i < j < |expired| ==> expired[i].timer != expired[j].timer
  }

  /** How many actions the `k`-th callback performs. */
  function Length(script: seq<seq<Action>>, k: nat): nat {
    if k == 0 then 0 else |Script(script, k - 1)|
  }

  /** `k` callbacks have been called, in order, and the last of them has performed `j` actions. */
  ghost function Calls(q: Queue, expired: seq<Entry>, script: seq<seq<Action>>, k: nat, j: nat): Queue
    requires k <= |expired| && j <= Length(script, k)
    decreases k, j
  {
    if k == 0 then q
    else if j == 0 then Call(Calls(q, expired, script, k - 1, Length(script, k - 1)), expired[k - 1].timer)
    else Act(Calls(q, expired, script, k, j - 1), Script(script, k - 1)[j - 1])
  }

  /** Both heaps hold the same timers for `expired`. */
  ghost predicate SameTimers(a: Heap, b: Heap, expired: seq<Entry>) {
    forall i :: 0 <= i < |expired| ==>
      expired[i].timer in a && expired[i].timer in b && a[expired[i].timer] == b[expired[i].timer]
  }

  lemma CallBatched(r: Queue, expired: seq<Entry>, k: nat)
    requires Indexed(r) && Batched(r, expired, k) && k < |expired| && Distinct(expired)
    ensures expired[k].timer in r.heap && r.h.place[expired[k].timer] == InBatch && expired[k].timer !in r.h.done
    ensures Batched(Call(r, expired[k].timer), expired, k + 1)
  {
    assert expired[k] in r.h.batch;
  }

  /** From `q` to `r`, `k` callbacks have been called, and the batch is as it was. */
  ghost predicate Called(q: Queue, r: Queue, expired: seq<Entry>, k: nat) {
    Good(r) && Batched(r, expired, k) && r.h.batch == q.h.batch && r.h.now == q.h.now
  }

  lemma NextCallKeeps(q: Queue, r: Queue, expired: seq<Entry>, k: nat)
    requires Called(q, r, expired, k) && k < |expired| && Distinct(expired)
    ensures Called(q, Call(r, expired[k].timer), expired, k + 1)
  {
    CallBatched(r, expired, k);
    CallKeeps(r, expired[k].timer);
  }

  lemma NextActKeeps(q: Queue, r: Queue, expired: seq<Entry>, k: nat, a: Action)
    requires Called(q, r, expired, k)
    ensures Called(q, Act(r, a), expired, k)
  {
    ActKeeps(r, a);
  }

  lemma LastCallKeeps(q: Queue, expired: seq<Entry>, script: seq<seq<Action>>, k: nat, before: Queue)
    requires 0 < k <= |expired| && before == Calls(q, expired, script, k - 1, Length(script, k - 1))
    requires Called(q, before, expired, k - 1) && Distinct(expired)
    ensures Called(q, Calls(q, expired, script, k, 0), expired, k)
  {
    NextCallKeeps(q, before, expired, k - 1);
  }

  lemma LastActKeeps(q: Queue, expired: seq<Entry>, script: seq<seq<Action>>, k: nat, j: nat, before: Queue)
    requires 0 < k <= |expired| && 0 < j <= Length(script, k) && before == Calls(q, expired, script, k, j - 1)
    requires Called(q, before, expired, k)
    ensures Called(q, Calls(q, expired, script, k, j), expired, k)
  {
    NextActKeeps(q, before, expired, k, Script(script, k - 1)[j - 1]);
  }

  lemma {:induction false} CallsKept(q: Queue, expired: seq<Entry>, script: seq<seq<Action>>, k: nat, j: nat)
    requires Called(q, q, expired, 0) && Distinct(expired)
    requires k <= |expired| && j <= Length(script, k)
    ensures Called(q, Calls(q, expired, script, k, j), expired, k)
    decreases k, j
  {
    if k > 0 {
      if j == 0 {
        CallsKept(q, expired, script, k - 1, Length(script, k - 1));
        LastCallKeeps(q, expired, script, k, Calls(q, expired, script, k - 1, Length(script, k - 1)));
      } else {
        CallsKept(q, expired, script, k, j - 1);
        LastActKeeps(q, expired, script, k, j, Calls(q, expired, script, k, j - 1));
      }
    }
  }

  lemma CallsKeep(q: Queue, expired: seq<Entry>, script: seq<seq<Action>>, k: nat, j: nat)
    requires Good(q) && Batched(q, expired, 0) && Distinct(expired)
    requires k <= |expired| && j <= Length(script, k)
    ensures Good(Calls(q, expired, script, k, j)) && Batched(Calls(q, expired, script, k, j), expired, k)
    ensures Calls(q, expired, script, k, j).h.batch == q.h.batch && Calls(q, expired, script, k, j).h.now == q.h.now
  {
    CallsKept(q, expired, script, k, j);
  }

  /** Everything but the timerfd. */
  ghost predicate Sound(q: Queue) {
    Indexed(q) && Accounted(q) && CancelKept(q) && Phased(q)
  }

  /** While reset() runs: the timerfd covers every timer that is not due after this batch. */
  ghost predicate ArmedOrLater(q: Queue) {
    forall e :: e in q.timers ==>
      || (q.armed.Some? && q.armed.value <= Max(e.when, q.h.armedAt + 100))
      || e.when >= q.h.now > 0
  }

  /** Take an entry out of the batch; its timer is for the moment in no index. */
  ghost function Release(q: Queue, e: Entry): Queue
    requires e.timer in q.h.place
  {
    q.(h := q.h.(batch := q.h.batch - {e}, place := q.h.place[e.timer := Adding]))
  }

  lemma ReleaseKeeps(q: Queue, e: Entry)
    requires Sound(q) && e in q.h.batch && q.heap[e.timer].sequence !in q.h.cancelled
    ensures Sound(Release(q, e))
  {
    var q' := Release(q, e);
    assert Indexed(q');
    assert CancelKept(q');
  }

  ghost predicate Restarts(q: Queue, p: Address)
    requires p in q.heap
  {
    q.heap[p].repeat && Handle(p, q.heap[p].sequence) !in q.canceling
  }

  /** reset() for one expired entry: restart the timer and insert it again, or delete it. */
  ghost function ResetOne(q: Queue, e: Entry): Queue
    requires Indexed(q) && e in q.h.batch
  {
    var p := e.timer;
    if Restarts(q, p) then
      Restarted(q, e)
    else
      DeleteIn(q.(h := q.h.(batch := q.h.batch - {e})), p)
  }

  ghost function Restart(q: Queue, p: Address): Queue
    requires p in q.heap
  {
    q.(heap := q.heap[p := q.heap[p].(expiration := q.h.now + q.heap[p].interval)])
  }

  lemma RestartKeeps(q: Queue, p: Address)
    requires Sound(q) && p in q.heap && q.h.place[p] == Adding
    ensures Sound(Restart(q, p))
  {
    var q' := Restart(q, p);
    assert Indexed(q');
    assert Accounted(q');
    assert CancelKept(q');
  }

  lemma DeleteFromBatchKeeps(q: Queue, e: Entry)
    requires Sound(q) && e in q.h.batch
    ensures Sound(DeleteIn(q.(h := q.h.(batch := q.h.batch - {e})), e.timer))
  {
    var q0 := q.(h := q.h.(batch := q.h.batch - {e}));
    var q' := DeleteIn(q0, e.timer);
    DeleteAccounted(q0, e.timer);
    assert Indexed(q');
    assert CancelKept(q');
  }

  /** Resetting the entries of `gone` touches nothing else of the batch. */
  ghost predicate RestKept(q: Queue, r: Queue, gone: set<Entry>) {
    && r.h.batch == q.h.batch - gone
    && r.h.now == q.h.now && r.canceling == q.canceling && r.h.cancelled == q.h.cancelled
    && r.h.reading == q.h.reading && r.h.runs == q.h.runs
    && r.armed == q.armed && r.h.armedAt == q.h.armedAt && r.calling == q.calling
  }

  ghost function Restarted(q: Queue, e: Entry): Queue
    requires Indexed(q) && e in q.h.batch
  {
    InsertIn(Restart(Release(q, e), e.timer), e.timer)
  }

  lemma RestartedKeeps(q: Queue, e: Entry)
    requires Sound(q) && e in q.h.batch && q.heap[e.timer].sequence !in q.h.cancelled
    ensures Sound(Restarted(q, e))
  {
    var q1 := Release(q, e);
    ReleaseKeeps(q, e);
    RestartKeeps(q1, e.timer);
    InsertIndexed(Restart(q1, e.timer), e.timer);
    InsertCancelKept(Restart(q1, e.timer), e.timer);
  }

  lemma ResetOneArmed(q: Queue, e: Entry)
    requires Indexed(q) && e in q.h.batch && ArmedOrLater(q) && q.h.now > 0
    ensures ArmedOrLater(ResetOne(q, e))
  {
  }

  lemma ResetOneKeeps(q: Queue, e: Entry)
    requires Sound(q) && e in q.h.batch
    ensures Sound(ResetOne(q, e))
  {
    if Restarts(q, e.timer) {
      RestartedKeeps(q, e);
    } else {
      DeleteFromBatchKeeps(q, e);
    }
  }

  /** reset() for the whole batch, in order. */
  ghost function ResetBatch(q: Queue): Queue
    requires Sound(q)
    decreases |q.h.batch|
  {
    if q.h.batch == {} then q else
      var e := First(q.h.batch);
      ResetOneKeeps(q, e);
      ResetOneBatch(q, e);
      ResetBatch(ResetOne(q, e))
  }

  lemma ResetOneBatch(q: Queue, e: Entry)
    requires Indexed(q) && e in q.h.batch
    ensures RestKept(q, ResetOne(q, e), {e})
  {
  }

  lemma {:induction false} ResetBatchKeeps(q: Queue)
    requires Sound(q) && ArmedOrLater(q) && q.h.now > 0
    ensures Sound(ResetBatch(q)) && ArmedOrLater(ResetBatch(q)) && RestKept(q, ResetBatch(q), q.h.batch)
    decreases |q.h.batch|
  {
    if q.h.batch != {} {
      var e := First(q.h.batch);
      ResetOneKeeps(q, e);
      ResetOneBatch(q, e);
      ResetOneArmed(q, e);
      ResetBatchKeeps(ResetOne(q, e));
    }
  }

  /** The end of reset(): set the timerfd for the earliest timer, if its time is valid. */
  ghost function Finish(q: Queue, clock: Time): Queue {
    var q' := q.(h := q.h.(reading := false));
    if q.timers != {} && First(q.timers).when > 0 then SetFd(q', First(q.timers).when, clock) else q'
  }

  lemma FinishArmed(q: Queue, clock: Time)
    requires ArmedOrLater(q)
    ensures ArmedInTime(Finish(q, clock))
  {
    if q.timers != {} {
      var f := First(q.timers);
      assert forall e :: e in q.timers ==> f.when <= e.when;
    }
  }

  lemma FinishKeeps(q: Queue, clock: Time)
    requires Sound(q) && ArmedOrLater(q) && q.h.batch == {} && !q.calling
    ensures Good(Finish(q, clock)) && !Finish(q, clock).h.reading
  {
    FinishArmed(q, clock);
    SameButFinished(q, Finish(q, clock));
  }

  lemma SameButFinished(q: Queue, r: Queue)
    requires r == q.(armed := r.armed, h := q.h.(armedAt := r.h.armedAt, reading := false))
    requires Sound(q) && q.h.batch == {} && !q.calling
    ensures Sound(r)
  {
  }

  ghost function HandleReadIn(q: Queue, now: Time, fired: bool, script: seq<seq<Action>>, clock: Time): (r: Queue)
    requires Good(q) && !q.h.reading && now > 0
    ensures Good(r) && !r.h.reading
  {
    var expired := Listing(Due(q, now));
    var taken := Take(q, now, fired);
    TakeKeeps(q, now, fired);
    TakeBatched(q, now, fired);
    CallsKeep(taken, expired, script, |expired|, Length(script, |expired|));
    var called := Calls(taken, expired, script, |expired|, Length(script, |expired|));
    var calm := called.(calling := false);
    StopCalling(called);
    ResetBatchKeeps(calm);
    FinishKeeps(ResetBatch(calm), clock);
    Finish(ResetBatch(calm), clock)
  }

  lemma TakeBatched(q: Queue, now: Time, fired: bool)
    requires Good(q) && !q.h.reading
    ensures Batched(Take(q, now, fired), Listing(Due(q, now)), 0)
    ensures Distinct(Listing(Due(q, now)))
  {
    var expired := Listing(Due(q, now));
    ListingAscends(Due(q, now));
    forall i, j | 0 <= i < j < |expired|
      ensures expired[i].timer != expired[j].timer
    {
      assert Before(expired[i], expired[j]);
      assert expired[i] in Due(q, now) && expired[j] in Due(q, now);
    }
  }

  lemma StopCalling(q: Queue)
    requires Good(q) && q.h.reading
    ensures Sound(q.(calling := false)) && ArmedOrLater(q.(calling := false))
  {
  }

  // ----- which callbacks run -----

  /** The sequence numbers of the first `k` entries of `expired`. */
  ghost function NumbersOf(heap: Heap, expired: seq<Entry>, k: nat): (r: seq<int>)
    requires k <= |expired| && forall i :: 0 <= i < |expired| ==> expired[i].timer in heap
    ensures |r| == k && forall i :: 0 <= i < k ==> r[i] == heap[expired[i].timer].sequence
  {
    seq(k, i requires 0 <= i < k => heap[expired[i].timer].sequence)
  }

  lemma BatchedInHeap(q: Queue, expired: seq<Entry>)
    requires Indexed(q) && Batched(q, expired, 0)
    ensures SameTimers(q.heap, q.heap, expired)
    ensures q.h.runs == q.h.runs + NumbersOf(q.heap, expired, 0)
  {
  }

  /** From `q` to `r`, the first `k` timers of `expired` have been called, in order, and none has changed. */
  ghost predicate InOrder(q: Queue, r: Queue, expired: seq<Entry>, k: nat) {
    && k <= |expired|
    && SameTimers(q.heap, r.heap, expired)
    && r.h.runs == q.h.runs + NumbersOf(q.heap, expired, k)
  }

  lemma CallInOrder(q: Queue, r: Queue, expired: seq<Entry>, k: nat)
    requires InOrder(q, r, expired, k) && k < |expired|
    ensures InOrder(q, Call(r, expired[k].timer), expired, k + 1)
  {
    assert NumbersOf(q.heap, expired, k + 1)
        == NumbersOf(q.heap, expired, k) + [r.heap[expired[k].timer].sequence];
  }

  lemma ActInOrder(q: Queue, r: Queue, expired: seq<Entry>, k: nat, a: Action)
    requires Good(r) && Batched(r, expired, k) && InOrder(q, r, expired, k)
    ensures InOrder(q, Act(r, a), expired, k)
  {
    ActKeeps(r, a);
  }

  lemma {:induction false} CalledInOrder(q: Queue, expired: seq<Entry>, script: seq<seq<Action>>, k: nat, j: nat)
    requires Good(q) && Batched(q, expired, 0) && Distinct(expired)
    requires k <= |expired| && j <= Length(script, k)
    ensures InOrder(q, Calls(q, expired, script, k, j), expired, k)
    decreases k, j
  {
    if k == 0 {
      BatchedInHeap(q, expired);
    } else if j == 0 {
      CalledInOrder(q, expired, script, k - 1, Length(script, k - 1));
      CallInOrder(q, Calls(q, expired, script, k - 1, Length(script, k - 1)), expired, k - 1);
    } else {
      CalledInOrder(q, expired, script, k, j - 1);
      NextActInOrder(q, expired, script, k, j, Calls(q, expired, script, k, j - 1));
    }
  }

  lemma NextActInOrder(q: Queue, expired: seq<Entry>, script: seq<seq<Action>>, k: nat, j: nat, r: Queue)
    requires Good(q) && Batched(q, expired, 0) && Distinct(expired)
    requires 0 < k <= |expired| && 0 < j <= Length(script, k)
    requires r == Calls(q, expired, script, k, j - 1) && InOrder(q, r, expired, k)
    ensures InOrder(q, Calls(q, expired, script, k, j), expired, k)
  {
    CallsKeep(q, expired, script, k, j - 1);
    ActInOrder(q, r, expired, k, Script(script, k - 1)[j - 1]);
  }

  /** What getExpired() takes out: the timers due, in order, and none early. */
  lemma DueListed(q: Queue, now: Time)
    requires Indexed(q)
    ensures var expired := Listing(Due(q, now));
            && (forall e :: e in expired <==> e in q.timers && e.when <= now)
            && (forall i, j :: 0 <= i < j < |expired| ==> Before(expired[i], expired[j]))
            && SameTimers(q.heap, q.heap, expired)
  {
    var expired := Listing(Due(q, now));
    ListingAscends(Due(q, now));
    forall i | 0 <= i < |expired|
      ensures expired[i].timer in q.heap
    {
      assert expired[i] in Due(q, now);
    }
  }

  lemma AfterCallsRunsKept(called: Queue, clock: Time)
    requires Good(called) && called.h.reading && called.h.now > 0
    ensures Sound(called.(calling := false))
    ensures Finish(ResetBatch(called.(calling := false)), clock).h.runs == called.h.runs
  {
    StopCalling(called);
    ResetBatchKeeps(called.(calling := false));
  }

  /** handleRead() calls back exactly the timers due, once each, earliest first. */
  lemma HandleReadCallsDue(q: Queue, now: Time, fired: bool, script: seq<seq<Action>>, clock: Time)
    requires Good(q) && !q.h.reading && now > 0
    ensures SameTimers(q.heap, q.heap, Listing(Due(q, now)))
    ensures HandleReadIn(q, now, fired, script, clock).h.runs
            == q.h.runs + NumbersOf(q.heap, Listing(Due(q, now)), |Listing(Due(q, now))|)
  {
    var expired := Listing(Due(q, now));
    var taken := Take(q, now, fired);
    DueListed(q, now);
    TakeKeeps(q, now, fired);
    TakeBatched(q, now, fired);
    CalledInOrder(taken, expired, script, |expired|, Length(script, |expired|));
    CallsKeep(taken, expired, script, |expired|, Length(script, |expired|));
    AfterCallsRunsKept(Calls(taken, expired, script, |expired|, Length(script, |expired|)), clock);
  }
}
