/**
  The timing wheel of https/ApiServer.h: a ring of buckets, one per second.  A connection
  that is heard from is put into the newest bucket; when a bucket falls off the ring, the
  entries that are in no other are released and their connections closed.
 */
module ConnBucket {
  import opened Options
  import opened Sequences

  datatype Op<E> = Touch(entry: E) | Tick

  /** The ring, oldest bucket first. */
  type Ring<E> = seq<set<E>>

  function Apply<E>(ring: Ring<E>, op: Op<E>): (r: Ring<E>)
    requires ring != []
    ensures |r| == |ring|
  {
    match op
    case Touch(e) => ring[|ring| - 1 := ring[|ring| - 1] + {e}]
    case Tick => ring[1..] + [{}]
  }

  /** Every run, from a ring of `n` empty buckets. */
  function After<E>(n: nat, ops: seq<Op<E>>): (ring: Ring<E>)
    requires n >= 1
    ensures |ring| == n
  {
    if ops == [] then seq(n, _ => {}) else Apply(After(n, ops[..|ops| - 1]), ops[|ops| - 1])
  }

  predicate Held<E(==)>(ring: Ring<E>, e: E) {
    exists k | 0 <= k < |ring| :: e in ring[k]
  }

  /** How many ticks ago an entry was last touched. */
  function Idle<E(==)>(ops: seq<Op<E>>, e: E): Option<nat> {
    if ops == [] then None else
      var before := Idle(ops[..|ops| - 1], e);
      match ops[|ops| - 1]
      case Touch(x) => if x == e then Some(0) else before
      case Tick => if before.Some? then Some(before.value + 1) else None
  }

  /** The bucket of `k` ticks ago holds no entry touched since, unless it was touched then, and none touched before. */
  ghost predicate Sorted<E>(ring: Ring<E>, e: E, idle: Option<nat>) {
    && (idle.None? ==> forall k :: 0 <= k < |ring| ==> e !in ring[k])
    && (idle.Some? ==> forall k :: 0 <= k < |ring| && |ring| - 1 - k < idle.value ==> e !in ring[k])
    && (idle.Some? && idle.value < |ring| ==> e in ring[|ring| - 1 - idle.value])
  }

  lemma TouchSorts<E>(ring: Ring<E>, x: E, e: E, idle: Option<nat>)
    requires ring != [] && Sorted(ring, e, idle)
    ensures Sorted(Apply(ring, Touch(x)), e, if x == e then Some(0) else idle)
  {
  }

  lemma TickSorts<E>(ring: Ring<E>, e: E, idle: Option<nat>)
    requires ring != [] && Sorted(ring, e, idle)
    ensures Sorted(Apply(ring, Tick), e, if idle.Some? then Some(idle.value + 1) else None)
  {
  }

  lemma {:induction false} EveryRunSorts<E>(n: nat, ops: seq<Op<E>>, e: E)
    requires n >= 1
    ensures Sorted(After(n, ops), e, Idle(ops, e))
  {
    if ops != [] {
      var before := ops[..|ops| - 1];
      EveryRunSorts(n, before, e);
      match ops[|ops| - 1]
      case Touch(x) => TouchSorts(After(n, before), x, e, Idle(before, e));
      case Tick => TickSorts(After(n, before), e, Idle(before, e));
    }
  }

  /** After every run, the ring holds an entry exactly when fewer than `n` ticks have passed since it was touched. */
  lemma HeldIffRecent<E>(n: nat, ops: seq<Op<E>>, e: E)
    requires n >= 1
    ensures Held(After(n, ops), e) <==> Idle(ops, e).Some? && Idle(ops, e).value < n
  {
    EveryRunSorts(n, ops, e);
  }

  function Ticks<E>(k: nat): seq<Op<E>> {
    seq(k, _ => Tick)
  }

  lemma {:induction false} IdleTicks<E>(ops: seq<Op<E>>, e: E, k: nat)
    ensures Idle(ops + [Touch(e)] + Ticks(k), e) == Some(k)
  {
    var all := ops + [Touch(e)] + Ticks<E>(k);
    if k == 0 {
      assert all == ops + [Touch(e)];
      WithoutLast(ops, Touch(e));
    } else {
      assert all[..|all| - 1] == ops + [Touch(e)] + Ticks(k - 1);
      IdleTicks(ops, e, k - 1);
    }
  }

  /** A connection that falls silent is released at the `n`-th tick, neither sooner nor later. */
  lemma ReleasedAtNthTick<E>(n: nat, ops: seq<Op<E>>, e: E, k: nat)
    requires n >= 1
    ensures Held(After(n, ops + [Touch(e)] + Ticks(k)), e) <==> k < n
  {
    IdleTicks(ops, e, k);
    HeldIffRecent(n, ops + [Touch(e)] + Ticks(k), e);
  }

  // ----- the object -----

  class ConnBucket<E(==)> {
    var buckets: Ring<E>
    const size: nat

    ghost predicate Valid()
      reads this
    {
      |buckets| == size && size >= 1
    }

    constructor (size: nat)
      requires size >= 1
      ensures Valid() && this.size == size && buckets == After(size, [])
    {
      this.size := size;
      buckets := seq(size, _ => {});
    }

    /** onTimer(): boost::circular_buffer::push_back() on a full ring drops the oldest bucket. */
    method OnTimer() returns (released: set<E>)
      requires Valid()
      modifies this
      ensures Valid() && buckets == Apply(old(buckets), Tick)
      ensures forall e :: e in released <==> Held(old(buckets), e) && !Held(buckets, e)
    {
      var oldest := buckets[0];
      buckets := buckets[1..] + [{}];
      released := set e | e in oldest && !Held(buckets, e);
      forall e
        ensures Held(old(buckets), e) && !Held(buckets, e) <==> e in oldest && !Held(buckets, e)
      {
        Dropped(old(buckets), e);
      }
    }

    /** pushBucket() and updateBucket(): nothing for an entry that is gone or whose connection is. */
    method Insert(entry: Option<E>, connected: bool)
      requires Valid()
      modifies this
      ensures Valid()
      ensures buckets == if entry.Some? && connected then Apply(old(buckets), Touch(entry.value)) else old(buckets)
    {
      if entry.Some? {
        if connected {
          buckets := buckets[size - 1 := buckets[size - 1] + {entry.value}];
        }
      }
    }
  }

  /** A tick lets go of the oldest bucket and of nothing else. */
  lemma Dropped<E>(ring: Ring<E>, e: E)
    requires ring != []
    ensures Held(ring, e) <==> e in ring[0] || Held(Apply(ring, Tick), e)
  {
    assert forall k :: 0 < k < |ring| ==> ring[k] == Apply(ring, Tick)[k - 1];
    assert forall k :: 0 <= k < |ring| - 1 ==> Apply(ring, Tick)[k] == ring[k + 1];
  }
}
