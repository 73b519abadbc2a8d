/**
  The buffer of muduo-vip/muduo/net/Buffer.h: one array with a prependable, a readable
  and a writable region.  Whatever is done to it, its readable region is a plain sequence
  of octets.
 */
module ByteBuffer {
  import opened Octets
  import opened Sequences

  const CHEAP_PREPEND: nat := 8
  const INITIAL_SIZE: nat := 1024
  const EXTRA: nat := 65536

  /** The three regions: a plain sequence, and the room before and behind it. */
  datatype Shape = Shape(before: nat, contents: seq<octet>, behind: nat)

  // What the operations are to the plain sequence and its room.

  function Retrieved(s: Shape, len: nat): Shape
    requires len <= |s.contents| && CHEAP_PREPEND <= s.before + |s.contents| + s.behind
  {
    if len < |s.contents| then Shape(s.before + len, s.contents[len..], s.behind)
    else Shape(CHEAP_PREPEND, [], s.before + |s.contents| + s.behind - CHEAP_PREPEND)
  }

  function Unwritten(s: Shape, len: nat): Shape
    requires len <= |s.contents|
  {
    Shape(s.before, s.contents[..|s.contents| - len], s.behind + len)
  }

  /** Room for `len` more: as it is, by growing, or by moving to the front. */
  function Roomy(s: Shape, len: nat): (r: Shape)
    ensures r.contents == s.contents && r.behind >= len
  {
    if s.behind >= len then s
    else if s.behind + s.before < len + CHEAP_PREPEND then s.(behind := len)
    else Shape(CHEAP_PREPEND, s.contents, s.behind + s.before - CHEAP_PREPEND)
  }

  function Appended(s: Shape, data: seq<octet>): (r: Shape)
    ensures r.contents == s.contents + data
  {
    var roomy := Roomy(s, |data|);
    Shape(roomy.before, roomy.contents + data, roomy.behind - |data|)
  }

  function Prepended(s: Shape, data: seq<octet>): Shape
    requires |data| <= s.before
  {
    Shape(s.before - |data|, data + s.contents, s.behind)
  }

  function Shrunk(s: Shape, reserve: nat): (r: Shape)
    ensures r.contents == s.contents && r.behind >= reserve
  {
    Appended(Roomy(Shape(CHEAP_PREPEND, [], INITIAL_SIZE), |s.contents| + reserve), s.contents)
  }

  class Buffer {
    var buffer: array<octet>
    var readerIndex: nat
    var writerIndex: nat

    ghost predicate Valid()
      reads this
    {
      readerIndex <= writerIndex <= buffer.Length && CHEAP_PREPEND <= buffer.Length
    }

    /** The plain sequence. */
    ghost function Contents(): seq<octet>
      requires Valid()
      reads this, buffer
    {
      buffer[readerIndex..writerIndex]
    }

    ghost function Value(): Shape
      requires Valid()
      reads this, buffer
    {
      Shape(readerIndex, Contents(), buffer.Length - writerIndex)
    }

    function ReadableBytes(): nat
      requires Valid()
      reads this
    {
      writerIndex - readerIndex
    }

    function WritableBytes(): nat
      requires Valid()
      reads this
    {
      buffer.Length - writerIndex
    }

    function PrependableBytes(): nat
      reads this
    {
      readerIndex
    }

    constructor (initialSize: nat)
      ensures Valid() && fresh(buffer) && Value() == Shape(CHEAP_PREPEND, [], initialSize)
    {
      buffer := new octet[CHEAP_PREPEND + initialSize];
      readerIndex, writerIndex := CHEAP_PREPEND, CHEAP_PREPEND;
    }

    method RetrieveAll()
      requires Valid()
      modifies this
      ensures Valid() && buffer == old(buffer) && Contents() == [] && PrependableBytes() == CHEAP_PREPEND
    {
      readerIndex := CHEAP_PREPEND;
      writerIndex := CHEAP_PREPEND;
    }

    method Retrieve(len: nat)
      requires Valid() && len <= ReadableBytes()
      modifies this
      ensures Valid() && buffer == old(buffer) && Value() == Retrieved(old(Value()), len)
    {
      if len < ReadableBytes() {
        readerIndex := readerIndex + len;
      } else {
        RetrieveAll();
      }
    }

    method RetrieveAsString(len: nat) returns (result: seq<octet>)
      requires Valid() && len <= ReadableBytes()
      modifies this
      ensures Valid() && buffer == old(buffer) && Value() == Retrieved(old(Value()), len)
      ensures result + Contents() == old(Contents()) && |result| == len
    {
      result := buffer[readerIndex..readerIndex + len];
      assert result == Contents()[..len];
      CutAt(Contents(), len);
      Retrieve(len);
    }

    method Unwrite(len: nat)
      requires Valid() && len <= ReadableBytes()
      modifies this
      ensures Valid() && buffer == old(buffer) && Value() == Unwritten(old(Value()), len)
    {
      writerIndex := writerIndex - len;
    }

    method HasWritten(len: nat)
      requires Valid() && len <= WritableBytes()
      modifies this
      ensures Valid() && buffer == old(buffer)
      ensures Contents() == old(Contents()) + old(buffer[writerIndex..writerIndex + len])
      ensures writerIndex == old(writerIndex) + len
    {
      writerIndex := writerIndex + len;
    }

    /** std::copy() to the front: forward, and onto itself, yet every octet is read before it is overwritten. */
    method MoveToFront()
      requires Valid() && CHEAP_PREPEND < readerIndex
      modifies this, buffer
      ensures Valid() && buffer == old(buffer) && Contents() == old(Contents())
      ensures readerIndex == CHEAP_PREPEND
    {
      var readable := ReadableBytes();
      ghost var was := Contents();
      for k := 0 to readable
        modifies buffer
        invariant buffer[CHEAP_PREPEND..CHEAP_PREPEND + k] == was[..k]
        invariant buffer[readerIndex + k..writerIndex] == was[k..]
      {
        assert buffer[readerIndex + k] == was[k];
        buffer[CHEAP_PREPEND + k] := buffer[readerIndex + k];
      }
      readerIndex := CHEAP_PREPEND;
      writerIndex := readerIndex + readable;
    }

    /** vector::resize() to a greater size. */
    method Resize(size: nat)
      requires Valid() && buffer.Length <= size
      modifies this
      ensures Valid() && buffer.Length == size && fresh(buffer)
      ensures readerIndex == old(readerIndex) && writerIndex == old(writerIndex) && Contents() == old(Contents())
    {
      var larger := new octet[size](_ => 0);
      forall k | 0 <= k < buffer.Length {
        larger[k] := buffer[k];
      }
      buffer := larger;
    }

    method MakeSpace(len: nat)
      requires Valid() && WritableBytes() < len
      modifies this, buffer
      ensures Valid() && (buffer == old(buffer) || fresh(buffer))
      ensures Value() == Roomy(old(Value()), len)
    {
      if WritableBytes() + PrependableBytes() < len + CHEAP_PREPEND {
        Resize(writerIndex + len);
      } else {
        assert CHEAP_PREPEND < readerIndex;
        MoveToFront();
      }
    }

    method EnsureWritableBytes(len: nat)
      requires Valid()
      modifies this, buffer
      ensures Valid() && (buffer == old(buffer) || fresh(buffer))
      ensures Value() == Roomy(old(Value()), len)
    {
      if WritableBytes() < len {
        MakeSpace(len);
      }
    }

    /** Copy into the writable region. */
    method Copy(data: seq<octet>, at: nat)
      requires Valid() && at + |data| <= buffer.Length
      modifies buffer
      ensures buffer[..at] == old(buffer[..at]) && buffer[at..at + |data|] == data
      ensures buffer[at + |data|..] == old(buffer[at + |data|..])
    {
      forall k | 0 <= k < |data| {
        buffer[at + k] := data[k];
      }
    }

    /** Write where there is room, which shrinks by as much. */
    method Write(data: seq<octet>)
      requires Valid() && |data| <= WritableBytes()
      modifies this, buffer
      ensures Valid() && buffer == old(buffer) && writerIndex == old(writerIndex) + |data|
      ensures Contents() == old(Contents()) + data
    {
      ghost var was := buffer[..writerIndex];
      Copy(data, writerIndex);
      assert buffer[readerIndex..writerIndex] == was[readerIndex..];
      HasWritten(|data|);
    }

    method Append(data: seq<octet>)
      requires Valid()
      modifies this, buffer
      ensures Valid() && (buffer == old(buffer) || fresh(buffer))
      ensures Value() == Appended(old(Value()), data)
    {
      EnsureWritableBytes(|data|);
      Write(data);
    }

    method Prepend(data: seq<octet>)
      requires Valid() && |data| <= PrependableBytes()
      modifies this, buffer
      ensures Valid() && buffer == old(buffer) && Value() == Prepended(old(Value()), data)
    {
      ghost var was, from := buffer[readerIndex..], readerIndex;
      readerIndex := readerIndex - |data|;
      Copy(data, readerIndex);
      assert buffer[from..writerIndex] == was[..writerIndex - from] == old(Contents());
      assert buffer[readerIndex..writerIndex] == buffer[readerIndex..from] + buffer[from..writerIndex];
    }

    /** A new array, with the contents and the room asked for, takes the place of the old one. */
    method Shrink(reserve: nat)
      requires Valid()
      modifies this
      ensures Valid() && fresh(buffer) && Value() == Shrunk(old(Value()), reserve)
    {
      var other := new Buffer(INITIAL_SIZE);
      other.EnsureWritableBytes(ReadableBytes() + reserve);
      other.Append(buffer[readerIndex..writerIndex]);
      buffer, readerIndex, writerIndex := other.buffer, other.readerIndex, other.writerIndex;
    }

    /** readFd(): what readv() delivers fills the writable region first, then an array on the stack. */
    method ReadFd(delivered: seq<octet>)
      requires Valid()
      requires |delivered| <= WritableBytes() + if WritableBytes() < EXTRA then EXTRA else 0
      modifies this, buffer
      ensures Valid() && (buffer == old(buffer) || fresh(buffer))
      ensures Contents() == old(Contents()) + delivered
    {
      var writable := WritableBytes();
      if |delivered| <= writable {
        Write(delivered);
      } else {
        Write(delivered[..writable]);
        assert writerIndex == buffer.Length;
        Append(delivered[writable..]);
        assert delivered == delivered[..writable] + delivered[writable..];
      }
    }
  }

  // ----- runs -----

  datatype Op = Append(data: seq<octet>) | Prepend(data: seq<octet>) | Retrieve(len: nat) | Unwrite(len: nat)
              | EnsureWritable(len: nat) | Shrink(reserve: nat)

  predicate WellShaped(s: Shape) {
    CHEAP_PREPEND <= s.before + |s.contents| + s.behind
  }

  /** One operation; what an assertion of the source forbids is nothing. */
  function Effect(s: Shape, op: Op): (r: Shape)
    requires WellShaped(s)
    ensures WellShaped(r)
  {
    match op
    case Append(data) => Appended(s, data)
    case Prepend(data) => if |data| <= s.before then Prepended(s, data) else s
    case Retrieve(len) => if len <= |s.contents| then Retrieved(s, len) else s
    case Unwrite(len) => if len <= |s.contents| then Unwritten(s, len) else s
    case EnsureWritable(len) => Roomy(s, len)
    case Shrink(reserve) => Shrunk(s, reserve)
  }

  function Effects(s: Shape, ops: seq<Op>): (r: Shape)
    requires WellShaped(s)
    ensures WellShaped(r)
  {
    if ops == [] then s else Effect(Effects(s, ops[..|ops| - 1]), ops[|ops| - 1])
  }

  lemma {:induction false} EffectsNext(s: Shape, ops: seq<Op>, i: nat)
    requires WellShaped(s) && i < |ops|
    ensures Effects(s, ops[..i + 1]) == Effect(Effects(s, ops[..i]), ops[i])
  {
    assert ops[..i + 1][..i] == ops[..i];
  }

  function Capacity(s: Shape): nat {
    s.before + |s.contents| + s.behind
  }

  /** Room asked for at the end is found where it is, or by moving to the front, or by growing just enough. */
  lemma RoomFound(s: Shape, len: nat)
    ensures var r := Roomy(s, len);
            if s.behind >= len then r == s
            else if s.behind + s.before >= len + CHEAP_PREPEND then
              Capacity(r) == Capacity(s) && r.before == CHEAP_PREPEND
            else r.before == s.before && r.behind == len
  {
  }

  /** Only asking for room and shrinking change the size of the array, and an emptied buffer
    starts again at its front. */
  lemma CapacityKept(s: Shape, op: Op)
    requires WellShaped(s) && (op.Prepend? || op.Retrieve? || op.Unwrite?)
    ensures Capacity(Effect(s, op)) == Capacity(s)
    ensures op == Retrieve(|s.contents|) ==> Effect(s, op).contents == [] && Effect(s, op).before == CHEAP_PREPEND
  {
  }

  method Perform(b: Buffer, op: Op)
    requires b.Valid()
    modifies b, b.buffer
    ensures b.Valid() && (b.buffer == old(b.buffer) || fresh(b.buffer))
    ensures b.Value() == Effect(old(b.Value()), op)
  {
    match op {
      case Append(data) => b.Append(data);
      case Prepend(data) => if |data| <= b.PrependableBytes() { b.Prepend(data); }
      case Retrieve(len) => if len <= b.ReadableBytes() { b.Retrieve(len); }
      case Unwrite(len) => if len <= b.ReadableBytes() { b.Unwrite(len); }
      case EnsureWritable(len) => b.EnsureWritableBytes(len);
      case Shrink(reserve) => b.Shrink(reserve);
    }
  }

  /** Every run of the buffer is that run of the plain sequence. */
  method Run(b: Buffer, ops: seq<Op>)
    requires b.Valid()
    modifies b, b.buffer
    ensures b.Valid() && b.Value() == Effects(old(b.Value()), ops)
  {
    for i := 0 to |ops|
      invariant b.Valid() && (b.buffer == old(b.buffer) || fresh(b.buffer))
      invariant b.Value() == Effects(old(b.Value()), ops[..i])
    {
      EffectsNext(old(b.Value()), ops, i);
      Perform(b, ops[i]);
    }
    assert ops[..|ops|] == ops;
  }

  // ----- what was written is read -----

  function Written(ops: seq<Op>): seq<octet> {
    if ops == [] then [] else
      Written(ops[..|ops| - 1]) + if ops[|ops| - 1].Append? then ops[|ops| - 1].data else []
  }

  function Taken(s: Shape, ops: seq<Op>): seq<octet>
    requires WellShaped(s)
  {
    if ops == [] then [] else
      var before, op := ops[..|ops| - 1], ops[|ops| - 1];
      var c := Effects(s, before).contents;
      Taken(s, before) + if op.Retrieve? && op.len <= |c| then c[..op.len] else []
  }

  predicate Streaming(op: Op) {
    op.Append? || op.Retrieve? || op.EnsureWritable? || op.Shrink?
  }

  /** Used as a stream, the buffer gives out what was put in, in order, and holds the rest. */
  lemma {:induction false} FirstInFirstOut(s: Shape, ops: seq<Op>)
    requires WellShaped(s) && forall i :: 0 <= i < |ops| ==> Streaming(ops[i])
    ensures Taken(s, ops) + Effects(s, ops).contents == s.contents + Written(ops)
  {
    if ops == [] {
      assert [] + s.contents == s.contents + [];
    } else {
      var before, op := ops[..|ops| - 1], ops[|ops| - 1];
      FirstInFirstOut(s, before);
      var c := Effects(s, before).contents;
      StreamStep(Taken(s, before), c, s.contents, Written(before), op);
      assert Effects(s, ops).contents == Streamed(c, op);
    }
  }

  function Streamed(c: seq<octet>, op: Op): seq<octet> {
    match op
    case Append(data) => c + data
    case Retrieve(len) => if len <= |c| then c[len..] else c
    case _ => c
  }

  lemma StreamStep(taken: seq<octet>, c: seq<octet>, first: seq<octet>, written: seq<octet>, op: Op)
    requires taken + c == first + written && Streaming(op)
    ensures (taken + if op.Retrieve? && op.len <= |c| then c[..op.len] else []) + Streamed(c, op)
         == first + (written + if op.Append? then op.data else [])
  {
    assert taken + [] == taken && written + [] == written;
    if op.Append? {
      Assoc(taken, c, op.data);
      Assoc(first, written, op.data);
    } else if op.Retrieve? && op.len <= |c| {
      Assoc(taken, c[..op.len], c[op.len..]);
      assert c == c[..op.len] + c[op.len..];
    }
  }
}
