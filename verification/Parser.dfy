/**
  The resumable frame parser of libwebsocket/private/websocket.cc.  `Context`
  mirrors the source: a step, the header under construction, one message under
  assembly for data frames and one for control frames, and a loop that works off
  whatever the input buffer holds.  The assertions of the source appear as `assert`.

  Its specification knows no steps: `Scan` (module Delivery) reads all octets
  received so far as a whole, and `Settled` gives the one context in which every
  call must end, as a function of those octets alone.
 */
module Parser {
  import opened Sequences
  import opened Octets
  import opened Wire
  import opened Delivery

  datatype Step =
    | ReadFrameHeader
    | ReadExtendedPayloadlenU16
    | ReadExtendedPayloadlenI64
    | ReadMaskingkey
    | ReadPayloadData
    | ReadExtendedPayloadDataU16
    | ReadExtendedPayloadDataI64

  /** The header under construction; `ext` is the extended payload length. */
  datatype Header = Header(b0: octet, b1: octet, key: quad, ext: nat)

  const ZERO_KEY: quad := [0, 0, 0, 0]
  const ZERO_HEADER: Header := Header(0, 0, ZERO_KEY, 0)

  /** Everything a context holds, as a value. */
  datatype View = View(
    step: Step,
    header: Header,
    dataKind: nibble, data: seq<octet>, dataOffset: nat,
    controlKind: nibble, control: seq<octet>, controlOffset: nat,
    closed: bool,
    log: seq<Event>)

  // ----- specification: contexts as functions of the unfinished octets -----

  predicate IsBody(step: Step) {
    step == ReadPayloadData || step == ReadExtendedPayloadDataU16 || step == ReadExtendedPayloadDataI64
  }

  /** The step that reads the payload of a frame with second header octet `b1`. */
  function BodyStep(b1: octet): Step {
    if ExtSize(b1) == 2 then ReadExtendedPayloadDataU16
    else if ExtSize(b1) == 8 then ReadExtendedPayloadDataI64
    else ReadPayloadData
  }

  function LengthStep(b1: octet): Step {
    if ExtSize(b1) == 2 then ReadExtendedPayloadlenU16
    else if ExtSize(b1) == 8 then ReadExtendedPayloadlenI64
    else ReadMaskingkey
  }

  /** Octets of the current frame already taken from the input buffer at `step`. */
  function Consumed(step: Step, s: seq<octet>): nat {
    if step == ReadFrameHeader || |s| < 2 then 0
    else if IsBody(step) then HeadSize(s)
    else if step == ReadMaskingkey then 2 + ExtSize(s[1])
    else 2
  }

  /** A parser that has been given `s` of the current frame can be at `step`. */
  predicate Fits(step: Step, s: seq<octet>) {
    step != ReadFrameHeader ==>
      && |s| >= 2
      && |s| >= Consumed(step, s)
      && (IsBody(step) ==> step == BodyStep(s[1]))
      && (step == ReadExtendedPayloadlenU16 || step == ReadExtendedPayloadlenI64 ==> step == LengthStep(s[1]))
  }

  function ExtLen(s: seq<octet>): nat
    requires |s| >= 2 && |s| >= 2 + ExtSize(s[1])
  {
    if ExtSize(s[1]) == 0 then 0 else PayloadLen(s)
  }

  function HeaderAt(step: Step, s: seq<octet>): Header
    requires Fits(step, s)
  {
    if step == ReadFrameHeader then ZERO_HEADER
    else if IsBody(step) then Header(s[0], s[1], s[HeadSize(s) - 4..HeadSize(s)], ExtLen(s))
    else if step == ReadMaskingkey then Header(s[0], s[1], ZERO_KEY, ExtLen(s))
    else Header(s[0], s[1], ZERO_KEY, 0)
  }

  /** The context at `step` of the frame `s` begins, with `m` delivered before it. */
  function ViewAt(step: Step, s: seq<octet>, m: Inbox): View
    requires Fits(step, s)
  {
    var op := if step == ReadFrameHeader then CONTINUATION else Opcode(s[0]);
    View(step, HeaderAt(step, s),
         if IsHead(op) then op else m.dataKind, m.data, |m.data|,
         if IsControl(op) then op else m.controlKind, [], 0,
         m.closed, m.log)
  }

  /** The context between two frames. */
  function Between(m: Inbox): View {
    View(ReadFrameHeader, ZERO_HEADER, m.dataKind, m.data, |m.data|, m.controlKind, [], 0, m.closed, m.log)
  }

  /** How far a parser gets with an unfinished frame. */
  function LastStep(s: seq<octet>): (step: Step)
    requires !Complete(s)
    ensures Fits(step, s)
  {
    if |s| < 2 then ReadFrameHeader
    else if |s| < 2 + ExtSize(s[1]) then LengthStep(s[1])
    else if |s| < HeadSize(s) then ReadMaskingkey
    else BodyStep(s[1])
  }

  /** The context after every call, as a function of all octets received. */
  function Settled(received: seq<octet>): View {
    var r := Scan(EMPTY_INBOX, received);
    ViewAt(LastStep(r.tail), r.tail, r.inbox)
  }

  /** The octets left in the input buffer after every call. */
  function Leftover(received: seq<octet>): seq<octet> {
    var r := Scan(EMPTY_INBOX, received);
    r.tail[Consumed(LastStep(r.tail), r.tail)..]
  }

  // ----- the objects -----

  /** The receive buffer handed to the parser. */
  class InputBuffer {
    var data: seq<octet>

    constructor ()
      ensures data == []
    {
      data := [];
    }

    method Append(more: seq<octet>)
      modifies this
      ensures data == old(data) + more
    {
      data := data + more;
    }

    method Retrieve(n: nat)
      requires n <= |data|
      modifies this
      ensures data == old(data)[n..]
    {
      data := data[n..];
    }
  }

  /** A message under assembly. */
  class Message {
    var kind: nibble
    var buffer: seq<octet>
    var segmentOffset: nat

    constructor (kind: nibble)
      ensures this.kind == kind && buffer == [] && segmentOffset == 0
    {
      this.kind, buffer, segmentOffset := kind, [], 0;
    }

    method Reset()
      modifies this
      ensures kind == old(kind) && buffer == [] && segmentOffset == 0
    {
      buffer, segmentOffset := [], 0;
    }

    /** Unmask, in place, the octets appended since the last call. */
    method UnMaskPayloadData(unMask: bool, key: quad) returns (changed: bool)
      requires segmentOffset <= |buffer|
      modifies this
      ensures kind == old(kind)
      ensures changed == (unMask && old(segmentOffset) < |old(buffer)|)
      ensures changed ==> segmentOffset == |buffer|
      ensures changed ==> buffer == old(buffer)[..old(segmentOffset)]
                                    + Unmask(old(segmentOffset), key, old(buffer)[old(segmentOffset)..])
      ensures !changed ==> buffer == old(buffer) && segmentOffset == old(segmentOffset)
    {
      if unMask && |buffer| > 0 && |buffer| > segmentOffset {
        var i := segmentOffset;
        while i < |buffer|
          invariant segmentOffset == old(segmentOffset) <= i <= |buffer| == |old(buffer)|
          invariant kind == old(kind)
          invariant buffer[..segmentOffset] == old(buffer)[..segmentOffset]
          invariant forall j :: segmentOffset <= j < i ==> buffer[j] == Xor(old(buffer)[j], KeyOctet(key, j))
          invariant forall j :: i <= j < |buffer| ==> buffer[j] == old(buffer)[j]
        {
          buffer := buffer[i := Xor(buffer[i], key[i % 4])];
          i := i + 1;
        }
        segmentOffset := |buffer|;
        return true;
      }
      return false;
    }

    /** Move `n` octets from the input buffer to the message and unmask them. */
    method Take(buf: InputBuffer, n: nat, unMask: bool, key: quad, ghost payload: seq<octet>)
      requires unMask && segmentOffset == |buffer|
      requires n <= |buf.data| && buf.data[..n] == payload
      modifies this, buf
      ensures kind == old(kind)
      ensures buffer == old(buffer) + Unmask(|old(buffer)|, key, payload)
      ensures segmentOffset == |buffer|
      ensures buf.data == old(buf.data)[n..]
    {
      buffer := buffer + buf.data[..n];
      buf.Retrieve(n);
      var changed := UnMaskPayloadData(unMask, key);
    }
  }

  class Context {
    var step: Step
    var closed: bool
    var header: Header
    const dataMessage: Message
    const controlMessage: Message
    /** The callbacks made so far, in order. */
    var log: seq<Event>

    ghost predicate Valid()
      reads this
    {
      dataMessage != controlMessage
    }

    ghost function Value(): View
      reads this, dataMessage, controlMessage
    {
      View(step, header,
           dataMessage.kind, dataMessage.buffer, dataMessage.segmentOffset,
           controlMessage.kind, controlMessage.buffer, controlMessage.segmentOffset,
           closed, log)
    }

    /** A connected context: the handshake is over and no frame has been read. */
    constructor ()
      ensures Valid() && fresh(dataMessage) && fresh(controlMessage)
      ensures Value() == Settled([])
    {
      step, closed, header, log := ReadFrameHeader, false, ZERO_HEADER, [];
      dataMessage := new Message(TEXT);
      controlMessage := new Message(CLOSE);
    }

    /** The parser is inside the frame that `s` begins, after delivering `m`. */
    ghost predicate At(buf: InputBuffer, s: seq<octet>, m: Inbox)
      reads this, dataMessage, controlMessage, buf
    {
      && Valid()
      && IsHead(m.dataKind)
      && Accepted(m, s)
      && Fits(step, s)
      && Value() == ViewAt(step, s, m)
      && buf.data == s[Consumed(step, s)..]
    }

    /** The frame that `s` begins has been delivered and the next one is due. */
    ghost predicate Past(buf: InputBuffer, s: seq<octet>, m: Inbox)
      reads this, dataMessage, controlMessage, buf
    {
      && Complete(s)
      && step == ReadFrameHeader
      && At(buf, s[FrameSize(s)..], Deliver(m, FirstFrame(s)))
    }

    /** True for a control frame; the source asserts what this requires. */
    static predicate ControlType(h: Header)
      requires IsControl(Opcode(h.b0)) || IsData(Opcode(h.b0))
      requires IsControl(Opcode(h.b0)) ==> Fin(h.b0)
    {
      IsControl(Opcode(h.b0))
    }

    /** The length field each payload reader asserts, the reader named after its step. */
    static predicate LengthFits(reader: Step, h: Header) {
      match reader
      case ReadPayloadData => Len7(h.b1) < 126
      case ReadExtendedPayloadDataU16 => Len7(h.b1) == 126
      case ReadExtendedPayloadDataI64 => Len7(h.b1) == 127
      case _ => false
    }

    static function RealDatalen(h: Header): nat {
      if Len7(h.b1) >= 126 then h.ext else Len7(h.b1)
    }

    /** Check the header just read and note the kind of message it belongs to. */
    method ValidateMessageFrame()
      requires Valid()
      requires IsHead(Opcode(header.b0)) ==> dataMessage.buffer == []
      requires Opcode(header.b0) == CONTINUATION ==> IsHead(dataMessage.kind)
      requires controlMessage.buffer == []
      modifies dataMessage`kind, controlMessage`kind
      ensures dataMessage.kind == if IsHead(Opcode(header.b0)) then Opcode(header.b0) else old(dataMessage.kind)
      ensures controlMessage.kind ==
              if IsControl(Opcode(header.b0)) then Opcode(header.b0) else old(controlMessage.kind)
    {
      var op := Opcode(header.b0);
      if op == CONTINUATION {
        assert dataMessage.kind == TEXT || dataMessage.kind == BINARY;
      } else if op == TEXT || op == BINARY {
        assert |dataMessage.buffer| == 0;
        dataMessage.kind := op;
      } else if op == CLOSE || op == PING || op == PONG {
        assert |controlMessage.buffer| == 0;
        controlMessage.kind := op;
      }
    }

    /** What a parser about to read the payload of the frame at the front of `s` holds. */
    static lemma BodyFacts(step: Step, s: seq<octet>, m: Inbox)
      requires Fits(step, s) && IsBody(step) && Accepted(m, s)
      ensures var h, left := HeaderAt(step, s), s[Consumed(step, s)..];
              && RealDatalen(h) == PayloadLen(s)
              && Complete(s) == (|left| >= PayloadLen(s))
              && h.b0 == s[0] && Masked(h.b1)
      ensures Complete(s) ==>
              var h, left, f := HeaderAt(step, s), s[Consumed(step, s)..], FirstFrame(s);
              && h.key == f.key && Opcode(h.b0) == f.opcode && Fin(h.b0) == f.fin
              && left[..PayloadLen(s)] == f.payload
              && left[PayloadLen(s)..] == s[FrameSize(s)..]
              && Accepted(Deliver(m, f), s[FrameSize(s)..])
              && (IsControl(f.opcode) ==> f.fin)
              && (!IsControl(f.opcode) ==> IsData(f.opcode))
    {
    }

    /** The three payload readers for data frames; each asserts its own step and length field. */
    method ReadUncontrolPayload(buf: InputBuffer, reader: Step, ghost s: seq<octet>, ghost m: Inbox)
      returns (enough: bool)
      requires At(buf, s, m) && step == reader && IsBody(step)
      requires !IsControl(Opcode(s[0])) || !Complete(s)
      modifies this, dataMessage, buf
      ensures enough == Complete(s)
      ensures if enough then Past(buf, s, m) else At(buf, s, m) && step == old(step)
      ensures |buf.data| == |old(buf.data)| - if enough then PayloadLen(s) else 0
    {
      BodyFacts(step, s, m);
      var n := RealDatalen(header);
      assert LengthFits(reader, header);
      assert step == reader;
      if |buf.data| < n {
        return false;
      }
      ghost var f := FirstFrame(s);
      dataMessage.Take(buf, n, Masked(header.b1), header.key, f.payload);
      assert IsData(Opcode(header.b0));
      if Fin(header.b0) {
        log := log + [Event.Message(dataMessage.kind, dataMessage.buffer)];
        dataMessage.Reset();
        assert |dataMessage.buffer| == 0;
      }
      header := ZERO_HEADER;
      step := ReadFrameHeader;
      return true;
    }

    /**
      The payload readers for control frames.  The one for a 16-bit length asserts
      the step of a short payload, which no context with that length field is at:
      its two call sites are proved unreachable.
     */
    method ReadControlPayload(buf: InputBuffer, reader: Step, ghost s: seq<octet>, ghost m: Inbox)
      returns (enough: bool)
      requires At(buf, s, m) && step == reader && IsBody(step) && reader != ReadExtendedPayloadDataU16
      requires IsControl(Opcode(s[0])) || !Complete(s)
      modifies this, dataMessage, controlMessage, buf
      ensures enough == Complete(s)
      ensures if enough then Past(buf, s, m) else At(buf, s, m) && step == old(step)
      ensures |buf.data| == |old(buf.data)| - if enough then PayloadLen(s) else 0
    {
      BodyFacts(step, s, m);
      var n := RealDatalen(header);
      assert LengthFits(reader, header);
      assert step == reader;
      if |buf.data| < n {
        return false;
      }
      ghost var f := FirstFrame(s);
      controlMessage.Take(buf, n, Masked(header.b1), header.key, f.payload);
      assert controlMessage.buffer == Unmask(0, f.key, f.payload);
      if Fin(header.b0) {
        AnswerControl();
      }
      header := ZERO_HEADER;
      step := ReadFrameHeader;
      assert Value() == Between(Deliver(m, f));
      return true;
    }

    /** A control message is complete: call back, and close after a Close. */
    method AnswerControl()
      requires Valid() && IsControl(Opcode(header.b0)) && Opcode(header.b0) == controlMessage.kind
      modifies this, dataMessage, controlMessage
      ensures step == old(step) && header == old(header) && dataMessage.kind == old(dataMessage.kind)
      ensures controlMessage.kind == old(controlMessage.kind)
      ensures controlMessage.buffer == [] && controlMessage.segmentOffset == 0
      ensures if Opcode(header.b0) == CLOSE then
                && closed && log == old(log) + [Closed(old(controlMessage.buffer)), ForceClose]
                && dataMessage.buffer == [] && dataMessage.segmentOffset == 0
              else
                && closed == old(closed)
                && log == old(log) + [Event.Message(Opcode(header.b0), old(controlMessage.buffer))]
                && dataMessage.buffer == old(dataMessage.buffer)
                && dataMessage.segmentOffset == old(dataMessage.segmentOffset)
    {
      if Opcode(header.b0) == CLOSE {
        log := log + [Closed(controlMessage.buffer), ForceClose];
        dataMessage.Reset();
        assert |dataMessage.buffer| == 0;
        closed := true;
      } else {
        assert Opcode(header.b0) == PING || Opcode(header.b0) == PONG;
        log := log + [Event.Message(controlMessage.kind, controlMessage.buffer)];
      }
      controlMessage.Reset();
      assert |controlMessage.buffer| == 0;
    }

    /** Take the masking key from the input buffer; the step is still to be set. */
    method TakeKey(buf: InputBuffer, ghost s: seq<octet>, ghost m: Inbox)
      requires At(buf, s, m) && step == ReadMaskingkey && |buf.data| >= 4
      modifies this, buf
      ensures Valid() && Fits(BodyStep(s[1]), s)
      ensures Value() == ViewAt(BodyStep(s[1]), s, m).(step := ReadMaskingkey)
      ensures buf.data == s[HeadSize(s)..] && |buf.data| == |old(buf.data)| - 4
    {
      header := header.(key := buf.data[..4]);
      buf.Retrieve(4);
      SliceSlice(s, HeadSize(s) - 4, HeadSize(s));
    }

    method ReadMaskingKey(buf: InputBuffer, ghost s: seq<octet>, ghost m: Inbox) returns (enough: bool)
      requires At(buf, s, m) && step == ReadMaskingkey
      modifies this, dataMessage, controlMessage, buf
      ensures enough ==> Past(buf, s, m)
      ensures !enough ==> At(buf, s, m) && !Complete(s) && step == LastStep(s)
      ensures |buf.data| <= |old(buf.data)|
      ensures enough ==> |buf.data| < |old(buf.data)|
    {
      assert Masked(header.b1);
      assert step == ReadMaskingkey;
      if |buf.data| < 4 {
        return false;
      }
      TakeKey(buf, s, m);
      if Len7(header.b1) == 126 {
        step := ReadExtendedPayloadDataU16;
        if ControlType(header) {
          // Never taken: an accepted control frame has no 16-bit length.
          assert false;
        } else {
          enough := ReadUncontrolPayload(buf, ReadExtendedPayloadDataU16, s, m);
        }
      } else if Len7(header.b1) == 127 {
        step := ReadExtendedPayloadDataI64;
        if ControlType(header) {
          enough := ReadControlPayload(buf, ReadExtendedPayloadDataI64, s, m);
        } else {
          enough := ReadUncontrolPayload(buf, ReadExtendedPayloadDataI64, s, m);
        }
      } else {
        assert Len7(header.b1) < 126;
        step := ReadPayloadData;
        if ControlType(header) {
          enough := ReadControlPayload(buf, ReadPayloadData, s, m);
        } else {
          enough := ReadUncontrolPayload(buf, ReadPayloadData, s, m);
        }
      }
    }

    method ReadLengthU16(buf: InputBuffer, ghost s: seq<octet>, ghost m: Inbox) returns (enough: bool)
      requires At(buf, s, m) && step == ReadExtendedPayloadlenU16
      modifies this, buf
      ensures enough ==> At(buf, s, m) && step == ReadMaskingkey
      ensures !enough ==> At(buf, s, m) && !Complete(s) && step == LastStep(s) == old(step)
      ensures |buf.data| <= |old(buf.data)|
      ensures enough ==> |buf.data| < |old(buf.data)|
    {
      assert Len7(header.b1) == 126;
      if |buf.data| < 2 {
        return false;
      }
      header := header.(ext := Big(buf.data[..2]));
      buf.Retrieve(2);
      assert Masked(header.b1);
      step := ReadMaskingkey;
      assert s[2..][..2] == s[2..4];
      return true;
    }

    method ReadLengthI64(buf: InputBuffer, ghost s: seq<octet>, ghost m: Inbox) returns (enough: bool)
      requires At(buf, s, m) && step == ReadExtendedPayloadlenI64
      modifies this, buf
      ensures enough ==> At(buf, s, m) && step == ReadMaskingkey
      ensures !enough ==> At(buf, s, m) && !Complete(s) && step == LastStep(s) == old(step)
      ensures |buf.data| <= |old(buf.data)|
      ensures enough ==> |buf.data| < |old(buf.data)|
    {
      assert Len7(header.b1) == 127;
      if |buf.data| < 8 {
        return false;
      }
      header := header.(ext := Big(buf.data[..8]));
      buf.Retrieve(8);
      assert Masked(header.b1);
      step := ReadMaskingkey;
      assert s[2..][..8] == s[2..10];
      return true;
    }

    /** Read the two header octets and go on as far as the source does at once. */
    method ReadHeader(buf: InputBuffer, ghost s: seq<octet>, ghost m: Inbox) returns (enough: bool)
      requires At(buf, s, m) && step == ReadFrameHeader
      modifies this, dataMessage, controlMessage, buf
      ensures enough == (|s| >= 2)
      ensures !enough ==> At(buf, s, m) && step == ReadFrameHeader
      ensures enough ==> Past(buf, s, m)
                         || (At(buf, s, m) && step != ReadFrameHeader
                             && (IsBody(step) ==> !Complete(s) && step == ReadPayloadData))
      ensures |buf.data| <= |old(buf.data)|
      ensures enough ==> |buf.data| < |old(buf.data)|
    {
      if |buf.data| < 2 {
        return false;
      }
      header := header.(b0 := buf.data[0], b1 := buf.data[1]);
      buf.Retrieve(2);
      ValidateMessageFrame();
      assert step == ReadFrameHeader;
      var ignored: bool;
      if Len7(header.b1) == 126 {
        step := ReadExtendedPayloadlenU16;
        ignored := ReadLengthU16(buf, s, m);
      } else if Len7(header.b1) == 127 {
        step := ReadExtendedPayloadlenI64;
        ignored := ReadLengthI64(buf, s, m);
      } else {
        assert Len7(header.b1) < 126;
        assert Masked(header.b1);
        step := ReadMaskingkey;
        ignored := ReadMaskingKey(buf, s, m);
      }
      return true;
    }

    /** `control` is what the first octet of the frame that `s` begins says. */
    static predicate Right(control: bool, s: seq<octet>)
      requires |s| > 0
    {
      control == IsControl(Opcode(s[0]))
    }

    /** Read the payload with the reader for the step and the `control` the call started with. */
    method ReadBody(buf: InputBuffer, control: bool, ghost s: seq<octet>, ghost m: Inbox) returns (enough: bool)
      requires At(buf, s, m) && IsBody(step)
      requires Right(control, s) || (step == ReadPayloadData && !Complete(s))
      modifies this, dataMessage, controlMessage, buf
      ensures enough == Complete(s)
      ensures if enough then Past(buf, s, m) else At(buf, s, m) && step == old(step)
      ensures |buf.data| == |old(buf.data)| - if enough then PayloadLen(s) else 0
    {
      if step == ReadPayloadData {
        if control {
          enough := ReadControlPayload(buf, ReadPayloadData, s, m);
        } else {
          enough := ReadUncontrolPayload(buf, ReadPayloadData, s, m);
        }
      } else if step == ReadExtendedPayloadDataU16 {
        if control {
          // Never taken: the control reader would find the wrong step.
          assert false;
        } else {
          enough := ReadUncontrolPayload(buf, ReadExtendedPayloadDataU16, s, m);
        }
      } else {
        if control {
          enough := ReadControlPayload(buf, ReadExtendedPayloadDataI64, s, m);
        } else {
          enough := ReadUncontrolPayload(buf, ReadExtendedPayloadDataI64, s, m);
        }
      }
    }

    /** What holds between iterations of the parser loop. */
    ghost predicate Looping(buf: InputBuffer, control: bool, enough: bool, s: seq<octet>, m: Inbox)
      reads this, dataMessage, controlMessage, buf
    {
      && At(buf, s, m)
      && (IsBody(step) ==> PayloadLen(s) > 0)
      && (IsBody(step) ==> Right(control, s) || (!Complete(s) && (enough ==> step == ReadPayloadData)))
      && (!enough ==> !Complete(s) && step == LastStep(s))
    }

    /** At the start of a call `control` is right for the frame in progress. */
    lemma CallBegins(buf: InputBuffer, s: seq<octet>, m: Inbox)
      requires At(buf, s, m)
      requires IsBody(step) ==> PayloadLen(s) > 0
      ensures IsControl(Opcode(header.b0)) || IsData(Opcode(header.b0))
      ensures IsControl(Opcode(header.b0)) ==> Fin(header.b0)
      ensures Looping(buf, ControlType(header), true, s, m)
    {
    }

    /** A parser with nothing left to read has got as far as it can. */
    lemma Drained(buf: InputBuffer, control: bool, enough: bool, s: seq<octet>, m: Inbox)
      requires Looping(buf, control, enough, s, m)
      requires enough ==> buf.data == []
      ensures Looping(buf, control, false, s, m)
      ensures Scan(m, s) == Scanned(m, s)
    {
      if enough {
        assert |s| == Consumed(step, s);
      }
    }

    /** Delivering the frame at the front of `s` is one step of the whole-stream reading. */
    lemma PastIsLooping(buf: InputBuffer, control: bool, s: seq<octet>, m: Inbox)
      requires Past(buf, s, m)
      ensures Looping(buf, control, true, s[FrameSize(s)..], Deliver(m, FirstFrame(s)))
      ensures Scan(m, s) == Scan(Deliver(m, FirstFrame(s)), s[FrameSize(s)..])
    {
    }

    /** After a reader the loop goes on, in this frame or in the next, or it has to wait. */
    lemma Continues(buf: InputBuffer, control: bool, enough: bool, s: seq<octet>, m: Inbox)
      returns (s': seq<octet>, m': Inbox)
      requires enough ==> Past(buf, s, m)
                          || (At(buf, s, m) && step != ReadFrameHeader
                              && (IsBody(step) ==> !Complete(s) && step == ReadPayloadData))
      requires !enough ==> At(buf, s, m) && !Complete(s) && step == LastStep(s)
      ensures Looping(buf, control, enough, s', m') && Scan(m', s') == Scan(m, s)
    {
      s', m' := s, m;
      if enough && step == ReadFrameHeader {
        PastIsLooping(buf, control, s, m);
        s', m' := s[FrameSize(s)..], Deliver(m, FirstFrame(s));
      }
    }

    /** One iteration: it takes an octet from the buffer or ends the loop. */
    method ParseStep(buf: InputBuffer, control: bool, ghost s: seq<octet>, ghost m: Inbox)
      returns (enough: bool, ghost s': seq<octet>, ghost m': Inbox)
      requires Looping(buf, control, true, s, m) && |buf.data| > 0
      modifies this, dataMessage, controlMessage, buf
      ensures |buf.data| <= |old(buf.data)|
      ensures enough ==> |buf.data| < |old(buf.data)|
      ensures Looping(buf, control, enough, s', m') && Scan(m', s') == Scan(m, s)
    {
      match step {
        case ReadFrameHeader =>
          enough := ReadHeader(buf, s, m);
        case ReadExtendedPayloadlenU16 =>
          enough := ReadLengthU16(buf, s, m);
        case ReadExtendedPayloadlenI64 =>
          enough := ReadLengthI64(buf, s, m);
        case ReadMaskingkey =>
          enough := ReadMaskingKey(buf, s, m);
        case _ =>
          enough := ReadBody(buf, control, s, m);
      }
      s', m' := Continues(buf, control, enough, s, m);
    }

    /**
      Work off the input buffer.  `control` is computed once, before the loop, from
      the header left by the previous call; `Looping` shows that a stale value only
      ever meets a short payload of which too little has arrived.
     */
    method ParseFrame(buf: InputBuffer, ghost s0: seq<octet>, ghost m0: Inbox)
      requires At(buf, s0, m0)
      requires IsBody(step) ==> PayloadLen(s0) > 0
      modifies this, dataMessage, controlMessage, buf
      ensures var r := Scan(m0, s0);
              && At(buf, r.tail, r.inbox)
              && step == LastStep(r.tail)
    {
      CallBegins(buf, s0, m0);
      var control := ControlType(header);
      var enough := true;
      ghost var s, m := s0, m0;
      while enough && |buf.data| > 0
        invariant Looping(buf, control, enough, s, m)
        invariant Scan(m, s) == Scan(m0, s0)
        decreases |buf.data|, enough
      {
        enough, s, m := ParseStep(buf, control, s, m);
      }
      Drained(buf, control, enough, s, m);
    }

    /**
      One arrival: the caller has appended `chunk` to what earlier calls left over.
      Whatever the cut points were, the outcome is that of reading all octets at once.
     */
    method ParseMessageFrame(buf: InputBuffer, ghost received: seq<octet>, ghost chunk: seq<octet>)
      requires Valid() && Value() == Settled(received)
      requires buf.data == Leftover(received) + chunk
      requires Accepted(EMPTY_INBOX, received + chunk)
      requires !closed
      modifies this, dataMessage, controlMessage, buf
      ensures Valid() && Value() == Settled(received + chunk)
      ensures buf.data == Leftover(received + chunk)
    {
      ghost var r := Scan(EMPTY_INBOX, received);
      ScanKeepsKind(EMPTY_INBOX, received);
      ScanResumes(EMPTY_INBOX, received, chunk);
      AcceptedResumes(EMPTY_INBOX, received, chunk);
      TailGrows(r.tail, chunk, r.inbox);
      ParseFrame(buf, r.tail + chunk, r.inbox);
    }

    /** One arrival, from the socket to the parser. */
    method Arrive(buf: InputBuffer, ghost received: seq<octet>, chunk: seq<octet>)
      requires Valid() && Value() == Settled(received) && !closed
      requires buf.data == Leftover(received)
      requires Accepted(EMPTY_INBOX, received + chunk)
      modifies this, dataMessage, controlMessage, buf
      ensures Valid() && Value() == Settled(received + chunk)
      ensures buf.data == Leftover(received + chunk)
    {
      buf.Append(chunk);
      ParseMessageFrame(buf, received, chunk);
    }

    /** What a waiting parser has read of the current frame is not changed by more octets. */
    static lemma HeadGrows(tail: seq<octet>, chunk: seq<octet>, step: Step)
      requires Fits(step, tail)
      ensures var s := tail + chunk;
              && Fits(step, s) && HeaderAt(step, s) == HeaderAt(step, tail) && Consumed(step, s) == Consumed(step, tail)
              && (step != ReadFrameHeader ==> s[0] == tail[0] && s[1] == tail[1])
              && (IsBody(step) ==> PayloadLen(s) == PayloadLen(tail))
    {
      if step != ReadFrameHeader {
        var e := ExtSize(tail[1]);
        assert (tail + chunk)[1] == tail[1];
        if |tail| >= 2 + e {
          SliceOfPrefix(tail, chunk, 2, 2 + e);
          if IsBody(step) {
            SliceOfPrefix(tail, chunk, 2 + e, 6 + e);
          }
        }
      }
    }

    /** More octets do not move a waiting parser by themselves. */
    static lemma TailGrows(tail: seq<octet>, chunk: seq<octet>, m: Inbox)
      requires !Complete(tail)
      ensures var step, s := LastStep(tail), tail + chunk;
              && Fits(step, s)
              && ViewAt(step, s, m) == ViewAt(step, tail, m)
              && s[Consumed(step, s)..] == tail[Consumed(step, tail)..] + chunk
              && (IsBody(step) ==> PayloadLen(s) > 0)
    {
      var step := LastStep(tail);
      HeadGrows(tail, chunk, step);
      DropOfConcat(tail, chunk, Consumed(step, tail));
    }
  }

  /** A stream cut before and after one piece. */
  lemma CutAround(chunks: seq<seq<octet>>, i: nat) returns (rest: seq<octet>)
    requires i < |chunks|
    ensures Concat(chunks[..i + 1]) == Concat(chunks[..i]) + chunks[i]
    ensures Concat(chunks) == Concat(chunks[..i]) + chunks[i] + rest
  {
    assert chunks[..i + 1][..i] == chunks[..i];
    rest := ConcatPrefix(chunks, i + 1);
  }

  /** Acceptance and openness at a cut point of an accepted stream. */
  lemma CutAccepted(all: seq<octet>, received: seq<octet>, chunk: seq<octet>, rest: seq<octet>)
    requires all == received + chunk + rest && chunk != [] && Accepted(EMPTY_INBOX, all)
    ensures Accepted(EMPTY_INBOX, received + chunk) && !Settled(received).closed
  {
    AcceptedResumes(EMPTY_INBOX, received + chunk, rest);
    AcceptedResumes(EMPTY_INBOX, received, chunk);
  }

  /** Context and buffer are what the octets received make of them. */
  ghost predicate Holds(ctx: Context, buf: InputBuffer, received: seq<octet>)
    reads ctx, ctx.dataMessage, ctx.controlMessage, buf
  {
    ctx.Valid() && ctx.Value() == Settled(received) && buf.data == Leftover(received)
  }

  method ReceiveNext(ctx: Context, buf: InputBuffer, chunks: seq<seq<octet>>, i: nat)
    requires i < |chunks| && chunks[i] != [] && Accepted(EMPTY_INBOX, Concat(chunks))
    requires Holds(ctx, buf, Concat(chunks[..i]))
    modifies ctx, ctx.dataMessage, ctx.controlMessage, buf
    ensures Holds(ctx, buf, Concat(chunks[..i + 1]))
  {
    ghost var rest := CutAround(chunks, i);
    CutAccepted(Concat(chunks), Concat(chunks[..i]), chunks[i], rest);
    ctx.Arrive(buf, Concat(chunks[..i]), chunks[i]);
  }

  /**
    Resumability.  A client stream arrives in any number of non-empty pieces, cut
    anywhere.  The callbacks and the final context are functions of the stream
    alone: the cut points cannot be told from the outcome.
   */
  method Receive(chunks: seq<seq<octet>>) returns (ctx: Context, buf: InputBuffer)
    requires forall i :: 0 <= i < |chunks| ==> chunks[i] != []
    requires Accepted(EMPTY_INBOX, Concat(chunks))
    ensures ctx.Valid() && ctx.Value() == Settled(Concat(chunks))
    ensures buf.data == Leftover(Concat(chunks))
  {
    ctx := new Context();
    buf := new InputBuffer();
    for i := 0 to |chunks|
      invariant fresh(ctx) && fresh(buf) && fresh(ctx.dataMessage) && fresh(ctx.controlMessage)
      invariant Holds(ctx, buf, Concat(chunks[..i]))
    {
      ReceiveNext(ctx, buf, chunks, i);
    }
    assert chunks[..|chunks|] == chunks;
  }
}
