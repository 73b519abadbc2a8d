/**
  What a sequence of frames means: the reference semantics of sections 5.3 to
  5.5 of RFC 6455 as the receiver of libwebsocket carries them out, one frame at
  a time, with no notion of buffers, steps or cut points.
 */
module Delivery {
  import opened Octets
  import opened Wire

  /** What the receiver hands to its callback handler. */
  datatype Event =
    | Message(kind: nibble, body: seq<octet>)
    | Closed(body: seq<octet>)
    | ForceClose

  /** The messages under assembly, and everything delivered so far. */
  datatype Inbox = Inbox(
    dataKind: nibble,
    data: seq<octet>,
    controlKind: nibble,
    closed: bool,
    log: seq<Event>)

  const EMPTY_INBOX: Inbox := Inbox(TEXT, [], CLOSE, false, [])

  /** Payload octet `i` unmasked as if it stood at message offset `offset + i`. */
  function Unmask(offset: nat, key: quad, payload: seq<octet>): (r: seq<octet>)
    ensures |r| == |payload|
    ensures forall i :: 0 <= i < |r| ==> r[i] == Xor(payload[i], KeyOctet(key, offset + i))
  {
    seq(|payload|, i requires 0 <= i < |payload| => Xor(payload[i], KeyOctet(key, offset + i)))
  }

  /** The effect of one whole frame. */
  function Deliver(m: Inbox, f: Frame): Inbox {
    if IsControl(f.opcode) then
      var body := Unmask(0, f.key, f.payload);
      var m' := m.(controlKind := f.opcode);
      if f.opcode == CLOSE then m'.(data := [], closed := true, log := m.log + [Closed(body), ForceClose])
      else m'.(log := m.log + [Message(f.opcode, body)])
    else
      var kind := if IsHead(f.opcode) then f.opcode else m.dataKind;
      var data := m.data + Unmask(|m.data|, f.key, f.payload);
      if f.fin then m.(dataKind := kind, data := [], log := m.log + [Message(kind, data)])
      else m.(dataKind := kind, data := data)
  }

  /** What the receiver demands of a frame header: its assertions, for a masked frame. */
  predicate HeaderAccepted(b0: octet, b1: octet, dataEmpty: bool) {
    && Masked(b1)
    && (IsControl(Opcode(b0)) || IsData(Opcode(b0)))
    && (IsControl(Opcode(b0)) ==> Fin(b0) && Len7(b1) != 126)
    && (IsHead(Opcode(b0)) ==> dataEmpty)
  }

  /** `s` is acceptable as the next octets for `m`; nothing may follow a Close frame. */
  predicate Accepted(m: Inbox, s: seq<octet>)
    decreases |s|
  {
    && (m.closed ==> s == [])
    && (|s| >= 2 ==> HeaderAccepted(s[0], s[1], m.data == []))
    && (Complete(s) ==> Accepted(Deliver(m, FirstFrame(s)), s[FrameSize(s)..]))
  }

  datatype Scanned = Scanned(inbox: Inbox, tail: seq<octet>)

  /** Deliver every whole frame of `s`; `tail` is the unfinished rest. */
  function Scan(m: Inbox, s: seq<octet>): (r: Scanned)
    ensures !Complete(r.tail)
    decreases |s|
  {
    if Complete(s) then Scan(Deliver(m, FirstFrame(s)), s[FrameSize(s)..]) else Scanned(m, s)
  }

  /** The message under assembly is a text or a binary one, whatever has been delivered. */
  lemma {:induction false} ScanKeepsKind(m: Inbox, s: seq<octet>)
    requires IsHead(m.dataKind)
    ensures IsHead(Scan(m, s).inbox.dataKind)
    decreases |s|
  {
    if Complete(s) {
      ScanKeepsKind(Deliver(m, FirstFrame(s)), s[FrameSize(s)..]);
    }
  }

  /** Whole-stream reading may be stopped anywhere and resumed from its tail. */
  lemma {:induction false} ScanResumes(m: Inbox, s: seq<octet>, t: seq<octet>)
    ensures var r := Scan(m, s); Scan(m, s + t) == Scan(r.inbox, r.tail + t)
    decreases |s|
  {
    if Complete(s) {
      CompleteExtends(s, t);
      ScanResumes(Deliver(m, FirstFrame(s)), s[FrameSize(s)..], t);
    }
  }

  /** What is still to be accepted after the whole frames of `s` have been delivered. */
  lemma {:induction false} AcceptedResumes(m: Inbox, s: seq<octet>, t: seq<octet>)
    requires Accepted(m, s + t)
    ensures Accepted(m, s)
    ensures var r := Scan(m, s); Accepted(r.inbox, r.tail + t)
    decreases |s|
  {
    if Complete(s) {
      CompleteExtends(s, t);
      AcceptedResumes(Deliver(m, FirstFrame(s)), s[FrameSize(s)..], t);
    }
  }
}
