/**
  Client sessions: legal frame sequences (sections 5.1, 5.4 and 5.5 of RFC 6455),
  messages split into masked fragments, and what the receiver makes of them.
 */
module Sessions {
  import opened Sequences
  import opened Octets
  import opened Wire
  import opened Delivery
  import opened Parser

  // ----- frame sequences -----

  function EncodeAll(fs: seq<Frame>): seq<octet>
  {
    if fs == [] then [] else Encode(fs[0]) + EncodeAll(fs[1..])
  }

  function DeliverAll(m: Inbox, fs: seq<Frame>): Inbox
    decreases |fs|
  {
    if fs == [] then m else DeliverAll(Deliver(m, fs[0]), fs[1..])
  }

  /**
    What RFC 6455 allows a client to send; `open` says that a fragmented message
    has been begun and not finished.
   */
  ghost predicate RfcLegal(open: bool, fs: seq<Frame>)
    decreases |fs|
  {
    fs == [] ||
    var f := fs[0];
    && Encodable(f)
    && 2 * |f.payload| < Pow(256, 8)
    && if IsControl(f.opcode) then
         && f.fin && |f.payload| <= 125
         && (f.opcode == CLOSE ==> |fs| == 1)
         && RfcLegal(open, fs[1..])
       else
         && IsData(f.opcode)
         && open == (f.opcode == CONTINUATION)
         && RfcLegal(!f.fin, fs[1..])
  }

  lemma EncodedHeader(f: Frame, rest: seq<octet>)
    requires Encodable(f)
    ensures var s := Encode(f) + rest;
            && |s| >= 2
            && Opcode(s[0]) == f.opcode && Fin(s[0]) == f.fin && Masked(s[1])
            && (|f.payload| <= 125 ==> Len7(s[1]) < 126)
  {
  }

  /** A legal session is accepted, read to its last octet, and means `DeliverAll`. */
  lemma {:induction false} LegalSessionAccepted(open: bool, fs: seq<Frame>, m: Inbox)
    requires RfcLegal(open, fs)
    requires !m.closed && (!open ==> m.data == [])
    ensures Accepted(m, EncodeAll(fs))
    ensures Scan(m, EncodeAll(fs)) == Scanned(DeliverAll(m, fs), [])
    decreases |fs|
  {
    if fs != [] {
      var f, rest := fs[0], EncodeAll(fs[1..]);
      EncodeRoundTrip(f, rest);
      EncodedHeader(f, rest);
      if |fs| == 1 {
        assert fs[1..] == [];
      } else {
        LegalSessionAccepted(if IsControl(f.opcode) then open else !f.fin, fs[1..], Deliver(m, f));
      }
    }
  }

  // ----- interleaved control frames -----

  predicate IsDataEvent(e: Event) { e.Message? && !IsControl(e.kind) }

  function DataEvents(log: seq<Event>): seq<Event> {
    if log == [] then []
    else DataEvents(log[..|log| - 1]) + if IsDataEvent(log[|log| - 1]) then [log[|log| - 1]] else []
  }

  function ControlEvents(log: seq<Event>): seq<Event> {
    if log == [] then []
    else ControlEvents(log[..|log| - 1]) + if IsDataEvent(log[|log| - 1]) then [] else [log[|log| - 1]]
  }

  lemma EventsOfAppend(log: seq<Event>, e: Event)
    ensures DataEvents(log + [e]) == DataEvents(log) + if IsDataEvent(e) then [e] else []
    ensures ControlEvents(log + [e]) == ControlEvents(log) + if IsDataEvent(e) then [] else [e]
  {
    assert (log + [e])[..|log|] == log;
  }

  function DataFrames(fs: seq<Frame>): seq<Frame> {
    if fs == [] then []
    else (if IsControl(fs[0].opcode) then [] else [fs[0]]) + DataFrames(fs[1..])
  }

  function ControlFrames(fs: seq<Frame>): seq<Frame> {
    if fs == [] then []
    else (if IsControl(fs[0].opcode) then [fs[0]] else []) + ControlFrames(fs[1..])
  }

  /** Two inboxes that agree on everything a data frame can see. */
  predicate SameData(a: Inbox, b: Inbox) {
    && DataEvents(a.log) == DataEvents(b.log)
    && a.dataKind == b.dataKind && !IsControl(a.dataKind)
    && a.data == b.data
  }

  lemma ControlFrameKeepsData(m: Inbox, f: Frame)
    requires IsControl(f.opcode)
    ensures DataEvents(Deliver(m, f).log) == DataEvents(m.log)
    ensures Deliver(m, f).dataKind == m.dataKind
    ensures f.opcode != CLOSE ==> Deliver(m, f).data == m.data
  {
    var body := Unmask(0, f.key, f.payload);
    if f.opcode == CLOSE {
      EventsOfAppend(m.log, Closed(body));
      EventsOfAppend(m.log + [Closed(body)], ForceClose);
      assert m.log + [Closed(body), ForceClose] == m.log + [Closed(body)] + [ForceClose];
    } else {
      EventsOfAppend(m.log, Event.Message(f.opcode, body));
    }
  }

  lemma DataFrameKeepsControl(m: Inbox, f: Frame)
    requires !IsControl(f.opcode) && !IsControl(m.dataKind)
    ensures ControlEvents(Deliver(m, f).log) == ControlEvents(m.log)
    ensures Deliver(m, f).controlKind == m.controlKind
    ensures Deliver(m, f).closed == m.closed
    ensures !IsControl(Deliver(m, f).dataKind)
  {
    var kind := if IsHead(f.opcode) then f.opcode else m.dataKind;
    EventsOfAppend(m.log, Event.Message(kind, m.data + Unmask(|m.data|, f.key, f.payload)));
  }

  /** A data frame acts alike on inboxes that agree on data. */
  lemma DataFrameSameData(a: Inbox, b: Inbox, f: Frame)
    requires !IsControl(f.opcode) && SameData(a, b)
    ensures SameData(Deliver(a, f), Deliver(b, f))
  {
    var kind := if IsHead(f.opcode) then f.opcode else a.dataKind;
    var e := Event.Message(kind, a.data + Unmask(|a.data|, f.key, f.payload));
    EventsOfAppend(a.log, e);
    EventsOfAppend(b.log, e);
  }

  /**
    Interleaved control frames never alter a data message: striking them out
    changes neither the data messages delivered nor the one under assembly.
   */
  lemma {:induction false} ControlFramesDoNotInterfere(open: bool, fs: seq<Frame>, a: Inbox, b: Inbox)
    requires RfcLegal(open, fs) && SameData(a, b)
    ensures var a', b' := DeliverAll(a, fs), DeliverAll(b, DataFrames(fs));
            && DataEvents(a'.log) == DataEvents(b'.log)
            && (a'.closed || a.closed || SameData(a', b'))
    decreases |fs|
  {
    if fs != [] {
      var f := fs[0];
      if IsControl(f.opcode) {
        ControlFrameKeepsData(a, f);
        if f.opcode == CLOSE {
          assert fs[1..] == [];
        } else {
          ControlFramesDoNotInterfere(open, fs[1..], Deliver(a, f), b);
        }
        assert DataFrames(fs) == DataFrames(fs[1..]);
      } else {
        DataFrameSameData(a, b, f);
        ControlFramesDoNotInterfere(!f.fin, fs[1..], Deliver(a, f), Deliver(b, f));
        assert DataFrames(fs)[0] == f && DataFrames(fs)[1..] == DataFrames(fs[1..]);
      }
    }
  }

  function Reply(f: Frame): seq<Event> {
    var body := Unmask(0, f.key, f.payload);
    if f.opcode == CLOSE then [Closed(body), ForceClose] else [Event.Message(f.opcode, body)]
  }

  function ControlReplies(fs: seq<Frame>): seq<Event> {
    if fs == [] then [] else Reply(fs[0]) + ControlReplies(fs[1..])
  }

  lemma ControlFrameAnswered(m: Inbox, f: Frame)
    requires IsControl(f.opcode)
    ensures ControlEvents(Deliver(m, f).log) == ControlEvents(m.log) + Reply(f)
    ensures Deliver(m, f).dataKind == m.dataKind
  {
    var body := Unmask(0, f.key, f.payload);
    if f.opcode == CLOSE {
      EventsOfAppend(m.log, Closed(body));
      EventsOfAppend(m.log + [Closed(body)], ForceClose);
      assert m.log + [Closed(body), ForceClose] == m.log + [Closed(body)] + [ForceClose];
    } else {
      EventsOfAppend(m.log, Event.Message(f.opcode, body));
    }
  }

  /** The replies due to the frames of a session: those to its first frame, then the rest. */
  lemma RepliesDue(fs: seq<Frame>)
    requires fs != []
    ensures ControlReplies(ControlFrames(fs))
         == (if IsControl(fs[0].opcode) then Reply(fs[0]) else []) + ControlReplies(ControlFrames(fs[1..]))
  {
    if IsControl(fs[0].opcode) {
      assert ControlFrames(fs)[1..] == ControlFrames(fs[1..]);
    } else {
      assert ControlFrames(fs) == ControlFrames(fs[1..]);
    }
  }

  /** Each control frame is answered once, in order, wherever it was inserted. */
  lemma {:induction false} ControlFramesAnswered(fs: seq<Frame>, m: Inbox)
    requires !IsControl(m.dataKind)
    ensures ControlEvents(DeliverAll(m, fs).log) == ControlEvents(m.log) + ControlReplies(ControlFrames(fs))
    decreases |fs|
  {
    if fs == [] {
      assert ControlEvents(m.log) + [] == ControlEvents(m.log);
    } else {
      var f := fs[0];
      var later := ControlReplies(ControlFrames(fs[1..]));
      RepliesDue(fs);
      if IsControl(f.opcode) {
        ControlFrameAnswered(m, f);
        Assoc(ControlEvents(m.log), Reply(f), later);
      } else {
        DataFrameKeepsControl(m, f);
        assert [] + later == later;
      }
      ControlFramesAnswered(fs[1..], Deliver(m, f));
    }
  }

  // ----- messages -----

  /** A fragment as the client has it: plain text and the key it will mask with. */
  datatype Fragment = Fragment(key: quad, plain: seq<octet>)

  /** A message of one fragment or more. */
  datatype Sent = Sent(kind: nibble, fragments: seq<Fragment>)

  ghost predicate Sendable(msg: Sent) {
    && IsHead(msg.kind)
    && msg.fragments != []
  }

  /** Masking of section 5.3 of RFC 6455: the key counts from the start of the frame. */
  function Mask(g: Fragment): (r: seq<octet>)
    ensures |r| == |g.plain|
    ensures forall i :: 0 <= i < |r| ==> r[i] as bv8 == (g.plain[i] as bv8) ^ (g.key[i % 4] as bv8)
  {
    var r := seq(|g.plain|, i requires 0 <= i < |g.plain| => MaskOctet(g.plain[i], g.key[i % 4]));
    assert forall i :: 0 <= i < |r| ==> r[i] == MaskOctet(g.plain[i], g.key[i % 4]);
    r
  }

  function MaskOctet(plain: octet, key: octet): (r: octet)
    ensures r as bv8 == (plain as bv8) ^ (key as bv8)
  {
    BitsAsOctet((plain as bv8) ^ (key as bv8));
    ((plain as bv8) ^ (key as bv8)) as octet
  }

  /** An octet is determined by its bits. */
  lemma MaskedOctet(g: Fragment, i: nat)
    requires i < |g.plain|
    ensures Mask(g)[i] == Xor(g.plain[i], KeyOctet(g.key, i))
  {
    OctetAsBits(Mask(g)[i]);
  }

  /** The frames of the fragments from `i` on. */
  function FramesFrom(msg: Sent, i: nat): (fs: seq<Frame>)
    requires i <= |msg.fragments|
    decreases |msg.fragments| - i
  {
    if i == |msg.fragments| then []
    else
      var g := msg.fragments[i];
      [Frame(i + 1 == |msg.fragments|, if i == 0 then msg.kind else CONTINUATION, g.key, Mask(g))]
      + FramesFrom(msg, i + 1)
  }

  function Plain(fragments: seq<Fragment>): seq<octet> {
    if fragments == [] then [] else Plain(fragments[..|fragments| - 1]) + fragments[|fragments| - 1].plain
  }

  /** The message body the receiver assembles. */
  function Assembled(fragments: seq<Fragment>): (r: seq<octet>)
    ensures |r| == |Plain(fragments)|
  {
    if fragments == [] then []
    else
      var g := fragments[|fragments| - 1];
      var before := Assembled(fragments[..|fragments| - 1]);
      before + Unmask(|before|, g.key, Mask(g))
  }

  /** The key reads the same from message offset `offset` as from zero, over `n` octets. */
  predicate KeyTurns(key: quad, offset: nat, n: nat) {
    forall i :: 0 <= i < 4 && i < n ==> KeyOctet(key, offset + i) == KeyOctet(key, i)
  }

  lemma KeyPeriod(key: quad, offset: nat, i: nat)
    ensures KeyOctet(key, i) == KeyOctet(key, i % 4)
    ensures KeyOctet(key, offset + i) == KeyOctet(key, offset + i % 4)
  {
  }

  lemma AlignedOctet(key: quad, offset: nat, i: nat)
    requires offset % 4 == 0
    ensures KeyOctet(key, offset + i) == KeyOctet(key, i)
  {
  }

  lemma UnmaskOctet(offset: nat, g: Fragment, i: nat)
    requires i < |g.plain|
    ensures Unmask(offset, g.key, Mask(g))[i] == g.plain[i]
            <==> KeyOctet(g.key, offset + i) == KeyOctet(g.key, i)
  {
    MaskedOctet(g, i);
    XorTwice(g.plain[i], KeyOctet(g.key, i));
    XorInjective(Mask(g)[i], KeyOctet(g.key, offset + i), KeyOctet(g.key, i));
  }

  lemma KeyTurnsEverywhere(key: quad, offset: nat, n: nat, i: nat)
    requires KeyTurns(key, offset, n) && i < n
    ensures KeyOctet(key, offset + i) == KeyOctet(key, i)
  {
    KeyPeriod(key, offset, i);
    assert KeyOctet(key, offset + i % 4) == KeyOctet(key, i % 4);
  }

  lemma TurningUnmasks(offset: nat, g: Fragment)
    requires KeyTurns(g.key, offset, |g.plain|)
    ensures Unmask(offset, g.key, Mask(g)) == g.plain
  {
    forall i | 0 <= i < |g.plain|
      ensures Unmask(offset, g.key, Mask(g))[i] == g.plain[i]
    {
      UnmaskOctet(offset, g, i);
      KeyTurnsEverywhere(g.key, offset, |g.plain|, i);
    }
  }

  lemma UnmaskedTurns(offset: nat, g: Fragment)
    requires Unmask(offset, g.key, Mask(g)) == g.plain
    ensures KeyTurns(g.key, offset, |g.plain|)
  {
    forall i | 0 <= i < 4 && i < |g.plain|
      ensures KeyOctet(g.key, offset + i) == KeyOctet(g.key, i)
    {
      UnmaskOctet(offset, g, i);
    }
  }

  lemma AlignedTurns(key: quad, offset: nat, n: nat)
    requires offset % 4 == 0
    ensures KeyTurns(key, offset, n)
  {
    forall i | 0 <= i < 4 && i < n
      ensures KeyOctet(key, offset + i) == KeyOctet(key, i)
    {
      AlignedOctet(key, offset, i);
    }
  }

  /** Unmasking by message offset undoes masking by frame offset exactly when the key turns. */
  lemma UnmaskUndoesMask(offset: nat, g: Fragment)
    ensures Unmask(offset, g.key, Mask(g)) == g.plain <==> KeyTurns(g.key, offset, |g.plain|)
    ensures offset % 4 == 0 ==> KeyTurns(g.key, offset, |g.plain|)
  {
    if KeyTurns(g.key, offset, |g.plain|) {
      TurningUnmasks(offset, g);
    } else if Unmask(offset, g.key, Mask(g)) == g.plain {
      UnmaskedTurns(offset, g);
    }
    if offset % 4 == 0 {
      AlignedTurns(g.key, offset, |g.plain|);
    }
  }

  /** Every fragment starts where its key turns, for instance at a multiple of four. */
  ghost predicate Turning(fragments: seq<Fragment>)
  {
    forall i :: 0 <= i < |fragments| ==>
      KeyTurns(fragments[i].key, |Plain(fragments[..i])|, |fragments[i].plain|)
  }

  lemma TurningStep(fragments: seq<Fragment>)
    requires fragments != []
    ensures var last := |fragments| - 1;
            Turning(fragments) <==>
            Turning(fragments[..last])
            && KeyTurns(fragments[last].key, |Plain(fragments[..last])|, |fragments[last].plain|)
  {
    var last := |fragments| - 1;
    assert forall i :: 0 <= i <= last ==> fragments[..last][..i] == fragments[..i];
  }

  /** The body assembled is the body sent if and only if every fragment turns. */
  lemma {:induction false} AssembledIntact(fragments: seq<Fragment>)
    ensures Assembled(fragments) == Plain(fragments) <==> Turning(fragments)
  {
    if fragments != [] {
      var last := |fragments| - 1;
      var g, front := fragments[last], fragments[..last];
      var a := Assembled(front);
      AssembledIntact(front);
      UnmaskUndoesMask(|a|, g);
      ConcatEqual(a, Unmask(|a|, g.key, Mask(g)), Plain(front), g.plain);
      TurningStep(fragments);
    }
  }

  /** A message in two fragments survives exactly when the second one turns. */
  lemma TwoFragmentsIntact(g: Fragment, h: Fragment)
    ensures Assembled([g, h]) == Plain([g, h]) <==> KeyTurns(h.key, |g.plain|, |h.plain|)
  {
    var gs := [g, h];
    AssembledIntact(gs);
    TurningStep(gs);
    assert gs[..1] == [g];
    TurningStep([g]);
    assert [g][..0] == [];
    assert Plain([]) == [];
    assert Plain([g]) == g.plain;
    UnmaskUndoesMask(0, g);
  }

  /** Two fragments of one octet each, as a client may send them, arrive damaged. */
  lemma FragmentsCanArriveDamaged()
    ensures var msg := Sent(TEXT, [Fragment([1, 2, 3, 4], [65]), Fragment([1, 2, 3, 4], [66])]);
            Sendable(msg) && Assembled(msg.fragments) != Plain(msg.fragments)
  {
    TwoFragmentsIntact(Fragment([1, 2, 3, 4], [65]), Fragment([1, 2, 3, 4], [66]));
    var key: quad := [1, 2, 3, 4];
    assert KeyOctet(key, 1 + 0) != KeyOctet(key, 0);
  }

  /** The fragments from `i` on, on top of an inbox that holds the earlier ones. */
  lemma {:induction false} FragmentsDelivered(msg: Sent, i: nat, m: Inbox)
    requires Sendable(msg) && i < |msg.fragments|
    requires m.data == Assembled(msg.fragments[..i])
    requires i > 0 ==> m.dataKind == msg.kind
    ensures DeliverAll(m, FramesFrom(msg, i))
         == m.(dataKind := msg.kind, data := [], log := m.log + [Event.Message(msg.kind, Assembled(msg.fragments))])
    decreases |msg.fragments| - i
  {
    var fs := FramesFrom(msg, i);
    assert msg.fragments[..i + 1][..i] == msg.fragments[..i];
    assert fs[1..] == FramesFrom(msg, i + 1);
    if i + 1 == |msg.fragments| {
      assert msg.fragments[..i + 1] == msg.fragments;
    } else {
      FragmentsDelivered(msg, i + 1, Deliver(m, fs[0]));
    }
  }

  function AllFrames(msgs: seq<Sent>): (fs: seq<Frame>)
  {
    if msgs == [] then [] else FramesFrom(msgs[0], 0) + AllFrames(msgs[1..])
  }

  /** One delivery per message: its kind and its fragments in order. */
  function Bodies(msgs: seq<Sent>): (r: seq<Event>)
    ensures |r| == |msgs|
  {
    seq(|msgs|, i requires 0 <= i < |msgs| => Event.Message(msgs[i].kind, Assembled(msgs[i].fragments)))
  }

  lemma {:induction false} DeliverAllAppend(m: Inbox, fs: seq<Frame>, gs: seq<Frame>)
    ensures DeliverAll(m, fs + gs) == DeliverAll(DeliverAll(m, fs), gs)
    decreases |fs|
  {
    if fs == [] {
      assert fs + gs == gs;
    } else {
      assert (fs + gs)[1..] == fs[1..] + gs;
      DeliverAllAppend(Deliver(m, fs[0]), fs[1..], gs);
    }
  }

  lemma FirstMessageDelivered(msgs: seq<Sent>, m: Inbox)
    requires msgs != [] && Sendable(msgs[0]) && m.data == []
    ensures var m' := DeliverAll(m, FramesFrom(msgs[0], 0));
            && m'.data == []
            && DataEvents(m'.log) == DataEvents(m.log) + [Event.Message(msgs[0].kind, Assembled(msgs[0].fragments))]
            && DeliverAll(m, AllFrames(msgs)) == DeliverAll(m', AllFrames(msgs[1..]))
  {
    FragmentsDelivered(msgs[0], 0, m);
    DeliverAllAppend(m, FramesFrom(msgs[0], 0), AllFrames(msgs[1..]));
    EventsOfAppend(m.log, Event.Message(msgs[0].kind, Assembled(msgs[0].fragments)));
  }

  ghost predicate AllSendable(msgs: seq<Sent>) {
    forall i :: 0 <= i < |msgs| ==> Sendable(msgs[i])
  }

  lemma FirstBody(msgs: seq<Sent>, before: seq<Event>)
    requires msgs != []
    ensures before + [Event.Message(msgs[0].kind, Assembled(msgs[0].fragments))] + Bodies(msgs[1..])
         == before + Bodies(msgs)
  {
    var e := Event.Message(msgs[0].kind, Assembled(msgs[0].fragments));
    assert Bodies(msgs) == [e] + Bodies(msgs[1..]);
    Assoc(before, [e], Bodies(msgs[1..]));
  }

  lemma {:induction false} MessagesDelivered(msgs: seq<Sent>, m: Inbox)
    requires AllSendable(msgs)
    requires m.data == []
    ensures DataEvents(DeliverAll(m, AllFrames(msgs)).log) == DataEvents(m.log) + Bodies(msgs)
    decreases |msgs|
  {
    if msgs == [] {
      assert DataEvents(m.log) + [] == DataEvents(m.log);
    } else {
      FirstMessageDelivered(msgs, m);
      MessagesDelivered(msgs[1..], DeliverAll(m, FramesFrom(msgs[0], 0)));
      FirstBody(msgs, DataEvents(m.log));
    }
  }

  /** Every message, as the client wrote it. */
  function Originals(msgs: seq<Sent>): (r: seq<Event>)
    ensures |r| == |msgs|
  {
    seq(|msgs|, i requires 0 <= i < |msgs| => Event.Message(msgs[i].kind, Plain(msgs[i].fragments)))
  }

  /** The bodies delivered are the bodies sent if and only if every fragment of every message turns. */
  lemma BodiesIntact(msgs: seq<Sent>)
    ensures Bodies(msgs) == Originals(msgs) <==> forall i :: 0 <= i < |msgs| ==> Turning(msgs[i].fragments)
  {
    forall i | 0 <= i < |msgs|
      ensures Bodies(msgs)[i] == Originals(msgs)[i] <==> Turning(msgs[i].fragments)
    {
      AssembledIntact(msgs[i].fragments);
    }
  }

  ghost predicate HasClose(fs: seq<Frame>) {
    exists i :: 0 <= i < |fs| && fs[i].opcode == CLOSE
  }

  lemma FirstIsClose(fs: seq<Frame>)
    requires fs != []
    ensures HasClose(fs) <==> fs[0].opcode == CLOSE || HasClose(fs[1..])
  {
    if HasClose(fs[1..]) {
      var i :| 0 <= i < |fs[1..]| && fs[1..][i].opcode == CLOSE;
      assert fs[i + 1].opcode == CLOSE;
    }
    if HasClose(fs) {
      var i :| 0 <= i < |fs| && fs[i].opcode == CLOSE;
      assert i > 0 ==> fs[1..][i - 1].opcode == CLOSE;
    }
  }

  /** The connection is closed by a Close frame, and by nothing else. */
  lemma {:induction false} ClosedByClose(fs: seq<Frame>, m: Inbox)
    ensures DeliverAll(m, fs).closed <==> m.closed || HasClose(fs)
    decreases |fs|
  {
    if fs != [] {
      FirstIsClose(fs);
      ClosedByClose(fs[1..], Deliver(m, fs[0]));
    }
  }

  /** Every octet of a legal session is read, frame by frame. */
  lemma SessionScanned(fs: seq<Frame>, m: Inbox, received: seq<octet>)
    requires RfcLegal(false, fs) && m == EMPTY_INBOX && received == EncodeAll(fs)
    ensures Accepted(m, received) && Scan(m, received) == Scanned(DeliverAll(m, fs), [])
  {
    LegalSessionAccepted(false, fs, m);
  }

  /** Once a legal session has arrived, the input buffer is empty. */
  lemma SessionRead(fs: seq<Frame>, m: Inbox, received: seq<octet>)
    requires RfcLegal(false, fs) && m == EMPTY_INBOX && received == EncodeAll(fs)
    ensures Accepted(m, received) && Leftover(received) == []
  {
    SessionScanned(fs, m, received);
    NothingLeft(received, Scan(m, received));
  }

  /** And the context is between frames: nothing is held back. */
  lemma SessionSettled(fs: seq<Frame>, m: Inbox, received: seq<octet>)
    requires RfcLegal(false, fs) && m == EMPTY_INBOX && received == EncodeAll(fs)
    ensures Settled(received) == Between(DeliverAll(m, fs))
  {
    SessionScanned(fs, m, received);
    NothingPending(received, Scan(m, received), DeliverAll(m, fs));
  }

  lemma NothingLeft(received: seq<octet>, r: Scanned)
    requires r == Scan(EMPTY_INBOX, received) && r.tail == []
    ensures Leftover(received) == []
  {
    BetweenFrames(r.inbox, r.tail);
  }

  lemma NothingPending(received: seq<octet>, r: Scanned, m: Inbox)
    requires r == Scan(EMPTY_INBOX, received) && r == Scanned(m, [])
    ensures Settled(received) == Between(m)
  {
    BetweenFrames(m, r.tail);
  }

  lemma BetweenFrames(m: Inbox, tail: seq<octet>)
    requires tail == []
    ensures LastStep(tail) == ReadFrameHeader && ViewAt(LastStep(tail), tail, m) == Between(m)
    ensures tail[Consumed(LastStep(tail), tail)..] == []
  {
  }

  /** The data messages of a legal session. */
  lemma SessionMessages(msgs: seq<Sent>, fs: seq<Frame>)
    requires AllSendable(msgs)
    requires RfcLegal(false, fs) && DataFrames(fs) == AllFrames(msgs)
    ensures DataEvents(DeliverAll(EMPTY_INBOX, fs).log) == Bodies(msgs)
  {
    ControlFramesDoNotInterfere(false, fs, EMPTY_INBOX, EMPTY_INBOX);
    MessagesDelivered(msgs, EMPTY_INBOX);
  }

  /** Its control frames. */
  lemma SessionReplies(fs: seq<Frame>)
    ensures ControlEvents(DeliverAll(EMPTY_INBOX, fs).log) == ControlReplies(ControlFrames(fs))
  {
    ControlFramesAnswered(fs, EMPTY_INBOX);
  }

  /** What every reading of a session comes to. */
  lemma SessionDelivered(msgs: seq<Sent>, fs: seq<Frame>)
    requires AllSendable(msgs)
    requires RfcLegal(false, fs) && DataFrames(fs) == AllFrames(msgs)
    ensures Accepted(EMPTY_INBOX, EncodeAll(fs))
    ensures Leftover(EncodeAll(fs)) == []
    ensures DataEvents(Settled(EncodeAll(fs)).log) == Bodies(msgs)
    ensures ControlEvents(Settled(EncodeAll(fs)).log) == ControlReplies(ControlFrames(fs))
    ensures Settled(EncodeAll(fs)).closed <==> HasClose(fs)
  {
    SessionRead(fs, EMPTY_INBOX, EncodeAll(fs));
    SessionSettled(fs, EMPTY_INBOX, EncodeAll(fs));
    ClosedByClose(fs, EMPTY_INBOX);
    SessionMessages(msgs, fs);
    SessionReplies(fs);
  }

  /**
    End to end.  A client sends `msgs`, each in fragments of its choice, with
    control frames interleaved at will; the network cuts the octets into `chunks`
    at will.  The receiver calls back once per message, with its kind and body, and
    once per control frame, holds nothing back, and closes if and only if a Close frame
    came.  The bodies are those written if and only if every fragment of every message turns.
   */
  method EndToEnd(ghost msgs: seq<Sent>, ghost fs: seq<Frame>, chunks: seq<seq<octet>>)
    returns (ctx: Context, buf: InputBuffer)
    requires AllSendable(msgs)
    requires RfcLegal(false, fs) && DataFrames(fs) == AllFrames(msgs)
    requires Concat(chunks) == EncodeAll(fs) && forall i :: 0 <= i < |chunks| ==> chunks[i] != []
    ensures buf.data == []
    ensures DataEvents(ctx.log) == Bodies(msgs)
    ensures ControlEvents(ctx.log) == ControlReplies(ControlFrames(fs))
    ensures ctx.closed <==> HasClose(fs)
    ensures DataEvents(ctx.log) == Originals(msgs) <==> forall i :: 0 <= i < |msgs| ==> Turning(msgs[i].fragments)
  {
    SessionDelivered(msgs, fs);
    BodiesIntact(msgs);
    ctx, buf := Receive(chunks);
  }

  /** The application data of a control frame comes back as the client wrote it. */
  lemma ControlBodyIntact(opcode: nibble, g: Fragment)
    requires IsControl(opcode)
    ensures Reply(Frame(true, opcode, g.key, Mask(g))) ==
            if opcode == CLOSE then [Closed(g.plain), ForceClose] else [Event.Message(opcode, g.plain)]
  {
    UnmaskUndoesMask(0, g);
  }

  // ----- the example of section 5.7 of RFC 6455 -----

  /** A single-frame masked text message. */
  const HELLO: seq<octet> := [0x81, 0x85, 0x37, 0xfa, 0x21, 0x3d, 0x7f, 0x9f, 0x4d, 0x51, 0x58]

  lemma XorIs(a: octet, b: octet, c: octet, x: bv8, y: bv8)
    requires x as octet == a && y as octet == b && (x ^ y) as octet == c
    ensures Xor(a, b) == c
  {
    BitsAsOctet(x);
    BitsAsOctet(y);
  }

  lemma FiveUnmasked(key: quad, p: seq<octet>)
    requires |p| == 5
    ensures Unmask(0, key, p) ==
            [Xor(p[0], key[0]), Xor(p[1], key[1]), Xor(p[2], key[2]), Xor(p[3], key[3]), Xor(p[4], key[0])]
  {
  }

  lemma HelloUnmasked(key: quad, p: seq<octet>)
    requires key == [0x37, 0xfa, 0x21, 0x3d] && p == [0x7f, 0x9f, 0x4d, 0x51, 0x58]
    ensures Unmask(0, key, p) == [0x48, 0x65, 0x6c, 0x6c, 0x6f]
  {
    FiveUnmasked(key, p);
    XorIs(0x7f, 0x37, 0x48, 0x7f, 0x37);
    XorIs(0x9f, 0xfa, 0x65, 0x9f, 0xfa);
    XorIs(0x4d, 0x21, 0x6c, 0x4d, 0x21);
    XorIs(0x51, 0x3d, 0x6c, 0x51, 0x3d);
    XorIs(0x58, 0x37, 0x6f, 0x58, 0x37);
  }

  lemma HelloRead(s: seq<octet>)
    requires s == HELLO
    ensures Complete(s) && s[FrameSize(s)..] == []
    ensures FirstFrame(s) == Frame(true, TEXT, [0x37, 0xfa, 0x21, 0x3d], [0x7f, 0x9f, 0x4d, 0x51, 0x58])
  {
  }

  /** It is delivered as the text "Hello". */
  lemma HelloDelivered(s: seq<octet>)
    requires s == HELLO
    ensures Settled(s).log == [Event.Message(TEXT, [0x48, 0x65, 0x6c, 0x6c, 0x6f])]
  {
    HelloRead(s);
    var f := FirstFrame(s);
    HelloUnmasked(f.key, f.payload);
    assert Scan(EMPTY_INBOX, s) == Scan(Deliver(EMPTY_INBOX, f), s[FrameSize(s)..]);
    assert EMPTY_INBOX.data + Unmask(0, f.key, f.payload) == Unmask(0, f.key, f.payload);
  }
}
