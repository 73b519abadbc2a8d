/**
  The frame format of section 5.2 of RFC 6455, as a client sends it: two header
  octets, an extended length of none, two or eight octets, a masking key of four
  octets, and the masked payload.  Everything here reads a stream as a whole;
  nothing in this module is incremental.
 */
module Wire {
  import opened Sequences
  import opened Octets

  const CONTINUATION: nibble := 0
  const TEXT: nibble := 1
  const BINARY: nibble := 2
  const CLOSE: nibble := 8
  const PING: nibble := 9
  const PONG: nibble := 10

  function Opcode(b0: octet): nibble { b0 % 16 }
  predicate Fin(b0: octet) { b0 >= 128 }
  predicate Masked(b1: octet) { b1 >= 128 }
  function Len7(b1: octet): octet { b1 % 128 }

  predicate IsControl(op: nibble) { op == CLOSE || op == PING || op == PONG }
  predicate IsHead(op: nibble) { op == TEXT || op == BINARY }
  predicate IsData(op: nibble) { op == CONTINUATION || IsHead(op) }

  /** Number of extended-length octets announced by the second header octet. */
  function ExtSize(b1: octet): nat {
    if Len7(b1) == 126 then 2 else if Len7(b1) == 127 then 8 else 0
  }

  /** A frame as it travels: the payload is still masked. */
  datatype Frame = Frame(fin: bool, opcode: nibble, key: quad, payload: seq<octet>)

  /** Octets in front of the payload of a masked frame. */
  function HeadSize(s: seq<octet>): nat
    requires |s| >= 2
  {
    6 + ExtSize(s[1])
  }

  function PayloadLen(s: seq<octet>): nat
    requires |s| >= 2 && |s| >= 2 + ExtSize(s[1])
  {
    if ExtSize(s[1]) == 0 then Len7(s[1]) else Big(s[2..2 + ExtSize(s[1])])
  }

  /** The stream starts with a whole frame. */
  predicate Complete(s: seq<octet>) {
    |s| >= 2 && |s| >= HeadSize(s) && |s| >= HeadSize(s) + PayloadLen(s)
  }

  function FrameSize(s: seq<octet>): (n: nat)
    requires Complete(s)
    ensures 6 <= n <= |s|
  {
    HeadSize(s) + PayloadLen(s)
  }

  function FirstFrame(s: seq<octet>): (f: Frame)
    requires Complete(s)
    ensures |f.payload| == PayloadLen(s)
  {
    Frame(Fin(s[0]), Opcode(s[0]), s[HeadSize(s) - 4..HeadSize(s)], s[HeadSize(s)..FrameSize(s)])
  }

  function HeadOctet(f: Frame): octet { (if f.fin then 128 else 0) + f.opcode }

  /** The shortest encoding of a masked frame. */
  function Encode(f: Frame): seq<octet>
  {
    var n := |f.payload|;
    if n < 126 then [HeadOctet(f), 128 + n] + f.key + f.payload
    else if n <= 65535 then [HeadOctet(f), 254] + BigOctets(n, 2) + f.key + f.payload
    else [HeadOctet(f), 255] + BigOctets(n, 8) + f.key + f.payload
  }

  /** The payload length fits the 64-bit length field. */
  ghost predicate Encodable(f: Frame) { |f.payload| < Pow(256, 8) }

  lemma HeadOctetReads(f: Frame)
    ensures Opcode(HeadOctet(f)) == f.opcode && Fin(HeadOctet(f)) == f.fin
  {
  }

  /** A frame laid out with any length field that spells its payload length is read back. */
  lemma LaidOutReads(f: Frame, b1: octet, ext: seq<octet>, rest: seq<octet>)
    requires |ext| == ExtSize(b1)
    requires |f.payload| == if ext == [] then Len7(b1) else Big(ext)
    ensures var s := [HeadOctet(f), b1] + ext + f.key + f.payload + rest;
            && Complete(s) && FrameSize(s) == 6 + |ext| + |f.payload|
            && FirstFrame(s) == f && s[FrameSize(s)..] == rest
  {
    var s := [HeadOctet(f), b1] + ext + f.key + f.payload + rest;
    var k := |ext|;
    LaidOutPieces([HeadOctet(f), b1], ext, f.key, f.payload, rest);
    HeadOctetReads(f);
    assert s[0] == HeadOctet(f) && s[1] == b1;
    assert HeadSize(s) == 6 + k;
    assert PayloadLen(s) == |f.payload|;
  }

  lemma LaidOutPieces(head: seq<octet>, ext: seq<octet>, key: quad, payload: seq<octet>, rest: seq<octet>)
    requires |head| == 2
    ensures var s, k := head + ext + key + payload + rest, |ext|;
            && |s| == 6 + k + |payload| + |rest|
            && s[0] == head[0] && s[1] == head[1]
            && s[2..2 + k] == ext && s[2 + k..6 + k] == key
            && s[6 + k..6 + k + |payload|] == payload && s[6 + k + |payload|..] == rest
  {
    var s := head + ext + key + payload + rest;
    Piece(head + ext + key, payload, rest);
    Piece(head, ext, key + payload + rest);
    Piece(head + ext, key, payload + rest);
    assert s == head + ext + (key + payload + rest);
    assert s == head + ext + key + (payload + rest);
  }

  lemma ShortLength(n: nat)
    requires n < 126
    ensures Len7(128 + n) == n && ExtSize(128 + n) == 0
  {
  }

  /** Every frame is read back from its encoding, whatever follows it. */
  lemma EncodeRoundTrip(f: Frame, rest: seq<octet>)
    requires Encodable(f)
    ensures var s := Encode(f) + rest;
            && Complete(s) && FrameSize(s) == |Encode(f)|
            && FirstFrame(s) == f && s[FrameSize(s)..] == rest
  {
    var n := |f.payload|;
    if n < 126 {
      ShortLength(n);
      LaidOutReads(f, 128 + n, [], rest);
      assert [HeadOctet(f), 128 + n] + [] + f.key + f.payload + rest == Encode(f) + rest;
    } else if n <= 65535 {
      assert Pow(256, 2) == 65536;
      BigRoundTrip(n, 2);
      LaidOutReads(f, 254, BigOctets(n, 2), rest);
    } else {
      BigRoundTrip(n, 8);
      LaidOutReads(f, 255, BigOctets(n, 8), rest);
    }
  }

  /** Extending a stream does not change a frame already complete at its front. */
  lemma CompleteExtends(s: seq<octet>, t: seq<octet>)
    requires Complete(s)
    ensures Complete(s + t) && FrameSize(s + t) == FrameSize(s) && FirstFrame(s + t) == FirstFrame(s)
    ensures (s + t)[FrameSize(s)..] == s[FrameSize(s)..] + t
  {
    SliceOfPrefix(s, t, 2, 2 + ExtSize(s[1]));
    SliceOfPrefix(s, t, HeadSize(s) - 4, HeadSize(s));
    SliceOfPrefix(s, t, HeadSize(s), FrameSize(s));
    DropOfConcat(s, t, FrameSize(s));
  }
}
