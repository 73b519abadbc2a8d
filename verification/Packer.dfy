/**
  The server-to-client packers of libwebsocket/private/websocket.cc, against a
  reading of unmasked frames by section 5.2 of RFC 6455 and of fragmented
  messages by section 5.4.
 */
module Packer {
  import opened Options
  import opened Sequences
  import opened Octets
  import opened Wire
  import opened Parser

  // ----- reference: what a client reads -----

  datatype Plain = Plain(fin: bool, opcode: nibble, payload: seq<octet>)

  function FirstOctet(f: Plain): octet { (if f.fin then 128 else 0) + f.opcode }

  /** The unmasked frame at the front of `s`, and what follows it. */
  function ReadPlain(s: seq<octet>): Option<(Plain, seq<octet>)> {
    if |s| < 2 || Masked(s[1]) || |s| < 2 + ExtSize(s[1]) then None
    else
      var at, n := 2 + ExtSize(s[1]), PayloadLen(s);
      if |s| < at + n then None
      else Some((Plain(Fin(s[0]), Opcode(s[0]), s[at..at + n]), s[at + n..]))
  }

  /** The rest of a fragmented message, `body` having been read. */
  function ReadContinued(kind: nibble, body: seq<octet>, s: seq<octet>): Option<(nibble, seq<octet>)>
    decreases |s|
  {
    match ReadPlain(s)
    case None => None
    case Some((f, rest)) =>
      if f.opcode != CONTINUATION || |rest| >= |s| then None
      else if f.fin then (if rest == [] then Some((kind, body + f.payload)) else None)
      else ReadContinued(kind, body + f.payload, rest)
  }

  /** The one message that `s` holds, fragmented or not. */
  function ReadMessage(s: seq<octet>): Option<(nibble, seq<octet>)> {
    match ReadPlain(s)
    case None => None
    case Some((f, rest)) =>
      if !IsHead(f.opcode) then None
      else if f.fin then (if rest == [] then Some((f.opcode, f.payload)) else None)
      else ReadContinued(f.opcode, f.payload, rest)
  }

  /** The length field of section 5.2. */
  function LengthField(n: nat): seq<octet> {
    if n < 126 then [n] else if n <= 65535 then [126] + BigOctets(n, 2) else [127] + BigOctets(n, 8)
  }

  function EncodePlain(f: Plain): seq<octet> {
    [FirstOctet(f)] + LengthField(|f.payload|) + f.payload
  }

  lemma FirstOctetReads(f: Plain)
    ensures Opcode(FirstOctet(f)) == f.opcode && Fin(FirstOctet(f)) == f.fin
  {
  }

  /** What is read from a frame whose length octets spell `claimed`, right or wrong. */
  lemma ReadsAsClaimed(f: Plain, b1: octet, ext: seq<octet>, tail: seq<octet>)
    requires !Masked(b1) && |ext| == ExtSize(b1)
    ensures var s := [FirstOctet(f), b1] + ext + tail;
            var claimed := if ext == [] then Len7(b1) else Big(ext);
            ReadPlain(s) ==
            if |tail| < claimed then None
            else Some((Plain(f.fin, f.opcode, tail[..claimed]), tail[claimed..]))
  {
    var head := [FirstOctet(f), b1] + ext;
    var s := head + tail;
    var claimed := if ext == [] then Len7(b1) else Big(ext);
    FirstOctetReads(f);
    assert s[1] == b1 && s[0] == FirstOctet(f);
    Piece([FirstOctet(f), b1], ext, tail);
    assert s[2..2 + |ext|] == ext;
    assert PayloadLen(s) == claimed;
    if |tail| >= claimed {
      SliceBehind(head, tail, claimed);
    }
  }

  lemma UnmaskedShort(n: nat)
    requires n < 126
    ensures !Masked(n) && ExtSize(n) == 0 && Len7(n) == n
  {
  }

  lemma ShortPlainReads(f: Plain, rest: seq<octet>)
    requires |f.payload| < 126
    ensures ReadPlain(EncodePlain(f) + rest) == Some((f, rest))
  {
    var n, tail := |f.payload|, f.payload + rest;
    assert tail[..n] == f.payload && tail[n..] == rest;
    UnmaskedShort(n);
    ReadsAsClaimed(f, n, [], tail);
    assert [FirstOctet(f), n] + [] + tail == EncodePlain(f) + rest;
  }

  lemma MediumPlainReads(f: Plain, field: seq<octet>, rest: seq<octet>)
    requires |field| == 2 && Big(field) == |f.payload|
    ensures ReadPlain([FirstOctet(f), 126] + field + f.payload + rest) == Some((f, rest))
  {
    var n, tail := |f.payload|, f.payload + rest;
    assert tail[..n] == f.payload && tail[n..] == rest;
    ReadsAsClaimed(f, 126, field, tail);
    assert [FirstOctet(f), 126] + field + f.payload + rest == [FirstOctet(f), 126] + field + tail;
  }

  lemma EncodePlainReads(f: Plain, rest: seq<octet>)
    requires |f.payload| <= 65535
    ensures ReadPlain(EncodePlain(f) + rest) == Some((f, rest))
  {
    var n := |f.payload|;
    if n < 126 {
      ShortPlainReads(f, rest);
    } else {
      assert Pow(256, 2) == 65536;
      BigRoundTrip(n, 2);
      MediumPlainReads(f, BigOctets(n, 2), rest);
      assert EncodePlain(f) == [FirstOctet(f), 126] + BigOctets(n, 2) + f.payload;
    }
  }

  // ----- the packers -----

  /**
    The eight octets written for a length beyond 16 bits.  The byte-swapped length is
    cast to `int16_t` before it is stored in an `int64_t`: on a little-endian host that
    keeps the two most significant octets of the length and fills the other six with
    the sign of the second.
   */
  function LongField(n: nat): (s: seq<octet>)
    ensures |s| == 8
  {
    var high := n / Pow(256, 6) % 65536;
    var fill: octet := if high % 256 >= 128 then 255 else 0;
    [high / 256, high % 256, fill, fill, fill, fill, fill, fill]
  }

  /** What the six low octets written for `n` spell. */
  function Fill(n: nat): nat {
    if n / Pow(256, 6) % 256 >= 128 then Pow(256, 6) - 1 else 0
  }

  lemma Pow6() ensures Pow(256, 6) == 281474976710656 {
    assert Pow(256, 3) == 16777216;
    assert Pow(256, 5) == 1099511627776;
  }

  lemma Pow8() ensures Pow(256, 8) == 18446744073709551616 {
    Pow6();
    assert Pow(256, 7) == 72057594037927936;
  }

  /** The long field tells the truth exactly when the low 48 bits of the length are the sign fill. */
  lemma LongFieldTrue(n: nat)
    requires n < Pow(256, 8)
    ensures Big(LongField(n)) == n <==> n % Pow(256, 6) == Fill(n)
    ensures n < Pow(256, 6) ==> Big(LongField(n)) == 0
  {
    Pow6();
    Pow8();
    var p := 281474976710656;
    var high, low := n / p, n % p;
    assert high < 65536 && high % 65536 == high;
    var fill: octet := if high % 256 >= 128 then 255 else 0;
    BigOfFill(high / 256, high % 256, fill);
    assert Big(LongField(n)) == p * high + Fill(n);
    assert n == p * high + low;
  }

  lemma BigOfFill(a: octet, b: octet, fill: octet)
    ensures Big([a, b, fill, fill, fill, fill, fill, fill])
         == 281474976710656 * (256 * a + b) + 1103823438081 * fill
  {
    var s: seq<octet> := [a, b, fill, fill, fill, fill, fill, fill];
    BigPrefix(s, 1);
    BigPrefix(s, 2);
    BigPrefix(s, 3);
    BigPrefix(s, 4);
    BigPrefix(s, 5);
    BigPrefix(s, 6);
    BigPrefix(s, 7);
    BigPrefix(s, 8);
    assert s[..8] == s;
  }

  lemma BigPrefix(s: seq<octet>, k: nat)
    requires 0 < k <= |s|
    ensures Big(s[..k]) == 256 * Big(s[..k - 1]) + s[k - 1]
    ensures k == 1 ==> Big(s[..k]) == s[0]
  {
    assert s[..k][..k - 1] == s[..k - 1];
  }

  /** Append one data frame. */
  method PackUncontrolFrame(buf: InputBuffer, data: seq<octet>, opcode: nibble, fin: bool)
    requires IsData(opcode)
    modifies buf
    ensures |data| <= 65535 ==> buf.data == old(buf.data) + EncodePlain(Plain(fin, opcode, data))
    ensures |data| > 65535 ==>
              buf.data == old(buf.data) + [FirstOctet(Plain(fin, opcode, data)), 127] + LongField(|data|) + data
  {
    var len := |data|;
    var payloadlen: octet;
    if len < 126 {
      payloadlen := len;
    } else if len <= 65535 {
      payloadlen := 126;
    } else {
      payloadlen := 127;
    }
    buf.Append([FirstOctet(Plain(fin, opcode, data)), payloadlen]);
    if payloadlen == 126 {
      buf.Append(BigOctets(len, 2));
    } else if payloadlen == 127 {
      buf.Append(LongField(len));
    }
    if len > 0 {
      buf.Append(data);
    }
  }

  /** Append one control frame; the source asserts that its length needs no 64-bit field. */
  method PackControlFrame(buf: InputBuffer, data: seq<octet>, opcode: nibble)
    requires IsControl(opcode) && |data| <= 65535
    modifies buf
    ensures buf.data == old(buf.data) + EncodePlain(Plain(true, opcode, data))
  {
    var len := |data|;
    var payloadlen: octet := if len < 126 then len else 126;
    buf.Append([FirstOctet(Plain(true, opcode, data)), payloadlen]);
    if payloadlen == 126 {
      buf.Append(BigOctets(len, 2));
    }
    if len > 0 {
      buf.Append(data);
    }
  }

  function Encoded(fs: seq<Plain>): seq<octet> {
    if fs == [] then [] else Encoded(fs[..|fs| - 1]) + EncodePlain(fs[|fs| - 1])
  }

  function Joined(fs: seq<Plain>): seq<octet> {
    if fs == [] then [] else Joined(fs[..|fs| - 1]) + fs[|fs| - 1].payload
  }

  /** A head frame and middle frames, each of exactly `chunksz` octets. */
  ghost predicate Unfinished(fs: seq<Plain>, kind: nibble, chunksz: nat) {
    && fs != []
    && forall i :: 0 <= i < |fs| ==>
         && !fs[i].fin
         && fs[i].opcode == (if i == 0 then kind else CONTINUATION)
         && |fs[i].payload| == chunksz
  }

  /** One head frame, any number of middle frames and one final frame, that join to `data`. */
  ghost predicate Chunking(fs: seq<Plain>, kind: nibble, data: seq<octet>, chunksz: nat) {
    && |fs| >= 2
    && Unfinished(fs[..|fs| - 1], kind, chunksz)
    && FinalFrame(fs[|fs| - 1], chunksz)
    && Joined(fs) == data
  }

  predicate FinalFrame(f: Plain, chunksz: nat) {
    f.fin && f.opcode == CONTINUATION && 0 < |f.payload| <= chunksz
  }

  lemma FrameAppended(fs: seq<Plain>, f: Plain)
    ensures Encoded(fs + [f]) == Encoded(fs) + EncodePlain(f)
    ensures Joined(fs + [f]) == Joined(fs) + f.payload
  {
    assert (fs + [f])[..|fs|] == fs;
  }

  /** Append a frame after those of `fs`. */
  method PackNext(buf: InputBuffer, f: Plain, ghost before: seq<octet>, ghost fs: seq<Plain>)
    requires IsData(f.opcode) && |f.payload| <= 65535
    requires buf.data == before + Encoded(fs)
    modifies buf
    ensures buf.data == before + Encoded(fs + [f])
  {
    PackUncontrolFrame(buf, f.payload, f.opcode, f.fin);
    FrameAppended(fs, f);
    Assoc(before, Encoded(fs), EncodePlain(f));
  }

  /** The frames `fs` hold `data[..n]`, and `left` octets remain to be packed. */
  ghost predicate Packing(fs: seq<Plain>, kind: nibble, data: seq<octet>, n: nat, left: nat, chunksz: nat) {
    && n + left == |data|
    && if left > 0 then Unfinished(fs, kind, chunksz) && Joined(fs) == data[..n]
       else Chunking(fs, kind, data, chunksz)
  }

  /** What a `size_t` counts, and what a `ssize_t` makes of a number. */
  type Sized = s: seq<octet> | |s| < 0x1_0000_0000_0000_0000

  const SSIZE_LIMIT: nat := 0x8000_0000_0000_0000

  function Ssize(x: int): int {
    var u := x % 0x1_0000_0000_0000_0000;
    if u < SSIZE_LIMIT then u else u - 0x1_0000_0000_0000_0000
  }

  /** What the signed counter says is left after the head frame. */
  method Remaining(len: nat, chunksz: nat) returns (left: int)
    requires chunksz < len < 0x1_0000_0000_0000_0000
    ensures if len - chunksz < SSIZE_LIMIT then left == len - chunksz else left < 0
  {
    left := Ssize(len);
    left := Ssize(left - chunksz);
  }

  /** `left` is signed: a message too long for it is cut off after its head frame. */
  method PackDataFrameChunk(buf: InputBuffer, data: Sized, kind: nibble, chunksz: nat)
    returns (ghost fs: seq<Plain>)
    requires 0 < chunksz <= 65535 && |data| > chunksz && IsHead(kind)
    modifies buf
    ensures if |data| - chunksz < SSIZE_LIMIT then Chunking(fs, kind, data, chunksz)
            else fs == [] + [Plain(false, kind, data[..chunksz])]
    ensures buf.data == old(buf.data) + Encoded(fs)
  {
    var f := Plain(false, kind, data[..chunksz]);
    PackNext(buf, f, old(buf.data), []);
    fs := [] + [f];
    HeadFramePacked(f, kind, data, chunksz);
    var left := Remaining(|data|, chunksz);
    var n := chunksz;
    while left > 0
      invariant n >= 0
      invariant if |data| - chunksz < SSIZE_LIMIT then left >= 0 && Packing(fs, kind, data, n, left, chunksz)
                else left < 0 && fs == [] + [Plain(false, kind, data[..chunksz])]
      invariant buf.data == old(buf.data) + Encoded(fs)
    {
      var size := if left > chunksz then chunksz else left;
      f := Plain(left <= chunksz, CONTINUATION, data[n..n + size]);
      PackNext(buf, f, old(buf.data), fs);
      if left > chunksz {
        MiddleFrameAppended(fs, f, kind, data, n, chunksz);
      } else {
        FinalFrameAppended(fs, f, kind, data, n, chunksz);
      }
      n := n + size;
      left := left - size;
      fs := fs + [f];
    }
  }

  lemma HeadFramePacked(f: Plain, kind: nibble, data: seq<octet>, chunksz: nat)
    requires chunksz < |data| && f == Plain(false, kind, data[..chunksz])
    ensures Packing([] + [f], kind, data, chunksz, |data| - chunksz, chunksz)
  {
    FrameAppended([], f);
    assert Joined([]) == [];
    assert [] + data[..chunksz] == data[..chunksz];
  }

  lemma MiddleFrameAppended(fs: seq<Plain>, f: Plain, kind: nibble, data: seq<octet>, n: nat, chunksz: nat)
    requires n + chunksz < |data|
    requires Packing(fs, kind, data, n, |data| - n, chunksz)
    requires f == Plain(false, CONTINUATION, data[n..n + chunksz])
    ensures Packing(fs + [f], kind, data, n + chunksz, |data| - n - chunksz, chunksz)
  {
    FrameAppended(fs, f);
    assert data[..n] + data[n..n + chunksz] == data[..n + chunksz];
  }

  lemma FinalFrameAppended(fs: seq<Plain>, f: Plain, kind: nibble, data: seq<octet>, n: nat, chunksz: nat)
    requires n < |data| <= n + chunksz
    requires Packing(fs, kind, data, n, |data| - n, chunksz)
    requires f == Plain(true, CONTINUATION, data[n..|data|])
    ensures Packing(fs + [f], kind, data, |data|, 0, chunksz)
  {
    FrameAppended(fs, f);
    assert data[..n] + data[n..|data|] == data;
    assert (fs + [f])[..|fs|] == fs;
  }

  const CHUNK_SIZE: nat := 1024

  /** The octets of one data frame, as they are packed. */
  function Packed(f: Plain): seq<octet> {
    if |f.payload| <= 65535 then EncodePlain(f)
    else [FirstOctet(f), 127] + LongField(|f.payload|) + f.payload
  }

  lemma UnchunkedReads(f: Plain)
    requires f.fin && IsHead(f.opcode) && |f.payload| < 0x1_0000_0000_0000_0000
    ensures ReadMessage(Packed(f)) == Some((f.opcode, f.payload)) <==> Readable(|f.payload|, false)
  {
    if |f.payload| <= 65535 {
      EncodePlainReads(f, []);
      assert EncodePlain(f) + [] == EncodePlain(f);
    } else {
      Pow8();
      LongFrameReads(f);
    }
  }

  /** Append a whole message as one frame. */
  method PackUnchunked(buf: InputBuffer, data: Sized, kind: nibble)
    requires IsHead(kind)
    modifies buf
    ensures |buf.data| >= |old(buf.data)| && buf.data[..|old(buf.data)|] == old(buf.data)
    ensures ReadMessage(buf.data[|old(buf.data)|..]) == Some((kind, data)) <==> Readable(|data|, false)
  {
    ghost var before := buf.data;
    ghost var f := Plain(true, kind, data);
    PackUncontrolFrame(buf, data, kind, true);
    assert buf.data == before + Packed(f);
    SliceBehind(before, Packed(f), 0);
    UnchunkedReads(f);
  }

  /** Append a whole message, in chunks if asked to and long enough. */
  method PackDataFrame(buf: InputBuffer, data: Sized, text: bool, chunk: bool)
    modifies buf
    ensures |buf.data| >= |old(buf.data)| && buf.data[..|old(buf.data)|] == old(buf.data)
    ensures ReadMessage(buf.data[|old(buf.data)|..]) == Some((if text then TEXT else BINARY, data))
            <==> Readable(|data|, chunk)
  {
    var kind := if text then TEXT else BINARY;
    ghost var before := buf.data;
    if chunk && |data| > CHUNK_SIZE {
      ghost var fs := PackDataFrameChunk(buf, data, kind, CHUNK_SIZE);
      SliceBehind(before, Encoded(fs), 0);
      if |data| - CHUNK_SIZE < SSIZE_LIMIT {
        ChunkingReads(fs, kind, data, CHUNK_SIZE);
      } else {
        HeadUnreadable(Plain(false, kind, data[..CHUNK_SIZE]));
      }
    } else {
      PackUnchunked(buf, data, kind);
    }
  }

  /** A head frame alone is no message. */
  lemma HeadUnreadable(f: Plain)
    requires !f.fin && |f.payload| <= 65535
    ensures ReadMessage(Encoded([] + [f])) == None
  {
    OneFrame([] + [f]);
    assert EncodePlain(f) + [] == EncodePlain(f);
    EncodePlainReads(f, []);
  }

  /** Lengths that a client reads back: in chunks those a `ssize_t` holds, otherwise the truthful ones. */
  predicate Readable(n: nat, chunk: bool) {
    if chunk && n > CHUNK_SIZE then n - CHUNK_SIZE < SSIZE_LIMIT
    else n <= 65535 || n % Pow(256, 6) == Fill(n)
  }

  /** No message of 2^16 octets up to 2^48 survives unchunked packing. */
  lemma LongMessagesUnreadable(n: nat)
    requires 65535 < n < Pow(256, 6)
    ensures !Readable(n, false)
  {
    Pow6();
    assert n / 281474976710656 == 0;
  }

  lemma LongFrameReads(f: Plain)
    requires f.fin && IsHead(f.opcode) && 65535 < |f.payload| < Pow(256, 8)
    ensures ReadMessage([FirstOctet(f), 127] + LongField(|f.payload|) + f.payload) == Some((f.opcode, f.payload))
            <==> |f.payload| % Pow(256, 6) == Fill(|f.payload|)
  {
    var n := |f.payload|;
    var claimed := Big(LongField(n));
    LongFieldTrue(n);
    ReadsAsClaimed(f, 127, LongField(n), f.payload);
    if claimed == n {
      assert f.payload[..n] == f.payload;
    } else if claimed < n {
      assert |f.payload[claimed..]| > 0;
    }
  }

  /** What each frame of a chunked message is. */
  lemma ChunkAt(fs: seq<Plain>, k: nat, kind: nibble, data: seq<octet>, chunksz: nat)
    requires Chunking(fs, kind, data, chunksz) && k < |fs|
    ensures fs[k].opcode == (if k == 0 then kind else CONTINUATION)
    ensures fs[k].fin == (k + 1 == |fs|)
    ensures |fs[k].payload| <= chunksz
  {
    if k + 1 < |fs| {
      assert fs[k] == fs[..|fs| - 1][k];
    }
  }

  function EncodedFrom(fs: seq<Plain>, k: nat): seq<octet>
    requires k <= |fs|
    decreases |fs| - k
  {
    if k == |fs| then [] else EncodePlain(fs[k]) + EncodedFrom(fs, k + 1)
  }

  lemma ChunkRead(f: Plain, kind: nibble, body: seq<octet>, rest: seq<octet>)
    requires f.opcode == CONTINUATION && |f.payload| <= 65535
    ensures ReadContinued(kind, body, EncodePlain(f) + rest) ==
            if !f.fin then ReadContinued(kind, body + f.payload, rest)
            else if rest == [] then Some((kind, body + f.payload)) else None
  {
    EncodePlainReads(f, rest);
  }

  /** After a head frame: continuations, the last of them final. */
  ghost predicate Continuing(fs: seq<Plain>) {
    forall i :: 1 <= i < |fs| ==>
      fs[i].opcode == CONTINUATION && fs[i].fin == (i + 1 == |fs|) && |fs[i].payload| <= 65535
  }

  lemma JoinedNext(fs: seq<Plain>, k: nat)
    requires k < |fs|
    ensures Joined(fs[..k + 1]) == Joined(fs[..k]) + fs[k].payload
    ensures k + 1 == |fs| ==> fs[..k + 1] == fs
  {
    FrameAppended(fs[..k], fs[k]);
    assert fs[..k + 1] == fs[..k] + [fs[k]];
  }

  /** The frames from frame `k` on are read as the rest of the body. */
  lemma {:induction false} ContinuingReads(fs: seq<Plain>, k: nat, kind: nibble)
    requires Continuing(fs) && 1 <= k < |fs|
    ensures ReadContinued(kind, Joined(fs[..k]), EncodedFrom(fs, k)) == Some((kind, Joined(fs)))
    decreases |fs| - k
  {
    var next := k + 1;
    ChunkRead(fs[k], kind, Joined(fs[..k]), EncodedFrom(fs, next));
    JoinedNext(fs, k);
    if next < |fs| {
      ContinuingReads(fs, next, kind);
    }
  }

  lemma EncodedNext(fs: seq<Plain>, k: nat, next: nat)
    requires k < |fs| && next == k + 1
    ensures Encoded(fs[..next]) == Encoded(fs[..k]) + EncodePlain(fs[k])
  {
    FrameAppended(fs[..k], fs[k]);
    assert fs[..next] == fs[..k] + [fs[k]];
  }

  lemma {:induction false} EncodedSplits(fs: seq<Plain>, k: nat)
    requires k <= |fs|
    ensures Encoded(fs) == Encoded(fs[..k]) + EncodedFrom(fs, k)
    decreases |fs| - k
  {
    if k == |fs| {
      assert fs[..k] == fs;
    } else {
      var next := k + 1;
      EncodedSplits(fs, next);
      EncodedNext(fs, k, next);
      Assoc(Encoded(fs[..k]), EncodePlain(fs[k]), EncodedFrom(fs, next));
    }
  }

  lemma OneFrame(fs: seq<Plain>)
    requires |fs| == 1
    ensures Encoded(fs) == EncodePlain(fs[0]) && Joined(fs) == fs[0].payload
  {
    var none := fs[..|fs| - 1];
    assert none == [];
    assert Encoded(none) == [] && Joined(none) == [];
    assert [] + EncodePlain(fs[0]) == EncodePlain(fs[0]) && [] + fs[0].payload == fs[0].payload;
  }

  lemma HeadSplits(fs: seq<Plain>, k: nat)
    requires fs != [] && k == 1
    ensures Encoded(fs) == EncodePlain(fs[0]) + EncodedFrom(fs, k)
    ensures Joined(fs[..k]) == fs[0].payload
  {
    EncodedSplits(fs, k);
    OneFrame(fs[..k]);
  }

  lemma ChunkingContinues(fs: seq<Plain>, kind: nibble, data: seq<octet>, chunksz: nat)
    requires Chunking(fs, kind, data, chunksz) && chunksz <= 65535
    ensures Continuing(fs)
  {
    forall i | 1 <= i < |fs|
      ensures fs[i].opcode == CONTINUATION && fs[i].fin == (i + 1 == |fs|) && |fs[i].payload| <= 65535
    {
      ChunkAt(fs, i, kind, data, chunksz);
    }
  }

  /** Every chunked message is read back whole. */
  lemma ChunkingReads(fs: seq<Plain>, kind: nibble, data: seq<octet>, chunksz: nat)
    requires Chunking(fs, kind, data, chunksz) && IsHead(kind) && chunksz <= 65535
    ensures ReadMessage(Encoded(fs)) == Some((kind, data))
  {
    ChunkAt(fs, 0, kind, data, chunksz);
    ChunkingContinues(fs, kind, data, chunksz);
    ContinuingReads(fs, 1, kind);
    HeadSplits(fs, 1);
    EncodePlainReads(fs[0], EncodedFrom(fs, 1));
  }
}
