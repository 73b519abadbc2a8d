/**
  SHA1Update() and SHA1Final() of libwebsocket/private/sha1.cc, MD5Update() and MD5Final()
  of https/mymd5.cpp: each context remembers an incomplete block and a count, and hashes
  a message the same way however it is cut into updates.
 */
module HashContexts {
  import opened Octets
  import opened Sequences
  import opened BlockStream
  import Sha1

  // ----- padding -----

  /** The zeros between the marking octet and the count. */
  function ZeroCount(n: nat): (k: nat)
    ensures k < 64 && (n + 1 + k) % 64 == 56
  {
    (119 - n % 64) % 64
  }

  function Zeros(k: nat): seq<octet> {
    seq(k, _ => 0)
  }

  /** The low `k` octets of `n`, least significant first. */
  function LittleOctets(n: nat, k: nat): (s: seq<octet>)
    ensures |s| == k
  {
    if k == 0 then [] else [n % 256] + LittleOctets(n / 256, k - 1)
  }

  function Marked(m: seq<octet>): seq<octet> {
    m + [0x80] + Zeros(ZeroCount(|m|))
  }

  /** Section 4 of RFC 3174: the two words of the count of bits, high word and high octets first. */
  function PaddedBig(m: seq<octet>): seq<octet> {
    Marked(m) + (BigOctets(High(|m|), 4) + BigOctets(Low(|m|), 4))
  }

  /** Sections 3.1 and 3.2 of RFC 1321: low word and low octets first. */
  function PaddedLittle(m: seq<octet>): seq<octet> {
    Marked(m) + (LittleOctets(Low(|m|), 4) + LittleOctets(High(|m|), 4))
  }

  /** Both fill whole blocks. */
  lemma PaddedWhole(m: seq<octet>)
    ensures |PaddedBig(m)| % 64 == 0 && |PaddedLittle(m)| % 64 == 0
  {
    var n, k := |m|, ZeroCount(|m|);
    assert (n + 1 + k) % 64 == 56;
    assert (n + 1 + k + 8) % 64 == 0;
  }

  lemma Shifts(x: nat)
    ensures x / 0x100 / 0x100 == x / 0x1_0000
    ensures x / 0x100 / 0x100 / 0x100 == x / 0x100_0000
  {
  }

  lemma FourOctets(x: nat)
    ensures BigOctets(x, 4) == [x / 0x100_0000 % 256, x / 0x1_0000 % 256, x / 0x100 % 256, x % 256]
    ensures LittleOctets(x, 4) == [x % 256, x / 0x100 % 256, x / 0x1_0000 % 256, x / 0x100_0000 % 256]
  {
    Shifts(x);
    var y := x / 256;
    var z := y / 256;
    var w := z / 256;
    assert BigOctets(w, 1) == [w % 256] && LittleOctets(w, 1) == [w % 256];
    assert BigOctets(z, 2) == [w % 256, z % 256] && LittleOctets(z, 2) == [z % 256, w % 256];
    assert BigOctets(y, 3) == [w % 256, z % 256, y % 256] && LittleOctets(y, 3) == [y % 256, z % 256, w % 256];
  }

  /** memcpy() into a buffer. */
  method Copy(buffer: array<octet>, at: nat, data: seq<octet>)
    requires at + |data| <= buffer.Length
    modifies buffer
    ensures buffer[..at] == old(buffer[..at]) && buffer[at..at + |data|] == data
  {
    forall k | 0 <= k < |data| {
      buffer[at + k] := data[k];
    }
  }

  // ----- MD5 -----

  type word = x: int | 0 <= x < 0x1_0000_0000

  datatype Md5State = Md5State(a: word, b: word, c: word, d: word)

  const MD5_INITIAL := Md5State(0x67452301, 0xEFCDAB89, 0x98BADCFE, 0x10325476)

  class Md5Context {
    const transform: (Md5State, seq<octet>) -> Md5State  // MD5Transform()
    var state: Md5State
    var count0: nat
    var count1: nat
    const buffer: array<octet>
    ghost var seen: seq<octet>

    /** However the octets seen were cut, the context depends on their sequence alone. */
    ghost predicate Valid()
      reads this, buffer
    {
      && buffer.Length == 64
      && Counted()
      && state == Fold(transform, MD5_INITIAL, seen)
      && buffer[..|seen| % 64] == Tail(seen)
    }

    ghost predicate Counted()
      reads this
    {
      count0 == Low(|seen|) && count1 == High(|seen|)
    }

    /** MD5Init(). */
    constructor (transform: (Md5State, seq<octet>) -> Md5State)
      ensures Valid() && seen == [] && fresh(buffer) && this.transform == transform
    {
      this.transform := transform;
      state, count0, count1 := MD5_INITIAL, 0, 0;
      buffer := new octet[64];
      seen := [];
    }

    method AddCount(len: nat)
      requires Counted() && len < 0x1_0000_0000
      modifies `count0, `count1
      ensures count0 == Low(|seen| + len) && count1 == High(|seen| + len)
    {
      var bits := 8 * len % 0x1_0000_0000;
      Added(|seen|, len, count0, count1, bits, (count0 + bits) % 0x1_0000_0000);
      count0 := (count0 + bits) % 0x1_0000_0000;
      if count0 < bits {
        count1 := (count1 + 1) % 0x1_0000_0000;
      }
      count1 := (count1 + len / 0x2000_0000) % 0x1_0000_0000;
    }

    method Update(input: seq<octet>)
      requires Valid() && |input| < 0xFFFF_FFC0
      modifies this, buffer
      ensures Valid() && seen == old(seen) + input
    {
      IndexOf(|seen|);
      var index := count0 / 8 % 64;
      var partLen := 64 - index;
      AddCount(|input|);
      if |input| >= partLen {
        Absorb(input, partLen);
      } else {
        Hold(input, index);
      }
      seen := seen + input;
    }

    /** The branch that does not. */
    method Hold(input: seq<octet>, index: nat)
      requires buffer.Length == 64 && state == Fold(transform, MD5_INITIAL, seen) && buffer[..|seen| % 64] == Tail(seen)
      requires index == |seen| % 64 && index + |input| < 64
      modifies buffer
      ensures state == Fold(transform, MD5_INITIAL, seen + input)
      ensures buffer[..|seen + input| % 64] == Tail(seen + input)
    {
      FoldShort(transform, MD5_INITIAL, seen, input);
      Copy(buffer, index, input);
      assert buffer[..index + |input|] == buffer[..index] + buffer[index..index + |input|];
    }

    /** The branch that completes a block. */
    method Absorb(input: seq<octet>, partLen: nat)
      requires buffer.Length == 64 && state == Fold(transform, MD5_INITIAL, seen) && buffer[..|seen| % 64] == Tail(seen)
      requires partLen == 64 - |seen| % 64 <= |input|
      modifies `state, buffer
      ensures state == Fold(transform, MD5_INITIAL, seen + input)
      ensures buffer[..|seen + input| % 64] == Tail(seen + input)
    {
      Copy(buffer, 64 - partLen, input[..partLen]);
      FoldFilled(transform, MD5_INITIAL, seen, input[..partLen]);
      assert buffer[..] == buffer[..64 - partLen] + buffer[64 - partLen..64];
      state := transform(state, buffer[..]);
      var i := partLen;
      while i + 64 <= |input|
        invariant i <= |input| && |seen + input[..i]| % 64 == 0
        invariant state == Fold(transform, MD5_INITIAL, seen + input[..i])
      {
        FoldNext(transform, MD5_INITIAL, seen, input, i);
        state := transform(state, input[i..i + 64]);
        i := i + 64;
      }
      FoldLast(transform, MD5_INITIAL, seen, input, i);
      Copy(buffer, 0, input[i..]);
    }

    /** The digest spells the state of the padded message, taken whole. */
    method Final() returns (digest: seq<octet>)
      requires Valid()
      modifies this, buffer
      ensures digest == Digest(Fold(transform, MD5_INITIAL, PaddedLittle(old(seen))))
    {
      IndexOf(|seen|);
      var index := count0 / 8 % 64;
      var padLen := if index < 56 then 56 - index else 120 - index;
      var bits := Encode([count0, count1]);
      assert LittleWords([count0, count1]) == LittleOctets(count0, 4) + LittleOctets(count1, 4) by {
        TwoWords(count0, count1);
      }
      MarkedBy(seen, padLen);
      Update([0x80] + Zeros(padLen - 1));
      Update(bits);
      digest := Encode([state.a, state.b, state.c, state.d]);
    }
  }

  lemma MarkedBy(m: seq<octet>, padLen: nat)
    requires padLen == if |m| % 64 < 56 then 56 - |m| % 64 else 120 - |m| % 64
    ensures m + ([0x80] + Zeros(padLen - 1)) == Marked(m)
  {
    assert padLen - 1 == ZeroCount(|m|);
    Assoc(m, [0x80], Zeros(padLen - 1));
  }

  /** Words one after the other, each with its low octet first. */
  function LittleWords(words: seq<nat>): (s: seq<octet>)
    ensures |s| == 4 * |words|
  {
    if words == [] then [] else LittleWords(words[..|words| - 1]) + LittleOctets(words[|words| - 1], 4)
  }

  /** Section 3.5 of RFC 1321. */
  function Digest(s: Md5State): (digest: seq<octet>)
    ensures |digest| == 16
  {
    LittleWords([s.a, s.b, s.c, s.d])
  }

  lemma TwoWords(x: nat, y: nat)
    ensures LittleWords([x, y]) == LittleOctets(x, 4) + LittleOctets(y, 4)
  {
    var one: seq<nat> := [x];
    assert [x, y][..1] == one && one[..0] == [];
    assert LittleWords(one) == [] + LittleOctets(x, 4);
  }

  /** MD5Encode(). */
  method Encode(input: seq<nat>) returns (output: seq<octet>)
    ensures output == LittleWords(input)
  {
    output := [];
    for i := 0 to |input|
      invariant output == LittleWords(input[..i])
    {
      var x := input[i];
      FourOctets(x);
      assert input[..i + 1][..i] == input[..i];
      output := output + [x % 256, x / 0x100 % 256, x / 0x1_0000 % 256, x / 0x100_0000 % 256];
    }
    assert input[..|input|] == input;
  }

  // ----- SHA-1 -----

  /** The compression of one block, as a total function. */
  function Sha1Block(s: Sha1.State, block: seq<octet>): Sha1.State {
    if |block| == 64 then Sha1.Compress(s, block) else s
  }

  const SHA1_INITIAL := Sha1.State(0x67452301, 0xEFCDAB89, 0x98BADCFE, 0x10325476, 0xC3D2E1F0)

  class Sha1Context {
    ghost const f: (Sha1.State, seq<octet>) -> Sha1.State
    var state: Sha1.State
    var count0: nat
    var count1: nat
    const buffer: array<octet>
    ghost var seen: seq<octet>

    ghost predicate Valid()
      reads this, buffer
    {
      && buffer.Length == 64
      && Counted()
      && Computes()
      && state == Fold(f, SHA1_INITIAL, seen)
      && buffer[..|seen| % 64] == Tail(seen)
    }

    ghost predicate Counted()
      reads this
    {
      count0 == Low(|seen|) && count1 == High(|seen|)
    }

    ghost predicate Computes() {
      forall s, block: Sha1.Buffer {:trigger Sha1.Compress(s, block)} :: f(s, block) == Sha1.Compress(s, block)
    }

    /** SHA1Init(). */
    constructor ()
      ensures Valid() && seen == [] && fresh(buffer) && f == Sha1Block
    {
      f := Sha1Block;
      state, count0, count1 := SHA1_INITIAL, 0, 0;
      buffer := new octet[64];
      seen := [];
    }

    method AddCount(len: nat)
      requires Counted() && len < 0x1_0000_0000
      modifies `count0, `count1
      ensures count0 == Low(|seen| + len) && count1 == High(|seen| + len)
    {
      var bits := 8 * len % 0x1_0000_0000;
      var j := count0;
      Added(|seen|, len, count0, count1, bits, (count0 + bits) % 0x1_0000_0000);
      count0 := (count0 + bits) % 0x1_0000_0000;
      if count0 < j {
        count1 := (count1 + 1) % 0x1_0000_0000;
      }
      count1 := (count1 + len / 0x2000_0000) % 0x1_0000_0000;
    }

    method Update(data: seq<octet>)
      requires Valid() && |data| < 0xFFFF_FFC0
      modifies this, buffer
      ensures Valid() && seen == old(seen) + data
    {
      IndexOf(|seen|);
      var j := count0;
      AddCount(|data|);
      j := j / 8 % 64;
      if j + |data| > 63 {
        Absorb(data, j);
      } else {
        Hold(data, j);
      }
      seen := seen + data;
    }

    /** The branch that does not. */
    method Hold(data: seq<octet>, j: nat)
      requires buffer.Length == 64 && state == Fold(f, SHA1_INITIAL, seen) && buffer[..|seen| % 64] == Tail(seen)
      requires j == |seen| % 64 && j + |data| < 64
      modifies buffer
      ensures state == Fold(f, SHA1_INITIAL, seen + data)
      ensures buffer[..|seen + data| % 64] == Tail(seen + data)
    {
      FoldShort(f, SHA1_INITIAL, seen, data);
      Copy(buffer, j, data);
      assert buffer[..j + |data|] == buffer[..j] + buffer[j..j + |data|];
    }

    /** The branch that completes a block. */
    method Absorb(data: seq<octet>, j: nat)
      requires buffer.Length == 64 && Computes()
      requires state == Fold(f, SHA1_INITIAL, seen) && buffer[..|seen| % 64] == Tail(seen)
      requires j == |seen| % 64 && j + |data| > 63
      modifies `state, buffer
      ensures state == Fold(f, SHA1_INITIAL, seen + data)
      ensures buffer[..|seen + data| % 64] == Tail(seen + data)
    {
      var i := 64 - j;
      Copy(buffer, j, data[..i]);
      FoldFilled(f, SHA1_INITIAL, seen, data[..i]);
      assert buffer[..] == buffer[..j] + buffer[j..64];
      Compress(buffer[..]);
      while i + 63 < |data|
        invariant i <= |data| && |seen + data[..i]| % 64 == 0
        invariant state == Fold(f, SHA1_INITIAL, seen + data[..i])
      {
        FoldNext(f, SHA1_INITIAL, seen, data, i);
        Compress(data[i..i + 64]);
        i := i + 64;
      }
      FoldLast(f, SHA1_INITIAL, seen, data, i);
      Copy(buffer, 0, data[i..]);
    }

    method Compress(block: Sha1.Buffer)
      requires Computes()
      modifies `state
      ensures state == f(old(state), block)
    {
      state := Sha1.Transform(state, block);
    }

    /** The padding goes in octet by octet until 448 bits of a block are full. */
    method Pad()
      requires Valid()
      modifies this, buffer
      ensures Valid() && seen == Marked(old(seen))
    {
      Update([0x80]);
      assert seen == seen + Zeros(0);
      ghost var zeros := 0;
      while count0 / 8 % 64 * 8 != 448
        invariant Valid() && zeros <= ZeroCount(|old(seen)|)
        invariant seen == old(seen) + [0x80] + Zeros(zeros)
        decreases ZeroCount(|old(seen)|) - zeros
      {
        IndexOf(|seen|);
        OneMoreZero(old(seen), zeros);
        Update([0]);
        zeros := zeros + 1;
      }
      IndexOf(|seen|);
      EnoughZeros(|old(seen)|, zeros);
    }

    /** The digest spells the state of the padded message, taken whole; nothing else remains. */
    method Final() returns (digest: seq<bv8>)
      requires Valid()
      modifies this, buffer
      ensures |digest| == 20
      ensures forall i :: 0 <= i < 20 ==>
        digest[i] == ByteOf(WordOf(Fold(f, SHA1_INITIAL, PaddedBig(old(seen))), i / 4), i % 4)
      ensures count0 == count1 == 0 && state == Sha1.State(0, 0, 0, 0, 0) && forall k :: 0 <= k < 64 ==> buffer[k] == 0
    {
      var finalCount := SpellCount(count0, count1);
      Pad();
      Update(finalCount);
      digest := SpellState(state);
      forall k | 0 <= k < 64 {
        buffer[k] := 0;
      }
      state, count0, count1 := Sha1.State(0, 0, 0, 0, 0), 0, 0;
    }
  }

  /** Every message, however it is cut: the digest of the pieces is that of their concatenation. */
  method Sha1InPieces(pieces: seq<seq<octet>>) returns (digest: seq<bv8>)
    requires forall i :: 0 <= i < |pieces| ==> |pieces[i]| < 0xFFFF_FFC0
    ensures |digest| == 20
    ensures forall i :: 0 <= i < 20 ==>
      digest[i] == ByteOf(WordOf(Fold(Sha1Block, SHA1_INITIAL, PaddedBig(Concat(pieces))), i / 4), i % 4)
  {
    var context := new Sha1Context();
    for i := 0 to |pieces|
      invariant context.Valid() && context.f == Sha1Block && fresh(context) && fresh(context.buffer)
      invariant context.seen == Concat(pieces[..i])
    {
      ConcatNext(pieces, i);
      context.Update(pieces[i]);
    }
    assert pieces[..|pieces|] == pieces;
    digest := context.Final();
  }

  /** The same of MD5, whatever its compression function. */
  method Md5InPieces(transform: (Md5State, seq<octet>) -> Md5State, pieces: seq<seq<octet>>)
    returns (digest: seq<octet>)
    requires forall i :: 0 <= i < |pieces| ==> |pieces[i]| < 0xFFFF_FFC0
    ensures digest == Digest(Fold(transform, MD5_INITIAL, PaddedLittle(Concat(pieces))))
  {
    var context := new Md5Context(transform);
    for i := 0 to |pieces|
      invariant context.Valid() && context.transform == transform
      invariant fresh(context) && fresh(context.buffer)
      invariant context.seen == Concat(pieces[..i])
    {
      ConcatNext(pieces, i);
      context.Update(pieces[i]);
    }
    assert pieces[..|pieces|] == pieces;
    digest := context.Final();
  }

  method SpellCount(count0: nat, count1: nat) returns (s: seq<octet>)
    ensures s == BigOctets(count1, 4) + BigOctets(count0, 4)
  {
    FourOctets(count0);
    FourOctets(count1);
    s := [];
    for i := 0 to 8
      invariant |s| == i
      invariant forall k :: 0 <= k < i ==> s[k] == if k >= 4 then Shifted(count0, k - 4) else Shifted(count1, k)
    {
      assert i % 4 == if i >= 4 then i - 4 else i;
      s := s + [Shifted(if i >= 4 then count0 else count1, i % 4)];
    }
  }

  /** Octet `k` of a 32-bit count, from its most significant. */
  function Shifted(x: nat, k: nat): octet {
    if k == 0 then x / 0x100_0000 % 256 else if k == 1 then x / 0x1_0000 % 256
    else if k == 2 then x / 0x100 % 256 else x % 256
  }

  method SpellState(state: Sha1.State) returns (digest: seq<bv8>)
    ensures |digest| == 20
    ensures forall i :: 0 <= i < 20 ==> digest[i] == ByteOf(WordOf(state, i / 4), i % 4)
  {
    digest := [];
    for i := 0 to 20
      invariant |digest| == i
      invariant forall k :: 0 <= k < i ==> digest[k] == ByteOf(WordOf(state, k / 4), k % 4)
    {
      digest := digest + [ByteOf(WordOf(state, i / 4), i % 4)];
    }
  }

  function WordOf(s: Sha1.State, j: nat): bv32 {
    if j == 0 then s.a else if j == 1 then s.b else if j == 2 then s.c else if j == 3 then s.d else s.e
  }

  /** Byte `k` of a word, from its most significant. */
  function ByteOf(x: bv32, k: nat): bv8 {
    if k == 0 then ((x >> 24) & 0xff) as bv8 else if k == 1 then ((x >> 16) & 0xff) as bv8
    else if k == 2 then ((x >> 8) & 0xff) as bv8 else (x & 0xff) as bv8
  }

  /** Nothing of a word is lost when it is spelled. */
  lemma SpellingReads(x: bv32)
    ensures Sha1.BigEndian(ByteOf(x, 0), ByteOf(x, 1), ByteOf(x, 2), ByteOf(x, 3)) == x
  {
  }

  lemma ZeroAppended(m: seq<octet>, zeros: nat)
    ensures m + [0x80] + Zeros(zeros) + [0] == m + [0x80] + Zeros(zeros + 1)
  {
    Assoc(m + [0x80], Zeros(zeros), [0]);
    assert Zeros(zeros) + [0] == Zeros(zeros + 1);
  }

  lemma OneMoreZero(m: seq<octet>, zeros: nat)
    requires zeros <= ZeroCount(|m|) && |m + [0x80] + Zeros(zeros)| % 64 != 56
    ensures zeros < ZeroCount(|m|)
    ensures m + [0x80] + Zeros(zeros) + [0] == m + [0x80] + Zeros(zeros + 1)
  {
    ZeroAppended(m, zeros);
  }

  lemma EnoughZeros(n: nat, zeros: nat)
    requires zeros <= ZeroCount(n) && (n + 1 + zeros) % 64 == 56
    ensures zeros == ZeroCount(n)
  {
  }
}
