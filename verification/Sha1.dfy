/**
  SHA1Transform() of libwebsocket/private/sha1.cc: eighty rounds over a window of sixteen
  words that is rewritten in place, with the working variables renamed from round to
  round instead of moved.  The reference is section 6.1 of RFC 3174, with its schedule
  of eighty words.
 */
module Sha1 {
  import opened Octets

  datatype State = State(a: bv32, b: bv32, c: bv32, d: bv32, e: bv32)

  function Rol1(x: bv32): bv32 { (x << 1) | (x >> 31) }
  function Rol5(x: bv32): bv32 { (x << 5) | (x >> 27) }
  function Rol8(x: bv32): bv32 { (x << 8) | (x >> 24) }
  function Rol24(x: bv32): bv32 { (x << 24) | (x >> 8) }
  function Rol30(x: bv32): bv32 { (x << 30) | (x >> 2) }

  // ----- the reference -----

  /** The logical functions of section 5 of RFC 3174. */
  function Choose(b: bv32, c: bv32, d: bv32): bv32 { (b & c) | (!b & d) }
  function Parity(b: bv32, c: bv32, d: bv32): bv32 { b ^ c ^ d }
  function Majority(b: bv32, c: bv32, d: bv32): bv32 { (b & c) | (b & d) | (c & d) }

  function F(t: nat, b: bv32, c: bv32, d: bv32): bv32 {
    if t < 20 then Choose(b, c, d) else if t < 40 then Parity(b, c, d)
    else if t < 60 then Majority(b, c, d) else Parity(b, c, d)
  }

  function K(t: nat): bv32 {
    if t < 20 then 0x5A827999 else if t < 40 then 0x6ED9EBA1 else if t < 60 then 0x8F1BBCDC else 0xCA62C1D6
  }

  type Words = s: seq<bv32> | |s| == 16 witness seq(16, _ => 0)

  /** Word `t` of the schedule. */
  function W(words: Words, t: nat): bv32 {
    if t < 16 then words[t]
    else Mixed(W(words, t - 3), W(words, t - 8), W(words, t - 14), W(words, t - 16))
  }

  function Mixed(p: bv32, q: bv32, r: bv32, s: bv32): bv32 {
    Rol1(p ^ q ^ r ^ s)
  }

  function Temp(a: bv32, f: bv32, e: bv32, w: bv32, k: bv32): bv32 {
    Rol5(a) + f + e + w + k
  }

  function Step(words: Words, s: State, t: nat): State {
    State(Temp(s.a, F(t, s.b, s.c, s.d), s.e, W(words, t), K(t)), s.a, Rol30(s.b), s.c, s.d)
  }

  const ROUNDS: nat := 80

  function Rounds(words: Words, s: State, n: nat): State {
    if n == 0 then s else Step(words, Rounds(words, s, n - 1), n - 1)
  }

  // ----- the source -----

  /** The logical functions as the source rewrites them. */
  lemma ChooseRewritten(w: bv32, x: bv32, y: bv32)
    ensures (w & (x ^ y)) ^ y == Choose(w, x, y)
  {
  }

  lemma MajorityRewritten(w: bv32, x: bv32, y: bv32)
    ensures ((w | x) & y) | (w & x) == Majority(w, x, y)
  {
  }

  /** A word as it lies in memory, and byte-swapped by blk0(). */
  function LittleEndian(b0: bv8, b1: bv8, b2: bv8, b3: bv8): bv32 {
    (b0 as bv32) | ((b1 as bv32) << 8) | ((b2 as bv32) << 16) | ((b3 as bv32) << 24)
  }

  function BigEndian(b0: bv8, b1: bv8, b2: bv8, b3: bv8): bv32 {
    ((b0 as bv32) << 24) | ((b1 as bv32) << 16) | ((b2 as bv32) << 8) | (b3 as bv32)
  }

  function Swapped(x: bv32): bv32 {
    (Rol24(x) & 0xFF00FF00) | (Rol8(x) & 0x00FF00FF)
  }

  lemma SwapReads(b0: bv8, b1: bv8, b2: bv8, b3: bv8)
    ensures Swapped(LittleEndian(b0, b1, b2, b3)) == BigEndian(b0, b1, b2, b3)
  {
  }

  type Buffer = s: seq<octet> | |s| == 64 witness seq(64, _ => 0)

  function Byte(o: octet): bv8 {
    o as bv8
  }

  /** Section 6.1 of RFC 3174, step a: the block as sixteen words, most significant byte first. */
  function WordsOf(buffer: Buffer): Words {
    seq(16, t requires 0 <= t < 16 =>
      BigEndian(Byte(buffer[4 * t]), Byte(buffer[4 * t + 1]), Byte(buffer[4 * t + 2]), Byte(buffer[4 * t + 3])))
  }

  function Compress(s: State, buffer: Buffer): State {
    AddStates(s, Rounds(WordsOf(buffer), s, ROUNDS))
  }

  function AddStates(s: State, r: State): State {
    State(s.a + r.a, s.b + r.b, s.c + r.c, s.d + r.d, s.e + r.e)
  }

  /** The window before round `i`: words not read yet lie as in memory, then the last sixteen of the schedule. */
  ghost predicate Window(block: array<bv32>, words: Words, i: nat)
    requires block.Length == 16
    reads block
  {
    && (forall k :: i <= k < 16 ==> Swapped(block[k]) == words[k])
    && (forall t :: 0 <= t < i && i - 16 <= t ==> block[t % 16] == W(words, t))
  }

  /** blk0() and blk(): the word of round `i` takes the place of the oldest. */
  method Blk0(block: array<bv32>, i: nat, ghost words: Words) returns (w: bv32)
    requires block.Length == 16 && i < 16 && Window(block, words, i)
    modifies block
    ensures w == W(words, i) && Window(block, words, i + 1)
  {
    block[i] := Swapped(block[i]);
    w := block[i];
  }

  lemma Slots(i: nat)
    requires i >= 16
    ensures (i - 3) % 16 == (i + 13) % 16 && (i - 8) % 16 == (i + 8) % 16
    ensures (i - 14) % 16 == (i + 2) % 16 && (i - 16) % 16 == i % 16
  {
    SameSlot(i - 3);
    SameSlot(i - 8);
    SameSlot(i - 14);
    SameSlot(i - 16);
  }

  lemma SameSlot(a: nat)
    ensures a % 16 == (a + 16) % 16
  {
  }

  lemma SlotTaken(t: nat, i: nat)
    requires i - 16 < t < i
    ensures t % 16 != i % 16
  {
  }

  method Blk(block: array<bv32>, i: nat, ghost words: Words) returns (w: bv32)
    requires block.Length == 16 && i >= 16 && Window(block, words, i)
    modifies block
    ensures w == W(words, i) && Window(block, words, i + 1)
  {
    Slots(i);
    assert block[(i - 3) % 16] == W(words, i - 3);
    assert block[(i - 8) % 16] == W(words, i - 8);
    assert block[(i - 14) % 16] == W(words, i - 14);
    assert block[(i - 16) % 16] == W(words, i - 16);
    w := Rol1(block[(i + 13) % 16] ^ block[(i + 8) % 16] ^ block[(i + 2) % 16] ^ block[i % 16]);
    assert w == W(words, i);
    Replace(block, i, w, words);
  }

  method Replace(block: array<bv32>, i: nat, w: bv32, ghost words: Words)
    requires block.Length == 16 && i >= 16 && Window(block, words, i) && w == W(words, i)
    modifies block
    ensures Window(block, words, i + 1)
  {
    block[i % 16] := w;
    forall t | 0 <= t < i + 1 && i - 15 <= t
      ensures block[t % 16] == W(words, t)
    {
      if t < i {
        SlotTaken(t, i);
      }
    }
  }

  /** The sum common to the macros R0 to R4. */
  method Sum(z: bv32, f: bv32, w: bv32, k: bv32, v: bv32) returns (r: bv32)
    ensures r == Temp(v, f, z, w, k)
  {
    r := z + (f + w + k + Rol5(v));
  }

  /** R0 reads its words with blk0(), the others with blk(). */
  method NextWord(block: array<bv32>, i: nat, ghost words: Words) returns (w: bv32)
    requires block.Length == 16 && Window(block, words, i)
    modifies block
    ensures w == W(words, i) && Window(block, words, i + 1)
  {
    if i < 16 {
      w := Blk0(block, i, words);
    } else {
      w := Blk(block, i, words);
    }
  }

  /** The logical functions as the macros write them. */
  method ChooseBits(w: bv32, x: bv32, y: bv32) returns (f: bv32)
    ensures f == Choose(w, x, y)
  {
    ChooseRewritten(w, x, y);
    f := (w & (x ^ y)) ^ y;
  }

  method ParityBits(w: bv32, x: bv32, y: bv32) returns (f: bv32)
    ensures f == Parity(w, x, y)
  {
    f := w ^ x ^ y;
  }

  method MajorityBits(w: bv32, x: bv32, y: bv32) returns (f: bv32)
    ensures f == Majority(w, x, y)
  {
    MajorityRewritten(w, x, y);
    f := ((w | x) & y) | (w & x);
  }

  /** Which of them each range of rounds uses. */
  method Logical(i: nat, w: bv32, x: bv32, y: bv32) returns (f: bv32)
    ensures f == F(i, w, x, y)
  {
    if i < 20 {
      f := ChooseBits(w, x, y);
    } else if i < 40 {
      f := ParityBits(w, x, y);
    } else if i < 60 {
      f := MajorityBits(w, x, y);
    } else {
      f := ParityBits(w, x, y);
    }
  }

  method RoundSum(i: nat, v: bv32, w: bv32, x: bv32, y: bv32, z: bv32, word: bv32) returns (r: bv32)
    ensures r == Temp(v, F(i, w, x, y), z, word, K(i))
  {
    var f := Logical(i, w, x, y);
    r := Sum(z, f, word, K(i), v);
  }

  /**
    One round, R0 to R4 by its number.  Only `z` and `w` change; the next round takes
    the variables in the order z v w x y.
   */
  method R(block: array<bv32>, i: nat, v: bv32, w: bv32, x: bv32, y: bv32, z: bv32,
           ghost words: Words, ghost s0: State)
    returns (z': bv32, w': bv32)
    requires block.Length == 16 && i < ROUNDS && Window(block, words, i)
    requires State(v, w, x, y, z) == Rounds(words, s0, i)
    modifies block
    ensures Window(block, words, i + 1)
    ensures State(z', v, w', x, y) == Rounds(words, s0, i + 1)
  {
    var word := NextWord(block, i, words);
    z' := RoundSum(i, v, w, x, y, z, word);
    w' := Rol30(w);
  }

  /** Five rounds: every variable has played every part. */
  method FiveRounds(block: array<bv32>, i: nat, s: State, ghost words: Words, ghost s0: State) returns (r: State)
    requires block.Length == 16 && i + 5 <= ROUNDS && Window(block, words, i)
    requires s == Rounds(words, s0, i)
    modifies block
    ensures Window(block, words, i + 5)
    ensures r == Rounds(words, s0, i + 5)
  {
    var a, b, c, d, e := s.a, s.b, s.c, s.d, s.e;
    e, b := R(block, i, a, b, c, d, e, words, s0);
    d, a := R(block, i + 1, e, a, b, c, d, words, s0);
    c, e := R(block, i + 2, d, e, a, b, c, words, s0);
    b, d := R(block, i + 3, c, d, e, a, b, words, s0);
    a, c := R(block, i + 4, b, c, d, e, a, words, s0);
    r := State(a, b, c, d, e);
  }

  /** The copy of the block, and the union of bytes and words. */
  method Load(buffer: Buffer) returns (block: array<bv32>)
    ensures fresh(block) && block.Length == 16 && Window(block, WordsOf(buffer), 0)
  {
    block := new bv32[16];
    for t := 0 to 16
      invariant forall k :: 0 <= k < t ==> Swapped(block[k]) == WordsOf(buffer)[k]
    {
      var b0, b1 := Byte(buffer[4 * t]), Byte(buffer[4 * t + 1]);
      var b2, b3 := Byte(buffer[4 * t + 2]), Byte(buffer[4 * t + 3]);
      SwapReads(b0, b1, b2, b3);
      block[t] := LittleEndian(b0, b1, b2, b3);
      assert Swapped(block[t]) == WordsOf(buffer)[t];
    }
  }

  method AllRounds(block: array<bv32>, state: State, ghost words: Words) returns (s: State)
    requires block.Length == 16 && Window(block, words, 0)
    modifies block
    ensures s == Rounds(words, state, ROUNDS)
  {
    s := state;
    var i := 0;
    for group := 0 to 16
      invariant i == 5 * group
      invariant Window(block, words, i)
      invariant s == Rounds(words, state, i)
    {
      s := FiveRounds(block, i, s, words, state);
      i := i + 5;
    }
  }

  /** The whole block. */
  method Transform(state: State, buffer: Buffer) returns (r: State)
    ensures r == Compress(state, buffer)
  {
    var block := Load(buffer);
    var s := AllRounds(block, state, WordsOf(buffer));
    r := AddStates(state, s);
  }
}
