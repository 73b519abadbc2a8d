/**
  AES on one block, as FIPS 197 defines it: the state of four columns, the key schedule,
  the cipher and its inverse.  The layers that compute are a parameter; all that the
  inversion needs of them is that they undo each other.
 */
module AesBlock {
  import opened AesField
  import opened AesColumn

  datatype Block = Block(c0: Word, c1: Word, c2: Word, c3: Word)

  datatype Layers = Layers(
    add: (Word, Word) -> Word,
    sbox: bv8 -> bv8,
    rsbox: bv8 -> bv8,
    mix: Word -> Word,
    unmix: Word -> Word)

  const LAYERS := Layers(AddWord, Sbox, Rsbox, MixColumn, InvMixColumn)

  ghost predicate Inverse(t: Layers) {
    && (forall u, v :: t.add(t.add(u, v), v) == u)
    && (forall x :: t.rsbox(t.sbox(x)) == x)
    && (forall x :: t.sbox(t.rsbox(x)) == x)
    && (forall w :: t.unmix(t.mix(w)) == w)
    && (forall w :: t.mix(t.unmix(w)) == w)
  }

  lemma LayersAreInverse()
    ensures Inverse(LAYERS)
  {
    forall u, v
      ensures LAYERS.add(LAYERS.add(u, v), v) == u
    {
      AddWordTwice(u, v);
    }
    forall x
      ensures LAYERS.rsbox(LAYERS.sbox(x)) == x && LAYERS.sbox(LAYERS.rsbox(x)) == x
    {
      RsboxSbox(x);
      SboxRsbox(x);
    }
    forall w
      ensures LAYERS.unmix(LAYERS.mix(w)) == w && LAYERS.mix(LAYERS.unmix(w)) == w
    {
      MixColumnInverts(w);
    }
  }

  // ----- the state -----

  function AddKey(t: Layers, b: Block, k: Block): Block {
    Block(t.add(b.c0, k.c0), t.add(b.c1, k.c1), t.add(b.c2, k.c2), t.add(b.c3, k.c3))
  }

  function MapBytes(f: bv8 -> bv8, b: Block): Block {
    Block(MapWord(f, b.c0), MapWord(f, b.c1), MapWord(f, b.c2), MapWord(f, b.c3))
  }

  /** Row `r` is rotated by `r`. */
  function ShiftRows(b: Block): Block {
    Block(Word(b.c0.b0, b.c1.b1, b.c2.b2, b.c3.b3), Word(b.c1.b0, b.c2.b1, b.c3.b2, b.c0.b3),
          Word(b.c2.b0, b.c3.b1, b.c0.b2, b.c1.b3), Word(b.c3.b0, b.c0.b1, b.c1.b2, b.c2.b3))
  }

  function InvShiftRows(b: Block): Block {
    Block(Word(b.c0.b0, b.c3.b1, b.c2.b2, b.c1.b3), Word(b.c1.b0, b.c0.b1, b.c3.b2, b.c2.b3),
          Word(b.c2.b0, b.c1.b1, b.c0.b2, b.c3.b3), Word(b.c3.b0, b.c2.b1, b.c1.b2, b.c0.b3))
  }

  function MapColumns(f: Word -> Word, b: Block): Block {
    Block(f(b.c0), f(b.c1), f(b.c2), f(b.c3))
  }

  lemma MapColumnsInverts(t: Layers, b: Block)
    requires Inverse(t)
    ensures MapColumns(t.unmix, MapColumns(t.mix, b)) == b
    ensures MapColumns(t.mix, MapColumns(t.unmix, b)) == b
  {
  }

  lemma AddKeyTwice(t: Layers, b: Block, k: Block)
    requires Inverse(t)
    ensures AddKey(t, AddKey(t, b, k), k) == b
  {
  }

  lemma ShiftRowsInverts(b: Block)
    ensures InvShiftRows(ShiftRows(b)) == b
    ensures ShiftRows(InvShiftRows(b)) == b
  {
  }

  lemma MapBytesInverts(t: Layers, b: Block)
    requires Inverse(t)
    ensures MapBytes(t.rsbox, MapBytes(t.sbox, b)) == b
    ensures MapBytes(t.sbox, MapBytes(t.rsbox, b)) == b
  {
  }

  // ----- the key schedule -----

  type Key = k: seq<bv8> | |k| == 16 witness seq(16, _ => 0)

  /** Word `i` of the key schedule, section 5.2 of FIPS 197. */
  function KeyWord(t: Layers, key: Key, i: nat): Word {
    if i < 4 then Word(key[4 * i], key[4 * i + 1], key[4 * i + 2], key[4 * i + 3])
    else t.add(KeyWord(t, key, i - 4), KeyTemp(t, KeyWord(t, key, i - 1), i))
  }

  function KeyTemp(t: Layers, w: Word, i: nat): Word {
    if i % 4 == 0 then t.add(MapWord(t.sbox, RotWord(w)), Word(Rcon(i / 4), 0, 0, 0)) else w
  }

  function RoundKey(t: Layers, key: Key, round: nat): Block {
    Block(KeyWord(t, key, 4 * round), KeyWord(t, key, 4 * round + 1),
          KeyWord(t, key, 4 * round + 2), KeyWord(t, key, 4 * round + 3))
  }

  const ROUNDS := 10

  type Schedule = keys: seq<Block> | |keys| == ROUNDS + 1 witness seq(ROUNDS + 1, _ => ZERO)

  const ZERO := Block(Word(0, 0, 0, 0), Word(0, 0, 0, 0), Word(0, 0, 0, 0), Word(0, 0, 0, 0))

  function KeySchedule(t: Layers, key: Key): Schedule {
    seq(ROUNDS + 1, round requires 0 <= round => RoundKey(t, key, round))
  }

  // ----- the cipher -----

  function Substituted(t: Layers, b: Block): Block {
    ShiftRows(MapBytes(t.sbox, b))
  }

  function Restored(t: Layers, b: Block): Block {
    MapBytes(t.rsbox, InvShiftRows(b))
  }

  /** The state after `n` of the identical rounds, section 5.1 of FIPS 197. */
  function Rounds(t: Layers, keys: Schedule, b: Block, n: nat): Block
    requires n < ROUNDS
  {
    if n == 0 then AddKey(t, b, keys[0])
    else AddKey(t, MapColumns(t.mix, Substituted(t, Rounds(t, keys, b, n - 1))), keys[n])
  }

  function Encipher(t: Layers, keys: Schedule, b: Block): Block {
    AddKey(t, Substituted(t, Rounds(t, keys, b, ROUNDS - 1)), keys[ROUNDS])
  }

  /** The state of the inverse cipher after `n` of its identical rounds, section 5.3. */
  function InvRounds(t: Layers, keys: Schedule, b: Block, n: nat): Block
    requires n < ROUNDS
  {
    if n == 0 then AddKey(t, b, keys[ROUNDS])
    else MapColumns(t.unmix, AddKey(t, Restored(t, InvRounds(t, keys, b, n - 1)), keys[ROUNDS - n]))
  }

  function Decipher(t: Layers, keys: Schedule, b: Block): Block {
    AddKey(t, Restored(t, InvRounds(t, keys, b, ROUNDS - 1)), keys[0])
  }

  lemma SubstitutedInverts(t: Layers, b: Block)
    requires Inverse(t)
    ensures Restored(t, Substituted(t, b)) == b
    ensures Substituted(t, Restored(t, b)) == b
  {
    MapBytesInverts(t, b);
    MapBytesInverts(t, InvShiftRows(b));
    ShiftRowsInverts(b);
    ShiftRowsInverts(MapBytes(t.sbox, b));
  }

  /** One round, taken back and forth. */
  lemma RoundUndone(t: Layers, k: Block, s: Block)
    requires Inverse(t)
    ensures MapColumns(t.unmix, AddKey(t, Restored(t, Substituted(t, AddKey(t, MapColumns(t.mix, s), k))), k)) == s
  {
    SubstitutedInverts(t, AddKey(t, MapColumns(t.mix, s), k));
    AddKeyTwice(t, MapColumns(t.mix, s), k);
    MapColumnsInverts(t, s);
  }

  lemma RoundRedone(t: Layers, k: Block, s: Block)
    requires Inverse(t)
    ensures Substituted(t, AddKey(t, MapColumns(t.mix, MapColumns(t.unmix, AddKey(t, Restored(t, s), k))), k)) == s
  {
    MapColumnsInverts(t, AddKey(t, Restored(t, s), k));
    AddKeyTwice(t, Restored(t, s), k);
    SubstitutedInverts(t, s);
  }

  lemma NextRound(t: Layers, keys: Schedule, p: Block, b: Block, n: nat)
    requires 0 < n < ROUNDS
    ensures Rounds(t, keys, p, n)
         == AddKey(t, MapColumns(t.mix, Substituted(t, Rounds(t, keys, p, n - 1))), keys[n])
    ensures InvRounds(t, keys, b, ROUNDS - n)
         == MapColumns(t.unmix, AddKey(t, Restored(t, InvRounds(t, keys, b, ROUNDS - n - 1)), keys[n]))
  {
  }

  /** Between round `n` and the next, the cipher from `p` meets the inverse cipher from `b`. */
  predicate Met(t: Layers, keys: Schedule, p: Block, b: Block, n: nat)
    requires n < ROUNDS
  {
    Substituted(t, Rounds(t, keys, p, n)) == InvRounds(t, keys, b, ROUNDS - 1 - n)
  }

  /** Each inverse round takes the state back to where the round found it ... */
  lemma MetBefore(t: Layers, keys: Schedule, p: Block, b: Block, n: nat, m: nat)
    requires Inverse(t) && n < ROUNDS && n == m + 1
    requires Met(t, keys, p, b, n)
    ensures Met(t, keys, p, b, m)
  {
    NextRound(t, keys, p, b, n);
    RoundUndone(t, keys[n], Substituted(t, Rounds(t, keys, p, m)));
  }

  /** ... and each round takes it forth again ... */
  lemma MetAfter(t: Layers, keys: Schedule, p: Block, b: Block, n: nat, m: nat)
    requires Inverse(t) && n < ROUNDS && n == m + 1
    requires Met(t, keys, p, b, m)
    ensures Met(t, keys, p, b, n)
  {
    NextRound(t, keys, p, b, n);
    RoundRedone(t, keys[n], InvRounds(t, keys, b, ROUNDS - 1 - n));
  }

  /** ... so that to meet once is to meet always. */
  lemma {:induction false} MetAlways(t: Layers, keys: Schedule, p: Block, b: Block, m: nat, n: nat)
    requires Inverse(t) && m <= n < ROUNDS
    ensures Met(t, keys, p, b, m) <==> Met(t, keys, p, b, n)
    decreases n
  {
    if m != n {
      var before := n - 1;
      MetAlways(t, keys, p, b, m, before);
      if Met(t, keys, p, b, before) {
        MetAfter(t, keys, p, b, n, before);
      } else if Met(t, keys, p, b, n) {
        MetBefore(t, keys, p, b, n, before);
      }
    }
  }

  lemma MetFirst(t: Layers, keys: Schedule, p: Block, b: Block, n: nat)
    requires Inverse(t) && n == 0
    ensures Met(t, keys, p, b, n) <==> p == Decipher(t, keys, b)
  {
    var s := InvRounds(t, keys, b, ROUNDS - 1);
    SubstitutedInverts(t, AddKey(t, p, keys[0]));
    SubstitutedInverts(t, s);
    AddKeyTwice(t, p, keys[0]);
    AddKeyTwice(t, Restored(t, s), keys[0]);
  }

  lemma MetLast(t: Layers, keys: Schedule, p: Block, b: Block, n: nat)
    requires Inverse(t) && n == ROUNDS - 1
    ensures Met(t, keys, p, b, n) <==> b == Encipher(t, keys, p)
  {
    AddKeyTwice(t, b, keys[ROUNDS]);
    AddKeyTwice(t, Substituted(t, Rounds(t, keys, p, n)), keys[ROUNDS]);
  }

  /** One block enciphers to another exactly when that deciphers to it. */
  lemma DecipherUndoesEncipher(t: Layers, keys: Schedule, p: Block, b: Block)
    requires Inverse(t)
    ensures b == Encipher(t, keys, p) <==> p == Decipher(t, keys, b)
  {
    var first, last := 0, ROUNDS - 1;
    MetFirst(t, keys, p, b, first);
    MetAlways(t, keys, p, b, first, last);
    MetLast(t, keys, p, b, last);
  }

  /** For every schedule, the cipher permutes the blocks and the inverse cipher undoes it. */
  lemma DecipherInverts(keys: Schedule, b: Block)
    ensures Decipher(LAYERS, keys, Encipher(LAYERS, keys, b)) == b
    ensures Encipher(LAYERS, keys, Decipher(LAYERS, keys, b)) == b
  {
    LayersAreInverse();
    DecipherUndoesEncipher(LAYERS, keys, b, Encipher(LAYERS, keys, b));
    DecipherUndoesEncipher(LAYERS, keys, Decipher(LAYERS, keys, b), b);
  }
}
