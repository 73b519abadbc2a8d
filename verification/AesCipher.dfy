/**
  The class AES_ECB_Cipher of https/AES_Cipher.cpp, without its chaining mode: the state
  and the round keys are byte arrays updated in place.  Encryption keeps the state by
  rows, decryption by columns.
 */
module AesCipher {
  import opened Options
  import opened AesField
  import opened AesColumn
  import opened AesBlock
  import opened AesMessage

  class Cipher {
    const key: Key
    const t: Layers
    const roundKey: array<bv8>  // mRoundKey
    const state: array2<bv8>    // *mState

    ghost predicate Valid() {
      && roundKey.Length == 240 && state.Length0 == 4 && state.Length1 == 4
      && (forall u, v {:trigger AddWord(u, v)} :: t.add(u, v) == AddWord(u, v))
      && (forall w {:trigger MixColumn(w)} :: t.mix(w) == MixColumn(w))
      && (forall w {:trigger InvMixColumn(w)} :: t.unmix(w) == InvMixColumn(w))
    }

    constructor (key: Key)
      ensures Valid() && this.key == key && t == LAYERS
      ensures fresh(state) && fresh(roundKey)
    {
      this.key := key;
      t := LAYERS;
      roundKey := new bv8[240];
      state := new bv8[4, 4];
    }

    ghost function Column(j: nat): Word
      requires Valid() && j < 4
      reads state
    {
      Word(state[0, j], state[1, j], state[2, j], state[3, j])
    }

    ghost function Row(i: nat): Word
      requires Valid() && i < 4
      reads state
    {
      Word(state[i, 0], state[i, 1], state[i, 2], state[i, 3])
    }

    /** The state in the layout of encryption, where the first index is the row ... */
    ghost function ByRows(): Block
      requires Valid()
      reads state
    {
      Block(Column(0), Column(1), Column(2), Column(3))
    }

    /** ... and in the layout of decryption, where it is the column. */
    ghost function ByColumns(): Block
      requires Valid()
      reads state
    {
      Block(Row(0), Row(1), Row(2), Row(3))
    }

    ghost function KeyByte(i: nat, j: nat): bv8
      requires Valid() && i < 60 && j < 4
      reads roundKey
    {
      roundKey[4 * i + j]
    }

    ghost function KeyWordAt(i: nat): Word
      requires Valid() && i < 60
      reads roundKey
    {
      Word(KeyByte(i, 0), KeyByte(i, 1), KeyByte(i, 2), KeyByte(i, 3))
    }

    ghost function RoundKeyAt(round: nat): Block
      requires Valid() && round <= ROUNDS
      reads roundKey
    {
      Block(KeyWordAt(4 * round), KeyWordAt(4 * round + 1), KeyWordAt(4 * round + 2), KeyWordAt(4 * round + 3))
    }

    /** The key schedule is in place. */
    ghost predicate Expanded()
      requires Valid()
      reads roundKey
    {
      forall round :: 0 <= round <= ROUNDS ==> RoundKeyAt(round) == KeySchedule(t, key)[round]
    }

    /**
      Section 5.2 of FIPS 197, byte by byte: what is added to byte `j` of word `i - 4`, given
      the S-box and the round constants.
     */
    ghost function Addend(sbox: bv8 -> bv8, constant: nat -> bv8, i: nat, j: nat): bv8
      requires Valid() && 4 <= i < 44 && j < 4
      reads roundKey
    {
      if i % 4 != 0 then roundKey[4 * (i - 1) + j]
      else Add(sbox(roundKey[4 * (i - 1) + (j + 1) % 4]), if j == 0 then constant(i / 4 - 1) else 0)
    }

    /** The bytes of the schedule: the key first, then each from those before it. */
    ghost predicate ExpandedBytes(sbox: bv8 -> bv8, constant: nat -> bv8)
      requires Valid()
      reads roundKey
    {
      && (forall k :: 0 <= k < 16 ==> roundKey[k] == key[k])
      && (forall i, j {:trigger Addend(sbox, constant, i, j)} :: 4 <= i < 44 && 0 <= j < 4 ==>
            roundKey[4 * i + j] == Add(roundKey[4 * (i - 4) + j], Addend(sbox, constant, i, j)))
    }

    method KeyExpansion()
      requires Valid()
      modifies roundKey
      ensures Expanded()
      ensures t == LAYERS ==> ExpandedBytes(Sbox, PowerOfX)
    {
      CopyKey();
      ExpandKey();
      WordsExpand();
      ConstantsArePowers(PowerOfX);
      BytesExpand(t.sbox, PowerOfX);
    }

    /** The words of the schedule are these bytes. */
    lemma BytesExpand(sbox: bv8 -> bv8, constant: nat -> bv8)
      requires Valid() && Scheduled(44) && sbox == t.sbox && RoundConstants(constant)
      ensures ExpandedBytes(sbox, constant)
    {
      forall k | 0 <= k < 16
        ensures roundKey[k] == key[k]
      {
        KeyCopied(k / 4, k % 4);
      }
      forall i, j | 4 <= i < 44 && 0 <= j < 4
        ensures roundKey[4 * i + j] == Add(roundKey[4 * (i - 4) + j], Addend(sbox, constant, i, j))
      {
        ByteExpands(sbox, constant, i, j);
      }
    }

    lemma KeyCopied(m: nat, j: nat)
      requires Valid() && Scheduled(44) && m < 4 && j < 4
      ensures roundKey[4 * m + j] == key[4 * m + j]
    {
      assert KeyWordAt(m) == KeyWord(t, key, m);
    }

    lemma WordExpands(i: nat)
      requires Valid() && Scheduled(44) && 4 <= i < 44
      ensures KeyWordAt(i) == AddWord(KeyWordAt(i - 4), KeyTemp(t, KeyWordAt(i - 1), i))
    {
      assert KeyWordAt(i) == KeyWord(t, key, i) && KeyWordAt(i - 4) == KeyWord(t, key, i - 4);
      assert KeyWordAt(i - 1) == KeyWord(t, key, i - 1);
    }

    lemma ByteOfWord(i: nat, j: nat)
      requires Valid() && i < 60 && j < 4
      ensures ByteAt(KeyWordAt(i), j) == roundKey[4 * i + j]
    {
    }

    lemma ByteExpands(sbox: bv8 -> bv8, constant: nat -> bv8, i: nat, j: nat)
      requires Valid() && Scheduled(44) && sbox == t.sbox && RoundConstants(constant) && 4 <= i < 44 && j < 4
      ensures roundKey[4 * i + j] == Add(roundKey[4 * (i - 4) + j], Addend(sbox, constant, i, j))
    {
      var w, v, temp := KeyWordAt(i), KeyWordAt(i - 4), KeyTemp(t, KeyWordAt(i - 1), i);
      WordExpands(i);
      ByteOfWord(i, j);
      ByteOfWord(i - 4, j);
      SumOfBytes(w, v, temp, j, ByteAt(v, j), ByteAt(temp, j));
      AddendOfWord(sbox, constant, i, j);
    }

    lemma AddendOfWord(sbox: bv8 -> bv8, constant: nat -> bv8, i: nat, j: nat)
      requires Valid() && sbox == t.sbox && RoundConstants(constant) && 4 <= i < 44 && j < 4
      ensures Addend(sbox, constant, i, j) == ByteAt(KeyTemp(t, KeyWordAt(i - 1), i), j)
    {
      ByteOfWord(i - 1, j);
      ByteOfWord(i - 1, (j + 1) % 4);
      TempBytes(KeyWordAt(i - 1), constant, i, j);
    }

    lemma TempBytes(w: Word, constant: nat -> bv8, i: nat, j: nat)
      requires Valid() && RoundConstants(constant) && 4 <= i < 44 && j < 4
      ensures ByteAt(KeyTemp(t, w, i), j) ==
              if i % 4 != 0 then ByteAt(w, j)
              else Add(t.sbox(ByteAt(w, (j + 1) % 4)), if j == 0 then constant(i / 4 - 1) else 0)
    {
      if i % 4 == 0 {
        var v, c := MapWord(t.sbox, RotWord(w)), Word(Rcon(i / 4), 0, 0, 0);
        assert t.add(v, c) == AddWord(v, c);
        ByteOfSum(v, c, j);
        RotatedByte(t.sbox, w, j);
      }
    }

    /** Every word of the schedule below `n` is in place. */
    ghost predicate Scheduled(n: nat)
      requires Valid() && n <= 60
      reads roundKey
    {
      forall m :: 0 <= m < n ==> KeyWordAt(m) == KeyWord(t, key, m)
    }

    lemma WordsExpand()
      requires Valid() && Scheduled(44)
      ensures Expanded()
    {
    }

    method CopyKey()
      requires Valid()
      modifies roundKey
      ensures Scheduled(4)
    {
      forall k | 0 <= k < roundKey.Length {
        roundKey[k] := 0;
      }
      for i := 0 to 4
        invariant forall k :: 0 <= k < 4 * i ==> roundKey[k] == key[k]
      {
        roundKey[i * 4] := key[i * 4];
        roundKey[i * 4 + 1] := key[i * 4 + 1];
        roundKey[i * 4 + 2] := key[i * 4 + 2];
        roundKey[i * 4 + 3] := key[i * 4 + 3];
      }
    }

    method ExpandKey()
      requires Valid() && Scheduled(4)
      modifies roundKey
      ensures Scheduled(44)
    {
      for i := 4 to 44
        invariant Scheduled(i)
      {
        ExpandWord(i);
        assert KeyWordAt(i) == KeyWord(t, key, i);
      }
    }

    method ExpandWord(i: nat)
      requires Valid() && 4 <= i < 44
      modifies roundKey
      ensures KeyWordAt(i) == t.add(old(KeyWordAt(i - 4)), KeyTemp(t, old(KeyWordAt(i - 1)), i))
      ensures forall m :: 0 <= m < i ==> KeyWordAt(m) == old(KeyWordAt(m))
    {
      var temp := ScheduleCore(roundKey[(i - 1) * 4], roundKey[(i - 1) * 4 + 1], roundKey[(i - 1) * 4 + 2],
                               roundKey[(i - 1) * 4 + 3], i);
      XorWords(i, temp);
    }

    method XorWords(i: nat, temp: Word)
      requires Valid() && 4 <= i < 44
      modifies roundKey
      ensures KeyWordAt(i) == t.add(old(KeyWordAt(i - 4)), temp)
      ensures forall k :: 0 <= k < 4 * i ==> roundKey[k] == old(roundKey[k])
    {
      roundKey[i * 4 + 0] := Add(roundKey[(i - 4) * 4 + 0], temp.b0);
      roundKey[i * 4 + 1] := Add(roundKey[(i - 4) * 4 + 1], temp.b1);
      roundKey[i * 4 + 2] := Add(roundKey[(i - 4) * 4 + 2], temp.b2);
      roundKey[i * 4 + 3] := Add(roundKey[(i - 4) * 4 + 3], temp.b3);
      assert KeyWordAt(i) == AddWord(old(KeyWordAt(i - 4)), temp);
    }

    /** The word before, rotated, substituted and given its round constant every fourth time. */
    method ScheduleCore(b0: bv8, b1: bv8, b2: bv8, b3: bv8, i: nat) returns (w: Word)
      requires Valid()
      ensures w == KeyTemp(t, Word(b0, b1, b2, b3), i)
    {
      var t0, t1, t2, t3 := b0, b1, b2, b3;
      if i % 4 == 0 {
        var k := t0;
        t0 := t1;
        t1 := t2;
        t2 := t3;
        t3 := k;
        t0 := t.sbox(t0);
        t1 := t.sbox(t1);
        t2 := t.sbox(t2);
        t3 := t.sbox(t3);
        Zeros(t1);
        Zeros(t2);
        Zeros(t3);
        assert t.add(Word(t0, t1, t2, t3), Word(Rcon(i / 4), 0, 0, 0))
            == AddWord(Word(t0, t1, t2, t3), Word(Rcon(i / 4), 0, 0, 0));
        t0 := Add(t0, Rcon(i / 4));
      }
      w := Word(t0, t1, t2, t3);
    }

    // ----- the layers of encryption -----

    method AddRoundKey(round: nat)
      requires Valid() && round <= ROUNDS
      modifies state
      ensures ByRows() == AddKey(t, old(ByRows()), RoundKeyAt(round))
    {
      for i := 0 to 4
        invariant forall c :: 0 <= c < 4 ==>
          Column(c) == if c < i then AddWord(old(Column(c)), KeyWordAt(4 * round + c)) else old(Column(c))
      {
        AddToColumn(round, i);
      }
    }

    method AddToColumn(round: nat, i: nat)
      requires Valid() && round <= ROUNDS && i < 4
      modifies state
      ensures forall c :: 0 <= c < 4 ==>
        Column(c) == if c == i then AddWord(old(Column(c)), KeyWordAt(4 * round + c)) else old(Column(c))
    {
      for j := 0 to 4
        invariant forall r, c :: 0 <= r < 4 && 0 <= c < 4 ==>
          state[r, c] == if c == i && r < j
                         then Add(old(state[r, c]), KeyByte(4 * round + c, r)) else old(state[r, c])
      {
        assert KeyByte(4 * round + i, j) == roundKey[round * 16 + i * 4 + j];
        state[j, i] := Add(state[j, i], roundKey[round * 16 + i * 4 + j]);
      }
    }

    method SubBytes()
      requires Valid()
      modifies state
      ensures ByRows() == MapBytes(t.sbox, old(ByRows()))
    {
      for i := 0 to 4
        invariant forall r, c :: 0 <= r < 4 && 0 <= c < 4 ==>
          state[r, c] == if r < i then t.sbox(old(state[r, c])) else old(state[r, c])
      {
        for j := 0 to 4
          invariant forall r, c :: 0 <= r < 4 && 0 <= c < 4 ==>
            state[r, c] == if r < i || (r == i && c < j) then t.sbox(old(state[r, c])) else old(state[r, c])
        {
          assert state[i, j] == old(state[i, j]);
          state[i, j] := t.sbox(state[i, j]);
        }
      }
    }

    method ShiftRows()
      requires Valid()
      modifies state
      ensures ByRows() == AesBlock.ShiftRows(old(ByRows()))
    {
      RotateRow1();
      RotateRow2();
      RotateRow3();
    }

    method RotateRow1()
      requires Valid()
      modifies state
      ensures Row(1) == RotWord(old(Row(1)))
      ensures Row(0) == old(Row(0)) && Row(2) == old(Row(2)) && Row(3) == old(Row(3))
    {
      var temp := state[1, 0];
      state[1, 0] := state[1, 1];
      state[1, 1] := state[1, 2];
      state[1, 2] := state[1, 3];
      state[1, 3] := temp;
    }

    method RotateRow2()
      requires Valid()
      modifies state
      ensures Row(2) == RotWord(RotWord(old(Row(2))))
      ensures Row(0) == old(Row(0)) && Row(1) == old(Row(1)) && Row(3) == old(Row(3))
    {
      var temp := state[2, 0];
      state[2, 0] := state[2, 2];
      state[2, 2] := temp;
      temp := state[2, 1];
      state[2, 1] := state[2, 3];
      state[2, 3] := temp;
    }

    method RotateRow3()
      requires Valid()
      modifies state
      ensures Row(3) == RotWord(RotWord(RotWord(old(Row(3)))))
      ensures Row(0) == old(Row(0)) && Row(1) == old(Row(1)) && Row(2) == old(Row(2))
    {
      var temp := state[3, 0];
      state[3, 0] := state[3, 3];
      state[3, 3] := state[3, 2];
      state[3, 2] := state[3, 1];
      state[3, 1] := temp;
    }

    method MixColumns()
      requires Valid()
      modifies state
      ensures ByRows() == MapColumns(t.mix, old(ByRows()))
    {
      for i := 0 to 4
        invariant forall c :: 0 <= c < 4 ==> Column(c) == if c < i then t.mix(old(Column(c))) else old(Column(c))
      {
        MixOne(i);
      }
    }

    method MixOne(i: nat)
      requires Valid() && i < 4
      modifies state
      ensures Column(i) == t.mix(old(Column(i)))
      ensures forall c :: 0 <= c < 4 && c != i ==> Column(c) == old(Column(c))
    {
      var b0, b1, b2, b3 := MixBytes(state[0, i], state[1, i], state[2, i], state[3, i]);
      state[0, i], state[1, i], state[2, i], state[3, i] := b0, b1, b2, b3;
    }

    method Round(round: nat)
      requires Valid() && round <= ROUNDS
      modifies state
      ensures ByRows() == AddKey(t, MapColumns(t.mix, Substituted(t, old(ByRows()))), RoundKeyAt(round))
    {
      SubBytes();
      ShiftRows();
      MixColumns();
      AddRoundKey(round);
    }

    method LastRound()
      requires Valid()
      modifies state
      ensures ByRows() == AddKey(t, Substituted(t, old(ByRows())), RoundKeyAt(ROUNDS))
    {
      SubBytes();
      ShiftRows();
      AddRoundKey(ROUNDS);
    }

    method Encipher()
      requires Valid() && Expanded()
      modifies state
      ensures ByRows() == AesBlock.Encipher(t, KeySchedule(t, key), old(ByRows()))
    {
      ghost var keys := KeySchedule(t, key);
      AddRoundKey(0);
      for round := 1 to ROUNDS
        invariant ByRows() == Rounds(t, keys, old(ByRows()), round - 1)
      {
        Round(round);
      }
      LastRound();
    }

    // ----- the layers of decryption -----

    method InvAddRoundKey(round: nat)
      requires Valid() && round <= ROUNDS
      modifies state
      ensures ByColumns() == AddKey(t, old(ByColumns()), RoundKeyAt(round))
    {
      for i := 0 to 4
        invariant forall r :: 0 <= r < 4 ==>
          Row(r) == if r < i then AddWord(old(Row(r)), KeyWordAt(4 * round + r)) else old(Row(r))
      {
        AddToRow(round, i);
      }
    }

    method AddToRow(round: nat, i: nat)
      requires Valid() && round <= ROUNDS && i < 4
      modifies state
      ensures forall r :: 0 <= r < 4 ==>
        Row(r) == if r == i then AddWord(old(Row(r)), KeyWordAt(4 * round + r)) else old(Row(r))
    {
      for j := 0 to 4
        invariant forall r, c :: 0 <= r < 4 && 0 <= c < 4 ==>
          state[r, c] == if r == i && c < j
                         then Add(old(state[r, c]), KeyByte(4 * round + r, c)) else old(state[r, c])
      {
        assert KeyByte(4 * round + i, j) == roundKey[round * 16 + i * 4 + j];
        state[i, j] := Add(state[i, j], roundKey[round * 16 + i * 4 + j]);
      }
    }

    method InvSubBytes()
      requires Valid()
      modifies state
      ensures ByColumns() == MapBytes(t.rsbox, old(ByColumns()))
    {
      for i := 0 to 4
        invariant forall r, c :: 0 <= r < 4 && 0 <= c < 4 ==>
          state[r, c] == if c < i then t.rsbox(old(state[r, c])) else old(state[r, c])
      {
        for j := 0 to 4
          invariant forall r, c :: 0 <= r < 4 && 0 <= c < 4 ==>
            state[r, c] == if c < i || (c == i && r < j) then t.rsbox(old(state[r, c])) else old(state[r, c])
        {
          assert state[j, i] == old(state[j, i]);
          state[j, i] := t.rsbox(state[j, i]);
        }
      }
    }

    method InvShiftRows()
      requires Valid()
      modifies state
      ensures ByColumns() == AesBlock.InvShiftRows(old(ByColumns()))
    {
      InvRotateRow1();
      InvRotateRow2();
      InvRotateRow3();
    }

    // The rows of the cipher are the columns of this layout.

    method InvRotateRow1()
      requires Valid()
      modifies state
      ensures old(Column(1)) == RotWord(Column(1))
      ensures Column(0) == old(Column(0)) && Column(2) == old(Column(2)) && Column(3) == old(Column(3))
    {
      var temp := state[3, 1];
      state[3, 1] := state[2, 1];
      state[2, 1] := state[1, 1];
      state[1, 1] := state[0, 1];
      state[0, 1] := temp;
    }

    method InvRotateRow2()
      requires Valid()
      modifies state
      ensures old(Column(2)) == RotWord(RotWord(Column(2)))
      ensures Column(0) == old(Column(0)) && Column(1) == old(Column(1)) && Column(3) == old(Column(3))
    {
      var temp := state[0, 2];
      state[0, 2] := state[2, 2];
      state[2, 2] := temp;
      temp := state[1, 2];
      state[1, 2] := state[3, 2];
      state[3, 2] := temp;
    }

    method InvRotateRow3()
      requires Valid()
      modifies state
      ensures old(Column(3)) == RotWord(RotWord(RotWord(Column(3))))
      ensures Column(0) == old(Column(0)) && Column(1) == old(Column(1)) && Column(2) == old(Column(2))
    {
      var temp := state[0, 3];
      state[0, 3] := state[1, 3];
      state[1, 3] := state[2, 3];
      state[2, 3] := state[3, 3];
      state[3, 3] := temp;
    }

    method InvMixColumns()
      requires Valid()
      modifies state
      ensures ByColumns() == MapColumns(t.unmix, old(ByColumns()))
    {
      for i := 0 to 4
        invariant forall r :: 0 <= r < 4 ==> Row(r) == if r < i then t.unmix(old(Row(r))) else old(Row(r))
      {
        UnmixOne(i);
      }
    }

    method UnmixOne(i: nat)
      requires Valid() && i < 4
      modifies state
      ensures Row(i) == t.unmix(old(Row(i)))
      ensures forall r :: 0 <= r < 4 && r != i ==> Row(r) == old(Row(r))
    {
      var b0, b1, b2, b3 := UnmixBytes(state[i, 0], state[i, 1], state[i, 2], state[i, 3]);
      state[i, 0], state[i, 1], state[i, 2], state[i, 3] := b0, b1, b2, b3;
    }

    method InvRound(round: nat)
      requires Valid() && round <= ROUNDS
      modifies state
      ensures ByColumns() == MapColumns(t.unmix, AddKey(t, Restored(t, old(ByColumns())), RoundKeyAt(round)))
    {
      InvShiftRows();
      InvSubBytes();
      InvAddRoundKey(round);
      InvMixColumns();
    }

    method LastInvRound()
      requires Valid()
      modifies state
      ensures ByColumns() == AddKey(t, Restored(t, old(ByColumns())), RoundKeyAt(0))
    {
      InvShiftRows();
      InvSubBytes();
      InvAddRoundKey(0);
    }

    method Decipher()
      requires Valid() && Expanded()
      modifies state
      ensures ByColumns() == AesBlock.Decipher(t, KeySchedule(t, key), old(ByColumns()))
    {
      ghost var keys := KeySchedule(t, key);
      InvAddRoundKey(ROUNDS);
      var round := ROUNDS - 1;
      ghost var done := 0;
      while round > 0
        invariant 0 <= round && round + done == ROUNDS - 1
        invariant ByColumns() == InvRounds(t, keys, old(ByColumns()), done)
      {
        InvRound(round);
        round, done := round - 1, done + 1;
        assert keys[ROUNDS - done] == RoundKeyAt(round + 1);
      }
      assert done == ROUNDS - 1;
      LastInvRound();
      assert keys[0] == RoundKeyAt(0);
    }

    // ----- blocks -----

    method LoadRows(input: seq<bv8>, n: nat)
      requires Valid() && 16 * n + 16 <= |input|
      modifies state
      ensures ByRows() == BlockAt(input, n)
    {
      for i := 0 to 4
        invariant forall r, c :: 0 <= r < 4 && 0 <= c < i ==> state[r, c] == input[16 * n + 4 * c + r]
      {
        for j := 0 to 4
          invariant forall r, c :: 0 <= r < 4 && 0 <= c < 4 && (c < i || (c == i && r < j)) ==>
            state[r, c] == input[16 * n + 4 * c + r]
        {
          state[j, i] := input[16 * n + i * 4 + j];
        }
      }
    }

    method StoreRows(output: array<bv8>, n: nat)
      requires Valid() && 16 * n + 16 <= output.Length
      modifies output
      ensures BlockAt(output[..], n) == ByRows()
      ensures forall k :: 0 <= k < output.Length && !(16 * n <= k < 16 * n + 16) ==> output[k] == old(output[k])
    {
      for i := 0 to 4
        invariant forall r, c :: 0 <= r < 4 && 0 <= c < i ==> output[16 * n + 4 * c + r] == state[r, c]
        invariant forall k :: 0 <= k < output.Length && !(16 * n <= k < 16 * n + 16) ==> output[k] == old(output[k])
      {
        for j := 0 to 4
          invariant forall r, c :: 0 <= r < 4 && 0 <= c < 4 && (c < i || (c == i && r < j)) ==>
            output[16 * n + 4 * c + r] == state[r, c]
          invariant forall k :: 0 <= k < output.Length && !(16 * n <= k < 16 * n + 16) ==> output[k] == old(output[k])
        {
          output[16 * n + i * 4 + j] := state[j, i];
        }
      }
    }

    /** `f` is this cipher, on blocks. */
    ghost predicate Enciphers(f: Block -> Block) {
      forall b {:trigger AesBlock.Encipher(t, KeySchedule(t, key), b)} ::
        f(b) == AesBlock.Encipher(t, KeySchedule(t, key), b)
    }

    ghost predicate Deciphers(f: Block -> Block) {
      forall b {:trigger AesBlock.Decipher(t, KeySchedule(t, key), b)} ::
        f(b) == AesBlock.Decipher(t, KeySchedule(t, key), b)
    }

    method EncryptBlock(input: seq<bv8>, output: array<bv8>, n: nat, ghost f: Block -> Block)
      requires Valid() && 16 * n + 16 <= |input| && 16 * n + 16 <= output.Length
      requires output != roundKey && Enciphers(f)
      modifies output, state, roundKey
      ensures BlockAt(output[..], n) == f(BlockAt(input, n))
      ensures forall k :: 0 <= k < output.Length && !(16 * n <= k < 16 * n + 16) ==> output[k] == old(output[k])
    {
      LoadRows(input, n);
      KeyExpansion();
      Encipher();
      StoreRows(output, n);
    }

    method LoadColumns(input: seq<bv8>, n: nat)
      requires Valid() && 16 * n + 16 <= |input|
      modifies state
      ensures ByColumns() == BlockAt(input, n)
    {
      for i := 0 to 4
        invariant forall r, c :: 0 <= r < i && 0 <= c < 4 ==> state[r, c] == input[16 * n + 4 * r + c]
      {
        for j := 0 to 4
          invariant forall r, c :: 0 <= r < 4 && 0 <= c < 4 && (r < i || (r == i && c < j)) ==>
            state[r, c] == input[16 * n + 4 * r + c]
        {
          state[i, j] := input[16 * n + i * 4 + j];
        }
      }
    }

    method StoreColumns(output: array<bv8>, n: nat)
      requires Valid() && 16 * n + 16 <= output.Length
      modifies output
      ensures BlockAt(output[..], n) == ByColumns()
      ensures forall k :: 0 <= k < output.Length && !(16 * n <= k < 16 * n + 16) ==> output[k] == old(output[k])
    {
      for i := 0 to 4
        invariant forall r, c :: 0 <= r < i && 0 <= c < 4 ==> output[16 * n + 4 * r + c] == state[r, c]
        invariant forall k :: 0 <= k < output.Length && !(16 * n <= k < 16 * n + 16) ==> output[k] == old(output[k])
      {
        for j := 0 to 4
          invariant forall r, c :: 0 <= r < 4 && 0 <= c < 4 && (r < i || (r == i && c < j)) ==>
            output[16 * n + 4 * r + c] == state[r, c]
          invariant forall k :: 0 <= k < output.Length && !(16 * n <= k < 16 * n + 16) ==> output[k] == old(output[k])
        {
          output[16 * n + i * 4 + j] := state[i, j];
        }
      }
    }

    method DecryptBlock(input: seq<bv8>, output: array<bv8>, n: nat, ghost f: Block -> Block)
      requires Valid() && 16 * n + 16 <= |input| && 16 * n + 16 <= output.Length
      requires output != roundKey && Deciphers(f)
      modifies output, state, roundKey
      ensures BlockAt(output[..], n) == f(BlockAt(input, n))
      ensures forall k :: 0 <= k < output.Length && !(16 * n <= k < 16 * n + 16) ==> output[k] == old(output[k])
    {
      LoadColumns(input, n);
      KeyExpansion();
      Decipher();
      StoreColumns(output, n);
    }

    // ----- messages -----

    /** The first `n` blocks of `output` are those of `input` under `f`. */
    ghost predicate Done(f: Block -> Block, input: seq<bv8>, output: array<bv8>, n: nat)
      requires 16 * n <= |input| && 16 * n <= output.Length
      reads output
    {
      forall i :: 0 <= i < n ==> BlockAt(output[..], i) == f(BlockAt(input, i))
    }

    method EncryptBlocks(input: seq<bv8>, output: array<bv8>, n: nat, ghost f: Block -> Block)
      requires Valid() && 16 * n <= |input| && 16 * n <= output.Length
      requires output != roundKey && Enciphers(f)
      modifies output, state, roundKey
      ensures Done(f, input, output, n)
      ensures forall k :: 16 * n <= k < output.Length ==> output[k] == old(output[k])
    {
      for i := 0 to n
        invariant Done(f, input, output, i)
        invariant forall k :: 16 * i <= k < output.Length ==> output[k] == old(output[k])
      {
        ghost var before := output[..];
        EncryptBlock(input, output, i, f);
        BlocksKept(before, output[..], i);
      }
    }

    method DecryptBlocks(input: seq<bv8>, output: array<bv8>, n: nat, ghost f: Block -> Block)
      requires Valid() && 16 * n <= |input| && 16 * n <= output.Length
      requires output != roundKey && Deciphers(f)
      modifies output, state, roundKey
      ensures Done(f, input, output, n)
      ensures forall k :: 16 * n <= k < output.Length ==> output[k] == old(output[k])
    {
      for i := 0 to n
        invariant Done(f, input, output, i)
        invariant forall k :: 16 * i <= k < output.Length ==> output[k] == old(output[k])
      {
        ghost var before := output[..];
        DecryptBlock(input, output, i, f);
        BlocksKept(before, output[..], i);
      }
    }

    /**
      encrypt(): `src` may be null, `len` is the room the caller claims.  The caller owes
      the room that is used: 1024 bytes of padded message, and a closing zero in `dest`.
     */
    method Encrypt(src: array?<bv8>, srcLen: nat, dest: array<bv8>, len: nat) returns (code: int, newLen: nat)
      requires Valid() && dest != roundKey
      requires src != null && srcLen <= len ==>
        srcLen <= src.Length && srcLen + PadSize(srcLen) <= BUFFER && srcLen + PadSize(srcLen) < dest.Length
      modifies dest, state, roundKey
      ensures code == if src != null && srcLen <= len then 0 else -1
      ensures code == 0 ==>
        && newLen == srcLen + PadSize(srcLen) && dest[newLen] == 0
        && Blockwise(Enciphering(t, key), Padded(old(src[..srcLen])), dest[..newLen])
      ensures code != 0 ==> newLen == len && dest[..] == old(dest[..])
    {
      if src == null {
        return -1, len;
      }
      if len < srcLen {
        return -1, len;
      }
      var buffer, size := Pad(src, srcLen);
      EncryptBlocks(buffer[..size], dest, size / BLOCK, Enciphering(t, key));
      newLen := size;
      assert newLen > srcLen;  // the source's last test never fails
      BlocksKept(dest[..], dest[..newLen], newLen / BLOCK);
      dest[newLen] := 0;
      BlocksKept(dest[..], dest[..newLen], newLen / BLOCK);
      code := 0;
    }

    /** decrypt(), in place or not: the length to take off is the last byte, computed modulo 2^32. */
    method Decrypt(src: array?<bv8>, srcLen: nat, dest: array<bv8>, len: nat) returns (code: int, newLen: nat)
      requires Valid() && dest != roundKey && srcLen < 0x1_0000_0000
      requires src != null && srcLen <= len ==> srcLen <= src.Length && srcLen <= dest.Length
      modifies dest, state, roundKey
      ensures !Acceptable(src, srcLen, len) ==> code == -1 && newLen == len && dest[..] == old(dest[..])
      ensures Acceptable(src, srcLen, len) ==>
        exists padded :: Blockwise(Deciphering(t, key), old(src[..srcLen]), padded) &&
          match Unpadded(padded)
          case Some(plain) => code == 0 && newLen == |plain| < srcLen && dest[..newLen] == plain && dest[newLen] == 0
          case None => code == -1
    {
      if src == null {
        return -1, len;
      }
      if srcLen == 0 {
        return -1, len;
      }
      if len < srcLen {
        return -1, len;
      }
      if srcLen % BLOCK != 0 {
        return -1, len;
      }
      DecryptBlocks(src[..srcLen], dest, srcLen / BLOCK, Deciphering(t, key));
      ghost var padded := dest[..srcLen];
      BlocksKept(dest[..], padded, srcLen / BLOCK);
      assert Blockwise(Deciphering(t, key), old(src[..srcLen]), padded);
      code, newLen := TakeOff(dest, srcLen);
    }
  }

  /** The end of decrypt(): take the padding off the first `srcLen` bytes. */
  method TakeOff(dest: array<bv8>, srcLen: nat) returns (code: int, newLen: nat)
    requires 0 < srcLen <= dest.Length && srcLen < 0x1_0000_0000
    modifies dest
    ensures match Unpadded(old(dest[..srcLen]))
            case Some(plain) => code == 0 && newLen == |plain| < srcLen && dest[..newLen] == plain && dest[newLen] == 0
            case None => code == -1
  {
    ghost var padded := dest[..srcLen];
    var last := dest[srcLen - 1] as int;
    newLen := (srcLen - last) % 0x1_0000_0000;
    if newLen >= srcLen {
      assert Unpadded(padded) == None;
      return -1, newLen;
    }
    dest[newLen] := 0;
    code := 0;
    assert Unpadded(padded) == Some(padded[..newLen]);
  }

  /** From one end to the other: every message of at most 1023 bytes, under every key. */
  method SendAndReceive(key: Key, src: array<bv8>, wire: array<bv8>, dest: array<bv8>)
    returns (code: int, len: nat)
    requires src.Length <= 1023
    requires src.Length + PadSize(src.Length) < wire.Length && src.Length + PadSize(src.Length) <= dest.Length
    requires wire != dest && src != wire
    modifies wire, dest
    ensures code == 0 && len == src.Length && dest[..len] == old(src[..])
  {
    var sender := new Cipher(key);
    var sent;
    code, sent := sender.Encrypt(src, src.Length, wire, src.Length);
    assert src[..src.Length] == src[..];
    ghost var cipher := wire[..sent];
    var receiver := new Cipher(key);
    code, len := receiver.Decrypt(wire, sent, dest, sent);
    ghost var padded :| Blockwise(Deciphering(LAYERS, key), cipher, padded) &&
      match Unpadded(padded)
      case Some(plain) => code == 0 && len == |plain| < sent && dest[..len] == plain
      case None => code == -1;
    RoundTrip(key, old(src[..]), cipher, padded);
  }

  function ByteAt(w: Word, j: nat): bv8 {
    if j == 0 then w.b0 else if j == 1 then w.b1 else if j == 2 then w.b2 else w.b3
  }

  lemma ByteOfSum(u: Word, v: Word, j: nat)
    ensures ByteAt(AddWord(u, v), j) == Add(ByteAt(u, j), ByteAt(v, j))
  {
  }

  lemma SumOfBytes(w: Word, u: Word, v: Word, j: nat, x: bv8, y: bv8)
    requires w == AddWord(u, v) && x == ByteAt(u, j) && y == ByteAt(v, j)
    ensures ByteAt(w, j) == Add(x, y)
  {
  }

  lemma RotatedByte(f: bv8 -> bv8, w: Word, j: nat)
    requires j < 4
    ensures ByteAt(MapWord(f, RotWord(w)), j) == f(ByteAt(w, (j + 1) % 4))
  {
  }

  ghost predicate RoundConstants(constant: nat -> bv8) {
    forall i {:trigger Rcon(i)} :: 1 <= i <= 10 ==> Rcon(i) == constant(i - 1)
  }

  lemma ConstantsArePowers(constant: nat -> bv8)
    requires constant == PowerOfX
    ensures RoundConstants(constant)
  {
    forall i | 1 <= i <= 10
      ensures Rcon(i) == constant(i - 1)
    {
      RconPowers(i);
    }
  }

  const BUFFER := 1024

  predicate Acceptable(src: array?<bv8>, srcLen: nat, len: nat) {
    src != null && srcLen != 0 && srcLen <= len && srcLen % BLOCK == 0
  }

  /** The padded copy that encrypt() makes on its stack. */
  method Pad(src: array<bv8>, srcLen: nat) returns (buffer: array<bv8>, size: nat)
    requires srcLen <= src.Length && srcLen + PadSize(srcLen) <= BUFFER
    ensures fresh(buffer) && size <= buffer.Length && buffer[..size] == Padded(src[..srcLen])
  {
    buffer := new bv8[BUFFER](_ => 0);
    forall k | 0 <= k < srcLen {
      buffer[k] := src[k];
    }
    var padding := BLOCK - srcLen % BLOCK;
    for i := 0 to padding
      invariant buffer[..srcLen] == src[..srcLen]
      invariant forall k :: srcLen <= k < srcLen + i ==> buffer[k] == padding as bv8
    {
      buffer[srcLen + i] := padding as bv8;
    }
    size := srcLen + padding;
  }

  /** The body of the loop of MixColumns(), on the four bytes of a column. */
  method MixBytes(a: bv8, b: bv8, c: bv8, d: bv8) returns (s0: bv8, s1: bv8, s2: bv8, s3: bv8)
    ensures Word(s0, s1, s2, s3) == MixColumn(Word(a, b, c, d))
  {
    s0, s1, s2, s3 := a, b, c, d;
    var first := s0;
    var all := Add(Add(Add(s0, s1), s2), s3);
    var tm := Xtime(Add(s0, s1));
    s0 := Add(s0, Add(tm, all));
    tm := Xtime(Add(s1, s2));
    s1 := Add(s1, Add(tm, all));
    tm := Xtime(Add(s2, s3));
    s2 := Add(s2, Add(tm, all));
    tm := Xtime(Add(s3, first));
    s3 := Add(s3, Add(tm, all));
    MixedByTrick(Word(a, b, c, d));
  }

  /** And that of InvMixColumns(). */
  method UnmixBytes(a: bv8, b: bv8, c: bv8, d: bv8) returns (s0: bv8, s1: bv8, s2: bv8, s3: bv8)
    ensures Word(s0, s1, s2, s3) == InvMixColumn(Word(a, b, c, d))
  {
    s0 := Sum(Multiply(a, 0x0e), Multiply(b, 0x0b), Multiply(c, 0x0d), Multiply(d, 0x09));
    s1 := Sum(Multiply(a, 0x09), Multiply(b, 0x0e), Multiply(c, 0x0b), Multiply(d, 0x0d));
    s2 := Sum(Multiply(a, 0x0d), Multiply(b, 0x09), Multiply(c, 0x0e), Multiply(d, 0x0b));
    s3 := Sum(Multiply(a, 0x0b), Multiply(b, 0x0d), Multiply(c, 0x09), Multiply(d, 0x0e));
    SumTurns(Multiply(a, 0x0e), Multiply(b, 0x0b), Multiply(c, 0x0d), Multiply(d, 0x09));
    SumTurns(Multiply(b, 0x0e), Multiply(c, 0x0b), Multiply(d, 0x0d), Multiply(a, 0x09));
    SumTurns(Multiply(c, 0x0e), Multiply(d, 0x0b), Multiply(a, 0x0d), Multiply(b, 0x09));
    SumTurns(Multiply(d, 0x0e), Multiply(a, 0x0b), Multiply(b, 0x0d), Multiply(c, 0x09));
  }

  function Sum(a: bv8, b: bv8, c: bv8, d: bv8): bv8 {
    Add(Add(Add(a, b), c), d)
  }

  lemma SumTurns(a: bv8, b: bv8, c: bv8, d: bv8)
    ensures var all := Add(Add(a, b), Add(c, d));
            Sum(a, b, c, d) == all && Sum(d, a, b, c) == all && Sum(c, d, a, b) == all && Sum(b, c, d, a) == all
  {
    AddAssociates(Add(a, b), c, d);
    AddAssociates(Add(d, a), b, c);
    AddAssociates(Add(c, d), a, b);
    AddAssociates(Add(b, c), d, a);
    ColumnSum(Word(a, b, c, d));
  }

  lemma ByteByTrick(a: bv8, b: bv8, rest: bv8)
    ensures Add(a, Add(Xtime(Add(a, b)), Add(Add(a, b), rest))) == Add(Add(Xtime(a), Add(Xtime(b), b)), rest)
  {
    var p, u := Add(Xtime(a), Xtime(b)), Add(a, b);
    XtimeAdds(a, b);
    AddAssociates(p, u, rest);
    AddAssociates(a, Add(p, u), rest);
    AddAssociates(a, p, u);
    AddCommutes(a, p);
    AddAssociates(p, a, u);
    AddTwice(a, b);
    AddAssociates(Xtime(a), Xtime(b), b);
  }

  /** The sum of a column, from each of its bytes on. */
  lemma ColumnSum(w: Word)
    ensures var all := Add(Add(Add(w.b0, w.b1), w.b2), w.b3);
            && all == Add(Add(w.b0, w.b1), Add(w.b2, w.b3))
            && all == Add(Add(w.b1, w.b2), Add(w.b3, w.b0))
            && all == Add(Add(w.b2, w.b3), Add(w.b0, w.b1))
            && all == Add(Add(w.b3, w.b0), Add(w.b1, w.b2))
  {
    AddAssociates(Add(w.b0, w.b1), w.b2, w.b3);
    AddCommutes(Add(w.b0, w.b1), Add(w.b2, w.b3));
    AddCommutes(w.b0, w.b1);
    AddSwap(w.b1, w.b0, w.b2, w.b3);
    AddCommutes(w.b0, w.b3);
    AddCommutes(Add(w.b1, w.b2), Add(w.b3, w.b0));
  }

  /** Doubling the sum of two neighbours, and adding the sum of the column, mixes it. */
  lemma MixedByTrick(w: Word)
    ensures var all := Add(Add(Add(w.b0, w.b1), w.b2), w.b3);
            && MixColumn(w).b0 == Add(w.b0, Add(Xtime(Add(w.b0, w.b1)), all))
            && MixColumn(w).b1 == Add(w.b1, Add(Xtime(Add(w.b1, w.b2)), all))
            && MixColumn(w).b2 == Add(w.b2, Add(Xtime(Add(w.b2, w.b3)), all))
            && MixColumn(w).b3 == Add(w.b3, Add(Xtime(Add(w.b3, w.b0)), all))
  {
    ColumnSum(w);
    ByteByTrick(w.b0, w.b1, Add(w.b2, w.b3));
    ByteByTrick(w.b1, w.b2, Add(w.b3, w.b0));
    ByteByTrick(w.b2, w.b3, Add(w.b0, w.b1));
    ByteByTrick(w.b3, w.b0, Add(w.b1, w.b2));
  }
}
