/**
  The worked example of appendix B of FIPS 197: one key, one block, and the cipher text
  that the standard prints.  The inversion of the cipher says nothing of the order of its
  layers or of the key schedule; this does.  `Key`, `Sub` and `Mix` compute the steps that
  the appendix lists, by the number of the round; `Sub` by the number of the column too.
 */
module AesExample {
  import opened AesField
  import opened AesColumn
  import opened AesBlock
  import opened AesMessage
  import opened AesCipher

  const KEY: Key :=
    [0x2b, 0x7e, 0x15, 0x16, 0x28, 0xae, 0xd2, 0xa6,
     0xab, 0xf7, 0x15, 0x88, 0x09, 0xcf, 0x4f, 0x3c]

  const PLAIN := Block(
    Word(0x32, 0x43, 0xf6, 0xa8), Word(0x88, 0x5a, 0x30, 0x8d),
    Word(0x31, 0x31, 0x98, 0xa2), Word(0xe0, 0x37, 0x07, 0x34))
  const CIPHER := Block(
    Word(0x39, 0x25, 0x84, 0x1d), Word(0x02, 0xdc, 0x09, 0xfb),
    Word(0xdc, 0x11, 0x85, 0x97), Word(0x19, 0x6a, 0x0b, 0x32))

  // ----- the round keys -----

  const K0 := Block(
    Word(0x2b, 0x7e, 0x15, 0x16), Word(0x28, 0xae, 0xd2, 0xa6),
    Word(0xab, 0xf7, 0x15, 0x88), Word(0x09, 0xcf, 0x4f, 0x3c))
  const K1 := Block(
    Word(0xa0, 0xfa, 0xfe, 0x17), Word(0x88, 0x54, 0x2c, 0xb1),
    Word(0x23, 0xa3, 0x39, 0x39), Word(0x2a, 0x6c, 0x76, 0x05))
  const K2 := Block(
    Word(0xf2, 0xc2, 0x95, 0xf2), Word(0x7a, 0x96, 0xb9, 0x43),
    Word(0x59, 0x35, 0x80, 0x7a), Word(0x73, 0x59, 0xf6, 0x7f))
  const K3 := Block(
    Word(0x3d, 0x80, 0x47, 0x7d), Word(0x47, 0x16, 0xfe, 0x3e),
    Word(0x1e, 0x23, 0x7e, 0x44), Word(0x6d, 0x7a, 0x88, 0x3b))
  const K4 := Block(
    Word(0xef, 0x44, 0xa5, 0x41), Word(0xa8, 0x52, 0x5b, 0x7f),
    Word(0xb6, 0x71, 0x25, 0x3b), Word(0xdb, 0x0b, 0xad, 0x00))
  const K5 := Block(
    Word(0xd4, 0xd1, 0xc6, 0xf8), Word(0x7c, 0x83, 0x9d, 0x87),
    Word(0xca, 0xf2, 0xb8, 0xbc), Word(0x11, 0xf9, 0x15, 0xbc))
  const K6 := Block(
    Word(0x6d, 0x88, 0xa3, 0x7a), Word(0x11, 0x0b, 0x3e, 0xfd),
    Word(0xdb, 0xf9, 0x86, 0x41), Word(0xca, 0x00, 0x93, 0xfd))
  const K7 := Block(
    Word(0x4e, 0x54, 0xf7, 0x0e), Word(0x5f, 0x5f, 0xc9, 0xf3),
    Word(0x84, 0xa6, 0x4f, 0xb2), Word(0x4e, 0xa6, 0xdc, 0x4f))
  const K8 := Block(
    Word(0xea, 0xd2, 0x73, 0x21), Word(0xb5, 0x8d, 0xba, 0xd2),
    Word(0x31, 0x2b, 0xf5, 0x60), Word(0x7f, 0x8d, 0x29, 0x2f))
  const K9 := Block(
    Word(0xac, 0x77, 0x66, 0xf3), Word(0x19, 0xfa, 0xdc, 0x21),
    Word(0x28, 0xd1, 0x29, 0x41), Word(0x57, 0x5c, 0x00, 0x6e))
  const K10 := Block(
    Word(0xd0, 0x14, 0xf9, 0xa8), Word(0xc9, 0xee, 0x25, 0x89),
    Word(0xe1, 0x3f, 0x0c, 0xc8), Word(0xb6, 0x63, 0x0c, 0xa6))

  // ----- the states at the start of each round, and after its SubBytes -----

  const S0 := Block(
    Word(0x19, 0x3d, 0xe3, 0xbe), Word(0xa0, 0xf4, 0xe2, 0x2b),
    Word(0x9a, 0xc6, 0x8d, 0x2a), Word(0xe9, 0xf8, 0x48, 0x08))
  const S1 := Block(
    Word(0xa4, 0x9c, 0x7f, 0xf2), Word(0x68, 0x9f, 0x35, 0x2b),
    Word(0x6b, 0x5b, 0xea, 0x43), Word(0x02, 0x6a, 0x50, 0x49))
  const S2 := Block(
    Word(0xaa, 0x8f, 0x5f, 0x03), Word(0x61, 0xdd, 0xe3, 0xef),
    Word(0x82, 0xd2, 0x4a, 0xd2), Word(0x68, 0x32, 0x46, 0x9a))
  const S3 := Block(
    Word(0x48, 0x6c, 0x4e, 0xee), Word(0x67, 0x1d, 0x9d, 0x0d),
    Word(0x4d, 0xe3, 0xb1, 0x38), Word(0xd6, 0x5f, 0x58, 0xe7))
  const S4 := Block(
    Word(0xe0, 0x92, 0x7f, 0xe8), Word(0xc8, 0x63, 0x63, 0xc0),
    Word(0xd9, 0xb1, 0x35, 0x50), Word(0x85, 0xb8, 0xbe, 0x01))
  const S5 := Block(
    Word(0xf1, 0x00, 0x6f, 0x55), Word(0xc1, 0x92, 0x4c, 0xef),
    Word(0x7c, 0xc8, 0x8b, 0x32), Word(0x5d, 0xb5, 0xd5, 0x0c))
  const S6 := Block(
    Word(0x26, 0x0e, 0x2e, 0x17), Word(0x3d, 0x41, 0xb7, 0x7d),
    Word(0xe8, 0x64, 0x72, 0xa9), Word(0xfd, 0xd2, 0x8b, 0x25))
  const S7 := Block(
    Word(0x5a, 0x41, 0x42, 0xb1), Word(0x19, 0x49, 0xdc, 0x1f),
    Word(0xa3, 0xe0, 0x19, 0x65), Word(0x7a, 0x8c, 0x04, 0x0c))
  const S8 := Block(
    Word(0xea, 0x83, 0x5c, 0xf0), Word(0x04, 0x45, 0x33, 0x2d),
    Word(0x65, 0x5d, 0x98, 0xad), Word(0x85, 0x96, 0xb0, 0xc5))
  const S9 := Block(
    Word(0xeb, 0x40, 0xf2, 0x1e), Word(0x59, 0x2e, 0x38, 0x84),
    Word(0x8b, 0xa1, 0x13, 0xe7), Word(0x1b, 0xc3, 0x42, 0xd2))

  const U1 := Block(
    Word(0xd4, 0x27, 0x11, 0xae), Word(0xe0, 0xbf, 0x98, 0xf1),
    Word(0xb8, 0xb4, 0x5d, 0xe5), Word(0x1e, 0x41, 0x52, 0x30))
  const U2 := Block(
    Word(0x49, 0xde, 0xd2, 0x89), Word(0x45, 0xdb, 0x96, 0xf1),
    Word(0x7f, 0x39, 0x87, 0x1a), Word(0x77, 0x02, 0x53, 0x3b))
  const U3 := Block(
    Word(0xac, 0x73, 0xcf, 0x7b), Word(0xef, 0xc1, 0x11, 0xdf),
    Word(0x13, 0xb5, 0xd6, 0xb5), Word(0x45, 0x23, 0x5a, 0xb8))
  const U4 := Block(
    Word(0x52, 0x50, 0x2f, 0x28), Word(0x85, 0xa4, 0x5e, 0xd7),
    Word(0xe3, 0x11, 0xc8, 0x07), Word(0xf6, 0xcf, 0x6a, 0x94))
  const U5 := Block(
    Word(0xe1, 0x4f, 0xd2, 0x9b), Word(0xe8, 0xfb, 0xfb, 0xba),
    Word(0x35, 0xc8, 0x96, 0x53), Word(0x97, 0x6c, 0xae, 0x7c))
  const U6 := Block(
    Word(0xa1, 0x63, 0xa8, 0xfc), Word(0x78, 0x4f, 0x29, 0xdf),
    Word(0x10, 0xe8, 0x3d, 0x23), Word(0x4c, 0xd5, 0x03, 0xfe))
  const U7 := Block(
    Word(0xf7, 0xab, 0x31, 0xf0), Word(0x27, 0x83, 0xa9, 0xff),
    Word(0x9b, 0x43, 0x40, 0xd3), Word(0x54, 0xb5, 0x3d, 0x3f))
  const U8 := Block(
    Word(0xbe, 0x83, 0x2c, 0xc8), Word(0xd4, 0x3b, 0x86, 0xc0),
    Word(0x0a, 0xe1, 0xd4, 0x4d), Word(0xda, 0x64, 0xf2, 0xfe))
  const U9 := Block(
    Word(0x87, 0xec, 0x4a, 0x8c), Word(0xf2, 0x6e, 0xc3, 0xd8),
    Word(0x4d, 0x4c, 0x46, 0x95), Word(0x97, 0x90, 0xe7, 0xa6))
  const U10 := Block(
    Word(0xe9, 0x09, 0x89, 0x72), Word(0xcb, 0x31, 0x07, 0x5f),
    Word(0x3d, 0x32, 0x7d, 0x94), Word(0xaf, 0x2e, 0x2c, 0xb5))

  // ----- the steps -----

  /** Layers that agree with those of AES wherever those are mentioned. */
  ghost predicate Aes(t: Layers) {
    && (forall x {:trigger Sbox(x)} :: t.sbox(x) == Sbox(x))
    && (forall u, v {:trigger AddWord(u, v)} :: t.add(u, v) == AddWord(u, v))
    && (forall w {:trigger MixColumn(w)} :: t.mix(w) == MixColumn(w))
  }

  lemma LayersAreAes()
    ensures Aes(LAYERS)
  {
  }

  lemma Key1(t: Layers)
    requires Aes(t)
    ensures MapWord(t.sbox, RotWord(K0.c3)) == Word(0x8a, 0x84, 0xeb, 0x01)
  {
    assert MapWord(Sbox, Word(0xcf, 0x4f, 0x3c, 0x09)) == Word(0x8a, 0x84, 0xeb, 0x01);
  }
  lemma Key2(t: Layers)
    requires Aes(t)
    ensures MapWord(t.sbox, RotWord(K1.c3)) == Word(0x50, 0x38, 0x6b, 0xe5)
  {
    assert MapWord(Sbox, Word(0x6c, 0x76, 0x05, 0x2a)) == Word(0x50, 0x38, 0x6b, 0xe5);
  }
  lemma Key3(t: Layers)
    requires Aes(t)
    ensures MapWord(t.sbox, RotWord(K2.c3)) == Word(0xcb, 0x42, 0xd2, 0x8f)
  {
    assert MapWord(Sbox, Word(0x59, 0xf6, 0x7f, 0x73)) == Word(0xcb, 0x42, 0xd2, 0x8f);
  }
  lemma Key4(t: Layers)
    requires Aes(t)
    ensures MapWord(t.sbox, RotWord(K3.c3)) == Word(0xda, 0xc4, 0xe2, 0x3c)
  {
    assert MapWord(Sbox, Word(0x7a, 0x88, 0x3b, 0x6d)) == Word(0xda, 0xc4, 0xe2, 0x3c);
  }
  lemma Key5(t: Layers)
    requires Aes(t)
    ensures MapWord(t.sbox, RotWord(K4.c3)) == Word(0x2b, 0x95, 0x63, 0xb9)
  {
    assert MapWord(Sbox, Word(0x0b, 0xad, 0x00, 0xdb)) == Word(0x2b, 0x95, 0x63, 0xb9);
  }
  lemma Key6(t: Layers)
    requires Aes(t)
    ensures MapWord(t.sbox, RotWord(K5.c3)) == Word(0x99, 0x59, 0x65, 0x82)
  {
    assert MapWord(Sbox, Word(0xf9, 0x15, 0xbc, 0x11)) == Word(0x99, 0x59, 0x65, 0x82);
  }
  lemma Key7(t: Layers)
    requires Aes(t)
    ensures MapWord(t.sbox, RotWord(K6.c3)) == Word(0x63, 0xdc, 0x54, 0x74)
  {
    assert MapWord(Sbox, Word(0x00, 0x93, 0xfd, 0xca)) == Word(0x63, 0xdc, 0x54, 0x74);
  }
  lemma Key8(t: Layers)
    requires Aes(t)
    ensures MapWord(t.sbox, RotWord(K7.c3)) == Word(0x24, 0x86, 0x84, 0x2f)
  {
    assert MapWord(Sbox, Word(0xa6, 0xdc, 0x4f, 0x4e)) == Word(0x24, 0x86, 0x84, 0x2f);
  }
  lemma Key9(t: Layers)
    requires Aes(t)
    ensures MapWord(t.sbox, RotWord(K8.c3)) == Word(0x5d, 0xa5, 0x15, 0xd2)
  {
    assert MapWord(Sbox, Word(0x8d, 0x29, 0x2f, 0x7f)) == Word(0x5d, 0xa5, 0x15, 0xd2);
  }
  lemma Key10(t: Layers)
    requires Aes(t)
    ensures MapWord(t.sbox, RotWord(K9.c3)) == Word(0x4a, 0x63, 0x9f, 0x5b)
  {
    assert MapWord(Sbox, Word(0x5c, 0x00, 0x6e, 0x57)) == Word(0x4a, 0x63, 0x9f, 0x5b);
  }

  lemma Sub1_0(t: Layers)
    requires Aes(t)
    ensures MapWord(t.sbox, S0.c0) == U1.c0
  {
    assert MapWord(Sbox, Word(0x19, 0x3d, 0xe3, 0xbe)) == Word(0xd4, 0x27, 0x11, 0xae);
  }
  lemma Sub1_1(t: Layers)
    requires Aes(t)
    ensures MapWord(t.sbox, S0.c1) == U1.c1
  {
    assert MapWord(Sbox, Word(0xa0, 0xf4, 0xe2, 0x2b)) == Word(0xe0, 0xbf, 0x98, 0xf1);
  }
  lemma Sub1_2(t: Layers)
    requires Aes(t)
    ensures MapWord(t.sbox, S0.c2) == U1.c2
  {
    assert MapWord(Sbox, Word(0x9a, 0xc6, 0x8d, 0x2a)) == Word(0xb8, 0xb4, 0x5d, 0xe5);
  }
  lemma Sub1_3(t: Layers)
    requires Aes(t)
    ensures MapWord(t.sbox, S0.c3) == U1.c3
  {
    assert MapWord(Sbox, Word(0xe9, 0xf8, 0x48, 0x08)) == Word(0x1e, 0x41, 0x52, 0x30);
  }
  lemma Sub2_0(t: Layers)
    requires Aes(t)
    ensures MapWord(t.sbox, S1.c0) == U2.c0
  {
    assert MapWord(Sbox, Word(0xa4, 0x9c, 0x7f, 0xf2)) == Word(0x49, 0xde, 0xd2, 0x89);
  }
  lemma Sub2_1(t: Layers)
    requires Aes(t)
    ensures MapWord(t.sbox, S1.c1) == U2.c1
  {
    assert MapWord(Sbox, Word(0x68, 0x9f, 0x35, 0x2b)) == Word(0x45, 0xdb, 0x96, 0xf1);
  }
  lemma Sub2_2(t: Layers)
    requires Aes(t)
    ensures MapWord(t.sbox, S1.c2) == U2.c2
  {
    assert MapWord(Sbox, Word(0x6b, 0x5b, 0xea, 0x43)) == Word(0x7f, 0x39, 0x87, 0x1a);
  }
  lemma Sub2_3(t: Layers)
    requires Aes(t)
    ensures MapWord(t.sbox, S1.c3) == U2.c3
  {
    assert MapWord(Sbox, Word(0x02, 0x6a, 0x50, 0x49)) == Word(0x77, 0x02, 0x53, 0x3b);
  }
  lemma Sub3_0(t: Layers)
    requires Aes(t)
    ensures MapWord(t.sbox, S2.c0) == U3.c0
  {
    assert MapWord(Sbox, Word(0xaa, 0x8f, 0x5f, 0x03)) == Word(0xac, 0x73, 0xcf, 0x7b);
  }
  lemma Sub3_1(t: Layers)
    requires Aes(t)
    ensures MapWord(t.sbox, S2.c1) == U3.c1
  {
    assert MapWord(Sbox, Word(0x61, 0xdd, 0xe3, 0xef)) == Word(0xef, 0xc1, 0x11, 0xdf);
  }
  lemma Sub3_2(t: Layers)
    requires Aes(t)
    ensures MapWord(t.sbox, S2.c2) == U3.c2
  {
    assert MapWord(Sbox, Word(0x82, 0xd2, 0x4a, 0xd2)) == Word(0x13, 0xb5, 0xd6, 0xb5);
  }
  lemma Sub3_3(t: Layers)
    requires Aes(t)
    ensures MapWord(t.sbox, S2.c3) == U3.c3
  {
    assert MapWord(Sbox, Word(0x68, 0x32, 0x46, 0x9a)) == Word(0x45, 0x23, 0x5a, 0xb8);
  }
  lemma Sub4_0(t: Layers)
    requires Aes(t)
    ensures MapWord(t.sbox, S3.c0) == U4.c0
  {
    assert MapWord(Sbox, Word(0x48, 0x6c, 0x4e, 0xee)) == Word(0x52, 0x50, 0x2f, 0x28);
  }
  lemma Sub4_1(t: Layers)
    requires Aes(t)
    ensures MapWord(t.sbox, S3.c1) == U4.c1
  {
    assert MapWord(Sbox, Word(0x67, 0x1d, 0x9d, 0x0d)) == Word(0x85, 0xa4, 0x5e, 0xd7);
  }
  lemma Sub4_2(t: Layers)
    requires Aes(t)
    ensures MapWord(t.sbox, S3.c2) == U4.c2
  {
    assert MapWord(Sbox, Word(0x4d, 0xe3, 0xb1, 0x38)) == Word(0xe3, 0x11, 0xc8, 0x07);
  }
  lemma Sub4_3(t: Layers)
    requires Aes(t)
    ensures MapWord(t.sbox, S3.c3) == U4.c3
  {
    assert MapWord(Sbox, Word(0xd6, 0x5f, 0x58, 0xe7)) == Word(0xf6, 0xcf, 0x6a, 0x94);
  }
  lemma Sub5_0(t: Layers)
    requires Aes(t)
    ensures MapWord(t.sbox, S4.c0) == U5.c0
  {
    assert MapWord(Sbox, Word(0xe0, 0x92, 0x7f, 0xe8)) == Word(0xe1, 0x4f, 0xd2, 0x9b);
  }
  lemma Sub5_1(t: Layers)
    requires Aes(t)
    ensures MapWord(t.sbox, S4.c1) == U5.c1
  {
    assert MapWord(Sbox, Word(0xc8, 0x63, 0x63, 0xc0)) == Word(0xe8, 0xfb, 0xfb, 0xba);
  }
  lemma Sub5_2(t: Layers)
    requires Aes(t)
    ensures MapWord(t.sbox, S4.c2) == U5.c2
  {
    assert MapWord(Sbox, Word(0xd9, 0xb1, 0x35, 0x50)) == Word(0x35, 0xc8, 0x96, 0x53);
  }
  lemma Sub5_3(t: Layers)
    requires Aes(t)
    ensures MapWord(t.sbox, S4.c3) == U5.c3
  {
    assert MapWord(Sbox, Word(0x85, 0xb8, 0xbe, 0x01)) == Word(0x97, 0x6c, 0xae, 0x7c);
  }
  lemma Sub6_0(t: Layers)
    requires Aes(t)
    ensures MapWord(t.sbox, S5.c0) == U6.c0
  {
    assert MapWord(Sbox, Word(0xf1, 0x00, 0x6f, 0x55)) == Word(0xa1, 0x63, 0xa8, 0xfc);
  }
  lemma Sub6_1(t: Layers)
    requires Aes(t)
    ensures MapWord(t.sbox, S5.c1) == U6.c1
  {
    assert MapWord(Sbox, Word(0xc1, 0x92, 0x4c, 0xef)) == Word(0x78, 0x4f, 0x29, 0xdf);
  }
  lemma Sub6_2(t: Layers)
    requires Aes(t)
    ensures MapWord(t.sbox, S5.c2) == U6.c2
  {
    assert MapWord(Sbox, Word(0x7c, 0xc8, 0x8b, 0x32)) == Word(0x10, 0xe8, 0x3d, 0x23);
  }
  lemma Sub6_3(t: Layers)
    requires Aes(t)
    ensures MapWord(t.sbox, S5.c3) == U6.c3
  {
    assert MapWord(Sbox, Word(0x5d, 0xb5, 0xd5, 0x0c)) == Word(0x4c, 0xd5, 0x03, 0xfe);
  }
  lemma Sub7_0(t: Layers)
    requires Aes(t)
    ensures MapWord(t.sbox, S6.c0) == U7.c0
  {
    assert MapWord(Sbox, Word(0x26, 0x0e, 0x2e, 0x17)) == Word(0xf7, 0xab, 0x31, 0xf0);
  }
  lemma Sub7_1(t: Layers)
    requires Aes(t)
    ensures MapWord(t.sbox, S6.c1) == U7.c1
  {
    assert MapWord(Sbox, Word(0x3d, 0x41, 0xb7, 0x7d)) == Word(0x27, 0x83, 0xa9, 0xff);
  }
  lemma Sub7_2(t: Layers)
    requires Aes(t)
    ensures MapWord(t.sbox, S6.c2) == U7.c2
  {
    assert MapWord(Sbox, Word(0xe8, 0x64, 0x72, 0xa9)) == Word(0x9b, 0x43, 0x40, 0xd3);
  }
  lemma Sub7_3(t: Layers)
    requires Aes(t)
    ensures MapWord(t.sbox, S6.c3) == U7.c3
  {
    assert MapWord(Sbox, Word(0xfd, 0xd2, 0x8b, 0x25)) == Word(0x54, 0xb5, 0x3d, 0x3f);
  }
  lemma Sub8_0(t: Layers)
    requires Aes(t)
    ensures MapWord(t.sbox, S7.c0) == U8.c0
  {
    assert MapWord(Sbox, Word(0x5a, 0x41, 0x42, 0xb1)) == Word(0xbe, 0x83, 0x2c, 0xc8);
  }
  lemma Sub8_1(t: Layers)
    requires Aes(t)
    ensures MapWord(t.sbox, S7.c1) == U8.c1
  {
    assert MapWord(Sbox, Word(0x19, 0x49, 0xdc, 0x1f)) == Word(0xd4, 0x3b, 0x86, 0xc0);
  }
  lemma Sub8_2(t: Layers)
    requires Aes(t)
    ensures MapWord(t.sbox, S7.c2) == U8.c2
  {
    assert MapWord(Sbox, Word(0xa3, 0xe0, 0x19, 0x65)) == Word(0x0a, 0xe1, 0xd4, 0x4d);
  }
  lemma Sub8_3(t: Layers)
    requires Aes(t)
    ensures MapWord(t.sbox, S7.c3) == U8.c3
  {
    assert MapWord(Sbox, Word(0x7a, 0x8c, 0x04, 0x0c)) == Word(0xda, 0x64, 0xf2, 0xfe);
  }
  lemma Sub9_0(t: Layers)
    requires Aes(t)
    ensures MapWord(t.sbox, S8.c0) == U9.c0
  {
    assert MapWord(Sbox, Word(0xea, 0x83, 0x5c, 0xf0)) == Word(0x87, 0xec, 0x4a, 0x8c);
  }
  lemma Sub9_1(t: Layers)
    requires Aes(t)
    ensures MapWord(t.sbox, S8.c1) == U9.c1
  {
    assert MapWord(Sbox, Word(0x04, 0x45, 0x33, 0x2d)) == Word(0xf2, 0x6e, 0xc3, 0xd8);
  }
  lemma Sub9_2(t: Layers)
    requires Aes(t)
    ensures MapWord(t.sbox, S8.c2) == U9.c2
  {
    assert MapWord(Sbox, Word(0x65, 0x5d, 0x98, 0xad)) == Word(0x4d, 0x4c, 0x46, 0x95);
  }
  lemma Sub9_3(t: Layers)
    requires Aes(t)
    ensures MapWord(t.sbox, S8.c3) == U9.c3
  {
    assert MapWord(Sbox, Word(0x85, 0x96, 0xb0, 0xc5)) == Word(0x97, 0x90, 0xe7, 0xa6);
  }
  lemma Sub10_0(t: Layers)
    requires Aes(t)
    ensures MapWord(t.sbox, S9.c0) == U10.c0
  {
    assert MapWord(Sbox, Word(0xeb, 0x40, 0xf2, 0x1e)) == Word(0xe9, 0x09, 0x89, 0x72);
  }
  lemma Sub10_1(t: Layers)
    requires Aes(t)
    ensures MapWord(t.sbox, S9.c1) == U10.c1
  {
    assert MapWord(Sbox, Word(0x59, 0x2e, 0x38, 0x84)) == Word(0xcb, 0x31, 0x07, 0x5f);
  }
  lemma Sub10_2(t: Layers)
    requires Aes(t)
    ensures MapWord(t.sbox, S9.c2) == U10.c2
  {
    assert MapWord(Sbox, Word(0x8b, 0xa1, 0x13, 0xe7)) == Word(0x3d, 0x32, 0x7d, 0x94);
  }
  lemma Sub10_3(t: Layers)
    requires Aes(t)
    ensures MapWord(t.sbox, S9.c3) == U10.c3
  {
    assert MapWord(Sbox, Word(0x1b, 0xc3, 0x42, 0xd2)) == Word(0xaf, 0x2e, 0x2c, 0xb5);
  }

  lemma Mix1(t: Layers)
    requires Aes(t)
    ensures AddKey(t, MapColumns(t.mix, ShiftRows(U1)), K1) == S1
  {
    assert AddKey(LAYERS, MapColumns(MixColumn, Block(
      Word(0xd4, 0xbf, 0x5d, 0x30), Word(0xe0, 0xb4, 0x52, 0xae),
      Word(0xb8, 0x41, 0x11, 0xf1), Word(0x1e, 0x27, 0x98, 0xe5))), K1) == S1;
  }
  lemma Mix2(t: Layers)
    requires Aes(t)
    ensures AddKey(t, MapColumns(t.mix, ShiftRows(U2)), K2) == S2
  {
    assert AddKey(LAYERS, MapColumns(MixColumn, Block(
      Word(0x49, 0xdb, 0x87, 0x3b), Word(0x45, 0x39, 0x53, 0x89),
      Word(0x7f, 0x02, 0xd2, 0xf1), Word(0x77, 0xde, 0x96, 0x1a))), K2) == S2;
  }
  lemma Mix3(t: Layers)
    requires Aes(t)
    ensures AddKey(t, MapColumns(t.mix, ShiftRows(U3)), K3) == S3
  {
    assert AddKey(LAYERS, MapColumns(MixColumn, Block(
      Word(0xac, 0xc1, 0xd6, 0xb8), Word(0xef, 0xb5, 0x5a, 0x7b),
      Word(0x13, 0x23, 0xcf, 0xdf), Word(0x45, 0x73, 0x11, 0xb5))), K3) == S3;
  }
  lemma Mix4(t: Layers)
    requires Aes(t)
    ensures AddKey(t, MapColumns(t.mix, ShiftRows(U4)), K4) == S4
  {
    assert AddKey(LAYERS, MapColumns(MixColumn, Block(
      Word(0x52, 0xa4, 0xc8, 0x94), Word(0x85, 0x11, 0x6a, 0x28),
      Word(0xe3, 0xcf, 0x2f, 0xd7), Word(0xf6, 0x50, 0x5e, 0x07))), K4) == S4;
  }
  lemma Mix5(t: Layers)
    requires Aes(t)
    ensures AddKey(t, MapColumns(t.mix, ShiftRows(U5)), K5) == S5
  {
    assert AddKey(LAYERS, MapColumns(MixColumn, Block(
      Word(0xe1, 0xfb, 0x96, 0x7c), Word(0xe8, 0xc8, 0xae, 0x9b),
      Word(0x35, 0x6c, 0xd2, 0xba), Word(0x97, 0x4f, 0xfb, 0x53))), K5) == S5;
  }
  lemma Mix6(t: Layers)
    requires Aes(t)
    ensures AddKey(t, MapColumns(t.mix, ShiftRows(U6)), K6) == S6
  {
    assert AddKey(LAYERS, MapColumns(MixColumn, Block(
      Word(0xa1, 0x4f, 0x3d, 0xfe), Word(0x78, 0xe8, 0x03, 0xfc),
      Word(0x10, 0xd5, 0xa8, 0xdf), Word(0x4c, 0x63, 0x29, 0x23))), K6) == S6;
  }
  lemma Mix7(t: Layers)
    requires Aes(t)
    ensures AddKey(t, MapColumns(t.mix, ShiftRows(U7)), K7) == S7
  {
    assert AddKey(LAYERS, MapColumns(MixColumn, Block(
      Word(0xf7, 0x83, 0x40, 0x3f), Word(0x27, 0x43, 0x3d, 0xf0),
      Word(0x9b, 0xb5, 0x31, 0xff), Word(0x54, 0xab, 0xa9, 0xd3))), K7) == S7;
  }
  lemma Mix8(t: Layers)
    requires Aes(t)
    ensures AddKey(t, MapColumns(t.mix, ShiftRows(U8)), K8) == S8
  {
    assert AddKey(LAYERS, MapColumns(MixColumn, Block(
      Word(0xbe, 0x3b, 0xd4, 0xfe), Word(0xd4, 0xe1, 0xf2, 0xc8),
      Word(0x0a, 0x64, 0x2c, 0xc0), Word(0xda, 0x83, 0x86, 0x4d))), K8) == S8;
  }
  lemma Mix9(t: Layers)
    requires Aes(t)
    ensures AddKey(t, MapColumns(t.mix, ShiftRows(U9)), K9) == S9
  {
    assert AddKey(LAYERS, MapColumns(MixColumn, Block(
      Word(0x87, 0x6e, 0x46, 0xa6), Word(0xf2, 0x4c, 0xe7, 0x8c),
      Word(0x4d, 0x90, 0x4a, 0xd8), Word(0x97, 0xec, 0xc3, 0x95))), K9) == S9;
  }
  lemma Mix0(t: Layers)
    requires Aes(t)
    ensures AddKey(t, PLAIN, K0) == S0
  {
    assert AddKey(LAYERS, PLAIN, K0) == S0;
  }
  lemma Mix10(t: Layers)
    requires Aes(t)
    ensures AddKey(t, ShiftRows(U10), K10) == CIPHER
  {
    assert AddKey(LAYERS, ShiftRows(U10), K10) == CIPHER;
  }

  // ----- the schedule -----

  lemma KeyWordNext(t: Layers, key: Key, i: nat, round: nat, j: nat, w: Word, v: Word)
    requires i == 4 * round + 4 + j && j < 4 && w == KeyWord(t, key, i - 4) && v == KeyWord(t, key, i - 1)
    ensures KeyWord(t, key, i) ==
            t.add(w, if j == 0 then t.add(MapWord(t.sbox, RotWord(v)), Word(Rcon(round + 1), 0, 0, 0)) else v)
  {
    assert i % 4 == j && (j == 0 ==> i / 4 == round + 1);
  }

  /** A round key is computed from the one before it, by one substitution. */
  lemma RoundKeyNext(t: Layers, key: Key, round: nat, next: nat, k: Block, k': Block, u: Word, c: Word)
    requires next == round + 1 && k == RoundKey(t, key, round) && u == MapWord(t.sbox, RotWord(k.c3))
    requires c == Word(Rcon(next), 0, 0, 0)
    requires k'.c0 == t.add(k.c0, t.add(u, c)) && k'.c1 == t.add(k.c1, k'.c0)
    requires k'.c2 == t.add(k.c2, k'.c1) && k'.c3 == t.add(k.c3, k'.c2)
    ensures k' == RoundKey(t, key, next)
  {
    var i := 4 * next;
    KeyWordNext(t, key, i, round, 0, k.c0, k.c3);
    KeyWordNext(t, key, i + 1, round, 1, k.c1, k'.c0);
    KeyWordNext(t, key, i + 2, round, 2, k.c2, k'.c1);
    KeyWordNext(t, key, i + 3, round, 3, k.c3, k'.c2);
  }

  lemma RoundKey0(t: Layers, key: Key, n: nat)
    requires key == KEY && n == 0
    ensures RoundKey(t, key, n) == K0
  {
  }

  lemma RoundKey1(t: Layers, key: Key, n: nat)
    requires Aes(t) && key == KEY && n == 1
    ensures RoundKey(t, key, n) == K1
  {
    RoundKey0(t, key, n - 1);
    var u, c := Word(0x8a, 0x84, 0xeb, 0x01), Word(0x01, 0, 0, 0);
    Key1(t);
    assert AddWord(u, c) == Word(0x8b, 0x84, 0xeb, 0x01) && AddWord(K0.c0, Word(0x8b, 0x84, 0xeb, 0x01)) == K1.c0;
    assert AddWord(K0.c1, K1.c0) == K1.c1 && AddWord(K0.c2, K1.c1) == K1.c2 && AddWord(K0.c3, K1.c2) == K1.c3;
    RoundKeyNext(t, key, n - 1, n, K0, K1, u, c);
  }

  lemma RoundKey2(t: Layers, key: Key, n: nat)
    requires Aes(t) && key == KEY && n == 2
    ensures RoundKey(t, key, n) == K2
  {
    RoundKey1(t, key, n - 1);
    var u, c := Word(0x50, 0x38, 0x6b, 0xe5), Word(0x02, 0, 0, 0);
    Key2(t);
    assert AddWord(u, c) == Word(0x52, 0x38, 0x6b, 0xe5) && AddWord(K1.c0, Word(0x52, 0x38, 0x6b, 0xe5)) == K2.c0;
    assert AddWord(K1.c1, K2.c0) == K2.c1 && AddWord(K1.c2, K2.c1) == K2.c2 && AddWord(K1.c3, K2.c2) == K2.c3;
    RoundKeyNext(t, key, n - 1, n, K1, K2, u, c);
  }

  lemma RoundKey3(t: Layers, key: Key, n: nat)
    requires Aes(t) && key == KEY && n == 3
    ensures RoundKey(t, key, n) == K3
  {
    RoundKey2(t, key, n - 1);
    var u, c := Word(0xcb, 0x42, 0xd2, 0x8f), Word(0x04, 0, 0, 0);
    Key3(t);
    assert AddWord(u, c) == Word(0xcf, 0x42, 0xd2, 0x8f) && AddWord(K2.c0, Word(0xcf, 0x42, 0xd2, 0x8f)) == K3.c0;
    assert AddWord(K2.c1, K3.c0) == K3.c1 && AddWord(K2.c2, K3.c1) == K3.c2 && AddWord(K2.c3, K3.c2) == K3.c3;
    RoundKeyNext(t, key, n - 1, n, K2, K3, u, c);
  }

  lemma RoundKey4(t: Layers, key: Key, n: nat)
    requires Aes(t) && key == KEY && n == 4
    ensures RoundKey(t, key, n) == K4
  {
    RoundKey3(t, key, n - 1);
    var u, c := Word(0xda, 0xc4, 0xe2, 0x3c), Word(0x08, 0, 0, 0);
    Key4(t);
    assert AddWord(u, c) == Word(0xd2, 0xc4, 0xe2, 0x3c) && AddWord(K3.c0, Word(0xd2, 0xc4, 0xe2, 0x3c)) == K4.c0;
    assert AddWord(K3.c1, K4.c0) == K4.c1 && AddWord(K3.c2, K4.c1) == K4.c2 && AddWord(K3.c3, K4.c2) == K4.c3;
    RoundKeyNext(t, key, n - 1, n, K3, K4, u, c);
  }

  lemma RoundKey5(t: Layers, key: Key, n: nat)
    requires Aes(t) && key == KEY && n == 5
    ensures RoundKey(t, key, n) == K5
  {
    RoundKey4(t, key, n - 1);
    var u, c := Word(0x2b, 0x95, 0x63, 0xb9), Word(0x10, 0, 0, 0);
    Key5(t);
    assert AddWord(u, c) == Word(0x3b, 0x95, 0x63, 0xb9) && AddWord(K4.c0, Word(0x3b, 0x95, 0x63, 0xb9)) == K5.c0;
    assert AddWord(K4.c1, K5.c0) == K5.c1 && AddWord(K4.c2, K5.c1) == K5.c2 && AddWord(K4.c3, K5.c2) == K5.c3;
    RoundKeyNext(t, key, n - 1, n, K4, K5, u, c);
  }

  lemma RoundKey6(t: Layers, key: Key, n: nat)
    requires Aes(t) && key == KEY && n == 6
    ensures RoundKey(t, key, n) == K6
  {
    RoundKey5(t, key, n - 1);
    var u, c := Word(0x99, 0x59, 0x65, 0x82), Word(0x20, 0, 0, 0);
    Key6(t);
    assert AddWord(u, c) == Word(0xb9, 0x59, 0x65, 0x82) && AddWord(K5.c0, Word(0xb9, 0x59, 0x65, 0x82)) == K6.c0;
    assert AddWord(K5.c1, K6.c0) == K6.c1 && AddWord(K5.c2, K6.c1) == K6.c2 && AddWord(K5.c3, K6.c2) == K6.c3;
    RoundKeyNext(t, key, n - 1, n, K5, K6, u, c);
  }

  lemma RoundKey7(t: Layers, key: Key, n: nat)
    requires Aes(t) && key == KEY && n == 7
    ensures RoundKey(t, key, n) == K7
  {
    RoundKey6(t, key, n - 1);
    var u, c := Word(0x63, 0xdc, 0x54, 0x74), Word(0x40, 0, 0, 0);
    Key7(t);
    assert AddWord(u, c) == Word(0x23, 0xdc, 0x54, 0x74) && AddWord(K6.c0, Word(0x23, 0xdc, 0x54, 0x74)) == K7.c0;
    assert AddWord(K6.c1, K7.c0) == K7.c1 && AddWord(K6.c2, K7.c1) == K7.c2 && AddWord(K6.c3, K7.c2) == K7.c3;
    RoundKeyNext(t, key, n - 1, n, K6, K7, u, c);
  }

  lemma RoundKey8(t: Layers, key: Key, n: nat)
    requires Aes(t) && key == KEY && n == 8
    ensures RoundKey(t, key, n) == K8
  {
    RoundKey7(t, key, n - 1);
    var u, c := Word(0x24, 0x86, 0x84, 0x2f), Word(0x80, 0, 0, 0);
    Key8(t);
    assert AddWord(u, c) == Word(0xa4, 0x86, 0x84, 0x2f) && AddWord(K7.c0, Word(0xa4, 0x86, 0x84, 0x2f)) == K8.c0;
    assert AddWord(K7.c1, K8.c0) == K8.c1 && AddWord(K7.c2, K8.c1) == K8.c2 && AddWord(K7.c3, K8.c2) == K8.c3;
    RoundKeyNext(t, key, n - 1, n, K7, K8, u, c);
  }

  lemma RoundKey9(t: Layers, key: Key, n: nat)
    requires Aes(t) && key == KEY && n == 9
    ensures RoundKey(t, key, n) == K9
  {
    RoundKey8(t, key, n - 1);
    var u, c := Word(0x5d, 0xa5, 0x15, 0xd2), Word(0x1b, 0, 0, 0);
    Key9(t);
    assert AddWord(u, c) == Word(0x46, 0xa5, 0x15, 0xd2) && AddWord(K8.c0, Word(0x46, 0xa5, 0x15, 0xd2)) == K9.c0;
    assert AddWord(K8.c1, K9.c0) == K9.c1 && AddWord(K8.c2, K9.c1) == K9.c2 && AddWord(K8.c3, K9.c2) == K9.c3;
    RoundKeyNext(t, key, n - 1, n, K8, K9, u, c);
  }

  lemma RoundKey10(t: Layers, key: Key, n: nat)
    requires Aes(t) && key == KEY && n == 10
    ensures RoundKey(t, key, n) == K10
  {
    RoundKey9(t, key, n - 1);
    var u, c := Word(0x4a, 0x63, 0x9f, 0x5b), Word(0x36, 0, 0, 0);
    Key10(t);
    assert AddWord(u, c) == Word(0x7c, 0x63, 0x9f, 0x5b) && AddWord(K9.c0, Word(0x7c, 0x63, 0x9f, 0x5b)) == K10.c0;
    assert AddWord(K9.c1, K10.c0) == K10.c1 && AddWord(K9.c2, K10.c1) == K10.c2 && AddWord(K9.c3, K10.c2) == K10.c3;
    RoundKeyNext(t, key, n - 1, n, K9, K10, u, c);
  }

  // ----- the cipher -----

  lemma RoundNext(t: Layers, keys: Schedule, n: nat, s: Block, u: Block)
    requires 0 < n < ROUNDS && s == Rounds(t, keys, PLAIN, n - 1) && u == MapBytes(t.sbox, s)
    ensures Rounds(t, keys, PLAIN, n) == AddKey(t, MapColumns(t.mix, ShiftRows(u)), keys[n])
  {
  }

  lemma Round0(t: Layers, keys: Schedule, n: nat)
    requires Aes(t) && keys == KeySchedule(t, KEY) && n == 0
    ensures Rounds(t, keys, PLAIN, n) == S0
  {
    RoundKey0(t, KEY, n);
    Mix0(t);
  }

  lemma Round1(t: Layers, keys: Schedule, n: nat)
    requires Aes(t) && keys == KeySchedule(t, KEY) && n == 1
    ensures Rounds(t, keys, PLAIN, n) == S1
  {
    Round0(t, keys, n - 1);
    RoundKey1(t, KEY, n);
    Sub1_0(t);
    Sub1_1(t);
    Sub1_2(t);
    Sub1_3(t);
    RoundNext(t, keys, n, S0, U1);
    Mix1(t);
  }

  lemma Round2(t: Layers, keys: Schedule, n: nat)
    requires Aes(t) && keys == KeySchedule(t, KEY) && n == 2
    ensures Rounds(t, keys, PLAIN, n) == S2
  {
    Round1(t, keys, n - 1);
    RoundKey2(t, KEY, n);
    Sub2_0(t);
    Sub2_1(t);
    Sub2_2(t);
    Sub2_3(t);
    RoundNext(t, keys, n, S1, U2);
    Mix2(t);
  }

  lemma Round3(t: Layers, keys: Schedule, n: nat)
    requires Aes(t) && keys == KeySchedule(t, KEY) && n == 3
    ensures Rounds(t, keys, PLAIN, n) == S3
  {
    Round2(t, keys, n - 1);
    RoundKey3(t, KEY, n);
    Sub3_0(t);
    Sub3_1(t);
    Sub3_2(t);
    Sub3_3(t);
    RoundNext(t, keys, n, S2, U3);
    Mix3(t);
  }

  lemma Round4(t: Layers, keys: Schedule, n: nat)
    requires Aes(t) && keys == KeySchedule(t, KEY) && n == 4
    ensures Rounds(t, keys, PLAIN, n) == S4
  {
    Round3(t, keys, n - 1);
    RoundKey4(t, KEY, n);
    Sub4_0(t);
    Sub4_1(t);
    Sub4_2(t);
    Sub4_3(t);
    RoundNext(t, keys, n, S3, U4);
    Mix4(t);
  }

  lemma Round5(t: Layers, keys: Schedule, n: nat)
    requires Aes(t) && keys == KeySchedule(t, KEY) && n == 5
    ensures Rounds(t, keys, PLAIN, n) == S5
  {
    Round4(t, keys, n - 1);
    RoundKey5(t, KEY, n);
    Sub5_0(t);
    Sub5_1(t);
    Sub5_2(t);
    Sub5_3(t);
    RoundNext(t, keys, n, S4, U5);
    Mix5(t);
  }

  lemma Round6(t: Layers, keys: Schedule, n: nat)
    requires Aes(t) && keys == KeySchedule(t, KEY) && n == 6
    ensures Rounds(t, keys, PLAIN, n) == S6
  {
    Round5(t, keys, n - 1);
    RoundKey6(t, KEY, n);
    Sub6_0(t);
    Sub6_1(t);
    Sub6_2(t);
    Sub6_3(t);
    RoundNext(t, keys, n, S5, U6);
    Mix6(t);
  }

  lemma Round7(t: Layers, keys: Schedule, n: nat)
    requires Aes(t) && keys == KeySchedule(t, KEY) && n == 7
    ensures Rounds(t, keys, PLAIN, n) == S7
  {
    Round6(t, keys, n - 1);
    RoundKey7(t, KEY, n);
    Sub7_0(t);
    Sub7_1(t);
    Sub7_2(t);
    Sub7_3(t);
    RoundNext(t, keys, n, S6, U7);
    Mix7(t);
  }

  lemma Round8(t: Layers, keys: Schedule, n: nat)
    requires Aes(t) && keys == KeySchedule(t, KEY) && n == 8
    ensures Rounds(t, keys, PLAIN, n) == S8
  {
    Round7(t, keys, n - 1);
    RoundKey8(t, KEY, n);
    Sub8_0(t);
    Sub8_1(t);
    Sub8_2(t);
    Sub8_3(t);
    RoundNext(t, keys, n, S7, U8);
    Mix8(t);
  }

  lemma Round9(t: Layers, keys: Schedule, n: nat)
    requires Aes(t) && keys == KeySchedule(t, KEY) && n == 9
    ensures Rounds(t, keys, PLAIN, n) == S9
  {
    Round8(t, keys, n - 1);
    RoundKey9(t, KEY, n);
    Sub9_0(t);
    Sub9_1(t);
    Sub9_2(t);
    Sub9_3(t);
    RoundNext(t, keys, n, S8, U9);
    Mix9(t);
  }

  lemma Round10(t: Layers, keys: Schedule, n: nat)
    requires Aes(t) && keys == KeySchedule(t, KEY) && n == ROUNDS
    ensures Encipher(t, keys, PLAIN) == CIPHER
  {
    Round9(t, keys, n - 1);
    RoundKey10(t, KEY, n);
    Sub10_0(t);
    Sub10_1(t);
    Sub10_2(t);
    Sub10_3(t);
    LastRound(t, keys, n, S9, U10);
    Mix10(t);
  }

  lemma LastRound(t: Layers, keys: Schedule, n: nat, s: Block, u: Block)
    requires n == ROUNDS && s == Rounds(t, keys, PLAIN, n - 1) && u == MapBytes(t.sbox, s)
    ensures Encipher(t, keys, PLAIN) == AddKey(t, ShiftRows(u), keys[n])
  {
  }

  /** The cipher text that FIPS 197 prints, and back. */
  lemma Example()
    ensures Encipher(LAYERS, KeySchedule(LAYERS, KEY), PLAIN) == CIPHER
    ensures Decipher(LAYERS, KeySchedule(LAYERS, KEY), CIPHER) == PLAIN
  {
    var keys := KeySchedule(LAYERS, KEY);
    LayersAreAes();
    Round10(LAYERS, keys, ROUNDS);
    DecipherInverts(keys, PLAIN);
  }

  const INPUT: seq<bv8> :=
    [0x32, 0x43, 0xf6, 0xa8, 0x88, 0x5a, 0x30, 0x8d,
     0x31, 0x31, 0x98, 0xa2, 0xe0, 0x37, 0x07, 0x34]
  const OUTPUT: seq<bv8> :=
    [0x39, 0x25, 0x84, 0x1d, 0x02, 0xdc, 0x09, 0xfb,
     0xdc, 0x11, 0x85, 0x97, 0x19, 0x6a, 0x0b, 0x32]

  lemma BytesOfExample(output: seq<bv8>)
    requires |output| == 16 && BlockAt(output, 0) == CIPHER
    ensures output == OUTPUT
  {
  }

  /** From the bytes of the message to those of the cipher text, on the object. */
  method EncryptExample() returns (output: array<bv8>)
    ensures output[..] == OUTPUT
  {
    ghost var f := Enciphering(LAYERS, KEY);
    output := EncryptOne(KEY, INPUT, f);
    ExampleOf(f);
    BytesOfExample(output[..]);
  }

  method EncryptOne(key: Key, input: seq<bv8>, ghost f: Block -> Block) returns (output: array<bv8>)
    requires |input| == 16 && f == Enciphering(LAYERS, key)
    ensures output.Length == 16 && BlockAt(output[..], 0) == f(BlockAt(input, 0))
  {
    var cipher := new Cipher(key);
    output := new bv8[16];
    cipher.EncryptBlock(input, output, 0, f);
  }

  lemma ExampleOf(f: Block -> Block)
    requires f == Enciphering(LAYERS, KEY)
    ensures f(BlockAt(INPUT, 0)) == CIPHER
  {
    Example();
  }
}
