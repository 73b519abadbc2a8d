/**
  The first test of section 7.3 of RFC 3174: the digest of "abc".  It pins the constants,
  the rotations, the order of the variables and the padding, which the source and the
  reference share.  `Words` computes the schedule eight words at a time, `Rounds` the
  state five rounds at a time, over any functions that agree with those of SHA-1.
 */
module Sha1Example {
  import opened Octets
  import opened BlockStream
  import opened Sha1
  import HashContexts
  import Sequences

  const ABC: seq<octet> := [0x61, 0x62, 0x63]

  const DIGEST := State(0xa9993e36, 0x4706816a, 0xba3e2571, 0x7850c26c, 0x9cd0d89d)

  // ----- one step, by its inputs -----

  /** The new first variable of round `t`. */
  function NewA(t: nat, a: bv32, b: bv32, c: bv32, d: bv32, e: bv32, w: bv32): bv32 {
    Temp(a, F(t, b, c, d), e, w, K(t))
  }

  /** A place in the schedule that a proof is looking at. */
  predicate At(t: nat) {
    true
  }

  ghost predicate Mixes(mix: (bv32, bv32, bv32, bv32) -> bv32) {
    forall p, q, r, s {:trigger Mixed(p, q, r, s)} :: mix(p, q, r, s) == Mixed(p, q, r, s)
  }

  /** The words `ws` follow one another as those of a schedule, by the mixing `mix`. */
  ghost predicate Mixing(ws: nat -> bv32, mix: (bv32, bv32, bv32, bv32) -> bv32) {
    && Mixes(mix)
    && forall t: nat {:trigger At(t)} :: At(t) ==> ws(t + 16) == mix(ws(t + 13), ws(t + 8), ws(t + 2), ws(t))
  }

  /** The states `rs` follow one another as those of the rounds, by `f` and the rotation `g`. */
  ghost predicate Rounding(
      rs: nat -> State, ws: nat -> bv32, f: (nat, bv32, bv32, bv32, bv32, bv32, bv32) -> bv32, g: bv32 -> bv32)
  {
    && (forall t, a, b, c, d, e, w {:trigger NewA(t, a, b, c, d, e, w)} ::
          f(t, a, b, c, d, e, w) == NewA(t, a, b, c, d, e, w))
    && (forall x {:trigger Rol30(x)} :: g(x) == Rol30(x))
    && (forall t: nat {:trigger At(t)} :: Follows(rs(t), rs(t + 1), t, ws(t), f, g))
  }

  predicate Follows(
      s: State, r: State, t: nat, w: bv32, f: (nat, bv32, bv32, bv32, bv32, bv32, bv32) -> bv32, g: bv32 -> bv32)
  {
    r == State(f(t, s.a, s.b, s.c, s.d, s.e, w), s.a, g(s.b), s.c, s.d)
  }

  // ----- the schedule -----

  /** Eight words from `t` on. */
  predicate Eight(ws: nat -> bv32, t: nat, w: seq<bv32>)
    requires |w| == 8
  {
    && ws(t) == w[0] && ws(t + 1) == w[1] && ws(t + 2) == w[2] && ws(t + 3) == w[3]
    && ws(t + 4) == w[4] && ws(t + 5) == w[5] && ws(t + 6) == w[6] && ws(t + 7) == w[7]
  }

  const W0: seq<bv32> := [0x61626380, 0x00000000, 0x00000000, 0x00000000, 0x00000000, 0x00000000, 0x00000000,
      0x00000000]
  const W8: seq<bv32> := [0x00000000, 0x00000000, 0x00000000, 0x00000000, 0x00000000, 0x00000000, 0x00000000,
      0x00000018]
  const W16: seq<bv32> := [0xc2c4c700, 0x00000000, 0x00000030, 0x85898e01, 0x00000000, 0x00000060, 0x0b131c03,
      0x00000030]
  const W24: seq<bv32> := [0x85898ec1, 0x16263806, 0x00000000, 0x00000180, 0x2c4c700c, 0x000000f0, 0x93afb507,
      0x5898e048]
  const W32: seq<bv32> := [0x8e9a9202, 0x00000600, 0xb131c0f0, 0x16263bc6, 0x4ebed41e, 0x626380a1, 0x16263806,
      0x000018c0]
  const W40: seq<bv32> := [0xd2e138c4, 0x00000f00, 0x3afb5079, 0x898e04e5, 0xe2ba3c2b, 0x000060c0, 0x053a37cd,
      0x74458547]
  const W48: seq<bv32> := [0xda9415ed, 0x26380a16, 0x626383a1, 0x4ebf54de, 0x3835b44b, 0x0000f600, 0x1e84c7a3,
      0x98e04d98]
  const W56: seq<bv32> := [0x651d16a0, 0x62658ca1, 0x458544d6, 0x44584cb7, 0x7ba06619, 0x6380aea2, 0x0ae55269,
      0x627b49a1]
  const W64: seq<bv32> := [0x7cd45c9d, 0x000f0000, 0xfb50753a, 0xec6765e8, 0xba3c2be2, 0x0060c000, 0x3a37cd05,
      0x458546f4]
  const W72: seq<bv32> := [0xb8599dd6, 0x380a1a26, 0x01e02203, 0xe7cc3456, 0xe6e60b69, 0x00f60a00, 0x5795ef4f,
      0x822e0879]

  lemma Words16(ws: nat -> bv32, mix: (bv32, bv32, bv32, bv32) -> bv32)
    requires Mixing(ws, mix) && Eight(ws, 0, W0) && Eight(ws, 8, W8)
    ensures Eight(ws, 16, W16)
  {
    assert At(0) && At(1) && At(2) && At(3) && At(4) && At(5) && At(6) && At(7);
    assert Mixed(0x00000000, 0x00000000, 0x00000000, 0x61626380) == 0xc2c4c700;
    assert Mixed(0x00000000, 0x00000000, 0x00000000, 0x00000000) == 0x00000000;
    assert Mixed(0x00000018, 0x00000000, 0x00000000, 0x00000000) == 0x00000030;
    assert Mixed(0xc2c4c700, 0x00000000, 0x00000000, 0x00000000) == 0x85898e01;
    assert Mixed(0x00000000, 0x00000000, 0x00000000, 0x00000000) == 0x00000000;
    assert Mixed(0x00000030, 0x00000000, 0x00000000, 0x00000000) == 0x00000060;
    assert Mixed(0x85898e01, 0x00000000, 0x00000000, 0x00000000) == 0x0b131c03;
    assert Mixed(0x00000000, 0x00000018, 0x00000000, 0x00000000) == 0x00000030;
  }

  lemma Words24(ws: nat -> bv32, mix: (bv32, bv32, bv32, bv32) -> bv32)
    requires Mixing(ws, mix) && Eight(ws, 8, W8) && Eight(ws, 16, W16)
    ensures Eight(ws, 24, W24)
  {
    assert At(8) && At(9) && At(10) && At(11) && At(12) && At(13) && At(14) && At(15);
    assert Mixed(0x00000060, 0xc2c4c700, 0x00000000, 0x00000000) == 0x85898ec1;
    assert Mixed(0x0b131c03, 0x00000000, 0x00000000, 0x00000000) == 0x16263806;
    assert Mixed(0x00000030, 0x00000030, 0x00000000, 0x00000000) == 0x00000000;
    assert Mixed(0x85898ec1, 0x85898e01, 0x00000000, 0x00000000) == 0x00000180;
    assert Mixed(0x16263806, 0x00000000, 0x00000000, 0x00000000) == 0x2c4c700c;
    assert Mixed(0x00000000, 0x00000060, 0x00000018, 0x00000000) == 0x000000f0;
    assert Mixed(0x00000180, 0x0b131c03, 0xc2c4c700, 0x00000000) == 0x93afb507;
    assert Mixed(0x2c4c700c, 0x00000030, 0x00000000, 0x00000018) == 0x5898e048;
  }

  lemma Words32(ws: nat -> bv32, mix: (bv32, bv32, bv32, bv32) -> bv32)
    requires Mixing(ws, mix) && Eight(ws, 16, W16) && Eight(ws, 24, W24)
    ensures Eight(ws, 32, W32)
  {
    assert At(16) && At(17) && At(18) && At(19) && At(20) && At(21) && At(22) && At(23);
    assert Mixed(0x000000f0, 0x85898ec1, 0x00000030, 0xc2c4c700) == 0x8e9a9202;
    assert Mixed(0x93afb507, 0x16263806, 0x85898e01, 0x00000000) == 0x00000600;
    assert Mixed(0x5898e048, 0x00000000, 0x00000000, 0x00000030) == 0xb131c0f0;
    assert Mixed(0x8e9a9202, 0x00000180, 0x00000060, 0x85898e01) == 0x16263bc6;
    assert Mixed(0x00000600, 0x2c4c700c, 0x0b131c03, 0x00000000) == 0x4ebed41e;
    assert Mixed(0xb131c0f0, 0x000000f0, 0x00000030, 0x00000060) == 0x626380a1;
    assert Mixed(0x16263bc6, 0x93afb507, 0x85898ec1, 0x0b131c03) == 0x16263806;
    assert Mixed(0x4ebed41e, 0x5898e048, 0x16263806, 0x00000030) == 0x000018c0;
  }

  lemma Words40(ws: nat -> bv32, mix: (bv32, bv32, bv32, bv32) -> bv32)
    requires Mixing(ws, mix) && Eight(ws, 24, W24) && Eight(ws, 32, W32)
    ensures Eight(ws, 40, W40)
  {
    assert At(24) && At(25) && At(26) && At(27) && At(28) && At(29) && At(30) && At(31);
    assert Mixed(0x626380a1, 0x8e9a9202, 0x00000000, 0x85898ec1) == 0xd2e138c4;
    assert Mixed(0x16263806, 0x00000600, 0x00000180, 0x16263806) == 0x00000f00;
    assert Mixed(0x000018c0, 0xb131c0f0, 0x2c4c700c, 0x00000000) == 0x3afb5079;
    assert Mixed(0xd2e138c4, 0x16263bc6, 0x000000f0, 0x00000180) == 0x898e04e5;
    assert Mixed(0x00000f00, 0x4ebed41e, 0x93afb507, 0x2c4c700c) == 0xe2ba3c2b;
    assert Mixed(0x3afb5079, 0x626380a1, 0x5898e048, 0x000000f0) == 0x000060c0;
    assert Mixed(0x898e04e5, 0x16263806, 0x8e9a9202, 0x93afb507) == 0x053a37cd;
    assert Mixed(0xe2ba3c2b, 0x000018c0, 0x00000600, 0x5898e048) == 0x74458547;
  }

  lemma Words48(ws: nat -> bv32, mix: (bv32, bv32, bv32, bv32) -> bv32)
    requires Mixing(ws, mix) && Eight(ws, 32, W32) && Eight(ws, 40, W40)
    ensures Eight(ws, 48, W48)
  {
    assert At(32) && At(33) && At(34) && At(35) && At(36) && At(37) && At(38) && At(39);
    assert Mixed(0x000060c0, 0xd2e138c4, 0xb131c0f0, 0x8e9a9202) == 0xda9415ed;
    assert Mixed(0x053a37cd, 0x00000f00, 0x16263bc6, 0x00000600) == 0x26380a16;
    assert Mixed(0x74458547, 0x3afb5079, 0x4ebed41e, 0xb131c0f0) == 0x626383a1;
    assert Mixed(0xda9415ed, 0x898e04e5, 0x626380a1, 0x16263bc6) == 0x4ebf54de;
    assert Mixed(0x26380a16, 0xe2ba3c2b, 0x16263806, 0x4ebed41e) == 0x3835b44b;
    assert Mixed(0x626383a1, 0x000060c0, 0x000018c0, 0x626380a1) == 0x0000f600;
    assert Mixed(0x4ebf54de, 0x053a37cd, 0xd2e138c4, 0x16263806) == 0x1e84c7a3;
    assert Mixed(0x3835b44b, 0x74458547, 0x00000f00, 0x000018c0) == 0x98e04d98;
  }

  lemma Words56(ws: nat -> bv32, mix: (bv32, bv32, bv32, bv32) -> bv32)
    requires Mixing(ws, mix) && Eight(ws, 40, W40) && Eight(ws, 48, W48)
    ensures Eight(ws, 56, W56)
  {
    assert At(40) && At(41) && At(42) && At(43) && At(44) && At(45) && At(46) && At(47);
    assert Mixed(0x0000f600, 0xda9415ed, 0x3afb5079, 0xd2e138c4) == 0x651d16a0;
    assert Mixed(0x1e84c7a3, 0x26380a16, 0x898e04e5, 0x00000f00) == 0x62658ca1;
    assert Mixed(0x98e04d98, 0x626383a1, 0xe2ba3c2b, 0x3afb5079) == 0x458544d6;
    assert Mixed(0x651d16a0, 0x4ebf54de, 0x000060c0, 0x898e04e5) == 0x44584cb7;
    assert Mixed(0x62658ca1, 0x3835b44b, 0x053a37cd, 0xe2ba3c2b) == 0x7ba06619;
    assert Mixed(0x458544d6, 0x0000f600, 0x74458547, 0x000060c0) == 0x6380aea2;
    assert Mixed(0x44584cb7, 0x1e84c7a3, 0xda9415ed, 0x053a37cd) == 0x0ae55269;
    assert Mixed(0x7ba06619, 0x98e04d98, 0x26380a16, 0x74458547) == 0x627b49a1;
  }

  lemma Words64(ws: nat -> bv32, mix: (bv32, bv32, bv32, bv32) -> bv32)
    requires Mixing(ws, mix) && Eight(ws, 48, W48) && Eight(ws, 56, W56)
    ensures Eight(ws, 64, W64)
  {
    assert At(48) && At(49) && At(50) && At(51) && At(52) && At(53) && At(54) && At(55);
    assert Mixed(0x6380aea2, 0x651d16a0, 0x626383a1, 0xda9415ed) == 0x7cd45c9d;
    assert Mixed(0x0ae55269, 0x62658ca1, 0x4ebf54de, 0x26380a16) == 0x000f0000;
    assert Mixed(0x627b49a1, 0x458544d6, 0x3835b44b, 0x626383a1) == 0xfb50753a;
    assert Mixed(0x7cd45c9d, 0x44584cb7, 0x0000f600, 0x4ebf54de) == 0xec6765e8;
    assert Mixed(0x000f0000, 0x7ba06619, 0x1e84c7a3, 0x3835b44b) == 0xba3c2be2;
    assert Mixed(0xfb50753a, 0x6380aea2, 0x98e04d98, 0x0000f600) == 0x0060c000;
    assert Mixed(0xec6765e8, 0x0ae55269, 0x651d16a0, 0x1e84c7a3) == 0x3a37cd05;
    assert Mixed(0xba3c2be2, 0x627b49a1, 0x62658ca1, 0x98e04d98) == 0x458546f4;
  }

  lemma Words72(ws: nat -> bv32, mix: (bv32, bv32, bv32, bv32) -> bv32)
    requires Mixing(ws, mix) && Eight(ws, 56, W56) && Eight(ws, 64, W64)
    ensures Eight(ws, 72, W72)
  {
    assert At(56) && At(57) && At(58) && At(59) && At(60) && At(61) && At(62) && At(63);
    assert Mixed(0x0060c000, 0x7cd45c9d, 0x458544d6, 0x651d16a0) == 0xb8599dd6;
    assert Mixed(0x3a37cd05, 0x000f0000, 0x44584cb7, 0x62658ca1) == 0x380a1a26;
    assert Mixed(0x458546f4, 0xfb50753a, 0x7ba06619, 0x458544d6) == 0x01e02203;
    assert Mixed(0xb8599dd6, 0xec6765e8, 0x6380aea2, 0x44584cb7) == 0xe7cc3456;
    assert Mixed(0x380a1a26, 0xba3c2be2, 0x0ae55269, 0x7ba06619) == 0xe6e60b69;
    assert Mixed(0x01e02203, 0x0060c000, 0x627b49a1, 0x6380aea2) == 0x00f60a00;
    assert Mixed(0xe7cc3456, 0x3a37cd05, 0x7cd45c9d, 0x0ae55269) == 0x5795ef4f;
    assert Mixed(0xe6e60b69, 0x458546f4, 0x000f0000, 0x627b49a1) == 0x822e0879;
  }

  // ----- the rounds -----

  lemma Rounds10(rs: nat -> State, ws: nat -> bv32,
      f: (nat, bv32, bv32, bv32, bv32, bv32, bv32) -> bv32, g: bv32 -> bv32)
    requires Rounding(rs, ws, f, g) && rs(0) == State(0x67452301, 0xefcdab89, 0x98badcfe, 0x10325476, 0xc3d2e1f0)
    requires ws(0) == 0x61626380 && ws(1) == 0x00000000 && ws(2) == 0x00000000 && ws(3) == 0x00000000
             && ws(4) == 0x00000000 && ws(5) == 0x00000000 && ws(6) == 0x00000000
             && ws(7) == 0x00000000 && ws(8) == 0x00000000 && ws(9) == 0x00000000
    ensures rs(10) == State(0x8351f929, 0x4b6ae328, 0x27a301f5, 0x664f8c30, 0x0ff1f290)
  {
    assert At(0) && At(1) && At(2) && At(3) && At(4);
    assert At(5) && At(6) && At(7) && At(8) && At(9);
    assert NewA(0, 0x67452301, 0xefcdab89, 0x98badcfe, 0x10325476, 0xc3d2e1f0, 0x61626380) == 0x0116fc33
        && Rol30(0xefcdab89) == 0x7bf36ae2;
    assert NewA(1, 0x0116fc33, 0x67452301, 0x7bf36ae2, 0x98badcfe, 0x10325476, 0x00000000) == 0x8990536d
        && Rol30(0x67452301) == 0x59d148c0;
    assert NewA(2, 0x8990536d, 0x0116fc33, 0x59d148c0, 0x7bf36ae2, 0x98badcfe, 0x00000000) == 0xa1390f08
        && Rol30(0x0116fc33) == 0xc045bf0c;
    assert NewA(3, 0xa1390f08, 0x8990536d, 0xc045bf0c, 0x59d148c0, 0x7bf36ae2, 0x00000000) == 0xcdd8e11b
        && Rol30(0x8990536d) == 0x626414db;
    assert NewA(4, 0xcdd8e11b, 0xa1390f08, 0x626414db, 0xc045bf0c, 0x59d148c0, 0x00000000) == 0xcfd499de
        && Rol30(0xa1390f08) == 0x284e43c2;
    assert NewA(5, 0xcfd499de, 0xcdd8e11b, 0x284e43c2, 0x626414db, 0xc045bf0c, 0x00000000) == 0x3fc7ca40
        && Rol30(0xcdd8e11b) == 0xf3763846;
    assert NewA(6, 0x3fc7ca40, 0xcfd499de, 0xf3763846, 0x284e43c2, 0x626414db, 0x00000000) == 0x993e30c1
        && Rol30(0xcfd499de) == 0xb3f52677;
    assert NewA(7, 0x993e30c1, 0x3fc7ca40, 0xb3f52677, 0xf3763846, 0x284e43c2, 0x00000000) == 0x9e8c07d4
        && Rol30(0x3fc7ca40) == 0x0ff1f290;
    assert NewA(8, 0x9e8c07d4, 0x993e30c1, 0x0ff1f290, 0xb3f52677, 0xf3763846, 0x00000000) == 0x4b6ae328
        && Rol30(0x993e30c1) == 0x664f8c30;
    assert NewA(9, 0x4b6ae328, 0x9e8c07d4, 0x664f8c30, 0x0ff1f290, 0xb3f52677, 0x00000000) == 0x8351f929
        && Rol30(0x9e8c07d4) == 0x27a301f5;
  }

  lemma Rounds20(rs: nat -> State, ws: nat -> bv32,
      f: (nat, bv32, bv32, bv32, bv32, bv32, bv32) -> bv32, g: bv32 -> bv32)
    requires Rounding(rs, ws, f, g) && rs(10) == State(0x8351f929, 0x4b6ae328, 0x27a301f5, 0x664f8c30, 0x0ff1f290)
    requires ws(10) == 0x00000000 && ws(11) == 0x00000000 && ws(12) == 0x00000000 && ws(13) == 0x00000000
             && ws(14) == 0x00000000 && ws(15) == 0x00000018 && ws(16) == 0xc2c4c700
             && ws(17) == 0x00000000 && ws(18) == 0x00000030 && ws(19) == 0x85898e01
    ensures rs(20) == State(0xfd9e1d7d, 0xdc64901d, 0x20aa99ca, 0xd3a49608, 0xc82f758b)
  {
    assert At(10) && At(11) && At(12) && At(13) && At(14);
    assert At(15) && At(16) && At(17) && At(18) && At(19);
    assert NewA(10, 0x8351f929, 0x4b6ae328, 0x27a301f5, 0x664f8c30, 0x0ff1f290, 0x00000000) == 0xfbda9e89
        && Rol30(0x4b6ae328) == 0x12dab8ca;
    assert NewA(11, 0xfbda9e89, 0x8351f929, 0x12dab8ca, 0x27a301f5, 0x664f8c30, 0x00000000) == 0x63188fe4
        && Rol30(0x8351f929) == 0x60d47e4a;
    assert NewA(12, 0x63188fe4, 0xfbda9e89, 0x60d47e4a, 0x12dab8ca, 0x27a301f5, 0x00000000) == 0x4607b664
        && Rol30(0xfbda9e89) == 0x7ef6a7a2;
    assert NewA(13, 0x4607b664, 0x63188fe4, 0x7ef6a7a2, 0x60d47e4a, 0x12dab8ca, 0x00000000) == 0x9128f695
        && Rol30(0x63188fe4) == 0x18c623f9;
    assert NewA(14, 0x9128f695, 0x4607b664, 0x18c623f9, 0x7ef6a7a2, 0x60d47e4a, 0x00000000) == 0x196bee77
        && Rol30(0x4607b664) == 0x1181ed99;
    assert NewA(15, 0x196bee77, 0x9128f695, 0x1181ed99, 0x18c623f9, 0x7ef6a7a2, 0x00000018) == 0x20bdd62f
        && Rol30(0x9128f695) == 0x644a3da5;
    assert NewA(16, 0x20bdd62f, 0x196bee77, 0x644a3da5, 0x1181ed99, 0x18c623f9, 0xc2c4c700) == 0x4e925823
        && Rol30(0x196bee77) == 0xc65afb9d;
    assert NewA(17, 0x4e925823, 0x20bdd62f, 0xc65afb9d, 0x644a3da5, 0x1181ed99, 0x00000000) == 0x82aa6728
        && Rol30(0x20bdd62f) == 0xc82f758b;
    assert NewA(18, 0x82aa6728, 0x4e925823, 0xc82f758b, 0xc65afb9d, 0x644a3da5, 0x00000030) == 0xdc64901d
        && Rol30(0x4e925823) == 0xd3a49608;
    assert NewA(19, 0xdc64901d, 0x82aa6728, 0xd3a49608, 0xc82f758b, 0xc65afb9d, 0x85898e01) == 0xfd9e1d7d
        && Rol30(0x82aa6728) == 0x20aa99ca;
  }

  lemma Rounds30(rs: nat -> State, ws: nat -> bv32,
      f: (nat, bv32, bv32, bv32, bv32, bv32, bv32) -> bv32, g: bv32 -> bv32)
    requires Rounding(rs, ws, f, g) && rs(20) == State(0xfd9e1d7d, 0xdc64901d, 0x20aa99ca, 0xd3a49608, 0xc82f758b)
    requires ws(20) == 0x00000000 && ws(21) == 0x00000060 && ws(22) == 0x0b131c03 && ws(23) == 0x00000030
             && ws(24) == 0x85898ec1 && ws(25) == 0x16263806 && ws(26) == 0x00000000
             && ws(27) == 0x00000180 && ws(28) == 0x2c4c700c && ws(29) == 0x000000f0
    ensures rs(30) == State(0xc5fbaf5d, 0x8370b52e, 0xd2aa1365, 0x6f8d7ef5, 0x12104ee9)
  {
    assert At(20) && At(21) && At(22) && At(23) && At(24);
    assert At(25) && At(26) && At(27) && At(28) && At(29);
    assert NewA(20, 0xfd9e1d7d, 0xdc64901d, 0x20aa99ca, 0xd3a49608, 0xc82f758b, 0x00000000) == 0x1a37b0ca
        && Rol30(0xdc64901d) == 0x77192407;
    assert NewA(21, 0x1a37b0ca, 0xfd9e1d7d, 0x77192407, 0x20aa99ca, 0xd3a49608, 0x00000060) == 0x33a23bfc
        && Rol30(0xfd9e1d7d) == 0x7f67875f;
    assert NewA(22, 0x33a23bfc, 0x1a37b0ca, 0x7f67875f, 0x77192407, 0x20aa99ca, 0x0b131c03) == 0x21283486
        && Rol30(0x1a37b0ca) == 0x868dec32;
    assert NewA(23, 0x21283486, 0x33a23bfc, 0x868dec32, 0x7f67875f, 0x77192407, 0x00000030) == 0xd541f12d
        && Rol30(0x33a23bfc) == 0x0ce88eff;
    assert NewA(24, 0xd541f12d, 0x21283486, 0x0ce88eff, 0x868dec32, 0x7f67875f, 0x85898ec1) == 0xc7567dc6
        && Rol30(0x21283486) == 0x884a0d21;
    assert NewA(25, 0xc7567dc6, 0xd541f12d, 0x884a0d21, 0x0ce88eff, 0x868dec32, 0x16263806) == 0x48413ba4
        && Rol30(0xd541f12d) == 0x75507c4b;
    assert NewA(26, 0x48413ba4, 0xc7567dc6, 0x75507c4b, 0x884a0d21, 0x0ce88eff, 0x00000000) == 0xbe35fbd5
        && Rol30(0xc7567dc6) == 0xb1d59f71;
    assert NewA(27, 0xbe35fbd5, 0x48413ba4, 0xb1d59f71, 0x75507c4b, 0x884a0d21, 0x00000180) == 0x4aa84d97
        && Rol30(0x48413ba4) == 0x12104ee9;
    assert NewA(28, 0x4aa84d97, 0xbe35fbd5, 0x12104ee9, 0xb1d59f71, 0x75507c4b, 0x2c4c700c) == 0x8370b52e
        && Rol30(0xbe35fbd5) == 0x6f8d7ef5;
    assert NewA(29, 0x8370b52e, 0x4aa84d97, 0x6f8d7ef5, 0x12104ee9, 0xb1d59f71, 0x000000f0) == 0xc5fbaf5d
        && Rol30(0x4aa84d97) == 0xd2aa1365;
  }

  lemma Rounds40(rs: nat -> State, ws: nat -> bv32,
      f: (nat, bv32, bv32, bv32, bv32, bv32, bv32) -> bv32, g: bv32 -> bv32)
    requires Rounding(rs, ws, f, g) && rs(30) == State(0xc5fbaf5d, 0x8370b52e, 0xd2aa1365, 0x6f8d7ef5, 0x12104ee9)
    requires ws(30) == 0x93afb507 && ws(31) == 0x5898e048 && ws(32) == 0x8e9a9202 && ws(33) == 0x00000600
             && ws(34) == 0xb131c0f0 && ws(35) == 0x16263bc6 && ws(36) == 0x4ebed41e
             && ws(37) == 0x626380a1 && ws(38) == 0x16263806 && ws(39) == 0x000018c0
    ensures rs(40) == State(0x32de1cba, 0x4c986405, 0xf718e5cf, 0x03d447f6, 0xf72eec32)
  {
    assert At(30) && At(31) && At(32) && At(33) && At(34);
    assert At(35) && At(36) && At(37) && At(38) && At(39);
    assert NewA(30, 0xc5fbaf5d, 0x8370b52e, 0xd2aa1365, 0x6f8d7ef5, 0x12104ee9, 0x93afb507) == 0x1267b407
        && Rol30(0x8370b52e) == 0xa0dc2d4b;
    assert NewA(31, 0x1267b407, 0xc5fbaf5d, 0xa0dc2d4b, 0xd2aa1365, 0x6f8d7ef5, 0x5898e048) == 0x3b845d33
        && Rol30(0xc5fbaf5d) == 0x717eebd7;
    assert NewA(32, 0x3b845d33, 0x1267b407, 0x717eebd7, 0xa0dc2d4b, 0xd2aa1365, 0x8e9a9202) == 0x046faa0a
        && Rol30(0x1267b407) == 0xc499ed01;
    assert NewA(33, 0x046faa0a, 0x3b845d33, 0xc499ed01, 0x717eebd7, 0xa0dc2d4b, 0x00000600) == 0x2c0ebc11
        && Rol30(0x3b845d33) == 0xcee1174c;
    assert NewA(34, 0x2c0ebc11, 0x046faa0a, 0xcee1174c, 0xc499ed01, 0x717eebd7, 0xb131c0f0) == 0x21796ad4
        && Rol30(0x046faa0a) == 0x811bea82;
    assert NewA(35, 0x21796ad4, 0x2c0ebc11, 0x811bea82, 0xcee1174c, 0xc499ed01, 0x16263bc6) == 0xdcbbb0cb
        && Rol30(0x2c0ebc11) == 0x4b03af04;
    assert NewA(36, 0xdcbbb0cb, 0x21796ad4, 0x4b03af04, 0x811bea82, 0xcee1174c, 0x4ebed41e) == 0x0f511fd8
        && Rol30(0x21796ad4) == 0x085e5ab5;
    assert NewA(37, 0x0f511fd8, 0xdcbbb0cb, 0x085e5ab5, 0x4b03af04, 0x811bea82, 0x626380a1) == 0xdc63973f
        && Rol30(0xdcbbb0cb) == 0xf72eec32;
    assert NewA(38, 0xdc63973f, 0x0f511fd8, 0xf72eec32, 0x085e5ab5, 0x4b03af04, 0x16263806) == 0x4c986405
        && Rol30(0x0f511fd8) == 0x03d447f6;
    assert NewA(39, 0x4c986405, 0xdc63973f, 0x03d447f6, 0xf72eec32, 0x085e5ab5, 0x000018c0) == 0x32de1cba
        && Rol30(0xdc63973f) == 0xf718e5cf;
  }

  lemma Rounds50(rs: nat -> State, ws: nat -> bv32,
      f: (nat, bv32, bv32, bv32, bv32, bv32, bv32) -> bv32, g: bv32 -> bv32)
    requires Rounding(rs, ws, f, g) && rs(40) == State(0x32de1cba, 0x4c986405, 0xf718e5cf, 0x03d447f6, 0xf72eec32)
    requires ws(40) == 0xd2e138c4 && ws(41) == 0x00000f00 && ws(42) == 0x3afb5079 && ws(43) == 0x898e04e5
             && ws(44) == 0xe2ba3c2b && ws(45) == 0x000060c0 && ws(46) == 0x053a37cd
             && ws(47) == 0x74458547 && ws(48) == 0xda9415ed && ws(49) == 0x26380a16
    ensures rs(50) == State(0x120731c5, 0xbaf39337, 0xafab40b2, 0x2806e11b, 0x8714787c)
  {
    assert At(40) && At(41) && At(42) && At(43) && At(44);
    assert At(45) && At(46) && At(47) && At(48) && At(49);
    assert NewA(40, 0x32de1cba, 0x4c986405, 0xf718e5cf, 0x03d447f6, 0xf72eec32, 0xd2e138c4) == 0xfc87dedf
        && Rol30(0x4c986405) == 0x53261901;
    assert NewA(41, 0xfc87dedf, 0x32de1cba, 0x53261901, 0xf718e5cf, 0x03d447f6, 0x00000f00) == 0x970a0d5c
        && Rol30(0x32de1cba) == 0x8cb7872e;
    assert NewA(42, 0x970a0d5c, 0xfc87dedf, 0x8cb7872e, 0x53261901, 0xf718e5cf, 0x3afb5079) == 0x7f193dc5
        && Rol30(0xfc87dedf) == 0xff21f7b7;
    assert NewA(43, 0x7f193dc5, 0x970a0d5c, 0xff21f7b7, 0x8cb7872e, 0x53261901, 0x898e04e5) == 0xee1b1aaf
        && Rol30(0x970a0d5c) == 0x25c28357;
    assert NewA(44, 0xee1b1aaf, 0x7f193dc5, 0x25c28357, 0xff21f7b7, 0x8cb7872e, 0xe2ba3c2b) == 0x40f28e09
        && Rol30(0x7f193dc5) == 0x5fc64f71;
    assert NewA(45, 0x40f28e09, 0xee1b1aaf, 0x5fc64f71, 0x25c28357, 0xff21f7b7, 0x000060c0) == 0x1c51e1f2
        && Rol30(0xee1b1aaf) == 0xfb86c6ab;
    assert NewA(46, 0x1c51e1f2, 0x40f28e09, 0xfb86c6ab, 0x5fc64f71, 0x25c28357, 0x053a37cd) == 0xa01b846c
        && Rol30(0x40f28e09) == 0x503ca382;
    assert NewA(47, 0xa01b846c, 0x1c51e1f2, 0x503ca382, 0xfb86c6ab, 0x5fc64f71, 0x74458547) == 0xbead02ca
        && Rol30(0x1c51e1f2) == 0x8714787c;
    assert NewA(48, 0xbead02ca, 0xa01b846c, 0x8714787c, 0x503ca382, 0xfb86c6ab, 0xda9415ed) == 0xbaf39337
        && Rol30(0xa01b846c) == 0x2806e11b;
    assert NewA(49, 0xbaf39337, 0xbead02ca, 0x2806e11b, 0x8714787c, 0x503ca382, 0x26380a16) == 0x120731c5
        && Rol30(0xbead02ca) == 0xafab40b2;
  }

  lemma Rounds60(rs: nat -> State, ws: nat -> bv32,
      f: (nat, bv32, bv32, bv32, bv32, bv32, bv32) -> bv32, g: bv32 -> bv32)
    requires Rounding(rs, ws, f, g) && rs(50) == State(0x120731c5, 0xbaf39337, 0xafab40b2, 0x2806e11b, 0x8714787c)
    requires ws(50) == 0x626383a1 && ws(51) == 0x4ebf54de && ws(52) == 0x3835b44b && ws(53) == 0x0000f600
             && ws(54) == 0x1e84c7a3 && ws(55) == 0x98e04d98 && ws(56) == 0x651d16a0
             && ws(57) == 0x62658ca1 && ws(58) == 0x458544d6 && ws(59) == 0x44584cb7
    ensures rs(60) == State(0x3f52de5a, 0x09d785fd, 0x3498bfd4, 0xf211824f, 0xd79915ab)
  {
    assert At(50) && At(51) && At(52) && At(53) && At(54);
    assert At(55) && At(56) && At(57) && At(58) && At(59);
    assert NewA(50, 0x120731c5, 0xbaf39337, 0xafab40b2, 0x2806e11b, 0x8714787c, 0x626383a1) == 0x641db2ce
        && Rol30(0xbaf39337) == 0xeebce4cd;
    assert NewA(51, 0x641db2ce, 0x120731c5, 0xeebce4cd, 0xafab40b2, 0x2806e11b, 0x4ebf54de) == 0x3847ad66
        && Rol30(0x120731c5) == 0x4481cc71;
    assert NewA(52, 0x3847ad66, 0x641db2ce, 0x4481cc71, 0xeebce4cd, 0xafab40b2, 0x3835b44b) == 0xe490436d
        && Rol30(0x641db2ce) == 0x99076cb3;
    assert NewA(53, 0xe490436d, 0x3847ad66, 0x99076cb3, 0x4481cc71, 0xeebce4cd, 0x0000f600) == 0x27e9f1d8
        && Rol30(0x3847ad66) == 0x8e11eb59;
    assert NewA(54, 0x27e9f1d8, 0xe490436d, 0x8e11eb59, 0x99076cb3, 0x4481cc71, 0x1e84c7a3) == 0x7b71f76d
        && Rol30(0xe490436d) == 0x792410db;
    assert NewA(55, 0x7b71f76d, 0x27e9f1d8, 0x792410db, 0x8e11eb59, 0x99076cb3, 0x98e04d98) == 0x5e6456af
        && Rol30(0x27e9f1d8) == 0x09fa7c76;
    assert NewA(56, 0x5e6456af, 0x7b71f76d, 0x09fa7c76, 0x792410db, 0x8e11eb59, 0x651d16a0) == 0xc846093f
        && Rol30(0x7b71f76d) == 0x5edc7ddb;
    assert NewA(57, 0xc846093f, 0x5e6456af, 0x5edc7ddb, 0x09fa7c76, 0x792410db, 0x62658ca1) == 0xd262ff50
        && Rol30(0x5e6456af) == 0xd79915ab;
    assert NewA(58, 0xd262ff50, 0xc846093f, 0xd79915ab, 0x5edc7ddb, 0x09fa7c76, 0x458544d6) == 0x09d785fd
        && Rol30(0xc846093f) == 0xf211824f;
    assert NewA(59, 0x09d785fd, 0xd262ff50, 0xf211824f, 0xd79915ab, 0x5edc7ddb, 0x44584cb7) == 0x3f52de5a
        && Rol30(0xd262ff50) == 0x3498bfd4;
  }

  lemma Rounds70(rs: nat -> State, ws: nat -> bv32,
      f: (nat, bv32, bv32, bv32, bv32, bv32, bv32) -> bv32, g: bv32 -> bv32)
    requires Rounding(rs, ws, f, g) && rs(60) == State(0x3f52de5a, 0x09d785fd, 0x3498bfd4, 0xf211824f, 0xd79915ab)
    requires ws(60) == 0x7ba06619 && ws(61) == 0x6380aea2 && ws(62) == 0x0ae55269 && ws(63) == 0x627b49a1
             && ws(64) == 0x7cd45c9d && ws(65) == 0x000f0000 && ws(66) == 0xfb50753a
             && ws(67) == 0xec6765e8 && ws(68) == 0xba3c2be2 && ws(69) == 0x0060c000
    ensures rs(70) == State(0x3f2588c2, 0x497093c0, 0xde37534a, 0x030f7cad, 0x4405957e)
  {
    assert At(60) && At(61) && At(62) && At(63) && At(64);
    assert At(65) && At(66) && At(67) && At(68) && At(69);
    assert NewA(60, 0x3f52de5a, 0x09d785fd, 0x3498bfd4, 0xf211824f, 0xd79915ab, 0x7ba06619) == 0xd756c147
        && Rol30(0x09d785fd) == 0x4275e17f;
    assert NewA(61, 0xd756c147, 0x3f52de5a, 0x4275e17f, 0x3498bfd4, 0xf211824f, 0x6380aea2) == 0x548c9cb2
        && Rol30(0x3f52de5a) == 0x8fd4b796;
    assert NewA(62, 0x548c9cb2, 0xd756c147, 0x8fd4b796, 0x4275e17f, 0x3498bfd4, 0x0ae55269) == 0xb66c020b
        && Rol30(0xd756c147) == 0xf5d5b051;
    assert NewA(63, 0xb66c020b, 0x548c9cb2, 0xf5d5b051, 0x8fd4b796, 0x4275e17f, 0x627b49a1) == 0x6b61c9e1
        && Rol30(0x548c9cb2) == 0x9523272c;
    assert NewA(64, 0x6b61c9e1, 0xb66c020b, 0x9523272c, 0xf5d5b051, 0x8fd4b796, 0x7cd45c9d) == 0x19dfa7ac
        && Rol30(0xb66c020b) == 0xed9b0082;
    assert NewA(65, 0x19dfa7ac, 0x6b61c9e1, 0xed9b0082, 0x9523272c, 0xf5d5b051, 0x000f0000) == 0x101655f9
        && Rol30(0x6b61c9e1) == 0x5ad87278;
    assert NewA(66, 0x101655f9, 0x19dfa7ac, 0x5ad87278, 0xed9b0082, 0x9523272c, 0xfb50753a) == 0x0c3df2b4
        && Rol30(0x19dfa7ac) == 0x0677e9eb;
    assert NewA(67, 0x0c3df2b4, 0x101655f9, 0x0677e9eb, 0x5ad87278, 0xed9b0082, 0xec6765e8) == 0x78dd4d2b
        && Rol30(0x101655f9) == 0x4405957e;
    assert NewA(68, 0x78dd4d2b, 0x0c3df2b4, 0x4405957e, 0x0677e9eb, 0x5ad87278, 0xba3c2be2) == 0x497093c0
        && Rol30(0x0c3df2b4) == 0x030f7cad;
    assert NewA(69, 0x497093c0, 0x78dd4d2b, 0x030f7cad, 0x4405957e, 0x0677e9eb, 0x0060c000) == 0x3f2588c2
        && Rol30(0x78dd4d2b) == 0xde37534a;
  }

  lemma Rounds80(rs: nat -> State, ws: nat -> bv32,
      f: (nat, bv32, bv32, bv32, bv32, bv32, bv32) -> bv32, g: bv32 -> bv32)
    requires Rounding(rs, ws, f, g) && rs(70) == State(0x3f2588c2, 0x497093c0, 0xde37534a, 0x030f7cad, 0x4405957e)
    requires ws(70) == 0x3a37cd05 && ws(71) == 0x458546f4 && ws(72) == 0xb8599dd6 && ws(73) == 0x380a1a26
             && ws(74) == 0x01e02203 && ws(75) == 0xe7cc3456 && ws(76) == 0xe6e60b69
             && ws(77) == 0x00f60a00 && ws(78) == 0x5795ef4f && ws(79) == 0x822e0879
    ensures rs(80) == State(0x42541b35, 0x5738d5e1, 0x21834873, 0x681e6df6, 0xd8fdf6ad)
  {
    assert At(70) && At(71) && At(72) && At(73) && At(74);
    assert At(75) && At(76) && At(77) && At(78) && At(79);
    assert NewA(70, 0x3f2588c2, 0x497093c0, 0xde37534a, 0x030f7cad, 0x4405957e, 0x3a37cd05) == 0xc199f8c7
        && Rol30(0x497093c0) == 0x125c24f0;
    assert NewA(71, 0xc199f8c7, 0x3f2588c2, 0x125c24f0, 0xde37534a, 0x030f7cad, 0x458546f4) == 0x39859de7
        && Rol30(0x3f2588c2) == 0x8fc96230;
    assert NewA(72, 0x39859de7, 0xc199f8c7, 0x8fc96230, 0x125c24f0, 0xde37534a, 0xb8599dd6) == 0xedb42de4
        && Rol30(0xc199f8c7) == 0xf0667e31;
    assert NewA(73, 0xedb42de4, 0x39859de7, 0xf0667e31, 0x8fc96230, 0x125c24f0, 0x380a1a26) == 0x11793f6f
        && Rol30(0x39859de7) == 0xce616779;
    assert NewA(74, 0x11793f6f, 0xedb42de4, 0xce616779, 0xf0667e31, 0x8fc96230, 0x01e02203) == 0x5ee76897
        && Rol30(0xedb42de4) == 0x3b6d0b79;
    assert NewA(75, 0x5ee76897, 0x11793f6f, 0x3b6d0b79, 0xce616779, 0xf0667e31, 0xe7cc3456) == 0x63f7dab7
        && Rol30(0x11793f6f) == 0xc45e4fdb;
    assert NewA(76, 0x63f7dab7, 0x5ee76897, 0xc45e4fdb, 0x3b6d0b79, 0xce616779, 0xe6e60b69) == 0xa079b7d9
        && Rol30(0x5ee76897) == 0xd7b9da25;
    assert NewA(77, 0xa079b7d9, 0x63f7dab7, 0xd7b9da25, 0xc45e4fdb, 0x3b6d0b79, 0x00f60a00) == 0x860d21cc
        && Rol30(0x63f7dab7) == 0xd8fdf6ad;
    assert NewA(78, 0x860d21cc, 0xa079b7d9, 0xd8fdf6ad, 0xd7b9da25, 0xc45e4fdb, 0x5795ef4f) == 0x5738d5e1
        && Rol30(0xa079b7d9) == 0x681e6df6;
    assert NewA(79, 0x5738d5e1, 0x860d21cc, 0x681e6df6, 0xd8fdf6ad, 0xd7b9da25, 0x822e0879) == 0x42541b35
        && Rol30(0x860d21cc) == 0x21834873;
  }

  lemma AllRounds(rs: nat -> State, ws: nat -> bv32, mix: (bv32, bv32, bv32, bv32) -> bv32,
                  f: (nat, bv32, bv32, bv32, bv32, bv32, bv32) -> bv32, g: bv32 -> bv32)
    requires Mixing(ws, mix) && Rounding(rs, ws, f, g)
    requires rs(0) == State(0x67452301, 0xefcdab89, 0x98badcfe, 0x10325476, 0xc3d2e1f0) && Eight(ws, 0, W0)
        && Eight(ws, 8, W8)
    ensures rs(80) == State(0x42541b35, 0x5738d5e1, 0x21834873, 0x681e6df6, 0xd8fdf6ad)
  {
    Words16(ws, mix);
    Words24(ws, mix);
    Words32(ws, mix);
    Words40(ws, mix);
    Words48(ws, mix);
    Words56(ws, mix);
    Words64(ws, mix);
    Words72(ws, mix);
    Rounds10(rs, ws, f, g);
    Rounds20(rs, ws, f, g);
    Rounds30(rs, ws, f, g);
    Rounds40(rs, ws, f, g);
    Rounds50(rs, ws, f, g);
    Rounds60(rs, ws, f, g);
    Rounds70(rs, ws, f, g);
    Rounds80(rs, ws, f, g);
  }

  // ----- SHA-1 is such a computation -----

  /** A place in the schedule or among the rounds that a proof asks for by its number. */
  predicate Named(t: nat) {
    true
  }

  ghost predicate WordsOfSchedule(ws: nat -> bv32, words: Words) {
    forall t: nat {:trigger Named(t)} :: ws(t) == W(words, t)
  }

  ghost predicate StatesOfRounds(rs: nat -> State, words: Words, s: State) {
    forall n: nat {:trigger Named(n)} :: rs(n) == Rounds(words, s, n)
  }

  lemma Unrolled(words: Words, s: State) returns (ws: nat -> bv32, rs: nat -> State)
    ensures WordsOfSchedule(ws, words) && StatesOfRounds(rs, words, s)
  {
    ws, rs := (t: nat) => W(words, t), (n: nat) => Rounds(words, s, n);
  }

  lemma OneWord(words: Words, t: nat)
    ensures W(words, t + 16) == Mixed(W(words, t + 13), W(words, t + 8), W(words, t + 2), W(words, t))
  {
  }

  lemma NextWord(words: Words, ws: nat -> bv32, mix: (bv32, bv32, bv32, bv32) -> bv32, t: nat)
    requires WordsOfSchedule(ws, words) && Mixes(mix)
    ensures ws(t + 16) == mix(ws(t + 13), ws(t + 8), ws(t + 2), ws(t))
  {
    assert Named(t + 16) && Named(t + 13) && Named(t + 8) && Named(t + 2) && Named(t);
    OneWord(words, t);
  }

  lemma ScheduleMixes(words: Words, ws: nat -> bv32, mix: (bv32, bv32, bv32, bv32) -> bv32)
    requires WordsOfSchedule(ws, words) && Mixes(mix)
    ensures Mixing(ws, mix)
  {
    forall t: nat {:trigger At(t)} | At(t)
      ensures ws(t + 16) == mix(ws(t + 13), ws(t + 8), ws(t + 2), ws(t))
    {
      NextWord(words, ws, mix, t);
    }
  }

  lemma MixedMixes()
    ensures Mixes(Mixed)
  {
  }

  lemma OneRound(words: Words, s: State, t: nat)
    ensures var r := Rounds(words, s, t);
            Rounds(words, s, t + 1) ==
            State(NewA(t, r.a, r.b, r.c, r.d, r.e, W(words, t)), r.a, Rol30(r.b), r.c, r.d)
  {
  }

  lemma NextState(words: Words, s: State, rs: nat -> State, ws: nat -> bv32, t: nat)
    requires WordsOfSchedule(ws, words) && StatesOfRounds(rs, words, s)
    ensures Follows(rs(t), rs(t + 1), t, ws(t), NewA, Rol30)
  {
    assert Named(t) && Named(t + 1);
    OneRound(words, s, t);
  }

  lemma RoundsRound(words: Words, s: State, rs: nat -> State, ws: nat -> bv32,
                    f: (nat, bv32, bv32, bv32, bv32, bv32, bv32) -> bv32, g: bv32 -> bv32)
    requires WordsOfSchedule(ws, words) && StatesOfRounds(rs, words, s) && f == NewA && g == Rol30
    ensures Rounding(rs, ws, f, g)
  {
    forall t: nat
      ensures Follows(rs(t), rs(t + 1), t, ws(t), f, g)
    {
      NextState(words, s, rs, ws, t);
    }
  }

  lemma FirstWords(words: Words, ws: nat -> bv32, t: nat)
    requires WordsOfSchedule(ws, words) && t <= 8
    ensures Eight(ws, t, words[t..t + 8])
  {
    assert Named(t) && Named(t + 1) && Named(t + 2) && Named(t + 3);
    assert Named(t + 4) && Named(t + 5) && Named(t + 6) && Named(t + 7);
  }

  lemma FirstState(words: Words, s: State, rs: nat -> State, n: nat)
    requires StatesOfRounds(rs, words, s) && n == 0
    ensures rs(n) == s
  {
    assert Named(n);
  }

  lemma StateReached(words: Words, s: State, rs: nat -> State, n: nat)
    requires StatesOfRounds(rs, words, s)
    ensures Rounds(words, s, n) == rs(n)
  {
    assert Named(n);
  }

  lemma RoundsOfExample(words: Words, s: State, n: nat)
    requires words == W0 + W8 && s == State(0x67452301, 0xefcdab89, 0x98badcfe, 0x10325476, 0xc3d2e1f0) && n == ROUNDS
    ensures Rounds(words, s, n) == State(0x42541b35, 0x5738d5e1, 0x21834873, 0x681e6df6, 0xd8fdf6ad)
  {
    var ws, rs := Unrolled(words, s);
    MixedMixes();
    ScheduleMixes(words, ws, Mixed);
    RoundsRound(words, s, rs, ws, NewA, Rol30);
    FirstWords(words, ws, 0);
    FirstWords(words, ws, 8);
    assert words[0..8] == W0 && words[8..16] == W8;
    FirstState(words, s, rs, 0);
    AllRounds(rs, ws, Mixed, NewA, Rol30);
    StateReached(words, s, rs, n);
  }

  // ----- from the message to the block -----

  /** The message, the marking octet, the zeros, and a count of 24 bits. */
  lemma AbcPadded(n: nat)
    requires n == 3
    ensures HashContexts.PaddedBig(ABC) == ABC + [0x80] + HashContexts.Zeros(59) + [24]
    ensures HashContexts.PaddedLittle(ABC) == ABC + [0x80] + HashContexts.Zeros(52) + [24] + HashContexts.Zeros(7)
  {
    assert HashContexts.ZeroCount(n) == 52 && Low(n) == 24 && High(n) == 0;
    HashContexts.FourOctets(24);
    HashContexts.FourOctets(0);
  }

  lemma ByteIs(o: octet, x: bv8)
    requires x as octet == o
    ensures Byte(o) == x
  {
    BitsAsOctet(x);
  }

  lemma WordIs(b0: octet, b1: octet, b2: octet, b3: octet, x0: bv8, x1: bv8, x2: bv8, x3: bv8)
    requires x0 as octet == b0 && x1 as octet == b1 && x2 as octet == b2 && x3 as octet == b3
    ensures BigEndian(Byte(b0), Byte(b1), Byte(b2), Byte(b3)) == BigEndian(x0, x1, x2, x3)
  {
    ByteIs(b0, x0);
    ByteIs(b1, x1);
    ByteIs(b2, x2);
    ByteIs(b3, x3);
  }

  lemma WordsOfAbc(block: Buffer)
    requires block == ABC + [0x80] + HashContexts.Zeros(59) + [24]
    ensures WordsOf(block) == W0 + W8
  {
    WordIs(0x61, 0x62, 0x63, 0x80, 0x61, 0x62, 0x63, 0x80);
    assert BigEndian(0x61, 0x62, 0x63, 0x80) == 0x61626380;
    WordIs(0, 0, 0, 0, 0, 0, 0, 0);
    assert BigEndian(0, 0, 0, 0) == 0;
    WordIs(0, 0, 0, 24, 0, 0, 0, 24);
    assert BigEndian(0, 0, 0, 24) == 0x18;
  }

  lemma OneBlock(s: State, block: Buffer)
    ensures Fold(HashContexts.Sha1Block, s, block) == Compress(s, block)
  {
    assert block[..64] == block && block[64..] == [];
  }

  /** The digest that RFC 3174 prints. */
  lemma DigestOfAbc()
    ensures Fold(HashContexts.Sha1Block, HashContexts.SHA1_INITIAL, HashContexts.PaddedBig(ABC)) == DIGEST
  {
    var block, s := HashContexts.PaddedBig(ABC), HashContexts.SHA1_INITIAL;
    AbcPadded(3);
    WordsOfAbc(block);
    RoundsOfExample(WordsOf(block), s, ROUNDS);
    OneBlock(s, block);
    assert AddStates(State(0x67452301, 0xefcdab89, 0x98badcfe, 0x10325476, 0xc3d2e1f0),
        State(0x42541b35, 0x5738d5e1, 0x21834873, 0x681e6df6, 0xd8fdf6ad)) == DIGEST;
  }

  lemma ByteSpelled(i: nat)
    requires i < 20
    ensures HashContexts.ByteOf(HashContexts.WordOf(DIGEST, i / 4), i % 4) == SPELLED[i]
  {
  }

  const SPELLED: seq<bv8> :=
    [0xa9, 0x99, 0x3e, 0x36, 0x47, 0x06, 0x81, 0x6a, 0xba, 0x3e,
     0x25, 0x71, 0x78, 0x50, 0xc2, 0x6c, 0x9c, 0xd0, 0xd8, 0x9d]

  /** From the pieces of the message to the bytes. */
  method HashAbc() returns (digest: seq<bv8>)
    ensures digest == SPELLED
  {
    var pieces: seq<seq<octet>> := [ABC];
    OnePiece(pieces, ABC);
    digest := HashContexts.Sha1InPieces(pieces);
    DigestOfAbc();
    SpelledOut(digest, Fold(HashContexts.Sha1Block, HashContexts.SHA1_INITIAL, HashContexts.PaddedBig(ABC)));
  }

  lemma OnePiece(pieces: seq<seq<octet>>, piece: seq<octet>)
    requires pieces == [piece]
    ensures Sequences.Concat(pieces) == piece
  {
    assert pieces[..|pieces| - 1] == [];
    assert [] + piece == piece;
  }

  lemma SpelledOut(digest: seq<bv8>, s: State)
    requires |digest| == 20 && s == DIGEST
    requires forall i :: 0 <= i < 20 ==> digest[i] == HashContexts.ByteOf(HashContexts.WordOf(s, i / 4), i % 4)
    ensures digest == SPELLED
  {
    forall i | 0 <= i < 20
      ensures digest[i] == SPELLED[i]
    {
      ByteSpelled(i);
    }
  }
}
