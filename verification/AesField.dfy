/**
  The arithmetic of AES (https/AES_Cipher.cpp) on single bytes: the finite field of
  section 4 of FIPS 197, the two substitution tables and the round constants.
 */
module AesField {

  /** Multiplication by x: a shift, and a reduction when a bit falls out. */
  function Xtime(x: bv8): bv8 {
    (x << 1) ^ (((x >> 7) & 1) * 0x1b)
  }

  /** The source's product: five bits of the second factor only. */
  function Multiply(x: bv8, y: bv8): bv8 {
    ((y & 1) * x)
    ^ (((y >> 1) & 1) * Xtime(x))
    ^ (((y >> 2) & 1) * Xtime(Xtime(x)))
    ^ (((y >> 3) & 1) * Xtime(Xtime(Xtime(x))))
    ^ (((y >> 4) & 1) * Xtime(Xtime(Xtime(Xtime(x)))))
  }

  /** Section 4.2 of FIPS 197: the product of two polynomials over GF(2) ... */
  function Product(x: bv16, y: bv16): bv16 {
    Term(x, y, 0x01) ^ Term(x << 1, y, 0x02) ^ Term(x << 2, y, 0x04) ^ Term(x << 3, y, 0x08)
    ^ Term(x << 4, y, 0x10) ^ Term(x << 5, y, 0x20) ^ Term(x << 6, y, 0x40) ^ Term(x << 7, y, 0x80)
  }

  function Term(x: bv16, y: bv16, bit: bv16): bv16 {
    if y & bit != 0 then x else 0
  }

  /** ... modulo x^8 + x^4 + x^3 + x + 1, cancelling its terms of degree 14 to 8. */
  function Residue(p: bv16): bv16 {
    Cancel(Cancel(Cancel(Cancel(Cancel(Cancel(Cancel(p,
      0x4000, 0x11b << 6), 0x2000, 0x11b << 5), 0x1000, 0x11b << 4), 0x0800, 0x11b << 3),
      0x0400, 0x11b << 2), 0x0200, 0x11b << 1), 0x0100, 0x11b)
  }

  function Cancel(p: bv16, term: bv16, multiple: bv16): bv16 {
    if p & term != 0 then p ^ multiple else p
  }

  function Times(x: bv8, y: bv8): bv8 {
    (Residue(Product(x as bv16, y as bv16)) & 0xff) as bv8
  }

  /** The source's products are the field's, for every factor it multiplies by. */
  lemma MultiplyIsTimes(x: bv8, y: bv8)
    requires y == 0x09 || y == 0x0b || y == 0x0d || y == 0x0e
    ensures Multiply(x, y) == Times(x, y)
  {
    if y == 0x09 {
    } else if y == 0x0b {
    } else if y == 0x0d {
    } else {
    }
  }

  lemma XtimeIsTimes(x: bv8)
    ensures Xtime(x) == Times(x, 0x02)
    ensures Add(Xtime(x), x) == Times(x, 0x03)
  {
  }

  /** Addition in the field, section 4.1 of FIPS 197. */
  function Add(x: bv8, y: bv8): bv8 {
    x ^ y
  }

  lemma AddTwice(x: bv8, y: bv8)
    ensures Add(x, Add(x, y)) == y
  {
  }

  lemma AddAssociates(x: bv8, y: bv8, z: bv8)
    ensures Add(Add(x, y), z) == Add(x, Add(y, z))
  {
  }

  lemma AddCommutes(x: bv8, y: bv8)
    ensures Add(x, y) == Add(y, x)
  {
  }

  lemma AddSwap(p: bv8, q: bv8, p': bv8, q': bv8)
    ensures Add(Add(p, q), Add(p', q')) == Add(Add(p, p'), Add(q, q'))
  {
    AddAssociates(p, q, Add(p', q'));
    AddAssociates(q, p', q');
    AddCommutes(q, p');
    AddAssociates(p', q, q');
    AddAssociates(p, p', Add(q, q'));
  }

  lemma XtimeAdds(x: bv8, y: bv8)
    ensures Xtime(Add(x, y)) == Add(Xtime(x), Xtime(y))
  {
  }

  /** The products by their terms, given x^1, x^2 and x^3 times `x`. */
  lemma MultiplyTerms(x: bv8, x1: bv8, x2: bv8, x3: bv8)
    requires x1 == Xtime(x) && x2 == Xtime(x1) && x3 == Xtime(x2)
    ensures Multiply(x, 0x0e) == Add(Add(x3, x2), x1)
    ensures Multiply(x, 0x0b) == Add(Add(x3, x1), x)
    ensures Multiply(x, 0x0d) == Add(Add(x3, x2), x)
    ensures Multiply(x, 0x09) == Add(x3, x)
  {
  }

  /** Multiplication distributes over addition. */
  lemma MultiplyAdds(x: bv8, y: bv8)
    ensures Multiply(Add(x, y), 0x0e) == Add(Multiply(x, 0x0e), Multiply(y, 0x0e))
    ensures Multiply(Add(x, y), 0x0b) == Add(Multiply(x, 0x0b), Multiply(y, 0x0b))
    ensures Multiply(Add(x, y), 0x0d) == Add(Multiply(x, 0x0d), Multiply(y, 0x0d))
    ensures Multiply(Add(x, y), 0x09) == Add(Multiply(x, 0x09), Multiply(y, 0x09))
  {
    var x1, y1 := Xtime(x), Xtime(y);
    var x2, y2 := Xtime(x1), Xtime(y1);
    var x3, y3 := Xtime(x2), Xtime(y2);
    XtimeAdds(x, y);
    XtimeAdds(x1, y1);
    XtimeAdds(x2, y2);
    MultiplyTerms(x, x1, x2, x3);
    MultiplyTerms(y, y1, y2, y3);
    MultiplyTerms(Add(x, y), Add(x1, y1), Add(x2, y2), Add(x3, y3));
    AddSwap(x3, y3, x, y);
    AddSwap(x3, y3, x2, y2);
    AddSwap(x3, y3, x1, y1);
    AddSwap(Add(x3, x2), Add(y3, y2), x1, y1);
    AddSwap(Add(x3, x1), Add(y3, y1), x, y);
    AddSwap(Add(x3, x2), Add(y3, y2), x, y);
  }

  // ----- the tables -----

  /** Entry `l` of a row of sixteen. */
  function Entry(row: bv128, l: bv8): bv8 {
    ((row >> ((15 - (l & 0xf)) << 3)) & 0xff) as bv8
  }

  /** scSbox. */
  function Sbox(x: bv8): bv8 {
    var h, l := x >> 4, x & 0xf;
    if h == 0 then Entry(0x63_7c_77_7b_f2_6b_6f_c5_30_01_67_2b_fe_d7_ab_76, l)
    else if h == 1 then Entry(0xca_82_c9_7d_fa_59_47_f0_ad_d4_a2_af_9c_a4_72_c0, l)
    else if h == 2 then Entry(0xb7_fd_93_26_36_3f_f7_cc_34_a5_e5_f1_71_d8_31_15, l)
    else if h == 3 then Entry(0x04_c7_23_c3_18_96_05_9a_07_12_80_e2_eb_27_b2_75, l)
    else if h == 4 then Entry(0x09_83_2c_1a_1b_6e_5a_a0_52_3b_d6_b3_29_e3_2f_84, l)
    else if h == 5 then Entry(0x53_d1_00_ed_20_fc_b1_5b_6a_cb_be_39_4a_4c_58_cf, l)
    else if h == 6 then Entry(0xd0_ef_aa_fb_43_4d_33_85_45_f9_02_7f_50_3c_9f_a8, l)
    else if h == 7 then Entry(0x51_a3_40_8f_92_9d_38_f5_bc_b6_da_21_10_ff_f3_d2, l)
    else if h == 8 then Entry(0xcd_0c_13_ec_5f_97_44_17_c4_a7_7e_3d_64_5d_19_73, l)
    else if h == 9 then Entry(0x60_81_4f_dc_22_2a_90_88_46_ee_b8_14_de_5e_0b_db, l)
    else if h == 10 then Entry(0xe0_32_3a_0a_49_06_24_5c_c2_d3_ac_62_91_95_e4_79, l)
    else if h == 11 then Entry(0xe7_c8_37_6d_8d_d5_4e_a9_6c_56_f4_ea_65_7a_ae_08, l)
    else if h == 12 then Entry(0xba_78_25_2e_1c_a6_b4_c6_e8_dd_74_1f_4b_bd_8b_8a, l)
    else if h == 13 then Entry(0x70_3e_b5_66_48_03_f6_0e_61_35_57_b9_86_c1_1d_9e, l)
    else if h == 14 then Entry(0xe1_f8_98_11_69_d9_8e_94_9b_1e_87_e9_ce_55_28_df, l)
    else Entry(0x8c_a1_89_0d_bf_e6_42_68_41_99_2d_0f_b0_54_bb_16, l)
  }

  /** scRsbox. */
  function Rsbox(x: bv8): bv8 {
    var h, l := x >> 4, x & 0xf;
    if h == 0 then Entry(0x52_09_6a_d5_30_36_a5_38_bf_40_a3_9e_81_f3_d7_fb, l)
    else if h == 1 then Entry(0x7c_e3_39_82_9b_2f_ff_87_34_8e_43_44_c4_de_e9_cb, l)
    else if h == 2 then Entry(0x54_7b_94_32_a6_c2_23_3d_ee_4c_95_0b_42_fa_c3_4e, l)
    else if h == 3 then Entry(0x08_2e_a1_66_28_d9_24_b2_76_5b_a2_49_6d_8b_d1_25, l)
    else if h == 4 then Entry(0x72_f8_f6_64_86_68_98_16_d4_a4_5c_cc_5d_65_b6_92, l)
    else if h == 5 then Entry(0x6c_70_48_50_fd_ed_b9_da_5e_15_46_57_a7_8d_9d_84, l)
    else if h == 6 then Entry(0x90_d8_ab_00_8c_bc_d3_0a_f7_e4_58_05_b8_b3_45_06, l)
    else if h == 7 then Entry(0xd0_2c_1e_8f_ca_3f_0f_02_c1_af_bd_03_01_13_8a_6b, l)
    else if h == 8 then Entry(0x3a_91_11_41_4f_67_dc_ea_97_f2_cf_ce_f0_b4_e6_73, l)
    else if h == 9 then Entry(0x96_ac_74_22_e7_ad_35_85_e2_f9_37_e8_1c_75_df_6e, l)
    else if h == 10 then Entry(0x47_f1_1a_71_1d_29_c5_89_6f_b7_62_0e_aa_18_be_1b, l)
    else if h == 11 then Entry(0xfc_56_3e_4b_c6_d2_79_20_9a_db_c0_fe_78_cd_5a_f4, l)
    else if h == 12 then Entry(0x1f_dd_a8_33_88_07_c7_31_b1_12_10_59_27_80_ec_5f, l)
    else if h == 13 then Entry(0x60_51_7f_a9_19_b5_4a_0d_2d_e5_7a_9f_93_c9_9c_ef, l)
    else if h == 14 then Entry(0xa0_e0_3b_4d_ae_2a_f5_b0_c8_eb_bb_3c_83_53_99_61, l)
    else Entry(0x17_2b_04_7e_ba_77_d6_26_e1_69_14_63_55_21_0c_7d, l)
  }

  /** The tables undo each other. */
  lemma RsboxSbox(x: bv8)
    ensures Rsbox(Sbox(x)) == x
  {
  }

  lemma SboxRsbox(x: bv8)
    ensures Sbox(Rsbox(x)) == x
  {
  }

  /** The affine map of section 5.1.1 of FIPS 197, and its inverse. */
  function Affine(x: bv8): bv8 {
    x ^ ((x << 1) | (x >> 7)) ^ ((x << 2) | (x >> 6)) ^ ((x << 3) | (x >> 5)) ^ ((x << 4) | (x >> 4)) ^ 0x63
  }

  function AffineInverse(x: bv8): bv8 {
    ((x << 1) | (x >> 7)) ^ ((x << 3) | (x >> 5)) ^ ((x << 6) | (x >> 2)) ^ 0x05
  }

  lemma AffineUndone(x: bv8)
    ensures Affine(AffineInverse(x)) == x
  {
  }

  /** `Sbox(x)` is the affine map of some `i`: the inverse of `x` in the field, or zero for zero. */
  predicate ConstructedSbox(x: bv8) {
    var i := AffineInverse(Sbox(x));
    if x == 0 then i == 0 else Times(x, i) == 1
  }

  lemma SboxIsInverse0(x: bv8)
    requires x >> 6 == 0
    ensures ConstructedSbox(x)
  {
  }

  lemma SboxIsInverse1(x: bv8)
    requires x >> 6 == 1
    ensures ConstructedSbox(x)
  {
  }

  lemma SboxIsInverse2(x: bv8)
    requires x >> 6 == 2
    ensures ConstructedSbox(x)
  {
  }

  lemma SboxIsInverse3(x: bv8)
    requires x >> 6 == 3
    ensures ConstructedSbox(x)
  {
  }

  /** The table of the source is the one FIPS 197 constructs. */
  lemma SboxIsInverse(x: bv8)
    ensures exists i :: Sbox(x) == Affine(i) && if x == 0 then i == 0 else Times(x, i) == 1
  {
    if x >> 6 == 0 {
      SboxIsInverse0(x);
    } else if x >> 6 == 1 {
      SboxIsInverse1(x);
    } else if x >> 6 == 2 {
      SboxIsInverse2(x);
    } else {
      SboxIsInverse3(x);
    }
    AffineUndone(Sbox(x));
  }

  /** The entries of scRcon that a 128-bit key uses. */
  function Rcon(i: nat): bv8 {
    if i == 1 then 0x01 else if i == 2 then 0x02 else if i == 3 then 0x04 else if i == 4 then 0x08
    else if i == 5 then 0x10 else if i == 6 then 0x20 else if i == 7 then 0x40 else if i == 8 then 0x80
    else if i == 9 then 0x1b else if i == 10 then 0x36 else 0x8d
  }

  /** x to the power `n`, in the field. */
  function PowerOfX(n: nat): bv8 {
    if n == 0 then 1 else Times(PowerOfX(n - 1), 0x02)
  }

  lemma RconNext(i: nat)
    requires 1 <= i < 10
    ensures Rcon(i + 1) == Xtime(Rcon(i))
  {
  }

  /** The round constants are the powers of x. */
  lemma {:induction false} RconPowers(i: nat)
    requires 1 <= i <= 10
    ensures Rcon(i) == PowerOfX(i - 1)
  {
    if i > 1 {
      RconPowers(i - 1);
      RconNext(i - 1);
      XtimeIsTimes(Rcon(i - 1));
    }
  }
}
