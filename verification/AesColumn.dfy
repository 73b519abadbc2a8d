/** The columns of the AES state, section 4.3 of FIPS 197, and how they are mixed. */
module AesColumn {
  import opened AesField

  /** Four bytes: a column of the state, or a word of the key schedule. */
  datatype Word = Word(b0: bv8, b1: bv8, b2: bv8, b3: bv8)

  function AddWord(u: Word, v: Word): Word {
    Word(Add(u.b0, v.b0), Add(u.b1, v.b1), Add(u.b2, v.b2), Add(u.b3, v.b3))
  }

  function MapWord(f: bv8 -> bv8, w: Word): Word {
    Word(f(w.b0), f(w.b1), f(w.b2), f(w.b3))
  }

  function RotWord(w: Word): Word {
    Word(w.b1, w.b2, w.b3, w.b0)
  }

  /** A row of the matrix of section 5.1.3 of FIPS 197: 02 03 01 01. */
  function Mixed(a: bv8, b: bv8, c: bv8, d: bv8): bv8 {
    Add(Add(Xtime(a), Add(Xtime(b), b)), Add(c, d))
  }

  function MixColumn(w: Word): Word {
    Word(Mixed(w.b0, w.b1, w.b2, w.b3), Mixed(w.b1, w.b2, w.b3, w.b0),
         Mixed(w.b2, w.b3, w.b0, w.b1), Mixed(w.b3, w.b0, w.b1, w.b2))
  }

  /** A row of the matrix of section 5.3.3: 0e 0b 0d 09. */
  function Unmixed(a: bv8, b: bv8, c: bv8, d: bv8): bv8 {
    Add(Add(Multiply(a, 0x0e), Multiply(b, 0x0b)), Add(Multiply(c, 0x0d), Multiply(d, 0x09)))
  }

  function InvMixColumn(w: Word): Word {
    Word(Unmixed(w.b0, w.b1, w.b2, w.b3), Unmixed(w.b1, w.b2, w.b3, w.b0),
         Unmixed(w.b2, w.b3, w.b0, w.b1), Unmixed(w.b3, w.b0, w.b1, w.b2))
  }

  /** A sum of sums of pairs, regrouped. */
  lemma Regroup(a: bv8, a': bv8, b: bv8, b': bv8, c: bv8, c': bv8, d: bv8, d': bv8)
    ensures Add(Add(Add(a, a'), Add(b, b')), Add(Add(c, c'), Add(d, d')))
         == Add(Add(Add(a, b), Add(c, d)), Add(Add(a', b'), Add(c', d')))
  {
    AddSwap(a, a', b, b');
    AddSwap(c, c', d, d');
    AddSwap(Add(a, b), Add(a', b'), Add(c, d), Add(c', d'));
  }

  lemma MixedAdds(a: bv8, a': bv8, b: bv8, b': bv8, c: bv8, c': bv8, d: bv8, d': bv8)
    ensures Mixed(Add(a, a'), Add(b, b'), Add(c, c'), Add(d, d')) == Add(Mixed(a, b, c, d), Mixed(a', b', c', d'))
  {
    XtimeAdds(a, a');
    XtimeAdds(b, b');
    AddSwap(Xtime(b), Xtime(b'), b, b');
    Regroup(Xtime(a), Xtime(a'), Add(Xtime(b), b), Add(Xtime(b'), b'), c, c', d, d');
  }

  lemma UnmixedAdds(a: bv8, a': bv8, b: bv8, b': bv8, c: bv8, c': bv8, d: bv8, d': bv8)
    ensures Unmixed(Add(a, a'), Add(b, b'), Add(c, c'), Add(d, d'))
         == Add(Unmixed(a, b, c, d), Unmixed(a', b', c', d'))
  {
    MultiplyAdds(a, a');
    MultiplyAdds(b, b');
    MultiplyAdds(c, c');
    MultiplyAdds(d, d');
    Regroup(Multiply(a, 0x0e), Multiply(a', 0x0e), Multiply(b, 0x0b), Multiply(b', 0x0b),
            Multiply(c, 0x0d), Multiply(c', 0x0d), Multiply(d, 0x09), Multiply(d', 0x09));
  }

  lemma MixColumnAdds(u: Word, v: Word)
    ensures MixColumn(AddWord(u, v)) == AddWord(MixColumn(u), MixColumn(v))
  {
    MixedAdds(u.b0, v.b0, u.b1, v.b1, u.b2, v.b2, u.b3, v.b3);
    MixedAdds(u.b1, v.b1, u.b2, v.b2, u.b3, v.b3, u.b0, v.b0);
    MixedAdds(u.b2, v.b2, u.b3, v.b3, u.b0, v.b0, u.b1, v.b1);
    MixedAdds(u.b3, v.b3, u.b0, v.b0, u.b1, v.b1, u.b2, v.b2);
  }

  lemma InvMixColumnAdds(u: Word, v: Word)
    ensures InvMixColumn(AddWord(u, v)) == AddWord(InvMixColumn(u), InvMixColumn(v))
  {
    UnmixedAdds(u.b0, v.b0, u.b1, v.b1, u.b2, v.b2, u.b3, v.b3);
    UnmixedAdds(u.b1, v.b1, u.b2, v.b2, u.b3, v.b3, u.b0, v.b0);
    UnmixedAdds(u.b2, v.b2, u.b3, v.b3, u.b0, v.b0, u.b1, v.b1);
    UnmixedAdds(u.b3, v.b3, u.b0, v.b0, u.b1, v.b1, u.b2, v.b2);
  }

  predicate ColumnInverts(w: Word) {
    && InvMixColumn(MixColumn(w)) == w
    && MixColumn(InvMixColumn(w)) == w
  }

  /** The products of the two matrices, entry by entry: the identity. */
  lemma UnitUnmixes(x: bv8)
    ensures Unmixed(Xtime(x), x, x, Add(Xtime(x), x)) == x
    ensures Unmixed(x, x, Add(Xtime(x), x), Xtime(x)) == 0
    ensures Unmixed(x, Add(Xtime(x), x), Xtime(x), x) == 0
    ensures Unmixed(Add(Xtime(x), x), Xtime(x), x, x) == 0
  {
  }

  lemma UnitMixes(x: bv8)
    ensures var e, b, d, n := Multiply(x, 0x0e), Multiply(x, 0x0b), Multiply(x, 0x0d), Multiply(x, 0x09);
            && Mixed(e, n, d, b) == x
            && Mixed(n, d, b, e) == 0
            && Mixed(d, b, e, n) == 0
            && Mixed(b, e, n, d) == 0
  {
  }

  lemma Zeros(x: bv8)
    ensures Xtime(0) == 0
    ensures Add(x, 0) == x && Add(0, x) == x
    ensures Multiply(0, 0x0e) == 0 && Multiply(0, 0x0b) == 0 && Multiply(0, 0x0d) == 0 && Multiply(0, 0x09) == 0
  {
  }

  lemma UnitColumn(x: bv8)
    ensures MixColumn(Word(x, 0, 0, 0)) == Word(Xtime(x), x, x, Add(Xtime(x), x))
    ensures InvMixColumn(Word(x, 0, 0, 0))
         == Word(Multiply(x, 0x0e), Multiply(x, 0x09), Multiply(x, 0x0d), Multiply(x, 0x0b))
  {
    Zeros(0);
    Zeros(x);
    Zeros(Xtime(x));
    Zeros(Add(Xtime(x), x));
    Zeros(Multiply(x, 0x0e));
    Zeros(Multiply(x, 0x0b));
    Zeros(Multiply(x, 0x0d));
    Zeros(Multiply(x, 0x09));
  }

  lemma UnitInverts(x: bv8)
    ensures ColumnInverts(Word(x, 0, 0, 0))
  {
    UnitColumn(x);
    UnitUnmixes(x);
    UnitMixes(x);
  }

  /** Both maps commute with a rotation of the column ... */
  lemma RotationInverts(w: Word)
    requires ColumnInverts(RotWord(w))
    ensures ColumnInverts(w)
  {
    assert MixColumn(RotWord(w)) == RotWord(MixColumn(w));
    assert InvMixColumn(RotWord(w)) == RotWord(InvMixColumn(w));
    assert InvMixColumn(RotWord(MixColumn(w))) == RotWord(InvMixColumn(MixColumn(w)));
    assert MixColumn(RotWord(InvMixColumn(w))) == RotWord(MixColumn(InvMixColumn(w)));
  }

  /** ... and with sums ... */
  lemma SumInverts(u: Word, v: Word)
    requires ColumnInverts(u) && ColumnInverts(v)
    ensures ColumnInverts(AddWord(u, v))
  {
    MixColumnAdds(u, v);
    InvMixColumnAdds(MixColumn(u), MixColumn(v));
    InvMixColumnAdds(u, v);
    MixColumnAdds(InvMixColumn(u), InvMixColumn(v));
  }

  lemma SumOfUnits(w: Word)
    ensures w == AddWord(AddWord(Word(w.b0, 0, 0, 0), Word(0, w.b1, 0, 0)),
                         AddWord(Word(0, 0, w.b2, 0), Word(0, 0, 0, w.b3)))
  {
  }

  /** ... so that they are inverse on every column. */
  lemma MixColumnInverts(w: Word)
    ensures ColumnInverts(w)
  {
    UnitInverts(w.b0);
    UnitInverts(w.b1);
    RotationInverts(Word(0, w.b1, 0, 0));
    UnitInverts(w.b2);
    RotationInverts(Word(0, w.b2, 0, 0));
    RotationInverts(Word(0, 0, w.b2, 0));
    UnitInverts(w.b3);
    RotationInverts(Word(0, w.b3, 0, 0));
    RotationInverts(Word(0, 0, w.b3, 0));
    RotationInverts(Word(0, 0, 0, w.b3));
    SumInverts(Word(w.b0, 0, 0, 0), Word(0, w.b1, 0, 0));
    SumInverts(Word(0, 0, w.b2, 0), Word(0, 0, 0, w.b3));
    SumInverts(AddWord(Word(w.b0, 0, 0, 0), Word(0, w.b1, 0, 0)), AddWord(Word(0, 0, w.b2, 0), Word(0, 0, 0, w.b3)));
    SumOfUnits(w);
  }

  lemma AddWordTwice(u: Word, v: Word)
    ensures AddWord(AddWord(u, v), v) == u
  {
  }
}
