/** Octets, their bitwise exclusive or, and the big-endian integers they spell. */
module Octets {

  type octet = x: int | 0 <= x < 256
  type nibble = x: int | 0 <= x < 16
  type quad = k: seq<octet> | |k| == 4 witness [0, 0, 0, 0]

  /** The key octet for payload position `i`. */
  function KeyOctet(key: quad, i: nat): octet { key[i % 4] }

  function Pow(base: nat, k: nat): nat {
    if k == 0 then 1 else base * Pow(base, k - 1)
  }

  /** The bitwise exclusive or of two octets. */
  function Xor(a: octet, b: octet): octet {
    ((a as bv8) ^ (b as bv8)) as octet
  }

  lemma BitsAsOctet(x: bv8)
    ensures (x as octet) as bv8 == x
  {
  }

  lemma NextBits(x: bv8)
    requires x != 255
    ensures (x + 1) as octet == (x as octet) + 1
  {
  }

  lemma {:induction false} BitsOf(a: octet) returns (x: bv8)
    ensures x as octet == a
  {
    x := 0;
    if a > 0 {
      x := BitsOf(a - 1);
      NextBits(x);
      x := x + 1;
    }
  }

  lemma OctetAsBits(a: octet)
    ensures (a as bv8) as octet == a
  {
    var x := BitsOf(a);
    BitsAsOctet(x);
  }

  lemma BitsTwice(x: bv8, y: bv8)
    ensures (x ^ y) ^ y == x && (x ^ y) ^ x == y
  {
  }

  /** Masking twice with the same key octet gives the octet back. */
  lemma XorTwice(a: octet, k: octet)
    ensures Xor(Xor(a, k), k) == a
  {
    BitsAsOctet((a as bv8) ^ (k as bv8));
    BitsTwice(a as bv8, k as bv8);
    OctetAsBits(a);
  }

  /** Two key octets that act alike on one octet are the same. */
  lemma XorInjective(a: octet, k: octet, l: octet)
    ensures Xor(a, k) == Xor(a, l) <==> k == l
  {
    if Xor(a, k) == Xor(a, l) {
      BitsAsOctet((a as bv8) ^ (k as bv8));
      BitsAsOctet((a as bv8) ^ (l as bv8));
      BitsTwice(a as bv8, k as bv8);
      BitsTwice(a as bv8, l as bv8);
      OctetAsBits(k);
      OctetAsBits(l);
    }
  }

  /** The value of `s` read as one big-endian integer. */
  function Big(s: seq<octet>): nat {
    if s == [] then 0 else 256 * Big(s[..|s| - 1]) + s[|s| - 1]
  }

  /** The octet at position `i` counts 256 to the number of octets behind it. */
  lemma {:induction false} BigPlaces(s: seq<octet>, i: nat)
    requires i < |s|
    ensures Big(s) == Big(s[i := 0]) + s[i] * Pow(256, |s| - 1 - i)
  {
    var front, last := s[..|s| - 1], |s| - 1;
    var t := s[i := 0];
    if i == last {
      assert t[..last] == front;
    } else {
      BigPlaces(front, i);
      assert t[..last] == front[i := 0];
      Shifted(front[i], Pow(256, last - 1 - i));
    }
  }

  lemma Shifted(a: nat, p: nat)
    ensures 256 * (a * p) == a * (256 * p)
  {
  }

  /** The low `k` octets of `n`, most significant first. */
  function BigOctets(n: nat, k: nat): (s: seq<octet>)
    ensures |s| == k
  {
    if k == 0 then [] else BigOctets(n / 256, k - 1) + [n % 256]
  }

  lemma {:induction false} BigRoundTrip(n: nat, k: nat)
    requires n < Pow(256, k)
    ensures Big(BigOctets(n, k)) == n
  {
    if k > 0 {
      assert n / 256 < Pow(256, k - 1);
      BigRoundTrip(n / 256, k - 1);
      var s := BigOctets(n, k);
      assert s[..|s| - 1] == BigOctets(n / 256, k - 1);
    }
  }
}
