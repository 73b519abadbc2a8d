/**
  What SHA-1 and MD5 share: a message arrives in pieces and is folded, 64 octets at a
  time, by a compression function; a 64-bit count of bits is kept in two 32-bit words.
 */
module BlockStream {
  import opened Octets
  import opened Sequences

  /** The whole blocks of `data`, in order; an incomplete one at the end is not yet folded in. */
  function Fold<S>(f: (S, seq<octet>) -> S, s: S, data: seq<octet>): S {
    if |data| < 64 then s else Fold(f, f(s, data[..64]), data[64..])
  }

  /** That incomplete block. */
  function Tail(data: seq<octet>): (tail: seq<octet>)
    ensures |tail| == |data| % 64
  {
    data[|data| - |data| % 64..]
  }

  lemma {:induction false} FoldAppend<S>(f: (S, seq<octet>) -> S, s: S, a: seq<octet>, b: seq<octet>)
    requires |a| % 64 == 0
    ensures Fold(f, s, a + b) == Fold(f, Fold(f, s, a), b)
    decreases |a|
  {
    if a == [] {
      assert a + b == b;
    } else {
      assert (a + b)[..64] == a[..64];
      assert (a + b)[64..] == a[64..] + b;
      FoldAppend(f, f(s, a[..64]), a[64..], b);
    }
  }

  lemma {:induction false} FoldBlock<S>(f: (S, seq<octet>) -> S, s: S, a: seq<octet>, block: seq<octet>)
    requires |a| % 64 == 0 && |block| == 64
    ensures Fold(f, s, a + block) == f(Fold(f, s, a), block)
  {
    FoldAppend(f, s, a, block);
    assert block[..64] == block && block[64..] == [];
  }

  lemma Remainder(whole: nat, rest: nat)
    requires whole % 64 == 0 && rest < 64
    ensures (whole + rest) % 64 == rest
  {
  }

  lemma TailOf(a: seq<octet>, rest: seq<octet>)
    requires |a + rest| % 64 == |rest|
    ensures Tail(a + rest) == rest
  {
    assert (a + rest)[|a|..] == rest;
  }

  lemma {:induction false} FoldRest<S>(f: (S, seq<octet>) -> S, s: S, a: seq<octet>, rest: seq<octet>)
    requires |a| % 64 == 0 && |rest| < 64
    ensures Fold(f, s, a + rest) == Fold(f, s, a) && Tail(a + rest) == rest
  {
    FoldAppend(f, s, a, rest);
    Remainder(|a|, |rest|);
    TailOf(a, rest);
  }

  /** The block that completes what was left over. */
  lemma {:induction false} FoldFilled<S>(f: (S, seq<octet>) -> S, s: S, seen: seq<octet>, more: seq<octet>)
    requires |more| == 64 - |seen| % 64
    ensures Fold(f, s, seen + more) == f(Fold(f, s, seen), Tail(seen) + more)
    ensures |seen + more| % 64 == 0
  {
    var whole := seen[..|seen| - |seen| % 64];
    assert seen == whole + Tail(seen);
    FoldRest(f, s, whole, Tail(seen));
    Assoc(whole, Tail(seen), more);
    FoldBlock(f, s, whole, Tail(seen) + more);
  }

  /** Too little to complete a block. */
  lemma {:induction false} FoldShort<S>(f: (S, seq<octet>) -> S, s: S, seen: seq<octet>, more: seq<octet>)
    requires |seen| % 64 + |more| < 64
    ensures Fold(f, s, seen + more) == Fold(f, s, seen) && Tail(seen + more) == Tail(seen) + more
  {
    var whole := seen[..|seen| - |seen| % 64];
    assert seen == whole + Tail(seen);
    FoldRest(f, s, whole, Tail(seen));
    Assoc(whole, Tail(seen), more);
    FoldRest(f, s, whole, Tail(seen) + more);
  }

  /** A block taken straight from the input. */
  lemma {:induction false} FoldNext<S>(f: (S, seq<octet>) -> S, s: S, seen: seq<octet>, data: seq<octet>, i: nat)
    requires i + 64 <= |data| && |seen + data[..i]| % 64 == 0
    ensures Fold(f, s, seen + data[..i + 64]) == f(Fold(f, s, seen + data[..i]), data[i..i + 64])
    ensures |seen + data[..i + 64]| % 64 == 0
  {
    assert data[..i + 64] == data[..i] + data[i..i + 64];
    Assoc(seen, data[..i], data[i..i + 64]);
    FoldBlock(f, s, seen + data[..i], data[i..i + 64]);
  }

  /** And what is left of it. */
  lemma {:induction false} FoldLast<S>(f: (S, seq<octet>) -> S, s: S, seen: seq<octet>, data: seq<octet>, i: nat)
    requires i <= |data| < i + 64 && |seen + data[..i]| % 64 == 0
    ensures Fold(f, s, seen + data) == Fold(f, s, seen + data[..i]) && Tail(seen + data) == data[i..]
  {
    assert data == data[..i] + data[i..];
    Assoc(seen, data[..i], data[i..]);
    FoldRest(f, s, seen + data[..i], data[i..]);
  }

  // ----- the count -----

  function Low(n: nat): nat {
    8 * n % 0x1_0000_0000
  }

  function High(n: nat): nat {
    8 * n / 0x1_0000_0000 % 0x1_0000_0000
  }

  lemma ByWord(a: int, q: int, r: int)
    requires a == q * 0x1_0000_0000 + r && 0 <= r < 0x1_0000_0000
    ensures a / 0x1_0000_0000 == q && a % 0x1_0000_0000 == r
  {
  }

  lemma ByTwoWords(a: int, q: int, r: int)
    requires a == q * 0x1_0000_0000_0000_0000 + r && 0 <= r < 0x1_0000_0000_0000_0000
    ensures a % 0x1_0000_0000_0000_0000 == r
  {
  }

  /** The two words are the count of bits modulo 2^64. */
  lemma CountModulo(n: nat)
    ensures Low(n) + 0x1_0000_0000 * High(n) == 8 * n % 0x1_0000_0000_0000_0000
  {
    var q := 8 * n / 0x1_0000_0000;
    ByTwoWords(8 * n, q / 0x1_0000_0000, Low(n) + 0x1_0000_0000 * High(n));
  }

  /** The sum of two low words, and whether it carries. */
  lemma Carry(c: nat, a: nat)
    requires c < 0x1_0000_0000 && a < 0x1_0000_0000
    ensures (c + a) % 0x1_0000_0000 < c <==> c + a >= 0x1_0000_0000
    ensures (c + a) % 0x1_0000_0000 < a <==> c + a >= 0x1_0000_0000
    ensures c + a == (c + a) % 0x1_0000_0000 + (if c + a >= 0x1_0000_0000 then 0x1_0000_0000 else 0)
  {
  }

  lemma HighAdds(q: nat, carry: nat, h: nat)
    ensures (q + h + carry) % 0x1_0000_0000 == ((q % 0x1_0000_0000 + carry) % 0x1_0000_0000 + h) % 0x1_0000_0000
  {
  }

  lemma BitsOf(len: nat)
    ensures 8 * len == len / 0x2000_0000 * 0x1_0000_0000 + 8 * len % 0x1_0000_0000
  {
  }

  /** The source's arithmetic on the two words, carries included, counts bits modulo 2^64. */
  lemma CountAdds(n: nat, len: nat, c: nat, a: nat, carry: nat)
    requires c == Low(n) && a == 8 * len % 0x1_0000_0000
    requires carry == if c + a >= 0x1_0000_0000 then 1 else 0
    ensures Low(n + len) == (c + a) % 0x1_0000_0000
    ensures High(n + len) == ((High(n) + carry) % 0x1_0000_0000 + len / 0x2000_0000) % 0x1_0000_0000
  {
    var q, h := 8 * n / 0x1_0000_0000, len / 0x2000_0000;
    BitsOf(len);
    Carry(c, a);
    ByWord(8 * (n + len), q + h + carry, (c + a) % 0x1_0000_0000);
    HighAdds(q, carry, h);
  }

  /** The same, with the carry read off either summand. */
  lemma Added(n: nat, len: nat, c0: nat, c1: nat, bits: nat, sum: nat)
    requires c0 == Low(n) && c1 == High(n) && bits == 8 * len % 0x1_0000_0000
    requires sum == (c0 + bits) % 0x1_0000_0000
    ensures Low(n + len) == sum
    ensures High(n + len)
         == ((if sum < c0 then (c1 + 1) % 0x1_0000_0000 else c1) + len / 0x2000_0000) % 0x1_0000_0000
    ensures sum < c0 <==> sum < bits
  {
    Carry(c0, bits);
    CountAdds(n, len, c0, bits, if c0 + bits >= 0x1_0000_0000 then 1 else 0);
  }

  lemma LowOctets(n: nat)
    ensures Low(n) / 8 == n % 0x2000_0000
  {
  }

  lemma LowIndex(n: nat)
    ensures n % 0x2000_0000 % 64 == n % 64
  {
  }

  /** Where in its block the next octet goes. */
  lemma IndexOf(n: nat)
    ensures Low(n) / 8 % 64 == n % 64
  {
    LowOctets(n);
    LowIndex(n);
  }
}
