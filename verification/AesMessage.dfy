/**
  Messages as https/AES_Cipher.cpp sends them: padded to a whole number of blocks, each
  block enciphered by itself.
 */
module AesMessage {
  import opened Options
  import opened AesColumn
  import opened AesBlock

  const BLOCK := 16

  /** How many bytes are appended: at least one, at most a block. */
  function PadSize(n: nat): (size: nat)
    ensures 1 <= size <= BLOCK && (n + size) % BLOCK == 0
  {
    BLOCK - n % BLOCK
  }

  function Padded(plain: seq<bv8>): (padded: seq<bv8>)
    ensures |padded| == |plain| + PadSize(|plain|) && |padded| % BLOCK == 0
  {
    plain + seq(PadSize(|plain|), _ => PadSize(|plain|) as bv8)
  }

  /** Every byte appended is the number of bytes appended. */
  lemma PaddingTells(plain: seq<bv8>, k: nat)
    requires |plain| <= k < |Padded(plain)|
    ensures Padded(plain)[..|plain|] == plain && Padded(plain)[k] as int == |Padded(plain)| - |plain|
  {
    var size := PadSize(|plain|);
    assert (size as bv8) as int == size;
  }

  /** The length the receiver takes off, read from the last byte; nothing else of the padding is looked at. */
  function Unpadded(padded: seq<bv8>): (plain: Option<seq<bv8>>)
    requires padded != []
  {
    var last := padded[|padded| - 1] as int;
    if 1 <= last <= |padded| then Some(padded[..|padded| - last]) else None
  }

  lemma UnpaddedPadded(plain: seq<bv8>)
    ensures Unpadded(Padded(plain)) == Some(plain)
  {
    var size := PadSize(|plain|);
    assert Padded(plain)[|plain| + size - 1] == size as bv8;
    assert (size as bv8) as int == size;
    assert Padded(plain)[..|plain|] == plain;
  }

  /** Block `i` of a message, by columns. */
  function BlockAt(s: seq<bv8>, i: nat): Block
    requires 16 * i + 16 <= |s|
  {
    Block(Word(s[16 * i], s[16 * i + 1], s[16 * i + 2], s[16 * i + 3]),
          Word(s[16 * i + 4], s[16 * i + 5], s[16 * i + 6], s[16 * i + 7]),
          Word(s[16 * i + 8], s[16 * i + 9], s[16 * i + 10], s[16 * i + 11]),
          Word(s[16 * i + 12], s[16 * i + 13], s[16 * i + 14], s[16 * i + 15]))
  }

  /** Block by block, `f` takes `a` to `b`. */
  ghost predicate Blockwise(f: Block -> Block, a: seq<bv8>, b: seq<bv8>) {
    && |a| == |b| && |a| % BLOCK == 0
    && forall i :: 0 <= i < |a| / BLOCK ==> BlockAt(b, i) == f(BlockAt(a, i))
  }

  lemma ByteOfWord(a: seq<bv8>, b: seq<bv8>, j: nat, k: nat)
    requires j + 4 <= |a| && j + 4 <= |b| && k < 4
    requires Word(a[j], a[j + 1], a[j + 2], a[j + 3]) == Word(b[j], b[j + 1], b[j + 2], b[j + 3])
    ensures a[j + k] == b[j + k]
  {
    if k == 0 {
    } else if k == 1 {
    } else if k == 2 {
    } else {
    }
  }

  /** The bytes of a block, by their index. */
  lemma ByteOfBlock(a: seq<bv8>, b: seq<bv8>, i: nat, k: nat)
    requires 16 * i + 16 <= |a| && 16 * i + 16 <= |b| && k < 16
    requires BlockAt(a, i) == BlockAt(b, i)
    ensures a[16 * i + k] == b[16 * i + k]
  {
    if k < 4 {
      ByteOfWord(a, b, 16 * i, k);
    } else if k < 8 {
      ByteOfWord(a, b, 16 * i + 4, k - 4);
    } else if k < 12 {
      ByteOfWord(a, b, 16 * i + 8, k - 8);
    } else {
      ByteOfWord(a, b, 16 * i + 12, k - 12);
    }
  }

  lemma BlocksKept(a: seq<bv8>, b: seq<bv8>, n: nat)
    requires 16 * n <= |a| && 16 * n <= |b|
    requires forall k :: 0 <= k < 16 * n ==> a[k] == b[k]
    ensures forall i :: 0 <= i < n ==> BlockAt(a, i) == BlockAt(b, i)
  {
  }

  lemma SameBlocks(a: seq<bv8>, b: seq<bv8>)
    requires |a| == |b| && |a| % BLOCK == 0
    requires forall i :: 0 <= i < |a| / BLOCK ==> BlockAt(a, i) == BlockAt(b, i)
    ensures a == b
  {
    forall j | 0 <= j < |a|
      ensures a[j] == b[j]
    {
      ByteOfBlock(a, b, j / 16, j % 16);
    }
  }

  function Enciphering(t: Layers, key: Key): Block -> Block {
    b => Encipher(t, KeySchedule(t, key), b)
  }

  function Deciphering(t: Layers, key: Key): Block -> Block {
    b => Decipher(t, KeySchedule(t, key), b)
  }

  lemma BlockwiseInverts(f: Block -> Block, g: Block -> Block, a: seq<bv8>, b: seq<bv8>, c: seq<bv8>)
    requires forall x: Block :: g(f(x)) == x
    requires Blockwise(f, a, b) && Blockwise(g, b, c)
    ensures a == c
  {
    SameBlocks(a, c);
  }

  lemma DecipheringInverts(key: Key)
    ensures forall b: Block :: Deciphering(LAYERS, key)(Enciphering(LAYERS, key)(b)) == b
  {
    forall b: Block
      ensures Deciphering(LAYERS, key)(Enciphering(LAYERS, key)(b)) == b
    {
      DecipherInverts(KeySchedule(LAYERS, key), b);
    }
  }

  /** For every key and message: what is deciphered, with its padding taken off, is what was enciphered. */
  lemma RoundTrip(key: Key, plain: seq<bv8>, cipher: seq<bv8>, deciphered: seq<bv8>)
    requires Blockwise(Enciphering(LAYERS, key), Padded(plain), cipher)
    requires Blockwise(Deciphering(LAYERS, key), cipher, deciphered)
    ensures deciphered == Padded(plain) && Unpadded(deciphered) == Some(plain)
  {
    DecipheringInverts(key);
    BlockwiseInverts(Enciphering(LAYERS, key), Deciphering(LAYERS, key), Padded(plain), cipher, deciphered);
    UnpaddedPadded(plain);
  }
}
