/** libwebsocket/private/base64.cc, against section 4 of RFC 4648. */
module Base64 {
  import opened Octets
  import opened Sequences

  type sextet = x: int | 0 <= x < 64

  /** base64_chars[v], the alphabet of RFC 4648. */
  function Char(v: sextet): char {
    if v < 26 then ('A' as int + v) as char
    else if v < 52 then ('a' as int + v - 26) as char
    else if v < 62 then ('0' as int + v - 52) as char
    else if v == 62 then '+' else '/'
  }

  /** Table 1 of RFC 4648: capital letters, small letters, digits, plus and slash, each in order. */
  lemma AlphabetListed(v: sextet)
    ensures Char(0) == 'A' && Char(25) == 'Z' && Char(26) == 'a' && Char(51) == 'z'
    ensures Char(52) == '0' && Char(61) == '9' && Char(62) == '+' && Char(63) == '/'
    ensures v < 61 && v != 25 && v != 51 ==> Char(v + 1) as int == Char(v) as int + 1
  {
  }

  predicate IsBase64(c: char) {
    'A' <= c <= 'Z' || 'a' <= c <= 'z' || '0' <= c <= '9' || c == '+' || c == '/'
  }

  /** base64_chars.find(), stored in an octet: a character that is not found gives 255. */
  function Index(c: char): octet {
    if 'A' <= c <= 'Z' then c as int - 'A' as int
    else if 'a' <= c <= 'z' then c as int - 'a' as int + 26
    else if '0' <= c <= '9' then c as int - '0' as int + 52
    else if c == '+' then 62 else if c == '/' then 63 else 255
  }

  lemma IndexOfChar(v: sextet)
    ensures IsBase64(Char(v)) && Char(v) != '=' && Index(Char(v)) == v
  {
  }

  // ----- groups -----

  function Sextet0(a: octet): sextet { a / 4 }
  function Sextet1(a: octet, b: octet): sextet { a % 4 * 16 + b / 16 }
  function Sextet2(b: octet, c: octet): sextet { b % 16 * 4 + c / 64 }
  function Sextet3(c: octet): sextet { c % 64 }

  function Octet0(w: octet, x: octet): octet { (w * 4 + x / 16 % 4) % 256 }
  function Octet1(x: octet, y: octet): octet { (x % 16 * 16 + y / 4 % 16) % 256 }
  function Octet2(y: octet, z: octet): octet { (y % 4 * 64 + z) % 256 }

  /** Four sextets spell the same 24 bits as three octets. */
  lemma GroupSpelled(a: octet, b: octet, c: octet)
    ensures 0x1_0000 * a + 0x100 * b + c
         == 0x4_0000 * Sextet0(a) + 0x1000 * Sextet1(a, b) + 0x40 * Sextet2(b, c) + Sextet3(c)
  {
  }

  lemma FirstReads(a: octet, b: octet)
    ensures Octet0(Sextet0(a), Sextet1(a, b)) == a
  {
    assert Sextet1(a, b) / 16 == a % 4;
  }

  lemma LowOfSextet1(a: octet, b: octet)
    ensures Sextet1(a, b) % 16 == b / 16
  {
  }

  lemma HighOfSextet2(b: octet, c: octet)
    ensures Sextet2(b, c) / 4 % 16 == b % 16
  {
  }

  lemma HalvesOfOctet(b: octet)
    ensures (b / 16 * 16 + b % 16) % 256 == b
  {
  }

  lemma SecondReads(a: octet, b: octet, c: octet)
    ensures Octet1(Sextet1(a, b), Sextet2(b, c)) == b
  {
    LowOfSextet1(a, b);
    HighOfSextet2(b, c);
    HalvesOfOctet(b);
  }

  lemma ThirdReads(b: octet, c: octet)
    ensures Octet2(Sextet2(b, c), Sextet3(c)) == c
  {
    assert Sextet2(b, c) % 4 == c / 64;
  }

  function Quad(a: octet, b: octet, c: octet): string {
    [Char(Sextet0(a)), Char(Sextet1(a, b)), Char(Sextet2(b, c)), Char(Sextet3(c))]
  }

  function Triple(w: char, x: char, y: char, z: char): seq<octet> {
    [Octet0(Index(w), Index(x)), Octet1(Index(x), Index(y)), Octet2(Index(y), Index(z))]
  }

  // ----- the reference -----

  function Encoded(s: seq<octet>): string {
    if |s| == 0 then ""
    else if |s| == 1 then Quad(s[0], 0, 0)[..2] + "=="
    else if |s| == 2 then Quad(s[0], s[1], 0)[..3] + "="
    else Quad(s[0], s[1], s[2]) + Encoded(s[3..])
  }

  predicate Readable(c: char) {
    c != '=' && IsBase64(c)
  }

  /** How many characters of a group can be read before something else comes. */
  function Run(t: string): (n: nat)
    ensures n <= 4 && n <= |t|
  {
    if t == "" || !Readable(t[0]) then 0
    else if |t| == 1 || !Readable(t[1]) then 1
    else if |t| == 2 || !Readable(t[2]) then 2
    else if |t| == 3 || !Readable(t[3]) then 3 else 4
  }

  /** The characters that the source puts in place of those missing. */
  const MISSING: char := 0 as char

  function Decoded(t: string): seq<octet> {
    var n := Run(t);
    if n == 4 then Triple(t[0], t[1], t[2], t[3]) + Decoded(t[4..])
    else if n == 3 then Triple(t[0], t[1], t[2], MISSING)[..2]
    else if n == 2 then Triple(t[0], t[1], MISSING, MISSING)[..1]
    else []
  }

  lemma {:induction false} EncodedLength(s: seq<octet>)
    ensures |Encoded(s)| == 4 * ((|s| + 2) / 3)
  {
    if |s| >= 3 {
      EncodedLength(s[3..]);
      ThreeMore(|s[3..]|);
    }
  }

  lemma ThreeMore(n: nat)
    ensures (n + 3 + 2) / 3 == (n + 2) / 3 + 1
  {
  }

  lemma CharsRead(w: sextet, x: sextet, y: sextet, z: sextet, rest: string)
    ensures var q := [Char(w), Char(x), Char(y), Char(z)];
            && Run(q + rest) == 4 && (q + rest)[..4] == q && (q + rest)[4..] == rest
            && Triple(q[0], q[1], q[2], q[3]) == [Octet0(w, x), Octet1(x, y), Octet2(y, z)]
  {
    IndexOfChar(w);
    IndexOfChar(x);
    IndexOfChar(y);
    IndexOfChar(z);
  }

  lemma QuadReads(a: octet, b: octet, c: octet, rest: string)
    ensures Decoded(Quad(a, b, c) + rest) == [a, b, c] + Decoded(rest)
  {
    CharsRead(Sextet0(a), Sextet1(a, b), Sextet2(b, c), Sextet3(c), rest);
    FirstReads(a, b);
    SecondReads(a, b, c);
    ThirdReads(b, c);
  }

  /** Every sequence of octets is read back. */
  lemma {:induction false} RoundTrip(s: seq<octet>)
    ensures Decoded(Encoded(s)) == s
  {
    if |s| >= 3 {
      QuadReads(s[0], s[1], s[2], Encoded(s[3..]));
      RoundTrip(s[3..]);
    } else if |s| == 2 {
      TailReads2(s[0], s[1]);
    } else if |s| == 1 {
      TailReads1(s[0]);
    }
  }

  /** A last group of two octets, or of one, does not depend on what stands for the characters missing. */
  lemma TailReads2(a: octet, b: octet)
    ensures Decoded(Quad(a, b, 0)[..3] + "=") == [a, b]
  {
    IndexOfChar(Sextet0(a));
    IndexOfChar(Sextet1(a, b));
    IndexOfChar(Sextet2(b, 0));
    FirstReads(a, b);
    SecondReads(a, b, 0);
  }

  lemma TailReads1(a: octet)
    ensures Decoded(Quad(a, 0, 0)[..2] + "==") == [a]
  {
    IndexOfChar(Sextet0(a));
    IndexOfChar(Sextet1(a, 0));
    FirstReads(a, 0);
  }

  // ----- the source -----

  /** The first `n` characters of a group. */
  method AppendChars(before: string, a3: array<octet>, n: nat) returns (ret: string)
    requires a3.Length == 3 && n <= 4
    ensures ret == before + Quad(a3[0], a3[1], a3[2])[..n]
  {
    var a4 := new sextet[4];
    a4[0] := Sextet0(a3[0]);
    a4[1] := Sextet1(a3[0], a3[1]);
    a4[2] := Sextet2(a3[1], a3[2]);
    a4[3] := Sextet3(a3[2]);
    ghost var q := Quad(a3[0], a3[1], a3[2]);
    ret := before;
    for i := 0 to n
      invariant ret == before + q[..i]
    {
      ret := ret + [Char(a4[i])];
      assert q[..i + 1] == q[..i] + [q[i]];
    }
  }

  /** One more element of the input into the group. */
  method TakeOne<T>(group: array<T>, i: nat, input: seq<T>, at: nat)
    requires i < group.Length && at < |input|
    modifies group
    ensures group[..i] == old(group[..i]) && group[i] == input[at]
    ensures group[..i + 1] + input[at + 1..] == old(group[..i]) + input[at..]
  {
    group[i] := input[at];
    assert group[..i + 1] == old(group[..i]) + [input[at]];
    assert input[at..] == [input[at]] + input[at + 1..];
  }

  lemma GroupEncoded(before: string, group: seq<octet>, rest: seq<octet>)
    requires |group| == 3
    ensures before + Encoded(group + rest) == before + Quad(group[0], group[1], group[2]) + Encoded(rest)
  {
    assert (group + rest)[3..] == rest;
    Assoc(before, Quad(group[0], group[1], group[2]), Encoded(rest));
  }

  method FlushChars(before: string, a3: array<octet>, ghost rest: seq<octet>) returns (ret: string)
    requires a3.Length == 3
    ensures ret + Encoded(rest) == before + Encoded(a3[..3] + rest)
  {
    GroupEncoded(before, a3[..3], rest);
    ret := AppendChars(before, a3, 4);
    assert Quad(a3[0], a3[1], a3[2])[..4] == Quad(a3[0], a3[1], a3[2]);
  }

  method Encode(bytes: seq<octet>) returns (ret: string)
    ensures ret == Encoded(bytes)
  {
    ret := "";
    var i, at := 0, 0;
    var a3 := new octet[3];
    ghost var ahead := bytes;
    while at < |bytes|
      invariant 0 <= i < 3 && at <= |bytes| && ahead == a3[..i] + bytes[at..]
      invariant ret + Encoded(ahead) == Encoded(bytes)
    {
      TakeOne(a3, i, bytes, at);
      i, at := i + 1, at + 1;
      if i == 3 {
        ret := FlushChars(ret, a3, bytes[at..]);
        i, ahead := 0, bytes[at..];
      }
    }
    ret := EncodeTail(ret, a3, i);
  }

  /** What is left when the input ends within a group. */
  method EncodeTail(before: string, a3: array<octet>, i: nat) returns (ret: string)
    requires a3.Length == 3 && i < 3
    modifies a3
    ensures ret == before + old(Encoded(a3[..i]))
  {
    if i == 0 {
      return before;
    }
    for j := i to 3
      invariant a3[..i] == old(a3[..i]) && forall k :: i <= k < j ==> a3[k] == 0
    {
      a3[j] := 0;
    }
    ret := AppendChars(before, a3, i + 1);
    ret := Fill(ret, i);
    Assoc(before, Quad(a3[0], a3[1], a3[2])[..i + 1], if i == 1 then "==" else "=");
  }

  method Fill(before: string, n: nat) returns (ret: string)
    requires 1 <= n <= 2
    ensures ret == before + if n == 1 then "==" else "="
  {
    ret := before;
    var i := n;
    while i < 3
      invariant n <= i <= 3 && ret == before + seq(i - n, _ => '=')
    {
      ret := ret + "=";
      i := i + 1;
    }
  }

  /** The first `n` octets of a group. */
  method AppendOctets(before: seq<octet>, a4: array<char>, n: nat) returns (ret: seq<octet>)
    requires a4.Length == 4 && n <= 3
    ensures ret == before + Triple(a4[0], a4[1], a4[2], a4[3])[..n]
  {
    var found := new octet[4](i requires 0 <= i < 4 reads a4 => Index(a4[i]));
    var a3 := new octet[3];
    a3[0] := Octet0(found[0], found[1]);
    a3[1] := Octet1(found[1], found[2]);
    a3[2] := Octet2(found[2], found[3]);
    ghost var q := Triple(a4[0], a4[1], a4[2], a4[3]);
    ret := before;
    for i := 0 to n
      invariant ret == before + q[..i]
    {
      ret := ret + [a3[i]];
      assert q[..i + 1] == q[..i] + [q[i]];
    }
  }

  predicate AllReadable(s: string) {
    forall k :: 0 <= k < |s| ==> Readable(s[k])
  }

  lemma GroupDecoded(before: seq<octet>, group: string, rest: string)
    requires |group| == 4 && AllReadable(group)
    ensures before + Decoded(group + rest)
         == before + Triple(group[0], group[1], group[2], group[3]) + Decoded(rest)
  {
    assert Run(group + rest) == 4 && (group + rest)[4..] == rest;
    Assoc(before, Triple(group[0], group[1], group[2], group[3]), Decoded(rest));
  }

  /** The last group, with the characters missing made up. */
  function Completed(group: string, k: nat): char {
    if k < |group| then group[k] else MISSING
  }

  lemma TailDecoded(group: string, rest: string)
    requires |group| < 4 && AllReadable(group) && (rest == "" || !Readable(rest[0]))
    ensures Decoded(group + rest)
         == if group == "" then [] else
              Triple(Completed(group, 0), Completed(group, 1), Completed(group, 2), Completed(group, 3))[..|group| - 1]
  {
    assert Run(group + rest) == |group|;
  }

  method FlushOctets(before: seq<octet>, a4: array<char>, ghost rest: string) returns (ret: seq<octet>)
    requires a4.Length == 4 && AllReadable(a4[..4])
    ensures ret + Decoded(rest) == before + Decoded(a4[..4] + rest)
  {
    GroupDecoded(before, a4[..4], rest);
    ret := AppendOctets(before, a4, 3);
    assert Triple(a4[0], a4[1], a4[2], a4[3])[..3] == Triple(a4[0], a4[1], a4[2], a4[3]);
  }

  method Decode(text: string) returns (ret: seq<octet>)
    ensures ret == Decoded(text)
  {
    ret := [];
    var i, at := 0, 0;
    var a4 := new char[4];
    ghost var ahead := text;
    while at < |text| && text[at] != '=' && IsBase64(text[at])
      invariant 0 <= i < 4 && at <= |text| && ahead == a4[..i] + text[at..]
      invariant AllReadable(a4[..i])
      invariant ret + Decoded(ahead) == Decoded(text)
    {
      TakeOne(a4, i, text, at);
      i, at := i + 1, at + 1;
      if i == 4 {
        ret := FlushOctets(ret, a4, text[at..]);
        i, ahead := 0, text[at..];
      }
    }
    ret := DecodeTail(ret, a4, i, text[at..]);
  }

  /** What is left when the text ends, or stops being base 64, within a group. */
  method DecodeTail(before: seq<octet>, a4: array<char>, i: nat, ghost rest: string) returns (ret: seq<octet>)
    requires a4.Length == 4 && i < 4 && AllReadable(a4[..i]) && (rest == "" || !Readable(rest[0]))
    modifies a4
    ensures ret == before + Decoded(old(a4[..i]) + rest)
  {
    TailDecoded(a4[..i], rest);
    if i == 0 {
      return before;
    }
    for j := i to 4
      invariant a4[..i] == old(a4[..i]) && forall k :: i <= k < j ==> a4[k] == MISSING
    {
      a4[j] := MISSING;
    }
    ret := AppendOctets(before, a4, i - 1);
  }

  // ----- the examples of section 10 of RFC 4648 -----

  lemma Quads()
    ensures Quad(0x66, 0x6f, 0x6f) == "Zm9v" && Quad(0x62, 0x61, 0x72) == "YmFy"
    ensures Quad(0x66, 0, 0)[..2] == "Zg" && Quad(0x66, 0x6f, 0)[..3] == "Zm8"
  {
  }

  /** "f", "fo", "foo" and "foobar". */
  lemma Examples(f: seq<octet>, fo: seq<octet>, foo: seq<octet>, foobar: seq<octet>)
    requires f == [0x66] && fo == [0x66, 0x6f] && foo == [0x66, 0x6f, 0x6f] && foobar == foo + [0x62, 0x61, 0x72]
    ensures Encoded(f) == "Zg==" && Encoded(fo) == "Zm8=" && Encoded(foo) == "Zm9v" && Encoded(foobar) == "Zm9vYmFy"
  {
    Quads();
    assert foo[3..] == [] && foobar[3..] == [0x62, 0x61, 0x72] && foobar[3..][3..] == [];
  }
}
