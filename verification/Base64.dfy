/** Base64 (section 4 of RFC 4648).  Masks and shifts of octets are written as divisions and remainders by
  * powers of two; storing into an octet keeps the value modulo 256. */
module Base64 {
  import opened Bytes

  const UPPER_CASE: string := "ABCDEFGHIJKLMNOPQRSTUVWXYZ"
  const LOWER_CASE: string := "abcdefghijklmnopqrstuvwxyz"
  const BASE64_CHARS: string := UPPER_CASE + LOWER_CASE + "0123456789+/"

  /** Text is octets too: characters are their codes. */
  const EQUALS: byte := 61

  /** `is_base64`. */
  predicate IsBase64(c: byte) {
    c == 43 || 47 <= c <= 57 || 65 <= c <= 90 || 97 <= c <= 122
  }

  type Sextet = x: byte | x < 64

  // ---------------------------------------------------------------- the alphabet

  function CharOf(x: Sextet): byte {
    if x < 26 then 65 + x else if x < 52 then 71 + x else if x < 62 then x - 4 else if x == 62 then 43 else 47
  }

  function SextetOf(c: byte): Sextet
    requires IsBase64(c)
  {
    if 65 <= c <= 90 then c - 65
    else if 97 <= c <= 122 then c - 71
    else if 48 <= c <= 57 then c + 4
    else if c == 43 then 62
    else 63
  }

  lemma CharsAndSextets(x: Sextet)
    ensures IsBase64(CharOf(x)) && SextetOf(CharOf(x)) == x
  {
  }

  lemma SextetsAndChars(c: byte)
    requires IsBase64(c)
    ensures CharOf(SextetOf(c)) == c
  {
  }

  lemma Alphabet(x: Sextet)
    ensures |BASE64_CHARS| == 64 && BASE64_CHARS[x] as int == CharOf(x)
  {
    UpperAt(if x < 26 then x else 0);
    LowerAt(if 26 <= x < 52 then x - 26 else 0);
    DigitAt(if 52 <= x then x - 52 else 0);
    assert |UPPER_CASE| == 26 && |LOWER_CASE| == 26;
  }

  lemma UpperAt(x: nat)
    requires x < 26
    ensures UPPER_CASE[x] as int == CharOf(x)
  {
  }

  lemma LowerAt(x: nat)
    requires x < 26
    ensures LOWER_CASE[x] as int == CharOf(26 + x)
  {
  }

  lemma DigitAt(x: nat)
    requires x < 12
    ensures "0123456789+/"[x] as int == CharOf(52 + x)
  {
  }

  /** Table 1 of RFC 4648. */
  lemma StandardAlphabet(x: Sextet)
    ensures CharOf(x) ==
      if x < 26 then 'A' as int + x
      else if x < 52 then 'a' as int + (x - 26)
      else if x < 62 then '0' as int + (x - 52)
      else if x == 62 then '+' as int else '/' as int
  {
  }

  /** `std::string::find`: the first position of a character, or none. */
  function FindIn(s: string, c: byte): (r: int)
    ensures -1 <= r < |s|
    ensures r < 0 ==> forall i :: 0 <= i < |s| ==> s[i] as int != c
    ensures r >= 0 ==> s[r] as int == c
  {
    if s == "" then -1
    else if s[0] as int == c then 0
    else
      var r := FindIn(s[1..], c);
      if r < 0 then -1 else r + 1
  }

  /** A position in the alphabet as an octet.  The position of what is not there is all ones. */
  function Lookup(c: byte): byte {
    AlphabetSize();
    var r := FindIn(BASE64_CHARS, c);
    if r < 0 then 255 else r
  }

  lemma AlphabetSize()
    ensures |BASE64_CHARS| == 64
  {
  }

  lemma LookupIs(c: byte)
    ensures Lookup(c) == if IsBase64(c) then SextetOf(c) else 255
  {
    AlphabetSize();
    var r := FindIn(BASE64_CHARS, c);
    if IsBase64(c) {
      Alphabet(SextetOf(c));
      SextetsAndChars(c);
      assert BASE64_CHARS[SextetOf(c)] as int == c;
    }
    if r >= 0 {
      Alphabet(r);
      CharsAndSextets(r);
    }
    hide FindIn;
  }

  // ---------------------------------------------------------------- groups

  /** The four sextets of three octets. */
  function Sextets(c: byte, d: byte, e: byte): (r: seq<Sextet>)
    ensures |r| == 4
  {
    [c / 4, c % 4 * 16 + d / 16, d % 16 * 4 + e / 64, e % 64]
  }

  /** The three octets of four sextets. */
  function OctetsOf(w: byte, x: byte, y: byte, z: byte): (r: seq<byte>)
    ensures |r| == 3
  {
    [(w * 4 + x / 16 % 4) % 256, (x % 16 * 16 + y / 4 % 16) % 256, (y % 4 * 64 + z) % 256]
  }

  /** A group is a number of 24 bits, cut in three or in four. */
  lemma GroupIsNumber(c: byte, d: byte, e: byte)
    ensures var s := Sextets(c, d, e);
      c as int * 0x1_0000 + d as int * 0x100 + e
          == s[0] as int * 0x4_0000 + s[1] as int * 0x1000 + s[2] as int * 0x40 + s[3]
  {
  }

  lemma OctetsAreNumber(w: Sextet, x: Sextet, y: Sextet, z: Sextet)
    ensures var o := OctetsOf(w, x, y, z);
      o[0] as int * 0x1_0000 + o[1] as int * 0x100 + o[2]
          == w as int * 0x4_0000 + x as int * 0x1000 + y as int * 0x40 + z
  {
    var o := OctetsOf(w, x, y, z);
    assert o[0] == w * 4 + x / 16;
    assert o[1] == x % 16 * 16 + y / 4;
    assert o[2] == y % 4 * 64 + z;
    hide OctetsOf;
  }

  lemma GroupRoundTrip(c: byte, d: byte, e: byte)
    ensures var s := Sextets(c, d, e); OctetsOf(s[0], s[1], s[2], s[3]) == [c, d, e]
  {
    First(c, d);
    Second(d, c % 4, e);
    Third(e, d % 16);
  }

  lemma First(c: byte, d: byte)
    ensures (c / 4 * 4 + (c % 4 * 16 + d / 16) / 16 % 4) % 256 == c
  {
    assert (c % 4 * 16 + d / 16) / 16 == c % 4;
  }

  lemma Second(d: byte, c: nat, e: byte)
    requires c < 4
    ensures ((c * 16 + d / 16) % 16 * 16 + (d % 16 * 4 + e / 64) / 4 % 16) % 256 == d
  {
    assert (c * 16 + d / 16) % 16 == d / 16;
    assert (d % 16 * 4 + e / 64) / 4 == d % 16;
  }

  lemma Third(e: byte, d: nat)
    requires d < 16
    ensures ((d * 4 + e / 64) % 4 * 64 + e % 64) % 256 == e
  {
    assert (d * 4 + e / 64) % 4 == e / 64;
  }

  /** The first octets of a group do not depend on the sextets after the last one that was read. */
  lemma FillerUnused(w: Sextet, x: Sextet, y: byte, z: byte, z': byte, y': byte)
    ensures OctetsOf(w, x, y, z)[0] == OctetsOf(w, x, y', z')[0]
    ensures OctetsOf(w, x, y, z)[1] == OctetsOf(w, x, y, z')[1]
  {
  }

  function Chars(sextets: seq<Sextet>): (r: seq<byte>)
    ensures |r| == |sextets|
    ensures forall i :: 0 <= i < |r| ==> r[i] == CharOf(sextets[i])
  {
    seq(|sextets|, i requires 0 <= i < |sextets| => CharOf(sextets[i]))
  }

  // ---------------------------------------------------------------- encoding

  /** The sextets of some octets; the last group is filled up with zero bits to a sextet. */
  function SextetsFor(data: seq<byte>): (r: seq<Sextet>)
    ensures |r| == (4 * |data| + 2) / 3
    decreases |data|
  {
    if data == [] then []
    else if |data| == 1 then Sextets(data[0], 0, 0)[..2]
    else if |data| == 2 then Sextets(data[0], data[1], 0)[..3]
    else Sextets(data[0], data[1], data[2]) + SextetsFor(data[3..])
  }

  function Padding(n: nat): (p: seq<byte>)
    ensures |p| == 4 * ((n + 2) / 3) - (4 * n + 2) / 3
  {
    if n % 3 == 0 then [] else if n % 3 == 1 then [EQUALS, EQUALS] else [EQUALS]
  }

  /** Section 4: a character for each sextet, and padding to a group of four. */
  function Encoded(data: seq<byte>): (r: seq<byte>)
    ensures |r| == 4 * ((|data| + 2) / 3)
  {
    Chars(SextetsFor(data)) + Padding(|data|)
  }

  /** One, two and three octets in four characters, six bits to a character, filled up with zero bits and
    * then with equals signs. */
  lemma OneGroupOfText(c: byte, d: byte, e: byte)
    ensures Encoded([c]) == [CharOf(c / 4), CharOf(c % 4 * 16), '=' as int, '=' as int]
    ensures Encoded([c, d]) == [CharOf(c / 4), CharOf(c % 4 * 16 + d / 16), CharOf(d % 16 * 4), '=' as int]
    ensures Encoded([c, d, e])
         == [CharOf(c / 4), CharOf(c % 4 * 16 + d / 16), CharOf(d % 16 * 4 + e / 64), CharOf(e % 64)]
  {
    GroupSextets(c, d, e);
    hide SextetsFor, CharOf;
  }

  lemma GroupSextets(c: byte, d: byte, e: byte)
    ensures SextetsFor([c]) == [c / 4, c % 4 * 16]
    ensures SextetsFor([c, d]) == [c / 4, c % 4 * 16 + d / 16, d % 16 * 4]
    ensures SextetsFor([c, d, e]) == [c / 4, c % 4 * 16 + d / 16, d % 16 * 4 + e / 64, e % 64]
  {
    assert [c, d, e][3..] == [];
    assert SextetsFor([]) == [];
  }

  lemma {:induction false} SextetsAppend(a: seq<byte>, b: seq<byte>)
    requires |a| % 3 == 0
    ensures SextetsFor(a + b) == SextetsFor(a) + SextetsFor(b)
    decreases |a|
  {
    hide Sextets;
    if a == [] {
      assert a + b == b;
    } else {
      assert (a + b)[3..] == a[3..] + b;
      SextetsAppend(a[3..], b);
    }
  }

  lemma CharsAppend(a: seq<Sextet>, b: seq<Sextet>)
    ensures Chars(a + b) == Chars(a) + Chars(b)
  {
  }

  // ---------------------------------------------------------------- decoding

  /** How many characters of the alphabet come first. */
  function PrefixLength(s: seq<byte>): (k: nat)
    ensures k <= |s|
    ensures forall i :: 0 <= i < k ==> IsBase64(s[i])
    ensures k < |s| ==> !IsBase64(s[k])
  {
    if s == [] || !IsBase64(s[0]) then 0 else 1 + PrefixLength(s[1..])
  }

  function ToSextets(s: seq<byte>): (r: seq<Sextet>)
    requires forall i :: 0 <= i < |s| ==> IsBase64(s[i])
    ensures |r| == |s|
  {
    if s == [] then [] else [SextetOf(s[0])] + ToSextets(s[1..])
  }

  /** The octets that a number of sextets fill; bits left over are dropped. */
  function FromSextets(x: seq<Sextet>): (r: seq<byte>)
    ensures |r| == 3 * |x| / 4
    decreases |x|
  {
    if |x| < 2 then []
    else if |x| == 2 then OctetsOf(x[0], x[1], 0, 0)[..1]
    else if |x| == 3 then OctetsOf(x[0], x[1], x[2], 0)[..2]
    else OctetsOf(x[0], x[1], x[2], x[3]) + FromSextets(x[4..])
  }

  /** What decoding any string gives. */
  function Decoded(s: seq<byte>): (r: seq<byte>)
    ensures |r| == 3 * PrefixLength(s) / 4
  {
    FromSextets(ToSextets(s[..PrefixLength(s)]))
  }

  // ---------------------------------------------------------------- round trip

  lemma {:induction false} SextetsRoundTrip(data: seq<byte>)
    ensures FromSextets(SextetsFor(data)) == data
    decreases |data|
  {
    if data == [] {
    } else if |data| == 1 {
      GroupRoundTrip(data[0], 0, 0);
      var s := Sextets(data[0], 0, 0);
      FillerUnused(s[0], s[1], s[2], s[3], 0, 0);
      hide Sextets, OctetsOf;
    } else if |data| == 2 {
      GroupRoundTrip(data[0], data[1], 0);
      var s := Sextets(data[0], data[1], 0);
      FillerUnused(s[0], s[1], s[2], s[3], 0, s[2]);
      hide Sextets, OctetsOf;
    } else {
      GroupRoundTrip(data[0], data[1], data[2]);
      SextetsRoundTrip(data[3..]);
      hide Sextets, OctetsOf;
      var s := Sextets(data[0], data[1], data[2]);
      assert SextetsFor(data)[4..] == SextetsFor(data[3..]);
      assert data == [data[0], data[1], data[2]] + data[3..];
    }
  }

  lemma {:induction false} CharsRoundTrip(x: seq<Sextet>, rest: seq<byte>)
    requires rest != [] ==> !IsBase64(rest[0])
    ensures PrefixLength(Chars(x) + rest) == |x|
    ensures ToSextets(Chars(x)) == x
  {
    hide CharOf, SextetOf, IsBase64;
    if x == [] {
      assert Chars(x) + rest == rest;
    } else {
      CharsAndSextets(x[0]);
      CharsRoundTrip(x[1..], rest);
      assert Chars(x)[1..] == Chars(x[1..]);
      assert (Chars(x) + rest)[1..] == Chars(x[1..]) + rest;
      hide Chars;
    }
  }

  /** Decoding what was encoded gives it back, with or without anything after the padding that an alphabet
    * character does not continue. */
  lemma RoundTrip(data: seq<byte>)
    ensures Decoded(Encoded(data)) == data
  {
    var x := SextetsFor(data);
    CharsRoundTrip(x, Padding(|data|));
    assert (Chars(x) + Padding(|data|))[..|x|] == Chars(x);
    SextetsRoundTrip(data);
    hide FromSextets, SextetsFor, Chars, ToSextets;
  }

  // ---------------------------------------------------------------- what it means

  /** The number that octets, and that sextets, spell after a number already read. */
  function OctetsOnto(n: nat, s: seq<byte>): nat
    decreases |s|
  {
    if s == [] then n else OctetsOnto(n * 256 + s[0], s[1..])
  }

  function SextetsOnto(n: nat, x: seq<Sextet>): nat
    decreases |x|
  {
    if x == [] then n else SextetsOnto(n * 64 + x[0], x[1..])
  }

  /** The bits past the last whole octet of a number of sextets, as a factor. */
  function Leftover(sextets: nat): nat {
    match sextets % 4
    case 0 => 1
    case 1 => 64
    case 2 => 16
    case _ => 4
  }

  lemma OntoGroup(n: nat, w: Sextet, x: Sextet, y: Sextet, z: Sextet)
    ensures OctetsOnto(n, OctetsOf(w, x, y, z)) == SextetsOnto(n, [w, x, y, z])
  {
    var o := OctetsOf(w, x, y, z);
    OctetsAreNumber(w, x, y, z);
    hide OctetsOf;
    OctetsOnto3(n, o);
    SextetsOnto4(n, [w, x, y, z]);
  }

  lemma OctetsOnto3(n: nat, o: seq<byte>)
    requires |o| == 3
    ensures OctetsOnto(n, o) == n * 0x100_0000 + o[0] as int * 0x1_0000 + o[1] as int * 0x100 + o[2]
  {
    var n1 := n * 256 + o[0];
    var n2 := n1 * 256 + o[1];
    var n3 := n2 * 256 + o[2];
    assert OctetsOnto(n, o) == OctetsOnto(n1, o[1..]);
    assert OctetsOnto(n1, o[1..]) == OctetsOnto(n2, o[1..][1..]);
    assert OctetsOnto(n2, o[1..][1..]) == OctetsOnto(n3, o[1..][1..][1..]) == n3;
  }

  lemma SextetsOnto4(n: nat, x: seq<Sextet>)
    requires |x| == 4
    ensures SextetsOnto(n, x)
        == n * 0x100_0000 + x[0] as int * 0x4_0000 + x[1] as int * 0x1000 + x[2] as int * 0x40 + x[3]
  {
    var n1 := n * 64 + x[0];
    var n2 := n1 * 64 + x[1];
    var n3 := n2 * 64 + x[2];
    var n4 := n3 * 64 + x[3];
    assert SextetsOnto(n, x) == SextetsOnto(n1, x[1..]);
    assert SextetsOnto(n1, x[1..]) == SextetsOnto(n2, x[1..][1..]);
    assert SextetsOnto(n2, x[1..][1..]) == SextetsOnto(n3, x[1..][1..][1..]);
    assert SextetsOnto(n3, x[1..][1..][1..]) == SextetsOnto(n4, x[1..][1..][1..][1..]) == n4;
  }

  lemma {:induction false} OctetsOntoAppend(n: nat, a: seq<byte>, b: seq<byte>)
    ensures OctetsOnto(n, a + b) == OctetsOnto(OctetsOnto(n, a), b)
    decreases |a|
  {
    if a == [] {
      assert a + b == b;
    } else {
      assert (a + b)[1..] == a[1..] + b;
      OctetsOntoAppend(n * 256 + a[0], a[1..], b);
    }
  }

  lemma {:induction false} SextetsOntoAppend(n: nat, a: seq<Sextet>, b: seq<Sextet>)
    ensures SextetsOnto(n, a + b) == SextetsOnto(SextetsOnto(n, a), b)
    decreases |a|
  {
    if a == [] {
      assert a + b == b;
    } else {
      assert (a + b)[1..] == a[1..] + b;
      SextetsOntoAppend(n * 64 + a[0], a[1..], b);
    }
  }

  /** Decoding reads the bits of the sextets in order and drops those that fill no octet. */
  lemma {:induction false} DecodingReadsBits(n: nat, x: seq<Sextet>)
    ensures OctetsOnto(n, FromSextets(x)) == SextetsOnto(n, x) / Leftover(|x|)
    decreases |x|
  {
    if |x| >= 4 {
      var group, rest := x[..4], x[4..];
      OntoGroup(n, x[0], x[1], x[2], x[3]);
      assert group == [x[0], x[1], x[2], x[3]];
      hide OctetsOf, OctetsOnto, SextetsOnto, Leftover;
      OctetsOntoAppend(n, OctetsOf(x[0], x[1], x[2], x[3]), FromSextets(rest));
      SextetsOntoAppend(n, group, rest);
      assert x == group + rest;
      DecodingReadsBits(SextetsOnto(n, group), rest);
      SameLeftover(|rest|);
    } else {
      LastBits(n, x);
    }
  }

  lemma SameLeftover(n: nat)
    ensures Leftover(n + 4) == Leftover(n)
  {
    assert (n + 4) % 4 == n % 4;
  }

  lemma LastBits(n: nat, x: seq<Sextet>)
    requires |x| < 4
    ensures OctetsOnto(n, FromSextets(x)) == SextetsOnto(n, x) / Leftover(|x|)
  {
    if |x| == 1 {
      assert SextetsOnto(n, x) == SextetsOnto(n * 64 + x[0], x[1..]);
    } else if |x| == 2 {
      TwoSextets(n, x);
    } else if |x| == 3 {
      ThreeSextets(n, x);
    }
  }

  lemma TwoSextets(n: nat, x: seq<Sextet>)
    requires |x| == 2
    ensures OctetsOnto(n, OctetsOf(x[0], x[1], 0, 0)[..1]) == SextetsOnto(n, x) / 16
  {
    var o := OctetsOf(x[0], x[1], 0, 0);
    assert o[0] == x[0] as int * 4 + x[1] / 16;
    hide OctetsOf;
    var n1 := n * 64 + x[0];
    var n2 := n1 * 64 + x[1];
    assert SextetsOnto(n, x) == SextetsOnto(n1, x[1..]) == SextetsOnto(n2, x[1..][1..]) == n2;
    var p := o[..1];
    assert OctetsOnto(n, p) == OctetsOnto(n * 256 + p[0], p[1..]) == n * 256 + o[0];
    hide OctetsOnto, SextetsOnto;
    assert n2 == 16 * (n * 256 + o[0]) + x[1] % 16;
  }

  lemma ThreeSextets(n: nat, x: seq<Sextet>)
    requires |x| == 3
    ensures OctetsOnto(n, OctetsOf(x[0], x[1], x[2], 0)[..2]) == SextetsOnto(n, x) / 4
  {
    var o := OctetsOf(x[0], x[1], x[2], 0);
    assert o[0] == x[0] as int * 4 + x[1] / 16 && o[1] == x[1] as int % 16 * 16 + x[2] / 4;
    hide OctetsOf;
    var n1 := n * 64 + x[0];
    var n2 := n1 * 64 + x[1];
    var n3 := n2 * 64 + x[2];
    assert SextetsOnto(n, x) == SextetsOnto(n1, x[1..]) == SextetsOnto(n2, x[1..][1..]);
    assert SextetsOnto(n2, x[1..][1..]) == SextetsOnto(n3, x[1..][1..][1..]) == n3;
    var p := o[..2];
    var m1 := n * 256 + p[0];
    var m2 := m1 * 256 + p[1];
    assert OctetsOnto(n, p) == OctetsOnto(m1, p[1..]) == OctetsOnto(m2, p[1..][1..]) == m2;
    hide OctetsOnto, SextetsOnto;
    assert n3 == 4 * m2 + x[2] % 4;
  }

  /** Encoding spells the same bits, with zero bits after them to fill the last sextet. */
  lemma {:induction false} EncodingSpellsBits(n: nat, data: seq<byte>)
    ensures SextetsOnto(n, SextetsFor(data)) == OctetsOnto(n, data) * Leftover(|SextetsFor(data)|)
    decreases |data|
  {
    if |data| >= 3 {
      var s, rest := Sextets(data[0], data[1], data[2]), data[3..];
      SextetsGroup(n, data[0], data[1], data[2]);
      SameLeftover(|SextetsFor(rest)|);
      hide Sextets, OctetsOnto, SextetsOnto, Leftover;
      SextetsOntoAppend(n, s, SextetsFor(rest));
      OctetsOntoAppend(n, data[..3], rest);
      assert data == data[..3] + rest && data[..3] == [data[0], data[1], data[2]];
      EncodingSpellsBits(SextetsOnto(n, s), rest);
    } else {
      LastSextets(n, data);
    }
  }

  lemma SextetsGroup(n: nat, c: byte, d: byte, e: byte)
    ensures SextetsOnto(n, Sextets(c, d, e)) == OctetsOnto(n, [c, d, e])
  {
    GroupIsNumber(c, d, e);
    OctetsOnto3(n, [c, d, e]);
    hide Sextets;
    SextetsOnto4(n, Sextets(c, d, e));
  }

  lemma LastSextets(n: nat, data: seq<byte>)
    requires |data| < 3
    ensures SextetsOnto(n, SextetsFor(data)) == OctetsOnto(n, data) * Leftover(|SextetsFor(data)|)
  {
    if |data| == 1 {
      var x := Sextets(data[0], 0, 0)[..2];
      SextetsOnto2(n, x);
      assert OctetsOnto(n, data) == OctetsOnto(n * 256 + data[0], data[1..]);
    } else if |data| == 2 {
      var x := Sextets(data[0], data[1], 0)[..3];
      SextetsOnto3(n, x);
      assert OctetsOnto(n, data) == OctetsOnto(n * 256 + data[0], data[1..]);
      assert OctetsOnto(n * 256 + data[0], data[1..])
          == OctetsOnto((n * 256 + data[0]) * 256 + data[1], data[1..][1..]);
    }
  }

  lemma SextetsOnto2(n: nat, x: seq<Sextet>)
    requires |x| == 2
    ensures SextetsOnto(n, x) == (n * 64 + x[0]) * 64 + x[1]
  {
    assert SextetsOnto(n, x) == SextetsOnto(n * 64 + x[0], x[1..]);
    assert SextetsOnto(n * 64 + x[0], x[1..]) == SextetsOnto((n * 64 + x[0]) * 64 + x[1], x[1..][1..]);
  }

  lemma SextetsOnto3(n: nat, x: seq<Sextet>)
    requires |x| == 3
    ensures SextetsOnto(n, x) == ((n * 64 + x[0]) * 64 + x[1]) * 64 + x[2]
  {
    assert SextetsOnto(n, x) == SextetsOnto(n * 64 + x[0], x[1..]);
    SextetsOnto2(n * 64 + x[0], x[1..]);
  }

  // ---------------------------------------------------------------- the encoder

  /** `char_array_3` to `char_array_4`. */
  method Split(three: array<byte>, four: array<byte>)
    requires three.Length == 3 && four.Length == 4
    modifies four
    ensures four[..] == Sextets(three[0], three[1], three[2])
  {
    var c, d, e := three[0], three[1], three[2];
    four[0] := c / 4;
    four[1] := c % 4 * 16 + d / 16;
    four[2] := d % 16 * 4 + e / 64;
    four[3] := e % 64;
  }

  method AppendChars(ret: seq<byte>, four: array<byte>, n: nat, ghost sextets: seq<Sextet>) returns (r: seq<byte>)
    requires four.Length == 4 && n <= 4 && |sextets| == 4 && four[..] == sextets
    ensures r == ret + Chars(sextets[..n])
  {
    r := ret;
    var i := 0;
    while i < n
      invariant i <= n && r == ret + Chars(sextets[..i])
    {
      assert four[i] == four[..][i] == sextets[i];
      Alphabet(four[i]);
      r := r + [BASE64_CHARS[four[i]] as byte];
      assert Chars(sextets[..i + 1]) == Chars(sextets[..i]) + [CharOf(sextets[i])];
      i := i + 1;
    }
  }

  lemma OneGroup(done: seq<byte>, c: byte, d: byte, e: byte)
    requires |done| % 3 == 0
    ensures Chars(SextetsFor(done + [c, d, e])) == Chars(SextetsFor(done)) + Chars(Sextets(c, d, e))
  {
    hide Sextets, Chars;
    SextetsAppend(done, [c, d, e]);
    GroupAlone(c, d, e);
    hide SextetsFor;
    CharsAppend(SextetsFor(done), Sextets(c, d, e));
  }

  lemma GroupAlone(c: byte, d: byte, e: byte)
    ensures SextetsFor([c, d, e]) == Sextets(c, d, e)
  {
    hide Sextets;
    assert [c, d, e][3..] == [];
  }

  lemma LastGroup(done: seq<byte>, rest: seq<byte>, s: seq<Sextet>)
    requires |done| % 3 == 0 && 1 <= |rest| <= 2
    requires s == Sextets(rest[0], if |rest| == 2 then rest[1] else 0, 0)
    ensures Chars(SextetsFor(done + rest)) == Chars(SextetsFor(done)) + Chars(s[..|rest| + 1])
  {
    hide Sextets, Chars;
    SextetsAppend(done, rest);
    CharsAppend(SextetsFor(done), s[..|rest| + 1]);
  }

  /** Whole groups are done, and the next octets wait in `char_array_3`. */
  ghost predicate Filling(input: seq<byte>, three: array<byte>, done: seq<byte>, i: nat)
    reads three
  {
    && three.Length == 3 && i <= 3 && |done| % 3 == 0 && |done| + i <= |input| && done <= input
    && forall k :: 0 <= k < i ==> three[k] == input[|done| + k]
  }

  method Fill(input: seq<byte>, p: nat, three: array<byte>, i: nat, ghost done: seq<byte>)
    requires Filling(input, three, done, i) && i < 3 && p == |done| + i < |input|
    modifies three
    ensures Filling(input, three, done, i + 1)
  {
    three[i] := input[p];
  }

  method EncodeGroup(start: seq<byte>, ghost input: seq<byte>, three: array<byte>, four: array<byte>,
          ghost done: seq<byte>)
    returns (ret: seq<byte>, ghost more: seq<byte>)
    requires Filling(input, three, done, 3) && start == Chars(SextetsFor(done))
    requires four.Length == 4 && three != four
    modifies four
    ensures |more| == |done| + 3 && Filling(input, three, more, 0) && ret == Chars(SextetsFor(more))
  {
    hide Sextets, Chars, SextetsFor;
    ghost var s := Sextets(three[0], three[1], three[2]);
    Split(three, four);
    ret := AppendChars(start, four, 4, s);
    assert s[..4] == s;
    OneGroup(done, three[0], three[1], three[2]);
    more := done + [three[0], three[1], three[2]];
    assert more == input[..|more|];
  }

  /** The loop over the input; what is left in `char_array_3` is less than a group. */
  method EncodeGroups(input: seq<byte>, three: array<byte>, four: array<byte>) returns (ret: seq<byte>, i: nat,
          ghost done: seq<byte>)
    requires three.Length == 3 && four.Length == 4 && three != four
    modifies three, four
    ensures i < 3 && Filling(input, three, done, i) && |done| + i == |input| && ret == Chars(SextetsFor(done))
  {
    ret, i, done := [], 0, [];
    assert SextetsFor([]) == [] && Chars([]) == [];
    assert Filling(input, three, [], 0);
    hide Chars, SextetsFor, Filling;
    var p := 0;
    while p < |input|
      invariant p == |done| + i <= |input| && i < 3
      invariant Filling(input, three, done, i) && ret == Chars(SextetsFor(done))
    {
      Fill(input, p, three, i, done);
      i, p := i + 1, p + 1;
      if i == 3 {
        ret, done := EncodeGroup(ret, input, three, four, done);
        i := 0;
      }
    }
  }

  method Encode(input: seq<byte>) returns (ret: seq<byte>)
    ensures ret == Encoded(input)
  {
    var i; ghost var done;
    var three, four := new byte[3], new byte[4];
    ret, i, done := EncodeGroups(input, three, four);
    assert input == done + three[..][..i];
    if i > 0 {
      ret := EncodeLast(ret, three, four, i, done);
    }
    assert i == 0 ==> input == done;
  }

  method EncodeLast(start: seq<byte>, three: array<byte>, four: array<byte>, i: nat,
          ghost done: seq<byte>) returns (ret: seq<byte>)
    requires three.Length == 3 && four.Length == 4 && three != four && 0 < i < 3
    requires |done| % 3 == 0 && start == Chars(SextetsFor(done))
    modifies three, four
    ensures ret == Encoded(done + old(three[..])[..i])
  {
    hide Sextets, Chars, SextetsFor;
    ghost var rest := three[..][..i];
    var j := i;
    while j < 3
      invariant i <= j <= 3
      invariant forall k :: 0 <= k < i ==> three[k] == rest[k]
      invariant forall k :: i <= k < j ==> three[k] == 0
    {
      three[j] := 0;
      j := j + 1;
    }
    ghost var s := Sextets(three[0], three[1], three[2]);
    Split(three, four);
    ret := AppendChars(start, four, i + 1, s);
    LastGroup(done, rest, s);
    var n := i;
    assert ret == Chars(SextetsFor(done + rest));
    ghost var body := ret;
    while n < 3
      invariant i <= n <= 3 && ret == body + (if n == i then [] else if n == i + 1 then [EQUALS] else [EQUALS, EQUALS])
    {
      ret := ret + [EQUALS];
      n := n + 1;
    }
  }

  // ---------------------------------------------------------------- the decoder

  lemma {:induction false} FromSextetsAppend(a: seq<Sextet>, b: seq<Sextet>)
    requires |a| % 4 == 0
    ensures FromSextets(a + b) == FromSextets(a) + FromSextets(b)
    decreases |a|
  {
    hide OctetsOf;
    if a == [] {
      assert a + b == b;
    } else {
      assert (a + b)[4..] == a[4..] + b;
      FromSextetsAppend(a[4..], b);
    }
  }

  lemma FromGroup(done: seq<Sextet>, x: seq<Sextet>)
    requires |done| % 4 == 0 && |x| == 4
    ensures FromSextets(done + x) == FromSextets(done) + OctetsOf(x[0], x[1], x[2], x[3])
  {
    hide OctetsOf;
    FromSextetsAppend(done, x);
    assert x[4..] == [];
  }

  lemma FromLast(done: seq<Sextet>, x: seq<Sextet>, four: seq<byte>)
    requires |done| % 4 == 0 && 1 <= |x| <= 3 && |four| == 4 && four[..|x|] == x
    ensures FromSextets(done + x) == FromSextets(done) + OctetsOf(four[0], four[1], four[2], four[3])[..|x| - 1]
  {
    FromSextetsAppend(done, x);
    assert forall k :: 0 <= k < |x| ==> four[..|x|][k] == x[k];
    if |x| == 2 {
      FillerUnused(x[0], x[1], four[2], four[3], 0, 0);
    } else if |x| == 3 {
      FillerUnused(x[0], x[1], x[2], four[3], 0, x[2]);
    }
    hide OctetsOf;
  }

  lemma {:induction false} ToSextetsAppend(a: seq<byte>, b: seq<byte>)
    requires forall i :: 0 <= i < |a| ==> IsBase64(a[i])
    requires forall i :: 0 <= i < |b| ==> IsBase64(b[i])
    ensures forall i :: 0 <= i < |a + b| ==> IsBase64((a + b)[i])
    ensures ToSextets(a + b) == ToSextets(a) + ToSextets(b)
  {
    hide IsBase64, SextetOf;
    if a == [] {
      assert a + b == b;
    } else {
      assert (a + b)[1..] == a[1..] + b;
      ToSextetsAppend(a[1..], b);
    }
  }

  lemma {:induction false} ToSextetsAt(a: seq<byte>, k: nat)
    requires forall i :: 0 <= i < |a| ==> IsBase64(a[i])
    requires k < |a|
    ensures ToSextets(a)[k] == Lookup(a[k])
  {
    hide IsBase64, SextetOf, Lookup;
    LookupIs(a[0]);
    if k > 0 {
      ToSextetsAt(a[1..], k - 1);
    }
  }

  /** `char_array_4` to `char_array_3`, after the characters in it have been looked up. */
  method Join(four: array<byte>, three: array<byte>)
    requires three.Length == 3 && four.Length == 4
    modifies three
    ensures three[..] == OctetsOf(four[0], four[1], four[2], four[3])
  {
    var w, x, y, z := four[0], four[1], four[2], four[3];
    three[0] := (w as int * 4 + x / 16 % 4) % 256;
    three[1] := (x as int % 16 * 16 + y / 4 % 16) % 256;
    three[2] := (y as int % 4 * 64 + z) % 256;
  }

  method LookupAll(four: array<byte>)
    requires four.Length == 4
    modifies four
    ensures forall k :: 0 <= k < 4 ==> four[k] == Lookup(old(four[k]))
  {
    hide Lookup;
    var j := 0;
    while j < 4
      invariant j <= 4
      invariant forall k :: 0 <= k < j ==> four[k] == Lookup(old(four[k]))
      invariant forall k :: j <= k < 4 ==> four[k] == old(four[k])
    {
      four[j] := Lookup(four[j]);
      j := j + 1;
    }
  }

  lemma LookedUp(chars: seq<byte>, four: seq<byte>)
    requires |chars| <= |four| && forall i :: 0 <= i < |chars| ==> IsBase64(chars[i]) && four[i] == Lookup(chars[i])
    ensures four[..|chars|] == ToSextets(chars)
  {
    hide IsBase64, SextetOf, Lookup;
    forall k | 0 <= k < |chars| ensures four[k] == ToSextets(chars)[k] {
      ToSextetsAt(chars, k);
    }
  }

  predicate AllBase64(s: seq<byte>) {
    forall i :: 0 <= i < |s| ==> IsBase64(s[i])
  }

  function OctetsFrom(s: seq<byte>): seq<byte>
    requires AllBase64(s)
  {
    FromSextets(ToSextets(s))
  }

  /** A group of characters, looked up, adds its octets; of the last group only those it fills. */
  lemma GroupDecodes(done: seq<byte>, chars: seq<byte>, four: seq<byte>)
    requires AllBase64(done) && AllBase64(chars) && |done| % 4 == 0 && 1 <= |chars| <= 4 == |four|
    requires forall i :: 0 <= i < |chars| ==> four[i] == Lookup(chars[i])
    ensures AllBase64(done + chars)
    ensures OctetsFrom(done + chars) == OctetsFrom(done) + OctetsOf(four[0], four[1], four[2], four[3])[..|chars| - 1]
  {
    LookedUp(chars, four);
    ToSextetsAppend(done, chars);
    hide IsBase64, Lookup, FromSextets, OctetsOf;
    var x := ToSextets(chars);
    if |chars| == 4 {
      FromGroup(ToSextets(done), x);
      assert four == x;
      hide ToSextets;
    } else {
      FromLast(ToSextets(done), x, four);
    }
  }

  /** Whole groups are done, and the next characters wait in `char_array_4`. */
  ghost predicate Reading(input: seq<byte>, four: array<byte>, done: seq<byte>, i: nat)
    reads four
  {
    && four.Length == 4 && i <= 4 && |done| % 4 == 0 && |done| + i <= |input| && done <= input && AllBase64(done)
    && forall k :: 0 <= k < i ==> four[k] == input[|done| + k] && IsBase64(four[k])
  }

  method Collect(input: seq<byte>, p: nat, four: array<byte>, i: nat, ghost done: seq<byte>)
    requires Reading(input, four, done, i) && i < 4 && p == |done| + i < |input| && IsBase64(input[p])
    modifies four
    ensures Reading(input, four, done, i + 1)
  {
    hide IsBase64;
    four[i] := input[p];
  }

  method DecodeGroup(start: seq<byte>, ghost input: seq<byte>, four: array<byte>, three: array<byte>,
          ghost done: seq<byte>)
    returns (ret: seq<byte>, ghost more: seq<byte>)
    requires Reading(input, four, done, 4) && start == OctetsFrom(done)
    requires three.Length == 3 && three != four
    modifies three, four
    ensures |more| == |done| + 4 && Reading(input, four, more, 0) && ret == OctetsFrom(more)
  {
    hide IsBase64, OctetsFrom, OctetsOf, Lookup;
    ghost var chars := four[..];
    LookupAll(four);
    Join(four, three);
    GroupDecodes(done, chars, four[..]);
    ret := start + three[..];
    assert three[..] == OctetsOf(four[0], four[1], four[2], four[3])[..3];
    more := done + chars;
    assert more == input[..|more|];
  }

  /** The loop over the input, up to the first character that is not in the alphabet. */
  method DecodeGroups(input: seq<byte>, four: array<byte>, three: array<byte>) returns (ret: seq<byte>, i: nat,
          ghost done: seq<byte>)
    requires three.Length == 3 && four.Length == 4 && three != four
    modifies three, four
    ensures i < 4 && Reading(input, four, done, i) && ret == OctetsFrom(done)
    ensures |done| + i < |input| ==> !IsBase64(input[|done| + i])
  {
    ret, i, done := [], 0, [];
    assert OctetsFrom([]) == [];
    assert Reading(input, four, [], 0);
    EqualsIsNotBase64();
    hide IsBase64, OctetsFrom, Reading;
    var p := 0;
    while p < |input| && input[p] != EQUALS && IsBase64(input[p])
      invariant p == |done| + i <= |input| && i < 4
      invariant Reading(input, four, done, i) && ret == OctetsFrom(done)
    {
      Collect(input, p, four, i, done);
      i, p := i + 1, p + 1;
      if i == 4 {
        ret, done := DecodeGroup(ret, input, four, three, done);
        i := 0;
      }
    }
  }

  lemma EqualsIsNotBase64()
    ensures !IsBase64(EQUALS)
  {
  }

  lemma {:induction false} PrefixIs(s: seq<byte>, k: nat)
    requires k <= |s| && AllBase64(s[..k]) && (k < |s| ==> !IsBase64(s[k]))
    ensures PrefixLength(s) == k
  {
    hide IsBase64, PrefixLength;
    forall i | 0 <= i < k ensures IsBase64(s[i]) {
      assert s[..k][i] == s[i];
    }
  }

  lemma ReadingIs(input: seq<byte>, four: array<byte>, done: seq<byte>, i: nat)
    requires Reading(input, four, done, i)
    ensures AllBase64(done) && |done| % 4 == 0 && AllBase64(four[..][..i])
    ensures |done| + i <= |input| && input[..|done| + i] == done + four[..][..i] && AllBase64(input[..|done| + i])
  {
    hide IsBase64;
    assert input[..|done| + i] == done + four[..][..i];
  }

  /** Nothing after the first character outside the alphabet makes a difference. */
  lemma OnlyPrefixMatters(text: seq<byte>, rest: seq<byte>)
    requires AllBase64(text) && (rest != [] ==> !IsBase64(rest[0]))
    ensures Decoded(text + rest) == OctetsFrom(text)
  {
    assert (text + rest)[..|text|] == text;
    hide IsBase64, FromSextets, ToSextets;
    PrefixIs(text + rest, |text|);
  }

  method Decode(input: seq<byte>) returns (ret: seq<byte>)
    ensures ret == Decoded(input)
  {
    var i; ghost var done;
    var four, three := new byte[4], new byte[3];
    ret, i, done := DecodeGroups(input, four, three);
    ReadingIs(input, four, done, i);
    PrefixIs(input, |done| + i);
    assert i == 0 ==> done == input[..|done|];
    hide IsBase64, PrefixLength, Reading;
    if i > 0 {
      ret := DecodeLast(ret, four, three, i, done);
    }
  }

  method DecodeLast(start: seq<byte>, four: array<byte>, three: array<byte>, i: nat,
          ghost done: seq<byte>) returns (ret: seq<byte>)
    requires three.Length == 3 && four.Length == 4 && three != four && 0 < i < 4
    requires AllBase64(done) && |done| % 4 == 0 && start == OctetsFrom(done) && AllBase64(four[..][..i])
    modifies three, four
    ensures AllBase64(done + old(four[..])[..i]) && ret == OctetsFrom(done + old(four[..])[..i])
  {
    hide IsBase64, OctetsFrom, OctetsOf, Lookup;
    ghost var chars := four[..][..i];
    var j := i;
    while j < 4
      invariant i <= j <= 4
      invariant forall k :: 0 <= k < i ==> four[k] == chars[k]
    {
      four[j] := 0;
      j := j + 1;
    }
    LookupAll(four);
    Join(four, three);
    GroupDecodes(done, chars, four[..]);
    ghost var octets := OctetsOf(four[0], four[1], four[2], four[3]);
    ret := start;
    j := 0;
    while j < i - 1
      invariant j <= i - 1 && ret == start + octets[..j]
    {
      assert three[j] == three[..][j];
      ret := ret + [three[j]];
      j := j + 1;
    }
  }
}
