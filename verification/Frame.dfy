/** The header of a WebSocket frame (section 5.2 of RFC 6455): the bits of its first two octets, the
  * extended length, and the masking key. */
module Frame {
  import opened Bytes
  import opened Masking

  const BASIC_HEADER_LENGTH: nat := 2
  const MAX_EXTENDED_HEADER_LENGTH: nat := 12
  const PAYLOAD_SIZE_BASIC: nat := 125
  const PAYLOAD_SIZE_EXTENDED: nat := 0xFFFF
  const PAYLOAD_SIZE_CODE_16BIT: Octet := 0x7E
  const PAYLOAD_SIZE_CODE_64BIT: Octet := 0x7F

  const BHB0_OPCODE: Octet := 0x0F
  const BHB0_RSV3: Octet := 0x10
  const BHB0_RSV2: Octet := 0x20
  const BHB0_RSV1: Octet := 0x40
  const BHB0_FIN: Octet := 0x80
  const BHB1_PAYLOAD: Octet := 0x7F
  const BHB1_MASK: Octet := 0x80

  /** A payload size is a 64-bit unsigned integer. */
  type Size = s: nat | s < 0x1_0000_0000_0000_0000

  datatype Flags = Flags(fin: bool, rsv1: bool, rsv2: bool, rsv3: bool)

  /** What a header says.  A frame without a masking key is not masked. */
  datatype Fields = Fields(opcode: Octet, flags: Flags, size: Size, key: Option<Key>)

  /** Opcodes have 4 bits. */
  predicate Invalid(opcode: Octet) {
    opcode > 0x0F
  }

  // ---------------------------------------------------------------- the first two octets

  datatype Basic = Basic(b0: Octet, b1: Octet)

  function GetFin(h: Basic): bool { h.b0 & BHB0_FIN == BHB0_FIN }
  function GetRsv1(h: Basic): bool { h.b0 & BHB0_RSV1 == BHB0_RSV1 }
  function GetRsv2(h: Basic): bool { h.b0 & BHB0_RSV2 == BHB0_RSV2 }
  function GetRsv3(h: Basic): bool { h.b0 & BHB0_RSV3 == BHB0_RSV3 }
  function GetOpcode(h: Basic): Octet { h.b0 & BHB0_OPCODE }
  function GetMasked(h: Basic): bool { h.b1 & BHB1_MASK == BHB1_MASK }
  function GetBasicSize(h: Basic): Octet { h.b1 & BHB1_PAYLOAD }

  function GetFlags(h: Basic): Flags {
    Flags(GetFin(h), GetRsv1(h), GetRsv2(h), GetRsv3(h))
  }

  function GetMaskingKeyOffset(h: Basic): nat {
    if GetBasicSize(h) == PAYLOAD_SIZE_CODE_16BIT then 2
    else if GetBasicSize(h) == PAYLOAD_SIZE_CODE_64BIT then 8
    else 0
  }

  function GetHeaderLen(h: Basic): (n: nat)
    ensures BASIC_HEADER_LENGTH <= n <= BASIC_HEADER_LENGTH + MAX_EXTENDED_HEADER_LENGTH
  {
    BASIC_HEADER_LENGTH + GetMaskingKeyOffset(h) + (if GetMasked(h) then 4 else 0)
  }

  /** The octet with a given number. */
  function ToOctet(n: nat): (o: Octet)
    requires n < 256
    ensures Number(o) == n
  {
    if n == 0 then 0
    else
      NextOctet(ToOctet(n - 1));
      ToOctet(n - 1) + 1
  }

  lemma NextOctet(o: Octet)
    requires o != 255
    ensures Number(o + 1) == Number(o) + 1
  {
  }

  lemma SameNumber(a: Octet, b: Octet)
    requires Number(a) == Number(b)
    ensures a == b
  {
  }

  function SizeCode(size: Size): Octet {
    if size <= PAYLOAD_SIZE_BASIC then ToOctet(size)
    else if size <= PAYLOAD_SIZE_EXTENDED then PAYLOAD_SIZE_CODE_16BIT
    else PAYLOAD_SIZE_CODE_64BIT
  }

  function If(b: bool, bit: Octet): Octet {
    if b then bit else 0
  }

  function BasicOf(f: Fields): Basic {
    Basic(If(f.flags.fin, BHB0_FIN) | If(f.flags.rsv1, BHB0_RSV1) | If(f.flags.rsv2, BHB0_RSV2)
          | If(f.flags.rsv3, BHB0_RSV3) | (f.opcode & BHB0_OPCODE),
          If(f.key.Some?, BHB1_MASK) | SizeCode(f.size))
  }

  lemma SizeCodeFits(size: Size)
    ensures SizeCode(size) & BHB1_PAYLOAD == SizeCode(size)
    ensures size <= PAYLOAD_SIZE_BASIC <==> SizeCode(size) <= 125
    ensures size <= PAYLOAD_SIZE_BASIC ==> Number(SizeCode(size)) == size
    ensures PAYLOAD_SIZE_BASIC < size <= PAYLOAD_SIZE_EXTENDED <==> SizeCode(size) == PAYLOAD_SIZE_CODE_16BIT
    ensures size > PAYLOAD_SIZE_EXTENDED <==> SizeCode(size) == PAYLOAD_SIZE_CODE_64BIT
  {
    if size <= PAYLOAD_SIZE_BASIC {
      SmallOctet(ToOctet(size));
    }
  }

  lemma SmallOctet(o: Octet)
    ensures Number(o) <= 125 <==> o <= 125
    ensures o <= 125 ==> o & 0x7F == o
  {
  }

  /** Every bit that goes in comes out, and no opcode but an invalid one is changed. */
  lemma BasicRoundTrip(f: Fields)
    ensures GetFlags(BasicOf(f)) == f.flags
    ensures GetOpcode(BasicOf(f)) == f.opcode <==> !Invalid(f.opcode)
    ensures GetMasked(BasicOf(f)) == f.key.Some?
    ensures GetBasicSize(BasicOf(f)) == SizeCode(f.size)
  {
    SizeCodeFits(f.size);
    hide SizeCode;
  }

  // ---------------------------------------------------------------- the layout of section 5.2

  function Bit(b: bool): nat {
    if b then 1 else 0
  }

  /** The first octet, as a number: the final bit on top, the reserved bits below it, and the opcode. */
  function FirstOctet(flags: Flags, opcode: nat): nat {
    128 * Bit(flags.fin) + 64 * Bit(flags.rsv1) + 32 * Bit(flags.rsv2) + 16 * Bit(flags.rsv3) + opcode % 16
  }

  /** The second octet: the mask bit on top, and the size or one of the two codes for a longer one. */
  function SecondOctet(masked: bool, size: nat): nat {
    128 * Bit(masked) + if size <= 125 then size else if size < 65536 then 126 else 127
  }

  lemma OrAdds(a: Octet, b: Octet)
    requires a & b == 0
    ensures Number(a | b) == Number(a) + Number(b)
  {
    assert a | b == a + b;
    assert a <= 255 - b;
  }

  lemma LowBits(o: Octet)
    ensures Number(o & 0x0F) == Number(o) % 16 && Number(o & 0x7F) == Number(o) % 128
  {
    hide Number;
    Parted(o);
    HighBits(o);
    OrAdds(o & 0xF0, o & 0x0F);
    OrAdds(o & 0x80, o & 0x7F);
    Remainders(Number(o), Number(o & 0xF0), Number(o & 0x0F), Number(o & 0x80), Number(o & 0x7F));
  }

  lemma Remainders(n: nat, high4: nat, low4: nat, high1: nat, low7: nat)
    requires n == high4 + low4 && high4 % 16 == 0 && low4 < 16
    requires n == high1 + low7 && high1 % 128 == 0 && low7 < 128
    ensures n % 16 == low4 && n % 128 == low7
  {
    RemainderBy16(n, high4, low4);
    RemainderBy128(n, high1, low7);
  }

  lemma RemainderBy16(n: nat, high: nat, low: nat)
    requires n == high + low && high % 16 == 0 && low < 16
    ensures n % 16 == low
  {
    assert n == 16 * (high / 16) + low;
  }

  lemma RemainderBy128(n: nat, high: nat, low: nat)
    requires n == high + low && high % 128 == 0 && low < 128
    ensures n % 128 == low
  {
    assert n == 128 * (high / 128) + low;
  }

  lemma Parted(o: Octet)
    ensures (o & 0xF0) | (o & 0x0F) == o && (o & 0xF0) & (o & 0x0F) == 0
    ensures (o & 0x80) | (o & 0x7F) == o && (o & 0x80) & (o & 0x7F) == 0
  {
  }

  lemma HighBits(o: Octet)
    ensures Number(o & 0xF0) % 16 == 0 && Number(o & 0x0F) < 16
    ensures Number(o & 0x80) % 128 == 0 && Number(o & 0x7F) < 128
  {
  }

  /** Bits and an opcode that have been put together. */
  lemma FlagsAdd(flags: Flags, opcode: Octet)
    ensures Number(If(flags.fin, 0x80) | If(flags.rsv1, 0x40) | If(flags.rsv2, 0x20) | If(flags.rsv3, 0x10)
                   | (opcode & 0x0F)) == FirstOctet(flags, Number(opcode))
  {
    hide Number;
    var fin, rsv1, rsv2 := If(flags.fin, 0x80), If(flags.rsv1, 0x40), If(flags.rsv2, 0x20);
    var rsv3, low := If(flags.rsv3, 0x10), opcode & 0x0F;
    OrAdds(fin, rsv1);
    OrAdds(fin | rsv1, rsv2);
    OrAdds(fin | rsv1 | rsv2, rsv3);
    OrAdds(fin | rsv1 | rsv2 | rsv3, low);
    LowBits(opcode);
    BitNumbers();
  }

  lemma BitNumbers()
    ensures Number(0) == 0 && Number(0x80) == 128 && Number(0x40) == 64 && Number(0x20) == 32 && Number(0x10) == 16
    ensures Number(0x7E) == 126 && Number(0x7F) == 127
  {
  }

  /** What goes out: the first two octets of a header are those of section 5.2, bit by bit. */
  lemma HeaderBits(m: Machine, f: Fields)
    ensures Number(Header(m, f)[0]) == FirstOctet(f.flags, Number(f.opcode))
    ensures Number(Header(m, f)[1]) == SecondOctet(f.key.Some?, f.size)
  {
    BasicNumbers(f);
    hide BasicOf, ExtendedOf, GetHeaderLen;
  }

  lemma BasicNumbers(f: Fields)
    ensures Number(BasicOf(f).b0) == FirstOctet(f.flags, Number(f.opcode))
    ensures Number(BasicOf(f).b1) == SecondOctet(f.key.Some?, f.size)
  {
    hide Number, SizeCode;
    FlagsAdd(f.flags, f.opcode);
    SizeCodeFits(f.size);
    BitNumbers();
    OrAdds(If(f.key.Some?, 0x80), SizeCode(f.size));
  }

  /** What comes in: for every two octets the accessors read the bits that section 5.2 puts there. */
  lemma AccessorBits(h: Basic)
    ensures GetFin(h) <==> Number(h.b0) / 128 == 1
    ensures GetRsv1(h) <==> Number(h.b0) / 64 % 2 == 1
    ensures GetRsv2(h) <==> Number(h.b0) / 32 % 2 == 1
    ensures GetRsv3(h) <==> Number(h.b0) / 16 % 2 == 1
    ensures Number(GetOpcode(h)) == Number(h.b0) % 16
    ensures GetMasked(h) <==> Number(h.b1) / 128 == 1
    ensures Number(GetBasicSize(h)) == Number(h.b1) % 128
  {
    var flags := GetFlags(h);
    FlagsAdd(flags, h.b0);
    OrParts(h.b0);
    LowBits(h.b0);
    LowBits(h.b1);
    TopBit(h.b1);
    BitParts(h.b0);
    hide Number;
    BinaryDigits(Number(h.b0), flags);
    TopBit(h.b0);
    hide *;
  }

  lemma BinaryDigits(n: nat, flags: Flags)
    requires n == FirstOctet(flags, n)
    ensures flags.fin <==> n / 128 == 1
    ensures flags.rsv1 <==> n / 64 % 2 == 1
    ensures flags.rsv2 <==> n / 32 % 2 == 1
    ensures flags.rsv3 <==> n / 16 % 2 == 1
  {
    var low := n % 16;
    assert 0 <= low < 16;
  }

  lemma TopBit(o: Octet)
    ensures o & 0x80 == 0x80 <==> Number(o) >= 128
    ensures Number(o) < 256
  {
  }

  lemma BitParts(o: Octet)
    ensures If(o & 0x80 == 0x80, 0x80) == o & 0x80 && If(o & 0x40 == 0x40, 0x40) == o & 0x40
    ensures If(o & 0x20 == 0x20, 0x20) == o & 0x20 && If(o & 0x10 == 0x10, 0x10) == o & 0x10
  {
  }

  // ---------------------------------------------------------------- numbers in network order

  /** The octets of a number, least significant first. */
  function Octets(v: nat, n: nat): (w: Word)
    ensures |w| == n
  {
    if n == 0 then [] else [ToOctet(v % 256)] + Octets(v / 256, n - 1)
  }

  lemma {:induction false} OctetsValue(v: nat, n: nat)
    requires v < Power(n)
    ensures Value(Octets(v, n)) == v
  {
    hide Number, ToOctet;
    if n > 0 {
      assert v / 256 < Power(n - 1);
      OctetsValue(v / 256, n - 1);
      assert Octets(v, n)[1..] == Octets(v / 256, n - 1);
    }
  }

  lemma {:induction false} ValueOctets(w: Word)
    ensures Octets(Value(w), |w|) == w
  {
    hide ToOctet, Number;
    if w != [] {
      ValueOctets(w[1..]);
      NumberBound(w[0]);
      Digits(Number(w[0]), Value(w[1..]));
      SameNumber(ToOctet(Number(w[0])), w[0]);
      assert w == [w[0]] + w[1..];
    }
  }

  lemma Digits(low: nat, high: nat)
    requires low < 256
    ensures (low + 256 * high) % 256 == low && (low + 256 * high) / 256 == high
  {
  }

  lemma {:induction false} OctetsPrefix(v: nat, n: nat, k: nat)
    requires k <= n
    ensures Octets(v, n)[..k] == Octets(v, k)
  {
    hide ToOctet;
    if k > 0 {
      OctetsPrefix(v / 256, n - 1, k - 1);
      assert Octets(v, n)[..k] == [ToOctet(v % 256)] + Octets(v / 256, n - 1)[..k - 1];
    }
  }

  /** `_htonll` and `_ntohll` on the octets of a word: the order of the network is big endian. */
  function ToNetwork(m: Machine, w: Word): (r: Word)
    ensures |r| == |w|
  {
    if m.little then Reversed(w) else w
  }

  method Htonll(m: Machine, src: Word) returns (r: Word)
    requires |src| == 8
    ensures r == ToNetwork(m, src)
  {
    if !m.little {
      return src;
    }
    r := src;
    r := r[0 := r[7]][7 := r[0]];
    r := r[1 := r[6]][6 := r[1]];
    r := r[2 := r[5]][5 := r[2]];
    r := r[3 := r[4]][4 := r[3]];
  }

  /** In memory, either kind of machine holds a converted number most significant octet first. */
  lemma NetworkMemory(m: Machine, w: Word)
    ensures InMemory(m, ToNetwork(m, w)) == Reversed(w)
    ensures ToNetwork(m, InMemory(m, Reversed(w))) == w
  {
    assert Reversed(Reversed(w)) == w;
  }

  // ---------------------------------------------------------------- the rest of the header

  function PayloadOffset(size: Size): nat {
    if size <= PAYLOAD_SIZE_BASIC then 8 else if size <= PAYLOAD_SIZE_EXTENDED then 6 else 0
  }

  /** `copy_payload`: the end of the size in network order. */
  function SizeOctets(m: Machine, size: Size): (r: seq<Octet>)
    ensures |r| == 8 - PayloadOffset(size)
  {
    InMemory(m, ToNetwork(m, Octets(size, 8)))[PayloadOffset(size)..]
  }

  /** The bytes of an extended header; what is not used is zero. */
  function ExtendedOf(m: Machine, f: Fields): (e: seq<Octet>)
    ensures |e| == MAX_EXTENDED_HEADER_LENGTH
  {
    var used := SizeOctets(m, f.size) + (if f.key.Some? then f.key.value else []);
    used + Zeros(MAX_EXTENDED_HEADER_LENGTH - |used|)
  }

  function PrepareHeader(h: Basic, e: seq<Octet>): (r: seq<Octet>)
    requires |e| == MAX_EXTENDED_HEADER_LENGTH
    ensures |r| == GetHeaderLen(h)
  {
    [h.b0, h.b1] + e[..GetHeaderLen(h) - BASIC_HEADER_LENGTH]
  }

  function GetMaskingKey(h: Basic, e: seq<Octet>): Key
    requires |e| == MAX_EXTENDED_HEADER_LENGTH
  {
    if !GetMasked(h) then [0, 0, 0, 0]
    else e[GetMaskingKeyOffset(h)..GetMaskingKeyOffset(h) + 4]
  }

  function GetExtendedSize(m: Machine, e: seq<Octet>): nat
    requires |e| == MAX_EXTENDED_HEADER_LENGTH
  {
    Value(ToNetwork(m, InMemory(m, e[..2])))
  }

  function GetJumboSize(m: Machine, e: seq<Octet>): nat
    requires |e| == MAX_EXTENDED_HEADER_LENGTH
  {
    Value(ToNetwork(m, InMemory(m, e[..8])))
  }

  function GetPayloadSize(m: Machine, h: Basic, e: seq<Octet>): nat
    requires |e| == MAX_EXTENDED_HEADER_LENGTH
  {
    var val := GetBasicSize(h);
    if val <= 125 then Number(val)
    else if val == PAYLOAD_SIZE_CODE_16BIT then GetExtendedSize(m, e)
    else GetJumboSize(m, e)
  }

  // ---------------------------------------------------------------- round trips

  function Header(m: Machine, f: Fields): seq<Octet> {
    PrepareHeader(BasicOf(f), ExtendedOf(m, f))
  }

  /** What a reader has taken from the front of a stream: the first two octets, and as much of the
    * extended header as they call for.  The rest of its extended header holds anything. */
  predicate ReadFrom(stream: seq<Octet>, h: Basic, e: seq<Octet>) {
    && |e| == MAX_EXTENDED_HEADER_LENGTH
    && |stream| >= GetHeaderLen(h)
    && h == Basic(stream[0], stream[1])
    && e[..GetHeaderLen(h) - BASIC_HEADER_LENGTH] == stream[BASIC_HEADER_LENGTH..GetHeaderLen(h)]
  }

  /** The first two octets of a stream. */
  function ReadBasic(stream: seq<Octet>): Basic {
    if |stream| >= 2 then Basic(stream[0], stream[1]) else Basic(0, 0)
  }

  /** As much as the stream has of what they call for, copied over whatever the buffer held. */
  function ReadExtended(stream: seq<Octet>, held: seq<Octet>): (e: seq<Octet>)
    requires |held| == MAX_EXTENDED_HEADER_LENGTH
    ensures |e| == MAX_EXTENDED_HEADER_LENGTH
  {
    var n := GetHeaderLen(ReadBasic(stream)) - BASIC_HEADER_LENGTH;
    if |stream| < BASIC_HEADER_LENGTH + n then held
    else stream[BASIC_HEADER_LENGTH..BASIC_HEADER_LENGTH + n] + held[n..]
  }

  /** What the accessors make of it. */
  function Decoded(m: Machine, h: Basic, e: seq<Octet>): (Octet, Flags, nat, Option<Key>)
    requires |e| == MAX_EXTENDED_HEADER_LENGTH
  {
    (GetOpcode(h), GetFlags(h), GetPayloadSize(m, h, e), if GetMasked(h) then Some(GetMaskingKey(h, e)) else None)
  }

  /** The size takes none, two or eight octets more, whichever is the least that holds it. */
  lemma ShortestForm(m: Machine, f: Fields)
    ensures GetMaskingKeyOffset(BasicOf(f)) == |SizeOctets(m, f.size)|
    ensures |Header(m, f)| == 2 + |SizeOctets(m, f.size)| + (if f.key.Some? then 4 else 0)
    ensures |SizeOctets(m, f.size)| == if f.size <= 125 then 0 else if f.size < Power(2) then 2 else 8
  {
    BasicRoundTrip(f);
    SizeCodeFits(f.size);
    hide BasicOf, GetBasicSize, GetMasked, SizeCode;
    assert Power(2) == 0x1_0000;
  }

  lemma SizeInOrder(m: Machine, size: Size)
    ensures SizeOctets(m, size) == Reversed(Octets(size, 8 - PayloadOffset(size)))
  {
    NetworkMemory(m, Octets(size, 8));
    OctetsPrefix(size, 8, 8 - PayloadOffset(size));
    hide Octets, ToNetwork, InMemory;
  }

  /** Everything after the first two octets. */
  function Tail(f: Fields): (r: seq<Octet>)
    ensures |r| <= MAX_EXTENDED_HEADER_LENGTH
  {
    Reversed(Octets(f.size, 8 - PayloadOffset(f.size))) + (if f.key.Some? then f.key.value else [])
  }

  /** The octets after the first two are the size, most significant first, and the key: the same on every
    * machine. */
  lemma HeaderOctets(m: Machine, f: Fields)
    ensures GetHeaderLen(BasicOf(f)) == 2 + |Tail(f)|
    ensures Header(m, f) == [BasicOf(f).b0, BasicOf(f).b1] + Tail(f)
  {
    TailLength(m, f);
    SizeInOrder(m, f.size);
    assert ExtendedOf(m, f) == Tail(f) + Zeros(MAX_EXTENDED_HEADER_LENGTH - |Tail(f)|);
    hide *;
    Starts(Tail(f), Zeros(MAX_EXTENDED_HEADER_LENGTH - |Tail(f)|));
    HeaderUnfolds(m, f);
  }

  lemma TailLength(m: Machine, f: Fields)
    ensures GetHeaderLen(BasicOf(f)) == 2 + |Tail(f)|
  {
    ShortestForm(m, f);
    BasicRoundTrip(f);
    hide BasicOf, Octets, GetMasked, GetBasicSize;
  }

  lemma HeaderUnfolds(m: Machine, f: Fields)
    ensures Header(m, f) == [BasicOf(f).b0, BasicOf(f).b1] + ExtendedOf(m, f)[..GetHeaderLen(BasicOf(f)) - 2]
  {
  }

  lemma Starts<T>(a: seq<T>, b: seq<T>)
    ensures (a + b)[..|a|] == a && (a + b)[|a|..] == b
  {
  }

  lemma TwoParts<T>(a: seq<T>, b: seq<T>, c: seq<T>)
    ensures (a + b + c)[|a|..|a| + |b|] == b && (a + b + c)[|a| + |b|..] == c
    ensures a + b + c == a + (b + c) && (a + (b + c))[|a|..] == b + c
  {
  }

  /** What a reader takes from the front of a stream that starts with a header. */
  lemma ReadBack(m: Machine, f: Fields, rest: seq<Octet>, h: Basic, e: seq<Octet>)
    requires ReadFrom(Header(m, f) + rest, h, e)
    ensures h == BasicOf(f) && GetHeaderLen(h) == |Header(m, f)| && e[..|Tail(f)|] == Tail(f)
  {
    HeaderOctets(m, f);
    TwoParts([BasicOf(f).b0, BasicOf(f).b1], Tail(f), rest);
    hide BasicOf, Tail, Header, GetHeaderLen;
    var s := Header(m, f) + rest;
    assert s[0] == BasicOf(f).b0 && s[1] == BasicOf(f).b1;
  }

  lemma TailParts(f: Fields, e: seq<Octet>)
    requires |Tail(f)| <= |e| && e[..|Tail(f)|] == Tail(f)
    ensures var n := 8 - PayloadOffset(f.size);
      && n <= |e| && e[..n] == Reversed(Octets(f.size, n))
      && (f.key.Some? ==> n + 4 <= |e| && e[n..n + 4] == f.key.value)
  {
    var n := 8 - PayloadOffset(f.size);
    hide Octets, Reversed, PayloadOffset;
    assert e[..n] == Tail(f)[..n];
    if f.key.Some? {
      assert e[n..n + 4] == Tail(f)[n..n + 4];
    }
  }

  lemma SizeReadBack(m: Machine, size: Size, e: seq<Octet>)
    requires |e| == MAX_EXTENDED_HEADER_LENGTH
    requires var n := 8 - PayloadOffset(size); e[..n] == Reversed(Octets(size, n))
    ensures PAYLOAD_SIZE_BASIC < size <= PAYLOAD_SIZE_EXTENDED ==> GetExtendedSize(m, e) == size
    ensures size > PAYLOAD_SIZE_EXTENDED ==> GetJumboSize(m, e) == size
  {
    assert Power(2) == 0x1_0000 && Power(8) == 0x1_0000_0000_0000_0000;
    var n := 8 - PayloadOffset(size);
    if n > 0 {
      NetworkMemory(m, Octets(size, n));
      OctetsValue(size, n);
    }
    hide Octets, ToNetwork, InMemory, Value, Power;
  }

  /** A stream that starts with a header has all of it. */
  lemma Readable(m: Machine, f: Fields, rest: seq<Octet>, held: seq<Octet>)
    requires |held| == MAX_EXTENDED_HEADER_LENGTH
    ensures ReadFrom(Header(m, f) + rest, ReadBasic(Header(m, f) + rest), ReadExtended(Header(m, f) + rest, held))
  {
    HeaderOctets(m, f);
    var s := Header(m, f) + rest;
    assert s[0] == BasicOf(f).b0 && s[1] == BasicOf(f).b1;
    hide BasicOf, Tail, Header, GetHeaderLen;
    assert ReadBasic(s) == BasicOf(f);
    var n := GetHeaderLen(ReadBasic(s)) - 2;
    Starts(s[2..2 + n], held[n..]);
  }

  /** Reading back a header from the front of any longer stream, on any machine, recovers every field and
    * leaves what follows.  An opcode comes back exactly if it has at most four bits. */
  lemma HeaderRoundTrip(m: Machine, reader: Machine, f: Fields, rest: seq<Octet>, held: seq<Octet>)
    requires |held| == MAX_EXTENDED_HEADER_LENGTH
    ensures var s := Header(m, f) + rest; var h, e := ReadBasic(s), ReadExtended(s, held);
      && |s| >= GetHeaderLen(h) && s[GetHeaderLen(h)..] == rest
      && (Decoded(reader, h, e) == (f.opcode, f.flags, f.size, f.key) <==> !Invalid(f.opcode))
      && Decoded(reader, h, e).1 == f.flags && Decoded(reader, h, e).2 == f.size && Decoded(reader, h, e).3 == f.key
  {
    Readable(m, f, rest, held);
    HeaderReadBack(m, reader, f, rest, ReadBasic(Header(m, f) + rest), ReadExtended(Header(m, f) + rest, held));
    hide *;
  }

  lemma HeaderReadBack(m: Machine, reader: Machine, f: Fields, rest: seq<Octet>, h: Basic, e: seq<Octet>)
    requires ReadFrom(Header(m, f) + rest, h, e)
    ensures (Header(m, f) + rest)[GetHeaderLen(h)..] == rest
    ensures Decoded(reader, h, e) == (f.opcode, f.flags, f.size, f.key) <==> !Invalid(f.opcode)
    ensures Decoded(reader, h, e).1 == f.flags && Decoded(reader, h, e).2 == f.size && Decoded(reader, h, e).3 == f.key
  {
    ReadBack(m, f, rest, h, e);
    TailParts(f, e);
    ShortestForm(m, f);
    BasicRoundTrip(f);
    PayloadSizeReadBack(reader, f, e);
    Starts(Header(m, f), rest);
    hide *;
    DecodedIs(reader, h, e);
    MaskingKeyReadBack(f, e);
  }

  lemma DecodedIs(m: Machine, h: Basic, e: seq<Octet>)
    requires |e| == MAX_EXTENDED_HEADER_LENGTH
    ensures Decoded(m, h, e)
         == (GetOpcode(h), GetFlags(h), GetPayloadSize(m, h, e),
             if GetMasked(h) then Some(GetMaskingKey(h, e)) else None)
  {
  }

  lemma PayloadSizeReadBack(m: Machine, f: Fields, e: seq<Octet>)
    requires |e| == MAX_EXTENDED_HEADER_LENGTH
    requires var n := 8 - PayloadOffset(f.size); e[..n] == Reversed(Octets(f.size, n))
    ensures GetPayloadSize(m, BasicOf(f), e) == f.size
  {
    SizeReadBack(m, f.size, e);
    BasicRoundTrip(f);
    SizeCodeFits(f.size);
    hide BasicOf, Octets, SizeCode, GetBasicSize, GetExtendedSize, GetJumboSize, Number;
  }

  lemma MaskingKeyReadBack(f: Fields, e: seq<Octet>)
    requires |e| == MAX_EXTENDED_HEADER_LENGTH && GetMaskingKeyOffset(BasicOf(f)) == 8 - PayloadOffset(f.size)
    requires GetMasked(BasicOf(f)) == f.key.Some?
    requires var n := 8 - PayloadOffset(f.size); f.key.Some? ==> e[n..n + 4] == f.key.value
    ensures f.key.Some? ==> GetMaskingKey(BasicOf(f), e) == f.key.value
  {
    hide BasicOf, GetMasked, GetMaskingKeyOffset, PayloadOffset;
  }

  /** The payload as it goes on the wire. */
  function Body(key: Option<Key>, payload: seq<Octet>): (r: seq<Octet>)
    ensures |r| == |payload|
  {
    if key.Some? then Mask(payload, key.value, 0) else payload
  }

  lemma BodyTwice(key: Option<Key>, payload: seq<Octet>)
    ensures Body(key, Body(key, payload)) == payload
  {
    if key.Some? {
      MaskTwice(payload, key.value, 0);
    }
  }

  /** A frame on the wire. */
  function Frame(m: Machine, f: Fields, payload: seq<Octet>): seq<Octet> {
    Header(m, f) + Body(f.key, payload)
  }

  /** What a reader of a stream takes for the payload, and what it leaves. */
  function TakePayload(m: Machine, stream: seq<Octet>, h: Basic, e: seq<Octet>): (seq<Octet>, seq<Octet>)
    requires ReadFrom(stream, h, e) && GetHeaderLen(h) + Decoded(m, h, e).2 <= |stream|
  {
    var start, end := GetHeaderLen(h), GetHeaderLen(h) + Decoded(m, h, e).2;
    (Body(Decoded(m, h, e).3, stream[start..end]), stream[end..])
  }

  /** A whole frame, read from the front of a stream, gives back its payload and leaves the rest. */
  lemma FrameRoundTrip(m: Machine, reader: Machine, f: Fields, payload: seq<Octet>, rest: seq<Octet>, held: seq<Octet>)
    requires |payload| == f.size && |held| == MAX_EXTENDED_HEADER_LENGTH
    ensures var s := Frame(m, f, payload) + rest; var h, e := ReadBasic(s), ReadExtended(s, held);
      && ReadFrom(s, h, e) && GetHeaderLen(h) + Decoded(reader, h, e).2 <= |s|
      && TakePayload(reader, s, h, e) == (payload, rest)
  {
    var body := Body(f.key, payload);
    Associate(Header(m, f), body, rest);
    Readable(m, f, body + rest, held);
    hide ReadBasic, ReadExtended, Header, Decoded;
    var s := Header(m, f) + (body + rest);
    FrameReadBack(m, reader, f, payload, rest, ReadBasic(s), ReadExtended(s, held));
  }

  lemma FrameReadBack(m: Machine, reader: Machine, f: Fields, payload: seq<Octet>, rest: seq<Octet>, h: Basic,
          e: seq<Octet>)
    requires |payload| == f.size && ReadFrom(Frame(m, f, payload) + rest, h, e)
    ensures GetHeaderLen(h) + Decoded(reader, h, e).2 <= |Frame(m, f, payload) + rest|
    ensures TakePayload(reader, Frame(m, f, payload) + rest, h, e) == (payload, rest)
  {
    hide ReadFrom, GetHeaderLen, Decoded, Body, Header;
    var body := Body(f.key, payload);
    TwoParts(Header(m, f), body, rest);
    ReadBack(m, f, body + rest, h, e);
    HeaderReadBack(m, reader, f, body + rest, h, e);
    BodyTwice(f.key, payload);
  }

  /** A frame is its header and then the payload, each octet of it against the octet of the key whose turn
    * it is, starting with the first. */
  lemma FrameOctets(m: Machine, f: Fields, payload: seq<Octet>, i: nat)
    requires i < |payload|
    ensures var frame, n := Frame(m, f, payload), |Header(m, f)|;
      && |frame| == n + |payload| && frame[..n] == Header(m, f)
      && frame[n + i] == if f.key.Some? then payload[i] ^ f.key.value[i % 4] else payload[i]
  {
    hide Header;
  }

  /** The extended header is as long as the longest header asks for, and no longer. */
  lemma LongestHeader(m: Machine, f: Fields)
    ensures |Header(m, f)| <= BASIC_HEADER_LENGTH + MAX_EXTENDED_HEADER_LENGTH
    ensures f.key.Some? && f.size >= 65536 ==> |Header(m, f)| == BASIC_HEADER_LENGTH + MAX_EXTENDED_HEADER_LENGTH
  {
    ShortestForm(m, f);
    hide Header;
  }

  /** The key of a header without one masks nothing. */
  lemma NoKey(h: Basic, e: seq<Octet>, payload: seq<Octet>)
    requires |e| == MAX_EXTENDED_HEADER_LENGTH && !GetMasked(h)
    ensures Mask(payload, GetMaskingKey(h, e), 0) == payload
  {
    forall i | 0 <= i < |payload|
      ensures Mask(payload, GetMaskingKey(h, e), 0)[i] == payload[i]
    {
      DifferZero(payload[i]);
    }
    hide Differ;
  }

  lemma DifferZero(o: Octet)
    ensures Differ(o, 0) == o
  {
  }

  // ---------------------------------------------------------------- headers that were not written here

  lemma CodeOrSize(h: Basic)
    ensures GetMaskingKeyOffset(h) == 0 <==> GetBasicSize(h) <= 125
    ensures GetMaskingKeyOffset(h) == 2 <==> GetBasicSize(h) == PAYLOAD_SIZE_CODE_16BIT
    ensures GetMaskingKeyOffset(h) == 8 <==> GetBasicSize(h) == PAYLOAD_SIZE_CODE_64BIT
    ensures GetMaskingKeyOffset(h) in {0, 2, 8}
  {
  }

  /** Setting the bits that were read restores the octet they were read from. */
  lemma BasicRebuilt(h: Basic, size: Size, key: Option<Key>)
    requires key.Some? == GetMasked(h)
    ensures BasicOf(Fields(GetOpcode(h), GetFlags(h), size, key)).b0 == h.b0
    ensures BasicOf(Fields(GetOpcode(h), GetFlags(h), size, key)).b1 == h.b1 <==> SizeCode(size) == GetBasicSize(h)
  {
    hide SizeCode, BasicOf, GetOpcode, GetFlags, GetMasked, GetBasicSize, If;
    SizeCodeFits(size);
    Rebuilt1(h.b1, SizeCode(size));
    BasicBits(GetOpcode(h), GetFlags(h), size, key);
    Rebuilt0(h.b0);
    AccessorMasks(h);
  }

  lemma AccessorMasks(h: Basic)
    ensures GetOpcode(h) == h.b0 & 0x0F && GetMasked(h) == (h.b1 & 0x80 == 0x80) && GetBasicSize(h) == h.b1 & 0x7F
    ensures GetFlags(h) == Flags(h.b0 & 0x80 == 0x80, h.b0 & 0x40 == 0x40, h.b0 & 0x20 == 0x20, h.b0 & 0x10 == 0x10)
  {
  }

  lemma BasicBits(opcode: Octet, flags: Flags, size: Size, key: Option<Key>)
    ensures BasicOf(Fields(opcode, flags, size, key)) ==
      Basic(If(flags.fin, 0x80) | If(flags.rsv1, 0x40) | If(flags.rsv2, 0x20) | If(flags.rsv3, 0x10) | (opcode & 0x0F),
            If(key.Some?, 0x80) | SizeCode(size))
  {
    hide SizeCode, If;
  }

  lemma Rebuilt0(b: Octet)
    ensures If(b & 0x80 == 0x80, 0x80) | If(b & 0x40 == 0x40, 0x40) | If(b & 0x20 == 0x20, 0x20)
          | If(b & 0x10 == 0x10, 0x10) | ((b & 0x0F) & 0x0F) == b
  {
    BitParts(b);
    OrParts(b);
    hide If;
  }

  lemma OrParts(b: Octet)
    ensures (b & 0x80) | (b & 0x40) | (b & 0x20) | (b & 0x10) | (b & 0x0F) == b
    ensures (b & 0x0F) & 0x0F == b & 0x0F
  {
  }

  lemma Rebuilt1(b: Octet, code: Octet)
    requires code & 0x7F == code
    ensures If(b & 0x80 == 0x80, 0x80) | code == b <==> code == b & 0x7F
  {
  }

  /** The size a header states lies within the form it is stated in. */
  lemma StatedSize(m: Machine, h: Basic, e: seq<Octet>)
    requires |e| == MAX_EXTENDED_HEADER_LENGTH
    ensures var k, size := GetMaskingKeyOffset(h), GetPayloadSize(m, h, e);
      && (k == 0 ==> size == Number(GetBasicSize(h)) <= 125)
      && (k > 0 ==> size < Power(k) && Reversed(Octets(size, k)) == e[..k])
  {
    CodeOrSize(h);
    SmallOctet(GetBasicSize(h));
    var k := GetMaskingKeyOffset(h);
    var w := Reversed(e[..k]);
    NetworkMemory(m, w);
    assert Reversed(w) == e[..k];
    ValueBound(w);
    ValueOctets(w);
    hide GetBasicSize, Octets, Value, Power, InMemory, ToNetwork;
  }

  lemma FormOfSize(m: Machine, h: Basic, e: seq<Octet>)
    requires |e| == MAX_EXTENDED_HEADER_LENGTH
    ensures var k, size := GetMaskingKeyOffset(h), GetPayloadSize(m, h, e);
      && 0 <= size < 0x1_0000_0000_0000_0000 && 8 - PayloadOffset(size) <= k
      && (SizeCode(size) == GetBasicSize(h) <==> 8 - PayloadOffset(size) == k)
  {
    CodeOrSize(h);
    StatedSize(m, h, e);
    assert Power(2) == 0x1_0000 && Power(8) == 0x1_0000_0000_0000_0000;
    hide GetBasicSize, GetPayloadSize, Power, Octets;
    var size := GetPayloadSize(m, h, e);
    SizeCodeFits(size);
    if size <= 125 {
      SmallOctet(SizeCode(size));
      if Number(SizeCode(size)) == Number(GetBasicSize(h)) {
        SameNumber(SizeCode(size), GetBasicSize(h));
      }
    }
    hide SizeCode, Number;
  }

  function FieldsOf(m: Machine, h: Basic, e: seq<Octet>): Fields
    requires |e| == MAX_EXTENDED_HEADER_LENGTH && GetPayloadSize(m, h, e) < 0x1_0000_0000_0000_0000
  {
    Fields(GetOpcode(h), GetFlags(h), GetPayloadSize(m, h, e), if GetMasked(h) then Some(GetMaskingKey(h, e)) else None)
  }

  /** Longer forms of a size are read as well.  Writing out what was read never takes more octets, and it
    * gives back the octets read exactly if they had the shortest form. */
  lemma RewritesShortest(m: Machine, reader: Machine, stream: seq<Octet>, h: Basic, e: seq<Octet>)
    requires ReadFrom(stream, h, e)
    ensures GetPayloadSize(reader, h, e) < 0x1_0000_0000_0000_0000
    ensures var again := Header(m, FieldsOf(reader, h, e));
      && |again| <= GetHeaderLen(h)
      && (again == stream[..GetHeaderLen(h)] <==> |again| == GetHeaderLen(h))
  {
    FormOfSize(reader, h, e);
    FormDecides(reader, h, e);
    RebuiltFrom(reader, h, e);
    FirstTwo(stream, h, e);
    hide *;
    var f := FieldsOf(reader, h, e);
    HeaderOctets(m, f);
    SameOctets(BasicOf(f), Tail(f), h, e[..GetHeaderLen(h) - 2]);
  }

  lemma RebuiltFrom(m: Machine, h: Basic, e: seq<Octet>)
    requires |e| == MAX_EXTENDED_HEADER_LENGTH && GetPayloadSize(m, h, e) < 0x1_0000_0000_0000_0000
    ensures var f := FieldsOf(m, h, e);
      && BasicOf(f).b0 == h.b0
      && (BasicOf(f).b1 == h.b1 <==> SizeCode(f.size) == GetBasicSize(h))
  {
    var f := FieldsOf(m, h, e);
    BasicRebuilt(h, f.size, f.key);
    hide BasicOf, SizeCode, GetBasicSize;
  }

  lemma FirstTwo(stream: seq<Octet>, h: Basic, e: seq<Octet>)
    requires ReadFrom(stream, h, e)
    ensures stream[..GetHeaderLen(h)] == [h.b0, h.b1] + e[..GetHeaderLen(h) - 2]
  {
    hide GetHeaderLen;
    assert stream[..GetHeaderLen(h)] == [stream[0], stream[1]] + stream[2..GetHeaderLen(h)];
  }

  lemma SameOctets(b: Basic, tail: seq<Octet>, h: Basic, rest: seq<Octet>)
    requires |tail| <= |rest| && b.b0 == h.b0
    requires b.b1 == h.b1 <==> |tail| == |rest|
    requires |tail| == |rest| ==> tail == rest
    ensures [b.b0, b.b1] + tail == [h.b0, h.b1] + rest <==> |tail| == |rest|
  {
    if |tail| < |rest| {
      assert |[b.b0, b.b1] + tail| < |[h.b0, h.b1] + rest|;
    }
  }

  lemma FormDecides(m: Machine, h: Basic, e: seq<Octet>)
    requires |e| == MAX_EXTENDED_HEADER_LENGTH && GetPayloadSize(m, h, e) < 0x1_0000_0000_0000_0000
    ensures var f := FieldsOf(m, h, e);
      && |Tail(f)| <= GetHeaderLen(h) - 2
      && (SizeCode(f.size) == GetBasicSize(h) <==> |Tail(f)| == GetHeaderLen(h) - 2)
      && (|Tail(f)| == GetHeaderLen(h) - 2 ==> Tail(f) == e[..GetHeaderLen(h) - 2])
  {
    FormOfSize(m, h, e);
    if |Tail(FieldsOf(m, h, e))| == GetHeaderLen(h) - 2 {
      TailRewritten(m, h, e);
    }
    hide GetBasicSize, GetMasked, GetOpcode, GetFlags, GetPayloadSize, PayloadOffset, Octets, SizeCode, Reversed,
        GetMaskingKeyOffset;
  }

  lemma TailRewritten(m: Machine, h: Basic, e: seq<Octet>)
    requires |e| == MAX_EXTENDED_HEADER_LENGTH && GetPayloadSize(m, h, e) < 0x1_0000_0000_0000_0000
    requires |Tail(FieldsOf(m, h, e))| == GetHeaderLen(h) - 2
    ensures Tail(FieldsOf(m, h, e)) == e[..GetHeaderLen(h) - 2]
  {
    StatedSize(m, h, e);
    var k, size := GetMaskingKeyOffset(h), GetPayloadSize(m, h, e);
    hide GetBasicSize, GetMasked, GetOpcode, GetFlags, GetPayloadSize, PayloadOffset, Octets, Reversed,
        GetMaskingKeyOffset, Power;
    assert 8 - PayloadOffset(size) == k;
    assert Reversed(Octets(size, k)) == e[..k];
    Adjacent(e, k, k + 4);
  }

  lemma Adjacent(e: seq<Octet>, i: nat, j: nat)
    requires i <= j <= |e|
    ensures e[..i] + e[i..j] == e[..j] && e[..i] + [] == e[..i]
  {
  }

  // ---------------------------------------------------------------- the structures

  class BasicHeader {
    var b0: Octet
    var b1: Octet

    function Bits(): Basic
      reads this
    {
      Basic(b0, b1)
    }

    constructor (f: Fields)
      ensures Bits() == BasicOf(f)
      ensures Number(b0) == FirstOctet(f.flags, Number(f.opcode)) && Number(b1) == SecondOctet(f.key.Some?, f.size)
    {
      BasicNumbers(f);
      hide If, SizeCode, Number;
      var x := FlagBits(f.flags);
      x := x | (f.opcode & BHB0_OPCODE);
      var y := SizeBits(f.key.Some?, f.size);
      b0, b1 := x, y;
    }

    static method FlagBits(flags: Flags) returns (x: Octet)
      ensures x == If(flags.fin, BHB0_FIN) | If(flags.rsv1, BHB0_RSV1) | If(flags.rsv2, BHB0_RSV2)
                   | If(flags.rsv3, BHB0_RSV3)
    {
      x := 0;
      if flags.fin {
        x := x | BHB0_FIN;
      }
      if flags.rsv1 {
        x := x | BHB0_RSV1;
      }
      if flags.rsv2 {
        x := x | BHB0_RSV2;
      }
      if flags.rsv3 {
        x := x | BHB0_RSV3;
      }
    }

    static method SizeBits(mask: bool, size: Size) returns (y: Octet)
      ensures y == If(mask, BHB1_MASK) | SizeCode(size)
    {
      y := 0;
      if mask {
        y := y | BHB1_MASK;
      }
      var basicValue: Octet;
      if size <= PAYLOAD_SIZE_BASIC {
        basicValue := ToOctet(size);
      } else if size <= PAYLOAD_SIZE_EXTENDED {
        basicValue := PAYLOAD_SIZE_CODE_16BIT;
      } else {
        basicValue := PAYLOAD_SIZE_CODE_64BIT;
      }
      y := y | basicValue;
    }

    method SetFin(value: bool)
      modifies this`b0
      ensures GetFlags(Bits()) == old(GetFlags(Bits())).(fin := value) && GetOpcode(Bits()) == old(GetOpcode(Bits()))
    {
      FlagSet(b0, BHB0_FIN, value);
      hide WithBit;
      b0 := WithBit(b0, BHB0_FIN, value);
    }

    method SetRsv1(value: bool)
      modifies this`b0
      ensures GetFlags(Bits()) == old(GetFlags(Bits())).(rsv1 := value) && GetOpcode(Bits()) == old(GetOpcode(Bits()))
    {
      FlagSet(b0, BHB0_RSV1, value);
      hide WithBit;
      b0 := WithBit(b0, BHB0_RSV1, value);
    }

    method SetRsv2(value: bool)
      modifies this`b0
      ensures GetFlags(Bits()) == old(GetFlags(Bits())).(rsv2 := value) && GetOpcode(Bits()) == old(GetOpcode(Bits()))
    {
      FlagSet(b0, BHB0_RSV2, value);
      hide WithBit;
      b0 := WithBit(b0, BHB0_RSV2, value);
    }

    method SetRsv3(value: bool)
      modifies this`b0
      ensures GetFlags(Bits()) == old(GetFlags(Bits())).(rsv3 := value) && GetOpcode(Bits()) == old(GetOpcode(Bits()))
    {
      FlagSet(b0, BHB0_RSV3, value);
      hide WithBit;
      b0 := WithBit(b0, BHB0_RSV3, value);
    }

    method SetMasked(value: bool)
      modifies this`b1
      ensures GetMasked(Bits()) == value && GetBasicSize(Bits()) == old(GetBasicSize(Bits()))
    {
      WithBitSets(b1, BHB1_MASK, value);
      WithBitKeeps(b1, BHB1_MASK, BHB1_PAYLOAD, value);
      hide WithBit;
      b1 := WithBit(b1, BHB1_MASK, value);
    }
  }

  function WithBit(o: Octet, bit: Octet, value: bool): Octet {
    if value then o | bit else o & !bit
  }

  lemma WithBitSets(o: Octet, bit: Octet, value: bool)
    requires bit != 0
    ensures WithBit(o, bit, value) & bit == bit <==> value
  {
  }

  lemma WithBitKeeps(o: Octet, bit: Octet, other: Octet, value: bool)
    requires bit & other == 0
    ensures WithBit(o, bit, value) & other == o & other
  {
  }

  lemma FlagSet(o: Octet, bit: Octet, value: bool)
    requires bit == BHB0_FIN || bit == BHB0_RSV1 || bit == BHB0_RSV2 || bit == BHB0_RSV3
    ensures var r := WithBit(o, bit, value);
      && r & BHB0_OPCODE == o & BHB0_OPCODE
      && (r & bit == bit <==> value)
      && (bit != BHB0_FIN ==> r & BHB0_FIN == o & BHB0_FIN)
      && (bit != BHB0_RSV1 ==> r & BHB0_RSV1 == o & BHB0_RSV1)
      && (bit != BHB0_RSV2 ==> r & BHB0_RSV2 == o & BHB0_RSV2)
      && (bit != BHB0_RSV3 ==> r & BHB0_RSV3 == o & BHB0_RSV3)
  {
    hide WithBit;
    WithBitSets(o, bit, value);
    WithBitKeeps(o, bit, BHB0_OPCODE, value);
    if bit != BHB0_FIN {
      WithBitKeeps(o, bit, BHB0_FIN, value);
    }
    if bit != BHB0_RSV1 {
      WithBitKeeps(o, bit, BHB0_RSV1, value);
    }
    if bit != BHB0_RSV2 {
      WithBitKeeps(o, bit, BHB0_RSV2, value);
    }
    if bit != BHB0_RSV3 {
      WithBitKeeps(o, bit, BHB0_RSV3, value);
    }
  }

  class ExtendedHeader {
    const bytes: array<Octet>

    constructor (m: Machine, f: Fields)
      ensures fresh(bytes) && bytes[..] == ExtendedOf(m, f)
    {
      var b := new Octet[MAX_EXTENDED_HEADER_LENGTH](_ => 0);
      bytes := b;
      new;
      assert bytes[..] == Zeros(MAX_EXTENDED_HEADER_LENGTH);
      var offset := CopyPayload(m, f.size);
      if f.key.Some? {
        CopyTo(f.key.value, bytes, offset);
      }
      Copied(SizeOctets(m, f.size), if f.key.Some? then f.key.value else []);
    }

    method CopyPayload(m: Machine, size: Size) returns (offset: nat)
      requires bytes.Length == MAX_EXTENDED_HEADER_LENGTH
      modifies bytes
      ensures bytes[..] == Overwritten(old(bytes[..]), 0, SizeOctets(m, size)) && offset == |SizeOctets(m, size)|
    {
      var payloadOffset := 0;
      if size <= PAYLOAD_SIZE_BASIC {
        payloadOffset := 8;
      } else if size <= PAYLOAD_SIZE_EXTENDED {
        payloadOffset := 6;
      }
      var temp64 := Htonll(m, Octets(size, 8));
      hide Octets, ToNetwork, InMemory, Overwritten;
      CopyTo(InMemory(m, temp64)[payloadOffset..], bytes, 0);
      offset := 8 - payloadOffset;
    }
  }

  lemma Copied(size: seq<Octet>, key: seq<Octet>)
    requires |size| + |key| <= MAX_EXTENDED_HEADER_LENGTH
    ensures var zeros := Zeros(MAX_EXTENDED_HEADER_LENGTH);
      && Overwritten(Overwritten(zeros, 0, size), |size|, key)
         == size + key + Zeros(MAX_EXTENDED_HEADER_LENGTH - |size + key|)
      && (key == [] ==> Overwritten(zeros, 0, size) == size + key + Zeros(MAX_EXTENDED_HEADER_LENGTH - |size + key|))
  {
  }
}
