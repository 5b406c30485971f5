/** The table-driven UTF-8 validator, and the encoding of RFC 3629 that it is to recognise. */
module Utf8 {
  import opened Bytes

  const ACCEPT := 0
  const REJECT := 1

  type State = s: int | 0 <= s < 9
  type Class = c: int | 0 <= c < 12

  /** The first 256 entries of the table: the class of each byte. */
  function ClassOf(b: byte): Class {
    if b < 0x80 then 0        // 00..7f
    else if b < 0x90 then 1   // 80..8f
    else if b < 0xA0 then 9   // 90..9f
    else if b < 0xC0 then 7   // a0..bf
    else if b < 0xC2 then 8   // c0..c1
    else if b < 0xE0 then 2   // c2..df
    else if b == 0xE0 then 10
    else if b == 0xED then 4
    else if b < 0xF0 then 3   // e1..ec, ee..ef
    else if b == 0xF0 then 11
    else if b < 0xF4 then 6   // f1..f3
    else if b == 0xF4 then 5
    else 8                    // f5..ff
  }

  /** The rest of the table: one row of next states for each state. */
  function Row(s: State): (row: seq<State>)
    ensures |row| == 16
  {
    match s
    case 0 => [0, 1, 2, 3, 5, 8, 7, 1, 1, 1, 4, 6, 1, 1, 1, 1]
    case 1 => [1, 1, 1, 1, 1, 1, 1, 1, 1, 1, 1, 1, 1, 1, 1, 1]
    case 2 => [1, 0, 1, 1, 1, 1, 1, 0, 1, 0, 1, 1, 1, 1, 1, 1]
    case 3 => [1, 2, 1, 1, 1, 1, 1, 2, 1, 2, 1, 1, 1, 1, 1, 1]
    case 4 => [1, 1, 1, 1, 1, 1, 1, 2, 1, 1, 1, 1, 1, 1, 1, 1]
    case 5 => [1, 2, 1, 1, 1, 1, 1, 1, 1, 2, 1, 1, 1, 1, 1, 1]
    case 6 => [1, 1, 1, 1, 1, 1, 1, 3, 1, 3, 1, 1, 1, 1, 1, 1]
    case 7 => [1, 3, 1, 1, 1, 1, 1, 3, 1, 3, 1, 1, 1, 1, 1, 1]
    case 8 => [1, 3, 1, 1, 1, 1, 1, 1, 1, 1, 1, 1, 1, 1, 1, 1]
  }

  /** `(0xff >> type) & byte`. */
  function LeadBits(c: Class, b: byte): nat {
    match c
    case 0 => b
    case 1 => b % 128
    case 2 => b % 64
    case 3 => b % 32
    case 4 => b % 16
    case 5 => b % 8
    case 6 => b % 4
    case 7 => b % 2
    case _ => 0
  }

  datatype Machine = Machine(state: State, codepoint: nat)

  const START := Machine(ACCEPT, 0)

  /** `decode`: one byte.  The codepoint is a 32-bit word; after the shift its low six bits are clear. */
  function Feed(m: Machine, b: byte): Machine {
    var c := ClassOf(b);
    Machine(Row(m.state)[c],
            if m.state != ACCEPT then b % 64 + m.codepoint * 64 % 0x1_0000_0000 else LeadBits(c, b))
  }

  /** `validator::decode`: byte by byte until one is rejected. */
  function Scan(m: Machine, s: seq<byte>): (Machine, bool)
    decreases |s|
  {
    if s == [] then (m, true)
    else
      var n := Feed(m, s[0]);
      if n.state == REJECT then (n, false) else Scan(n, s[1..])
  }

  /** The codepoints held at the moments the machine accepts. */
  function Emitted(m: Machine, s: seq<byte>): seq<nat>
    decreases |s|
  {
    if s == [] then []
    else
      var n := Feed(m, s[0]);
      (if n.state == ACCEPT then [n.codepoint] else []) + Emitted(n, s[1..])
  }

  predicate IsValid(s: seq<byte>) {
    var (m, ok) := Scan(START, s);
    ok && m.state == ACCEPT
  }

  /** What is accepted from a machine that stands between two characters. */
  predicate Accepts(codepoint: nat, s: seq<byte>) {
    var (m, ok) := Scan(Machine(ACCEPT, codepoint), s);
    ok && m.state == ACCEPT
  }

  // ---------------------------------------------------------------- section 3 of RFC 3629

  predicate IsScalar(c: nat) {
    c <= 0x10FFFF && !(0xD800 <= c <= 0xDFFF)
  }

  function Encode(c: nat): seq<byte>
    requires IsScalar(c)
  {
    if c < 0x80 then [c]
    else if c < 0x800 then [0xC0 + c / 0x40, 0x80 + c % 0x40]
    else if c < 0x10000 then [0xE0 + c / 0x40 / 0x40, 0x80 + c / 0x40 % 0x40, 0x80 + c % 0x40]
    else [0xF0 + c / 0x40 / 0x40 / 0x40, 0x80 + c / 0x40 / 0x40 % 0x40, 0x80 + c / 0x40 % 0x40, 0x80 + c % 0x40]
  }

  predicate AreScalars(cs: seq<nat>) {
    forall i :: 0 <= i < |cs| ==> IsScalar(cs[i])
  }

  function EncodeAll(cs: seq<nat>): seq<byte>
    requires AreScalars(cs)
  {
    if cs == [] then [] else Encode(cs[0]) + EncodeAll(cs[1..])
  }

  // ---------------------------------------------------------------- section 4 of RFC 3629

  predicate Tail(b: byte) {
    0x80 <= b < 0xC0
  }

  /** The octet sequences of one character. */
  predicate WellFormed(b: seq<byte>) {
    match |b|
    case 1 => b[0] < 0x80
    case 2 => 0xC2 <= b[0] < 0xE0 && Tail(b[1])
    case 3 =>
      && Tail(b[2])
      && (|| (b[0] == 0xE0 && 0xA0 <= b[1] < 0xC0)
          || (b[0] == 0xED && 0x80 <= b[1] < 0xA0)
          || (0xE1 <= b[0] < 0xF0 && b[0] != 0xED && Tail(b[1])))
    case 4 =>
      && Tail(b[2]) && Tail(b[3])
      && (|| (b[0] == 0xF0 && 0x90 <= b[1] < 0xC0)
          || (b[0] == 0xF4 && 0x80 <= b[1] < 0x90)
          || (0xF1 <= b[0] < 0xF4 && Tail(b[1])))
    case _ => false
  }

  function Value(b: seq<byte>): nat
    requires WellFormed(b)
  {
    match |b|
    case 1 => b[0]
    case 2 => Join(b[0] - 0xC0, b[1])
    case 3 => Join(Join(b[0] - 0xE0, b[1]), b[2])
    case _ => Join(Join(Join(b[0] - 0xF0, b[1]), b[2]), b[3])
  }

  /** Six more bits. */
  function Join(bits: nat, tail: byte): nat
    requires Tail(tail)
  {
    bits * 0x40 + (tail - 0x80)
  }

  lemma SplitJoin(bits: nat, tail: byte)
    requires Tail(tail)
    ensures Join(bits, tail) / 0x40 == bits && 0x80 + Join(bits, tail) % 0x40 == tail
  {
  }

  /** The grammar of section 4 describes exactly the encodings of section 3. */
  lemma EncodeValue(b: seq<byte>)
    requires WellFormed(b)
    ensures IsScalar(Value(b)) && Encode(Value(b)) == b
  {
    match |b|
    case 1 =>
    case 2 =>
      SplitJoin(b[0] - 0xC0, b[1]);
    case 3 =>
      var x := Join(b[0] - 0xE0, b[1]);
      SplitJoin(b[0] - 0xE0, b[1]);
      SplitJoin(x, b[2]);
      assert 0x20 <= x < 0x400 && !(0x360 <= x < 0x380);
    case _ =>
      var x := Join(b[0] - 0xF0, b[1]);
      var y := Join(x, b[2]);
      SplitJoin(b[0] - 0xF0, b[1]);
      SplitJoin(x, b[2]);
      SplitJoin(y, b[3]);
      assert 0x10 <= x < 0x110;
      assert 0x400 <= y < 0x4400;
  }

  lemma JoinSplit(c: nat)
    ensures Tail(0x80 + c % 0x40) && Join(c / 0x40, 0x80 + c % 0x40) == c
  {
  }

  lemma ValueEncode(c: nat)
    requires IsScalar(c)
    ensures WellFormed(Encode(c)) && Value(Encode(c)) == c
  {
    JoinSplit(c);
    JoinSplit(c / 0x40);
    JoinSplit(c / 0x40 / 0x40);
  }

  // ---------------------------------------------------------------- the table is the grammar

  predicate Continues(s: State, b: byte) {
    match s
    case 2 => 0x80 <= b < 0xC0
    case 3 => 0x80 <= b < 0xC0
    case 4 => 0xA0 <= b < 0xC0
    case 5 => 0x80 <= b < 0xA0
    case 6 => 0x90 <= b < 0xC0
    case 7 => 0x80 <= b < 0xC0
    case 8 => 0x80 <= b < 0x90
    case _ => false
  }

  /** Inside a character: which bytes go on, and where to. */
  lemma Continuation(m: Machine, b: byte)
    requires m.state != ACCEPT
    ensures var n := Feed(m, b);
      n.state == (if !Continues(m.state, b) then REJECT
                  else if m.state == 2 then ACCEPT
                  else if m.state <= 5 then 2
                  else 3)
      && (m.codepoint < 0x10000 && Continues(m.state, b) ==> n.codepoint == m.codepoint * 0x40 + (b - 0x80))
  {
  }

  /** Between characters: what each byte begins, and the bits it contributes. */
  lemma Lead(m: Machine, b: byte)
    requires m.state == ACCEPT
    ensures var n := Feed(m, b);
      && n.state == (if b < 0x80 then ACCEPT
                     else if 0xC2 <= b < 0xE0 then 2
                     else if b == 0xE0 then 4
                     else if b == 0xED then 5
                     else if 0xE1 <= b < 0xF0 then 3
                     else if b == 0xF0 then 6
                     else if 0xF1 <= b < 0xF4 then 7
                     else if b == 0xF4 then 8
                     else REJECT)
      && (b < 0x80 ==> n.codepoint == b)
      && (0xC2 <= b < 0xE0 ==> n.codepoint == b - 0xC0)
      && (0xE0 <= b < 0xF0 ==> n.codepoint == b - 0xE0)
      && (0xF0 <= b < 0xF5 ==> n.codepoint == b - 0xF0)
  {
  }

  /** Every octet consumed, whatever the state. */
  function FeedAll(m: Machine, s: seq<byte>): Machine
    decreases |s|
  {
    if s == [] then m else FeedAll(Feed(m, s[0]), s[1..])
  }

  /** Reject is absorbing, and a machine that is not in it has not been in it before. */
  lemma {:induction false} RejectAbsorbs(m: Machine, s: seq<byte>, i: nat)
    requires i <= |s|
    ensures FeedAll(m, s[..i]).state == REJECT ==> FeedAll(m, s).state == REJECT
    decreases |s|
  {
    if i > 0 {
      assert s[..i][1..] == s[1..][..i - 1];
      RejectAbsorbs(Feed(m, s[0]), s[1..], i - 1);
    } else {
      RejectStays(m, s);
    }
  }

  lemma {:induction false} RejectStays(m: Machine, s: seq<byte>)
    ensures m.state == REJECT ==> FeedAll(m, s).state == REJECT
    decreases |s|
  {
    if s != [] {
      RejectStays(Feed(m, s[0]), s[1..]);
    }
  }

  lemma ScanStep(m: Machine, s: seq<byte>)
    requires s != []
    ensures var n := Feed(m, s[0]);
      && Scan(m, s) == (if n.state == REJECT then (n, false) else Scan(n, s[1..]))
      && Emitted(m, s) == (if n.state == ACCEPT then [n.codepoint] else []) + Emitted(n, s[1..])
  {
  }

  /** An accepted non-empty string starts with the encoding of one scalar value, which the machine emits
    * as it accepts it, and goes on with a string that is accepted too. */
  lemma FirstCharacter(codepoint: nat, s: seq<byte>) returns (c: nat, n: nat)
    requires s != [] && Accepts(codepoint, s)
    ensures IsScalar(c) && 1 <= n <= |s| && s[..n] == Encode(c)
    ensures Accepts(c, s[n..])
    ensures Emitted(Machine(ACCEPT, codepoint), s) == [c] + Emitted(Machine(ACCEPT, c), s[n..])
  {
    var m := LeadByte(codepoint, s);
    n := 1;
    if m.state != ACCEPT {
      m := NextByte(m, s, 1);
      n := 2;
      if m.state != ACCEPT {
        m := NextByte(m, s, 2);
        n := 3;
        if m.state != ACCEPT {
          m := NextByte(m, s, 3);
          n := 4;
        }
      }
    }
    c := m.codepoint;
    assert WellFormed(s[..n]) && Value(s[..n]) == c;
    EncodeValue(s[..n]);
  }

  ghost predicate Finishes(m: Machine, t: seq<byte>) {
    var (e, ok) := Scan(m, t);
    ok && e.state == ACCEPT
  }

  /** The first byte of an accepted string. */
  lemma LeadByte(codepoint: nat, s: seq<byte>) returns (m: Machine)
    requires s != [] && Accepts(codepoint, s)
    ensures m.state == (if s[0] < 0x80 then ACCEPT
                        else if s[0] < 0xE0 then 2
                        else if s[0] == 0xE0 then 4
                        else if s[0] == 0xED then 5
                        else if s[0] < 0xF0 then 3
                        else if s[0] == 0xF0 then 6
                        else if s[0] < 0xF4 then 7
                        else 8)
    ensures s[0] < 0x80 || 0xC2 <= s[0] < 0xF5
    ensures m.codepoint == (if s[0] < 0x80 then s[0] else if s[0] < 0xE0 then s[0] - 0xC0
                            else if s[0] < 0xF0 then s[0] - 0xE0 else s[0] - 0xF0)
    ensures Finishes(m, s[1..])
    ensures Emitted(Machine(ACCEPT, codepoint), s)
         == (if m.state == ACCEPT then [m.codepoint] else []) + Emitted(m, s[1..])
  {
    var start := Machine(ACCEPT, codepoint);
    Lead(start, s[0]);
    ScanStep(start, s);
    m := Feed(start, s[0]);
  }

  /** One more byte of a character whose first `n` bytes have been read. */
  lemma NextByte(m: Machine, s: seq<byte>, n: nat) returns (m': Machine)
    requires m.state != ACCEPT && n <= |s| && m.codepoint < 0x10000 && Finishes(m, s[n..])
    requires m.state != REJECT
    ensures n < |s| && Continues(m.state, s[n])
    ensures m'.state == (if m.state == 2 then ACCEPT else if m.state <= 5 then 2 else 3)
    ensures m'.codepoint == m.codepoint * 0x40 + (s[n] - 0x80)
    ensures Finishes(m', s[n + 1..])
    ensures Emitted(m, s[n..]) == (if m'.state == ACCEPT then [m'.codepoint] else []) + Emitted(m', s[n + 1..])
  {
    var t := s[n..];
    assert t != [];
    Continuation(m, t[0]);
    ScanStep(m, t);
    m' := Feed(m, t[0]);
    assert t[1..] == s[n + 1..];
  }

  /** The machine reads the encoding of a scalar value back as that value. */
  lemma ReadsEncoding(codepoint: nat, c: nat, rest: seq<byte>)
    requires IsScalar(c)
    ensures Scan(Machine(ACCEPT, codepoint), Encode(c) + rest) == Scan(Machine(ACCEPT, c), rest)
    ensures Emitted(Machine(ACCEPT, codepoint), Encode(c) + rest) == [c] + Emitted(Machine(ACCEPT, c), rest)
  {
    var e := Encode(c);
    ValueEncode(c);
    var s := e + rest;
    var m := ReadLead(codepoint, s);
    if |e| > 1 {
      m := ReadNext(m, s, 1);
      if |e| > 2 {
        m := ReadNext(m, s, 2);
        if |e| > 3 {
          m := ReadNext(m, s, 3);
        }
      }
    }
    assert m == Machine(ACCEPT, Value(e));
    assert s[|e|..] == rest;
  }

  lemma ReadLead(codepoint: nat, s: seq<byte>) returns (m: Machine)
    requires s != [] && (s[0] < 0x80 || 0xC2 <= s[0] < 0xF5)
    ensures m.state == (if s[0] < 0x80 then ACCEPT
                        else if s[0] < 0xE0 then 2
                        else if s[0] == 0xE0 then 4
                        else if s[0] == 0xED then 5
                        else if s[0] < 0xF0 then 3
                        else if s[0] == 0xF0 then 6
                        else if s[0] < 0xF4 then 7
                        else 8)
    ensures m.codepoint == (if s[0] < 0x80 then s[0] else if s[0] < 0xE0 then s[0] - 0xC0
                            else if s[0] < 0xF0 then s[0] - 0xE0 else s[0] - 0xF0)
    ensures Scan(Machine(ACCEPT, codepoint), s) == Scan(m, s[1..])
    ensures Emitted(Machine(ACCEPT, codepoint), s)
         == (if m.state == ACCEPT then [m.codepoint] else []) + Emitted(m, s[1..])
  {
    var start := Machine(ACCEPT, codepoint);
    Lead(start, s[0]);
    ScanStep(start, s);
    m := Feed(start, s[0]);
  }

  lemma ReadNext(m: Machine, s: seq<byte>, n: nat) returns (m': Machine)
    requires m.state != ACCEPT && n < |s| && m.codepoint < 0x10000 && Continues(m.state, s[n])
    ensures m'.state == (if m.state == 2 then ACCEPT else if m.state <= 5 then 2 else 3)
    ensures m'.codepoint == m.codepoint * 0x40 + (s[n] - 0x80)
    ensures Scan(m, s[n..]) == Scan(m', s[n + 1..])
    ensures Emitted(m, s[n..]) == (if m'.state == ACCEPT then [m'.codepoint] else []) + Emitted(m', s[n + 1..])
  {
    var t := s[n..];
    Continuation(m, t[0]);
    ScanStep(m, t);
    m' := Feed(m, t[0]);
    assert t[1..] == s[n + 1..];
  }

  /** The validator accepts every UTF-8 encoding and recovers what was encoded. */
  lemma {:induction false} AcceptsEncodings(codepoint: nat, cs: seq<nat>)
    requires AreScalars(cs)
    ensures Accepts(codepoint, EncodeAll(cs)) && Emitted(Machine(ACCEPT, codepoint), EncodeAll(cs)) == cs
    decreases |cs|
  {
    if cs != [] {
      ReadsEncoding(codepoint, cs[0], EncodeAll(cs[1..]));
      AcceptsEncodings(cs[0], cs[1..]);
      assert [cs[0]] + cs[1..] == cs;
    }
  }

  /** The validator accepts nothing else: what it accepts is the encoding of what it emits. */
  lemma {:induction false} AcceptsOnlyEncodings(codepoint: nat, s: seq<byte>)
    requires Accepts(codepoint, s)
    ensures var cs := Emitted(Machine(ACCEPT, codepoint), s); AreScalars(cs) && EncodeAll(cs) == s
    decreases |s|
  {
    if s != [] {
      var c, n := FirstCharacter(codepoint, s);
      AcceptsOnlyEncodings(c, s[n..]);
      var rest := Emitted(Machine(ACCEPT, c), s[n..]);
      assert ([c] + rest)[1..] == rest;
      assert s == s[..n] + s[n..];
    }
  }

  /** The table is the grammar: a string is valid exactly when it encodes some scalar values, and then
    * they are the codepoints the machine holds each time it accepts. */
  lemma ValidIffEncoding(s: seq<byte>)
    ensures IsValid(s) <==> exists cs :: AreScalars(cs) && EncodeAll(cs) == s
    ensures forall cs :: AreScalars(cs) && EncodeAll(cs) == s ==> cs == Emitted(START, s)
  {
    if Accepts(0, s) {
      AcceptsOnlyEncodings(0, s);
    }
    forall cs | AreScalars(cs) && EncodeAll(cs) == s
      ensures IsValid(s) && cs == Emitted(START, s)
    {
      AcceptsEncodings(0, cs);
    }
  }

  // ---------------------------------------------------------------- chunks

  lemma {:induction false} ScanConcat(m: Machine, a: seq<byte>, b: seq<byte>)
    ensures Scan(m, a + b) == (var (n, ok) := Scan(m, a); if ok then Scan(n, b) else (n, false))
    decreases |a|
  {
    if a == [] {
      assert a + b == b;
    } else {
      assert (a + b)[0] == a[0] && (a + b)[1..] == a[1..] + b;
      ScanConcat(Feed(m, a[0]), a[1..], b);
    }
  }

  /** Decoding chunk after chunk, for as long as each is accepted. */
  function ScanChunks(m: Machine, chunks: seq<seq<byte>>): (Machine, bool)
    decreases |chunks|
  {
    if chunks == [] then (m, true)
    else
      var (n, ok) := Scan(m, chunks[0]);
      if ok then ScanChunks(n, chunks[1..]) else (n, false)
  }

  lemma {:induction false} ChunksAgree(m: Machine, chunks: seq<seq<byte>>)
    ensures ScanChunks(m, chunks) == Scan(m, Concat(chunks))
    decreases |chunks|
  {
    if chunks != [] {
      ScanConcat(m, chunks[0], Concat(chunks[1..]));
      ChunksAgree(Scan(m, chunks[0]).0, chunks[1..]);
    }
  }

  // ---------------------------------------------------------------- the validator object

  /** One machine stands where another does, or both have rejected. */
  predicate Tracks(m: Machine, n: Machine) {
    m.state == n.state && (m.state != REJECT ==> m == n)
  }

  /** Stopping at the first rejected octet makes no difference to where the machine ends up. */
  lemma {:induction false} ScanTracks(m: Machine, s: seq<byte>)
    ensures Tracks(Scan(m, s).0, FeedAll(m, s))
    ensures Scan(m, s).1 ==> Scan(m, s).0 == FeedAll(m, s)
    ensures m.state != REJECT ==> (Scan(m, s).1 <==> FeedAll(m, s).state != REJECT)
    decreases |s|
  {
    if s != [] {
      var n := Feed(m, s[0]);
      RejectStays(n, s[1..]);
      ScanTracks(n, s[1..]);
    }
  }

  lemma {:induction false} FeedAllTracks(m: Machine, n: Machine, s: seq<byte>)
    requires Tracks(m, n)
    ensures Tracks(FeedAll(m, s), FeedAll(n, s))
  {
    if m.state == REJECT {
      RejectStays(m, s);
      RejectStays(n, s);
    }
  }

  lemma {:induction false} FeedAllAppend(m: Machine, a: seq<byte>, b: seq<byte>)
    ensures FeedAll(m, a + b) == FeedAll(FeedAll(m, a), b)
    decreases |a|
  {
    if a == [] {
      assert a + b == b;
    } else {
      assert (a + b)[0] == a[0] && (a + b)[1..] == a[1..] + b;
      FeedAllAppend(Feed(m, a[0]), a[1..], b);
    }
  }

  /** The octets decoded so far are the encoding of some scalar values exactly when the machine accepts. */
  lemma AcceptingIffEncoding(m: Machine, text: seq<byte>)
    requires Tracks(m, FeedAll(START, text))
    ensures m.state == ACCEPT <==> exists cs :: AreScalars(cs) && EncodeAll(cs) == text
  {
    ScanTracks(START, text);
    ValidIffEncoding(text);
    hide Scan, FeedAll, EncodeAll;
  }

  lemma DecodedMore(m: Machine, text: seq<byte>, s: seq<byte>, n: Machine)
    requires Tracks(m, FeedAll(START, text)) && Tracks(n, FeedAll(m, s))
    ensures Tracks(n, FeedAll(START, text + s))
  {
    FeedAllAppend(START, text, s);
    FeedAllTracks(m, FeedAll(START, text), s);
    hide FeedAll;
  }

  class Validator {
    var state: State
    var codepoint: nat
    /** What was decoded since the last reset. */
    ghost var text: seq<byte>

    ghost function Held(): Machine
      reads this
    {
      Machine(state, codepoint)
    }

    ghost predicate Valid()
      reads this
    {
      Tracks(Held(), FeedAll(START, text))
    }

    constructor ()
      ensures Held() == START && text == [] && Valid()
    {
      state, codepoint, text := ACCEPT, 0, [];
    }

    method Step(b: byte) returns (result: State)
      modifies this
      ensures Held() == Feed(old(Held()), b) && result == state
      ensures text == old(text) + [b] && (old(Valid()) ==> Valid())
    {
      ghost var m := Held();
      var c := ClassOf(b);
      codepoint := if state != ACCEPT then b % 64 + codepoint * 64 % 0x1_0000_0000 else LeadBits(c, b);
      state := Row(state)[c];
      result := state;
      text := text + [b];
      if old(Valid()) {
        FedOne(m, b);
        DecodedMore(m, old(text), [b], Held());
      }
    }

    static lemma FedOne(m: Machine, b: byte)
      ensures FeedAll(m, [b]) == Feed(m, b)
    {
      assert FeedAll(Feed(m, b), [b][1..]) == Feed(m, b);
    }

    method Consume(b: byte) returns (ok: bool)
      modifies this
      ensures Held() == Feed(old(Held()), b) && ok == (state != REJECT)
      ensures text == old(text) + [b] && (old(Valid()) ==> Valid())
    {
      var result := Step(b);
      if result == REJECT {
        return false;
      }
      return true;
    }

    method Decode(s: seq<byte>) returns (ok: bool)
      modifies this
      ensures (Held(), ok) == Scan(old(Held()), s)
      ensures text == old(text) + s && (old(Valid()) ==> Valid())
    {
      var i := 0;
      while i < |s|
        invariant 0 <= i <= |s|
        invariant Scan(old(Held()), s) == Scan(Held(), s[i..])
      {
        var result := Step(s[i]);
        if result == REJECT {
          Decoded(s, old(Held()), old(text));
          return false;
        }
        i := i + 1;
      }
      Decoded(s, old(Held()), old(text));
      return true;
    }

    ghost method Decoded(s: seq<byte>, m: Machine, before: seq<byte>)
      requires Held() == Scan(m, s).0
      modifies this`text
      ensures text == before + s && (Tracks(m, FeedAll(START, before)) ==> Valid())
    {
      text := before + s;
      ScanTracks(m, s);
      if Tracks(m, FeedAll(START, before)) {
        DecodedMore(m, before, s, Held());
      }
    }

    /** Whether what was decoded ends on a whole character and nothing in it was rejected. */
    method Complete() returns (ok: bool)
      requires Valid()
      ensures ok <==> exists cs :: AreScalars(cs) && EncodeAll(cs) == text
    {
      AcceptingIffEncoding(Held(), text);
      return state == ACCEPT;
    }

    method Reset()
      modifies this
      ensures Held() == START && text == [] && Valid()
    {
      state, codepoint, text := ACCEPT, 0, [];
    }
  }

  method Validate(s: seq<byte>) returns (ok: bool)
    ensures ok <==> exists cs :: AreScalars(cs) && EncodeAll(cs) == s
    ensures ok == IsValid(s)
  {
    ValidIffEncoding(s);
    var v := new Validator();
    ok := v.Decode(s);
    if !ok {
      return false;
    }
    ok := v.Complete();
  }
}
