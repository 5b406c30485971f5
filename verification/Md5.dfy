/** The incremental MD5 digest (RFC 1321).  The compression of one block, section 3.4, is a parameter:
  * nothing here depends on what it computes. */
module Md5 {
  import opened Bytes

  const TWO_32: nat := 0x1_0000_0000
  const TWO_64: nat := 0x1_0000_0000_0000_0000

  type Word32 = w: nat | w < TWO_32

  datatype Registers = Registers(a: Word32, b: Word32, c: Word32, d: Word32)

  /** Section 3.3. */
  const INITIAL := Registers(0x67452301, 0xefcdab89, 0x98badcfe, 0x10325476)

  type Compression = (Registers, seq<byte>) -> Registers

  // ---------------------------------------------------------------- one message at once

  /** Section 3.4 over a whole number of blocks. */
  function Fold(f: Compression, r: Registers, blocks: seq<byte>): Registers
    requires |blocks| % 64 == 0
    decreases |blocks|
  {
    if blocks == [] then r else Fold(f, f(r, blocks[..64]), blocks[64..])
  }

  function Zeros(n: nat): (z: seq<byte>)
    ensures |z| == n
  {
    seq(n, _ => 0)
  }

  /** The octets of a number, least significant first. */
  function LittleEndian(v: nat, n: nat): (s: seq<byte>)
    ensures |s| == n
  {
    if n == 0 then [] else [v % 256] + LittleEndian(v / 256, n - 1)
  }

  /** How many octets section 3.1 appends: at least one, up to 56 modulo 64. */
  function PadLength(length: nat): (n: nat)
    ensures 1 <= n <= 64
    ensures (length + n) % 64 == 56
  {
    (55 - length) % 64 + 1
  }

  lemma PaddedLength(length: nat)
    ensures (length + PadLength(length) + 8) % 64 == 0
  {
    NextBlock(length + PadLength(length));
  }

  lemma NextBlock(n: nat)
    requires n % 64 == 56
    ensures (n + 8) % 64 == 0
  {
  }

  function Pad(n: nat): (s: seq<byte>)
    requires n > 0
    ensures |s| == n
  {
    [0x80] + Zeros(n - 1)
  }

  /** Sections 3.1 and 3.2: the message, padded, and its length in bits modulo 2 to the 64. */
  function Padded(m: seq<byte>): (p: seq<byte>)
    ensures |p| == |m| + PadLength(|m|) + 8 && |p| % 64 == 0
  {
    PaddedLength(|m|);
    m + Pad(PadLength(|m|)) + LittleEndian(8 * |m| % TWO_64, 8)
  }

  /** Section 3.5. */
  function Output(r: Registers): (s: seq<byte>)
    ensures |s| == 16
  {
    Spreaded([r.a, r.b, r.c, r.d])
  }

  function Digest(f: Compression, m: seq<byte>): seq<byte> {
    Output(Fold(f, INITIAL, Padded(m)))
  }

  // ---------------------------------------------------------------- what a message leaves behind

  /** The whole blocks of a message, and what follows them. */
  function Whole(m: seq<byte>): (w: seq<byte>)
    ensures |w| == |m| - |m| % 64
  {
    m[..|m| - |m| % 64]
  }

  function Rest(m: seq<byte>): (t: seq<byte>)
    ensures |t| == |m| % 64
  {
    m[|m| - |m| % 64..]
  }

  lemma WholeRest(m: seq<byte>)
    ensures Whole(m) + Rest(m) == m
  {
  }

  lemma {:induction false} FoldAppend(f: Compression, r: Registers, a: seq<byte>, b: seq<byte>)
    requires |a| % 64 == 0 && |b| % 64 == 0
    ensures Fold(f, r, a + b) == Fold(f, Fold(f, r, a), b)
    decreases |a|
  {
    if a == [] {
      assert a + b == b;
    } else {
      assert (a + b)[..64] == a[..64] && (a + b)[64..] == a[64..] + b;
      FoldAppend(f, f(r, a[..64]), a[64..], b);
    }
  }

  lemma FoldOne(f: Compression, r: Registers, block: seq<byte>)
    requires |block| == 64
    ensures Fold(f, r, block) == f(r, block)
  {
    assert block[..64] == block && block[64..] == [];
  }

  /** Appending to a message only concerns what its whole blocks left over. */
  lemma AppendBlocks(m: seq<byte>, data: seq<byte>)
    ensures Whole(m + data) == Whole(m) + Whole(Rest(m) + data)
    ensures Rest(m + data) == Rest(Rest(m) + data)
  {
    var s := Rest(m) + data;
    assert (|m| + |data|) % 64 == |s| % 64 by {
      SameRest(|m|, |data|);
    }
    WholeRest(m);
    assert m + data == Whole(m) + s;
    assert |Whole(m + data)| == |Whole(m)| + |Whole(s)|;
  }

  lemma SameRest(a: nat, b: nat)
    ensures (a % 64 + b) % 64 == (a + b) % 64
  {
  }

  /** The registers, the count of bits and the buffer hold what a message amounts to so far. */
  ghost predicate Holds(f: Compression, m: seq<byte>, count0: Word32, count1: Word32, abcd: Registers, buf: seq<byte>) {
    && count0 + TWO_32 * count1 == 8 * |m| % TWO_64
    && abcd == Fold(f, INITIAL, Whole(m))
    && |buf| == 64 && buf[..|m| % 64] == Rest(m)
  }

  // ---------------------------------------------------------------- padding

  lemma {:induction false} LittleEndianInjective(v: nat, w: nat, n: nat)
    requires LittleEndian(v, n) == LittleEndian(w, n)
    requires v < Power(n) && w < Power(n)
    ensures v == w
  {
    if n > 0 {
      assert LittleEndian(v, n)[0] == LittleEndian(w, n)[0];
      assert LittleEndian(v, n)[1..] == LittleEndian(w, n)[1..];
      LittleEndianInjective(v / 256, w / 256, n - 1);
    }
  }

  /** No two messages have the same padded form, whatever their lengths. */
  lemma PaddingIsInjective(a: seq<byte>, b: seq<byte>)
    requires Padded(a) == Padded(b)
    ensures a == b
  {
    var p, n := Padded(a), |Padded(a)|;
    assert p[n - 8..] == LittleEndian(8 * |a| % TWO_64, 8) && p[n - 8..] == LittleEndian(8 * |b| % TWO_64, 8);
    assert Power(8) == TWO_64;
    LittleEndianInjective(8 * |a| % TWO_64, 8 * |b| % TWO_64, 8);
    CloseLengths(|a|, |b|);
    assert a == p[..|a|] && b == p[..|b|];
  }

  lemma CloseLengths(a: nat, b: nat)
    requires a + PadLength(a) == b + PadLength(b) && 8 * a % TWO_64 == 8 * b % TWO_64
    ensures a == b
  {
  }

  /** The number that octets spell, least significant first. */
  function Spelled(s: seq<byte>): nat {
    if s == [] then 0 else s[0] + 256 * Spelled(s[1..])
  }

  lemma {:induction false} LittleEndianSpells(v: nat, n: nat)
    requires v < Power(n)
    ensures Spelled(LittleEndian(v, n)) == v
  {
    if n > 0 {
      assert v / 256 < Power(n - 1);
      LittleEndianSpells(v / 256, n - 1);
      assert LittleEndian(v, n)[1..] == LittleEndian(v / 256, n - 1);
    }
  }

  /** Sections 3.1 and 3.2: after the message come one bit and then only zeros, as few as bring the length to
    * 448 modulo 512 bits, and then the length in bits, modulo 2 to the 64, least significant octet first. */
  lemma PaddingIs(m: seq<byte>)
    ensures var p := Padded(m); var n := |p|;
      && p[..|m|] == m && p[|m|] == 128
      && (forall i :: |m| < i < n - 8 ==> p[i] == 0)
      && n % 64 == 0 && |m| + 9 <= n <= |m| + 72
      && Spelled(p[n - 8..]) == 8 * |m| % 0x1_0000_0000_0000_0000
  {
    var p, n := Padded(m), |Padded(m)|;
    assert Power(8) == TWO_64;
    assert p[n - 8..] == LittleEndian(8 * |m| % TWO_64, 8);
    LittleEndianSpells(8 * |m| % TWO_64, 8);
  }

  /** Section 3.3: the registers start out with the digits counted up and then down, low order first. */
  lemma RegistersInOrder()
    ensures LittleEndian(INITIAL.a, 4) == [0x01, 0x23, 0x45, 0x67]
    ensures LittleEndian(INITIAL.b, 4) == [0x89, 0xab, 0xcd, 0xef]
    ensures LittleEndian(INITIAL.c, 4) == [0xfe, 0xdc, 0xba, 0x98]
    ensures LittleEndian(INITIAL.d, 4) == [0x76, 0x54, 0x32, 0x10]
  {
    hide LittleEndian;
    InOrder(0x67452301, [0x01, 0x23, 0x45, 0x67]);
    InOrder(0xefcdab89, [0x89, 0xab, 0xcd, 0xef]);
    InOrder(0x98badcfe, [0xfe, 0xdc, 0xba, 0x98]);
    InOrder(0x10325476, [0x76, 0x54, 0x32, 0x10]);
  }

  /** Section 3.5: the digest is the registers one after the other, each low order first. */
  lemma OutputIs(r: Registers)
    ensures Output(r)
         == LittleEndian(r.a, 4) + (LittleEndian(r.b, 4) + (LittleEndian(r.c, 4) + LittleEndian(r.d, 4)))
  {
    hide LittleEndian;
    SpreadedNext(r.a, [r.b, r.c, r.d]);
    SpreadedNext(r.b, [r.c, r.d]);
    SpreadedNext(r.c, [r.d]);
    SpreadedNext(r.d, []);
    assert [r.a] + [r.b, r.c, r.d] == [r.a, r.b, r.c, r.d] && [r.b] + [r.c, r.d] == [r.b, r.c, r.d];
    assert [r.c] + [r.d] == [r.c, r.d] && [r.d] + [] == [r.d];
    assert LittleEndian(r.d, 4) + Spreaded([]) == LittleEndian(r.d, 4);
    hide Spreaded;
  }

  lemma SpreadedNext(w: Word32, rest: seq<Word32>)
    ensures Spreaded([w] + rest) == LittleEndian(w, 4) + Spreaded(rest)
  {
    assert ([w] + rest)[1..] == rest;
  }

  lemma InOrder(w: Word32, s: seq<byte>)
    requires |s| == 4 && w == s[0] + 0x100 * s[1] as int + 0x1_0000 * s[2] as int + 0x100_0000 * s[3] as int
    ensures LittleEndian(w, 4) == s
  {
    var w1 := s[1] + 0x100 * s[2] as int + 0x1_0000 * s[3] as int;
    var w2 := s[2] + 0x100 * s[3] as int;
    assert w == s[0] + 256 * w1 && w1 == s[1] + 256 * w2;
    assert w / 256 == w1 && w % 256 == s[0];
    assert w1 / 256 == w2 && w1 % 256 == s[1];
    assert w2 / 256 == s[3] && w2 % 256 == s[2];
    assert LittleEndian(s[3], 1) == [s[3]];
    assert LittleEndian(w2, 2) == [s[2]] + LittleEndian(s[3], 1);
    assert LittleEndian(w1, 3) == [s[1]] + LittleEndian(w2, 2);
  }

  // ---------------------------------------------------------------- the algorithm

  class State {
    /** The message length in bits, least significant word first. */
    var count0: Word32
    var count1: Word32
    var abcd: Registers
    const buf: array<byte>
    const compress: Compression

    ghost predicate Holding(m: seq<byte>)
      reads this, buf
    {
      Holds(compress, m, count0, count1, abcd, buf[..])
    }

    constructor (f: Compression)
      ensures Holding([]) && fresh(buf) && compress == f
    {
      compress := f;
      count0, count1 := 0, 0;
      abcd := Registers(0x67452301, 0xefcdab89, 0x98badcfe, 0x10325476);
      buf := new byte[64](_ => 0);
    }

    method Process(block: seq<byte>)
      requires |block| == 64
      modifies this`abcd
      ensures abcd == compress(old(abcd), block)
    {
      abcd := compress(abcd, block);
    }

    /** Add to the 64-bit count in two 32-bit words. */
    method Count(nbytes: nat)
      modifies this`count0, this`count1
      ensures count0 + TWO_32 * count1 == (old(count0) + TWO_32 * old(count1) + 8 * nbytes) % TWO_64
    {
      var nbits: Word32 := nbytes * 8 % TWO_32;
      var high := nbytes / 0x2000_0000;
      SplitBits(nbytes);
      Carried(count0, count1, nbits, high);
      count1 := Wrap(count1 + high);
      count0 := Wrap(count0 + nbits);
      if count0 < nbits {
        count1 := Wrap(count1 + 1);
      }
    }

    /** `md5_append`: what holds for a message before holds for the longer message after. */
    method Append(data: seq<byte>, ghost m: seq<byte>)
      requires Holding(m)
      modifies this`count0, this`count1, this`abcd, buf
      ensures Holding(m + data)
    {
      if |data| == 0 {
        assert m + data == m;
        return;
      }
      var offset := count0 / 8 % 64;
      OffsetIsRest(|m|, count0, count1);
      Count(|data|);
      LongerCount(|m|, |data|);
      hide Fold, Whole, Rest;
      AppendOctets(data, offset, m);
    }

    /** All of it but the count. */
    method AppendOctets(data: seq<byte>, offset: nat, ghost m: seq<byte>)
      requires buf.Length == 64 && offset == |m| % 64 && buf[..][..offset] == Rest(m) && data != []
      requires abcd == Fold(compress, INITIAL, Whole(m))
      modifies this`abcd, buf
      ensures abcd == Fold(compress, INITIAL, Whole(m + data)) && buf[..][..|m + data| % 64] == Rest(m + data)
    {
      hide Fold, Whole, Rest, Overwritten, Processed;
      ghost var r := abcd;
      var p, whole := FillBlock(data, offset, m);
      if !whole {
        ShortAppend(compress, m, data, abcd, buf[..]);
        return;
      }
      ghost var s := Rest(m) + data;
      p := ProcessBlocks(data, p, s, offset + p, r);
      SavePartial(data, p);
      LongAppend(compress, m, data, p, offset + p, abcd, buf[..]);
    }

    method SavePartial(data: seq<byte>, p: nat)
      requires buf.Length == 64 && p <= |data| < p + 64
      modifies buf
      ensures buf[..][..|data| - p] == data[p..]
    {
      if p < |data| {
        CopyTo(data[p..], buf, 0);
      }
    }

    /** `md5_finish`. */
    method Finish(ghost m: seq<byte>) returns (digest: seq<byte>)
      requires Holding(m)
      modifies this`count0, this`count1, this`abcd, buf
      ensures digest == Digest(compress, m)
    {
      HeldCount(compress, m, count0, count1, abcd, buf[..]);
      hide *;
      var data := Spread([count0, count1]);
      var n := PadFromCount(count0, |m|, count1);
      Append(Pad(n), m);
      Append(data, m + Pad(n));
      FinishedRegisters(compress, m, n, data, count0, count1, abcd, buf[..]);
      digest := Spread([abcd.a, abcd.b, abcd.c, abcd.d]);
    }

    /** The initial partial block, if there is one: completed and processed, or just longer. */
    method FillBlock(data: seq<byte>, offset: nat, ghost m: seq<byte>) returns (p: nat, whole: bool)
      requires buf.Length == 64 && offset == |m| % 64 && buf[..][..offset] == Rest(m) && data != []
      modifies this`abcd, buf
      ensures whole <==> offset == 0 || offset + |data| >= 64
      ensures !whole ==> abcd == old(abcd) && buf[..][..offset + |data|] == Rest(m) + data
      ensures whole ==> p <= |data| && offset + p <= |Rest(m) + data| && (Rest(m) + data)[offset + p..] == data[p..]
      ensures whole ==> Processed(compress, old(abcd), Rest(m) + data, offset + p, abcd)
    {
      if offset == 0 {
        Nothing(compress, abcd, Rest(m) + data);
        return 0, true;
      }
      var copy := if offset + |data| > 64 then 64 - offset else |data|;
      Filled(buf[..], offset, data, copy, Rest(m));
      hide Fold, Rest, Overwritten;
      CopyTo(data[..copy], buf, offset);
      if offset + copy < 64 {
        return 0, false;
      }
      p := copy;
      Processes(compress, abcd, Rest(m) + data, 0, abcd, buf[..]);
      Process(buf[..]);
      whole := true;
    }

    /** The loop over whole blocks of the input. */
    method ProcessBlocks(data: seq<byte>, first: nat, ghost s: seq<byte>, ghost k0: nat,
            ghost r: Registers) returns (p: nat)
      requires first <= |data| && |s| - k0 == |data| - first && k0 <= |s| && s[k0..] == data[first..]
      requires Processed(compress, r, s, k0, abcd)
      modifies this`abcd
      ensures first <= p <= |data| < p + 64
      ensures Processed(compress, r, s, k0 + (p - first), abcd) && s[k0 + (p - first)..] == data[p..]
    {
      hide Processed;
      p := first;
      ghost var k := k0;
      while |data| - p >= 64
        invariant first <= p <= |data| && k == k0 + (p - first) && |s| - k == |data| - p
        invariant s[k..] == data[p..]
        invariant Processed(compress, r, s, k, abcd)
        decreases |data| - p
      {
        SameBlock(s, k, data, p);
        Processes(compress, r, s, k, abcd, data[p..p + 64]);
        Process(data[p..p + 64]);
        p, k := p + 64, k + 64;
      }
    }
  }

  /** So many octets of `s` have gone through the compression. */
  ghost predicate Processed(f: Compression, r: Registers, s: seq<byte>, k: nat, abcd: Registers) {
    k <= |s| && k % 64 == 0 && abcd == Fold(f, r, s[..k])
  }

  lemma Nothing(f: Compression, r: Registers, s: seq<byte>)
    ensures Processed(f, r, s, 0, r)
  {
  }

  lemma Processes(f: Compression, r: Registers, s: seq<byte>, k: nat, abcd: Registers, block: seq<byte>)
    requires k + 64 <= |s| && block == s[k..k + 64]
    requires Processed(f, r, s, k, abcd) || (k == 0 && abcd == r)
    ensures Processed(f, r, s, k + 64, f(abcd, block))
  {
    FoldAppend(f, r, s[..k], block);
    FoldOne(f, abcd, block);
    assert s[..k + 64] == s[..k] + block;
  }

  lemma SameBlock(s: seq<byte>, k: nat, data: seq<byte>, p: nat)
    requires k + 64 <= |s| && p + 64 <= |data| && s[k..] == data[p..]
    ensures s[k..k + 64] == data[p..p + 64] && s[k + 64..] == data[p + 64..]
  {
    assert s[k..][..64] == data[p..][..64] && s[k..][64..] == data[p..][64..];
  }

  lemma Filled(buf: seq<byte>, offset: nat, data: seq<byte>, copy: nat, rest: seq<byte>)
    requires |buf| == 64 && offset < 64 && rest == buf[..offset]
    requires copy == if offset + |data| > 64 then 64 - offset else |data|
    ensures Overwritten(buf, offset, data[..copy])[..offset + copy] == (rest + data)[..offset + copy]
    ensures copy == |data| ==> (rest + data)[..offset + copy] == rest + data
    ensures offset + copy == 64 ==> Overwritten(buf, offset, data[..copy]) == (rest + data)[0..64]
    ensures (rest + data)[offset + copy..] == data[copy..]
  {
  }

  lemma OffsetIsRest(length: nat, count0: Word32, count1: Word32)
    requires count0 + TWO_32 * count1 == 8 * length % TWO_64
    ensures count0 / 8 % 64 == length % 64
  {
    var q := 8 * length / TWO_64;
    assert 8 * length == TWO_64 * q + 8 * length % TWO_64;
    var t := 0x80_0000_0000_0000 * q + 0x80_0000 * count1;
    assert count0 == 8 * (length - 64 * t);
    assert count0 / 8 == length - 64 * t;
    Mod64(count0 / 8, t);
  }

  lemma Mod64(a: nat, t: nat)
    ensures (a + 64 * t) % 64 == a % 64
  {
  }

  lemma LongerCount(a: nat, b: nat)
    ensures (8 * a % TWO_64 + 8 * b) % TWO_64 == 8 * (a + b) % TWO_64
  {
    var q := 8 * a / TWO_64;
    assert 8 * a == TWO_64 * q + 8 * a % TWO_64;
    var t := 8 * a % TWO_64 + 8 * b;
    ModOf(t / TWO_64, t % TWO_64);
    ModOf(q + t / TWO_64, t % TWO_64);
  }

  lemma ShortAppend(f: Compression, m: seq<byte>, data: seq<byte>, abcd: Registers, buf: seq<byte>)
    requires |buf| == 64 && abcd == Fold(f, INITIAL, Whole(m))
    requires |m| % 64 + |data| < 64 && buf[..|m| % 64 + |data|] == Rest(m) + data
    ensures abcd == Fold(f, INITIAL, Whole(m + data)) && buf[..|m + data| % 64] == Rest(m + data)
  {
    AppendBlocks(m, data);
    var s := Rest(m) + data;
    SmallRest(s);
    hide Whole, Rest, Fold;
    assert Whole(m) + [] == Whole(m);
    assert |Rest(m + data)| == |s|;
  }

  lemma SmallRest(s: seq<byte>)
    requires |s| < 64
    ensures Whole(s) == [] && Rest(s) == s
  {
  }

  lemma SplitAt(s: seq<byte>, k: nat)
    requires k <= |s| < k + 64 && k % 64 == 0
    ensures Whole(s) == s[..k] && Rest(s) == s[k..]
  {
    assert |s| % 64 == |s| - k;
  }

  lemma LongAppend(f: Compression, m: seq<byte>, data: seq<byte>, p: nat, k: nat, abcd: Registers, buf: seq<byte>)
    requires p <= |data| < p + 64 && |buf| == 64 && buf[..|data| - p] == data[p..]
    requires Processed(f, Fold(f, INITIAL, Whole(m)), Rest(m) + data, k, abcd) && (Rest(m) + data)[k..] == data[p..]
    ensures abcd == Fold(f, INITIAL, Whole(m + data)) && buf[..|m + data| % 64] == Rest(m + data)
  {
    AppendBlocks(m, data);
    var s := Rest(m) + data;
    SplitAt(s, k);
    FoldAppend(f, INITIAL, Whole(m), s[..k]);
    hide Whole, Rest, Fold;
    assert |Rest(m + data)| == |data| - p;
  }

  /** 32-bit arithmetic. */
  function Wrap(n: nat): Word32 {
    n % TWO_32
  }

  lemma SplitBits(n: nat)
    ensures 8 * n == TWO_32 * (n / 0x2000_0000) + 8 * n % TWO_32
  {
    var r := n % 0x2000_0000;
    assert 8 * n == TWO_32 * (n / 0x2000_0000) + 8 * r;
    WrapOf(n / 0x2000_0000, 8 * r);
  }

  lemma WrapOf(q: nat, r: Word32)
    ensures Wrap(TWO_32 * q + r) == r
  {
  }

  lemma Carried(low: Word32, high: Word32, bits: Word32, more: nat)
    ensures var l, h := Wrap(low + bits), Wrap(high + more);
      l + TWO_32 * (if l < bits then Wrap(h + 1) else h) == (low + TWO_32 * high + (TWO_32 * more + bits)) % TWO_64
  {
    var l := Wrap(low + bits);
    var c := if l < bits then 1 else 0;
    assert low + bits == l + TWO_32 * c;
    WrapAgain(high + more, c);
    Wrap64(l, high + more + c);
  }

  lemma WrapAgain(h: nat, c: nat)
    ensures Wrap(Wrap(h) + c) == Wrap(h + c)
  {
    var q := h / TWO_32;
    assert h == TWO_32 * q + Wrap(h);
    var s := Wrap(h) + c;
    WrapOf(s / TWO_32, Wrap(s));
    WrapOf(q + s / TWO_32, Wrap(s));
  }

  lemma Wrap64(l: Word32, h: nat)
    ensures (l + TWO_32 * h) % TWO_64 == l + TWO_32 * Wrap(h)
  {
    var q := h / TWO_32;
    assert l + TWO_32 * h == TWO_64 * q + (l + TWO_32 * Wrap(h));
    ModOf(q, l + TWO_32 * Wrap(h));
  }

  lemma ModOf(q: nat, r: nat)
    requires r < TWO_64
    ensures (TWO_64 * q + r) % TWO_64 == r
  {
  }

  lemma HeldCount(f: Compression, m: seq<byte>, count0: Word32, count1: Word32, abcd: Registers, buf: seq<byte>)
    requires Holds(f, m, count0, count1, abcd, buf)
    ensures count0 + TWO_32 * count1 == 8 * |m| % TWO_64
    ensures LittleEndian(count0, 4) + LittleEndian(count1, 4) == LittleEndian(8 * |m| % TWO_64, 8)
  {
    LengthAsCount(|m|, count0, count1);
  }

  /** The octets that are missing to 56 modulo 64, from the low word of the count alone. */
  method PadFromCount(count0: Word32, ghost length: nat, ghost count1: Word32) returns (n: nat)
    requires count0 + TWO_32 * count1 == 8 * length % TWO_64
    ensures n == PadLength(length)
  {
    OffsetIsRest(length, count0, count1);
    SamePad(count0 / 8, length);
    n := (55 - count0 / 8) % 64 + 1;
  }

  lemma SamePad(n: nat, length: nat)
    requires n % 64 == length % 64
    ensures (55 - n) % 64 + 1 == PadLength(length)
  {
    var a, b := n / 64, length / 64;
    assert 55 - n == (55 - n % 64) - 64 * a && 55 - length == (55 - n % 64) - 64 * b;
  }

  /** The octets of some words, each least significant first. */
  function Spreaded(words: seq<Word32>): (s: seq<byte>)
    ensures |s| == 4 * |words|
  {
    if words == [] then [] else LittleEndian(words[0], 4) + Spreaded(words[1..])
  }

  lemma {:induction false} LittleEndianAt(v: nat, n: nat, i: nat)
    requires i < n
    ensures LittleEndian(v, n)[i] == v / Power(i) % 256
  {
    if i > 0 {
      LittleEndianAt(v / 256, n - 1, i - 1);
      DivDiv(v, Power(i - 1));
    }
  }

  lemma DivDiv(v: nat, p: nat)
    requires p > 0
    ensures v / 256 / p == v / (256 * p)
  {
    var q := v / 256 / p;
    var a, b := v % 256, v / 256 % p;
    assert v == 256 * (p * q + b) + a;
    assert v == (256 * p) * q + (256 * b + a) by {
      assert 256 * (p * q) == (256 * p) * q;
    }
    DivMod(q, 256 * p, 256 * b + a);
  }

  lemma {:induction false} SpreadAt(words: seq<Word32>, j: nat, k: nat)
    requires j < |words| && k < 4
    ensures Spreaded(words)[4 * j + k] == words[j] / Power(k) % 256
  {
    if j == 0 {
      LittleEndianAt(words[0], 4, k);
    } else {
      SpreadAt(words[1..], j - 1, k);
    }
  }

  /** The loops that take words apart, by shifting. */
  method Spread(words: seq<Word32>) returns (data: seq<byte>)
    ensures data == Spreaded(words)
  {
    data := [];
    for i := 0 to 4 * |words|
      invariant |data| == i && data == Spreaded(words)[..i]
    {
      SpreadAt(words, i / 4, i % 4);
      data := data + [words[i / 4] / Power(i % 4) % 256];
    }
  }

  lemma {:induction false} LittleEndianAppend(low: nat, high: nat, k: nat, n: nat)
    requires low < Power(k)
    ensures LittleEndian(low + Power(k) * high, k + n) == LittleEndian(low, k) + LittleEndian(high, n)
  {
    if k > 0 {
      var v := low + Power(k) * high;
      Shifted(low, Power(k - 1), high);
      LittleEndianAppend(low / 256, high, k - 1, n);
    }
  }

  lemma Shifted(low: nat, p: nat, high: nat)
    ensures (low + 256 * p * high) % 256 == low % 256
    ensures (low + 256 * p * high) / 256 == low / 256 + p * high
  {
    assert low + 256 * p * high == low + 256 * (p * high);
  }

  lemma LengthAsCount(length: nat, count0: Word32, count1: Word32)
    requires count0 + TWO_32 * count1 == 8 * length % TWO_64
    ensures LittleEndian(count0, 4) + LittleEndian(count1, 4) == LittleEndian(8 * length % TWO_64, 8)
  {
    assert Power(4) == TWO_32;
    LittleEndianAppend(count0, count1, 4, 4);
  }

  lemma FinishedRegisters(f: Compression, m: seq<byte>, n: nat, data: seq<byte>, count0: Word32, count1: Word32,
          abcd: Registers, buf: seq<byte>)
    requires n == PadLength(|m|) && data == LittleEndian(8 * |m| % TWO_64, 8)
    requires Holds(f, m + Pad(n) + data, count0, count1, abcd, buf)
    ensures Digest(f, m) == Output(abcd)
  {
    var p := Padded(m);
    assert |p| % 64 == 0;
    hide PadLength, LittleEndian, Pad, Fold;
    assert Whole(p) == p;
  }

  /** `md5_hash_string`. */
  method HashString(f: Compression, s: seq<byte>) returns (digest: seq<byte>)
    ensures digest == Digest(f, s)
  {
    var state := new State(f);
    state.Append(s, []);
    assert [] + s == s;
    digest := state.Finish(s);
  }

  /** However a message is cut up, appending its pieces gives the digest of the whole. */
  method HashChunks(f: Compression, chunks: seq<seq<byte>>) returns (digest: seq<byte>)
    ensures digest == Digest(f, Concat(chunks))
  {
    var state := new State(f);
    hide Holds, Fold;
    for i := 0 to |chunks|
      invariant fresh(state) && fresh(state.buf) && state.compress == f
      invariant state.Holding(Concat(chunks[..i]))
    {
      assert chunks[..i + 1] == chunks[..i] + [chunks[i]];
      ConcatSnoc(chunks[..i], chunks[i]);
      state.Append(chunks[i], Concat(chunks[..i]));
    }
    assert chunks[..|chunks|] == chunks;
    digest := state.Finish(Concat(chunks));
  }
}
