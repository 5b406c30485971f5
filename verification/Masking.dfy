/** Masking of frame payloads (section 5.3 of RFC 6455): byte by byte, and a machine word at a time with
  * a key that is rotated from one chunk to the next.  The word routines reinterpret the buffer as an
  * array of machine words, so what they do depends on the size and the byte order of a word. */
module Masking {
  import opened Bytes

  type Octet = bv8

  /** The masking key as it lies in memory and on the wire. */
  type Key = k: seq<Octet> | |k| == 4 witness [0, 0, 0, 0]

  datatype Platform = Platform(wordSize: nat, little: bool)

  /** The word sizes the source supports. */
  type Machine = p: Platform | p.wordSize == 4 || p.wordSize == 8 witness Platform(8, true)

  /** A machine word as a number: its octets, least significant first. */
  type Word = seq<Octet>

  // ---------------------------------------------------------------- words

  function Differ(a: Octet, b: Octet): Octet {
    a ^ b
  }

  function Either(a: Octet, b: Octet): Octet {
    a | b
  }

  lemma DifferTwice(a: Octet, b: Octet)
    ensures Differ(Differ(a, b), b) == a
  {
  }

  function Zeros(n: nat): (z: Word)
    ensures |z| == n
    ensures forall i :: 0 <= i < n ==> z[i] == 0
  {
    seq(n, _ => 0 as Octet)
  }

  function ShiftLeft(w: Word, octets: nat): (r: Word)
    requires octets <= |w|
    ensures |r| == |w|
    ensures forall i :: 0 <= i < |w| ==> r[i] == if i < octets then 0 else w[i - octets]
  {
    Zeros(octets) + w[..|w| - octets]
  }

  function ShiftRight(w: Word, octets: nat): (r: Word)
    requires octets <= |w|
    ensures |r| == |w|
    ensures forall i :: 0 <= i < |w| ==> r[i] == if i < |w| - octets then w[i + octets] else 0
  {
    w[octets..] + Zeros(octets)
  }

  function Or(a: Word, b: Word): (r: Word)
    requires |a| == |b|
    ensures |r| == |a|
    ensures forall i :: 0 <= i < |a| ==> r[i] == Either(a[i], b[i])
  {
    seq(|a|, i requires 0 <= i < |a| => Either(a[i], b[i]))
  }

  function Xor(a: Word, b: Word): (r: Word)
    requires |a| == |b|
    ensures |r| == |a|
    ensures forall i :: 0 <= i < |a| ==> r[i] == Differ(a[i], b[i])
  {
    seq(|a|, i requires 0 <= i < |a| => Differ(a[i], b[i]))
  }

  function Reversed(s: seq<Octet>): (r: seq<Octet>)
    ensures |r| == |s|
    ensures forall i :: 0 <= i < |s| ==> r[i] == s[|s| - 1 - i]
  {
    seq(|s|, i requires 0 <= i < |s| => s[|s| - 1 - i])
  }

  /** The octets of a word in the order of their addresses, and back: the same permutation. */
  function InMemory(m: Machine, w: Word): (r: seq<Octet>)
    ensures |r| == |w|
    ensures forall i :: 0 <= i < |w| ==> r[i] == if m.little then w[i] else w[|w| - 1 - i]
  {
    if m.little then w else Reversed(w)
  }

  lemma InMemoryTwice(m: Machine, w: Word)
    ensures InMemory(m, InMemory(m, w)) == w
  {
  }

  function Number(o: Octet): nat {
    o as int
  }

  lemma NumberBound(o: Octet)
    ensures Number(o) < 256
    ensures Number(0) == 0
  {
  }

  /** The number a word stands for. */
  function Value(w: Word): nat {
    if w == [] then 0 else Number(w[0]) + 256 * Value(w[1..])
  }

  lemma {:induction false} ValueAppend(a: Word, b: Word)
    ensures Value(a + b) == Value(a) + Power(|a|) * Value(b)
  {
    hide Number;
    if a == [] {
      assert a + b == b;
    } else {
      assert (a + b)[1..] == a[1..] + b && (a + b)[0] == a[0];
      ValueAppend(a[1..], b);
      Distribute(Value(a[1..]), Power(|a[1..]|), Value(b));
    }
  }

  lemma Distribute(x: int, p: int, y: int)
    ensures 256 * (x + p * y) == 256 * x + (256 * p) * y
  {
    assert (256 * p) * y == 256 * (p * y);
  }

  lemma {:induction false} ValueBound(w: Word)
    ensures Value(w) < Power(|w|)
  {
    hide Number;
    if w != [] {
      NumberBound(w[0]);
      ValueBound(w[1..]);
    }
  }

  lemma {:induction false} ValueZeros(n: nat)
    ensures Value(Zeros(n)) == 0
  {
    hide Number;
    NumberBound(0);
    if n > 0 {
      assert Zeros(n)[1..] == Zeros(n - 1);
      ValueZeros(n - 1);
    }
  }

  lemma {:induction false} PowerAdd(a: nat, b: nat)
    ensures Power(a + b) == Power(a) * Power(b)
  {
    if a > 0 {
      PowerAdd(a - 1, b);
    }
  }

  /** Moving octets is shifting the number: to the right it divides, to the left it multiplies and
    * drops what leaves the word. */
  lemma ShiftsAreArithmetic(w: Word, octets: nat)
    requires octets <= |w|
    ensures Value(ShiftRight(w, octets)) == Value(w) / Power(octets)
    ensures Value(ShiftLeft(w, octets)) == Value(w) * Power(octets) % Power(|w|)
  {
    RightDivides(w, octets);
    LeftMultiplies(w, octets);
  }

  lemma RightDivides(w: Word, octets: nat)
    requires octets <= |w|
    ensures Value(ShiftRight(w, octets)) == Value(w) / Power(octets)
  {
    hide Value, Power;
    var low, high := w[..octets], w[octets..];
    assert w == low + high;
    ValueAppend(low, high);
    ValueBound(low);
    ValueAppend(high, Zeros(octets));
    ValueZeros(octets);
    DivMod(Value(high), Power(octets), Value(low));
  }

  lemma LeftMultiplies(w: Word, octets: nat)
    requires octets <= |w|
    ensures Value(ShiftLeft(w, octets)) == Value(w) * Power(octets) % Power(|w|)
  {
    hide Value, Power;
    var kept, lost := w[..|w| - octets], w[|w| - octets..];
    assert w == kept + lost;
    ValueAppend(kept, lost);
    ValueAppend(Zeros(octets), kept);
    ValueZeros(octets);
    ValueBound(kept);
    PowerAdd(octets, |kept|);
    Wrapped(Value(kept), Value(lost), Power(octets), Power(|kept|));
  }

  lemma Wrapped(kept: nat, lost: nat, p: nat, q: nat)
    requires kept < q && p > 0
    ensures (kept + q * lost) * p % (p * q) == p * kept
  {
    Product(kept, lost, p, q);
    Smaller(kept, p, q);
    DivMod(lost, p * q, p * kept);
  }

  lemma Product(kept: nat, lost: nat, p: nat, q: nat)
    ensures (kept + q * lost) * p == p * kept + (p * q) * lost
  {
    assert (q * lost) * p == (p * q) * lost;
  }

  lemma {:induction false} Smaller(kept: nat, p: nat, q: nat)
    requires kept < q && p > 0
    ensures p * kept < p * q
  {
    assert p * q == p * (q - 1) + p;
    if kept < q - 1 {
      Smaller(kept, p, q - 1);
    }
  }

  // ---------------------------------------------------------------- prepared keys

  function PrepareMaskingKey(m: Machine, key: Key): (w: Word)
    ensures |w| == m.wordSize
  {
    var i := InMemory(m, key);
    if m.wordSize == 8 then
      var wide := i + Zeros(4);
      Or(ShiftLeft(wide, 4), wide)
    else i
  }

  function CircshiftPreparedKey(m: Machine, w: Word, offset: nat): (r: Word)
    requires |w| == m.wordSize && offset < m.wordSize
    ensures |r| == |w|
  {
    if offset == 0 then w
    else if m.little then Or(ShiftRight(w, offset), ShiftLeft(w, m.wordSize - offset))
    else Or(ShiftLeft(w, offset), ShiftRight(w, m.wordSize - offset))
  }

  /** The octet of the key at any point of its cycle. */
  function At(key: Key, i: nat): Octet {
    key[i % 4]
  }

  lemma AtSame(key: Key, a: nat, b: nat)
    requires a % 4 == b % 4
    ensures At(key, a) == At(key, b)
  {
  }

  /** The key, over and over, from some point of its cycle on. */
  function Cycle(key: Key, phase: nat, n: nat): (r: seq<Octet>)
    ensures |r| == n
    ensures forall i :: 0 <= i < n ==> r[i] == At(key, phase + i)
  {
    seq(n, i requires 0 <= i => At(key, phase + i))
  }

  /** The word that lies in memory as the key from some point of its cycle on. */
  function KeyFrom(m: Machine, key: Key, phase: nat): (w: Word)
    ensures |w| == m.wordSize
  {
    InMemory(m, Cycle(key, phase, m.wordSize))
  }

  lemma OrZero(o: Octet)
    ensures Either(o, 0) == o && Either(0, o) == o
  {
  }

  lemma FirstCycles(key: Key)
    ensures Cycle(key, 0, 4) == key
    ensures Cycle(key, 0, 8) == key + key
  {
    forall i | 0 <= i < 4 ensures At(key, i) == key[i] && At(key, 4 + i) == key[i] {
    }
    hide At;
    assert Cycle(key, 0, 8)[..4] == key && Cycle(key, 0, 8)[4..] == key;
  }

  lemma ReversedTwice(a: seq<Octet>)
    ensures Reversed(a + a) == Reversed(a) + Reversed(a)
  {
  }

  /** A prepared key is the key repeated. */
  lemma PreparedKey(m: Machine, key: Key)
    ensures PrepareMaskingKey(m, key) == KeyFrom(m, key, 0)
  {
    FirstCycles(key);
    hide Cycle, Or, ShiftLeft, Zeros, Reversed;
    if m.wordSize == 8 {
      Doubled(InMemory(m, key));
      ReversedTwice(key);
    }
  }

  lemma Doubled(low: Word)
    requires |low| == 4
    ensures var wide := low + Zeros(4); Or(ShiftLeft(wide, 4), wide) == low + low
  {
    hide Either, ShiftLeft;
    var wide := low + Zeros(4);
    forall j | 0 <= j < 4
      ensures Or(ShiftLeft(wide, 4), wide)[j] == low[j] && Or(ShiftLeft(wide, 4), wide)[4 + j] == low[j]
    {
      OrZero(low[j]);
    }
  }

  /** The rotation to the right, by either pair of shifts. */
  lemma Rotated(w: Word, octets: nat, j: nat)
    requires 0 < octets < |w| && j < |w|
    ensures var o := w[if j + octets < |w| then j + octets else j + octets - |w|];
      && Or(ShiftRight(w, octets), ShiftLeft(w, |w| - octets))[j] == o
      && Or(ShiftLeft(w, |w| - octets), ShiftRight(w, octets))[j] == o
  {
    hide Either, ShiftLeft, ShiftRight;
    OrZero(w[if j + octets < |w| then j + octets else j + octets - |w|]);
  }

  lemma ShiftedOctet(m: Machine, w: Word, offset: nat, i: nat)
    requires |w| == m.wordSize && 0 < offset < m.wordSize && i < m.wordSize
    ensures InMemory(m, CircshiftPreparedKey(m, w, offset))[i]
         == InMemory(m, w)[if i + offset < |w| then i + offset else i + offset - |w|]
  {
    hide Or, ShiftLeft, ShiftRight, Either;
    if m.little {
      Rotated(w, offset, i);
    } else {
      Rotated(w, |w| - offset, |w| - 1 - i);
    }
  }

  /** Rotating a prepared key, on either byte order, moves it along the cycle of the key. */
  lemma CircshiftAdvances(m: Machine, key: Key, phase: nat, offset: nat)
    requires offset < m.wordSize
    ensures CircshiftPreparedKey(m, KeyFrom(m, key, phase), offset) == KeyFrom(m, key, phase + offset)
  {
    var r := CircshiftPreparedKey(m, KeyFrom(m, key, phase), offset);
    if offset > 0 {
      hide CircshiftPreparedKey, InMemory, At;
      forall i | 0 <= i < m.wordSize ensures InMemory(m, r)[i] == At(key, phase + offset + i) {
        AdvancedOctet(m, key, phase, offset, i);
      }
      assert InMemory(m, r) == Cycle(key, phase + offset, m.wordSize);
      InMemoryTwice(m, r);
    }
  }

  lemma AdvancedOctet(m: Machine, key: Key, phase: nat, offset: nat, i: nat)
    requires 0 < offset < m.wordSize && i < m.wordSize
    ensures InMemory(m, CircshiftPreparedKey(m, KeyFrom(m, key, phase), offset))[i] == At(key, phase + offset + i)
  {
    hide CircshiftPreparedKey, InMemory, At;
    var j := if i + offset < m.wordSize then i + offset else i + offset - m.wordSize;
    InMemoryTwice(m, Cycle(key, phase, m.wordSize));
    ShiftedOctet(m, KeyFrom(m, key, phase), offset, i);
    AtSame(key, phase + j, phase + offset + i);
  }

  lemma KeyFromCycle(m: Machine, key: Key, a: nat, b: nat)
    requires a % 4 == b % 4
    ensures KeyFrom(m, key, a) == KeyFrom(m, key, b)
  {
    forall i | 0 <= i < m.wordSize ensures Cycle(key, a, m.wordSize)[i] == Cycle(key, b, m.wordSize)[i] {
      AddPhase(a, b, i);
      AtSame(key, a + i, b + i);
    }
    assert Cycle(key, a, m.wordSize) == Cycle(key, b, m.wordSize);
  }

  lemma AddPhase(a: nat, b: nat, i: nat)
    requires a % 4 == b % 4
    ensures (a + i) % 4 == (b + i) % 4
  {
  }

  // ---------------------------------------------------------------- masking

  /** The definition of section 5.3: octet `i` of the payload against octet `i` modulo 4 of the key. */
  function Mask(data: seq<Octet>, key: Key, phase: nat): (r: seq<Octet>)
    ensures |r| == |data|
  {
    seq(|data|, i requires 0 <= i < |data| => Differ(data[i], At(key, phase + i)))
  }

  lemma MaskTwice(data: seq<Octet>, key: Key, phase: nat)
    ensures Mask(Mask(data, key, phase), key, phase) == data
  {
    hide Differ;
    forall i | 0 <= i < |data| ensures Mask(Mask(data, key, phase), key, phase)[i] == data[i] {
      DifferTwice(data[i], At(key, phase + i));
    }
  }

  lemma MaskAppend(a: seq<Octet>, b: seq<Octet>, key: Key, phase: nat)
    ensures Mask(a + b, key, phase) == Mask(a, key, phase) + Mask(b, key, phase + |a|)
  {
    hide Differ;
  }

  /** Section 5.3, bit by bit: a bit of the masked payload is set exactly if the bits of the payload and of the
    * octet of the key at its place modulo four differ. */
  lemma MaskedBit(data: seq<Octet>, key: Key, i: nat, bit: Octet)
    requires i < |data| && bit in {1, 2, 4, 8, 16, 32, 64, 128}
    ensures Mask(data, key, 0)[i] & bit != 0 <==> (data[i] & bit != 0) != (key[i % 4] & bit != 0)
  {
    DifferBit(data[i], key[i % 4], bit);
    hide Differ;
  }

  lemma DifferBit(a: Octet, b: Octet, bit: Octet)
    requires bit in {1, 2, 4, 8, 16, 32, 64, 128}
    ensures Differ(a, b) & bit != 0 <==> (a & bit != 0) != (b & bit != 0)
  {
  }

  datatype Routine = ByWord | ByOctet

  /** The first four octets in memory of a word converted to 32 bits. */
  function Truncated(m: Machine, w: Word): (r: seq<Octet>)
    requires |w| == m.wordSize
    ensures |r| == 4
  {
    InMemory(m, w[..4])
  }

  /** What one call makes of a chunk under any prepared key, and the key it returns. */
  function Masked(m: Machine, routine: Routine, chunk: seq<Octet>, prepared: Word): (r: (seq<Octet>, Word))
    requires |prepared| == m.wordSize
    ensures |r.0| == |chunk| && |r.1| == m.wordSize
  {
    match routine
    case ByWord =>
      (Cycled(chunk, InMemory(m, prepared)), CircshiftPreparedKey(m, prepared, |chunk| % m.wordSize))
    case ByOctet =>
      (Cycled(chunk, Truncated(m, prepared)), CircshiftPreparedKey(m, prepared, |chunk| % 4))
  }

  /** An octet of a cycle that starts over at its end. */
  function Round(cycle: seq<Octet>, i: nat): Octet
    requires cycle != []
  {
    cycle[i % |cycle|]
  }

  function Cycled(data: seq<Octet>, cycle: seq<Octet>): (r: seq<Octet>)
    requires cycle != []
    ensures |r| == |data|
  {
    seq(|data|, i requires 0 <= i < |data| => Differ(data[i], Round(cycle, i)))
  }

  /** A sequence of calls, each given the key the previous one returned. */
  function MaskedChunks(m: Machine, chunks: seq<(Routine, seq<Octet>)>, prepared: Word): (r: (seq<Octet>, Word))
    requires |prepared| == m.wordSize
    ensures |r.1| == m.wordSize
    decreases |chunks|
  {
    if chunks == [] then ([], prepared)
    else
      var (first, next) := Masked(m, chunks[0].0, chunks[0].1, prepared);
      var (rest, last) := MaskedChunks(m, chunks[1..], next);
      (first + rest, last)
  }

  function Payload(chunks: seq<(Routine, seq<Octet>)>): seq<Octet> {
    if chunks == [] then [] else chunks[0].1 + Payload(chunks[1..])
  }

  /** One call under a rotated key masks as the definition does from that point of the key's cycle on,
    * and either routine returns the key for the next octet. */
  lemma OneChunk(m: Machine, routine: Routine, chunk: seq<Octet>, key: Key, phase: nat)
    ensures Masked(m, routine, chunk, KeyFrom(m, key, phase))
         == (Mask(chunk, key, phase), KeyFrom(m, key, phase + |chunk|))
  {
    OctetsUsed(m, key, phase);
    ChunkCycled(chunk, key, phase, m.wordSize);
    ChunkCycled(chunk, key, phase, 4);
    NextKey(m, key, phase, |chunk|, m.wordSize);
    NextKey(m, key, phase, |chunk|, 4);
    hide CircshiftPreparedKey, InMemory, Truncated, Differ, KeyFrom, Cycle, Cycled, Mask;
  }

  lemma NextKey(m: Machine, key: Key, phase: nat, length: nat, n: nat)
    requires n == 4 || n == m.wordSize
    ensures CircshiftPreparedKey(m, KeyFrom(m, key, phase), length % n) == KeyFrom(m, key, phase + length)
  {
    hide CircshiftPreparedKey, KeyFrom;
    var offset := length % n;
    CircshiftAdvances(m, key, phase, offset);
    WholeCycles(phase, length, n);
    KeyFromCycle(m, key, phase + offset, phase + length);
  }

  /** What a routine takes from a rotated key; which half of a word a conversion to 32 bits keeps does
    * not matter for a key that repeats. */
  lemma OctetsUsed(m: Machine, key: Key, phase: nat)
    ensures InMemory(m, KeyFrom(m, key, phase)) == Cycle(key, phase, m.wordSize)
    ensures Truncated(m, KeyFrom(m, key, phase)) == Cycle(key, phase, 4)
  {
    var cycle := Cycle(key, phase, m.wordSize);
    CycleRepeats(key, phase, m.wordSize);
    hide Cycle;
    InMemoryTwice(m, cycle);
    assert m.little ==> Truncated(m, InMemory(m, cycle)) == cycle[..4];
    assert !m.little ==> Truncated(m, InMemory(m, cycle)) == cycle[m.wordSize - 4..];
  }

  lemma CycleRepeats(key: Key, phase: nat, n: nat)
    requires n == 4 || n == 8
    ensures Cycle(key, phase, n)[..4] == Cycle(key, phase, 4) == Cycle(key, phase, n)[n - 4..]
  {
    forall i | 0 <= i < 4 ensures Cycle(key, phase, n)[n - 4 + i] == Cycle(key, phase, 4)[i] {
      AddPhase(phase + (n - 4), phase, i);
      AtSame(key, phase + (n - 4) + i, phase + i);
    }
    hide At;
  }

  lemma WholeCycles(phase: nat, length: nat, n: nat)
    requires n == 4 || n == 8
    ensures (phase + length % n) % 4 == (phase + length) % 4
  {
  }

  lemma ChunkCycled(chunk: seq<Octet>, key: Key, phase: nat, n: nat)
    requires n == 4 || n == 8
    ensures Cycled(chunk, Cycle(key, phase, n)) == Mask(chunk, key, phase)
  {
    hide Differ;
    forall i | 0 <= i < |chunk| ensures Cycle(key, phase, n)[i % n] == At(key, phase + i) {
      WholeCycles(phase, i, n);
      AtSame(key, phase + i % n, phase + i);
    }
  }

  /** Masking in chunks refines masking byte by byte: whatever the chunks, and whichever routine masks
    * each of them, the result is the definition applied to the whole payload. */
  lemma ChunkedMasking(m: Machine, chunks: seq<(Routine, seq<Octet>)>, key: Key)
    ensures var (masked, last) := MaskedChunks(m, chunks, PrepareMaskingKey(m, key));
      && masked == Mask(Payload(chunks), key, 0)
      && last == KeyFrom(m, key, |Payload(chunks)|)
  {
    hide PrepareMaskingKey, KeyFrom, Mask, MaskedChunks, Payload;
    PreparedKey(m, key);
    ChunksFrom(m, chunks, key, 0);
  }

  lemma {:induction false} ChunksFrom(m: Machine, chunks: seq<(Routine, seq<Octet>)>, key: Key, phase: nat)
    ensures MaskedChunks(m, chunks, KeyFrom(m, key, phase))
         == (Mask(Payload(chunks), key, phase), KeyFrom(m, key, phase + |Payload(chunks)|))
    decreases |chunks|
  {
    hide KeyFrom, Mask, Masked;
    if chunks != [] {
      OneChunk(m, chunks[0].0, chunks[0].1, key, phase);
      ChunksFrom(m, chunks[1..], key, phase + |chunks[0].1|);
      MaskAppend(chunks[0].1, Payload(chunks[1..]), key, phase);
    }
  }

  /** Unmasking restores the payload, however it was cut up for masking, however the masked octets are
    * cut up again, and whatever the word size and byte order on either side. */
  lemma UnmaskingRestores(m: Machine, chunks: seq<(Routine, seq<Octet>)>,
                          n: Machine, received: seq<(Routine, seq<Octet>)>, key: Key)
    requires Payload(received) == MaskedChunks(m, chunks, PrepareMaskingKey(m, key)).0
    ensures MaskedChunks(n, received, PrepareMaskingKey(n, key)).0 == Payload(chunks)
  {
    ChunkedMasking(m, chunks, key);
    ChunkedMasking(n, received, key);
    MaskTwice(Payload(chunks), key, 0);
  }

  // ---------------------------------------------------------------- buffers

  lemma OverwrittenNothing(s: seq<Octet>, at: nat)
    requires at <= |s|
    ensures Overwritten(s, at, []) == s
  {
  }

  lemma OverwrittenBefore(s: seq<Octet>, at: nat, t: seq<Octet>, i: nat, j: nat)
    requires at + |t| <= i <= j <= |s|
    ensures Overwritten(s, at, t)[i..j] == s[i..j]
  {
  }

  /** Where a routine stands: `t` is written to the output, and the input is as it was, but for what has
    * been written when both are the same buffer. */
  ghost predicate Progress(input: array<Octet>, output: array<Octet>, at: nat, input0: seq<Octet>,
          output0: seq<Octet>, to: nat, t: seq<Octet>)
    reads input, output
  {
    && to + |t| <= |output0| && output[..] == Overwritten(output0, to, t)
    && (if input == output then at == to && input0 == output0 else input[..] == input0)
  }

  /** What is yet to be read is untouched by what has been written. */
  lemma StillThere(input: array<Octet>, output: array<Octet>, at: nat, input0: seq<Octet>, output0: seq<Octet>,
          to: nat, t: seq<Octet>, i: nat, j: nat)
    requires Progress(input, output, at, input0, output0, to, t)
    requires at + |t| <= i <= j <= |input0|
    ensures j <= input.Length && input[i..j] == input0[i..j]
  {
    assert input[i..j] == input[..][i..j];
    if input == output {
      OverwrittenBefore(output0, to, t, i, j);
    }
  }

  lemma Started(input: array<Octet>, output: array<Octet>, at: nat, to: nat)
    requires to <= output.Length
    requires input == output ==> at == to
    ensures Progress(input, output, at, input[..], output[..], to, [])
  {
    OverwrittenNothing(output[..], to);
  }

  lemma Finished(input: array<Octet>, output: array<Octet>, at: nat, input0: seq<Octet>, output0: seq<Octet>,
          to: nat, t: seq<Octet>)
    requires Progress(input, output, at, input0, output0, to, t)
    ensures to + |t| <= |output0| && output[..] == Overwritten(output0, to, t)
  {
  }

  /** Where a routine stands after one more store. */
  lemma Advanced(input: array<Octet>, output: array<Octet>, at: nat, input0: seq<Octet>, output0: seq<Octet>,
          to: nat, t: seq<Octet>, u: seq<Octet>)
    requires to + |t| + |u| <= |output0|
    requires output[..] == Overwritten(Overwritten(output0, to, t), to + |t|, u)
    requires if input == output then at == to && input0 == output0 else input[..] == input0
    ensures Progress(input, output, at, input0, output0, to, t + u)
  {
    OverwrittenMore(output0, to, t, u);
  }

  /** Mask the next octet. */
  method MaskOctet(input: array<Octet>, i: nat, output: array<Octet>, j: nat, k: Octet,
                   ghost at: nat, ghost input0: seq<Octet>, ghost output0: seq<Octet>, ghost to: nat,
                       ghost t: seq<Octet>)
    requires i < input.Length == |input0| && j < output.Length == |output0|
    requires Progress(input, output, at, input0, output0, to, t) && i == at + |t| && j == to + |t|
    modifies output
    ensures Progress(input, output, at, input0, output0, to, t + [Differ(input0[i], k)])
  {
    ghost var before := output[..];
    StillThere(input, output, at, input0, output0, to, t, i, i + 1);
    assert input[i] == input0[i] by {
      assert input[i] == input[i..i + 1][0];
    }
    output[j] := Differ(input[i], k);
    hide Differ;
    assert output[..] == Overwritten(before, j, [Differ(input0[i], k)]);
    hide Overwritten;
    Advanced(input, output, at, input0, output0, to, t, [Differ(input0[i], k)]);
  }

  method LoadWord(m: Machine, input: array<Octet>, at: nat) returns (w: Word)
    requires at + m.wordSize <= input.Length
    ensures w == InMemory(m, input[at..at + m.wordSize])
  {
    w := InMemory(m, input[at..at + m.wordSize]);
  }

  method StoreWord(m: Machine, output: array<Octet>, at: nat, w: Word)
    requires |w| == m.wordSize && at + m.wordSize <= output.Length
    modifies output
    ensures output[..] == Overwritten(old(output[..]), at, InMemory(m, w))
  {
    CopyTo(InMemory(m, w), output, at);
  }

  // ---------------------------------------------------------------- the routines

  /** The masked octets after `k` rounds of the loop. */
  ghost function MaskedSoFar(data: seq<Octet>, key: Key, phase: nat, k: nat): (r: seq<Octet>)
    requires k <= |data|
    ensures |r| == k
  {
    Mask(data[..k], key, phase)
  }

  lemma MaskedNext(data: seq<Octet>, key: Key, phase: nat, k: nat)
    requires k < |data|
    ensures MaskedSoFar(data, key, phase, k + 1)
         == MaskedSoFar(data, key, phase, k) + [Differ(data[k], key[Turn(phase + k)])]
  {
    hide Differ;
  }

  lemma MaskedEnds(data: seq<Octet>, key: Key, phase: nat)
    ensures MaskedSoFar(data, key, phase, 0) == []
    ensures MaskedSoFar(data, key, phase, |data|) == Mask(data, key, phase)
  {
    assert data[..|data|] == data;
  }

  /** `key_index %= 4`. */
  function Turn(i: nat): nat {
    i % 4
  }

  lemma TurnNext(i: nat)
    ensures Turn(i) < 4 && Turn(Turn(i) + 1) == Turn(i + 1)
  {
  }

  /** `byte_mask`, into another buffer or in place. */
  method ByteMask(input: array<Octet>, first: nat, last: nat, output: array<Octet>, result: nat, key: Key,
          keyOffset: nat)
    requires first <= last <= input.Length && result + (last - first) <= output.Length
    requires input == output ==> first == result
    modifies output
    ensures output[..] == Overwritten(old(output[..]), result, Mask(old(input[..])[first..last], key, keyOffset))
  {
    ghost var input0, output0 := input[..], output[..];
    ghost var data := input0[first..last];
    MaskedEnds(data, key, keyOffset);
    Started(input, output, first, result);
    hide *;
    ByteMaskLoop(input, first, last, output, result, key, keyOffset, input0, output0, data);
    Finished(input, output, first, input0, output0, result, MaskedSoFar(data, key, keyOffset, last - first));
  }

  method ByteMaskLoop(input: array<Octet>, first: nat, last: nat, output: array<Octet>, result: nat, key: Key,
          keyOffset: nat,
                      ghost input0: seq<Octet>, ghost output0: seq<Octet>, ghost data: seq<Octet>)
    requires first + |data| == last <= input.Length == |input0| && result + |data| <= output.Length == |output0|
    requires forall i :: 0 <= i < |data| ==> data[i] == input0[first + i]
    requires Progress(input, output, first, input0, output0, result, MaskedSoFar(data, key, keyOffset, 0))
    modifies output
    ensures Progress(input, output, first, input0, output0, result, MaskedSoFar(data, key, keyOffset, |data|))
  {
    hide *;
    ghost var k := 0;
    var keyIndex := Turn(keyOffset);
    var f, r := first, result;
    while f != last
      invariant k <= |data| && f == first + k && r == result + k
      invariant keyIndex == Turn(keyOffset + k)
      invariant Progress(input, output, first, input0, output0, result, MaskedSoFar(data, key, keyOffset, k))
      decreases last - f
    {
      TurnNext(keyOffset + k);
      MaskedNext(data, key, keyOffset, k);
      MaskOctet(input, f, output, r, key[keyIndex], first, input0, output0, result,
                MaskedSoFar(data, key, keyOffset, k));
      keyIndex := Turn(keyIndex + 1);
      r := r + 1;
      f := f + 1;
      k := k + 1;
    }
  }

  ghost function CycledSoFar(data: seq<Octet>, cycle: seq<Octet>, k: nat): (r: seq<Octet>)
    requires k <= |data| && cycle != []
    ensures |r| == k
  {
    Cycled(data[..k], cycle)
  }

  lemma CycledNext(data: seq<Octet>, cycle: seq<Octet>, k: nat)
    requires k < |data| && cycle != []
    ensures CycledSoFar(data, cycle, k + 1) == CycledSoFar(data, cycle, k) + [Differ(data[k], Round(cycle, k))]
  {
    hide Differ, Round;
  }

  lemma CycledEnds(data: seq<Octet>, cycle: seq<Octet>)
    requires cycle != []
    ensures CycledSoFar(data, cycle, 0) == []
    ensures CycledSoFar(data, cycle, |data|) == Cycled(data, cycle)
  {
    assert data[..|data|] == data;
  }

  /** The loop over single octets: the whole of `byte_mask_circ`, and the end of the word routines. */
  method MaskOctets(input: array<Octet>, from: nat, output: array<Octet>, to: nat, length: nat, cycle: seq<Octet>)
    requires from + length <= input.Length && to + length <= output.Length && cycle != []
    requires input == output ==> from == to
    modifies output
    ensures output[..] == Overwritten(old(output[..]), to, Cycled(old(input[..])[from..from + length], cycle))
  {
    ghost var input0, output0 := input[..], output[..];
    ghost var data := input0[from..from + length];
    CycledEnds(data, cycle);
    Started(input, output, from, to);
    hide *;
    MaskOctetsLoop(input, from, output, to, length, cycle, from, input0, output0, to, [], data);
    assert [] + Cycled(data, cycle) == Cycled(data, cycle);
    Finished(input, output, from, input0, output0, to, Cycled(data, cycle));
  }

  method MaskOctetsLoop(input: array<Octet>, i: nat, output: array<Octet>, j: nat, length: nat, cycle: seq<Octet>,
                        ghost at: nat, ghost input0: seq<Octet>, ghost output0: seq<Octet>, ghost to: nat,
                            ghost t: seq<Octet>,
                        ghost data: seq<Octet>)
    requires |data| == length && cycle != [] && i == at + |t| && j == to + |t|
    requires i + length <= input.Length == |input0| && j + length <= output.Length == |output0|
    requires forall k :: 0 <= k < |data| ==> data[k] == input0[i + k]
    requires Progress(input, output, at, input0, output0, to, t)
    modifies output
    ensures Progress(input, output, at, input0, output0, to, t + Cycled(data, cycle))
  {
    CycledEnds(data, cycle);
    assert t + [] == t;
    hide *;
    for k := 0 to length
      invariant Progress(input, output, at, input0, output0, to, t + CycledSoFar(data, cycle, k))
    {
      CycledNext(data, cycle, k);
      var o := Round(cycle, k);
      ghost var done := CycledSoFar(data, cycle, k);
      MaskOctet(input, i + k, output, j + k, o, at, input0, output0, to, t + done);
      assert t + done + [Differ(data[k], o)] == t + (done + [Differ(data[k], o)]);
    }
  }

  method ByteMaskCirc(m: Machine, input: array<Octet>, from: nat, output: array<Octet>, to: nat, length: nat,
          prepared: Word)
    returns (next: Word)
    requires |prepared| == m.wordSize
    requires from + length <= input.Length && to + length <= output.Length
    requires input == output ==> from == to
    modifies output
    ensures var (masked, key) := Masked(m, ByOctet, old(input[..])[from..from + length], prepared);
      next == key && output[..] == Overwritten(old(output[..]), to, masked)
  {
    hide Overwritten, Cycled, Truncated, CircshiftPreparedKey;
    MaskOctets(input, from, output, to, length, Truncated(m, prepared));
    next := CircshiftPreparedKey(m, prepared, length % 4);
  }

  // ---------------------------------------------------------------- whole words

  /** The octets in a number of words. */
  function Times(n: nat, size: nat): nat {
    if n == 0 then 0 else size + Times(n - 1, size)
  }

  lemma {:induction false} TimesGrows(i: nat, n: nat, size: nat)
    requires i <= n
    ensures Times(i, size) <= Times(n, size)
  {
    if i < n {
      TimesGrows(i, n - 1, size);
    }
  }

  /** Whole words and the octets left over. */
  lemma {:induction false} WordsAndRest(m: Machine, length: nat)
    ensures Times(length / m.wordSize, m.wordSize) == length - length % m.wordSize
  {
    if length >= m.wordSize {
      var less := length - m.wordSize;
      assert less / m.wordSize == length / m.wordSize - 1 && less % m.wordSize == length % m.wordSize;
      WordsAndRest(m, less);
    }
  }

  lemma {:induction false} RoundSkips(cycle: seq<Octet>, n: nat, i: nat)
    requires |cycle| == 4 || |cycle| == 8
    ensures Round(cycle, Times(n, |cycle|) + i) == Round(cycle, i)
  {
    if n > 0 {
      RoundSkips(cycle, n - 1, i);
      RoundAgain(cycle, Times(n - 1, |cycle|) + i);
      hide Round;
    }
  }

  lemma RoundAgain(cycle: seq<Octet>, i: nat)
    requires |cycle| == 4 || |cycle| == 8
    ensures Round(cycle, |cycle| + i) == Round(cycle, i)
  {
    if |cycle| == 4 {
      assert (4 + i) % 4 == i % 4;
    } else {
      assert (8 + i) % 8 == i % 8;
    }
  }

  lemma RoundStarts(cycle: seq<Octet>, i: nat)
    requires i < |cycle|
    ensures Round(cycle, i) == cycle[i]
  {
  }

  lemma CycledAt(data: seq<Octet>, cycle: seq<Octet>, i: nat)
    requires cycle != [] && i < |data|
    ensures Cycled(data, cycle)[i] == Differ(data[i], Round(cycle, i))
  {
    hide Differ, Round;
  }

  lemma CycledAppend(a: seq<Octet>, b: seq<Octet>, cycle: seq<Octet>, n: nat)
    requires (|cycle| == 4 || |cycle| == 8) && |a| == Times(n, |cycle|)
    ensures Cycled(a + b, cycle) == Cycled(a, cycle) + Cycled(b, cycle)
  {
    hide Differ, Round, Times, Cycled;
    forall i | 0 <= i < |a| + |b| ensures Cycled(a + b, cycle)[i] == (Cycled(a, cycle) + Cycled(b, cycle))[i] {
      CycledAt(a + b, cycle, i);
      if i < |a| {
        CycledAt(a, cycle, i);
      } else {
        CycledAt(b, cycle, i - |a|);
        RoundSkips(cycle, n, i - |a|);
      }
    }
  }

  /** Reading, changing and writing a word masks its octets, whatever the order of their addresses. */
  lemma WordIsOctets(m: Machine, octets: seq<Octet>, prepared: Word)
    requires |octets| == |prepared| == m.wordSize
    ensures InMemory(m, Xor(InMemory(m, octets), prepared)) == Cycled(octets, InMemory(m, prepared))
  {
    hide Differ, Round, Xor, Cycled;
    var changed, cycle := InMemory(m, Xor(InMemory(m, octets), prepared)), InMemory(m, prepared);
    forall i | 0 <= i < m.wordSize ensures changed[i] == Cycled(octets, cycle)[i] {
      var j := if m.little then i else m.wordSize - 1 - i;
      assert changed[i] == Xor(InMemory(m, octets), prepared)[j] == Differ(InMemory(m, octets)[j], prepared[j]);
      assert InMemory(m, octets)[j] == octets[i] && cycle[i] == prepared[j];
      RoundStarts(cycle, i);
      CycledAt(octets, cycle, i);
    }
  }

  method MaskWord(m: Machine, input: array<Octet>, i: nat, output: array<Octet>, j: nat, prepared: Word,
                  ghost at: nat, ghost input0: seq<Octet>, ghost output0: seq<Octet>, ghost to: nat,
                      ghost t: seq<Octet>)
    requires |prepared| == m.wordSize
    requires i + m.wordSize <= input.Length == |input0| && j + m.wordSize <= output.Length == |output0|
    requires Progress(input, output, at, input0, output0, to, t) && i == at + |t| && j == to + |t|
    modifies output
    ensures Progress(input, output, at, input0, output0, to,
                     t + Cycled(input0[i..i + m.wordSize], InMemory(m, prepared)))
  {
    ghost var octets := input0[i..i + m.wordSize];
    StillThere(input, output, at, input0, output0, to, t, i, i + m.wordSize);
    WordIsOctets(m, octets, prepared);
    OverwrittenMore(output0, to, t, Cycled(octets, InMemory(m, prepared)));
    hide *;
    var w := LoadWord(m, input, i);
    w := Xor(w, prepared);
    StoreWord(m, output, j, w);
    Advanced(input, output, at, input0, output0, to, t, Cycled(octets, InMemory(m, prepared)));
  }

  ghost function WordsSoFar(data: seq<Octet>, cycle: seq<Octet>, i: nat): (r: seq<Octet>)
    requires Times(i, |cycle|) <= |data| && cycle != []
    ensures |r| == Times(i, |cycle|)
  {
    Cycled(data[..Times(i, |cycle|)], cycle)
  }

  lemma WordsNext(data: seq<Octet>, cycle: seq<Octet>, i: nat, octets: seq<Octet>)
    requires |octets| == |cycle| && (|cycle| == 4 || |cycle| == 8)
    requires Times(i + 1, |cycle|) <= |data| && octets == data[Times(i, |cycle|)..Times(i, |cycle|) + |cycle|]
    ensures WordsSoFar(data, cycle, i + 1) == WordsSoFar(data, cycle, i) + Cycled(octets, cycle)
  {
    var at := Times(i, |cycle|);
    CycledAppend(data[..at], octets, cycle, i);
    assert data[..at + |cycle|] == data[..at] + octets;
    hide Cycled;
  }

  lemma WordsEnd(data: seq<Octet>, cycle: seq<Octet>, n: nat)
    requires cycle != [] && |data| == Times(n, |cycle|)
    ensures WordsSoFar(data, cycle, 0) == []
    ensures WordsSoFar(data, cycle, n) == Cycled(data, cycle)
  {
    assert data[..|data|] == data;
  }

  lemma SubSlice(s: seq<Octet>, from: nat, data: seq<Octet>, i: nat, j: nat)
    requires i <= j <= |data| && from + |data| <= |s| && data == s[from..from + |data|]
    ensures s[from + i..from + j] == data[i..j]
  {
    forall k | 0 <= k < j - i ensures s[from + i..from + j][k] == data[i..j][k] {
      assert data[i + k] == s[from + (i + k)];
    }
  }

  /** The loop over whole words. */
  method MaskWordsLoop(m: Machine, input: array<Octet>, from: nat, output: array<Octet>, to: nat, n: nat,
          prepared: Word,
                       ghost input0: seq<Octet>, ghost output0: seq<Octet>, ghost data: seq<Octet>)
    requires |prepared| == m.wordSize && |data| == Times(n, m.wordSize)
    requires from + |data| <= input.Length == |input0| && to + |data| <= output.Length == |output0|
    requires data == input0[from..from + |data|]
    requires Times(0, m.wordSize) == 0
    requires Progress(input, output, from, input0, output0, to, WordsSoFar(data, InMemory(m, prepared), 0))
    modifies output
    ensures Progress(input, output, from, input0, output0, to, WordsSoFar(data, InMemory(m, prepared), n))
  {
    hide *;
    for i := 0 to n
      invariant Times(i, m.wordSize) <= |data|
      invariant Progress(input, output, from, input0, output0, to, WordsSoFar(data, InMemory(m, prepared), i))
    {
      var at := Times(i, m.wordSize);
      TimesNext(i, n, m.wordSize);
      ghost var octets := input0[from + at..from + at + m.wordSize];
      SubSlice(input0, from, data, at, at + m.wordSize);
      WordsNext(data, InMemory(m, prepared), i, octets);
      MaskWord(m, input, from + at, output, to + at, prepared, from, input0, output0, to,
               WordsSoFar(data, InMemory(m, prepared), i));
    }
  }

  lemma TimesNext(i: nat, n: nat, size: nat)
    requires i < n
    ensures Times(i + 1, size) == Times(i, size) + size <= Times(n, size)
  {
    TimesGrows(i + 1, n, size);
  }

  lemma WholeBuffer(m: Machine, data: seq<Octet>, cycle: seq<Octet>, n: nat, at: nat)
    requires |cycle| == m.wordSize && at <= |data| && at == Times(n, m.wordSize)
    ensures Cycled(data[..at], cycle) + Cycled(data[at..], cycle) == Cycled(data, cycle)
  {
    hide *;
    CycledAppend(data[..at], data[at..], cycle, n);
    assert data == data[..at] + data[at..];
  }

  /** Whole words under the prepared key and the rest under the key itself make up the definition. */
  lemma ExactBuffer(m: Machine, data: seq<Octet>, key: Key, n: nat, at: nat)
    requires at <= |data| && at == Times(n, m.wordSize)
    ensures Cycled(data[..at], InMemory(m, PrepareMaskingKey(m, key))) + Cycled(data[at..], key) == Mask(data, key, 0)
  {
    hide *;
    WholeWords(m, n);
    ExactPieces(m, data[..at], data[at..], key);
    assert data == data[..at] + data[at..];
  }

  lemma {:induction false} WholeWords(m: Machine, n: nat)
    ensures Times(n, m.wordSize) % 4 == 0
  {
    if n > 0 {
      WholeWords(m, n - 1);
    }
  }

  lemma ExactPieces(m: Machine, words: seq<Octet>, rest: seq<Octet>, key: Key)
    requires |words| % 4 == 0
    ensures Cycled(words, InMemory(m, PrepareMaskingKey(m, key))) + Cycled(rest, key) == Mask(words + rest, key, 0)
  {
    hide *;
    PreparedKey(m, key);
    OctetsUsed(m, key, 0);
    ChunkCycled(words, key, 0, m.wordSize);
    FirstCycles(key);
    ChunkCycled(rest, key, 0, 4);
    MaskAppend(words, rest, key, 0);
    MaskPhase(rest, key, |words|);
  }

  lemma MaskPhase(data: seq<Octet>, key: Key, phase: nat)
    requires phase % 4 == 0
    ensures Mask(data, key, phase) == Mask(data, key, 0)
  {
    hide Differ;
    forall i | 0 <= i < |data| ensures Mask(data, key, phase)[i] == Mask(data, key, 0)[i] {
      AtSame(key, phase + i, i);
    }
  }

  /** Whole words under a prepared key, and the octets left over under a cycle. */
  method MaskBuffer(m: Machine, input: array<Octet>, from: nat, output: array<Octet>, to: nat, length: nat,
          prepared: Word, cycle: seq<Octet>,
                    n: nat, at: nat)
    requires |prepared| == m.wordSize && cycle != [] && at == Times(n, m.wordSize) <= length
    requires from + length <= input.Length && to + length <= output.Length
    requires input == output ==> from == to
    modifies output
    ensures var data := old(input[..])[from..from + length];
      output[..] == Overwritten(old(output[..]), to,
                                Cycled(data[..at], InMemory(m, prepared)) + Cycled(data[at..], cycle))
  {
    ghost var input0, output0 := input[..], output[..];
    ghost var data := input0[from..from + length];
    ghost var words, rest := data[..at], data[at..];
    WordsEnd(words, InMemory(m, prepared), n);
    SubSlice(input0, from, data, 0, at);
    Started(input, output, from, to);
    assert Times(0, m.wordSize) == 0;
    assert forall k :: 0 <= k < |rest| ==> rest[k] == input0[from + at + k];
    hide *;
    MaskWordsLoop(m, input, from, output, to, n, prepared, input0, output0, words);
    ghost var t := Cycled(words, InMemory(m, prepared));
    assert WordsSoFar(words, InMemory(m, prepared), n) == t;
    MaskOctetsLoop(input, from + at, output, to + at, length - at, cycle, from, input0, output0, to, t, rest);
    Finished(input, output, from, input0, output0, to, t + Cycled(rest, cycle));
  }

  /** `word_mask_circ`, into another buffer or in place. */
  method WordMaskCirc(m: Machine, input: array<Octet>, from: nat, output: array<Octet>, to: nat, length: nat,
          prepared: Word)
    returns (next: Word)
    requires |prepared| == m.wordSize
    requires from + length <= input.Length && to + length <= output.Length
    requires input == output ==> from == to
    modifies output
    ensures var (masked, key) := Masked(m, ByWord, old(input[..])[from..from + length], prepared);
      next == key && output[..] == Overwritten(old(output[..]), to, masked)
  {
    hide InMemory, Cycled, Overwritten, CircshiftPreparedKey, Times;
    var n := length / m.wordSize;
    WordsAndRest(m, length);
    var at := Times(n, m.wordSize);
    var rest := length - at;
    var cycle := InMemory(m, prepared);
    WholeBuffer(m, input[..][from..from + length], cycle, n, at);
    MaskBuffer(m, input, from, output, to, length, prepared, cycle, n, at);
    next := CircshiftPreparedKey(m, prepared, rest);
  }

  /** `word_mask_exact`, into another buffer or in place. */
  method WordMaskExact(m: Machine, input: array<Octet>, from: nat, output: array<Octet>, to: nat, length: nat, key: Key)
    requires from + length <= input.Length && to + length <= output.Length
    requires input == output ==> from == to
    modifies output
    ensures output[..] == Overwritten(old(output[..]), to, Mask(old(input[..])[from..from + length], key, 0))
  {
    hide *;
    var prepared := PrepareMaskingKey(m, key);
    var n := length / m.wordSize;
    WordsAndRest(m, length);
    var at := Times(n, m.wordSize);
    ExactBuffer(m, input[..][from..from + length], key, n, at);
    MaskBuffer(m, input, from, output, to, length, prepared, key, n, at);
  }
}
