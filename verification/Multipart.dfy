/** Encoding several message parts in one message, as CZMQ does, and the list of parts it is used with. */
module Multipart {
  import opened Bytes

  const UINT8_MAX: nat := 255
  const UINT32_MAX: nat := 0xFFFF_FFFF

  type Part = seq<byte>

  // ---------------------------------------------------------------- sizes

  function NetworkOrder(v: nat): (s: seq<byte>)
    requires v <= UINT32_MAX
    ensures |s| == 4
  {
    [v / 0x100_0000, v / 0x1_0000 % 256, v / 0x100 % 256, v % 256]
  }

  function ReadU32(s: seq<byte>): (v: nat)
    requires |s| == 4
    ensures v <= UINT32_MAX
  {
    s[0] as int * 0x100_0000 + s[1] as int * 0x1_0000 + s[2] as int * 0x100 + s[3]
  }

  lemma ReadNetworkOrder(v: nat)
    requires v <= UINT32_MAX
    ensures ReadU32(NetworkOrder(v)) == v
  {
    var w := v / 256;
    var x := w / 256;
    assert v / 0x100 == w && v / 0x1_0000 == x && v / 0x100_0000 == x / 256;
    assert v == 256 * w + v % 256 && w == 256 * x + w % 256 && x == 256 * (x / 256) + x % 256;
  }

  lemma NetworkOrderRead(s: seq<byte>)
    requires |s| == 4
    ensures NetworkOrder(ReadU32(s)) == s
  {
    var x := s[0] as int * 256 + s[1];
    var w := x * 256 + s[2];
    var v := w * 256 + s[3];
    assert ReadU32(s) == v;
    Digit(w, s[3]);
    Digit(x, s[2]);
    Digit(s[0], s[1]);
    Quotients(v);
    hide ReadU32;
  }

  lemma Digit(high: nat, low: byte)
    ensures (high * 256 + low) / 256 == high && (high * 256 + low) % 256 == low
  {
  }

  lemma Quotients(v: nat)
    ensures v / 0x100_0000 == v / 256 / 256 / 256 && v / 0x1_0000 == v / 256 / 256
  {
  }

  // ---------------------------------------------------------------- what an encoded message is

  /** A part and the form in which its size is written.  A long size may be small. */
  datatype Item = Item(long: bool, part: Part)

  predicate ItemFits(i: Item) {
    if i.long then |i.part| <= UINT32_MAX else |i.part| < UINT8_MAX
  }

  predicate Fits(items: seq<Item>) {
    forall i :: i in items ==> ItemFits(i)
  }

  function SpellItem(i: Item): seq<byte>
    requires ItemFits(i)
  {
    (if i.long then [255] + NetworkOrder(|i.part|) else [|i.part|]) + i.part
  }

  function Spell(items: seq<Item>): seq<byte>
    requires Fits(items)
  {
    if items == [] then [] else SpellItem(items[0]) + Spell(items[1..])
  }

  function PartsOf(items: seq<Item>): (r: seq<Part>)
    ensures |r| == |items|
  {
    if items == [] then [] else [items[0].part] + PartsOf(items[1..])
  }

  // ---------------------------------------------------------------- encoding

  predicate Encodable(parts: seq<Part>) {
    forall p :: p in parts ==> |p| <= UINT32_MAX
  }

  /** The encoder writes the short form of a size where it can. */
  function Short(parts: seq<Part>): (r: seq<Item>)
    ensures Encodable(parts) ==> Fits(r)
    ensures |r| == |parts|
  {
    if parts == [] then [] else [Item(|parts[0]| >= UINT8_MAX, parts[0])] + Short(parts[1..])
  }

  function Encoded(parts: seq<Part>): seq<byte>
    requires Encodable(parts)
  {
    Spell(Short(parts))
  }

  /** A part in octets: a size below 255 in one, and any other in five, the first of which is 255 and the
    * rest the size, most significant first; and then the part. */
  lemma EncodedPart(p: Part)
    requires |p| <= 0xFFFF_FFFF
    ensures var e := Encoded([p]);
      if |p| < 255 then e == [|p|] + p
      else |e| == 5 + |p| && e[0] == 255 && e[5..] == p
           && e[1] as int * 0x100_0000 + e[2] as int * 0x1_0000 + e[3] as int * 0x100 + e[4] == |p|
  {
    assert Short([p]) == [Item(|p| >= UINT8_MAX, p)] + Short([p][1..]);
    assert Spell(Short([p])) == SpellItem(Item(|p| >= UINT8_MAX, p)) + [];
    if |p| >= 255 {
      ReadNetworkOrder(|p|);
      var e := Encoded([p]);
      assert e == [255] + NetworkOrder(|p|) + p;
      assert [e[1], e[2], e[3], e[4]] == NetworkOrder(|p|);
    }
    hide NetworkOrder;
  }

  // ---------------------------------------------------------------- decoding

  datatype Taken = Malformed | Took(item: Item, rest: seq<byte>)

  function TakeItem(s: seq<byte>): (r: Taken)
    requires s != []
    ensures r.Took? ==> ItemFits(r.item) && |r.rest| < |s|
  {
    if s[0] < 255 then
      if |s| - 1 < s[0] then Malformed else Took(Item(false, s[1..1 + s[0]]), s[1 + s[0]..])
    else if |s| - 1 < 4 then Malformed
    else
      var n := ReadU32(s[1..5]);
      if |s| - 5 < n then Malformed else Took(Item(true, s[5..5 + n]), s[5 + n..])
  }

  /** The items read, and whether they were the whole message. */
  function Items(s: seq<byte>): (r: (seq<Item>, bool))
    ensures Fits(r.0)
    decreases |s|
  {
    if s == [] then ([], true)
    else
      match TakeItem(s)
      case Malformed => ([], false)
      case Took(item, rest) =>
        var (items, ok) := Items(rest);
        ([item] + items, ok)
  }

  // ---------------------------------------------------------------- round trips

  lemma TakeSpelled(i: Item, rest: seq<byte>)
    requires ItemFits(i)
    ensures TakeItem(SpellItem(i) + rest) == Took(i, rest)
  {
    var s := SpellItem(i) + rest;
    if i.long {
      ReadNetworkOrder(|i.part|);
      hide NetworkOrder, ReadU32;
      assert s == [255] + (NetworkOrder(|i.part|) + (i.part + rest));
      assert s[1..5] == NetworkOrder(|i.part|);
      assert s[5..5 + |i.part|] == i.part && s[5 + |i.part|..] == rest;
    } else {
      assert s == [|i.part|] + (i.part + rest);
      assert s[1..1 + |i.part|] == i.part && s[1 + |i.part|..] == rest;
    }
  }

  lemma SpellTaken(s: seq<byte>)
    requires s != [] && TakeItem(s).Took?
    ensures s == SpellItem(TakeItem(s).item) + TakeItem(s).rest
  {
    if s[0] < 255 {
      var n := s[0];
      assert s == [n] + s[1..1 + n] + s[1 + n..];
    } else {
      var n := ReadU32(s[1..5]);
      NetworkOrderRead(s[1..5]);
      hide ReadU32, NetworkOrder;
      assert s == [255] + s[1..5] + s[5..5 + n] + s[5 + n..];
    }
  }

  lemma ItemsStep(i: Item, rest: seq<byte>)
    requires ItemFits(i)
    ensures Items(SpellItem(i) + rest) == ([i] + Items(rest).0, Items(rest).1)
  {
    TakeSpelled(i, rest);
    assert SpellItem(i) + rest != [];
    hide TakeItem;
  }

  lemma FitsParts(items: seq<Item>)
    requires Fits(items) && items != []
    ensures ItemFits(items[0]) && Fits(items[1..])
    ensures Spell(items) == SpellItem(items[0]) + Spell(items[1..])
  {
    assert items[0] in items;
  }

  /** Decoding inverts spelling, in whatever form each size is written, and goes on with what follows. */
  lemma {:induction false} ItemsSpelled(items: seq<Item>, rest: seq<byte>)
    requires Fits(items)
    ensures Items(Spell(items) + rest) == (items + Items(rest).0, Items(rest).1)
    decreases |items|
  {
    if items == [] {
      assert Spell(items) + rest == rest;
      assert items + Items(rest).0 == Items(rest).0;
    } else {
      FitsParts(items);
      hide *;
      Associate(SpellItem(items[0]), Spell(items[1..]), rest);
      ItemsStep(items[0], Spell(items[1..]) + rest);
      ItemsSpelled(items[1..], rest);
      Associate([items[0]], items[1..], Items(rest).0);
      assert items == [items[0]] + items[1..];
    }
  }

  /** A message is decoded, and then exactly consumed, if and only if some items spell it; otherwise the
    * decoder throws.  The items are then the ones it found. */
  lemma DecodableIff(s: seq<byte>)
    ensures Items(s).1 ==> Spell(Items(s).0) == s
    ensures Items(s).1 <==> exists items :: Fits(items) && Spell(items) == s
  {
    SpellItems(s);
    if items :| Fits(items) && Spell(items) == s {
      ItemsSpelled(items, []);
      assert Spell(items) + [] == s;
    }
  }

  lemma {:induction false} SpellItems(s: seq<byte>)
    ensures Items(s).1 ==> Spell(Items(s).0) == s
    decreases |s|
  {
    if s != [] && TakeItem(s).Took? {
      SpellTaken(s);
      SpellItems(TakeItem(s).rest);
      hide SpellItem, TakeItem;
      var item, items := TakeItem(s).item, Items(TakeItem(s).rest).0;
      assert ([item] + items)[1..] == items;
    }
  }

  lemma {:induction false} PartsOfShort(parts: seq<Part>)
    ensures PartsOf(Short(parts)) == parts
  {
    if parts != [] {
      PartsOfShort(parts[1..]);
      var one := [Item(|parts[0]| >= UINT8_MAX, parts[0])];
      assert (one + Short(parts[1..]))[1..] == Short(parts[1..]);
      assert parts == [parts[0]] + parts[1..];
    }
  }

  /** Decoding what was encoded gives back the parts, and all of them. */
  lemma RoundTrip(parts: seq<Part>)
    requires Encodable(parts)
    ensures Items(Encoded(parts)).1 && PartsOf(Items(Encoded(parts)).0) == parts
  {
    ItemsSpelled(Short(parts), []);
    assert Encoded(parts) + [] == Encoded(parts);
    assert Items([]) == ([], true);
    assert Short(parts) + [] == Short(parts);
    PartsOfShort(parts);
  }

  lemma {:induction false} SpellAppend(a: seq<Item>, b: seq<Item>)
    requires Fits(a) && Fits(b)
    ensures Fits(a + b) && Spell(a + b) == Spell(a) + Spell(b)
    decreases |a|
  {
    if a == [] {
      assert a + b == b;
    } else {
      assert (a + b)[1..] == a[1..] + b;
      SpellAppend(a[1..], b);
    }
  }

  lemma {:induction false} ShortAppend(a: seq<Part>, b: seq<Part>)
    ensures Short(a + b) == Short(a) + Short(b)
    decreases |a|
  {
    if a == [] {
      assert a + b == b;
    } else {
      assert (a + b)[1..] == a[1..] + b;
      ShortAppend(a[1..], b);
    }
  }

  lemma EncodedAppend(a: seq<Part>, b: seq<Part>)
    requires Encodable(a) && Encodable(b)
    ensures Encodable(a + b) && Encoded(a + b) == Encoded(a) + Encoded(b)
  {
    ShortAppend(a, b);
    SpellAppend(Short(a), Short(b));
  }

  // ---------------------------------------------------------------- messages that were not encoded here

  /** The item the encoder would write for the part of another. */
  function Shortest(i: Item): Item {
    Item(|i.part| >= UINT8_MAX, i.part)
  }

  lemma ShortestItem(i: Item)
    requires ItemFits(i)
    ensures ItemFits(Shortest(i))
    ensures |SpellItem(Shortest(i))| <= |SpellItem(i)|
    ensures |SpellItem(Shortest(i))| == |SpellItem(i)| <==> Shortest(i) == i
    ensures Shortest(i) == i <==> (i.long ==> |i.part| >= UINT8_MAX)
  {
  }

  lemma ShortOfParts(items: seq<Item>)
    requires items != []
    ensures Short(PartsOf(items)) == [Shortest(items[0])] + Short(PartsOf(items[1..]))
  {
    var parts := PartsOf(items);
    assert parts[0] == items[0].part && parts[1..] == PartsOf(items[1..]);
  }

  lemma {:induction false} ShortestItems(items: seq<Item>)
    requires Fits(items)
    ensures Encodable(PartsOf(items))
    ensures |Spell(Short(PartsOf(items)))| <= |Spell(items)|
    ensures items == Short(PartsOf(items)) <==> |Spell(Short(PartsOf(items)))| == |Spell(items)|
    decreases |items|
  {
    PartsEncodable(items);
    if items != [] {
      FitsParts(items);
      ShortOfParts(items);
      hide *;
      var rest := items[1..];
      ShortestItems(rest);
      var i, s, short := items[0], Shortest(items[0]), Short(PartsOf(rest));
      ShortestItem(i);
      Heads(i, rest, s, short);
      assert items == [i] + rest;
      SpellCons(s, short);
    }
  }

  lemma SpellCons(i: Item, items: seq<Item>)
    requires ItemFits(i) && Fits(items)
    ensures Fits([i] + items) && Spell([i] + items) == SpellItem(i) + Spell(items)
  {
    assert ([i] + items)[1..] == items;
  }

  lemma {:induction false} PartsEncodable(items: seq<Item>)
    requires Fits(items)
    ensures Encodable(PartsOf(items))
  {
    if items != [] {
      FitsParts(items);
      PartsEncodable(items[1..]);
      hide Spell, SpellItem;
    }
  }

  /** Encoding again what was decoded takes no more octets, and gives back the message exactly if no size
    * below 255 was written in the long form. */
  lemma ReencodingShortens(s: seq<byte>)
    requires Items(s).1
    ensures var items := Items(s).0; var parts := PartsOf(items);
      && Encodable(parts)
      && |Encoded(parts)| <= |s|
      && (Encoded(parts) == s <==> LongOnlyWhenNeeded(items))
  {
    var items := Items(s).0;
    SpellItems(s);
    ShortestItems(items);
    ShortIff(items);
  }

  predicate LongOnlyWhenNeeded(items: seq<Item>) {
    forall k :: 0 <= k < |items| ==> items[k].long ==> |items[k].part| >= UINT8_MAX
  }

  lemma {:induction false} ShortIff(items: seq<Item>)
    requires Fits(items)
    ensures items == Short(PartsOf(items)) <==> LongOnlyWhenNeeded(items)
    decreases |items|
  {
    if items != [] {
      FitsParts(items);
      var i, rest := items[0], items[1..];
      ShortIff(rest);
      ShortOfParts(items);
      ShortestItem(i);
      NeededParts(items);
      assert items == [i] + rest;
      Heads(i, rest, Shortest(i), Short(PartsOf(rest)));
      hide *;
    }
  }

  lemma NeededParts(items: seq<Item>)
    requires items != []
    ensures LongOnlyWhenNeeded(items)
       <==> (items[0].long ==> |items[0].part| >= UINT8_MAX) && LongOnlyWhenNeeded(items[1..])
  {
    assert forall k :: 0 <= k < |items[1..]| ==> items[1..][k] == items[k + 1];
  }

  lemma Heads<T>(a: T, s: seq<T>, b: T, t: seq<T>)
    ensures [a] + s == [b] + t <==> a == b && s == t
  {
    assert ([a] + s)[1..] == s && ([b] + t)[1..] == t;
    assert ([a] + s)[0] == a && ([b] + t)[0] == b;
  }

  // ---------------------------------------------------------------- the encoder

  /** Either kind of machine writes the most significant octet first; on a big endian one that is how the
    * number lies in memory. */
  method WriteNetworkOrder(buf: array<byte>, at: nat, value: nat, little: bool)
    requires value <= UINT32_MAX && at + 4 <= buf.Length
    modifies buf
    ensures buf[..] == Overwritten(old(buf[..]), at, NetworkOrder(value))
  {
    if little {
      buf[at] := value / 0x100_0000;
      buf[at + 1] := value / 0x1_0000 % 256;
      buf[at + 2] := value / 0x100 % 256;
      buf[at + 3] := value % 256;
      assert buf[at..at + 4] == NetworkOrder(value);
    } else {
      CopyTo(NetworkOrder(value), buf, at);
    }
  }

  datatype Encoding = RangeError | Message(octets: seq<byte>)

  lemma EncodedSnoc(parts: seq<Part>, i: nat)
    requires i < |parts| && Encodable(parts[..i]) && |parts[i]| <= UINT32_MAX
    ensures Encodable(parts[..i + 1])
    ensures Encoded(parts[..i + 1]) == Encoded(parts[..i]) + SpellItem(Item(|parts[i]| >= UINT8_MAX, parts[i]))
  {
    var p := parts[i];
    assert parts[..i + 1] == parts[..i] + [p];
    var one := Item(|p| >= UINT8_MAX, p);
    assert Short([p]) == [one] + Short([p][1..]) == [one];
    assert Spell([one]) == SpellItem(one) + Spell([one][1..]) == SpellItem(one);
    hide SpellItem, Short, Spell;
    EncodedAppend(parts[..i], [p]);
  }

  /** The first pass: the sizes, or the error of a part that is too large. */
  method MessageSize(parts: seq<Part>) returns (ok: bool, size: nat)
    ensures ok <==> Encodable(parts)
    ensures ok ==> size == |Encoded(parts)|
  {
    size := 0;
    hide Encoded;
    assert |Encoded([])| == 0 by { NothingEncoded(); }
    assert parts[..0] == [];
    for i := 0 to |parts|
      invariant Encodable(parts[..i]) && size == |Encoded(parts[..i])|
    {
      var partSize := |parts[i]|;
      if partSize > UINT32_MAX {
        assert parts[i] in parts;
        return false, 0;
      }
      var countSize := if partSize < UINT8_MAX then 1 else 5;
      EncodedSnoc(parts, i);
      size := size + (partSize + countSize);
    }
    assert parts[..|parts|] == parts;
    ok := true;
  }

  lemma NothingEncoded()
    ensures Encoded([]) == []
  {
  }

  /** One part: its size in the form it needs, and its data. */
  method WritePart(buf: array<byte>, at: nat, part: Part, little: bool) returns (end: nat)
    requires |part| <= UINT32_MAX && at + (if |part| < UINT8_MAX then 1 else 5) + |part| <= buf.Length
    modifies buf
    ensures end == at + |SpellItem(Item(|part| >= UINT8_MAX, part))| <= buf.Length
    ensures buf[..] == Overwritten(old(buf[..]), at, SpellItem(Item(|part| >= UINT8_MAX, part)))
  {
    ghost var before := buf[..];
    end := WriteSize(buf, at, |part|, little);
    ghost var size: seq<byte> := if |part| < UINT8_MAX then [|part|] else [255] + NetworkOrder(|part|);
    OverwrittenMore(before, at, size, part);
    hide Overwritten, NetworkOrder;
    CopyTo(part, buf, end);
    end := end + |part|;
  }

  method WriteSize(buf: array<byte>, at: nat, partSize: nat, little: bool) returns (end: nat)
    requires partSize <= UINT32_MAX && at + (if partSize < UINT8_MAX then 1 else 5) <= buf.Length
    modifies buf
    ensures var size: seq<byte> := if partSize < UINT8_MAX then [partSize] else [255] + NetworkOrder(partSize);
      end == at + |size| && buf[..] == Overwritten(old(buf[..]), at, size)
  {
    hide Overwritten, NetworkOrder;
    end := at;
    if partSize < UINT8_MAX {
      CopyTo([partSize], buf, end);
      end := end + 1;
    } else {
      OverwrittenMore(buf[..], at, [255], NetworkOrder(partSize));
      CopyTo([255], buf, end);
      end := end + 1;
      WriteNetworkOrder(buf, end, partSize, little);
      end := end + 4;
    }
  }

  method Encode(parts: seq<Part>, little: bool) returns (r: Encoding)
    ensures r == if Encodable(parts) then Message(Encoded(parts)) else RangeError
  {
    var ok, size := MessageSize(parts);
    if !ok {
      return RangeError;
    }
    var encoded := new byte[size];
    var buf: nat := 0;
    assert parts[..0] == [];
    NothingEncoded();
    hide Encoded, SpellItem, Overwritten;
    for i := 0 to |parts|
      invariant buf <= size && Encodable(parts[..i]) && encoded[..][..buf] == Encoded(parts[..i])
    {
      FitsInMessage(parts, i);
      EncodedSnoc(parts, i);
      ghost var before := encoded[..];
      var end := WritePart(encoded, buf, parts[i], little);
      WrittenMore(before, buf, SpellItem(Item(|parts[i]| >= UINT8_MAX, parts[i])));
      buf := end;
    }
    assert parts[..|parts|] == parts;
    assert encoded[..][..size] == encoded[..];
    r := Message(encoded[..]);
  }

  lemma WrittenMore(s: seq<byte>, at: nat, t: seq<byte>)
    requires at + |t| <= |s|
    ensures Overwritten(s, at, t)[..at + |t|] == s[..at] + t
  {
  }

  lemma FitsInMessage(parts: seq<Part>, i: nat)
    requires Encodable(parts) && i < |parts|
    ensures Encodable(parts[..i]) && |parts[i]| <= UINT32_MAX
    ensures |Encoded(parts[..i])| + (if |parts[i]| < UINT8_MAX then 1 else 5) + |parts[i]| <= |Encoded(parts)|
  {
    assert parts[i] in parts;
    EncodedSnoc(parts, i);
    assert parts == parts[..i + 1] + parts[i + 1..];
    EncodedAppend(parts[..i + 1], parts[i + 1..]);
    hide Encoded;
  }

  // ---------------------------------------------------------------- the decoder

  /** The next part, or the error of a size that exceeds the message. */
  method ReadPart(encoded: seq<byte>, from: nat) returns (ok: bool, part: Part, source: nat)
    requires from < |encoded|
    ensures ok <==> TakeItem(encoded[from..]).Took?
    ensures ok ==> from < source <= |encoded| && TakeItem(encoded[from..]).rest == encoded[source..]
    ensures ok ==> TakeItem(encoded[from..]).item.part == part
  {
    ghost var s := encoded[from..];
    source := from;
    var partSize: nat := encoded[source];
    source := source + 1;
    if partSize == UINT8_MAX {
      if |encoded| - source < 4 {
        return false, [], source;
      }
      assert encoded[source..source + 4] == s[1..5];
      partSize := ReadU32(encoded[source..source + 4]);
      source := source + 4;
    }
    hide ReadU32;
    if |encoded| - source < partSize {
      return false, [], source;
    }
    Slices(encoded, from, source - from, partSize);
    part := encoded[source..source + partSize];
    source := source + partSize;
    ok := true;
  }

  lemma Slices(s: seq<byte>, from: nat, k: nat, n: nat)
    requires from + k + n <= |s|
    ensures s[from..][k..k + n] == s[from + k..from + k + n] && s[from..][k + n..] == s[from + k + n..]
  {
  }

  method Decode(encoded: seq<byte>) returns (out: seq<Part>, ok: bool)
    ensures out == PartsOf(Items(encoded).0) && ok == Items(encoded).1
  {
    var source := 0;
    out := [];
    ghost var all := Items(encoded);
    assert encoded[0..] == encoded && [] + PartsOf(all.0) == PartsOf(all.0);
    hide TakeItem;
    while source < |encoded|
      invariant source <= |encoded|
      invariant out + PartsOf(Items(encoded[source..]).0) == PartsOf(all.0) && Items(encoded[source..]).1 == all.1
      decreases |encoded| - source
    {
      ghost var s := encoded[source..];
      var found, part, next := ReadPart(encoded, source);
      ItemsOne(s);
      if !found {
        return out, false;
      }
      Associate(out, [part], PartsOf(Items(encoded[next..]).0));
      out := out + [part];
      source := next;
    }
    ok := true;
  }

  lemma ItemsOne(s: seq<byte>)
    requires s != []
    ensures TakeItem(s).Malformed? ==> Items(s) == ([], false)
    ensures TakeItem(s).Took? ==>
      && Items(s).1 == Items(TakeItem(s).rest).1
      && PartsOf(Items(s).0) == [TakeItem(s).item.part] + PartsOf(Items(TakeItem(s).rest).0)
  {
    hide TakeItem;
    if TakeItem(s).Took? {
      var item, items := TakeItem(s).item, Items(TakeItem(s).rest).0;
      assert ([item] + items)[1..] == items;
    }
  }

  // ---------------------------------------------------------------- the list of parts

  /** `multipart_t`, a deque of messages. */
  class MultipartList {
    var parts: seq<Part>

    constructor ()
      ensures parts == []
    {
      parts := [];
    }

    method Push(message: Part)
      modifies this
      ensures parts == [message] + old(parts)
    {
      parts := [message] + parts;
    }

    method Add(message: Part)
      modifies this
      ensures parts == old(parts) + [message]
    {
      parts := parts + [message];
    }

    /** Taking from an empty deque is undefined. */
    method Pop() returns (message: Part)
      requires parts != []
      modifies this
      ensures [message] + parts == old(parts)
    {
      message := parts[0];
      parts := parts[1..];
    }

    method Remove() returns (message: Part)
      requires parts != []
      modifies this
      ensures parts + [message] == old(parts)
    {
      message := parts[|parts| - 1];
      parts := parts[..|parts| - 1];
    }

    method Prepend(other: MultipartList)
      requires other != this
      modifies this, other
      ensures parts == old(other.parts) + old(parts) && other.parts == []
    {
      while other.parts != []
        invariant other.parts + parts == old(other.parts) + old(parts)
        decreases |other.parts|
      {
        var message := other.Remove();
        Push(message);
        Associate(other.parts, [message], parts[1..]);
      }
    }

    method Append(other: MultipartList)
      requires other != this
      modifies this, other
      ensures parts == old(parts) + old(other.parts) && other.parts == []
    {
      while other.parts != []
        invariant parts + other.parts == old(parts) + old(other.parts)
        decreases |other.parts|
      {
        ghost var before := parts;
        var message := other.Pop();
        Add(message);
        Associate(before, [message], other.parts);
      }
    }

    method Clone() returns (multipart: MultipartList)
      ensures fresh(multipart) && multipart.parts == parts
    {
      multipart := new MultipartList();
      for i := 0 to |parts|
        invariant fresh(multipart) && multipart.parts == parts[..i]
      {
        multipart.Add(parts[i]);
      }
    }
  }

  /** Encoding a list after another was appended to it is encoding one and then the other. */
  method EncodeAppended(a: MultipartList, b: MultipartList, little: bool) returns (r: Encoding)
    requires a != b
    modifies a, b
    ensures Encodable(old(a.parts)) && Encodable(old(b.parts)) ==>
      r == Message(Encoded(old(a.parts)) + Encoded(old(b.parts)))
  {
    ghost var x, y := a.parts, b.parts;
    a.Append(b);
    r := Encode(a.parts, little);
    if Encodable(x) && Encodable(y) {
      EncodedAppend(x, y);
    }
  }
}
