/** Octets, buffers, and the few facts about sequences that several modules share. */
module Bytes {
  type byte = b: int | 0 <= b < 256

  datatype Option<+T> = None | Some(value: T)

  /** The concatenation of a list of chunks. */
  function Concat<T>(chunks: seq<seq<T>>): seq<T> {
    if chunks == [] then [] else chunks[0] + Concat(chunks[1..])
  }

  lemma {:induction false} ConcatAppend<T>(a: seq<seq<T>>, b: seq<seq<T>>)
    ensures Concat(a + b) == Concat(a) + Concat(b)
  {
    if a == [] {
      assert a + b == b;
    } else {
      assert (a + b)[1..] == a[1..] + b;
      ConcatAppend(a[1..], b);
    }
  }

  lemma ConcatSnoc<T>(a: seq<seq<T>>, last: seq<T>)
    ensures Concat(a + [last]) == Concat(a) + last
  {
    ConcatAppend(a, [last]);
    assert Concat([last]) == last + Concat([last][1..]) == last;
  }

  /** A sequence with some elements from a position on replaced. */
  function Overwritten<T>(s: seq<T>, at: nat, t: seq<T>): (r: seq<T>)
    requires at + |t| <= |s|
    ensures |r| == |s|
  {
    s[..at] + t + s[at + |t|..]
  }

  lemma OverwrittenMore<T>(s: seq<T>, at: nat, t: seq<T>, u: seq<T>)
    requires at + |t| + |u| <= |s|
    ensures Overwritten(Overwritten(s, at, t), at + |t|, u) == Overwritten(s, at, t + u)
  {
    var o := Overwritten(s, at, t);
    assert o[..at + |t|] == s[..at] + t;
    assert o[at + |t| + |u|..] == s[at + |t| + |u|..];
  }

  /** `memcpy`, `std::copy`. */
  method CopyTo<T>(t: seq<T>, a: array<T>, at: nat)
    requires at + |t| <= a.Length
    modifies a
    ensures a[..] == Overwritten(old(a[..]), at, t)
  {
    forall i | 0 <= i < |t| {
      a[at + i] := t[i];
    }
    assert a[at..at + |t|] == t;
  }

  lemma Associate<T>(a: seq<T>, b: seq<T>, c: seq<T>)
    ensures a + b + c == a + (b + c)
  {
  }

  lemma Drop<T>(s: seq<T>, i: nat, k: nat)
    requires i + k <= |s|
    ensures s[i..][k..] == s[i + k..]
  {
  }

  // ---------------------------------------------------------------- numbers

  /** Powers of 256. */
  function Power(n: nat): (r: nat)
    ensures r > 0
  {
    if n == 0 then 1 else 256 * Power(n - 1)
  }

  lemma DivMod(q: nat, d: nat, r: nat)
    requires r < d
    ensures (r + d * q) / d == q && (r + d * q) % d == r
  {
    var n := r + d * q;
    var k := n / d - q;
    assert n == d * (n / d) + n % d;
    assert d * (n / d) == d * q + d * k;
    assert 0 - d < d * k < d;
    assert k == 0 by {
      assert k >= 1 ==> d * k >= d;
      assert k <= -1 ==> d * k <= 0 - d;
    }
  }
}
