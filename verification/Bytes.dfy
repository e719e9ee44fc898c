/** Bytes as the formats use them: big-endian numbers, the order of Buffer.compare, path components. */
module Bytes {
  import opened Prelude

  // ---------------------------------------------------------------- big-endian numbers

  function Pow256(n: nat): nat {
    if n == 0 then 1 else 256 * Pow256(n - 1)
  }

  /** `writeUInt32BE`, `writeBigUInt64BE`, `to_be_bytes`: the low `n` bytes of the number. */
  function BigEndian(v: nat, n: nat): (r: seq<byte>)
    ensures |r| == n
  {
    if n == 0 then [] else BigEndian(v / 256, n - 1) + [v % 256]
  }

  /** `readUInt32BE`, `readBigUInt64BE`. */
  function FromBigEndian(b: seq<byte>): nat {
    if b == [] then 0 else FromBigEndian(b[..|b| - 1]) * 256 + b[|b| - 1]
  }

  lemma {:induction false} BigEndianReadsBack(v: nat, n: nat)
    requires v < Pow256(n)
    ensures FromBigEndian(BigEndian(v, n)) == v
  {
    if n > 0 {
      BigEndianReadsBack(v / 256, n - 1);
      assert BigEndian(v, n)[..n - 1] == BigEndian(v / 256, n - 1);
    }
  }

  lemma {:induction false} BigEndianWritesBack(b: seq<byte>)
    ensures BigEndian(FromBigEndian(b), |b|) == b && FromBigEndian(b) < Pow256(|b|)
  {
    if b != [] {
      var front, last := b[..|b| - 1], b[|b| - 1];
      BigEndianWritesBack(front);
      assert b == front + [last];
      assert (FromBigEndian(front) * 256 + last) / 256 == FromBigEndian(front);
    }
  }

  lemma Widths()
    ensures Pow256(4) == 0x1_0000_0000 && Pow256(8) == 0x1_0000_0000_0000_0000
  {
    assert Pow256(1) == 256;
    assert Pow256(2) == 0x1_0000;
    assert Pow256(3) == 0x100_0000;
    assert Pow256(4) == 0x1_0000_0000;
    assert Pow256(5) == 0x100_0000_0000;
    assert Pow256(6) == 0x1_0000_0000_0000;
    assert Pow256(7) == 0x100_0000_0000_0000;
  }

  /** Four bytes as a number, the most significant first. */
  function Number32(b: seq<byte>): nat
    requires |b| == 4
  {
    (b[0] as nat) * 0x100_0000 + (b[1] as nat) * 0x1_0000 + (b[2] as nat) * 0x100 + b[3] as nat
  }

  lemma FourBytes(b: seq<byte>)
    requires |b| == 4
    ensures FromBigEndian(b) == Number32(b)
  {
    assert b[..3][..2] == b[..2] && b[..2][..1] == b[..1] && b[..1][..0] == [];
    LastByte(b);
    LastByte(b[..3]);
    LastByte(b[..2]);
    LastByte(b[..1]);
  }

  lemma EightBytes(b: seq<byte>)
    requires |b| == 8
    ensures FromBigEndian(b) == Number32(b[..4]) * 0x1_0000_0000 + Number32(b[4..])
  {
    FourBytes(b[..4]);
    hide FromBigEndian;
    assert b[..7][..6] == b[..6] && b[..6][..5] == b[..5] && b[..5][..4] == b[..4];
    LastByte(b[..5]);
    LastByte(b[..6]);
    LastByte(b[..7]);
    LastByte(b);
  }

  lemma LastByte(b: seq<byte>)
    requires b != []
    ensures FromBigEndian(b) == FromBigEndian(b[..|b| - 1]) * 256 + b[|b| - 1]
  {
  }

  // ---------------------------------------------------------------- parts of a buffer

  /** The buffer has `part` at `offset`. */
  predicate At(buffer: seq<byte>, offset: nat, part: seq<byte>) {
    offset + |part| <= |buffer| && buffer[offset..offset + |part|] == part
  }

  lemma AtAppend(buffer: seq<byte>, offset: nat, a: seq<byte>, b: seq<byte>)
    ensures At(buffer, offset, a + b) <==> At(buffer, offset, a) && At(buffer, offset + |a|, b)
  {
    if offset + |a| + |b| <= |buffer| {
      var mid, end := offset + |a|, offset + |a| + |b|;
      assert buffer[offset..end] == buffer[offset..mid] + buffer[mid..end];
      assert (a + b)[..|a|] == a && (a + b)[|a|..] == b;
      if At(buffer, offset, a + b) {
        assert buffer[offset..end][..|a|] == buffer[offset..mid];
        assert buffer[offset..end][|a|..] == buffer[mid..end];
      }
    }
  }

  // ---------------------------------------------------------------- Buffer.compare

  /** `Buffer.compare(a, b) < 0`. */
  predicate Before(a: seq<byte>, b: seq<byte>) {
    b != [] && (a == [] || a[0] < b[0] || (a[0] == b[0] && Before(a[1..], b[1..])))
  }

  /** The first bytes that differ decide, as unsigned numbers; of a string and its beginning the shorter comes first. */
  lemma {:induction false} BeforeMeans(a: seq<byte>, b: seq<byte>)
    ensures Before(a, b) <==>
      exists k: nat :: SameUpTo(a, b, k) && (if k == |a| then k < |b| else k < |b| && a[k] < b[k])
  {
    if a != [] && b != [] && a[0] == b[0] {
      BeforeMeans(a[1..], b[1..]);
      if Before(a, b) {
        var k: nat :| SameUpTo(a[1..], b[1..], k) &&
        (if k == |a[1..]| then k < |b[1..]| else k < |b[1..]| && a[1..][k] < b[1..][k]);
        assert a[..k + 1] == [a[0]] + a[1..][..k] && b[..k + 1] == [b[0]] + b[1..][..k];
        assert SameUpTo(a, b, k + 1);
      }
      if k: nat :| SameUpTo(a, b, k) && (if k == |a| then k < |b| else k < |b| && a[k] < b[k]) {
        assert k > 0;
        assert a[1..][..k - 1] == a[..k][1..] && b[1..][..k - 1] == b[..k][1..];
        assert SameUpTo(a[1..], b[1..], k - 1);
      }
    } else {
      if Before(a, b) { assert SameUpTo(a, b, 0); }
      if k: nat :| SameUpTo(a, b, k) && (if k == |a| then k < |b| else k < |b| && a[k] < b[k]) {
        if k > 0 { assert a[..k][0] == b[..k][0]; }
      }
    }
  }

  predicate SameUpTo(a: seq<byte>, b: seq<byte>, k: nat) {
    k <= |a| && k <= |b| && a[..k] == b[..k]
  }

  lemma {:induction false} BeforeIrreflexive(a: seq<byte>)
    ensures !Before(a, a)
  {
    if a != [] { BeforeIrreflexive(a[1..]); }
  }

  lemma {:induction false} BeforeTransitive(a: seq<byte>, b: seq<byte>, c: seq<byte>)
    requires Before(a, b) && Before(b, c)
    ensures Before(a, c)
  {
    if a != [] && a[0] == b[0] == c[0] { BeforeTransitive(a[1..], b[1..], c[1..]); }
  }

  lemma {:induction false} BeforeTotal(a: seq<byte>, b: seq<byte>)
    ensures a == b || Before(a, b) || Before(b, a)
  {
    if a != [] && b != [] && a[0] == b[0] {
      BeforeTotal(a[1..], b[1..]);
      assert a == [a[0]] + a[1..] && b == [b[0]] + b[1..];
    }
  }

  lemma {:induction false} PrefixBefore(a: seq<byte>, b: seq<byte>)
    requires a < b
    ensures Before(a, b)
  {
    if a != [] { PrefixBefore(a[1..], b[1..]); }
  }

  // ---------------------------------------------------------------- sorted keys

  predicate Sorted(xs: seq<seq<byte>>) {
    forall i, j :: 0 <= i < j < |xs| ==> Before(xs[i], xs[j])
  }

  predicate IsLeast(s: set<seq<byte>>, least: seq<byte>) {
    least in s && forall x :: x in s ==> x == least || Before(least, x)
  }

  lemma LeastOfTwo(s: set<seq<byte>>, y: seq<byte>, least: seq<byte>)
    requires y in s && IsLeast(s - {y}, least)
    ensures IsLeast(s, if Before(y, least) then y else least)
  {
    BeforeTotal(y, least);
    if Before(y, least) {
      forall x | x in s ensures x == y || Before(y, x) {
        if x != y && x != least { BeforeTransitive(y, least, x); }
      }
    }
  }

  /** The least element of a non-empty set. */
  ghost function Least(s: set<seq<byte>>): (least: seq<byte>)
    requires s != {}
    ensures IsLeast(s, least)
    decreases |s|
  {
    var y :| y in s;
    if s == {y} then y
    else
      var least := Least(s - {y});
      LeastOfTwo(s, y, least);
      if Before(y, least) then y else least
  }

  /** The elements of the set in the order of `Buffer.compare`: what sorting the collected names gives. */
  ghost function SortedKeys(s: set<seq<byte>>): (xs: seq<seq<byte>>)
    ensures Sorted(xs) && (forall x :: x in xs <==> x in s)
    decreases |s|
  {
    if s == {} then []
    else
      var least := Least(s);
      var rest := SortedKeys(s - {least});
      assert forall i :: 0 <= i < |rest| ==> rest[i] in s - {least};
      [least] + rest
  }

  /** A sorted list is determined by its elements. */
  lemma {:induction false} SortedUnique(xs: seq<seq<byte>>, ys: seq<seq<byte>>)
    requires Sorted(xs) && Sorted(ys) && forall x :: x in xs <==> x in ys
    ensures xs == ys
  {
    assert xs != [] ==> xs[0] in ys;
    assert ys != [] ==> ys[0] in xs;
    if xs != [] {
      var i :| 0 <= i < |xs| && xs[i] == ys[0];
      var j :| 0 <= j < |ys| && ys[j] == xs[0];
      if i > 0 && j > 0 { BeforeTransitive(xs[0], xs[i], xs[0]); BeforeIrreflexive(xs[0]); }
      assert xs[0] == ys[0];
      forall x ensures x in xs[1..] <==> x in ys[1..] {
        TailElements(xs, x);
        TailElements(ys, x);
      }
      SortedUnique(xs[1..], ys[1..]);
      assert xs == [xs[0]] + xs[1..] && ys == [ys[0]] + ys[1..];
    }
  }

  lemma TailElements(xs: seq<seq<byte>>, x: seq<byte>)
    requires Sorted(xs) && xs != []
    ensures x in xs[1..] <==> x in xs && x != xs[0]
  {
    assert xs == [xs[0]] + xs[1..];
    if x in xs[1..] {
      var i :| 0 <= i < |xs[1..]| && xs[1..][i] == x;
      assert Before(xs[0], xs[i + 1]);
      BeforeIrreflexive(x);
    }
  }

  method InsertSorted(xs: seq<seq<byte>>, x: seq<byte>) returns (ys: seq<seq<byte>>)
    requires Sorted(xs) && x !in xs
    ensures Sorted(ys) && forall p :: p in ys <==> p in xs || p == x
  {
    var at := 0;
    while at < |xs| && Before(xs[at], x)
      invariant 0 <= at <= |xs|
      invariant forall i :: 0 <= i < at ==> Before(xs[i], x)
    {
      at := at + 1;
    }
    ys := xs[..at] + [x] + xs[at..];
    if at < |xs| {
      BeforeTotal(xs[at], x);
      forall i | at <= i < |xs| ensures Before(x, xs[i]) {
        if i > at { BeforeTransitive(x, xs[at], xs[i]); }
      }
    }
    forall p ensures p in ys <==> p in xs || p == x {
      assert xs == xs[..at] + xs[at..];
    }
  }

  /** Collected in any order, then sorted. */
  method SortKeys(keys: set<seq<byte>>) returns (xs: seq<seq<byte>>)
    ensures xs == SortedKeys(keys)
  {
    xs := [];
    var rest := keys;
    while rest != {}
      invariant rest <= keys && Sorted(xs)
      invariant forall p :: p in xs <==> p in keys && p !in rest
      decreases |rest|
    {
      var p :| p in rest;
      rest := rest - {p};
      xs := InsertSorted(xs, p);
    }
    SortedUnique(xs, SortedKeys(keys));
  }
}
