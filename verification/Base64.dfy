/** The restore of a workspace through a terminal: base64 slices, section 4 of RFC 4648 (`restoreWorkspace` of
    src/backends/docker.ts). */
module Base64 {
  import opened Prelude

  const PAD: byte := 61
  const SLICE_BYTES: nat := 192 * 1024

  /** The alphabet. */
  function Symbol(v: nat): (c: byte)
    requires v < 64
    ensures c != PAD
  {
    if v < 26 then 65 + v else if v < 52 then 71 + v else if v < 62 then v - 4 else if v == 62 then 43 else 47
  }

  /** Capital letters, small letters, digits, '+' and '/'. */
  lemma SymbolMeans(v: nat)
    requires v < 64
    ensures Symbol(v) as int ==
      if v < 26 then 'A' as int + v
      else if v < 52 then 'a' as int + (v - 26)
      else if v < 62 then '0' as int + (v - 52)
      else if v == 62 then '+' as int
      else '/' as int
  {
  }

  function Value(c: byte): (v: Option<nat>)
    ensures v.Some? ==> v.value < 64
  {
    if 65 <= c < 91 then Some(c - 65)
    else if 97 <= c < 123 then Some(c - 71)
    else if 48 <= c < 58 then Some(c + 4)
    else if c == 43 then Some(62)
    else if c == 47 then Some(63)
    else None
  }

  lemma SymbolReadsBack(v: nat)
    requires v < 64
    ensures Value(Symbol(v)) == Some(v)
  {
  }

  function Group(a: byte, b: byte, c: byte): seq<byte> {
    [Symbol(a / 4), Symbol(a % 4 * 16 + b / 16), Symbol(b % 16 * 4 + c / 64), Symbol(c % 64)]
  }

  function LastGroup(tail: seq<byte>): seq<byte>
    requires |tail| == 1 || |tail| == 2
  {
    if |tail| == 1 then [Symbol(tail[0] / 4), Symbol(tail[0] % 4 * 16), PAD, PAD]
    else [Symbol(tail[0] / 4), Symbol(tail[0] % 4 * 16 + tail[1] / 16), Symbol(tail[1] % 16 * 4), PAD]
  }

  /** The four symbols of a group are the digits, in base 64, of its 24 bits; of a last group of one or two bytes,
      those of its bits followed by zeros, and the rest is padding. */
  lemma GroupMeans(a: byte, b: byte, c: byte) returns (v0: nat, v1: nat, v2: nat, v3: nat)
    ensures v0 < 64 && v1 < 64 && v2 < 64 && v3 < 64
    ensures v0 * 0x4_0000 + v1 * 0x1000 + v2 * 0x40 + v3 == (a as nat) * 0x1_0000 + (b as nat) * 0x100 + c as nat
    ensures Group(a, b, c) == [Symbol(v0), Symbol(v1), Symbol(v2), Symbol(v3)]
    ensures b == c == 0 ==> v2 == v3 == 0 && LastGroup([a]) == [Symbol(v0), Symbol(v1), '=' as int, '=' as int]
    ensures c == 0 ==> v3 == 0 && LastGroup([a, b]) == [Symbol(v0), Symbol(v1), Symbol(v2), '=' as int]
  {
    hide Symbol;
    v0, v1, v2, v3 := a / 4, a % 4 * 16 + b / 16, b % 16 * 4 + c / 64, c % 64;
  }

  /** `toString('base64')`. */
  function Encode(b: seq<byte>): (text: seq<byte>)
    ensures |text| == (|b| + 2) / 3 * 4
  {
    if b == [] then []
    else if |b| < 3 then LastGroup(b)
    else Group(b[0], b[1], b[2]) + Encode(b[3..])
  }

  /** The three bytes of a group of four values. */
  function Octets(v0: nat, v1: nat, v2: nat, v3: nat): seq<byte>
    requires v0 < 64 && v1 < 64 && v2 < 64 && v3 < 64
  {
    [v0 * 4 + v1 / 16, v1 % 16 * 16 + v2 / 4, v2 % 4 * 64 + v3]
  }

  /** A strict decoder. */
  function Decode(text: seq<byte>): Option<seq<byte>> {
    if text == [] then Some([])
    else if |text| < 4 then None
    else
      var v := (Value(text[0]), Value(text[1]), Value(text[2]), Value(text[3]));
      if v.0.None? || v.1.None? then None
      else if v.2.None? then
        if |text| == 4 && text[2] == PAD && text[3] == PAD && v.1.value % 16 == 0 then Some([v.0.value * 4 +
                                                                                             v.1.value / 16]) else None
      else if v.3.None? then
        if |text| == 4 && text[3] == PAD && v.2.value % 4 == 0 then
          Some([v.0.value * 4 + v.1.value / 16, v.1.value % 16 * 16 + v.2.value / 4])
        else None
      else
        match Decode(text[4..])
        case None => None
        case Some(rest) =>
          Some(Octets(v.0.value, v.1.value, v.2.value, v.3.value) + rest)
  }

  lemma SplitByte(x: byte)
    ensures x / 4 < 64 && x % 4 * 16 < 64 && x / 4 * 4 + x % 4 == x && x / 16 * 16 + x % 16 == x
    ensures x / 64 * 64 + x % 64 == x
  {
  }

  lemma GroupReadsBack(a: byte, b: byte, c: byte)
    ensures
      var v1, v2 := a % 4 * 16 + b / 16, b % 16 * 4 + c / 64;
      v1 < 64 && v2 < 64 && a / 4 * 4 + v1 / 16 == a && v1 % 16 * 16 + v2 / 4 == b && v2 % 4 * 64 + c % 64 == c
  {
  }

  lemma FourSymbols(g: seq<byte>, v0: nat, v1: nat, v2: nat, v3: nat, rest: seq<byte>)
    requires |g| == 4 && v0 < 64 && v1 < 64 && v2 < 64 && v3 < 64 && Decode(rest).Some?
    requires Value(g[0]) == Some(v0) && Value(g[1]) == Some(v1) && Value(g[2]) == Some(v2) && Value(g[3]) == Some(v3)
    ensures Decode(g + rest) == Some(Octets(v0, v1, v2, v3) + Decode(rest).value)
  {
    hide Value, Octets;
    assert (g + rest)[4..] == rest;
  }

  lemma GroupDecodes(a: byte, b: byte, c: byte, rest: seq<byte>)
    requires Decode(rest).Some?
    ensures Decode(Group(a, b, c) + rest) == Some([a, b, c] + Decode(rest).value)
  {
    hide Symbol, Value, Decode;
    var v1, v2 := a % 4 * 16 + b / 16, b % 16 * 4 + c / 64;
    GroupReadsBack(a, b, c);
    SymbolReadsBack(a / 4);
    SymbolReadsBack(v1);
    SymbolReadsBack(v2);
    SymbolReadsBack(c % 64);
    FourSymbols(Group(a, b, c), a / 4, v1, v2, c % 64, rest);
  }

  /** Decoding what was encoded gives the bytes back. */
  lemma {:induction false} EncodeReadsBack(b: seq<byte>)
    ensures Decode(Encode(b)) == Some(b)
  {
    hide Group, LastGroup, Decode;
    if b == [] {
      assert Decode([]) == Some([]) by { DecodeNothing(); }
    } else if |b| < 3 {
      LastReadsBack(b);
    } else {
      EncodeReadsBack(b[3..]);
      GroupDecodes(b[0], b[1], b[2], Encode(b[3..]));
      assert b == [b[0], b[1], b[2]] + b[3..];
    }
  }

  lemma DecodeNothing()
    ensures Decode([]) == Some([])
  {
  }

  lemma LastReadsBack(b: seq<byte>)
    requires |b| == 1 || |b| == 2
    ensures Decode(LastGroup(b)) == Some(b)
  {
    hide Symbol;
    SymbolReadsBack(b[0] / 4);
    if |b| == 1 {
      SymbolReadsBack(b[0] % 4 * 16);
      assert (b[0] % 4 * 16) % 16 == 0 && (b[0] % 4 * 16) / 16 == b[0] % 4;
      SplitByte(b[0]);
      assert b == [b[0]];
    } else {
      GroupReadsBack(b[0], b[1], 0);
      SymbolReadsBack(b[0] % 4 * 16 + b[1] / 16);
      SymbolReadsBack(b[1] % 16 * 4);
      assert (b[1] % 16 * 4) % 4 == 0 && (b[1] % 16 * 4) / 4 == b[1] % 16;
      assert b == [b[0], b[1]];
    }
  }

  // ---------------------------------------------------------------- slices

  function EncodeSlices(slices: seq<seq<byte>>): seq<byte> {
    if slices == [] then [] else Encode(slices[0]) + EncodeSlices(slices[1..])
  }

  lemma {:induction false} EncodeAppend(a: seq<byte>, b: seq<byte>)
    requires |a| % 3 == 0
    ensures Encode(a + b) == Encode(a) + Encode(b)
    decreases |a|
  {
    hide Group;
    if a == [] {
      assert a + b == b;
    } else {
      assert (a + b)[3..] == a[3..] + b;
      EncodeAppend(a[3..], b);
      assert Group(a[0], a[1], a[2]) + (Encode(a[3..]) + Encode(b)) ==
        Group(a[0], a[1], a[2]) + Encode(a[3..]) + Encode(b);
    }
  }

  /** Padding stands only in the last group. */
  lemma {:induction false} PaddingAtEnd(b: seq<byte>, k: nat)
    requires k + 4 < |Encode(b)|
    ensures Encode(b)[k] != PAD
    decreases |b|
  {
    hide Symbol;
    if |b| >= 3 && k >= 4 {
      PaddingAtEnd(b[3..], k - 4);
    }
  }

  lemma {:induction false} PaddedEnd(b: seq<byte>)
    requires |b| % 3 != 0
    ensures Encode(b)[|Encode(b)| - 1] == PAD
  {
    if |b| < 3 {
      PaddedLast(b);
    } else {
      PaddedEnd(b[3..]);
      hide Group;
      assert Encode(b) == Group(b[0], b[1], b[2]) + Encode(b[3..]);
    }
  }

  lemma PaddedLast(b: seq<byte>)
    requires |b| == 1 || |b| == 2
    ensures Encode(b)[|Encode(b)| - 1] == PAD
  {
    hide Symbol;
  }

  predicate NoneEmpty(slices: seq<seq<byte>>) {
    forall i :: 0 <= i < |slices| ==> slices[i] != []
  }

  /** Every slice but the last has a length divisible by three. */
  predicate Aligned(slices: seq<seq<byte>>) {
    forall i :: 0 <= i < |slices| - 1 ==> |slices[i]| % 3 == 0
  }

  lemma SameTail(head: seq<byte>, a: seq<byte>, b: seq<byte>)
    ensures head + a == head + b <==> a == b
  {
    if head + a == head + b {
      assert (head + a)[|head|..] == a && (head + b)[|head|..] == b;
    }
  }

  lemma Misaligned(first: seq<byte>, rest: seq<byte>, more: seq<byte>)
    requires |first| % 3 != 0 && |more| >= 4
    ensures Encode(first) + more != Encode(first + rest)
  {
    hide Encode;
    var k := |Encode(first)| - 1;
    if Encode(first) + more == Encode(first + rest) {
      PaddedEnd(first);
      assert (Encode(first) + more)[k] == PAD;
      PaddingAtEnd(first + rest, k);
    }
  }

  /** The slices encoded one by one are the encoding of the whole exactly when every slice but the last is aligned. */
  lemma {:induction false} SlicesEncodeWhole(slices: seq<seq<byte>>)
    requires NoneEmpty(slices)
    ensures EncodeSlices(slices) == Encode(Concat(slices)) <==> Aligned(slices)
    decreases |slices|
  {
    hide Encode;
    if slices == [] {
      EncodeNothing();
    } else {
      var first, rest := slices[0], slices[1..];
      if rest == [] {
        assert Encode(first) + [] == Encode(first) && first + [] == first;
      } else if |first| % 3 == 0 {
        SlicesEncodeWhole(rest);
        EncodeAppend(first, Concat(rest));
        SameTail(Encode(first), EncodeSlices(rest), Encode(Concat(rest)));
        AlignedTail(slices);
      } else {
        assert rest[0] == slices[1];
        Misaligned(first, Concat(rest), EncodeSlices(rest));
      }
    }
  }

  lemma AlignedTail(slices: seq<seq<byte>>)
    requires |slices| > 1 && |slices[0]| % 3 == 0
    ensures Aligned(slices) <==> Aligned(slices[1..])
  {
    var rest := slices[1..];
    if Aligned(rest) {
      forall i | 0 <= i < |slices| - 1 ensures |slices[i]| % 3 == 0 {
        assert i > 0 ==> slices[i] == rest[i - 1];
      }
    }
  }

  lemma EncodeNothing()
    ensures Encode([]) == []
  {
  }

  // ---------------------------------------------------------------- the loop

  /** `ceil(n / 3) * 4`, the number of characters the guest is told to read. */
  function EncodedBytes(n: nat): nat {
    (n + 2) / 3 * 4
  }

  /** Every read fills the buffer, or reaches the end of the file. */
  predicate FullReads(counts: seq<nat>) {
    forall i :: 0 <= i < |counts| ==> counts[i] >= SLICE_BYTES
  }

  /** The slice loop; `counts` is what each file read returns at most, `slices` what was read. */
  method SendSlices(tar: seq<byte>, counts: seq<nat>) returns (ok: bool, text: seq<byte>, slices: seq<seq<byte>>)
    ensures NoneEmpty(slices) && text == EncodeSlices(slices) && Concat(slices) <= tar
    ensures ok <==> Concat(slices) == tar
    ensures |slices| <= |counts| && forall i :: 0 <= i < |slices| ==> |slices[i]| <= counts[i]
    ensures !ok ==> |slices| == |counts| || counts[|slices|] == 0
    ensures ok ==> (text == Encode(tar) <==> Aligned(slices))
    ensures FullReads(counts) && |counts| * SLICE_BYTES >= |tar| ==>
      ok && text == Encode(tar) && |text| == EncodedBytes(|tar|)
  {
    hide Encode;
    text := [];
    slices := [];
    var offset := 0;
    var n := 0;
    while offset < |tar|
      invariant 0 <= offset <= |tar| && n <= |counts|
      invariant |slices| == n && forall i :: 0 <= i < n ==> |slices[i]| <= counts[i]
      invariant NoneEmpty(slices) && text == EncodeSlices(slices) && Concat(slices) == tar[..offset]
      invariant FullReads(counts) ==>
        offset == Min(n * SLICE_BYTES, |tar|) && |slices| == n && Full(slices, offset < |tar|)
      decreases |tar| - offset
    {
      var count := Min(if n < |counts| then counts[n] else 0, Min(SLICE_BYTES, |tar| - offset));
      if count == 0 { break; }
      var slice := tar[offset..offset + count];
      OneMoreSlice(slices, slice);
      assert tar[..offset] + slice == tar[..offset + count];
      text := text + Encode(slice);
      slices := slices + [slice];
      offset := offset + count;
      n := n + 1;
    }
    assert tar[..|tar|] == tar;
    ok := offset == |tar|;
    SlicesEncodeWhole(slices);
    if FullReads(counts) && |counts| * SLICE_BYTES >= |tar| {
      FullIsAligned(slices, offset < |tar|);
    }
  }

  /** Two reads of one byte each: both bytes are sent, and the text is not the encoding of the archive. */
  method ShortReads() returns (text: seq<byte>)
    ensures text != Encode([1, 2])
  {
    hide Encode;
    var tar: seq<byte> := [1, 2];
    var ok, sent, slices := SendSlices(tar, [1, 1]);
    OneByteSlices(slices);
    assert |slices| == 2;
    return sent;
  }

  lemma {:induction false} OneByteSlices(slices: seq<seq<byte>>)
    requires forall i :: 0 <= i < |slices| ==> |slices[i]| == 1
    ensures |Concat(slices)| == |slices|
    decreases |slices|
  {
    if slices != [] { OneByteSlices(slices[1..]); }
  }

  /** All slices are full, except perhaps the last once the file has ended. */
  predicate Full(slices: seq<seq<byte>>, more: bool) {
    (forall i :: 0 <= i < |slices| - 1 ==> |slices[i]| == SLICE_BYTES) &&
    (more && slices != [] ==> |slices[|slices| - 1]| == SLICE_BYTES)
  }

  lemma FullIsAligned(slices: seq<seq<byte>>, more: bool)
    requires Full(slices, more)
    ensures Aligned(slices)
  {
  }

  lemma {:induction false} OneMoreSlice(slices: seq<seq<byte>>, slice: seq<byte>)
    ensures EncodeSlices(slices + [slice]) == EncodeSlices(slices) + Encode(slice)
    ensures Concat(slices + [slice]) == Concat(slices) + slice
    decreases |slices|
  {
    hide Encode;
    if slices == [] {
      assert [] + [slice] == [slice] && [slice][1..] == [];
    } else {
      assert (slices + [slice])[1..] == slices[1..] + [slice];
      OneMoreSlice(slices[1..], slice);
    }
  }
}
