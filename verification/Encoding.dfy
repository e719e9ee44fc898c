/** UTF-8, by the grammar of section 4 of RFC 3629, and what line edits do to it. */
module Encoding {
  import opened Prelude
  import opened Text
  import opened LineEdits

  predicate Tail(b: byte) {
    128 <= b < 192
  }

  /** The second byte of a sequence of three or four bytes leaves out overlong forms, surrogates and what is over
      10FFFF. */
  predicate SecondOk(first: byte, second: byte) {
    Tail(second) && (first == 224 ==> second >= 160) && (first == 237 ==> second < 160) &&
    (first == 240 ==> second >= 144) && (first == 244 ==> second < 144)
  }

  /** `std::str::from_utf8` accepts. */
  predicate Utf8(b: seq<byte>) {
    b == [] ||
    (b[0] < 128 && Utf8(b[1..])) ||
    (|b| >= 2 && 194 <= b[0] < 224 && Tail(b[1]) && Utf8(b[2..])) ||
    (|b| >= 3 && 224 <= b[0] < 240 && SecondOk(b[0], b[1]) && Tail(b[2]) && Utf8(b[3..])) ||
    (|b| >= 4 && 240 <= b[0] < 245 && SecondOk(b[0], b[1]) && Tail(b[2]) && Tail(b[3]) && Utf8(b[4..]))
  }

  /** Valid text in front decides nothing about what follows. */
  lemma {:induction false} Utf8Append(a: seq<byte>, b: seq<byte>)
    requires Utf8(a)
    ensures Utf8(a + b) <==> Utf8(b)
    decreases |a|
  {
    if a == [] {
      assert a + b == b;
    } else {
      var n := Length(a[0]);
      FirstOf(a);
      FirstOf(a + b);
      assert (a + b)[n..] == a[n..] + b;
      Utf8Append(a[n..], b);
    }
  }

  /** How many bytes a sequence that starts with this byte has; 0 when none does. */
  function Length(first: byte): nat {
    if first < 128 then 1 else if 194 <= first < 224 then 2 else if 224 <= first < 240 then 3
    else if 240 <= first < 245 then 4 else 0
  }

  predicate FirstOk(b: seq<byte>)
    requires b != []
  {
    var n := Length(b[0]);
    1 <= n <= |b| && (n == 2 ==> Tail(b[1])) && (n > 2 ==> SecondOk(b[0], b[1])) &&
    forall i :: 2 <= i < n ==> Tail(b[i])
  }

  lemma FirstOf(b: seq<byte>)
    requires b != []
    ensures Utf8(b) <==> FirstOk(b) && Utf8(b[Length(b[0])..])
  {
  }

  lemma InsideLine(a: seq<byte>, b: seq<byte>)
    requires a != [] && a[|a| - 1] == NEWLINE && FirstOk(a + b)
    ensures Length(a[0]) <= |a|
  {
    assert (a + b)[|a| - 1] == NEWLINE;
    assert forall i :: 1 <= i < Length(a[0]) ==> Tail((a + b)[i]);
  }

  /** A newline ends a character: text can be cut behind it. */
  lemma {:induction false} Utf8Cut(a: seq<byte>, b: seq<byte>)
    requires Utf8(a + b) && (a == [] || a[|a| - 1] == NEWLINE)
    ensures Utf8(a) && Utf8(b)
    decreases |a|
  {
    if a == [] {
      assert a + b == b;
    } else {
      FirstOf(a + b);
      var n := Length(a[0]);
      InsideLine(a, b);
      assert (a + b)[n..] == a[n..] + b;
      Utf8Cut(a[n..], b);
      FirstOf(a);
    }
  }

  /** The lines of valid text are valid text. */
  lemma {:induction false} LinesUtf8(lines: seq<seq<byte>>, k: nat)
    requires SplitAtNewlines(lines) && k <= |lines| && Utf8(Flat(lines[..k]))
    ensures forall n :: 0 <= n < k ==> Utf8(lines[n])
    decreases k
  {
    if k > 0 {
      FlatNext(lines, k - 1);
      var front := Flat(lines[..k - 1]);
      if k > 1 {
        FlatNext(lines, k - 2);
        assert Ended(lines[k - 2]);
        assert front[|front| - 1] == NEWLINE;
      }
      Utf8Cut(front, lines[k - 1]);
      LinesUtf8(lines, k - 1);
    }
  }

  lemma LineAfterUtf8(lines: seq<seq<byte>>, edits: multiset<Edit>, k: nat)
    requires k < |lines| && Utf8(lines[k]) && forall e :: e in edits ==> Utf8(ContentOf(e))
    ensures Utf8(LineAfter(lines, edits, k))
  {
    hide Utf8;
    assert Utf8([]) by { NoText(); }
    if exists e :: e in edits && Covers(e, k) && LineAfter(lines, edits, k) == LineUnder(e, k, lines[k]) {
      var e :| e in edits && Covers(e, k) && LineAfter(lines, edits, k) == LineUnder(e, k, lines[k]);
      Utf8Append(ContentOf(e), lines[k]);
      Utf8Append(lines[k], ContentOf(e));
    }
  }

  lemma NoText()
    ensures Utf8([])
  {
  }

  lemma {:induction false} RewrittenUtf8(lines: seq<seq<byte>>, edits: multiset<Edit>, k: nat)
    requires k <= |lines| && forall n :: 0 <= n < |lines| ==> Utf8(lines[n])
    requires forall e :: e in edits ==> Utf8(ContentOf(e))
    ensures Utf8(Rewritten(lines, edits, k))
    decreases |lines| - k
  {
    hide Utf8, LineAfter;
    if k == |lines| {
      NoText();
    } else {
      LineAfterUtf8(lines, edits, k);
      RewrittenUtf8(lines, edits, k + 1);
      Utf8Append(LineAfter(lines, edits, k), Rewritten(lines, edits, k + 1));
    }
  }

  /** Edits with valid contents of a valid text give a valid text. */
  lemma EditKeepsUtf8(bytes: seq<byte>, edits: multiset<Edit>)
    requires Utf8(bytes) && EditedFile(bytes, edits).Ok? && forall e :: e in edits ==> Utf8(ContentOf(e))
    ensures Utf8(EditedFile(bytes, edits).value.bytes)
  {
    hide Utf8, Rewritten, Acceptable;
    var lines := Lines(bytes);
    LinesAreAll(bytes);
    LinesAreLines(bytes);
    assert lines[..|lines|] == lines;
    LinesUtf8(lines, |lines|);
    RewrittenUtf8(lines, edits, 0);
  }

  // ---------------------------------------------------------------- UTF-8 and scalar values

  /** A Unicode scalar value: a code point that is no surrogate. */
  predicate Scalar(c: nat) {
    c < 0xD800 || 0xE000 <= c < 0x11_0000
  }

  /** The table of section 3 of RFC 3629. */
  function EncodeScalar(c: nat): (b: seq<byte>)
    requires Scalar(c)
    ensures b != []
  {
    if c < 0x80 then [c]
    else if c < 0x800 then [192 + c / 64, 128 + c % 64]
    else if c < 0x1_0000 then [224 + c / 4096, 128 + c / 64 % 64, 128 + c % 64]
    else [240 + c / 0x4_0000, 128 + c / 4096 % 64, 128 + c / 64 % 64, 128 + c % 64]
  }

  ghost predicate AllScalar(cs: seq<nat>) {
    forall c :: c in cs ==> Scalar(c)
  }

  function EncodeScalars(cs: seq<nat>): seq<byte>
    requires forall c :: c in cs ==> Scalar(c)
  {
    if cs == [] then []
    else
      assert forall c :: c in cs[1..] ==> c in cs;
      EncodeScalar(cs[0]) + EncodeScalars(cs[1..])
  }

  lemma TwoBytes(a: byte, b: byte) returns (c: nat)
    requires 194 <= a < 224 && Tail(b)
    ensures Scalar(c) && EncodeScalar(c) == [a, b]
  {
    c := (a as nat - 192) * 64 + (b as nat - 128);
    assert c / 64 == a as nat - 192 && c % 64 == b as nat - 128;
  }

  lemma ThreeBytes(a: byte, b: byte, d: byte) returns (c: nat)
    requires 224 <= a < 240 && SecondOk(a, b) && Tail(d)
    ensures Scalar(c) && EncodeScalar(c) == [a, b, d]
  {
    var high := (a as nat - 224) * 64 + (b as nat - 128);
    c := high * 64 + (d as nat - 128);
    assert c / 64 == high && c % 64 == d as nat - 128;
    assert high / 64 == a as nat - 224 && high % 64 == b as nat - 128;
    assert c / 4096 == high / 64;
  }

  lemma FourBytesOf(a: byte, b: byte, d: byte, e: byte) returns (c: nat)
    requires 240 <= a < 245 && SecondOk(a, b) && Tail(d) && Tail(e)
    ensures Scalar(c) && EncodeScalar(c) == [a, b, d, e]
  {
    var top := (a as nat - 240) * 64 + (b as nat - 128);
    var high := top * 64 + (d as nat - 128);
    c := high * 64 + (e as nat - 128);
    assert c / 64 == high && c % 64 == e as nat - 128;
    assert high / 64 == top && high % 64 == d as nat - 128;
    assert top / 64 == a as nat - 240 && top % 64 == b as nat - 128;
    assert c / 4096 == top && c / 0x4_0000 == top / 64;
  }

  lemma FirstScalar(b: seq<byte>) returns (c: nat)
    requires b != [] && FirstOk(b)
    ensures Scalar(c) && EncodeScalar(c) == b[..Length(b[0])]
  {
    hide SecondOk;
    var n := Length(b[0]);
    if n == 1 {
      c := b[0];
      assert b[..1] == [b[0]];
    } else if n == 2 {
      c := TwoBytes(b[0], b[1]);
      assert b[..2] == [b[0], b[1]];
    } else if n == 3 {
      c := ThreeBytes(b[0], b[1], b[2]);
      assert b[..3] == [b[0], b[1], b[2]];
    } else {
      c := FourBytesOf(b[0], b[1], b[2], b[3]);
      assert b[..4] == [b[0], b[1], b[2], b[3]];
    }
  }

  lemma {:induction false} Utf8Decodes(b: seq<byte>) returns (cs: seq<nat>)
    requires Utf8(b)
    ensures AllScalar(cs) && EncodeScalars(cs) == b
    decreases |b|
  {
    hide FirstOk, EncodeScalar, Length;
    if b == [] {
      cs := [];
    } else {
      FirstOf(b);
      var c := FirstScalar(b);
      var n := Length(b[0]);
      assert 0 < n <= |b| by { FirstFits(b); }
      var rest := Utf8Decodes(b[n..]);
      cs := [c] + rest;
      assert cs[1..] == rest;
      assert b == b[..n] + b[n..];
    }
  }

  lemma FirstFits(b: seq<byte>)
    requires b != [] && FirstOk(b)
    ensures 0 < Length(b[0]) <= |b|
  {
  }

  lemma ScalarFirst(c: nat, rest: seq<byte>)
    requires Scalar(c)
    ensures
      var b := EncodeScalar(c) + rest;
      FirstOk(b) && Length(b[0]) == |EncodeScalar(c)| && b[Length(b[0])..] == rest
  {
  }

  lemma {:induction false} ScalarsAreUtf8(cs: seq<nat>)
    requires AllScalar(cs)
    ensures Utf8(EncodeScalars(cs))
    decreases |cs|
  {
    hide FirstOk, EncodeScalar, Length;
    if cs == [] {
      NoText();
    } else {
      assert forall c :: c in cs[1..] ==> c in cs;
      ScalarsAreUtf8(cs[1..]);
      ScalarFirst(cs[0], EncodeScalars(cs[1..]));
      FirstOf(EncodeScalar(cs[0]) + EncodeScalars(cs[1..]));
    }
  }

  /** Bytes are valid exactly when they are the encoding of some scalar values. */
  lemma Utf8IsScalars(b: seq<byte>)
    ensures Utf8(b) <==> exists cs :: AllScalar(cs) && EncodeScalars(cs) == b
  {
    if Utf8(b) {
      var cs := Utf8Decodes(b);
      assert AllScalar(cs) && EncodeScalars(cs) == b;
    }
    if cs :| AllScalar(cs) && EncodeScalars(cs) == b { ScalarsAreUtf8(cs); }
  }
}
