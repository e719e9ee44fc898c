/** The CFS-v1 byte format: `encodeHeader`, `readHeader` and the parse loop of `extractCfs` (src/storage/cfs.ts). */
module CfsCodec {
  import opened Prelude
  import opened Bytes

  const MAGIC: seq<byte> := [67, 70, 83, 45, 118, 49, 0]
  const MAX_SAFE_INTEGER: nat := 0x1F_FFFF_FFFF_FFFF

  const TYPE_DIRECTORY: byte := 1
  const TYPE_FILE: byte := 2
  const TYPE_SYMLINK: byte := 3
  const TYPE_HARDLINK: byte := 4

  const SLASH: byte := 47
  const DOT: byte := 46

  datatype CfsError = BadMagic | Truncated | TooLarge | Unsupported | OutOfRange | FileExists | NotADirectory

  datatype Header = Header(path: seq<byte>, kind: byte, mode: nat, mtime: nat, payloadLength: nat)
  datatype Entry = Entry(path: seq<byte>, kind: byte, mode: nat, mtime: nat, payload: seq<byte>)
  datatype Read<T> = Read(value: T, next: nat)

  // ---------------------------------------------------------------- paths

  /** `split('/')`. */
  function Split(path: seq<byte>): (parts: seq<seq<byte>>)
    ensures |parts| > 0
  {
    if path == [] then [[]]
    else
      var rest := Split(path[1..]);
      if path[0] == SLASH then [[]] + rest else [[path[0]] + rest[0]] + rest[1..]
  }

  predicate BadPart(part: seq<byte>) {
    part == [] || part == [DOT] || part == [DOT, DOT]
  }

  /** `validateRelativePath` accepts. A path starting with '/' has an empty first part, and so has the empty path. */
  predicate PathOk(path: seq<byte>) {
    0 !in path && forall part :: part in Split(path) ==> !BadPart(part)
  }

  /** The parts of a path joined by '/' are the path, and no part has a '/'. */
  lemma {:induction false} SplitJoins(p: seq<byte>)
    ensures Joined(Split(p)) == p && forall part :: part in Split(p) ==> SLASH !in part
  {
    if p != [] {
      var rest := Split(p[1..]);
      SplitJoins(p[1..]);
      assert p == [p[0]] + p[1..];
      if p[0] == SLASH {
        assert ([[]] + rest)[1..] == rest;
      } else {
        var parts := [[p[0]] + rest[0]] + rest[1..];
        assert parts[1..] == rest[1..];
        forall part | part in parts ensures SLASH !in part {
          if part != parts[0] { assert part in rest; } else { assert rest[0] in rest; }
        }
      }
    }
  }

  function Joined(parts: seq<seq<byte>>): seq<byte>
    requires parts != []
  {
    if |parts| == 1 then parts[0] else parts[0] + [SLASH] + Joined(parts[1..])
  }

  /** Not empty, '.' or '..'. */
  predicate ProperPart(part: seq<byte>) {
    part != [] && part != [46] && part != [46, 46]
  }

  /** A path of an archive is not empty, has no NUL, and none of its parts is empty, '.' or '..'. */
  lemma PathMeans(p: seq<byte>)
    ensures PathOk(p) <==>
      0 !in p && forall part :: part in Split(p) ==> ProperPart(part)
    ensures PathOk(p) ==> p != [] && p[0] != 47
  {
    var dot: seq<byte>, dots: seq<byte> := [46], [46, 46];
    assert dot == [DOT] && dots == [DOT, DOT];
    SplitFirst(p);
    if PathOk(p) {
      forall part | part in Split(p) ensures ProperPart(part) { assert !BadPart(part); }
    } else if 0 !in p {
      var part :| part in Split(p) && BadPart(part);
      assert part == [] || part == dot || part == dots;
      assert !ProperPart(part);
      assert !(forall q :: q in Split(p) ==> ProperPart(q));
    }
  }

  lemma SplitFirst(p: seq<byte>)
    ensures [] !in Split(p) ==> p != [] && p[0] != 47
  {
    if p == [] || p[0] == SLASH {
      assert Split(p)[0] == [] && Split(p)[0] in Split(p);
    }
  }

  // ---------------------------------------------------------------- encoding

  function EncodeHeader(h: Header): seq<byte> {
    BigEndian(|h.path|, 4) + h.path + [h.kind] + BigEndian(h.mode, 4) + BigEndian(h.mtime, 8) +
      BigEndian(h.payloadLength, 8)
  }

  function HeaderOf(e: Entry): Header {
    Header(e.path, e.kind, e.mode, e.mtime, |e.payload|)
  }

  function EncodeEntry(e: Entry): (r: seq<byte>)
    ensures |r| == 25 + |e.path| + |e.payload|
  {
    EncodeHeader(HeaderOf(e)) + e.payload
  }

  function EncodeEntries(es: seq<Entry>): seq<byte> {
    if es == [] then [] else EncodeEntry(es[0]) + EncodeEntries(es[1..])
  }

  function EncodeArchive(es: seq<Entry>): seq<byte> {
    MAGIC + EncodeEntries(es)
  }

  // ---------------------------------------------------------------- decoding

  /** Any of the setuid and setgid bits, octal 6000. */
  predicate SetId(mode: nat) {
    (mode / 1024) % 4 != 0
  }

  /** The fields of a header, if the buffer is long enough for them. */
  function ReadFields(buffer: seq<byte>, offset: nat): (r: Option<Read<Header>>)
    ensures r.Some? ==> offset + 25 <= r.value.next <= |buffer|
  {
    if offset + 4 > |buffer| then None
    else
      var at := offset + 4;
      var p := at + FromBigEndian(buffer[offset..at]);
      if p + 21 > |buffer| then None
      else
        var mode := FromBigEndian(buffer[p + 1..p + 5]);
        var mtime := FromBigEndian(buffer[p + 5..p + 13]);
        var length := FromBigEndian(buffer[p + 13..p + 21]);
        Some(Read(Header(buffer[at..p], buffer[p], mode, mtime, length), p + 21))
  }

  /** `readHeader`: the fields, then the checks in their order. */
  function ReadHeader(buffer: seq<byte>, offset: nat): (r: Result<Read<Header>, CfsError>)
    ensures r.Ok? ==> offset + 25 <= r.value.next <= |buffer|
  {
    match ReadFields(buffer, offset)
    case None => Err(Truncated)
    case Some(Read(h, next)) =>
      if h.payloadLength > MAX_SAFE_INTEGER then Err(TooLarge)
      else if SetId(h.mode) then Err(Unsupported)
      else if !PathOk(h.path) then Err(Unsupported)
      else Ok(Read(h, next))
  }

  /** The entry a header and the payload behind it make. */
  function EntryFrom(h: Header, buffer: seq<byte>, next: nat): Entry
    requires next + h.payloadLength <= |buffer|
  {
    Entry(h.path, h.kind, h.mode, h.mtime, buffer[next..next + h.payloadLength])
  }

  /** One round of the parse loop: a header and its payload. */
  function ReadEntry(buffer: seq<byte>, offset: nat): (r: Result<Read<Entry>, CfsError>)
    requires offset <= |buffer|
    ensures r.Ok? ==> offset < r.value.next <= |buffer|
  {
    match ReadHeader(buffer, offset)
    case Err(e) => Err(e)
    case Ok(Read(h, next)) =>
      if next + h.payloadLength > |buffer| then Err(Truncated)
      else Ok(Read(EntryFrom(h, buffer, next), next + h.payloadLength))
  }

  function ReadEntries(buffer: seq<byte>, offset: nat): Result<seq<Entry>, CfsError>
    requires offset <= |buffer|
    decreases |buffer| - offset
  {
    if offset == |buffer| then Ok([])
    else
      match ReadEntry(buffer, offset)
      case Err(e) => Err(e)
      case Ok(Read(entry, next)) =>
        match ReadEntries(buffer, next)
        case Err(e) => Err(e)
        case Ok(rest) => Ok([entry] + rest)
  }

  function DecodeArchive(bytes: seq<byte>): Result<seq<Entry>, CfsError> {
    if |bytes| < |MAGIC| || bytes[..|MAGIC|] != MAGIC then Err(BadMagic) else ReadEntries(bytes, |MAGIC|)
  }

  // ---------------------------------------------------------------- round trip

  /** The fields fit the format and pass the checks of `readHeader`. */
  predicate Storable(e: Entry) {
    |e.path| < 0x1_0000_0000 && e.mode < 0x1_0000_0000 && e.mtime < 0x1_0000_0000_0000_0000 &&
    |e.payload| <= MAX_SAFE_INTEGER && !SetId(e.mode) && PathOk(e.path)
  }

  predicate AllStorable(es: seq<Entry>) {
    forall e :: e in es ==> Storable(e)
  }

  /** Where the fields of an entry lie. */
  predicate FieldsAt(e: Entry, buffer: seq<byte>, offset: nat) {
    var p := offset + 4 + |e.path|;
    At(buffer, offset, BigEndian(|e.path|, 4)) && At(buffer, offset + 4, e.path) && At(buffer, p, [e.kind]) &&
    At(buffer, p + 1, BigEndian(e.mode, 4)) && At(buffer, p + 5, BigEndian(e.mtime, 8)) &&
    At(buffer, p + 13, BigEndian(|e.payload|, 8)) && At(buffer, p + 21, e.payload)
  }

  lemma Layout(e: Entry, buffer: seq<byte>, offset: nat)
    ensures At(buffer, offset, EncodeEntry(e)) <==> FieldsAt(e, buffer, offset)
  {
    hide At, BigEndian;
    var s1 := BigEndian(|e.path|, 4);
    var s2 := s1 + e.path;
    var s3 := s2 + [e.kind];
    var s4 := s3 + BigEndian(e.mode, 4);
    var s5 := s4 + BigEndian(e.mtime, 8);
    var s6 := s5 + BigEndian(|e.payload|, 8);
    AtAppend(buffer, offset, s6, e.payload);
    AtAppend(buffer, offset, s5, BigEndian(|e.payload|, 8));
    AtAppend(buffer, offset, s4, BigEndian(e.mtime, 8));
    AtAppend(buffer, offset, s3, BigEndian(e.mode, 4));
    AtAppend(buffer, offset, s2, [e.kind]);
    AtAppend(buffer, offset, s1, e.path);
  }

  lemma NumberAt(buffer: seq<byte>, offset: nat, v: nat, n: nat)
    requires v < Pow256(n) && At(buffer, offset, BigEndian(v, n))
    ensures FromBigEndian(buffer[offset..offset + n]) == v
  {
    BigEndianReadsBack(v, n);
  }

  lemma NumbersReadBack(e: Entry, buffer: seq<byte>, offset: nat)
    requires |e.path| < Pow256(4) && e.mode < Pow256(4) && e.mtime < Pow256(8) && |e.payload| < Pow256(8)
    requires FieldsAt(e, buffer, offset)
    ensures var p := offset + 4 + |e.path|;
      p + 21 <= |buffer| && buffer[offset + 4..p] == e.path && buffer[p] == e.kind &&
      FromBigEndian(buffer[offset..offset + 4]) == |e.path| && FromBigEndian(buffer[p + 1..p + 5]) == e.mode &&
      FromBigEndian(buffer[p + 5..p + 13]) == e.mtime && FromBigEndian(buffer[p + 13..p + 21]) == |e.payload|
  {
    hide BigEndian, FromBigEndian, Pow256;
    var p := offset + 4 + |e.path|;
    NumberAt(buffer, offset, |e.path|, 4);
    NumberAt(buffer, p + 1, e.mode, 4);
    NumberAt(buffer, p + 5, e.mtime, 8);
    NumberAt(buffer, p + 13, |e.payload|, 8);
    assert buffer[p] == buffer[p..p + 1][0];
  }

  lemma FieldsReadBack(e: Entry, buffer: seq<byte>, offset: nat)
    requires |e.path| < Pow256(4) && e.mode < Pow256(4) && e.mtime < Pow256(8) && |e.payload| < Pow256(8)
    requires FieldsAt(e, buffer, offset)
    ensures ReadFields(buffer, offset) == Some(Read(HeaderOf(e), offset + 25 + |e.path|))
  {
    hide BigEndian, FromBigEndian, Pow256;
    NumbersReadBack(e, buffer, offset);
  }

  lemma EncodingReadsBack(e: Entry, buffer: seq<byte>, offset: nat)
    requires Storable(e) && At(buffer, offset, EncodeEntry(e))
    ensures ReadFields(buffer, offset) == Some(Read(HeaderOf(e), offset + 25 + |e.path|))
    ensures At(buffer, offset + 25 + |e.path|, e.payload)
  {
    Layout(e, buffer, offset);
    Widths();
    FieldsReadBack(e, buffer, offset);
  }

  /** The bytes of an entry: the length of its path, the path, the type, mode, time and payload length as numbers of
      4, 8 and 8 bytes with the most significant first, and the payload. */
  lemma EntryLayout(e: Entry)
    requires Storable(e)
    ensures
      var b, n := EncodeEntry(e), |e.path|;
      |b| == 25 + n + |e.payload| && Number32(b[..4]) == n && b[4..4 + n] == e.path && b[4 + n] == e.kind &&
      Number32(b[5 + n..9 + n]) == e.mode &&
      Number32(b[9 + n..13 + n]) * 0x1_0000_0000 + Number32(b[13 + n..17 + n]) == e.mtime &&
      Number32(b[17 + n..21 + n]) * 0x1_0000_0000 + Number32(b[21 + n..25 + n]) == |e.payload| &&
      b[25 + n..] == e.payload
  {
    hide PathOk, Number32;
    var b, n := EncodeEntry(e), |e.path|;
    assert b[0..|b|] == b;
    Layout(e, b, 0);
    Widths();
    NumbersReadBack(e, b, 0);
    hide FromBigEndian, BigEndian, EncodeEntry;
    FourBytes(b[0..4]);
    FourBytes(b[5 + n..9 + n]);
    EightBytes(b[9 + n..17 + n]);
    EightBytes(b[17 + n..25 + n]);
    assert b[9 + n..17 + n][..4] == b[9 + n..13 + n] && b[9 + n..17 + n][4..] == b[13 + n..17 + n];
    assert b[17 + n..25 + n][..4] == b[17 + n..21 + n] && b[17 + n..25 + n][4..] == b[21 + n..25 + n];
  }

  /** Every archive starts with the letters CFS-v1 and a NUL. */
  lemma MagicMeans(es: seq<Entry>, i: nat)
    requires i < 7
    ensures |EncodeArchive(es)| >= 7 && EncodeArchive(es)[i] as int == if i == 6 then 0 else "CFS-v1"[i] as int
  {
    assert EncodeArchive(es)[i] == MAGIC[i];
  }

  lemma EntryReadsBack(e: Entry, buffer: seq<byte>, offset: nat)
    requires Storable(e) && At(buffer, offset, EncodeEntry(e))
    ensures ReadEntry(buffer, offset) == Ok(Read(e, offset + |EncodeEntry(e)|))
  {
    EncodingReadsBack(e, buffer, offset);
  }

  lemma AtHead(buffer: seq<byte>, offset: nat, head: seq<byte>, rest: seq<byte>)
    requires offset <= |buffer| && buffer[offset..] == head + rest
    ensures At(buffer, offset, head) && buffer[offset + |head|..] == rest
  {
    assert buffer[offset..][..|head|] == buffer[offset..offset + |head|];
    assert buffer[offset..][|head|..] == buffer[offset + |head|..];
  }

  lemma {:induction false} EntriesReadBack(es: seq<Entry>, buffer: seq<byte>, offset: nat)
    requires AllStorable(es)
    requires offset <= |buffer| && buffer[offset..] == EncodeEntries(es)
    ensures ReadEntries(buffer, offset) == Ok(es)
    decreases |es|
  {
    hide ReadEntry;
    hide EncodeEntry;
    if es != [] {
      AtHead(buffer, offset, EncodeEntry(es[0]), EncodeEntries(es[1..]));
      EntryReadsBack(es[0], buffer, offset);
      EntriesReadBack(es[1..], buffer, offset + |EncodeEntry(es[0])|);
      assert es == [es[0]] + es[1..];
    }
  }

  /** Decoding what was encoded gives the entries back. */
  lemma ArchiveRoundTrip(es: seq<Entry>)
    requires AllStorable(es)
    ensures DecodeArchive(EncodeArchive(es)) == Ok(es)
  {
    assert EncodeArchive(es)[|MAGIC|..] == EncodeEntries(es);
    EntriesReadBack(es, EncodeArchive(es), |MAGIC|);
  }

  /** Different entry lists have different archives. */
  lemma EncodingInjective(xs: seq<Entry>, ys: seq<Entry>)
    requires AllStorable(xs) && AllStorable(ys)
    requires EncodeArchive(xs) == EncodeArchive(ys)
    ensures xs == ys
  {
    ArchiveRoundTrip(xs);
    ArchiveRoundTrip(ys);
  }

  lemma NumberWritesBack(buffer: seq<byte>, offset: nat, n: nat)
    requires offset + n <= |buffer|
    ensures var v := FromBigEndian(buffer[offset..offset + n]); At(buffer, offset, BigEndian(v, n)) && v < Pow256(n)
  {
    BigEndianWritesBack(buffer[offset..offset + n]);
  }

  lemma FieldsWriteBack(buffer: seq<byte>, offset: nat)
    requires ReadFields(buffer, offset).Some?
    requires var r := ReadFields(buffer, offset).value; r.next + r.value.payloadLength <= |buffer|
    ensures var r := ReadFields(buffer, offset).value; var e := EntryFrom(r.value, buffer, r.next);
      r.next == offset + 25 + |e.path| && FieldsAt(e, buffer, offset) && |e.path| < Pow256(4) && e.mode < Pow256(4) &&
      e.mtime < Pow256(8)
  {
    var p := offset + 4 + FromBigEndian(buffer[offset..offset + 4]);
    NumberWritesBack(buffer, offset, 4);
    NumberWritesBack(buffer, p + 1, 4);
    NumberWritesBack(buffer, p + 5, 8);
    NumberWritesBack(buffer, p + 13, 8);
  }

  lemma ReadEntryIsEncoding(buffer: seq<byte>, offset: nat)
    requires offset <= |buffer| && ReadEntry(buffer, offset).Ok?
    ensures var r := ReadEntry(buffer, offset).value;
      Storable(r.value) && r.next == offset + |EncodeEntry(r.value)| && At(buffer, offset, EncodeEntry(r.value))
  {
    FieldsWriteBack(buffer, offset);
    Widths();
    Layout(ReadEntry(buffer, offset).value.value, buffer, offset);
  }

  lemma AtTail(buffer: seq<byte>, offset: nat, head: seq<byte>)
    requires At(buffer, offset, head)
    ensures buffer[offset..] == head + buffer[offset + |head|..]
  {
  }

  lemma {:induction false} ReadEntriesTile(buffer: seq<byte>, offset: nat)
    requires offset <= |buffer| && ReadEntries(buffer, offset).Ok?
    ensures AllStorable(ReadEntries(buffer, offset).value)
    ensures buffer[offset..] == EncodeEntries(ReadEntries(buffer, offset).value)
    decreases |buffer| - offset
  {
    hide ReadEntry, EncodeEntry, Storable;
    if offset < |buffer| {
      var r := ReadEntry(buffer, offset).value;
      ReadEntryIsEncoding(buffer, offset);
      ReadEntriesTile(buffer, r.next);
      Prepend(r.value, ReadEntries(buffer, r.next).value);
      AtTail(buffer, offset, EncodeEntry(r.value));
    }
  }

  lemma Prepend(e: Entry, rest: seq<Entry>)
    ensures EncodeEntries([e] + rest) == EncodeEntry(e) + EncodeEntries(rest)
    ensures Storable(e) && AllStorable(rest) ==> AllStorable([e] + rest)
  {
    assert ([e] + rest)[1..] == rest;
  }

  /** Whatever the bytes are: when the parse loop ends without an error, its entries tile the buffer after the magic. */
  lemma DecodedTiles(bytes: seq<byte>)
    requires DecodeArchive(bytes).Ok?
    ensures AllStorable(DecodeArchive(bytes).value) && bytes == EncodeArchive(DecodeArchive(bytes).value)
  {
    ReadEntriesTile(bytes, |MAGIC|);
    assert bytes == bytes[..|MAGIC|] + bytes[|MAGIC|..];
  }

  ghost predicate IsEncoding(bytes: seq<byte>) {
    exists es :: AllStorable(es) && EncodeArchive(es) == bytes
  }

  /** An archive is accepted exactly when it is the encoding of storable entries. */
  lemma AcceptedExactlyEncodings(bytes: seq<byte>)
    ensures DecodeArchive(bytes).Ok? <==> IsEncoding(bytes)
  {
    if DecodeArchive(bytes).Ok? { DecodedTiles(bytes); }
    if IsEncoding(bytes) {
      var es :| AllStorable(es) && EncodeArchive(es) == bytes;
      ArchiveRoundTrip(es);
    }
  }
}
