/** The ustar archive of a workspace: src/storage/tar.ts, after the pax section of IEEE Std 1003.1. */
module Tar {
  import opened Prelude
  import opened Bytes

  const BLOCK: nat := 512
  const NAME_BYTES: nat := 100
  const OWNER: nat := 1000
  const SPACE: byte := 32
  const MAGIC: seq<byte> := [117, 115, 116, 97, 114, 0]
  const VERSION: seq<byte> := [48, 48]
  const USER: seq<byte> := [99, 111, 100, 101]

  const TYPE_FILE: byte := 48
  const TYPE_HARDLINK: byte := 49
  const TYPE_SYMLINK: byte := 50
  const TYPE_DIRECTORY: byte := 53

  datatype TarError = Unsupported | Limit | BadArchive
  datatype TarEntry = TarEntry(name: seq<byte>, mode: nat, mtime: nat, kind: byte, linkName: seq<byte>, data: seq<byte>)

  // ---------------------------------------------------------------- fields

  function Zeros(n: nat): (z: seq<byte>)
    ensures |z| == n && forall i :: 0 <= i < n ==> z[i] == 0
  {
    if n == 0 then [] else Zeros(n - 1) + [0]
  }

  /** A value at the front of a field that was cleared. */
  function Field(value: seq<byte>, width: nat): (field: seq<byte>)
    requires |value| <= width
    ensures |field| == width
  {
    value + Zeros(width - |value|)
  }

  function Pow8(n: nat): nat {
    if n == 0 then 1 else 8 * Pow8(n - 1)
  }

  /** The last `n` octal digits. */
  function OctalDigits(v: nat, n: nat): (digits: seq<byte>)
    ensures |digits| == n && 0 !in digits
  {
    if n == 0 then [] else OctalDigits(v / 8, n - 1) + [48 + v % 8]
  }

  /** `octal`: the digits fill the field up to a NUL; a number with more digits is refused. */
  function Octal(v: nat, width: nat): (field: Option<seq<byte>>)
    requires width > 0
    ensures field.Some? ==> |field.value| == width
  {
    if v >= Pow8(width - 1) then None else Some(OctalDigits(v, width - 1) + [0])
  }

  /** What a reader makes of an octal field: the digits up to the first other byte. */
  function ReadOctal(field: seq<byte>): nat {
    ReadDigits(field, 0)
  }

  function ReadDigits(field: seq<byte>, v: nat): nat
    decreases |field|
  {
    if field == [] || !(48 <= field[0] < 56) then v else ReadDigits(field[1..], v * 8 + (field[0] - 48))
  }

  lemma {:induction false} DigitsReadBack(v: nat, n: nat, rest: seq<byte>)
    requires v < Pow8(n)
    ensures ReadDigits(OctalDigits(v, n) + rest, 0) == ReadDigits(rest, v)
    decreases n
  {
    if n == 0 {
      assert OctalDigits(v, n) + rest == rest;
    } else {
      var digit: seq<byte> := [48 + v % 8];
      DigitsReadBack(v / 8, n - 1, digit + rest);
      assert OctalDigits(v, n) + rest == OctalDigits(v / 8, n - 1) + (digit + rest);
      assert (digit + rest)[1..] == rest;
    }
  }

  lemma OctalReadsBack(v: nat, width: nat)
    requires width > 0 && Octal(v, width).Some?
    ensures ReadOctal(Octal(v, width).value) == v
  {
    DigitsReadBack(v, width - 1, [0]);
  }

  /** A name ends at the first NUL or fills its field. */
  function CString(field: seq<byte>): seq<byte> {
    if field == [] || field[0] == 0 then [] else [field[0]] + CString(field[1..])
  }

  lemma {:induction false} NameReadsBack(name: seq<byte>, width: nat)
    requires |name| <= width && 0 !in name
    ensures CString(Field(name, width)) == name
    decreases |name|
  {
    if name != [] {
      assert Field(name, width)[1..] == Field(name[1..], width - 1);
      NameReadsBack(name[1..], width - 1);
    }
  }

  function Sum(b: seq<byte>): nat {
    if b == [] then 0 else Sum(b[..|b| - 1]) + b[|b| - 1]
  }

  lemma {:induction false} SumBound(b: seq<byte>)
    ensures Sum(b) <= 255 * |b|
  {
    if b != [] { SumBound(b[..|b| - 1]); }
  }

  // ---------------------------------------------------------------- the header

  const SPACES: seq<byte> := [SPACE, SPACE, SPACE, SPACE, SPACE, SPACE, SPACE, SPACE]

  /** The numeric fields of an entry, if they fit. */
  datatype Numbers = Numbers(mode: seq<byte>, owner: seq<byte>, size: seq<byte>, mtime: seq<byte>)

  function NumbersOf(e: TarEntry): (n: Option<Numbers>)
    ensures n.Some? ==> |n.value.mode| == 8 && |n.value.owner| == 8 && |n.value.size| == 12 && |n.value.mtime| == 12
  {
    var mode, owner, size, mtime := Octal(e.mode % 4096, 8), Octal(OWNER, 8), Octal(|e.data|, 12), Octal(e.mtime, 12);
    if mode.None? || owner.None? || size.None? || mtime.None? then None
    else Some(Numbers(mode.value, owner.value, size.value, mtime.value))
  }

  predicate NamesFit(e: TarEntry) {
    |e.name| <= NAME_BYTES && |e.linkName| <= NAME_BYTES
  }

  function FrontOf(e: TarEntry, n: Numbers): (front: seq<byte>)
    requires NamesFit(e) && NumbersOf(e) == Some(n)
    ensures |front| == 148
  {
    Field(e.name, NAME_BYTES) + n.mode + n.owner + n.owner + n.size + n.mtime
  }

  function BackOf(e: TarEntry): (back: seq<byte>)
    requires NamesFit(e)
    ensures |back| == 356
  {
    [e.kind] + Field(e.linkName, NAME_BYTES) + MAGIC + VERSION + Field(USER, 32) + Field(USER, 32) + Zeros(183)
  }

  /** The header with the given checksum field. */
  function HeaderWith(e: TarEntry, n: Numbers, checksum: seq<byte>): (header: seq<byte>)
    requires NamesFit(e) && NumbersOf(e) == Some(n) && |checksum| == 8
    ensures |header| == BLOCK
  {
    FrontOf(e, n) + checksum + BackOf(e)
  }

  function ChecksumField(sum: nat): (field: seq<byte>)
    ensures |field| == 8
  {
    OctalDigits(sum, 6) + [0, SPACE]
  }

  /** `tarHeader`: the checksum is that of the header with spaces in its place. */
  function Header(e: TarEntry): (header: Result<seq<byte>, TarError>)
    ensures header.Ok? ==> |header.value| == BLOCK
  {
    if !NamesFit(e) then Err(Unsupported)
    else
      match NumbersOf(e)
      case None => Err(Limit)
      case Some(n) => Ok(HeaderWith(e, n, ChecksumField(Sum(HeaderWith(e, n, SPACES)))))
  }

  /** The block so far: what was written, then zeros. */
  ghost predicate Filled(header: seq<byte>, written: seq<byte>) {
    |header| == BLOCK && |written| <= BLOCK && header == written + Zeros(BLOCK - |written|)
  }

  lemma FilledMore(old': seq<byte>, header: seq<byte>, written: seq<byte>, value: seq<byte>, width: nat)
    requires Filled(old', written) && |header| == BLOCK && |value| <= width && |written| + width <= BLOCK
    requires forall i :: 0 <= i < BLOCK ==>
      header[i] == if |written| <= i < |written| + |value| then value[i - |written|] else old'[i]
    ensures Filled(header, written + Field(value, width))
  {
    hide Zeros;
    var more := written + Field(value, width);
    assert header == more + Zeros(BLOCK - |more|);
  }

  /** `writeField`: copies the value to its offset. */
  method WriteField(header: array<byte>, offset: nat, width: nat, value: seq<byte>, ghost written: seq<byte>)
    requires header.Length == BLOCK && offset == |written| && offset + width <= BLOCK && |value| <= width
    requires Filled(header[..], written)
    modifies header
    ensures Filled(header[..], written + Field(value, width))
  {
    ghost var before := header[..];
    var i := 0;
    while i < |value|
      invariant 0 <= i <= |value|
      invariant forall j :: 0 <= j < BLOCK ==>
        header[j] == if offset <= j < offset + i then value[j - offset] else before[j]
    {
      header[offset + i] := value[i];
      i := i + 1;
    }
    FilledMore(before, header[..], written, value, width);
  }

  lemma Exactly(value: seq<byte>)
    ensures Field(value, |value|) == value
  {
  }

  method WriteFront(header: array<byte>, e: TarEntry, n: Numbers)
    requires header.Length == BLOCK && Filled(header[..], []) && NamesFit(e) && NumbersOf(e) == Some(n)
    modifies header
    ensures Filled(header[..], FrontOf(e, n) + SPACES)
  {
    hide Filled, Field, NumbersOf;
    Exactly(n.mode);
    Exactly(n.owner);
    Exactly(n.size);
    Exactly(n.mtime);
    Exactly(SPACES);
    WriteField(header, 0, 100, e.name, []);
    ghost var w := Field(e.name, 100);
    assert [] + w == w;
    WriteField(header, 100, 8, n.mode, w);
    WriteField(header, 108, 8, n.owner, w + n.mode);
    WriteField(header, 116, 8, n.owner, w + n.mode + n.owner);
    WriteField(header, 124, 12, n.size, w + n.mode + n.owner + n.owner);
    WriteField(header, 136, 12, n.mtime, w + n.mode + n.owner + n.owner + n.size);
    WriteField(header, 148, 8, SPACES, FrontOf(e, n));
  }

  method WriteBack(header: array<byte>, e: TarEntry, ghost front: seq<byte>)
    requires header.Length == BLOCK && |front| == 156 && Filled(header[..], front) && NamesFit(e)
    modifies header
    ensures header[..] == front + BackOf(e)
  {
    hide Filled, Field;
    Exactly([e.kind]);
    Exactly(MAGIC);
    Exactly(VERSION);
    WriteField(header, 156, 1, [e.kind], front);
    ghost var link, user := Field(e.linkName, 100), Field(USER, 32);
    WriteField(header, 157, 100, e.linkName, front + [e.kind]);
    WriteField(header, 257, 6, MAGIC, front + [e.kind] + link);
    WriteField(header, 263, 2, VERSION, front + [e.kind] + link + MAGIC);
    WriteField(header, 265, 32, USER, front + [e.kind] + link + MAGIC + VERSION);
    WriteField(header, 297, 32, USER, front + [e.kind] + link + MAGIC + VERSION + user);
    AllFilled(header[..], front + [e.kind] + link + MAGIC + VERSION + user + user, 183);
    assert front + [e.kind] + link + MAGIC + VERSION + user + user + Zeros(183) == front + BackOf(e);
  }

  lemma AllFilled(header: seq<byte>, written: seq<byte>, left: nat)
    requires Filled(header, written) && |written| + left == BLOCK
    ensures header == written + Zeros(left)
  {
  }

  method SumOf(header: array<byte>) returns (sum: nat)
    ensures sum == Sum(header[..])
  {
    sum := 0;
    var i := 0;
    while i < header.Length
      invariant 0 <= i <= header.Length && sum == Sum(header[..i])
    {
      assert header[..i + 1][..i] == header[..i];
      sum := sum + header[i];
      i := i + 1;
    }
    assert header[..header.Length] == header[..];
  }

  method CopyChecksum(header: array<byte>, field: seq<byte>, ghost front: seq<byte>, ghost back: seq<byte>)
    requires header.Length == BLOCK && |field| == 8 && |front| == 148 && |back| == 356
    requires header[..] == front + SPACES + back
    modifies header
    ensures header[..] == front + field + back
  {
    ghost var before := header[..];
    var i := 0;
    while i < 8
      invariant 0 <= i <= 8
      invariant forall j :: 0 <= j < BLOCK ==> header[j] == if 148 <= j < 148 + i then field[j - 148] else before[j]
    {
      header[148 + i] := field[i];
      i := i + 1;
    }
    Overwritten(header[..], front, field, back);
  }

  lemma Overwritten(header: seq<byte>, front: seq<byte>, field: seq<byte>, back: seq<byte>)
    requires |header| == BLOCK && |field| == 8 && |front| == 148 && |back| == 356
    requires forall j :: 0 <= j < BLOCK ==>
      header[j] == if 148 <= j < 156 then field[j - 148] else (front + SPACES + back)[j]
    ensures header == front + field + back
  {
  }

  method TarHeader(e: TarEntry) returns (r: Result<array<byte>, TarError>)
    ensures r.Ok? <==> Header(e).Ok?
    ensures r.Err? ==> Err(r.error) == Header(e)
    ensures r.Ok? ==> fresh(r.value) && r.value.Length == BLOCK && r.value[..] == Header(e).value
  {
    hide Field, Zeros, Sum, ChecksumField, BackOf, FrontOf, NumbersOf;
    if |e.name| > 100 || |e.linkName| > 100 { return Err(Unsupported); }
    var numbers := NumbersOf(e);
    if numbers.None? { return Err(Limit); }
    var n := numbers.value;
    var header := new byte[512](i => 0);
    NothingWritten(header[..]);
    WriteFront(header, e, n);
    WriteBack(header, e, FrontOf(e, n) + SPACES);
    var sum := SumOf(header);
    CopyChecksum(header, ChecksumField(sum), FrontOf(e, n), BackOf(e));
    return Ok(header);
  }

  lemma NothingWritten(header: seq<byte>)
    requires |header| == BLOCK && forall i :: 0 <= i < BLOCK ==> header[i] == 0
    ensures Filled(header, [])
  {
    assert header == [] + Zeros(BLOCK);
  }

  // ---------------------------------------------------------------- a reader of headers

  datatype HeaderFields = HeaderFields(name: seq<byte>, mode: nat, size: nat, mtime: nat, kind: byte,
                                       linkName: seq<byte>)

  /** The sum of the block with spaces in place of its checksum field. */
  function BlankSum(block: seq<byte>): nat
    requires |block| == BLOCK
  {
    Sum(block[..148] + SPACES + block[156..])
  }

  function ReadHeader(block: seq<byte>): Option<HeaderFields>
    requires |block| == BLOCK
  {
    if block[257..263] != MAGIC || ReadOctal(block[148..156]) != BlankSum(block) then None
    else Some(HeaderFields(CString(block[0..100]), ReadOctal(block[100..108]), ReadOctal(block[124..136]),
                           ReadOctal(block[136..148]), block[156], CString(block[157..257])))
  }

  predicate Archivable(e: TarEntry) {
    NamesFit(e) && NumbersOf(e).Some? && 0 !in e.name && 0 !in e.linkName
  }

  function FieldsOf(e: TarEntry): HeaderFields {
    HeaderFields(e.name, e.mode % 4096, |e.data|, e.mtime, e.kind, e.linkName)
  }

  lemma FrontLayout(e: TarEntry, n: Numbers, block: seq<byte>)
    requires NamesFit(e) && NumbersOf(e) == Some(n) && At(block, 0, FrontOf(e, n))
    ensures At(block, 0, Field(e.name, 100)) && At(block, 100, n.mode) && At(block, 124, n.size)
    ensures At(block, 136, n.mtime)
  {
    hide NumbersOf, Field, At;
    var name := Field(e.name, 100);
    AtAppend(block, 0, name + n.mode + n.owner + n.owner + n.size, n.mtime);
    AtAppend(block, 0, name + n.mode + n.owner + n.owner, n.size);
    AtAppend(block, 0, name + n.mode + n.owner, n.owner);
    AtAppend(block, 0, name + n.mode, n.owner);
    AtAppend(block, 0, name, n.mode);
  }

  lemma BackLayout(e: TarEntry, block: seq<byte>)
    requires NamesFit(e) && At(block, 156, BackOf(e))
    ensures At(block, 156, [e.kind]) && At(block, 157, Field(e.linkName, 100)) && At(block, 257, MAGIC)
  {
    hide Field, At;
    var link, user := Field(e.linkName, 100), Field(USER, 32);
    var kind := [e.kind];
    AtAppend(block, 156, kind + link + MAGIC + VERSION + user + user, Zeros(183));
    AtAppend(block, 156, kind + link + MAGIC + VERSION + user, user);
    AtAppend(block, 156, kind + link + MAGIC + VERSION, user);
    AtAppend(block, 156, kind + link + MAGIC, VERSION);
    AtAppend(block, 156, kind + link, MAGIC);
    AtAppend(block, 156, kind, link);
  }

  lemma Parts(front: seq<byte>, checksum: seq<byte>, back: seq<byte>)
    requires |front| == 148 && |checksum| == 8 && |back| == 356
    ensures
      var block := front + checksum + back;
      At(block, 0, front) && At(block, 148, checksum) && At(block, 156, back) &&
      block[..148] + SPACES + block[156..] == front + SPACES + back
  {
  }

  lemma ChecksumReadsBack(sum: nat)
    requires sum < Pow8(6)
    ensures ReadOctal(ChecksumField(sum)) == sum
  {
    DigitsReadBack(sum, 6, [0, SPACE]);
  }

  lemma SixDigits()
    ensures Pow8(6) == 0x4_0000
  {
    assert Pow8(2) == 64;
    assert Pow8(4) == 4096;
  }

  /** The numbers of an entry read back from their fields. */
  lemma NumbersReadBack(e: TarEntry, n: Numbers)
    requires NumbersOf(e) == Some(n)
    ensures ReadOctal(n.mode) == e.mode % 4096 && ReadOctal(n.size) == |e.data| && ReadOctal(n.mtime) == e.mtime
  {
    hide Octal, ReadOctal;
    OctalReadsBack(e.mode % 4096, 8);
    OctalReadsBack(|e.data|, 12);
    OctalReadsBack(e.mtime, 12);
  }

  lemma SliceAt(block: seq<byte>, offset: nat, part: seq<byte>)
    requires At(block, offset, part)
    ensures offset + |part| <= |block| && block[offset..offset + |part|] == part
    ensures |part| > 0 ==> block[offset] == part[0]
  {
  }

  /** A reader recovers the fields of an emitted header, and its checksum matches. */
  lemma HeaderReadsBack(e: TarEntry)
    requires Archivable(e)
    ensures Header(e).Ok? && ReadHeader(Header(e).value) == Some(FieldsOf(e))
  {
    hide At, Field, Sum, FrontOf, BackOf, ChecksumField, ReadOctal, CString, NumbersOf, Zeros;
    var n := NumbersOf(e).value;
    var front, back := FrontOf(e, n), BackOf(e);
    var sum := Sum(front + SPACES + back);
    var checksum := ChecksumField(sum);
    var block := Header(e).value;
    SumBound(front + SPACES + back);
    SixDigits();
    ChecksumReadsBack(sum);
    Parts(front, checksum, back);
    FrontLayout(e, n, block);
    BackLayout(e, block);
    NumbersReadBack(e, n);
    NameReadsBack(e.name, 100);
    NameReadsBack(e.linkName, 100);
    SliceAt(block, 0, Field(e.name, 100));
    SliceAt(block, 100, n.mode);
    SliceAt(block, 124, n.size);
    SliceAt(block, 136, n.mtime);
    SliceAt(block, 148, checksum);
    SliceAt(block, 156, [e.kind]);
    SliceAt(block, 157, Field(e.linkName, 100));
    SliceAt(block, 257, MAGIC);
  }

  // ---------------------------------------------------------------- the archive

  function Padding(size: nat): nat {
    (BLOCK - size % BLOCK) % BLOCK
  }

  function Padded(size: nat): (n: nat)
    ensures n % BLOCK == 0 && size <= n < size + BLOCK
  {
    size + Padding(size)
  }

  predicate AllArchivable(es: seq<TarEntry>) {
    forall i :: 0 <= i < |es| ==> Archivable(es[i])
  }

  function EncodeTarEntry(e: TarEntry): (b: seq<byte>)
    requires Archivable(e)
    ensures |b| == BLOCK + Padded(|e.data|)
  {
    Header(e).value + e.data + Zeros(Padding(|e.data|))
  }

  function EncodeEntries(es: seq<TarEntry>): seq<byte>
    requires AllArchivable(es)
  {
    if es == [] then [] else EncodeTarEntry(es[0]) + EncodeEntries(es[1..])
  }

  /** The entries, then two blocks of zeros. */
  function EncodeTar(es: seq<TarEntry>): seq<byte>
    requires AllArchivable(es)
  {
    EncodeEntries(es) + Zeros(2 * BLOCK)
  }

  lemma BlocksAdd(a: nat, b: nat)
    requires a % BLOCK == 0 && b % BLOCK == 0
    ensures (a + b) % BLOCK == 0
  {
  }

  /** An archive is whole blocks. */
  lemma {:induction false} WholeBlocks(es: seq<TarEntry>)
    requires AllArchivable(es)
    ensures |EncodeEntries(es)| % BLOCK == 0
  {
    hide Archivable, EncodeTarEntry, Padded;
    if es != [] {
      WholeBlocks(es[1..]);
      BlocksAdd(BLOCK, Padded(|es[0].data|));
      BlocksAdd(|EncodeTarEntry(es[0])|, |EncodeEntries(es[1..])|);
    }
  }

  /** Reads entries up to two blocks of zeros, at which the archive has to end. */
  function ReadTar(b: seq<byte>): Result<seq<TarEntry>, TarError>
    decreases |b|
  {
    if |b| < BLOCK then Err(BadArchive)
    else if b[..BLOCK] == Zeros(BLOCK) then (if b[BLOCK..] == Zeros(BLOCK) then Ok([]) else Err(BadArchive))
    else
      match ReadHeader(b[..BLOCK])
      case None => Err(BadArchive)
      case Some(h) =>
        var next := BLOCK + Padded(h.size);
        if |b| < next then Err(BadArchive)
        else
          match ReadTar(b[next..])
          case Err(error) => Err(error)
          case Ok(rest) => Ok([TarEntry(h.name, h.mode, h.mtime, h.kind, h.linkName, b[BLOCK..BLOCK + h.size])] + rest)
  }

  function Stored(e: TarEntry): TarEntry {
    e.(mode := e.mode % 4096)
  }

  function AllStored(es: seq<TarEntry>): seq<TarEntry> {
    if es == [] then [] else [Stored(es[0])] + AllStored(es[1..])
  }

  lemma FirstBlock(e: TarEntry, rest: seq<byte>)
    requires Archivable(e) && Header(e).Ok?
    ensures
      var b := EncodeTarEntry(e) + rest;
      b[..BLOCK] == Header(e).value && b[BLOCK..BLOCK + |e.data|] == e.data && b[BLOCK + Padded(|e.data|)..] == rest
  {
    hide Header, Zeros, Archivable;
    var b := EncodeTarEntry(e) + rest;
    assert EncodeTarEntry(e)[..BLOCK] == Header(e).value;
  }

  lemma NotZeros(block: seq<byte>)
    requires |block| == BLOCK && ReadHeader(block).Some?
    ensures block != Zeros(BLOCK)
  {
    assert block[257..263][0] == block[257];
  }

  /** Whoever follows the format recovers every entry of the archive, with its permission bits. */
  lemma {:induction false} TarReadsBack(es: seq<TarEntry>)
    requires AllArchivable(es)
    ensures ReadTar(EncodeTar(es)) == Ok(AllStored(es))
    decreases |es|
  {
    hide Header, ReadHeader, Archivable, EncodeTarEntry, Padded, Zeros;
    if es == [] {
      EndOfArchive();
    } else {
      var e := es[0];
      var rest := EncodeTar(es[1..]);
      TarReadsBack(es[1..]);
      HeaderReadsBack(e);
      FirstBlock(e, rest);
      NotZeros(Header(e).value);
      assert EncodeTar(es) == EncodeTarEntry(e) + rest;
    }
  }

  lemma EndOfArchive()
    ensures [] + Zeros(2 * BLOCK) == Zeros(2 * BLOCK) && ReadTar(Zeros(2 * BLOCK)) == Ok([])
  {
    var b := Zeros(2 * BLOCK);
    assert b[..BLOCK] == Zeros(BLOCK) && b[BLOCK..] == Zeros(BLOCK);
  }

  // ---------------------------------------------------------------- chunks

  /** What the walk finds at a path. */
  datatype Source =
    | DirectoryAt(path: seq<byte>, mode: nat, mtime: nat)
    | SymlinkAt(path: seq<byte>, mode: nat, mtime: nat, target: seq<byte>)
    | FileAt(path: seq<byte>, mode: nat, mtime: nat, inode: nat, nlink: nat, content: seq<byte>)
    | OtherAt(path: seq<byte>)

  const SLASH: seq<byte> := [47]

  function Prior(s: Source, links: map<nat, seq<byte>>): Option<seq<byte>> {
    if s.FileAt? && s.nlink > 1 && s.inode in links then Some(links[s.inode]) else None
  }

  function EntryFor(s: Source, links: map<nat, seq<byte>>): Result<TarEntry, TarError> {
    match s
    case DirectoryAt(path, mode, mtime) => Ok(TarEntry(path + SLASH, mode, mtime, TYPE_DIRECTORY, [], []))
    case SymlinkAt(path, mode, mtime, target) => Ok(TarEntry(path, mode, mtime, TYPE_SYMLINK, target, []))
    case FileAt(path, mode, mtime, _, _, content) =>
      if Prior(s, links).Some? then Ok(TarEntry(path, mode, mtime, TYPE_HARDLINK, Prior(s, links).value, []))
      else Ok(TarEntry(path, mode, mtime, TYPE_FILE, [], content))
    case OtherAt(_) => Err(Unsupported)
  }

  function LinksAfter(s: Source, links: map<nat, seq<byte>>): map<nat, seq<byte>> {
    if s.FileAt? && s.nlink > 1 && s.inode !in links then links[s.inode := s.path] else links
  }

  /** The entries of the sources, in their order. */
  function EntriesFor(sources: seq<Source>, links: map<nat, seq<byte>>): Result<seq<TarEntry>, TarError>
    decreases |sources|
  {
    if sources == [] then Ok([])
    else
      match EntryFor(sources[0], links)
      case Err(error) => Err(error)
      case Ok(e) =>
        if Header(e).Err? then Err(Header(e).error)
        else
          match EntriesFor(sources[1..], LinksAfter(sources[0], links))
          case Err(error) => Err(error)
          case Ok(rest) => Ok([e] + rest)
  }

  /** Names from a file system have no NUL. */
  predicate NoNul(s: Source) {
    0 !in s.path && (s.SymlinkAt? ==> 0 !in s.target)
  }

  ghost predicate LinksNoNul(links: map<nat, seq<byte>>) {
    forall i :: i in links ==> 0 !in links[i]
  }

  lemma EntryArchivable(s: Source, links: map<nat, seq<byte>>)
    requires NoNul(s) && LinksNoNul(links) && EntryFor(s, links).Ok? && Header(EntryFor(s, links).value).Ok?
    ensures Archivable(EntryFor(s, links).value) && LinksNoNul(LinksAfter(s, links))
  {
    hide NumbersOf, HeaderWith;
  }

  lemma {:induction false} EntriesArchivable(sources: seq<Source>, links: map<nat, seq<byte>>)
    requires (forall i :: 0 <= i < |sources| ==> NoNul(sources[i])) && LinksNoNul(links) &&
             EntriesFor(sources, links).Ok?
    ensures AllArchivable(EntriesFor(sources, links).value) && |EntriesFor(sources, links).value| == |sources|
    decreases |sources|
  {
    hide Archivable, NoNul, EntryFor, LinksAfter, Header, LinksNoNul;
    if sources != [] {
      EntryArchivable(sources[0], links);
      EntriesArchivable(sources[1..], LinksAfter(sources[0], links));
    }
  }

  /** `chunks`: what the stream yields, joined. */
  method Chunks(sources: seq<Source>) returns (r: Result<seq<byte>, TarError>)
    requires forall i :: 0 <= i < |sources| ==> NoNul(sources[i])
    ensures r.Ok? <==> EntriesFor(sources, map[]).Ok?
    ensures r.Err? ==> EntriesFor(sources, map[]) == Err(r.error)
    ensures r.Ok? ==>
      var es := EntriesFor(sources, map[]).value;
      AllArchivable(es) && r.value == EncodeTar(es) && |es| == |sources| &&
      forall n :: 0 <= n < |sources| ==> LinkEntryOk(sources, es, n) && EntrySays(sources[n], es[n])
  {
    hide EntrySays;
    hide Archivable, NoNul, EntryFor, LinksAfter, Header, LinksNoNul, EncodeTarEntry, EncodeEntries, Zeros, LinkEntryOk;
    var out: seq<byte> := [];
    var links: map<nat, seq<byte>> := map[];
    ghost var done: seq<TarEntry> := [];
    var k := 0;
    ChunksStart(sources);
    while k < |sources|
      invariant 0 <= k <= |sources| && LinksNoNul(links) && AllArchivable(done) && out == EncodeEntries(done)
      invariant EntriesFor(sources, map[]) == Prefixed(done, EntriesFor(sources[k..], links))
    {
      EntriesStep(sources, k, links);
      var entry := EntryFor(sources[k], links);
      if entry.Err? { return Err(entry.error); }
      var header := TarHeader(entry.value);
      if header.Err? { return Err(header.error); }
      EntryArchivable(sources[k], links);
      OneMoreEntry(done, entry.value, header.value[..]);
      PrefixedMore(done, entry.value, EntriesFor(sources[k + 1..], LinksAfter(sources[k], links)));
      out := out + header.value[..] + entry.value.data + Zeros(Padding(|entry.value.data|));
      links := LinksAfter(sources[k], links);
      done := done + [entry.value];
      k := k + 1;
    }
    assert done + [] == done;
    HardLinkPointsBack(sources);
    return Ok(out + Zeros(2 * BLOCK));
  }

  function Prefixed(done: seq<TarEntry>, rest: Result<seq<TarEntry>, TarError>): Result<seq<TarEntry>, TarError> {
    match rest
    case Err(error) => Err(error)
    case Ok(es) => Ok(done + es)
  }

  lemma PrefixedMore(done: seq<TarEntry>, e: TarEntry, rest: Result<seq<TarEntry>, TarError>)
    ensures Prefixed(done, Prefixed([e], rest)) == Prefixed(done + [e], rest)
  {
    if rest.Ok? { assert done + ([e] + rest.value) == done + [e] + rest.value; }
  }

  lemma ChunksStart(sources: seq<Source>)
    ensures LinksNoNul(map[]) && EncodeEntries([]) == [] && sources[0..] == sources
    ensures EntriesFor(sources, map[]) == Prefixed([], EntriesFor(sources, map[]))
  {
    if EntriesFor(sources, map[]).Ok? {
      assert [] + EntriesFor(sources, map[]).value == EntriesFor(sources, map[]).value;
    }
  }

  lemma EntriesStep(sources: seq<Source>, k: nat, links: map<nat, seq<byte>>)
    requires k < |sources|
    ensures
      var entry := EntryFor(sources[k], links);
      EntriesFor(sources[k..], links) ==
        if entry.Err? then Err(entry.error)
        else if Header(entry.value).Err? then Err(Header(entry.value).error)
        else Prefixed([entry.value], EntriesFor(sources[k + 1..], LinksAfter(sources[k], links)))
  {
    assert sources[k..][0] == sources[k] && sources[k..][1..] == sources[k + 1..];
  }

  lemma {:induction false} EntriesAppend(es: seq<TarEntry>, e: TarEntry)
    requires AllArchivable(es) && Archivable(e)
    ensures AllArchivable(es + [e]) && EncodeEntries(es + [e]) == EncodeEntries(es) + EncodeTarEntry(e)
    decreases |es|
  {
    hide Archivable, EncodeTarEntry;
    if es == [] {
      assert [] + [e] == [e] && [e][1..] == [];
    } else {
      assert (es + [e])[1..] == es[1..] + [e];
      EntriesAppend(es[1..], e);
    }
  }

  lemma OneMoreEntry(done: seq<TarEntry>, e: TarEntry, header: seq<byte>)
    requires AllArchivable(done) && Archivable(e) && Header(e) == Ok(header)
    ensures AllArchivable(done + [e])
    ensures EncodeEntries(done + [e]) == EncodeEntries(done) + header + e.data + Zeros(Padding(|e.data|))
  {
    hide Archivable, Header, EncodeEntries, Zeros;
    EntriesAppend(done, e);
  }

  // ---------------------------------------------------------------- hard links

  /** The table of first paths when the walk comes to source `k`. */
  function LinksBefore(sources: seq<Source>, k: nat): map<nat, seq<byte>>
    requires k <= |sources|
  {
    if k == 0 then map[] else LinksAfter(sources[k - 1], LinksBefore(sources, k - 1))
  }

  /** `j` is the first path of an inode with several links. */
  ghost predicate FirstOf(sources: seq<Source>, j: nat, inode: nat)
    requires j < |sources|
  {
    Shared(sources[j], inode) && forall i :: 0 <= i < j ==> !Shared(sources[i], inode)
  }

  /** A path of an inode with several links. */
  predicate Shared(s: Source, inode: nat) {
    s.FileAt? && s.inode == inode && s.nlink > 1
  }

  ghost predicate FirstPath(sources: seq<Source>, k: nat, inode: nat, path: seq<byte>)
    requires k <= |sources|
  {
    exists j :: 0 <= j < k && FirstOf(sources, j, inode) && sources[j].path == path
  }

  /** The table has exactly the shared inodes passed so far, each with its first path. */
  lemma {:induction false} TableOfFirstPaths(sources: seq<Source>, k: nat, inode: nat)
    requires k <= |sources|
    ensures inode in LinksBefore(sources, k) <==> exists j :: 0 <= j < k && Shared(sources[j], inode)
    ensures inode in LinksBefore(sources, k) ==> FirstPath(sources, k, inode, LinksBefore(sources, k)[inode])
  {
    if k > 0 {
      TableOfFirstPaths(sources, k - 1, inode);
      var links := LinksBefore(sources, k - 1);
      if inode in links {
        var j :| 0 <= j < k - 1 && FirstOf(sources, j, inode) && sources[j].path == links[inode];
      } else if Shared(sources[k - 1], inode) {
        assert FirstOf(sources, k - 1, inode);
      }
    }
  }

  /** Every entry is made with the table of its own position. */
  lemma {:induction false} EntriesByTable(sources: seq<Source>, k: nat)
    requires k <= |sources| && EntriesFor(sources[k..], LinksBefore(sources, k)).Ok?
    ensures
      var es := EntriesFor(sources[k..], LinksBefore(sources, k)).value;
      |es| == |sources| - k &&
      forall n :: k <= n < |sources| ==> EntryFor(sources[n], LinksBefore(sources, n)) == Ok(es[n - k])
    decreases |sources| - k
  {
    if k < |sources| {
      var links := LinksBefore(sources, k);
      EntriesStep(sources, k, links);
      hide EntryFor, Header, LinksAfter;
      EntriesByTable(sources, k + 1);
      var rest := EntriesFor(sources[k + 1..], LinksBefore(sources, k + 1)).value;
      var es := EntriesFor(sources[k..], links).value;
      assert es == [EntryFor(sources[k], links).value] + rest;
      forall n | k <= n < |sources| ensures EntryFor(sources[n], LinksBefore(sources, n)) == Ok(es[n - k]) {
        if n > k { assert es[n - k] == rest[n - (k + 1)]; }
      }
    }
  }

  /** Entry `k` is a hard link exactly when an earlier path has the same shared inode, and then it names the first such
      path, which is in the archive before it as a regular file with the contents found there. */
  ghost predicate LinkEntryOk(sources: seq<Source>, es: seq<TarEntry>, k: nat)
    requires |es| == |sources| && k < |sources|
  {
    (es[k].kind == TYPE_HARDLINK <==>
      sources[k].FileAt? && Shared(sources[k], sources[k].inode) &&
      exists j :: 0 <= j < k && Shared(sources[j], sources[k].inode)) &&
    (es[k].kind == TYPE_HARDLINK ==>
      sources[k].FileAt? &&
      exists j :: 0 <= j < k && FirstOf(sources, j, sources[k].inode) && es[j].kind == TYPE_FILE &&
                  es[j].name == es[k].linkName && es[j].data == sources[j].content)
  }

  /** The entry has the name, mode and time found at the path, a directory's name ends with '/', and a link its
      target. */
  predicate EntrySays(s: Source, e: TarEntry) {
    match s
    case DirectoryAt(path, mode, mtime) => e == TarEntry(path + [47], mode, mtime, 53, [], [])
    case SymlinkAt(path, mode, mtime, target) => e == TarEntry(path, mode, mtime, 50, target, [])
    case FileAt(path, mode, mtime, _, _, content) =>
      e.name == path && e.mode == mode && e.mtime == mtime &&
      ((e.kind == 48 && e.linkName == [] && e.data == content) || (e.kind == 49 && e.data == []))
    case OtherAt(_) => false
  }

  lemma HardLinkPointsBack(sources: seq<Source>)
    requires EntriesFor(sources, map[]).Ok?
    ensures |EntriesFor(sources, map[]).value| == |sources|
    ensures forall k :: 0 <= k < |sources| ==> LinkEntryOk(sources, EntriesFor(sources, map[]).value, k)
    ensures forall k :: 0 <= k < |sources| ==> EntrySays(sources[k], EntriesFor(sources, map[]).value[k])
  {
    assert sources[0..] == sources;
    EntriesByTable(sources, 0);
    var es := EntriesFor(sources, map[]).value;
    forall k | 0 <= k < |sources| ensures LinkEntryOk(sources, es, k) && EntrySays(sources[k], es[k]) {
      assert EntryFor(sources[k], LinksBefore(sources, k)) == Ok(es[k - 0]);
      if sources[k].FileAt? { LinkEntry(sources, es, k); }
    }
  }

  lemma LinkEntry(sources: seq<Source>, es: seq<TarEntry>, k: nat)
    requires |es| == |sources| && k < |sources| && sources[k].FileAt?
    requires forall n :: 0 <= n < |sources| ==> EntryFor(sources[n], LinksBefore(sources, n)) == Ok(es[n])
    ensures LinkEntryOk(sources, es, k)
  {
    var inode, links := sources[k].inode, LinksBefore(sources, k);
    TableOfFirstPaths(sources, k, inode);
    if inode in links && sources[k].nlink > 1 {
      var j :| 0 <= j < k && FirstOf(sources, j, inode) && sources[j].path == links[inode];
      TableOfFirstPaths(sources, j, inode);
      assert EntryFor(sources[j], LinksBefore(sources, j)) == Ok(es[j]);
      assert es[j].kind == TYPE_FILE && es[j].name == links[inode];
    }
  }
}
