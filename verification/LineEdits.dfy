/** Line edits by byte splices: `file_edit` of agent/src/file_ops.rs. */
module LineEdits {
  import opened Prelude
  import opened Text

  const MAX_EDIT_FILE_BYTES: nat := 16 * 1024 * 1024
  const MAX_EDIT_CONTENT_BYTES: nat := 768 * 1024

  datatype EditKind = Replace | Delete | InsertBefore | InsertAfter | UnknownKind

  /** Line numbers count from 1. */
  datatype Edit = Edit(kind: EditKind, start: nat, end: Option<nat>, content: Option<seq<byte>>)

  datatype EditFailure = InvalidArgument | FileTooLarge
  datatype Edited = Edited(bytes: seq<byte>, linesBefore: nat, linesAfter: nat)

  // ---------------------------------------------------------------- what the edits mean

  function EndOf(e: Edit): nat {
    if e.end.Some? then e.end.value else e.start
  }

  predicate ShapeOk(e: Edit) {
    match e.kind
    case Replace => e.end.Some? && e.content.Some?
    case Delete => e.end.Some? && e.content.None?
    case InsertBefore => e.end.None? && e.content.Some?
    case InsertAfter => e.end.None? && e.content.Some?
    case UnknownKind => false
  }

  predicate EditOk(e: Edit, n: nat) {
    1 <= e.start <= EndOf(e) <= n && ShapeOk(e)
  }

  predicate Apart(e: Edit, f: Edit) {
    EndOf(e) < f.start || EndOf(f) < e.start
  }

  /** Well-formed edits of a file with `n` lines that touch no line twice; the order they come in is no part of it. */
  ghost predicate Acceptable(edits: multiset<Edit>, n: nat) {
    (forall e :: e in edits ==> EditOk(e, n) && edits[e] == 1) &&
    (forall e, f :: e in edits && f in edits && e != f ==> Apart(e, f))
  }

  /** The edit touches line `k`, counted from 0. */
  predicate Covers(e: Edit, k: nat) {
    e.start <= k + 1 <= EndOf(e)
  }

  function ContentOf(e: Edit): seq<byte> {
    if e.content.Some? then e.content.value else []
  }

  /** What becomes of line `k` under an edit that touches it. */
  function LineUnder(e: Edit, k: nat, line: seq<byte>): seq<byte> {
    match e.kind
    case Replace => if k + 1 == e.start then ContentOf(e) else []
    case InsertBefore => ContentOf(e) + line
    case InsertAfter => line + ContentOf(e)
    case _ => []
  }

  ghost function LineAfter(lines: seq<seq<byte>>, edits: multiset<Edit>, k: nat): seq<byte>
    requires k < |lines|
  {
    if e :| e in edits && Covers(e, k) then LineUnder(e, k, lines[k]) else lines[k]
  }

  /** The line-by-line rewrite from line `k` on. */
  ghost function Rewritten(lines: seq<seq<byte>>, edits: multiset<Edit>, k: nat): seq<byte>
    requires k <= |lines|
    decreases |lines| - k
  {
    if k == |lines| then [] else LineAfter(lines, edits, k) + Rewritten(lines, edits, k + 1)
  }

  function ContentBytes(edits: seq<Edit>): nat {
    if edits == [] then 0 else ContentBytes(edits[..|edits| - 1]) + |ContentOf(edits[|edits| - 1])|
  }

  ghost function AllContent(edits: multiset<Edit>): nat
    decreases |edits|
  {
    if e :| e in edits then |ContentOf(e)| + AllContent(edits - multiset{e}) else 0
  }

  lemma {:induction false} AllContentAny(edits: multiset<Edit>, e: Edit)
    requires e in edits
    ensures AllContent(edits) == |ContentOf(e)| + AllContent(edits - multiset{e})
    decreases |edits|
  {
    var f :| f in edits && AllContent(edits) == |ContentOf(f)| + AllContent(edits - multiset{f});
    if f != e {
      AllContentAny(edits - multiset{f}, e);
      AllContentAny(edits - multiset{e}, f);
      assert edits - multiset{f} - multiset{e} == edits - multiset{e} - multiset{f};
    }
  }

  lemma {:induction false} ContentOfAll(edits: seq<Edit>)
    ensures ContentBytes(edits) == AllContent(multiset(edits))
  {
    if edits != [] {
      var front, last := edits[..|edits| - 1], edits[|edits| - 1];
      ContentOfAll(front);
      assert edits == front + [last];
      AllContentAny(multiset(edits), last);
      assert multiset(edits) - multiset{last} == multiset(front);
    }
  }

  // ---------------------------------------------------------------- the specification

  /** The outcome of an edit call on a file: a function of the set of edits, not of the order they come in. */
  ghost function EditedFile(bytes: seq<byte>, edits: multiset<Edit>): Result<Edited, EditFailure> {
    if AllContent(edits) > MAX_EDIT_CONTENT_BYTES then Err(FileTooLarge)
    else if !Acceptable(edits, |Lines(bytes)|) then Err(InvalidArgument)
    else
      var after := Rewritten(Lines(bytes), edits, 0);
      if |after| > MAX_EDIT_FILE_BYTES then Err(FileTooLarge) else Ok(Edited(after, |Lines(bytes)|, |Lines(after)|))
  }

  // ---------------------------------------------------------------- the splices

  /** Sorted and accepted: each edit starts after the end of the one before. */
  predicate InOrder(edits: seq<Edit>, n: nat) {
    (forall i :: 0 <= i < |edits| ==> EditOk(edits[i], n)) &&
    (forall i, j :: 0 <= i < j < |edits| ==> EndOf(edits[i]) < edits[j].start)
  }

  lemma CoveredBy(lines: seq<seq<byte>>, edits: seq<Edit>, m: nat, k: nat)
    requires InOrder(edits, |lines|) && m < |edits| && Covers(edits[m], k) && k < |lines|
    ensures LineAfter(lines, multiset(edits), k) == LineUnder(edits[m], k, lines[k])
  {
    assert edits[m] in multiset(edits);
    forall e | e in multiset(edits) && Covers(e, k) ensures e == edits[m] {
      var i :| 0 <= i < |edits| && edits[i] == e;
    }
  }

  /** Lines from `k` up to `to`, which no edit touches. */
  lemma {:induction false} Untouched(lines: seq<seq<byte>>, edits: multiset<Edit>, k: nat, upto: nat)
    requires k <= upto <= |lines| && forall e, i :: e in edits && k <= i < upto ==> !Covers(e, i)
    ensures Flat(lines[..k]) + Rewritten(lines, edits, k) == Flat(lines[..upto]) + Rewritten(lines, edits, upto)
    decreases upto - k
  {
    if k < upto {
      hide Flat;
      Untouched(lines, edits, k + 1, upto);
      FlatNext(lines, k);
      Regroup(Flat(lines[..k]), lines[k], Rewritten(lines, edits, k + 1));
    }
  }

  /** The lines of a replaced or deleted range after its first. */
  lemma {:induction false} Swallowed(lines: seq<seq<byte>>, edits: seq<Edit>, m: nat, k: nat)
    requires InOrder(edits, |lines|) && m < |edits| && (edits[m].kind.Replace? || edits[m].kind.Delete?)
    requires edits[m].start <= k <= EndOf(edits[m])
    ensures Rewritten(lines, multiset(edits), k) == Rewritten(lines, multiset(edits), EndOf(edits[m]))
    decreases EndOf(edits[m]) - k
  {
    if k < EndOf(edits[m]) {
      CoveredBy(lines, edits, m, k);
      Swallowed(lines, edits, m, k + 1);
    }
  }

  /** Where an edit is spliced in. */
  function SpliceStart(lines: seq<seq<byte>>, e: Edit): nat
    requires EditOk(e, |lines|)
  {
    Offset(lines, if e.kind.InsertAfter? then e.start else e.start - 1)
  }

  function SpliceEnd(lines: seq<seq<byte>>, e: Edit): nat
    requires EditOk(e, |lines|)
  {
    Offset(lines, if e.kind.InsertBefore? then e.start - 1 else EndOf(e))
  }

  lemma RewrittenStep(lines: seq<seq<byte>>, edits: multiset<Edit>, k: nat)
    requires k < |lines|
    ensures Rewritten(lines, edits, k) == LineAfter(lines, edits, k) + Rewritten(lines, edits, k + 1)
  {
  }

  /** The lines an edit touches, rewritten. */
  lemma EditRewrites(lines: seq<seq<byte>>, edits: seq<Edit>, m: nat)
    requires InOrder(edits, |lines|) && m < |edits| && EditOk(edits[m], |lines|)
    ensures
      var e := edits[m];
      var line, rest := lines[e.start - 1], Rewritten(lines, multiset(edits), EndOf(e));
      Rewritten(lines, multiset(edits), e.start - 1) ==
        match e.kind
        case InsertAfter => (line + ContentOf(e)) + rest
        case InsertBefore => (ContentOf(e) + line) + rest
        case _ => ContentOf(e) + rest
  {
    hide LineAfter, InOrder, Rewritten;
    var e := edits[m];
    CoveredBy(lines, edits, m, e.start - 1);
    RewrittenStep(lines, multiset(edits), e.start - 1);
    if e.kind.Replace? || e.kind.Delete? { Swallowed(lines, edits, m, e.start); }
  }

  lemma {:induction false} FlatPrefix(lines: seq<seq<byte>>, j: nat, k: nat)
    requires j <= k <= |lines|
    ensures Flat(lines[..j]) <= Flat(lines[..k])
    decreases k
  {
    if j < k {
      FlatPrefix(lines, j, k - 1);
      FlatNext(lines, k - 1);
    }
  }

  function Splice(b: seq<byte>, from: nat, upto: nat, content: seq<byte>): seq<byte>
    requires from <= upto <= |b|
  {
    b[..from] + content + b[upto..]
  }

  lemma SpliceBetween(first: seq<byte>, mid: seq<byte>, rest: seq<byte>, content: seq<byte>)
    ensures Splice(first + mid + rest, |first|, |first| + |mid|, content) == first + content + rest
  {
  }

  /** With all lines from the end of the edit on rewritten, its splice rewrites its own lines. */
  lemma SpliceRewrites(lines: seq<seq<byte>>, edits: seq<Edit>, m: nat, b: seq<byte>)
    requires InOrder(edits, |lines|) && m < |edits| && EditOk(edits[m], |lines|)
    requires b == Flat(lines[..EndOf(edits[m])]) + Rewritten(lines, multiset(edits), EndOf(edits[m]))
    ensures
      var e := edits[m];
      var from, upto := SpliceStart(lines, e), SpliceEnd(lines, e);
      from <= upto <= |b| &&
      Splice(b, from, upto, ContentOf(e)) == Flat(lines[..e.start - 1]) + Rewritten(lines, multiset(edits), e.start - 1)
  {
    hide Flat, Rewritten, InOrder, Splice;
    var e := edits[m];
    var content, line, rest := ContentOf(e), lines[e.start - 1], Rewritten(lines, multiset(edits), EndOf(e));
    var first, through := Flat(lines[..e.start - 1]), Flat(lines[..EndOf(e)]);
    EditRewrites(lines, edits, m);
    FlatNext(lines, e.start - 1);
    if e.kind.InsertAfter? {
      assert b == through + [] + rest && through == first + line;
      SpliceBetween(through, [], rest, content);
      assert first + ((line + content) + rest) == through + content + rest;
    } else if e.kind.InsertBefore? {
      assert b == first + [] + (line + rest);
      SpliceBetween(first, [], line + rest, content);
      assert first + ((content + line) + rest) == first + content + (line + rest);
    } else {
      FlatPrefix(lines, e.start - 1, EndOf(e));
      assert through == first + through[|first|..];
      SpliceBetween(first, through[|first|..], rest, content);
      assert first + (content + rest) == first + content + rest;
    }
  }

  /** The untouched lines between two edits, and those after the last one. */
  lemma BetweenEdits(lines: seq<seq<byte>>, edits: seq<Edit>, m: nat)
    requires InOrder(edits, |lines|) && 0 < m <= |edits|
    ensures
      var from := EndOf(edits[m - 1]);
      var upto := if m == |edits| then |lines| else edits[m].start - 1;
      from <= upto &&
      Flat(lines[..from]) + Rewritten(lines, multiset(edits), from) ==
        Flat(lines[..upto]) + Rewritten(lines, multiset(edits), upto)
  {
    var from := EndOf(edits[m - 1]);
    var upto := if m == |edits| then |lines| else edits[m].start - 1;
    forall e, i | e in multiset(edits) && from <= i < upto ensures !Covers(e, i) {
      var j :| 0 <= j < |edits| && edits[j] == e;
      if j < m - 1 { assert EndOf(edits[j]) < edits[m - 1].start; }
      if j > m { assert EndOf(edits[m]) < edits[j].start; }
    }
    Untouched(lines, multiset(edits), from, upto);
  }

  lemma NoLines(lines: seq<seq<byte>>)
    ensures Flat(lines[..0]) == []
  {
  }

  /** The lines before the first edit. */
  lemma BeforeEdits(lines: seq<seq<byte>>, edits: seq<Edit>)
    requires InOrder(edits, |lines|)
    ensures
      var upto := if edits == [] then |lines| else edits[0].start - 1;
      Rewritten(lines, multiset(edits), 0) == Flat(lines[..upto]) + Rewritten(lines, multiset(edits), upto)
  {
    hide Flat, Rewritten;
    var upto := if edits == [] then |lines| else edits[0].start - 1;
    forall e, i | e in multiset(edits) && 0 <= i < upto ensures !Covers(e, i) {
      var j :| 0 <= j < |edits| && edits[j] == e;
      if j > 0 { assert EndOf(edits[0]) < edits[j].start; }
    }
    Untouched(lines, multiset(edits), 0, upto);
    assert Flat(lines[..0]) == [] by { NoLines(lines); }
  }

  // ---------------------------------------------------------------- the text an edited file has

  lemma {:induction false} FlatConcat(xs: seq<seq<byte>>, ys: seq<seq<byte>>)
    ensures Flat(xs + ys) == Flat(xs) + Flat(ys)
    decreases |ys|
  {
    if ys == [] {
      assert xs + ys == xs;
    } else {
      var front := ys[..|ys| - 1];
      FlatConcat(xs, front);
      assert (xs + ys)[..|xs + ys| - 1] == xs + front;
      Regroup(Flat(xs), Flat(front), ys[|ys| - 1]);
    }
  }

  /** The file under edits that stand in the order of its lines, from line `k` on: what lies between two edits stays, a
      range is replaced or left out, and an insertion stands in front of its line or behind it. */
  function Stitched(lines: seq<seq<byte>>, edits: seq<Edit>, k: nat): seq<byte>
    requires InOrder(edits, |lines|) && k <= |lines| && (edits != [] ==> k < edits[0].start)
    decreases |edits|
  {
    if edits == [] then Flat(lines[k..])
    else
      var e, rest := edits[0], edits[1..];
      var before, line := Flat(lines[k..e.start - 1]), lines[e.start - 1];
      match e.kind
      case Replace => before + e.content.value + Stitched(lines, rest, e.end.value)
      case Delete => before + Stitched(lines, rest, e.end.value)
      case InsertBefore => before + e.content.value + line + Stitched(lines, rest, e.start)
      case InsertAfter => before + line + e.content.value + Stitched(lines, rest, e.start)
      case UnknownKind => []
  }

  lemma FromUntouched(lines: seq<seq<byte>>, edits: multiset<Edit>, k: nat, upto: nat)
    requires k <= upto <= |lines| && forall e, i :: e in edits && k <= i < upto ==> !Covers(e, i)
    ensures Rewritten(lines, edits, k) == Flat(lines[k..upto]) + Rewritten(lines, edits, upto)
  {
    hide Flat, Rewritten;
    Untouched(lines, edits, k, upto);
    assert lines[..upto] == lines[..k] + lines[k..upto];
    FlatConcat(lines[..k], lines[k..upto]);
    Regroup(Flat(lines[..k]), Flat(lines[k..upto]), Rewritten(lines, edits, upto));
    var a, b, c := Flat(lines[..k]), Rewritten(lines, edits, k), Flat(lines[k..upto]) + Rewritten(lines, edits, upto);
    assert (a + b)[|a|..] == b && (a + c)[|a|..] == c;
  }

  /** From an edit on, or from behind the last one. */
  lemma {:induction false} StitchedFrom(lines: seq<seq<byte>>, edits: seq<Edit>, m: nat)
    requires InOrder(edits, |lines|) && m <= |edits|
    ensures
      var k := if m == 0 then 0 else EndOf(edits[m - 1]);
      Rewritten(lines, multiset(edits), k) == Stitched(lines, edits[m..], k)
    decreases |edits| - m
  {
    hide Flat, Rewritten, LineAfter;
    var k := if m == 0 then 0 else EndOf(edits[m - 1]);
    var upto := if m == |edits| then |lines| else edits[m].start - 1;
    forall e, i | e in multiset(edits) && k <= i < upto ensures !Covers(e, i) {
      var j :| 0 <= j < |edits| && edits[j] == e;
      if 0 < m && j < m - 1 { assert EndOf(edits[j]) < edits[m - 1].start; }
      if j > m { assert EndOf(edits[m]) < edits[j].start; }
    }
    FromUntouched(lines, multiset(edits), k, upto);
    if m == |edits| {
      assert lines[k..|lines|] == lines[k..];
      NothingRewritten(lines, multiset(edits));
    } else {
      EditRewrites(lines, edits, m);
      StitchedFrom(lines, edits, m + 1);
      StitchedStep(lines, edits, m, k);
    }
  }

  lemma NothingRewritten(lines: seq<seq<byte>>, edits: multiset<Edit>)
    ensures Rewritten(lines, edits, |lines|) == []
  {
  }

  lemma StitchedStep(lines: seq<seq<byte>>, edits: seq<Edit>, m: nat, k: nat)
    requires InOrder(edits, |lines|) && m < |edits| && k < edits[m].start
    ensures
      var e, rest := edits[m], Stitched(lines, edits[m + 1..], EndOf(edits[m]));
      var before, line := Flat(lines[k..e.start - 1]), lines[e.start - 1];
      Stitched(lines, edits[m..], k) ==
        before + match e.kind
                 case InsertAfter => (line + ContentOf(e)) + rest
                 case InsertBefore => (ContentOf(e) + line) + rest
                 case _ => ContentOf(e) + rest
  {
    hide Flat;
    assert edits[m..][0] == edits[m] && edits[m..][1..] == edits[m + 1..];
  }

  /** The outcome of an edit call, by the order of the lines: sorted edits stitch the file together. */
  lemma EditedIsStitched(bytes: seq<byte>, edits: seq<Edit>)
    requires EditedFile(bytes, multiset(edits)).Ok? && InOrder(edits, |Lines(bytes)|)
    ensures EditedFile(bytes, multiset(edits)).value.bytes == Stitched(Lines(bytes), edits, 0)
  {
    hide Rewritten, Stitched, Acceptable;
    assert edits[0..] == edits;
    StitchedFrom(Lines(bytes), edits, 0);
  }

  /** A single edit of a file, by kind. */
  lemma OneEdit(bytes: seq<byte>, e: Edit)
    requires EditedFile(bytes, multiset{e}).Ok?
    ensures
      var lines, after := Lines(bytes), EditedFile(bytes, multiset{e}).value.bytes;
      1 <= e.start <= |lines| &&
      match e.kind
      case Replace =>
        e.end.Some? && e.content.Some? && e.start <= e.end.value <= |lines| &&
        after == Flat(lines[..e.start - 1]) + e.content.value + Flat(lines[e.end.value..])
      case Delete =>
        e.end.Some? && e.content.None? && e.start <= e.end.value <= |lines| &&
        after == Flat(lines[..e.start - 1]) + Flat(lines[e.end.value..])
      case InsertBefore =>
        e.end.None? && e.content.Some? &&
        after == Flat(lines[..e.start - 1]) + e.content.value + Flat(lines[e.start - 1..])
      case InsertAfter =>
        e.end.None? && e.content.Some? && after == Flat(lines[..e.start]) + e.content.value + Flat(lines[e.start..])
      case UnknownKind => false
  {
    var lines := Lines(bytes);
    assert e in multiset{e};
    assert EditOk(e, |lines|);
    assert multiset([e]) == multiset{e};
    hide Flat, Rewritten, Acceptable, EditedFile, Stitched;
    EditedIsStitched(bytes, [e]);
    OneStitched(lines, e);
  }

  lemma OneStitched(lines: seq<seq<byte>>, e: Edit)
    requires EditOk(e, |lines|)
    ensures
      var after, front, back := Stitched(lines, [e], 0), Flat(lines[..e.start - 1]), Flat(lines[EndOf(e)..]);
      match e.kind
      case Replace => after == front + e.content.value + back
      case Delete => after == front + back
      case InsertBefore => after == front + e.content.value + Flat(lines[e.start - 1..])
      case InsertAfter => after == Flat(lines[..e.start]) + e.content.value + back
      case UnknownKind => true
  {
    hide Flat;
    var line := lines[e.start - 1];
    assert [e][1..] == [];
    assert lines[0..e.start - 1] == lines[..e.start - 1];
    var front, back := Flat(lines[..e.start - 1]), Flat(lines[EndOf(e)..]);
    assert Stitched(lines, [], EndOf(e)) == back;
    assert lines[e.start - 1..] == [line] + lines[e.start..] && lines[..e.start] == lines[..e.start - 1] + [line];
    FlatConcat([line], lines[e.start..]);
    FlatConcat(lines[..e.start - 1], [line]);
    FlatOne(line);
    if e.kind.InsertBefore? { Regroup(front + e.content.value, line, back); }
  }

  lemma FlatOne(line: seq<byte>)
    ensures Flat([line]) == line
  {
    assert Flat([line][..0]) == [];
  }

  /** The edit names lines of the file and has what its kind needs. */
  predicate WellFormedEdit(e: Edit, n: nat) {
    1 <= e.start <= n &&
    match e.kind
    case Replace => e.end.Some? && e.start <= e.end.value <= n && e.content.Some?
    case Delete => e.end.Some? && e.start <= e.end.value <= n && e.content.None?
    case InsertBefore => e.end.None? && e.content.Some?
    case InsertAfter => e.end.None? && e.content.Some?
    case UnknownKind => false
  }

  /** The line, counted from 1, is in the range of the edit, or is the line it inserts at. */
  predicate Touches(e: Edit, k: nat) {
    if e.end.Some? then e.start <= k <= e.end.value else k == e.start
  }

  ghost predicate Clash(e: Edit, f: Edit) {
    exists k :: Touches(e, k) && Touches(f, k)
  }

  lemma ClashMeans(e: Edit, f: Edit, n: nat)
    requires EditOk(e, n) && EditOk(f, n)
    ensures Clash(e, f) <==> !Apart(e, f)
  {
    if !Apart(e, f) {
      var k := if e.start < f.start then f.start else e.start;
      assert Touches(e, k) && Touches(f, k);
    }
  }

  /** The contents of all edits and the edited file have their limits. */
  lemma EditLimits(bytes: seq<byte>, edits: multiset<Edit>)
    ensures AllContent(edits) > 768 * 1024 ==> EditedFile(bytes, edits) == Err(FileTooLarge)
    ensures EditedFile(bytes, edits).Ok? ==> |EditedFile(bytes, edits).value.bytes| <= 16 * 1024 * 1024
    ensures AllContent(edits) <= 768 * 1024 && EditedFile(bytes, edits) == Err(FileTooLarge) ==>
      |Rewritten(Lines(bytes), edits, 0)| > 16 * 1024 * 1024
  {
    hide Rewritten, AllContent, Acceptable;
  }

  /** When an edit call is refused, in terms of the edits alone. */
  lemma EditRefusals(bytes: seq<byte>, edits: multiset<Edit>)
    ensures EditedFile(bytes, edits) == Err(InvalidArgument) <==>
      AllContent(edits) <= 768 * 1024 &&
      ((exists e :: e in edits && !WellFormedEdit(e, |Lines(bytes)|)) ||
       (exists e :: e in edits && edits[e] > 1) ||
       (exists e, f :: e in edits && f in edits && e != f && Clash(e, f)))
  {
    hide Rewritten, AllContent, Clash;
    var n := |Lines(bytes)|;
    forall e ensures EditOk(e, n) <==> WellFormedEdit(e, n) {}
    hide EditOk, WellFormedEdit, Apart;
    forall e, f | EditOk(e, n) && EditOk(f, n) ensures Clash(e, f) <==> !Apart(e, f) { ClashMeans(e, f, n); }
  }

  // ---------------------------------------------------------------- the call

  predicate StartsAre(starts: seq<nat>, lines: seq<seq<byte>>) {
    |starts| == |lines| && forall k :: 0 <= k < |lines| ==> starts[k] == Offset(lines, k)
  }

  /** The starts of the lines so far and, when `pending`, the start `i` of the next one. */
  predicate StartsFor(starts: seq<nat>, lines: seq<seq<byte>>, pending: bool, i: nat) {
    if pending then |starts| == |lines| + 1 && starts[|lines|] == i && StartsAre(starts[..|lines|], lines)
    else StartsAre(starts, lines)
  }

  predicate StartsSoFar(starts: seq<nat>, b: seq<byte>, i: nat)
    requires i <= |b|
  {
    StartsFor(starts, Lines(b[..i]), i == 0 || (Ended(b[..i]) && i < |b|), i)
  }

  lemma StartsOfAdded(starts: seq<nat>, lines: seq<seq<byte>>, c: byte)
    requires StartsFor(starts, lines, lines == [] || Ended(lines[|lines| - 1]), |Flat(lines)|)
    ensures StartsAre(starts, AddByte(lines, c))
  {
    hide Flat, Ended;
    var more := AddByte(lines, c);
    forall k | 0 <= k < |more| ensures starts[k] == Offset(more, k) {
      assert more[..k] == lines[..k];
      assert k == |lines| ==> lines[..k] == lines;
    }
  }

  lemma Pushed(starts: seq<nat>, lines: seq<seq<byte>>, push: bool, i: nat)
    requires StartsAre(starts, lines)
    ensures StartsFor(if push then starts + [i] else starts, lines, push, i)
  {
    assert (starts + [i])[..|starts|] == starts;
  }

  lemma NextStart(starts: seq<nat>, b: seq<byte>, i: nat)
    requires i < |b| && StartsSoFar(starts, b, i)
    ensures StartsSoFar(if b[i] == NEWLINE && i + 1 < |b| then starts + [i + 1] else starts, b, i + 1)
  {
    hide StartsAre, StartsFor, Flat, AddByte;
    LinesAreAll(b[..i]);
    LinesAreLines(b[..i]);
    StartsOfAdded(starts, Lines(b[..i]), b[i]);
    assert b[..i + 1][..i] == b[..i];
    Pushed(starts, Lines(b[..i + 1]), b[i] == NEWLINE && i + 1 < |b|, i + 1);
  }

  lemma FirstStart(b: seq<byte>)
    ensures StartsSoFar([0], b, 0)
  {
  }

  lemma LastStart(starts: seq<nat>, b: seq<byte>)
    requires StartsSoFar(starts, b, |b|)
    ensures StartsAre(if b == [] then [] else starts, Lines(b))
  {
    assert b[..|b|] == b;
  }

  method FindStarts(b: seq<byte>) returns (starts: seq<nat>)
    ensures StartsAre(starts, Lines(b))
  {
    hide StartsFor, StartsAre, Lines, Ended;
    starts := [0];
    var i := 0;
    FirstStart(b);
    while i < |b|
      invariant 0 <= i <= |b|
      invariant StartsSoFar(starts, b, i)
    {
      NextStart(starts, b, i);
      if b[i] == NEWLINE && i + 1 < |b| { starts := starts + [i + 1]; }
      i := i + 1;
    }
    LastStart(starts, b);
    if b == [] { starts := []; }
  }

  predicate KeyLe(e: Edit, f: Edit) {
    e.start < f.start || (e.start == f.start && EndOf(e) <= EndOf(f))
  }

  predicate KeySorted(edits: seq<Edit>) {
    forall i, j :: 0 <= i < j < |edits| ==> KeyLe(edits[i], edits[j])
  }

  method InsertEdit(sorted: seq<Edit>, e: Edit) returns (more: seq<Edit>)
    requires KeySorted(sorted)
    ensures multiset(more) == multiset(sorted) + multiset{e} && KeySorted(more)
  {
    var at := |sorted|;
    while at > 0 && !KeyLe(sorted[at - 1], e)
      invariant 0 <= at <= |sorted|
      invariant forall k :: at <= k < |sorted| ==> KeyLe(e, sorted[k])
    {
      at := at - 1;
    }
    InsertedAll(sorted, at, e);
    InsertedSorted(sorted, at, e);
    more := sorted[..at] + [e] + sorted[at..];
  }

  lemma InsertedAll(sorted: seq<Edit>, at: nat, e: Edit)
    requires at <= |sorted|
    ensures multiset(sorted[..at] + [e] + sorted[at..]) == multiset(sorted) + multiset{e}
  {
    assert sorted == sorted[..at] + sorted[at..];
  }

  lemma InsertedSorted(sorted: seq<Edit>, at: nat, e: Edit)
    requires KeySorted(sorted) && at <= |sorted| && (at > 0 ==> KeyLe(sorted[at - 1], e))
    requires forall k :: at <= k < |sorted| ==> KeyLe(e, sorted[k])
    ensures KeySorted(sorted[..at] + [e] + sorted[at..])
  {
    var more := sorted[..at] + [e] + sorted[at..];
    forall i, j | 0 <= i < j < |more| ensures KeyLe(more[i], more[j]) {
      assert more[i] == if i < at then sorted[i] else if i == at then e else sorted[i - 1];
      assert more[j] == if j < at then sorted[j] else if j == at then e else sorted[j - 1];
      if j == at && i < at - 1 { assert KeyLe(sorted[i], sorted[at - 1]); }
    }
  }

  /** `sort_by_key` on start and end. */
  method SortEdits(edits: seq<Edit>) returns (sorted: seq<Edit>)
    ensures multiset(sorted) == multiset(edits) && KeySorted(sorted)
  {
    sorted := [];
    var n := 0;
    while n < |edits|
      invariant 0 <= n <= |edits|
      invariant multiset(sorted) == multiset(edits[..n]) && KeySorted(sorted)
    {
      sorted := InsertEdit(sorted, edits[n]);
      assert edits[..n + 1] == edits[..n] + [edits[n]];
      n := n + 1;
    }
    assert edits[..|edits|] == edits;
  }

  lemma TwiceCounted(edits: seq<Edit>, i: nat, j: nat)
    requires i < j < |edits| && edits[i] == edits[j]
    ensures multiset(edits)[edits[i]] >= 2
  {
    assert edits == edits[..j] + edits[j..];
    assert edits[..j][i] == edits[i] && edits[j..][0] == edits[j];
    assert edits[i] in multiset(edits[..j]) && edits[j] in multiset(edits[j..]);
  }

  lemma {:induction false} CountedOnce(edits: seq<Edit>, e: Edit)
    requires e in edits && forall i, j :: 0 <= i < j < |edits| ==> edits[i] != edits[j]
    ensures multiset(edits)[e] == 1
  {
    var front, last := edits[..|edits| - 1], edits[|edits| - 1];
    assert edits == front + [last];
    if e in front { CountedOnce(front, e); }
  }

  /** Sorted edits are accepted exactly when each starts after the end of the one before. */
  lemma InOrderAccepted(edits: seq<Edit>, n: nat)
    requires InOrder(edits, n)
    ensures Acceptable(multiset(edits), n)
  {
    forall e | e in multiset(edits) ensures EditOk(e, n) && multiset(edits)[e] == 1 { CountedOnce(edits, e); }
    forall e, f | e in multiset(edits) && f in multiset(edits) && e != f ensures Apart(e, f) {
      var i :| 0 <= i < |edits| && edits[i] == e;
      var j :| 0 <= j < |edits| && edits[j] == f;
    }
  }

  lemma OverlapRefused(edits: seq<Edit>, n: nat, i: nat)
    requires KeySorted(edits) && 0 < i < |edits| && EditOk(edits[i], n) && EditOk(edits[i - 1], n)
    requires edits[i].start <= EndOf(edits[i - 1])
    ensures !Acceptable(multiset(edits), n)
  {
    assert edits[i] in multiset(edits) && edits[i - 1] in multiset(edits);
    if edits[i] == edits[i - 1] { TwiceCounted(edits, i - 1, i); }
  }

  /** The validation loop over the sorted edits. */
  method Validate(edits: seq<Edit>, n: nat) returns (ok: bool)
    requires KeySorted(edits)
    ensures ok <==> Acceptable(multiset(edits), n)
    ensures ok ==> InOrder(edits, n)
  {
    var previousEnd := 0;
    var i := 0;
    while i < |edits|
      invariant 0 <= i <= |edits| && InOrder(edits[..i], n)
      invariant previousEnd == if i == 0 then 0 else EndOf(edits[i - 1])
    {
      var e := edits[i];
      assert edits[..i + 1] == edits[..i] + [e];
      assert e in multiset(edits);
      if e.start == 0 || e.start > n { return false; }
      var end := EndOf(e);
      if end < e.start || end > n { return false; }
      if !ShapeOk(e) { return false; }
      if e.start <= previousEnd {
        assert edits[..i][i - 1] == edits[i - 1];
        OverlapRefused(edits, n, i);
        return false;
      }
      forall j | 0 <= j < i ensures EndOf(edits[j]) < e.start {
        assert edits[..i][j] == edits[j] && edits[..i][i - 1] == edits[i - 1];
      }
      previousEnd := end;
      i := i + 1;
    }
    assert edits[..|edits|] == edits;
    InOrderAccepted(edits, n);
    return true;
  }

  /** The first line of the m-th edit, from 0, or the number of lines. */
  function Cut(edits: seq<Edit>, n: nat, m: nat): nat
    requires InOrder(edits, n) && m <= |edits|
  {
    if m == |edits| then n else edits[m].start - 1
  }

  /** The splices in reverse order, at offsets of the original file; the end of the last line is the live length. */
  method ApplySplices(b: seq<byte>, starts: seq<nat>, edits: seq<Edit>) returns (out: seq<byte>)
    requires StartsAre(starts, Lines(b)) && InOrder(edits, |starts|)
    ensures out == Rewritten(Lines(b), multiset(edits), 0)
  {
    hide Flat, Rewritten, Lines;
    ghost var lines := Lines(b);
    var n := |starts|;
    out := b;
    LinesAreAll(b);
    var m := |edits|;
    NothingAfter(lines, multiset(edits));
    while m > 0
      invariant 0 <= m <= |edits|
      invariant var k := Cut(edits, n, m); out == Flat(lines[..k]) + Rewritten(lines, multiset(edits), k)
    {
      var e := edits[m - 1];
      var content := if e.content.Some? then e.content.value else [];
      BetweenEdits(lines, edits, m);
      EndsAtLength(lines, edits, m, out);
      SpliceRewrites(lines, edits, m - 1, out);
      var lineStart := starts[e.start - 1];
      var lineEnd := if EndOf(e) < n then starts[EndOf(e)] else |out|;
      var from := if e.kind.InsertAfter? then lineEnd else lineStart;
      var upto := if e.kind.InsertBefore? then lineStart else lineEnd;
      out := Splice(out, from, upto, content);
      m := m - 1;
    }
    BeforeEdits(lines, edits);
  }

  lemma NothingAfter(lines: seq<seq<byte>>, edits: multiset<Edit>)
    ensures Flat(lines[..|lines|]) + Rewritten(lines, edits, |lines|) == Flat(lines)
  {
    assert lines[..|lines|] == lines;
  }

  /** Only the last edit reaches the end of the file, so the live length is then still the length of the original. */
  lemma EndsAtLength(lines: seq<seq<byte>>, edits: seq<Edit>, m: nat, out: seq<byte>)
    requires InOrder(edits, |lines|) && 0 < m <= |edits|
    requires var k := Cut(edits, |lines|, m); out == Flat(lines[..k]) + Rewritten(lines, multiset(edits), k)
    ensures EndOf(edits[m - 1]) == |lines| ==> |out| == Offset(lines, |lines|)
  {
  }

  method CountNewlines(b: seq<byte>) returns (count: nat)
    ensures count == Newlines(b)
  {
    count := 0;
    var i := 0;
    while i < |b|
      invariant 0 <= i <= |b| && count == Newlines(b[..i])
    {
      assert b[..i + 1][..i] == b[..i];
      if b[i] == NEWLINE { count := count + 1; }
      i := i + 1;
    }
    assert b[..|b|] == b;
  }

  method SumContent(edits: seq<Edit>) returns (total: nat)
    ensures total == AllContent(multiset(edits))
  {
    total := 0;
    var i := 0;
    while i < |edits|
      invariant 0 <= i <= |edits| && total == ContentBytes(edits[..i])
    {
      assert edits[..i + 1][..i] == edits[..i];
      total := total + |ContentOf(edits[i])|;
      i := i + 1;
    }
    assert edits[..|edits|] == edits;
    ContentOfAll(edits);
  }

  /** The part of `file_edit` between reading the file and replacing it. */
  method EditBytes(bytes: seq<byte>, edits: seq<Edit>) returns (r: Result<Edited, EditFailure>)
    ensures r == EditedFile(bytes, multiset(edits))
  {
    hide Rewritten, Acceptable, Lines, AllContent;
    var contentBytes := SumContent(edits);
    if contentBytes > MAX_EDIT_CONTENT_BYTES { return Err(FileTooLarge); }
    var starts := FindStarts(bytes);
    var lineCount := |starts|;
    var sorted := SortEdits(edits);
    var ok := Validate(sorted, lineCount);
    if !ok { return Err(InvalidArgument); }
    var after := ApplySplices(bytes, starts, sorted);
    if |after| > MAX_EDIT_FILE_BYTES { return Err(FileTooLarge); }
    var linesAfter: nat := 0;
    if after != [] {
      var newlines := CountNewlines(after);
      CountLines(after);
      linesAfter := 1 + newlines - (if after[|after| - 1] == NEWLINE then 1 else 0);
    }
    return Ok(Edited(after, lineCount, linesAfter));
  }
}
