/** Pages of the lines of a stored artifact: `streamArtifactLines`, `selectedLine` and `lineNumbers` of
    src/mcp/server.ts. */
module ArtifactLines {
  import opened Prelude
  import opened Text

  const MAX_TEXT_RESPONSE_BYTES: nat := 512 * 1024

  datatype Range = Range(start: nat, end: nat)

  /** No ranges select every line. */
  type Ranges = Option<seq<Range>>

  /** The JSON array of the lines: brackets, the encoded lines, commas. */
  type LineBytes = seq<byte> -> nat

  datatype Query = Query(start: nat, ranges: Ranges, limit: Option<nat>, lineBytes: LineBytes)
  datatype Page = Page(lines: seq<seq<byte>>, next: Option<nat>)

  predicate InRanges(n: nat, ranges: Ranges) {
    ranges.None? || exists i :: 0 <= i < |ranges.value| && ranges.value[i].start <= n <= ranges.value[i].end
  }

  /** `selectedLine`. */
  predicate Selected(q: Query, n: nat) {
    n >= q.start && InRanges(n, q.ranges)
  }

  function TextBytes(f: LineBytes, lines: seq<seq<byte>>): nat {
    if lines == [] then 0 else TextBytes(f, lines[..|lines| - 1]) + f(lines[|lines| - 1])
  }

  predicate Fits(f: LineBytes, lines: seq<seq<byte>>) {
    2 + TextBytes(f, lines) + (if lines == [] then 0 else |lines| - 1) <= MAX_TEXT_RESPONSE_BYTES
  }

  predicate Refused(q: Query, got: seq<seq<byte>>, line: seq<byte>) {
    (q.limit.Some? && |got| >= q.limit.value) || !Fits(q.lineBytes, got + [line])
  }

  // ---------------------------------------------------------------- reading

  datatype Reading = Reading(lineNumber: nat, lines: seq<seq<byte>>, next: Option<nat>)

  const NOTHING_READ := Reading(0, [], None)

  function Accept(q: Query, r: Reading, line: seq<byte>): Reading {
    var n := r.lineNumber + 1;
    if !Selected(q, n) then r.(lineNumber := n)
    else if Refused(q, r.lines, line) then Reading(n, r.lines, Some(n))
    else Reading(n, r.lines + [line], None)
  }

  /** Line after line until one is refused. */
  function AcceptAll(q: Query, r: Reading, lines: seq<seq<byte>>): Reading
    decreases |lines|
  {
    if lines == [] || r.next.Some? then r else AcceptAll(q, Accept(q, r, lines[0]), lines[1..])
  }

  function PageOf(q: Query, lines: seq<seq<byte>>): Page {
    var r := AcceptAll(q, NOTHING_READ, lines);
    Page(r.lines, r.next)
  }

  /** The position of the first newline. */
  function IndexOfNewline(b: seq<byte>): (n: Option<nat>)
    ensures n.Some? ==> n.value < |b| && b[n.value] == NEWLINE && NEWLINE !in b[..n.value]
    ensures n.None? ==> NEWLINE !in b
  {
    if b == [] then None
    else if b[0] == NEWLINE then Some(0)
    else
      match IndexOfNewline(b[1..])
      case None => None
      case Some(n) => assert b[..n + 1] == [b[0]] + b[1..][..n]; Some(n + 1)
  }

  lemma {:induction false} OneLine(b: seq<byte>)
    requires NEWLINE !in b
    ensures Lines(b) == if b == [] then [] else [b]
  {
    if b != [] {
      OneLine(b[..|b| - 1]);
      assert b == b[..|b| - 1] + [b[|b| - 1]];
    }
  }

  lemma AddAfterLine(line: seq<byte>, lines: seq<seq<byte>>, c: byte)
    requires Ended(line)
    ensures AddByte([line] + lines, c) == [line] + AddByte(lines, c)
  {
    if lines == [] {
      assert [line] + lines == [line];
    } else {
      var all := [line] + lines;
      assert all[|all| - 1] == lines[|lines| - 1];
      assert all[..|all| - 1] == [line] + lines[..|lines| - 1];
    }
  }

  /** A complete line in front is the first line. */
  lemma {:induction false} FirstLine(line: seq<byte>, rest: seq<byte>)
    requires Ended(line) && NEWLINE !in line[..|line| - 1]
    ensures Lines(line + rest) == [line] + Lines(rest)
    decreases |rest|
  {
    hide AddByte;
    if rest == [] {
      assert line + rest == line;
      EndedLine(line);
      assert [line] + Lines(rest) == [line];
    } else {
      var front, c := rest[..|rest| - 1], rest[|rest| - 1];
      FirstLine(line, front);
      AddAfterLine(line, Lines(front), c);
      var all := line + rest;
      assert all[..|all| - 1] == line + front && all[|all| - 1] == c;
    }
  }

  lemma CloseLine(front: seq<byte>, c: byte)
    requires NEWLINE !in front
    ensures AddByte(if front == [] then [] else [front], c) == [front + [c]]
  {
    if front == [] {
      assert front + [c] == [c];
    } else {
      assert [front][..|[front]| - 1] + [front + [c]] == [front + [c]];
    }
  }

  lemma EndedLine(line: seq<byte>)
    requires Ended(line) && NEWLINE !in line[..|line| - 1]
    ensures Lines(line) == [line]
  {
    var front := line[..|line| - 1];
    OneLine(front);
    CloseLine(front, NEWLINE);
    hide AddByte;
    assert line == front + [NEWLINE];
  }

  /** The stream comes in chunks that know nothing of lines; the page is that of the lines of the whole text. */
  method StreamLines(chunks: seq<seq<byte>>, q: Query) returns (page: Page)
    ensures page == PageOf(q, Lines(Concat(chunks)))
  {
    hide Accept, Lines;
    var r := NOTHING_READ;
    var pending: seq<byte> := [];
    var i := 0;
    assert [] + Concat(chunks[0..]) == Concat(chunks) by { assert chunks[0..] == chunks; }
    while i < |chunks|
      invariant 0 <= i <= |chunks| && r.next.None? && NEWLINE !in pending
      invariant PageOf(q, Lines(Concat(chunks))) == Finished(q, r, pending + Concat(chunks[i..]))
    {
      assert chunks[i..][0] == chunks[i] && chunks[i..][1..] == chunks[i + 1..];
      assert pending + (chunks[i] + Concat(chunks[i + 1..])) == (pending + chunks[i]) + Concat(chunks[i + 1..]);
      pending := pending + chunks[i];
      ghost var later := Concat(chunks[i + 1..]);
      var newline := IndexOfNewline(pending);
      while newline.Some?
        invariant r.next.None? && newline == IndexOfNewline(pending)
        invariant PageOf(q, Lines(Concat(chunks))) == Finished(q, r, pending + later)
        decreases |pending|
      {
        var line := pending[..newline.value + 1];
        TakeLine(q, r, pending, newline.value, later);
        pending := pending[newline.value + 1..];
        r := Accept(q, r, line);
        if r.next.Some? {
          Stopped(q, r, pending + later);
          return Page(r.lines, r.next);
        }
        newline := IndexOfNewline(pending);
      }
      i := i + 1;
    }
    assert pending + Concat(chunks[i..]) == pending;
    LastLine(q, r, pending);
    if |pending| > 0 { r := Accept(q, r, pending); }
    return Page(r.lines, r.next);
  }

  /** The page when the rest of the text is still to come. */
  ghost function Finished(q: Query, r: Reading, rest: seq<byte>): Page {
    var done := AcceptAll(q, r, Lines(rest));
    Page(done.lines, done.next)
  }

  lemma TakeLine(q: Query, r: Reading, pending: seq<byte>, n: nat, later: seq<byte>)
    requires r.next.None? && n < |pending| && pending[n] == NEWLINE && NEWLINE !in pending[..n]
    ensures Finished(q, r, pending + later) == Finished(q, Accept(q, r, pending[..n + 1]), pending[n + 1..] + later)
  {
    hide Accept, Lines;
    var line := pending[..n + 1];
    assert line[..n] == pending[..n];
    FirstLine(line, pending[n + 1..] + later);
    assert pending + later == line + (pending[n + 1..] + later);
    var rest := Lines(pending[n + 1..] + later);
    assert ([line] + rest)[1..] == rest;
  }

  lemma Stopped(q: Query, r: Reading, rest: seq<byte>)
    requires r.next.Some?
    ensures Finished(q, r, rest) == Page(r.lines, r.next)
  {
  }

  lemma OneAccepted(q: Query, r: Reading, line: seq<byte>)
    requires r.next.None?
    ensures AcceptAll(q, r, [line]) == Accept(q, r, line)
  {
    hide Accept;
    assert [line][1..] == [];
  }

  lemma LastLine(q: Query, r: Reading, pending: seq<byte>)
    requires r.next.None? && NEWLINE !in pending
    ensures Finished(q, r, pending) ==
      var last := if pending == [] then r else Accept(q, r, pending);
      Page(last.lines, last.next)
  {
    hide Accept, Lines;
    OneLine(pending);
    if pending == [] {
      assert AcceptAll(q, r, []) == r;
    } else {
      OneAccepted(q, r, pending);
    }
  }

  // ---------------------------------------------------------------- pages

  /** The selected line numbers from `lo` up to the last line. */
  function NumbersFrom(total: nat, ranges: Ranges, lo: nat): (ns: seq<nat>)
    ensures forall i :: 0 <= i < |ns| ==> lo <= ns[i] <= total && InRanges(ns[i], ranges)
    decreases total + 1 - lo
  {
    if lo > total then [] else (if InRanges(lo, ranges) then [lo] else []) + NumbersFrom(total, ranges, lo + 1)
  }

  function TextsAt(lines: seq<seq<byte>>, ns: seq<nat>): (texts: seq<seq<byte>>)
    requires forall i :: 0 <= i < |ns| ==> 1 <= ns[i] <= |lines|
    ensures |texts| == |ns|
  {
    if ns == [] then [] else [lines[ns[0] - 1]] + TextsAt(lines, ns[1..])
  }

  /** How many of the numbers' lines go on a page that has `got`. */
  function TakeCount(q: Query, texts: seq<seq<byte>>, got: seq<seq<byte>>): (t: nat)
    ensures t <= |texts|
    decreases |texts|
  {
    if texts == [] || Refused(q, got, texts[0]) then 0 else 1 + TakeCount(q, texts[1..], got + [texts[0]])
  }

  lemma NextNumber(total: nat, ranges: Ranges, lo: nat)
    requires !InRanges(lo, ranges)
    ensures NumbersFrom(total, ranges, lo) == NumbersFrom(total, ranges, lo + 1)
  {
    hide InRanges;
    if lo <= total { assert [] + NumbersFrom(total, ranges, lo + 1) == NumbersFrom(total, ranges, lo + 1); }
  }

  lemma ThisNumber(total: nat, ranges: Ranges, lo: nat)
    requires InRanges(lo, ranges) && lo <= total
    ensures NumbersFrom(total, ranges, lo) == [lo] + NumbersFrom(total, ranges, lo + 1)
  {
  }

  lemma NoNumbers(total: nat, ranges: Ranges, lo: nat)
    requires lo > total
    ensures NumbersFrom(total, ranges, lo) == []
  {
  }

  /** What is on the page, and the number of the first line that is not. */
  ghost predicate PageWith(r: Reading, q: Query, lines: seq<seq<byte>>, ns: seq<nat>, got: seq<seq<byte>>)
    requires forall i :: 0 <= i < |ns| ==> 1 <= ns[i] <= |lines|
  {
    var texts := TextsAt(lines, ns);
    var t := TakeCount(q, texts, got);
    r.lines == got + texts[..t] && r.next == if t < |ns| then Some(ns[t]) else None
  }

  lemma RefusedFirst(r: Reading, q: Query, lines: seq<seq<byte>>, n: nat, rest: seq<nat>, got: seq<seq<byte>>)
    requires 1 <= n <= |lines| && (forall i :: 0 <= i < |rest| ==> 1 <= rest[i] <= |lines|)
    requires Refused(q, got, lines[n - 1])
    requires r.lines == got && r.next == Some(n)
    ensures PageWith(r, q, lines, [n] + rest, got)
  {
    hide Refused;
    var texts := TextsAt(lines, [n] + rest);
    assert got + texts[..0] == got;
  }

  lemma AcceptedFirst(r: Reading, q: Query, lines: seq<seq<byte>>, n: nat, rest: seq<nat>, got: seq<seq<byte>>)
    requires 1 <= n <= |lines| && (forall i :: 0 <= i < |rest| ==> 1 <= rest[i] <= |lines|)
    requires !Refused(q, got, lines[n - 1])
    requires PageWith(r, q, lines, rest, got + [lines[n - 1]])
    ensures PageWith(r, q, lines, [n] + rest, got)
  {
    hide Refused, TextsAt, TakeCount;
    var line, texts := lines[n - 1], TextsAt(lines, rest);
    TextsCons(lines, n, rest);
    TakeCons(q, line, texts, got);
    var t := TakeCount(q, texts, got + [line]);
    assert got + ([line] + texts)[..t + 1] == got + [line] + texts[..t];
  }

  lemma TextsCons(lines: seq<seq<byte>>, n: nat, rest: seq<nat>)
    requires 1 <= n <= |lines| && forall i :: 0 <= i < |rest| ==> 1 <= rest[i] <= |lines|
    ensures TextsAt(lines, [n] + rest) == [lines[n - 1]] + TextsAt(lines, rest)
  {
    assert ([n] + rest)[1..] == rest;
  }

  lemma {:induction false} TextsAre(lines: seq<seq<byte>>, ns: seq<nat>)
    requires forall i :: 0 <= i < |ns| ==> 1 <= ns[i] <= |lines|
    ensures forall i :: 0 <= i < |ns| ==> TextsAt(lines, ns)[i] == lines[ns[i] - 1]
  {
    if ns != [] { TextsAre(lines, ns[1..]); }
  }

  lemma TakeCons(q: Query, line: seq<byte>, texts: seq<seq<byte>>, got: seq<seq<byte>>)
    requires !Refused(q, got, line)
    ensures TakeCount(q, [line] + texts, got) == 1 + TakeCount(q, texts, got + [line])
  {
    hide Refused;
    assert ([line] + texts)[1..] == texts;
  }

  lemma NothingTaken(r: Reading, q: Query, lines: seq<seq<byte>>, got: seq<seq<byte>>)
    requires r.lines == got && r.next.None?
    ensures PageWith(r, q, lines, [], got)
  {
    assert got + TextsAt(lines, [])[..0] == got;
  }

  function FirstFrom(q: Query, n: nat): nat {
    if n < q.start then q.start else n
  }

  /** From line `n` on the page gets the next selected lines up to the first refused one. */
  lemma {:induction false} RestOfPage(q: Query, lines: seq<seq<byte>>, n: nat, got: seq<seq<byte>>)
    requires n <= |lines| && q.start >= 1
    ensures PageWith(AcceptAll(q, Reading(n, got, None), lines[n..]), q, lines,
                     NumbersFrom(|lines|, q.ranges, FirstFrom(q, n + 1)), got)
    decreases |lines| - n
  {
    hide Refused, InRanges, NumbersFrom, PageWith;
    var start := Reading(n, got, None);
    if n == |lines| {
      NoNumbers(|lines|, q.ranges, FirstFrom(q, n + 1));
      NothingTaken(start, q, lines, got);
    } else {
      assert lines[n..][0] == lines[n] && lines[n..][1..] == lines[n + 1..];
      if n + 1 < q.start {
        RestOfPage(q, lines, n + 1, got);
      } else if !InRanges(n + 1, q.ranges) {
        NextNumber(|lines|, q.ranges, n + 1);
        RestOfPage(q, lines, n + 1, got);
      } else {
        ThisNumber(|lines|, q.ranges, n + 1);
        var rest := NumbersFrom(|lines|, q.ranges, n + 2);
        if Refused(q, got, lines[n]) {
          RefusedFirst(Accept(q, start, lines[n]), q, lines, n + 1, rest, got);
        } else {
          RestOfPage(q, lines, n + 1, got + [lines[n]]);
          AcceptedFirst(AcceptAll(q, Reading(n + 1, got + [lines[n]], None), lines[n + 1..]), q, lines, n + 1, rest,
                        got);
        }
      }
    }
  }

  /** A page is a run of selected lines from its start, and its cursor is the number of the next selected line. */
  lemma PageIsRun(q: Query, lines: seq<seq<byte>>)
    requires q.start >= 1
    ensures
      var ns := NumbersFrom(|lines|, q.ranges, q.start);
      var texts := TextsAt(lines, ns);
      var t := TakeCount(q, texts, []);
      PageOf(q, lines) == Page(texts[..t], if t < |ns| then Some(ns[t]) else None)
  {
    hide NumbersFrom, TextsAt, TakeCount, AcceptAll, InRanges, Refused;
    assert lines[0..] == lines;
    RestOfPage(q, lines, 0, []);
    assert FirstFrom(q, 1) == q.start;
    var texts := TextsAt(lines, NumbersFrom(|lines|, q.ranges, q.start));
    var t := TakeCount(q, texts, []);
    assert [] + texts[..t] == texts[..t];
  }

  /** The numbers from one of them on are the rest of the numbers. */
  lemma {:induction false} NumbersSuffix(total: nat, ranges: Ranges, lo: nat, t: nat)
    requires t < |NumbersFrom(total, ranges, lo)|
    ensures NumbersFrom(total, ranges, NumbersFrom(total, ranges, lo)[t]) == NumbersFrom(total, ranges, lo)[t..]
    decreases total + 1 - lo
  {
    hide InRanges;
    var ns := NumbersFrom(total, ranges, lo);
    if InRanges(lo, ranges) {
      assert ns[1..] == NumbersFrom(total, ranges, lo + 1);
      if t > 0 {
        NumbersSuffix(total, ranges, lo + 1, t - 1);
        assert ns[t..] == ns[1..][t - 1..];
      } else {
        assert ns[0..] == ns;
      }
    } else {
      assert [] + NumbersFrom(total, ranges, lo + 1) == NumbersFrom(total, ranges, lo + 1);
      NumbersSuffix(total, ranges, lo + 1, t);
    }
  }

  predicate FitsAlone(f: LineBytes, texts: seq<seq<byte>>) {
    forall i :: 0 <= i < |texts| ==> Fits(f, [texts[i]])
  }

  lemma {:induction false} PartOfBytes(f: LineBytes, texts: seq<seq<byte>>, i: nat)
    requires i < |texts|
    ensures TextBytes(f, [texts[i]]) <= TextBytes(f, texts)
  {
    if i < |texts| - 1 { PartOfBytes(f, texts[..|texts| - 1], i); }
    var none: seq<seq<byte>> := [];
    assert [texts[i]][..0] == none;
    assert TextBytes(f, [texts[i]]) == f(texts[i]);
  }

  lemma {:induction false} TakenFit(q: Query, texts: seq<seq<byte>>, got: seq<seq<byte>>)
    requires got == [] || Fits(q.lineBytes, got)
    ensures var page := got + texts[..TakeCount(q, texts, got)]; page == [] || Fits(q.lineBytes, page)
    decreases |texts|
  {
    hide Fits;
    if texts == [] || Refused(q, got, texts[0]) {
      assert got + texts[..0] == got;
    } else {
      TakenFit(q, texts[1..], got + [texts[0]]);
      var t := TakeCount(q, texts[1..], got + [texts[0]]);
      assert got + texts[..t + 1] == got + [texts[0]] + texts[1..][..t];
    }
  }

  lemma TakenFitAlone(q: Query, texts: seq<seq<byte>>)
    ensures FitsAlone(q.lineBytes, texts[..TakeCount(q, texts, [])])
  {
    var page := texts[..TakeCount(q, texts, [])];
    TakenFit(q, texts, []);
    assert [] + page == page;
    forall i | 0 <= i < |page| ensures Fits(q.lineBytes, [page[i]]) { PartOfBytes(q.lineBytes, page, i); }
  }

  function At(q: Query, start: nat): Query {
    q.(start := start)
  }

  lemma {:induction false} CountAt(q: Query, start: nat, texts: seq<seq<byte>>, got: seq<seq<byte>>)
    ensures TakeCount(At(q, start), texts, got) == TakeCount(q, texts, got)
    decreases |texts|
  {
    hide Fits;
    if texts != [] && !Refused(q, got, texts[0]) { CountAt(q, start, texts[1..], got + [texts[0]]); }
  }

  /** The lines a client sees that follows the cursor until it is absent or a page has no lines. */
  ghost function Followed(q: Query, lines: seq<seq<byte>>): seq<seq<byte>>
    requires q.start >= 1
    decreases |lines| + 1 - q.start
  {
    PageIsRun(q, lines);
    NextIsLater(q, lines);
    var page := PageOf(q, lines);
    if page.next.None? || page.lines == [] then page.lines else page.lines + Followed(At(q, page.next.value), lines)
  }

  lemma {:induction false} NumbersIncrease(total: nat, ranges: Ranges, lo: nat, i: nat, j: nat)
    requires i < j < |NumbersFrom(total, ranges, lo)|
    ensures NumbersFrom(total, ranges, lo)[i] < NumbersFrom(total, ranges, lo)[j]
    decreases total + 1 - lo
  {
    hide InRanges;
    var ns, rest := NumbersFrom(total, ranges, lo), NumbersFrom(total, ranges, lo + 1);
    if InRanges(lo, ranges) {
      assert ns == [lo] + rest;
      if i > 0 { NumbersIncrease(total, ranges, lo + 1, i - 1, j - 1); }
    } else {
      assert ns == rest;
      NumbersIncrease(total, ranges, lo + 1, i, j);
    }
  }

  lemma NextIsLater(q: Query, lines: seq<seq<byte>>)
    requires q.start >= 1
    ensures
      var page := PageOf(q, lines);
      page.next.Some? && page.lines != [] ==> q.start < page.next.value <= |lines|
  {
    PageIsRun(q, lines);
    var ns := NumbersFrom(|lines|, q.ranges, q.start);
    var t := TakeCount(q, TextsAt(lines, ns), []);
    if 0 < t < |ns| { NumbersIncrease(|lines|, q.ranges, q.start, 0, t); }
  }

  lemma {:induction false} TextsSuffix(lines: seq<seq<byte>>, ns: seq<nat>, t: nat)
    requires t <= |ns| && forall i :: 0 <= i < |ns| ==> 1 <= ns[i] <= |lines|
    ensures TextsAt(lines, ns[t..]) == TextsAt(lines, ns)[t..]
    decreases |ns|
  {
    if t > 0 {
      TextsSuffix(lines, ns[1..], t - 1);
      assert ns[1..][t - 1..] == ns[t..];
    }
  }

  lemma FitsAloneSplit(f: LineBytes, texts: seq<seq<byte>>, t: nat)
    requires t <= |texts|
    ensures FitsAlone(f, texts) <==> FitsAlone(f, texts[..t]) && FitsAlone(f, texts[t..])
  {
    hide Fits;
    if FitsAlone(f, texts[..t]) && FitsAlone(f, texts[t..]) {
      forall i | 0 <= i < |texts| ensures Fits(f, [texts[i]]) {
        assert texts[i] == if i < t then texts[..t][i] else texts[t..][i - t];
      }
    }
  }

  /** Following the cursor gives every selected line exactly once and in order exactly when each of them fits the
      budget alone. */
  lemma {:induction false} FollowedIsAll(q: Query, lines: seq<seq<byte>>)
    requires q.start >= 1 && (q.limit.Some? ==> q.limit.value >= 1)
    ensures
      var texts := TextsAt(lines, NumbersFrom(|lines|, q.ranges, q.start));
      (Followed(q, lines) == texts <==> FitsAlone(q.lineBytes, texts)) && Followed(q, lines) <= texts
    decreases |lines| + 1 - q.start
  {
    hide Fits, InRanges, PageOf, FitsAlone, NumbersFrom, TakeCount, TextsAt;
    var ns := NumbersFrom(|lines|, q.ranges, q.start);
    var texts := TextsAt(lines, ns);
    var t := TakeCount(q, texts, []);
    PageIsRun(q, lines);
    assert |texts| == |ns|;
    NextIsLater(q, lines);
    TakenFitAlone(q, texts);
    FitsAloneSplit(q.lineBytes, texts, t);
    assert texts == texts[..t] + texts[t..];
    if 0 < t < |ns| {
      FollowedIsAll(At(q, ns[t]), lines);
      NumbersSuffix(|lines|, q.ranges, q.start, t);
      TextsSuffix(lines, ns, t);
    } else if t < |ns| {
      FirstRefused(q, texts);
    } else {
      NothingLeft(q.lineBytes, texts);
    }
  }

  lemma FirstRefused(q: Query, texts: seq<seq<byte>>)
    requires texts != [] && TakeCount(q, texts, []) == 0 && (q.limit.Some? ==> q.limit.value >= 1)
    ensures !FitsAlone(q.lineBytes, texts)
  {
    assert [] + [texts[0]] == [texts[0]];
  }

  lemma NothingLeft(f: LineBytes, texts: seq<seq<byte>>)
    ensures texts[|texts|..] == [] && FitsAlone(f, texts[|texts|..])
  {
  }

  // ---------------------------------------------------------------- line numbers

  datatype Numbered = Numbered(line: nat, text: seq<byte>)

  /** `lineNumbers`: for the lines of a page it ends, and gives each the number it has in the file. */
  method LineNumbers(lines: seq<seq<byte>>, startLine: nat, ranges: Ranges, ghost total: nat)
    returns (output: seq<Numbered>)
    requires |lines| <= |NumbersFrom(total, ranges, startLine)|
    ensures |output| == |lines|
    ensures forall i :: 0 <= i < |lines| ==> output[i] == Numbered(NumbersFrom(total, ranges, startLine)[i], lines[i])
  {
    hide InRanges, NumbersFrom;
    ghost var ns := NumbersFrom(total, ranges, startLine);
    output := [];
    var current := startLine;
    var i := 0;
    while i < |lines|
      invariant 0 <= i <= |lines| == |lines| && |output| == i
      invariant NumbersFrom(total, ranges, current) == ns[i..]
      invariant forall j :: 0 <= j < i ==> output[j] == Numbered(ns[j], lines[j])
    {
      while !InRanges(current, ranges)
        invariant NumbersFrom(total, ranges, current) == ns[i..]
        decreases total + 1 - current
      {
        SomeLeft(total, ranges, current);
        NextNumber(total, ranges, current);
        current := current + 1;
      }
      HeadNumber(total, ranges, current);
      output := output + [Numbered(current, lines[i])];
      assert ns[i..][0] == ns[i] && ns[i..][1..] == ns[i + 1..];
      current := current + 1;
      i := i + 1;
    }
  }

  lemma SomeLeft(total: nat, ranges: Ranges, lo: nat)
    ensures NumbersFrom(total, ranges, lo) != [] ==> lo <= total
  {
  }

  lemma HeadNumber(total: nat, ranges: Ranges, lo: nat)
    requires InRanges(lo, ranges) && NumbersFrom(total, ranges, lo) != []
    ensures NumbersFrom(total, ranges, lo)[0] == lo
    ensures NumbersFrom(total, ranges, lo)[1..] == NumbersFrom(total, ranges, lo + 1)
  {
  }

  /** The smallest range start, with which the sorted ranges begin. */
  function MinStart(ranges: seq<Range>): (start: nat)
    requires ranges != []
    ensures forall i :: 0 <= i < |ranges| ==> start <= ranges[i].start
    ensures exists i :: 0 <= i < |ranges| && ranges[i].start == start
  {
    if |ranges| == 1 then ranges[0].start
    else
      var rest := MinStart(ranges[1..]);
      assert forall i :: 0 < i < |ranges| ==> ranges[i] == ranges[1..][i - 1];
      if ranges[0].start <= rest then ranges[0].start else rest
  }

  /** Where the page starts, and how many lines it may have. */
  function QueryOf(cursor: Option<nat>, offset: Option<nat>, limit: Option<nat>, ranges: Ranges,
                   lineBytes: LineBytes): Query {
    var start :=
      if cursor.Some? then cursor.value
      else if ranges.Some? && |ranges.value| > 0 then MinStart(ranges.value)
      else if offset.Some? then offset.value
      else 1;
    Query(start, ranges, if ranges.Some? then None else if limit.Some? then limit else Some(200), lineBytes)
  }

  /** The cursor decides where the page starts; without one the first of the ranges, the offset, or line 1. Only a page
      without ranges has a limit, 200 unless another is given. */
  lemma QueryMeans(cursor: Option<nat>, offset: Option<nat>, limit: Option<nat>, ranges: Ranges, lineBytes: LineBytes)
    ensures
      var q := QueryOf(cursor, offset, limit, ranges, lineBytes);
      var byRange := ranges.Some? && ranges.value != [];
      q.ranges == ranges && q.lineBytes == lineBytes && (cursor.Some? ==> q.start == cursor.value) &&
      (cursor.None? && byRange ==>
         (exists r :: r in ranges.value && r.start == q.start) &&
         forall r :: r in ranges.value ==> q.start <= r.start) &&
      (cursor.None? && !byRange && offset.Some? ==> q.start == offset.value) &&
      (cursor.None? && !byRange && offset.None? ==> q.start == 1) &&
      (ranges.Some? ==> q.limit.None?) && (ranges.None? && limit.Some? ==> q.limit == limit) &&
      (ranges.None? && limit.None? ==> q.limit == Some(200))
  {
  }

  /** The numbers of a page's lines: those from its start on that lie in a range, both ends of it included. */
  lemma {:induction false} NumbersExactly(total: nat, ranges: Ranges, lo: nat, n: nat)
    ensures n in NumbersFrom(total, ranges, lo) <==>
      lo <= n <= total && (ranges.None? || exists r :: r in ranges.value && r.start <= n && n <= r.end)
    decreases total + 1 - lo
  {
    assert InRanges(n, ranges) <==> ranges.None? || exists r :: r in ranges.value && r.start <= n && n <= r.end by {
      RangesMean(n, ranges);
    }
    hide InRanges;
    if lo <= total { NumbersExactly(total, ranges, lo + 1, n); }
  }

  lemma RangesMean(n: nat, ranges: Ranges)
    ensures InRanges(n, ranges) <==> ranges.None? || exists r :: r in ranges.value && r.start <= n && n <= r.end
  {
    if ranges.Some? {
      if r :| r in ranges.value && r.start <= n && n <= r.end {
        var i :| 0 <= i < |ranges.value| && ranges.value[i] == r;
      }
    }
  }

  predicate Reversed(ranges: seq<Range>) {
    exists i :: 0 <= i < |ranges| && ranges[i].end < ranges[i].start
  }

  /** Reading an artifact: the ranges must not be reversed; the page starts at the cursor, the first range, the
      offset or line 1. */
  method ReadLines(chunks: seq<seq<byte>>, cursor: Option<nat>, offset: Option<nat>, limit: Option<nat>,
                   ranges: Ranges, lineBytes: LineBytes)
    returns (r: Option<(seq<Numbered>, Option<nat>)>)
    requires (cursor.Some? ==> cursor.value >= 1) && (offset.Some? ==> offset.value >= 1)
    requires limit.Some? ==> limit.value >= 1
    requires ranges.Some? ==> forall i :: 0 <= i < |ranges.value| ==> ranges.value[i].start >= 1
    ensures r.None? <==> ranges.Some? && (offset.Some? || limit.Some? || Reversed(ranges.value))
    ensures r.Some? ==>
      var lines := Lines(Concat(chunks));
      var q := QueryOf(cursor, offset, limit, ranges, lineBytes);
      var ns := NumbersFrom(|lines|, ranges, q.start);
      r.value.1 == PageOf(q, lines).next && |r.value.0| == |PageOf(q, lines).lines| <= |ns| &&
      forall i :: 0 <= i < |r.value.0| ==> r.value.0[i] == Numbered(ns[i], lines[ns[i] - 1])
  {
    hide InRanges, NumbersFrom, PageOf, Lines, Fits, TakeCount, TextsAt;
    if ranges.Some? && (offset.Some? || limit.Some?) { return None; }
    if ranges.Some? && Reversed(ranges.value) { return None; }
    var q := QueryOf(cursor, offset, limit, ranges, lineBytes);
    var page := StreamLines(chunks, q);
    ghost var lines := Lines(Concat(chunks));
    PageIsRun(q, lines);
    ghost var ns := NumbersFrom(|lines|, ranges, q.start);
    TextsAre(lines, ns);
    assert page.lines == TextsAt(lines, ns)[..|page.lines|];
    var numbered := LineNumbers(page.lines, q.start, ranges, |lines|);
    return Some((numbered, page.next));
  }

  /** A file of one line that is longer than the budget: every page is empty and its cursor is line 1 again. */
  lemma LongLineNeverComes(line: seq<byte>, lineBytes: LineBytes)
    requires NEWLINE !in line && |line| > MAX_TEXT_RESPONSE_BYTES && lineBytes(line) >= |line|
    ensures Lines(line) == [line]
    ensures
      var q := Query(1, None, None, lineBytes);
      PageOf(q, Lines(line)) == Page([], Some(1)) && Followed(q, Lines(line)) == []
  {
    OneLine(line);
    var q := Query(1, None, None, lineBytes);
    var none: seq<seq<byte>> := [];
    assert none + [line] == [line] && [line][..0] == none;
    assert Refused(q, none, line);
    assert AcceptAll(q, NOTHING_READ, [line]) == AcceptAll(q, Accept(q, NOTHING_READ, line), [line][1..]);
  }
}
