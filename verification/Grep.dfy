/** Line-by-line search: `scan_buffer`, `scan_stream` and `GrepAccumulator` of agent/src/file_ops.rs. */
module Grep {
  import opened Prelude
  import opened Bytes
  import opened Text

  const MAX_SEARCH_RESPONSE_BYTES: nat := 1_500_000
  const CARRIAGE_RETURN: byte := 13

  datatype GrepMatch = GrepMatch(
    path: seq<byte>,
    line: nat,
    text: seq<byte>,
    contextBefore: Option<seq<seq<byte>>>,
    contextAfter: Option<seq<seq<byte>>>)

  /** One call of `add`. */
  datatype Hit = Hit(path: seq<byte>, offset: nat, value: GrepMatch)

  datatype Cursor = Cursor(path: seq<byte>, offset: nat)

  // ---------------------------------------------------------------- the accumulator

  datatype Page = Page(
    limit: nat,
    cursor: Option<Cursor>,
    responseBytes: (seq<GrepMatch>, nat) -> nat,
    matches: seq<GrepMatch>,
    totalMatches: nat,
    truncated: bool,
    lastSaved: Option<Cursor>)

  predicate NotAfter(hit: Hit, cursor: Cursor) {
    Before(hit.path, cursor.path) || (hit.path == cursor.path && hit.offset <= cursor.offset)
  }

  predicate Skipped(page: Page, hit: Hit) {
    page.cursor.Some? && NotAfter(hit, page.cursor.value)
  }

  predicate Saves(page: Page, hit: Hit) {
    !Skipped(page, hit) && |page.matches| < page.limit &&
    page.responseBytes(page.matches + [hit.value], page.totalMatches + 1) <= MAX_SEARCH_RESPONSE_BYTES
  }

  function AddTo(page: Page, hit: Hit): Page {
    var counted := page.(totalMatches := page.totalMatches + 1);
    if Skipped(page, hit) then counted
    else if Saves(page, hit) then
      counted.(matches := page.matches + [hit.value], lastSaved := Some(Cursor(hit.path, hit.offset)))
    else counted.(truncated := true)
  }

  function AddAll(page: Page, hits: seq<Hit>): Page {
    if hits == [] then page else AddTo(AddAll(page, hits[..|hits| - 1]), hits[|hits| - 1])
  }

  lemma AddAllNext(page: Page, hits: seq<Hit>, hit: Hit)
    ensures AddAll(page, hits + [hit]) == AddTo(AddAll(page, hits), hit)
  {
    assert (hits + [hit])[..|hits|] == hits;
  }

  function EmptyPage(limit: nat, cursor: Option<Cursor>, responseBytes: (seq<GrepMatch>, nat) -> nat): Page {
    Page(limit, cursor, responseBytes, [], 0, false, None)
  }

  class GrepAccumulator {
    const limit: nat
    const cursor: Option<Cursor>
    const responseBytes: (seq<GrepMatch>, nat) -> nat
    var matches: seq<GrepMatch>
    var totalMatches: nat
    var truncated: bool
    var lastSaved: Option<Cursor>

    /** Every call of `Add`, in order. */
    ghost var calls: seq<Hit>

    constructor (limit: nat, cursor: Option<Cursor>, responseBytes: (seq<GrepMatch>, nat) -> nat)
      ensures Valid() && calls == [] && this.limit == limit && this.cursor == cursor
      ensures this.responseBytes == responseBytes
    {
      this.limit, this.cursor, this.responseBytes := limit, cursor, responseBytes;
      matches, totalMatches, truncated, lastSaved, calls := [], 0, false, None, [];
    }

    ghost function View(): Page
      reads this
    {
      Page(limit, cursor, responseBytes, matches, totalMatches, truncated, lastSaved)
    }

    /** The fields are what the calls so far make of an empty page. */
    ghost predicate Valid()
      reads this
    {
      View() == AddAll(EmptyPage(limit, cursor, responseBytes), calls)
    }

    /** The page that the calls have made. */
    lemma Show()
      requires Valid()
      ensures AddAll(EmptyPage(limit, cursor, responseBytes), calls) ==
        Page(limit, cursor, responseBytes, matches, totalMatches, truncated, lastSaved)
    {
    }

    method Add(path: seq<byte>, offset: nat, value: GrepMatch)
      requires Valid()
      modifies this
      ensures Valid() && calls == old(calls) + [Hit(path, offset, value)]
    {
      hide AddAll, Before;
      AddAllNext(EmptyPage(limit, cursor, responseBytes), calls, Hit(path, offset, value));
      calls := calls + [Hit(path, offset, value)];
      totalMatches := totalMatches + 1;
      if cursor.Some? && (Before(path, cursor.value.path) ||
                          (path == cursor.value.path && offset <= cursor.value.offset)) {
        return;
      }
      if |matches| >= limit {
        truncated := true;
        return;
      }
      var candidate := matches + [value];
      if responseBytes(candidate, totalMatches) > MAX_SEARCH_RESPONSE_BYTES {
        truncated := true;
        return;
      }
      matches := candidate;
      lastSaved := Some(Cursor(path, offset));
    }
  }

  // ---------------------------------------------------------------- what a scan reports

  /** `trim_line_ending`. */
  function Trim(line: seq<byte>): seq<byte> {
    var open := if Ended(line) then line[..|line| - 1] else line;
    if open != [] && open[|open| - 1] == CARRIAGE_RETURN then open[..|open| - 1] else open
  }

  /** What a line ending is: a newline, a carriage return and a newline, or a carriage return at the end of the file. */
  lemma TrimMeans(x: seq<byte>)
    ensures Trim(x + [13, 10]) == x
    ensures x == [] || x[|x| - 1] != 13 ==> Trim(x + [10]) == x
    ensures x == [] || (x[|x| - 1] != 10 && x[|x| - 1] != 13) ==> Trim(x) == x
    ensures x == [] || x[|x| - 1] != 10 ==> Trim(x + [13]) == x
  {
    assert (x + [13, 10])[..|x| + 1] == x + [13] && (x + [13])[..|x|] == x && (x + [10])[..|x|] == x;
  }

  /** A file, the pattern as a predicate on one line, and the numbers of context lines. */
  datatype Search = Search(path: seq<byte>, lines: seq<seq<byte>>, isMatch: seq<byte> -> bool, before: nat, after: nat)

  /** The lines from `lo` up to `hi` without their endings. */
  function Texts(s: Search, lo: nat, hi: nat): (texts: seq<seq<byte>>)
    requires lo <= hi <= |s.lines|
    ensures |texts| == hi - lo && forall i :: 0 <= i < hi - lo ==> texts[i] == Trim(s.lines[lo + i])
    decreases hi
  {
    if lo == hi then [] else Texts(s, lo, hi - 1) + [Trim(s.lines[hi - 1])]
  }

  /** The report of a matching line: its number, its byte offset, and the lines around it. */
  function HitAt(s: Search, k: nat): Hit
    requires k < |s.lines|
  {
    var before := if s.before > 0 then Some(Texts(s, Less(k, s.before), k)) else None;
    var after := if s.after > 0 then Some(Texts(s, k + 1, Min(k + 1 + s.after, |s.lines|))) else None;
    Hit(s.path, Offset(s.lines, k), GrepMatch(s.path, k + 1, Trim(s.lines[k]), before, after))
  }

  predicate Matched(s: Search, k: nat)
    requires k < |s.lines|
  {
    s.isMatch(Trim(s.lines[k]))
  }

  /** The matching lines from `lo` up to `hi`, in order. */
  function MatchedIn(s: Search, lo: nat, hi: nat): (ks: seq<nat>)
    requires hi <= |s.lines|
    ensures forall j :: 0 <= j < |ks| ==> lo <= ks[j] < hi && Matched(s, ks[j])
    decreases hi
  {
    if lo >= hi then [] else MatchedIn(s, lo, hi - 1) + (if Matched(s, hi - 1) then [hi - 1] else [])
  }

  function Hits(s: Search, ks: seq<nat>): (hits: seq<Hit>)
    requires forall j :: 0 <= j < |ks| ==> ks[j] < |s.lines|
    ensures |hits| == |ks| && forall j :: 0 <= j < |ks| ==> hits[j] == HitAt(s, ks[j])
  {
    if ks == [] then [] else Hits(s, ks[..|ks| - 1]) + [HitAt(s, ks[|ks| - 1])]
  }

  /** Every report of a file, in line order. */
  function AllHits(s: Search): seq<Hit> {
    Hits(s, MatchedIn(s, 0, |s.lines|))
  }

  // ---------------------------------------------------------------- random access

  datatype TextLine = TextLine(offset: nat, text: seq<byte>)

  predicate LinesAt(s: Search, lines: seq<TextLine>) {
    |lines| == |s.lines| && forall k :: 0 <= k < |lines| ==> lines[k] == TextLine(Offset(s.lines, k), Trim(s.lines[k]))
  }

  method LineOffsets(s: Search) returns (lines: seq<TextLine>)
    ensures LinesAt(s, lines)
  {
    hide Trim, Flat;
    lines := [];
    var offset := 0;
    var k := 0;
    assert s.lines[..0] == [] && Offset(s.lines, 0) == 0 by { NoBytesYet(s.lines); }
    while k < |s.lines|
      invariant 0 <= k <= |s.lines| == |s.lines| && |lines| == k && offset == Offset(s.lines, k)
      invariant forall j :: 0 <= j < k ==> lines[j] == TextLine(Offset(s.lines, j), Trim(s.lines[j]))
    {
      lines := lines + [TextLine(offset, Trim(s.lines[k]))];
      FlatNext(s.lines, k);
      offset := offset + |s.lines[k]|;
      k := k + 1;
    }
  }

  lemma NoBytesYet(lines: seq<seq<byte>>)
    ensures Offset(lines, 0) == 0
  {
  }

  /** The texts of a slice of lines. */
  function TextsOf(lines: seq<TextLine>): (texts: seq<seq<byte>>)
    ensures |texts| == |lines| && forall i :: 0 <= i < |lines| ==> texts[i] == lines[i].text
  {
    if lines == [] then [] else TextsOf(lines[..|lines| - 1]) + [lines[|lines| - 1].text]
  }

  method MatchedLines(s: Search, lines: seq<TextLine>) returns (matched: seq<nat>)
    requires LinesAt(s, lines)
    ensures matched == MatchedIn(s, 0, |s.lines|)
  {
    matched := [];
    var i := 0;
    while i < |lines|
      invariant 0 <= i <= |lines| && matched == MatchedIn(s, 0, i)
    {
      if s.isMatch(lines[i].text) { matched := matched + [i]; }
      i := i + 1;
    }
  }

  /** `scan_buffer` without patterns that span lines. */
  method ScanBuffer(s: Search, accumulator: GrepAccumulator)
    requires accumulator.Valid()
    modifies accumulator
    ensures accumulator.Valid() && accumulator.calls == old(accumulator.calls) + AllHits(s)
  {
    hide LinesAt, HitAt, MatchedIn, Hits, Reported, GrepAccumulator.Valid;
    ghost var start := accumulator.calls;
    var lines := LineOffsets(s);
    assert |lines| == |s.lines| by { SameLength(s, lines); }
    var matched := MatchedLines(s, lines);
    var m := 0;
    NothingReported(s, start);
    assert matched[..0] == [];
    while m < |matched|
      invariant 0 <= m <= |matched| && accumulator.Valid() && Reported(s, accumulator.calls, start, matched[..m])
    {
      var k := matched[m];
      var contextBefore := if s.before > 0 then Some(TextsOf(lines[Less(k, s.before)..k])) else None;
      var contextAfter := if s.after > 0 then Some(TextsOf(lines[k + 1..Min(k + 1 + s.after, |lines|)])) else None;
      BufferHit(s, lines, k);
      Report(s, start, matched[..m], k, lines[k].offset,
             GrepMatch(s.path, k + 1, lines[k].text, contextBefore, contextAfter), accumulator);
      assert matched[..m + 1] == matched[..m] + [k];
      m := m + 1;
    }
    assert matched[..|matched|] == matched;
    AllReported(s, accumulator.calls, start);
  }

  lemma AllReported(s: Search, calls: seq<Hit>, start: seq<Hit>)
    requires Reported(s, calls, start, MatchedIn(s, 0, |s.lines|))
    ensures calls == start + AllHits(s)
  {
  }

  lemma SameLength(s: Search, lines: seq<TextLine>)
    requires LinesAt(s, lines)
    ensures |lines| == |s.lines|
  {
  }

  lemma BufferHit(s: Search, lines: seq<TextLine>, k: nat)
    requires LinesAt(s, lines) && k < |lines|
    ensures
      var before := if s.before > 0 then Some(TextsOf(lines[Less(k, s.before)..k])) else None;
      var after := if s.after > 0 then Some(TextsOf(lines[k + 1..Min(k + 1 + s.after, |lines|)])) else None;
      HitAt(s, k) == Hit(s.path, lines[k].offset, GrepMatch(s.path, k + 1, lines[k].text, before, after))
  {
    hide Trim, Offset;
    assert TextsOf(lines[Less(k, s.before)..k]) == Texts(s, Less(k, s.before), k);
    assert TextsOf(lines[k + 1..Min(k + 1 + s.after, |lines|)]) == Texts(s, k + 1, Min(k + 1 + s.after, |lines|));
  }

  lemma OneMoreHit(s: Search, ks: seq<nat>, k: nat)
    requires k < |s.lines| && forall j :: 0 <= j < |ks| ==> ks[j] < |s.lines|
    ensures Hits(s, ks + [k]) == Hits(s, ks) + [HitAt(s, k)]
  {
    hide HitAt;
    assert (ks + [k])[..|ks|] == ks;
  }

  /** The accumulator has been given exactly these hits since `start`. */
  ghost predicate Reported(s: Search, calls: seq<Hit>, start: seq<Hit>, ks: seq<nat>) {
    (forall j :: 0 <= j < |ks| ==> ks[j] < |s.lines|) && calls == start + Hits(s, ks)
  }

  lemma NothingReported(s: Search, start: seq<Hit>)
    ensures Reported(s, start, start, [])
  {
  }

  method Report(s: Search, ghost start: seq<Hit>, ghost done: seq<nat>, ghost k: nat, offset: nat, value: GrepMatch,
                accumulator: GrepAccumulator)
    requires k < |s.lines| && Hit(s.path, offset, value) == HitAt(s, k)
    requires accumulator.Valid() && Reported(s, accumulator.calls, start, done)
    modifies accumulator
    ensures accumulator.Valid() && Reported(s, accumulator.calls, start, done + [k])
  {
    hide Hits, HitAt, GrepAccumulator.Valid;
    accumulator.Add(s.path, offset, value);
    OneMoreHit(s, done, k);
  }

  // ---------------------------------------------------------------- streaming

  datatype Pending = Pending(offset: nat, value: GrepMatch, remaining: nat)

  /** A match whose following lines up to line `i` have been read. */
  function PendingAt(s: Search, k: nat, i: nat): Pending
    requires k < i <= |s.lines| && i <= k + 1 + s.after
  {
    var hit := HitAt(s, k);
    Pending(hit.offset, hit.value.(contextAfter := Some(Texts(s, k + 1, i))), k + 1 + s.after - i)
  }

  /** The queue holds the matches of the last `after` lines. */
  predicate QueueOk(s: Search, pending: seq<Pending>, ks: seq<nat>, i: nat)
    requires i <= |s.lines|
  {
    |pending| == |ks| &&
    forall j :: 0 <= j < |ks| ==> ks[j] < i && i <= ks[j] + 1 + s.after && pending[j] == PendingAt(s, ks[j], i)
  }

  lemma {:induction false} MatchedSplit(s: Search, lo: nat, mid: nat, hi: nat)
    requires lo <= mid <= hi <= |s.lines|
    ensures MatchedIn(s, lo, hi) == MatchedIn(s, lo, mid) + MatchedIn(s, mid, hi)
    decreases hi
  {
    if mid < hi { MatchedSplit(s, lo, mid, hi - 1); }
  }

  /** The line just read goes to every waiting match. */
  method Feed(s: Search, pending: seq<Pending>, ghost ks: seq<nat>, ghost i: nat, text: seq<byte>)
    returns (fed: seq<Pending>)
    requires i < |s.lines| && QueueOk(s, pending, ks, i) && text == Trim(s.lines[i])
    requires forall j :: 0 <= j < |ks| ==> ks[j] + s.after >= i
    ensures QueueOk(s, fed, ks, i + 1)
  {
    hide Trim, HitAt;
    fed := [];
    var j := 0;
    while j < |pending|
      invariant 0 <= j <= |pending| == |ks| && |fed| == j
      invariant forall m :: 0 <= m < j ==> fed[m] == PendingAt(s, ks[m], i + 1)
    {
      var p := pending[j];
      if p.remaining > 0 {
        var context := if p.value.contextAfter.Some? then p.value.contextAfter.value else [];
        p := Pending(p.offset, p.value.(contextAfter := Some(context + [text])), p.remaining - 1);
      }
      fed := fed + [p];
      j := j + 1;
    }
  }

  /** The waiting matches are complete when the line after their last context line is due. */
  lemma ReadySplit(s: Search, ks: seq<nat>, i: nat, d: nat)
    requires s.after > 0 && i < |s.lines| && ks == MatchedIn(s, Less(i, s.after), i) && d <= |ks|
    requires forall j :: 0 <= j < d ==> ks[j] + s.after == i
    requires d < |ks| ==> ks[d] + s.after > i
    ensures MatchedIn(s, 0, Less(i, s.after)) + ks[..d] == MatchedIn(s, 0, Less(i + 1, s.after))
    ensures ks[d..] == MatchedIn(s, Less(i + 1, s.after), i)
  {
    var lo, mid := Less(i, s.after), Less(i + 1, s.after);
    MatchedSplit(s, lo, mid, i);
    MatchedSplit(s, 0, lo, mid);
    var x, y := MatchedIn(s, lo, mid), MatchedIn(s, mid, i);
    assert ks == x + y;
    assert forall j :: 0 <= j < |x| ==> ks[j] == x[j];
    assert |x| < |ks| ==> ks[|x|] == y[0];
    hide MatchedIn;
  }

  lemma PendingIsHit(s: Search, k: nat, i: nat)
    requires k < i <= |s.lines| && i <= k + 1 + s.after && s.after > 0 && (i == k + 1 + s.after || i == |s.lines|)
    ensures PendingAt(s, k, i).offset == HitAt(s, k).offset && PendingAt(s, k, i).value == HitAt(s, k).value
    ensures HitAt(s, k).path == s.path
  {
  }

  lemma SameQueue(s: Search, pending: seq<Pending>, ks: seq<nat>, i: nat)
    requires i <= |s.lines| && QueueOk(s, pending, ks, i)
    ensures |pending| == |ks|
  {
  }

  lemma StillWaiting(s: Search, pending: seq<Pending>, ks: seq<nat>, i: nat)
    requires i <= |s.lines| && QueueOk(s, pending, ks, i)
    ensures |pending| == |ks| && (ks != [] && pending[0].remaining > 0 ==> ks[0] + s.after + 1 > i)
  {
  }

  lemma QueueFront(s: Search, pending: seq<Pending>, ks: seq<nat>, i: nat)
    requires i <= |s.lines| && QueueOk(s, pending, ks, i) && pending != [] && s.after > 0
    requires pending[0].remaining == 0 || i == |s.lines|
    ensures |pending| == |ks| && ks[0] < |s.lines|
    ensures Hit(s.path, pending[0].offset, pending[0].value) == HitAt(s, ks[0])
    ensures pending[0].remaining == 0 ==> ks[0] + s.after + 1 == i
    ensures QueueOk(s, pending[1..], ks[1..], i) && |pending[1..]| == |ks[1..]|
  {
    PendingIsHit(s, ks[0], i);
  }

  /** Reports the complete matches at the front of the queue. */
  method PopReady(s: Search, queue: seq<Pending>, ghost ks: seq<nat>, ghost i: nat, ghost done: seq<nat>,
                  ghost start: seq<Hit>,
                  accumulator: GrepAccumulator) returns (pending: seq<Pending>)
    requires s.after > 0 && i < |s.lines| && ks == MatchedIn(s, Less(i, s.after), i) && QueueOk(s, queue, ks, i + 1)
    requires done == MatchedIn(s, 0, Less(i, s.after)) && accumulator.Valid()
    requires Reported(s, accumulator.calls, start, done)
    modifies accumulator
    ensures QueueOk(s, pending, MatchedIn(s, Less(i + 1, s.after), i), i + 1)
    ensures accumulator.Valid() && Reported(s, accumulator.calls, start, MatchedIn(s, 0, Less(i + 1, s.after)))
  {
    hide Hits, MatchedIn, HitAt, PendingAt, Reported, QueueOk, GrepAccumulator.Valid;
    pending := queue;
    SameQueue(s, pending, ks, i + 1);
    ghost var d := 0;
    assert done + ks[..0] == done && ks[0..] == ks;
    while |pending| > 0 && pending[0].remaining == 0
      invariant 0 <= d <= |ks| && QueueOk(s, pending, ks[d..], i + 1) && |pending| == |ks| - d
      invariant forall j :: 0 <= j < d ==> ks[j] + s.after == i
      invariant accumulator.Valid() && Reported(s, accumulator.calls, start, done + ks[..d])
      decreases |pending|
    {
      assert ks[d..][0] == ks[d] && ks[d..][1..] == ks[d + 1..];
      QueueFront(s, pending, ks[d..], i + 1);
      Report(s, start, done + ks[..d], ks[d], pending[0].offset, pending[0].value, accumulator);
      assert done + ks[..d] + [ks[d]] == done + ks[..d + 1];
      pending := pending[1..];
      d := d + 1;
    }
    StillWaiting(s, pending, ks[d..], i + 1);
    assert d < |ks| ==> ks[d..][0] == ks[d];
    ReadySplit(s, ks, i, d);
  }

  /** At the end of the file the waiting matches are reported with the lines there are. */
  method Flush(s: Search, queue: seq<Pending>, ghost ks: seq<nat>, ghost done: seq<nat>, ghost start: seq<Hit>,
               accumulator: GrepAccumulator)
    requires QueueOk(s, queue, ks, |s.lines|) && (s.after == 0 ==> ks == [])
    requires accumulator.Valid() && Reported(s, accumulator.calls, start, done)
    modifies accumulator
    ensures accumulator.Valid() && Reported(s, accumulator.calls, start, done + ks)
  {
    hide Hits, HitAt, PendingAt, Reported, QueueOk, GrepAccumulator.Valid;
    var pending := queue;
    SameQueue(s, pending, ks, |s.lines|);
    ghost var d := 0;
    assert done + ks[..0] == done && ks[0..] == ks;
    while |pending| > 0
      invariant 0 <= d <= |ks| && QueueOk(s, pending, ks[d..], |s.lines|) && |pending| == |ks| - d
      invariant accumulator.Valid() && Reported(s, accumulator.calls, start, done + ks[..d])
      decreases |pending|
    {
      assert ks[d..][0] == ks[d] && ks[d..][1..] == ks[d + 1..];
      QueueFront(s, pending, ks[d..], |s.lines|);
      Report(s, start, done + ks[..d], ks[d], pending[0].offset, pending[0].value, accumulator);
      assert done + ks[..d] + [ks[d]] == done + ks[..d + 1];
      pending := pending[1..];
      d := d + 1;
    }
    assert ks[..|ks|] == ks;
  }

  /** The last `before` lines. */
  method Remember(s: Search, kept: seq<seq<byte>>, ghost i: nat, text: seq<byte>) returns (before: seq<seq<byte>>)
    requires i < |s.lines| && kept == Texts(s, Less(i, s.before), i) && text == Trim(s.lines[i])
    ensures before == Texts(s, Less(i + 1, s.before), i + 1)
  {
    hide Trim;
    before := kept + [text];
    ghost var lo: nat := Less(i, s.before);
    while |before| > s.before
      invariant lo <= i + 1 && before == Texts(s, lo, i + 1) && Less(i, s.before) <= lo <= Less(i + 1, s.before)
      decreases |before|
    {
      before := before[1..];
      lo := lo + 1;
    }
  }

  /** The queue after a match on line `i`. */
  lemma Enqueued(s: Search, pending: seq<Pending>, i: nat, value: GrepMatch)
    requires s.after > 0 && i < |s.lines| && QueueOk(s, pending, MatchedIn(s, Less(i + 1, s.after), i), i + 1)
    requires Matched(s, i)
    requires value == HitAt(s, i).value.(contextAfter := Some([]))
    ensures QueueOk(s, pending + [Pending(Offset(s.lines, i), value, s.after)],
                    MatchedIn(s, Less(i + 1, s.after), i + 1), i + 1)
  {
    hide Trim, Offset;
  }

  /** Without following lines a match is reported at once. */
  lemma AtOnce(s: Search, i: nat, value: GrepMatch)
    requires s.after == 0 && i < |s.lines| && value == HitAt(s, i).value.(contextAfter := None)
    ensures Hit(s.path, Offset(s.lines, i), value) == HitAt(s, i)
    ensures MatchedIn(s, 0, i + 1) == if Matched(s, i) then MatchedIn(s, 0, i) + [i] else MatchedIn(s, 0, i)
    ensures MatchedIn(s, i, i) == [] && MatchedIn(s, i + 1, i + 1) == []
  {
  }

  lemma MatchedNext(s: Search, lo: nat, i: nat)
    requires i < |s.lines|
    ensures lo <= i ==>
      MatchedIn(s, lo, i + 1) == if Matched(s, i) then MatchedIn(s, lo, i) + [i] else MatchedIn(s, lo, i)
  {
  }

  /** The line's part in the matches before it, and its own match. */
  method Consider(s: Search, i: nat, text: seq<byte>, byteOffset: nat, before: seq<seq<byte>>, queue: seq<Pending>,
                  ghost start: seq<Hit>, accumulator: GrepAccumulator) returns (pending: seq<Pending>)
    requires i < |s.lines| && text == Trim(s.lines[i]) && byteOffset == Offset(s.lines, i)
    requires before == Texts(s, Less(i, s.before), i)
    requires QueueOk(s, queue, MatchedIn(s, Less(i, s.after), i), i)
    requires accumulator.Valid() && Reported(s, accumulator.calls, start, MatchedIn(s, 0, Less(i, s.after)))
    modifies accumulator
    ensures QueueOk(s, pending, MatchedIn(s, Less(i + 1, s.after), i + 1), i + 1)
    ensures accumulator.Valid() && Reported(s, accumulator.calls, start, MatchedIn(s, 0, Less(i + 1, s.after)))
  {
    hide MatchedIn, Trim, Offset, QueueOk, Hits, Reported, GrepAccumulator.Valid, HitAt;
    HitParts(s, i);
    pending := Feed(s, queue, MatchedIn(s, Less(i, s.after), i), i, text);
    if s.after > 0 {
      pending := PopReady(s, pending, MatchedIn(s, Less(i, s.after), i), i, MatchedIn(s, 0, Less(i, s.after)), start,
                          accumulator);
    }
    MatchedNext(s, Less(i + 1, s.after), i);
    var contextBefore := if s.before > 0 then Some(before) else None;
    if s.after == 0 {
      AtOnce(s, i, GrepMatch(s.path, i + 1, text, contextBefore, None));
      NothingQueued(s, pending, i);
    }
    if s.isMatch(text) {
      if s.after == 0 {
        Report(s, start, MatchedIn(s, 0, i), i, byteOffset, GrepMatch(s.path, i + 1, text, contextBefore, None),
               accumulator);
      } else {
        Enqueued(s, pending, i, GrepMatch(s.path, i + 1, text, contextBefore, Some([])));
        pending := pending + [Pending(byteOffset, GrepMatch(s.path, i + 1, text, contextBefore, Some([])), s.after)];
      }
    }
  }

  lemma HitParts(s: Search, i: nat)
    requires i < |s.lines|
    ensures
      var before := if s.before > 0 then Some(Texts(s, Less(i, s.before), i)) else None;
      HitAt(s, i).value.(contextAfter := None) == GrepMatch(s.path, i + 1, Trim(s.lines[i]), before, None) &&
      HitAt(s, i).value.(contextAfter := Some([])) == GrepMatch(s.path, i + 1, Trim(s.lines[i]), before, Some([]))
  {
  }

  lemma NothingQueued(s: Search, pending: seq<Pending>, i: nat)
    requires i < |s.lines| && QueueOk(s, pending, [], i + 1)
    ensures pending == []
  {
  }

  lemma StreamStart(s: Search, start: seq<Hit>)
    ensures Offset(s.lines, 0) == 0 && Texts(s, Less(0, s.before), 0) == []
    ensures QueueOk(s, [], MatchedIn(s, Less(0, s.after), 0), 0)
    ensures Reported(s, start, start, MatchedIn(s, 0, Less(0, s.after)))
  {
  }

  /** `scan_stream`: one pass, a queue of the last lines and a queue of matches waiting for theirs. */
  method ScanStream(s: Search, accumulator: GrepAccumulator)
    requires accumulator.Valid()
    modifies accumulator
    ensures accumulator.Valid() && accumulator.calls == old(accumulator.calls) + AllHits(s)
  {
    hide QueueOk, MatchedIn, Texts, Trim, Flat, Hits, Reported, GrepAccumulator.Valid;
    ghost var start := accumulator.calls;
    var i := 0;
    var byteOffset := 0;
    var before: seq<seq<byte>> := [];
    var pending: seq<Pending> := [];
    StreamStart(s, start);
    while i < |s.lines|
      invariant 0 <= i <= |s.lines| && byteOffset == Offset(s.lines, i)
      invariant before == Texts(s, Less(i, s.before), i)
      invariant QueueOk(s, pending, MatchedIn(s, Less(i, s.after), i), i)
      invariant accumulator.Valid() && Reported(s, accumulator.calls, start, MatchedIn(s, 0, Less(i, s.after)))
    {
      var line := s.lines[i];
      var text := Trim(line);
      pending := Consider(s, i, text, byteOffset, before, pending, start, accumulator);
      before := Remember(s, before, i, text);
      FlatNext(s.lines, i);
      byteOffset := byteOffset + |line|;
      i := i + 1;
    }
    NoneWithoutContext(s);
    Flush(s, pending, MatchedIn(s, Less(i, s.after), i), MatchedIn(s, 0, Less(i, s.after)), start, accumulator);
    MatchedSplit(s, 0, Less(i, s.after), i);
    AllReported(s, accumulator.calls, start);
  }

  lemma NoneWithoutContext(s: Search)
    ensures s.after == 0 ==> MatchedIn(s, |s.lines|, |s.lines|) == []
  {
  }
}
