/** A whole search and its pages: `file_grep` of agent/src/file_ops.rs. */
module GrepPaging {
  import opened Prelude
  import opened Bytes
  import opened Text
  import opened Grep

  const MAX_CROSS_LINE_BYTES: nat := 16 * 1024 * 1024
  const MAX_LIMIT: nat := 10_000
  const MAX_CONTEXT: nat := 10

  type Files = map<seq<byte>, seq<byte>>

  datatype Pattern = Pattern(isMatch: seq<byte> -> bool, before: nat, after: nat)

  // ---------------------------------------------------------------- one call

  function SearchIn(files: Files, path: seq<byte>, p: Pattern): Search
    requires path in files
  {
    Search(path, Lines(files[path]), p.isMatch, p.before, p.after)
  }

  ghost predicate PathsIn(files: Files, paths: seq<seq<byte>>) {
    forall path :: path in paths ==> path in files
  }

  /** The reports of the given files, file after file. */
  ghost function HitsIn(files: Files, paths: seq<seq<byte>>, p: Pattern): seq<Hit>
    requires PathsIn(files, paths)
  {
    if paths == [] then []
    else HitsIn(files, paths[..|paths| - 1], p) + AllHits(SearchIn(files, paths[|paths| - 1], p))
  }

  /** Everything the pattern matches, in path and line order. */
  ghost function HitsOf(files: Files, p: Pattern): seq<Hit> {
    HitsIn(files, SortedKeys(files.Keys), p)
  }

  /** What a call returns of its accumulator. */
  datatype Reply = Reply(matches: seq<GrepMatch>, totalMatches: nat, truncated: bool, next: Option<Cursor>)

  function ReplyOf(page: Page): Reply {
    Reply(page.matches, page.totalMatches, page.truncated, if page.truncated then page.lastSaved else None)
  }

  lemma NoHitsYet(files: Files, paths: seq<seq<byte>>, p: Pattern)
    ensures PathsIn(files, paths[..0]) && HitsIn(files, paths[..0], p) == []
  {
  }

  lemma HitsNext(files: Files, paths: seq<seq<byte>>, n: nat, p: Pattern)
    requires n < |paths| && PathsIn(files, paths[..n]) && paths[n] in files
    ensures PathsIn(files, paths[..n + 1])
    ensures HitsIn(files, paths[..n + 1], p) == HitsIn(files, paths[..n], p) + AllHits(SearchIn(files, paths[n], p))
  {
    assert paths[..n + 1] == paths[..n] + [paths[n]];
    assert paths[..n + 1][..n] == paths[..n];
  }

  /** Small files are read whole, large ones line by line. */
  method ScanFile(s: Search, size: nat, accumulator: GrepAccumulator)
    requires accumulator.Valid()
    modifies accumulator
    ensures accumulator.Valid() && accumulator.calls == old(accumulator.calls) + AllHits(s)
  {
    if size <= MAX_CROSS_LINE_BYTES { ScanBuffer(s, accumulator); } else { ScanStream(s, accumulator); }
  }

  // ---------------------------------------------------------------- what a match says

  /** The context in front of line `k`, from 0: the last lines before it, as many as were asked for. */
  ghost predicate BeforeOk(lines: seq<seq<byte>>, k: nat, asked: nat, context: Option<seq<seq<byte>>>)
    requires k < |lines|
  {
    (context.Some? <==> asked > 0) &&
    (context.Some? ==>
       var n := if k < asked then k else asked;
       |context.value| == n && forall i :: 0 <= i < n ==> context.value[i] == Trim(lines[k - n + i]))
  }

  /** The context behind line `k`. */
  ghost predicate AfterOk(lines: seq<seq<byte>>, k: nat, asked: nat, context: Option<seq<seq<byte>>>)
    requires k < |lines|
  {
    (context.Some? <==> asked > 0) &&
    (context.Some? ==>
       var n := if |lines| - k - 1 < asked then |lines| - k - 1 else asked;
       |context.value| == n && forall i :: 0 <= i < n ==> context.value[i] == Trim(lines[k + 1 + i]))
  }

  /** The match is a matching line of a file, with its number and text, and the context lines around it. */
  ghost predicate MatchOk(files: Files, p: Pattern, m: GrepMatch) {
    m.path in files &&
    (var lines := Lines(files[m.path]);
     1 <= m.line <= |lines| && m.text == Trim(lines[m.line - 1]) && p.isMatch(m.text) &&
     BeforeOk(lines, m.line - 1, p.before, m.contextBefore) && AfterOk(lines, m.line - 1, p.after, m.contextAfter))
  }

  /** Line `k`, from 0, of the file matches. */
  predicate LineMatches(files: Files, p: Pattern, path: seq<byte>, k: nat) {
    path in files && k < |Lines(files[path])| && p.isMatch(Trim(Lines(files[path])[k]))
  }

  lemma HitContext(s: Search, k: nat)
    requires k < |s.lines|
    ensures BeforeOk(s.lines, k, s.before, HitAt(s, k).value.contextBefore)
    ensures AfterOk(s.lines, k, s.after, HitAt(s, k).value.contextAfter)
  {
    hide Trim, Flat;
  }

  lemma HitIsOk(files: Files, path: seq<byte>, p: Pattern, h: Hit)
    requires path in files && h in AllHits(SearchIn(files, path, p))
    ensures MatchOk(files, p, h.value) && h.path == h.value.path == path
  {
    hide Lines, Trim, Flat, BeforeOk, AfterOk, Texts;
    var s := SearchIn(files, path, p);
    var ks := MatchedIn(s, 0, |s.lines|);
    var j :| 0 <= j < |ks| && h == HitAt(s, ks[j]);
    HitContext(s, ks[j]);
  }

  lemma {:induction false} MatchedAll(s: Search, hi: nat, k: nat)
    requires k < hi <= |s.lines| && Matched(s, k)
    ensures k in MatchedIn(s, 0, hi)
  {
    if k < hi - 1 { MatchedAll(s, hi - 1, k); }
  }

  lemma LineHasHit(files: Files, path: seq<byte>, p: Pattern, k: nat)
    requires LineMatches(files, p, path, k)
    ensures exists h :: h in AllHits(SearchIn(files, path, p)) && h.value.line == k + 1
  {
    hide Lines, Trim, Flat;
    var s := SearchIn(files, path, p);
    MatchedAll(s, |s.lines|, k);
    var ks := MatchedIn(s, 0, |s.lines|);
    var j :| 0 <= j < |ks| && ks[j] == k;
    assert AllHits(s)[j] == HitAt(s, k);
  }

  lemma {:induction false} HitsAreOk(files: Files, paths: seq<seq<byte>>, p: Pattern)
    requires PathsIn(files, paths)
    ensures forall h :: h in HitsIn(files, paths, p) ==> MatchOk(files, p, h.value) && h.path == h.value.path
    ensures forall path, k: nat :: path in paths && LineMatches(files, p, path, k) ==>
      exists h :: h in HitsIn(files, paths, p) && h.path == path && h.value.line == k + 1
  {
    hide AllHits, MatchOk, LineMatches, SearchIn;
    if paths != [] {
      var front, last := paths[..|paths| - 1], paths[|paths| - 1];
      HitsAreOk(files, front, p);
      var hits := AllHits(SearchIn(files, last, p));
      forall h | h in hits ensures MatchOk(files, p, h.value) && h.path == h.value.path == last {
        HitIsOk(files, last, p, h);
      }
      forall path, k: nat | path in paths && LineMatches(files, p, path, k)
        ensures exists h :: h in HitsIn(files, paths, p) && h.path == path && h.value.line == k + 1
      {
        if path in front {
          var h :| h in HitsIn(files, front, p) && h.path == path && h.value.line == k + 1;
          assert h in HitsIn(files, paths, p);
        } else {
          LineHasHit(files, last, p, k);
          var h :| h in hits && h.value.line == k + 1;
          assert h in HitsIn(files, paths, p);
        }
      }
    }
  }

  /** The hits of a search are matching lines with their text and context, and every matching line of every file is
      one. */
  lemma SearchIsRight(files: Files, p: Pattern)
    ensures forall h :: h in HitsOf(files, p) ==> MatchOk(files, p, h.value) && h.path == h.value.path
    ensures forall path, k: nat :: LineMatches(files, p, path, k) ==>
      exists h :: h in HitsOf(files, p) && h.path == path && h.value.line == k + 1
  {
    hide MatchOk;
    HitsAreOk(files, SortedKeys(files.Keys), p);
  }

  /** A page shows nothing but reports. */
  lemma {:induction false} PageShowsHits(page: Page, hits: seq<Hit>, m: GrepMatch)
    requires m in AddAll(page, hits).matches && m !in page.matches
    ensures exists h :: h in hits && h.value == m
    decreases |hits|
  {
    if hits != [] {
      var front, last := hits[..|hits| - 1], hits[|hits| - 1];
      if m in AddAll(page, front).matches {
        PageShowsHits(page, front, m);
      } else {
        assert last in hits && last.value == m;
      }
    }
  }

  /** A page is within the count limit, and with its last match it encoded in at most 1,500,000 bytes. */
  lemma {:induction false} PageWithinBudget(page: Page, hits: seq<Hit>)
    requires |page.matches| <= page.limit
    requires page.matches != [] ==> Encoded(page.responseBytes, page.matches)
    ensures
      var after := AddAll(page, hits);
      after.responseBytes == page.responseBytes && after.limit == page.limit && |after.matches| <= page.limit &&
      (after.matches != [] ==> Encoded(page.responseBytes, after.matches))
    decreases |hits|
  {
    hide NotAfter;
    if hits != [] { PageWithinBudget(page, hits[..|hits| - 1]); }
  }

  ghost predicate Encoded(bytes: (seq<GrepMatch>, nat) -> nat, matches: seq<GrepMatch>) {
    exists total: nat :: bytes(matches, total) <= 1_500_000
  }

  lemma PageIsRight(files: Files, p: Pattern, limit: nat, cursor: Option<Cursor>, bytes: (seq<GrepMatch>, nat) -> nat)
    ensures
      forall m :: m in AddAll(EmptyPage(limit, cursor, bytes), HitsOf(files, p)).matches ==> MatchOk(files, p, m)
  {
    hide MatchOk, HitsOf, AddAll;
    SearchIsRight(files, p);
    forall m | m in AddAll(EmptyPage(limit, cursor, bytes), HitsOf(files, p)).matches ensures MatchOk(files, p, m) {
      PageShowsHits(EmptyPage(limit, cursor, bytes), HitsOf(files, p), m);
    }
  }

  // ---------------------------------------------------------------- the call

  /** The loop over the sorted files. */
  method ScanFiles(files: Files, paths: seq<seq<byte>>, p: Pattern, accumulator: GrepAccumulator)
    requires PathsIn(files, paths) && accumulator.Valid() && accumulator.calls == []
    modifies accumulator
    ensures accumulator.Valid() && accumulator.calls == HitsIn(files, paths, p)
  {
    hide AllHits, GrepAccumulator.Valid, SearchIn, HitsIn;
    var n := 0;
    NoHitsYet(files, paths, p);
    while n < |paths|
      invariant 0 <= n <= |paths| && accumulator.Valid()
      invariant PathsIn(files, paths[..n]) && accumulator.calls == HitsIn(files, paths[..n], p)
    {
      var path := paths[n];
      HitsNext(files, paths, n, p);
      ScanFile(SearchIn(files, path, p), |files[path]|, accumulator);
      n := n + 1;
    }
    assert paths[..|paths|] == paths;
  }

  predicate LimitsOk(p: Pattern, limit: nat) {
    1 <= limit <= 10_000 && p.before <= 10 && p.after <= 10
  }

  method FileGrep(files: Files, p: Pattern, limit: nat, cursor: Option<Cursor>, responseBytes: (seq<GrepMatch>,
                  nat) -> nat)
    returns (reply: Option<Reply>)
    ensures reply.Some? <==> LimitsOk(p, limit)
    ensures reply.Some? ==> reply.value == ReplyOf(AddAll(EmptyPage(limit, cursor, responseBytes), HitsOf(files, p)))
    ensures reply.Some? ==> forall m :: m in reply.value.matches ==> MatchOk(files, p, m)
    ensures reply.Some? ==> |reply.value.matches| <= limit
    ensures reply.Some? && reply.value.matches != [] ==> Encoded(responseBytes, reply.value.matches)
  {
    if limit == 0 || limit > MAX_LIMIT || p.before > MAX_CONTEXT || p.after > MAX_CONTEXT { return None; }
    hide GrepAccumulator.Valid, AddAll, Sorted, HitsIn, MatchOk;
    PageIsRight(files, p, limit, cursor, responseBytes);
    PageWithinBudget(EmptyPage(limit, cursor, responseBytes), HitsOf(files, p));
    var paths := SortKeys(files.Keys);
    var accumulator := new GrepAccumulator(limit, cursor, responseBytes);
    ScanFiles(files, paths, p, accumulator);
    accumulator.Show();
    return Some(Reply(accumulator.matches, accumulator.totalMatches, accumulator.truncated,
                      if accumulator.truncated then accumulator.lastSaved else None));
  }

  // ---------------------------------------------------------------- the order of the reports

  predicate HitBefore(a: Hit, b: Hit) {
    Before(a.path, b.path) || (a.path == b.path && a.offset < b.offset)
  }

  predicate HitsOrdered(hits: seq<Hit>) {
    forall i, j :: 0 <= i < j < |hits| ==> HitBefore(hits[i], hits[j])
  }

  lemma {:induction false} OffsetsGrow(lines: seq<seq<byte>>, j: nat, k: nat)
    requires SplitAtNewlines(lines) && j < k <= |lines|
    ensures Offset(lines, j) < Offset(lines, k)
  {
    FlatNext(lines, k - 1);
    if j < k - 1 { OffsetsGrow(lines, j, k - 1); }
  }

  lemma {:induction false} MatchedIncreasing(s: Search, lo: nat, hi: nat)
    requires hi <= |s.lines|
    ensures forall i, j :: 0 <= i < j < |MatchedIn(s, lo, hi)| ==> MatchedIn(s, lo, hi)[i] < MatchedIn(s, lo, hi)[j]
    decreases hi
  {
    if lo < hi { MatchedIncreasing(s, lo, hi - 1); }
  }

  lemma FileHitsOrdered(files: Files, path: seq<byte>, p: Pattern)
    requires path in files
    ensures HitsOrdered(AllHits(SearchIn(files, path, p)))
    ensures forall h :: h in AllHits(SearchIn(files, path, p)) ==> h.path == path
  {
    hide Lines, Flat;
    var s := SearchIn(files, path, p);
    var ks := MatchedIn(s, 0, |s.lines|);
    LinesAreLines(files[path]);
    MatchedIncreasing(s, 0, |s.lines|);
    forall i, j | 0 <= i < j < |ks| ensures HitBefore(AllHits(s)[i], AllHits(s)[j]) {
      OffsetsGrow(s.lines, ks[i], ks[j]);
    }
  }

  lemma {:induction false} AllOrdered(files: Files, paths: seq<seq<byte>>, p: Pattern)
    requires Sorted(paths) && PathsIn(files, paths)
    ensures HitsOrdered(HitsIn(files, paths, p)) && forall h :: h in HitsIn(files, paths, p) ==> h.path in paths
  {
    hide AllHits, Before;
    if paths != [] {
      var front, last := paths[..|paths| - 1], paths[|paths| - 1];
      AllOrdered(files, front, p);
      FileHitsOrdered(files, last, p);
      forall path | path in front ensures Before(path, last) {}
      OrderedConcat(HitsIn(files, front, p), AllHits(SearchIn(files, last, p)));
    }
  }

  lemma OrderedConcat(a: seq<Hit>, b: seq<Hit>)
    requires HitsOrdered(a) && HitsOrdered(b) && forall x, y :: x in a && y in b ==> HitBefore(x, y)
    ensures HitsOrdered(a + b)
  {
    hide HitBefore;
  }

  /** The reports of a search are strictly ordered by path and offset, which is what the cursor compares. */
  lemma SearchOrdered(files: Files, p: Pattern)
    ensures HitsOrdered(HitsOf(files, p))
  {
    AllOrdered(files, SortedKeys(files.Keys), p);
  }

  // ---------------------------------------------------------------- one page

  function Values(hits: seq<Hit>): (values: seq<GrepMatch>)
    ensures |values| == |hits| && forall i :: 0 <= i < |hits| ==> values[i] == hits[i].value
  {
    if hits == [] then [] else Values(hits[..|hits| - 1]) + [hits[|hits| - 1].value]
  }

  function CursorOf(h: Hit): Cursor {
    Cursor(h.path, h.offset)
  }

  function CursorAt(hits: seq<Hit>, k: nat): Option<Cursor>
    requires k <= |hits|
  {
    if k == 0 then None else Some(CursorOf(hits[k - 1]))
  }

  /** The page behind the cursor of position `k`, after the first `i` reports. */
  function PageSoFar(hits: seq<Hit>, limit: nat, bytes: (seq<GrepMatch>, nat) -> nat, k: nat, i: nat): Page
    requires k <= |hits| && i <= |hits|
  {
    AddAll(EmptyPage(limit, CursorAt(hits, k), bytes), hits[..i])
  }

  lemma NextReport(hits: seq<Hit>, limit: nat, bytes: (seq<GrepMatch>, nat) -> nat, k: nat, i: nat)
    requires k <= |hits| && i < |hits|
    ensures PageSoFar(hits, limit, bytes, k, i + 1) == AddTo(PageSoFar(hits, limit, bytes, k, i), hits[i])
  {
    assert hits[..i + 1][..i] == hits[..i];
  }

  lemma {:induction false} FixedFields(hits: seq<Hit>, limit: nat, bytes: (seq<GrepMatch>, nat) -> nat, k: nat, i: nat)
    requires k <= |hits| && i <= |hits|
    ensures
      var page := PageSoFar(hits, limit, bytes, k, i);
      page.limit == limit && page.cursor == CursorAt(hits, k) && page.responseBytes == bytes &&
      page.totalMatches == i &&
      |page.matches| <= limit
    decreases i
  {
    if i > 0 {
      FixedFields(hits, limit, bytes, k, i - 1);
      NextReport(hits, limit, bytes, k, i - 1);
    }
  }

  /** The cursor leaves out exactly the reports before position `k`. */
  lemma SkippedBefore(hits: seq<Hit>, k: nat, i: nat)
    requires HitsOrdered(hits) && 0 < k <= |hits| && i < |hits|
    ensures NotAfter(hits[i], CursorOf(hits[k - 1])) <==> i < k
  {
    var a, b := hits[k - 1], hits[i];
    if i > k - 1 {
      assert HitBefore(a, b);
      if Before(b.path, a.path) {
        BeforeIrreflexive(a.path);
        if Before(a.path, b.path) { BeforeTransitive(a.path, b.path, a.path); }
      }
      BeforeIrreflexive(a.path);
    }
    if i < k - 1 { assert HitBefore(b, a); }
  }

  /** Where the run of reports from `k` on ends: at the limit, or before the first report that does not fit. */
  function RunEnd(hits: seq<Hit>, limit: nat, bytes: (seq<GrepMatch>, nat) -> nat, k: nat, i: nat): (end: nat)
    requires k <= i <= |hits|
    ensures i <= end <= |hits|
    decreases |hits| - i
  {
    if i == |hits| || i - k >= limit || bytes(Values(hits[k..i + 1]), i + 1) > MAX_SEARCH_RESPONSE_BYTES then i
    else RunEnd(hits, limit, bytes, k, i + 1)
  }

  lemma {:induction false} NothingBefore(hits: seq<Hit>, limit: nat, bytes: (seq<GrepMatch>, nat) -> nat, k: nat,
                                         i: nat)
    requires HitsOrdered(hits) && i <= k <= |hits|
    ensures PageSoFar(hits, limit, bytes, k, i) == Page(limit, CursorAt(hits, k), bytes, [], i, false, None)
    decreases i
  {
    hide NotAfter;
    if i > 0 {
      NothingBefore(hits, limit, bytes, k, i - 1);
      NextReport(hits, limit, bytes, k, i - 1);
      SkippedBefore(hits, k, i - 1);
    }
  }

  lemma RunGoesOn(hits: seq<Hit>, limit: nat, bytes: (seq<GrepMatch>, nat) -> nat, k: nat, i: nat)
    requires k <= i <= |hits| && RunEnd(hits, limit, bytes, k, i) > i
    ensures i < |hits| && i - k < limit && bytes(Values(hits[k..i + 1]), i + 1) <= MAX_SEARCH_RESPONSE_BYTES
    ensures RunEnd(hits, limit, bytes, k, i) == RunEnd(hits, limit, bytes, k, i + 1)
    ensures hits[k..i + 1] == hits[k..i] + [hits[i]] && Values(hits[k..i + 1]) == Values(hits[k..i]) + [hits[i].value]
  {
    assert hits[k..i + 1][..i - k] == hits[k..i];
  }

  /** Up to the end of the run every report from `k` on is on the page. */
  lemma {:induction false} RunSaved(hits: seq<Hit>, limit: nat, bytes: (seq<GrepMatch>, nat) -> nat, k: nat, i: nat)
    requires HitsOrdered(hits) && k <= i <= |hits| && i <= RunEnd(hits, limit, bytes, k, k)
    ensures
      PageSoFar(hits, limit, bytes, k, i) ==
        Page(limit, CursorAt(hits, k), bytes, Values(hits[k..i]), i, false, if i > k then CursorAt(hits, i) else None)
    ensures i - k <= limit && RunEnd(hits, limit, bytes, k, k) == RunEnd(hits, limit, bytes, k, i)
    decreases i
  {
    hide NotAfter, RunEnd, Values, PageSoFar, HitsOrdered;
    if i == k {
      NothingBefore(hits, limit, bytes, k, k);
      assert Values(hits[k..k]) == [];
    } else {
      RunSaved(hits, limit, bytes, k, i - 1);
      NextReport(hits, limit, bytes, k, i - 1);
      RunGoesOn(hits, limit, bytes, k, i - 1);
      if k > 0 { SkippedBefore(hits, k, i - 1); }
    }
  }

  /** A later report fits into what the run leaves. */
  ghost predicate LaterFits(hits: seq<Hit>, bytes: (seq<GrepMatch>, nat) -> nat, k: nat, end: nat, j: nat)
    requires k <= end <= |hits|
  {
    end < j < |hits| && bytes(Values(hits[k..end]) + [hits[j].value], j + 1) <= MAX_SEARCH_RESPONSE_BYTES
  }

  lemma {:induction false} AfterRun(hits: seq<Hit>, limit: nat, bytes: (seq<GrepMatch>, nat) -> nat, k: nat, i: nat)
    requires HitsOrdered(hits) && k <= |hits|
    requires RunEnd(hits, limit, bytes, k, k) < i <= |hits|
    ensures
      var end := RunEnd(hits, limit, bytes, k, k);
      var page := PageSoFar(hits, limit, bytes, k, i);
      page.truncated &&
      (if end - k < limit && exists j: nat :: j < i && LaterFits(hits, bytes, k, end, j) then |page.matches| > end - k
       else page.matches == Values(hits[k..end]) && page.lastSaved == if end > k then CursorAt(hits, end) else None)
    decreases i
  {
    hide NotAfter, PageSoFar, Values, HitsOrdered, RunEnd;
    var end := RunEnd(hits, limit, bytes, k, k);
    NextReport(hits, limit, bytes, k, i - 1);
    FixedFields(hits, limit, bytes, k, i - 1);
    if k > 0 { SkippedBefore(hits, k, i - 1); }
    RunSaved(hits, limit, bytes, k, end);
    if i - 1 == end && end - k < limit {
      RunStops(hits, limit, bytes, k, end);
    } else if i - 1 > end {
      AfterRun(hits, limit, bytes, k, i - 1);
      assert end - k < limit && !LaterFits(hits, bytes, k, end, i - 1) ==>
        forall j: nat :: j < i && LaterFits(hits, bytes, k, end, j) ==> j < i - 1;
    }
  }

  lemma RunStops(hits: seq<Hit>, limit: nat, bytes: (seq<GrepMatch>, nat) -> nat, k: nat, end: nat)
    requires k <= end < |hits| && RunEnd(hits, limit, bytes, k, end) == end && end - k < limit
    ensures bytes(Values(hits[k..end]) + [hits[end].value], end + 1) > MAX_SEARCH_RESPONSE_BYTES
  {
    assert hits[k..end + 1][..end - k] == hits[k..end];
  }

  /** A page is the next run of reports, without a gap, exactly when the limit ends the run
      or nothing behind the report that did not fit would still fit. */
  lemma PageIsRun(hits: seq<Hit>, limit: nat, bytes: (seq<GrepMatch>, nat) -> nat, k: nat)
    requires HitsOrdered(hits) && k <= |hits|
    ensures
      var end := RunEnd(hits, limit, bytes, k, k);
      PageSoFar(hits, limit, bytes, k, |hits|).matches == Values(hits[k..end]) <==>
        end - k >= limit || forall j :: end < j < |hits| ==> !LaterFits(hits, bytes, k, end, j)
  {
    var end := RunEnd(hits, limit, bytes, k, k);
    if end == |hits| { RunSaved(hits, limit, bytes, k, end); } else { AfterRun(hits, limit, bytes, k, |hits|); }
  }

  // ---------------------------------------------------------------- following the cursor

  /** No run of at most `limit` reports exceeds the budget. */
  ghost predicate CountLimited(hits: seq<Hit>, limit: nat, bytes: (seq<GrepMatch>, nat) -> nat) {
    forall k, i :: 0 <= k <= i < |hits| && i - k < limit ==> RunFits(hits, bytes, k, i)
  }

  predicate RunFits(hits: seq<Hit>, bytes: (seq<GrepMatch>, nat) -> nat, k: nat, i: nat)
    requires k <= i < |hits|
  {
    bytes(Values(hits[k..i + 1]), i + 1) <= MAX_SEARCH_RESPONSE_BYTES
  }

  lemma {:induction false} RunToLimit(hits: seq<Hit>, limit: nat, bytes: (seq<GrepMatch>, nat) -> nat, k: nat, i: nat)
    requires CountLimited(hits, limit, bytes) && k <= i <= |hits| && i - k <= limit
    ensures RunEnd(hits, limit, bytes, k, i) == Min(k + limit, |hits|)
    decreases |hits| - i
  {
    if i < |hits| && i - k < limit {
      assert RunFits(hits, bytes, k, i);
      RunToLimit(hits, limit, bytes, k, i + 1);
    }
  }

  /** With count limits only, the page behind position `k` has the next `limit` reports and the cursor of the last. */
  lemma CountedPage(hits: seq<Hit>, limit: nat, bytes: (seq<GrepMatch>, nat) -> nat, k: nat)
    requires HitsOrdered(hits) && k <= |hits| && CountLimited(hits, limit, bytes) && limit >= 1
    ensures
      var end := Min(k + limit, |hits|);
      ReplyOf(PageSoFar(hits, limit, bytes, k, |hits|)) ==
        Reply(Values(hits[k..end]), |hits|, end < |hits|, if end < |hits| then CursorAt(hits, end) else None)
  {
    var end := Min(k + limit, |hits|);
    RunToLimit(hits, limit, bytes, k, k);
    FixedFields(hits, limit, bytes, k, |hits|);
    if end == |hits| { RunSaved(hits, limit, bytes, k, end); } else { AfterRun(hits, limit, bytes, k, |hits|); }
  }

  lemma ValuesSplit(hits: seq<Hit>, k: nat, m: nat)
    requires k <= m <= |hits|
    ensures Values(hits[k..]) == Values(hits[k..m]) + Values(hits[m..])
  {
  }

  /** The positions of the reports a page keeps, of the first `i`. */
  function Kept(hits: seq<Hit>, limit: nat, bytes: (seq<GrepMatch>, nat) -> nat, k: nat, i: nat): (kept: seq<nat>)
    requires k <= |hits| && i <= |hits|
    ensures forall n :: 0 <= n < |kept| ==> kept[n] < i
  {
    if i == 0 then []
    else if Saves(PageSoFar(hits, limit, bytes, k, i - 1), hits[i - 1]) then Kept(hits, limit, bytes, k, i - 1) +
      [i - 1]
    else Kept(hits, limit, bytes, k, i - 1)
  }

  /** The position a page's cursor stands for. */
  function NextPosition(hits: seq<Hit>, limit: nat, bytes: (seq<GrepMatch>, nat) -> nat, k: nat, i: nat): (m: nat)
    requires k <= |hits| && i <= |hits|
    ensures m <= i
  {
    var kept := Kept(hits, limit, bytes, k, i);
    if kept == [] then 0 else kept[|kept| - 1] + 1
  }

  /** The page has as many matches as it keeps reports, all behind its cursor; its own cursor is that of the last one;
      and something is left out exactly when it says so. */
  lemma {:induction false} KeptPage(hits: seq<Hit>, limit: nat, bytes: (seq<GrepMatch>, nat) -> nat, k: nat, i: nat)
    requires HitsOrdered(hits) && k <= |hits| && i <= |hits|
    ensures
      var page, kept, m := PageSoFar(hits, limit, bytes, k, i), Kept(hits, limit, bytes, k, i),
                           NextPosition(hits, limit, bytes, k, i);
      |page.matches| == |kept| && (kept == [] <==> m == 0) && (kept != [] ==> m > k) &&
      page.lastSaved == (if kept == [] then None else CursorAt(hits, m)) &&
      |kept| <= (if m > k then m - k else 0) && (!page.truncated ==> i <= k || |kept| == i - k)
    decreases i
  {
    hide NotAfter, PageSoFar, HitsOrdered, Saves, AddTo, Skipped, CursorOf;
    if i == 0 {
      FirstPage(hits, limit, bytes, k);
    } else {
      KeptPage(hits, limit, bytes, k, i - 1);
      NextReport(hits, limit, bytes, k, i - 1);
      AddToPage(PageSoFar(hits, limit, bytes, k, i - 1), hits[i - 1]);
      SkippedAt(hits, limit, bytes, k, i - 1);
    }
  }

  lemma SkippedAt(hits: seq<Hit>, limit: nat, bytes: (seq<GrepMatch>, nat) -> nat, k: nat, i: nat)
    requires HitsOrdered(hits) && k <= |hits| && i < |hits|
    ensures Skipped(PageSoFar(hits, limit, bytes, k, i), hits[i]) <==> i < k
  {
    hide NotAfter, PageSoFar, HitsOrdered;
    FixedFields(hits, limit, bytes, k, i);
    if k > 0 { SkippedBefore(hits, k, i); }
  }

  lemma AddToPage(page: Page, hit: Hit)
    ensures
      var page' := AddTo(page, hit);
      if Saves(page, hit) then
        !Skipped(page, hit) && page'.matches == page.matches + [hit.value] && page'.truncated == page.truncated &&
        page'.lastSaved == Some(CursorOf(hit))
      else
        page'.matches == page.matches && page'.lastSaved == page.lastSaved &&
        page'.truncated == (page.truncated || !Skipped(page, hit))
  {
  }

  lemma FirstPage(hits: seq<Hit>, limit: nat, bytes: (seq<GrepMatch>, nat) -> nat, k: nat)
    requires k <= |hits|
    ensures PageSoFar(hits, limit, bytes, k, 0) == EmptyPage(limit, CursorAt(hits, k), bytes)
  {
  }

  /** A page that leaves out report `j` and keeps a later one has fewer matches than positions it passes. */
  lemma {:induction false} GapLosesOne(hits: seq<Hit>, limit: nat, bytes: (seq<GrepMatch>, nat) -> nat, k: nat, j: nat,
                                       i: nat)
    requires HitsOrdered(hits) && k <= j < i <= |hits| && !Saves(PageSoFar(hits, limit, bytes, k, j), hits[j])
    ensures
      var m := NextPosition(hits, limit, bytes, k, i);
      m > j ==> |Kept(hits, limit, bytes, k, i)| < m - k
    decreases i
  {
    hide PageSoFar, HitsOrdered, Saves;
    KeptPage(hits, limit, bytes, k, i - 1);
    if i - 1 > j { GapLosesOne(hits, limit, bytes, k, j, i - 1); }
  }

  /** All matches a client sees that follows the cursor from position `k` until it is absent. */
  ghost function Followed(hits: seq<Hit>, limit: nat, bytes: (seq<GrepMatch>, nat) -> nat, k: nat): seq<GrepMatch>
    requires HitsOrdered(hits) && k <= |hits|
    decreases |hits| - k
  {
    KeptPage(hits, limit, bytes, k, |hits|);
    var reply := ReplyOf(PageSoFar(hits, limit, bytes, k, |hits|));
    if reply.next.None? then reply.matches
    else reply.matches + Followed(hits, limit, bytes, NextPosition(hits, limit, bytes, k, |hits|))
  }

  /** The run from `k` on reaches the end of the reports, or the page is that run, not empty, and so on from its end. */
  ghost predicate Complete(hits: seq<Hit>, limit: nat, bytes: (seq<GrepMatch>, nat) -> nat, k: nat)
    requires k <= |hits|
    decreases |hits| - k
  {
    var end := RunEnd(hits, limit, bytes, k, k);
    end == |hits| ||
    (end > k && (end - k >= limit || forall j :: end < j < |hits| ==> !LaterFits(hits, bytes, k, end, j)) &&
     Complete(hits, limit, bytes, end))
  }

  /** No client sees more than the reports there are. */
  lemma {:induction false} FollowedBounded(hits: seq<Hit>, limit: nat, bytes: (seq<GrepMatch>, nat) -> nat, k: nat)
    requires HitsOrdered(hits) && k <= |hits|
    ensures |Followed(hits, limit, bytes, k)| <= |hits| - k
    decreases |hits| - k
  {
    hide PageSoFar, HitsOrdered, Kept, NextPosition;
    KeptPage(hits, limit, bytes, k, |hits|);
    if ReplyOf(PageSoFar(hits, limit, bytes, k, |hits|)).next.Some? {
      FollowedBounded(hits, limit, bytes, NextPosition(hits, limit, bytes, k, |hits|));
    }
  }

  /** The first report behind the run is not kept. */
  lemma RunEndNotKept(hits: seq<Hit>, limit: nat, bytes: (seq<GrepMatch>, nat) -> nat, k: nat)
    requires HitsOrdered(hits) && k <= |hits| && RunEnd(hits, limit, bytes, k, k) < |hits|
    ensures
      var end := RunEnd(hits, limit, bytes, k, k);
      !Saves(PageSoFar(hits, limit, bytes, k, end), hits[end])
  {
    hide PageSoFar, Values, HitsOrdered, NotAfter, RunEnd;
    var end := RunEnd(hits, limit, bytes, k, k);
    RunSaved(hits, limit, bytes, k, end);
    if end - k < limit { RunStops(hits, limit, bytes, k, end); }
  }

  /** A page that is a run leads on to the end of the run. */
  lemma RunLeadsOn(hits: seq<Hit>, limit: nat, bytes: (seq<GrepMatch>, nat) -> nat, k: nat)
    requires HitsOrdered(hits) && k <= |hits|
    requires
      var end := RunEnd(hits, limit, bytes, k, k);
      k < end < |hits| && (end - k >= limit || forall j :: end < j < |hits| ==> !LaterFits(hits, bytes, k, end, j))
    ensures
      var end, page := RunEnd(hits, limit, bytes, k, k), PageSoFar(hits, limit, bytes, k, |hits|);
      page.matches == Values(hits[k..end]) && page.truncated && page.lastSaved == CursorAt(hits, end) &&
      NextPosition(hits, limit, bytes, k, |hits|) == end
  {
    hide PageSoFar, Kept, NextPosition;
    var end := RunEnd(hits, limit, bytes, k, k);
    AfterRun(hits, limit, bytes, k, |hits|);
    KeptPage(hits, limit, bytes, k, |hits|);
    SameCursor(hits, end, NextPosition(hits, limit, bytes, k, |hits|));
  }

  lemma DifferentCursors(hits: seq<Hit>, a: nat, b: nat)
    requires HitsOrdered(hits) && 0 < a < b <= |hits|
    ensures CursorAt(hits, a) != CursorAt(hits, b)
  {
    BeforeIrreflexive(hits[a - 1].path);
    assert HitBefore(hits[a - 1], hits[b - 1]);
  }

  lemma SameCursor(hits: seq<Hit>, a: nat, b: nat)
    requires HitsOrdered(hits) && 0 < a <= |hits| && 0 < b <= |hits| && CursorAt(hits, a) == CursorAt(hits, b)
    ensures a == b
  {
    if a < b { DifferentCursors(hits, a, b); } else if b < a { DifferentCursors(hits, b, a); }
  }

  /** Otherwise the client misses something. */
  lemma {:induction false} IncompleteLoses(hits: seq<Hit>, limit: nat, bytes: (seq<GrepMatch>, nat) -> nat, k: nat)
    requires HitsOrdered(hits) && k <= |hits| && !Complete(hits, limit, bytes, k)
    ensures |Followed(hits, limit, bytes, k)| < |hits| - k
    decreases |hits| - k
  {
    hide PageSoFar, HitsOrdered, Kept, NextPosition, Values, Saves;
    var end := RunEnd(hits, limit, bytes, k, k);
    var m := NextPosition(hits, limit, bytes, k, |hits|);
    KeptPage(hits, limit, bytes, k, |hits|);
    RunEndNotKept(hits, limit, bytes, k);
    GapLosesOne(hits, limit, bytes, k, end, |hits|);
    if end > k && (end - k >= limit || forall j :: end < j < |hits| ==> !LaterFits(hits, bytes, k, end, j)) {
      RunLeadsOn(hits, limit, bytes, k);
      IncompleteLoses(hits, limit, bytes, end);
    } else {
      GapOrEmpty(hits, limit, bytes, k);
      if ReplyOf(PageSoFar(hits, limit, bytes, k, |hits|)).next.Some? { FollowedBounded(hits, limit, bytes, m); }
    }
  }

  /** A page that is empty, or not a run: nothing is on it, or something behind a gap. */
  lemma GapOrEmpty(hits: seq<Hit>, limit: nat, bytes: (seq<GrepMatch>, nat) -> nat, k: nat)
    requires HitsOrdered(hits) && k <= |hits| && RunEnd(hits, limit, bytes, k, k) < |hits|
    requires
      var end := RunEnd(hits, limit, bytes, k, k);
      end == k || (end - k < limit && exists j :: end < j < |hits| && LaterFits(hits, bytes, k, end, j))
    ensures
      var end := RunEnd(hits, limit, bytes, k, k);
      var page, m := PageSoFar(hits, limit, bytes, k, |hits|), NextPosition(hits, limit, bytes, k, |hits|);
      page.truncated && (page.matches == [] || m > end)
  {
    hide PageSoFar, Kept, NextPosition;
    var end := RunEnd(hits, limit, bytes, k, k);
    AfterRun(hits, limit, bytes, k, |hits|);
    KeptPage(hits, limit, bytes, k, |hits|);
  }

  /** Following the cursor always ends. The client sees every match, once and in order, exactly when each page it comes
      to is a run of reports and only the end of the reports leaves a page empty. */
  lemma {:induction false} FollowedIsAll(hits: seq<Hit>, limit: nat, bytes: (seq<GrepMatch>, nat) -> nat, k: nat)
    requires HitsOrdered(hits) && k <= |hits|
    ensures Followed(hits, limit, bytes, k) == Values(hits[k..]) <==> Complete(hits, limit, bytes, k)
    decreases |hits| - k
  {
    hide PageSoFar, HitsOrdered, Kept, NextPosition, Saves;
    var end := RunEnd(hits, limit, bytes, k, k);
    if !Complete(hits, limit, bytes, k) {
      IncompleteLoses(hits, limit, bytes, k);
    } else if end == |hits| {
      RunSaved(hits, limit, bytes, k, end);
      assert hits[k..|hits|] == hits[k..];
    } else {
      RunLeadsOn(hits, limit, bytes, k);
      FollowedIsAll(hits, limit, bytes, end);
      ValuesSplit(hits, k, end);
    }
  }

  /** When only the count limits the pages, nothing is missed. */
  lemma {:induction false} CountedIsComplete(hits: seq<Hit>, limit: nat, bytes: (seq<GrepMatch>, nat) -> nat, k: nat)
    requires k <= |hits| && CountLimited(hits, limit, bytes) && limit >= 1
    ensures Complete(hits, limit, bytes, k)
    decreases |hits| - k
  {
    hide CountLimited;
    RunToLimit(hits, limit, bytes, k, k);
    if k + limit < |hits| { CountedIsComplete(hits, limit, bytes, k + limit); }
  }

  /** What a client does that follows the cursor of `file_grep` until it is absent. On every workspace it ends, and
      it has every match of every file, once, in path and line order, exactly when the pages are complete. */
  method FollowGrep(files: Files, p: Pattern, limit: nat, responseBytes: (seq<GrepMatch>, nat) -> nat)
    returns (all: seq<GrepMatch>)
    requires LimitsOk(p, limit)
    ensures HitsOrdered(HitsOf(files, p))
    ensures all == Values(HitsOf(files, p)) <==> Complete(HitsOf(files, p), limit, responseBytes, 0)
    ensures CountLimited(HitsOf(files, p), limit, responseBytes) ==> all == Values(HitsOf(files, p))
    ensures forall m :: m in all ==> MatchOk(files, p, m)
    ensures Complete(HitsOf(files, p), limit, responseBytes, 0) ==>
      forall path, k: nat :: LineMatches(files, p, path, k) ==>
        exists m :: m in all && m.path == path && m.line == k + 1
  {
    ghost var hits := HitsOf(files, p);
    SearchOrdered(files, p);
    hide HitsOf, PageSoFar, Kept, NextPosition, Values, Complete, CountLimited, MatchOk, LineMatches, HitsOrdered;
    ghost var k := 0;
    var cursor: Option<Cursor> := None;
    all := [];
    while true
      invariant k <= |hits| && cursor == CursorAt(hits, k)
      invariant all + Followed(hits, limit, responseBytes, k) == Followed(hits, limit, responseBytes, 0)
      invariant forall m :: m in all ==> MatchOk(files, p, m)
      decreases |hits| - k
    {
      var reply := FileGrep(files, p, limit, cursor, responseBytes);
      PageOfAll(hits, limit, responseBytes, k);
      KeptPage(hits, limit, responseBytes, k, |hits|);
      all := all + reply.value.matches;
      if reply.value.next.None? { break; }
      cursor := reply.value.next;
      k := NextPosition(hits, limit, responseBytes, k, |hits|);
    }
    FollowedIsAll(hits, limit, responseBytes, 0);
    assert hits[0..] == hits;
    if CountLimited(hits, limit, responseBytes) { CountedIsComplete(hits, limit, responseBytes, 0); }
    if Complete(hits, limit, responseBytes, 0) { EveryLineShown(files, p, all); }
  }

  lemma EveryLineShown(files: Files, p: Pattern, all: seq<GrepMatch>)
    requires all == Values(HitsOf(files, p))
    ensures forall path, k: nat :: LineMatches(files, p, path, k) ==>
      exists m :: m in all && m.path == path && m.line == k + 1
  {
    hide HitsOf, MatchOk, LineMatches, Values;
    var hits := HitsOf(files, p);
    SearchIsRight(files, p);
    forall path, k: nat | LineMatches(files, p, path, k)
      ensures exists m :: m in all && m.path == path && m.line == k + 1
    {
      var h :| h in hits && h.path == path && h.value.line == k + 1;
      var i :| 0 <= i < |hits| && hits[i] == h;
      assert all[i] == h.value && h.value.path == path;
    }
  }

  lemma PageOfAll(hits: seq<Hit>, limit: nat, bytes: (seq<GrepMatch>, nat) -> nat, k: nat)
    requires k <= |hits|
    ensures PageSoFar(hits, limit, bytes, k, |hits|) == AddAll(EmptyPage(limit, CursorAt(hits, k), bytes), hits)
  {
    assert hits[..|hits|] == hits;
  }

  // ---------------------------------------------------------------- a later report that overtakes

  lemma {:induction false} OneLine(b: seq<byte>)
    requires b != [] && NEWLINE !in b
    ensures Lines(b) == [b]
  {
    var front := b[..|b| - 1];
    if front == [] {
      assert Lines(front) == [] && b == [b[0]];
    } else {
      OneLine(front);
      assert Lines(b) == AddByte([front], b[|b| - 1]) && front + [b[|b| - 1]] == b;
    }
  }

  lemma OneLineSearch(s: Search)
    requires |s.lines| == 1 && Matched(s, 0) && s.before == 0 && s.after == 0
    ensures AllHits(s) == [Hit(s.path, 0, GrepMatch(s.path, 1, Trim(s.lines[0]), None, None))]
  {
    hide Trim, Matched;
    var none: seq<nat> := [];
    assert MatchedIn(s, 0, 0) == none && MatchedIn(s, 0, 1) == [0];
    assert [0][..0] == none;
    assert Offset(s.lines, 0) == 0;
    hide MatchedIn;
    assert Hits(s, none) == [];
    assert Hits(s, [0]) == [HitAt(s, 0)];
  }

  lemma OneLineHit(files: Files, path: seq<byte>, p: Pattern)
    requires path in files && files[path] != [] && NEWLINE !in files[path] && CARRIAGE_RETURN !in files[path]
    requires p.before == 0 && p.after == 0 && p.isMatch(files[path])
    ensures AllHits(SearchIn(files, path, p)) == [Hit(path, 0, GrepMatch(path, 1, files[path], None, None))]
  {
    OneLine(files[path]);
    TrimMeans(files[path]);
    hide AllHits, Trim;
    OneLineSearch(SearchIn(files, path, p));
  }

  const PATH_A: seq<byte> := [97]
  const PATH_B: seq<byte> := [98]

  /** A file `a` of one line over the budget and a file `b` of one short line. */
  ghost predicate LongThenShort(files: Files, p: Pattern) {
    files.Keys == {PATH_A, PATH_B} && p.before == 0 && p.after == 0 &&
    (forall path :: path in files ==>
       files[path] != [] && NEWLINE !in files[path] && CARRIAGE_RETURN !in files[path] && p.isMatch(files[path])) &&
    |files[PATH_A]| > MAX_SEARCH_RESPONSE_BYTES && |files[PATH_B]| < 100
  }

  function MatchOf(files: Files, path: seq<byte>): GrepMatch
    requires path in files
  {
    GrepMatch(path, 1, files[path], None, None)
  }

  lemma TwoPaths()
    ensures SortedKeys({PATH_A, PATH_B}) == [PATH_A, PATH_B]
  {
    var paths := [PATH_A, PATH_B];
    assert PATH_A[0] < PATH_B[0];
    assert Before(PATH_A, PATH_B) && Sorted(paths);
    SortedUnique(SortedKeys({PATH_A, PATH_B}), paths);
  }

  lemma TwoFiles(files: Files, p: Pattern)
    requires files.Keys == {PATH_A, PATH_B}
    ensures HitsOf(files, p) == AllHits(SearchIn(files, PATH_A, p)) + AllHits(SearchIn(files, PATH_B, p))
  {
    hide AllHits, SearchIn, SortedKeys;
    var paths := [PATH_A, PATH_B];
    TwoPaths();
    NoHitsYet(files, paths, p);
    HitsNext(files, paths, 0, p);
    HitsNext(files, paths, 1, p);
    assert paths[..2] == paths;
  }

  lemma TwoHits(files: Files, p: Pattern)
    requires LongThenShort(files, p)
    ensures HitsOf(files, p) == [Hit(PATH_A, 0, MatchOf(files, PATH_A)), Hit(PATH_B, 0, MatchOf(files, PATH_B))]
  {
    OneLineHit(files, PATH_A, p);
    OneLineHit(files, PATH_B, p);
    TwoFiles(files, p);
    hide AllHits, SearchIn, HitsOf;
    assert [Hit(PATH_A, 0, MatchOf(files, PATH_A))] + [Hit(PATH_B, 0, MatchOf(files, PATH_B))] ==
           [Hit(PATH_A, 0, MatchOf(files, PATH_A)), Hit(PATH_B, 0, MatchOf(files, PATH_B))];
  }

  /** The encoded response has the texts of its matches, and one short match fits. */
  ghost predicate EncodesTexts(bytes: (seq<GrepMatch>, nat) -> nat, short: GrepMatch) {
    (forall m, total :: bytes([m], total) > |m.text|) && bytes([short], 2) <= MAX_SEARCH_RESPONSE_BYTES
  }

  /** Behind the last report there is an empty, complete page. */
  lemma EndOfHits(hits: seq<Hit>, limit: nat, bytes: (seq<GrepMatch>, nat) -> nat)
    requires HitsOrdered(hits)
    ensures Followed(hits, limit, bytes, |hits|) == []
  {
    FollowedBounded(hits, limit, bytes, |hits|);
  }

  /** Of two reports only the second fits. */
  ghost predicate SecondFits(hits: seq<Hit>, bytes: (seq<GrepMatch>, nat) -> nat) {
    |hits| == 2 && HitsOrdered(hits) && bytes([hits[0].value], 1) > MAX_SEARCH_RESPONSE_BYTES &&
    bytes([hits[1].value], 2) <= MAX_SEARCH_RESPONSE_BYTES
  }

  lemma SecondOnly(hits: seq<Hit>, limit: nat, bytes: (seq<GrepMatch>, nat) -> nat)
    requires SecondFits(hits, bytes) && limit >= 1
    ensures PageSoFar(hits, limit, bytes, 0, 2) == Page(limit, None, bytes, [hits[1].value], 2, true, CursorAt(hits, 2))
  {
    FirstPage(hits, limit, bytes, 0);
    NextReport(hits, limit, bytes, 0, 0);
    NextReport(hits, limit, bytes, 0, 1);
    hide PageSoFar;
    var none: seq<GrepMatch> := [];
    assert none + [hits[0].value] == [hits[0].value] && none + [hits[1].value] == [hits[1].value];
  }

  lemma SecondIsAll(hits: seq<Hit>, limit: nat, bytes: (seq<GrepMatch>, nat) -> nat)
    requires SecondFits(hits, bytes) && limit >= 1
    ensures Followed(hits, limit, bytes, 0) == [hits[1].value] && !Complete(hits, limit, bytes, 0)
  {
    SecondOnly(hits, limit, bytes);
    hide PageSoFar, Kept, NextPosition;
    KeptPage(hits, limit, bytes, 0, 2);
    SameCursor(hits, 2, NextPosition(hits, limit, bytes, 0, 2));
    EndOfHits(hits, limit, bytes);
    assert hits[0..1] == [hits[0]] && Values([hits[0]]) == [hits[0].value];
  }

  /** The page has only the match of `b` and the cursor behind it: the match of `a` is never delivered. */
  lemma LongMatchIsSkipped(files: Files, p: Pattern, limit: nat, bytes: (seq<GrepMatch>, nat) -> nat)
    requires LongThenShort(files, p) && limit >= 1 && EncodesTexts(bytes, MatchOf(files, PATH_B))
    ensures
      var hits, short := HitsOf(files, p), MatchOf(files, PATH_B);
      HitsOrdered(hits) &&
      ReplyOf(AddAll(EmptyPage(limit, None, bytes), hits)) == Reply([short], 2, true, Some(Cursor(PATH_B, 0))) &&
      Followed(hits, limit, bytes, 0) == [short] && !Complete(hits, limit, bytes, 0)
  {
    var hits := HitsOf(files, p);
    TwoHits(files, p);
    SearchOrdered(files, p);
    assert bytes([MatchOf(files, PATH_A)], 1) > MAX_SEARCH_RESPONSE_BYTES;
    hide HitsOf, PageSoFar, AddAll;
    PageOfAll(hits, limit, bytes, 0);
    SecondOnly(hits, limit, bytes);
    SecondIsAll(hits, limit, bytes);
  }
}
