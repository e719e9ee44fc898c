/** Pages of a directory listing and of a glob: `read_directory` and `file_glob` of agent/src/file_ops.rs. */
module Listing {
  import opened Prelude
  import opened Bytes

  const MAX_LIMIT: nat := 10_000

  datatype Sort = ByName | ByModified
  datatype Entry = Entry(path: seq<byte>, kind: byte, size: Option<nat>, modified: nat)
  datatype Cursor = Cursor(sort: Sort, path: seq<byte>, modified: nat)
  datatype Page = Page(entries: seq<Entry>, truncated: bool, next: Option<Cursor>)

  /** The JSON response: a frame, the entries, a comma between two of them. The limit is 512 KiB for a directory
      and 1,500,000 bytes for a glob. */
  datatype Budget = Budget(frame: nat, entryBytes: Entry -> nat, max: nat)

  // ---------------------------------------------------------------- order

  /** By name, or the latest modified first and then by name. */
  predicate Precedes(sort: Sort, aPath: seq<byte>, aModified: nat, bPath: seq<byte>, bModified: nat) {
    match sort
    case ByName => Before(aPath, bPath)
    case ByModified => aModified > bModified || (aModified == bModified && Before(aPath, bPath))
  }

  predicate EntryBefore(sort: Sort, a: Entry, b: Entry) {
    Precedes(sort, a.path, a.modified, b.path, b.modified)
  }

  predicate AfterCursor(cursor: Option<Cursor>, e: Entry) {
    cursor.None? || Precedes(cursor.value.sort, cursor.value.path, cursor.value.modified, e.path, e.modified)
  }

  function CursorOf(sort: Sort, e: Entry): Cursor {
    Cursor(sort, e.path, e.modified)
  }

  predicate Ordered(sort: Sort, xs: seq<Entry>) {
    forall i, j :: 0 <= i < j < |xs| ==> EntryBefore(sort, xs[i], xs[j])
  }

  lemma EntryBeforeTransitive(sort: Sort, a: Entry, b: Entry, c: Entry)
    requires EntryBefore(sort, a, b) && EntryBefore(sort, b, c)
    ensures EntryBefore(sort, a, c)
  {
    if Before(a.path, b.path) && Before(b.path, c.path) { BeforeTransitive(a.path, b.path, c.path); }
  }

  lemma EntryBeforeIrreflexive(sort: Sort, a: Entry)
    ensures !EntryBefore(sort, a, a)
  {
    BeforeIrreflexive(a.path);
  }

  lemma EntryBeforeTotal(sort: Sort, a: Entry, b: Entry)
    requires a.path != b.path
    ensures EntryBefore(sort, a, b) || EntryBefore(sort, b, a)
  {
    BeforeTotal(a.path, b.path);
  }

  predicate DistinctPaths(xs: seq<Entry>) {
    forall i, j :: 0 <= i < j < |xs| ==> xs[i].path != xs[j].path
  }

  /** The sorted form of a listing. */
  ghost predicate SortedForm(sort: Sort, all: seq<Entry>, sorted: seq<Entry>) {
    Ordered(sort, sorted) && multiset(sorted) == multiset(all)
  }

  /** There is only one. */
  lemma {:induction false} SortedFormUnique(sort: Sort, xs: seq<Entry>, ys: seq<Entry>)
    requires Ordered(sort, xs) && Ordered(sort, ys) && multiset(xs) == multiset(ys)
    ensures xs == ys
  {
    hide EntryBefore;
    if xs == [] {
      assert |multiset(ys)| == |ys|;
    } else {
      FirstSame(sort, xs, ys);
      Tail(xs);
      Tail(ys);
      SortedFormUnique(sort, xs[1..], ys[1..]);
    }
  }

  lemma Tail(xs: seq<Entry>)
    requires xs != []
    ensures xs == [xs[0]] + xs[1..] && multiset(xs[1..]) == multiset(xs) - multiset{xs[0]}
  {
    assert xs == [xs[0]] + xs[1..];
  }

  lemma FirstSame(sort: Sort, xs: seq<Entry>, ys: seq<Entry>)
    requires Ordered(sort, xs) && Ordered(sort, ys) && multiset(xs) == multiset(ys) && xs != []
    ensures ys != [] && xs[0] == ys[0]
  {
    assert xs[0] in multiset(ys);
    assert ys[0] in multiset(xs);
    var i :| 0 <= i < |ys| && ys[i] == xs[0];
    var j :| 0 <= j < |xs| && xs[j] == ys[0];
    hide EntryBefore;
    if i > 0 && j > 0 {
      EntryBeforeTransitive(sort, xs[0], ys[0], xs[0]);
      EntryBeforeIrreflexive(sort, xs[0]);
    }
  }

  method InsertEntry(sort: Sort, sorted: seq<Entry>, e: Entry) returns (more: seq<Entry>)
    requires Ordered(sort, sorted) && forall i :: 0 <= i < |sorted| ==> sorted[i].path != e.path
    ensures Ordered(sort, more) && multiset(more) == multiset(sorted) + multiset{e}
  {
    var at := 0;
    while at < |sorted| && EntryBefore(sort, sorted[at], e)
      invariant 0 <= at <= |sorted|
      invariant forall i :: 0 <= i < at ==> EntryBefore(sort, sorted[i], e)
    {
      at := at + 1;
    }
    forall i | at <= i < |sorted| ensures EntryBefore(sort, e, sorted[i]) {
      EntryBeforeTotal(sort, sorted[at], e);
      if i > at { EntryBeforeTransitive(sort, e, sorted[at], sorted[i]); }
    }
    InsertedOrdered(sort, sorted, at, e);
    more := sorted[..at] + [e] + sorted[at..];
  }

  lemma InsertedOrdered(sort: Sort, sorted: seq<Entry>, at: nat, e: Entry)
    requires Ordered(sort, sorted) && at <= |sorted|
    requires forall i :: 0 <= i < |sorted| ==>
      if i < at then EntryBefore(sort, sorted[i], e) else EntryBefore(sort, e, sorted[i])
    ensures Ordered(sort, sorted[..at] + [e] + sorted[at..])
    ensures multiset(sorted[..at] + [e] + sorted[at..]) == multiset(sorted) + multiset{e}
  {
    hide EntryBefore;
    assert sorted == sorted[..at] + sorted[at..];
  }

  method SortEntries(sort: Sort, all: seq<Entry>) returns (sorted: seq<Entry>)
    requires DistinctPaths(all)
    ensures SortedForm(sort, all, sorted)
  {
    hide EntryBefore, Ordered;
    sorted := [];
    var n := 0;
    assert Ordered(sort, []) by { NoneOrdered(sort); }
    while n < |all|
      invariant 0 <= n <= |all| && Ordered(sort, sorted) && multiset(sorted) == multiset(all[..n])
    {
      forall i | 0 <= i < |sorted| ensures sorted[i].path != all[n].path {
        assert sorted[i] in multiset(all[..n]);
      }
      sorted := InsertEntry(sort, sorted, all[n]);
      assert all[..n + 1] == all[..n] + [all[n]];
      n := n + 1;
    }
    assert all[..|all|] == all;
  }

  lemma NoneOrdered(sort: Sort)
    ensures Ordered(sort, [])
  {
  }

  // ---------------------------------------------------------------- one page

  function EntriesBytes(b: Budget, xs: seq<Entry>): nat {
    if xs == [] then 0 else EntriesBytes(b, xs[..|xs| - 1]) + b.entryBytes(xs[|xs| - 1])
  }

  predicate Fits(b: Budget, xs: seq<Entry>) {
    b.frame + EntriesBytes(b, xs) + (if xs == [] then 0 else |xs| - 1) <= b.max
  }

  function Remaining(sorted: seq<Entry>, cursor: Option<Cursor>): seq<Entry> {
    if sorted == [] then []
    else
      var last := sorted[|sorted| - 1];
      Remaining(sorted[..|sorted| - 1], cursor) + (if AfterCursor(cursor, last) then [last] else [])
  }

  /** How many of the remaining entries go on the page once `n` do: up to the limit, and up to the first that does
      not fit. */
  function Taken(remaining: seq<Entry>, limit: nat, b: Budget, n: nat): (taken: nat)
    requires n <= |remaining|
    ensures n <= taken <= |remaining|
    decreases |remaining| - n
  {
    if n == |remaining| || n >= limit || !Fits(b, remaining[..n + 1]) then n else Taken(remaining, limit, b, n + 1)
  }

  function PageOf(sort: Sort, remaining: seq<Entry>, limit: nat, b: Budget): Page {
    var n := Taken(remaining, limit, b, 0);
    Page(remaining[..n], n < |remaining|, if n < |remaining| && n > 0 then Some(CursorOf(sort, remaining[n - 1]))
         else None)
  }

  function PageAfter(sort: Sort, sorted: seq<Entry>, limit: nat, b: Budget, cursor: Option<Cursor>): Page {
    PageOf(sort, Remaining(sorted, cursor), limit, b)
  }

  method FilterAfter(sorted: seq<Entry>, cursor: Option<Cursor>) returns (remaining: seq<Entry>)
    ensures remaining == Remaining(sorted, cursor)
  {
    remaining := [];
    var n := 0;
    while n < |sorted|
      invariant 0 <= n <= |sorted| && remaining == Remaining(sorted[..n], cursor)
    {
      assert sorted[..n + 1][..n] == sorted[..n];
      if AfterCursor(cursor, sorted[n]) { remaining := remaining + [sorted[n]]; }
      n := n + 1;
    }
    assert sorted[..|sorted|] == sorted;
  }

  method TakePage(sort: Sort, remaining: seq<Entry>, limit: nat, b: Budget) returns (page: Page)
    ensures page == PageOf(sort, remaining, limit, b)
  {
    var entries: seq<Entry> := [];
    var n := 0;
    while n < |remaining|
      invariant 0 <= n <= |remaining| && entries == remaining[..n]
      invariant Taken(remaining, limit, b, 0) == Taken(remaining, limit, b, n)
    {
      if |entries| >= limit { break; }
      var candidate := entries + [remaining[n]];
      assert candidate == remaining[..n + 1];
      if !Fits(b, candidate) { break; }
      entries := candidate;
      n := n + 1;
    }
    var truncated := |entries| < |remaining|;
    var next := if truncated && |entries| > 0 then Some(CursorOf(sort, entries[|entries| - 1])) else None;
    page := Page(entries, truncated, next);
  }

  /** Two entries stand in the order asked for: by the bytes of their paths, or the latest first and paths of one
      time by their bytes. */
  predicate Stand(sort: Sort, a: Entry, b: Entry) {
    (sort.ByName? ==> Before(a.path, b.path)) &&
    (sort.ByModified? ==> a.modified >= b.modified && (a.modified == b.modified ==> Before(a.path, b.path)))
  }

  /** The entry stands behind the one the cursor was made of. */
  predicate Behind(cursor: Option<Cursor>, e: Entry) {
    cursor.Some? ==>
      var c := cursor.value;
      (c.sort.ByName? ==> Before(c.path, e.path)) &&
      (c.sort.ByModified? ==> c.modified >= e.modified && (c.modified == e.modified ==> Before(c.path, e.path)))
  }

  /** The page has entries of the listing behind the cursor, in order and within the limit; every other entry behind the
      cursor stands behind all of them, and there is one exactly when the page says so; the next cursor is made of the
      last entry. */
  ghost predicate PageRight(sort: Sort, all: seq<Entry>, limit: nat, cursor: Option<Cursor>, page: Page) {
    |page.entries| <= limit && (forall e :: e in page.entries ==> e in all && Behind(cursor, e)) &&
    (forall i, j :: 0 <= i < j < |page.entries| ==> Stand(sort, page.entries[i], page.entries[j])) &&
    (forall e, f :: e in all && Behind(cursor, e) && e !in page.entries && f in page.entries ==> Stand(sort, f, e)) &&
    (page.truncated <==> exists e :: e in all && Behind(cursor, e) && e !in page.entries) &&
    page.next ==
      if page.truncated && page.entries != [] then
        var last := page.entries[|page.entries| - 1];
        Some(Cursor(sort, last.path, last.modified))
      else None
  }

  lemma {:induction false} RemainingMeans(sort: Sort, sorted: seq<Entry>, cursor: Option<Cursor>)
    requires Ordered(sort, sorted)
    ensures Ordered(sort, Remaining(sorted, cursor))
    ensures forall e :: e in Remaining(sorted, cursor) <==> e in sorted && AfterCursor(cursor, e)
  {
    hide EntryBefore, AfterCursor;
    if sorted != [] {
      var front, last := sorted[..|sorted| - 1], sorted[|sorted| - 1];
      RemainingMeans(sort, front, cursor);
      assert sorted == front + [last];
      var rest := Remaining(front, cursor);
      forall i | 0 <= i < |rest| ensures EntryBefore(sort, rest[i], last) {
        assert rest[i] in front;
        var k :| 0 <= k < |front| && front[k] == rest[i];
        assert EntryBefore(sort, sorted[k], sorted[|sorted| - 1]);
      }
    }
  }

  lemma TakenWithin(remaining: seq<Entry>, limit: nat, b: Budget, n: nat)
    requires n <= |remaining| && n <= limit
    ensures Taken(remaining, limit, b, n) <= limit
    decreases |remaining| - n
  {
    hide Fits;
  }

  /** The same of what remains, and in terms of the order the loop uses. */
  ghost predicate RunRight(sort: Sort, rest: seq<Entry>, limit: nat, page: Page) {
    |page.entries| <= limit && page.entries <= rest &&
    (forall i, j :: 0 <= i < j < |page.entries| ==> EntryBefore(sort, page.entries[i], page.entries[j])) &&
    (forall e, f :: e in rest && e !in page.entries && f in page.entries ==> EntryBefore(sort, f, e)) &&
    (page.truncated <==> exists e :: e in rest && e !in page.entries) &&
    page.next ==
      if page.truncated && page.entries != [] then
        var last := page.entries[|page.entries| - 1];
        Some(Cursor(sort, last.path, last.modified))
      else None
  }

  lemma RunIsRight(sort: Sort, rest: seq<Entry>, limit: nat, b: Budget)
    requires Ordered(sort, rest)
    ensures RunRight(sort, rest, limit, PageOf(sort, rest, limit, b))
  {
    var n := Taken(rest, limit, b, 0);
    TakenWithin(rest, limit, b, 0);
    RestStands(sort, rest, n);
    hide Taken, EntryBefore;
    forall i, j | 0 <= i < j < n ensures EntryBefore(sort, rest[..n][i], rest[..n][j]) {
      assert EntryBefore(sort, rest[i], rest[j]);
    }
  }

  lemma PageIsRight(sort: Sort, all: seq<Entry>, sorted: seq<Entry>, limit: nat, b: Budget, cursor: Option<Cursor>)
    requires SortedForm(sort, all, sorted) && (cursor.Some? ==> cursor.value.sort == sort)
    ensures PageRight(sort, all, limit, cursor, PageAfter(sort, sorted, limit, b, cursor))
  {
    var rest := Remaining(sorted, cursor);
    RemainingMeans(sort, sorted, cursor);
    RunIsRight(sort, rest, limit, b);
    forall e ensures e in rest <==> e in all && Behind(cursor, e) {
      assert e in all <==> e in multiset(all);
      assert e in sorted <==> e in multiset(sorted);
    }
    var page := PageAfter(sort, sorted, limit, b, cursor);
    hide PageAfter, PageOf, Remaining, AfterCursor, Behind, SortedForm, Ordered;
    forall e | e in page.entries ensures e in rest {}
    forall a, c | EntryBefore(sort, a, c) ensures Stand(sort, a, c) {}
    hide EntryBefore, Stand;
  }

  lemma RestStands(sort: Sort, rest: seq<Entry>, n: nat)
    requires Ordered(sort, rest) && n <= |rest|
    ensures forall e, f :: e in rest && e !in rest[..n] && f in rest[..n] ==> EntryBefore(sort, f, e)
    ensures n < |rest| <==> exists e :: e in rest && e !in rest[..n]
  {
    if n < |rest| {
      forall i | 0 <= i < n ensures rest[i] != rest[n] { EntryBeforeIrreflexive(sort, rest[n]); }
      assert rest[n] in rest && rest[n] !in rest[..n];
    }
    hide EntryBefore;
    forall e, f | e in rest && e !in rest[..n] && f in rest[..n] ensures EntryBefore(sort, f, e) {
      var i :| 0 <= i < |rest| && rest[i] == e;
      var j :| 0 <= j < n && rest[j] == f;
      assert i < n ==> rest[i] in rest[..n];
    }
  }

  /** One call: the page depends on the listing, not on the order in which the directory gives it. */
  method ListPage(sort: Sort, all: seq<Entry>, limit: nat, cursor: Option<Cursor>, b: Budget)
    returns (page: Option<Page>)
    requires DistinctPaths(all)
    ensures page.None? <==> limit == 0 || limit > 10_000 || (cursor.Some? && cursor.value.sort != sort)
    ensures page.Some? ==> forall sorted :: SortedForm(sort, all, sorted) ==>
      page.value == PageAfter(sort, sorted, limit, b, cursor)
    ensures page.Some? ==> PageRight(sort, all, limit, cursor, page.value)
  {
    if limit == 0 || limit > MAX_LIMIT { return None; }
    if cursor.Some? && cursor.value.sort != sort { return None; }
    var sorted := SortEntries(sort, all);
    var remaining := FilterAfter(sorted, cursor);
    var taken := TakePage(sort, remaining, limit, b);
    forall other | SortedForm(sort, all, other) ensures other == sorted { SortedFormUnique(sort, other, sorted); }
    PageIsRight(sort, all, sorted, limit, b, cursor);
    return Some(taken);
  }

  // ---------------------------------------------------------------- following the cursor

  /** Behind the cursor of an entry come exactly the entries after it. */
  lemma {:induction false} RemainingAfter(sort: Sort, sorted: seq<Entry>, k: nat, n: nat)
    requires Ordered(sort, sorted) && 0 < k <= n <= |sorted|
    ensures Remaining(sorted[..n], Some(CursorOf(sort, sorted[k - 1]))) == sorted[k..n]
    decreases n
  {
    var cursor := Some(CursorOf(sort, sorted[k - 1]));
    if n > k {
      RemainingAfter(sort, sorted, k, n - 1);
      assert sorted[..n][..n - 1] == sorted[..n - 1];
    } else {
      NoneAfter(sort, sorted, k, n);
    }
  }

  lemma {:induction false} NoneAfter(sort: Sort, sorted: seq<Entry>, k: nat, n: nat)
    requires Ordered(sort, sorted) && n <= k <= |sorted| && 0 < k
    ensures Remaining(sorted[..n], Some(CursorOf(sort, sorted[k - 1]))) == []
  {
    if n > 0 {
      NoneAfter(sort, sorted, k, n - 1);
      assert sorted[..n][..n - 1] == sorted[..n - 1];
      if EntryBefore(sort, sorted[k - 1], sorted[n - 1]) {
        if n < k { EntryBeforeTransitive(sort, sorted[n - 1], sorted[k - 1], sorted[n - 1]); }
        EntryBeforeIrreflexive(sort, sorted[n - 1]);
      }
    }
  }

  lemma {:induction false} AllRemain(sorted: seq<Entry>)
    ensures Remaining(sorted, None) == sorted
  {
    if sorted != [] { AllRemain(sorted[..|sorted| - 1]); }
  }

  function CursorAt(sort: Sort, sorted: seq<Entry>, k: nat): Option<Cursor>
    requires k <= |sorted|
  {
    if k == 0 then None else Some(CursorOf(sort, sorted[k - 1]))
  }

  lemma RemainingAt(sort: Sort, sorted: seq<Entry>, k: nat)
    requires Ordered(sort, sorted) && k <= |sorted|
    ensures Remaining(sorted, CursorAt(sort, sorted, k)) == sorted[k..]
  {
    assert sorted[..|sorted|] == sorted;
    if k == 0 { AllRemain(sorted); } else { RemainingAfter(sort, sorted, k, |sorted|); }
  }

  /** Where the page that starts at `k` ends. */
  function PageEnd(sorted: seq<Entry>, limit: nat, b: Budget, k: nat): (end: nat)
    requires k <= |sorted|
    ensures k <= end <= |sorted|
  {
    k + Taken(sorted[k..], limit, b, 0)
  }

  /** The page behind the cursor of position `k` is a run of entries from `k` on, and its cursor is that of its end. */
  lemma PageIsRun(sort: Sort, sorted: seq<Entry>, limit: nat, b: Budget, k: nat)
    requires Ordered(sort, sorted) && k <= |sorted|
    ensures
      var end := PageEnd(sorted, limit, b, k);
      PageAfter(sort, sorted, limit, b, CursorAt(sort, sorted, k)) ==
        Page(sorted[k..end], end < |sorted|, if k < end < |sorted| then CursorAt(sort, sorted, end) else None)
  {
    RemainingAt(sort, sorted, k);
    var n := Taken(sorted[k..], limit, b, 0);
    assert sorted[k..][..n] == sorted[k..k + n];
    if 0 < n { assert sorted[k..][n - 1] == sorted[k + n - 1]; }
  }

  /** All entries a client sees that follows `next_cursor` from position `k` until it is absent. */
  ghost function Followed(sort: Sort, sorted: seq<Entry>, limit: nat, b: Budget, k: nat): seq<Entry>
    requires Ordered(sort, sorted) && k <= |sorted|
    decreases |sorted| - k
  {
    PageIsRun(sort, sorted, limit, b, k);
    var page := PageAfter(sort, sorted, limit, b, CursorAt(sort, sorted, k));
    if page.next.None? then page.entries
    else page.entries + Followed(sort, sorted, limit, b, PageEnd(sorted, limit, b, k))
  }

  lemma {:induction false} BytesOfPart(b: Budget, xs: seq<Entry>, i: nat)
    requires i < |xs|
    ensures EntriesBytes(b, [xs[i]]) <= EntriesBytes(b, xs)
  {
    if i < |xs| - 1 { BytesOfPart(b, xs[..|xs| - 1], i); }
    assert EntriesBytes(b, [xs[i]]) == b.entryBytes(xs[i]) by { assert [xs[i]][..0] == []; }
  }

  lemma {:induction false} TakenFit(remaining: seq<Entry>, limit: nat, b: Budget, n: nat)
    requires n <= |remaining| && (n > 0 ==> Fits(b, remaining[..n]))
    ensures var taken := Taken(remaining, limit, b, n); taken > 0 ==> Fits(b, remaining[..taken])
    decreases |remaining| - n
  {
    if n < |remaining| && n < limit && Fits(b, remaining[..n + 1]) { TakenFit(remaining, limit, b, n + 1); }
  }

  predicate AllFitAlone(b: Budget, xs: seq<Entry>) {
    forall i :: 0 <= i < |xs| ==> Fits(b, [xs[i]])
  }

  /** What goes on a page fits alone. */
  lemma PageEntriesFit(sorted: seq<Entry>, limit: nat, b: Budget, k: nat)
    requires k <= |sorted|
    ensures AllFitAlone(b, sorted[k..PageEnd(sorted, limit, b, k)])
  {
    var end := PageEnd(sorted, limit, b, k);
    TakenFit(sorted[k..], limit, b, 0);
    assert sorted[k..][..end - k] == sorted[k..end];
    forall i | 0 <= i < end - k ensures Fits(b, [sorted[k..end][i]]) {
      BytesOfPart(b, sorted[k..end], i);
    }
  }

  lemma PageStarts(sorted: seq<Entry>, limit: nat, b: Budget, k: nat)
    requires k < |sorted| && limit >= 1
    ensures PageEnd(sorted, limit, b, k) > k <==> Fits(b, [sorted[k]])
  {
    assert sorted[k..][..1] == [sorted[k]];
  }

  /** Following the cursor ends, and it gives every entry exactly once and in order exactly when each entry fits the
      budget alone. */
  lemma {:induction false} FollowedIsAll(sort: Sort, sorted: seq<Entry>, limit: nat, b: Budget, k: nat)
    requires Ordered(sort, sorted) && k <= |sorted| && limit >= 1
    ensures Followed(sort, sorted, limit, b, k) == sorted[k..] <==> AllFitAlone(b, sorted[k..])
    ensures Followed(sort, sorted, limit, b, k) <= sorted[k..]
    decreases |sorted| - k
  {
    hide Fits, PageAfter, Taken;
    PageIsRun(sort, sorted, limit, b, k);
    PageEntriesFit(sorted, limit, b, k);
    var end := PageEnd(sorted, limit, b, k);
    assert sorted[k..] == sorted[k..end] + sorted[end..];
    if k < |sorted| { PageStarts(sorted, limit, b, k); }
    if k < end < |sorted| { FollowedIsAll(sort, sorted, limit, b, end); }
    FitAloneConcat(b, sorted[k..end], sorted[end..]);
  }

  lemma FitAloneConcat(b: Budget, xs: seq<Entry>, ys: seq<Entry>)
    ensures AllFitAlone(b, xs + ys) <==> AllFitAlone(b, xs) && AllFitAlone(b, ys)
  {
    if AllFitAlone(b, xs + ys) {
      forall i | 0 <= i < |xs| ensures Fits(b, [xs[i]]) { assert (xs + ys)[i] == xs[i]; }
      forall i | 0 <= i < |ys| ensures Fits(b, [ys[i]]) { assert (xs + ys)[|xs| + i] == ys[i]; }
    }
  }

  // ---------------------------------------------------------------- paths of the operating system

  /** Linux accepts paths of fewer than 4096 bytes. A directory gets a '/', and a byte of a name that is not UTF-8
      becomes three. */
  const LONGEST_PATH: nat := 3 * 4096

  /** In JSON a byte of a path takes at most six, and the other fields of an entry or of the response stay short. */
  ghost predicate JsonSized(b: Budget) {
    b.frame <= 1_000 && b.max >= 512 * 1024 && forall e :: b.entryBytes(e) <= 6 * |e.path| + 200
  }

  /** Every entry the operating system can give fits alone: following the cursor gives the whole listing. */
  lemma OrdinaryPathsComplete(sort: Sort, sorted: seq<Entry>, limit: nat, b: Budget)
    requires Ordered(sort, sorted) && limit >= 1 && JsonSized(b)
    requires forall i :: 0 <= i < |sorted| ==> |sorted[i].path| <= LONGEST_PATH
    ensures Followed(sort, sorted, limit, b, 0) == sorted
  {
    forall i | 0 <= i < |sorted| ensures Fits(b, [sorted[i]]) {
      assert [sorted[i]][..0] == [];
    }
    assert sorted[0..] == sorted;
    FollowedIsAll(sort, sorted, limit, b, 0);
  }
}
