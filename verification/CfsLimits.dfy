/** Trees whose snapshots do not come back: one input for each way the round trip of `exportCfs` and `extractCfs`
    fails. */
module CfsLimits {
  import opened Prelude
  import opened Bytes
  import opened CfsCodec
  import opened Cfs
  import opened CfsRoundTrip

  // ---------------------------------------------------------------- trees of one path

  lemma OnlyKey(p: Path)
    ensures SortedKeys({p}) == [p]
  {
    SortedUnique(SortedKeys({p}), [p]);
  }

  lemma ExportsOne(t: Tree, root: seq<seq<byte>>, p: Path)
    requires WellFormed(t) && t.nodes.Keys == {p} && EntryOf(t, root, p).Ok?
    requires |p| + |EntryOf(t, root, p).value.payload| < 1000
    ensures Export(t, root).Ok?
  {
    OnlyKey(p);
    var e := EntryOf(t, root, p).value;
    assert e.path == p;
    hide EntryOf, EncodeEntry;
    assert [p][1..] == [];
    assert ExportFrom(t, root, [], MAGIC + EncodeEntry(e)).Ok?;
  }

  lemma RoundFits(mtime: int)
    requires 0 <= mtime < 1_000_000_000_000_000
    ensures 0 <= RoundMs(mtime) < 0x1_0000_0000_0000_0000
  {
  }

  // ---------------------------------------------------------------- a link that leaves the root and comes back

  lemma SplitCons(b: byte, rest: seq<byte>)
    ensures Split([b] + rest) == if b == SLASH then [[]] + Split(rest) else [[b] + Split(rest)[0]] + Split(rest)[1..]
  {
    assert ([b] + rest)[1..] == rest;
  }

  lemma EmptySplit()
    ensures Split([]) == [[]]
  {
  }

  lemma TargetParts(p: Path, target: seq<byte>)
    requires p == [108] && target == [DOT, DOT, SLASH, 119]
    ensures Split(p) == [p] && Split(target) == [[DOT, DOT], [119]]
  {
    hide Split;
    assert Split([]) == [[]] by { EmptySplit(); }
    SplitCons(108, []);
    SplitCons(119, []);
    SplitCons(SLASH, [119]);
    SplitCons(DOT, [SLASH, 119]);
    SplitCons(DOT, [DOT, SLASH, 119]);
    assert [DOT, SLASH, 119] == [DOT] + [SLASH, 119] && target == [DOT] + [DOT, SLASH, 119];
    assert p == [108] + [] && [119] == [119] + [] && [SLASH, 119] == [SLASH] + [119];
    var e: seq<byte> := [];
    assert [DOT] + [DOT] == [DOT, DOT] && [DOT] + e == [DOT];
    assert [e, [119]][0] == e && [e, [119]][1..] == [[119]] && [[DOT], [119]][1..] == [[119]];
    assert Split([119]) == [[119]] && Split([SLASH, 119]) == [e, [119]] && Split([DOT, SLASH, 119]) == [[DOT], [119]];
  }

  function LinkTree(mtime: int): Tree {
    Tree(map[[108] := Symlink([DOT, DOT, SLASH, 119], mtime)], map[])
  }

  lemma LinkEntryAccepted(mtime: int)
    requires 0 <= mtime < 1_000_000_000_000_000
    ensures
      var t := LinkTree(mtime);
      WellFormed(t) && EntryOf(t, [[119]], [108]).Ok? &&
      EntryOf(t, [[119]], [108]).value.payload == [DOT, DOT, SLASH, 119] &&
      Climbing(t, [108])
  {
    hide Split, RoundMs;
    var p: Path := [108];
    var target: seq<byte> := [DOT, DOT, SLASH, 119];
    var root: seq<seq<byte>> := [[119]];
    TargetParts(p, target);
    assert ParentParts(p) == [] && root + [] == root;
    assert Normalize(root, [[DOT, DOT], [119]]) == Normalize([], [[119]]) == Normalize(root, []);
    RoundFits(mtime);
  }

  /** In the workspace `/w`, the link `l` to `../w` leaves the root and comes back by its name: the exporter's check
      accepts it, and no host extracts the archive. */
  lemma ClimbingTargetExported(mtime: int, host: Host)
    requires 0 <= mtime < 1_000_000_000_000_000 && FreshName(host, LinkTree(mtime))
    ensures
      var t := LinkTree(mtime);
      WellFormed(t) && Export(t, [[119]]).Ok? && Extract(Export(t, [[119]]).value, host).Err?
  {
    hide EntryOf, WellFormed, Climbing, FreshName, Export, Extract;
    var t := LinkTree(mtime);
    LinkEntryAccepted(mtime);
    ExportsOne(t, [[119]], [108]);
    ExtractRebuilds(t, [[119]], host);
  }

  // ---------------------------------------------------------------- a sticky bit

  /** The directory `d` with mode 1755. */
  function StickyTree(mtime: int): Tree {
    Tree(map[[100] := Dir(1005, mtime)], map[])
  }

  lemma StickyEntryAccepted(mtime: int)
    requires 0 <= mtime < 1_000_000_000_000_000
    ensures
      var t := StickyTree(mtime);
      WellFormed(t) && EntryOf(t, [[119]], [100]).Ok? && EntryOf(t, [[119]], [100]).value.payload == [] &&
      Sticky(t, [100])
  {
    hide RoundMs, Split;
    SplitCons(100, []);
    EmptySplit();
    assert [100] + [] == [100];
    RoundFits(mtime);
  }

  /** A directory of mode 1755 comes back as 755: exporting again gives other bytes. */
  lemma StickyBitLost(mtime: int, root': seq<seq<byte>>, host: Host)
    requires 0 <= mtime < 1_000_000_000_000_000 && FreshName(host, StickyTree(mtime)) && SmallSkew(host)
    ensures
      var t := StickyTree(mtime);
      WellFormed(t) && Export(t, [[119]]).Ok? && Extract(Export(t, [[119]]).value, host).Ok? &&
      WellFormed(Extract(Export(t, [[119]]).value, host).value) &&
      Export(Extract(Export(t, [[119]]).value, host).value, root') != Export(t, [[119]])
  {
    hide EntryOf, WellFormed, FreshName, Export, Extract, Sticky, SmallSkew;
    var t := StickyTree(mtime);
    StickyEntryAccepted(mtime);
    ExportsOne(t, [[119]], [100]);
    ReExport(t, [[119]], root', host);
  }
}
