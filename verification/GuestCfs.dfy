/** The agent's exporter, `export_workspace_file` of agent/src/cfs.rs, against the host's. */
module GuestCfs {
  import opened Prelude
  import opened Bytes
  import opened CfsCodec
  import opened Cfs
  import opened CfsRoundTrip

  /** The agent refuses an absolute target and one with a '..' part, wherever it leads. */
  predicate PlainTarget(target: seq<byte>) {
    !(target != [] && target[0] == SLASH) && [DOT, DOT] !in Split(target)
  }

  predicate PlainLink(t: Tree, p: Path)
    requires p in t.nodes
  {
    t.nodes[p].Symlink? ==> PlainTarget(t.nodes[p].target)
  }

  ghost predicate PlainLinks(t: Tree) {
    forall p :: p in t.nodes ==> PlainLink(t, p)
  }

  lemma {:induction false} NoParentNoClimb(depth: nat, parts: seq<seq<byte>>)
    requires [DOT, DOT] !in parts
    ensures !Climbs(depth, parts)
    decreases |parts|
  {
    if parts != [] {
      assert parts[0] in parts && forall part :: part in parts[1..] ==> part in parts;
      NoParentNoClimb(depth, parts[1..]);
      NoParentNoClimb(depth + 1, parts[1..]);
    }
  }

  /** What the agent accepts, the host accepts under any root, and the extractor accepts too. */
  lemma PlainIsInside(root: seq<seq<byte>>, p: Path, target: seq<byte>)
    requires PlainTarget(target)
    ensures !Escapes(root, p, target) && !LinkClimbs(p, target)
  {
    hide Split, Climbs, Normalize;
    NoParentNoClimb(|ParentParts(p)|, Split(target));
    NoClimbInside(root, root + ParentParts(p), Split(target));
  }

  ghost predicate AllPlain(t: Tree, paths: seq<Path>) {
    forall p :: p in paths ==> p in t.nodes && PlainLink(t, p)
  }

  /** The agent's archive of the given paths after what is already written. */
  ghost function GuestFrom(t: Tree, root: seq<seq<byte>>, paths: seq<Path>, out: seq<byte>): Option<seq<byte>>
    requires WellFormed(t) && forall p :: p in paths ==> p in t.nodes
  {
    if AllPlain(t, paths) && ExportFrom(t, root, paths, out).Ok? then Some(ExportFrom(t, root, paths, out).value)
    else None
  }

  lemma GuestStep(t: Tree, root: seq<seq<byte>>, paths: seq<Path>, n: nat, out: seq<byte>)
    requires WellFormed(t) && n < |paths| && forall p :: p in paths ==> p in t.nodes
    ensures
      var p := paths[n];
      var entry := EntryGiven(t, p, Earlier(t, p), !PlainLink(t, p));
      GuestFrom(t, root, paths[n..], out) ==
        if entry.Err? || |out| + |EncodeEntry(entry.value)| > MAX_TREE_BYTES then None
        else GuestFrom(t, root, paths[n + 1..], out + EncodeEntry(entry.value))
  {
    hide PlainTarget, Escapes, IsAncestor, PathOk, EncodeEntry, Fitted, Earlier;
    var p := paths[n];
    assert paths[n..][0] == p && paths[n..][1..] == paths[n + 1..];
    if t.nodes[p].Symlink? && PlainLink(t, p) { PlainIsInside(root, p, t.nodes[p].target); }
    assert AllPlain(t, paths[n..]) <==> PlainLink(t, p) && AllPlain(t, paths[n + 1..]) by {
      forall q ensures q in paths[n..] <==> q == p || q in paths[n + 1..] { assert paths[n..] == [p] + paths[n + 1..]; }
    }
  }

  /** Both exporters write the same archive; the agent fails where the host does and on links with a '..' part. */
  method ExportWorkspaceFile(t: Tree, ghost root: seq<seq<byte>>) returns (archive: Option<seq<byte>>)
    requires WellFormed(t)
    ensures archive == if PlainLinks(t) && Export(t, root).Ok? then Some(Export(t, root).value) else None
    ensures archive.Some? ==> forall p :: p in t.nodes && t.nodes[p].Symlink? ==>
      (t.nodes[p].target == [] || t.nodes[p].target[0] != 47) && [46, 46] !in Split(t.nodes[p].target)
  {
    LinksMean(t);
    hide LinksOk, EncodeEntry, PlainLink, ExportFrom, GuestFrom, EntryGiven, Earlier, PathOk, IsAncestor, Sorted, Taken;
    var out := MAGIC;
    var hardLinks: map<InodeId, Path> := map[];
    var paths := CollectEntries(t);
    var n := 0;
    NoLinksYet(t, paths);
    GuestWhole(t, root, paths);
    assert paths[0..] == paths;
    while n < |paths|
      invariant 0 <= n <= |paths| && LinksOk(t, Taken(paths, n), hardLinks)
      invariant GuestFrom(t, root, paths, MAGIC) == GuestFrom(t, root, paths[n..], out)
    {
      GuestStep(t, root, paths, n, out);
      var p := paths[n];
      assert p in t.nodes;
      var entry, links := NextEntry(t, paths, n, p, !PlainLink(t, p), hardLinks);
      if entry.Err? { return None; }
      if |out| + |EncodeEntry(entry.value)| > MAX_TREE_BYTES { return None; }
      out := out + EncodeEntry(entry.value);
      hardLinks := links;
      n := n + 1;
    }
    assert paths[n..] == [];
    NothingMore(t, root, out);
    return Some(out);
  }

  lemma LinksMean(t: Tree)
    ensures PlainLinks(t) ==> forall p :: p in t.nodes && t.nodes[p].Symlink? ==>
      (t.nodes[p].target == [] || t.nodes[p].target[0] != 47) && [46, 46] !in Split(t.nodes[p].target)
  {
    hide Split;
    if PlainLinks(t) {
      forall p | p in t.nodes && t.nodes[p].Symlink?
        ensures t.nodes[p].target == [] || t.nodes[p].target[0] != 47
        ensures [46, 46] !in Split(t.nodes[p].target)
      {
        assert PlainLink(t, p);
      }
    }
  }

  lemma GuestWhole(t: Tree, root: seq<seq<byte>>, paths: seq<Path>)
    requires WellFormed(t) && paths == SortedKeys(t.nodes.Keys)
    ensures GuestFrom(t, root, paths, MAGIC) == if PlainLinks(t) && Export(t, root).Ok? then Some(Export(t, root).value)
                                                else None
  {
    hide PlainLink, ExportFrom, PathOk, IsAncestor, Sorted;
  }

  lemma NothingMore(t: Tree, root: seq<seq<byte>>, out: seq<byte>)
    requires WellFormed(t)
    ensures GuestFrom(t, root, [], out) == Some(out)
  {
  }

  lemma NoLinksYet(t: Tree, paths: seq<Path>)
    ensures LinksOk(t, Taken(paths, 0), map[])
  {
  }

  /** Every archive the agent exports can be extracted, and extraction rebuilds the tree. */
  lemma GuestArchivesExtract(t: Tree, root: seq<seq<byte>>, host: Host)
    requires WellFormed(t) && PlainLinks(t) && Export(t, root).Ok? && FreshName(host, t)
    ensures Extract(Export(t, root).value, host).Ok? && SameTree(t, Extract(Export(t, root).value, host).value, host)
  {
    hide SameTree, Extract, Export, FreshName, PlainTarget;
    forall p | p in t.nodes ensures !Climbing(t, p) {
      assert PlainLink(t, p);
      if t.nodes[p].Symlink? { PlainIsInside(root, p, t.nodes[p].target); }
    }
    ExtractRebuilds(t, root, host);
  }
}
