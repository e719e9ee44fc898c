/** When a tree can be archived, and what any archive at all can make of the staging directory. */
module CfsSafety {
  import opened Prelude
  import opened Bytes
  import opened CfsCodec
  import opened Cfs
  import opened CfsRoundTrip

  // ---------------------------------------------------------------- paths and rounding in plain terms

  lemma RoundedNear(ns: int)
    ensures ns >= -500_000 ==> -500_000 <= RoundMs(ns) - ns <= 500_000
    ensures RoundMs(ns) % 1_000_000 == 0
  {
    var q := TruncatedDiv(ns + 500_000, 1_000_000);
    assert RoundMs(ns) == q * 1_000_000;
    assert (q * 1_000_000) % 1_000_000 == 0;
  }

  // ---------------------------------------------------------------- when a tree can be archived

  /** Neither setuid, octal 4000, nor setgid, octal 2000. */
  predicate PlainMode(mode: nat) {
    (mode / 2048) % 2 == 0 && (mode / 1024) % 2 == 0
  }

  lemma PlainModeMeans(mode: nat)
    ensures PlainMode(mode) <==> !SetId(PermissionBits(mode))
  {
    var high, low := mode / 4096, mode % 4096;
    assert mode == 4096 * high + low;
    assert mode / 1024 == 4 * high + low / 1024 && mode / 2048 == 2 * high + low / 2048;
    assert (mode / 1024) % 2 == (low / 1024) % 2 && (mode / 2048) % 2 == (low / 2048) % 2;
    assert low / 1024 == 2 * (low / 2048) + (low / 1024) % 2;
  }

  /** A time from 1.5 milliseconds before 1970 on that rounds to what 64 bits hold. */
  predicate TimeFits(ns: int) {
    -1_500_000 < ns && (ns + 500_000) / 1_000_000 * 1_000_000 < 0x1_0000_0000_0000_0000
  }

  lemma TimeFitsMeans(ns: int)
    ensures TimeFits(ns) <==> 0 <= RoundMs(ns) < 0x1_0000_0000_0000_0000
  {
    if ns + 500_000 < 0 {
      var d := -(ns + 500_000);
      assert RoundMs(ns) == -(d / 1_000_000) * 1_000_000;
      assert d / 1_000_000 == 0 <==> d < 1_000_000;
    }
  }

  /** The target is relative and leads, from the directory of the link, to the root or below it. */
  predicate StaysIn(root: seq<seq<byte>>, p: Path, target: seq<byte>) {
    (target == [] || target[0] != SLASH) && root <= Normalize(root + ParentParts(p), Split(target))
  }

  /** What a snapshot demands of one path. */
  predicate NodeFits(t: Tree, root: seq<seq<byte>>, p: Path)
    requires p in t.nodes && (t.nodes[p].File? ==> t.nodes[p].inode in t.inodes)
  {
    |p| < 0x1_0000_0000 &&
    match t.nodes[p]
    case Dir(mode, mtime) => PlainMode(mode) && TimeFits(mtime)
    case Symlink(target, mtime) => StaysIn(root, p, target) && TimeFits(mtime)
    case File(i) =>
      var inode := t.inodes[i];
      PlainMode(inode.mode) && |inode.content| <= 256 * 1024 * 1024 && TimeFits(inode.mtime)
    case Special(_, _) => false
  }

  /** The entry of a path, field by field: type, permission bits, rounded time, and the contents, the target, or the
      first path of the same file. */
  ghost predicate EntryFields(t: Tree, p: Path, e: Entry)
    requires p in t.nodes && (t.nodes[p].File? ==> t.nodes[p].inode in t.inodes)
  {
    e.path == p &&
    match t.nodes[p]
    case Dir(mode, mtime) => e.kind == 1 && e.mode == mode % 4096 && e.mtime == RoundMs(mtime) && e.payload == []
    case Symlink(target, mtime) => e.kind == 3 && e.mode == 511 && e.mtime == RoundMs(mtime) && e.payload == target
    case File(i) =>
      var inode := t.inodes[i];
      e.mode == inode.mode % 4096 && e.mtime == RoundMs(inode.mtime) &&
      if forall q :: q in t.nodes && t.nodes[q] == File(i) ==> q == p || Before(p, q)
      then e.kind == 2 && e.payload == inode.content
      else e.kind == 4 && e.payload in t.nodes && t.nodes[e.payload] == File(i) &&
           forall q :: q in t.nodes && t.nodes[q] == File(i) ==> q == e.payload || Before(e.payload, q)
    case Special(_, _) => false
  }

  /** A path gets its entry exactly when the snapshot's demands are met. */
  lemma EntryExactly(t: Tree, root: seq<seq<byte>>, p: Path)
    requires WellFormed(t) && p in t.nodes
    ensures EntryOf(t, root, p).Ok? <==> NodeFits(t, root, p)
    ensures EntryOf(t, root, p).Ok? ==> EntryFields(t, p, EntryOf(t, root, p).value)
  {
    hide WellFormed, RoundMs, TimeFits, SetId, PlainMode, Split, Normalize;
    assert t.nodes[p].File? ==> t.nodes[p].inode in t.inodes by { FilesHaveInodes(t, p); }
    match t.nodes[p]
    case Dir(mode, mtime) =>
      PlainModeMeans(mode);
      TimeFitsMeans(mtime);
    case Symlink(_, mtime) => TimeFitsMeans(mtime);
    case File(i) =>
      PlainModeMeans(t.inodes[i].mode);
      TimeFitsMeans(t.inodes[i].mtime);
      FirstIsLeast(t, p, i);
    case Special(_, _) =>
  }

  lemma FilesHaveInodes(t: Tree, p: Path)
    requires WellFormed(t) && p in t.nodes
    ensures t.nodes[p].File? ==> t.nodes[p].inode in t.inodes
  {
  }

  lemma FirstIsLeast(t: Tree, p: Path, i: InodeId)
    requires p in t.nodes && t.nodes[p] == File(i)
    ensures FirstHolder(t, i) == p <==> forall q :: q in t.nodes && t.nodes[q] == File(i) ==> q == p || Before(p, q)
  {
    var first := FirstHolder(t, i);
    if Before(p, first) && Before(first, p) {
      BeforeTransitive(p, first, p);
      BeforeIrreflexive(p);
    }
    if Before(p, first) { BeforeIrreflexive(p); }
  }

  /** The bytes of the entries of the given paths: 25 for the fields of each, its path, and its payload. */
  ghost function EntriesSize(t: Tree, root: seq<seq<byte>>, paths: seq<Path>): nat
    requires WellFormed(t) && forall p :: p in paths ==> p in t.nodes && EntryOf(t, root, p).Ok?
    decreases |paths|
  {
    if paths == [] then 0
    else
      assert forall p :: p in paths[1..] ==> p in paths;
      25 + |paths[0]| + |EntryOf(t, root, paths[0]).value.payload| + EntriesSize(t, root, paths[1..])
  }

  ghost predicate AllFit(t: Tree, root: seq<seq<byte>>, paths: seq<Path>)
    requires WellFormed(t)
  {
    forall p :: p in paths ==> p in t.nodes && NodeFits(t, root, p)
  }

  lemma FitsIsEntry(t: Tree, root: seq<seq<byte>>, paths: seq<Path>)
    requires WellFormed(t) && AllFit(t, root, paths)
    ensures forall p :: p in paths ==> p in t.nodes && EntryOf(t, root, p).Ok? && EntryOf(t, root, p).value.path == p
  {
    hide PathOk, IsAncestor, EntryOf, NodeFits;
    forall p | p in paths ensures p in t.nodes && EntryOf(t, root, p).Ok? && EntryOf(t, root, p).value.path == p {
      EntryExactly(t, root, p);
    }
  }

  lemma {:induction false} ExportFromExactly(t: Tree, root: seq<seq<byte>>, paths: seq<Path>, out: seq<byte>)
    requires WellFormed(t) && (forall p :: p in paths ==> p in t.nodes) && |out| <= MAX_TREE_BYTES
    ensures ExportFrom(t, root, paths, out).Ok? ==> AllFit(t, root, paths)
    ensures AllFit(t, root, paths) ==>
      (forall p :: p in paths ==> EntryOf(t, root, p).Ok?) &&
      (ExportFrom(t, root, paths, out).Ok? <==> |out| + EntriesSize(t, root, paths) <= MAX_TREE_BYTES)
    decreases |paths|
  {
    hide PathOk, IsAncestor, EntryOf, NodeFits, EncodeEntry;
    if paths != [] {
      var rest := paths[1..];
      assert forall p :: p in rest ==> p in paths;
      assert forall p :: p in paths ==> p == paths[0] || p in rest;
      EntryExactly(t, root, paths[0]);
      if AllFit(t, root, paths) { FitsIsEntry(t, root, paths); }
      if EntryOf(t, root, paths[0]).Ok? {
        var more := EncodeEntry(EntryOf(t, root, paths[0]).value);
        if |out| + |more| <= MAX_TREE_BYTES { ExportFromExactly(t, root, rest, out + more); }
        else if AllFit(t, root, paths) { FitsIsEntry(t, root, rest); }
      }
    }
  }

  /** A tree is archived exactly when every path meets the demands and the archive is at most 1 GiB long. */
  lemma ExportsExactly(t: Tree, root: seq<seq<byte>>)
    requires WellFormed(t)
    ensures Export(t, root).Ok? ==> forall p :: p in t.nodes ==> NodeFits(t, root, p)
    ensures (forall p :: p in t.nodes ==> NodeFits(t, root, p)) ==>
      (forall p :: p in SortedKeys(t.nodes.Keys) ==> EntryOf(t, root, p).Ok?) &&
      (Export(t, root).Ok? <==> 7 + EntriesSize(t, root, SortedKeys(t.nodes.Keys)) <= 1024 * 1024 * 1024)
  {
    hide PathOk, IsAncestor, EntryOf, NodeFits, EncodeEntry, ExportFrom;
    ExportFromExactly(t, root, SortedKeys(t.nodes.Keys), MAGIC);
  }

  /** No archive has an absolute link. */
  lemma ExportedLinksAreRelative(t: Tree, root: seq<seq<byte>>, p: Path)
    requires WellFormed(t) && Export(t, root).Ok? && p in t.nodes && t.nodes[p].Symlink?
    ensures t.nodes[p].target == [] || t.nodes[p].target[0] != SLASH
  {
    hide WellFormed, Export;
    ExportsExactly(t, root);
    assert NodeFits(t, root, p);
  }

  // ---------------------------------------------------------------- paths of the staging directory

  lemma {:induction false} LastSlashIsLast(p: Path, k: nat)
    requires k < |p| && p[k] == SLASH
    ensures LastSlash(p).Some? && k <= LastSlash(p).value
    decreases |p|
  {
    if p[|p| - 1] != SLASH { LastSlashIsLast(p[..|p| - 1], k); }
  }

  /** Every directory above a path is its parent or above its parent. */
  lemma AboveParent(b: Path, p: Path)
    requires IsAncestor(b, p)
    ensures ParentOf(p).Some? && (b == ParentOf(p).value || IsAncestor(b, ParentOf(p).value))
  {
    LastSlashIsLast(p, |b|);
  }

  lemma {:induction false} SplitAtSlash(a: seq<byte>, rest: seq<byte>)
    ensures Split(a + [SLASH] + rest) == Split(a) + Split(rest)
    decreases |a|
  {
    var p := a + [SLASH] + rest;
    if a == [] {
      assert p[0] == SLASH && p[1..] == rest;
    } else {
      assert p[0] == a[0] && p[1..] == a[1..] + [SLASH] + rest;
      SplitAtSlash(a[1..], rest);
    }
  }

  lemma AncestorPathOk(a: Path, p: Path)
    requires IsAncestor(a, p) && PathOk(p)
    ensures PathOk(a)
  {
    var rest := p[|a| + 1..];
    assert p == a + [SLASH] + rest;
    SplitAtSlash(a, rest);
    forall part | part in Split(a) ensures !BadPart(part) { assert part in Split(p); }
  }

  // ---------------------------------------------------------------- what extraction keeps

  ghost predicate InDirectories(nodes: map<Path, Node>) {
    forall p, a :: p in nodes && IsAncestor(a, p) ==> a in nodes && nodes[a].Dir?
  }

  /** Directories may have appeared, and times of directories may have changed. */
  ghost predicate OnlyDirectories(nodes: map<Path, Node>, nodes': map<Path, Node>) {
    (forall q :: q in nodes ==> q in nodes' && if nodes[q].Dir? then nodes'[q].Dir? else nodes'[q] == nodes[q]) &&
    (forall q :: q in nodes' && q !in nodes ==> nodes'[q].Dir? && PathOk(q))
  }

  lemma TouchOnly(nodes: map<Path, Node>, p: Path, now: int)
    ensures OnlyDirectories(nodes, Touch(nodes, p, now)) && Touch(nodes, p, now).Keys == nodes.Keys
  {
  }

  lemma OnlyTransitive(n1: map<Path, Node>, n2: map<Path, Node>, n3: map<Path, Node>)
    requires OnlyDirectories(n1, n2) && OnlyDirectories(n2, n3)
    ensures OnlyDirectories(n1, n3)
  {
  }

  lemma OnlyKeepsInDirectories(nodes: map<Path, Node>, nodes': map<Path, Node>)
    requires InDirectories(nodes) && OnlyDirectories(nodes, nodes') && nodes'.Keys == nodes.Keys
    ensures InDirectories(nodes')
  {
  }

  lemma NewDirectory(nodes: map<Path, Node>, a: Path, node: Node)
    requires InDirectories(nodes) && a !in nodes && forall b :: IsAncestor(b, a) ==> b in nodes && nodes[b].Dir?
    ensures InDirectories(nodes[a := node])
  {
  }

  /** `mkdir` of the parents: every directory above the path is there afterwards. */
  lemma {:induction false} ParentsMade(nodes: map<Path, Node>, p: Path, now: int)
    requires InDirectories(nodes) && PathOk(p) && MakeParents(nodes, p, now).Ok?
    ensures
      var made := MakeParents(nodes, p, now).value;
      InDirectories(made) && OnlyDirectories(nodes, made) && forall b :: IsAncestor(b, p) ==> b in made && made[b].Dir?
    decreases |p|
  {
    hide PathOk, Touch, IsAncestor;
    var made := MakeParents(nodes, p, now).value;
    if ParentOf(p).Some? {
      var a := ParentOf(p).value;
      AncestorPathOk(a, p);
      if a !in nodes {
        AncestorShorter(a, p);
        ParentsMade(nodes, a, now);
        var before := MakeParents(nodes, a, now).value;
        var touched := Touch(before, a, now);
        TouchOnly(before, a, now);
        OnlyKeepsInDirectories(before, touched);
        if a in before {
          assert made == touched[a := Dir(PRIVATE_MODE, now)];
          assert OnlyDirectories(touched, made) && made.Keys == touched.Keys;
          OnlyKeepsInDirectories(touched, made);
        } else {
          NewDirectory(touched, a, Dir(PRIVATE_MODE, now));
        }
        OnlyTransitive(nodes, before, touched);
        OnlyTransitive(nodes, touched, made);
      }
    }
    forall b | IsAncestor(b, p) ensures b in made && made[b].Dir? { AboveParent(b, p); }
  }

  lemma AncestorShorter(a: Path, p: Path)
    requires IsAncestor(a, p)
    ensures |a| < |p|
  {
  }

  /** Every link of the tree is relative and leads to the directory of the tree or below it; a file has its inode, with
      as many links as it needs; nothing lies below a file or a link. */
  ghost predicate Safe(nodes: map<Path, Node>, inodes: map<InodeId, Inode>, root: seq<seq<byte>>) {
    WellFormed(Tree(nodes, inodes)) && (forall i :: i in inodes ==> inodes[i].nlink > 0) &&
    forall p :: p in nodes ==>
      !nodes[p].Special? && (nodes[p].Symlink? ==> StaysIn(root, p, nodes[p].target))
  }

  ghost predicate SafeStaging(st: Staging, host: Host) {
    Safe(st.nodes, st.inodes, host.staging) && forall i :: i in st.inodes ==> i < st.next
  }

  /** Adding a node at a new path below directories. */
  lemma AddSafe(nodes: map<Path, Node>, inodes: map<InodeId, Inode>, root: seq<seq<byte>>, p: Path, node: Node)
    requires Safe(nodes, inodes, root) && p !in nodes && PathOk(p) && !node.Special?
    requires forall b :: IsAncestor(b, p) ==> b in nodes && nodes[b].Dir?
    requires node.Symlink? ==> StaysIn(root, p, node.target) && 0 !in node.target
    requires node.File? ==>
      node.inode in inodes && forall q :: q in nodes && nodes[q] == node ==> inodes[node.inode].nlink > 1
    ensures Safe(nodes[p := node], inodes, root)
  {
    hide PathOk, StaysIn;
    NewDirectory(nodes, p, node);
  }

  lemma DirectoriesSafe(nodes: map<Path, Node>, nodes': map<Path, Node>, inodes: map<InodeId, Inode>,
                        root: seq<seq<byte>>)
    requires Safe(nodes, inodes, root) && OnlyDirectories(nodes, nodes') && InDirectories(nodes')
    ensures Safe(nodes', inodes, root)
  {
    hide PathOk, StaysIn, IsAncestor;
  }

  lemma InodeSafe(nodes: map<Path, Node>, inodes: map<InodeId, Inode>, root: seq<seq<byte>>, i: InodeId, inode: Inode)
    requires Safe(nodes, inodes, root) && inode.nlink > 0 && (i in inodes ==> inode.nlink >= inodes[i].nlink)
    ensures Safe(nodes, inodes[i := inode], root)
  {
    hide PathOk, StaysIn, IsAncestor;
  }

  lemma PlaceSafe(st: Staging, e: Entry, host: Host)
    requires SafeStaging(st, host) && e.path !in st.nodes && PathOk(e.path) && Place(st, e, host).Ok?
    requires forall b :: IsAncestor(b, e.path) ==> b in st.nodes && st.nodes[b].Dir?
    ensures SafeStaging(Place(st, e, host).value, host)
  {
    hide PathOk, IsAncestor, Touch, Split, Normalize, Safe, WellFormed, StoredTime, Rwx;
    var nodes := Touch(st.nodes, e.path, host.now);
    TouchOnly(st.nodes, e.path, host.now);
    SafeInDirectories(st.nodes, st.inodes, host.staging);
    OnlyKeepsInDirectories(st.nodes, nodes);
    DirectoriesSafe(st.nodes, nodes, st.inodes, host.staging);
    SafeFiles(nodes, st.inodes, host.staging);
    if e.kind == TYPE_DIRECTORY {
      AddSafe(nodes, st.inodes, host.staging, e.path, Dir(Rwx(e.mode), host.now));
    } else if e.kind == TYPE_FILE {
      var inode := Inode(Rwx(e.mode), StoredTime(host, e.mtime), 1, e.payload);
      InodeSafe(nodes, st.inodes, host.staging, st.next, inode);
      AddSafe(nodes, st.inodes[st.next := inode], host.staging, e.path, File(st.next));
    } else if e.kind == TYPE_SYMLINK {
      AddSafe(nodes, st.inodes, host.staging, e.path, Symlink(e.payload, StoredTime(host, e.mtime)));
    } else {
      var i := st.nodes[e.payload].inode;
      var inode := st.inodes[i].(mode := Rwx(e.mode), mtime := StoredTime(host, e.mtime),
                                 nlink := st.inodes[i].nlink + 1);
      InodeSafe(nodes, st.inodes, host.staging, i, inode);
      AddSafe(nodes, st.inodes[i := inode], host.staging, e.path, File(i));
    }
  }

  lemma SafeInDirectories(nodes: map<Path, Node>, inodes: map<InodeId, Inode>, root: seq<seq<byte>>)
    requires Safe(nodes, inodes, root)
    ensures InDirectories(nodes)
  {
  }

  lemma SafeFiles(nodes: map<Path, Node>, inodes: map<InodeId, Inode>, root: seq<seq<byte>>)
    requires Safe(nodes, inodes, root)
    ensures forall p :: p in nodes && nodes[p].File? ==> nodes[p].inode in inodes
    ensures forall i :: i in inodes ==> inodes[i].nlink > 0
  {
  }

  lemma ApplySafe(st: Staging, e: Entry, host: Host)
    requires SafeStaging(st, host) && PathOk(e.path) && ApplyEntry(st, e, host).Ok?
    ensures SafeStaging(ApplyEntry(st, e, host).value, host)
  {
    hide PathOk, IsAncestor, Place, MakeParents, Safe, UnderSymlink;
    SafeInDirectories(st.nodes, st.inodes, host.staging);
    ParentsMade(st.nodes, e.path, host.now);
    var made := MakeParents(st.nodes, e.path, host.now).value;
    DirectoriesSafe(st.nodes, made, st.inodes, host.staging);
    PlaceSafe(st.(nodes := made), e, host);
  }

  lemma {:induction false} TimesOnly(nodes: map<Path, Node>, times: seq<DirTime>, host: Host)
    ensures OnlyDirectories(nodes, SetTimes(nodes, times, host)) && SetTimes(nodes, times, host).Keys == nodes.Keys
    decreases |times|
  {
    hide PathOk;
    if times != [] {
      var d := times[|times| - 1];
      var nodes' :=
        if d.path in nodes && nodes[d.path].Dir? then
          nodes[d.path := Dir(nodes[d.path].mode, StoredTime(host, d.mtime))]
        else nodes;
      assert OnlyDirectories(nodes, nodes') && nodes'.Keys == nodes.Keys;
      TimesOnly(nodes', times[..|times| - 1], host);
      OnlyTransitive(nodes, nodes', SetTimes(nodes, times, host));
    }
  }

  lemma {:induction false} ExtractFromSafe(buffer: seq<byte>, offset: nat, st: Staging, host: Host)
    requires offset <= |buffer| && SafeStaging(st, host) && ExtractFrom(buffer, offset, st, host).Ok?
    ensures
      var t := ExtractFrom(buffer, offset, st, host).value;
      Safe(t.nodes, t.inodes, host.staging)
    decreases |buffer| - offset
  {
    hide Safe, ApplyEntry, ReadEntry, SetTimes, PathOk;
    if offset == |buffer| {
      var nodes := SetTimes(st.nodes, st.dirTimes, host);
      TimesOnly(st.nodes, st.dirTimes, host);
      SafeInDirectories(st.nodes, st.inodes, host.staging);
      OnlyKeepsInDirectories(st.nodes, nodes);
      DirectoriesSafe(st.nodes, nodes, st.inodes, host.staging);
    } else {
      ReadEntryIsEncoding(buffer, offset);
      var read := ReadEntry(buffer, offset).value;
      EntryPathOk(buffer, offset);
      ApplySafe(st, read.value, host);
      ExtractFromSafe(buffer, read.next, ApplyEntry(st, read.value, host).value, host);
    }
  }

  lemma EntryPathOk(buffer: seq<byte>, offset: nat)
    requires offset <= |buffer| && ReadEntry(buffer, offset).Ok?
    ensures PathOk(ReadEntry(buffer, offset).value.value.path)
  {
    ReadEntryIsEncoding(buffer, offset);
  }

  lemma EmptySafe(host: Host)
    ensures SafeStaging(EMPTY_STAGING, host)
  {
  }

  /** Whatever bytes are extracted: no link of the tree is absolute, none leads out of the staging directory, none has
      anything below it, and under a name no target mentions none climbs out on its way. */
  lemma ExtractedIsSafe(archive: seq<byte>, host: Host)
    requires Extract(archive, host).Ok?
    ensures
      var t := Extract(archive, host).value;
      WellFormed(t) && forall p :: p in t.nodes ==>
        !t.nodes[p].Special? &&
        (t.nodes[p].Symlink? ==>
           var target := t.nodes[p].target;
           (target == [] || target[0] != SLASH) && 0 !in target &&
           host.staging <= Normalize(host.staging + ParentParts(p), Split(target)))
    ensures FreshName(host, Extract(archive, host).value) ==> NoLinkClimbs(Extract(archive, host).value)
  {
    hide ExtractFrom, Split, Normalize, LinkClimbs, PathOk, IsAncestor;
    EmptySafe(host);
    ExtractFromSafe(archive, |MAGIC|, EMPTY_STAGING, host);
    var t := Extract(archive, host).value;
    if FreshName(host, t) {
      forall p | p in t.nodes ensures !Climbing(t, p) {
        if t.nodes[p].Symlink? { NoClimb(host.staging, p, t.nodes[p].target); }
      }
    }
  }

  lemma NoClimb(root: seq<seq<byte>>, p: Path, target: seq<byte>)
    requires root != [] && root[|root| - 1] !in Split(target) && StaysIn(root, p, target)
    ensures !LinkClimbs(p, target)
  {
    hide Split, Normalize;
    if LinkClimbs(p, target) { ClimbEscapes(root, root + ParentParts(p), Split(target)); }
  }

  /** An entry below a link is refused, whatever it is. */
  lemma BelowLinkRefused(st: Staging, e: Entry, host: Host, a: Path)
    requires a in st.kinds && st.kinds[a] == 3 && IsAncestor(a, e.path)
    ensures ApplyEntry(st, e, host) == Err(Unsupported)
  {
  }

  /** An accepted entry has one of the four types and a new path below no link, a hard link names a regular file that
      came before, and the type of the entry is remembered for those behind it. */
  lemma AcceptedEntry(st: Staging, e: Entry, host: Host)
    requires ApplyEntry(st, e, host).Ok?
    ensures e.path !in st.nodes && 1 <= e.kind <= 4
    ensures forall a :: a in st.kinds && IsAncestor(a, e.path) ==> st.kinds[a] != 3
    ensures e.kind == 4 ==> PathOk(e.payload) && e.payload in st.kinds && st.kinds[e.payload] == 2
    ensures ApplyEntry(st, e, host).value.kinds == st.kinds[e.path := e.kind]
  {
    hide PathOk, Escapes, Normalize, Split, Touch;
    ParentsKept(st.nodes, e.path, host.now);
  }

  lemma {:induction false} ParentsKept(nodes: map<Path, Node>, p: Path, now: int)
    requires MakeParents(nodes, p, now).Ok?
    ensures nodes.Keys <= MakeParents(nodes, p, now).value.Keys
    decreases |p|
  {
    hide Touch;
    match ParentOf(p)
    case None =>
    case Some(a) =>
      if a !in nodes {
        ParentsKept(nodes, a, now);
        TouchKeys(MakeParents(nodes, a, now).value, a, now);
      }
  }

  lemma TouchKeys(nodes: map<Path, Node>, p: Path, now: int)
    ensures Touch(nodes, p, now).Keys == nodes.Keys
  {
  }
}
