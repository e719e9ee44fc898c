/** Extraction undoes export: which exported archives extract, what they rebuild, and when exporting again gives the
    same bytes. */
module CfsRoundTrip {
  import opened Prelude
  import opened Bytes
  import opened CfsCodec
  import opened Cfs

  // ---------------------------------------------------------------- the entries of an exported archive

  ghost predicate EntriesOk(t: Tree, root: seq<seq<byte>>, paths: seq<Path>)
    requires WellFormed(t)
  {
    forall p :: p in paths ==> p in t.nodes && EntryOf(t, root, p).Ok?
  }

  ghost function EntryList(t: Tree, root: seq<seq<byte>>, paths: seq<Path>): (es: seq<Entry>)
    requires WellFormed(t) && EntriesOk(t, root, paths)
    ensures |es| == |paths| && forall k :: 0 <= k < |paths| ==> es[k] == EntryOf(t, root, paths[k]).value
    decreases |paths|
  {
    if paths == [] then [] else [EntryOf(t, root, paths[0]).value] + EntryList(t, root, paths[1..])
  }

  lemma EntryStorable(t: Tree, root: seq<seq<byte>>, p: Path)
    requires WellFormed(t) && p in t.nodes && EntryOf(t, root, p).Ok?
    requires |EntryOf(t, root, p).value.payload| <= MAX_TREE_BYTES
    ensures Storable(EntryOf(t, root, p).value) && EntryOf(t, root, p).value.path == p
  {
    hide PathOk, RoundMs, Escapes;
  }

  /** A successful export is the encoding of one storable entry per path. */
  lemma {:induction false} ExportedEntries(t: Tree, root: seq<seq<byte>>, paths: seq<Path>, out: seq<byte>)
    requires WellFormed(t) && (forall p :: p in paths ==> p in t.nodes) && ExportFrom(t, root, paths, out).Ok?
    ensures EntriesOk(t, root, paths) && AllStorable(EntryList(t, root, paths))
    ensures ExportFrom(t, root, paths, out).value == out + EncodeEntries(EntryList(t, root, paths))
    decreases |paths|
  {
    hide EntryOf, PathOk, IsAncestor, EncodeEntry, Storable;
    if paths != [] {
      var entry := EntryOf(t, root, paths[0]).value;
      EntryStorable(t, root, paths[0]);
      ExportedEntries(t, root, paths[1..], out + EncodeEntry(entry));
      Prepend(entry, EntryList(t, root, paths[1..]));
      assert forall p :: p in paths ==> p == paths[0] || p in paths[1..];
      assert EntryList(t, root, paths) == [entry] + EntryList(t, root, paths[1..]);
    }
  }

  /** Extraction on entries instead of bytes. */
  function ExtractAll(es: seq<Entry>, st: Staging, host: Host): Result<Tree, CfsError>
    decreases |es|
  {
    if es == [] then Ok(Tree(SetTimes(st.nodes, st.dirTimes, host), st.inodes))
    else
      match ApplyEntry(st, es[0], host)
      case Err(e) => Err(e)
      case Ok(st') => ExtractAll(es[1..], st', host)
  }

  lemma {:induction false} ExtractIsFold(buffer: seq<byte>, offset: nat, es: seq<Entry>, st: Staging, host: Host)
    requires AllStorable(es) && offset <= |buffer| && buffer[offset..] == EncodeEntries(es)
    ensures ExtractFrom(buffer, offset, st, host) == ExtractAll(es, st, host)
    decreases |es|
  {
    hide ReadEntry, EncodeEntry, ApplyEntry, SetTimes, Storable;
    if es != [] {
      AtHead(buffer, offset, EncodeEntry(es[0]), EncodeEntries(es[1..]));
      EntryReadsBack(es[0], buffer, offset);
      if ApplyEntry(st, es[0], host).Ok? {
        ExtractIsFold(buffer, offset + |EncodeEntry(es[0])|, es[1..], ApplyEntry(st, es[0], host).value, host);
      }
    }
  }

  // ---------------------------------------------------------------- what extraction rebuilds

  ghost predicate SameInode(a: Inode, b: Inode, host: Host) {
    b.mode == Rwx(a.mode) && b.mtime == StoredTime(host, RoundMs(a.mtime)) && b.content == a.content && b.nlink >= 1
  }

  /** The node stands for the node of `t` at `p`; the time of a directory is left open. */
  ghost predicate SameNode(t: Tree, p: Path, node: Node, inodes: map<InodeId, Inode>, host: Host)
    requires p in t.nodes
  {
    match t.nodes[p]
    case Dir(mode, _) => node.Dir? && node.mode == Rwx(mode)
    case Symlink(target, mtime) => node == Symlink(target, StoredTime(host, RoundMs(mtime)))
    case File(i) => i in t.inodes && node.File? && node.inode in inodes &&
    SameInode(t.inodes[i], inodes[node.inode], host)
    case Special(_, _) => false
  }

  ghost predicate AllSame(t: Tree, nodes: map<Path, Node>, inodes: map<InodeId, Inode>, host: Host) {
    nodes.Keys <= t.nodes.Keys && forall p :: p in nodes ==> SameNode(t, p, nodes[p], inodes, host)
  }

  /** Two paths share a file exactly when they did. */
  ghost predicate SameSharing(t: Tree, nodes: map<Path, Node>) {
    forall p, q :: p in nodes && q in nodes && p in t.nodes && q in t.nodes && t.nodes[p].File? && t.nodes[q].File? ==>
      (nodes[p] == nodes[q] <==> t.nodes[p] == t.nodes[q])
  }

  ghost predicate LinksCounted(nodes: map<Path, Node>, inodes: map<InodeId, Inode>) {
    forall p, q :: p in nodes && q in nodes && p != q && nodes[p].File? && nodes[p] == nodes[q] ==>
      nodes[p].inode in inodes && inodes[nodes[p].inode].nlink > 1
  }

  /** The tree again: names, types, contents, permissions without the bits above octal 777, rounded times, sharing. */
  ghost predicate SameTree(t: Tree, u: Tree, host: Host) {
    u.nodes.Keys == t.nodes.Keys && AllSame(t, u.nodes, u.inodes, host) && SameSharing(t, u.nodes) &&
    LinksCounted(u.nodes, u.inodes) &&
    forall p :: p in u.nodes && u.nodes[p].Dir? ==> TimeRight(t, p, u.nodes[p], host)
  }

  ghost function KindOf(t: Tree, p: Path): byte
    requires p in t.nodes
  {
    match t.nodes[p]
    case Dir(_, _) => TYPE_DIRECTORY
    case Symlink(_, _) => TYPE_SYMLINK
    case File(i) => if FirstHolder(t, i) == p then TYPE_FILE else TYPE_HARDLINK
    case Special(_, _) => 0
  }

  ghost predicate KindsOk(t: Tree, kinds: map<Path, byte>) {
    kinds.Keys <= t.nodes.Keys && forall p :: p in kinds ==> kinds[p] == KindOf(t, p)
  }

  predicate Timed(times: seq<DirTime>, p: Path) {
    exists k :: 0 <= k < |times| && times[k].path == p
  }

  predicate TimesMatch(t: Tree, times: seq<DirTime>) {
    forall k :: 0 <= k < |times| ==>
      times[k].path in t.nodes && t.nodes[times[k].path].Dir? && times[k].mtime == RoundMs(t.nodes[times[k].path].mtime)
  }

  ghost predicate DirsTimed(t: Tree, nodes: map<Path, Node>, times: seq<DirTime>) {
    forall p :: p in nodes && nodes[p].Dir? ==> Timed(times, p)
  }

  /** The staging directory after the entries of `done`. */
  ghost predicate Rebuilt(t: Tree, st: Staging, done: set<Path>, host: Host) {
    st.nodes.Keys == done && st.kinds.Keys == done && KindsOk(t, st.kinds) &&
    AllSame(t, st.nodes, st.inodes, host) && SameSharing(t, st.nodes) && LinksCounted(st.nodes, st.inodes) &&
    (forall j :: j in st.inodes ==> j < st.next) &&
    TimesMatch(t, st.dirTimes) && DirsTimed(t, st.nodes, st.dirTimes)
  }

  /** Only times of directories differ. */
  ghost predicate Retimed(nodes: map<Path, Node>, nodes': map<Path, Node>) {
    nodes'.Keys == nodes.Keys &&
    forall p :: p in nodes ==> if nodes[p].Dir? then nodes'[p].Dir? && nodes'[p].mode == nodes[p].mode
                               else nodes'[p] == nodes[p]
  }

  lemma RetimedSame(t: Tree, nodes: map<Path, Node>, nodes': map<Path, Node>, inodes: map<InodeId, Inode>, host: Host)
    requires Retimed(nodes, nodes') && AllSame(t, nodes, inodes, host) && SameSharing(t, nodes)
    requires LinksCounted(nodes, inodes)
    ensures AllSame(t, nodes', inodes, host) && SameSharing(t, nodes') && LinksCounted(nodes', inodes)
  {
    hide SameInode, StoredTime, RoundMs;
    assert AllSame(t, nodes', inodes, host) by { hide SameSharing, LinksCounted; }
    assert SameSharing(t, nodes') by { hide LinksCounted; }
    assert LinksCounted(nodes', inodes) by { hide SameSharing, AllSame; }
  }

  lemma TouchKeeps(t: Tree, st: Staging, done: set<Path>, host: Host, p: Path)
    requires Rebuilt(t, st, done, host)
    ensures Rebuilt(t, st.(nodes := Touch(st.nodes, p, host.now)), done, host)
  {
    hide KindsOk, TimesMatch, AllSame, SameSharing, LinksCounted, ParentOf;
    RetimedSame(t, st.nodes, Touch(st.nodes, p, host.now), st.inodes, host);
  }

  lemma ModeBits(mode: nat)
    ensures Rwx(PermissionBits(mode)) == Rwx(mode) == PermissionBits(Rwx(mode)) && !SetId(Rwx(mode))
  {
  }

  /** One more path, for a node whose inode, if it has one, is already stored. */
  lemma Extend(t: Tree, nodes: map<Path, Node>, inodes: map<InodeId, Inode>, p: Path, node: Node, host: Host)
    requires AllSame(t, nodes, inodes, host) && SameSharing(t, nodes) && LinksCounted(nodes, inodes)
    requires p !in nodes && p in t.nodes && SameNode(t, p, node, inodes, host)
    requires node.File? ==> forall q :: q in nodes && q in t.nodes ==> (nodes[q] == node <==> t.nodes[q] == t.nodes[p])
    requires node.File? && inodes[node.inode].nlink <= 1 ==> forall q :: q in nodes ==> nodes[q] != node
    ensures AllSame(t, nodes[p := node], inodes, host) && SameSharing(t, nodes[p := node])
    ensures LinksCounted(nodes[p := node], inodes)
  {
    hide SameInode, StoredTime, RoundMs, Rwx;
    var nodes' := nodes[p := node];
    assert AllSame(t, nodes', inodes, host) by { hide SameSharing, LinksCounted; }
    assert SameSharing(t, nodes') by { hide LinksCounted; }
    assert LinksCounted(nodes', inodes) by { hide SameSharing, AllSame; }
  }

  /** An inode is stored or gets one more link. */
  lemma StoreInode(t: Tree, nodes: map<Path, Node>, inodes: map<InodeId, Inode>, j: InodeId, i: InodeId, inode: Inode,
                   host: Host)
    requires AllSame(t, nodes, inodes, host) && LinksCounted(nodes, inodes) && i in t.inodes
    requires SameInode(t.inodes[i], inode, host)
    requires if j in inodes then inode.nlink > 1 && forall q :: q in nodes && q in t.nodes && nodes[q] == File(j) ==>
      t.nodes[q] == File(i)
             else forall q :: q in nodes ==> nodes[q] != File(j)
    ensures AllSame(t, nodes, inodes[j := inode], host) && LinksCounted(nodes, inodes[j := inode])
  {
    hide SameInode, StoredTime, RoundMs;
    assert AllSame(t, nodes, inodes[j := inode], host) by { hide LinksCounted; }
    assert LinksCounted(nodes, inodes[j := inode]) by { hide AllSame; }
  }

  lemma AddDir(t: Tree, st: Staging, done: set<Path>, host: Host, p: Path, mode: nat, mtime: nat)
    requires Rebuilt(t, st, done, host) && p in t.nodes && p !in done
    requires t.nodes[p].Dir? && mode == PermissionBits(t.nodes[p].mode) && mtime == RoundMs(t.nodes[p].mtime)
    ensures
      var st' := st.(nodes := st.nodes[p := Dir(Rwx(mode), host.now)], dirTimes := st.dirTimes + [DirTime(p, mtime)],
                     kinds := st.kinds[p := TYPE_DIRECTORY]);
      Rebuilt(t, st', done + {p}, host)
  {
    hide RoundMs, Rwx, PermissionBits, AllSame, SameSharing, LinksCounted, FirstHolder;
    ModeBits(t.nodes[p].mode);
    Extend(t, st.nodes, st.inodes, p, Dir(Rwx(mode), host.now), host);
    var times := st.dirTimes + [DirTime(p, mtime)];
    assert times[|st.dirTimes|].path == p;
    forall q | Timed(st.dirTimes, q) ensures Timed(times, q) {
      var k :| 0 <= k < |st.dirTimes| && st.dirTimes[k].path == q;
      assert times[k].path == q;
    }
  }

  lemma AddSymlink(t: Tree, st: Staging, done: set<Path>, host: Host, p: Path)
    requires Rebuilt(t, st, done, host) && p in t.nodes && p !in done && t.nodes[p].Symlink?
    ensures
      var node := Symlink(t.nodes[p].target, StoredTime(host, RoundMs(t.nodes[p].mtime)));
      Rebuilt(t, st.(nodes := st.nodes[p := node], kinds := st.kinds[p := TYPE_SYMLINK]), done + {p}, host)
  {
    hide RoundMs, StoredTime, AllSame, SameSharing, LinksCounted, FirstHolder, Timed, TimesMatch;
    Extend(t, st.nodes, st.inodes, p, Symlink(t.nodes[p].target, StoredTime(host, RoundMs(t.nodes[p].mtime))), host);
  }

  lemma NotStoredYet(t: Tree, st: Staging, done: set<Path>, host: Host)
    requires Rebuilt(t, st, done, host)
    ensures st.next !in st.inodes && forall q :: q in st.nodes ==> st.nodes[q] != File(st.next)
  {
    forall q | q in st.nodes ensures st.nodes[q] != File(st.next) {
      assert SameNode(t, q, st.nodes[q], st.inodes, host);
    }
  }

  lemma AddFile(t: Tree, st: Staging, done: set<Path>, host: Host, p: Path, inode: Inode)
    requires Rebuilt(t, st, done, host) && p in t.nodes && p !in done && t.nodes[p].File?
    requires t.nodes[p].inode in t.inodes
    requires KindOf(t, p) == TYPE_FILE && SameInode(t.inodes[t.nodes[p].inode], inode, host)
    requires forall q :: q in done && q in t.nodes ==> t.nodes[q] != t.nodes[p]
    ensures
      var st' := st.(nodes := st.nodes[p := File(st.next)], inodes := st.inodes[st.next := inode], next := st.next + 1,
                     kinds := st.kinds[p := TYPE_FILE]);
      Rebuilt(t, st', done + {p}, host)
  {
    hide SameInode, AllSame, SameSharing, LinksCounted, TimesMatch, Timed, FirstHolder;
    NotStoredYet(t, st, done, host);
    StoreInode(t, st.nodes, st.inodes, st.next, t.nodes[p].inode, inode, host);
    Extend(t, st.nodes, st.inodes[st.next := inode], p, File(st.next), host);
  }

  lemma AddLink(t: Tree, st: Staging, done: set<Path>, host: Host, p: Path, first: Path, inode: Inode)
    requires Rebuilt(t, st, done, host) && p in t.nodes && p !in done && t.nodes[p].File?
    requires t.nodes[p].inode in t.inodes
    requires first in done && first in t.nodes && t.nodes[first] == t.nodes[p] && KindOf(t, p) == TYPE_HARDLINK
    requires st.nodes[first].File? && st.nodes[first].inode in st.inodes
    requires SameInode(t.inodes[t.nodes[p].inode], inode, host) && inode.nlink > 1
    ensures
      var j := st.nodes[first].inode;
      Rebuilt(t, st.(nodes := st.nodes[p := File(j)], inodes := st.inodes[j := inode],
                     kinds := st.kinds[p := TYPE_HARDLINK]), done + {p}, host)
  {
    hide SameInode, AllSame, LinksCounted, TimesMatch, Timed, FirstHolder;
    var j := st.nodes[first].inode;
    SharedAlike(t, st.nodes, st.inodes, host, first);
    StoreInode(t, st.nodes, st.inodes, j, t.nodes[p].inode, inode, host);
    Extend(t, st.nodes, st.inodes[j := inode], p, File(j), host);
  }

  lemma SharedAlike(t: Tree, nodes: map<Path, Node>, inodes: map<InodeId, Inode>, host: Host, first: Path)
    requires AllSame(t, nodes, inodes, host) && SameSharing(t, nodes) && first in nodes && first in t.nodes
    requires t.nodes[first].File?
    ensures forall q :: q in nodes && q in t.nodes ==> (nodes[q] == nodes[first] <==> t.nodes[q] == t.nodes[first])
  {
    hide SameInode;
    assert SameNode(t, first, nodes[first], inodes, host);
    forall q | q in nodes && q in t.nodes ensures nodes[q] == nodes[first] <==> t.nodes[q] == t.nodes[first] {
      assert SameNode(t, q, nodes[q], inodes, host);
    }
  }

  // ---------------------------------------------------------------- one entry

  /** Its directories are already there, no symbolic link is above it, and it is new. */
  lemma ParentThere(t: Tree, paths: seq<Path>, n: nat, st: Staging, host: Host)
    requires WellFormed(t) && paths == SortedKeys(t.nodes.Keys) && n < |paths| && Rebuilt(t, st, Taken(paths, n), host)
    ensures MakeParents(st.nodes, paths[n], host.now) == Ok(st.nodes)
    ensures !UnderSymlink(paths[n], st.kinds) && paths[n] !in st.nodes && paths[n] !in Taken(paths, n)
  {
    var p := paths[n];
    assert p in t.nodes;
    TakenAreBefore(paths, n, p);
    BeforeIrreflexive(p);
    if ParentOf(p).Some? {
      var a := ParentOf(p).value;
      assert a in t.nodes && t.nodes[a].Dir?;
      PrefixBefore(a, p);
      TakenAreBefore(paths, n, a);
      assert SameNode(t, a, st.nodes[a], st.inodes, host);
    }
    forall a | a in st.kinds && IsAncestor(a, p) ensures st.kinds[a] != TYPE_SYMLINK {
      assert t.nodes[a].Dir?;
    }
  }

  ghost predicate Climbing(t: Tree, p: Path) {
    p in t.nodes && t.nodes[p].Symlink? && LinkClimbs(p, t.nodes[p].target)
  }

  /** The random name of the staging directory is no part of a link target. */
  ghost predicate FreshName(host: Host, t: Tree) {
    host.staging != [] &&
    forall p :: p in t.nodes && t.nodes[p].Symlink? ==> host.staging[|host.staging| - 1] !in Split(t.nodes[p].target)
  }

  /** The entry's calls succeed and rebuild its node. */
  ghost predicate PlacedOk(t: Tree, st: Staging, e: Entry, done: set<Path>, host: Host) {
    Place(st, e, host).Ok? &&
    Rebuilt(t, Place(st, e, host).value.(kinds := st.kinds[e.path := e.kind]), done + {e.path}, host)
  }

  lemma DirPlaced(t: Tree, root: seq<seq<byte>>, p: Path, st: Staging, done: set<Path>, host: Host)
    requires WellFormed(t) && p in t.nodes && t.nodes[p].Dir? && EntryOf(t, root, p).Ok?
    requires Rebuilt(t, st, done, host) && p !in done
    ensures EntryOf(t, root, p).value.path == p && PlacedOk(t, st, EntryOf(t, root, p).value, done, host)
  {
    hide WellFormed, RoundMs, Rebuilt, Touch, SetId, PermissionBits;
    TouchKeeps(t, st, done, host, p);
    var e := EntryOf(t, root, p).value;
    AddDir(t, st.(nodes := Touch(st.nodes, p, host.now)), done, host, p, e.mode, e.mtime);
  }

  lemma LinkPlaced(t: Tree, root: seq<seq<byte>>, p: Path, st: Staging, done: set<Path>, host: Host)
    requires WellFormed(t) && p in t.nodes && t.nodes[p].Symlink? && EntryOf(t, root, p).Ok? && FreshName(host, t)
    requires Rebuilt(t, st, done, host) && p !in done
    ensures EntryOf(t, root, p).value.path == p
    ensures
      var e := EntryOf(t, root, p).value;
      if Climbing(t, p) then Place(st, e, host).Err? else PlacedOk(t, st, e, done, host)
  {
    hide RoundMs, Rebuilt, Touch, PathOk, IsAncestor, Normalize, LinkClimbs;
    EscapesExactlyWhenClimbing(host.staging, p, t.nodes[p].target);
    TouchKeeps(t, st, done, host, p);
    AddSymlink(t, st.(nodes := Touch(st.nodes, p, host.now)), done, host, p);
  }

  lemma FirstRebuilt(t: Tree, st: Staging, done: set<Path>, host: Host, first: Path, i: InodeId)
    requires Rebuilt(t, st, done, host) && first in done && first in t.nodes && t.nodes[first] == File(i)
    requires FirstHolder(t, i) == first
    ensures first in st.kinds && st.kinds[first] == TYPE_FILE && first in st.nodes && st.nodes[first].File?
    ensures
      var j := st.nodes[first].inode;
      i in t.inodes && j in st.inodes && SameInode(t.inodes[i], st.inodes[j], host)
  {
    assert SameNode(t, first, st.nodes[first], st.inodes, host);
  }

  /** The first path of a file carries its contents. */
  lemma FilePlaced(t: Tree, root: seq<seq<byte>>, p: Path, st: Staging, done: set<Path>, host: Host)
    requires WellFormed(t) && p in t.nodes && t.nodes[p].File? && EntryOf(t, root, p).Ok?
    requires FirstHolder(t, t.nodes[p].inode) == p
    requires Rebuilt(t, st, done, host) && p !in done
    requires forall q :: q in done && q in t.nodes ==> t.nodes[q] != t.nodes[p]
    ensures EntryOf(t, root, p).value.path == p && PlacedOk(t, st, EntryOf(t, root, p).value, done, host)
  {
    hide PathOk, IsAncestor, RoundMs, Touch, SetId, PermissionBits, Rwx, StoredTime, KindsOk, AllSame, SameSharing;
    hide LinksCounted, TimesMatch, DirsTimed;
    var e := EntryOf(t, root, p).value;
    ModeBits(t.inodes[t.nodes[p].inode].mode);
    TouchKeeps(t, st, done, host, p);
    assert done <= t.nodes.Keys by { DoneInTree(t, st, done, host); }
    AddFile(t, st.(nodes := Touch(st.nodes, p, host.now)), done, host, p,
            Inode(Rwx(e.mode), StoredTime(host, e.mtime), 1, e.payload));
  }

  lemma DoneInTree(t: Tree, st: Staging, done: set<Path>, host: Host)
    requires Rebuilt(t, st, done, host)
    ensures done <= t.nodes.Keys
  {
  }

  /** A later path of a file becomes a link to the first, which is there and is a regular file. */
  lemma HardLinkPlaced(t: Tree, root: seq<seq<byte>>, p: Path, st: Staging, done: set<Path>, host: Host)
    requires WellFormed(t) && p in t.nodes && t.nodes[p].File? && EntryOf(t, root, p).Ok?
    requires FirstHolder(t, t.nodes[p].inode) != p && FirstHolder(t, t.nodes[p].inode) in done
    requires Rebuilt(t, st, done, host) && p !in done
    ensures EntryOf(t, root, p).value.path == p && PlacedOk(t, st, EntryOf(t, root, p).value, done, host)
  {
    hide IsAncestor, RoundMs, Rebuilt, SetId, PermissionBits, Rwx, StoredTime, Split;
    var i := t.nodes[p].inode;
    var e := EntryOf(t, root, p).value;
    var first := FirstHolder(t, i);
    var touched := st.(nodes := Touch(st.nodes, p, host.now));
    ModeBits(t.inodes[i].mode);
    TouchKeeps(t, st, done, host, p);
    FirstRebuilt(t, st, done, host, first, i);
    FirstRebuilt(t, touched, done, host, first, i);
    var j := st.nodes[first].inode;
    var inode := st.inodes[j].(mode := Rwx(e.mode), mtime := StoredTime(host, e.mtime),
                               nlink := st.inodes[j].nlink + 1);
    AddLink(t, touched, done, host, p, first, inode);
  }

  /** Where the first path of a file lies relative to the n-th path. */
  lemma FirstInOrder(t: Tree, paths: seq<Path>, n: nat)
    requires paths == SortedKeys(t.nodes.Keys) && n < |paths| && paths[n] in t.nodes && t.nodes[paths[n]].File?
    ensures
      var p := paths[n];
      var first := FirstHolder(t, t.nodes[p].inode);
      if first == p then forall q :: q in Taken(paths, n) && q in t.nodes ==> t.nodes[q] != t.nodes[p]
      else first in Taken(paths, n)
  {
    var p := paths[n];
    var first := FirstHolder(t, t.nodes[p].inode);
    TakenAreBefore(paths, n, first);
    forall q | q in Taken(paths, n) && q in t.nodes ensures first == p ==> t.nodes[q] != t.nodes[p] {
      TakenAreBefore(paths, n, q);
      BeforeIrreflexive(p);
      if first == p && t.nodes[q] == t.nodes[p] { BeforeTransitive(p, q, p); }
    }
  }

  lemma EntryPlaced(t: Tree, root: seq<seq<byte>>, paths: seq<Path>, n: nat, st: Staging, host: Host)
    requires WellFormed(t) && paths == SortedKeys(t.nodes.Keys) && n < |paths| && Rebuilt(t, st, Taken(paths, n), host)
    requires paths[n] in t.nodes && EntryOf(t, root, paths[n]).Ok? && FreshName(host, t) && paths[n] !in Taken(paths, n)
    ensures
      var e := EntryOf(t, root, paths[n]).value;
      e.path == paths[n] && if Climbing(t, paths[n]) then Place(st, e, host).Err?
                            else PlacedOk(t, st, e, Taken(paths, n), host)
  {
    hide Rebuilt, Place, PlacedOk, FreshName, IsAncestor, PathOk, Taken, LinkClimbs, Earlier, Fitted;
    var p, done := paths[n], Taken(paths, n);
    match t.nodes[p]
    case Dir(_, _) => DirPlaced(t, root, p, st, done, host);
    case Symlink(_, _) => LinkPlaced(t, root, p, st, done, host);
    case File(i) =>
      FirstInOrder(t, paths, n);
      if FirstHolder(t, i) == p {
        FilePlaced(t, root, p, st, done, host);
      } else {
        HardLinkPlaced(t, root, p, st, done, host);
      }
  }

  lemma EntryApplied(t: Tree, root: seq<seq<byte>>, paths: seq<Path>, n: nat, st: Staging, host: Host)
    requires WellFormed(t) && paths == SortedKeys(t.nodes.Keys) && n < |paths| && Rebuilt(t, st, Taken(paths, n), host)
    requires paths[n] in t.nodes && EntryOf(t, root, paths[n]).Ok? && FreshName(host, t)
    ensures
      var applied := ApplyEntry(st, EntryOf(t, root, paths[n]).value, host);
      if Climbing(t, paths[n]) then applied.Err?
      else applied.Ok? && Rebuilt(t, applied.value, Taken(paths, n + 1), host)
  {
    hide MakeParents, UnderSymlink, Rebuilt, Place, Taken, EntryOf, FreshName, Climbing, IsAncestor, PathOk;
    ParentThere(t, paths, n, st, host);
    EntryPlaced(t, root, paths, n, st, host);
    TakenNext(paths, n);
    assert st.(nodes := st.nodes) == st;
  }

  // ---------------------------------------------------------------- directory times

  ghost predicate TimeRight(t: Tree, p: Path, node: Node, host: Host) {
    p in t.nodes && t.nodes[p].Dir? && node.Dir? && node.mtime == StoredTime(host, RoundMs(t.nodes[p].mtime))
  }

  lemma {:induction false} TimesSet(t: Tree, nodes: map<Path, Node>, times: seq<DirTime>, host: Host)
    requires TimesMatch(t, times)
    ensures var set' := SetTimes(nodes, times, host);
      set'.Keys == nodes.Keys &&
      forall p :: p in nodes ==>
        (!nodes[p].Dir? ==> set'[p] == nodes[p]) &&
        (nodes[p].Dir? ==> set'[p].Dir? && set'[p].mode == nodes[p].mode) &&
        (nodes[p].Dir? && (Timed(times, p) || TimeRight(t, p, nodes[p], host)) ==> TimeRight(t, p, set'[p], host))
    decreases |times|
  {
    hide RoundMs, StoredTime;
    if times != [] {
      var n := |times| - 1;
      var d := times[n];
      var nodes' :=
        if d.path in nodes && nodes[d.path].Dir? then
          nodes[d.path := Dir(nodes[d.path].mode, StoredTime(host, d.mtime))]
        else nodes;
      TimesSet(t, nodes', times[..n], host);
      forall p | Timed(times, p) && p != d.path ensures Timed(times[..n], p) {
        var k :| 0 <= k < |times| && times[k].path == p;
        assert times[..n][k].path == p;
      }
    }
  }

  lemma AllEntriesDone(t: Tree, paths: seq<Path>, st: Staging, host: Host)
    requires paths == SortedKeys(t.nodes.Keys) && Rebuilt(t, st, Taken(paths, |paths|), host)
    ensures SameTree(t, Tree(SetTimes(st.nodes, st.dirTimes, host), st.inodes), host)
  {
    hide TimeRight, SetTimes, KindsOk, TimesMatch, Timed, AllSame, SameSharing, LinksCounted;
    assert paths[..|paths|] == paths;
    assert Taken(paths, |paths|) == t.nodes.Keys;
    var nodes := SetTimes(st.nodes, st.dirTimes, host);
    TimesSet(t, st.nodes, st.dirTimes, host);
    RetimedSame(t, st.nodes, nodes, st.inodes, host);
  }

  // ---------------------------------------------------------------- the whole archive

  lemma {:induction false} FoldRebuilds(t: Tree, root: seq<seq<byte>>, paths: seq<Path>, n: nat, st: Staging,
                                        host: Host)
    requires WellFormed(t) && paths == SortedKeys(t.nodes.Keys) && n <= |paths| && EntriesOk(t, root, paths)
    requires Rebuilt(t, st, Taken(paths, n), host) && FreshName(host, t)
    ensures
      var r := ExtractAll(EntryList(t, root, paths)[n..], st, host);
      (r.Ok? <==> forall k :: n <= k < |paths| ==> !Climbing(t, paths[k])) && (r.Ok? ==> SameTree(t, r.value, host))
    decreases |paths| - n
  {
    hide WellFormed, Rebuilt, SameTree, ApplyEntry, SetTimes, EntryOf, FreshName, Climbing;
    if n == |paths| {
      AllEntriesDone(t, paths, st, host);
    } else {
      var es := EntryList(t, root, paths);
      EntryApplied(t, root, paths, n, st, host);
      assert es[n..][0] == es[n] && es[n..][1..] == es[n + 1..];
      var applied := ApplyEntry(st, es[n], host);
      if applied.Ok? { FoldRebuilds(t, root, paths, n + 1, applied.value, host); }
    }
  }

  ghost predicate NoLinkClimbs(t: Tree) {
    forall p :: p in t.nodes ==> !Climbing(t, p)
  }

  /** Every exported archive extracts unless some link target climbs above the root on its way, and extraction
      rebuilds the tree. */
  lemma ExtractRebuilds(t: Tree, root: seq<seq<byte>>, host: Host)
    requires WellFormed(t) && Export(t, root).Ok? && FreshName(host, t)
    ensures
      var extracted := Extract(Export(t, root).value, host);
      (extracted.Ok? <==> NoLinkClimbs(t)) && (extracted.Ok? ==> SameTree(t, extracted.value, host))
  {
    hide WellFormed, SameTree, FreshName, Climbing, EntryOf, ExtractFrom, ExportFrom;
    var paths := SortedKeys(t.nodes.Keys);
    ExportedEntries(t, root, paths, MAGIC);
    var es := EntryList(t, root, paths);
    var archive := Export(t, root).value;
    assert archive[..|MAGIC|] == MAGIC && archive[|MAGIC|..] == EncodeEntries(es);
    ExtractIsFold(archive, |MAGIC|, es, EMPTY_STAGING, host);
    NothingYet(t, host);
    assert es[0..] == es && Taken(paths, 0) == {};
    FoldRebuilds(t, root, paths, 0, EMPTY_STAGING, host);
  }

  lemma NothingYet(t: Tree, host: Host)
    ensures Rebuilt(t, EMPTY_STAGING, {}, host)
  {
  }

  // ---------------------------------------------------------------- exporting again

  lemma RebuiltIsWellFormed(t: Tree, u: Tree, host: Host)
    requires WellFormed(t) && SameTree(t, u, host)
    ensures WellFormed(u)
  {
    hide PathOk, RoundMs, StoredTime;
    forall p | p in u.nodes ensures SameNode(t, p, u.nodes[p], u.inodes, host) {}
  }

  lemma SameFirst(t: Tree, u: Tree, host: Host, p: Path)
    requires SameTree(t, u, host) && p in t.nodes && t.nodes[p].File? && u.nodes[p].File?
    ensures FirstHolder(t, t.nodes[p].inode) == FirstHolder(u, u.nodes[p].inode)
  {
    hide RoundMs, StoredTime, SameInode;
    var a, b := FirstHolder(t, t.nodes[p].inode), FirstHolder(u, u.nodes[p].inode);
    assert SameNode(t, a, u.nodes[a], u.inodes, host) && SameNode(t, b, u.nodes[b], u.inodes, host);
    if a != b {
      BeforeTransitive(a, b, a);
      BeforeIrreflexive(a);
    }
  }

  ghost predicate SmallSkew(host: Host) {
    forall mtime :: -500_000 < host.skew(mtime) < 500_000
  }

  function Stripped(e: Entry): Entry {
    e.(mode := Rwx(e.mode))
  }

  /** The entry of the rebuilt tree, whatever the new root is called. */
  lemma SameEntry(t: Tree, u: Tree, root: seq<seq<byte>>, root': seq<seq<byte>>, host: Host, p: Path)
    requires WellFormed(t) && SameTree(t, u, host) && SmallSkew(host) && p in t.nodes && !Climbing(t, p)
    requires EntryOf(t, root, p).Ok? && (u.nodes[p].File? ==> u.nodes[p].inode in u.inodes)
    ensures EntryOf(u, root', p) == Ok(Stripped(EntryOf(t, root, p).value))
  {
    hide RoundMs, WellFormed, PathOk, IsAncestor, Split, Climbs, FirstHolder, SameSharing, LinksCounted;
    assert SameNode(t, p, u.nodes[p], u.inodes, host);
    match t.nodes[p]
    case Dir(mode, mtime) =>
      ModeBits(mode);
      RoundingAbsorbs(mtime, host.skew(RoundMs(mtime)));
    case Symlink(target, mtime) =>
      RoundingAbsorbs(mtime, host.skew(RoundMs(mtime)));
      NoClimbInside(root', root' + ParentParts(p), Split(target));
    case File(i) =>
      ModeBits(t.inodes[i].mode);
      RoundingAbsorbs(t.inodes[i].mtime, host.skew(RoundMs(t.inodes[i].mtime)));
      SameFirst(t, u, host, p);
  }

  ghost predicate StrippedEntries(t: Tree, u: Tree, root: seq<seq<byte>>, root': seq<seq<byte>>, paths: seq<Path>)
    requires WellFormed(t) && WellFormed(u)
  {
    forall p :: p in paths ==>
      p in t.nodes && p in u.nodes && EntryOf(t, root, p).Ok? &&
      EntryOf(u, root', p) == Ok(Stripped(EntryOf(t, root, p).value))
  }

  lemma {:induction false} ExportsAgain(t: Tree, u: Tree, root: seq<seq<byte>>, root': seq<seq<byte>>,
                                        paths: seq<Path>, out: seq<byte>, out': seq<byte>)
    requires WellFormed(t) && WellFormed(u) && StrippedEntries(t, u, root, root', paths)
    requires |out| == |out'| && ExportFrom(t, root, paths, out).Ok?
    ensures ExportFrom(u, root', paths, out').Ok?
    decreases |paths|
  {
    hide PathOk, IsAncestor, EntryOf, EncodeEntry;
    if paths != [] {
      var e := EntryOf(t, root, paths[0]).value;
      ExportsAgain(t, u, root, root', paths[1..], out + EncodeEntry(e), out' + EncodeEntry(Stripped(e)));
    }
  }

  /** The sticky bit, octal 1000. */
  predicate Sticky(t: Tree, p: Path) {
    p in t.nodes &&
    match t.nodes[p]
    case Dir(mode, _) => (mode / 512) % 2 == 1
    case File(i) => i in t.inodes && (t.inodes[i].mode / 512) % 2 == 1
    case _ => false
  }

  lemma BitNine(mode: nat, high: nat, low: nat)
    requires mode == 4096 * high + low && low < 1024
    ensures (mode / 512) % 2 == low / 512
  {
    assert mode / 512 == 2 * (4 * high) + low / 512;
  }

  lemma StickyBit(mode: nat)
    requires !SetId(PermissionBits(mode))
    ensures Rwx(PermissionBits(mode)) == PermissionBits(mode) <==> (mode / 512) % 2 == 0
  {
    var low := mode % 4096;
    assert low / 1024 == 0;
    BitNine(mode, mode / 4096, low);
  }

  lemma StrippingChanges(t: Tree, root: seq<seq<byte>>, p: Path)
    requires WellFormed(t) && p in t.nodes && EntryOf(t, root, p).Ok?
    ensures Stripped(EntryOf(t, root, p).value) == EntryOf(t, root, p).value <==> !Sticky(t, p)
  {
    hide RoundMs, PathOk, Escapes, IsAncestor, Earlier, SetId, PermissionBits, Rwx;
    match t.nodes[p]
    case Dir(mode, _) => StickyBit(mode);
    case File(i) => StickyBit(t.inodes[i].mode);
    case Symlink(_, _) => assert Rwx(LINK_MODE) == LINK_MODE by { RwxOfLink(); }
  }

  lemma RwxOfLink()
    ensures Rwx(LINK_MODE) == LINK_MODE
  {
  }

  lemma ArchivesAgree(xs: seq<Entry>, ys: seq<Entry>)
    requires AllStorable(xs) && AllStorable(ys)
    ensures MAGIC + EncodeEntries(xs) == MAGIC + EncodeEntries(ys) <==> xs == ys
  {
    if EncodeArchive(xs) == EncodeArchive(ys) { EncodingInjective(xs, ys); }
  }

  /** Exporting an extracted archive succeeds, and gives the same bytes exactly when no entry has the sticky bit. */
  lemma ReExport(t: Tree, root: seq<seq<byte>>, root': seq<seq<byte>>, host: Host)
    requires WellFormed(t) && Export(t, root).Ok? && FreshName(host, t) && NoLinkClimbs(t) && SmallSkew(host)
    ensures Extract(Export(t, root).value, host).Ok? && WellFormed(Extract(Export(t, root).value, host).value)
    ensures
      var u := Extract(Export(t, root).value, host).value;
      Export(u, root').Ok? && (Export(u, root') == Export(t, root) <==> forall p :: p in t.nodes ==> !Sticky(t, p))
  {
    hide WellFormed, SameTree, FreshName, Climbing, EntryOf, ExportFrom, Extract, Sticky, SmallSkew, Storable;
    ExtractRebuilds(t, root, host);
    var u := Extract(Export(t, root).value, host).value;
    RebuiltIsWellFormed(t, u, host);
    ReExportTree(t, u, root, root', host);
  }

  lemma ReExportTree(t: Tree, u: Tree, root: seq<seq<byte>>, root': seq<seq<byte>>, host: Host)
    requires WellFormed(t) && Export(t, root).Ok? && NoLinkClimbs(t) && SmallSkew(host)
    requires SameTree(t, u, host) && WellFormed(u)
    ensures Export(u, root').Ok?
    ensures Export(u, root') == Export(t, root) <==> forall p :: p in t.nodes ==> !Sticky(t, p)
  {
    hide AllSame, SameSharing, LinksCounted, EntryOf, ExportFrom, Sticky, SmallSkew, Storable, Climbing, PathOk;
    hide IsAncestor, Sorted, TimeRight, Stripped;
    var paths := SortedKeys(t.nodes.Keys);
    ExportedEntries(t, root, paths, MAGIC);
    forall p | p in paths
      ensures p in t.nodes && p in u.nodes && EntryOf(u, root', p) == Ok(Stripped(EntryOf(t, root, p).value))
    {
      SameEntry(t, u, root, root', host, p);
    }
    ExportsAgain(t, u, root, root', paths, MAGIC, MAGIC);
    ExportedEntries(u, root', paths, MAGIC);
    var xs, ys := EntryList(t, root, paths), EntryList(u, root', paths);
    ArchivesAgree(xs, ys);
    forall k | 0 <= k < |paths| ensures xs[k] == ys[k] <==> !Sticky(t, paths[k]) {
      StrippingChanges(t, root, paths[k]);
    }
    if xs == ys {
      forall p | p in t.nodes ensures !Sticky(t, p) {
        var k :| 0 <= k < |paths| && paths[k] == p;
      }
    }
  }
}
