/** Snapshots as file trees: `exportCfs` and `extractCfs` of src/storage/cfs.ts. */
module Cfs {
  import opened Prelude
  import opened Bytes
  import opened CfsCodec

  const MAX_FILE_BYTES: nat := 256 * 1024 * 1024
  const MAX_TREE_BYTES: nat := 1024 * 1024 * 1024

  /** What lstat reports as the permission bits of every symbolic link on Linux, octal 777. */
  const LINK_MODE: nat := 511

  /** Octal 700. */
  const PRIVATE_MODE: nat := 448

  type Path = seq<byte>
  type InodeId = nat

  datatype Node =
    | Dir(mode: nat, mtime: int)
    | File(inode: InodeId)
    | Symlink(target: seq<byte>, mtime: int)
    | Special(mode: nat, mtime: int)

  datatype Inode = Inode(mode: nat, mtime: int, nlink: nat, content: seq<byte>)

  /** A workspace below its root, by relative path. Times are in nanoseconds. */
  datatype Tree = Tree(nodes: map<Path, Node>, inodes: map<InodeId, Inode>)

  predicate IsAncestor(a: Path, p: Path) {
    |a| < |p| && p[..|a|] == a && p[|a|] == SLASH
  }

  /** What any file system guarantees: paths have parts, contents lie in directories, an inode with two names has two
      links. */
  ghost predicate WellFormed(t: Tree) {
    (forall p :: p in t.nodes ==> PathOk(p)) &&
    (forall p, a :: p in t.nodes && IsAncestor(a, p) ==> a in t.nodes && t.nodes[a].Dir?) &&
    (forall p :: p in t.nodes && t.nodes[p].File? ==> t.nodes[p].inode in t.inodes) &&
    (forall p, q :: p in t.nodes && q in t.nodes && p != q && t.nodes[p].File? && t.nodes[p] == t.nodes[q] ==>
       t.inodes[t.nodes[p].inode].nlink > 1) &&
    (forall p :: p in t.nodes && t.nodes[p].Symlink? ==> 0 !in t.nodes[p].target)
  }

  // ---------------------------------------------------------------- rounding of times

  /** Division of BigInt values truncates toward zero. */
  function TruncatedDiv(a: int, b: int): int
    requires b > 0
  {
    if a >= 0 then a / b else -((-a) / b)
  }

  /** The exporter rounds to the nearest millisecond. */
  function RoundMs(ns: int): int {
    TruncatedDiv(ns + 500_000, 1_000_000) * 1_000_000
  }

  /** Rounding a rounded time changes nothing, even when the time read back is off by less than half a millisecond. */
  lemma RoundingAbsorbs(ns: int, error: int)
    requires RoundMs(ns) >= 0 && -500_000 < error < 500_000
    ensures RoundMs(RoundMs(ns) + error) == RoundMs(ns)
  {
    var q := TruncatedDiv(ns + 500_000, 1_000_000);
    assert (q * 1_000_000 + error + 500_000) / 1_000_000 == q;
  }

  // ---------------------------------------------------------------- symbolic links

  /** `resolve` on path parts: '.' and empty parts vanish, '..' drops the part before it. */
  function Normalize(stack: seq<seq<byte>>, parts: seq<seq<byte>>): seq<seq<byte>>
    decreases |parts|
  {
    if parts == [] then stack
    else
      var part := parts[0];
      var stack' := if part == [] || part == [DOT] then stack
                    else if part == [DOT, DOT] then (if stack == [] then [] else stack[..|stack| - 1])
                    else stack + [part];
      Normalize(stack', parts[1..])
  }

  function ParentParts(p: Path): seq<seq<byte>> {
    Split(p)[..|Split(p)| - 1]
  }

  /** The target is absolute, or resolves outside the root directory. */
  predicate Escapes(root: seq<seq<byte>>, p: Path, target: seq<byte>) {
    (target != [] && target[0] == SLASH) || !(root <= Normalize(root + ParentParts(p), Split(target)))
  }

  /** Somewhere on its way the target leaves the directory that is `depth` levels up. */
  predicate Climbs(depth: nat, parts: seq<seq<byte>>)
    decreases |parts|
  {
    parts != [] &&
    (if parts[0] == [] || parts[0] == [DOT] then Climbs(depth, parts[1..])
     else if parts[0] == [DOT, DOT] then depth == 0 || Climbs(depth - 1, parts[1..])
     else Climbs(depth + 1, parts[1..]))
  }

  predicate LinkClimbs(p: Path, target: seq<byte>) {
    Climbs(|ParentParts(p)|, Split(target))
  }

  /** A target that never climbs stays inside whatever the root is called. */
  lemma {:induction false} NoClimbInside(root: seq<seq<byte>>, stack: seq<seq<byte>>, parts: seq<seq<byte>>)
    requires root <= stack && !Climbs(|stack| - |root|, parts)
    ensures root <= Normalize(stack, parts)
    decreases |parts|
  {
    if parts != [] {
      if parts[0] == [] || parts[0] == [DOT] {
        NoClimbInside(root, stack, parts[1..]);
      } else if parts[0] == [DOT, DOT] {
        NoClimbInside(root, stack[..|stack| - 1], parts[1..]);
      } else {
        NoClimbInside(root, stack + [parts[0]], parts[1..]);
      }
    }
  }

  predicate BelowElsewhere(root: seq<seq<byte>>, stack: seq<seq<byte>>)
    requires root != []
  {
    |stack| < |root| || stack[|root| - 1] != root[|root| - 1]
  }

  /** Once outside a root whose own name the target does not mention, the target does not come back. */
  lemma {:induction false} StaysOutside(root: seq<seq<byte>>, stack: seq<seq<byte>>, parts: seq<seq<byte>>)
    requires root != [] && root[|root| - 1] !in parts && BelowElsewhere(root, stack)
    ensures !(root <= Normalize(stack, parts))
    decreases |parts|
  {
    if parts != [] {
      assert parts[0] in parts && forall part :: part in parts[1..] ==> part in parts;
      if parts[0] == [] || parts[0] == [DOT] {
        StaysOutside(root, stack, parts[1..]);
      } else if parts[0] == [DOT, DOT] {
        StaysOutside(root, if stack == [] then [] else stack[..|stack| - 1], parts[1..]);
      } else {
        StaysOutside(root, stack + [parts[0]], parts[1..]);
      }
    }
  }

  /** A target that climbs out of a root it does not mention ends outside. */
  lemma {:induction false} ClimbEscapes(root: seq<seq<byte>>, stack: seq<seq<byte>>, parts: seq<seq<byte>>)
    requires root != [] && root <= stack && root[|root| - 1] !in parts && Climbs(|stack| - |root|, parts)
    ensures !(root <= Normalize(stack, parts))
    decreases |parts|
  {
    assert parts[0] in parts && forall part :: part in parts[1..] ==> part in parts;
    if parts[0] == [] || parts[0] == [DOT] {
      ClimbEscapes(root, stack, parts[1..]);
    } else if parts[0] == [DOT, DOT] {
      if |stack| == |root| {
        StaysOutside(root, stack[..|stack| - 1], parts[1..]);
      } else {
        ClimbEscapes(root, stack[..|stack| - 1], parts[1..]);
      }
    } else {
      ClimbEscapes(root, stack + [parts[0]], parts[1..]);
    }
  }

  /** With a staging directory name that the target does not mention, the extractor's check is exactly this. */
  lemma EscapesExactlyWhenClimbing(root: seq<seq<byte>>, p: Path, target: seq<byte>)
    requires root != [] && root[|root| - 1] !in Split(target) && (target == [] || target[0] != SLASH)
    ensures Escapes(root, p, target) <==> LinkClimbs(p, target)
  {
    if LinkClimbs(p, target) {
      ClimbEscapes(root, root + ParentParts(p), Split(target));
    } else {
      NoClimbInside(root, root + ParentParts(p), Split(target));
    }
  }

  // ---------------------------------------------------------------- export

  ghost function Holders(t: Tree, i: InodeId): set<Path> {
    set q | q in t.nodes && t.nodes[q] == File(i)
  }

  /** The first path, in archive order, of an inode: it carries the contents, the others are hard links to it. */
  ghost function FirstHolder(t: Tree, i: InodeId): (p: Path)
    requires exists q :: q in t.nodes && t.nodes[q] == File(i)
    ensures p in t.nodes && t.nodes[p] == File(i)
    ensures forall q :: q in t.nodes && t.nodes[q] == File(i) ==> q == p || Before(p, q)
  {
    var q :| q in t.nodes && t.nodes[q] == File(i);
    assert q in Holders(t, i);
    Least(Holders(t, i))
  }

  function PermissionBits(mode: nat): nat {
    mode % 4096
  }

  /** The entry, when its numbers fit their fields. */
  function Fitted(p: Path, kind: byte, mode: nat, mtime: int, payload: seq<byte>): Result<Entry, CfsError> {
    if |p| >= 0x1_0000_0000 || RoundMs(mtime) < 0 || RoundMs(mtime) >= 0x1_0000_0000_0000_0000 then Err(OutOfRange)
    else Ok(Entry(p, kind, mode, RoundMs(mtime), payload))
  }

  /** The entry of a path when the earlier path with its inode, if any, is known, and whether a link there is
      refused. */
  function EntryGiven(t: Tree, p: Path, earlier: Option<Path>, refused: bool): Result<Entry, CfsError>
    requires p in t.nodes && (t.nodes[p].File? ==> t.nodes[p].inode in t.inodes)
  {
    match t.nodes[p]
    case Special(_, _) => Err(Unsupported)
    case Dir(mode, mtime) =>
      if SetId(PermissionBits(mode)) then Err(Unsupported)
      else Fitted(p, TYPE_DIRECTORY, PermissionBits(mode), mtime, [])
    case Symlink(target, mtime) =>
      if refused then Err(Unsupported) else Fitted(p, TYPE_SYMLINK, LINK_MODE, mtime, target)
    case File(i) =>
      var inode := t.inodes[i];
      var mode := PermissionBits(inode.mode);
      if SetId(mode) then Err(Unsupported)
      else if |inode.content| > MAX_FILE_BYTES then Err(TooLarge)
      else if earlier.Some? then Fitted(p, TYPE_HARDLINK, mode, inode.mtime, earlier.value)
      else Fitted(p, TYPE_FILE, mode, inode.mtime, inode.content)
  }

  /** The host's exporter refuses a link whose target escapes the root. */
  predicate LinkRefused(t: Tree, root: seq<seq<byte>>, p: Path)
    requires p in t.nodes
  {
    t.nodes[p].Symlink? && Escapes(root, p, t.nodes[p].target)
  }

  ghost function Earlier(t: Tree, p: Path): Option<Path>
    requires p in t.nodes
  {
    match t.nodes[p]
    case File(i) => if FirstHolder(t, i) == p then None else Some(FirstHolder(t, i))
    case _ => None
  }

  ghost function EntryOf(t: Tree, root: seq<seq<byte>>, p: Path): Result<Entry, CfsError>
    requires p in t.nodes && (t.nodes[p].File? ==> t.nodes[p].inode in t.inodes)
  {
    EntryGiven(t, p, Earlier(t, p), LinkRefused(t, root, p))
  }

  /** The archive of the given paths after what is already written; the size limit holds at every append. */
  ghost function ExportFrom(t: Tree, root: seq<seq<byte>>, paths: seq<Path>, out: seq<byte>)
    : Result<seq<byte>, CfsError>
    requires WellFormed(t) && forall p :: p in paths ==> p in t.nodes
    decreases |paths|
  {
    if paths == [] then Ok(out)
    else
      match EntryOf(t, root, paths[0])
      case Err(e) => Err(e)
      case Ok(entry) =>
        if |out| + |EncodeEntry(entry)| > MAX_TREE_BYTES then Err(TooLarge)
        else
          assert forall p :: p in paths[1..] ==> p in paths;
          ExportFrom(t, root, paths[1..], out + EncodeEntry(entry))
  }

  /** The snapshot of a tree: its entries in the order of Buffer.compare. */
  ghost function Export(t: Tree, root: seq<seq<byte>>): Result<seq<byte>, CfsError>
    requires WellFormed(t)
  {
    ExportFrom(t, root, SortedKeys(t.nodes.Keys), MAGIC)
  }

  /** `collectEntries`: every path once, sorted. */
  method CollectEntries(t: Tree) returns (paths: seq<Path>)
    ensures paths == SortedKeys(t.nodes.Keys)
  {
    paths := SortKeys(t.nodes.Keys);
  }

  /** The paths before the n-th. */
  function Taken(paths: seq<Path>, n: nat): set<Path>
    requires n <= |paths|
  {
    set p | p in paths[..n]
  }

  lemma TakenNext(paths: seq<Path>, n: nat)
    requires n < |paths|
    ensures Taken(paths, n + 1) == Taken(paths, n) + {paths[n]}
  {
    assert paths[..n + 1] == paths[..n] + [paths[n]];
  }

  /** In a sorted list the paths before the n-th are those that compare less. */
  lemma TakenAreBefore(paths: seq<Path>, n: nat, q: Path)
    requires Sorted(paths) && n < |paths| && q in paths
    ensures q in Taken(paths, n) <==> Before(q, paths[n])
  {
    var m :| 0 <= m < |paths| && paths[m] == q;
    if m < n {
      assert paths[..n][m] == q;
    } else {
      if Before(q, paths[n]) {
        if m > n { BeforeTransitive(q, paths[n], q); }
        BeforeIrreflexive(q);
      }
      forall k | 0 <= k < n ensures paths[k] != q {
        assert Before(paths[k], paths[m]);
        BeforeIrreflexive(q);
      }
    }
  }

  ghost predicate IsFirst(t: Tree, p: Path, i: InodeId) {
    p in t.nodes && t.nodes[p] == File(i) && FirstHolder(t, i) == p
  }

  predicate ManyLinks(t: Tree, p: Path, i: InodeId) {
    p in t.nodes && t.nodes[p] == File(i) && i in t.inodes && t.inodes[i].nlink > 1
  }

  /** The table has the first holder of each inode with several links that has been exported. */
  ghost predicate LinksOk(t: Tree, done: set<Path>, hardLinks: map<InodeId, Path>) {
    (forall i :: i in hardLinks ==> hardLinks[i] in done && IsFirst(t, hardLinks[i], i)) &&
    (forall p, i :: p in done && ManyLinks(t, p, i) ==> i in hardLinks)
  }

  /** What the table says of the next path is what the order of the paths says. */
  lemma TableKnowsEarlier(t: Tree, paths: seq<Path>, n: nat, hardLinks: map<InodeId, Path>)
    requires WellFormed(t) && paths == SortedKeys(t.nodes.Keys) && n < |paths| && t.nodes[paths[n]].File?
    requires LinksOk(t, Taken(paths, n), hardLinks)
    ensures var i := t.nodes[paths[n]].inode;
      Earlier(t, paths[n]) == if t.inodes[i].nlink > 1 && i in hardLinks then Some(hardLinks[i]) else None
  {
    var p := paths[n];
    var i := t.nodes[p].inode;
    var first := FirstHolder(t, i);
    TakenAreBefore(paths, n, first);
    if first != p {
      assert ManyLinks(t, first, i);
    } else {
      BeforeIrreflexive(p);
    }
  }

  lemma LinksAfter(t: Tree, paths: seq<Path>, n: nat, hardLinks: map<InodeId, Path>, hardLinks': map<InodeId, Path>)
    requires n < |paths| && paths[n] in t.nodes && LinksOk(t, Taken(paths, n), hardLinks)
    requires
      var p := paths[n];
      if t.nodes[p].File? && ManyLinks(t, p, t.nodes[p].inode) && t.nodes[p].inode !in hardLinks
      then IsFirst(t, p, t.nodes[p].inode) && hardLinks' == hardLinks[t.nodes[p].inode := p]
      else hardLinks' == hardLinks
    ensures LinksOk(t, Taken(paths, n + 1), hardLinks')
  {
    TakenNext(paths, n);
  }

  /** The entry of the n-th path, found with the table alone, and the table after it. */
  method NextEntry(t: Tree, ghost paths: seq<Path>, ghost n: nat, p: Path, refused: bool, hardLinks: map<InodeId, Path>)
    returns (entry: Result<Entry, CfsError>, hardLinks': map<InodeId, Path>)
    requires WellFormed(t) && paths == SortedKeys(t.nodes.Keys) && n < |paths| && p == paths[n] && p in t.nodes
    requires LinksOk(t, Taken(paths, n), hardLinks)
    ensures entry == EntryGiven(t, p, Earlier(t, p), refused) && LinksOk(t, Taken(paths, n + 1), hardLinks')
  {
    var earlier: Option<Path> := None;
    hardLinks' := hardLinks;
    if t.nodes[p].File? {
      var i := t.nodes[p].inode;
      TableKnowsEarlier(t, paths, n, hardLinks);
      if t.inodes[i].nlink > 1 {
        if i in hardLinks { earlier := Some(hardLinks[i]); } else { hardLinks' := hardLinks[i := p]; }
      }
    }
    LinksAfter(t, paths, n, hardLinks, hardLinks');
    entry := EntryGiven(t, p, earlier, refused);
  }

  /** `exportCfs`: one pass over the sorted paths with a table of the inodes already stored. */
  method ExportCfs(t: Tree, root: seq<seq<byte>>) returns (archive: Result<seq<byte>, CfsError>)
    requires WellFormed(t)
    ensures archive == Export(t, root)
  {
    var out := MAGIC;
    var hardLinks: map<InodeId, Path> := map[];
    var paths := CollectEntries(t);
    var n := 0;
    assert paths[0..] == paths;
    while n < |paths|
      invariant 0 <= n <= |paths| && forall p :: p in paths[n..] ==> p in t.nodes
      invariant LinksOk(t, Taken(paths, n), hardLinks)
      invariant Export(t, root) == ExportFrom(t, root, paths[n..], out)
    {
      assert paths[n..][0] == paths[n] && paths[n..][1..] == paths[n + 1..];
      var entry, links := NextEntry(t, paths, n, paths[n], LinkRefused(t, root, paths[n]), hardLinks);
      if entry.Err? { return Err(entry.error); }
      if |out| + |EncodeEntry(entry.value)| > MAX_TREE_BYTES { return Err(TooLarge); }
      out := out + EncodeEntry(entry.value);
      hardLinks := links;
      n := n + 1;
    }
    return Ok(out);
  }

  // ---------------------------------------------------------------- extraction

  /** What the host contributes: the staging directory, the clock, and how far off a time set with `utimes` reads
      back. */
  datatype Host = Host(staging: seq<seq<byte>>, now: int, skew: int -> int)

  datatype DirTime = DirTime(path: Path, mtime: nat)

  /** The staging directory, `entryTypes` and `directoryTimes`. */
  datatype Staging = Staging(
    nodes: map<Path, Node>,
    inodes: map<InodeId, Inode>,
    kinds: map<Path, byte>,
    dirTimes: seq<DirTime>,
    next: InodeId)

  const EMPTY_STAGING := Staging(map[], map[], map[], [], 0)

  function StoredTime(host: Host, mtime: int): int {
    mtime + host.skew(mtime)
  }

  /** The mode after `chmod(mode & 0o777)`. */
  function Rwx(mode: nat): nat {
    mode % 512
  }

  /** The position of the last '/'. */
  function LastSlash(p: Path): (n: Option<nat>)
    ensures n.Some? ==> n.value < |p| && p[n.value] == SLASH
  {
    if p == [] then None
    else if p[|p| - 1] == SLASH then Some(|p| - 1)
    else LastSlash(p[..|p| - 1])
  }

  function ParentOf(p: Path): (a: Option<Path>)
    ensures a.Some? ==> IsAncestor(a.value, p)
  {
    match LastSlash(p)
    case None => None
    case Some(n) => Some(p[..n])
  }

  /** Creating or linking an entry changes the time of its directory. */
  function Touch(nodes: map<Path, Node>, p: Path, now: int): map<Path, Node> {
    match ParentOf(p)
    case Some(a) => if a in nodes && nodes[a].Dir? then nodes[a := Dir(nodes[a].mode, now)] else nodes
    case None => nodes
  }

  /** `mkdir` with `recursive` on the parent of `p`. */
  function MakeParents(nodes: map<Path, Node>, p: Path, now: int): Result<map<Path, Node>, CfsError>
    decreases |p|
  {
    match ParentOf(p)
    case None => Ok(nodes)
    case Some(a) =>
      if a in nodes then (if nodes[a].Dir? then Ok(nodes) else Err(NotADirectory))
      else
        match MakeParents(nodes, a, now)
        case Err(e) => Err(e)
        case Ok(made) => Ok(Touch(made, a, now)[a := Dir(PRIVATE_MODE, now)])
  }

  /** `assertNoSymlinkAncestor`. */
  predicate UnderSymlink(p: Path, kinds: map<Path, byte>) {
    exists a :: a in kinds && kinds[a] == TYPE_SYMLINK && IsAncestor(a, p)
  }

  /** The entry's own system calls, by type; its path does not exist yet. */
  function Place(st: Staging, e: Entry, host: Host): (placed: Result<Staging, CfsError>)
    ensures placed.Ok? ==> placed.value.kinds == st.kinds
  {
    var nodes := Touch(st.nodes, e.path, host.now);
    if e.kind == TYPE_DIRECTORY then
      Ok(st.(nodes := nodes[e.path := Dir(Rwx(e.mode), host.now)],
             dirTimes := st.dirTimes + [DirTime(e.path, e.mtime)]))
    else if e.kind == TYPE_FILE then
      Ok(st.(nodes := nodes[e.path := File(st.next)],
             inodes := st.inodes[st.next := Inode(Rwx(e.mode), StoredTime(host, e.mtime), 1, e.payload)],
             next := st.next + 1))
    else if e.kind == TYPE_SYMLINK then
      if 0 in e.payload || Escapes(host.staging, e.path, e.payload) then Err(Unsupported)
      else Ok(st.(nodes := nodes[e.path := Symlink(e.payload, StoredTime(host, e.mtime))]))
    else if e.kind == TYPE_HARDLINK then
      if !PathOk(e.payload) || e.payload !in st.kinds || st.kinds[e.payload] != TYPE_FILE then Err(Unsupported)
      else if e.payload !in st.nodes || !st.nodes[e.payload].File? || st.nodes[e.payload].inode !in st.inodes then
        Err(NotADirectory)
      else
        var i := st.nodes[e.payload].inode;
        var inode := st.inodes[i].(mode := Rwx(e.mode), mtime := StoredTime(host, e.mtime),
                                   nlink := st.inodes[i].nlink + 1);
        Ok(st.(nodes := nodes[e.path := File(i)], inodes := st.inodes[i := inode]))
    else Err(Unsupported)
  }

  /** One round of the extraction loop. */
  function ApplyEntry(st: Staging, e: Entry, host: Host): Result<Staging, CfsError> {
    if UnderSymlink(e.path, st.kinds) then Err(Unsupported)
    else
      match MakeParents(st.nodes, e.path, host.now)
      case Err(error) => Err(error)
      case Ok(nodes) =>
        if e.path in nodes then Err(FileExists)
        else
          match Place(st.(nodes := nodes), e, host)
          case Err(error) => Err(error)
          case Ok(st') => Ok(st'.(kinds := st'.kinds[e.path := e.kind]))
  }

  /** The times of the directories, set last and in reverse. */
  function SetTimes(nodes: map<Path, Node>, times: seq<DirTime>, host: Host): map<Path, Node> {
    if times == [] then nodes
    else
      var d := times[|times| - 1];
      var nodes' :=
        if d.path in nodes && nodes[d.path].Dir? then
          nodes[d.path := Dir(nodes[d.path].mode, StoredTime(host, d.mtime))]
        else nodes;
      SetTimes(nodes', times[..|times| - 1], host)
  }

  function ExtractFrom(buffer: seq<byte>, offset: nat, st: Staging, host: Host): Result<Tree, CfsError>
    requires offset <= |buffer|
    decreases |buffer| - offset
  {
    if offset == |buffer| then Ok(Tree(SetTimes(st.nodes, st.dirTimes, host), st.inodes))
    else
      match ReadEntry(buffer, offset)
      case Err(e) => Err(e)
      case Ok(Read(entry, next)) =>
        match ApplyEntry(st, entry, host)
        case Err(e) => Err(e)
        case Ok(st') => ExtractFrom(buffer, next, st', host)
  }

  function Extract(archive: seq<byte>, host: Host): Result<Tree, CfsError> {
    if |archive| < |MAGIC| || archive[..|MAGIC|] != MAGIC then Err(BadMagic)
    else ExtractFrom(archive, |MAGIC|, EMPTY_STAGING, host)
  }

  /** `extractCfs`: the destination is replaced only when the whole archive was extracted. */
  method ExtractCfs(archive: seq<byte>, host: Host) returns (tree: Result<Tree, CfsError>)
    ensures tree == Extract(archive, host)
  {
    if |archive| < |MAGIC| || archive[..|MAGIC|] != MAGIC { return Err(BadMagic); }
    var offset := |MAGIC|;
    var st := EMPTY_STAGING;
    while offset < |archive|
      invariant offset <= |archive|
      invariant Extract(archive, host) == ExtractFrom(archive, offset, st, host)
    {
      var decoded := ReadEntry(archive, offset);
      if decoded.Err? { return Err(decoded.error); }
      var applied := ApplyEntry(st, decoded.value.value, host);
      if applied.Err? { return Err(applied.error); }
      st := applied.value;
      offset := decoded.value.next;
    }
    var nodes := st.nodes;
    var left := |st.dirTimes|;
    assert st.dirTimes[..left] == st.dirTimes;
    while left > 0
      invariant 0 <= left <= |st.dirTimes|
      invariant SetTimes(st.nodes, st.dirTimes, host) == SetTimes(nodes, st.dirTimes[..left], host)
    {
      var d := st.dirTimes[left - 1];
      assert st.dirTimes[..left][..left - 1] == st.dirTimes[..left - 1];
      if d.path in nodes && nodes[d.path].Dir? {
        nodes := nodes[d.path := Dir(nodes[d.path].mode, StoredTime(host, d.mtime))];
      }
      left := left - 1;
    }
    return Ok(Tree(nodes, st.inodes));
  }
}
