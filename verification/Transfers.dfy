/** Chunked file writes and edits of workspace files: the write calls of agent/src/file_ops.rs
    and the client loop of src/backends/agent-files.ts. */
module Transfers {
  import opened Prelude
  import opened LineEdits
  import opened Encoding

  const MAX_FILE_CHUNK_BYTES: nat := 384 * 1024
  const MAX_FILE_WRITE_BYTES: nat := 256 * 1024 * 1024
  const MAX_TRANSFERS: nat := 8

  /** Octal 600. */
  const WRITTEN_MODE: nat := 384

  type Path = seq<byte>
  type TransferId = nat

  /** What a path names: a regular file, or something an edit refuses. */
  datatype Row = Regular(mode: nat, content: seq<byte>) | NotRegular

  type Files = map<Path, Row>

  datatype Failure = BadRequest | Capacity | NotFound | TooLarge | Refused | StaleDigest(current: seq<byte>)

  /** A reply; digests are collision-free, so the digest of a file stands for its bytes. */
  datatype Reply =
    | Done
    | Written(size: nat, digest: seq<byte>)
    | EditDone(digest: seq<byte>, linesBefore: nat, linesAfter: nat)
    | Failed(failure: Failure)

  /** A transfer: the bytes in its temporary file, and the bytes its size and digest count. */
  datatype PendingWrite = PendingWrite(path: Path, content: seq<byte>, counted: seq<byte>)

  datatype Service = Service(files: Files, writes: map<TransferId, PendingWrite>)

  /** How far publishing a temporary file gets: the rename fails, the sync of the directory after it fails, or
      neither. */
  datatype Publishing = NotRenamed | NotSynced | Synced

  /** A request. What the file system says of it comes with it: whether the parent opens, how many bytes of a chunk
      the disk takes, how far publishing gets. */
  datatype Request =
    | Begin(id: TransferId, path: Path, opens: bool)
    | Chunk(id: TransferId, data: seq<byte>, taken: nat)
    | Commit(id: TransferId, publishing: Publishing)
    | Abort(id: TransferId)
    | EditFile(path: Path, expected: seq<byte>, edits: seq<Edit>, publishing: Publishing)

  // ---------------------------------------------------------------- one request

  function ReplyTo(s: Service, r: Request): Reply
    requires !r.EditFile?
  {
    match r
    case Begin(id, path, opens) =>
      if id in s.writes then Failed(BadRequest)
      else if |s.writes| >= MAX_TRANSFERS then Failed(Capacity)
      else if !opens then Failed(Refused)
      else Done
    case Chunk(id, data, taken) =>
      if |data| > MAX_FILE_CHUNK_BYTES then Failed(BadRequest)
      else if id !in s.writes then Failed(NotFound)
      else if |s.writes[id].counted| + |data| > MAX_FILE_WRITE_BYTES then Failed(TooLarge)
      else if taken < |data| then Failed(Refused)
      else Done
    case Commit(id, publishing) =>
      if id !in s.writes then Failed(NotFound)
      else if !publishing.Synced? then Failed(Refused)
      else Written(|s.writes[id].counted|, s.writes[id].counted)
    case Abort(_) => Done
    case EditFile(_, _, _, _) => Done
  }

  /** What an edit call is going to publish, or why it refuses. */
  ghost function EditOutcome(s: Service, path: Path, expected: seq<byte>, edits: seq<Edit>): Result<Edited, Failure> {
    if path !in s.files then Err(NotFound)
    else if s.files[path].NotRegular? then Err(BadRequest)
    else
      var content := s.files[path].content;
      if |content| > MAX_EDIT_FILE_BYTES then Err(TooLarge)
      else if content != expected then Err(StaleDigest(content))
      else if !Utf8(content) then Err(BadRequest)
      else
        match EditedFile(content, multiset(edits))
        case Err(FileTooLarge) => Err(TooLarge)
        case Err(InvalidArgument) => Err(BadRequest)
        case Ok(edited) => Ok(edited)
  }

  ghost function ReplyOf(s: Service, r: Request): Reply {
    if !r.EditFile? then ReplyTo(s, r)
    else
      match EditOutcome(s, r.path, r.expected, r.edits)
      case Err(failure) => Failed(failure)
      case Ok(e) => if r.publishing.Synced? then EditDone(e.bytes, e.linesBefore, e.linesAfter) else Failed(Refused)
  }

  /** A chunk the disk refuses leaves what it took in the temporary file, uncounted. */
  function AfterChunk(w: PendingWrite, data: seq<byte>, taken: nat): PendingWrite {
    if taken < |data| then w.(content := w.content + data[..taken])
    else PendingWrite(w.path, w.content + data, w.counted + data)
  }

  /** The service after a transfer request. */
  function AfterTransfer(s: Service, r: Request): Service
    requires !r.EditFile?
  {
    match r
    case Begin(id, path, _) =>
      if ReplyTo(s, r).Done? then s.(writes := s.writes[id := PendingWrite(path, [], [])]) else s
    case Chunk(id, data, taken) =>
      if |data| > MAX_FILE_CHUNK_BYTES || id !in s.writes then s
      else if ReplyTo(s, r) == Failed(TooLarge) then s.(writes := s.writes - {id})
      else s.(writes := s.writes[id := AfterChunk(s.writes[id], data, taken)])
    case Commit(id, publishing) =>
      if id !in s.writes then s
      else
        var w := s.writes[id];
        Service(if publishing.NotRenamed? then s.files
                else s.files[w.path := Regular(WRITTEN_MODE, w.content)], s.writes - {id})
    case Abort(id) => s.(writes := s.writes - {id})
    case EditFile(_, _, _, _) => s
  }

  /** An edited file keeps its permission bits. */
  ghost function Next(s: Service, r: Request): Service {
    if !r.EditFile? then AfterTransfer(s, r)
    else
      match EditOutcome(s, r.path, r.expected, r.edits)
      case Err(_) => s
      case Ok(e) =>
        if r.publishing.NotRenamed? then s
        else s.(files := s.files[r.path := Regular(s.files[r.path].mode % 512, e.bytes)])
  }

  class FileService {
    var files: Files
    var writes: map<TransferId, PendingWrite>

    constructor (files: Files)
      ensures View() == Service(files, map[])
    {
      this.files, writes := files, map[];
    }

    ghost function View(): Service
      reads this
    {
      Service(files, writes)
    }

    method FileWriteBegin(id: TransferId, path: Path, opens: bool) returns (reply: Reply)
      modifies this
      ensures reply == ReplyTo(old(View()), Begin(id, path, opens))
      ensures View() == Next(old(View()), Begin(id, path, opens))
      ensures files == old(files)
      ensures reply ==
        if id in old(writes) then Failed(BadRequest)
        else if |old(writes)| >= 8 then Failed(Capacity)
        else if !opens then Failed(Refused) else Done
      ensures writes == if reply.Done? then old(writes)[id := PendingWrite(path, [], [])] else old(writes)
    {
      if id in writes { return Failed(BadRequest); }
      if |writes| >= MAX_TRANSFERS { return Failed(Capacity); }
      if !opens { return Failed(Refused); }
      writes := writes[id := PendingWrite(path, [], [])];
      return Done;
    }

    method FileWriteChunk(id: TransferId, data: seq<byte>, taken: nat) returns (reply: Reply)
      modifies this
      ensures reply == ReplyTo(old(View()), Chunk(id, data, taken))
      ensures View() == Next(old(View()), Chunk(id, data, taken))
      ensures files == old(files)
      ensures |data| > 384 * 1024 ==> reply == Failed(BadRequest) && writes == old(writes)
      ensures |data| <= 384 * 1024 && id !in old(writes) ==> reply == Failed(NotFound) && writes == old(writes)
      ensures |data| <= 384 * 1024 && id in old(writes) ==>
        var w := old(writes)[id];
        if |w.counted| + |data| > 256 * 1024 * 1024 then reply == Failed(TooLarge) && writes == old(writes) - {id}
        else if taken < |data| then
          reply == Failed(Refused) &&
          writes == old(writes)[id := PendingWrite(w.path, w.content + data[..taken], w.counted)]
        else reply == Done && writes == old(writes)[id := PendingWrite(w.path, w.content + data, w.counted + data)]
    {
      if |data| > MAX_FILE_CHUNK_BYTES { return Failed(BadRequest); }
      if id !in writes { return Failed(NotFound); }
      var pending := writes[id];
      var next := |pending.counted| + |data|;
      if next > MAX_FILE_WRITE_BYTES {
        writes := writes - {id};
        return Failed(TooLarge);
      }
      if taken < |data| {
        writes := writes[id := pending.(content := pending.content + data[..taken])];
        return Failed(Refused);
      }
      writes := writes[id := pending.(content := pending.content + data, counted := pending.counted + data)];
      return Done;
    }

    method FileWriteCommit(id: TransferId, publishing: Publishing) returns (reply: Reply)
      modifies this
      ensures reply == ReplyTo(old(View()), Commit(id, publishing))
      ensures View() == Next(old(View()), Commit(id, publishing))
      ensures writes == old(writes) - {id}
      ensures id !in old(writes) ==> reply == Failed(NotFound) && files == old(files)
      ensures id in old(writes) ==>
        var w := old(writes)[id];
        reply == (if publishing.Synced? then Written(|w.counted|, w.counted) else Failed(Refused)) &&
        files == if publishing.NotRenamed? then old(files) else old(files)[w.path := Regular(6 * 64, w.content)]
    {
      if id !in writes {
        assert writes - {id} == writes;
        return Failed(NotFound);
      }
      var pending := writes[id];
      writes := writes - {id};
      if publishing.NotRenamed? { return Failed(Refused); }
      files := files[pending.path := Regular(WRITTEN_MODE, pending.content)];
      if publishing.NotSynced? { return Failed(Refused); }
      return Written(|pending.counted|, pending.counted);
    }

    method FileWriteAbort(id: TransferId)
      modifies this
      ensures View() == Next(old(View()), Abort(id))
      ensures files == old(files) && writes == old(writes) - {id}
    {
      writes := writes - {id};
    }

    /** `file_edit`: the digest decides whether the file is the one the edits were made for. The refusals come in this
        order; whatever is published was made for the content the file had. */
    method FileEdit(path: Path, expected: seq<byte>, edits: seq<Edit>, publishing: Publishing) returns (reply: Reply)
      modifies this
      ensures reply == ReplyOf(old(View()), EditFile(path, expected, edits, publishing))
      ensures View() == Next(old(View()), EditFile(path, expected, edits, publishing))
      ensures writes == old(writes)
      ensures path !in old(files) ==> reply == Failed(NotFound)
      ensures path in old(files) && old(files)[path].NotRegular? ==> reply == Failed(BadRequest)
      ensures path in old(files) && old(files)[path].Regular? ==>
        var content := old(files)[path].content;
        if |content| > 16 * 1024 * 1024 then reply == Failed(TooLarge)
        else if content != expected then reply == Failed(StaleDigest(content))
        else if !Utf8(content) then reply == Failed(BadRequest)
        else
          match EditedFile(content, multiset(edits))
          case Err(FileTooLarge) => reply == Failed(TooLarge)
          case Err(InvalidArgument) => reply == Failed(BadRequest)
          case Ok(e) =>
            reply == if publishing.Synced? then EditDone(e.bytes, e.linesBefore, e.linesAfter) else Failed(Refused)
      ensures reply.EditDone? || files != old(files) ==>
        path in old(files) && old(files)[path].Regular? && old(files)[path].content == expected &&
        EditedFile(expected, multiset(edits)).Ok? && !publishing.NotRenamed? &&
        files == old(files)[path := Regular(old(files)[path].mode % 512,
                                            EditedFile(expected, multiset(edits)).value.bytes)]
    {
      hide EditedFile, Utf8;
      if path !in files { return Failed(NotFound); }
      var row := files[path];
      if row.NotRegular? { return Failed(BadRequest); }
      if |row.content| > MAX_EDIT_FILE_BYTES { return Failed(TooLarge); }
      if row.content != expected { return Failed(StaleDigest(row.content)); }
      if !Utf8(row.content) { return Failed(BadRequest); }
      var edited := EditBytes(row.content, edits);
      if edited.Err? { return Failed(if edited.error.FileTooLarge? then TooLarge else BadRequest); }
      if publishing.NotRenamed? { return Failed(Refused); }
      files := files[path := Regular(row.mode % 512, edited.value.bytes)];
      if publishing.NotSynced? { return Failed(Refused); }
      return EditDone(edited.value.bytes, edited.value.linesBefore, edited.value.linesAfter);
    }
  }

  ghost predicate TextContents(edits: seq<Edit>) {
    forall e :: e in edits ==> Utf8(ContentOf(e))
  }

  /** A published edit can be followed by the next one: made for the digest it answered, a further edit gets past every
      check of the file itself, and only its own edits decide. */
  lemma EditsFollow(s: Service, path: Path, expected: seq<byte>, edits: seq<Edit>, publishing: Publishing,
                    more: seq<Edit>)
    requires EditOutcome(s, path, expected, edits).Ok? && !publishing.NotRenamed? && TextContents(edits)
    ensures
      var bytes := EditOutcome(s, path, expected, edits).value.bytes;
      var s' := Next(s, EditFile(path, expected, edits, publishing));
      path in s'.files && s'.files[path] == Regular(s.files[path].mode % 512, bytes) &&
      match EditedFile(bytes, multiset(more))
      case Ok(edited) => EditOutcome(s', path, bytes, more) == Ok(edited)
      case Err(FileTooLarge) => EditOutcome(s', path, bytes, more) == Err(TooLarge)
      case Err(InvalidArgument) => EditOutcome(s', path, bytes, more) == Err(BadRequest)
  {
    forall e | e in multiset(edits) ensures Utf8(ContentOf(e)) { assert e in edits; }
    EditKeepsUtf8(s.files[path].content, multiset(edits));
    hide Utf8, Rewritten, Acceptable;
  }

  // ---------------------------------------------------------------- runs

  /** What a sequence of requests makes of the service. */
  ghost function RunFrom(s: Service, requests: seq<Request>): Service {
    if requests == [] then s else Next(RunFrom(s, requests[..|requests| - 1]), requests[|requests| - 1])
  }

  ghost function Run(files: Files, requests: seq<Request>): Service {
    RunFrom(Service(files, map[]), requests)
  }

  ghost function LastReply(files: Files, requests: seq<Request>): Reply
    requires requests != []
  {
    ReplyOf(Run(files, requests[..|requests| - 1]), requests[|requests| - 1])
  }

  /** The target named when the transfer was begun, the chunks accepted since, and the bytes of refused ones. */
  datatype History = History(path: Path, chunks: seq<byte>, torn: nat)

  ghost function Accepted(files: Files, requests: seq<Request>, id: TransferId): History {
    if requests == [] then History([], [], 0)
    else
      var front, r := requests[..|requests| - 1], requests[|requests| - 1];
      var before, reply := Accepted(files, front, id), LastReply(files, requests);
      if r.Begin? && r.id == id && reply.Done? then History(r.path, [], 0)
      else if r.Chunk? && r.id == id && reply.Done? then before.(chunks := before.chunks + r.data)
      else if r.Chunk? && r.id == id && reply == Failed(Refused) then before.(torn := before.torn + r.taken)
      else before
  }

  /** The transfer counts exactly its accepted chunks, and its temporary file holds exactly them unless a refused chunk
      left bytes in it. */
  predicate Holds(w: PendingWrite, h: History) {
    w.path == h.path && w.counted == h.chunks && |w.counted| <= MAX_FILE_WRITE_BYTES &&
    |w.content| == |w.counted| + h.torn && (h.torn == 0 ==> w.content == w.counted)
  }

  /** Over any interleaving, each of the at most eight transfers holds its own chunks, within the size limit. */
  lemma {:induction false} TransfersHoldTheirChunks(files: Files, requests: seq<Request>)
    ensures
      var s := Run(files, requests);
      |s.writes| <= MAX_TRANSFERS && forall id :: id in s.writes ==> Holds(s.writes[id], Accepted(files, requests, id))
    decreases |requests|
  {
    hide EditOutcome;
    if requests != [] {
      var front, r := requests[..|requests| - 1], requests[|requests| - 1];
      TransfersHoldTheirChunks(files, front);
      FewerWrites(Run(files, front), r);
      var s, s' := Run(files, front), Run(files, requests);
      forall id | id in s'.writes ensures Holds(s'.writes[id], Accepted(files, requests, id)) {
        StillHolds(files, requests, id);
      }
    }
  }

  lemma StillHolds(files: Files, requests: seq<Request>, id: TransferId)
    requires requests != [] && id in Run(files, requests).writes
    requires
      var front := requests[..|requests| - 1];
      var s := Run(files, front);
      id in s.writes ==> Holds(s.writes[id], Accepted(files, front, id))
    ensures Holds(Run(files, requests).writes[id], Accepted(files, requests, id))
  {
    hide EditOutcome;
    var r, s := requests[|requests| - 1], Run(files, requests[..|requests| - 1]);
    if r.Chunk? && r.id == id && |r.data| <= MAX_FILE_CHUNK_BYTES && id in s.writes && r.taken == 0 {
      assert s.writes[id].content + r.data[..0] == s.writes[id].content;
    }
  }

  lemma Removed(m: map<TransferId, PendingWrite>, k: TransferId)
    ensures |m - {k}| <= |m|
  {
    if k in m {
      assert (m - {k}).Keys == m.Keys - {k};
    } else {
      assert m - {k} == m;
    }
  }

  lemma FewerWrites(s: Service, r: Request)
    requires |s.writes| <= MAX_TRANSFERS
    ensures |Next(s, r).writes| <= MAX_TRANSFERS
  {
    hide EditOutcome;
    if !r.EditFile? { Removed(s.writes, r.id); }
    if r.Begin? && r.id !in s.writes {
      assert s.writes[r.id := PendingWrite(r.path, [], [])].Keys == s.writes.Keys + {r.id};
    }
    if r.Chunk? && r.id in s.writes {
      assert s.writes[r.id := AfterChunk(s.writes[r.id], r.data, r.taken)].Keys == s.writes.Keys;
    }
  }

  /** The requests that change a file, or replace it by itself: their rename succeeds. */
  ghost predicate Replaces(s: Service, r: Request, path: Path) {
    (r.Commit? && r.id in s.writes && s.writes[r.id].path == path && !r.publishing.NotRenamed?) ||
    (r.EditFile? && r.path == path && EditOutcome(s, path, r.expected, r.edits).Ok? && !r.publishing.NotRenamed?)
  }

  ghost predicate SameFile(s: Service, s': Service, path: Path) {
    (path in s'.files <==> path in s.files) && (path in s.files ==> s'.files[path] == s.files[path])
  }

  /** A file changes only when a transfer to it or an edit of it gets as far as its rename: begin, chunk, abort, a
      chunk too many and a request refused before that leave every file as it was. */
  lemma OnlyCommitChanges(s: Service, r: Request, path: Path)
    requires !Replaces(s, r, path)
    ensures SameFile(s, Next(s, r), path)
  {
    hide EditOutcome;
  }

  /** A request that replaces a file is answered with success exactly when the directory was synced too: an error may
      come after the file has changed. */
  lemma ErrorAfterRename(s: Service, r: Request, path: Path)
    requires Replaces(s, r, path)
    ensures !ReplyOf(s, r).Failed? <==> r.publishing.Synced?
    ensures path in Next(s, r).files && Next(s, r).files[path].Regular?
  {
    hide EditOutcome;
  }

  /** At its commit the target holds the bytes of the temporary file and the reply counts the accepted chunks. The
      target is exactly the chunks when no refused chunk left bytes, and only then. */
  lemma CommitPublishesChunks(files: Files, requests: seq<Request>, id: TransferId, publishing: Publishing)
    requires id in Run(files, requests).writes && !publishing.NotRenamed?
    ensures
      var s, h := Run(files, requests), Accepted(files, requests, id);
      var s' := Next(s, Commit(id, publishing));
      (publishing.Synced? ==> ReplyOf(s, Commit(id, publishing)) == Written(|h.chunks|, h.chunks)) &&
      s'.writes == s.writes - {id} && h.path in s'.files &&
      s'.files == s.files[h.path := s'.files[h.path]] &&
      (s'.files[h.path] == Regular(WRITTEN_MODE, h.chunks) <==> h.torn == 0)
  {
    TransfersHoldTheirChunks(files, requests);
  }

  lemma RunNext(files: Files, requests: seq<Request>, r: Request)
    ensures Run(files, requests + [r]) == Next(Run(files, requests), r)
  {
    assert (requests + [r])[..|requests|] == requests;
  }

  /** A transfer whose second chunk the disk refused after one byte, and which is committed all the same: the file has a
      byte more than the reply counts. */
  lemma TornChunkIsPublished(path: Path)
    ensures
      var requests := [Begin(1, path, true), Chunk(1, [65], 1)] + [Chunk(1, [66, 67], 1)];
      var s := Run(map[], requests);
      1 in s.writes && ReplyOf(s, Commit(1, Synced)) == Written(1, [65]) &&
      Next(s, Commit(1, Synced)).files == map[path := Regular(WRITTEN_MODE, [65, 66])]
  {
    var a, b, c := Begin(1, path, true), Chunk(1, [65], 1), Chunk(1, [66, 67], 1);
    var none: seq<Request> := [];
    RunNext(map[], none, a);
    RunNext(map[], none + [a], b);
    RunNext(map[], none + [a] + [b], c);
    assert none + [a] + [b] == [a, b];
    OneChunk(path);
    TornChunk(path);
  }

  lemma OneChunk(path: Path)
    ensures
      var s0 := Service(map[], map[]);
      var s1 := Next(s0, Begin(1, path, true));
      Run(map[], []) == s0 && Next(s1, Chunk(1, [65], 1)) == Service(map[], map[1 := PendingWrite(path, [65], [65])])
  {
    var empty: seq<byte> := [];
    assert empty + [65] == [65];
  }

  lemma TornChunk(path: Path)
    ensures
      var s := Service(map[], map[1 := PendingWrite(path, [65], [65])]);
      Next(s, Chunk(1, [66, 67], 1)) == Service(map[], map[1 := PendingWrite(path, [65, 66], [65])])
  {
    var data: seq<byte> := [66, 67];
    var content: seq<byte> := [65];
    assert data[..1] == [66] && content + [66] == [65, 66];
  }

  ghost predicate NeverReplaced(s: Service, requests: seq<Request>, path: Path) {
    forall n :: 0 <= n < |requests| ==> !Replaces(RunFrom(s, requests[..n]), requests[n], path)
  }

  /** Over a run without a commit or edit of the path the file stays what it was. */
  lemma {:induction false} UncommittedLeavesFile(s: Service, requests: seq<Request>, path: Path)
    requires NeverReplaced(s, requests, path)
    ensures SameFile(s, RunFrom(s, requests), path)
    decreases |requests|
  {
    hide Replaces, Next;
    if requests != [] {
      var n := |requests| - 1;
      var front := requests[..n];
      forall m | 0 <= m < n ensures !Replaces(RunFrom(s, front[..m]), front[m], path) {
        assert front[..m] == requests[..m] && front[m] == requests[m];
      }
      UncommittedLeavesFile(s, front, path);
      OnlyCommitChanges(RunFrom(s, front), requests[n], path);
    }
  }

  /** No update is lost. Of two edits made for the same version of a file, when the first is published with other bytes
      and nothing else replaces the file in between, the second is answered with the digest of those bytes and changes
      nothing. */
  lemma NoLostUpdate(s: Service, path: Path, version: seq<byte>, first: seq<Edit>, published: Publishing,
                     between: seq<Request>, second: seq<Edit>, publishing: Publishing)
    requires path in s.files && s.files[path].Regular? && s.files[path].content == version && Utf8(version)
    requires |version| <= MAX_EDIT_FILE_BYTES && EditedFile(version, multiset(first)).Ok? && !published.NotRenamed?
    requires EditedFile(version, multiset(first)).value.bytes != version
    requires NeverReplaced(Next(s, EditFile(path, version, first, published)), between, path)
    ensures
      var bytes := EditedFile(version, multiset(first)).value.bytes;
      var s' := RunFrom(Next(s, EditFile(path, version, first, published)), between);
      path in s'.files && s'.files[path] == Regular(s.files[path].mode % 512, bytes) &&
      ReplyOf(s', EditFile(path, version, second, publishing)) == Failed(StaleDigest(bytes)) &&
      Next(s', EditFile(path, version, second, publishing)) == s'
  {
    UncommittedLeavesFile(Next(s, EditFile(path, version, first, published)), between, path);
    hide Utf8, Rewritten, Acceptable;
  }

  // ---------------------------------------------------------------- the client

  /** Sends one value of the source in chunks of at most 384 KiB; the disk has room for `room` bytes of the file. */
  method SendValue(service: FileService, id: TransferId, value: seq<byte>, room: nat) returns (ok: bool)
    requires id in service.writes && service.writes[id].content == service.writes[id].counted
    modifies service
    ensures service.files == old(service.files) && service.writes - {id} == old(service.writes) - {id}
    ensures ok <==> |old(service.writes)[id].counted| + |value| <= Min(MAX_FILE_WRITE_BYTES, room) || value == []
    ensures ok ==> service.writes == old(service.writes)[id := AfterChunk(old(service.writes)[id], value, |value|)]
  {
    ghost var before := service.writes[id];
    var offset := 0;
    assert before.content + value[..0] == before.content;
    assert service.writes == service.writes[id := before];
    while offset < |value|
      invariant 0 <= offset <= |value| && service.files == old(service.files)
      invariant service.writes == old(service.writes)[id := AfterChunk(before, value[..offset], offset)]
      invariant offset > 0 ==> |before.counted| + offset <= Min(MAX_FILE_WRITE_BYTES, room)
    {
      var end := Min(offset + MAX_FILE_CHUNK_BYTES, |value|);
      var chunk := value[offset..end];
      assert before.content + value[..offset] + chunk == before.content + value[..end];
      var reply := service.FileWriteChunk(id, chunk, Less(room, |service.writes[id].counted|));
      if reply.Failed? {
        assert service.writes - {id} == old(service.writes) - {id};
        return false;
      }
      offset := end;
    }
    assert value[..offset] == value;
    return true;
  }

  /** The loop over the values of the source. */
  method SendAll(service: FileService, id: TransferId, source: seq<seq<byte>>, room: nat) returns (sent: bool)
    requires id in service.writes && service.writes[id].content == service.writes[id].counted == []
    modifies service
    ensures service.files == old(service.files) && service.writes - {id} == old(service.writes) - {id}
    ensures sent <==> |Concat(source)| <= Min(MAX_FILE_WRITE_BYTES, room)
    ensures sent ==>
      service.writes == old(service.writes)[id := PendingWrite(old(service.writes)[id].path, Concat(source),
                                                               Concat(source))]
  {
    hide Concat, AfterChunk;
    ghost var writes, path := service.writes, service.writes[id].path;
    var i := 0;
    sent := true;
    NothingJoined(source);
    assert writes == writes[id := PendingWrite(path, [], [])];
    while i < |source| && sent
      invariant 0 <= i <= |source| && service.files == old(service.files) && service.writes - {id} == writes - {id}
      invariant sent ==> service.writes == writes[id := PendingWrite(path, Concat(source[..i]), Concat(source[..i]))]
      invariant sent ==> |Concat(source[..i])| <= Min(MAX_FILE_WRITE_BYTES, room)
      invariant !sent ==> |Concat(source)| > Min(MAX_FILE_WRITE_BYTES, room)
    {
      ConcatNext(source, i);
      WholeChunk(PendingWrite(path, Concat(source[..i]), Concat(source[..i])), source[i]);
      sent := SendValue(service, id, source[i], room);
      i := i + 1;
    }
    if sent { assert source[..i] == source; }
  }

  /** Can every step of a client's write up to its commit succeed? */
  predicate Sendable(pending: nat, source: seq<seq<byte>>, sourceFails: bool, opens: bool, room: nat) {
    pending < MAX_TRANSFERS && opens && !sourceFails && |Concat(source)| <= Min(MAX_FILE_WRITE_BYTES, room)
  }

  /** `AgentFileClient.write` with a fresh transfer id: begin, the values of the source, commit; whatever fails,
      abort. No transfer is left over. The target is replaced by the whole source, or every file is as it was; and it
      is replaced by an unsuccessful write exactly when only the sync of the directory failed. */
  method ClientWrite(service: FileService, id: TransferId, path: Path, source: seq<seq<byte>>, sourceFails: bool,
                     opens: bool,
                     room: nat, publishing: Publishing)
    returns (reply: Option<Reply>)
    requires id !in service.writes
    modifies service
    ensures service.writes == old(service.writes)
    ensures reply.Some? <==> Sendable(|old(service.writes)|, source, sourceFails, opens, room) && publishing.Synced?
    ensures reply.Some? ==> reply.value == Written(|Concat(source)|, Concat(source))
    ensures service.files ==
      if Sendable(|old(service.writes)|, source, sourceFails, opens, room) && !publishing.NotRenamed?
      then old(service.files)[path := Regular(WRITTEN_MODE, Concat(source))] else old(service.files)
  {
    hide EditOutcome, Concat, AfterChunk;
    reply := None;
    ghost var writes := service.writes;
    Restored(writes, id, PendingWrite(path, [], []));
    var begun := service.FileWriteBegin(id, path, opens);
    if begun.Failed? {
      service.FileWriteAbort(id);
      return;
    }
    var sent := SendAll(service, id, source, room);
    if sent { Restored(writes, id, PendingWrite(path, Concat(source), Concat(source))); }
    if !sent || sourceFails {
      service.FileWriteAbort(id);
      return;
    }
    var completed := service.FileWriteCommit(id, publishing);
    if completed.Failed? {
      service.FileWriteAbort(id);
      return;
    }
    return Some(completed);
  }

  lemma WholeChunk(w: PendingWrite, data: seq<byte>)
    ensures AfterChunk(w, data, |data|) == PendingWrite(w.path, w.content + data, w.counted + data)
  {
  }

  lemma NothingJoined(source: seq<seq<byte>>)
    ensures Concat(source[..0]) == []
  {
  }

  lemma Restored(writes: map<TransferId, PendingWrite>, id: TransferId, pending: PendingWrite)
    requires id !in writes
    ensures writes[id := pending] - {id} == writes && writes - {id} == writes
  {
  }

  lemma ConcatNext(source: seq<seq<byte>>, i: nat)
    requires i < |source|
    ensures Concat(source[..i + 1]) == Concat(source[..i]) + source[i] && |Concat(source[..i + 1])| <= |Concat(source)|
  {
    ConcatAppend(source[..i], [source[i]]);
    ConcatAppend(source[..i + 1], source[i + 1..]);
    assert source[..i + 1] == source[..i] + [source[i]];
    assert source == source[..i + 1] + source[i + 1..];
    ConcatOne(source[i]);
  }
}
