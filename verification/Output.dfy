/** Bounded command output: `OutputBuffer` of agent/src/main.rs, `shapeOutput` and `response` of
    src/domain/session-manager.ts. */
module Output {
  import opened Prelude

  const MAX_OUTPUT_BYTES: nat := 1024 * 1024
  const SIDE_BYTES: nat := MAX_OUTPUT_BYTES / 2
  const USIZE_MAX: nat := 0xFFFF_FFFF_FFFF_FFFF

  // ---------------------------------------------------------------- the agent's buffer

  /** The whole stream while it is short enough, then its first and last 512 KiB. */
  function BufferOf(stream: seq<byte>): seq<byte> {
    if |stream| <= MAX_OUTPUT_BYTES then stream else stream[..SIDE_BYTES] + stream[|stream| - SIDE_BYTES..]
  }

  class OutputBuffer {
    var bytes: seq<byte>
    var total: nat

    /** All chunks so far. */
    ghost var stream: seq<byte>

    constructor ()
      ensures Valid() && stream == []
    {
      bytes, total, stream := [], 0, [];
    }

    ghost predicate Valid()
      reads this
    {
      bytes == BufferOf(stream) && total == Min(|stream|, USIZE_MAX)
    }

    method Append(chunk: seq<byte>)
      requires Valid()
      modifies this
      ensures Valid() && stream == old(stream) + chunk
    {
      ghost var before := stream;
      stream := stream + chunk;
      total := Min(total + |chunk|, USIZE_MAX);
      if total <= MAX_OUTPUT_BYTES {
        bytes := bytes + chunk;
        return;
      }
      var combined := bytes + chunk;
      var suffixStart := Max(Less(|combined|, SIDE_BYTES), Min(SIDE_BYTES, |combined|));
      CutAgain(before, chunk);
      bytes := combined[..Min(SIDE_BYTES, |combined|)] + combined[suffixStart..];
    }

    method Snapshot() returns (output: seq<byte>, produced: nat, omitted: nat)
      requires Valid()
      ensures output == BufferOf(stream) && produced == Min(|stream|, USIZE_MAX)
      ensures |stream| <= USIZE_MAX ==> omitted == |stream| - |output|
    {
      output, produced, omitted := bytes, total, Less(total, |bytes|);
    }
  }

  /** Cutting the kept bytes and the new chunk is cutting the whole stream. */
  lemma CutAgain(stream: seq<byte>, chunk: seq<byte>)
    requires |stream| + |chunk| > MAX_OUTPUT_BYTES
    ensures
      var combined := BufferOf(stream) + chunk;
      var suffixStart := Max(Less(|combined|, SIDE_BYTES), Min(SIDE_BYTES, |combined|));
      suffixStart <= |combined| &&
      BufferOf(stream + chunk) == combined[..Min(SIDE_BYTES, |combined|)] + combined[suffixStart..]
  {
    if |stream| > MAX_OUTPUT_BYTES { CutTwice(stream, chunk); }
  }

  lemma CutTwice(stream: seq<byte>, chunk: seq<byte>)
    requires |stream| > MAX_OUTPUT_BYTES
    ensures
      var combined := BufferOf(stream) + chunk;
      |combined| == MAX_OUTPUT_BYTES + |chunk| && combined[..SIDE_BYTES] == (stream + chunk)[..SIDE_BYTES] &&
      combined[|combined| - SIDE_BYTES..] == (stream + chunk)[|stream + chunk| - SIDE_BYTES..]
  {
    var head, tail := stream[..SIDE_BYTES], stream[|stream| - SIDE_BYTES..];
    var before := stream[..|stream| - SIDE_BYTES];
    assert BufferOf(stream) == head + tail;
    hide BufferOf;
    assert stream == before + tail;
    EndOf(head, tail, chunk);
    EndOf(before, tail, chunk);
    StartOf(head, tail, chunk);
  }

  lemma EndOf(before: seq<byte>, tail: seq<byte>, chunk: seq<byte>)
    ensures (before + tail + chunk)[|before| + |chunk|..] == (tail + chunk)[|chunk|..]
  {
  }

  lemma StartOf(head: seq<byte>, tail: seq<byte>, chunk: seq<byte>)
    ensures (head + tail + chunk)[..|head|] == head
  {
  }

  // ---------------------------------------------------------------- the daemon's limit

  /** The text shown: everything, or a head and a tail with the number of bytes left out between them. */
  datatype Shaped = Whole(output: seq<byte>) | Cut(head: seq<byte>, omitted: nat, tail: seq<byte>)

  function LimitOf(maxOutputBytes: nat, maxOutputTokens: Option<nat>): nat {
    Max(256, if maxOutputTokens.None? then maxOutputBytes else Min(maxOutputBytes, maxOutputTokens.value * 4))
  }

  function ShapeOutput(bytes: seq<byte>, limit: nat, originalBytes: nat): Shaped {
    if originalBytes <= limit && |bytes| <= limit then Whole(bytes)
    else
      var side := limit / 2;
      Cut(bytes[..Min(side, |bytes|)], Less(originalBytes, side * 2),
          bytes[Min(Max(side, Less(|bytes|, side)), |bytes|)..])
  }

  function Shown(shaped: Shaped): nat {
    match shaped
    case Whole(output) => |output|
    case Cut(head, _, tail) => |head| + |tail|
  }

  function Omitted(shaped: Shaped): nat {
    if shaped.Whole? then 0 else shaped.omitted
  }

  /** Output within the limit is shown whole. Of longer output its beginning is shown and its end, each at most half the
      limit long and without overlap, and what is left out of what was produced is counted. */
  lemma ShapeMeans(bytes: seq<byte>, limit: nat, originalBytes: nat)
    ensures
      var shaped := ShapeOutput(bytes, limit, originalBytes);
      if originalBytes <= limit && |bytes| <= limit then shaped == Whole(bytes)
      else
        shaped.Cut? && shaped.head <= bytes && |shaped.head| + |shaped.tail| <= |bytes| &&
        shaped.tail == bytes[|bytes| - |shaped.tail|..] &&
        (if |bytes| >= 2 * (limit / 2) then |shaped.head| == |shaped.tail| == limit / 2
         else if |bytes| >= limit / 2 then |shaped.head| == limit / 2 && |shaped.head| + |shaped.tail| == |bytes|
         else shaped.head == bytes) &&
        shaped.omitted == if originalBytes >= 2 * (limit / 2) then originalBytes - 2 * (limit / 2) else 0
  {
  }

  /** Four bytes a token, at most the daemon's limit, at least 256. */
  lemma LimitMeans(maxOutputBytes: nat, tokens: Option<nat>)
    ensures
      var limit := LimitOf(maxOutputBytes, tokens);
      limit >= 256 && (maxOutputBytes >= 256 ==> limit <= maxOutputBytes) &&
      (tokens.None? && maxOutputBytes >= 256 ==> limit == maxOutputBytes) &&
      (tokens.Some? && 256 <= 4 * tokens.value <= maxOutputBytes ==> limit == 4 * tokens.value)
  {
  }

  /** The agent keeps up to 1 MiB, and of more the first and the last 512 KiB. */
  lemma BufferMeans(stream: seq<byte>)
    ensures |stream| <= 1024 * 1024 ==> BufferOf(stream) == stream
    ensures |stream| > 1024 * 1024 ==>
      BufferOf(stream) == stream[..512 * 1024] + stream[|stream| - 512 * 1024..]
  {
  }

  /** Shaping the whole stream accounts for every byte. */
  lemma RawAccounted(stream: seq<byte>, limit: nat)
    ensures var shaped := ShapeOutput(stream, limit, |stream|); Shown(shaped) + Omitted(shaped) == |stream|
  {
  }

  /** When the second cut cannot see the first one. */
  predicate CutUnseen(produced: nat, limit: nat) {
    produced <= MAX_OUTPUT_BYTES || limit <= MAX_OUTPUT_BYTES || (limit == MAX_OUTPUT_BYTES + 1 && produced > limit)
  }

  lemma CutLengths(stream: seq<byte>, limit: nat)
    requires |stream| > MAX_OUTPUT_BYTES && |stream| > limit
    ensures
      var side := limit / 2;
      var shaped := ShapeOutput(BufferOf(stream), limit, |stream|);
      shaped.Cut? && |shaped.head| == Min(side, MAX_OUTPUT_BYTES) && shaped.omitted == |stream| - side * 2 &&
      |shaped.tail| == if side <= SIDE_BYTES then side else Less(MAX_OUTPUT_BYTES, side)
  {
  }

  /** Shaping what the agent kept is shaping the stream itself, exactly under this condition on the sizes. */
  lemma ShapedAlike(stream: seq<byte>, limit: nat)
    ensures ShapeOutput(BufferOf(stream), limit, |stream|) == ShapeOutput(stream, limit, |stream|) <==>
      CutUnseen(|stream|, limit)
  {
    if |stream| > MAX_OUTPUT_BYTES {
      if |stream| <= limit { WholeDiffers(stream, limit); } else { CutAlike(stream, limit); }
    }
  }

  lemma WholeDiffers(stream: seq<byte>, limit: nat)
    requires MAX_OUTPUT_BYTES < |stream| <= limit
    ensures ShapeOutput(BufferOf(stream), limit, |stream|) != ShapeOutput(stream, limit, |stream|)
  {
    assert |BufferOf(stream)| == MAX_OUTPUT_BYTES;
  }

  lemma CutAlike(stream: seq<byte>, limit: nat)
    requires |stream| > MAX_OUTPUT_BYTES && |stream| > limit
    ensures ShapeOutput(BufferOf(stream), limit, |stream|) == ShapeOutput(stream, limit, |stream|) <==>
            limit <= MAX_OUTPUT_BYTES + 1
  {
    assert |BufferOf(stream)| == MAX_OUTPUT_BYTES;
    hide BufferOf;
    CutLengths(stream, limit);
    if limit / 2 <= SIDE_BYTES {
      SidesAlike(stream, limit / 2);
    }
  }

  lemma SidesAlike(stream: seq<byte>, side: nat)
    requires |stream| > MAX_OUTPUT_BYTES && side <= SIDE_BYTES
    ensures BufferOf(stream)[..side] == stream[..side]
    ensures BufferOf(stream)[MAX_OUTPUT_BYTES - side..] == stream[|stream| - side..]
  {
  }

  /** The bytes shown and those reported as omitted are the bytes produced, exactly under the same condition. */
  lemma AccountedExactly(stream: seq<byte>, limit: nat)
    ensures
      var shaped := ShapeOutput(BufferOf(stream), limit, |stream|);
      Shown(shaped) + Omitted(shaped) == |stream| <==> CutUnseen(|stream|, limit)
  {
    RawAccounted(stream, limit);
    ShapedAlike(stream, limit);
    if |stream| > MAX_OUTPUT_BYTES && |stream| > limit { CutLengths(stream, limit); }
  }

  // ---------------------------------------------------------------- polls

  /** What a poll of the backend returns. */
  datatype ExecutionResult = ExecutionResult(output: seq<byte>, originalBytes: nat, omittedBytes: nat, running: bool)

  /** What the agent reports of a stream. */
  function ResultOf(stream: seq<byte>, running: bool): ExecutionResult {
    ExecutionResult(BufferOf(stream), |stream|, |stream| - |BufferOf(stream)|, running)
  }

  datatype ShellResult = ShellResult(shaped: Shaped, originalTokenCount: nat, running: bool)

  function Delta(cursor: nat, r: ExecutionResult): seq<byte> {
    if r.omittedBytes > 0 then r.output else r.output[Min(cursor, |r.output|)..]
  }

  function DeltaBytes(cursor: nat, r: ExecutionResult): nat {
    if r.omittedBytes > 0 then r.originalBytes else Less(r.originalBytes, cursor)
  }

  /** What a reply shows of the command's stream when the session has shown it up to `cursor`: the part that is new,
      or once the agent has cut the stream, the stream from its start; exactly as if the agent had kept everything. */
  ghost predicate ShowsStream(shaped: Shaped, stream: seq<byte>, cursor: nat, limit: nat)
    requires cursor <= |stream|
  {
    if |stream| <= MAX_OUTPUT_BYTES then shaped == ShapeOutput(stream[cursor..], limit, |stream| - cursor)
    else shaped == ShapeOutput(stream, limit, |stream|) <==> CutUnseen(|stream|, limit)
  }

  lemma ReplyShowsStream(stream: seq<byte>, running: bool, cursor: nat, limit: nat)
    requires cursor <= |stream|
    ensures
      var r := ResultOf(stream, running);
      ShowsStream(ShapeOutput(Delta(cursor, r), limit, DeltaBytes(cursor, r)), stream, cursor, limit)
  {
    ShapedAlike(stream, limit);
  }

  /** With a daemon limit of 2 MiB, two bytes of a stream of 1 MiB and two bytes are neither shown nor reported. */
  lemma TwoBytesLost(stream: seq<byte>)
    requires |stream| == MAX_OUTPUT_BYTES + 2
    ensures
      var shaped := ShapeOutput(BufferOf(stream), LimitOf(2 * MAX_OUTPUT_BYTES, None), |stream|);
      shaped == Whole(stream[..SIDE_BYTES] + stream[SIDE_BYTES + 2..]) && Omitted(shaped) == 0 &&
      Shown(shaped) == |stream| - 2
  {
    assert |BufferOf(stream)| == MAX_OUTPUT_BYTES;
  }

  class Session {
    var cursor: nat
    var active: bool

    constructor ()
      ensures cursor == 0 && active
    {
      cursor, active := 0, true;
    }

    method Response(r: ExecutionResult, maxOutputBytes: nat, maxOutputTokens: Option<nat>) returns (reply: ShellResult)
      modifies this
      ensures cursor == r.originalBytes && active == (old(active) && r.running)
      ensures reply.shaped ==
        ShapeOutput(Delta(old(cursor), r), LimitOf(maxOutputBytes, maxOutputTokens), DeltaBytes(old(cursor), r))
      ensures reply.originalTokenCount * 4 >= DeltaBytes(old(cursor), r) > reply.originalTokenCount * 4 - 4
      ensures reply.running == r.running
      ensures
        forall stream ::
          r == ResultOf(stream, r.running) && old(cursor) <= |stream| ==>
            ShowsStream(reply.shaped, stream, old(cursor), LimitOf(maxOutputBytes, maxOutputTokens))
    {
      ghost var limit, before := LimitOf(maxOutputBytes, maxOutputTokens), cursor;
      forall stream | r == ResultOf(stream, r.running) && before <= |stream|
        ensures ShowsStream(ShapeOutput(Delta(before, r), limit, DeltaBytes(before, r)), stream, before, limit)
      {
        ReplyShowsStream(stream, r.running, before, limit);
      }

      var delta := Delta(cursor, r);
      var deltaBytes := DeltaBytes(cursor, r);
      cursor := r.originalBytes;
      if !r.running { active := false; }
      reply := ShellResult(ShapeOutput(delta, LimitOf(maxOutputBytes, maxOutputTokens), deltaBytes),
                           (deltaBytes + 3) / 4, r.running);
    }
  }

  /** A command's stream as successive polls find it: each is a continuation of the one before. */
  predicate Growing(streams: seq<seq<byte>>) {
    forall i, j :: 0 <= i < j < |streams| ==> streams[i] <= streams[j]
  }

  /** The new output of each poll, joined. */
  function Deltas(streams: seq<seq<byte>>): seq<byte> {
    if streams == [] then []
    else
      var n := |streams| - 1;
      Deltas(streams[..n]) + Delta(if n == 0 then 0 else |streams[n - 1]|, ResultOf(streams[n], true))
  }

  /** While nothing is cut the polls tile the stream; a poll of a longer stream gives its two ends again from the
      start. */
  lemma {:induction false} DeltasTile(streams: seq<seq<byte>>)
    requires Growing(streams) && streams != []
    ensures
      var last := streams[|streams| - 1];
      if |last| <= MAX_OUTPUT_BYTES then Deltas(streams) == last
      else Deltas(streams) == Deltas(streams[..|streams| - 1]) + (last[..SIDE_BYTES] + last[|last| - SIDE_BYTES..])
  {
    hide Delta, ResultOf, BufferOf;
    var n := |streams| - 1;
    var before: seq<byte> := if n == 0 then [] else streams[n - 1];
    assert before <= streams[n];
    DeltaOf(before, streams[n]);
    assert Deltas(streams) == Deltas(streams[..n]) + Delta(|before|, ResultOf(streams[n], true));
    if n > 0 && |streams[n]| <= MAX_OUTPUT_BYTES { DeltasTile(streams[..n]); }
  }

  lemma DeltaOf(before: seq<byte>, stream: seq<byte>)
    requires before <= stream
    ensures |stream| <= MAX_OUTPUT_BYTES ==> before + Delta(|before|, ResultOf(stream, true)) == stream
    ensures |stream| > MAX_OUTPUT_BYTES ==>
      Delta(|before|, ResultOf(stream, true)) == stream[..SIDE_BYTES] + stream[|stream| - SIDE_BYTES..]
  {
  }

  /** Every poll accounts for the bytes that are new in it, or for the whole stream once it is cut. */
  lemma DeltaAccounted(cursor: nat, stream: seq<byte>, limit: nat)
    requires cursor <= |stream| && limit <= MAX_OUTPUT_BYTES
    ensures
      var r := ResultOf(stream, true);
      var shaped := ShapeOutput(Delta(cursor, r), limit, DeltaBytes(cursor, r));
      Shown(shaped) + Omitted(shaped) == if |stream| <= MAX_OUTPUT_BYTES then |stream| - cursor else |stream|
  {
    if |stream| <= MAX_OUTPUT_BYTES { RawAccounted(stream[cursor..], limit); } else { AccountedExactly(stream, limit); }
  }
}
