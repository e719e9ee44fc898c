/** Frames between the daemon and the agent: src/backends/agent-transport.ts and the demultiplexer of
    src/backends/docker.ts. */
module Framing {
  import opened Prelude
  import opened Bytes

  const MAX_FRAME_BYTES: nat := 2 * 1024 * 1024

  // ---------------------------------------------------------------- outbound: SocketFrameWriter

  /** A socket that takes as much of each write as its script says, and nothing once the script is at its end. */
  class Socket {
    var sent: seq<byte>
    var script: seq<int>

    /** The last write took less than it was offered. */
    var short: bool

    constructor (script: seq<int>)
      ensures sent == [] && this.script == script && !short
    {
      this.script, sent, short := script, [], false;
    }

    method Write(data: seq<byte>) returns (written: int)
      modifies this
      ensures written <= |data| && short == (written < |data|)
      ensures sent == old(sent) + if written > 0 then data[..written] else []
    {
      written := if |script| == 0 then 0 else if script[0] > |data| then |data| else script[0];
      script := if |script| == 0 then [] else script[1..];
      if written > 0 { sent := sent + data[..written]; }
      short := written < |data|;
    }
  }

  function UnsentOf(frames: seq<seq<byte>>, offset: nat): seq<byte> {
    if frames == [] || offset > |frames[0]| then [] else frames[0][offset..] + Concat(frames[1..])
  }

  lemma TakeSome(frames: seq<seq<byte>>, offset: nat, taken: nat)
    requires frames != [] && offset + taken <= |frames[0]|
    ensures UnsentOf(frames, offset) == frames[0][offset..][..taken] + UnsentOf(frames, offset + taken)
  {
    hide Concat;
    var a, b, c := frames[0][offset..][..taken], frames[0][offset + taken..], Concat(frames[1..]);
    assert frames[0][offset..] == a + b;
    assert a + b + c == a + (b + c);
  }

  lemma NextFrame(frames: seq<seq<byte>>)
    requires frames != []
    ensures UnsentOf(frames, |frames[0]|) == UnsentOf(frames[1..], 0)
  {
    if |frames| > 1 { assert frames[1..][0][0..] == frames[1..][0]; }
  }

  class SocketFrameWriter {
    var socket: Socket?
    var frames: seq<seq<byte>>
    var offset: nat

    /** What the socket had carried when it was attached. */
    ghost var base: seq<byte>

    /** What it has to carry from then on: the bytes that waited, and every frame written since. */
    ghost var due: seq<byte>

    constructor ()
      ensures Valid() && socket == null && frames == [] && offset == 0
    {
      socket, frames, offset, base, due := null, [], 0, [], [];
    }

    ghost function Unsent(): seq<byte>
      reads this
    {
      UnsentOf(frames, offset)
    }

    /** What the socket got and what waits is what is due, in order and without a gap. */
    ghost predicate Valid()
      reads this, socket
    {
      (frames == [] ==> offset == 0) &&
      (frames != [] ==> offset < |frames[0]| || (frames[0] == [] && offset == 0)) &&
      (if socket == null then frames == [] else socket.sent + Unsent() == base + due)
    }

    /** Everything due was sent, or the last write fell short, or the queue holds an empty frame, which no encoder
        makes. */
    ghost predicate Delivered()
      reads this, socket
    {
      socket != null && socket.sent <= base + due && (socket.sent == base + due || socket.short || [] in frames)
    }

    /** Any socket, at any time. What still waits goes to the new one. */
    method Attach(s: Socket)
      requires Valid()
      modifies this
      ensures Valid() && socket == s && base == s.sent && due == old(Unsent()) && frames == old(frames)
      ensures offset == old(offset)
    {
      base := s.sent;
      due := Unsent();
      socket := s;
    }

    method Write(frame: seq<byte>) returns (ok: bool)
      requires Valid()
      modifies this, socket
      ensures Valid() && ok == (old(socket) != null) && socket == old(socket) && base == old(base)
      ensures due == if ok then old(due) + frame else old(due)
      ensures ok ==> Delivered()
    {
      if socket == null { return false; }
      QueueFrame(frame);
      Flush();
      return true;
    }

    /** Queues one frame behind the others. */
    method QueueFrame(frame: seq<byte>)
      requires Valid() && socket != null
      modifies this
      ensures Valid() && socket == old(socket) && base == old(base) && due == old(due) + frame
    {
      ConcatOne(frame);
      if frames != [] {
        ConcatAppend(frames[1..], [frame]);
        assert (frames + [frame])[1..] == frames[1..] + [frame];
      }
      ghost var before := Unsent();
      frames := frames + [frame];
      assert Unsent() == before + frame;
      Regroup(socket.sent, before, frame);
      Regroup(base, due, frame);
      due := due + frame;
    }

    method Drain()
      requires Valid()
      modifies this, socket
      ensures Valid() && socket == old(socket) && base == old(base) && due == old(due)
      ensures socket != null ==> Delivered()
    {
      if socket != null { Flush(); }
    }

    method Clear()
      modifies this
      ensures Valid() && socket == null && frames == []
    {
      frames, offset, socket := [], 0, null;
    }

    /** Writes until everything is sent or a write falls short; an empty frame would end it too. */
    method Flush()
      requires Valid() && socket != null
      modifies this, socket
      ensures Valid() && socket == old(socket) && base == old(base) && due == old(due) && Delivered()
    {
      hide UnsentOf, Concat;
      assert UnsentOf([], 0) == [] by { NothingUnsent(); }
      while |frames| > 0
        invariant Valid() && socket == old(socket) && base == old(base) && due == old(due)
        decreases |frames|
      {
        var frame := frames[0];
        ghost var before := socket.sent;
        var taken := socket.Write(frame[offset..]);
        if taken <= 0 { return; }
        TakeSome(frames, offset, taken);
        Regroup(before, frame[offset..][..taken], UnsentOf(frames, offset + taken));
        offset := offset + taken;
        if offset < |frame| { return; }
        NextFrame(frames);
        frames := frames[1..];
        offset := 0;
      }
      assert socket.sent + [] == socket.sent;
    }
  }

  lemma NothingUnsent()
    ensures UnsentOf([], 0) == []
  {
  }

  // ---------------------------------------------------------------- inbound: frames

  /** The complete frames at the front of a stream, what is left, and whether that starts with a frame over the
      limit. */
  datatype Parsed = Parsed(frames: seq<seq<byte>>, rest: seq<byte>, oversize: bool)

  function Parse(b: seq<byte>): Parsed
    decreases |b|
  {
    if |b| < 4 then Parsed([], b, false)
    else
      var length := FromBigEndian(b[..4]);
      if length > MAX_FRAME_BYTES then Parsed([], b, true)
      else if |b| < length + 4 then Parsed([], b, false)
      else
        var more := Parse(b[length + 4..]);
        Parsed([b[..length + 4]] + more.frames, more.rest, more.oversize)
  }

  /** Parsing goes on where it stopped: bytes that come later change nothing of the frames already complete. */
  lemma {:induction false} ParseAppend(a: seq<byte>, c: seq<byte>)
    ensures
      var p := Parse(a);
      if p.oversize then Parse(a + c).frames == p.frames && Parse(a + c).oversize
      else Parse(a + c) == Parsed(p.frames + Parse(p.rest + c).frames, Parse(p.rest + c).rest,
                                  Parse(p.rest + c).oversize)
    decreases |a|
  {
    hide FromBigEndian;
    if |a| >= 4 {
      assert (a + c)[..4] == a[..4];
      var length := FromBigEndian(a[..4]);
      if length <= MAX_FRAME_BYTES && |a| >= length + 4 {
        assert (a + c)[..length + 4] == a[..length + 4];
        assert (a + c)[length + 4..] == a[length + 4..] + c;
        ParseAppend(a[length + 4..], c);
        var more := Parse(a[length + 4..]);
        assert [a[..length + 4]] + more.frames + Parse(more.rest + c).frames ==
          [a[..length + 4]] + (more.frames + Parse(more.rest + c).frames);
      }
    }
  }

  /** The frames and the rest are the stream. */
  lemma {:induction false} ParseTiles(b: seq<byte>)
    ensures b == Concat(Parse(b).frames) + Parse(b).rest
    decreases |b|
  {
    hide FromBigEndian;
    if |b| >= 4 {
      var length := FromBigEndian(b[..4]);
      if length <= MAX_FRAME_BYTES && |b| >= length + 4 {
        ParseTiles(b[length + 4..]);
        assert b == b[..length + 4] + b[length + 4..];
      }
    }
  }

  /** A frame is four bytes of length and that many bytes, at most 2 MiB; what is left is no complete frame, or starts
      with the length of one that is too long. */
  lemma {:induction false} ParseMeans(b: seq<byte>)
    ensures
      var p := Parse(b);
      (forall f :: f in p.frames ==> |f| >= 4 && |f| == FromBigEndian(f[..4]) + 4 && |f| <= 2 * 1024 * 1024 + 4) &&
      (p.oversize <==> |p.rest| >= 4 && FromBigEndian(p.rest[..4]) > 2 * 1024 * 1024) &&
      (!p.oversize ==> |p.rest| < 4 || |p.rest| < FromBigEndian(p.rest[..4]) + 4)
    decreases |b|
  {
    hide FromBigEndian;
    if |b| >= 4 {
      var length := FromBigEndian(b[..4]);
      if length <= MAX_FRAME_BYTES && |b| >= length + 4 {
        ParseMeans(b[length + 4..]);
        assert b[..length + 4][..4] == b[..4];
      }
    }
  }

  // ---------------------------------------------------------------- inbound: AgentFrameChannel

  datatype Outcome = Answered(id: nat, frame: seq<byte>) | Rejected(id: nat)

  /** `pending` holds the requests that wait, oldest first. */
  datatype Channel = Channel(buffer: seq<byte>, pending: seq<nat>, closed: bool, outcomes: seq<Outcome>)

  function Answers(ids: seq<nat>, frames: seq<seq<byte>>): (outcomes: seq<Outcome>)
    requires |ids| == |frames|
    ensures |outcomes| == |ids| && forall k :: 0 <= k < |ids| ==> outcomes[k] == Answered(ids[k], frames[k])
  {
    if ids == [] then [] else [Answered(ids[0], frames[0])] + Answers(ids[1..], frames[1..])
  }

  function Rejections(ids: seq<nat>): (outcomes: seq<Outcome>)
    ensures |outcomes| == |ids| && forall k :: 0 <= k < |ids| ==> outcomes[k] == Rejected(ids[k])
  {
    if ids == [] then [] else [Rejected(ids[0])] + Rejections(ids[1..])
  }

  /** Answers the oldest requests with the frames; a frame too many or over the limit closes the channel. */
  function Deliver(ch: Channel, p: Parsed): Channel {
    var k := if |p.frames| < |ch.pending| then |p.frames| else |ch.pending|;
    var answered := ch.outcomes + Answers(ch.pending[..k], p.frames[..k]);
    if |p.frames| > |ch.pending| || p.oversize then Channel([], [], true, answered + Rejections(ch.pending[k..]))
    else Channel(p.rest, ch.pending[k..], false, answered)
  }

  function PushTo(ch: Channel, chunk: seq<byte>): Channel {
    if ch.closed then ch else Deliver(ch, Parse(ch.buffer + chunk))
  }

  function PushAll(ch: Channel, chunks: seq<seq<byte>>): Channel
    decreases |chunks|
  {
    if chunks == [] then ch else PushAll(PushTo(ch, chunks[0]), chunks[1..])
  }

  /** Between two calls an open channel holds no complete frame. */
  predicate Settled(ch: Channel) {
    !ch.closed ==> Parse(ch.buffer) == Parsed([], ch.buffer, false)
  }

  lemma {:induction false} RestSettled(b: seq<byte>)
    ensures !Parse(b).oversize ==> Parse(Parse(b).rest) == Parsed([], Parse(b).rest, false)
    decreases |b|
  {
    hide FromBigEndian;
    if |b| >= 4 {
      var length := FromBigEndian(b[..4]);
      if length <= MAX_FRAME_BYTES && |b| >= length + 4 { RestSettled(b[length + 4..]); }
    }
  }

  lemma PushSettles(ch: Channel, chunk: seq<byte>)
    requires Settled(ch)
    ensures Settled(PushTo(ch, chunk))
  {
    hide Parse, Answers;
    RestSettled(ch.buffer + chunk);
  }

  lemma {:induction false} AnswersConcat(ids: seq<nat>, ids': seq<nat>, frames: seq<seq<byte>>, frames': seq<seq<byte>>)
    requires |ids| == |frames| && |ids'| == |frames'|
    ensures Answers(ids + ids', frames + frames') == Answers(ids, frames) + Answers(ids', frames')
  {
    var joined := Answers(ids + ids', frames + frames');
    forall k | 0 <= k < |joined| ensures joined[k] == (Answers(ids, frames) + Answers(ids', frames'))[k] {}
  }

  lemma TakeJoined<T>(a: seq<T>, b: seq<T>, k: nat)
    requires k <= |b|
    ensures (a + b)[..|a| + k] == a + b[..k] && a[..|a|] == a
  {
  }

  lemma TakeMore<T>(s: seq<T>, n: nat, k: nat)
    requires n + k <= |s|
    ensures s[..n + k] == s[..n] + s[n..][..k] && s[n..][k..] == s[n + k..]
  {
  }

  lemma DeliverSlices(pending: seq<nat>, f: seq<seq<byte>>, g: seq<seq<byte>>, k: nat)
    requires |f| + k <= |pending| && k <= |g|
    ensures
      var n := |f|;
      pending[n..][k..] == pending[n + k..] && f[..n] == f &&
      Answers(pending[..n + k], (f + g)[..n + k]) == Answers(pending[..n], f) + Answers(pending[n..][..k], g[..k])
  {
    hide Answers;
    var n := |f|;
    TakeJoined(f, g, k);
    TakeMore(pending, n, k);
    AnswersConcat(pending[..n], pending[n..][..k], f, g[..k]);
  }

  lemma DeliverTwice(ch: Channel, p: Parsed, q: Parsed)
    requires !p.oversize
    ensures
      var first := Deliver(ch, p);
      Deliver(ch, Parsed(p.frames + q.frames, q.rest, q.oversize)) == if first.closed then first else Deliver(first, q)
  {
    hide Answers, Rejections;
    var n, m := |p.frames|, |q.frames|;
    if n <= |ch.pending| {
      var k := if m < |ch.pending| - n then m else |ch.pending| - n;
      DeliverSlices(ch.pending, p.frames, q.frames, k);
      Regroup(ch.outcomes, Answers(ch.pending[..n], p.frames), Answers(ch.pending[n..][..k], q.frames[..k]));
    } else {
      assert (p.frames + q.frames)[..|ch.pending|] == p.frames[..|ch.pending|];
    }
  }

  /** Two pushes are one push of the joined bytes. */
  lemma PushJoin(ch: Channel, a: seq<byte>, c: seq<byte>)
    ensures PushTo(PushTo(ch, a), c) == PushTo(ch, a + c)
  {
    hide Parse, Deliver;
    if !ch.closed {
      var p := Parse(ch.buffer + a);
      ParseAppend(ch.buffer + a, c);
      assert (ch.buffer + a) + c == ch.buffer + (a + c);
      DeliverShape(ch, p);
      if p.oversize {
        DeliverOversize(ch, p, Parse(ch.buffer + a + c));
      } else {
        DeliverTwice(ch, p, Parse(p.rest + c));
      }
    }
  }

  lemma DeliverShape(ch: Channel, p: Parsed)
    ensures Deliver(ch, p).closed <==> |p.frames| > |ch.pending| || p.oversize
    ensures !Deliver(ch, p).closed ==> Deliver(ch, p).buffer == p.rest
  {
  }

  lemma DeliverOversize(ch: Channel, p: Parsed, q: Parsed)
    requires p.oversize && q.oversize && p.frames == q.frames
    ensures Deliver(ch, p) == Deliver(ch, q)
  {
  }

  lemma {:induction false} PushAllJoin(ch: Channel, chunks: seq<seq<byte>>)
    requires Settled(ch)
    ensures PushAll(ch, chunks) == PushTo(ch, Concat(chunks))
    decreases |chunks|
  {
    hide Parse;
    if chunks == [] {
      assert ch.buffer + [] == ch.buffer;
      assert ch.pending[..0] == [] && ch.pending[0..] == ch.pending;
    } else {
      PushSettles(ch, chunks[0]);
      PushAllJoin(PushTo(ch, chunks[0]), chunks[1..]);
      PushJoin(ch, chunks[0], Concat(chunks[1..]));
    }
  }

  /** However the inbound bytes are cut into chunks, the same requests get the same answers. */
  lemma ChunkingIrrelevant(ch: Channel, chunks: seq<seq<byte>>, chunks': seq<seq<byte>>)
    requires Settled(ch) && Concat(chunks) == Concat(chunks')
    ensures PushAll(ch, chunks) == PushAll(ch, chunks')
  {
    PushAllJoin(ch, chunks);
    PushAllJoin(ch, chunks');
  }

  /** What happens on a channel; a request may fail while its frame is written. */
  datatype Event = Push(chunk: seq<byte>) | Request(id: nat, written: bool) | Fail | Close

  function RejectAll(ch: Channel): Channel {
    if ch.closed then ch else Channel([], [], true, ch.outcomes + Rejections(ch.pending))
  }

  function Step(ch: Channel, e: Event): Channel {
    match e
    case Push(chunk) => PushTo(ch, chunk)
    case Request(id, written) =>
      if ch.closed || !written then ch.(outcomes := ch.outcomes + [Rejected(id)])
      else ch.(pending := ch.pending + [id])
    case Fail => RejectAll(ch)
    case Close => RejectAll(ch)
  }

  const OPENED := Channel([], [], false, [])

  function Run(events: seq<Event>): Channel {
    if events == [] then OPENED else Step(Run(events[..|events| - 1]), events[|events| - 1])
  }

  /** The bytes that arrived. */
  function Received(events: seq<Event>): seq<byte> {
    if events == [] then []
    else
      var e := events[|events| - 1];
      Received(events[..|events| - 1]) + (if e.Push? then e.chunk else [])
  }

  /** The requests that were sent, in order. */
  function Sent(events: seq<Event>): seq<nat> {
    if events == [] then []
    else
      var e := events[|events| - 1];
      Sent(events[..|events| - 1]) + (if e.Request? && e.written then [e.id] else [])
  }

  /** The answers among the outcomes. */
  function AnswersOf(outcomes: seq<Outcome>): seq<Outcome> {
    if outcomes == [] then []
    else
      var last := outcomes[|outcomes| - 1];
      AnswersOf(outcomes[..|outcomes| - 1]) + (if last.Answered? then [last] else [])
  }

  lemma {:induction false} AnsweredConcat(a: seq<Outcome>, b: seq<Outcome>)
    ensures AnswersOf(a + b) == AnswersOf(a) + AnswersOf(b)
    decreases |b|
  {
    if b == [] {
      assert a + b == a;
    } else {
      assert (a + b)[..|a + b| - 1] == a + b[..|b| - 1];
      AnsweredConcat(a, b[..|b| - 1]);
    }
  }

  lemma {:induction false} AllKept(outcomes: seq<Outcome>)
    requires forall k :: 0 <= k < |outcomes| ==> outcomes[k].Answered?
    ensures AnswersOf(outcomes) == outcomes
  {
    if outcomes != [] { AllKept(outcomes[..|outcomes| - 1]); }
  }

  lemma {:induction false} NoneKept(outcomes: seq<Outcome>)
    requires forall k :: 0 <= k < |outcomes| ==> outcomes[k].Rejected?
    ensures AnswersOf(outcomes) == []
  {
    if outcomes != [] { NoneKept(outcomes[..|outcomes| - 1]); }
  }

  /** The first `m` requests have been answered with the first `m` frames of the stream; while the channel is open
      these are all complete frames, the other requests wait in order, and the buffer is the rest. */
  ghost predicate InOrder(ch: Channel, received: seq<byte>, sent: seq<nat>, m: nat) {
    var p := Parse(received);
    m <= |sent| && m <= |p.frames| && AnswersOf(ch.outcomes) == Answers(sent[..m], p.frames[..m]) &&
    (!ch.closed ==> !p.oversize && m == |p.frames| && ch.pending == sent[m..] && ch.buffer == p.rest) &&
    (ch.closed ==> ch.pending == [])
  }

  lemma DeliverInOrder(ch: Channel, sent: seq<nat>, m: nat, p: Parsed, q: Parsed)
    requires !ch.closed && !p.oversize && m == |p.frames| && m <= |sent| && ch.pending == sent[m..]
    requires AnswersOf(ch.outcomes) == Answers(sent[..m], p.frames)
    ensures
      var m' := m + Min(|q.frames|, |ch.pending|);
      AnswersOf(Deliver(ch, q).outcomes) == Answers(sent[..m'], (p.frames + q.frames)[..m']) &&
      (Deliver(ch, q).closed ==> Deliver(ch, q).pending == []) &&
      (!Deliver(ch, q).closed ==>
       !q.oversize && m' == m + |q.frames| && Deliver(ch, q).pending == sent[m'..] && Deliver(ch, q).buffer == q.rest)
  {
    hide Answers, AnswersOf, Rejections;
    var k := Min(|q.frames|, |ch.pending|);
    var new' := Answers(ch.pending[..k], q.frames[..k]);
    AllKept(new');
    NoneKept(Rejections(ch.pending[k..]));
    AnsweredConcat(ch.outcomes, new');
    AnsweredConcat(ch.outcomes + new', Rejections(ch.pending[k..]));
    AnswersConcat(sent[..m], sent[m..m + k], p.frames, q.frames[..k]);
    assert ch.pending[..k] == sent[m..m + k] && ch.pending[k..] == sent[m + k..];
    assert sent[..m + k] == sent[..m] + sent[m..m + k];
    assert (p.frames + q.frames)[..m + k] == p.frames + q.frames[..k];
  }

  lemma FramesKept(received: seq<byte>, chunk: seq<byte>)
    ensures Parse(received).frames <= Parse(received + chunk).frames
  {
    ParseAppend(received, chunk);
  }

  lemma StepInOrder(ch: Channel, received: seq<byte>, sent: seq<nat>, m: nat, e: Event) returns (m': nat)
    requires InOrder(ch, received, sent, m)
    ensures
      var received' := received + (if e.Push? then e.chunk else []);
      var sent' := sent + (if e.Request? && e.written then [e.id] else []);
      InOrder(Step(ch, e), received', sent', m')
  {
    hide Answers, Rejections, AnswersOf, Parse, Deliver;
    m' := m;
    var none: seq<byte> := [];
    assert received + none == received && sent + [] == sent;
    match e
    case Push(chunk) =>
      FramesKept(received, chunk);
      assert Parse(received + chunk).frames[..m] == Parse(received).frames[..m];
      if !ch.closed {
        var p := Parse(received);
        var q := Parse(p.rest + chunk);
        ParseAppend(received, chunk);
        assert p.frames[..m] == p.frames;
        m' := m + Min(|q.frames|, |ch.pending|);
        DeliverInOrder(ch, sent, m, p, q);
      }
    case Request(id, written) =>
      assert (sent + [id])[..m] == sent[..m] && (sent + [id])[m..] == sent[m..] + [id];
      OneRejected(ch.outcomes, id);
    case Fail =>
      AnsweredConcat(ch.outcomes, Rejections(ch.pending));
      NoneKept(Rejections(ch.pending));
      assert AnswersOf(ch.outcomes) + [] == AnswersOf(ch.outcomes);
    case Close =>
      AnsweredConcat(ch.outcomes, Rejections(ch.pending));
      NoneKept(Rejections(ch.pending));
      assert AnswersOf(ch.outcomes) + [] == AnswersOf(ch.outcomes);
  }

  lemma OneRejected(outcomes: seq<Outcome>, id: nat)
    ensures AnswersOf(outcomes + [Rejected(id)]) == AnswersOf(outcomes)
  {
    assert (outcomes + [Rejected(id)])[..|outcomes|] == outcomes;
  }

  /** For any chunks, requests, failures and closes: the k-th request that is answered gets the k-th frame of the
      stream. */
  lemma {:induction false} RunInOrder(events: seq<Event>) returns (m: nat)
    ensures InOrder(Run(events), Received(events), Sent(events), m)
    decreases |events|
  {
    hide InOrder, Step;
    if events == [] {
      m := 0;
      OpenedInOrder();
    } else {
      var front, e := events[..|events| - 1], events[|events| - 1];
      var before := RunInOrder(front);
      m := StepInOrder(Run(front), Received(front), Sent(front), before, e);
    }
  }

  lemma OpenedInOrder()
    ensures InOrder(OPENED, [], [], 0)
  {
  }

  /** The requests made, in order. */
  function Requested(events: seq<Event>): seq<nat> {
    if events == [] then []
    else
      var e := events[|events| - 1];
      Requested(events[..|events| - 1]) + (if e.Request? then [e.id] else [])
  }

  /** The requests the outcomes settle. */
  function IdsOf(outcomes: seq<Outcome>): (ids: seq<nat>)
    ensures |ids| == |outcomes| && forall k :: 0 <= k < |ids| ==> ids[k] == outcomes[k].id
  {
    if outcomes == [] then [] else IdsOf(outcomes[..|outcomes| - 1]) + [outcomes[|outcomes| - 1].id]
  }

  lemma IdsConcat(a: seq<Outcome>, b: seq<Outcome>)
    ensures IdsOf(a + b) == IdsOf(a) + IdsOf(b)
  {
  }

  lemma IdsOfAnswers(ids: seq<nat>, frames: seq<seq<byte>>)
    requires |ids| == |frames|
    ensures IdsOf(Answers(ids, frames)) == ids
  {
  }

  lemma IdsOfRejections(ids: seq<nat>)
    ensures IdsOf(Rejections(ids)) == ids
  {
  }

  lemma DeliverSettles(ch: Channel, p: Parsed)
    requires !ch.closed
    ensures
      var ch' := Deliver(ch, p);
      IdsOf(ch'.outcomes) + ch'.pending == IdsOf(ch.outcomes) + ch.pending && (ch'.closed ==> ch'.pending == [])
  {
    hide Answers, Rejections, IdsOf;
    var k := Min(|p.frames|, |ch.pending|);
    var first, left := ch.pending[..k], ch.pending[k..];
    IdsOfAnswers(first, p.frames[..k]);
    IdsOfRejections(left);
    IdsConcat(ch.outcomes, Answers(first, p.frames[..k]));
    IdsConcat(ch.outcomes + Answers(first, p.frames[..k]), Rejections(left));
    assert ch.pending == first + left;
    Regroup(IdsOf(ch.outcomes), first, left);
    assert IdsOf(ch.outcomes) + ch.pending + [] == IdsOf(ch.outcomes) + ch.pending;
  }

  /** Every request is settled at most once, and those that are not settled wait; a channel that failed or was closed
      has settled all of them, and settles a later one at once. */
  lemma {:induction false} EveryRequestSettles(events: seq<Event>)
    ensures
      var ch := Run(events);
      multiset(IdsOf(ch.outcomes)) + multiset(ch.pending) == multiset(Requested(events)) &&
      (ch.closed ==> ch.pending == []) &&
      (forall n :: 0 <= n < |events| && (events[n].Fail? || events[n].Close?) ==> ch.closed)
    decreases |events|
  {
    hide Step, IdsOf;
    if events == [] {
      assert IdsOf([]) == [];
    } else {
      var front, e := events[..|events| - 1], events[|events| - 1];
      EveryRequestSettles(front);
      StepSettles(Run(front), e);
    }
  }

  lemma StepSettles(ch: Channel, e: Event)
    requires ch.closed ==> ch.pending == []
    ensures
      var ch' := Step(ch, e);
      multiset(IdsOf(ch'.outcomes)) + multiset(ch'.pending) ==
        multiset(IdsOf(ch.outcomes)) + multiset(ch.pending) + (if e.Request? then multiset{e.id} else multiset{}) &&
      (ch'.closed ==> ch'.pending == []) && (ch.closed || e.Fail? || e.Close? ==> ch'.closed)
  {
    hide Deliver, Parse, IdsOf, Rejections;
    match e
    case Push(chunk) =>
      if !ch.closed {
        var p := Parse(ch.buffer + chunk);
        DeliverSettles(ch, p);
        SameMultiset(ch, Deliver(ch, p));
      }
    case Request(id, _) =>
      IdsConcat(ch.outcomes, [Rejected(id)]);
      assert IdsOf([Rejected(id)]) == [id];
    case Fail => RejectionSettles(ch);
    case Close => RejectionSettles(ch);
  }

  lemma RejectionSettles(ch: Channel)
    ensures multiset(IdsOf(ch.outcomes + Rejections(ch.pending))) == multiset(IdsOf(ch.outcomes)) + multiset(ch.pending)
  {
    hide IdsOf, Rejections;
    IdsOfRejections(ch.pending);
    IdsConcat(ch.outcomes, Rejections(ch.pending));
  }

  lemma SameMultiset(ch: Channel, ch': Channel)
    requires IdsOf(ch'.outcomes) + ch'.pending == IdsOf(ch.outcomes) + ch.pending
    ensures multiset(IdsOf(ch'.outcomes)) + multiset(ch'.pending) == multiset(IdsOf(ch.outcomes)) + multiset(ch.pending)
  {
    assert multiset(IdsOf(ch'.outcomes) + ch'.pending) == multiset(IdsOf(ch'.outcomes)) + multiset(ch'.pending);
    assert multiset(IdsOf(ch.outcomes) + ch.pending) == multiset(IdsOf(ch.outcomes)) + multiset(ch.pending);
  }

  lemma RejectFirst(outcomes: seq<Outcome>, ids: seq<nat>)
    requires ids != []
    ensures outcomes + [Rejected(ids[0])] + Rejections(ids[1..]) == outcomes + Rejections(ids)
  {
  }

  lemma NoneRejected()
    ensures Rejections([]) == []
  {
  }

  class AgentFrameChannel {
    var buffer: seq<byte>
    var pending: seq<nat>
    var closed: bool

    /** How the promises were settled: with the decoding of a frame, or rejected. */
    var outcomes: seq<Outcome>

    constructor ()
      ensures View() == OPENED
    {
      buffer, pending, closed, outcomes := [], [], false, [];
    }

    /** Nothing reads the buffer of a closed channel. */
    ghost function View(): Channel
      reads this
    {
      Channel(if closed then [] else buffer, pending, closed, outcomes)
    }

    method Fail()
      requires closed ==> pending == []
      modifies this
      ensures View() == RejectAll(old(View())) && (closed ==> pending == [])
    {
      if closed { return; }
      closed := true;
      RejectPending();
    }

    method RejectPending()
      modifies this`pending, this`outcomes
      ensures pending == [] && outcomes == old(outcomes) + Rejections(old(pending))
    {
      hide Rejections;
      while |pending| > 0
        invariant outcomes + Rejections(pending) == old(outcomes) + Rejections(old(pending))
        decreases |pending|
      {
        RejectFirst(outcomes, pending);
        outcomes := outcomes + [Rejected(pending[0])];
        pending := pending[1..];
      }
      assert outcomes + Rejections([]) == outcomes by { NoneRejected(); }
    }

    method Close()
      requires closed ==> pending == []
      modifies this
      ensures View() == Step(old(View()), Event.Close) && (closed ==> pending == [])
    {
      if closed { return; }
      closed := true;
      RejectPending();
    }

    /** `writes` tells whether writing the frame succeeds or throws. */
    method Request(id: nat, writes: bool)
      requires closed ==> pending == []
      modifies this
      ensures View() == Step(old(View()), Event.Request(id, writes)) && (closed ==> pending == [])
    {
      if closed {
        outcomes := outcomes + [Rejected(id)];
        return;
      }
      pending := pending + [id];
      if !writes {
        pending := pending[..|pending| - 1];
        outcomes := outcomes + [Rejected(id)];
      }
    }

    method Push(chunk: seq<byte>)
      requires closed ==> pending == []
      modifies this
      ensures View() == Step(old(View()), Event.Push(chunk)) && (closed ==> pending == [])
    {
      hide FromBigEndian, Answers, Rejections;
      if closed { return; }
      buffer := buffer + chunk;
      ghost var p := Parse(buffer);
      ghost var d := 0;
      NothingDelivered(old(View()), p);
      while |buffer| >= 4
        invariant !closed && Progress(old(View()), p, d, buffer, pending, outcomes)
        decreases |buffer|
      {
        var length := FromBigEndian(buffer[..4]);
        if length > MAX_FRAME_BYTES {
          LastDelivered(old(View()), p, d, buffer, pending, outcomes);
          Fail();
          return;
        }
        if |buffer| < length + 4 {
          LastDelivered(old(View()), p, d, buffer, pending, outcomes);
          return;
        }
        var frame := buffer[..length + 4];
        if |pending| == 0 {
          Unsolicited(old(View()), p, d, buffer, pending, outcomes);
          buffer := buffer[length + 4..];
          Fail();
          return;
        }
        OneDelivered(old(View()), p, d, buffer, pending, outcomes);
        buffer := buffer[length + 4..];
        outcomes := outcomes + [Answered(pending[0], frame)];
        pending := pending[1..];
        d := d + 1;
      }
      LastDelivered(old(View()), p, d, buffer, pending, outcomes);
    }
  }

  /** The first `d` of the frames have been delivered. */
  ghost predicate Progress(ch: Channel, p: Parsed, d: nat, buffer: seq<byte>, pending: seq<nat>,
                           outcomes: seq<Outcome>) {
    d <= |p.frames| && d <= |ch.pending| && pending == ch.pending[d..] &&
    outcomes == ch.outcomes + Answers(ch.pending[..d], p.frames[..d]) &&
    Parse(buffer) == Parsed(p.frames[d..], p.rest, p.oversize)
  }

  lemma NothingDelivered(ch: Channel, p: Parsed)
    ensures forall buffer :: Parse(buffer) == p ==> Progress(ch, p, 0, buffer, ch.pending, ch.outcomes)
  {
    assert p.frames[0..] == p.frames && ch.pending[0..] == ch.pending;
    assert ch.outcomes + Answers(ch.pending[..0], p.frames[..0]) == ch.outcomes;
  }

  lemma OneDelivered(ch: Channel, p: Parsed, d: nat, buffer: seq<byte>, pending: seq<nat>, outcomes: seq<Outcome>)
    requires Progress(ch, p, d, buffer, pending, outcomes) && pending != [] && |buffer| >= 4
    requires FromBigEndian(buffer[..4]) <= MAX_FRAME_BYTES && |buffer| >= FromBigEndian(buffer[..4]) + 4
    ensures
      var n := FromBigEndian(buffer[..4]) + 4;
      Progress(ch, p, d + 1, buffer[n..], pending[1..], outcomes + [Answered(pending[0], buffer[..n])])
  {
    hide FromBigEndian, Answers;
    var n := FromBigEndian(buffer[..4]) + 4;
    assert p.frames[d..] == [buffer[..n]] + Parse(buffer[n..]).frames;
    assert p.frames[d] == p.frames[d..][0] && p.frames[d + 1..] == p.frames[d..][1..];
    AnswersConcat(ch.pending[..d], [pending[0]], p.frames[..d], [buffer[..n]]);
    assert ch.pending[..d + 1] == ch.pending[..d] + [pending[0]] && p.frames[..d + 1] == p.frames[..d] + [buffer[..n]];
    assert Answers([pending[0]], [buffer[..n]]) == [Answered(pending[0], buffer[..n])];
  }

  lemma LastDelivered(ch: Channel, p: Parsed, d: nat, buffer: seq<byte>, pending: seq<nat>, outcomes: seq<Outcome>)
    requires Progress(ch, p, d, buffer, pending, outcomes)
    requires |buffer| < 4 || FromBigEndian(buffer[..4]) > MAX_FRAME_BYTES || |buffer| < FromBigEndian(buffer[..4]) + 4
    ensures p.oversize <==> |buffer| >= 4 && FromBigEndian(buffer[..4]) > MAX_FRAME_BYTES
    ensures Deliver(ch, p) ==
      if p.oversize then Channel([], [], true, outcomes + Rejections(pending))
      else Channel(buffer, pending, false, outcomes)
  {
    hide FromBigEndian, Answers, Rejections;
    assert p.frames[d..] == [];
  }

  lemma Unsolicited(ch: Channel, p: Parsed, d: nat, buffer: seq<byte>, pending: seq<nat>, outcomes: seq<Outcome>)
    requires Progress(ch, p, d, buffer, pending, outcomes) && pending == [] && |buffer| >= 4
    requires FromBigEndian(buffer[..4]) <= MAX_FRAME_BYTES && |buffer| >= FromBigEndian(buffer[..4]) + 4
    ensures Deliver(ch, p) == Channel([], [], true, outcomes + Rejections(pending))
  {
    hide FromBigEndian, Answers, Rejections;
    assert p.frames[d..] != [];
    assert ch.pending[d..] == ch.pending[|ch.pending|..];
  }

  // ---------------------------------------------------------------- Docker's multiplexed stream

  const STDOUT: byte := 1

  datatype DockerFrame = DockerFrame(stream: byte, payload: seq<byte>)

  /** The payloads of the complete stdout frames, and what is left. */
  datatype Demuxed = Demuxed(payloads: seq<seq<byte>>, rest: seq<byte>)

  /** The first frame is complete. */
  predicate DockerComplete(b: seq<byte>) {
    |b| >= 8 && |b| >= FromBigEndian(b[4..8]) + 8
  }

  function DockerEnd(b: seq<byte>): (end: nat)
    requires DockerComplete(b)
    ensures 8 <= end <= |b|
  {
    FromBigEndian(b[4..8]) + 8
  }

  function StdoutOf(b: seq<byte>): seq<seq<byte>>
    requires DockerComplete(b)
  {
    if b[0] == STDOUT then [b[8..DockerEnd(b)]] else []
  }

  function Demux(b: seq<byte>): Demuxed
    decreases |b|
  {
    if !DockerComplete(b) then Demuxed([], b)
    else
      var more := Demux(b[DockerEnd(b)..]);
      Demuxed(StdoutOf(b) + more.payloads, more.rest)
  }

  lemma FirstFrameStays(a: seq<byte>, c: seq<byte>)
    requires DockerComplete(a)
    ensures DockerComplete(a + c) && DockerEnd(a + c) == DockerEnd(a) && StdoutOf(a + c) == StdoutOf(a)
    ensures (a + c)[DockerEnd(a)..] == a[DockerEnd(a)..] + c
  {
    hide FromBigEndian;
    assert (a + c)[4..8] == a[4..8];
    assert (a + c)[8..DockerEnd(a)] == a[8..DockerEnd(a)];
  }

  lemma {:induction false} DemuxAppend(a: seq<byte>, c: seq<byte>)
    ensures
      var d := Demux(a);
      Demux(a + c) == Demuxed(d.payloads + Demux(d.rest + c).payloads, Demux(d.rest + c).rest)
    decreases |a|
  {
    hide DockerComplete, DockerEnd, StdoutOf;
    if DockerComplete(a) {
      var more := a[DockerEnd(a)..];
      FirstFrameStays(a, c);
      DemuxAppend(more, c);
      var p, q := Demux(more).payloads, Demux(Demux(more).rest + c).payloads;
      assert StdoutOf(a) + p + q == StdoutOf(a) + (p + q);
    }
  }

  function EncodeDocker(f: DockerFrame): seq<byte> {
    [f.stream, 0, 0, 0] + BigEndian(|f.payload|, 4) + f.payload
  }

  function EncodeAllDocker(fs: seq<DockerFrame>): seq<byte> {
    if fs == [] then [] else EncodeDocker(fs[0]) + EncodeAllDocker(fs[1..])
  }

  /** What the container wrote to stdout. */
  function Stdout(fs: seq<DockerFrame>): seq<byte> {
    if fs == [] then [] else (if fs[0].stream == 1 then fs[0].payload else []) + Stdout(fs[1..])
  }

  lemma FirstFrameRead(f: DockerFrame, rest: seq<byte>)
    requires |f.payload| < 0x1_0000_0000
    ensures
      var b := EncodeDocker(f) + rest;
      DockerComplete(b) && b[DockerEnd(b)..] == rest && StdoutOf(b) == if f.stream == STDOUT then [f.payload] else []
  {
    Widths();
    BigEndianReadsBack(|f.payload|, 4);
    hide FromBigEndian, BigEndian;
    var b := EncodeDocker(f) + rest;
    assert b[4..8] == BigEndian(|f.payload|, 4);
    assert b[8..8 + |f.payload|] == f.payload;
  }

  /** The demultiplexer gives the channel exactly the bytes of stdout, whatever of stderr lies between. */
  lemma {:induction false} DemuxIsStdout(fs: seq<DockerFrame>)
    requires forall f :: f in fs ==> |f.payload| < 0x1_0000_0000
    ensures Demux(EncodeAllDocker(fs)).rest == [] && Concat(Demux(EncodeAllDocker(fs)).payloads) == Stdout(fs)
  {
    hide EncodeDocker, DockerComplete, DockerEnd, StdoutOf;
    if fs == [] {
      assert !DockerComplete([]) by { NothingComplete(); }
    } else {
      FirstFrameRead(fs[0], EncodeAllDocker(fs[1..]));
      DemuxIsStdout(fs[1..]);
      var head := if fs[0].stream == STDOUT then [fs[0].payload] else [];
      ConcatAppend(head, Demux(EncodeAllDocker(fs[1..])).payloads);
      ConcatOne(fs[0].payload);
    }
  }

  lemma NothingComplete()
    ensures !DockerComplete([])
  {
  }

  /** The transport after a series of chunks. */
  function Consume(rest: seq<byte>, ch: Channel, chunks: seq<seq<byte>>): (seq<byte>, Channel)
    decreases |chunks|
  {
    if chunks == [] then (rest, ch)
    else
      var d := Demux(rest + chunks[0]);
      Consume(d.rest, PushAll(ch, d.payloads), chunks[1..])
  }

  lemma {:induction false} PushAllConcat(ch: Channel, a: seq<seq<byte>>, b: seq<seq<byte>>)
    ensures PushAll(ch, a + b) == PushAll(PushAll(ch, a), b)
    decreases |a|
  {
    if a == [] {
      assert a + b == b;
    } else {
      assert (a + b)[1..] == a[1..] + b;
      PushAllConcat(PushTo(ch, a[0]), a[1..], b);
    }
  }

  lemma {:induction false} RestIncomplete(b: seq<byte>)
    ensures Demux(Demux(b).rest) == Demuxed([], Demux(b).rest)
    decreases |b|
  {
    if DockerComplete(b) { RestIncomplete(b[DockerEnd(b)..]); }
  }

  lemma {:induction false} ConsumeAll(rest: seq<byte>, ch: Channel, chunks: seq<seq<byte>>)
    requires Demux(rest) == Demuxed([], rest)
    ensures
      var d := Demux(rest + Concat(chunks));
      Consume(rest, ch, chunks) == (d.rest, PushAll(ch, d.payloads))
    decreases |chunks|
  {
    hide Demux, PushTo;
    if chunks == [] {
      assert rest + [] == rest;
    } else {
      var d := Demux(rest + chunks[0]);
      RestIncomplete(rest + chunks[0]);
      ConsumeAll(d.rest, PushAll(ch, d.payloads), chunks[1..]);
      DemuxAppend(rest + chunks[0], Concat(chunks[1..]));
      assert rest + chunks[0] + Concat(chunks[1..]) == rest + (chunks[0] + Concat(chunks[1..]));
      PushAllConcat(ch, d.payloads, Demux(d.rest + Concat(chunks[1..])).payloads);
    }
  }

  /** For any interleaving of stdout and stderr frames and any cutting of the multiplexed stream into chunks,
      the channel ends as if it had been given the bytes of stdout in one piece. */
  lemma MultiplexingIrrelevant(ch: Channel, fs: seq<DockerFrame>, chunks: seq<seq<byte>>)
    requires (forall f :: f in fs ==> |f.payload| < 0x1_0000_0000) && Concat(chunks) == EncodeAllDocker(fs) &&
             Settled(ch)
    ensures Consume([], ch, chunks) == ([], PushTo(ch, Stdout(fs)))
  {
    hide PushTo, Settled, EncodeAllDocker, Stdout;
    assert Demux([]) == Demuxed([], []) by { NothingComplete(); }
    ConsumeAll([], ch, chunks);
    assert [] + Concat(chunks) == Concat(chunks);
    DemuxIsStdout(fs);
    PushAllJoin(ch, Demux(EncodeAllDocker(fs)).payloads);
  }

  lemma DemuxStep(b: seq<byte>)
    ensures !DockerComplete(b) ==> Demux(b) == Demuxed([], b)
    ensures DockerComplete(b) ==>
      Demux(b) == Demuxed(StdoutOf(b) + Demux(b[DockerEnd(b)..]).payloads, Demux(b[DockerEnd(b)..]).rest)
  {
  }

  class DockerTransport {
    var dockerFrames: seq<byte>
    const channel: AgentFrameChannel

    constructor (channel: AgentFrameChannel)
      ensures dockerFrames == [] && this.channel == channel
    {
      dockerFrames, this.channel := [], channel;
    }

    method ConsumeDockerFrames(chunk: seq<byte>)
      requires channel.closed ==> channel.pending == []
      modifies this, channel
      ensures channel.closed ==> channel.pending == []
      ensures
        var d := Demux(old(dockerFrames) + chunk);
        dockerFrames == d.rest && channel.View() == PushAll(old(channel.View()), d.payloads)
    {
      hide FromBigEndian, PushTo, Demux;
      dockerFrames := dockerFrames + chunk;
      ghost var d := Demux(dockerFrames);
      while |dockerFrames| >= 8
        invariant channel.closed ==> channel.pending == []
        invariant Demux(dockerFrames).rest == d.rest
        invariant PushAll(old(channel.View()), d.payloads) == PushAll(channel.View(), Demux(dockerFrames).payloads)
        decreases |dockerFrames|
      {
        var stream := dockerFrames[0];
        var length := FromBigEndian(dockerFrames[4..8]);
        DemuxStep(dockerFrames);
        if |dockerFrames| < length + 8 { return; }
        var payload := dockerFrames[8..length + 8];
        ghost var more := Demux(dockerFrames[length + 8..]);
        dockerFrames := dockerFrames[length + 8..];
        if stream == STDOUT {
          assert ([payload] + more.payloads)[1..] == more.payloads;
          channel.Push(payload);
        } else {
          assert [] + more.payloads == more.payloads;
        }
      }
      DemuxStep(dockerFrames);
    }
  }
}
