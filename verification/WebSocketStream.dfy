/** The receiving side of an event stream: chunks arrive, frames are taken off the buffer, pings and the
    close frame are answered. */
module WebSocketStream {
  import opened Prelude
  import opened WebSocketFrames
  import opened WebSocketRoundTrip

  // ----- Frames of a buffer -----

  /** Open: the buffer waits for more. Closing: a close frame was met. Refused: a frame is too large. */
  datatype Status = Open | Closing | Refused

  datatype Drained = Drained(frames: seq<Frame>, rest: Bytes, status: Status)

  /** All frames of a buffer, up to the first close frame. */
  function Drain(buffer: Bytes, maxBytes: nat): (d: Drained)
    ensures |d.rest| <= |buffer|
    decreases |buffer|
  {
    match Parse(buffer, maxBytes)
    case NeedMore => Drained([], buffer, Open)
    case TooLarge => Drained([], buffer, Refused)
    case Complete(frame, consumed) =>
      CompleteConsumes(buffer, maxBytes);
      if frame.opcode == CLOSE then Drained([frame], buffer[consumed..], Closing)
      else
        var d := Drain(buffer[consumed..], maxBytes);
        d.(frames := [frame] + d.frames)
  }

  function Reply(frame: Frame): seq<Bytes> {
    if frame.opcode == CLOSE then [Encoded(CLOSE, [])]
    else if frame.opcode == PING then [Encoded(PONG, frame.payload)]
    else []
  }

  function FlatMap<T, U>(f: T -> seq<U>, s: seq<T>): seq<U> {
    if s == [] then [] else FlatMap(f, s[..|s| - 1]) + f(s[|s| - 1])
  }

  function Replies(frames: seq<Frame>): seq<Bytes> {
    FlatMap(Reply, frames)
  }

  // ----- The stream -----

  /** `handled` are the frames taken so far; `sent` are the writes to the socket; `ended` says that
      its sending side was ended. */
  datatype Stream = Stream(buffer: Bytes, closed: bool, ended: bool, handled: seq<Frame>, sent: seq<Bytes>)

  /** The status code and the reason. */
  function ClosePayload(code: nat, reason: string): Bytes
    requires forall i :: 0 <= i < |reason| ==> reason[i] < 128 as char
  {
    BigEndian(code, 2) + seq(|reason|, i requires 0 <= i < |reason| => reason[i] as int as byte)
  }

  const FRAME_TOO_LARGE := ClosePayload(1008, "frame too large")

  /** The sentinel is written only while the socket is writable, which it is until it is ended. */
  function Terminated(s: Stream): Stream {
    s.(closed := true, ended := true,
       sent := if s.ended then s.sent else s.sent + [Encoded(CLOSE, FRAME_TOO_LARGE)])
  }

  function Took(s: Stream, d: Drained): Stream {
    var t := Stream(d.rest, s.closed, s.ended || d.status == Closing, s.handled + d.frames, s.sent + Replies(d.frames));
    if d.status == Refused then Terminated(t) else t
  }

  function AfterData(s: Stream, chunk: Bytes, maxBytes: nat): Stream {
    if s.closed then s
    else
      var t := s.(buffer := s.buffer + chunk);
      if |t.buffer| > maxBytes + 16 then Terminated(t) else Took(t, Drain(t.buffer, maxBytes))
  }

  function Feed(s: Stream, chunks: seq<Bytes>, maxBytes: nat): Stream
    decreases |chunks|
  {
    if chunks == [] then s else Feed(AfterData(s, chunks[0], maxBytes), chunks[1..], maxBytes)
  }

  function Concat(chunks: seq<Bytes>): Bytes {
    if chunks == [] then [] else chunks[0] + Concat(chunks[1..])
  }

  /** No chunk fills the buffer beyond the cap. */
  predicate UnderCap(s: Stream, chunks: seq<Bytes>, maxBytes: nat)
    decreases |chunks|
  {
    chunks == [] ||
    (|s.buffer| + |chunks[0]| <= maxBytes + 16 && UnderCap(AfterData(s, chunks[0], maxBytes), chunks[1..], maxBytes))
  }

  // ----- Chunking -----

  /** Bytes that arrive later leave the frames so far alone; an open buffer goes on where it stopped. */
  lemma {:induction false} DrainGoesOn(buffer: Bytes, more: Bytes, maxBytes: nat)
    ensures var d, all := Drain(buffer, maxBytes), Drain(buffer + more, maxBytes);
      if d.status == Open then
        var later := Drain(d.rest + more, maxBytes);
        all == Drained(d.frames + later.frames, later.rest, later.status)
      else all == d.(rest := d.rest + more)
    decreases |buffer|
  {
    var parsed := Parse(buffer, maxBytes);
    if parsed.NeedMore? {
      assert [] + Drain(buffer + more, maxBytes).frames == Drain(buffer + more, maxBytes).frames;
    } else {
      ParseStays(buffer, more, maxBytes);
      if parsed.Complete? {
        CompleteConsumes(buffer, maxBytes);
        var rest := buffer[parsed.consumed..];
        assert (buffer + more)[parsed.consumed..] == rest + more;
        if parsed.frame.opcode != CLOSE {
          DrainGoesOn(rest, more, maxBytes);
          var d := Drain(rest, maxBytes);
          Associative([parsed.frame], d.frames, Drain(d.rest + more, maxBytes).frames);
        }
      }
    }
  }

  lemma FlatMapLast<T, U>(f: T -> seq<U>, s: seq<T>, x: T)
    ensures FlatMap(f, s + [x]) == FlatMap(f, s) + f(x)
  {
    assert (s + [x])[..|s|] == s;
  }

  lemma {:induction false} FlatMapConcat<T, U>(f: T -> seq<U>, a: seq<T>, b: seq<T>)
    ensures FlatMap(f, a + b) == FlatMap(f, a) + FlatMap(f, b)
    decreases |b|
  {
    if b == [] {
      assert a + b == a;
    } else {
      var init, last := b[..|b| - 1], b[|b| - 1];
      FlatMapConcat(f, a, init);
      FlatMapLast(f, a + init, last);
      FlatMapLast(f, init, last);
      assert a + b == a + init + [last] && b == init + [last];
      Associative(FlatMap(f, a), FlatMap(f, init), f(last));
    }
  }

  lemma {:induction false} HandledGrows(s: Stream, chunks: seq<Bytes>, maxBytes: nat)
    ensures s.handled <= Feed(s, chunks, maxBytes).handled
    ensures s.closed ==> Feed(s, chunks, maxBytes) == s
    decreases |chunks|
  {
    if chunks != [] {
      HandledGrows(AfterData(s, chunks[0], maxBytes), chunks[1..], maxBytes);
    }
  }

  /** Nothing but an incomplete frame, if anything, follows the close frame. */
  predicate Settled(d: Drained, maxBytes: nat) {
    d.status == Closing ==> Parse(d.rest, maxBytes).NeedMore?
  }

  /** What the stream should have done with all the bytes at once. */
  ghost predicate AsOneBuffer(s: Stream, d: Drained, t: Stream, maxBytes: nat) {
    && s.handled + d.frames <= t.handled
    && (d.status != Refused && Settled(d, maxBytes) ==> t == Took(s, d))
    && (d.status == Refused ==> t.closed && t.handled == s.handled + d.frames && t.sent == Took(s, d).sent)
  }

  /** Taking what an open buffer holds and then the later frames is taking them all. */
  lemma TookTwice(s: Stream, d: Drained, later: Drained)
    requires d.status == Open
    ensures Took(s, Drained(d.frames + later.frames, later.rest, later.status)) == Took(Took(s, d), later)
  {
    FlatMapConcat(Reply, d.frames, later.frames);
    Associative(s.handled, d.frames, later.frames);
    Associative(s.sent, Replies(d.frames), Replies(later.frames));
  }

  lemma JoinOpen(s: Stream, d: Drained, later: Drained, t: Stream, maxBytes: nat)
    requires d.status == Open && AsOneBuffer(Took(s, d), later, t, maxBytes)
    ensures AsOneBuffer(s, Drained(d.frames + later.frames, later.rest, later.status), t, maxBytes)
  {
    TookTwice(s, d, later);
    assert s.handled + (d.frames + later.frames) == s.handled + d.frames + later.frames;
  }

  lemma JoinRefused(s: Stream, d: Drained, rest: Bytes, t: Stream, maxBytes: nat)
    requires d.status == Refused && t == Took(s, d)
    ensures AsOneBuffer(s, d.(rest := rest), t, maxBytes)
  {
  }

  /** Bytes that leave the parser waiting are collected, however they are cut. */
  lemma {:induction false} WaitingCollects(s: Stream, chunks: seq<Bytes>, maxBytes: nat)
    requires !s.closed && UnderCap(s, chunks, maxBytes) && Parse(s.buffer + Concat(chunks), maxBytes).NeedMore?
    ensures Feed(s, chunks, maxBytes) == s.(buffer := s.buffer + Concat(chunks))
    decreases |chunks|
  {
    if chunks == [] {
      assert s.buffer + [] == s.buffer;
    } else {
      var buffer, more := s.buffer + chunks[0], Concat(chunks[1..]);
      Associative(s.buffer, chunks[0], more);
      if !Parse(buffer, maxBytes).NeedMore? {
        ParseStays(buffer, more, maxBytes);
      }
      TakingNone(s.(buffer := buffer), maxBytes);
      WaitingCollects(s.(buffer := buffer), chunks[1..], maxBytes);
    }
  }

  lemma JoinClosing(s: Stream, d: Drained, chunks: seq<Bytes>, maxBytes: nat)
    requires !s.closed && d.status == Closing && UnderCap(Took(s, d), chunks, maxBytes)
    ensures AsOneBuffer(s, d.(rest := d.rest + Concat(chunks)), Feed(Took(s, d), chunks, maxBytes), maxBytes)
  {
    HandledGrows(Took(s, d), chunks, maxBytes);
    if Parse(d.rest + Concat(chunks), maxBytes).NeedMore? {
      WaitingCollects(Took(s, d), chunks, maxBytes);
    }
  }

  /** However the bytes are cut into chunks under the cap, the frames up to the first close frame are
      those of the whole, in order; and so is everything that the stream does, if only an incomplete
      frame follows the close frame. */
  lemma {:induction false} ChunkingDoesNotMatter(s: Stream, chunks: seq<Bytes>, maxBytes: nat)
    requires !s.closed && UnderCap(s, chunks, maxBytes) && Parse(s.buffer, maxBytes).NeedMore?
    ensures AsOneBuffer(s, Drain(s.buffer + Concat(chunks), maxBytes), Feed(s, chunks, maxBytes), maxBytes)
    decreases |chunks|
  {
    if chunks == [] {
      NoChunks(s, maxBytes);
    } else {
      var buffer, more := s.buffer + chunks[0], Concat(chunks[1..]);
      var d := Drain(buffer, maxBytes);
      DrainGoesOn(buffer, more, maxBytes);
      Associative(s.buffer, chunks[0], more);
      match d.status
      case Open =>
        OpenWaits(buffer, maxBytes);
        ChunkingDoesNotMatter(Took(s, d), chunks[1..], maxBytes);
        JoinOpen(s, d, Drain(d.rest + more, maxBytes), Feed(Took(s, d), chunks[1..], maxBytes), maxBytes);
      case Closing => JoinClosing(s, d, chunks[1..], maxBytes);
      case Refused =>
        HandledGrows(Took(s, d), chunks[1..], maxBytes);
        JoinRefused(s, d, d.rest + more, Took(s, d), maxBytes);
    }
  }

  lemma NoChunks(s: Stream, maxBytes: nat)
    requires Parse(s.buffer, maxBytes).NeedMore?
    ensures AsOneBuffer(s, Drain(s.buffer + Concat([]), maxBytes), s, maxBytes)
  {
    assert s.buffer + Concat([]) == s.buffer;
    assert s.handled + [] == s.handled && s.sent + [] == s.sent;
  }

  /** Two streams have done the same, and unless they are closed will do the same. */
  predicate Agree(t: Stream, u: Stream) {
    t.handled == u.handled && t.sent == u.sent && t.closed == u.closed && (!t.closed ==> t == u)
  }

  /** Two ways to cut the same bytes, both under the cap, make the stream do the same. */
  lemma ChunkingsAgree(s: Stream, a: seq<Bytes>, b: seq<Bytes>, maxBytes: nat)
    requires !s.closed && Parse(s.buffer, maxBytes).NeedMore? && Concat(a) == Concat(b)
    requires UnderCap(s, a, maxBytes) && UnderCap(s, b, maxBytes)
    requires Settled(Drain(s.buffer + Concat(a), maxBytes), maxBytes)
    ensures Agree(Feed(s, a, maxBytes), Feed(s, b, maxBytes))
  {
    ChunkingDoesNotMatter(s, a, maxBytes);
    ChunkingDoesNotMatter(s, b, maxBytes);
  }

  // ----- Behind a close frame -----

  /** A frame that is all of `head` is taken off whatever follows it. */
  lemma DrainAfter(head: Bytes, tail: Bytes, frame: Frame, maxBytes: nat)
    requires Parse(head, maxBytes) == Complete(frame, |head|)
    ensures Drain(head + tail, maxBytes) ==
            if frame.opcode == CLOSE then Drained([frame], tail, Closing)
            else Drain(tail, maxBytes).(frames := [frame] + Drain(tail, maxBytes).frames)
  {
    ParseStays(head, tail, maxBytes);
    CompleteConsumes(head + tail, maxBytes);
    assert (head + tail)[|head|..] == tail;
  }

  /** The first frame of a buffer, cut off. */
  lemma FirstFrame(buffer: Bytes, maxBytes: nat) returns (head: Bytes, tail: Bytes, frame: Frame)
    requires Parse(buffer, maxBytes).Complete?
    ensures buffer == head + tail && |head| >= 2 && Parse(head, maxBytes) == Complete(frame, |head|)
  {
    CompleteConsumes(buffer, maxBytes);
    var n := Parse(buffer, maxBytes).consumed;
    head, tail, frame := buffer[..n], buffer[n..], Parse(buffer, maxBytes).frame;
    FrontIsEnough(buffer, n, maxBytes);
    ParseStays(head, tail, maxBytes);
  }

  /** The bytes up to and including the close frame, alone, give the same frames. */
  lemma {:induction false} UpToClose(buffer: Bytes, maxBytes: nat) returns (front: Bytes)
    requires Drain(buffer, maxBytes).status == Closing
    ensures var d := Drain(buffer, maxBytes); buffer == front + d.rest && Drain(front, maxBytes) == d.(rest := [])
    decreases |buffer|
  {
    var head, tail, frame := FirstFrame(buffer, maxBytes);
    DrainAfter(head, tail, frame, maxBytes);
    var more := [];
    if frame.opcode != CLOSE {
      more := UpToClose(tail, maxBytes);
      Associative(head, more, Drain(tail, maxBytes).rest);
    }
    DrainAfter(head, more, frame, maxBytes);
    front := head + more;
  }

  lemma FrontIsEnough(buffer: Bytes, n: nat, maxBytes: nat)
    requires Parse(buffer, maxBytes).Complete? && Parse(buffer, maxBytes).consumed == n <= |buffer|
    ensures !Parse(buffer[..n], maxBytes).NeedMore?
  {
    var front := buffer[..n];
    CompleteConsumes(buffer, maxBytes);
    assert front[0] == buffer[0] && front[1] == buffer[1];
    assert n >= 4 ==> front[2..4] == buffer[2..4];
    assert n >= 10 ==> front[2..10] == buffer[2..10];
  }

  /** Bytes that fit under the cap at once fit under it in every chunking. */
  lemma {:induction false} FitsUnderCap(s: Stream, chunks: seq<Bytes>, maxBytes: nat)
    requires |s.buffer| + |Concat(chunks)| <= maxBytes + 16
    ensures UnderCap(s, chunks, maxBytes)
    decreases |chunks|
  {
    if chunks != [] {
      FitsUnderCap(AfterData(s, chunks[0], maxBytes), chunks[1..], maxBytes);
    }
  }

  /** Every way to cut the bytes makes the stream do what it does with all of them at once. */
  ghost predicate EveryChunkingAgrees(s: Stream, bytes: Bytes, maxBytes: nat) {
    forall chunks :: Concat(chunks) == bytes ==> Agree(Feed(s, chunks, maxBytes), AfterData(s, bytes, maxBytes))
  }

  lemma OneChunk(s: Stream, bytes: Bytes, maxBytes: nat)
    ensures Concat([bytes]) == bytes && Feed(s, [bytes], maxBytes) == AfterData(s, bytes, maxBytes)
  {
    assert [bytes][1..] == [];
    assert bytes + [] == bytes;
    assert Concat([bytes][1..]) == [];
  }

  lemma TwoChunks(s: Stream, a: Bytes, b: Bytes, maxBytes: nat)
    ensures Concat([a, b]) == a + b
    ensures Feed(s, [a, b], maxBytes) == AfterData(AfterData(s, a, maxBytes), b, maxBytes)
  {
    assert [a, b][1..] == [b];
    OneChunk(AfterData(s, a, maxBytes), b, maxBytes);
  }

  /** For bytes that fit under the cap, this is so exactly if what follows a close frame among them,
      if there is one, is at most an incomplete frame. */
  lemma EveryChunkingAgreesIff(s: Stream, bytes: Bytes, maxBytes: nat)
    requires !s.closed && Parse(s.buffer, maxBytes).NeedMore? && |s.buffer| + |bytes| <= maxBytes + 16
    ensures EveryChunkingAgrees(s, bytes, maxBytes) <==> Settled(Drain(s.buffer + bytes, maxBytes), maxBytes)
  {
    if Settled(Drain(s.buffer + bytes, maxBytes), maxBytes) {
      forall chunks | Concat(chunks) == bytes
        ensures Agree(Feed(s, chunks, maxBytes), AfterData(s, bytes, maxBytes))
      {
        OneChunk(s, bytes, maxBytes);
        FitsUnderCap(s, chunks, maxBytes);
        FitsUnderCap(s, [bytes], maxBytes);
        ChunkingsAgree(s, chunks, [bytes], maxBytes);
      }
    } else {
      CutBehindClose(s, bytes, maxBytes);
    }
  }

  lemma SplitAt(a: Bytes, b: Bytes, c: Bytes, d: Bytes)
    requires a + b == c + d && |a| <= |c|
    ensures |d| <= |b| && c == a + b[..|b| - |d|] && b == b[..|b| - |d|] + d
  {
    assert (a + b)[|a|..] == b && (c + d)[|c|..] == d;
    assert (a + b)[..|c|] == c;
  }

  lemma StartsWith(a: Bytes, b: Bytes, c: Bytes, d: Bytes)
    requires a + b == c + d && |c| < |a|
    ensures a == c + a[|c|..]
  {
    assert (a + b)[..|c|] == c;
  }

  /** A close frame that a waiting buffer meets ends among the later bytes. */
  lemma CloseCut(buffer: Bytes, bytes: Bytes, maxBytes: nat)
    requires Parse(buffer, maxBytes).NeedMore? && Drain(buffer + bytes, maxBytes).status == Closing
    ensures var d := Drain(buffer + bytes, maxBytes);
      && |d.rest| <= |bytes| && bytes == bytes[..|bytes| - |d.rest|] + d.rest
      && Drain(buffer + bytes[..|bytes| - |d.rest|], maxBytes) == d.(rest := [])
  {
    var front := UpToClose(buffer + bytes, maxBytes);
    var rest := Drain(buffer + bytes, maxBytes).rest;
    if |front| < |buffer| {
      StartsWith(buffer, bytes, front, rest);
      DrainGoesOn(front, buffer[|front|..], maxBytes);
    } else {
      SplitAt(buffer, bytes, front, rest);
    }
  }

  /** Cut behind the close frame, the bytes make the stream go on where it stops otherwise. */
  lemma CutBehindClose(s: Stream, bytes: Bytes, maxBytes: nat)
    requires !s.closed && Parse(s.buffer, maxBytes).NeedMore? && |s.buffer| + |bytes| <= maxBytes + 16
    requires !Settled(Drain(s.buffer + bytes, maxBytes), maxBytes)
    ensures var rest := Drain(s.buffer + bytes, maxBytes).rest;
      && |rest| <= |bytes|
      && var chunks := [bytes[..|bytes| - |rest|], rest];
         Concat(chunks) == bytes && !Agree(Feed(s, chunks, maxBytes), AfterData(s, bytes, maxBytes))
  {
    var d := Drain(s.buffer + bytes, maxBytes);
    CloseCut(s.buffer, bytes, maxBytes);
    var first := bytes[..|bytes| - |d.rest|];
    TwoChunks(s, first, d.rest, maxBytes);
    TakesAtOnce(s, first, d.(rest := []), maxBytes);
    TakesAtOnce(s, bytes, d, maxBytes);
    GoesOnBehindClose(s, d, maxBytes);
  }

  lemma TakesAtOnce(s: Stream, chunk: Bytes, d: Drained, maxBytes: nat)
    requires !s.closed && |s.buffer| + |chunk| <= maxBytes + 16 && Drain(s.buffer + chunk, maxBytes) == d
    ensures AfterData(s, chunk, maxBytes) == Took(s, d)
  {
  }

  lemma GoesOnBehindClose(s: Stream, d: Drained, maxBytes: nat)
    requires !s.closed && d.status == Closing && !Parse(d.rest, maxBytes).NeedMore? && |d.rest| <= maxBytes + 16
    ensures !Agree(AfterData(Took(s, d.(rest := [])), d.rest, maxBytes), Took(s, d))
  {
    var u := Took(s, d.(rest := []));
    assert u.buffer + d.rest == d.rest;
    if Parse(d.rest, maxBytes).Complete? {
      CompleteConsumes(d.rest, maxBytes);
      assert |Drain(d.rest, maxBytes).frames| > 0;
    }
  }

  const CLOSE_FRAME: Bytes := [136, 0]
  const EMPTY_PING: Bytes := [137, 0]

  /** A close frame and a ping: in one chunk the close frame is handled, in two chunks the ping too. */
  lemma PingBehindClose(s: Stream, maxBytes: nat)
    requires !s.closed && s.buffer == []
    ensures AfterData(s, CLOSE_FRAME + EMPTY_PING, maxBytes).handled == s.handled + [Frame(CLOSE, [])]
    ensures Feed(s, [CLOSE_FRAME, EMPTY_PING], maxBytes).handled
            == s.handled + [Frame(CLOSE, [])] + [Frame(PING, [])]
  {
    var both := CLOSE_FRAME + EMPTY_PING;
    assert Parse(CLOSE_FRAME, maxBytes) == Complete(Frame(CLOSE, []), 2);
    ParseStays(CLOSE_FRAME, EMPTY_PING, maxBytes);
    assert s.buffer + both == both && s.buffer + CLOSE_FRAME == CLOSE_FRAME && both[2..] == EMPTY_PING;
    var closeOnly := Drained([Frame(CLOSE, [])], [], Closing);
    assert CLOSE_FRAME[2..] == [];
    assert Drain(CLOSE_FRAME, maxBytes) == closeOnly;
    TwoChunks(s, CLOSE_FRAME, EMPTY_PING, maxBytes);
    var u := AfterData(s, CLOSE_FRAME, maxBytes);
    assert u == Took(s, closeOnly);
    PingIsRead(u, maxBytes);
  }

  lemma PingIsRead(s: Stream, maxBytes: nat)
    requires !s.closed && s.buffer == []
    ensures AfterData(s, EMPTY_PING, maxBytes) == Took(s, Drained([Frame(PING, [])], [], Open))
  {
    assert s.buffer + EMPTY_PING == EMPTY_PING;
    assert Parse(EMPTY_PING, maxBytes) == Complete(Frame(PING, []), 2);
    assert EMPTY_PING[2..] == [];
    assert Drain([], maxBytes) == Drained([], [], Open);
    assert Drain(EMPTY_PING, maxBytes) == Drained([Frame(PING, [])], [], Open);
  }

  lemma {:induction false} OpenWaits(buffer: Bytes, maxBytes: nat)
    requires Drain(buffer, maxBytes).status == Open
    ensures Parse(Drain(buffer, maxBytes).rest, maxBytes).NeedMore?
    decreases |buffer|
  {
    if Parse(buffer, maxBytes).Complete? {
      CompleteConsumes(buffer, maxBytes);
      OpenWaits(buffer[Parse(buffer, maxBytes).consumed..], maxBytes);
    }
  }

  // ----- The cap -----

  lemma {:induction false} DrainConsumes(buffer: Bytes, maxBytes: nat)
    ensures var d := Drain(buffer, maxBytes);
      |d.rest| < maxBytes + 14 || d.status == Refused || |d.rest| + 2 <= |buffer|
    decreases |buffer|
  {
    match Parse(buffer, maxBytes)
    case NeedMore => WaitingIsShort(buffer, maxBytes);
    case TooLarge =>
    case Complete(frame, consumed) =>
      CompleteConsumes(buffer, maxBytes);
      DrainConsumes(buffer[consumed..], maxBytes);
  }

  /** No chunk fills the buffer beyond the cap before the stream is closed for another reason. */
  predicate CapNeverCuts(s: Stream, chunks: seq<Bytes>, maxBytes: nat)
    decreases |chunks|
  {
    chunks == [] || s.closed ||
    (&& |s.buffer| + |chunks[0]| <= maxBytes + 16
     && CapNeverCuts(AfterData(s, chunks[0], maxBytes), chunks[1..], maxBytes))
  }

  /** Two bytes at a time never reach the cap, whatever they are. */
  lemma {:induction false} SmallChunksStayUnderCap(s: Stream, chunks: seq<Bytes>, maxBytes: nat)
    requires |s.buffer| <= maxBytes + 14 && forall i :: 0 <= i < |chunks| ==> |chunks[i]| <= 2
    ensures CapNeverCuts(s, chunks, maxBytes)
    decreases |chunks|
  {
    if chunks != [] && !s.closed {
      DrainConsumes(s.buffer + chunks[0], maxBytes);
      var u := AfterData(s, chunks[0], maxBytes);
      if !u.closed {
        SmallChunksStayUnderCap(u, chunks[1..], maxBytes);
      } else if chunks[1..] != [] {
        assert CapNeverCuts(u, chunks[1..], maxBytes);
      }
    }
  }

  /** Bytes that hold only whole frames within the bound, no close frame, and at most an incomplete
      frame at the end, are refused exactly when some chunk of them fills the buffer beyond the cap. */
  lemma {:induction false} RefusedIffOverCap(s: Stream, chunks: seq<Bytes>, maxBytes: nat)
    requires !s.closed && Parse(s.buffer, maxBytes).NeedMore?
    requires Drain(s.buffer + Concat(chunks), maxBytes).status == Open
    ensures Feed(s, chunks, maxBytes).closed <==> !UnderCap(s, chunks, maxBytes)
    ensures Feed(s, chunks, maxBytes).closed <==> !CapNeverCuts(s, chunks, maxBytes)
    decreases |chunks|
  {
    if chunks != [] {
      var buffer, more := s.buffer + chunks[0], Concat(chunks[1..]);
      Associative(s.buffer, chunks[0], more);
      DrainGoesOn(buffer, more, maxBytes);
      if |buffer| > maxBytes + 16 {
        HandledGrows(AfterData(s, chunks[0], maxBytes), chunks[1..], maxBytes);
      } else {
        OpenWaits(buffer, maxBytes);
        RefusedIffOverCap(AfterData(s, chunks[0], maxBytes), chunks[1..], maxBytes);
      }
    }
  }

  /** So such bytes, of any length, are read in full when they arrive two at a time. */
  lemma SmallChunksAreRead(s: Stream, chunks: seq<Bytes>, maxBytes: nat)
    requires !s.closed && Parse(s.buffer, maxBytes).NeedMore?
    requires forall i :: 0 <= i < |chunks| ==> |chunks[i]| <= 2
    requires Drain(s.buffer + Concat(chunks), maxBytes).status == Open
    ensures Feed(s, chunks, maxBytes) == Took(s, Drain(s.buffer + Concat(chunks), maxBytes))
  {
    WaitingIsShort(s.buffer, maxBytes);
    SmallChunksStayUnderCap(s, chunks, maxBytes);
    RefusedIffOverCap(s, chunks, maxBytes);
    ChunkingDoesNotMatter(s, chunks, maxBytes);
  }

  function Copies(chunk: Bytes, n: nat): seq<Bytes> {
    if n == 0 then [] else [chunk] + Copies(chunk, n - 1)
  }

  /** One by one, any number of empty pings is answered. */
  lemma {:induction false} PingsOneByOne(s: Stream, n: nat, maxBytes: nat)
    requires !s.closed && s.buffer == []
    ensures var t := Feed(s, Copies(EMPTY_PING, n), maxBytes);
      !t.closed && t.buffer == [] && |t.handled| == |s.handled| + n
    decreases n
  {
    if n > 0 {
      PingIsRead(s, maxBytes);
      var u := AfterData(s, EMPTY_PING, maxBytes);
      assert Copies(EMPTY_PING, n)[1..] == Copies(EMPTY_PING, n - 1);
      PingsOneByOne(u, n - 1, maxBytes);
    }
  }

  lemma {:induction false} CopiesLength(n: nat)
    ensures |Concat(Copies(EMPTY_PING, n))| == 2 * n
    decreases n
  {
    if n > 0 {
      assert Copies(EMPTY_PING, n)[1..] == Copies(EMPTY_PING, n - 1);
      CopiesLength(n - 1);
    }
  }

  /** In one chunk, a burst of those pings is refused exactly when it is longer than the cap. */
  lemma BurstIsRefusedIff(s: Stream, n: nat, maxBytes: nat)
    requires !s.closed && s.buffer == []
    ensures AfterData(s, Concat(Copies(EMPTY_PING, n)), maxBytes).closed <==> 2 * n > maxBytes + 16
    ensures !Feed(s, Copies(EMPTY_PING, n), maxBytes).closed
  {
    var burst := Concat(Copies(EMPTY_PING, n));
    CopiesLength(n);
    PingsOneByOne(s, n, maxBytes);
    assert s.buffer + burst == burst;
    BurstIsRead(n, maxBytes);
    OneChunk(s, burst, maxBytes);
    RefusedIffOverCap(s, [burst], maxBytes);
    assert UnderCap(AfterData(s, burst, maxBytes), [burst][1..], maxBytes);
  }

  lemma {:induction false} BurstIsRead(n: nat, maxBytes: nat)
    ensures Drain(Concat(Copies(EMPTY_PING, n)), maxBytes).status == Open
    decreases n
  {
    if n == 0 {
      assert Parse([], maxBytes) == NeedMore;
    } else {
      var rest := Concat(Copies(EMPTY_PING, n - 1));
      assert Copies(EMPTY_PING, n)[1..] == Copies(EMPTY_PING, n - 1);
      var buffer := Concat(Copies(EMPTY_PING, n));
      assert buffer == EMPTY_PING + rest;
      assert Parse(EMPTY_PING, maxBytes) == Complete(Frame(PING, []), 2);
      ParseStays(EMPTY_PING, rest, maxBytes);
      assert buffer[2..] == rest;
      BurstIsRead(n - 1, maxBytes);
    }
  }

  // ----- The object -----

  function TookOne(s: Stream, frame: Frame, rest: Bytes): Stream {
    Stream(rest, s.closed, s.ended || frame.opcode == CLOSE, s.handled + [frame], s.sent + Reply(frame))
  }

  /** The loop takes one frame of the buffer, and goes on unless it was a close frame. */
  lemma TakingOne(s: Stream, frame: Frame, consumed: nat, maxBytes: nat)
    requires Parse(s.buffer, maxBytes) == Complete(frame, consumed)
    ensures consumed <= |s.buffer|
    ensures var t := TookOne(s, frame, s.buffer[consumed..]);
      Took(s, Drain(s.buffer, maxBytes)) == if frame.opcode == CLOSE then t else Took(t, Drain(t.buffer, maxBytes))
  {
    CompleteConsumes(s.buffer, maxBytes);
    var later := Drain(s.buffer[consumed..], maxBytes);
    assert Replies([frame]) == Reply(frame) by { FlatMapLast(Reply, [], frame); assert [] + [frame] == [frame]; }
    FlatMapConcat(Reply, [frame], later.frames);
    Associative(s.handled, [frame], later.frames);
    Associative(s.sent, Reply(frame), Replies(later.frames));
  }

  lemma TakingNone(s: Stream, maxBytes: nat)
    requires !Parse(s.buffer, maxBytes).Complete?
    ensures Took(s, Drain(s.buffer, maxBytes)) == if Parse(s.buffer, maxBytes).TooLarge? then Terminated(s) else s
  {
    assert s.handled + [] == s.handled && s.sent + [] == s.sent;
  }

  class WsStream {
    const maxFrameBytes: nat
    var buffer: Bytes
    var closed: bool
    var ended: bool
    var sent: seq<Bytes>
    ghost var handled: seq<Frame>

    ghost function State(): Stream
      reads this
    {
      Stream(buffer, closed, ended, handled, sent)
    }

    constructor (maxFrameBytes: nat)
      ensures this.maxFrameBytes == maxFrameBytes && State() == Stream([], false, false, [], [])
    {
      this.maxFrameBytes := maxFrameBytes;
      buffer, closed, ended, sent, handled := [], false, false, [], [];
    }

    method Terminate()
      requires !closed
      modifies this
      ensures State() == Terminated(old(State()))
    {
      closed := true;
      if !ended {
        var frame := EncodeFrame(CLOSE, FRAME_TOO_LARGE);
        sent := sent + [frame];
      }
      ended := true;
    }

    /** Answer one frame; a close frame also ends the sending side. */
    method Handle(frame: Frame)
      modifies this
      ensures State() == TookOne(old(State()), frame, old(buffer))
    {
      handled := handled + [frame];
      if frame.opcode == CLOSE {
        var reply := EncodeFrame(CLOSE, []);
        sent := sent + [reply];
        ended := true;
        return;
      }
      if frame.opcode == PING {
        var reply := EncodeFrame(PONG, frame.payload);
        sent := sent + [reply];
      }
    }

    method OnData(chunk: Bytes)
      modifies this
      ensures State() == AfterData(old(State()), chunk, maxFrameBytes)
    {
      if closed {
        return;
      }
      buffer := if |buffer| == 0 then chunk else buffer + chunk;
      assert buffer == old(buffer) + chunk;
      if |buffer| > maxFrameBytes + 16 {
        Terminate();
        return;
      }
      TakeFrames();
    }

    /** The parse loop. */
    method TakeFrames()
      requires !closed
      modifies this
      ensures State() == Took(old(State()), Drain(old(buffer), maxFrameBytes))
    {
      ghost var all := Took(State(), Drain(buffer, maxFrameBytes));
      while true
        invariant !closed && all == Took(State(), Drain(buffer, maxFrameBytes))
        decreases |buffer|
      {
        var result := ParseWsFrame(buffer, maxFrameBytes);
        if result.TooLarge? {
          TakingNone(State(), maxFrameBytes);
          Terminate();
          return;
        }
        if result.NeedMore? {
          TakingNone(State(), maxFrameBytes);
          break;
        }
        CompleteConsumes(buffer, maxFrameBytes);
        TakingOne(State(), result.frame, result.consumed, maxFrameBytes);
        buffer := buffer[result.consumed..];
        Handle(result.frame);
        if result.frame.opcode == CLOSE {
          return;
        }
      }
    }
  }
}
