/** Frames sent by the writers, read back by the chunked reader. */
module WsDelivery {
  import opened Bytes
  import opened WsHeader
  import opened WsDecoder
  import opened WsReader

  /** Frames the reader can be sent: not empty, and under `bound` octets. */
  predicate Readable(f: Frame, bound: nat) {
    Sendable(f) && 0 < |f.payload| < bound <= INT32_LIMIT
  }

  predicate AllReadable(frames: seq<Frame>, bound: nat) {
    forall f :: f in frames ==> Readable(f, bound)
  }

  /** From `s`, the octets `bytes` are the rest of a frame and then `frames`. */
  predicate Tracks(s: State, frames: seq<Frame>, bytes: seq<byte>, bound: nat) {
    AllReadable(frames, bound) &&
    match s
    case Failed => false
    case InHeader(partial) =>
      && partial + bytes == Stream(frames)
      && (partial != [] ==> frames != [] && |partial| < |frames[0].Header()|)
    case InPayload(_, _, _, n) => 0 < n <= |bytes| && n < INT32_LIMIT && bytes[n..] == Stream(frames)
  }

  lemma StreamHead(frames: seq<Frame>)
    requires frames != []
    ensures Stream(frames) == frames[0].Header() + (frames[0].Body() + Stream(frames[1..]))
  {}

  lemma StreamStarts(f: Frame, tail: seq<byte>, s: seq<byte>)
    requires Sendable(f) && s <= f.Header() + tail
    ensures |s| < |f.Header()| <==> WsParseHeader(s).NotEnoughData?
    ensures |s| == |f.Header()| ==>
              WsParseHeader(s) == Parsed(Header(true, f.op, f.mask, |f.payload|,
                                                if f.mask then f.key else ZERO_KEY, |s|))
  {
    var h := f.Header();
    if |s| < |h| {
      assert s == h[..|s|];
      PrefixNotEnough(f.op, f.mask, f.key, |f.payload|, |s|);
    } else {
      assert s == h + s[|h|..];
      ParseEncoded(f.op, f.mask, f.key, |f.payload|, s[|h|..]);
    }
  }

  lemma Cancel(a: seq<byte>, b: seq<byte>, c: seq<byte>, d: seq<byte>)
    requires a + b == c + d && |a| == |c|
    ensures a == c && b == d
  {
    assert (a + b)[..|a|] == a && (a + b)[|a|..] == b;
    assert (c + d)[..|c|] == c && (c + d)[|c|..] == d;
  }

  lemma TrackHeaderOctet(partial: seq<byte>, frames: seq<Frame>, bytes: seq<byte>, bound: nat)
    returns (frames': seq<Frame>)
    requires Tracks(InHeader(partial), frames, bytes, bound) && bytes != []
    ensures Tracks(Feed(InHeader(partial), bytes[0]).state, frames', bytes[1..], bound)
    ensures !EndsEmptyFrame(InHeader(partial), bytes[0])
  {
    assert frames != [];
    var f, tail := frames[0], frames[0].Body() + Stream(frames[1..]);
    assert f in frames;
    var p := partial + [bytes[0]];
    StreamHead(frames);
    assert p + bytes[1..] == f.Header() + tail;
    StreamStarts(f, tail, p);
    if |p| == |f.Header()| {
      frames' := frames[1..];
      Cancel(p, bytes[1..], f.Header(), tail);
      assert tail[|f.payload|..] == Stream(frames');
    } else {
      frames' := frames;
    }
  }

  /** One octet of a tracked stream keeps it on track. */
  lemma TrackOctet(s: State, frames: seq<Frame>, bytes: seq<byte>, bound: nat) returns (frames': seq<Frame>)
    requires Tracks(s, frames, bytes, bound) && bytes != []
    ensures Tracks(Feed(s, bytes[0]).state, frames', bytes[1..], bound)
    ensures !EndsEmptyFrame(s, bytes[0])
  {
    if s.InPayload? {
      frames' := frames;
      if s.remaining == 1 {
        assert [] + bytes[1..] == bytes[1..];
      } else {
        assert bytes[1..][s.remaining - 1..] == bytes[s.remaining..];
      }
    } else {
      frames' := TrackHeaderOctet(s.partial, frames, bytes, bound);
    }
  }

  lemma {:induction false} TrackChunk(s: State, frames: seq<Frame>, chunk: seq<byte>, rest: seq<byte>, bound: nat)
    returns (frames': seq<Frame>)
    requires Tracks(s, frames, chunk + rest, bound)
    ensures Tracks(FeedAll(s, chunk).state, frames', rest, bound)
    ensures EmptyOnlyLast(s, chunk, 0) && ClosesLast(s, chunk)
    decreases |chunk|
  {
    if chunk == [] {
      assert chunk + rest == rest;
      frames' := frames;
    } else {
      assert (chunk + rest)[1..] == chunk[1..] + rest;
      var mid := TrackOctet(s, frames, chunk + rest, bound);
      frames' := TrackChunk(Feed(s, chunk[0]).state, mid, chunk[1..], rest, bound);
    }
  }

  lemma {:induction false} TrackSized(s: State, frames: seq<Frame>, bytes: seq<byte>, bound: nat)
    requires Tracks(s, frames, bytes, bound)
    ensures Sized(s, bytes)
    decreases |bytes|
  {
    if bytes != [] {
      var frames' := TrackOctet(s, frames, bytes, bound);
      TrackSized(Feed(s, bytes[0]).state, frames', bytes[1..], bound);
    }
  }

  /** No chunk lies inside a header in the way the reader's check refuses. */
  predicate SplitsSafe(s: State, chunks: seq<seq<byte>>)
    decreases |chunks|
  {
    chunks != [] ==>
      SplitSafe(s, chunks[0]) && SplitsSafe(FeedAll(s, chunks[0]).state, chunks[1..])
  }

  lemma {:induction false} TrackCut(s: State, frames: seq<Frame>, chunks: seq<seq<byte>>, bound: nat)
    requires Tracks(s, frames, Flat(chunks), bound)
    ensures SafeCut(s, chunks) <==> SplitsSafe(s, chunks)
    decreases |chunks|
  {
    if chunks != [] {
      var frames' := TrackChunk(s, frames, chunks[0], Flat(chunks[1..]), bound);
      TrackCut(FeedAll(s, chunks[0]).state, frames', chunks[1..], bound);
    }
  }

  predicate Delivers(chunks: seq<seq<byte>>, payload: seq<byte>) {
    var d := Run(FRESH, chunks);
    d.Stopped? && d.leftover == [] && !d.reader.error && d.out == payload
  }

  /** Any list of non-empty frames under 2^31 octets, cut anywhere, is delivered
      whole and in order exactly when no chunk falls inside a header in the
      refused way. */
  lemma DeliversPayloads(frames: seq<Frame>, chunks: seq<seq<byte>>)
    requires AllReadable(frames, INT32_LIMIT) && Flat(chunks) == Stream(frames)
    ensures SplitsSafe(START, chunks) <==> Delivers(chunks, Payloads(frames))
  {
    assert [] + Flat(chunks) == Stream(frames);
    TrackCut(START, frames, chunks, INT32_LIMIT);
    TrackSized(START, frames, Flat(chunks), INT32_LIMIT);
    RunExact(FRESH, chunks);
    DecodeStream(frames);
  }

  lemma ShortSplit(s: State, frames: seq<Frame>, chunk: seq<byte>, rest: seq<byte>)
    requires Tracks(s, frames, chunk + rest, 65536)
    ensures SplitSafe(s, chunk)
  {
    if s.InHeader? && s.partial != [] {
      assert frames[0] in frames;
      StreamHead(frames);
      assert (s.partial + chunk) + rest == s.partial + (chunk + rest);
      StreamStarts(frames[0], frames[0].Body() + Stream(frames[1..]), s.partial + chunk);
    }
  }

  lemma {:induction false} ShortSplits(s: State, frames: seq<Frame>, chunks: seq<seq<byte>>)
    requires Tracks(s, frames, Flat(chunks), 65536)
    ensures SplitsSafe(s, chunks)
    decreases |chunks|
  {
    if chunks != [] {
      ShortSplit(s, frames, chunks[0], Flat(chunks[1..]));
      var frames' := TrackChunk(s, frames, chunks[0], Flat(chunks[1..]), 65536);
      ShortSplits(FeedAll(s, chunks[0]).state, frames', chunks[1..]);
    }
  }

  /** With payloads of 1 to 65535 octets no cut at all can upset the reader,
      so none of its internal checks can fail. */
  lemma ShortFramesAnyCut(frames: seq<Frame>, chunks: seq<seq<byte>>)
    requires AllReadable(frames, 65536) && Flat(chunks) == Stream(frames)
    ensures Delivers(chunks, Payloads(frames))
  {
    assert [] + Flat(chunks) == Stream(frames);
    ShortSplits(START, frames, chunks);
    DeliversPayloads(frames, chunks);
  }

  /** The bound is sharp: for every longer payload, delivering the first octet
      alone and then all of the header but one octet ends the process. */
  lemma {:induction false} LongHeaderCrashes(f: Frame, rest: seq<byte>)
    requires Sendable(f) && 65536 <= |f.payload| < INT32_LIMIT
    ensures var h := f.Header();
            var n := |h| - 1;
            Run(FRESH, [h[..1], h[1..n], [h[n]] + rest]) == Crashed
  {
    var h := f.Header();
    var n := |h| - 1;
    var chunks := [h[..1], h[1..n], [h[n]] + rest];
    PrefixNotEnough(f.op, f.mask, f.key, |f.payload|, 1);
    PrefixNotEnough(f.op, f.mask, f.key, |f.payload|, n);
    assert [] + h[..1] == h[..1] && h[..1] + h[1..n] == h[..n];
    BufferIncomplete(FRESH, h[..1]);
    var r := FRESH.(partial := h[..1]);
    assert Drain(FRESH, h[..1]) == Stopped(r, [], []);
    BufferIncomplete(r, h[1..n]);
    assert Drain(r, h[1..n]) == Crashed;
    assert chunks[1..][0] == h[1..n];
    assert Run(r, chunks[1..]) == Crashed;
  }

  /** An empty frame hides whatever follows it in the same chunk. */
  lemma {:induction false} EmptyFrameHidesRest(f: Frame, rest: seq<byte>)
    requires Sendable(f) && f.payload == [] && rest != []
    ensures Drain(FRESH, f.Wire() + rest) == Stopped(FRESH.(mask := f.mask, key := if f.mask then f.key else ZERO_KEY), [], rest)
  {
    var chunk := f.Wire() + rest;
    assert f.Wire() == f.Header() && [] + chunk == chunk;
    ParseEncoded(f.op, f.mask, f.key, 0, rest);
    BufferFrame(FRESH, f.Header(), rest, WsParseHeader(chunk).header);
    DrainStops(FRESH, chunk);
  }
}
