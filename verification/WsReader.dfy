/** `WebsocketRead`: the incremental decoder that works on chunks, as functions of
    values. It agrees with the octet-at-a-time decoder exactly when the chunks are
    cut safely. The module `WebsocketRead` has it on arrays. */
module WsReader {
  import opened Bytes
  import opened WsHeader
  import opened WsDecoder

  /** Size of the internal buffer for split headers. */
  const HEADER_BUFFER := 14

  const INT32_LIMIT := 0x8000_0000

  /** Conversion of a 64-bit length to the reader's `int` counter. */
  function ToInt32(n: Length): int {
    var m := n % 0x1_0000_0000;
    if m < INT32_LIMIT then m else m - 0x1_0000_0000
  }

  /** `partial` holds the header octets copied so far. */
  datatype Reader = Reader(read: nat, remaining: int, partial: seq<byte>, mask: bool, key: MaskKey, error: bool)

  const FRESH := Reader(0, 0, [], false, ZERO_KEY, false)

  /** Outcome of one call of `Buffer`: the decoded octets and what is left of
      the chunk, or the end of the process on a failed internal check. */
  datatype Step = Aborted | Yield(reader: Reader, out: seq<byte>, rest: seq<byte>)

  function Min(a: int, b: int): int {
    if a < b then a else b
  }

  function CopyPartial(partial: seq<byte>, chunk: seq<byte>): seq<byte>
    requires |partial| < HEADER_BUFFER
  {
    partial + chunk[..Min(HEADER_BUFFER - |partial|, |chunk|)]
  }

  /** A negative count would make a span of negative size. */
  function NextBuffer(r: Reader, chunk: seq<byte>): (step: Step)
    ensures step.Yield? ==> |step.out| + |step.rest| == |chunk|
  {
    var n := Min(|chunk|, r.remaining);
    if n < 0 then Aborted
    else Yield(r.(read := r.read + n, remaining := r.remaining - n),
               Unmasked(r.mask, r.key, r.read, chunk[..n]), chunk[n..])
  }

  predicate Valid(r: Reader) {
    && !r.error
    && 0 <= r.remaining < INT32_LIMIT
    && WsParseHeader(r.partial).NotEnoughData?
    && (r.remaining > 0 ==> r.partial == [])
  }

  /** A header of which `offset` octets were in earlier chunks. */
  function BeginFrame(r: Reader, h: Header, offset: nat, chunk: seq<byte>): (step: Step)
    ensures step.Yield? ==> |step.out| + |step.rest| <= |chunk|
    ensures step.Yield? && !step.reader.error ==> Valid(step.reader)
  {
    if !(0 <= h.headerSize - offset <= |chunk|) then Aborted
    else
      var rest := chunk[h.headerSize - offset..];
      if h.opCode == CLOSE then Yield(r.(error := true), [], rest)
      else NextBuffer(Opened(h), rest)
  }

  /** The reader right after a header. */
  function Opened(h: Header): Reader {
    Reader(0, ToInt32(h.payloadLength), [], h.mask, h.key, false)
  }

  function KeepPartial(r: Reader, offset: nat, chunk: seq<byte>): (step: Step)
    ensures step.Yield? ==> step.out == [] && step.rest == []
    ensures step.Yield? ==> step.reader == if r.partial == [] then r.(partial := chunk) else r
  {
    if |chunk| + |r.partial| >= HEADER_BUFFER then Aborted
    else
      var copied := if r.partial == [] then CopyPartial([], chunk) else r.partial;
      if |copied| - offset != |chunk| then Aborted
      else Yield(r.(partial := copied), [], [])
  }

  function Buffer(r: Reader, chunk: seq<byte>): (step: Step)
    requires Valid(r)
    ensures step.Yield? ==> |step.out| + |step.rest| <= |chunk|
    ensures step.Yield? && !step.reader.error ==> Valid(step.reader)
  {
    if chunk == [] then Yield(r, [], [])
    else if r.remaining > 0 then NextBuffer(r, chunk)
    else
      var offset := |r.partial|;
      var r1 := if offset > 0 then r.(partial := CopyPartial(r.partial, chunk)) else r;
      match WsParseHeader(if offset > 0 then r1.partial else chunk)
      case Invalid => Yield(r1.(error := true), [], chunk)
      case NotEnoughData => KeepPartial(r1, offset, chunk)
      case Parsed(h) => BeginFrame(r1, h, offset, chunk)
  }

  /** The receive loop: call `Buffer` until it fails or yields nothing. */
  datatype Drained = Crashed | Stopped(reader: Reader, out: seq<byte>, leftover: seq<byte>)

  function Prepend(out: seq<byte>, d: Drained): Drained {
    match d
    case Crashed => Crashed
    case Stopped(r, o, leftover) => Stopped(r, out + o, leftover)
  }

  function Drain(r: Reader, chunk: seq<byte>): (d: Drained)
    requires Valid(r)
    ensures d.Stopped? && !d.reader.error ==> Valid(d.reader)
    decreases |chunk|
  {
    match Buffer(r, chunk)
    case Aborted => Crashed
    case Yield(r1, out, rest) =>
      if r1.error || out == [] then Stopped(r1, [], rest)
      else Prepend(out, Drain(r1, rest))
  }

  /** All chunks in turn. `Next` aborts when the previous chunk was not used up,
      also after an error, which only ends the loop over the chunk. */
  function Run(r: Reader, chunks: seq<seq<byte>>): Drained
    requires Valid(r)
    decreases |chunks|
  {
    if chunks == [] then Stopped(r, [], []) else
      match Drain(r, chunks[0])
      case Crashed => Crashed
      case Stopped(r1, out, leftover) =>
        if |chunks| == 1 then Stopped(r1, out, leftover)
        else if leftover != [] then Crashed
        else if r1.error then Stopped(r1, out, [])
        else Prepend(out, Run(r1, chunks[1..]))
  }

  // ------------------------------------------- agreement with the reference

  function Abs(r: Reader): State
    requires Valid(r)
  {
    if r.remaining > 0 then InPayload(r.mask, r.key, r.read, r.remaining) else InHeader(r.partial)
  }

  /** The chunk was used up, with the reference's output and state. */
  predicate Agrees(d: Drained, fed: Fed) {
    && d.Stopped?
    && d.out == fed.out
    && if d.reader.error then fed.state == Failed
       else Valid(d.reader) && d.leftover == [] && Abs(d.reader) == fed.state
  }

  /** The octet completes the header of an empty frame. */
  predicate EndsEmptyFrame(s: State, b: byte) {
    s.InHeader? &&
    match WsParseHeader(s.partial + [b])
    case Parsed(h) => h.opCode != CLOSE && h.payloadLength == 0
    case _ => false
  }

  /** No empty frame ends in `bytes` with octets of the chunk (`tail` of them
      beyond `bytes`) still to come. */
  predicate EmptyOnlyLast(s: State, bytes: seq<byte>, tail: nat)
    decreases |bytes|
  {
    bytes != [] ==>
      && (EndsEmptyFrame(s, bytes[0]) ==> |bytes| == 1 && tail == 0)
      && EmptyOnlyLast(Feed(s, bytes[0]).state, bytes[1..], tail)
  }

  /** The chunk does not lie strictly inside a header, or is short enough for
      the reader's buffer check, which counts the copied octets twice. */
  predicate SplitSafe(s: State, chunk: seq<byte>) {
    s.InHeader? && s.partial != [] && chunk != [] && WsParseHeader(s.partial + chunk).NotEnoughData?
    ==> |s.partial| + 2 * |chunk| < HEADER_BUFFER
  }

  predicate SafeChunk(s: State, chunk: seq<byte>) {
    SplitSafe(s, chunk) && EmptyOnlyLast(s, chunk, 0)
  }

  /** The octet completes the header of a close frame. */
  predicate EndsClose(s: State, b: byte) {
    s.InHeader? &&
    match WsParseHeader(s.partial + [b])
    case Parsed(h) => h.opCode == CLOSE
    case _ => false
  }

  /** If the stream fails in `bytes`, it is by a close frame whose header is the
      end of them: otherwise the failure leaves octets behind. */
  predicate ClosesLast(s: State, bytes: seq<byte>)
    decreases |bytes|
  {
    bytes != [] ==>
      && (!s.Failed? && Feed(s, bytes[0]).state.Failed? ==> EndsClose(s, bytes[0]) && |bytes| == 1)
      && ClosesLast(Feed(s, bytes[0]).state, bytes[1..])
  }

  /** A chunk that is not the last must not leave octets behind. */
  predicate SafeCut(s: State, chunks: seq<seq<byte>>)
    decreases |chunks|
  {
    chunks != [] ==>
      && SafeChunk(s, chunks[0]) && (|chunks| > 1 ==> ClosesLast(s, chunks[0]))
      && SafeCut(FeedAll(s, chunks[0]).state, chunks[1..])
  }

  lemma {:induction false} ClosesFailed(bytes: seq<byte>)
    ensures ClosesLast(Failed, bytes)
  {
    if bytes != [] {
      ClosesFailed(bytes[1..]);
    }
  }

  /** Octets that do not fail do not matter. */
  lemma {:induction false} ClosesOn(s: State, a: seq<byte>, b: seq<byte>)
    requires !FeedAll(s, a).state.Failed?
    ensures ClosesLast(s, a + b) <==> ClosesLast(FeedAll(s, a).state, b)
    decreases |a|
  {
    if a == [] {
      assert a + b == b;
    } else {
      assert (a + b)[1..] == a[1..] + b;
      if Feed(s, a[0]).state.Failed? {
        FailedAbsorbs(a[1..]);
      }
      ClosesOn(Feed(s, a[0]).state, a[1..], b);
    }
  }

  /** A header that fails the stream. */
  lemma {:induction false} ClosesAtHeader(partial: seq<byte>, seg: seq<byte>, rest: seq<byte>)
    requires seg != [] && |partial + seg| >= 2 && DeclaredSize((partial + seg)[1]) == |partial + seg|
    requires FeedAll(InHeader(partial), seg).state.Failed?
    ensures ClosesLast(InHeader(partial), seg + rest)
       <==> rest == [] && WsParseHeader(partial + seg).Parsed? && WsParseHeader(partial + seg).header.opCode == CLOSE
  {
    var init, last := seg[..|seg| - 1], seg[|seg| - 1];
    assert seg == init + [last] && (partial + init) + [last] == partial + seg;
    FeedIncomplete(partial, init);
    FeedAppend(InHeader(partial), init, [last]);
    assert seg + rest == init + ([last] + rest);
    ClosesOn(InHeader(partial), init, [last] + rest);
    assert ([last] + rest)[1..] == rest;
    ClosesFailed(rest);
  }

  /** Every payload length the stream announces fits the reader's counter. */
  predicate Sized(s: State, bytes: seq<byte>)
    decreases |bytes|
  {
    && (s.InPayload? ==> s.remaining < INT32_LIMIT)
    && (bytes != [] ==> Sized(Feed(s, bytes[0]).state, bytes[1..]))
  }

  lemma {:induction false} SizedAppend(s: State, a: seq<byte>, b: seq<byte>)
    requires Sized(s, a + b)
    ensures Sized(FeedAll(s, a).state, b)
    decreases |a|
  {
    if a == [] {
      assert a + b == b;
    } else {
      assert (a + b)[1..] == a[1..] + b;
      SizedAppend(Feed(s, a[0]).state, a[1..], b);
    }
  }

  lemma {:induction false} EmptyAppend(s: State, a: seq<byte>, b: seq<byte>, tail: nat)
    ensures EmptyOnlyLast(s, a + b, tail)
       <==> EmptyOnlyLast(s, a, |b| + tail) && EmptyOnlyLast(FeedAll(s, a).state, b, tail)
    decreases |a|
  {
    if a == [] {
      assert a + b == b;
    } else {
      assert (a + b)[1..] == a[1..] + b;
      EmptyAppend(Feed(s, a[0]).state, a[1..], b, tail);
    }
  }

  lemma {:induction false} EmptyInPayload(s: State, bytes: seq<byte>, tail: nat)
    requires s.InPayload? && |bytes| <= s.remaining
    ensures EmptyOnlyLast(s, bytes, tail)
    decreases |bytes|
  {
    if |bytes| > 1 {
      EmptyInPayload(Feed(s, bytes[0]).state, bytes[1..], tail);
    }
  }

  lemma {:induction false} EmptyInFailed(bytes: seq<byte>, tail: nat)
    ensures EmptyOnlyLast(Failed, bytes, tail)
  {
    if bytes != [] {
      EmptyInFailed(bytes[1..], tail);
    }
  }

  lemma {:induction false} EmptyIncomplete(partial: seq<byte>, bytes: seq<byte>, tail: nat)
    requires WsParseHeader(partial + bytes).NotEnoughData?
    ensures EmptyOnlyLast(InHeader(partial), bytes, tail)
    decreases |bytes|
  {
    if bytes != [] {
      assert partial + bytes == (partial + [bytes[0]]) + bytes[1..];
      if !WsParseHeader(partial + [bytes[0]]).NotEnoughData? {
        TrailingIgnored(partial + [bytes[0]], bytes[1..]);
        assert false;
      }
      EmptyIncomplete(partial + [bytes[0]], bytes[1..], tail);
    }
  }

  lemma EmptyAtHeaderEnd(partial: seq<byte>, bytes: seq<byte>, tail: nat)
    requires bytes != [] && |partial + bytes| >= 2
    requires DeclaredSize((partial + bytes)[1]) == |partial + bytes|
    ensures EmptyOnlyLast(InHeader(partial), bytes, tail)
       <==> match WsParseHeader(partial + bytes)
            case Parsed(h) => h.opCode != CLOSE && h.payloadLength == 0 ==> tail == 0
            case _ => true
  {
    var init, last := bytes[..|bytes| - 1], bytes[|bytes| - 1];
    assert bytes == init + [last];
    assert (partial + init) + [last] == partial + bytes;
    EmptyIncomplete(partial, init, 1 + tail);
    FeedIncomplete(partial, init);
    EmptyAppend(InHeader(partial), init, [last], tail);
  }

  /** What is known of a drained chunk: it agrees with the reference exactly
      when it was cut safely, and otherwise the reader crashed or left octets. */
  predicate Exact(r: Reader, chunk: seq<byte>)
    requires Valid(r)
  {
    var d := Drain(r, chunk);
    if SafeChunk(Abs(r), chunk) then
      Agrees(d, FeedAll(Abs(r), chunk)) && (d.reader.error ==> (d.leftover == [] <==> ClosesLast(Abs(r), chunk)))
    else d.Crashed? || (!d.reader.error && d.leftover != [])
  }

  lemma {:induction false} DrainExact(r: Reader, chunk: seq<byte>)
    requires Valid(r) && Sized(Abs(r), chunk)
    ensures Exact(r, chunk)
    decreases |chunk|
  {
    if chunk != [] {
      if r.remaining > 0 {
        DrainPayload(r, chunk);
      } else if WsParseHeader(r.partial + chunk).NotEnoughData? {
        DrainIncomplete(r, chunk);
      } else {
        DrainHeader(r, chunk);
      }
    }
  }

  lemma {:induction false} BufferIncomplete(r: Reader, chunk: seq<byte>)
    requires Valid(r) && chunk != [] && r.remaining == 0
    requires WsParseHeader(r.partial + chunk).NotEnoughData?
    ensures Buffer(r, chunk)
         == if r.partial != [] && |r.partial| + 2 * |chunk| >= HEADER_BUFFER then Aborted
            else Yield(r.(partial := r.partial + chunk), [], [])
  {
    assert chunk[..|chunk|] == chunk;
    if r.partial == [] {
      assert r.partial + chunk == chunk;
    }
  }

  lemma DrainIncomplete(r: Reader, chunk: seq<byte>)
    requires Valid(r) && chunk != [] && r.remaining == 0
    requires WsParseHeader(r.partial + chunk).NotEnoughData?
    ensures Exact(r, chunk)
  {
    FeedIncomplete(r.partial, chunk);
    EmptyIncomplete(r.partial, chunk, 0);
    BufferIncomplete(r, chunk);
  }

  /** Agreement on the rest of a chunk carries over to the whole of it. */
  lemma ExactCompose(r: Reader, seg: seq<byte>, r1: Reader, out: seq<byte>, rest: seq<byte>)
    requires Valid(r) && Valid(r1) && Exact(r1, rest)
    requires FeedAll(Abs(r), seg) == Fed(Abs(r1), out)
    requires Drain(r, seg + rest) == Prepend(out, Drain(r1, rest))
    requires SafeChunk(Abs(r), seg + rest) <==> SafeChunk(Abs(r1), rest)
    ensures Exact(r, seg + rest)
  {
    FeedAppend(Abs(r), seg, rest);
    ClosesOn(Abs(r), seg, rest);
  }

  lemma DrainUnfold(r: Reader, chunk: seq<byte>, r1: Reader, out: seq<byte>, rest: seq<byte>)
    requires Valid(r) && Buffer(r, chunk) == Yield(r1, out, rest) && !r1.error && out != []
    ensures Drain(r, chunk) == Prepend(out, Drain(r1, rest))
  {}

  lemma PayloadStep(r: Reader, chunk: seq<byte>, n: nat)
    requires Valid(r) && chunk != [] && r.remaining > 0 && n == Min(|chunk|, r.remaining)
    ensures var r1 := r.(read := r.read + n, remaining := r.remaining - n);
            && Valid(r1)
            && FeedAll(Abs(r), chunk[..n]) == Fed(Abs(r1), Unmasked(r.mask, r.key, r.read, chunk[..n]))
            && Drain(r, chunk) == Prepend(Unmasked(r.mask, r.key, r.read, chunk[..n]), Drain(r1, chunk[n..]))
  {
    var r1 := r.(read := r.read + n, remaining := r.remaining - n);
    FeedPayload(Abs(r), chunk[..n]);
    DrainUnfold(r, chunk, r1, Unmasked(r.mask, r.key, r.read, chunk[..n]), chunk[n..]);
  }

  lemma PayloadSafe(s: State, seg: seq<byte>, rest: seq<byte>)
    requires s.InPayload? && 0 < |seg| <= s.remaining && (rest == [] || |seg| == s.remaining)
    ensures SafeChunk(s, seg + rest) <==> SafeChunk(FeedAll(s, seg).state, rest)
  {
    FeedPayload(s, seg);
    EmptyInPayload(s, seg, |rest|);
    EmptyAppend(s, seg, rest, 0);
  }

  lemma DrainPayload(r: Reader, chunk: seq<byte>)
    requires Valid(r) && chunk != [] && r.remaining > 0 && Sized(Abs(r), chunk)
    ensures Exact(r, chunk)
    decreases |chunk|, 1
  {
    var n := Min(|chunk|, r.remaining);
    var seg, rest := chunk[..n], chunk[n..];
    assert chunk == seg + rest;
    PayloadStep(r, chunk, n);
    PayloadSafe(Abs(r), seg, rest);
    SizedAppend(Abs(r), seg, rest);
    DrainOn(r, seg, r.(read := r.read + n, remaining := r.remaining - n), Unmasked(r.mask, r.key, r.read, seg), rest);
  }

  lemma DrainOn(r: Reader, seg: seq<byte>, r1: Reader, out: seq<byte>, rest: seq<byte>)
    requires Valid(r) && Valid(r1) && seg != [] && Sized(Abs(r1), rest)
    requires FeedAll(Abs(r), seg) == Fed(Abs(r1), out)
    requires SafeChunk(Abs(r), seg + rest) <==> SafeChunk(Abs(r1), rest)
    requires Drain(r, seg + rest) == Prepend(out, Drain(r1, rest))
    ensures Exact(r, seg + rest)
    decreases |seg + rest|, 0
  {
    DrainExact(r1, rest);
    ExactCompose(r, seg, r1, out, rest);
  }

  /** The part of the chunk that completes the header. */
  lemma HeaderSegment(r: Reader, chunk: seq<byte>) returns (seg: seq<byte>, rest: seq<byte>)
    requires Valid(r) && chunk != [] && r.remaining == 0
    requires !WsParseHeader(r.partial + chunk).NotEnoughData?
    ensures chunk == seg + rest && seg != []
    ensures |r.partial + seg| == DeclaredSize((r.partial + chunk)[1])
    ensures WsParseHeader(r.partial + seg) == WsParseHeader(r.partial + chunk)
    ensures FeedAll(Abs(r), seg)
         == Fed(match WsParseHeader(r.partial + chunk) case Parsed(h) => AfterHeader(h) case _ => Failed, [])
    ensures EmptyOnlyLast(Abs(r), seg, |rest|)
       <==> match WsParseHeader(r.partial + chunk)
            case Parsed(h) => h.opCode != CLOSE && h.payloadLength == 0 ==> rest == []
            case _ => true
    ensures Sized(Abs(r), chunk) ==> Sized(FeedAll(Abs(r), seg).state, rest)
  {
    var whole := r.partial + chunk;
    var n := DeclaredSize(whole[1]) - |r.partial|;
    seg, rest := chunk[..n], chunk[n..];
    assert chunk == seg + rest;
    assert r.partial + seg == whole[..DeclaredSize(whole[1])];
    HeaderOnly(whole, DeclaredSize(whole[1]));
    FeedHeader(r.partial, seg);
    EmptyAtHeaderEnd(r.partial, seg, |rest|);
    if Sized(Abs(r), chunk) {
      SizedAppend(Abs(r), seg, rest);
    }
  }

  /** The header taken off, draining goes on as if the payload had come alone. */
  lemma DrainSame(r: Reader, chunk: seq<byte>, r1: Reader, rest: seq<byte>)
    requires Valid(r) && Valid(r1) && r1.remaining > 0
    requires Buffer(r, chunk) == NextBuffer(r1, rest)
    ensures Drain(r, chunk) == Prepend([], Drain(r1, rest))
  {
    var d := Drain(r1, rest);
    assert Prepend([], d) == d by {
      if d.Stopped? {
        assert [] + d.out == d.out;
      }
    }
    if rest == [] {
      assert NextBuffer(r1, rest) == Yield(r1, [], []);
    } else {
      assert Buffer(r1, rest) == NextBuffer(r1, rest);
    }
  }

  lemma DrainStops(r: Reader, chunk: seq<byte>)
    requires Valid(r) && Buffer(r, chunk).Yield?
    requires Buffer(r, chunk).reader.error || Buffer(r, chunk).out == []
    ensures Drain(r, chunk) == Stopped(Buffer(r, chunk).reader, [], Buffer(r, chunk).rest)
  {}

  lemma DrainFailure(r: Reader, seg: seq<byte>, rest: seq<byte>)
    requires Valid(r) && FeedAll(Abs(r), seg) == Fed(Failed, [])
    requires SafeChunk(Abs(r), seg + rest)
    requires Buffer(r, seg + rest).Yield? && Buffer(r, seg + rest).reader.error && Buffer(r, seg + rest).out == []
    requires Buffer(r, seg + rest).rest == [] <==> ClosesLast(Abs(r), seg + rest)
    ensures Exact(r, seg + rest)
  {
    DrainStops(r, seg + rest);
    FeedAppend(Abs(r), seg, rest);
    FailedAbsorbs(rest);
  }

  lemma DrainEmptyFrame(r: Reader, seg: seq<byte>, rest: seq<byte>, h: Header)
    requires Valid(r) && h.opCode != CLOSE && h.payloadLength == 0
    requires FeedAll(Abs(r), seg) == Fed(AfterHeader(h), [])
    requires EmptyOnlyLast(Abs(r), seg + rest, 0) <==> rest == []
    requires SplitSafe(Abs(r), seg + rest)
    requires Buffer(r, seg + rest) == NextBuffer(Opened(h), rest)
    ensures Exact(r, seg + rest)
  {
    assert Buffer(r, seg + rest) == Yield(Opened(h), [], rest);
    DrainStops(r, seg + rest);
    if rest == [] {
      assert seg + rest == seg;
    }
  }

  lemma DrainFullFrame(r: Reader, seg: seq<byte>, rest: seq<byte>, h: Header)
    requires Valid(r) && h.opCode != CLOSE && h.payloadLength > 0 && seg != []
    requires FeedAll(Abs(r), seg) == Fed(AfterHeader(h), []) && Sized(AfterHeader(h), rest)
    requires EmptyOnlyLast(Abs(r), seg + rest, 0) <==> EmptyOnlyLast(AfterHeader(h), rest, 0)
    requires SplitSafe(Abs(r), seg + rest)
    requires Buffer(r, seg + rest) == NextBuffer(Opened(h), rest)
    ensures Exact(r, seg + rest)
    decreases |seg + rest|, 1
  {
    OpenedAbs(h);
    DrainSame(r, seg + rest, Opened(h), rest);
    DrainOn(r, seg, Opened(h), [], rest);
  }

  lemma OpenedAbs(h: Header)
    requires h.opCode != CLOSE && 0 < h.payloadLength < INT32_LIMIT
    ensures Valid(Opened(h)) && Opened(h).remaining > 0 && Abs(Opened(h)) == AfterHeader(h)
  {}

  lemma DrainHeader(r: Reader, chunk: seq<byte>)
    requires Valid(r) && chunk != [] && r.remaining == 0 && Sized(Abs(r), chunk)
    requires !WsParseHeader(r.partial + chunk).NotEnoughData?
    ensures Exact(r, chunk)
    decreases |chunk|, 3
  {
    if !WsParseHeader(r.partial + chunk).Parsed? || WsParseHeader(r.partial + chunk).header.opCode == CLOSE {
      var seg, rest := HeaderSegment(r, chunk);
      EmptyAppend(Abs(r), seg, rest, 0);
      BufferFailure(r, seg, rest);
      ClosesAtHeader(r.partial, seg, rest);
      EmptyInFailed(rest, 0);
      DrainFailure(r, seg, rest);
    } else {
      DrainFrame(r, chunk, WsParseHeader(r.partial + chunk).header);
    }
  }

  lemma FrameSegment(r: Reader, chunk: seq<byte>, h: Header) returns (seg: seq<byte>, rest: seq<byte>)
    requires Valid(r) && chunk != [] && r.remaining == 0 && Sized(Abs(r), chunk)
    requires WsParseHeader(r.partial + chunk) == Parsed(h) && h.opCode != CLOSE
    ensures chunk == seg + rest && seg != [] && |r.partial + seg| == h.headerSize
    ensures FeedAll(Abs(r), seg) == Fed(AfterHeader(h), []) && Sized(AfterHeader(h), rest)
    ensures EmptyOnlyLast(Abs(r), chunk, 0)
       <==> (h.payloadLength == 0 ==> rest == []) && EmptyOnlyLast(AfterHeader(h), rest, 0)
    ensures SplitSafe(Abs(r), chunk)
  {
    seg, rest := HeaderSegment(r, chunk);
    EmptyAppend(Abs(r), seg, rest, 0);
  }

  lemma DrainFrame(r: Reader, chunk: seq<byte>, h: Header)
    requires Valid(r) && chunk != [] && r.remaining == 0 && Sized(Abs(r), chunk)
    requires WsParseHeader(r.partial + chunk) == Parsed(h) && h.opCode != CLOSE
    ensures Exact(r, chunk)
    decreases |chunk|, 2
  {
    var seg, rest := FrameSegment(r, chunk, h);
    BufferFrame(r, seg, rest, h);
    if h.payloadLength > 0 {
      DrainFullFrame(r, seg, rest, h);
    } else {
      DrainEmptyFrame(r, seg, rest, h);
    }
  }

  // What `Buffer` does with a chunk that completes the header.

  lemma HeaderInput(r: Reader, chunk: seq<byte>)
    requires Valid(r) && chunk != []
    requires !WsParseHeader(r.partial + chunk).NotEnoughData?
    ensures WsParseHeader(if r.partial != [] then CopyPartial(r.partial, chunk) else chunk)
         == WsParseHeader(r.partial + chunk)
    ensures |r.partial| < DeclaredSize((r.partial + chunk)[1])
  {
    var whole := r.partial + chunk;
    if r.partial == [] {
      assert whole == chunk;
    } else {
      var copied := CopyPartial(r.partial, chunk);
      assert copied == whole[..Min(HEADER_BUFFER, |whole|)];
      HeaderOnly(whole, |copied|);
    }
  }

  lemma BufferFailure(r: Reader, seg: seq<byte>, rest: seq<byte>)
    requires Valid(r) && seg != [] && r.remaining == 0
    requires var p := WsParseHeader(r.partial + (seg + rest));
             !p.NotEnoughData? && (p.Parsed? ==> p.header.opCode == CLOSE && |r.partial + seg| == p.header.headerSize)
    ensures Buffer(r, seg + rest).Yield? && Buffer(r, seg + rest).reader.error && Buffer(r, seg + rest).out == []
    ensures Buffer(r, seg + rest).rest == if WsParseHeader(r.partial + (seg + rest)).Parsed? then rest else seg + rest
  {
    HeaderInput(r, seg + rest);
    assert (seg + rest)[|seg|..] == rest;
  }

  lemma BufferFrame(r: Reader, seg: seq<byte>, rest: seq<byte>, h: Header)
    requires Valid(r) && seg != [] && r.remaining == 0
    requires WsParseHeader(r.partial + (seg + rest)) == Parsed(h) && h.opCode != CLOSE
    requires |r.partial + seg| == h.headerSize
    ensures Buffer(r, seg + rest) == NextBuffer(Opened(h), rest)
  {
    HeaderInput(r, seg + rest);
    assert (seg + rest)[|seg|..] == rest;
  }

  // ---------------------------------------------------------- whole streams

  lemma {:induction false} SafeCutFailed(chunks: seq<seq<byte>>)
    ensures SafeCut(Failed, chunks)
  {
    if chunks != [] {
      EmptyInFailed(chunks[0], 0);
      ClosesFailed(chunks[0]);
      FailedAbsorbs(chunks[0]);
      SafeCutFailed(chunks[1..]);
    }
  }

  /** What is known of a run: it agrees with the reference exactly when the stream
      is cut safely, and otherwise the reader crashed or left octets. */
  predicate RunsExactly(r: Reader, chunks: seq<seq<byte>>)
    requires Valid(r)
  {
    var d := Run(r, chunks);
    if SafeCut(Abs(r), chunks) then Agrees(d, FeedAll(Abs(r), Flat(chunks)))
    else d.Crashed? || (!d.reader.error && d.leftover != [])
  }

  lemma {:induction false} RunLast(r: Reader, chunks: seq<seq<byte>>)
    requires Valid(r) && |chunks| == 1 && Exact(r, chunks[0])
    ensures RunsExactly(r, chunks)
  {
    assert chunks[1..] == [] && SafeCut(FeedAll(Abs(r), chunks[0]).state, []);
    assert Flat(chunks) == chunks[0] + [] == chunks[0];
  }

  lemma {:induction false} RunFails(r: Reader, chunks: seq<seq<byte>>)
    requires Valid(r) && |chunks| > 1 && Exact(r, chunks[0]) && SafeChunk(Abs(r), chunks[0])
    requires Drain(r, chunks[0]).reader.error
    ensures RunsExactly(r, chunks)
  {
    FeedAppend(Abs(r), chunks[0], Flat(chunks[1..]));
    FailedAbsorbs(Flat(chunks[1..]));
    SafeCutFailed(chunks[1..]);
  }

  lemma {:induction false} RunOn(r: Reader, chunks: seq<seq<byte>>, r1: Reader)
    requires Valid(r) && |chunks| > 1 && Exact(r, chunks[0]) && SafeChunk(Abs(r), chunks[0])
    requires !Drain(r, chunks[0]).reader.error && r1 == Drain(r, chunks[0]).reader
    requires Valid(r1) && RunsExactly(r1, chunks[1..])
    ensures RunsExactly(r, chunks)
  {
    FeedAppend(Abs(r), chunks[0], Flat(chunks[1..]));
    ClosesWell(Abs(r), chunks[0]);
  }

  lemma {:induction false} ClosesWell(s: State, bytes: seq<byte>)
    requires !FeedAll(s, bytes).state.Failed?
    ensures ClosesLast(s, bytes)
  {
    ClosesOn(s, bytes, []);
    assert bytes + [] == bytes;
  }

  /** Chunking does not matter: whatever the octets are, the reader delivers
      what the reference decoder does, and uses up every chunk, exactly when
      the stream is cut safely. Otherwise it crashes or leaves octets behind. */
  lemma {:induction false} RunExact(r: Reader, chunks: seq<seq<byte>>)
    requires Valid(r) && Sized(Abs(r), Flat(chunks))
    ensures RunsExactly(r, chunks)
    ensures SafeCut(Abs(r), chunks) <==> Agrees(Run(r, chunks), FeedAll(Abs(r), Flat(chunks)))
    decreases |chunks|
  {
    if chunks != [] {
      var chunk, rest := chunks[0], Flat(chunks[1..]);
      SizedPrefix(Abs(r), chunk, rest);
      SizedAppend(Abs(r), chunk, rest);
      DrainExact(r, chunk);
      if |chunks| == 1 {
        RunLast(r, chunks);
      } else if SafeChunk(Abs(r), chunk) {
        var r1 := Drain(r, chunk).reader;
        if r1.error {
          RunFails(r, chunks);
        } else {
          RunExact(r1, chunks[1..]);
          RunOn(r, chunks, r1);
        }
      }
    }
  }

  lemma {:induction false} SizedPrefix(s: State, a: seq<byte>, b: seq<byte>)
    requires Sized(s, a + b)
    ensures Sized(s, a)
    decreases |a|
  {
    if a != [] {
      assert (a + b)[1..] == a[1..] + b;
      SizedPrefix(Feed(s, a[0]).state, a[1..], b);
    }
  }
}
