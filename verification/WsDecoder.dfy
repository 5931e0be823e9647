/** The reference decoder: a WebSocket byte stream taken one octet at a time.
    It has no buffers, so what it says about a stream cannot depend on how the
    stream was cut into chunks. */
module WsDecoder {
  import opened Bytes
  import opened WsHeader

  datatype State =
    | InHeader(partial: seq<byte>)
    | InPayload(mask: bool, key: MaskKey, read: nat, remaining: nat)
    | Failed

  datatype Fed = Fed(state: State, out: seq<byte>)

  const START := InHeader([])

  function Feed(s: State, b: byte): Fed {
    match s
    case Failed => Fed(Failed, [])
    case InPayload(mask, key, read, remaining) =>
      Fed(if remaining <= 1 then START else InPayload(mask, key, read + 1, remaining - 1),
          [if mask then Xor(b, key.At(read)) else b])
    case InHeader(partial) =>
      match WsParseHeader(partial + [b])
      case NotEnoughData => Fed(InHeader(partial + [b]), [])
      case Invalid => Fed(Failed, [])
      case Parsed(h) => Fed(AfterHeader(h), [])
  }

  function AfterHeader(h: Header): State {
    if h.opCode == CLOSE then Failed
    else if h.payloadLength == 0 then START
    else InPayload(h.mask, h.key, 0, h.payloadLength)
  }

  function FeedAll(s: State, bytes: seq<byte>): Fed
    decreases |bytes|
  {
    if bytes == [] then Fed(s, []) else
      var first := Feed(s, bytes[0]);
      var rest := FeedAll(first.state, bytes[1..]);
      Fed(rest.state, first.out + rest.out)
  }

  lemma {:induction false} FeedAppend(s: State, a: seq<byte>, b: seq<byte>)
    ensures var x := FeedAll(s, a);
            var y := FeedAll(x.state, b);
            FeedAll(s, a + b) == Fed(y.state, x.out + y.out)
    decreases |a|
  {
    if a == [] {
      assert a + b == b;
    } else {
      assert (a + b)[1..] == a[1..] + b && (a + b)[0] == a[0];
      var first := Feed(s, a[0]);
      FeedAppend(first.state, a[1..], b);
      var x := FeedAll(first.state, a[1..]);
      var y := FeedAll(x.state, b);
      assert first.out + (x.out + y.out) == first.out + x.out + y.out;
    }
  }

  lemma {:induction false} FailedAbsorbs(bytes: seq<byte>)
    ensures FeedAll(Failed, bytes) == Fed(Failed, [])
  {
    if bytes != [] {
      FailedAbsorbs(bytes[1..]);
    }
  }

  /** A payload octet string, whole or in part. */
  function Unmasked(mask: bool, key: MaskKey, read: nat, bytes: seq<byte>): (r: seq<byte>)
    ensures |r| == |bytes|
  {
    if mask then Masked(bytes, key, read) else bytes
  }

  lemma UnmaskedStep(mask: bool, key: MaskKey, read: nat, bytes: seq<byte>)
    requires bytes != []
    ensures Unmasked(mask, key, read, bytes)
         == [if mask then Xor(bytes[0], key.At(read)) else bytes[0]] + Unmasked(mask, key, read + 1, bytes[1..])
  {}

  lemma {:induction false} FeedPayload(s: State, bytes: seq<byte>)
    requires s.InPayload? && 0 < |bytes| <= s.remaining
    ensures FeedAll(s, bytes)
         == Fed(if |bytes| == s.remaining then START
                else InPayload(s.mask, s.key, s.read + |bytes|, s.remaining - |bytes|),
                Unmasked(s.mask, s.key, s.read, bytes))
    decreases |bytes|
  {
    UnmaskedStep(s.mask, s.key, s.read, bytes);
    if |bytes| > 1 {
      FeedPayload(Feed(s, bytes[0]).state, bytes[1..]);
    }
  }

  /** Octets that do not complete the header are all kept. */
  lemma {:induction false} FeedIncomplete(partial: seq<byte>, bytes: seq<byte>)
    requires WsParseHeader(partial + bytes).NotEnoughData?
    ensures FeedAll(InHeader(partial), bytes) == Fed(InHeader(partial + bytes), [])
    decreases |bytes|
  {
    if bytes == [] {
      assert partial + bytes == partial;
    } else {
      assert partial + bytes == (partial + [bytes[0]]) + bytes[1..];
      if !WsParseHeader(partial + [bytes[0]]).NotEnoughData? {
        TrailingIgnored(partial + [bytes[0]], bytes[1..]);
        assert false;
      }
      FeedIncomplete(partial + [bytes[0]], bytes[1..]);
    }
  }

  /** The octet that completes the header decides what comes next. */
  lemma FeedHeader(partial: seq<byte>, bytes: seq<byte>)
    requires WsParseHeader(partial).NotEnoughData? && |partial + bytes| >= 2
    requires DeclaredSize((partial + bytes)[1]) == |partial + bytes|
    ensures FeedAll(InHeader(partial), bytes)
         == Fed(match WsParseHeader(partial + bytes)
                case Parsed(h) => AfterHeader(h)
                case _ => Failed, [])
  {
    assert bytes != [];
    var init, last := bytes[..|bytes| - 1], bytes[|bytes| - 1];
    assert bytes == init + [last];
    assert (partial + init) + [last] == partial + bytes;
    FeedIncomplete(partial, init);
    FeedAppend(InHeader(partial), init, [last]);
    assert FeedAll(InHeader(partial + init), [last]) == Feed(InHeader(partial + init), last);
  }

  // ------------------------------------------------------- frames on the wire

  /** Payloads whose size fits the 64-bit length field. */
  type Payload = s: seq<byte> | |s| < 0x1_0000_0000_0000_0000

  datatype Frame = Frame(op: OpCode, mask: bool, key: MaskKey, payload: Payload) {
    function Header(): seq<byte> {
      Encoded(op, mask, key, |payload|)
    }

    function Body(): seq<byte> {
      Unmasked(mask, key, 0, payload)
    }

    function Wire(): seq<byte> {
      Header() + Body()
    }
  }

  predicate Sendable(f: Frame) {
    ValidOpCode(f.op) && f.op != CLOSE
  }

  function Stream(frames: seq<Frame>): seq<byte> {
    if frames == [] then [] else frames[0].Wire() + Stream(frames[1..])
  }

  function Payloads(frames: seq<Frame>): seq<byte> {
    if frames == [] then [] else frames[0].payload + Payloads(frames[1..])
  }

  lemma DecodeHeader(f: Frame)
    requires Sendable(f)
    ensures FeedAll(START, f.Header())
         == Fed(if f.payload == [] then START
                else InPayload(f.mask, if f.mask then f.key else ZERO_KEY, 0, |f.payload|), [])
  {
    var h := f.Header();
    assert h + [] == h && [] + h == h;
    ParseEncoded(f.op, f.mask, f.key, |f.payload|, []);
    FeedHeader([], h);
  }

  lemma DecodeFrame(f: Frame)
    requires Sendable(f)
    ensures FeedAll(START, f.Wire()) == Fed(START, f.payload)
  {
    DecodeHeader(f);
    FeedAppend(START, f.Header(), f.Body());
    if f.payload != [] {
      FeedPayload(FeedAll(START, f.Header()).state, f.Body());
      MaskedTwice(f.payload, f.key, 0);
    }
  }

  /** Round trip: the stream of any frames decodes to their payloads. */
  lemma {:induction false} DecodeStream(frames: seq<Frame>)
    requires forall f :: f in frames ==> Sendable(f)
    ensures FeedAll(START, Stream(frames)) == Fed(START, Payloads(frames))
  {
    if frames != [] {
      DecodeFrame(frames[0]);
      DecodeStream(frames[1..]);
      FeedAppend(START, frames[0].Wire(), Stream(frames[1..]));
    }
  }
}
