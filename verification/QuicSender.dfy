/** The send queue in place, with the octets it hands to the transport. */
module QuicSender {
  import opened Bytes
  import opened WsHeader
  import opened WsDecoder
  import WsDelivery
  import WebsocketRead
  import WsReader
  import Q = QuicSend

  class Sender {
    var queue: seq<Q.Event>
    var headers: seq<nat>
    var free: nat
    var count: nat
    var pendingSends: int
    var pendingBytes: int
    var next: nat
    ghost var held: nat
    ghost var released: seq<nat>
    // Messages sent, their frames, and the octets given to the transport.
    ghost var messages: seq<seq<byte>>
    ghost var frames: seq<Frame>
    ghost var written: seq<byte>

    ghost function Value(): Q.State
      reads this
    {
      Q.State(queue, headers, free, held, count, pendingSends, pendingBytes, next, released)
    }

    /** The transport was given one frame for each message, and nothing else. */
    ghost predicate Wired()
      reads this
    {
      written == Stream(frames) && Carries(frames, messages)
    }

    constructor ()
      ensures Value() == Q.INITIAL && Wired() && messages == []
    {
      queue, headers, free, count, next := [], [], 0, 0, 0;
      pendingSends, pendingBytes := 0, 0;
      held, released, messages, frames, written := 0, [], [], [], [];
    }

    /** Blocks while there is no buffer: called when there is one to be had. */
    method GetBuffer()
      requires |queue| == |headers| && Q.Allowed(Value(), Q.GetBuffer)
      modifies this
      ensures Value() == Q.Apply(old(Value()), Q.GetBuffer)
      ensures written == old(written) && messages == old(messages) && (old(Wired()) ==> Wired())
    {
      if free > 0 {
        free := free - 1;
      } else {
        count := count + 1;
      }
      held := held + 1;
    }

    /** Frames the message, masks it in place, queues and writes it. */
    method SendBuffer(buffer: array<byte>, key: MaskKey)
      requires |queue| == |headers| && Q.Allowed(Value(), Q.Send(buffer.Length))
      requires buffer.Length < 0x1_0000_0000_0000_0000
      modifies this, buffer
      ensures Value() == Q.Apply(old(Value()), Q.Send(buffer.Length))
      ensures messages == old(messages) + [old(buffer[..])] && (old(Wired()) ==> Wired())
    {
      Enqueue(buffer.Length);
      ghost var message := buffer[..];
      var wire := FrameMessage(buffer, key);
      Record(message, key, wire);
    }

    method Enqueue(size: nat)
      requires |queue| == |headers| && Q.Allowed(Value(), Q.Send(size))
      modifies this`pendingSends, this`pendingBytes, this`queue, this`headers, this`next, this`held
      ensures Value() == Q.Apply(old(Value()), Q.Send(size))
    {
      pendingSends := pendingSends + 1;
      pendingBytes := pendingBytes + size;
      queue := queue + [Q.Event(next, next, size, Q.InFlight)];
      headers := headers + [next];
      next, held := next + 1, held - 1;
    }

    ghost method Record(message: seq<byte>, key: MaskKey, wire: seq<byte>)
      requires |message| < 0x1_0000_0000_0000_0000 && wire == Frame(BINARY_FRAME, true, key, message).Wire()
      modifies this`messages, this`frames, this`written
      ensures messages == old(messages) + [message] && (old(Wired()) ==> Wired())
    {
      var f := Frame(BINARY_FRAME, true, key, message);
      StreamSnoc(frames, f);
      messages := messages + [message];
      frames := frames + [f];
      written := written + wire;
    }

    /** First part of `OnWriteComplete`, before the lock is taken. */
    method LowerCounters(i: nat)
      requires |queue| == |headers| && Q.Allowed(Value(), Q.Lower(i))
      modifies this
      ensures Value() == Q.Apply(old(Value()), Q.Lower(i))
      ensures written == old(written) && messages == old(messages) && (old(Wired()) ==> Wired())
    {
      pendingSends := pendingSends - 1;
      pendingBytes := pendingBytes - queue[i].size;
      queue := queue[i := queue[i].(stage := Q.Completing)];
    }

    /** Rest of `OnWriteComplete`, under the lock. */
    method OnWriteComplete(i: nat)
      requires Q.Aligned(queue, headers) && Q.Allowed(Value(), Q.Finish(i))
      modifies this
      ensures Value() == Q.Apply(old(Value()), Q.Finish(i))
      ensures written == old(written) && messages == old(messages) && (old(Wired()) ==> Wired())
    {
      released := released + [queue[i].id];
      queue := queue[i := queue[i].(stage := Q.Complete)];
      free := free + 1;
      if i == 0 { ClearCompleted(); }
    }

    method ClearCompleted()
      requires Q.Aligned(queue, headers)
      modifies this`queue, this`headers
      ensures (queue, headers) == Q.Cleared(old(queue), old(headers))
    {
      while |queue| > 0 && queue[0].stage.Complete?
        invariant Q.Aligned(queue, headers)
        invariant Q.Cleared(queue, headers) == Q.Cleared(old(queue), old(headers))
        decreases |queue|
      {
        assert queue[0].header == headers[0];
        headers := headers[1..];
        queue := queue[1..];
      }
    }
  }

  /** Header and masked payload, as given to the transport in two parts. */
  method FrameMessage(buffer: array<byte>, key: MaskKey) returns (wire: seq<byte>)
    requires buffer.Length < 0x1_0000_0000_0000_0000
    modifies buffer
    ensures wire == Frame(BINARY_FRAME, true, key, old(buffer[..])).Wire()
  {
    var header := new byte[14];
    var n := WsWriteHeader(BINARY_FRAME, true, key, buffer.Length, header);
    assert header[..n] == Encoded(BINARY_FRAME, true, key, buffer.Length);
    WebsocketRead.Mask(buffer, 0, buffer.Length, key, 0);
    assert buffer[0..buffer.Length] == buffer[..] && old(buffer[0..buffer.Length]) == old(buffer[..]);
    wire := header[..n] + buffer[..];
  }

  lemma {:induction false} StreamSnoc(frames: seq<Frame>, f: Frame)
    ensures Stream(frames + [f]) == Stream(frames) + f.Wire()
  {
    if frames == [] {
      assert Stream([f]) == f.Wire() + Stream([]);
    } else {
      assert (frames + [f])[1..] == frames[1..] + [f];
      StreamSnoc(frames[1..], f);
    }
  }

  /** The frames hold the messages, and a receiver accepts them. */
  ghost predicate Carries(frames: seq<Frame>, messages: seq<seq<byte>>) {
    && |frames| == |messages|
    && forall i :: 0 <= i < |frames| ==> Sendable(frames[i]) && frames[i].payload == messages[i]
  }

  lemma {:induction false} CarriesPayloads(frames: seq<Frame>, messages: seq<seq<byte>>)
    requires Carries(frames, messages)
    ensures Payloads(frames) == Flat(messages)
    decreases |frames|
  {
    if frames != [] {
      CarriesPayloads(frames[1..], messages[1..]);
    }
  }

  /** End to end: whatever was sent through `SendBuffer`, its octets cut into chunks
      in any way, the peer's reader delivers the original buffers in order if and
      only if no chunk falls inside a header in the refused way. */
  lemma PeerReceives(sender: Sender, chunks: seq<seq<byte>>)
    requires sender.Wired() && Flat(chunks) == sender.written
    requires forall m :: m in sender.messages ==> 0 < |m| < WsReader.INT32_LIMIT
    ensures WsDelivery.SplitsSafe(START, chunks) <==> WsDelivery.Delivers(chunks, Flat(sender.messages))
  {
    CarriesPayloads(sender.frames, sender.messages);
    forall f | f in sender.frames ensures Sendable(f) && 0 < |f.payload| < WsReader.INT32_LIMIT {
      var i :| 0 <= i < |sender.frames| && sender.frames[i] == f;
      assert sender.messages[i] in sender.messages;
    }
    WsDelivery.DeliversPayloads(sender.frames, chunks);
  }

  /** And with messages of up to 65535 octets, however the octets are cut. */
  lemma PeerReceivesShort(sender: Sender, chunks: seq<seq<byte>>)
    requires sender.Wired() && Flat(chunks) == sender.written
    requires forall m :: m in sender.messages ==> 0 < |m| < 65536
    ensures WsDelivery.Delivers(chunks, Flat(sender.messages))
  {
    CarriesPayloads(sender.frames, sender.messages);
    forall f | f in sender.frames ensures Sendable(f) && 0 < |f.payload| < 65536 {
      var i :| 0 <= i < |sender.frames| && sender.frames[i] == f;
      assert sender.messages[i] in sender.messages;
    }
    WsDelivery.ShortFramesAnyCut(sender.frames, chunks);
  }
}
