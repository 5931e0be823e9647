/** Sending a WebSocket message through a socket that may accept any part of
    what it is offered, or fail, at every call. */
module SocketWrite {
  import opened Bytes
  import opened WsHeader
  import opened WsDecoder

  datatype Response = Accept(n: nat) | Refuse(fatal: bool)

  /** The operating system's side. It answers calls as the script says and, when
      the script is over, accepts everything. */
  class Socket {
    var script: seq<Response>
    ghost var accepted: seq<byte>

    constructor (script: seq<Response>)
      ensures this.script == script && accepted == []
    {
      this.script, accepted := script, [];
    }

    method Writev(iov: seq<seq<byte>>) returns (sent: int, fatal: bool)
      modifies this
      ensures -1 <= sent <= |Flat(iov)|
      ensures sent >= 0 ==> accepted == old(accepted) + Flat(iov)[..sent]
      ensures sent < 0 ==> accepted == old(accepted)
      ensures if old(script) == [] then script == [] && sent == |Flat(iov)| else script == old(script)[1..]
      ensures fatal <==> old(script) != [] && old(script)[0] == Refuse(true)
      ensures fatal ==> sent < 0
    {
      fatal := script != [] && script[0] == Refuse(true);
      if script == [] {
        sent := |Flat(iov)|;
      } else {
        sent := if script[0].Refuse? then -1 else if script[0].n < |Flat(iov)| then script[0].n else |Flat(iov)|;
        script := script[1..];
      }
      if sent >= 0 {
        accepted := accepted + Flat(iov)[..sent];
      }
    }
  }

  /** Of the parts, `sent` octets are gone already; the rest is what is left
      of `data` after `total` octets. */
  predicate Offered(parts: seq<seq<byte>>, sent: nat, data: seq<byte>, total: nat) {
    sent <= |Flat(parts)| && total <= |data| && Flat(parts)[sent..] == data[total..]
  }

  lemma SkipPart(parts: seq<seq<byte>>, sent: nat, data: seq<byte>, total: nat)
    requires Offered(parts, sent, data, total) && parts != [] && |parts[0]| <= sent
    ensures Offered(parts[1..], sent - |parts[0]|, data, total)
  {
    assert Flat(parts)[sent..] == Flat(parts[1..])[sent - |parts[0]|..];
  }

  lemma AdvancePart(parts: seq<seq<byte>>, sent: nat, data: seq<byte>, total: nat)
    requires Offered(parts, sent, data, total) && parts != [] && sent <= |parts[0]|
    ensures Flat([parts[0][sent..]] + parts[1..]) == data[total..]
  {
    assert ([parts[0][sent..]] + parts[1..])[1..] == parts[1..];
    assert Flat(parts)[sent..] == parts[0][sent..] + Flat(parts[1..]);
  }

  lemma AfterWrite(parts: seq<seq<byte>>, data: seq<byte>, total: nat, n: nat)
    requires total <= |data| && Flat(parts) == data[total..] && n <= |Flat(parts)|
    ensures Offered(parts, n, data, total + n)
    ensures data[..total] + Flat(parts)[..n] == data[..total + n]
  {}

  /** `SocketConnection::writev`: offer the rest again until all is sent. */
  method Writev(sock: Socket, iov: seq<seq<byte>>) returns (r: int)
    modifies sock
    ensures r >= 0 ==> r == |Flat(iov)| && sock.accepted == old(sock.accepted) + Flat(iov)
    ensures exists n: nat :: n <= |Flat(iov)| && sock.accepted == old(sock.accepted) + Flat(iov)[..n]
    ensures r < 0 ==> Refuse(true) in old(sock.script)
  {
    var requested := |Flat(iov)|;
    var sent, fatal := sock.Writev(iov);
    if sent < 0 {
      assert sock.accepted == old(sock.accepted) + Flat(iov)[..0];
      if fatal { return sent; }
      sent := 0;
    }
    if sent == requested {
      assert Flat(iov)[..sent] == Flat(iov);
      return sent;
    }
    r := Resume(sock, iov, sent, old(sock.accepted));
  }

  /** The loop over a local copy of the vector, entered after a short write. */
  method Resume(sock: Socket, iov: seq<seq<byte>>, first: nat, ghost before: seq<byte>) returns (r: int)
    requires first <= |Flat(iov)| && sock.accepted == before + Flat(iov)[..first]
    modifies sock
    ensures r >= 0 ==> r == |Flat(iov)| && sock.accepted == before + Flat(iov)
    ensures exists n: nat :: n <= |Flat(iov)| && sock.accepted == before + Flat(iov)[..n]
    ensures r < 0 ==> Refuse(true) in old(sock.script)
  {
    var requested := |Flat(iov)|;
    var local := new seq<byte>[|iov|](i requires 0 <= i < |iov| => iov[i]);
    var p, sent, total := 0, first, first;
    assert local[p..] == iov;
    while total < requested
      invariant p <= local.Length && 0 <= sent && 0 <= total <= requested
      invariant Offered(local[p..], sent, Flat(iov), total)
      invariant sock.accepted == before + Flat(iov)[..total]
      invariant forall x :: x in sock.script ==> x in old(sock.script)
      decreases |sock.script|, requested - total, local.Length - p
    {
      ghost var parts := local[p..];
      assert parts != [];
      assert parts[1..] == local[p + 1..];
      if |local[p]| < sent {
        SkipPart(parts, sent, Flat(iov), total);
        sent := sent - |local[p]|;
        p := p + 1;
        continue;
      }
      AdvancePart(parts, sent, Flat(iov), total);
      local[p] := local[p][sent..];
      assert local[p..] == [parts[0][sent..]] + parts[1..];
      var fatal;
      sent, fatal := sock.Writev(local[p..]);
      if sent < 0 {
        if fatal { return sent; }
        sent := 0;
      }
      AfterWrite(local[p..], Flat(iov), total, sent);
      total := total + sent;
    }
    assert Flat(iov)[..total] == Flat(iov);
    r := requested;
  }

  // ------------------------------------------------------------ WebSocket

  ghost function Contents(iov: seq<array<byte>>): (s: seq<seq<byte>>)
    reads iov
    ensures |s| == |iov|
    ensures forall i :: 0 <= i < |iov| ==> s[i] == iov[i][..]
  {
    if iov == [] then [] else [iov[0][..]] + Contents(iov[1..])
  }

  method MaskBuffer(buf: array<byte>, key: MaskKey, offset: nat)
    modifies buf
    ensures buf[..] == Masked(old(buf[..]), key, offset)
  {
    for j := 0 to buf.Length
      invariant buf[j..] == old(buf[j..])
      invariant buf[..j] == Masked(old(buf[..]), key, offset)[..j]
    {
      assert buf[j] == buf[j..][0] == old(buf[..])[j];
      buf[j] := Xor(buf[j], key.At(offset + j));
    }
  }

  lemma FlatSnoc(parts: seq<seq<byte>>, last: seq<byte>)
    ensures Flat(parts + [last]) == Flat(parts) + last
  {
    FlatAppend(parts, [last]);
    assert Flat([last]) == last + Flat([]);
  }

  lemma {:induction false} MaskedNext(parts: seq<seq<byte>>, i: nat, done: seq<seq<byte>>, next: seq<byte>, key: MaskKey)
    requires i < |parts| && Flat(done) == Masked(Flat(parts[..i]), key, 0)
    requires next == Masked(parts[i], key, |Flat(parts[..i])|)
    ensures Flat(done + [next]) == Masked(Flat(parts[..i + 1]), key, 0)
    ensures |Flat(parts[..i + 1])| == |Flat(parts[..i])| + |parts[i]|
  {
    assert parts[..i + 1] == parts[..i] + [parts[i]];
    FlatSnoc(parts[..i], parts[i]);
    FlatSnoc(done, next);
    MaskedSplit(Flat(parts[..i]), parts[i], key, 0);
  }

  /** Masks all buffers in place, as one message; returns its length. */
  method MaskAll(iov: seq<array<byte>>, key: MaskKey) returns (length: nat)
    requires forall i, j :: 0 <= i < j < |iov| ==> iov[i] != iov[j]
    modifies iov
    ensures length == |Flat(old(Contents(iov)))|
    ensures Flat(Contents(iov)) == Masked(Flat(old(Contents(iov))), key, 0)
  {
    ghost var parts := Contents(iov);
    ghost var done: seq<seq<byte>> := [];
    length := 0;
    for i := 0 to |iov|
      invariant length == |Flat(parts[..i])| && |done| == i
      invariant Flat(done) == Masked(Flat(parts[..i]), key, 0)
      invariant forall k :: 0 <= k < i ==> iov[k][..] == done[k]
      invariant forall k :: i <= k < |iov| ==> iov[k][..] == parts[k]
    {
      MaskBuffer(iov[i], key, length);
      MaskedNext(parts, i, done, iov[i][..], key);
      done := done + [iov[i][..]];
      length := length + iov[i].Length;
    }
    assert parts[..|iov|] == parts;
    assert done == Contents(iov);
  }

  ghost function Message(key: MaskKey, payload: Payload): Frame {
    Frame(BINARY_FRAME, true, key, payload)
  }

  method PrepareHeader(key: MaskKey, length: Length) returns (header: seq<byte>)
    ensures header == Encoded(BINARY_FRAME, true, key, length)
  {
    var buffer := new byte[20];
    var rc := WsPrepare(BINARY_FRAME, true, key, length, buffer);
    header := buffer[..rc];
  }

  method Vector(header: seq<byte>, iov: seq<array<byte>>) returns (vector: seq<seq<byte>>)
    ensures vector == [header] + Contents(iov)
  {
    vector := [header];
    for i := 0 to |iov|
      invariant vector == [header] + Contents(iov)[..i]
    {
      vector := vector + [iov[i][..]];
    }
  }

  lemma VectorIsWire(key: MaskKey, payload: Payload, parts: seq<seq<byte>>)
    requires Flat(parts) == Masked(payload, key, 0)
    ensures Flat([Message(key, payload).Header()] + parts) == Message(key, payload).Wire()
  {
    assert ([Message(key, payload).Header()] + parts)[1..] == parts;
  }

  /** `WebSocketBase::writev`. Whatever the socket does, it has been given a
      prefix of one frame holding the message, and all of it when the call
      reports the payload size. */
  method WebSocketWritev(sock: Socket, iov: seq<array<byte>>, key: MaskKey) returns (r: int)
    requires forall i, j :: 0 <= i < j < |iov| ==> iov[i] != iov[j]
    requires |Flat(Contents(iov))| < 0x1_0000_0000_0000_0000
    modifies sock, iov
    ensures var payload := Flat(old(Contents(iov)));
            && (r >= 0 ==> r == |payload| && sock.accepted == old(sock.accepted) + Message(key, payload).Wire())
            && (r < 0 ==> Refuse(true) in old(sock.script))
            && exists n: nat :: n <= |Message(key, payload).Wire()|
                             && sock.accepted == old(sock.accepted) + Message(key, payload).Wire()[..n]
  {
    ghost var payload := Flat(Contents(iov));
    var length := MaskAll(iov, key);
    var header := PrepareHeader(key, length);
    var vector := Vector(header, iov);
    VectorIsWire(key, payload, Contents(iov));
    var sent := Writev(sock, vector);
    r := if sent > 0 then sent - |header| else sent;
  }

  /** What a receiver makes of the octets accepted so far is a prefix of the
      message, and all of it once the whole frame has gone. */
  lemma AcceptedDecodes(key: MaskKey, payload: Payload, n: nat)
    requires n <= |Message(key, payload).Wire()|
    ensures FeedAll(START, Message(key, payload).Wire()[..n]).out <= payload
    ensures n == |Message(key, payload).Wire()| ==>
              FeedAll(START, Message(key, payload).Wire()[..n]) == Fed(START, payload)
  {
    var wire := Message(key, payload).Wire();
    DecodeFrame(Message(key, payload));
    FeedAppend(START, wire[..n], wire[n..]);
    assert wire[..n] + wire[n..] == wire;
  }
}
