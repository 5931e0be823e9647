/** The chunked reader as the source has it: counters, a 14-octet buffer for
    split headers, and spans of the caller's chunk that are unmasked in place. */
module WebsocketRead {
  import opened Bytes
  import opened WsHeader
  import opened WsDecoder
  import R = WsReader

  /** XOR `buffer[lo..hi]` with the key, continuing at phase `offset`. */
  method Mask(buffer: array<byte>, lo: nat, hi: nat, key: MaskKey, offset: nat)
    requires lo <= hi <= buffer.Length
    modifies buffer
    ensures buffer[..lo] == old(buffer[..lo]) && buffer[hi..] == old(buffer[hi..])
    ensures buffer[lo..hi] == Masked(old(buffer[lo..hi]), key, offset)
  {
    for i := 0 to hi - lo
      invariant buffer[..lo] == old(buffer[..lo]) && buffer[hi..] == old(buffer[hi..])
      invariant buffer[lo + i..hi] == old(buffer[lo + i..hi])
      invariant buffer[lo..lo + i] == Masked(old(buffer[lo..hi]), key, offset)[..i]
    {
      assert buffer[lo + i] == buffer[lo + i..hi][0] == old(buffer[lo..hi])[i];
      buffer[lo + i] := Xor(buffer[lo + i], key.At(offset + i));
    }
  }

  /** Copy `n` octets of `src` from `from` on to `dst` at `at`. */
  method Copy(src: array<byte>, from: nat, n: nat, dst: array<byte>, at: nat)
    requires src != dst && from + n <= src.Length && at + n <= dst.Length
    modifies dst
    ensures dst[..at + n] == old(dst[..at]) + src[from..from + n]
  {
    for i := 0 to n
      invariant dst[..at] == old(dst[..at])
      invariant dst[at..at + i] == src[from..from + i]
    {
      dst[at + i] := src[from + i];
    }
    assert dst[..at + n] == dst[..at] + dst[at..at + n];
  }

  class WebsocketRead {
    var payloadRead: nat
    var payloadRemaining: int
    var partialHeaderRead: nat
    var mask: bool
    var key: MaskKey
    var error: bool
    const header: array<byte>

    // The span of input still to be read.
    var data: array<byte>
    var lo: nat
    var hi: nat

    ghost predicate Wf()
      reads this
    {
      && header.Length == R.HEADER_BUFFER && header != data
      && partialHeaderRead <= header.Length
      && lo <= hi <= data.Length
    }

    ghost function Value(): R.Reader
      requires Wf()
      reads this, header
    {
      R.Reader(payloadRead, payloadRemaining, header[..partialHeaderRead], mask, key, error)
    }

    ghost function Pending(): seq<byte>
      requires Wf()
      reads this, data
    {
      data[lo..hi]
    }

    constructor ()
      ensures Wf() && Value() == R.FRESH && Pending() == []
      ensures fresh(header) && fresh(data)
    {
      payloadRead, payloadRemaining, partialHeaderRead := 0, 0, 0;
      mask, key, error := false, ZERO_KEY, false;
      header := new byte[14];
      data := new byte[0];
      lo, hi := 0, 0;
    }

    /** Hand over the next chunk; the previous one must be used up. */
    method Next(chunk: array<byte>)
      requires Wf() && Pending() == [] && chunk != header
      modifies this`data, this`lo, this`hi
      ensures Wf() && data == chunk && Pending() == chunk[..] && Value() == old(Value())
    {
      data, lo, hi := chunk, 0, chunk.Length;
    }

    method CopyPartialHeader()
      requires Wf() && partialHeaderRead < header.Length
      modifies this`partialHeaderRead, header
      ensures Wf()
      ensures Value() == old(Value()).(partial := R.CopyPartial(old(Value()).partial, old(Pending())))
    {
      var size := if header.Length - partialHeaderRead < hi - lo then header.Length - partialHeaderRead else hi - lo;
      Copy(data, lo, size, header, partialHeaderRead);
      partialHeaderRead := partialHeaderRead + size;
      assert data[lo..hi][..size] == data[lo..lo + size];
    }

    /** The span `data[from..to]` holds the decoded octets. */
    method NextBuffer() returns (from: nat, to: nat, aborted: bool)
      requires Wf()
      modifies this`payloadRead, this`payloadRemaining, this`lo, data
      ensures Wf()
      ensures var step := R.NextBuffer(old(Value()), old(Pending()));
              if step.Aborted? then aborted else
                !aborted && Value() == step.reader && Pending() == step.rest
                && from <= to <= data.Length && data[from..to] == step.out
    {
      from, to, aborted := lo, lo, false;
      var size := if hi - lo < payloadRemaining then hi - lo else payloadRemaining;
      if size < 0 { aborted := true; return; }
      to := lo + size;
      ghost var before := data[lo..hi];
      assert before[..size] == data[lo..to] && before[size..] == data[to..hi];
      lo := to;
      if mask { Mask(data, from, to, key, payloadRead); }
      assert data[to..hi] == data[to..][..hi - to];
      assert old(data[to..hi]) == old(data[to..])[..hi - to];
      payloadRead := payloadRead + size;
      payloadRemaining := payloadRemaining - size;
    }

    /** The header is not complete: keep what there is of it. */
    method KeepPartial(offset: nat) returns (aborted: bool)
      requires Wf()
      modifies this`partialHeaderRead, this`lo, this`hi, header
      ensures Wf()
      ensures var step := R.KeepPartial(old(Value()), offset, old(Pending()));
              if step.Aborted? then aborted else
                !aborted && Value() == step.reader && Pending() == step.rest
    {
      if hi - lo + partialHeaderRead >= header.Length { return true; }
      if partialHeaderRead == 0 { CopyPartialHeader(); }
      if partialHeaderRead - offset != hi - lo { return true; }
      lo, hi := 0, 0;
      aborted := false;
    }

    method BeginFrame(h: Header, offset: nat) returns (from: nat, to: nat, aborted: bool)
      requires Wf() && !error
      modifies this, data
      ensures data == old(data)
      ensures var step := R.BeginFrame(old(Value()), h, offset, old(Pending()));
              if step.Aborted? then aborted else
                !aborted && Wf() && Value() == step.reader && Pending() == step.rest
                && from <= to <= data.Length && data[from..to] == step.out
    {
      from, to, aborted := lo, lo, false;
      var headerOffset := h.headerSize - offset;
      if headerOffset < 0 || headerOffset > hi - lo { aborted := true; return; }
      ghost var rest := Pending()[headerOffset..];
      lo := lo + headerOffset;
      assert Pending() == rest;
      from, to := lo, lo;
      if h.opCode == CLOSE {
        error := true;
        return;
      }
      assert R.BeginFrame(old(Value()), h, offset, old(Pending())) == R.NextBuffer(R.Opened(h), rest);
      Open(h);
      from, to, aborted := NextBuffer();
    }

    method Open(h: Header)
      requires Wf() && !error
      modifies this`mask, this`key, this`partialHeaderRead, this`payloadRead, this`payloadRemaining
      ensures Wf() && Value() == R.Opened(h)
    {
      mask, key := h.mask, h.key;
      partialHeaderRead, payloadRead := 0, 0;
      payloadRemaining := R.ToInt32(h.payloadLength);
    }

    method Buffer() returns (from: nat, to: nat, aborted: bool)
      requires Wf() && R.Valid(Value())
      modifies this, header, data
      ensures data == old(data)
      ensures var step := R.Buffer(old(Value()), old(Pending()));
              if step.Aborted? then aborted else
                !aborted && Wf() && Value() == step.reader && Pending() == step.rest
                && from <= to <= data.Length && data[from..to] == step.out
    {
      from, to, aborted := lo, lo, false;
      if hi == lo { return; }
      if payloadRemaining > 0 {
        from, to, aborted := NextBuffer();
        return;
      }
      var offset := partialHeaderRead;
      var status;
      if offset > 0 {
        CopyPartialHeader();
        status := WsParseHeader(header[..partialHeaderRead]);
      } else {
        status := WsParseHeader(data[lo..hi]);
      }
      match status {
        case Invalid => error := true;
        case NotEnoughData =>
          aborted := KeepPartial(offset);
          from, to := 0, 0;
        case Parsed(h) => from, to, aborted := BeginFrame(h, offset);
      }
    }
  }

  lemma PrependNothing(d: R.Drained)
    ensures R.Prepend([], d) == d
  {
    if d.Stopped? {
      assert [] + d.out == d.out;
    }
  }

  lemma PrependTwice(a: seq<byte>, b: seq<byte>, d: R.Drained)
    ensures R.Prepend(a, R.Prepend(b, d)) == R.Prepend(a + b, d)
  {
    if d.Stopped? {
      assert a + (b + d.out) == (a + b) + d.out;
    }
  }

  /** The loop that empties a chunk into the message buffer. */
  method ReadChunk(ws: WebsocketRead, chunk: array<byte>) returns (out: seq<byte>, aborted: bool)
    requires ws.Wf() && ws.Pending() == [] && R.Valid(ws.Value()) && chunk != ws.header
    modifies ws, ws.header, chunk
    ensures match R.Drain(old(ws.Value()), old(chunk[..]))
            case Crashed => aborted
            case Stopped(reader, o, leftover) =>
              !aborted && ws.Wf() && out == o && ws.Value() == reader && ws.Pending() == leftover
  {
    ghost var d := R.Drain(ws.Value(), chunk[..]);
    ws.Next(chunk);
    out, aborted := [], false;
    PrependNothing(d);
    while true
      invariant ws.Wf() && ws.data == chunk && !aborted
      invariant R.Valid(ws.Value())
      invariant R.Prepend(out, R.Drain(ws.Value(), ws.Pending())) == d
      decreases |ws.Pending()|
    {
      var from, to;
      ghost var r, pending := ws.Value(), ws.Pending();
      from, to, aborted := ws.Buffer();
      if aborted { return; }
      var span := chunk[from..to];
      if ws.error || span == [] {
        R.DrainStops(r, pending);
        assert out + [] == out;
        return;
      }
      R.DrainUnfold(r, pending, ws.Value(), span, ws.Pending());
      PrependTwice(out, span, R.Drain(ws.Value(), ws.Pending()));
      out := out + span;
    }
  }
}
