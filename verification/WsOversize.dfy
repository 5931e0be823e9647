/** Announced lengths of 2^31 and more, which do not fit the reader's counter: the
    reader parts from the reference in the chunk that announces one. With it, the
    condition for agreement covers every stream. */
module WsOversize {
  import opened Bytes
  import opened WsHeader
  import opened WsDecoder
  import opened WsReader

  lemma {:induction false} SizedJoin(s: State, a: seq<byte>, b: seq<byte>)
    requires Sized(s, a) && Sized(FeedAll(s, a).state, b)
    ensures Sized(s, a + b)
    decreases |a|
  {
    if a == [] {
      assert a + b == b;
    } else {
      assert (a + b)[1..] == a[1..] + b;
      SizedJoin(Feed(s, a[0]).state, a[1..], b);
    }
  }

  lemma {:induction false} SizedPayload(s: State, bytes: seq<byte>)
    requires s.InPayload? && |bytes| <= s.remaining < INT32_LIMIT
    ensures Sized(s, bytes)
    decreases |bytes|
  {
    if |bytes| > 1 {
      SizedPayload(Feed(s, bytes[0]).state, bytes[1..]);
    }
  }

  lemma {:induction false} SizedFailed(bytes: seq<byte>)
    ensures Sized(Failed, bytes)
  {
    if bytes != [] {
      SizedFailed(bytes[1..]);
    }
  }

  lemma {:induction false} SizedIncomplete(partial: seq<byte>, bytes: seq<byte>)
    requires WsParseHeader(partial + bytes).NotEnoughData?
    ensures Sized(InHeader(partial), bytes)
    decreases |bytes|
  {
    if bytes != [] {
      assert partial + bytes == (partial + [bytes[0]]) + bytes[1..];
      if !WsParseHeader(partial + [bytes[0]]).NotEnoughData? {
        TrailingIgnored(partial + [bytes[0]], bytes[1..]);
        assert false;
      }
      SizedIncomplete(partial + [bytes[0]], bytes[1..]);
    }
  }

  /** Within a header only its last octet can announce a length. */
  lemma {:induction false} SizedHeader(partial: seq<byte>, seg: seq<byte>)
    requires seg != [] && |partial + seg| >= 2 && DeclaredSize((partial + seg)[1]) == |partial + seg|
    requires var s := FeedAll(InHeader(partial), seg).state;
             s.InPayload? ==> s.remaining < INT32_LIMIT
    ensures Sized(InHeader(partial), seg)
  {
    var init, last := seg[..|seg| - 1], seg[|seg| - 1];
    assert seg == init + [last];
    FeedIncomplete(partial, init);
    SizedIncomplete(partial, init);
    FeedAppend(InHeader(partial), init, [last]);
    assert FeedAll(InHeader(partial + init), [last]).state == Feed(InHeader(partial + init), last).state;
    SizedJoin(InHeader(partial), init, [last]);
  }

  lemma AgreesLater(out: seq<byte>, d: Drained, y: Fed)
    ensures Agrees(Prepend(out, d), Fed(y.state, out + y.out)) <==> Agrees(d, y)
  {
    if d.Stopped? {
      assert (out + d.out == out + y.out) <==> d.out == y.out by {
        assert (out + d.out)[|out|..] == d.out && (out + y.out)[|out|..] == y.out;
      }
    }
  }

  // -------------------------------------------------------- how much comes out

  lemma {:induction false} DrainAtMost(r: Reader, chunk: seq<byte>)
    requires Valid(r) && Drain(r, chunk).Stopped?
    ensures |Drain(r, chunk).out| <= |chunk|
    decreases |chunk|
  {
    var step := Buffer(r, chunk);
    if !step.reader.error && step.out != [] {
      DrainAtMost(step.reader, step.rest);
    }
  }

  /** Where a header is due, not all octets come out. */
  lemma {:induction false} DrainFewer(r: Reader, chunk: seq<byte>)
    requires Valid(r) && r.remaining == 0 && r.partial == [] && chunk != [] && Drain(r, chunk).Stopped?
    ensures |Drain(r, chunk).out| < |chunk|
  {
    var step := Buffer(r, chunk);
    if !step.reader.error && step.out != [] {
      DrainAtMost(step.reader, step.rest);
      assert WsParseHeader(chunk).Parsed?;
      assert step == BeginFrame(r, WsParseHeader(chunk).header, 0, chunk);
    }
  }

  // ------------------------------------------------------ the oversize header

  lemma {:induction false} OversizeParts(r: Reader, seg: seq<byte>, rest: seq<byte>, h: Header)
    requires Valid(r) && h.opCode != CLOSE && h.payloadLength >= INT32_LIMIT > |rest|
    requires FeedAll(Abs(r), seg) == Fed(AfterHeader(h), [])
    requires Buffer(r, seg + rest) == NextBuffer(Opened(h), rest)
    ensures !Agrees(Drain(r, seg + rest), FeedAll(Abs(r), seg + rest))
  {
    var t := ToInt32(h.payloadLength);
    FeedAppend(Abs(r), seg, rest);
    var fed := FeedAll(AfterHeader(h), rest);
    OversizeReference(h, rest);
    if t == 0 {
      DrainStops(r, seg + rest);
    } else if t > 0 {
      DrainSame(r, seg + rest, Opened(h), rest);
      assert Drain(r, seg + rest) == Drain(Opened(h), rest) by {
        var d := Drain(Opened(h), rest);
        if d.Stopped? {
          assert [] + d.out == d.out;
        }
      }
      TruncatedDrain(Opened(h), rest, fed);
    }
  }

  /** The reference is in the payload still. */
  lemma {:induction false} OversizeReference(h: Header, rest: seq<byte>)
    requires h.opCode != CLOSE && h.payloadLength >= INT32_LIMIT > |rest|
    ensures var fed := FeedAll(AfterHeader(h), rest);
            && fed.state.InPayload? && fed.state.remaining == h.payloadLength - |rest|
            && |fed.out| == |rest|
  {
    if rest != [] {
      FeedPayload(AfterHeader(h), rest);
    }
  }

  /** The reader with a shorter count is not. */
  lemma {:induction false} TruncatedDrain(r: Reader, rest: seq<byte>, fed: Fed)
    requires Valid(r) && r.remaining > 0 && fed.state.InPayload? && |fed.out| == |rest|
    requires fed.state.remaining + |rest| >= INT32_LIMIT
    ensures !Agrees(Drain(r, rest), fed)
  {
    var d := Drain(r, rest);
    if rest == [] {
      assert d == Stopped(r, [], []);
    } else {
      var n := Min(|rest|, r.remaining);
      var r1 := r.(read := r.read + n, remaining := r.remaining - n);
      PayloadStep(r, rest, n);
      if n < |rest| && Drain(r1, rest[n..]).Stopped? {
        DrainFewer(r1, rest[n..]);
      } else if n == |rest| {
        assert rest[n..] == [] && Drain(r1, []) == Stopped(r1, [], []);
      }
    }
  }

  /** A chunk that announces such a length is not agreed on. */
  lemma {:induction false} OversizeFrame(r: Reader, chunk: seq<byte>, h: Header)
    requires Valid(r) && chunk != [] && r.remaining == 0 && |chunk| < INT32_LIMIT
    requires WsParseHeader(r.partial + chunk) == Parsed(h) && h.opCode != CLOSE && !Sized(Abs(r), chunk)
    ensures !Agrees(Drain(r, chunk), FeedAll(Abs(r), chunk))
    decreases |chunk|, 0
  {
    var seg, rest := HeaderSegment(r, chunk);
    BufferFrame(r, seg, rest, h);
    if h.payloadLength >= INT32_LIMIT {
      OversizeParts(r, seg, rest, h);
    } else {
      SizedHeader(r.partial, seg);
      if h.payloadLength == 0 {
        EmptyOversize(r, seg, rest, h);
      } else {
        OpenedAbs(h);
        DrainSame(r, chunk, Opened(h), rest);
        Later(r, seg, Opened(h), [], rest);
      }
    }
  }

  lemma {:induction false} EmptyOversize(r: Reader, seg: seq<byte>, rest: seq<byte>, h: Header)
    requires Valid(r) && h.payloadLength == 0 && h.opCode != CLOSE && Sized(Abs(r), seg) && !Sized(Abs(r), seg + rest)
    requires Buffer(r, seg + rest) == NextBuffer(Opened(h), rest)
    ensures !Agrees(Drain(r, seg + rest), FeedAll(Abs(r), seg + rest))
  {
    assert seg + [] == seg;
    DrainStops(r, seg + rest);
  }

  /** Disagreement on the rest of a chunk is disagreement on the whole. */
  lemma {:induction false} Later(r: Reader, seg: seq<byte>, r1: Reader, out: seq<byte>, rest: seq<byte>)
    requires Valid(r) && Valid(r1) && seg != [] && |seg + rest| < INT32_LIMIT
    requires FeedAll(Abs(r), seg) == Fed(Abs(r1), out) && Sized(Abs(r), seg) && !Sized(Abs(r), seg + rest)
    requires Drain(r, seg + rest) == Prepend(out, Drain(r1, rest))
    ensures !Agrees(Drain(r, seg + rest), FeedAll(Abs(r), seg + rest))
    decreases |rest|, 2
  {
    if Sized(Abs(r1), rest) {
      SizedJoin(Abs(r), seg, rest);
    }
    OversizeDisagrees(r1, rest);
    FeedAppend(Abs(r), seg, rest);
    AgreesLater(out, Drain(r1, rest), FeedAll(Abs(r1), rest));
  }

  lemma {:induction false} OversizeDisagrees(r: Reader, chunk: seq<byte>)
    requires Valid(r) && |chunk| < INT32_LIMIT && !Sized(Abs(r), chunk)
    ensures !Agrees(Drain(r, chunk), FeedAll(Abs(r), chunk))
    decreases |chunk|, 1
  {
    if r.remaining > 0 {
      var n := Min(|chunk|, r.remaining);
      var seg, rest := chunk[..n], chunk[n..];
      assert chunk == seg + rest;
      PayloadStep(r, chunk, n);
      SizedPayload(Abs(r), seg);
      Later(r, seg, r.(read := r.read + n, remaining := r.remaining - n), Unmasked(r.mask, r.key, r.read, seg), rest);
    } else if WsParseHeader(r.partial + chunk).NotEnoughData? {
      SizedIncomplete(r.partial, chunk);
    } else if WsParseHeader(r.partial + chunk).Parsed? && WsParseHeader(r.partial + chunk).header.opCode != CLOSE {
      OversizeFrame(r, chunk, WsParseHeader(r.partial + chunk).header);
    } else {
      var seg, rest := HeaderSegment(r, chunk);
      SizedHeader(r.partial, seg);
      SizedFailed(rest);
      SizedJoin(Abs(r), seg, rest);
    }
  }

  /** One chunk: the reader agrees exactly when it is cut safely and announces no
      length that does not fit. */
  lemma {:induction false} ChunkExact(r: Reader, chunk: seq<byte>)
    requires Valid(r) && |chunk| < INT32_LIMIT
    ensures SafeChunk(Abs(r), chunk) && Sized(Abs(r), chunk) <==> Agrees(Drain(r, chunk), FeedAll(Abs(r), chunk))
  {
    if Sized(Abs(r), chunk) {
      DrainExact(r, chunk);
    } else {
      OversizeDisagrees(r, chunk);
    }
  }

  // ---------------------------------------------------------- whole streams

  /** The reader agrees with the reference after every chunk. */
  predicate AgreesThroughout(r: Reader, chunks: seq<seq<byte>>)
    requires Valid(r)
  {
    forall k :: 0 <= k <= |chunks| ==> Agrees(Run(r, chunks[..k]), FeedAll(Abs(r), Flat(chunks[..k])))
  }

  predicate AllShort(chunks: seq<seq<byte>>) {
    forall i :: 0 <= i < |chunks| ==> |chunks[i]| < INT32_LIMIT
  }

  lemma {:induction false} SafeCutPrefix(s: State, chunks: seq<seq<byte>>, k: nat)
    requires SafeCut(s, chunks) && k <= |chunks|
    ensures SafeCut(s, chunks[..k])
    decreases k
  {
    if k > 0 {
      assert chunks[..k][1..] == chunks[1..][..k - 1];
      SafeCutPrefix(FeedAll(s, chunks[0]).state, chunks[1..], k - 1);
    }
  }

  lemma {:induction false} Enough(r: Reader, chunks: seq<seq<byte>>)
    requires Valid(r) && SafeCut(Abs(r), chunks) && Sized(Abs(r), Flat(chunks))
    ensures AgreesThroughout(r, chunks)
  {
    forall k | 0 <= k <= |chunks| ensures Agrees(Run(r, chunks[..k]), FeedAll(Abs(r), Flat(chunks[..k]))) {
      SafeCutPrefix(Abs(r), chunks, k);
      assert chunks == chunks[..k] + chunks[k..];
      FlatAppend(chunks[..k], chunks[k..]);
      SizedPrefix(Abs(r), Flat(chunks[..k]), Flat(chunks[k..]));
      RunExact(r, chunks[..k]);
    }
  }

  lemma RunOneChunk(r: Reader, chunk: seq<byte>)
    requires Valid(r)
    ensures Run(r, [chunk]) == Drain(r, chunk) && Flat([chunk]) == chunk
  {
    assert [chunk][1..] == [] && Flat([chunk]) == chunk + [];
  }

  /** Agreement throughout passes from a run to what follows its first chunk. */
  lemma {:induction false} AgreesAfter(r: Reader, chunks: seq<seq<byte>>, r1: Reader)
    requires Valid(r) && |chunks| > 1 && AgreesThroughout(r, chunks)
    requires Agrees(Drain(r, chunks[0]), FeedAll(Abs(r), chunks[0])) && r1 == Drain(r, chunks[0]).reader && !r1.error
    ensures Valid(r1) && AgreesThroughout(r1, chunks[1..])
  {
    var out := Drain(r, chunks[0]).out;
    forall k | 0 <= k <= |chunks[1..]|
      ensures Agrees(Run(r1, chunks[1..][..k]), FeedAll(Abs(r1), Flat(chunks[1..][..k])))
    {
      var later := chunks[1..][..k];
      if k == 0 {
        assert later == [];
      } else {
        assert chunks[..k + 1] == [chunks[0]] + later;
        AgreesOne(r, chunks[..k + 1], r1, out, later);
      }
    }
  }

  lemma {:induction false} AgreesOne(r: Reader, chunks: seq<seq<byte>>, r1: Reader, out: seq<byte>, later: seq<seq<byte>>)
    requires Valid(r) && Valid(r1) && later != [] && chunks != [] && chunks == [chunks[0]] + later
    requires Drain(r, chunks[0]) == Stopped(r1, out, []) && FeedAll(Abs(r), chunks[0]) == Fed(Abs(r1), out)
    requires Agrees(Run(r, chunks), FeedAll(Abs(r), Flat(chunks)))
    ensures Agrees(Run(r1, later), FeedAll(Abs(r1), Flat(later)))
  {
    assert chunks[1..] == later;
    FeedAppend(Abs(r), chunks[0], Flat(later));
    assert Run(r, chunks) == Prepend(out, Run(r1, later));
    AgreesLater(out, Run(r1, later), FeedAll(Abs(r1), Flat(later)));
  }

  lemma {:induction false} Needed(r: Reader, chunks: seq<seq<byte>>)
    requires Valid(r) && AllShort(chunks) && AgreesThroughout(r, chunks)
    ensures SafeCut(Abs(r), chunks) && Sized(Abs(r), Flat(chunks))
    decreases |chunks|
  {
    if chunks != [] {
      var chunk, rest := chunks[0], Flat(chunks[1..]);
      assert chunks[..1] == [chunk];
      RunOneChunk(r, chunk);
      assert Agrees(Run(r, chunks[..1]), FeedAll(Abs(r), Flat(chunks[..1])));
      ChunkExact(r, chunk);
      if |chunks| == 1 {
        assert chunks == [chunk] && SafeCut(FeedAll(Abs(r), chunk).state, chunks[1..]);
      } else {
        NeededOn(r, chunks);
      }
    }
  }

  lemma {:induction false} NeededOn(r: Reader, chunks: seq<seq<byte>>)
    requires Valid(r) && AllShort(chunks) && AgreesThroughout(r, chunks) && |chunks| > 1
    requires SafeChunk(Abs(r), chunks[0]) && Sized(Abs(r), chunks[0])
    requires Agrees(Drain(r, chunks[0]), FeedAll(Abs(r), chunks[0]))
    ensures SafeCut(Abs(r), chunks) && Sized(Abs(r), Flat(chunks))
    decreases |chunks|, 0
  {
    var chunk, rest := chunks[0], Flat(chunks[1..]);
    var d := Drain(r, chunk);
    NotCrashed(r, chunks);
    if d.reader.error {
      DrainExact(r, chunk);
      SafeCutFailed(chunks[1..]);
      SizedFailed(rest);
    } else {
      AgreesAfter(r, chunks, d.reader);
      Needed(d.reader, chunks[1..]);
      ClosesWell(Abs(r), chunk);
    }
    SizedJoin(Abs(r), chunk, rest);
  }

  lemma NotCrashed(r: Reader, chunks: seq<seq<byte>>)
    requires Valid(r) && |chunks| > 1 && AgreesThroughout(r, chunks) && Drain(r, chunks[0]).Stopped?
    ensures Drain(r, chunks[0]).leftover == []
  {
    var two := chunks[..2];
    assert two[0] == chunks[0] && |two| == 2;
    assert Agrees(Run(r, two), FeedAll(Abs(r), Flat(two)));
  }

  /** Chunking does not matter, for every stream: the reader agrees with the
      reference decoder after every chunk if and only if the stream is cut safely
      and announces no length of 2^31 or more. */
  lemma AlwaysExact(r: Reader, chunks: seq<seq<byte>>)
    requires Valid(r) && AllShort(chunks)
    ensures SafeCut(Abs(r), chunks) && Sized(Abs(r), Flat(chunks)) <==> AgreesThroughout(r, chunks)
  {
    if SafeCut(Abs(r), chunks) && Sized(Abs(r), Flat(chunks)) {
      Enough(r, chunks);
    }
    if AgreesThroughout(r, chunks) {
      Needed(r, chunks);
    }
  }
}
