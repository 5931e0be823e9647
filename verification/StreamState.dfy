/** The fields of a stream's state and `submit` on them, in place. */
module StreamState {
  import opened PacketManager
  import opened PacketRing

  class StreamState {
    const buffer: array<Packet>
    var timestamp: int
    var expected: int
    var processed: nat
    var readPos: nat
    var writePos: nat
    var waitingEnds: int
    ghost var delivered: seq<Packet>

    ghost predicate Valid()
      reads this
    {
      buffer.Length == SLOTS && readPos <= writePos
    }

    ghost function Value(): (r: Ring)
      requires Valid()
      reads this, buffer
      ensures Wf(r)
    {
      Ring(timestamp, expected, processed, waitingEnds, readPos, writePos, buffer[..], delivered)
    }

    constructor ()
      ensures Valid() && Value() == EmptyRing() && fresh(buffer)
    {
      buffer := new Packet[SLOTS](_ => Packet(0, 0, 0, 0));
      timestamp, expected, processed := IDLE, -1, 0;
      readPos, writePos, waitingEnds := 0, 0, 0;
      delivered := [];
    }

    method Submit(p: Packet, from: Origin)
      requires Valid()
      modifies this, buffer
      ensures Valid() && Value() == Submitted(old(Value()), p, from)
      decreases writePos - readPos + 1, High(Value(), p) - Low(Value(), p), if timestamp < p.timestamp then 2 else 0, 0
    {
      if timestamp == p.timestamp {
        if p.IsEnd() { expected := p.packetCount; }
        delivered := delivered + [p];
        processed := processed + 1;
        if processed == expected {
          if writePos > readPos {
            Drain(false);
          } else {
            processed, expected, timestamp := 0, -1, IDLE;
          }
        }
      } else if timestamp > p.timestamp {
        delivered := delivered + [p];
      } else if timestamp == IDLE {
        timestamp := p.timestamp;
        Submit(p, from);
      } else {
        PushMeasure(Value(), p, from);
        Push(p, from);
        if waitingEnds > MAX_WAITING {
          Drain(true);
        }
      }
    }

    /** Moves the packet to the next slot. */
    method Push(p: Packet, from: Origin)
      requires Valid()
      modifies this, buffer
      ensures Valid() && Value() == Pushed(old(Value()), p, from)
    {
      buffer[writePos % SLOTS] := p;
      if from.Position? { buffer[from.index % SLOTS] := Hollow(p); }
      assert buffer[..] == Moved(old(buffer[..]), p, from, writePos);
      writePos := writePos + 1;
      if p.IsEnd() { waitingEnds := waitingEnds + 1; }
    }

    /** Earliest timestamp in the window. */
    method Scan() returns (t: int)
      requires Valid() && readPos < writePos
      ensures t == Earliest(Waiting(Value()))
    {
      ghost var w := Waiting(Value());
      ghost var best := 0;
      t := buffer[readPos % SLOTS].timestamp;
      assert w[0] == At(buffer[..], readPos);
      for i := readPos + 1 to writePos
        invariant 0 <= best < i - readPos && w[best].timestamp == t
        invariant forall k :: 0 <= k < i - readPos ==> t <= w[k].timestamp
      {
        assert w[i - readPos] == At(buffer[..], readPos + (i - readPos));
        if buffer[i % SLOTS].timestamp < t {
          t := buffer[i % SLOTS].timestamp;
          best := i - readPos;
        }
      }
    }

    method Drain(clear: bool)
      requires Valid() && readPos < writePos
      modifies this, buffer
      ensures Valid() && Value() == Drained(old(Value()), clear)
      decreases writePos - readPos, MeasureOf(Value()).high - MeasureOf(Value()).low, 1, writePos - readPos + 1
    {
      ghost var was := Value();
      TurnMeasure(was);
      var start, stop := readPos, writePos;
      Turn();
      ReplayAll(start, stop, clear, MeasureOf(was), Drained(was, clear));
    }

    method Turn()
      requires Valid() && readPos < writePos
      modifies this
      ensures Valid() && Value() == Turned(old(Value()))
    {
      var t := Scan();
      processed, expected, timestamp := 0, -1, t;
      readPos := writePos;
    }

    method ReplayAll(start: nat, stop: nat, clear: bool, ghost m: Measure, ghost r: Ring)
      requires Valid() && start <= stop && Replays(Value(), start, stop, clear, m, r)
      modifies this, buffer
      ensures Valid() && Value() == r
      decreases m.bound, m.high - m.low, 1, stop - start
    {
      for i := start to stop
        invariant Valid() && Replays(Value(), i, stop, clear, m, r)
      {
        Replay(i, stop, clear, m, r);
      }
    }

    /** One turn of the loop. */
    method Replay(i: nat, stop: nat, clear: bool, ghost m: Measure, ghost r: Ring)
      requires Valid() && i < stop && Replays(Value(), i, stop, clear, m, r)
      modifies this, buffer
      ensures Valid() && Replays(Value(), i + 1, stop, clear, m, r)
      decreases m.bound, m.high - m.low, 1, 0
    {
      ghost var was := Value();
      var p := buffer[i % SLOTS];
      assert p == At(was.slots, i);
      NextMeasure(was, i, stop, m);
      if p.IsEnd() { waitingEnds := waitingEnds - 1; }
      assert Value() == Uncount(was, p);
      Submit(p, Position(i));
      NextReplay(was, i, stop, clear, m, Value());
      if clear { buffer[i % SLOTS] := Hollow(buffer[i % SLOTS]); }
    }
  }
}
