/** `PacketManager::submit` on its 100-slot ring, as the code has it: packets are
    moved between slots, slots are reused without a check, and nested drains
    write to the ring while outer ones still read from it. */
module PacketRing {
  import opened PacketManager

  const SLOTS := 100

  /** A packet whose data was moved out or discarded; its header is still there. */
  function Hollow(p: Packet): Packet {
    p.(id := 0)
  }

  /** Positions count packets from the first one ever written. */
  datatype Ring = Ring(timestamp: int, expected: int, processed: nat, waitingEnds: int,
                       readPos: nat, writePos: nat, slots: seq<Packet>, delivered: seq<Packet>)

  predicate Wf(s: Ring) {
    |s.slots| == SLOTS && s.readPos <= s.writePos
  }

  /** Slots nothing was written to. */
  function Blank(n: nat): (s: seq<Packet>)
    ensures |s| == n && forall i :: 0 <= i < n ==> s[i] == Packet(0, 0, 0, 0)
  {
    seq(n, _ => Packet(0, 0, 0, 0))
  }

  function EmptyRing(): (r: Ring)
    ensures Wf(r) && Waiting(r) == [] && forall q :: q in r.slots ==> q.id == 0
  {
    Ring(IDLE, -1, 0, 0, 0, 0, Blank(SLOTS), [])
  }

  function SlotOf(j: int): nat {
    j % SLOTS
  }

  /** The packet at position `j`. */
  function At(slots: seq<Packet>, j: nat): Packet
    requires |slots| == SLOTS
  {
    slots[SlotOf(j)]
  }

  /** The packets at the positions from `r` to `w`. */
  function Window(slots: seq<Packet>, r: nat, w: nat): (s: seq<Packet>)
    requires |slots| == SLOTS && r <= w
    ensures |s| == w - r
    ensures forall i :: 0 <= i < w - r ==> s[i] == At(slots, r + i)
  {
    seq(w - r, i requires 0 <= i < w - r => At(slots, r + i))
  }

  function Waiting(s: Ring): seq<Packet>
    requires Wf(s)
  {
    Window(s.slots, s.readPos, s.writePos)
  }

  /** Where a submitted packet comes from: the caller, or a position of the ring. */
  datatype Origin = Caller | Position(index: nat)

  /** The packet is moved to the next slot; moving it onto itself empties it. */
  function Moved(slots: seq<Packet>, p: Packet, from: Origin, to: nat): (r: seq<Packet>)
    requires |slots| == SLOTS
    ensures |r| == SLOTS
  {
    var filled := slots[SlotOf(to) := p];
    if from.Caller? then filled else filled[SlotOf(from.index) := Hollow(p)]
  }

  function Pushed(s: Ring, p: Packet, from: Origin): (r: Ring)
    requires Wf(s)
    ensures Wf(r)
  {
    s.(slots := Moved(s.slots, p, from, s.writePos), writePos := s.writePos + 1,
       waitingEnds := s.waitingEnds + if p.IsEnd() then 1 else 0)
  }

  function Called(s: Ring, p: Packet): Ring {
    s.(expected := if p.IsEnd() then p.packetCount else s.expected,
       processed := s.processed + 1, delivered := s.delivered + [p])
  }

  function Uncount(s: Ring, p: Packet): Ring {
    if p.IsEnd() then s.(waitingEnds := s.waitingEnds - 1) else s
  }

  /** State in which the loop over the window starts. */
  function Turned(s: Ring): (r: Ring)
    requires Wf(s) && s.readPos < s.writePos
    ensures Wf(r)
  {
    s.(processed := 0, expected := -1, timestamp := Earliest(Waiting(s)), readPos := s.writePos)
  }

  function Cleared(s: Ring, i: nat, clear: bool): (r: Ring)
    requires Wf(s)
    ensures Wf(r)
  {
    if clear then s.(slots := s.slots[SlotOf(i) := Hollow(At(s.slots, i))]) else s
  }

  // ------------------------------------------------------------- termination

  function Latest(ps: seq<Packet>): (t: int)
    requires ps != []
    ensures exists p :: p in ps && p.timestamp == t
    ensures forall p :: p in ps ==> p.timestamp <= t
  {
    if |ps| == 1 then ps[0].timestamp
    else
      var t := Latest(ps[1..]);
      assert ps[0] in ps && forall p :: p in ps[1..] ==> p in ps;
      if ps[0].timestamp > t then ps[0].timestamp else t
  }

  function Low(s: Ring, p: Packet): int
    requires Wf(s)
  {
    Earliest(Waiting(s) + [p])
  }

  function High(s: Ring, p: Packet): int
    requires Wf(s)
  {
    Latest(s.slots + [p])
  }

  /** Timestamps in all slots lie between the two, or are as they were. */
  predicate Within(was: seq<Packet>, slots: seq<Packet>, low: int, high: int)
    requires |was| == |slots|
  {
    forall k :: 0 <= k < |slots| ==>
      slots[k].timestamp == was[k].timestamp || low <= slots[k].timestamp <= high
  }

  /** No packet at the positions from `r` to `w` is earlier than `t`. */
  predicate NotBefore(slots: seq<Packet>, r: nat, w: nat, t: int)
    requires |slots| == SLOTS
  {
    forall j :: r <= j < w ==> t <= At(slots, j).timestamp
  }

  /** What a call given `n` packets does to the totals. */
  predicate Advances(s: Ring, n: nat, r: Ring)
    requires Wf(s)
  {
    && Wf(r) && s.readPos <= r.readPos && s.delivered <= r.delivered
    && r.writePos - r.readPos + |r.delivered| == s.writePos - s.readPos + |s.delivered| + n
  }

  /** A call that delivers nothing only moves packets, at a timestamp that does
      not fall back. */
  predicate Quiet(s: Ring, r: Ring, low: int, high: int)
    requires Wf(s) && Wf(r)
  {
    && (r.timestamp == s.timestamp || low <= r.timestamp)
    && Within(s.slots, r.slots, low, high) && NotBefore(r.slots, r.readPos, r.writePos, low)
  }

  /** The measure of a drain: packets in all, and the range of their timestamps. */
  datatype Measure = Measure(bound: nat, low: int, high: int)

  /** As long as nothing was delivered, packets still to be read are not earlier
      than the drain's timestamp and those written again are later. */
  predicate CanReplay(s: Ring, i: nat, stop: nat, m: Measure)
    requires Wf(s)
  {
    && i <= stop <= s.readPos
    && s.writePos - s.readPos + stop - i <= m.bound
    && (s.writePos - s.readPos + stop - i == m.bound ==>
          && m.low <= s.timestamp && m.low <= m.high
          && NotBefore(s.slots, i, stop, m.low) && NotBefore(s.slots, s.readPos, s.writePos, m.low + 1)
          && forall k :: 0 <= k < SLOTS ==> s.slots[k].timestamp <= m.high)
  }

  /** The earliest timestamp in a part of the ring. */
  lemma EarliestAt(slots: seq<Packet>, r: nat, w: nat)
    requires |slots| == SLOTS && r < w
    ensures var t := Earliest(Window(slots, r, w));
            NotBefore(slots, r, w, t) && exists j :: r <= j < w && At(slots, j).timestamp == t
  {
    var ps := Window(slots, r, w);
    forall j | r <= j < w ensures Earliest(ps) <= At(slots, j).timestamp {
      assert ps[j - r] == At(slots, r + (j - r)) && ps[j - r] in ps;
    }
    var i :| 0 <= i < |ps| && ps[i].timestamp == Earliest(ps);
    assert At(slots, r + i).timestamp == Earliest(ps);
  }

  lemma LowBound(s: Ring, p: Packet, t: int)
    requires Wf(s) && NotBefore(s.slots, s.readPos, s.writePos, t) && t <= p.timestamp
    ensures t <= Low(s, p)
  {
    var ps := Waiting(s) + [p];
    var i :| 0 <= i < |ps| && ps[i].timestamp == Earliest(ps);
    assert i < |ps| - 1 ==> ps[i] == At(s.slots, s.readPos + i);
  }

  lemma LowLeast(s: Ring, p: Packet)
    requires Wf(s)
    ensures NotBefore(s.slots, s.readPos, s.writePos, Low(s, p)) && Low(s, p) <= p.timestamp
  {
    var ps := Waiting(s) + [p];
    assert p in ps;
    forall j | s.readPos <= j < s.writePos ensures Low(s, p) <= At(s.slots, j).timestamp {
      assert ps[j - s.readPos] == At(s.slots, s.readPos + (j - s.readPos)) && ps[j - s.readPos] in ps;
    }
  }

  lemma HighBound(s: Ring, p: Packet, t: int)
    requires Wf(s) && p.timestamp <= t && forall k :: 0 <= k < SLOTS ==> s.slots[k].timestamp <= t
    ensures High(s, p) <= t
  {
    var ps := s.slots + [p];
    var q :| q in ps && q.timestamp == Latest(ps);
  }

  lemma HighMost(s: Ring, p: Packet)
    requires Wf(s)
    ensures p.timestamp <= High(s, p) && forall k :: 0 <= k < SLOTS ==> s.slots[k].timestamp <= High(s, p)
  {
    var ps := s.slots + [p];
    assert p in ps;
    forall k | 0 <= k < SLOTS ensures s.slots[k].timestamp <= High(s, p) {
      assert s.slots[k] in ps;
    }
  }

  /** A push stays in the range of the packets there are. */
  lemma PushQuiet(s: Ring, p: Packet, from: Origin)
    requires Wf(s)
    ensures Quiet(s, Pushed(s, p, from), Low(s, p), High(s, p))
  {
    var r := Pushed(s, p, from);
    LowLeast(s, p);
    HighMost(s, p);
    MovedTimes(s.slots, p, from, s.writePos);
    MovedNotBefore(s.slots, p, from, s.readPos, s.writePos, Low(s, p));
  }

  lemma MovedNotBefore(slots: seq<Packet>, p: Packet, from: Origin, r: nat, w: nat, t: int)
    requires |slots| == SLOTS && NotBefore(slots, r, w, t) && t <= p.timestamp
    ensures NotBefore(Moved(slots, p, from, w), r, w + 1, t)
  {
    var after := Moved(slots, p, from, w);
    MovedTimes(slots, p, from, w);
    forall j | r <= j < w + 1 ensures t <= At(after, j).timestamp {
      if j < w {
        assert t <= At(slots, j).timestamp;
      }
    }
  }

  lemma MovedTimes(slots: seq<Packet>, p: Packet, from: Origin, to: nat)
    requires |slots| == SLOTS
    ensures var r := Moved(slots, p, from, to);
            && At(r, to).timestamp == p.timestamp
            && forall k :: 0 <= k < SLOTS ==> r[k].timestamp == slots[k].timestamp || r[k].timestamp == p.timestamp
  {}

  lemma TurnMeasure(s: Ring)
    requires Wf(s) && s.readPos < s.writePos
    ensures CanReplay(Turned(s), s.readPos, s.writePos, MeasureOf(s))
    ensures MeasureOf(s).low <= MeasureOf(s).high
  {
    var m := MeasureOf(s);
    EarliestAt(s.slots, s.readPos, s.writePos);
    forall k | 0 <= k < SLOTS ensures s.slots[k].timestamp <= m.high {
      assert s.slots[k] in s.slots;
    }
    assert At(s.slots, s.readPos).timestamp <= m.high;
  }

  lemma PushMeasure(s: Ring, p: Packet, from: Origin)
    requires Wf(s)
    ensures var m := MeasureOf(Pushed(s, p, from));
            Low(s, p) <= m.low && m.high <= High(s, p)
  {
    var r := Pushed(s, p, from);
    LowLeast(s, p);
    MovedNotBefore(s.slots, p, from, s.readPos, s.writePos, Low(s, p));
    EarliestAt(r.slots, r.readPos, r.writePos);
    HighMost(s, p);
    MovedHigh(s.slots, p, from, s.writePos, High(s, p));
  }

  lemma MovedHigh(slots: seq<Packet>, p: Packet, from: Origin, to: nat, t: int)
    requires |slots| == SLOTS && p.timestamp <= t && forall k :: 0 <= k < SLOTS ==> slots[k].timestamp <= t
    ensures Latest(Moved(slots, p, from, to)) <= t
  {
    var r := Moved(slots, p, from, to);
    MovedTimes(slots, p, from, to);
    var x :| 0 <= x < |r| && r[x].timestamp == Latest(r);
  }

  lemma QuietTrans(s: Ring, s1: Ring, r: Ring, low: int, high: int, low1: int, high1: int)
    requires Wf(s) && Wf(s1) && Wf(r) && Within(s.slots, s1.slots, low, high) && Quiet(s1, r, low1, high1)
    requires low <= low1 && high1 <= high && (s1.timestamp == s.timestamp || low <= s1.timestamp)
    ensures Quiet(s, r, low, high)
  {}

  lemma WithinHigh(was: seq<Packet>, slots: seq<Packet>, low: int, high: int, h: int)
    requires |was| == |slots| && Within(was, slots, low, high) && high <= h
    requires forall k :: 0 <= k < |was| ==> was[k].timestamp <= h
    ensures forall k :: 0 <= k < |slots| ==> slots[k].timestamp <= h
  {}

  /** What holds of a call. */
  predicate Stepped(s: Ring, p: Packet, r: Ring)
    requires Wf(s)
  {
    && Advances(s, 1, r)
    && (|r.delivered| == |s.delivered| ==> s.timestamp < p.timestamp && Quiet(s, r, Low(s, p), High(s, p)))
  }

  /** What holds of the loop from position `i` on. */
  predicate Looped(s: Ring, i: nat, stop: nat, m: Measure, r: Ring)
    requires Wf(s) && i <= stop
  {
    && Advances(s, stop - i, r)
    && (|r.delivered| == |s.delivered| && Untouched(s, i, stop, m) ==> Quiet(s, r, m.low, m.high))
  }

  /** `submit`. It ends on every ring and every packet. */
  function Submitted(s: Ring, p: Packet, from: Origin): (r: Ring)
    requires Wf(s)
    ensures Stepped(s, p, r)
    decreases s.writePos - s.readPos + 1, High(s, p) - Low(s, p), if s.timestamp < p.timestamp then 2 else 0, 0
  {
    if s.timestamp == p.timestamp then
      var s1 := Called(s, p);
      if s1.processed != s1.expected then s1
      else if s1.readPos == s1.writePos then s1.(processed := 0, expected := -1, timestamp := IDLE)
      else Drained(s1, false)
    else if s.timestamp > p.timestamp then
      s.(delivered := s.delivered + [p])
    else if s.timestamp == IDLE then
      Submitted(s.(timestamp := p.timestamp), p, from)
    else
      var s1 := Pushed(s, p, from);
      PushQuiet(s, p, from);
      if s1.waitingEnds <= MAX_WAITING then s1
      else
        PushMeasure(s, p, from);
        var r := Drained(s1, true);
        if |r.delivered| == |s1.delivered| then
          QuietTrans(s, s1, r, Low(s, p), High(s, p), MeasureOf(s1).low, MeasureOf(s1).high); r
        else r
  }

  function MeasureOf(s: Ring): Measure
    requires Wf(s) && s.readPos < s.writePos
  {
    Measure(s.writePos - s.readPos, Earliest(Waiting(s)), Latest(s.slots))
  }

  /** The window is submitted again. */
  function Drained(s: Ring, clear: bool): (r: Ring)
    requires Wf(s) && s.readPos < s.writePos
    ensures Advances(s, 0, r)
    ensures |r.delivered| == |s.delivered| ==>
              MeasureOf(s).low <= r.timestamp && Quiet(s, r, MeasureOf(s).low, MeasureOf(s).high)
    decreases s.writePos - s.readPos, MeasureOf(s).high - MeasureOf(s).low, 1, s.writePos - s.readPos + 1
  {
    TurnMeasure(s);
    Replayed(Turned(s), s.readPos, s.writePos, clear, MeasureOf(s))
  }

  /** The drain loop from position `i` on; `clear` tells whether it empties the
      slots it is done with. */
  function Replayed(s: Ring, i: nat, stop: nat, clear: bool, ghost m: Measure): (r: Ring)
    requires Wf(s) && CanReplay(s, i, stop, m)
    ensures Looped(s, i, stop, m, r)
    decreases m.bound, m.high - m.low, 1, stop - i
  {
    if i == stop then s else
      var p := At(s.slots, i);
      NextMeasure(s, i, stop, m);
      var s1 := Submitted(Uncount(s, p), p, Position(i));
      NextReplay(s, i, stop, clear, m, s1);
      var r := Replayed(Cleared(s1, i, clear), i + 1, stop, clear, m);
      NextQuiet(s, i, stop, clear, m, s1, r);
      r
  }

  /** The drain has delivered nothing. */
  predicate Untouched(s: Ring, i: nat, stop: nat, m: Measure) {
    s.writePos - s.readPos + stop - i == m.bound
  }

  lemma NextMeasure(s: Ring, i: nat, stop: nat, m: Measure)
    requires Wf(s) && CanReplay(s, i, stop, m) && i < stop
    ensures s.writePos - s.readPos + 1 <= m.bound
    ensures var p := At(s.slots, i);
            var s0 := Uncount(s, p);
            Untouched(s, i, stop, m) ==>
              && m.low <= m.high && m.low <= Low(s0, p) && High(s0, p) <= m.high
              && (s.timestamp < p.timestamp ==> m.low < Low(s0, p))
  {
    if Untouched(s, i, stop, m) {
      var p := At(s.slots, i);
      MeasureBounds(Uncount(s, p), p, m.low, m.high);
    }
  }

  lemma MeasureBounds(s: Ring, p: Packet, low: int, high: int)
    requires Wf(s) && NotBefore(s.slots, s.readPos, s.writePos, low + 1) && low <= p.timestamp <= high
    requires forall k :: 0 <= k < SLOTS ==> s.slots[k].timestamp <= high
    ensures low <= Low(s, p) && High(s, p) <= high && (low < p.timestamp ==> low < Low(s, p))
  {
    HighBound(s, p, high);
    if low < p.timestamp {
      LowBound(s, p, low + 1);
    } else {
      NotBeforeLater(s.slots, s.readPos, s.writePos, low + 1, low);
      LowBound(s, p, low);
    }
  }

  /** The slots have the same timestamps. */
  predicate SameTimes(a: seq<Packet>, b: seq<Packet>) {
    |a| == |b| && forall k :: 0 <= k < |a| ==> a[k].timestamp == b[k].timestamp
  }

  lemma ClearTimes(s: Ring, i: nat, clear: bool)
    requires Wf(s)
    ensures SameTimes(Cleared(s, i, clear).slots, s.slots)
  {}

  lemma SameNotBefore(a: seq<Packet>, b: seq<Packet>, r: nat, w: nat, t: int)
    requires |b| == SLOTS && SameTimes(a, b) && NotBefore(b, r, w, t)
    ensures NotBefore(a, r, w, t)
  {
    forall j | r <= j < w ensures t <= At(a, j).timestamp {
      assert t <= At(b, j).timestamp;
    }
  }

  lemma NotBeforeLater(slots: seq<Packet>, r: nat, w: nat, t: int, t1: int)
    requires |slots| == SLOTS && NotBefore(slots, r, w, t) && t1 <= t
    ensures NotBefore(slots, r, w, t1)
  {
    forall j | r <= j < w ensures t1 <= At(slots, j).timestamp {
      assert t <= At(slots, j).timestamp;
    }
  }

  lemma WithinNotBefore(was: seq<Packet>, slots: seq<Packet>, low: int, high: int, r: nat, w: nat, t: int)
    requires |was| == |slots| == SLOTS && Within(was, slots, low, high) && t <= low && NotBefore(was, r, w, t)
    ensures NotBefore(slots, r + 1, w, t)
  {
    forall j | r + 1 <= j < w ensures t <= At(slots, j).timestamp {
      assert t <= At(was, j).timestamp;
    }
  }

  lemma NextReplay(s: Ring, i: nat, stop: nat, clear: bool, m: Measure, s1: Ring)
    requires Wf(s) && CanReplay(s, i, stop, m) && i < stop
    requires Stepped(Uncount(s, At(s.slots, i)), At(s.slots, i), s1)
    ensures CanReplay(Cleared(s1, i, clear), i + 1, stop, m)
  {
    var p, r := At(s.slots, i), Cleared(s1, i, clear);
    var s0 := Uncount(s, p);
    if Untouched(r, i + 1, stop, m) {
      NextMeasure(s, i, stop, m);
      ClearTimes(s1, i, clear);
      WithinHigh(s.slots, s1.slots, Low(s0, p), High(s0, p), m.high);
      WithinNotBefore(s.slots, s1.slots, Low(s0, p), High(s0, p), i, stop, m.low);
      SameNotBefore(r.slots, s1.slots, i + 1, stop, m.low);
      NotBeforeLater(s1.slots, s1.readPos, s1.writePos, Low(s0, p), m.low + 1);
      SameNotBefore(r.slots, s1.slots, s1.readPos, s1.writePos, m.low + 1);
    }
  }

  lemma NextQuiet(s: Ring, i: nat, stop: nat, clear: bool, m: Measure, s1: Ring, r: Ring)
    requires Wf(s) && CanReplay(s, i, stop, m) && i < stop
    requires Stepped(Uncount(s, At(s.slots, i)), At(s.slots, i), s1)
    requires Looped(Cleared(s1, i, clear), i + 1, stop, m, r)
    ensures Looped(s, i, stop, m, r)
  {
    if |r.delivered| == |s.delivered| && Untouched(s, i, stop, m) {
      NextMeasure(s, i, stop, m);
      ClearTimes(s1, i, clear);
      WithinTrans(s.slots, s1.slots, r.slots, Low(Uncount(s, At(s.slots, i)), At(s.slots, i)), High(Uncount(s, At(s.slots, i)), At(s.slots, i)),
                  m.low, m.high, Cleared(s1, i, clear).slots);
    }
  }

  lemma WithinTrans(a: seq<Packet>, b: seq<Packet>, c: seq<Packet>, low: int, high: int, low1: int, high1: int, b1: seq<Packet>)
    requires |a| == |b| == |c| && Within(a, b, low, high) && SameTimes(b1, b) && Within(b1, c, low1, high1)
    requires low1 <= low && high <= high1
    ensures Within(a, c, low1, high1)
  {}

  /** The loop from position `i` on ends in `r`. */
  predicate Replays(s: Ring, i: nat, stop: nat, clear: bool, m: Measure, r: Ring) {
    Wf(s) && CanReplay(s, i, stop, m) && Replayed(s, i, stop, clear, m) == r
  }

  /** One turn of the loop. */
  function Turn(s: Ring, i: nat, clear: bool): (r: Ring)
    requires Wf(s)
    ensures Wf(r)
  {
    Cleared(Submitted(Uncount(s, At(s.slots, i)), At(s.slots, i), Position(i)), i, clear)
  }

  lemma ReplaysOn(s: Ring, i: nat, stop: nat, clear: bool, m: Measure, r: Ring)
    requires Replays(s, i, stop, clear, m, r) && i < stop
    ensures Replays(Turn(s, i, clear), i + 1, stop, clear, m, r)
  {
    NextReplay(s, i, stop, clear, m, Submitted(Uncount(s, At(s.slots, i)), At(s.slots, i), Position(i)));
  }

  /** Some predicates about whole loops are stated under a quantifier over `Unfolded`,
      so that their definitions come into view only where `Unfolded` is mentioned. */
  predicate Unfolded(u: int) {
    true
  }
}
