/** `PacketManager::submit`: packets of one frame are delivered at once when
    they belong to the current timestamp and wait in a window otherwise. A frame
    that completes, or a fifth waiting end-of-frame packet, drains the window by
    submitting it again, and such a drain may start further ones. */
module PacketManager {
  const END_FRAME := 2048
  const IDLE := -1
  /** Waiting end-of-frame packets beyond which an incomplete frame is given up. */
  const MAX_WAITING := 4

  datatype Packet = Packet(timestamp: int, channel: int, packetCount: nat, id: nat) {
    predicate IsEnd() {
      channel == END_FRAME
    }
  }

  /** `window` is the unread part of the ring, `writePos` the number of packets
      ever written to it, `delivered` the packets given to the callback. */
  datatype State = State(timestamp: int, expected: int, processed: nat, waitingEnds: int,
                         writePos: nat, window: seq<Packet>, delivered: seq<Packet>)

  const INITIAL := State(IDLE, -1, 0, 0, 0, [], [])

  function Ends(ps: seq<Packet>): nat {
    if ps == [] then 0 else (if ps[0].IsEnd() then 1 else 0) + Ends(ps[1..])
  }

  function Earliest(ps: seq<Packet>): (t: int)
    requires ps != []
    ensures exists p :: p in ps && p.timestamp == t
    ensures forall p :: p in ps ==> t <= p.timestamp
  {
    if |ps| == 1 then ps[0].timestamp
    else
      var t := Earliest(ps[1..]);
      assert ps[0] in ps && forall p :: p in ps[1..] ==> p in ps;
      if ps[0].timestamp < t then ps[0].timestamp else t
  }

  /** Some packet of the window will be delivered as soon as it is submitted. */
  predicate Due(s: State, ps: seq<Packet>) {
    exists p :: p in ps && p.timestamp <= s.timestamp
  }

  /** What holds of a call that was given `ps`: no packet is counted twice, the
      callback log grows, and unless it grew nothing else happened. */
  predicate Progress(s: State, ps: seq<Packet>, r: State) {
    && |r.delivered| + |r.window| == |s.delivered| + |s.window| + |ps|
    && s.delivered <= r.delivered
    && s.writePos <= r.writePos && s.writePos - |s.window| <= r.writePos - |r.window|
    && (|r.delivered| == |s.delivered| ==> r.timestamp == s.timestamp && r.window == s.window + ps)
  }

  /** State in which the window is about to be submitted again. */
  function Reopened(s: State): State
    requires s.window != []
  {
    s.(processed := 0, expected := -1, timestamp := Earliest(s.window), window := [])
  }

  function Delivered(s: State, p: Packet): State {
    s.(expected := if p.IsEnd() then p.packetCount else s.expected,
       processed := s.processed + 1, delivered := s.delivered + [p])
  }

  function Buffered(s: State, p: Packet): State {
    s.(writePos := s.writePos + 1, window := s.window + [p],
       waitingEnds := s.waitingEnds + if p.IsEnd() then 1 else 0)
  }

  function Uncounted(s: State, p: Packet): State {
    if p.IsEnd() then s.(waitingEnds := s.waitingEnds - 1) else s
  }

  function Submit(s: State, p: Packet): (r: State)
    ensures Progress(s, [p], r)
    ensures p.timestamp <= s.timestamp ==> |r.delivered| > |s.delivered|
    decreases |s.window| + 1, if s.timestamp < p.timestamp then 2 else 0, 0
  {
    if s.timestamp == p.timestamp then
      var s1 := Delivered(s, p);
      if s1.processed != s1.expected then s1
      else if s1.window == [] then s1.(processed := 0, expected := -1, timestamp := IDLE)
      else Drain(Reopened(s1), s1.window, |s1.window|)
    else if s.timestamp > p.timestamp then
      s.(delivered := s.delivered + [p])
    else if s.timestamp == IDLE then
      Submit(s.(timestamp := p.timestamp), p)
    else
      var s1 := Buffered(s, p);
      if s1.waitingEnds <= MAX_WAITING then s1
      else Drain(Reopened(s1), s1.window, |s1.window|)
  }

  /** A drain within `bound` packets in all delivers one of them, or has. */
  predicate CanDrain(s: State, ps: seq<Packet>, bound: nat) {
    && |s.window| + |ps| <= bound
    && (|s.window| + |ps| == bound && ps != [] ==> Due(s, ps))
  }

  /** The drain loop over the packets `ps` taken from the window. */
  function Drain(s: State, ps: seq<Packet>, ghost bound: nat): (r: State)
    requires CanDrain(s, ps, bound)
    ensures Progress(s, ps, r)
    ensures Due(s, ps) ==> |r.delivered| > |s.delivered|
    decreases bound, 1, |ps|
  {
    if ps == [] then s else
      var s2 := Submit(Uncounted(s, ps[0]), ps[0]);
      DrainsOn(s, ps, s2, bound);
      Drain(s2, ps[1..], bound)
  }

  lemma DrainsOn(s: State, ps: seq<Packet>, s2: State, bound: nat)
    requires CanDrain(s, ps, bound) && ps != []
    requires Progress(Uncounted(s, ps[0]), [ps[0]], s2)
    requires ps[0].timestamp <= s.timestamp ==> |s2.delivered| > |s.delivered|
    ensures CanDrain(s2, ps[1..], bound)
    ensures ps == [ps[0]] + ps[1..]
    ensures |s2.delivered| == |s.delivered| && Due(s, ps) ==> Due(s2, ps[1..])
  {}

  // ------------------------------------------------------------ conservation

  function Held(s: State): multiset<Packet> {
    multiset(s.delivered) + multiset(s.window)
  }

  lemma {:induction false} SubmitConserves(s: State, p: Packet)
    ensures Held(Submit(s, p)) == Held(s) + multiset{p}
    decreases |s.window| + 1, if s.timestamp < p.timestamp then 2 else 0, 0
  {
    if s.timestamp == p.timestamp {
      var s1 := Delivered(s, p);
      assert Held(s1) == Held(s) + multiset{p};
      if s1.processed == s1.expected && s1.window != [] {
        ReopenConserves(s1);
      }
    } else if s.timestamp < p.timestamp {
      if s.timestamp == IDLE {
        SubmitConserves(s.(timestamp := p.timestamp), p);
      } else {
        var s1 := Buffered(s, p);
        assert Held(s1) == Held(s) + multiset{p};
        if s1.waitingEnds > MAX_WAITING {
          ReopenConserves(s1);
        }
      }
    }
  }

  lemma ReopenConserves(s: State)
    requires s.window != []
    ensures Held(Drain(Reopened(s), s.window, |s.window|)) == Held(s)
    decreases |s.window|, 1, |s.window| + 1
  {
    DrainConserves(Reopened(s), s.window, |s.window|);
  }

  lemma {:induction false} DrainConserves(s: State, ps: seq<Packet>, bound: nat)
    requires CanDrain(s, ps, bound)
    ensures Held(Drain(s, ps, bound)) == Held(s) + multiset(ps)
    decreases bound, 1, |ps|
  {
    if ps != [] {
      var s1 := Uncounted(s, ps[0]);
      var s2 := Submit(s1, ps[0]);
      DrainsOn(s, ps, s2, bound);
      SubmitConserves(s1, ps[0]);
      DrainConserves(s2, ps[1..], bound);
    }
  }

  // ------------------------------------------- the end-of-frame counter, idling

  lemma {:induction false} EndsAppend(a: seq<Packet>, b: seq<Packet>)
    ensures Ends(a + b) == Ends(a) + Ends(b)
  {
    if a == [] {
      assert a + b == b;
    } else {
      assert (a + b)[1..] == a[1..] + b;
      EndsAppend(a[1..], b);
    }
  }

  /** End-of-frame packets counted but not in the window: they are in windows
      that outer drains have yet to get through. */
  function OuterEnds(s: State): int {
    s.waitingEnds - Ends(s.window)
  }

  /** An idle manager has nothing waiting. */
  predicate Sound(s: State) {
    && s.timestamp >= IDLE
    && (s.timestamp == IDLE ==> s.window == [])
    && forall p :: p in s.window ==> p.timestamp > IDLE
  }

  /** What a call that was given packets, `ends` of them end-of-frame, does to
      the counter. */
  predicate Counted(s: State, ends: nat, r: State) {
    && Sound(r) && OuterEnds(r) == OuterEnds(s) - ends
    && (s.waitingEnds <= MAX_WAITING ==> r.waitingEnds <= MAX_WAITING)
  }

  lemma {:induction false} SubmitCounts(s: State, p: Packet)
    requires Sound(s)
    ensures Counted(s, 0, Submit(s, p))
    ensures s.waitingEnds <= MAX_WAITING + 1 && !p.IsEnd() ==> Submit(s, p).waitingEnds <= MAX_WAITING + 1
    decreases |s.window| + 1, if s.timestamp < p.timestamp then 2 else 0, 0
  {
    if s.timestamp == p.timestamp {
      var s1 := Delivered(s, p);
      if s1.processed == s1.expected && s1.window != [] {
        ReopenCounts(s1);
      }
    } else if s.timestamp < p.timestamp {
      if s.timestamp == IDLE {
        SubmitCounts(s.(timestamp := p.timestamp), p);
      } else {
        var s1 := Buffered(s, p);
        EndsAppend(s.window, [p]);
        assert Sound(s1);
        if s1.waitingEnds > MAX_WAITING {
          ReopenCounts(s1);
        }
      }
    }
  }

  lemma ReopenCounts(s: State)
    requires s.window != [] && Sound(s)
    ensures var r := Drain(Reopened(s), s.window, |s.window|);
            && Counted(s, 0, r)
            && (s.waitingEnds <= MAX_WAITING + 1 ==> r.waitingEnds <= MAX_WAITING + 1)
            && (s.waitingEnds <= MAX_WAITING + 1 && Ends(s.window) > 0 ==> r.waitingEnds <= MAX_WAITING)
    decreases |s.window|, 1, |s.window| + 1
  {
    DrainCounts(Reopened(s), s.window, |s.window|);
  }

  lemma {:induction false} DrainCounts(s: State, ps: seq<Packet>, bound: nat)
    requires CanDrain(s, ps, bound) && Sound(s)
    ensures var r := Drain(s, ps, bound);
            && Counted(s, Ends(ps), r)
            && (s.waitingEnds <= MAX_WAITING + 1 ==> r.waitingEnds <= MAX_WAITING + 1)
            && (s.waitingEnds <= MAX_WAITING + 1 && Ends(ps) > 0 ==> r.waitingEnds <= MAX_WAITING)
    decreases bound, 1, |ps|
  {
    if ps != [] {
      var s1 := Uncounted(s, ps[0]);
      var s2 := Submit(s1, ps[0]);
      DrainsOn(s, ps, s2, bound);
      SubmitCounts(s1, ps[0]);
      DrainCounts(s2, ps[1..], bound);
    }
  }

  // ------------------------------------------------------------- whole runs

  function SubmitAll(s: State, ps: seq<Packet>): State {
    if ps == [] then s else Submit(SubmitAll(s, ps[..|ps| - 1]), ps[|ps| - 1])
  }

  /** After any packets in any order: each one has been delivered once or is
      waiting, at most four end-of-frame packets wait, the counter is right, and
      nothing waits once the manager is idle. */
  lemma {:induction false} EveryRun(ps: seq<Packet>)
    ensures var r := SubmitAll(INITIAL, ps);
            && multiset(r.delivered) + multiset(r.window) == multiset(ps)
            && r.waitingEnds == Ends(r.window) <= MAX_WAITING
            && (r.timestamp == IDLE ==> r.window == [])
            && Sound(r)
  {
    if ps != [] {
      var init, last := ps[..|ps| - 1], ps[|ps| - 1];
      assert ps == init + [last];
      EveryRun(init);
      SubmitConserves(SubmitAll(INITIAL, init), last);
      SubmitCounts(SubmitAll(INITIAL, init), last);
    }
  }
}
