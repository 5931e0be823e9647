/** What `PacketManager` is for: packets of overlapping frames are delivered frame by
    frame in the order of their timestamps, each as soon as it may be. The reference is
    a reordering of the packets that came in, with no state. */
module PacketOrder {
  import opened PacketManager
  import opened PacketRing
  import opened RingRuns
  import RingLoss
  import opened RingBound

  // --------------------------------------------------------------- reference

  /** The packets of one timestamp, and those of later ones, as they came in. */
  function Of(ps: seq<Packet>, t: int): seq<Packet> {
    if ps == [] then []
    else
      var last := ps[|ps| - 1];
      Of(ps[..|ps| - 1], t) + if last.timestamp == t then [last] else []
  }

  function Later(ps: seq<Packet>, t: int): seq<Packet> {
    if ps == [] then []
    else
      var last := ps[|ps| - 1];
      Later(ps[..|ps| - 1], t) + if last.timestamp > t then [last] else []
  }

  /** The number of packets last announced for a frame, or -1. */
  function Announced(frame: seq<Packet>): int {
    if frame == [] then -1
    else
      var last := frame[|frame| - 1];
      if last.channel == 2048 then last.packetCount else Announced(frame[..|frame| - 1])
  }

  /** All packets of the timestamp have come in. */
  predicate Complete(ps: seq<Packet>, t: int) {
    Announced(Of(ps, t)) == |Of(ps, t)|
  }

  lemma {:induction false} LaterMembers(ps: seq<Packet>, t: int)
    ensures forall p :: p in Later(ps, t) <==> p in ps && p.timestamp > t
    ensures |Later(ps, t)| <= |ps|
    ensures (exists p :: p in ps && p.timestamp <= t) ==> |Later(ps, t)| < |ps|
  {
    if ps != [] {
      var init, last := ps[..|ps| - 1], ps[|ps| - 1];
      assert ps == init + [last];
      LaterMembers(init, t);
    }
  }

  /** What follows the first frame is shorter. */
  lemma {:induction false} LaterShorter(ps: seq<Packet>)
    requires ps != []
    ensures |Later(ps, Earliest(ps))| < |ps|
  {
    LaterMembers(ps, Earliest(ps));
  }

  /** Frame after frame, each as its packets came in. */
  function ByTime(ps: seq<Packet>): seq<Packet>
    decreases |ps|
  {
    if ps == [] then []
    else
      var t := Earliest(ps);
      LaterShorter(ps);
      Of(ps, t) + ByTime(Later(ps, t))
  }

  /** The part of it that can go out: up to the first frame that is not complete. */
  function Out(ps: seq<Packet>): seq<Packet>
    decreases |ps|
  {
    if ps == [] then []
    else
      var t := Earliest(ps);
      LaterShorter(ps);
      Of(ps, t) + if Complete(ps, t) then Out(Later(ps, t)) else []
  }

  /** What has to wait, as it came in. */
  function Kept(ps: seq<Packet>): seq<Packet>
    decreases |ps|
  {
    if ps == [] then []
    else
      var t := Earliest(ps);
      LaterShorter(ps);
      if Complete(ps, t) then Kept(Later(ps, t)) else Later(ps, t)
  }

  /** The timestamp of the first frame that is not complete. */
  function OpenTime(ps: seq<Packet>): int
    decreases |ps|
  {
    if ps == [] then IDLE
    else
      var t := Earliest(ps);
      LaterShorter(ps);
      if Complete(ps, t) then OpenTime(Later(ps, t)) else t
  }

  // ---------------------------------------------- what is asked of the packets

  /** Every packet is of a frame that has begun, or of a later one than all that have:
      frames begin in order, and may overlap in any way. */
  predicate BeginInOrder(ps: seq<Packet>) {
    ps == [] || (BeginInOrder(ps[..|ps| - 1]) && Follows(ps[..|ps| - 1], ps[|ps| - 1]))
  }

  predicate Follows(ps: seq<Packet>, p: Packet) {
    && p.timestamp > IDLE
    && ((exists q :: q in ps && q.timestamp == p.timestamp) || (forall q :: q in ps ==> q.timestamp < p.timestamp))
  }

  /** No end-of-frame packet announces fewer packets than there are. */
  predicate CountsTrue(ps: seq<Packet>) {
    forall p :: p in ps && p.IsEnd() ==> p.packetCount >= |Of(ps, p.timestamp)|
  }

  // ------------------------------------------------------------- first frames

  lemma {:induction false} OfMembers(ps: seq<Packet>, t: int)
    ensures forall p :: p in Of(ps, t) <==> p in ps && p.timestamp == t
  {
    if ps != [] {
      assert ps == ps[..|ps| - 1] + [ps[|ps| - 1]];
      OfMembers(ps[..|ps| - 1], t);
    }
  }

  lemma {:induction false} Snoc(ps: seq<Packet>, p: Packet)
    ensures (ps + [p])[..|ps + [p]| - 1] == ps && (ps + [p])[|ps + [p]| - 1] == p
  {}

  lemma {:induction false} OneMore(ps: seq<Packet>, p: Packet, t: int)
    ensures Of(ps + [p], t) == Of(ps, t) + if p.timestamp == t then [p] else []
    ensures Later(ps + [p], t) == Later(ps, t) + if p.timestamp > t then [p] else []
  {
    Snoc(ps, p);
  }

  lemma {:induction false} OneEnd(ps: seq<Packet>, p: Packet)
    ensures Announced(ps + [p]) == if p.IsEnd() then p.packetCount else Announced(ps)
  {
    Snoc(ps, p);
  }

  lemma {:induction false} OfLater(ps: seq<Packet>, t: int, u: int)
    requires u > t
    ensures Of(Later(ps, t), u) == Of(ps, u)
  {
    if ps != [] {
      var init, last := ps[..|ps| - 1], ps[|ps| - 1];
      OfLater(init, t, u);
      if last.timestamp > t {
        OneMore(Later(init, t), last, u);
      } else {
        assert Later(ps, t) == Later(init, t) && Of(ps, u) == Of(init, u);
      }
    }
  }

  /** The earliest timestamp changes only if the new packet is earlier. */
  lemma {:induction false} EarliestMore(ps: seq<Packet>, p: Packet)
    requires ps != []
    ensures Earliest(ps + [p]) == if p.timestamp < Earliest(ps) then p.timestamp else Earliest(ps)
  {
    var t, u := Earliest(ps), Earliest(ps + [p]);
    var q :| q in ps && q.timestamp == t;
    assert q in ps + [p] && p in ps + [p];
    var x :| x in ps + [p] && x.timestamp == u;
    assert x in ps || x == p;
  }

  lemma {:induction false} LaterFollows(ps: seq<Packet>, p: Packet, t: int)
    requires Follows(ps, p) && p.timestamp > t
    ensures Follows(Later(ps, t), p)
  {
    LaterMembers(ps, t);
    if q :| q in ps && q.timestamp == p.timestamp {
      assert q in Later(ps, t);
    }
  }

  lemma {:induction false} LaterKeepsOrder(ps: seq<Packet>, t: int)
    requires BeginInOrder(ps)
    ensures BeginInOrder(Later(ps, t))
  {
    if ps != [] {
      var init, last := ps[..|ps| - 1], ps[|ps| - 1];
      LaterKeepsOrder(init, t);
      if last.timestamp > t {
        LaterFollows(init, last, t);
        Snoc(Later(init, t), last);
      } else {
        assert Later(ps, t) == Later(init, t);
      }
    }
  }

  lemma {:induction false} LaterKeepsCounts(ps: seq<Packet>, t: int)
    requires CountsTrue(ps)
    ensures CountsTrue(Later(ps, t))
  {
    LaterMembers(ps, t);
    forall p | p in Later(ps, t) && p.IsEnd() ensures p.packetCount >= |Of(Later(ps, t), p.timestamp)| {
      OfLater(ps, t, p.timestamp);
    }
  }

  /** The first packet is of the earliest frame. */
  lemma {:induction false} FirstEarliest(ps: seq<Packet>)
    requires BeginInOrder(ps) && ps != []
    ensures Earliest(ps) == ps[0].timestamp > IDLE
  {
    var init, last := ps[..|ps| - 1], ps[|ps| - 1];
    assert ps == init + [last];
    if init != [] {
      FirstEarliest(init);
      EarliestMore(init, last);
      if q :| q in init && q.timestamp == last.timestamp {
        assert Earliest(init) <= q.timestamp;
      }
    }
  }

  lemma {:induction false} AnnouncedBy(frame: seq<Packet>)
    requires Announced(frame) != -1
    ensures exists p :: p in frame && p.IsEnd() && p.packetCount == Announced(frame)
  {
    var init, last := frame[..|frame| - 1], frame[|frame| - 1];
    assert last in frame;
    if !last.IsEnd() {
      AnnouncedBy(init);
      var p :| p in init && p.IsEnd() && p.packetCount == Announced(init);
      assert p in frame;
    }
  }

  /** No packet of a complete frame comes in. */
  lemma {:induction false} CompleteClosed(ps: seq<Packet>, p: Packet)
    requires CountsTrue(ps + [p])
    ensures !Complete(ps, p.timestamp)
  {
    var t := p.timestamp;
    if Announced(Of(ps, t)) != -1 {
      AnnouncedBy(Of(ps, t));
      var q :| q in Of(ps, t) && q.IsEnd() && q.packetCount == Announced(Of(ps, t));
      OfMembers(ps, t);
      OneMore(ps, p, t);
      assert q in ps + [p];
    }
  }

  lemma {:induction false} FewerCounts(ps: seq<Packet>, p: Packet)
    requires CountsTrue(ps + [p])
    ensures CountsTrue(ps)
  {
    forall q | q in ps && q.IsEnd() ensures q.packetCount >= |Of(ps, q.timestamp)| {
      assert q in ps + [p];
      OneMore(ps, p, q.timestamp);
    }
  }

  // ------------------------------------------------------------- on track

  /** The state is the one the reference calls for: `base` went out before, and `extra`
      ends of frame are in windows that outer drains have yet to get through. */
  predicate OnTrack(s: State, base: seq<Packet>, ps: seq<Packet>, extra: int) {
    && s.delivered == base + Out(ps) && s.window == Kept(ps) && s.timestamp == OpenTime(ps)
    && s.processed == (if s.timestamp == IDLE then 0 else |Of(ps, s.timestamp)|)
    && s.expected == (if s.timestamp == IDLE then -1 else Announced(Of(ps, s.timestamp)))
    && s.waitingEnds == Ends(s.window) + extra
  }

  lemma {:induction false} OpenTimeIn(ps: seq<Packet>)
    requires BeginInOrder(ps)
    ensures ps == [] || OpenTime(ps) == IDLE || Earliest(ps) <= OpenTime(ps)
    ensures OpenTime(ps) >= IDLE
    decreases |ps|
  {
    if ps != [] {
      var t := Earliest(ps);
      LaterShorter(ps);
      FirstEarliest(ps);
      LaterKeepsOrder(ps, t);
      OpenTimeIn(Later(ps, t));
      if Later(ps, t) != [] {
        LaterMembers(ps, t);
      }
    }
  }

  /** A complete first frame may be counted to what went out before. */
  lemma {:induction false} Shed(s: State, base: seq<Packet>, ps: seq<Packet>, extra: int)
    requires BeginInOrder(ps) && ps != [] && Complete(ps, Earliest(ps))
    ensures OnTrack(s, base, ps, extra)
       <==> OnTrack(s, base + Of(ps, Earliest(ps)), Later(ps, Earliest(ps)), extra)
  {
    var t := Earliest(ps);
    LaterShorter(ps);
    LaterKeepsOrder(ps, t);
    FirstEarliest(ps);
    OpenTimeIn(Later(ps, t));
    LaterMembers(ps, t);
    if OpenTime(ps) != IDLE {
      assert Later(ps, t) != [];
      OfLater(ps, t, OpenTime(ps));
    }
    assert base + (Of(ps, t) + Out(Later(ps, t))) == base + Of(ps, t) + Out(Later(ps, t));
  }

  /** The packets that may come next. */
  predicate Next(ps: seq<Packet>, p: Packet) {
    BeginInOrder(ps + [p]) && CountsTrue(ps + [p])
  }

  lemma {:induction false} NextParts(ps: seq<Packet>, p: Packet)
    requires Next(ps, p)
    ensures BeginInOrder(ps) && CountsTrue(ps) && Follows(ps, p)
    ensures ps != [] ==> Earliest(ps + [p]) == Earliest(ps) <= p.timestamp
    ensures !Complete(ps, p.timestamp)
  {
    Snoc(ps, p);
    FewerCounts(ps, p);
    CompleteClosed(ps, p);
    if ps != [] {
      EarliestMore(ps, p);
      if q :| q in ps && q.timestamp == p.timestamp {
        assert Earliest(ps) <= q.timestamp;
      }
    }
  }

  lemma {:induction false} EndsSnoc(ps: seq<Packet>, p: Packet)
    ensures Ends(ps + [p]) == Ends(ps) + if p.IsEnd() then 1 else 0
  {
    EndsAppend(ps, [p]);
  }

  /** The reference while the first frame is open. */
  lemma {:induction false} WhileOpen(ps: seq<Packet>)
    requires ps != [] && !Complete(ps, Earliest(ps))
    ensures var t := Earliest(ps);
            Out(ps) == Of(ps, t) && Kept(ps) == Later(ps, t) && OpenTime(ps) == t
  {
    assert Of(ps, Earliest(ps)) + [] == Of(ps, Earliest(ps));
  }

  /** And for one packet. */
  lemma {:induction false} ForOne(p: Packet)
    ensures Of([p], p.timestamp) == [p] && Announced([p]) == (if p.IsEnd() then p.packetCount else -1)
    ensures Out([p]) == [p] && Kept([p]) == []
    ensures OpenTime([p]) == if p.IsEnd() && p.packetCount == 1 then IDLE else p.timestamp
  {
    assert [p] == [] + [p];
    OneMore([], p, p.timestamp);
    OneEnd([], p);
    LaterShorter([p]);
    assert Later([p], p.timestamp) == [];
    assert Out([]) == [] && [p] + [] == [p];
  }

  /** With nothing begun, a packet opens its frame, whether or not its timestamp is set. */
  lemma {:induction false} OpensFirst(s: State, base: seq<Packet>, p: Packet, extra: int)
    requires OnTrack(s, base, [], extra) && p.timestamp > IDLE
    ensures OnTrack(Submit(s, p), base, [p], extra)
    ensures Submit(s.(timestamp := p.timestamp), p) == Submit(s, p)
  {
    ForOne(p);
    assert base + [] == base;
    var s1 := Delivered(s.(timestamp := p.timestamp), p);
    assert s1.delivered == base + [p] && s1.processed == 1 && s1.window == [];
    assert Submit(s, p) == if s1.processed != s1.expected then s1 else s1.(processed := 0, expected := -1, timestamp := IDLE);
  }

  /** A state with the first frame open, part by part. */
  predicate Opened(s: State, base: seq<Packet>, ps: seq<Packet>, t: int, extra: int) {
    && s.delivered == base + Of(ps, t) && s.window == Later(ps, t) && s.timestamp == t > IDLE
    && s.processed == |Of(ps, t)| && s.expected == Announced(Of(ps, t)) && s.waitingEnds == Ends(s.window) + extra
  }

  lemma {:induction false} OpenedIff(s: State, base: seq<Packet>, ps: seq<Packet>, extra: int)
    requires BeginInOrder(ps) && ps != [] && !Complete(ps, Earliest(ps))
    ensures OnTrack(s, base, ps, extra) <==> Opened(s, base, ps, Earliest(ps), extra)
  {
    FirstEarliest(ps);
    WhileOpen(ps);
  }

  /** A packet of a later frame than the open one waits. */
  lemma {:induction false} OpenedWaits(s: State, base: seq<Packet>, ps: seq<Packet>, p: Packet, t: int, extra: int)
    requires Opened(s, base, ps, t, extra) && p.timestamp > t && s.waitingEnds + (if p.IsEnd() then 1 else 0) <= 4
    ensures Opened(Submit(s, p), base, ps + [p], t, extra)
  {
    OneMore(ps, p, t);
    EndsSnoc(s.window, p);
    assert Of(ps + [p], t) == Of(ps, t);
    assert Submit(s, p) == Buffered(s, p);
  }

  /** A packet of the open frame goes out. */
  lemma {:induction false} OpenedJoins(s: State, base: seq<Packet>, ps: seq<Packet>, p: Packet, t: int, extra: int)
    requires Opened(s, base, ps, t, extra) && p.timestamp == t
    ensures Opened(Delivered(s, p), base, ps + [p], t, extra)
  {
    OneMore(ps, p, t);
    OneEnd(Of(ps, t), p);
    assert base + Of(ps, t) + [p] == base + (Of(ps, t) + [p]);
    assert Later(ps + [p], t) == Later(ps, t);
  }

  lemma {:induction false} Waits(s: State, base: seq<Packet>, ps: seq<Packet>, p: Packet, extra: int)
    requires OnTrack(s, base, ps, extra) && Next(ps, p) && ps != [] && !Complete(ps, Earliest(ps))
    requires p.timestamp > Earliest(ps) && s.waitingEnds + (if p.IsEnd() then 1 else 0) <= 4
    ensures OnTrack(Submit(s, p), base, ps + [p], extra)
  {
    var t := Earliest(ps);
    NextParts(ps, p);
    OpenedIff(s, base, ps, extra);
    OpenedWaits(s, base, ps, p, t, extra);
    OneMore(ps, p, t);
    assert Of(ps + [p], t) == Of(ps, t);
    OpenedIff(Submit(s, p), base, ps + [p], extra);
  }

  /** A packet of the open frame that does not complete it. */
  lemma {:induction false} Joins(s: State, base: seq<Packet>, ps: seq<Packet>, p: Packet, extra: int)
    requires OnTrack(s, base, ps, extra) && Next(ps, p) && ps != [] && !Complete(ps, Earliest(ps))
    requires p.timestamp == Earliest(ps) && !Complete(ps + [p], p.timestamp)
    ensures OnTrack(Submit(s, p), base, ps + [p], extra)
  {
    NextParts(ps, p);
    OpenedIff(s, base, ps, extra);
    OpenedJoins(s, base, ps, p, p.timestamp, extra);
    assert Submit(s, p) == Delivered(s, p);
    OpenedIff(Submit(s, p), base, ps + [p], extra);
  }

  /** Every packet is dealt with as the reference says. */
  lemma {:induction false} SubmitOnTrack(s: State, base: seq<Packet>, ps: seq<Packet>, p: Packet, extra: int)
    requires OnTrack(s, base, ps, extra) && Next(ps, p)
    requires s.waitingEnds + (if p.IsEnd() then 1 else 0) <= 4
    ensures OnTrack(Submit(s, p), base, ps + [p], extra)
    decreases |s.window| + 1, if s.timestamp < p.timestamp then 2 else 0, |ps|
  {
    NextParts(ps, p);
    if ps == [] {
      OpensFirst(s, base, p, extra);
      assert [] + [p] == [p];
    } else {
      var t := Earliest(ps);
      if Complete(ps, t) {
        ShedNext(ps, p);
        Shed(s, base, ps, extra);
        SubmitOnTrack(s, base + Of(ps, t), Later(ps, t), p, extra);
        Shed(Submit(s, p), base, ps + [p], extra);
      } else if p.timestamp > t {
        Waits(s, base, ps, p, extra);
      } else if Complete(ps + [p], t) {
        CompletesOnTrack(s, base, ps, p, extra);
      } else {
        Joins(s, base, ps, p, extra);
      }
    }
  }

  lemma {:induction false} ShedNext(ps: seq<Packet>, p: Packet)
    requires Next(ps, p) && ps != [] && Complete(ps, Earliest(ps))
    ensures var t := Earliest(ps);
            && p.timestamp > t && Next(Later(ps, t), p) && |Later(ps, t)| < |ps|
            && Earliest(ps + [p]) == t && Complete(ps + [p], t)
            && Of(ps + [p], t) == Of(ps, t) && Later(ps + [p], t) == Later(ps, t) + [p]
  {
    var t := Earliest(ps);
    NextParts(ps, p);
    assert p.timestamp != t;
    OneMore(ps, p, t);
    assert Of(ps + [p], t) == Of(ps, t) && Later(ps + [p], t) == Later(ps, t) + [p];
    LaterShorter(ps);
    LaterKeepsOrder(ps + [p], t);
    LaterKeepsCounts(ps + [p], t);
  }

  lemma {:induction false} CompletesOnTrack(s: State, base: seq<Packet>, ps: seq<Packet>, p: Packet, extra: int)
    requires OnTrack(s, base, ps, extra) && Next(ps, p) && s.waitingEnds <= 4
    requires ps != [] && !Complete(ps, Earliest(ps)) && p.timestamp == Earliest(ps) && Complete(ps + [p], p.timestamp)
    ensures OnTrack(Submit(s, p), base, ps + [p], extra)
    decreases |s.window| + 1, 0, 0
  {
    var t, s1, q := Earliest(ps), Delivered(s, p), ps + [p];
    NextParts(ps, p);
    OpenedIff(s, base, ps, extra);
    OpenedJoins(s, base, ps, p, t, extra);
    if s1.window == [] {
      CompletesAlone(s, base, ps, p, extra);
    } else {
      LaterKeepsOrder(q, t);
      LaterKeepsCounts(q, t);
      DrainOnTrack(s1, base + Of(q, t), extra);
      Shed(Submit(s, p), base, q, extra);
    }
  }

  /** The frame is completed and nothing waits. */
  lemma {:induction false} CompletesAlone(s: State, base: seq<Packet>, ps: seq<Packet>, p: Packet, extra: int)
    requires OnTrack(s, base, ps, extra) && Next(ps, p) && ps != [] && Later(ps, Earliest(ps)) == []
    requires !Complete(ps, Earliest(ps)) && p.timestamp == Earliest(ps) && Complete(ps + [p], p.timestamp)
    ensures OnTrack(Submit(s, p), base, ps + [p], extra)
  {
    var t, s1, q := Earliest(ps), Delivered(s, p), ps + [p];
    NextParts(ps, p);
    OpenedIff(s, base, ps, extra);
    OpenedJoins(s, base, ps, p, t, extra);
    AllOut(s1, base + Of(q, t), extra);
    Shed(Submit(s, p), base, q, extra);
  }

  lemma {:induction false} AllOut(s: State, base: seq<Packet>, extra: int)
    requires s.delivered == base && s.window == [] && s.waitingEnds == extra
    ensures OnTrack(s.(processed := 0, expected := -1, timestamp := IDLE), base, [], extra)
  {
    assert base + [] == base;
  }

  /** Draining a window is dealing with its packets as they came in. */
  lemma {:induction false} DrainOnTrack(s: State, base: seq<Packet>, extra: int)
    requires s.window != [] && s.delivered == base && s.waitingEnds == Ends(s.window) + extra && s.waitingEnds <= 4
    requires BeginInOrder(s.window) && CountsTrue(s.window)
    ensures OnTrack(Drain(Reopened(s), s.window, |s.window|), base, s.window, extra)
    decreases |s.window|, 1, |s.window| + 1
  {
    var w, s0 := s.window, Reopened(s);
    var s1 := Submit(Uncounted(s0, w[0]), w[0]);
    FirstOnTrack(s, base, extra);
    DrainsOn(s0, w, s1, |w|);
    ReplayOnTrack(s1, base, [w[0]], w[1..], extra, |w|);
  }

  lemma {:induction false} FirstOnTrack(s: State, base: seq<Packet>, extra: int)
    requires s.window != [] && s.delivered == base && s.waitingEnds == Ends(s.window) + extra
    requires BeginInOrder(s.window)
    ensures var w, s0 := s.window, Reopened(s);
            var s1 := Submit(Uncounted(s0, w[0]), w[0]);
            && OnTrack(s1, base, [w[0]], extra + Ends(w[1..])) && s1.waitingEnds == extra + Ends(w[1..])
            && w == [w[0]] + w[1..]
  {
    var w, s0 := s.window, Reopened(s);
    FirstEarliest(w);
    assert w == [w[0]] + w[1..];
    var u := Uncounted(s0, w[0]);
    AllOut(u, base, extra + Ends(w[1..]));
    OpensFirst(u.(timestamp := IDLE), base, w[0], extra + Ends(w[1..]));
    ForOne(w[0]);
  }

  lemma {:induction false} ReplayOnTrack(s: State, base: seq<Packet>, done: seq<Packet>, rest: seq<Packet>, extra: int, bound: nat)
    requires CanDrain(s, rest, bound) && OnTrack(s, base, done, extra + Ends(rest)) && s.waitingEnds <= 4
    requires BeginInOrder(done + rest) && CountsTrue(done + rest)
    ensures OnTrack(Drain(s, rest, bound), base, done + rest, extra)
    decreases bound, 1, |rest|
  {
    if rest == [] {
      assert done + rest == done;
    } else {
      var p, more := rest[0], rest[1..];
      var s1 := Uncounted(s, p);
      NextOf(done, rest);
      UncountedOnTrack(s, base, done, rest, extra);
      SubmitOnTrack(s1, base, done, p, extra + Ends(more));
      KeptFew(done, p);
      DrainsOn(s, rest, Submit(s1, p), bound);
      ReplayOnTrack(Submit(s1, p), base, done + [p], more, extra, bound);
    }
  }

  lemma {:induction false} LaterEnds(ps: seq<Packet>, t: int)
    ensures Ends(Later(ps, t)) <= Ends(ps)
  {
    if ps != [] {
      var init, last := ps[..|ps| - 1], ps[|ps| - 1];
      assert ps == init + [last];
      LaterEnds(init, t);
      EndsSnoc(init, last);
      EndsSnoc(Later(init, t), last);
      assert Later(init, t) + [] == Later(init, t);
    }
  }

  lemma {:induction false} KeptEnds(ps: seq<Packet>)
    ensures Ends(Kept(ps)) <= Ends(ps)
    decreases |ps|
  {
    if ps != [] {
      LaterShorter(ps);
      LaterEnds(ps, Earliest(ps));
      KeptEnds(Later(ps, Earliest(ps)));
    }
  }

  /** A packet adds itself, at most, to those that wait. */
  lemma {:induction false} KeptFew(ps: seq<Packet>, p: Packet)
    requires Next(ps, p)
    ensures Ends(Kept(ps + [p])) <= Ends(Kept(ps)) + if p.IsEnd() then 1 else 0
    decreases |ps|
  {
    NextParts(ps, p);
    if ps == [] {
      ForOne(p);
      assert [] + [p] == [p];
    } else {
      var t := Earliest(ps);
      if Complete(ps, t) {
        ShedNext(ps, p);
        KeptFew(Later(ps, t), p);
      } else {
        KeptFewOpen(ps, p);
      }
    }
  }

  lemma {:induction false} KeptFewOpen(ps: seq<Packet>, p: Packet)
    requires Next(ps, p) && ps != [] && !Complete(ps, Earliest(ps))
    ensures Ends(Kept(ps + [p])) <= Ends(Kept(ps)) + if p.IsEnd() then 1 else 0
  {
    var t, q := Earliest(ps), ps + [p];
    NextParts(ps, p);
    WhileOpen(ps);
    OneMore(ps, p, t);
    if p.timestamp > t {
      assert Later(q, t) == Later(ps, t) + [p];
      EndsSnoc(Later(ps, t), p);
    } else {
      assert Later(q, t) == Later(ps, t);
    }
    if Complete(q, t) {
      LaterShorter(q);
      KeptEnds(Later(q, t));
    } else {
      WhileOpen(q);
    }
  }

  lemma {:induction false} UncountedOnTrack(s: State, base: seq<Packet>, done: seq<Packet>, rest: seq<Packet>, extra: int)
    requires rest != [] && OnTrack(s, base, done, extra + Ends(rest)) && s.waitingEnds <= 4
    ensures var s1 := Uncounted(s, rest[0]);
            && OnTrack(s1, base, done, extra + Ends(rest[1..]))
            && s1.waitingEnds + (if rest[0].IsEnd() then 1 else 0) <= 4
  {}

  lemma {:induction false} NextOf(done: seq<Packet>, rest: seq<Packet>)
    requires rest != [] && BeginInOrder(done + rest) && CountsTrue(done + rest)
    ensures Next(done, rest[0]) && done + rest == done + [rest[0]] + rest[1..]
  {
    assert done + rest == done + [rest[0]] + rest[1..];
    Prefix(done + [rest[0]], rest[1..]);
  }

  /** What is asked of the packets is asked of the first ones. */
  lemma {:induction false} Prefix(ps: seq<Packet>, more: seq<Packet>)
    requires BeginInOrder(ps + more) && CountsTrue(ps + more)
    ensures BeginInOrder(ps) && CountsTrue(ps)
    decreases |more|
  {
    if more == [] {
      assert ps + more == ps;
    } else {
      var n := |more| - 1;
      assert ps + more == (ps + more[..n]) + [more[n]];
      Snoc(ps + more[..n], more[n]);
      FewerCounts(ps + more[..n], more[n]);
      Prefix(ps, more[..n]);
    }
  }

  // -------------------------------------------------------------- whole runs

  /** At no time do more than four ends of frame have to wait. */
  predicate FewWait(ps: seq<Packet>) {
    ps == [] || (FewWait(ps[..|ps| - 1]) && Ends(Kept(ps[..|ps| - 1])) + Ends([ps[|ps| - 1]]) <= 4)
  }

  lemma {:induction false} LastNext(ps: seq<Packet>)
    requires ps != [] && BeginInOrder(ps) && CountsTrue(ps)
    ensures Next(ps[..|ps| - 1], ps[|ps| - 1]) && CountsTrue(ps[..|ps| - 1])
  {
    assert ps == ps[..|ps| - 1] + [ps[|ps| - 1]];
    FewerCounts(ps[..|ps| - 1], ps[|ps| - 1]);
  }

  /** Frames that begin in order and overlap in any way: after every packet, exactly
      the packets up to the first incomplete frame have been delivered, frame by frame
      in the order of timestamps, and the others wait. */
  lemma {:induction false} InTimeOrder(ps: seq<Packet>)
    requires BeginInOrder(ps) && CountsTrue(ps) && FewWait(ps)
    ensures var s := SubmitAll(INITIAL, ps);
            s.delivered == Out(ps) && s.window == Kept(ps) && s.timestamp == OpenTime(ps)
    ensures OnTrack(SubmitAll(INITIAL, ps), [], ps, 0)
  {
    if ps != [] {
      var init, last := ps[..|ps| - 1], ps[|ps| - 1];
      assert ps == init + [last];
      LastNext(ps);
      InTimeOrder(init);
      assert Ends([last]) == if last.IsEnd() then 1 else 0;
      SubmitOnTrack(SubmitAll(INITIAL, init), [], init, last, 0);
    }
    assert [] + Out(ps) == Out(ps);
  }

  // ---------------------------------------------------------- the order meant

  predicate Ascending(ps: seq<Packet>) {
    forall i, j :: 0 <= i < j < |ps| ==> ps[i].timestamp <= ps[j].timestamp
  }

  lemma {:induction false} Parts(ps: seq<Packet>, t: int)
    requires forall p :: p in ps ==> t <= p.timestamp
    ensures multiset(ps) == multiset(Of(ps, t)) + multiset(Later(ps, t))
  {
    if ps != [] {
      var init, last := ps[..|ps| - 1], ps[|ps| - 1];
      assert ps == init + [last];
      Parts(init, t);
    }
  }

  lemma {:induction false} OfAppend(a: seq<Packet>, b: seq<Packet>, t: int)
    ensures Of(a + b, t) == Of(a, t) + Of(b, t)
  {
    if b == [] {
      assert a + b == a;
    } else {
      var n := |b| - 1;
      assert a + b == (a + b[..n]) + [b[n]] && b == b[..n] + [b[n]];
      OneMore(a + b[..n], b[n], t);
      OneMore(b[..n], b[n], t);
      OfAppend(a, b[..n], t);
    }
  }

  lemma {:induction false} OfOf(ps: seq<Packet>, t: int, u: int)
    ensures Of(Of(ps, t), u) == if t == u then Of(ps, t) else []
  {
    if ps != [] {
      var init, last := ps[..|ps| - 1], ps[|ps| - 1];
      OfOf(init, t, u);
      if last.timestamp == t {
        OneMore(Of(init, t), last, u);
      } else {
        assert Of(ps, t) == Of(init, t);
      }
    }
  }

  lemma {:induction false} FirstIn(ps: seq<Packet>)
    ensures ps == [] || ps[0] in ps
  {}

  lemma {:induction false} OfBefore(ps: seq<Packet>, t: int)
    requires forall p :: p in ps ==> t < p.timestamp
    ensures Of(ps, t) == []
  {
    OfMembers(ps, t);
    FirstIn(Of(ps, t));
  }

  /** The reference is what a stable sort by timestamp gives. */
  lemma {:induction false} ByTimeSorts(ps: seq<Packet>)
    ensures Ascending(ByTime(ps)) && multiset(ByTime(ps)) == multiset(ps)
    ensures forall t :: Of(ByTime(ps), t) == Of(ps, t)
    decreases |ps|
  {
    if ps != [] {
      var t := Earliest(ps);
      var frame, rest := Of(ps, t), Later(ps, t);
      LaterShorter(ps);
      ByTimeSorts(rest);
      Parts(ps, t);
      FramesAscend(ps);
      forall u ensures Of(ByTime(ps), u) == Of(ps, u) {
        OfAppend(frame, ByTime(rest), u);
        OfOf(ps, t, u);
        OfRest(ps, u);
      }
    }
  }

  lemma {:induction false} OfRest(ps: seq<Packet>, u: int)
    requires ps != []
    ensures var t := Earliest(ps);
            Of(ps, u) == if u == t then Of(ps, t) else Of(Later(ps, t), u)
    ensures Of(Later(ps, Earliest(ps)), Earliest(ps)) == []
  {
    var t := Earliest(ps);
    LaterMembers(ps, t);
    OfBefore(Later(ps, t), t);
    if u > t {
      OfLater(ps, t, u);
    } else if u < t {
      OfBefore(ps, u);
      OfBefore(Later(ps, t), u);
    }
  }

  lemma {:induction false} FramesAscend(ps: seq<Packet>)
    requires ps != [] && Ascending(ByTime(Later(ps, Earliest(ps))))
    requires multiset(ByTime(Later(ps, Earliest(ps)))) == multiset(Later(ps, Earliest(ps)))
    ensures Ascending(ByTime(ps))
  {
    var t := Earliest(ps);
    var frame, rest := Of(ps, t), ByTime(Later(ps, t));
    LaterShorter(ps);
    OfMembers(ps, t);
    LaterMembers(ps, t);
    forall i | 0 <= i < |frame| ensures frame[i].timestamp == t {
      assert frame[i] in frame;
    }
    forall i | 0 <= i < |rest| ensures rest[i].timestamp > t {
      assert rest[i] in multiset(rest);
    }
  }

  /** What went out is the first part of that order. */
  lemma {:induction false} OutFirst(ps: seq<Packet>)
    ensures Out(ps) + ByTime(Kept(ps)) == ByTime(ps)
    decreases |ps|
  {
    if ps != [] {
      var t := Earliest(ps);
      LaterShorter(ps);
      OutFirst(Later(ps, t));
    }
  }

  /** All frames are complete. */
  predicate AllComplete(ps: seq<Packet>) {
    forall p :: p in ps ==> Complete(ps, p.timestamp)
  }

  lemma {:induction false} NothingKept(ps: seq<Packet>)
    requires AllComplete(ps)
    ensures Kept(ps) == [] && OpenTime(ps) == IDLE
    decreases |ps|
  {
    if ps != [] {
      var t := Earliest(ps);
      LaterShorter(ps);
      LaterMembers(ps, t);
      forall p | p in Later(ps, t) ensures Complete(Later(ps, t), p.timestamp) {
        OfLater(ps, t, p.timestamp);
      }
      NothingKept(Later(ps, t));
    }
  }

  /** Two lists with the same frames. */
  predicate SameFrames(a: seq<Packet>, b: seq<Packet>) {
    forall p :: p in a + b ==> Of(a, p.timestamp) == Of(b, p.timestamp)
  }

  lemma {:induction false} LastOfFrame(a: seq<Packet>)
    requires a != []
    ensures var x := a[|a| - 1];
            var frame := Of(a, x.timestamp);
            frame == Of(a[..|a| - 1], x.timestamp) + [x] && x in frame && x in a
  {}

  lemma {:induction false} LastShared(a: seq<Packet>, b: seq<Packet>)
    requires a != [] && SameFrames(a, b)
    ensures a[|a| - 1] in b
  {
    LastOfFrame(a);
    OfMembers(b, a[|a| - 1].timestamp);
  }

  lemma {:induction false} SameLast(a: seq<Packet>, b: seq<Packet>)
    requires a != [] && b != [] && Ascending(a) && Ascending(b) && SameFrames(a, b)
    ensures a[|a| - 1] == b[|b| - 1]
  {
    var x, y := a[|a| - 1], b[|b| - 1];
    LastShared(a, b);
    LastShared(b, a);
    assert x.timestamp == y.timestamp;
    LastOfFrame(a);
    LastOfFrame(b);
    var f := Of(a, x.timestamp);
    assert f[|f| - 1] == x && f[|f| - 1] == y;
  }

  lemma {:induction false} FrontOf(a: seq<Packet>, x: Packet, t: int)
    ensures var frame := Of(a + [x], t);
            if x.timestamp == t then frame != [] && Of(a, t) == frame[..|frame| - 1] else Of(a, t) == frame
  {
    OneMore(a, x, t);
  }

  lemma {:induction false} SameFront(a: seq<Packet>, b: seq<Packet>)
    requires a != [] && b != [] && a[|a| - 1] == b[|b| - 1] && SameFrames(a, b)
    ensures SameFrames(a[..|a| - 1], b[..|b| - 1])
  {
    var x, a1, b1 := a[|a| - 1], a[..|a| - 1], b[..|b| - 1];
    forall p: Packet | p in a1 + b1 ensures Of(a1, p.timestamp) == Of(b1, p.timestamp) {
      var t := p.timestamp;
      assert p in a + b;
      assert a == a1 + [x] && b == b1 + [x];
      FrontOf(a1, x, t);
      FrontOf(b1, x, t);
    }
  }

  lemma {:induction false} AscendingFront(a: seq<Packet>)
    requires Ascending(a) && a != []
    ensures Ascending(a[..|a| - 1])
  {}

  lemma {:induction false} AscendingSame(a: seq<Packet>, b: seq<Packet>)
    requires Ascending(a) && Ascending(b) && SameFrames(a, b)
    ensures a == b
    decreases |a|
  {
    if a != [] {
      LastShared(a, b);
    }
    if b != [] {
      LastShared(b, a);
      SameLast(a, b);
      SameFront(a, b);
      AscendingFront(a);
      AscendingFront(b);
      AscendingSame(a[..|a| - 1], b[..|b| - 1]);
      assert a == a[..|a| - 1] + [a[|a| - 1]] && b == b[..|b| - 1] + [b[|b| - 1]];
    }
  }

  /** Whole frames, however they overlap, are all delivered, sorted by timestamp. If
      they do not overlap, packets are delivered as they come. */
  lemma {:induction false} WholeFrames(ps: seq<Packet>)
    requires BeginInOrder(ps) && CountsTrue(ps) && FewWait(ps) && AllComplete(ps)
    ensures var s := SubmitAll(INITIAL, ps);
            && s.delivered == ByTime(ps) && s.window == [] && s.timestamp == IDLE
            && (Ascending(ps) ==> s.delivered == ps)
  {
    InTimeOrder(ps);
    NothingKept(ps);
    OutFirst(ps);
    assert Out(ps) + [] == Out(ps);
    if Ascending(ps) {
      ByTimeSorts(ps);
      AscendingSame(ByTime(ps), ps);
    }
  }

  // ------------------------------------------------------------ single calls

  /** When the last packet of the open frame comes in and nothing waits, a packet of
      any timestamp is delivered by its own call. */
  lemma {:induction false} NextAtOnce(s: State, p: Packet, q: Packet)
    requires s.window == [] && p.timestamp == s.timestamp && q.timestamp > IDLE
    requires s.processed + 1 == if p.channel == 2048 then p.packetCount else s.expected
    ensures Submit(Submit(s, p), q).delivered == s.delivered + [p, q]
  {
    var s1 := Submit(s, p);
    assert s1.timestamp == IDLE && s1.window == [] && s1.delivered == s.delivered + [p];
    assert s.delivered + [p] + [q] == s.delivered + [p, q];
  }

  /** A packet older than the open frame is delivered at once and makes no difference to
      what becomes of later ones. */
  lemma {:induction false} StaleAtOnce(s: State, p: Packet, q: Packet)
    requires p.timestamp < s.timestamp
    ensures Submit(s, p).delivered == s.delivered + [p]
    ensures Submit(Submit(s, p), q) == Submit(s.(delivered := s.delivered + [p]), q)
  {}

  // --------------------------------------------------------------- giving up

  /** Up to the first end of frame there are packets of one frame only. */
  predicate EndsFirst(ps: seq<Packet>) {
    forall i :: 0 <= i < |ps| && ps[i].timestamp != ps[0].timestamp ==> EndBefore(ps, i)
  }

  predicate EndBefore(ps: seq<Packet>, i: nat)
    requires i <= |ps|
  {
    exists j :: 0 <= j < i && ps[j].IsEnd()
  }

  /** Packets of one frame, none of them its end. */
  predicate Lead(ps: seq<Packet>, t: int) {
    ps != [] && forall i :: 0 <= i < |ps| ==> ps[i].timestamp == t && !ps[i].IsEnd()
  }

  lemma {:induction false} LeadOpen(ps: seq<Packet>, t: int)
    requires Lead(ps, t)
    ensures Of(ps, t) == ps && Later(ps, t) == [] && Announced(ps) == -1 && Earliest(ps) == t && !Complete(ps, t)
  {
    var u := Earliest(ps);
    var q :| q in ps && q.timestamp == u;
    LeadParts(ps, t);
  }

  lemma {:induction false} LeadParts(ps: seq<Packet>, t: int)
    requires forall i :: 0 <= i < |ps| ==> ps[i].timestamp == t && !ps[i].IsEnd()
    ensures Of(ps, t) == ps && Later(ps, t) == [] && Announced(ps) == -1
  {
    if ps != [] {
      LeadParts(ps[..|ps| - 1], t);
      assert ps == ps[..|ps| - 1] + [ps[|ps| - 1]];
    }
  }

  /** One more packet of the first frame goes out, however many ends of frame wait. */
  lemma {:induction false} LeadStep(s: State, base: seq<Packet>, done: seq<Packet>, p: Packet, t: int, extra: int)
    requires Lead(done, t) && OnTrack(s, base, done, extra) && Next(done, p) && p.timestamp == t
    ensures OnTrack(Submit(s, p), base, done + [p], extra)
  {
    LeadOpen(done, t);
    NextParts(done, p);
    if Complete(done + [p], t) {
      CompletesAlone(s, base, done, p, extra);
    } else {
      Joins(s, base, done, p, extra);
    }
  }

  /** Nothing of a single frame waits. */
  lemma {:induction false} LeadKept(done: seq<Packet>, p: Packet, t: int)
    requires done != [] && Earliest(done) == t && Later(done, t) == [] && Next(done, p) && p.timestamp == t
    ensures Kept(done + [p]) == []
  {
    NextParts(done, p);
    OneMore(done, p, t);
    LaterShorter(done + [p]);
    assert Later(done + [p], t) == [];
  }

  lemma {:induction false} LeadMore(done: seq<Packet>, p: Packet, t: int)
    requires Lead(done, t) && p.timestamp == t && !p.IsEnd()
    ensures Lead(done + [p], t)
  {}

  /** A turn of the drain within the first frame. */
  lemma {:induction false} LeadNext(s: State, base: seq<Packet>, done: seq<Packet>, rest: seq<Packet>, t: int, bound: nat)
    requires Lead(done, t) && CanDrain(s, rest, bound) && OnTrack(s, base, done, Ends(rest))
    requires BeginInOrder(done + rest) && CountsTrue(done + rest)
    requires rest != [] && rest[0].timestamp == t && !rest[0].IsEnd()
    ensures var p, more := rest[0], rest[1..];
            && Lead(done + [p], t) && done + rest == done + [p] + more && Ends(rest) == Ends(more)
            && OnTrack(Submit(s, p), base, done + [p], Ends(more)) && CanDrain(Submit(s, p), more, bound)
            && Drain(s, rest, bound) == Drain(Submit(s, p), more, bound)
  {
    NextOf(done, rest);
    LeadMore(done, rest[0], t);
    assert Ends(rest) == Ends(rest[1..]);
    LeadStep(s, base, done, rest[0], t, Ends(rest[1..]));
    DrainTurn(s, rest, bound);
  }

  lemma {:induction false} DrainTurn(s: State, rest: seq<Packet>, bound: nat)
    requires CanDrain(s, rest, bound) && rest != []
    ensures var s1 := Submit(Uncounted(s, rest[0]), rest[0]);
            CanDrain(s1, rest[1..], bound) && Drain(s, rest, bound) == Drain(s1, rest[1..], bound)
  {
    DrainsOn(s, rest, Submit(Uncounted(s, rest[0]), rest[0]), bound);
  }

  lemma {:induction false} LeadOnTrack(s: State, base: seq<Packet>, done: seq<Packet>, rest: seq<Packet>, t: int, bound: nat)
    requires Lead(done, t) && CanDrain(s, rest, bound) && OnTrack(s, base, done, Ends(rest)) && Ends(rest) == 5
    requires BeginInOrder(done + rest) && CountsTrue(done + rest) && EndsFirst(done + rest)
    ensures OnTrack(Drain(s, rest, bound), base, done + rest, 0)
    decreases |rest|
  {
    LeadGoesOn(done, rest, t);
    if rest[0].IsEnd() {
      LeadEnds(s, base, done, rest, t, bound);
    } else {
      LeadNext(s, base, done, rest, t, bound);
      LeadOnTrack(Submit(s, rest[0]), base, done + [rest[0]], rest[1..], t, bound);
    }
  }

  lemma {:induction false} LeadGoesOn(done: seq<Packet>, rest: seq<Packet>, t: int)
    requires Lead(done, t) && rest != [] && EndsFirst(done + rest)
    ensures rest[0].timestamp == t
  {
    assert !EndBefore(done + rest, |done|);
    assert (done + rest)[|done|] == rest[0] && (done + rest)[0] == done[0];
  }

  lemma {:induction false} LeadEnds(s: State, base: seq<Packet>, done: seq<Packet>, rest: seq<Packet>, t: int, bound: nat)
    requires Lead(done, t) && CanDrain(s, rest, bound) && OnTrack(s, base, done, Ends(rest)) && Ends(rest) == 5
    requires BeginInOrder(done + rest) && CountsTrue(done + rest) && rest[0].timestamp == t && rest[0].IsEnd()
    ensures OnTrack(Drain(s, rest, bound), base, done + rest, 0)
  {
    var p, more := rest[0], rest[1..];
    var s1 := Uncounted(s, p);
    NextOf(done, rest);
    LeadStep(s1, base, done, p, t, Ends(more));
    LeadOpen(done, t);
    LeadKept(done, p, t);
    DrainTurn(s, rest, bound);
    ReplayOnTrack(Submit(s1, p), base, done + [p], more, 0, bound);
  }

  /** A window of one packet goes out when it is given up. */
  lemma {:induction false} OneGoesOut(s: State, p: Packet)
    requires s.window == [p]
    ensures Drain(Reopened(s), s.window, 1).delivered == s.delivered + [p]
  {
    assert Earliest([p]) == p.timestamp;
    var s1 := Uncounted(Reopened(s), p);
    DrainTurn(Reopened(s), [p], 1);
    assert Submit(s1, p).delivered == s1.delivered + [p];
  }

  lemma {:induction false} BuffersAndGivesUp(s: State, p: Packet)
    requires IDLE < s.timestamp < p.timestamp && s.window == []
    requires s.waitingEnds + (if p.IsEnd() then 1 else 0) == 5
    ensures Submit(s, p).delivered == s.delivered + [p]
  {
    var s1 := Buffered(s, p);
    assert s1.window == [p];
    OneGoesOut(s1, p);
  }

  /** A packet of another frame is buffered while five ends of frame are counted: the
      frame just opened is given up at once. */
  lemma {:induction false} GivesUpAgain(s: State, base: seq<Packet>, done: seq<Packet>, p: Packet, t: int)
    requires Lead(done, t) && OnTrack(s, base, done, 5) && BeginInOrder(done) && p.timestamp > t
    ensures Submit(Uncounted(s, p), p).delivered == base + done + [p]
  {
    LeadOpen(done, t);
    OpenedIff(s, base, done, 5);
    BuffersAndGivesUp(Uncounted(s, p), p);
  }

  /** A packet of another frame went out after those before the first end of frame. */
  lemma {:induction false} OutOfOrder(done: seq<Packet>, rest: seq<Packet>, t: int)
    requires Lead(done, t) && rest != [] && rest[0].timestamp > t && BeginInOrder(done + rest)
    ensures !(done + [rest[0]] <= Out(done + rest))
  {
    var ps := done + rest;
    FirstEarliest(ps);
    assert ps[0] == done[0];
    OfAppend(done, rest, t);
    LeadOpen(done, t);
    LaterShorter(ps);
    var f := Of(ps, t);
    if |f| > |done| {
      assert f[|done|] in f;
      OfMembers(ps, t);
      assert Out(ps)[|done|] == f[|done|];
    } else {
      assert f == done;
      assert Out(ps) == done;
    }
  }

  lemma {:induction false} BreaksHere(s: State, base: seq<Packet>, done: seq<Packet>, rest: seq<Packet>, t: int, bound: nat)
    requires Lead(done, t) && CanDrain(s, rest, bound) && OnTrack(s, base, done, Ends(rest)) && Ends(rest) == 5
    requires BeginInOrder(done) && BeginInOrder(done + rest) && rest[0].timestamp > t
    ensures !OnTrack(Drain(s, rest, bound), base, done + rest, 0)
  {
    var p, more, r := rest[0], rest[1..], Drain(s, rest, bound);
    assert rest == [p] + more;
    GivesUpAgain(s, base, done, p, t);
    DrainsOn(s, rest, Submit(Uncounted(s, p), p), bound);
    assert base + done + [p] == base + (done + [p]);
    assert base + (done + [p]) <= r.delivered;
    OutOfOrder(done, rest, t);
    if r.delivered == base + Out(done + rest) {
      SamePrefix(base, done + [p], Out(done + rest), r.delivered);
    }
  }

  lemma {:induction false} LeadBreaks(s: State, base: seq<Packet>, done: seq<Packet>, rest: seq<Packet>, t: int, bound: nat)
    requires Lead(done, t) && CanDrain(s, rest, bound) && OnTrack(s, base, done, Ends(rest)) && Ends(rest) == 5
    requires BeginInOrder(done + rest) && CountsTrue(done + rest) && !EndsFirst(done + rest)
    ensures !OnTrack(Drain(s, rest, bound), base, done + rest, 0)
    decreases |rest|
  {
    var p := rest[0];
    NextOf(done, rest);
    NextParts(done, p);
    LeadOpen(done, t);
    if p.timestamp > t {
      BreaksHere(s, base, done, rest, t, bound);
    } else {
      NotEnding(done, rest, t);
      LeadNext(s, base, done, rest, t, bound);
      LeadBreaks(Submit(s, p), base, done + [p], rest[1..], t, bound);
    }
  }

  lemma {:induction false} NotEnding(done: seq<Packet>, rest: seq<Packet>, t: int)
    requires Lead(done, t) && rest != [] && rest[0].timestamp == t && !EndsFirst(done + rest)
    ensures !rest[0].IsEnd() && Ends(rest) == Ends(rest[1..])
  {
    if rest[0].IsEnd() {
      EndsFirstNow(done, rest, t);
    }
  }

  lemma {:induction false} EndsFirstNow(done: seq<Packet>, rest: seq<Packet>, t: int)
    requires Lead(done, t) && rest != [] && rest[0].timestamp == t && rest[0].IsEnd()
    ensures EndsFirst(done + rest)
  {
    var ps := done + rest;
    forall i | 0 <= i < |ps| && ps[i].timestamp != ps[0].timestamp ensures EndBefore(ps, i) {
      assert ps[|done|].IsEnd();
    }
  }

  lemma {:induction false} SamePrefix(base: seq<Packet>, a: seq<Packet>, b: seq<Packet>, all: seq<Packet>)
    requires base + a <= all && all == base + b
    ensures a <= b
  {
    assert |a| <= |b| && forall i :: 0 <= i < |a| ==> a[i] == all[|base| + i] && b[i] == all[|base| + i];
  }

  /** A fifth waiting end of frame: the open frame is given up. The window then goes out
      as the reference says if and only if up to its first end of frame it has packets of
      one frame only; otherwise the frame opened next is given up too. */
  lemma {:induction false} GivesUpAtFive(s: State, p: Packet)
    requires IDLE < s.timestamp < p.timestamp && p.IsEnd() && s.waitingEnds == Ends(s.window) == 4
    requires BeginInOrder(s.window + [p]) && CountsTrue(s.window + [p])
    ensures EndsFirst(s.window + [p]) <==> OnTrack(Submit(s, p), s.delivered, s.window + [p], 0)
  {
    var s1 := Buffered(s, p);
    EndsSnoc(s.window, p);
    assert Submit(s, p) == Drain(Reopened(s1), s1.window, |s1.window|);
    GivesUp(s1);
  }

  lemma {:induction false} GivesUp(s: State)
    requires s.window != [] && s.waitingEnds == Ends(s.window) == 5
    requires BeginInOrder(s.window) && CountsTrue(s.window)
    ensures EndsFirst(s.window) <==> OnTrack(Drain(Reopened(s), s.window, |s.window|), s.delivered, s.window, 0)
  {
    var w, s0 := s.window, Reopened(s);
    var s1 := Submit(Uncounted(s0, w[0]), w[0]);
    FirstOnTrack(s, s.delivered, 0);
    DrainsOn(s0, w, s1, |w|);
    assert Drain(s0, w, |w|) == Drain(s1, w[1..], |w|);
    FromSecond(s1, s.delivered, w[0], w[1..], |w|);
  }

  lemma {:induction false} FromSecond(s: State, base: seq<Packet>, p: Packet, rest: seq<Packet>, bound: nat)
    requires CanDrain(s, rest, bound) && OnTrack(s, base, [p], Ends(rest)) && s.waitingEnds == Ends(rest)
    requires BeginInOrder([p] + rest) && CountsTrue([p] + rest) && Ends([p] + rest) == 5
    ensures EndsFirst([p] + rest) <==> OnTrack(Drain(s, rest, bound), base, [p] + rest, 0)
  {
    assert Ends([p] + rest) == Ends(rest) + if p.IsEnd() then 1 else 0;
    if p.IsEnd() {
      EndsAtOnce(p, rest);
      ReplayOnTrack(s, base, [p], rest, 0, bound);
    } else if EndsFirst([p] + rest) {
      LeadOnTrack(s, base, [p], rest, p.timestamp, bound);
    } else {
      LeadBreaks(s, base, [p], rest, p.timestamp, bound);
    }
  }

  lemma {:induction false} EndsAtOnce(p: Packet, rest: seq<Packet>)
    requires p.IsEnd()
    ensures EndsFirst([p] + rest)
  {
    assert ([p] + rest)[0] == p;
  }

  // ------------------------------------------------------------- on the ring

  /** The same on the ring, as long as at most twelve packets wait. */
  predicate ShortWait(ps: seq<Packet>) {
    ps == [] || (ShortWait(ps[..|ps| - 1]) && |Kept(ps[..|ps| - 1])| <= 12)
  }

  lemma {:induction false} OrderSafe(ps: seq<Packet>)
    requires BeginInOrder(ps) && CountsTrue(ps) && FewWait(ps) && ShortWait(ps)
    ensures AllSafe(ps)
  {
    if ps != [] {
      var init := ps[..|ps| - 1];
      LastNext(ps);
      OrderSafe(init);
      InTimeOrder(init);
      ShortWindowSafe(SubmitAll(INITIAL, init), ps[|ps| - 1]);
    }
  }

  lemma {:induction false} RingInTimeOrder(ps: seq<Packet>)
    requires BeginInOrder(ps) && CountsTrue(ps) && FewWait(ps) && ShortWait(ps) && Distinct(ps)
    ensures var r := RingAll(ps);
            && r.delivered == Out(ps) && Waiting(r) == Kept(ps) && r.timestamp == OpenTime(ps)
            && (AllComplete(ps) ==> r.delivered == ByTime(ps) && Waiting(r) == [])
  {
    OrderSafe(ps);
    DistinctWhole(ps);
    RunExact(ps);
    InTimeOrder(ps);
    if AllComplete(ps) {
      WholeFrames(ps);
    }
  }

  /** No packet twice, and none like an empty slot. */
  predicate Distinct(ps: seq<Packet>) {
    forall i, j :: 0 <= i < |ps| && 0 <= j < |ps| ==> ps[i].id != 0 && (i != j ==> ps[i] != ps[j])
  }

  lemma {:induction false} DistinctWhole(ps: seq<Packet>)
    requires Distinct(ps)
    ensures RingLoss.Whole(multiset(ps))
  {
    if ps != [] {
      var init, last := ps[..|ps| - 1], ps[|ps| - 1];
      assert ps == init + [last];
      DistinctWhole(init);
      assert last !in init;
    }
  }
}
