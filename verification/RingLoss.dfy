/** What happens on the ring when a call is not safe: a packet is lost for good. */
module RingLoss {
  import opened PacketManager
  import opened PacketRing
  import opened RingSafe

  // ------------------------------------------------------------ lost for good

  /** Neither delivered nor anywhere in the ring. */
  predicate Absent(s: Ring, q: Packet) {
    q !in s.delivered && q !in s.slots
  }

  lemma MovedAbsent(slots: seq<Packet>, p: Packet, from: Origin, to: nat, q: Packet)
    requires |slots| == SLOTS && q !in slots && p != q && q.id != 0
    ensures q !in Moved(slots, p, from, to)
  {}

  /** A packet that is absent stays so. */
  lemma {:induction false} SubmitAbsent(s: Ring, p: Packet, from: Origin, q: Packet)
    requires Wf(s) && Absent(s, q) && p != q && q.id != 0
    ensures Absent(Submitted(s, p, from), q)
    decreases s.writePos - s.readPos + 1, High(s, p) - Low(s, p), if s.timestamp < p.timestamp then 2 else 0, 0
  {
    if s.timestamp == p.timestamp {
      var s1 := Called(s, p);
      if s1.processed == s1.expected && s1.readPos < s1.writePos {
        DrainAbsent(s1, false, q);
      }
    } else if s.timestamp < p.timestamp {
      if s.timestamp == IDLE {
        SubmitAbsent(s.(timestamp := p.timestamp), p, from, q);
      } else {
        MovedAbsent(s.slots, p, from, s.writePos, q);
        PushMeasure(s, p, from);
        var s1 := Pushed(s, p, from);
        if s1.waitingEnds > MAX_WAITING {
          DrainAbsent(s1, true, q);
        }
      }
    }
  }

  lemma {:induction false} DrainAbsent(s: Ring, clear: bool, q: Packet)
    requires Wf(s) && s.readPos < s.writePos && Absent(s, q) && q.id != 0
    ensures Absent(Drained(s, clear), q)
    decreases s.writePos - s.readPos, MeasureOf(s).high - MeasureOf(s).low, 1, s.writePos - s.readPos + 1
  {
    TurnMeasure(s);
    ReplayAbsent(Turned(s), s.readPos, s.writePos, clear, MeasureOf(s), Drained(s, clear), q);
  }

  lemma {:induction false} ReplayAbsent(s: Ring, i: nat, stop: nat, clear: bool, m: Measure, r: Ring, q: Packet)
    requires Replays(s, i, stop, clear, m, r) && Absent(s, q) && q.id != 0
    ensures Absent(r, q)
    decreases m.bound, m.high - m.low, 1, stop - i
  {
    if i < stop {
      TurnAbsent(s, i, stop, clear, m, q);
      ReplaysOn(s, i, stop, clear, m, r);
      ReplayAbsent(Turn(s, i, clear), i + 1, stop, clear, m, r, q);
    }
  }

  lemma {:induction false} TurnAbsent(s: Ring, i: nat, stop: nat, clear: bool, m: Measure, q: Packet)
    requires Wf(s) && CanReplay(s, i, stop, m) && i < stop && Absent(s, q) && q.id != 0
    ensures Absent(Turn(s, i, clear), q)
    decreases m.bound, m.high - m.low, 1, 0
  {
    var p := At(s.slots, i);
    NextMeasure(s, i, stop, m);
    SubmitAbsent(Uncount(s, p), p, Position(i), q);
  }

  // ------------------------------------------------------- one slot a packet

  /** No packet that is not delivered is in two slots. */
  predicate Once(s: Ring) {
    forall k, l :: 0 <= k < l < |s.slots| && s.slots[k] == s.slots[l] && s.slots[k].id != 0 ==>
      s.slots[k] in s.delivered
  }

  /** The packet submitted is where it is said to come from. */
  predicate InHand(s: Ring, p: Packet, from: Origin)
    requires Wf(s)
  {
    match from
    case Caller => p !in s.slots
    case Position(i) => At(s.slots, i) == p
  }

  lemma PushOnce(s: Ring, p: Packet, from: Origin)
    requires Wf(s) && Once(s) && InHand(s, p, from)
    ensures Once(Pushed(s, p, from))
  {}

  lemma {:induction false} SubmitOnce(s: Ring, p: Packet, from: Origin)
    requires Wf(s) && Once(s) && InHand(s, p, from)
    ensures Once(Submitted(s, p, from))
    decreases s.writePos - s.readPos + 1, High(s, p) - Low(s, p), if s.timestamp < p.timestamp then 2 else 0, 0
  {
    if s.timestamp == p.timestamp {
      var s1 := Called(s, p);
      if s1.processed == s1.expected && s1.readPos < s1.writePos {
        DrainOnce(s1, false);
      }
    } else if s.timestamp < p.timestamp {
      if s.timestamp == IDLE {
        SubmitOnce(s.(timestamp := p.timestamp), p, from);
      } else {
        PushOnce(s, p, from);
        PushMeasure(s, p, from);
        var s1 := Pushed(s, p, from);
        if s1.waitingEnds > MAX_WAITING {
          DrainOnce(s1, true);
        }
      }
    }
  }

  lemma {:induction false} DrainOnce(s: Ring, clear: bool)
    requires Wf(s) && s.readPos < s.writePos && Once(s)
    ensures Once(Drained(s, clear))
    decreases s.writePos - s.readPos, MeasureOf(s).high - MeasureOf(s).low, 1, s.writePos - s.readPos + 1
  {
    TurnMeasure(s);
    ReplayOnce(Turned(s), s.readPos, s.writePos, clear, MeasureOf(s), Drained(s, clear));
  }

  lemma ClearOnce(s: Ring, i: nat, clear: bool)
    requires Wf(s) && Once(s)
    ensures Once(Cleared(s, i, clear))
  {}

  lemma {:induction false} ReplayOnce(s: Ring, i: nat, stop: nat, clear: bool, m: Measure, r: Ring)
    requires Replays(s, i, stop, clear, m, r) && Once(s)
    ensures Once(r)
    decreases m.bound, m.high - m.low, 1, stop - i
  {
    if i < stop {
      TurnOnce(s, i, stop, clear, m);
      ReplaysOn(s, i, stop, clear, m, r);
      ReplayOnce(Turn(s, i, clear), i + 1, stop, clear, m, r);
    }
  }

  lemma {:induction false} TurnOnce(s: Ring, i: nat, stop: nat, clear: bool, m: Measure)
    requires Wf(s) && CanReplay(s, i, stop, m) && i < stop && Once(s)
    ensures Once(Turn(s, i, clear))
    decreases m.bound, m.high - m.low, 1, 0
  {
    var p := At(s.slots, i);
    NextMeasure(s, i, stop, m);
    SubmitOnce(Uncount(s, p), p, Position(i));
    ClearOnce(Submitted(Uncount(s, p), p, Position(i)), i, clear);
  }

  // ------------------------------------------------------------- the packet lost

  /** All packets there are: delivered, waiting, in hand, and those that outer
      drains have yet to submit. */
  function Total(s: Ring, hand: multiset<Packet>, rest: multiset<Packet>): multiset<Packet>
    requires Wf(s)
  {
    multiset(s.delivered) + multiset(Waiting(s)) + hand + rest
  }

  /** Packets are distinct and none is without its data. */
  ghost predicate Whole(all: multiset<Packet>) {
    forall q :: q in all ==> all[q] == 1 && q.id != 0
  }

  ghost predicate Loses(r: Ring, all: multiset<Packet>) {
    exists q :: q in all && Absent(r, q)
  }

  /** The oldest position in use is the packet's own, one an outer drain has yet
      to read, or the first that waits. */
  predicate OwnUse(s: Ring, from: Origin, own: int, keep: Keep)
    requires Wf(s)
  {
    && InUse(s, from, own, keep) && (from.Position? && keep.From? ==> from.index != keep.index)
    && (from == Position(own) || keep == From(own) || own == s.readPos)
  }

  /** What a call finds: the ring, what outer drains have yet to read from it, the
      packets in hand, theirs, and all there are. */
  datatype Scene = Scene(s: Ring, keep: Keep, hand: multiset<Packet>, rest: multiset<Packet>, all: multiset<Packet>)

  /** Each packet is once among all there are, and in one slot. */
  ghost predicate Orderly(c: Scene) {
    && Wf(c.s) && Once(c.s) && Whole(c.all) && Total(c.s, c.hand, c.rest) == c.all
    && (c.keep.From? ==> 0 <= c.keep.index < c.s.readPos && At(c.s.slots, c.keep.index) in c.rest)
  }

  /** Most steps below need to hand this on and no more. */
  ghost predicate Sane(c: Scene) {
    forall u: int {:trigger Unfolded(u)} :: Unfolded(u) ==> Orderly(c)
  }

  lemma SaneOrderly(c: Scene)
    requires Sane(c)
    ensures Orderly(c)
  {
    assert Unfolded(0);
  }

  lemma KeepBefore(c: Scene)
    requires Sane(c)
    ensures Wf(c.s) && Whole(c.all) && (c.keep.From? ==> 0 <= c.keep.index < c.s.readPos)
  {
    SaneOrderly(c);
  }

  /** Whoever is in the slot of the 101st position is gone. */
  lemma PushLoses(s: Ring, p: Packet, from: Origin, q: Packet, own: nat)
    requires Wf(s) && s.writePos - own == SLOTS && q == At(s.slots, own) && q.id != 0
    requires Once(s) && q !in s.delivered && (q == p ==> from == Position(own))
    ensures Absent(Pushed(s, p, from), q)
  {
    var k := SlotOf(own);
    assert SlotOf(s.writePos) == k;
    assert forall l :: 0 <= l < SLOTS && l != k ==> s.slots[l] != q;
  }

  lemma VictimOf(c: Scene, p: Packet, from: Origin, own: int) returns (q: Packet)
    requires Wf(c.s) && Sane(c)
    requires c.hand == multiset{p} && OwnUse(c.s, from, own, c.keep) && InHand(c.s, p, from)
    requires c.s.writePos - own == SLOTS
    ensures q in c.all && q == At(c.s.slots, own) && q !in c.s.delivered && (q == p ==> from == Position(own))
  {
    SaneOrderly(c);
    q := At(c.s.slots, own);
    if from != Position(own) {
      if c.keep != From(own) {
        assert Waiting(c.s)[0] == At(c.s.slots, c.s.readPos + 0);
        assert q in multiset(Waiting(c.s));
      }
      assert q == p ==> c.all[q] >= 2;
    }
    assert q in c.all;
    assert q in c.s.delivered ==> c.all[q] >= 2;
  }

  /** The write that is not safe. */
  lemma OverrunLoses(c: Scene, p: Packet, from: Origin, own: int)
    requires Wf(c.s) && Sane(c)
    requires c.hand == multiset{p} && OwnUse(c.s, from, own, c.keep) && InHand(c.s, p, from)
    requires c.s.writePos - own >= SLOTS && IDLE != c.s.timestamp < p.timestamp
    ensures Loses(Submitted(c.s, p, from), c.all)
  {
    SaneOrderly(c);
    var q := VictimOf(c, p, from, own);
    PushLoses(c.s, p, from, q, own);
    var s1 := Pushed(c.s, p, from);
    if s1.waitingEnds > MAX_WAITING {
      DrainAbsent(s1, true, q);
    }
  }

  lemma CallScene(c: Scene, p: Packet) returns (r: Scene)
    requires Wf(c.s) && Sane(c)
    requires c.hand == multiset{p}
    ensures r == c.(s := Called(c.s, p), hand := multiset{})
    ensures Sane(r)
  {
    SaneOrderly(c);
    r := c.(s := Called(c.s, p), hand := multiset{});
    assert Total(r.s, r.hand, r.rest) == Total(c.s, c.hand, c.rest);
  }

  lemma PushScene(c: Scene, p: Packet, from: Origin, own: int) returns (r: Scene)
    requires Wf(c.s) && Sane(c)
    requires c.hand == multiset{p} && OwnUse(c.s, from, own, c.keep) && InHand(c.s, p, from)
    requires c.s.writePos - own < SLOTS
    ensures r == c.(s := Pushed(c.s, p, from), hand := multiset{})
    ensures ValueOf(r.s) == Buffered(ValueOf(c.s), p) && Fits(r.s, c.keep, c.s.readPos)
    ensures Sane(r)
  {
    SaneOrderly(c);
    PushAgrees(c.s, p, from, own, c.keep);
    PushOnce(c.s, p, from);
    assert Total(Pushed(c.s, p, from), multiset{}, c.rest) == Total(c.s, multiset{p}, c.rest);
    r := c.(s := Pushed(c.s, p, from), hand := multiset{});
  }

  lemma StartScene(c: Scene, p: Packet) returns (r: Scene)
    requires Wf(c.s) && Sane(c)
    ensures r == c.(s := c.s.(timestamp := p.timestamp))
    ensures Sane(r)
  {
    SaneOrderly(c);
    r := c.(s := c.s.(timestamp := p.timestamp));
    assert Waiting(r.s) == Waiting(c.s);
  }

  /** A call that is not safe loses a packet. */
  lemma {:induction false} SubmitLoses(c: Scene, p: Packet, from: Origin, own: int)
    requires Wf(c.s) && Sane(c)
    requires c.hand == multiset{p} && OwnUse(c.s, from, own, c.keep) && InHand(c.s, p, from)
    requires !SubmitSafe(ValueOf(c.s), p, own, c.keep)
    ensures Loses(Submitted(c.s, p, from), c.all)
    decreases |Waiting(c.s)| + 1, if c.s.timestamp < p.timestamp then 2 else 0, 0
  {
    if c.s.timestamp == p.timestamp {
      var c1 := CallScene(c, p);
      assert ValueOf(c1.s) == Delivered(ValueOf(c.s), p);
      DrainLoses(c1, false);
    } else if c.s.timestamp == IDLE {
      var c1 := StartScene(c, p);
      SubmitLoses(c1, p, from, own);
    } else if c.s.writePos - own < SLOTS {
      var c1 := PushScene(c, p, from, own);
      DrainLoses(c1, true);
    } else {
      OverrunLoses(c, p, from, own);
    }
  }

  lemma TurnScene(c: Scene) returns (r: Scene)
    requires Wf(c.s) && Sane(c)
    requires c.hand == multiset{} && c.s.readPos < c.s.writePos
    ensures r == c.(s := Turned(c.s), hand := multiset(Waiting(c.s)))
    ensures Sane(r)
  {
    SaneOrderly(c);
    r := c.(s := Turned(c.s), hand := multiset(Waiting(c.s)));
    assert Waiting(r.s) == [];
    assert Total(r.s, r.hand, r.rest) == Total(c.s, c.hand, c.rest);
  }

  lemma {:induction false} DrainLoses(c: Scene, clear: bool)
    requires Wf(c.s) && Sane(c)
    requires c.hand == multiset{} && c.s.readPos < c.s.writePos && Fits(c.s, c.keep, c.s.readPos)
    requires !WindowSafe(ValueOf(c.s), c.keep, clear)
    ensures Loses(Drained(c.s, clear), c.all)
    decreases |Waiting(c.s)|, 1, |Waiting(c.s)| + 4
  {
    var r := Drained(c.s, clear);
    KeepBefore(c);
    WindowAtRisk(c.s, c.keep, clear, r);
    var c1 := TurnScene(c);
    var l: RiskyLoop := Loop(true, c1, c.s.readPos, c.s.writePos, clear, MeasureOf(c.s), |Waiting(c.s)|, r);
    ReplayLoses(l);
  }

  lemma WindowAtRisk(s: Ring, keep: Keep, clear: bool, r: Ring)
    requires Wf(s) && s.readPos < s.writePos && Fits(s, keep, s.readPos) && r == Drained(s, clear)
    requires (keep.From? ==> keep.index < s.readPos) && !WindowSafe(ValueOf(s), keep, clear)
    ensures AtRisk(Turned(s), s.readPos, s.writePos, clear, MeasureOf(s), keep, |Waiting(s)|, r)
  {
    TurnReplays(s, clear);
    TurnValue(s);
    RiskIntro(Turned(s), s.readPos, s.writePos, clear, MeasureOf(s), keep, |Waiting(s)|, r, Reopened(ValueOf(s)), Waiting(s));
  }

  lemma RiskIntro(s: Ring, i: nat, stop: nat, clear: bool, m: Measure, keep: Keep, bound: nat, r: Ring, v: State,
                  ps: seq<Packet>)
    requires Replays(s, i, stop, clear, m, r) && FitsLoop(s, keep, i, stop) && (keep.From? ==> keep.index < i)
    requires v == ValueOf(s) && ps == Window(s.slots, i, stop)
    requires CanDrain(v, ps, bound) && !DrainSafe(v, ps, bound, i, keep, clear)
    ensures AtRisk(s, i, stop, clear, m, keep, bound, r)
  {}

  /** Ring and value model are about to do the same loop, which is not safe. */
  ghost predicate AtRisk(s: Ring, i: nat, stop: nat, clear: bool, m: Measure, keep: Keep, bound: nat, r: Ring) {
    forall u: int {:trigger Unfolded(u)} :: Unfolded(u) ==>
      && Replays(s, i, stop, clear, m, r) && FitsLoop(s, keep, i, stop) && (keep.From? ==> keep.index < i)
      && CanDrain(ValueOf(s), Window(s.slots, i, stop), bound)
      && !DrainSafe(ValueOf(s), Window(s.slots, i, stop), bound, i, keep, clear)
  }

  /** The loop from position `i` on, which ends in `r`. */
  datatype Loop = Loop(on: bool, c: Scene, i: nat, stop: nat, clear: bool, m: Measure, bound: nat, r: Ring)

  /** A loop that is on is at risk, in an orderly scene. */
  ghost predicate Risky(l: Loop) {
    forall u: int {:trigger Unfolded(u)} :: Unfolded(u) && l.on ==>
      && Wf(l.c.s) && l.i <= l.stop && Sane(l.c)
      && AtRisk(l.c.s, l.i, l.stop, l.clear, l.m, l.c.keep, l.bound, l.r)
      && l.c.hand == multiset(Window(l.c.s.slots, l.i, l.stop))
  }

  type RiskyLoop = l: Loop | Risky(l)
    ghost witness Loop(false, Scene(EmptyRing(), Nothing, multiset{}, multiset{}, multiset{}), 0, 0, false,
                       Measure(0, 0, 0), 0, EmptyRing())

  lemma {:induction false} ReplayLoses(l: RiskyLoop)
    requires l.on && l.i <= l.stop
    ensures Loses(l.r, l.c.all)
    decreases l.bound, 1, l.stop - l.i + 3
  {
    var lost, l2 := TurnOrLose(l);
    if !lost {
      ReplayLoses(l2);
    }
  }

  /** A turn of the loop loses a packet for good or leaves the rest at risk. */
  lemma {:induction false} TurnOrLose(l: RiskyLoop) returns (lost: bool, l2: RiskyLoop)
    requires l.on
    ensures if lost then Loses(l.r, l.c.all)
            else l2.on && l2.i == l.i + 1 <= l.stop && l2.stop == l.stop && l2.bound == l.bound && l2.r == l.r
                 && l2.c.all == l.c.all
    decreases l.bound, 1, 2
  {
    RiskyMeans(l);
    var c2;
    lost, c2 := TurnLoses(l.c, l.i, l.stop, l.clear, l.m, l.bound, l.r);
    l2 := l;
    if lost {
      LostFor(l);
    } else {
      l2 := RiskyOn(l, c2);
    }
  }

  lemma LostFor(l: RiskyLoop)
    requires l.on && Wf(l.c.s) && Loses(Turn(l.c.s, l.i, l.clear), l.c.all)
    ensures Loses(l.r, l.c.all)
  {
    RiskyMeans(l);
    RiskRemains(l.c.s, l.i, l.stop, l.clear, l.m, l.c.keep, l.bound, l.r);
    KeepBefore(l.c);
    LosesOn(Turn(l.c.s, l.i, l.clear), l.i + 1, l.stop, l.clear, l.m, l.r, l.c.all);
  }

  lemma RiskyMeans(l: RiskyLoop)
    requires l.on
    ensures Wf(l.c.s) && l.i <= l.stop && Sane(l.c)
    ensures AtRisk(l.c.s, l.i, l.stop, l.clear, l.m, l.c.keep, l.bound, l.r)
    ensures l.c.hand == multiset(Window(l.c.s.slots, l.i, l.stop))
  {
    assert Unfolded(0);
  }

  lemma RiskyOn(l: Loop, c2: Scene) returns (l2: RiskyLoop)
    requires Wf(c2.s) && l.i < l.stop && Sane(c2) && c2.hand == multiset(Window(c2.s.slots, l.i + 1, l.stop))
    requires AtRisk(c2.s, l.i + 1, l.stop, l.clear, l.m, c2.keep, l.bound, l.r)
    ensures l2 == l.(on := true, c := c2, i := l.i + 1)
  {
    l2 := l.(on := true, c := c2, i := l.i + 1);
  }

  lemma LosesOn(s: Ring, i: nat, stop: nat, clear: bool, m: Measure, r: Ring, all: multiset<Packet>)
    requires Replays(s, i, stop, clear, m, r) && Whole(all) && Loses(s, all)
    ensures Loses(r, all)
  {
    var q :| q in all && Absent(s, q);
    ReplayAbsent(s, i, stop, clear, m, r, q);
  }

  lemma RiskRemains(s: Ring, i: nat, stop: nat, clear: bool, m: Measure, keep: Keep, bound: nat, r: Ring)
    requires Wf(s) && i <= stop && AtRisk(s, i, stop, clear, m, keep, bound, r)
    ensures i < stop && Replays(Turn(s, i, clear), i + 1, stop, clear, m, r)
  {
    assert Unfolded(0);
    ReplaysOn(s, i, stop, clear, m, r);
  }

  /** A loop about to submit the packet at `i`. */
  predicate Looping(c: Scene, i: nat, stop: nat) {
    && Wf(c.s) && i < stop && FitsLoop(c.s, c.keep, i, stop) && c.hand == multiset(Window(c.s.slots, i, stop))
    && (c.keep.From? ==> c.keep.index < i)
  }

  /** The packet at `i` is in hand, the others of the loop are for later. */
  function Hand(c: Scene, i: nat, stop: nat): Scene
    requires Wf(c.s) && i < stop
  {
    var p := At(c.s.slots, i);
    Scene(Uncount(c.s, p), Rest(c.keep, i, stop - i), multiset{p},
          c.rest + multiset(Window(c.s.slots, i, stop)[1..]), c.all)
  }

  lemma WindowHead(slots: seq<Packet>, i: nat, stop: nat)
    requires |slots| == SLOTS && i < stop
    ensures multiset(Window(slots, i, stop)) == multiset{At(slots, i)} + multiset(Window(slots, i, stop)[1..])
    ensures i + 1 < stop ==> At(slots, i + 1) in multiset(Window(slots, i, stop)[1..])
  {
    var ps := Window(slots, i, stop);
    assert ps == [At(slots, i)] + ps[1..];
    assert i + 1 < stop ==> ps[1..][0] == At(slots, i + 1);
  }

  lemma HandTotal(c: Scene, i: nat, stop: nat)
    requires Looping(c, i, stop)
    ensures var r := Hand(c, i, stop);
            Total(r.s, r.hand, r.rest) == Total(c.s, c.hand, c.rest)
  {
    var r := Hand(c, i, stop);
    WindowHead(c.s.slots, i, stop);
    assert Waiting(r.s) == Waiting(c.s);
    Regroup(multiset(c.s.delivered) + multiset(Waiting(c.s)), r.hand, multiset(Window(c.s.slots, i, stop)[1..]), c.rest);
  }

  lemma Regroup(a: multiset<Packet>, p: multiset<Packet>, ps: multiset<Packet>, rest: multiset<Packet>)
    ensures a + p + (rest + ps) == a + (p + ps) + rest
  {}

  lemma HandSane(c: Scene, i: nat, stop: nat)
    requires Looping(c, i, stop) && Sane(c)
    ensures Sane(Hand(c, i, stop))
  {
    SaneOrderly(c);
    HandTotal(c, i, stop);
    WindowHead(c.s.slots, i, stop);
  }

  lemma HandUse(c: Scene, i: nat, stop: nat)
    requires Looping(c, i, stop) && (c.keep.From? ==> 0 <= c.keep.index)
    ensures var (r, p) := (Hand(c, i, stop), At(c.s.slots, i));
            && OwnUse(r.s, Position(i), Oldest(c.keep, i), r.keep) && InHand(r.s, p, Position(i))
            && ValueOf(r.s) == Uncounted(ValueOf(c.s), p)
  {}

  lemma ClearedLoses(s: Ring, i: nat, clear: bool, all: multiset<Packet>)
    requires Wf(s) && Whole(all) && Loses(s, all)
    ensures Loses(Cleared(s, i, clear), all)
  {
    var q :| q in all && Absent(s, q);
    assert Absent(Cleared(s, i, clear), q);
  }

  /** The value measure allows the loop to submit its next packet. */
  predicate Descends(s: Ring, i: nat, bound: nat)
    requires Wf(s)
  {
    |Waiting(s)| + 1 < bound || (|Waiting(s)| + 1 == bound && At(s.slots, i).timestamp <= s.timestamp)
  }

  predicate StepSafe(s: Ring, i: nat, stop: nat, keep: Keep)
    requires Wf(s) && i < stop
  {
    SubmitSafe(Uncounted(ValueOf(s), At(s.slots, i)), At(s.slots, i), Oldest(keep, i), Rest(keep, i, stop - i))
  }

  lemma {:induction false} StepLoses(c: Scene, i: nat, stop: nat, clear: bool, bound: nat)
    requires Looping(c, i, stop) && Sane(c) && !StepSafe(c.s, i, stop, c.keep) && Descends(c.s, i, bound)
    ensures Loses(Turn(c.s, i, clear), c.all)
    decreases bound, 1, 0
  {
    var p := At(c.s.slots, i);
    KeepBefore(c);
    HandSane(c, i, stop);
    HandUse(c, i, stop);
    SubmitLoses(Hand(c, i, stop), p, Position(i), Oldest(c.keep, i));
    ClearedLoses(Submitted(Uncount(c.s, p), p, Position(i)), i, clear, c.all);
  }

  /** The ring after the next packet of the loop was submitted. */
  function Step(s: Ring, i: nat): (r: Ring)
    requires Wf(s)
    ensures Wf(r)
  {
    Submitted(Uncount(s, At(s.slots, i)), At(s.slots, i), Position(i))
  }

  lemma StepValue(c: Scene, i: nat, stop: nat)
    requires Looping(c, i, stop) && StepSafe(c.s, i, stop, c.keep) && (c.keep.From? ==> 0 <= c.keep.index)
    ensures ValueOf(Step(c.s, i)) == Submit(Uncounted(ValueOf(c.s), At(c.s.slots, i)), At(c.s.slots, i))
  {
    HandUse(c, i, stop);
    SubmitAgrees(Hand(c, i, stop).s, At(c.s.slots, i), Position(i), Oldest(c.keep, i), Rest(c.keep, i, stop - i));
  }

  /** After a safe submission everything is still there. */
  lemma StepTotal(c: Scene, i: nat, stop: nat)
    requires Looping(c, i, stop) && Sane(c) && StepSafe(c.s, i, stop, c.keep)
    ensures Once(Step(c.s, i)) && Total(Step(c.s, i), multiset(Window(c.s.slots, i, stop)[1..]), c.rest) == c.all
  {
    SaneOrderly(c);
    StepValue(c, i, stop);
    var p := At(c.s.slots, i);
    var v := Uncounted(ValueOf(c.s), p);
    SubmitOnce(Uncount(c.s, p), p, Position(i));
    SubmitConserves(v, p);
    WindowHead(c.s.slots, i, stop);
    HeldTotal(ValueOf(Step(c.s, i)), v, p, c.rest, multiset(Window(c.s.slots, i, stop)[1..]));
  }

  lemma HeldTotal(a: State, b: State, p: Packet, rest: multiset<Packet>, hand: multiset<Packet>)
    requires Held(a) == Held(b) + multiset{p}
    ensures multiset(a.delivered) + multiset(a.window) + hand + rest ==
            multiset(b.delivered) + multiset(b.window) + (multiset{p} + hand) + rest
  {}

  /** Emptying a slot that was taken again loses who is in it. */
  lemma ClearLoses(c: Scene, i: nat, stop: nat)
    requires Looping(c, i, stop) && Sane(c) && StepSafe(c.s, i, stop, c.keep)
    requires !Free(Submit(Uncounted(ValueOf(c.s), At(c.s.slots, i)), At(c.s.slots, i)), i)
    ensures Loses(Turn(c.s, i, true), c.all)
  {
    KeepBefore(c);
    StepValue(c, i, stop);
    StepTotal(c, i, stop);
    var s1 := Step(c.s, i);
    var j :| ReadPos(ValueOf(s1)) <= j < s1.writePos && SlotOf(j) == SlotOf(i);
    TakenLoses(s1, i, j, multiset(Window(c.s.slots, i, stop)[1..]), c.rest, c.all);
  }

  lemma TakenLoses(s: Ring, i: nat, j: nat, hand: multiset<Packet>, rest: multiset<Packet>, all: multiset<Packet>)
    requires Wf(s) && Once(s) && Whole(all) && Total(s, hand, rest) == all
    requires s.readPos <= j < s.writePos && SlotOf(j) == SlotOf(i)
    ensures Loses(Cleared(s, i, true), all)
  {
    var x := At(s.slots, j);
    assert Waiting(s)[j - s.readPos] == At(s.slots, s.readPos + (j - s.readPos));
    assert x in multiset(Waiting(s));
    assert x in s.delivered ==> all[x] >= 2;
    assert Absent(Cleared(s, i, true), x);
  }

  /** The scene after a turn of the loop that lost nothing. */
  function Next(c: Scene, i: nat, stop: nat, clear: bool): Scene
    requires Wf(c.s) && i < stop
  {
    c.(s := Turn(c.s, i, clear), hand := multiset(Window(Turn(c.s, i, clear).slots, i + 1, stop)))
  }

  predicate TurnSafe(s: Ring, i: nat, stop: nat, keep: Keep, clear: bool)
    requires Wf(s) && i < stop
  {
    && StepSafe(s, i, stop, keep)
    && (clear ==> Free(Submit(Uncounted(ValueOf(s), At(s.slots, i)), At(s.slots, i)), i))
  }

  lemma NextAgrees(c: Scene, i: nat, stop: nat, clear: bool, bound: nat)
    requires Looping(c, i, stop) && TurnSafe(c.s, i, stop, c.keep, clear) && Descends(c.s, i, bound)
    ensures var s2 := Turn(c.s, i, clear);
            && FitsLoop(s2, c.keep, i + 1, stop) && Window(s2.slots, i + 1, stop) == Window(c.s.slots, i, stop)[1..]
            && ValueOf(s2) == Submit(Uncounted(ValueOf(c.s), At(c.s.slots, i)), At(c.s.slots, i))
            && c.s.readPos <= s2.readPos && Kept(c.s.slots, s2.slots, c.keep, i, Caller)
  {
    StepAgrees(c.s, i, stop, clear, c.keep, bound);
  }

  lemma NextSane(c: Scene, i: nat, stop: nat, clear: bool, m: Measure, bound: nat)
    requires Looping(c, i, stop) && Sane(c) && TurnSafe(c.s, i, stop, c.keep, clear) && Descends(c.s, i, bound)
    requires CanReplay(c.s, i, stop, m)
    ensures Sane(Next(c, i, stop, clear))
  {
    SaneOrderly(c);
    NextAgrees(c, i, stop, clear, bound);
    StepValue(c, i, stop);
    StepTotal(c, i, stop);
    TurnOnce(c.s, i, stop, clear, m);
    var s2 := Turn(c.s, i, clear);
    assert Waiting(s2) == ValueOf(s2).window == Waiting(Step(c.s, i));
    assert s2.delivered == Step(c.s, i).delivered;
    assert c.keep.From? ==> At(s2.slots, c.keep.index) == At(c.s.slots, c.keep.index);
  }

  /** A turn of the loop loses a packet or leaves the rest of the loop at risk. */
  lemma {:induction false} TurnLoses(c: Scene, i: nat, stop: nat, clear: bool, m: Measure, bound: nat, r: Ring)
    returns (lost: bool, c2: Scene)
    requires Wf(c.s) && i <= stop && Sane(c)
    requires AtRisk(c.s, i, stop, clear, m, c.keep, bound, r) && c.hand == multiset(Window(c.s.slots, i, stop))
    ensures i < stop && c2.all == c.all && Wf(c2.s)
    ensures lost ==> Loses(Turn(c.s, i, clear), c.all)
    ensures !lost ==> Sane(c2) && c2.hand == multiset(Window(c2.s.slots, i + 1, stop))
    ensures !lost ==> AtRisk(c2.s, i + 1, stop, clear, m, c2.keep, bound, r)
    decreases bound, 1, 1
  {
    var p := At(c.s.slots, i);
    RiskRemains(c.s, i, stop, clear, m, c.keep, bound, r);
    assert Unfolded(0);
    DrainSafeOn(ValueOf(c.s), Window(c.s.slots, i, stop), bound, i, c.keep, clear);
    lost, c2 := true, c;
    if !StepSafe(c.s, i, stop, c.keep) {
      StepLoses(c, i, stop, clear, bound);
    } else if clear && !Free(Submit(Uncounted(ValueOf(c.s), p), p), i) {
      ClearLoses(c, i, stop);
    } else {
      NextAgrees(c, i, stop, clear, bound);
      NextSane(c, i, stop, clear, m, bound);
      lost, c2 := false, Next(c, i, stop, clear);
    }
  }

  lemma DrainSafeOn(s: State, ps: seq<Packet>, bound: nat, i: int, keep: Keep, clear: bool)
    requires CanDrain(s, ps, bound) && ps != []
    ensures |s.window| + 1 < bound || (|s.window| + 1 == bound && ps[0].timestamp <= s.timestamp)
    ensures var s1 := Uncounted(s, ps[0]);
            var s2 := Submit(s1, ps[0]);
            && CanDrain(s2, ps[1..], bound)
            && (DrainSafe(s, ps, bound, i, keep, clear) <==>
                && SubmitSafe(s1, ps[0], Oldest(keep, i), Rest(keep, i, |ps|))
                && (clear ==> Free(s2, i)) && DrainSafe(s2, ps[1..], bound, i + 1, keep, clear))
  {
    DrainsOn(s, ps, Submit(Uncounted(s, ps[0]), ps[0]), bound);
  }
}
