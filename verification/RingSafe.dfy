/** When the ring of `PacketManager` holds what was put into it: exactly when no
    write takes a slot that somebody has yet to read, and no slot is emptied that
    was taken again. */
module RingSafe {
  import opened PacketManager
  import opened PacketRing

  function ReadPos(s: State): int {
    s.writePos - |s.window|
  }

  /** The oldest position that drains under way have yet to read. */
  datatype Keep = Nothing | From(index: int)

  /** The oldest position in use when a drain submits the packet at `i`. */
  function Oldest(keep: Keep, i: int): int {
    if keep.From? then keep.index else i
  }

  /** What is in use once that packet is dealt with, `n` being left with it. */
  function Rest(keep: Keep, i: int, n: nat): Keep {
    if keep.From? then keep else if n > 1 then From(i + 1) else Nothing
  }

  /** No waiting packet is in the slot of position `i`. */
  predicate Free(s: State, i: int) {
    forall j :: ReadPos(s) <= j < s.writePos ==> SlotOf(j) != SlotOf(i)
  }

  /** Over a whole call, nested drains included: every write is less than 100
      positions ahead of the oldest one in use, which is `own` for the packet
      itself and `keep` afterwards. */
  predicate SubmitSafe(s: State, p: Packet, own: int, keep: Keep)
    decreases |s.window| + 1, if s.timestamp < p.timestamp then 2 else 0, 0
  {
    if s.timestamp == p.timestamp then
      var s1 := Delivered(s, p);
      s1.processed != s1.expected || s1.window == [] || WindowSafe(s1, keep, false)
    else if s.timestamp > p.timestamp then true
    else if s.timestamp == IDLE then SubmitSafe(s.(timestamp := p.timestamp), p, own, keep)
    else
      var s1 := Buffered(s, p);
      s.writePos - own < SLOTS && (s1.waitingEnds <= MAX_WAITING || WindowSafe(s1, keep, true))
  }

  predicate WindowSafe(s: State, keep: Keep, clear: bool)
    requires s.window != []
    decreases |s.window|, 1, |s.window| + 1
  {
    DrainSafe(Reopened(s), s.window, |s.window|, ReadPos(s), keep, clear)
  }

  /** The state in which a drain goes on to its second packet. */
  function AfterFirst(s: State, ps: seq<Packet>, bound: nat): (s2: State)
    requires CanDrain(s, ps, bound) && ps != []
    ensures CanDrain(s2, ps[1..], bound)
  {
    DrainsOn(s, ps, Submit(Uncounted(s, ps[0]), ps[0]), bound);
    Submit(Uncounted(s, ps[0]), ps[0])
  }

  predicate DrainSafe(s: State, ps: seq<Packet>, bound: nat, i: int, keep: Keep, clear: bool)
    requires CanDrain(s, ps, bound)
    decreases bound, 1, |ps|
  {
    ps == [] ||
    var s2 := AfterFirst(s, ps, bound);
    && SubmitSafe(Uncounted(s, ps[0]), ps[0], Oldest(keep, i), Rest(keep, i, |ps|))
    && (clear ==> Free(s2, i))
    && DrainSafe(s2, ps[1..], bound, i + 1, keep, clear)
  }

  // --------------------------------------------------------------- agreement

  function ValueOf(s: Ring): State
    requires Wf(s)
  {
    State(s.timestamp, s.expected, s.processed, s.waitingEnds, s.writePos, Waiting(s), s.delivered)
  }

  /** Positions in use and the packet's own are in the ring at once. */
  predicate InUse(s: Ring, from: Origin, own: int, keep: Keep) {
    && 0 <= own <= s.readPos && s.writePos - own <= SLOTS
    && (from.Position? ==> own <= from.index < s.readPos)
    && (keep.From? ==> own <= keep.index <= s.readPos)
  }

  /** Positions before `stop` in use are as they were, but for the packet's own. */
  predicate Kept(a: seq<Packet>, b: seq<Packet>, keep: Keep, stop: nat, from: Origin)
    requires |a| == |b| == SLOTS
  {
    keep.From? ==> forall j: nat :: keep.index <= j < stop && from != Position(j) ==> At(a, j) == At(b, j)
  }

  predicate Agrees(s: Ring, from: Origin, keep: Keep, stop: nat, r: Ring, v: State)
    requires Wf(s)
  {
    && Wf(r) && ValueOf(r) == v && s.readPos <= r.readPos
    && Kept(s.slots, r.slots, keep, stop, from)
    && r.writePos - r.readPos <= SLOTS && (keep.From? ==> r.writePos - keep.index <= SLOTS)
  }

  lemma NoAlias(j: int, k: int)
    requires j < k < j + SLOTS
    ensures SlotOf(j) != SlotOf(k)
  {}

  lemma MovedAt(slots: seq<Packet>, p: Packet, from: Origin, to: nat, j: nat)
    requires |slots| == SLOTS && j < to < j + SLOTS && from != Position(j)
    requires from.Position? ==> from.index < to < from.index + SLOTS
    ensures At(Moved(slots, p, from, to), j) == At(slots, j)
  {
    NoAlias(j, to);
    if from.Position? {
      if from.index < j {
        NoAlias(from.index, j);
      } else {
        NoAlias(j, from.index);
      }
    }
  }

  lemma MovedTo(slots: seq<Packet>, p: Packet, from: Origin, to: nat)
    requires |slots| == SLOTS
    requires from.Position? ==> from.index < to < from.index + SLOTS
    ensures At(Moved(slots, p, from, to), to) == p
  {
    if from.Position? {
      NoAlias(from.index, to);
    }
  }

  lemma SameWindow(a: seq<Packet>, b: seq<Packet>, r: nat, w: nat)
    requires |a| == |b| == SLOTS && r <= w && forall j :: r <= j < w ==> At(a, j) == At(b, j)
    ensures Window(a, r, w) == Window(b, r, w)
  {}

  /** A write within 100 positions of the oldest one in use hurts nothing. */
  lemma PushAgrees(s: Ring, p: Packet, from: Origin, own: int, keep: Keep)
    requires Wf(s) && InUse(s, from, own, keep) && s.writePos - own < SLOTS
    ensures Agrees(s, from, keep, s.readPos, Pushed(s, p, from), Buffered(ValueOf(s), p))
  {
    var r := Pushed(s, p, from);
    forall j: nat | own <= j < s.writePos && from != Position(j) ensures At(r.slots, j) == At(s.slots, j) {
      MovedAt(s.slots, p, from, s.writePos, j);
    }
    MovedTo(s.slots, p, from, s.writePos);
    assert Waiting(r) == Waiting(s) + [p];
  }

  /** Emptying the slot of a position that is done with hurts nothing nearby. */
  lemma ClearAgrees(s: Ring, i: nat, clear: bool)
    requires Wf(s) && i < s.readPos && (clear ==> Free(ValueOf(s), i))
    ensures ValueOf(Cleared(s, i, clear)) == ValueOf(s)
    ensures forall j: nat :: i - SLOTS < j < i + SLOTS && j != i ==> At(Cleared(s, i, clear).slots, j) == At(s.slots, j)
  {
    var r := Cleared(s, i, clear);
    forall j: nat | i - SLOTS < j < i + SLOTS && j != i ensures At(r.slots, j) == At(s.slots, j) {
      if j < i {
        NoAlias(j, i);
      } else {
        NoAlias(i, j);
      }
    }
    SameWindow(r.slots, s.slots, s.readPos, s.writePos);
  }

  /** If the call is safe, the ring ends up as the unbounded window does. */
  lemma {:induction false} SubmitAgrees(s: Ring, p: Packet, from: Origin, own: int, keep: Keep)
    requires Wf(s) && InUse(s, from, own, keep) && SubmitSafe(ValueOf(s), p, own, keep)
    ensures Agrees(s, from, keep, s.readPos, Submitted(s, p, from), Submit(ValueOf(s), p))
    decreases |Waiting(s)| + 1, if s.timestamp < p.timestamp then 2 else 0, 0
  {
    if s.timestamp == p.timestamp {
      var s1 := Called(s, p);
      assert ValueOf(s1) == Delivered(ValueOf(s), p);
      if s1.processed == s1.expected && s1.readPos < s1.writePos {
        WindowAgrees(s1, keep, false);
      }
    } else if s.timestamp < p.timestamp {
      if s.timestamp == IDLE {
        SubmitAgrees(s.(timestamp := p.timestamp), p, from, own, keep);
      } else {
        PushAgrees(s, p, from, own, keep);
        var s1 := Pushed(s, p, from);
        if s1.waitingEnds > MAX_WAITING {
          WindowAgrees(s1, keep, true);
        }
      }
    }
  }

  predicate Fits(s: Ring, keep: Keep, i: nat) {
    && s.writePos - s.readPos <= SLOTS
    && (keep.From? ==> 0 <= keep.index <= i && s.writePos - keep.index <= SLOTS)
  }

  lemma {:induction false} WindowAgrees(s: Ring, keep: Keep, clear: bool)
    requires Wf(s) && s.readPos < s.writePos && Fits(s, keep, s.readPos) && WindowSafe(ValueOf(s), keep, clear)
    ensures Agrees(s, Caller, keep, s.readPos, Drained(s, clear),
                   Drain(Reopened(ValueOf(s)), Waiting(s), |Waiting(s)|))
    decreases |Waiting(s)|, 1, |Waiting(s)| + 2
  {
    var r, t := Drained(s, clear), Drain(Reopened(ValueOf(s)), Waiting(s), |Waiting(s)|);
    TurnReplays(s, clear);
    WindowSafeTo(ValueOf(s), keep, clear);
    WindowInStep(s, keep, clear, r, t);
    ReplayAgrees(Turned(s), s.readPos, s.writePos, clear, MeasureOf(s), keep, |Waiting(s)|, r, t);
  }

  lemma WindowInStep(s: Ring, keep: Keep, clear: bool, r: Ring, t: State)
    requires Wf(s) && s.readPos < s.writePos && Fits(s, keep, s.readPos)
    requires Replays(Turned(s), s.readPos, s.writePos, clear, MeasureOf(s), r)
    requires SafeTo(Reopened(ValueOf(s)), Waiting(s), |Waiting(s)|, s.readPos, keep, clear, t)
    ensures InStep(Turned(s), s.readPos, s.writePos, clear, MeasureOf(s), keep, |Waiting(s)|, r, t)
  {
    TurnValue(s);
  }

  lemma TurnReplays(s: Ring, clear: bool)
    requires Wf(s) && s.readPos < s.writePos
    ensures Replays(Turned(s), s.readPos, s.writePos, clear, MeasureOf(s), Drained(s, clear))
  {
    TurnMeasure(s);
  }

  lemma TurnValue(s: Ring)
    requires Wf(s) && s.readPos < s.writePos
    ensures ValueOf(Turned(s)) == Reopened(ValueOf(s))
  {}

  lemma WindowSafeTo(s: State, keep: Keep, clear: bool)
    requires s.window != [] && WindowSafe(s, keep, clear)
    ensures SafeTo(Reopened(s), s.window, |s.window|, ReadPos(s), keep, clear,
                   Drain(Reopened(s), s.window, |s.window|))
  {}

  /** Positions fit while a drain is about to submit the packet at `i`. */
  predicate FitsLoop(s: Ring, keep: Keep, i: nat, stop: nat) {
    Fits(s, keep, i) && i <= stop <= s.readPos && (i < stop ==> s.writePos - Oldest(keep, i) <= SLOTS)
  }

  /** The loop over `ps` is safe and ends in `t`. */
  predicate SafeTo(s: State, ps: seq<Packet>, bound: nat, i: int, keep: Keep, clear: bool, t: State) {
    CanDrain(s, ps, bound) && DrainSafe(s, ps, bound, i, keep, clear) && Drain(s, ps, bound) == t
  }

  lemma SafeToOn(s: State, ps: seq<Packet>, bound: nat, i: int, keep: Keep, clear: bool, t: State)
    requires SafeTo(s, ps, bound, i, keep, clear, t) && ps != []
    ensures var s1 := Uncounted(s, ps[0]);
            && SubmitSafe(s1, ps[0], Oldest(keep, i), Rest(keep, i, |ps|))
            && (clear ==> Free(Submit(s1, ps[0]), i))
            && SafeTo(Submit(s1, ps[0]), ps[1..], bound, i + 1, keep, clear, t)
    ensures |s.window| + 1 < bound || (|s.window| + 1 == bound && ps[0].timestamp <= s.timestamp)
  {
    DrainsOn(s, ps, Submit(Uncounted(s, ps[0]), ps[0]), bound);
  }

  /** Ring and value model are about to do the same loop, which is safe. */
  ghost predicate InStep(s: Ring, i: nat, stop: nat, clear: bool, m: Measure, keep: Keep, bound: nat, r: Ring, t: State) {
    forall u: int {:trigger Unfolded(u)} :: Unfolded(u) ==>
      && Replays(s, i, stop, clear, m, r) && FitsLoop(s, keep, i, stop)
      && SafeTo(ValueOf(s), Window(s.slots, i, stop), bound, i, keep, clear, t)
  }

  lemma {:induction false} ReplayAgrees(s: Ring, i: nat, stop: nat, clear: bool, m: Measure, keep: Keep, bound: nat,
                                        r: Ring, t: State)
    requires Wf(s) && i <= stop && InStep(s, i, stop, clear, m, keep, bound, r, t)
    ensures Agrees(s, Caller, keep, i, r, t)
    decreases bound, 1, stop - i + 1
  {
    if i < stop {
      TurnAgrees(s, i, stop, clear, m, keep, bound, r, t);
      ReplayAgrees(Turn(s, i, clear), i + 1, stop, clear, m, keep, bound, r, t);
      AgreesOn(s, Turn(s, i, clear), i, keep, r, t);
    } else {
      LoopOver(s, i, clear, m, keep, bound, r, t);
    }
  }

  lemma LoopOver(s: Ring, i: nat, clear: bool, m: Measure, keep: Keep, bound: nat, r: Ring, t: State)
    requires Wf(s) && InStep(s, i, i, clear, m, keep, bound, r, t)
    ensures Agrees(s, Caller, keep, i, r, t)
  {
    assert Unfolded(0);
  }

  lemma {:induction false} TurnAgrees(s: Ring, i: nat, stop: nat, clear: bool, m: Measure, keep: Keep, bound: nat,
                                      r: Ring, t: State)
    requires Wf(s) && InStep(s, i, stop, clear, m, keep, bound, r, t) && i < stop
    ensures InStep(Turn(s, i, clear), i + 1, stop, clear, m, keep, bound, r, t)
    ensures s.readPos <= Turn(s, i, clear).readPos && Kept(s.slots, Turn(s, i, clear).slots, keep, i, Caller)
    decreases bound, 1, 1
  {
    assert Unfolded(0);
    ReplaysOn(s, i, stop, clear, m, r);
    SafeToOn(ValueOf(s), Window(s.slots, i, stop), bound, i, keep, clear, t);
    StepAgrees(s, i, stop, clear, keep, bound);
  }

  lemma AgreesOn(s: Ring, s2: Ring, i: nat, keep: Keep, r: Ring, v: State)
    requires Wf(s) && Wf(s2) && s.readPos <= s2.readPos && Kept(s.slots, s2.slots, keep, i, Caller)
    requires Agrees(s2, Caller, keep, i + 1, r, v)
    ensures Agrees(s, Caller, keep, i, r, v)
  {}

  /** What the loop finds after a submission that agrees. */
  lemma StepKeeps(s: Ring, i: nat, stop: nat, clear: bool, keep: Keep, s1: Ring, v: State)
    requires Wf(s) && i < stop && FitsLoop(s, keep, i, stop)
    requires Agrees(Uncount(s, At(s.slots, i)), Position(i), Rest(keep, i, stop - i), s.readPos, s1, v)
    requires clear ==> Free(v, i)
    ensures var s2 := Cleared(s1, i, clear);
            && ValueOf(s2) == v && Window(s2.slots, i + 1, stop) == Window(s.slots, i, stop)[1..]
            && Kept(s.slots, s2.slots, keep, i, Caller)
            && FitsLoop(s2, keep, i + 1, stop)
  {
    var s2 := Cleared(s1, i, clear);
    ClearAgrees(s1, i, clear);
    forall j: nat | Oldest(keep, i) <= j < stop && j != i ensures At(s2.slots, j) == At(s.slots, j) {
      assert At(s1.slots, j) == At(s.slots, j);
    }
    forall k | 0 <= k < stop - i - 1 ensures Window(s2.slots, i + 1, stop)[k] == Window(s.slots, i, stop)[1..][k] {
      assert At(s2.slots, i + 1 + k) == At(s.slots, i + (k + 1));
    }
  }

  /** One turn of the loop. */
  lemma {:induction false} StepAgrees(s: Ring, i: nat, stop: nat, clear: bool, keep: Keep, bound: nat)
    requires Wf(s) && FitsLoop(s, keep, i, stop) && i < stop
    requires var (v, p) := (ValueOf(s), At(s.slots, i));
             && SubmitSafe(Uncounted(v, p), p, Oldest(keep, i), Rest(keep, i, stop - i))
             && (clear ==> Free(Submit(Uncounted(v, p), p), i))
             && (|v.window| + 1 < bound || (|v.window| + 1 == bound && p.timestamp <= s.timestamp))
    ensures var (s2, p) := (Turn(s, i, clear), At(s.slots, i));
            && FitsLoop(s2, keep, i + 1, stop) && s.readPos <= s2.readPos
            && ValueOf(s2) == Submit(Uncounted(ValueOf(s), p), p)
            && Window(s2.slots, i + 1, stop) == Window(s.slots, i, stop)[1..]
            && Kept(s.slots, s2.slots, keep, i, Caller)
    decreases bound, 1, 0
  {
    var p := At(s.slots, i);
    var s0, v := Uncount(s, p), Uncounted(ValueOf(s), p);
    assert ValueOf(s0) == v;
    SubmitAgrees(s0, p, Position(i), Oldest(keep, i), Rest(keep, i, stop - i));
    StepKeeps(s, i, stop, clear, keep, Submitted(s0, p, Position(i)), Submit(v, p));
  }
}
