/** Input on which the ring loses packets although far fewer than 100 wait: nested
    drains write over packets that an outer one has yet to read. */
module RingOverrun {
  import opened PacketManager
  import opened PacketRing
  import opened RingSafe
  import opened RingLoss
  import opened RingRuns

  /** All are later than the open frame. */
  predicate Later(ps: seq<Packet>, t: int) {
    forall i :: 0 <= i < |ps| ==> t < ps[i].timestamp
  }

  function Advanced(s: State, ps: seq<Packet>): State {
    s.(window := s.window + ps, writePos := s.writePos + |ps|)
  }

  /** Packets of a late frame. */
  predicate Late(ps: seq<Packet>, late: int) {
    forall i :: 0 <= i < |ps| ==> ps[i].timestamp == late && !ps[i].IsEnd()
  }

  /** End-of-frame packets of frames of one packet, latest first, all of them
      between `t` and `late`. */
  predicate Stairs(es: seq<Packet>, t: int, late: int) {
    && (forall i :: 0 <= i < |es| ==> es[i].IsEnd() && es[i].packetCount == 1 && t < es[i].timestamp < late)
    && (forall i, j :: 0 <= i < j < |es| ==> es[j].timestamp < es[i].timestamp)
  }

  /** What nested drains write: each one all that waits but the frame it completes. */
  function Writes(n: nat, e: nat): nat {
    if e == 0 then 0 else n + e - 1 + Writes(n, e - 1)
  }

  lemma EarliestIsLast(ps: seq<Packet>, last: Packet, more: seq<Packet>)
    requires Later(ps, last.timestamp) && Later(more, last.timestamp)
    ensures Earliest(ps + ([last] + more)) == last.timestamp
  {
    var all := ps + ([last] + more);
    assert all[|ps|] == last && last in all;
    var i :| 0 <= i < |all| && all[i].timestamp == Earliest(all);
    assert i < |ps| ==> all[i] == ps[i];
    assert i > |ps| ==> all[i] == more[i - |ps| - 1];
  }

  lemma StairsLater(older: seq<Packet>, es: seq<Packet>, t: int, late: int)
    requires Late(older, late) && Stairs(es, t, late) && es != []
    ensures Later(older + es[..|es| - 1], es[|es| - 1].timestamp) && Stairs(es[..|es| - 1], t, late)
  {}

  /** The drain of the window is safe. */
  ghost predicate Windows(s: State, keep: Keep) {
    forall u: int {:trigger Unfolded(u)} :: Unfolded(u) ==> s.window != [] && WindowSafe(s, keep, false)
  }

  /** The drain loop over `ps` is safe. */
  ghost predicate Drains(s: State, ps: seq<Packet>, bound: nat, i: int, keep: Keep) {
    forall u: int {:trigger Unfolded(u)} :: Unfolded(u) ==> CanDrain(s, ps, bound) && DrainSafe(s, ps, bound, i, keep, false)
  }

  /** A drain that has just begun, at timestamp `t`. */
  function Restarted(s: State, t: int): State {
    s.(processed := 0, expected := -1, timestamp := t, window := [])
  }

  lemma WindowDrains(s: State, ps: seq<Packet>, last: Packet, more: seq<Packet>, keep: Keep)
    requires Windows(s, keep) && s.window == ps + ([last] + more)
    requires Later(ps, last.timestamp) && Later(more, last.timestamp)
    ensures Drains(Restarted(s, last.timestamp), ps + ([last] + more), |s.window|, ReadPos(s), keep)
  {
    assert Unfolded(0);
    EarliestIsLast(ps, last, more);
    assert Reopened(s) == Restarted(s, last.timestamp);
  }

  /** A drain moves a packet that is later than its timestamp to the end. */
  lemma SkipOne(s: State, p: Packet, qs: seq<Packet>, bound: nat, i: int, keep: Keep)
    requires Drains(s, [p] + qs, bound, i, keep)
    requires s.timestamp < p.timestamp && s.timestamp != IDLE && s.waitingEnds <= MAX_WAITING
    ensures Drains(Advanced(s, [p]), qs, bound, i + 1, keep)
    ensures keep.From? ==> s.writePos + 1 - keep.index <= SLOTS
  {
    assert Unfolded(0);
    var ps := [p] + qs;
    assert ps[1..] == qs && ps[0] == p;
    DrainSafeOn(s, ps, bound, i, keep, false);
    OneSkips(s, p, Oldest(keep, i), Rest(keep, i, |ps|));
  }

  lemma OneSkips(s: State, p: Packet, own: int, keep: Keep)
    requires s.timestamp < p.timestamp && s.timestamp != IDLE && s.waitingEnds <= MAX_WAITING
    ensures Submit(Uncounted(s, p), p) == Advanced(s, [p])
    ensures SubmitSafe(Uncounted(s, p), p, own, keep) ==> s.writePos - own < SLOTS
  {}

  lemma AdvancedOn(s: State, ps: seq<Packet>)
    requires ps != []
    ensures Advanced(Advanced(s, [ps[0]]), ps[1..]) == Advanced(s, ps)
  {
    assert s.window + [ps[0]] + ps[1..] == s.window + ps;
  }

  lemma {:induction false} SkipDrains(s: State, ps: seq<Packet>, rest: seq<Packet>, bound: nat, i: int, keep: Keep)
    requires Drains(s, ps + rest, bound, i, keep) && ps != []
    requires Later(ps, s.timestamp) && s.timestamp != IDLE && s.waitingEnds <= MAX_WAITING
    ensures Drains(Advanced(s, ps), rest, bound, i + |ps|, keep)
    ensures keep.From? ==> s.writePos + |ps| - keep.index <= SLOTS
    decreases |ps|
  {
    assert ps + rest == [ps[0]] + (ps[1..] + rest);
    SkipOne(s, ps[0], ps[1..] + rest, bound, i, keep);
    if |ps| == 1 {
      assert ps[1..] + rest == rest && [ps[0]] == ps;
    } else {
      SkipDrains(Advanced(s, [ps[0]]), ps[1..], rest, bound, i + 1, keep);
      AdvancedOn(s, ps);
    }
  }

  /** The packet that completes a frame starts the nested drain. */
  lemma LastStarts(s: State, last: Packet, ps: seq<Packet>, bound: nat, i: int, keep: Keep, keep1: Keep)
    returns (s1: State)
    requires Drains(s, ps, bound, i, keep) && ps != [] && ps[0] == last && keep1 == Rest(keep, i, |ps|)
    requires last.IsEnd() && last.packetCount == 1 && s.processed == 0 && s.timestamp == last.timestamp && s.window != []
    ensures Windows(s1, keep1)
    ensures s1.window == s.window && s1.writePos == s.writePos && s1.waitingEnds == s.waitingEnds - 1
  {
    assert Unfolded(0);
    s1 := Delivered(Uncounted(s, last), last);
    assert SubmitSafe(Uncounted(s, last), last, Oldest(keep, i), keep1);
    assert WindowSafe(s1, keep1, false);
  }

  /** The drain up to the frame it completes, and the nested drain's state. */
  lemma {:induction false} DrainTo(s: State, ps: seq<Packet>, last: Packet, more: seq<Packet>, keep: Keep, keep1: Keep)
    returns (s1: State)
    requires s.window == ps + ([last] + more) && s.waitingEnds <= MAX_WAITING && last.timestamp > IDLE
    requires last.IsEnd() && last.packetCount == 1 && ps != [] && keep1 == Rest(keep, ReadPos(s) + |ps|, |more| + 1)
    requires Later(ps, last.timestamp) && Later(more, last.timestamp) && Windows(s, keep)
    ensures s1.window == ps && s1.writePos == s.writePos + |ps| && s1.waitingEnds < s.waitingEnds
    ensures Windows(s1, keep1)
    ensures keep.From? ==> s.writePos + |ps| - keep.index <= SLOTS
  {
    SkipTo(s, ps, last, more, keep);
    s1 := LastStarts(Skipped(s, ps, last.timestamp), last, [last] + more, |s.window|, ReadPos(s) + |ps|, keep, keep1);
  }

  /** A drain at timestamp `t` that has moved its first packets, `ps`, to the end. */
  function Skipped(s: State, ps: seq<Packet>, t: int): (r: State)
    ensures r.window == ps && r.writePos == s.writePos + |ps| && r.waitingEnds == s.waitingEnds
    ensures r.processed == 0 && r.timestamp == t
  {
    Advanced(Restarted(s, t), ps)
  }

  lemma {:induction false} SkipTo(s: State, ps: seq<Packet>, last: Packet, more: seq<Packet>, keep: Keep)
    requires s.window == ps + ([last] + more) && s.waitingEnds <= MAX_WAITING && last.timestamp > IDLE && ps != []
    requires Later(ps, last.timestamp) && Later(more, last.timestamp) && Windows(s, keep)
    ensures Drains(Skipped(s, ps, last.timestamp), [last] + more, |s.window|, ReadPos(s) + |ps|, keep)
    ensures keep.From? ==> s.writePos + |ps| - keep.index <= SLOTS
  {
    WindowDrains(s, ps, last, more, keep);
    SkipDrains(Restarted(s, last.timestamp), ps, [last] + more, |s.window|, ReadPos(s), keep);
  }

  /** Nested drains over late packets and stairs write this much. */
  lemma {:induction false} StairsWrite(s: State, older: seq<Packet>, es: seq<Packet>, t: int, late: int, keep: Keep)
    requires s.window == older + es && older != [] && es != [] && Late(older, late) && Stairs(es, t, late) && t >= IDLE
    requires s.waitingEnds <= MAX_WAITING && keep.From? && Windows(s, keep)
    ensures s.writePos + Writes(|older|, |es|) - keep.index <= SLOTS
    decreases |es|
  {
    var front, last := es[..|es| - 1], es[|es| - 1];
    assert s.window == older + front + ([last] + []);
    StairsLater(older, es, t, late);
    var s1 := DrainTo(s, older + front, last, [], keep, keep);
    if |es| > 1 {
      StairsWrite(s1, older, front, t, late, keep);
    }
  }

  lemma CompletesSafe(s: State, p: Packet)
    requires p.timestamp == s.timestamp && p.IsEnd() && p.packetCount == s.processed + 1 && s.window != [] && Safe(s, p)
    ensures Windows(Delivered(s, p), Nothing)
  {}

  /** A call that completes the open frame while late packets, stairs and more
      late packets wait is safe only if these sums are small. */
  lemma {:induction false} StairsSafe(s: State, p: Packet, older: seq<Packet>, es: seq<Packet>, newer: seq<Packet>, late: int)
    requires s.window == older + es + newer && older != [] && |es| > 1 && newer != []
    requires Late(older, late) && Late(newer, late) && Stairs(es, s.timestamp, late) && s.timestamp >= IDLE
    requires s.waitingEnds <= MAX_WAITING
    requires p.timestamp == s.timestamp && p.IsEnd() && p.packetCount == s.processed + 1
    requires Safe(s, p)
    ensures |newer| + Writes(|older|, |es|) <= SLOTS
  {
    CompletesSafe(s, p);
    StairsBound(Delivered(s, p), older, es, newer, s.timestamp, late);
  }

  lemma {:induction false} StairsBound(s: State, older: seq<Packet>, es: seq<Packet>, newer: seq<Packet>, t: int, late: int)
    requires s.window == older + es + newer && older != [] && |es| > 1 && newer != [] && s.waitingEnds <= MAX_WAITING
    requires Late(older, late) && Late(newer, late) && Stairs(es, t, late) && t >= IDLE && Windows(s, Nothing)
    ensures |newer| + Writes(|older|, |es|) <= SLOTS
  {
    var front, last := es[..|es| - 1], es[|es| - 1];
    assert s.window == older + front + ([last] + newer);
    StairsLater(older, es, t, late);
    var keep := From(ReadPos(s) + |older + front| + 1);
    var s1 := DrainTo(s, older + front, last, newer, Nothing, keep);
    StairsWrite(s1, older, front, t, late, keep);
  }

  // ---------------------------------------------------------------- as a run

  lemma FirstWaits(first: Packet)
    requires first.timestamp > IDLE && !first.IsEnd()
    ensures SubmitAll(INITIAL, [first]) == State(first.timestamp, -1, 1, 0, 0, [], [first])
  {
    assert [first][..0] == [];
    assert SubmitAll(INITIAL, []) == INITIAL;
    assert Submit(INITIAL.(timestamp := first.timestamp), first) == Delivered(INITIAL.(timestamp := first.timestamp), first);
  }

  lemma NextWaits(first: Packet, front: seq<Packet>, last: Packet)
    requires IDLE < first.timestamp < last.timestamp && Ends(front + [last]) <= MAX_WAITING
    ensures Submit(State(first.timestamp, -1, 1, Ends(front), |front|, front, [first]), last) ==
            State(first.timestamp, -1, 1, Ends(front + [last]), |front + [last]|, front + [last], [first])
    ensures Ends(front) <= MAX_WAITING
  {
    EndsAppend(front, [last]);
  }

  /** Later packets than the open frame's just wait. */
  lemma {:induction false} RunWaits(first: Packet, qs: seq<Packet>)
    requires first.timestamp > IDLE && !first.IsEnd() && Later(qs, first.timestamp) && Ends(qs) <= MAX_WAITING
    ensures SubmitAll(INITIAL, [first] + qs) == State(first.timestamp, -1, 1, Ends(qs), |qs|, qs, [first])
    decreases |qs|
  {
    var ps := [first] + qs;
    if qs == [] {
      assert ps == [first];
      FirstWaits(first);
    } else {
      var front, last := qs[..|qs| - 1], qs[|qs| - 1];
      assert ps[..|ps| - 1] == [first] + front && ps[|ps| - 1] == last;
      assert qs == front + [last];
      EndsAppend(front, [last]);
      RunWaits(first, front);
      NextWaits(first, front, last);
    }
  }

  /** Any such run is unsafe if the sums are over 100. */
  lemma StairsUnsafe(first: Packet, older: seq<Packet>, es: seq<Packet>, newer: seq<Packet>, late: int, last: Packet)
    requires first.timestamp > IDLE && !first.IsEnd() && older != [] && |es| > 1 && newer != []
    requires Late(older, late) && Late(newer, late) && Stairs(es, first.timestamp, late) && first.timestamp < late
    requires Ends(older + es + newer) <= MAX_WAITING && |newer| + Writes(|older|, |es|) > SLOTS
    requires last.IsEnd() && last.timestamp == first.timestamp && last.packetCount == 2
    ensures !AllSafe([first] + (older + es + newer) + [last])
    ensures SubmitAll(INITIAL, [first] + (older + es + newer)).window == older + es + newer
  {
    var qs := older + es + newer;
    var ps := [first] + qs + [last];
    RunWaits(first, qs);
    assert ps[..|ps| - 1] == [first] + qs && ps[|ps| - 1] == last;
    var s := SubmitAll(INITIAL, [first] + qs);
    if Safe(s, last) {
      StairsSafe(s, last, older, es, newer, late);
    }
  }

  /** Packets are numbered from 1 on. */
  predicate Numbered(ps: seq<Packet>) {
    forall i :: 0 <= i < |ps| ==> ps[i].id == i + 1
  }

  lemma {:induction false} NumberedWhole(ps: seq<Packet>)
    requires Numbered(ps)
    ensures Whole(multiset(ps)) && forall q :: q in ps ==> q.id <= |ps|
  {
    if ps != [] {
      NumberedWhole(ps[..|ps| - 1]);
      LastOf(ps);
    }
  }

  function Frames(n: nat, late: int, id: nat): seq<Packet> {
    seq(n, i requires 0 <= i < n => Packet(late, 0, 0, id + i))
  }

  function Steps(): seq<Packet> {
    [Packet(4, END_FRAME, 1, 22), Packet(3, END_FRAME, 1, 23), Packet(2, END_FRAME, 1, 24), Packet(1, END_FRAME, 1, 25)]
  }

  /** One packet of frame 0, twenty of frame 9, the ends of frames 4 to 1, twenty
      more of frame 9, and the end of frame 0. */
  function Input(): seq<Packet> {
    [Packet(0, 0, 0, 1)] + (Frames(20, 9, 2) + Steps() + Frames(20, 9, 26)) + [Packet(0, END_FRAME, 2, 46)]
  }

  lemma {:induction false} FramesEnds(n: nat, late: int, id: nat)
    ensures Ends(Frames(n, late, id)) == 0
    decreases n
  {
    if n > 0 {
      assert Frames(n, late, id)[1..] == Frames(n - 1, late, id + 1);
      FramesEnds(n - 1, late, id + 1);
    }
  }

  lemma InputEnds()
    ensures Ends(Frames(20, 9, 2) + Steps() + Frames(20, 9, 26)) == 4
  {
    FramesEnds(20, 9, 2);
    FramesEnds(20, 9, 26);
    EndsAppend(Frames(20, 9, 2) + Steps(), Frames(20, 9, 26));
    EndsAppend(Frames(20, 9, 2), Steps());
    StepsEnds();
  }

  lemma StepsEnds()
    ensures Ends(Steps()) == 4
  {
    var s := Steps();
    assert s[1..][1..][1..][1..] == [];
  }

  lemma InputWrites()
    ensures Writes(20, 4) == 86
  {}

  lemma InputNumbered()
    ensures Numbered(Input()) && |Input()| == 46
  {}

  lemma InputUnsafe(ps: seq<Packet>)
    requires ps == Input()
    ensures !AllSafe(ps) && |ps| == 46 && |SubmitAll(INITIAL, ps[..45]).window| == 44
  {
    var first, last := Packet(0, 0, 0, 1), Packet(0, END_FRAME, 2, 46);
    var older, es, newer := Frames(20, 9, 2), Steps(), Frames(20, 9, 26);
    InputEnds();
    InputWrites();
    StairsUnsafe(first, older, es, newer, 9, last);
    assert ps[..45] == [first] + (older + es + newer);
  }

  /** With no more than 44 packets waiting, the ring loses some of this input. */
  lemma LossAt44(ps: seq<Packet>)
    requires ps == Input()
    ensures Whole(multiset(ps)) && !AllSafe(ps) && !Conserved(RingAll(ps), ps)
    ensures |ps| == 46 && |SubmitAll(INITIAL, ps[..45]).window| == 44
  {
    InputNumbered();
    NumberedWhole(ps);
    InputUnsafe(ps);
    RunExact(ps);
  }
}
