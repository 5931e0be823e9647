/** Conditions under which a call is safe that can be checked before it: a short
    window, or one without end-of-frame packets. */
module RingBound {
  import opened PacketManager
  import opened PacketRing
  import opened RingSafe
  import opened RingRuns

  // ------------------------------------------------- few writes make a call safe

  /** A call is safe if all its writes are within 100 positions of `own`. */
  lemma {:induction false} SubmitWithin(s: State, p: Packet, own: int, keep: Keep)
    requires own <= ReadPos(s) && (keep.From? ==> own <= keep.index <= ReadPos(s)) && Submit(s, p).writePos - own <= SLOTS
    ensures SubmitSafe(s, p, own, keep)
    decreases |s.window| + 1, if s.timestamp < p.timestamp then 2 else 0, 0
  {
    if s.timestamp == p.timestamp {
      var s1 := Delivered(s, p);
      if s1.processed == s1.expected && s1.window != [] {
        WindowWithin(s1, own, keep, false);
      }
    } else if s.timestamp < p.timestamp {
      if s.timestamp == IDLE {
        SubmitWithin(s.(timestamp := p.timestamp), p, own, keep);
      } else {
        var s1 := Buffered(s, p);
        if s1.waitingEnds > MAX_WAITING {
          WindowWithin(s1, own, keep, true);
        }
      }
    }
  }

  lemma {:induction false} WindowWithin(s: State, own: int, keep: Keep, clear: bool)
    requires s.window != [] && own <= ReadPos(s) && (keep.From? ==> own <= keep.index <= ReadPos(s))
    requires Drain(Reopened(s), s.window, |s.window|).writePos - own <= SLOTS
    ensures WindowSafe(s, keep, clear)
    decreases |s.window|, 1, |s.window| + 1
  {
    DrainWithin(Reopened(s), s.window, |s.window|, ReadPos(s), own, keep, clear);
  }

  lemma {:induction false} DrainWithin(s: State, ps: seq<Packet>, bound: nat, i: int, own: int, keep: Keep, clear: bool)
    requires CanDrain(s, ps, bound) && own <= i && i + |ps| <= ReadPos(s) && (keep.From? ==> own <= keep.index <= i)
    requires Drain(s, ps, bound).writePos - own <= SLOTS
    ensures DrainSafe(s, ps, bound, i, keep, clear)
    decreases bound, 1, |ps|
  {
    if ps != [] {
      var s1, s2 := Uncounted(s, ps[0]), AfterFirst(s, ps, bound);
      SubmitWithin(s1, ps[0], Oldest(keep, i), Rest(keep, i, |ps|));
      DrainWithin(s2, ps[1..], bound, i + 1, own, keep, clear);
      FreeWithin(s2, i);
    }
  }

  lemma FreeWithin(s: State, i: int)
    requires i < ReadPos(s) && s.writePos <= i + SLOTS
    ensures Free(s, i)
  {
    forall j | ReadPos(s) <= j < s.writePos ensures SlotOf(j) != SlotOf(i) {
      NoAlias(i, j);
    }
  }

  // ------------------------------------------------------- how many writes there are

  /** 0 + 1 + ... + (n - 1). */
  function Tri(n: nat): nat {
    if n == 0 then 0 else Tri(n - 1) + n - 1
  }

  lemma {:induction false} TriGrows(a: nat, b: nat, k: nat)
    requires a <= b
    ensures Tri(a + k) - Tri(a) <= Tri(b + k) - Tri(b)
  {
    if k > 0 {
      TriGrows(a, b, k - 1);
    }
  }

  /** The packet is delivered as soon as it is submitted. */
  predicate Prompt(s: State, p: Packet) {
    p.timestamp <= s.timestamp || s.timestamp == IDLE
  }

  /** Nothing that waits is earlier than `t`, and neither is the open frame. */
  predicate Late(s: State, t: int) {
    && (t <= s.timestamp || s.timestamp == IDLE)
    && forall i :: 0 <= i < |s.window| ==> t <= s.window[i].timestamp
  }

  predicate AllLate(ps: seq<Packet>, t: int) {
    forall i :: 0 <= i < |ps| ==> t <= ps[i].timestamp
  }

  lemma {:induction false} SubmitLate(s: State, p: Packet, t: int)
    requires Late(s, t) && t <= p.timestamp
    ensures Late(Submit(s, p), t)
    decreases |s.window| + 1, if s.timestamp < p.timestamp then 2 else 0, 0
  {
    if s.timestamp == p.timestamp {
      var s1 := Delivered(s, p);
      if s1.processed == s1.expected && s1.window != [] {
        WindowLate(s1, t);
      }
    } else if s.timestamp < p.timestamp {
      if s.timestamp == IDLE {
        SubmitLate(s.(timestamp := p.timestamp), p, t);
      } else {
        var s1 := Buffered(s, p);
        if s1.waitingEnds > MAX_WAITING {
          WindowLate(s1, t);
        }
      }
    }
  }

  lemma EarliestLate(ps: seq<Packet>, t: int)
    requires ps != [] && AllLate(ps, t)
    ensures t <= Earliest(ps)
  {
    var i :| 0 <= i < |ps| && ps[i].timestamp == Earliest(ps);
  }

  lemma {:induction false} WindowLate(s: State, t: int)
    requires s.window != [] && AllLate(s.window, t)
    ensures Late(Drain(Reopened(s), s.window, |s.window|), t)
    decreases |s.window|, 1, |s.window| + 1
  {
    EarliestLate(s.window, t);
    DrainLate(Reopened(s), s.window, |s.window|, t);
  }

  lemma {:induction false} DrainLate(s: State, ps: seq<Packet>, bound: nat, t: int)
    requires CanDrain(s, ps, bound) && Late(s, t) && AllLate(ps, t)
    ensures Late(Drain(s, ps, bound), t)
    decreases bound, 1, |ps|
  {
    if ps != [] {
      SubmitLate(Uncounted(s, ps[0]), ps[0], t);
      DrainLate(AfterFirst(s, ps, bound), ps[1..], bound, t);
    }
  }

  /** Each drain delivers one packet in its own loop, so the writes of a call are
      paid for by the packets that leave. */
  lemma {:induction false} SubmitWrites(s: State, p: Packet)
    ensures var r := Submit(s, p);
            r.writePos + Tri(|r.window|) <=
            s.writePos + Tri(|s.window|) + if Prompt(s, p) then 0 else |s.window| + 1
    decreases |s.window| + 1, if s.timestamp < p.timestamp then 2 else 0, 0
  {
    if s.timestamp == p.timestamp {
      var s1 := Delivered(s, p);
      if s1.processed == s1.expected && s1.window != [] {
        WindowWrites(s1);
      }
    } else if s.timestamp < p.timestamp {
      if s.timestamp == IDLE {
        SubmitWrites(s.(timestamp := p.timestamp), p);
      } else {
        var s1 := Buffered(s, p);
        if s1.waitingEnds > MAX_WAITING {
          WindowWrites(s1);
        }
      }
    }
  }

  lemma {:induction false} WindowWrites(s: State)
    requires s.window != []
    ensures var r := Drain(Reopened(s), s.window, |s.window|);
            r.writePos + Tri(|r.window|) <= s.writePos + Tri(|s.window|)
    decreases |s.window|, 1, |s.window| + 1
  {
    var t := Earliest(s.window);
    EarliestComes(s.window);
    DrainWrites(Reopened(s), s.window, |s.window|, t);
  }

  lemma EarliestComes(ps: seq<Packet>)
    requires ps != []
    ensures AllLate(ps, Earliest(ps)) && Coming(ps, Earliest(ps))
  {}

  /** The packet with the earliest timestamp of all is still to come. */
  predicate Coming(ps: seq<Packet>, t: int) {
    exists p :: p in ps && p.timestamp == t
  }

  /** Writes and packets left, `sum`, for a loop over `n` packets with `a` waiting. */
  predicate Paid(a: nat, n: nat, was: nat, sum: nat, coming: bool) {
    sum <= was + Tri(a + n) + n && (coming ==> n > 0 && sum <= was + Tri(a + (n - 1)) + n - 1)
  }

  function Sum(s: State): nat {
    s.writePos + Tri(|s.window|)
  }

  lemma {:induction false} DrainWrites(s: State, ps: seq<Packet>, bound: nat, t: int)
    requires CanDrain(s, ps, bound) && Late(s, t) && AllLate(ps, t)
    ensures Paid(|s.window|, |ps|, s.writePos, Sum(Drain(s, ps, bound)), Coming(ps, t))
    decreases bound, 1, |ps|
  {
    if ps != [] {
      var s1, s2 := Uncounted(s, ps[0]), AfterFirst(s, ps, bound);
      SubmitWrites(s1, ps[0]);
      SubmitLate(s1, ps[0], t);
      PromptShrinks(s1, ps[0]);
      ComingNext(s, ps, t);
      DrainWrites(s2, ps[1..], bound, t);
      WritesAdd(|s.window|, |s2.window|, |ps| - 1, s.writePos, s2.writePos, Sum(Drain(s2, ps[1..], bound)),
                Prompt(s, ps[0]), Coming(ps[1..], t));
    }
  }

  lemma ComingNext(s: State, ps: seq<Packet>, t: int)
    requires Late(s, t) && ps != []
    ensures Coming(ps, t) ==> Prompt(s, ps[0]) || Coming(ps[1..], t)
  {
    if Coming(ps, t) {
      var p :| p in ps && p.timestamp == t;
      assert p == ps[0] || p in ps[1..];
    }
  }

  lemma TriNext(n: nat)
    ensures Tri(n + 1) == Tri(n) + n
  {}

  /** The sums for one turn of the loop, from `a` packets waiting to `w`, with `n`
      still to come. */
  lemma {:induction false} WritesAdd(a: nat, w: nat, n: nat, was: nat, now: nat, sum: nat, prompt: bool, coming: bool)
    requires w <= a + 1 && (prompt ==> w <= a)
    requires now + Tri(w) <= was + Tri(a) + if prompt then 0 else a + 1
    requires Paid(w, n, now, sum, coming)
    ensures Paid(a, n + 1, was, sum, prompt || coming)
  {
    if prompt {
      AddPrompt(a, w, n, was, now, sum);
    } else {
      AddLate(a, w, n, was, now, sum);
      if coming {
        AddLate(a, w, n - 1, was, now, sum);
      }
    }
  }

  lemma {:induction false} AddPrompt(a: nat, w: nat, n: nat, was: nat, now: nat, sum: nat)
    requires w <= a && now + Tri(w) <= was + Tri(a) && sum <= now + Tri(w + n) + n
    ensures sum <= was + Tri(a + n) + n && Tri(a + n) <= Tri(a + (n + 1))
  {
    TriGrows(w, a, n);
    TriNext(a + n);
    assert a + n + 1 == a + (n + 1);
  }

  lemma {:induction false} AddLate(a: nat, w: nat, n: nat, was: nat, now: nat, sum: nat)
    requires w <= a + 1 && now + Tri(w) <= was + Tri(a) + a + 1 && sum <= now + Tri(w + n) + n
    ensures sum <= was + Tri(a + (n + 1)) + n + 1
  {
    TriNext(a);
    TriGrows(w, a + 1, n);
    assert a + 1 + n == a + (n + 1);
  }

  lemma PromptShrinks(s: State, p: Packet)
    ensures |Submit(s, p).window| <= |s.window| + 1
    ensures Prompt(s, p) ==> |Submit(s, p).window| <= |s.window|
  {}

  /** No call writes more than this, and it can be told before the call. */
  lemma WritesBound(s: State, p: Packet)
    ensures Submit(s, p).writePos <= s.writePos + Tri(|s.window| + 1) + 1
  {
    SubmitWrites(s, p);
  }

  /** With up to twelve packets waiting, whatever they are, a call is safe. */
  lemma ShortWindowSafe(s: State, p: Packet)
    requires |s.window| <= 12
    ensures Safe(s, p)
  {
    WritesBound(s, p);
    TriAtMost(|s.window| + 1);
    SubmitWithin(s, p, ReadPos(s), Nothing);
  }

  lemma {:induction false} TriAtMost(n: nat)
    requires n <= 13
    ensures Tri(n) <= 78
  {
    assert Tri(13) == 78;
    TriMonotone(n, 13);
  }

  lemma {:induction false} TriMonotone(a: nat, b: nat)
    requires a <= b
    ensures Tri(a) <= Tri(b)
    decreases b
  {
    if a < b {
      TriMonotone(a, b - 1);
    }
  }

  // ------------------------------------------------------ windows without end frames

  predicate NoEnds(ps: seq<Packet>) {
    forall i :: 0 <= i < |ps| ==> !ps[i].IsEnd()
  }

  /** A drain of such packets starts no other, and writes behind where it reads. */
  lemma {:induction false} CalmDrain(s: State, ps: seq<Packet>, bound: nat, i: int)
    requires CanDrain(s, ps, bound) && NoEnds(ps) && s.waitingEnds <= MAX_WAITING && s.expected == -1
    requires s.writePos - i < SLOTS
    ensures DrainSafe(s, ps, bound, i, Nothing, false)
    decreases |ps|
  {
    if ps != [] {
      CalmStep(s, ps[0]);
      CalmDrain(AfterFirst(s, ps, bound), ps[1..], bound, i + 1);
    }
  }

  lemma CalmStep(s: State, p: Packet)
    requires !p.IsEnd() && s.waitingEnds <= MAX_WAITING && s.expected == -1
    ensures var r := Submit(s, p);
            r.waitingEnds == s.waitingEnds && r.expected == -1 && r.writePos <= s.writePos + 1
    ensures forall own, keep :: s.writePos - own < SLOTS ==> SubmitSafe(s, p, own, keep)
  {}

  /** If fewer than 100 packets wait and none is an end of frame, a call is safe. */
  lemma CalmSafe(s: State, p: Packet)
    requires NoEnds(s.window) && |s.window| < SLOTS && s.waitingEnds < MAX_WAITING
    ensures Safe(s, p)
  {
    if s.timestamp == p.timestamp {
      CalmCall(s, p);
    } else if s.timestamp == IDLE && s.timestamp < p.timestamp {
      CalmCall(s.(timestamp := p.timestamp), p);
    }
  }

  lemma CalmCall(s: State, p: Packet)
    requires NoEnds(s.window) && |s.window| < SLOTS && s.waitingEnds < MAX_WAITING && s.timestamp == p.timestamp
    ensures Safe(s, p)
  {
    var s1 := Delivered(s, p);
    if s1.processed == s1.expected && s1.window != [] {
      CalmDrain(Reopened(s1), s1.window, |s1.window|, ReadPos(s1));
    }
  }
}
