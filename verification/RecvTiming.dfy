/** When packets leave the receive buffer: on time, and not before. All times are the
    numbers of the streams and passes themselves: milliseconds, and microseconds for
    the clock of a pass. */
module RecvTiming {
  import opened RecvQueue
  import opened RecvStream
  import opened RecvEndFrame

  // ------------------------------------------------------------- one visit

  /** All packets of the packet's frame and timestamp have come in, its end among them. */
  predicate Whole(s: Stream, traffic: set<Packet>, p: Packet) {
    Same(Elems(s.arrived), p) == Same(traffic, p) && exists e :: e in Same(traffic, p) && e.IsEnd()
  }

  /** The marks for incomplete timestamps are right. */
  lemma {:induction false} MarkedIff(s: Stream, traffic: set<Packet>, p: Packet)
    requires Counting(s, traffic) && Truthful(traffic) && p in s.arrived
    ensures p.timestamp !in s.queues[p.fid].incomplete <==> Whole(s, traffic, p)
  {
    var came := Same(Elems(s.arrived), p);
    assert Counts(s.queues[p.fid], came, p.timestamp);
    if p.timestamp !in s.queues[p.fid].incomplete {
      Complete(s, traffic, p);
      assert p in came;
      assert |came| > 0;
      var e :| e in came && e.IsEnd();
      assert e in Same(traffic, p);
    }
    if Whole(s, traffic, p) {
      WholeUnmarked(s, traffic, p);
    }
  }

  lemma {:induction false} WholeUnmarked(s: Stream, traffic: set<Packet>, p: Packet)
    requires Counting(s, traffic) && Truthful(traffic) && p in s.arrived && Whole(s, traffic, p)
    ensures p.timestamp !in s.queues[p.fid].incomplete
  {
    var e :| e in Same(traffic, p) && e.IsEnd();
    assert Same(traffic, e) == Same(traffic, p);
    assert Counts(s.queues[p.fid], Same(Elems(s.arrived), p), p.timestamp);
  }

  lemma {:induction false} WaitingArrived(s: Stream, p: Packet)
    requires Conserved(s, p) && p in Waiting(s, p.fid)
    ensures p in s.arrived
  {
    assert multiset(Waiting(s, p.fid))[p] > 0;
    assert p in multiset(s.arrived);
  }

  lemma {:induction false} RunCounts(s: Stream, steps: seq<Step>, traffic: set<Packet>)
    requires AllAllowed(s, steps) && AllGenuine(s, steps, traffic) && Truthful(traffic) && Counting(s, traffic)
    ensures Counting(Run(s, steps), traffic)
    decreases |steps|
  {
    if steps != [] {
      KeepsCounting(s, steps[0], traffic);
      RunCounts(Apply(s, steps[0]), steps[1..], traffic);
    }
  }

  /** A packet waiting in the queue that a pass visits is taken if and only if the time
      of the pass is past its release time, and its frame has come in whole or need not
      have: the sync option is off and it is not the end of its frame. */
  lemma {:induction false} TakenExactly(steps: seq<Step>, traffic: set<Packet>, p: Packet)
    requires AllAllowed(INITIAL, steps) && AllGenuine(INITIAL, steps, traffic) && Truthful(traffic)
    requires var s := Run(INITIAL, steps);
             Allowed(s, CollectNext) && p.fid == s.phase.fids[0] && p in s.queues[p.fid].waiting
    ensures var s := Run(INITIAL, steps);
            var (q, pass, r) := (s.queues[p.fid], s.phase.pass, Apply(s, CollectNext));
            var taken := 1000 * (q.localBase + (p.timestamp - q.tsBase) + pass.buffering) < pass.now
                         && (Whole(s, traffic, p) || (!pass.sync && p.channel != 2048));
            if taken then p in r.phase.batch && p !in r.queues[p.fid].waiting else p in r.queues[p.fid].waiting
  {
    var s := Run(INITIAL, steps);
    RunCounts(INITIAL, steps, traffic);
    RunConservesFromStart(steps, p);
    WaitingArrived(s, p);
    MarkedIff(s, traffic, p);
  }

  // ------------------------------------------------------------- whole runs

  /** The queue of the frame was opened with these bases, and a pass began that was late
      enough for the packet. */
  predicate InTime(steps: seq<Step>, p: Packet, i: nat, j: nat) {
    && i < |steps| && j < |steps| && steps[i].Open? && steps[i].fid == p.fid && steps[j].BeginPass?
    && 1000 * (steps[i].localBase + (p.timestamp - steps[i].tsBase) + steps[j].pass.buffering) < steps[j].pass.now
  }

  ghost predicate TakenInTime(steps: seq<Step>, p: Packet) {
    exists i: nat, j: nat :: InTime(steps, p, i, j)
  }

  ghost predicate OpenedBy(steps: seq<Step>, fid: int, q: Queue) {
    exists i: nat :: i < |steps| && steps[i] == Open(fid, q.tsBase, q.localBase)
  }

  ghost predicate BegunBy(steps: seq<Step>, pass: Pass) {
    exists j: nat :: j < |steps| && steps[j].BeginPass? && steps[j].pass == pass
  }

  ghost predicate Timed(s: Stream, steps: seq<Step>) {
    && OwnPackets(s)
    && (forall fid :: fid in s.queues ==> OpenedBy(steps, fid, s.queues[fid]))
    && (s.phase.Collecting? ==> BegunBy(steps, s.phase.pass))
    && (forall p :: p in s.launched || p in Pending(s) ==> TakenInTime(steps, p))
  }

  lemma {:induction false} MoreSteps(steps: seq<Step>, step: Step, p: Packet)
    requires TakenInTime(steps, p)
    ensures TakenInTime(steps + [step], p)
  {
    var i: nat, j: nat :| InTime(steps, p, i, j);
    assert InTime(steps + [step], p, i, j);
  }

  lemma {:induction false} MoreOpened(steps: seq<Step>, step: Step, fid: int, q: Queue)
    requires OpenedBy(steps, fid, q)
    ensures OpenedBy(steps + [step], fid, q)
  {
    var i: nat :| i < |steps| && steps[i] == Open(fid, q.tsBase, q.localBase);
    assert (steps + [step])[i] == Open(fid, q.tsBase, q.localBase);
  }

  lemma {:induction false} MoreBegun(steps: seq<Step>, step: Step, pass: Pass)
    requires BegunBy(steps, pass)
    ensures BegunBy(steps + [step], pass)
  {
    var j: nat :| j < |steps| && steps[j].BeginPass? && steps[j].pass == pass;
    assert (steps + [step])[j] == steps[j];
  }

  lemma {:induction false} ReleasedInTime(steps: seq<Step>, fid: int, q: Queue, pass: Pass, p: Packet)
    requires OpenedBy(steps, fid, q) && BegunBy(steps, pass) && p in Released(q, pass) && p.fid == fid
    ensures TakenInTime(steps, p)
  {
    var i: nat :| i < |steps| && steps[i] == Open(fid, q.tsBase, q.localBase);
    var j: nat :| j < |steps| && steps[j].BeginPass? && steps[j].pass == pass;
    assert InTime(steps, p, i, j);
  }

  lemma {:induction false} QueuesOpened(s: Stream, steps: seq<Step>, step: Step)
    requires Timed(s, steps) && Allowed(s, step)
    ensures var r := Apply(s, step);
            forall fid :: fid in r.queues ==> OpenedBy(steps + [step], fid, r.queues[fid])
  {
    var r := Apply(s, step);
    forall fid | fid in r.queues ensures OpenedBy(steps + [step], fid, r.queues[fid]) {
      if fid in s.queues {
        MoreOpened(steps, step, fid, s.queues[fid]);
      } else {
        assert (steps + [step])[|steps|] == step;
      }
    }
  }

  lemma {:induction false} PacketsTimed(s: Stream, steps: seq<Step>, step: Step, p: Packet)
    requires Timed(s, steps) && Allowed(s, step)
    requires p in Apply(s, step).launched || p in Pending(Apply(s, step))
    ensures TakenInTime(steps + [step], p)
  {
    if step.Dispatch? {
      SortedMembers(s.phase.batch, p);
    }
    if p in s.launched || p in Pending(s) {
      MoreSteps(steps, step, p);
    } else if step.CollectNext? {
      var fid := s.phase.fids[0];
      assert p in Released(s.queues[fid], s.phase.pass) && p.fid == fid;
      ReleasedInTime(steps, fid, s.queues[fid], s.phase.pass, p);
      MoreSteps(steps, step, p);
    }
  }

  lemma {:induction false} KeepsTimed(s: Stream, steps: seq<Step>, step: Step)
    requires Timed(s, steps) && Allowed(s, step)
    ensures Timed(Apply(s, step), steps + [step])
  {
    var r := Apply(s, step);
    KeepsOwn(s, step);
    QueuesOpened(s, steps, step);
    if step.BeginPass? {
      assert (steps + [step])[|steps|] == step;
    } else if r.phase.Collecting? {
      MoreBegun(steps, step, s.phase.pass);
    }
    forall p | p in r.launched || p in Pending(r) ensures TakenInTime(steps + [step], p) {
      PacketsTimed(s, steps, step, p);
    }
  }

  lemma {:induction false} RunTimed(steps: seq<Step>)
    requires AllAllowed(INITIAL, steps)
    ensures Timed(Run(INITIAL, steps), steps)
  {
    if steps != [] {
      var init, last := steps[..|steps| - 1], steps[|steps| - 1];
      assert steps == init + [last];
      RunSplit(INITIAL, init, last);
      RunTimed(init);
      KeepsTimed(Run(INITIAL, init), init, last);
    }
  }

  lemma {:induction false} RunSplit(s: Stream, steps: seq<Step>, last: Step)
    requires AllAllowed(s, steps + [last])
    ensures AllAllowed(s, steps) && Allowed(Run(s, steps), last) && Run(s, steps + [last]) == Apply(Run(s, steps), last)
    decreases |steps|
  {
    if steps == [] {
      assert steps + [last] == [last] && [last][1..] == [];
    } else {
      assert (steps + [last])[1..] == steps[1..] + [last];
      RunSplit(Apply(s, steps[0]), steps[1..], last);
    }
  }

  /** In every run: a packet that was handed to a callback or is on its way there was
      taken by a pass whose time was past the release time of the packet. */
  lemma NeverEarly(steps: seq<Step>, p: Packet)
    requires AllAllowed(INITIAL, steps) && p in Run(INITIAL, steps).launched
    ensures TakenInTime(steps, p)
  {
    RunTimed(steps);
  }
}
