/** The end-of-frame callback of a frame is the last one of its timestamp. */
module RecvEndFrame {
  import opened RecvQueue
  import opened RecvStream

  /** The packets of one frame and timestamp. */
  function Key(s: set<Packet>, fid: int, ts: int): set<Packet> {
    set p | p in s && p.fid == fid && p.timestamp == ts
  }

  function Same(s: set<Packet>, e: Packet): set<Packet> {
    Key(s, e.fid, e.timestamp)
  }

  function Elems(s: seq<Packet>): set<Packet> {
    set p | p in s
  }

  /** All that is ever sent: at most one end-of-frame packet for each frame and
      timestamp, carrying the true number of packets. */
  predicate Truthful(traffic: set<Packet>) {
    forall e :: e in traffic && e.IsEnd() ==>
      && e.count == |Same(traffic, e)|
      && forall f :: f in Same(traffic, e) && f.IsEnd() ==> f == e
  }

  predicate Genuine(s: Stream, step: Step, traffic: set<Packet>) {
    step.Arrive? ==> step.packet in traffic && step.packet !in s.arrived
  }

  predicate AllGenuine(s: Stream, steps: seq<Step>, traffic: set<Packet>)
    requires AllAllowed(s, steps)
    decreases |steps|
  {
    steps != [] ==> Genuine(s, steps[0], traffic) && AllGenuine(Apply(s, steps[0]), steps[1..], traffic)
  }

  // ----------------------------------------------------- completeness counting

  /** The counter is the number of packets that came in, less the announced
      total once that is known. */
  predicate Counts(q: Queue, came: set<Packet>, ts: int) {
    && (ts in q.incomplete ==> q.incomplete[ts] != 0)
    && (forall e :: e in came && e.IsEnd() ==> Missing(q, ts) == |came| - e.count)
    && ((forall e :: e in came ==> !e.IsEnd()) ==> Missing(q, ts) == |came|)
  }

  ghost predicate Counting(s: Stream, traffic: set<Packet>) {
    && (forall p :: p in s.arrived ==> p in traffic && p.fid in s.queues)
    && (forall fid, ts :: fid in s.queues ==> Counts(s.queues[fid], Key(Elems(s.arrived), fid, ts), ts))
  }

  lemma KeyMore(s: seq<Packet>, p: Packet, fid: int, ts: int)
    requires p !in s
    ensures Key(Elems(s + [p]), fid, ts)
         == if p.fid == fid && p.timestamp == ts then Key(Elems(s), fid, ts) + {p} else Key(Elems(s), fid, ts)
  {}

  lemma InsertCounts(q: Queue, came: set<Packet>, p: Packet)
    requires Counts(q, came, p.timestamp) && p !in came
    requires p.IsEnd() ==> forall e :: e in came ==> !e.IsEnd()
    ensures Counts(Inserted(q, p), came + {p}, p.timestamp)
  {}

  lemma ArriveCounting(s: Stream, p: Packet, traffic: set<Packet>)
    requires Counting(s, traffic) && Truthful(traffic)
    requires Allowed(s, Arrive(p)) && Genuine(s, Arrive(p), traffic)
    ensures Counting(Apply(s, Arrive(p)), traffic)
  {
    var r := Apply(s, Arrive(p));
    forall fid, ts | fid in r.queues
      ensures Counts(r.queues[fid], Key(Elems(r.arrived), fid, ts), ts)
    {
      KeyMore(s.arrived, p, fid, ts);
      var came := Key(Elems(s.arrived), fid, ts);
      if fid == p.fid {
        assert Counts(s.queues[fid], came, ts);
        if ts == p.timestamp {
          assert forall e :: e in came ==> e in Same(traffic, p);
          InsertCounts(s.queues[fid], came, p);
        }
      }
    }
  }

  lemma KeepsCounting(s: Stream, step: Step, traffic: set<Packet>)
    requires Counting(s, traffic) && Truthful(traffic) && Allowed(s, step) && Genuine(s, step, traffic)
    ensures Counting(Apply(s, step), traffic)
  {
    var r := Apply(s, step);
    if step.Arrive? {
      ArriveCounting(s, step.packet, traffic);
    } else {
      forall fid, ts | fid in r.queues
        ensures Counts(r.queues[fid], Key(Elems(r.arrived), fid, ts), ts)
      {
        if fid in s.queues {
          assert Counts(s.queues[fid], Key(Elems(s.arrived), fid, ts), ts);
        } else {
          assert Key(Elems(s.arrived), fid, ts) == {};
        }
      }
    }
  }

  lemma SubsetSameSize(a: set<Packet>, b: set<Packet>)
    requires a <= b && |a| == |b|
    ensures a == b
  {
    assert |b - a| == |b| - |a|;
  }

  /** A timestamp that is not marked incomplete has come in whole. */
  lemma Complete(s: Stream, traffic: set<Packet>, p: Packet)
    requires Counting(s, traffic) && Truthful(traffic) && p in s.arrived
    requires p.timestamp !in s.queues[p.fid].incomplete
    ensures Same(Elems(s.arrived), p) == Same(traffic, p)
  {
    var came := Same(Elems(s.arrived), p);
    assert Counts(s.queues[p.fid], came, p.timestamp);
    assert p in came;
    assert |came| > 0;
    var e :| e in came && e.IsEnd();
    assert Same(traffic, e) == Same(traffic, p);
    SubsetSameSize(came, Same(traffic, p));
  }

  // ------------------------------------------------------------- the pipeline

  predicate Taken(s: Stream, p: Packet) {
    p in s.launched || p in Pending(s)
  }

  /** When an end-of-frame packet leaves its queue, the whole frame has. */
  predicate TakenWhole(s: Stream, traffic: set<Packet>) {
    forall e, p :: e in traffic && e.IsEnd() && Taken(s, e) && p in Same(traffic, e) ==> Taken(s, p)
  }

  ghost predicate Kept(s: Stream) {
    OwnPackets(s) && forall p :: Conserved(s, p)
  }

  /** What came in and is not taken is waiting in its queue. */
  lemma ArrivedSomewhere(s: Stream, p: Packet)
    requires Kept(s)
    ensures p in s.arrived <==> Taken(s, p) || p in Waiting(s, p.fid)
  {
    assert Conserved(s, p);
    assert p in s.arrived <==> multiset(s.arrived)[p] > 0;
    assert p in s.launched <==> multiset(s.launched)[p] > 0;
    assert p in Pending(s) <==> multiset(Pending(s))[p] > 0;
    assert p in Waiting(s, p.fid) <==> multiset(Waiting(s, p.fid))[p] > 0;
  }

  /** A pass that releases an end-of-frame packet releases the rest of its frame. */
  lemma ReleasedWhole(s: Stream, traffic: set<Packet>, e: Packet, p: Packet)
    requires Kept(s) && Counting(s, traffic) && Truthful(traffic)
    requires Allowed(s, CollectNext) && e.IsEnd() && p in Same(traffic, e)
    requires e in Released(s.queues[s.phase.fids[0]], s.phase.pass)
    ensures Taken(Apply(s, CollectNext), p)
  {
    var q := s.queues[s.phase.fids[0]];
    assert e in q.waiting && e.fid == s.phase.fids[0];
    ArrivedSomewhere(s, e);
    Complete(s, traffic, e);
    assert p in Same(Elems(s.arrived), e);
    ArrivedSomewhere(s, p);
    if p in q.waiting {
      assert Ready(q, s.phase.pass, p);
    }
  }

  lemma CollectWhole(s: Stream, traffic: set<Packet>)
    requires Kept(s) && Counting(s, traffic) && Truthful(traffic) && TakenWhole(s, traffic)
    requires Allowed(s, CollectNext)
    ensures TakenWhole(Apply(s, CollectNext), traffic)
  {
    var r := Apply(s, CollectNext);
    forall e, p | e in traffic && e.IsEnd() && Taken(r, e) && p in Same(traffic, e)
      ensures Taken(r, p)
    {
      if Taken(s, e) {
        assert Taken(s, p);
      } else {
        ReleasedWhole(s, traffic, e, p);
      }
    }
  }

  lemma SortedMembers(s: seq<Packet>, p: Packet)
    ensures p in Sorted(s) <==> p in s
  {
    SortedKeeps(s);
    assert p in Sorted(s) <==> p in multiset(Sorted(s));
    assert p in s <==> p in multiset(s);
  }

  lemma KeepsWhole(s: Stream, step: Step, traffic: set<Packet>)
    requires Kept(s) && Counting(s, traffic) && Truthful(traffic) && TakenWhole(s, traffic)
    requires Allowed(s, step) && Genuine(s, step, traffic)
    ensures TakenWhole(Apply(s, step), traffic)
  {
    var r := Apply(s, step);
    match step {
      case CollectNext => CollectWhole(s, traffic);
      case Dispatch =>
        forall p ensures Taken(r, p) <==> Taken(s, p) {
          SortedMembers(s.phase.batch, p);
        }
      case Launch =>
        assert s.phase.todo == [s.phase.todo[0]] + s.phase.todo[1..];
        assert forall p :: Taken(r, p) <==> Taken(s, p);
      case _ =>
        assert forall p :: Taken(r, p) <==> Taken(s, p);
    }
  }

  /** In the dispatch order an end-of-frame packet follows its frame. */
  predicate EndsLast(s: Stream, traffic: set<Packet>) {
    s.phase.Dispatching? ==>
      forall i, p :: 0 <= i < |s.phase.todo| && s.phase.todo[i].IsEnd()
                     && p in Same(traffic, s.phase.todo[i]) && p != s.phase.todo[i] ==>
        p in s.launched || p in s.phase.todo[..i]
  }

  lemma DispatchEndsLast(s: Stream, traffic: set<Packet>)
    requires Kept(s) && Counting(s, traffic) && Truthful(traffic) && TakenWhole(s, traffic)
    requires Allowed(s, Dispatch)
    ensures EndsLast(Apply(s, Dispatch), traffic)
  {
    var todo := Sorted(s.phase.batch);
    SortedKeeps(s.phase.batch);
    forall i, p | 0 <= i < |todo| && todo[i].IsEnd() && p in Same(traffic, todo[i]) && p != todo[i]
      ensures p in s.launched || p in todo[..i]
    {
      var e := todo[i];
      assert e in todo;
      SortedMembers(s.phase.batch, e);
      ArrivedSomewhere(s, e);
      assert Taken(s, e) && e in traffic;
      assert Taken(s, p);
      if p !in s.launched {
        SortedMembers(s.phase.batch, p);
        var j :| 0 <= j < |todo| && todo[j] == p;
        assert !p.IsEnd() && Before(p, e);
        assert j < i;
        assert todo[..i][j] == p;
      }
    }
  }

  lemma LaunchEndsLast(s: Stream, traffic: set<Packet>)
    requires EndsLast(s, traffic) && Allowed(s, Launch)
    ensures EndsLast(Apply(s, Launch), traffic)
  {
    var todo, rest := s.phase.todo, s.phase.todo[1..];
    var launched := s.launched + [todo[0]];
    forall i, p | 0 <= i < |rest| && rest[i].IsEnd() && p in Same(traffic, rest[i]) && p != rest[i]
      ensures p in launched || p in rest[..i]
    {
      assert rest[i] == todo[i + 1];
      assert p in s.launched || p in todo[..i + 1];
      assert todo[..i + 1] == [todo[0]] + rest[..i];
    }
  }

  // ---------------------------------------------------------------- callbacks

  /** A callback that was started is still running or has finished. */
  predicate Logged(s: Stream) {
    && (!s.phase.Dispatching? ==> s.running == {})
    && (forall p :: p in s.idle ==> p in s.running && p.IsVideo())
    && forall p :: p in s.launched ==>
         p in s.running || (s.phase.Dispatching? && s.phase.call == Calling(p)) || Finished(p) in s.log
  }

  lemma KeepsLogged(s: Stream, step: Step)
    requires Logged(s) && Allowed(s, step)
    ensures Logged(Apply(s, step))
  {
    var r := Apply(s, step);
    assert s.log <= r.log;
    assert forall e :: e in s.log ==> e in r.log;
    if step.FinishTask? || step.FinishCall? {
      assert r.log[|s.log|] in r.log;
    }
  }

  /** When an end-of-frame callback started, all others of its frame and
      timestamp had finished. */
  predicate EndsAfter(log: seq<Event>, traffic: set<Packet>) {
    forall i, p :: 0 <= i < |log| && log[i].Started? && log[i].packet.IsEnd()
                   && p in Same(traffic, log[i].packet) && p != log[i].packet ==>
      Finished(p) in log[..i]
  }

  lemma LogMore(log: seq<Event>, e: Event, traffic: set<Packet>)
    requires EndsAfter(log, traffic)
    requires e.Started? && e.packet.IsEnd() ==>
               forall p :: p in Same(traffic, e.packet) && p != e.packet ==> Finished(p) in log
    ensures EndsAfter(log + [e], traffic)
  {
    var r := log + [e];
    assert forall i :: 0 <= i <= |log| ==> r[..i] == log[..i];
    assert log[..|log|] == log;
  }

  lemma LaunchEndsAfter(s: Stream, traffic: set<Packet>)
    requires EndsLast(s, traffic) && Logged(s) && EndsAfter(s.log, traffic) && Allowed(s, Launch)
    ensures EndsAfter(Apply(s, Launch).log, traffic)
  {
    var e := s.phase.todo[0];
    if e.IsEnd() {
      forall p | p in Same(traffic, e) && p != e ensures Finished(p) in s.log {
        assert s.phase.todo[..0] == [];
        assert p in s.launched;
      }
    }
    if !e.IsVideo() {
      LogMore(s.log, Started(e), traffic);
    }
  }

  ghost predicate Inv(s: Stream, traffic: set<Packet>) {
    && Kept(s) && Counting(s, traffic) && TakenWhole(s, traffic)
    && EndsLast(s, traffic) && Logged(s) && EndsAfter(s.log, traffic)
  }

  lemma KeepsKept(s: Stream, step: Step)
    requires Kept(s) && Allowed(s, step)
    ensures Kept(Apply(s, step))
  {
    KeepsOwn(s, step);
    forall p ensures Conserved(Apply(s, step), p) {
      KeepsConserved(s, step, p);
    }
  }

  lemma KeepsEndsLast(s: Stream, step: Step, traffic: set<Packet>)
    requires Inv(s, traffic) && Truthful(traffic) && Allowed(s, step)
    ensures EndsLast(Apply(s, step), traffic) && EndsAfter(Apply(s, step).log, traffic)
  {
    match step {
      case Dispatch => DispatchEndsLast(s, traffic);
      case Launch =>
        LaunchEndsLast(s, traffic);
        LaunchEndsAfter(s, traffic);
      case Begin(p) => LogMore(s.log, Started(p), traffic);
      case FinishTask(p) => LogMore(s.log, Finished(p), traffic);
      case FinishCall => LogMore(s.log, Finished(s.phase.call.packet), traffic);
      case _ =>
    }
  }

  lemma KeepsInv(s: Stream, step: Step, traffic: set<Packet>)
    requires Inv(s, traffic) && Truthful(traffic) && Allowed(s, step) && Genuine(s, step, traffic)
    ensures Inv(Apply(s, step), traffic)
  {
    KeepsKept(s, step);
    KeepsCounting(s, step, traffic);
    KeepsWhole(s, step, traffic);
    KeepsEndsLast(s, step, traffic);
    KeepsLogged(s, step);
  }

  lemma {:induction false} RunKeepsInv(s: Stream, steps: seq<Step>, traffic: set<Packet>)
    requires Inv(s, traffic) && Truthful(traffic) && AllAllowed(s, steps) && AllGenuine(s, steps, traffic)
    ensures Inv(Run(s, steps), traffic)
    decreases |steps|
  {
    if steps != [] {
      KeepsInv(s, steps[0], traffic);
      RunKeepsInv(Apply(s, steps[0]), steps[1..], traffic);
    }
  }

  /** In every run, for any order of arrival, any interleaving with the passes
      and any buffering delays: an end-of-frame callback starts only after every
      other packet of its frame and timestamp has come in, been given to its
      callback, and that callback has finished. */
  lemma EndFrameIsLast(steps: seq<Step>, traffic: set<Packet>, i: nat, p: Packet)
    requires Truthful(traffic) && AllAllowed(INITIAL, steps) && AllGenuine(INITIAL, steps, traffic)
    requires var log := Run(INITIAL, steps).log;
             i < |log| && log[i].Started? && log[i].packet.IsEnd()
             && p in Same(traffic, log[i].packet) && p != log[i].packet
    ensures Finished(p) in Run(INITIAL, steps).log[..i]
  {
    RunKeepsInv(INITIAL, steps, traffic);
  }
}
