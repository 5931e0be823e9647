/** Video callbacks over whole runs from the empty stream: when a pass of distinct
    packets is not segmented, the pool can always start them out of arrival order. */
module RecvVideoRuns {
  import opened RecvQueue
  import opened RecvStream
  import opened RecvOrder
  import opened RecvVideo

  function Once(b: bool): nat {
    if b then 1 else 0
  }

  /** A packet handed over has begun or is idle. */
  predicate Balanced(s: Stream, x: Packet) {
    multiset(Starts(s.log))[x] + Once(x in s.idle) == multiset(s.launched)[x]
  }

  /** Only a pass that dispatches has packets in the pool. */
  predicate Resting(s: Stream) {
    s.idle <= s.running && (!s.phase.Dispatching? ==> s.running == {})
  }

  /** A packet that came in once is not idle while it waits to be handed over. */
  lemma NotIdle(s: Stream, x: Packet)
    requires Balanced(s, x) && Conserved(s, x) && multiset(s.arrived)[x] <= 1 && x in Pending(s)
    ensures x !in s.idle
  {
    assert multiset(Pending(s))[x] >= 1;
  }

  lemma {:induction false} LaunchBalanced(s: Stream, x: Packet)
    requires Balanced(s, x) && Conserved(s, x) && Allowed(s, Launch) && multiset(s.arrived)[x] <= 1
    ensures Balanced(Apply(s, Launch), x)
  {
    var p, r := s.phase.todo[0], Apply(s, Launch);
    assert r.launched == s.launched + [p];
    if p.IsVideo() {
      assert Starts(r.log) == Starts(s.log);
    } else {
      StartsMore(s.log, Started(p));
      assert Starts(r.log) == Starts(s.log) + [p];
    }
    if p == x {
      NotIdle(s, x);
    }
  }

  lemma {:induction false} KeepsBalanced(s: Stream, step: Step, x: Packet)
    requires Balanced(s, x) && Conserved(s, x) && Allowed(s, step) && multiset(s.arrived)[x] <= 1
    ensures Balanced(Apply(s, step), x)
  {
    match step {
      case Launch => LaunchBalanced(s, x);
      case Begin(p) => StartsMore(s.log, Started(p));
      case FinishTask(p) => StartsMore(s.log, Finished(p));
      case FinishCall => StartsMore(s.log, Finished(s.phase.call.packet));
      case _ =>
    }
  }

  lemma {:induction false} ArrivedGrows(s: Stream, steps: seq<Step>, x: Packet)
    requires AllAllowed(s, steps)
    ensures multiset(s.arrived)[x] <= multiset(Run(s, steps).arrived)[x]
    decreases |steps|
  {
    if steps != [] {
      ArrivedGrows(Apply(s, steps[0]), steps[1..], x);
    }
  }

  lemma {:induction false} RunBalanced(s: Stream, steps: seq<Step>, x: Packet)
    requires AllAllowed(s, steps) && Balanced(s, x) && Conserved(s, x) && OwnPackets(s)
    requires multiset(Run(s, steps).arrived)[x] <= 1
    ensures Balanced(Run(s, steps), x)
    decreases |steps|
  {
    if steps != [] {
      ArrivedGrows(s, steps, x);
      KeepsOwn(s, steps[0]);
      KeepsConserved(s, steps[0], x);
      KeepsBalanced(s, steps[0], x);
      RunBalanced(Apply(s, steps[0]), steps[1..], x);
    }
  }

  lemma {:induction false} RunRests(s: Stream, steps: seq<Step>)
    requires AllAllowed(s, steps) && Resting(s)
    ensures Resting(Run(s, steps))
    decreases |steps|
  {
    if steps != [] {
      RunRests(Apply(s, steps[0]), steps[1..]);
    }
  }

  lemma {:induction false} OfCount(ps: seq<Packet>, x: Packet, fid: int, channel: int)
    ensures multiset(Of(ps, fid, channel))[x] == if Is(x, fid, channel) then multiset(ps)[x] else 0
  {
    if ps != [] {
      assert ps == ps[..|ps| - 1] + [ps[|ps| - 1]];
      OfCount(ps[..|ps| - 1], x, fid, channel);
    }
  }

  ghost predicate AllBalanced(s: Stream) {
    forall x: Packet :: Balanced(s, x)
  }

  lemma MultisetSizes(a: seq<Packet>, b: seq<Packet>)
    requires forall x: Packet :: multiset(a)[x] <= multiset(b)[x]
    ensures |a| <= |b|
  {
    assert multiset(a) <= multiset(b);
    assert multiset(b) == multiset(a) + (multiset(b) - multiset(a));
    assert |multiset(a)| == |a| && |multiset(b)| == |b|;
  }

  /** No more packets have begun than were handed over, and as many if none is idle. */
  lemma {:induction false} BegunSizes(s: Stream, fid: int, channel: int)
    requires AllBalanced(s)
    ensures |Begun(s, fid, channel)| <= |Handed(s, fid, channel)|
    ensures s.idle == {} ==> |Begun(s, fid, channel)| == |Handed(s, fid, channel)|
  {
    forall x: Packet
      ensures multiset(Begun(s, fid, channel))[x] <= multiset(Handed(s, fid, channel))[x]
      ensures s.idle == {} ==> multiset(Begun(s, fid, channel))[x] == multiset(Handed(s, fid, channel))[x]
    {
      assert Balanced(s, x);
      OfCount(Starts(s.log), x, fid, channel);
      OfCount(s.launched, x, fid, channel);
    }
    MultisetSizes(Begun(s, fid, channel), Handed(s, fid, channel));
    if s.idle == {} {
      MultisetSizes(Handed(s, fid, channel), Begun(s, fid, channel));
    }
  }

  lemma DistinctOnce(ps: seq<Packet>, x: Packet)
    requires Distinct(ps)
    ensures multiset(ps)[x] <= 1
    decreases |ps|
  {
    if ps != [] {
      var n := |ps| - 1;
      assert ps == ps[..n] + [ps[n]];
      DistinctOnce(ps[..n], x);
      if ps[n] == x {
        assert x !in ps[..n];
      }
    }
  }

  lemma OnceDistinct(ps: seq<Packet>)
    requires forall x: Packet :: multiset(ps)[x] <= 1
    ensures Distinct(ps)
  {
    forall i, j | 0 <= i < j < |ps| ensures ps[i] != ps[j] {
      assert ps == ps[..j] + ps[j..];
      assert ps[..j][i] == ps[i] && ps[j..][0] == ps[j];
      assert multiset(ps)[ps[i]] == multiset(ps[..j])[ps[i]] + multiset(ps[j..])[ps[i]];
    }
  }

  /** What holds after every run whose packets are distinct. */
  lemma {:induction false} RunFacts(steps: seq<Step>)
    requires AllAllowed(INITIAL, steps) && Distinct(Run(INITIAL, steps).arrived)
    ensures var s := Run(INITIAL, steps);
            AllBalanced(s) && Resting(s) && Distinct(Pending(s))
  {
    var s := Run(INITIAL, steps);
    RunRests(INITIAL, steps);
    forall x: Packet ensures Balanced(s, x) && multiset(Pending(s))[x] <= 1 {
      DistinctOnce(s.arrived, x);
      RunBalanced(INITIAL, steps, x);
      RunConservesFromStart(steps, x);
    }
    OnceDistinct(Pending(s));
  }

  // --------------------------------------------------------------- more steps

  /** A pass is dispatched, and what follows belongs to it. */
  predicate DispatchesPass(more: seq<Step>) {
    more != [] && more[0].Dispatch? && InPass(more[1..])
  }

  lemma {:induction false} TimelyAppend(s: Stream, a: seq<Step>, b: seq<Step>, fid: int, channel: int)
    requires AllAllowed(s, a) && AllAllowed(Run(s, a), b)
    requires AllTimely(s, a, fid, channel) && AllTimely(Run(s, a), b, fid, channel)
    ensures AllAllowed(s, a + b) && AllTimely(s, a + b, fid, channel)
    decreases |a|
  {
    RunAppend(s, a, b);
    if a == [] {
      assert a + b == b;
    } else {
      assert (a + b)[1..] == a[1..] + b;
      TimelyAppend(Apply(s, a[0]), a[1..], b, fid, channel);
    }
  }

  lemma {:induction false} PassTimely(s: Stream, steps: seq<Step>, fid: int, channel: int)
    requires AllAllowed(s, steps) && InPass(steps)
    ensures AllTimely(s, steps, fid, channel) && Run(s, steps).arrived == s.arrived
    decreases |steps|
  {
    if steps != [] {
      PassTimely(Apply(s, steps[0]), steps[1..], fid, channel);
    }
  }

  lemma {:induction false} SegmentedAppend(s: Stream, a: seq<Step>, b: seq<Step>, fid: int, channel: int)
    requires AllAllowed(s, a) && AllAllowed(Run(s, a), b)
    requires AllSegmented(s, a, fid, channel) && AllSegmented(Run(s, a), b, fid, channel)
    ensures AllAllowed(s, a + b) && AllSegmented(s, a + b, fid, channel)
    decreases |a|
  {
    RunAppend(s, a, b);
    if a == [] {
      assert a + b == b;
    } else {
      assert (a + b)[1..] == a[1..] + b;
      SegmentedAppend(Apply(s, a[0]), a[1..], b, fid, channel);
    }
  }

  /** Dispatching a pass leaves the run timely and brings no packets. */
  lemma {:induction false} PassAppended(steps: seq<Step>, more: seq<Step>, fid: int, channel: int)
    requires AllAllowed(INITIAL, steps) && AllTimely(INITIAL, steps, fid, channel)
    requires AllAllowed(Run(INITIAL, steps), more) && DispatchesPass(more)
    ensures AllAllowed(INITIAL, steps + more) && AllTimely(INITIAL, steps + more, fid, channel)
    ensures Run(INITIAL, steps + more) == Run(Run(INITIAL, steps), more)
    ensures Run(INITIAL, steps + more).arrived == Run(INITIAL, steps).arrived
  {
    var s := Run(INITIAL, steps);
    PassTimely(Apply(s, Dispatch), more[1..], fid, channel);
    TimelyAppend(INITIAL, steps, more, fid, channel);
    RunAppend(INITIAL, steps, more);
  }

  // ----------------------------------------------------------- out of order

  /** Callbacks of the channel have started in the order its packets came in. */
  predicate ArrivalOrder(s: Stream, fid: int, channel: int) {
    Begun(s, fid, channel) <= Of(s.arrived, fid, channel)
  }

  lemma PrefixesOfOne(a: seq<Packet>, b: seq<Packet>, c: seq<Packet>)
    requires a <= c && b <= c && |a| <= |b|
    ensures a <= b
  {}

  /** Once all that was handed over has begun in order, a new pass is fresh. */
  lemma {:induction false} DispatchFresh(steps: seq<Step>, fid: int, channel: int)
    requires AllAllowed(INITIAL, steps) && AllTimely(INITIAL, steps, fid, channel) && channel < FIRST_DATA_CHANNEL
    requires var s := Run(INITIAL, steps);
             Distinct(s.arrived) && Allowed(s, Dispatch) && ArrivalOrder(s, fid, channel)
    ensures var s := Run(INITIAL, steps);
            Fresh(Apply(s, Dispatch), Sorted(s.phase.batch), fid, channel) && Distinct(Sorted(s.phase.batch))
  {
    var s := Run(INITIAL, steps);
    RunFacts(steps);
    DispatchedInOrder(steps, fid, channel);
    BegunSizes(s, fid, channel);
    PrefixesOfOne(Begun(s, fid, channel), Handed(s, fid, channel), Of(s.arrived, fid, channel));
    SortedKeeps(s.phase.batch);
    forall x: Packet ensures multiset(Sorted(s.phase.batch))[x] <= 1 {
      DistinctOnce(s.phase.batch, x);
    }
    OnceDistinct(Sorted(s.phase.batch));
  }

  /** A schedule that leaves the order of hand-over leaves the order of arrival. */
  lemma {:induction false} LeavesArrivalOrder(steps: seq<Step>, fid: int, channel: int)
    requires AllAllowed(INITIAL, steps) && AllTimely(INITIAL, steps, fid, channel) && channel < FIRST_DATA_CHANNEL
    requires Distinct(Run(INITIAL, steps).arrived)
    requires !(Begun(Run(INITIAL, steps), fid, channel) <= Handed(Run(INITIAL, steps), fid, channel))
    ensures !ArrivalOrder(Run(INITIAL, steps), fid, channel)
  {
    var s := Run(INITIAL, steps);
    RunFacts(steps);
    DispatchedInOrder(steps, fid, channel);
    BegunSizes(s, fid, channel);
    if ArrivalOrder(s, fid, channel) {
      PrefixesOfOne(Begun(s, fid, channel), Handed(s, fid, channel), Of(s.arrived, fid, channel));
    }
  }

  /** Whatever the run before: when a pass that is not segmented is dispatched, there is
      a schedule of the pool after which callbacks are out of arrival order. */
  lemma {:induction false} UnsegmentedLeavesOrder(steps: seq<Step>, fid: int, channel: int) returns (more: seq<Step>)
    requires AllAllowed(INITIAL, steps) && AllTimely(INITIAL, steps, fid, channel) && channel < FIRST_DATA_CHANNEL
    requires var s := Run(INITIAL, steps);
             Distinct(s.arrived) && Allowed(s, Dispatch) && !Segmented(Sorted(s.phase.batch), fid, channel)
    ensures AllAllowed(Run(INITIAL, steps), more) && DispatchesPass(more)
    ensures !ArrivalOrder(Run(Run(INITIAL, steps), more), fid, channel)
  {
    var s := Run(INITIAL, steps);
    var s1 := Apply(s, Dispatch);
    if ArrivalOrder(s, fid, channel) {
      DispatchFresh(steps, fid, channel);
      var pass := Reverses(s1, Sorted(s.phase.batch), fid, channel);
      more := [Dispatch] + pass;
      assert more[1..] == pass;
      PassAppended(steps, more, fid, channel);
      LeavesArrivalOrder(steps + more, fid, channel);
    } else {
      more := [Dispatch];
      assert more[1..] == [];
    }
  }

  /** Whatever the pool does with the next pass, callbacks start in arrival order. */
  ghost predicate KeepsArrivalOrder(s: Stream, fid: int, channel: int) {
    forall more :: AllAllowed(s, more) && DispatchesPass(more) ==> ArrivalOrder(Run(s, more), fid, channel)
  }

  /** After a run of segmented passes: video callbacks are in arrival order under every
      schedule of the pool if and only if the next pass is segmented too. */
  lemma NextPassExact(steps: seq<Step>, fid: int, channel: int)
    requires AllAllowed(INITIAL, steps) && AllTimely(INITIAL, steps, fid, channel) && channel < FIRST_DATA_CHANNEL
    requires AllSegmented(INITIAL, steps, fid, channel)
    requires Distinct(Run(INITIAL, steps).arrived) && Allowed(Run(INITIAL, steps), Dispatch)
    ensures var s := Run(INITIAL, steps);
            Segmented(Sorted(s.phase.batch), fid, channel) <==> KeepsArrivalOrder(s, fid, channel)
  {
    var s := Run(INITIAL, steps);
    if Segmented(Sorted(s.phase.batch), fid, channel) {
      forall more | AllAllowed(s, more) && DispatchesPass(more) ensures ArrivalOrder(Run(s, more), fid, channel) {
        PassAppended(steps, more, fid, channel);
        NoDispatch(Apply(s, Dispatch), more[1..], fid, channel);
        SegmentedAppend(INITIAL, steps, more, fid, channel);
        VideoInOrder(steps + more, fid, channel);
      }
    } else {
      var more := UnsegmentedLeavesOrder(steps, fid, channel);
    }
  }

  // ------------------------------------------------------------ such a run

  function TwoArrive(p: Packet, q: Packet): seq<Step> {
    [Open(p.fid, 0, 0), Arrive(p), Arrive(q), BeginPass(Pass(q.timestamp * 1000 + 1, 0, false), [p.fid]), CollectNext]
  }

  lemma {:induction false} RunMore(s: Stream, step: Step, more: seq<Step>, fid: int, channel: int)
    requires Allowed(s, step) && Timely(s, step, fid, channel)
    requires AllAllowed(Apply(s, step), more) && AllTimely(Apply(s, step), more, fid, channel)
    ensures AllAllowed(s, [step] + more) && AllTimely(s, [step] + more, fid, channel)
    ensures Run(s, [step] + more) == Run(Apply(s, step), more)
  {
    assert ([step] + more)[1..] == more;
  }

  /** A pass that takes both packets of a queue. */
  lemma {:induction false} SelectTwo(p: Packet, q: Packet, queue: Queue, pass: Pass)
    requires queue.waiting == [p, q] && Ready(queue, pass, p) && Ready(queue, pass, q)
    ensures Released(queue, pass) == [p, q]
  {
    assert [p, q][..1] == [p] && [p][..0] == [];
    assert Select([], queue, pass, true) == [];
    assert Select([p], queue, pass, true) == [p];
  }

  lemma SortedTwo(p: Packet, q: Packet)
    requires !Before(q, p)
    ensures Sorted([p, q]) == [p, q]
  {
    assert [p, q][..1] == [p] && [p][..0] == [];
    assert Sorted([]) == [] && Sorted([p]) == [p];
  }

  predicate Pair(p: Packet, q: Packet) {
    p != q && q.fid == p.fid && q.channel == p.channel && p.IsVideo() && p.timestamp <= q.timestamp
  }

  function Opened(p: Packet): Stream {
    Apply(INITIAL, Open(p.fid, 0, 0))
  }

  function WithOne(p: Packet): Stream {
    Apply(Opened(p), Arrive(p))
  }

  function WithTwo(p: Packet, q: Packet): Stream
    requires q.fid == p.fid
  {
    Apply(WithOne(p), Arrive(q))
  }

  lemma TimelyTwo(p: Packet, q: Packet)
    requires Pair(p, q)
    ensures Timely(Opened(p), Arrive(p), p.fid, p.channel) && Timely(WithOne(p), Arrive(q), p.fid, p.channel)
  {
    OfMembers(WithOne(p).arrived, p.fid, p.channel);
  }

  /** The pass collects both. */
  lemma {:induction false} PassCollects(s: Stream, p: Packet, q: Packet, fid: int, channel: int)
    requires Pair(p, q) && p.fid in s.queues && s.queues[p.fid].waiting == [p, q] && s.phase.Idle?
    requires s.queues[p.fid].tsBase == s.queues[p.fid].localBase == 0
    ensures var steps := [BeginPass(Pass(q.timestamp * 1000 + 1, 0, false), [p.fid]), CollectNext];
            && AllAllowed(s, steps) && AllTimely(s, steps, fid, channel)
            && var r := Run(s, steps);
               r.arrived == s.arrived && r.phase.Collecting? && r.phase.fids == [] && r.phase.batch == [p, q]
  {
    var pass := Pass(q.timestamp * 1000 + 1, 0, false);
    var s1 := Apply(s, BeginPass(pass, [p.fid]));
    SelectTwo(p, q, s.queues[p.fid], pass);
    RunMore(s1, CollectNext, [], fid, channel);
    RunMore(s, BeginPass(pass, [p.fid]), [CollectNext], fid, channel);
  }

  lemma {:induction false} TwoCollected(p: Packet, q: Packet)
    requires Pair(p, q)
    ensures AllAllowed(INITIAL, TwoArrive(p, q)) && AllTimely(INITIAL, TwoArrive(p, q), p.fid, p.channel)
    ensures var s := Run(INITIAL, TwoArrive(p, q));
            s.arrived == [p, q] && s.phase.Collecting? && s.phase.fids == [] && s.phase.batch == [p, q]
  {
    var fid, channel := p.fid, p.channel;
    var steps := [BeginPass(Pass(q.timestamp * 1000 + 1, 0, false), [fid]), CollectNext];
    TimelyTwo(p, q);
    PassCollects(WithTwo(p, q), p, q, fid, channel);
    RunMore(WithOne(p), Arrive(q), steps, fid, channel);
    RunMore(Opened(p), Arrive(p), [Arrive(q)] + steps, fid, channel);
    RunMore(INITIAL, Open(fid, 0, 0), [Arrive(p)] + ([Arrive(q)] + steps), fid, channel);
    assert TwoArrive(p, q) == [Open(fid, 0, 0)] + ([Arrive(p)] + ([Arrive(q)] + steps));
  }

  /** Any two packets of a video channel may start in the reverse order, from the start. */
  lemma {:induction false} TwoReversed(p: Packet, q: Packet) returns (more: seq<Step>)
    requires Pair(p, q)
    ensures AllAllowed(INITIAL, TwoArrive(p, q)) && AllAllowed(Run(INITIAL, TwoArrive(p, q)), more) && DispatchesPass(more)
    ensures !ArrivalOrder(Run(Run(INITIAL, TwoArrive(p, q)), more), p.fid, p.channel)
  {
    TwoCollected(p, q);
    SortedTwo(p, q);
    assert Is([p, q][0], p.fid, p.channel) && Is([p, q][1], p.fid, p.channel);
    assert !EndBetween([p, q], 1, 1);
    more := UnsegmentedLeavesOrder(TwoArrive(p, q), p.fid, p.channel);
  }
}
