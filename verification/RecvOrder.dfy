/** The order of the packets of one channel of one frame, across all passes: as
    they are handed over, and as their callbacks start. */
module RecvOrder {
  import opened RecvQueue
  import opened RecvStream

  /** Given to callbacks, on the way there, waiting: together, in this order,
      the packets as they came in. */
  predicate Joined(launched: seq<Packet>, pending: seq<Packet>, waiting: seq<Packet>, arrived: seq<Packet>) {
    launched + pending + waiting == arrived
  }

  lemma JoinArrive(l: seq<Packet>, p: seq<Packet>, w: seq<Packet>, a: seq<Packet>, x: seq<Packet>)
    requires Joined(l, p, w, a)
    ensures Joined(l, p, w + x, a + x)
  {}

  lemma JoinCollect(l: seq<Packet>, p: seq<Packet>, r: seq<Packet>, k: seq<Packet>, a: seq<Packet>)
    requires Joined(l, p, r + k, a)
    ensures Joined(l, p + r, k, a)
  {}

  lemma JoinLaunch(l: seq<Packet>, x: seq<Packet>, p: seq<Packet>, w: seq<Packet>, a: seq<Packet>)
    requires Joined(l, x + p, w, a)
    ensures Joined(l + x, p, w, a)
  {}

  lemma JoinedMiddle(l: seq<Packet>, p: seq<Packet>, w: seq<Packet>, a: seq<Packet>)
    requires Joined(l, p, w, a) && Nondecreasing(a)
    ensures Nondecreasing(p) && Nondecreasing(w)
  {
    assert forall i :: 0 <= i < |p| ==> a[|l| + i] == p[i];
    assert forall i :: 0 <= i < |w| ==> a[|l| + |p| + i] == w[i];
  }

  predicate InOrder(s: Stream, fid: int, channel: int) {
    Joined(Of(s.launched, fid, channel), Of(Pending(s), fid, channel),
           Of(Waiting(s, fid), fid, channel), Of(s.arrived, fid, channel))
  }

  predicate Inv(s: Stream, fid: int, channel: int) {
    && OwnPackets(s) && InOrder(s, fid, channel) && Nondecreasing(Of(s.arrived, fid, channel))
    && (s.phase.Collecting? ==> !s.phase.pass.sync)
  }

  /** The sync option is off and the channel's packets come in timestamp order. */
  predicate Timely(s: Stream, step: Step, fid: int, channel: int) {
    match step
    case Arrive(p) =>
      p.fid == fid && p.channel == channel ==> forall x :: x in Of(s.arrived, fid, channel) ==> x.timestamp <= p.timestamp
    case BeginPass(pass, _) => !pass.sync
    case _ => true
  }

  predicate AllTimely(s: Stream, steps: seq<Step>, fid: int, channel: int)
    requires AllAllowed(s, steps)
    decreases |steps|
  {
    steps != [] ==> Timely(s, steps[0], fid, channel) && AllTimely(Apply(s, steps[0]), steps[1..], fid, channel)
  }

  lemma {:induction false} ArriveInOrder(s: Stream, p: Packet, fid: int, channel: int)
    requires Inv(s, fid, channel) && Allowed(s, Arrive(p))
    ensures InOrder(Apply(s, Arrive(p)), fid, channel)
  {
    var x := Of([p], fid, channel);
    OfAppend(s.arrived, [p], fid, channel);
    if p.fid == fid {
      OfAppend(Waiting(s, fid), [p], fid, channel);
      JoinArrive(Of(s.launched, fid, channel), Of(Pending(s), fid, channel),
                 Of(Waiting(s, fid), fid, channel), Of(s.arrived, fid, channel), x);
    } else {
      assert x == [];
    }
  }

  lemma ArriveSorted(s: seq<Packet>, p: Packet, fid: int, channel: int)
    requires Nondecreasing(Of(s, fid, channel))
    requires p.fid == fid && p.channel == channel ==> forall x :: x in Of(s, fid, channel) ==> x.timestamp <= p.timestamp
    ensures Nondecreasing(Of(s + [p], fid, channel))
  {
    OfAppend(s, [p], fid, channel);
    var a := Of(s, fid, channel);
    assert forall i :: 0 <= i < |a| ==> a[i] in a;
  }

  lemma {:induction false} CollectInOrder(s: Stream, fid: int, channel: int)
    requires Inv(s, fid, channel) && Allowed(s, CollectNext) && channel != END_FRAME
    ensures InOrder(Apply(s, CollectNext), fid, channel)
  {
    if s.phase.fids[0] == fid {
      CollectSame(s, fid, channel);
    } else {
      CollectOther(s, fid, channel);
    }
  }

  lemma {:induction false} CollectSame(s: Stream, fid: int, channel: int)
    requires Inv(s, fid, channel) && Allowed(s, CollectNext) && channel != END_FRAME && s.phase.fids[0] == fid
    ensures InOrder(Apply(s, CollectNext), fid, channel)
  {
    var q, pass := s.queues[fid], s.phase.pass;
    OfAppend(s.phase.batch, Released(q, pass), fid, channel);
    CollectOwn(Of(s.launched, fid, channel), Of(s.phase.batch, fid, channel), q, pass, Of(s.arrived, fid, channel),
               fid, channel);
  }

  lemma {:induction false} CollectOther(s: Stream, fid: int, channel: int)
    requires Inv(s, fid, channel) && Allowed(s, CollectNext) && s.phase.fids[0] != fid
    ensures InOrder(Apply(s, CollectNext), fid, channel)
  {
    var g, pass := s.phase.fids[0], s.phase.pass;
    var q, r := s.queues[g], Apply(s, CollectNext);
    assert Pending(r) == s.phase.batch + Released(q, pass) && Waiting(r, fid) == Waiting(s, fid);
    OfAppend(s.phase.batch, Released(q, pass), fid, channel);
    NoneOf(q.waiting, q, pass, g, fid, channel);
    SameLists(s, r, fid, channel);
  }

  lemma {:induction false} SameLists(s: Stream, r: Stream, fid: int, channel: int)
    requires InOrder(s, fid, channel) && r.launched == s.launched && r.arrived == s.arrived
    requires Of(Pending(r), fid, channel) == Of(Pending(s), fid, channel) && Waiting(r, fid) == Waiting(s, fid)
    ensures InOrder(r, fid, channel)
  {}

  lemma {:induction false} CollectOwn(l: seq<Packet>, b: seq<Packet>, q: Queue, pass: Pass, a: seq<Packet>, fid: int, channel: int)
    requires Joined(l, b, Of(q.waiting, fid, channel), a) && Nondecreasing(a) && !pass.sync && channel != END_FRAME
    ensures Joined(l, b + Of(Released(q, pass), fid, channel), Of(Retained(q, pass).waiting, fid, channel), a)
  {
    JoinedMiddle(l, b, Of(q.waiting, fid, channel), a);
    SelectOf(q.waiting, q, pass, fid, channel);
    JoinCollect(l, b, Of(Released(q, pass), fid, channel), Of(Retained(q, pass).waiting, fid, channel), a);
  }

  lemma NoneOf(s: seq<Packet>, q: Queue, pass: Pass, own: int, fid: int, channel: int)
    requires own != fid && forall p :: p in s ==> p.fid == own
    ensures Of(Select(s, q, pass, true), fid, channel) == []
  {
    OfMembers(Select(s, q, pass, true), fid, channel);
    FirstIn(Of(Select(s, q, pass, true), fid, channel));
  }

  lemma {:induction false} DispatchInOrder(s: Stream, fid: int, channel: int)
    requires Inv(s, fid, channel) && Allowed(s, Dispatch) && channel != END_FRAME
    ensures InOrder(Apply(s, Dispatch), fid, channel)
  {
    JoinedMiddle(Of(s.launched, fid, channel), Of(s.phase.batch, fid, channel),
                 Of(Waiting(s, fid), fid, channel), Of(s.arrived, fid, channel));
    SortedOf(s.phase.batch, fid, channel);
    SameLists(s, Apply(s, Dispatch), fid, channel);
  }

  lemma {:induction false} LaunchInOrder(s: Stream, fid: int, channel: int)
    requires Inv(s, fid, channel) && Allowed(s, Launch)
    ensures InOrder(Apply(s, Launch), fid, channel)
  {
    var todo := s.phase.todo;
    assert todo == [todo[0]] + todo[1..];
    MovedOn(s, Apply(s, Launch), todo[0], todo[1..], fid, channel);
  }

  lemma {:induction false} MovedOn(s: Stream, r: Stream, p: Packet, rest: seq<Packet>, fid: int, channel: int)
    requires InOrder(s, fid, channel) && Pending(s) == [p] + rest && Pending(r) == rest
    requires r.launched == s.launched + [p] && r.arrived == s.arrived && Waiting(r, fid) == Waiting(s, fid)
    ensures InOrder(r, fid, channel)
  {
    OfAppend([p], rest, fid, channel);
    OfAppend(s.launched, [p], fid, channel);
    JoinLaunch(Of(s.launched, fid, channel), Of([p], fid, channel), Of(rest, fid, channel),
               Of(Waiting(s, fid), fid, channel), Of(s.arrived, fid, channel));
  }

  lemma {:induction false} KeepsInOrder(s: Stream, step: Step, fid: int, channel: int)
    requires Inv(s, fid, channel) && Allowed(s, step) && Timely(s, step, fid, channel) && channel != END_FRAME
    ensures Inv(Apply(s, step), fid, channel)
  {
    KeepsOwn(s, step);
    match step {
      case Arrive(p) =>
        ArriveInOrder(s, p, fid, channel);
        ArriveSorted(s.arrived, p, fid, channel);
      case CollectNext => CollectInOrder(s, fid, channel);
      case Dispatch => DispatchInOrder(s, fid, channel);
      case Launch => LaunchInOrder(s, fid, channel);
      case _ =>
    }
  }

  lemma {:induction false} RunKeepsInOrder(s: Stream, steps: seq<Step>, fid: int, channel: int)
    requires AllAllowed(s, steps) && AllTimely(s, steps, fid, channel)
    requires Inv(s, fid, channel) && channel != END_FRAME
    ensures Inv(Run(s, steps), fid, channel)
    decreases |steps|
  {
    if steps != [] {
      KeepsInOrder(s, steps[0], fid, channel);
      RunKeepsInOrder(Apply(s, steps[0]), steps[1..], fid, channel);
    }
  }

  /** In every run without the sync option, if a channel's packets come in
      timestamp order, they are handed to the pool or to their callbacks in the
      order they came in, however arrivals and passes interleave and whatever the
      buffering delays are. */
  lemma DispatchedInOrder(steps: seq<Step>, fid: int, channel: int)
    requires AllAllowed(INITIAL, steps) && AllTimely(INITIAL, steps, fid, channel) && channel != END_FRAME
    ensures var s := Run(INITIAL, steps);
            Of(s.launched, fid, channel) <= Of(s.arrived, fid, channel)
  {
    RunKeepsInOrder(INITIAL, steps, fid, channel);
  }

  // ---------------------------------------------------------------- callbacks

  /** The packets whose callbacks have started, in that order. */
  function Starts(log: seq<Event>): seq<Packet> {
    if log == [] then []
    else
      var e := log[|log| - 1];
      Starts(log[..|log| - 1]) + if e.Started? then [e.packet] else []
  }

  lemma StartsMore(log: seq<Event>, e: Event)
    ensures Starts(log + [e]) == Starts(log) + if e.Started? then [e.packet] else []
  {
    assert (log + [e])[..|log|] == log;
  }

  /** Callbacks that are not left to the pool start as packets are launched. */
  predicate Direct(s: Stream, fid: int, channel: int) {
    && Of(Starts(s.log), fid, channel) == Of(s.launched, fid, channel)
    && forall p :: p in s.idle ==> p.IsVideo()
  }

  lemma StartsOf(log: seq<Event>, e: Event, fid: int, channel: int)
    ensures Of(Starts(log + [e]), fid, channel)
         == Of(Starts(log), fid, channel) + if e.Started? then Of([e.packet], fid, channel) else []
  {
    StartsMore(log, e);
    if e.Started? {
      OfAppend(Starts(log), [e.packet], fid, channel);
    } else {
      assert Starts(log + [e]) == Starts(log);
    }
  }

  lemma {:induction false} LaunchDirect(s: Stream, fid: int, channel: int)
    requires Direct(s, fid, channel) && Allowed(s, Launch) && channel >= FIRST_DATA_CHANNEL
    ensures Direct(Apply(s, Launch), fid, channel)
  {
    var p := s.phase.todo[0];
    OfAppend(s.launched, [p], fid, channel);
    StartsOf(s.log, Started(p), fid, channel);
    assert p.IsVideo() ==> Of([p], fid, channel) == [];
  }

  lemma {:induction false} LogDirect(s: Stream, e: Event, fid: int, channel: int)
    requires Direct(s, fid, channel) && (e.Started? ==> e.packet.IsVideo()) && channel >= FIRST_DATA_CHANNEL
    ensures Of(Starts(s.log + [e]), fid, channel) == Of(s.launched, fid, channel)
  {
    StartsOf(s.log, e, fid, channel);
    assert e.Started? ==> Of([e.packet], fid, channel) == [];
  }

  lemma {:induction false} KeepsDirect(s: Stream, step: Step, fid: int, channel: int)
    requires Direct(s, fid, channel) && Allowed(s, step) && channel >= FIRST_DATA_CHANNEL
    ensures Direct(Apply(s, step), fid, channel)
  {
    match step {
      case Launch => LaunchDirect(s, fid, channel);
      case Begin(p) => LogDirect(s, Started(p), fid, channel);
      case FinishTask(p) => LogDirect(s, Finished(p), fid, channel);
      case FinishCall => LogDirect(s, Finished(s.phase.call.packet), fid, channel);
      case _ =>
    }
  }

  lemma {:induction false} RunDirect(s: Stream, steps: seq<Step>, fid: int, channel: int)
    requires Direct(s, fid, channel) && AllAllowed(s, steps) && channel >= FIRST_DATA_CHANNEL
    ensures Direct(Run(s, steps), fid, channel)
    decreases |steps|
  {
    if steps != [] {
      KeepsDirect(s, steps[0], fid, channel);
      RunDirect(Apply(s, steps[0]), steps[1..], fid, channel);
    }
  }

  /** For channels from 32 on callbacks start in the order packets came in. */
  lemma CallbacksInOrder(steps: seq<Step>, fid: int, channel: int)
    requires AllAllowed(INITIAL, steps) && AllTimely(INITIAL, steps, fid, channel)
    requires channel != 2048 && channel >= 32
    ensures var s := Run(INITIAL, steps);
            Of(Starts(s.log), fid, channel) <= Of(s.arrived, fid, channel)
  {
    DispatchedInOrder(steps, fid, channel);
    RunDirect(INITIAL, steps, fid, channel);
  }
}
