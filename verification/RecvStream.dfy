/** The receive buffer as a whole: network threads insert packets while the
    stream's own thread makes passes over the queues, sorts what they release
    and runs the callbacks; those of video channels are handed to a pool of
    threads, which start them when they like. All interleavings. */
module RecvStream {
  import opened RecvQueue

  datatype Event = Started(packet: Packet) | Finished(packet: Packet)

  datatype Call = NoCall | Calling(packet: Packet)

  /** What the stream's thread is doing. */
  datatype Phase =
    | Idle
    | Collecting(pass: Pass, fids: seq<int>, batch: seq<Packet>)
    | Dispatching(todo: seq<Packet>, call: Call)

  /** `running` are the packets handed to the pool whose callbacks have not
      finished, and `idle` those of them whose callbacks have not started.
      `arrived` and `launched` record packets in the order they came in and were
      handed to the pool or to a callback. */
  datatype Stream = Stream(queues: map<int, Queue>, phase: Phase, running: set<Packet>, idle: set<Packet>,
                           log: seq<Event>, arrived: seq<Packet>, launched: seq<Packet>)

  const INITIAL := Stream(map[], Idle, {}, {}, [], [], [])

  datatype Step =
    | Open(fid: int, tsBase: int, localBase: int)
    | Arrive(packet: Packet)
    | BeginPass(pass: Pass, fids: seq<int>)
    | CollectNext
    | Dispatch
    | Launch
    | Begin(packet: Packet)
    | FinishTask(packet: Packet)
    | FinishCall
    | EndPass

  predicate Allowed(s: Stream, step: Step) {
    match step
    case Open(fid, _, _) => fid !in s.queues
    case Arrive(p) => p.fid in s.queues
    case BeginPass(_, fids) => s.phase.Idle? && forall fid :: fid in fids ==> fid in s.queues
    case CollectNext => s.phase.Collecting? && s.phase.fids != [] && s.phase.fids[0] in s.queues
    case Dispatch => s.phase.Collecting? && s.phase.fids == []
    case Launch =>
      && s.phase.Dispatching? && s.phase.todo != [] && s.phase.call.NoCall?
      && (s.phase.todo[0].IsEnd() ==> s.running == {})
    case Begin(p) => p in s.idle
    case FinishTask(p) => p in s.running && p !in s.idle
    case FinishCall => s.phase.Dispatching? && s.phase.call.Calling?
    case EndPass => s.phase.Dispatching? && s.phase.todo == [] && s.phase.call.NoCall? && s.running == {}
  }

  function Apply(s: Stream, step: Step): Stream
    requires Allowed(s, step)
  {
    match step
    case Open(fid, tsBase, localBase) => s.(queues := s.queues[fid := Queue([], tsBase, localBase, map[])])
    case Arrive(p) =>
      s.(queues := s.queues[p.fid := Inserted(s.queues[p.fid], p)], arrived := s.arrived + [p])
    case BeginPass(pass, fids) => s.(phase := Collecting(pass, fids, []))
    case CollectNext =>
      var fid, pass := s.phase.fids[0], s.phase.pass;
      var q := s.queues[fid];
      s.(queues := s.queues[fid := Retained(q, pass)],
         phase := Collecting(pass, s.phase.fids[1..], s.phase.batch + Released(q, pass)))
    case Dispatch => s.(phase := Dispatching(Sorted(s.phase.batch), NoCall))
    case Launch =>
      var p := s.phase.todo[0];
      var s1 := s.(launched := s.launched + [p]);
      if p.IsVideo() then
        s1.(phase := Dispatching(s.phase.todo[1..], NoCall), running := s.running + {p}, idle := s.idle + {p})
      else s1.(phase := Dispatching(s.phase.todo[1..], Calling(p)), log := s.log + [Started(p)])
    case Begin(p) => s.(idle := s.idle - {p}, log := s.log + [Started(p)])
    case FinishTask(p) => s.(running := s.running - {p}, log := s.log + [Finished(p)])
    case FinishCall =>
      s.(phase := Dispatching(s.phase.todo, NoCall), log := s.log + [Finished(s.phase.call.packet)])
    case EndPass => s.(phase := Idle)
  }

  predicate AllAllowed(s: Stream, steps: seq<Step>)
    decreases |steps|
  {
    steps != [] ==> Allowed(s, steps[0]) && AllAllowed(Apply(s, steps[0]), steps[1..])
  }

  function Run(s: Stream, steps: seq<Step>): Stream
    requires AllAllowed(s, steps)
    decreases |steps|
  {
    if steps == [] then s else Run(Apply(s, steps[0]), steps[1..])
  }

  // ------------------------------------------------------------ conservation

  /** Packets taken from the queues and not yet given to a callback. */
  function Pending(s: Stream): seq<Packet> {
    match s.phase
    case Idle => []
    case Collecting(_, _, batch) => batch
    case Dispatching(todo, _) => todo
  }

  function Waiting(s: Stream, fid: int): seq<Packet> {
    if fid in s.queues then s.queues[fid].waiting else []
  }

  /** Queues hold packets of their own frame only. */
  predicate OwnPackets(s: Stream) {
    forall fid, p :: fid in s.queues && p in s.queues[fid].waiting ==> p.fid == fid
  }

  /** The packet is waiting in its queue, on its way to a callback, or has been
      given to one: in all, as often as it came in. */
  predicate Conserved(s: Stream, p: Packet) {
    multiset(s.arrived)[p]
    == multiset(s.launched)[p] + multiset(Pending(s))[p] + multiset(Waiting(s, p.fid))[p]
  }

  lemma CollectConserves(s: Stream, p: Packet)
    requires Allowed(s, CollectNext) && OwnPackets(s) && Conserved(s, p)
    ensures Conserved(Apply(s, CollectNext), p)
  {
    var fid, pass := s.phase.fids[0], s.phase.pass;
    var q := s.queues[fid];
    SelectSplits(q.waiting, q, pass);
    if p.fid != fid {
      assert p !in Released(q, pass);
    }
  }

  lemma LaunchConserves(s: Stream, p: Packet)
    requires Allowed(s, Launch) && Conserved(s, p)
    ensures Conserved(Apply(s, Launch), p)
  {
    assert s.phase.todo == [s.phase.todo[0]] + s.phase.todo[1..];
  }

  lemma ArriveConserves(s: Stream, x: Packet, p: Packet)
    requires Allowed(s, Arrive(x)) && Conserved(s, p)
    ensures Conserved(Apply(s, Arrive(x)), p)
  {}

  lemma KeepsConserved(s: Stream, step: Step, p: Packet)
    requires Allowed(s, step) && OwnPackets(s) && Conserved(s, p)
    ensures Conserved(Apply(s, step), p)
  {
    match step {
      case Arrive(x) => ArriveConserves(s, x, p);
      case CollectNext => CollectConserves(s, p);
      case Dispatch => SortedKeeps(s.phase.batch);
      case Launch => LaunchConserves(s, p);
      case _ =>
    }
  }

  lemma KeepsOwn(s: Stream, step: Step)
    requires Allowed(s, step) && OwnPackets(s)
    ensures OwnPackets(Apply(s, step))
  {}

  /** In every run: none lost, none made up, none dispatched twice. */
  lemma {:induction false} RunConserves(s: Stream, steps: seq<Step>, p: Packet)
    requires AllAllowed(s, steps) && OwnPackets(s) && Conserved(s, p)
    ensures OwnPackets(Run(s, steps)) && Conserved(Run(s, steps), p)
    decreases |steps|
  {
    if steps != [] {
      KeepsOwn(s, steps[0]);
      KeepsConserved(s, steps[0], p);
      RunConserves(Apply(s, steps[0]), steps[1..], p);
    }
  }

  /** The packets that network threads inserted, in order. */
  function Arrivals(steps: seq<Step>): seq<Packet> {
    if steps == [] then [] else Brought(steps[0]) + Arrivals(steps[1..])
  }

  function Brought(step: Step): seq<Packet> {
    if step.Arrive? then [step.packet] else []
  }

  lemma ArrivedStep(s: Stream, step: Step)
    requires Allowed(s, step)
    ensures Apply(s, step).arrived == s.arrived + Brought(step)
  {
    assert s.arrived + [] == s.arrived;
  }

  lemma {:induction false} ArrivedAll(s: Stream, steps: seq<Step>)
    requires AllAllowed(s, steps)
    ensures Run(s, steps).arrived == s.arrived + Arrivals(steps)
    decreases |steps|
  {
    if steps == [] {
      assert s.arrived + [] == s.arrived;
    } else {
      ArrivedStep(s, steps[0]);
      ArrivedAll(Apply(s, steps[0]), steps[1..]);
      assert s.arrived + Brought(steps[0]) + Arrivals(steps[1..]) == s.arrived + (Brought(steps[0]) + Arrivals(steps[1..]));
    }
  }

  /** The same from the start. */
  lemma RunConservesFromStart(steps: seq<Step>, p: Packet)
    requires AllAllowed(INITIAL, steps)
    ensures Conserved(Run(INITIAL, steps), p) && Run(INITIAL, steps).arrived == Arrivals(steps)
  {
    RunConserves(INITIAL, steps, p);
    ArrivedAll(INITIAL, steps);
    assert [] + Arrivals(steps) == Arrivals(steps);
  }
}
