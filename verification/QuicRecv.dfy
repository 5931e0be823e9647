/** The receive side of a QUIC peer: network callbacks append decoded messages,
    one pool job at a time takes all there are and processes them, and waits a
    while for more before it leaves. */
module QuicRecv {
  /** Messages are told apart by number. */
  type Message = int

  /** A `ProcessRecv` job: about to look at the queue, waiting for data on the
      condition variable, or processing the messages it has taken. */
  datatype Worker = AtTop | Waiting | Processing(left: seq<Message>)

  /** `received` and `processed` are histories. */
  datatype State = State(queue: seq<Message>, busy: bool, waiting: bool, workers: seq<Worker>,
                         received: seq<Message>, processed: seq<Message>)

  const INITIAL := State([], false, false, [], [], [])

  datatype Step =
    | Data(messages: seq<Message>)
    | Look(worker: nat)
    | Wake(worker: nat, timeout: bool)
    | ProcessOne(worker: nat)
    | Done(worker: nat)

  predicate Allowed(s: State, step: Step) {
    match step
    case Data(_) => true
    case Look(w) => w < |s.workers| && s.workers[w].AtTop?
    case Wake(w, _) => w < |s.workers| && s.workers[w].Waiting?
    case ProcessOne(w) => w < |s.workers| && s.workers[w].Processing? && s.workers[w].left != []
    case Done(w) => w < |s.workers| && s.workers[w] == Processing([])
  }

  /** A worker is started by any data, even without a whole message. */
  function Notified(s: State): State {
    if !s.busy then s.(busy := true, workers := s.workers + [AtTop]) else s
  }

  function Looked(s: State, w: nat): State
    requires w < |s.workers|
  {
    if s.queue == [] then s.(waiting := true, workers := s.workers[w := Waiting])
    else s.(queue := [], workers := s.workers[w := Processing(s.queue)])
  }

  /** The wait ends when its condition holds, or at the timeout. */
  function Woken(s: State, w: nat, timeout: bool): State
    requires w < |s.workers|
  {
    if s.waiting && s.queue != [] then s.(waiting := false, workers := s.workers[w := AtTop])
    else if timeout then s.(waiting := false, busy := false, workers := s.workers[..w] + s.workers[w + 1..])
    else s
  }

  function Apply(s: State, step: Step): State
    requires Allowed(s, step)
  {
    match step
    case Data(ms) => Notified(s.(queue := s.queue + ms, received := s.received + ms))
    case Look(w) => Looked(s, w)
    case Wake(w, timeout) => Woken(s, w, timeout)
    case ProcessOne(w) =>
      var left := s.workers[w].left;
      s.(processed := s.processed + [left[0]], workers := s.workers[w := Processing(left[1..])])
    case Done(w) => s.(workers := s.workers[w := AtTop])
  }

  /** Messages taken and not processed yet. */
  function InHand(s: State): seq<Message> {
    if |s.workers| == 1 && s.workers[0].Processing? then s.workers[0].left else []
  }

  /** One worker at most; messages waiting imply one; what was received has
      been processed, is in its hands, or is waiting, in that order; and a
      worker that waits can be woken. */
  predicate Inv(s: State) {
    && |s.workers| == (if s.busy then 1 else 0)
    && (s.queue != [] ==> s.busy)
    && s.processed + InHand(s) + s.queue == s.received
    && (s.waiting <==> s.workers == [Waiting])
  }

  lemma Regroup(p: seq<Message>, x: seq<Message>, h: seq<Message>, q: seq<Message>)
    ensures p + (x + h) + q == (p + x) + h + q
  {}

  lemma {:induction false} KeepsInv(s: State, step: Step)
    requires Inv(s) && Allowed(s, step)
    ensures Inv(Apply(s, step))
  {
    match step {
      case ProcessOne(w) =>
        var left := s.workers[w].left;
        assert left == [left[0]] + left[1..];
        Regroup(s.processed, [left[0]], left[1..], s.queue);
      case _ =>
    }
  }

  /** A worker leaves only when nothing is waiting. */
  lemma {:induction false} LeavesNothing(s: State, step: Step)
    requires Inv(s) && Allowed(s, step) && s.busy && !Apply(s, step).busy
    ensures s.queue == [] && s.processed == s.received
  {}

  predicate AllAllowed(s: State, steps: seq<Step>)
    decreases |steps|
  {
    steps != [] ==> Allowed(s, steps[0]) && AllAllowed(Apply(s, steps[0]), steps[1..])
  }

  function After(s: State, steps: seq<Step>): State
    requires AllAllowed(s, steps)
    decreases |steps|
  {
    if steps == [] then s else After(Apply(s, steps[0]), steps[1..])
  }

  lemma {:induction false} RunKeepsInv(s: State, steps: seq<Step>)
    requires Inv(s) && AllAllowed(s, steps)
    ensures Inv(After(s, steps))
    decreases |steps|
  {
    if steps != [] {
      KeepsInv(s, steps[0]);
      RunKeepsInv(Apply(s, steps[0]), steps[1..]);
    }
  }

  /** The messages of all calls of `OnData`, in order. */
  function Messages(steps: seq<Step>): seq<Message> {
    if steps == [] then [] else Brought(steps[0]) + Messages(steps[1..])
  }

  function Brought(step: Step): seq<Message> {
    if step.Data? then step.messages else []
  }

  lemma ReceivedStep(s: State, step: Step)
    requires Allowed(s, step)
    ensures Apply(s, step).received == s.received + Brought(step)
  {
    assert s.received + [] == s.received;
  }

  lemma {:induction false} AllReceived(s: State, steps: seq<Step>)
    requires AllAllowed(s, steps)
    ensures After(s, steps).received == s.received + Messages(steps)
    decreases |steps|
  {
    if steps == [] {
      assert s.received + [] == s.received;
    } else {
      ReceivedStep(s, steps[0]);
      AllReceived(Apply(s, steps[0]), steps[1..]);
      assert s.received + Brought(steps[0]) + Messages(steps[1..]) == s.received + (Brought(steps[0]) + Messages(steps[1..]));
    }
  }

  /** Over all interleavings, timeouts included: at most one worker, messages
      processed once and in order, and none waiting without a worker. */
  lemma EveryRun(steps: seq<Step>)
    requires AllAllowed(INITIAL, steps)
    ensures var s := After(INITIAL, steps);
            && |s.workers| <= 1 && (s.busy <==> |s.workers| == 1)
            && s.processed <= s.received == Messages(steps)
            && (s.queue != [] ==> |s.workers| == 1)
            && (s.workers == [] ==> s.processed == Messages(steps))
  {
    RunKeepsInv(INITIAL, steps);
    AllReceived(INITIAL, steps);
    assert [] + Messages(steps) == Messages(steps);
  }

  // ---------------------------------------------------------------- progress

  /** A worker that waits leaves exactly at a timeout with nothing queued, and goes on
      exactly if there is something. */
  lemma WakeExact(s: State, w: nat, timeout: bool)
    requires Inv(s) && Allowed(s, Wake(w, timeout))
    ensures var r := Apply(s, Wake(w, timeout));
            && (r.workers == [] <==> timeout && s.queue == []) && (r.workers == [AtTop] <==> s.queue != [])
            && (!timeout && s.queue == [] ==> r == s)
  {}

  lemma {:induction false} AfterMore(s: State, a: seq<Step>, b: seq<Step>)
    requires AllAllowed(s, a) && AllAllowed(After(s, a), b)
    ensures AllAllowed(s, a + b) && After(s, a + b) == After(After(s, a), b)
    decreases |a|
  {
    if a == [] {
      assert a + b == b;
    } else {
      assert (a + b)[1..] == a[1..] + b;
      AfterMore(Apply(s, a[0]), a[1..], b);
    }
  }

  /** No new data comes in. */
  predicate NoData(steps: seq<Step>) {
    forall i :: 0 <= i < |steps| ==> !steps[i].Data?
  }

  lemma {:induction false} ProcessesHeld(s: State) returns (steps: seq<Step>)
    requires Inv(s) && |s.workers| == 1 && s.workers[0].Processing?
    ensures AllAllowed(s, steps) && NoData(steps)
    ensures After(s, steps) == s.(workers := [AtTop], processed := s.processed + s.workers[0].left)
    decreases |s.workers[0].left|
  {
    var left := s.workers[0].left;
    if left == [] {
      steps := [Done(0)];
      assert s.processed + [] == s.processed;
      assert After(s, steps) == Apply(s, Done(0));
    } else {
      KeepsInv(s, ProcessOne(0));
      var s1 := Apply(s, ProcessOne(0));
      var more := ProcessesHeld(s1);
      steps := [ProcessOne(0)] + more;
      assert steps[1..] == more;
      assert left == [left[0]] + left[1..];
      assert s.processed + [left[0]] + left[1..] == s.processed + left;
    }
  }

  lemma {:induction false} WaitsAndLeaves(s: State)
    requires Inv(s) && s.workers == [AtTop] && s.queue == []
    ensures AllAllowed(s, [Look(0), Wake(0, true)])
    ensures After(s, [Look(0), Wake(0, true)]) == s.(workers := [], busy := false)
  {
    var s1 := Apply(s, Look(0));
    KeepsInv(s, Look(0));
    assert [Look(0), Wake(0, true)][1..] == [Wake(0, true)];
    assert s1.workers[..0] + s1.workers[1..] == [];
    assert After(s1, [Wake(0, true)]) == Apply(s1, Wake(0, true));
  }

  /** Left to itself, the worker processes all that was received, in order, and leaves. */
  lemma {:induction false} ProcessesAll(s: State) returns (steps: seq<Step>)
    requires Inv(s) && s.workers == [AtTop]
    ensures AllAllowed(s, steps) && NoData(steps)
    ensures After(s, steps) == s.(queue := [], workers := [], busy := false, processed := s.received)
  {
    if s.queue == [] {
      WaitsAndLeaves(s);
      steps := [Look(0), Wake(0, true)];
      assert s.processed + [] + [] == s.processed;
    } else {
      KeepsInv(s, Look(0));
      var s1 := Apply(s, Look(0));
      var held := ProcessesHeld(s1);
      var s2 := After(s1, held);
      RunKeepsInv(s1, held);
      WaitsAndLeaves(s2);
      AfterMore(s1, held, [Look(0), Wake(0, true)]);
      steps := [Look(0)] + (held + [Look(0), Wake(0, true)]);
      assert steps[1..] == held + [Look(0), Wake(0, true)];
      assert s.processed + [] + s.queue == s.processed + s.queue;
    }
  }

  /** The fields the two callbacks share, each method one region under the lock. */
  class Receiver {
    var queue: seq<Message>
    var busy: bool
    var waiting: bool
    ghost var workers: seq<Worker>
    ghost var received: seq<Message>
    ghost var processed: seq<Message>

    ghost function Value(): State
      reads this
    {
      State(queue, busy, waiting, workers, received, processed)
    }

    constructor ()
      ensures Value() == INITIAL
    {
      queue, busy, waiting := [], false, false;
      workers, received, processed := [], [], [];
    }

    /** End of `OnData` with `notify_recv_and_unlock_`; `wake` tells whether the
        worker was notified. */
    method OnData(messages: seq<Message>) returns (wake: bool)
      modifies this
      ensures Value() == Apply(old(Value()), Step.Data(messages))
      ensures wake <==> old(busy) && old(waiting) && queue != []
    {
      for i := 0 to |messages|
        invariant queue == old(queue) + messages[..i]
        invariant busy == old(busy) && waiting == old(waiting) && workers == old(workers)
        invariant received == old(received) && processed == old(processed)
      {
        queue := queue + [messages[i]];
      }
      received := received + messages;
      wake := false;
      if !busy {
        busy := true;
        workers := workers + [AtTop];
      } else {
        wake := waiting && |queue| > 0;
      }
    }

    /** `ProcessRecv` at the top of its loop: take everything, or start to wait. */
    method Look(ghost w: nat) returns (taken: seq<Message>)
      requires Allowed(Value(), Step.Look(w))
      modifies this
      ensures Value() == Apply(old(Value()), Step.Look(w)) && taken == old(queue)
    {
      taken := queue;
      if |queue| == 0 {
        waiting := true;
        workers := workers[w := Waiting];
      } else {
        queue := [];
        workers := workers[w := Processing(taken)];
      }
    }

    /** The wait is over; `leave` tells whether the job ends. */
    method Wake(ghost w: nat) returns (leave: bool)
      requires Allowed(Value(), Step.Wake(w, true))
      modifies this
      ensures Value() == Apply(old(Value()), Step.Wake(w, true)) && (leave <==> !old(waiting) || old(queue) == [])
    {
      var hasData := waiting && |queue| > 0;
      waiting := false;
      if hasData {
        workers := workers[w := AtTop];
      } else {
        busy := false;
        workers := workers[..w] + workers[w + 1..];
      }
      leave := !hasData;
    }
  }
}
