/** The send side of a QUIC peer: sends wait in a queue, each with a WebSocket
    header in a second queue, until the transport reports them complete, in any
    order. Buffers come from a bounded pool. */
module QuicSend {
  const MAX_BUFFERS := 512
  const MAX_PENDING_BYTES := 1024 * 1024 * 24

  /** A completion first lowers the counters and only then takes the lock. */
  datatype Stage = InFlight | Completing | Complete

  /** `header` names the header buffer the event points to. */
  datatype Event = Event(id: nat, header: nat, size: nat, stage: Stage)

  /** `free` buffers are in the pool, `held` ones with callers; `released` lists
      the events whose buffer was given back. */
  datatype State = State(queue: seq<Event>, headers: seq<nat>, free: nat, held: nat, count: nat,
                         pendingSends: int, pendingBytes: int, next: nat, released: seq<nat>)

  const INITIAL := State([], [], 0, 0, 0, 0, 0, 0, [])

  datatype Step =
    | GetBuffer
    | Send(size: nat)
    | Lower(i: nat)
    | Finish(i: nat)

  predicate Allowed(s: State, step: Step) {
    match step
    case GetBuffer => s.free > 0 || s.count < MAX_BUFFERS
    case Send(_) => s.held > 0 && s.pendingBytes <= MAX_PENDING_BYTES
    case Lower(i) => i < |s.queue| && s.queue[i].stage.InFlight?
    case Finish(i) => i < |s.queue| && s.queue[i].stage.Completing?
  }

  /** `clear_completed_`: completed sends leave from the front, with their headers. */
  function Cleared(queue: seq<Event>, headers: seq<nat>): (r: (seq<Event>, seq<nat>))
    requires |queue| == |headers|
    ensures |r.0| == |r.1|
  {
    if queue != [] && queue[0].stage.Complete? then Cleared(queue[1..], headers[1..]) else (queue, headers)
  }

  function Finished(s: State, i: nat): State
    requires i < |s.queue| && |s.headers| == |s.queue|
  {
    var queue := s.queue[i := s.queue[i].(stage := Complete)];
    var s1 := s.(queue := queue, free := s.free + 1, released := s.released + [s.queue[i].id]);
    if i != 0 then s1
    else
      var r := Cleared(queue, s.headers);
      s1.(queue := r.0, headers := r.1)
  }

  function Apply(s: State, step: Step): (r: State)
    requires Allowed(s, step) && |s.headers| == |s.queue|
    ensures |r.headers| == |r.queue|
  {
    match step
    case GetBuffer =>
      if s.free > 0 then s.(free := s.free - 1, held := s.held + 1)
      else s.(count := s.count + 1, held := s.held + 1)
    case Send(size) =>
      s.(queue := s.queue + [Event(s.next, s.next, size, InFlight)], headers := s.headers + [s.next],
         held := s.held - 1, pendingSends := s.pendingSends + 1, pendingBytes := s.pendingBytes + size,
         next := s.next + 1)
    case Lower(i) =>
      s.(queue := s.queue[i := s.queue[i].(stage := Completing)],
         pendingSends := s.pendingSends - 1, pendingBytes := s.pendingBytes - s.queue[i].size)
    case Finish(i) => Finished(s, i)
  }

  // -------------------------------------------------------------- invariant

  function Bytes(queue: seq<Event>): nat {
    if queue == [] then 0
    else (if queue[0].stage.InFlight? then queue[0].size else 0) + Bytes(queue[1..])
  }

  function Sends(queue: seq<Event>): nat {
    if queue == [] then 0 else (if queue[0].stage.InFlight? then 1 else 0) + Sends(queue[1..])
  }

  /** Events that still have their buffer. */
  function Buffers(queue: seq<Event>): nat {
    if queue == [] then 0 else (if queue[0].stage.Complete? then 0 else 1) + Buffers(queue[1..])
  }

  predicate Open(queue: seq<Event>, id: nat) {
    exists i :: 0 <= i < |queue| && queue[i].id == id && !queue[i].stage.Complete?
  }

  /** Header `i` belongs to send `i`, so the check in `clear_completed_` holds. */
  predicate Aligned(queue: seq<Event>, headers: seq<nat>) {
    |queue| == |headers| && forall i :: 0 <= i < |queue| ==> headers[i] == queue[i].header
  }

  predicate Ascending(queue: seq<Event>, next: nat) {
    && (forall i, j :: 0 <= i < j < |queue| ==> queue[i].id < queue[j].id)
    && (forall i :: 0 <= i < |queue| ==> queue[i].id < next)
  }

  /** The buffer of a send is given back once, when the send completes. */
  ghost predicate ReleasedOnce(s: State) {
    && (forall i, j :: 0 <= i < j < |s.released| ==> s.released[i] != s.released[j])
    && (forall id: nat :: id in s.released <==> id < s.next && !Open(s.queue, id))
  }

  ghost predicate Inv(s: State) {
    && Aligned(s.queue, s.headers)
    && (s.queue != [] ==> !s.queue[0].stage.Complete?)
    && Ascending(s.queue, s.next)
    && s.pendingBytes == Bytes(s.queue) && s.pendingSends == Sends(s.queue)
    && s.count == s.free + s.held + Buffers(s.queue) && s.count <= MAX_BUFFERS
    && ReleasedOnce(s)
  }

  /** A caller has to wait for a buffer only while all 512 are in use. */
  lemma BufferUnlessAllInUse(s: State)
    requires Inv(s)
    ensures Allowed(s, GetBuffer) <==> s.held + Buffers(s.queue) < 512
  {}

  lemma {:induction false} SumsAppend(queue: seq<Event>, e: Event)
    requires e.stage.InFlight?
    ensures Bytes(queue + [e]) == Bytes(queue) + e.size
    ensures Sends(queue + [e]) == Sends(queue) + 1
    ensures Buffers(queue + [e]) == Buffers(queue) + 1
  {
    if queue != [] {
      assert (queue + [e])[1..] == queue[1..] + [e];
      SumsAppend(queue[1..], e);
    }
  }

  lemma {:induction false} SumsUpdate(queue: seq<Event>, i: nat, stage: Stage)
    requires i < |queue|
    requires (queue[i].stage.InFlight? && stage.Completing?) || (queue[i].stage.Completing? && stage.Complete?)
    ensures var r := queue[i := queue[i].(stage := stage)];
            if stage.Completing? then
              Bytes(r) == Bytes(queue) - queue[i].size && Sends(r) == Sends(queue) - 1 && Buffers(r) == Buffers(queue)
            else
              Bytes(r) == Bytes(queue) && Sends(r) == Sends(queue) && Buffers(r) == Buffers(queue) - 1
  {
    var r := queue[i := queue[i].(stage := stage)];
    if i == 0 {
      assert r[1..] == queue[1..];
    } else {
      assert r[1..] == queue[1..][i - 1 := queue[1..][i - 1].(stage := stage)];
      SumsUpdate(queue[1..], i - 1, stage);
    }
  }

  /** Clearing drops completed sends only, from the front only, until the first
      that is not. */
  lemma {:induction false} ClearedKeeps(queue: seq<Event>, headers: seq<nat>, next: nat)
    requires Aligned(queue, headers) && Ascending(queue, next)
    ensures var (q, h) := Cleared(queue, headers);
            && Aligned(q, h) && Ascending(q, next)
            && (q != [] ==> !q[0].stage.Complete?)
            && Bytes(q) == Bytes(queue) && Sends(q) == Sends(queue) && Buffers(q) == Buffers(queue)
            && (forall id :: Open(q, id) <==> Open(queue, id))
  {
    if queue != [] && queue[0].stage.Complete? {
      ClearedKeeps(queue[1..], headers[1..], next);
      forall id ensures Open(queue[1..], id) <==> Open(queue, id) {
        OpenTail(queue, id);
      }
    }
  }

  lemma OpenTail(queue: seq<Event>, id: nat)
    requires queue != [] && queue[0].stage.Complete?
    ensures Open(queue[1..], id) <==> Open(queue, id)
  {
    if Open(queue, id) {
      var i :| 0 <= i < |queue| && queue[i].id == id && !queue[i].stage.Complete?;
      assert queue[1..][i - 1] == queue[i];
    }
  }

  lemma OpenUpdate(queue: seq<Event>, i: nat, stage: Stage, id: nat, next: nat)
    requires i < |queue| && Ascending(queue, next) && !queue[i].stage.Complete?
    ensures Open(queue[i := queue[i].(stage := stage)], id)
       <==> Open(queue, id) && !(stage.Complete? && id == queue[i].id)
  {
    var r := queue[i := queue[i].(stage := stage)];
    if Open(r, id) {
      var j :| 0 <= j < |r| && r[j].id == id && !r[j].stage.Complete?;
      assert queue[j].id == id;
    }
    if Open(queue, id) {
      var j :| 0 <= j < |queue| && queue[j].id == id && !queue[j].stage.Complete?;
      assert r[j].id == id;
    }
  }

  lemma SendKeeps(s: State, size: nat)
    requires Inv(s) && Allowed(s, Send(size))
    ensures Inv(Apply(s, Send(size)))
  {
    var e := Event(s.next, s.next, size, InFlight);
    SumsAppend(s.queue, e);
    var r := Apply(s, Send(size));
    forall id: nat ensures id in r.released <==> id < r.next && !Open(r.queue, id) {
      assert r.queue[|s.queue|] == e;
      if Open(s.queue, id) {
        var j :| 0 <= j < |s.queue| && s.queue[j].id == id && !s.queue[j].stage.Complete?;
        assert r.queue[j] == s.queue[j];
      }
    }
  }

  lemma LowerKeeps(s: State, i: nat)
    requires Inv(s) && Allowed(s, Lower(i))
    ensures Inv(Apply(s, Lower(i)))
  {
    SumsUpdate(s.queue, i, Completing);
    forall id ensures Open(Apply(s, Lower(i)).queue, id) <==> Open(s.queue, id) {
      OpenUpdate(s.queue, i, Completing, id, s.next);
    }
  }

  lemma FinishKeeps(s: State, i: nat)
    requires Inv(s) && Allowed(s, Finish(i))
    ensures Inv(Apply(s, Finish(i)))
  {
    var e := s.queue[i];
    var queue := s.queue[i := e.(stage := Complete)];
    SumsUpdate(s.queue, i, Complete);
    forall id ensures Open(queue, id) <==> Open(s.queue, id) && id != e.id {
      OpenUpdate(s.queue, i, Complete, id, s.next);
    }
    assert Open(s.queue, e.id);
    ClearedKeeps(queue, s.headers, s.next);
  }

  lemma KeepsInv(s: State, step: Step)
    requires Inv(s) && Allowed(s, step)
    ensures Inv(Apply(s, step))
  {
    match step {
      case GetBuffer =>
      case Send(size) => SendKeeps(s, size);
      case Lower(i) => LowerKeeps(s, i);
      case Finish(i) => FinishKeeps(s, i);
    }
  }

  predicate AllAllowed(s: State, steps: seq<Step>)
    requires |s.headers| == |s.queue|
    decreases |steps|
  {
    steps != [] ==> Allowed(s, steps[0]) && AllAllowed(Apply(s, steps[0]), steps[1..])
  }

  function After(s: State, steps: seq<Step>): State
    requires |s.headers| == |s.queue| && AllAllowed(s, steps)
    decreases |steps|
  {
    if steps == [] then s else After(Apply(s, steps[0]), steps[1..])
  }

  /** Under any order of completions: headers and sends stay paired, the front
      of the queue is never complete, each buffer is given back once, and the
      counters are exact. */
  lemma {:induction false} EveryRun(s: State, steps: seq<Step>)
    requires Inv(s) && AllAllowed(s, steps)
    ensures Inv(After(s, steps))
    decreases |steps|
  {
    if steps != [] {
      KeepsInv(s, steps[0]);
      EveryRun(Apply(s, steps[0]), steps[1..]);
    }
  }

  /** Over every run of messages of at most `m` octets, no more than 24 MiB and one
      message are under way. */
  lemma {:induction false} PendingBounded(s: State, steps: seq<Step>, m: nat)
    requires |s.headers| == |s.queue| && AllAllowed(s, steps) && s.pendingBytes <= 25165824 + m
    requires forall i :: 0 <= i < |steps| && steps[i].Send? ==> steps[i].size <= m
    ensures After(s, steps).pendingBytes <= 25165824 + m
    decreases |steps|
  {
    if steps != [] {
      assert steps[0].Send? ==> steps[0].size <= m;
      PendingBounded(Apply(s, steps[0]), steps[1..], m);
    }
  }

  lemma InitialInv()
    ensures Inv(INITIAL)
  {}

  /** When every send has given its buffer back, nothing is left behind. */
  lemma Quiescent(s: State)
    requires Inv(s) && forall id: nat :: id < s.next ==> id in s.released
    ensures s.queue == [] && s.headers == [] && s.pendingBytes == 0 && s.pendingSends == 0
    ensures s.count == s.free + s.held
  {
    if s.queue != [] {
      assert Open(s.queue, s.queue[0].id);
    }
  }
}
