/** Video channels, whose callbacks the pool starts: they start in order exactly
    when no pass dispatches two packets of the channel without an end-of-frame
    packet, which waits for the pool, between them. */
module RecvVideo {
  import opened RecvQueue
  import opened RecvStream
  import opened RecvOrder

  predicate Is(p: Packet, fid: int, channel: int) {
    p.fid == fid && p.channel == channel
  }

  /** Between two packets of the channel there is an end of frame. */
  predicate Segmented(todo: seq<Packet>, fid: int, channel: int) {
    forall i, j :: 0 <= i < j < |todo| && Is(todo[i], fid, channel) && Is(todo[j], fid, channel) ==>
      EndBetween(todo, i + 1, j)
  }

  predicate EndBetween(todo: seq<Packet>, lo: nat, hi: nat)
    requires hi <= |todo|
  {
    exists k :: lo <= k < hi && todo[k].IsEnd()
  }

  /** An end of frame comes before any packet of the channel. */
  predicate EndFirst(todo: seq<Packet>, fid: int, channel: int) {
    forall j :: 0 <= j < |todo| && Is(todo[j], fid, channel) ==> EndBetween(todo, 0, j)
  }

  lemma SegmentedTail(todo: seq<Packet>, fid: int, channel: int)
    requires todo != [] && Segmented(todo, fid, channel)
    ensures Segmented(todo[1..], fid, channel)
    ensures Is(todo[0], fid, channel) ==> EndFirst(todo[1..], fid, channel)
  {
    var rest := todo[1..];
    forall i, j | 0 <= i < j < |rest| && Is(rest[i], fid, channel) && Is(rest[j], fid, channel)
      ensures EndBetween(rest, i + 1, j)
    {
      BetweenTail(todo, i + 2, j + 1);
    }
    if Is(todo[0], fid, channel) {
      forall j | 0 <= j < |rest| && Is(rest[j], fid, channel) ensures EndBetween(rest, 0, j) {
        BetweenTail(todo, 1, j + 1);
      }
    }
  }

  lemma BetweenTail(todo: seq<Packet>, lo: nat, hi: nat)
    requires 0 < lo && 0 < hi <= |todo| && EndBetween(todo, lo, hi)
    ensures EndBetween(todo[1..], lo - 1, hi - 1)
  {
    var k :| lo <= k < hi && todo[k].IsEnd();
    assert todo[1..][k - 1].IsEnd();
  }

  lemma EndFirstTail(todo: seq<Packet>, fid: int, channel: int)
    requires todo != [] && EndFirst(todo, fid, channel) && !todo[0].IsEnd()
    ensures EndFirst(todo[1..], fid, channel)
  {
    var rest := todo[1..];
    forall j | 0 <= j < |rest| && Is(rest[j], fid, channel) ensures EndBetween(rest, 0, j) {
      var k :| 0 <= k < j + 1 && todo[k].IsEnd();
      assert rest[k - 1].IsEnd();
    }
  }

  // ------------------------------------------------------------ enough for order

  function Begun(s: Stream, fid: int, channel: int): seq<Packet> {
    Of(Starts(s.log), fid, channel)
  }

  function Handed(s: Stream, fid: int, channel: int): seq<Packet> {
    Of(s.launched, fid, channel)
  }

  /** `b` are the packets begun, `h` those handed over: at most the last of these
      is idle, and no other of the channel. */
  predicate LastIdle(b: seq<Packet>, h: seq<Packet>, idle: set<Packet>, fid: int, channel: int) {
    if b == h then forall x :: x in idle ==> !Is(x, fid, channel)
    else
      && h != [] && b == h[..|h| - 1] && h[|h| - 1] in idle && Is(h[|h| - 1], fid, channel)
      && forall x :: x in idle && Is(x, fid, channel) ==> x == h[|h| - 1]
  }

  predicate OneIdle(s: Stream, fid: int, channel: int) {
    s.idle <= s.running && LastIdle(Begun(s, fid, channel), Handed(s, fid, channel), s.idle, fid, channel)
  }

  /** While the pool has a packet of the channel, an end of frame comes first. */
  predicate Fenced(s: Stream, fid: int, channel: int) {
    if s.phase.Dispatching? then
      && Segmented(s.phase.todo, fid, channel)
      && ((exists x :: x in s.running && Is(x, fid, channel)) ==> EndFirst(s.phase.todo, fid, channel))
    else s.running == {}
  }

  /** What a launch does to the packets begun and handed over. */
  lemma {:induction false} LaunchLists(s: Stream, fid: int, channel: int)
    requires Allowed(s, Launch) && channel < FIRST_DATA_CHANNEL
    ensures var (p, r) := (s.phase.todo[0], Apply(s, Launch));
            && Begun(r, fid, channel) == Begun(s, fid, channel)
            && Handed(r, fid, channel) == Handed(s, fid, channel) + if Is(p, fid, channel) then [p] else []
  {
    var p := s.phase.todo[0];
    OfAppend(s.launched, [p], fid, channel);
    StartsOf(s.log, Started(p), fid, channel);
    OfOne(p, fid, channel);
  }

  lemma OfOne(p: Packet, fid: int, channel: int)
    ensures Of([p], fid, channel) == if Is(p, fid, channel) then [p] else []
  {
    assert [p][..0] == [];
  }

  lemma {:induction false} LaunchVideo(s: Stream, fid: int, channel: int)
    requires OneIdle(s, fid, channel) && Fenced(s, fid, channel) && Allowed(s, Launch) && channel < FIRST_DATA_CHANNEL
    ensures OneIdle(Apply(s, Launch), fid, channel)
  {
    var p := s.phase.todo[0];
    LaunchLists(s, fid, channel);
    if Is(p, fid, channel) {
      NoneRunning(s, fid, channel);
      LaunchOwn(Begun(s, fid, channel), Handed(s, fid, channel), s.idle, p, fid, channel);
    }
  }

  lemma NoneRunning(s: Stream, fid: int, channel: int)
    requires Fenced(s, fid, channel) && s.phase.Dispatching? && s.phase.todo != [] && Is(s.phase.todo[0], fid, channel)
    ensures forall x :: x in s.running ==> !Is(x, fid, channel)
  {
    assert !EndBetween(s.phase.todo, 0, 0);
  }

  lemma LaunchOwn(b: seq<Packet>, h: seq<Packet>, idle: set<Packet>, p: Packet, fid: int, channel: int)
    requires LastIdle(b, h, idle, fid, channel) && Is(p, fid, channel)
    requires forall x :: x in idle ==> !Is(x, fid, channel)
    ensures LastIdle(b, h + [p], idle + {p}, fid, channel)
  {
    assert b == h && (h + [p])[..|h|] == h;
  }

  lemma {:induction false} LaunchFenced(s: Stream, fid: int, channel: int)
    requires Fenced(s, fid, channel) && Allowed(s, Launch) && channel < FIRST_DATA_CHANNEL
    ensures Fenced(Apply(s, Launch), fid, channel)
  {
    var todo := s.phase.todo;
    SegmentedTail(todo, fid, channel);
    if !Is(todo[0], fid, channel) && !todo[0].IsEnd() && EndFirst(todo, fid, channel) {
      EndFirstTail(todo, fid, channel);
    }
  }

  lemma BeginList(b: seq<Packet>, h: seq<Packet>, idle: set<Packet>, p: Packet, fid: int, channel: int)
    requires LastIdle(b, h, idle, fid, channel) && p in idle
    ensures LastIdle(b + if Is(p, fid, channel) then [p] else [], h, idle - {p}, fid, channel)
  {
    if Is(p, fid, channel) {
      assert h == h[..|h| - 1] + [p];
    } else {
      assert b + [] == b;
    }
  }

  lemma {:induction false} BeginVideo(s: Stream, p: Packet, fid: int, channel: int)
    requires OneIdle(s, fid, channel) && Allowed(s, Begin(p))
    ensures OneIdle(Apply(s, Begin(p)), fid, channel)
  {
    BeginList(Begun(s, fid, channel), Handed(s, fid, channel), s.idle, p, fid, channel);
    StartsOf(s.log, Started(p), fid, channel);
    OfOne(p, fid, channel);
  }

  lemma {:induction false} FinishVideo(s: Stream, e: Event, fid: int, channel: int)
    requires e.Finished?
    ensures Of(Starts(s.log + [e]), fid, channel) == Begun(s, fid, channel)
  {
    StartsOf(s.log, e, fid, channel);
  }

  lemma {:induction false} KeepsVideo(s: Stream, step: Step, fid: int, channel: int)
    requires OneIdle(s, fid, channel) && Fenced(s, fid, channel) && Allowed(s, step) && channel < FIRST_DATA_CHANNEL
    requires step.Dispatch? ==> Segmented(Sorted(s.phase.batch), fid, channel)
    ensures OneIdle(Apply(s, step), fid, channel) && Fenced(Apply(s, step), fid, channel)
  {
    match step {
      case Launch =>
        LaunchVideo(s, fid, channel);
        LaunchFenced(s, fid, channel);
      case Begin(p) => BeginVideo(s, p, fid, channel);
      case FinishTask(p) => FinishVideo(s, Finished(p), fid, channel);
      case FinishCall => FinishVideo(s, Finished(s.phase.call.packet), fid, channel);
      case _ =>
    }
  }

  predicate AllSegmented(s: Stream, steps: seq<Step>, fid: int, channel: int)
    requires AllAllowed(s, steps)
    decreases |steps|
  {
    steps != [] ==>
      && (steps[0].Dispatch? ==> Segmented(Sorted(s.phase.batch), fid, channel))
      && AllSegmented(Apply(s, steps[0]), steps[1..], fid, channel)
  }

  lemma {:induction false} RunVideo(s: Stream, steps: seq<Step>, fid: int, channel: int)
    requires OneIdle(s, fid, channel) && Fenced(s, fid, channel) && channel < FIRST_DATA_CHANNEL
    requires AllAllowed(s, steps) && AllSegmented(s, steps, fid, channel)
    ensures OneIdle(Run(s, steps), fid, channel) && Fenced(Run(s, steps), fid, channel)
    decreases |steps|
  {
    if steps != [] {
      KeepsVideo(s, steps[0], fid, channel);
      RunVideo(Apply(s, steps[0]), steps[1..], fid, channel);
    }
  }

  /** If every pass is segmented, video callbacks start in the order packets came
      in, whatever the pool does. */
  lemma VideoInOrder(steps: seq<Step>, fid: int, channel: int)
    requires AllAllowed(INITIAL, steps) && AllTimely(INITIAL, steps, fid, channel) && channel < FIRST_DATA_CHANNEL
    requires AllSegmented(INITIAL, steps, fid, channel)
    ensures var s := Run(INITIAL, steps);
            Begun(s, fid, channel) <= Of(s.arrived, fid, channel)
  {
    RunVideo(INITIAL, steps, fid, channel);
    DispatchedInOrder(steps, fid, channel);
  }

  // ---------------------------------------------------------- needed for order

  /** A step of dispatching what a pass has released. */
  predicate InPass(steps: seq<Step>) {
    forall i :: 0 <= i < |steps| ==> steps[i].Launch? || steps[i].Begin? || steps[i].FinishTask? || steps[i].FinishCall?
  }

  lemma {:induction false} RunAppend(s: Stream, a: seq<Step>, b: seq<Step>)
    requires AllAllowed(s, a) && AllAllowed(Run(s, a), b)
    ensures AllAllowed(s, a + b) && Run(s, a + b) == Run(Run(s, a), b)
    decreases |a|
  {
    if a == [] {
      assert a + b == b;
    } else {
      assert (a + b)[1..] == a[1..] + b;
      RunAppend(Apply(s, a[0]), a[1..], b);
    }
  }

  lemma RunOne(s: Stream, step: Step)
    requires Allowed(s, step)
    ensures AllAllowed(s, [step]) && Run(s, [step]) == Apply(s, step)
  {
    assert [step][1..] == [];
  }

  /** The pool holds `held`, none of it started, and no call is under way. */
  predicate Holding(s: Stream, todo: seq<Packet>, held: set<Packet>) {
    s.phase == Dispatching(todo, NoCall) && s.running == held && s.idle == held
  }

  lemma RunTwo(s: Stream, a: Step, b: Step)
    requires Allowed(s, a) && Allowed(Apply(s, a), b)
    ensures AllAllowed(s, [a, b]) && Run(s, [a, b]) == Apply(Apply(s, a), b)
  {
    assert [a, b][1..] == [b];
    RunOne(Apply(s, a), b);
  }

  lemma RunThree(s: Stream, a: Step, b: Step, c: Step)
    requires Allowed(s, a) && Allowed(Apply(s, a), b) && Allowed(Apply(Apply(s, a), b), c)
    ensures AllAllowed(s, [a, b, c]) && Run(s, [a, b, c]) == Apply(Apply(Apply(s, a), b), c)
  {
    assert [a, b, c][1..] == [b, c];
    RunTwo(Apply(s, a), b, c);
  }

  lemma StartsBoth(log: seq<Event>, p: Packet)
    ensures Starts(log + [Started(p)] + [Finished(p)]) == Starts(log) + [p]
  {
    StartsMore(log, Started(p));
    StartsMore(log + [Started(p)], Finished(p));
  }

  /** A packet is launched, begun and finished at once. */
  function Passing(p: Packet): (steps: seq<Step>)
    ensures InPass(steps)
  {
    if p.IsVideo() then [Launch, Begin(p), FinishTask(p)] else [Launch, FinishCall]
  }

  lemma {:induction false} Through1(s: Stream, todo: seq<Packet>, held: set<Packet>)
    requires Holding(s, todo, held) && todo != [] && todo[0] !in held && (todo[0].IsEnd() ==> held == {})
    ensures AllAllowed(s, Passing(todo[0]))
    ensures var r := Run(s, Passing(todo[0]));
            && Holding(r, todo[1..], held) && r.launched == s.launched + [todo[0]]
            && Starts(r.log) == Starts(s.log) + [todo[0]]
  {
    var p := todo[0];
    StartsBoth(s.log, p);
    if p.IsVideo() {
      RunThree(s, Launch, Begin(p), FinishTask(p));
      assert held + {p} - {p} == held;
    } else {
      RunTwo(s, Launch, FinishCall);
    }
  }

  /** From `s` to `r` the first `n` packets went through. */
  predicate Went(s: Stream, r: Stream, todo: seq<Packet>, n: nat, held: set<Packet>)
    requires n <= |todo|
  {
    && Holding(r, todo[n..], held) && r.launched == s.launched + todo[..n]
    && Starts(r.log) == Starts(s.log) + todo[..n]
  }

  lemma WentOn(s: Stream, s1: Stream, r: Stream, todo: seq<Packet>, n: nat, held: set<Packet>)
    requires 0 < n <= |todo| && s1.launched == s.launched + [todo[0]] && Starts(s1.log) == Starts(s.log) + [todo[0]]
    requires Went(s1, r, todo[1..], n - 1, held)
    ensures Went(s, r, todo, n, held)
  {
    assert todo[..n] == [todo[0]] + todo[1..][..n - 1] && todo[n..] == todo[1..][n - 1..];
  }

  lemma {:induction false} Through(s: Stream, todo: seq<Packet>, n: nat, held: set<Packet>) returns (steps: seq<Step>)
    requires Holding(s, todo, held) && n <= |todo|
    requires forall k :: 0 <= k < n ==> todo[k] !in held && (todo[k].IsEnd() ==> held == {})
    ensures AllAllowed(s, steps) && InPass(steps) && Went(s, Run(s, steps), todo, n, held)
    decreases n
  {
    if n == 0 {
      steps := [];
    } else {
      var a := Passing(todo[0]);
      Through1(s, todo, held);
      var b := Through(Run(s, a), todo[1..], n - 1, held);
      steps := ThroughOn(s, a, b, todo, n, held);
    }
  }

  lemma {:induction false} ThroughOn(s: Stream, a: seq<Step>, b: seq<Step>, todo: seq<Packet>, n: nat, held: set<Packet>)
    returns (steps: seq<Step>)
    requires AllAllowed(s, a) && InPass(a) && AllAllowed(Run(s, a), b) && InPass(b) && 0 < n <= |todo|
    requires var s1 := Run(s, a);
             && s1.launched == s.launched + [todo[0]] && Starts(s1.log) == Starts(s.log) + [todo[0]]
             && Went(s1, Run(s1, b), todo[1..], n - 1, held)
    ensures AllAllowed(s, steps) && InPass(steps) && Went(s, Run(s, steps), todo, n, held)
  {
    WentOn(s, Run(s, a), Run(Run(s, a), b), todo, n, held);
    RunAppend(s, a, b);
    steps := a + b;
  }

  /** These steps of the pass start callbacks of the channel out of order. */
  predicate Reversing(s: Stream, steps: seq<Step>, fid: int, channel: int) {
    && AllAllowed(s, steps) && InPass(steps)
    && !(Begun(Run(s, steps), fid, channel) <= Handed(Run(s, steps), fid, channel))
  }

  lemma {:induction false} ReversingLater(s: Stream, a: seq<Step>, b: seq<Step>, fid: int, channel: int)
    requires AllAllowed(s, a) && InPass(a) && Reversing(Run(s, a), b, fid, channel)
    ensures Reversing(s, a + b, fid, channel)
  {
    RunAppend(s, a, b);
  }

  /** Two packets of the channel that nothing keeps apart. */
  predicate Loose(todo: seq<Packet>, i: nat, j: nat, fid: int, channel: int) {
    && i < j < |todo| && Is(todo[i], fid, channel) && Is(todo[j], fid, channel) && !EndBetween(todo, i + 1, j)
    && forall k :: i < k < j ==> !Is(todo[k], fid, channel)
  }

  lemma {:induction false} FindLoose(todo: seq<Packet>, i: nat, j: nat, fid: int, channel: int) returns (i1: nat, j1: nat)
    requires i < j < |todo| && Is(todo[i], fid, channel) && Is(todo[j], fid, channel) && !EndBetween(todo, i + 1, j)
    ensures Loose(todo, i1, j1, fid, channel)
    decreases j - i
  {
    if k :| i < k < j && Is(todo[k], fid, channel) {
      assert forall l :: i + 1 <= l < k ==> !todo[l].IsEnd();
      i1, j1 := FindLoose(todo, i, k, fid, channel);
    } else {
      i1, j1 := i, j;
    }
  }

  predicate Distinct(todo: seq<Packet>) {
    forall i, j :: 0 <= i < j < |todo| ==> todo[i] != todo[j]
  }

  /** The pool holds `p` and gets `q` after it: it may begin with `q`. */
  lemma {:induction false} Overtake(s: Stream, p: Packet, todo: seq<Packet>, fid: int, channel: int)
    requires Holding(s, todo, {p}) && todo != [] && todo[0] != p && channel < FIRST_DATA_CHANNEL
    requires Is(p, fid, channel) && Is(todo[0], fid, channel)
    requires Handed(s, fid, channel) == Begun(s, fid, channel) + [p]
    ensures Reversing(s, [Launch, Begin(todo[0])], fid, channel)
  {
    var q, b := todo[0], Begun(s, fid, channel);
    RunTwo(s, Launch, Begin(q));
    LaunchLists(s, fid, channel);
    var s1 := Apply(s, Launch);
    StartsOf(s1.log, Started(q), fid, channel);
    OfOne(q, fid, channel);
    var r := Run(s, [Launch, Begin(q)]);
    assert Begun(r, fid, channel) == b + [q] && Handed(r, fid, channel) == b + [p] + [q];
    assert (b + [q])[|b|] == q && (b + [p] + [q])[|b|] == p;
  }

  /** All that was handed over has begun, and a new pass is dispatched. */
  predicate Fresh(s: Stream, todo: seq<Packet>, fid: int, channel: int) {
    Holding(s, todo, {}) && Begun(s, fid, channel) == Handed(s, fid, channel)
  }

  lemma {:induction false} OfNone(ps: seq<Packet>, fid: int, channel: int)
    requires forall k :: 0 <= k < |ps| ==> !Is(ps[k], fid, channel)
    ensures Of(ps, fid, channel) == []
  {
    if ps != [] {
      OfNone(ps[..|ps| - 1], fid, channel);
    }
  }

  lemma WentLists(s: Stream, r: Stream, todo: seq<Packet>, n: nat, held: set<Packet>, fid: int, channel: int)
    requires n <= |todo| && Went(s, r, todo, n, held)
    ensures Begun(r, fid, channel) == Begun(s, fid, channel) + Of(todo[..n], fid, channel)
    ensures Handed(r, fid, channel) == Handed(s, fid, channel) + Of(todo[..n], fid, channel)
  {
    OfAppend(s.launched, todo[..n], fid, channel);
    OfAppend(Starts(s.log), todo[..n], fid, channel);
  }

  lemma {:induction false} HoldFirst(s: Stream, todo: seq<Packet>, fid: int, channel: int)
    requires Fresh(s, todo, fid, channel) && todo != [] && Is(todo[0], fid, channel) && channel < FIRST_DATA_CHANNEL
    ensures Allowed(s, Launch) && Holding(Apply(s, Launch), todo[1..], {todo[0]})
    ensures Handed(Apply(s, Launch), fid, channel) == Begun(Apply(s, Launch), fid, channel) + [todo[0]]
  {
    LaunchLists(s, fid, channel);
  }

  lemma {:induction false} FreshOn(s: Stream, todo: seq<Packet>, n: nat, fid: int, channel: int) returns (steps: seq<Step>)
    requires Fresh(s, todo, fid, channel) && n <= |todo|
    ensures AllAllowed(s, steps) && InPass(steps) && Fresh(Run(s, steps), todo[n..], fid, channel)
  {
    steps := Through(s, todo, n, {});
    WentLists(s, Run(s, steps), todo, n, {}, fid, channel);
  }

  /** Up to and with the first of two loose packets, which the pool holds. */
  lemma {:induction false} ToFirst(s: Stream, todo: seq<Packet>, i: nat, fid: int, channel: int) returns (steps: seq<Step>)
    requires Fresh(s, todo, fid, channel) && i < |todo| && Is(todo[i], fid, channel) && channel < FIRST_DATA_CHANNEL
    ensures AllAllowed(s, steps) && InPass(steps)
    ensures var r := Run(s, steps);
            && Holding(r, todo[i..][1..], {todo[i]})
            && Handed(r, fid, channel) == Begun(r, fid, channel) + [todo[i]]
  {
    var a := FreshOn(s, todo, i, fid, channel);
    HoldFirst(Run(s, a), todo[i..], fid, channel);
    RunOne(Run(s, a), Launch);
    RunAppend(s, a, [Launch]);
    steps := a + [Launch];
  }

  /** The pool holds `p`, which is all that was handed over and has not begun. */
  predicate HoldingOne(s: Stream, todo: seq<Packet>, p: Packet, fid: int, channel: int) {
    Holding(s, todo, {p}) && Handed(s, fid, channel) == Begun(s, fid, channel) + [p]
  }

  lemma {:induction false} HoldOn(s: Stream, p: Packet, todo: seq<Packet>, n: nat, fid: int, channel: int)
    returns (steps: seq<Step>)
    requires HoldingOne(s, todo, p, fid, channel) && Is(p, fid, channel) && n <= |todo|
    requires forall k :: 0 <= k < n ==> !Is(todo[k], fid, channel) && !todo[k].IsEnd()
    ensures AllAllowed(s, steps) && InPass(steps) && HoldingOne(Run(s, steps), todo[n..], p, fid, channel)
  {
    steps := Through(s, todo, n, {p});
    WentLists(s, Run(s, steps), todo, n, {p}, fid, channel);
    OfNone(todo[..n], fid, channel);
  }

  /** From there to the second. */
  lemma {:induction false} ToSecond(s: Stream, p: Packet, todo: seq<Packet>, n: nat, fid: int, channel: int)
    returns (steps: seq<Step>)
    requires HoldingOne(s, todo, p, fid, channel) && n < |todo| && Is(p, fid, channel) && channel < FIRST_DATA_CHANNEL
    requires forall k :: 0 <= k < n ==> !Is(todo[k], fid, channel) && !todo[k].IsEnd()
    requires Is(todo[n], fid, channel) && todo[n] != p
    ensures Reversing(s, steps, fid, channel)
  {
    var a := HoldOn(s, p, todo, n, fid, channel);
    var b := [Launch, Begin(todo[n])];
    Overtake(Run(s, a), p, todo[n..], fid, channel);
    ReversingLater(s, a, b, fid, channel);
    steps := a + b;
  }

  /** Two loose packets may start in the reverse order. */
  lemma {:induction false} Reverses(s: Stream, todo: seq<Packet>, fid: int, channel: int) returns (steps: seq<Step>)
    requires Fresh(s, todo, fid, channel) && Distinct(todo) && channel < FIRST_DATA_CHANNEL
    requires !Segmented(todo, fid, channel)
    ensures Reversing(s, steps, fid, channel)
  {
    var i0, j0 :| 0 <= i0 < j0 < |todo| && Is(todo[i0], fid, channel) && Is(todo[j0], fid, channel)
                  && !EndBetween(todo, i0 + 1, j0);
    var i, j := FindLoose(todo, i0, j0, fid, channel);
    var a := ToFirst(s, todo, i, fid, channel);
    var rest := todo[i..][1..];
    assert forall k :: 0 <= k < j - i - 1 ==> rest[k] == todo[i + 1 + k];
    assert rest[j - i - 1] == todo[j];
    var b := ToSecond(Run(s, a), todo[i], rest, j - i - 1, fid, channel);
    ReversingLater(s, a, b, fid, channel);
    steps := a + b;
  }

  /** Whatever the pool does, callbacks of the pass start in the order of hand-over. */
  ghost predicate AlwaysInOrder(s: Stream, fid: int, channel: int) {
    forall steps :: AllAllowed(s, steps) && InPass(steps) ==>
      Begun(Run(s, steps), fid, channel) <= Handed(Run(s, steps), fid, channel)
  }

  lemma {:induction false} NoDispatch(s: Stream, steps: seq<Step>, fid: int, channel: int)
    requires AllAllowed(s, steps) && InPass(steps)
    ensures AllSegmented(s, steps, fid, channel)
    decreases |steps|
  {
    if steps != [] {
      NoDispatch(Apply(s, steps[0]), steps[1..], fid, channel);
    }
  }

  /** For a pass of distinct packets: video callbacks of the channel start in order
      under every schedule of the pool if and only if the pass is segmented. */
  lemma PassExact(s: Stream, todo: seq<Packet>, fid: int, channel: int)
    requires Fresh(s, todo, fid, channel) && Distinct(todo) && channel < FIRST_DATA_CHANNEL
    ensures Segmented(todo, fid, channel) <==> AlwaysInOrder(s, fid, channel)
  {
    if Segmented(todo, fid, channel) {
      forall steps | AllAllowed(s, steps) && InPass(steps)
        ensures Begun(Run(s, steps), fid, channel) <= Handed(Run(s, steps), fid, channel)
      {
        NoDispatch(s, steps, fid, channel);
        RunVideo(s, steps, fid, channel);
      }
    } else {
      var steps := Reverses(s, todo, fid, channel);
    }
  }
}
