/** Request/credit flow control between a receiving stream and its host. The
    receiver asks for frames in batches of `n` and asks again when its tally of
    end-of-frame packets is half used up; the host counts the credit down. The
    two talk over a FIFO channel each way. On the receiving side the application,
    a refresh and the thread that reads packets work at the same time, and no lock
    is common to them: each request and each change of a tally is a step. */
module FlowControl {
  const FRAMESETS := 5

  datatype Frame = Frame(frameset: nat, source: nat)
  datatype Packet = Packet(frame: Frame, isEnd: bool)
  datatype Request = Request(frame: Frame, count: nat)

  /** A refresh asks for `todo`, then resets the tallies from `next` on. `late` counts
      the end-of-frame packets received since it began. */
  datatype Refresh = NoRefresh | Refreshing(todo: seq<Frame>, next: nat, late: nat)

  /** The thread that reads packets asks for `todo`, then resets one tally. */
  datatype Reader = Ready | Reasking(frameset: nat, todo: seq<Frame>)

  /** `selected` has the frames with a selected channel, `asks` the requests that
      calls of `enable` have yet to send, and `credit` the frames the host holds a
      client entry for. */
  datatype Net = Net(tally: seq<int>, enabled: set<Frame>, selected: set<Frame>, asks: seq<Frame>,
                     refresh: Refresh, reader: Reader,
                     credit: map<Frame, int>, requests: seq<Request>, packets: seq<Packet>)

  /** Half of the batch size, rounded toward zero as the source does. */
  function Half(n: int): int {
    if n >= 0 then n / 2 else -(-n / 2)
  }

  /** The batch size as the request carries it: eight bits. */
  function Count(n: int): nat {
    n % 256
  }

  function Initial(n: int): Net {
    Net([n, n, n, n, n], {}, {}, [], NoRefresh, Ready, map[], [], [])
  }

  function Requests(frames: seq<Frame>, n: int): (r: seq<Request>)
    ensures |r| == |frames|
    ensures forall i :: 0 <= i < |frames| ==> r[i] == Request(frames[i], Count(n))
  {
    seq(|frames|, i requires 0 <= i < |frames| => Request(frames[i], Count(n)))
  }

  function Max(a: int, b: int): int {
    if a < b then b else a
  }

  function CreditOf(credit: map<Frame, int>, f: Frame): int {
    if f in credit then credit[f] else 0
  }

  /** Host: a request raises the client's credit to the batch size. */
  function Granted(credit: map<Frame, int>, r: Request): map<Frame, int> {
    credit[r.frame := Max(CreditOf(credit, r.frame), r.count)]
  }

  /** A request never lowers a credit, and touches no other frame's. */
  lemma GrantRaises(credit: map<Frame, int>, r: Request, f: Frame)
    ensures var after := CreditOf(Granted(credit, r), f);
            && after >= CreditOf(credit, f)
            && (f == r.frame ==> after >= r.count && (after == r.count || after == CreditOf(credit, f)))
            && (f != r.frame ==> after == CreditOf(credit, f))
  {}

  /** Host: entries without credit are dropped. */
  function CleanedUp(credit: map<Frame, int>): map<Frame, int> {
    map f | f in credit && credit[f] > 0 :: credit[f]
  }

  /** Host: a packet of `f` is charged. The clean-up is a step of its own, so an
      entry without credit may be charged again before it. */
  function Charged(credit: map<Frame, int>, f: Frame, isEnd: bool): map<Frame, int>
    requires f in credit
  {
    credit[f := credit[f] - if isEnd then 1 else 0]
  }

  // ------------------------------------------------------------------ steps

  /** `order` is the order in which frames, and each of their channels, happen
      to be visited. */
  datatype Step =
    | Enable(frame: Frame, channels: nat)
    | EnableFrame(frame: Frame)
    | Ask(i: nat)
    | BeginRefresh(order: seq<Frame>)
    | RefreshAsk(sent: bool)
    | Reset
    | Receive(order: seq<Frame>)
    | ReaderAsk(sent: bool)
    | Rewind
    | Grant
    | Send(frame: Frame, isEnd: bool)
    | CleanUp

  /** `order` visits exactly the enabled frames, of one frameset if that is not negative. */
  predicate Visits(order: seq<Frame>, enabled: set<Frame>, frameset: int) {
    && (forall f :: f in order ==> f in enabled && (frameset < 0 || f.frameset == frameset))
    && (forall f :: f in enabled && (frameset < 0 || f.frameset == frameset) ==> f in order)
  }

  predicate Counts(p: Packet) {
    p.isEnd && p.frame.frameset < FRAMESETS
  }

  predicate Sane(s: Net) {
    && |s.tally| == FRAMESETS
    && (s.refresh.Refreshing? ==> s.refresh.next < FRAMESETS)
    && (s.reader.Reasking? ==> s.reader.frameset < FRAMESETS)
  }

  /** At most `k` end-of-frame packets are received while a refresh is under way. A
      frame that is visited is asked for unless it has no selected channel. */
  predicate Allowed(s: Net, step: Step, k: nat) {
    match step
    case Enable(f, _) => f.frameset < FRAMESETS
    case EnableFrame(f) => f.frameset < FRAMESETS
    case Ask(i) => i < |s.asks|
    case BeginRefresh(order) => s.refresh.NoRefresh? && Visits(order, s.enabled, -1)
    case RefreshAsk(sent) => s.refresh.Refreshing? && s.refresh.todo != [] && (sent || s.refresh.todo[0] !in s.selected)
    case Reset => s.refresh.Refreshing? && s.refresh.todo == []
    case Receive(order) =>
      && s.packets != [] && s.reader.Ready? && Visits(order, s.enabled, s.packets[0].frame.frameset)
      && (s.refresh.Refreshing? && Counts(s.packets[0]) ==> s.refresh.late < k)
    case ReaderAsk(sent) => s.reader.Reasking? && s.reader.todo != [] && (sent || s.reader.todo[0] !in s.selected)
    case Rewind => s.reader.Reasking? && s.reader.todo == []
    case Grant => s.requests != []
    case Send(_, _) => true
    case CleanUp => true
  }

  function Later(r: Refresh): Refresh {
    if r.NoRefresh? then r else r.(late := r.late + 1)
  }

  /** A packet is read. An end of frame lowers the tally, or begins another round of requests. */
  function Received(s: Net, order: seq<Frame>, n: int): Net
    requires s.packets != [] && |s.tally| == FRAMESETS
  {
    var p, rest := s.packets[0], s.(packets := s.packets[1..]);
    if !Counts(p) then rest
    else
      var fs, r := p.frame.frameset, rest.(refresh := Later(s.refresh));
      if s.tally[fs] <= Half(n) then r.(reader := Reasking(fs, order))
      else r.(tally := s.tally[fs := s.tally[fs] - 1])
  }

  function Apply(s: Net, step: Step, n: int, k: nat): (r: Net)
    requires Sane(s) && Allowed(s, step, k)
    ensures Sane(r)
  {
    match step
    case Enable(f, channels) =>
      s.(enabled := s.enabled + {f}, selected := s.selected + (if channels == 0 then {} else {f}),
         asks := s.asks + seq(channels, _ => f))
    case EnableFrame(f) => s.(enabled := s.enabled + {f}, asks := s.asks + [f])
    case Ask(i) =>
      s.(asks := s.asks[..i] + s.asks[i + 1..], requests := s.requests + Requests([s.asks[i]], n))
    case BeginRefresh(order) => s.(refresh := Refreshing(order, 0, 0))
    case RefreshAsk(sent) =>
      s.(refresh := s.refresh.(todo := s.refresh.todo[1..]),
         requests := s.requests + Requests(if sent then [s.refresh.todo[0]] else [], n))
    case Reset =>
      var i := s.refresh.next;
      s.(tally := s.tally[i := n],
         refresh := if i + 1 == FRAMESETS then NoRefresh else s.refresh.(next := i + 1))
    case Receive(order) => Received(s, order, n)
    case ReaderAsk(sent) =>
      s.(reader := s.reader.(todo := s.reader.todo[1..]),
         requests := s.requests + Requests(if sent then [s.reader.todo[0]] else [], n))
    case Rewind => s.(tally := s.tally[s.reader.frameset := n], reader := Ready)
    case Grant => s.(requests := s.requests[1..], credit := Granted(s.credit, s.requests[0]))
    case Send(f, isEnd) =>
      if f !in s.credit then s
      else s.(packets := s.packets + [Packet(f, isEnd)], credit := Charged(s.credit, f, isEnd))
    case CleanUp => s.(credit := CleanedUp(s.credit))
  }

  // -------------------------------------------------------------- invariant

  /** End-of-frame packets still needed before the receiver asks again. */
  function Need(tally: int, n: int): int {
    if tally <= Half(n) then 1 else tally - Half(n) + 1
  }

  function EndsOf(packets: seq<Packet>, f: Frame): nat {
    if packets == [] then 0
    else (if packets[0] == Packet(f, true) then 1 else 0) + EndsOf(packets[1..], f)
  }

  predicate Asked(requests: seq<Request>, f: Frame) {
    exists r :: r in requests && r.frame == f
  }

  /** A request for the frame is on its way, or about to be sent. */
  predicate Coming(s: Net, f: Frame) {
    || f in s.asks
    || (s.refresh.Refreshing? && f in s.refresh.todo)
    || (s.reader.Reasking? && f in s.reader.todo)
    || Asked(s.requests, f)
  }

  /** End-of-frame packets that have been sent or may be sent without another request. */
  function Supply(s: Net, f: Frame): int {
    CreditOf(s.credit, f) + EndsOf(s.packets, f)
  }

  /** The batch is large enough to last until the next request. */
  predicate Adequate(n: int) {
    Count(n) >= Need(n, n)
  }

  /** And also if `k` of its packets are used up before a refresh resets the tally. */
  predicate Lasting(n: int, k: nat) {
    Adequate(n) && (n < 0 || k < n / 2)
  }

  /** What host and network together must still hold of a frame. */
  function Owed(s: Net, f: Frame, n: int, k: nat): int
    requires Sane(s) && f.frameset < FRAMESETS
  {
    if n < 0 then 1
    else if s.reader.Reasking? && s.reader.frameset == f.frameset then n
    else if s.refresh.Refreshing? then n - s.refresh.late
    else s.tally[f.frameset] - k
  }

  predicate Fed(s: Net, f: Frame, n: int, k: nat)
    requires Sane(s) && f.frameset < FRAMESETS
  {
    Coming(s, f) || Supply(s, f) >= Owed(s, f, n, k)
  }

  predicate Bounded(s: Net, n: int, k: nat) {
    && Sane(s)
    && (forall i :: 0 <= i < FRAMESETS ==> s.tally[i] <= n && (n >= 0 ==> s.tally[i] >= Half(n)))
    && (forall r :: r in s.requests ==> r.count == Count(n))
    && (forall f :: f in s.credit ==> s.credit[f] <= Count(n))
    && (s.refresh.Refreshing? ==> s.refresh.late <= k)
    && s.selected <= s.enabled
  }

  predicate Inv(s: Net, n: int, k: nat) {
    && Bounded(s, n, k)
    && (forall f :: f in s.enabled && f in s.selected ==> f.frameset < FRAMESETS && Fed(s, f, n, k))
  }

  lemma {:induction false} EndsAppend(a: seq<Packet>, b: seq<Packet>, f: Frame)
    ensures EndsOf(a + b, f) == EndsOf(a, f) + EndsOf(b, f)
  {
    if a == [] {
      assert a + b == b;
    } else {
      assert (a + b)[1..] == a[1..] + b;
      EndsAppend(a[1..], b, f);
    }
  }

  lemma AskedMore(requests: seq<Request>, order: seq<Frame>, n: int, f: Frame)
    ensures Asked(requests, f) ==> Asked(requests + Requests(order, n), f)
    ensures f in order ==> Asked(requests + Requests(order, n), f)
  {
    if Asked(requests, f) {
      var r :| r in requests && r.frame == f;
      assert r in requests + Requests(order, n);
    }
    if f in order {
      var i :| 0 <= i < |order| && order[i] == f;
      assert Requests(order, n)[i] in requests + Requests(order, n);
    }
  }

  lemma KeepsBounded(s: Net, step: Step, n: int, k: nat)
    requires Bounded(s, n, k) && Allowed(s, step, k) && Lasting(n, k)
    ensures Bounded(Apply(s, step, n, k), n, k)
  {
    AdequateIff(n);
  }

  lemma KeepsInv(s: Net, step: Step, n: int, k: nat)
    requires Inv(s, n, k) && Allowed(s, step, k) && Lasting(n, k)
    ensures Inv(Apply(s, step, n, k), n, k)
  {
    var r := Apply(s, step, n, k);
    KeepsBounded(s, step, n, k);
    forall f | f in r.enabled && f in r.selected ensures f.frameset < FRAMESETS && Fed(r, f, n, k) {
      KeepsFed(s, step, n, k, f);
    }
  }

  lemma {:induction false} ReceiveFed(s: Net, order: seq<Frame>, n: int, k: nat, f: Frame)
    requires Inv(s, n, k) && Allowed(s, Receive(order), k) && Lasting(n, k) && f in s.enabled && f in s.selected
    ensures f.frameset < FRAMESETS && Fed(Received(s, order, n), f, n, k)
  {
    AdequateIff(n);
    assert Fed(s, f, n, k);
  }

  lemma {:induction false} HostFed(s: Net, step: Step, n: int, k: nat, f: Frame)
    requires Inv(s, n, k) && Allowed(s, step, k) && Lasting(n, k) && f in s.enabled && f in s.selected
    requires step.Grant? || step.Send? || step.CleanUp?
    ensures f.frameset < FRAMESETS && Fed(Apply(s, step, n, k), f, n, k)
  {
    AdequateIff(n);
    assert Fed(s, f, n, k);
    if step.Grant? {
      assert s.requests == [s.requests[0]] + s.requests[1..];
    } else if step.Send? {
      EndsAppend(s.packets, [Packet(step.frame, step.isEnd)], f);
    }
  }

  lemma {:induction false} KeepsFed(s: Net, step: Step, n: int, k: nat, f: Frame)
    requires Inv(s, n, k) && Allowed(s, step, k) && Lasting(n, k)
    requires f in Apply(s, step, n, k).enabled && f in Apply(s, step, n, k).selected
    ensures f.frameset < FRAMESETS && Fed(Apply(s, step, n, k), f, n, k)
  {
    AdequateIff(n);
    match step {
      case Enable(g, channels) =>
        if f == g && channels > 0 {
          assert seq(channels, _ => g)[0] == g;
        }
      case EnableFrame(g) =>
      case Ask(i) => AskedMore(s.requests, [s.asks[i]], n, f);
      case BeginRefresh(_) =>
      case RefreshAsk(sent) => AskedMore(s.requests, if sent then [s.refresh.todo[0]] else [], n, f);
      case Reset =>
      case Receive(order) => ReceiveFed(s, order, n, k, f);
      case ReaderAsk(sent) => AskedMore(s.requests, if sent then [s.reader.todo[0]] else [], n, f);
      case Rewind =>
      case _ => HostFed(s, step, n, k, f);
    }
  }

  // ------------------------------------------------------------- whole runs

  predicate AllAllowed(s: Net, steps: seq<Step>, n: int, k: nat)
    requires Sane(s)
    decreases |steps|
  {
    steps != [] ==> Allowed(s, steps[0], k) && AllAllowed(Apply(s, steps[0], n, k), steps[1..], n, k)
  }

  function Run(s: Net, steps: seq<Step>, n: int, k: nat): (r: Net)
    requires Sane(s) && AllAllowed(s, steps, n, k)
    ensures Sane(r)
    decreases |steps|
  {
    if steps == [] then s else Run(Apply(s, steps[0], n, k), steps[1..], n, k)
  }

  lemma {:induction false} RunKeepsInv(s: Net, steps: seq<Step>, n: int, k: nat)
    requires Inv(s, n, k) && Lasting(n, k) && AllAllowed(s, steps, n, k)
    ensures Inv(Run(s, steps, n, k), n, k)
    decreases |steps|
  {
    if steps != [] {
      KeepsInv(s, steps[0], n, k);
      RunKeepsInv(Apply(s, steps[0], n, k), steps[1..], n, k);
    }
  }

  /** In every reachable state each enabled frame with a channel has a request coming,
      an end-of-frame packet under way, or credit at the host. */
  lemma AlwaysUnderWay(steps: seq<Step>, n: int, k: nat, f: Frame)
    requires Lasting(n, k) && AllAllowed(Initial(n), steps, n, k)
    requires f in Run(Initial(n), steps, n, k).enabled && f in Run(Initial(n), steps, n, k).selected
    ensures var s := Run(Initial(n), steps, n, k);
            && f.frameset < FRAMESETS
            && (Coming(s, f) || Supply(s, f) >= Owed(s, f, n, k) >= 1)
            && CreditOf(s.credit, f) <= Count(n)
  {
    AdequateIff(n);
    RunKeepsInv(Initial(n), steps, n, k);
  }

  /** The batch sizes that last are those from 2 to 255 (and the negative ones
      that are not multiples of 256, which keep the tally at its limit). */
  lemma AdequateIff(n: int)
    ensures Adequate(n) <==> 2 <= n <= 255 || (n < 0 && n % 256 != 0)
  {
    if n >= 256 {
      assert n % 256 <= n - 256 && n % 256 <= 255;
    }
  }

  /** For the sizes 2 to 255: the tally never falls under half the batch, the credit
      never exceeds the batch, and the supply falls short of the tally by what a
      refresh let pass, at most. */
  lemma TallyCovered(steps: seq<Step>, n: int, k: nat, f: Frame)
    requires 2 <= n <= 255 && k < n / 2 && AllAllowed(Initial(n), steps, n, k)
    requires f in Run(Initial(n), steps, n, k).enabled && f in Run(Initial(n), steps, n, k).selected
    ensures var s := Run(Initial(n), steps, n, k);
            && f.frameset < FRAMESETS
            && 0 < n / 2 <= s.tally[f.frameset] <= n
            && CreditOf(s.credit, f) <= n
            && (Coming(s, f) || Supply(s, f) >= s.tally[f.frameset] - k)
  {
    AdequateIff(n);
    RunKeepsInv(Initial(n), steps, n, k);
  }

  /** Nothing is under way, no call is being made and the host has no client entry. */
  predicate Stalled(s: Net) {
    && s.enabled != {} && s.asks == [] && s.refresh.NoRefresh? && s.reader.Ready?
    && s.requests == [] && s.packets == [] && s.credit == map[]
  }

  /** Only the application, by enabling or refreshing, can end a stall. */
  lemma {:induction false} StalledForever(s: Net, step: Step, n: int, k: nat)
    requires Stalled(s) && Sane(s) && Allowed(s, step, k)
    requires !step.Enable? && !step.EnableFrame? && !step.BeginRefresh?
    ensures Apply(s, step, n, k) == s
  {}

  lemma {:induction false} RunAppend(s: Net, a: seq<Step>, b: seq<Step>, n: int, k: nat)
    requires Sane(s) && AllAllowed(s, a, n, k) && AllAllowed(Run(s, a, n, k), b, n, k)
    ensures AllAllowed(s, a + b, n, k) && Run(s, a + b, n, k) == Run(Run(s, a, n, k), b, n, k)
    decreases |a|
  {
    if a == [] {
      assert a + b == b;
    } else {
      assert (a + b)[1..] == a[1..] + b;
      RunAppend(Apply(s, a[0], n, k), a[1..], b, n, k);
    }
  }

  lemma RunOn(s: Net, step: Step, more: seq<Step>, n: int, k: nat)
    requires Sane(s) && Allowed(s, step, k) && AllAllowed(Apply(s, step, n, k), more, n, k)
    ensures AllAllowed(s, [step] + more, n, k)
    ensures Run(s, [step] + more, n, k) == Run(Apply(s, step, n, k), more, n, k)
  {
    assert ([step] + more)[1..] == more;
  }

  function Ends(f: Frame, j: nat): seq<Packet> {
    if j == 0 then [] else [Packet(f, true)] + Ends(f, j - 1)
  }

  lemma {:induction false} EndsSplit(f: Frame, i: nat, j: nat)
    ensures Ends(f, i + j) == Ends(f, i) + Ends(f, j)
  {
    if i > 0 {
      EndsSplit(f, i - 1, j);
    }
  }

  /** The host can use up its whole credit before the receiver reads anything. */
  lemma {:induction false} SpendCredit(s: Net, f: Frame, j: nat, n: int, k: nat) returns (steps: seq<Step>)
    requires Sane(s) && s.credit == map[f := j]
    ensures AllAllowed(s, steps, n, k)
    ensures Run(s, steps, n, k) == s.(credit := map[], packets := s.packets + Ends(f, j))
    decreases j
  {
    if j == 0 {
      steps := [CleanUp];
      assert CleanedUp(s.credit) == map[] && s.packets + Ends(f, 0) == s.packets;
      assert Run(s, steps, n, k) == Apply(s, CleanUp, n, k);
    } else {
      var s1 := Apply(s, Send(f, true), n, k);
      assert s1.credit == map[f := j - 1];
      var more := SpendCredit(s1, f, j - 1, n, k);
      RunOn(s, Send(f, true), more, n, k);
      steps := [Send(f, true)] + more;
      assert (s.packets + [Packet(f, true)]) + Ends(f, j - 1) == s.packets + Ends(f, j);
    }
  }

  function LaterBy(r: Refresh, j: nat): Refresh {
    if r.NoRefresh? then r else r.(late := r.late + j)
  }

  /** The state after reading `j` end-of-frame packets with the tally above its half. */
  function AfterReading(s: Net, f: Frame, j: nat, rest: seq<Packet>): Net
    requires Sane(s) && f.frameset < FRAMESETS
  {
    s.(packets := rest, refresh := LaterBy(s.refresh, j), tally := s.tally[f.frameset := s.tally[f.frameset] - j])
  }

  lemma ReadOne(s: Net, f: Frame, rest: seq<Packet>, n: int, k: nat)
    requires Sane(s) && f.frameset < FRAMESETS && s.enabled == {f} && s.reader.Ready?
    requires s.packets == [Packet(f, true)] + rest && s.tally[f.frameset] > Half(n)
    requires s.refresh.Refreshing? ==> s.refresh.late < k
    ensures Allowed(s, Receive([f]), k) && Apply(s, Receive([f]), n, k) == AfterReading(s, f, 1, rest)
  {}

  lemma ReadMore(s: Net, f: Frame, j: nat, rest: seq<Packet>, last: seq<Packet>)
    requires Sane(s) && f.frameset < FRAMESETS
    ensures AfterReading(AfterReading(s, f, 1, rest), f, j, last) == AfterReading(s, f, j + 1, last)
  {}

  /** Reading `j` end-of-frame packets need not make the receiver ask again. */
  lemma {:induction false} ReadEnds(s: Net, f: Frame, j: nat, rest: seq<Packet>, n: int, k: nat) returns (steps: seq<Step>)
    requires Sane(s) && f.frameset < FRAMESETS && s.enabled == {f} && s.reader.Ready?
    requires s.packets == Ends(f, j) + rest && s.tally[f.frameset] - j >= Half(n)
    requires s.refresh.Refreshing? ==> s.refresh.late + j <= k
    ensures AllAllowed(s, steps, n, k) && Run(s, steps, n, k) == AfterReading(s, f, j, rest)
    decreases j
  {
    steps := [];
    if j == 0 {
      assert s.packets == rest && s.tally == s.tally[f.frameset := s.tally[f.frameset] - 0];
    } else {
      var more := Ends(f, j - 1) + rest;
      assert s.packets == [Packet(f, true)] + more;
      ReadOne(s, f, more, n, k);
      ReadMore(s, f, j - 1, more, rest);
      steps := ReadEnds(AfterReading(s, f, 1, more), f, j - 1, rest, n, k);
      RunOn(s, Receive([f]), steps, n, k);
      steps := [Receive([f])] + steps;
    }
  }

  /** Once the reading thread has asked, half a batch of end-of-frame packets is read
      before it asks again. */
  lemma {:induction false} QuietAfterRewind(s: Net, f: Frame, j: nat, n: int, k: nat) returns (steps: seq<Step>)
    requires Sane(s) && s.reader == Reasking(f.frameset, []) && s.refresh.NoRefresh? && s.enabled == {f}
    requires s.packets == Ends(f, j) && n >= 0 && j <= n - n / 2
    ensures steps != [] && steps[0] == Rewind && AllAllowed(s, steps, n, k)
    ensures Run(s, steps, n, k) == s.(reader := Ready, packets := [], tally := s.tally[f.frameset := n - j])
  {
    var s1 := Apply(s, Rewind, n, k);
    assert s1.packets == Ends(f, j) + [];
    var more := ReadEnds(s1, f, j, [], n, k);
    RunOn(s, Rewind, more, n, k);
    steps := [Rewind] + more;
  }

  /** A frame is enabled, asked for and granted. */
  lemma FirstGrant(f: Frame, bare: bool, n: int, k: nat) returns (steps: seq<Step>)
    requires f.frameset < FRAMESETS
    ensures AllAllowed(Initial(n), steps, n, k)
    ensures Run(Initial(n), steps, n, k)
         == Initial(n).(enabled := {f}, selected := if bare then {} else {f}, credit := map[f := Count(n)])
  {
    var step := if bare then EnableFrame(f) else Enable(f, 1);
    var s1 := Apply(Initial(n), step, n, k);
    assert s1.asks == [f];
    var s2 := Apply(s1, Ask(0), n, k);
    assert s2.asks == [] && s2.requests == [Request(f, Count(n))];
    var s3 := Apply(s2, Grant, n, k);
    assert s3.requests == [];
    RunOn(s2, Grant, [], n, k);
    RunOn(s1, Ask(0), [Grant] + [], n, k);
    RunOn(Initial(n), step, [Ask(0)] + ([Grant] + []), n, k);
    steps := [step] + ([Ask(0)] + ([Grant] + []));
  }

  /** The host uses up all of the first grant, and forgets the client. */
  lemma {:induction false} SpendGrant(f: Frame, bare: bool, n: int, k: nat) returns (steps: seq<Step>)
    requires f.frameset < FRAMESETS && Count(n) > 0
    ensures AllAllowed(Initial(n), steps, n, k)
    ensures Run(Initial(n), steps, n, k)
         == Initial(n).(enabled := {f}, selected := if bare then {} else {f}, packets := Ends(f, Count(n)))
  {
    var start := FirstGrant(f, bare, n, k);
    var s := Run(Initial(n), start, n, k);
    var spend := SpendCredit(s, f, Count(n), n, k);
    assert s.packets + Ends(f, Count(n)) == Ends(f, Count(n));
    RunAppend(Initial(n), start, spend, n, k);
    steps := start + spend;
  }

  /** Every enabled frame has a selected channel. */
  predicate AllSelected(s: Net) {
    s.enabled <= s.selected
  }

  /** The steps end in a stall with only `f` enabled. */
  predicate Stalling(steps: seq<Step>, f: Frame, bare: bool, n: int, k: nat) {
    && AllAllowed(Initial(n), steps, n, k)
    && var s := Run(Initial(n), steps, n, k);
       Stalled(s) && s.enabled == {f} && s.selected == if bare then {} else {f}
  }

  /** A batch of none: the first packet, not an end of frame, makes the host forget the client. */
  lemma ZeroStalls(f: Frame, bare: bool, n: int, k: nat) returns (steps: seq<Step>)
    requires f.frameset < FRAMESETS && Count(n) == 0
    ensures Stalling(steps, f, bare, n, k)
  {
    var start := FirstGrant(f, bare, n, k);
    var s := Run(Initial(n), start, n, k);
    var s1 := Apply(s, Send(f, false), n, k);
    assert s1.packets == [Packet(f, false)] && s1.credit == map[f := 0] && CleanedUp(s1.credit) == map[];
    var s2 := Apply(s1, CleanUp, n, k);
    RunOn(s2, Receive([f]), [], n, k);
    RunOn(s1, CleanUp, [Receive([f])] + [], n, k);
    var more := [Send(f, false)] + ([CleanUp] + ([Receive([f])] + []));
    RunOn(s, Send(f, false), [CleanUp] + ([Receive([f])] + []), n, k);
    RunAppend(Initial(n), start, more, n, k);
    steps := start + more;
  }

  /** Every batch size that is not adequate can stall. */
  lemma InadequateStalls(n: int, k: nat) returns (steps: seq<Step>)
    requires !Adequate(n)
    ensures Stalling(steps, Frame(0, 0), false, n, k)
  {
    var f := Frame(0, 0);
    if Count(n) == 0 {
      steps := ZeroStalls(f, false, n, k);
    } else {
      var spend := SpendGrant(f, false, n, k);
      var s := Run(Initial(n), spend, n, k);
      assert s.packets == Ends(f, Count(n)) + [];
      var read := ReadEnds(s, f, Count(n), [], n, k);
      RunAppend(Initial(n), spend, read, n, k);
      steps := spend + read;
    }
  }

  // -------------------------------------------------- refreshing while receiving

  /** A refresh asks for the only frame, which the host grants at once. */
  lemma {:induction false} RefreshGrant(s: Net, f: Frame, n: int, k: nat) returns (steps: seq<Step>)
    requires Sane(s) && s.enabled == {f} && s.refresh.NoRefresh? && s.requests == [] && s.credit == map[f := Count(n)]
    ensures AllAllowed(s, steps, n, k)
    ensures Run(s, steps, n, k) == s.(refresh := Refreshing([], 0, 0))
  {
    var s1 := Apply(s, BeginRefresh([f]), n, k);
    var s2 := Apply(s1, RefreshAsk(true), n, k);
    assert s2.requests == [Request(f, Count(n))] && s2.refresh.todo == [];
    var s3 := Apply(s2, Grant, n, k);
    assert s3.requests == [] && s3.credit == s.credit;
    RunOn(s2, Grant, [], n, k);
    RunOn(s1, RefreshAsk(true), [Grant] + [], n, k);
    RunOn(s, BeginRefresh([f]), [RefreshAsk(true)] + ([Grant] + []), n, k);
    steps := [BeginRefresh([f])] + ([RefreshAsk(true)] + ([Grant] + []));
  }

  /** The refresh ends by resetting the tallies that are left. */
  lemma {:induction false} ResetAll(s: Net, n: int, k: nat) returns (steps: seq<Step>)
    requires Sane(s) && s.refresh.Refreshing? && s.refresh.todo == []
    ensures AllAllowed(s, steps, n, k)
    ensures Run(s, steps, n, k)
         == s.(tally := s.tally[..s.refresh.next] + seq(FRAMESETS - s.refresh.next, _ => n), refresh := NoRefresh)
    decreases FRAMESETS - s.refresh.next
  {
    var i := s.refresh.next;
    var s1 := Apply(s, Reset, n, k);
    var more := [];
    if i + 1 < FRAMESETS {
      more := ResetAll(s1, n, k);
    }
    RunOn(s, Reset, more, n, k);
    steps := [Reset] + more;
    assert Run(s, steps, n, k).tally == s.tally[..i] + seq(FRAMESETS - i, _ => n);
  }

  /** A refresh has asked, and the host has sent the whole batch. */
  lemma {:induction false} RefreshSpent(f: Frame, n: int, k: nat) returns (steps: seq<Step>)
    requires f.frameset < FRAMESETS && 2 <= n <= 255
    ensures AllAllowed(Initial(n), steps, n, k)
    ensures Run(Initial(n), steps, n, k)
         == Initial(n).(enabled := {f}, selected := {f}, refresh := Refreshing([], 0, 0), packets := Ends(f, n))
  {
    var start := FirstGrant(f, false, n, k);
    var s0 := Run(Initial(n), start, n, k);
    var ask := RefreshGrant(s0, f, n, k);
    var s1 := Run(s0, ask, n, k);
    var spend := SpendCredit(s1, f, n, n, k);
    assert s1.packets + Ends(f, n) == Ends(f, n);
    RunAppend(s0, ask, spend, n, k);
    RunAppend(Initial(n), start, ask + spend, n, k);
    steps := start + (ask + spend);
  }

  /** Half of the batch is read before the reset, the other half after it. */
  lemma {:induction false} ReadLate(s: Net, f: Frame, n: int, k: nat) returns (steps: seq<Step>)
    requires Sane(s) && f.frameset < FRAMESETS && 2 <= n <= 255 && k >= n / 2
    requires s == Initial(n).(enabled := {f}, selected := {f}, refresh := Refreshing([], 0, 0), packets := Ends(f, n))
    ensures AllAllowed(s, steps, n, k)
    ensures Stalled(Run(s, steps, n, k)) && Run(s, steps, n, k).enabled == Run(s, steps, n, k).selected == {f}
  {
    var h := n / 2;
    EndsSplit(f, h, n - h);
    var first := ReadEnds(s, f, h, Ends(f, n - h), n, k);
    var s1 := Run(s, first, n, k);
    var reset := ResetAll(s1, n, k);
    var s2 := Run(s1, reset, n, k);
    assert s2.packets == Ends(f, n - h) + [];
    var second := ReadEnds(s2, f, n - h, [], n, k);
    RunAppend(s1, reset, second, n, k);
    RunAppend(s, first, reset + second, n, k);
    steps := first + (reset + second);
  }

  /** If half of a batch can be received before a refresh resets the tally, the
      other half does not bring the tally down far enough. */
  lemma LateStalls(n: int, k: nat) returns (steps: seq<Step>)
    requires 2 <= n <= 255 && k >= n / 2
    ensures Stalling(steps, Frame(0, 0), false, n, k)
  {
    var spent := RefreshSpent(Frame(0, 0), n, k);
    var late := ReadLate(Run(Initial(n), spent, n, k), Frame(0, 0), n, k);
    RunAppend(Initial(n), spent, late, n, k);
    steps := spent + late;
  }

  // ---------------------------------------------------- frames without a channel

  /** Reading the end-of-frame packets of a frame without a channel asks for nothing. */
  lemma {:induction false} ReadBare(s: Net, f: Frame, j: nat, n: int, k: nat) returns (steps: seq<Step>)
    requires Sane(s) && f.frameset < FRAMESETS && s.enabled == {f} && s.selected == {} && s.packets == Ends(f, j)
    requires s.reader.Ready? && s.refresh.NoRefresh?
    ensures AllAllowed(s, steps, n, k)
    ensures Run(s, steps, n, k) == s.(packets := [], tally := Run(s, steps, n, k).tally)
    decreases j
  {
    steps := [];
    if j > 0 {
      var s1 := Apply(s, Receive([f]), n, k);
      assert s1.packets == Ends(f, j - 1);
      if s1.reader.Ready? {
        steps := ReadBare(s1, f, j - 1, n, k);
      } else {
        var s2 := Apply(s1, ReaderAsk(false), n, k);
        assert s2.requests == s.requests && s2.reader.todo == [];
        var s3 := Apply(s2, Rewind, n, k);
        steps := ReadBare(s3, f, j - 1, n, k);
        RunOn(s2, Rewind, steps, n, k);
        RunOn(s1, ReaderAsk(false), [Rewind] + steps, n, k);
        steps := [ReaderAsk(false)] + ([Rewind] + steps);
      }
      RunOn(s, Receive([f]), steps, n, k);
      steps := [Receive([f])] + steps;
    }
  }

  /** A frame that is enabled without a channel can stall, whatever the batch size. */
  lemma BareStalls(f: Frame, n: int, k: nat) returns (steps: seq<Step>)
    requires f.frameset < FRAMESETS
    ensures Stalling(steps, f, true, n, k)
  {
    if Count(n) == 0 {
      steps := ZeroStalls(f, true, n, k);
    } else {
      var spend := SpendGrant(f, true, n, k);
      var s := Run(Initial(n), spend, n, k);
      var read := ReadBare(s, f, Count(n), n, k);
      RunAppend(Initial(n), spend, read, n, k);
      steps := spend + read;
    }
  }

  /** And a refresh does not end the stall: it asks for nothing either. */
  lemma {:induction false} BareRefresh(s: Net, f: Frame, n: int, k: nat) returns (steps: seq<Step>)
    requires Sane(s) && Stalled(s) && s.enabled == {f} && f !in s.selected
    ensures steps != [] && steps[0].BeginRefresh? && AllAllowed(s, steps, n, k)
    ensures Run(s, steps, n, k) == s.(tally := [n, n, n, n, n])
  {
    var s1 := Apply(s, BeginRefresh([f]), n, k);
    var s2 := Apply(s1, RefreshAsk(false), n, k);
    assert s2.refresh.todo == [] && s2.requests == [];
    var more := ResetAll(s2, n, k);
    RunOn(s1, RefreshAsk(false), more, n, k);
    RunOn(s, BeginRefresh([f]), [RefreshAsk(false)] + more, n, k);
    steps := [BeginRefresh([f])] + ([RefreshAsk(false)] + more);
  }

  // ------------------------------------------------------------ exact conditions

  /** The frame is enabled, and neither a request for it nor an end of frame is
      under way, nor may one be sent. */
  predicate Starved(s: Net, f: Frame) {
    f in s.enabled && !Coming(s, f) && Supply(s, f) <= 0
  }

  /** No run stalls whose enabled frames all have a channel. */
  ghost predicate NeverStalls(n: int, k: nat) {
    forall steps: seq<Step> ::
      AllAllowed(Initial(n), steps, n, k) && AllSelected(Run(Initial(n), steps, n, k)) ==>
        !Stalled(Run(Initial(n), steps, n, k))
  }

  /** In no run is a frame with a channel starved, at any time. */
  ghost predicate NeverStarves(n: int, k: nat) {
    forall steps: seq<Step>, f: Frame ::
      AllAllowed(Initial(n), steps, n, k) && f in Run(Initial(n), steps, n, k).selected ==>
        !Starved(Run(Initial(n), steps, n, k), f)
  }

  lemma StarvingStalls(n: int, k: nat)
    requires NeverStarves(n, k)
    ensures NeverStalls(n, k)
  {
    forall steps: seq<Step> | AllAllowed(Initial(n), steps, n, k) && AllSelected(Run(Initial(n), steps, n, k))
      ensures !Stalled(Run(Initial(n), steps, n, k))
    {
      var s := Run(Initial(n), steps, n, k);
      if s.enabled != {} {
        var f :| f in s.enabled;
        assert Coming(s, f) || Supply(s, f) > 0;
      }
    }
  }

  /** If at most `k` end-of-frame packets are received during a refresh: no run stalls,
      or starves a frame, exactly when the batch size is adequate and, unless negative,
      has more than `k` in its half. */
  lemma NeverStallsIff(n: int, k: nat)
    ensures NeverStalls(n, k) <==> Lasting(n, k)
    ensures NeverStarves(n, k) <==> Lasting(n, k)
  {
    if Lasting(n, k) {
      forall steps: seq<Step>, f: Frame |
        AllAllowed(Initial(n), steps, n, k) && f in Run(Initial(n), steps, n, k).selected
        ensures !Starved(Run(Initial(n), steps, n, k), f)
      {
        if f in Run(Initial(n), steps, n, k).enabled {
          AlwaysUnderWay(steps, n, k, f);
        }
      }
      StarvingStalls(n, k);
    } else {
      AdequateIff(n);
      var steps;
      if Adequate(n) {
        steps := LateStalls(n, k);
      } else {
        steps := InadequateStalls(n, k);
      }
      assert AllSelected(Run(Initial(n), steps, n, k));
      assert !NeverStalls(n, k);
      if NeverStarves(n, k) {
        StarvingStalls(n, k);
      }
    }
  }

  /** If nothing is received during a refresh, adequate sizes are enough; if anything
      may be, none of the sizes from 2 to 255 is. */
  lemma RefreshDecides(n: int)
    ensures NeverStalls(n, 0) <==> Adequate(n)
    ensures (forall k: nat :: NeverStalls(n, k)) <==> n < 0 && n % 256 != 0
  {
    AdequateIff(n);
    NeverStallsIff(n, 0);
    if n < 0 {
      forall k: nat ensures NeverStalls(n, k) <==> Adequate(n) {
        NeverStallsIff(n, k);
      }
      assert NeverStalls(n, 0) <==> n % 256 != 0;
    } else {
      NeverStallsIff(n, n);
    }
  }
}
