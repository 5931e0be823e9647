/** The two ends of the flow control as the source has them: the host's lists
    of clients per frame, and the receiver's tallies. Each peer sees of the
    host exactly the steps of `FlowControl`. */
module NetHost {
  import opened FlowControl

  /** `txcount` is the number of frames the client may still be sent. */
  datatype Client = Client(peer: int, txcount: int)

  datatype Option<T> = None | Some(value: T)

  function Lookup(cs: seq<Client>, peer: int): Option<int> {
    if cs == [] then None
    else if cs[|cs| - 1].peer == peer then Some(cs[|cs| - 1].txcount)
    else Lookup(cs[..|cs| - 1], peer)
  }

  /** No two entries of a list are for the same peer. */
  predicate Distinct(cs: seq<Client>) {
    forall i, j :: 0 <= i < j < |cs| ==> cs[i].peer != cs[j].peer
  }

  function Adjusted(cs: seq<Client>, change: Client -> int): (r: seq<Client>)
    ensures |r| == |cs|
    ensures forall i :: 0 <= i < |cs| ==> r[i] == Client(cs[i].peer, change(cs[i]))
  {
    seq(|cs|, i requires 0 <= i < |cs| => Client(cs[i].peer, change(cs[i])))
  }

  function Live(cs: seq<Client>): seq<Client> {
    if cs == [] then []
    else
      var last := cs[|cs| - 1];
      Live(cs[..|cs| - 1]) + if last.txcount > 0 then [last] else []
  }

  lemma {:induction false} LookupIn(cs: seq<Client>, peer: int)
    ensures Lookup(cs, peer).None? <==> forall c :: c in cs ==> c.peer != peer
    ensures Lookup(cs, peer).Some? ==> Client(peer, Lookup(cs, peer).value) in cs
  {
    if cs != [] {
      LookupIn(cs[..|cs| - 1], peer);
      assert cs == cs[..|cs| - 1] + [cs[|cs| - 1]];
    }
  }

  lemma {:induction false} LookupAdjusted(cs: seq<Client>, change: Client -> int, peer: int)
    ensures Lookup(Adjusted(cs, change), peer)
         == match Lookup(cs, peer) case None => None case Some(t) => Some(change(Client(peer, t)))
  {
    if cs != [] {
      var n := |cs| - 1;
      assert Adjusted(cs, change)[..n] == Adjusted(cs[..n], change);
      LookupAdjusted(cs[..n], change, peer);
    }
  }

  lemma {:induction false} LookupLive(cs: seq<Client>, peer: int)
    requires Distinct(cs)
    ensures Distinct(Live(cs)) && forall c :: c in Live(cs) <==> c in cs && c.txcount > 0
    ensures Lookup(Live(cs), peer)
         == match Lookup(cs, peer) case None => None case Some(t) => if t > 0 then Some(t) else None
  {
    if cs != [] {
      var init, last := cs[..|cs| - 1], cs[|cs| - 1];
      assert cs == init + [last];
      LookupLive(init, peer);
      LookupIn(init, peer);
      LookupIn(Live(init), peer);
      if last.txcount > 0 {
        assert Live(cs)[..|Live(cs)| - 1] == Live(init);
      } else {
        assert Live(cs) == Live(init);
      }
    }
  }

  /** What the host holds for one peer. */
  function View(clients: map<Frame, seq<Client>>, peer: int): map<Frame, int> {
    map f | f in clients && Lookup(clients[f], peer).Some? :: Lookup(clients[f], peer).value
  }

  predicate AllDistinct(clients: map<Frame, seq<Client>>) {
    forall f :: f in clients ==> Distinct(clients[f])
  }

  /** The new lists after dropping clients without credit, then empty lists. */
  function Swept(clients: map<Frame, seq<Client>>): map<Frame, seq<Client>> {
    map f | f in clients && Live(clients[f]) != [] :: Live(clients[f])
  }

  lemma ViewSwept(clients: map<Frame, seq<Client>>, peer: int)
    requires AllDistinct(clients)
    ensures AllDistinct(Swept(clients))
    ensures View(Swept(clients), peer) == CleanedUp(View(clients, peer))
  {
    forall f | f in clients
      ensures Distinct(Live(clients[f]))
      ensures Lookup(Live(clients[f]), peer)
           == match Lookup(clients[f], peer) case None => None case Some(t) => if t > 0 then Some(t) else None
      ensures Live(clients[f]) == [] ==> Lookup(Live(clients[f]), peer).None?
    {
      LookupLive(clients[f], peer);
    }
  }

  lemma ViewUpdate(clients: map<Frame, seq<Client>>, f: Frame, cs: seq<Client>, peer: int)
    ensures View(clients[f := cs], peer)
         == match Lookup(cs, peer)
            case None => View(clients, peer) - {f}
            case Some(t) => View(clients, peer)[f := t]
  {}

  function ListOf(clients: map<Frame, seq<Client>>, f: Frame): seq<Client> {
    if f in clients then clients[f] else []
  }

  /** Raise the entries of `peer`, if any, to `count`. */
  method Raise(cs: seq<Client>, peer: int, count: nat) returns (raised: seq<Client>, found: bool)
    ensures raised == Adjusted(cs, (c: Client) => if c.peer == peer then Max(c.txcount, count) else c.txcount)
    ensures found <==> exists c :: c in cs && c.peer == peer
  {
    raised, found := [], false;
    for i := 0 to |cs|
      invariant |raised| == i
      invariant forall j :: 0 <= j < i ==>
        raised[j] == Client(cs[j].peer, if cs[j].peer == peer then Max(cs[j].txcount, count) else cs[j].txcount)
      invariant found <==> exists j :: 0 <= j < i && cs[j].peer == peer
    {
      if cs[i].peer == peer {
        raised := raised + [Client(peer, Max(cs[i].txcount, count))];
        found := true;
      } else {
        raised := raised + [cs[i]];
      }
    }
  }

  /** The list of a frame after a request of `peer` for it. */
  function Requested(cs: seq<Client>, peer: int, count: nat): seq<Client> {
    if Lookup(cs, peer).None? then cs + [Client(peer, count)]
    else Adjusted(cs, (c: Client) => if c.peer == peer then Max(c.txcount, count) else c.txcount)
  }

  lemma LookupRequested(cs: seq<Client>, peer: int, count: nat, p: int)
    requires Distinct(cs)
    ensures Distinct(Requested(cs, peer, count))
    ensures Lookup(Requested(cs, peer, count), p)
         == if p != peer then Lookup(cs, p)
            else match Lookup(cs, p) case None => Some(count) case Some(t) => Some(Max(t, count))
  {
    LookupIn(cs, peer);
    if Lookup(cs, peer).None? {
      assert (cs + [Client(peer, count)])[..|cs|] == cs;
    } else {
      LookupAdjusted(cs, (c: Client) => if c.peer == peer then Max(c.txcount, count) else c.txcount, p);
    }
  }

  // --------------------------------------------------------------- requests

  const ANY := 255

  predicate IsWild(f: Frame) {
    f.frameset == ANY || f.source == ANY
  }

  predicate Matches(request: Frame, f: Frame) {
    (request.frameset == ANY || f.frameset == request.frameset) && (request.source == ANY || f.source == request.source)
  }

  /** The frames a request is for. */
  function Targets(request: Frame, frames: set<Frame>): set<Frame> {
    if IsWild(request) then set f | f in frames && Matches(request, f) else {request}
  }

  /** A frame of the stream that is itself numbered as a wildcard is asked for. */
  predicate EndlessRequest(request: Frame, frames: set<Frame>) {
    IsWild(request) && exists f :: f in frames && Matches(request, f) && IsWild(f)
  }

  /** Processing the request calls itself `depth` times, one call inside the other. */
  ghost predicate Nests(request: Frame, frames: set<Frame>, depth: nat)
    decreases depth
  {
    depth == 0
    || (IsWild(request) && exists f :: f in frames && Matches(request, f) && Nests(f, frames, depth - 1))
  }

  lemma {:induction false} NestsOn(request: Frame, frames: set<Frame>, depth: nat)
    requires EndlessRequest(request, frames)
    ensures Nests(request, frames, depth)
    decreases depth
  {
    if depth > 0 {
      var f :| f in frames && Matches(request, f) && IsWild(f);
      assert Matches(f, f);
      NestsOn(f, frames, depth - 1);
    }
  }

  /** Processing a request ends, after at most one nested call, if and only if it
      asks for no frame that is numbered as a wildcard. */
  lemma WildcardEnds(request: Frame, frames: set<Frame>)
    ensures !EndlessRequest(request, frames) <==> !Nests(request, frames, 2)
    ensures EndlessRequest(request, frames) <==> forall depth: nat :: Nests(request, frames, depth)
  {
    if EndlessRequest(request, frames) {
      forall depth: nat ensures Nests(request, frames, depth) {
        NestsOn(request, frames, depth);
      }
    }
  }

  /** The client lists after a request of `peer` for the frames `targets`. */
  function Answered(clients: map<Frame, seq<Client>>, targets: set<Frame>, peer: int, count: nat)
    : map<Frame, seq<Client>>
  {
    map f | f in clients.Keys + targets ::
      if f in targets then Requested(ListOf(clients, f), peer, count) else clients[f]
  }

  /** The frame has another number than the request, which is not 255. */
  predicate Differs(request: Frame, f: Frame) {
    || (request.frameset != 255 && f.frameset != request.frameset)
    || (request.source != 255 && f.source != request.source)
  }

  /** The peer has at least the credit it asks for. */
  predicate Served(clients: map<Frame, seq<Client>>, r: Request, frames: set<Frame>, peer: int, f: Frame) {
    var after := Answered(clients, Targets(r.frame, frames), peer, r.count);
    f in after && exists c :: c in after[f] && c.peer == peer && c.txcount >= r.count
  }

  /** A request reaches exactly the frames of the stream that agree with it in every
      number that is not 255. */
  lemma {:induction false} RequestReaches(clients: map<Frame, seq<Client>>, r: Request, frames: set<Frame>, peer: int, f: Frame)
    requires AllDistinct(clients)
    ensures Differs(r.frame, f) ==>
              ListOf(Answered(clients, Targets(r.frame, frames), peer, r.count), f) == ListOf(clients, f)
    ensures (f in frames || f == r.frame) && !Differs(r.frame, f) && f.frameset != 255 && f.source != 255 ==>
              Served(clients, r, frames, peer, f)
  {
    if (f in frames || f == r.frame) && !Differs(r.frame, f) && f.frameset != 255 && f.source != 255 {
      assert f in Targets(r.frame, frames);
      var cs := ListOf(clients, f);
      LookupRequested(cs, peer, r.count, peer);
      LookupIn(Requested(cs, peer, r.count), peer);
    }
  }

  lemma AnsweredOne(clients: map<Frame, seq<Client>>, done: set<Frame>, f: Frame, peer: int, count: nat)
    requires f !in done
    ensures Answered(Answered(clients, done, peer, count), {f}, peer, count) == Answered(clients, done + {f}, peer, count)
  {
    assert ListOf(Answered(clients, done, peer, count), f) == ListOf(clients, f);
  }

  /** The protocol's `Grant` for each of some frames in turn. */
  function Grants(credit: map<Frame, int>, frames: seq<Frame>, count: nat): map<Frame, int> {
    if frames == [] then credit
    else
      var n := |frames| - 1;
      Granted(Grants(credit, frames[..n], count), Request(frames[n], count))
  }

  lemma {:induction false} GrantsAt(credit: map<Frame, int>, frames: seq<Frame>, count: nat, f: Frame)
    ensures f in Grants(credit, frames, count) <==> f in credit || f in frames
    ensures f in frames ==> CreditOf(Grants(credit, frames, count), f) == Max(CreditOf(credit, f), count)
    ensures f !in frames ==> CreditOf(Grants(credit, frames, count), f) == CreditOf(credit, f)
  {
    if frames != [] {
      var n := |frames| - 1;
      assert frames == frames[..n] + [frames[n]];
      GrantsAt(credit, frames[..n], count, f);
    }
  }

  /** What `p` has for a frame after a request of `peer`. */
  lemma AnsweredAt(clients: map<Frame, seq<Client>>, targets: set<Frame>, peer: int, count: nat, p: int, f: Frame)
    requires AllDistinct(clients)
    ensures var cs, after := ListOf(clients, f), ListOf(Answered(clients, targets, peer, count), f);
            && Distinct(after)
            && Lookup(after, p) == if f in targets && p == peer then
                                     Some(match Lookup(cs, p) case None => count case Some(t) => Max(t, count))
                                   else Lookup(cs, p)
  {
    LookupRequested(ListOf(clients, f), peer, count, p);
  }

  lemma ViewAt(clients: map<Frame, seq<Client>>, p: int, f: Frame)
    ensures f in View(clients, p) <==> Lookup(ListOf(clients, f), p).Some?
    ensures CreditOf(View(clients, p), f) == match Lookup(ListOf(clients, f), p) case None => 0 case Some(t) => t
  {}

  lemma {:induction false} SameCredit(a: map<Frame, int>, b: map<Frame, int>)
    requires forall f :: (f in a <==> f in b) && CreditOf(a, f) == CreditOf(b, f)
    ensures a == b
  {
    forall f | f in a ensures f in b && a[f] == b[f] {
      assert CreditOf(a, f) == CreditOf(b, f);
    }
  }

  /** A request changes what the host holds for the asking peer only, as the
      protocol's `Grant` does for its frames, in whatever order they are visited. */
  lemma {:induction false} RequestRefines(clients: map<Frame, seq<Client>>, frames: seq<Frame>, peer: int, count: nat, p: int)
    requires AllDistinct(clients)
    ensures var after := Answered(clients, (set f | f in frames), peer, count);
            && AllDistinct(after)
            && View(after, p) == if p == peer then Grants(View(clients, p), frames, count) else View(clients, p)
  {
    var targets := set f | f in frames;
    var after := Answered(clients, targets, peer, count);
    var before := View(clients, p);
    var wanted := if p == peer then Grants(before, frames, count) else before;
    forall f
      ensures f in after ==> Distinct(ListOf(after, f))
      ensures (f in View(after, p) <==> f in wanted) && CreditOf(View(after, p), f) == CreditOf(wanted, f)
    {
      AnsweredAt(clients, targets, peer, count, p, f);
      ViewAt(clients, p, f);
      ViewAt(after, p, f);
      GrantsAt(before, frames, count, f);
    }
    SameCredit(View(after, p), wanted);
  }

  class Host {
    var clients: map<Frame, seq<Client>>

    constructor ()
      ensures clients == map[]
    {
      clients := map[];
    }

    /** The first lock region of a request for one frame: a known client's credit
        is raised. */
    method RaiseCredit(peer: int, r: Request) returns (found: bool)
      requires AllDistinct(clients)
      modifies this
      ensures AllDistinct(clients)
      ensures found <==> Lookup(ListOf(old(clients), r.frame), peer).Some?
      ensures clients == if found then Answered(old(clients), {r.frame}, peer, r.count) else old(clients)
    {
      found := false;
      if r.frame !in clients { return; }
      var cs := clients[r.frame];
      LookupIn(cs, peer);
      LookupRequested(cs, peer, r.count, peer);
      var raised;
      raised, found := Raise(cs, peer, r.count);
      if found { clients := clients[r.frame := raised]; }
    }

    /** The second one: a peer that has no entry gets one. */
    method AddClient(peer: int, r: Request)
      requires AllDistinct(clients) && Lookup(ListOf(clients, r.frame), peer).None?
      modifies this
      ensures AllDistinct(clients)
      ensures clients == Answered(old(clients), {r.frame}, peer, r.count)
    {
      var cs := ListOf(clients, r.frame);
      LookupRequested(cs, peer, r.count, peer);
      clients := clients[r.frame := cs + [Client(peer, Max(0, r.count))]];
    }

    method RequestFrame(peer: int, r: Request)
      requires AllDistinct(clients)
      modifies this
      ensures AllDistinct(clients)
      ensures clients == Answered(old(clients), {r.frame}, peer, r.count)
    {
      var found := RaiseCredit(peer, r);
      if !found { AddClient(peer, r); }
    }

    /** `_processRequest`: a request with a wildcard is one for each matching frame of
        the stream. Where it would not end, see `WildcardEnds`. */
    method ProcessRequest(peer: int, r: Request, frames: set<Frame>)
      requires AllDistinct(clients)
      requires !EndlessRequest(r.frame, frames)
      modifies this
      ensures AllDistinct(clients)
      ensures clients == Answered(old(clients), Targets(r.frame, frames), peer, r.count)
      ensures forall f :: Differs(r.frame, f) ==> ListOf(clients, f) == ListOf(old(clients), f)
      ensures forall f :: (f in frames || f == r.frame) && !Differs(r.frame, f) && f.frameset != 255 && f.source != 255 ==>
                f in clients && exists c :: c in clients[f] && c.peer == peer && c.txcount >= r.count
    {
      forall f: Frame
        ensures Differs(r.frame, f) ==>
                  ListOf(Answered(clients, Targets(r.frame, frames), peer, r.count), f) == ListOf(clients, f)
        ensures (f in frames || f == r.frame) && !Differs(r.frame, f) && f.frameset != 255 && f.source != 255 ==>
                  Served(clients, r, frames, peer, f)
      {
        RequestReaches(clients, r, frames, peer, f);
      }
      if !IsWild(r.frame) {
        RequestFrame(peer, r);
        return;
      }
      var todo := frames;
      while todo != {}
        invariant todo <= frames && AllDistinct(clients)
        invariant clients == Answered(old(clients), Targets(r.frame, frames - todo), peer, r.count)
      {
        var f :| f in todo;
        ghost var seen := frames - todo;
        todo := todo - {f};
        assert frames - todo == seen + {f};
        if Matches(r.frame, f) {
          ghost var done := Targets(r.frame, seen);
          assert f !in done;
          RequestFrame(peer, Request(f, r.count));
          AnsweredOne(old(clients), done, f, peer, r.count);
          assert Targets(r.frame, frames - todo) == done + {f};
        } else {
          assert Targets(r.frame, frames - todo) == Targets(r.frame, seen);
        }
      }
      assert frames - todo == frames;
    }

    /** `send` on a host, under its lock: the packet goes to every client of the
        frame. A client in `fails`, to which it cannot be sent, loses its credit.
        Returns the peers that were sent it, and whether a credit is used up. */
    method SendToClients(p: Packet, fails: set<int>) returns (peers: seq<int>, stale: bool)
      requires AllDistinct(clients)
      modifies this
      ensures AllDistinct(clients)
      ensures peers == Peers(ListOf(old(clients), p.frame), fails)
      ensures clients == Sent(old(clients), p, fails)
      ensures stale <==> p.frame in clients && HasStale(clients[p.frame])
    {
      peers, stale := [], false;
      if p.frame !in clients { return; }
      var cs := clients[p.frame];
      var left: seq<Client> := [];
      for i := 0 to |cs|
        invariant |left| == i && peers == Peers(cs[..i], fails)
        invariant forall j :: 0 <= j < i ==> left[j] == Client(cs[j].peer, Remaining(cs[j], p.isEnd, fails))
        invariant stale <==> exists j :: 0 <= j < i && left[j].txcount <= 0
      {
        assert cs[..i + 1][..i] == cs[..i];
        var c := cs[i];
        if c.peer in fails {
          c := Client(c.peer, 0);
        } else {
          peers := peers + [c.peer];
          if p.isEnd { c := Client(c.peer, c.txcount - 1); }
        }
        left := left + [c];
        if c.txcount <= 0 { stale := true; }
      }
      assert cs[..|cs|] == cs;
      assert left == Spent(cs, p.isEnd, fails);
      clients := clients[p.frame := left];
    }

    /** The whole of `send`: the clean-up takes the lock a second time. */
    method Send(p: Packet, fails: set<int>) returns (peers: seq<int>)
      requires AllDistinct(clients)
      modifies this
      ensures AllDistinct(clients)
      ensures peers == Peers(ListOf(old(clients), p.frame), fails)
      ensures var sent := Sent(old(clients), p, fails);
              clients == if p.frame in sent && HasStale(sent[p.frame]) then Swept(sent) else sent
      ensures forall c :: c in ListOf(clients, p.frame) ==> c.txcount > 0
      ensures (forall c :: c in ListOf(Sent(old(clients), p, fails), p.frame) ==> c.txcount > 0) ==>
                clients == Sent(old(clients), p, fails)
    {
      var stale;
      peers, stale := SendToClients(p, fails);
      NoneStale(clients, p.frame);
      if stale { CleanUp(); }
    }

    /** `_cleanUp`: erase clients without credit, then frames without clients. */
    method CleanUp()
      requires AllDistinct(clients)
      modifies this
      ensures AllDistinct(clients) && clients == Swept(old(clients))
    {
      var todo := clients.Keys;
      while todo != {}
        invariant todo <= old(clients).Keys
        invariant forall f :: f in todo ==> f in clients && clients[f] == old(clients)[f]
        invariant forall f :: f in old(clients) && f !in todo ==>
          (f in clients <==> Live(old(clients)[f]) != []) && (f in clients ==> clients[f] == Live(old(clients)[f]))
        invariant clients.Keys <= old(clients).Keys
      {
        var f :| f in todo;
        todo := todo - {f};
        var kept := Erase(clients[f]);
        if kept == [] {
          clients := clients - {f};
        } else {
          clients := clients[f := kept];
        }
      }
      ViewSwept(old(clients), 0);
      assert clients == Swept(old(clients));
    }
  }

  method Erase(cs: seq<Client>) returns (kept: seq<Client>)
    ensures kept == Live(cs)
  {
    kept := [];
    for i := 0 to |cs|
      invariant kept == Live(cs[..i])
    {
      assert cs[..i + 1][..i] == cs[..i];
      if cs[i].txcount > 0 { kept := kept + [cs[i]]; }
    }
    assert cs[..|cs|] == cs;
  }

  /** The peers the packet is sent to, in the order of the list. */
  function Peers(cs: seq<Client>, fails: set<int>): seq<int> {
    if cs == [] then []
    else
      var last := cs[|cs| - 1].peer;
      Peers(cs[..|cs| - 1], fails) + if last in fails then [] else [last]
  }

  lemma {:induction false} PeersIn(cs: seq<Client>, fails: set<int>, p: int)
    ensures p in Peers(cs, fails) <==> p !in fails && Lookup(cs, p).Some?
  {
    if cs != [] {
      PeersIn(cs[..|cs| - 1], fails, p);
    }
  }

  function Remaining(c: Client, isEnd: bool, fails: set<int>): int {
    if c.peer in fails then 0 else if isEnd then c.txcount - 1 else c.txcount
  }

  function Spent(cs: seq<Client>, isEnd: bool, fails: set<int>): seq<Client> {
    Adjusted(cs, (c: Client) => Remaining(c, isEnd, fails))
  }

  predicate HasStale(cs: seq<Client>) {
    exists i :: 0 <= i < |cs| && cs[i].txcount <= 0
  }

  /** A clean-up when it is called for leaves no client of the frame without credit. */
  lemma NoneStale(clients: map<Frame, seq<Client>>, f: Frame)
    requires AllDistinct(clients)
    ensures var after := if f in clients && HasStale(clients[f]) then Swept(clients) else clients;
            forall c :: c in ListOf(after, f) ==> c.txcount > 0
  {
    if f in clients {
      LookupLive(clients[f], 0);
    }
  }

  /** The client lists after a packet was sent. */
  function Sent(clients: map<Frame, seq<Client>>, p: Packet, fails: set<int>): map<Frame, seq<Client>> {
    if p.frame !in clients then clients
    else clients[p.frame := Spent(clients[p.frame], p.isEnd, fails)]
  }

  /** A packet reaches exactly the peers with an entry that it can be sent to. Each of
      them sees it as the protocol's `Send`, and a peer that it cannot be sent to as
      the loss of its entry at the next clean-up. */
  lemma SendRefines(clients: map<Frame, seq<Client>>, packet: Packet, fails: set<int>, p: int)
    requires AllDistinct(clients)
    ensures p in Peers(ListOf(clients, packet.frame), fails) <==> p !in fails && packet.frame in View(clients, p)
    ensures var before, after := View(clients, p), View(Sent(clients, packet, fails), p);
            if packet.frame !in before then after == before
            else if p !in fails then after == Charged(before, packet.frame, packet.isEnd)
            else CleanedUp(after) == CleanedUp(before) - {packet.frame}
  {
    var cs := ListOf(clients, packet.frame);
    LookupIn(cs, p);
    PeersIn(cs, fails, p);
    if packet.frame in clients {
      var left := Spent(cs, packet.isEnd, fails);
      LookupAdjusted(cs, (c: Client) => Remaining(c, packet.isEnd, fails), p);
      ViewUpdate(clients, packet.frame, left, p);
    }
  }

  // --------------------------------------------------------------- receiver

  /** A frame and the number of its selected channels. */
  datatype Selection = Selection(frame: Frame, channels: nat)

  /** Every frame once per selected channel, in the order they are visited. */
  function Order(sel: seq<Selection>): seq<Frame> {
    if sel == [] then [] else seq(sel[0].channels, _ => sel[0].frame) + Order(sel[1..])
  }

  /** The same with the frames that have no selected channel. */
  function Visited(sel: seq<Selection>): seq<Frame> {
    if sel == [] then []
    else seq(if sel[0].channels == 0 then 1 else sel[0].channels, _ => sel[0].frame) + Visited(sel[1..])
  }

  lemma {:induction false} OrderVisits(sel: seq<Selection>, f: Frame)
    ensures f in Order(sel) <==> exists x :: x in sel && x.frame == f && x.channels > 0
    ensures f in Visited(sel) <==> exists x :: x in sel && x.frame == f
  {
    if sel != [] {
      assert sel == [sel[0]] + sel[1..];
      OrderVisits(sel[1..], f);
      var order := seq(sel[0].channels, _ => sel[0].frame);
      assert sel[0].channels > 0 ==> order[0] == sel[0].frame;
      assert seq(if sel[0].channels == 0 then 1 else sel[0].channels, _ => sel[0].frame)[0] == sel[0].frame;
    }
  }

  /** The packet is an end of frame and the tally of its frameset is half used up. */
  predicate Low(tally: seq<int>, p: Packet, n: int)
    requires |tally| == FRAMESETS
  {
    Counts(p) && tally[p.frame.frameset] <= Half(n)
  }

  function EarlyTally(tally: seq<int>, p: Packet, n: int): seq<int>
    requires |tally| == FRAMESETS
  {
    if !Counts(p) then tally
    else tally[p.frame.frameset := if Low(tally, p, n) then n else tally[p.frame.frameset] - 1]
  }

  lemma OrderFirst(sel: seq<Selection>, n: int)
    requires sel != []
    ensures Requests(Order(sel), n)
         == Requests(seq(sel[0].channels, _ => sel[0].frame), n) + Requests(Order(sel[1..]), n)
  {}

  /** One request for each selected channel of a frame. */
  method AskFrame(x: Selection, n: int) returns (requests: seq<Request>)
    ensures requests == Requests(seq(x.channels, _ => x.frame), n)
  {
    requests := [];
    for c := 0 to x.channels
      invariant requests == Requests(seq(c, _ => x.frame), n)
    {
      requests := requests + [Request(x.frame, Count(n))];
    }
  }

  /** `_earlyProcessPacket` on the receiving side. `enabled` lists the enabled
      frames of the packet's frameset. */
  method EarlyProcess(tally: array<int>, p: Packet, enabled: seq<Selection>, n: int) returns (requests: seq<Request>)
    requires tally.Length == FRAMESETS
    modifies tally
    ensures tally[..] == EarlyTally(old(tally[..]), p, n)
    ensures requests == if Low(old(tally[..]), p, n) then Requests(Order(enabled), n) else []
  {
    requests := [];
    var fs := p.frame.frameset;
    if !p.isEnd || fs >= FRAMESETS { return; }
    if tally[fs] <= Half(n) {
      for i := 0 to |enabled|
        invariant requests + Requests(Order(enabled[i..]), n) == Requests(Order(enabled), n)
        invariant tally[..] == old(tally[..])
      {
        OrderFirst(enabled[i..], n);
        assert enabled[i..][1..] == enabled[i + 1..];
        var more := AskFrame(enabled[i], n);
        requests := requests + more;
      }
      tally[fs] := n;
    } else {
      tally[fs] := tally[fs] - 1;
    }
  }

  /** Visiting a frame: a request for each of its channels. */
  function AskOne(x: Selection): seq<Step> {
    if x.channels == 0 then [ReaderAsk(false)] else seq(x.channels, _ => ReaderAsk(true))
  }

  function AskSteps(sel: seq<Selection>): seq<Step> {
    if sel == [] then [] else AskOne(sel[0]) + AskSteps(sel[1..])
  }

  function AfterAsks(s: Net, requests: seq<Request>, todo: seq<Frame>): Net
    requires s.reader.Reasking?
  {
    s.(reader := s.reader.(todo := todo), requests := s.requests + requests)
  }

  lemma AfterBoth(s: Net, a: seq<Request>, b: seq<Request>, todo: seq<Frame>)
    requires s.reader.Reasking?
    ensures AfterAsks(AfterAsks(s, a, todo), b, []) == AfterAsks(s, a + b, [])
  {
    assert s.requests + a + b == s.requests + (a + b);
  }

  lemma {:induction false} AskChannels(s: Net, f: Frame, c: nat, rest: seq<Frame>, n: int, k: nat)
    requires Sane(s) && s.reader.Reasking? && s.reader.todo == seq(c, _ => f) + rest
    ensures AllAllowed(s, seq(c, _ => ReaderAsk(true)), n, k)
    ensures Run(s, seq(c, _ => ReaderAsk(true)), n, k) == AfterAsks(s, Requests(seq(c, _ => f), n), rest)
    decreases c
  {
    if c == 0 {
      assert s.reader.todo == rest && s.requests + Requests(seq(c, _ => f), n) == s.requests;
    } else {
      var s1 := Apply(s, ReaderAsk(true), n, k);
      assert s1.reader.todo == seq(c - 1, _ => f) + rest;
      AskChannels(s1, f, c - 1, rest, n, k);
      RunOn(s, ReaderAsk(true), seq(c - 1, _ => ReaderAsk(true)), n, k);
      assert seq(c, _ => ReaderAsk(true)) == [ReaderAsk(true)] + seq(c - 1, _ => ReaderAsk(true));
      assert s.requests + Requests(seq(c, _ => f), n) == s1.requests + Requests(seq(c - 1, _ => f), n);
    }
  }

  lemma {:induction false} AskFirst(s: Net, sel: seq<Selection>, n: int, k: nat)
    requires Sane(s) && s.reader.Reasking? && s.reader.todo == Visited(sel) && sel != []
    requires sel[0].channels == 0 ==> sel[0].frame !in s.selected
    ensures AllAllowed(s, AskOne(sel[0]), n, k)
    ensures Run(s, AskOne(sel[0]), n, k)
         == AfterAsks(s, Requests(seq(sel[0].channels, _ => sel[0].frame), n), Visited(sel[1..]))
  {
    var x, rest := sel[0], sel[1..];
    if x.channels == 0 {
      RunOn(s, ReaderAsk(false), [], n, k);
      assert [ReaderAsk(false)] + [] == AskOne(x) && Requests(seq(0, _ => x.frame), n) == Requests([], n);
      assert s.reader.todo[1..] == Visited(rest);
    } else {
      AskChannels(s, x.frame, x.channels, Visited(rest), n, k);
    }
  }

  lemma {:induction false} AskAll(s: Net, sel: seq<Selection>, n: int, k: nat)
    requires Sane(s) && s.reader.Reasking? && s.reader.todo == Visited(sel)
    requires forall x :: x in sel && x.channels == 0 ==> x.frame !in s.selected
    ensures AllAllowed(s, AskSteps(sel), n, k)
    ensures Run(s, AskSteps(sel), n, k) == AfterAsks(s, Requests(Order(sel), n), [])
    decreases |sel|
  {
    if sel == [] {
      assert s.requests + Requests([], n) == s.requests;
    } else {
      var first := Requests(seq(sel[0].channels, _ => sel[0].frame), n);
      AskFirst(s, sel, n, k);
      var s1 := AfterAsks(s, first, Visited(sel[1..]));
      AskAll(s1, sel[1..], n, k);
      OrderFirst(sel, n);
      AfterBoth(s, first, Requests(Order(sel[1..]), n), Visited(sel[1..]));
      RunAppend(s, AskOne(sel[0]), AskSteps(sel[1..]), n, k);
    }
  }

  /** Reading a packet, left undisturbed, is the protocol's steps of the reader. */
  function EarlySteps(tally: seq<int>, p: Packet, sel: seq<Selection>, n: int): seq<Step>
    requires |tally| == FRAMESETS
  {
    [Receive(Visited(sel))] + if Low(tally, p, n) then AskSteps(sel) + [Rewind] else []
  }

  lemma {:induction false} EarlyRefines(s: Net, sel: seq<Selection>, n: int, k: nat)
    requires Sane(s) && Allowed(s, Receive(Visited(sel)), k)
    requires forall x :: x in sel && x.channels == 0 ==> x.frame !in s.selected
    ensures var (p, steps) := (s.packets[0], EarlySteps(s.tally, s.packets[0], sel, n));
            && AllAllowed(s, steps, n, k)
            && var r := Run(s, steps, n, k);
               && r.tally == EarlyTally(s.tally, p, n) && r.packets == s.packets[1..] && r.reader.Ready?
               && r.requests == s.requests + if Low(s.tally, p, n) then Requests(Order(sel), n) else []
  {
    var first := Receive(Visited(sel));
    var s1 := Apply(s, first, n, k);
    if Low(s.tally, s.packets[0], n) {
      AskAll(s1, sel, n, k);
      var s2 := Run(s1, AskSteps(sel), n, k);
      RunOn(s2, Rewind, [], n, k);
      assert [Rewind] + [] == [Rewind];
      RunAppend(s1, AskSteps(sel), [Rewind], n, k);
      RunOn(s, first, AskSteps(sel) + [Rewind], n, k);
    } else {
      RunOn(s, first, [], n, k);
    }
  }
}
