/** The peers of a node: a table of slots with an index by address, the list of
    peers to reconnect and the list of those to be freed. */
module PeerTable {
  /** `uri` is the base address; only TCP peers are reconnected by the table. */
  datatype Peer = Peer(id: nat, uri: string, tcp: bool)

  datatype Slot = Empty | Taken(peer: Peer)

  /** `known`, `freed` and `dropped` record what came in and what was let go. */
  datatype State = State(slots: seq<Slot>, byUri: map<string, nat>, localId: map<Peer, nat>, count: int,
                         reconnects: seq<Peer>, garbage: seq<Peer>,
                         known: set<Peer>, freed: multiset<Peer>, dropped: multiset<Peer>)

  /** What a peer reports when the table is cleaned up; `Gone` is invalid or
      disconnected. */
  datatype Status = Up | Reconnecting | Gone

  datatype Outcome = AlreadyThere | TooMany | Inserted

  // -------------------------------------------------------------- operations

  function FirstFree(slots: seq<Slot>): (i: nat)
    ensures i <= |slots| && (i < |slots| ==> slots[i].Empty?)
  {
    if slots == [] then 0 else if slots[0].Empty? then 0 else 1 + FirstFree(slots[1..])
  }

  function Placed(s: State, i: nat, p: Peer): State
    requires i < |s.slots|
  {
    s.(slots := s.slots[i := Taken(p)], byUri := s.byUri[p.uri := i], localId := s.localId[p := i],
       count := s.count + 1)
  }

  function Insert(s: State, p: Peer): (r: (State, Outcome))
    ensures |r.0.slots| == |s.slots| && r.0.known == s.known
  {
    var i := FirstFree(s.slots);
    if Taken(p) in s.slots then (s, AlreadyThere)
    else if i == |s.slots| then (s, TooMany)
    else (Placed(s, i, p), Inserted)
  }

  /** A peer that was not known before. */
  function InsertNew(s: State, p: Peer): (t: State)
    ensures |t.slots| == |s.slots| && s.known <= t.known
  {
    var (u, o) := Insert(s, p);
    if o.Inserted? then u.(known := u.known + {p}) else u
  }

  function WithoutUri(slots: seq<Slot>, byUri: map<string, nat>, p: Peer): map<string, nat>
    requires InRange(slots, byUri)
  {
    map u | u in byUri && slots[byUri[u]] != Taken(p) :: byUri[u]
  }

  /** A peer that reconnects by itself goes to neither list. */
  function LetGo(s: State, p: Peer, status: Status): State {
    if !status.Reconnecting? then s.(garbage := s.garbage + [p])
    else if p.tcp then s.(reconnects := s.reconnects + [p])
    else s.(dropped := s.dropped + multiset{p})
  }

  function Cleared(s: State, i: nat, p: Peer): State
    requires i < |s.slots| && InRange(s.slots, s.byUri)
  {
    s.(slots := s.slots[i := Empty], byUri := WithoutUri(s.slots, s.byUri, p), count := s.count - 1)
  }

  /** Clears slot `i` if its peer is not up. */
  function Remove(s: State, i: nat, status: Status): (r: State)
    requires i < |s.slots| && InRange(s.slots, s.byUri)
    ensures |r.slots| == |s.slots| && s.known <= r.known
  {
    if s.slots[i].Empty? || status.Up? then s
    else
      var p := s.slots[i].peer;
      LetGo(Cleared(s, i, p), p, status)
  }

  /** The next peer to reconnect; `self` says that its address is our own. When
      the table is full it stays in the list. */
  function Reconnect(s: State, self: bool): (r: State)
    ensures |r.slots| == |s.slots| && s.known <= r.known
  {
    if s.reconnects == [] then s
    else
      var (p, rest) := (s.reconnects[0], s.reconnects[1..]);
      if self then s.(garbage := s.garbage + [p], reconnects := rest)
      else
        var (t, o) := Insert(s, p);
        if o.TooMany? then t else t.(reconnects := rest)
  }

  function Collect(s: State): (t: State)
    ensures |t.slots| == |s.slots| && s.known <= t.known
  {
    s.(garbage := [], freed := s.freed + multiset(s.garbage))
  }

  // --------------------------------------------------------------- invariant

  /** How often a peer is in the table, and how many slots are taken. */
  function Times(slots: seq<Slot>, p: Peer): nat {
    multiset(slots)[Taken(p)]
  }

  function Occupied(slots: seq<Slot>): int {
    |slots| - multiset(slots)[Empty]
  }

  predicate InRange(slots: seq<Slot>, byUri: map<string, nat>) {
    forall u :: u in byUri ==> byUri[u] < |slots|
  }

  predicate Indexed(slots: seq<Slot>, byUri: map<string, nat>) {
    && InRange(slots, byUri)
    && forall u :: u in byUri ==> slots[byUri[u]].Taken? && slots[byUri[u]].peer.uri == u
  }

  predicate Located(slots: seq<Slot>, localId: map<Peer, nat>) {
    forall i :: 0 <= i < |slots| && slots[i].Taken? ==> slots[i].peer in localId && localId[slots[i].peer] == i
  }

  /** The places a peer is in. */
  function Places(s: State, p: Peer): nat {
    Times(s.slots, p) + multiset(s.reconnects)[p] + multiset(s.garbage)[p] + s.freed[p] + s.dropped[p]
  }

  ghost predicate Once(s: State) {
    forall p :: Places(s, p) == if p in s.known then 1 else 0
  }

  /** Each known peer is in one place, once, and a TCP peer is never dropped. */
  ghost predicate Conserved(s: State) {
    && Once(s) && (forall p :: p in s.dropped ==> !p.tcp)
    && (forall i :: 0 <= i < |s.reconnects| ==> s.reconnects[i].tcp)
  }

  ghost predicate Inv(s: State) {
    s.count == Occupied(s.slots) && Indexed(s.slots, s.byUri) && Located(s.slots, s.localId) && Conserved(s)
  }

  lemma TimesUpdate(slots: seq<Slot>, i: nat, x: Slot, p: Peer)
    requires i < |slots|
    ensures Times(slots[i := x], p) ==
            Times(slots, p) - (if slots[i] == Taken(p) then 1 else 0) + (if x == Taken(p) then 1 else 0)
  {
    assert slots[i] in multiset(slots);
  }

  lemma OccupiedUpdate(slots: seq<Slot>, i: nat, x: Slot)
    requires i < |slots|
    ensures Occupied(slots[i := x]) ==
            Occupied(slots) - (if slots[i].Taken? then 1 else 0) + (if x.Taken? then 1 else 0)
  {
    assert slots[i] in multiset(slots);
  }

  lemma NotThere(s: State, p: Peer)
    ensures Times(s.slots, p) == 0 <==> Taken(p) !in s.slots
  {
    assert Taken(p) in multiset(s.slots) <==> Taken(p) in s.slots;
  }

  lemma PlacedKeeps(s: State, i: nat, p: Peer)
    requires i < |s.slots| && s.slots[i].Empty? && Taken(p) !in s.slots
    requires s.count == Occupied(s.slots) && Indexed(s.slots, s.byUri) && Located(s.slots, s.localId)
    ensures var t := Placed(s, i, p);
            t.count == Occupied(t.slots) && Indexed(t.slots, t.byUri) && Located(t.slots, t.localId)
    ensures forall q :: Times(Placed(s, i, p).slots, q) == Times(s.slots, q) + if q == p then 1 else 0
  {
    OccupiedUpdate(s.slots, i, Taken(p));
    forall q ensures Times(Placed(s, i, p).slots, q) == Times(s.slots, q) + if q == p then 1 else 0 {
      TimesUpdate(s.slots, i, Taken(p), q);
    }
  }

  lemma {:induction false} InsertNewKeepsInv(s: State, p: Peer)
    requires Inv(s) && p !in s.known
    ensures Inv(InsertNew(s, p))
  {
    var i := FirstFree(s.slots);
    if Taken(p) !in s.slots && i < |s.slots| {
      PlacedKeeps(s, i, p);
      var t := InsertNew(s, p);
      forall q ensures Places(t, q) == if q in t.known then 1 else 0 {
        assert Places(s, q) == if q in s.known then 1 else 0;
      }
    }
  }

  lemma ClearedKeeps(s: State, i: nat)
    requires i < |s.slots| && s.slots[i].Taken?
    requires s.count == Occupied(s.slots) && Indexed(s.slots, s.byUri) && Located(s.slots, s.localId)
    ensures var slots := s.slots[i := Empty];
            s.count - 1 == Occupied(slots) && Indexed(slots, WithoutUri(s.slots, s.byUri, s.slots[i].peer)) && Located(slots, s.localId)
    ensures forall q :: Times(s.slots, q) == Times(s.slots[i := Empty], q) + if q == s.slots[i].peer then 1 else 0
  {
    OccupiedUpdate(s.slots, i, Empty);
    forall q ensures Times(s.slots, q) == Times(s.slots[i := Empty], q) + if q == s.slots[i].peer then 1 else 0 {
      TimesUpdate(s.slots, i, Empty, q);
    }
  }

  lemma RemoveOnce(s: State, i: nat, status: Status)
    requires i < |s.slots| && s.slots[i].Taken? && InRange(s.slots, s.byUri) && Once(s)
    requires forall q :: Times(s.slots, q) == Times(s.slots[i := Empty], q) + if q == s.slots[i].peer then 1 else 0
    ensures Once(Remove(s, i, status))
  {
    var t := Remove(s, i, status);
    forall q ensures Places(t, q) == if q in t.known then 1 else 0 {
      assert Places(s, q) == if q in s.known then 1 else 0;
    }
  }

  lemma {:induction false} RemoveKeepsInv(s: State, i: nat, status: Status)
    requires Inv(s) && i < |s.slots|
    ensures Inv(Remove(s, i, status))
  {
    if s.slots[i].Taken? && !status.Up? {
      ClearedKeeps(s, i);
      RemoveOnce(s, i, status);
    }
  }

  /** A peer in the list to reconnect is not in the table. */
  lemma WaitingNotThere(s: State)
    requires Inv(s) && s.reconnects != []
    ensures Taken(s.reconnects[0]) !in s.slots
  {
    var p := s.reconnects[0];
    assert p in multiset(s.reconnects);
    assert Places(s, p) == if p in s.known then 1 else 0;
    NotThere(s, p);
  }

  lemma RestOf(ps: seq<Peer>, q: Peer)
    requires ps != []
    ensures multiset(ps)[q] == multiset(ps[1..])[q] + if q == ps[0] then 1 else 0
  {
    assert ps == [ps[0]] + ps[1..];
  }

  lemma ReconnectPlaces(s: State, self: bool, q: Peer)
    requires s.reconnects != [] && Taken(s.reconnects[0]) !in s.slots
    ensures Places(Reconnect(s, self), q) == Places(s, q)
  {
    RestOf(s.reconnects, q);
    if !self && FirstFree(s.slots) < |s.slots| {
      TimesUpdate(s.slots, FirstFree(s.slots), Taken(s.reconnects[0]), q);
    }
  }

  lemma ReconnectOnce(s: State, self: bool)
    requires Once(s) && s.reconnects != [] && Taken(s.reconnects[0]) !in s.slots
    ensures Once(Reconnect(s, self))
  {
    forall q ensures Places(Reconnect(s, self), q) == if q in s.known then 1 else 0 {
      assert Places(s, q) == if q in s.known then 1 else 0;
      ReconnectPlaces(s, self, q);
    }
  }

  lemma {:induction false} ReconnectKeepsInv(s: State, self: bool)
    requires Inv(s)
    ensures Inv(Reconnect(s, self))
  {
    if s.reconnects != [] {
      WaitingNotThere(s);
      ReconnectOnce(s, self);
      if !self && FirstFree(s.slots) < |s.slots| {
        PlacedKeeps(s, FirstFree(s.slots), s.reconnects[0]);
      }
    }
  }

  lemma CollectKeepsInv(s: State)
    requires Inv(s)
    ensures Inv(Collect(s))
  {
    var t := Collect(s);
    forall q ensures Places(t, q) == if q in t.known then 1 else 0 {
      assert Places(s, q) == if q in s.known then 1 else 0;
    }
  }

  // -------------------------------------------------------------- whole runs

  datatype Step =
    | InsertStep(peer: Peer)
    | RemoveStep(slot: nat, status: Status)
    | ReconnectStep(self: bool)
    | CollectStep

  predicate Allowed(s: State, step: Step) {
    match step
    case InsertStep(p) => p !in s.known
    case RemoveStep(i, _) => i < |s.slots| && InRange(s.slots, s.byUri)
    case _ => true
  }

  function Apply(s: State, step: Step): (t: State)
    requires Allowed(s, step)
    ensures |t.slots| == |s.slots| && s.known <= t.known
  {
    match step
    case InsertStep(p) => InsertNew(s, p)
    case RemoveStep(i, status) => Remove(s, i, status)
    case ReconnectStep(self) => Reconnect(s, self)
    case CollectStep => Collect(s)
  }

  lemma {:induction false} KeepsInv(s: State, step: Step)
    requires Inv(s) && Allowed(s, step)
    ensures Inv(Apply(s, step))
  {
    match step {
      case InsertStep(p) => InsertNewKeepsInv(s, p);
      case RemoveStep(i, status) => RemoveKeepsInv(s, i, status);
      case ReconnectStep(self) => ReconnectKeepsInv(s, self);
      case CollectStep => CollectKeepsInv(s);
    }
  }

  predicate AllAllowed(s: State, steps: seq<Step>)
    decreases |steps|
  {
    steps != [] ==> Allowed(s, steps[0]) && AllAllowed(Apply(s, steps[0]), steps[1..])
  }

  function After(s: State, steps: seq<Step>): State
    requires AllAllowed(s, steps)
    decreases |steps|
  {
    if steps == [] then s else After(Apply(s, steps[0]), steps[1..])
  }

  function Initial(capacity: nat): State {
    State(seq(capacity, _ => Empty), map[], map[], 0, [], [], {}, multiset{}, multiset{})
  }

  lemma InitialInv(capacity: nat)
    ensures Inv(Initial(capacity))
  {
    var slots := Initial(capacity).slots;
    AllEmpty(slots);
    forall p ensures Times(slots, p) == 0 {
      NotThere(Initial(capacity), p);
    }
  }

  lemma {:induction false} AllEmpty(slots: seq<Slot>)
    requires forall i :: 0 <= i < |slots| ==> slots[i].Empty?
    ensures multiset(slots)[Empty] == |slots|
  {
    if slots != [] {
      AllEmpty(slots[1..]);
      assert slots == [slots[0]] + slots[1..];
    }
  }

  /** Over every run: the count is that of the taken slots, each peer's local id
      is its slot, every address in the index leads to a peer with that address,
      and every known peer is in exactly one place, where a TCP peer is in the
      table, waiting to reconnect, or garbage until it is freed. */
  lemma {:induction false} EveryRun(s: State, steps: seq<Step>)
    requires Inv(s) && AllAllowed(s, steps)
    ensures Inv(After(s, steps)) && s.known <= After(s, steps).known
    decreases |steps|
  {
    if steps != [] {
      KeepsInv(s, steps[0]);
      EveryRun(Apply(s, steps[0]), steps[1..]);
    }
  }

  /** A TCP peer that was ever let in is later in the table at its local id, or
      waiting to reconnect, or garbage, or freed, and in one of these only. */
  lemma TcpPeerKept(s: State, steps: seq<Step>, p: Peer)
    requires Inv(s) && AllAllowed(s, steps) && p.tcp && p in s.known
    ensures var t := After(s, steps);
            && Times(t.slots, p) + multiset(t.reconnects)[p] + multiset(t.garbage)[p] + t.freed[p] == 1
            && (Times(t.slots, p) == 1 ==>
                  p in t.localId && t.localId[p] < |t.slots| && t.slots[t.localId[p]] == Taken(p))
  {
    EveryRun(s, steps);
    var t := After(s, steps);
    assert Places(t, p) == 1;
    if Times(t.slots, p) == 1 {
      assert Taken(p) in t.slots;
    }
  }

  // ------------------------------------------------------- who goes where

  /** A TCP peer that is to be reconnected, and a peer that is gone for good. */
  predicate Retries(slot: Slot, status: Status) {
    slot.Taken? && status == Reconnecting && slot.peer.tcp
  }

  predicate Leaves(slot: Slot, status: Status) {
    slot.Taken? && status == Gone
  }

  /** Those of the first `n` slots, in the order of the slots. */
  function Retrying(slots: seq<Slot>, status: seq<Status>, n: nat): seq<Peer>
    requires n <= |slots| == |status|
  {
    if n == 0 then []
    else Retrying(slots, status, n - 1) + if Retries(slots[n - 1], status[n - 1]) then [slots[n - 1].peer] else []
  }

  function Leaving(slots: seq<Slot>, status: seq<Status>, n: nat): seq<Peer>
    requires n <= |slots| == |status|
  {
    if n == 0 then []
    else Leaving(slots, status, n - 1) + if Leaves(slots[n - 1], status[n - 1]) then [slots[n - 1].peer] else []
  }

  lemma {:induction false} RetryingAll(slots: seq<Slot>, status: seq<Status>, n: nat, j: nat)
    requires j < n <= |slots| == |status| && Retries(slots[j], status[j])
    ensures slots[j].peer in Retrying(slots, status, n)
  {
    if j < n - 1 {
      RetryingAll(slots, status, n - 1, j);
    }
  }

  /** The first `n` slots were looked at: peers that are up stay where they are, and the
      others go where they belong. */
  predicate CleanedTo(s: State, r: State, status: seq<Status>, n: nat) {
    && n <= |s.slots| == |status| == |r.slots| && r.known == s.known && r.freed == s.freed
    && (forall j :: 0 <= j < n ==> r.slots[j] == if status[j].Up? then s.slots[j] else Empty)
    && (forall j :: n <= j < |s.slots| ==> r.slots[j] == s.slots[j])
    && r.reconnects == s.reconnects + Retrying(s.slots, status, n)
    && r.garbage == s.garbage + Leaving(s.slots, status, n)
  }

  lemma CleanedNext(s: State, r: State, status: seq<Status>, n: nat)
    requires CleanedTo(s, r, status, n) && n < |s.slots| && InRange(r.slots, r.byUri)
    ensures CleanedTo(s, Remove(r, n, status[n]), status, n + 1)
  {
    RemovedWhere(r, n, status[n]);
  }

  lemma RemovedWhere(s: State, i: nat, status: Status)
    requires i < |s.slots| && InRange(s.slots, s.byUri)
    ensures var r := Remove(s, i, status);
            && r.known == s.known && r.freed == s.freed
            && r.slots == (if status.Up? then s.slots else s.slots[i := Empty])
            && r.reconnects == s.reconnects + (if Retries(s.slots[i], status) then [s.slots[i].peer] else [])
            && r.garbage == s.garbage + if Leaves(s.slots[i], status) then [s.slots[i].peer] else []
  {
    if s.slots[i].Empty? {
      assert s.slots[i := Empty] == s.slots;
    }
  }

  lemma UpStays(slots: seq<Slot>, cleaned: seq<Slot>, now: seq<Slot>, status: seq<Status>)
    requires |slots| == |cleaned| == |status| && Fuller(cleaned, now)
    requires forall j :: 0 <= j < |slots| ==> cleaned[j] == if status[j].Up? then slots[j] else Empty
    ensures forall j :: 0 <= j < |slots| && status[j].Up? && slots[j].Taken? ==> now[j] == slots[j]
  {}

  /** Once all who wait have a slot, so has every peer of theirs that was to reconnect. */
  lemma BackInTable(slots: seq<Slot>, status: seq<Status>, before: seq<Peer>, own: set<string>, now: seq<Slot>, j: nat)
    requires j < |slots| == |status| && Retries(slots[j], status[j]) && slots[j].peer.uri !in own
    requires var waiting := before + Retrying(slots, status, |slots|);
             forall k :: 0 <= k < |waiting| && waiting[k].uri !in own ==> Taken(waiting[k]) in now
    ensures Taken(slots[j].peer) in now
  {
    var waiting := before + Retrying(slots, status, |slots|);
    RetryingAll(slots, status, |slots|, j);
    assert slots[j].peer in waiting;
    var k :| 0 <= k < |waiting| && waiting[k] == slots[j].peer;
  }

  /** Those of the first `n` peers with an address of our own. */
  function Selves(ps: seq<Peer>, own: set<string>, n: nat): seq<Peer>
    requires n <= |ps|
  {
    if n == 0 then [] else Selves(ps, own, n - 1) + if ps[n - 1].uri in own then [ps[n - 1]] else []
  }

  /** Slots that were taken are as they were. */
  predicate Fuller(a: seq<Slot>, b: seq<Slot>) {
    |a| == |b| && forall i :: 0 <= i < |a| && a[i].Taken? ==> b[i] == a[i]
  }

  /** What becomes of the first peer to reconnect. */
  lemma {:induction false} ReconnectWhere(s: State, self: bool)
    requires Inv(s) && s.reconnects != []
    ensures var (p, r) := (s.reconnects[0], Reconnect(s, self));
            && Taken(p) !in s.slots && r.known == s.known && r.freed == s.freed && r.dropped == s.dropped
            && Fuller(s.slots, r.slots)
            && if !self && FirstFree(s.slots) == |s.slots| then Empty !in s.slots && r == s
               else
                 && r.reconnects == s.reconnects[1..]
                 && r.garbage == s.garbage + (if self then [p] else [])
                 && (!self ==> Taken(p) in r.slots)
  {
    WaitingNotThere(s);
    FullIff(s.slots);
    var k := FirstFree(s.slots);
    if !self && k < |s.slots| {
      assert Reconnect(s, self).slots[k] == Taken(s.reconnects[0]);
    }
  }

  /** The first `n` peers that waited have been dealt with. */
  predicate ReconnectedTo(s: State, r: State, own: set<string>, n: nat) {
    && n <= |s.reconnects| && r.reconnects == s.reconnects[n..]
    && r.known == s.known && r.freed == s.freed && r.dropped == s.dropped
    && r.garbage == s.garbage + Selves(s.reconnects, own, n)
    && Fuller(s.slots, r.slots)
    && forall j :: 0 <= j < n && s.reconnects[j].uri !in own ==> Taken(s.reconnects[j]) in r.slots
  }

  lemma {:induction false} ReconnectedNext(s: State, r: State, own: set<string>, n: nat)
    requires Inv(r) && ReconnectedTo(s, r, own, n) && r.reconnects != []
    ensures var (p, t) := (r.reconnects[0], Reconnect(r, r.reconnects[0].uri in own));
            && n < |s.reconnects| && p == s.reconnects[n] && Taken(p) !in r.slots
            && if p.uri !in own && FirstFree(r.slots) == |r.slots| then Empty !in r.slots && t == r
               else ReconnectedTo(s, t, own, n + 1)
  {
    var self := r.reconnects[0].uri in own;
    var t := Reconnect(r, self);
    ReconnectWhere(r, self);
    FullerKeeps(r.slots, t.slots, s.reconnects, own, n);
  }

  lemma FullerKeeps(a: seq<Slot>, b: seq<Slot>, ps: seq<Peer>, own: set<string>, n: nat)
    requires Fuller(a, b) && n <= |ps|
    requires forall j :: 0 <= j < n && ps[j].uri !in own ==> Taken(ps[j]) in a
    ensures forall j :: 0 <= j < n && ps[j].uri !in own ==> Taken(ps[j]) in b
  {
    forall j | 0 <= j < n && ps[j].uri !in own ensures Taken(ps[j]) in b {
      var i :| 0 <= i < |a| && a[i] == Taken(ps[j]);
      assert b[i] == Taken(ps[j]);
    }
  }

  // ---------------------------------------------------------- finding by address

  /** The peer of every taken slot is found by its address. */
  predicate Addressed(s: State) {
    forall i :: 0 <= i < |s.slots| && s.slots[i].Taken? ==>
      s.slots[i].peer.uri in s.byUri && s.byUri[s.slots[i].peer.uri] == i
  }

  /** No other peer in the table has the address. */
  predicate NewAddress(s: State, p: Peer) {
    forall i :: 0 <= i < |s.slots| && s.slots[i].Taken? ==> s.slots[i].peer.uri != p.uri
  }

  /** A peer that gets a slot leaves the others found if and only if none of them has its
      address; otherwise the other one is lost to the index. */
  lemma PlacedAddressed(s: State, p: Peer)
    requires Addressed(s) && Insert(s, p).1.Inserted?
    ensures Addressed(Insert(s, p).0) <==> NewAddress(s, p)
  {
    var t, k := Insert(s, p).0, FirstFree(s.slots);
    if !NewAddress(s, p) {
      var i :| 0 <= i < |s.slots| && s.slots[i].Taken? && s.slots[i].peer.uri == p.uri;
      assert t.slots[i] == s.slots[i] && t.byUri[p.uri] == k != i;
    }
  }

  lemma RemovedAddressed(s: State, i: nat, status: Status)
    requires Addressed(s) && i < |s.slots| && InRange(s.slots, s.byUri) && Located(s.slots, s.localId)
    ensures Addressed(Remove(s, i, status))
  {
    var t := Remove(s, i, status);
    forall j | 0 <= j < |t.slots| && t.slots[j].Taken?
      ensures t.slots[j].peer.uri in t.byUri && t.byUri[t.slots[j].peer.uri] == j
    {
      assert s.slots[j] == t.slots[j];
      if s.slots[i].Taken? && !status.Up? {
        assert s.slots[j] != s.slots[i];
      }
    }
  }

  /** No peer gets a slot while another one with its address has one. */
  predicate Apart(s: State, step: Step) {
    match step
    case InsertStep(p) => NewAddress(s, p)
    case ReconnectStep(self) => s.reconnects != [] && !self ==> NewAddress(s, s.reconnects[0])
    case _ => true
  }

  lemma KeepsAddressed(s: State, step: Step)
    requires Inv(s) && Addressed(s) && Allowed(s, step) && Apart(s, step)
    ensures Addressed(Apply(s, step))
  {
    match step {
      case InsertStep(p) =>
        if Insert(s, p).1.Inserted? {
          PlacedAddressed(s, p);
        }
      case RemoveStep(i, status) => RemovedAddressed(s, i, status);
      case ReconnectStep(self) =>
        if s.reconnects != [] && !self && Insert(s, s.reconnects[0]).1.Inserted? {
          PlacedAddressed(s, s.reconnects[0]);
        }
      case CollectStep =>
    }
  }

  predicate AllApart(s: State, steps: seq<Step>)
    requires AllAllowed(s, steps)
    decreases |steps|
  {
    steps != [] ==> Apart(s, steps[0]) && AllApart(Apply(s, steps[0]), steps[1..])
  }

  /** In every run in which addresses in the table stay apart, each peer in the table is
      found by its address. */
  lemma {:induction false} FoundByAddress(s: State, steps: seq<Step>)
    requires Inv(s) && Addressed(s) && AllAllowed(s, steps) && AllApart(s, steps)
    ensures Addressed(After(s, steps))
    decreases |steps|
  {
    if steps != [] {
      KeepsInv(s, steps[0]);
      KeepsAddressed(s, steps[0]);
      FoundByAddress(Apply(s, steps[0]), steps[1..]);
    }
  }

  // ---------------------------------------------------------------- in place

  class Universe {
    const peers: array<Slot>
    var byUri: map<string, nat>
    var localId: map<Peer, nat>
    var count: int
    var reconnects: seq<Peer>
    var garbage: seq<Peer>
    ghost var known: set<Peer>
    ghost var freed: multiset<Peer>
    ghost var dropped: multiset<Peer>

    ghost function Value(): State
      reads this, peers
    {
      State(peers[..], byUri, localId, count, reconnects, garbage, known, freed, dropped)
    }

    constructor (capacity: nat)
      ensures fresh(peers) && Value() == Initial(capacity)
    {
      peers := new Slot[capacity](_ => Empty);
      byUri, localId, count, reconnects, garbage := map[], map[], 0, [], [];
      known, freed, dropped := {}, multiset{}, multiset{};
    }

    method FindPeer(p: Peer) returns (found: bool)
      ensures found <==> Taken(p) in peers[..]
    {
      for i := 0 to peers.Length
        invariant Taken(p) !in peers[..i]
      {
        if peers[i] == Taken(p) { return true; }
      }
      assert peers[..peers.Length] == peers[..];
      return false;
    }

    method FindFree() returns (i: nat)
      ensures i == FirstFree(peers[..])
    {
      i := 0;
      while i < peers.Length && peers[i].Taken?
        invariant i <= peers.Length && FirstFree(peers[..]) == i + FirstFree(peers[i..])
      {
        i := i + 1;
      }
    }

    method InsertPeer(p: Peer) returns (o: Outcome)
      modifies this`byUri, this`localId, this`count, peers
      ensures (Value(), o) == Insert(old(Value()), p)
      ensures o.AlreadyThere? <==> Taken(p) in old(peers[..])
      ensures !o.Inserted? ==> Value() == old(Value())
      ensures o.Inserted? ==> Taken(p) in peers[..] && p in localId
    {
      var found := FindPeer(p);
      if found { return AlreadyThere; }
      var i := FindFree();
      if i == peers.Length { return TooMany; }
      count := count + 1;
      peers[i] := Taken(p);
      byUri := byUri[p.uri := i];
      localId := localId[p := i];
      assert peers[..][i] == Taken(p);
      return Inserted;
    }

    /** Erases the first entry met that leads to `p`; there is at most one. */
    method EraseUri(p: Peer)
      requires Indexed(peers[..], byUri) && Located(peers[..], localId)
      modifies this`byUri
      ensures byUri == WithoutUri(peers[..], old(byUri), p)
    {
      var todo := byUri.Keys;
      while todo != {}
        invariant byUri == old(byUri) && todo <= byUri.Keys
        invariant forall u :: u in byUri && u !in todo ==> peers[byUri[u]] != Taken(p)
      {
        var u :| u in todo;
        if peers[byUri[u]] == Taken(p) {
          byUri := byUri - {u};
          return;
        }
        todo := todo - {u};
      }
    }

    method Release(p: Peer, status: Status)
      modifies this`reconnects, this`garbage, this`dropped
      ensures Value() == LetGo(old(Value()), p, status)
    {
      if status.Reconnecting? {
        if p.tcp { reconnects := reconnects + [p]; } else { dropped := dropped + multiset{p}; }
      } else {
        garbage := garbage + [p];
      }
    }

    method Clear(i: nat, p: Peer)
      requires i < peers.Length && Indexed(peers[..], byUri) && Located(peers[..], localId)
      modifies this`byUri, this`count, peers
      ensures Value() == Cleared(old(Value()), i, p)
    {
      EraseUri(p);
      count := count - 1;
      peers[i] := Empty;
    }

    method RemovePeer(i: nat, status: Status)
      requires i < peers.Length && Indexed(peers[..], byUri) && Located(peers[..], localId)
      modifies this, peers
      ensures Value() == Remove(old(Value()), i, status)
      ensures reconnects == old(reconnects) + if Retries(old(peers[i]), status) then [old(peers[i]).peer] else []
      ensures garbage == old(garbage) + if Leaves(old(peers[i]), status) then [old(peers[i]).peer] else []
    {
      if peers[i].Empty? || status.Up? { return; }
      var p := peers[i].peer;
      Clear(i, p);
      Release(p, status);
    }

    /** A pass leaves exactly the peers that are up, where they were, and loses
        none of the others. */
    method CleanupPeers(status: seq<Status>)
      requires |status| == peers.Length && Inv(Value())
      modifies this, peers
      ensures Inv(Value()) && known == old(known) && freed == old(freed)
      ensures forall j :: 0 <= j < peers.Length ==> peers[j] == if status[j].Up? then old(peers[j]) else Empty
      ensures reconnects == old(reconnects) + Retrying(old(peers[..]), status, peers.Length)
      ensures garbage == old(garbage) + Leaving(old(peers[..]), status, peers.Length)
    {
      ghost var was := Value();
      for i := 0 to peers.Length
        invariant Inv(Value()) && CleanedTo(was, Value(), status, i)
      {
        CleanSlot(i, status, was);
      }
      assert forall j :: 0 <= j < peers.Length ==> peers[..][j] == peers[j];
    }

    method CleanSlot(i: nat, status: seq<Status>, ghost was: State)
      requires i < peers.Length == |status| && Inv(Value()) && CleanedTo(was, Value(), status, i)
      modifies this, peers
      ensures Inv(Value()) && CleanedTo(was, Value(), status, i + 1)
    {
      RemoveKeepsInv(Value(), i, status[i]);
      CleanedNext(was, Value(), status, i);
      RemovePeer(i, status[i]);
    }

    /** Handles all peers to reconnect, until the table is full: those with an address
        of our own are let go, the others get a slot. */
    method ReconnectAll(own: set<string>) returns (done: nat)
      requires Inv(Value())
      modifies this, peers
      ensures done <= |old(reconnects)| && Inv(Value()) && reconnects == old(reconnects)[done..]
      ensures known == old(known) && freed == old(freed) && dropped == old(dropped)
      ensures done < |old(reconnects)| ==> old(reconnects)[done].uri !in own && Empty !in peers[..]
      ensures garbage == old(garbage) + Selves(old(reconnects), own, done)
      ensures Fuller(old(peers[..]), peers[..])
      ensures forall j :: 0 <= j < done && old(reconnects)[j].uri !in own ==> Taken(old(reconnects)[j]) in peers[..]
    {
      ghost var was := Value();
      done := 0;
      while reconnects != []
        invariant Inv(Value()) && ReconnectedTo(was, Value(), own, done)
        decreases |was.reconnects| - done
      {
        var full := ReconnectNext(own, was, done);
        if full { return; }
        done := done + 1;
      }
    }

    method ReconnectNext(own: set<string>, ghost was: State, ghost n: nat) returns (full: bool)
      requires Inv(Value()) && ReconnectedTo(was, Value(), own, n) && reconnects != []
      modifies this, peers
      ensures Inv(Value()) && ReconnectedTo(was, Value(), own, if full then n else n + 1)
      ensures full ==> n < |was.reconnects| && was.reconnects[n].uri !in own && Empty !in peers[..]
    {
      ReconnectKeepsInv(Value(), reconnects[0].uri in own);
      ReconnectedNext(was, Value(), own, n);
      full := ReconnectFirst(own);
    }

    /** The first peer to reconnect. */
    method ReconnectFirst(own: set<string>) returns (full: bool)
      requires reconnects != [] && Taken(reconnects[0]) !in peers[..]
      modifies this, peers
      ensures Value() == Reconnect(old(Value()), old(reconnects)[0].uri in own)
      ensures full <==> old(reconnects)[0].uri !in own && FirstFree(old(peers[..])) == peers.Length
    {
      var p := reconnects[0];
      if p.uri in own {
        garbage := garbage + [p];
      } else {
        var o := InsertPeer(p);
        if o.TooMany? { return true; }
      }
      reconnects := reconnects[1..];
      return false;
    }

    /** A clean-up and then a round of reconnecting: with a slot to spare in the end,
        every TCP peer that reported to reconnect, at an address not our own, is in the
        table again, at its local id. */
    method CleanupAndReconnect(status: seq<Status>, own: set<string>)
      requires |status| == peers.Length && Inv(Value())
      modifies this, peers
      ensures Inv(Value()) && known == old(known)
      ensures forall j :: 0 <= j < peers.Length && status[j].Up? && old(peers[j]).Taken? ==> peers[j] == old(peers[j])
      ensures Empty in peers[..] ==> reconnects == []
      ensures Empty in peers[..] ==>
                forall j :: 0 <= j < peers.Length && Retries(old(peers[j]), status[j]) && old(peers[j]).peer.uri !in own ==>
                  There(old(peers[j]).peer)
    {
      ghost var slots, before := peers[..], reconnects;
      CleanupPeers(status);
      ghost var cleaned := peers[..];
      var done := ReconnectAll(own);
      UpStays(slots, cleaned, peers[..], status);
      assert forall j :: 0 <= j < peers.Length ==> peers[..][j] == peers[j] && slots[j] == old(peers[j]);
      if Empty in peers[..] {
        AllBack(slots, status, before, own);
      }
    }

    lemma AllBack(slots: seq<Slot>, status: seq<Status>, before: seq<Peer>, own: set<string>)
      requires |slots| == |status| && Located(peers[..], localId)
      requires var waiting := before + Retrying(slots, status, |slots|);
               forall k :: 0 <= k < |waiting| && waiting[k].uri !in own ==> Taken(waiting[k]) in peers[..]
      ensures forall j :: 0 <= j < |slots| && Retries(slots[j], status[j]) && slots[j].peer.uri !in own ==>
                There(slots[j].peer)
    {
      forall j | 0 <= j < |slots| && Retries(slots[j], status[j]) && slots[j].peer.uri !in own
        ensures There(slots[j].peer)
      {
        BackInTable(slots, status, before, own, peers[..], j);
        IsThere(slots[j].peer);
      }
    }

    /** The peer is in the table at its local id. */
    ghost predicate There(p: Peer)
      reads this, peers
    {
      p in localId && localId[p] < peers.Length && peers[localId[p]] == Taken(p)
    }

    lemma IsThere(p: Peer)
      requires Located(peers[..], localId) && Taken(p) in peers[..]
      ensures There(p)
    {
      var i :| 0 <= i < peers.Length && peers[..][i] == Taken(p);
      assert peers[..][i].peer in localId;
    }

    /** The peer of a slot is found by its local id. */
    method GetPeer(id: int) returns (r: Slot)
      requires Located(peers[..], localId)
      ensures r == if 0 <= id < peers.Length then peers[id] else Empty
    {
      for i := 0 to peers.Length
        invariant forall j :: 0 <= j < i && peers[j].Taken? ==> localId[peers[j].peer] != id
      {
        if peers[i].Taken? && localId[peers[i].peer] == id { return peers[i]; }
      }
      return Empty;
    }
  }

  lemma {:induction false} FullIff(slots: seq<Slot>)
    ensures FirstFree(slots) == |slots| <==> Empty !in slots
  {
    if slots != [] {
      FullIff(slots[1..]);
      assert slots == [slots[0]] + slots[1..];
    }
  }
}
