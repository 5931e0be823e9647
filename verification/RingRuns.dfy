/** Whole runs of `PacketManager` on its ring: packets are conserved exactly when
    every call is safe. */
module RingRuns {
  import opened PacketManager
  import opened PacketRing
  import opened RingSafe
  import opened RingLoss

  /** The call is safe, from outside any drain. */
  predicate Safe(s: State, p: Packet) {
    SubmitSafe(s, p, ReadPos(s), Nothing)
  }

  /** A ring outside any drain whose packets, with the next one, are distinct. */
  ghost predicate Ready(s: Ring, p: Packet) {
    && Wf(s) && s.writePos - s.readPos <= SLOTS && Once(s) && p !in s.slots
    && Whole(Total(s, multiset{p}, multiset{}))
  }

  /** One call: the ring agrees with the unbounded window if and only if the call
      is safe, and otherwise a packet is lost. */
  lemma SubmitExact(s: Ring, p: Packet)
    requires Ready(s, p)
    ensures Safe(ValueOf(s), p) <==> ValueOf(Submitted(s, p, Caller)) == Submit(ValueOf(s), p)
    ensures !Safe(ValueOf(s), p) ==> Loses(Submitted(s, p, Caller), Total(s, multiset{p}, multiset{}))
    ensures Safe(ValueOf(s), p) ==>
              Submitted(s, p, Caller).writePos - Submitted(s, p, Caller).readPos <= SLOTS
  {
    if Safe(ValueOf(s), p) {
      SafeCall(s, p);
    } else {
      UnsafeCall(s, p);
      LosesDiffers(s, p);
    }
  }

  lemma SafeCall(s: Ring, p: Packet)
    requires Wf(s) && s.writePos - s.readPos <= SLOTS && Safe(ValueOf(s), p)
    ensures var r := Submitted(s, p, Caller);
            ValueOf(r) == Submit(ValueOf(s), p) && r.writePos - r.readPos <= SLOTS
  {
    SubmitAgrees(s, p, Caller, s.readPos, Nothing);
  }

  lemma UnsafeCall(s: Ring, p: Packet)
    requires Ready(s, p) && !Safe(ValueOf(s), p)
    ensures Loses(Submitted(s, p, Caller), Total(s, multiset{p}, multiset{}))
  {
    var c := Scene(s, Nothing, multiset{p}, multiset{}, Total(s, multiset{p}, multiset{}));
    assert Orderly(c);
    SubmitLoses(c, p, Caller, s.readPos);
  }

  lemma AbsentNotHeld(s: Ring, q: Packet)
    requires Wf(s) && Absent(s, q)
    ensures Held(ValueOf(s))[q] == 0
  {
    assert forall i :: 0 <= i < |Waiting(s)| ==> Waiting(s)[i] == At(s.slots, s.readPos + i);
  }

  lemma LosesDiffers(s: Ring, p: Packet)
    requires Ready(s, p) && Loses(Submitted(s, p, Caller), Total(s, multiset{p}, multiset{}))
    ensures ValueOf(Submitted(s, p, Caller)) != Submit(ValueOf(s), p)
  {
    var all := Total(s, multiset{p}, multiset{});
    var q :| q in all && Absent(Submitted(s, p, Caller), q);
    AbsentNotHeld(Submitted(s, p, Caller), q);
    SubmitConserves(ValueOf(s), p);
    assert Held(Submit(ValueOf(s), p))[q] == all[q];
  }

  // -------------------------------------------------------------- whole runs

  function RingFrom(s: Ring, ps: seq<Packet>): (r: Ring)
    requires Wf(s)
    ensures Wf(r)
  {
    if ps == [] then s else Submitted(RingFrom(s, ps[..|ps| - 1]), ps[|ps| - 1], Caller)
  }

  function RingAll(ps: seq<Packet>): (r: Ring)
    ensures Wf(r)
  {
    RingFrom(EmptyRing(), ps)
  }

  predicate AllSafe(ps: seq<Packet>) {
    ps != [] ==> AllSafe(ps[..|ps| - 1]) && Safe(SubmitAll(INITIAL, ps[..|ps| - 1]), ps[|ps| - 1])
  }

  /** Each packet was delivered once or waits, once. */
  predicate Conserved(r: Ring, ps: seq<Packet>)
    requires Wf(r)
  {
    multiset(r.delivered) + multiset(Waiting(r)) == multiset(ps)
  }

  lemma LastOf(ps: seq<Packet>)
    requires ps != []
    ensures multiset(ps) == multiset(ps[..|ps| - 1]) + multiset{ps[|ps| - 1]}
  {
    assert ps == ps[..|ps| - 1] + [ps[|ps| - 1]];
  }

  /** A packet not submitted is nowhere. */
  lemma {:induction false} NotSubmitted(ps: seq<Packet>, q: Packet)
    requires q !in ps && q.id != 0
    ensures Absent(RingAll(ps), q)
  {
    if ps != [] {
      NotSubmitted(ps[..|ps| - 1], q);
      SubmitAbsent(RingAll(ps[..|ps| - 1]), ps[|ps| - 1], Caller, q);
    }
  }

  lemma WholeFront(ps: seq<Packet>)
    requires Whole(multiset(ps)) && ps != []
    ensures Whole(multiset(ps[..|ps| - 1])) && ps[|ps| - 1] !in ps[..|ps| - 1] && ps[|ps| - 1].id != 0
  {
    LastOf(ps);
    var front, last := ps[..|ps| - 1], ps[|ps| - 1];
    assert last in multiset(ps);
    forall q: Packet | q in multiset(front) ensures multiset(front)[q] == 1 && q.id != 0 {
      assert q in multiset(ps);
    }
  }

  /** A safe run goes as on the unbounded window. */
  lemma {:induction false} RunAgrees(ps: seq<Packet>)
    requires Whole(multiset(ps)) && AllSafe(ps)
    ensures var r := RingAll(ps);
            ValueOf(r) == SubmitAll(INITIAL, ps) && r.writePos - r.readPos <= SLOTS && Once(r)
  {
    if ps == [] {
      assert Waiting(EmptyRing()) == [];
    } else {
      var front, last := ps[..|ps| - 1], ps[|ps| - 1];
      WholeFront(ps);
      RunAgrees(front);
      RunReady(ps);
      SubmitExact(RingAll(front), last);
      SubmitOnce(RingAll(front), last, Caller);
    }
  }

  lemma RunReady(ps: seq<Packet>)
    requires Whole(multiset(ps)) && ps != []
    requires var r := RingAll(ps[..|ps| - 1]);
             ValueOf(r) == SubmitAll(INITIAL, ps[..|ps| - 1]) && r.writePos - r.readPos <= SLOTS && Once(r)
    ensures Ready(RingAll(ps[..|ps| - 1]), ps[|ps| - 1])
    ensures Total(RingAll(ps[..|ps| - 1]), multiset{ps[|ps| - 1]}, multiset{}) == multiset(ps)
  {
    var front, last := ps[..|ps| - 1], ps[|ps| - 1];
    WholeFront(ps);
    NotSubmitted(front, last);
    PacketManager.EveryRun(front);
    LastOf(ps);
  }

  /** A run that is not safe loses a packet. */
  lemma {:induction false} RunLoses(ps: seq<Packet>)
    requires Whole(multiset(ps)) && !AllSafe(ps)
    ensures Loses(RingAll(ps), multiset(ps))
  {
    var front, last := ps[..|ps| - 1], ps[|ps| - 1];
    WholeFront(ps);
    if AllSafe(front) {
      RunAgrees(front);
      RunReady(ps);
      SubmitExact(RingAll(front), last);
    } else {
      RunLoses(front);
      var q :| q in multiset(front) && Absent(RingAll(front), q);
      SubmitAbsent(RingAll(front), last, Caller, q);
      assert q in multiset(ps);
    }
  }

  /** After any run of distinct packets, each has been delivered once or waits if
      and only if every call of the run was safe. A safe run also keeps the
      counter of end-of-frame packets right and at most four. */
  lemma RunExact(ps: seq<Packet>)
    requires Whole(multiset(ps))
    ensures AllSafe(ps) <==> Conserved(RingAll(ps), ps)
    ensures AllSafe(ps) ==>
              var r := RingAll(ps);
              && ValueOf(r) == SubmitAll(INITIAL, ps)
              && r.waitingEnds == Ends(Waiting(r)) <= MAX_WAITING && r.writePos - r.readPos <= SLOTS
              && (r.timestamp == IDLE ==> Waiting(r) == [])
  {
    if AllSafe(ps) {
      RunAgrees(ps);
      PacketManager.EveryRun(ps);
    } else {
      RunLoses(ps);
      var q :| q in multiset(ps) && Absent(RingAll(ps), q);
      AbsentNotHeld(RingAll(ps), q);
    }
  }
}
