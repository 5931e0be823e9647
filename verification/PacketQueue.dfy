/** The receive queue in place: a deque of packets with consumed flags. */
module PacketQueue {
  import opened RecvQueue

  datatype Entry = Entry(packet: Packet, tsRel: int, consumed: bool)

  /** The packets not consumed yet. */
  function Unconsumed(es: seq<Entry>): seq<Packet> {
    if es == [] then []
    else
      var init, last := Unconsumed(es[..|es| - 1]), es[|es| - 1];
      if last.consumed then init else init + [last.packet]
  }

  lemma {:induction false} UnconsumedAppend(a: seq<Entry>, b: seq<Entry>)
    ensures Unconsumed(a + b) == Unconsumed(a) + Unconsumed(b)
  {
    if b == [] {
      assert a + b == a;
    } else {
      var n := |b| - 1;
      assert (a + b)[..|a + b| - 1] == a + b[..n];
      UnconsumedAppend(a, b[..n]);
    }
  }

  /** Smallest release time of the packets left behind, if any. */
  datatype Wake = Never | At(time: int)

  function Sooner(w: Wake, t: int): Wake {
    if w.Never? || t < w.time then At(t) else w
  }

  /** When the first of the `n` first entries that are left is due, `base` milliseconds
      after its relative time. */
  function Soonest(es: seq<Entry>, n: nat, base: int): Wake
    requires n <= |es|
  {
    if n == 0 then Never
    else if es[n - 1].consumed then Soonest(es, n - 1, base)
    else Sooner(Soonest(es, n - 1, base), base + es[n - 1].tsRel)
  }

  /** It is the least release time, and there is none only if nothing is left. */
  lemma {:induction false} SoonestIsLeast(es: seq<Entry>, n: nat, base: int)
    requires n <= |es|
    ensures var wake := Soonest(es, n, base);
            if wake.Never? then forall j :: 0 <= j < n ==> es[j].consumed
            else
              && (exists j :: 0 <= j < n && !es[j].consumed && wake.time == base + es[j].tsRel)
              && forall j :: 0 <= j < n && !es[j].consumed ==> wake.time <= base + es[j].tsRel
  {
    if n > 0 {
      SoonestIsLeast(es, n - 1, base);
    }
  }

  lemma {:induction false} SoonestSame(es: seq<Entry>, fs: seq<Entry>, n: nat, base: int)
    requires n <= |es| && n <= |fs| && forall j :: 0 <= j < n ==> es[j] == fs[j]
    ensures Soonest(es, n, base) == Soonest(fs, n, base)
  {
    if n > 0 {
      SoonestSame(es, fs, n - 1, base);
    }
  }

  lemma {:induction false} SoonestDropped(es: seq<Entry>, k: nat, n: nat, base: int)
    requires k <= n <= |es| && Dropped(es, k)
    ensures Soonest(es[k..], n - k, base) == Soonest(es, n, base)
  {
    if n > 0 {
      SoonestDropped(es, if k < n then k else n - 1, n - 1, base);
      if k == n {
        assert es[n - 1].consumed;
      }
    }
  }

  class PacketQueue {
    var packets: seq<Entry>
    const tsBase: int
    var localBase: int
    var incomplete: map<int, int>

    ghost predicate Valid()
      reads this
    {
      forall j :: 0 <= j < |packets| ==> packets[j].tsRel == packets[j].packet.timestamp - tsBase
    }

    ghost function Value(): Queue
      reads this
    {
      Queue(Unconsumed(packets), tsBase, localBase, incomplete)
    }

    ghost predicate SameTimes(q: Queue)
      reads this
    {
      q.tsBase == tsBase && q.localBase == localBase && q.incomplete == incomplete
    }

    constructor (tsBase: int, localBase: int)
      ensures Valid() && Value() == Queue([], tsBase, localBase, map[])
    {
      packets, incomplete := [], map[];
      this.tsBase, this.localBase := tsBase, localBase;
    }

    /** The part of `queuePacket_` done under the queue's lock. */
    method Insert(p: Packet)
      requires Valid()
      modifies this
      ensures Valid() && Value() == Inserted(old(Value()), p)
    {
      UnconsumedAppend(packets, [Entry(p, p.timestamp - tsBase, false)]);
      packets := packets + [Entry(p, p.timestamp - tsBase, false)];
      var count := if p.timestamp in incomplete then incomplete[p.timestamp] else 0;
      count := count + 1;
      if p.IsEnd() { count := count - p.count; }
      incomplete := incomplete[p.timestamp := count];
      if count == 0 { incomplete := incomplete - {p.timestamp}; }
    }

    /** `should_process_now` of the thread's pass. */
    method ShouldProcessNow(e: Entry, pass: Pass, ghost q: Queue) returns (now: bool)
      requires e.tsRel == e.packet.timestamp - tsBase && SameTimes(q)
      ensures now == Ready(q, pass, e.packet)
    {
      var haveAll := e.packet.timestamp !in incomplete;
      if pass.sync && !haveAll { return false; }
      if e.packet.IsEnd() && !haveAll { return false; }
      return (localBase + e.tsRel + pass.buffering) * 1000 < pass.now;
    }

    /** One pass over the queue: take what is ready, mark it consumed, and drop
        consumed packets from the front. */
    method Collect(pass: Pass) returns (out: seq<Packet>, wake: Wake)
      requires Valid()
      modifies this
      ensures Valid() && out == Released(old(Value()), pass) && Value() == Retained(old(Value()), pass)
      ensures packets == [] || !packets[0].consumed
      ensures wake == Soonest(packets, |packets|, localBase + pass.buffering)
    {
      out, wake := TakeAll(pass);
      PopConsumed(localBase + pass.buffering);
    }

    method TakeAll(pass: Pass) returns (out: seq<Packet>, wake: Wake)
      requires Valid()
      modifies this`packets
      ensures Valid() && out == Released(old(Value()), pass) && Value() == Retained(old(Value()), pass)
      ensures wake == Soonest(packets, |packets|, localBase + pass.buffering)
    {
      ghost var q, before := Value(), packets;
      out, wake := TakeReady(pass, q);
      UnconsumedMarked(before, packets, q, pass);
      TakenSelected(before, |before|, q, pass);
      assert before[..|before|] == before;
    }

    method TakeReady(pass: Pass, ghost q: Queue) returns (out: seq<Packet>, wake: Wake)
      requires Valid() && SameTimes(q)
      modifies this`packets
      ensures Valid() && |packets| == |old(packets)|
      ensures forall j :: 0 <= j < |packets| ==> packets[j] == Marked(old(packets)[j], q, pass)
      ensures out == TakenFrom(old(packets), |old(packets)|, q, pass)
      ensures wake == Soonest(packets, |packets|, localBase + pass.buffering)
    {
      ghost var before := packets;
      out, wake := [], Never;
      for i := 0 to |packets|
        invariant Valid() && |packets| == |before| && MarkedTo(before, packets, i, q, pass)
        invariant out == TakenFrom(before, i, q, pass)
        invariant wake == Soonest(packets, i, localBase + pass.buffering)
      {
        ghost var was := packets;
        MarkedNext(before, was, i, q, pass);
        var taken;
        taken, wake := Visit(i, pass, q, wake);
        SoonestSame(was, packets, i, localBase + pass.buffering);
        if taken { out := out + [packets[i].packet]; }
      }
    }

    /** One turn of the loop: takes the packet if it is ready, else it is a reason to wake up. */
    method Visit(i: nat, pass: Pass, ghost q: Queue, early: Wake) returns (taken: bool, wake: Wake)
      requires Valid() && SameTimes(q) && i < |packets|
      modifies this`packets
      ensures Valid() && packets == old(packets)[i := Marked(old(packets)[i], q, pass)]
      ensures taken <==> !old(packets)[i].consumed && Ready(q, pass, old(packets)[i].packet)
      ensures wake == if packets[i].consumed then early else Sooner(early, localBase + pass.buffering + packets[i].tsRel)
    {
      var e := packets[i];
      taken, wake := false, early;
      if !e.consumed {
        taken := ShouldProcessNow(e, pass, q);
        if taken {
          packets := packets[i := e.(consumed := true)];
        } else {
          wake := Sooner(wake, localBase + e.tsRel + pass.buffering);
        }
      }
    }

    method PopConsumed(ghost base: int)
      requires Valid()
      modifies this`packets
      ensures Valid() && Value() == old(Value())
      ensures packets == [] || !packets[0].consumed
      ensures Soonest(packets, |packets|, base) == Soonest(old(packets), |old(packets)|, base)
    {
      ghost var k := 0;
      while packets != [] && packets[0].consumed
        invariant Valid() && Unconsumed(packets) == old(Unconsumed(packets))
        invariant 0 <= k <= |old(packets)| && Dropped(old(packets), k) && packets == old(packets)[k..]
        decreases |packets|
      {
        assert packets == [packets[0]] + packets[1..];
        UnconsumedAppend([packets[0]], packets[1..]);
        packets := packets[1..];
        k := k + 1;
      }
      SoonestDropped(old(packets), k, |old(packets)|, base);
    }
  }

  /** The first `k` entries are consumed. */
  predicate Dropped(es: seq<Entry>, k: nat)
    requires k <= |es|
  {
    forall j :: 0 <= j < k ==> es[j].consumed
  }

  ghost function Marked(e: Entry, q: Queue, pass: Pass): Entry {
    e.(consumed := e.consumed || Ready(q, pass, e.packet))
  }

  /** The first `n` entries have been visited. */
  ghost predicate MarkedTo(es: seq<Entry>, ms: seq<Entry>, n: nat, q: Queue, pass: Pass)
    requires n <= |es| == |ms|
  {
    && (forall j :: 0 <= j < n ==> ms[j] == Marked(es[j], q, pass))
    && (forall j :: n <= j < |es| ==> ms[j] == es[j])
  }

  lemma MarkedNext(es: seq<Entry>, ms: seq<Entry>, n: nat, q: Queue, pass: Pass)
    requires n < |es| == |ms| && MarkedTo(es, ms, n, q, pass)
    ensures ms[n] == es[n] && MarkedTo(es, ms[n := Marked(ms[n], q, pass)], n + 1, q, pass)
  {}

  /** What the first `n` entries give. */
  ghost function TakenFrom(es: seq<Entry>, n: nat, q: Queue, pass: Pass): seq<Packet>
    requires n <= |es|
  {
    if n == 0 then []
    else
      var e := es[n - 1];
      TakenFrom(es, n - 1, q, pass) + if !e.consumed && Ready(q, pass, e.packet) then [e.packet] else []
  }

  lemma {:induction false} TakenSelected(es: seq<Entry>, n: nat, q: Queue, pass: Pass)
    requires n <= |es|
    ensures TakenFrom(es, n, q, pass) == Select(Unconsumed(es[..n]), q, pass, true)
  {
    if n > 0 {
      TakenSelected(es, n - 1, q, pass);
      SelectNext(es, n - 1, q, pass);
    }
  }

  lemma SelectNext(es: seq<Entry>, i: nat, q: Queue, pass: Pass)
    requires i < |es|
    ensures var out := Select(Unconsumed(es[..i]), q, pass, true);
            Select(Unconsumed(es[..i + 1]), q, pass, true) ==
            if !es[i].consumed && Ready(q, pass, es[i].packet) then out + [es[i].packet] else out
  {
    assert es[..i + 1][..i] == es[..i];
    if !es[i].consumed {
      TakeLast(Unconsumed(es[..i]), es[i].packet, q, pass);
    }
  }

  lemma {:induction false} UnconsumedMarked(es: seq<Entry>, ms: seq<Entry>, q: Queue, pass: Pass)
    requires |es| == |ms| && forall j :: 0 <= j < |es| ==> ms[j] == Marked(es[j], q, pass)
    ensures Unconsumed(ms) == Select(Unconsumed(es), q, pass, false)
  {
    if es != [] {
      var n := |es| - 1;
      UnconsumedMarked(es[..n], ms[..n], q, pass);
      if !es[n].consumed {
        TakeLast(Unconsumed(es[..n]), es[n].packet, q, pass);
      }
    }
  }

  lemma TakeLast(s: seq<Packet>, p: Packet, q: Queue, pass: Pass)
    ensures var out, left := Select(s, q, pass, true), Select(s, q, pass, false);
            if Ready(q, pass, p) then
              Select(s + [p], q, pass, true) == out + [p] && Select(s + [p], q, pass, false) == left
            else
              Select(s + [p], q, pass, true) == out && Select(s + [p], q, pass, false) == left + [p]
  {
    assert (s + [p])[..|s|] == s;
    assert Select(s, q, pass, true) + [] == Select(s, q, pass, true);
    assert Select(s, q, pass, false) + [] == Select(s, q, pass, false);
  }
}
