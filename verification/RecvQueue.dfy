/** One frame's receive queue: completeness counting, timed release, and the
    order in which released packets are dispatched. */
module RecvQueue {
  const END_FRAME := 2048
  const FIRST_DATA_CHANNEL := 32

  /** `count` is meaningful on end-of-frame packets: the number of packets of
      this frame and timestamp, itself included. */
  datatype Packet = Packet(fid: int, timestamp: int, channel: int, count: nat, id: nat) {
    predicate IsEnd() {
      channel == END_FRAME
    }

    predicate IsVideo() {
      channel < FIRST_DATA_CHANNEL
    }
  }

  /** What one pass of the stream's thread uses throughout: the time in
      microseconds, the buffering delay in milliseconds, the sync option. */
  datatype Pass = Pass(now: int, buffering: int, sync: bool)

  /** `waiting` are the packets not consumed yet, in arrival order. */
  datatype Queue = Queue(waiting: seq<Packet>, tsBase: int, localBase: int, incomplete: map<int, int>)

  function Missing(q: Queue, ts: int): int {
    if ts in q.incomplete then q.incomplete[ts] else 0
  }

  function Inserted(q: Queue, p: Packet): Queue {
    var count := Missing(q, p.timestamp) + 1 - if p.IsEnd() then p.count else 0;
    q.(waiting := q.waiting + [p],
       incomplete := if count == 0 then q.incomplete - {p.timestamp} else q.incomplete[p.timestamp := count])
  }

  predicate Ready(q: Queue, pass: Pass, p: Packet) {
    && (p.timestamp in q.incomplete ==> !pass.sync && !p.IsEnd())
    && (q.localBase + (p.timestamp - q.tsBase) + pass.buffering) * 1000 < pass.now
  }

  /** The packets of `s` that are ready, or those that are not. */
  function Select(s: seq<Packet>, q: Queue, pass: Pass, ready: bool): (r: seq<Packet>)
    ensures forall p :: p in r <==> p in s && Ready(q, pass, p) == ready
  {
    if s == [] then []
    else
      var last := s[|s| - 1];
      assert s == s[..|s| - 1] + [last];
      Select(s[..|s| - 1], q, pass, ready) + if Ready(q, pass, last) == ready then [last] else []
  }

  function Released(q: Queue, pass: Pass): seq<Packet> {
    Select(q.waiting, q, pass, true)
  }

  function Retained(q: Queue, pass: Pass): Queue {
    q.(waiting := Select(q.waiting, q, pass, false))
  }

  lemma {:induction false} SelectSplits(s: seq<Packet>, q: Queue, pass: Pass)
    ensures multiset(s) == multiset(Select(s, q, pass, true)) + multiset(Select(s, q, pass, false))
  {
    if s != [] {
      var init, last := s[..|s| - 1], s[|s| - 1];
      SelectSplits(init, q, pass);
      assert s == init + [last];
      if Ready(q, pass, last) {
        assert Select(s, q, pass, true) == Select(init, q, pass, true) + [last];
      } else {
        assert Select(s, q, pass, false) == Select(init, q, pass, false) + [last];
      }
    }
  }

  // -------------------------------------------------------------- dispatch order

  /** By timestamp, the end-of-frame packet last. */
  predicate Before(a: Packet, b: Packet) {
    a.timestamp < b.timestamp || (a.timestamp == b.timestamp && !a.IsEnd() && b.IsEnd())
  }

  /** `x` after every packet that need not come later: a stable insertion. */
  function Place(s: seq<Packet>, x: Packet): seq<Packet> {
    if s == [] || !Before(x, s[|s| - 1]) then s + [x]
    else Place(s[..|s| - 1], x) + [s[|s| - 1]]
  }

  function Sorted(s: seq<Packet>): seq<Packet> {
    if s == [] then [] else Place(Sorted(s[..|s| - 1]), s[|s| - 1])
  }

  predicate Ordered(s: seq<Packet>) {
    forall i, j :: 0 <= i < j < |s| ==> !Before(s[j], s[i])
  }

  lemma {:induction false} PlaceKeeps(s: seq<Packet>, x: Packet)
    requires Ordered(s)
    ensures Ordered(Place(s, x)) && multiset(Place(s, x)) == multiset(s) + multiset{x}
  {
    if s != [] && Before(x, s[|s| - 1]) {
      var init, last := s[..|s| - 1], s[|s| - 1];
      PlaceKeeps(init, x);
      assert s == init + [last];
      var r := Place(init, x);
      forall i | 0 <= i < |r| ensures !Before(last, r[i]) {
        assert r[i] in multiset(r);
        assert r[i] == x || r[i] in init;
      }
    }
  }

  lemma {:induction false} SortedKeeps(s: seq<Packet>)
    ensures Ordered(Sorted(s)) && multiset(Sorted(s)) == multiset(s)
  {
    if s != [] {
      SortedKeeps(s[..|s| - 1]);
      PlaceKeeps(Sorted(s[..|s| - 1]), s[|s| - 1]);
      assert s == s[..|s| - 1] + [s[|s| - 1]];
    }
  }

  // --------------------------------------------------- one channel of one frame

  function Of(s: seq<Packet>, fid: int, channel: int): seq<Packet> {
    if s == [] then []
    else
      var last := s[|s| - 1];
      Of(s[..|s| - 1], fid, channel) + if last.fid == fid && last.channel == channel then [last] else []
  }

  lemma {:induction false} OfMembers(s: seq<Packet>, fid: int, channel: int)
    ensures forall p :: p in Of(s, fid, channel) <==> p in s && p.fid == fid && p.channel == channel
  {
    if s != [] {
      OfMembers(s[..|s| - 1], fid, channel);
      assert s == s[..|s| - 1] + [s[|s| - 1]];
    }
  }

  lemma {:induction false} OfAppend(a: seq<Packet>, b: seq<Packet>, fid: int, channel: int)
    ensures Of(a + b, fid, channel) == Of(a, fid, channel) + Of(b, fid, channel)
  {
    if b == [] {
      assert a + b == a;
    } else {
      var n := |b| - 1;
      assert (a + b)[..|a + b| - 1] == a + b[..n];
      OfAppend(a, b[..n], fid, channel);
    }
  }

  predicate Nondecreasing(s: seq<Packet>) {
    forall i, j :: 0 <= i < j < |s| ==> s[i].timestamp <= s[j].timestamp
  }

  /** Placing a packet no earlier than those of its channel puts it after them. */
  lemma {:induction false} PlaceOf(s: seq<Packet>, x: Packet, fid: int, channel: int)
    requires channel != END_FRAME
    requires x.fid == fid && x.channel == channel ==> forall p :: p in Of(s, fid, channel) ==> p.timestamp <= x.timestamp
    ensures Of(Place(s, x), fid, channel) == Of(s, fid, channel) + Of([x], fid, channel)
  {
    if s != [] && Before(x, s[|s| - 1]) {
      var init, last := s[..|s| - 1], s[|s| - 1];
      assert s == init + [last];
      OfAppend(init, [last], fid, channel);
      PlaceOf(init, x, fid, channel);
      OfAppend(Place(init, x), [last], fid, channel);
      NotBoth(s, x, fid, channel);
      SwapEmpty(Of(init, fid, channel), Of([last], fid, channel), Of([x], fid, channel));
    } else {
      OfAppend(s, [x], fid, channel);
    }
  }

  lemma Assoc(a: seq<Packet>, b: seq<Packet>, c: seq<Packet>)
    ensures a + (b + c) == a + b + c
  {}

  lemma FirstIn(s: seq<Packet>)
    ensures s != [] ==> s[0] in s
  {}

  lemma SwapEmpty(a: seq<Packet>, b: seq<Packet>, c: seq<Packet>)
    requires b == [] || c == []
    ensures a + b + c == a + c + b
  {}

  /** A packet is never placed before one of its own channel. */
  lemma NotBoth(s: seq<Packet>, x: Packet, fid: int, channel: int)
    requires channel != END_FRAME && s != [] && Before(x, s[|s| - 1])
    requires x.fid == fid && x.channel == channel ==> forall p :: p in Of(s, fid, channel) ==> p.timestamp <= x.timestamp
    ensures Of([s[|s| - 1]], fid, channel) == [] || Of([x], fid, channel) == []
  {
    assert s[|s| - 1] in s;
    OfMembers(s, fid, channel);
  }

  /** Sorting does not disturb a channel whose packets are in order already. */
  lemma {:induction false} SortedOf(s: seq<Packet>, fid: int, channel: int)
    requires channel != END_FRAME && Nondecreasing(Of(s, fid, channel))
    ensures Of(Sorted(s), fid, channel) == Of(s, fid, channel)
  {
    if s != [] {
      var init, last := s[..|s| - 1], s[|s| - 1];
      assert s == init + [last];
      OfAppend(init, [last], fid, channel);
      var a, b := Of(init, fid, channel), Of([last], fid, channel);
      assert forall i :: 0 <= i < |a| ==> (a + b)[i] == a[i];
      SortedOf(init, fid, channel);
      if last.fid == fid && last.channel == channel {
        assert b == [last] && (a + b)[|a|] == last;
      }
      PlaceOf(Sorted(init), last, fid, channel);
    }
  }

  /** Without the sync option, what a pass releases of a channel whose packets
      arrived in timestamp order is a prefix of what was waiting. */
  lemma {:induction false} SelectOf(s: seq<Packet>, q: Queue, pass: Pass, fid: int, channel: int)
    requires !pass.sync && channel != END_FRAME && Nondecreasing(Of(s, fid, channel))
    ensures Of(s, fid, channel)
         == Of(Select(s, q, pass, true), fid, channel) + Of(Select(s, q, pass, false), fid, channel)
  {
    if s != [] {
      var init, last := s[..|s| - 1], s[|s| - 1];
      assert s == init + [last];
      OfAppend(init, [last], fid, channel);
      var a, b := Of(init, fid, channel), Of([last], fid, channel);
      assert forall i :: 0 <= i < |a| ==> (a + b)[i] == a[i];
      SelectOf(init, q, pass, fid, channel);
      if Ready(q, pass, last) {
        if b != [] {
          AllReady(init, last, q, pass, fid, channel);
        }
        ReleaseLast(init, last, q, pass, fid, channel);
      } else {
        RetainLast(init, last, q, pass, fid, channel);
      }
    }
  }

  lemma ReleaseLast(init: seq<Packet>, last: Packet, q: Queue, pass: Pass, fid: int, channel: int)
    requires Ready(q, pass, last)
    requires Of([last], fid, channel) == [] || Of(Select(init, q, pass, false), fid, channel) == []
    ensures Of(Select(init + [last], q, pass, true), fid, channel) + Of(Select(init + [last], q, pass, false), fid, channel)
         == Of(Select(init, q, pass, true), fid, channel) + Of(Select(init, q, pass, false), fid, channel)
            + Of([last], fid, channel)
  {
    assert (init + [last])[..|init|] == init;
    var r, k := Select(init, q, pass, true), Select(init, q, pass, false);
    OfAppend(r, [last], fid, channel);
    SwapEmpty(Of(r, fid, channel), Of([last], fid, channel), Of(k, fid, channel));
    assert Select(init + [last], q, pass, false) == k + [];
    assert k + [] == k;
  }

  lemma RetainLast(init: seq<Packet>, last: Packet, q: Queue, pass: Pass, fid: int, channel: int)
    requires !Ready(q, pass, last)
    ensures Of(Select(init + [last], q, pass, true), fid, channel) + Of(Select(init + [last], q, pass, false), fid, channel)
         == Of(Select(init, q, pass, true), fid, channel) + Of(Select(init, q, pass, false), fid, channel)
            + Of([last], fid, channel)
  {
    assert (init + [last])[..|init|] == init;
    var r, k := Select(init, q, pass, true), Select(init, q, pass, false);
    OfAppend(k, [last], fid, channel);
    Assoc(Of(r, fid, channel), Of(k, fid, channel), Of([last], fid, channel));
    assert Select(init + [last], q, pass, true) == r + [];
    assert r + [] == r;
  }

  lemma AllReady(init: seq<Packet>, last: Packet, q: Queue, pass: Pass, fid: int, channel: int)
    requires !pass.sync && channel != END_FRAME && Ready(q, pass, last)
    requires Of([last], fid, channel) != [] && Nondecreasing(Of(init, fid, channel) + Of([last], fid, channel))
    ensures Of(Select(init, q, pass, false), fid, channel) == []
  {
    var a, b := Of(init, fid, channel), Of([last], fid, channel);
    OfMembers(init, fid, channel);
    OfMembers(Select(init, q, pass, false), fid, channel);
    assert b == [last];
    forall p | p in a ensures Ready(q, pass, p) {
      var i :| 0 <= i < |a| && a[i] == p;
      assert (a + b)[i] == p && (a + b)[|a|] == b[0];
    }
    var late := Of(Select(init, q, pass, false), fid, channel);
    FirstIn(late);
  }
}
