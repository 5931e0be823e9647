/** The estimate of the offset between the local clock and a peer's: a ring of
    the latest samples and a mean over the middle half of them. */
module ClockInfo {
  datatype Sample = Sample(offset: int, rtt: int)

  datatype Estimate = Estimate(offset: int, rtt: int, fastest: int, slowest: int)

  /** Integer division of the source: towards zero. */
  function Quotient(a: int, b: int): int
    requires b > 0
  {
    if a >= 0 then a / b else -(-a / b)
  }

  // ----------------------------------------------------------------- samples

  /** What is recorded for a request sent at `start` and answered at `end`, both
      local, which the peer answered when its own clock showed `remote`. */
  function Measured(start: int, remote: int, end: int): Sample {
    Sample(remote - start - Quotient(end - start, 2), end - start)
  }

  /** A sample taken while the peer's clock was `d` ahead is off by at most half
      its round trip, rounded up. */
  predicate Genuine(s: Sample, d: int) {
    s.rtt >= 0 && -s.rtt - 1 <= 2 * (s.offset - d) <= s.rtt + 1
  }

  predicate AllGenuine(ss: seq<Sample>, d: int) {
    forall i :: 0 <= i < |ss| ==> Genuine(ss[i], d)
  }

  /** The peer answered between the two local readings, at local time
      `remote - d`. */
  lemma MeasuredGenuine(start: int, remote: int, end: int, d: int)
    requires start <= remote - d <= end
    ensures Genuine(Measured(start, remote, end), d)
  {}

  // -------------------------------------------------------------------- ring

  /** The ring and the position to be overwritten next. */
  datatype Ring = Ring(history: seq<Sample>, next: nat)

  predicate Proper(r: Ring) {
    r.next < |r.history|
  }

  function Updated(r: Ring, s: Sample): (r1: Ring)
    requires Proper(r)
    ensures Proper(r1) && |r1.history| == |r.history|
  {
    Ring(r.history[r.next := s], if r.next + 1 >= |r.history| then 0 else r.next + 1)
  }

  /** The samples in the ring from the oldest to the latest. */
  function Queue(r: Ring): seq<Sample>
    requires Proper(r)
  {
    r.history[r.next..] + r.history[..r.next]
  }

  function UpdatedAll(r: Ring, ss: seq<Sample>): (r1: Ring)
    requires Proper(r)
    ensures Proper(r1) && |r1.history| == |r.history|
  {
    if ss == [] then r else Updated(UpdatedAll(r, ss[..|ss| - 1]), ss[|ss| - 1])
  }

  /** An update drops the oldest sample and appends the new one. */
  lemma {:induction false} UpdatedQueue(r: Ring, s: Sample)
    requires Proper(r)
    ensures Queue(Updated(r, s)) == Queue(r)[1..] + [s]
  {
    var h := r.history[r.next := s];
    assert h[..r.next] == r.history[..r.next];
    assert h[r.next + 1..] == r.history[r.next + 1..];
  }

  /** The ring always holds the latest of all samples. */
  lemma {:induction false} LatestSamples(r: Ring, ss: seq<Sample>)
    requires Proper(r)
    ensures Queue(UpdatedAll(r, ss)) == (Queue(r) + ss)[|ss|..]
  {
    if ss != [] {
      LatestSamples(r, ss[..|ss| - 1]);
      UpdatedQueue(UpdatedAll(r, ss[..|ss| - 1]), ss[|ss| - 1]);
      assert ss == ss[..|ss| - 1] + [ss[|ss| - 1]];
    }
  }

  /** As many samples as the ring has places replace all it held. */
  lemma Refilled(r: Ring, ss: seq<Sample>)
    requires Proper(r) && |ss| == |r.history|
    ensures Queue(UpdatedAll(r, ss)) == ss
  {
    LatestSamples(r, ss);
  }

  lemma QueueContents(r: Ring)
    requires Proper(r)
    ensures multiset(Queue(r)) == multiset(r.history)
  {
    assert r.history == r.history[..r.next] + r.history[r.next..];
  }

  // ---------------------------------------------------------------- estimate

  predicate ByRtt(ss: seq<Sample>) {
    forall i, j :: 0 <= i < j < |ss| ==> ss[i].rtt <= ss[j].rtt
  }

  function Offsets(ss: seq<Sample>): int {
    if ss == [] then 0 else Offsets(ss[..|ss| - 1]) + ss[|ss| - 1].offset
  }

  function Rtts(ss: seq<Sample>): int {
    if ss == [] then 0 else Rtts(ss[..|ss| - 1]) + ss[|ss| - 1].rtt
  }

  /** Without the first and the last quarter. */
  function Middle(sorted: seq<Sample>): (m: seq<Sample>)
    ensures |m| == |sorted| - |sorted| / 4 * 2
  {
    sorted[|sorted| / 4..|sorted| - |sorted| / 4]
  }

  function EstimateOf(sorted: seq<Sample>): Estimate
    requires sorted != []
  {
    var m := Middle(sorted);
    Estimate(Quotient(Offsets(m), |m|), Quotient(Rtts(m), |m|), sorted[0].rtt, sorted[|sorted| - 1].rtt)
  }

  /** Samples of equal round trip may come in any order: each of these results
      is one the source may compute. */
  ghost predicate Possible(e: Estimate, history: multiset<Sample>) {
    exists sorted: seq<Sample> ::
      sorted != [] && ByRtt(sorted) && multiset(sorted) == history && e == EstimateOf(sorted)
  }

  lemma {:induction false} OffsetsBound(ss: seq<Sample>, d: int)
    requires AllGenuine(ss, d)
    ensures -Rtts(ss) - |ss| <= 2 * (Offsets(ss) - |ss| * d) <= Rtts(ss) + |ss| && Rtts(ss) >= 0
  {
    if ss != [] {
      var front, last := ss[..|ss| - 1], ss[|ss| - 1];
      OffsetsBound(front, d);
      assert Genuine(last, d);
      assert |ss| * d == |front| * d + d;
    }
  }

  lemma {:induction false} RttsBound(ss: seq<Sample>, low: int, high: int)
    requires forall i :: 0 <= i < |ss| ==> low <= ss[i].rtt <= high
    ensures |ss| * low <= Rtts(ss) <= |ss| * high
  {
    if ss != [] {
      RttsBound(ss[..|ss| - 1], low, high);
      assert |ss| * low == (|ss| - 1) * low + low;
      assert |ss| * high == (|ss| - 1) * high + high;
    }
  }

  lemma QuotientRemainder(a: int, b: int) returns (r: int)
    requires b > 0
    ensures a == Quotient(a, b) * b + r && -b < r < b && (a >= 0 ==> r >= 0)
  {
    if a >= 0 {
      r := a % b;
    } else {
      r := -(-a % b);
      assert -a == (-a / b) * b + -a % b;
      assert Quotient(a, b) * b == -((-a / b) * b);
    }
  }

  /** A product with a positive number keeps the order. */
  lemma Cancel(x: int, y: int, n: int)
    requires n > 0 && x * n < y * n
    ensures x < y
  {
    assert (y - x) * n > 0;
  }

  lemma MeanBound(offsets: int, rtts: int, n: int, d: int)
    requires n > 0 && rtts >= 0 && -rtts - n <= 2 * (offsets - n * d) <= rtts + n
    ensures var (offset, rtt) := (Quotient(offsets, n), Quotient(rtts, n));
            -rtt - 4 < 2 * (offset - d) < rtt + 4
  {
    var offset, rtt := Quotient(offsets, n), Quotient(rtts, n);
    var r := QuotientRemainder(offsets, n);
    var q := QuotientRemainder(rtts, n);
    var err := offset - d;
    assert err * n == offset * n - n * d;
    assert (2 * err) * n == 2 * (err * n);
    assert (rtt + 4) * n == rtt * n + 4 * n;
    Cancel(2 * err, rtt + 4, n);
    assert (-2 * err) * n == -2 * (err * n);
    Cancel(-2 * err, rtt + 4, n);
  }

  lemma MeanBetween(rtts: int, n: int, low: int, high: int)
    requires n > 0 && 0 <= low && n * low <= rtts <= n * high
    ensures low <= Quotient(rtts, n) <= high
  {
    assert n * low >= 0;
    var rtt := Quotient(rtts, n);
    var r := QuotientRemainder(rtts, n);
    assert (rtt + 1) * n == rtt * n + n;
    assert low * n == n * low;
    Cancel(low, rtt + 1, n);
    assert (high + 1) * n == n * high + n;
    Cancel(rtt, high + 1, n);
  }

  /** Twice the error of the offset is less than the round trip plus four. */
  predicate Near(e: Estimate, d: int) {
    -e.rtt - 4 < 2 * (e.offset - d) < e.rtt + 4
  }

  /** The error bound, for a sorted history of genuine samples. */
  lemma EstimateBound(sorted: seq<Sample>, d: int)
    requires sorted != [] && ByRtt(sorted) && AllGenuine(sorted, d)
    ensures var e := EstimateOf(sorted);
            Near(e, d) && e.fastest <= e.rtt <= e.slowest
  {
    var m := Middle(sorted);
    var low, high := sorted[0].rtt, sorted[|sorted| - 1].rtt;
    forall i | 0 <= i < |m| ensures Genuine(m[i], d) && low <= m[i].rtt <= high {
      assert m[i] == sorted[|sorted| / 4 + i];
      assert Genuine(sorted[|sorted| / 4 + i], d);
    }
    OffsetsBound(m, d);
    MeanBound(Offsets(m), Rtts(m), |m|, d);
    RttsBound(m, low, high);
    assert Genuine(sorted[0], d);
    MeanBetween(Rtts(m), |m|, low, high);
  }

  /** The fastest and the slowest quarter of the samples make no difference to the offset
      and the round trip. */
  lemma OutliersIgnored(a: seq<Sample>, b: seq<Sample>)
    requires a != [] && |a| == |b| && forall i :: |a| / 4 <= i < |a| - |a| / 4 ==> a[i] == b[i]
    ensures EstimateOf(a).offset == EstimateOf(b).offset && EstimateOf(a).rtt == EstimateOf(b).rtt
  {
    assert Middle(a) == Middle(b);
  }

  /** Equal samples are estimated as they are. */
  lemma {:induction false} Constant(ss: seq<Sample>, s: Sample)
    requires ss != [] && s.rtt >= 0 && forall i :: 0 <= i < |ss| ==> ss[i] == s
    ensures EstimateOf(ss) == Estimate(s.offset, s.rtt, s.rtt, s.rtt)
  {
    var m := Middle(ss);
    Sums(m, s);
    Whole(s.offset, |m|);
    Whole(s.rtt, |m|);
  }

  lemma {:induction false} Sums(ss: seq<Sample>, s: Sample)
    requires forall i :: 0 <= i < |ss| ==> ss[i] == s
    ensures Offsets(ss) == |ss| * s.offset && Rtts(ss) == |ss| * s.rtt
  {
    if ss != [] {
      Sums(ss[..|ss| - 1], s);
      assert |ss| * s.offset == (|ss| - 1) * s.offset + s.offset;
      assert |ss| * s.rtt == (|ss| - 1) * s.rtt + s.rtt;
    }
  }

  lemma Whole(a: int, n: nat)
    requires n > 0
    ensures Quotient(n * a, n) == a
  {
    var r := QuotientRemainder(n * a, n);
    var q := Quotient(n * a, n);
    assert n * a == a * n;
    assert (q + 1) * n == q * n + n && (a + 1) * n == a * n + n;
    Cancel(a, q + 1, n);
    Cancel(q, a + 1, n);
  }

  /** Once the ring is filled with samples taken at a constant true offset `d`,
      from any state and however the sort arranges equal round trips, the
      estimate is near `d`. */
  lemma {:induction false} OffsetError(r: Ring, ss: seq<Sample>, d: int, e: Estimate)
    requires Proper(r) && |ss| >= |r.history| && AllGenuine(ss[|ss| - |r.history|..], d)
    requires Possible(e, multiset(UpdatedAll(r, ss).history))
    ensures Near(e, d) && e.fastest <= e.rtt <= e.slowest
  {
    var t := UpdatedAll(r, ss);
    LatestSamples(r, ss);
    QueueContents(t);
    assert Queue(t) == ss[|ss| - |r.history|..];
    var sorted :| sorted != [] && ByRtt(sorted) && multiset(sorted) == multiset(t.history) && e == EstimateOf(sorted);
    forall i | 0 <= i < |sorted| ensures Genuine(sorted[i], d) {
      assert sorted[i] in multiset(sorted);
      assert sorted[i] in Queue(t);
    }
    EstimateBound(sorted, d);
  }

  function Without(ss: seq<Sample>, j: nat): (r: seq<Sample>)
    requires j < |ss|
    ensures |r| == |ss| - 1
    ensures forall i :: 0 <= i < |r| ==> r[i] == ss[if i < j then i else i + 1]
  {
    ss[..j] + ss[j + 1..]
  }

  lemma WithoutContents(ss: seq<Sample>, j: nat)
    requires j < |ss|
    ensures multiset(Without(ss, j)) == multiset(ss) - multiset{ss[j]}
  {
    assert ss == ss[..j] + [ss[j]] + ss[j + 1..];
  }

  lemma WithoutByRtt(ss: seq<Sample>, j: nat)
    requires j < |ss| && ByRtt(ss)
    ensures ByRtt(Without(ss, j))
  {}

  lemma SameSize(a: seq<Sample>, b: seq<Sample>)
    requires multiset(a) == multiset(b)
    ensures |a| == |b|
  {
    assert |multiset(a)| == |multiset(b)|;
  }

  lemma LastRtts(a: seq<Sample>, b: seq<Sample>, j: nat)
    requires ByRtt(a) && ByRtt(b) && multiset(a) == multiset(b) && |a| == |b| && j < |b| && b[j] == a[|a| - 1]
    ensures forall i :: j <= i < |b| ==> b[i].rtt == b[j].rtt
  {
    forall i | j <= i < |b| ensures b[i].rtt == b[j].rtt {
      assert b[i] in multiset(a);
    }
  }

  predicate Alike(a: seq<Sample>, b: seq<Sample>) {
    |a| == |b| && forall i :: 0 <= i < |a| ==> a[i].rtt == b[i].rtt
  }

  lemma AlikeWithout(a: seq<Sample>, b: seq<Sample>, j: nat)
    requires |a| == |b| && j < |b| && b[j] == a[|a| - 1] && forall i :: j <= i < |b| ==> b[i].rtt == b[j].rtt
    requires Alike(Without(a, |a| - 1), Without(b, j))
    ensures Alike(a, b)
  {
    forall i | 0 <= i < |a| - 1 ensures a[i].rtt == b[i].rtt {
      assert Without(a, |a| - 1)[i].rtt == Without(b, j)[i].rtt;
    }
  }

  /** Two orders by round trip have the same round trips at each position. */
  lemma {:induction false} SameRtts(a: seq<Sample>, b: seq<Sample>)
    requires ByRtt(a) && ByRtt(b) && multiset(a) == multiset(b)
    ensures Alike(a, b)
    decreases |a|
  {
    SameSize(a, b);
    if a != [] {
      var j := Where(b, a[|a| - 1]);
      LastRtts(a, b, j);
      WithoutContents(a, |a| - 1);
      WithoutContents(b, j);
      WithoutByRtt(a, |a| - 1);
      WithoutByRtt(b, j);
      SameRtts(Without(a, |a| - 1), Without(b, j));
      AlikeWithout(a, b, j);
    }
  }

  lemma Where(ss: seq<Sample>, s: Sample) returns (j: nat)
    requires s in multiset(ss)
    ensures j < |ss| && ss[j] == s
  {
    j :| 0 <= j < |ss| && ss[j] == s;
  }

  lemma SameSums(a: seq<Sample>, b: seq<Sample>)
    requires Alike(a, b)
    ensures Rtts(a) == Rtts(b)
  {
    if a != [] {
      SameSums(a[..|a| - 1], b[..|b| - 1]);
    }
  }

  /** How the sort arranges samples that compare equal does not show in the round
      trips of the estimate. */
  lemma {:induction false} RoundTripsDetermined(e: Estimate, f: Estimate, history: multiset<Sample>)
    requires Possible(e, history) && Possible(f, history)
    ensures e.rtt == f.rtt && e.fastest == f.fastest && e.slowest == f.slowest
  {
    var a: seq<Sample> :| a != [] && ByRtt(a) && multiset(a) == history && e == EstimateOf(a);
    var b: seq<Sample> :| b != [] && ByRtt(b) && multiset(b) == history && f == EstimateOf(b);
    SameRtts(a, b);
    SameSums(Middle(a), Middle(b));
  }

  // ---------------------------------------------------------------- attempts

  /** What becomes of a request for the peer's time. */
  datatype Attempt = Fails | Answers(start: int, remote: int, end: int)

  function Taken(a: Attempt): seq<Sample> {
    match a
    case Fails => []
    case Answers(start, remote, end) => [Measured(start, remote, end)]
  }

  /** The samples of those of the first `k` attempts that succeed. */
  function Samples(attempts: seq<Attempt>, k: nat): seq<Sample>
    requires k <= |attempts|
  {
    if k == 0 then [] else Samples(attempts, k - 1) + Taken(attempts[k - 1])
  }

  function Successes(attempts: seq<Attempt>, k: nat): nat
    requires k <= |attempts|
  {
    |Samples(attempts, k)|
  }

  lemma UpdatedNext(r: Ring, ss: seq<Sample>, s: Sample)
    requires Proper(r)
    ensures UpdatedAll(r, ss + [s]) == Updated(UpdatedAll(r, ss), s)
  {
    assert (ss + [s])[..|ss|] == ss;
  }

  lemma {:induction false} SamplesMonotone(attempts: seq<Attempt>, i: nat, j: nat)
    requires i <= j <= |attempts|
    ensures Successes(attempts, i) <= Successes(attempts, j) <= Successes(attempts, i) + j - i
    decreases j
  {
    if i < j {
      SamplesMonotone(attempts, i, j - 1);
    }
  }

  /** What the counters of the retry loop say about the attempts made. */
  ghost predicate Counters(attempts: seq<Attempt>, used: nat, fails: int, i: int, size: nat) {
    && 0 < size && used <= |attempts| == 2 * size && 0 <= fails && i <= size
    && i == used - (if fails < size then fails else size)
    && Successes(attempts, used) == used - fails
    && (fails >= size ==> Successes(attempts, |attempts| - 1) < size)
  }

  /** The ring and the estimate after the first `k` attempts. */
  ghost predicate Followed(now: Ring, e: Estimate, r: Ring, attempts: seq<Attempt>, k: nat)
    requires Proper(r) && k <= |attempts|
  {
    var ss := Samples(attempts, k);
    now == UpdatedAll(r, ss) && (ss != [] ==> Possible(e, multiset(now.history)))
  }

  lemma CountersStart(attempts: seq<Attempt>, size: nat)
    requires size > 0 && |attempts| == 2 * size
    ensures Counters(attempts, 0, 0, 0, size)
  {}

  lemma CountersNext(attempts: seq<Attempt>, used: nat, fails: int, i: int, size: nat)
    requires Counters(attempts, used, fails, i, size) && i < size
    ensures used < |attempts|
    ensures if attempts[used].Answers? then Counters(attempts, used + 1, fails, i + 1, size)
            else Counters(attempts, used + 1, fails + 1, if fails < size then i else i + 1, size)
  {
    if fails == size - 1 {
      SamplesMonotone(attempts, used + 1, |attempts| - 1);
    }
  }

  lemma CountersEnd(attempts: seq<Attempt>, used: nat, fails: int, i: int, size: nat)
    requires Counters(attempts, used, fails, i, size) && i == size > 0
    ensures fails < size <==> Successes(attempts, |attempts| - 1) >= size
    ensures if fails < size then Successes(attempts, used) == size else used == |attempts|
  {
    if fails < size {
      SamplesMonotone(attempts, used, |attempts| - 1);
    }
  }

  // ---------------------------------------------------------------- in place

  /** What the library's sort promises: an ordered rearrangement, with samples of
      equal round trip in no particular order. */
  method SortByRtt(ss: seq<Sample>) returns (sorted: seq<Sample>)
    ensures ByRtt(sorted) && multiset(sorted) == multiset(ss)
  {
    sorted := [];
    for k := 0 to |ss|
      invariant ByRtt(sorted) && multiset(sorted) == multiset(ss[..k])
    {
      assert ss[..k + 1] == ss[..k] + [ss[k]];
      sorted := InsertByRtt(sorted, ss[k]);
    }
    assert ss[..|ss|] == ss;
  }

  function Inserted(sorted: seq<Sample>, s: Sample, i: nat): (r: seq<Sample>)
    requires i <= |sorted|
    ensures |r| == |sorted| + 1
    ensures forall j :: 0 <= j < |r| ==> r[j] == if j == i then s else sorted[if j < i then j else j - 1]
  {
    sorted[..i] + [s] + sorted[i..]
  }

  lemma InsertedContents(sorted: seq<Sample>, s: Sample, i: nat)
    requires i <= |sorted|
    ensures multiset(Inserted(sorted, s, i)) == multiset(sorted) + multiset{s}
  {
    assert sorted == sorted[..i] + sorted[i..];
  }

  method InsertByRtt(sorted: seq<Sample>, s: Sample) returns (r: seq<Sample>)
    requires ByRtt(sorted)
    ensures ByRtt(r) && multiset(r) == multiset(sorted) + multiset{s}
  {
    var i := |sorted|;
    while i > 0 && sorted[i - 1].rtt > s.rtt
      invariant 0 <= i <= |sorted| && (i < |sorted| ==> sorted[i].rtt > s.rtt)
    {
      i := i - 1;
    }
    r := Inserted(sorted, s, i);
    InsertedContents(sorted, s, i);
  }

  class ClockInfo {
    const history: array<Sample>
    var n: nat
    var estimate: Estimate

    predicate Valid()
      reads this
    {
      n < history.Length
    }

    function Value(): (r: Ring)
      reads this, history
      requires Valid()
      ensures Proper(r)
    {
      Ring(history[..], n)
    }

    constructor (samples: nat)
      requires samples > 0
      ensures Valid() && fresh(history) && history.Length == samples && n == 0
    {
      history := new Sample[samples](_ => Sample(0, 0));
      n := 0;
      estimate := Estimate(0, 0, 0, 0);
    }

    method UpdateEstimate()
      requires Valid()
      modifies this`estimate
      ensures Valid() && Possible(estimate, multiset(history[..]))
    {
      var sorted := SortByRtt(history[..]);
      assert |multiset(sorted)| == |multiset(history[..])|;
      var begin := |sorted| / 4;
      var count := |sorted| - begin * 2;
      ghost var m := Middle(sorted);
      var offset, rtt := 0, 0;
      for i := 0 to count
        invariant offset == Offsets(m[..i]) && rtt == Rtts(m[..i])
      {
        assert m[..i + 1][..i] == m[..i] && m[i] == sorted[begin + i];
        offset := offset + sorted[begin + i].offset;
        rtt := rtt + sorted[begin + i].rtt;
      }
      assert m[..count] == m;
      estimate := Estimate(Quotient(offset, count), Quotient(rtt, count), sorted[0].rtt, sorted[|sorted| - 1].rtt);
      assert estimate == EstimateOf(sorted);
    }

    method Update(s: Sample)
      requires Valid()
      modifies this, history
      ensures Valid() && Value() == Updated(old(Value()), s)
      ensures Possible(estimate, multiset(history[..]))
    {
      var pos := n;
      n := n + 1;
      n := if n >= history.Length then 0 else n;
      history[pos] := s;
      UpdateEstimate();
    }

    /** The peer's answer to our request. */
    method UpdateInfo(start: int, remote: int, end: int)
      requires Valid()
      modifies this, history
      ensures Valid() && Value() == Updated(old(Value()), Measured(start, remote, end))
      ensures Possible(estimate, multiset(history[..]))
    {
      var rtt := end - start;
      Update(Sample(remote - start - Quotient(rtt, 2), rtt));
    }

    /** The peer's message after its own request: we answered it at `answered`
        and the peer had the answer at `reply`, by its clock. */
    method UpdateTimeSync(answered: int, reply: int, now: int)
      requires Valid()
      modifies this, history
      ensures Valid() && Value() == Updated(old(Value()), Measured(answered, reply, now))
      ensures Possible(estimate, multiset(history[..]))
    {
      var rtt := now - answered;
      Update(Sample(reply - answered - Quotient(rtt, 2), rtt));
    }

    /** The first `k` attempts were made, from the ring `r`. */
    ghost predicate After(r: Ring, attempts: seq<Attempt>, k: nat)
      reads this, history
      requires Proper(r) && k <= |attempts|
    {
      Valid() && Followed(Value(), estimate, r, attempts, k)
    }

    method Try(attempts: seq<Attempt>, k: nat, ghost r: Ring) returns (ok: bool)
      requires k < |attempts| && Proper(r) && After(r, attempts, k)
      modifies this, history
      ensures ok == attempts[k].Answers? && After(r, attempts, k + 1)
    {
      ok := attempts[k].Answers?;
      if ok {
        var a := attempts[k];
        UpdateInfo(a.start, a.remote, a.end);
        UpdatedNext(r, Samples(attempts, k), Measured(a.start, a.remote, a.end));
      } else {
        assert Samples(attempts, k + 1) == Samples(attempts, k);
      }
    }

    /** One turn of the loop: a failure is not counted as a turn, up to a limit. */
    method TryNext(attempts: seq<Attempt>, used: nat, fails: nat, i: int, size: nat, ghost r: Ring)
      returns (i1: int, fails1: nat)
      requires Proper(r) && Counters(attempts, used, fails, i, size) && i < size && After(r, attempts, used)
      modifies this, history
      ensures used < |attempts| && Counters(attempts, used + 1, fails1, i1, size) && After(r, attempts, used + 1)
    {
      CountersNext(attempts, used, fails, i, size);
      i1, fails1 := i, fails;
      var answered := Try(attempts, used, r);
      if !answered {
        if fails1 < size { i1 := i1 - 1; }
        fails1 := fails1 + 1;
      }
      i1 := i1 + 1;
    }

    method TryAll(attempts: seq<Attempt>) returns (fails: nat, used: nat)
      requires Valid() && |attempts| == 2 * history.Length
      modifies this, history
      ensures Counters(attempts, used, fails, history.Length, history.Length)
      ensures After(old(Value()), attempts, used)
    {
      CountersStart(attempts, history.Length);
      var i;
      i, fails, used := TryLoop(attempts, history.Length, Value());
    }

    method TryLoop(attempts: seq<Attempt>, size: nat, ghost r: Ring) returns (i: int, fails: nat, used: nat)
      requires Proper(r) && Counters(attempts, 0, 0, 0, size) && After(r, attempts, 0)
      modifies this, history
      ensures i == size && Counters(attempts, used, fails, i, size) && After(r, attempts, used)
    {
      i, fails, used := 0, 0, 0;
      ghost var now, e := Value(), estimate;
      while i < size
        invariant Counters(attempts, used, fails, i, size)
        invariant Valid() && now == Value() && e == estimate && Followed(now, e, r, attempts, used)
        decreases |attempts| - used
      {
        i, fails := TryNext(attempts, used, fails, i, size, r);
        used := used + 1;
        now, e := Value(), estimate;
      }
    }

    /** Fills the ring. No more than two attempts a sample are made. The result is
        true exactly when the first `2 * history.Length - 1` attempts include
        enough that succeed, and then the ring holds the samples of just the
        attempts made. */
    method Init(attempts: seq<Attempt>) returns (ok: bool, used: nat)
      requires Valid() && |attempts| == 2 * history.Length
      modifies this, history
      ensures used <= |attempts| && After(old(Value()), attempts, used)
      ensures ok <==> Successes(attempts, |attempts| - 1) >= history.Length
      ensures ok ==> Successes(attempts, used) == history.Length && Queue(Value()) == Samples(attempts, used)
      ensures !ok ==> used == |attempts|
      ensures forall d :: ok && AllGenuine(Samples(attempts, used), d) ==> Near(estimate, d)
    {
      ghost var r := Value();
      var fails;
      fails, used := TryAll(attempts);
      ok := fails < history.Length;
      CountersEnd(attempts, used, fails, history.Length, history.Length);
      if ok {
        Refilled(r, Samples(attempts, used));
        forall d | AllGenuine(Samples(attempts, used), d) ensures Near(estimate, d) {
          assert Samples(attempts, used)[0..] == Samples(attempts, used);
          OffsetError(r, Samples(attempts, used), d, estimate);
        }
      }
    }
  }

  /** `init` may report failure although every sample was taken: as many
      failures as samples first, and answers to all the rest. */
  lemma FailureWithAllSamples(size: nat, attempts: seq<Attempt>)
    requires size > 0 && |attempts| == 2 * size
    requires forall i :: 0 <= i < |attempts| ==> (attempts[i].Fails? <==> i < size)
    ensures Successes(attempts, |attempts| - 1) < size && Successes(attempts, |attempts|) == size
  {
    FirstFail(attempts, size, 2 * size - 1);
    FirstFail(attempts, size, 2 * size);
  }

  lemma {:induction false} FirstFail(attempts: seq<Attempt>, size: nat, k: nat)
    requires k <= |attempts|
    requires forall i :: 0 <= i < |attempts| ==> (attempts[i].Fails? <==> i < size)
    ensures Successes(attempts, k) == if k <= size then 0 else k - size
  {
    if k > 0 {
      FirstFail(attempts, size, k - 1);
    }
  }
}
