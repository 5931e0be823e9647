/** The muxer's frame numbering: ids of its child streams are mapped to local
    ids and back by two maps that have to stay inverse to each other. */
module Muxer {
  /** A frame id: the frameset above the low eight bits, which are the source. */
  type FrameId = x: int | 0 <= x < 0x1_0000_0000

  function Frameset(id: FrameId): nat {
    id / 256
  }

  function Source(id: FrameId): nat {
    id % 256
  }

  /** Sources wrap at 256 and framesets at 2^24, as the packed form has it. */
  function MakeId(frameset: nat, source: nat): FrameId {
    (frameset * 256 + source % 256) % 0x1_0000_0000
  }

  /** A child stream; `fixedSet` is negative when it has no fixed frameset. */
  datatype Entry = Entry(id: nat, stream: int, fixedSet: int)

  /** A stream's id for a frame. */
  datatype Remote = Remote(stream: nat, frame: FrameId)

  /** Keys of the input map and of `fsmap`, packed as in the source. */
  function InKey(r: Remote): nat {
    r.stream * 0x1_0000_0000 + r.frame
  }

  function SetKey(r: Remote): int {
    r.stream * 65536 + Frameset(r.frame)
  }

  /** `ever` remembers for each local id what it was given out for. */
  datatype State = State(entries: seq<Entry>, inMap: map<nat, FrameId>, outMap: map<FrameId, Remote>,
                         fsmap: map<int, nat>, sources: map<int, nat>, nextStream: nat, nextSet: nat,
                         ever: map<FrameId, Remote>)

  const INITIAL := State([], map[], map[], map[], map[], 0, 0, map[])

  function SourceCount(s: State, fs: int): nat {
    CountOf(s.sources, fs)
  }

  // ------------------------------------------------------------- operations

  function Added(s: State, stream: int, fixedSet: int): State {
    s.(entries := s.entries + [Entry(s.nextStream, stream, fixedSet)], nextStream := s.nextStream + 1)
  }

  /** Local id to give out for a frame that has none, before it is recorded. */
  function NewId(s: State, e: Entry, frame: FrameId): FrameId {
    if e.fixedSet >= 0 then MakeId(e.fixedSet, SourceCount(s, e.fixedSet))
    else
      var key := SetKey(Remote(e.id, frame));
      MakeId(if key in s.fsmap then s.fsmap[key] else s.nextSet, Source(frame))
  }

  /** The counters and the frameset map after giving it out. */
  function Counted(s: State, e: Entry, frame: FrameId): State {
    if e.fixedSet >= 0 then s.(sources := s.sources[e.fixedSet := SourceCount(s, e.fixedSet) + 1])
    else
      var key := SetKey(Remote(e.id, frame));
      if key in s.fsmap then s else s.(fsmap := s.fsmap[key := s.nextSet], nextSet := s.nextSet + 1)
  }

  function Recorded(s: State, r: Remote, id: FrameId): State {
    s.(inMap := s.inMap[InKey(r) := id], outMap := s.outMap[id := r], ever := s.ever[id := r])
  }

  function FromInput(s: State, e: Entry, frame: FrameId): (r: (State, FrameId)) {
    var remote := Remote(e.id, frame);
    if InKey(remote) in s.inMap then (s, s.inMap[InKey(remote)])
    else
      var id := NewId(s, e, frame);
      (Recorded(Counted(s, e, frame), remote, id), id)
  }

  datatype Output = NoMapping | Mapped(remote: Remote)

  function ToOutput(s: State, id: FrameId): Output {
    if id in s.outMap then Mapped(s.outMap[id]) else NoMapping
  }

  /** Position of the first entry for a stream, or the number of entries. */
  function Find(entries: seq<Entry>, stream: int): (i: nat)
    ensures i <= |entries| && (i < |entries| ==> entries[i].stream == stream)
    ensures forall j :: 0 <= j < i ==> entries[j].stream != stream
  {
    if entries == [] then 0 else if entries[0].stream == stream then 0 else 1 + Find(entries[1..], stream)
  }

  function Removed(s: State, stream: int): State {
    var i := Find(s.entries, stream);
    if i == |s.entries| then s
    else
      var id := s.entries[i].id;
      s.(entries := s.entries[..i] + s.entries[i + 1..],
         inMap := map k | k in s.inMap && k / 0x1_0000_0000 != id :: s.inMap[k],
         outMap := map l | l in s.outMap && s.outMap[l].stream != id :: s.outMap[l])
  }

  // -------------------------------------------------------------- invariant

  predicate Live(entries: seq<Entry>, stream: nat) {
    exists i :: 0 <= i < |entries| && entries[i].id == stream
  }

  predicate Entries(entries: seq<Entry>, nextStream: nat) {
    && (forall i, j :: 0 <= i < j < |entries| ==> entries[i].id != entries[j].id)
    && (forall i :: 0 <= i < |entries| ==> entries[i].id < nextStream)
  }

  /** The two maps are inverse to each other, on live streams. */
  predicate Inverse(entries: seq<Entry>, inMap: map<nat, FrameId>, outMap: map<FrameId, Remote>) {
    && (forall k :: k in inMap ==>
          inMap[k] in outMap && InKey(outMap[inMap[k]]) == k && Live(entries, outMap[inMap[k]].stream))
    && (forall l :: l in outMap ==> InKey(outMap[l]) in inMap && inMap[InKey(outMap[l])] == l)
  }

  /** What was ever given out is still mapped while its stream is there. */
  predicate History(entries: seq<Entry>, outMap: map<FrameId, Remote>, ever: map<FrameId, Remote>, nextStream: nat) {
    && (forall l :: l in outMap ==> l in ever && ever[l] == outMap[l])
    && (forall l :: l in ever && Live(entries, ever[l].stream) ==> l in outMap)
    && (forall l :: l in ever ==> ever[l].stream < nextStream)
  }

  // Where local ids come from: fixed framesets hand out sources in turn, the
  // others belong to one frameset of one stream each.

  predicate SetsDistinct(fsmap: map<int, nat>, nextSet: nat) {
    && (forall k :: k in fsmap ==> fsmap[k] < nextSet && fsmap[k] < 0x100_0000)
    && (forall k, k' :: k in fsmap && k' in fsmap && fsmap[k] == fsmap[k'] ==> k == k')
  }

  function CountOf(sources: map<int, nat>, fs: int): nat {
    if fs in sources then sources[fs] else 0
  }

  /** The source is among those a fixed frameset of that number has given out. */
  predicate FixedId(sources: map<int, nat>, l: FrameId) {
    Source(l) < CountOf(sources, Frameset(l))
  }

  /** The frameset was allocated for the frame's own. */
  predicate SetId(fsmap: map<int, nat>, l: FrameId, r: Remote) {
    && SetKey(r) in fsmap && fsmap[SetKey(r)] == Frameset(l)
    && Source(r.frame) == Source(l) && Frameset(r.frame) < 65536
  }

  predicate Origins(sources: map<int, nat>, fsmap: map<int, nat>, ever: map<FrameId, Remote>) {
    && (forall l :: l in ever ==> FixedId(sources, l) || SetId(fsmap, l, ever[l]))
    && (forall l: FrameId :: FixedId(sources, l) ==> l in ever)
  }

  ghost predicate Inv(s: State) {
    && Entries(s.entries, s.nextStream)
    && Inverse(s.entries, s.inMap, s.outMap)
    && History(s.entries, s.outMap, s.ever, s.nextStream)
    && SetsDistinct(s.fsmap, s.nextSet)
    && Origins(s.sources, s.fsmap, s.ever)
  }

  /** A frame has a local id, or can be given one of its own. */
  predicate Fits(s: State, e: Entry, frame: FrameId) {
    InKey(Remote(e.id, frame)) in s.inMap || (RoomFor(s, e, frame) && Free(s, e, frame))
  }

  /** What the packed keys and ids can hold. The number of framesets matters only
      when one is allocated. */
  predicate RoomFor(s: State, e: Entry, frame: FrameId) {
    if e.fixedSet >= 0 then e.fixedSet < 0x100_0000
    else Frameset(frame) < 65536 && (SetKey(Remote(e.id, frame)) !in s.fsmap ==> s.nextSet < 0x100_0000)
  }

  /** A fixed frameset has not given out all 256 sources, and the next one is not that
      of a frame mapped to an allocated frameset of the same number. An allocated
      frameset has not the number of a fixed one that gave out the frame's source. */
  predicate Free(s: State, e: Entry, frame: FrameId) {
    if e.fixedSet >= 0 then SourceCount(s, e.fixedSet) < 256 && !Allocated(s, NewId(s, e, frame))
    else Source(frame) >= SourceCount(s, SetFor(s, Remote(e.id, frame)))
  }

  /** The local id stands for a frame of an allocated frameset. */
  predicate Allocated(s: State, id: FrameId) {
    id in s.ever && SetId(s.fsmap, id, s.ever[id])
  }

  lemma MakeIdParts(frameset: nat, source: nat)
    requires frameset < 0x100_0000
    ensures Frameset(MakeId(frameset, source)) == frameset && Source(MakeId(frameset, source)) == source % 256
  {}

  lemma PartsMakeId(id: FrameId)
    ensures MakeId(Frameset(id), Source(id)) == id && Frameset(id) < 0x100_0000 && Source(id) < 256
  {}

  lemma InKeyParts(r: Remote)
    ensures InKey(r) / 0x1_0000_0000 == r.stream && InKey(r) % 0x1_0000_0000 == r.frame
  {}

  lemma InKeyInjective(a: Remote, b: Remote)
    requires InKey(a) == InKey(b)
    ensures a == b
  {
    InKeyParts(a);
    InKeyParts(b);
  }

  lemma SetKeyInjective(a: Remote, b: Remote)
    requires SetKey(a) == SetKey(b) && Frameset(a.frame) < 65536 && Frameset(b.frame) < 65536
    ensures a.stream == b.stream && Frameset(a.frame) == Frameset(b.frame)
  {}

  // ------------------------------------------------------------- allocation

  function SetFor(s: State, r: Remote): nat {
    if SetKey(r) in s.fsmap then s.fsmap[SetKey(r)] else s.nextSet
  }

  /** In an allocated frameset a local id belongs to one remote frame only. */
  lemma {:induction false} OneRemote(s: State, id: FrameId, r: Remote)
    requires SetsDistinct(s.fsmap, s.nextSet) && Allocated(s, id) && Frameset(r.frame) < 65536
    requires Frameset(id) == SetFor(s, r) && Source(id) == Source(r.frame)
    ensures s.ever[id] == r
  {
    var was := s.ever[id];
    SetKeyInjective(was, r);
    PartsMakeId(was.frame);
    PartsMakeId(r.frame);
  }

  /** In an allocated frameset an id for a new frame is new exactly if no fixed frameset
      of that number has given it out. */
  lemma {:induction false} SetFreshIff(s: State, e: Entry, frame: FrameId)
    requires Inv(s) && e in s.entries && e.fixedSet < 0 && RoomFor(s, e, frame)
    requires InKey(Remote(e.id, frame)) !in s.inMap
    ensures NewId(s, e, frame) !in s.ever <==> Free(s, e, frame)
  {
    var r, id := Remote(e.id, frame), NewId(s, e, frame);
    PartsMakeId(frame);
    MakeIdParts(SetFor(s, r), Source(frame));
    EntryLive(s.entries, e);
    if id in s.ever && SetId(s.fsmap, id, s.ever[id]) {
      OneRemote(s, id, r);
    }
  }

  /** In a fixed frameset the bound is sharp: the 257th source would be given the id of
      the first. */
  lemma FixedSetFreshIff(s: State, e: Entry, frame: FrameId)
    requires Inv(s) && e in s.entries && 0 <= e.fixedSet < 0x100_0000
    ensures NewId(s, e, frame) !in s.ever <==> Free(s, e, frame)
  {
    var n := SourceCount(s, e.fixedSet);
    MakeIdParts(e.fixedSet, n);
  }

  /** A local id given out for a new frame was never given out before, exactly if it is
      free. */
  lemma {:induction false} NewIdFresh(s: State, e: Entry, frame: FrameId)
    requires Inv(s) && e in s.entries && RoomFor(s, e, frame) && InKey(Remote(e.id, frame)) !in s.inMap
    ensures NewId(s, e, frame) !in s.ever <==> Free(s, e, frame)
  {
    if e.fixedSet >= 0 {
      FixedSetFreshIff(s, e, frame);
    } else {
      SetFreshIff(s, e, frame);
    }
  }

  /** If fixed framesets have numbers of their own, and room, every new id is free. */
  lemma DisjointFree(s: State, e: Entry, frame: FrameId)
    requires if e.fixedSet >= 0 then
               e.fixedSet < 0x100_0000 && SourceCount(s, e.fixedSet) < 256 && e.fixedSet !in s.fsmap.Values
             else SetFor(s, Remote(e.id, frame)) !in s.sources
    ensures Free(s, e, frame)
  {
    if e.fixedSet >= 0 {
      MakeIdParts(e.fixedSet, SourceCount(s, e.fixedSet));
    }
  }

  lemma FixedMore(sources: map<int, nat>, fs: nat, l: FrameId)
    requires fs < 0x100_0000 && CountOf(sources, fs) < 256
    ensures var n := CountOf(sources, fs);
            FixedId(sources[fs := n + 1], l) <==> FixedId(sources, l) || l == MakeId(fs, n)
  {
    MakeIdParts(fs, CountOf(sources, fs));
    PartsMakeId(l);
  }

  lemma {:induction false} FixedKeeps(sources: map<int, nat>, fsmap: map<int, nat>, ever: map<FrameId, Remote>, fs: nat, r: Remote)
    requires Origins(sources, fsmap, ever) && fs < 0x100_0000 && CountOf(sources, fs) < 256
    ensures var n := CountOf(sources, fs);
            Origins(sources[fs := n + 1], fsmap, ever[MakeId(fs, n) := r])
  {
    var n := CountOf(sources, fs);
    forall l: FrameId ensures FixedId(sources[fs := n + 1], l) <==> FixedId(sources, l) || l == MakeId(fs, n) {
      FixedMore(sources, fs, l);
    }
  }

  lemma SetKeeps(sources: map<int, nat>, fsmap: map<int, nat>, ever: map<FrameId, Remote>, id: FrameId, r: Remote, fs: nat)
    requires Origins(sources, fsmap, ever) && Frameset(r.frame) < 65536
    requires Frameset(id) == fs && Source(id) == Source(r.frame)
    requires SetKey(r) in fsmap ==> fsmap[SetKey(r)] == fs
    ensures Origins(sources, fsmap[SetKey(r) := fs], ever[id := r])
  {
    var fsmap1, ever1 := fsmap[SetKey(r) := fs], ever[id := r];
    forall l | l in ever1 ensures FixedId(sources, l) || SetId(fsmap1, l, ever1[l]) {
      if l != id && !FixedId(sources, l) {
        assert SetId(fsmap, l, ever[l]);
      }
    }
  }

  lemma RecordKeeps(s: State, r: Remote, id: FrameId)
    requires Inverse(s.entries, s.inMap, s.outMap) && History(s.entries, s.outMap, s.ever, s.nextStream)
    requires id !in s.ever && InKey(r) !in s.inMap && Live(s.entries, r.stream) && r.stream < s.nextStream
    ensures Inverse(s.entries, s.inMap[InKey(r) := id], s.outMap[id := r])
    ensures History(s.entries, s.outMap[id := r], s.ever[id := r], s.nextStream)
  {}

  lemma {:induction false} AllocateKeeps(s: State, e: Entry, frame: FrameId)
    requires SetsDistinct(s.fsmap, s.nextSet) && Origins(s.sources, s.fsmap, s.ever)
    requires e.fixedSet < 0 && RoomFor(s, e, frame)
    ensures var s1 := Counted(s, e, frame);
            && SetsDistinct(s1.fsmap, s1.nextSet)
            && Origins(s1.sources, s1.fsmap, s.ever[NewId(s, e, frame) := Remote(e.id, frame)])
  {
    var r := Remote(e.id, frame);
    PartsMakeId(frame);
    MakeIdParts(SetFor(s, r), Source(frame));
    SetKeeps(s.sources, s.fsmap, s.ever, NewId(s, e, frame), r, SetFor(s, r));
    if SetKey(r) in s.fsmap {
      assert s.fsmap[SetKey(r) := SetFor(s, r)] == s.fsmap;
    }
  }

  lemma {:induction false} MapKeepsOrigins(s: State, e: Entry, frame: FrameId)
    requires SetsDistinct(s.fsmap, s.nextSet) && Origins(s.sources, s.fsmap, s.ever)
    requires RoomFor(s, e, frame) && Free(s, e, frame)
    ensures var s1 := Counted(s, e, frame);
            && SetsDistinct(s1.fsmap, s1.nextSet)
            && Origins(s1.sources, s1.fsmap, s.ever[NewId(s, e, frame) := Remote(e.id, frame)])
  {
    if e.fixedSet >= 0 {
      FixedKeeps(s.sources, s.fsmap, s.ever, e.fixedSet, Remote(e.id, frame));
    } else {
      AllocateKeeps(s, e, frame);
    }
  }

  lemma EntryLive(entries: seq<Entry>, e: Entry)
    requires e in entries
    ensures Live(entries, e.id)
  {
    var i :| 0 <= i < |entries| && entries[i] == e;
    assert entries[i].id == e.id;
  }

  lemma {:induction false} MapKeepsInv(s: State, e: Entry, frame: FrameId)
    requires Inv(s) && e in s.entries && Fits(s, e, frame)
    ensures Inv(FromInput(s, e, frame).0)
  {
    var r := Remote(e.id, frame);
    if InKey(r) !in s.inMap {
      NewIdFresh(s, e, frame);
      MapKeepsOrigins(s, e, frame);
      EntryLive(s.entries, e);
      RecordKeeps(s, r, NewId(s, e, frame));
      RecordedInv(s, Counted(s, e, frame), r, NewId(s, e, frame));
    }
  }

  lemma RecordedInv(s: State, s1: State, r: Remote, id: FrameId)
    requires Entries(s.entries, s.nextStream)
    requires s1 == s.(sources := s1.sources, fsmap := s1.fsmap, nextSet := s1.nextSet)
    requires Inverse(s.entries, s.inMap[InKey(r) := id], s.outMap[id := r])
    requires History(s.entries, s.outMap[id := r], s.ever[id := r], s.nextStream)
    requires SetsDistinct(s1.fsmap, s1.nextSet)
    requires Origins(s1.sources, s1.fsmap, s.ever[id := r])
    ensures Inv(Recorded(s1, r, id))
  {}

  lemma AddKeepsInv(s: State, stream: int, fixedSet: int)
    requires Inv(s)
    ensures Inv(Added(s, stream, fixedSet))
  {
    var r := Added(s, stream, fixedSet).entries;
    forall x: nat ensures Live(r, x) <==> Live(s.entries, x) || x == s.nextStream {
      assert r[|s.entries|].id == s.nextStream;
      if Live(s.entries, x) {
        var i :| 0 <= i < |s.entries| && s.entries[i].id == x;
        assert r[i].id == x;
      }
    }
  }

  lemma LiveWithout(entries: seq<Entry>, i: nat, x: nat)
    requires i < |entries| && forall j, k :: 0 <= j < k < |entries| ==> entries[j].id != entries[k].id
    ensures Live(entries[..i] + entries[i + 1..], x) <==> Live(entries, x) && x != entries[i].id
  {
    var r := entries[..i] + entries[i + 1..];
    assert forall j :: 0 <= j < |r| ==> r[j] == entries[if j < i then j else j + 1];
    if Live(entries, x) && x != entries[i].id {
      var j :| 0 <= j < |entries| && entries[j].id == x;
      assert r[if j < i then j else j - 1].id == x;
    }
  }

  lemma {:induction false} RemoveKeepsInv(s: State, stream: int)
    requires Inv(s)
    ensures Inv(Removed(s, stream))
  {
    var i := Find(s.entries, stream);
    if i < |s.entries| {
      forall x: nat ensures Live(Removed(s, stream).entries, x) <==> Live(s.entries, x) && x != s.entries[i].id {
        LiveWithout(s.entries, i, x);
      }
      forall r: Remote ensures InKey(r) / 0x1_0000_0000 == r.stream {
        InKeyParts(r);
      }
    }
  }

  /** The first entry of the stream goes, and with it all it was mapped to and from;
      everything else stays. */
  lemma RemoveForgets(s: State, stream: int, i: nat)
    requires i < |s.entries| && s.entries[i].stream == stream && forall j :: 0 <= j < i ==> s.entries[j].stream != stream
    ensures var (r, id) := (Removed(s, stream), s.entries[i].id);
            && r.entries == s.entries[..i] + s.entries[i + 1..]
            && (forall x: Remote :: x.stream == id ==> InKey(x) !in r.inMap)
            && (forall x: Remote :: x.stream != id && InKey(x) in s.inMap ==>
                  InKey(x) in r.inMap && r.inMap[InKey(x)] == s.inMap[InKey(x)])
            && (forall l :: l in s.outMap ==>
                  if s.outMap[l].stream == id then ToOutput(r, l) == NoMapping
                  else ToOutput(r, l) == Mapped(s.outMap[l]))
  {
    forall x: Remote ensures InKey(x) / 0x1_0000_0000 == x.stream {
      InKeyParts(x);
    }
    assert Find(s.entries, stream) == i;
  }

  // ------------------------------------------------------------- whole runs

  datatype Step = Add(stream: int, fixedSet: int) | Map(entry: nat, frame: FrameId) | Remove(stream: int)

  predicate Allowed(s: State, step: Step) {
    match step
    case Add(_, _) => true
    case Map(i, frame) => i < |s.entries| && Fits(s, s.entries[i], frame)
    case Remove(_) => true
  }

  /** The entry is there, whatever the numbers are. */
  predicate Possible(s: State, step: Step) {
    step.Map? ==> step.entry < |s.entries|
  }

  function Apply(s: State, step: Step): State
    requires Possible(s, step)
  {
    match step
    case Add(stream, fixedSet) => Added(s, stream, fixedSet)
    case Map(i, frame) => FromInput(s, s.entries[i], frame).0
    case Remove(stream) => Removed(s, stream)
  }

  predicate AllPossible(s: State, steps: seq<Step>)
    decreases |steps|
  {
    steps != [] ==> Possible(s, steps[0]) && AllPossible(Apply(s, steps[0]), steps[1..])
  }

  predicate AllAllowed(s: State, steps: seq<Step>)
    ensures AllAllowed(s, steps) ==> AllPossible(s, steps)
    decreases |steps|
  {
    steps != [] ==>
      Allowed(s, steps[0]) && AllAllowed(Apply(s, steps[0]), steps[1..])
  }

  function After(s: State, steps: seq<Step>): State
    requires AllPossible(s, steps)
    decreases |steps|
  {
    if steps == [] then s else After(Apply(s, steps[0]), steps[1..])
  }

  /** `t` remembers all that `s` does. */
  predicate Remembers(s: State, t: State) {
    forall l :: l in s.ever ==> l in t.ever && t.ever[l] == s.ever[l]
  }

  lemma MapRemembers(s: State, e: Entry, frame: FrameId)
    requires Inv(s) && e in s.entries && Fits(s, e, frame)
    ensures Remembers(s, FromInput(s, e, frame).0)
  {
    if InKey(Remote(e.id, frame)) !in s.inMap {
      NewIdFresh(s, e, frame);
    }
  }

  lemma {:induction false} KeepsInv(s: State, step: Step)
    requires Inv(s) && Allowed(s, step)
    ensures Inv(Apply(s, step)) && Remembers(s, Apply(s, step))
  {
    match step {
      case Add(stream, fixedSet) => AddKeepsInv(s, stream, fixedSet);
      case Map(i, frame) =>
        MapKeepsInv(s, s.entries[i], frame);
        MapRemembers(s, s.entries[i], frame);
      case Remove(stream) => RemoveKeepsInv(s, stream);
    }
  }

  /** Over every run of adding, mapping and removing: the maps stay inverse, and
      a local id once given out never comes to stand for another frame, not even
      after its stream was removed. */
  lemma {:induction false} EveryRun(s: State, steps: seq<Step>)
    requires Inv(s) && AllAllowed(s, steps)
    ensures Inv(After(s, steps)) && Remembers(s, After(s, steps))
    decreases |steps|
  {
    if steps != [] {
      KeepsInv(s, steps[0]);
      EveryRun(Apply(s, steps[0]), steps[1..]);
    }
  }

  /** Framesets are allocated in turn: 0, 1, 2 and so on, each once. */
  lemma {:induction false} AllocatedInTurn(s: State, steps: seq<Step>)
    requires AllPossible(s, steps) && s.nextSet == |s.fsmap|
    ensures After(s, steps).nextSet == |After(s, steps).fsmap|
    decreases |steps|
  {
    if steps != [] {
      AllocatedInTurn(Apply(s, steps[0]), steps[1..]);
    }
  }

  /** There and back: posting to the local id of a frame reaches that frame of
      that stream, at once and for as long as the stream is there. */
  lemma RoundTrip(s: State, e: Entry, frame: FrameId, steps: seq<Step>)
    requires Inv(s) && e in s.entries && Fits(s, e, frame)
    requires AllAllowed(FromInput(s, e, frame).0, steps)
    ensures var (r, id) := FromInput(s, e, frame);
            var t := After(r, steps);
            Live(t.entries, e.id) ==> ToOutput(t, id) == Mapped(Remote(e.id, frame))
  {
    var (r, id) := FromInput(s, e, frame);
    MapKeepsInv(s, e, frame);
    if InKey(Remote(e.id, frame)) in s.inMap {
      InKeyInjective(s.outMap[id], Remote(e.id, frame));
    }
    assert r.ever[id] == Remote(e.id, frame);
    EveryRun(r, steps);
  }

  lemma InitialInv()
    ensures Inv(INITIAL)
  {}

  /** The same from the start. */
  lemma EveryRunFromStart(steps: seq<Step>)
    requires AllAllowed(INITIAL, steps)
    ensures Inv(After(INITIAL, steps))
  {
    InitialInv();
    EveryRun(INITIAL, steps);
  }

  // ------------------------------------------------------- promises, exactly

  /** Every frame that has a local id is reached through it. */
  predicate AllReturn(s: State) {
    forall k :: k in s.inMap ==> s.inMap[k] in s.outMap && InKey(s.outMap[s.inMap[k]]) == k
  }

  /** Allowed but for ids that are not free. */
  predicate Loose(s: State, step: Step) {
    match step
    case Add(_, _) => true
    case Map(i, frame) =>
      i < |s.entries| &&
      (InKey(Remote(s.entries[i].id, frame)) in s.inMap || RoomFor(s, s.entries[i], frame))
    case Remove(_) => true
  }

  predicate AllLoose(s: State, steps: seq<Step>)
    decreases |steps|
  {
    steps != [] ==> Loose(s, steps[0]) && AllLoose(Apply(s, steps[0]), steps[1..])
  }

  /** A step that takes no local id from a frame, and after which all return. */
  predicate Kept(s: State, t: State) {
    Remembers(s, t) && AllReturn(t)
  }

  predicate AllKept(s: State, steps: seq<Step>)
    requires AllPossible(s, steps)
    decreases |steps|
  {
    steps != [] ==> Kept(s, Apply(s, steps[0])) && AllKept(Apply(s, steps[0]), steps[1..])
  }

  lemma {:induction false} LoosePossible(s: State, steps: seq<Step>)
    requires AllLoose(s, steps)
    ensures AllPossible(s, steps)
    decreases |steps|
  {
    if steps != [] {
      LoosePossible(Apply(s, steps[0]), steps[1..]);
    }
  }

  /** An id that is not free is taken from an earlier frame. */
  lemma TakesId(s: State, e: Entry, frame: FrameId)
    requires Inv(s) && e in s.entries && RoomFor(s, e, frame)
    requires InKey(Remote(e.id, frame)) !in s.inMap && !Free(s, e, frame)
    ensures var id := NewId(s, e, frame);
            && id in s.ever && s.ever[id] != Remote(e.id, frame)
            && ToOutput(FromInput(s, e, frame).0, id) == Mapped(Remote(e.id, frame))
  {
    NewIdFresh(s, e, frame);
    EntryLive(s.entries, e);
  }

  lemma {:induction false} StepExact(s: State, step: Step)
    requires Inv(s) && Loose(s, step)
    ensures Allowed(s, step) <==> Kept(s, Apply(s, step))
  {
    if Allowed(s, step) {
      KeepsInv(s, step);
    } else {
      TakesId(s, s.entries[step.entry], step.frame);
    }
  }

  /** Given room for framesets, a run keeps every promise at every step if and only if
      every id it gives out is free. */
  lemma {:induction false} RunExact(s: State, steps: seq<Step>)
    requires Inv(s) && AllLoose(s, steps) && AllPossible(s, steps)
    ensures AllAllowed(s, steps) <==> AllKept(s, steps)
    decreases |steps|
  {
    if steps != [] {
      StepExact(s, steps[0]);
      if Allowed(s, steps[0]) {
        KeepsInv(s, steps[0]);
        RunExact(Apply(s, steps[0]), steps[1..]);
      }
    }
  }

  /** A stream with fixed frameset `fs` whose frames 0 to `k - 1` were mapped. */
  function Sourced(fs: nat, k: nat): State
    requires k <= 257
  {
    if k == 0 then Added(INITIAL, 0, fs) else FromInput(Sourced(fs, k - 1), Entry(0, 0, fs), k - 1).0
  }

  lemma {:induction false} SourcedIds(fs: nat, k: nat)
    requires fs < 0x100_0000 && k <= 256
    ensures var s := Sourced(fs, k);
            && s.entries == [Entry(0, 0, fs)]
            && SourceCount(s, fs) == k && (forall key :: key in s.inMap ==> key < k)
            && forall i: nat :: i < k ==> i in s.inMap && s.inMap[i] == MakeId(fs, i)
  {
    if k > 0 {
      SourcedIds(fs, k - 1);
      assert InKey(Remote(0, k - 1)) == k - 1;
    }
  }

  /** The local id of frame `first` of the stream leads to another of its frames. */
  predicate Crossed(t: State, e: Entry, first: FrameId, frame: FrameId) {
    && e in t.entries && first != frame && InKey(Remote(e.id, first)) in t.inMap
    && ToOutput(t, t.inMap[InKey(Remote(e.id, first))]) == Mapped(Remote(e.id, frame))
  }

  lemma TakenOver(s: State, e: Entry, first: FrameId, frame: FrameId)
    requires e in s.entries && first != frame && InKey(Remote(e.id, frame)) !in s.inMap
    requires InKey(Remote(e.id, first)) in s.inMap && s.inMap[InKey(Remote(e.id, first))] == NewId(s, e, frame)
    ensures Crossed(FromInput(s, e, frame).0, e, first, frame)
  {}

  lemma IdsWrap(fs: nat, n: nat)
    requires n == 256
    ensures MakeId(fs, n) == MakeId(fs, 0)
  {}

  /** A run that reaches the 257th source: its frame takes the id of the first. */
  lemma {:induction false} WrapsAt257(fs: nat, n: FrameId)
    requires fs < 0x100_0000 && n == 256
    ensures Crossed(Sourced(fs, n + 1), Entry(0, 0, fs), 0, n)
  {
    SourcedIds(fs, n);
    IdsWrap(fs, n);
    InKeyParts(Remote(0, n));
    TakenOver(Sourced(fs, n), Entry(0, 0, fs), 0, n);
  }

  /** An allocated frameset with the number of a fixed one: the first frames of two
      streams, one with fixed frameset 0 and one with none, get the same id. */
  lemma ClashesAtOnce(frame: FrameId, other: FrameId)
    requires Source(other) == 0
    ensures var s := FromInput(Added(Added(INITIAL, 0, 0), 1, -1), Entry(0, 0, 0), frame).0;
            var t := FromInput(s, Entry(1, 1, -1), other).0;
            && s.entries == [Entry(0, 0, 0), Entry(1, 1, -1)]
            && ToOutput(t, s.inMap[InKey(Remote(0, frame))]) == Mapped(Remote(1, other))
  {
    var s := FromInput(Added(Added(INITIAL, 0, 0), 1, -1), Entry(0, 0, 0), frame).0;
    InKeyParts(Remote(0, frame));
    InKeyParts(Remote(1, other));
    assert s.inMap == map[InKey(Remote(0, frame)) := MakeId(0, 0)];
    assert NewId(s, Entry(1, 1, -1), other) == MakeId(0, 0);
  }

  // ---------------------------------------------------------------- in place

  /** The fields of the source; `ever` is kept for the proof. */
  class Maps {
    var entries: seq<Entry>
    var inMap: map<nat, FrameId>
    var outMap: map<FrameId, Remote>
    var fsmap: map<int, nat>
    var sources: map<int, nat>
    var nextStream: nat
    var nextSet: nat
    ghost var ever: map<FrameId, Remote>

    ghost function Value(): State
      reads this
    {
      State(entries, inMap, outMap, fsmap, sources, nextStream, nextSet, ever)
    }

    constructor ()
      ensures Value() == INITIAL
    {
      entries, inMap, outMap, fsmap := [], map[], map[], map[];
      sources, nextStream, nextSet, ever := map[], 0, 0, map[];
    }

    method Add(stream: int, fixedSet: int)
      modifies this
      ensures Value() == Added(old(Value()), stream, fixedSet)
    {
      entries := entries + [Entry(nextStream, stream, fixedSet)];
      nextStream := nextStream + 1;
    }

    /** Takes the local id for a frame that has none. */
    method Allocate(e: Entry, frame: FrameId) returns (id: FrameId)
      modifies this`sources, this`fsmap, this`nextSet
      ensures id == NewId(old(Value()), e, frame) && Value() == Counted(old(Value()), e, frame)
    {
      if e.fixedSet >= 0 {
        if e.fixedSet !in sources { sources := sources[e.fixedSet := 0]; }
        var source := sources[e.fixedSet];
        sources := sources[e.fixedSet := source + 1];
        assert sources == old(sources)[e.fixedSet := CountOf(old(sources), e.fixedSet) + 1];
        id := MakeId(e.fixedSet, source);
      } else {
        var setKey := e.id * 65536 + frame / 256;
        if setKey !in fsmap {
          fsmap := fsmap[setKey := nextSet];
          nextSet := nextSet + 1;
        }
        id := MakeId(fsmap[setKey], frame % 256);
      }
    }

    method MapFromInput(e: Entry, frame: FrameId) returns (id: FrameId)
      modifies this
      ensures (Value(), id) == FromInput(old(Value()), e, frame)
    {
      var key := e.id * 0x1_0000_0000 + frame;
      if key in inMap { return inMap[key]; }
      id := Allocate(e, frame);
      inMap := inMap[key := id];
      outMap := outMap[id := Remote(e.id, frame)];
      ever := ever[id := Remote(e.id, frame)];
    }

    method MapToOutput(id: FrameId) returns (r: Output)
      ensures r == ToOutput(Value(), id)
    {
      if id in outMap { return Mapped(outMap[id]); }
      return NoMapping;
    }

    method Remove(stream: int)
      modifies this
      ensures Value() == Removed(old(Value()), stream)
    {
      var i := 0;
      while i < |entries| && entries[i].stream != stream
        invariant i <= |entries| && Find(entries, stream) == i + Find(entries[i..], stream)
        invariant Value() == old(Value())
      {
        assert entries[i..][1..] == entries[i + 1..];
        i := i + 1;
      }
      if i == |entries| { return; }
      var id := entries[i].id;
      EraseInputs(id);
      EraseOutputs(id);
      entries := entries[..i] + entries[i + 1..];
    }

    method EraseInputs(id: nat)
      modifies this`inMap
      ensures inMap == map k | k in old(inMap) && k / 0x1_0000_0000 != id :: old(inMap)[k]
    {
      var todo := inMap.Keys;
      while todo != {}
        invariant todo <= old(inMap).Keys
        invariant forall k :: k in inMap <==> k in old(inMap) && (k in todo || k / 0x1_0000_0000 != id)
        invariant forall k :: k in inMap ==> inMap[k] == old(inMap)[k]
      {
        var k :| k in todo;
        todo := todo - {k};
        if k / 0x1_0000_0000 == id { inMap := inMap - {k}; }
      }
    }

    method EraseOutputs(id: nat)
      modifies this`outMap
      ensures outMap == map l | l in old(outMap) && old(outMap)[l].stream != id :: old(outMap)[l]
    {
      var todo := outMap.Keys;
      while todo != {}
        invariant todo <= old(outMap).Keys
        invariant forall l :: l in outMap <==> l in old(outMap) && (l in todo || old(outMap)[l].stream != id)
        invariant forall l :: l in outMap ==> outMap[l] == old(outMap)[l]
      {
        var l :| l in todo;
        todo := todo - {l};
        if outMap[l].stream == id { outMap := outMap - {l}; }
      }
    }
  }
}
