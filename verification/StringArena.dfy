/** The profiler's store of strings that stay where they are: blocks that are
    filled from the front and a table of the strings already stored. */
module StringArena {
  const BLOCK_SIZE := 4096

  datatype Ptr = Ptr(block: nat, offset: nat)

  datatype State = State(blocks: seq<string>, head: nat, table: map<string, Ptr>)

  /** `Aborted`: the check on the length of the string fails. */
  datatype Outcome = Aborted | Stored(ptr: Ptr)

  /** As it is in memory. */
  function Terminated(str: string): string {
    str + ['\0']
  }

  // ------------------------------------------------------------------ memory

  /** Reads a string from memory, up to the first NUL or the end of the block. */
  function ReadFrom(block: string, offset: nat): string
    requires offset <= |block|
    decreases |block| - offset
  {
    if offset == |block| || block[offset] == '\0' then "" else [block[offset]] + ReadFrom(block, offset + 1)
  }

  predicate Within(blocks: seq<string>, p: Ptr, size: nat) {
    p.block < |blocks| && p.offset + size <= |blocks[p.block]|
  }

  /** The string and its NUL are in the block from `offset` on. */
  predicate In(block: string, offset: nat, str: string) {
    && offset + |str| < |block| && block[offset + |str|] == '\0'
    && forall k :: 0 <= k < |str| ==> block[offset + k] == str[k]
  }

  predicate Holds(blocks: seq<string>, p: Ptr, str: string) {
    p.block < |blocks| && In(blocks[p.block], p.offset, str)
  }

  /** Two regions of memory share no place. */
  predicate Disjoint(p: Ptr, n: nat, q: Ptr, m: nat) {
    p.block != q.block || p.offset + n <= q.offset || q.offset + m <= p.offset
  }

  lemma {:induction false} InReads(block: string, offset: nat, str: string)
    requires In(block, offset, str) && '\0' !in str
    ensures ReadFrom(block, offset) == str
    decreases |str|
  {
    if str != "" {
      assert block[offset + 0] == str[0];
      forall k | 0 <= k < |str| - 1 ensures block[offset + 1 + k] == str[1..][k] {
        assert block[offset + (k + 1)] == str[k + 1];
      }
      InReads(block, offset + 1, str[1..]);
    }
  }

  // -------------------------------------------------------------- operations

  function Written(block: string, offset: nat, data: string): (r: string)
    requires offset + |data| <= |block|
    ensures |r| == |block|
  {
    block[..offset] + data + block[offset + |data|..]
  }

  /** The block to write to: a new one, with contents `raw`, if the last one has
      too little room. */
  function Opened(s: State, size: nat, raw: string): State {
    if size > BLOCK_SIZE - s.head then s.(blocks := s.blocks + [raw], head := 0) else s
  }

  predicate Sound(s: State) {
    s.blocks != [] && s.head <= BLOCK_SIZE && forall i :: 0 <= i < |s.blocks| ==> |s.blocks[i]| == BLOCK_SIZE
  }

  function Last(s: State): Ptr
    requires Sound(s)
  {
    Ptr(|s.blocks| - 1, s.head)
  }

  function Put(s: State, str: string): State
    requires Sound(s) && |str| + 1 <= BLOCK_SIZE - s.head
  {
    var i := |s.blocks| - 1;
    State(s.blocks[i := Written(s.blocks[i], s.head, Terminated(str))], s.head + |str| + 1, s.table[str := Last(s)])
  }

  function Inserted(s: State, str: string, raw: string): (r: (State, Outcome))
    requires Sound(s) && |raw| == BLOCK_SIZE
    ensures Sound(r.0)
  {
    if str in s.table then (s, Stored(s.table[str]))
    else if |str| + 1 >= BLOCK_SIZE then (s, Aborted)
    else
      var t := Opened(s, |str| + 1, raw);
      (Put(t, str), Stored(Last(t)))
  }

  // --------------------------------------------------------------- invariant

  /** All stored strings lie before the place of the next one. */
  predicate Before(p: Ptr, n: nat, next: Ptr) {
    p.block < next.block || (p.block == next.block && p.offset + n <= next.offset)
  }

  predicate Placed(blocks: seq<string>, p: Ptr, str: string, next: Ptr) {
    |str| + 1 < BLOCK_SIZE && Holds(blocks, p, str) && Before(p, |str| + 1, next)
  }

  predicate Apart(table: map<string, Ptr>) {
    forall a, b :: a in table && b in table && a != b ==> Disjoint(table[a], |a| + 1, table[b], |b| + 1)
  }

  ghost predicate Inv(s: State) {
    && Sound(s)
    && (forall str :: str in s.table ==> Placed(s.blocks, s.table[str], str, Last(s)))
    && Apart(s.table)
  }

  /** Pointers handed out before stay valid. */
  predicate Keeps(s: State, t: State) {
    forall str :: str in s.table ==> str in t.table && t.table[str] == s.table[str]
  }

  /** Where a new string goes: right after the last one if it fits into the block with
      its NUL, else to the start of a new block. */
  lemma InsertedWhere(s: State, str: string, raw: string)
    requires Sound(s) && |raw| == BLOCK_SIZE && str !in s.table && |str| + 1 < 4096
    ensures var (t, o) := Inserted(s, str, raw);
            && o.Stored? && t.table == s.table[str := o.ptr] && t.head == o.ptr.offset + |str| + 1
            && if s.head + |str| + 1 <= 4096 then o.ptr == Ptr(|s.blocks| - 1, s.head) && |t.blocks| == |s.blocks|
               else o.ptr == Ptr(|s.blocks|, 0) && |t.blocks| == |s.blocks| + 1
  {}

  /** The place belongs to a stored string or its NUL. */
  ghost predicate Used(s: State, k: nat) {
    exists str :: str in s.table && s.table[str].block == |s.blocks| - 1
                  && s.table[str].offset <= k < s.table[str].offset + |str| + 1
  }

  /** The last block has no gaps. */
  ghost predicate Dense(s: State) {
    forall k: nat :: k < s.head ==> Used(s, k)
  }

  lemma {:induction false} KeepsDense(s: State, str: string, raw: string)
    requires Sound(s) && Dense(s) && |raw| == BLOCK_SIZE
    ensures Dense(Inserted(s, str, raw).0)
  {
    if str !in s.table && |str| + 1 < BLOCK_SIZE {
      var t := Inserted(s, str, raw).0;
      InsertedWhere(s, str, raw);
      forall k: nat | k < t.head ensures Used(t, k) {
        if |t.blocks| == |s.blocks| && k < s.head {
          assert Used(s, k);
          var x :| x in s.table && s.table[x].block == |s.blocks| - 1 && s.table[x].offset <= k < s.table[x].offset + |x| + 1;
          assert t.table[x] == s.table[x];
        } else {
          assert t.table[str].offset <= k;
        }
      }
    }
  }

  lemma WrittenIn(block: string, offset: nat, str: string)
    requires offset + |str| + 1 <= |block|
    ensures In(Written(block, offset, Terminated(str)), offset, str)
  {
    var w := Written(block, offset, Terminated(str));
    forall k | 0 <= k < |str| ensures w[offset + k] == str[k] {
      assert w[offset + k] == Terminated(str)[k];
    }
  }

  /** A write does not touch what lies before it. */
  lemma WriteAfter(block: string, head: nat, data: string, offset: nat, other: string)
    requires head + |data| <= |block| && In(block, offset, other) && offset + |other| < head
    ensures In(Written(block, head, data), offset, other)
  {
    var w := Written(block, head, data);
    assert forall j :: 0 <= j < head ==> w[j] == block[j];
    forall k | 0 <= k < |other| ensures w[offset + k] == other[k] {
      assert block[offset + k] == other[k];
    }
  }

  lemma PutApart(s: State, str: string)
    requires Inv(s) && str !in s.table
    ensures Apart(s.table[str := Last(s)])
  {
    var t := s.table[str := Last(s)];
    forall a, b | a in t && b in t && a != b ensures Disjoint(t[a], |a| + 1, t[b], |b| + 1) {
      assert a != str ==> Placed(s.blocks, s.table[a], a, Last(s));
      assert b != str ==> Placed(s.blocks, s.table[b], b, Last(s));
    }
  }

  lemma PutPlaced(s: State, str: string, a: string)
    requires Inv(s) && str !in s.table && |str| + 1 < BLOCK_SIZE && |str| + 1 <= BLOCK_SIZE - s.head
    requires a in s.table || a == str
    ensures var t := Put(s, str); Placed(t.blocks, t.table[a], a, Last(t))
  {
    var block := s.blocks[|s.blocks| - 1];
    if a == str {
      WrittenIn(block, s.head, str);
    } else {
      var p := s.table[a];
      assert Placed(s.blocks, p, a, Last(s));
      if p.block == |s.blocks| - 1 {
        WriteAfter(block, s.head, Terminated(str), p.offset, a);
      }
    }
  }

  lemma PutKeepsInv(s: State, str: string)
    requires Inv(s) && str !in s.table && |str| + 1 < BLOCK_SIZE && |str| + 1 <= BLOCK_SIZE - s.head
    ensures Inv(Put(s, str))
  {
    var t := Put(s, str);
    PutApart(s, str);
    forall a | a in t.table ensures Placed(t.blocks, t.table[a], a, Last(t)) {
      PutPlaced(s, str, a);
    }
  }

  lemma OpenedKeepsInv(s: State, size: nat, raw: string)
    requires Inv(s) && size < BLOCK_SIZE && |raw| == BLOCK_SIZE
    ensures var t := Opened(s, size, raw);
            Inv(t) && t.table == s.table && size <= BLOCK_SIZE - t.head
  {
    if size > BLOCK_SIZE - s.head {
      forall a | a in s.table ensures Placed(s.blocks + [raw], s.table[a], a, Ptr(|s.blocks|, 0)) {
        OpenedPlaced(s.blocks, s.table[a], a, Last(s), raw);
      }
    }
  }

  lemma OpenedPlaced(blocks: seq<string>, p: Ptr, str: string, next: Ptr, raw: string)
    requires Placed(blocks, p, str, next) && next.block < |blocks|
    ensures Placed(blocks + [raw], p, str, Ptr(|blocks|, 0))
  {
    assert (blocks + [raw])[p.block] == blocks[p.block];
  }

  /** What a call promises: the string is at the place returned, unless it is too
      long for a block. */
  predicate Answers(t: State, str: string, o: Outcome) {
    && (o.Aborted? <==> |str| + 1 >= BLOCK_SIZE)
    && (o.Stored? ==> str in t.table && t.table[str] == o.ptr)
  }

  lemma StoreKeepsInv(s: State, str: string, raw: string)
    requires Inv(s) && |raw| == BLOCK_SIZE && str !in s.table && |str| + 1 < BLOCK_SIZE
    ensures var (t, o) := Inserted(s, str, raw);
            Inv(t) && str in t.table && t.table == s.table[str := t.table[str]] && o == Stored(t.table[str])
  {
    var u := Opened(s, |str| + 1, raw);
    OpenedKeepsInv(s, |str| + 1, raw);
    PutKeepsInv(u, str);
    assert Inserted(s, str, raw) == (Put(u, str), Stored(Last(u)));
    assert Put(u, str).table == s.table[str := Last(u)];
  }

  lemma {:induction false} KeepsInv(s: State, str: string, raw: string)
    requires Inv(s) && |raw| == BLOCK_SIZE
    ensures var (t, o) := Inserted(s, str, raw);
            Inv(t) && Keeps(s, t) && Answers(t, str, o)
  {
    if str in s.table {
      assert Placed(s.blocks, s.table[str], str, Last(s));
    } else if |str| + 1 < BLOCK_SIZE {
      StoreKeepsInv(s, str, raw);
    }
  }

  // -------------------------------------------------------------- whole runs

  /** A string asked for; `raw` is what a new block would contain. */
  datatype Call = Call(str: string, raw: string)

  /** A string of C has no NUL inside. */
  predicate Calls(calls: seq<Call>) {
    forall i :: 0 <= i < |calls| ==> |calls[i].raw| == BLOCK_SIZE && '\0' !in calls[i].str
  }

  function Run(s: State, calls: seq<Call>): (r: (State, seq<Outcome>))
    requires Sound(s) && Calls(calls)
    ensures |r.1| == |calls|
    decreases |calls|
  {
    if calls == [] then (s, [])
    else
      var (t, o) := Inserted(s, calls[0].str, calls[0].raw);
      var (u, os) := Run(t, calls[1..]);
      (u, [o] + os)
  }

  lemma AnswersKeep(t: State, u: State, str: string, o: Outcome)
    requires Answers(t, str, o) && Keeps(t, u)
    ensures Answers(u, str, o)
  {}

  lemma AnswersAll(u: State, calls: seq<Call>, o: Outcome, os: seq<Outcome>)
    requires |calls| == |os| + 1 && Answers(u, calls[0].str, o)
    requires forall i :: 0 <= i < |os| ==> Answers(u, calls[1..][i].str, os[i])
    ensures forall i :: 0 <= i < |calls| ==> Answers(u, calls[i].str, ([o] + os)[i])
  {
    forall i | 0 < i < |calls| ensures Answers(u, calls[i].str, ([o] + os)[i]) {
      assert Answers(u, calls[1..][i - 1].str, os[i - 1]);
    }
  }

  lemma {:induction false} EveryRun(s: State, calls: seq<Call>)
    requires Inv(s) && Calls(calls)
    ensures var (t, os) := Run(s, calls);
            Inv(t) && Keeps(s, t) && forall i :: 0 <= i < |calls| ==> Answers(t, calls[i].str, os[i])
    decreases |calls|
  {
    if calls != [] {
      KeepsInv(s, calls[0].str, calls[0].raw);
      var (t, o) := Inserted(s, calls[0].str, calls[0].raw);
      EveryRun(t, calls[1..]);
      var (u, os) := Run(t, calls[1..]);
      AnswersKeep(t, u, calls[0].str, o);
      AnswersAll(u, calls, o, os);
    }
  }

  /** No run leaves a gap in the block it is at. */
  lemma {:induction false} EveryRunDense(s: State, calls: seq<Call>)
    requires Inv(s) && Calls(calls) && Dense(s)
    ensures Dense(Run(s, calls).0)
    decreases |calls|
  {
    if calls != [] {
      KeepsInv(s, calls[0].str, calls[0].raw);
      KeepsDense(s, calls[0].str, calls[0].raw);
      EveryRunDense(Inserted(s, calls[0].str, calls[0].raw).0, calls[1..]);
    }
  }

  /** The string at `p` is read back, inside its block. */
  predicate ReadsAs(s: State, p: Ptr, str: string) {
    Within(s.blocks, p, |str| + 1) && ReadFrom(s.blocks[p.block], p.offset) == str
  }

  lemma StoredReads(s: State, str: string)
    requires Inv(s) && str in s.table && '\0' !in str
    ensures ReadsAs(s, s.table[str], str)
  {
    var p := s.table[str];
    assert Placed(s.blocks, p, str, Last(s));
    InReads(s.blocks[p.block], p.offset, str);
  }

  predicate PairKept(a: string, p: Outcome, b: string, q: Outcome) {
    && p.Stored? && q.Stored? && (a == b ==> p == q)
    && (a != b ==> Disjoint(p.ptr, |a| + 1, q.ptr, |b| + 1))
  }

  lemma AnswersKept(t: State, a: string, p: Outcome, b: string, q: Outcome)
    requires Apart(t.table) && Answers(t, a, p) && Answers(t, b, q)
    requires |a| + 1 < BLOCK_SIZE && |b| + 1 < BLOCK_SIZE
    ensures PairKept(a, p, b, q)
  {}

  /** After any calls, every pointer handed out still reads as its string, inside
      its block. Equal strings share a pointer and distinct ones share no place. */
  lemma {:induction false} Persistent(s: State, calls: seq<Call>, i: nat, j: nat)
    requires Inv(s) && Calls(calls) && i < |calls| && j < |calls|
    requires |calls[i].str| + 1 < BLOCK_SIZE && |calls[j].str| + 1 < BLOCK_SIZE
    ensures var (t, os) := Run(s, calls);
            PairKept(calls[i].str, os[i], calls[j].str, os[j]) && ReadsAs(t, os[i].ptr, calls[i].str)
  {
    EveryRun(s, calls);
    var (t, os) := Run(s, calls);
    AnswersKept(t, calls[i].str, os[i], calls[j].str, os[j]);
    StoredReads(t, calls[i].str);
  }

  lemma InitialInv(raw: string)
    requires |raw| == BLOCK_SIZE
    ensures Inv(State([raw], 0, map[]))
  {}

  // ---------------------------------------------------------------- in place

  class PersistentStringBuffer {
    var blocks: seq<array<char>>
    var head: nat
    var table: map<string, Ptr>

    ghost predicate Valid()
      reads this
    {
      && blocks != [] && head <= BLOCK_SIZE
      && (forall i :: 0 <= i < |blocks| ==> blocks[i].Length == BLOCK_SIZE)
      && (forall i, j :: 0 <= i < j < |blocks| ==> blocks[i] != blocks[j])
    }

    ghost function Memory(): (m: seq<string>)
      reads this, blocks
      ensures |m| == |blocks| && forall i :: 0 <= i < |m| ==> m[i] == blocks[i][..]
    {
      seq(|blocks|, i requires 0 <= i < |blocks| reads this, blocks => blocks[i][..])
    }

    ghost function Value(): (s: State)
      reads this, blocks
      requires Valid()
      ensures Sound(s)
    {
      State(Memory(), head, table)
    }

    constructor ()
      ensures Valid() && fresh(blocks[0]) && |blocks| == 1 && head == 0 && table == map[]
    {
      var block := new char[BLOCK_SIZE];
      blocks, head, table := [block], 0, map[];
    }

    method AllocBlock() returns (ghost raw: string)
      requires Valid()
      modifies this`blocks, this`head
      ensures Valid() && |raw| == BLOCK_SIZE && head == 0
      ensures |blocks| == |old(blocks)| + 1 && blocks[..|blocks| - 1] == old(blocks) && fresh(blocks[|blocks| - 1])
      ensures Memory() == old(Memory()) + [raw]
    {
      var block := new char[BLOCK_SIZE];
      raw := block[..];
      blocks := blocks + [block];
      head := 0;
    }

    /** Copies the string and its NUL to the head of the last block. */
    method CopyIn(str: string)
      requires Valid() && |str| + 1 <= BLOCK_SIZE - head
      modifies blocks[|blocks| - 1]
      ensures blocks[|blocks| - 1][..] ==
              Written(old(blocks[|blocks| - 1][..]), head, Terminated(str))
    {
      var block := blocks[|blocks| - 1];
      ghost var was := block[..];
      for i := 0 to |str| + 1
        invariant forall k :: 0 <= k < head || head + i <= k < BLOCK_SIZE ==> block[k] == was[k]
        invariant forall k :: head <= k < head + i ==> block[k] == Terminated(str)[k - head]
      {
        block[head + i] := if i < |str| then str[i] else '\0';
      }
      assert block[..] == Written(was, head, Terminated(str));
    }

    method Add(str: string) returns (r: Outcome, ghost raw: string)
      requires Valid() && str !in table
      modifies this`blocks, this`head, this`table, blocks[|blocks| - 1]
      ensures Valid() && |raw| == BLOCK_SIZE && (forall b :: b in blocks ==> b in old(blocks) || fresh(b))
      ensures (Value(), r) == Inserted(old(Value()), str, raw)
    {
      raw := seq(BLOCK_SIZE, _ => '\0');
      if |str| + 1 >= BLOCK_SIZE { return Aborted, raw; }
      if |str| + 1 > BLOCK_SIZE - head {
        raw := AllocBlock();
      }
      var ptr := Store(str);
      return Stored(ptr), raw;
    }

    method Store(str: string) returns (ptr: Ptr)
      requires Valid() && |str| + 1 <= BLOCK_SIZE - head
      modifies this`head, this`table, blocks[|blocks| - 1]
      ensures Valid() && Value() == Put(old(Value()), str) && ptr == Last(old(Value()))
    {
      CopyIn(str);
      ptr := Ptr(|blocks| - 1, head);
      head := head + |str| + 1;
      table := table[str := ptr];
      assert Memory() == Put(old(Value()), str).blocks;
    }

    method GetOrInsert(str: string) returns (r: Outcome, ghost raw: string)
      requires Valid()
      modifies this, blocks[|blocks| - 1]
      ensures Valid() && |raw| == BLOCK_SIZE && (forall b :: b in blocks ==> b in old(blocks) || fresh(b))
      ensures (Value(), r) == Inserted(old(Value()), str, raw)
    {
      if str in table {
        raw := seq(BLOCK_SIZE, _ => '\0');
        return Stored(table[str]), raw;
      }
      r, raw := Add(str);
    }
  }
}
