/** `WorkerQueue`: tasks run one after the other by at most one pool job. Each
    region under the mutex is one step; a job's own steps are taking the next
    task (or leaving) and finishing it. */
module WorkerQueue {
  /** Tasks are told apart by number. */
  type Task = int

  /** How a task left the queue. */
  datatype Fate = Run | Discarded | Cleared
  datatype Departure = Departure(task: Task, fate: Fate)

  /** A pool job: about to look at the queue, or running a task. */
  datatype Job = AtTop | Running(task: Task)

  /** `accepted` are all tasks ever queued, `gone` those that left and `executed`
      those that a job was given to run, each in order. */
  datatype State = State(queue: seq<Task>, busy: bool, stop: bool, jobs: seq<Job>,
                         accepted: seq<Task>, gone: seq<Departure>, executed: seq<Task>)

  const INITIAL := State([], false, false, [], [], [], [])

  function Left(tasks: seq<Task>, fate: Fate): (r: seq<Departure>)
    ensures |r| == |tasks|
    ensures forall i :: 0 <= i < |tasks| ==> r[i] == Departure(tasks[i], fate)
  {
    seq(|tasks|, i requires 0 <= i < |tasks| => Departure(tasks[i], fate))
  }

  function Tasks(gone: seq<Departure>): (r: seq<Task>)
    ensures |r| == |gone|
    ensures forall i :: 0 <= i < |gone| ==> r[i] == gone[i].task
  {
    seq(|gone|, i requires 0 <= i < |gone| => gone[i].task)
  }

  /** `start_and_unlock`: a job is pushed unless there is one or we are stopped. */
  function Start(s: State): State {
    if !s.busy && !s.stop then s.(busy := true, jobs := s.jobs + [AtTop]) else s
  }

  function Push(s: State, t: Task): State {
    Start(s.(queue := s.queue + [t], accepted := s.accepted + [t]))
  }

  /** The `n` oldest tasks leave. */
  function Drop(s: State, n: nat, fate: Fate): State
    requires n <= |s.queue|
  {
    s.(queue := s.queue[n..], gone := s.gone + Left(s.queue[..n], fate))
  }

  datatype Step =
    | Queue(task: Task)
    | TryQueue(max: int, task: Task)
    | QueueDiscard(max: int, task: Task)
    | Stop(clear: bool)
    | Clear
    | Resume
    | Next(job: nat)
    | Finish(job: nat)

  predicate Allowed(s: State, step: Step) {
    match step
    case QueueDiscard(max, _) => Limit(max) != 0
    case Next(j) => j < |s.jobs| && s.jobs[j].AtTop?
    case Finish(j) => j < |s.jobs| && s.jobs[j].Running?
    case _ => true
  }

  /** A limit as it compares with a container's size: unsigned, 64 bits. */
  function Limit(max: int): (r: nat)
    ensures 0 <= max < 0x8000_0000 ==> r == max
    ensures -0x8000_0000 <= max < 0 ==> r > 0xffff_ffff_0000_0000
  {
    max % 0x1_0000_0000_0000_0000
  }

  /** The task is last, after as many of the latest others as the limit leaves room for. */
  predicate MadeRoom(was: seq<Task>, queue: seq<Task>, task: Task, limit: nat) {
    && queue != [] && queue[|queue| - 1] == task
    && |queue| == (if |was| < limit then |was| + 1 else limit)
    && queue[..|queue| - 1] == was[|was| - (|queue| - 1)..]
  }

  /** Tasks to drop so that one more keeps the queue within the limit. */
  function Excess(size: nat, max: int): nat {
    if size >= Limit(max) then size - Limit(max) + 1 else 0
  }

  lemma RoomMade(was: seq<Task>, max: int, task: Task)
    requires Limit(max) != 0
    ensures Excess(|was|, max) <= |was| && MadeRoom(was, was[Excess(|was|, max)..] + [task], task, Limit(max))
  {
    var rest := was[Excess(|was|, max)..];
    assert (rest + [task])[..|rest|] == rest;
  }

  function Apply(s: State, step: Step): State
    requires Allowed(s, step)
  {
    match step
    case Queue(t) => if s.stop then s else Push(s, t)
    case TryQueue(max, t) => if s.stop || |s.queue| >= Limit(max) then s else Push(s, t)
    case QueueDiscard(max, t) =>
      if s.stop then s else Push(Drop(s, Excess(|s.queue|, max), Discarded), t)
    case Stop(clear) =>
      var s1 := s.(stop := true);
      if clear then Drop(s1, |s1.queue|, Cleared) else s1
    case Clear => Drop(s, |s.queue|, Cleared)
    case Resume =>
      var s1 := s.(stop := false);
      if s.queue != [] && !s.busy then Start(s1) else s1
    case Next(j) =>
      if s.stop || s.queue == [] then s.(busy := false, jobs := s.jobs[..j] + s.jobs[j + 1..])
      else Drop(s.(jobs := s.jobs[j := Running(s.queue[0])], executed := s.executed + [s.queue[0]]), 1, Run)
    case Finish(j) => s.(jobs := s.jobs[j := AtTop])
  }

  /** One worker at most, `busy` tells whether there is one, no task is left
      without one, and tasks leave in the order they came. */
  predicate Inv(s: State) {
    && |s.jobs| == (if s.busy then 1 else 0)
    && (s.queue != [] && !s.stop ==> s.busy)
    && Recorded(s)
    && (forall j :: 0 <= j < |s.jobs| && s.jobs[j].Running? ==>
          s.executed != [] && s.executed[|s.executed| - 1] == s.jobs[j].task)
  }

  /** The tasks that left to be run. */
  function RunOf(gone: seq<Departure>): seq<Task> {
    if gone == [] then []
    else
      var last := gone[|gone| - 1];
      RunOf(gone[..|gone| - 1]) + if last.fate.Run? then [last.task] else []
  }

  lemma RunOfMore(gone: seq<Departure>, d: Departure)
    ensures RunOf(gone + [d]) == RunOf(gone) + if d.fate.Run? then [d.task] else []
  {
    assert (gone + [d])[..|gone|] == gone;
  }

  lemma {:induction false} RunOfLeft(gone: seq<Departure>, tasks: seq<Task>, fate: Fate)
    ensures RunOf(gone + Left(tasks, fate)) == RunOf(gone) + if fate.Run? then tasks else []
    decreases |tasks|
  {
    if tasks == [] {
      assert gone + Left(tasks, fate) == gone;
    } else {
      var front, last := tasks[..|tasks| - 1], tasks[|tasks| - 1];
      assert Left(tasks, fate) == Left(front, fate) + [Departure(last, fate)];
      assert gone + Left(tasks, fate) == gone + Left(front, fate) + [Departure(last, fate)];
      RunOfLeft(gone, front, fate);
      RunOfMore(gone + Left(front, fate), Departure(last, fate));
      assert tasks == front + [last];
    }
  }

  /** One sequence is part of another, in its order. */
  predicate Within(a: seq<Task>, b: seq<Task>)
    decreases |b|
  {
    if a == [] then true
    else if b == [] then false
    else
      || Within(a, b[..|b| - 1])
      || (a[|a| - 1] == b[|b| - 1] && Within(a[..|a| - 1], b[..|b| - 1]))
  }

  lemma WithinMore(a: seq<Task>, b: seq<Task>, t: Task)
    requires Within(a, b)
    ensures Within(a, b + [t]) && Within(a + [t], b + [t])
  {
    assert (b + [t])[..|b|] == b && (a + [t])[..|a|] == a;
  }

  lemma {:induction false} RunOfWithin(gone: seq<Departure>)
    ensures Within(RunOf(gone), Tasks(gone))
  {
    if gone != [] {
      var front, last := gone[..|gone| - 1], gone[|gone| - 1];
      RunOfWithin(front);
      assert Tasks(gone) == Tasks(front) + [last.task];
      WithinMore(RunOf(front), Tasks(front), last.task);
      assert RunOf(front) + [] == RunOf(front);
    }
  }

  lemma {:induction false} WithinAppend(a: seq<Task>, b: seq<Task>, c: seq<Task>)
    requires Within(a, b)
    ensures Within(a, b + c)
    decreases |c|
  {
    if c == [] {
      assert b + c == b;
    } else {
      WithinAppend(a, b, c[..|c| - 1]);
      WithinMore(a, b + c[..|c| - 1], c[|c| - 1]);
      assert b + c == b + c[..|c| - 1] + [c[|c| - 1]];
    }
  }

  /** Executed tasks follow the order in which they were queued. */
  lemma ExecutedInOrder(s: State)
    requires Inv(s)
    ensures Within(s.executed, s.accepted)
  {
    RunOfWithin(s.gone);
    WithinAppend(s.executed, Tasks(s.gone), s.queue);
  }

  lemma TasksLeft(gone: seq<Departure>, tasks: seq<Task>, fate: Fate)
    ensures Tasks(gone + Left(tasks, fate)) == Tasks(gone) + tasks
  {}

  /** Tasks leave in the order they came, and those run are on record. */
  predicate Recorded(s: State) {
    Tasks(s.gone) + s.queue == s.accepted && s.executed == RunOf(s.gone)
  }

  lemma {:induction false} DropTasks(s: State, n: nat, fate: Fate)
    requires n <= |s.queue| && Tasks(s.gone) + s.queue == s.accepted
    ensures var r := Drop(s, n, fate);
            Tasks(r.gone) + r.queue == r.accepted
  {
    TasksLeft(s.gone, s.queue[..n], fate);
    assert s.queue == s.queue[..n] + s.queue[n..];
  }

  lemma {:induction false} DropKeeps(s: State, n: nat, fate: Fate)
    requires n <= |s.queue| && Recorded(s) && !fate.Run?
    ensures Recorded(Drop(s, n, fate))
  {
    DropTasks(s, n, fate);
    RunOfLeft(s.gone, s.queue[..n], fate);
    assert RunOf(s.gone) + [] == RunOf(s.gone);
  }

  lemma {:induction false} NextKeeps(s: State, j: nat)
    requires Inv(s) && Allowed(s, Next(j))
    ensures Inv(Apply(s, Next(j)))
  {
    if !s.stop && s.queue != [] {
      DropTasks(s, 1, Run);
      RunOfLeft(s.gone, s.queue[..1], Run);
      assert s.queue[..1] == [s.queue[0]];
    }
  }

  lemma {:induction false} DiscardKeeps(s: State, max: int, t: Task)
    requires Inv(s) && Allowed(s, QueueDiscard(max, t))
    ensures Inv(Apply(s, QueueDiscard(max, t)))
  {
    if !s.stop {
      DropKeeps(s, Excess(|s.queue|, max), Discarded);
    }
  }

  lemma {:induction false} KeepsInv(s: State, step: Step)
    requires Inv(s) && Allowed(s, step)
    ensures Inv(Apply(s, step))
  {
    match step {
      case QueueDiscard(max, t) => DiscardKeeps(s, max, t);
      case Stop(clear) => DropKeeps(s, |s.queue|, Cleared);
      case Clear => DropKeeps(s, |s.queue|, Cleared);
      case Next(j) => NextKeeps(s, j);
      case _ =>
    }
  }

  predicate AllAllowed(s: State, steps: seq<Step>)
    decreases |steps|
  {
    steps != [] ==> Allowed(s, steps[0]) && AllAllowed(Apply(s, steps[0]), steps[1..])
  }

  function After(s: State, steps: seq<Step>): State
    requires AllAllowed(s, steps)
    decreases |steps|
  {
    if steps == [] then s else After(Apply(s, steps[0]), steps[1..])
  }

  /** The invariant holds after any interleaving of callers and jobs. */
  lemma {:induction false} EveryRun(s: State, steps: seq<Step>)
    requires Inv(s) && AllAllowed(s, steps)
    ensures Inv(After(s, steps))
    decreases |steps|
  {
    if steps != [] {
      KeepsInv(s, steps[0]);
      EveryRun(Apply(s, steps[0]), steps[1..]);
    }
  }

  /** What was queued: the tasks of the calls that were not refused. */
  function Queued(s: State, steps: seq<Step>): seq<Task>
    requires AllAllowed(s, steps)
    decreases |steps|
  {
    if steps == [] then []
    else Taken(s, steps[0]) + Queued(Apply(s, steps[0]), steps[1..])
  }

  function Taken(s: State, step: Step): seq<Task> {
    if s.stop then []
    else
      match step
      case Queue(t) => [t]
      case TryQueue(max, t) => if |s.queue| < Limit(max) then [t] else []
      case QueueDiscard(_, t) => [t]
      case _ => []
  }

  lemma AcceptedStep(s: State, step: Step)
    requires Allowed(s, step)
    ensures Apply(s, step).accepted == s.accepted + Taken(s, step)
  {
    assert s.accepted + [] == s.accepted;
  }

  /** No task is refused, or taken twice, but for the stop and the limit. */
  lemma {:induction false} AcceptedAll(s: State, steps: seq<Step>)
    requires AllAllowed(s, steps)
    ensures After(s, steps).accepted == s.accepted + Queued(s, steps)
    decreases |steps|
  {
    if steps == [] {
      assert s.accepted + [] == s.accepted;
    } else {
      var step, r := steps[0], Apply(s, steps[0]);
      AcceptedStep(s, step);
      AcceptedAll(r, steps[1..]);
      assert s.accepted + Taken(s, step) + Queued(r, steps[1..]) == s.accepted + (Taken(s, step) + Queued(r, steps[1..]));
    }
  }

  /** From the start: one runner at most, no task without one, and tasks leave and
      are executed in the order they were queued. */
  lemma EveryRunFromStart(steps: seq<Step>)
    requires AllAllowed(INITIAL, steps)
    ensures Inv(After(INITIAL, steps)) && Within(After(INITIAL, steps).executed, After(INITIAL, steps).accepted)
  {
    EveryRun(INITIAL, steps);
    ExecutedInOrder(After(INITIAL, steps));
  }

  // ---------------------------------------------------------------- progress

  /** A step of the job, not of a caller. */
  predicate JobStep(step: Step) {
    step.Next? || step.Finish?
  }

  /** While there is a job it can take a step, and one only. */
  lemma OneJobStep(s: State)
    requires Inv(s) && s.busy
    ensures forall step :: JobStep(step) && Allowed(s, step) <==> step == if s.jobs[0].AtTop? then Next(0) else Finish(0)
  {}

  lemma {:induction false} AfterTwo(s: State, a: Step, b: Step)
    requires Allowed(s, a) && Allowed(Apply(s, a), b)
    ensures AllAllowed(s, [a, b]) && After(s, [a, b]) == Apply(Apply(s, a), b)
  {
    var s1 := Apply(s, a);
    assert [a, b][1..] == [b] && [b][1..] == [];
    assert AllAllowed(s1, [b]) && After(s1, [b]) == Apply(s1, b);
  }

  /** The job's steps for one task. */
  lemma {:induction false} RunsOne(s: State)
    requires Inv(s) && !s.stop && s.jobs == [AtTop] && s.queue != []
    ensures AllAllowed(s, [Next(0), Finish(0)])
    ensures var r := After(s, [Next(0), Finish(0)]);
            && Inv(r) && !r.stop && r.jobs == [AtTop] && r.queue == s.queue[1..]
            && r.executed == s.executed + [s.queue[0]] && r.accepted == s.accepted
  {
    var s1 := Apply(s, Next(0));
    KeepsInv(s, Next(0));
    assert s1.jobs == [Running(s.queue[0])];
    KeepsInv(s1, Finish(0));
    AfterTwo(s, Next(0), Finish(0));
  }

  lemma {:induction false} AfterMore(s: State, a: seq<Step>, b: seq<Step>)
    requires AllAllowed(s, a) && AllAllowed(After(s, a), b)
    ensures AllAllowed(s, a + b) && After(s, a + b) == After(After(s, a), b)
    decreases |a|
  {
    if a == [] {
      assert a + b == b;
    } else {
      assert (a + b)[1..] == a[1..] + b;
      AfterMore(Apply(s, a[0]), a[1..], b);
    }
  }

  lemma {:induction false} LeavesIdle(s: State)
    requires !s.stop && s.jobs == [AtTop] && s.queue == []
    ensures AllAllowed(s, [Next(0)]) && After(s, [Next(0)]) == s.(busy := false, jobs := [])
  {
    assert s.jobs[..0] + s.jobs[1..] == [];
    assert [Next(0)][1..] == [];
  }

  /** All that was queued in `s` has been run, and the job has left. */
  predicate Emptied(s: State, r: State) {
    r.queue == [] && r.jobs == [] && !r.busy && r.executed == s.executed + s.queue && r.accepted == s.accepted
  }

  lemma EmptiedOn(s: State, s1: State, r: State)
    requires s.queue != [] && s1.queue == s.queue[1..] && s1.executed == s.executed + [s.queue[0]]
    requires s1.accepted == s.accepted && Emptied(s1, r)
    ensures Emptied(s, r)
  {
    assert s.executed + [s.queue[0]] + s.queue[1..] == s.executed + s.queue;
  }

  predicate JobSteps(steps: seq<Step>) {
    forall i :: 0 <= i < |steps| ==> JobStep(steps[i])
  }

  /** Left to itself, the job runs all that is queued, in order, and leaves. */
  lemma {:induction false} RunsAll(s: State) returns (steps: seq<Step>)
    requires Inv(s) && !s.stop && s.jobs == [AtTop]
    ensures AllAllowed(s, steps) && JobSteps(steps) && Emptied(s, After(s, steps))
    decreases |s.queue|
  {
    if s.queue == [] {
      steps := [Next(0)];
      LeavesIdle(s);
      assert s.executed + [] == s.executed;
    } else {
      var one := [Next(0), Finish(0)];
      RunsOne(s);
      var s1 := After(s, one);
      var more := RunsAll(s1);
      AfterMore(s, one, more);
      EmptiedOn(s, s1, After(s1, more));
      steps := one + more;
    }
  }

  predicate Dropless(steps: seq<Step>) {
    forall i :: 0 <= i < |steps| ==> !steps[i].QueueDiscard? && !steps[i].Clear? && steps[i] != Stop(true)
  }

  /** Without discarding and clearing, every task that left was run. */
  lemma {:induction false} AllRun(s: State, steps: seq<Step>)
    requires AllAllowed(s, steps) && Dropless(steps)
    requires forall i :: 0 <= i < |s.gone| ==> s.gone[i].fate == Run
    ensures forall i :: 0 <= i < |After(s, steps).gone| ==> After(s, steps).gone[i].fate == Run
    decreases |steps|
  {
    if steps != [] {
      AllRun(Apply(s, steps[0]), steps[1..]);
    }
  }

  /** The fields of the source; the jobs in the pool and the histories are kept
      for the proof. */
  class WorkerQueue {
    var queue: seq<Task>
    var busy: bool
    var stop: bool
    ghost var jobs: seq<Job>
    ghost var accepted: seq<Task>
    ghost var gone: seq<Departure>
    ghost var executed: seq<Task>

    ghost function Value(): State
      reads this
    {
      State(queue, busy, stop, jobs, accepted, gone, executed)
    }

    constructor ()
      ensures Value() == INITIAL
    {
      queue, busy, stop := [], false, false;
      jobs, accepted, gone, executed := [], [], [], [];
    }

    method StartAndUnlock()
      modifies this
      ensures Value() == Start(old(Value()))
    {
      if !busy && !stop {
        busy := true;
        jobs := jobs + [AtTop];
      }
    }

    method PushBack(task: Task)
      modifies this
      ensures Value() == Push(old(Value()), task)
    {
      queue := queue + [task];
      accepted := accepted + [task];
      StartAndUnlock();
    }

    method PopFront(ghost fate: Fate) returns (task: Task)
      requires queue != []
      modifies this
      ensures task == old(queue)[0] && Value() == Drop(old(Value()), 1, fate)
    {
      task := queue[0];
      gone := gone + [Departure(task, fate)];
      queue := queue[1..];
      assert Left(old(queue)[..1], fate) == [Departure(task, fate)];
    }

    method Queue(task: Task) returns (size: int)
      modifies this
      ensures Value() == Apply(old(Value()), Step.Queue(task))
      ensures size == if old(stop) then -1 else |old(queue)|
      ensures queue == (if old(stop) then old(queue) else old(queue) + [task])
      ensures accepted == if old(stop) then old(accepted) else old(accepted) + [task]
    {
      if stop { return -1; }
      size := |queue|;
      PushBack(task);
    }

    method TryQueue(max: int, task: Task) returns (ok: bool)
      modifies this
      ensures Value() == Apply(old(Value()), Step.TryQueue(max, task))
      ensures ok == (!old(stop) && |old(queue)| < Limit(max))
      ensures queue == (if ok then old(queue) + [task] else old(queue))
      ensures accepted == if ok then old(accepted) + [task] else old(accepted)
    {
      if stop { return false; }
      if |queue| >= Limit(max) { return false; }
      PushBack(task);
      ok := true;
    }

    method QueueDiscard(max: int, task: Task) returns (size: int)
      requires Limit(max) != 0
      modifies this
      ensures Value() == Apply(old(Value()), Step.QueueDiscard(max, task))
      ensures size == if old(stop) then 0 else |old(queue)|
      ensures accepted == if old(stop) then old(accepted) else old(accepted) + [task]
      ensures old(stop) ==> queue == old(queue)
      ensures !old(stop) ==> MadeRoom(old(queue), queue, task, Limit(max))
    {
      if stop { return 0; }
      size := |queue|;
      ghost var s := Value();
      assert Drop(s, 0, Discarded) == s;
      ghost var n := 0;
      while |queue| >= Limit(max)
        invariant n <= |s.queue| && Value() == Drop(s, n, Discarded)
        invariant n <= Excess(|s.queue|, max)
        decreases |queue|
      {
        var _ := PopFront(Discarded);
        DropMore(s, n, Discarded);
        n := n + 1;
      }
      RoomMade(s.queue, max, task);
      PushBack(task);
    }

    method Clear()
      modifies this
      ensures Value() == Apply(old(Value()), Step.Clear)
      ensures queue == [] && busy == old(busy) && stop == old(stop)
    {
      gone := gone + Left(queue, Cleared);
      queue := [];
      assert old(queue)[..|old(queue)|] == old(queue);
    }

    method Stop(clearQueue: bool)
      modifies this
      ensures Value() == Apply(old(Value()), Step.Stop(clearQueue))
      ensures stop && busy == old(busy) && queue == if clearQueue then [] else old(queue)
    {
      stop := true;
      if clearQueue { Clear(); }
    }

    method Resume()
      modifies this
      ensures Value() == Apply(old(Value()), Step.Resume)
      ensures !stop && queue == old(queue) && busy == (old(busy) || queue != [])
    {
      stop := false;
      if |queue| > 0 && !busy { StartAndUnlock(); }
    }

    /** One turn of `run` up to the call of the task. */
    method Next(ghost job: nat) returns (task: Task, leave: bool)
      requires Allowed(Value(), Step.Next(job))
      modifies this
      ensures Value() == Apply(old(Value()), Step.Next(job))
      ensures leave <==> old(stop) || old(queue) == []
      ensures !leave ==> task == old(queue)[0]
    {
      if stop || |queue| == 0 {
        busy := false;
        jobs := jobs[..job] + jobs[job + 1..];
        return 0, true;
      }
      jobs := jobs[job := Running(queue[0])];
      executed := executed + [queue[0]];
      task := PopFront(Run);
      leave := false;
    }
  }

  lemma DropMore(s: State, n: nat, fate: Fate)
    requires n < |s.queue|
    ensures Drop(Drop(s, n, fate), 1, fate) == Drop(s, n + 1, fate)
  {
    assert s.queue[n..][1..] == s.queue[n + 1..];
    var a, b := Left(s.queue[..n], fate), Left(s.queue[n..][..1], fate);
    assert (s.gone + a) + b == s.gone + (a + b);
    assert a + b == Left(s.queue[..n + 1], fate);
  }
}
