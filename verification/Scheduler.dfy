/**
 The task scheduler: a bounded FIFO queue, a ticker whose channel holds one tick, and the
 drain after cancellation, interleaved with the callers of AddTask.
 */
module Scheduler {
  import opened Base

  const QUEUE_SIZE := 8192

  datatype Task = Task(job: nat, qos: int)

  /** Where the scheduler goroutine is. */
  datatype Phase =
    | Looping                    // select on queue and cancellation
    | Holding(task: Task)        // task taken, waiting for a tick
    | Draining                   // cancelled, polling the queue
    | DrainHolding(task: Task)
    | Ranging                    // unlimited mode after cancellation
    | Stopped

  datatype State = State(
    limited: bool,
    phase: Phase,
    queue: seq<Task>,
    tick: bool,                  // a tick waits in the ticker's channel
    cancelled: bool,
    added: seq<Task>,
    dispatched: seq<Task>,
    fires: nat)

  datatype Step =
    | AddTask(task: Task)
    | Fire                       // the ticker fires; with a tick waiting it is dropped
    | Cancel
    | Take                       // the select chooses the queue
    | Dispatch                   // the tick is taken and the job started
    | SeeCancel                  // the select chooses cancellation
    | DrainPoll                  // getTaskNow
    | RangeTake                  // unlimited mode: next task of the range over the queue

  ghost function Start(limited: bool): State {
    State(limited, Looping, [], false, false, [], [], 0)
  }

  ghost predicate Enabled(s: State, step: Step) {
    match step
    case AddTask(_) => |s.queue| < QUEUE_SIZE
    case Fire => s.limited && !s.phase.Stopped?
    case Cancel => true
    case Take => s.phase.Looping? && s.queue != []
    case Dispatch => (s.phase.Holding? || s.phase.DrainHolding?) && s.tick
    case SeeCancel => s.phase.Looping? && s.cancelled
    case DrainPoll => s.phase.Draining?
    case RangeTake => s.phase.Ranging? && s.queue != []
  }

  ghost function Next(s: State, step: Step): State
    requires Enabled(s, step)
  {
    match step
    case AddTask(t) => s.(queue := s.queue + [t], added := s.added + [t])
    case Fire => s.(tick := true, fires := s.fires + 1)
    case Cancel => s.(cancelled := true)
    case Take =>
      if s.limited then s.(queue := s.queue[1..], phase := Holding(s.queue[0]))
      else s.(queue := s.queue[1..], dispatched := s.dispatched + [s.queue[0]])
    case Dispatch =>
      s.(tick := false, dispatched := s.dispatched + [s.phase.task],
         phase := if s.phase.Holding? then Looping else Draining)
    case SeeCancel => s.(phase := if s.limited then Draining else Ranging)
    case DrainPoll =>
      if s.queue == [] then s.(phase := Stopped)
      else s.(queue := s.queue[1..], phase := DrainHolding(s.queue[0]))
    case RangeTake => s.(queue := s.queue[1..], dispatched := s.dispatched + [s.queue[0]])
  }

  ghost predicate ValidRun(s: State, run: seq<Step>)
    decreases |run|
  {
    run == [] || (Enabled(s, run[0]) && ValidRun(Next(s, run[0]), run[1..]))
  }

  ghost function After(s: State, run: seq<Step>): State
    requires ValidRun(s, run)
    decreases |run|
  {
    if run == [] then s else After(Next(s, run[0]), run[1..])
  }

  // ---- adding, polling and draining ------------------------------------------------

  class TaskScheduler {
    var taskQueue: seq<Task>
    var started: seq<Task>

    method AddTask(job: nat, qos: seq<int>)
      requires |taskQueue| < QUEUE_SIZE
      modifies this
      ensures taskQueue == old(taskQueue) + [Task(job, if qos == [] then 0 else qos[0])]
      ensures started == old(started)
    {
      var q := 0;
      if |qos| != 0 {
        q := qos[0];
      }
      taskQueue := taskQueue + [Task(job, q)];
    }

    method GetTaskNow() returns (task: Option<Task>)
      modifies this`taskQueue
      ensures old(taskQueue) == [] ==> task == None && taskQueue == []
      ensures old(taskQueue) != [] ==> task == Some(old(taskQueue)[0]) && taskQueue == old(taskQueue)[1..]
    {
      if taskQueue == [] {
        task := None;
      } else {
        task := Some(taskQueue[0]);
        taskQueue := taskQueue[1..];
      }
    }

    /** LastRunTick: every remaining task runs, in order, each after one tick, until a poll finds
        the queue empty. added[k] is what other goroutines add between polls k and k + 1. */
    method Drain(added: seq<seq<Task>>) returns (polls: nat)
      modifies this
      ensures taskQueue == []
      ensures started == old(started) + old(taskQueue) + Flatten(Upto(added, polls))
      ensures polls == |started| - |old(started)|
    {
      polls := 0;
      var task := GetTaskNow();
      ghost var base := old(started) + old(taskQueue);
      assert started + Optional(task) + taskQueue == base + Flatten(Upto(added, 0));
      while task != None
        invariant InOrder(started, Optional(task), taskQueue, base, added, polls)
        invariant polls == |started| - |old(started)|
        decreases if polls < |added| then |added| - polls else 0, |taskQueue|, task != None
      {
        var done := task.value;
        ghost var ran, waiting := started, taskQueue;
        task := RunLast(done, More(added, polls));
        DrainStep(ran, done, waiting, base, added, polls, Optional(task), taskQueue);
        polls := polls + 1;
      }
    }

    /** One turn of the drain: the tick is taken and the task run, others add tasks, the queue is
        polled again. */
    method RunLast(task: Task, more: seq<Task>) returns (next: Option<Task>)
      modifies this
      ensures started == old(started) + [task]
      ensures Optional(next) + taskQueue == old(taskQueue) + more && (next == None ==> taskQueue == [])
    {
      taskQueue := taskQueue + more;
      started := started + [task];
      next := GetTaskNow();
    }
  }

  function More(added: seq<seq<Task>>, n: nat): seq<Task> {
    if n < |added| then added[n] else []
  }

  /** Between two polls: started, held and queued tasks are all that was queued so far, in order. */
  ghost predicate InOrder(started: seq<Task>, held: seq<Task>, queue: seq<Task>,
                           base: seq<Task>, added: seq<seq<Task>>, polls: nat)
  {
    started + held + queue == base + Flatten(Upto(added, polls)) && (held == [] ==> queue == [])
  }

  lemma DrainStep(started: seq<Task>, done: Task, queue: seq<Task>, base: seq<Task>, added: seq<seq<Task>>, polls: nat,
                  held: seq<Task>, queue': seq<Task>)
    requires InOrder(started, [done], queue, base, added, polls)
    requires held + queue' == queue + More(added, polls) && (held == [] ==> queue' == [])
    ensures InOrder(started + [done], held, queue', base, added, polls + 1)
  {
    FlattenUpto(base, added, polls);
    assert started + [done] + held + queue' == started + [done] + (held + queue');
    assert started + [done] + (queue + More(added, polls)) == started + [done] + queue + More(added, polls);
  }

  function Optional(task: Option<Task>): seq<Task> {
    if task == None then [] else [task.value]
  }

  /** The first n elements, or all if there are fewer. */
  function Upto<T>(xs: seq<T>, n: nat): seq<T> {
    if n < |xs| then xs[..n] else xs
  }

  function Flatten(xs: seq<seq<Task>>): seq<Task> {
    if xs == [] then [] else Flatten(xs[..|xs| - 1]) + xs[|xs| - 1]
  }

  lemma FlattenUpto(base: seq<Task>, xs: seq<seq<Task>>, n: nat)
    ensures base + Flatten(Upto(xs, n + 1)) == base + Flatten(Upto(xs, n)) + More(xs, n)
  {
    if n < |xs| {
      assert Upto(xs, n + 1)[..n] == xs[..n];
      assert Upto(xs, n + 1) == xs[..n] + [xs[n]];
      assert Upto(xs, n) == xs[..n];
    }
  }

  // ---- order, loss and capacity ------------------------------------------------------

  ghost function Held(s: State): seq<Task> {
    if s.phase.Holding? || s.phase.DrainHolding? then [s.phase.task] else []
  }

  ghost predicate Ordered(s: State) {
    && s.added == s.dispatched + Held(s) + s.queue
    && |s.queue| <= QUEUE_SIZE
    && (s.phase.Holding? || s.phase.Draining? || s.phase.DrainHolding? || s.phase.Stopped? ==> s.limited)
  }

  lemma StepOrdered(s: State, step: Step)
    requires Ordered(s) && Enabled(s, step)
    ensures Ordered(Next(s, step))
  {
    var s' := Next(s, step);
    assert s'.added == s'.dispatched + Held(s') + s'.queue;
  }

  lemma {:induction false} RunOrdered(s: State, run: seq<Step>)
    requires Ordered(s) && ValidRun(s, run)
    ensures Ordered(After(s, run))
    decreases |run|
  {
    if run == [] {
    } else {
      StepOrdered(s, run[0]);
      RunOrdered(Next(s, run[0]), run[1..]);
    }
  }

  /** Dispatched tasks are always a prefix of the tasks added, at most 8192 wait, and nothing
      is lost or repeated on the way. */
  lemma FifoNoLoss(limited: bool, run: seq<Step>)
    requires ValidRun(Start(limited), run)
    ensures var s := After(Start(limited), run);
            && s.dispatched <= s.added
            && s.added == s.dispatched + Held(s) + s.queue
            && |s.queue| <= 8192
  {
    RunOrdered(Start(limited), run);
  }

  /** The tasks a run adds, in order. */
  ghost function AddedIn(run: seq<Step>): seq<Task> {
    if run == [] then [] else (if run[0].AddTask? then [run[0].task] else []) + AddedIn(run[1..])
  }

  lemma {:induction false} AddedOverRun(s: State, run: seq<Step>)
    requires ValidRun(s, run)
    ensures After(s, run).added == s.added + AddedIn(run)
    decreases |run|
  {
    if run == [] {
    } else {
      var next := Next(s, run[0]);
      AddedOverRun(next, run[1..]);
      var first := if run[0].AddTask? then [run[0].task] else [];
      assert next.added == s.added + first;
      assert s.added + first + AddedIn(run[1..]) == s.added + (first + AddedIn(run[1..]));
    }
  }

  lemma {:induction false} StoppedStays(s: State, run: seq<Step>)
    requires ValidRun(s, run) && s.phase.Stopped?
    ensures DrainPoll !in run
    ensures After(s, run).phase.Stopped? && After(s, run).dispatched == s.dispatched
    decreases |run|
  {
    if run == [] {
    } else {
      StoppedStays(Next(s, run[0]), run[1..]);
      assert run == [run[0]] + run[1..];
    }
  }

  /** Step k of a run is the poll that found the queue empty. */
  ghost predicate EmptyPoll(s: State, run: seq<Step>, k: nat) {
    && k < |run| && run[k] == DrainPoll && ValidRun(s, run) && ValidRun(s, run[..k])
    && After(s, run[..k]).phase.Draining? && After(s, run[..k]).queue == []
    && ValidRun(Next(After(s, run[..k]), DrainPoll), run[k + 1..])
    && After(s, run) == After(Next(After(s, run[..k]), DrainPoll), run[k + 1..])
  }

  lemma {:induction false} StoppedByPoll(s: State, run: seq<Step>) returns (k: nat)
    requires ValidRun(s, run) && !s.phase.Stopped? && After(s, run).phase.Stopped?
    ensures EmptyPoll(s, run, k)
    decreases |run|
  {
    var next := Next(s, run[0]);
    if next.phase.Stopped? {
      k := 0;
      assert run[..0] == [] && run[0 + 1..] == run[1..];
    } else {
      var j := StoppedByPoll(next, run[1..]);
      k := j + 1;
      assert run[..k][1..] == run[1..][..j] && run[k + 1..] == run[1..][j + 1..];
    }
  }

  /** Stop is reached in limited mode only and after cancellation, by the last poll of the drain; what
      was added before that poll has then been dispatched, in order, and what was added after it is
      still queued. */
  lemma {:induction false} StopMeansDrained(limited: bool, run: seq<Step>)
    requires ValidRun(Start(limited), run) && After(Start(limited), run).phase.Stopped?
    ensures limited
    ensures exists k :: 0 <= k < |run| && run[k] == DrainPoll && DrainPoll !in run[k + 1..] && Cancel in run[..k]
                        && After(Start(limited), run).dispatched == AddedIn(run[..k])
                        && After(Start(limited), run).queue == AddedIn(run[k + 1..])
  {
    var k := StoppedByPoll(Start(limited), run);
    LimitedKept(Start(limited), run);
    RunOrdered(Start(limited), run);
    BeforePoll(limited, run, k);
    AfterPoll(limited, run, k);
  }

  lemma BeforePoll(limited: bool, run: seq<Step>, k: nat)
    requires EmptyPoll(Start(limited), run, k)
    ensures Cancel in run[..k] && After(Start(limited), run[..k]).dispatched == AddedIn(run[..k])
  {
    var start := Start(limited);
    RunOrdered(start, run[..k]);
    NothingHeld(After(start, run[..k]));
    AddedOverRun(start, run[..k]);
    CancelledBeforeDrain(start, run[..k]);
    var atPoll := After(start, run[..k]);
    assert atPoll.dispatched + [] == atPoll.dispatched && [] + AddedIn(run[..k]) == AddedIn(run[..k]);
  }

  lemma AfterPoll(limited: bool, run: seq<Step>, k: nat)
    requires EmptyPoll(Start(limited), run, k)
    ensures DrainPoll !in run[k + 1..]
    ensures After(Start(limited), run).dispatched == After(Start(limited), run[..k]).dispatched
    ensures After(Start(limited), run).queue == AddedIn(run[k + 1..])
  {
    var start := Start(limited);
    var atPoll, e := After(start, run[..k]), After(start, run);
    RunOrdered(start, run[..k]);
    NothingHeld(atPoll);
    StoppedStays(Next(atPoll, DrainPoll), run[k + 1..]);
    RunOrdered(start, run);
    NothingHeld(e);
    AddedOverRun(Next(atPoll, DrainPoll), run[k + 1..]);
    SameTail(e.dispatched, e.queue, AddedIn(run[k + 1..]));
  }

  lemma NothingHeld(s: State)
    requires Ordered(s) && (s.phase.Draining? || s.phase.Stopped?)
    ensures s.added == s.dispatched + s.queue
  {
    assert s.dispatched + [] == s.dispatched;
  }

  lemma SameTail(xs: seq<Task>, ys: seq<Task>, zs: seq<Task>)
    ensures xs + ys == xs + zs <==> ys == zs
  {
    assert (xs + ys)[|xs|..] == ys && (xs + zs)[|xs|..] == zs;
  }

  /** The scheduler leaves its loop only after cancellation. */
  ghost predicate LeftLoop(s: State) {
    s.phase.Draining? || s.phase.DrainHolding? || s.phase.Ranging? || s.phase.Stopped?
  }

  lemma {:induction false} CancelledBeforeDrain(s: State, run: seq<Step>)
    requires ValidRun(s, run) && LeftLoop(After(s, run)) && !LeftLoop(s) && !s.cancelled
    ensures Cancel in run
    decreases |run|
  {
    if run[0] == Cancel {
    } else {
      CancelledBeforeDrain(Next(s, run[0]), run[1..]);
      assert run == [run[0]] + run[1..];
    }
  }

  lemma {:induction false} LimitedKept(s: State, run: seq<Step>)
    requires ValidRun(s, run)
    ensures After(s, run).limited == s.limited
    decreases |run|
  {
    if run == [] {
    } else {
      LimitedKept(Next(s, run[0]), run[1..]);
    }
  }

  ghost predicate Stops(limited: bool, run: seq<Step>) {
    ValidRun(Start(limited), run) && After(Start(limited), run).phase.Stopped?
  }

  /** In limited mode a stopped scheduler is always reachable; in unlimited mode never: the
      range over the queue does not end because nobody closes the channel. */
  lemma StopReachableIff(limited: bool)
    ensures (exists run :: Stops(limited, run)) <==> limited
  {
    if limited {
      var s := Start(limited);
      var run := [Cancel, SeeCancel, DrainPoll];
      assert run[1..] == [SeeCancel, DrainPoll] && run[1..][1..] == [DrainPoll] && run[1..][1..][1..] == [];
      var s1 := Next(s, Cancel);
      var s2 := Next(s1, SeeCancel);
      var s3 := Next(s2, DrainPoll);
      assert ValidRun(s3, []) && After(s3, []) == s3;
      assert ValidRun(s2, [DrainPoll]) && After(s2, [DrainPoll]) == s3;
      assert ValidRun(s1, [SeeCancel, DrainPoll]) && After(s1, [SeeCancel, DrainPoll]) == s3;
      assert Stops(limited, run);
    } else {
      forall run | ValidRun(Start(limited), run) ensures !Stops(limited, run) {
        if Stops(limited, run) {
          StopMeansDrained(limited, run);
        }
      }
    }
  }

  /** What the scheduler does next towards Stop, whoever else may act in between. */
  function Onward(s: State): Step {
    match s.phase
    case Looping => if s.cancelled then SeeCancel else Cancel
    case Holding(_) => if s.tick then Dispatch else Fire
    case Draining => DrainPoll
    case DrainHolding(_) => if s.tick then Dispatch else Fire
    case Ranging => Cancel
    case Stopped => Cancel
  }

  function Distance(s: State): nat {
    3 * |s.queue| +
    match s.phase
    case Looping => if s.cancelled then 2 else 3
    case Holding(_) => if s.tick then 4 else 5
    case Draining => 1
    case DrainHolding(_) => if s.tick then 2 else 3
    case Ranging => 0
    case Stopped => 0
  }

  lemma OnwardStep(s: State)
    requires s.limited && !s.phase.Ranging? && !s.phase.Stopped?
    ensures Enabled(s, Onward(s))
    ensures var next := Next(s, Onward(s));
            Distance(next) < Distance(s) && next.limited && !next.phase.Ranging? && next.added == s.added
  {
  }

  /** In limited mode Stop stays within reach: from every state of every run the scheduler can go on,
      nobody adding, until everything added has been dispatched and it stops. */
  lemma {:induction false} CanStop(s: State) returns (run: seq<Step>)
    requires s.limited && !s.phase.Ranging? && Ordered(s)
    requires s.phase.Stopped? ==> s.queue == []
    ensures ValidRun(s, run) && After(s, run).phase.Stopped?
    ensures After(s, run).dispatched == s.added
    decreases Distance(s)
  {
    if s.phase.Stopped? {
      run := [];
    } else {
      var step := Onward(s);
      OnwardStep(s);
      StepOrdered(s, step);
      if Next(s, step).phase.Stopped? {
        run := [step];
        assert After(s, run) == After(Next(s, step), []);
      } else {
        var rest := CanStop(Next(s, step));
        run := [step] + rest;
        assert run[1..] == rest;
      }
    }
  }

  // ---- rate --------------------------------------------------------------------------

  ghost function Waiting(s: State): nat {
    if s.tick then 1 else 0
  }

  lemma {:induction false} TicksSpent(s: State, run: seq<Step>)
    requires s.limited && !s.phase.Ranging? && ValidRun(s, run)
    ensures var e := After(s, run);
            |e.dispatched| - |s.dispatched| + Waiting(e) <= e.fires - s.fires + Waiting(s)
    decreases |run|
  {
    if run == [] {
    } else {
      TicksSpent(Next(s, run[0]), run[1..]);
    }
  }

  /** In limited mode any stretch of a run in which the ticker fires m times dispatches at most
      m + 1 tasks, whether it lies in the loop, in the drain or across the switch. */
  lemma RateBound(before: seq<Step>, stretch: seq<Step>)
    requires ValidRun(Start(true), before) && ValidRun(After(Start(true), before), stretch)
    ensures var s := After(Start(true), before);
            var e := After(s, stretch);
            |e.dispatched| - |s.dispatched| <= e.fires - s.fires + 1
  {
    var s := After(Start(true), before);
    LimitedKept(Start(true), before);
    NotRanging(Start(true), before);
    TicksSpent(s, stretch);
  }

  lemma {:induction false} NotRanging(s: State, run: seq<Step>)
    requires s.limited && !s.phase.Ranging? && ValidRun(s, run)
    ensures !After(s, run).phase.Ranging?
    decreases |run|
  {
    if run == [] {
    } else {
      NotRanging(Next(s, run[0]), run[1..]);
    }
  }

  /** The bound is reached in a run from the start: after a tick nobody wanted, one fire lets
      two tasks through. */
  lemma RateBoundTight(a: Task, b: Task) returns (before: seq<Step>, stretch: seq<Step>)
    ensures ValidRun(Start(true), before) && ValidRun(After(Start(true), before), stretch)
    ensures var s := After(Start(true), before);
            var e := After(s, stretch);
            |e.dispatched| - |s.dispatched| == e.fires - s.fires + 1 == 2
  {
    before := [AddTask(a)] + ([AddTask(b)] + ([Fire] + []));
    var s1 := Next(Start(true), AddTask(a));
    var s2 := Next(s1, AddTask(b));
    var s := Next(s2, Fire);
    First(s2, Fire, []);
    First(s1, AddTask(b), [Fire] + []);
    First(Start(true), AddTask(a), [AddTask(b)] + ([Fire] + []));
    assert s == State(true, Looping, [a, b], true, false, [a, b], [], 1);
    var tail := [Take] + ([Dispatch] + []);
    stretch := [Take] + ([Dispatch] + ([Fire] + tail));
    var s3 := Next(s, Take);
    assert s3.queue == [b];
    var s4 := Next(s3, Dispatch);
    var s5 := Next(s4, Fire);
    var s6 := Next(s5, Take);
    First(s6, Dispatch, []);
    First(s5, Take, [Dispatch] + []);
    First(s4, Fire, tail);
    First(s3, Dispatch, [Fire] + tail);
    First(s, Take, [Dispatch] + ([Fire] + tail));
  }

  lemma First(s: State, step: Step, rest: seq<Step>)
    requires Enabled(s, step) && ValidRun(Next(s, step), rest)
    ensures ValidRun(s, [step] + rest) && After(s, [step] + rest) == After(Next(s, step), rest)
  {
    assert ([step] + rest)[1..] == rest;
  }
}
