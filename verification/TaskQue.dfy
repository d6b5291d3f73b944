/** The client's task queue: worker threads that wait on a condition variable, callers that
    add tasks, and closing, which waits for the workers. One step is what happens under one
    hold of the mutex, one notification, one task, or one join.
 */
module TaskQue {

  datatype Worker =
    | Testing               // about to look at the queue under the mutex
    | Asleep                // in the condition variable
    | Running(task: nat)
    | Exited

  /** The thread whose call of close came first. */
  datatype Closer = Idle | NotifyingAll | Joining(k: nat) | Returned

  /** accepted, started, finished: the tasks in the order of these events. toNotify: callers
      that have added a task and are still to notify.
   */
  datatype State = State(queue: seq<nat>, isClose: bool, workers: seq<Worker>, toNotify: nat, closer: Closer,
                         accepted: seq<nat>, started: seq<nat>, finished: seq<nat>)

  datatype Action =
    | Add(task: nat)        // the first half of addTask; refused once closed
    | NotifyOne(w: nat)     // its second half; w is the worker that happens to be woken
    | Spurious(w: nat)      // a wakeup without a notification
    | Work(w: nat)
    | BeginClose            // a call of close; returns at once if there was one before
    | NotifyAll
    | Join

  function Init(n: nat): State {
    State([], false, seq(n, _ => Testing), 0, Idle, [], [], [])
  }

  predicate SomeAsleep(workers: seq<Worker>) {
    exists w :: 0 <= w < |workers| && workers[w].Asleep?
  }

  function AllAwake(workers: seq<Worker>): (r: seq<Worker>)
    ensures |r| == |workers|
    ensures forall w :: 0 <= w < |r| ==> r[w] == if workers[w].Asleep? then Testing else workers[w]
  {
    seq(|workers|, w requires 0 <= w < |workers| => if workers[w].Asleep? then Testing else workers[w])
  }

  function WorkStep(s: State, w: nat): State
    requires w < |s.workers|
  {
    match s.workers[w]
    case Testing =>
      if s.queue != [] then
        s.(queue := s.queue[1..], started := s.started + [s.queue[0]], workers := s.workers[w := Running(s.queue[0])])
      else
        s.(workers := s.workers[w := if s.isClose then Exited else Asleep])
    case Running(task) => s.(finished := s.finished + [task], workers := s.workers[w := Testing])
    case _ => s
  }

  function Step(s: State, a: Action): State {
    match a
    case Add(task) =>
      if s.isClose then s
      else s.(queue := s.queue + [task], accepted := s.accepted + [task], toNotify := s.toNotify + 1)
    case NotifyOne(w) =>
      if s.toNotify == 0 then s
      else if w < |s.workers| && s.workers[w].Asleep? then s.(toNotify := s.toNotify - 1, workers := s.workers[w := Testing])
      else if SomeAsleep(s.workers) then s
      else s.(toNotify := s.toNotify - 1)
    case Spurious(w) =>
      if w < |s.workers| && s.workers[w].Asleep? then s.(workers := s.workers[w := Testing]) else s
    case Work(w) => if w < |s.workers| then WorkStep(s, w) else s
    case BeginClose => if s.isClose then s else s.(isClose := true, closer := NotifyingAll)
    case NotifyAll => if s.closer.NotifyingAll? then s.(workers := AllAwake(s.workers), closer := Joining(0)) else s
    case Join =>
      if !s.closer.Joining? then s
      else if s.closer.k >= |s.workers| then s.(closer := Returned)
      else if s.workers[s.closer.k].Exited? then s.(closer := Joining(s.closer.k + 1))
      else s
  }

  function Run(s: State, schedule: seq<Action>): State
    decreases |schedule|
  {
    if schedule == [] then s else Run(Step(s, schedule[0]), schedule[1..])
  }

  // ---------- the steps as the threads perform them ----------

  class TaskQue {
    var taskQueue: seq<nat>
    var isClose: bool
    var threads: seq<Worker>
    var toNotify: nat
    var closer: Closer
    ghost var accepted: seq<nat>
    ghost var started: seq<nat>
    ghost var finished: seq<nat>

    ghost function Abs(): State
      reads this
    {
      State(taskQueue, isClose, threads, toNotify, closer, accepted, started, finished)
    }

    constructor (threadCount: nat)
      ensures Abs() == Init(threadCount)
    {
      taskQueue, isClose, threads, toNotify, closer := [], false, seq(threadCount, _ => Testing), 0, Idle;
      accepted, started, finished := [], [], [];
    }

    /** Puts the task last in the queue, with a notification to come, or refuses it, exactly if
        the queue is closed.
     */
    method AddTask(task: nat) returns (ok: bool)
      modifies this
      ensures ok <==> !old(isClose)
      ensures ok ==> taskQueue == old(taskQueue) + [task] && accepted == old(accepted) + [task]
      ensures ok ==> toNotify == old(toNotify) + 1
      ensures !ok ==> Abs() == old(Abs())
      ensures Abs() == Step(old(Abs()), Add(task))
    {
      if isClose {
        return false;
      }
      taskQueue := taskQueue + [task];
      accepted := accepted + [task];
      toNotify := toNotify + 1;
      ok := true;
    }

    /** The notification that ends AddTask. It wakes one sleeping thread, w, if there is any. */
    method Notify(w: nat)
      requires toNotify > 0 && (SomeAsleep(threads) ==> w < |threads| && threads[w].Asleep?)
      modifies this
      ensures Abs() == Step(old(Abs()), NotifyOne(w))
    {
      if w < |threads| && threads[w].Asleep? {
        threads := threads[w := Testing];
      }
      toNotify := toNotify - 1;
    }

    /** One round of the worker loop, up to where the thread lets go of the mutex. */
    method Doing(w: nat)
      requires w < |threads|
      modifies this
      ensures Abs() == Step(old(Abs()), Work(w))
    {
      match threads[w] {
        case Testing =>
          if !isClose && taskQueue == [] {
            threads := threads[w := Asleep];
          } else if isClose && taskQueue == [] {
            threads := threads[w := Exited];
          } else {
            var task := taskQueue[0];
            taskQueue := taskQueue[1..];
            started := started + [task];
            threads := threads[w := Running(task)];
          }
        case Running(task) =>
          finished := finished + [task];
          threads := threads[w := Testing];
        case _ =>
      }
    }

    /** What close does under the mutex. */
    method Close() returns (first: bool)
      modifies this
      ensures first <==> !old(isClose)
      ensures Abs() == Step(old(Abs()), BeginClose)
    {
      if isClose {
        return false;
      }
      isClose := true;
      closer := NotifyingAll;
      first := true;
    }

    /** Wakes all sleeping threads. */
    method WakeAll()
      requires closer.NotifyingAll?
      modifies this
      ensures Abs() == Step(old(Abs()), NotifyAll)
    {
      var i := 0;
      while i < |threads|
        modifies this`threads
        invariant 0 <= i <= |threads| == |old(threads)|
        invariant forall w :: 0 <= w < |threads| ==>
                    threads[w] == if w < i && old(threads)[w].Asleep? then Testing else old(threads)[w]
      {
        if threads[i].Asleep? {
          threads := threads[i := Testing];
        }
        i := i + 1;
      }
      closer := Joining(0);
      assert threads == AllAwake(old(threads));
    }

    /** The closing loop: goes on to the next thread once this one has exited. */
    method JoinNext()
      requires closer.Joining?
      modifies this
      ensures Abs() == Step(old(Abs()), Join)
    {
      if closer.k >= |threads| {
        closer := Returned;
      } else if threads[closer.k].Exited? {
        closer := Joining(closer.k + 1);
      }
    }
  }

  // ---------- sums over the workers ----------

  function Sum(workers: seq<Worker>, f: Worker -> nat): nat {
    if workers == [] then 0 else Sum(workers[..|workers| - 1], f) + f(workers[|workers| - 1])
  }

  lemma {:induction false} SumUpdate(workers: seq<Worker>, f: Worker -> nat, w: nat, now: Worker)
    requires w < |workers|
    ensures Sum(workers[w := now], f) + f(workers[w]) == Sum(workers, f) + f(now)
    decreases |workers|
  {
    var last := |workers| - 1;
    if w < last {
      SumUpdate(workers[..last], f, w, now);
      assert workers[w := now][..last] == workers[..last][w := now];
    } else {
      assert workers[w := now][..last] == workers[..last];
    }
  }

  lemma {:induction false} SumAwake(workers: seq<Worker>, f: Worker -> nat, d: nat)
    requires d <= 1 && f(Testing) == f(Asleep) + d
    ensures Sum(workers, f) <= Sum(AllAwake(workers), f) <= Sum(workers, f) + if d == 0 then 0 else |workers|
    decreases |workers|
  {
    if workers != [] {
      var last := |workers| - 1;
      var awake := AllAwake(workers);
      SumAwake(workers[..last], f, d);
      assert awake[..last] == AllAwake(workers[..last]);
      assert f(workers[last]) <= f(awake[last]) <= f(workers[last]) + d;
    }
  }

  lemma {:induction false} SumZero(workers: seq<Worker>, f: Worker -> nat)
    requires forall w :: 0 <= w < |workers| ==> f(workers[w]) == 0
    ensures Sum(workers, f) == 0
    decreases |workers|
  {
    if workers != [] { SumZero(workers[..|workers| - 1], f); }
  }

  function IsTesting(w: Worker): nat {
    if w.Testing? then 1 else 0
  }

  /** How many workers are about to look at the queue. */
  function Awake(workers: seq<Worker>): nat {
    Sum(workers, IsTesting)
  }

  function IsRunning(task: nat): Worker -> nat {
    w => if w == Running(task) then 1 else 0
  }

  /** How many workers are running the task. */
  function InHand(workers: seq<Worker>, task: nat): nat {
    Sum(workers, IsRunning(task))
  }

  // ---------- the invariant ----------

  /** Tasks are started in the order in which they were accepted. */
  ghost predicate OrderInv(s: State) {
    s.accepted == s.started + s.queue
  }

  /** Every task that was started has either finished or is in the hand of one worker. */
  ghost predicate TasksInv(s: State) {
    forall t :: multiset(s.started)[t] == multiset(s.finished)[t] + InHand(s.workers, t)
  }

  /** While a worker sleeps, every queued task has a worker about to look at the queue or a
      notification still to come.
   */
  ghost predicate WakeInv(s: State) {
    SomeAsleep(s.workers) && !s.closer.NotifyingAll? ==> |s.queue| <= s.toNotify + Awake(s.workers)
  }

  ghost predicate CloseInv(s: State) {
    && (s.isClose <==> !s.closer.Idle?)
    && (s.isClose && !s.closer.NotifyingAll? ==> !SomeAsleep(s.workers))
    && (forall w :: 0 <= w < |s.workers| && s.workers[w].Exited? ==> s.isClose && s.queue == [])
    && (s.closer.Joining? ==> s.closer.k <= |s.workers| && forall w :: 0 <= w < s.closer.k ==> s.workers[w].Exited?)
    && (s.closer.Returned? ==> forall w :: 0 <= w < |s.workers| ==> s.workers[w].Exited?)
  }

  ghost predicate Inv(s: State) {
    OrderInv(s) && TasksInv(s) && WakeInv(s) && CloseInv(s)
  }

  lemma InitInv(n: nat)
    ensures Inv(Init(n))
  {
    forall t ensures InHand(Init(n).workers, t) == 0 { SumZero(Init(n).workers, IsRunning(t)); }
  }

  lemma OrderStep(s: State, a: Action)
    requires OrderInv(s)
    ensures OrderInv(Step(s, a))
  {
    if a.Work? && a.w < |s.workers| && s.workers[a.w].Testing? && s.queue != [] {
      assert s.queue == [s.queue[0]] + s.queue[1..];
    }
  }

  lemma OneMore(tasks: seq<nat>, x: nat, t: nat)
    ensures multiset(tasks + [x])[t] == multiset(tasks)[t] + IsRunning(t)(Running(x))
  {
  }

  /** A worker takes a task from the queue, puts one down, or does neither. */
  lemma WorkCounted(s: State, w: nat, t: nat)
    requires w < |s.workers|
    ensures var s' := WorkStep(s, w);
            multiset(s'.started)[t] - multiset(s.started)[t]
            == multiset(s'.finished)[t] - multiset(s.finished)[t] + InHand(s'.workers, t) - InHand(s.workers, t)
  {
    var s' := WorkStep(s, w);
    SumUpdate(s.workers, IsRunning(t), w, s'.workers[w]);
    assert s'.workers == s.workers[w := s'.workers[w]];
    if s.workers[w].Running? {
      OneMore(s.finished, s.workers[w].task, t);
    } else if s.workers[w].Testing? && s.queue != [] {
      OneMore(s.started, s.queue[0], t);
    }
  }

  lemma TaskCounted(s: State, a: Action, t: nat)
    requires multiset(s.started)[t] == multiset(s.finished)[t] + InHand(s.workers, t)
    ensures var s' := Step(s, a); multiset(s'.started)[t] == multiset(s'.finished)[t] + InHand(s'.workers, t)
  {
    var s' := Step(s, a);
    if a.Work? {
      if a.w < |s.workers| { WorkCounted(s, a.w, t); }
    } else {
      assert s'.started == s.started && s'.finished == s.finished;
      if s'.workers != s.workers {
        if a.NotifyAll? {
          SumAwake(s.workers, IsRunning(t), 0);
        } else {
          SumUpdate(s.workers, IsRunning(t), a.w, Testing);
        }
      }
    }
  }

  lemma TasksStep(s: State, a: Action)
    requires TasksInv(s)
    ensures TasksInv(Step(s, a))
  {
    var s' := Step(s, a);
    forall t ensures multiset(s'.started)[t] == multiset(s'.finished)[t] + InHand(s'.workers, t) { TaskCounted(s, a, t); }
  }

  lemma WakeStep(s: State, a: Action)
    requires WakeInv(s) && CloseInv(s)
    ensures WakeInv(Step(s, a))
  {
    var s' := Step(s, a);
    if (a.Work? || a.NotifyOne? || a.Spurious?) && a.w < |s.workers| {
      SumUpdate(s.workers, IsTesting, a.w, s'.workers[a.w]);
      assert s'.workers == s.workers[a.w := s'.workers[a.w]];
    }
    if SomeAsleep(s'.workers) && !SomeAsleep(s.workers) {
      assert s'.queue == [];
    }
  }

  lemma CloseStep(s: State, a: Action)
    requires CloseInv(s)
    ensures CloseInv(Step(s, a))
  {
    var s' := Step(s, a);
    if (a.Work? || a.NotifyOne? || a.Spurious?) && a.w < |s.workers| {
      assert s'.workers == s.workers[a.w := s'.workers[a.w]];
    }
  }

  lemma StepInv(s: State, a: Action)
    requires Inv(s)
    ensures Inv(Step(s, a))
  {
    OrderStep(s, a);
    TasksStep(s, a);
    WakeStep(s, a);
    CloseStep(s, a);
  }

  lemma {:induction false} RunInv(s: State, schedule: seq<Action>)
    requires Inv(s)
    ensures Inv(Run(s, schedule))
    decreases |schedule|
  {
    if schedule != [] {
      var first, rest := Step(s, schedule[0]), schedule[1..];
      StepInv(s, schedule[0]);
      RunInv(first, rest);
      assert Run(s, schedule) == Run(first, rest);
    }
  }

  lemma {:induction false} SameWorkers(s: State, schedule: seq<Action>)
    ensures |Run(s, schedule).workers| == |s.workers|
    decreases |schedule|
  {
    if schedule != [] { SameWorkers(Step(s, schedule[0]), schedule[1..]); }
  }

  // ---------- what is asked of the queue ----------

  /** The tasks the callers add before anyone calls close, in order: all of a schedule that
      the callers decide.
   */
  function Submitted(schedule: seq<Action>): seq<nat> {
    if schedule == [] || schedule[0].BeginClose? then []
    else (if schedule[0].Add? then [schedule[0].task] else []) + Submitted(schedule[1..])
  }

  lemma AcceptedStep(s: State, a: Action)
    ensures var s' := Step(s, a);
            && s'.accepted == s.accepted + (if a.Add? && !s.isClose then [a.task] else [])
            && (s'.isClose <==> s.isClose || a.BeginClose?)
  {
  }

  lemma {:induction false} ClosedFrom(s: State, schedule: seq<Action>)
    ensures Run(s, schedule).isClose <==> s.isClose || BeginClose in schedule
    decreases |schedule|
  {
    if schedule != [] {
      var a, rest := schedule[0], schedule[1..];
      assert schedule == [a] + rest;
      AcceptedStep(s, a);
      ClosedFrom(Step(s, a), rest);
    }
  }

  lemma {:induction false} NothingAccepted(s: State, schedule: seq<Action>)
    requires s.isClose
    ensures Run(s, schedule).accepted == s.accepted
    decreases |schedule|
  {
    if schedule != [] {
      AcceptedStep(s, schedule[0]);
      NothingAccepted(Step(s, schedule[0]), schedule[1..]);
    }
  }

  lemma {:induction false} AcceptedFrom(s: State, schedule: seq<Action>)
    requires !s.isClose
    ensures Run(s, schedule).accepted == s.accepted + Submitted(schedule)
    decreases |schedule|
  {
    if schedule != [] {
      var a, rest := schedule[0], schedule[1..];
      AcceptedStep(s, a);
      if a.BeginClose? {
        NothingAccepted(Step(s, a), rest);
      } else {
        AcceptedFrom(Step(s, a), rest);
        var now := if a.Add? then [a.task] else [];
        assert s.accepted + now + Submitted(rest) == s.accepted + (now + Submitted(rest));
      }
    }
  }

  /** Whatever the threads do meanwhile, exactly the tasks added before the first call of close
      are accepted, and the queue is closed exactly if there is such a call.
   */
  lemma AcceptedIsSubmitted(n: nat, schedule: seq<Action>)
    ensures var s := Run(Init(n), schedule);
            s.accepted == Submitted(schedule) && (s.isClose <==> BeginClose in schedule)
  {
    AcceptedFrom(Init(n), schedule);
    ClosedFrom(Init(n), schedule);
  }

  // ---------- what holds over all runs ----------

  /** However the threads interleave, tasks are started in the order they were added: none is
      left out and none comes from elsewhere.
   */
  lemma StartedInOrder(n: nat, schedule: seq<Action>)
    ensures var s := Run(Init(n), schedule);
            && s.started + s.queue == Submitted(schedule)
            && forall t :: multiset(s.finished)[t] <= multiset(s.started)[t]
  {
    InitInv(n);
    RunInv(Init(n), schedule);
    AcceptedIsSubmitted(n, schedule);
  }

  /** No wakeup is lost: while a worker sleeps, every queued task has a worker about to look
      or a notification still to come; and once closing has notified, nobody sleeps.
   */
  lemma NoLostWakeup(n: nat, schedule: seq<Action>)
    ensures var s := Run(Init(n), schedule);
            && (SomeAsleep(s.workers) && !s.isClose ==> |s.queue| <= s.toNotify + Awake(s.workers))
            && (SomeAsleep(s.workers) && s.isClose ==> s.closer.NotifyingAll?)
  {
    InitInv(n);
    RunInv(Init(n), schedule);
  }

  lemma AllFinished(s: State)
    requires TasksInv(s) && forall w :: 0 <= w < |s.workers| ==> !s.workers[w].Running?
    ensures multiset(s.finished) == multiset(s.started)
  {
    forall t ensures multiset(s.finished)[t] == multiset(s.started)[t] { SumZero(s.workers, IsRunning(t)); }
  }

  /** When the first close returns, every task added before it has run exactly once, and no
      other has run, exactly if there is a worker or no task was added.
   */
  lemma CloseWaitsForAllIff(n: nat, schedule: seq<Action>)
    requires Run(Init(n), schedule).closer.Returned?
    ensures multiset(Run(Init(n), schedule).finished) == multiset(Submitted(schedule)) <==> n > 0 || Submitted(schedule) == []
  {
    var s := Run(Init(n), schedule);
    AcceptedIsSubmitted(n, schedule);
    InitInv(n);
    RunInv(Init(n), schedule);
    SameWorkers(Init(n), schedule);
    AllFinished(s);
    if n > 0 {
      assert s.workers[0].Exited?;
      assert s.accepted == s.started;
    } else if multiset(s.finished) == multiset(s.accepted) {
      NeverStarted(s, schedule, n);
      assert |multiset(s.accepted)| == |s.accepted|;
    }
  }

  lemma NeverStarted(s: State, schedule: seq<Action>, n: nat)
    requires n == 0 && s == Run(Init(n), schedule)
    ensures s.finished == []
  {
    RunWithout(Init(n), schedule);
  }

  lemma {:induction false} RunWithout(s: State, schedule: seq<Action>)
    requires s.workers == []
    ensures Run(s, schedule).finished == s.finished
    decreases |schedule|
  {
    if schedule != [] { RunWithout(Step(s, schedule[0]), schedule[1..]); }
  }

  // ---------- progress ----------

  /** A step of the queue's own threads, or the second half of a call. */
  predicate Internal(a: Action) {
    a.NotifyOne? || a.Work? || a.NotifyAll? || a.Join?
  }

  function Rank(w: Worker): nat {
    match w
    case Running(_) => 3
    case Testing => 2
    case Asleep => 1
    case Exited => 0
  }

  function Left(s: State): nat {
    4 * |s.queue| + 3 * s.toNotify + Sum(s.workers, Rank) +
    match s.closer
    case Idle => 0
    case NotifyingAll => 2 * |s.workers| + 2
    case Joining(k) => if k <= |s.workers| then |s.workers| - k + 1 else 0
    case Returned => 0
  }

  lemma WorkEnds(s: State, w: nat)
    requires w < |s.workers| && WorkStep(s, w) != s
    ensures Left(WorkStep(s, w)) < Left(s)
  {
    var s' := WorkStep(s, w);
    SumUpdate(s.workers, Rank, w, s'.workers[w]);
    assert s'.workers == s.workers[w := s'.workers[w]];
  }

  /** Internal steps use up what is left to do, so there are only finitely many of them. */
  lemma InternalStepsEnd(s: State, a: Action)
    requires CloseInv(s) && Internal(a) && Step(s, a) != s
    ensures Left(Step(s, a)) < Left(s)
  {
    var s' := Step(s, a);
    match a
    case Work(w) => WorkEnds(s, w);
    case NotifyOne(w) =>
      if s'.workers != s.workers { SumUpdate(s.workers, Rank, w, Testing); }
    case NotifyAll =>
      SumAwake(s.workers, Rank, 1);
    case Join =>
  }

  lemma Moves(s: State, w: nat)
    requires w < |s.workers|
    ensures Step(s, Work(w)) == s ==> s.workers[w].Asleep? || s.workers[w].Exited?
  {
    assert s.workers[w].Testing? || s.workers[w].Running? ==> WorkStep(s, w).workers[w] != s.workers[w];
  }

  ghost predicate AtRest(s: State) {
    forall a :: Internal(a) ==> Step(s, a) == s
  }

  /** No deadlock: where no internal step is possible, every task has been taken and run (if
      there is a worker at all), and the first close, if there was one, has returned.
   */
  lemma RestIsDone(s: State)
    requires Inv(s) && AtRest(s)
    ensures |s.workers| > 0 ==> s.queue == [] && multiset(s.finished) == multiset(s.accepted)
    ensures s.isClose ==> s.closer.Returned?
  {
    forall w | 0 <= w < |s.workers| ensures s.workers[w].Asleep? || s.workers[w].Exited? {
      var a := Work(w);
      assert Internal(a) && Step(s, a) == s;
      Moves(s, w);
    }
    SumZero(s.workers, IsTesting);
    AllFinished(s);
    assert Internal(NotifyAll) && Internal(Join);
    assert !s.closer.NotifyingAll? by { assert Step(s, NotifyAll) == s; }
    if s.isClose {
      assert Step(s, Join) == s;
    } else if |s.workers| > 0 {
      assert s.workers[0].Asleep?;
      assert Internal(NotifyOne(0)) && Step(s, NotifyOne(0)) == s;
      assert s.toNotify == 0;
    }
  }

  /** Over runs: when nothing internal can happen any more, with a worker every task added
      before the first close has run exactly once, and a close that was called has returned.
   */
  lemma NoDeadlock(n: nat, schedule: seq<Action>)
    requires AtRest(Run(Init(n), schedule))
    ensures n > 0 ==> multiset(Run(Init(n), schedule).finished) == multiset(Submitted(schedule))
    ensures BeginClose in schedule ==> Run(Init(n), schedule).closer.Returned?
  {
    InitInv(n);
    RunInv(Init(n), schedule);
    SameWorkers(Init(n), schedule);
    AcceptedIsSubmitted(n, schedule);
    RestIsDone(Run(Init(n), schedule));
  }

  /** And the queue's threads can always get there by themselves. */
  lemma {:induction false} ComesToRest(s: State) returns (more: seq<Action>)
    requires Inv(s)
    ensures (forall a :: a in more ==> Internal(a)) && AtRest(Run(s, more))
    decreases Left(s)
  {
    if AtRest(s) {
      more := [];
    } else {
      var a :| Internal(a) && Step(s, a) != s;
      InternalStepsEnd(s, a);
      StepInv(s, a);
      var rest := ComesToRest(Step(s, a));
      more := [a] + rest;
      assert more[1..] == rest;
    }
  }
}
