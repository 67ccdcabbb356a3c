/**
 The single-worker scheduler: any number of threads schedule tasks, one executor thread
 starts them, completion events arrive on any thread and any number of times.
 A synchronized block is one atomic step; a wait splits the executor's block in two.
 */
module TaskScheduling {
  import opened Sequences

  type Task = nat

  datatype Executor =
    | LoopTest        // about to read mustStop
    | Entering        // mustStop was false; about to take the lock
    | Waiting         // inside wait, lock released
    | Woken           // notified (or woken for no reason), about to take the lock again
    | Stopped

  datatype Disposer = NotCalled | StopSet | Notified

  datatype State = State(
    queue: seq<Task>,
    workerStarted: bool,
    mustStop: bool,
    executor: Executor,
    disposer: Disposer,
    handled: set<Task>,          // tasks whose event handler is disposed
    submitted: seq<Task>,
    started: seq<Task>,
    removed: seq<Task>,          // results of queue.remove(), in order
    callbacks: seq<(Task, bool)>) // onOK / onFail calls, in order

  datatype Action = Schedule(task: Task) | Event(task: Task, succeeded: bool) | Executor | Spurious | Dispose

  const INITIALLY := State([], false, false, LoopTest, NotCalled, {}, [], [], [], [])

  function NotifyAll(e: Executor): Executor {
    if e.Waiting? then Woken else e
  }

  /** The part of the executor's block after the wait. */
  function Dispatch(s: State): State {
    if s.mustStop then s.(executor := Stopped)
    else if s.workerStarted || s.queue == [] then s.(executor := LoopTest)
    else s.(executor := LoopTest, workerStarted := true, started := s.started + [s.queue[0]])
  }

  function ExecutorStep(s: State): State {
    match s.executor
    case LoopTest => s.(executor := if s.mustStop then Stopped else Entering)
    case Entering => if s.workerStarted || s.queue == [] then s.(executor := Waiting) else Dispatch(s)
    case Woken => Dispatch(s)
    case _ => s
  }

  /** The handler attached when the task was started; queue.remove() takes the head, and would
      throw on an empty queue. */
  function Handle(s: State, task: Task, succeeded: bool): State {
    if s.queue == [] then s.(handled := s.handled + {task})
    else
      s.(handled := s.handled + {task},
         queue := s.queue[1..],
         removed := s.removed + [s.queue[0]],
         workerStarted := false,
         executor := NotifyAll(s.executor),
         callbacks := s.callbacks + [(s.queue[0], succeeded)])
  }

  ghost predicate Inv(s: State) {
    && Distinct(s.submitted)
    && s.submitted == s.removed + s.queue
    && (s.workerStarted ==> s.queue != [])
    && s.started == s.removed + (if s.workerStarted then [s.queue[0]] else [])
    && (forall x :: x in s.handled <==> x in s.removed)
    && |s.callbacks| == |s.removed| && (forall i :: 0 <= i < |s.removed| ==> s.callbacks[i].0 == s.removed[i])
    && (s.executor.Waiting? ==> s.workerStarted || s.queue == [])
    && (s.executor.Stopped? ==> s.mustStop)
    && (s.mustStop <==> !s.disposer.NotCalled?)
  }

  /** An event of a started task whose handler is not disposed is the running task's: the head of the queue. */
  lemma EventIsTheHeads(s: State, task: Task)
    requires Inv(s) && task in s.started && task !in s.handled
    ensures s.workerStarted && s.queue != [] && s.queue[0] == task
  {
  }

  function Step(s: State, a: Action): State {
    match a
    case Schedule(task) =>
      if task in s.submitted then s
      else
        s.(executor := if s.queue == [] then NotifyAll(s.executor) else s.executor,
           queue := s.queue + [task], submitted := s.submitted + [task])
    case Event(task, succeeded) =>
      if task in s.started && task !in s.handled then Handle(s, task, succeeded) else s
    case Executor => ExecutorStep(s)
    case Spurious => if s.executor.Waiting? then s.(executor := Woken) else s
    case Dispose =>
      match s.disposer
      case NotCalled => s.(mustStop := true, disposer := StopSet)
      case StopSet => s.(executor := NotifyAll(s.executor), disposer := Notified)
      case Notified => s
  }

  lemma HandleKeepsInv(s: State, task: Task, succeeded: bool)
    requires Inv(s) && task in s.started && task !in s.handled
    ensures s.queue != [] && Inv(Handle(s, task, succeeded))
  {
    EventIsTheHeads(s, task);
    var s' := Handle(s, task, succeeded);
    assert s.queue == [s.queue[0]] + s.queue[1..];
    assert s'.submitted == s'.removed + s'.queue;
    assert s'.started == s'.removed + [];
  }

  lemma ScheduleKeepsInv(s: State, task: Task)
    requires Inv(s) && task !in s.submitted
    ensures Inv(Step(s, Schedule(task)))
  {
    DistinctParts(s.submitted, [task]);
    assert Step(s, Schedule(task)).submitted == s.removed + (s.queue + [task]);
  }

  lemma ExecutorKeepsInv(s: State)
    requires Inv(s)
    ensures Inv(ExecutorStep(s))
  {
    hide Distinct;
    assert s.removed + [] == s.removed;
  }

  lemma StepKeepsInv(s: State, a: Action)
    requires Inv(s)
    ensures Inv(Step(s, a))
  {
    match a
    case Schedule(task) => if task !in s.submitted { ScheduleKeepsInv(s, task); }
    case Event(task, succeeded) => if task in s.started && task !in s.handled { HandleKeepsInv(s, task, succeeded); }
    case Executor => ExecutorKeepsInv(s);
    case _ => hide Distinct, ExecutorStep, Handle;
  }

  /** A schedule is any interleaving of the threads' steps. */
  ghost function Execution(schedule: seq<Action>): State {
    if schedule == [] then INITIALLY
    else Step(Execution(schedule[..|schedule| - 1]), schedule[|schedule| - 1])
  }

  lemma {:induction false} Reached(schedule: seq<Action>)
    ensures Inv(Execution(schedule))
    decreases |schedule|
  {
    if schedule != [] {
      Reached(schedule[..|schedule| - 1]);
      StepKeepsInv(Execution(schedule[..|schedule| - 1]), schedule[|schedule| - 1]);
    }
  }

  /** The scheduled tasks, each where it occurs first. */
  function FirstOccurrences(schedule: seq<Action>): seq<Task> {
    if schedule == [] then []
    else
      var before, last := FirstOccurrences(schedule[..|schedule| - 1]), schedule[|schedule| - 1];
      if last.Schedule? && last.task !in before then before + [last.task] else before
  }

  lemma StepSubmits(s: State, a: Action)
    ensures Step(s, a).submitted ==
            if a.Schedule? && a.task !in s.submitted then s.submitted + [a.task] else s.submitted
  {
  }

  /** Every scheduled task is submitted, whatever else is queued or running, and no other. */
  lemma {:induction false} SubmittedAsScheduled(schedule: seq<Action>)
    ensures Execution(schedule).submitted == FirstOccurrences(schedule)
    decreases |schedule|
  {
    hide Step;
    if schedule != [] {
      var n := |schedule| - 1;
      SubmittedAsScheduled(schedule[..n]);
      StepSubmits(Execution(schedule[..n]), schedule[n]);
    }
  }

  /** Scheduled tasks are completed or queued, and are started in the order they were scheduled in,
      each once, and one at a time. */
  lemma StartedInOrder(schedule: seq<Action>)
    ensures var s := Execution(schedule);
            && FirstOccurrences(schedule) == s.removed + s.queue
            && s.started <= FirstOccurrences(schedule) && Distinct(s.started)
            && s.removed <= s.started && |s.started| - |s.removed| == (if s.workerStarted then 1 else 0)
            && (s.workerStarted ==> s.queue != [] && s.queue[0] == s.started[|s.removed|])
  {
    hide Execution, Inv;
    Reached(schedule);
    SubmittedAsScheduled(schedule);
    WhatStarted(Execution(schedule));
  }

  lemma WhatStarted(s: State)
    requires Inv(s)
    ensures s.started <= s.submitted && Distinct(s.started) && s.removed <= s.started
    ensures s.submitted == s.removed + s.queue
    ensures |s.started| - |s.removed| == (if s.workerStarted then 1 else 0)
    ensures s.workerStarted ==> s.queue != [] && s.queue[0] == s.started[|s.removed|]
  {
    hide Distinct;
    assert s.started <= s.removed + s.queue;
    DistinctParts(s.started, s.submitted[|s.started|..]);
    assert s.submitted == s.started + s.submitted[|s.started|..];
  }

  /** A completion takes the completed task off the queue and calls it back; repeats do nothing. */
  lemma CompletionsMatch(schedule: seq<Action>, task: Task, succeeded: bool)
    ensures var s := Execution(schedule);
            var s' := Execution(schedule + [Event(task, succeeded)]);
            if task in s.started && task !in s.removed then
              && s'.removed == s.removed + [task]
              && s'.callbacks == s.callbacks + [(task, succeeded)]
              && s.queue == [task] + s'.queue && !s'.workerStarted
            else s' == s
  {
    Reached(schedule);
    var s := Execution(schedule);
    var longer := schedule + [Event(task, succeeded)];
    assert longer[..|longer| - 1] == schedule;
    if task in s.started && task !in s.handled { EventIsTheHeads(s, task); }
  }

  // ---- what can still happen from a state on

  function Continue(s: State, more: seq<Action>): State
    decreases |more|
  {
    if more == [] then s else Continue(Step(s, more[0]), more[1..])
  }

  lemma {:induction false} ContinueExecution(schedule: seq<Action>, more: seq<Action>)
    ensures Continue(Execution(schedule), more) == Execution(schedule + more)
    decreases |more|
  {
    hide Step;
    if more == [] {
      assert schedule + more == schedule;
    } else {
      var longer := schedule + [more[0]];
      assert longer[..|longer| - 1] == schedule;
      assert longer + more[1..] == schedule + more;
      ContinueExecution(longer, more[1..]);
    }
  }

  lemma {:induction false} ContinueKeepsInv(s: State, more: seq<Action>)
    requires Inv(s)
    ensures Inv(Continue(s, more))
    decreases |more|
  {
    hide Step, Inv;
    if more != [] {
      StepKeepsInv(s, more[0]);
      ContinueKeepsInv(Step(s, more[0]), more[1..]);
    }
  }

  // ---- no wake-up is lost

  /** How many steps of its own the executor takes at most to start a task that can be started. */
  function StepsToStart(e: Executor): nat {
    if e.LoopTest? then 2 else 1
  }

  function ExecutorSteps(more: seq<Action>): nat {
    if more == [] then 0 else (if more[0].Executor? then 1 else 0) + ExecutorSteps(more[1..])
  }

  lemma {:induction false} StartedGrows(s: State, more: seq<Action>)
    ensures s.started <= Continue(s, more).started
    decreases |more|
  {
    if more != [] {
      assert s.started <= Step(s, more[0]).started;
      StartedGrows(Step(s, more[0]), more[1..]);
    }
  }

  /** One step of any thread brings the start of the head nearer, or leaves it where it was. */
  lemma StartGetsNearer(s: State, a: Action)
    requires Inv(s) && !s.mustStop && !s.workerStarted && s.queue != [] && !a.Dispose?
    ensures var s' := Step(s, a);
            if a.Executor? && StepsToStart(s.executor) == 1 then s'.started == s.started + [s.queue[0]]
            else
              && !s'.mustStop && !s'.workerStarted && s'.queue != [] && s'.queue[0] == s.queue[0]
              && s'.started == s.started
              && StepsToStart(s'.executor) <= StepsToStart(s.executor) - (if a.Executor? then 1 else 0)
  {
  }

  lemma {:induction false} StartsWithin(s: State, more: seq<Action>)
    requires Inv(s) && !s.mustStop && !s.workerStarted && s.queue != []
    requires Dispose !in more && ExecutorSteps(more) >= StepsToStart(s.executor)
    ensures s.started + [s.queue[0]] <= Continue(s, more).started
    decreases |more|
  {
    hide Step, Inv;
    var a, rest := more[0], more[1..];
    StepKeepsInv(s, a);
    StartGetsNearer(s, a);
    if a.Executor? && StepsToStart(s.executor) == 1 {
      StartedGrows(Step(s, a), rest);
    } else {
      StartsWithin(Step(s, a), rest);
    }
  }

  /** No wake-up is lost: a waiting executor has nothing to start, and a task that can be started
      is started by the executor's second step, whatever the other threads do in between. */
  lemma ExecutorStartsTheHead(schedule: seq<Action>, more: seq<Action>)
    requires Dispose !in more && ExecutorSteps(more) >= 2
    ensures var s := Execution(schedule);
            && (s.executor.Waiting? ==> s.workerStarted || s.queue == [])
            && (!s.mustStop && !s.workerStarted && s.queue != [] ==>
                  s.started + [s.queue[0]] <= Execution(schedule + more).started)
  {
    hide Step;
    Reached(schedule);
    ContinueExecution(schedule, more);
    var s := Execution(schedule);
    if !s.mustStop && !s.workerStarted && s.queue != [] { StartsWithin(s, more); }
  }

  // ---- the end of the executor

  /** The manager is left to itself: the executor runs and tasks complete, but nothing new is
      scheduled and no wait ends without a reason. */
  predicate LeftAlone(more: seq<Action>) {
    forall i :: 0 <= i < |more| ==> !more[i].Schedule? && !more[i].Spurious?
  }

  ghost predicate CanStop(s: State) {
    exists more :: LeftAlone(more) && Continue(s, more).executor.Stopped?
  }

  /** Whatever happens, the executor can still stop: some continuation always does it. */
  ghost predicate WillStop(s: State) {
    forall more :: CanStop(Continue(s, more))
  }

  /** Between its loop test and the lock with nothing to start, or waiting, and nothing runs. */
  predicate Stranded(s: State) {
    s.disposer.Notified? && s.queue == [] && (s.executor.Entering? || s.executor.Waiting?)
  }

  lemma NothingRuns(s: State, task: Task)
    requires Inv(s) && s.queue == []
    ensures task in s.started ==> task in s.handled
  {
    assert s.removed + [] == s.removed;
  }

  lemma {:induction false} StrandedForGood(s: State, more: seq<Action>)
    requires Inv(s) && Stranded(s) && LeftAlone(more)
    ensures !Continue(s, more).executor.Stopped?
    decreases |more|
  {
    if more != [] {
      StepKeepsInv(s, more[0]);
      if more[0].Event? { NothingRuns(s, more[0].task); }
      assert forall i :: 0 <= i < |more[1..]| ==> more[1..][i] == more[i + 1];
      StrandedForGood(Step(s, more[0]), more[1..]);
    }
  }

  lemma StrandedCannotStop(s: State)
    requires Inv(s) && Stranded(s)
    ensures !CanStop(s)
  {
    forall more | LeftAlone(more) ensures !Continue(s, more).executor.Stopped? { StrandedForGood(s, more); }
  }

  /** The executor is about to see the stop, or will be woken by the completion of the running task. */
  predicate OnCourse(s: State) {
    && s.mustStop
    && match s.executor
       case Entering => if s.workerStarted then |s.queue| >= 2 else s.queue != []
       case Waiting => s.workerStarted
       case _ => true
  }

  lemma {:induction false} StaysOnCourse(s: State, more: seq<Action>)
    requires Inv(s) && OnCourse(s)
    ensures OnCourse(Continue(s, more))
    decreases |more|
  {
    if more != [] {
      StepKeepsInv(s, more[0]);
      assert OnCourse(Step(s, more[0]));
      StaysOnCourse(Step(s, more[0]), more[1..]);
    }
  }

  lemma TwoSteps(s: State, a: Action, b: Action)
    ensures Continue(s, [a, b]) == Step(Step(s, a), b)
  {
    hide Step;
    assert [a, b][1..] == [b] && [b][1..] == [];
    assert Continue(Step(s, a), [b]) == Continue(Step(Step(s, a), b), []);
  }

  /** With a running task its completion, between two steps of the executor, leads to the stop. */
  lemma CanStopUnlessStranded(s: State)
    requires Inv(s) && s.mustStop && (s.executor.Waiting? ==> s.workerStarted)
    requires !(s.executor.Entering? && s.queue == [])
    ensures CanStop(s)
  {
    var settled := if s.executor.Entering? && s.workerStarted then Step(s, Executor) else s;
    if settled.executor.Waiting? {
      var head := settled.queue[0];
      assert head in settled.started && head !in settled.handled by {
        assert settled.started[|settled.started| - 1] == head;
        HeadIsUnhandled(settled);
      }
      TwoSteps(settled, Event(head, true), Executor);
      var finish := [Event(head, true), Executor];
      if settled == s {
        assert LeftAlone(finish);
      } else {
        var more := [Executor] + finish;
        assert more[0] == Executor && more[1..] == finish;
        assert LeftAlone(more) && Continue(s, more).executor.Stopped?;
      }
    } else {
      TwoSteps(s, Executor, Executor);
      assert LeftAlone([Executor, Executor]);
    }
  }

  lemma HeadIsUnhandled(s: State)
    requires Inv(s) && s.workerStarted
    ensures s.queue[0] !in s.handled
  {
    DistinctParts(s.removed, s.queue);
    assert s.queue[0] in s.queue;
  }

  /** After dispose the executor can still stop unless it stood between its loop test and the
      lock with an empty queue: then it never does. */
  lemma StopCanBeSeenExactlyWhen(s: State)
    requires s.disposer.StopSet? && Inv(s)
    ensures CanStop(Step(s, Dispose)) <==> !(s.executor.Entering? && s.queue == [])
  {
    var s' := Step(s, Dispose);
    StepKeepsInv(s, Dispose);
    if s.executor.Entering? && s.queue == [] { StrandedCannotStop(s'); } else { CanStopUnlessStranded(s'); }
  }

  /** It is sure to stop, as long as it runs and tasks complete, unless it stood there with no task
      behind the running one: if that task completes before the executor takes the lock, the
      executor is stranded. */
  lemma StopIsSeenExactlyWhen(s: State)
    requires s.disposer.StopSet? && Inv(s)
    ensures WillStop(Step(s, Dispose)) <==>
            !(s.executor.Entering? && |s.queue| <= if s.workerStarted then 1 else 0)
  {
    var s' := Step(s, Dispose);
    StepKeepsInv(s, Dispose);
    if s.executor.Entering? && |s.queue| <= if s.workerStarted then 1 else 0 {
      var more := if s.workerStarted then [Event(s.queue[0], true)] else [];
      if s.workerStarted {
        HeadIsUnhandled(s');
        assert s'.started[|s'.started| - 1] == s.queue[0];
        assert more[1..] == [];
      }
      ContinueKeepsInv(s', more);
      StrandedCannotStop(Continue(s', more));
    } else {
      forall more ensures CanStop(Continue(s', more)) {
        StaysOnCourse(s', more);
        ContinueKeepsInv(s', more);
        CanStopUnlessStranded(Continue(s', more));
      }
    }
  }

  /** And it happens: an idle manager is disposed just after the executor's loop test. Only new work
      or a wait that ends without a reason could make the executor look again. */
  lemma StopCanBeMissed()
    ensures var s := Execution([Executor, Dispose, Dispose, Executor]);
            s.disposer.Notified? && s.executor.Waiting? && !CanStop(s)
  {
    var a, b, c := [Executor], [Executor, Dispose], [Executor, Dispose, Dispose];
    var d := [Executor, Dispose, Dispose, Executor];
    assert a[..0] == [] && b[..1] == a && c[..2] == b && d[..3] == c;
    Reached(d);
    assert Execution(a).executor.Entering? && Execution(b).disposer.StopSet? && Execution(c).disposer.Notified?;
    StrandedCannotStop(Execution(d));
  }

  /** A running task is not enough to prevent it: here it completes between dispose and the lock. */
  lemma StopCanBeMissedByCompletion(task: Task)
    ensures var s := Execution([Schedule(task), Executor, Executor, Executor, Dispose]);
            && s.executor.Entering? && s.workerStarted && CanStop(Step(s, Dispose)) && !WillStop(Step(s, Dispose))
  {
    var a, b, c := [Schedule(task)], [Schedule(task), Executor], [Schedule(task), Executor, Executor];
    var d := [Schedule(task), Executor, Executor, Executor];
    var e := [Schedule(task), Executor, Executor, Executor, Dispose];
    assert a[..0] == [] && b[..1] == a && c[..2] == b && d[..3] == c && e[..4] == d;
    assert Execution(a).executor.LoopTest? && Execution(a).queue == [task];
    assert Execution(b).executor.Entering? && Execution(b).queue == [task];
    assert Execution(c).executor.LoopTest? && Execution(c).queue == [task];
    assert Execution(c).workerStarted && Execution(d).executor.Entering? && Execution(e).queue == [task];
    Reached(e);
    StopCanBeSeenExactlyWhen(Execution(e));
    StopIsSeenExactlyWhen(Execution(e));
  }
}
