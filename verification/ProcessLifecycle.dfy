/**
 The life of a process handler under any number of threads: the start, the tasks deferred
 until the start, the races to terminate, and the semaphore that waiters block on.

 A listener that calls back into the handler while it is being notified is one more
 thread of the model: no lock is held during a notification.
 */
module ProcessLifecycle {
  import opened Sequences

  datatype Phase = Initial | Running | Terminating | Terminated {
    function Rank(): nat {
      match this case Initial => 0 case Running => 1 case Terminating => 2 case Terminated => 3
    }
  }

  /** The runnables that destroyProcess, detachProcess and notifyTerminated create, one per call. */
  datatype Task = Destroy(id: nat) | Detach(id: nat) | Terminate(id: nat)

  datatype Stage =
    | ClaimTerminating
    | WillTerminate
    | Impl
    | ClaimTerminated
    | Dispatching
    | UpRead
    | UpCas(c: nat)

  datatype Pc =
    | Idle
    | StartCas
    | Started
    | Check(task: Task)
    | Add(task: Task)
    | Recheck
    | Grab
    | Batch(todo: seq<Task>)
    | Run(task: Task, stage: Stage, rest: seq<Task>)
    | Waiting

  datatype Action = CallStart | CallExecute(task: Task) | CallWaitFor | Interrupt | Throw | Proceed

  /** Bookkeeping about a submitted task; the protocol never reads it. */
  datatype Fate = Held(thread: nat) | Queued | Active(thread: nat) | Finished | Dropped

  /** The handler's own state and semaphore, and what an observer counts. */
  datatype Life = Life(
    phase: Phase,
    semaphore: nat,
    terminatingWins: nat,
    terminatedBy: seq<nat>,
    dispatched: nat,
    returned: nat)

  datatype State = State(
    pc: map<nat, Pc>,
    pending: seq<Task>,
    fate: map<Task, Fate>,
    begun: seq<Task>,
    throws: nat,
    life: Life)

  ghost function Initially(threads: set<nat>): State {
    State(map t | t in threads :: Idle, [], map[], [], 0, Life(Initial, 1, 0, [], 0, 0))
  }

  function Goto(s: State, t: nat, pc: Pc, life: Life): State {
    s.(pc := s.pc[t := pc], life := life)
  }

  function Submit(s: State, t: nat, x: Task): State {
    s.(pc := s.pc[t := Check(x)], fate := s.fate[x := Held(t)])
  }

  function Defer(s: State, t: nat, x: Task): State {
    s.(pc := s.pc[t := Recheck], pending := s.pending + [x], fate := s.fate[x := Queued])
  }

  function SetFate(fate: map<Task, Fate>, tasks: seq<Task>, f: Fate): map<Task, Fate> {
    fate + map x | x in tasks :: f
  }

  function GrabAll(s: State, t: nat): State {
    s.(pc := s.pc[t := Batch(s.pending)], pending := [], fate := SetFate(s.fate, s.pending, Held(t)))
  }

  function Begin(s: State, t: nat, x: Task, rest: seq<Task>): State {
    s.(pc := s.pc[t := Run(x, ClaimTerminating, rest)], fate := s.fate[x := Active(t)], begun := s.begun + [x])
  }

  function End(s: State, t: nat, x: Task, rest: seq<Task>, life: Life): State {
    s.(pc := s.pc[t := Batch(rest)], fate := s.fate[x := Finished], life := life)
  }

  function Abandon(s: State, t: nat, x: Task, rest: seq<Task>): State {
    s.(pc := s.pc[t := Idle], fate := SetFate(s.fate[x := Finished], rest, Dropped), throws := s.throws + 1)
  }

  /** One atomic step inside a running task: where it goes next, None when it ends. */
  function NextStage(life: Life, x: Task, stage: Stage): (Stage, bool) {
    match stage
    case ClaimTerminating =>
      if life.phase.Running? then (WillTerminate, false)
      else (ClaimTerminated, !x.Terminate?)
    case WillTerminate => (if x.Terminate? then ClaimTerminated else Impl, false)
    case Impl => (Impl, true)
    case ClaimTerminated => (Dispatching, !life.phase.Terminating?)
    case Dispatching => (UpRead, false)
    case UpRead => (UpCas(life.semaphore), life.semaphore == 0)
    case UpCas(c) => (UpRead, life.semaphore == c)
  }

  function NextLife(life: Life, t: nat, stage: Stage): Life {
    match stage
    case ClaimTerminating =>
      if life.phase.Running? then life.(phase := Terminating, terminatingWins := life.terminatingWins + 1) else life
    case ClaimTerminated =>
      if life.phase.Terminating? then life.(phase := Terminated, terminatedBy := life.terminatedBy + [t]) else life
    case Dispatching => life.(dispatched := life.dispatched + 1)
    case UpCas(c) => if life.semaphore == c && c > 0 then life.(semaphore := c - 1) else life
    case _ => life
  }

  function RunStep(s: State, t: nat, x: Task, stage: Stage, rest: seq<Task>): State {
    var (next, ends) := NextStage(s.life, x, stage);
    if ends then End(s, t, x, rest, NextLife(s.life, t, stage))
    else Goto(s, t, Run(x, next, rest), NextLife(s.life, t, stage))
  }

  function Advance(s: State, t: nat): State
    requires t in s.pc
  {
    match s.pc[t]
    case Idle => s
    case StartCas =>
      if s.life.phase.Initial? then Goto(s, t, Started, s.life.(phase := Running)) else Goto(s, t, Idle, s.life)
    case Started => Goto(s, t, Grab, s.life)
    case Check(x) => if s.life.phase.Initial? then Goto(s, t, Add(x), s.life) else Begin(s, t, x, [])
    case Add(x) => Defer(s, t, x)
    case Recheck => Goto(s, t, if s.life.phase.Initial? then Idle else Grab, s.life)
    case Grab => GrabAll(s, t)
    case Batch(todo) => if todo == [] then Goto(s, t, Idle, s.life) else Begin(s, t, todo[0], todo[1..])
    case Run(x, stage, rest) => RunStep(s, t, x, stage, rest)
    case Waiting =>
      if s.life.semaphore == 0 then Goto(s, t, Idle, s.life.(returned := s.life.returned + 1)) else s
  }

  function Step(s: State, t: nat, a: Action): State {
    if t !in s.pc then s
    else match a
      case CallStart => if s.pc[t].Idle? then Goto(s, t, StartCas, s.life) else s
      case CallExecute(x) => if s.pc[t].Idle? && x !in s.fate then Submit(s, t, x) else s
      case CallWaitFor => if s.pc[t].Idle? then Goto(s, t, Waiting, s.life) else s
      case Interrupt => if s.pc[t].Waiting? then Goto(s, t, Idle, s.life) else s
      // destroyProcessImpl or detachProcessImpl fails: the rest of the batch is abandoned with it
      case Throw =>
        if s.pc[t].Run? && s.pc[t].stage.Impl? then Abandon(s, t, s.pc[t].task, s.pc[t].rest) else s
      case Proceed => Advance(s, t)
  }

  ghost function Execution(threads: set<nat>, schedule: seq<(nat, Action)>): State {
    if schedule == [] then Initially(threads)
    else
      var last := schedule[|schedule| - 1];
      Step(Execution(threads, schedule[..|schedule| - 1]), last.0, last.1)
  }

  // ---- no task is lost and none runs twice

  /** Tasks a thread is responsible for and has not begun. */
  function Waits(pc: Pc): seq<Task> {
    match pc
    case Check(x) => [x]
    case Add(x) => [x]
    case Batch(todo) => todo
    case Run(_, _, rest) => rest
    case _ => []
  }

  ghost predicate Placed(s: State, x: Task, fate: Fate) {
    match fate
    case Held(owner) => owner in s.pc && x in Waits(s.pc[owner])
    case Queued => x in s.pending
    case Active(owner) => owner in s.pc && s.pc[owner].Run? && s.pc[owner].task == x
    case Finished => true
    case Dropped => s.throws > 0
  }

  ghost predicate ThreadConserved(s: State, t: nat)
    requires t in s.pc
  {
    && Distinct(Waits(s.pc[t]))
    && (forall x :: x in Waits(s.pc[t]) ==> x in s.fate && s.fate[x] == Held(t))
    && (s.pc[t].Run? ==> s.pc[t].task in s.fate && s.fate[s.pc[t].task] == Active(t))
  }

  ghost predicate PendingConserved(s: State) {
    Distinct(s.pending) && forall x :: x in s.pending ==> x in s.fate && s.fate[x] == Queued
  }

  ghost predicate BegunConserved(s: State) {
    Distinct(s.begun) && forall x :: x in s.begun <==> x in s.fate && (s.fate[x].Active? || s.fate[x].Finished?)
  }

  /** Every submitted task is in exactly one place, and has begun at most once. */
  ghost predicate Conserved(s: State) {
    && PendingConserved(s)
    && BegunConserved(s)
    && (forall t :: t in s.pc ==> ThreadConserved(s, t))
    && (forall x :: x in s.fate ==> Placed(s, x, s.fate[x]))
  }

  lemma GotoConserves(s: State, t: nat, pc: Pc, life: Life)
    requires Conserved(s) && t in s.pc && Waits(pc) == Waits(s.pc[t])
    requires pc.Run? == s.pc[t].Run? && (pc.Run? ==> pc.task == s.pc[t].task)
    ensures Conserved(Goto(s, t, pc, life))
  {
    var s' := Goto(s, t, pc, life);
    forall u | u in s'.pc ensures ThreadConserved(s', u) { assert ThreadConserved(s, u); }
    forall x | x in s'.fate ensures Placed(s', x, s'.fate[x]) { assert Placed(s, x, s.fate[x]); }
  }

  lemma SubmitConserves(s: State, t: nat, x: Task)
    requires Conserved(s) && t in s.pc && s.pc[t].Idle? && x !in s.fate
    ensures Conserved(Submit(s, t, x))
  {
    var s' := Submit(s, t, x);
    forall u | u in s'.pc ensures ThreadConserved(s', u) { assert ThreadConserved(s, u); }
    forall y | y in s'.fate ensures Placed(s', y, s'.fate[y]) { assert y != x ==> Placed(s, y, s.fate[y]); }
  }

  lemma DeferConserves(s: State, t: nat, x: Task)
    requires Conserved(s) && t in s.pc && s.pc[t] == Add(x)
    ensures Conserved(Defer(s, t, x))
  {
    var s' := Defer(s, t, x);
    assert ThreadConserved(s, t) && x in Waits(s.pc[t]);
    forall u | u in s'.pc ensures ThreadConserved(s', u) { assert ThreadConserved(s, u); }
    forall y | y in s'.fate ensures Placed(s', y, s'.fate[y]) { assert Placed(s, y, s.fate[y]); }
  }

  /** The fate of one task after that of a batch was set. */
  lemma SetFateIs(fate: map<Task, Fate>, tasks: seq<Task>, f: Fate, x: Task)
    ensures x in SetFate(fate, tasks, f) <==> x in fate || x in tasks
    ensures x in SetFate(fate, tasks, f) ==> SetFate(fate, tasks, f)[x] == if x in tasks then f else fate[x]
  {
  }

  lemma GrabKeepsThread(s: State, t: nat, u: nat)
    requires Conserved(s) && t in s.pc && s.pc[t].Grab? && u in s.pc
    ensures ThreadConserved(GrabAll(s, t), u)
  {
    var s' := GrabAll(s, t);
    assert ThreadConserved(s, u) && PendingConserved(s);
    hide Conserved, Distinct, SetFate, BegunConserved;
    forall x ensures x in s'.fate ==> x in s.fate || x in s.pending
             ensures x in s.pending ==> x in s'.fate && s'.fate[x] == Held(t)
             ensures x !in s.pending && x in s.fate ==> x in s'.fate && s'.fate[x] == s.fate[x]
    {
      SetFateIs(s.fate, s.pending, Held(t), x);
    }
  }

  lemma GrabKeepsPlaced(s: State, t: nat, y: Task)
    requires Conserved(s) && t in s.pc && s.pc[t].Grab? && y in GrabAll(s, t).fate
    ensures Placed(GrabAll(s, t), y, GrabAll(s, t).fate[y])
  {
    assert PendingConserved(s) && (y in s.fate ==> Placed(s, y, s.fate[y]));
    hide Conserved, Distinct, SetFate, BegunConserved;
    SetFateIs(s.fate, s.pending, Held(t), y);
  }

  lemma GrabKeepsBegun(s: State, t: nat)
    requires Conserved(s)
    ensures BegunConserved(GrabAll(s, t))
  {
    assert PendingConserved(s) && BegunConserved(s);
    hide Conserved, Distinct, SetFate;
    forall x ensures x in s.begun <==>
      x in GrabAll(s, t).fate && (GrabAll(s, t).fate[x].Active? || GrabAll(s, t).fate[x].Finished?)
    {
      SetFateIs(s.fate, s.pending, Held(t), x);
    }
  }

  lemma GrabConserves(s: State, t: nat)
    requires Conserved(s) && t in s.pc && s.pc[t].Grab?
    ensures Conserved(GrabAll(s, t))
  {
    var s' := GrabAll(s, t);
    GrabKeepsBegun(s, t);
    hide SetFate, ThreadConserved, Placed, BegunConserved;
    forall u | u in s'.pc ensures ThreadConserved(s', u) { GrabKeepsThread(s, t, u); }
    forall y | y in s'.fate ensures Placed(s', y, s'.fate[y]) { GrabKeepsPlaced(s, t, y); }
  }

  lemma BeginConserves(s: State, t: nat, x: Task, rest: seq<Task>)
    requires Conserved(s) && t in s.pc && !s.pc[t].Run? && Waits(s.pc[t]) == [x] + rest
    ensures Conserved(Begin(s, t, x, rest))
  {
    var s' := Begin(s, t, x, rest);
    assert ThreadConserved(s, t);
    DistinctParts([x], rest);
    assert x in Waits(s.pc[t]);
    DistinctParts(s.begun, [x]);
    assert BegunConserved(s');
    forall u | u in s'.pc ensures ThreadConserved(s', u) { assert ThreadConserved(s, u); }
    forall y | y in s'.fate ensures Placed(s', y, s'.fate[y]) { assert Placed(s, y, s.fate[y]); }
  }

  lemma EndConserves(s: State, t: nat, life: Life)
    requires Conserved(s) && t in s.pc && s.pc[t].Run?
    ensures Conserved(End(s, t, s.pc[t].task, s.pc[t].rest, life))
  {
    var s' := End(s, t, s.pc[t].task, s.pc[t].rest, life);
    assert ThreadConserved(s, t);
    forall u | u in s'.pc ensures ThreadConserved(s', u) { assert ThreadConserved(s, u); }
    forall y | y in s'.fate ensures Placed(s', y, s'.fate[y]) { assert Placed(s, y, s.fate[y]); }
  }

  lemma AbandonedFate(s: State, t: nat, x: Task)
    requires Conserved(s) && t in s.pc && s.pc[t].Run?
    ensures var fate := Abandon(s, t, s.pc[t].task, s.pc[t].rest).fate;
            if x in s.pc[t].rest then x in fate && x in s.fate && s.fate[x] == Held(t) && fate[x] == Dropped
            else if x == s.pc[t].task then x in fate && x in s.fate && s.fate[x] == Active(t) && fate[x] == Finished
            else (x in fate <==> x in s.fate) && (x in fate ==> fate[x] == s.fate[x])
  {
    assert ThreadConserved(s, t);
    hide Conserved, Distinct, SetFate;
    SetFateIs(s.fate[s.pc[t].task := Finished], s.pc[t].rest, Dropped, x);
  }

  lemma AbandonKeepsThread(s: State, t: nat, u: nat)
    requires Conserved(s) && t in s.pc && s.pc[t].Run? && u in s.pc
    ensures ThreadConserved(Abandon(s, t, s.pc[t].task, s.pc[t].rest), u)
  {
    assert ThreadConserved(s, u);
    if u != t {
      hide Conserved, Distinct, SetFate;
      forall x | x in Waits(s.pc[u])
        ensures var fate := Abandon(s, t, s.pc[t].task, s.pc[t].rest).fate; x in fate && fate[x] == s.fate[x]
      {
        AbandonedFate(s, t, x);
      }
      if s.pc[u].Run? { AbandonedFate(s, t, s.pc[u].task); }
    }
  }

  lemma AbandonKeepsPlaced(s: State, t: nat, y: Task)
    requires Conserved(s) && t in s.pc && s.pc[t].Run?
    ensures var s' := Abandon(s, t, s.pc[t].task, s.pc[t].rest); y in s'.fate ==> Placed(s', y, s'.fate[y])
  {
    AbandonedFate(s, t, y);
    assert y in s.fate ==> Placed(s, y, s.fate[y]);
    hide Conserved, Distinct, SetFate;
  }

  lemma AbandonConserves(s: State, t: nat)
    requires Conserved(s) && t in s.pc && s.pc[t].Run?
    ensures Conserved(Abandon(s, t, s.pc[t].task, s.pc[t].rest))
  {
    var s' := Abandon(s, t, s.pc[t].task, s.pc[t].rest);
    assert PendingConserved(s) && BegunConserved(s);
    hide SetFate, Distinct, ThreadConserved;
    forall x ensures x in s.pending ==> x in s'.fate && s'.fate[x] == Queued
             ensures x in s.begun <==> x in s'.fate && (s'.fate[x].Active? || s'.fate[x].Finished?)
    {
      AbandonedFate(s, t, x);
    }
    forall u | u in s'.pc ensures ThreadConserved(s', u) { AbandonKeepsThread(s, t, u); }
    hide Placed;
    forall y | y in s'.fate ensures Placed(s', y, s'.fate[y]) { AbandonKeepsPlaced(s, t, y); }
  }

  lemma AdvanceConserves(s: State, t: nat)
    requires Conserved(s) && t in s.pc
    ensures Conserved(Advance(s, t))
  {
    hide Conserved, SetFate;
    match s.pc[t]
    case Idle =>
    case StartCas =>
      GotoConserves(s, t, Started, s.life.(phase := Running));
      GotoConserves(s, t, Idle, s.life);
    case Started => GotoConserves(s, t, Grab, s.life);
    case Check(x) =>
      if s.life.phase.Initial? { GotoConserves(s, t, Add(x), s.life); } else { BeginConserves(s, t, x, []); }
    case Add(x) => DeferConserves(s, t, x);
    case Recheck => GotoConserves(s, t, if s.life.phase.Initial? then Idle else Grab, s.life);
    case Grab => GrabConserves(s, t);
    case Batch(todo) =>
      if todo == [] {
        GotoConserves(s, t, Idle, s.life);
      } else {
        assert todo == [todo[0]] + todo[1..];
        BeginConserves(s, t, todo[0], todo[1..]);
      }
    case Run(x, stage, rest) =>
      var (next, ends) := NextStage(s.life, x, stage);
      if ends { EndConserves(s, t, NextLife(s.life, t, stage)); }
      else { GotoConserves(s, t, Run(x, next, rest), NextLife(s.life, t, stage)); }
    case Waiting => GotoConserves(s, t, Idle, s.life.(returned := s.life.returned + 1));
  }

  lemma StepConserves(s: State, t: nat, a: Action)
    requires Conserved(s)
    ensures Conserved(Step(s, t, a))
  {
    if t in s.pc {
      match a
      case CallStart => if s.pc[t].Idle? { GotoConserves(s, t, StartCas, s.life); }
      case CallExecute(x) => if s.pc[t].Idle? && x !in s.fate { SubmitConserves(s, t, x); }
      case CallWaitFor => if s.pc[t].Idle? { GotoConserves(s, t, Waiting, s.life); }
      case Interrupt => if s.pc[t].Waiting? { GotoConserves(s, t, Idle, s.life); }
      case Throw => if s.pc[t].Run? && s.pc[t].stage.Impl? { AbandonConserves(s, t); }
      case Proceed => AdvanceConserves(s, t);
    }
  }

  // ---- nothing runs before the start, and nothing is left behind by it

  ghost predicate WillGrab(s: State, t: nat) {
    t in s.pc && (s.pc[t].Recheck? || s.pc[t].Started? || s.pc[t].Grab?)
  }

  predicate AfterStart(pc: Pc) {
    pc.Started? || pc.Grab? || pc.Batch? || pc.Run?
  }

  ghost predicate Quiet(s: State) {
    s.begun == [] && forall t :: t in s.pc ==> !AfterStart(s.pc[t])
  }

  /** What is pending after the start is about to be picked up by someone. */
  ghost predicate StartOrder(s: State) {
    && (s.life.phase.Initial? ==> Quiet(s))
    && (!s.life.phase.Initial? && s.pending != [] ==> exists t :: WillGrab(s, t))
  }

  /** A step of one thread leaves the others where they stand. */
  lemma OthersStay(s: State, t: nat, a: Action)
    ensures Step(s, t, a).pc.Keys == s.pc.Keys
    ensures forall u :: u in s.pc && u != t ==> Step(s, t, a).pc[u] == s.pc[u]
  {
    hide SetFate, NextLife, NextStage, Advance;
    if t in s.pc { AdvanceMovesOne(s, t); }
  }

  lemma AdvanceMovesOne(s: State, t: nat)
    requires t in s.pc
    ensures Advance(s, t).pc == s.pc[t := Advance(s, t).pc[t]]
  {
    hide SetFate, NextLife, NextStage;
  }

  lemma StepMovesPhase(s: State, t: nat, a: Action)
    ensures Step(s, t, a).life.phase.Rank() in {s.life.phase.Rank(), s.life.phase.Rank() + 1}
    ensures s.life.phase.Initial? && !Step(s, t, a).life.phase.Initial? && Quiet(s) ==> WillGrab(Step(s, t, a), t)
  {
    hide SetFate;
  }

  lemma StepKeepsQuiet(s: State, t: nat, a: Action)
    requires s.life.phase.Initial? && Quiet(s)
    ensures Step(s, t, a).life.phase.Initial? ==> Quiet(Step(s, t, a))
  {
    OthersStay(s, t, a);
    hide SetFate, NextLife, NextStage;
  }

  /** What a step leaves pending was pending before, or the same thread will look after it. */
  lemma StepKeepsGrabbing(s: State, t: nat, a: Action)
    requires !s.life.phase.Initial?
    ensures Step(s, t, a).pending != [] ==> WillGrab(Step(s, t, a), t) || (s.pending != [] && !WillGrab(s, t))
  {
    hide SetFate, NextLife, NextStage;
  }

  lemma StepKeepsStartOrder(s: State, t: nat, a: Action)
    requires StartOrder(s)
    ensures StartOrder(Step(s, t, a))
    ensures Step(s, t, a).life.phase.Rank() in {s.life.phase.Rank(), s.life.phase.Rank() + 1}
  {
    OthersStay(s, t, a);
    StepMovesPhase(s, t, a);
    if s.life.phase.Initial? { StepKeepsQuiet(s, t, a); } else { StepKeepsGrabbing(s, t, a); }
    hide Step, Quiet;
    var s' := Step(s, t, a);
    if !s.life.phase.Initial? && s'.pending != [] && !WillGrab(s', t) {
      var w :| WillGrab(s, w);
      assert WillGrab(s', w);
    }
  }

  // ---- one winner per transition, and the semaphore behind it

  predicate Last(pc: Pc) {
    pc.Run? && (pc.stage.Dispatching? || pc.stage.UpRead? || pc.stage.UpCas?)
  }

  /** What a thread inside a task knows about the phase. */
  ghost predicate StageFits(pc: Pc, t: nat, life: Life) {
    pc.Run? ==>
      && (match pc.stage
          case ClaimTerminating => true
          case WillTerminate => life.phase.Rank() >= 2
          case Impl => life.phase.Rank() >= 2 && !pc.task.Terminate?
          case ClaimTerminated => life.phase.Rank() >= 2 && pc.task.Terminate?
          case UpCas(c) => life.phase.Terminated? && c == 1
          case _ => life.phase.Terminated?)
      && (Last(pc) ==> life.terminatedBy == [t] && pc.task.Terminate?)
  }

  ghost predicate SemaphoreFits(s: State) {
    if !s.life.phase.Terminated? then
      s.life.terminatedBy == [] && s.life.semaphore == 1 && s.life.dispatched == 0
    else
      && |s.life.terminatedBy| == 1
      && var w := s.life.terminatedBy[0];
         && w in s.pc
         && if Last(s.pc[w]) then
              s.life.semaphore == 1 && s.life.dispatched == (if s.pc[w].stage.Dispatching? then 0 else 1)
            else s.life.semaphore == 0 && s.life.dispatched == 1
  }

  ghost predicate OneWinner(s: State) {
    && s.life.terminatingWins == (if s.life.phase.Rank() >= 2 then 1 else 0)
    && SemaphoreFits(s)
    && (s.life.returned > 0 ==> s.life.semaphore == 0)
    && (forall t :: t in s.pc ==> StageFits(s.pc[t], t, s.life))
    // a termination task never ends before the process counts as terminated
    && (forall x :: x in s.fate && s.fate[x].Finished? && x.Terminate? ==> s.life.phase.Terminated?)
  }

  /** A move of a thread that is not about to end the process, with the handler's state as it was. */
  lemma MoveKeepsOneWinner(s: State, s': State, t: nat)
    requires OneWinner(s) && t in s.pc && s'.pc.Keys == s.pc.Keys && s'.life == s.life
    requires forall u :: u in s.pc && u != t ==> s'.pc[u] == s.pc[u]
    requires !Last(s.pc[t]) && !Last(s'.pc[t]) && StageFits(s'.pc[t], t, s.life)
    requires forall x :: x in s'.fate && s'.fate[x].Finished? && x.Terminate? ==>
               s.life.phase.Terminated? || (x in s.fate && s.fate[x].Finished?)
    ensures OneWinner(s')
  {
    assert SemaphoreFits(s');
    hide SemaphoreFits;
    forall u | u in s'.pc ensures StageFits(s'.pc[u], u, s'.life) { assert StageFits(s.pc[u], u, s.life); }
  }

  lemma StartKeepsOneWinner(s: State, t: nat)
    requires OneWinner(s) && t in s.pc && s.life.phase.Initial? && Quiet(s)
    ensures OneWinner(Goto(s, t, Started, s.life.(phase := Running)))
  {
    var s' := Goto(s, t, Started, s.life.(phase := Running));
    forall u | u in s'.pc ensures StageFits(s'.pc[u], u, s'.life) { assert !AfterStart(s.pc[u]); }
  }

  lemma WaiterKeepsOneWinner(s: State, t: nat)
    requires OneWinner(s) && t in s.pc && !s.pc[t].Run? && s.life.semaphore == 0
    ensures OneWinner(Goto(s, t, Idle, s.life.(returned := s.life.returned + 1)))
  {
    var s' := Goto(s, t, Idle, s.life.(returned := s.life.returned + 1));
    forall u | u in s'.pc ensures StageFits(s'.pc[u], u, s'.life) { assert StageFits(s.pc[u], u, s.life); }
  }

  /** The steps of a running task that change the handler's state. */
  lemma RunLifeFits(s: State, t: nat)
    requires OneWinner(s) && t in s.pc && s.pc[t].Run? && !s.life.phase.Initial?
    ensures var s' := RunStep(s, t, s.pc[t].task, s.pc[t].stage, s.pc[t].rest);
            SemaphoreFits(s') && StageFits(s'.pc[t], t, s'.life)
  {
    assert StageFits(s.pc[t], t, s.life);
  }

  /** No other thread is taken by surprise. */
  lemma RunSparesOthers(s: State, t: nat, u: nat)
    requires OneWinner(s) && t in s.pc && s.pc[t].Run? && u in s.pc && u != t
    ensures StageFits(s.pc[u], u, NextLife(s.life, t, s.pc[t].stage))
  {
    assert StageFits(s.pc[t], t, s.life) && StageFits(s.pc[u], u, s.life);
    hide SemaphoreFits;
  }

  lemma RunCounts(s: State, t: nat)
    requires OneWinner(s) && t in s.pc && s.pc[t].Run? && !s.life.phase.Initial?
    ensures var life := NextLife(s.life, t, s.pc[t].stage);
            && life.terminatingWins == (if life.phase.Rank() >= 2 then 1 else 0)
            && (life.returned > 0 ==> life.semaphore == 0)
            && (s.life.phase.Terminated? ==> life.phase.Terminated?)
    ensures s.pc[t].task.Terminate? && NextStage(s.life, s.pc[t].task, s.pc[t].stage).1 ==>
              NextLife(s.life, t, s.pc[t].stage).phase.Terminated?
  {
    assert StageFits(s.pc[t], t, s.life);
  }

  lemma RunKeepsOneWinner(s: State, t: nat)
    requires OneWinner(s) && t in s.pc && s.pc[t].Run? && !s.life.phase.Initial?
    ensures OneWinner(RunStep(s, t, s.pc[t].task, s.pc[t].stage, s.pc[t].rest))
  {
    RunLifeFits(s, t);
    RunCounts(s, t);
    var s' := RunStep(s, t, s.pc[t].task, s.pc[t].stage, s.pc[t].rest);
    assert s'.life == NextLife(s.life, t, s.pc[t].stage);
    hide NextLife, NextStage, SemaphoreFits, StageFits;
    forall u | u in s'.pc ensures StageFits(s'.pc[u], u, s'.life) {
      if u != t { RunSparesOthers(s, t, u); }
    }
  }

  lemma StepKeepsOneWinner(s: State, t: nat, a: Action)
    requires StartOrder(s) && OneWinner(s)
    ensures OneWinner(Step(s, t, a))
  {
    if t in s.pc && Step(s, t, a) != s {
      assert StageFits(s.pc[t], t, s.life);
      OthersStay(s, t, a);
      var s' := Step(s, t, a);
      if a == Proceed && s.pc[t].Run? {
        RunKeepsOneWinner(s, t);
      } else if a == Proceed && s.pc[t].StartCas? && s.life.phase.Initial? {
        StartKeepsOneWinner(s, t);
      } else if a == Proceed && s.pc[t].Waiting? {
        WaiterKeepsOneWinner(s, t);
      } else {
        hide SemaphoreFits, NextLife, NextStage;
        FinishedBefore(s, t, a);
        MoveKeepsOneWinner(s, s', t);
      }
    }
  }

  /** Outside running tasks none finishes, but for one whose implementation throws. */
  lemma FinishedBefore(s: State, t: nat, a: Action)
    requires t in s.pc && (a != Proceed || !s.pc[t].Run?) && StageFits(s.pc[t], t, s.life)
    ensures var s' := Step(s, t, a);
            forall x :: x in s'.fate && s'.fate[x].Finished? && x.Terminate? ==> x in s.fate && s.fate[x].Finished?
  {
  }

  // ---- what holds in every execution

  ghost predicate Inv(s: State) {
    Conserved(s) && StartOrder(s) && OneWinner(s)
  }

  lemma {:induction false} Reached(threads: set<nat>, schedule: seq<(nat, Action)>)
    ensures Inv(Execution(threads, schedule))
    decreases |schedule|
  {
    if schedule != [] {
      var before := schedule[..|schedule| - 1];
      var last := schedule[|schedule| - 1];
      Reached(threads, before);
      StepConserves(Execution(threads, before), last.0, last.1);
      StepKeepsStartOrder(Execution(threads, before), last.0, last.1);
      StepKeepsOneWinner(Execution(threads, before), last.0, last.1);
    }
  }

  /** Nobody is inside start, execute or a task; waiters may be blocked. */
  ghost predicate AtRest(s: State) {
    forall t :: t in s.pc ==> s.pc[t].Idle? || s.pc[t].Waiting?
  }

  // ---- what a run announces, and who does it

  /** Won: the step took the process from running to terminating. Announced: the listeners were
      told that it will terminate. Performed: the destroying or detaching itself was entered. */
  datatype Event = Won(task: Task) | Announced(task: Task) | Performed(task: Task)

  ghost function Events(s: State, t: nat, a: Action): seq<Event> {
    if t !in s.pc || !s.pc[t].Run? then []
    else if a == Proceed && s.life.phase.Running? && Step(s, t, a).life.phase.Terminating? then [Won(s.pc[t].task)]
    else if a == Proceed && s.pc[t].stage.WillTerminate? then [Announced(s.pc[t].task)]
    else if (a == Proceed || a == Throw) && s.pc[t].stage.Impl? then [Performed(s.pc[t].task)]
    else []
  }

  ghost function History(threads: set<nat>, schedule: seq<(nat, Action)>): seq<Event> {
    if schedule == [] then []
    else
      var n := |schedule| - 1;
      History(threads, schedule[..n]) + Events(Execution(threads, schedule[..n]), schedule[n].0, schedule[n].1)
  }

  function Course(x: Task): seq<Event> {
    [Won(x), Announced(x)] + if x.Terminate? then [] else [Performed(x)]
  }

  predicate Deciding(pc: Pc) {
    pc.Run? && (pc.stage.WillTerminate? || pc.stage.Impl?)
  }

  /** How far the events have come is where the winner's thread stands. */
  ghost predicate Told(s: State, h: seq<Event>) {
    && (h == [] <==> s.life.phase.Rank() < 2)
    && (h != [] ==> h <= Course(h[0].task))
    && (forall t :: t in s.pc && Deciding(s.pc[t]) ==>
          h != [] && s.pc[t].task == h[0].task && |h| == if s.pc[t].stage.WillTerminate? then 1 else 2)
    && (forall t, u :: t in s.pc && u in s.pc && Deciding(s.pc[t]) && Deciding(s.pc[u]) ==> t == u)
    && (h != [] && h != Course(h[0].task) ==> exists t :: t in s.pc && Deciding(s.pc[t]))
  }

  /** A step of a thread that neither decides nor comes to do so. */
  lemma StepTellsNothing(s: State, s': State, t: nat, h: seq<Event>)
    requires Told(s, h) && t in s.pc && s'.pc.Keys == s.pc.Keys
    requires forall u :: u in s.pc && u != t ==> s'.pc[u] == s.pc[u]
    requires !Deciding(s.pc[t]) && !Deciding(s'.pc[t])
    requires s'.life.phase.Rank() < 2 <==> s.life.phase.Rank() < 2
    ensures Told(s', h)
  {
    if h != [] && h != Course(h[0].task) {
      var u :| u in s.pc && Deciding(s.pc[u]);
      assert Deciding(s'.pc[u]);
    }
  }

  lemma RunKeepsTold(s: State, t: nat, h: seq<Event>)
    requires OneWinner(s) && Told(s, h) && t in s.pc && s.pc[t].Run? && !s.life.phase.Initial?
    ensures Told(Step(s, t, Proceed), h + Events(s, t, Proceed))
  {
    assert StageFits(s.pc[t], t, s.life);
    OthersStay(s, t, Proceed);
    hide SemaphoreFits, SetFate;
    var s' := Step(s, t, Proceed);
    if !Deciding(s.pc[t]) && !Deciding(s'.pc[t]) {
      StepTellsNothing(s, s', t, h);
    } else if !Deciding(s.pc[t]) {
      assert s.pc[t].stage.ClaimTerminating? && s.life.phase.Running?;
      assert Events(s, t, Proceed) == [Won(s.pc[t].task)];
    } else {
      DecidingKeepsTold(s, t, h);
    }
  }

  lemma DecidingKeepsTold(s: State, t: nat, h: seq<Event>)
    requires OneWinner(s) && Told(s, h) && t in s.pc && Deciding(s.pc[t]) && !s.life.phase.Initial?
    ensures Told(Step(s, t, Proceed), h + Events(s, t, Proceed))
  {
    assert StageFits(s.pc[t], t, s.life);
    OthersStay(s, t, Proceed);
    hide SemaphoreFits, SetFate;
    var x := h[0].task;
    assert s.pc[t].task == x && s.pc[t].stage.Impl? ==> !x.Terminate?;
    assert h + Events(s, t, Proceed) <= Course(x);
  }

  lemma StepKeepsTold(s: State, t: nat, a: Action, h: seq<Event>)
    requires Inv(s) && Told(s, h)
    ensures Told(Step(s, t, a), h + Events(s, t, a))
  {
    hide Conserved, Told;
    assert h + [] == h;
    if t in s.pc && Step(s, t, a) != s {
      OthersStay(s, t, a);
      if s.pc[t].Run? && a == Proceed {
        assert AfterStart(s.pc[t]);
        RunKeepsTold(s, t, h);
      } else if s.pc[t].Run? {
        ThrowKeepsTold(s, t, h);
      } else {
        StepOutsideTasks(s, t, a);
        hide Step;
        StepTellsNothing(s, Step(s, t, a), t, h);
      }
    }
  }

  lemma StepOutsideTasks(s: State, t: nat, a: Action)
    requires t in s.pc && !s.pc[t].Run?
    ensures Events(s, t, a) == [] && !Deciding(Step(s, t, a).pc[t])
    ensures Step(s, t, a).life.phase.Rank() < 2 <==> s.life.phase.Rank() < 2
  {
    hide SetFate, NextLife, NextStage;
  }

  lemma ThrowKeepsTold(s: State, t: nat, h: seq<Event>)
    requires Inv(s) && Told(s, h) && t in s.pc && s.pc[t].Run? && s.pc[t].stage.Impl?
    ensures Told(Step(s, t, Throw), h + Events(s, t, Throw))
  {
    assert StageFits(s.pc[t], t, s.life);
    OthersStay(s, t, Throw);
    hide SemaphoreFits, SetFate, Conserved;
    assert h + Events(s, t, Throw) == Course(h[0].task);
  }

  lemma {:induction false} HistoryIsTold(threads: set<nat>, schedule: seq<(nat, Action)>)
    ensures Told(Execution(threads, schedule), History(threads, schedule))
    decreases |schedule|
  {
    if schedule != [] {
      var n := |schedule| - 1;
      HistoryIsTold(threads, schedule[..n]);
      Reached(threads, schedule[..n]);
      hide Inv, Told, Step, Events;
      StepKeepsTold(Execution(threads, schedule[..n]), schedule[n].0, schedule[n].1, History(threads, schedule[..n]));
    }
  }

  /** In a whole run one task at most wins the move to terminating; it alone announces the end,
      once, and then performs it, once, if it is a destroy or a detach. Nothing of this is left
      out by the time all threads are at rest. */
  lemma TerminationHistory(threads: set<nat>, schedule: seq<(nat, Action)>)
    ensures var s, h := Execution(threads, schedule), History(threads, schedule);
            && (h == [] <==> s.life.phase.Initial? || s.life.phase.Running?)
            && (h != [] ==> exists x ::
                 && h <= [Won(x), Announced(x), Performed(x)]
                 && (x.Terminate? ==> |h| < 3)
                 && (AtRest(s) ==> |h| == if x.Terminate? then 2 else 3))
  {
    HistoryIsTold(threads, schedule);
    hide Execution, History;
    var s, h := Execution(threads, schedule), History(threads, schedule);
    if h != [] {
      var x := h[0].task;
      assert h <= Course(x) && Course(x) <= [Won(x), Announced(x), Performed(x)];
    }
  }

  ghost predicate Entering(s: State, x: Task) {
    exists t :: t in s.pc && s.pc[t].Run? && s.pc[t].task == x && s.pc[t].stage.ClaimTerminating?
  }

  /** What a thread enters, it was responsible for and had not begun. */
  lemma StepEnters(s: State, t: nat, a: Action)
    requires t in s.pc
    ensures var pc := Step(s, t, a).pc[t];
            pc.Run? && pc.stage.ClaimTerminating? && pc != s.pc[t] ==> pc.task in Waits(s.pc[t])
  {
    hide SetFate, NextLife;
  }

  lemma WaitingHasNotBegun(s: State, t: nat, x: Task)
    requires Conserved(s) && t in s.pc && x in Waits(s.pc[t])
    ensures x !in s.begun
  {
    assert ThreadConserved(s, t) && BegunConserved(s);
  }

  lemma StepDoesNotReenter(s: State, t: nat, a: Action, x: Task)
    requires Conserved(s) && x in s.begun && !Entering(s, x)
    ensures !Entering(Step(s, t, a), x)
  {
    OthersStay(s, t, a);
    if t in s.pc { StepEnters(s, t, a); }
    hide Conserved, Step, Waits;
    var s' := Step(s, t, a);
    if Entering(s', x) {
      var u :| u in s'.pc && s'.pc[u].Run? && s'.pc[u].task == x && s'.pc[u].stage.ClaimTerminating?;
      assert u == t && s'.pc[t] != s.pc[t];
      WaitingHasNotBegun(s, t, x);
    }
  }

  /** An event is the doing of the first winner, or of a task at its first test. */
  lemma EventIsFrom(s: State, t: nat, a: Action, h: seq<Event>)
    requires OneWinner(s) && Told(s, h)
    ensures forall e :: e in Events(s, t, a) ==> Entering(s, e.task) || exists f :: f in h && f.task == e.task
  {
    hide SemaphoreFits;
    if t in s.pc && s.pc[t].Run? {
      assert StageFits(s.pc[t], t, s.life);
      if Deciding(s.pc[t]) { assert h[0] in h; }
      hide SetFate;
    }
  }

  lemma KnownByInv(s: State)
    requires Inv(s)
    ensures Conserved(s) && StartOrder(s) && OneWinner(s)
  {
  }

  /** A task that has begun, is past its first test and is not in the history. */
  ghost predicate Outside(s: State, h: seq<Event>, x: Task) {
    x in s.begun && !Entering(s, x) && forall e :: e in h ==> e.task != x
  }

  lemma StepKeepsOutside(s: State, t: nat, a: Action, h: seq<Event>, x: Task)
    requires Inv(s) && Told(s, h) && Outside(s, h, x)
    ensures Outside(Step(s, t, a), h + Events(s, t, a), x)
  {
    KnownByInv(s);
    hide Step, Inv, Told, Conserved, OneWinner, StartOrder, Events, Entering;
    BegunGrows(s, t, a);
    StepDoesNotReenter(s, t, a, x);
    EventIsFrom(s, t, a, h);
  }

  /** Such a task never gets there. */
  lemma {:induction false} OutsiderStaysOut(threads: set<nat>, schedule: seq<(nat, Action)>, k: nat, x: Task)
    requires k <= |schedule| && Outside(Execution(threads, schedule[..k]), History(threads, schedule[..k]), x)
    ensures Outside(Execution(threads, schedule), History(threads, schedule), x)
    decreases |schedule|
  {
    hide Step, Inv, Told, Outside, Events;
    var n := |schedule| - 1;
    if k == |schedule| {
      assert schedule[..k] == schedule;
    } else {
      assert schedule[..n][..k] == schedule[..k];
      OutsiderStaysOut(threads, schedule[..n], k, x);
      Reached(threads, schedule[..n]);
      HistoryIsTold(threads, schedule[..n]);
      StepKeepsOutside(Execution(threads, schedule[..n]), schedule[n].0, schedule[n].1,
                       History(threads, schedule[..n]), x);
    }
  }

  lemma OneThreadRuns(s: State, t: nat, u: nat)
    requires Conserved(s) && t in s.pc && u in s.pc && s.pc[t].Run? && s.pc[u].Run? && s.pc[t].task == s.pc[u].task
    ensures t == u
  {
    assert ThreadConserved(s, t) && ThreadConserved(s, u);
  }

  lemma FirstEvent(s: State, t: nat, a: Action)
    requires Conserved(s) && Events(s, t, a) != []
    ensures var x := Events(s, t, a)[0].task;
            x in Step(s, t, a).begun && !Entering(Step(s, t, a), x)
  {
    BegunGrows(s, t, a);
    OthersStay(s, t, a);
    var x := Events(s, t, a)[0].task;
    assert x == s.pc[t].task;
    assert ThreadConserved(s, t) && BegunConserved(s);
    hide Conserved, BegunConserved, ThreadConserved, Step, Events, Waits;
    var s' := Step(s, t, a);
    if Entering(s', x) {
      var u :| u in s'.pc && s'.pc[u].Run? && s'.pc[u].task == x && s'.pc[u].stage.ClaimTerminating?;
      if u == t { StepEnters(s, t, a); WaitingHasNotBegun(s, t, x); } else { OneThreadRuns(s, t, u); }
    }
  }

  /** The winner is past its first test. */
  lemma {:induction false} WinnerIsPast(threads: set<nat>, schedule: seq<(nat, Action)>)
    ensures var s, h := Execution(threads, schedule), History(threads, schedule);
            h != [] ==> h[0].task in s.begun && !Entering(s, h[0].task)
    decreases |schedule|
  {
    var n := |schedule| - 1;
    if schedule != [] && History(threads, schedule) != [] {
      WinnerIsPast(threads, schedule[..n]);
      ReachedConserved(threads, schedule[..n]);
      hide Step, Conserved, Events;
      var s, h := Execution(threads, schedule[..n]), History(threads, schedule[..n]);
      if h == [] {
        FirstEvent(s, schedule[n].0, schedule[n].1);
      } else {
        BegunGrows(s, schedule[n].0, schedule[n].1);
        StepDoesNotReenter(s, schedule[n].0, schedule[n].1, h[0].task);
      }
    }
  }

  /** A destroy or detach whose test finds any other phase than running ends there: its thread goes
      on with the rest of its batch, and in no continuation does the task announce or perform anything. */
  lemma LoserDoesNothing(threads: set<nat>, schedule: seq<(nat, Action)>, k: nat)
    requires k < |schedule| && schedule[k].1 == Proceed
    requires var s, t := Execution(threads, schedule[..k]), schedule[k].0;
             && t in s.pc && s.pc[t].Run? && s.pc[t].stage.ClaimTerminating?
             && !s.pc[t].task.Terminate? && !s.life.phase.Running?
    ensures var s, t := Execution(threads, schedule[..k]), schedule[k].0;
            && Execution(threads, schedule[..k + 1]).pc == s.pc[t := Batch(s.pc[t].rest)]
            && forall e :: e in History(threads, schedule) ==> e.task != s.pc[t].task
  {
    Reached(threads, schedule[..k]);
    HistoryIsTold(threads, schedule[..k]);
    WinnerIsPast(threads, schedule[..k]);
    var s, t := Execution(threads, schedule[..k]), schedule[k].0;
    var x := s.pc[t].task;
    assert schedule[..k + 1][..k] == schedule[..k];
    hide Step, Inv, Told, Events, Outside, Entering, Conserved, OneWinner;
    LoserEnds(s, t, History(threads, schedule[..k]));
    assert History(threads, schedule[..k + 1]) == History(threads, schedule[..k]);
    OutsiderStaysOut(threads, schedule, k + 1, x);
  }

  lemma LoserEnds(s: State, t: nat, h: seq<Event>)
    requires Inv(s) && Told(s, h) && t in s.pc && s.pc[t].Run? && s.pc[t].stage.ClaimTerminating?
    requires !s.pc[t].task.Terminate? && !s.life.phase.Running?
    requires h != [] ==> !Entering(s, h[0].task)
    ensures var s', x := Step(s, t, Proceed), s.pc[t].task;
            s'.pc == s.pc[t := Batch(s.pc[t].rest)] && x in s'.begun && !Entering(s', x)
    ensures Events(s, t, Proceed) == []
    ensures forall e :: e in h ==> e.task != s.pc[t].task
  {
    hide SetFate, OneWinner, StartOrder;
    var x := s.pc[t].task;
    assert Entering(s, x);
    assert ThreadConserved(s, t) && BegunConserved(s);
    forall u | u in s.pc && s.pc[u].Run? && s.pc[u].task == x ensures u == t { OneThreadRuns(s, t, u); }
  }

  /** The task that a thread enters with a step. */
  ghost function Entered(s: State, t: nat, a: Action): seq<Task> {
    if t in s.pc && !s.pc[t].Run? && Step(s, t, a).pc[t].Run? then [Step(s, t, a).pc[t].task] else []
  }

  ghost function Starts(threads: set<nat>, schedule: seq<(nat, Action)>): seq<Task> {
    if schedule == [] then []
    else
      var n := |schedule| - 1;
      Starts(threads, schedule[..n]) + Entered(Execution(threads, schedule[..n]), schedule[n].0, schedule[n].1)
  }

  lemma StepBegins(s: State, t: nat, a: Action)
    ensures Step(s, t, a).begun == s.begun + Entered(s, t, a)
  {
    hide SetFate, NextLife, NextStage;
  }

  lemma {:induction false} BegunAreTheStarts(threads: set<nat>, schedule: seq<(nat, Action)>)
    ensures Execution(threads, schedule).begun == Starts(threads, schedule)
    decreases |schedule|
  {
    hide Step, Entered;
    if schedule != [] {
      var n := |schedule| - 1;
      BegunAreTheStarts(threads, schedule[..n]);
      StepBegins(Execution(threads, schedule[..n]), schedule[n].0, schedule[n].1);
    }
  }

  /** No task is entered before the start, and none is entered twice. */
  lemma TasksBeginOnceAfterStart(threads: set<nat>, schedule: seq<(nat, Action)>)
    ensures var s, starts := Execution(threads, schedule), Starts(threads, schedule);
            starts == s.begun && Distinct(starts) && (starts != [] ==> !s.life.phase.Initial?)
  {
    BegunAreTheStarts(threads, schedule);
    Reached(threads, schedule);
  }

  /** Step k of the schedule is a throw by a thread in whose batch the task stands behind the running one. */
  ghost predicate TakenAlong(threads: set<nat>, schedule: seq<(nat, Action)>, x: Task, k: nat) {
    && k < |schedule| && schedule[k].1 == Throw
    && var s, t := Execution(threads, schedule[..k]), schedule[k].0;
       t in s.pc && s.pc[t].Run? && s.pc[t].stage.Impl? && x in s.pc[t].rest
  }

  ghost predicate IsLost(s: State, x: Task) {
    x in s.fate && s.fate[x].Dropped?
  }

  /** A change of one task's fate that is not its loss. */
  lemma UpdateLosesNothing(s: State, s': State, y: Task, f: Fate, x: Task)
    requires s'.fate == s.fate[y := f] && !f.Dropped? && !IsLost(s, y)
    ensures IsLost(s', x) <==> IsLost(s, x)
  {
  }

  lemma AdvanceLosesNothing(s: State, t: nat, x: Task)
    requires Conserved(s) && t in s.pc
    ensures IsLost(Advance(s, t), x) <==> IsLost(s, x)
  {
    var s' := Advance(s, t);
    assert ThreadConserved(s, t);
    assert PendingConserved(s);
    hide Conserved, Distinct, NextLife, NextStage;
    match s.pc[t]
    case Check(y) => if !s.life.phase.Initial? { UpdateLosesNothing(s, s', y, Active(t), x); }
    case Add(y) => UpdateLosesNothing(s, s', y, Queued, x);
    case Grab => GrabLosesNothing(s, t, x);
    case Batch(todo) => if todo != [] { UpdateLosesNothing(s, s', todo[0], Active(t), x); }
    case Run(y, stage, _) => if s'.fate != s.fate { UpdateLosesNothing(s, s', y, Finished, x); }
    case _ =>
  }

  lemma GrabLosesNothing(s: State, t: nat, x: Task)
    requires PendingConserved(s)
    ensures IsLost(GrabAll(s, t), x) <==> IsLost(s, x)
  {
  }

  lemma ThrowLoses(s: State, t: nat, x: Task)
    requires Conserved(s) && t in s.pc && s.pc[t].Run?
    ensures IsLost(Abandon(s, t, s.pc[t].task, s.pc[t].rest), x) <==> IsLost(s, x) || x in s.pc[t].rest
  {
    assert ThreadConserved(s, t);
    hide Conserved, Distinct;
  }

  /** A task becomes lost in just one way, and stays so. */
  lemma StepLoses(s: State, t: nat, a: Action, x: Task)
    requires Conserved(s)
    ensures IsLost(Step(s, t, a), x) <==>
            || IsLost(s, x)
            || (a == Throw && t in s.pc && s.pc[t].Run? && s.pc[t].stage.Impl? && x in s.pc[t].rest)
  {
    if t in s.pc {
      match a
      case CallExecute(y) => if s.pc[t].Idle? && y !in s.fate { UpdateLosesNothing(s, Submit(s, t, y), y, Held(t), x); }
      case Throw => if s.pc[t].Run? && s.pc[t].stage.Impl? { ThrowLoses(s, t, x); }
      case Proceed => AdvanceLosesNothing(s, t, x);
      case _ =>
    }
  }

  lemma TakenAlongLater(threads: set<nat>, schedule: seq<(nat, Action)>, x: Task, k: nat)
    requires schedule != [] && k < |schedule| - 1
    ensures TakenAlong(threads, schedule, x, k) <==> TakenAlong(threads, schedule[..|schedule| - 1], x, k)
  {
    hide Execution;
    assert schedule[..|schedule| - 1][..k] == schedule[..k];
  }

  /** The bookkeeping in terms of the run: lost are the tasks that some throw took along. */
  lemma {:induction false} LostByThrow(threads: set<nat>, schedule: seq<(nat, Action)>, x: Task)
    ensures IsLost(Execution(threads, schedule), x) <==> exists k :: TakenAlong(threads, schedule, x, k)
    decreases |schedule|
  {
    hide Step, IsLost, Inv;
    if schedule == [] {
      NothingLostInitially(threads, x);
    } else {
      var n := |schedule| - 1;
      var before := schedule[..n];
      LostByThrow(threads, before, x);
      ReachedConserved(threads, before);
      StepLoses(Execution(threads, before), schedule[n].0, schedule[n].1, x);
      forall k: nat | k < n ensures TakenAlong(threads, schedule, x, k) <==> TakenAlong(threads, before, x, k) {
        TakenAlongLater(threads, schedule, x, k);
      }
      if IsLost(Execution(threads, schedule), x) && !IsLost(Execution(threads, before), x) {
        assert TakenAlong(threads, schedule, x, n);
      }
    }
  }

  lemma NothingLostInitially(threads: set<nat>, x: Task)
    ensures !IsLost(Initially(threads), x)
  {
  }

  lemma ReachedConserved(threads: set<nat>, schedule: seq<(nat, Action)>)
    ensures Conserved(Execution(threads, schedule))
  {
    hide Execution;
    Reached(threads, schedule);
  }

  /** The phase after startNotify was called at step k by an idle thread and that thread went on. */
  lemma {:induction false} StartTakesEffect(threads: set<nat>, schedule: seq<(nat, Action)>, k: nat)
    requires k < |schedule| && schedule[k].1 == CallStart
    requires var s, t := Execution(threads, schedule[..k]), schedule[k].0; t in s.pc && s.pc[t].Idle?
    ensures var s, t := Execution(threads, schedule), schedule[k].0;
            s.life.phase.Initial? ==>
              (t in s.pc && s.pc[t].StartCas?) && forall j :: k < j < |schedule| ==> schedule[j] != (t, Proceed)
    decreases |schedule|
  {
    var n := |schedule| - 1;
    if k < n {
      assert schedule[..n][..k] == schedule[..k];
      StartTakesEffect(threads, schedule[..n], k);
      var s, t := Execution(threads, schedule[..n]), schedule[k].0;
      StepMovesPhase(s, schedule[n].0, schedule[n].1);
      OthersStay(s, schedule[n].0, schedule[n].1);
      if s.life.phase.Initial? && schedule[n].0 == t { StarterStays(s, t, schedule[n].1); }
      hide Step;
    }
  }

  lemma StarterStays(s: State, t: nat, a: Action)
    requires t in s.pc && s.pc[t].StartCas? && s.life.phase.Initial?
    ensures if a == Proceed then Step(s, t, a).life.phase.Running? else Step(s, t, a) == s
  {
  }

  // ---- every thread can come to rest

  function StageRank(life: Life, stage: Stage): nat {
    match stage
    case ClaimTerminating => 7
    case WillTerminate => 6
    case Impl => 5
    case ClaimTerminated => 4
    case Dispatching => 3
    case UpRead => 2
    case UpCas(c) => if c == life.semaphore then 1 else 3
  }

  /** How much a thread has to do at most when it runs alone. */
  function Ahead(s: State, t: nat): nat
    requires t in s.pc
  {
    var all := 10 * |s.pending|;
    match s.pc[t]
    case Idle => 0
    case Waiting => 0
    case StartCas => 5 + all
    case Started => 4 + all
    case Check(_) => 16 + all
    case Add(_) => 15 + all
    case Recheck => 4 + all
    case Grab => 3 + all
    case Batch(todo) => 1 + 10 * |todo|
    case Run(_, stage, rest) => 1 + 10 * |rest| + StageRank(s.life, stage)
  }

  lemma AloneAdvances(s: State, t: nat)
    requires t in s.pc && !s.pc[t].Idle? && !s.pc[t].Waiting?
    ensures Ahead(Step(s, t, Proceed), t) < Ahead(s, t)
  {
    hide SetFate;
  }

  /** Left alone, a thread gets out of start, execute or the tasks it runs. */
  lemma {:induction false} AloneRests(threads: set<nat>, schedule: seq<(nat, Action)>, t: nat)
    returns (longer: seq<(nat, Action)>)
    requires t in Execution(threads, schedule).pc
    ensures schedule <= longer && forall k :: |schedule| <= k < |longer| ==> longer[k] == (t, Proceed)
    ensures var s, s' := Execution(threads, schedule), Execution(threads, longer);
            t in s'.pc && s'.pc == s.pc[t := s'.pc[t]] && (s'.pc[t].Idle? || s'.pc[t].Waiting?)
    decreases Ahead(Execution(threads, schedule), t)
  {
    var s := Execution(threads, schedule);
    longer := schedule;
    if !s.pc[t].Idle? && !s.pc[t].Waiting? {
      AloneAdvances(s, t);
      OthersStay(s, t, Proceed);
      hide Step, Ahead;
      var s';
      longer, s' := GoOn(threads, schedule, s, t, Proceed);
      var one := longer;
      longer := AloneRests(threads, longer, t);
      assert longer[|schedule|] == one[|schedule|];
    }
  }

  /** From every state that can be reached, all threads can come to rest by going on, without
      another call, a throw or an interrupt: none is ever stuck inside start, execute or a task. */
  lemma RestCanAlwaysCome(threads: set<nat>, schedule: seq<(nat, Action)>) returns (longer: seq<(nat, Action)>)
    ensures schedule <= longer && forall k :: |schedule| <= k < |longer| ==> longer[k].1 == Proceed
    ensures AtRest(Execution(threads, longer))
  {
    longer := RestOf(threads, schedule, Execution(threads, schedule).pc.Keys);
  }

  lemma {:induction false} RestOf(threads: set<nat>, schedule: seq<(nat, Action)>, busy: set<nat>)
    returns (longer: seq<(nat, Action)>)
    requires var s := Execution(threads, schedule);
             busy <= s.pc.Keys && forall t :: t in s.pc && t !in busy ==> s.pc[t].Idle? || s.pc[t].Waiting?
    ensures schedule <= longer && forall k :: |schedule| <= k < |longer| ==> longer[k].1 == Proceed
    ensures AtRest(Execution(threads, longer))
    decreases |busy|
  {
    hide Execution;
    longer := schedule;
    if busy != {} {
      var t :| t in busy;
      longer := AloneRests(threads, schedule, t);
      var one := longer;
      longer := RestOf(threads, longer, busy - {t});
      forall k | |schedule| <= k < |longer| ensures longer[k].1 == Proceed {
        assert k < |one| ==> longer[k] == one[k];
      }
    }
  }

  /** Step k of the schedule is an idle thread's call that brings the task. */
  ghost predicate Submits(threads: set<nat>, schedule: seq<(nat, Action)>, x: Task, k: nat) {
    && k < |schedule| && schedule[k].1 == CallExecute(x)
    && var s, t := Execution(threads, schedule[..k]), schedule[k].0; t in s.pc && s.pc[t].Idle?
  }

  lemma StepSubmits(s: State, t: nat, a: Action, x: Task)
    requires Conserved(s)
    ensures x in Step(s, t, a).fate <==> x in s.fate || (a == CallExecute(x) && t in s.pc && s.pc[t].Idle?)
  {
    assert PendingConserved(s);
    if t in s.pc { assert ThreadConserved(s, t); }
    hide Conserved, Distinct, NextLife, NextStage;
  }

  /** A task is known exactly if a call has brought it. */
  lemma {:induction false} SubmittedByCalls(threads: set<nat>, schedule: seq<(nat, Action)>, x: Task)
    ensures x in Execution(threads, schedule).fate <==> exists k :: Submits(threads, schedule, x, k)
    decreases |schedule|
  {
    hide Step, Conserved;
    if schedule != [] {
      var n := |schedule| - 1;
      SubmittedByCalls(threads, schedule[..n], x);
      ReachedConserved(threads, schedule[..n]);
      StepSubmits(Execution(threads, schedule[..n]), schedule[n].0, schedule[n].1, x);
      forall k: nat | k < n ensures Submits(threads, schedule, x, k) <==> Submits(threads, schedule[..n], x, k) {
        assert schedule[..n][..k] == schedule[..k];
      }
      if x in Execution(threads, schedule).fate && x !in Execution(threads, schedule[..n]).fate {
        assert Submits(threads, schedule, x, n);
      }
    }
  }

  /** Once started and at rest, nothing is pending, and a task that was submitted has begun unless a
      throw in front of it in the same batch took it along. */
  lemma NoTaskIsLost(threads: set<nat>, schedule: seq<(nat, Action)>)
    ensures var s := Execution(threads, schedule);
            AtRest(s) && !s.life.phase.Initial? ==>
              && s.pending == []
              && forall x :: x in s.begun <==>
                   && (exists k :: Submits(threads, schedule, x, k))
                   && !exists k :: TakenAlong(threads, schedule, x, k)
  {
    hide Execution, TakenAlong, Submits, Distinct;
    Reached(threads, schedule);
    var s := Execution(threads, schedule);
    if AtRest(s) && !s.life.phase.Initial? {
      forall x
        ensures x in s.begun <==>
                && (exists k :: Submits(threads, schedule, x, k))
                && !exists k :: TakenAlong(threads, schedule, x, k)
      {
        SubmittedByCalls(threads, schedule, x);
        LostByThrow(threads, schedule, x);
        assert x in s.fate ==> Placed(s, x, s.fate[x]);
      }
    }
  }

  // ---- in which order the tasks of a batch are run

  /** The task that a thread adds to the pending ones with a step. */
  ghost function Adding(s: State, t: nat, a: Action): seq<Task> {
    if a == Proceed && t in s.pc && s.pc[t].Add? then [s.pc[t].task] else []
  }

  ghost function Additions(threads: set<nat>, schedule: seq<(nat, Action)>): seq<Task> {
    if schedule == [] then []
    else
      var n := |schedule| - 1;
      Additions(threads, schedule[..n]) + Adding(Execution(threads, schedule[..n]), schedule[n].0, schedule[n].1)
  }

  ghost predicate Before(added: seq<Task>, x: Task, y: Task) {
    exists i, j :: 0 <= i < j < |added| && added[i] == x && added[j] == y
  }

  /** These tasks were added one after the other. */
  ghost predicate Ranked(tasks: seq<Task>, added: seq<Task>) {
    && (forall i :: 0 <= i < |tasks| ==> tasks[i] in added)
    && forall i, j :: 0 <= i < j < |tasks| ==> Before(added, tasks[i], tasks[j])
  }

  /** What a thread has to run: the task it is in, and the rest of its batch. */
  function ToRun(pc: Pc): seq<Task> {
    match pc
    case Batch(todo) => todo
    case Run(x, _, rest) => if rest == [] then [] else [x] + rest
    case _ => []
  }

  ghost predicate InOrder(s: State, added: seq<Task>) {
    Ranked(s.pending, added) && forall t :: t in s.pc ==> Ranked(ToRun(s.pc[t]), added)
  }

  lemma RankedLater(tasks: seq<Task>, added: seq<Task>, more: seq<Task>)
    requires Ranked(tasks, added)
    ensures Ranked(tasks, added + more)
  {
    forall i, j | 0 <= i < j < |tasks| ensures Before(added + more, tasks[i], tasks[j]) {
      var k, l :| 0 <= k < l < |added| && added[k] == tasks[i] && added[l] == tasks[j];
      assert (added + more)[k] == tasks[i] && (added + more)[l] == tasks[j];
    }
  }

  lemma RankedRest(tasks: seq<Task>, added: seq<Task>)
    requires Ranked(tasks, added) && tasks != []
    ensures Ranked(tasks[1..], added)
  {
    hide Before;
  }

  lemma RankedNext(tasks: seq<Task>, added: seq<Task>, x: Task)
    requires Ranked(tasks, added)
    ensures Ranked(tasks + [x], added + [x])
  {
    RankedLater(tasks, added, [x]);
    var now, all := tasks + [x], added + [x];
    forall i, j | 0 <= i < j < |now| ensures Before(all, now[i], now[j]) {
      if j == |tasks| {
        assert tasks[i] in added;
        var k :| 0 <= k < |added| && added[k] == tasks[i];
        assert all[k] == now[i] && all[|added|] == x;
      }
    }
  }

  /** A step leaves its thread with what it had to run, with that but for the first, or with all that was pending. */
  lemma StepTakes(s: State, t: nat, a: Action)
    requires t in s.pc
    ensures var s' := Step(s, t, a);
            var was, now := ToRun(s.pc[t]), ToRun(s'.pc[t]);
            && (now == was || now == [] || (was != [] && now == was[1..]) || now == s.pending)
            && (s'.pending == s.pending + Adding(s, t, a) || s'.pending == [])
            && (Adding(s, t, a) != [] ==> now == [] && s'.pending == s.pending + Adding(s, t, a))
  {
    hide SetFate, NextLife, NextStage;
    assert s.pending + [] == s.pending;
  }

  lemma StepKeepsOrder(s: State, t: nat, a: Action, added: seq<Task>)
    requires InOrder(s, added)
    ensures InOrder(Step(s, t, a), added + Adding(s, t, a))
  {
    OthersStay(s, t, a);
    if t in s.pc { StepTakes(s, t, a); }
    hide Step, Ranked, ToRun;
    var s', more := Step(s, t, a), Adding(s, t, a);
    NothingIsRanked(added + more);
    assert added + [] == added;
    if t in s.pc {
      var was, now := ToRun(s.pc[t]), ToRun(s'.pc[t]);
      if was != [] { RankedRest(was, added); }
      if more != [] { RankedNext(s.pending, added, more[0]); assert more == [more[0]]; }
      forall u | u in s'.pc ensures Ranked(ToRun(s'.pc[u]), added + more) {
        if u != t { RankedLater(ToRun(s.pc[u]), added, more); }
      }
      assert s.pending + [] == s.pending;
    } else {
      StepOfNobody(s, t, a);
    }
  }

  lemma NothingIsRanked(added: seq<Task>)
    ensures Ranked([], added)
  {
  }

  lemma StepOfNobody(s: State, t: nat, a: Action)
    requires t !in s.pc
    ensures Step(s, t, a) == s
  {
  }

  /** The pending tasks, and those of the batch that a thread has grabbed, stand in the order in
      which they were added, and a thread runs the first of its batch first. */
  lemma {:induction false} BatchesAreInOrder(threads: set<nat>, schedule: seq<(nat, Action)>)
    ensures InOrder(Execution(threads, schedule), Additions(threads, schedule))
    decreases |schedule|
  {
    hide Step, Adding;
    if schedule != [] {
      var n := |schedule| - 1;
      BatchesAreInOrder(threads, schedule[..n]);
      hide InOrder;
      StepKeepsOrder(Execution(threads, schedule[..n]), schedule[n].0, schedule[n].1,
                     Additions(threads, schedule[..n]));
    }
  }

  /** The phases are passed in order, one at a time, each by exactly one winner. */
  lemma {:induction false} PhasesInOrder(threads: set<nat>, schedule: seq<(nat, Action)>, k: nat)
    requires k <= |schedule|
    ensures var s := Execution(threads, schedule);
            && Execution(threads, schedule[..k]).life.phase.Rank() <= s.life.phase.Rank()
            && s.life.terminatingWins == (if s.life.phase.Rank() >= 2 then 1 else 0)
            && |s.life.terminatedBy| == (if s.life.phase.Rank() == 3 then 1 else 0)
    ensures k + 1 == |schedule| ==>
              Execution(threads, schedule).life.phase.Rank() <= Execution(threads, schedule[..k]).life.phase.Rank() + 1
    decreases |schedule|
  {
    Reached(threads, schedule);
    if k < |schedule| {
      var before := schedule[..|schedule| - 1];
      var last := schedule[|schedule| - 1];
      Reached(threads, before);
      PhasesInOrder(threads, before, k);
      assert schedule[..k] == before[..k];
      StepKeepsStartOrder(Execution(threads, before), last.0, last.1);
    } else {
      assert schedule[..k] == schedule;
    }
  }

  /** The task whose thread tells the listeners with a step that the process has terminated. */
  ghost function Telling(s: State, t: nat, a: Action): seq<Task> {
    if a == Proceed && t in s.pc && s.pc[t].Run? && s.pc[t].stage.Dispatching? then [s.pc[t].task] else []
  }

  ghost function Dispatches(threads: set<nat>, schedule: seq<(nat, Action)>): seq<Task> {
    if schedule == [] then []
    else
      var n := |schedule| - 1;
      Dispatches(threads, schedule[..n]) + Telling(Execution(threads, schedule[..n]), schedule[n].0, schedule[n].1)
  }

  lemma StepDispatches(s: State, t: nat, a: Action)
    requires OneWinner(s)
    ensures Step(s, t, a).life.dispatched == s.life.dispatched + |Telling(s, t, a)|
    ensures forall x :: x in Telling(s, t, a) ==> x.Terminate?
  {
    if t in s.pc { assert StageFits(s.pc[t], t, s.life); }
    hide SetFate, SemaphoreFits;
  }

  lemma {:induction false} DispatchesAreCounted(threads: set<nat>, schedule: seq<(nat, Action)>)
    ensures |Dispatches(threads, schedule)| == Execution(threads, schedule).life.dispatched
    ensures forall x :: x in Dispatches(threads, schedule) ==> x.Terminate?
    decreases |schedule|
  {
    if schedule != [] {
      var n := |schedule| - 1;
      DispatchesAreCounted(threads, schedule[..n]);
      Reached(threads, schedule[..n]);
      KnownByInv(Execution(threads, schedule[..n]));
      hide Step, Inv, OneWinner, Telling;
      StepDispatches(Execution(threads, schedule[..n]), schedule[n].0, schedule[n].1);
    }
  }

  /** The listeners are told at most once, by a termination task, and a waiter that goes on by itself
      does so only after they have been told. */
  lemma WaitersSeeTheDispatch(threads: set<nat>, schedule: seq<(nat, Action)>, t: nat)
    ensures |Dispatches(threads, schedule)| <= 1
    ensures forall x :: x in Dispatches(threads, schedule) ==> x.Terminate?
    ensures var s := Execution(threads, schedule);
            t in s.pc && s.pc[t].Waiting? && !Step(s, t, Proceed).pc[t].Waiting? ==>
              |Dispatches(threads, schedule)| == 1 && s.life.phase.Terminated?
  {
    Reached(threads, schedule);
    DispatchesAreCounted(threads, schedule);
    hide Execution, Dispatches, Conserved, StartOrder;
  }

  ghost predicate StillWaits(threads: set<nat>, schedule: seq<(nat, Action)>, t: nat) {
    var s := Execution(threads, schedule);
    (t in s.pc && s.pc[t].Waiting?) || |Dispatches(threads, schedule)| == 1
  }

  /** A thread that has called waitFor stays there until the listeners are told or it is interrupted. */
  lemma {:induction false} WaitersStay(threads: set<nat>, schedule: seq<(nat, Action)>, k: nat)
    requires k < |schedule| && schedule[k].1 == CallWaitFor
    requires var s, t := Execution(threads, schedule[..k]), schedule[k].0; t in s.pc && s.pc[t].Idle?
    requires forall j :: k < j < |schedule| ==> schedule[j] != (schedule[k].0, Interrupt)
    ensures StillWaits(threads, schedule, schedule[k].0)
    decreases |schedule|
  {
    var n := |schedule| - 1;
    var t := schedule[k].0;
    if k < n {
      hide StillWaits, Execution;
      assert schedule[..n][..k] == schedule[..k];
      WaitersStay(threads, schedule[..n], k);
      assert schedule[n] != (t, Interrupt);
      WaitGoesOn(threads, schedule, t);
    }
  }

  lemma WaitGoesOn(threads: set<nat>, schedule: seq<(nat, Action)>, t: nat)
    requires schedule != [] && schedule[|schedule| - 1] != (t, Interrupt)
    requires StillWaits(threads, schedule[..|schedule| - 1], t)
    ensures StillWaits(threads, schedule, t)
  {
    var n := |schedule| - 1;
    WaitersSeeTheDispatch(threads, schedule[..n], t);
    WaitersSeeTheDispatch(threads, schedule, t);
    DispatchesGrow(threads, schedule);
    hide Step, Dispatches;
    var s := Execution(threads, schedule[..n]);
    if (t in s.pc && s.pc[t].Waiting?) && (schedule[n] == (t, Proceed) ==> Step(s, t, Proceed).pc[t].Waiting?) {
      WaiterStays(s, t, schedule[n].0, schedule[n].1);
    }
  }

  lemma DispatchesGrow(threads: set<nat>, schedule: seq<(nat, Action)>)
    requires schedule != []
    ensures |Dispatches(threads, schedule[..|schedule| - 1])| <= |Dispatches(threads, schedule)|
  {
    hide Execution, Telling;
  }

  lemma WaiterStays(s: State, t: nat, u: nat, a: Action)
    requires t in s.pc && s.pc[t].Waiting? && (u, a) != (t, Interrupt)
    requires (u, a) == (t, Proceed) ==> Step(s, t, Proceed).pc[t].Waiting?
    ensures t in Step(s, u, a).pc && Step(s, u, a).pc[t].Waiting?
  {
    OthersStay(s, u, a);
    hide SetFate;
  }

  ghost predicate TerminationBegun(s: State) {
    exists x :: x in s.begun && x.Terminate?
  }

  lemma BegunGrows(s: State, t: nat, a: Action)
    ensures s.begun <= Step(s, t, a).begun
  {
    hide SetFate, NextLife, NextStage;
  }

  /** Only a termination task takes the process to its last phase. */
  lemma StepTerminates(s: State, t: nat, a: Action)
    requires Conserved(s) && OneWinner(s)
    requires s.life.phase.Terminated? ==> TerminationBegun(s)
    ensures Step(s, t, a).life.phase.Terminated? ==> TerminationBegun(Step(s, t, a))
  {
    BegunGrows(s, t, a);
    hide Distinct, SemaphoreFits, SetFate;
    var s' := Step(s, t, a);
    if s'.life.phase.Terminated? {
      if s.life.phase.Terminated? {
        var x :| x in s.begun && x.Terminate?;
        assert x in s'.begun;
      } else {
        assert StageFits(s.pc[t], t, s.life) && ThreadConserved(s, t);
        assert s.pc[t].task in s'.begun;
      }
    }
  }

  lemma {:induction false} TerminatedByTask(threads: set<nat>, schedule: seq<(nat, Action)>)
    ensures var s := Execution(threads, schedule); s.life.phase.Terminated? ==> TerminationBegun(s)
    decreases |schedule|
  {
    if schedule != [] {
      var n := |schedule| - 1;
      TerminatedByTask(threads, schedule[..n]);
      Reached(threads, schedule[..n]);
      StepTerminates(Execution(threads, schedule[..n]), schedule[n].0, schedule[n].1);
    }
  }

  /** At rest the process counts as terminated, and its waiters can go on, exactly if a termination
      task has begun; otherwise every one of them stays blocked. */
  lemma TerminationReleasesWaiters(threads: set<nat>, schedule: seq<(nat, Action)>)
    ensures var s := Execution(threads, schedule);
            AtRest(s) ==>
              && (s.life.phase.Terminated? <==> TerminationBegun(s))
              && (TerminationBegun(s) ==> |Dispatches(threads, schedule)| == 1)
              && forall t :: t in s.pc && s.pc[t].Waiting? ==>
                   (Step(s, t, Proceed).pc[t].Idle? <==> TerminationBegun(s))
  {
    Reached(threads, schedule);
    TerminatedByTask(threads, schedule);
    DispatchesAreCounted(threads, schedule);
    hide Execution, Distinct, Dispatches;
    var s := Execution(threads, schedule);
    if AtRest(s) && TerminationBegun(s) {
      var x :| x in s.begun && x.Terminate?;
      assert Placed(s, x, s.fate[x]);
    }
  }

  lemma GoOn(threads: set<nat>, schedule: seq<(nat, Action)>, s: State, t: nat, a: Action)
    returns (longer: seq<(nat, Action)>, after: State)
    requires s == Execution(threads, schedule)
    ensures longer == schedule + [(t, a)] && after == Step(s, t, a) && after == Execution(threads, longer)
  {
    longer, after := schedule + [(t, a)], Step(s, t, a);
    assert longer[..|longer| - 1] == schedule;
  }

  /** execute before the start: the task ends up pending. */
  lemma DeferredBeforeStart(threads: set<nat>, schedule: seq<(nat, Action)>, s: State, x: Task)
    returns (longer: seq<(nat, Action)>, after: State)
    requires s == Execution(threads, schedule)
    requires 0 in s.pc && s.pc[0].Idle? && s.life.phase.Initial? && x !in s.fate
    ensures after == Execution(threads, longer)
    ensures after == s.(pending := s.pending + [x], fate := s.fate[x := Queued])
  {
    longer, after := GoOn(threads, schedule, s, 0, CallExecute(x));
    longer, after := GoOn(threads, longer, after, 0, Proceed);
    assert after.pc[0] == Add(x);
    longer, after := GoOn(threads, longer, after, 0, Proceed);
    longer, after := GoOn(threads, longer, after, 0, Proceed);
    assert after.pc == s.pc && after.fate == s.fate[x := Queued];
  }

  /** startNotify: the pending tasks become the starter's batch. */
  lemma StartedBy(threads: set<nat>, schedule: seq<(nat, Action)>, s: State)
    returns (longer: seq<(nat, Action)>, after: State)
    requires s == Execution(threads, schedule)
    requires 0 in s.pc && s.pc[0].Idle? && s.life.phase.Initial?
    ensures after == Execution(threads, longer)
    ensures after == GrabAll(Goto(s, 0, Grab, s.life.(phase := Running)), 0)
  {
    longer, after := GoOn(threads, schedule, s, 0, CallStart);
    longer, after := GoOn(threads, longer, after, 0, Proceed);
    longer, after := GoOn(threads, longer, after, 0, Proceed);
    assert after == Goto(s, 0, Grab, s.life.(phase := Running));
    longer, after := GoOn(threads, longer, after, 0, Proceed);
  }

  function Claimed(life: Life): Life {
    life.(phase := Terminating, terminatingWins := life.terminatingWins + 1)
  }

  /** The first task of a batch claims the termination, and then its implementation throws: the others are gone. */
  lemma FirstThrows(threads: set<nat>, schedule: seq<(nat, Action)>, s: State, x: Task, rest: seq<Task>)
    returns (longer: seq<(nat, Action)>, after: State)
    requires s == Execution(threads, schedule)
    requires 0 in s.pc && s.pc[0] == Batch([x] + rest) && s.life.phase.Running? && !x.Terminate?
    ensures after == Execution(threads, longer)
    ensures after == Abandon(Goto(Begin(s, 0, x, rest), 0, Run(x, Impl, rest), Claimed(s.life)), 0, x, rest)
  {
    var s1 := Begin(s, 0, x, rest);
    assert Step(s, 0, Proceed) == s1 by { assert ([x] + rest)[1..] == rest; }
    longer, after := GoOn(threads, schedule, s, 0, Proceed);
    longer, after := FirstReachesImpl(threads, longer, s1, x, rest);
    longer, after := GoOn(threads, longer, after, 0, Throw);
  }

  lemma FirstReachesImpl(threads: set<nat>, schedule: seq<(nat, Action)>, s: State, x: Task, rest: seq<Task>)
    returns (longer: seq<(nat, Action)>, after: State)
    requires s == Execution(threads, schedule)
    requires 0 in s.pc && s.pc[0] == Run(x, ClaimTerminating, rest) && s.life.phase.Running? && !x.Terminate?
    ensures after == Execution(threads, longer)
    ensures after == Goto(s, 0, Run(x, Impl, rest), Claimed(s.life))
  {
    var s1 := Goto(s, 0, Run(x, WillTerminate, rest), Claimed(s.life));
    assert Step(s, 0, Proceed) == s1;
    longer, after := GoOn(threads, schedule, s, 0, Proceed);
    var s2 := Goto(s1, 0, Run(x, Impl, rest), Claimed(s.life));
    assert Step(s1, 0, Proceed) == s2;
    longer, after := GoOn(threads, longer, s1, 0, Proceed);
    assert s2.pc == s.pc[0 := Run(x, Impl, rest)];
  }

  /** The no-throw condition matters: a destroy deferred before the start whose implementation
      throws takes the termination notice deferred behind it along, and waiters block for good. */
  lemma ThrowingTaskLosesTheNextOne() returns (schedule: seq<(nat, Action)>)
    ensures var s := Execution({0}, schedule);
            && AtRest(s) && s.life.phase.Terminating? && s.throws == 1
            && Terminate(1) in s.fate && Terminate(1) !in s.begun && s.life.semaphore > 0
  {
    var destroy, terminate := Destroy(0), Terminate(1);
    var s := Initially({0});
    schedule := [];
    schedule, s := DeferredBeforeStart({0}, schedule, s, destroy);
    schedule, s := DeferredBeforeStart({0}, schedule, s, terminate);
    assert s.pending == [destroy] + [terminate];
    schedule, s := StartedBy({0}, schedule, s);
    schedule, s := FirstThrows({0}, schedule, s, destroy, [terminate]);
  }
}
