/**
 The threads around an operating-system process: two readers, the thread that waits for the
 exit, and the one that starts the notifications. A reader holds its lock for a whole pass,
 one step per character; the flag that ends it is set under that lock.
 No detach, no interrupt, no reader error.
 */
module ProcessOutput {
  import opened Strings
  import opened OutputReading

  datatype ReaderPc = NotStarted | Sleeping | AtReady | Feeding(rest: string) | AtTail | AtFlag | Ended

  datatype Reader = Reader(
    pc: ReaderPc,
    token: string,
    skipLF: bool,
    flag: bool,
    produced: string,   // what the process has written so far
    consumed: nat,      // how much of it was read
    emitted: seq<string>)
  {
    predicate Locked() { pc.AtReady? || pc.Feeding? || pc.AtTail? || pc.AtFlag? }
    function Fed(): int { consumed - if pc.Feeding? then |pc.rest| else 0 }
  }

  datatype Starter = Fresh | Submitting | Offering | Started

  datatype Waiter = AwaitingExit | Taking | FlaggingErr | FlaggingOut | GettingErr | GettingOut | Notifying | Finished

  datatype Event = Text(err: bool, text: string) | ProcessTerminated

  datatype State = State(
    out: Reader,
    err: Reader,
    exited: bool,
    starter: Starter,
    callback: bool,
    waiter: Waiter,
    log: seq<Event>)

  datatype Action = Produce(err: bool, c: char) | Exit | Start | Read(err: bool, n: nat) | Wait

  const IDLE := Reader(NotStarted, "", false, false, "", 0, [])

  const INITIALLY := State(IDLE, IDLE, false, Fresh, false, AwaitingExit, [])

  /** How many characters one read delivers: at least one, at most the buffer. */
  function Amount(n: nat, available: nat): nat {
    var limit := if available < 8192 then available else 8192;
    if n < 1 then 1 else if n < limit then n else limit
  }

  /** One atomic step of a reader thread; the new tokens are its calls of textAvailable. */
  function ReaderStep(r: Reader, n: nat): (r': Reader)
    requires r.consumed <= |r.produced|
    ensures r'.consumed <= |r'.produced|
  {
    match r.pc
    case Sleeping => r.(pc := AtReady, token := "")
    case AtReady =>
      var available := |r.produced| - r.consumed;
      if available == 0 then r.(pc := AtTail)
      else
        var k := Amount(n, available);
        r.(pc := Feeding(r.produced[r.consumed..r.consumed + k]), consumed := r.consumed + k)
    case Feeding(rest) =>
      if rest == "" then r.(pc := AtReady)
      else
        var next := NextToken(r.token, r.skipLF, rest[0]);
        if rest[0] == '\n' then
          r.(pc := Feeding(rest[1..]), token := "", skipLF := false, emitted := r.emitted + [next])
        else r.(pc := Feeding(rest[1..]), token := next, skipLF := rest[0] == '\r')
    case AtTail =>
      if r.token != "" then r.(pc := AtFlag, token := "", emitted := r.emitted + [r.token])
      else r.(pc := AtFlag)
    case AtFlag => r.(pc := if r.flag then Ended else Sleeping)
    case _ => r
  }

  ghost predicate ReaderInv(r: Reader, exited: bool) {
    && r.consumed <= |r.produced|
    && (r.pc.Feeding? ==> |r.pc.rest| <= r.consumed && r.pc.rest == r.produced[r.Fed()..r.consumed])
    && Folded(r.produced[..r.Fed()], r.emitted, r.token, r.skipLF)
    && (!r.pc.AtReady? && !r.pc.Feeding? && !r.pc.AtTail? ==> r.token == "")
    && (r.flag ==> exited)
    && (r.flag && (r.pc.AtTail? || r.pc.AtFlag?) ==> r.consumed == |r.produced|)
    && (r.pc.Ended? ==> r.flag && r.consumed == |r.produced|)
  }

  lemma FeedingKeepsInv(r: Reader, n: nat, exited: bool)
    requires ReaderInv(r, exited) && r.pc.Feeding? && r.pc.rest != ""
    ensures ReaderInv(ReaderStep(r, n), exited)
  {
    hide Folded, NextToken;
    var rest, input, at := r.pc.rest, r.produced[..r.Fed()], r.Fed();
    FeedKeepsFolded(input, r.emitted, r.token, r.skipLF, rest[0]);
    assert rest[0] == r.produced[at] && r.produced[..at + 1] == input + [rest[0]];
    assert rest[1..] == r.produced[at + 1..r.consumed];
    assert ReaderStep(r, n).Fed() == at + 1;
  }

  lemma ReaderStepKeepsInv(r: Reader, n: nat, exited: bool)
    requires ReaderInv(r, exited)
    ensures ReaderInv(ReaderStep(r, n), exited)
  {
    hide Folded, NextToken;
    var r' := ReaderStep(r, n);
    match r.pc
    case Feeding(rest) => if rest != "" { FeedingKeepsInv(r, n, exited); }
    case AtTail => if r.token != "" { FlushKeepsFolded(r.produced[..r.Fed()], r.emitted, r.token, r.skipLF); }
    case _ => assert r'.Fed() == r.Fed();
  }

  /** The tokens of one stream, as the listeners saw them. */
  function Texts(log: seq<Event>, err: bool): seq<string> {
    if log == [] then []
    else
      var e := log[|log| - 1];
      Texts(log[..|log| - 1], err) + if e.Text? && e.err == err then [e.text] else []
  }

  function Announce(log: seq<Event>, err: bool, before: seq<string>, after: seq<string>): seq<Event> {
    if |after| == |before| + 1 then log + [Text(err, after[|before|])] else log
  }

  /** A reader cannot have read what was not written. */
  predicate Causal(s: State) {
    s.out.consumed <= |s.out.produced| && s.err.consumed <= |s.err.produced|
  }

  function Step(s: State, a: Action): (s': State)
    requires Causal(s)
    ensures Causal(s')
  {
    match a
    case Produce(err, c) =>
      if s.exited then s
      else if err then s.(err := s.err.(produced := s.err.produced + [c]))
      else s.(out := s.out.(produced := s.out.produced + [c]))
    case Exit => s.(exited := true)
    case Start =>
      (match s.starter
      case Fresh => s.(starter := Submitting, out := s.out.(pc := Sleeping))
      case Submitting => s.(starter := Offering, err := s.err.(pc := Sleeping))
      case Offering => s.(starter := Started, callback := true)
      case Started => s)
    case Read(err, n) =>
      if err then
        var r := ReaderStep(s.err, n);
        s.(err := r, log := Announce(s.log, true, s.err.emitted, r.emitted))
      else
        var r := ReaderStep(s.out, n);
        s.(out := r, log := Announce(s.log, false, s.out.emitted, r.emitted))
    case Wait =>
      match s.waiter
      case AwaitingExit => if s.exited then s.(waiter := Taking) else s
      case Taking => if s.callback then s.(waiter := FlaggingErr) else s
      case FlaggingErr => if s.err.Locked() then s else s.(waiter := FlaggingOut, err := s.err.(flag := true))
      case FlaggingOut => if s.out.Locked() then s else s.(waiter := GettingErr, out := s.out.(flag := true))
      case GettingErr => if s.err.pc.Ended? then s.(waiter := GettingOut) else s
      case GettingOut => if s.out.pc.Ended? then s.(waiter := Notifying) else s
      case Notifying => s.(waiter := Finished, log := s.log + [ProcessTerminated])
      case Finished => s
  }

  ghost predicate LogInv(s: State) {
    && Texts(s.log, false) == s.out.emitted && Texts(s.log, true) == s.err.emitted
    && (forall i :: 0 <= i < |s.log| - 1 ==> s.log[i].Text?)
    && (if s.waiter.Finished? then s.log != [] && s.log[|s.log| - 1].ProcessTerminated?
        else s.log != [] ==> s.log[|s.log| - 1].Text?)
  }

  ghost predicate ThreadInv(s: State) {
    && (!s.waiter.AwaitingExit? ==> s.exited)
    && (s.callback <==> s.starter.Started?)
    && (!s.waiter.AwaitingExit? && !s.waiter.Taking? ==> s.callback)
    && (s.out.pc.NotStarted? <==> s.starter.Fresh?)
    && (s.err.pc.NotStarted? <==> s.starter.Fresh? || s.starter.Submitting?)
    && (s.waiter.GettingOut? || s.waiter.Notifying? || s.waiter.Finished? ==> s.err.pc.Ended?)
    && (s.waiter.Notifying? || s.waiter.Finished? ==> s.out.pc.Ended?)
  }

  ghost predicate Inv(s: State) {
    ReaderInv(s.out, s.exited) && ReaderInv(s.err, s.exited) && ThreadInv(s) && LogInv(s)
  }

  lemma TextsAppend(log: seq<Event>, e: Event, err: bool)
    ensures Texts(log + [e], err) == Texts(log, err) + if e.Text? && e.err == err then [e.text] else []
  {
    assert (log + [e])[..|log|] == log;
  }

  /** What a reader's step shows to the others. */
  lemma ReaderStepShows(r: Reader, n: nat)
    requires r.consumed <= |r.produced|
    ensures var r' := ReaderStep(r, n);
            && r'.produced == r.produced
            && (r'.pc.NotStarted? <==> r.pc.NotStarted?) && (r.pc.Ended? ==> r' == r)
            && (r'.emitted == r.emitted || (|r'.emitted| == |r.emitted| + 1 && r'.emitted[..|r.emitted|] == r.emitted))
  {
  }

  lemma AnnounceKeepsLog(s: State, err: bool, after: seq<string>)
    requires LogInv(s)
    requires var before := (if err then s.err else s.out).emitted;
             after == before || (!s.waiter.Finished? && |after| == |before| + 1 && after[..|before|] == before)
    ensures var before := (if err then s.err else s.out).emitted;
            var log := Announce(s.log, err, before, after);
            && Texts(log, err) == after
            && Texts(log, !err) == (if err then s.out else s.err).emitted
            && (forall i :: 0 <= i < |log| - 1 ==> log[i].Text?)
            && (log == s.log || (!s.waiter.Finished? && log != [] && log[|log| - 1].Text?))
  {
    var before := (if err then s.err else s.out).emitted;
    if after != before {
      TextsAppend(s.log, Text(err, after[|before|]), false);
      TextsAppend(s.log, Text(err, after[|before|]), true);
      assert after == before + [after[|before|]];
    }
  }

  function AfterRead(s: State, err: bool, r: Reader, log: seq<Event>): State {
    if err then s.(err := r, log := log) else s.(out := r, log := log)
  }

  lemma AfterReadInv(s: State, err: bool, r: Reader, log: seq<Event>)
    requires Inv(s) && ReaderInv(r, s.exited)
    requires var was := if err then s.err else s.out;
             (r.pc.NotStarted? <==> was.pc.NotStarted?) && (was.pc.Ended? ==> r.pc.Ended?)
    requires Texts(log, err) == r.emitted && Texts(log, !err) == (if err then s.out else s.err).emitted
    requires forall i :: 0 <= i < |log| - 1 ==> log[i].Text?
    requires log == s.log || (!s.waiter.Finished? && log != [] && log[|log| - 1].Text?)
    ensures Inv(AfterRead(s, err, r, log))
  {
    hide FoldLines, Concat, Folded, Texts, ReaderInv;
  }

  lemma ReadKeepsInv(s: State, err: bool, n: nat)
    requires Inv(s)
    ensures Inv(Step(s, Read(err, n)))
  {
    var r := if err then s.err else s.out;
    var r' := ReaderStep(r, n);
    var log := Announce(s.log, err, r.emitted, r'.emitted);
    assert Step(s, Read(err, n)) == AfterRead(s, err, r', log);
    ReaderStepKeepsInv(r, n, s.exited);
    ReaderStepShows(r, n);
    hide FoldLines, Concat, Folded, Texts, ReaderInv, ReaderStep, Announce;
    AnnounceKeepsLog(s, err, r'.emitted);
    AfterReadInv(s, err, r', log);
  }

  lemma WaitKeepsLog(s: State)
    requires LogInv(s)
    ensures LogInv(s.(waiter := Finished, log := s.log + [ProcessTerminated])) || !s.waiter.Notifying?
  {
    TextsAppend(s.log, ProcessTerminated, false);
    TextsAppend(s.log, ProcessTerminated, true);
  }

  lemma WaitKeepsInv(s: State)
    requires Inv(s)
    ensures Inv(Step(s, Wait))
  {
    hide FoldLines, Concat, Folded, Texts;
    WaitKeepsLog(s);
  }

  /** A process that has not exited may write on while a reader is at work. */
  lemma WritingKeepsInv(r: Reader, c: char)
    requires ReaderInv(r, false)
    ensures ReaderInv(r.(produced := r.produced + [c]), false)
  {
    hide Folded;
    var r' := r.(produced := r.produced + [c]);
    assert r'.Fed() == r.Fed();
    assert r'.produced[..r.Fed()] == r.produced[..r.Fed()];
    if r.pc.Feeding? { assert r'.produced[r.Fed()..r.consumed] == r.produced[r.Fed()..r.consumed]; }
  }

  lemma ProduceKeepsInv(s: State, err: bool, c: char)
    requires Inv(s)
    ensures Inv(Step(s, Produce(err, c)))
  {
    hide Folded, ReaderInv, Texts;
    if !s.exited {
      var r := if err then s.err else s.out;
      WritingKeepsInv(r, c);
    }
  }

  lemma StepKeepsInv(s: State, a: Action)
    requires Inv(s)
    ensures Inv(Step(s, a))
  {
    hide FoldLines, Concat, Folded, Texts;
    match a
    case Produce(err, c) => ProduceKeepsInv(s, err, c);
    case Read(err, n) => ReadKeepsInv(s, err, n);
    case Wait => WaitKeepsInv(s);
    case _ =>
  }

  /** Any interleaving of the threads' steps. */
  ghost function Execution(schedule: seq<Action>): (s: State)
    ensures Causal(s)
  {
    if schedule == [] then INITIALLY
    else Step(Execution(schedule[..|schedule| - 1]), schedule[|schedule| - 1])
  }

  lemma {:induction false} Reached(schedule: seq<Action>)
    ensures Inv(Execution(schedule))
    decreases |schedule|
  {
    hide Step, Inv;
    if schedule == [] {
      InitiallyInv();
    } else {
      Reached(schedule[..|schedule| - 1]);
      StepKeepsInv(Execution(schedule[..|schedule| - 1]), schedule[|schedule| - 1]);
    }
  }

  lemma InitiallyInv()
    ensures Inv(INITIALLY)
  {
  }

  /** No text event of either stream follows processTerminated, which comes once. */
  lemma TextPrecedesTermination(schedule: seq<Action>)
    ensures var log := Execution(schedule).log; forall i :: 0 <= i < |log| - 1 ==> log[i].Text?
  {
    Reached(schedule);
  }

  /** What the process writes to one of its streams until it exits. */
  function Written(schedule: seq<Action>, err: bool): string {
    if schedule == [] then ""
    else
      var before, a := schedule[..|schedule| - 1], schedule[|schedule| - 1];
      Written(before, err) + if a.Produce? && a.err == err && Exit !in before then [a.c] else ""
  }

  lemma StepProduces(s: State, a: Action)
    requires Causal(s)
    ensures Step(s, a).exited <==> s.exited || a == Exit
    ensures Step(s, a).out.produced == s.out.produced + if a.Produce? && !a.err && !s.exited then [a.c] else ""
    ensures Step(s, a).err.produced == s.err.produced + if a.Produce? && a.err && !s.exited then [a.c] else ""
  {
    hide NextToken, Announce;
    assert s.out.produced + "" == s.out.produced && s.err.produced + "" == s.err.produced;
  }

  lemma {:induction false} ProducedIsWritten(schedule: seq<Action>)
    ensures var s := Execution(schedule);
            && s.out.produced == Written(schedule, false) && s.err.produced == Written(schedule, true)
            && (s.exited <==> Exit in schedule)
    decreases |schedule|
  {
    hide Step;
    if schedule != [] {
      var n := |schedule| - 1;
      ProducedIsWritten(schedule[..n]);
      StepProduces(Execution(schedule[..n]), schedule[n]);
      assert schedule == schedule[..n] + [schedule[n]];
    }
  }

  /** When processTerminated is dispatched, everything the process ever wrote to either stream
      has been handed on with its line ends folded, but for one final carriage return. */
  lemma NoOutputIsLost(schedule: seq<Action>)
    ensures var log := Execution(schedule).log;
            ProcessTerminated in log ==>
              && Exit in schedule
              && forall err :: Concat(Texts(log, err)) + (if EndsInCr(Written(schedule, err)) then "\r" else "")
                               == Replace(Written(schedule, err), CRLF, "\n")
  {
    hide FoldLines, Concat, Folded, Texts, Execution, Replace, Written;
    Reached(schedule);
    ProducedIsWritten(schedule);
    var s := Execution(schedule);
    FoldLinesIsReplace(s.out.produced);
    FoldLinesIsReplace(s.err.produced);
    if ProcessTerminated in s.log {
      Complete(s.out, s.exited);
      Complete(s.err, s.exited);
    }
  }

  lemma Complete(r: Reader, exited: bool)
    requires ReaderInv(r, exited) && r.pc.Ended?
    ensures Concat(r.emitted) + (if EndsInCr(r.produced) then "\r" else "") == FoldLines(r.produced)
  {
    hide FoldLines, Concat;
    assert r.produced[..r.Fed()] == r.produced;
    assert Concat(r.emitted) + "" == Concat(r.emitted);
  }

  // ---- the termination notice can always come

  function Continue(s: State, more: seq<Action>): (s': State)
    requires Causal(s)
    ensures Causal(s')
    decreases |more|
  {
    if more == [] then s else Continue(Step(s, more[0]), more[1..])
  }

  lemma {:induction false} ContinueExecution(schedule: seq<Action>, more: seq<Action>)
    ensures Continue(Execution(schedule), more) == Execution(schedule + more)
    decreases |more|
  {
    hide Step;
    if more == [] {
      assert schedule + more == schedule;
    } else {
      var longer := schedule + [more[0]];
      assert longer[..|longer| - 1] == schedule;
      assert longer + more[1..] == schedule + more;
      ContinueExecution(longer, more[1..]);
    }
  }

  lemma {:induction false} ContinueTwice(s: State, more: seq<Action>, later: seq<Action>)
    requires Causal(s)
    ensures Continue(s, more + later) == Continue(Continue(s, more), later)
    decreases |more|
  {
    hide Step;
    if more == [] {
      assert more + later == later;
    } else {
      assert (more + later)[1..] == more[1..] + later;
      ContinueTwice(Step(s, more[0]), more[1..], later);
    }
  }

  /** The threads go on, and the process writes no more. */
  predicate Silent(more: seq<Action>) {
    forall i :: 0 <= i < |more| ==> !more[i].Produce?
  }

  /** How many steps a reader takes, reading one character at a time, until it sleeps; with the
      flag set, until it ends. */
  function Work(r: Reader): nat
    requires r.consumed <= |r.produced|
  {
    var rest := 3 * (|r.produced| - r.consumed);
    match r.pc
    case Sleeping => if r.flag then rest + 4 else 0
    case AtReady => rest + 3
    case Feeding(todo) => |todo| + rest + 4
    case AtTail => 2
    case AtFlag => 1
    case _ => 0
  }

  lemma WorkGetsLess(r: Reader)
    requires r.consumed <= |r.produced| && Work(r) > 0
    ensures Work(ReaderStep(r, 0)) == Work(r) - 1
    ensures ReaderStep(r, 0).flag == r.flag && !ReaderStep(r, 0).pc.NotStarted?
  {
    hide NextToken;
  }

  function ReaderOf(s: State, err: bool): Reader {
    if err then s.err else s.out
  }

  /** Everything but one reader and the log. */
  predicate RestSame(s: State, s': State, err: bool) {
    && ReaderOf(s', !err) == ReaderOf(s, !err) && ReaderOf(s', err).flag == ReaderOf(s, err).flag
    && s'.exited == s.exited && s'.starter == s.starter && s'.callback == s.callback && s'.waiter == s.waiter
  }

  lemma ReadIs(s: State, err: bool)
    requires Causal(s)
    ensures var r, r' := ReaderOf(s, err), ReaderStep(ReaderOf(s, err), 0);
            Step(s, Read(err, 0)) == AfterRead(s, err, r', Announce(s.log, err, r.emitted, r'.emitted))
  {
    hide ReaderStep, Announce;
  }

  lemma ReaderGoesOn(s: State, err: bool)
    requires Inv(s) && Work(ReaderOf(s, err)) > 0
    ensures var next := Step(s, Read(err, 0));
            && Inv(next) && RestSame(s, next, err) && Work(ReaderOf(next, err)) == Work(ReaderOf(s, err)) - 1
            && !ReaderOf(s, err).pc.NotStarted? && !ReaderOf(next, err).pc.NotStarted?
  {
    StepKeepsInv(s, Read(err, 0));
    WorkGetsLess(ReaderOf(s, err));
    ReadIs(s, err);
    hide Step, Inv, ReaderStep, Announce;
  }

  lemma InvIsCausal(s: State)
    requires Inv(s)
    ensures Causal(s)
  {
  }

  lemma ContinueOne(s: State, a: Action, later: seq<Action>)
    requires Causal(s)
    ensures Continue(s, [a] + later) == Continue(Step(s, a), later)
    ensures !a.Produce? && Silent(later) ==> Silent([a] + later)
  {
    hide Step;
    assert ([a] + later)[1..] == later;
  }

  /** A reader has come to rest: it sleeps, has ended or has not started; nothing else has moved. */
  predicate Rested(s: State, s': State, err: bool)
    requires Causal(s')
  {
    && RestSame(s, s', err) && Work(ReaderOf(s', err)) == 0
    && (ReaderOf(s', err).pc.NotStarted? <==> ReaderOf(s, err).pc.NotStarted?)
  }

  lemma RestedLater(s: State, next: State, s': State, err: bool)
    requires Causal(s') && RestSame(s, next, err) && Rested(next, s', err)
    requires ReaderOf(next, err).pc.NotStarted? <==> ReaderOf(s, err).pc.NotStarted?
    ensures Rested(s, s', err)
  {
    hide Work;
  }

  lemma RestedAlready(s: State, err: bool)
    requires Causal(s) && Work(ReaderOf(s, err)) == 0
    ensures Continue(s, []) == s && Rested(s, s, err) && Silent([])
  {
    hide Work;
  }

  /** A reader left to run finishes its work. */
  lemma {:induction false} ReaderFinishes(s: State, err: bool) returns (more: seq<Action>)
    requires Inv(s)
    ensures Silent(more) && Causal(s) && Inv(Continue(s, more)) && Rested(s, Continue(s, more), err)
    decreases Work(ReaderOf(s, err))
  {
    InvIsCausal(s);
    hide Inv, Step, Work, Rested, RestSame, Continue, Silent;
    if Work(ReaderOf(s, err)) == 0 {
      RestedAlready(s, err);
      more := [];
    } else {
      var next := Step(s, Read(err, 0));
      ReaderGoesOn(s, err);
      var later := ReaderFinishes(next, err);
      more := [Read(err, 0)] + later;
      ContinueOne(s, Read(err, 0), later);
      RestedLater(s, next, Continue(next, later), err);
    }
  }

  /** The flags that the waiting thread has set so far. */
  predicate FlagsSet(s: State) {
    && (!s.waiter.AwaitingExit? && !s.waiter.Taking? && !s.waiter.FlaggingErr? ==> s.err.flag)
    && (s.waiter.GettingErr? || s.waiter.GettingOut? || s.waiter.Notifying? || s.waiter.Finished? ==> s.out.flag)
  }

  lemma StepKeepsFlags(s: State, a: Action)
    requires Causal(s) && FlagsSet(s)
    ensures FlagsSet(Step(s, a))
  {
    hide NextToken, Announce;
  }

  lemma {:induction false} ReachedFlags(schedule: seq<Action>)
    ensures FlagsSet(Execution(schedule))
    decreases |schedule|
  {
    hide Step;
    if schedule != [] {
      ReachedFlags(schedule[..|schedule| - 1]);
      StepKeepsFlags(Execution(schedule[..|schedule| - 1]), schedule[|schedule| - 1]);
    }
  }

  /** How many steps the waiting thread has before it. */
  function StepsLeft(w: Waiter): nat {
    match w
    case AwaitingExit => 7 case Taking => 6 case FlaggingErr => 5 case FlaggingOut => 4
    case GettingErr => 3 case GettingOut => 2 case Notifying => 1 case Finished => 0
  }

  /** What the waiting thread may have to wait for: a reader that is at work, or that has not ended. */
  lemma WaiterIsFree(s: State)
    requires Inv(s) && FlagsSet(s) && s.exited && s.starter.Started? && !s.waiter.Finished?
    requires s.waiter.FlaggingErr? || s.waiter.GettingErr? ==> Work(s.err) == 0
    requires s.waiter.FlaggingOut? || s.waiter.GettingOut? ==> Work(s.out) == 0
    ensures var s' := Step(s, Wait);
            && StepsLeft(s'.waiter) == StepsLeft(s.waiter) - 1 && s'.exited && s'.starter.Started?
  {
    hide Folded, LogInv;
  }

  lemma SilentTogether(first: seq<Action>, later: seq<Action>)
    requires Silent(first) && Silent(later)
    ensures Silent(first + later)
  {
  }

  /** One step of the waiting thread, after the reader that it may have to wait for has come to rest. */
  lemma WaiterGoesOn(s: State) returns (first: seq<Action>)
    requires Inv(s) && FlagsSet(s) && s.exited && s.starter.Started? && !s.waiter.Finished?
    ensures Silent(first) && Causal(s)
    ensures var s' := Step(Continue(s, first), Wait);
            && Inv(s') && FlagsSet(s') && s'.exited && s'.starter.Started?
            && StepsLeft(s'.waiter) == StepsLeft(s.waiter) - 1
  {
    InvIsCausal(s);
    first := ReaderFinishes(s, s.waiter.FlaggingErr? || s.waiter.GettingErr?);
    var ready := Continue(s, first);
    hide Continue, Step, Inv, Work, Silent;
    WaiterIsFree(ready);
    StepKeepsInv(ready, Wait);
    InvIsCausal(ready);
    StepKeepsFlags(ready, Wait);
  }

  lemma {:induction false} WaiterFinishes(s: State) returns (more: seq<Action>)
    requires Inv(s) && FlagsSet(s) && s.exited && s.starter.Started?
    ensures Silent(more) && Causal(s) && Continue(s, more).waiter.Finished?
    decreases StepsLeft(s.waiter)
  {
    InvIsCausal(s);
    if s.waiter.Finished? {
      more := [];
    } else {
      hide Inv, Step, FlagsSet, Continue, Silent;
      var first := WaiterGoesOn(s);
      var ready := Continue(s, first);
      var later := WaiterFinishes(Step(ready, Wait));
      ContinueOne(ready, Wait, later);
      ContinueTwice(s, first, [Wait] + later);
      SilentTogether(first, [Wait] + later);
      more := first + ([Wait] + later);
    }
  }

  function StartsLeft(starter: Starter): nat {
    match starter case Fresh => 3 case Submitting => 2 case Offering => 1 case Started => 0
  }

  lemma StarterGoesOn(s: State)
    requires Inv(s) && FlagsSet(s) && s.exited
    ensures var s' := Step(s, Start);
            && Inv(s') && FlagsSet(s') && s'.exited
            && StartsLeft(s'.starter) == if s.starter.Started? then 0 else StartsLeft(s.starter) - 1
  {
    StepKeepsInv(s, Start);
    InvIsCausal(s);
    StepKeepsFlags(s, Start);
    hide Inv, FlagsSet;
  }

  lemma {:induction false} StarterFinishes(s: State) returns (more: seq<Action>)
    requires Inv(s) && FlagsSet(s) && s.exited
    ensures Silent(more) && Causal(s)
    ensures var s' := Continue(s, more); Inv(s') && FlagsSet(s') && s'.exited && s'.starter.Started?
    decreases StartsLeft(s.starter)
  {
    InvIsCausal(s);
    if s.starter.Started? {
      more := [];
    } else {
      hide Inv, Step, FlagsSet, Continue, Silent;
      StarterGoesOn(s);
      var later := StarterFinishes(Step(s, Start));
      ContinueOne(s, Start, later);
      more := [Start] + later;
    }
  }

  lemma ExitIsReached(schedule: seq<Action>)
    ensures var s := Execution(schedule + [Exit]); Inv(s) && FlagsSet(s) && s.exited
  {
    hide Inv, FlagsSet;
    var exit := schedule + [Exit];
    assert exit[..|exit| - 1] == schedule;
    Reached(exit);
    ReachedFlags(exit);
  }

  /** No deadlock: from every reachable state some continuation, in which the process exits and
      writes no more, brings the termination notice. */
  lemma TerminationCanAlwaysCome(schedule: seq<Action>) returns (more: seq<Action>)
    ensures Silent(more) && Execution(schedule + more).waiter.Finished?
    ensures ProcessTerminated in Execution(schedule + more).log
  {
    hide Step, Inv, Execution, FlagsSet, Continue, Silent;
    var exit := schedule + [Exit];
    ExitIsReached(schedule);
    var s := Execution(exit);
    var starts := StarterFinishes(s);
    var waits := WaiterFinishes(Continue(s, starts));
    ContinueTwice(s, starts, waits);
    ContinueExecution(exit, starts + waits);
    SilentTogether(starts, waits);
    ContinueOne(Execution(schedule), Exit, starts + waits);
    more := [Exit] + (starts + waits);
    assert schedule + more == exit + (starts + waits);
    Reached(schedule + more);
    FinishedIsLogged(Execution(schedule + more));
  }

  lemma FinishedIsLogged(s: State)
    requires Inv(s) && s.waiter.Finished?
    ensures ProcessTerminated in s.log
  {
    assert s.log[|s.log| - 1] in s.log;
  }
}
