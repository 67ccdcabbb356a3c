/** The hand-written counting semaphore: compare-and-set loops over one integer, any number of threads. */
module WaitSemaphore {

  /** Where a thread stands inside down, tryUp or waitFor; `read` and `seen` are its local copies,
      `stamp` records how many changes had happened when it read. */
  datatype Pc =
    | Idle
    | DownRead
    | DownCas(current: nat, stamp: nat)
    | UpRead
    | UpCas(c: nat, stamp: nat)
    | Acquiring

  datatype Call = Down | Up | WaitFor | Proceed

  /** What a caller can see, in the order of the deciding atomic steps. */
  datatype Event = WentDown | WentUp(signal: bool) | Passed

  datatype State = State(count: nat, pc: map<nat, Pc>, history: seq<Event>, changes: nat)

  ghost function Initially(threads: set<nat>): State {
    State(0, map t | t in threads :: Idle, [], 0)
  }

  /** One atomic step of thread t; a call that is not possible now changes nothing. */
  function Step(s: State, t: nat, call: Call): State {
    if t !in s.pc then s
    else if call != Proceed then
      if !s.pc[t].Idle? then s
      else s.(pc := s.pc[t := match call case Down => DownRead case Up => UpRead case _ => Acquiring])
    else match s.pc[t]
      case Idle => s
      case DownRead => s.(pc := s.pc[t := DownCas(s.count, s.changes)])
      case DownCas(current, _) =>
        if s.count != current then s.(pc := s.pc[t := DownRead])
        else State(current + 1, s.pc[t := Idle], s.history + [WentDown], s.changes + 1)
      case UpRead =>
        if s.count == 0 then s.(pc := s.pc[t := Idle], history := s.history + [WentUp(false)])
        else s.(pc := s.pc[t := UpCas(s.count, s.changes)])
      case UpCas(c, _) =>
        if s.count != c then s.(pc := s.pc[t := UpRead])
        else State(if c == 0 then 0 else c - 1, s.pc[t := Idle], s.history + [WentUp(c == 1)], s.changes + 1)
      case Acquiring =>
        if s.count != 0 then s
        else s.(pc := s.pc[t := Idle], history := s.history + [Passed])
  }

  ghost function Run(threads: set<nat>, schedule: seq<(nat, Call)>): State {
    if schedule == [] then Initially(threads)
    else
      var last := schedule[|schedule| - 1];
      Step(Run(threads, schedule[..|schedule| - 1]), last.0, last.1)
  }

  /** The counter as one would specify it, every operation in a single step; -1 for an event it does not allow. */
  function Atomic(count: int, e: Event): (c: int)
    requires count >= -1
    ensures c >= -1
  {
    if count == -1 then -1
    else match e
      case WentDown => count + 1
      case WentUp(signal) => if signal != (count == 1) then -1 else if count == 0 then 0 else count - 1
      case Passed => if count == 0 then 0 else -1
  }

  function Counter(history: seq<Event>): (c: int)
    ensures c >= -1
  {
    if history == [] then 0
    else Atomic(Counter(history[..|history| - 1]), history[|history| - 1])
  }

  function Downs(history: seq<Event>): nat {
    if history == [] then 0
    else Downs(history[..|history| - 1]) + if history[|history| - 1].WentDown? then 1 else 0
  }

  /** Ups that found something to take: those not issued at zero. */
  function EffectiveUps(history: seq<Event>): nat {
    if history == [] then 0
    else
      EffectiveUps(history[..|history| - 1])
      + if history[|history| - 1].WentUp? && Counter(history[..|history| - 1]) > 0 then 1 else 0
  }

  ghost predicate Accounted(history: seq<Event>, count: nat) {
    Counter(history) == count && count == Downs(history) - EffectiveUps(history)
  }

  ghost predicate Fresh(pc: Pc, count: nat, changes: nat) {
    match pc
    case DownCas(current, stamp) => stamp <= changes && (stamp == changes ==> current == count)
    case UpCas(c, stamp) => c > 0 && stamp <= changes && (stamp == changes ==> c == count)
    case _ => true
  }

  ghost predicate Inv(s: State) {
    Accounted(s.history, s.count) && forall t :: t in s.pc ==> Fresh(s.pc[t], s.count, s.changes)
  }

  lemma Appended(history: seq<Event>, count: nat, e: Event)
    requires Accounted(history, count) && Atomic(count, e) >= 0
    ensures Accounted(history + [e], Atomic(count, e))
  {
    assert (history + [e])[..|history|] == history;
  }

  lemma StepIsAccounted(s: State, t: nat, call: Call)
    requires Inv(s)
    ensures Accounted(Step(s, t, call).history, Step(s, t, call).count)
  {
    var s' := Step(s, t, call);
    if s'.history != s.history {
      var e := s'.history[|s.history|];
      assert s'.history == s.history + [e] && Atomic(s.count, e) == s'.count;
      Appended(s.history, s.count, e);
    } else {
      assert s'.count == s.count;
    }
  }

  /** A step that changes the count is later than what the others have read. */
  lemma OthersStayFresh(s: State, t: nat, call: Call, u: nat)
    requires u in s.pc && u != t && Fresh(s.pc[u], s.count, s.changes)
    ensures var s' := Step(s, t, call); u in s'.pc && Fresh(s'.pc[u], s'.count, s'.changes)
  {
    var s' := Step(s, t, call);
    assert u in s'.pc && s'.pc[u] == s.pc[u];
    assert s'.changes >= s.changes && (s'.changes == s.changes ==> s'.count == s.count);
  }

  lemma OwnIsFresh(s: State, t: nat, call: Call)
    requires t in s.pc && Fresh(s.pc[t], s.count, s.changes)
    ensures var s' := Step(s, t, call); t in s'.pc && Fresh(s'.pc[t], s'.count, s'.changes)
  {
  }

  lemma StepKeepsFresh(s: State, t: nat, call: Call, u: nat)
    requires Inv(s) && u in Step(s, t, call).pc
    ensures var s' := Step(s, t, call); Fresh(s'.pc[u], s'.count, s'.changes)
  {
    if u == t { OwnIsFresh(s, t, call); } else { OthersStayFresh(s, t, call, u); }
  }

  lemma StepKeepsInv(s: State, t: nat, call: Call)
    requires Inv(s)
    ensures Inv(Step(s, t, call))
  {
    StepIsAccounted(s, t, call);
    forall u | u in Step(s, t, call).pc
      ensures var s' := Step(s, t, call); Fresh(s'.pc[u], s'.count, s'.changes)
    {
      StepKeepsFresh(s, t, call, u);
    }
  }

  /** Every interleaving is a history of the one-step counter, which ends at the real count;
      the count is downs minus effective ups, however often a compare-and-set was retried. */
  lemma {:induction false} EveryRunIsAtomic(threads: set<nat>, schedule: seq<(nat, Call)>)
    ensures Inv(Run(threads, schedule))
    decreases |schedule|
  {
    if schedule != [] {
      EveryRunIsAtomic(threads, schedule[..|schedule| - 1]);
      var last := schedule[|schedule| - 1];
      StepKeepsInv(Run(threads, schedule[..|schedule| - 1]), last.0, last.1);
    }
  }

  /** A step records one event at most, and a pass only at a count of zero. */
  lemma StepRecords(s: State, t: nat, call: Call)
    requires Inv(s)
    ensures var s' := Step(s, t, call);
            || s'.history == s.history
            || (&& |s'.history| == |s.history| + 1 && s'.history[..|s.history|] == s.history
                && (s'.history[|s.history|].Passed? ==> Downs(s.history) == EffectiveUps(s.history)))
  {
    hide Downs, EffectiveUps, Counter;
  }

  /** A waiter goes on only at a moment when every down has been undone. */
  lemma {:induction false} PassedOnlyAtZero(threads: set<nat>, schedule: seq<(nat, Call)>, i: nat)
    requires i < |Run(threads, schedule).history| && Run(threads, schedule).history[i].Passed?
    ensures Downs(Run(threads, schedule).history[..i]) == EffectiveUps(Run(threads, schedule).history[..i])
    decreases |schedule|
  {
    if schedule != [] {
      var before := schedule[..|schedule| - 1];
      var s, last := Run(threads, before), schedule[|schedule| - 1];
      EveryRunIsAtomic(threads, before);
      StepRecords(s, last.0, last.1);
      hide Step, Inv;
      if i < |s.history| {
        PassedOnlyAtZero(threads, before, i);
        assert Run(threads, schedule).history[..i] == s.history[..i];
      } else {
        assert Run(threads, schedule).history[..i] == s.history;
      }
    }
  }

  /** A failed compare-and-set means that some other thread's succeeded since the read: no livelock. */
  lemma RetryMeansProgress(threads: set<nat>, schedule: seq<(nat, Call)>, t: nat)
    requires var s := Run(threads, schedule);
             && t in s.pc && (s.pc[t].DownCas? || s.pc[t].UpCas?)
             && !Step(s, t, Proceed).pc[t].Idle?
    ensures Run(threads, schedule).changes > Run(threads, schedule).pc[t].stamp
  {
    EveryRunIsAtomic(threads, schedule);
  }

  // ---- every call has its event

  /** The thread is inside a call of this kind. */
  predicate Inside(pc: Pc, call: Call) {
    match call
    case Down => pc.DownRead? || pc.DownCas?
    case Up => pc.UpRead? || pc.UpCas?
    case WaitFor => pc.Acquiring?
    case Proceed => false
  }

  predicate IsOf(e: Event, call: Call) {
    match call
    case Down => e.WentDown?
    case Up => e.WentUp?
    case WaitFor => e.Passed?
    case Proceed => false
  }

  ghost function ThreadsInside(s: State, call: Call): set<nat> {
    set t | t in s.pc && Inside(s.pc[t], call)
  }

  function EventsOf(history: seq<Event>, call: Call): nat {
    if history == [] then 0
    else EventsOf(history[..|history| - 1], call) + if IsOf(history[|history| - 1], call) then 1 else 0
  }

  /** The calls of a kind that threads outside any call have made. */
  ghost function Calls(threads: set<nat>, schedule: seq<(nat, Call)>, call: Call): nat {
    if schedule == [] then 0
    else
      var n := |schedule| - 1;
      var s := Run(threads, schedule[..n]);
      Calls(threads, schedule[..n], call)
      + if schedule[n].1 == call && schedule[n].0 in s.pc && s.pc[schedule[n].0].Idle? then 1 else 0
  }

  /** A step takes its thread into a call, or out of one with an event, or neither. */
  lemma StepIsInside(s: State, t: nat, c: Call, call: Call)
    requires call != Proceed && t in s.pc
    ensures var s' := Step(s, t, c);
            && s'.pc == s.pc[t := s'.pc[t]]
            && (s'.history == s.history || s'.history == s.history + [s'.history[|s'.history| - 1]])
            && (if c == call && s.pc[t].Idle? then
                  s'.history == s.history && !Inside(s.pc[t], call) && Inside(s'.pc[t], call)
                else if s'.history != s.history && IsOf(s'.history[|s'.history| - 1], call) then
                  Inside(s.pc[t], call) && !Inside(s'.pc[t], call)
                else
                  Inside(s.pc[t], call) <==> Inside(s'.pc[t], call))
  {
  }

  lemma OneMoreEvent(history: seq<Event>, e: Event, call: Call)
    ensures EventsOf(history + [e], call) == EventsOf(history, call) + if IsOf(e, call) then 1 else 0
  {
    assert (history + [e])[..|history|] == history;
  }

  lemma StepBalances(s: State, t: nat, c: Call, call: Call)
    requires call != Proceed
    ensures var s' := Step(s, t, c);
            EventsOf(s'.history, call) + |ThreadsInside(s', call)| ==
            EventsOf(s.history, call) + |ThreadsInside(s, call)|
            + if c == call && t in s.pc && s.pc[t].Idle? then 1 else 0
  {
    if t in s.pc {
      StepIsInside(s, t, c, call);
      hide Step, Inside, IsOf, EventsOf;
      hide ThreadsInside;
      var s' := Step(s, t, c);
      InsideMoves(s, s', t, call);
      if s'.history != s.history { OneMoreEvent(s.history, s'.history[|s'.history| - 1], call); }
    }
  }

  lemma InsideMoves(s: State, s': State, t: nat, call: Call)
    requires t in s.pc && t in s'.pc && s'.pc == s.pc[t := s'.pc[t]]
    ensures |ThreadsInside(s', call)| == |ThreadsInside(s, call)| + (if Inside(s'.pc[t], call) then 1 else 0)
                                         - (if Inside(s.pc[t], call) then 1 else 0)
  {
    hide Inside;
    var was, now := ThreadsInside(s, call), ThreadsInside(s', call);
    forall u ensures u in now <==> if u == t then Inside(s'.pc[t], call) else u in was {
      assert u != t && u in s.pc ==> s'.pc[u] == s.pc[u];
    }
    assert t in was <==> Inside(s.pc[t], call);
    hide ThreadsInside;
    SizeMoves(was, now, t);
  }

  lemma SizeMoves(was: set<nat>, now: set<nat>, t: nat)
    requires forall u :: u != t ==> (u in now <==> u in was)
    ensures |now| == |was| + (if t in now then 1 else 0) - (if t in was then 1 else 0)
  {
    var others := was - {t};
    assert others == now - {t};
    assert was == if t in was then others + {t} else others;
    assert now == if t in now then others + {t} else others;
  }

  /** Every call of down, tryUp or waitFor has its one event, or its thread is still inside. */
  lemma {:induction false} EveryCallHasItsEvent(threads: set<nat>, schedule: seq<(nat, Call)>, call: Call)
    requires call != Proceed
    ensures var s := Run(threads, schedule);
            EventsOf(s.history, call) + |ThreadsInside(s, call)| == Calls(threads, schedule, call)
    decreases |schedule|
  {
    if schedule == [] {
      assert ThreadsInside(Initially(threads), call) == {};
    } else {
      var n := |schedule| - 1;
      EveryCallHasItsEvent(threads, schedule[..n], call);
      hide Step, ThreadsInside, EventsOf;
      StepBalances(Run(threads, schedule[..n]), schedule[n].0, schedule[n].1, call);
    }
  }

  /** Left alone, a thread is through with its down or tryUp after three steps; a waiter is through
      after one, exactly if nothing is down. */
  lemma AloneGetsThrough(threads: set<nat>, schedule: seq<(nat, Call)>, t: nat)
    requires t in Run(threads, schedule).pc && !Run(threads, schedule).pc[t].Idle?
    ensures var s := Run(threads, schedule);
            var s1 := Step(s, t, Proceed);
            if s.pc[t].Acquiring? then
              s1.pc[t].Idle? <==> Downs(s.history) == EffectiveUps(s.history)
            else Step(Step(s1, t, Proceed), t, Proceed).pc[t].Idle?
  {
    EveryRunIsAtomic(threads, schedule);
    hide Run, Downs, EffectiveUps, Counter;
  }
}
