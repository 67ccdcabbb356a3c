/**
 jQuery.Deferred on top of three callback lists: done (0), fail (1) and progress (2).
 Handlers may settle, notify and register again while a list is being fired; passes of
 different lists nest, and `running` is the stack of them, the innermost last.
 */
module Deferreds {
  import opened CallbackLists
  import opened Options

  datatype Outcome = Pending | Settled(kind: nat)

  /** A call of a user's handler: the function, the registration it was called for, and the argument. */
  datatype Call = Call(id: nat, reg: nat, data: Data)

  datatype Deferred = Deferred(
    lists: seq<CList>,
    running: seq<nat>,
    outcome: Outcome,
    transitions: nat,            // how often `state` was assigned
    settled: Option<(nat, Data)>, // the first resolve or reject that took effect
    calls: seq<seq<Call>>,       // calls of the user's handlers, list by list
    registered: seq<set<nat>>,   // handlers that a list accepted
    next: nat)

  datatype Operation = Register(kind: nat, ids: seq<nat>) | Fire(kind: nat, d: Data) | Tick | Return

  const HEAD: seq<Callback> := [Settle, DisableOther, LockProgress]

  function Initially(): Deferred {
    Deferred([Added(Create(true, true), HEAD, 0), Added(Create(true, true), HEAD, 3), Create(false, true)],
             [], Pending, 0, None, [[], [], []], [{}, {}, {}], 6)
  }

  predicate Shaped(s: Deferred) {
    && |s.lists| == |s.calls| == |s.registered| == 3
    && forall k :: 0 <= k < |s.running| ==> s.running[k] < 3
  }

  function Top(s: Deferred): nat
    requires s.running != []
  {
    s.running[|s.running| - 1]
  }

  /** The user's code runs outside all passes, or in a handler of the innermost one. */
  predicate UserTurn(s: Deferred)
    requires Shaped(s)
  {
    s.running != [] ==> s.lists[Top(s)].current.Some? && s.lists[Top(s)].current.value.callback.User?
  }

  function Put(s: Deferred, k: nat, l: CList): Deferred
    requires Shaped(s) && k < 3
  {
    s.(lists := s.lists[k := l],
       running := if !s.lists[k].firing && l.firing then s.running + [k] else s.running)
  }

  function Handlers(ids: seq<nat>): seq<Callback> {
    seq(|ids|, i requires 0 <= i < |ids| => User(ids[i]))
  }

  function RegisterStep(s: Deferred, k: nat, ids: seq<nat>): Deferred
    requires Shaped(s) && k < 3
  {
    if s.lists[k].list.None? then s
    else
      Put(s, k, Added(s.lists[k], Handlers(ids), s.next)).(
        registered := s.registered[k := s.registered[k] + set e <- Numbered(Handlers(ids), s.next) :: e.reg],
        next := s.next + |ids|)
  }

  function FireStep(s: Deferred, k: nat, d: Data): Deferred
    requires Shaped(s) && k < 3
  {
    var l := Fired(s.lists[k], d);
    var settles := k < 2 && !s.lists[k].firing && l.firing && s.settled.None?;
    Put(s, k, l).(settled := if settles then Some((k, d)) else s.settled)
  }

  /** The effect of the callback that the innermost pass calls next. */
  function Invoke(s: Deferred, k: nat, e: Entry): Deferred
    requires Shaped(s) && k < 3
  {
    match e.callback
    case User(id) => s.(calls := s.calls[k := s.calls[k] + [Call(id, e.reg, s.lists[k].data)]])
    case Settle => s.(outcome := Settled(k), transitions := s.transitions + 1)
    case DisableOther => if k < 2 then s.(lists := s.lists[1 - k := Disabled(s.lists[1 - k])]) else s
    case LockProgress => s.(lists := s.lists[2 := Locked(s.lists[2])])
  }

  function TickStep(s: Deferred): Deferred
    requires Shaped(s) && s.running != []
  {
    var k := Top(s);
    var l := s.lists[k];
    if CallsNext(l) then Invoke(s.(lists := s.lists[k := Ticked(l)]), k, l.list.value[l.firingIndex])
    else s.(lists := s.lists[k := Ended(l)],
            running := if Ended(l).firing then s.running else s.running[..|s.running| - 1])
  }

  /** Anything that is not possible now changes nothing. */
  function Step(s: Deferred, op: Operation): Deferred
    requires Shaped(s)
  {
    match op
    case Register(k, ids) => if k < 3 && UserTurn(s) then RegisterStep(s, k, ids) else s
    case Fire(k, d) => if k < 3 && UserTurn(s) then FireStep(s, k, d) else s
    case Tick => if s.running != [] && s.lists[Top(s)].current.None? then TickStep(s) else s
    case Return =>
      if s.running != [] && s.lists[Top(s)].current.Some? then
        s.(lists := s.lists[Top(s) := Returned(s.lists[Top(s)])])
      else s
  }

  // ---- one list

  ghost predicate Sane(l: CList, next: nat) {
    && l.remembers && l.firingStart == 0 && (l.once ==> l.stack.None?)
    && (l.list.Some? ==> Ordered(l.list.value, 0, next))
    && (l.memory.Some? ==> l.fired) && (l.fired && l.list.Some? ==> l.memory.Some?)
    && (!l.firing ==> l.current.None?)
    && (l.firing ==>
          && l.fired && l.list.Some? && l.firingLength == |l.list.value|
          && 0 <= l.firingIndex && Cursor(l) <= |l.list.value|
          && (l.current.Some? ==> l.current.value == l.list.value[l.firingIndex]))
  }

  ghost predicate AllUsers(list: seq<Entry>) {
    forall i :: 0 <= i < |list| ==> list[i].callback.User?
  }

  /** The three internal callbacks at the head, then handlers. */
  ghost predicate Headed(list: seq<Entry>) {
    && |list| >= 3 && AllUsers(list[3..])
    && list[0].callback == Settle && list[1].callback == DisableOther && list[2].callback == LockProgress
  }

  /** Entries not yet called. */
  function Ahead(l: CList): seq<Entry>
    requires l.list.Some? && (l.firing ==> 0 <= Cursor(l) <= |l.list.value|)
  {
    if l.firing then l.list.value[Cursor(l)..] else l.list.value
  }

  ghost predicate WasCalled(calls: seq<Call>, r: nat) {
    exists i :: 0 <= i < |calls| && calls[i].reg == r
  }

  ghost predicate IsAhead(ahead: seq<Entry>, r: nat) {
    exists i :: 0 <= i < |ahead| && ahead[i].callback.User? && ahead[i].reg == r
  }

  /** Every accepted handler was called, once and in order, or is still ahead. */
  ghost predicate Served(ahead: seq<Entry>, calls: seq<Call>, registered: set<nat>, next: nat) {
    && (forall r :: r in registered ==> r < next)
    && (forall i, j :: 0 <= i < j < |calls| ==> calls[i].reg < calls[j].reg)
    && (forall i, j :: 0 <= i < |calls| && 0 <= j < |ahead| ==> calls[i].reg < ahead[j].reg)
    && (forall r :: r in registered <==> WasCalled(calls, r) || IsAhead(ahead, r))
  }

  // ---- the whole

  ghost predicate RunningInv(s: Deferred)
    requires Shaped(s)
  {
    && (forall i, j :: 0 <= i < j < |s.running| ==> s.running[i] != s.running[j])
    && (forall k :: 0 <= k < 3 ==> (s.lists[k].firing <==> k in s.running))
    && (forall i :: 0 <= i < |s.running| - 1 ==>
          s.lists[s.running[i]].current.Some? && s.lists[s.running[i]].current.value.callback.User?)
  }

  /** Not fired yet: the internal callbacks and the accepted handlers wait. */
  ghost predicate Untouched(l: CList, calls: seq<Call>, registered: set<nat>, next: nat) {
    && !l.fired && !l.firing && l.list.Some? && Headed(l.list.value)
    && calls == [] && Served(l.list.value, [], registered, next)
  }

  ghost predicate Off(l: CList) {
    l.list.None? && l.stack.None? && l.memory.None? && !l.firing
  }

  ghost predicate Mute(p: CList) {
    p.stack.None? && (p.fired || p.list.None?)
  }

  /** How far the winner's internal callbacks have come: 3 when they are all behind. */
  function Stage(l: CList): int {
    if l.firing && l.list.Some? && l.list.value != [] && !l.list.value[0].callback.User? then Cursor(l) else 4
  }

  /** The list that won: it is being fired, or empty, and serves its handlers with the settled value. */
  ghost predicate Winner(l: CList, calls: seq<Call>, registered: set<nat>, next: nat, d: Data) {
    && l.fired && l.list.Some? && l.memory == Some(d) && (l.firing ==> l.data == d && 0 <= Cursor(l) <= |l.list.value|)
    && (l.firing || l.list.value == []) && (AllUsers(l.list.value) || Headed(l.list.value))
    && Served(Ahead(l), calls, registered, next)
    && (forall i :: 0 <= i < |calls| ==> calls[i].data == d)
    && (Stage(l) == 0 ==> calls == [])
  }

  /** What the winner's internal callbacks have achieved so far. */
  ghost predicate Achieved(s: Deferred, w: nat, stage: int)
    requires Shaped(s) && w < 2
  {
    && s.calls[1 - w] == []
    && s.outcome == (if stage == 0 then Pending else Settled(w))
    && (if stage <= 1 then Untouched(s.lists[1 - w], s.calls[1 - w], s.registered[1 - w], s.next)
        else Off(s.lists[1 - w]))
    && (stage >= 3 ==> Mute(s.lists[2]))
    && (stage < 3 || (stage == 3 && s.lists[w].current.Some?) ==> s.running != [] && Top(s) == w)
  }

  ghost predicate Basics(s: Deferred) {
    && Shaped(s) && Sane(s.lists[0], s.next) && Sane(s.lists[1], s.next) && Sane(s.lists[2], s.next)
    && s.lists[0].once && s.lists[1].once && !s.lists[2].once
    && (s.lists[2].list.Some? ==> AllUsers(s.lists[2].list.value))
    && RunningInv(s)
    && s.transitions == (if s.outcome.Pending? then 0 else 1)
  }

  ghost predicate Undecided(s: Deferred)
    requires Shaped(s)
  {
    && s.outcome.Pending?
    && Untouched(s.lists[0], s.calls[0], s.registered[0], s.next)
    && Untouched(s.lists[1], s.calls[1], s.registered[1], s.next)
  }

  ghost predicate Decided(s: Deferred, w: nat, d: Data)
    requires Shaped(s)
  {
    && w < 2
    && Winner(s.lists[w], s.calls[w], s.registered[w], s.next, d)
    && Achieved(s, w, Stage(s.lists[w]))
  }

  ghost predicate Inv(s: Deferred) {
    Basics(s) && if s.settled.None? then Undecided(s) else Decided(s, s.settled.value.0, s.settled.value.1)
  }

  /** A list with the three internal callbacks, as a new deferred has them. */
  lemma HeadedList(reg: nat)
    requires reg <= 3
    ensures var l := Added(Create(true, true), HEAD, reg); Sane(l, 6) && Untouched(l, [], {}, 6) && l.once
  {
    var l := Added(Create(true, true), HEAD, reg);
    assert [] + Numbered(HEAD, reg) == Numbered(HEAD, reg);
    assert l.list == Some(Numbered(HEAD, reg)) && l.list.value[3..] == [];
    assert forall r :: !IsAhead(l.list.value, r) && !WasCalled([], r);
  }

  lemma InitiallyInv()
    ensures Inv(Initially())
  {
    HeadedList(0);
    HeadedList(3);
    hide Sane, Untouched, Added;
    assert Sane(Create(false, true), 6) by { EmptySane(); }
    UntouchedIsIdle(Initially().lists[0], [], {}, 6);
    UntouchedIsIdle(Initially().lists[1], [], {}, 6);
  }

  lemma EmptySane()
    ensures Sane(Create(false, true), 6)
  {
  }

  // ---- steps on one list

  lemma SaneAdded(l: CList, callbacks: seq<Callback>, next: nat)
    requires Sane(l, next)
    ensures Sane(Added(l, callbacks, next), next + |callbacks|)
  {
    if l.list.Some? { PushOrdered(l.list.value, callbacks, 0, next); }
  }

  lemma SaneFired(l: CList, d: Data, next: nat)
    requires Sane(l, next)
    ensures Sane(Fired(l, d), next)
  {
  }

  lemma SaneTicked(l: CList, next: nat)
    requires Sane(l, next) && l.firing && l.current.None?
    ensures Sane(Ticked(l), next) && (CallsNext(l) <==> l.firingIndex < |l.list.value|)
  {
  }

  lemma SaneReturned(l: CList, next: nat)
    requires Sane(l, next) && l.firing && l.current.Some?
    ensures Sane(Returned(l), next)
  {
  }

  lemma SaneLocked(l: CList, next: nat)
    requires Sane(l, next)
    ensures Sane(Locked(l), next) && Mute(Locked(l)) && Locked(l).firing == l.firing && Locked(l).current == l.current
  {
  }

  lemma ServedPush(ahead: seq<Entry>, calls: seq<Call>, registered: set<nat>, next: nat, ids: seq<nat>)
    requires Served(ahead, calls, registered, next)
    ensures Served(ahead + Numbered(Handlers(ids), next), calls,
                   registered + set e <- Numbered(Handlers(ids), next) :: e.reg, next + |ids|)
  {
    var more := Numbered(Handlers(ids), next);
    var longer := ahead + more;
    var all := registered + set e <- more :: e.reg;
    forall i | 0 <= i < |calls| ensures calls[i].reg < next { assert WasCalled(calls, calls[i].reg); }
    forall r | r in all ensures r < next + |ids| && (WasCalled(calls, r) || IsAhead(longer, r)) {
      if r in registered {
        if IsAhead(ahead, r) {
          var i :| 0 <= i < |ahead| && ahead[i].callback.User? && ahead[i].reg == r;
          assert longer[i] == ahead[i];
        }
      } else {
        var e :| e in more && e.reg == r;
        var i :| 0 <= i < |more| && more[i] == e;
        assert longer[|ahead| + i] == more[i];
      }
    }
    forall r | IsAhead(longer, r) ensures r in all {
      var i :| 0 <= i < |longer| && longer[i].callback.User? && longer[i].reg == r;
      if i < |ahead| { assert IsAhead(ahead, r); } else { assert longer[i] in more; }
    }
  }

  lemma ServedStep(ahead: seq<Entry>, calls: seq<Call>, registered: set<nat>, next: nat, d: Data, high: nat)
    requires Served(ahead, calls, registered, next) && ahead != [] && Ordered(ahead, 0, high)
    ensures if ahead[0].callback.User?
            then Served(ahead[1..], calls + [Call(ahead[0].callback.id, ahead[0].reg, d)], registered, next)
            else Served(ahead[1..], calls, registered, next)
  {
    var rest, first := ahead[1..], ahead[0];
    var more := if first.callback.User? then calls + [Call(first.callback.id, first.reg, d)] else calls;
    CalledOrAhead(ahead, calls, d);
    hide WasCalled, IsAhead;
    assert forall i, j :: 0 <= i < |more| && 0 <= j < |rest| ==> more[i].reg < rest[j].reg;
  }

  /** The first entry ahead moves over to the calls. */
  lemma CalledOrAhead(ahead: seq<Entry>, calls: seq<Call>, d: Data)
    requires ahead != []
    ensures var more := if ahead[0].callback.User? then calls + [Call(ahead[0].callback.id, ahead[0].reg, d)]
                        else calls;
            forall r :: WasCalled(more, r) || IsAhead(ahead[1..], r) <==> WasCalled(calls, r) || IsAhead(ahead, r)
  {
    var rest, first := ahead[1..], ahead[0];
    var more := if first.callback.User? then calls + [Call(first.callback.id, first.reg, d)] else calls;
    forall r ensures WasCalled(more, r) || IsAhead(rest, r) <==> WasCalled(calls, r) || IsAhead(ahead, r) {
      if WasCalled(calls, r) {
        var i :| 0 <= i < |calls| && calls[i].reg == r;
        assert more[i].reg == r;
      }
      if IsAhead(ahead, r) {
        var i :| 0 <= i < |ahead| && ahead[i].callback.User? && ahead[i].reg == r;
        if i > 0 { assert rest[i - 1] == ahead[i]; } else { assert more[|calls|].reg == r; }
      }
      if IsAhead(rest, r) {
        var i :| 0 <= i < |rest| && rest[i].callback.User? && rest[i].reg == r;
        assert ahead[i + 1] == rest[i];
      }
      if WasCalled(more, r) && !WasCalled(calls, r) {
        assert ahead[0].callback.User? && ahead[0].reg == r;
      }
    }
  }

  /** When the user's code runs, the internal callbacks of a decided list are all behind it. */
  lemma UserTurnIsPastTheHead(s: Deferred)
    requires Inv(s) && UserTurn(s) && s.settled.Some?
    ensures var w := s.settled.value.0;
            && Shaped(s) && w < 2 && Stage(s.lists[w]) >= 4 && s.outcome == Settled(w)
            && s.calls[1 - w] == [] && Off(s.lists[1 - w]) && Mute(s.lists[2])
            && Winner(s.lists[w], s.calls[w], s.registered[w], s.next, s.settled.value.1) && Sane(s.lists[w], s.next)
  {
    var w := s.settled.value.0;
    var l := s.lists[w];
    assert Sane(l, s.next);
    if l.firing {
      var i :| 0 <= i < |s.running| && s.running[i] == w;
      assert l.current.Some? && l.current.value.callback.User?;
      if !AllUsers(l.list.value) { assert l.firingIndex >= 3; }
    }
  }

  // ---- every operation keeps the invariant

  /** A list that begins a pass while the user's code runs goes on top of the stack. */
  lemma PutKeepsRunning(s: Deferred, k: nat, l: CList)
    requires Shaped(s) && RunningInv(s) && UserTurn(s) && k < 3
    requires s.lists[k].firing ==> l.firing && l.current == s.lists[k].current
    ensures RunningInv(Put(s, k, l))
  {
    var s' := Put(s, k, l);
    if s.lists[k].firing || !l.firing {
      assert s'.running == s.running;
    } else {
      assert k !in s.running && s'.running == s.running + [k];
      forall i, j | 0 <= i < j < |s'.running| ensures s'.running[i] != s'.running[j] {
        if j == |s.running| { assert s.running[i] in s.running; }
      }
      forall i | 0 <= i < |s.running| ensures s'.lists[s.running[i]].current == s.lists[s.running[i]].current {
        assert s.running[i] in s.running;
      }
    }
  }

  lemma SaneGrows(l: CList, next: nat, later: nat)
    requires Sane(l, next) && next <= later
    ensures Sane(l, later)
  {
  }

  lemma HandlersAreUsers(list: seq<Entry>, ids: seq<nat>, reg: nat)
    ensures AllUsers(list) ==> AllUsers(list + Numbered(Handlers(ids), reg))
    ensures Headed(list) ==> Headed(list + Numbered(Handlers(ids), reg))
  {
    if Headed(list) {
      var longer := list + Numbered(Handlers(ids), reg);
      assert forall i :: 0 <= i < |list| ==> longer[i] == list[i];
      assert longer[3..] == list[3..] + Numbered(Handlers(ids), reg);
    }
  }

  lemma UntouchedRegister(l: CList, calls: seq<Call>, registered: set<nat>, next: nat, ids: seq<nat>)
    requires Untouched(l, calls, registered, next) && Sane(l, next)
    ensures Untouched(Added(l, Handlers(ids), next), calls,
                      registered + set e <- Numbered(Handlers(ids), next) :: e.reg, next + |ids|)
  {
    HandlersAreUsers(l.list.value, ids, next);
    ServedPush(l.list.value, [], registered, next, ids);
  }

  lemma UntouchedGrows(l: CList, calls: seq<Call>, registered: set<nat>, next: nat, later: nat)
    requires Untouched(l, calls, registered, next) && next <= later
    ensures Untouched(l, calls, registered, later)
  {
  }

  lemma Heads(list: seq<Entry>)
    ensures AllUsers(list) && list != [] ==> list[0].callback.User?
    ensures Headed(list) ==> |list| >= 3
  {
  }

  /** A handler registered with the list that won is appended to the pass, or gets a pass of its own. */
  lemma WinnerRegister(l: CList, calls: seq<Call>, registered: set<nat>, next: nat, ids: seq<nat>, d: Data)
    requires Winner(l, calls, registered, next, d) && Stage(l) >= 4 && Sane(l, next)
    ensures var l' := Added(l, Handlers(ids), next);
            && Winner(l', calls, registered + set e <- Numbered(Handlers(ids), next) :: e.reg, next + |ids|, d)
            && Stage(l') >= 4 && l'.firing
  {
    hide Served, AllUsers, Headed, Handlers, Numbered, Ordered;
    var l', more := Added(l, Handlers(ids), next), Numbered(Handlers(ids), next);
    assert l'.list == Some(l.list.value + more);
    HandlersAreUsers(l.list.value, ids, next);
    Heads(l.list.value);
    Heads(l'.list.value);
    ServedPush(Ahead(l), calls, registered, next, ids);
    assert Cursor(l') == if l.firing then Cursor(l) else |l.list.value|;
    assert Ahead(l') == Ahead(l) + more;
    assert Stage(l') >= 4;
  }

  lemma WinnerGrows(l: CList, calls: seq<Call>, registered: set<nat>, next: nat, later: nat, d: Data)
    requires Winner(l, calls, registered, next, d) && next <= later
    ensures Winner(l, calls, registered, later, d)
  {
  }

  lemma AddedIs(l: CList, callbacks: seq<Callback>, next: nat)
    requires l.list.Some?
    ensures var l' := Added(l, callbacks, next);
            && l'.list == Some(l.list.value + Numbered(callbacks, next)) && l'.once == l.once
            && (l.firing ==> l'.firing && l'.current == l.current)
            && (Mute(l) ==> Mute(l'))
  {
  }

  lemma FiredIs(l: CList, d: Data)
    ensures var l' := Fired(l, d);
            && l'.list == l.list && l'.once == l.once && (l.firing && l.fired ==> l'.firing && l'.current == l.current)
  {
  }

  lemma RegisterKeepsBasics(s: Deferred, k: nat, ids: seq<nat>)
    requires Basics(s) && k < 3 && UserTurn(s) && s.lists[k].list.Some?
    ensures Basics(RegisterStep(s, k, ids))
  {
    hide Sane, AllUsers, Numbered, Handlers, Added, RunningInv;
    var later := s.next + |ids|;
    SaneAdded(s.lists[k], Handlers(ids), s.next);
    SaneGrows(s.lists[0], s.next, later);
    SaneGrows(s.lists[1], s.next, later);
    SaneGrows(s.lists[2], s.next, later);
    AddedIs(s.lists[k], Handlers(ids), s.next);
    HandlersLength(ids);
    PutKeepsRunning(s, k, Added(s.lists[k], Handlers(ids), s.next));
    HandlersAreUsers(s.lists[k].list.value, ids, s.next);
    var s' := RegisterStep(s, k, ids);
    assert RunningInv(s') by { RunningAlike(Put(s, k, Added(s.lists[k], Handlers(ids), s.next)), s'); }
  }

  lemma HandlersLength(ids: seq<nat>)
    ensures |Handlers(ids)| == |ids|
  {
  }

  lemma RunningAlike(s: Deferred, s': Deferred)
    requires Shaped(s) && Shaped(s') && s'.lists == s.lists && s'.running == s.running && RunningInv(s)
    ensures RunningInv(s')
  {
  }

  lemma RegisterKeepsInv(s: Deferred, k: nat, ids: seq<nat>)
    requires Inv(s) && k < 3 && UserTurn(s)
    ensures Inv(RegisterStep(s, k, ids))
  {
    if s.lists[k].list.Some? {
      RegisterKeepsBasics(s, k, ids);
      var s' := RegisterStep(s, k, ids);
      if s.settled.None? {
        UndecidedRegister(s, k, ids);
      } else {
        DecidedRegister(s, k, ids, s.settled.value.0, s.settled.value.1);
      }
      hide Basics, Undecided, Decided;
    }
  }

  lemma UndecidedRegister(s: Deferred, k: nat, ids: seq<nat>)
    requires Basics(s) && Undecided(s) && k < 3 && s.lists[k].list.Some?
    ensures Undecided(RegisterStep(s, k, ids))
  {
    hide Untouched, Sane, AllUsers, RunningInv, Added, Numbered, Handlers;
    UntouchedGrows(s.lists[0], s.calls[0], s.registered[0], s.next, s.next + |ids|);
    UntouchedGrows(s.lists[1], s.calls[1], s.registered[1], s.next, s.next + |ids|);
    if k < 2 { UntouchedRegister(s.lists[k], s.calls[k], s.registered[k], s.next, ids); }
  }

  lemma DecidedRegister(s: Deferred, k: nat, ids: seq<nat>, w: nat, d: Data)
    requires Inv(s) && k < 3 && UserTurn(s) && s.settled == Some((w, d)) && s.lists[k].list.Some?
    ensures Decided(RegisterStep(s, k, ids), w, d)
  {
    hide Inv, Winner, Added, Numbered, Handlers, Stage, Sane;
    UserTurnIsPastTheHead(s);
    AddedIs(s.lists[k], Handlers(ids), s.next);
    WinnerRegistration(s, k, ids, w, d);
    assert Achieved(RegisterStep(s, k, ids), w, Stage(RegisterStep(s, k, ids).lists[w]));
  }

  lemma WinnerRegistration(s: Deferred, k: nat, ids: seq<nat>, w: nat, d: Data)
    requires Shaped(s) && k < 3 && w < 2 && s.lists[k].list.Some? && Sane(s.lists[w], s.next)
    requires Winner(s.lists[w], s.calls[w], s.registered[w], s.next, d) && Stage(s.lists[w]) >= 4
    ensures var s' := RegisterStep(s, k, ids);
            Winner(s'.lists[w], s'.calls[w], s'.registered[w], s'.next, d) && Stage(s'.lists[w]) >= 4
  {
    hide Winner, Added, Numbered, Handlers, Stage, Sane;
    if k == w { WinnerRegister(s.lists[w], s.calls[w], s.registered[w], s.next, ids, d); }
    else { WinnerGrows(s.lists[w], s.calls[w], s.registered[w], s.next, s.next + |ids|, d); }
  }

  lemma FireKeepsInv(s: Deferred, k: nat, d: Data)
    requires Inv(s) && k < 3 && UserTurn(s)
    ensures Inv(FireStep(s, k, d))
  {
    if s.settled.Some? {
      LaterFire(s, k, d);
    } else {
      hide Sane, AllUsers, RunningInv, Untouched, Decided, Fired;
      FireKeepsBasics(s, k, d);
      if k < 2 { FirstFire(s, k, d); }
    }
  }

  lemma FireKeepsBasics(s: Deferred, k: nat, d: Data)
    requires Basics(s) && k < 3 && UserTurn(s)
    ensures Basics(FireStep(s, k, d))
  {
    hide Sane, AllUsers, RunningInv, Fired;
    if s.lists[k].firing { FiringHasList(s.lists[k], s.next); }
    SaneFired(s.lists[k], d, s.next);
    FiredIs(s.lists[k], d);
    PutKeepsRunning(s, k, Fired(s.lists[k], d));
    assert RunningInv(FireStep(s, k, d)) by { RunningAlike(Put(s, k, Fired(s.lists[k], d)), FireStep(s, k, d)); }
  }

  /** The first resolve or reject begins the pass of its list. */
  lemma FirstFire(s: Deferred, k: nat, d: Data)
    requires Inv(s) && k < 2 && UserTurn(s) && s.settled.None?
    ensures FireStep(s, k, d).settled == Some((k, d)) && Decided(FireStep(s, k, d), k, d)
  {
    hide Winner, Sane, AllUsers, RunningInv, Untouched, Fired, Stage;
    if k == 0 {
      UntouchedFires(s.lists[0], s.calls[0], s.registered[0], s.next, d);
    } else {
      UntouchedFires(s.lists[1], s.calls[1], s.registered[1], s.next, d);
    }
    UntouchedHasNoCalls(s.lists[0], s.calls[0], s.registered[0], s.next);
    UntouchedHasNoCalls(s.lists[1], s.calls[1], s.registered[1], s.next);
    assert Achieved(FireStep(s, k, d), k, 0);
  }

  lemma UntouchedFires(l: CList, calls: seq<Call>, registered: set<nat>, next: nat, d: Data)
    requires Untouched(l, calls, registered, next) && Sane(l, next)
    ensures var l' := Fired(l, d); Winner(l', calls, registered, next, d) && Stage(l') == 0 && l'.firing && !l.firing
  {
    hide Served, AllUsers, Ordered;
    var l' := Fired(l, d);
    assert l' == Begin(l, d) && l'.list.value[0..] == l.list.value;
    assert Cursor(l') == 0 && Ahead(l') == l.list.value;
    assert Stage(l') == 0;
    assert Winner(l', calls, registered, next, d);
  }

  /** Later ones, and every notify after the settlement, change nothing. */
  lemma LaterFire(s: Deferred, k: nat, d: Data)
    requires Inv(s) && k < 3 && UserTurn(s) && s.settled.Some?
    ensures FireStep(s, k, d) == s
  {
    UserTurnIsPastTheHead(s);
    assert Sane(s.lists[k], s.next);
    assert Fired(s.lists[k], d) == s.lists[k];
    assert s.lists[k := s.lists[k]] == s.lists;
  }

  // ---- the firing loop

  /** A step of the innermost pass leaves the passes around it alone. */
  lemma TopKeepsRunning(s: Deferred, s': Deferred)
    requires Shaped(s) && Shaped(s') && RunningInv(s) && s.running != []
    requires forall j :: 0 <= j < 3 && j != Top(s) ==>
               s'.lists[j].firing == s.lists[j].firing && s'.lists[j].current == s.lists[j].current
    requires s'.running == if s'.lists[Top(s)].firing then s.running else s.running[..|s.running| - 1]
    ensures RunningInv(s')
  {
    var n := |s.running| - 1;
    var init := s.running[..n];
    forall k: nat ensures k in s.running <==> k in init || k == Top(s) {
      assert s.running == init + [Top(s)];
    }
    assert Top(s) !in init;
    forall i | 0 <= i < |s'.running| - 1 ensures s'.running[i] == s.running[i] && s.running[i] != Top(s) {
    }
  }

  lemma ReturnedIs(l: CList)
    requires l.current.Some?
    ensures var l' := Returned(l);
            && l' == l.(current := None, firingIndex := l.firingIndex + 1)
            && Stage(l') == Stage(l) && (Mute(l) ==> Mute(l'))
  {
  }

  lemma WinnerReturns(l: CList, calls: seq<Call>, registered: set<nat>, next: nat, d: Data)
    requires Winner(l, calls, registered, next, d) && l.firing && l.current.Some?
    ensures Winner(Returned(l), calls, registered, next, d)
  {
    assert Ahead(Returned(l)) == Ahead(l);
  }

  /** The innermost pass is one of the list that won, or of the progress list. */
  lemma TopIsSettled(s: Deferred)
    requires Inv(s) && s.running != []
    ensures s.lists[Top(s)].firing && (Top(s) < 2 ==> s.settled.Some? && s.settled.value.0 == Top(s))
  {
    hide Sane, AllUsers, Winner, Headed, Served, Stage;
    assert Top(s) in s.running;
  }

  lemma ReturnKeepsBasics(s: Deferred)
    requires Inv(s) && s.running != [] && s.lists[Top(s)].current.Some?
    ensures Basics(Step(s, Operation.Return))
  {
    var k := Top(s);
    TopIsSettled(s);
    hide Sane, AllUsers, RunningInv, Untouched, Winner, Achieved, Returned, Mute;
    SaneReturned(s.lists[k], s.next);
    ReturnedIs(s.lists[k]);
    var s' := Step(s, Operation.Return);
    assert s' == s.(lists := s.lists[k := Returned(s.lists[k])]);
    TopKeepsRunning(s, s');
  }

  /** What was achieved stays so while the loser and the stack are left alone. */
  lemma AchievedAlike(s: Deferred, s': Deferred, w: nat, stage: int)
    requires Shaped(s) && Shaped(s') && w < 2 && Achieved(s, w, stage)
    requires s'.lists[1 - w] == s.lists[1 - w] && s'.calls[1 - w] == s.calls[1 - w]
    requires s'.registered[1 - w] == s.registered[1 - w] && s'.next == s.next
    requires s'.outcome == s.outcome && s'.running == s.running
    requires (Mute(s.lists[2]) ==> Mute(s'.lists[2])) && (s'.lists[w].current.Some? ==> s.lists[w].current.Some?)
    ensures Achieved(s', w, stage)
  {
    hide Mute, Off, Untouched;
  }

  lemma ReturnKeepsDecided(s: Deferred)
    requires Inv(s) && s.running != [] && s.lists[Top(s)].current.Some? && s.settled.Some?
    ensures Decided(Step(s, Operation.Return), s.settled.value.0, s.settled.value.1)
  {
    var k, w := Top(s), s.settled.value.0;
    var l := s.lists[k];
    TopIsSettled(s);
    hide Basics, Winner, Achieved, Stage, Returned, Mute;
    ReturnedIs(l);
    var s' := Step(s, Operation.Return);
    assert s' == s.(lists := s.lists[k := Returned(l)]);
    if w == k { WinnerReturns(l, s.calls[k], s.registered[k], s.next, s.settled.value.1); }
    AchievedAlike(s, s', w, Stage(s.lists[w]));
  }

  lemma ReturnKeepsInv(s: Deferred)
    requires Inv(s) && s.running != [] && s.lists[Top(s)].current.Some?
    ensures Inv(Step(s, Operation.Return))
  {
    ReturnKeepsBasics(s);
    TopIsSettled(s);
    if s.settled.Some? { ReturnKeepsDecided(s); }
    hide Basics, Decided, Untouched;
  }

  /** A list whose pass is not the innermost one is past its internal callbacks. */
  lemma NotOnTop(s: Deferred, w: nat)
    requires Basics(s) && w < 2 && (s.running == [] || Top(s) != w)
    requires s.lists[w].firing ==> AllUsers(s.lists[w].list.value) || Headed(s.lists[w].list.value)
    ensures Stage(s.lists[w]) >= 4
  {
    var l := s.lists[w];
    assert Sane(l, s.next);
    if l.firing {
      var i :| 0 <= i < |s.running| && s.running[i] == w;
      assert l.current.Some? && l.current.value.callback.User?;
      if !AllUsers(l.list.value) { assert l.firingIndex >= 3; }
    }
  }

  lemma TickedIs(l: CList)
    requires l.firing && l.list.Some?
    ensures var l' := Ticked(l);
            && l'.once == l.once && (CallsNext(l) ==> l'.firing && l'.list == l.list)
            && (l'.list == l.list || l'.list == Some([]) || l'.list.None?) && (Mute(l) ==> Mute(l'))
  {
  }

  lemma ProgressTickKeepsBasics(s: Deferred)
    requires Inv(s) && s.running != [] && Top(s) == 2 && s.lists[2].current.None?
    ensures Basics(TickStep(s))
    ensures var s' := TickStep(s);
            && s'.lists == s.lists[2 := Ticked(s.lists[2])] && s'.outcome == s.outcome && s'.settled == s.settled
            && s'.next == s.next && s'.registered == s.registered
            && s'.calls[0] == s.calls[0] && s'.calls[1] == s.calls[1]
  {
    var l := s.lists[2];
    TopIsSettled(s);
    SaneTicked(l, s.next);
    TickedIs(l);
    NobodyIsAUser();
    assert CallsNext(l) ==> l.list.value[l.firingIndex].callback.User?;
    var s' := TickStep(s);
    hide Sane, AllUsers, RunningInv, Untouched, Winner, Achieved, Ticked, Ended, CallsNext;
    TopKeepsRunning(s, s');
  }

  lemma NobodyIsAUser()
    ensures AllUsers([])
  {
  }

  /** One turn of the progress list. */
  lemma ProgressTick(s: Deferred)
    requires Inv(s) && s.running != [] && Top(s) == 2 && s.lists[2].current.None?
    ensures Inv(TickStep(s))
  {
    ProgressTickKeepsBasics(s);
    TopIsSettled(s);
    FiringHasList(s.lists[2], s.next);
    TickedIs(s.lists[2]);
    if s.settled.Some? { NotOnTop(s, s.settled.value.0); }
    hide Basics, TickStep, Untouched, Winner, Ticked, Mute, Stage, Off;
  }

  /** The internal callbacks come first, each at its stage. */
  lemma StageMoves(l: CList)
    requires l.list.Some? && (AllUsers(l.list.value) || Headed(l.list.value))
    requires l.firing && l.current.None? && CallsNext(l)
    ensures var e := l.list.value[l.firingIndex];
            if Stage(l) < 3 then Stage(Ticked(l)) == Stage(l) + 1 && 0 <= Stage(l) && e.callback == HEAD[Stage(l)]
            else Stage(Ticked(l)) >= 4 && e.callback.User?
  {
    var list := l.list.value;
    if Headed(list) && l.firingIndex >= 3 { assert list[l.firingIndex] == list[3..][l.firingIndex - 3]; }
  }

  /** One turn of the list that won: the next internal callback or handler is called. */
  lemma WinnerTicks(l: CList, calls: seq<Call>, registered: set<nat>, next: nat, d: Data)
    requires Winner(l, calls, registered, next, d) && Sane(l, next) && l.firing && l.current.None? && CallsNext(l)
    ensures var e := l.list.value[l.firingIndex];
            var more := if e.callback.User? then calls + [Call(e.callback.id, e.reg, l.data)] else calls;
            && Winner(Ticked(l), more, registered, next, d)
            && if Stage(l) < 3 then Stage(Ticked(l)) == Stage(l) + 1 && 0 <= Stage(l) && e.callback == HEAD[Stage(l)]
               else Stage(Ticked(l)) >= 4 && e.callback.User?
  {
    hide Served, Ordered, AllUsers, Headed, Stage, Ahead;
    StageMoves(l);
    AheadMoves(l, next);
    ServedStep(Ahead(l), calls, registered, next, l.data, next);
    Heads(l.list.value);
  }

  lemma AheadMoves(l: CList, next: nat)
    requires Sane(l, next) && l.firing && l.current.None? && CallsNext(l)
    ensures Ahead(l) != [] && Ahead(l)[0] == l.list.value[l.firingIndex] && Ahead(Ticked(l)) == Ahead(l)[1..]
    ensures Ordered(Ahead(l), 0, next)
  {
  }

  /** The pass of the list that won ends: every handler was called, and the list is emptied. */
  lemma WinnerPassEnds(l: CList, calls: seq<Call>, registered: set<nat>, next: nat, d: Data)
    requires Winner(l, calls, registered, next, d) && Sane(l, next) && l.firing && l.current.None? && l.once
    requires !CallsNext(l)
    ensures Winner(Ended(l), calls, registered, next, d) && Stage(l) >= 3 && Stage(Ended(l)) == 4 && !Ended(l).firing
  {
    assert Ahead(l) == [] && Ahead(Ended(l)) == [];
    hide Served, Ordered;
  }

  lemma SaneDisabled(l: CList, next: nat)
    requires Sane(l, next) && !l.firing
    ensures Sane(Disabled(l), next) && Off(Disabled(l))
    ensures Disabled(l).once == l.once && Disabled(l).current == l.current
  {
  }

  lemma LockedIs(l: CList)
    ensures Locked(l).once == l.once && (Locked(l).list == l.list || Locked(l).list.None?)
  {
  }

  /** The winner's pass calls the next entry, and an internal callback takes effect. */
  lemma WinnerCalls(s: Deferred, w: nat, d: Data)
    requires Inv(s) && s.settled == Some((w, d)) && s.running != [] && Top(s) == w && s.lists[w].current.None?
    requires CallsNext(s.lists[w]) && s.lists[w].firing
    ensures Inv(TickStep(s))
  {
    hide Sane, AllUsers, RunningInv, Untouched, Winner, Ticked, Mute, Stage, CallsNext, Locked, Disabled, Off;
    var l := s.lists[w];
    var s' := TickStep(s);
    assert Winner(l, s.calls[w], s.registered[w], s.next, d) && Sane(l, s.next);
    WinnerTicks(l, s.calls[w], s.registered[w], s.next, d);
    SaneTicked(l, s.next);
    FiringHasList(l, s.next);
    TickedIs(l);
    SaneLocked(s.lists[2], s.next);
    LockedIs(s.lists[2]);
    if Stage(l) <= 1 {
      UntouchedIsIdle(s.lists[1 - w], s.calls[1 - w], s.registered[1 - w], s.next);
      SaneDisabled(s.lists[1 - w], s.next);
    }
    TopKeepsRunning(s, s');
    TickedCurrent(l);
    assert Basics(s');
    assert Achieved(s', w, Stage(s'.lists[w]));
  }

  lemma FiringHasList(l: CList, next: nat)
    requires Sane(l, next) && l.firing
    ensures l.list.Some? && l.fired
  {
  }

  lemma UntouchedIsIdle(l: CList, calls: seq<Call>, registered: set<nat>, next: nat)
    requires Untouched(l, calls, registered, next)
    ensures !l.firing
  {
  }

  lemma TickedCurrent(l: CList)
    requires CallsNext(l)
    ensures Ticked(l).current == Some(l.list.value[l.firingIndex]) && Ticked(l).data == l.data
  {
  }

  lemma WinnerEnds(s: Deferred, w: nat, d: Data)
    requires Inv(s) && s.settled == Some((w, d)) && s.running != [] && Top(s) == w && s.lists[w].current.None?
    requires !CallsNext(s.lists[w]) && s.lists[w].firing
    ensures Inv(TickStep(s))
  {
    hide Sane, AllUsers, RunningInv, Untouched, Winner, Ended, Mute, Stage, CallsNext, Off;
    var l := s.lists[w];
    var s' := TickStep(s);
    assert Winner(l, s.calls[w], s.registered[w], s.next, d) && Sane(l, s.next);
    WinnerPassEnds(l, s.calls[w], s.registered[w], s.next, d);
    SaneTicked(l, s.next);
    FiringHasList(l, s.next);
    TickedIs(l);
    TopKeepsRunning(s, s');
    assert Basics(s');
    assert Achieved(s', w, Stage(s'.lists[w]));
  }

  lemma StepKeepsInv(s: Deferred, op: Operation)
    requires Inv(s)
    ensures Inv(Step(s, op))
  {
    assert Shaped(s);
    hide Inv, RegisterStep, FireStep, TickStep;
    match op
    case Register(k, ids) => if k < 3 && UserTurn(s) { RegisterKeepsInv(s, k, ids); }
    case Fire(k, d) => if k < 3 && UserTurn(s) { FireKeepsInv(s, k, d); }
    case Tick => if s.running != [] && s.lists[Top(s)].current.None? { TickKeepsInv(s); }
    case Return => if s.running != [] && s.lists[Top(s)].current.Some? { ReturnKeepsInv(s); }
  }

  lemma TickKeepsInv(s: Deferred)
    requires Inv(s) && s.running != [] && s.lists[Top(s)].current.None?
    ensures Inv(TickStep(s))
  {
    var k := Top(s);
    TopIsSettled(s);
    hide Inv, TickStep;
    if k == 2 {
      ProgressTick(s);
    } else {
      if CallsNext(s.lists[k]) { WinnerCalls(s, k, s.settled.value.1); } else { WinnerEnds(s, k, s.settled.value.1); }
    }
  }

  // ---- what holds in every run

  ghost function Run(script: seq<Operation>): (s: Deferred)
    ensures Shaped(s)
  {
    if script == [] then Initially()
    else
      StepKeepsShape(Run(script[..|script| - 1]), script[|script| - 1]);
      Step(Run(script[..|script| - 1]), script[|script| - 1])
  }

  lemma StepKeepsShape(s: Deferred, op: Operation)
    requires Shaped(s)
    ensures Shaped(Step(s, op))
  {
    hide Added, Fired, Ticked, Ended, Returned, Numbered, Handlers, Disabled, Locked;
  }

  lemma {:induction false} Reached(script: seq<Operation>)
    ensures Inv(Run(script))
    decreases |script|
  {
    hide Step, Inv;
    if script == [] {
      InitiallyInv();
    } else {
      Reached(script[..|script| - 1]);
      StepKeepsInv(Run(script[..|script| - 1]), script[|script| - 1]);
    }
  }

  /** The state leaves pending at most once and never changes again. */
  lemma {:induction false} SettlesOnce(script: seq<Operation>, k: nat)
    requires k <= |script|
    ensures var s, early := Run(script), Run(script[..k]);
            && s.transitions == (if s.outcome.Pending? then 0 else 1)
            && (!early.outcome.Pending? ==> s.outcome == early.outcome)
            && (early.settled.Some? ==> s.settled == early.settled)
    decreases |script|
  {
    Reached(script);
    if k < |script| {
      var before := script[..|script| - 1];
      assert script[..k] == before[..k];
      SettlesOnce(before, k);
      Reached(before);
      OutcomeIsFinal(Run(before), script[|script| - 1]);
    } else {
      assert script[..k] == script;
    }
  }

  lemma OutcomeIsFinal(s: Deferred, op: Operation)
    requires Inv(s)
    ensures !s.outcome.Pending? ==> Step(s, op).outcome == s.outcome
    ensures s.settled.Some? ==> Step(s, op).settled == s.settled
  {
    StepKeepsInv(s, op);
    OutcomeIsCounted(s, op);
    hide Step, Decided, Undecided;
  }

  /** Every assignment of the state is counted, and the settling call is recorded once. */
  lemma OutcomeIsCounted(s: Deferred, op: Operation)
    requires Shaped(s)
    ensures Step(s, op).outcome == s.outcome || Step(s, op).transitions == s.transitions + 1
    ensures s.settled.Some? ==> Step(s, op).settled == s.settled
  {
    hide Added, Fired, Ticked, Ended, Numbered, Handlers;
  }

  /** Done handlers run only if resolved and fail handlers only if rejected, always with the
      settled value, in registration order and none twice. */
  lemma OnlyTheWinnersHandlersRun(script: seq<Operation>, kind: nat)
    requires kind < 2
    ensures var s := Run(script);
            var calls := s.calls[kind];
            && (calls != [] ==> s.outcome == Settled(kind) && s.settled.Some? && s.settled.value.0 == kind)
            && (forall i :: 0 <= i < |calls| ==> calls[i].data == s.settled.value.1)
            && (forall i, j :: 0 <= i < j < |calls| ==> calls[i].reg < calls[j].reg)
            && (forall i :: 0 <= i < |calls| ==> calls[i].reg in s.registered[kind])
  {
    hide Sane, RunningInv, Winner, Run, Stage, Untouched;
    Reached(script);
    var s := Run(script);
    if s.settled.None? {
      UntouchedHasNoCalls(s.lists[kind], s.calls[kind], s.registered[kind], s.next);
    } else if s.settled.value.0 == kind {
      WinnerCallsFacts(s.lists[kind], s.calls[kind], s.registered[kind], s.next, s.settled.value.1);
    }
  }

  lemma UntouchedHasNoCalls(l: CList, calls: seq<Call>, registered: set<nat>, next: nat)
    requires Untouched(l, calls, registered, next)
    ensures calls == []
  {
  }

  lemma WinnerCallsFacts(l: CList, calls: seq<Call>, registered: set<nat>, next: nat, d: Data)
    requires Winner(l, calls, registered, next, d)
    ensures (Stage(l) == 0 ==> calls == []) && forall i :: 0 <= i < |calls| ==> calls[i].data == d
    ensures forall i, j :: 0 <= i < j < |calls| ==> calls[i].reg < calls[j].reg
    ensures forall i :: 0 <= i < |calls| ==> calls[i].reg in registered
  {
    forall i | 0 <= i < |calls| ensures calls[i].reg in registered {
      assert WasCalled(calls, calls[i].reg);
    }
  }

  /** Once settled and outside all passes, every handler of the winning kind has been called,
      whether it was registered before, during or after the settlement. */
  lemma EveryWinningHandlerHasRun(script: seq<Operation>)
    ensures var s := Run(script);
            s.running == [] && s.outcome.Settled? ==>
              && s.outcome.kind < 2 && s.settled.Some? && s.settled.value.0 == s.outcome.kind
              && forall r :: r in s.registered[s.outcome.kind] <==> WasCalled(s.calls[s.outcome.kind], r)
  {
    Reached(script);
    var s := Run(script);
    if s.running == [] && s.outcome.Settled? {
      var w := s.settled.value.0;
      assert !s.lists[w].firing;
      assert Ahead(s.lists[w]) == [];
    }
  }

  /** After the settlement resolve, reject and notify have no effect, wherever they are called
      from; before it, a resolve or reject by the user's code settles at the next turn. */
  lemma OnlyTheFirstCallSettles(script: seq<Operation>, kind: nat, d: Data)
    requires kind < 3
    ensures var s := Run(script);
            && (!s.outcome.Pending? ==> Step(s, Operation.Fire(kind, d)) == s)
            && (s.outcome.Pending? && UserTurn(s) && kind < 2 ==>
                  var t := Step(Step(s, Operation.Fire(kind, d)), Operation.Tick);
                  t.outcome == Settled(kind) && t.settled == Some((kind, d)))
  {
    Reached(script);
    var s := Run(script);
    if UserTurn(s) {
      if s.settled.Some? {
        LaterFire(s, kind, d);
        UserTurnIsPastTheHead(s);
      } else if kind < 2 {
        FirstTurn(s, kind, d);
      }
    }
  }

  lemma FirstTurn(s: Deferred, kind: nat, d: Data)
    requires Inv(s) && s.settled.None? && UserTurn(s) && kind < 2
    ensures var t := Step(Step(s, Operation.Fire(kind, d)), Operation.Tick);
            t.outcome == Settled(kind) && t.settled == Some((kind, d))
  {
    FirstFire(s, kind, d);
    var f := FireStep(s, kind, d);
    var l := f.lists[kind];
    assert l == Begin(s.lists[kind], d) && Headed(l.list.value);
    assert f.running != [] && Top(f) == kind && CallsNext(l) && l.list.value[0].callback == Settle;
  }
}
