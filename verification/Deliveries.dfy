/**
 What the handlers of a deferred are owed, told from the script of calls alone, and that every
 one of them is called with exactly that: done and fail handlers with the settled value,
 progress handlers with one value after the other.
 */
module Deliveries {
  import opened CallbackLists
  import opened Deferreds
  import opened Options
  import D = Deferreds

  /** A handler registered by the script; `first` is the index of the first notified value it is owed. */
  datatype Handler = Handler(id: nat, reg: nat, first: nat)

  /** What the script has asked for so far: the handlers kind by kind in the order of their
      registration, the values of the notifies that count, and the call that settles. */
  datatype Asked = Asked(handlers: seq<seq<Handler>>, notified: seq<Data>, settled: Option<(nat, Data)>)

  /** The user's code runs when nothing is being fired, or in a handler. */
  ghost predicate UserRuns(s: Deferred)
    requires Shaped(s)
  {
    || s.running == []
    || var l := s.lists[s.running[|s.running| - 1]]; l.current.Some? && l.current.value.callback.User?
  }

  /** Notifies made during a pass wait until it is over; a settlement drops them. */
  ghost function Begun(s: Deferred, a: Asked): int
    requires Shaped(s)
  {
    if a.settled.None? && s.lists[2].stack.Some? then |a.notified| - |s.lists[2].stack.value| else |a.notified|
  }

  ghost function NewHandlers(ids: seq<nat>, reg: nat, first: nat): seq<Handler> {
    seq(|ids|, i requires 0 <= i < |ids| => Handler(ids[i], reg + i, first))
  }

  ghost function Size(a: Asked): nat
    requires |a.handlers| == 3
  {
    |a.handlers[0]| + |a.handlers[1]| + |a.handlers[2]|
  }

  /** Handlers of a settled deferred count if they are of the kind it settled with, or if there is
      a last notified value for them. */
  ghost predicate Counts(a: Asked, k: nat) {
    match a.settled
    case None => true
    case Some(settling) => if k == 2 then a.notified != [] else k == settling.0
  }

  /** What one operation adds. The six internal callbacks have the first numbers; a progress
      handler is owed the value last served or being served, if there is one, and all later ones. */
  ghost function Ask(s: Deferred, a: Asked, op: Operation): Asked
    requires Shaped(s) && |a.handlers| == 3
  {
    if (op.Register? || op.Fire?) && op.kind < 3 && UserRuns(s) then
      match op
      case Register(k, ids) =>
        if Counts(a, k) then
          var first := if k == 2 && Begun(s, a) > 0 then Begun(s, a) - 1 else 0;
          a.(handlers := a.handlers[k := a.handlers[k] + NewHandlers(ids, 6 + Size(a), first)])
        else a
      case Fire(k, d) =>
        if a.settled.Some? then a
        else if k == 2 then a.(notified := a.notified + [d])
        else if 0 <= Begun(s, a) <= |a.notified| then
          a.(settled := Some((k, d)), notified := a.notified[..Begun(s, a)])
        else a
    else a
  }

  ghost function AskedBy(script: seq<Operation>): (a: Asked)
    ensures |a.handlers| == 3
  {
    if script == [] then Asked([[], [], []], [], None)
    else Ask(D.Run(script[..|script| - 1]), AskedBy(script[..|script| - 1]), script[|script| - 1])
  }

  /** One call of each handler. */
  ghost function CallAll(handlers: seq<Handler>, d: Data): seq<Call> {
    seq(|handlers|, i requires 0 <= i < |handlers| => Call(handlers[i].id, handlers[i].reg, d))
  }

  /** One value for every handler that is owed it. */
  ghost function Round(handlers: seq<Handler>, index: nat, d: Data): seq<Call> {
    if handlers == [] then []
    else
      var last := handlers[|handlers| - 1];
      Round(handlers[..|handlers| - 1], index, d)
      + if last.first <= index then [Call(last.id, last.reg, d)] else []
  }

  /** The first n values, one round after the other. */
  ghost function Rounds(values: seq<Data>, handlers: seq<Handler>, n: nat): seq<Call>
    requires n <= |values|
  {
    if n == 0 then [] else Rounds(values, handlers, n - 1) + Round(handlers, n - 1, values[n - 1])
  }

  // ---- the lists hold what was asked for

  ghost function Entries(handlers: seq<Handler>): seq<Entry> {
    seq(|handlers|, i requires 0 <= i < |handlers| => Entry(User(handlers[i].id), handlers[i].reg))
  }

  ghost function Users(list: seq<Entry>): seq<Entry> {
    if list == [] then []
    else Users(list[..|list| - 1]) + if list[|list| - 1].callback.User? then [list[|list| - 1]] else []
  }

  lemma {:induction false} UsersSplit(a: seq<Entry>, b: seq<Entry>)
    ensures Users(a + b) == Users(a) + Users(b)
    decreases |b|
  {
    if b == [] {
      assert a + b == a;
    } else {
      assert (a + b)[..|a + b| - 1] == a + b[..|b| - 1];
      UsersSplit(a, b[..|b| - 1]);
    }
  }

  lemma {:induction false} UsersOnly(handlers: seq<Handler>)
    ensures Users(Entries(handlers)) == Entries(handlers)
    decreases |handlers|
  {
    if handlers != [] {
      var init := handlers[..|handlers| - 1];
      UsersOnly(init);
      assert Entries(handlers)[..|handlers| - 1] == Entries(init);
    }
  }

  lemma NewEntries(ids: seq<nat>, reg: nat, first: nat)
    ensures Entries(NewHandlers(ids, reg, first)) == Numbered(Handlers(ids), reg)
  {
  }

  lemma EntriesSplit(a: seq<Handler>, b: seq<Handler>)
    ensures Entries(a + b) == Entries(a) + Entries(b)
  {
  }

  /** A list of done or fail handlers before the settlement, and the one that won after it. */
  ghost predicate Due(ahead: seq<Entry>, calls: seq<Call>, handlers: seq<Handler>, d: Data) {
    && |calls| <= |handlers|
    && calls == CallAll(handlers[..|calls|], d)
    && Users(ahead) == Entries(handlers[|calls|..])
  }

  ghost predicate OutcomeDue(l: CList, calls: seq<Call>, handlers: seq<Handler>, k: nat, settled: Option<(nat, Data)>) {
    match settled
    case None => l.list.Some? && calls == [] && Users(l.list.value) == Entries(handlers)
    case Some(settling) =>
      if settling.0 != k then calls == []
      else
        && l.list.Some? && (l.firing ==> 0 <= Cursor(l) <= |l.list.value|)
        && Due(Ahead(l), calls, handlers, settling.1)
  }

  lemma DueGrows(ahead: seq<Entry>, calls: seq<Call>, handlers: seq<Handler>, d: Data, more: seq<Handler>)
    requires Due(ahead, calls, handlers, d)
    ensures Due(ahead + Entries(more), calls, handlers + more, d)
  {
    hide Users, Entries, CallAll;
    UsersSplit(ahead, Entries(more));
    UsersOnly(more);
    EntriesSplit(handlers[|calls|..], more);
    assert (handlers + more)[|calls|..] == handlers[|calls|..] + more;
    assert (handlers + more)[..|calls|] == handlers[..|calls|];
  }

  lemma DueMoves(ahead: seq<Entry>, calls: seq<Call>, handlers: seq<Handler>, d: Data)
    requires Due(ahead, calls, handlers, d) && ahead != []
    ensures if ahead[0].callback.User?
            then Due(ahead[1..], calls + [Call(ahead[0].callback.id, ahead[0].reg, d)], handlers, d)
            else Due(ahead[1..], calls, handlers, d)
  {
    var first := ahead[0];
    UsersSplit([first], ahead[1..]);
    assert [first] + ahead[1..] == ahead;
    assert [first][..0] == [];
    assert Users([first]) == if first.callback.User? then [first] else [];
    if first.callback.User? {
      var n := |calls|;
      assert Entries(handlers[n..])[0] == first;
      assert Users(ahead[1..]) == Users(ahead)[1..];
      assert handlers[..n + 1] == handlers[..n] + [handlers[n]];
      assert Entries(handlers[n + 1..]) == Entries(handlers[n..])[1..];
    }
  }

  /** Registered handlers come last, in a list that is being fired or was served before. */
  lemma AddedAhead(l: CList, callbacks: seq<Callback>, next: nat)
    requires l.list.Some? && (if l.firing then 0 <= Cursor(l) <= |l.list.value| else l.current.None?)
    requires !l.firing && l.memory.Some? ==> l.list.value == []
    ensures var l' := Added(l, callbacks, next);
            && l'.list.Some? && (l'.firing ==> 0 <= Cursor(l') <= |l'.list.value|)
            && Ahead(l') == Ahead(l) + Numbered(callbacks, next)
  {
    hide Numbered;
  }

  lemma OutcomeRegister(l: CList, calls: seq<Call>, handlers: seq<Handler>, k: nat, settled: Option<(nat, Data)>,
                        ids: seq<nat>, next: nat, first: nat)
    requires OutcomeDue(l, calls, handlers, k, settled) && Sane(l, next) && l.list.Some?
    requires settled.None? ==> !l.fired && !l.firing
    requires settled.Some? && settled.value.0 == k && !l.firing ==> l.list.value == []
    ensures OutcomeDue(Added(l, Handlers(ids), next), calls, handlers + NewHandlers(ids, next, first), k, settled)
  {
    hide Numbered, Handlers, NewHandlers, Ordered, Users, Entries;
    NewEntries(ids, next, first);
    var more := NewHandlers(ids, next, first);
    if settled.None? {
      UsersSplit(l.list.value, Entries(more));
      UsersOnly(more);
      EntriesSplit(handlers, more);
    } else if settled.value.0 == k {
      AddedAhead(l, Handlers(ids), next);
      DueGrows(Ahead(l), calls, handlers, settled.value.1, more);
    }
  }

  /** The first resolve or reject. */
  lemma OutcomeSettles(l: CList, calls: seq<Call>, handlers: seq<Handler>, k: nat, d: Data)
    requires OutcomeDue(l, calls, handlers, k, None) && !l.firing && !l.fired && l.firingStart == 0
    ensures OutcomeDue(Fired(l, d), calls, handlers, k, Some((k, d)))
  {
    var l' := Fired(l, d);
    assert l' == Begin(l, d);
    assert Ahead(l') == l.list.value;
    assert handlers[0..] == handlers;
  }

  /** The pass of the list that won takes its next entry. */
  lemma OutcomeCalls(l: CList, calls: seq<Call>, handlers: seq<Handler>, k: nat, d: Data, next: nat)
    requires OutcomeDue(l, calls, handlers, k, Some((k, d))) && Sane(l, next) && l.data == d
    requires l.firing && l.current.None? && CallsNext(l)
    ensures var e := l.list.value[l.firingIndex];
            var more := if e.callback.User? then calls + [Call(e.callback.id, e.reg, l.data)] else calls;
            OutcomeDue(Ticked(l), more, handlers, k, Some((k, d)))
  {
    hide Users, Entries, Due, Ordered;
    AheadMoves(l, next);
    DueMoves(Ahead(l), calls, handlers, d);
  }

  lemma OutcomeEnds(l: CList, calls: seq<Call>, handlers: seq<Handler>, k: nat, d: Data, next: nat)
    requires OutcomeDue(l, calls, handlers, k, Some((k, d))) && Sane(l, next) && l.once && l.memory.Some?
    requires l.firing && l.current.None? && !CallsNext(l)
    ensures OutcomeDue(Ended(l), calls, handlers, k, Some((k, d)))
  {
    hide Users, Entries, Due, Ordered;
    assert Ahead(l) == [] && Ahead(Ended(l)) == [];
  }

  // ---- the progress list

  /** Up to which handler the round under way has come. */
  ghost function Reach(l: CList, handlers: seq<Handler>): int {
    if l.firing && l.list.Some? then |handlers| - |l.list.value| + Cursor(l) else |handlers|
  }

  /** The calls so far: all rounds before the latest one, and the latest one as far as it has come. */
  ghost predicate Told(l: CList, calls: seq<Call>, handlers: seq<Handler>, values: seq<Data>, begun: int) {
    && 0 <= begun <= |values| && 0 <= Reach(l, handlers) <= |handlers|
    && calls == if begun == 0 then []
                else Rounds(values, handlers, begun - 1)
                     + Round(handlers[..Reach(l, handlers)], begun - 1, values[begun - 1])
  }

  /** What the list remembers of the values: the latest one, and while it is open those that wait. */
  ghost predicate Remembers(l: CList, values: seq<Data>, begun: int, open: bool) {
    && 0 <= begun <= |values| && (l.fired <==> begun > 0)
    && (if open then l.list.Some? && l.stack == Some(values[begun..]) && (l.firing || begun == |values|)
        else begun == |values|)
    && (begun > 0 ==> l.list.Some? && l.memory == Some(values[begun - 1]) && (l.firing ==> l.data == values[begun - 1]))
  }

  /** The list holds the handlers registered last: all of them while it is open. */
  ghost predicate Holds(l: CList, handlers: seq<Handler>, begun: int, open: bool) {
    && (l.list.Some? ==>
          |l.list.value| <= |handlers| && l.list.value == Entries(handlers[|handlers| - |l.list.value|..]))
    && (open ==> l.list.Some? && |l.list.value| == |handlers|)
    && forall i :: 0 <= i < |handlers| ==> handlers[i].first < (if begun == 0 then 1 else begun)
  }

  ghost predicate ProgressDue(l: CList, calls: seq<Call>, handlers: seq<Handler>, values: seq<Data>, begun: int,
                              open: bool) {
    Told(l, calls, handlers, values, begun) && Remembers(l, values, begun, open) && Holds(l, handlers, begun, open)
  }

  lemma {:induction false} RoundOfLater(handlers: seq<Handler>, more: seq<Handler>, index: nat, d: Data)
    requires forall i :: 0 <= i < |more| ==> index < more[i].first
    ensures Round(handlers + more, index, d) == Round(handlers, index, d)
    decreases |more|
  {
    if more == [] {
      assert handlers + more == handlers;
    } else {
      var init := more[..|more| - 1];
      assert (handlers + more)[..|handlers + more| - 1] == handlers + init;
      RoundOfLater(handlers, init, index, d);
    }
  }

  /** Handlers that are owed nothing before the value at index n leave the rounds up to there as they were. */
  lemma {:induction false} RoundsOfLater(values: seq<Data>, handlers: seq<Handler>, more: seq<Handler>, n: nat)
    requires n <= |values| && forall i :: 0 <= i < |more| ==> n <= more[i].first
    ensures Rounds(values, handlers + more, n) == Rounds(values, handlers, n)
    decreases n
  {
    if n > 0 {
      RoundsOfLater(values, handlers, more, n - 1);
      RoundOfLater(handlers, more, n - 1, values[n - 1]);
    }
  }

  lemma {:induction false} RoundsOfPrefix(values: seq<Data>, more: seq<Data>, handlers: seq<Handler>, n: nat)
    requires n <= |values|
    ensures Rounds(values + more, handlers, n) == Rounds(values, handlers, n)
    decreases n
  {
    if n > 0 { RoundsOfPrefix(values, more, handlers, n - 1); }
  }

  lemma RegisterHolds(l: CList, handlers: seq<Handler>, begun: nat, open: bool, ids: seq<nat>, next: nat)
    requires Holds(l, handlers, begun, open) && l.list.Some?
    ensures Holds(Added(l, Handlers(ids), next), handlers + NewHandlers(ids, next, if begun > 0 then begun - 1 else 0),
                  begun, open)
  {
    var more := NewHandlers(ids, next, if begun > 0 then begun - 1 else 0);
    NewEntries(ids, next, if begun > 0 then begun - 1 else 0);
    var off := |handlers| - |l.list.value|;
    EntriesSplit(handlers[off..], more);
    assert (handlers + more)[off..] == handlers[off..] + more;
    assert |more| == |ids|;
    hide Numbered, Handlers, Entries;
    forall i | 0 <= i < |handlers + more| ensures (handlers + more)[i].first < (if begun == 0 then 1 else begun) {
      assert (handlers + more)[i] == if i < |handlers| then handlers[i] else more[i - |handlers|];
    }
  }

  lemma RegisterTold(l: CList, calls: seq<Call>, handlers: seq<Handler>, values: seq<Data>, begun: nat, ids: seq<nat>,
                     next: nat)
    requires Told(l, calls, handlers, values, begun) && Sane(l, next) && l.list.Some?
    requires |l.list.value| <= |handlers| && (l.fired <==> begun > 0)
    ensures Told(Added(l, Handlers(ids), next), calls,
                 handlers + NewHandlers(ids, next, if begun > 0 then begun - 1 else 0), values, begun)
  {
    var more := NewHandlers(ids, next, if begun > 0 then begun - 1 else 0);
    ReachAdded(l, handlers, more, Handlers(ids), next);
    assert forall i :: 0 <= i < |more| ==> more[i].first == if begun > 0 then begun - 1 else 0;
    hide Numbered, Handlers, NewHandlers, Ordered, Round, Rounds, Added, Reach, Sane;
    if begun > 0 {
      RoundsOfLater(values, handlers, more, begun - 1);
      assert (handlers + more)[..Reach(l, handlers)] == handlers[..Reach(l, handlers)];
    }
  }

  lemma ReachAdded(l: CList, handlers: seq<Handler>, more: seq<Handler>, callbacks: seq<Callback>, next: nat)
    requires Sane(l, next) && l.list.Some? && |l.list.value| <= |handlers| && |more| == |callbacks|
    ensures var reach := Reach(Added(l, callbacks, next), handlers + more);
            if l.fired then reach == Reach(l, handlers) else reach == |handlers + more|
    ensures 0 <= Reach(l, handlers) <= |handlers|
  {
    assert |Numbered(callbacks, next)| == |more|;
    hide Numbered, Ordered;
  }

  /** A handler joins the pass under way, has one of its own with the last value, or waits for the first. */
  lemma ProgressRegister(l: CList, calls: seq<Call>, handlers: seq<Handler>, values: seq<Data>, begun: nat, open: bool,
                         ids: seq<nat>, next: nat)
    requires ProgressDue(l, calls, handlers, values, begun, open) && Sane(l, next) && l.list.Some?
    ensures ProgressDue(Added(l, Handlers(ids), next), calls,
                        handlers + NewHandlers(ids, next, if begun > 0 then begun - 1 else 0), values, begun, open)
  {
    RegisterHolds(l, handlers, begun, open, ids, next);
    RegisterTold(l, calls, handlers, values, begun, ids, next);
    hide Told, Holds, Numbered, Handlers, NewHandlers, Ordered;
  }

  /** A notify waits for the end of the pass under way, or begins one. */
  lemma ProgressNotify(l: CList, calls: seq<Call>, handlers: seq<Handler>, values: seq<Data>, begun: nat, d: Data,
                       next: nat)
    requires ProgressDue(l, calls, handlers, values, begun, true) && Sane(l, next)
    ensures ProgressDue(Fired(l, d), calls, handlers, values + [d], if l.firing then begun else begun + 1, true)
  {
    hide Ordered, Round, Rounds, Entries;
    if begun > 0 {
      RoundsOfPrefix(values, [d], handlers, begun - 1);
      RoundsOfPrefix(values, [d], handlers, begun);
    }
    assert handlers[..|handlers|] == handlers;
    if l.firing {
      assert (values + [d])[begun..] == values[begun..] + [d];
    } else {
      assert values[begun..] == [] && (values + [d])[begun + 1..] == [];
      RoundsUnroll(values, handlers, begun);
      RoundsUnroll(values + [d], handlers, begun);
    }
  }

  lemma RoundsUnroll(values: seq<Data>, handlers: seq<Handler>, n: nat)
    requires n <= |values|
    ensures Rounds(values, handlers, 0) == []
    ensures n > 0 ==>
              Rounds(values, handlers, n) == Rounds(values, handlers, n - 1) + Round(handlers, n - 1, values[n - 1])
    ensures forall d :: Round(handlers[..0], n, d) == []
  {
  }

  /** The settlement drops the values that still wait. */
  lemma ProgressSettles(l: CList, calls: seq<Call>, handlers: seq<Handler>, values: seq<Data>, begun: nat)
    requires ProgressDue(l, calls, handlers, values, begun, true)
    ensures ProgressDue(l, calls, handlers, values[..begun], begun, false)
  {
    hide Round, Entries;
    if begun > 0 {
      assert values[..begun] + values[begun..] == values;
      RoundsOfPrefix(values[..begun], values[begun..], handlers, begun - 1);
    }
  }

  lemma ProgressLocks(l: CList, calls: seq<Call>, handlers: seq<Handler>, values: seq<Data>, begun: nat, next: nat)
    requires ProgressDue(l, calls, handlers, values, begun, false) && Sane(l, next)
    ensures ProgressDue(Locked(l), calls, handlers, values, begun, false)
  {
    hide Round, Rounds, Entries, Ordered;
  }

  lemma ProgressCalls(l: CList, calls: seq<Call>, handlers: seq<Handler>, values: seq<Data>, begun: nat, open: bool,
                      next: nat)
    requires ProgressDue(l, calls, handlers, values, begun, open) && Sane(l, next)
    requires l.firing && l.current.None? && CallsNext(l)
    ensures var e := l.list.value[l.firingIndex];
            && e.callback.User?
            && ProgressDue(Ticked(l), calls + [Call(e.callback.id, e.reg, l.data)], handlers, values, begun, open)
  {
    hide Rounds, Ordered;
    var r := Reach(l, handlers);
    assert handlers[..r + 1][..r] == handlers[..r];
    assert Entries(handlers[|handlers| - |l.list.value|..])[l.firingIndex]
        == Entry(User(handlers[r].id), handlers[r].reg);
  }

  lemma ProgressEnds(l: CList, calls: seq<Call>, handlers: seq<Handler>, values: seq<Data>, begun: nat, open: bool,
                     next: nat)
    requires ProgressDue(l, calls, handlers, values, begun, open) && Sane(l, next)
    requires l.firing && l.current.None? && !CallsNext(l) && (open || l.stack.None?)
    ensures ProgressDue(Ended(l), calls, handlers, values,
                        if open && begun < |values| then begun + 1 else begun, open)
  {
    hide Round, Rounds, Entries, Ordered;
    assert handlers[..|handlers|] == handlers;
    RoundsUnroll(values, handlers, begun);
    EntriesOfNone();
    var l' := Ended(l);
    assert Reach(l, handlers) == |handlers| && begun > 0;
    if open && begun < |values| {
      assert l.stack.value[0] == values[begun] && l.stack.value[1..] == values[begun + 1..];
      assert Told(l', calls, handlers, values, begun + 1);
    } else {
      assert open ==> l.stack.value == [];
      assert handlers[|handlers|..] == [];
      assert Told(l', calls, handlers, values, begun);
    }
  }

  lemma EntriesOfNone()
    ensures Entries([]) == []
  {
  }

  lemma ProgressReturns(l: CList, calls: seq<Call>, handlers: seq<Handler>, values: seq<Data>, begun: nat, open: bool,
                        next: nat)
    requires ProgressDue(l, calls, handlers, values, begun, open) && l.firing && l.current.Some?
    ensures ProgressDue(Returned(l), calls, handlers, values, begun, open)
  {
    hide Round, Rounds, Entries;
    assert Reach(Returned(l), handlers) == Reach(l, handlers);
  }

  // ---- the whole

  /** The deferred has done, and remembers, what the script has asked for. */
  ghost predicate Follows(s: Deferred, a: Asked) {
    && Shaped(s) && |a.handlers| == 3
    && s.settled == a.settled && s.next == 6 + Size(a)
    && OutcomeDue(s.lists[0], s.calls[0], a.handlers[0], 0, a.settled)
    && OutcomeDue(s.lists[1], s.calls[1], a.handlers[1], 1, a.settled)
    && ProgressDue(s.lists[2], s.calls[2], a.handlers[2], a.notified, Begun(s, a), a.settled.None?)
  }

  lemma TurnIsUserTurn(s: Deferred)
    requires Shaped(s)
    ensures UserRuns(s) <==> UserTurn(s)
  {
  }

  lemma ThreeLists(s: Deferred)
    requires Shaped(s)
    ensures |s.lists| == |s.calls| == |s.registered| == 3
  {
  }

  lemma SaneLists(s: Deferred)
    requires D.Inv(s)
    ensures Shaped(s) && Sane(s.lists[0], s.next) && Sane(s.lists[1], s.next) && Sane(s.lists[2], s.next)
    ensures s.lists[0].once && s.lists[1].once
  {
  }

  lemma UntouchedLists(s: Deferred)
    requires D.Inv(s) && s.settled.None?
    ensures forall k :: 0 <= k < 2 ==> !s.lists[k].fired && !s.lists[k].firing && s.lists[k].list.Some?
  {
    hide Sane, Headed, Served;
  }

  lemma ProgressFacts(l: CList, calls: seq<Call>, handlers: seq<Handler>, values: seq<Data>, begun: int, open: bool)
    requires ProgressDue(l, calls, handlers, values, begun, open)
    ensures 0 <= begun <= |values| && (l.fired <==> begun > 0) && (begun > 0 || open ==> l.list.Some?)
    ensures if open then l.stack == Some(values[begun..]) && (l.firing || begun == |values|) else begun == |values|
  {
    hide Told, Holds;
  }

  lemma MuteFacts(l: CList)
    requires Mute(l)
    ensures l.stack.None? && (l.fired || l.list.None?)
  {
  }

  lemma WinnerFacts(l: CList, calls: seq<Call>, registered: set<nat>, next: nat, d: Data)
    requires Winner(l, calls, registered, next, d)
    ensures l.list.Some? && (l.firing || l.list.value == []) && (l.firing ==> l.data == d) && l.memory.Some?
  {
  }

  /** When the user's code runs, the lists that take handlers are those whose handlers count. */
  lemma CountsIsListed(s: Deferred, a: Asked, k: nat)
    requires Shaped(s) && |a.handlers| == 3 && Follows(s, a) && D.Inv(s) && UserTurn(s) && k < 3
    ensures Counts(a, k) <==> s.lists[k].list.Some?
    ensures k < 2 && a.settled.Some? && a.settled.value.0 == k && !s.lists[k].firing ==>
              s.lists[k].list.Some? && s.lists[k].list.value == []
  {
    hide D.Inv, Winner, Mute, UserTurn, Stage, Sane, OutcomeDue, ProgressDue, Follows, Shaped;
    ThreeLists(s);
    ProgressOf(s, a);
    ProgressFacts(s.lists[2], s.calls[2], a.handlers[2], a.notified, Begun(s, a), a.settled.None?);
    if s.settled.None? {
      UntouchedLists(s);
    } else {
      UserTurnIsPastTheHead(s);
      var w := s.settled.value.0;
      MuteFacts(s.lists[2]);
      WinnerFacts(s.lists[w], s.calls[w], s.registered[w], s.next, s.settled.value.1);
    }
  }

  /** A step that touches one list, and what the script has asked of it, follows if that list does. */
  lemma FollowsAfter(s: Deferred, s': Deferred, a: Asked, a': Asked, k: nat)
    requires Shaped(s) && Shaped(s') && Follows(s, a) && |a'.handlers| == 3 && k < 3
    requires s'.settled == a'.settled == a.settled && s'.next == 6 + Size(a')
    requires forall j :: 0 <= j < 3 && j != k ==>
               s'.lists[j] == s.lists[j] && s'.calls[j] == s.calls[j] && a'.handlers[j] == a.handlers[j]
    requires if k < 2 then
               a'.notified == a.notified && OutcomeDue(s'.lists[k], s'.calls[k], a'.handlers[k], k, a'.settled)
             else ProgressDue(s'.lists[2], s'.calls[2], a'.handlers[2], a'.notified, Begun(s', a'), a'.settled.None?)
    ensures Follows(s', a')
  {
    hide OutcomeDue, ProgressDue, Size;
  }

  lemma AddedKeepsStack(l: CList, callbacks: seq<Callback>, next: nat)
    ensures Added(l, callbacks, next).stack == l.stack
  {
  }

  lemma NewHandlersLength(ids: seq<nat>, reg: nat)
    ensures forall first :: |NewHandlers(ids, reg, first)| == |ids|
  {
  }

  lemma RegisterOutcome(s: Deferred, a: Asked, k: nat, ids: seq<nat>)
    requires Shaped(s) && |a.handlers| == 3 && Follows(s, a) && D.Inv(s)
    requires k < 2 && UserTurn(s) && s.lists[k].list.Some?
    ensures OutcomeDue(Added(s.lists[k], Handlers(ids), s.next), s.calls[k],
                       a.handlers[k] + NewHandlers(ids, s.next, 0), k, a.settled)
  {
    hide *;
    ThreeLists(s);
    CountsIsListed(s, a, k);
    OutcomeOf(s, a, k);
    if k == 0 {
      OutcomeRegister(s.lists[0], s.calls[0], a.handlers[0], 0, a.settled, ids, s.next, 0);
    } else {
      OutcomeRegister(s.lists[1], s.calls[1], a.handlers[1], 1, a.settled, ids, s.next, 0);
    }
  }

  lemma OutcomeOf(s: Deferred, a: Asked, k: nat)
    requires Shaped(s) && |a.handlers| == 3 && Follows(s, a) && D.Inv(s) && k < 2
    ensures |a.handlers| == 3 && OutcomeDue(s.lists[k], s.calls[k], a.handlers[k], k, a.settled)
    ensures s.settled == a.settled && Sane(s.lists[k], s.next) && s.lists[k].once
    ensures a.settled.None? ==> !s.lists[k].fired && !s.lists[k].firing && s.lists[k].list.Some?
  {
    hide D.Inv, Sane, OutcomeDue, ProgressDue, Size, Begun;
    SaneLists(s);
    if s.settled.None? { UntouchedLists(s); }
  }

  lemma ProgressOf(s: Deferred, a: Asked)
    requires Shaped(s) && |a.handlers| == 3 && Follows(s, a) && D.Inv(s)
    ensures |a.handlers| == 3 && s.settled == a.settled && s.next == 6 + Size(a) && Sane(s.lists[2], s.next)
    ensures ProgressDue(s.lists[2], s.calls[2], a.handlers[2], a.notified, Begun(s, a), a.settled.None?)
    ensures 0 <= Begun(s, a) <= |a.notified|
  {
    hide D.Inv, Sane, OutcomeDue, ProgressDue, Size, Begun;
    SaneLists(s);
    ProgressFacts(s.lists[2], s.calls[2], a.handlers[2], a.notified, Begun(s, a), a.settled.None?);
  }

  lemma RegisterProgress(s: Deferred, a: Asked, ids: seq<nat>)
    requires Shaped(s) && |a.handlers| == 3 && Follows(s, a) && D.Inv(s) && s.lists[2].list.Some?
    ensures ProgressDue(Added(s.lists[2], Handlers(ids), s.next), s.calls[2],
                        a.handlers[2] + NewHandlers(ids, s.next, if Begun(s, a) > 0 then Begun(s, a) - 1 else 0),
                        a.notified, Begun(s, a), a.settled.None?)
    ensures Added(s.lists[2], Handlers(ids), s.next).stack == s.lists[2].stack
  {
    hide *;
    ThreeLists(s);
    ProgressOf(s, a);
    AddedKeepsStack(s.lists[2], Handlers(ids), s.next);
    ProgressRegister(s.lists[2], s.calls[2], a.handlers[2], a.notified, Begun(s, a), a.settled.None?, ids, s.next);
  }

  lemma RegisterIs(s: Deferred, k: nat, ids: seq<nat>)
    requires Shaped(s) && k < 3
    ensures var s' := RegisterStep(s, k, ids);
            if s.lists[k].list.None? then s' == s
            else s'.lists == s.lists[k := Added(s.lists[k], Handlers(ids), s.next)] && s'.calls == s.calls
                 && s'.settled == s.settled && s'.next == s.next + |ids| && Shaped(s')
  {
    hide Added, Handlers, Numbered;
  }

  lemma RegisterFollows(s: Deferred, a: Asked, k: nat, ids: seq<nat>)
    requires Shaped(s) && |a.handlers| == 3 && Follows(s, a) && D.Inv(s) && k < 3 && UserTurn(s)
    ensures Follows(RegisterStep(s, k, ids), Ask(s, a, Register(k, ids)))
  {
    hide *;
    ThreeLists(s);
    TurnIsUserTurn(s);
    CountsIsListed(s, a, k);
    ProgressOf(s, a);
    RegisterIs(s, k, ids);
    AskRegister(s, a, k, ids);
    if s.lists[k].list.Some? {
      if k == 2 {
        RegisterProgress(s, a, ids);
        BegunAlike(s, RegisterStep(s, k, ids), a, Ask(s, a, Register(k, ids)));
      } else {
        RegisterOutcome(s, a, k, ids);
      }
      FollowsAfter(s, RegisterStep(s, k, ids), a, Ask(s, a, Register(k, ids)), k);
    }
  }

  lemma AskRegister(s: Deferred, a: Asked, k: nat, ids: seq<nat>)
    requires Shaped(s) && |a.handlers| == 3 && k < 3 && UserRuns(s)
    ensures var first := if k == 2 && Begun(s, a) > 0 then Begun(s, a) - 1 else 0;
            var a' := Ask(s, a, Register(k, ids));
            if !Counts(a, k) then a' == a
            else a' == a.(handlers := a.handlers[k := a.handlers[k] + NewHandlers(ids, 6 + Size(a), first)])
                 && Size(a') == Size(a) + |ids|
  {
    NewHandlersLength(ids, 6 + Size(a));
    hide UserRuns, Counts, NewHandlers, Begun;
  }

  lemma BegunAlike(s: Deferred, s': Deferred, a: Asked, a': Asked)
    requires Shaped(s) && Shaped(s') && s'.lists[2].stack == s.lists[2].stack
    requires a'.notified == a.notified && a'.settled == a.settled
    ensures Begun(s', a') == Begun(s, a)
  {
  }

  lemma FireIs(s: Deferred, k: nat, d: Data)
    requires Shaped(s) && k < 3
    ensures var s' := FireStep(s, k, d);
            && s'.lists == s.lists[k := Fired(s.lists[k], d)] && s'.calls == s.calls && s'.next == s.next && Shaped(s')
            && (k == 2 ==> s'.settled == s.settled)
  {
    hide Fired;
  }

  lemma NotifyFollows(s: Deferred, a: Asked, d: Data)
    requires Shaped(s) && |a.handlers| == 3 && Follows(s, a) && D.Inv(s) && UserTurn(s) && s.settled.None?
    ensures Follows(FireStep(s, 2, d), a.(notified := a.notified + [d]))
  {
    hide *;
    ThreeLists(s);
    var l := s.lists[2];
    ProgressOf(s, a);
    ProgressFacts(l, s.calls[2], a.handlers[2], a.notified, Begun(s, a), true);
    FireIs(s, 2, d);
    FiredStack(l, d);
    ProgressNotify(l, s.calls[2], a.handlers[2], a.notified, Begun(s, a), d, s.next);
    var s', a' := FireStep(s, 2, d), a.(notified := a.notified + [d]);
    SizeAlike(a, a');
    BegunNotified(s, s', a, d);
    FollowsAfter(s, s', a, a', 2);
  }

  lemma BegunNotified(s: Deferred, s': Deferred, a: Asked, d: Data)
    requires Shaped(s) && Shaped(s') && a.settled.None? && s.lists[2].stack.Some?
    requires s'.lists[2].stack == if s.lists[2].firing then Some(s.lists[2].stack.value + [d]) else s.lists[2].stack
    ensures Begun(s', a.(notified := a.notified + [d])) == if s.lists[2].firing then Begun(s, a) else Begun(s, a) + 1
  {
  }

  lemma FiredStack(l: CList, d: Data)
    requires l.list.Some? && l.stack.Some?
    ensures Fired(l, d).stack == if l.firing then Some(l.stack.value + [d]) else l.stack
  {
  }

  lemma SettlingIs(s: Deferred, k: nat, d: Data)
    requires Shaped(s) && D.Inv(s) && k < 2 && UserTurn(s) && s.settled.None?
    ensures FireStep(s, k, d).settled == Some((k, d)) && s.lists[k].firingStart == 0
  {
    hide Decided, UserTurn;
    FirstFire(s, k, d);
  }

  lemma AskSettling(s: Deferred, a: Asked, k: nat, d: Data)
    requires Shaped(s) && |a.handlers| == 3 && k < 2 && UserRuns(s) && a.settled.None?
    requires 0 <= Begun(s, a) <= |a.notified|
    ensures Ask(s, a, Operation.Fire(k, d)) == a.(settled := Some((k, d)), notified := a.notified[..Begun(s, a)])
  {
    hide UserRuns, Begun;
  }

  lemma SettlingFollows(s: Deferred, a: Asked, k: nat, d: Data)
    requires Shaped(s) && |a.handlers| == 3 && Follows(s, a) && D.Inv(s)
    requires k < 2 && UserTurn(s) && UserRuns(s) && s.settled.None?
    ensures |a.handlers| == 3 && Follows(FireStep(s, k, d), Ask(s, a, Operation.Fire(k, d)))
  {
    hide *;
    ThreeLists(s);
    SettlingIs(s, k, d);
    FireIs(s, k, d);
    ProgressOf(s, a);
    OutcomeOf(s, a, k);
    OutcomeOf(s, a, 1 - k);
    AskSettling(s, a, k, d);
    ProgressSettles(s.lists[2], s.calls[2], a.handlers[2], a.notified, Begun(s, a));
    OutcomeSettles(s.lists[k], s.calls[k], a.handlers[k], k, d);
    OtherOutcome(s.lists[1 - k], s.calls[1 - k], a.handlers[1 - k], 1 - k, k, d);
    var a' := Ask(s, a, Operation.Fire(k, d));
    SizeAlike(a, a');
    SettledFollows(FireStep(s, k, d), a', k);
  }

  lemma SizeAlike(a: Asked, a': Asked)
    requires |a.handlers| == 3 && a'.handlers == a.handlers
    ensures Size(a') == Size(a)
  {
  }

  lemma SettledFollows(s: Deferred, a: Asked, k: nat)
    requires Shaped(s) && |a.handlers| == 3 && s.settled == a.settled && s.next == 6 + Size(a)
    requires k < 2 && a.settled.Some?
    requires OutcomeDue(s.lists[k], s.calls[k], a.handlers[k], k, a.settled)
    requires OutcomeDue(s.lists[1 - k], s.calls[1 - k], a.handlers[1 - k], 1 - k, a.settled)
    requires ProgressDue(s.lists[2], s.calls[2], a.handlers[2], a.notified, |a.notified|, false)
    ensures Follows(s, a)
  {
    hide OutcomeDue, ProgressDue, Size;
  }

  lemma OtherOutcome(l: CList, calls: seq<Call>, handlers: seq<Handler>, k: nat, w: nat, d: Data)
    requires OutcomeDue(l, calls, handlers, k, None) && k != w
    ensures OutcomeDue(l, calls, handlers, k, Some((w, d)))
  {
  }

  lemma FireFollows(s: Deferred, a: Asked, k: nat, d: Data)
    requires Shaped(s) && |a.handlers| == 3 && Follows(s, a) && D.Inv(s) && k < 3 && UserTurn(s)
    ensures Follows(FireStep(s, k, d), Ask(s, a, Operation.Fire(k, d)))
  {
    hide D.Inv, Follows, UserTurn, UserRuns, FireStep, Begun;
    TurnIsUserTurn(s);
    SettledAlike(s, a);
    if s.settled.Some? {
      LaterFire(s, k, d);
    } else if k == 2 {
      NotifyFollows(s, a, d);
    } else {
      SettlingFollows(s, a, k, d);
    }
  }

  lemma SettledAlike(s: Deferred, a: Asked)
    requires Shaped(s) && Follows(s, a)
    ensures |a.handlers| == 3 && s.settled == a.settled
  {
  }

  // ---- the firing loop

  lemma ProgressTickIs(s: Deferred)
    requires Shaped(s) && s.running != [] && Top(s) == 2
    requires CallsNext(s.lists[2]) ==> s.lists[2].list.value[s.lists[2].firingIndex].callback.User?
    ensures var s', l := D.TickStep(s), s.lists[2];
            && Shaped(s') && s'.lists == s.lists[2 := Ticked(l)] && s'.settled == s.settled && s'.next == s.next
            && s'.calls == if CallsNext(l) then
                             var e := l.list.value[l.firingIndex];
                             s.calls[2 := s.calls[2] + [Call(e.callback.id, e.reg, l.data)]]
                           else s.calls
  {
  }

  /** By the time a progress pass takes a turn, a settled deferred has locked its list. */
  lemma SettledIsLocked(s: Deferred)
    requires Shaped(s) && D.Inv(s) && s.running != [] && Top(s) == 2 && s.settled.Some?
    ensures s.lists[2].stack.None?
  {
    hide Sane, RunningInv, Served, Untouched, Headed, AllUsers, Stage;
    NotOnTop(s, s.settled.value.0);
  }

  lemma TopIsFiring(s: Deferred)
    requires Shaped(s) && D.Inv(s) && s.running != []
    ensures s.lists[Top(s)].firing && (Top(s) < 2 ==> s.settled.Some? && s.settled.value.0 == Top(s))
  {
    hide D.Inv;
    TopIsSettled(s);
  }

  lemma TickedStack(l: CList)
    requires l.list.Some?
    ensures Ticked(l).stack == if !CallsNext(l) && l.stack.Some? && l.stack.value != [] then Some(l.stack.value[1..])
                               else l.stack
  {
  }

  lemma TickedEnds(l: CList)
    ensures !CallsNext(l) ==> Ticked(l) == Ended(l)
  {
  }

  /** One turn of the progress list. */
  lemma ProgressTickFollows(s: Deferred, a: Asked)
    requires Shaped(s) && s.running != [] && Top(s) == 2 && s.lists[2].current.None?
    requires D.Inv(s) && Follows(s, a)
    ensures Follows(D.TickStep(s), a)
  {
    hide *;
    ThreeLists(s);
    var l := s.lists[2];
    TopIsFiring(s);
    SettledAlike(s, a);
    ProgressOf(s, a);
    if s.settled.Some? { SettledIsLocked(s); }
    ProgressFacts(l, s.calls[2], a.handlers[2], a.notified, Begun(s, a), a.settled.None?);
    FiringHasList(l, s.next);
    if CallsNext(l) {
      NextIsListed(l);
      ProgressCalls(l, s.calls[2], a.handlers[2], a.notified, Begun(s, a), a.settled.None?, s.next);
    } else {
      ProgressEnds(l, s.calls[2], a.handlers[2], a.notified, Begun(s, a), a.settled.None?, s.next);
    }
    ProgressTickIs(s);
    ThreeLists(D.TickStep(s));
    TickedStack(l);
    TickedEnds(l);
    BegunTicked(s, D.TickStep(s), a);
    FollowsAfter(s, D.TickStep(s), a, a, 2);
  }

  lemma NextIsListed(l: CList)
    requires CallsNext(l)
    ensures l.list.Some? && 0 <= l.firingIndex < |l.list.value|
  {
  }

  lemma BegunTicked(s: Deferred, s': Deferred, a: Asked)
    requires Shaped(s) && Shaped(s')
    requires var l := s.lists[2];
             s'.lists[2].stack == if !CallsNext(l) && l.stack.Some? && l.stack.value != [] then Some(l.stack.value[1..])
                                  else l.stack
    requires a.settled.None? ==> s.lists[2].stack.Some?
    ensures Begun(s', a) == if a.settled.None? && !CallsNext(s.lists[2]) && Begun(s, a) < |a.notified|
                            then Begun(s, a) + 1 else Begun(s, a)
  {
  }

  lemma WinnerTickIs(s: Deferred)
    requires Shaped(s) && s.running != [] && Top(s) < 2
    ensures var s', w := D.TickStep(s), Top(s);
            var l := s.lists[w];
            && Shaped(s') && s'.settled == s.settled && s'.next == s.next
            && s'.lists[w] == Ticked(l)
            && (s'.lists[2] == s.lists[2] || s'.lists[2] == Locked(s.lists[2]))
            && s'.calls == if CallsNext(l) && l.list.value[l.firingIndex].callback.User? then
                             var e := l.list.value[l.firingIndex];
                             s.calls[w := s.calls[w] + [Call(e.callback.id, e.reg, l.data)]]
                           else s.calls
  {
    hide Locked, Disabled, Ended;
  }

  lemma WinnerListFacts(s: Deferred)
    requires Shaped(s) && D.Inv(s) && s.settled.Some?
    ensures var w := s.settled.value.0;
            w < 2 && s.lists[w].list.Some? && s.lists[w].memory.Some?
            && (s.lists[w].firing ==> s.lists[w].data == s.settled.value.1)
  {
    hide Sane, RunningInv, Served, Untouched, Headed, AllUsers, Stage, Achieved;
  }

  lemma OtherStays(l: CList, l': CList, calls: seq<Call>, handlers: seq<Handler>, k: nat, w: nat, d: Data)
    requires OutcomeDue(l, calls, handlers, k, Some((w, d))) && k != w
    ensures OutcomeDue(l', calls, handlers, k, Some((w, d)))
  {
  }

  /** One turn of the list that won. */
  lemma WinnerTickFollows(s: Deferred, a: Asked)
    requires Shaped(s) && s.running != [] && Top(s) < 2 && s.lists[Top(s)].current.None?
    requires D.Inv(s) && Follows(s, a)
    ensures Follows(D.TickStep(s), a)
  {
    hide *;
    ThreeLists(s);
    TopIsFiring(s);
    var w := Top(s);
    var l, d := s.lists[w], s.settled.value.1;
    WinnerListFacts(s);
    SettledAlike(s, a);
    ProgressOf(s, a);
    OutcomeOf(s, a, w);
    OutcomeOf(s, a, 1 - w);
    if CallsNext(l) {
      NextIsListed(l);
      OutcomeCalls(l, s.calls[w], a.handlers[w], w, d, s.next);
    } else {
      TickedEnds(l);
      OutcomeEnds(l, s.calls[w], a.handlers[w], w, d, s.next);
    }
    WinnerTickIs(s);
    var s' := D.TickStep(s);
    ThreeLists(s');
    OtherStays(s.lists[1 - w], s'.lists[1 - w], s.calls[1 - w], a.handlers[1 - w], 1 - w, w, d);
    BegunSettled(s, a);
    ProgressLocks(s.lists[2], s.calls[2], a.handlers[2], a.notified, |a.notified|, s.next);
    SettledFollows(s', a, w);
  }

  lemma BegunSettled(s: Deferred, a: Asked)
    requires Shaped(s) && a.settled.Some?
    ensures Begun(s, a) == |a.notified|
  {
  }

  lemma ReturnedAhead(l: CList, calls: seq<Call>, handlers: seq<Handler>, k: nat, settled: Option<(nat, Data)>)
    requires OutcomeDue(l, calls, handlers, k, settled) && l.firing && l.current.Some?
    ensures OutcomeDue(Returned(l), calls, handlers, k, settled)
  {
    hide Due, Users, Entries;
    if settled.Some? && settled.value.0 == k { assert Ahead(Returned(l)) == Ahead(l); }
  }

  lemma ReturnFollows(s: Deferred, a: Asked)
    requires Shaped(s) && s.running != [] && s.lists[Top(s)].current.Some?
    requires D.Inv(s) && Follows(s, a)
    ensures Shaped(s)
            && Follows(s.(lists := s.lists[Top(s) := Returned(s.lists[Top(s)])]), a)
  {
    hide *;
    ThreeLists(s);
    TopIsList(s);
    TopIsFiring(s);
    var k := Top(s);
    var l := s.lists[k];
    var s' := s.(lists := s.lists[k := Returned(l)]);
    ReturnedStack(l);
    SettledAlike(s, a);
    ProgressOf(s, a);
    ReturnIsShaped(s, s');
    if k == 2 {
      ProgressReturns(l, s.calls[2], a.handlers[2], a.notified, Begun(s, a), a.settled.None?, s.next);
      BegunAlike(s, s', a, a);
    } else {
      OutcomeOf(s, a, k);
      ReturnedAhead(l, s.calls[k], a.handlers[k], k, a.settled);
    }
    FollowsAfter(s, s', a, a, k);
  }

  lemma ReturnIsShaped(s: Deferred, s': Deferred)
    requires Shaped(s) && |s'.lists| == 3 && s'.running == s.running && s'.calls == s.calls
    requires s'.registered == s.registered
    ensures Shaped(s')
  {
  }

  lemma ReturnedStack(l: CList)
    ensures Returned(l).stack == l.stack
  {
  }

  // ---- what holds in every run

  lemma TopIsList(s: Deferred)
    requires Shaped(s) && s.running != []
    ensures Top(s) < 3
  {
  }

  lemma StepFollows(s: Deferred, a: Asked, op: Operation)
    requires Shaped(s) && |a.handlers| == 3 && Follows(s, a) && D.Inv(s)
    ensures Follows(D.Step(s, op), Ask(s, a, op))
  {
    hide D.Inv, Follows, UserTurn, UserRuns, RegisterStep, FireStep, D.TickStep, Begun;
    hide NewHandlers, Counts, Size, Top, Shaped;
    ThreeLists(s);
    SettledAlike(s, a);
    StepKeepsShape(s, op);
    TurnIsUserTurn(s);
    match op
    case Register(k, ids) => if k < 3 && UserTurn(s) { RegisterFollows(s, a, k, ids); }
    case Fire(k, d) => if k < 3 && UserTurn(s) { FireFollows(s, a, k, d); }
    case Tick =>
      if s.running != [] {
        TopIsList(s);
        if s.lists[Top(s)].current.None? {
          if Top(s) == 2 { ProgressTickFollows(s, a); } else { WinnerTickFollows(s, a); }
        }
      }
    case Return =>
      if s.running != [] {
        TopIsList(s);
        if s.lists[Top(s)].current.Some? { ReturnFollows(s, a); }
      }
  }

  lemma InitiallyFollows()
    ensures Follows(D.Initially(), AskedBy([]))
  {
    var s, a := D.Initially(), AskedBy([]);
    assert [] + Numbered(HEAD, 0) == Numbered(HEAD, 0) && [] + Numbered(HEAD, 3) == Numbered(HEAD, 3);
    NoUsers(Numbered(HEAD, 0));
    NoUsers(Numbered(HEAD, 3));
    EntriesOfNone();
    assert s.lists[0].list.value == Numbered(HEAD, 0) && s.lists[1].list.value == Numbered(HEAD, 3);
  }

  lemma {:induction false} NoUsers(list: seq<Entry>)
    requires forall i :: 0 <= i < |list| ==> !list[i].callback.User?
    ensures Users(list) == []
    decreases |list|
  {
    if list != [] { NoUsers(list[..|list| - 1]); }
  }

  lemma {:induction false} Followed(script: seq<Operation>)
    ensures Follows(D.Run(script), AskedBy(script))
    decreases |script|
  {
    hide D.Step, D.Inv, Follows, Ask;
    if script == [] {
      InitiallyFollows();
    } else {
      var n := |script| - 1;
      Followed(script[..n]);
      D.Reached(script[..n]);
      StepFollows(D.Run(script[..n]), AskedBy(script[..n]), script[n]);
    }
  }

  /** When nothing is being fired, the state is that of the call that settled, every handler of that
      kind has been called once with its value, in the order of registration, whenever it was
      registered, and no handler of the other kind ever. */
  lemma OutcomeDeliveries(script: seq<Operation>)
    ensures var s, a := D.Run(script), AskedBy(script);
            s.running == [] ==>
              if a.settled.None? then s.outcome == Pending && s.calls[0] == [] && s.calls[1] == []
              else
                var (w, d) := a.settled.value;
                w < 2 && s.outcome == Settled(w) && s.calls[w] == CallAll(a.handlers[w], d) && s.calls[1 - w] == []
  {
    hide D.Run, AskedBy;
    Followed(script);
    D.Reached(script);
    var s, a := D.Run(script), AskedBy(script);
    if s.running == [] { QuietOutcome(s, a); }
  }

  lemma QuietOutcome(s: Deferred, a: Asked)
    requires Shaped(s) && s.running == [] && |a.handlers| == 3 && D.Inv(s) && Follows(s, a)
    ensures if a.settled.None? then s.outcome == Pending && s.calls[0] == [] && s.calls[1] == []
            else
              var (w, d) := a.settled.value;
              w < 2 && s.outcome == Settled(w) && s.calls[w] == CallAll(a.handlers[w], d) && s.calls[1 - w] == []
  {
    hide Sane, Untouched, Headed, Served, Stage, ProgressDue, Winner, Off, Mute, Due;
    if s.settled.Some? {
      UserTurnIsPastTheHead(s);
      WinnerListFacts(s);
      var (w, d) := a.settled.value;
      assert !s.lists[w].firing;
      WinnerFacts(s.lists[w], s.calls[w], s.registered[w], s.next, d);
      NothingAhead(s.calls[w], a.handlers[w], d);
    }
  }

  lemma NothingAhead(calls: seq<Call>, handlers: seq<Handler>, d: Data)
    ensures Due([], calls, handlers, d) ==> calls == CallAll(handlers, d)
  {
    if Due([], calls, handlers, d) {
      assert |Entries(handlers[|calls|..])| == 0;
      assert handlers[..|calls|] == handlers;
    }
  }

  lemma {:induction false} RoundGrows(handlers: seq<Handler>, n: nat, index: nat, d: Data)
    requires n <= |handlers|
    ensures Round(handlers[..n], index, d) <= Round(handlers, index, d)
    decreases |handlers|
  {
    if n < |handlers| {
      assert handlers[..|handlers| - 1][..n] == handlers[..n];
      RoundGrows(handlers[..|handlers| - 1], n, index, d);
    } else {
      assert handlers[..n] == handlers;
    }
  }

  lemma {:induction false} RoundsGrow(values: seq<Data>, handlers: seq<Handler>, n: nat, m: nat)
    requires n <= m <= |values|
    ensures Rounds(values, handlers, n) <= Rounds(values, handlers, m)
    decreases m
  {
    if n < m { RoundsGrow(values, handlers, n, m - 1); }
  }

  /** The progress handlers are called round by round: each value notified while the deferred was
      pending, in the order of the calls, goes once to every handler that is owed it, in the order of
      registration. At any time the calls are a beginning of that, and when nothing is being fired
      all of it; a settlement drops the values that have not had their turn, and nothing else. */
  lemma ProgressDeliveries(script: seq<Operation>)
    ensures var s, a := D.Run(script), AskedBy(script);
            && s.calls[2] <= Rounds(a.notified, a.handlers[2], |a.notified|)
            && (s.running == [] ==> s.calls[2] == Rounds(a.notified, a.handlers[2], |a.notified|))
  {
    hide D.Run, AskedBy;
    Followed(script);
    D.Reached(script);
    var s, a := D.Run(script), AskedBy(script);
    QuietProgress(s, a);
    var n := Begun(s, a);
    ToldIsPrefix(s.lists[2], s.calls[2], a.handlers[2], a.notified, n);
    RoundsGrow(a.notified, a.handlers[2], n, |a.notified|);
  }

  lemma QuietProgress(s: Deferred, a: Asked)
    requires Shaped(s) && |a.handlers| == 3 && D.Inv(s) && Follows(s, a)
    ensures Told(s.lists[2], s.calls[2], a.handlers[2], a.notified, Begun(s, a)) && 0 <= Begun(s, a) <= |a.notified|
    ensures s.running == [] ==> !s.lists[2].firing && Begun(s, a) == |a.notified|
  {
    hide Sane, Untouched, Headed, Served, Stage, Winner, Off, Mute, OutcomeDue, Told, Holds;
  }

  lemma ToldIsPrefix(l: CList, calls: seq<Call>, handlers: seq<Handler>, values: seq<Data>, n: nat)
    requires Told(l, calls, handlers, values, n) && n <= |values|
    ensures calls <= Rounds(values, handlers, n)
    ensures !l.firing ==> calls == Rounds(values, handlers, n)
  {
    hide Round, Rounds, Reach;
    ReachOfIdle(l, handlers);
    if n > 0 {
      var part := Round(handlers[..Reach(l, handlers)], n - 1, values[n - 1]);
      RoundGrows(handlers, Reach(l, handlers), n - 1, values[n - 1]);
      RoundsUnroll(values, handlers, n);
      PrefixBehind(Rounds(values, handlers, n - 1), part, Round(handlers, n - 1, values[n - 1]));
      assert handlers[..|handlers|] == handlers;
    } else {
      RoundsUnroll(values, handlers, 0);
    }
  }

  lemma PrefixBehind(front: seq<Call>, a: seq<Call>, b: seq<Call>)
    requires a <= b
    ensures front + a <= front + b
  {
  }

  lemma ReachOfIdle(l: CList, handlers: seq<Handler>)
    ensures !l.firing ==> Reach(l, handlers) == |handlers|
  {
  }

  // ---- every pass ends unless the user's code goes on

  /** What a pass has left to do. */
  ghost function Left(l: CList): int {
    if l.list.None? then 0 else 2 * (|l.list.value| - l.firingIndex) - if l.current.Some? then 1 else 0
  }

  ghost function Queued(l: CList): nat {
    if l.stack.Some? then |l.stack.value| + 1 else 0
  }

  ghost function LeftOnTop(s: Deferred): int
    requires Shaped(s)
  {
    if s.running == [] then 0 else Left(s.lists[s.running[|s.running| - 1]])
  }

  lemma SaneLeft(l: CList, next: nat)
    requires Sane(l, next) && l.firing
    ensures Left(l) >= 0
    ensures l.current.Some? ==> Left(Returned(l)) == Left(l) - 1
    ensures l.current.None? && CallsNext(l) ==> Left(Ticked(l)) == Left(l) - 1
    ensures l.current.None? && !CallsNext(l) && Ended(l).firing ==> !l.once && Queued(Ended(l)) == Queued(l) - 1
  {
    hide Ordered;
  }

  ghost predicate Nearer(s': Deferred, s: Deferred)
    requires Shaped(s) && Shaped(s')
  {
    || |s'.running| < |s.running|
    || (|s'.running| == |s.running| && Queued(s'.lists[2]) < Queued(s.lists[2]))
    || (|s'.running| == |s.running| && Queued(s'.lists[2]) == Queued(s.lists[2]) && LeftOnTop(s') < LeftOnTop(s))
  }

  lemma TurnAdvances(s: Deferred, op: Operation)
    requires Shaped(s) && s.running != [] && D.Inv(s)
    requires op == if s.lists[Top(s)].current.None? then Operation.Tick else Operation.Return
    ensures LeftOnTop(s) >= 0
    ensures Shaped(D.Step(s, op)) && Nearer(D.Step(s, op), s)
  {
    hide D.Inv, Left, Sane, Ended, Ticked, Returned, CallsNext, Queued, Disabled, Locked;
    StepKeepsShape(s, op);
    TopIsList(s);
    TopIsFiring(s);
    SaneLists(s);
    var l := s.lists[Top(s)];
    SaneLeft(l, s.next);
    TickedEnds(l);
    FiringHasList(l, s.next);
    TickedQueue(l);
    LockedQueue(s.lists[2]);
    if CallsNext(l) {
      NextIsListed(l);
      if Top(s) == 2 { ProgressIsForUsers(s); }
    }
  }

  lemma ProgressIsForUsers(s: Deferred)
    requires Shaped(s) && D.Inv(s) && CallsNext(s.lists[2])
    ensures s.lists[2].list.value[s.lists[2].firingIndex].callback.User?
  {
    hide Sane, Untouched, Served, Stage, Winner;
  }

  lemma TickedQueue(l: CList)
    ensures CallsNext(l) ==> Queued(Ticked(l)) == Queued(l)
    ensures Queued(Returned(l)) == Queued(l)
  {
  }

  lemma LockedQueue(l: CList)
    ensures Queued(Locked(l)) <= Queued(l)
  {
  }

  /** From every state a run can reach, the passes come to their end when no further calls are made. */
  lemma {:induction false} QuietFrom(script: seq<Operation>) returns (longer: seq<Operation>)
    ensures script <= longer
    ensures forall k :: |script| <= k < |longer| ==> longer[k].Tick? || longer[k].Return?
    ensures D.Run(longer).running == []
    decreases |D.Run(script).running|, Queued(D.Run(script).lists[2]), LeftOnTop(D.Run(script))
  {
    var s := D.Run(script);
    longer := script;
    if s.running != [] {
      hide Left, UserRuns;
      D.Reached(script);
      var op := if s.lists[Top(s)].current.None? then Operation.Tick else Operation.Return;
      TurnAdvances(s, op);
      assert (script + [op])[..|script|] == script;
      hide D.Step, D.Inv, LeftOnTop, Queued, Shaped;
      longer := QuietFrom(script + [op]);
    }
  }

  lemma {:induction false} AskedIsKept(script: seq<Operation>, longer: seq<Operation>)
    requires script <= longer && forall k :: |script| <= k < |longer| ==> longer[k].Tick? || longer[k].Return?
    ensures AskedBy(longer) == AskedBy(script)
    decreases |longer|
  {
    hide D.Run;
    if |script| < |longer| { AskedIsKept(script, longer[..|longer| - 1]); } else { assert script == longer; }
  }

  lemma OneRegistered(id: nat)
    ensures D.Run([Register(2, [id])]).running == []
    ensures AskedBy([Register(2, [id])]) == Asked([[], [], [Handler(id, 6, 0)]], [], None)
  {
    var op: Operation := Register(2, [id]);
    assert [op][..0] == [];
    var s := D.Initially();
    var a := AskedBy([]);
    assert D.Run([]) == s && UserRuns(s);
    AskRegister(s, a, 2, [id]);
    assert Begun(s, a) == 0 && NewHandlers([id], 6, 0) == [Handler(id, 6, 0)];
    assert [] + [Handler(id, 6, 0)] == [Handler(id, 6, 0)];
    TurnIsUserTurn(s);
    assert D.Run([op]) == RegisterStep(s, 2, [id]);
  }

  lemma AskNotify(s: Deferred, a: Asked, d: Data)
    requires Shaped(s) && |a.handlers| == 3 && UserRuns(s) && a.settled.None?
    ensures Ask(s, a, Operation.Fire(2, d)) == a.(notified := a.notified + [d])
  {
    hide UserRuns;
  }

  lemma OneNotified(id: nat, d: Data)
    ensures AskedBy([Register(2, [id]), Operation.Fire(2, d)]) == Asked([[], [], [Handler(id, 6, 0)]], [d], None)
  {
    var first: seq<Operation> := [Register(2, [id])];
    var both := [Register(2, [id]), Operation.Fire(2, d)];
    OneRegistered(id);
    assert both[..1] == first;
    hide D.Run;
    AskNotify(D.Run(first), AskedBy(first), d);
    assert AskedBy(both) == Ask(D.Run(first), AskedBy(first), both[1]) by { hide Ask; }
  }

  lemma RoundOfOne(h: Handler, d: Data)
    requires h.first == 0
    ensures Rounds([d], [h], 1) == [Call(h.id, h.reg, d)]
  {
    assert [h][..0] == [];
    assert Rounds([d], [h], 0) == [];
    assert Round([h], 0, d) == [Call(h.id, h.reg, d)];
  }

  /** A progress handler, a notify: when all passes are over the handler has been called with the value. */
  lemma FirstNotifyIsHeard(id: nat, d: Data) returns (script: seq<Operation>)
    ensures |script| >= 2 && script[..2] == [Register(2, [id]), Operation.Fire(2, d)]
    ensures D.Run(script).running == [] && D.Run(script).calls[2] == [Call(id, 6, d)]
  {
    hide *;
    OneNotified(id, d);
    script := QuietFrom([Register(2, [id]), Operation.Fire(2, d)]);
    AskedIsKept([Register(2, [id]), Operation.Fire(2, d)], script);
    ProgressDeliveries(script);
    RoundOfOne(Handler(id, 6, 0), d);
    ThreeLists(D.Run(script));
  }
}
