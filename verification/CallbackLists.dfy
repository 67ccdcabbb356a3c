/**
 jQuery.Callbacks: a list of callbacks that may be added to and removed from while it is
 being fired. The firing loop is cut at its two seams, the loop test (Tick) and the return
 of a callback (Return); whatever a callback does in between is a sequence of calls on the list.
 */
module CallbackLists {
  import opened Options

  /** A user's function, or one of the three that a Deferred puts at the head of its lists. */
  datatype Callback = User(id: nat) | Settle | DisableOther | LockProgress

  /** Registrations are numbered in the order of the pushes; the code never looks at the number. */
  datatype Entry = Entry(callback: Callback, reg: nat)

  type Data = int

  /** The variables of one Callbacks closure; `stack` is None when it is false or undefined. */
  datatype CList = CList(
    once: bool,
    remembers: bool,
    list: Option<seq<Entry>>,
    stack: Option<seq<Data>>,
    memory: Option<Data>,
    firing: bool,
    fired: bool,
    firingIndex: int,
    firingLength: int,
    firingStart: nat,
    current: Option<Entry>,   // the callback that is running
    data: Data)               // what it was called with

  function Create(once: bool, remembers: bool): CList {
    CList(once, remembers, Some([]), if once then None else Some([]), None, false, false, 0, 0, 0, None, 0)
  }

  function Numbered(callbacks: seq<Callback>, reg: nat): seq<Entry> {
    seq(|callbacks|, i requires 0 <= i < |callbacks| => Entry(callbacks[i], reg + i))
  }

  function Begin(l: CList, d: Data): CList
    requires l.list.Some?
  {
    l.(memory := if l.remembers then Some(d) else None, fired := true,
       firingIndex := l.firingStart, firingStart := 0, firingLength := |l.list.value|,
       firing := true, current := None, data := d)
  }

  function Added(l: CList, callbacks: seq<Callback>, reg: nat): CList {
    match l.list
    case None => l
    case Some(list) =>
      var longer := l.(list := Some(list + Numbered(callbacks, reg)));
      if l.firing then longer.(firingLength := |longer.list.value|)
      else if l.memory.Some? then Begin(longer.(firingStart := |list|), l.memory.value)
      else longer
  }

  function Keep(list: seq<Entry>, callback: Callback): seq<Entry> {
    if list == [] then []
    else
      var kept := Keep(list[..|list| - 1], callback);
      if list[|list| - 1].callback == callback then kept else kept + [list[|list| - 1]]
  }

  /** All registrations of the callback go; during a pass both indices follow. */
  function Removed(l: CList, callback: Callback): (r: CList)
    requires l.firing && l.list.Some? ==> -1 <= l.firingIndex < |l.list.value|
    ensures r.firing == l.firing && r.list.Some? == l.list.Some?
    ensures r.firing && r.list.Some? ==> -1 <= r.firingIndex < |r.list.value|
  {
    match l.list
    case None => l
    case Some(list) =>
      KeepOfPrefix(list, l.firingIndex + 1, callback);
      var kept := Keep(list, callback);
      if !l.firing then l.(list := Some(kept))
      else l.(list := Some(kept),
              firingLength := l.firingLength - (|list| - |kept|),
              firingIndex := |Keep(list[..l.firingIndex + 1], callback)| - 1)
  }

  function Fired(l: CList, d: Data): CList {
    if l.list.None? || (l.fired && l.stack.None?) then l
    else if l.firing && l.stack.Some? then l.(stack := Some(l.stack.value + [d]))
    else Begin(l, d)
  }

  function Disabled(l: CList): CList {
    l.(list := None, stack := None, memory := None)
  }

  function Locked(l: CList): CList {
    var unstacked := l.(stack := None);
    if l.memory.None? then Disabled(unstacked) else unstacked
  }

  function Ended(l: CList): CList {
    var idle := l.(firing := false);
    match l.list
    case None => idle
    case Some(_) =>
      match l.stack
      case Some(waiting) => if waiting != [] then Begin(idle.(stack := Some(waiting[1..])), waiting[0]) else idle
      case None => if l.memory.Some? then idle.(list := Some([])) else Disabled(idle)
  }

  predicate CallsNext(l: CList) {
    l.list.Some? && 0 <= l.firingIndex < l.firingLength && l.firingIndex < |l.list.value|
  }

  function Ticked(l: CList): CList {
    if CallsNext(l) then l.(current := Some(l.list.value[l.firingIndex])) else Ended(l)
  }

  function Returned(l: CList): CList {
    l.(current := None, firingIndex := l.firingIndex + 1)
  }

  lemma {:induction false} KeepSplits(a: seq<Entry>, b: seq<Entry>, callback: Callback)
    ensures Keep(a + b, callback) == Keep(a, callback) + Keep(b, callback)
    decreases |b|
  {
    if b == [] {
      assert a + b == a;
    } else {
      assert (a + b)[..|a + b| - 1] == a + b[..|b| - 1];
      KeepSplits(a, b[..|b| - 1], callback);
    }
  }

  lemma KeepOfPrefix(list: seq<Entry>, n: int, callback: Callback)
    ensures 0 <= n <= |list| ==> |Keep(list[..n], callback)| <= |Keep(list, callback)|
  {
    if 0 <= n <= |list| {
      assert list == list[..n] + list[n..];
      KeepSplits(list[..n], list[n..], callback);
    }
  }

  lemma {:induction false} KeepMembers(list: seq<Entry>, callback: Callback, e: Entry)
    ensures e in Keep(list, callback) <==> e in list && e.callback != callback
    decreases |list|
  {
    if list != [] {
      KeepMembers(list[..|list| - 1], callback, e);
      assert list == list[..|list| - 1] + [list[|list| - 1]];
    }
  }

  /** Registration order along a list: strictly increasing numbers between two bounds. */
  ghost predicate Ordered(list: seq<Entry>, low: nat, high: nat) {
    && (forall i :: 0 <= i < |list| ==> low <= list[i].reg < high)
    && (forall i, j :: 0 <= i < j < |list| ==> list[i].reg < list[j].reg)
  }

  lemma OrderedEnds(list: seq<Entry>, last: Entry, low: nat, high: nat)
    requires Ordered(list, low, high) && low <= last.reg < high && forall e :: e in list ==> e.reg < last.reg
    ensures Ordered(list + [last], low, high)
  {
    assert forall i :: 0 <= i < |list| ==> list[i] in list;
  }

  lemma {:induction false} KeepOrdered(list: seq<Entry>, callback: Callback, low: nat, high: nat)
    requires Ordered(list, low, high)
    ensures Ordered(Keep(list, callback), low, high) && |Keep(list, callback)| <= |list|
    decreases |list|
  {
    if list != [] {
      var init, last := list[..|list| - 1], list[|list| - 1];
      assert Ordered(init, low, high) && low <= last.reg < high;
      assert forall e :: e in init ==> e.reg < last.reg;
      KeepOrdered(init, callback, low, high);
      forall e | e in Keep(init, callback) ensures e.reg < last.reg { KeepMembers(init, callback, e); }
      hide Ordered;
      OrderedEnds(Keep(init, callback), last, low, high);
    }
  }

  // ---- every run of one list

  datatype State = State(
    l: CList,
    next: nat,            // the number of the next registration
    from: nat,            // the pass serves registrations from this number on
    calls: seq<nat>,      // registrations called in the current or latest pass, in order
    passes: nat,
    removed: set<nat>)    // registrations taken off by remove

  datatype Action = Add(callbacks: seq<Callback>) | Remove(callback: Callback) | Fire(d: Data) | Tick | Return

  function Initially(once: bool, remembers: bool): State {
    State(Create(once, remembers), 0, 0, [], 0, {})
  }

  /** Bookkeeping when a step may have begun a pass. */
  function NewPass(s: State, l: CList, from: nat): State {
    s.(l := l, from := from, calls := [], passes := s.passes + 1)
  }

  ghost function Gone(l: CList, callback: Callback): set<nat> {
    if l.list.None? then {} else set e <- l.list.value | e.callback == callback :: e.reg
  }

  /** User code runs outside a pass or inside a callback; a step that is not possible changes nothing. */
  ghost function Step(s: State, a: Action): State {
    var l := s.l;
    var user := !l.firing || l.current.Some?;
    match a
    case Add(callbacks) =>
      if !user || l.list.None? then s
      else
        var l' := Added(l, callbacks, s.next);
        if l.firing || l.memory.None? then s.(l := l', next := s.next + |callbacks|)
        else NewPass(s, l', s.next).(next := s.next + |callbacks|)
    case Remove(callback) =>
      if !user || (l.firing && l.list.Some? && !(-1 <= l.firingIndex < |l.list.value|)) then s
      else s.(l := Removed(l, callback), removed := s.removed + Gone(l, callback))
    case Fire(d) =>
      if !user then s
      else if !l.firing && Fired(l, d).firing then NewPass(s, Fired(l, d), 0)
      else s.(l := Fired(l, d))
    case Tick =>
      if !l.firing || l.current.Some? then s
      else if CallsNext(l) then s.(l := Ticked(l), calls := s.calls + [l.list.value[l.firingIndex].reg])
      else if Ended(l).firing then NewPass(s, Ended(l), 0)
      else s.(l := Ended(l))
    case Return => if !l.firing || l.current.None? then s else s.(l := Returned(l))
  }

  ghost function Run(once: bool, remembers: bool, schedule: seq<Action>): State {
    if schedule == [] then Initially(once, remembers)
    else Step(Run(once, remembers, schedule[..|schedule| - 1]), schedule[|schedule| - 1])
  }

  /** How many entries of the list the pass has dealt with. */
  function Cursor(l: CList): int {
    l.firingIndex + if l.current.Some? then 1 else 0
  }

  ghost predicate Increasing(calls: seq<nat>) {
    forall i, j :: 0 <= i < j < |calls| ==> calls[i] < calls[j]
  }

  /** Half-way through a pass: what lies behind the cursor was called or predates the pass,
      what lies ahead was not called yet and comes after every call made. */
  ghost predicate PassInv(list: seq<Entry>, cursor: nat, from: nat, calls: seq<nat>)
    requires cursor <= |list|
  {
    && Increasing(calls) && (forall c :: c in calls ==> from <= c)
    && (forall i :: 0 <= i < cursor ==> list[i].reg < from || list[i].reg in calls)
    && (forall i :: cursor <= i < |list| ==> from <= list[i].reg && forall c :: c in calls ==> c < list[i].reg)
  }

  /** No registration comes back once it was removed. */
  ghost predicate ListInv(l: CList, next: nat, removed: set<nat>) {
    && (l.list.Some? ==> Ordered(l.list.value, 0, next) && forall e :: e in l.list.value ==> e.reg !in removed)
    && (forall r :: r in removed ==> r < next)
    && l.firingStart == 0 && (l.firing ==> l.fired)
  }

  ghost predicate CallsInv(from: nat, calls: seq<nat>, next: nat) {
    Increasing(calls) && from <= next && forall c :: c in calls ==> c < next
  }

  ghost predicate FiringInv(l: CList, from: nat, calls: seq<nat>) {
    l.firing ==>
      && l.list.Some? && l.firingLength == |l.list.value| && 0 <= Cursor(l) <= |l.list.value|
      && PassInv(l.list.value, Cursor(l), from, calls)
  }

  ghost predicate Inv(s: State) {
    ListInv(s.l, s.next, s.removed) && CallsInv(s.from, s.calls, s.next) && FiringInv(s.l, s.from, s.calls)
  }

  lemma KeepPass(list: seq<Entry>, callback: Callback, cursor: nat, from: nat, calls: seq<nat>)
    requires cursor <= |list| && PassInv(list, cursor, from, calls)
    ensures var kept := Keep(list, callback);
            var moved := |Keep(list[..cursor], callback)|;
            moved <= |kept| && PassInv(kept, moved, from, calls)
  {
    var a, b := list[..cursor], list[cursor..];
    KeepSplits(a, b, callback);
    assert a + b == list;
    var kept, moved := Keep(list, callback), |Keep(a, callback)|;
    forall i | 0 <= i < moved ensures kept[i].reg < from || kept[i].reg in calls {
      assert kept[i] in Keep(a, callback);
      KeepMembers(a, callback, kept[i]);
    }
    forall i | moved <= i < |kept| ensures from <= kept[i].reg && forall c :: c in calls ==> c < kept[i].reg {
      assert kept[i] in Keep(b, callback);
      KeepMembers(b, callback, kept[i]);
    }
  }

  lemma KeepKeepsList(list: seq<Entry>, callback: Callback, next: nat, removed: set<nat>)
    requires Ordered(list, 0, next) && forall e :: e in list ==> e.reg !in removed
    ensures Ordered(Keep(list, callback), 0, next)
    ensures forall e :: e in Keep(list, callback) ==>
              e.reg !in removed && e.reg !in set x <- list | x.callback == callback :: x.reg
  {
    KeepOrdered(list, callback, 0, next);
    forall e | e in Keep(list, callback)
      ensures e.reg !in removed && e.reg !in set x <- list | x.callback == callback :: x.reg
    {
      KeepMembers(list, callback, e);
    }
  }

  lemma RemoveKeepsInv(s: State, callback: Callback)
    requires Inv(s)
    ensures Inv(Step(s, Remove(callback)))
  {
    var l := s.l;
    if l.list.Some? && (!l.firing || l.current.Some?) {
      RemoveKeepsList(l, callback, s.next, s.removed);
      if l.firing { RemoveKeepsPass(l, callback, s.from, s.calls); }
      hide ListInv, FiringInv, CallsInv, Removed, Gone;
    }
  }

  lemma RemoveKeepsList(l: CList, callback: Callback, next: nat, removed: set<nat>)
    requires ListInv(l, next, removed) && l.list.Some? && (l.firing ==> -1 <= l.firingIndex < |l.list.value|)
    ensures ListInv(Removed(l, callback), next, removed + Gone(l, callback))
  {
    KeepKeepsList(l.list.value, callback, next, removed);
    hide Keep;
  }

  lemma RemoveKeepsPass(l: CList, callback: Callback, from: nat, calls: seq<nat>)
    requires FiringInv(l, from, calls) && l.firing && l.current.Some?
    ensures FiringInv(Removed(l, callback), from, calls)
  {
    KeepPass(l.list.value, callback, Cursor(l), from, calls);
    hide Keep, PassInv;
  }

  lemma PushOrdered(list: seq<Entry>, callbacks: seq<Callback>, low: nat, reg: nat)
    requires Ordered(list, low, reg) && low <= reg
    ensures Ordered(list + Numbered(callbacks, reg), low, reg + |callbacks|)
  {
    var longer := list + Numbered(callbacks, reg);
    forall i | 0 <= i < |longer|
      ensures if i < |list| then longer[i] == list[i] else longer[i].reg == reg + (i - |list|)
    {
    }
  }

  lemma PassGrows(list: seq<Entry>, more: seq<Entry>, cursor: nat, from: nat, calls: seq<nat>)
    requires cursor <= |list| && PassInv(list, cursor, from, calls)
    requires forall i :: 0 <= i < |more| ==> from <= more[i].reg && forall c :: c in calls ==> c < more[i].reg
    ensures PassInv(list + more, cursor, from, calls)
  {
    hide Increasing;
    var longer := list + more;
    assert forall i :: 0 <= i < |longer| ==> longer[i] == if i < |list| then list[i] else more[i - |list|];
  }

  lemma NumbersFrom(callbacks: seq<Callback>, reg: nat)
    ensures |Numbered(callbacks, reg)| == |callbacks|
    ensures forall i :: 0 <= i < |callbacks| ==> Numbered(callbacks, reg)[i].reg == reg + i
  {
  }

  /** Registrations pushed at the end lie ahead of any pass, or make up one of their own. */
  lemma PushKeepsPass(s: State, callbacks: seq<Callback>)
    requires Inv(s) && s.l.list.Some?
    ensures var list := s.l.list.value;
            var longer := list + Numbered(callbacks, s.next);
            && Ordered(longer, 0, s.next + |callbacks|)
            && (forall e :: e in longer ==> e.reg !in s.removed)
            && (s.l.firing ==> PassInv(longer, Cursor(s.l), s.from, s.calls))
            && PassInv(longer, |list|, s.next, [])
  {
    var list := s.l.list.value;
    var longer := list + Numbered(callbacks, s.next);
    PushOrdered(list, callbacks, 0, s.next);
    NumbersFrom(callbacks, s.next);
    if s.l.firing { PassGrows(list, Numbered(callbacks, s.next), Cursor(s.l), s.from, s.calls); }
    hide Numbered, Ordered, Increasing;
    forall e | e in longer ensures e.reg !in s.removed {
      var i :| 0 <= i < |longer| && longer[i] == e;
      if i < |list| { assert list[i] in list; } else { assert e == Numbered(callbacks, s.next)[i - |list|]; }
    }
    AfterAll(list, Numbered(callbacks, s.next), s.next);
  }

  lemma AfterAll(list: seq<Entry>, more: seq<Entry>, next: nat)
    requires Ordered(list, 0, next) && forall i :: 0 <= i < |more| ==> next <= more[i].reg
    ensures PassInv(list + more, |list|, next, [])
  {
    var longer := list + more;
    assert forall i :: 0 <= i < |longer| ==> longer[i] == if i < |list| then list[i] else more[i - |list|];
  }

  lemma AddKeepsList(l: CList, callbacks: seq<Callback>, next: nat, removed: set<nat>)
    requires ListInv(l, next, removed) && l.list.Some?
    requires Ordered(l.list.value + Numbered(callbacks, next), 0, next + |callbacks|)
    requires forall e :: e in l.list.value + Numbered(callbacks, next) ==> e.reg !in removed
    ensures ListInv(Added(l, callbacks, next), next + |callbacks|, removed)
  {
    hide Numbered, Ordered;
  }

  /** Pushed during a pass, the registrations lie ahead in it. */
  lemma AddExtendsPass(l: CList, callbacks: seq<Callback>, next: nat, from: nat, calls: seq<nat>)
    requires FiringInv(l, from, calls) && l.firing
    requires PassInv(l.list.value + Numbered(callbacks, next), Cursor(l), from, calls)
    ensures FiringInv(Added(l, callbacks, next), from, calls)
  {
    hide Numbered, PassInv;
  }

  /** Pushed to a list that remembers, they are a pass of their own; else they wait. */
  lemma AddBeginsPass(l: CList, callbacks: seq<Callback>, next: nat)
    requires l.list.Some? && !l.firing && PassInv(l.list.value + Numbered(callbacks, next), |l.list.value|, next, [])
    ensures l.memory.Some? ==> FiringInv(Added(l, callbacks, next), next, [])
    ensures l.memory.None? ==> !Added(l, callbacks, next).firing
  {
    hide Numbered, PassInv;
  }

  lemma AddKeepsInv(s: State, callbacks: seq<Callback>)
    requires Inv(s)
    ensures Inv(Step(s, Add(callbacks)))
  {
    var l := s.l;
    if l.list.Some? && (!l.firing || l.current.Some?) {
      PushKeepsPass(s, callbacks);
      AddKeepsList(l, callbacks, s.next, s.removed);
      EmptyIncreasing();
      hide Numbered, Ordered, PassInv, Increasing, Added, ListInv, Removed, Fired, Ticked, Ended, Returned, Gone;
      if l.firing {
        AddExtendsPass(l, callbacks, s.next, s.from, s.calls);
      } else {
        AddBeginsPass(l, callbacks, s.next);
      }
    }
  }

  lemma EmptyIncreasing()
    ensures Increasing([])
  {
  }

  /** The callback at the cursor is called: it is later than all calls before, and moves behind the cursor. */
  lemma CallKeepsPass(list: seq<Entry>, k: nat, from: nat, calls: seq<nat>, high: nat)
    requires k < |list| && Ordered(list, 0, high) && PassInv(list, k, from, calls)
    requires forall c :: c in calls ==> c < high
    ensures PassInv(list, k + 1, from, calls + [list[k].reg])
    ensures forall c :: c in calls + [list[k].reg] ==> c < high
  {
    var more := calls + [list[k].reg];
    forall i, j | 0 <= i < j < |more| ensures more[i] < more[j] {
      assert calls[i] in calls;
    }
    assert more[|calls|] == list[k].reg;
  }

  lemma TickCalls(s: State)
    requires Inv(s) && s.l.firing && s.l.current.None? && CallsNext(s.l)
    ensures Inv(Step(s, Tick))
  {
    var list, k := s.l.list.value, s.l.firingIndex;
    CallKeepsPass(list, k, s.from, s.calls, s.next);
    assert Increasing(s.calls + [list[k].reg]);
    var s' := Step(s, Tick);
    hide Ordered, PassInv, Increasing;
    assert s'.calls == s.calls + [list[k].reg] && Cursor(s'.l) == k + 1;
    assert ListInv(s'.l, s'.next, s'.removed);
  }

  lemma TickEnds(s: State)
    requires Inv(s) && s.l.firing && s.l.current.None? && !CallsNext(s.l)
    ensures Inv(Step(s, Tick))
  {
    EmptyIncreasing();
    assert Ordered([], 0, s.next);
    assert PassInv(s.l.list.value, 0, 0, []);
    var s' := Step(s, Tick);
    hide Ordered, PassInv, Increasing;
    assert ListInv(s'.l, s'.next, s'.removed);
    assert FiringInv(s'.l, s'.from, s'.calls);
  }

  lemma TickKeepsInv(s: State)
    requires Inv(s)
    ensures Inv(Step(s, Tick))
  {
    if s.l.firing && s.l.current.None? {
      if CallsNext(s.l) { TickCalls(s); } else { TickEnds(s); }
    }
  }

  lemma StepKeepsInv(s: State, a: Action)
    requires Inv(s)
    ensures Inv(Step(s, a))
  {
    match a
    case Add(callbacks) => AddKeepsInv(s, callbacks);
    case Remove(callback) => RemoveKeepsInv(s, callback);
    case Tick => TickKeepsInv(s);
    case _ =>
  }

  lemma {:induction false} Reached(once: bool, remembers: bool, schedule: seq<Action>)
    ensures Inv(Run(once, remembers, schedule))
    decreases |schedule|
  {
    if schedule != [] {
      Reached(once, remembers, schedule[..|schedule| - 1]);
      StepKeepsInv(Run(once, remembers, schedule[..|schedule| - 1]), schedule[|schedule| - 1]);
    }
  }

  /** Throughout a pass its end is the end of the list, and the calls made are in registration
      order without repetition; when it ends, every registration it serves that is still in
      the list was called, those added during the pass included. */
  lemma PassServesEveryRegistration(once: bool, remembers: bool, schedule: seq<Action>)
    ensures var s := Run(once, remembers, schedule);
            && Increasing(s.calls)
            && (s.l.firing ==> s.l.list.Some? && s.l.firingLength == |s.l.list.value|)
            && (s.l.firing && s.l.current.None? && !CallsNext(s.l) ==>
                  forall e :: e in s.l.list.value && s.from <= e.reg ==> e.reg in s.calls)
  {
    Reached(once, remembers, schedule);
    var s := Run(once, remembers, schedule);
    if s.l.firing && s.l.current.None? && !CallsNext(s.l) {
      forall e | e in s.l.list.value && s.from <= e.reg ensures e.reg in s.calls {
        var i :| 0 <= i < |s.l.list.value| && s.l.list.value[i] == e;
      }
    }
  }

  /** The next call goes to a registration in the list that this pass has not called, and
      nothing uncalled stands before it. */
  lemma NextCallIsTheFirstUncalled(once: bool, remembers: bool, schedule: seq<Action>)
    ensures var s := Run(once, remembers, schedule);
            s.l.firing && s.l.current.None? && CallsNext(s.l) ==>
              && Step(s, Tick).calls == s.calls + [s.l.list.value[s.l.firingIndex].reg]
              && s.l.list.value[s.l.firingIndex].reg !in s.calls
              && forall i :: 0 <= i < s.l.firingIndex ==>
                   s.l.list.value[i].reg < s.from || s.l.list.value[i].reg in s.calls
  {
    Reached(once, remembers, schedule);
  }

  /** A registration that was removed is never called again, in this pass or a later one. */
  lemma {:induction false} RemovedStaysSilent(once: bool, remembers: bool, schedule: seq<Action>, k: nat, r: nat)
    requires k <= |schedule| && r in Run(once, remembers, schedule[..k]).removed
    ensures var s := Run(once, remembers, schedule);
            && r in s.removed
            && (s.l.firing && s.l.current.None? && CallsNext(s.l) ==> s.l.list.value[s.l.firingIndex].reg != r)
    decreases |schedule|
  {
    Reached(once, remembers, schedule);
    RemovedIsNotListed(Run(once, remembers, schedule));
    hide Step, Inv;
    if k < |schedule| {
      var before := schedule[..|schedule| - 1];
      assert schedule[..k] == before[..k];
      RemovedStaysSilent(once, remembers, before, k, r);
      RemovedGrows(Run(once, remembers, before), schedule[|schedule| - 1]);
    } else {
      assert schedule[..k] == schedule;
    }
  }

  lemma RemovedGrows(s: State, a: Action)
    ensures s.removed <= Step(s, a).removed
  {
    hide Added, Removed, Fired, Ended, Ticked, Returned;
  }

  lemma RemovedIsNotListed(s: State)
    requires Inv(s)
    ensures s.l.firing && s.l.current.None? && CallsNext(s.l) ==> s.l.list.value[s.l.firingIndex].reg !in s.removed
  {
  }

  /** The fires that count: those by the user's code, and the first one only if the list fires once. */
  ghost function Accepted(once: bool, remembers: bool, schedule: seq<Action>): seq<Data> {
    if schedule == [] then []
    else
      var n := |schedule| - 1;
      var before, l := Accepted(once, remembers, schedule[..n]), Run(once, remembers, schedule[..n]).l;
      if schedule[n].Fire? && (!l.firing || l.current.Some?) && (once ==> before == []) then before + [schedule[n].d]
      else before
  }

  function Waiting(l: CList): seq<Data> {
    if l.stack.Some? then l.stack.value else []
  }

  /** A list and the fires it has accepted: the last |Waiting(l)| of them have not begun. */
  ghost predicate Serves(l: CList, fires: seq<Data>, once: bool, remembers: bool) {
    var begun := |fires| - |Waiting(l)|;
    && begun >= 0 && Waiting(l) == fires[begun..]
    && (l.firing ==> begun > 0 && l.data == fires[begun - 1])
    && (!l.firing ==> Waiting(l) == [])
    && (l.fired <==> begun > 0)
    && (l.list.Some? ==> l.memory == if remembers && begun > 0 then Some(fires[begun - 1]) else None)
    && l.once == once && l.remembers == remembers && (l.stack.None? <==> once)
    && (l.list.None? ==> once && l.fired && !l.firing) && (l.firing ==> l.list.Some?)
  }

  lemma RemovedIs(l: CList, callback: Callback)
    requires l.firing && l.list.Some? ==> -1 <= l.firingIndex < |l.list.value|
    ensures var r := Removed(l, callback);
            && r.stack == l.stack && r.firing == l.firing && r.data == l.data && r.fired == l.fired
            && r.memory == l.memory && r.once == l.once && r.remembers == l.remembers && r.list.Some? == l.list.Some?
  {
  }

  lemma AddedServes(l: CList, callbacks: seq<Callback>, reg: nat, fires: seq<Data>, once: bool, remembers: bool)
    requires Serves(l, fires, once, remembers)
    ensures Serves(Added(l, callbacks, reg), fires, once, remembers)
  {
    hide Numbered;
  }

  lemma RemovedServes(l: CList, callback: Callback, fires: seq<Data>, once: bool, remembers: bool)
    requires Serves(l, fires, once, remembers) && (l.firing && l.list.Some? ==> -1 <= l.firingIndex < |l.list.value|)
    ensures Serves(Removed(l, callback), fires, once, remembers)
  {
    hide Removed;
    RemovedIs(l, callback);
  }

  lemma ReturnedServes(l: CList, fires: seq<Data>, once: bool, remembers: bool)
    requires Serves(l, fires, once, remembers)
    ensures Serves(Returned(l), fires, once, remembers)
  {
  }

  lemma FiredServes(l: CList, d: Data, fires: seq<Data>, once: bool, remembers: bool)
    requires Serves(l, fires, once, remembers)
    ensures Serves(Fired(l, d), if once ==> fires == [] then fires + [d] else fires, once, remembers)
  {
  }

  lemma TickedServes(l: CList, fires: seq<Data>, once: bool, remembers: bool)
    requires Serves(l, fires, once, remembers) && l.firing
    ensures Serves(Ticked(l), fires, once, remembers)
  {
  }

  lemma StepServes(s: State, a: Action, fires: seq<Data>, once: bool, remembers: bool)
    requires Serves(s.l, fires, once, remembers)
    ensures var user := !s.l.firing || s.l.current.Some?;
            Serves(Step(s, a).l,
                   if a.Fire? && user && (once ==> fires == []) then fires + [a.d] else fires, once, remembers)
  {
    hide Serves, Added, Removed, Gone, Fired, Returned;
    var l := s.l;
    match a
    case Add(callbacks) => AddedServes(l, callbacks, s.next, fires, once, remembers);
    case Remove(callback) =>
      if !l.firing || l.list.None? || -1 <= l.firingIndex < |l.list.value| {
        RemovedServes(l, callback, fires, once, remembers);
      }
    case Fire(d) => FiredServes(l, d, fires, once, remembers);
    case Tick =>
      hide Ended, CallsNext;
      if l.firing { TickedServes(l, fires, once, remembers); }
    case Return => ReturnedServes(l, fires, once, remembers);
  }

  /** Accepted fires are served one after the other in the order of the calls, each by a pass with
      its own value; those made while a pass is under way wait, and none waits once the list rests. */
  lemma {:induction false} FiresAreServedInOrder(once: bool, remembers: bool, schedule: seq<Action>)
    ensures Serves(Run(once, remembers, schedule).l, Accepted(once, remembers, schedule), once, remembers)
    decreases |schedule|
  {
    hide Step, Serves;
    if schedule == [] {
      NothingFired(once, remembers);
    } else {
      var n := |schedule| - 1;
      FiresAreServedInOrder(once, remembers, schedule[..n]);
      StepServes(Run(once, remembers, schedule[..n]), schedule[n], Accepted(once, remembers, schedule[..n]),
                 once, remembers);
    }
  }

  lemma NothingFired(once: bool, remembers: bool)
    ensures Serves(Create(once, remembers), [], once, remembers)
  {
  }

  /** The next accepted value begins to be served only when nothing is being fired, or when the pass
      before has called all that it had to call; its own pass then starts with the first entry. */
  lemma NextFireBeginsItsPass(once: bool, remembers: bool, schedule: seq<Action>, a: Action)
    ensures var s, s' := Run(once, remembers, schedule), Run(once, remembers, schedule + [a]);
            var before := |Accepted(once, remembers, schedule)| - |Waiting(s.l)|;
            var after := |Accepted(once, remembers, schedule + [a])| - |Waiting(s'.l)|;
            && before <= after <= before + 1
            && (after == before + 1 ==>
                  && s'.l.firing && s'.calls == [] && s'.from == 0 && Cursor(s'.l) == 0
                  && (s.l.firing ==> s.l.current.None? && !CallsNext(s.l)))
  {
    FiresAreServedInOrder(once, remembers, schedule);
    Reached(once, remembers, schedule);
    assert (schedule + [a])[..|schedule|] == schedule;
    hide Step, Inv, Serves, Waiting;
    StepFires(Run(once, remembers, schedule), a, Accepted(once, remembers, schedule), once, remembers);
  }

  lemma StepFires(s: State, a: Action, fires: seq<Data>, once: bool, remembers: bool)
    requires Serves(s.l, fires, once, remembers) && Inv(s)
    ensures var user, s' := !s.l.firing || s.l.current.Some?, Step(s, a);
            var accepted := if a.Fire? && user && (once ==> fires == []) then fires + [a.d] else fires;
            var before, after := |fires| - |Waiting(s.l)|, |accepted| - |Waiting(s'.l)|;
            && before <= after <= before + 1
            && (after == before + 1 ==>
                  && s'.l.firing && s'.calls == [] && s'.from == 0 && Cursor(s'.l) == 0
                  && (s.l.firing ==> s.l.current.None? && !CallsNext(s.l)))
  {
    hide Removed, Gone, Numbered, Keep, Ordered, Increasing, PassInv;
    match a
    case Remove(callback) =>
      if !s.l.firing || s.l.list.None? || -1 <= s.l.firingIndex < |s.l.list.value| { RemovedIs(s.l, callback); }
    case _ =>
  }

  /** Functions that the user's code adds stand at the end of the list, in their order; on a list that
      remembers, is at rest and was fired they get a pass of their own with the value served last. */
  lemma AddedAreListed(once: bool, remembers: bool, schedule: seq<Action>, callbacks: seq<Callback>)
    ensures var s, s' := Run(once, remembers, schedule), Run(once, remembers, schedule + [Add(callbacks)]);
            var fires := Accepted(once, remembers, schedule);
            s.l.list.Some? && (!s.l.firing || s.l.current.Some?) ==>
              && s'.l.list.Some? && |s'.l.list.value| == |s.l.list.value| + |callbacks|
              && s'.l.list.value[..|s.l.list.value|] == s.l.list.value
              && (forall i :: 0 <= i < |callbacks| ==>
                    s'.l.list.value[|s.l.list.value| + i] == Entry(callbacks[i], s.next + i))
              && (s.l.firing ==> s'.l.firing && s'.calls == s.calls && Cursor(s'.l) == Cursor(s.l))
              && (!s.l.firing ==>
                    if remembers && fires != [] then
                      && s'.l.firing && s'.l.data == fires[|fires| - 1] && s'.calls == []
                      && s'.from == s.next && Cursor(s'.l) == |s.l.list.value|
                    else !s'.l.firing)
  {
    hide Accepted, Serves, Run, Step;
    FiresAreServedInOrder(once, remembers, schedule);
    NextRun(once, remembers, schedule, Add(callbacks));
    var s := Run(once, remembers, schedule);
    if s.l.list.Some? && (!s.l.firing || s.l.current.Some?) {
      StepAdds(s, callbacks, Accepted(once, remembers, schedule), once, remembers);
    }
  }

  lemma NextRun(once: bool, remembers: bool, schedule: seq<Action>, a: Action)
    ensures Run(once, remembers, schedule + [a]) == Step(Run(once, remembers, schedule), a)
  {
    hide Step;
    assert (schedule + [a])[..|schedule|] == schedule;
  }

  lemma StepAdds(s: State, callbacks: seq<Callback>, fires: seq<Data>, once: bool, remembers: bool)
    requires Serves(s.l, fires, once, remembers) && s.l.list.Some? && (!s.l.firing || s.l.current.Some?)
    ensures var s' := Step(s, Add(callbacks));
            && s'.l.list.Some? && s'.l.list.value == s.l.list.value + Numbered(callbacks, s.next)
            && (s.l.firing ==> s'.l.firing && s'.calls == s.calls && Cursor(s'.l) == Cursor(s.l))
            && (!s.l.firing ==>
                  if remembers && fires != [] then
                    && s'.l.firing && s'.l.data == fires[|fires| - 1] && s'.calls == []
                    && s'.from == s.next && Cursor(s'.l) == |s.l.list.value|
                  else !s'.l.firing)
  {
    hide Numbered;
  }

  // ---- the list as the closure updates it

  function AllRemoved(l: CList, callbacks: seq<Callback>): (r: CList)
    requires l.firing && l.list.Some? ==> -1 <= l.firingIndex < |l.list.value|
    ensures r.firing && r.list.Some? ==> -1 <= r.firingIndex < |r.list.value|
    decreases |callbacks|
  {
    if callbacks == [] then l
    else Removed(AllRemoved(l, callbacks[..|callbacks| - 1]), callbacks[|callbacks| - 1])
  }

  /** jQuery.inArray from a given index on. */
  method InArray(callback: Callback, list: seq<Entry>, start: nat) returns (index: int)
    requires start <= |list|
    ensures -1 <= index < |list|
    ensures index == -1 ==> forall i :: start <= i < |list| ==> list[i].callback != callback
    ensures index != -1 ==> start <= index && list[index].callback == callback
                            && forall i :: start <= i < index ==> list[i].callback != callback
  {
    index := start;
    while index < |list|
      invariant start <= index <= |list|
      invariant forall i :: start <= i < index ==> list[i].callback != callback
    {
      if list[index].callback == callback {
        return;
      }
      index := index + 1;
    }
    index := -1;
  }

  lemma {:induction false} KeepUntouched(list: seq<Entry>, callback: Callback)
    requires forall i :: 0 <= i < |list| ==> list[i].callback != callback
    ensures Keep(list, callback) == list
    decreases |list|
  {
    if list != [] { KeepUntouched(list[..|list| - 1], callback); }
  }

  /** Where the removal loop stands: up to `seen` of the original list was filtered, the rest is as it was. */
  ghost predicate HalfRemoved(original: seq<Entry>, origin: int, callback: Callback, seen: nat,
                              list: seq<Entry>, index: nat, firingIndex: int)
    requires seen <= |original|
  {
    && list == Keep(original[..seen], callback) + original[seen..]
    && index == |Keep(original[..seen], callback)|
    && (-1 <= origin < |original| ==>
          firingIndex == if seen <= origin + 1 then index + (origin + 1 - seen) - 1
                         else |Keep(original[..origin + 1], callback)| - 1)
  }

  /** A stretch without the callback passes through the filter. */
  lemma KeepStretch(original: seq<Entry>, callback: Callback, seen: nat, upTo: nat)
    requires seen <= upTo <= |original|
    requires forall i :: seen <= i < upTo ==> original[i].callback != callback
    ensures Keep(original[..upTo], callback) == Keep(original[..seen], callback) + original[seen..upTo]
  {
    KeepUntouched(original[seen..upTo], callback);
    KeepSplits(original[..seen], original[seen..upTo], callback);
    assert original[..upTo] == original[..seen] + original[seen..upTo];
  }

  lemma KeepLast(original: seq<Entry>, callback: Callback, n: nat)
    requires n < |original| && original[n].callback == callback
    ensures Keep(original[..n + 1], callback) == Keep(original[..n], callback)
  {
    assert original[..n + 1][..n] == original[..n];
  }

  /** One turn: the next occurrence is spliced out and the firing index follows if it was reached. */
  lemma RemovalTurn(original: seq<Entry>, origin: int, callback: Callback, seen: nat,
                    list: seq<Entry>, index: nat, firingIndex: int, found: nat)
    requires seen <= |original| && HalfRemoved(original, origin, callback, seen, list, index, firingIndex)
    requires index <= found < |list| && list[found].callback == callback
    requires forall i :: index <= i < found ==> list[i].callback != callback
    ensures var next := seen + (found - index) + 1;
            && next <= |original|
            && HalfRemoved(original, origin, callback, next, list[..found] + list[found + 1..], found,
                           if found <= firingIndex then firingIndex - 1 else firingIndex)
  {
    hide Keep;
    var at := seen + (found - index);
    assert forall i :: seen <= i < |original| ==> original[i] == list[index + (i - seen)];
    KeepStretch(original, callback, seen, at);
    KeepLast(original, callback, at);
    assert list[..found] == Keep(original[..at + 1], callback);
    assert list[found + 1..] == original[at + 1..];
    if -1 <= origin < |original| {
      if origin + 1 < seen {
        KeepOfPrefix(original[..seen], origin + 1, callback);
        assert original[..seen][..origin + 1] == original[..origin + 1];
      } else if origin + 1 <= at {
        KeepStretch(original, callback, seen, origin + 1);
      }
    }
  }

  lemma Finished(original: seq<Entry>, origin: int, callback: Callback, seen: nat,
                 list: seq<Entry>, index: nat, firingIndex: int)
    requires seen <= |original| && HalfRemoved(original, origin, callback, seen, list, index, firingIndex)
    requires index <= |list| && forall i :: index <= i < |list| ==> list[i].callback != callback
    ensures list == Keep(original, callback)
    ensures -1 <= origin < |original| ==> firingIndex == |Keep(original[..origin + 1], callback)| - 1
  {
    hide Keep;
    assert forall i :: seen <= i < |original| ==> original[i] == list[index + (i - seen)];
    KeepStretch(original, callback, seen, |original|);
    assert original[..|original|] == original && original[seen..|original|] == original[seen..];
    if -1 <= origin < |original| && seen <= origin + 1 {
      KeepStretch(original, callback, seen, origin + 1);
    }
  }

  class Callbacks {
    const once: bool
    const remembers: bool
    var list: Option<seq<Entry>>
    var stack: Option<seq<Data>>
    var memory: Option<Data>
    var firing: bool
    var fired: bool
    var firingIndex: int
    var firingLength: int
    var firingStart: nat
    var current: Option<Entry>
    var data: Data

    function View(): CList
      reads this
    {
      CList(once, remembers, list, stack, memory, firing, fired, firingIndex, firingLength, firingStart, current, data)
    }

    constructor (once: bool, remembers: bool)
      ensures View() == Create(once, remembers)
    {
      this.once, this.remembers := once, remembers;
      list, stack, memory := Some([]), if once then None else Some([]), None;
      firing, fired := false, false;
      firingIndex, firingLength, firingStart := 0, 0, 0;
      current, data := None, 0;
    }

    method Fire(d: Data)
      requires list.Some?
      modifies this
      ensures View() == Begin(old(View()), d)
    {
      memory := if remembers then Some(d) else None;
      fired := true;
      firingIndex := firingStart;
      firingStart := 0;
      firingLength := |list.value|;
      firing := true;
      current, data := None, d;
    }

    method Add(callbacks: seq<Callback>, reg: nat)
      modifies this
      ensures View() == Added(old(View()), callbacks, reg)
    {
      if list.Some? {
        var start := |list.value|;
        ghost var before := list.value;
        var i := 0;
        assert before + Numbered(callbacks[..0], reg) == before;
        while i < |callbacks|
          invariant 0 <= i <= |callbacks|
          invariant View() == old(View()).(list := Some(before + Numbered(callbacks[..i], reg)))
        {
          list := Some(list.value + [Entry(callbacks[i], reg + i)]);
          assert before + Numbered(callbacks[..i], reg) + [Entry(callbacks[i], reg + i)]
              == before + Numbered(callbacks[..i + 1], reg);
          i := i + 1;
        }
        assert callbacks[..|callbacks|] == callbacks;
        if firing {
          firingLength := |list.value|;
        } else if memory.Some? {
          firingStart := start;
          Fire(memory.value);
        }
      }
    }

    method Remove(callbacks: seq<Callback>)
      requires firing && list.Some? ==> firingLength == |list.value| && -1 <= firingIndex < |list.value|
      modifies this
      ensures View() == AllRemoved(old(View()), callbacks)
    {
      hide AllRemoved, Removed;
      if list.Some? {
        var i := 0;
        ghost var before := View();
        NothingRemoved(before);
        while i < |callbacks|
          invariant 0 <= i <= |callbacks| && list.Some?
          invariant firing ==> firingLength == |list.value| && -1 <= firingIndex < |list.value|
          invariant View() == AllRemoved(before, callbacks[..i])
        {
          AllRemovedGrows(before, callbacks, i);
          RemoveEach(callbacks[i]);
          i := i + 1;
        }
        assert callbacks[..|callbacks|] == callbacks;
      } else {
        NothingToRemove(View(), callbacks);
      }
    }

    /** One round of the loop in remove. */
    method RemoveEach(callback: Callback)
      requires list.Some? && (firing ==> firingLength == |list.value| && -1 <= firingIndex < |list.value|)
      modifies this
      ensures View() == Removed(old(View()), callback)
      ensures firing ==> firingLength == |list.value|
    {
      hide Keep;
      RemoveOne(callback);
    }

    method RemoveOne(callback: Callback)
      requires list.Some? && (firing ==> firingLength == |list.value| && -1 <= firingIndex < |list.value|)
      modifies `list, `firingLength, `firingIndex
      ensures list == Some(Keep(old(list).value, callback))
      ensures if firing then
                && firingLength == |list.value|
                && firingIndex == |Keep(old(list).value[..old(firingIndex) + 1], callback)| - 1
              else firingLength == old(firingLength) && firingIndex == old(firingIndex)
    {
      ghost var original := list.value;
      ghost var origin, moved := if firing then firingIndex else -2, if firing then firingIndex else -1;
      ghost var seen: nat := 0;
      var index: int := 0;
      assert HalfRemoved(original, origin, callback, 0, original, 0, moved);
      hide *;
      while index != -1
        invariant list.Some? && -1 <= index <= |list.value| && seen <= |original|
        invariant if index == -1 then
                    list.value == Keep(original, callback)
                    && (-1 <= origin < |original| ==> moved == |Keep(original[..origin + 1], callback)| - 1)
                  else HalfRemoved(original, origin, callback, seen, list.value, index, moved)
        invariant if firing then firingLength == |list.value| && firingIndex == moved
                  else firingLength == old(firingLength) && firingIndex == old(firingIndex) && moved == -1
        decreases index != -1, |list.value|
      {
        index, seen, moved := RemoveNext(callback, index, original, origin, seen, moved);
      }
    }

    /** The test and body of the removal loop. */
    method RemoveNext(callback: Callback, start: nat, ghost original: seq<Entry>, ghost origin: int,
                      ghost seen: nat, ghost moved: int)
      returns (index: int, ghost nowSeen: nat, ghost nowMoved: int)
      requires list.Some? && start <= |list.value| && seen <= |original|
      requires HalfRemoved(original, origin, callback, seen, list.value, start, moved)
      requires if firing then firingLength == |list.value| && firingIndex == moved else moved == -1
      modifies `list, `firingLength, `firingIndex
      ensures list.Some? && -1 <= index <= |list.value| && nowSeen <= |original|
      ensures if index == -1 then
                && list.value == Keep(original, callback)
                && (-1 <= origin < |original| ==> nowMoved == |Keep(original[..origin + 1], callback)| - 1)
              else
                && HalfRemoved(original, origin, callback, nowSeen, list.value, index, nowMoved)
                && |list.value| < |old(list).value|
      ensures if firing then firingLength == |list.value| && firingIndex == nowMoved
              else firingLength == old(firingLength) && firingIndex == old(firingIndex) && nowMoved == -1
    {
      hide *;
      index := InArray(callback, list.value, start);
      nowSeen, nowMoved := seen, moved;
      if index == -1 {
        Finished(original, origin, callback, seen, list.value, start, moved);
      } else {
        RemovalTurn(original, origin, callback, seen, list.value, start, moved, index);
        nowSeen := seen + (index - start) + 1;
        nowMoved := if index <= moved then moved - 1 else moved;
        Splice(index);
      }
    }

    /** Take one entry out of the list; the firing indices follow. */
    method Splice(index: nat)
      requires list.Some? && index < |list.value|
      modifies `list, `firingLength, `firingIndex
      ensures list == Some(old(list).value[..index] + old(list).value[index + 1..])
      ensures firingLength == old(firingLength) - (if firing && index <= old(firingLength) then 1 else 0)
      ensures firingIndex == old(firingIndex) - (if firing && index <= old(firingIndex) then 1 else 0)
    {
      list := Some(list.value[..index] + list.value[index + 1..]);
      if firing {
        if index <= firingLength {
          firingLength := firingLength - 1;
        }
        if index <= firingIndex {
          firingIndex := firingIndex - 1;
        }
      }
    }

    method FireWith(d: Data)
      modifies this
      ensures View() == Fired(old(View()), d)
    {
      if list.Some? && (!fired || stack.Some?) {
        if firing && stack.Some? {
          stack := Some(stack.value + [d]);
        } else {
          Fire(d);
        }
      }
    }

    method Disable()
      modifies this
      ensures View() == Disabled(old(View()))
    {
      list, stack, memory := None, None, None;
    }

    method Lock()
      modifies this
      ensures View() == Locked(old(View()))
    {
      stack := None;
      if memory.None? {
        Disable();
      }
    }

    /** The test of the firing loop: the next callback to call, or the end of the pass. */
    method Next() returns (called: Option<Entry>)
      modifies this
      ensures View() == Ticked(old(View()))
      ensures called == if CallsNext(old(View())) then current else None
    {
      called := None;
      if list.Some? && 0 <= firingIndex < firingLength && firingIndex < |list.value| {
        called := Some(list.value[firingIndex]);
        current := called;
      } else {
        firing := false;
        if list.Some? {
          if stack.Some? {
            if |stack.value| > 0 {
              var d := stack.value[0];
              stack := Some(stack.value[1..]);
              Fire(d);
            }
          } else if memory.Some? {
            list := Some([]);
          } else {
            Disable();
          }
        }
      }
    }

    method Return()
      modifies this
      ensures View() == Returned(old(View()))
    {
      current := None;
      firingIndex := firingIndex + 1;
    }
  }

  lemma NothingRemoved(l: CList)
    requires l.firing && l.list.Some? ==> -1 <= l.firingIndex < |l.list.value|
    ensures AllRemoved(l, []) == l
  {
  }

  lemma AllRemovedGrows(l: CList, callbacks: seq<Callback>, i: nat)
    requires l.firing && l.list.Some? ==> -1 <= l.firingIndex < |l.list.value|
    requires i < |callbacks|
    ensures AllRemoved(l, callbacks[..i + 1]) == Removed(AllRemoved(l, callbacks[..i]), callbacks[i])
  {
    assert callbacks[..i + 1][..i] == callbacks[..i];
  }

  lemma {:induction false} NothingToRemove(l: CList, callbacks: seq<Callback>)
    requires l.list.None?
    ensures AllRemoved(l, callbacks) == l
    decreases |callbacks|
  {
    if callbacks != [] { NothingToRemove(l, callbacks[..|callbacks| - 1]); }
  }

  /** One action on the object, if it is possible now. */
  method Perform(callbacks: Callbacks, a: Action, next: nat, ghost s: State) returns (after: nat)
    requires Inv(s) && s.l == callbacks.View() && s.next == next
    modifies callbacks
    ensures callbacks.View() == Step(s, a).l && after == Step(s, a).next
  {
    hide AllRemoved, Added, Fired, Ticked, Inv;
    after := next;
    var user := !callbacks.firing || callbacks.current.Some?;
    CursorInList(s);
    match a
    case Add(added) =>
      if user && callbacks.list.Some? {
        callbacks.Add(added, next);
        after := next + |added|;
      }
    case Remove(callback) =>
      if user {
        callbacks.Remove([callback]);
        AllRemovedGrows(s.l, [callback], 0);
        NothingRemoved(s.l);
        assert [callback][..1] == [callback] && [callback][..0] == [];
      }
    case Fire(d) =>
      if user {
        callbacks.FireWith(d);
      }
    case Tick =>
      if callbacks.firing && callbacks.current.None? {
        var called := callbacks.Next();
        TickStep(s);
      }
    case Return =>
      if callbacks.firing && callbacks.current.Some? {
        callbacks.Return();
      }
  }

  lemma CursorInList(s: State)
    requires Inv(s)
    ensures s.l.firing && s.l.current.Some? && s.l.list.Some? ==>
              s.l.firingLength == |s.l.list.value| && -1 <= s.l.firingIndex < |s.l.list.value|
  {
  }

  lemma TickStep(s: State)
    requires s.l.firing && s.l.current.None?
    ensures Step(s, Tick).l == Ticked(s.l) && Step(s, Tick).next == s.next
  {
  }

  lemma OneMore(once: bool, remembers: bool, schedule: seq<Action>, i: nat)
    requires i < |schedule|
    ensures Run(once, remembers, schedule[..i + 1]) == Step(Run(once, remembers, schedule[..i]), schedule[i])
  {
    hide Step;
    assert schedule[..i + 1][..i] == schedule[..i];
  }

  lemma NothingRun(once: bool, remembers: bool)
    ensures Run(once, remembers, []) == Initially(once, remembers)
  {
  }

  /** The object goes through the states that the run describes. */
  method Replay(once: bool, remembers: bool, schedule: seq<Action>) returns (l: CList)
    ensures l == Run(once, remembers, schedule).l
  {
    hide Step, Inv, Run;
    NothingRun(once, remembers);
    var callbacks := new Callbacks(once, remembers);
    var next := 0;
    var i := 0;
    while i < |schedule|
      invariant 0 <= i <= |schedule| && fresh(callbacks)
      invariant callbacks.View() == Run(once, remembers, schedule[..i]).l
      invariant next == Run(once, remembers, schedule[..i]).next
    {
      Reached(once, remembers, schedule[..i]);
      OneMore(once, remembers, schedule, i);
      next := Perform(callbacks, schedule[i], next, Run(once, remembers, schedule[..i]));
      i := i + 1;
    }
    assert schedule[..i] == schedule;
    l := callbacks.View();
  }
}
