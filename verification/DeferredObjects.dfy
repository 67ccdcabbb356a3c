/** jQuery.Deferred as an object: three callback lists updated in place, and what the script of
    calls makes of them. */
module DeferredObjects {
  import opened CallbackLists
  import opened Options
  import opened Deliveries
  import D = Deferreds

  /** Three callback lists, the state, and the stack of passes under way. */
  class DeferredObject {
    const done: Callbacks
    const fail: Callbacks
    const progress: Callbacks
    var running: seq<nat>
    var state: D.Outcome
    var calls: seq<seq<D.Call>>
    var next: nat
    ghost var transitions: nat
    ghost var settled: Option<(nat, Data)>
    ghost var registered: seq<set<nat>>

    ghost predicate Apart() {
      done != fail && fail != progress && progress != done
    }

    function Lists(): seq<CList>
      reads done, fail, progress
    {
      [done.View(), fail.View(), progress.View()]
    }

    ghost function Value(): D.Deferred
      reads this, done, fail, progress
    {
      D.Deferred(Lists(), running, state, transitions, settled, calls, registered, next)
    }

    constructor ()
      ensures Apart() && fresh(done) && fresh(fail) && fresh(progress) && Value() == D.Initially()
    {
      done := new Callbacks(true, true);
      fail := new Callbacks(true, true);
      progress := new Callbacks(false, true);
      running, state, calls, next := [], D.Pending, [[], [], []], 6;
      transitions, settled, registered := 0, None, [{}, {}, {}];
      new;
      done.Add(D.HEAD, 0);
      fail.Add(D.HEAD, 3);
    }

    // ---- one of the three lists

    method AddTo(k: nat, callbacks: seq<Callback>, reg: nat)
      requires Apart() && k < 3
      modifies done, fail, progress
      ensures Lists() == old(Lists())[k := Added(old(Lists())[k], callbacks, reg)]
    {
      hide Added;
      var list := if k == 0 then done else if k == 1 then fail else progress;
      list.Add(callbacks, reg);
    }

    method FireOn(k: nat, d: Data)
      requires Apart() && k < 3
      modifies done, fail, progress
      ensures Lists() == old(Lists())[k := Fired(old(Lists())[k], d)]
    {
      hide Fired;
      var list := if k == 0 then done else if k == 1 then fail else progress;
      list.FireWith(d);
    }

    method NextOf(k: nat) returns (called: Option<Entry>)
      requires Apart() && k < 3
      modifies done, fail, progress
      ensures Lists() == old(Lists())[k := Ticked(old(Lists())[k])]
      ensures called == if CallsNext(old(Lists())[k]) then Lists()[k].current else None
    {
      hide Ticked, CallsNext;
      var list := if k == 0 then done else if k == 1 then fail else progress;
      called := list.Next();
    }

    method ReturnTo(k: nat)
      requires Apart() && k < 3
      modifies done, fail, progress
      ensures Lists() == old(Lists())[k := Returned(old(Lists())[k])]
    {
      hide Returned;
      var list := if k == 0 then done else if k == 1 then fail else progress;
      list.Return();
    }

    method DisableList(k: nat)
      requires Apart() && k < 2
      modifies done, fail
      ensures Lists() == old(Lists())[k := Disabled(old(Lists())[k])]
    {
      hide Disabled;
      var list := if k == 0 then done else fail;
      list.Disable();
    }

    method LockProgressList()
      requires Apart()
      modifies progress
      ensures Lists() == old(Lists())[2 := Locked(old(Lists())[2])]
    {
      hide Locked;
      progress.Lock();
    }

    // ---- the operations

    /** done, fail and progress. */
    method Register(k: nat, ids: seq<nat>)
      requires Apart() && D.Shaped(Value()) && k < 3
      modifies this, done, fail, progress
      ensures Value() == D.RegisterStep(old(Value()), k, ids)
    {
      hide Added, Numbered, D.Handlers, Lists;
      ListsAreThree();
      var list := Lists()[k];
      if list.list.Some? {
        AddTo(k, D.Handlers(ids), next);
        ListsAreThree();
        if !list.firing && Lists()[k].firing {
          running := running + [k];
        }
        registered := registered[k := registered[k] + set e <- Numbered(D.Handlers(ids), next) :: e.reg];
        next := next + |ids|;
      }
    }

    /** resolve, reject and notify. */
    method Settle(k: nat, d: Data)
      requires Apart() && D.Shaped(Value()) && k < 3
      modifies this, done, fail, progress
      ensures Value() == D.FireStep(old(Value()), k, d)
    {
      hide Fired, Lists;
      ListsAreThree();
      var list := Lists()[k];
      FireOn(k, d);
      ListsAreThree();
      if !list.firing && Lists()[k].firing {
        running := running + [k];
        if k < 2 && settled.None? {
          settled := Some((k, d));
        }
      }
    }

    /** The innermost pass calls its next callback, or ends. */
    method Turn()
      requires Apart() && D.Shaped(Value()) && running != []
      modifies this, done, fail, progress
      ensures Value() == D.TickStep(old(Value()))
    {
      hide Ticked, Ended, CallsNext, Lists, D.Invoke;
      ListsAreThree();
      var k := running[|running| - 1];
      var list := Lists()[k];
      TickedOrEnded(list);
      var called := NextOf(k);
      ListsAreThree();
      if called.None? {
        if !Lists()[k].firing {
          running := running[..|running| - 1];
        }
      } else {
        Call(k, called.value);
      }
    }

    /** The callback that the innermost pass calls does its work. */
    method Call(k: nat, e: Entry)
      requires Apart() && D.Shaped(Value()) && k < 3
      modifies this, done, fail, progress
      ensures Value() == D.Invoke(old(Value()), k, e)
    {
      hide Lists;
      ListsAreThree();
      match e.callback
      case User(id) => calls := calls[k := calls[k] + [D.Call(id, e.reg, Lists()[k].data)]];
      case Settle =>
        state := D.Settled(k);
        transitions := transitions + 1;
      case DisableOther =>
        if k < 2 {
          DisableList(1 - k);
        }
      case LockProgress => LockProgressList();
    }

    /** A call by the user's code, if it is running. */
    method PerformCall(op: D.Operation)
      requires Apart() && D.Shaped(Value()) && (op.Register? || op.Fire?)
      modifies this, done, fail, progress
      ensures Value() == D.Step(old(Value()), op)
    {
      WhatStepDoes(Value(), op);
      hide D.Step, D.RegisterStep, D.FireStep, Lists;
      ListsAreThree();
      var user := running == [] || InUserHandler(Lists()[running[|running| - 1]]);
      assert user == D.UserTurn(Value());
      hide D.UserTurn;
      if op.kind < 3 && user {
        if op.Register? { Register(op.kind, op.ids); } else { Settle(op.kind, op.d); }
      }
    }

    /** A turn of the innermost pass, or the return of its handler. */
    method PerformTurn(op: D.Operation)
      requires Apart() && D.Shaped(Value()) && (op.Tick? || op.Return?)
      modifies this, done, fail, progress
      ensures Value() == D.Step(old(Value()), op)
    {
      WhatStepDoes(Value(), op);
      hide D.Step, D.TickStep, Returned, Lists;
      ListsAreThree();
      if running != [] {
        var k := running[|running| - 1];
        if op.Tick? && Lists()[k].current.None? { Turn(); }
        else if op.Return? && Lists()[k].current.Some? { ReturnTo(k); }
      }
    }

    /** One operation, if it is possible now. */
    method Perform(op: D.Operation)
      requires Apart() && D.Inv(Value())
      modifies this, done, fail, progress
      ensures Value() == D.Step(old(Value()), op)
    {
      InvIsShaped(Value());
      hide D.Inv, D.Step, Lists;
      if op.Register? || op.Fire? { PerformCall(op); } else { PerformTurn(op); }
    }

    lemma ListsAreThree()
      ensures |Lists()| == 3
    {
    }
  }

  /** The script's step, case by case. */
  lemma WhatStepDoes(s: D.Deferred, op: D.Operation)
    requires D.Shaped(s)
    ensures op.Register? ==>
              D.Step(s, op) == if op.kind < 3 && D.UserTurn(s) then D.RegisterStep(s, op.kind, op.ids) else s
    ensures op.Fire? ==>
              D.Step(s, op) == if op.kind < 3 && D.UserTurn(s) then D.FireStep(s, op.kind, op.d) else s
    ensures op.Tick? ==>
              D.Step(s, op) == if s.running != [] && s.lists[D.Top(s)].current.None? then D.TickStep(s) else s
    ensures op.Return? ==>
              D.Step(s, op) == if s.running != [] && s.lists[D.Top(s)].current.Some?
                               then s.(lists := s.lists[D.Top(s) := Returned(s.lists[D.Top(s)])]) else s
  {
    hide D.RegisterStep, D.FireStep, D.TickStep, D.UserTurn, Returned;
  }

  predicate InUserHandler(l: CList) {
    l.current.Some? && l.current.value.callback.User?
  }

  lemma InvIsShaped(s: D.Deferred)
    requires D.Inv(s)
    ensures D.Shaped(s)
  {
  }

  lemma TickedOrEnded(l: CList)
    ensures CallsNext(l) ==>
              Ticked(l) == l.(current := Some(l.list.value[l.firingIndex])) && Ticked(l).data == l.data
    ensures !CallsNext(l) ==> Ticked(l) == Ended(l)
  {
  }

  /** The object goes through the states of the run; once nothing is being fired any more its
      handlers have been called with exactly what the script owes them. */
  method Replay(script: seq<D.Operation>) returns (state: D.Outcome, calls: seq<seq<D.Call>>, firing: bool)
    ensures state == D.Run(script).outcome && calls == D.Run(script).calls && firing == (D.Run(script).running != [])
    ensures |calls| == 3
    ensures !firing ==>
              var a := AskedBy(script);
              && calls[2] == Rounds(a.notified, a.handlers[2], |a.notified|)
              && (if a.settled.None? then state == D.Pending && calls[0] == [] && calls[1] == []
                  else
                    var (w, d) := a.settled.value;
                    w < 2 && state == D.Settled(w) && calls[w] == CallAll(a.handlers[w], d) && calls[1 - w] == [])
  {
    hide D.Step, D.Inv, AskedBy, Rounds, CallAll;
    var deferred := new DeferredObject();
    var i := 0;
    while i < |script|
      invariant 0 <= i <= |script|
      invariant fresh(deferred) && fresh(deferred.done) && fresh(deferred.fail) && fresh(deferred.progress)
      invariant deferred.Apart() && deferred.Value() == D.Run(script[..i])
    {
      D.Reached(script[..i]);
      assert script[..i + 1][..i] == script[..i];
      deferred.Perform(script[i]);
      i := i + 1;
    }
    assert script[..i] == script;
    state, calls, firing := deferred.state, deferred.calls, deferred.running != [];
    OutcomeDeliveries(script);
    ProgressDeliveries(script);
  }
}
