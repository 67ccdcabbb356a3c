/** The memoised matcher: per-element slots shared by all combinators of a direction. */
module SelectorCache {
  import opened SelectorModel

  datatype Data = Pending | Matched | Failed(run: nat)

  datatype Cell = Cell(dirruns: nat, name: nat, data: Data)

  /** The `elem[expando][dir]` slots; cells live apart so that a replaced cell is detached, not lost. */
  datatype Cache = Cache(slots: map<(int, Dir), nat>, cells: seq<Cell>) {
    ghost predicate Valid() {
      forall k :: k in slots ==> slots[k] < |cells|
    }

    ghost predicate Holds(k: (int, Dir), dirruns: nat, name: nat) {
      k in slots && slots[k] < |cells| && cells[slots[k]].dirruns == dirruns && cells[slots[k]].name == name
    }

    ghost function At(k: (int, Dir)): Data
      requires k in slots && slots[k] < |cells|
    {
      cells[slots[k]].data
    }
  }

  /** Old cells are untouched, and a changed slot points at a new cell of one of the named combinators. */
  ghost predicate Extends(before: Cache, after: Cache, dirruns: nat, names: set<nat>) {
    && |before.cells| <= |after.cells|
    && (forall i :: 0 <= i < |before.cells| ==> after.cells[i] == before.cells[i])
    && (forall k :: k in after.slots ==>
          || (k in before.slots && before.slots[k] == after.slots[k])
          || (&& |before.cells| <= after.slots[k] < |after.cells|
              && after.cells[after.slots[k]].dirruns == dirruns
              && after.cells[after.slots[k]].name in names))
  }

  /** Slots of combinators that are not named are as they were, or gone. */
  ghost predicate Spares(before: Cache, after: Cache, dirruns: nat, names: set<nat>) {
    forall k :: k in after.slots && after.slots[k] < |after.cells| ==>
      var cell := after.cells[after.slots[k]];
      cell.dirruns == dirruns && cell.name !in names ==>
        k in before.slots && before.slots[k] < |before.cells| && before.cells[before.slots[k]] == cell
  }

  /** What a slot of one combinator says: the real verdict for its node and, when it was
      written for the element being tested now, that nothing further along matches either. */
  ghost predicate Truthful(e: Env, c: Cache, dirruns: nat, cachedruns: nat, m: Matcher, strict: bool)
    requires m.Combinator?
  {
    forall k :: c.Holds(k, dirruns, m.name) ==>
      && e.Node(k.0) && k.1 == m.dir && !m.first
      && match c.At(k) {
           case Pending => false
           case Matched => Accepts(e, m.inner, k.0)
           case Failed(run) =>
             && !Accepts(e, m.inner, k.0)
             && run <= cachedruns
             && (strict && run == cachedruns ==> !Accepts(e, m, k.0))
         }
  }

  ghost predicate Sound(e: Env, c: Cache, dirruns: nat, cachedruns: nat, m: Matcher, strict: bool) {
    match m
    case Foundation(_, one, many) =>
      Sound(e, c, dirruns, cachedruns, one, strict) && Sound(e, c, dirruns, cachedruns, many, strict)
    case Combinator(inner, _, _, _, _) =>
      Truthful(e, c, dirruns, cachedruns, m, strict) && Sound(e, c, dirruns, cachedruns, inner, strict)
    case All(ms) => ms == [] || Sound(e, c, dirruns, cachedruns, ms[0], strict)
    case _ => true
  }

  /** Slots taken over by other combinators only lose information. */
  lemma {:induction false} Framed(e: Env, before: Cache, after: Cache, dirruns: nat, cachedruns: nat, m: Matcher,
                                  strict: bool, names: set<nat>)
    requires Spares(before, after, dirruns, names) && names !! Names(m)
    requires Sound(e, before, dirruns, cachedruns, m, strict)
    ensures Sound(e, after, dirruns, cachedruns, m, strict)
    decreases m
  {
    match m
    case Foundation(_, one, many) =>
      Framed(e, before, after, dirruns, cachedruns, one, strict, names);
      Framed(e, before, after, dirruns, cachedruns, many, strict, names);
    case Combinator(inner, _, _, _, name) =>
      Framed(e, before, after, dirruns, cachedruns, inner, strict, names);
      assert forall k :: after.Holds(k, dirruns, name) ==>
                           before.Holds(k, dirruns, name) && before.At(k) == after.At(k);
    case All(ms) => if ms != [] { Framed(e, before, after, dirruns, cachedruns, ms[0], strict, names); }
    case _ =>
  }

  lemma OwnKept(e: Env, before: Cache, after: Cache, dirruns: nat, cachedruns: nat, m: Matcher, names: set<nat>)
    requires Spares(before, after, dirruns, names) && m.Combinator? && m.name !in names
    requires Truthful(e, before, dirruns, cachedruns, m, true)
    ensures Truthful(e, after, dirruns, cachedruns, m, true)
  {
    assert forall k :: after.Holds(k, dirruns, m.name) ==>
                         before.Holds(k, dirruns, m.name) && before.At(k) == after.At(k);
  }

  /** The own slots of a combinator half-way through a walk that looks at `node` next: a node
      already passed promises no more than the rest of the walk will find. */
  ghost predicate Walking(e: Env, c: Cache, dirruns: nat, cachedruns: nat, m: Matcher, node: int)
    requires m.Combinator? && (node == NONE || e.Node(node))
  {
    forall k :: c.Holds(k, dirruns, m.name) ==>
      && e.Node(k.0) && k.1 == m.dir && !m.first
      && match c.At(k) {
           case Pending => false
           case Matched => Accepts(e, m.inner, k.0)
           case Failed(run) =>
             && !Accepts(e, m.inner, k.0)
             && run <= cachedruns
             && (run == cachedruns && Accepts(e, m, k.0) ==>
                   k.0 > node && Walk(e, m.inner, m.dir, false, m.base, node))
         }
  }

  /** The start of a walk: what is strictly truthful is so half-way as well. */
  lemma WalkingStarts(e: Env, c: Cache, dirruns: nat, cachedruns: nat, m: Matcher, node: int)
    requires m.Combinator? && (node == NONE || e.Node(node)) && Truthful(e, c, dirruns, cachedruns, m, true)
    ensures Walking(e, c, dirruns, cachedruns, m, node)
  {
    hide Accepts, Walk;
  }

  /** The end of a walk that succeeds, or of one that finds nothing from this node on. */
  lemma WalkingEnds(e: Env, c: Cache, dirruns: nat, cachedruns: nat, m: Matcher, node: int, found: bool)
    requires m.Combinator? && (node == NONE || e.Node(node)) && Walking(e, c, dirruns, cachedruns, m, node)
    requires found || !Walk(e, m.inner, m.dir, false, m.base, node)
    ensures Truthful(e, c, dirruns, cachedruns, m, !found)
  {
    hide Accepts, Walk;
  }

  /** A slot that decides the walk says what the walk would find. */
  lemma SlotDecides(e: Env, c: Cache, dirruns: nat, cachedruns: nat, m: Matcher, node: int)
    requires m.Combinator? && e.Node(node) && Considered(e, m.dir, m.base, node)
    requires Walking(e, c, dirruns, cachedruns, m, node) && c.Holds((node, m.dir), dirruns, m.name)
    requires c.At((node, m.dir)) in {Matched, Failed(cachedruns)}
    ensures Walk(e, m.inner, m.dir, false, m.base, node) <==> c.At((node, m.dir)) == Matched
  {
    assert c.At((node, m.dir)) == Failed(cachedruns) ==> !Accepts(e, m, node);
  }

  /** A node that is not considered, or that the inner matcher is known to reject, is passed. */
  lemma WalkingPasses(e: Env, c: Cache, dirruns: nat, cachedruns: nat, m: Matcher, node: int)
    requires m.Combinator? && e.Node(node) && Walking(e, c, dirruns, cachedruns, m, node)
    requires Considered(e, m.dir, m.base, node) ==> !Accepts(e, m.inner, node)
    requires Considered(e, m.dir, m.base, node) && c.Holds((node, m.dir), dirruns, m.name) ==>
               c.At((node, m.dir)) != Failed(cachedruns)
    ensures var next := Next(e.dom, m.dir, node);
            && Walk(e, m.inner, m.dir, false, m.base, node) == Walk(e, m.inner, m.dir, false, m.base, next)
            && Walking(e, c, dirruns, cachedruns, m, next)
  {
    var next := Next(e.dom, m.dir, node);
    assert Walk(e, m.inner, m.dir, false, m.base, node) == Walk(e, m.inner, m.dir, false, m.base, next);
    hide Accepts, Walk;
  }

  /** Any other slot remembers that the inner matcher rejected the node. */
  lemma SlotRejects(e: Env, c: Cache, dirruns: nat, cachedruns: nat, m: Matcher, node: int)
    requires m.Combinator? && e.Node(node) && Walking(e, c, dirruns, cachedruns, m, node)
    requires c.Holds((node, m.dir), dirruns, m.name) && c.At((node, m.dir)) !in {Matched, Failed(cachedruns)}
    ensures !Accepts(e, m.inner, node)
  {
    hide Accepts, Walk;
  }

  lemma WalkTurns(e: Env, m: Matcher, node: int)
    requires m.Combinator? && e.Node(node) && Considered(e, m.dir, m.base, node)
    ensures Walk(e, m.inner, m.dir, false, m.base, node) <==>
            Accepts(e, m.inner, node) || Walk(e, m.inner, m.dir, false, m.base, Next(e.dom, m.dir, node))
  {
  }

  lemma WalkTurnsOut(e: Env, m: Matcher)
    requires m.Combinator?
    ensures !Walk(e, m.inner, m.dir, false, m.base, NONE)
  {
  }

  lemma ExtendsTwice(first: Cache, second: Cache, third: Cache, dirruns: nat, names: set<nat>)
    requires Extends(first, second, dirruns, names) && Extends(second, third, dirruns, names)
    ensures Extends(first, third, dirruns, names)
  {
  }

  lemma AcceptsIsWalk(e: Env, m: Matcher, n: int)
    requires m.Combinator? && e.Node(n)
    ensures Accepts(e, m, n) == Walk(e, m.inner, m.dir, m.first, m.base, Next(e.dom, m.dir, n))
  {
  }

  function Install(c: Cache, k: (int, Dir), cell: Cell): Cache {
    Cache(c.slots[k := |c.cells|], c.cells + [cell])
  }

  function Fill(c: Cache, i: nat, cell: Cell): Cache
    requires i < |c.cells|
  {
    c.(cells := c.cells[i := cell])
  }

  lemma InstallSpares(c: Cache, k: (int, Dir), cell: Cell)
    requires c.Valid()
    ensures Spares(c, Install(c, k, cell), cell.dirruns, {cell.name}) && Install(c, k, cell).Valid()
  {
  }

  lemma FillSpares(c: Cache, i: nat, cell: Cell)
    requires c.Valid() && i < |c.cells| && c.cells[i].dirruns == cell.dirruns && c.cells[i].name == cell.name
    ensures Spares(c, Fill(c, i, cell), cell.dirruns, {cell.name}) && Fill(c, i, cell).Valid()
  {
  }

  /** A cell installed, other cells of the named combinators added, and the first one filled. */
  lemma VisitedExtends(before: Cache, after: Cache, k: (int, Dir), pending: Cell, filled: Cell, names: set<nat>)
    requires before.Valid() && pending.dirruns == filled.dirruns && pending.name == filled.name
    requires Extends(Install(before, k, pending), after, pending.dirruns, names)
    ensures |before.cells| < |after.cells| && after.cells[|before.cells|] == pending
    ensures Extends(before, Fill(after, |before.cells|, filled), pending.dirruns, names + {pending.name})
  {
  }

  /** Who holds a slot of a combinator after a visit: the cell just filled, or the one before. */
  lemma VisitedHolds(before: Cache, after: Cache, at: (int, Dir), pending: Cell, filled: Cell,
                     names: set<nat>, k: (int, Dir))
    requires before.Valid() && pending.dirruns == filled.dirruns && pending.name == filled.name
    requires filled.name !in names
    requires Extends(Install(before, at, pending), after, pending.dirruns, names)
    requires |before.cells| < |after.cells|
    requires Fill(after, |before.cells|, filled).Holds(k, filled.dirruns, filled.name)
    ensures if k == at then Fill(after, |before.cells|, filled).At(k) == filled.data
            else before.Holds(k, filled.dirruns, filled.name) &&
                 before.At(k) == Fill(after, |before.cells|, filled).At(k)
  {
    var installed := Install(before, at, pending);
    assert k in installed.slots && installed.slots[k] == Fill(after, |before.cells|, filled).slots[k];
  }

  ghost predicate OneSlotNew(before: Cache, filled: Cache, at: (int, Dir), cell: Cell) {
    forall k :: filled.Holds(k, cell.dirruns, cell.name) ==>
      if k == at then filled.At(k) == cell.data
      else before.Holds(k, cell.dirruns, cell.name) && before.At(k) == filled.At(k)
  }

  lemma MatchedIsTruthful(e: Env, before: Cache, filled: Cache, dirruns: nat, cachedruns: nat, m: Matcher, node: int)
    requires m.Combinator? && !m.first && e.Node(node) && Walking(e, before, dirruns, cachedruns, m, node)
    requires OneSlotNew(before, filled, (node, m.dir), Cell(dirruns, m.name, Matched)) && Accepts(e, m.inner, node)
    ensures Truthful(e, filled, dirruns, cachedruns, m, false)
  {
    hide Accepts, Walk;
  }

  lemma FailedIsWalking(e: Env, before: Cache, filled: Cache, dirruns: nat, cachedruns: nat, m: Matcher, node: int)
    requires m.Combinator? && !m.first && e.Node(node) && Walking(e, before, dirruns, cachedruns, m, node)
    requires OneSlotNew(before, filled, (node, m.dir), Cell(dirruns, m.name, Failed(cachedruns)))
    requires Considered(e, m.dir, m.base, node) && !Accepts(e, m.inner, node)
    ensures Walking(e, filled, dirruns, cachedruns, m, Next(e.dom, m.dir, node))
  {
    AcceptsIsWalk(e, m, node);
    WalkTurns(e, m, node);
    hide Accepts, Walk, Considered;
  }

  /** The four steps of a first visit leave the combinator's slots in order: slots before,
      an empty cell installed, whatever the inner matcher does, the cell filled in. */
  lemma Visited(e: Env, before: Cache, after: Cache, dirruns: nat, cachedruns: nat, m: Matcher, node: int,
                names: set<nat>, verdict: bool)
    requires before.Valid() && m.Combinator? && !m.first && m.name !in names
    requires e.Node(node) && Considered(e, m.dir, m.base, node)
    requires Walking(e, before, dirruns, cachedruns, m, node)
    requires Extends(Install(before, (node, m.dir), Cell(dirruns, m.name, Pending)), after, dirruns, names)
    requires verdict == Accepts(e, m.inner, node)
    ensures |before.cells| < |after.cells| && after.cells[|before.cells|] == Cell(dirruns, m.name, Pending)
    ensures var cell := Cell(dirruns, m.name, if verdict then Matched else Failed(cachedruns));
            var filled := Fill(after, |before.cells|, cell);
            && Extends(before, filled, dirruns, names + {m.name})
            && if verdict then Truthful(e, filled, dirruns, cachedruns, m, false)
               else Walking(e, filled, dirruns, cachedruns, m, Next(e.dom, m.dir, node))
  {
    var pending := Cell(dirruns, m.name, Pending);
    var cell := Cell(dirruns, m.name, if verdict then Matched else Failed(cachedruns));
    var at := (node, m.dir);
    VisitedExtends(before, after, at, pending, cell, names);
    var filled := Fill(after, |before.cells|, cell);
    hide Extends, Accepts, Walk, Considered, Walking, Truthful;
    forall k | filled.Holds(k, dirruns, m.name)
      ensures if k == at then filled.At(k) == cell.data
              else before.Holds(k, dirruns, m.name) && before.At(k) == filled.At(k)
    {
      VisitedHolds(before, after, at, pending, cell, names, k);
    }
    assert OneSlotNew(before, filled, at, cell);
    if verdict {
      MatchedIsTruthful(e, before, filled, dirruns, cachedruns, m, node);
    } else {
      FailedIsWalking(e, before, filled, dirruns, cachedruns, m, node);
    }
  }

  /** Verdicts stay true when the strict reading is dropped or the element counter moves on. */
  lemma {:induction false} NextElement(e: Env, c: Cache, dirruns: nat, cachedruns: nat, m: Matcher, strict: bool)
    requires Sound(e, c, dirruns, cachedruns, m, strict)
    ensures Sound(e, c, dirruns, cachedruns, m, false)
    ensures Sound(e, c, dirruns, cachedruns + 1, m, true)
    decreases m
  {
    match m
    case Foundation(_, one, many) =>
      NextElement(e, c, dirruns, cachedruns, one, strict);
      NextElement(e, c, dirruns, cachedruns, many, strict);
    case Combinator(inner, _, _, _, _) => NextElement(e, c, dirruns, cachedruns, inner, strict);
    case All(ms) => if ms != [] { NextElement(e, c, dirruns, cachedruns, ms[0], strict); }
    case _ =>
  }

  /** Nothing is claimed by a cache that only holds cells of earlier runs. */
  lemma {:induction false} Fresh(e: Env, c: Cache, dirruns: nat, cachedruns: nat, m: Matcher)
    requires c.Valid() && forall i :: 0 <= i < |c.cells| ==> c.cells[i].dirruns < dirruns
    ensures Sound(e, c, dirruns, cachedruns, m, true)
    decreases m
  {
    match m
    case Foundation(_, one, many) =>
      Fresh(e, c, dirruns, cachedruns, one);
      Fresh(e, c, dirruns, cachedruns, many);
    case Combinator(inner, _, _, _, _) => Fresh(e, c, dirruns, cachedruns, inner);
    case All(ms) => if ms != [] { Fresh(e, c, dirruns, cachedruns, ms[0]); }
    case _ =>
  }

  ghost predicate AcceptsAny(e: Env, ms: seq<Matcher>, n: int)
    requires e.Node(n)
  {
    exists j :: 0 <= j < |ms| && Accepts(e, ms[j], n)
  }

  ghost function Selected(e: Env, ms: seq<Matcher>, seed: seq<int>): seq<int>
    requires forall i :: 0 <= i < |seed| ==> e.Node(seed[i])
  {
    if seed == [] then []
    else
      var rest := Selected(e, ms, seed[..|seed| - 1]);
      if AcceptsAny(e, ms, seed[|seed| - 1]) then rest + [seed[|seed| - 1]] else rest
  }

  class Engine {
    var cache: Cache
    var dirruns: nat
    var cachedruns: nat

    ghost predicate Valid()
      reads this
    {
      cache.Valid() && forall i :: 0 <= i < |cache.cells| ==> cache.cells[i].dirruns <= dirruns
    }

    ghost predicate Ready(e: Env, m: Matcher, strict: bool)
      reads this
    {
      WellFormed(m) && Valid() && Sound(e, cache, dirruns, cachedruns, m, strict)
    }

    constructor ()
      ensures Valid() && cache.cells == []
    {
      cache := Cache(map[], []);
      dirruns, cachedruns := 0, 0;
    }

    method Match(e: Env, m: Matcher, n: int) returns (verdict: bool)
      requires e.Node(n) && Ready(e, m, true)
      modifies this
      ensures verdict == Accepts(e, m, n)
      ensures Ready(e, m, !verdict)
      ensures dirruns == old(dirruns) && cachedruns == old(cachedruns)
      ensures Extends(old(cache), cache, dirruns, Names(m))
      decreases m, 2
    {
      match m
      case Filter(id) => verdict := (id, n) in e.holds;
      case IsContext => verdict := e.context == One(n);
      case AmongContexts => verdict := e.context.Many? && n in e.context.nodes;
      case Foundation(leading, one, many) =>
        if !leading && (e.xml || e.foreign) {
          verdict := true;
          NextElement(e, cache, dirruns, cachedruns, m, true);
        } else if e.context.One? {
          verdict := Match(e, one, n);
          Framed(e, old(cache), cache, dirruns, cachedruns, many, true, Names(one));
          NextElement(e, cache, dirruns, cachedruns, many, true);
        } else {
          verdict := Match(e, many, n);
          Framed(e, old(cache), cache, dirruns, cachedruns, one, true, Names(many));
          NextElement(e, cache, dirruns, cachedruns, one, true);
        }
      case Combinator(_, _, first, _, _) =>
        if first {
          verdict := MatchClosest(e, m, n);
        } else if e.xml {
          verdict := MatchUncached(e, m, n);
        } else {
          verdict := MatchCached(e, m, n);
        }
      case All(ms) => verdict := MatchAll(e, m, n);
    }

    /** elementMatcher: the list is tried from its end, the combinator comes last. */
    method MatchAll(e: Env, m: Matcher, n: int) returns (verdict: bool)
      requires m.All? && e.Node(n) && Ready(e, m, true)
      modifies this
      ensures verdict == Accepts(e, m, n)
      ensures Ready(e, m, !verdict)
      ensures dirruns == old(dirruns) && cachedruns == old(cachedruns)
      ensures Extends(old(cache), cache, dirruns, Names(m))
      decreases m, 1
    {
      var i := |m.matchers|;
      while i > 1
        invariant 1 <= i <= |m.matchers|
        invariant forall j :: i <= j < |m.matchers| ==> Accepts(e, m.matchers[j], n)
        invariant cache == old(cache) && dirruns == old(dirruns) && cachedruns == old(cachedruns)
      {
        i := i - 1;
        if (m.matchers[i].id, n) !in e.holds {
          return false;
        }
      }
      verdict := Match(e, m.matchers[0], n);
    }

    method MatchClosest(e: Env, m: Matcher, n: int) returns (verdict: bool)
      requires m.Combinator? && m.first && e.Node(n) && Ready(e, m, true)
      modifies this
      ensures verdict == Accepts(e, m, n)
      ensures Ready(e, m, !verdict)
      ensures dirruns == old(dirruns) && cachedruns == old(cachedruns)
      ensures Extends(old(cache), cache, dirruns, Names(m))
      decreases m, 1
    {
      var node := Next(e.dom, m.dir, n);
      while node != NONE
        invariant node == NONE || e.Node(node)
        invariant Accepts(e, m, n) == Walk(e, m.inner, m.dir, true, m.base, node)
        invariant cache == old(cache) && dirruns == old(dirruns) && cachedruns == old(cachedruns)
        decreases node
      {
        if Considered(e, m.dir, m.base, node) {
          verdict := Match(e, m.inner, node);
          OwnKept(e, old(cache), cache, dirruns, cachedruns, m, Names(m.inner));
          return;
        }
        node := Next(e.dom, m.dir, node);
      }
      return false;
    }

    method MatchUncached(e: Env, m: Matcher, n: int) returns (verdict: bool)
      requires m.Combinator? && !m.first && e.Node(n) && Ready(e, m, true)
      modifies this
      ensures verdict == Accepts(e, m, n)
      ensures Ready(e, m, !verdict)
      ensures dirruns == old(dirruns) && cachedruns == old(cachedruns)
      ensures Extends(old(cache), cache, dirruns, Names(m))
      decreases m, 1
    {
      var node := Next(e.dom, m.dir, n);
      while node != NONE
        invariant node == NONE || e.Node(node)
        invariant Accepts(e, m, n) == Walk(e, m.inner, m.dir, false, m.base, node)
        invariant Ready(e, m, true)
        invariant dirruns == old(dirruns) && cachedruns == old(cachedruns)
        invariant Extends(old(cache), cache, dirruns, Names(m))
        decreases node
      {
        if Considered(e, m.dir, m.base, node) {
          ghost var before := cache;
          verdict := Match(e, m.inner, node);
          OwnKept(e, before, cache, dirruns, cachedruns, m, Names(m.inner));
          if verdict {
            return;
          }
        }
        node := Next(e.dom, m.dir, node);
      }
      return false;
    }

    method MatchCached(e: Env, m: Matcher, n: int) returns (verdict: bool)
      requires m.Combinator? && !m.first && e.Node(n) && Ready(e, m, true)
      modifies this
      ensures verdict == Accepts(e, m, n)
      ensures Ready(e, m, !verdict)
      ensures dirruns == old(dirruns) && cachedruns == old(cachedruns)
      ensures Extends(old(cache), cache, dirruns, Names(m))
      decreases m, 1
    {
      hide Accepts, Walk, Walking, Truthful, Considered;
      var node := Next(e.dom, m.dir, n);
      AcceptsIsWalk(e, m, n);
      WalkingStarts(e, cache, dirruns, cachedruns, m, node);
      while node != NONE
        invariant node == NONE || e.Node(node)
        invariant Accepts(e, m, n) == Walk(e, m.inner, m.dir, false, m.base, node)
        invariant Walking(e, cache, dirruns, cachedruns, m, node)
        invariant Ready(e, m.inner, true)
        invariant dirruns == old(dirruns) && cachedruns == old(cachedruns)
        invariant Extends(old(cache), cache, dirruns, Names(m))
        decreases node
      {
        if !Considered(e, m.dir, m.base, node) {
          WalkingPasses(e, cache, dirruns, cachedruns, m, node);
        } else {
          var key := (node, m.dir);
          if key in cache.slots
             && cache.cells[cache.slots[key]].dirruns == dirruns && cache.cells[cache.slots[key]].name == m.name {
            assert cache.Holds(key, dirruns, m.name);
            var data := cache.cells[cache.slots[key]].data;
            if data == Matched || data == Failed(cachedruns) {
              verdict := data == Matched;
              SlotDecides(e, cache, dirruns, cachedruns, m, node);
              WalkingEnds(e, cache, dirruns, cachedruns, m, node, verdict);
              NextElement(e, cache, dirruns, cachedruns, m.inner, true);
              return;
            }
            SlotRejects(e, cache, dirruns, cachedruns, m, node);
            WalkingPasses(e, cache, dirruns, cachedruns, m, node);
          } else {
            ghost var before := cache;
            verdict := LookAt(e, m, node);
            ExtendsTwice(old(cache), before, cache, dirruns, Names(m));
            WalkTurns(e, m, node);
            if verdict {
              return;
            }
          }
        }
        node := Next(e.dom, m.dir, node);
      }
      WalkTurnsOut(e, m);
      WalkingEnds(e, cache, dirruns, cachedruns, m, node, false);
      return false;
    }

    /** A node without a slot of this combinator: a new cell is installed, filled in later
        even if the inner matcher has meanwhile taken the slot away from it. */
    method LookAt(e: Env, m: Matcher, node: int) returns (verdict: bool)
      requires m.Combinator? && !m.first && e.Node(node) && Considered(e, m.dir, m.base, node)
      requires WellFormed(m) && Ready(e, m.inner, true)
      requires Walking(e, cache, dirruns, cachedruns, m, node)
      requires !cache.Holds((node, m.dir), dirruns, m.name)
      modifies this
      ensures verdict == Accepts(e, m.inner, node)
      ensures Ready(e, m.inner, !verdict)
      ensures if verdict then Truthful(e, cache, dirruns, cachedruns, m, false)
              else Walking(e, cache, dirruns, cachedruns, m, Next(e.dom, m.dir, node))
      ensures dirruns == old(dirruns) && cachedruns == old(cachedruns)
      ensures Extends(old(cache), cache, dirruns, Names(m))
      decreases m, 0
    {
      hide Accepts, Walk, Walking, Truthful, Considered, Spares, Sound;
      var c := |cache.cells|;
      InstallSpares(cache, (node, m.dir), Cell(dirruns, m.name, Pending));
      cache := Install(cache, (node, m.dir), Cell(dirruns, m.name, Pending));
      Framed(e, old(cache), cache, dirruns, cachedruns, m.inner, true, {m.name});
      verdict := Match(e, m.inner, node);
      ghost var visited := cache;
      Visited(e, old(cache), cache, dirruns, cachedruns, m, node, Names(m.inner), verdict);
      FillSpares(cache, c, Cell(dirruns, m.name, if verdict then Matched else Failed(cachedruns)));
      cache := Fill(cache, c, Cell(dirruns, m.name, if verdict then Matched else Failed(cachedruns)));
      Framed(e, visited, cache, dirruns, cachedruns, m.inner, !verdict, {m.name});
    }

    /** superMatcher over given elements, as the outermost run. */
    method SuperMatcher(e: Env, ms: seq<Matcher>, seed: seq<int>, matcherCachedRuns: nat)
      returns (results: seq<int>, runs: nat)
      requires Valid()
      requires forall i :: 0 <= i < |seed| ==> e.Node(seed[i])
      requires forall j :: 0 <= j < |ms| ==> WellFormed(ms[j])
      requires forall i, j :: 0 <= i < j < |ms| ==> Names(ms[i]) !! Names(ms[j])
      modifies this
      ensures Valid()
      ensures results == Selected(e, ms, seed)
      ensures runs == matcherCachedRuns + |seed| && dirruns == old(dirruns) + 1
    {
      hide Sound, WellFormed, AcceptsAny, Names, Accepts;
      dirruns := dirruns + 1;
      runs := matcherCachedRuns;
      cachedruns := runs;
      results := [];
      forall j | 0 <= j < |ms| ensures Ready(e, ms[j], true) {
        Fresh(e, cache, dirruns, cachedruns, ms[j]);
      }
      var i := 0;
      while i < |seed|
        invariant 0 <= i <= |seed|
        invariant Valid() && dirruns == old(dirruns) + 1
        invariant runs == cachedruns == matcherCachedRuns + i
        invariant results == Selected(e, ms, seed[..i])
        invariant forall j :: 0 <= j < |ms| ==> Ready(e, ms[j], true)
      {
        var found := MatchGroups(e, ms, seed[i]);
        if found {
          results := results + [seed[i]];
        }
        forall j | 0 <= j < |ms|
          ensures Sound(e, cache, dirruns, cachedruns + 1, ms[j], true)
        {
          NextElement(e, cache, dirruns, cachedruns, ms[j], false);
        }
        runs := runs + 1;
        cachedruns := runs;
        assert seed[..i + 1][..i] == seed[..i];
        i := i + 1;
      }
      assert seed[..|seed|] == seed;
    }

    method MatchGroups(e: Env, ms: seq<Matcher>, n: int) returns (found: bool)
      requires e.Node(n) && Valid()
      requires forall j :: 0 <= j < |ms| ==> Ready(e, ms[j], true)
      requires forall i, j :: 0 <= i < j < |ms| ==> Names(ms[i]) !! Names(ms[j])
      modifies this
      ensures Valid() && dirruns == old(dirruns) && cachedruns == old(cachedruns)
      ensures found == AcceptsAny(e, ms, n)
      ensures forall j :: 0 <= j < |ms| ==> Ready(e, ms[j], false)
    {
      found := false;
      var j := 0;
      while j < |ms| && !found
        invariant 0 <= j <= |ms|
        invariant Valid() && dirruns == old(dirruns) && cachedruns == old(cachedruns)
        invariant found ==> AcceptsAny(e, ms, n)
        invariant !found ==> forall k :: 0 <= k < j ==> !Accepts(e, ms[k], n)
        invariant found ==> forall k :: 0 <= k < |ms| ==> Ready(e, ms[k], false)
        invariant !found ==> forall k :: 0 <= k < |ms| ==> Ready(e, ms[k], true)
      {
        ghost var before := cache;
        found := Match(e, ms[j], n);
        forall k | 0 <= k < |ms| && k != j
          ensures Ready(e, ms[k], true)
        {
          Framed(e, before, cache, dirruns, cachedruns, ms[k], true, Names(ms[j]));
        }
        if found {
          forall k | 0 <= k < |ms|
            ensures Ready(e, ms[k], false)
          {
            NextElement(e, cache, dirruns, cachedruns, ms[k], k != j);
          }
        }
        j := j + 1;
      }
      if !found {
        forall k | 0 <= k < |ms|
          ensures Ready(e, ms[k], false)
        {
          NextElement(e, cache, dirruns, cachedruns, ms[k], true);
        }
      }
    }
  }
}
