/**
 Selectors as declared (section 8 of W3C Selectors Level 3), the compilation of their
 tokens into a matcher chain, and the agreement of the two.
 */
module SelectorCompiler {
  import opened SelectorCache
  import opened SelectorModel
  import opened Sequences

  datatype Token = Relation(rel: Relative) | Simple(id: nat)

  /** Nodes of a document, each one but the first linked to by the one before it. */
  predicate Chain(links: seq<int>, p: seq<int>) {
    && (forall i :: 0 <= i < |p| ==> 0 <= p[i] < |links|)
    && forall i :: 0 <= i < |p| - 1 ==> links[p[i]] == p[i + 1]
  }

  /** Following the links from n, once or more, leads to m: for the links to the parents m is
      an ancestor, for the links to the previous siblings an earlier sibling. */
  ghost predicate Leads(links: seq<int>, n: int, m: int) {
    exists p: seq<int> :: Chain(links, p) && |p| > 1 && p[0] == n && p[|p| - 1] == m
  }

  /** The relation a combinator states between m (on its left) and n (on its right).
      Only the outermost context may be a node that is not an element. */
  ghost predicate Related(e: Env, rel: Relative, base: bool, m: int, n: int)
    requires e.Node(m) && e.Node(n)
  {
    && (e.dom.element[m] || (base && (rel.Child? || rel.Descendant?)))
    && match rel
       case Child => e.dom.parent[n] == m
       case Descendant => Leads(e.dom.parent, n, m)
       case Adjacent =>
         && Leads(e.dom.previous, n, m)
         && forall k :: e.Node(k) && Leads(e.dom.previous, n, k) && Leads(e.dom.previous, k, m) ==> !e.dom.element[k]
       case Sibling => Leads(e.dom.previous, n, m)
  }

  predicate IsContextNode(c: Context, n: int) {
    match c
    case One(node) => node == n
    case Many(nodes) => n in nodes
  }

  /** An element is selected when the compound on the right describes it and some node
      related to it is selected by what stands left of the combinator. */
  ghost predicate Selects(e: Env, leading: bool, implicit: Relative, tokens: seq<Token>, n: int)
    requires e.Node(n)
    decreases |tokens|
  {
    if tokens == [] then
      || (!leading && (e.xml || e.foreign))
      || exists m :: e.Node(m) && IsContextNode(e.context, m) && Related(e, implicit, true, m, n)
    else
      var rest := tokens[..|tokens| - 1];
      match tokens[|tokens| - 1]
      case Simple(id) => (id, n) in e.holds && Selects(e, leading, implicit, rest, n)
      case Relation(rel) =>
        exists m :: e.Node(m) && Related(e, rel, false, m, n) && Selects(e, leading, implicit, rest, m)
  }

  ghost predicate SelectedBy(e: Env, tokens: seq<Token>, n: int)
    requires tokens != [] && e.Node(n)
  {
    if tokens[0].Relation? then Selects(e, true, tokens[0].rel, tokens[1..], n)
    else Selects(e, false, Descendant, tokens, n)
  }

  /** The nodes that a walk in a direction comes by. */
  ghost predicate Reaches(d: Dom, dir: Dir, n: int, m: int)
    requires 0 <= n < |d.parent|
    decreases n
  {
    var nx := Next(d, dir, n);
    nx != NONE && (nx == m || Reaches(d, dir, nx, m))
  }

  function Links(d: Dom, dir: Dir): seq<int> {
    if dir.ParentNode? then d.parent else d.previous
  }

  lemma {:induction false} ChainIsWalked(d: Dom, dir: Dir, p: seq<int>)
    requires |p| > 1 && Chain(Links(d, dir), p)
    ensures Reaches(d, dir, p[0], p[|p| - 1])
    decreases |p|
  {
    assert p[1] == Links(d, dir)[p[0]] == Next(d, dir, p[0]);
    if |p| > 2 {
      forall i | 0 <= i < |p[1..]| - 1 ensures Links(d, dir)[p[1..][i]] == p[1..][i + 1] {
        assert p[1..][i] == p[i + 1] && p[1..][i + 1] == p[i + 2];
      }
      ChainIsWalked(d, dir, p[1..]);
    }
  }

  lemma {:induction false} WalkIsChain(d: Dom, dir: Dir, n: int, m: int) returns (p: seq<int>)
    requires 0 <= n < |d.parent| && Reaches(d, dir, n, m)
    ensures |p| > 1 && Chain(Links(d, dir), p) && p[0] == n && p[|p| - 1] == m
    decreases n
  {
    var nx := Next(d, dir, n);
    if nx == m {
      p := [n, m];
    } else {
      var q := WalkIsChain(d, dir, nx, m);
      p := [n] + q;
      forall i | 0 <= i < |p| - 1 ensures Links(d, dir)[p[i]] == p[i + 1] {
        assert i > 0 ==> p[i] == q[i - 1] && p[i + 1] == q[i];
      }
    }
  }

  /** A walk comes by a node exactly when the document's own links lead there. */
  lemma ReachesMeansLeads(d: Dom, dir: Dir, n: int, m: int)
    requires 0 <= n < |d.parent|
    ensures Reaches(d, dir, n, m) <==> Leads(if dir.ParentNode? then d.parent else d.previous, n, m)
  {
    if Reaches(d, dir, n, m) {
      var p := WalkIsChain(d, dir, n, m);
    }
    if Leads(Links(d, dir), n, m) {
      var p: seq<int> :| Chain(Links(d, dir), p) && |p| > 1 && p[0] == n && p[|p| - 1] == m;
      ChainIsWalked(d, dir, p);
    }
  }

  /** The next considered node is the one that a `first` combinator asks. */
  ghost predicate Closest(e: Env, dir: Dir, base: bool, n: int, m: int)
    requires e.Node(n) && e.Node(m)
  {
    && Considered(e, dir, base, m) && Reaches(e.dom, dir, n, m)
    && forall k :: e.Node(k) && Reaches(e.dom, dir, n, k) && Reaches(e.dom, dir, k, m) ==> !Considered(e, dir, base, k)
  }

  lemma {:induction false} ReachesBelow(d: Dom, dir: Dir, n: int, m: int)
    requires 0 <= n < |d.parent| && Reaches(d, dir, n, m)
    ensures 0 <= m < n
    decreases n
  {
    if Next(d, dir, n) != m { ReachesBelow(d, dir, Next(d, dir, n), m); }
  }

  /** The walk over every node of a direction succeeds exactly when a considered node there does. */
  lemma {:induction false} WalkAny(e: Env, inner: Matcher, dir: Dir, base: bool, n: int)
    requires e.Node(n)
    ensures Walk(e, inner, dir, false, base, Next(e.dom, dir, n)) <==>
            exists m :: e.Node(m) && Considered(e, dir, base, m) && Reaches(e.dom, dir, n, m) && Accepts(e, inner, m)
    decreases n
  {
    var nx := Next(e.dom, dir, n);
    if nx != NONE {
      WalkAny(e, inner, dir, base, nx);
      assert Reaches(e.dom, dir, n, nx);
      assert forall m :: Reaches(e.dom, dir, n, m) <==> m == nx || Reaches(e.dom, dir, nx, m);
    }
  }

  lemma {:induction false} WalkFirst(e: Env, inner: Matcher, dir: Dir, base: bool, n: int)
    requires e.Node(n)
    ensures Walk(e, inner, dir, true, base, Next(e.dom, dir, n)) <==>
            exists m :: e.Node(m) && Closest(e, dir, base, n, m) && Accepts(e, inner, m)
    decreases n
  {
    var nx := Next(e.dom, dir, n);
    if nx != NONE {
      WalkFirst(e, inner, dir, base, nx);
      assert forall m :: Reaches(e.dom, dir, n, m) <==> m == nx || Reaches(e.dom, dir, nx, m);
      if Considered(e, dir, base, nx) {
        assert Reaches(e.dom, dir, n, nx);
        assert forall m :: e.Node(m) && Closest(e, dir, base, n, m) ==> m == nx;
        forall k | e.Node(k) && Reaches(e.dom, dir, n, k) && Reaches(e.dom, dir, k, nx) ensures false {
          ReachesBelow(e.dom, dir, k, nx);
          if k != nx { ReachesBelow(e.dom, dir, nx, k); }
        }
        assert Closest(e, dir, base, n, nx);
      } else {
        forall m | e.Node(m) ensures Closest(e, dir, base, n, m) <==> Closest(e, dir, base, nx, m) {
        }
      }
    }
  }

  lemma ClosestIsParent(e: Env, base: bool, n: int, m: int)
    requires e.Node(n) && e.Node(m)
    ensures Closest(e, ParentNode, base, n, m) <==> (e.dom.element[m] || base) && e.dom.parent[n] == m
  {
    var p := e.dom.parent[n];
    if p != NONE {
      if Reaches(e.dom, ParentNode, n, m) && m != p {
        assert Reaches(e.dom, ParentNode, p, m) && Reaches(e.dom, ParentNode, n, p);
        assert e.dom.element[p];
      }
      forall k | e.Node(k) && Reaches(e.dom, ParentNode, n, k) && Reaches(e.dom, ParentNode, k, p) ensures false {
        ReachesBelow(e.dom, ParentNode, k, p);
        if k != p { ReachesBelow(e.dom, ParentNode, p, k); }
      }
    }
  }

  /** In a document the closest considered ancestor is the parent or nothing; the closest
      element before a node is the one with no element in between. */
  lemma ClosestIsRelated(e: Env, rel: Relative, base: bool, n: int, m: int)
    requires e.Node(n) && e.Node(m) && rel.First()
    ensures Closest(e, rel.Dir(), base, n, m) <==> Related(e, rel, base, m, n)
  {
    hide Leads, Reaches;
    if rel.Child? {
      ClosestIsParent(e, base, n, m);
    } else {
      ReachesMeansLeads(e.dom, PreviousSibling, n, m);
      forall k | e.Node(k)
        ensures Reaches(e.dom, PreviousSibling, n, k) <==> Leads(e.dom.previous, n, k)
        ensures Reaches(e.dom, PreviousSibling, k, m) <==> Leads(e.dom.previous, k, m)
      {
        ReachesMeansLeads(e.dom, PreviousSibling, n, k);
        ReachesMeansLeads(e.dom, PreviousSibling, k, m);
      }
    }
  }

  lemma AnyIsRelated(e: Env, rel: Relative, base: bool, n: int)
    requires e.Node(n) && !rel.First()
    ensures forall m :: e.Node(m) ==>
              (Considered(e, rel.Dir(), base, m) && Reaches(e.dom, rel.Dir(), n, m) <==> Related(e, rel, base, m, n))
  {
    hide Leads, Reaches;
    forall m | e.Node(m)
      ensures Considered(e, rel.Dir(), base, m) && Reaches(e.dom, rel.Dir(), n, m) <==> Related(e, rel, base, m, n)
    {
      ReachesMeansLeads(e.dom, rel.Dir(), n, m);
    }
  }

  /** A combinator asks exactly the nodes its relation names. */
  lemma CombinatorMeaning(e: Env, inner: Matcher, rel: Relative, base: bool, name: nat, n: int)
    requires e.Node(n)
    ensures Accepts(e, Combinator(inner, rel.Dir(), rel.First(), base, name), n) <==>
            exists m :: e.Node(m) && Related(e, rel, base, m, n) && Accepts(e, inner, m)
  {
    hide Related, Closest, Walk;
    AcceptsIsWalk(e, Combinator(inner, rel.Dir(), rel.First(), base, name), n);
    if rel.First() {
      WalkFirst(e, inner, rel.Dir(), base, n);
      forall m | e.Node(m) ensures Closest(e, rel.Dir(), base, n, m) <==> Related(e, rel, base, m, n) {
        ClosestIsRelated(e, rel, base, n, m);
      }
    } else {
      WalkAny(e, inner, rel.Dir(), base, n);
      AnyIsRelated(e, rel, base, n);
    }
  }

  /** A page: the document 0, its root 1, and below the root an element 2, a text node 3 and an
      element 4; filter 0 describes the first element and filter 1 the second. */
  function TwoSiblings(): Env {
    Env(RawDom([NONE, 0, 1, 1, 1], [NONE, NONE, NONE, 2, 3], [false, true, true, false, true]),
        {(0, 2), (1, 4)}, One(0), false, false)
  }

  /** `a + b` and `a ~ b` find the second element across the text, and `a > b` does not. */
  lemma SiblingsAreFound()
    ensures var e := TwoSiblings();
            && SelectedBy(e, [Simple(0), Relation(Adjacent), Simple(1)], 4)
            && SelectedBy(e, [Simple(0), Relation(Sibling), Simple(1)], 4)
            && !SelectedBy(e, [Simple(0), Relation(Child), Simple(1)], 4)
  {
    hide Selects;
    var e := TwoSiblings();
    FirstIsSelected();
    assert Chain(e.dom.previous, [4, 3, 2]);
    assert Leads(e.dom.previous, 4, 2);
    forall k | e.Node(k) && Leads(e.dom.previous, 4, k) && Leads(e.dom.previous, k, 2) ensures !e.dom.element[k] {
      ReachesMeansLeads(e.dom, PreviousSibling, 4, k);
      ReachesMeansLeads(e.dom, PreviousSibling, k, 2);
      ReachesBelow(e.dom, PreviousSibling, 4, k);
      ReachesBelow(e.dom, PreviousSibling, k, 2);
    }
    assert Related(e, Adjacent, false, 2, 4) && Related(e, Sibling, false, 2, 4);
    forall rel: Relative
      ensures SelectedBy(e, [Simple(0), Relation(rel), Simple(1)], 4) <==>
              exists m :: e.Node(m) && Related(e, rel, false, m, 4) && Selects(e, false, Descendant, [Simple(0)], m)
    {
      PairIsSelected(e, rel, 4);
    }
  }

  lemma PairIsSelected(e: Env, rel: Relative, n: int)
    requires e.Node(n) && (1, n) in e.holds
    ensures SelectedBy(e, [Simple(0), Relation(rel), Simple(1)], n) <==>
            exists m :: e.Node(m) && Related(e, rel, false, m, n) && Selects(e, false, Descendant, [Simple(0)], m)
  {
    hide Related;
    var left := [Simple(0)];
    var tokens := left + [Relation(rel)];
    assert tokens + [Simple(1)] == [Simple(0), Relation(rel), Simple(1)];
    SelectsSimple(e, false, Descendant, tokens, 1, n);
    assert tokens[..1] == left && tokens[1] == Relation(rel);
    assert Selects(e, false, Descendant, tokens, n) <==>
           exists m :: e.Node(m) && Related(e, rel, false, m, n) && Selects(e, false, Descendant, left, m);
  }

  lemma FirstIsSelected()
    ensures forall m :: TwoSiblings().Node(m) ==>
              (Selects(TwoSiblings(), false, Descendant, [Simple(0)], m) <==> m == 2)
  {
    var e := TwoSiblings();
    assert [Simple(0)][..0] == [];
    assert Chain(e.dom.parent, [2, 1, 0]);
    assert Leads(e.dom.parent, 2, 0);
    assert Related(e, Descendant, true, 0, 2);
    assert e.Node(0) && IsContextNode(e.context, 0);
    assert Selects(e, false, Descendant, [], 2);
  }

  /** A matcher means the selection of its tokens, in every document and context. */
  ghost predicate Means(m: Matcher, leading: bool, implicit: Relative, tokens: seq<Token>) {
    forall e: Env, n: int :: e.Node(n) ==> (Accepts(e, m, n) <==> Selects(e, leading, implicit, tokens, n))
  }

  lemma FoundationMeans(leading: bool, implicit: Relative, one: nat, many: nat)
    ensures Means(All([Foundation(leading,
                                  Combinator(IsContext, implicit.Dir(), implicit.First(), true, one),
                                  Combinator(AmongContexts, implicit.Dir(), implicit.First(), true, many))]),
                  leading, implicit, [])
  {
    forall e: Env, n: int | e.Node(n)
      ensures var f := Foundation(leading,
                                  Combinator(IsContext, implicit.Dir(), implicit.First(), true, one),
                                  Combinator(AmongContexts, implicit.Dir(), implicit.First(), true, many));
              Accepts(e, All([f]), n) <==> Selects(e, leading, implicit, [], n)
    {
      var f := Foundation(leading,
                          Combinator(IsContext, implicit.Dir(), implicit.First(), true, one),
                          Combinator(AmongContexts, implicit.Dir(), implicit.First(), true, many));
      assert Accepts(e, All([f]), n) <==> Accepts(e, [f][0], n);
      var tested := if e.context.One? then IsContext else AmongContexts;
      CombinatorMeaning(e, tested, implicit, true, if e.context.One? then one else many, n);
      assert forall m :: e.Node(m) ==> (Accepts(e, tested, m) <==> IsContextNode(e.context, m));
    }
  }

  lemma FoundationIsWellFormed(leading: bool, implicit: Relative, one: nat, many: nat)
    requires one != many
    ensures var f := Foundation(leading,
                                Combinator(IsContext, implicit.Dir(), implicit.First(), true, one),
                                Combinator(AmongContexts, implicit.Dir(), implicit.First(), true, many));
            Names(f) == {one, many} && WellFormed(f)
  {
    assert Names(IsContext) == {} && Names(AmongContexts) == {};
    var a := Combinator(IsContext, implicit.Dir(), implicit.First(), true, one);
    var b := Combinator(AmongContexts, implicit.Dir(), implicit.First(), true, many);
    assert Names(a) == {one} && Names(b) == {many} && WellFormed(a) && WellFormed(b);
  }

  lemma RelationMeans(m: Matcher, leading: bool, implicit: Relative, tokens: seq<Token>, rel: Relative, name: nat)
    requires Means(m, leading, implicit, tokens)
    ensures Means(All([Combinator(m, rel.Dir(), rel.First(), false, name)]),
                  leading, implicit, tokens + [Relation(rel)])
  {
    var c := Combinator(m, rel.Dir(), rel.First(), false, name);
    forall e: Env, n: int | e.Node(n)
      ensures Accepts(e, All([c]), n) <==> Selects(e, leading, implicit, tokens + [Relation(rel)], n)
    {
      assert Accepts(e, All([c]), n) <==> Accepts(e, [c][0], n);
      CombinatorMeaning(e, m, rel, false, name, n);
      assert (tokens + [Relation(rel)])[..|tokens|] == tokens;
    }
  }

  lemma AllWithFilter(e: Env, ms: seq<Matcher>, id: nat, n: int)
    requires e.Node(n)
    ensures Accepts(e, All(ms + [Filter(id)]), n) <==> Accepts(e, All(ms), n) && (id, n) in e.holds
  {
    var more := ms + [Filter(id)];
    assert Accepts(e, Filter(id), n) <==> (id, n) in e.holds;
    assert forall i :: 0 <= i < |ms| ==> more[i] == ms[i];
    assert more[|ms|] == Filter(id);
  }

  lemma SelectsSimple(e: Env, leading: bool, implicit: Relative, tokens: seq<Token>, id: nat, n: int)
    requires e.Node(n)
    ensures Selects(e, leading, implicit, tokens + [Simple(id)], n) <==>
            (id, n) in e.holds && Selects(e, leading, implicit, tokens, n)
  {
    assert (tokens + [Simple(id)])[..|tokens|] == tokens;
  }

  lemma SimpleMeans(ms: seq<Matcher>, leading: bool, implicit: Relative, tokens: seq<Token>, id: nat)
    requires Means(All(ms), leading, implicit, tokens)
    ensures Means(All(ms + [Filter(id)]), leading, implicit, tokens + [Simple(id)])
  {
    hide Accepts, Selects;
    forall e: Env, n: int | e.Node(n)
      ensures Accepts(e, All(ms + [Filter(id)]), n) <==> Selects(e, leading, implicit, tokens + [Simple(id)], n)
    {
      AllWithFilter(e, ms, id, n);
      SelectsSimple(e, leading, implicit, tokens, id, n);
    }
  }

  /** elementMatcher drops the list around a single matcher. */
  function ElementMatcher(ms: seq<Matcher>): (m: Matcher)
    requires ms != []
    ensures Names(m) == Names(ms[0])
    ensures WellFormed(ms[0]) && (forall i :: 0 < i < |ms| ==> ms[i].Filter?) ==> WellFormed(m)
  {
    if |ms| > 1 then All(ms) else ms[0]
  }

  lemma ElementMatcherMeans(ms: seq<Matcher>, leading: bool, implicit: Relative, tokens: seq<Token>)
    requires ms != [] && Means(All(ms), leading, implicit, tokens)
    ensures Means(ElementMatcher(ms), leading, implicit, tokens)
  {
    if |ms| == 1 {
      assert forall e: Env, n: int :: e.Node(n) ==> (Accepts(e, All(ms), n) <==> Accepts(e, ms[0], n));
    }
  }

  /** A matcher accepts, in every document and context, what the tokens of a group select. */
  ghost predicate Describes(m: Matcher, tokens: seq<Token>)
    requires tokens != []
  {
    forall e: Env, n: int :: e.Node(n) ==> (Accepts(e, m, n) <==> SelectedBy(e, tokens, n))
  }

  lemma MeansSelection(m: Matcher, tokens: seq<Token>)
    requires tokens != []
    requires Means(m, tokens[0].Relation?, if tokens[0].Relation? then tokens[0].rel else Descendant,
                   if tokens[0].Relation? then tokens[1..] else tokens)
    ensures Describes(m, tokens)
  {
  }

  class Compiler {
    var done: nat

    constructor ()
      ensures done == 0
    {
      done := 0;
    }

    method AddCombinator(inner: Matcher, rel: Relative, base: bool) returns (m: Matcher)
      modifies this
      ensures m == Combinator(inner, rel.Dir(), rel.First(), base, old(done)) && done == old(done) + 1
      ensures Names(m) == Names(inner) + {old(done)}
      ensures WellFormed(inner) && old(done) !in Names(inner) ==> WellFormed(m)
    {
      m := Combinator(inner, rel.Dir(), rel.First(), base, done);
      done := done + 1;
    }

    /** The matchers of a compound so far: the chain to its left first, then base filters. */
    ghost predicate Compound(matchers: seq<Matcher>, from: nat, to: nat) {
      && matchers != [] && WellFormed(matchers[0]) && (forall j :: 0 < j < |matchers| ==> matchers[j].Filter?)
      && forall x :: x in Names(matchers[0]) ==> from <= x < to
    }

    /** One turn of the loop over the tokens. */
    method AddToken(matchers: seq<Matcher>, token: Token, leading: bool, implicit: Relative,
                    ghost before: seq<Token>, ghost from: nat)
      returns (more: seq<Matcher>)
      requires from <= done && Compound(matchers, from, done) && Means(All(matchers), leading, implicit, before)
      modifies this
      ensures old(done) <= done && Compound(more, from, done)
      ensures Means(All(more), leading, implicit, before + [token])
    {
      hide Accepts, Selects, Names, WellFormed, Means;
      match token
      case Relation(rel) =>
        ElementMatcherMeans(matchers, leading, implicit, before);
        RelationMeans(ElementMatcher(matchers), leading, implicit, before, rel, done);
        var c := AddCombinator(ElementMatcher(matchers), rel, false);
        more := [c];
      case Simple(id) =>
        SimpleMeans(matchers, leading, implicit, before, id);
        more := matchers + [Filter(id)];
    }

    /** The foundational matcher, with its two ways to the context. */
    method AddFoundation(leading: bool, implicit: Relative) returns (matchers: seq<Matcher>)
      modifies this
      ensures old(done) <= done && Compound(matchers, old(done), done)
      ensures Means(All(matchers), leading, implicit, [])
    {
      hide Accepts, Selects, Names, WellFormed, Means;
      var one := AddCombinator(IsContext, implicit, true);
      var many := AddCombinator(AmongContexts, implicit, true);
      matchers := [Foundation(leading, one, many)];
      FoundationIsWellFormed(leading, implicit, one.name, many.name);
      FoundationMeans(leading, implicit, one.name, many.name);
    }

    method MatcherFromTokens(tokens: seq<Token>) returns (m: Matcher)
      requires tokens != []
      modifies this
      ensures WellFormed(m)
      ensures done >= old(done) && forall x :: x in Names(m) ==> old(done) <= x < done
      ensures Describes(m, tokens)
    {
      hide Describes, Means, Accepts, WellFormed, Names;
      var leading := tokens[0].Relation?;
      var implicit := if leading then tokens[0].rel else Descendant;
      ghost var rest := if leading then tokens[1..] else tokens;
      var i := if leading then 1 else 0;
      ghost var k := 0;
      var matchers := AddFoundation(leading, implicit);
      while i < |tokens|
        invariant 0 <= k <= |rest| && i == |tokens| - |rest| + k
        invariant old(done) <= done && Compound(matchers, old(done), done)
        invariant Means(All(matchers), leading, implicit, rest[..k])
      {
        assert rest[..k + 1] == rest[..k] + [tokens[i]];
        matchers := AddToken(matchers, tokens[i], leading, implicit, rest[..k], old(done));
        i, k := i + 1, k + 1;
      }
      assert rest[..k] == rest;
      ElementMatcherMeans(matchers, leading, implicit, rest);
      m := ElementMatcher(matchers);
      MeansSelection(m, tokens);
    }

    /** One matcher per comma-separated group, the last group first. */
    method Compile(groups: seq<seq<Token>>) returns (ms: seq<Matcher>)
      requires forall g :: 0 <= g < |groups| ==> groups[g] != []
      modifies this
      ensures |ms| == |groups|
      ensures forall g :: 0 <= g < |ms| ==> WellFormed(ms[g])
      ensures forall f, g :: 0 <= f < g < |ms| ==> Names(ms[f]) !! Names(ms[g])
      ensures forall g :: 0 <= g < |ms| ==> Describes(ms[g], groups[|groups| - 1 - g])
    {
      hide Describes, Names, WellFormed;
      ms := [];
      var i := |groups|;
      while i > 0
        invariant 0 <= i <= |groups| && |ms| == |groups| - i
        invariant forall g :: 0 <= g < |ms| ==> WellFormed(ms[g]) && forall x :: x in Names(ms[g]) ==> x < done
        invariant forall f, g :: 0 <= f < g < |ms| ==> Names(ms[f]) !! Names(ms[g])
        invariant forall g :: 0 <= g < |ms| ==> Describes(ms[g], groups[|groups| - 1 - g])
      {
        i := i - 1;
        var m := MatcherFromTokens(groups[i]);
        ms := ms + [m];
      }
    }
  }

  ghost predicate SelectedByAny(e: Env, groups: seq<seq<Token>>, n: int)
    requires e.Node(n) && forall g :: 0 <= g < |groups| ==> groups[g] != []
  {
    exists g :: 0 <= g < |groups| && SelectedBy(e, groups[g], n)
  }

  ghost function SelectedElements(e: Env, groups: seq<seq<Token>>, seed: seq<int>): seq<int>
    requires forall g :: 0 <= g < |groups| ==> groups[g] != []
    requires forall i :: 0 <= i < |seed| ==> e.Node(seed[i])
  {
    if seed == [] then []
    else
      var rest := SelectedElements(e, groups, seed[..|seed| - 1]);
      if SelectedByAny(e, groups, seed[|seed| - 1]) then rest + [seed[|seed| - 1]] else rest
  }

  /** The answer keeps the order and the repetitions of the seed, and nothing but the selected nodes. */
  lemma {:induction false} SelectionKeepsOrder(e: Env, groups: seq<seq<Token>>, a: seq<int>, b: seq<int>)
    requires forall g :: 0 <= g < |groups| ==> groups[g] != []
    requires forall n :: n in a + b ==> e.Node(n)
    ensures SelectedElements(e, groups, a + b) == SelectedElements(e, groups, a) + SelectedElements(e, groups, b)
    ensures forall n :: e.Node(n) ==>
              SelectedElements(e, groups, [n]) == if SelectedByAny(e, groups, n) then [n] else []
    decreases |b|
  {
    hide SelectedByAny;
    forall n | e.Node(n)
      ensures SelectedElements(e, groups, [n]) == if SelectedByAny(e, groups, n) then [n] else []
    {
      assert [n][..0] == [];
    }
    if b == [] {
      assert a + b == a;
    } else {
      var c := b[..|b| - 1];
      assert b == c + [b[|b| - 1]];
      SelectionKeepsOrder(e, groups, a, c);
      assert (a + b)[..|a + b| - 1] == a + c;
    }
  }

  lemma {:induction false} CompiledSelection(e: Env, ms: seq<Matcher>, groups: seq<seq<Token>>, seed: seq<int>)
    requires |ms| == |groups| && forall g :: 0 <= g < |groups| ==> groups[g] != []
    requires forall i :: 0 <= i < |seed| ==> e.Node(seed[i])
    requires forall g :: 0 <= g < |ms| ==> Describes(ms[g], groups[|groups| - 1 - g])
    ensures Selected(e, ms, seed) == SelectedElements(e, groups, seed)
    decreases |seed|
  {
    if seed != [] {
      CompiledSelection(e, ms, groups, seed[..|seed| - 1]);
      var n := seed[|seed| - 1];
      if AcceptsAny(e, ms, n) {
        var j :| 0 <= j < |ms| && Accepts(e, ms[j], n);
        assert SelectedBy(e, groups[|groups| - 1 - j], n);
      }
      if SelectedByAny(e, groups, n) {
        var g :| 0 <= g < |groups| && SelectedBy(e, groups[g], n);
        assert Accepts(e, ms[|groups| - 1 - g], n);
      }
    }
  }

  /** A compiled selector: its matchers and the element counter that its closure keeps between runs. */
  datatype Compiled = Compiled(matchers: seq<Matcher>, cachedRuns: nat)

  const CACHE_LENGTH := 50

  /** Matchers for a list of groups that an outermost run can be started with. */
  ghost predicate CompiledFrom(ms: seq<Matcher>, groups: seq<seq<Token>>) {
    && |ms| == |groups|
    && (forall g :: 0 <= g < |groups| ==> groups[g] != [])
    && (forall g :: 0 <= g < |ms| ==> WellFormed(ms[g]))
    && (forall f, g :: 0 <= f < g < |ms| ==> Names(ms[f]) !! Names(ms[g]))
    && (forall g :: 0 <= g < |ms| ==> Describes(ms[g], groups[|groups| - 1 - g]))
  }

  datatype Query = Query(groups: seq<seq<Token>>, env: Env, seed: seq<int>)

  ghost predicate Askable(q: Query) {
    && (forall g :: 0 <= g < |q.groups| ==> q.groups[g] != [])
    && (forall i :: 0 <= i < |q.seed| ==> q.env.Node(q.seed[i]))
  }

  ghost predicate Answers(q: Query, results: seq<int>) {
    Askable(q) && results == SelectedElements(q.env, q.groups, q.seed)
  }

  /** Which selectors are remembered after one was asked for: at most fifty, the oldest first. */
  function Remembered(keys: seq<seq<seq<Token>>>, groups: seq<seq<Token>>): seq<seq<seq<Token>>> {
    if groups in keys then keys
    else if |keys| < CACHE_LENGTH then keys + [groups]
    else keys[1..] + [groups]
  }

  lemma RememberedIsDistinct(keys: seq<seq<seq<Token>>>, groups: seq<seq<Token>>)
    requires Distinct(keys) && |keys| <= CACHE_LENGTH
    ensures Distinct(Remembered(keys, groups)) && |Remembered(keys, groups)| <= CACHE_LENGTH
    ensures groups in Remembered(keys, groups)
    ensures forall k :: k in Remembered(keys, groups) <==>
                        k == groups || (k in keys && (groups in keys || |keys| < CACHE_LENGTH || k != keys[0]))
  {
    DistinctParts(keys, [groups]);
    if keys != [] {
      assert keys == [keys[0]] + keys[1..];
      DistinctParts([keys[0]], keys[1..]);
      DistinctParts(keys[1..], [groups]);
    }
  }

  /** The engine as a whole: the compiler, the slots and the cache of compiled selectors. */
  class Sizzle {
    const compiler: Compiler
    const engine: Engine
    var compilerCache: map<seq<seq<Token>>, Compiled>
    var keys: seq<seq<seq<Token>>>

    ghost predicate Valid()
      reads this, engine
    {
      && engine.Valid()
      && Distinct(keys) && |keys| <= CACHE_LENGTH
      && (forall groups :: groups in compilerCache <==> groups in keys)
      && forall groups :: groups in compilerCache ==> CompiledFrom(compilerCache[groups].matchers, groups)
    }

    constructor ()
      ensures Valid() && fresh(compiler) && fresh(engine) && keys == []
    {
      compiler := new Compiler();
      engine := new Engine();
      compilerCache, keys := map[], [];
    }

    /** A selector compiled before is not compiled again; the oldest one goes when there are too many. */
    method Compile(groups: seq<seq<Token>>) returns (compiled: Compiled)
      requires Valid() && forall g :: 0 <= g < |groups| ==> groups[g] != []
      modifies this, compiler
      ensures Valid() && CompiledFrom(compiled.matchers, groups)
      ensures keys == Remembered(old(keys), groups)
      ensures groups in old(keys) ==> compiled == old(compilerCache)[groups]
      ensures groups in keys && compilerCache[groups] == compiled
      ensures forall k :: k in keys && k != groups ==> k in old(keys) && compilerCache[k] == old(compilerCache)[k]
    {
      hide CompiledFrom, Distinct;
      RememberedIsDistinct(keys, groups);
      if groups in compilerCache {
        return compilerCache[groups];
      }
      var ms := CompileAnew(groups);
      compiled := Compiled(ms, 0);
      keys := keys + [groups];
      if |keys| > CACHE_LENGTH {
        compilerCache := compilerCache - {keys[0]};
        keys := keys[1..];
      }
      compilerCache := compilerCache[groups := compiled];
      assert keys == Remembered(old(keys), groups);
    }

    method CompileAnew(groups: seq<seq<Token>>) returns (ms: seq<Matcher>)
      requires forall g :: 0 <= g < |groups| ==> groups[g] != []
      modifies compiler
      ensures CompiledFrom(ms, groups)
    {
      ms := compiler.Compile(groups);
    }

    /** Compiling, or not, and then matching with the shared slots selects what the selector
        declares, whatever earlier runs have left in the slots and the counters. */
    method Select(q: Query) returns (results: seq<int>)
      requires Valid() && Askable(q)
      modifies this, compiler, engine
      ensures Valid() && Answers(q, results) && keys == Remembered(old(keys), q.groups)
    {
      hide Distinct, CompiledFrom, Answers, Remembered;
      var compiled := Compile(q.groups);
      var runs;
      results, runs := RunCompiled(compiled, q);
      compilerCache := compilerCache[q.groups := compiled.(cachedRuns := runs)];
    }

    method RunCompiled(compiled: Compiled, q: Query) returns (results: seq<int>, runs: nat)
      requires engine.Valid() && Askable(q) && CompiledFrom(compiled.matchers, q.groups)
      modifies engine
      ensures engine.Valid() && Answers(q, results)
    {
      hide Describes, WellFormed, Names;
      results, runs := engine.SuperMatcher(q.env, compiled.matchers, q.seed, compiled.cachedRuns);
      CompiledSelection(q.env, compiled.matchers, q.groups, q.seed);
    }
  }

  /** Any number of queries, over documents that may change in between: each selects what its
      selector declares. */
  method Session(queries: seq<Query>) returns (results: seq<seq<int>>)
    requires forall q :: q in queries ==> Askable(q)
    ensures |results| == |queries|
    ensures forall k :: 0 <= k < |queries| ==> Answers(queries[k], results[k])
  {
    hide Answers, Askable;
    var sizzle := new Sizzle();
    results := [];
    var i := 0;
    while i < |queries|
      invariant 0 <= i <= |queries| && |results| == i
      invariant fresh(sizzle) && fresh(sizzle.compiler) && fresh(sizzle.engine) && sizzle.Valid()
      invariant forall k :: 0 <= k < i ==> Answers(queries[k], results[k])
    {
      var selected := sizzle.Select(queries[i]);
      results := results + [selected];
      i := i + 1;
    }
  }
}
