/** `:nth-child` and its relatives: positions found by resuming from what earlier tests remembered. */
module ChildPositions {

  datatype Kind = Nth | NthLast | First | Last | Only

  /** The child lists of a page; node names are in lower case. */
  datatype RawPage = RawPage(children: map<int, seq<int>>, element: set<int>, tag: map<int, string>) {
    ghost predicate Valid() {
      && (forall p, q, i, j :: Child(p, i) && Child(q, j) && children[p][i] == children[q][j] ==> p == q && i == j)
      && (forall p, i :: p in children && 0 <= i < |children[p]| ==> children[p][i] in tag)
    }

    ghost predicate Child(p: int, i: int) {
      p in children && 0 <= i < |children[p]|
    }
  }

  type Page = p: RawPage | p.Valid() witness RawPage(map[], {}, map[])

  predicate Counted(g: Page, ofType: bool, name: string, n: int) {
    if ofType then n in g.tag && g.tag[n] == name else n in g.element
  }

  /** How many of the given nodes count. */
  function Count(g: Page, ofType: bool, name: string, nodes: seq<int>): nat {
    if nodes == [] then 0
    else Count(g, ofType, name, nodes[..|nodes| - 1]) + if Counted(g, ofType, name, nodes[|nodes| - 1]) then 1 else 0
  }

  lemma {:induction false} CountAppend(g: Page, ofType: bool, name: string, a: seq<int>, b: seq<int>)
    ensures Count(g, ofType, name, a + b) == Count(g, ofType, name, a) + Count(g, ofType, name, b)
    decreases |b|
  {
    if b == [] {
      assert a + b == a;
    } else {
      assert (a + b)[..|a + b| - 1] == a + b[..|b| - 1];
      CountAppend(g, ofType, name, a, b[..|b| - 1]);
    }
  }

  /** The true 1-based position among the counted siblings, from the front or from the back. */
  function Position(g: Page, ofType: bool, name: string, forward: bool, kids: seq<int>, i: nat): nat
    requires i < |kids|
  {
    Count(g, ofType, name, if forward then kids[..i + 1] else kids[i..])
  }

  lemma NothingCounted(g: Page, ofType: bool, name: string)
    ensures Count(g, ofType, name, []) == 0
  {
  }

  lemma PositionStep(g: Page, ofType: bool, name: string, kids: seq<int>, i: nat)
    requires i < |kids|
    ensures Position(g, ofType, name, true, kids, i) ==
            Count(g, ofType, name, kids[..i]) + (if Counted(g, ofType, name, kids[i]) then 1 else 0)
    ensures Position(g, ofType, name, false, kids, i) ==
            Count(g, ofType, name, kids[i + 1..]) + (if Counted(g, ofType, name, kids[i]) then 1 else 0)
  {
    assert kids[..i + 1][..i] == kids[..i];
    assert kids[i..] == [kids[i]] + kids[i + 1..];
    CountAppend(g, ofType, name, [kids[i]], kids[i + 1..]);
  }

  /** The `%` of the source, whose result takes the sign of the dividend. */
  function Remainder(a: int, b: int): int
    requires b != 0
  {
    if a >= 0 then a % b else -((-a) % b)
  }

  /** The closing test: equality, or a zero remainder (never a zero divisor) and a quotient that is not negative. */
  predicate InCycle(position: int, first: int, last: int) {
    var diff := position - last;
    || diff == first
    || (first != 0 && Remainder(diff, first) == 0 && (diff == 0 || (diff > 0) == (first > 0)))
  }

  lemma SameSign(first: int, n: int)
    requires n > 0
    ensures first > 0 ==> first * n > 0
    ensures first < 0 ==> first * n < 0
  {
  }

  lemma MultipleDivides(d: int, first: int, n: int)
    requires first != 0 && d == first * n
    ensures d % first == 0
  {
    var k := n - d / first;
    assert d % first == first * k;
    if k > 1 { SameSign(first, k - 1); }
    if k < -1 { SameSign(first, -k - 1); }
  }

  lemma CycleCount(diff: int, first: int) returns (n: nat)
    requires first != 0 && Remainder(diff, first) == 0 && (diff == 0 || (diff > 0) == (first > 0))
    ensures diff == first * n
  {
    var q := if diff >= 0 then diff / first else -((-diff) / first);
    assert diff == first * q;
    if q < 0 { SameSign(first, -q); }
    n := q;
  }

  lemma CycleTest(diff: int, first: int, n: nat)
    requires diff == first * n
    ensures diff == first || (first != 0 && Remainder(diff, first) == 0 && (diff == 0 || (diff > 0) == (first > 0)))
  {
    if first != 0 {
      MultipleDivides(diff, first, n);
      NegatedMultiple(diff, first, n);
      if n > 0 { SameSign(first, n); }
    }
  }

  lemma NegatedMultiple(d: int, first: int, n: int)
    requires first != 0 && d == first * n
    ensures (-d) % first == 0
  {
    var k := -n;
    assert -d == first * k;
    MultipleDivides(-d, first, k);
  }

  /** Section 6.6.5.2 of W3C Selectors Level 3: position an+b for some n that is not negative. */
  lemma CycleMeaning(position: int, first: int, last: int)
    ensures InCycle(position, first, last) <==> exists n: nat :: position == first * n + last
  {
    var diff := position - last;
    if InCycle(position, first, last) {
      var n := 1;
      if diff != first { n := CycleCount(diff, first); }
      assert position == first * n + last;
    }
    if n: nat :| position == first * n + last {
      CycleTest(diff, first, n);
    }
  }

  /** A sibling that matters for a child: an element, or for the -of-type forms a node of its name. */
  ghost predicate Like(g: Page, ofType: bool, me: int, n: int)
    requires me in g.tag
  {
    if ofType then n in g.tag && g.tag[n] == g.tag[me] else n in g.element
  }

  /** The indices of such siblings, the child included, up to it or from it on. */
  ghost function Siblings(g: Page, ofType: bool, forward: bool, kids: seq<int>, i: nat): set<int>
    requires i < |kids| && kids[i] in g.tag
  {
    set k | 0 <= k < |kids| && (if forward then k <= i else i <= k) && Like(g, ofType, kids[i], kids[k])
  }

  /** What each pseudo-class declares about a child. */
  ghost predicate Declared(g: Page, kind: Kind, ofType: bool, first: int, last: int, kids: seq<int>, i: nat)
    requires i < |kids| && kids[i] in g.tag
  {
    match kind
    case First => forall k :: 0 <= k < i ==> !Like(g, ofType, kids[i], kids[k])
    case Last => forall k :: i < k < |kids| ==> !Like(g, ofType, kids[i], kids[k])
    case Only => forall k :: 0 <= k < |kids| && k != i ==> !Like(g, ofType, kids[i], kids[k])
    case Nth => exists n: nat :: |Siblings(g, ofType, true, kids, i)| == first * n + last
    case NthLast => exists n: nat :: |Siblings(g, ofType, false, kids, i)| == first * n + last
  }

  ghost function CountedIn(g: Page, ofType: bool, name: string, kids: seq<int>, low: nat, high: nat): set<int>
    requires low <= high <= |kids|
  {
    set k | low <= k < high && Counted(g, ofType, name, kids[k])
  }

  lemma OneMoreCounted(g: Page, ofType: bool, name: string, kids: seq<int>, low: nat, high: nat)
    requires low < high <= |kids|
    ensures |CountedIn(g, ofType, name, kids, low, high)| ==
            |CountedIn(g, ofType, name, kids, low, high - 1)|
            + if Counted(g, ofType, name, kids[high - 1]) then 1 else 0
  {
    hide Counted;
    var found, fewer := CountedIn(g, ofType, name, kids, low, high), CountedIn(g, ofType, name, kids, low, high - 1);
    if Counted(g, ofType, name, kids[high - 1]) { assert found == fewer + {high - 1}; } else { assert found == fewer; }
  }

  lemma {:induction false} CountIsSize(g: Page, ofType: bool, name: string, kids: seq<int>, low: nat, high: nat)
    requires low <= high <= |kids|
    ensures Count(g, ofType, name, kids[low..high]) == |CountedIn(g, ofType, name, kids, low, high)|
    decreases high
  {
    hide Counted;
    if low == high {
      assert kids[low..high] == [] && CountedIn(g, ofType, name, kids, low, high) == {};
    } else {
      hide CountedIn;
      CountIsSize(g, ofType, name, kids, low, high - 1);
      OneMoreCounted(g, ofType, name, kids, low, high);
      assert kids[low..high][..high - low - 1] == kids[low..high - 1];
    }
  }

  /** The position that is counted is the number of the siblings up to the child. */
  lemma PositionIsSize(g: Page, ofType: bool, forward: bool, kids: seq<int>, i: nat)
    requires i < |kids| && kids[i] in g.tag
    ensures Position(g, ofType, g.tag[kids[i]], forward, kids, i) == |Siblings(g, ofType, forward, kids, i)|
  {
    var name := g.tag[kids[i]];
    if forward {
      CountIsSize(g, ofType, name, kids, 0, i + 1);
      assert kids[0..i + 1] == kids[..i + 1];
      assert Siblings(g, ofType, forward, kids, i) == CountedIn(g, ofType, name, kids, 0, i + 1);
    } else {
      CountIsSize(g, ofType, name, kids, i, |kids|);
      assert kids[i..|kids|] == kids[i..];
      assert Siblings(g, ofType, forward, kids, i) == CountedIn(g, ofType, name, kids, i, |kids|);
    }
  }

  class ChildFilter {
    var dirruns: nat
    /** On a parent: run, index in its child list, position of that child. */
    var outer: map<int, (nat, nat, nat)>
    /** On a child: run, position from the back. */
    var own: map<int, (nat, nat)>

    ghost predicate Valid(g: Page)
      reads this
    {
      && (forall p :: p in outer ==>
            && outer[p].0 <= dirruns
            && (outer[p].0 == dirruns && p in g.children ==>
                  && outer[p].1 < |g.children[p]|
                  && outer[p].2 == Position(g, false, "", true, g.children[p], outer[p].1)))
      && (forall n :: n in own ==> own[n].0 <= dirruns)
      && (forall p, i :: g.Child(p, i) && g.children[p][i] in own && own[g.children[p][i]].0 == dirruns ==>
            own[g.children[p][i]].1 == Position(g, false, "", false, g.children[p], i))
    }

    constructor (ghost g: Page)
      ensures Valid(g)
    {
      dirruns, outer, own := 0, map[], map[];
    }

    /** A new run may look at a different page: nothing remembered carries over. */
    method NewRun(ghost before: Page, ghost g: Page)
      requires Valid(before)
      modifies this
      ensures Valid(g) && dirruns == old(dirruns) + 1 && outer == old(outer) && own == old(own)
    {
      dirruns := dirruns + 1;
    }

    /** Seek a child from the remembered index on, wrapping once to the first child. */
    method Seek(g: Page, p: int, i: nat) returns (diff: nat)
      requires Valid(g) && g.Child(p, i) && g.children[p][i] in g.element
      modifies this
      ensures Valid(g) && dirruns == old(dirruns) && own == old(own)
      ensures diff == Position(g, false, "", true, g.children[p], i)
    {
      hide Count;
      NothingCounted(g, false, "");
      var kids := g.children[p];
      var nodeIndex: int := 0;
      diff := 0;
      if p in outer && outer[p].0 == dirruns {
        nodeIndex, diff := outer[p].1, outer[p].2;
      }
      var node := if nodeIndex != 0 then nodeIndex else -1;
      var start := true;
      while true
        invariant -1 <= node < |kids| && (node != -1 ==> node == nodeIndex)
        invariant node != -1 ==> diff == Position(g, false, "", true, kids, node)
        invariant start || -1 < node < i
        invariant Valid(g) && dirruns == old(dirruns) && own == old(own)
        decreases start, if node == -1 then 0 else |kids| - node
      {
        nodeIndex := nodeIndex + 1;
        node := if node != -1 && node + 1 < |kids| then node + 1 else -1;
        if node == -1 {
          diff, nodeIndex := 0, 0;
          start := false;
          node := 0;
        }
        PositionStep(g, false, "", kids, node);
        assert kids[..node] == if node == 0 then [] else kids[..(node - 1) + 1];
        if kids[node] in g.element {
          diff := diff + 1;
          if node == i {
            outer := outer[p := (dirruns, nodeIndex, diff)];
            return;
          }
        }
      }
    }

    method Remember(g: Page, p: int, i: nat, diff: nat)
      requires Valid(g) && g.Child(p, i) && diff == Position(g, false, "", false, g.children[p], i)
      modifies this
      ensures Valid(g) && dirruns == old(dirruns) && outer == old(outer)
      ensures own == old(own)[g.children[p][i] := (dirruns, diff)]
    {
      own := own[g.children[p][i] := (dirruns, diff)];
    }

    /** Count from one end up to the child, remembering every position passed when that is allowed. */
    method CountUpTo(g: Page, ofType: bool, name: string, forward: bool, useCache: bool, p: int, i: nat)
      returns (diff: nat)
      requires Valid(g) && g.Child(p, i) && Counted(g, ofType, name, g.children[p][i])
      requires useCache ==> !forward && !ofType
      modifies this
      ensures Valid(g) && dirruns == old(dirruns)
      ensures diff == Position(g, ofType, name, forward, g.children[p], i)
    {
      hide Count;
      NothingCounted(g, ofType, name);
      var kids := g.children[p];
      var node := if forward then 0 else |kids| - 1;
      diff := 0;
      assert kids[..0] == [] && kids[|kids|..] == [];
      while true
        invariant if forward then 0 <= node <= i else i <= node < |kids|
        invariant diff == Count(g, ofType, name, if forward then kids[..node] else kids[node + 1..])
        invariant Valid(g) && dirruns == old(dirruns)
        decreases if forward then i - node else node - i
      {
        PositionStep(g, ofType, name, kids, node);
        if Counted(g, ofType, name, kids[node]) {
          diff := diff + 1;
          if useCache {
            CountedAlike(g, name, kids[node..]);
            Remember(g, p, node, diff);
          }
          if node == i {
            return;
          }
        }
        node := if forward then node + 1 else node - 1;
      }
    }

    method Matches(g: Page, kind: Kind, ofType: bool, xml: bool, first: int, last: int, p: int, i: nat)
      returns (verdict: bool)
      requires Valid(g) && g.Child(p, i) && g.children[p][i] in g.element
      modifies this
      ensures Valid(g) && dirruns == old(dirruns)
      ensures verdict <==> Declared(g, kind, ofType, first, last, g.children[p], i)
    {
      var kids := g.children[p];
      var name := g.tag[kids[i]];
      if kind.Nth? || kind.NthLast? {
        var forward := kind.Nth?;
        PositionIsSize(g, ofType, forward, kids, i);
        if first == 1 && last == 0 {
          assert Position(g, ofType, name, forward, kids, i) == 1 * Position(g, ofType, name, forward, kids, i) + 0;
          return true;
        }
        var useCache := !xml && !ofType;
        var diff: int;
        if forward && useCache {
          diff := Seek(g, p, i);
          CountedAlike(g, name, kids[..i + 1]);
        } else if useCache && kids[i] in own && own[kids[i]].0 == dirruns {
          diff := own[kids[i]].1;
          CountedAlike(g, name, kids[i..]);
        } else {
          diff := CountUpTo(g, ofType, name, forward, useCache, p, i);
        }
        CycleMeaning(diff, first, last);
        verdict := InCycle(diff, first, last);
      } else {
        verdict := Alone(g, kind, ofType, p, i);
      }
    }

    /** :first-, :last- and :only-: no counted sibling on one side, or on either. */
    method Alone(g: Page, kind: Kind, ofType: bool, p: int, i: nat) returns (verdict: bool)
      requires g.Child(p, i) && !kind.Nth? && !kind.NthLast?
      ensures verdict <==> Declared(g, kind, ofType, 0, 0, g.children[p], i)
    {
      var kids := g.children[p];
      var name := g.tag[kids[i]];
      var backwards := !kind.Last?;
      var again := kind.Only?;
      while true
        invariant kind.First? ==> backwards && !again
        invariant kind.Last? ==> !backwards && !again
        invariant kind.Only? ==> again == backwards
        invariant kind.Only? && !backwards ==> forall k :: 0 <= k < i ==> !Counted(g, ofType, name, kids[k])
        decreases again
      {
        var node: int := i;
        while true
          invariant if backwards then 0 <= node <= i else i <= node < |kids|
          invariant if backwards then forall k :: node <= k < i ==> !Counted(g, ofType, name, kids[k])
                    else forall k :: i < k <= node ==> !Counted(g, ofType, name, kids[k])
          decreases if backwards then node else |kids| - node
        {
          node := if backwards then node - 1 else node + 1;
          if node < 0 || node >= |kids| {
            break;
          }
          if Counted(g, ofType, name, kids[node]) {
            return false;
          }
        }
        if !again {
          return true;
        }
        backwards, again := false, false;
      }
    }
  }

  /** Without a type the name plays no part. */
  lemma {:induction false} CountedAlike(g: Page, name: string, nodes: seq<int>)
    ensures Count(g, false, name, nodes) == Count(g, false, "", nodes)
    decreases |nodes|
  {
    if nodes != [] { CountedAlike(g, name, nodes[..|nodes| - 1]); }
  }

  datatype Test = Test(kind: Kind, ofType: bool, xml: bool, first: int, last: int, parent: int, index: nat)

  ghost predicate Testable(g: Page, t: Test) {
    g.Child(t.parent, t.index) && g.children[t.parent][t.index] in g.element
  }

  /** A run of the selector engine over a page that stays the same meanwhile. */
  datatype TestRun = TestRun(page: Page, tests: seq<Test>)

  ghost predicate Answered(g: Page, tests: seq<Test>, verdicts: seq<bool>) {
    && |verdicts| == |tests|
    && forall k :: 0 <= k < |tests| ==>
         var t := tests[k];
         && Testable(g, t)
         && (verdicts[k] <==> Declared(g, t.kind, t.ofType, t.first, t.last, g.children[t.parent], t.index))
  }

  /** Any number of tests in one run, in any order: what earlier tests remembered never shows. */
  method TestAll(filter: ChildFilter, g: Page, tests: seq<Test>) returns (verdicts: seq<bool>)
    requires filter.Valid(g) && forall t :: t in tests ==> Testable(g, t)
    modifies filter
    ensures filter.Valid(g) && Answered(g, tests, verdicts)
  {
    hide Declared;
    verdicts := [];
    var i := 0;
    while i < |tests|
      invariant 0 <= i <= |tests| && filter.Valid(g) && Answered(g, tests[..i], verdicts)
    {
      var t := tests[i];
      assert Testable(g, t);
      var verdict := filter.Matches(g, t.kind, t.ofType, t.xml, t.first, t.last, t.parent, t.index);
      verdicts := verdicts + [verdict];
      i := i + 1;
    }
    assert tests[..i] == tests;
  }

  /** Any number of runs over pages that may change between them, all with what the runs before
      left behind on the nodes. */
  method TestRuns(runs: seq<TestRun>) returns (verdicts: seq<seq<bool>>)
    requires forall r :: r in runs ==> forall t :: t in r.tests ==> Testable(r.page, t)
    ensures |verdicts| == |runs|
    ensures forall k :: 0 <= k < |runs| ==> Answered(runs[k].page, runs[k].tests, verdicts[k])
  {
    hide Answered, Testable;
    ghost var page: Page := RawPage(map[], {}, map[]);
    var filter := new ChildFilter(page);
    verdicts := [];
    var i := 0;
    while i < |runs|
      invariant 0 <= i <= |runs| && |verdicts| == i && fresh(filter) && filter.Valid(page)
      invariant forall k :: 0 <= k < i ==> Answered(runs[k].page, runs[k].tests, verdicts[k])
    {
      assert runs[i] in runs;
      filter.NewRun(page, runs[i].page);
      page := runs[i].page;
      var answers := TestAll(filter, runs[i].page, runs[i].tests);
      verdicts := verdicts + [answers];
      i := i + 1;
    }
  }
}
