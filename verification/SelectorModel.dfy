/**
 The document, the compiled matcher chain and its uncached meaning.

 Nodes are numbered in document order, so the parent and the previous sibling of a
 node always have a smaller number; NONE stands for a null link.
 */
module SelectorModel {

  const NONE := -1

  datatype Dir = ParentNode | PreviousSibling

  datatype RawDom = RawDom(parent: seq<int>, previous: seq<int>, element: seq<bool>) {
    ghost predicate Valid() {
      && |parent| == |previous| == |element|
      && (forall n :: 0 <= n < |parent| ==> NONE <= parent[n] < n && NONE <= previous[n] < n)
      // siblings share their parent
      && (forall n :: 0 <= n < |parent| && previous[n] != NONE ==> parent[previous[n]] == parent[n])
      // a document or a fragment is never inside another node
      && (forall n :: 0 <= n < |parent| && parent[n] != NONE && !element[parent[n]] ==> parent[parent[n]] == NONE)
    }
  }

  type Dom = d: RawDom | d.Valid() witness RawDom([], [], [])

  function Next(d: Dom, dir: Dir, n: int): (r: int)
    requires 0 <= n < |d.parent|
    ensures NONE <= r < n
  {
    if dir.ParentNode? then d.parent[n] else d.previous[n]
  }

  /** The combinators of a selector; the table of directions at Expr.relative. */
  datatype Relative = Child | Descendant | Adjacent | Sibling {
    function Dir(): Dir { if Child? || Descendant? then ParentNode else PreviousSibling }
    predicate First() { Child? || Adjacent? }
  }

  datatype Context = One(node: int) | Many(nodes: seq<int>)

  /** What stays fixed during one outermost run: the document, the verdicts of the base
      filters, the context, and whether it differs from the outermost context. */
  datatype Env = Env(dom: Dom, holds: set<(nat, int)>, context: Context, foreign: bool, xml: bool) {
    predicate Node(n: int) { 0 <= n < |dom.parent| }
  }

  datatype Matcher =
    | Filter(id: nat)
    | IsContext
    | AmongContexts
    | Foundation(leading: bool, one: Matcher, many: Matcher)
    | Combinator(inner: Matcher, dir: Dir, first: bool, base: bool, name: nat)
    | All(matchers: seq<Matcher>)

  predicate Considered(e: Env, dir: Dir, base: bool, n: int)
    requires e.Node(n)
  {
    e.dom.element[n] || (base && dir.ParentNode?)
  }

  /** The verdict of a matcher when nothing is remembered. */
  ghost predicate Accepts(e: Env, m: Matcher, n: int)
    requires e.Node(n)
    decreases m, 0, 0
  {
    match m
    case Filter(id) => (id, n) in e.holds
    case IsContext => e.context == One(n)
    case AmongContexts => e.context.Many? && n in e.context.nodes
    case Foundation(leading, one, many) =>
      || (!leading && (e.xml || e.foreign))
      || (if e.context.One? then Accepts(e, one, n) else Accepts(e, many, n))
    case Combinator(inner, dir, first, base, _) => Walk(e, inner, dir, first, base, Next(e.dom, dir, n))
    case All(ms) => forall i :: 0 <= i < |ms| ==> Accepts(e, ms[i], n)
  }

  /** The verdict of the walk that is about to look at node n (or has run out of nodes). */
  ghost predicate Walk(e: Env, inner: Matcher, dir: Dir, first: bool, base: bool, n: int)
    requires n == NONE || e.Node(n)
    decreases inner, 1, n + 1
  {
    n != NONE &&
    if !Considered(e, dir, base, n) then Walk(e, inner, dir, first, base, Next(e.dom, dir, n))
    else Accepts(e, inner, n) || (!first && Walk(e, inner, dir, first, base, Next(e.dom, dir, n)))
  }

  ghost function Names(m: Matcher): set<nat> {
    match m
    case Foundation(_, one, many) => Names(one) + Names(many)
    case Combinator(inner, _, _, _, name) => Names(inner) + {name}
    case All(ms) => if ms == [] then {} else Names(ms[0])
    case _ => {}
  }

  /** The shape the compiler produces: names never repeat along a chain, and every
      matcher of a list but the first one is a base filter. */
  ghost predicate WellFormed(m: Matcher) {
    match m
    case Foundation(_, one, many) => WellFormed(one) && WellFormed(many) && Names(one) !! Names(many)
    case Combinator(inner, _, _, _, name) => WellFormed(inner) && name !in Names(inner)
    case All(ms) => |ms| > 0 && WellFormed(ms[0]) && forall i :: 0 < i < |ms| ==> ms[i].Filter?
    case _ => true
  }
}
