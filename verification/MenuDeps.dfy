/** The propagation of dependencies and `visible if` conditions down the menu tree, and what it means for values. */
module MenuDeps {
  import opened Wrappers
  import opened KconfigTree
  import opened MenuForest
  import opened KconfigReload

  // ----- Simplified expressions -----

  function MakeAnd(a: Expr, b: Expr): Expr {
    if a == Y then b else if b == Y then a else if a == N || b == N then N else And(a, b)
  }

  function MakeOr(a: Expr, b: Expr): Expr {
    if a == N then b else if b == N then a else if a == Y || b == Y then Y else Or(a, b)
  }

  /** Values of all symbols, choices and relations, whatever they come from */
  datatype Valuation = Valuation(leaf: Leaf -> Tri, mode: ChoiceId -> Tri, rel: (RelOp, Leaf, Leaf) -> Tri)

  predicate Proper(v: Valuation) { v.leaf(Const("y")) == 2 && v.leaf(Const("n")) == 0 }

  /** The value of an expression without short-circuits */
  function Worth(v: Valuation, x: Expr): Tri {
    match x
    case Ref(leaf) => v.leaf(leaf)
    case Mode(c) => v.mode(c)
    case And(l, r) => Min(Worth(v, l), Worth(v, r))
    case Or(l, r) => Max(Worth(v, l), Worth(v, r))
    case Not(y) => 2 - Worth(v, y)
    case Rel(op, a, b) => v.rel(op, a, b)
  }

  lemma ConstantsWorth(v: Valuation)
    requires Proper(v)
    ensures Worth(v, Y) == 2 && Worth(v, N) == 0
  {
  }

  /** The simplifications change no value. */
  lemma AndWorth(v: Valuation, a: Expr, b: Expr)
    requires Proper(v)
    ensures Worth(v, MakeAnd(a, b)) == Min(Worth(v, a), Worth(v, b))
  {
    ConstantsWorth(v);
    assert Worth(v, And(a, b)) == Min(Worth(v, a), Worth(v, b));
    if a == Y {
    } else if b == Y {
    } else if a == N || b == N {
      assert MakeAnd(a, b) == N;
    } else {
      assert MakeAnd(a, b) == And(a, b);
    }
  }

  lemma OrWorth(v: Valuation, a: Expr, b: Expr)
    requires Proper(v)
    ensures Worth(v, MakeOr(a, b)) == Max(Worth(v, a), Worth(v, b))
  {
    ConstantsWorth(v);
    assert Worth(v, Or(a, b)) == Max(Worth(v, a), Worth(v, b));
    if a == N {
    } else if b == N {
    } else if a == Y || b == Y {
      assert MakeOr(a, b) == Y;
    } else {
      assert MakeOr(a, b) == Or(a, b);
    }
  }

  /** The valuation holds all recorded answers. */
  ghost predicate Extends(v: Valuation, t: Tree, u: Users, m: Answers) {
    && (forall a :: LeafTri(t, m, a).Some? ==> LeafTri(t, m, a).value == v.leaf(a))
    && (forall c :: ModeVal(t, u, m, c).Some? ==> ModeVal(t, u, m, c).value == v.mode(c))
    && (forall op, a, b :: ExprVal(t, u, m, Rel(op, a, b)).Some? ==> ExprVal(t, u, m, Rel(op, a, b)).value == v.rel(op, a, b))
  }

  /** Evaluation with short-circuits never disagrees: an operand that was not looked at cannot change the value. */
  lemma {:induction false} ValueIsWorth(v: Valuation, t: Tree, u: Users, m: Answers, x: Expr)
    requires Extends(v, t, u, m) && ExprVal(t, u, m, x).Some?
    ensures ExprVal(t, u, m, x).value == Worth(v, x)
  {
    match x
    case And(l, r) => {
      ValueIsWorth(v, t, u, m, l);
      if ExprVal(t, u, m, l).value != 0 { ValueIsWorth(v, t, u, m, r); }
    }
    case Or(l, r) => {
      ValueIsWorth(v, t, u, m, l);
      if ExprVal(t, u, m, l).value != 2 { ValueIsWorth(v, t, u, m, r); }
    }
    case Not(y) => { ValueIsWorth(v, t, u, m, y); }
    case _ => {}
  }

  // ----- Propagation -----

  function EachAnd(adds: seq<Property>, dep: Expr): (r: seq<Property>)
    ensures |r| == |adds|
  {
    seq(|adds|, i requires 0 <= i < |adds| => adds[i].(cond := MakeAnd(adds[i].cond, dep)))
  }

  /** What `_propagate_deps` makes of a child's expressions */
  function Propagated(item: Entry, p: Props, base: Expr, visibleIf: Expr): Props {
    var dep := MakeAnd(p.dep, base);
    if item.SymbolEntry? || item.ChoiceEntry? then
      Props(dep, if p.prompt.None? then None else Some(MakeAnd(p.prompt.value, MakeAnd(visibleIf, dep))), EachAnd(p.adds, dep))
    else
      Props(dep, if p.prompt.None? then None else Some(MakeAnd(p.prompt.value, dep)), p.adds)
  }

  /** What a node passes on as the dependencies of its children: a choice passes on itself. */
  function BaseOf(item: Entry, p: Props): Expr { if item.ChoiceEntry? then Mode(item.choice) else p.dep }

  function VisibleBelow(a: Attributes, id: Id, visibleIf: Expr): Expr {
    if a.Item(id).MenuEntry? then MakeAnd(visibleIf, a.VisibleIf(id)) else visibleIf
  }

  /** In `z` every node of the forest has its final expressions, computed from the original ones in `a`. */
  predicate Settled(a: Attributes, z: Attributes, f: Forest, base: Expr, visibleIf: Expr) {
    f.Menu? ==>
      && z.Of(f.id) == Propagated(a.Item(f.id), a.Of(f.id), base, visibleIf)
      && Settled(a, z, f.list, BaseOf(a.Item(f.id), z.Of(f.id)), VisibleBelow(a, f.id, visibleIf))
      && Settled(a, z, f.next, base, visibleIf)
  }

  /** The final expressions of all nodes */
  function Spread(a: Attributes, props: map<Id, Props>, f: Forest, base: Expr, visibleIf: Expr): map<Id, Props>
    decreases f
  {
    if f.Nil? then props
    else
      var p := Propagated(a.Item(f.id), a.Of(f.id), base, visibleIf);
      var below := Spread(a, props[f.id := p], f.list, BaseOf(a.Item(f.id), p), VisibleBelow(a, f.id, visibleIf));
      Spread(a, below, f.next, base, visibleIf)
  }

  lemma {:induction false} SpreadFrame(a: Attributes, props: map<Id, Props>, f: Forest, base: Expr, visibleIf: Expr, id: Id)
    requires Ids(f)[id] == 0
    ensures var r := Spread(a, props, f, base, visibleIf); (id in r <==> id in props) && (id in props ==> r[id] == props[id])
    decreases f
  {
    if f.Menu? {
      var p := Propagated(a.Item(f.id), a.Of(f.id), base, visibleIf);
      var low, vis := BaseOf(a.Item(f.id), p), VisibleBelow(a, f.id, visibleIf);
      SpreadFrame(a, props[f.id := p], f.list, low, vis, id);
      SpreadFrame(a, Spread(a, props[f.id := p], f.list, low, vis), f.next, base, visibleIf, id);
    }
  }

  lemma {:induction false} SettledFrame(a: Attributes, z: Attributes, y: Attributes, f: Forest, base: Expr, visibleIf: Expr)
    requires Settled(a, z, f, base, visibleIf) && forall id :: id in Ids(f) ==> y.Of(id) == z.Of(id)
    ensures Settled(a, y, f, base, visibleIf)
    decreases f
  {
    if f.Menu? {
      SettledFrame(a, z, y, f.list, BaseOf(a.Item(f.id), z.Of(f.id)), VisibleBelow(a, f.id, visibleIf));
      SettledFrame(a, z, y, f.next, base, visibleIf);
    }
  }

  /** There are such final expressions for every tree. */
  lemma {:induction false} SpreadSettles(a: Attributes, props: map<Id, Props>, f: Forest, base: Expr, visibleIf: Expr)
    requires Distinct(f)
    ensures Settled(a, a.(props := Spread(a, props, f, base, visibleIf)), f, base, visibleIf)
    decreases f
  {
    if f.Menu? {
      var p := Propagated(a.Item(f.id), a.Of(f.id), base, visibleIf);
      var low, vis := BaseOf(a.Item(f.id), p), VisibleBelow(a, f.id, visibleIf);
      var below := Spread(a, props[f.id := p], f.list, low, vis);
      var all := Spread(a, below, f.next, base, visibleIf);
      DistinctParts(f);
      SpreadSettles(a, props[f.id := p], f.list, low, vis);
      SpreadSettles(a, below, f.next, base, visibleIf);
      SpreadFrame(a, props[f.id := p], f.list, low, vis, f.id);
      SpreadFrame(a, below, f.next, base, visibleIf, f.id);
      forall id | id in Ids(f.list) ensures a.(props := all).Of(id) == a.(props := below).Of(id) {
        SpreadFrame(a, below, f.next, base, visibleIf, id);
      }
      SettledFrame(a, a.(props := below), a.(props := all), f.list, low, vis);
    }
  }

  // ----- What the final expressions are worth -----

  /** The nodes from one of the siblings down to a node */
  predicate Path(f: Forest, path: seq<Id>)
    decreases f
  {
    path != [] && f.Menu? && ((path[0] == f.id && (|path| == 1 || Path(f.list, path[1..]))) || Path(f.next, path))
  }

  /** The limit that dependencies set to a node, given the limit `base` for the siblings at the start of its path: below
      a choice it is the choice's mode, which the choice's own dependencies limit. */
  function Limit(v: Valuation, a: Attributes, base: Tri, path: seq<Id>): Tri
    requires path != []
    decreases |path|
  {
    var own := Min(Worth(v, a.Of(path[0]).dep), base);
    if |path| == 1 then own
    else
      var item := a.Item(path[0]);
      Limit(v, a, if item.ChoiceEntry? then v.mode(item.choice) else own, path[1..])
  }

  /** The limit that the enclosing menus' `visible if` conditions set */
  function VisibleLimit(v: Valuation, a: Attributes, visibleIf: Tri, path: seq<Id>): Tri
    requires path != []
    decreases |path|
  {
    if |path| == 1 then visibleIf
    else
      VisibleLimit(v, a,
        if a.Item(path[0]).MenuEntry? then Min(visibleIf, Worth(v, a.VisibleIf(path[0]))) else visibleIf, path[1..])
  }

  /** `visible if` limits the prompts of symbols and choices only. */
  function PromptLimit(item: Entry, limit: Tri, visible: Tri): Tri {
    if item.SymbolEntry? || item.ChoiceEntry? then Min(visible, limit) else limit
  }

  predicate Worths(v: Valuation, a: Attributes, z: Attributes, id: Id, limit: Tri, visible: Tri) {
    var item, p, q := a.Item(id), a.Of(id), z.Of(id);
    && Worth(v, q.dep) == limit
    && q.prompt.Some? == p.prompt.Some?
    && (p.prompt.Some? ==> Worth(v, q.prompt.value) == Min(Worth(v, p.prompt.value), PromptLimit(item, limit, visible)))
    && if item.SymbolEntry? || item.ChoiceEntry? then Limited(v, p.adds, q.adds, limit) else q.adds == p.adds
  }

  /** The same properties, with conditions worth the minimum with `limit` */
  predicate Limited(v: Valuation, adds: seq<Property>, adds': seq<Property>, limit: Tri) {
    && |adds'| == |adds|
    && forall i :: 0 <= i < |adds| ==>
         adds'[i] == adds[i].(cond := adds'[i].cond) && Worth(v, adds'[i].cond) == Min(Worth(v, adds[i].cond), limit)
  }

  lemma EachWorth(v: Valuation, adds: seq<Property>, dep: Expr)
    requires Proper(v)
    ensures Limited(v, adds, EachAnd(adds, dep), Worth(v, dep))
  {
    forall i | 0 <= i < |adds| ensures Worth(v, MakeAnd(adds[i].cond, dep)) == Min(Worth(v, adds[i].cond), Worth(v, dep)) {
      AndWorth(v, adds[i].cond, dep);
    }
  }

  lemma PropagatedWorths(v: Valuation, a: Attributes, z: Attributes, id: Id, base: Expr, visibleIf: Expr)
    requires Proper(v) && z.Of(id) == Propagated(a.Item(id), a.Of(id), base, visibleIf)
    ensures Worths(v, a, z, id, Min(Worth(v, a.Of(id).dep), Worth(v, base)), Worth(v, visibleIf))
  {
    var p, q := a.Of(id), z.Of(id);
    AndWorth(v, p.dep, base);
    AndWorth(v, visibleIf, q.dep);
    if p.prompt.Some? {
      AndWorth(v, p.prompt.value, MakeAnd(visibleIf, q.dep));
      AndWorth(v, p.prompt.value, q.dep);
    }
    EachWorth(v, p.adds, q.dep);
  }

  /** Each node's final expressions are worth the minimum of the original ones and the limits along its path. */
  lemma {:induction false} SettledWorths(
      v: Valuation, a: Attributes, z: Attributes, f: Forest, base: Expr, visibleIf: Expr, path: seq<Id>)
    requires Proper(v) && Settled(a, z, f, base, visibleIf) && Path(f, path)
    ensures Worths(v, a, z, path[|path| - 1], Limit(v, a, Worth(v, base), path), VisibleLimit(v, a, Worth(v, visibleIf), path))
    decreases f
  {
    if path[0] == f.id && (|path| == 1 || Path(f.list, path[1..])) {
      PropagatedWorths(v, a, z, f.id, base, visibleIf);
      if |path| > 1 {
        AndWorth(v, visibleIf, a.VisibleIf(f.id));
        SettledWorths(v, a, z, f.list, BaseOf(a.Item(f.id), z.Of(f.id)), VisibleBelow(a, f.id, visibleIf), path[1..]);
      }
    } else {
      SettledWorths(v, a, z, f.next, base, visibleIf, path);
    }
  }

  // ----- Without choices -----

  function Least(s: seq<Tri>): Tri { if s == [] then 2 else Min(s[0], Least(s[1..])) }

  function Deps(v: Valuation, a: Attributes, path: seq<Id>): seq<Tri> {
    if path == [] then [] else [Worth(v, a.Of(path[0]).dep)] + Deps(v, a, path[1..])
  }

  /** The `visible if` conditions of the menus above the last node */
  function VisibleIfs(v: Valuation, a: Attributes, path: seq<Id>): seq<Tri> {
    if |path| <= 1 then []
    else (if a.Item(path[0]).MenuEntry? then [Worth(v, a.VisibleIf(path[0]))] else []) + VisibleIfs(v, a, path[1..])
  }

  /** None of the nodes above the last one is a choice. */
  predicate NoChoiceAbove(a: Attributes, path: seq<Id>) {
    |path| > 1 ==> !a.Item(path[0]).ChoiceEntry? && NoChoiceAbove(a, path[1..])
  }

  lemma {:induction false} LimitIsLeast(v: Valuation, a: Attributes, base: Tri, visibleIf: Tri, path: seq<Id>)
    requires path != [] && NoChoiceAbove(a, path)
    ensures Limit(v, a, base, path) == Min(base, Least(Deps(v, a, path)))
    ensures VisibleLimit(v, a, visibleIf, path) == Min(visibleIf, Least(VisibleIfs(v, a, path)))
  {
    var own := Worth(v, a.Of(path[0]).dep);
    assert Deps(v, a, path)[1..] == Deps(v, a, path[1..]);
    if |path| > 1 {
      var menu := a.Item(path[0]).MenuEntry?;
      var here := Worth(v, a.VisibleIf(path[0]));
      if menu { assert VisibleIfs(v, a, path)[1..] == VisibleIfs(v, a, path[1..]); }
      else { assert VisibleIfs(v, a, path) == VisibleIfs(v, a, path[1..]); }
      LimitIsLeast(v, a, Min(own, base), if menu then Min(visibleIf, here) else visibleIf, path[1..]);
    }
  }

  /** In a finalised tree, the prompt of a symbol with no choice above it is worth the least of its own condition, the
      dependencies of the symbol and of all nodes above it, and the `visible if` conditions of all menus above it. */
  lemma PromptWorth(v: Valuation, a: Attributes, z: Attributes, f: Forest, path: seq<Id>)
    requires Proper(v) && Settled(a, z, f, Y, Y) && Path(f, path) && NoChoiceAbove(a, path)
    requires var id := path[|path| - 1]; a.Item(id).SymbolEntry? && a.Of(id).prompt.Some?
    ensures var id := path[|path| - 1];
      && z.Of(id).prompt.Some?
      && Worth(v, z.Of(id).prompt.value) ==
           Min(Worth(v, a.Of(id).prompt.value), Min(Least(Deps(v, a, path)), Least(VisibleIfs(v, a, path))))
  {
    SettledWorths(v, a, z, f, Y, Y, path);
    assert Worth(v, Y) == 2;
    LimitIsLeast(v, a, 2, 2, path);
  }

  // ----- Prompts and direct dependencies -----

  /** A menu node of a symbol as finalising leaves it: its dependencies, what `visible if` conditions apply to it, and
      the condition its prompt was given, if it has one */
  datatype Place = Place(dep: Expr, visibleIf: Expr, cond: Option<Expr>)

  /** The prompt conditions of a symbol defined at some places */
  function PromptsOf(ps: seq<Place>): seq<Expr> {
    if ps == [] then []
    else (if ps[0].cond.Some? then [MakeAnd(ps[0].cond.value, MakeAnd(ps[0].visibleIf, ps[0].dep))] else []) + PromptsOf(ps[1..])
  }

  /** Its direct dependencies, as `_add_props_to_sym` collects them */
  function DirectDepOf(ps: seq<Place>): Expr {
    if ps == [] then N else MakeOr(DirectDepOf(ps[..|ps| - 1]), ps[|ps| - 1].dep)
  }

  lemma OrIsNo(t: Tree, u: Users, m: Answers, a: Expr, b: Expr)
    requires ExprVal(t, u, m, MakeOr(a, b)) == Some(0)
    ensures ExprVal(t, u, m, a) == Some(0) && ExprVal(t, u, m, b) == Some(0)
  {
    YesAndNo(t, u, m);
    if a != N && b != N && a != Y && b != Y { assert MakeOr(a, b) == Or(a, b); }
  }

  lemma YesAndNo(t: Tree, u: Users, m: Answers)
    ensures ExprVal(t, u, m, Y) == Some(2) && ExprVal(t, u, m, N) == Some(0)
  {
    assert "n"[0] != "y"[0] && "n"[0] != "m"[0];
  }

  lemma AndIsNo(t: Tree, u: Users, m: Answers, a: Expr, b: Expr)
    requires ExprVal(t, u, m, b) in {None, Some(0)}
    ensures ExprVal(t, u, m, MakeAnd(a, b)) in {None, Some(0)}
  {
    YesAndNo(t, u, m);
    if a != Y && b != Y && a != N && b != N { assert MakeAnd(a, b) == And(a, b); }
  }

  lemma {:induction false} EachDepIsNo(t: Tree, u: Users, m: Answers, ps: seq<Place>, k: nat)
    requires ExprVal(t, u, m, DirectDepOf(ps)) == Some(0) && k < |ps|
    ensures ExprVal(t, u, m, ps[k].dep) == Some(0)
  {
    var front := ps[..|ps| - 1];
    OrIsNo(t, u, m, DirectDepOf(front), ps[|ps| - 1].dep);
    if k < |front| { EachDepIsNo(t, u, m, front, k); }
  }

  lemma {:induction false} NoPromptVisible(t: Tree, u: Users, m: Answers, ps: seq<Place>)
    requires forall k :: 0 <= k < |ps| ==> ExprVal(t, u, m, ps[k].dep) == Some(0)
    ensures MaxPrompt(t, u, m, PromptsOf(ps)) in {None, Some(0)}
  {
    if ps != [] {
      var p := ps[0];
      NoPromptVisible(t, u, m, ps[1..]);
      if p.cond.Some? {
        AndIsNo(t, u, m, p.visibleIf, p.dep);
        AndIsNo(t, u, m, p.cond.value, MakeAnd(p.visibleIf, p.dep));
        assert PromptsOf(ps)[1..] == PromptsOf(ps[1..]);
      } else {
        assert PromptsOf(ps) == PromptsOf(ps[1..]);
      }
    }
  }

  /** A symbol whose direct dependencies are n has no visible prompt. */
  lemma DirectDepGuards(t: Tree, u: Users, m: Answers, ps: seq<Place>)
    requires ExprVal(t, u, m, DirectDepOf(ps)) == Some(0)
    ensures MaxPrompt(t, u, m, PromptsOf(ps)) in {None, Some(0)}
  {
    forall k | 0 <= k < |ps| ensures ExprVal(t, u, m, ps[k].dep) == Some(0) { EachDepIsNo(t, u, m, ps, k); }
    NoPromptVisible(t, u, m, ps);
  }

  predicate BuiltFrom(d: SymDef, ps: seq<Place>) { d.prompts == PromptsOf(ps) && d.directDep == DirectDepOf(ps) }

  /** A tree whose symbols have their prompts and direct dependencies from finalised places, and whose strings and numbers
      nobody selects, is guarded. */
  lemma PlacesGuard(t: Tree, places: map<SymName, seq<Place>>)
    requires t.syms.Keys <= places.Keys && forall s :: s in t.syms ==> BuiltFrom(t.syms[s], places[s])
    requires forall s :: s in t.syms && !t.syms[s].kind.Logical() ==> t.syms[s].revDep == N
    ensures Guarded(t)
  {
    forall s, u: Users, m: Answers | s in t.syms && ExprVal(t, u, m, t.syms[s].directDep) == Some(0)
      ensures MaxPrompt(t, u, m, t.syms[s].prompts) in {None, Some(0)}
    {
      DirectDepGuards(t, u, m, places[s]);
    }
  }
}
