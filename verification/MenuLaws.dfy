/** What the symbols and choices of a parsed menu tree end up with: which prompts, defaults, ranges and types, in which
    order, and what their conditions are worth. */
module MenuLaws {
  import opened Wrappers
  import opened KconfigTree
  import opened KconfigReload
  import opened MenuForest
  import opened MenuDeps
  import opened MenuProps
  import opened MenuSane
  import opened MenuStart
  import KconfigLaws
  import MenuTree

  // ----- The way to a node -----

  /** The nodes from the outermost one down to the node `id` */
  function PathTo(f: Forest, id: Id): seq<Id> {
    if f.Nil? then []
    else if f.id == id then [id]
    else if id in Ids(f.list) then [f.id] + PathTo(f.list, id)
    else PathTo(f.next, id)
  }

  lemma {:induction false} PathToIs(f: Forest, id: Id)
    requires id in Ids(f)
    ensures Path(f, PathTo(f, id)) && PathTo(f, id)[|PathTo(f, id)| - 1] == id
  {
    if f.id == id {
    } else if id in Ids(f.list) {
      PathToIs(f.list, id);
      PathCons(f, PathTo(f.list, id));
    } else {
      PathToIs(f.next, id);
      PathNext(f, PathTo(f.next, id));
    }
  }

  lemma PathCons(f: Forest, path: seq<Id>)
    requires f.Menu? && Path(f.list, path)
    ensures Path(f, [f.id] + path)
  {
    assert ([f.id] + path)[1..] == path;
  }

  lemma PathNext(f: Forest, path: seq<Id>)
    requires f.Menu? && Path(f.next, path)
    ensures Path(f, path)
  {
  }

  /** What the dependencies of the node and of all nodes above it limit it to */
  function NodeLimit(v: Valuation, a: Attributes, f: Forest, id: Id): Tri {
    if id in Ids(f) then (PathToIs(f, id); Limit(v, a, 2, PathTo(f, id))) else 2
  }

  /** What the `visible if` conditions of the menus above it limit its prompt to */
  function NodeVisible(v: Valuation, a: Attributes, f: Forest, id: Id): Tri {
    if id in Ids(f) then (PathToIs(f, id); VisibleLimit(v, a, 2, PathTo(f, id))) else 2
  }

  lemma NodeWorths(v: Valuation, a: Attributes, z: Attributes, f: Forest, id: Id)
    requires Proper(v) && Settled(a, z, f, Y, Y) && id in Ids(f)
    ensures Worths(v, a, z, id, NodeLimit(v, a, f, id), NodeVisible(v, a, f, id))
  {
    PathToIs(f, id);
    ConstantsWorth(v);
    SettledWorths(v, a, z, f, Y, Y, PathTo(f, id));
  }

  // ----- Prompts and properties in order -----

  /** A property, and what its condition is worth */
  function Weighed(v: Valuation, p: Property): (Property, Tri) { (p.(cond := Y), Worth(v, p.cond)) }

  function AllWeighed(v: Valuation, ps: seq<Property>): seq<(Property, Tri)> {
    seq(|ps|, i requires 0 <= i < |ps| => Weighed(v, ps[i]))
  }

  /** The properties as parsed, their conditions limited */
  function Limiteds(v: Valuation, ps: seq<Property>, limit: Tri): seq<(Property, Tri)> {
    seq(|ps|, i requires 0 <= i < |ps| => (ps[i].(cond := Y), Min(Worth(v, ps[i].cond), limit)))
  }

  /** The properties of some nodes as parsed, node after node, each limited by what limits its node */
  function ParsedAdds(v: Valuation, a: Attributes, f: Forest, ids: seq<Id>): seq<(Property, Tri)> {
    if ids == [] then [] else
    var last := ids[|ids| - 1];
    ParsedAdds(v, a, f, ids[..|ids| - 1]) + Limiteds(v, a.Of(last).adds, NodeLimit(v, a, f, last))
  }

  lemma WeighedConcat(v: Valuation, xs: seq<Property>, ys: seq<Property>)
    ensures AllWeighed(v, xs + ys) == AllWeighed(v, xs) + AllWeighed(v, ys)
  {
  }

  /** All properties that some nodes add are theirs as parsed, in order, with conditions worth the least of their own and
      of all dependencies on the way to the node. */
  lemma {:induction false} AddsWeighed(v: Valuation, a: Attributes, z: Attributes, f: Forest, ids: seq<Id>)
    requires Proper(v) && Settled(a, z, f, Y, Y)
    requires forall id :: id in ids ==> id in Ids(f) && (a.Item(id).SymbolEntry? || a.Item(id).ChoiceEntry?)
    ensures AllWeighed(v, AllAdds(z, ids)) == ParsedAdds(v, a, f, ids)
  {
    if ids != [] {
      var front, last := ids[..|ids| - 1], ids[|ids| - 1];
      AddsWeighed(v, a, z, f, front);
      NodeWorths(v, a, z, f, last);
      WeighedConcat(v, AllAdds(z, front), z.Of(last).adds);
      LimitedWeighed(v, a.Of(last).adds, z.Of(last).adds, NodeLimit(v, a, f, last));
    }
  }

  lemma LimitedWeighed(v: Valuation, ps: seq<Property>, qs: seq<Property>, limit: Tri)
    requires Limited(v, ps, qs, limit)
    ensures AllWeighed(v, qs) == Limiteds(v, ps, limit)
  {
    forall i | 0 <= i < |ps| ensures Weighed(v, qs[i]) == (ps[i].(cond := Y), Min(Worth(v, ps[i].cond), limit)) {
      assert qs[i] == ps[i].(cond := qs[i].cond);
    }
  }

  /** The prompts of some nodes as parsed, each limited by what limits its node and by `visible if` */
  function ParsedPrompts(v: Valuation, a: Attributes, f: Forest, ids: seq<Id>): seq<Tri> {
    if ids == [] then [] else ParsedPrompt(v, a, f, ids[0]) + ParsedPrompts(v, a, f, ids[1..])
  }

  function ParsedPrompt(v: Valuation, a: Attributes, f: Forest, id: Id): seq<Tri> {
    match a.Of(id).prompt
    case None => []
    case Some(x) => [Min(Worth(v, x), Min(NodeVisible(v, a, f, id), NodeLimit(v, a, f, id)))]
  }

  function AllWorth(v: Valuation, xs: seq<Expr>): seq<Tri> { seq(|xs|, i requires 0 <= i < |xs| => Worth(v, xs[i])) }

  /** And so are their prompts. */
  lemma {:induction false} PromptsWeighed(v: Valuation, a: Attributes, z: Attributes, f: Forest, ids: seq<Id>)
    requires Proper(v) && Settled(a, z, f, Y, Y)
    requires forall id :: id in ids ==> id in Ids(f) && (a.Item(id).SymbolEntry? || a.Item(id).ChoiceEntry?)
    ensures AllWorth(v, PromptList(z, ids)) == ParsedPrompts(v, a, f, ids)
  {
    if ids != [] {
      PromptsWeighed(v, a, z, f, ids[1..]);
      NodeWorths(v, a, z, f, ids[0]);
      WorthConcat(v, Prompt(z, ids[0]), PromptList(z, ids[1..]));
      assert AllWorth(v, Prompt(z, ids[0])) == ParsedPrompt(v, a, f, ids[0]);
    }
  }

  function Prompt(z: Attributes, id: Id): seq<Expr> { if z.Of(id).prompt.Some? then [z.Of(id).prompt.value] else [] }

  lemma WorthConcat(v: Valuation, xs: seq<Expr>, ys: seq<Expr>)
    ensures AllWorth(v, xs + ys) == AllWorth(v, xs) + AllWorth(v, ys)
  {
  }

  // ----- Defaults and ranges are taken in order -----

  lemma Join3<T>(a: seq<T>, b: seq<T>, c: seq<T>)
    ensures a + b + c == a + (b + c)
  {
  }

  /** Each property contributes its default, if it is one, where it stands. */
  lemma {:induction false} DefaultsJoin(xs: seq<Property>, ys: seq<Property>)
    ensures DefaultList(xs + ys) == DefaultList(xs) + DefaultList(ys)
    ensures DefaultList([]) == []
    ensures forall p :: DefaultList([p]) == match p case DefaultOf(x, c) => [Default(x, c)] case _ => []
  {
    if xs == [] {
      assert xs + ys == ys;
    } else {
      DefaultsJoin(xs[1..], ys);
      assert (xs + ys)[0] == xs[0] && (xs + ys)[1..] == xs[1..] + ys;
      Join3(if xs[0].DefaultOf? then [Default(xs[0].value, xs[0].cond)] else [], DefaultList(xs[1..]), DefaultList(ys));
    }
    forall p ensures DefaultList([p]) == match p case DefaultOf(x, c) => [Default(x, c)] case _ => [] {
      assert [p][1..] == [];
    }
  }

  lemma {:induction false} RangesJoin(xs: seq<Property>, ys: seq<Property>)
    ensures RangeList(xs + ys) == RangeList(xs) + RangeList(ys)
    ensures RangeList([]) == []
    ensures forall p :: RangeList([p]) == match p case RangeOf(l, h, c) => [Range(l, h, c)] case _ => []
  {
    if xs == [] {
      assert xs + ys == ys;
    } else {
      RangesJoin(xs[1..], ys);
      assert (xs + ys)[0] == xs[0] && (xs + ys)[1..] == xs[1..] + ys;
      Join3(if xs[0].RangeOf? then [Range(xs[0].low, xs[0].high, xs[0].cond)] else [], RangeList(xs[1..]), RangeList(ys));
    }
    forall p ensures RangeList([p]) == match p case RangeOf(l, h, c) => [Range(l, h, c)] case _ => [] {
      assert [p][1..] == [];
    }
  }

  /** The default of a choice that a property gives: a plain symbol, with a condition */
  function DefaultSymbol(p: Property): seq<ChoiceDefault> {
    match p
    case DefaultOf(Ref(Sym(s)), c) => [ChoiceDefault(s, c)]
    case _ => []
  }

  lemma {:induction false} ChoiceDefaultsJoin(xs: seq<Property>, ys: seq<Property>)
    ensures ChoiceDefaultList(xs + ys) == ChoiceDefaultList(xs) + ChoiceDefaultList(ys)
    ensures ChoiceDefaultList([]) == []
    ensures forall p :: ChoiceDefaultList([p]) == DefaultSymbol(p)
  {
    if xs == [] {
      assert xs + ys == ys;
    } else {
      ChoiceDefaultsJoin(xs[1..], ys);
      assert (xs + ys)[0] == xs[0] && (xs + ys)[1..] == xs[1..] + ys;
      Join3(DefaultSymbol(xs[0]), ChoiceDefaultList(xs[1..]), ChoiceDefaultList(ys));
    }
    forall p ensures ChoiceDefaultList([p]) == DefaultSymbol(p) { assert [p][1..] == []; }
  }

  // ----- Choices -----

  /** The nodes of the choice among the steps */
  function ChoiceSteps(e: Attributes, steps: seq<Step>, c: ChoiceId): seq<Id> {
    if steps == [] then [] else
    var st := steps[|steps| - 1];
    ChoiceSteps(e, steps[..|steps| - 1], c) + if st.ChoiceStep? && e.Item(st.id) == ChoiceEntry(c) then [st.id] else []
  }

  lemma {:induction false} MembersAddNothing(b: Builds, e: Attributes, x: ChoiceId, kids: Forest, c: ChoiceId)
    ensures var d, d' := b.Choice(c), AddMembers(b, e, x, kids).Choice(c); d'.adds == d.adds && d'.directDep == d.directDep
    decreases kids
  {
    if kids.Menu? {
      MembersAddNothing(if IsSymbol(e, kids.id) then AddMember(b, x, e.Item(kids.id).sym) else b, e, x, kids.next, c);
    }
  }

  lemma {:induction false} ReversesAddNothing(b: Builds, s: SymName, ps: seq<Property>)
    ensures AddReverses(b, s, ps).choices == b.choices
    decreases |ps|
  {
    if ps != [] { ReversesAddNothing(AddReverse(b, s, ps[0]), s, ps[1..]); }
  }

  lemma ChoiceStepAdds(b: Builds, e: Attributes, st: Step, c: ChoiceId)
    requires Fits(e, st)
    ensures var d, d' := b.Choice(c), Apply(b, e, st).Choice(c);
      if st.ChoiceStep? && e.Item(st.id) == ChoiceEntry(c)
      then d'.adds == d.adds + e.Of(st.id).adds && d'.directDep == MakeOr(d.directDep, e.Of(st.id).dep)
      else d'.adds == d.adds && d'.directDep == d.directDep
  {
    match st
    case SymStep(id) => ReversesAddNothing(AddOwn(b, e.Item(id).sym, e.Of(id)), e.Item(id).sym, e.Of(id).adds);
    case ChoiceStep(id, kids) =>
      var x := e.Item(id).choice;
      MembersAddNothing(AddToChoice(b, x, e.Of(id)), e, x, kids, c);
      TypesKeep(AddMembers(AddToChoice(b, x, e.Of(id)), e, x, kids), x, "");
  }

  /** A choice gets the dependencies of its nodes, joined, and the defaults they add, in order. */
  lemma {:induction false} ChoiceAdds(ks: Kinds, e: Attributes, steps: seq<Step>, c: ChoiceId)
    requires AllFit(e, steps)
    ensures var d, ids := ApplyAll(Start(ks), e, steps).Choice(c), ChoiceSteps(e, steps, c);
      d.adds == AllAdds(e, ids) && d.directDep == OrDeps(e, ids)
    decreases |steps|
  {
    if steps != [] {
      var front, st := steps[..|steps| - 1], steps[|steps| - 1];
      ChoiceAdds(ks, e, front, c);
      ApplySnoc(Start(ks), e, steps);
      assert st in steps;
      ChoiceStepAdds(ApplyAll(Start(ks), e, front), e, st, c);
      if st.ChoiceStep? && e.Item(st.id) == ChoiceEntry(c) {
        NodeFolds(e, ChoiceSteps(e, front, c), st.id);
      } else {
        assert ChoiceSteps(e, steps, c) == ChoiceSteps(e, front, c);
      }
    }
  }

  // ----- Types -----

  /** The type of the first of the symbols that has one */
  ghost predicate FirstTyped(b: Builds, syms: seq<SymName>, k: Kind) {
    || (k == Unknown && forall s :: s in syms ==> b.Of(s).kind == Unknown)
    || (k != Unknown && exists i :: 0 <= i < |syms| && TypedAt(b, syms, k, i))
  }

  predicate TypedAt(b: Builds, syms: seq<SymName>, k: Kind, i: nat) {
    i < |syms| && b.Of(syms[i]).kind == k && forall j :: 0 <= j < i ==> b.Of(syms[j]).kind == Unknown
  }

  lemma {:induction false} FirstKindIs(b: Builds, syms: seq<SymName>)
    ensures FirstTyped(b, syms, FirstKind(b, syms))
  {
    if syms != [] {
      if b.Of(syms[0]).kind != Unknown {
        assert TypedAt(b, syms, b.Of(syms[0]).kind, 0);
      } else {
        FirstKindIs(b, syms[1..]);
        var k := FirstKind(b, syms[1..]);
        if k != Unknown {
          var i :| 0 <= i < |syms[1..]| && TypedAt(b, syms[1..], k, i);
          assert TypedAt(b, syms, k, i + 1) by {
            assert forall j :: 0 < j < i + 1 ==> syms[j] == syms[1..][j - 1];
          }
        } else {
          assert forall s :: s in syms ==> s == syms[0] || s in syms[1..];
        }
      }
    }
  }

  lemma {:induction false} KindsAre(b: Builds, syms: seq<SymName>, k: Kind, s: SymName)
    ensures WithKinds(b, syms, k).Of(s).kind == if s in syms && b.Of(s).kind == Unknown then k else b.Of(s).kind
    decreases |syms|
  {
    if syms != [] { KindsAre(WithKind(b, syms[0], k), syms[1..], k, s); }
  }

  /** When a choice is finalised, it keeps its type or, for want of one, gets that of the first of its symbols that has
      one; those of its symbols without a type then get that of the choice, and all other types stay. */
  lemma TypesAre(b: Builds, c: ChoiceId)
    ensures var k, b' := GiveTypes(b, c).Choice(c).kind, GiveTypes(b, c);
      && (b.Choice(c).kind != Unknown ==> k == b.Choice(c).kind)
      && (b.Choice(c).kind == Unknown ==> FirstTyped(b, b.Choice(c).syms, k))
      && forall s :: b'.Of(s).kind == if s in b.Choice(c).syms && b.Of(s).kind == Unknown then k else b.Of(s).kind
  {
    var k := ChoiceKind(b, c);
    var b1 := b.(choices := b.choices[c := b.Choice(c).(kind := k)]);
    TypesKeep(b, c, "");
    FirstKindIs(b, b.Choice(c).syms);
    forall s
      ensures GiveTypes(b, c).Of(s).kind == if s in b.Choice(c).syms && b.Of(s).kind == Unknown then k else b.Of(s).kind
    {
      KindsAre(b1, b.Choice(c).syms, k, s);
    }
  }

  // ----- The configuration tree of a parsed menu tree -----

  /** The nodes of a symbol, and of a choice, in the order of the menu tree */
  function NodesOfSym(a: Attributes, f: Forest, s: SymName): seq<Id> { NodesOf(a, Syms(a, f), s) }
  function NodesOfChoice(a: Attributes, f: Forest, c: ChoiceId): seq<Id> { ChoiceNodes(a, Items(a, f), c) }

  lemma NodesOfAre(a: Attributes, f: Forest, s: SymName, c: ChoiceId)
    ensures forall id :: id in NodesOfSym(a, f, s) <==> id in Ids(f) && a.Item(id) == SymbolEntry(s)
    ensures forall id :: id in NodesOfChoice(a, f, c) <==> id in Ids(f) && a.Item(id) == ChoiceEntry(c)
  {
    forall id | id in Ids(f) && a.Item(id) == SymbolEntry(s) ensures id in NodesOfSym(a, f, s) { NodeListed(a, f, s, id); }
    forall id | id in Ids(f) && a.Item(id) == ChoiceEntry(c) ensures id in Items(a, f) { ItemListed(a, f, id); }
    ItemsAre(a, f);
    SymNodesAre(a, Items(a, f));
    NodesAre(a, Syms(a, f), s);
    ChoiceNodesAre(a, Items(a, f), c);
  }

  lemma {:induction false} ChoiceNodesAre(a: Attributes, ids: seq<Id>, c: ChoiceId)
    ensures forall id :: id in ChoiceNodes(a, ids, c) <==> id in ids && a.Item(id) == ChoiceEntry(c)
  {
    if ids != [] { ChoiceNodesAre(a, ids[1..], c); }
  }

  /** They are in the order of the walk. */
  lemma {:induction false} SymNodesJoin(a: Attributes, xs: seq<Id>, ys: seq<Id>, s: SymName)
    ensures NodesOf(a, xs + ys, s) == NodesOf(a, xs, s) + NodesOf(a, ys, s)
    decreases |ys|
  {
    if ys == [] {
      assert xs + ys == xs;
    } else {
      var front, last := ys[..|ys| - 1], ys[|ys| - 1];
      assert xs + ys == (xs + front) + [last] && ys == front + [last];
      SymNodesJoin(a, xs, front, s);
      NodesSnoc(a, xs + front, last, s);
    }
  }

  lemma {:induction false} ChoiceNodesJoin(a: Attributes, xs: seq<Id>, ys: seq<Id>, c: ChoiceId)
    ensures ChoiceNodes(a, xs + ys, c) == ChoiceNodes(a, xs, c) + ChoiceNodes(a, ys, c)
    decreases |ys|
  {
    if ys == [] {
      assert xs + ys == xs;
    } else {
      var front, last := ys[..|ys| - 1], ys[|ys| - 1];
      assert xs + ys == (xs + front) + [last] && ys == front + [last];
      ChoiceNodesJoin(a, xs, front, c);
      ChoiceNodesSnoc(a, xs + front, last, c);
      ChoiceNodesSnoc(a, front, last, c);
    }
  }

  lemma {:induction false} ChoiceNodesSnoc(a: Attributes, ids: seq<Id>, id: Id, c: ChoiceId)
    ensures ChoiceNodes(a, ids + [id], c) == ChoiceNodes(a, ids, c) + if a.Item(id) == ChoiceEntry(c) then [id] else []
  {
    if ids == [] {
      assert [id][1..] == [] && ids + [id] == [id];
    } else {
      assert (ids + [id])[1..] == ids[1..] + [id];
      ChoiceNodesSnoc(a, ids[1..], id, c);
    }
  }

  /** The properties that a symbol of the parsed tree ends up with */
  function SymAdds(a: Attributes, f: Forest, s: SymName): seq<Property>
    requires f.Menu?
  {
    AllAdds(MenuTree.Final(a, f), NodesOfSym(a, f.list, s))
  }

  /** A symbol ends up with the prompts, defaults and ranges of its nodes, in the order of the menu tree, each with its
      condition limited by all dependencies on the way to the node, and prompts by `visible if` as well. */
  lemma OutcomeSymbol(v: Valuation, a: Attributes, f: Forest, x: Extras, s: SymName)
    requires Proper(v) && MenuTree.Parsed(a, f) && s in Outcome(a, f, x).syms
    ensures var d, ids, ps := Outcome(a, f, x).syms[s], NodesOfSym(a, f.list, s), SymAdds(a, f, s);
      && AllWorth(v, d.prompts) == ParsedPrompts(v, a, f.list, ids)
      && AllWeighed(v, ps) == ParsedAdds(v, a, f.list, ids)
      && d.defaults == DefaultList(ps) && d.ranges == RangeList(ps)
      && (d.noWrite <==> s in x.noWrite) && Outcome(a, f, x).num == x.num
  {
    var z := MenuTree.Final(a, f);
    FinalNodes(a, f, s, 0);
    NodesOfAre(a, f.list, s, 0);
    PromptsWeighed(v, a, z, f.list, NodesOfSym(a, f.list, s));
    AddsWeighed(v, a, z, f.list, NodesOfSym(a, f.list, s));
    EachOrder(z, f.list);
    SymBuilt(x.kinds, z, CopiedEach(z, f.list), s);
  }

  lemma FinalNodes(a: Attributes, f: Forest, s: SymName, c: ChoiceId)
    requires MenuTree.Parsed(a, f)
    ensures var z := MenuTree.Final(a, f);
      && Settled(a, z, f.list, Y, Y) && SymbolsLeaf(z, f.list) && a.item == z.item
      && NodesOfSym(z, f.list, s) == NodesOfSym(a, f.list, s) && NodesOfChoice(z, f.list, c) == NodesOfChoice(a, f.list, c)
      && Items(z, f.list) == Items(a, f.list)
  {
    var z := MenuTree.Final(a, f);
    MenuTree.FinalJob(a, f);
    MenuTree.ItemsSame(a, z, f.list);
    SameSymNodes(z, a, Items(a, f.list));
    SameNodesOf(z, a, Syms(a, f.list), s);
    SameChoiceNodes(z, a, Items(a, f.list), c);
  }

  /** A choice ends up with the prompts of its nodes, limited the same way, and with what `optional` says. */
  lemma OutcomeChoice(v: Valuation, a: Attributes, f: Forest, x: Extras, c: ChoiceId)
    requires Proper(v) && MenuTree.Parsed(a, f) && c in Outcome(a, f, x).choices
    ensures var d, ids := Outcome(a, f, x).choices[c], NodesOfChoice(a, f.list, c);
      && AllWorth(v, d.prompts) == ParsedPrompts(v, a, f.list, ids)
      && (d.optional <==> c in x.optional)
      && d.defaults == ChoiceDefaultList(AllAdds(MenuTree.Final(a, f), ChoiceStepsOf(a, f, c)))
      && AllWeighed(v, AllAdds(MenuTree.Final(a, f), ChoiceStepsOf(a, f, c))) ==
           ParsedAdds(v, a, f.list, ChoiceStepsOf(a, f, c))
  {
    var z := MenuTree.Final(a, f);
    FinalNodes(a, f, "", c);
    NodesOfAre(a, f.list, "", c);
    PromptsWeighed(v, a, z, f.list, NodesOfChoice(a, f.list, c));
    ChoiceAdds(x.kinds, z, CopiedEach(z, f.list), c);
    ChoiceStepsAre(z, f.list, c);
    AddsWeighed(v, a, z, f.list, ChoiceStepsOf(a, f, c));
  }

  /** The nodes of a choice in the order in which they are finalised */
  function ChoiceStepsOf(a: Attributes, f: Forest, c: ChoiceId): seq<Id>
    requires f.Menu?
  {
    var z := MenuTree.Final(a, f);
    ChoiceSteps(z, CopiedEach(z, f.list), c)
  }

  lemma ChoiceStepsAre(z: Attributes, f: Forest, c: ChoiceId)
    ensures forall id :: id in ChoiceSteps(z, CopiedEach(z, f), c) ==> id in Ids(f) && z.Item(id) == ChoiceEntry(c)
  {
    EachWithin(z, f);
    StepsOfChoice(z, CopiedEach(z, f), c, Ids(f));
  }

  lemma {:induction false} StepsOfChoice(z: Attributes, steps: seq<Step>, c: ChoiceId, ids: multiset<Id>)
    requires StepsWithin(steps, ids)
    ensures forall id :: id in ChoiceSteps(z, steps, c) ==> id in ids && z.Item(id) == ChoiceEntry(c)
  {
    if steps != [] {
      assert steps[|steps| - 1] in steps;
      StepsOfChoice(z, steps[..|steps| - 1], c, ids);
    }
  }

  // ----- Visibility, from the menu tree -----

  /** The values that a record of all answers gives to what occurs in expressions */
  ghost function Recorded(t: Tree, u: Users, m: Answers): Valuation {
    Valuation((leaf: Leaf) => KconfigLaws.Val(t, u, m, Ref(leaf)),
              (c: ChoiceId) => KconfigLaws.Val(t, u, m, Mode(c)),
              (op: RelOp, l: Leaf, r: Leaf) => KconfigLaws.Val(t, u, m, Rel(op, l, r)))
  }

  lemma RecordedWorth(t: Tree, u: Users, m: Answers, e: Expr)
    requires AllValues(t, u, m)
    ensures Proper(Recorded(t, u, m)) && Worth(Recorded(t, u, m), e) == KconfigLaws.Val(t, u, m, e)
  {
    KconfigLaws.Constants(t, u, m, "y");
    KconfigLaws.Constants(t, u, m, "n");
    KconfigLaws.ThreeTexts();
    KconfigLaws.ValIs(t, u, m, e);
    ValueIsWorth(Recorded(t, u, m), t, u, m, e);
  }

  /** The prompt of the node can be seen: its own condition, all dependencies on the way to the node and all `visible if`
      conditions on that way are met. */
  predicate PromptSeen(v: Valuation, a: Attributes, f: Forest, id: Id) {
    match a.Of(id).prompt
    case None => false
    case Some(x) => Worth(v, x) != 0 && NodeLimit(v, a, f, id) != 0 && NodeVisible(v, a, f, id) != 0
  }

  predicate AnyOn(xs: seq<Tri>) { exists i :: 0 <= i < |xs| && xs[i] != 0 }

  lemma AnyConcat(xs: seq<Tri>, ys: seq<Tri>)
    ensures AnyOn(xs + ys) <==> AnyOn(xs) || AnyOn(ys)
  {
    if i :| 0 <= i < |xs| && xs[i] != 0 { assert (xs + ys)[i] != 0; }
    if i :| 0 <= i < |ys| && ys[i] != 0 { assert (xs + ys)[|xs| + i] != 0; }
  }

  lemma {:induction false} SomeSeen(v: Valuation, a: Attributes, f: Forest, ids: seq<Id>)
    ensures AnyOn(ParsedPrompts(v, a, f, ids)) <==> exists id :: id in ids && PromptSeen(v, a, f, id)
  {
    if ids != [] {
      SomeSeen(v, a, f, ids[1..]);
      AnyConcat(ParsedPrompt(v, a, f, ids[0]), ParsedPrompts(v, a, f, ids[1..]));
      OneSeen(v, a, f, ids[0]);
    }
  }

  lemma OneSeen(v: Valuation, a: Attributes, f: Forest, id: Id)
    ensures AnyOn(ParsedPrompt(v, a, f, id)) <==> PromptSeen(v, a, f, id)
  {
    var xs := ParsedPrompt(v, a, f, id);
    if xs != [] { assert AnyOn(xs) <==> xs[0] != 0; }
  }

  /** In the program started from a parsed menu tree, a symbol outside choices is visible exactly if one of its prompts can
      be seen in the menu tree as it was written. */
  lemma SeenInMenus(a: Attributes, f: Forest, x: Extras, u: Users, m: Answers, s: SymName)
    requires MenuTree.Parsed(a, f) && AllValues(Outcome(a, f, x), u, m)
    requires s in Outcome(a, f, x).syms && Outcome(a, f, x).syms[s].choice.None?
    ensures KconfigLaws.Shown(m, s) <==>
      exists id :: id in NodesOfSym(a, f.list, s) && PromptSeen(Recorded(Outcome(a, f, x), u, m), a, f.list, id)
  {
    var t := Outcome(a, f, x);
    var v, ps, ids := Recorded(t, u, m), t.syms[s].prompts, NodesOfSym(a, f.list, s);
    RecordedWorth(t, u, m, Y);
    OutcomeSymbol(v, a, f, x, s);
    KconfigLaws.SymVisibilityOf(t, u, m, s);
    SomeSeen(v, a, f.list, ids);
    PromptsOn(t, u, m, ps);
  }

  lemma PromptsOn(t: Tree, u: Users, m: Answers, ps: seq<Expr>)
    requires AllValues(t, u, m)
    ensures KconfigLaws.Prompted(t, u, m, ps) <==> AnyOn(AllWorth(Recorded(t, u, m), ps))
  {
    var v := Recorded(t, u, m);
    forall i | 0 <= i < |ps| ensures KconfigLaws.On(t, u, m, ps[i]) <==> AllWorth(v, ps)[i] != 0 {
      RecordedWorth(t, u, m, ps[i]);
    }
    if i :| 0 <= i < |ps| && KconfigLaws.On(t, u, m, ps[i]) { assert AllWorth(v, ps)[i] != 0; }
    if i :| 0 <= i < |AllWorth(v, ps)| && AllWorth(v, ps)[i] != 0 { assert KconfigLaws.On(t, u, m, ps[i]); }
  }
}
