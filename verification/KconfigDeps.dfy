/** Building the _dependents sets. */
module KconfigDeps {
  import opened Wrappers
  import opened KconfigTree
  import opened KconfigEval
  import opened KconfigCache

  type Graph = map<Item, set<Item>>

  /** `sc` was added to the dependents of exactly the items `xs`. */
  ghost predicate Adds(g: Graph, g': Graph, sc: Item, xs: set<Item>) {
    forall x, y :: y in DependentsOf(g', x) <==> y in DependentsOf(g, x) || (y == sc && x in xs)
  }

  method MakeDependOnLeaf(g: Graph, sc: Item, leaf: Leaf) returns (g': Graph)
    ensures Adds(g, g', sc, LeafItems(leaf))
  {
    g' := g;
    if leaf.Sym? {
      g' := g[SymItem(leaf.name) := DependentsOf(g, SymItem(leaf.name)) + {sc}];
    }
  }

  /** _make_depend_on() */
  method MakeDependOn(g: Graph, sc: Item, e: Expr) returns (g': Graph)
    ensures Adds(g, g', sc, ExprItems(e))
    decreases e
  {
    match e
    case Ref(leaf) => g' := MakeDependOnLeaf(g, sc, leaf);
    case Mode(c) => g' := g[ChoiceItem(c) := DependentsOf(g, ChoiceItem(c)) + {sc}];
    case And(l, r) =>
      g' := MakeDependOn(g, sc, l);
      g' := MakeDependOn(g', sc, r);
    case Or(l, r) =>
      g' := MakeDependOn(g, sc, l);
      g' := MakeDependOn(g', sc, r);
    case Not(x) => g' := MakeDependOn(g, sc, x);
    case Rel(_, a, b) =>
      g' := MakeDependOnLeaf(g, sc, a);
      g' := MakeDependOnLeaf(g', sc, b);
  }

  method DependOnPrompts(g: Graph, sc: Item, ps: seq<Expr>) returns (g': Graph)
    ensures Adds(g, g', sc, PromptItems(ps))
    decreases |ps|
  {
    g' := g;
    if ps != [] {
      g' := MakeDependOn(g', sc, ps[0]);
      g' := DependOnPrompts(g', sc, ps[1..]);
    }
  }

  method DependOnDefaults(g: Graph, sc: Item, ds: seq<Default>) returns (g': Graph)
    ensures Adds(g, g', sc, DefaultItems(ds))
    decreases |ds|
  {
    g' := g;
    if ds != [] {
      g' := MakeDependOn(g', sc, ds[0].value);
      g' := MakeDependOn(g', sc, ds[0].cond);
      g' := DependOnDefaults(g', sc, ds[1..]);
    }
  }

  method DependOnRanges(g: Graph, sc: Item, rs: seq<Range>) returns (g': Graph)
    ensures Adds(g, g', sc, RangeItems(rs))
    decreases |rs|
  {
    g' := g;
    if rs != [] {
      g' := MakeDependOnLeaf(g', sc, rs[0].low);
      g' := MakeDependOnLeaf(g', sc, rs[0].high);
      g' := MakeDependOn(g', sc, rs[0].cond);
      g' := DependOnRanges(g', sc, rs[1..]);
    }
  }

  method DependOnChoiceDefaults(g: Graph, sc: Item, ds: seq<ChoiceDefault>) returns (g': Graph)
    ensures Adds(g, g', sc, ChoiceDefaultItems(ds))
    decreases |ds|
  {
    g' := g;
    if ds != [] {
      g' := MakeDependOn(g', sc, ds[0].cond);
      g' := DependOnChoiceDefaults(g', sc, ds[1..]);
    }
  }

  method DependOnSym(g: Graph, s: SymName, d: SymDef) returns (g': Graph)
    ensures Adds(g, g', SymItem(s), PromptItems(d.prompts) + DefaultItems(d.defaults) + ExprItems(d.revDep)
                                    + ExprItems(d.weakRevDep) + RangeItems(d.ranges) + ExprItems(d.directDep))
  {
    g' := DependOnPrompts(g, SymItem(s), d.prompts);
    g' := DependOnDefaults(g', SymItem(s), d.defaults);
    g' := MakeDependOn(g', SymItem(s), d.revDep);
    g' := MakeDependOn(g', SymItem(s), d.weakRevDep);
    g' := DependOnRanges(g', SymItem(s), d.ranges);
    g' := MakeDependOn(g', SymItem(s), d.directDep);
  }

  /** The choice symbols a choice depends on, registered only after the loop check */
  function ChoiceSyms(t: Tree, y: Item): set<Item> {
    if y.ChoiceItem? && y.id in t.choices then NameItems(t.choices[y.id].syms) else {}
  }

  /** What _build_dep() registers for an item */
  function BuiltDeps(t: Tree, y: Item): set<Item> {
    match y
    case SymItem(_) => DirectDeps(t, y)
    case ChoiceItem(c) =>
      if c in t.choices then PromptItems(t.choices[c].prompts) + ChoiceDefaultItems(t.choices[c].defaults) else {}
  }

  /** Exactly the items of `ys` are registered with the items they depend on. */
  ghost predicate Built(t: Tree, g: Graph, ys: seq<Item>) {
    forall x, y :: y in DependentsOf(g, x) <==> y in ys && Defined(t, y) && x in BuiltDeps(t, y)
  }

  method DependOnItem(t: Tree, g: Graph, y: Item) returns (g': Graph)
    requires Defined(t, y)
    ensures Adds(g, g', y, BuiltDeps(t, y))
  {
    match y
    case SymItem(s) => g' := DependOnSym(g, s, t.syms[s]);
    case ChoiceItem(c) =>
      g' := DependOnPrompts(g, y, t.choices[c].prompts);
      g' := DependOnChoiceDefaults(g', y, t.choices[c].defaults);
  }

  lemma BuiltStep(t: Tree, g: Graph, g': Graph, ys: seq<Item>, y: Item)
    requires Built(t, g, ys) && Defined(t, y) && Adds(g, g', y, BuiltDeps(t, y))
    ensures Built(t, g', ys + [y])
  {
    forall x, z ensures z in DependentsOf(g', x) <==> z in ys + [y] && Defined(t, z) && x in BuiltDeps(t, z) {
      assert z in DependentsOf(g', x) <==> z in DependentsOf(g, x) || (z == y && x in BuiltDeps(t, y));
      assert z in DependentsOf(g, x) <==> z in ys && Defined(t, z) && x in BuiltDeps(t, z);
    }
  }

  /** _build_dep() */
  method BuildDep(t: Tree, items: seq<Item>) returns (g: Graph)
    requires forall y :: y in items <==> Defined(t, y)
    ensures Built(t, g, items)
  {
    g := map[];
    for i := 0 to |items|
      invariant Built(t, g, items[..i])
    {
      assert items[i] in items;
      ghost var g0 := g;
      g := DependOnItem(t, g, items[i]);
      BuiltStep(t, g0, g, items[..i], items[i]);
      assert items[..i + 1] == items[..i] + [items[i]];
    }
    assert items[..|items|] == items;
  }

  function NameItems(syms: seq<SymName>): set<Item> { set s | s in syms :: SymItem(s) }

  lemma NameItemsStep(syms: seq<SymName>, j: nat)
    requires j < |syms|
    ensures NameItems(syms[..j + 1]) == NameItems(syms[..j]) + {SymItem(syms[j])}
  {
    assert syms[..j + 1] == syms[..j] + [syms[j]];
    assert forall z :: z in syms[..j + 1] <==> z in syms[..j] || z == syms[j];
  }

  method DependOnChoiceSyms(t: Tree, g: Graph, c: ChoiceId) returns (g': Graph)
    requires c in t.choices
    ensures Adds(g, g', ChoiceItem(c), ChoiceSyms(t, ChoiceItem(c)))
  {
    var syms := t.choices[c].syms;
    g' := g;
    for j := 0 to |syms|
      invariant Adds(g, g', ChoiceItem(c), NameItems(syms[..j]))
    {
      NameItemsStep(syms, j);
      g' := g'[SymItem(syms[j]) := DependentsOf(g', SymItem(syms[j])) + {ChoiceItem(c)}];
    }
    assert syms[..|syms|] == syms;
  }

  /** The items of `ys` are registered in `g'` with their choice symbols as well. */
  ghost predicate ChoicesAdded(t: Tree, g: Graph, g': Graph, ys: seq<Item>) {
    forall x, y :: y in DependentsOf(g', x) <==> y in DependentsOf(g, x) || (y in ys && x in ChoiceSyms(t, y))
  }

  lemma ChoicesAddedStep(t: Tree, g: Graph, g0: Graph, g': Graph, ys: seq<Item>, y: Item)
    requires ChoicesAdded(t, g, g0, ys) && Adds(g0, g', y, ChoiceSyms(t, y))
    ensures ChoicesAdded(t, g, g', ys + [y])
  {
    forall x, z ensures z in DependentsOf(g', x) <==> z in DependentsOf(g, x) || (z in ys + [y] && x in ChoiceSyms(t, z)) {
      assert z in DependentsOf(g', x) <==> z in DependentsOf(g0, x) || (z == y && x in ChoiceSyms(t, y));
      assert z in DependentsOf(g0, x) <==> z in DependentsOf(g, x) || (z in ys && x in ChoiceSyms(t, z));
    }
  }

  /** _add_choice_deps() */
  method AddChoiceDeps(t: Tree, g: Graph, items: seq<Item>) returns (g': Graph)
    requires (forall y :: y in items <==> Defined(t, y)) && Built(t, g, items)
    ensures Registered(t, g')
  {
    g' := g;
    for i := 0 to |items|
      invariant ChoicesAdded(t, g, g', items[..i])
    {
      ghost var g0 := g';
      assert items[i] in items;
      if items[i].ChoiceItem? {
        g' := DependOnChoiceSyms(t, g', items[i].id);
      }
      ChoicesAddedStep(t, g, g0, g', items[..i], items[i]);
      assert items[..i + 1] == items[..i] + [items[i]];
    }
    assert items[..|items|] == items;
    forall x, y ensures y in DependentsOf(g', x) <==> Defined(t, y) && x in DirectDeps(t, y) {
      assert Defined(t, y) ==> DirectDeps(t, y) == BuiltDeps(t, y) + ChoiceSyms(t, y);
      assert y in DependentsOf(g, x) <==> y in items && Defined(t, y) && x in BuiltDeps(t, y);
    }
  }

  // ----- The edges, one by one -----

  /** The leaf is the item. */
  predicate IsLeaf(leaf: Leaf, x: Item) { leaf.Sym? && x == SymItem(leaf.name) }

  /** The item occurs in the expression. */
  predicate Mentions(e: Expr, x: Item) {
    match e
    case Ref(leaf) => IsLeaf(leaf, x)
    case Mode(c) => x == ChoiceItem(c)
    case And(l, r) => Mentions(l, x) || Mentions(r, x)
    case Or(l, r) => Mentions(l, x) || Mentions(r, x)
    case Not(y) => Mentions(y, x)
    case Rel(_, a, b) => IsLeaf(a, x) || IsLeaf(b, x)
  }

  /** The item occurs in one of the prompts, defaults, ranges and dependencies of the symbol. */
  predicate SymMentions(d: SymDef, x: Item) {
    || (exists i :: 0 <= i < |d.prompts| && Mentions(d.prompts[i], x))
    || (exists i :: 0 <= i < |d.defaults| && DefaultMentions(d.defaults[i], x))
    || (exists i :: 0 <= i < |d.ranges| && RangeMentions(d.ranges[i], x))
    || Mentions(d.revDep, x) || Mentions(d.weakRevDep, x) || Mentions(d.directDep, x)
  }

  /** The item occurs in a prompt of the choice or in the condition of a default, or is one of its symbols. */
  predicate ChoiceMentions(d: ChoiceDef, x: Item) {
    || (exists i :: 0 <= i < |d.prompts| && Mentions(d.prompts[i], x))
    || (exists i :: 0 <= i < |d.defaults| && Mentions(d.defaults[i].cond, x))
    || (x.SymItem? && x.name in d.syms)
  }

  lemma {:induction false} MentionsIff(e: Expr, x: Item)
    ensures x in ExprItems(e) <==> Mentions(e, x)
  {
    match e
    case And(l, r) => { MentionsIff(l, x); MentionsIff(r, x); }
    case Or(l, r) => { MentionsIff(l, x); MentionsIff(r, x); }
    case Not(y) => { MentionsIff(y, x); }
    case _ => {}
  }

  lemma {:induction false} PromptsMention(ps: seq<Expr>, x: Item)
    ensures x in PromptItems(ps) <==> exists i :: 0 <= i < |ps| && Mentions(ps[i], x)
  {
    if ps != [] {
      MentionsIff(ps[0], x);
      PromptsMention(ps[1..], x);
      assert forall i :: 0 < i < |ps| ==> ps[i] == ps[1..][i - 1];
    }
  }

  predicate DefaultMentions(d: Default, x: Item) { Mentions(d.value, x) || Mentions(d.cond, x) }

  lemma {:induction false} DefaultsMention(ds: seq<Default>, x: Item)
    ensures x in DefaultItems(ds) <==> exists i :: 0 <= i < |ds| && DefaultMentions(ds[i], x)
  {
    if ds != [] {
      MentionsIff(ds[0].value, x);
      MentionsIff(ds[0].cond, x);
      DefaultsMention(ds[1..], x);
      assert forall i :: 0 < i < |ds| ==> ds[i] == ds[1..][i - 1];
    }
  }

  predicate RangeMentions(r: Range, x: Item) { IsLeaf(r.low, x) || IsLeaf(r.high, x) || Mentions(r.cond, x) }

  lemma {:induction false} RangesMention(rs: seq<Range>, x: Item)
    ensures x in RangeItems(rs) <==> exists i :: 0 <= i < |rs| && RangeMentions(rs[i], x)
  {
    if rs != [] {
      MentionsIff(rs[0].cond, x);
      RangesMention(rs[1..], x);
      assert forall i :: 0 < i < |rs| ==> rs[i] == rs[1..][i - 1];
    }
  }

  lemma {:induction false} ChoiceDefaultsMention(ds: seq<ChoiceDefault>, x: Item)
    ensures x in ChoiceDefaultItems(ds) <==> exists i :: 0 <= i < |ds| && Mentions(ds[i].cond, x)
  {
    if ds != [] {
      MentionsIff(ds[0].cond, x);
      ChoiceDefaultsMention(ds[1..], x);
      assert forall i :: 0 < i < |ds| ==> ds[i] == ds[1..][i - 1];
    }
  }

  /** Once all is registered, the dependents of an item are exactly the symbols and choices it occurs in, and the choice of
      a symbol. */
  lemma EdgeIff(t: Tree, g: Graph, x: Item, y: Item)
    requires Registered(t, g)
    ensures y in DependentsOf(g, x) <==>
      match y
      case SymItem(s) => s in t.syms && SymMentions(t.syms[s], x)
      case ChoiceItem(c) => c in t.choices && ChoiceMentions(t.choices[c], x)
  {
    assert y in DependentsOf(g, x) <==> Defined(t, y) && x in DirectDeps(t, y);
    match y
    case SymItem(s) => { if s in t.syms { SymMentionsIff(t, s, x); } }
    case ChoiceItem(c) => {
      if c in t.choices {
        PromptsMention(t.choices[c].prompts, x);
        ChoiceDefaultsMention(t.choices[c].defaults, x);
      }
    }
  }

  lemma SymMentionsIff(t: Tree, s: SymName, x: Item)
    requires s in t.syms
    ensures x in DirectDeps(t, SymItem(s)) <==> SymMentions(t.syms[s], x)
  {
    var d := t.syms[s];
    PromptsMention(d.prompts, x);
    DefaultsMention(d.defaults, x);
    RangesMention(d.ranges, x);
    MentionsIff(d.revDep, x);
    MentionsIff(d.weakRevDep, x);
    MentionsIff(d.directDep, x);
  }
}
