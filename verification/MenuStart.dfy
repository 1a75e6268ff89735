/** From a parsed menu tree to a running program. */
module MenuStart {
  import opened Wrappers
  import opened KconfigTree
  import opened KconfigEval
  import opened KconfigReload
  import opened MenuForest
  import opened MenuDeps
  import opened MenuProps
  import opened MenuSane
  import KconfigCache
  import KconfigLoops
  import KconfigOrder
  import MenuTree

  /** What the parser records besides the menu tree: types, optional choices, symbols that are never written, and how
      numbers are read */
  datatype Extras = Extras(kinds: Kinds, optional: set<ChoiceId>, noWrite: set<SymName>, num: Numerals)

  function SymOf(e: Attributes, b: Builds, nodes: seq<Id>, x: Extras, s: SymName): SymDef {
    var d := b.Of(s);
    SymDef(d.kind, PromptList(e, NodesOf(e, SymNodes(e, nodes), s)), DefaultList(d.adds), RangeList(d.adds),
           d.revDep, d.weakRevDep, d.directDep, d.choice, s in x.noWrite)
  }

  function ChoiceDefOf(e: Attributes, b: Builds, nodes: seq<Id>, x: Extras, c: ChoiceId): ChoiceDef {
    var d := b.Choice(c);
    ChoiceDef(d.kind, c in x.optional, PromptList(e, ChoiceNodes(e, nodes, c)), ChoiceDefaultList(d.adds), d.syms)
  }

  function SymKeys(e: Attributes, nodes: seq<Id>): set<SymName> {
    set id | id in nodes && e.Item(id).SymbolEntry? :: e.Item(id).sym
  }

  function ChoiceKeys(e: Attributes, nodes: seq<Id>): set<ChoiceId> {
    set id | id in nodes && e.Item(id).ChoiceEntry? :: e.Item(id).choice
  }

  function SymsOf(e: Attributes, b: Builds, nodes: seq<Id>, x: Extras): map<SymName, SymDef> {
    map s | s in SymKeys(e, nodes) :: SymOf(e, b, nodes, x, s)
  }

  function ChoicesOf(e: Attributes, b: Builds, nodes: seq<Id>, x: Extras): map<ChoiceId, ChoiceDef> {
    map c | c in ChoiceKeys(e, nodes) :: ChoiceDefOf(e, b, nodes, x, c)
  }

  /** The configuration tree of all symbols and choices among the nodes */
  function TreeOf(e: Attributes, b: Builds, nodes: seq<Id>, x: Extras): Tree {
    Tree(SymsOf(e, b, nodes, x), ChoicesOf(e, b, nodes, x), x.num)
  }

  // ----- The tree is whole -----

  lemma {:induction false} ItemListed(z: Attributes, f: Forest, id: Id)
    requires id in Ids(f) && !IsIf(z, id)
    ensures id in Items(z, f)
  {
    if id == f.id {
    } else if id in Ids(f.list) {
      ItemListed(z, f.list, id);
    } else {
      ItemListed(z, f.next, id);
    }
  }

  lemma SymKeysAre(z: Attributes, f: Forest, s: SymName)
    ensures s in SymKeys(z, Items(z, f)) <==> exists id :: id in Ids(f) && z.Item(id) == SymbolEntry(s)
  {
    ItemsAre(z, f);
    if id :| id in Ids(f) && z.Item(id) == SymbolEntry(s) { ItemListed(z, f, id); }
  }

  lemma ChoiceKeysAre(z: Attributes, f: Forest, c: ChoiceId)
    ensures c in ChoiceKeys(z, Items(z, f)) <==> exists id :: id in Ids(f) && z.Item(id) == ChoiceEntry(c)
  {
    ItemsAre(z, f);
    if id :| id in Ids(f) && z.Item(id) == ChoiceEntry(c) { ItemListed(z, f, id); }
  }

  lemma TreeAssembled(z: Attributes, b: Builds, f: Forest, x: Extras)
    ensures Assembled(TreeOf(z, b, Items(z, f), x), z, b, Syms(z, f))
  {
    var t := TreeOf(z, b, Items(z, f), x);
    forall s | s in t.syms ensures t.syms[s] == SymOf(z, b, Items(z, f), x, s) {}
    forall c | c in t.choices ensures t.choices[c] == ChoiceDefOf(z, b, Items(z, f), x, c) {}
  }

  lemma TreeKeys(z: Attributes, b: Builds, f: Forest, x: Extras)
    ensures var t := TreeOf(z, b, Items(z, f), x);
      && (forall s :: s in t.syms <==> exists id :: id in Ids(f) && z.Item(id) == SymbolEntry(s))
      && (forall c :: c in t.choices <==> exists id :: id in Ids(f) && z.Item(id) == ChoiceEntry(c))
  {
    var t := TreeOf(z, b, Items(z, f), x);
    forall s ensures s in t.syms <==> exists id :: id in Ids(f) && z.Item(id) == SymbolEntry(s) { SymKeysAre(z, f, s); }
    forall c ensures c in t.choices <==> exists id :: id in Ids(f) && z.Item(id) == ChoiceEntry(c) {
      ChoiceKeysAre(z, f, c);
    }
  }

  lemma TreeWhole(z: Attributes, b: Builds, f: Forest, x: Extras)
    ensures Whole(TreeOf(z, b, Items(z, f), x), z, b, f)
  {
    TreeAssembled(z, b, f, x);
    TreeKeys(z, b, f, x);
  }

  // ----- The finalised attributes -----

  lemma {:induction false} SamePromptList(e: Attributes, z: Attributes, ids: seq<Id>)
    requires forall id :: id in ids ==> e.Of(id) == z.Of(id)
    ensures PromptList(e, ids) == PromptList(z, ids)
  {
    if ids != [] { SamePromptList(e, z, ids[1..]); }
  }

  lemma {:induction false} SameSymNodes(e: Attributes, z: Attributes, ids: seq<Id>)
    requires e.item == z.item
    ensures SymNodes(e, ids) == SymNodes(z, ids)
  {
    if ids != [] { SameSymNodes(e, z, ids[1..]); }
  }

  lemma {:induction false} SameNodesOf(e: Attributes, z: Attributes, ids: seq<Id>, s: SymName)
    requires e.item == z.item
    ensures NodesOf(e, ids, s) == NodesOf(z, ids, s)
  {
    if ids != [] { SameNodesOf(e, z, ids[..|ids| - 1], s); }
  }

  lemma {:induction false} SameChoiceNodes(e: Attributes, z: Attributes, ids: seq<Id>, c: ChoiceId)
    requires e.item == z.item
    ensures ChoiceNodes(e, ids, c) == ChoiceNodes(z, ids, c)
    ensures forall id :: id in ChoiceNodes(z, ids, c) ==> id in ids
  {
    if ids != [] { SameChoiceNodes(e, z, ids[1..], c); }
  }

  lemma SameSym(e: Attributes, z: Attributes, b: Builds, nodes: seq<Id>, x: Extras, s: SymName)
    requires e.item == z.item && forall id :: id in nodes ==> e.Of(id) == z.Of(id)
    ensures SymOf(e, b, nodes, x, s) == SymOf(z, b, nodes, x, s)
  {
    SameSymNodes(e, z, nodes);
    SymNodesAre(z, nodes);
    SameNodesOf(e, z, SymNodes(z, nodes), s);
    NodesAre(z, SymNodes(z, nodes), s);
    SamePromptList(e, z, NodesOf(z, SymNodes(z, nodes), s));
  }

  lemma SameChoice(e: Attributes, z: Attributes, b: Builds, nodes: seq<Id>, x: Extras, c: ChoiceId)
    requires e.item == z.item && forall id :: id in nodes ==> e.Of(id) == z.Of(id)
    ensures ChoiceDefOf(e, b, nodes, x, c) == ChoiceDefOf(z, b, nodes, x, c)
  {
    SameChoiceNodes(e, z, nodes, c);
    SamePromptList(e, z, ChoiceNodes(z, nodes, c));
  }

  lemma SameTree(e: Attributes, z: Attributes, b: Builds, nodes: seq<Id>, x: Extras)
    requires e.item == z.item && forall id :: id in nodes ==> e.Of(id) == z.Of(id)
    ensures TreeOf(e, b, nodes, x) == TreeOf(z, b, nodes, x)
  {
    assert SymKeys(e, nodes) == SymKeys(z, nodes) && ChoiceKeys(e, nodes) == ChoiceKeys(z, nodes);
    assert SymsOf(e, b, nodes, x) == SymsOf(z, b, nodes, x) by {
      forall s | s in SymKeys(z, nodes) ensures SymOf(e, b, nodes, x, s) == SymOf(z, b, nodes, x, s) {
        SameSym(e, z, b, nodes, x, s);
      }
    }
    assert ChoicesOf(e, b, nodes, x) == ChoicesOf(z, b, nodes, x) by {
      forall c | c in ChoiceKeys(z, nodes) ensures ChoiceDefOf(e, b, nodes, x, c) == ChoiceDefOf(z, b, nodes, x, c) {
        SameChoice(e, z, b, nodes, x, c);
      }
    }
  }

  // ----- Starting -----

  /** The tree that a parsed menu tree with these attributes ends up as */
  function Outcome(a: Attributes, f: Forest, x: Extras): Tree
    requires f.Menu?
  {
    var z := MenuTree.Final(a, f);
    TreeOf(z, Result(z, f.list, x.kinds), Items(a, f.list), x)
  }

  ghost predicate Sound(a: Attributes, f: Forest, x: Extras)
    requires f.Menu?
  {
    var z := MenuTree.Final(a, f);
    PassesSanity(Outcome(a, f, x), z, Result(z, f.list, x.kinds), f.list) && ChoiceSymsLogical(Outcome(a, f, x))
  }

  lemma OutcomeProduced(a: Attributes, f: Forest, x: Extras)
    requires MenuTree.Parsed(a, f) && Sound(a, f, x)
    ensures Produced(a, MenuTree.Final(a, f), f.list, x.kinds, Outcome(a, f, x))
  {
    var z := MenuTree.Final(a, f);
    MenuTree.FinalJob(a, f);
    MenuTree.ItemsSame(a, z, f.list);
    DistinctParts(f);
    TreeWhole(z, Result(z, f.list, x.kinds), f.list, x);
  }

  /** What comes out is sane and guarded. */
  lemma OutcomeSane(a: Attributes, f: Forest, x: Extras)
    requires MenuTree.Parsed(a, f) && Sound(a, f, x)
    ensures Sane(Outcome(a, f, x)) && Guarded(Outcome(a, f, x))
  {
    var z, t := MenuTree.Final(a, f), Outcome(a, f, x);
    OutcomeProduced(a, f, x);
    FinalisedSane(a, z, f.list, x.kinds, t);
    FinalisedGuarded(a, z, f.list, x.kinds, t);
  }

  /** Finalising a parsed menu tree, and the tree for the evaluator */
  method FinalizeAndAssemble(menus: MenuTree.Menus, top: Id, x: Extras, ghost f: Forest) returns (t: Tree, nodes: seq<Id>)
    requires MenuTree.Parsed(menus.Attrs(), f) && f.id == top && MenuTree.Linked(menus.links, f, None, None)
    requires menus.builds == Start(x.kinds)
    modifies menus
    ensures t == Outcome(old(menus.Attrs()), f, x) && nodes == Items(old(menus.Attrs()), f.list)
  {
    ghost var a := menus.Attrs();
    ghost var z := MenuTree.Final(a, f);
    menus.Finalize(top, f);
    nodes := menus.NodeIter(top, false, Menu(top, Kids(z, f), Nil));
    MenuTree.FinalWalk(a, f);
    t := TreeOf(menus.Attrs(), menus.builds, nodes, x);
    NodesFinal(a, z, menus.Attrs(), f);
    SameTree(menus.Attrs(), z, menus.builds, nodes, x);
  }

  lemma NodesFinal(a: Attributes, z: Attributes, e: Attributes, f: Forest)
    requires f.Menu? && MenuTree.SameProps(z, e, Ids(f)) && a.item == z.item
    ensures forall id :: id in Items(a, f.list) ==> e.Of(id) == z.Of(id)
  {
    ItemsAre(a, f.list);
    assert forall id :: id in Ids(f.list) ==> id in Ids(f);
  }

  /** From a parsed menu tree that passes the sanity checks to a running program: without a loop the program does start, and
      what starts is ready for every query exactly if there is an order for that. */
  method FinalizeAndStart(menus: MenuTree.Menus, top: Id, x: Extras, items: seq<Item>, syms: seq<SymName>, ghost f: Forest)
    returns (k: KconfigCache.Kconfig?, ghost n: KconfigLoops.Net)
    requires MenuTree.Parsed(menus.Attrs(), f) && f.id == top && MenuTree.Linked(menus.links, f, None, None)
    requires menus.builds == Start(x.kinds) && Sound(menus.Attrs(), f, x)
    requires forall y :: y in items <==> KconfigCache.Defined(Outcome(menus.Attrs(), f, x), y)
    requires forall s :: s in syms <==> s in Outcome(menus.Attrs(), f, x).syms
    modifies menus
    ensures var t := Outcome(old(menus.Attrs()), f, x);
      && n.t == t && KconfigOrder.Complete(n) && Guarded(t)
      && (KconfigLoops.LoopFree(n) ==> k != null)
      && (k != null ==> fresh(k) && k.t == t && (k.Valid() <==> exists rank :: Ranked(t, rank)))
      && ((exists level :: KconfigOrder.Graded(n, level)) ==> k != null && k.Valid())
  {
    OutcomeSane(menus.Attrs(), f, x);
    var t, nodes := FinalizeAndAssemble(menus, top, x, f);
    var r;
    ghost var missed;
    k, r, n, missed := KconfigOrder.Start(t, items, syms);
  }
}
