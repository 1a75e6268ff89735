/** The menu tree as a value, and what finalising it does to its shape: implicit submenus are created, promptless
    nodes are flattened and `if` nodes are removed. */
module MenuForest {
  import opened Wrappers
  import opened KconfigTree

  type Id = nat

  /** Siblings: the first one, its children, and the others */
  datatype Forest = Nil | Menu(id: Id, list: Forest, next: Forest)

  /** The item of a menu node; an `if` node has none. */
  datatype Entry = SymbolEntry(sym: SymName) | ChoiceEntry(choice: ChoiceId) | MenuEntry | CommentEntry | IfEntry

  /** What a menu node adds to its symbol or choice, with its condition */
  datatype Property =
    | DefaultOf(value: Expr, cond: Expr)
    | RangeOf(low: Leaf, high: Leaf, cond: Expr)
    | SelectOf(target: SymName, cond: Expr)
    | ImplyOf(target: SymName, cond: Expr)

  /** The expressions of a menu node: its dependencies, the condition of its prompt, and its defaults, ranges, selects and
      implies */
  datatype Props = Props(dep: Expr, prompt: Option<Expr>, adds: seq<Property>)

  /** The nodes' attributes, apart from their links; `visibility` is the `visible if` condition of a menu. */
  datatype Attributes = Attributes(item: map<Id, Entry>, props: map<Id, Props>, visibility: map<Id, Expr>) {
    function Item(id: Id): Entry { if id in item then item[id] else CommentEntry }
    function Of(id: Id): Props { if id in props then props[id] else Props(Y, None, []) }
    function VisibleIf(id: Id): Expr { if id in visibility then visibility[id] else Y }
  }

  predicate IsIf(e: Attributes, id: Id) { e.Item(id).IfEntry? }

  predicate IsSymbol(e: Attributes, id: Id) { e.Item(id).SymbolEntry? }

  // ----- Forests -----

  /** The nodes in the order of a walk from the top */
  function Pre(f: Forest): seq<Id> { if f.Nil? then [] else [f.id] + Pre(f.list) + Pre(f.next) }

  function Own(e: Attributes, id: Id): seq<Id> { if IsIf(e, id) then [] else [id] }

  /** The nodes that are not `if` nodes, in that order */
  function Items(e: Attributes, f: Forest): seq<Id> {
    if f.Nil? then [] else Own(e, f.id) + Items(e, f.list) + Items(e, f.next)
  }

  /** The nodes, with how often they occur */
  function Ids(f: Forest): multiset<Id> { if f.Nil? then multiset{} else multiset{f.id} + Ids(f.list) + Ids(f.next) }

  function Size(f: Forest): nat { if f.Nil? then 0 else 1 + Size(f.list) + Size(f.next) }

  function Append(f: Forest, g: Forest): Forest { if f.Nil? then g else Menu(f.id, f.list, Append(f.next, g)) }

  lemma {:induction false} AppendSize(f: Forest, g: Forest)
    ensures Size(Append(f, g)) == Size(f) + Size(g)
  {
    if f.Menu? { AppendSize(f.next, g); }
  }

  lemma {:induction false} AppendItems(e: Attributes, f: Forest, g: Forest)
    ensures Items(e, Append(f, g)) == Items(e, f) + Items(e, g)
  {
    if f.Menu? { AppendItems(e, f.next, g); }
  }

  lemma {:induction false} AppendIds(f: Forest, g: Forest)
    ensures Ids(Append(f, g)) == Ids(f) + Ids(g)
  {
    if f.Menu? { AppendIds(f.next, g); }
  }

  lemma {:induction false} AppendNil(f: Forest)
    ensures Append(f, Nil) == f
  {
    if f.Menu? { AppendNil(f.next); }
  }

  /** No node occurs twice. */
  ghost predicate Distinct(f: Forest) { forall id :: Ids(f)[id] <= 1 }

  lemma DistinctParts(f: Forest)
    requires f.Menu? && Distinct(f)
    ensures Distinct(f.list) && Distinct(f.next)
    ensures f.id !in Ids(f.list) && f.id !in Ids(f.next)
    ensures forall id :: id in Ids(f.list) ==> id !in Ids(f.next)
  {
    var list, next := Ids(f.list), Ids(f.next);
    forall id ensures list[id] <= 1 && next[id] <= 1 && list[id] + next[id] <= 1 && (id == f.id ==> list[id] == next[id] == 0) {
      OneOfThree(f, id);
    }
  }

  lemma OneOfThree(f: Forest, id: Id)
    requires f.Menu? && Distinct(f)
    ensures Ids(f.list)[id] + Ids(f.next)[id] + multiset{f.id}[id] <= 1
  {
    assert Ids(f)[id] <= 1;
  }

  /** No `if` nodes in a forest */
  predicate NoIfs(e: Attributes, f: Forest) { f.Menu? ==> !IsIf(e, f.id) && NoIfs(e, f.list) && NoIfs(e, f.next) }

  /** No `if` nodes below the nodes of a level */
  predicate Clean(e: Attributes, f: Forest) { f.Menu? ==> NoIfs(e, f.list) && Clean(e, f.next) }

  lemma {:induction false} AppendClean(e: Attributes, f: Forest, g: Forest)
    requires NoIfs(e, f) && Clean(e, g)
    ensures Clean(e, Append(f, g))
  {
    if f.Menu? { AppendClean(e, f.next, g); }
  }

  /** Where there are no `if` nodes, the walk visits the items. */
  lemma {:induction false} ItemsPre(e: Attributes, f: Forest)
    requires NoIfs(e, f)
    ensures Pre(f) == Items(e, f)
  {
    if f.Menu? {
      ItemsPre(e, f.list);
      ItemsPre(e, f.next);
    }
  }

  // ----- The last steps for a level -----

  /** Nodes without a prompt do not keep their children, unless they are choices. */
  predicate Lifts(e: Attributes, id: Id) { e.Of(id).prompt.None? && !e.Item(id).ChoiceEntry? }

  /** `_flatten`: the children of a promptless node come after it. */
  function Flat(e: Attributes, f: Forest): Forest
    decreases Size(f)
  {
    if f.Nil? then Nil
    else if f.list.Menu? && Lifts(e, f.id) then
      AppendSize(f.list, f.next);
      Menu(f.id, Nil, Flat(e, Append(f.list, f.next)))
    else Menu(f.id, f.list, Flat(e, f.next))
  }

  /** `_remove_ifs` on one level */
  function Kept(e: Attributes, f: Forest): Forest {
    if f.Nil? then Nil else if IsIf(e, f.id) then Kept(e, f.next) else Menu(f.id, f.list, Kept(e, f.next))
  }

  function Level(e: Attributes, f: Forest): Forest { Kept(e, Flat(e, f)) }

  /** `if` nodes have no prompt. */
  ghost predicate IfsPromptless(e: Attributes) { forall id :: IsIf(e, id) ==> Lifts(e, id) }

  /** What remains to be done for a level after its first node */
  function Onward(e: Attributes, f: Forest): Forest
    requires f.Menu?
  {
    if f.list.Menu? && Lifts(e, f.id) then Append(f.list, f.next) else f.next
  }

  /** The first node of a level, when what comes after it is known */
  lemma LevelStep(e: Attributes, f: Forest)
    requires IfsPromptless(e) && f.Menu? && Clean(e, f) && NoIfs(e, Level(e, Onward(e, f)))
    ensures NoIfs(e, Level(e, f))
    ensures var list := if f.list.Menu? && Lifts(e, f.id) then [] else Items(e, f.list);
      Items(e, Level(e, f)) == Own(e, f.id) + list + Items(e, Level(e, Onward(e, f)))
  {
    var list := if f.list.Menu? && Lifts(e, f.id) then Nil else f.list;
    var flat := Flat(e, Onward(e, f));
    assert Flat(e, f) == Menu(f.id, list, flat);
    if !IsIf(e, f.id) { assert Level(e, f) == Menu(f.id, list, Kept(e, flat)); }
  }

  lemma OnwardItems(e: Attributes, f: Forest)
    requires f.Menu? && Clean(e, f)
    ensures Clean(e, Onward(e, f)) && Size(Onward(e, f)) < Size(f)
    ensures Items(e, Onward(e, f)) == (if f.list.Menu? && Lifts(e, f.id) then Items(e, f.list) else []) + Items(e, f.next)
  {
    if f.list.Menu? && Lifts(e, f.id) {
      AppendSize(f.list, f.next);
      AppendItems(e, f.list, f.next);
      AppendClean(e, f.list, f.next);
    }
  }

  /** A level keeps the order of the walk and loses exactly the `if` nodes. */
  lemma {:induction false} LevelItems(e: Attributes, f: Forest)
    requires IfsPromptless(e) && Clean(e, f)
    ensures Items(e, Level(e, f)) == Items(e, f) && NoIfs(e, Level(e, f))
    decreases Size(f)
  {
    if f.Menu? {
      OnwardItems(e, f);
      LevelItems(e, Onward(e, f));
      LevelStep(e, f);
    }
  }

  lemma {:induction false} FlatIds(e: Attributes, f: Forest)
    ensures Ids(Flat(e, f)) == Ids(f)
    decreases Size(f)
  {
    if f.Menu? {
      if f.list.Menu? && Lifts(e, f.id) {
        AppendSize(f.list, f.next);
        AppendIds(f.list, f.next);
        FlatIds(e, Append(f.list, f.next));
      } else {
        FlatIds(e, f.next);
      }
    }
  }

  lemma {:induction false} KeptIds(e: Attributes, f: Forest)
    ensures Ids(Kept(e, f)) <= Ids(f)
  {
    if f.Menu? { KeptIds(e, f.next); }
  }

  lemma LevelIds(e: Attributes, f: Forest)
    ensures Ids(Level(e, f)) <= Ids(f)
  {
    FlatIds(e, f);
    KeptIds(e, Flat(e, f));
  }

  // ----- Implicit submenus -----

  /** `_expr_depends_on`: the condition requires the symbol. Comparing a symbol with y counts also for !=, as the
      program's operators bind. */
  predicate DependsOn(x: Expr, sym: SymName) {
    match x
    case Ref(leaf) => leaf == Sym(sym)
    case And(l, r) => DependsOn(l, sym) || DependsOn(r, sym)
    case Rel(op, a, b) =>
      if op != Eq && op != Ne then false
      else if b != Sym(sym) && a != Sym(sym) then false
      else
        var other := if b == Sym(sym) then a else b;
        || (op == Eq && other == Const("m")) || other == Const("y") || (op == Ne && other == Const("n"))
    case _ => false
  }

  /** What the program's comment says: the symbol itself, `sym = m`, `sym = y` or `sym != n`, in either order of the
      operands, or a conjunction with one of these */
  predicate Documented(x: Expr, sym: SymName) {
    match x
    case Ref(leaf) => leaf == Sym(sym)
    case And(l, r) => Documented(l, sym) || Documented(r, sym)
    case Rel(op, a, b) =>
      || (op == Eq && (Compares(a, b, sym, "m") || Compares(a, b, sym, "y")))
      || (op == Ne && Compares(a, b, sym, "n"))
    case _ => false
  }

  predicate Compares(a: Leaf, b: Leaf, sym: SymName, value: string) {
    (a == Sym(sym) && b == Const(value)) || (b == Sym(sym) && a == Const(value))
  }

  /** A conjunct compares the symbol with y by !=. */
  predicate ComparesNotY(x: Expr, sym: SymName) {
    match x
    case And(l, r) => ComparesNotY(l, sym) || ComparesNotY(r, sym)
    case Rel(op, a, b) => op == Ne && Compares(a, b, sym, "y")
    case _ => false
  }

  lemma RelDepends(op: RelOp, a: Leaf, b: Leaf, sym: SymName)
    ensures DependsOn(Rel(op, a, b), sym) <==> Documented(Rel(op, a, b), sym) || ComparesNotY(Rel(op, a, b), sym)
  {
    assert "m"[0] != "y"[0] && "m"[0] != "n"[0] && "y"[0] != "n"[0];
  }

  lemma {:induction false} DependsOnIs(x: Expr, sym: SymName)
    ensures DependsOn(x, sym) <==> Documented(x, sym) || ComparesNotY(x, sym)
  {
    match x
    case And(l, r) => {
      DependsOnIs(l, sym);
      DependsOnIs(r, sym);
    }
    case Rel(op, a, b) => { RelDepends(op, a, b, sym); }
    case _ => {}
  }

  /** The program agrees with its comment exactly when no conjunct compares the symbol with y by !=, or the condition
      depends on the symbol anyway. */
  lemma DocumentedIff(x: Expr, sym: SymName)
    ensures (DependsOn(x, sym) <==> Documented(x, sym)) <==> !ComparesNotY(x, sym) || Documented(x, sym)
  {
    DependsOnIs(x, sym);
  }

  /** Where it does not: `sym != y` */
  lemma NotYDepends(sym: SymName)
    ensures DependsOn(Rel(Ne, Sym(sym), Const("y")), sym) && !Documented(Rel(Ne, Sym(sym), Const("y")), sym)
  {
    RelDepends(Ne, Sym(sym), Const("y"), sym);
    assert "y"[0] != "n"[0];
  }

  /** `_auto_menu_dep` for a symbol's node and another node */
  predicate Submenu(e: Attributes, id: Id, other: Id) {
    && e.Item(id).SymbolEntry?
    && DependsOn(if e.Of(other).prompt.Some? then e.Of(other).prompt.value else e.Of(other).dep, e.Item(id).sym)
  }

  /** The siblings that are left when the first is finalised: a symbol takes those after it that depend on it into an
      implicit submenu, and so do the symbols among them. */
  function Rest(e: Attributes, f: Forest): (r: Forest)
    requires f.Menu?
    ensures Size(r) < Size(f)
    decreases Size(f), 1
  {
    if IsSymbol(e, f.id) then Left(e, f.id, f.next) else f.next
  }

  function Left(e: Attributes, id: Id, f: Forest): (r: Forest)
    ensures Size(r) <= Size(f)
    decreases Size(f), 2
  {
    if f.Nil? || !Submenu(e, id, f.id) then f else Left(e, id, Rest(e, f))
  }

  /** `_finalize_node` on the first of some siblings: its children afterwards */
  function Kids(e: Attributes, f: Forest): Forest
    requires f.Menu?
    decreases Size(f), 1
  {
    Level(e, if IsSymbol(e, f.id) then Submenus(e, f.id, f.next) else Each(e, f.list))
  }

  /** The finalised nodes of a symbol's implicit submenu */
  function Submenus(e: Attributes, id: Id, f: Forest): Forest
    decreases Size(f), 2
  {
    if f.Nil? || !Submenu(e, id, f.id) then Nil else Menu(f.id, Kids(e, f), Submenus(e, id, Rest(e, f)))
  }

  /** All siblings finalised, one after the other */
  function Each(e: Attributes, f: Forest): Forest
    decreases Size(f), 2
  {
    if f.Nil? then Nil else Menu(f.id, Kids(e, f), Each(e, Rest(e, f)))
  }

  // ----- Which nodes become children -----

  /** The node's condition, which is that of its prompt, if it has one, and else its dependencies, requires the symbol. */
  predicate Requires(e: Attributes, other: Id, sym: SymName) {
    var x := match e.Of(other).prompt case Some(p) => p case None => e.Of(other).dep;
    Documented(x, sym) || ComparesNotY(x, sym)
  }

  lemma SubmenuIff(e: Attributes, id: Id, other: Id)
    ensures Submenu(e, id, other) <==> IsSymbol(e, id) && Requires(e, other, e.Item(id).sym)
  {
    var p := e.Of(other).prompt;
    if IsSymbol(e, id) { DependsOnIs(if p.Some? then p.value else e.Of(other).dep, e.Item(id).sym); }
  }

  /** The nodes of a level, in order */
  function Sibs(f: Forest): seq<Id> { if f.Nil? then [] else [f.id] + Sibs(f.next) }

  /** Every node that a symbol takes into its implicit submenu requires it, and the first node left behind does not. */
  lemma {:induction false} TakenRequire(e: Attributes, id: Id, f: Forest)
    requires IsSymbol(e, id)
    ensures forall x :: x in Sibs(Submenus(e, id, f)) ==> Requires(e, x, e.Item(id).sym)
    ensures Left(e, id, f).Menu? ==> !Requires(e, Left(e, id, f).id, e.Item(id).sym)
    decreases Size(f)
  {
    if f.Menu? {
      SubmenuIff(e, id, f.id);
      if Submenu(e, id, f.id) { TakenRequire(e, id, Rest(e, f)); }
    }
  }

  /** `r` is the end of `s`. */
  predicate EndOf(r: seq<Id>, s: seq<Id>) { |r| <= |s| && r == s[|s| - |r|..] }

  lemma EndOfEnd(r: seq<Id>, q: seq<Id>, s: seq<Id>, x: Id)
    requires EndOf(r, q) && EndOf(q, s)
    ensures EndOf(r, [x] + s)
  {
    assert r == s[|s| - |q|..][|q| - |r|..];
  }

  /** What a node leaves over, with all that it takes, is the end of its following siblings; a node that is not a symbol's
      takes none. */
  lemma {:induction false} RestIsEnd(e: Attributes, f: Forest)
    requires f.Menu?
    ensures EndOf(Sibs(Rest(e, f)), Sibs(f.next)) && (!IsSymbol(e, f.id) ==> Rest(e, f) == f.next)
    decreases Size(f), 1
  {
    if IsSymbol(e, f.id) { LeftIsEnd(e, f.id, f.next); }
  }

  lemma {:induction false} LeftIsEnd(e: Attributes, id: Id, f: Forest)
    ensures EndOf(Sibs(Left(e, id, f)), Sibs(f))
    decreases Size(f), 2
  {
    if f.Menu? && Submenu(e, id, f.id) {
      RestIsEnd(e, f);
      LeftIsEnd(e, id, Rest(e, f));
      EndOfEnd(Sibs(Left(e, id, Rest(e, f))), Sibs(Rest(e, f)), Sibs(f.next), f.id);
    }
  }

  /** The nodes that keep their children: those with a prompt, and choices */
  predicate Keeps(e: Attributes, id: Id) { e.Of(id).prompt.Some? || e.Item(id).ChoiceEntry? }

  predicate AtTop(f: Forest, id: Id, list: Forest) { f.Menu? && ((f.id == id && f.list == list) || AtTop(f.next, id, list)) }

  /** In a finished level no `if` nodes are left, only nodes that keep their children have any, and these have lost none. */
  lemma {:induction false} LevelKeeps(e: Attributes, f: Forest, id: Id, list: Forest)
    ensures AtTop(Level(e, f), id, list) ==> !IsIf(e, id) && (list.Menu? ==> Keeps(e, id))
    ensures AtTop(f, id, list) && Keeps(e, id) && !IsIf(e, id) ==> AtTop(Level(e, f), id, list)
    decreases Size(f)
  {
    if f.Menu? {
      if f.list.Menu? && Lifts(e, f.id) {
        AppendSize(f.list, f.next);
        LevelKeeps(e, Append(f.list, f.next), id, list);
        AppendTop(f.list, f.next, id, list);
      } else {
        LevelKeeps(e, f.next, id, list);
      }
    }
  }

  lemma {:induction false} AppendTop(f: Forest, g: Forest, id: Id, list: Forest)
    ensures AtTop(Append(f, g), id, list) <==> AtTop(f, id, list) || AtTop(g, id, list)
  {
    if f.Menu? { AppendTop(f.next, g, id, list); }
  }

  // ----- The walk over the finalised tree -----

  /** Before it is finalised, a symbol's node has no children. */
  predicate SymbolsLeaf(e: Attributes, f: Forest) {
    f.Menu? ==> (IsSymbol(e, f.id) ==> f.list.Nil?) && SymbolsLeaf(e, f.list) && SymbolsLeaf(e, f.next)
  }

  lemma {:induction false} RestLeaf(e: Attributes, f: Forest)
    requires f.Menu? && SymbolsLeaf(e, f)
    ensures SymbolsLeaf(e, Rest(e, f))
    decreases Size(f), 1
  {
    if IsSymbol(e, f.id) { LeftLeaf(e, f.id, f.next); }
  }

  lemma {:induction false} LeftLeaf(e: Attributes, id: Id, f: Forest)
    requires SymbolsLeaf(e, f)
    ensures SymbolsLeaf(e, Left(e, id, f))
    decreases Size(f), 2
  {
    if f.Menu? && Submenu(e, id, f.id) {
      RestLeaf(e, f);
      LeftLeaf(e, id, Rest(e, f));
    }
  }

  lemma {:induction false} KidsItems(e: Attributes, f: Forest)
    requires IfsPromptless(e) && SymbolsLeaf(e, f) && f.Menu?
    ensures NoIfs(e, Kids(e, f))
    ensures Items(e, Kids(e, f)) + Items(e, Rest(e, f)) == Items(e, f.list) + Items(e, f.next)
    decreases Size(f), 1
  {
    if IsSymbol(e, f.id) {
      SubmenusItems(e, f.id, f.next);
      LevelItems(e, Submenus(e, f.id, f.next));
    } else {
      EachItems(e, f.list);
      LevelItems(e, Each(e, f.list));
    }
  }

  lemma Regroup(own: seq<Id>, kids: seq<Id>, rest: seq<Id>, list: seq<Id>, next: seq<Id>, subs: seq<Id>, left: seq<Id>)
    requires kids + rest == list + next && subs + left == rest
    ensures own + kids + subs + left == own + list + next
  {
    assert own + kids + subs + left == own + (kids + (subs + left));
    assert own + list + next == own + (list + next);
  }

  lemma {:induction false} SubmenusItems(e: Attributes, id: Id, f: Forest)
    requires IfsPromptless(e) && SymbolsLeaf(e, f)
    ensures Clean(e, Submenus(e, id, f))
    ensures Items(e, Submenus(e, id, f)) + Items(e, Left(e, id, f)) == Items(e, f)
    decreases Size(f), 2
  {
    if f.Menu? && Submenu(e, id, f.id) {
      KidsItems(e, f);
      RestLeaf(e, f);
      SubmenusItems(e, id, Rest(e, f));
      Regroup(Own(e, f.id), Items(e, Kids(e, f)), Items(e, Rest(e, f)), Items(e, f.list), Items(e, f.next),
              Items(e, Submenus(e, id, Rest(e, f))), Items(e, Left(e, id, f)));
    }
  }

  lemma {:induction false} EachItems(e: Attributes, f: Forest)
    requires IfsPromptless(e) && SymbolsLeaf(e, f)
    ensures Clean(e, Each(e, f)) && Items(e, Each(e, f)) == Items(e, f)
    decreases Size(f), 2
  {
    if f.Menu? {
      KidsItems(e, f);
      RestLeaf(e, f);
      EachItems(e, Rest(e, f));
      Regroup(Own(e, f.id), Items(e, Kids(e, f)), Items(e, Rest(e, f)), Items(e, f.list), Items(e, f.next),
              Items(e, Each(e, Rest(e, f))), []);
    }
  }

  /** Finalising a whole tree keeps the order of a walk over its nodes and drops exactly the `if` nodes, whatever
      implicit submenus the dependencies create. */
  lemma FinalisedWalk(e: Attributes, top: Forest)
    requires IfsPromptless(e) && SymbolsLeaf(e, top) && top.Menu? && !IsSymbol(e, top.id)
    ensures Pre(Kids(e, top)) == Items(e, top.list)
  {
    EachItems(e, top.list);
    LevelItems(e, Each(e, top.list));
    ItemsPre(e, Kids(e, top));
  }

  // ----- The nodes of the finalised tree -----

  lemma {:induction false} KidsIds(e: Attributes, f: Forest)
    requires SymbolsLeaf(e, f) && f.Menu?
    ensures Ids(Kids(e, f)) + Ids(Rest(e, f)) <= Ids(f.list) + Ids(f.next)
    decreases Size(f), 1
  {
    if IsSymbol(e, f.id) {
      SubmenusIds(e, f.id, f.next);
      LevelIds(e, Submenus(e, f.id, f.next));
    } else {
      EachIds(e, f.list);
      LevelIds(e, Each(e, f.list));
    }
  }

  lemma RegroupIds(
      own: multiset<Id>, kids: multiset<Id>, rest: multiset<Id>, list: multiset<Id>, next: multiset<Id>,
      subs: multiset<Id>, left: multiset<Id>)
    requires kids + rest <= list + next && subs + left <= rest
    ensures own + kids + subs + left <= own + list + next
  {
    forall x ensures (own + kids + subs + left)[x] <= (own + list + next)[x] {
      assert (kids + rest)[x] <= (list + next)[x] && (subs + left)[x] <= rest[x];
    }
  }

  lemma {:induction false} SubmenusIds(e: Attributes, id: Id, f: Forest)
    requires SymbolsLeaf(e, f)
    ensures Ids(Submenus(e, id, f)) + Ids(Left(e, id, f)) <= Ids(f)
    decreases Size(f), 2
  {
    if f.Menu? && Submenu(e, id, f.id) {
      KidsIds(e, f);
      RestLeaf(e, f);
      SubmenusIds(e, id, Rest(e, f));
      RegroupIds(multiset{f.id}, Ids(Kids(e, f)), Ids(Rest(e, f)), Ids(f.list), Ids(f.next),
                 Ids(Submenus(e, id, Rest(e, f))), Ids(Left(e, id, f)));
    }
  }

  lemma {:induction false} EachIds(e: Attributes, f: Forest)
    requires SymbolsLeaf(e, f)
    ensures Ids(Each(e, f)) <= Ids(f)
    decreases Size(f), 2
  {
    if f.Menu? {
      KidsIds(e, f);
      RestLeaf(e, f);
      EachIds(e, Rest(e, f));
      RegroupIds(multiset{f.id}, Ids(Kids(e, f)), Ids(Rest(e, f)), Ids(f.list), Ids(f.next),
                 Ids(Each(e, Rest(e, f))), multiset{});
    }
  }
}
