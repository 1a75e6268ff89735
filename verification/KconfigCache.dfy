/** The values of kconfiglib as the program computes them: cached, with recursive invalidation. */
module KconfigCache {
  import opened Wrappers
  import opened KconfigTree
  import opened KconfigEval

  predicate Defined(t: Tree, x: Item) {
    match x
    case SymItem(s) => s in t.syms
    case ChoiceItem(c) => c in t.choices
  }

  function DependentsOf(dependents: map<Item, set<Item>>, x: Item): set<Item> {
    if x in dependents then dependents[x] else {}
  }

  /** The _dependents sets hold every item that is registered to depend on an item. */
  ghost predicate Registered(t: Tree, dependents: map<Item, set<Item>>) {
    forall x, y {:trigger y in DependentsOf(dependents, x)} ::
      y in DependentsOf(dependents, x) <==> Defined(t, y) && x in DirectDeps(t, y)
  }

  predicate Extends(m: Answers, m': Answers) { forall q :: q in m ==> q in m' && m'[q] == m[q] }

  /** Recording an answer that follows from the recorded ones keeps them consistent. */
  lemma Record(t: Tree, u: Users, m: Answers, q: Query, v: Value)
    requires Sane(t) && ValidUsers(t, u) && Consistent(t, u, m) && Answer(t, u, m, q) == Some(v)
    ensures Consistent(t, u, m[q := v]) && Extends(m, m[q := v])
  {
    assert q in m ==> Answer(t, u, m, q) == Some(m[q]);
    var m' := m[q := v];
    forall p | p in m' ensures Answer(t, u, m', p) == Some(m'[p]) {
      if p in m { assert Answer(t, u, m, p) == Some(m[p]); }
      ConsistentKept(t, u, m, m', p);
    }
  }

  // ----- Prefixes of property lists, for the loops -----

  lemma MaxPromptSnoc(t: Tree, u: Users, m: Answers, ps: seq<Expr>, p: Expr)
    requires MaxPrompt(t, u, m, ps).Some? && ExprVal(t, u, m, p).Some?
    ensures MaxPrompt(t, u, m, ps + [p]) == Some(Max(MaxPrompt(t, u, m, ps).value, ExprVal(t, u, m, p).value))
  {
    if ps == [] {
      assert ps + [p] == [p] && MaxPrompt(t, u, m, [p][1..]) == Some(0);
    } else {
      assert (ps + [p])[1..] == ps[1..] + [p];
      MaxPromptSnoc(t, u, m, ps[1..], p);
    }
  }

  /** Defaults whose condition is n are skipped. */
  lemma SkipDefaults(t: Tree, u: Users, m: Answers, ds: seq<Default>, i: nat)
    requires i <= |ds| && forall j :: 0 <= j < i ==> ExprVal(t, u, m, ds[j].cond) == Some(0)
    ensures FirstDefault(t, u, m, ds) == FirstDefault(t, u, m, ds[i..])
    ensures FirstText(t, u, m, ds) == FirstText(t, u, m, ds[i..])
  {
    if i > 0 {
      SkipDefaults(t, u, m, ds[1..], i - 1);
      assert ds[1..][i - 1..] == ds[i..];
    }
  }

  lemma SkipRanges(t: Tree, u: Users, m: Answers, kind: Kind, rs: seq<Range>, i: nat)
    requires i <= |rs| && forall j :: 0 <= j < i ==> ExprVal(t, u, m, rs[j].cond) == Some(0)
    ensures ActiveRange(t, u, m, kind, rs) == ActiveRange(t, u, m, kind, rs[i..])
  {
    if i > 0 {
      SkipRanges(t, u, m, kind, rs[1..], i - 1);
      assert rs[1..][i - 1..] == rs[i..];
    }
  }

  lemma SkipInvisible(t: Tree, m: Answers, syms: seq<SymName>, i: nat)
    requires i <= |syms| && forall j :: 0 <= j < i ==> SymVis(t, m, syms[j]) == Some(0)
    ensures FirstVisible(t, m, syms) == FirstVisible(t, m, syms[i..])
  {
    if i > 0 {
      SkipInvisible(t, m, syms[1..], i - 1);
      assert syms[1..][i - 1..] == syms[i..];
    }
  }

  predicate Passed(t: Tree, u: Users, m: Answers, d: ChoiceDefault) {
    ExprVal(t, u, m, d.cond) == Some(0) || (ExprVal(t, u, m, d.cond).Some? && SymVis(t, m, d.sym) == Some(0))
  }

  lemma SkipChoiceDefaults(t: Tree, u: Users, m: Answers, ds: seq<ChoiceDefault>, i: nat)
    requires i <= |ds| && forall j :: 0 <= j < i ==> Passed(t, u, m, ds[j])
    ensures FirstChoiceDefault(t, u, m, ds) == FirstChoiceDefault(t, u, m, ds[i..])
  {
    if i > 0 {
      assert Passed(t, u, m, ds[0]);
      SkipChoiceDefaults(t, u, m, ds[1..], i - 1);
      assert ds[1..][i - 1..] == ds[i..];
    }
  }

  lemma DefaultMember(ds: seq<Default>, i: nat)
    requires i < |ds|
    ensures ExprItems(ds[i].value) + ExprItems(ds[i].cond) <= DefaultItems(ds)
  {
    if i > 0 { DefaultMember(ds[1..], i - 1); }
  }

  lemma RangeMember(rs: seq<Range>, i: nat)
    requires i < |rs|
    ensures LeafItems(rs[i].low) + LeafItems(rs[i].high) + ExprItems(rs[i].cond) <= RangeItems(rs)
  {
    if i > 0 { RangeMember(rs[1..], i - 1); }
  }

  lemma ChoiceDefaultMember(ds: seq<ChoiceDefault>, i: nat)
    requires i < |ds|
    ensures ExprItems(ds[i].cond) <= ChoiceDefaultItems(ds)
  {
    if i > 0 { ChoiceDefaultMember(ds[1..], i - 1); }
  }

  // ----- Runs -----

  datatype Operation =
    | SetSym(s: SymName, value: UserVal)
    | UnsetSym(s: SymName)
    | SetChoice(c: ChoiceId, mode: Tri)
    | UnsetChoice(c: ChoiceId)
    | UnsetAll
    | Reading(q: Query)

  predicate Legal(t: Tree, op: Operation) {
    match op
    case SetSym(s, _) => s in t.syms
    case UnsetSym(s) => s in t.syms
    case SetChoice(c, _) => c in t.choices
    case UnsetChoice(c) => c in t.choices
    case UnsetAll => true
    case Reading(q) => Varies(t, q)
  }

  /** The user values after an operation */
  function Performed(t: Tree, u: Users, op: Operation): Users
    requires Legal(t, op)
  {
    match op
    case SetSym(s, value) => AssignSym(t, u, s, value).0
    case UnsetSym(s) => u.(sym := u.sym - {s})
    case SetChoice(c, mode) => AssignMode(t, u, c, mode).0
    case UnsetChoice(c) => u.(mode := u.mode - {c}, sel := u.sel - {c})
    case UnsetAll => Users(map[], map[], map[])
    case Reading(_) => u
  }

  function AllPerformed(t: Tree, u: Users, ops: seq<Operation>): Users
    requires forall k :: 0 <= k < |ops| ==> Legal(t, ops[k])
  {
    if ops == [] then u else Performed(t, AllPerformed(t, u, ops[..|ops| - 1]), ops[|ops| - 1])
  }

  // ----- What invalidation leaves behind -----

  function Without(m: Answers, x: Item): (m': Answers) { map q | q in m && ItemOf(q) != x :: m[q] }

  function VisItems(m: Answers): set<Item> { set q | q in m && q.Vis? :: q.item }

  /** `m` records no answer of `x`. */
  predicate Clear(m: Answers, x: Item) { forall q :: q in m ==> ItemOf(q) != x }

  /** `m` records no answer of `x`, nor the visibility of any item that depends on it. */
  predicate Gone(dependents: map<Item, set<Item>>, m: Answers, x: Item) {
    Clear(m, x) && forall z :: z in DependentsOf(dependents, x) ==> Vis(z) !in m
  }

  /** Each item that lost an answer lost them all, and so did its dependents. */
  predicate Drained(dependents: map<Item, set<Item>>, m: Answers, m': Answers) {
    forall q :: q in m && q !in m' ==> Gone(dependents, m', ItemOf(q))
  }

  /** The second item depends on the first, directly or through others. */
  ghost predicate Reaches(dependents: map<Item, set<Item>>, x: Item, y: Item) { exists p :: PathBetween(dependents, p, x, y) }

  predicate PathBetween(dependents: map<Item, set<Item>>, p: seq<Item>, x: Item, y: Item) {
    && p != [] && p[0] == x && p[|p| - 1] == y
    && forall i :: 0 < i < |p| ==> p[i] in DependentsOf(dependents, p[i - 1])
  }

  lemma ReachesOn(dependents: map<Item, set<Item>>, x: Item, y: Item, z: Item)
    requires y in DependentsOf(dependents, x) && Reaches(dependents, y, z)
    ensures Reaches(dependents, x, z)
  {
    var p :| PathBetween(dependents, p, y, z);
    assert PathBetween(dependents, [x] + p, x, z);
  }

  /** Only items that depend on `x` lost any answer, unless MODULES depends on it. */
  ghost predicate OnlyReached(dependents: map<Item, set<Item>>, x: Item, m: Answers, m': Answers) {
    forall q :: q in m && q !in m' ==> Reaches(dependents, x, ItemOf(q)) || Reaches(dependents, x, SymItem(MODULES))
  }

  lemma ReachedFrom(dependents: map<Item, set<Item>>, x: Item, y: Item, m: Answers, m1: Answers, m2: Answers)
    requires OnlyReached(dependents, x, m, m1) && OnlyReached(dependents, y, m1, m2) && y in DependentsOf(dependents, x)
    ensures OnlyReached(dependents, x, m, m2)
  {
    forall q | q in m && q !in m2 ensures Reaches(dependents, x, ItemOf(q)) || Reaches(dependents, x, SymItem(MODULES)) {
      if q in m1 {
        if Reaches(dependents, y, ItemOf(q)) { ReachesOn(dependents, x, y, ItemOf(q)); }
        else { ReachesOn(dependents, x, y, SymItem(MODULES)); }
      }
    }
  }

  lemma OwnReached(dependents: map<Item, set<Item>>, x: Item, m: Answers, m': Answers)
    requires forall q :: q in m && q !in m' ==> ItemOf(q) == x || x == SymItem(MODULES)
    ensures OnlyReached(dependents, x, m, m')
  {
    assert PathBetween(dependents, [x], x, x);
  }

  /** The user values held on the item itself */
  ghost predicate SameAt(u: Users, u': Users, x: Item) {
    match x
    case SymItem(s) => UserTri(u, s) == UserTri(u', s) && UserText(u, s) == UserText(u', s)
    case ChoiceItem(c) =>
      UserMode(u, c) == UserMode(u', c) && (c in u.sel <==> c in u'.sel) && (c in u.sel ==> u.sel[c] == u'.sel[c])
  }

  /** The user values changed only on the item, or on symbols of the choice it is. */
  ghost predicate ChangedAround(t: Tree, u: Users, u': Users, x: Item) {
    && (forall c :: SameAt(u, u', ChoiceItem(c)) || ChoiceItem(c) == x)
    && (forall s :: || SameAt(u, u', SymItem(s)) || SymItem(s) == x
                    || (x.ChoiceItem? && s in t.syms && t.syms[s].choice == Some(x.id)))
  }

  predicate NeverVisible(t: Tree, x: Item) { x.SymItem? && (x.name in t.syms ==> Inert(t.syms[x.name])) }

  /** _cached_vis doubles as a flag: an item without it has no recorded answer at all. */
  lemma Uncached(t: Tree, dependents: map<Item, set<Item>>, u: Users, m: Answers, m': Answers, x: Item)
    requires Consistent(t, u, m) && Extends(m', m) && Drained(dependents, m, m') && Vis(x) !in m'
    ensures Clear(m', x)
  {
    forall q | q in m' ensures ItemOf(q) != x {
      if ItemOf(q) == x { VisibilityRecorded(t, u, m, q); }
    }
  }

  /** Invalidating a choice clears its symbols, except those that can never be visible. */
  lemma ChoiceSymsCleared(t: Tree, dependents: map<Item, set<Item>>, u: Users, m: Answers, m': Answers, c: ChoiceId)
    requires Sane(t) && Registered(t, dependents) && Consistent(t, u, m) && Extends(m', m) && Drained(dependents, m, m')
    requires Gone(dependents, m', ChoiceItem(c))
    ensures forall s :: s in t.syms && t.syms[s].choice == Some(c) ==> Clear(m', SymItem(s)) || Inert(t.syms[s])
  {
    forall s | s in t.syms && t.syms[s].choice == Some(c) && !Inert(t.syms[s]) ensures Clear(m', SymItem(s)) {
      DependsOnChoice(t, s);
      assert ChoiceItem(c) in DirectDeps(t, SymItem(s)) && SymItem(s) in DependentsOf(dependents, ChoiceItem(c));
      Uncached(t, dependents, u, m, m', SymItem(s));
    }
  }

  /** No remaining answer can depend on anything that was dropped. */
  lemma DrainedCarries(t: Tree, dependents: map<Item, set<Item>>, u: Users, m: Answers, m': Answers, q: Query)
    requires Registered(t, dependents) && Consistent(t, u, m) && q in m'
    requires Extends(m', m) && Drained(dependents, m, m')
    ensures Varies(t, q) && Carries(m, m', NearReads(t, q))
  {
    assert Answer(t, u, m, q) == Some(m[q]);
    forall p | p in NearReads(t, q) && p in m ensures p in m' {
      if p !in m' {
        assert ItemOf(p) != ItemOf(q) && ItemOf(p) in DirectDeps(t, ItemOf(q));
        assert ItemOf(q) in DependentsOf(dependents, ItemOf(p));
        Uncached(t, dependents, u, m, m', ItemOf(q));
      }
    }
  }

  /** If the user values changed only on items that are gone, or on symbols that can never be visible,
      the remaining answers are consistent with the new user values. */
  lemma DrainedConsistent(t: Tree, dependents: map<Item, set<Item>>, u: Users, u': Users, m: Answers, m': Answers)
    requires Sane(t) && Registered(t, dependents) && ValidUsers(t, u) && Consistent(t, u, m)
    requires Extends(m', m) && Drained(dependents, m, m')
    requires forall c :: SameAt(u, u', ChoiceItem(c)) || Gone(dependents, m', ChoiceItem(c))
    requires forall s :: SameAt(u, u', SymItem(s)) || Clear(m', SymItem(s)) || NeverVisible(t, SymItem(s))
    ensures Consistent(t, u', m')
  {
    forall q | q in m' ensures Answer(t, u', m', q) == Some(m'[q]) {
      DrainedAnswer(t, dependents, u, u', m, m', q);
    }
  }

  lemma DrainedAnswer(t: Tree, dependents: map<Item, set<Item>>, u: Users, u': Users, m: Answers, m': Answers, q: Query)
    requires Sane(t) && Registered(t, dependents) && ValidUsers(t, u) && Consistent(t, u, m)
    requires Extends(m', m) && Drained(dependents, m, m')
    requires forall c :: SameAt(u, u', ChoiceItem(c)) || Gone(dependents, m', ChoiceItem(c))
    requires forall s :: SameAt(u, u', SymItem(s)) || Clear(m', SymItem(s)) || NeverVisible(t, SymItem(s))
    requires q in m'
    ensures Answer(t, u', m', q) == Some(m'[q])
  {
    assert Answer(t, u, m, q) == Some(m[q]);
    var x := ItemOf(q);
    DrainedCarries(t, dependents, u, m, m', q);
    if x.SymItem? && Inert(t.syms[x.name]) { InertInvisible(t, u, m, x.name); }
    DrainedModes(t, dependents, u, u', m, m', q);
    assert OwnKept(t, u, u', m, x);
    AnswerKept(t, u, u', m, m', q);
  }

  /** A choice whose mode changed has no cached dependents left. */
  lemma DrainedModes(t: Tree, dependents: map<Item, set<Item>>, u: Users, u': Users, m: Answers, m': Answers, q: Query)
    requires Sane(t) && Registered(t, dependents) && Consistent(t, u, m) && q in m'
    requires Extends(m', m) && Drained(dependents, m, m')
    requires forall c :: SameAt(u, u', ChoiceItem(c)) || Gone(dependents, m', ChoiceItem(c))
    ensures SameModes(u, u', Scope(t, ItemOf(q)))
  {
    var x := ItemOf(q);
    assert Answer(t, u, m, q) == Some(m[q]);
    forall c | ChoiceItem(c) in Scope(t, x) ensures UserMode(u, c) == UserMode(u', c) {
      if !SameAt(u, u', ChoiceItem(c)) {
        assert x in DependentsOf(dependents, ChoiceItem(c));
        Uncached(t, dependents, u, m, m', x);
      }
    }
  }

  // ----- Assignments on user values -----

  /** set_value() takes "n", "m" and "y" for tristate values. */
  function Normalise(kind: Kind, v: UserVal): UserVal {
    if kind.Logical() && v.UText? && v.text in ["n", "m", "y"] then UTri(ConstTri(v.text)) else v
  }

  /** The effect of Symbol.set_value() on the user values: an invalid value is ignored, and setting a choice
      symbol to y selects it. */
  function AssignSym(t: Tree, u: Users, s: SymName, value: UserVal): (Users, bool)
    requires s in t.syms
  {
    var d := t.syms[s];
    var v := Normalise(d.kind, value);
    if !FitsKind(t, d.kind, v) then (u, false)
    else
      var u1 := u.(sym := u.sym[s := v]);
      if d.choice.Some? && v == UTri(2) then (u1.(sel := u.sel[d.choice.value := s]), true) else (u1, true)
  }

  lemma AssignSymValid(t: Tree, u: Users, s: SymName, value: UserVal)
    requires Sane(t) && ValidUsers(t, u) && s in t.syms
    ensures ValidUsers(t, AssignSym(t, u, s, value).0)
    ensures s in u.sym && u.sym[s] == Normalise(t.syms[s].kind, value) && t.syms[s].choice.None? ==>
      AssignSym(t, u, s, value) == (u, true)
  {
    assert SaneSym(t, s);
    if s in u.sym && u.sym[s] == Normalise(t.syms[s].kind, value) {
      assert u.sym[s := Normalise(t.syms[s].kind, value)] == u.sym;
    }
  }

  /** The item set_value() invalidates */
  function AssignedItem(t: Tree, s: SymName, value: UserVal): Item
    requires s in t.syms
  {
    var d := t.syms[s];
    if d.choice.Some? && Normalise(d.kind, value) == UTri(2) then ChoiceItem(d.choice.value) else SymItem(s)
  }

  lemma AssignSymChanges(t: Tree, u: Users, s: SymName, value: UserVal)
    requires s in t.syms
    ensures ChangedAround(t, u, AssignSym(t, u, s, value).0, AssignedItem(t, s, value))
  {
  }

  function SetItems(t: Tree, s: SymName, value: UserVal): set<Item>
    requires s in t.syms
  {
    {SymItem(s), AssignedItem(t, s, value)}
  }

  function AssignMode(t: Tree, u: Users, c: ChoiceId, value: Tri): (Users, bool)
    requires c in t.choices
  {
    if FitsKind(t, t.choices[c].kind, UTri(value)) then (u.(mode := u.mode[c := value]), true) else (u, false)
  }

  lemma CondsKept(t: Tree, u: Users, m: Answers, m': Answers, ds: seq<Default>, i: nat, xs: set<Item>)
    requires i <= |ds| && DefaultItems(ds) <= xs && Extends(m, m')
    requires forall j :: 0 <= j < i ==> ExprVal(t, u, m, ds[j].cond) == Some(0)
    ensures forall j :: 0 <= j < i ==> ExprVal(t, u, m', ds[j].cond) == Some(0)
  {
    forall j | 0 <= j < i ensures ExprVal(t, u, m', ds[j].cond) == Some(0) {
      DefaultMember(ds, j);
      ExprKept(t, u, u, m, m', ds[j].cond, xs);
    }
  }

  lemma RangeCondsKept(t: Tree, u: Users, m: Answers, m': Answers, rs: seq<Range>, i: nat, xs: set<Item>)
    requires i <= |rs| && RangeItems(rs) <= xs && Extends(m, m')
    requires forall j :: 0 <= j < i ==> ExprVal(t, u, m, rs[j].cond) == Some(0)
    ensures forall j :: 0 <= j < i ==> ExprVal(t, u, m', rs[j].cond) == Some(0)
  {
    forall j | 0 <= j < i ensures ExprVal(t, u, m', rs[j].cond) == Some(0) {
      RangeMember(rs, j);
      ExprKept(t, u, u, m, m', rs[j].cond, xs);
    }
  }

  lemma PassedKept(t: Tree, u: Users, m: Answers, m': Answers, ds: seq<ChoiceDefault>, i: nat, xs: set<Item>)
    requires i <= |ds| && ChoiceDefaultItems(ds) <= xs && Extends(m, m')
    requires forall j :: 0 <= j < i ==> Passed(t, u, m, ds[j])
    ensures forall j :: 0 <= j < i ==> Passed(t, u, m', ds[j])
  {
    forall j | 0 <= j < i ensures Passed(t, u, m', ds[j]) {
      ChoiceDefaultMember(ds, j);
      ExprKept(t, u, u, m, m', ds[j].cond, xs);
    }
  }

  lemma PromptPrefix(ps: seq<Expr>, i: nat)
    requires i <= |ps|
    ensures PromptItems(ps[..i]) <= PromptItems(ps)
  {
    if i > 0 {
      assert ps[..i][1..] == ps[1..][..i - 1];
      PromptPrefix(ps[1..], i - 1);
    }
  }

  const MODULES: SymName := "MODULES"

  class Kconfig {
    const t: Tree
    const dependents: map<Item, set<Item>>
    ghost const rank: Query -> nat
    var users: Users
    /** _cached_vis, _cached_tri_val, _cached_str_val and _cached_selection of all items */
    var cache: Answers
    var wasSet: set<Item>

    ghost predicate Valid()
      reads this
    {
      && Sane(t) && Ranked(t, rank) && Registered(t, dependents)
      && ValidUsers(t, users)
      && Consistent(t, users, cache)
    }

    constructor (t: Tree, dependents: map<Item, set<Item>>, ghost rank: Query -> nat)
      ensures this.t == t && this.rank == rank && this.dependents == dependents
      ensures Sane(t) && Ranked(t, rank) && Registered(t, dependents) ==> Valid()
      ensures cache == map[] && users == Users(map[], map[], map[])
    {
      this.t, this.dependents, this.rank := t, dependents, rank;
      users, cache, wasSet := Users(map[], map[], map[]), map[], {};
    }

    method LeafTriValue(leaf: Leaf, ghost xs: set<Item>, ghost bound: nat) returns (v: Tri)
      requires Valid() && LeafItems(leaf) <= xs && Below(t, rank, xs, bound)
      modifies this`cache
      ensures Valid() && Extends(old(cache), cache)
      ensures LeafTri(t, cache, leaf) == Some(v)
      decreases bound, 0
    {
      if leaf.Const? {
        v := ConstTri(leaf.text);
      } else if Varies(t, TriVal(leaf.name)) {
        assert SymItem(leaf.name) in xs && TriVal(leaf.name) in ItemReads(t, SymItem(leaf.name));
        v := TriValue(leaf.name);
      } else {
        v := 0;
      }
    }

    method LeafStrValue(leaf: Leaf, ghost xs: set<Item>, ghost bound: nat) returns (text: string)
      requires Valid() && LeafItems(leaf) <= xs && Below(t, rank, xs, bound)
      modifies this`cache
      ensures Valid() && Extends(old(cache), cache)
      ensures LeafText(t, cache, leaf) == Some(text)
      decreases bound, 0
    {
      if leaf.Const? {
        text := leaf.text;
      } else if Varies(t, StrVal(leaf.name)) {
        assert SymItem(leaf.name) in xs && StrVal(leaf.name) in ItemReads(t, SymItem(leaf.name));
        text := StrValue(leaf.name);
        assert Answer(t, users, cache, StrVal(leaf.name)) == Some(cache[StrVal(leaf.name)]);
      } else {
        text := leaf.name;
      }
    }

    /** A relation operand: the tristate value of a logical symbol, the string value of any other */
    method OperandValue(leaf: Leaf, ghost xs: set<Item>, ghost bound: nat) returns (text: string)
      requires Valid() && LeafItems(leaf) <= xs && Below(t, rank, xs, bound)
      modifies this`cache
      ensures Valid() && Extends(old(cache), cache)
      ensures LeafText(t, cache, leaf) == Some(text)
      decreases bound, 1
    {
      if leaf.Sym? && Varies(t, TriVal(leaf.name)) {
        var v := LeafTriValue(leaf, xs, bound);
        text := TriText(v);
      } else {
        text := LeafStrValue(leaf, xs, bound);
      }
    }

    /** Choice.tri_value */
    method ModeValue(c: ChoiceId, ghost bound: nat) returns (v: Tri)
      requires Valid() && c in t.choices && rank(Vis(ChoiceItem(c))) < bound
      modifies this`cache
      ensures Valid() && Extends(old(cache), cache)
      ensures ModeVal(t, users, cache, c) == Some(v)
      decreases bound, 0
    {
      var vis := Visibility(ChoiceItem(c));
      v := ChoiceMode(t.choices[c], UserMode(users, c), vis);
    }

    method ExprValue(e: Expr, ghost xs: set<Item>, ghost bound: nat) returns (v: Tri)
      requires Valid() && ExprItems(e) <= xs && Below(t, rank, xs, bound)
      modifies this`cache
      ensures Valid() && Extends(old(cache), cache)
      ensures ExprVal(t, users, cache, e) == Some(v)
      decreases bound, 2, e
    {
      match e
      case Ref(leaf) => v := LeafTriValue(leaf, xs, bound);
      case Mode(c) =>
        if c in t.choices {
          assert ChoiceItem(c) in xs && Vis(ChoiceItem(c)) in ItemReads(t, ChoiceItem(c));
          v := ModeValue(c, bound);
        } else {
          v := 0;
        }
      case And(l, r) =>
        v := ExprValue(l, xs, bound);
        if v != 0 {
          ghost var m := cache;
          var w := ExprValue(r, xs, bound);
          ExprKept(t, users, users, m, cache, l, xs);
          v := Min(v, w);
        }
      case Or(l, r) =>
        v := ExprValue(l, xs, bound);
        if v != 2 {
          ghost var m := cache;
          var w := ExprValue(r, xs, bound);
          ExprKept(t, users, users, m, cache, l, xs);
          v := Max(v, w);
        }
      case Not(x) =>
        v := ExprValue(x, xs, bound);
        v := 2 - v;
      case Rel(op, a, b) =>
        var x := OperandValue(a, xs, bound);
        ghost var m := cache;
        var y := OperandValue(b, xs, bound);
        LeafKept(t, m, cache, a, xs);
        var ka, kb := LeafKind(t, a), LeafKind(t, b);
        if !(ka.Text? && kb.Text?) && (LeafNum(t, ka, x).None? || LeafNum(t, kb, y).None?) {
          // The fallback on a lexicographic comparison takes both string values.
          m := cache;
          var _ := LeafStrValue(a, xs, bound);
          var _ := LeafStrValue(b, xs, bound);
          LeafKept(t, m, cache, a, xs);
          LeafKept(t, m, cache, b, xs);
        }
        v := RelTri(op, Comparison(t, ka, x, kb, y));
    }

    method PromptValue(ps: seq<Expr>, ghost xs: set<Item>, ghost bound: nat) returns (v: Tri)
      requires Valid() && PromptItems(ps) <= xs && Below(t, rank, xs, bound)
      modifies this`cache
      ensures Valid() && Extends(old(cache), cache)
      ensures MaxPrompt(t, users, cache, ps) == Some(v)
      decreases bound, 3
    {
      v := 0;
      for i := 0 to |ps|
        invariant Valid() && Extends(old(cache), cache)
        invariant PromptItems(ps[..i]) <= xs && MaxPrompt(t, users, cache, ps[..i]) == Some(v)
      {
        ghost var m := cache;
        PromptMember(ps, ps[i]);
        var w := ExprValue(ps[i], xs, bound);
        PromptsKept(t, users, users, m, cache, ps[..i], xs);
        MaxPromptSnoc(t, users, cache, ps[..i], ps[i]);
        assert ps[..i + 1] == ps[..i] + [ps[i]];
        PromptPrefix(ps, i + 1);
        v := Max(v, w);
      }
      assert ps[..|ps|] == ps;
    }

    method DefaultValue(ds: seq<Default>, ghost xs: set<Item>, ghost bound: nat) returns (v: Tri)
      requires Valid() && DefaultItems(ds) <= xs && Below(t, rank, xs, bound)
      modifies this`cache
      ensures Valid() && Extends(old(cache), cache)
      ensures FirstDefault(t, users, cache, ds) == Some(v)
      decreases bound, 3
    {
      for i := 0 to |ds|
        invariant Valid() && Extends(old(cache), cache)
        invariant forall j :: 0 <= j < i ==> ExprVal(t, users, cache, ds[j].cond) == Some(0)
      {
        ghost var m := cache;
        DefaultMember(ds, i);
        var c := ExprValue(ds[i].cond, xs, bound);
        if c != 0 {
          ghost var m' := cache;
          v := ExprValue(ds[i].value, xs, bound);
          ExprKept(t, users, users, m', cache, ds[i].cond, xs);
          CondsKept(t, users, m, cache, ds, i, xs);
          SkipDefaults(t, users, cache, ds, i);
          return Min(v, c);
        }
        CondsKept(t, users, m, cache, ds, i, xs);
      }
      SkipDefaults(t, users, cache, ds, |ds|);
      v := 0;
    }

    method DefaultText(ds: seq<Default>, ghost xs: set<Item>, ghost bound: nat) returns (text: Option<string>)
      requires Valid() && DefaultItems(ds) <= xs && Below(t, rank, xs, bound)
      requires forall d :: d in ds ==> d.value.Ref?
      modifies this`cache
      ensures Valid() && Extends(old(cache), cache)
      ensures FirstText(t, users, cache, ds) == Some(text)
      decreases bound, 3
    {
      for i := 0 to |ds|
        invariant Valid() && Extends(old(cache), cache)
        invariant forall j :: 0 <= j < i ==> ExprVal(t, users, cache, ds[j].cond) == Some(0)
      {
        ghost var m := cache;
        DefaultMember(ds, i);
        var c := ExprValue(ds[i].cond, xs, bound);
        if c != 0 {
          ghost var m' := cache;
          var s := LeafStrValue(ds[i].value.leaf, xs, bound);
          ExprKept(t, users, users, m', cache, ds[i].cond, xs);
          CondsKept(t, users, m, cache, ds, i, xs);
          SkipDefaults(t, users, cache, ds, i);
          return Some(s);
        }
        CondsKept(t, users, m, cache, ds, i, xs);
      }
      SkipDefaults(t, users, cache, ds, |ds|);
      text := None;
    }

    method RangeValue(kind: Kind, rs: seq<Range>, ghost xs: set<Item>, ghost bound: nat) returns (r: Option<(int, int)>)
      requires Valid() && RangeItems(rs) <= xs && Below(t, rank, xs, bound)
      modifies this`cache
      ensures Valid() && Extends(old(cache), cache)
      ensures ActiveRange(t, users, cache, kind, rs) == Some(r)
      decreases bound, 3
    {
      for i := 0 to |rs|
        invariant Valid() && Extends(old(cache), cache)
        invariant forall j :: 0 <= j < i ==> ExprVal(t, users, cache, rs[j].cond) == Some(0)
      {
        ghost var m := cache;
        RangeMember(rs, i);
        var c := ExprValue(rs[i].cond, xs, bound);
        if c != 0 {
          ghost var m1 := cache;
          var low := LeafStrValue(rs[i].low, xs, bound);
          ghost var m2 := cache;
          var high := LeafStrValue(rs[i].high, xs, bound);
          ExprKept(t, users, users, m1, cache, rs[i].cond, xs);
          LeafKept(t, m2, cache, rs[i].low, xs);
          RangeCondsKept(t, users, m, cache, rs, i, xs);
          SkipRanges(t, users, cache, kind, rs, i);
          return Some((Bound(t, kind, low), Bound(t, kind, high)));
        }
        RangeCondsKept(t, users, m, cache, rs, i, xs);
      }
      SkipRanges(t, users, cache, kind, rs, |rs|);
      r := None;
    }

    /** Symbol.visibility and Choice.visibility */
    method Visibility(x: Item) returns (v: Tri)
      requires Valid() && Defined(t, x)
      modifies this`cache
      ensures Valid() && Extends(old(cache), cache)
      ensures AskTri(cache, Vis(x)) == Some(v)
      decreases rank(Vis(x)), 7
    {
      if Vis(x) in cache {
        assert Answer(t, users, cache, Vis(x)) == Some(cache[Vis(x)]);
        return cache[Vis(x)].tri;
      }
      match x {
        case SymItem(s) =>
          v := SymVisibilityValue(s);
        case ChoiceItem(c) =>
          ModeRanks(t, rank, c);
          v := PromptValue(t.choices[c].prompts, PromptItems(t.choices[c].prompts), rank(Vis(x)));
          v := Promote(v);
      }
      Record(t, users, cache, Vis(x), TriV(v, false));
      cache := cache[Vis(x) := TriV(v, false)];
    }

    /** _visibility() for a symbol */
    method SymVisibilityValue(s: SymName) returns (v: Tri)
      requires Valid() && s in t.syms
      modifies this`cache
      ensures Valid() && Extends(old(cache), cache)
      ensures SymVisibility(t, users, cache, t.syms[s]) == Some(v)
      decreases rank(Vis(SymItem(s))), 4
    {
      var d := t.syms[s];
      ghost var bound := rank(Vis(SymItem(s)));
      VisRanks(t, rank, s);
      v := PromptValue(d.prompts, PromptItems(d.prompts), bound);
      if d.choice.Some? {
        assert SaneSym(t, s);
        var c := d.choice.value;
        ghost var m := cache;
        if t.choices[c].kind.Tristate? && !d.kind.Tristate? {
          var mode := ModeValue(c, bound);
          PromptsKept(t, users, users, m, cache, d.prompts, PromptItems(d.prompts));
          if mode != 2 {
            return 0;
          }
        } else if d.kind.Tristate? && v == 1 {
          var mode := ModeValue(c, bound);
          PromptsKept(t, users, users, m, cache, d.prompts, PromptItems(d.prompts));
          if mode == 2 {
            return 0;
          }
        }
      }
      v := Promote(v);
    }

    /** Symbol.tri_value */
    method TriValue(s: SymName) returns (v: Tri)
      requires Valid() && Varies(t, TriVal(s))
      modifies this`cache
      ensures Valid() && Extends(old(cache), cache)
      ensures AskTri(cache, TriVal(s)) == Some(v)
      decreases rank(TriVal(s)), 7
    {
      if TriVal(s) in cache {
        assert Answer(t, users, cache, TriVal(s)) == Some(cache[TriVal(s)]);
        return cache[TriVal(s)].tri;
      }
      var d := t.syms[s];
      TriRanks(t, rank, s);
      var vis := Visibility(SymItem(s));
      var write := vis != 0;
      if d.choice.None? {
        v, write := PlainTriValue(s, vis);
      } else if vis == 2 {
        assert SaneSym(t, s);
        var sel := SelectionValue(d.choice.value);
        v := if sel == Some(s) then 2 else 0;
      } else {
        var user := UserTri(users, s);
        v := if vis != 0 && user.Some? && user.value != 0 then 1 else 0;
      }
      Record(t, users, cache, TriVal(s), TriV(v, write));
      cache := cache[TriVal(s) := TriV(v, write)];
    }

    /** The part of Symbol.tri_value for symbols outside choices */
    method PlainTriValue(s: SymName, vis: Tri) returns (v: Tri, write: bool)
      requires Valid() && Varies(t, TriVal(s)) && AskTri(cache, Vis(SymItem(s))) == Some(vis)
      modifies this`cache
      ensures Valid() && Extends(old(cache), cache)
      ensures PlainTri(t, users, cache, s, t.syms[s]) == Some(TriV(v, write))
      decreases rank(TriVal(s)), 6
    {
      var d := t.syms[s];
      ghost var xs, bound := TriItems(d), rank(TriVal(s));
      TriRanks(t, rank, s);
      v, write := BaseTriValue(s, vis, xs, bound);
      ghost var m := cache;
      var rev := RevDepValue(d, xs, bound);
      BaseKept(t, users, users, m, cache, s, d, vis, xs);
      v, write := Promote(Max(rev, v)), write || rev != 0;
    }

    method BaseTriValue(s: SymName, vis: Tri, ghost xs: set<Item>, ghost bound: nat) returns (v: Tri, write: bool)
      requires Valid() && s in t.syms && TriItems(t.syms[s]) <= xs && Below(t, rank, xs, bound)
      modifies this`cache
      ensures Valid() && Extends(old(cache), cache)
      ensures BaseTri(t, users, cache, s, t.syms[s], vis) == Some((v, write))
      decreases bound, 5
    {
      var user := UserTri(users, s);
      if vis != 0 && user.Some? {
        v, write := Min(user.value, vis), true;
      } else {
        v, write := DefaultTriValue(t.syms[s], vis, xs, bound);
      }
    }

    method RevDepValue(d: SymDef, ghost xs: set<Item>, ghost bound: nat) returns (rev: Tri)
      requires Valid() && TriItems(d) <= xs && Below(t, rank, xs, bound)
      modifies this`cache
      ensures Valid() && Extends(old(cache), cache)
      ensures ExprVal(t, users, cache, d.revDep) == Some(rev)
      decreases bound, 3
    {
      rev := ExprValue(d.revDep, xs, bound);
      if rev != 0 {
        // Compared with the direct dependencies, for a warning
        ghost var m := cache;
        var _ := ExprValue(d.directDep, xs, bound);
        ExprKept(t, users, users, m, cache, d.revDep, xs);
      }
    }

    method DefaultTriValue(d: SymDef, vis: Tri, ghost xs: set<Item>, ghost bound: nat) returns (v: Tri, write: bool)
      requires Valid() && TriItems(d) <= xs && Below(t, rank, xs, bound)
      modifies this`cache
      ensures Valid() && Extends(old(cache), cache)
      ensures DefaultTri(t, users, cache, d, vis) == Some((v, write))
      decreases bound, 4
    {
      v := DefaultValue(d.defaults, xs, bound);
      write := vis != 0 || v != 0;
      ghost var m := cache;
      var weak := ExprValue(d.weakRevDep, xs, bound);
      DefaultsKept(t, users, users, m, cache, d.defaults, xs);
      if weak != 0 {
        m := cache;
        var direct := ExprValue(d.directDep, xs, bound);
        DefaultsKept(t, users, users, m, cache, d.defaults, xs);
        ExprKept(t, users, users, m, cache, d.weakRevDep, xs);
        if direct != 0 {
          v, write := Max(weak, v), true;
        }
      }
    }

    /** Symbol.str_value */
    method StrValue(s: SymName) returns (text: string)
      requires Valid() && Varies(t, StrVal(s))
      modifies this`cache
      ensures Valid() && Extends(old(cache), cache)
      ensures AskText(cache, StrVal(s)) == Some(text)
      decreases rank(StrVal(s)), 7
    {
      if StrVal(s) in cache {
        assert Answer(t, users, cache, StrVal(s)) == Some(cache[StrVal(s)]);
        return cache[StrVal(s)].text;
      }
      var d := t.syms[s];
      StrRanks(t, rank, s);
      var write: bool;
      if d.kind.Logical() {
        var v := TriValue(s);
        text, write := TriText(v), cache[TriVal(s)].write;
      } else {
        assert SaneSym(t, s);
        var vis := Visibility(SymItem(s));
        if d.kind.Numeric() {
          text, write := NumericValue(s, vis);
        } else {
          text, write := TextValue(s, vis);
        }
      }
      Record(t, users, cache, StrVal(s), StrV(text, write));
      cache := cache[StrVal(s) := StrV(text, write)];
    }

    method NumericValue(s: SymName, vis: Tri) returns (text: string, write: bool)
      requires Valid() && Varies(t, StrVal(s)) && t.syms[s].kind.Numeric() && AskTri(cache, Vis(SymItem(s))) == Some(vis)
      modifies this`cache
      ensures Valid() && Extends(old(cache), cache)
      ensures NumericStr(t, users, cache, s, t.syms[s]) == Some(StrV(text, write))
      decreases rank(StrVal(s)), 4
    {
      assert SaneSym(t, s);
      var d := t.syms[s];
      ghost var xs, bound := StrItems(d), rank(StrVal(s));
      StrRanks(t, rank, s);
      var range := RangeValue(d.kind, d.ranges, xs, bound);
      var user := UserText(users, s);
      if UserFits(t, d.kind, vis, user, range) {
        text, write := user.value, !d.noWrite;
      } else {
        ghost var m := cache;
        var default := DefaultText(d.defaults, xs, bound);
        RangesKept(t, users, users, m, cache, d.kind, d.ranges, xs);
        text, write := Clamp(t, d.kind, default, range), (vis != 0 || default.Some?) && !d.noWrite;
      }
    }

    method TextValue(s: SymName, vis: Tri) returns (text: string, write: bool)
      requires Valid() && Varies(t, StrVal(s)) && t.syms[s].kind.Text? && AskTri(cache, Vis(SymItem(s))) == Some(vis)
      modifies this`cache
      ensures Valid() && Extends(old(cache), cache)
      ensures TextStr(t, users, cache, s, t.syms[s]) == Some(StrV(text, write))
      decreases rank(StrVal(s)), 4
    {
      assert SaneSym(t, s);
      var d := t.syms[s];
      var user := UserText(users, s);
      if vis != 0 && user.Some? {
        text, write := user.value, !d.noWrite;
      } else {
        StrRanks(t, rank, s);
        var default := DefaultText(d.defaults, StrItems(d), rank(StrVal(s)));
        text := if default.Some? then default.value else "";
        write := (vis != 0 || default.Some?) && !d.noWrite;
      }
    }

    /** Choice.selection */
    method SelectionValue(c: ChoiceId) returns (sel: Option<SymName>)
      requires Valid() && c in t.choices
      modifies this`cache
      ensures Valid() && Extends(old(cache), cache)
      ensures AskSel(cache, Sel(c)) == Some(sel)
      decreases rank(Sel(c)), 7
    {
      if Sel(c) in cache {
        assert Answer(t, users, cache, Sel(c)) == Some(cache[Sel(c)]);
        return cache[Sel(c)].sel;
      }
      SelRanks(t, rank, c);
      var mode := ModeValue(c, rank(Sel(c)));
      sel := None;
      if mode == 2 {
        sel := UserSelection(c);
        if sel.None? {
          sel := SelectionFromDefaults(c);
        }
      }
      assert Selection(t, users, cache, c) == Some(sel);
      Record(t, users, cache, Sel(c), SelV(sel));
      cache := cache[Sel(c) := SelV(sel)];
    }

    method MemberVisibility(c: ChoiceId, s: SymName) returns (v: Tri)
      requires Valid() && c in t.choices && s in t.choices[c].syms
      modifies this`cache
      ensures Valid() && Extends(old(cache), cache)
      ensures SymVis(t, cache, s) == Some(v)
      decreases rank(Sel(c)), 2
    {
      assert SaneChoice(t, c);
      SelRanks(t, rank, c);
      v := Visibility(SymItem(s));
    }

    /** The user selection, if it is visible */
    method UserSelection(c: ChoiceId) returns (sel: Option<SymName>)
      requires Valid() && c in t.choices
      modifies this`cache
      ensures Valid() && Extends(old(cache), cache)
      ensures sel.Some? ==> c in users.sel && sel.value == users.sel[c]
      ensures c in users.sel ==> SymVis(t, cache, users.sel[c]).Some?
      ensures c in users.sel ==> (sel.Some? <==> SymVis(t, cache, users.sel[c]) != Some(0))
      decreases rank(Sel(c)), 4
    {
      sel := None;
      if c in users.sel {
        var v := MemberVisibility(c, users.sel[c]);
        if v != 0 {
          sel := Some(users.sel[c]);
        }
      }
    }

    /** Choice._selection_from_defaults() */
    method SelectionFromDefaults(c: ChoiceId) returns (sel: Option<SymName>)
      requires Valid() && c in t.choices
      modifies this`cache
      ensures Valid() && Extends(old(cache), cache)
      ensures DefaultSelection(t, users, cache, t.choices[c]) == Some(sel)
      decreases rank(Sel(c)), 4
    {
      sel := DefaultOfChoice(c);
      if sel.None? {
        ghost var m, d := cache, t.choices[c];
        sel := VisibleOfChoice(c);
        ChoiceDefaultsKept(t, users, users, m, cache, d.defaults, ChoiceDefaultItems(d.defaults));
      }
    }

    method DefaultOfChoice(c: ChoiceId) returns (sel: Option<SymName>)
      requires Valid() && c in t.choices
      modifies this`cache
      ensures Valid() && Extends(old(cache), cache)
      ensures FirstChoiceDefault(t, users, cache, t.choices[c].defaults) == Some(sel)
      decreases rank(Sel(c)), 3, 1
    {
      var ds := t.choices[c].defaults;
      ghost var xs := ChoiceDefaultItems(ds);
      for i := 0 to |ds|
        invariant Valid() && Extends(old(cache), cache)
        invariant forall j :: 0 <= j < i ==> Passed(t, users, cache, ds[j])
      {
        ghost var m := cache;
        var hit := ChoiceDefaultHit(c, i);
        PassedKept(t, users, m, cache, ds, i, xs);
        if hit {
          SkipChoiceDefaults(t, users, cache, ds, i);
          return Some(ds[i].sym);
        }
      }
      SkipChoiceDefaults(t, users, cache, ds, |ds|);
      sel := None;
    }

    /** Whether the condition of a choice default is met and its symbol visible */
    method ChoiceDefaultHit(c: ChoiceId, i: nat) returns (hit: bool)
      requires Valid() && c in t.choices && i < |t.choices[c].defaults|
      modifies this`cache
      ensures Valid() && Extends(old(cache), cache)
      ensures var d := t.choices[c].defaults[i];
        if hit
        then ExprVal(t, users, cache, d.cond).Some? && ExprVal(t, users, cache, d.cond) != Some(0)
             && SymVis(t, cache, d.sym).Some? && SymVis(t, cache, d.sym) != Some(0)
        else Passed(t, users, cache, d)
      decreases rank(Sel(c)), 3, 0
    {
      var d := t.choices[c];
      ghost var xs, bound := ChoiceDefaultItems(d.defaults), rank(Sel(c));
      ChoiceDefaultMember(d.defaults, i);
      SelRanks(t, rank, c);
      var cond := ExprValue(d.defaults[i].cond, xs, bound);
      hit := false;
      if cond != 0 {
        ghost var m := cache;
        assert SaneChoice(t, c) && d.defaults[i] in d.defaults;
        var v := MemberVisibility(c, d.defaults[i].sym);
        ExprKept(t, users, users, m, cache, d.defaults[i].cond, xs);
        hit := v != 0;
      }
    }

    method VisibleOfChoice(c: ChoiceId) returns (sel: Option<SymName>)
      requires Valid() && c in t.choices
      modifies this`cache
      ensures Valid() && Extends(old(cache), cache)
      ensures FirstVisible(t, cache, t.choices[c].syms) == Some(sel)
      decreases rank(Sel(c)), 3
    {
      var syms := t.choices[c].syms;
      for i := 0 to |syms|
        invariant Valid() && Extends(old(cache), cache)
        invariant forall j :: 0 <= j < i ==> SymVis(t, cache, syms[j]) == Some(0)
      {
        var v := MemberVisibility(c, syms[i]);
        if v != 0 {
          SkipInvisible(t, cache, syms, i);
          return Some(syms[i]);
        }
      }
      SkipInvisible(t, cache, syms, |syms|);
      sel := None;
    }

    // ----- Invalidation -----

    /** Symbol._invalidate() and Choice._invalidate(): the item loses all its cached values, and no other item any. */
    method Invalidate(x: Item)
      modifies this`cache
      ensures Clear(cache, x) && Extends(cache, old(cache))
      ensures forall q :: q in old(cache) && ItemOf(q) != x ==> q in cache
    {
      cache := Without(cache, x);
    }

    /** _invalidate_all() */
    method InvalidateAll()
      modifies this`cache
      ensures Extends(cache, old(cache)) && forall x :: Defined(t, x) ==> Clear(cache, x)
    {
      var syms := t.syms.Keys;
      while syms != {}
        invariant Extends(cache, old(cache)) && forall s :: s in t.syms && s !in syms ==> Clear(cache, SymItem(s))
        decreases syms
      {
        var s :| s in syms;
        Invalidate(SymItem(s));
        syms := syms - {s};
      }
      var choices := t.choices.Keys;
      while choices != {}
        invariant Extends(cache, old(cache)) && forall s :: s in t.syms ==> Clear(cache, SymItem(s))
        invariant forall c :: c in t.choices && c !in choices ==> Clear(cache, ChoiceItem(c))
        decreases choices
      {
        var c :| c in choices;
        Invalidate(ChoiceItem(c));
        choices := choices - {c};
      }
    }

    /** _rec_invalidate(): drops the answers of an item and of the items that depend on it, stopping at
        items without a recorded visibility. It ends on every dependency graph, cyclic or not. For MODULES it drops
        everything. */
    method RecInvalidate(x: Item)
      requires forall q :: q in cache ==> Varies(t, q)
      modifies this`cache
      ensures Extends(cache, old(cache))
      ensures Gone(dependents, cache, x)
      ensures Drained(dependents, old(cache), cache)
      ensures OnlyReached(dependents, x, old(cache), cache)
      decreases VisItems(cache), if Vis(x) in cache then 0 else 1
    {
      ghost var m0 := cache;
      if x == SymItem(MODULES) {
        InvalidateAll();
        forall q ensures q !in cache { if q in cache { assert Defined(t, ItemOf(q)); } }
        OwnReached(dependents, x, m0, cache);
        return;
      }
      Invalidate(x);
      OwnReached(dependents, x, m0, cache);
      var rest := DependentsOf(dependents, x);
      while rest != {}
        invariant Extends(cache, old(cache)) && Clear(cache, x) && rest <= DependentsOf(dependents, x)
        invariant OnlyReached(dependents, x, m0, cache)
        invariant forall z :: z in DependentsOf(dependents, x) && z !in rest ==> Vis(z) !in cache
        invariant forall q :: q in old(cache) && q !in cache && ItemOf(q) != x ==> Gone(dependents, cache, ItemOf(q))
        decreases rest
      {
        var y :| y in rest;
        if Vis(y) in cache {
          assert Vis(x) in old(cache) ==> x !in VisItems(cache) && x in VisItems(old(cache));
          ghost var m := cache;
          RecInvalidate(y);
          ReachedFrom(dependents, x, y, m0, m, cache);
        }
        rest := rest - {y};
      }
    }

    // ----- Assignments -----

    /** Stores new user values that differ from the old ones only around the item `x`, and invalidates it. */
    method Reassign(u: Users, x: Item)
      requires Valid() && ValidUsers(t, u) && ChangedAround(t, users, u, x)
      modifies this`users, this`cache
      ensures Valid() && users == u
    {
      ghost var u0, m0 := users, cache;
      forall q | q in cache ensures Varies(t, q) { assert Answer(t, users, cache, q) == Some(cache[q]); }
      users := u;
      if x.ChoiceItem? || (x.name in t.syms && t.syms[x.name].prompts != []) {
        RecInvalidate(x);
      }
      if x.ChoiceItem? { ChoiceSymsCleared(t, dependents, u0, m0, cache, x.id); }
      DrainedConsistent(t, dependents, u0, u, m0, cache);
    }

    /** Symbol.set_value() */
    method SetValue(s: SymName, value: UserVal) returns (ok: bool)
      requires Valid() && s in t.syms
      modifies this`users, this`cache, this`wasSet
      ensures Valid()
      ensures (users, ok) == AssignSym(t, old(users), s, value)
      ensures wasSet == if ok then old(wasSet) + SetItems(t, s, value) else old(wasSet)
    {
      var d := t.syms[s];
      var v := Normalise(d.kind, value);
      AssignSymValid(t, users, s, value);
      AssignSymChanges(t, users, s, value);
      if s in users.sym && users.sym[s] == v && d.choice.None? {
        wasSet := wasSet + {SymItem(s)};
        return true;
      }
      if !FitsKind(t, d.kind, v) {
        return false;
      }
      wasSet := wasSet + {SymItem(s)};
      var u := users.(sym := users.sym[s := v]);
      if d.choice.Some? && v == UTri(2) {
        wasSet := wasSet + {ChoiceItem(d.choice.value)};
        Reassign(u.(sel := users.sel[d.choice.value := s]), ChoiceItem(d.choice.value));
      } else {
        Reassign(u, SymItem(s));
      }
      ok := true;
    }

    /** Symbol.unset_value() */
    method UnsetValue(s: SymName)
      requires Valid() && s in t.syms
      modifies this`users, this`cache
      ensures Valid()
      ensures users == old(users).(sym := old(users).sym - {s})
    {
      if s in users.sym {
        Reassign(users.(sym := users.sym - {s}), SymItem(s));
      }
      assert users.sym == old(users).sym - {s};
    }

    /** Choice.set_value() */
    method SetMode(c: ChoiceId, value: Tri) returns (ok: bool)
      requires Valid() && c in t.choices
      modifies this`users, this`cache, this`wasSet
      ensures Valid()
      ensures (users, ok) == AssignMode(t, old(users), c, value)
      ensures wasSet == if ok then old(wasSet) + {ChoiceItem(c)} else old(wasSet)
    {
      if UserMode(users, c) == Some(value) {
        wasSet := wasSet + {ChoiceItem(c)};
        assert users.mode == users.mode[c := value];
        return true;
      }
      if !FitsKind(t, t.choices[c].kind, UTri(value)) {
        return false;
      }
      wasSet := wasSet + {ChoiceItem(c)};
      Reassign(users.(mode := users.mode[c := value]), ChoiceItem(c));
      ok := true;
    }

    /** Choice.unset_value() */
    method UnsetMode(c: ChoiceId)
      requires Valid() && c in t.choices
      modifies this`users, this`cache
      ensures Valid()
      ensures users == old(users).(mode := old(users).mode - {c}, sel := old(users).sel - {c})
    {
      if c in users.mode || c in users.sel {
        Reassign(users.(mode := users.mode - {c}, sel := users.sel - {c}), ChoiceItem(c));
      }
      assert users.mode == old(users).mode - {c} && users.sel == old(users).sel - {c};
    }

    /** unset_values() */
    method UnsetValues()
      requires Valid()
      modifies this`users, this`cache
      ensures Valid() && users == Users(map[], map[], map[])
    {
      var syms := t.syms.Keys;
      while syms != {}
        invariant Valid() && forall s :: s in users.sym ==> s in syms
        decreases syms
      {
        var s :| s in syms;
        UnsetValue(s);
        syms := syms - {s};
      }
      var choices := t.choices.Keys;
      while choices != {}
        invariant Valid() && users.sym == map[] && forall c :: c in users.mode || c in users.sel ==> c in choices
        decreases choices
      {
        var c :| c in choices;
        UnsetMode(c);
        choices := choices - {c};
      }
    }

    /** In every valid state, each cached value is the one that evaluation from scratch gives for the current user
        values. */
    lemma Coherent(q: Query)
      requires Valid() && q in cache
      ensures Varies(t, q) && cache[q] == Eval(t, rank, users, q)
    {
      ConsistentIsEval(t, rank, users, cache, q);
    }

    /** Reads a value through the cache. */
    method Read(q: Query)
      requires Valid() && Varies(t, q)
      modifies this`cache
      ensures Valid() && q in cache
    {
      match q
      case Vis(x) => var _ := Visibility(x);
      case TriVal(s) => var _ := TriValue(s);
      case StrVal(s) => var _ := StrValue(s);
      case Sel(c) => var _ := SelectionValue(c);
    }

    method Perform(op: Operation)
      requires Valid() && Legal(t, op)
      modifies this
      ensures Valid() && users == Performed(t, old(users), op)
      ensures op.Reading? ==> op.q in cache
    {
      match op
      case SetSym(s, value) => var _ := SetValue(s, value);
      case UnsetSym(s) => UnsetValue(s);
      case SetChoice(c, mode) => var _ := SetMode(c, mode);
      case UnsetChoice(c) => UnsetMode(c);
      case UnsetAll => UnsetValues();
      case Reading(q) => Read(q);
    }

    /** The main theorem, over whole runs: after any sequence of assignments and reads, each cached value is the one
        that evaluation from scratch gives for the user values that the assignments alone would leave. */
    method Run(ops: seq<Operation>)
      requires Valid() && forall k :: 0 <= k < |ops| ==> Legal(t, ops[k])
      modifies this
      ensures Valid() && users == AllPerformed(t, old(users), ops)
      ensures forall q :: q in cache ==> Varies(t, q) && cache[q] == Eval(t, rank, users, q)
      ensures ops != [] && ops[|ops| - 1].Reading? ==> ops[|ops| - 1].q in cache
    {
      for i := 0 to |ops|
        invariant Valid() && users == AllPerformed(t, old(users), ops[..i])
        invariant i > 0 && ops[i - 1].Reading? ==> ops[i - 1].q in cache
      {
        assert ops[..i + 1][..i] == ops[..i];
        Perform(ops[i]);
      }
      assert ops[..|ops|] == ops;
      forall q | q in cache ensures Varies(t, q) && cache[q] == Eval(t, rank, users, q) { Coherent(q); }
    }
  }
}
