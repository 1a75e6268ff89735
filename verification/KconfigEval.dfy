/** Evaluation from scratch, the dependencies it follows, and the uniqueness of its answers. */
module KconfigEval {
  import opened Wrappers
  import opened KconfigTree

  // ----- What a computation mentions -----

  function LeafItems(leaf: Leaf): set<Item> {
    match leaf
    case Sym(s) => {SymItem(s)}
    case Const(_) => {}
  }

  /** The items of an expression: expr_items() without constants, the ones _make_depend_on() registers */
  function ExprItems(e: Expr): set<Item> {
    match e
    case Ref(leaf) => LeafItems(leaf)
    case Mode(c) => {ChoiceItem(c)}
    case And(l, r) => ExprItems(l) + ExprItems(r)
    case Or(l, r) => ExprItems(l) + ExprItems(r)
    case Not(x) => ExprItems(x)
    case Rel(_, a, b) => LeafItems(a) + LeafItems(b)
  }

  function PromptItems(ps: seq<Expr>): set<Item> {
    if ps == [] then {} else ExprItems(ps[0]) + PromptItems(ps[1..])
  }

  function DefaultItems(ds: seq<Default>): set<Item> {
    if ds == [] then {} else ExprItems(ds[0].value) + ExprItems(ds[0].cond) + DefaultItems(ds[1..])
  }

  function RangeItems(rs: seq<Range>): set<Item> {
    if rs == [] then {}
    else LeafItems(rs[0].low) + LeafItems(rs[0].high) + ExprItems(rs[0].cond) + RangeItems(rs[1..])
  }

  function ChoiceDefaultItems(ds: seq<ChoiceDefault>): set<Item> {
    if ds == [] then {} else ExprItems(ds[0].cond) + ChoiceDefaultItems(ds[1..])
  }

  /** The items `y` immediately depends on, as _build_dep() and _add_choice_deps() register them. */
  function DirectDeps(t: Tree, y: Item): set<Item> {
    match y
    case SymItem(s) =>
      if s in t.syms then
        var d := t.syms[s];
        PromptItems(d.prompts) + DefaultItems(d.defaults) + ExprItems(d.revDep) + ExprItems(d.weakRevDep)
        + RangeItems(d.ranges) + ExprItems(d.directDep)
      else {}
    case ChoiceItem(c) =>
      if c in t.choices then
        var d := t.choices[c];
        PromptItems(d.prompts) + ChoiceDefaultItems(d.defaults) + set s | s in d.syms :: SymItem(s)
      else {}
  }

  function Scope(t: Tree, y: Item): set<Item> { {y} + DirectDeps(t, y) }

  /** A symbol that no user value can reach: each of its prompts, if any, has the condition n. */
  predicate Inert(d: SymDef) { forall p :: p in d.prompts ==> p == N }

  // ----- What a computation may read -----

  /** Every query the value of an item `x` inside an expression may be taken from */
  function ItemReads(t: Tree, x: Item): set<Query> {
    var all := match x
      case SymItem(s) => {TriVal(s), StrVal(s)}
      case ChoiceItem(c) => {Vis(x)};
    set q | q in all && Varies(t, q)
  }

  function ItemsReads(t: Tree, xs: set<Item>): set<Query> { set x, q | x in xs && q in ItemReads(t, x) :: q }

  function ChoiceReads(d: SymDef): set<Query> {
    if d.choice.Some? then {Vis(ChoiceItem(d.choice.value))} else {}
  }

  function VisReads(t: Tree, syms: seq<SymName>): set<Query> { set s | s in syms && s in t.syms :: Vis(SymItem(s)) }

  function DefaultSyms(ds: seq<ChoiceDefault>): seq<SymName> { seq(|ds|, i requires 0 <= i < |ds| => ds[i].sym) }

  /** The items whose values the tristate value of a symbol outside choices is taken from */
  function TriItems(d: SymDef): set<Item> {
    DefaultItems(d.defaults) + ExprItems(d.revDep) + ExprItems(d.weakRevDep) + ExprItems(d.directDep)
  }

  function StrItems(d: SymDef): set<Item> { DefaultItems(d.defaults) + RangeItems(d.ranges) }

  /** Every query that computing `q` may read, whatever the values are */
  function Reads(t: Tree, q: Query): set<Query>
    requires Varies(t, q)
  {
    match q
    case Vis(SymItem(s)) => ItemsReads(t, PromptItems(t.syms[s].prompts)) + ChoiceReads(t.syms[s])
    case Vis(ChoiceItem(c)) => ItemsReads(t, PromptItems(t.choices[c].prompts))
    case TriVal(s) =>
      var d := t.syms[s];
      {Vis(SymItem(s))} + ChoiceReads(d) + (if d.choice.Some? then {Sel(d.choice.value)} else {})
      + ItemsReads(t, TriItems(d))
    case StrVal(s) =>
      var d := t.syms[s];
      (if d.kind.Logical() then {TriVal(s)} else {}) + {Vis(SymItem(s))}
      + ItemsReads(t, StrItems(d))
    case Sel(c) =>
      var d := t.choices[c];
      {Vis(ChoiceItem(c))} + ItemsReads(t, ChoiceDefaultItems(d.defaults))
      + VisReads(t, d.syms) + VisReads(t, DefaultSyms(d.defaults))
  }

  /** Every query whose answer can vary */
  function AllQueries(t: Tree): set<Query> {
    (set s | s in t.syms :: Vis(SymItem(s)))
    + (set s | s in t.syms && t.syms[s].kind.Logical() :: TriVal(s))
    + (set s | s in t.syms && t.syms[s].kind != Unknown :: StrVal(s))
    + (set c | c in t.choices :: Vis(ChoiceItem(c)))
    + (set c | c in t.choices :: Sel(c))
  }

  lemma QueryListed(t: Tree, q: Query)
    ensures q in AllQueries(t) <==> Varies(t, q)
  {
    match q
    case Vis(SymItem(s)) =>
    case Vis(ChoiceItem(c)) =>
    case TriVal(s) =>
    case StrVal(s) =>
    case Sel(c) =>
  }

  lemma QueriesListed(t: Tree)
    ensures forall q :: q in AllQueries(t) <==> Varies(t, q)
  {
    forall q ensures q in AllQueries(t) <==> Varies(t, q) { QueryListed(t, q); }
  }

  // ----- Well-formed configurations -----

  /** What a tree that raises no sanity error or warning satisfies: choice symbols and choices refer to
      each other, choice defaults are choice symbols, defaults of strings and numbers are plain symbols,
      and a prompt inside a choice has the choice in its condition unless it was simplified to n. */
  predicate Sane(t: Tree) {
    && (forall s {:trigger SaneSym(t, s)} :: s in t.syms ==> SaneSym(t, s))
    && (forall c {:trigger SaneChoice(t, c)} :: c in t.choices ==> SaneChoice(t, c))
  }

  predicate SaneSym(t: Tree, s: SymName)
    requires s in t.syms
  {
    var d := t.syms[s];
    && (d.choice.Some? ==>
          && d.kind.Logical()
          && d.choice.value in t.choices
          && s in t.choices[d.choice.value].syms
          && forall p :: p in d.prompts ==> p == N || ChoiceItem(d.choice.value) in ExprItems(p))
    && (!d.kind.Logical() ==> forall x :: x in d.defaults ==> x.value.Ref?)
  }

  predicate SaneChoice(t: Tree, c: ChoiceId)
    requires c in t.choices
  {
    var d := t.choices[c];
    && d.kind.Logical()
    && (forall s :: s in d.syms ==> s in t.syms && t.syms[s].choice == Some(c))
    && (forall x :: x in d.defaults ==> x.sym in d.syms)
  }

  /** User values as set_value() accepts them */
  predicate FitsKind(t: Tree, kind: Kind, v: UserVal) {
    match kind
    case Unknown => false
    case Bool => v.UTri? && v.tri != 1
    case Tristate => v.UTri?
    case Text => v.UText?
    case Int => v.UText? && t.num.parse(v.text, 10).Some?
    case Hex => v.UText? && var n := t.num.parse(v.text, 16); n.Some? && n.value >= 0
  }

  predicate ValidUsers(t: Tree, u: Users) {
    && (forall s :: s in u.sym ==> s in t.syms && FitsKind(t, t.syms[s].kind, u.sym[s]))
    && (forall c :: c in u.mode ==> c in t.choices && FitsKind(t, t.choices[c].kind, UTri(u.mode[c])))
    && (forall c :: c in u.sel ==> c in t.choices && u.sel[c] in t.choices[c].syms)
  }

  /** `rank` orders the queries so that each reads only lower ones: the dependencies have no loop. */
  ghost predicate Ranked(t: Tree, rank: Query -> nat) {
    forall q, p {:trigger p in Reads(t, q)} :: Varies(t, q) && p in Reads(t, q) ==> Varies(t, p) && rank(p) < rank(q)
  }

  /** Everything an expression over `xs` may read ranks below `bound`. */
  ghost predicate Below(t: Tree, rank: Query -> nat, xs: set<Item>, bound: nat) {
    forall p :: p in ItemsReads(t, xs) ==> rank(p) < bound
  }

  lemma VisRanks(t: Tree, rank: Query -> nat, s: SymName)
    requires Ranked(t, rank) && s in t.syms
    ensures Below(t, rank, PromptItems(t.syms[s].prompts), rank(Vis(SymItem(s))))
    ensures t.syms[s].choice.Some? ==> rank(Vis(ChoiceItem(t.syms[s].choice.value))) < rank(Vis(SymItem(s)))
  {
    assert forall p :: p in Reads(t, Vis(SymItem(s))) ==> rank(p) < rank(Vis(SymItem(s)));
  }

  lemma ModeRanks(t: Tree, rank: Query -> nat, c: ChoiceId)
    requires Ranked(t, rank) && c in t.choices
    ensures Below(t, rank, PromptItems(t.choices[c].prompts), rank(Vis(ChoiceItem(c))))
  {
    assert forall p :: p in Reads(t, Vis(ChoiceItem(c))) ==> rank(p) < rank(Vis(ChoiceItem(c)));
  }

  lemma TriRanks(t: Tree, rank: Query -> nat, s: SymName)
    requires Ranked(t, rank) && Varies(t, TriVal(s))
    ensures Below(t, rank, TriItems(t.syms[s]), rank(TriVal(s))) && rank(Vis(SymItem(s))) < rank(TriVal(s))
    ensures t.syms[s].choice.Some? ==> rank(Sel(t.syms[s].choice.value)) < rank(TriVal(s))
  {
    assert forall p :: p in Reads(t, TriVal(s)) ==> rank(p) < rank(TriVal(s));
  }

  lemma StrRanks(t: Tree, rank: Query -> nat, s: SymName)
    requires Ranked(t, rank) && Varies(t, StrVal(s))
    ensures Below(t, rank, StrItems(t.syms[s]), rank(StrVal(s))) && rank(Vis(SymItem(s))) < rank(StrVal(s))
    ensures t.syms[s].kind.Logical() ==> rank(TriVal(s)) < rank(StrVal(s))
  {
    assert forall p :: p in Reads(t, StrVal(s)) ==> rank(p) < rank(StrVal(s));
  }

  lemma SelRanks(t: Tree, rank: Query -> nat, c: ChoiceId)
    requires Ranked(t, rank) && c in t.choices
    ensures Below(t, rank, ChoiceDefaultItems(t.choices[c].defaults), rank(Sel(c)))
    ensures rank(Vis(ChoiceItem(c))) < rank(Sel(c))
    ensures forall s :: s in t.choices[c].syms && s in t.syms ==> rank(Vis(SymItem(s))) < rank(Sel(c))
  {
    assert forall p :: p in Reads(t, Sel(c)) ==> rank(p) < rank(Sel(c));
    forall s | s in t.choices[c].syms && s in t.syms ensures rank(Vis(SymItem(s))) < rank(Sel(c)) {
      assert Vis(SymItem(s)) in VisReads(t, t.choices[c].syms);
    }
  }

  // ----- A computation whose reads are all recorded succeeds -----

  predicate Recorded(m: Answers, qs: set<Query>) { forall q :: q in qs ==> q in m && WellTyped(q, m[q]) }

  lemma LeafTotal(t: Tree, m: Answers, leaf: Leaf, xs: set<Item>)
    requires LeafItems(leaf) <= xs && Recorded(m, ItemsReads(t, xs))
    ensures LeafTri(t, m, leaf).Some? && LeafText(t, m, leaf).Some?
  {
    if leaf.Sym? {
      var s := leaf.name;
      assert SymItem(s) in xs;
      assert Varies(t, TriVal(s)) ==> TriVal(s) in ItemReads(t, SymItem(s));
      assert Varies(t, StrVal(s)) ==> StrVal(s) in ItemReads(t, SymItem(s));
    }
  }

  lemma ExprTotal(t: Tree, u: Users, m: Answers, e: Expr, xs: set<Item>)
    requires ExprItems(e) <= xs && Recorded(m, ItemsReads(t, xs))
    ensures ExprVal(t, u, m, e).Some?
  {
    match e
    case Ref(leaf) => LeafTotal(t, m, leaf, xs);
    case Mode(c) =>
      if c in t.choices {
        assert ChoiceItem(c) in xs && Vis(ChoiceItem(c)) in ItemReads(t, ChoiceItem(c));
      }
    case And(l, r) => ExprTotal(t, u, m, l, xs); ExprTotal(t, u, m, r, xs);
    case Or(l, r) => ExprTotal(t, u, m, l, xs); ExprTotal(t, u, m, r, xs);
    case Not(x) => ExprTotal(t, u, m, x, xs);
    case Rel(_, a, b) => LeafTotal(t, m, a, xs); LeafTotal(t, m, b, xs);
  }

  lemma PromptsTotal(t: Tree, u: Users, m: Answers, ps: seq<Expr>, xs: set<Item>)
    requires PromptItems(ps) <= xs && Recorded(m, ItemsReads(t, xs))
    ensures MaxPrompt(t, u, m, ps).Some?
  {
    if ps != [] {
      ExprTotal(t, u, m, ps[0], xs);
      PromptsTotal(t, u, m, ps[1..], xs);
    }
  }

  lemma DefaultsTotal(t: Tree, u: Users, m: Answers, ds: seq<Default>, xs: set<Item>)
    requires DefaultItems(ds) <= xs && Recorded(m, ItemsReads(t, xs))
    ensures FirstDefault(t, u, m, ds).Some? && FirstText(t, u, m, ds).Some?
  {
    if ds != [] {
      ExprTotal(t, u, m, ds[0].cond, xs);
      ExprTotal(t, u, m, ds[0].value, xs);
      if ds[0].value.Ref? { LeafTotal(t, m, ds[0].value.leaf, xs); }
      DefaultsTotal(t, u, m, ds[1..], xs);
    }
  }

  lemma RangesTotal(t: Tree, u: Users, m: Answers, kind: Kind, rs: seq<Range>, xs: set<Item>)
    requires RangeItems(rs) <= xs && Recorded(m, ItemsReads(t, xs))
    ensures ActiveRange(t, u, m, kind, rs).Some?
  {
    if rs != [] {
      ExprTotal(t, u, m, rs[0].cond, xs);
      LeafTotal(t, m, rs[0].low, xs);
      LeafTotal(t, m, rs[0].high, xs);
      RangesTotal(t, u, m, kind, rs[1..], xs);
    }
  }

  lemma VisibleTotal(t: Tree, m: Answers, syms: seq<SymName>)
    requires Recorded(m, VisReads(t, syms))
    ensures FirstVisible(t, m, syms).Some?
  {
    if syms != [] {
      VisibleTotal(t, m, syms[1..]);
    }
  }

  lemma ChoiceDefaultsTotal(t: Tree, u: Users, m: Answers, ds: seq<ChoiceDefault>, xs: set<Item>)
    requires ChoiceDefaultItems(ds) <= xs && Recorded(m, ItemsReads(t, xs))
    requires Recorded(m, VisReads(t, DefaultSyms(ds)))
    ensures FirstChoiceDefault(t, u, m, ds).Some?
  {
    if ds != [] {
      ExprTotal(t, u, m, ds[0].cond, xs);
      assert DefaultSyms(ds)[0] == ds[0].sym && DefaultSyms(ds)[1..] == DefaultSyms(ds[1..]);
      ChoiceDefaultsTotal(t, u, m, ds[1..], xs);
    }
  }

  lemma PlainTotal(t: Tree, u: Users, m: Answers, d: SymDef)
    requires Recorded(m, ItemsReads(t, TriItems(d)))
    ensures FirstDefault(t, u, m, d.defaults).Some?
    ensures ExprVal(t, u, m, d.revDep).Some?
    ensures ExprVal(t, u, m, d.weakRevDep).Some?
    ensures ExprVal(t, u, m, d.directDep).Some?
  {
    DefaultsTotal(t, u, m, d.defaults, TriItems(d));
    ExprTotal(t, u, m, d.revDep, TriItems(d));
    ExprTotal(t, u, m, d.weakRevDep, TriItems(d));
    ExprTotal(t, u, m, d.directDep, TriItems(d));
  }

  lemma SelectionTotal(t: Tree, u: Users, m: Answers, c: ChoiceId)
    requires Sane(t) && ValidUsers(t, u) && c in t.choices
    requires Recorded(m, Reads(t, Sel(c)))
    ensures Selection(t, u, m, c).Some?
  {
    var d := t.choices[c];
    assert Recorded(m, ItemsReads(t, ChoiceDefaultItems(d.defaults)));
    ChoiceDefaultsTotal(t, u, m, d.defaults, ChoiceDefaultItems(d.defaults));
    VisibleTotal(t, m, d.syms);
    assert c in u.sel && u.sel[c] in t.syms ==> Vis(SymItem(u.sel[c])) in VisReads(t, d.syms);
  }

  lemma AnswerTotal(t: Tree, u: Users, m: Answers, q: Query)
    requires Sane(t) && ValidUsers(t, u) && Varies(t, q)
    requires Recorded(m, Reads(t, q))
    ensures Answer(t, u, m, q).Some?
  {
    match q
    case Vis(SymItem(s)) => PromptsTotal(t, u, m, t.syms[s].prompts, PromptItems(t.syms[s].prompts));
    case Vis(ChoiceItem(c)) => PromptsTotal(t, u, m, t.choices[c].prompts, PromptItems(t.choices[c].prompts));
    case TriVal(s) => PlainTotal(t, u, m, t.syms[s]);
    case StrVal(s) =>
      var d := t.syms[s];
      DefaultsTotal(t, u, m, d.defaults, StrItems(d));
      RangesTotal(t, u, m, d.kind, d.ranges, StrItems(d));
    case Sel(c) => SelectionTotal(t, u, m, c);
  }

  // ----- Evaluation from scratch -----

  /** The value of a query for the given user values: evaluate everything it may read, then the query */
  ghost function Eval(t: Tree, rank: Query -> nat, u: Users, q: Query): (v: Value)
    requires Sane(t) && Ranked(t, rank) && ValidUsers(t, u) && Varies(t, q)
    ensures WellTyped(q, v)
    decreases rank(q)
  {
    var below := map p | p in Reads(t, q) :: Eval(t, rank, u, p);
    AnswerTotal(t, u, below, q);
    Answer(t, u, below, q).value
  }

  // ----- What an answer depends on -----

  /** `m'` records, of the queries `qs`, at least what `m` records. */
  predicate Carries(m: Answers, m': Answers, qs: set<Query>) {
    forall p :: p in qs && p in m ==> p in m' && m'[p] == m[p]
  }

  ghost predicate SameModes(u: Users, u': Users, xs: set<Item>) {
    forall c :: ChoiceItem(c) in xs ==> UserMode(u, c) == UserMode(u', c)
  }

  /** The modes of the choices among `xs` that are known from `m` stay the same. */
  ghost predicate ModesKept(t: Tree, u: Users, u': Users, m: Answers, m': Answers, xs: set<Item>) {
    forall c :: ChoiceItem(c) in xs && ModeVal(t, u, m, c).Some? ==> ModeVal(t, u', m', c) == ModeVal(t, u, m, c)
  }

  lemma LeafKept(t: Tree, m: Answers, m': Answers, leaf: Leaf, xs: set<Item>)
    requires LeafItems(leaf) <= xs && Carries(m, m', ItemsReads(t, xs))
    ensures LeafTri(t, m, leaf).Some? ==> LeafTri(t, m', leaf) == LeafTri(t, m, leaf)
    ensures LeafText(t, m, leaf).Some? ==> LeafText(t, m', leaf) == LeafText(t, m, leaf)
  {
    if leaf.Sym? {
      var s := leaf.name;
      assert SymItem(s) in xs;
      assert Varies(t, TriVal(s)) ==> TriVal(s) in ItemReads(t, SymItem(s));
      assert Varies(t, StrVal(s)) ==> StrVal(s) in ItemReads(t, SymItem(s));
    }
  }

  lemma ExprKept(t: Tree, u: Users, u': Users, m: Answers, m': Answers, e: Expr, xs: set<Item>)
    requires ExprItems(e) <= xs && Carries(m, m', ItemsReads(t, xs)) && ModesKept(t, u, u', m, m', xs)
    requires ExprVal(t, u, m, e).Some?
    ensures ExprVal(t, u', m', e) == ExprVal(t, u, m, e)
  {
    match e
    case Ref(leaf) => LeafKept(t, m, m', leaf, xs);
    case Mode(c) => assert ChoiceItem(c) in xs;
    case And(l, r) =>
      ExprKept(t, u, u', m, m', l, xs);
      if ExprVal(t, u, m, l) != Some(0) { ExprKept(t, u, u', m, m', r, xs); }
    case Or(l, r) =>
      ExprKept(t, u, u', m, m', l, xs);
      if ExprVal(t, u, m, l) != Some(2) { ExprKept(t, u, u', m, m', r, xs); }
    case Not(x) => ExprKept(t, u, u', m, m', x, xs);
    case Rel(_, a, b) => LeafKept(t, m, m', a, xs); LeafKept(t, m, m', b, xs);
  }

  lemma PromptsKept(t: Tree, u: Users, u': Users, m: Answers, m': Answers, ps: seq<Expr>, xs: set<Item>)
    requires PromptItems(ps) <= xs && Carries(m, m', ItemsReads(t, xs)) && ModesKept(t, u, u', m, m', xs)
    requires MaxPrompt(t, u, m, ps).Some?
    ensures MaxPrompt(t, u', m', ps) == MaxPrompt(t, u, m, ps)
  {
    if ps != [] {
      ExprKept(t, u, u', m, m', ps[0], xs);
      PromptsKept(t, u, u', m, m', ps[1..], xs);
    }
  }

  lemma DefaultsKept(t: Tree, u: Users, u': Users, m: Answers, m': Answers, ds: seq<Default>, xs: set<Item>)
    requires DefaultItems(ds) <= xs && Carries(m, m', ItemsReads(t, xs)) && ModesKept(t, u, u', m, m', xs)
    ensures FirstDefault(t, u, m, ds).Some? ==> FirstDefault(t, u', m', ds) == FirstDefault(t, u, m, ds)
    ensures FirstText(t, u, m, ds).Some? ==> FirstText(t, u', m', ds) == FirstText(t, u, m, ds)
  {
    if ds != [] && ExprVal(t, u, m, ds[0].cond).Some? {
      ExprKept(t, u, u', m, m', ds[0].cond, xs);
      if ExprVal(t, u, m, ds[0].value).Some? { ExprKept(t, u, u', m, m', ds[0].value, xs); }
      if ds[0].value.Ref? { LeafKept(t, m, m', ds[0].value.leaf, xs); }
      DefaultsKept(t, u, u', m, m', ds[1..], xs);
    }
  }

  lemma RangesKept(t: Tree, u: Users, u': Users, m: Answers, m': Answers, kind: Kind, rs: seq<Range>, xs: set<Item>)
    requires RangeItems(rs) <= xs && Carries(m, m', ItemsReads(t, xs)) && ModesKept(t, u, u', m, m', xs)
    requires ActiveRange(t, u, m, kind, rs).Some?
    ensures ActiveRange(t, u', m', kind, rs) == ActiveRange(t, u, m, kind, rs)
  {
    if rs != [] {
      ExprKept(t, u, u', m, m', rs[0].cond, xs);
      LeafKept(t, m, m', rs[0].low, xs);
      LeafKept(t, m, m', rs[0].high, xs);
      if ExprVal(t, u, m, rs[0].cond) == Some(0) { RangesKept(t, u, u', m, m', kind, rs[1..], xs); }
    }
  }

  lemma VisibleKept(t: Tree, m: Answers, m': Answers, syms: seq<SymName>)
    requires Carries(m, m', VisReads(t, syms))
    requires FirstVisible(t, m, syms).Some?
    ensures FirstVisible(t, m', syms) == FirstVisible(t, m, syms)
  {
    if syms != [] {
      if SymVis(t, m, syms[0]) == Some(0) { VisibleKept(t, m, m', syms[1..]); }
    }
  }

  lemma ChoiceDefaultsKept(t: Tree, u: Users, u': Users, m: Answers, m': Answers, ds: seq<ChoiceDefault>, xs: set<Item>)
    requires ChoiceDefaultItems(ds) <= xs && Carries(m, m', ItemsReads(t, xs)) && ModesKept(t, u, u', m, m', xs)
    requires Carries(m, m', VisReads(t, DefaultSyms(ds)))
    requires FirstChoiceDefault(t, u, m, ds).Some?
    ensures FirstChoiceDefault(t, u', m', ds) == FirstChoiceDefault(t, u, m, ds)
  {
    if ds != [] {
      ExprKept(t, u, u', m, m', ds[0].cond, xs);
      assert DefaultSyms(ds)[0] == ds[0].sym && DefaultSyms(ds)[1..] == DefaultSyms(ds[1..]);
      if FirstChoiceDefault(t, u, m, ds[1..]).Some? { ChoiceDefaultsKept(t, u, u', m, m', ds[1..], xs); }
    }
  }

  /** The reads of `q` that stay within its own item and the items it is registered to depend on */
  function NearReads(t: Tree, q: Query): set<Query>
    requires Varies(t, q)
  {
    set p | p in Reads(t, q) && ItemOf(p) in Scope(t, ItemOf(q))
  }

  predicate KnownInvisible(m: Answers, s: SymName) { Vis(SymItem(s)) in m ==> m[Vis(SymItem(s))] == TriV(0, false) }

  /** The user values held on the item itself agree, or cannot matter because the item is invisible. */
  predicate OwnKept(t: Tree, u: Users, u': Users, m: Answers, x: Item) {
    match x
    case SymItem(s) =>
      s in t.syms ==>
        && (Inert(t.syms[s]) ==> KnownInvisible(m, s))
        && ((UserTri(u, s) == UserTri(u', s) && UserText(u, s) == UserText(u', s)) || KnownInvisible(m, s))
    case ChoiceItem(c) => (c in u.sel <==> c in u'.sel) && (c in u.sel ==> u.sel[c] == u'.sel[c])
  }

  lemma NearItems(t: Tree, u: Users, u': Users, m: Answers, m': Answers, q: Query, xs: set<Item>)
    requires Varies(t, q) && xs <= DirectDeps(t, ItemOf(q)) && ItemsReads(t, xs) <= Reads(t, q)
    requires Carries(m, m', NearReads(t, q)) && SameModes(u, u', Scope(t, ItemOf(q)))
    ensures Carries(m, m', ItemsReads(t, xs)) && ModesKept(t, u, u', m, m', xs)
  {
    forall p | p in ItemsReads(t, xs) ensures p in NearReads(t, q) {
      var x :| x in xs && p in ItemReads(t, x);
      assert ItemOf(p) == x;
    }
    forall c | ChoiceItem(c) in xs && c in t.choices ensures Vis(ChoiceItem(c)) in NearReads(t, q) {
      assert Vis(ChoiceItem(c)) in ItemReads(t, ChoiceItem(c));
    }
  }

  lemma InertPrompts(t: Tree, u: Users, m: Answers, ps: seq<Expr>)
    requires forall p :: p in ps ==> p == N
    ensures MaxPrompt(t, u, m, ps) == Some(0)
  {
    if ps != [] {
      assert ps[0] in ps && ExprVal(t, u, m, ps[0]) == Some(0);
      assert forall p :: p in ps[1..] ==> p in ps;
      InertPrompts(t, u, m, ps[1..]);
    }
  }

  lemma PromptMember(ps: seq<Expr>, p: Expr)
    requires p in ps
    ensures ExprItems(p) <= PromptItems(ps)
  {
    if p != ps[0] { PromptMember(ps[1..], p); }
  }

  /** A choice symbol that is not inert is registered to depend on its choice. */
  lemma DependsOnChoice(t: Tree, s: SymName)
    requires Sane(t) && s in t.syms && t.syms[s].choice.Some? && !Inert(t.syms[s])
    ensures ChoiceItem(t.syms[s].choice.value) in PromptItems(t.syms[s].prompts)
  {
    var p :| p in t.syms[s].prompts && p != N;
    PromptMember(t.syms[s].prompts, p);
    assert SaneSym(t, s);
  }

  lemma NearVis(t: Tree, u: Users, u': Users, m: Answers, m': Answers, s: SymName)
    requires Sane(t) && s in t.syms && Carries(m, m', NearReads(t, Vis(SymItem(s))))
    requires SameModes(u, u', Scope(t, SymItem(s)))
    ensures Carries(m, m', ItemsReads(t, PromptItems(t.syms[s].prompts)))
    ensures ModesKept(t, u, u', m, m', PromptItems(t.syms[s].prompts))
  {
    NearItems(t, u, u', m, m', Vis(SymItem(s)), PromptItems(t.syms[s].prompts));
  }

  lemma VisKept(t: Tree, u: Users, u': Users, m: Answers, m': Answers, d: SymDef, xs: set<Item>)
    requires PromptItems(d.prompts) <= xs && Carries(m, m', ItemsReads(t, xs)) && ModesKept(t, u, u', m, m', xs)
    requires !Inert(d) && d.choice.Some? ==> ChoiceItem(d.choice.value) in xs
    requires SymVisibility(t, u, m, d).Some?
    ensures SymVisibility(t, u', m', d) == SymVisibility(t, u, m, d)
  {
    PromptsKept(t, u, u', m, m', d.prompts, xs);
    if Inert(d) {
      InertPrompts(t, u, m, d.prompts);
    } else if d.choice.Some? && ModeVal(t, u, m, d.choice.value).Some? {
      assert ModeVal(t, u', m', d.choice.value) == ModeVal(t, u, m, d.choice.value);
    }
  }

  lemma BaseKept(t: Tree, u: Users, u': Users, m: Answers, m': Answers, s: SymName, d: SymDef, vis: Tri, xs: set<Item>)
    requires TriItems(d) <= xs && Carries(m, m', ItemsReads(t, xs)) && ModesKept(t, u, u', m, m', xs)
    requires UserTri(u, s) == UserTri(u', s) || vis == 0
    requires BaseTri(t, u, m, s, d, vis).Some?
    ensures BaseTri(t, u', m', s, d, vis) == BaseTri(t, u, m, s, d, vis)
  {
    if vis == 0 || UserTri(u, s).None? {
      DefaultsKept(t, u, u', m, m', d.defaults, xs);
      ExprKept(t, u, u', m, m', d.weakRevDep, xs);
      if ExprVal(t, u, m, d.weakRevDep) != Some(0) { ExprKept(t, u, u', m, m', d.directDep, xs); }
    }
  }

  lemma PlainKept(t: Tree, u: Users, u': Users, m: Answers, m': Answers, s: SymName, d: SymDef, xs: set<Item>)
    requires TriItems(d) <= xs && Carries(m, m', ItemsReads(t, xs)) && ModesKept(t, u, u', m, m', xs)
    requires Carries(m, m', {Vis(SymItem(s))})
    requires UserTri(u, s) == UserTri(u', s) || KnownInvisible(m, s)
    requires PlainTri(t, u, m, s, d).Some?
    ensures PlainTri(t, u', m', s, d) == PlainTri(t, u, m, s, d)
  {
    var vis := AskTri(m, Vis(SymItem(s))).value;
    assert AskTri(m', Vis(SymItem(s))) == Some(vis);
    BaseKept(t, u, u', m, m', s, d, vis, xs);
    ExprKept(t, u, u', m, m', d.revDep, xs);
  }

  lemma NearTri(t: Tree, u: Users, u': Users, m: Answers, m': Answers, s: SymName)
    requires Sane(t) && Varies(t, TriVal(s)) && Carries(m, m', NearReads(t, TriVal(s)))
    requires SameModes(u, u', Scope(t, SymItem(s)))
    ensures ModesKept(t, u, u', m, m', TriItems(t.syms[s]))
    ensures Carries(m, m', ItemsReads(t, TriItems(t.syms[s]))) && Carries(m, m', {Vis(SymItem(s))})
    ensures !Inert(t.syms[s]) && t.syms[s].choice.Some? ==> Carries(m, m', {Sel(t.syms[s].choice.value)})
  {
    NearItems(t, u, u', m, m', TriVal(s), TriItems(t.syms[s]));
    if !Inert(t.syms[s]) && t.syms[s].choice.Some? { DependsOnChoice(t, s); }
  }

  lemma NearStr(t: Tree, u: Users, u': Users, m: Answers, m': Answers, s: SymName)
    requires Varies(t, StrVal(s)) && Carries(m, m', NearReads(t, StrVal(s)))
    requires SameModes(u, u', Scope(t, SymItem(s)))
    ensures ModesKept(t, u, u', m, m', StrItems(t.syms[s]))
    ensures Carries(m, m', ItemsReads(t, StrItems(t.syms[s]))) && Carries(m, m', {Vis(SymItem(s))})
    ensures t.syms[s].kind.Logical() ==> Carries(m, m', {TriVal(s)})
  {
    NearItems(t, u, u', m, m', StrVal(s), StrItems(t.syms[s]));
  }

  lemma StrKept(t: Tree, u: Users, u': Users, m: Answers, m': Answers, s: SymName, d: SymDef, xs: set<Item>)
    requires StrItems(d) <= xs && Carries(m, m', ItemsReads(t, xs)) && ModesKept(t, u, u', m, m', xs)
    requires Carries(m, m', {Vis(SymItem(s))}) && (d.kind.Logical() ==> Carries(m, m', {TriVal(s)}))
    requires UserText(u, s) == UserText(u', s) || KnownInvisible(m, s)
    requires StrAnswer(t, u, m, s, d).Some?
    ensures StrAnswer(t, u', m', s, d) == StrAnswer(t, u, m, s, d)
  {
    if !d.kind.Logical() {
      assert AskTri(m', Vis(SymItem(s))) == AskTri(m, Vis(SymItem(s)));
      DefaultsKept(t, u, u', m, m', d.defaults, xs);
      if d.kind.Numeric() { RangesKept(t, u, u', m, m', d.kind, d.ranges, xs); }
    }
  }

  /** The recorded visibilities of a choice's symbols, and what its default conditions read, are carried over. */
  ghost predicate ChoiceCarried(t: Tree, m: Answers, m': Answers, c: ChoiceId)
    requires c in t.choices
  {
    && Carries(m, m', {Vis(ChoiceItem(c))})
    && Carries(m, m', VisReads(t, t.choices[c].syms))
    && Carries(m, m', VisReads(t, DefaultSyms(t.choices[c].defaults)))
    && Carries(m, m', ItemsReads(t, ChoiceDefaultItems(t.choices[c].defaults)))
  }

  lemma NearSel(t: Tree, u: Users, u': Users, m: Answers, m': Answers, c: ChoiceId)
    requires Sane(t) && c in t.choices && Carries(m, m', NearReads(t, Sel(c)))
    requires SameModes(u, u', Scope(t, ChoiceItem(c)))
    ensures ChoiceCarried(t, m, m', c)
    ensures ModesKept(t, u, u', m, m', {ChoiceItem(c)} + ChoiceDefaultItems(t.choices[c].defaults))
  {
    var d := t.choices[c];
    NearItems(t, u, u', m, m', Sel(c), ChoiceDefaultItems(d.defaults));
    assert VisReads(t, d.syms) <= NearReads(t, Sel(c));
    forall p | p in VisReads(t, DefaultSyms(d.defaults)) ensures p in VisReads(t, d.syms) {
      var i :| 0 <= i < |d.defaults| && p == Vis(SymItem(DefaultSyms(d.defaults)[i]));
      assert d.defaults[i] in d.defaults && SaneChoice(t, c);
    }
  }

  lemma SelKept(t: Tree, u: Users, u': Users, m: Answers, m': Answers, c: ChoiceId)
    requires c in t.choices && ChoiceCarried(t, m, m', c)
    requires ModesKept(t, u, u', m, m', {ChoiceItem(c)} + ChoiceDefaultItems(t.choices[c].defaults))
    requires OwnKept(t, u, u', m, ChoiceItem(c)) && (c in u.sel ==> u.sel[c] in t.choices[c].syms)
    requires Selection(t, u, m, c).Some?
    ensures Selection(t, u', m', c) == Selection(t, u, m, c)
  {
    var d := t.choices[c];
    assert ChoiceItem(c) in {ChoiceItem(c)} + ChoiceDefaultItems(d.defaults);
    assert ModeVal(t, u', m', c) == ModeVal(t, u, m, c);
    if FirstChoiceDefault(t, u, m, d.defaults).Some? {
      ChoiceDefaultsKept(t, u, u', m, m', d.defaults, ChoiceDefaultItems(d.defaults));
    }
    if FirstVisible(t, m, d.syms).Some? { VisibleKept(t, m, m', d.syms); }
  }

  lemma SymVisKept(t: Tree, u: Users, u': Users, m: Answers, m': Answers, s: SymName)
    requires Sane(t) && s in t.syms && Answer(t, u, m, Vis(SymItem(s))).Some?
    requires Carries(m, m', NearReads(t, Vis(SymItem(s)))) && SameModes(u, u', Scope(t, SymItem(s)))
    ensures Answer(t, u', m', Vis(SymItem(s))) == Answer(t, u, m, Vis(SymItem(s)))
  {
    NearVis(t, u, u', m, m', s);
    if t.syms[s].choice.Some? && !Inert(t.syms[s]) { DependsOnChoice(t, s); }
    VisKept(t, u, u', m, m', t.syms[s], PromptItems(t.syms[s].prompts));
  }

  lemma TriKept(t: Tree, u: Users, u': Users, m: Answers, m': Answers, s: SymName)
    requires Sane(t) && Answer(t, u, m, TriVal(s)).Some?
    requires Carries(m, m', NearReads(t, TriVal(s))) && SameModes(u, u', Scope(t, SymItem(s)))
    requires OwnKept(t, u, u', m, SymItem(s))
    ensures Answer(t, u', m', TriVal(s)) == Answer(t, u, m, TriVal(s))
  {
    NearTri(t, u, u', m, m', s);
    if t.syms[s].choice.None? { PlainKept(t, u, u', m, m', s, t.syms[s], TriItems(t.syms[s])); }
  }

  /** An answer is kept when the recorded answers and the user values it can depend on are. Registered
      dependencies suffice, although a computation reads only what its short-circuits lead it to. */
  lemma AnswerKept(t: Tree, u: Users, u': Users, m: Answers, m': Answers, q: Query)
    requires Sane(t) && ValidUsers(t, u)
    requires Answer(t, u, m, q).Some?
    requires Carries(m, m', NearReads(t, q)) && SameModes(u, u', Scope(t, ItemOf(q)))
    requires OwnKept(t, u, u', m, ItemOf(q))
    ensures Answer(t, u', m', q) == Answer(t, u, m, q)
  {
    match q
    case Vis(SymItem(s)) => SymVisKept(t, u, u', m, m', s);
    case Vis(ChoiceItem(c)) =>
      NearItems(t, u, u', m, m', q, PromptItems(t.choices[c].prompts));
      PromptsKept(t, u, u', m, m', t.choices[c].prompts, PromptItems(t.choices[c].prompts));
    case TriVal(s) => TriKept(t, u, u', m, m', s);
    case StrVal(s) =>
      NearStr(t, u, u', m, m', s);
      StrKept(t, u, u', m, m', s, t.syms[s], StrItems(t.syms[s]));
    case Sel(c) =>
      NearSel(t, u, u', m, m', c);
      SelKept(t, u, u', m, m', c);
  }

  // ----- Consistent answers are the evaluated ones -----

  /** Each recorded answer follows from the other recorded answers. */
  predicate Consistent(t: Tree, u: Users, m: Answers) {
    forall q {:trigger Answer(t, u, m, q)} :: q in m ==> Answer(t, u, m, q) == Some(m[q])
  }

  lemma InertInvisible(t: Tree, u: Users, m: Answers, s: SymName)
    requires Consistent(t, u, m) && s in t.syms && Inert(t.syms[s])
    ensures KnownInvisible(m, s)
  {
    InertPrompts(t, u, m, t.syms[s].prompts);
    assert Vis(SymItem(s)) in m ==> Answer(t, u, m, Vis(SymItem(s))) == Some(m[Vis(SymItem(s))]);
  }

  lemma ConsistentKept(t: Tree, u: Users, m: Answers, m': Answers, q: Query)
    requires Sane(t) && ValidUsers(t, u) && Consistent(t, u, m)
    requires Answer(t, u, m, q).Some? && Carries(m, m', Reads(t, q))
    ensures Answer(t, u, m', q) == Answer(t, u, m, q)
  {
    if ItemOf(q).SymItem? && Inert(t.syms[ItemOf(q).name]) { InertInvisible(t, u, m, ItemOf(q).name); }
    AnswerKept(t, u, u, m, m', q);
  }

  /** Consistency leaves no choice: whatever part of the answers is recorded, it is the evaluated one. */
  lemma {:induction false} ConsistentIsEval(t: Tree, rank: Query -> nat, u: Users, m: Answers, q: Query)
    requires Sane(t) && Ranked(t, rank) && ValidUsers(t, u)
    requires Consistent(t, u, m) && q in m
    ensures Varies(t, q) && m[q] == Eval(t, rank, u, q)
    decreases rank(q)
  {
    assert Answer(t, u, m, q) == Some(m[q]);
    var below := map p | p in Reads(t, q) :: Eval(t, rank, u, p);
    forall p | p in Reads(t, q) && p in m ensures m[p] == below[p] {
      ConsistentIsEval(t, rank, u, m, p);
    }
    ConsistentKept(t, u, m, below, q);
  }

  /** _cached_vis tells whether an item has any recorded answer. */
  lemma VisibilityRecorded(t: Tree, u: Users, m: Answers, q: Query)
    requires Consistent(t, u, m) && q in m
    ensures Vis(ItemOf(q)) in m
  {
    assert Answer(t, u, m, q) == Some(m[q]);
    if q.StrVal? && TriVal(q.sym) in m {
      assert Answer(t, u, m, TriVal(q.sym)) == Some(m[TriVal(q.sym)]);
    }
  }
}
