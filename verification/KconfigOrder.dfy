/** From the loop check to the recursive evaluation: which configurations have an order in which evaluation ends, which of
    them the check lets pass, and starting the program. */
module KconfigOrder {
  import opened Wrappers
  import opened Orders
  import opened KconfigTree
  import opened KconfigEval
  import opened KconfigCache
  import opened KconfigDeps
  import opened KconfigLoops

  /** Every dependent is listed, as _build_dep() registered it. */
  ghost predicate Complete(n: Net) {
    forall x, y {:trigger y in n.Dependents(x)} :: y in n.Dependents(x) <==> Defined(n.t, y) && x in BuiltDeps(n.t, y)
  }

  // ----- Grades -----

  /** `y` depends on `x`, and is not a choice symbol that depends on its own choice. */
  predicate Forward(n: Net, x: Item, y: Item) {
    Defined(n.t, x) && y in n.Dependents(x) && !(x.ChoiceItem? && y.SymItem? && n.Key(y) == x)
  }

  /** Levels on which everything that depends on a choice is also above it, except for the symbols of the choice, which are
      on its level */
  ghost predicate Graded(n: Net, level: Item -> nat) {
    forall x, y {:trigger y in n.Dependents(x)} :: Forward(n, x, y) ==> level(n.Key(x)) < level(n.Key(y))
  }

  lemma GradedIsLeveled(n: Net, level: Item -> nat)
    requires Graded(n, level)
    ensures Leveled(n, level)
  {
    forall x: Item, y | x.SymItem? && Defined(n.t, x) && y in n.Dependents(x) ensures level(n.Key(x)) < level(n.Key(y)) {
      assert Forward(n, x, y);
    }
  }

  ghost predicate Step(n: Net, a: Item, b: Item) { exists x, y :: Forward(n, x, y) && n.Key(x) == a && n.Key(y) == b }

  /** The dependencies with the symbols of each choice taken together */
  ghost function Steps(n: Net): (Item, Item) -> bool { (a, b) => Step(n, a, b) }

  function Keys(t: Tree): set<Item> { (set s | s in t.syms :: SymItem(s)) + (set c | c in t.choices :: ChoiceItem(c)) }

  lemma GradedAscends(n: Net, level: Item -> nat)
    ensures Graded(n, level) <==> Ascends(Steps(n), level)
  {
    if Ascends(Steps(n), level) {
      forall x, y | Forward(n, x, y) ensures level(n.Key(x)) < level(n.Key(y)) {
        assert Steps(n)(n.Key(x), n.Key(y));
      }
    }
  }

  /** Grades exist exactly if no chain of dependencies closes. */
  lemma GradedIff(n: Net)
    requires Sane(n.t)
    ensures (exists level :: Graded(n, level)) <==> Acyclic(Steps(n))
  {
    forall a, b | Steps(n)(a, b) ensures a in Keys(n.t) {
      var x, y :| Forward(n, x, y) && n.Key(x) == a && n.Key(y) == b;
      if x.SymItem? { assert SaneSym(n.t, x.name); }
    }
    AscendsIff(Steps(n), Keys(n.t));
    if level :| Graded(n, level) { GradedAscends(n, level); }
    if level: Item -> nat :| Ascends(Steps(n), level) { GradedAscends(n, level); }
  }

  /** The dependent `y` of the choice `c` is no symbol of it, and leads back to the choice. */
  ghost predicate LeadsBack(n: Net, c: ChoiceId, y: Item) {
    Forward(n, ChoiceItem(c), y) && (n.Key(y) == ChoiceItem(c) || Leads(Steps(n), n.Key(y), ChoiceItem(c)))
  }

  /** A step that starts at a choice itself */
  ghost predicate FromChoice(n: Net, a: Item, b: Item) {
    exists y :: a.ChoiceItem? && Forward(n, a, y) && n.Key(y) == b
  }

  lemma StepRises(n: Net, level: Item -> nat, a: Item, b: Item)
    requires Leveled(n, level) && Step(n, a, b) && !FromChoice(n, a, b)
    ensures level(a) < level(b)
  {
    var x, y :| Forward(n, x, y) && n.Key(x) == a && n.Key(y) == b;
    assert x.SymItem?;
  }

  /** Without steps from a choice itself, a walk rises. */
  lemma {:induction false} WalkRises(n: Net, level: Item -> nat, p: seq<Item>, i: nat)
    requires Leveled(n, level) && Walk(Steps(n), p) && 0 < i < |p|
    requires forall j :: 0 <= j < i ==> !FromChoice(n, p[j], p[j + 1])
    ensures level(p[0]) < level(p[i])
  {
    assert Steps(n)(p[i - 1], p[i - 1 + 1]) && !FromChoice(n, p[i - 1], p[i - 1 + 1]);
    StepRises(n, level, p[i - 1], p[i]);
    if i > 1 { WalkRises(n, level, p, i - 1); }
  }

  /** A closed walk with a step from a choice itself leads back to that choice. */
  lemma Rotated(n: Net, p: seq<Item>, i: nat)
    requires i + 1 < |p| && WalkFrom(Steps(n), p, p[0], p[0]) && FromChoice(n, p[i], p[i + 1])
    ensures exists c, y :: LeadsBack(n, c, y)
  {
    var y :| p[i].ChoiceItem? && Forward(n, p[i], y) && n.Key(y) == p[i + 1];
    var q := p[i + 1..] + p[1..i + 1];
    assert q[0] == p[i + 1] && q[|q| - 1] == p[i];
    forall j | 0 <= j < |q| - 1 ensures Steps(n)(q[j], q[j + 1]) {
      var k := if j < |p| - i - 2 then i + 1 + j else j - (|p| - i - 2);
      assert q[j] == p[k] && q[j + 1] == p[k + 1] && Steps(n)(p[k], p[k + 1]);
    }
    if |q| >= 2 { assert WalkFrom(Steps(n), q, n.Key(y), p[i]); }
    assert LeadsBack(n, p[i].id, y);
  }

  /** Where the check passes and misses nothing, grades exist exactly if no dependent of a choice leads back to it. */
  lemma GradedIffNoneBack(n: Net)
    requires Sane(n.t) && LoopFree(n)
    ensures (exists level :: Graded(n, level)) <==> !exists c, y :: LeadsBack(n, c, y)
  {
    GradedIff(n);
    if c, y :| LeadsBack(n, c, y) {
      assert Step(n, ChoiceItem(c), n.Key(y)) && Steps(n)(ChoiceItem(c), n.Key(y));
      BackCloses(n, c, y);
    }
    if !Acyclic(Steps(n)) {
      var a :| Leads(Steps(n), a, a);
      var p :| WalkFrom(Steps(n), p, a, a);
      var level :| Leveled(n, level);
      if forall j :: 0 <= j < |p| - 1 ==> !FromChoice(n, p[j], p[j + 1]) { WalkRises(n, level, p, |p| - 1); }
      var i :| 0 <= i < |p| - 1 && FromChoice(n, p[i], p[i + 1]);
      Rotated(n, p, i);
    }
  }

  lemma BackCloses(n: Net, c: ChoiceId, y: Item)
    requires LeadsBack(n, c, y)
    ensures !Acyclic(Steps(n))
  {
    var a, b := ChoiceItem(c), n.Key(y);
    assert n.Key(a) == a && Steps(n)(a, b);
    if b == a {
      LeadsOnce(Steps(n), a, b);
    } else {
      LeadsOn(Steps(n), b, a, b);
    }
  }

  // ----- The exact condition for an order -----

  ghost predicate ReadStep(t: Tree, p: Query, q: Query) { Varies(t, q) && p in Reads(t, q) }

  /** What each answer may be computed from */
  ghost function ReadSteps(t: Tree): (Query, Query) -> bool { (p, q) => ReadStep(t, p, q) }

  lemma ReadsVary(t: Tree, p: Query, q: Query)
    requires Sane(t) && ReadStep(t, p, q)
    ensures Varies(t, p)
  {
    match q
    case Vis(SymItem(s)) => assert SaneSym(t, s);
    case Vis(ChoiceItem(c)) =>
    case TriVal(s) => assert SaneSym(t, s);
    case StrVal(s) =>
    case Sel(c) =>
  }

  lemma ReadListed(t: Tree, p: Query, q: Query)
    requires Sane(t) && ReadStep(t, p, q)
    ensures p in AllQueries(t)
  {
    ReadsVary(t, p, q);
    QueryListed(t, p);
  }

  lemma ReadBelow(t: Tree, rank: Query -> nat, p: Query, q: Query)
    requires Sane(t) && Ascends(ReadSteps(t), rank) && ReadStep(t, p, q)
    ensures Varies(t, p) && rank(p) < rank(q)
  {
    assert ReadSteps(t)(p, q);
    ReadsVary(t, p, q);
  }

  lemma AscendsRanked(t: Tree, rank: Query -> nat)
    requires Sane(t) && Ascends(ReadSteps(t), rank)
    ensures Ranked(t, rank)
  {
    forall q, p | Varies(t, q) && p in Reads(t, q) ensures Varies(t, p) && rank(p) < rank(q) { ReadBelow(t, rank, p, q); }
  }

  lemma RankedAscends(t: Tree, rank: Query -> nat)
    requires Ranked(t, rank)
    ensures Ascends(ReadSteps(t), rank)
  {
    forall p, q | ReadSteps(t)(p, q) ensures rank(p) < rank(q) { assert ReadStep(t, p, q); }
  }

  /** An order for the evaluation exists exactly if no answer may, step by step, be computed from itself. */
  lemma RankedIff(t: Tree)
    requires Sane(t)
    ensures (exists rank :: Ranked(t, rank)) <==> Acyclic(ReadSteps(t))
  {
    forall p, q | ReadSteps(t)(p, q) ensures p in AllQueries(t) { ReadListed(t, p, q); }
    AscendsIff(ReadSteps(t), AllQueries(t));
    if rank :| Ranked(t, rank) { RankedAscends(t, rank); }
    if rank: Query -> nat :| Ascends(ReadSteps(t), rank) { AscendsRanked(t, rank); }
  }


  // ----- Evaluations -----

  /** One more answer is recorded, computed from those recorded before. */
  ghost predicate RecordsOne(t: Tree, u: Users, m: Answers, m': Answers) {
    exists q :: q !in m && Answer(t, u, m, q).Some? && m' == m[q := Answer(t, u, m, q).value]
  }

  /** The records of an evaluation from the start, one by one */
  ghost predicate Evaluation(t: Tree, u: Users, ms: seq<Answers>) {
    && ms != []
    && ms[0] == map[]
    && forall i :: 0 <= i < |ms| - 1 ==> RecordsOne(t, u, ms[i], ms[i + 1])
  }

  /** Some evaluation gets to record `m`. */
  ghost predicate Reached(t: Tree, u: Users, m: Answers) {
    exists ms: seq<Answers> :: Evaluation(t, u, ms) && ms[|ms| - 1] == m
  }

  /** Some evaluation gets to answer `q`. If none does, the recursive evaluation of `q` cannot end, since it records an
      answer as soon as it has computed it. */
  ghost predicate Answerable(t: Tree, u: Users, q: Query) { exists m :: Reached(t, u, m) && q in m }

  lemma ReachedStart(t: Tree, u: Users)
    ensures Reached(t, u, map[])
  {
    var ms: seq<Answers> := [map[]];
    assert Evaluation(t, u, ms) && ms[|ms| - 1] == map[];
  }

  lemma ReachedNext(t: Tree, u: Users, m: Answers, q: Query)
    requires Reached(t, u, m) && q !in m && Answer(t, u, m, q).Some?
    ensures Reached(t, u, m[q := Answer(t, u, m, q).value])
  {
    var ms :| Evaluation(t, u, ms) && ms[|ms| - 1] == m;
    var m' := m[q := Answer(t, u, m, q).value];
    var ms' := ms + [m'];
    forall i | 0 <= i < |ms'| - 1 ensures RecordsOne(t, u, ms'[i], ms'[i + 1]) {
      if i < |ms| - 1 { assert RecordsOne(t, u, ms[i], ms[i + 1]); }
    }
    assert Evaluation(t, u, ms') && ms'[|ms'| - 1] == m';
  }

  /** What every step keeps holds of all records that are reached. */
  lemma {:induction false} ReachedKeeps(t: Tree, u: Users, keeps: Answers -> bool, ms: seq<Answers>)
    requires Evaluation(t, u, ms) && keeps(map[])
    requires forall m, q :: keeps(m) && q !in m && Answer(t, u, m, q).Some? ==> keeps(m[q := Answer(t, u, m, q).value])
    ensures keeps(ms[|ms| - 1])
  {
    if |ms| > 1 {
      var front := ms[..|ms| - 1];
      assert forall i :: 0 <= i < |front| - 1 ==> RecordsOne(t, u, ms[i], ms[i + 1]);
      ReachedKeeps(t, u, keeps, front);
      assert RecordsOne(t, u, ms[|ms| - 2], ms[|ms| - 2 + 1]);
    }
  }

  ghost predicate Typed(m: Answers) { forall q :: q in m ==> WellTyped(q, m[q]) }

  lemma ReachedTyped(t: Tree, u: Users, m: Answers)
    requires Reached(t, u, m)
    ensures Typed(m)
  {
    var ms :| Evaluation(t, u, ms) && ms[|ms| - 1] == m;
    ReachedKeeps(t, u, m => Typed(m), ms);
  }

  /** With an order, an evaluation can go on until it answers `q`. */
  lemma {:induction false} ReachQuery(t: Tree, rank: Query -> nat, u: Users, m: Answers, q: Query) returns (m': Answers)
    requires Sane(t) && Ranked(t, rank) && ValidUsers(t, u) && Varies(t, q) && Reached(t, u, m)
    ensures Reached(t, u, m') && q in m' && m.Keys <= m'.Keys
    decreases rank(q), 1, 0
  {
    m' := ReachAll(t, rank, u, m, q, Reads(t, q));
    if q !in m' {
      ReachedTyped(t, u, m');
      AnswerTotal(t, u, m', q);
      ReachedNext(t, u, m', q);
      m' := m'[q := Answer(t, u, m', q).value];
    }
  }

  lemma {:induction false} ReachAll(
      t: Tree, rank: Query -> nat, u: Users, m: Answers, q: Query, ps: set<Query>) returns (m': Answers)
    requires Sane(t) && Ranked(t, rank) && ValidUsers(t, u) && Varies(t, q) && Reached(t, u, m) && ps <= Reads(t, q)
    ensures Reached(t, u, m') && ps <= m'.Keys && m.Keys <= m'.Keys
    decreases rank(q), 0, |ps|
  {
    m' := m;
    if ps != {} {
      var p :| p in ps;
      assert p in Reads(t, q);
      m' := ReachQuery(t, rank, u, m, p);
      m' := ReachAll(t, rank, u, m', q, ps - {p});
    }
  }

  /** With an order, every query is answered, whatever the user values. */
  lemma RankedAnswers(t: Tree, rank: Query -> nat, u: Users, q: Query)
    requires Sane(t) && Ranked(t, rank) && ValidUsers(t, u) && Varies(t, q)
    ensures Answerable(t, u, q)
  {
    ReachedStart(t, u);
    var m := ReachQuery(t, rank, u, map[], q);
  }

  // ----- Grades order the evaluation -----

  /** Within a level: the visibility of a choice, that of its symbols, its selection, and the values of its symbols */
  function Stage(q: Query): (n: nat)
    ensures n < 5
  {
    match q
    case Vis(ChoiceItem(_)) => 0
    case Vis(SymItem(_)) => 1
    case Sel(_) => 2
    case TriVal(_) => 3
    case StrVal(_) => 4
  }

  function Rank(n: Net, level: Item -> nat, q: Query): nat { 5 * level(n.Key(ItemOf(q))) + Stage(q) }

  function RankBy(n: Net, level: Item -> nat): Query -> nat { q => Rank(n, level, q) }

  /** What the value of a dependency is read from ranks below every query of the dependent. */
  lemma DependencyRanks(n: Net, level: Item -> nat, x: Item, y: Item, p: Query, q: Query)
    requires Complete(n) && Graded(n, level)
    requires Defined(n.t, y) && x in BuiltDeps(n.t, y) && p in ItemReads(n.t, x) && ItemOf(q) == y
    ensures Varies(n.t, p) && Rank(n, level, p) < Rank(n, level, q)
  {
    assert y in n.Dependents(x) && ItemOf(p) == x;
    assert Forward(n, x, y) || (x.ChoiceItem? && y.SymItem? && n.Key(y) == x);
  }

  /** The items of its own properties that the answer to a query is computed from */
  function OwnItems(t: Tree, q: Query): set<Item>
    requires Varies(t, q)
  {
    match q
    case Vis(SymItem(s)) => PromptItems(t.syms[s].prompts)
    case Vis(ChoiceItem(c)) => PromptItems(t.choices[c].prompts)
    case TriVal(s) => TriItems(t.syms[s])
    case StrVal(s) => StrItems(t.syms[s])
    case Sel(c) => ChoiceDefaultItems(t.choices[c].defaults)
  }

  /** The other answers it reads are earlier ones of the same symbol or choice. */
  lemma OtherReads(n: Net, level: Item -> nat, q: Query, p: Query)
    requires Sane(n.t) && Linked(n) && Varies(n.t, q) && p in Reads(n.t, q) && p !in ItemsReads(n.t, OwnItems(n.t, q))
    ensures Varies(n.t, p) && Rank(n, level, p) < Rank(n, level, q)
  {
    var t := n.t;
    match q
    case Vis(SymItem(s)) => assert SaneSym(t, s);
    case Vis(ChoiceItem(c)) =>
    case TriVal(s) => assert SaneSym(t, s);
    case StrVal(s) =>
    case Sel(c) =>
      assert SaneChoice(t, c);
      if p != Vis(ChoiceItem(c)) { assert p.Vis? && p.item.SymItem? && n.ChoiceOf(p.item.name) == Some(c); }
  }

  lemma ReadRanks(n: Net, level: Item -> nat, q: Query, p: Query)
    requires Sane(n.t) && Linked(n) && Complete(n) && Graded(n, level) && Varies(n.t, q) && p in Reads(n.t, q)
    ensures Varies(n.t, p) && Rank(n, level, p) < Rank(n, level, q)
  {
    if p in ItemsReads(n.t, OwnItems(n.t, q)) {
      var x :| x in OwnItems(n.t, q) && p in ItemReads(n.t, x);
      OwnBuilt(n.t, q);
      DependencyRanks(n, level, x, ItemOf(q), p, q);
    } else {
      OtherReads(n, level, q, p);
    }
  }

  lemma OwnBuilt(t: Tree, q: Query)
    requires Varies(t, q)
    ensures Defined(t, ItemOf(q)) && OwnItems(t, q) <= BuiltDeps(t, ItemOf(q))
  {
  }

  /** A grade for each item gives an order in which the recursive evaluation ends. */
  lemma GradesRank(n: Net, level: Item -> nat)
    requires Sane(n.t) && Linked(n) && Complete(n) && Graded(n, level)
    ensures Ranked(n.t, RankBy(n, level))
  {
    forall p, q | ReadSteps(n.t)(p, q) ensures RankBy(n, level)(p) < RankBy(n, level)(q) { ReadRanks(n, level, q, p); }
    AscendsRanked(n.t, RankBy(n, level));
  }

  // ----- Starting the program -----

  /** Iteration over a set takes its elements in some order. */
  method Listed(xs: set<Item>) returns (ys: seq<Item>)
    ensures forall y :: y in ys <==> y in xs
  {
    ys := [];
    var rest := xs;
    while rest != {}
      invariant forall y :: y in xs <==> y in ys || y in rest
    {
      var y :| y in rest;
      ys, rest := ys + [y], rest - {y};
    }
  }

  method Arranged(g: Graph) returns (order: map<Item, seq<Item>>)
    ensures order.Keys == g.Keys && forall x, y :: x in g ==> (y in order[x] <==> y in g[x])
  {
    order := map[];
    var rest := g.Keys;
    while rest != {}
      invariant order.Keys + rest == g.Keys && order.Keys !! rest
      invariant forall x, y :: x in order ==> (y in order[x] <==> y in g[x])
    {
      var x :| x in rest;
      var ys := Listed(g[x]);
      order, rest := order[x := ys], rest - {x};
    }
  }

  /** What the loop check tells about a configuration */
  ghost predicate Checked(n: Net, r: Outcome, missed: bool) {
    && (r.NoLoop? || (r.Raised? && IsLoop(n, r.loop)))
    && (r.NoLoop? && !missed <==> LoopFree(n))
    && (missed ==> HasChoices(n))
  }

  lemma SaneLinked(n: Net)
    requires Sane(n.t)
    ensures Linked(n)
  {
    forall c: ChoiceId, s: SymName ensures s in n.Members(c) <==> n.ChoiceOf(s) == Some(c) {
      if s in n.t.syms { assert SaneSym(n.t, s); }
      if c in n.t.choices { assert SaneChoice(n.t, c); }
    }
  }

  lemma CompleteWithin(n: Net, items: seq<Item>)
    requires Sane(n.t) && Complete(n) && forall y :: y in items <==> Defined(n.t, y)
    ensures Within(n, set x | x in items)
  {
    SaneLinked(n);
    forall x | x in items && x.SymItem? && n.ChoiceOf(x.name).Some? ensures ChoiceItem(n.ChoiceOf(x.name).value) in items {
      assert SaneSym(n.t, x.name);
    }
    forall x, s | x in items && x.ChoiceItem? && s in n.Members(x.id) ensures SymItem(s) in items {
      assert SaneChoice(n.t, x.id);
    }
  }

  /** The check of all defined symbols */
  method CheckDepLoops(
      n: Net, items: seq<Item>, syms: seq<SymName>) returns (r: Outcome, ghost fin: seq<Item>, ghost missed: bool)
    requires Sane(n.t) && Complete(n) && (forall y :: y in items <==> Defined(n.t, y)) && forall s :: s in syms <==> s in n.t.syms
    ensures Checked(n, r, missed)
    ensures r.NoLoop? && !missed ==> Leveled(n, k => Since(n, fin, k))
  {
    ghost var nodes := set x | x in items;
    SaneLinked(n);
    CompleteWithin(n, items);
    var check := new LoopCheck(n, nodes);
    r := check.CheckAll(syms);
    fin, missed := check.fin, check.missed;
    PassLevels(n, nodes, syms);
    PassIffLoopFree(n, nodes, syms);
    AllReport(n, nodes, Unmarked, syms);
  }

  method BuildNet(t: Tree, items: seq<Item>) returns (n: Net, g: Graph)
    requires forall y :: y in items <==> Defined(t, y)
    ensures n.t == t && Complete(n) && Built(t, g, items)
  {
    g := BuildDep(t, items);
    var order := Arranged(g);
    n := Net(t, order);
    forall x, y ensures y in n.Dependents(x) <==> Defined(t, y) && x in BuiltDeps(t, y) {
      assert y in DependentsOf(g, x) <==> y in items && Defined(t, y) && x in BuiltDeps(t, y);
    }
  }

  /** From a configuration to a running program. It stops exactly if the check finds a loop. Otherwise it is ready to answer
      every query exactly if there is an order for that, and so in any case if the configuration has grades. */
  method Start(
      t: Tree, items: seq<Item>, syms: seq<SymName>) returns (k: Kconfig?, r: Outcome, ghost n: Net, ghost missed: bool)
    requires Sane(t) && (forall y :: y in items <==> Defined(t, y)) && forall s :: s in syms <==> s in t.syms
    ensures n.t == t && Complete(n) && Checked(n, r, missed)
    ensures k != null <==> r.NoLoop?
    ensures k != null ==> fresh(k) && k.t == t && k.cache == map[] && k.users == Users(map[], map[], map[])
    ensures k != null ==> (k.Valid() <==> exists rank :: Ranked(t, rank))
    ensures (exists level :: Graded(n, level)) ==> k != null && k.Valid()
  {
    var net, g := BuildNet(t, items);
    n := net;
    SaneLinked(n);
    ghost var fin;
    r, fin, missed := CheckDepLoops(net, items, syms);
    GradedOrders(n);
    k := null;
    if r.NoLoop? {
      var dependents := AddChoiceDeps(t, g, items);
      ghost var rank: Query -> nat := if r :| Ranked(t, r) then r else q => 0;
      k := new Kconfig(t, dependents, rank);
    }
  }

  lemma GradedOrders(n: Net)
    requires Sane(n.t) && Linked(n) && Complete(n)
    ensures (exists level :: Graded(n, level)) ==> LoopFree(n) && exists rank :: Ranked(n.t, rank)
  {
    if level :| Graded(n, level) {
      GradedIsLeveled(n, level);
      GradesRank(n, level);
    }
  }

  /** Without choices the check raises an error exactly if there is a loop. */
  lemma ChoiceFreeCheck(n: Net, r: Outcome, missed: bool)
    requires Sane(n.t) && Complete(n) && n.t.choices == map[] && Checked(n, r, missed)
    ensures r.Raised? <==> exists p :: IsLoop(n, p)
    ensures !missed
  {
    assert forall s :: s in n.t.syms ==> SaneSym(n.t, s);
    SaneLinked(n);
    if p :| IsLoop(n, p) {
      if LoopFree(n) {
        ChoiceFreeLoop(n, p);
        NoClosedChain(n, p, |p| - 1, 0);
      }
    }
  }

  lemma ChoiceFreeLoop(n: Net, p: seq<Item>)
    requires Sane(n.t) && Complete(n) && n.t.choices == map[] && IsLoop(n, p)
    ensures forall x :: x in p ==> Defined(n.t, x) && x.SymItem?
    ensures p[|p| - 1] in n.Dependents(p[0])
  {
    assert forall s :: s in n.t.syms ==> SaneSym(n.t, s);
    forall i | 0 <= i < |p| ensures Defined(n.t, p[i]) && p[i].SymItem? {
      if i < |p| - 1 { assert Edge(n, p[i + 1], p[i]); } else { assert Edge(n, p[0], p[i]); }
    }
  }
}
