/** Configurations that the loop check lets pass, although their evaluation does not end. */
module KconfigMissed {
  import opened Wrappers
  import opened KconfigTree
  import opened KconfigEval
  import opened KconfigCache
  import opened KconfigDeps
  import opened KconfigLoops
  import opened KconfigOrder

  /** A bool with one prompt, whose condition is also its direct dependency */
  function Plain(prompt: Expr, choice: Option<ChoiceId>): SymDef {
    SymDef(Bool, [prompt], [], [], N, N, prompt, choice, false)
  }

  function OneChoice(prompt: Expr, syms: seq<SymName>): map<ChoiceId, ChoiceDef> {
    map[0 := ChoiceDef(Bool, false, [prompt], [], syms)]
  }

  predicate Differ(a: SymName, b: SymName, c: SymName, d: SymName) {
    a != b && a != c && a != d && b != c && b != d && c != d
  }

  /** A choice with the symbols `a`, `b` and `c`, where `b` depends on `d` and `d` on `c` */
  function Crossed(num: Numerals, a: SymName, b: SymName, c: SymName, d: SymName): Net {
    var syms := map[
      a := Plain(Mode(0), Some(0)),
      b := Plain(And(Ref(Sym(d)), Mode(0)), Some(0)),
      c := Plain(Mode(0), Some(0)),
      d := Plain(Ref(Sym(c)), None)];
    Net(Tree(syms, OneChoice(Y, [a, b, c]), num),
        map[ChoiceItem(0) := [SymItem(a), SymItem(b), SymItem(c)],
            SymItem(c) := [SymItem(d)],
            SymItem(d) := [SymItem(b)]])
  }

  /** A choice with the symbol `a` that is shown if `d` is set, where `d` is in a menu of the choice */
  function Inverted(num: Numerals, a: SymName, d: SymName): Net {
    var syms := map[a := Plain(Mode(0), Some(0)), d := Plain(Mode(0), None)];
    Net(Tree(syms, OneChoice(Ref(Sym(d)), [a]), num),
        map[ChoiceItem(0) := [SymItem(a), SymItem(d)], SymItem(d) := [ChoiceItem(0)]])
  }

  lemma PlainDeps(t: Tree, s: SymName, prompt: Expr, choice: Option<ChoiceId>)
    requires s in t.syms && t.syms[s] == Plain(prompt, choice)
    ensures BuiltDeps(t, SymItem(s)) == ExprItems(prompt) == PromptItems(t.syms[s].prompts)
  {
    assert PromptItems([prompt]) == ExprItems(prompt) + PromptItems([prompt][1..]);
    assert ExprItems(N) == {} && ExprItems(Y) == {};
  }

  lemma ChoiceDeps(t: Tree, prompt: Expr, syms: seq<SymName>)
    requires t.choices == OneChoice(prompt, syms)
    ensures BuiltDeps(t, ChoiceItem(0)) == ExprItems(prompt) == PromptItems(t.choices[0].prompts)
  {
    assert PromptItems([prompt]) == ExprItems(prompt) + PromptItems([prompt][1..]);
  }

  lemma PlainSane(t: Tree, s: SymName, prompt: Expr, choice: Option<ChoiceId>)
    requires s in t.syms && t.syms[s] == Plain(prompt, choice)
    requires choice.Some? ==>
               choice.value in t.choices && s in t.choices[choice.value].syms && ChoiceItem(choice.value) in ExprItems(prompt)
    ensures SaneSym(t, s)
  {
  }

  lemma CrossedDeps(num: Numerals, a: SymName, b: SymName, c: SymName, d: SymName)
    requires Differ(a, b, c, d)
    ensures var t := Crossed(num, a, b, c, d).t;
            && BuiltDeps(t, SymItem(a)) == {ChoiceItem(0)} && BuiltDeps(t, SymItem(b)) == {ChoiceItem(0), SymItem(d)}
            && BuiltDeps(t, SymItem(c)) == {ChoiceItem(0)} && BuiltDeps(t, SymItem(d)) == {SymItem(c)}
            && BuiltDeps(t, ChoiceItem(0)) == {}
  {
    var t := Crossed(num, a, b, c, d).t;
    PlainDeps(t, a, Mode(0), Some(0));
    PlainDeps(t, b, And(Ref(Sym(d)), Mode(0)), Some(0));
    PlainDeps(t, c, Mode(0), Some(0));
    PlainDeps(t, d, Ref(Sym(c)), None);
    ChoiceDeps(t, Y, [a, b, c]);
  }

  lemma CrossedComplete(num: Numerals, a: SymName, b: SymName, c: SymName, d: SymName)
    requires Differ(a, b, c, d)
    ensures Complete(Crossed(num, a, b, c, d))
  {
    var n := Crossed(num, a, b, c, d);
    forall x, y ensures y in n.Dependents(x) <==> Defined(n.t, y) && x in BuiltDeps(n.t, y) {
      CrossedListed(num, a, b, c, d, x, y);
    }
  }

  lemma CrossedListed(num: Numerals, a: SymName, b: SymName, c: SymName, d: SymName, x: Item, y: Item)
    requires Differ(a, b, c, d)
    ensures var n := Crossed(num, a, b, c, d); y in n.Dependents(x) <==> Defined(n.t, y) && x in BuiltDeps(n.t, y)
  {
    var n := Crossed(num, a, b, c, d);
    CrossedDeps(num, a, b, c, d);
    CrossedDependents(num, a, b, c, d, x);
    assert Defined(n.t, y) <==> y in {SymItem(a), SymItem(b), SymItem(c), SymItem(d), ChoiceItem(0)};
  }

  lemma CrossedDependents(num: Numerals, a: SymName, b: SymName, c: SymName, d: SymName, x: Item)
    requires Differ(a, b, c, d)
    ensures Crossed(num, a, b, c, d).Dependents(x) ==
      if x == ChoiceItem(0) then [SymItem(a), SymItem(b), SymItem(c)]
      else if x == SymItem(c) then [SymItem(d)]
      else if x == SymItem(d) then [SymItem(b)]
      else []
  {
  }

  lemma CrossedSane(num: Numerals, a: SymName, b: SymName, c: SymName, d: SymName)
    requires Differ(a, b, c, d)
    ensures Sane(Crossed(num, a, b, c, d).t)
  {
    var t := Crossed(num, a, b, c, d).t;
    PlainSane(t, a, Mode(0), Some(0));
    PlainSane(t, b, And(Ref(Sym(d)), Mode(0)), Some(0));
    PlainSane(t, c, Mode(0), Some(0));
    PlainSane(t, d, Ref(Sym(c)), None);
    assert SaneChoice(t, 0);
    forall s | s in t.syms ensures SaneSym(t, s) { assert s in {a, b, c, d}; }
  }

  ghost predicate CrossedShape(n: Net, a: SymName, b: SymName, c: SymName, d: SymName) {
    && n.Dependents(SymItem(a)) == [] && n.Dependents(SymItem(b)) == []
    && n.Dependents(SymItem(c)) == [SymItem(d)] && n.Dependents(SymItem(d)) == [SymItem(b)]
    && n.ChoiceOf(a) == n.ChoiceOf(b) == n.ChoiceOf(c) == Some(0) && n.ChoiceOf(d) == None
    && n.Members(0) == [a, b, c]
  }

  lemma CrossedWithin(num: Numerals, a: SymName, b: SymName, c: SymName, d: SymName)
    requires Differ(a, b, c, d)
    ensures var n := Crossed(num, a, b, c, d);
            CrossedShape(n, a, b, c, d) && Within(n, {SymItem(a), SymItem(b), SymItem(c), SymItem(d), ChoiceItem(0)})
  {
  }

  lemma OneDep(n: Net, nodes: set<Item>, st: Marks, y: Item, st': Marks)
    requires Within(n, nodes) && y in nodes && st.visited.Keys <= nodes && SearchDep(n, nodes, st, y) == (NoLoop, st')
    ensures SearchDeps(n, nodes, st, [y]) == (NoLoop, st')
  {
    assert [y][1..] == [];
  }

  /** A search of a symbol without the detour through its choice */
  lemma SymPassed(n: Net, nodes: set<Item>, st: Marks, s: SymName, ignoreChoice: bool, st': Marks)
    requires Within(n, nodes) && SymItem(s) in nodes && st.visited.Keys <= nodes && SymItem(s) !in st.visited
    requires SearchDeps(n, nodes, Begin(st, SymItem(s)), n.Dependents(SymItem(s))) == (NoLoop, st')
    requires n.ChoiceOf(s).None? || ignoreChoice
    ensures SearchSym(n, nodes, st, s, ignoreChoice) == (NoLoop, Finish(st', SymItem(s)))
  {
    assert SearchBelow(n, nodes, Begin(st, SymItem(s)), s, ignoreChoice) == (NoLoop, st');
  }

  /** The search of `d` meets the finished symbol `b` of the choice that is being searched, and turns back. */
  lemma CrossedTurn(n: Net, nodes: set<Item>, st: Marks, a: SymName, b: SymName, c: SymName, d: SymName)
    requires Differ(a, b, c, d) && CrossedShape(n, a, b, c, d)
    requires Within(n, nodes) && SymItem(d) in nodes && st.visited.Keys <= nodes
    requires SymItem(d) !in st.visited && st.Done(SymItem(b)) && st.Open(ChoiceItem(0))
    ensures var (r, st') := SearchSym(n, nodes, st, d, false); r.NoLoop? && st'.missed && st'.Done(SymItem(d))
  {
    var st1 := Begin(st, SymItem(d));
    assert st1.Done(SymItem(b)) && ChoiceOpen(n, st1, b);
    OneDep(n, nodes, st1, SymItem(b), st1.(missed := true));
    SymPassed(n, nodes, st, d, false, st1.(missed := true));
  }

  lemma CrossedSecond(n: Net, nodes: set<Item>, st: Marks, a: SymName, b: SymName, c: SymName, d: SymName)
    requires Differ(a, b, c, d) && CrossedShape(n, a, b, c, d)
    requires Within(n, nodes) && SymItem(c) in nodes && SymItem(d) in nodes && st.visited.Keys <= nodes
    requires SymItem(c) !in st.visited && SymItem(d) !in st.visited && st.Done(SymItem(b)) && st.Open(ChoiceItem(0))
    ensures var (r, st') := SearchSym(n, nodes, st, c, true);
            r.NoLoop? && st'.missed && st'.Done(SymItem(c)) && st'.Done(SymItem(d))
  {
    var st1 := Begin(st, SymItem(c));
    CrossedTurn(n, nodes, st1, a, b, c, d);
    var st2 := SearchSym(n, nodes, st1, d, false).1;
    OneDep(n, nodes, st1, SymItem(d), st2);
    SymPassed(n, nodes, st, c, true, st2);
  }

  lemma CrossedLeaf(n: Net, nodes: set<Item>, st: Marks, s: SymName)
    requires Within(n, nodes) && SymItem(s) in nodes && st.visited.Keys <= nodes && SymItem(s) !in st.visited
    requires n.Dependents(SymItem(s)) == []
    ensures SearchSym(n, nodes, st, s, true) == (NoLoop, Finish(Begin(st, SymItem(s)), SymItem(s)))
  {
    SymPassed(n, nodes, st, s, true, Begin(st, SymItem(s)));
  }

  lemma OneMember(n: Net, nodes: set<Item>, st: Marks, ss: seq<SymName>, skip: Option<SymName>, st': Marks)
    requires Within(n, nodes) && (forall s :: s in ss ==> SymItem(s) in nodes) && st.visited.Keys <= nodes
    requires ss != [] && Some(ss[0]) != skip && SearchSym(n, nodes, st, ss[0], true) == (NoLoop, st')
    ensures SearchMembers(n, nodes, st, ss, skip) == SearchMembers(n, nodes, st', ss[1..], skip)
  {
  }

  lemma CrossedMembers(n: Net, nodes: set<Item>, st: Marks, a: SymName, b: SymName, c: SymName, d: SymName)
    requires Differ(a, b, c, d) && CrossedShape(n, a, b, c, d)
    requires Within(n, nodes) && SymItem(b) in nodes && SymItem(c) in nodes
    requires SymItem(d) in nodes && st.visited.Keys <= nodes
    requires st.visited.Keys == {SymItem(a), ChoiceItem(0)} && st.Open(ChoiceItem(0))
    ensures var (r, st') := SearchMembers(n, nodes, st, [a, b, c], Some(a));
            r.NoLoop? && st'.missed && st'.Done(SymItem(b)) && st'.Done(SymItem(c)) && st'.Done(SymItem(d))
  {
    assert [a, b, c][1..] == [b, c];
    CrossedTwoMembers(n, nodes, st, a, b, c, d);
  }

  lemma CrossedTwoMembers(n: Net, nodes: set<Item>, st: Marks, a: SymName, b: SymName, c: SymName, d: SymName)
    requires Differ(a, b, c, d) && CrossedShape(n, a, b, c, d)
    requires Within(n, nodes) && SymItem(b) in nodes && SymItem(c) in nodes
    requires SymItem(d) in nodes && st.visited.Keys <= nodes
    requires st.visited.Keys == {SymItem(a), ChoiceItem(0)} && st.Open(ChoiceItem(0))
    ensures var (r, st') := SearchMembers(n, nodes, st, [b, c], Some(a));
            r.NoLoop? && st'.missed && st'.Done(SymItem(b)) && st'.Done(SymItem(c)) && st'.Done(SymItem(d))
  {
    assert [b, c][1..] == [c] && [c][1..] == [];
    var st1 := Finish(Begin(st, SymItem(b)), SymItem(b));
    CrossedLeaf(n, nodes, st, b);
    CrossedSecond(n, nodes, st1, a, b, c, d);
    OneMember(n, nodes, st1, [c], Some(a), SearchSym(n, nodes, st1, c, true).1);
    OneMember(n, nodes, st, [b, c], Some(a), st1);
  }

  lemma CrossedFirst(n: Net, nodes: set<Item>, a: SymName, b: SymName, c: SymName, d: SymName)
    requires Differ(a, b, c, d) && CrossedShape(n, a, b, c, d)
    requires Within(n, nodes) && nodes == {SymItem(a), SymItem(b), SymItem(c), SymItem(d), ChoiceItem(0)}
    ensures var (r, st') := SearchSym(n, nodes, Unmarked, a, false);
            r.NoLoop? && st'.missed && forall s :: s in [a, b, c, d] ==> st'.Done(SymItem(s))
  {
    var st1 := Begin(Unmarked, SymItem(a));
    assert n.Dependents(SymItem(a)) == [];
    assert SearchDeps(n, nodes, st1, []) == (NoLoop, st1);
    var st2 := Begin(st1, ChoiceItem(0));
    CrossedMembers(n, nodes, st2, a, b, c, d);
    var (_, st3) := SearchMembers(n, nodes, st2, [a, b, c], Some(a));
    assert n.Members(0) == [a, b, c];
    var st4 := Finish(st3, ChoiceItem(0));
    assert SearchChoice(n, nodes, st1, 0, Some(a)) == (NoLoop, st4);
    assert SearchBelow(n, nodes, st1, a, false) == (NoLoop, st4);
    assert SearchSym(n, nodes, Unmarked, a, false) == (NoLoop, Finish(st4, SymItem(a)));
  }

  lemma {:induction false} AllDone(n: Net, nodes: set<Item>, st: Marks, ss: seq<SymName>)
    requires Within(n, nodes) && (forall s :: s in ss ==> SymItem(s) in nodes) && st.visited.Keys <= nodes
    requires st.missed && forall s :: s in ss ==> st.Done(SymItem(s))
    ensures SearchAll(n, nodes, st, ss).0.NoLoop?
    decreases |ss|
  {
    if ss != [] {
      assert SearchSym(n, nodes, st, ss[0], false) == (NoLoop, st);
      AllDone(n, nodes, st, ss[1..]);
    }
  }

  lemma CrossedPasses(n: Net, nodes: set<Item>, a: SymName, b: SymName, c: SymName, d: SymName)
    requires Differ(a, b, c, d) && CrossedShape(n, a, b, c, d)
    requires Within(n, nodes) && nodes == {SymItem(a), SymItem(b), SymItem(c), SymItem(d), ChoiceItem(0)}
    ensures SearchAll(n, nodes, Unmarked, [a, b, c, d]).0.NoLoop?
  {
    CrossedFirst(n, nodes, a, b, c, d);
    var (r, st) := SearchSym(n, nodes, Unmarked, a, false);
    assert [a, b, c, d][1..] == [b, c, d];
    AllDone(n, nodes, st, [b, c, d]);
  }

  // ----- Its evaluation -----

  /** What the tree says about the items of the crossed choice */
  ghost predicate CrossedTree(t: Tree, a: SymName, b: SymName, c: SymName, d: SymName) {
    && t.choices.Keys == {0} && t.choices[0] == ChoiceDef(Bool, false, [Y], [], [a, b, c])
    && t.syms.Keys == {a, b, c, d}
    && t.syms[a] == Plain(Mode(0), Some(0))
    && t.syms[b] == Plain(And(Ref(Sym(d)), Mode(0)), Some(0))
    && t.syms[c] == Plain(Mode(0), Some(0))
    && t.syms[d] == Plain(Ref(Sym(c)), None)
  }

  lemma CrossedIs(num: Numerals, a: SymName, b: SymName, c: SymName, d: SymName)
    requires Differ(a, b, c, d)
    ensures CrossedTree(Crossed(num, a, b, c, d).t, a, b, c, d)
  {
  }

  lemma OnePrompt(t: Tree, u: Users, m: Answers, prompt: Expr)
    ensures MaxPrompt(t, u, m, [prompt]) == ExprVal(t, u, m, prompt)
  {
    assert [prompt][1..] == [];
  }

  /** What is recorded as y */
  predicate IsYes(m: Answers, q: Query) { q in m && m[q].TriV? && m[q].tri == 2 }

  lemma ModeIsYes(t: Tree, u: Users, m: Answers)
    requires 0 in t.choices && t.choices[0].kind == Bool && !t.choices[0].optional
    ensures IsYes(m, Vis(ChoiceItem(0))) ==> ExprVal(t, u, m, Mode(0)) == Some(2)
    ensures Vis(ChoiceItem(0)) !in m ==> ExprVal(t, u, m, Mode(0)) == None
  {
  }

  /** None of the answers of the loop is recorded, and the choice and `c` are shown. */
  ghost predicate Stuck(m: Answers, b: SymName, c: SymName, d: SymName) {
    && Vis(SymItem(b)) !in m && TriVal(d) !in m && Vis(SymItem(d)) !in m && TriVal(c) !in m && Sel(0) !in m
    && (Vis(ChoiceItem(0)) in m ==> IsYes(m, Vis(ChoiceItem(0))))
    && (Vis(SymItem(c)) in m ==> IsYes(m, Vis(SymItem(c))))
  }

  lemma StuckVisibilities(t: Tree, u: Users, m: Answers, a: SymName, b: SymName, c: SymName, d: SymName)
    requires Differ(a, b, c, d) && CrossedTree(t, a, b, c, d) && Stuck(m, b, c, d)
    ensures Answer(t, u, m, Vis(SymItem(b))) == None && Answer(t, u, m, Vis(SymItem(d))) == None
  {
    OnePrompt(t, u, m, And(Ref(Sym(d)), Mode(0)));
    OnePrompt(t, u, m, Ref(Sym(c)));
    ModeIsYes(t, u, m);
  }

  lemma StuckValues(t: Tree, u: Users, m: Answers, a: SymName, b: SymName, c: SymName, d: SymName)
    requires Differ(a, b, c, d) && CrossedTree(t, a, b, c, d) && Stuck(m, b, c, d) && 0 in u.sel && u.sel[0] == b
    ensures Answer(t, u, m, TriVal(c)) == None && Answer(t, u, m, TriVal(d)) == None && Answer(t, u, m, Sel(0)) == None
  {
    ModeIsYes(t, u, m);
  }

  lemma ShownAnswers(t: Tree, u: Users, m: Answers, a: SymName, b: SymName, c: SymName, d: SymName, s: SymName)
    requires Differ(a, b, c, d) && CrossedTree(t, a, b, c, d) && s in {a, c}
    ensures Answer(t, u, m, Vis(ChoiceItem(0))) == Some(TriV(2, false))
    ensures Vis(ChoiceItem(0)) !in m ==> Answer(t, u, m, Vis(SymItem(s))) == None
    ensures IsYes(m, Vis(ChoiceItem(0))) ==> Answer(t, u, m, Vis(SymItem(s))) == Some(TriV(2, false))
  {
    OnePrompt(t, u, m, Y);
    OnePrompt(t, u, m, Mode(0));
    ModeIsYes(t, u, m);
    assert "y" != "n" && ConstTri("y") == 2;
  }

  lemma StuckStep(t: Tree, u: Users, m: Answers, q: Query, a: SymName, b: SymName, c: SymName, d: SymName)
    requires Differ(a, b, c, d) && CrossedTree(t, a, b, c, d) && 0 in u.sel && u.sel[0] == b
    requires Stuck(m, b, c, d) && q !in m && Answer(t, u, m, q).Some?
    ensures Stuck(m[q := Answer(t, u, m, q).value], b, c, d)
  {
    StuckVisibilities(t, u, m, a, b, c, d);
    StuckValues(t, u, m, a, b, c, d);
    ShownAnswers(t, u, m, a, b, c, d, c);
  }

  /** If the user has selected `b`, no evaluation ever gets to its visibility, or to the value of `d`. */
  lemma SelectedStuck(t: Tree, u: Users, a: SymName, b: SymName, c: SymName, d: SymName)
    requires Differ(a, b, c, d) && CrossedTree(t, a, b, c, d) && 0 in u.sel && u.sel[0] == b
    ensures !Answerable(t, u, Vis(SymItem(b))) && !Answerable(t, u, TriVal(d))
  {
    forall m | Reached(t, u, m) ensures Vis(SymItem(b)) !in m && TriVal(d) !in m {
      var ms :| Evaluation(t, u, ms) && ms[|ms| - 1] == m;
      forall m1, q | Stuck(m1, b, c, d) && q !in m1 && Answer(t, u, m1, q).Some?
        ensures Stuck(m1[q := Answer(t, u, m1, q).value], b, c, d)
      {
        StuckStep(t, u, m1, q, a, b, c, d);
      }
      ReachedKeeps(t, u, m1 => Stuck(m1, b, c, d), ms);
    }
  }

  lemma Next(t: Tree, u: Users, m: Answers, q: Query) returns (m': Answers)
    requires Reached(t, u, m) && q !in m && Answer(t, u, m, q).Some?
    ensures Reached(t, u, m') && m'.Keys == m.Keys + {q} && m' == m[q := m'[q]] && WellTyped(q, m'[q])
    ensures Answer(t, u, m, q) == Some(m'[q])
  {
    ReachedNext(t, u, m, q);
    m' := m[q := Answer(t, u, m, q).value];
  }

  lemma ChoiceAnswered(t: Tree, u: Users, a: SymName, b: SymName, c: SymName, d: SymName) returns (m: Answers)
    requires Differ(a, b, c, d) && CrossedTree(t, a, b, c, d)
    ensures Reached(t, u, m) && m.Keys == {Vis(ChoiceItem(0))} && IsYes(m, Vis(ChoiceItem(0)))
  {
    ReachedStart(t, u);
    ShownAnswers(t, u, map[], a, b, c, d, a);
    m := Next(t, u, map[], Vis(ChoiceItem(0)));
  }

  lemma ShownAnswered(t: Tree, u: Users, a: SymName, b: SymName, c: SymName, d: SymName) returns (m: Answers)
    requires Differ(a, b, c, d) && CrossedTree(t, a, b, c, d)
    ensures Reached(t, u, m) && m.Keys == {Vis(ChoiceItem(0)), Vis(SymItem(a)), Vis(SymItem(c))}
    ensures IsYes(m, Vis(ChoiceItem(0))) && IsYes(m, Vis(SymItem(a))) && IsYes(m, Vis(SymItem(c)))
  {
    m := ChoiceAnswered(t, u, a, b, c, d);
    ShownAnswers(t, u, m, a, b, c, d, a);
    m := Next(t, u, m, Vis(SymItem(a)));
    ShownAnswers(t, u, m, a, b, c, d, c);
    m := Next(t, u, m, Vis(SymItem(c)));
  }

  /** Another selection is answered without `b`: the first symbol that is shown, or the one selected. */
  lemma SelectionAnswered(t: Tree, u: Users, a: SymName, b: SymName, c: SymName, d: SymName) returns (m: Answers)
    requires Differ(a, b, c, d) && CrossedTree(t, a, b, c, d) && ValidUsers(t, u) && !(0 in u.sel && u.sel[0] == b)
    ensures Reached(t, u, m) && Sel(0) in m && m[Sel(0)].SelV?
    ensures IsYes(m, Vis(ChoiceItem(0))) && IsYes(m, Vis(SymItem(c)))
    ensures m.Keys == {Vis(ChoiceItem(0)), Vis(SymItem(a)), Vis(SymItem(c)), Sel(0)}
  {
    m := ShownAnswered(t, u, a, b, c, d);
    SelectionAnswers(t, u, m, a, b, c, d);
    m := Next(t, u, m, Sel(0));
  }

  lemma SelectionAnswers(t: Tree, u: Users, m: Answers, a: SymName, b: SymName, c: SymName, d: SymName)
    requires Differ(a, b, c, d) && CrossedTree(t, a, b, c, d) && ValidUsers(t, u) && !(0 in u.sel && u.sel[0] == b)
    requires IsYes(m, Vis(ChoiceItem(0))) && IsYes(m, Vis(SymItem(a))) && IsYes(m, Vis(SymItem(c)))
    ensures Answer(t, u, m, Sel(0)).Some?
  {
    ModeIsYes(t, u, m);
  }

  lemma ChoiceSymAnswers(t: Tree, u: Users, m: Answers, a: SymName, b: SymName, c: SymName, d: SymName)
    requires Differ(a, b, c, d) && CrossedTree(t, a, b, c, d)
    requires IsYes(m, Vis(SymItem(c))) && Sel(0) in m && m[Sel(0)].SelV?
    ensures Answer(t, u, m, TriVal(c)).Some?
  {
  }

  lemma PlainAnswers(t: Tree, u: Users, m: Answers, a: SymName, b: SymName, c: SymName, d: SymName)
    requires Differ(a, b, c, d) && CrossedTree(t, a, b, c, d)
    ensures TriVal(c) in m && m[TriVal(c)].TriV? ==> Answer(t, u, m, Vis(SymItem(d))).Some?
    ensures Vis(SymItem(d)) in m && m[Vis(SymItem(d))].TriV? ==> Answer(t, u, m, TriVal(d)).Some?
  {
    OnePrompt(t, u, m, Ref(Sym(c)));
  }

  lemma LastAnswers(t: Tree, u: Users, m: Answers, a: SymName, b: SymName, c: SymName, d: SymName)
    requires Differ(a, b, c, d) && CrossedTree(t, a, b, c, d)
    requires IsYes(m, Vis(ChoiceItem(0))) && TriVal(d) in m && m[TriVal(d)].TriV?
    ensures Answer(t, u, m, Vis(SymItem(b))).Some?
  {
    OnePrompt(t, u, m, And(Ref(Sym(d)), Mode(0)));
    ModeIsYes(t, u, m);
  }

  lemma ValueAnswered(t: Tree, u: Users, a: SymName, b: SymName, c: SymName, d: SymName) returns (m: Answers)
    requires Differ(a, b, c, d) && CrossedTree(t, a, b, c, d) && ValidUsers(t, u) && !(0 in u.sel && u.sel[0] == b)
    ensures Reached(t, u, m) && TriVal(c) in m && m[TriVal(c)].TriV? && IsYes(m, Vis(ChoiceItem(0)))
    ensures m.Keys == {Vis(ChoiceItem(0)), Vis(SymItem(a)), Vis(SymItem(c)), Sel(0), TriVal(c)}
  {
    m := SelectionAnswered(t, u, a, b, c, d);
    ChoiceSymAnswers(t, u, m, a, b, c, d);
    m := Next(t, u, m, TriVal(c));
  }

  lemma DependentShown(t: Tree, u: Users, a: SymName, b: SymName, c: SymName, d: SymName) returns (m: Answers)
    requires Differ(a, b, c, d) && CrossedTree(t, a, b, c, d) && ValidUsers(t, u) && !(0 in u.sel && u.sel[0] == b)
    ensures Reached(t, u, m) && Vis(SymItem(d)) in m && m[Vis(SymItem(d))].TriV? && IsYes(m, Vis(ChoiceItem(0)))
    ensures Vis(SymItem(b)) !in m && TriVal(d) !in m
  {
    m := ValueAnswered(t, u, a, b, c, d);
    PlainAnswers(t, u, m, a, b, c, d);
    m := Next(t, u, m, Vis(SymItem(d)));
  }

  lemma DependentAnswered(t: Tree, u: Users, a: SymName, b: SymName, c: SymName, d: SymName) returns (m: Answers)
    requires Differ(a, b, c, d) && CrossedTree(t, a, b, c, d) && ValidUsers(t, u) && !(0 in u.sel && u.sel[0] == b)
    ensures Reached(t, u, m) && TriVal(d) in m && m[TriVal(d)].TriV?
    ensures IsYes(m, Vis(ChoiceItem(0))) && Vis(SymItem(b)) !in m
  {
    m := DependentShown(t, u, a, b, c, d);
    PlainAnswers(t, u, m, a, b, c, d);
    m := Next(t, u, m, TriVal(d));
  }

  lemma OthersAnswered(t: Tree, u: Users, a: SymName, b: SymName, c: SymName, d: SymName)
    requires Differ(a, b, c, d) && CrossedTree(t, a, b, c, d) && ValidUsers(t, u) && !(0 in u.sel && u.sel[0] == b)
    ensures Answerable(t, u, TriVal(d)) && Answerable(t, u, Vis(SymItem(b)))
  {
    var m := DependentAnswered(t, u, a, b, c, d);
    LastAnswers(t, u, m, a, b, c, d);
    m := Next(t, u, m, Vis(SymItem(b)));
  }

  /** The check passes, although there is a loop: the visibility of `b` depends on `d`, `d` on `c`, and the value of `c` on
      the selection, for which the program may have to look at `b`. It has to exactly if the user has selected `b`: then no
      evaluation gets to the value of `d`. */
  lemma LoopMissed(num: Numerals, a: SymName, b: SymName, c: SymName, d: SymName)
    requires Differ(a, b, c, d)
    ensures var n := Crossed(num, a, b, c, d);
            var nodes := {SymItem(a), SymItem(b), SymItem(c), SymItem(d), ChoiceItem(0)};
            && Sane(n.t) && Complete(n) && Within(n, nodes)
            && SearchAll(n, nodes, Unmarked, [a, b, c, d]).0.NoLoop?
    ensures var t := Crossed(num, a, b, c, d).t;
            forall u :: ValidUsers(t, u) ==> (Answerable(t, u, TriVal(d)) <==> !(0 in u.sel && u.sel[0] == b))
  {
    var t := Crossed(num, a, b, c, d).t;
    CrossedSane(num, a, b, c, d);
    CrossedComplete(num, a, b, c, d);
    CrossedWithin(num, a, b, c, d);
    CrossedPasses(Crossed(num, a, b, c, d), {SymItem(a), SymItem(b), SymItem(c), SymItem(d), ChoiceItem(0)}, a, b, c, d);
    CrossedIs(num, a, b, c, d);
    forall u | ValidUsers(t, u) ensures Answerable(t, u, TriVal(d)) <==> !(0 in u.sel && u.sel[0] == b) {
      if 0 in u.sel && u.sel[0] == b { SelectedStuck(t, u, a, b, c, d); } else { OthersAnswered(t, u, a, b, c, d); }
    }
  }

  lemma InvertedDeps(num: Numerals, a: SymName, d: SymName)
    requires a != d
    ensures var t := Inverted(num, a, d).t;
            && BuiltDeps(t, SymItem(a)) == {ChoiceItem(0)} && BuiltDeps(t, SymItem(d)) == {ChoiceItem(0)}
            && BuiltDeps(t, ChoiceItem(0)) == {SymItem(d)}
  {
    var t := Inverted(num, a, d).t;
    PlainDeps(t, a, Mode(0), Some(0));
    PlainDeps(t, d, Mode(0), None);
    ChoiceDeps(t, Ref(Sym(d)), [a]);
  }

  lemma InvertedSane(num: Numerals, a: SymName, d: SymName)
    requires a != d
    ensures var n := Inverted(num, a, d); Sane(n.t) && Complete(n)
  {
    var n := Inverted(num, a, d);
    InvertedDeps(num, a, d);
    forall x, y ensures y in n.Dependents(x) <==> Defined(n.t, y) && x in BuiltDeps(n.t, y) {}
    assert SaneSym(n.t, a) && SaneSym(n.t, d) && SaneChoice(n.t, 0);
  }

  /** The level of the symbol that the choice depends on is below that of the choice: the search finds nothing. */
  lemma InvertedLoopFree(num: Numerals, a: SymName, d: SymName)
    requires a != d
    ensures LoopFree(Inverted(num, a, d))
  {
    assert Leveled(Inverted(num, a, d), x => if x == SymItem(d) then 0 else 1);
  }

  ghost predicate InvertedStuck(m: Answers, d: SymName) {
    Vis(ChoiceItem(0)) !in m && Vis(SymItem(d)) !in m && TriVal(d) !in m
  }

  lemma InvertedStep(num: Numerals, a: SymName, d: SymName, u: Users, m: Answers, q: Query)
    requires a != d && InvertedStuck(m, d) && q in {Vis(ChoiceItem(0)), Vis(SymItem(d)), TriVal(d)}
    ensures Answer(Inverted(num, a, d).t, u, m, q) == None
  {
    var t := Inverted(num, a, d).t;
    assert t.syms[d] == Plain(Mode(0), None) && t.choices[0] == ChoiceDef(Bool, false, [Ref(Sym(d))], [], [a]);
    OnePrompt(t, u, m, Mode(0));
    OnePrompt(t, u, m, Ref(Sym(d)));
    ModeIsYes(t, u, m);
  }

  lemma InvertedNever(num: Numerals, a: SymName, d: SymName, u: Users, q: Query)
    requires a != d && q in {Vis(ChoiceItem(0)), Vis(SymItem(d)), TriVal(d)}
    ensures !Answerable(Inverted(num, a, d).t, u, q)
  {
    var t := Inverted(num, a, d).t;
    forall m | Reached(t, u, m) ensures q !in m {
      var ms :| Evaluation(t, u, ms) && ms[|ms| - 1] == m;
      forall m1, p | InvertedStuck(m1, d) && p !in m1 && Answer(t, u, m1, p).Some?
        ensures InvertedStuck(m1[p := Answer(t, u, m1, p).value], d)
      {
        if p in {Vis(ChoiceItem(0)), Vis(SymItem(d)), TriVal(d)} { InvertedStep(num, a, d, u, m1, p); }
      }
      ReachedKeeps(t, u, m1 => InvertedStuck(m1, d), ms);
    }
  }

  /** The check passes and misses nothing it looks for, but it does not look at what depends on a choice itself. Whatever
      the user values, the recursive evaluation of the choice, and of `d`, does not end. */
  lemma DependentsOfChoiceMissed(num: Numerals, a: SymName, d: SymName, nodes: set<Item>)
    requires a != d && nodes == {SymItem(a), SymItem(d), ChoiceItem(0)}
    ensures var n := Inverted(num, a, d);
            && Sane(n.t) && Complete(n) && Within(n, nodes)
            && var (r, st) := SearchAll(n, nodes, Unmarked, [a, d]); r.NoLoop? && !st.missed
    ensures forall u, q :: q in {Vis(ChoiceItem(0)), Vis(SymItem(d)), TriVal(d)} ==>
              !Answerable(Inverted(num, a, d).t, u, q)
  {
    var n := Inverted(num, a, d);
    InvertedSane(num, a, d);
    SaneLinked(n);
    InvertedLoopFree(num, a, d);
    PassIffLoopFree(n, nodes, [a, d]);
    forall u, q | q in {Vis(ChoiceItem(0)), Vis(SymItem(d)), TriVal(d)} ensures !Answerable(n.t, u, q) {
      InvertedNever(num, a, d, u, q);
    }
  }
}
