/** Writing a configuration to a .config file and loading it back, with modules off. */
module KconfigReload {
  import opened Wrappers
  import opened KconfigTree
  import opened KconfigEval
  import opened KconfigCache
  import opened ConfigText

  // ----- All values at once -----

  ghost predicate Setting(t: Tree, rank: Query -> nat, u: Users) { Sane(t) && Ranked(t, rank) && ValidUsers(t, u) }

  ghost function Values(t: Tree, rank: Query -> nat, u: Users): (m: Answers)
    requires Setting(t, rank, u)
    ensures forall q :: Varies(t, q) <==> q in m
  {
    QueriesListed(t);
    map q | q in AllQueries(t) :: Eval(t, rank, u, q)
  }

  lemma EvalInert(t: Tree, rank: Query -> nat, u: Users, s: SymName)
    requires Setting(t, rank, u) && s in t.syms && Inert(t.syms[s])
    ensures Eval(t, rank, u, Vis(SymItem(s))) == TriV(0, false)
  {
    var q := Vis(SymItem(s));
    var below := map p | p in Reads(t, q) :: Eval(t, rank, u, p);
    InertPrompts(t, u, below, t.syms[s].prompts);
    assert Answer(t, u, below, q) == Some(TriV(0, false));
  }

  lemma ValuesConsistent(t: Tree, rank: Query -> nat, u: Users)
    requires Setting(t, rank, u)
    ensures Consistent(t, u, Values(t, rank, u))
  {
    var m := Values(t, rank, u);
    forall q | q in m ensures Answer(t, u, m, q) == Some(m[q]) {
      var below := map p | p in Reads(t, q) :: Eval(t, rank, u, p);
      AnswerTotal(t, u, below, q);
      assert Answer(t, u, below, q) == Some(Eval(t, rank, u, q));
      if ItemOf(q).SymItem? && Inert(t.syms[ItemOf(q).name]) { EvalInert(t, rank, u, ItemOf(q).name); }
      AnswerKept(t, u, u, below, m, q);
    }
  }

  /** Values that are consistent with other user values are the values those give. */
  lemma SameValues(t: Tree, rank: Query -> nat, u: Users, u': Users)
    requires Setting(t, rank, u) && Setting(t, rank, u')
    requires Consistent(t, u', Values(t, rank, u))
    ensures forall q :: Varies(t, q) ==> Eval(t, rank, u', q) == Eval(t, rank, u, q)
  {
    forall q | Varies(t, q) ensures Eval(t, rank, u', q) == Eval(t, rank, u, q) {
      ConsistentIsEval(t, rank, u', Values(t, rank, u), q);
    }
  }

  /** `m` holds the value of every query for the user values `u`. */
  ghost predicate AllValues(t: Tree, u: Users, m: Answers) {
    Sane(t) && ValidUsers(t, u) && Consistent(t, u, m) && forall q :: Varies(t, q) <==> q in m
  }

  lemma Typed(t: Tree, u: Users, m: Answers, q: Query)
    requires AllValues(t, u, m) && Varies(t, q)
    ensures q in m && WellTyped(q, m[q]) && Answer(t, u, m, q) == Some(m[q])
  {
    assert Answer(t, u, m, q) == Some(m[q]);
  }

  function VisIn(m: Answers, x: Item): Tri { if Vis(x) in m && m[Vis(x)].TriV? then m[Vis(x)].tri else 0 }

  function TextIn(m: Answers, s: SymName): string { if StrVal(s) in m && m[StrVal(s)].StrV? then m[StrVal(s)].text else "" }

  predicate WriteIn(m: Answers, s: SymName) { StrVal(s) in m && m[StrVal(s)].StrV? && m[StrVal(s)].write }

  function SelIn(m: Answers, c: ChoiceId): Option<SymName> {
    if Sel(c) in m && m[Sel(c)].SelV? then m[Sel(c)].sel else None
  }

  // ----- What a configuration file leaves out -----

  /** Symbol._str_default() */
  function StrDefault(t: Tree, u: Users, m: Answers, d: SymDef): Option<string> {
    if d.kind.Logical() then
      if d.choice.Some? then Some("n") else
      var v :- FirstDefault(t, u, m, d.defaults);
      var rev :- ExprVal(t, u, m, d.revDep);
      var weak :- ExprVal(t, u, m, d.weakRevDep);
      Some(TriText(Promote(Max(rev, Max(weak, v)))))
    else if d.kind.Unknown? then Some("")
    else
      var text :- FirstText(t, u, m, d.defaults);
      Some(if text.Some? then text.value else "")
  }

  /** The three conditions on which write_min_config() omits a symbol: it cannot be changed, it has its
      default value, or it is what its choice selects by default. */
  predicate MinOmits(t: Tree, u: Users, m: Answers, s: SymName)
    requires s in t.syms
  {
    var d := t.syms[s];
    || (d.choice.None? && var rev := ExprVal(t, u, m, d.revDep); rev.Some? && VisIn(m, SymItem(s)) <= rev.value)
    || Some(TextIn(m, s)) == StrDefault(t, u, m, d)
    || (d.choice.Some? && d.choice.value in t.choices && !t.choices[d.choice.value].optional
        && DefaultSelection(t, u, m, t.choices[d.choice.value]) == Some(Some(s))
        && d.kind.Bool? && TextIn(m, s) == "y")
  }

  /** The symbols that get a line in a full configuration, and in a minimal one */
  function FullSet(t: Tree, m: Answers): set<SymName> { set s | s in t.syms && WriteIn(m, s) }

  function MinSet(t: Tree, u: Users, m: Answers): set<SymName> {
    set s | s in t.syms && WriteIn(m, s) && !MinOmits(t, u, m, s)
  }

  predicate Covers(t: Tree, u: Users, m: Answers, w: set<SymName>) { MinSet(t, u, m) <= w <= FullSet(t, m) }

  // ----- What loading it gives -----

  function ValueOf(kind: Kind, text: string): UserVal { if kind.Logical() then UTri(ConstTri(text)) else UText(text) }

  /** `s` is written as y within the choice `c`. */
  predicate WrittenYes(t: Tree, m: Answers, w: set<SymName>, c: ChoiceId, s: SymName) {
    s in w && s in t.syms && t.syms[s].choice == Some(c) && TextIn(m, s) == "y"
  }

  /** The text that comes back from the line of a symbol: lines are stripped on the right when they are read, and only the
      values of strings are quoted. */
  function ReadBack(t: Tree, m: Answers, s: SymName): string
    requires s in t.syms
  {
    if t.syms[s].kind.Numeric() then RStrip(TextIn(m, s)) else TextIn(m, s)
  }

  predicate Accepted(t: Tree, m: Answers, s: SymName)
    requires s in t.syms
  {
    FitsKind(t, t.syms[s].kind, ValueOf(t.syms[s].kind, ReadBack(t, m, s)))
  }

  /** The user values after loading the lines of the symbols `w`: the written values that are valid, with
      y lines also setting the mode and the selection of their choice, and nothing else. */
  ghost predicate Loaded(t: Tree, m: Answers, w: set<SymName>, u: Users) {
    && (forall s :: s in u.sym <==> s in w && s in t.syms && Accepted(t, m, s))
    && (forall s :: s in u.sym ==> u.sym[s] == ValueOf(t.syms[s].kind, ReadBack(t, m, s)))
    && (forall c :: c in u.mode <==> exists s :: WrittenYes(t, m, w, c, s))
    && (forall c :: c in u.mode ==> u.mode[c] == 2)
    && u.sel.Keys == u.mode.Keys
    && (forall c :: c in u.sel ==> WrittenYes(t, m, w, c, u.sel[c]))
  }

  // ----- When that is enough -----

  /** Every choice in y mode can be told from the file: an optional choice has a selected symbol. */
  ghost predicate Representable(t: Tree, u: Users, m: Answers) {
    forall c :: c in t.choices && t.choices[c].optional && ModeVal(t, u, m, c) == Some(2) ==> SelIn(m, c).Some?
  }

  /** What Python's int() is like: what it takes it also takes without the white space at the end, and it takes no empty
      string. The converse does not hold, since str.rstrip() strips U+001C to U+001F and int() rejects them. */
  ghost predicate Pythonic(num: Numerals) {
    && (forall text, base :: num.parse(text, base).Some? ==> num.parse(RStrip(text), base) == num.parse(text, base))
    && forall base :: num.parse("", base).None?
  }

  /** A number that ends in white space, is shown, and without that white space is accepted as a user value and in its
      range. Reading its line makes the stripped text the user value. */
  predicate Stripped(t: Tree, u: Users, m: Answers, s: SymName)
    requires s in t.syms
  {
    var d, text := t.syms[s], RStrip(TextIn(m, s));
    && d.kind.Numeric()
    && text != TextIn(m, s)
    && FitsKind(t, d.kind, UText(text))
    && var range := ActiveRange(t, u, m, d.kind, d.ranges);
       range.Some? && UserFits(t, d.kind, VisIn(m, SymItem(s)), Some(text), range.value)
  }

  /** None of the symbols `w` is a number that white space is taken off. */
  predicate Unstripped(t: Tree, u: Users, m: Answers, w: set<SymName>) {
    forall s :: s in w && s in t.syms ==> !Stripped(t, u, m, s)
  }

  /** `option env` and `option defconfig_list` symbols are never written, so they must have no user value. */
  predicate NoHiddenValues(t: Tree, u: Users) { forall s :: s in u.sym && s in t.syms ==> !t.syms[s].noWrite }

  /** What building the tree guarantees: a prompt's condition includes the direct dependencies, and only
      logical symbols are selected. */
  ghost predicate Guarded(t: Tree) {
    && (forall s, u: Users, m: Answers :: s in t.syms && ExprVal(t, u, m, t.syms[s].directDep) == Some(0) ==>
          MaxPrompt(t, u, m, t.syms[s].prompts) in {None, Some(0)})
    && (forall s :: s in t.syms && !t.syms[s].kind.Logical() ==> t.syms[s].revDep == N)
  }

  lemma VisTwo(t: Tree, u: Users, m: Answers, x: Item)
    requires AllValues(t, u, m) && Defined(t, x)
    ensures Vis(x) in m && m[Vis(x)].TriV? && VisIn(m, x) == m[Vis(x)].tri != 1
  {
    Typed(t, u, m, Vis(x));
  }

  lemma TriTextDiffers(a: Tri, b: Tri)
    ensures ConstTri(TriText(a)) == a
    ensures TriText(a) == TriText(b) ==> a == b
  {
    assert TriText(0)[0] == 'n' && TriText(1)[0] == 'm' && TriText(2)[0] == 'y';
  }

  lemma TwoValued(t: Tree, u: Users, m: Answers)
    requires AllValues(t, u, m)
    ensures forall x :: Defined(t, x) ==> VisIn(m, x) != 1
    ensures forall s :: Varies(t, TriVal(s)) ==> TextIn(m, s) in {"n", "y"}
  {
    forall x | Defined(t, x) ensures VisIn(m, x) != 1 {
      VisTwo(t, u, m, x);
    }
    forall s | Varies(t, TriVal(s)) ensures TextIn(m, s) in {"n", "y"} {
      Typed(t, u, m, StrVal(s));
      Typed(t, u, m, TriVal(s));
      assert VisIn(m, SymItem(s)) != 1;
    }
  }

  lemma YesValue(t: Tree, u: Users, m: Answers, s: SymName)
    requires AllValues(t, u, m) && Varies(t, TriVal(s))
    ensures TriVal(s) in m && m[TriVal(s)].TriV? && (m[TriVal(s)].tri == 2 <==> TextIn(m, s) == "y")
  {
    Typed(t, u, m, TriVal(s));
    Typed(t, u, m, StrVal(s));
    assert TriText(0)[0] == 'n' && TriText(1)[0] == 'm' && TriText(2)[0] == 'y';
  }

  /** A choice symbol with value y is the selection of its choice, and the other way around. */
  lemma YesIsSelection(t: Tree, u: Users, m: Answers, s: SymName)
    requires AllValues(t, u, m) && s in t.syms && t.syms[s].choice.Some?
    ensures TextIn(m, s) == "y" <==> VisIn(m, SymItem(s)) == 2 && SelIn(m, t.syms[s].choice.value) == Some(s)
    ensures TextIn(m, s) == "y" ==> WriteIn(m, s)
  {
    assert SaneSym(t, s);
    TwoValued(t, u, m);
    Typed(t, u, m, StrVal(s));
    Typed(t, u, m, TriVal(s));
    Typed(t, u, m, Vis(SymItem(s)));
    Typed(t, u, m, Sel(t.syms[s].choice.value));
    assert TriText(0) != TriText(2);
  }

  ghost predicate Reloading(t: Tree, u: Users, u': Users, m: Answers, w: set<SymName>) {
    AllValues(t, u, m) && Covers(t, u, m, w) && Loaded(t, m, w, u') && Representable(t, u, m)
  }

  /** The selection of a choice in y mode is written, unless the choice would select it anyway. */
  lemma SelectionWritten(t: Tree, u: Users, m: Answers, w: set<SymName>, c: ChoiceId)
    requires AllValues(t, u, m) && Covers(t, u, m, w) && c in t.choices && SelIn(m, c).Some?
    requires forall s :: !WrittenYes(t, m, w, c, s)
    ensures !t.choices[c].optional
    ensures DefaultSelection(t, u, m, t.choices[c]) == Some(SelIn(m, c))
  {
    var s := SelIn(m, c).value;
    SelectionVisible(t, u, m, c);
    YesIsSelection(t, u, m, s);
    assert SaneSym(t, s) && "y"[0] != "n"[0];
    assert !WrittenYes(t, m, w, c, s);
    assert s in FullSet(t, m) && s !in w && s !in MinSet(t, u, m);
    assert MinOmits(t, u, m, s);
  }

  lemma FirstVisibleIn(t: Tree, m: Answers, syms: seq<SymName>)
    requires FirstVisible(t, m, syms).Some? && FirstVisible(t, m, syms).value.Some?
    ensures FirstVisible(t, m, syms).value.value in syms
    ensures SymVis(t, m, FirstVisible(t, m, syms).value.value).Some?
    ensures SymVis(t, m, FirstVisible(t, m, syms).value.value) != Some(0)
  {
    if SymVis(t, m, syms[0]) == Some(0) { FirstVisibleIn(t, m, syms[1..]); }
  }

  lemma FirstDefaultIn(t: Tree, u: Users, m: Answers, ds: seq<ChoiceDefault>)
    requires FirstChoiceDefault(t, u, m, ds).Some? && FirstChoiceDefault(t, u, m, ds).value.Some?
    ensures FirstChoiceDefault(t, u, m, ds).value.value in DefaultSyms(ds)
    ensures SymVis(t, m, FirstChoiceDefault(t, u, m, ds).value.value).Some?
    ensures SymVis(t, m, FirstChoiceDefault(t, u, m, ds).value.value) != Some(0)
  {
    assert DefaultSyms(ds)[0] == ds[0].sym && DefaultSyms(ds)[1..] == DefaultSyms(ds[1..]);
    if !(ExprVal(t, u, m, ds[0].cond) != Some(0) && SymVis(t, m, ds[0].sym) != Some(0)) {
      FirstDefaultIn(t, u, m, ds[1..]);
      assert forall x :: x in DefaultSyms(ds)[1..] ==> x in DefaultSyms(ds);
    }
  }

  /** What a choice selects is one of its symbols, and visible; the choice is then in y mode. */
  lemma SelectionVisible(t: Tree, u: Users, m: Answers, c: ChoiceId)
    requires AllValues(t, u, m) && c in t.choices && SelIn(m, c).Some?
    ensures var s := SelIn(m, c).value;
      s in t.syms && t.syms[s].choice == Some(c) && VisIn(m, SymItem(s)) == 2 && ModeVal(t, u, m, c) == Some(2)
  {
    var d, s := t.choices[c], SelIn(m, c).value;
    assert SaneChoice(t, c);
    Typed(t, u, m, Sel(c));
    assert Selection(t, u, m, c) == Some(Some(s));
    if !(c in u.sel && s == u.sel[c] && SymVis(t, m, s) != Some(0)) {
      var first := FirstChoiceDefault(t, u, m, d.defaults);
      if first.Some? && first.value.Some? {
        FirstDefaultIn(t, u, m, d.defaults);
        var i :| 0 <= i < |d.defaults| && DefaultSyms(d.defaults)[i] == s;
        assert d.defaults[i] in d.defaults;
      } else {
        FirstVisibleIn(t, m, d.syms);
      }
    }
    TwoValued(t, u, m);
    Typed(t, u, m, Vis(SymItem(s)));
  }

  lemma ModeWithLine(t: Tree, u: Users, m: Answers, w: set<SymName>, c: ChoiceId, s: SymName)
    requires AllValues(t, u, m) && c in t.choices && WrittenYes(t, m, w, c, s)
    ensures ModeVal(t, u, m, c) == Some(2)
  {
    YesIsSelection(t, u, m, s);
    SelectionVisible(t, u, m, c);
  }

  lemma ModeAgrees(t: Tree, u: Users, u': Users, m: Answers, w: set<SymName>, c: ChoiceId)
    requires Reloading(t, u, u', m, w)
    ensures ModeVal(t, u', m, c) == ModeVal(t, u, m, c)
  {
    if c in t.choices {
      VisTwo(t, u, m, ChoiceItem(c));
      assert SaneChoice(t, c);
      if s :| WrittenYes(t, m, w, c, s) {
        ModeWithLine(t, u, m, w, c, s);
      } else if t.choices[c].optional && ModeVal(t, u, m, c) == Some(2) {
        SelectionWritten(t, u, m, w, c);
      }
    }
  }

  /** A written y line selects what was selected. */
  lemma SelFromLine(t: Tree, u: Users, u': Users, m: Answers, w: set<SymName>, c: ChoiceId)
    requires Reloading(t, u, u', m, w) && c in t.choices && c in u'.sel && ModeVal(t, u', m, c) == Some(2)
    ensures Selection(t, u', m, c) == Some(SelIn(m, c))
  {
    var s := u'.sel[c];
    assert WrittenYes(t, m, w, c, s);
    YesIsSelection(t, u, m, s);
    VisTwo(t, u, m, SymItem(s));
  }

  lemma SelAgrees(t: Tree, u: Users, u': Users, m: Answers, w: set<SymName>, c: ChoiceId)
    requires Reloading(t, u, u', m, w) && c in t.choices
    ensures Answer(t, u', m, Sel(c)) == Answer(t, u, m, Sel(c))
  {
    Typed(t, u, m, Sel(c));
    forall b ensures ModeVal(t, u', m, b) == ModeVal(t, u, m, b) { ModeAgrees(t, u, u', m, w, b); }
    if ModeVal(t, u, m, c) == Some(2) {
      if c in u'.sel { SelFromLine(t, u, u', m, w, c); } else { SelFromDefaults(t, u, u', m, w, c); }
    }
  }

  lemma SelFromDefaults(t: Tree, u: Users, u': Users, m: Answers, w: set<SymName>, c: ChoiceId)
    requires Reloading(t, u, u', m, w) && c in t.choices && c !in u'.sel && SameModeVals(t, u, u', m)
    requires ModeVal(t, u, m, c) == Some(2)
    ensures DefaultSelection(t, u', m, t.choices[c]) == Some(SelIn(m, c))
  {
    var d := t.choices[c];
    Typed(t, u, m, Sel(c));
    assert c !in u'.mode && forall s :: !WrittenYes(t, m, w, c, s);
    if SelIn(m, c).Some? {
      SelectionWritten(t, u, m, w, c);
    } else {
      assert Selection(t, u, m, c) == Some(None) && DefaultSelection(t, u, m, d) == Some(None);
    }
    DefaultSelectionSame(t, u, u', m, d);
  }

  ghost predicate SameModeVals(t: Tree, u: Users, u': Users, m: Answers) {
    forall c :: ModeVal(t, u', m, c) == ModeVal(t, u, m, c)
  }

  lemma DefaultSelectionSame(t: Tree, u: Users, u': Users, m: Answers, d: ChoiceDef)
    requires SameModeVals(t, u, u', m) && DefaultSelection(t, u, m, d).Some?
    ensures DefaultSelection(t, u', m, d) == DefaultSelection(t, u, m, d)
  {
    ChoiceDefaultsKept(t, u, u', m, m, d.defaults, ChoiceDefaultItems(d.defaults));
  }

  lemma PlainHidden(t: Tree, u: Users, u': Users, m: Answers, s: SymName)
    requires AllValues(t, u, m) && SameModeVals(t, u, u', m)
    requires Varies(t, TriVal(s)) && t.syms[s].choice.None? && VisIn(m, SymItem(s)) == 0
    ensures Answer(t, u', m, TriVal(s)) == Answer(t, u, m, TriVal(s))
  {
    var d := t.syms[s];
    Typed(t, u, m, Vis(SymItem(s)));
    Typed(t, u, m, TriVal(s));
    ExprKept(t, u, u', m, m, d.revDep, TriItems(d));
    BaseKept(t, u, u', m, m, s, d, 0, TriItems(d));
  }

  lemma PlainShown(t: Tree, u: Users, m: Answers, s: SymName)
    requires AllValues(t, u, m) && Varies(t, TriVal(s)) && t.syms[s].choice.None? && VisIn(m, SymItem(s)) == 2
    ensures TriVal(s) in m && m[TriVal(s)].TriV? && WriteIn(m, s) && TextIn(m, s) == TriText(m[TriVal(s)].tri)
  {
    Typed(t, u, m, Vis(SymItem(s)));
    Typed(t, u, m, TriVal(s));
    Typed(t, u, m, StrVal(s));
  }

  lemma PlainWritten(t: Tree, u: Users, u': Users, m: Answers, s: SymName)
    requires AllValues(t, u, m) && SameModeVals(t, u, u', m)
    requires Varies(t, TriVal(s)) && t.syms[s].choice.None? && VisIn(m, SymItem(s)) == 2
    requires TriVal(s) in m && m[TriVal(s)].TriV? && UserTri(u', s) == Some(m[TriVal(s)].tri)
    ensures Answer(t, u', m, TriVal(s)) == Answer(t, u, m, TriVal(s))
  {
    Typed(t, u, m, Vis(SymItem(s)));
    Typed(t, u, m, TriVal(s));
    ExprKept(t, u, u', m, m, t.syms[s].revDep, TriItems(t.syms[s]));
  }

  /** The value of a symbol outside choices survives: it is written, or follows from the rest. */
  lemma PlainAgrees(t: Tree, u: Users, u': Users, m: Answers, w: set<SymName>, s: SymName)
    requires Reloading(t, u, u', m, w) && (Guarded(t) || w == FullSet(t, m)) && SameModeVals(t, u, u', m)
    requires Varies(t, TriVal(s)) && t.syms[s].choice.None?
    ensures Answer(t, u', m, TriVal(s)) == Answer(t, u, m, TriVal(s))
  {
    VisTwo(t, u, m, SymItem(s));
    if VisIn(m, SymItem(s)) == 0 {
      PlainHidden(t, u, u', m, s);
    } else {
      PlainShown(t, u, m, s);
      TriTextDiffers(m[TriVal(s)].tri, 0);
      if s in w {
        YesOrNo(t, u, m, s);
        PlainWritten(t, u, u', m, s);
      } else {
        assert UserTri(u', s) == None && MinOmits(t, u, m, s);
        Typed(t, u, m, TriVal(s));
        OmittedPlain(t, u, u', m, s);
      }
    }
  }

  lemma YesOrNo(t: Tree, u: Users, m: Answers, s: SymName)
    requires AllValues(t, u, m) && Varies(t, TriVal(s))
    ensures TriVal(s) in m && m[TriVal(s)].TriV? && m[TriVal(s)].tri != 1
  {
    Typed(t, u, m, TriVal(s));
    VisTwo(t, u, m, SymItem(s));
  }

  /** The value of a choice symbol follows from its visibility and the selection. */
  lemma ChoiceSymAgrees(t: Tree, u: Users, u': Users, m: Answers, s: SymName)
    requires AllValues(t, u, m) && Varies(t, TriVal(s)) && t.syms[s].choice.Some?
    ensures Answer(t, u', m, TriVal(s)) == Answer(t, u, m, TriVal(s))
  {
    TwoValued(t, u, m);
    assert Defined(t, SymItem(s)) && VisIn(m, SymItem(s)) != 1;
    Typed(t, u, m, Vis(SymItem(s)));
  }

  lemma AllRecorded(t: Tree, u: Users, m: Answers, xs: set<Item>)
    requires AllValues(t, u, m)
    ensures Recorded(m, ItemsReads(t, xs))
  {
    forall p | p in ItemsReads(t, xs) ensures p in m && WellTyped(p, m[p]) { Typed(t, u, m, p); }
  }

  lemma SameParts(t: Tree, u: Users, u': Users, m: Answers, d: SymDef)
    requires AllValues(t, u, m) && SameModeVals(t, u, u', m)
    ensures FirstDefault(t, u, m, d.defaults).Some?
      && FirstDefault(t, u', m, d.defaults) == FirstDefault(t, u, m, d.defaults)
    ensures ExprVal(t, u, m, d.revDep).Some? && ExprVal(t, u', m, d.revDep) == ExprVal(t, u, m, d.revDep)
    ensures ExprVal(t, u, m, d.weakRevDep).Some? && ExprVal(t, u', m, d.weakRevDep) == ExprVal(t, u, m, d.weakRevDep)
    ensures ExprVal(t, u, m, d.directDep).Some? && ExprVal(t, u', m, d.directDep) == ExprVal(t, u, m, d.directDep)
  {
    var xs := TriItems(d);
    AllRecorded(t, u, m, xs);
    PlainTotal(t, u, m, d);
    DefaultsKept(t, u, u', m, m, d.defaults, xs);
    ExprKept(t, u, u', m, m, d.revDep, xs);
    ExprKept(t, u, u', m, m, d.weakRevDep, xs);
    ExprKept(t, u, u', m, m, d.directDep, xs);
  }

  /** The direct dependencies of a visible symbol are met. */
  lemma DirectMet(t: Tree, u: Users, m: Answers, s: SymName)
    requires AllValues(t, u, m) && Guarded(t) && s in t.syms && VisIn(m, SymItem(s)) != 0
    ensures ExprVal(t, u, m, t.syms[s].directDep) != Some(0)
  {
    Typed(t, u, m, Vis(SymItem(s)));
  }

  /** The value that _str_default() gives a symbol outside choices */
  function PlainDefault(t: Tree, u: Users, m: Answers, d: SymDef): Tri
    requires FirstDefault(t, u, m, d.defaults).Some? && ExprVal(t, u, m, d.revDep).Some?
    requires ExprVal(t, u, m, d.weakRevDep).Some?
  {
    var v := FirstDefault(t, u, m, d.defaults).value;
    Promote(Max(ExprVal(t, u, m, d.revDep).value, Max(ExprVal(t, u, m, d.weakRevDep).value, v)))
  }

  /** A visible symbol that write_min_config() omits has the value it gets without a user value. */
  lemma OmittedPlain(t: Tree, u: Users, u': Users, m: Answers, s: SymName)
    requires AllValues(t, u, m) && Guarded(t) && SameModeVals(t, u, u', m)
    requires Varies(t, TriVal(s)) && t.syms[s].choice.None? && VisIn(m, SymItem(s)) == 2
    requires MinOmits(t, u, m, s) && UserTri(u', s).None?
    ensures Answer(t, u', m, TriVal(s)) == Some(m[TriVal(s)])
  {
    var d := t.syms[s];
    Typed(t, u, m, Vis(SymItem(s)));
    Typed(t, u, m, TriVal(s));
    Typed(t, u, m, StrVal(s));
    SameParts(t, u, u', m, d);
    DirectMet(t, u, m, s);
    TriTextDiffers(m[TriVal(s)].tri, PlainDefault(t, u, m, d));
  }

  lemma SameTexts(t: Tree, u: Users, u': Users, m: Answers, d: SymDef)
    requires AllValues(t, u, m) && SameModeVals(t, u, u', m)
    ensures FirstText(t, u, m, d.defaults).Some? && FirstText(t, u', m, d.defaults) == FirstText(t, u, m, d.defaults)
    ensures ActiveRange(t, u, m, d.kind, d.ranges).Some?
    ensures ActiveRange(t, u', m, d.kind, d.ranges) == ActiveRange(t, u, m, d.kind, d.ranges)
  {
    var xs := StrItems(d);
    AllRecorded(t, u, m, xs);
    DefaultsTotal(t, u, m, d.defaults, xs);
    RangesTotal(t, u, m, d.kind, d.ranges, xs);
    DefaultsKept(t, u, u', m, m, d.defaults, xs);
    RangesKept(t, u, u', m, m, d.kind, d.ranges, xs);
  }

  /** What is known about the loaded value of a string, int or hex symbol that is shown */
  lemma TextLoaded(t: Tree, u: Users, u': Users, m: Answers, w: set<SymName>, s: SymName)
    requires Reloading(t, u, u', m, w) && (Guarded(t) || w == FullSet(t, m)) && SameModeVals(t, u, u', m)
    requires Varies(t, StrVal(s)) && !t.syms[s].kind.Logical() && VisIn(m, SymItem(s)) != 0 && !t.syms[s].noWrite
    ensures UserText(u', s) == (if s in w && Accepted(t, m, s) then Some(ReadBack(t, m, s)) else None)
    ensures s !in w ==> Some(TextIn(m, s)) == StrDefault(t, u, m, t.syms[s])
  {
    Typed(t, u, m, Vis(SymItem(s)));
    Typed(t, u, m, StrVal(s));
    assert SaneSym(t, s);
    if s !in w {
      assert MinOmits(t, u, m, s) && ExprVal(t, u, m, N) == Some(0);
    }
  }

  /** What int() itself takes for white space: not U+001C to U+001F */
  predicate IsIntSpace(c: char) { IsSpace(c) && !('\U{1C}' <= c <= '\U{1F}') }

  function IntStrip(text: string): string {
    if text != [] && IsIntSpace(text[|text| - 1]) then IntStrip(text[..|text| - 1])
    else if text != [] && IsIntSpace(text[0]) then IntStrip(text[1..])
    else text
  }

  /** Taking off more white space on the right first makes no difference, if what is left does not end in any. */
  lemma {:induction false} IntStripped(text: string)
    requires IntStrip(text) != [] && !IsSpace(IntStrip(text)[|IntStrip(text)| - 1])
    ensures IntStrip(RStrip(text)) == IntStrip(text)
  {
    var n := |text| - 1;
    if IsIntSpace(text[n]) {
      IntStripped(text[..n]);
    } else if IsIntSpace(text[0]) {
      IntStripped(text[1..]);
      LastStays(text);
    }
  }

  /** A string that does not end in what int() takes for white space keeps its last character. */
  lemma {:induction false} LastStays(text: string)
    requires text != [] && !IsIntSpace(text[|text| - 1])
    ensures IntStrip(text) != [] && IntStrip(text)[|IntStrip(text)| - 1] == text[|text| - 1]
  {
    if IsIntSpace(text[0]) { LastStays(text[1..]); }
  }

  /** So a parser that strips this white space, and of the rest takes nothing that is empty or ends in white space, is
      Pythonic. */
  lemma IntIsPythonic(num: Numerals, core: (string, nat) -> Option<int>)
    requires forall text, base :: num.parse(text, base) == core(IntStrip(text), base)
    requires forall text, base :: core(text, base).Some? ==> text != [] && !IsSpace(text[|text| - 1])
    ensures Pythonic(num)
  {
    forall text, base | num.parse(text, base).Some? ensures num.parse(RStrip(text), base) == num.parse(text, base) {
      IntStripped(text);
    }
    forall base ensures num.parse("", base).None? { assert IntStrip("") == ""; }
  }

  /** If the text itself is accepted, so is the stripped one, and both are used or neither. */
  lemma StrippedFits(t: Tree, kind: Kind, vis: Tri, text: string, range: Option<(int, int)>)
    requires Pythonic(t.num) && kind.Numeric()
    ensures FitsKind(t, kind, UText(text)) ==>
      && FitsKind(t, kind, UText(RStrip(text)))
      && UserFits(t, kind, vis, Some(RStrip(text)), range) == UserFits(t, kind, vis, Some(text), range)
  {
    if t.num.parse(text, kind.Base()).Some? {
      assert t.num.parse(RStrip(text), kind.Base()) == t.num.parse(text, kind.Base());
    }
    assert t.num.parse("", kind.Base()).None?;
  }

  /** A number that is not stripped: the user value it is read back as gives the same value as no user value, or is the
      value. */
  lemma NumberShown(t: Tree, u: Users, m: Answers, s: SymName, range: Option<(int, int)>)
    requires AllValues(t, u, m) && Varies(t, StrVal(s)) && t.syms[s].kind.Numeric()
    requires !Stripped(t, u, m, s) && Pythonic(t.num)
    requires ActiveRange(t, u, m, t.syms[s].kind, t.syms[s].ranges) == Some(range)
    ensures RStrip(TextIn(m, s)) == TextIn(m, s)
      || !Accepted(t, m, s)
      || !UserFits(t, t.syms[s].kind, VisIn(m, SymItem(s)), Some(RStrip(TextIn(m, s))), range)
    ensures RStrip(TextIn(m, s)) != TextIn(m, s) ==>
      !UserFits(t, t.syms[s].kind, VisIn(m, SymItem(s)), UserText(u, s), range)
  {
    Typed(t, u, m, Vis(SymItem(s)));
    Typed(t, u, m, StrVal(s));
    StrippedFits(t, t.syms[s].kind, VisIn(m, SymItem(s)), TextIn(m, s), range);
  }

  lemma NumberAgrees(t: Tree, u: Users, u': Users, m: Answers, w: set<SymName>, s: SymName)
    requires Reloading(t, u, u', m, w) && (Guarded(t) || w == FullSet(t, m)) && SameModeVals(t, u, u', m)
    requires NoHiddenValues(t, u) && Varies(t, StrVal(s)) && t.syms[s].kind.Numeric()
    requires Pythonic(t.num) && (s in w ==> !Stripped(t, u, m, s))
    ensures Answer(t, u', m, StrVal(s)) == Answer(t, u, m, StrVal(s))
  {
    var d := t.syms[s];
    Typed(t, u, m, Vis(SymItem(s)));
    Typed(t, u, m, StrVal(s));
    SameTexts(t, u, u', m, d);
    if VisIn(m, SymItem(s)) != 0 && !d.noWrite {
      TextLoaded(t, u, u', m, w, s);
      if s in w { NumberShown(t, u, m, s, ActiveRange(t, u, m, d.kind, d.ranges).value); }
    }
  }

  lemma StringAgrees(t: Tree, u: Users, u': Users, m: Answers, w: set<SymName>, s: SymName)
    requires Reloading(t, u, u', m, w) && (Guarded(t) || w == FullSet(t, m)) && SameModeVals(t, u, u', m)
    requires NoHiddenValues(t, u) && Varies(t, StrVal(s)) && !t.syms[s].kind.Logical() && !t.syms[s].kind.Numeric()
    ensures Answer(t, u', m, StrVal(s)) == Answer(t, u, m, StrVal(s))
  {
    Typed(t, u, m, Vis(SymItem(s)));
    Typed(t, u, m, StrVal(s));
    SameTexts(t, u, u', m, t.syms[s]);
    if VisIn(m, SymItem(s)) != 0 && !t.syms[s].noWrite { TextLoaded(t, u, u', m, w, s); }
  }

  /** The value of a string, int or hex symbol survives. A clamped or ill-formed default need not be
      accepted as a user value for that: it is then computed again. */
  lemma TextAgrees(t: Tree, u: Users, u': Users, m: Answers, w: set<SymName>, s: SymName)
    requires Reloading(t, u, u', m, w) && (Guarded(t) || w == FullSet(t, m)) && SameModeVals(t, u, u', m)
    requires NoHiddenValues(t, u) && Varies(t, StrVal(s)) && !t.syms[s].kind.Logical()
    requires Pythonic(t.num) && (s in w ==> !Stripped(t, u, m, s))
    ensures Answer(t, u', m, StrVal(s)) == Answer(t, u, m, StrVal(s))
  {
    if t.syms[s].kind.Numeric() {
      NumberAgrees(t, u, u', m, w, s);
    } else {
      StringAgrees(t, u, u', m, w, s);
    }
  }

  /** Loading what was written gives user values that the old values are consistent with. */
  lemma ReloadConsistent(t: Tree, u: Users, u': Users, m: Answers, w: set<SymName>)
    requires Reloading(t, u, u', m, w) && (Guarded(t) || w == FullSet(t, m)) && NoHiddenValues(t, u)
    requires Pythonic(t.num) && Unstripped(t, u, m, w)
    ensures Consistent(t, u', m)
  {
    forall c ensures ModeVal(t, u', m, c) == ModeVal(t, u, m, c) { ModeAgrees(t, u, u', m, w, c); }
    assert SameModeVals(t, u, u', m);
    forall q | q in m ensures Answer(t, u', m, q) == Some(m[q]) {
      Typed(t, u, m, q);
      match q
      case Vis(SymItem(s)) =>
        if t.syms[s].choice.Some? && !Inert(t.syms[s]) { DependsOnChoice(t, s); }
        VisKept(t, u, u', m, m, t.syms[s], PromptItems(t.syms[s].prompts));
      case Vis(ChoiceItem(c)) => PromptsKept(t, u, u', m, m, t.choices[c].prompts, PromptItems(t.choices[c].prompts));
      case TriVal(s) =>
        if t.syms[s].choice.None? { PlainAgrees(t, u, u', m, w, s); } else { ChoiceSymAgrees(t, u, u', m, s); }
      case StrVal(s) => if !t.syms[s].kind.Logical() { TextAgrees(t, u, u', m, w, s); }
      case Sel(c) => SelAgrees(t, u, u', m, w, c);
    }
  }

  lemma LoadedValid(t: Tree, u: Users, u': Users, m: Answers, w: set<SymName>)
    requires AllValues(t, u, m) && Loaded(t, m, w, u')
    ensures ValidUsers(t, u')
  {
    forall c | c in u'.sel ensures c in t.choices && u'.sel[c] in t.choices[c].syms { LoadedChoice(t, m, w, u', c); }
    forall c | c in u'.mode ensures c in t.choices && FitsKind(t, t.choices[c].kind, UTri(u'.mode[c])) {
      LoadedChoice(t, m, w, u', c);
    }
  }

  lemma LoadedChoice(t: Tree, m: Answers, w: set<SymName>, u: Users, c: ChoiceId)
    requires Sane(t) && Loaded(t, m, w, u) && c in u.sel
    ensures c in u.mode && u.mode[c] == 2
    ensures c in t.choices && u.sel[c] in t.choices[c].syms && t.choices[c].kind.Logical()
  {
    assert WrittenYes(t, m, w, c, u.sel[c]);
    assert SaneSym(t, u.sel[c]);
    assert SaneChoice(t, c);
  }
}
