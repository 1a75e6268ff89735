/** What the values of a configuration are, law by law, whichever way they are computed.

    The laws hold of every record of all answers, and so of the values that evaluation from scratch gives and of
    those that the running program caches. They speak of prompts, defaults, ranges, selects and user values, and of
    the values of their expressions. */
module KconfigLaws {
  import opened Wrappers
  import opened KconfigTree
  import opened KconfigEval
  import opened KconfigCache
  import opened KconfigReload

  // ----- The first of some conditions -----

  /** The first position that holds */
  function First(bs: seq<bool>): (i: Option<nat>)
    ensures i.Some? ==> i.value < |bs| && bs[i.value] && forall j :: 0 <= j < i.value ==> !bs[j]
    ensures i.None? ==> forall j :: 0 <= j < |bs| ==> !bs[j]
  {
    if bs == [] then None
    else if bs[0] then Some(0)
    else
      var i := First(bs[1..]);
      if i.None? then
        assert forall j :: 0 < j < |bs| ==> bs[j] == bs[1..][j - 1];
        None
      else
        assert forall j :: 0 < j < |bs| ==> bs[j] == bs[1..][j - 1];
        Some(i.value + 1)
  }

  // ----- Values of expressions -----

  function Val(t: Tree, u: Users, m: Answers, e: Expr): Tri {
    var v := ExprVal(t, u, m, e);
    if v.Some? then v.value else 0
  }

  /** The condition is not n. */
  predicate On(t: Tree, u: Users, m: Answers, e: Expr) { Val(t, u, m, e) != 0 }

  function TextOf(t: Tree, m: Answers, leaf: Leaf): string {
    var v := LeafText(t, m, leaf);
    if v.Some? then v.value else ""
  }

  lemma ReadsRecorded(t: Tree, u: Users, m: Answers, xs: set<Item>)
    requires AllValues(t, u, m)
    ensures Recorded(m, ItemsReads(t, xs))
  {
    forall q | q in ItemsReads(t, xs) ensures q in m && WellTyped(q, m[q]) { Typed(t, u, m, q); }
  }

  /** Where everything is recorded, every expression has a value. */
  lemma ValIs(t: Tree, u: Users, m: Answers, e: Expr)
    requires AllValues(t, u, m)
    ensures ExprVal(t, u, m, e) == Some(Val(t, u, m, e))
  {
    ReadsRecorded(t, u, m, ExprItems(e));
    ExprTotal(t, u, m, e, ExprItems(e));
  }

  lemma ValsAre(t: Tree, u: Users, m: Answers)
    requires AllValues(t, u, m)
    ensures forall e :: ExprVal(t, u, m, e) == Some(Val(t, u, m, e))
  {
    forall e ensures ExprVal(t, u, m, e) == Some(Val(t, u, m, e)) { ValIs(t, u, m, e); }
  }

  lemma TextIs(t: Tree, u: Users, m: Answers, leaf: Leaf)
    requires AllValues(t, u, m)
    ensures LeafText(t, m, leaf) == Some(TextOf(t, m, leaf))
  {
    ReadsRecorded(t, u, m, LeafItems(leaf));
    LeafTotal(t, m, leaf, LeafItems(leaf));
  }

  lemma ThreeTexts()
    ensures "n" != "m" && "m" != "y" && "n" != "y"
  {
    assert "n"[0] != "m"[0] && "m"[0] != "y"[0] && "n"[0] != "y"[0];
  }

  /** Connectives: the least, the greatest, and the opposite value */
  lemma Connectives(t: Tree, u: Users, m: Answers, a: Expr, b: Expr)
    requires AllValues(t, u, m)
    ensures var v, x, y := Val(t, u, m, And(a, b)), Val(t, u, m, a), Val(t, u, m, b); v <= x && v <= y && v in {x, y}
    ensures var v, x, y := Val(t, u, m, Or(a, b)), Val(t, u, m, a), Val(t, u, m, b); v >= x && v >= y && v in {x, y}
    ensures Val(t, u, m, Not(a)) + Val(t, u, m, a) == 2
  {
    ValIs(t, u, m, a);
    ValIs(t, u, m, b);
  }

  /** Constants and undefined symbols are their own text; only the constants y and m are not n. */
  lemma Constants(t: Tree, u: Users, m: Answers, text: string)
    ensures Val(t, u, m, Ref(Const(text))) == (if text == "y" then 2 else if text == "m" then 1 else 0)
    ensures TextOf(t, m, Const(text)) == text
    ensures text !in t.syms ==> Val(t, u, m, Ref(Sym(text))) == 0 && TextOf(t, m, Sym(text)) == text
    ensures text in t.syms && t.syms[text].kind.Unknown? ==>
      Val(t, u, m, Ref(Sym(text))) == 0 && TextOf(t, m, Sym(text)) == text
  {
  }

  /** Symbols: strings and numbers count as n, and the value of a logical symbol is what its text says. */
  lemma Symbols(t: Tree, u: Users, m: Answers, s: SymName)
    requires AllValues(t, u, m) && s in t.syms && !t.syms[s].kind.Unknown?
    ensures TextOf(t, m, Sym(s)) == TextIn(m, s)
    ensures Val(t, u, m, Ref(Sym(s))) == if t.syms[s].kind.Logical() && TextIn(m, s) == "y" then 2 else 0
    ensures t.syms[s].kind.Logical() ==> TextIn(m, s) in {"n", "y"}
  {
    Typed(t, u, m, StrVal(s));
    if t.syms[s].kind.Logical() {
      Typed(t, u, m, TriVal(s));
      TwoValued(t, u, m);
      YesValue(t, u, m, s);
      ThreeTexts();
    }
  }

  // ----- Comparisons -----

  /** The order in which a and b, different from each other, differ first, or one is the start of the other */
  ghost predicate Before(a: string, b: string) { exists k: nat :: BeforeAt(a, b, k) }

  predicate BeforeAt(a: string, b: string, k: nat) {
    k <= |a| && k < |b| && a[..k] == b[..k] && (k == |a| || a[k] < b[k])
  }

  predicate Holds(op: RelOp, x: int, y: int) {
    match op
    case Eq => x == y
    case Ne => x != y
    case Lt => x < y
    case Le => x <= y
    case Gt => x > y
    case Ge => x >= y
  }

  ghost predicate HoldsOfTexts(op: RelOp, a: string, b: string) {
    match op
    case Eq => a == b
    case Ne => a != b
    case Lt => Before(a, b)
    case Le => a == b || Before(a, b)
    case Gt => Before(b, a)
    case Ge => a == b || Before(b, a)
  }

  /** The first difference decides. */
  lemma {:induction false} StrCmpIs(a: string, b: string)
    ensures StrCmp(a, b) < 0 <==> Before(a, b)
    ensures StrCmp(a, b) > 0 <==> Before(b, a)
    ensures StrCmp(a, b) == 0 <==> a == b
  {
    if a == [] || b == [] {
      if b != [] { assert BeforeAt(a, b, 0); }
      if a != [] { assert BeforeAt(b, a, 0); }
    } else if a[0] != b[0] {
      DifferAtOnce(a, b);
      DifferAtOnce(b, a);
    } else {
      StrCmpIs(a[1..], b[1..]);
      BeforeTails(a, b);
      BeforeTails(b, a);
      assert a == b <==> a[1..] == b[1..] by { assert a == [a[0]] + a[1..] && b == [b[0]] + b[1..]; }
    }
  }

  lemma DifferAtOnce(a: string, b: string)
    requires a != [] && b != [] && a[0] != b[0]
    ensures Before(a, b) <==> a[0] < b[0]
  {
    if a[0] < b[0] { assert BeforeAt(a, b, 0); }
    if k: nat :| BeforeAt(a, b, k) { AgreeAtOnce(a, b, k); }
  }

  lemma AgreeAtOnce(a: string, b: string, k: nat)
    requires a != [] && b != [] && BeforeAt(a, b, k)
    ensures k > 0 ==> a[0] == b[0]
  {
    if k > 0 { assert a[..k][0] == b[..k][0]; }
  }

  lemma BeforeTails(a: string, b: string)
    requires a != [] && b != [] && a[0] == b[0]
    ensures Before(a, b) <==> Before(a[1..], b[1..])
  {
    if k: nat :| BeforeAt(a[1..], b[1..], k) {
      assert a[..k + 1] == [a[0]] + a[1..][..k] && b[..k + 1] == [b[0]] + b[1..][..k];
      assert BeforeAt(a, b, k + 1);
    }
    if k: nat :| BeforeAt(a, b, k) {
      assert k > 0;
      assert a[1..][..k - 1] == a[..k][1..] && b[1..][..k - 1] == b[..k][1..];
      assert BeforeAt(a[1..], b[1..], k - 1);
    }
  }

  /** A comparison is y or n. Of two string symbols the texts are compared; otherwise numbers are, if both texts are
      numbers, where n, m and y of a logical operand count as 0, 1 and 2; and else the texts again. */
  lemma Relations(t: Tree, u: Users, m: Answers, op: RelOp, a: Leaf, b: Leaf)
    requires AllValues(t, u, m)
    ensures var x, y := NumberOf(t, m, a), NumberOf(t, m, b);
      Val(t, u, m, Rel(op, a, b)) == 2 <==>
        if x.Some? && y.Some? && !(LeafKind(t, a).Text? && LeafKind(t, b).Text?)
        then Holds(op, x.value, y.value)
        else HoldsOfTexts(op, TextOf(t, m, a), TextOf(t, m, b))
    ensures Val(t, u, m, Rel(op, a, b)) in {0, 2}
  {
    TextIs(t, u, m, a);
    TextIs(t, u, m, b);
    Compared(t, m, a, b);
    var x, y := NumberOf(t, m, a), NumberOf(t, m, b);
    if x.Some? && y.Some? { NumbersHold(op, x.value, y.value); }
    TextsHold(op, TextOf(t, m, a), TextOf(t, m, b));
  }

  lemma NumbersHold(op: RelOp, x: int, y: int)
    ensures RelTri(op, x - y) == if Holds(op, x, y) then 2 else 0
  {
  }

  lemma TextsHold(op: RelOp, a: string, b: string)
    ensures RelTri(op, StrCmp(a, b)) == if HoldsOfTexts(op, a, b) then 2 else 0
  {
    StrCmpIs(a, b);
  }

  lemma Compared(t: Tree, m: Answers, a: Leaf, b: Leaf)
    ensures var x, y := NumberOf(t, m, a), NumberOf(t, m, b);
      Comparison(t, LeafKind(t, a), TextOf(t, m, a), LeafKind(t, b), TextOf(t, m, b)) ==
        if x.Some? && y.Some? && !(LeafKind(t, a).Text? && LeafKind(t, b).Text?) then x.value - y.value
        else StrCmp(TextOf(t, m, a), TextOf(t, m, b))
  {
  }

  /** The number that an operand stands for, if it does */
  function NumberOf(t: Tree, m: Answers, leaf: Leaf): Option<int> {
    var text := TextOf(t, m, leaf);
    match LeafKind(t, leaf)
    case Bool => Some(if text == "y" then 2 else if text == "m" then 1 else 0)
    case Tristate => Some(if text == "y" then 2 else if text == "m" then 1 else 0)
    case Hex => t.num.parse(text, 16)
    case Int => t.num.parse(text, 10)
    case Text => t.num.parse(text, 0)
    case Unknown => t.num.parse(text, 0)
  }

  /** The constants n, m and y are tristate, and all other constants and undefined symbols are without a type. */
  lemma KindOf(t: Tree, text: string)
    ensures LeafKind(t, Const(text)) == if text == "n" || text == "m" || text == "y" then Tristate else Unknown
    ensures LeafKind(t, Sym(text)) == if text in t.syms then t.syms[text].kind else Unknown
  {
  }

  // ----- Modes and visibility -----

  /** Some prompt's condition is not n. */
  predicate Prompted(t: Tree, u: Users, m: Answers, prompts: seq<Expr>) {
    exists i :: 0 <= i < |prompts| && On(t, u, m, prompts[i])
  }

  /** Some prompt's condition is y. */
  predicate FullyPrompted(t: Tree, u: Users, m: Answers, prompts: seq<Expr>) {
    exists i :: 0 <= i < |prompts| && Val(t, u, m, prompts[i]) == 2
  }

  lemma {:induction false} MaxPromptIs(t: Tree, u: Users, m: Answers, ps: seq<Expr>)
    requires AllValues(t, u, m)
    ensures MaxPrompt(t, u, m, ps).Some?
    ensures MaxPrompt(t, u, m, ps).value != 0 <==> Prompted(t, u, m, ps)
    ensures MaxPrompt(t, u, m, ps).value == 2 <==> FullyPrompted(t, u, m, ps)
  {
    if ps != [] {
      ValIs(t, u, m, ps[0]);
      MaxPromptIs(t, u, m, ps[1..]);
      assert forall i :: 0 < i < |ps| ==> ps[i] == ps[1..][i - 1];
      assert Prompted(t, u, m, ps) <==> On(t, u, m, ps[0]) || Prompted(t, u, m, ps[1..]);
      assert FullyPrompted(t, u, m, ps) <==> Val(t, u, m, ps[0]) == 2 || FullyPrompted(t, u, m, ps[1..]);
    }
  }

  /** A choice is visible if one of its prompts is. */
  lemma ChoiceVisibility(t: Tree, u: Users, m: Answers, c: ChoiceId)
    requires AllValues(t, u, m) && c in t.choices
    ensures VisIn(m, ChoiceItem(c)) == if Prompted(t, u, m, t.choices[c].prompts) then 2 else 0
  {
    Typed(t, u, m, Vis(ChoiceItem(c)));
    MaxPromptIs(t, u, m, t.choices[c].prompts);
  }

  /** A visible choice is in y mode, unless it is optional and the user has not set it to m or y. */
  lemma ModeOf(t: Tree, u: Users, m: Answers, c: ChoiceId)
    requires AllValues(t, u, m) && c in t.choices
    ensures Val(t, u, m, Mode(c)) ==
      if VisIn(m, ChoiceItem(c)) != 0 && (!t.choices[c].optional || (c in u.mode && u.mode[c] != 0)) then 2 else 0
  {
    VisTwo(t, u, m, ChoiceItem(c));
    assert SaneChoice(t, c);
  }

  /** The mode of the choice, if there is one, does not hide the symbol: in a choice of type tristate it hides bool symbols
      unless it is y, and in any choice it hides, if it is y, tristate symbols whose prompts are at most m. */
  predicate ModeAllows(t: Tree, u: Users, m: Answers, d: SymDef) {
    d.choice.Some? && d.choice.value in t.choices ==>
      var yes := Val(t, u, m, Mode(d.choice.value)) == 2;
      && (t.choices[d.choice.value].kind.Tristate? && d.kind.Bool? ==> yes)
      && (d.kind.Tristate? && yes ==> FullyPrompted(t, u, m, d.prompts))
  }

  /** A symbol is visible if one of its prompts is and the mode of its choice allows it. */
  lemma SymVisibilityOf(t: Tree, u: Users, m: Answers, s: SymName)
    requires AllValues(t, u, m) && s in t.syms
    ensures VisIn(m, SymItem(s)) ==
      if Prompted(t, u, m, t.syms[s].prompts) && ModeAllows(t, u, m, t.syms[s]) then 2 else 0
  {
    var d := t.syms[s];
    assert SaneSym(t, s);
    Typed(t, u, m, Vis(SymItem(s)));
    MaxPromptIs(t, u, m, d.prompts);
    if d.choice.Some? { ValIs(t, u, m, Mode(d.choice.value)); }
  }

  // ----- Defaults and ranges -----

  /** The first default whose condition is not n */
  function ActiveDefault(t: Tree, u: Users, m: Answers, ds: seq<Default>): (i: Option<nat>)
    ensures i.Some? ==>
      i.value < |ds| && On(t, u, m, ds[i.value].cond) && forall j :: 0 <= j < i.value ==> !On(t, u, m, ds[j].cond)
    ensures i.None? ==> forall j :: 0 <= j < |ds| ==> !On(t, u, m, ds[j].cond)
  {
    var bs := seq(|ds|, i requires 0 <= i < |ds| => On(t, u, m, ds[i].cond));
    assert forall j :: 0 <= j < |ds| ==> bs[j] == On(t, u, m, ds[j].cond);
    First(bs)
  }

  /** The first range whose condition is not n */
  function ActiveBounds(t: Tree, u: Users, m: Answers, rs: seq<Range>): (i: Option<nat>)
    ensures i.Some? ==>
      i.value < |rs| && On(t, u, m, rs[i.value].cond) && forall j :: 0 <= j < i.value ==> !On(t, u, m, rs[j].cond)
    ensures i.None? ==> forall j :: 0 <= j < |rs| ==> !On(t, u, m, rs[j].cond)
  {
    var bs := seq(|rs|, i requires 0 <= i < |rs| => On(t, u, m, rs[i].cond));
    assert forall j :: 0 <= j < |rs| ==> bs[j] == On(t, u, m, rs[j].cond);
    First(bs)
  }

  lemma DefaultsAre(t: Tree, u: Users, m: Answers, ds: seq<Default>)
    requires AllValues(t, u, m)
    ensures FirstDefault(t, u, m, ds) ==
      match ActiveDefault(t, u, m, ds)
      case Some(i) => Some(Min(Val(t, u, m, ds[i].value), Val(t, u, m, ds[i].cond)))
      case None => Some(0)
    ensures FirstText(t, u, m, ds) ==
      match ActiveDefault(t, u, m, ds)
      case Some(i) => Some(Some(if ds[i].value.Ref? then TextOf(t, m, ds[i].value.leaf) else ""))
      case None => Some(None)
  {
    ValsAre(t, u, m);
    var i := ActiveDefault(t, u, m, ds);
    SkipDefaults(t, u, m, ds, if i.Some? then i.value else |ds|);
    if i.Some? && ds[i.value].value.Ref? { TextIs(t, u, m, ds[i.value].value.leaf); }
  }

  /** The number that a text stands for, or 0 */
  function NumberIn(t: Tree, kind: Kind, text: string): int {
    match t.num.parse(text, if kind.Hex? then 16 else 10)
    case Some(n) => n
    case None => 0
  }

  /** The bounds in effect, if there are any */
  function BoundsOf(t: Tree, u: Users, m: Answers, d: SymDef): Option<(int, int)> {
    match ActiveBounds(t, u, m, d.ranges)
    case Some(i) =>
      Some((NumberIn(t, d.kind, TextOf(t, m, d.ranges[i].low)), NumberIn(t, d.kind, TextOf(t, m, d.ranges[i].high))))
    case None => None
  }

  lemma RangesAre(t: Tree, u: Users, m: Answers, d: SymDef)
    requires AllValues(t, u, m) && d.kind.Numeric()
    ensures ActiveRange(t, u, m, d.kind, d.ranges) == Some(BoundsOf(t, u, m, d))
  {
    ValsAre(t, u, m);
    var i := ActiveBounds(t, u, m, d.ranges);
    SkipRanges(t, u, m, d.kind, d.ranges, if i.Some? then i.value else |d.ranges|);
    if i.Some? {
      TextIs(t, u, m, d.ranges[i.value].low);
      TextIs(t, u, m, d.ranges[i.value].high);
    }
  }

  /** The text that a string or number has from its defaults */
  function DefaultText(t: Tree, u: Users, m: Answers, d: SymDef): string {
    match ActiveDefault(t, u, m, d.defaults)
    case Some(i) => if d.defaults[i].value.Ref? then TextOf(t, m, d.defaults[i].value.leaf) else ""
    case None => ""
  }

  // ----- Values -----

  predicate Shown(m: Answers, s: SymName) { VisIn(m, SymItem(s)) != 0 }

  /** The first default with a condition that is not n gives y or m. */
  predicate DefaultsOn(t: Tree, u: Users, m: Answers, d: SymDef) {
    var i := ActiveDefault(t, u, m, d.defaults);
    i.Some? && On(t, u, m, d.defaults[i.value].value)
  }

  /** A bool or tristate symbol outside choices is y exactly if it is selected, or the user's value says so, or, without
      a user value that counts, its default does or an imply whose direct dependencies are met. Otherwise it is n. It is
      to be written exactly if it is visible or y. */
  lemma LogicalValue(t: Tree, u: Users, m: Answers, s: SymName)
    requires AllValues(t, u, m) && Varies(t, TriVal(s)) && t.syms[s].choice.None?
    ensures TextIn(m, s) == if
        var d := t.syms[s];
        || On(t, u, m, d.revDep)
        || (if Shown(m, s) && s in u.sym then u.sym[s] != UTri(0)
            else DefaultsOn(t, u, m, d) || (On(t, u, m, d.weakRevDep) && On(t, u, m, d.directDep)))
      then "y" else "n"
    ensures WriteIn(m, s) <==> Shown(m, s) || TextIn(m, s) == "y"
  {
    var d := t.syms[s];
    ValsAre(t, u, m);
    DefaultsAre(t, u, m, d.defaults);
    VisTwo(t, u, m, SymItem(s));
    Typed(t, u, m, TriVal(s));
    Typed(t, u, m, StrVal(s));
    ThreeTexts();
  }

  /** A symbol of a choice is y exactly if it is visible and selected, and is to be written if it is visible. */
  lemma ChoiceSymValue(t: Tree, u: Users, m: Answers, s: SymName)
    requires AllValues(t, u, m) && s in t.syms && t.syms[s].choice.Some?
    ensures TextIn(m, s) == if Shown(m, s) && SelIn(m, t.syms[s].choice.value) == Some(s) then "y" else "n"
    ensures WriteIn(m, s) <==> Shown(m, s)
  {
    assert SaneSym(t, s);
    VisTwo(t, u, m, SymItem(s));
    Typed(t, u, m, StrVal(s));
    Typed(t, u, m, TriVal(s));
    Typed(t, u, m, Sel(t.syms[s].choice.value));
  }

  /** A string is the user's if it is visible, and else what its defaults say. */
  lemma StringValue(t: Tree, u: Users, m: Answers, s: SymName)
    requires AllValues(t, u, m) && s in t.syms && t.syms[s].kind.Text?
    ensures UText(TextIn(m, s)) ==
      if Shown(m, s) && s in u.sym then u.sym[s] else UText(DefaultText(t, u, m, t.syms[s]))
  {
    Typed(t, u, m, Vis(SymItem(s)));
    Typed(t, u, m, StrVal(s));
    DefaultsAre(t, u, m, t.syms[s].defaults);
  }

  predicate Within(bounds: Option<(int, int)>, n: int) { bounds.Some? ==> bounds.value.0 <= n <= bounds.value.1 }

  /** The user's number counts if it is visible, not empty, and in the range in effect. */
  predicate UserNumberCounts(t: Tree, u: Users, m: Answers, s: SymName)
    requires s in t.syms
  {
    && Shown(m, s) && s in u.sym && u.sym[s].UText? && u.sym[s].text != ""
    && Within(BoundsOf(t, u, m, t.syms[s]), NumberIn(t, t.syms[s].kind, u.sym[s].text))
  }

  /** The number that the defaults give, 0 for want of one */
  function DefaultNumber(t: Tree, u: Users, m: Answers, d: SymDef): int {
    if ActiveDefault(t, u, m, d.defaults).Some? then NumberIn(t, d.kind, DefaultText(t, u, m, d)) else 0
  }

  lemma ClampIs(t: Tree, kind: Kind, default: Option<string>, range: Option<(int, int)>)
    requires kind.Numeric()
    ensures var n := if default.Some? then NumberIn(t, kind, default.value) else 0;
      && (Within(range, n) ==> Clamp(t, kind, default, range) == if default.Some? then default.value else "")
      && (range.Some? && n < range.value.0 ==> Clamp(t, kind, default, range) == t.num.show(range.value.0, kind))
      && (range.Some? && n >= range.value.0 && n > range.value.1 ==>
            Clamp(t, kind, default, range) == t.num.show(range.value.1, kind))
  {
  }

  /** The text of a number is the user's, if that counts. */
  lemma UserNumber(t: Tree, u: Users, m: Answers, s: SymName)
    requires AllValues(t, u, m) && s in t.syms && t.syms[s].kind.Numeric() && UserNumberCounts(t, u, m, s)
    ensures UText(TextIn(m, s)) == u.sym[s]
  {
    Typed(t, u, m, Vis(SymItem(s)));
    Typed(t, u, m, StrVal(s));
    RangesAre(t, u, m, t.syms[s]);
  }

  /** Otherwise it is that of the default. If the default is no number it counts as 0, and if it is outside of the range
      in effect, the bound next to it takes its place. */
  lemma NumberByDefault(t: Tree, u: Users, m: Answers, s: SymName)
    requires AllValues(t, u, m) && s in t.syms && t.syms[s].kind.Numeric() && !UserNumberCounts(t, u, m, s)
    ensures var d := t.syms[s]; var bounds, n := BoundsOf(t, u, m, d), DefaultNumber(t, u, m, d);
      && (Within(bounds, n) ==> TextIn(m, s) == DefaultText(t, u, m, d))
      && (bounds.Some? && n < bounds.value.0 ==> TextIn(m, s) == t.num.show(bounds.value.0, d.kind))
      && (bounds.Some? && n >= bounds.value.0 && n > bounds.value.1 ==>
            TextIn(m, s) == t.num.show(bounds.value.1, d.kind))
  {
    var d := t.syms[s];
    Typed(t, u, m, Vis(SymItem(s)));
    Typed(t, u, m, StrVal(s));
    DefaultsAre(t, u, m, d.defaults);
    RangesAre(t, u, m, d);
    ClampIs(t, d.kind, FirstText(t, u, m, d.defaults).value, BoundsOf(t, u, m, d));
  }

  /** Numbers are read back as they are shown, and the empty string is none. */
  ghost predicate ReadsBack(num: Numerals) {
    && (forall n, kind: Kind :: kind.Numeric() ==> num.parse(num.show(n, kind), if kind.Hex? then 16 else 10) == Some(n))
    && forall base :: num.parse("", base).None?
  }

  /** So a number with a range in effect is inside it, whatever users and defaults say, if anything is. */
  lemma NumberInRange(t: Tree, u: Users, m: Answers, s: SymName)
    requires AllValues(t, u, m) && s in t.syms && t.syms[s].kind.Numeric() && ReadsBack(t.num)
    ensures Within(BoundsOf(t, u, m, t.syms[s]), NumberIn(t, t.syms[s].kind, TextIn(m, s))) <==>
      var bounds := BoundsOf(t, u, m, t.syms[s]); bounds.Some? ==> bounds.value.0 <= bounds.value.1
  {
    if UserNumberCounts(t, u, m, s) { UserNumber(t, u, m, s); } else { NumberByDefault(t, u, m, s); }
  }

  /** A string or number is to be written if it may be and is visible or some default's condition is not n. */
  lemma TextWritten(t: Tree, u: Users, m: Answers, s: SymName)
    requires AllValues(t, u, m) && Varies(t, StrVal(s)) && !t.syms[s].kind.Logical()
    ensures var d := t.syms[s];
      WriteIn(m, s) <==> !d.noWrite && (Shown(m, s) || exists i :: 0 <= i < |d.defaults| && On(t, u, m, d.defaults[i].cond))
  {
    var d := t.syms[s];
    Typed(t, u, m, Vis(SymItem(s)));
    Typed(t, u, m, StrVal(s));
    DefaultsAre(t, u, m, d.defaults);
    if d.kind.Numeric() { RangesAre(t, u, m, d); }
  }

  // ----- Selections -----

  /** The first default of a choice that is on and visible */
  function ActiveSelection(t: Tree, u: Users, m: Answers, ds: seq<ChoiceDefault>): (i: Option<nat>)
    ensures i.Some? ==>
      i.value < |ds| && Selects(t, u, m, ds[i.value]) && forall j :: 0 <= j < i.value ==> !Selects(t, u, m, ds[j])
    ensures i.None? ==> forall j :: 0 <= j < |ds| ==> !Selects(t, u, m, ds[j])
  {
    var bs := seq(|ds|, i requires 0 <= i < |ds| => Selects(t, u, m, ds[i]));
    assert forall j :: 0 <= j < |ds| ==> bs[j] == Selects(t, u, m, ds[j]);
    First(bs)
  }

  predicate Selects(t: Tree, u: Users, m: Answers, d: ChoiceDefault) { On(t, u, m, d.cond) && Shown(m, d.sym) }

  function FirstShown(m: Answers, syms: seq<SymName>): (i: Option<nat>)
    ensures i.Some? ==> i.value < |syms| && Shown(m, syms[i.value]) && forall j :: 0 <= j < i.value ==> !Shown(m, syms[j])
    ensures i.None? ==> forall j :: 0 <= j < |syms| ==> !Shown(m, syms[j])
  {
    var bs := seq(|syms|, i requires 0 <= i < |syms| => Shown(m, syms[i]));
    assert forall j :: 0 <= j < |syms| ==> bs[j] == Shown(m, syms[j]);
    First(bs)
  }

  /** A choice that is not in y mode selects nothing. One that is selects what the user has selected, if that is visible,
      else the first visible default whose condition is not n, else its first visible symbol, if there is one. */
  lemma SelectionOf(t: Tree, u: Users, m: Answers, c: ChoiceId)
    requires AllValues(t, u, m) && c in t.choices
    ensures var d := t.choices[c];
      SelIn(m, c) ==
        if Val(t, u, m, Mode(c)) != 2 then None
        else if c in u.sel && Shown(m, u.sel[c]) then Some(u.sel[c])
        else match ActiveSelection(t, u, m, d.defaults)
          case Some(i) => Some(d.defaults[i].sym)
          case None =>
            match FirstShown(m, d.syms)
            case Some(i) => Some(d.syms[i])
            case None => None
  {
    var d := t.choices[c];
    assert SaneChoice(t, c);
    Typed(t, u, m, Sel(c));
    ValIs(t, u, m, Mode(c));
    MemberVis(t, u, m, c);
    DefaultSelectionIs(t, u, m, c);
  }

  lemma MemberVis(t: Tree, u: Users, m: Answers, c: ChoiceId)
    requires AllValues(t, u, m) && c in t.choices
    ensures forall s :: s in t.choices[c].syms ==> SymVis(t, m, s) == Some(VisIn(m, SymItem(s)))
  {
    assert SaneChoice(t, c);
    forall s | s in t.choices[c].syms ensures SymVis(t, m, s) == Some(VisIn(m, SymItem(s))) {
      Typed(t, u, m, Vis(SymItem(s)));
    }
  }

  lemma DefaultSelectionIs(t: Tree, u: Users, m: Answers, c: ChoiceId)
    requires AllValues(t, u, m) && c in t.choices
    ensures var d := t.choices[c];
      DefaultSelection(t, u, m, d) == Some(
        match ActiveSelection(t, u, m, d.defaults)
        case Some(i) => Some(d.defaults[i].sym)
        case None =>
          match FirstShown(m, d.syms)
          case Some(i) => Some(d.syms[i])
          case None => None)
  {
    var d := t.choices[c];
    assert SaneChoice(t, c);
    MemberVis(t, u, m, c);
    ValsAre(t, u, m);
    var i := ActiveSelection(t, u, m, d.defaults);
    var n := if i.Some? then i.value else |d.defaults|;
    forall j | 0 <= j < n ensures Passed(t, u, m, d.defaults[j]) {
      assert d.defaults[j] in d.defaults && !Selects(t, u, m, d.defaults[j]);
    }
    SkipChoiceDefaults(t, u, m, d.defaults, n);
    if i.None? {
      var k := FirstShown(m, d.syms);
      SkipInvisible(t, m, d.syms, if k.Some? then k.value else |d.syms|);
    }
  }

  // ----- The minimal configuration -----

  /** The text that the writer of minimal configurations takes for the default of a symbol. Implies count here whether
      the direct dependencies are met or not. */
  function PlainDefault(t: Tree, u: Users, m: Answers, d: SymDef): string {
    if !d.kind.Logical() then DefaultText(t, u, m, d)
    else if d.choice.Some? then "n"
    else if On(t, u, m, d.revDep) || On(t, u, m, d.weakRevDep) || DefaultsOn(t, u, m, d) then "y"
    else "n"
  }

  /** What the choice selects if the user has selected nothing */
  function DefaultOf(t: Tree, u: Users, m: Answers, d: ChoiceDef): Option<SymName> {
    match ActiveSelection(t, u, m, d.defaults)
    case Some(i) => Some(d.defaults[i].sym)
    case None =>
      match FirstShown(m, d.syms)
      case Some(i) => Some(d.syms[i])
      case None => None
  }

  /** The bool symbol that its choice, which cannot be in n mode, selects by default and in fact */
  predicate SelectedByDefault(t: Tree, u: Users, m: Answers, s: SymName)
    requires s in t.syms
  {
    var d := t.syms[s];
    && d.choice.Some? && d.choice.value in t.choices && !t.choices[d.choice.value].optional
    && DefaultOf(t, u, m, t.choices[d.choice.value]) == Some(s) && d.kind.Bool? && TextIn(m, s) == "y"
  }

  lemma PlainDefaultIs(t: Tree, u: Users, m: Answers, s: SymName)
    requires AllValues(t, u, m) && Varies(t, StrVal(s))
    ensures StrDefault(t, u, m, t.syms[s]) == Some(PlainDefault(t, u, m, t.syms[s]))
  {
    ValsAre(t, u, m);
    DefaultsAre(t, u, m, t.syms[s].defaults);
  }

  /** A symbol is left out exactly if nothing is to be written for it, or it is outside choices and hidden or selected to
      y, or has its default text, or is what its choice selects by default. */
  lemma MinLineIff(t: Tree, u: Users, m: Answers, s: SymName)
    requires AllValues(t, u, m) && s in t.syms
    ensures s in MinSet(t, u, m) <==>
      && WriteIn(m, s)
      && (t.syms[s].choice.None? ==> Shown(m, s) && Val(t, u, m, t.syms[s].revDep) != 2)
      && TextIn(m, s) != PlainDefault(t, u, m, t.syms[s])
      && !SelectedByDefault(t, u, m, s)
  {
    if WriteIn(m, s) {
      var d := t.syms[s];
      assert SaneSym(t, s) && Varies(t, StrVal(s));
      PlainDefaultIs(t, u, m, s);
      ValIs(t, u, m, d.revDep);
      VisTwo(t, u, m, SymItem(s));
      if d.choice.Some? { DefaultSelectionIs(t, u, m, d.choice.value); }
    }
  }

  /** For a logical symbol whose user value does not count, that text is its value, exactly unless nothing but an imply makes
      it y and the direct dependencies are not met. */
  lemma PlainDefaultIff(t: Tree, u: Users, m: Answers, s: SymName)
    requires AllValues(t, u, m) && Varies(t, TriVal(s)) && t.syms[s].choice.None? && !(Shown(m, s) && s in u.sym)
    ensures var d := t.syms[s];
      TextIn(m, s) == PlainDefault(t, u, m, d) <==>
        On(t, u, m, d.revDep) || DefaultsOn(t, u, m, d) || (On(t, u, m, d.weakRevDep) ==> On(t, u, m, d.directDep))
  {
    LogicalValue(t, u, m, s);
    ThreeTexts();
  }

  /** A symbol that the user has not touched gets no line, unless it is implied while its direct dependencies are not met,
      or it is a number that was moved into its range. */
  lemma UntouchedOmitted(t: Tree, u: Users, m: Answers, s: SymName)
    requires AllValues(t, u, m) && s in t.syms && s !in u.sym && t.syms[s].choice.None?
    requires On(t, u, m, t.syms[s].weakRevDep) ==> On(t, u, m, t.syms[s].directDep)
    requires t.syms[s].kind.Numeric() ==> Within(BoundsOf(t, u, m, t.syms[s]), DefaultNumber(t, u, m, t.syms[s]))
    ensures s !in MinSet(t, u, m)
  {
    MinLineIff(t, u, m, s);
    var d := t.syms[s];
    if WriteIn(m, s) {
      if d.kind.Logical() { LogicalValue(t, u, m, s); }
      else if d.kind.Text? { StringValue(t, u, m, s); }
      else { NumberByDefault(t, u, m, s); }
    }
  }

  // ----- Setting values -----

  /** The value that set_value() takes from its argument, if that is one for the type */
  function Meaning(t: Tree, kind: Kind, value: UserVal): Option<UserVal> {
    match kind
    case Unknown => None
    case Bool =>
      if value == UText("y") || value == UTri(2) then Some(UTri(2))
      else if value == UText("n") || value == UTri(0) then Some(UTri(0))
      else None
    case Tristate =>
      if value == UText("y") then Some(UTri(2))
      else if value == UText("m") then Some(UTri(1))
      else if value == UText("n") then Some(UTri(0))
      else if value.UTri? then Some(value)
      else None
    case Text => if value.UText? then Some(value) else None
    case Int => if value.UText? && t.num.parse(value.text, 10).Some? then Some(value) else None
    case Hex =>
      if value.UText? && t.num.parse(value.text, 16).Some? && t.num.parse(value.text, 16).value >= 0
      then Some(value) else None
  }

  /** A value for the type becomes the user value of the symbol, and y also the selection of its choice; nothing else
      changes. Any other argument is refused. */
  lemma Assigned(t: Tree, u: Users, s: SymName, value: UserVal)
    requires s in t.syms
    ensures AssignSym(t, u, s, value) ==
      match Meaning(t, t.syms[s].kind, value)
      case None => (u, false)
      case Some(v) =>
        var c := t.syms[s].choice;
        (Users(u.sym[s := v], u.mode, if c.Some? && v == UTri(2) then u.sel[c.value := s] else u.sel), true)
  {
    ThreeTexts();
    assert ConstTri("y") == 2 && ConstTri("m") == 1 && ConstTri("n") == 0;
  }

  /** Choices take y and n, and m if they are of type tristate. */
  lemma AssignedMode(t: Tree, u: Users, c: ChoiceId, v: Tri)
    requires c in t.choices && t.choices[c].kind.Logical()
    ensures AssignMode(t, u, c, v) ==
      if v != 1 || t.choices[c].kind.Tristate? then (Users(u.sym, u.mode[c := v], u.sel), true) else (u, false)
  {
  }

  /** What has been set is what is read afterwards, if the symbol is visible: for a logical symbol that is not selected, for
      strings, and for numbers that are in their range. m counts as y. */
  lemma SetThenRead(t: Tree, u: Users, s: SymName, value: UserVal, m: Answers)
    requires s in t.syms && t.syms[s].choice.None? && Meaning(t, t.syms[s].kind, value).Some?
    requires AllValues(t, AssignSym(t, u, s, value).0, m) && Shown(m, s)
    ensures var u', d := AssignSym(t, u, s, value).0, t.syms[s];
      match Meaning(t, d.kind, value).value
      case UTri(v) => !On(t, u', m, d.revDep) ==> TextIn(m, s) == if v == 0 then "n" else "y"
      case UText(text) => d.kind.Text? || UserNumberCounts(t, u', m, s) ==> TextIn(m, s) == text
  {
    var u', d := AssignSym(t, u, s, value).0, t.syms[s];
    Assigned(t, u, s, value);
    if d.kind.Logical() { LogicalValue(t, u', m, s); }
    else if d.kind.Text? { StringValue(t, u', m, s); }
    else if UserNumberCounts(t, u', m, s) { UserNumber(t, u', m, s); }
  }

  /** Setting a visible symbol of a choice in y mode to y makes it y and all other symbols of the choice n. */
  lemma ChosenThenRead(t: Tree, u: Users, s: SymName, value: UserVal, m: Answers, other: SymName)
    requires s in t.syms && t.syms[s].choice.Some? && Meaning(t, t.syms[s].kind, value) == Some(UTri(2))
    requires AllValues(t, AssignSym(t, u, s, value).0, m) && Shown(m, s)
    requires Val(t, AssignSym(t, u, s, value).0, m, Mode(t.syms[s].choice.value)) == 2
    requires other in t.syms && t.syms[other].choice == t.syms[s].choice
    ensures TextIn(m, other) == if other == s then "y" else "n"
  {
    var u' := AssignSym(t, u, s, value).0;
    Assigned(t, u, s, value);
    assert SaneSym(t, s);
    SelectionOf(t, u', m, t.syms[s].choice.value);
    ChoiceSymValue(t, u', m, other);
  }

  // ----- Whose values these are -----

  /** The values from scratch make such a record, so all laws hold of them. */
  lemma EvaluatedRecord(t: Tree, rank: Query -> nat, u: Users)
    requires Setting(t, rank, u)
    ensures AllValues(t, u, Values(t, rank, u))
  {
    ValuesConsistent(t, rank, u);
  }

  /** And in whatever state the program is, all it has cached is in that record. */
  lemma CachedRecord(k: Kconfig, q: Query)
    requires k.Valid() && q in k.cache
    ensures Setting(k.t, k.rank, k.users) && q in Values(k.t, k.rank, k.users)
    ensures k.cache[q] == Values(k.t, k.rank, k.users)[q]
  {
    k.Coherent(q);
  }
}
