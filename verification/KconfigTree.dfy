/** The finalised configuration tree of kconfiglib and the meaning of its values, with modules off.

    Every value of the system is the answer to a `Query`: the visibility of an item, the tristate or
    string value of a symbol, or the selection of a choice. `Answer` gives the answer to one query from
    the answers recorded in a map `m`. It reads only answers that the program reads too, with the same
    short-circuits in expressions, and fails if one it needs is not recorded. The map is either the cache
    of the running program or, for `Eval`, the answers computed from scratch. */
module KconfigTree {
  import opened Wrappers

  /** n, m and y */
  type Tri = v: int | 0 <= v <= 2

  datatype Kind = Unknown | Bool | Tristate | Text | Int | Hex {
    predicate Logical() { Bool? || Tristate? }
    predicate Numeric() { Int? || Hex? }
    function Base(): nat { if Hex? then 16 else if Int? then 10 else 0 }
  }

  datatype RelOp = Eq | Ne | Lt | Le | Gt | Ge

  type SymName = string
  type ChoiceId = nat

  /** A symbol reference or a constant (quoted) symbol; n, m and y are constants. */
  datatype Leaf = Sym(name: SymName) | Const(text: string)

  datatype Expr =
    | Ref(leaf: Leaf)
    | Mode(choice: ChoiceId)
    | And(l: Expr, r: Expr)
    | Or(l: Expr, r: Expr)
    | Not(e: Expr)
    | Rel(op: RelOp, left: Leaf, right: Leaf)

  const N: Expr := Ref(Const("n"))
  const Y: Expr := Ref(Const("y"))

  datatype Default = Default(value: Expr, cond: Expr)
  datatype Range = Range(low: Leaf, high: Leaf, cond: Expr)
  datatype ChoiceDefault = ChoiceDefault(sym: SymName, cond: Expr)

  /** A defined symbol. `prompts` holds the conditions of the prompts of its menu nodes, in order;
      `noWrite` is set for `option env` and `option defconfig_list` symbols. */
  datatype SymDef = SymDef(
    kind: Kind,
    prompts: seq<Expr>,
    defaults: seq<Default>,
    ranges: seq<Range>,
    revDep: Expr,
    weakRevDep: Expr,
    directDep: Expr,
    choice: Option<ChoiceId>,
    noWrite: bool)

  datatype ChoiceDef = ChoiceDef(
    kind: Kind,
    optional: bool,
    prompts: seq<Expr>,
    defaults: seq<ChoiceDefault>,
    syms: seq<SymName>)

  /** Python's `int(s, base)` (None for ValueError) and `str`/`hex`, which are not part of the program. */
  datatype Numerals = Numerals(parse: (string, nat) -> Option<int>, show: (int, Kind) -> string)

  datatype Tree = Tree(syms: map<SymName, SymDef>, choices: map<ChoiceId, ChoiceDef>, num: Numerals)

  datatype UserVal = UTri(tri: Tri) | UText(text: string)

  /** The values assigned by the user: symbol values, choice modes and choice selections. */
  datatype Users = Users(sym: map<SymName, UserVal>, mode: map<ChoiceId, Tri>, sel: map<ChoiceId, SymName>)

  datatype Item = SymItem(name: SymName) | ChoiceItem(id: ChoiceId)

  datatype Query =
    | Vis(item: Item)
    | TriVal(sym: SymName)
    | StrVal(sym: SymName)
    | Sel(choice: ChoiceId)

  /** `write` is the program's _write_to_conf flag, determined along with the value. */
  datatype Value = TriV(tri: Tri, write: bool) | StrV(text: string, write: bool) | SelV(sel: Option<SymName>)

  type Answers = map<Query, Value>

  function ItemOf(q: Query): Item {
    match q
    case Vis(x) => x
    case TriVal(s) => SymItem(s)
    case StrVal(s) => SymItem(s)
    case Sel(c) => ChoiceItem(c)
  }

  /** The queries whose answer can vary. All other values (undefined and constant symbols, the tristate
      value of a non-logical symbol, the string value of a typeless one) are fixed. */
  predicate Varies(t: Tree, q: Query) {
    match q
    case Vis(SymItem(s)) => s in t.syms
    case Vis(ChoiceItem(c)) => c in t.choices
    case TriVal(s) => s in t.syms && t.syms[s].kind.Logical()
    case StrVal(s) => s in t.syms && t.syms[s].kind != Unknown
    case Sel(c) => c in t.choices
  }

  predicate WellTyped(q: Query, v: Value) {
    match q
    case Vis(_) => v.TriV?
    case TriVal(_) => v.TriV?
    case StrVal(_) => v.StrV?
    case Sel(_) => v.SelV?
  }

  function Min(a: Tri, b: Tri): Tri { if a <= b then a else b }
  function Max(a: Tri, b: Tri): Tri { if a <= b then b else a }

  function TriText(v: Tri): string { if v == 0 then "n" else if v == 1 then "m" else "y" }

  /** m is promoted to y: without modules every logical item has type bool. */
  function Promote(v: Tri): Tri { if v == 1 then 2 else v }

  function UserTri(u: Users, s: SymName): Option<Tri> {
    if s in u.sym && u.sym[s].UTri? then Some(u.sym[s].tri) else None
  }

  function UserText(u: Users, s: SymName): Option<string> {
    if s in u.sym && u.sym[s].UText? then Some(u.sym[s].text) else None
  }

  // ----- Reading recorded answers -----

  function AskTri(m: Answers, q: Query): Option<Tri> {
    if q in m && m[q].TriV? then Some(m[q].tri) else None
  }

  function AskTriWrite(m: Answers, q: Query): Option<bool> {
    if q in m && m[q].TriV? then Some(m[q].write) else None
  }

  function AskText(m: Answers, q: Query): Option<string> {
    if q in m && m[q].StrV? then Some(m[q].text) else None
  }

  function AskSel(m: Answers, q: Query): Option<Option<SymName>> {
    if q in m && m[q].SelV? then Some(m[q].sel) else None
  }

  function ConstTri(text: string): Tri { if text == "y" then 2 else if text == "m" then 1 else 0 }

  function LeafTri(t: Tree, m: Answers, leaf: Leaf): Option<Tri> {
    match leaf
    case Const(text) => Some(ConstTri(text))
    case Sym(s) => if Varies(t, TriVal(s)) then AskTri(m, TriVal(s)) else Some(0)
  }

  function LeafKind(t: Tree, leaf: Leaf): Kind {
    match leaf
    case Const(text) => if text in ["n", "m", "y"] then Tristate else Unknown
    case Sym(s) => if s in t.syms then t.syms[s].kind else Unknown
  }

  /** The string value of a leaf: undefined and constant symbols have their name as their value. */
  function LeafText(t: Tree, m: Answers, leaf: Leaf): Option<string> {
    match leaf
    case Const(text) => Some(text)
    case Sym(s) =>
      if !Varies(t, StrVal(s)) then Some(s)
      else if t.syms[s].kind.Logical() then
        var v :- AskTri(m, TriVal(s));
        Some(TriText(v))
      else AskText(m, StrVal(s))
  }

  function SymVis(t: Tree, m: Answers, s: SymName): Option<Tri> {
    if s in t.syms then AskTri(m, Vis(SymItem(s))) else Some(0)
  }

  /** Choice.tri_value, which is not cached itself. */
  function ChoiceMode(d: ChoiceDef, user: Option<Tri>, vis: Tri): Tri {
    var low: Tri := if d.optional then 0 else 1;
    var wanted: Tri := if user.Some? then Max(low, user.value) else low;
    var v := Min(wanted, vis);
    if d.kind.Logical() then Promote(v) else v
  }

  function UserMode(u: Users, c: ChoiceId): Option<Tri> {
    if c in u.mode then Some(u.mode[c]) else None
  }

  function ModeVal(t: Tree, u: Users, m: Answers, c: ChoiceId): Option<Tri> {
    if c in t.choices then
      var vis :- AskTri(m, Vis(ChoiceItem(c)));
      Some(ChoiceMode(t.choices[c], UserMode(u, c), vis))
    else Some(0)
  }

  // ----- Expressions -----

  function StrCmp(a: string, b: string): int {
    if a == [] && b == [] then 0
    else if a == [] then -1
    else if b == [] then 1
    else if a[0] != b[0] then (if a[0] < b[0] then -1 else 1)
    else StrCmp(a[1..], b[1..])
  }

  function LeafNum(t: Tree, kind: Kind, text: string): Option<int> {
    if kind.Logical() then Some(ConstTri(text)) else t.num.parse(text, kind.Base())
  }

  function Comparison(t: Tree, ka: Kind, a: string, kb: Kind, b: string): int {
    if ka.Text? && kb.Text? then StrCmp(a, b)
    else
      var x, y := LeafNum(t, ka, a), LeafNum(t, kb, b);
      if x.Some? && y.Some? then x.value - y.value else StrCmp(a, b)
  }

  function RelTri(op: RelOp, comp: int): Tri {
    var holds := match op
      case Eq => comp == 0
      case Ne => comp != 0
      case Lt => comp < 0
      case Le => comp <= 0
      case Gt => comp > 0
      case Ge => comp >= 0;
    if holds then 2 else 0
  }

  /** expr_value(), with its short-circuits */
  function ExprVal(t: Tree, u: Users, m: Answers, e: Expr): Option<Tri> {
    match e
    case Ref(leaf) => LeafTri(t, m, leaf)
    case Mode(c) => ModeVal(t, u, m, c)
    case And(l, r) =>
      var v :- ExprVal(t, u, m, l);
      if v == 0 then Some(0) else
      var w :- ExprVal(t, u, m, r);
      Some(Min(v, w))
    case Or(l, r) =>
      var v :- ExprVal(t, u, m, l);
      if v == 2 then Some(2) else
      var w :- ExprVal(t, u, m, r);
      Some(Max(v, w))
    case Not(x) =>
      var v :- ExprVal(t, u, m, x);
      Some(2 - v)
    case Rel(op, a, b) =>
      var x :- LeafText(t, m, a);
      var y :- LeafText(t, m, b);
      Some(RelTri(op, Comparison(t, LeafKind(t, a), x, LeafKind(t, b), y)))
  }

  // ----- Properties -----

  function MaxPrompt(t: Tree, u: Users, m: Answers, prompts: seq<Expr>): Option<Tri> {
    if prompts == [] then Some(0) else
    var v :- ExprVal(t, u, m, prompts[0]);
    var w :- MaxPrompt(t, u, m, prompts[1..]);
    Some(Max(v, w))
  }

  /** The value given by the first default whose condition is not n, or n */
  function FirstDefault(t: Tree, u: Users, m: Answers, ds: seq<Default>): Option<Tri> {
    if ds == [] then Some(0) else
    var c :- ExprVal(t, u, m, ds[0].cond);
    if c == 0 then FirstDefault(t, u, m, ds[1..]) else
    var v :- ExprVal(t, u, m, ds[0].value);
    Some(Min(v, c))
  }

  /** The string value of the first default whose condition is not n, if there is one */
  function FirstText(t: Tree, u: Users, m: Answers, ds: seq<Default>): Option<Option<string>> {
    if ds == [] then Some(None) else
    var c :- ExprVal(t, u, m, ds[0].cond);
    if c == 0 then FirstText(t, u, m, ds[1..])
    else if ds[0].value.Ref? then
      var s :- LeafText(t, m, ds[0].value.leaf);
      Some(Some(s))
    else Some(Some(""))
  }

  function Bound(t: Tree, kind: Kind, text: string): int {
    var n := t.num.parse(text, kind.Base());
    if n.Some? then n.value else 0
  }

  function ActiveRange(t: Tree, u: Users, m: Answers, kind: Kind, rs: seq<Range>): Option<Option<(int, int)>> {
    if rs == [] then Some(None) else
    var c :- ExprVal(t, u, m, rs[0].cond);
    if c == 0 then ActiveRange(t, u, m, kind, rs[1..]) else
    var low :- LeafText(t, m, rs[0].low);
    var high :- LeafText(t, m, rs[0].high);
    Some(Some((Bound(t, kind, low), Bound(t, kind, high))))
  }

  function FirstVisible(t: Tree, m: Answers, syms: seq<SymName>): Option<Option<SymName>> {
    if syms == [] then Some(None) else
    var v :- SymVis(t, m, syms[0]);
    if v != 0 then Some(Some(syms[0])) else FirstVisible(t, m, syms[1..])
  }

  function FirstChoiceDefault(t: Tree, u: Users, m: Answers, ds: seq<ChoiceDefault>): Option<Option<SymName>> {
    if ds == [] then Some(None) else
    var c :- ExprVal(t, u, m, ds[0].cond);
    if c == 0 then FirstChoiceDefault(t, u, m, ds[1..]) else
    var v :- SymVis(t, m, ds[0].sym);
    if v != 0 then Some(Some(ds[0].sym)) else FirstChoiceDefault(t, u, m, ds[1..])
  }

  // ----- Items -----

  /** A choice symbol of another type than the choice is visible only in y mode, and an m-visible
      tristate choice symbol is hidden in y mode. */
  function SymVisibility(t: Tree, u: Users, m: Answers, d: SymDef): Option<Tri> {
    var v :- MaxPrompt(t, u, m, d.prompts);
    if v == 0 || d.choice.None? then Some(Promote(v)) else
    var c := d.choice.value;
    var alien := c in t.choices && t.choices[c].kind.Tristate? && !d.kind.Tristate?;
    if alien then
      var mode :- ModeVal(t, u, m, c);
      Some(if mode != 2 then 0 else Promote(v))
    else if d.kind.Tristate? && v == 1 then
      var mode :- ModeVal(t, u, m, c);
      Some(if mode == 2 then 0 else Promote(v))
    else Some(Promote(v))
  }

  /** The value and write flag a symbol outside choices gets from its defaults and implies. Implies count
      only if the direct dependencies are met. */
  function DefaultTri(t: Tree, u: Users, m: Answers, d: SymDef, vis: Tri): Option<(Tri, bool)> {
    var v :- FirstDefault(t, u, m, d.defaults);
    var weak :- ExprVal(t, u, m, d.weakRevDep);
    if weak == 0 then Some((v, vis != 0 || v != 0)) else
    var direct :- ExprVal(t, u, m, d.directDep);
    Some(if direct == 0 then (v, vis != 0 || v != 0) else (Max(weak, v), true))
  }

  /** The user value if the symbol is visible, else its defaults */
  function BaseTri(t: Tree, u: Users, m: Answers, s: SymName, d: SymDef, vis: Tri): Option<(Tri, bool)> {
    var user := UserTri(u, s);
    if vis != 0 && user.Some? then Some((Min(user.value, vis), true)) else DefaultTri(t, u, m, d, vis)
  }

  /** The value and write flag of a logical symbol outside choices, raised by the symbols that select it */
  function PlainTri(t: Tree, u: Users, m: Answers, s: SymName, d: SymDef): Option<Value> {
    var vis :- AskTri(m, Vis(SymItem(s)));
    var base :- BaseTri(t, u, m, s, d, vis);
    var rev :- ExprVal(t, u, m, d.revDep);
    Some(TriV(Promote(Max(rev, base.0)), base.1 || rev != 0))
  }

  /** The value and write flag of a choice symbol */
  function ChoiceSymTri(t: Tree, u: Users, m: Answers, s: SymName, c: ChoiceId): Option<Value> {
    var vis :- AskTri(m, Vis(SymItem(s)));
    if vis == 2 then
      var sel :- AskSel(m, Sel(c));
      Some(TriV(if sel == Some(s) then 2 else 0, true))
    else
      var user := UserTri(u, s);
      Some(TriV(if vis != 0 && user.Some? && user.value != 0 then 1 else 0, vis != 0))
  }

  /** Whether the user value of an int or hex symbol is used: it is neither empty nor out of range */
  predicate UserFits(t: Tree, kind: Kind, vis: Tri, user: Option<string>, range: Option<(int, int)>) {
    && vis != 0
    && user.Some?
    && user.value != ""
    && var n := Bound(t, kind, user.value);
       range.Some? ==> range.value.0 <= n <= range.value.1
  }

  /** The default of an int or hex symbol, rewritten to a standard form if it is clamped */
  function Clamp(t: Tree, kind: Kind, default: Option<string>, range: Option<(int, int)>): string {
    var text := if default.Some? then default.value else "";
    var n := if default.Some? then Bound(t, kind, text) else 0;
    if range.None? || range.value.0 <= n <= range.value.1 then text
    else t.num.show(if n < range.value.0 then range.value.0 else range.value.1, kind)
  }

  function NumericStr(t: Tree, u: Users, m: Answers, s: SymName, d: SymDef): Option<Value> {
    var vis :- AskTri(m, Vis(SymItem(s)));
    var range :- ActiveRange(t, u, m, d.kind, d.ranges);
    var user := UserText(u, s);
    if UserFits(t, d.kind, vis, user, range) then Some(StrV(user.value, !d.noWrite)) else
    var default :- FirstText(t, u, m, d.defaults);
    Some(StrV(Clamp(t, d.kind, default, range), (vis != 0 || default.Some?) && !d.noWrite))
  }

  function TextStr(t: Tree, u: Users, m: Answers, s: SymName, d: SymDef): Option<Value> {
    var vis :- AskTri(m, Vis(SymItem(s)));
    var user := UserText(u, s);
    if vis != 0 && user.Some? then Some(StrV(user.value, !d.noWrite)) else
    var default :- FirstText(t, u, m, d.defaults);
    Some(StrV(if default.Some? then default.value else "", (vis != 0 || default.Some?) && !d.noWrite))
  }

  function StrAnswer(t: Tree, u: Users, m: Answers, s: SymName, d: SymDef): Option<Value> {
    if d.kind.Logical() then
      var v :- AskTri(m, TriVal(s));
      var w :- AskTriWrite(m, TriVal(s));
      Some(StrV(TriText(v), w))
    else if d.kind.Numeric() then NumericStr(t, u, m, s, d)
    else TextStr(t, u, m, s, d)
  }

  /** Choice._selection_from_defaults() */
  function DefaultSelection(t: Tree, u: Users, m: Answers, d: ChoiceDef): Option<Option<SymName>> {
    var first :- FirstChoiceDefault(t, u, m, d.defaults);
    if first.Some? then Some(first) else FirstVisible(t, m, d.syms)
  }

  function Selection(t: Tree, u: Users, m: Answers, c: ChoiceId): Option<Option<SymName>>
    requires c in t.choices
  {
    var mode :- ModeVal(t, u, m, c);
    if mode != 2 then Some(None)
    else if c in u.sel then
      var v :- SymVis(t, m, u.sel[c]);
      if v != 0 then Some(Some(u.sel[c])) else DefaultSelection(t, u, m, t.choices[c])
    else DefaultSelection(t, u, m, t.choices[c])
  }

  /** The answer to a query, from the recorded answers it reads */
  function Answer(t: Tree, u: Users, m: Answers, q: Query): (v: Option<Value>)
    ensures v.Some? ==> WellTyped(q, v.value)
  {
    if !Varies(t, q) then None else
    match q
    case Vis(SymItem(s)) =>
      var v :- SymVisibility(t, u, m, t.syms[s]);
      Some(TriV(v, false))
    case Vis(ChoiceItem(c)) =>
      var v :- MaxPrompt(t, u, m, t.choices[c].prompts);
      Some(TriV(Promote(v), false))
    case TriVal(s) =>
      var d := t.syms[s];
      if d.choice.Some? then ChoiceSymTri(t, u, m, s, d.choice.value) else PlainTri(t, u, m, s, d)
    case StrVal(s) => StrAnswer(t, u, m, s, t.syms[s])
    case Sel(c) =>
      var v :- Selection(t, u, m, c);
      Some(SelV(v))
  }
}
