/** Loading and writing .config files: the file formats, the program's loops, and the reload theorems. */
module KconfigFile {
  import opened Wrappers
  import opened KconfigTree
  import opened KconfigEval
  import opened KconfigCache
  import opened KconfigReload
  import opened ConfigText

  // ----- _load_config() on user values -----

  /** The user values and the items marked _was_set */
  datatype LoadState = LoadState(users: Users, was: set<Item>)

  function ModeTo(t: Tree, st: LoadState, c: ChoiceId, v: Tri): LoadState
    requires c in t.choices
  {
    var (u, ok) := AssignMode(t, st.users, c, v);
    LoadState(u, if ok then st.was + {ChoiceItem(c)} else st.was)
  }

  function SymTo(t: Tree, st: LoadState, s: SymName, v: UserVal): LoadState
    requires s in t.syms
  {
    var (u, ok) := AssignSym(t, st.users, s, v);
    LoadState(u, if ok then st.was + SetItems(t, s, v) else st.was)
  }

  /** Only the first character of a bool or tristate value counts. */
  predicate LogicalText(kind: Kind, val: string) {
    val != [] && (val[0] == 'y' || val[0] == 'n' || (kind.Tristate? && val[0] == 'm'))
  }

  function LoadAssignment(t: Tree, st: LoadState, a: Assignment): LoadState {
    if a.name !in t.syms then st else
    var s, d := a.name, t.syms[a.name];
    match a
    case Unset(_) => if d.kind.Logical() then SymTo(t, st, s, UText("n")) else st
    case Set(_, val) =>
      if d.kind.Logical() then
        if !LogicalText(d.kind, val) then st else
        var v := val[..1];
        // A choice's mode is inferred from the values assigned to its symbols.
        var st1 := if d.choice.Some? && d.choice.value in t.choices && v != "n"
                   then ModeTo(t, st, d.choice.value, ConstTri(v)) else st;
        SymTo(t, st1, s, UText(v))
      else if d.kind.Text? then
        var body := MatchString(val);
        if body.None? then st else SymTo(t, st, s, UText(Unescape(body.value)))
      else SymTo(t, st, s, UText(val))
  }

  function LoadLine(t: Tree, st: LoadState, line: string): LoadState {
    var a := ParseLine(line);
    if a.Some? then LoadAssignment(t, st, a.value) else st
  }

  function LoadLines(t: Tree, st: LoadState, lines: seq<string>): LoadState {
    if lines == [] then st else LoadLine(t, LoadLines(t, st, lines[..|lines| - 1]), lines[|lines| - 1])
  }

  /** Replacing a configuration unsets every symbol and choice that did not get set. */
  function Finish(st: LoadState): Users {
    Users(map s | s in st.users.sym && SymItem(s) in st.was :: st.users.sym[s],
          map c | c in st.users.mode && ChoiceItem(c) in st.was :: st.users.mode[c],
          map c | c in st.users.sel && ChoiceItem(c) in st.was :: st.users.sel[c])
  }

  function LoadFile(t: Tree, u: Users, file: string): Users {
    Finish(LoadLines(t, LoadState(u, {}), SplitLines(file)))
  }

  // ----- config_string -----

  function ConfigLine(kind: Kind, name: SymName, text: string): string {
    if kind.Logical() then if text == "n" then UnsetLine(name) else SetLine(name, text)
    else if kind.Numeric() then SetLine(name, text)
    else SetLine(name, Quote(text))
  }

  /** A line of a written file: the line of a symbol, or a comment or blank line */
  datatype Line = SymbolLine(s: SymName) | Remark(text: string)

  function LineText(t: Tree, m: Answers, l: Line): string {
    match l
    case SymbolLine(s) => if s in t.syms then ConfigLine(t.syms[s].kind, s, TextIn(m, s)) else ""
    case Remark(text) => text
  }

  function Texts(t: Tree, m: Answers, ls: seq<Line>): seq<string> {
    if ls == [] then [] else Texts(t, m, ls[..|ls| - 1]) + [LineText(t, m, ls[|ls| - 1])]
  }

  function FileText(t: Tree, m: Answers, ls: seq<Line>): string { JoinLines(Texts(t, m, ls)) }

  function Entries(ls: seq<Line>): set<SymName> { set l | l in ls && l.SymbolLine? :: l.s }

  predicate ProperRemarks(ls: seq<Line>) { forall l :: l in ls && l.Remark? ==> Comment(l.text) && OneLine(l.text) }

  /** The entries of the symbols `w`, in definition order */
  function EntriesOf(order: seq<SymName>, w: set<SymName>): seq<Line> {
    if order == [] then [] else
    var rest, s := order[..|order| - 1], order[|order| - 1];
    EntriesOf(rest, w) + if s in w then [SymbolLine(s)] else []
  }

  lemma EntriesOfStep(order: seq<SymName>, w: set<SymName>, i: nat)
    requires i < |order|
    ensures EntriesOf(order[..i + 1], w) == EntriesOf(order[..i], w) + if order[i] in w then [SymbolLine(order[i])] else []
  {
    assert order[..i + 1][..i] == order[..i];
  }

  /** What a file can carry: proper names, and values without line breaks */
  predicate Writable(t: Tree, m: Answers) {
    forall s :: s in t.syms && WriteIn(m, s) ==> ProperName(s) && OneLine(TextIn(m, s))
  }

  // ----- Reading back one line -----

  /** Loading the value `text` of the symbol `s` */
  function LoadValue(t: Tree, st: LoadState, s: SymName, text: string): LoadState
    requires s in t.syms
  {
    var d := t.syms[s];
    var st1 := if d.choice.Some? && d.choice.value in t.choices && text == "y" then ModeTo(t, st, d.choice.value, 2) else st;
    SymTo(t, st1, s, ValueOf(d.kind, text))
  }

  lemma YesText()
    ensures "y"[..1] == "y" && "y" != "n" && "y"[0] == 'y' && RStrip("y") == "y" && ConstTri("y") == 2
  {
    assert "n"[0] == 'n' && "y"[..1][0] == 'y';
  }

  lemma YesAssigned(t: Tree, st: LoadState, s: SymName)
    requires s in t.syms && t.syms[s].kind.Logical()
    ensures LoadAssignment(t, st, Set(s, "y")) == LoadValue(t, st, s, "y")
  {
    YesText();
    assert LogicalText(t.syms[s].kind, "y");
    assert Normalise(t.syms[s].kind, UText("y")) == UTri(2) == ValueOf(t.syms[s].kind, "y");
  }

  lemma YesLineLoads(t: Tree, st: LoadState, s: SymName)
    requires s in t.syms && ProperName(s) && t.syms[s].kind.Logical()
    ensures LoadLine(t, st, SetLine(s, "y")) == LoadValue(t, st, s, "y")
  {
    YesText();
    SetLineParsed(s, "y");
    YesAssigned(t, st, s);
  }

  lemma NoLineLoads(t: Tree, st: LoadState, s: SymName)
    requires s in t.syms && ProperName(s) && t.syms[s].kind.Logical()
    ensures LoadLine(t, st, UnsetLine(s)) == LoadValue(t, st, s, "n")
  {
    UnsetLineParsed(s);
    assert "n"[0] != "y"[0];
    assert LoadLine(t, st, UnsetLine(s)) == LoadAssignment(t, st, Unset(s));
  }

  lemma TextLineLoads(t: Tree, st: LoadState, s: SymName, text: string)
    requires s in t.syms && ProperName(s) && t.syms[s].choice.None? && t.syms[s].kind.Text?
    ensures LoadLine(t, st, SetLine(s, Quote(text))) == LoadValue(t, st, s, text)
  {
    QuotedLineParsed(s, text);
    QuotedValue(text);
    assert LoadLine(t, st, SetLine(s, Quote(text))) == LoadAssignment(t, st, Set(s, Quote(text)));
  }

  lemma LineLoads(t: Tree, st: LoadState, s: SymName, text: string)
    requires s in t.syms && ProperName(s) && (t.syms[s].choice.Some? ==> t.syms[s].kind.Logical())
    requires var k := t.syms[s].kind; k != Unknown && (k.Logical() ==> text in {"n", "y"})
    ensures LoadLine(t, st, ConfigLine(t.syms[s].kind, s, text)) ==
      LoadValue(t, st, s, if t.syms[s].kind.Numeric() then RStrip(text) else text)
  {
    var k := t.syms[s].kind;
    if k.Logical() {
      YesLineLoads(t, st, s);
      NoLineLoads(t, st, s);
    } else if k.Numeric() {
      SetLineParsed(s, text);
      assert LoadLine(t, st, SetLine(s, text)) == LoadAssignment(t, st, Set(s, RStrip(text)));
    } else {
      TextLineLoads(t, st, s, text);
    }
  }

  // ----- Reading back all lines -----

  /** The state after loading the lines of the symbols `w` */
  ghost predicate Progress(t: Tree, m: Answers, w: set<SymName>, st: LoadState) {
    SymsLoaded(t, m, w, st) && ChoicesLoaded(t, m, w, st)
  }

  ghost predicate SymsLoaded(t: Tree, m: Answers, w: set<SymName>, st: LoadState) {
    && (forall s :: SymItem(s) in st.was <==> s in w && s in t.syms && Accepted(t, m, s))
    && (forall s :: SymItem(s) in st.was ==>
          s in st.users.sym && st.users.sym[s] == ValueOf(t.syms[s].kind, ReadBack(t, m, s)))
  }

  ghost predicate ChoicesLoaded(t: Tree, m: Answers, w: set<SymName>, st: LoadState) {
    && (forall c :: ChoiceItem(c) in st.was <==> exists s :: WrittenYes(t, m, w, c, s))
    && (forall c :: ChoiceItem(c) in st.was ==> c in st.users.mode && st.users.mode[c] == 2)
    && (forall c :: ChoiceItem(c) in st.was ==> c in st.users.sel && WrittenYes(t, m, w, c, st.users.sel[c]))
  }

  lemma SymsLoadedStep(t: Tree, m: Answers, w: set<SymName>, st: LoadState, s: SymName)
    requires s in t.syms && SymsLoaded(t, m, w, st)
    ensures SymsLoaded(t, m, w + {s}, LoadValue(t, st, s, ReadBack(t, m, s)))
  {
  }

  lemma ChoiceLoadedStep(t: Tree, m: Answers, w: set<SymName>, st: LoadState, s: SymName)
    requires Sane(t) && s in t.syms && ChoicesLoaded(t, m, w, st)
    ensures ChoicesLoaded(t, m, w + {s}, LoadValue(t, st, s, ReadBack(t, m, s)))
  {
    var d, text, w' := t.syms[s], ReadBack(t, m, s), w + {s};
    assert SaneSym(t, s);
    var st' := LoadValue(t, st, s, text);
    assert forall c, x ::
      WrittenYes(t, m, w', c, x) <==> WrittenYes(t, m, w, c, x) || (x == s && WrittenYes(t, m, w', c, s));
    if d.choice.Some? && text == "y" {
      var c := d.choice.value;
      assert SaneChoice(t, c) && ValueOf(d.kind, text) == UTri(2);
      assert WrittenYes(t, m, w', c, s) && st'.was == st.was + {SymItem(s), ChoiceItem(c)};
      assert st'.users.sel == st.users.sel[c := s] && st'.users.mode == st.users.mode[c := 2];
    }
  }

  lemma ProgressStep(t: Tree, u: Users, m: Answers, w: set<SymName>, st: LoadState, s: SymName)
    requires AllValues(t, u, m) && s in t.syms && Progress(t, m, w, st)
    ensures Progress(t, m, w + {s}, LoadValue(t, st, s, ReadBack(t, m, s)))
  {
    SymsLoadedStep(t, m, w, st, s);
    ChoiceLoadedStep(t, m, w, st, s);
  }

  lemma WrittenLineLoads(t: Tree, u: Users, m: Answers, st: LoadState, s: SymName)
    requires AllValues(t, u, m) && s in t.syms && WriteIn(m, s) && Writable(t, m)
    ensures LoadLine(t, st, ConfigLine(t.syms[s].kind, s, TextIn(m, s))) == LoadValue(t, st, s, ReadBack(t, m, s))
  {
    assert Varies(t, StrVal(s)) && SaneSym(t, s);
    TwoValued(t, u, m);
    LineLoads(t, st, s, TextIn(m, s));
  }

  // ----- Comments that reset symbols -----

  /** The logical symbol that a line resets to n, if it reads as the line of an unset symbol */
  function Unsets(t: Tree, line: string): Option<SymName> {
    match ParseLine(line)
    case Some(Unset(s)) => if s in t.syms && t.syms[s].kind.Logical() then Some(s) else None
    case _ => None
  }

  /** The symbols whose last line resets them without being theirs */
  function Silenced(t: Tree, ls: seq<Line>): set<SymName> {
    if ls == [] then {} else
    var before := Silenced(t, ls[..|ls| - 1]);
    match ls[|ls| - 1]
    case SymbolLine(s) => before - {s}
    case Remark(text) => if Unsets(t, text).Some? then before + {Unsets(t, text).value} else before
  }

  lemma {:induction false} SilencedLogical(t: Tree, ls: seq<Line>)
    ensures forall s :: s in Silenced(t, ls) ==> s in t.syms && t.syms[s].kind.Logical()
  {
    if ls != [] { SilencedLogical(t, ls[..|ls| - 1]); }
  }

  function WithN(sym: map<SymName, UserVal>, n: set<SymName>): map<SymName, UserVal> { sym + (map s | s in n :: UTri(0)) }

  /** User values in which the symbols `n` are set to n */
  function Overridden(u: Users, n: set<SymName>): Users { u.(sym := WithN(u.sym, n)) }

  function Muted(st: LoadState, n: set<SymName>): LoadState {
    LoadState(Overridden(st.users, n), st.was + (set s | s in n :: SymItem(s)))
  }

  lemma RemarkLoads(t: Tree, st: LoadState, n: set<SymName>, text: string)
    requires Comment(text)
    ensures LoadLine(t, Muted(st, n), text) ==
      Muted(st, if Unsets(t, text).Some? then n + {Unsets(t, text).value} else n)
  {
    CommentSetsNothing(text);
    if Unsets(t, text).Some? {
      var s := Unsets(t, text).value;
      MuteOne(t, st, n, s);
    }
  }

  lemma MuteOne(t: Tree, st: LoadState, n: set<SymName>, s: SymName)
    requires s in t.syms && t.syms[s].kind.Logical()
    ensures SymTo(t, Muted(st, n), s, UText("n")) == Muted(st, n + {s})
  {
    assert "n"[0] != "y"[0] && "n"[0] != "m"[0];
    assert Normalise(t.syms[s].kind, UText("n")) == UTri(0);
    WithOneMore(st.users.sym, n, s);
  }

  lemma WithOneMore(sym: map<SymName, UserVal>, n: set<SymName>, s: SymName)
    ensures WithN(sym, n)[s := UTri(0)] == WithN(sym, n + {s})
    ensures (set x | x in n + {s} :: SymItem(x)) == (set x | x in n :: SymItem(x)) + {SymItem(s)}
  {
  }

  lemma ModeToMuted(t: Tree, st: LoadState, n: set<SymName>, c: ChoiceId, v: Tri)
    requires c in t.choices
    ensures ModeTo(t, Muted(st, n), c, v) == Muted(ModeTo(t, st, c, v), n)
  {
  }

  lemma WithNUpdated(sym: map<SymName, UserVal>, n: set<SymName>, s: SymName, v: UserVal)
    ensures WithN(sym, n)[s := v] == WithN(sym[s := v], n - {s})
  {
  }

  lemma WasUpdated(was: set<Item>, n: set<SymName>, s: SymName, more: set<Item>)
    requires SymItem(s) in more
    ensures was + (set x | x in n :: SymItem(x)) + more == was + more + (set x | x in n - {s} :: SymItem(x))
  {
  }

  /** A symbol's own line ends its being reset. */
  lemma SymToMuted(t: Tree, st: LoadState, n: set<SymName>, s: SymName, v: UserVal)
    requires s in t.syms && (s in n ==> FitsKind(t, t.syms[s].kind, Normalise(t.syms[s].kind, v)))
    ensures SymTo(t, Muted(st, n), s, v) == Muted(SymTo(t, st, s, v), n - {s})
  {
    WithNUpdated(st.users.sym, n, s, Normalise(t.syms[s].kind, v));
    WasUpdated(st.was, n, s, SetItems(t, s, v));
    if s !in n { assert n - {s} == n; }
  }

  lemma EntryLoads(t: Tree, u: Users, m: Answers, st: LoadState, n: set<SymName>, s: SymName)
    requires AllValues(t, u, m) && s in t.syms && WriteIn(m, s) && Writable(t, m)
    requires forall x :: x in n ==> x in t.syms && t.syms[x].kind.Logical()
    ensures LoadLine(t, Muted(st, n), LineText(t, m, SymbolLine(s))) == Muted(LoadValue(t, st, s, ReadBack(t, m, s)), n - {s})
  {
    var d, text := t.syms[s], ReadBack(t, m, s);
    WrittenLineLoads(t, u, m, Muted(st, n), s);
    TwoValued(t, u, m);
    var st1 := st;
    if d.choice.Some? && d.choice.value in t.choices && text == "y" {
      ModeToMuted(t, st, n, d.choice.value, 2);
      st1 := ModeTo(t, st, d.choice.value, 2);
    }
    SymToMuted(t, st1, n, s, ValueOf(d.kind, text));
  }

  /** The state that the entries alone lead to */
  function EntryState(t: Tree, u: Users, m: Answers, ls: seq<Line>): LoadState {
    if ls == [] then LoadState(u, {}) else
    var before := EntryState(t, u, m, ls[..|ls| - 1]);
    match ls[|ls| - 1]
    case SymbolLine(s) => if s in t.syms then LoadValue(t, before, s, ReadBack(t, m, s)) else before
    case Remark(_) => before
  }

  lemma EntriesStep(ls: seq<Line>)
    requires ls != []
    ensures var before, l := Entries(ls[..|ls| - 1]), ls[|ls| - 1]; Entries(ls) == if l.SymbolLine? then before + {l.s} else before
  {
    assert ls == ls[..|ls| - 1] + [ls[|ls| - 1]];
  }

  lemma NothingLoaded(t: Tree, u: Users, m: Answers)
    ensures Progress(t, m, {}, LoadState(u, {}))
  {
    assert forall c, s :: !WrittenYes(t, m, {}, c, s);
  }

  lemma {:induction false} EntriesProgress(t: Tree, u: Users, m: Answers, ls: seq<Line>)
    requires AllValues(t, u, m) && Entries(ls) <= FullSet(t, m)
    ensures Progress(t, m, Entries(ls), EntryState(t, u, m, ls))
  {
    if ls == [] {
      NothingLoaded(t, u, m);
    } else {
      var front, l := ls[..|ls| - 1], ls[|ls| - 1];
      EntriesStep(ls);
      EntriesProgress(t, u, m, front);
      if l.SymbolLine? { ProgressStep(t, u, m, Entries(front), EntryState(t, u, m, front), l.s); }
    }
  }

  /** Loading all lines differs from loading the entries in exactly the silenced symbols, which end up as n. */
  lemma {:induction false} LinesLoad(t: Tree, u: Users, m: Answers, ls: seq<Line>)
    requires AllValues(t, u, m) && Entries(ls) <= FullSet(t, m) && Writable(t, m) && ProperRemarks(ls)
    ensures LoadLines(t, LoadState(u, {}), Texts(t, m, ls)) == Muted(EntryState(t, u, m, ls), Silenced(t, ls))
  {
    if ls == [] {
      assert WithN(u.sym, {}) == u.sym;
    } else {
      var front, l := ls[..|ls| - 1], ls[|ls| - 1];
      EntriesStep(ls);
      LinesLoad(t, u, m, front);
      assert Texts(t, m, ls)[..|Texts(t, m, ls)| - 1] == Texts(t, m, front);
      var st, n := EntryState(t, u, m, front), Silenced(t, front);
      assert l in ls;
      if l.SymbolLine? {
        SilencedLogical(t, front);
        EntryLoads(t, u, m, st, n, l.s);
      } else {
        RemarkLoads(t, st, n, l.text);
      }
    }
  }

  lemma LineIsOneLine(t: Tree, u: Users, m: Answers, s: SymName)
    requires s in t.syms && WriteIn(m, s) && Writable(t, m)
    ensures OneLine(ConfigLine(t.syms[s].kind, s, TextIn(m, s)))
  {
    var text := TextIn(m, s);
    NameIsOneLine(s);
    LinesOfName(s);
    QuoteOneLine(text);
    SetLineOneLine(s, text);
    SetLineOneLine(s, Quote(text));
  }

  lemma NameIsOneLine(name: string)
    requires ProperName(name)
    ensures OneLine(name)
  {
  }

  lemma {:induction false} TextsAreLines(t: Tree, u: Users, m: Answers, ls: seq<Line>)
    requires Entries(ls) <= FullSet(t, m) && Writable(t, m) && ProperRemarks(ls)
    ensures forall x :: x in Texts(t, m, ls) ==> OneLine(x)
  {
    if ls != [] {
      EntriesStep(ls);
      TextsAreLines(t, u, m, ls[..|ls| - 1]);
      var l := ls[|ls| - 1];
      assert l in ls;
      if l.SymbolLine? { LineIsOneLine(t, u, m, l.s); }
    }
  }

  lemma FinishMuted(st: LoadState, n: set<SymName>)
    ensures Finish(Muted(st, n)) == Overridden(Finish(st), n)
  {
    var a, b := Finish(Muted(st, n)), Overridden(Finish(st), n);
    assert forall s :: SymItem(s) in Muted(st, n).was <==> SymItem(s) in st.was || s in n;
    assert a.sym == b.sym;
    assert forall c :: ChoiceItem(c) in Muted(st, n).was <==> ChoiceItem(c) in st.was;
  }

  predicate DefinitionOrder(t: Tree, order: seq<SymName>) {
    (set s | s in order) == t.syms.Keys && forall i, j :: 0 <= i < j < |order| ==> order[i] != order[j]
  }

  lemma FinishLoaded(t: Tree, m: Answers, w: set<SymName>, st: LoadState)
    requires Progress(t, m, w, st)
    ensures Loaded(t, m, w, Finish(st))
  {
    assert Finish(st).sel.Keys == Finish(st).mode.Keys;
  }

  /** Loading a written file: the written values, with y lines also setting modes and selections, and n for the symbols
      that comments silence; nothing else. */
  lemma FileLoads(t: Tree, u: Users, m: Answers, ls: seq<Line>) returns (u1: Users)
    requires AllValues(t, u, m) && Entries(ls) <= FullSet(t, m) && Writable(t, m) && ProperRemarks(ls)
    ensures Loaded(t, m, Entries(ls), u1)
    ensures LoadFile(t, u, FileText(t, m, ls)) == Overridden(u1, Silenced(t, ls))
  {
    TextsAreLines(t, u, m, ls);
    SplitJoin(Texts(t, m, ls));
    LinesLoad(t, u, m, ls);
    EntriesProgress(t, u, m, ls);
    u1 := Finish(EntryState(t, u, m, ls));
    FinishLoaded(t, m, Entries(ls), EntryState(t, u, m, ls));
    FinishMuted(EntryState(t, u, m, ls), Silenced(t, ls));
  }

  // ----- The reload theorems -----

  ghost function ModeOf(t: Tree, rank: Query -> nat, u: Users, c: ChoiceId): Tri
    requires Setting(t, rank, u) && c in t.choices
  {
    ChoiceMode(t.choices[c], UserMode(u, c), Eval(t, rank, u, Vis(ChoiceItem(c))).tri)
  }

  /** Every value and every choice mode is the same under both user values. */
  ghost predicate Unchanged(t: Tree, rank: Query -> nat, u: Users, u': Users)
    requires Setting(t, rank, u)
  {
    && ValidUsers(t, u')
    && (forall q :: Varies(t, q) ==> Eval(t, rank, u', q) == Eval(t, rank, u, q))
    && (forall c :: c in t.choices ==> ModeOf(t, rank, u', c) == ModeOf(t, rank, u, c))
  }

  lemma ValuesAll(t: Tree, rank: Query -> nat, u: Users)
    requires Setting(t, rank, u)
    ensures AllValues(t, u, Values(t, rank, u))
  {
    ValuesConsistent(t, rank, u);
  }

  lemma UnwrittenMode(t: Tree, u: Users, u': Users, m: Answers, w: set<SymName>, c: ChoiceId)
    requires AllValues(t, u, m) && Loaded(t, m, w, u') && SelIn(m, c).None?
    ensures UserMode(u', c) == None
  {
    forall s ensures !WrittenYes(t, m, w, c, s) {
      if WrittenYes(t, m, w, c, s) { YesIsSelection(t, u, m, s); }
    }
  }

  /** A choice in y mode that is optional and has no selection loses its mode. */
  lemma ModeLost(t: Tree, u: Users, u': Users, m: Answers, w: set<SymName>, c: ChoiceId)
    requires AllValues(t, u, m) && Loaded(t, m, w, u')
    requires c in t.choices && t.choices[c].optional && ModeVal(t, u, m, c) == Some(2) && SelIn(m, c).None?
    ensures ModeVal(t, u', m, c) == Some(0)
  {
    UnwrittenMode(t, u, u', m, w, c);
    Typed(t, u, m, Vis(ChoiceItem(c)));
  }

  lemma ModesNeeded(t: Tree, u: Users, u1: Users, m: Answers, n: set<SymName>, w: set<SymName>)
    requires AllValues(t, u, m) && Loaded(t, m, w, u1) && SameModeVals(t, u, Overridden(u1, n), m)
    ensures Representable(t, u, m)
  {
    forall c | c in t.choices && t.choices[c].optional && ModeVal(t, u, m, c) == Some(2) ensures SelIn(m, c).Some? {
      if SelIn(m, c).None? {
        assert ModeVal(t, Overridden(u1, n), m, c) == ModeVal(t, u, m, c);
        ModeLost(t, u, u1, m, w, c);
      }
    }
  }

  /** The user value n would not change the symbol: it is in a choice, invisible, n anyway, or selected. */
  predicate Immune(t: Tree, u: Users, m: Answers, s: SymName)
    requires s in t.syms
  {
    || t.syms[s].choice.Some?
    || VisIn(m, SymItem(s)) == 0
    || TextIn(m, s) == "n"
    || ExprVal(t, u, m, t.syms[s].revDep) != Some(0)
  }

  /** Every symbol that comments silence is immune to it. */
  predicate Harmless(t: Tree, u: Users, m: Answers, n: set<SymName>) {
    forall s :: s in n && s in t.syms ==> Immune(t, u, m, s)
  }

  ghost predicate AllLogical(t: Tree, n: set<SymName>) { forall s :: s in n ==> s in t.syms && t.syms[s].kind.Logical() }

  lemma OverriddenValid(t: Tree, u: Users, n: set<SymName>)
    requires ValidUsers(t, u) && AllLogical(t, n)
    ensures ValidUsers(t, Overridden(u, n))
  {
  }

  /** The value of a symbol outside choices under the user value n */
  lemma PlainSetToN(t: Tree, u: Users, u': Users, m: Answers, s: SymName)
    requires AllValues(t, u, m) && SameModeVals(t, u, u', m) && UserTri(u', s) == Some(0)
    requires Varies(t, TriVal(s)) && t.syms[s].choice.None?
    ensures ExprVal(t, u, m, t.syms[s].revDep).Some?
    ensures VisIn(m, SymItem(s)) != 0 ==>
      Answer(t, u', m, TriVal(s)) == Some(TriV(Promote(ExprVal(t, u, m, t.syms[s].revDep).value), true))
    ensures VisIn(m, SymItem(s)) == 0 ==> Answer(t, u', m, TriVal(s)) == Answer(t, u, m, TriVal(s))
  {
    var d := t.syms[s];
    Typed(t, u, m, Vis(SymItem(s)));
    SameParts(t, u, u', m, d);
  }

  lemma ImmuneAnswer(t: Tree, u: Users, u': Users, m: Answers, s: SymName)
    requires AllValues(t, u, m) && SameModeVals(t, u, u', m) && UserTri(u', s) == Some(0)
    requires Varies(t, TriVal(s)) && t.syms[s].choice.None?
    ensures Answer(t, u', m, TriVal(s)) == Some(m[TriVal(s)]) <==> Immune(t, u, m, s)
  {
    var d := t.syms[s];
    PlainSetToN(t, u, u', m, s);
    Typed(t, u, m, TriVal(s));
    Typed(t, u, m, Vis(SymItem(s)));
    YesValue(t, u, m, s);
    TwoValued(t, u, m);
    SameParts(t, u, u, m, d);
    assert "n"[0] != "y"[0];
  }

  lemma OverriddenSym(t: Tree, u: Users, u': Users, m: Answers, q: Query, s: SymName)
    requires AllValues(t, u, m) && SameModeVals(t, u, u', m) && UserTri(u', s) == Some(0)
    requires q in m && ItemOf(q) == SymItem(s) && s in t.syms && t.syms[s].kind.Logical() && Immune(t, u, m, s)
    ensures Answer(t, u', m, q) == Some(m[q])
  {
    Typed(t, u, m, q);
    match q
    case Vis(_) =>
      if t.syms[s].choice.Some? && !Inert(t.syms[s]) { DependsOnChoice(t, s); }
      VisKept(t, u, u', m, m, t.syms[s], PromptItems(t.syms[s].prompts));
    case TriVal(_) =>
      if t.syms[s].choice.Some? { ChoiceSymAgrees(t, u, u', m, s); } else { ImmuneAnswer(t, u, u', m, s); }
    case StrVal(_) =>
  }

  lemma OverriddenOther(t: Tree, u: Users, m: Answers, n: set<SymName>, q: Query)
    requires AllValues(t, u, m) && q in m && !(ItemOf(q).SymItem? && ItemOf(q).name in n) && AllLogical(t, n)
    ensures Answer(t, Overridden(u, n), m, q) == Some(m[q])
  {
    var x := ItemOf(q);
    Typed(t, u, m, q);
    OverriddenValid(t, u, n);
    if x.SymItem? && Inert(t.syms[x.name]) { InertInvisible(t, u, m, x.name); }
    AnswerKept(t, u, Overridden(u, n), m, m, q);
  }

  lemma OverriddenAnswer(t: Tree, u: Users, m: Answers, n: set<SymName>, q: Query)
    requires AllValues(t, u, m) && AllLogical(t, n) && Harmless(t, u, m, n) && q in m
    ensures Answer(t, Overridden(u, n), m, q) == Some(m[q])
  {
    var u' := Overridden(u, n);
    Typed(t, u, m, q);
    assert SameModeVals(t, u, u', m);
    var x := ItemOf(q);
    if x.SymItem? && x.name in n {
      OverriddenSym(t, u, u', m, q, x.name);
    } else {
      OverriddenOther(t, u, m, n, q);
    }
  }

  lemma OverriddenConsistent(t: Tree, u: Users, m: Answers, n: set<SymName>)
    requires AllValues(t, u, m) && AllLogical(t, n) && Harmless(t, u, m, n)
    ensures Consistent(t, Overridden(u, n), m)
  {
    forall q | q in m ensures Answer(t, Overridden(u, n), m, q) == Some(m[q]) { OverriddenAnswer(t, u, m, n, q); }
  }

  lemma SameValuesMap(t: Tree, rank: Query -> nat, u: Users, u': Users)
    requires Setting(t, rank, u) && Setting(t, rank, u') && Unchanged(t, rank, u, u')
    ensures Values(t, rank, u') == Values(t, rank, u)
  {
  }

  lemma SameModesThen(t: Tree, rank: Query -> nat, u: Users, u': Users, m: Answers)
    requires Setting(t, rank, u) && Unchanged(t, rank, u, u') && m == Values(t, rank, u)
    ensures SameModeVals(t, u, u', m)
  {
    forall c ensures ModeVal(t, u', m, c) == ModeVal(t, u, m, c) {
      if c in t.choices { ModeInValues(t, rank, u, u', m, c); }
    }
  }

  lemma ModeInValues(t: Tree, rank: Query -> nat, u: Users, u': Users, m: Answers, c: ChoiceId)
    requires Setting(t, rank, u) && Unchanged(t, rank, u, u') && m == Values(t, rank, u) && c in t.choices
    ensures ModeVal(t, u', m, c) == ModeVal(t, u, m, c)
  {
    var q := Vis(ChoiceItem(c));
    assert Varies(t, q) && q in m && m[q] == Eval(t, rank, u, q);
    assert ModeOf(t, rank, u', c) == ModeOf(t, rank, u, c);
  }

  /** A silenced symbol that is not immune does change. */
  lemma SilencedChanges(t: Tree, rank: Query -> nat, u: Users, u': Users, s: SymName)
    requires Setting(t, rank, u) && UserTri(u', s) == Some(0) && s in t.syms && t.syms[s].kind.Logical()
    requires Unchanged(t, rank, u, u')
    ensures Immune(t, u, Values(t, rank, u), s)
  {
    var m := Values(t, rank, u);
    ValuesAll(t, rank, u);
    SameValuesMap(t, rank, u, u');
    SameModesThen(t, rank, u, u', m);
    ValuesConsistent(t, rank, u');
    if t.syms[s].choice.None? {
      assert Varies(t, TriVal(s)) && Answer(t, u', m, TriVal(s)) == Some(m[TriVal(s)]);
      ImmuneAnswer(t, u, u', m, s);
    }
  }

  /** A stripped number does change. */
  lemma StrippedChanges(t: Tree, rank: Query -> nat, u: Users, u': Users, s: SymName)
    requires Setting(t, rank, u) && s in t.syms && Stripped(t, u, Values(t, rank, u), s) && Pythonic(t.num)
    requires UserText(u', s) == Some(RStrip(TextIn(Values(t, rank, u), s)))
    ensures !Unchanged(t, rank, u, u')
  {
    if Unchanged(t, rank, u, u') {
      var m := Values(t, rank, u);
      ValuesAll(t, rank, u);
      SameValuesMap(t, rank, u, u');
      SameModesThen(t, rank, u, u', m);
      ValuesConsistent(t, rank, u');
      StrippedAnswer(t, u, u', m, s);
    }
  }

  lemma StrippedAnswer(t: Tree, u: Users, u': Users, m: Answers, s: SymName)
    requires AllValues(t, u, m) && SameModeVals(t, u, u', m) && s in t.syms && Stripped(t, u, m, s) && Pythonic(t.num)
    requires UserText(u', s) == Some(RStrip(TextIn(m, s)))
    ensures StrVal(s) in m && Answer(t, u', m, StrVal(s)) != Some(m[StrVal(s)])
  {
    var d := t.syms[s];
    Typed(t, u, m, Vis(SymItem(s)));
    Typed(t, u, m, StrVal(s));
    SameTexts(t, u, u', m, d);
    StrippedFits(t, d.kind, VisIn(m, SymItem(s)), TextIn(m, s), ActiveRange(t, u, m, d.kind, d.ranges).value);
  }

  ghost predicate Complete(t: Tree, u: Users, m: Answers, w: set<SymName>) {
    Covers(t, u, m, w) && (Guarded(t) || w == FullSet(t, m))
  }

  /** The old values are right for the loaded user values, and the modes are the same. */
  lemma SurvivesConsistent(t: Tree, u: Users, u1: Users, m: Answers, n: set<SymName>, w: set<SymName>)
    requires AllValues(t, u, m) && NoHiddenValues(t, u) && AllLogical(t, n) && Complete(t, u, m, w)
    requires Loaded(t, m, w, u1) && Representable(t, u, m) && Harmless(t, u, m, n)
    requires Pythonic(t.num) && Unstripped(t, u, m, w)
    ensures ValidUsers(t, Overridden(u1, n)) && Consistent(t, Overridden(u1, n), m)
    ensures SameModeVals(t, u, Overridden(u1, n), m)
  {
    LoadedValid(t, u, u1, m, w);
    OverriddenValid(t, u1, n);
    ReloadConsistent(t, u, u1, m, w);
    forall c ensures ModeVal(t, u1, m, c) == ModeVal(t, u, m, c) { ModeAgrees(t, u, u1, m, w, c); }
    forall s | s in n && s in t.syms ensures Immune(t, u1, m, s) { SameParts(t, u, u1, m, t.syms[s]); }
    OverriddenConsistent(t, u1, m, n);
  }

  lemma SameModesOf(t: Tree, rank: Query -> nat, u: Users, u': Users, m: Answers, c: ChoiceId)
    requires Setting(t, rank, u) && Setting(t, rank, u') && m == Values(t, rank, u) && SameModeVals(t, u, u', m)
    requires c in t.choices && Eval(t, rank, u', Vis(ChoiceItem(c))) == Eval(t, rank, u, Vis(ChoiceItem(c)))
    ensures ModeOf(t, rank, u', c) == ModeOf(t, rank, u, c)
  {
    var q := Vis(ChoiceItem(c));
    assert Varies(t, q) && q in m && m[q] == Eval(t, rank, u, q);
    assert ModeVal(t, u', m, c) == ModeVal(t, u, m, c);
  }

  lemma SurvivesIf(t: Tree, rank: Query -> nat, u: Users, u': Users, m: Answers)
    requires Setting(t, rank, u) && m == Values(t, rank, u)
    requires ValidUsers(t, u') && Consistent(t, u', m) && SameModeVals(t, u, u', m)
    ensures Unchanged(t, rank, u, u')
  {
    SameValues(t, rank, u, u');
    forall c | c in t.choices ensures ModeOf(t, rank, u', c) == ModeOf(t, rank, u, c) {
      assert Varies(t, Vis(ChoiceItem(c)));
      SameModesOf(t, rank, u, u', m, c);
    }
  }

  lemma ChangesNeeded(t: Tree, rank: Query -> nat, u: Users, m: Answers, u1: Users, n: set<SymName>, w: set<SymName>)
    requires Setting(t, rank, u) && m == Values(t, rank, u) && AllValues(t, u, m)
    requires AllLogical(t, n) && Loaded(t, m, w, u1) && Unchanged(t, rank, u, Overridden(u1, n))
    ensures Representable(t, u, m) && Harmless(t, u, m, n)
  {
    SameModesThen(t, rank, u, Overridden(u1, n), m);
    ModesNeeded(t, u, u1, m, n, w);
    forall s | s in n && s in t.syms ensures Immune(t, u, m, s) { SilencedChanges(t, rank, u, Overridden(u1, n), s); }
  }

  lemma NumbersNeeded(t: Tree, rank: Query -> nat, u: Users, m: Answers, u1: Users, n: set<SymName>, w: set<SymName>)
    requires Setting(t, rank, u) && m == Values(t, rank, u) && Pythonic(t.num)
    requires AllLogical(t, n) && Loaded(t, m, w, u1) && Unchanged(t, rank, u, Overridden(u1, n))
    ensures Unstripped(t, u, m, w)
  {
    forall s | s in w && s in t.syms ensures !Stripped(t, u, m, s) {
      if Stripped(t, u, m, s) {
        StrippedLoaded(t, u, m, u1, n, w, s);
        StrippedChanges(t, rank, u, Overridden(u1, n), s);
      }
    }
  }

  lemma StrippedLoaded(t: Tree, u: Users, m: Answers, u1: Users, n: set<SymName>, w: set<SymName>, s: SymName)
    requires AllLogical(t, n) && Loaded(t, m, w, u1) && s in w && s in t.syms && Stripped(t, u, m, s) && Pythonic(t.num)
    ensures UserText(Overridden(u1, n), s) == Some(RStrip(TextIn(m, s)))
  {
    StrippedFits(t, t.syms[s].kind, 0, TextIn(m, s), None);
  }

  lemma ReloadOf(t: Tree, rank: Query -> nat, u: Users, m: Answers, u1: Users, n: set<SymName>, w: set<SymName>)
    requires Setting(t, rank, u) && m == Values(t, rank, u) && AllValues(t, u, m) && NoHiddenValues(t, u)
    requires AllLogical(t, n) && Complete(t, u, m, w) && Loaded(t, m, w, u1) && Pythonic(t.num)
    ensures Unchanged(t, rank, u, Overridden(u1, n)) <==>
      Representable(t, u, m) && Harmless(t, u, m, n) && Unstripped(t, u, m, w)
  {
    if Representable(t, u, m) && Harmless(t, u, m, n) && Unstripped(t, u, m, w) {
      SurvivesConsistent(t, u, u1, m, n, w);
      SurvivesIf(t, rank, u, Overridden(u1, n), m);
    } else if Unchanged(t, rank, u, Overridden(u1, n)) {
      ChangesNeeded(t, rank, u, m, u1, n, w);
      NumbersNeeded(t, rank, u, m, u1, n, w);
    }
  }

  /** Writing a file and loading it keeps every value and every choice mode, exactly when no optional choice is in y mode
      without a selected symbol, no comment resets a symbol that is not immune to it, and no number in the file ends in
      white space, is shown, and without that space is accepted and in its range. */
  lemma Reload(t: Tree, rank: Query -> nat, u: Users, ls: seq<Line>)
    requires Setting(t, rank, u) && NoHiddenValues(t, u) && Pythonic(t.num)
    requires var m := Values(t, rank, u); Complete(t, u, m, Entries(ls)) && Writable(t, m) && ProperRemarks(ls)
    ensures var m := Values(t, rank, u);
      Unchanged(t, rank, u, LoadFile(t, u, FileText(t, m, ls)))
      <==> Representable(t, u, m) && Harmless(t, u, m, Silenced(t, ls)) && Unstripped(t, u, m, Entries(ls))
  {
    var m := Values(t, rank, u);
    ValuesAll(t, rank, u);
    var u1 := FileLoads(t, u, m, ls);
    SilencedLogical(t, ls);
    ReloadOf(t, rank, u, m, u1, Silenced(t, ls), Entries(ls));
  }

  /** The conditions on choices and comments are needed however numbers are read. */
  lemma ReloadNeeds(t: Tree, rank: Query -> nat, u: Users, ls: seq<Line>)
    requires Setting(t, rank, u)
    requires var m := Values(t, rank, u); Entries(ls) <= FullSet(t, m) && Writable(t, m) && ProperRemarks(ls)
    requires var m := Values(t, rank, u); Unchanged(t, rank, u, LoadFile(t, u, FileText(t, m, ls)))
    ensures var m := Values(t, rank, u); Representable(t, u, m) && Harmless(t, u, m, Silenced(t, ls))
  {
    var m := Values(t, rank, u);
    ValuesAll(t, rank, u);
    var u1 := FileLoads(t, u, m, ls);
    SilencedLogical(t, ls);
    ChangesNeeded(t, rank, u, m, u1, Silenced(t, ls), Entries(ls));
  }

  /** A full configuration, with whatever comments between the lines of the symbols */
  lemma FullReload(t: Tree, rank: Query -> nat, u: Users, ls: seq<Line>)
    requires Setting(t, rank, u) && NoHiddenValues(t, u) && Pythonic(t.num)
    requires var m := Values(t, rank, u); Entries(ls) == FullSet(t, m) && Writable(t, m) && ProperRemarks(ls)
    ensures var m := Values(t, rank, u);
      Unchanged(t, rank, u, LoadFile(t, u, FileText(t, m, ls)))
      <==> Representable(t, u, m) && Harmless(t, u, m, Silenced(t, ls)) && Unstripped(t, u, m, Entries(ls))
  {
    Reload(t, rank, u, ls);
  }

  /** A minimal configuration, although all default-valued and unchangeable symbols are omitted. Its only comments are
      those of the header. */
  lemma MinReload(t: Tree, rank: Query -> nat, u: Users, header: seq<string>, order: seq<SymName>)
    requires Setting(t, rank, u) && NoHiddenValues(t, u) && DefinitionOrder(t, order) && Guarded(t) && Pythonic(t.num)
    requires Writable(t, Values(t, rank, u)) && ProperHeader(header)
    ensures var m := Values(t, rank, u); var ls := Remarks(header) + EntriesOf(order, MinSet(t, u, m));
      Unchanged(t, rank, u, LoadFile(t, u, FileText(t, m, ls)))
      <==> Representable(t, u, m) && Harmless(t, u, m, Silenced(t, ls)) && Unstripped(t, u, m, MinSet(t, u, m))
  {
    var m := Values(t, rank, u);
    MinLines(t, m, header, order, MinSet(t, u, m));
    Reload(t, rank, u, Remarks(header) + EntriesOf(order, MinSet(t, u, m)));
  }

  predicate ProperHeader(header: seq<string>) { forall x :: x in header ==> Comment(x) && OneLine(x) }

  function Remarks(texts: seq<string>): seq<Line> { seq(|texts|, i requires 0 <= i < |texts| => Remark(texts[i])) }

  lemma {:induction false} EntriesOfEntries(order: seq<SymName>, w: set<SymName>)
    ensures Entries(EntriesOf(order, w)) == (set s | s in order && s in w)
    ensures forall l :: l in EntriesOf(order, w) ==> l.SymbolLine?
  {
    if order != [] {
      var rest, s := order[..|order| - 1], order[|order| - 1];
      EntriesOfEntries(rest, w);
      assert order == rest + [s];
      assert Entries(EntriesOf(order, w)) == Entries(EntriesOf(rest, w)) + if s in w then {s} else {};
    }
  }

  lemma MinLines(t: Tree, m: Answers, header: seq<string>, order: seq<SymName>, w: set<SymName>)
    requires DefinitionOrder(t, order) && ProperHeader(header) && w <= t.syms.Keys
    ensures var ls := Remarks(header) + EntriesOf(order, w); Entries(ls) == w && ProperRemarks(ls)
  {
    EntriesOfEntries(order, w);
    assert (set s | s in order && s in w) == w by { assert forall s :: s in order <==> s in (set x | x in order); }
  }

  /** Without comments that read as unset symbols, only choices can change. */
  lemma {:induction false} NothingSilenced(t: Tree, ls: seq<Line>)
    requires forall l :: l in ls && l.Remark? ==> Unsets(t, l.text).None?
    ensures Silenced(t, ls) == {}
  {
    if ls != [] { NothingSilenced(t, ls[..|ls| - 1]); }
  }

  // ----- A configuration that does not survive -----

  /** One optional choice without symbols */
  function EmptyChoice(num: Numerals): Tree {
    Tree(map[], map[0 := ChoiceDef(Bool, true, [Y], [], [])], num)
  }

  /** The user has put it in y mode. */
  function InYMode(): Users { Users(map[], map[0 := 2], map[]) }

  function VisFirst(): Query -> nat { (q: Query) => if q.Vis? then 0 else 1 }

  lemma EmptyChoiceSetting(num: Numerals)
    ensures Setting(EmptyChoice(num), VisFirst(), InYMode())
  {
    var t := EmptyChoice(num);
    assert SaneChoice(t, 0);
    assert PromptItems([]) == {} && ExprItems(Y) == {};
    assert [Y][1..] == [] && [Y][..0] == [] && PromptItems([Y]) == {};
    assert ItemsReads(t, {}) == {};
    assert DefaultSyms([]) == [] && VisReads(t, []) == {} && ChoiceDefaultItems([]) == {};
    forall q, p | Varies(t, q) && p in Reads(t, q) ensures Varies(t, p) && VisFirst()(p) < VisFirst()(q) {
      assert q == Vis(ChoiceItem(0)) || q == Sel(0);
    }
  }

  lemma EmptyChoiceValues(num: Numerals, m: Answers)
    requires AllValues(EmptyChoice(num), InYMode(), m)
    ensures !Representable(EmptyChoice(num), InYMode(), m)
  {
    var t, u := EmptyChoice(num), InYMode();
    var v, s := Vis(ChoiceItem(0)), Sel(0);
    Typed(t, u, m, v);
    Typed(t, u, m, s);
    YesText();
    assert ExprVal(t, u, m, Y) == Some(2);
    assert MaxPrompt(t, u, m, [Y][1..]) == Some(0);
    assert m[v] == TriV(2, false);
    assert ModeVal(t, u, m, 0) == Some(2);
    assert Selection(t, u, m, 0) == Some(None);
  }

  /** Writing its (empty) configuration and loading it resets the choice to n mode. */
  lemma EmptyChoiceLost(num: Numerals)
    ensures Setting(EmptyChoice(num), VisFirst(), InYMode())
    ensures var t, u := EmptyChoice(num), InYMode(); var m := Values(t, VisFirst(), u);
      Entries([]) == FullSet(t, m) && !Unchanged(t, VisFirst(), u, LoadFile(t, u, FileText(t, m, [])))
  {
    var t, u := EmptyChoice(num), InYMode();
    EmptyChoiceSetting(num);
    ValuesAll(t, VisFirst(), u);
    var m := Values(t, VisFirst(), u);
    EmptyChoiceValues(num, m);
    assert forall s :: !WriteIn(m, s) by { assert forall s :: !Varies(t, StrVal(s)); }
    ChoiceLost(t, VisFirst(), u, []);
  }

  lemma ChoiceLost(t: Tree, rank: Query -> nat, u: Users, ls: seq<Line>)
    requires Setting(t, rank, u) && !Representable(t, u, Values(t, rank, u))
    requires var m := Values(t, rank, u); Entries(ls) <= FullSet(t, m) && Writable(t, m) && ProperRemarks(ls)
    ensures !Unchanged(t, rank, u, LoadFile(t, u, FileText(t, Values(t, rank, u), ls)))
  {
    if Unchanged(t, rank, u, LoadFile(t, u, FileText(t, Values(t, rank, u), ls))) { ReloadNeeds(t, rank, u, ls); }
  }

  // ----- A number that loses its white space -----

  /** One int symbol with a prompt */
  function OneNumber(s: SymName, num: Numerals): Tree {
    Tree(map[s := SymDef(Int, [Y], [], [], N, N, Y, None, false)], map[], num)
  }

  function Entered(s: SymName, text: string): Users { Users(map[s := UText(text)], map[], map[]) }

  lemma OneNumberSetting(s: SymName, num: Numerals, text: string)
    requires num.parse(text, 10).Some?
    ensures Setting(OneNumber(s, num), VisFirst(), Entered(s, text))
  {
    var t := OneNumber(s, num);
    assert ExprItems(Y) == {} && ExprItems(N) == {};
    assert PromptItems([]) == {} && [Y][1..] == [] && PromptItems([Y]) == {};
    assert DefaultItems([]) == {} && RangeItems([]) == {};
    assert ItemsReads(t, {}) == {};
    assert SaneSym(t, s);
    forall q, p | Varies(t, q) && p in Reads(t, q) ensures Varies(t, p) && VisFirst()(p) < VisFirst()(q) {
      assert q == Vis(SymItem(s)) || q == StrVal(s);
    }
  }

  lemma OneNumberValues(s: SymName, num: Numerals, text: string, m: Answers)
    requires AllValues(OneNumber(s, num), Entered(s, text), m) && text != ""
    ensures VisIn(m, SymItem(s)) == 2 && TextIn(m, s) == text && WriteIn(m, s)
  {
    var t, u := OneNumber(s, num), Entered(s, text);
    YesText();
    assert ExprVal(t, u, m, Y) == Some(2);
    assert [Y][1..] == [] && MaxPrompt(t, u, m, [Y][1..]) == Some(0);
    Typed(t, u, m, Vis(SymItem(s)));
    Typed(t, u, m, StrVal(s));
    assert ActiveRange(t, u, m, Int, []) == Some(None);
  }

  lemma SpaceLost(t: Tree, rank: Query -> nat, u: Users, ls: seq<Line>, s: SymName)
    requires Setting(t, rank, u) && Pythonic(t.num)
    requires var m := Values(t, rank, u); Entries(ls) <= FullSet(t, m) && Writable(t, m) && ProperRemarks(ls)
    requires s in Entries(ls) && s in t.syms && Stripped(t, u, Values(t, rank, u), s)
    ensures !Unchanged(t, rank, u, LoadFile(t, u, FileText(t, Values(t, rank, u), ls)))
  {
    var m := Values(t, rank, u);
    ValuesAll(t, rank, u);
    var u1 := FileLoads(t, u, m, ls);
    SilencedLogical(t, ls);
    if Unchanged(t, rank, u, LoadFile(t, u, FileText(t, m, ls))) {
      NumbersNeeded(t, rank, u, m, u1, Silenced(t, ls), Entries(ls));
    }
  }

  /** Writing its configuration and loading it takes the white space off the number, for every number entered that way. */
  lemma NumberLosesSpace(s: SymName, num: Numerals, text: string)
    requires ProperName(s) && OneLine(text) && RStrip(text) != text && num.parse(text, 10).Some? && Pythonic(num)
    ensures Setting(OneNumber(s, num), VisFirst(), Entered(s, text))
    ensures var t, u := OneNumber(s, num), Entered(s, text); var m := Values(t, VisFirst(), u);
      Entries([SymbolLine(s)]) == FullSet(t, m) && !Unchanged(t, VisFirst(), u, LoadFile(t, u, FileText(t, m, [SymbolLine(s)])))
  {
    var t, u := OneNumber(s, num), Entered(s, text);
    OneNumberSetting(s, num, text);
    ValuesAll(t, VisFirst(), u);
    var m := Values(t, VisFirst(), u);
    OneNumberStripped(s, num, text, m);
    SpaceLost(t, VisFirst(), u, [SymbolLine(s)], s);
  }

  lemma OneNumberStripped(s: SymName, num: Numerals, text: string, m: Answers)
    requires AllValues(OneNumber(s, num), Entered(s, text), m)
    requires ProperName(s) && OneLine(text) && RStrip(text) != text && num.parse(text, 10).Some? && Pythonic(num)
    ensures Entries([SymbolLine(s)]) == FullSet(OneNumber(s, num), m) && Writable(OneNumber(s, num), m)
    ensures Stripped(OneNumber(s, num), Entered(s, text), m, s)
  {
    OneNumberValues(s, num, text, m);
    assert ActiveRange(OneNumber(s, num), Entered(s, text), m, Int, []) == Some(None);
  }

  // ----- The program's loops -----

  ghost function ValuesOf(k: Kconfig): Answers
    requires k.Valid()
    reads k
  {
    Values(k.t, k.rank, k.users)
  }

  lemma CacheWithin(k: Kconfig)
    requires k.Valid()
    ensures Extends(k.cache, ValuesOf(k))
  {
    forall q | q in k.cache ensures q in ValuesOf(k) && ValuesOf(k)[q] == k.cache[q] { k.Coherent(q); }
  }

  /** A symbol's .config entry, with its _write_to_conf flag */
  method ConfigString(k: Kconfig, s: SymName) returns (line: Option<string>)
    requires k.Valid() && s in k.t.syms
    modifies k`cache
    ensures k.Valid()
    ensures line == if WriteIn(ValuesOf(k), s)
                    then Some(ConfigLine(k.t.syms[s].kind, s, TextIn(ValuesOf(k), s))) else None
  {
    if k.t.syms[s].kind.Unknown? {
      return None;
    }
    var text := k.StrValue(s);
    k.Coherent(StrVal(s));
    line := if k.cache[StrVal(s)].write then Some(ConfigLine(k.t.syms[s].kind, s, text)) else None;
  }

  /** The value of an expression, as evaluation from scratch gives it */
  method ExprIn(k: Kconfig, e: Expr, ghost xs: set<Item>, ghost bound: nat) returns (v: Tri)
    requires k.Valid() && ExprItems(e) <= xs && Below(k.t, k.rank, xs, bound)
    modifies k`cache
    ensures k.Valid() && ExprVal(k.t, k.users, ValuesOf(k), e) == Some(v)
  {
    v := k.ExprValue(e, xs, bound);
    CacheWithin(k);
    ExprKept(k.t, k.users, k.users, k.cache, ValuesOf(k), e, xs);
  }

  method DefaultIn(k: Kconfig, ds: seq<Default>, ghost xs: set<Item>, ghost bound: nat) returns (v: Tri)
    requires k.Valid() && DefaultItems(ds) <= xs && Below(k.t, k.rank, xs, bound)
    modifies k`cache
    ensures k.Valid() && FirstDefault(k.t, k.users, ValuesOf(k), ds) == Some(v)
  {
    v := k.DefaultValue(ds, xs, bound);
    CacheWithin(k);
    DefaultsKept(k.t, k.users, k.users, k.cache, ValuesOf(k), ds, xs);
  }

  /** The part of Symbol._str_default() for logical symbols outside choices */
  method LogicalDefault(k: Kconfig, s: SymName) returns (text: string)
    requires k.Valid() && Varies(k.t, TriVal(s)) && k.t.syms[s].choice.None?
    modifies k`cache
    ensures k.Valid() && StrDefault(k.t, k.users, ValuesOf(k), k.t.syms[s]) == Some(text)
  {
    var d := k.t.syms[s];
    ghost var xs, bound := TriItems(d), k.rank(TriVal(s));
    TriRanks(k.t, k.rank, s);
    var v := DefaultIn(k, d.defaults, xs, bound);
    var rev := ExprIn(k, d.revDep, xs, bound);
    var weak := ExprIn(k, d.weakRevDep, xs, bound);
    text := TriText(Promote(Max(rev, Max(weak, v))));
  }

  /** Symbol._str_default() */
  method StrDefaultValue(k: Kconfig, s: SymName) returns (text: string)
    requires k.Valid() && s in k.t.syms
    modifies k`cache
    ensures k.Valid() && StrDefault(k.t, k.users, ValuesOf(k), k.t.syms[s]) == Some(text)
  {
    var d := k.t.syms[s];
    if d.kind.Logical() {
      if d.choice.Some? {
        text := "n";
      } else {
        text := LogicalDefault(k, s);
      }
    } else if d.kind.Unknown? {
      text := "";
    } else {
      assert SaneSym(k.t, s);
      StrRanks(k.t, k.rank, s);
      var default := k.DefaultText(d.defaults, StrItems(d), k.rank(StrVal(s)));
      CacheWithin(k);
      DefaultsKept(k.t, k.users, k.users, k.cache, ValuesOf(k), d.defaults, StrItems(d));
      text := if default.Some? then default.value else "";
    }
  }

  ghost function RevBound(t: Tree, rank: Query -> nat, s: SymName): (bound: nat)
    requires Ranked(t, rank) && s in t.syms && (t.syms[s].kind.Logical() || t.syms[s].revDep == N)
    ensures Below(t, rank, ExprItems(t.syms[s].revDep), bound)
  {
    if t.syms[s].kind.Logical() then TriRanks(t, rank, s); rank(TriVal(s)) else 0
  }

  /** Whether a symbol outside choices cannot be changed: it is invisible or held by a select. */
  method Unchangeable(k: Kconfig, s: SymName) returns (b: bool)
    requires k.Valid() && Varies(k.t, StrVal(s)) && k.t.syms[s].choice.None?
    requires k.t.syms[s].kind.Logical() || k.t.syms[s].revDep == N
    modifies k`cache
    ensures k.Valid()
    ensures var rev := ExprVal(k.t, k.users, ValuesOf(k), k.t.syms[s].revDep);
      rev.Some? && (b <==> VisIn(ValuesOf(k), SymItem(s)) <= rev.value)
  {
    var t, d := k.t, k.t.syms[s];
    var vis := k.Visibility(SymItem(s));
    k.Coherent(Vis(SymItem(s)));
    ghost var bound := RevBound(t, k.rank, s);
    var rev := ExprIn(k, d.revDep, ExprItems(d.revDep), bound);
    b := vis <= rev;
  }

  /** Whether a choice symbol is a bool selected by default in a choice that is not optional */
  method SelectedByDefault(k: Kconfig, s: SymName) returns (b: bool)
    requires k.Valid() && Varies(k.t, TriVal(s)) && k.t.syms[s].choice.Some?
    modifies k`cache
    ensures k.Valid()
    ensures var c := k.t.syms[s].choice.value;
      b <==> c in k.t.choices && !k.t.choices[c].optional && k.t.syms[s].kind.Bool?
             && DefaultSelection(k.t, k.users, ValuesOf(k), k.t.choices[c]) == Some(Some(s))
             && TextIn(ValuesOf(k), s) == "y"
  {
    var t, d := k.t, k.t.syms[s];
    var c := d.choice.value;
    assert SaneSym(t, s);
    b := false;
    if !t.choices[c].optional {
      var sel := k.SelectionFromDefaults(c);
      CacheWithin(k);
      DefaultSelectionWithin(t, k.users, k.cache, ValuesOf(k), c);
      if sel == Some(s) && d.kind.Bool? {
        var v := k.TriValue(s);
        CachedYes(k, s);
        b := v == 2;
      }
    }
  }

  lemma DefaultSelectionWithin(t: Tree, u: Users, m: Answers, m': Answers, c: ChoiceId)
    requires c in t.choices && Extends(m, m') && DefaultSelection(t, u, m, t.choices[c]).Some?
    ensures DefaultSelection(t, u, m', t.choices[c]) == DefaultSelection(t, u, m, t.choices[c])
  {
    var d := t.choices[c];
    ChoiceDefaultsKept(t, u, u, m, m', d.defaults, ChoiceDefaultItems(d.defaults));
    if FirstVisible(t, m, d.syms).Some? { VisibleKept(t, m, m', d.syms); }
  }

  lemma CachedYes(k: Kconfig, s: SymName)
    requires k.Valid() && Varies(k.t, TriVal(s)) && TriVal(s) in k.cache
    ensures k.cache[TriVal(s)].TriV? && (k.cache[TriVal(s)].tri == 2 <==> TextIn(ValuesOf(k), s) == "y")
  {
    k.Coherent(TriVal(s));
    ValuesAll(k.t, k.rank, k.users);
    YesValue(k.t, k.users, ValuesOf(k), s);
  }

  method HasDefault(k: Kconfig, s: SymName) returns (b: bool)
    requires k.Valid() && Varies(k.t, StrVal(s))
    modifies k`cache
    ensures k.Valid() && (b <==> Some(TextIn(ValuesOf(k), s)) == StrDefault(k.t, k.users, ValuesOf(k), k.t.syms[s]))
  {
    var text := k.StrValue(s);
    k.Coherent(StrVal(s));
    var default := StrDefaultValue(k, s);
    b := text == default;
  }

  /** The tests of _min_config_contents() */
  method OmittedFromMin(k: Kconfig, s: SymName) returns (b: bool)
    requires k.Valid() && Varies(k.t, StrVal(s)) && (k.t.syms[s].kind.Logical() || k.t.syms[s].revDep == N)
    modifies k`cache
    ensures k.Valid() && (b <==> MinOmits(k.t, k.users, ValuesOf(k), s))
  {
    var d := k.t.syms[s];
    assert SaneSym(k.t, s);
    if d.choice.None? {
      b := Unchangeable(k, s);
      if b {
        return;
      }
    }
    b := HasDefault(k, s);
    if !b && d.choice.Some? {
      b := SelectedByDefault(k, s);
    }
  }

  /** The line of a symbol in a minimal configuration */
  method MinConfigString(k: Kconfig, s: SymName) returns (line: Option<string>)
    requires k.Valid() && Guarded(k.t) && s in k.t.syms
    modifies k`cache
    ensures k.Valid()
    ensures line == if s in MinSet(k.t, k.users, ValuesOf(k)) then Some(LineText(k.t, ValuesOf(k), SymbolLine(s))) else None
  {
    line := None;
    if !k.t.syms[s].kind.Unknown? {
      var omit := OmittedFromMin(k, s);
      if !omit {
        line := ConfigString(k, s);
      }
    }
  }

  /** _min_config_contents() */
  method WriteMinConfig(k: Kconfig, header: seq<string>, order: seq<SymName>) returns (file: string)
    requires k.Valid() && DefinitionOrder(k.t, order) && Guarded(k.t)
    modifies k`cache
    ensures k.Valid()
    ensures file == FileText(k.t, ValuesOf(k), Remarks(header) + EntriesOf(order, MinSet(k.t, k.users, ValuesOf(k))))
  {
    var lines := header;
    ghost var m, w := ValuesOf(k), MinSet(k.t, k.users, ValuesOf(k));
    MinStart(k.t, m, header, order, w);
    for i := 0 to |order|
      invariant k.Valid() && m == ValuesOf(k) && lines == MinTexts(k.t, m, header, order[..i], w)
    {
      assert order[i] in (set s | s in order);
      MinStep(k.t, m, header, order, w, i);
      var line := MinConfigString(k, order[i]);
      if line.Some? {
        lines := lines + [line.value];
      }
    }
    assert order[..|order|] == order;
    file := JoinLines(lines);
  }

  function MinTexts(t: Tree, m: Answers, header: seq<string>, order: seq<SymName>, w: set<SymName>): seq<string> {
    Texts(t, m, Remarks(header) + EntriesOf(order, w))
  }

  lemma MinStart(t: Tree, m: Answers, header: seq<string>, order: seq<SymName>, w: set<SymName>)
    ensures MinTexts(t, m, header, order[..0], w) == header
  {
    RemarkTexts(t, m, header);
    assert Remarks(header) + [] == Remarks(header);
  }

  lemma MinStep(t: Tree, m: Answers, header: seq<string>, order: seq<SymName>, w: set<SymName>, i: nat)
    requires i < |order|
    ensures MinTexts(t, m, header, order[..i + 1], w) ==
      MinTexts(t, m, header, order[..i], w) + if order[i] in w then [LineText(t, m, SymbolLine(order[i]))] else []
  {
    var ls := Remarks(header) + EntriesOf(order[..i], w);
    EntriesOfStep(order, w, i);
    if order[i] in w {
      TextsSnoc(t, m, ls, SymbolLine(order[i]));
      assert Remarks(header) + EntriesOf(order[..i + 1], w) == ls + [SymbolLine(order[i])];
    } else {
      assert EntriesOf(order[..i + 1], w) == EntriesOf(order[..i], w);
    }
  }

  lemma TextsSnoc(t: Tree, m: Answers, ls: seq<Line>, l: Line)
    ensures Texts(t, m, ls + [l]) == Texts(t, m, ls) + [LineText(t, m, l)]
  {
    assert (ls + [l])[..|ls|] == ls;
  }

  lemma {:induction false} RemarkTexts(t: Tree, m: Answers, texts: seq<string>)
    ensures Texts(t, m, Remarks(texts)) == texts
  {
    if texts != [] {
      var front := texts[..|texts| - 1];
      RemarkTexts(t, m, front);
      assert Remarks(texts)[..|texts| - 1] == Remarks(front);
      assert texts == front + [texts[|texts| - 1]];
    }
  }

  /** _load_config() with replace */
  method LoadConfig(k: Kconfig, file: string, items: seq<Item>)
    requires k.Valid() && (forall x :: x in items <==> Defined(k.t, x))
    modifies k
    ensures k.Valid() && k.users == LoadFile(k.t, old(k.users), file)
  {
    k.wasSet := {};
    LoadConfigLines(k, SplitLines(file));
    UnsetMissing(k, items);
  }

  method LoadConfigLines(k: Kconfig, lines: seq<string>)
    requires k.Valid()
    modifies k
    ensures k.Valid()
    ensures LoadState(k.users, k.wasSet) == LoadLines(k.t, LoadState(old(k.users), old(k.wasSet)), lines)
  {
    ghost var st := LoadState(k.users, k.wasSet);
    for i := 0 to |lines|
      invariant k.Valid() && LoadState(k.users, k.wasSet) == LoadLines(k.t, st, lines[..i])
    {
      assert lines[..i + 1][..i] == lines[..i];
      LoadConfigLine(k, lines[i]);
    }
    assert lines[..|lines|] == lines;
  }

  /** The user values after unsetting the items of `xs`, in order, that are not in `was` */
  function UnsetItems(u: Users, was: set<Item>, xs: seq<Item>): Users {
    if xs == [] then u else
    var u', x := UnsetItems(u, was, xs[..|xs| - 1]), xs[|xs| - 1];
    if x in was then u' else
    match x
    case SymItem(s) => u'.(sym := u'.sym - {s})
    case ChoiceItem(c) => u'.(mode := u'.mode - {c}, sel := u'.sel - {c})
  }

  lemma {:induction false} UnsetKeeps(u: Users, was: set<Item>, xs: seq<Item>)
    ensures var u' := UnsetItems(u, was, xs);
      && u'.sym == (map s | s in u.sym && (SymItem(s) in was || SymItem(s) !in xs) :: u.sym[s])
      && u'.mode == (map c | c in u.mode && (ChoiceItem(c) in was || ChoiceItem(c) !in xs) :: u.mode[c])
      && u'.sel == (map c | c in u.sel && (ChoiceItem(c) in was || ChoiceItem(c) !in xs) :: u.sel[c])
  {
    if xs != [] {
      UnsetKeeps(u, was, xs[..|xs| - 1]);
      assert forall x :: x in xs <==> x in xs[..|xs| - 1] || x == xs[|xs| - 1];
    }
  }

  /** Unsets every symbol and choice that did not get set. */
  method UnsetMissing(k: Kconfig, items: seq<Item>)
    requires k.Valid() && (forall x :: x in items <==> Defined(k.t, x))
    modifies k`users, k`cache
    ensures k.Valid() && k.users == Finish(LoadState(old(k.users), k.wasSet))
  {
    for i := 0 to |items|
      invariant k.Valid() && k.users == UnsetItems(old(k.users), k.wasSet, items[..i])
    {
      assert items[..i + 1][..i] == items[..i] && items[i] in items;
      if items[i] !in k.wasSet {
        match items[i]
        case SymItem(s) => k.UnsetValue(s);
        case ChoiceItem(c) => k.UnsetMode(c);
      }
    }
    assert items[..|items|] == items;
    MissingFinished(k.t, old(k.users), k.wasSet, items);
  }

  lemma MissingFinished(t: Tree, u: Users, was: set<Item>, items: seq<Item>)
    requires ValidUsers(t, u) && forall x :: x in items <==> Defined(t, x)
    ensures UnsetItems(u, was, items) == Finish(LoadState(u, was))
  {
    UnsetKeeps(u, was, items);
    var u', f := UnsetItems(u, was, items), Finish(LoadState(u, was));
    assert forall s :: s in u.sym ==> SymItem(s) in items;
    assert forall c :: c in u.mode || c in u.sel ==> ChoiceItem(c) in items;
    assert u'.sym == f.sym && u'.mode == f.mode && u'.sel == f.sel;
  }

  method LoadConfigLine(k: Kconfig, line: string)
    requires k.Valid()
    modifies k
    ensures k.Valid()
    ensures LoadState(k.users, k.wasSet) == LoadLine(k.t, LoadState(old(k.users), old(k.wasSet)), line)
  {
    var a := ParseLine(line);
    if a.None? || a.value.name !in k.t.syms {
      return;
    }
    var s := a.value.name;
    var d := k.t.syms[s];
    assert SaneSym(k.t, s);
    if a.value.Unset? {
      if d.kind.Logical() {
        var _ := k.SetValue(s, UText("n"));
      }
    } else if d.kind.Logical() {
      if LogicalText(d.kind, a.value.val) {
        var v := a.value.val[..1];
        if d.choice.Some? && v != "n" {
          var _ := k.SetMode(d.choice.value, ConstTri(v));
        }
        var _ := k.SetValue(s, UText(v));
      }
    } else if d.kind.Text? {
      var body := MatchString(a.value.val);
      if body.Some? {
        var _ := k.SetValue(s, UText(Unescape(body.value)));
      }
    } else {
      var _ := k.SetValue(s, UText(a.value.val));
    }
  }
}
