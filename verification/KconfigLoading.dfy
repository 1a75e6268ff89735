/** What loading a .config file does, for every file: which lines give which symbol a value, and which of them count. */
module KconfigLoading {
  import opened Wrappers
  import opened KconfigTree
  import opened KconfigEval
  import opened KconfigCache
  import opened KconfigReload
  import opened KconfigFile
  import opened ConfigText
  import KconfigLaws

  // ----- What one line gives -----

  /** The text to the right of `=` is a value for a symbol of the type. Only the first character of a logical value
      counts, and a string is a literal, with anything behind it. */
  ghost predicate Gives(t: Tree, kind: Kind, val: string, v: UserVal) {
    match kind
    case Unknown => false
    case Bool => val != [] && ((val[0] == 'y' && v == UTri(2)) || (val[0] == 'n' && v == UTri(0)))
    case Tristate =>
      val != [] && ((val[0] == 'y' && v == UTri(2)) || (val[0] == 'm' && v == UTri(1)) || (val[0] == 'n' && v == UTri(0)))
    case Text => exists us, tail :: IsLiteral(val, us, tail) && v == UText(Meant(us))
    case Int => t.num.parse(val, 10).Some? && v == UText(val)
    case Hex => var n := t.num.parse(val, 16); n.Some? && n.value >= 0 && v == UText(val)
  }

  predicate IsLiteral(val: string, us: seq<Unit>, tail: string) {
    WellSpelled(us) && val == "\"" + (Spelled(us) + "\"" + tail)
  }

  /** The line gives the symbol the value: it assigns it, or it is the comment that a logical symbol is not set. */
  ghost predicate LineGives(t: Tree, line: string, s: SymName, v: UserVal) {
    && s in t.syms
    && ((exists val :: Assigns(line, s, val) && Gives(t, t.syms[s].kind, val, v))
        || (Clears(line, s) && t.syms[s].kind.Logical() && v == UTri(0)))
  }

  // ----- Reading a line -----

  /** The value that the loader takes from an assigned text */
  function Taken(t: Tree, kind: Kind, val: string): Option<UserVal> {
    if kind.Logical() then if LogicalText(kind, val) then Some(UTri(ConstTri(val[..1]))) else None
    else if kind.Text? then
      var body :- MatchString(val);
      Some(UText(Unescape(body)))
    else if FitsKind(t, kind, UText(val)) then Some(UText(val))
    else None
  }

  /** The symbol that the loader sets on a line, and the value */
  function Reading(t: Tree, line: string): Option<(SymName, UserVal)> {
    var a :- ParseLine(line);
    if a.name !in t.syms then None else
    match a
    case Unset(s) => if t.syms[s].kind.Logical() then Some((s, UTri(0))) else None
    case Set(s, val) =>
      var v :- Taken(t, t.syms[s].kind, val);
      Some((s, v))
  }

  lemma Letters()
    ensures ConstTri("y") == 2 && ConstTri("m") == 1 && ConstTri("n") == 0
    ensures forall val: string :: val != [] && val[0] == 'y' ==> val[..1] == "y"
    ensures forall val: string :: val != [] && val[0] == 'm' ==> val[..1] == "m"
    ensures forall val: string :: val != [] && val[0] == 'n' ==> val[..1] == "n"
  {
    assert "n"[0] != "y"[0] && "n"[0] != "m"[0] && "m"[0] != "y"[0];
  }

  lemma LogicalTaken(t: Tree, kind: Kind, val: string, v: UserVal)
    requires kind.Logical()
    ensures Taken(t, kind, val) == Some(v) <==> Gives(t, kind, val, v)
  {
    Letters();
  }

  lemma LiteralTaken(t: Tree, val: string, us: seq<Unit>, tail: string)
    requires IsLiteral(val, us, tail)
    ensures Taken(t, Text, val) == Some(UText(Meant(us)))
  {
    LiteralRead(us, tail);
    assert val[1..] == Spelled(us) + "\"" + tail;
  }

  lemma TakenLiteral(t: Tree, val: string) returns (us: seq<Unit>, tail: string)
    requires Taken(t, Text, val).Some?
    ensures IsLiteral(val, us, tail)
  {
    us, tail := LiteralSpelled(val[1..]);
    assert val == "\"" + val[1..];
  }

  lemma TextTaken(t: Tree, val: string, v: UserVal)
    ensures Taken(t, Text, val) == Some(v) <==> Gives(t, Text, val, v)
  {
    if us, tail :| IsLiteral(val, us, tail) && v == UText(Meant(us)) { LiteralTaken(t, val, us, tail); }
    if Taken(t, Text, val) == Some(v) {
      var us, tail := TakenLiteral(t, val);
      LiteralTaken(t, val, us, tail);
    }
  }

  lemma TakenIs(t: Tree, kind: Kind, val: string, v: UserVal)
    ensures Taken(t, kind, val) == Some(v) <==> Gives(t, kind, val, v)
  {
    if kind.Logical() { LogicalTaken(t, kind, val, v); } else if kind.Text? { TextTaken(t, val, v); }
  }

  /** The loader takes from a line exactly what it gives. */
  lemma ReadingIs(t: Tree, line: string, s: SymName, v: UserVal)
    ensures Reading(t, line) == Some((s, v)) <==> LineGives(t, line, s, v)
  {
    LineRead(line, s, "");
    forall val ensures ParseLine(line) == Some(Set(s, val)) <==> Assigns(line, s, val) { LineRead(line, s, val); }
    if s in t.syms {
      var kind := t.syms[s].kind;
      forall val ensures Taken(t, kind, val) == Some(v) <==> Gives(t, kind, val, v) { TakenIs(t, kind, val, v); }
    }
  }

  // ----- What the loader does with it -----

  /** The choice whose mode the value sets: y and m do for a symbol of a choice, if the choice can have that mode. */
  function ModeSet(t: Tree, s: SymName, v: UserVal): Option<ChoiceId> {
    if s in t.syms && t.syms[s].choice.Some? && t.syms[s].choice.value in t.choices && v.UTri?
       && (v.tri == 2 || (v.tri == 1 && t.choices[t.syms[s].choice.value].kind.Tristate?))
    then t.syms[s].choice else None
  }

  lemma TakenFits(t: Tree, kind: Kind, val: string)
    requires Taken(t, kind, val).Some?
    ensures FitsKind(t, kind, Taken(t, kind, val).value)
    ensures Normalise(kind, Taken(t, kind, val).value) == Taken(t, kind, val).value
  {
    Letters();
  }

  lemma AssignedWith(t: Tree, st: LoadState, s: SymName, v: UserVal)
    requires Sane(t) && s in t.syms && FitsKind(t, t.syms[s].kind, v) && Normalise(t.syms[s].kind, v) == v
    ensures var d, st1 := t.syms[s], ModeStep(t, st, s, v); var st' := SymTo(t, st1, s, v);
      && st'.users.sym == st.users.sym[s := v]
      && st'.users.mode == (if ModeSet(t, s, v).Some? then st.users.mode[d.choice.value := v.tri] else st.users.mode)
      && st'.users.sel == (if d.choice.Some? && v == UTri(2) then st.users.sel[d.choice.value := s] else st.users.sel)
      && st'.was == st.was + {SymItem(s)} + if ModeSet(t, s, v).Some? then {ChoiceItem(d.choice.value)} else {}
  {
    assert SaneSym(t, s);
    if t.syms[s].choice.Some? { assert SaneChoice(t, t.syms[s].choice.value); }
  }

  function ModeStep(t: Tree, st: LoadState, s: SymName, v: UserVal): LoadState
    requires s in t.syms
  {
    var d := t.syms[s];
    if d.choice.Some? && d.choice.value in t.choices && v.UTri? && v.tri != 0
    then ModeTo(t, st, d.choice.value, v.tri) else st
  }

  lemma NothingRead(t: Tree, st: LoadState, line: string)
    requires Reading(t, line).None?
    ensures LoadLine(t, st, line) == st
  {
  }

  lemma LogicalLoaded(t: Tree, st: LoadState, s: SymName, val: string)
    requires s in t.syms && t.syms[s].kind.Logical() && LogicalText(t.syms[s].kind, val)
    ensures var v := UTri(ConstTri(val[..1])); LoadAssignment(t, st, Set(s, val)) == SymTo(t, ModeStep(t, st, s, v), s, v)
  {
    Letters();
    assert Normalise(t.syms[s].kind, UText(val[..1])) == UTri(ConstTri(val[..1]));
  }

  lemma SomethingRead(t: Tree, st: LoadState, line: string, s: SymName, v: UserVal)
    requires Reading(t, line) == Some((s, v))
    ensures s in t.syms && FitsKind(t, t.syms[s].kind, v) && Normalise(t.syms[s].kind, v) == v
    ensures LoadLine(t, st, line) == SymTo(t, ModeStep(t, st, s, v), s, v)
  {
    Letters();
    match ParseLine(line).value
    case Unset(_) => assert Normalise(t.syms[s].kind, UText("n")) == UTri(0);
    case Set(_, val) =>
      TakenFits(t, t.syms[s].kind, val);
      if t.syms[s].kind.Logical() { LogicalLoaded(t, st, s, val); }
  }

  // ----- The last line that counts -----

  /** The last of the lines that give anything gives `v`. */
  ghost predicate Last<T(!new)>(ls: seq<string>, gives: (string, T) -> bool, v: T) {
    exists i :: 0 <= i < |ls| && gives(ls[i], v) && forall j, w :: i < j < |ls| ==> !gives(ls[j], w)
  }

  lemma LastSnoc<T(!new)>(ls: seq<string>, gives: (string, T) -> bool, v: T)
    requires ls != []
    ensures var front, line := ls[..|ls| - 1], ls[|ls| - 1];
      Last(ls, gives, v) <==> if exists w :: gives(line, w) then gives(line, v) else Last(front, gives, v)
  {
    var front, line := ls[..|ls| - 1], ls[|ls| - 1];
    if Last(front, gives, v) && !(exists w :: gives(line, w)) {
      var i :| 0 <= i < |front| && gives(front[i], v) && forall j, w :: i < j < |front| ==> !gives(front[j], w);
      assert gives(ls[i], v);
      assert forall j :: 0 <= j < |front| ==> ls[j] == front[j];
    }
    if Last(ls, gives, v) {
      var i :| 0 <= i < |ls| && gives(ls[i], v) && forall j, w :: i < j < |ls| ==> !gives(ls[j], w);
      if i < |front| { assert gives(front[i], v) && forall j :: 0 <= j < |front| ==> ls[j] == front[j]; }
    }
  }

  ghost function SymGives(t: Tree, s: SymName): (string, UserVal) -> bool { (line, v) => LineGives(t, line, s, v) }

  /** The line gives a symbol of the choice a value that sets the mode of the choice. */
  ghost predicate LineSetsMode(t: Tree, line: string, c: ChoiceId, v: Tri) {
    exists s :: LineGives(t, line, s, UTri(v)) && ModeSet(t, s, UTri(v)) == Some(c)
  }

  ghost function ModeGives(t: Tree, c: ChoiceId): (string, Tri) -> bool { (line, v: Tri) => LineSetsMode(t, line, c, v) }

  /** The line sets a symbol of the choice to y. */
  ghost predicate LineSelects(t: Tree, line: string, c: ChoiceId, s: SymName) {
    LineGives(t, line, s, UTri(2)) && t.syms[s].choice == Some(c)
  }

  ghost function SelGives(t: Tree, c: ChoiceId): (string, SymName) -> bool { (line, s) => LineSelects(t, line, c, s) }

  // ----- The state after some lines -----

  ghost predicate SymGiven(t: Tree, ls: seq<string>, st: LoadState, s: SymName) {
    && (SymItem(s) in st.was ==> s in st.users.sym)
    && forall v :: SymItem(s) in st.was && s in st.users.sym && st.users.sym[s] == v <==> Last(ls, SymGives(t, s), v)
  }

  ghost predicate ModeGiven(t: Tree, ls: seq<string>, st: LoadState, c: ChoiceId) {
    && (ChoiceItem(c) in st.was ==> c in st.users.mode)
    && forall v: Tri ::
      ChoiceItem(c) in st.was && c in st.users.mode && st.users.mode[c] == v <==> Last(ls, ModeGives(t, c), v)
  }

  ghost predicate Selected(t: Tree, ls: seq<string>, c: ChoiceId) { exists s :: Last(ls, SelGives(t, c), s) }

  ghost predicate SelGiven(t: Tree, u: Users, ls: seq<string>, st: LoadState, c: ChoiceId) {
    && (forall s :: Last(ls, SelGives(t, c), s) ==> ChoiceItem(c) in st.was && c in st.users.sel && st.users.sel[c] == s)
    && (!Selected(t, ls, c) ==> (c in st.users.sel <==> c in u.sel))
    && (!Selected(t, ls, c) && c in u.sel ==> c in st.users.sel && st.users.sel[c] == u.sel[c])
  }

  /** What one line changes */
  lemma LineEffect(t: Tree, st: LoadState, line: string)
    requires Sane(t)
    ensures Reading(t, line).None? ==> LoadLine(t, st, line) == st
    ensures Reading(t, line).Some? ==>
      var (s, v) := Reading(t, line).value; var st' := LoadLine(t, st, line);
      && s in t.syms
      && st'.users.sym == st.users.sym[s := v]
      && st'.users.mode == (if ModeSet(t, s, v).Some? then st.users.mode[ModeSet(t, s, v).value := v.tri] else st.users.mode)
      && st'.users.sel ==
          (if t.syms[s].choice.Some? && v == UTri(2) then st.users.sel[t.syms[s].choice.value := s] else st.users.sel)
      && st'.was == st.was + {SymItem(s)} + if ModeSet(t, s, v).Some? then {ChoiceItem(ModeSet(t, s, v).value)} else {}
  {
    if Reading(t, line).Some? {
      var (s, v) := Reading(t, line).value;
      SomethingRead(t, st, line, s, v);
      AssignedWith(t, st, s, v);
    } else {
      NothingRead(t, st, line);
    }
  }

  lemma SymEffect(t: Tree, st: LoadState, line: string, s: SymName)
    requires Sane(t)
    ensures var st', r := LoadLine(t, st, line), Reading(t, line);
      if r.Some? && r.value.0 == s
      then SymItem(s) in st'.was && s in st'.users.sym && st'.users.sym[s] == r.value.1
      else && (SymItem(s) in st'.was <==> SymItem(s) in st.was)
           && (s in st'.users.sym <==> s in st.users.sym)
           && (s in st.users.sym ==> st'.users.sym[s] == st.users.sym[s])
  {
    LineEffect(t, st, line);
  }

  lemma SymStep(t: Tree, ls: seq<string>, st: LoadState, s: SymName)
    requires Sane(t) && ls != [] && SymGiven(t, ls[..|ls| - 1], st, s)
    ensures SymGiven(t, ls, LoadLine(t, st, ls[|ls| - 1]), s)
  {
    var line := ls[|ls| - 1];
    SymEffect(t, st, line, s);
    forall v ensures SymGives(t, s)(line, v) <==> Reading(t, line) == Some((s, v)) { ReadingIs(t, line, s, v); }
    forall v ensures Last(ls, SymGives(t, s), v) <==>
      if exists w :: SymGives(t, s)(line, w) then SymGives(t, s)(line, v) else Last(ls[..|ls| - 1], SymGives(t, s), v)
    {
      LastSnoc(ls, SymGives(t, s), v);
    }
  }

  /** The choice and the mode that a line sets */
  function ModeRead(t: Tree, line: string): Option<(ChoiceId, Tri)> {
    var (s, v) :- Reading(t, line);
    var c :- ModeSet(t, s, v);
    Some((c, v.tri))
  }

  lemma ModeReadIs(t: Tree, line: string, c: ChoiceId, v: Tri)
    ensures LineSetsMode(t, line, c, v) <==> ModeRead(t, line) == Some((c, v))
  {
    forall s ensures LineGives(t, line, s, UTri(v)) <==> Reading(t, line) == Some((s, UTri(v))) {
      ReadingIs(t, line, s, UTri(v));
    }
  }

  lemma ModeStepOf(t: Tree, ls: seq<string>, st: LoadState, c: ChoiceId)
    requires Sane(t) && ls != [] && ModeGiven(t, ls[..|ls| - 1], st, c)
    ensures ModeGiven(t, ls, LoadLine(t, st, ls[|ls| - 1]), c)
  {
    var line := ls[|ls| - 1];
    ModeEffect(t, st, line, c);
    forall v: Tri ensures ModeGives(t, c)(line, v) <==> ModeRead(t, line) == Some((c, v)) { ModeReadIs(t, line, c, v); }
    forall v: Tri ensures Last(ls, ModeGives(t, c), v) <==>
      if exists w: Tri :: ModeGives(t, c)(line, w)
      then ModeGives(t, c)(line, v) else Last(ls[..|ls| - 1], ModeGives(t, c), v)
    {
      LastSnoc(ls, ModeGives(t, c), v);
    }
  }

  lemma ModeEffect(t: Tree, st: LoadState, line: string, c: ChoiceId)
    requires Sane(t)
    ensures var st', r := LoadLine(t, st, line), ModeRead(t, line);
      if r.Some? && r.value.0 == c
      then ChoiceItem(c) in st'.was && c in st'.users.mode && st'.users.mode[c] == r.value.1
      else && (ChoiceItem(c) in st'.was <==> ChoiceItem(c) in st.was)
           && (c in st'.users.mode <==> c in st.users.mode)
           && (c in st.users.mode ==> st'.users.mode[c] == st.users.mode[c])
  {
    LineEffect(t, st, line);
  }

  /** The choice and the symbol of it that a line sets to y */
  function SelRead(t: Tree, line: string): Option<(ChoiceId, SymName)> {
    var (s, v) :- Reading(t, line);
    if s in t.syms && t.syms[s].choice.Some? && v == UTri(2) then Some((t.syms[s].choice.value, s)) else None
  }

  lemma SelReadIs(t: Tree, line: string, c: ChoiceId, s: SymName)
    ensures LineSelects(t, line, c, s) <==> SelRead(t, line) == Some((c, s))
  {
    ReadingIs(t, line, s, UTri(2));
  }

  lemma SelEffect(t: Tree, st: LoadState, line: string, c: ChoiceId)
    requires Sane(t)
    ensures var st', r := LoadLine(t, st, line), SelRead(t, line);
      && st.was <= st'.was
      && if r.Some? && r.value.0 == c
         then ChoiceItem(c) in st'.was && c in st'.users.sel && st'.users.sel[c] == r.value.1
         else && (c in st'.users.sel <==> c in st.users.sel)
              && (c in st.users.sel ==> st'.users.sel[c] == st.users.sel[c])
  {
    LineEffect(t, st, line);
    if SelRead(t, line).Some? {
      var s := SelRead(t, line).value.1;
      assert SaneSym(t, s);
    }
  }

  lemma SelStep(t: Tree, u: Users, ls: seq<string>, st: LoadState, c: ChoiceId)
    requires Sane(t) && ls != [] && SelGiven(t, u, ls[..|ls| - 1], st, c)
    ensures SelGiven(t, u, ls, LoadLine(t, st, ls[|ls| - 1]), c)
  {
    var line := ls[|ls| - 1];
    SelEffect(t, st, line, c);
    forall s ensures SelGives(t, c)(line, s) <==> SelRead(t, line) == Some((c, s)) { SelReadIs(t, line, c, s); }
    forall s ensures Last(ls, SelGives(t, c), s) <==>
      if exists w :: SelGives(t, c)(line, w) then SelGives(t, c)(line, s) else Last(ls[..|ls| - 1], SelGives(t, c), s)
    {
      LastSnoc(ls, SelGives(t, c), s);
    }
    if SelRead(t, line).Some? && SelRead(t, line).value.0 == c {
      assert Last(ls, SelGives(t, c), SelRead(t, line).value.1);
    } else {
      SameSelected(t, ls, ls[..|ls| - 1], c);
    }
  }

  lemma SameSelected(t: Tree, ls: seq<string>, ls': seq<string>, c: ChoiceId)
    requires forall s :: Last(ls, SelGives(t, c), s) <==> Last(ls', SelGives(t, c), s)
    ensures Selected(t, ls, c) <==> Selected(t, ls', c)
  {
    if s :| Last(ls, SelGives(t, c), s) { assert Last(ls', SelGives(t, c), s); }
    if s :| Last(ls', SelGives(t, c), s) { assert Last(ls, SelGives(t, c), s); }
  }

  lemma {:induction false} LinesGiven(t: Tree, u: Users, ls: seq<string>, s: SymName, c: ChoiceId)
    requires Sane(t)
    ensures var st := LoadLines(t, LoadState(u, {}), ls);
      SymGiven(t, ls, st, s) && ModeGiven(t, ls, st, c) && SelGiven(t, u, ls, st, c)
  {
    if ls != [] {
      LinesGiven(t, u, ls[..|ls| - 1], s, c);
      var st := LoadLines(t, LoadState(u, {}), ls[..|ls| - 1]);
      SymStep(t, ls, st, s);
      ModeStepOf(t, ls, st, c);
      SelStep(t, u, ls, st, c);
    }
  }

  // ----- The loaded configuration -----

  predicate Has<K(==), V(==)>(m: map<K, V>, k: K, v: V) { k in m && m[k] == v }

  /** After loading a file, whatever was set before, a symbol has a user value exactly if a line gives it one, and it is
      the one of the last such line. */
  lemma LoadedSymbols(t: Tree, u: Users, file: string, s: SymName, v: UserVal)
    requires Sane(t)
    ensures var u' := LoadFile(t, u, file); Has(u'.sym, s, v) <==> Last(SplitLines(file), SymGives(t, s), v)
  {
    LinesGiven(t, u, SplitLines(file), s, 0);
  }

  /** The mode of a choice is set exactly if a line does so, and to that of the last such line. */
  lemma LoadedModes(t: Tree, u: Users, file: string, c: ChoiceId, v: Tri)
    requires Sane(t)
    ensures var u' := LoadFile(t, u, file); Has(u'.mode, c, v) <==> Last(SplitLines(file), ModeGives(t, c), v)
  {
    LinesGiven(t, u, SplitLines(file), "", c);
  }

  lemma MarkedIfModed(t: Tree, st: LoadState, ls: seq<string>, c: ChoiceId, u: Users)
    requires Sane(t) && st == LoadLines(t, LoadState(u, {}), ls)
    ensures ChoiceItem(c) in st.was <==> Moded(t, ls, c)
  {
    LinesGiven(t, u, ls, "", c);
    if ChoiceItem(c) in st.was { assert Last(ls, ModeGives(t, c), st.users.mode[c]); }
  }

  ghost predicate Moded(t: Tree, ls: seq<string>, c: ChoiceId) { exists v :: Last(ls, ModeGives(t, c), v) }

  /** The selection of a choice is the symbol of the last line that sets one of its symbols to y. If there is none, but
      some line sets the mode, the choice keeps the selection that it had before; otherwise it has none. */
  lemma LoadedSelections(t: Tree, u: Users, file: string, c: ChoiceId, s: SymName)
    requires Sane(t)
    ensures var u', ls := LoadFile(t, u, file), SplitLines(file);
      Has(u'.sel, c, s) <==>
        || Last(ls, SelGives(t, c), s)
        || (!Selected(t, ls, c) && Moded(t, ls, c) && Has(u.sel, c, s))
  {
    MarkedIfModed(t, LoadLines(t, LoadState(u, {}), SplitLines(file)), SplitLines(file), c, u);
    LinesGiven(t, u, SplitLines(file), "", c);
  }

  // ----- What is left of the old configuration -----

  /** Some line sets the mode of the choice, but none sets a symbol of it to y. */
  ghost predicate OnlyModed(t: Tree, ls: seq<string>, c: ChoiceId) { Moded(t, ls, c) && !Selected(t, ls, c) }

  lemma SameMaps<K(!new), V(!new)>(a: map<K, V>, b: map<K, V>)
    requires forall k, v :: Has(a, k, v) <==> Has(b, k, v)
    ensures a == b
  {
    forall k ensures k in a <==> k in b {
      if k in a { assert Has(a, k, a[k]); }
      if k in b { assert Has(b, k, b[k]); }
    }
    forall k | k in a ensures a[k] == b[k] { assert Has(a, k, a[k]); }
  }

  lemma SameLoaded(t: Tree, u: Users, u0: Users, file: string)
    requires Sane(t)
    ensures LoadFile(t, u, file).sym == LoadFile(t, u0, file).sym && LoadFile(t, u, file).mode == LoadFile(t, u0, file).mode
  {
    var a, b := LoadFile(t, u, file), LoadFile(t, u0, file);
    forall s, v ensures Has(a.sym, s, v) <==> Has(b.sym, s, v) {
      LoadedSymbols(t, u, file, s, v);
      LoadedSymbols(t, u0, file, s, v);
    }
    SameMaps(a.sym, b.sym);
    forall c: ChoiceId, v: Tri ensures Has(a.mode, c, v) <==> Has(b.mode, c, v) {
      LoadedModes(t, u, file, c, v);
      LoadedModes(t, u0, file, c, v);
    }
    SameMaps(a.mode, b.mode);
  }

  /** Loading a configuration in place of the old one forgets all of the old one, exactly unless some choice had a
      selection, and the file sets its mode but none of its symbols to y. */
  lemma ReplacedIff(t: Tree, u: Users, file: string)
    requires Sane(t)
    ensures LoadFile(t, u, file) == LoadFile(t, Users(map[], map[], map[]), file) <==>
      forall c :: c in u.sel ==> !OnlyModed(t, SplitLines(file), c)
  {
    var u0 := Users(map[], map[], map[]);
    var a, b := LoadFile(t, u, file), LoadFile(t, u0, file);
    SameLoaded(t, u, u0, file);
    forall c: ChoiceId, s
      ensures (Has(a.sel, c, s) <==> Has(b.sel, c, s)) <==> !(OnlyModed(t, SplitLines(file), c) && Has(u.sel, c, s))
    {
      SelectionKept(t, u, u0, file, c, s);
    }
    if forall c :: c in u.sel ==> !OnlyModed(t, SplitLines(file), c) {
      SameMaps(a.sel, b.sel);
    } else {
      var c :| c in u.sel && OnlyModed(t, SplitLines(file), c);
      assert !(Has(a.sel, c, u.sel[c]) <==> Has(b.sel, c, u.sel[c]));
    }
  }

  lemma SelectionKept(t: Tree, u: Users, u0: Users, file: string, c: ChoiceId, s: SymName)
    requires Sane(t) && u0.sel == map[]
    ensures var a, b := LoadFile(t, u, file), LoadFile(t, u0, file);
      (Has(a.sel, c, s) <==> Has(b.sel, c, s)) <==> !(OnlyModed(t, SplitLines(file), c) && Has(u.sel, c, s))
  {
    LoadedSelections(t, u, file, c, s);
    LoadedSelections(t, u0, file, c, s);
  }

  // ----- A selection that outlives its configuration -----

  lemma OneLineFile(t: Tree, line: string, c: ChoiceId)
    requires OneLine(line) && line != []
    ensures SplitLines(line) == [line]
    ensures forall v: Tri :: Last([line], ModeGives(t, c), v) <==> LineSetsMode(t, line, c, v)
    ensures forall s :: Last([line], SelGives(t, c), s) <==> LineSelects(t, line, c, s)
  {
    LastLine(line);
    forall v: Tri ensures Last([line], ModeGives(t, c), v) <==> LineSetsMode(t, line, c, v) {
      LastSnoc([line], ModeGives(t, c), v);
    }
    forall s ensures Last([line], SelGives(t, c), s) <==> LineSelects(t, line, c, s) { LastSnoc([line], SelGives(t, c), s); }
  }

  lemma MLine(t: Tree, s: SymName, v: UserVal, x: SymName)
    requires s in t.syms && t.syms[s].kind.Tristate? && ProperName(s) && OneLine(s)
    ensures OneLine(SetLine(s, "m")) && (LineGives(t, SetLine(s, "m"), x, v) <==> x == s && v == UTri(1))
  {
    SetLineOneLine(s, "m");
    Letters();
    assert RStrip("m") == "m" && LogicalText(Tristate, "m") && "m"[..1] == "m";
    SetLineParsed(s, "m");
    assert Reading(t, SetLine(s, "m")) == Some((s, UTri(1)));
    ReadingIs(t, SetLine(s, "m"), x, v);
  }

  /** For every choice of type tristate and every tristate symbol of it: a configuration that sets this symbol to m, and
      nothing else, leaves the selection that the choice had, and while that is visible the choice selects it. */
  lemma SelectionOutlives(t: Tree, u: Users, c: ChoiceId, s: SymName, m: Answers)
    requires Sane(t) && c in t.choices && t.choices[c].kind.Tristate? && c in u.sel
    requires s in t.syms && t.syms[s].kind.Tristate? && t.syms[s].choice == Some(c) && ProperName(s) && OneLine(s)
    requires AllValues(t, LoadFile(t, u, SetLine(s, "m")), m)
    ensures OnlyModed(t, SplitLines(SetLine(s, "m")), c)
    ensures VisIn(m, ChoiceItem(c)) != 0 && VisIn(m, SymItem(u.sel[c])) != 0 ==> SelIn(m, c) == Some(u.sel[c])
  {
    var line := SetLine(s, "m");
    var u' := LoadFile(t, u, line);
    forall x, v ensures LineGives(t, line, x, v) <==> x == s && v == UTri(1) { MLine(t, s, v, x); }
    MLine(t, s, UTri(1), s);
    OneLineFile(t, line, c);
    assert LineSetsMode(t, line, c, 1);
    LoadedSelections(t, u, line, c, u.sel[c]);
    LoadedModes(t, u, line, c, 1);
    assert Has(u'.sel, c, u.sel[c]) && Has(u'.mode, c, 1);
    KconfigLaws.ModeOf(t, u', m, c);
    KconfigLaws.SelectionOf(t, u', m, c);
  }
}
