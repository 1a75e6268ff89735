/** Writing a full configuration: the walk over the menu tree that writes the lines of symbols, and menu titles and
    comments between them. */
module ConfigWriter {
  import opened Wrappers
  import opened KconfigTree
  import opened KconfigEval
  import opened KconfigCache
  import opened KconfigReload
  import opened KconfigFile
  import opened ConfigText
  import opened MenuForest
  import MenuTree

  /** The walk enters a node, or leaves one that has children. */
  datatype Event = Enter(id: Id) | Leave(id: Id)

  function Events(f: Forest): seq<Event> {
    if f.Nil? then [] else [Enter(f.id)] + Events(f.list) + (if f.list.Menu? then [Leave(f.id)] else []) + Events(f.next)
  }

  function TitleIn(titles: map<Id, string>, id: Id): string { if id in titles then titles[id] else "" }

  /** What the writer looks at: the nodes' attributes and prompt texts, and all values */
  datatype View = View(t: Tree, u: Users, m: Answers, e: Attributes, titles: map<Id, string>) {
    function Title(id: Id): string { TitleIn(titles, id) }
    predicate On(x: Expr) { ExprVal(t, u, m, x).Some? && ExprVal(t, u, m, x).value != 0 }
    predicate MenuShown(id: Id) { e.Item(id).MenuEntry? && On(e.Of(id).dep) && On(e.VisibleIf(id)) }
    predicate Shown(id: Id) { MenuShown(id) || (e.Item(id).CommentEntry? && On(e.Of(id).dep)) }
  }

  /** The lines so far, whether an end comment was the last of them, and the symbols already visited */
  datatype Page = Page(lines: seq<Line>, afterEnd: bool, seen: set<SymName>)

  function TitleLines(title: string): seq<Line> { [Remark(""), Remark("#"), Remark("# " + title), Remark("#")] }

  function Write(v: View, p: Page, ev: Event): Page {
    match ev
    case Leave(id) =>
      if v.MenuShown(id) then p.(lines := p.lines + [Remark("# end of " + v.Title(id))], afterEnd := true) else p
    case Enter(id) =>
      if v.e.Item(id).SymbolEntry? then
        var s := v.e.Item(id).sym;
        if s in p.seen then p
        else if !WriteIn(v.m, s) then p.(seen := p.seen + {s})
        else Page(p.lines + (if p.afterEnd then [Remark("")] else []) + [SymbolLine(s)], false, p.seen + {s})
      else if v.Shown(id) then p.(lines := p.lines + TitleLines(v.Title(id)), afterEnd := false)
      else p
  }

  function WriteAll(v: View, p: Page, evs: seq<Event>): Page {
    if evs == [] then p else Write(v, WriteAll(v, p, evs[..|evs| - 1]), evs[|evs| - 1])
  }

  lemma WriteAllSnoc(v: View, p: Page, evs: seq<Event>, ev: Event)
    ensures WriteAll(v, p, evs + [ev]) == Write(v, WriteAll(v, p, evs), ev)
  {
    assert (evs + [ev])[..|evs|] == evs;
  }

  /** The lines of a full configuration */
  function ConfigLines(v: View, header: seq<string>, f: Forest): seq<Line> {
    WriteAll(v, Page(Remarks(header), false, {}), Events(f)).lines
  }

  // ----- What the lines are -----

  function SymsOf(v: View, evs: seq<Event>): set<SymName> {
    set ev | ev in evs && ev.Enter? && v.e.Item(ev.id).SymbolEntry? :: v.e.Item(ev.id).sym
  }

  lemma SymsOfStep(v: View, evs: seq<Event>)
    requires evs != []
    ensures var front, ev := evs[..|evs| - 1], evs[|evs| - 1];
      SymsOf(v, evs) == SymsOf(v, front)
        + if ev.Enter? && v.e.Item(ev.id).SymbolEntry? then {v.e.Item(ev.id).sym} else {}
  {
    assert evs == evs[..|evs| - 1] + [evs[|evs| - 1]];
  }

  lemma EntriesConcat(a: seq<Line>, b: seq<Line>)
    ensures Entries(a + b) == Entries(a) + Entries(b)
  {
  }

  predicate EntersSymbol(v: View, ev: Event) { ev.Enter? && v.e.Item(ev.id).SymbolEntry? }

  lemma SymbolEntries(v: View, p: Page, id: Id)
    requires v.e.Item(id).SymbolEntry?
    ensures var s, q := v.e.Item(id).sym, Write(v, p, Enter(id));
            && q.seen == p.seen + {s}
            && Entries(q.lines) == Entries(p.lines) + if s !in p.seen && WriteIn(v.m, s) then {s} else {}
  {
    var s := v.e.Item(id).sym;
    if s !in p.seen && WriteIn(v.m, s) {
      var gap := if p.afterEnd then [Remark("")] else [];
      EntriesConcat(p.lines + gap, [SymbolLine(s)]);
      EntriesConcat(p.lines, gap);
    }
  }

  lemma RemarkEntries(v: View, p: Page, ev: Event)
    requires !EntersSymbol(v, ev)
    ensures var q := Write(v, p, ev); q.seen == p.seen && Entries(q.lines) == Entries(p.lines)
  {
    if ev.Leave? { EntriesConcat(p.lines, [Remark("# end of " + v.Title(ev.id))]); }
    else { EntriesConcat(p.lines, TitleLines(v.Title(ev.id))); }
  }

  /** Each visited symbol that is to be written has its line, and no other symbol has one. */
  lemma {:induction false} AllEntries(v: View, header: seq<string>, evs: seq<Event>)
    ensures var p := WriteAll(v, Page(Remarks(header), false, {}), evs);
      p.seen == SymsOf(v, evs) && Entries(p.lines) == (set s | s in SymsOf(v, evs) && WriteIn(v.m, s))
  {
    if evs != [] {
      var front := evs[..|evs| - 1];
      AllEntries(v, header, front);
      SymsOfStep(v, evs);
      var p, ev := WriteAll(v, Page(Remarks(header), false, {}), front), evs[|evs| - 1];
      if EntersSymbol(v, ev) { SymbolEntries(v, p, ev.id); } else { RemarkEntries(v, p, ev); }
    }
  }

  predicate OneLineTitles(v: View) { forall id :: id in v.titles ==> OneLine(v.titles[id]) }

  lemma WriteRemarks(v: View, p: Page, ev: Event)
    requires ProperRemarks(p.lines) && OneLineTitles(v)
    ensures ProperRemarks(Write(v, p, ev).lines)
  {
    assert OneLine("# " + v.Title(ev.id)) && OneLine("# end of " + v.Title(ev.id)) && OneLine("#") && OneLine("");
  }

  lemma {:induction false} AllRemarks(v: View, header: seq<string>, evs: seq<Event>)
    requires ProperHeader(header) && OneLineTitles(v)
    ensures ProperRemarks(WriteAll(v, Page(Remarks(header), false, {}), evs).lines)
  {
    if evs != [] {
      AllRemarks(v, header, evs[..|evs| - 1]);
      WriteRemarks(v, WriteAll(v, Page(Remarks(header), false, {}), evs[..|evs| - 1]), evs[|evs| - 1]);
    }
  }

  // ----- Which lines can reset a symbol -----

  /** A title that reads as the line of an unset symbol: exactly a logical symbol's name between the prefix and
      " is not set", with anything behind */
  predicate Misleading(t: Tree, title: string, s: SymName) {
    s in t.syms && t.syms[s].kind.Logical() && s != [] && ' ' !in s && PREFIX + (s + NOT_SET) <= title
  }

  lemma TitleUnsets(t: Tree, title: string, s: SymName)
    ensures Unsets(t, "# " + title) == Some(s) <==> Misleading(t, title, s)
  {
    TitleRead(title, s);
  }

  /** A remark stems from the header, or is a title, or resets nothing. */
  ghost predicate Explained(v: View, header: seq<string>, evs: seq<Event>, text: string) {
    || text in header
    || (exists id :: Enter(id) in evs && v.Shown(id) && text == "# " + v.Title(id))
    || Unsets(v.t, text).None?
  }

  lemma WriteExplained(v: View, header: seq<string>, evs: seq<Event>, p: Page, ev: Event, l: Line)
    requires l in Write(v, p, ev).lines && l.Remark? && l !in p.lines && ev in evs
    ensures Explained(v, header, evs, l.text)
  {
    var title := v.Title(ev.id);
    PlainComments(title);
    if ev.Leave? { assert l == Remark("# end of " + title); } else { EnterExplained(v, p, ev.id, l); }
  }

  lemma EnterExplained(v: View, p: Page, id: Id, l: Line)
    requires l in Write(v, p, Enter(id)).lines && l.Remark? && l !in p.lines
    ensures l.text in ["", "#"] || (v.Shown(id) && l.text == "# " + v.Title(id))
  {
    if v.e.Item(id).SymbolEntry? { assert l == Remark(""); } else { assert l in TitleLines(v.Title(id)); }
  }

  lemma {:induction false} AllExplained(v: View, header: seq<string>, evs: seq<Event>, l: Line)
    requires l in WriteAll(v, Page(Remarks(header), false, {}), evs).lines && l.Remark?
    ensures Explained(v, header, evs, l.text)
  {
    if evs != [] {
      var front, ev := evs[..|evs| - 1], evs[|evs| - 1];
      var p := WriteAll(v, Page(Remarks(header), false, {}), front);
      assert forall x :: x in front ==> x in evs;
      if l in p.lines { AllExplained(v, header, front, l); } else { WriteExplained(v, header, evs, p, ev, l); }
    }
  }

  /** Where neither the header nor a shown title is misleading, nothing is silenced. */
  lemma NoneSilenced(v: View, header: seq<string>, f: Forest)
    requires forall x :: x in header ==> Unsets(v.t, x).None?
    requires forall id, s :: Enter(id) in Events(f) && v.Shown(id) ==> !Misleading(v.t, v.Title(id), s)
    ensures Silenced(v.t, ConfigLines(v, header, f)) == {}
  {
    forall l | l in ConfigLines(v, header, f) && l.Remark? ensures Unsets(v.t, l.text).None? {
      AllExplained(v, header, Events(f), l);
      if Unsets(v.t, l.text).Some? {
        var s := Unsets(v.t, l.text).value;
        var id :| Enter(id) in Events(f) && v.Shown(id) && l.text == "# " + v.Title(id);
        TitleUnsets(v.t, v.Title(id), s);
      }
    }
    NothingSilenced(v.t, ConfigLines(v, header, f));
  }

  const HEADER := "# Generated" + " by Kconfiglib (https://github.com/ulfalizer/Kconfiglib)"

  /** The default header resets nothing. */
  lemma HeaderUnsetsNothing(t: Tree)
    ensures Comment(HEADER) && Unsets(t, HEADER).None?
  {
    var start := "# Generated";
    assert start[0] == '#' && start[2] == 'G' && PREFIX[0] == 'C';
    assert HEADER[..|start|] == start && HEADER[0] == start[0] && HEADER[2] == start[2];
    CommentSetsNothing(HEADER);
    forall name ensures ParseLine(HEADER) != Some(Unset(name)) {
      CommentRead(HEADER, name);
      OtherStart(HEADER, name);
    }
  }

  // ----- The reload theorem for the written file -----

  ghost function ViewOf(t: Tree, rank: Query -> nat, u: Users, e: Attributes, titles: map<Id, string>): View
    requires Setting(t, rank, u)
  {
    View(t, u, Values(t, rank, u), e, titles)
  }

  /** Every defined symbol has a node, and nodes are of defined symbols. */
  predicate Placed(t: Tree, e: Attributes, f: Forest) {
    (set ev | ev in Events(f) && ev.Enter? && e.Item(ev.id).SymbolEntry? :: e.Item(ev.id).sym) == t.syms.Keys
  }

  /** The full configuration with its titles and comments: loading it keeps every value and mode, exactly when no
      optional choice is in y mode without a selected symbol, no misleading comment resets a symbol for good, and no
      written number loses white space that it would keep. */
  lemma WrittenReload(
      t: Tree, rank: Query -> nat, u: Users, e: Attributes, titles: map<Id, string>, header: seq<string>, f: Forest)
    requires Setting(t, rank, u) && NoHiddenValues(t, u) && Writable(t, Values(t, rank, u)) && Pythonic(t.num)
    requires Placed(t, e, f) && ProperHeader(header) && OneLineTitles(ViewOf(t, rank, u, e, titles))
    ensures var v := ViewOf(t, rank, u, e, titles); var ls := ConfigLines(v, header, f);
      Unchanged(t, rank, u, LoadFile(t, u, FileText(t, v.m, ls)))
      <==> Representable(t, u, v.m) && Harmless(t, u, v.m, Silenced(t, ls)) && Unstripped(t, u, v.m, FullSet(t, v.m))
  {
    var v := ViewOf(t, rank, u, e, titles);
    AllEntries(v, header, Events(f));
    AllRemarks(v, header, Events(f));
    assert SymsOf(v, Events(f)) == t.syms.Keys;
    FullReload(t, rank, u, ConfigLines(v, header, f));
  }

  // ----- A comment that resets a symbol -----

  /** One bool symbol that is y by default ... */
  function DefaultYes(s: SymName, num: Numerals): Tree {
    Tree(map[s := SymDef(Bool, [Y], [Default(Y, Y)], [], N, N, Y, None, false)], map[], num)
  }

  /** ... followed by a comment that reads as the line of the unset symbol */
  function CommentAfter(s: SymName): (Attributes, map<Id, string>, Forest) {
    (Attributes(map[1 := SymbolEntry(s), 2 := CommentEntry], map[], map[]),
     map[2 := PREFIX + (s + NOT_SET)],
     Menu(1, Nil, Menu(2, Nil, Nil)))
  }

  function NoUsers(): Users { Users(map[], map[], map[]) }

  function ByQuery(): Query -> nat { (q: Query) => if q.Vis? then 0 else if q.TriVal? then 1 else 2 }

  lemma DefaultYesSetting(s: SymName, num: Numerals)
    ensures Setting(DefaultYes(s, num), ByQuery(), NoUsers())
  {
    var t := DefaultYes(s, num);
    assert ExprItems(Y) == {} && ExprItems(N) == {};
    assert PromptItems([]) == {} && [Y][1..] == [] && PromptItems([Y]) == {};
    var ds := [Default(Y, Y)];
    assert DefaultItems([]) == {} && ds[1..] == [] && DefaultItems(ds) == {} && RangeItems([]) == {};
    assert ItemsReads(t, {}) == {};
    assert SaneSym(t, s);
    forall q, p | Varies(t, q) && p in Reads(t, q) ensures Varies(t, p) && ByQuery()(p) < ByQuery()(q) {
      assert ItemOf(q) == SymItem(s);
    }
  }

  lemma DefaultYesValues(s: SymName, num: Numerals, m: Answers)
    requires AllValues(DefaultYes(s, num), NoUsers(), m)
    ensures VisIn(m, SymItem(s)) == 2 && TextIn(m, s) == "y" && WriteIn(m, s)
    ensures ExprVal(DefaultYes(s, num), NoUsers(), m, N) == Some(0)
    ensures ExprVal(DefaultYes(s, num), NoUsers(), m, Y) == Some(2)
  {
    var t, u := DefaultYes(s, num), NoUsers();
    YesText();
    assert "n"[0] != "y"[0] && "n"[0] != "m"[0];
    assert ExprVal(t, u, m, Y) == Some(2) && ExprVal(t, u, m, N) == Some(0);
    assert [Y][1..] == [] && MaxPrompt(t, u, m, [Y][1..]) == Some(0);
    Typed(t, u, m, Vis(SymItem(s)));
    Typed(t, u, m, TriVal(s));
    Typed(t, u, m, StrVal(s));
    assert m[Vis(SymItem(s))] == TriV(2, false);
    assert FirstDefault(t, u, m, t.syms[s].defaults) == Some(2);
    assert m[TriVal(s)] == TriV(2, true);
  }

  lemma CommentSilences(t: Tree, s: SymName, ls: seq<Line>)
    requires s in t.syms && t.syms[s].kind.Logical() && ProperName(s)
    ensures s in Silenced(t, ls + TitleLines(PREFIX + (s + NOT_SET)))
  {
    var title := PREFIX + (s + NOT_SET);
    assert Misleading(t, title, s);
    TitleUnsets(t, title, s);
    TitleSilences(t, s, title, ls);
  }

  lemma TitleSilences(t: Tree, s: SymName, title: string, ls: seq<Line>)
    requires Unsets(t, "# " + title) == Some(s)
    ensures s in Silenced(t, ls + TitleLines(title))
  {
    PlainComments("");
    var c := ls + [Remark(""), Remark("#")] + [Remark("# " + title)];
    SilencedSnoc(t, ls + [Remark(""), Remark("#")], Remark("# " + title));
    SilencedSnoc(t, c, Remark("#"));
    assert ls + TitleLines(title) == c + [Remark("#")];
  }

  lemma SilencedSnoc(t: Tree, ls: seq<Line>, l: Line)
    ensures l.Remark? && Unsets(t, l.text).Some? ==> Silenced(t, ls + [l]) == Silenced(t, ls) + {Unsets(t, l.text).value}
    ensures l.Remark? && Unsets(t, l.text).None? ==> Silenced(t, ls + [l]) == Silenced(t, ls)
  {
    assert (ls + [l])[..|ls|] == ls;
  }

  lemma CommentLines(v: View, header: seq<string>, s: SymName)
    requires (v.e, v.titles) == (CommentAfter(s).0, CommentAfter(s).1) && WriteIn(v.m, s) && v.On(Y)
    ensures ConfigLines(v, header, CommentAfter(s).2) ==
      Remarks(header) + [SymbolLine(s)] + TitleLines(PREFIX + (s + NOT_SET))
  {
    var p := Page(Remarks(header), false, {});
    var evs := [Enter(1), Enter(2)];
    assert Events(CommentAfter(s).2) == evs;
    WriteAllSnoc(v, p, [], Enter(1));
    WriteAllSnoc(v, p, [Enter(1)], Enter(2));
    assert [] + [Enter(1)] == [Enter(1)] && [Enter(1)] + [Enter(2)] == evs;
    assert Remarks(header) + [] + [SymbolLine(s)] == Remarks(header) + [SymbolLine(s)];
  }

  lemma CommentHarms(s: SymName, num: Numerals, header: seq<string>, m: Answers)
    requires ProperName(s) && AllValues(DefaultYes(s, num), NoUsers(), m)
    ensures var v := View(DefaultYes(s, num), NoUsers(), m, CommentAfter(s).0, CommentAfter(s).1);
      !Harmless(v.t, v.u, m, Silenced(v.t, ConfigLines(v, header, CommentAfter(s).2)))
  {
    var t := DefaultYes(s, num);
    var v := View(t, NoUsers(), m, CommentAfter(s).0, CommentAfter(s).1);
    DefaultYesValues(s, num, m);
    CommentLines(v, header, s);
    CommentSilences(t, s, Remarks(header) + [SymbolLine(s)]);
    assert !Immune(t, NoUsers(), m, s) by { YesText(); }
  }

  lemma DefaultYesWritable(s: SymName, num: Numerals, m: Answers)
    requires ProperName(s) && AllValues(DefaultYes(s, num), NoUsers(), m)
    ensures Writable(DefaultYes(s, num), m) && Representable(DefaultYes(s, num), NoUsers(), m)
  {
    DefaultYesValues(s, num, m);
    assert OneLine("y");
  }

  lemma CommentResetsIn(t: Tree, rank: Query -> nat, u: Users, s: SymName, num: Numerals, header: seq<string>)
    requires t == DefaultYes(s, num) && u == NoUsers() && Setting(t, rank, u)
    requires ProperName(s) && OneLine(s) && ProperHeader(header)
    ensures Representable(t, u, Values(t, rank, u)) && Writable(t, Values(t, rank, u))
    ensures var v := ViewOf(t, rank, u, CommentAfter(s).0, CommentAfter(s).1);
      !Unchanged(t, rank, u, LoadFile(t, u, FileText(t, v.m, ConfigLines(v, header, CommentAfter(s).2))))
  {
    ValuesAll(t, rank, u);
    DefaultYesWritable(s, num, Values(t, rank, u));
    CommentHarms(s, num, header, Values(t, rank, u));
    TitleIsOneLine(s);
    PlacedOne(s, num);
    HarmfulChanges(t, rank, u, CommentAfter(s).0, CommentAfter(s).1, header, CommentAfter(s).2);
  }

  /** Loading this file sets the symbol to n, although no choice is involved and everything can be written. */
  lemma CommentResets(s: SymName, num: Numerals, header: seq<string>)
    requires ProperName(s) && OneLine(s) && ProperHeader(header)
    ensures Setting(DefaultYes(s, num), ByQuery(), NoUsers())
    ensures var m := Values(DefaultYes(s, num), ByQuery(), NoUsers());
      Representable(DefaultYes(s, num), NoUsers(), m) && Writable(DefaultYes(s, num), m)
    ensures var t := DefaultYes(s, num);
      var v := ViewOf(t, ByQuery(), NoUsers(), CommentAfter(s).0, CommentAfter(s).1);
      !Unchanged(t, ByQuery(), NoUsers(),
                 LoadFile(t, NoUsers(), FileText(t, v.m, ConfigLines(v, header, CommentAfter(s).2))))
  {
    DefaultYesSetting(s, num);
    CommentResetsIn(DefaultYes(s, num), ByQuery(), NoUsers(), s, num, header);
  }

  lemma TitleIsOneLine(s: SymName)
    requires OneLine(s)
    ensures OneLine(PREFIX + (s + NOT_SET))
  {
    assert OneLine(PREFIX) && OneLine(NOT_SET);
    OneLineConcat(s, NOT_SET);
    OneLineConcat(PREFIX, s + NOT_SET);
  }

  lemma HarmfulChanges(
      t: Tree, rank: Query -> nat, u: Users, e: Attributes, titles: map<Id, string>, header: seq<string>, f: Forest)
    requires Setting(t, rank, u) && u.sym == map[] && Writable(t, Values(t, rank, u))
    requires Placed(t, e, f) && ProperHeader(header) && forall id :: id in titles ==> OneLine(titles[id])
    requires var v := ViewOf(t, rank, u, e, titles); !Harmless(t, u, v.m, Silenced(t, ConfigLines(v, header, f)))
    ensures var v := ViewOf(t, rank, u, e, titles);
      !Unchanged(t, rank, u, LoadFile(t, u, FileText(t, v.m, ConfigLines(v, header, f))))
  {
    var v := ViewOf(t, rank, u, e, titles);
    AllEntries(v, header, Events(f));
    AllRemarks(v, header, Events(f));
    assert SymsOf(v, Events(f)) == t.syms.Keys;
    ResetNeeds(t, rank, u, ConfigLines(v, header, f));
  }

  lemma ResetNeeds(t: Tree, rank: Query -> nat, u: Users, ls: seq<Line>)
    requires Setting(t, rank, u) && !Harmless(t, u, Values(t, rank, u), Silenced(t, ls))
    requires var m := Values(t, rank, u); Entries(ls) <= FullSet(t, m) && Writable(t, m) && ProperRemarks(ls)
    ensures !Unchanged(t, rank, u, LoadFile(t, u, FileText(t, Values(t, rank, u), ls)))
  {
    if Unchanged(t, rank, u, LoadFile(t, u, FileText(t, Values(t, rank, u), ls))) { ReloadNeeds(t, rank, u, ls); }
  }

  lemma PlacedOne(s: SymName, num: Numerals)
    ensures Placed(DefaultYes(s, num), CommentAfter(s).0, CommentAfter(s).2)
  {
    assert Events(CommentAfter(s).2) == [Enter(1), Enter(2)];
  }

  // ----- The walk of the writer -----

  function LeaveOf(f: Forest, above: MenuTree.Above): seq<Event>
    requires f.Menu?
  {
    if f.list.Menu? && above.Below? then [Leave(f.id)] else []
  }

  /** The events after everything below a place; the top node is not left. */
  function Later(above: MenuTree.Above): seq<Event> {
    if above.Top? || above.up.Nil? then []
    else (if above.above.Below? then [Leave(above.up.id)] else []) + (Events(above.up.next) + Later(above.above))
  }

  function Pending(here: Forest, above: MenuTree.Above): seq<Event>
    requires here.Menu?
  {
    Events(here.list) + (LeaveOf(here, above) + (Events(here.next) + Later(above)))
  }

  predicate Linked(k: MenuTree.Links, here: Forest, above: MenuTree.Above) {
    here.Menu? && MenuTree.Linked(k, here, MenuTree.ParentOf(above), None) && MenuTree.LinkedAbove(k, above)
  }

  lemma Regroup(done: seq<Event>, a: seq<Event>, b: seq<Event>, c: seq<Event>, d: seq<Event>, rest: seq<Event>)
    ensures done + ((a + b + c + d) + rest) == (done + a) + (b + (c + (d + rest)))
  {
    assert (a + b + c + d) + rest == a + (b + (c + (d + rest)));
  }

  lemma GoDown(done: seq<Event>, here: Forest, above: MenuTree.Above)
    requires here.Menu? && here.list.Menu?
    ensures done + Pending(here, above) == (done + [Enter(here.list.id)]) + Pending(here.list, MenuTree.Below(here, above))
  {
    var l, below := here.list, MenuTree.Below(here, above);
    var rest := LeaveOf(here, above) + (Events(here.next) + Later(above));
    assert Later(below) == rest;
    Regroup(done, [Enter(l.id)], Events(l.list), LeaveOf(l, below), Events(l.next), rest);
  }

  lemma GoOn(done: seq<Event>, next: Forest, above: MenuTree.Above)
    requires next.Menu? && above.Below?
    ensures done + (Events(next) + Later(above)) == (done + [Enter(next.id)]) + Pending(next, above)
  {
    Regroup(done, [Enter(next.id)], Events(next.list), LeaveOf(next, above), Events(next.next), Later(above));
  }

  lemma LeafPending(here: Forest, above: MenuTree.Above)
    requires here.Menu? && here.list.Nil?
    ensures Pending(here, above) == Events(here.next) + Later(above)
  {
  }

  lemma GoUp(done: seq<Event>, above: MenuTree.Above)
    requires above.Below? && above.up.Menu?
    ensures var left := if above.above.Below? then [Leave(above.up.id)] else [];
      done + Later(above) == (done + left) + (Events(above.up.next) + Later(above.above))
  {
  }

  lemma AnyBound(rank: Query -> nat, qs: set<Query>) returns (bound: nat)
    ensures forall q :: q in qs ==> rank(q) < bound
  {
    if qs == {} {
      bound := 0;
    } else {
      var q :| q in qs;
      var b := AnyBound(rank, qs - {q});
      bound := if rank(q) < b then b else rank(q) + 1;
      assert forall p :: p in qs ==> p == q || p in qs - {q};
    }
  }

  /** expr_value() as a condition */
  method IsOn(k: Kconfig, x: Expr) returns (b: bool)
    requires k.Valid()
    modifies k`cache
    ensures k.Valid()
    ensures b == (ExprVal(k.t, k.users, ValuesOf(k), x).Some? && ExprVal(k.t, k.users, ValuesOf(k), x).value != 0)
  {
    ghost var xs := ExprItems(x);
    ghost var bound := AnyBound(k.rank, ItemsReads(k.t, xs));
    var v := ExprIn(k, x, xs, bound);
    b := v != 0;
  }

  /** The menu tree that is written: the nodes' links and attributes, the prompt texts, and the top node */
  datatype Source = Source(links: MenuTree.Links, e: Attributes, titles: map<Id, string>, top: Id)

  ghost function Sees(k: Kconfig, c: Source): View
    requires k.Valid()
    reads k
  {
    View(k.t, k.users, ValuesOf(k), c.e, c.titles)
  }

  method IsMenuShown(k: Kconfig, c: Source, id: Id) returns (b: bool)
    requires k.Valid()
    modifies k`cache
    ensures k.Valid() && b == Sees(k, c).MenuShown(id)
  {
    b := c.e.Item(id).MenuEntry?;
    if b {
      b := IsOn(k, c.e.Of(id).dep);
      if b {
        b := IsOn(k, c.e.VisibleIf(id));
      }
    }
  }

  method IsShown(k: Kconfig, c: Source, id: Id) returns (b: bool)
    requires k.Valid()
    modifies k`cache
    ensures k.Valid() && b == Sees(k, c).Shown(id)
  {
    if c.e.Item(id).CommentEntry? {
      b := IsOn(k, c.e.Of(id).dep);
    } else {
      b := IsMenuShown(k, c, id);
    }
  }

  /** The chunks of text so far, as lines, with the writer's flags. `lines` tells what they are. */
  datatype Output = Output(texts: seq<string>, afterEnd: bool, seen: set<SymName>)

  ghost predicate Shows(v: View, o: Output, p: Page) {
    o.texts == Texts(v.t, v.m, p.lines) && o.afterEnd == p.afterEnd && o.seen == p.seen
  }

  lemma {:induction false} TextsConcat(t: Tree, m: Answers, a: seq<Line>, b: seq<Line>)
    ensures Texts(t, m, a + b) == Texts(t, m, a) + Texts(t, m, b)
    decreases |b|
  {
    if b == [] {
      assert a + b == a;
    } else {
      var front, l := b[..|b| - 1], b[|b| - 1];
      assert a + b == (a + front) + [l] && b == front + [l];
      TextsConcat(t, m, a, front);
      TextsSnoc(t, m, a + front, l);
      TextsSnoc(t, m, front, l);
    }
  }

  lemma RemarksOf(t: Tree, m: Answers, a: seq<Line>, texts: seq<string>)
    ensures Texts(t, m, a + Remarks(texts)) == Texts(t, m, a) + texts
  {
    TextsConcat(t, m, a, Remarks(texts));
    RemarkTexts(t, m, texts);
  }

  /** The output for a node */
  method PutNode(k: Kconfig, c: Source, id: Id, o: Output, ghost p: Page) returns (o': Output)
    requires k.Valid() && (c.e.Item(id).SymbolEntry? ==> c.e.Item(id).sym in k.t.syms) && Shows(Sees(k, c), o, p)
    modifies k`cache
    ensures k.Valid() && Shows(Sees(k, c), o', Write(Sees(k, c), p, Enter(id)))
  {
    ghost var v := Sees(k, c);
    if c.e.Item(id).SymbolEntry? {
      o' := PutSymbol(k, c, id, o, p);
    } else {
      var shown := IsShown(k, c, id);
      if shown {
        var title := TitleIn(c.titles, id);
        RemarksOf(k.t, v.m, p.lines, ["", "#", "# " + title, "#"]);
        assert TitleLines(title) == Remarks(["", "#", "# " + title, "#"]);
        o' := Output(o.texts + ["", "#", "# " + title, "#"], false, o.seen);
      } else {
        o' := o;
      }
    }
  }

  method PutSymbol(k: Kconfig, c: Source, id: Id, o: Output, ghost p: Page) returns (o': Output)
    requires k.Valid() && c.e.Item(id).SymbolEntry? && c.e.Item(id).sym in k.t.syms && Shows(Sees(k, c), o, p)
    modifies k`cache
    ensures k.Valid() && Shows(Sees(k, c), o', Write(Sees(k, c), p, Enter(id)))
  {
    var s := c.e.Item(id).sym;
    ghost var m := ValuesOf(k);
    if s in o.seen {
      return o;
    }
    var line := ConfigString(k, s);
    if line.None? {
      return Output(o.texts, o.afterEnd, o.seen + {s});
    }
    var texts := o.texts;
    ghost var lines := p.lines;
    if o.afterEnd {
      TextsSnoc(k.t, m, lines, Remark(""));
      texts, lines := texts + [""], lines + [Remark("")];
    }
    TextsSnoc(k.t, m, lines, SymbolLine(s));
    o' := Output(texts + [line.value], false, o.seen + {s});
    assert p.lines + (if p.afterEnd then [Remark("")] else []) == lines;
  }

  /** The comment when a shown menu is left */
  method PutEnd(k: Kconfig, c: Source, id: Id, o: Output, ghost p: Page) returns (o': Output)
    requires k.Valid() && Shows(Sees(k, c), o, p)
    modifies k`cache
    ensures k.Valid() && Shows(Sees(k, c), o', Write(Sees(k, c), p, Leave(id)))
  {
    ghost var m := ValuesOf(k);
    var shown := IsMenuShown(k, c, id);
    if shown {
      TextsSnoc(k.t, m, p.lines, Remark("# end of " + TitleIn(c.titles, id)));
      o' := Output(o.texts + ["# end of " + TitleIn(c.titles, id)], true, o.seen);
    } else {
      o' := o;
    }
  }

  /** What the walk is to do: the events `all`, on the page `start` */
  datatype Script = Script(v: View, start: Page, all: seq<Event>)

  /** Where the walk is, and the events it has written */
  datatype Spot = Spot(here: Forest, above: MenuTree.Above, done: seq<Event>)

  /** The events so far are written, and `rest` is to come. */
  ghost predicate Walking(w: Script, o: Output, done: seq<Event>, rest: seq<Event>) {
    done + rest == w.all && Shows(w.v, o, WriteAll(w.v, w.start, done))
  }

  /** The spot is the node `cur` of the menu tree. */
  ghost predicate At(c: Source, at: Spot, cur: Id) {
    Linked(c.links, at.here, at.above) && at.here.id == cur && TopIs(at.above, at.here, c.top)
  }

  /** All symbols among the events are defined. */
  ghost predicate Known(t: Tree, e: Attributes, evs: seq<Event>) {
    forall id :: Enter(id) in evs && e.Item(id).SymbolEntry? ==> e.Item(id).sym in t.syms
  }

  /** The next node, or the end */
  ghost predicate Moves(c: Source, w: Script, o: Output, at: Spot, next: Option<Id>) {
    match next
    case None => Shows(w.v, o, WriteAll(w.v, w.start, w.all))
    case Some(id) => At(c, at, id) && Walking(w, o, at.done, [Enter(id)] + Pending(at.here, at.above))
  }

  /** One level up, with the comment that ends a shown menu */
  method ClimbOne(k: Kconfig, c: Source, cur: Id, o: Output, ghost w: Script, ghost at: Spot)
    returns (o': Output, ghost done: seq<Event>)
    requires k.Valid() && w.v == Sees(k, c) && Walking(w, o, at.done, Later(at.above))
    requires at.above.Below? && at.above.up.Menu? && cur == at.above.up.id && (at.above.above.Below? <==> cur != c.top)
    modifies k`cache
    ensures k.Valid() && w.v == Sees(k, c) && |done| >= |at.done|
    ensures Walking(w, o', done, Events(at.above.up.next) + Later(at.above.above))
  {
    GoUp(at.done, at.above);
    o', done := o, at.done;
    if cur != c.top {
      o' := PutEnd(k, c, cur, o, WriteAll(w.v, w.start, done));
      WriteAllSnoc(w.v, w.start, done, Leave(cur));
      done := done + [Leave(cur)];
    } else {
      assert done + [] == done;
    }
  }

  lemma UpIsTop(above: MenuTree.Above, here: Forest, top: Id)
    requires TopIs(above, here, top) && above.Below? && above.up.Menu?
    ensures above.above.Below? <==> above.up.id != top
    ensures above.above.Below? ==> TopIs(above.above, above.up.next, top)
    ensures above.above.Top? ==> above.up.next.Nil?
  {
  }

  lemma Onward(done: seq<Event>, next: Forest, above: MenuTree.Above)
    requires next.Menu? && above.Below?
    ensures done + (Events(next) + Later(above)) == done + ([Enter(next.id)] + Pending(next, above))
  {
    GoOn(done, next, above);
    Moved(done, next.id, Pending(next, above));
  }

  /** The inner loop of the walk: up to the next parent that has a successor */
  method Climb(k: Kconfig, c: Source, start: Id, o: Output, ghost w: Script, ghost at: Spot)
    returns (next: Option<Id>, o': Output, ghost at': Spot)
    requires k.Valid() && w.v == Sees(k, c) && At(c, at, start) && Walking(w, o, at.done, Later(at.above))
    modifies k`cache
    ensures k.Valid() && w.v == Sees(k, c) && Moves(c, w, o', at', next) && |at'.done| >= |at.done|
  {
    var cur := start;
    o', at' := o, at;
    while MenuTree.At(c.links, cur).parent.Some?
      invariant k.Valid() && w.v == Sees(k, c) && At(c, at', cur) && |at'.done| >= |at.done|
      invariant Walking(w, o', at'.done, Later(at'.above))
      decreases at'.above
    {
      cur := MenuTree.At(c.links, cur).parent.value;
      UpIsTop(at'.above, at'.here, c.top);
      ghost var done;
      o', done := ClimbOne(k, c, cur, o', w, at');
      at' := Spot(at'.above.up, at'.above.above, done);
      if MenuTree.At(c.links, cur).next.Some? {
        next := MenuTree.At(c.links, cur).next;
        at' := at'.(here := at'.here.next);
        Onward(at'.done, at'.here, at'.above);
        return;
      }
      assert Events(at'.here.next) + Later(at'.above) == Later(at'.above);
    }
    assert at'.done + [] == at'.done;
    next := None;
  }

  /** Only the outermost node is the top. */
  predicate TopIs(above: MenuTree.Above, here: Forest, top: Id) {
    if above.Top? then here.Menu? && here.id == top && here.next.Nil? && top !in Ids(here.list)
    else top !in Ids(here) && TopIs(above.above, above.up, top)
  }

  lemma TopBelow(above: MenuTree.Above, here: Forest, top: Id)
    requires TopIs(above, here, top) && here.Menu?
    ensures TopIs(MenuTree.Below(here, above), here.list, top)
    ensures above.Below? ==> here.id != top && TopIs(above, here.next, top)
  {
  }

  lemma WalkStart(f: Forest)
    requires f.Menu? && f.next.Nil?
    ensures Pending(f, MenuTree.Top) == Events(f.list)
  {
  }

  /** The body of the walk's loop: the next node */
  method Advance(k: Kconfig, c: Source, node: Id, o: Output, ghost w: Script, ghost at: Spot)
    returns (next: Option<Id>, o': Output, ghost at': Spot)
    requires k.Valid() && w.v == Sees(k, c) && At(c, at, node) && Walking(w, o, at.done, Pending(at.here, at.above))
    modifies k`cache
    ensures k.Valid() && w.v == Sees(k, c) && Moves(c, w, o', at', next) && |at'.done| >= |at.done|
  {
    ghost var here, above := at.here, at.above;
    TopBelow(above, here, c.top);
    o' := o;
    if MenuTree.At(c.links, node).list.Some? {
      next := MenuTree.At(c.links, node).list;
      at' := Spot(here.list, MenuTree.Below(here, above), at.done);
      GoDown(at.done, here, above);
      Moved(at.done, next.value, Pending(at'.here, at'.above));
    } else if MenuTree.At(c.links, node).next.Some? {
      next := MenuTree.At(c.links, node).next;
      at' := Spot(here.next, above, at.done);
      LeafPending(here, above);
      GoOn(at.done, here.next, above);
      Moved(at.done, next.value, Pending(at'.here, at'.above));
    } else {
      LeafPending(here, above);
      assert Events(here.next) + Later(above) == Later(above);
      next, o', at' := Climb(k, c, node, o, w, at);
    }
  }

  lemma Moved(done: seq<Event>, id: Id, rest: seq<Event>)
    ensures done + ([Enter(id)] + rest) == (done + [Enter(id)]) + rest
  {
  }

  /** The next node, and its output */
  method Step(k: Kconfig, c: Source, node: Id, o: Output, ghost w: Script, ghost at: Spot)
    returns (next: Option<Id>, o': Output, ghost at': Spot)
    requires k.Valid() && w.v == Sees(k, c) && Known(k.t, c.e, w.all)
    requires At(c, at, node) && Walking(w, o, at.done, Pending(at.here, at.above))
    modifies k`cache
    ensures k.Valid() && w.v == Sees(k, c)
    ensures next.None? ==> Shows(w.v, o', WriteAll(w.v, w.start, w.all))
    ensures next.Some? ==> At(c, at', next.value) && Walking(w, o', at'.done, Pending(at'.here, at'.above))
    ensures next.Some? ==> |w.all| >= |at'.done| > |at.done|
  {
    next, o', at' := Advance(k, c, node, o, w, at);
    if next.Some? {
      Moved(at'.done, next.value, Pending(at'.here, at'.above));
      assert w.all[|at'.done|] == Enter(next.value);
      o' := PutNode(k, c, next.value, o', WriteAll(w.v, w.start, at'.done));
      WriteAllSnoc(w.v, w.start, at'.done, Enter(next.value));
      at' := at'.(done := at'.done + [Enter(next.value)]);
    }
  }

  /** _config_contents(): the text of exactly the lines specified, whatever the tree */
  method WriteConfig(k: Kconfig, c: Source, header: seq<string>, ghost f: Forest) returns (file: string)
    requires k.Valid() && MenuTree.Linked(c.links, f, None, None) && TopIs(MenuTree.Top, f, c.top)
    requires Known(k.t, c.e, Events(f.list))
    modifies k`cache
    ensures k.Valid()
    ensures file == FileText(k.t, ValuesOf(k), ConfigLines(Sees(k, c), header, f.list))
  {
    ghost var w := Script(Sees(k, c), Page(Remarks(header), false, {}), Events(f.list));
    var o := Output(header, false, {});
    var node := c.top;
    ghost var at := Spot(f, MenuTree.Top, []);
    RemarkTexts(k.t, w.v.m, header);
    WalkStart(f);
    assert at.done + w.all == w.all;
    while true
      invariant k.Valid() && w.v == Sees(k, c)
      invariant At(c, at, node) && Walking(w, o, at.done, Pending(at.here, at.above))
      decreases |w.all| - |at.done|
    {
      var next;
      next, o, at := Step(k, c, node, o, w, at);
      if next.None? {
        return JoinLines(o.texts);
      }
      node := next.value;
    }
  }

  /** Writing the full configuration of a menu tree and loading it back into the running program */
  method SaveAndLoad(
      k: Kconfig, menus: MenuTree.Menus, titles: map<Id, string>, header: seq<string>, top: Id, items: seq<Item>,
      ghost f: Forest)
    requires k.Valid() && (forall x :: x in items <==> Defined(k.t, x)) && Pythonic(k.t.num)
    requires MenuTree.Linked(menus.links, f, None, None)
    requires TopIs(MenuTree.Top, f, top) && Placed(k.t, menus.Attrs(), f.list)
    requires NoHiddenValues(k.t, k.users) && Writable(k.t, ValuesOf(k))
    requires ProperHeader(header) && forall id :: id in titles ==> OneLine(titles[id])
    modifies k
    ensures k.Valid()
    ensures var c := Source(menus.links, menus.Attrs(), titles, top);
      Unchanged(k.t, k.rank, old(k.users), k.users) <==>
        && Representable(k.t, old(k.users), old(ValuesOf(k)))
        && Harmless(k.t, old(k.users), old(ValuesOf(k)), Silenced(k.t, ConfigLines(old(Sees(k, c)), header, f.list)))
        && Unstripped(k.t, old(k.users), old(ValuesOf(k)), old(FullSet(k.t, ValuesOf(k))))
  {
    WrittenReload(k.t, k.rank, k.users, menus.Attrs(), titles, header, f.list);
    PlacedKnown(k.t, menus.Attrs(), f.list);
    var file := WriteConfig(k, Source(menus.links, menus.Attrs(), titles, top), header, f);
    LoadConfig(k, file, items);
  }

  lemma PlacedKnown(t: Tree, e: Attributes, f: Forest)
    requires Placed(t, e, f)
    ensures Known(t, e, Events(f))
  {
    forall id | Enter(id) in Events(f) && e.Item(id).SymbolEntry? ensures e.Item(id).sym in t.syms {
      assert e.Item(id).sym in t.syms.Keys;
    }
  }

  /** The same for a minimal configuration */
  method SaveMinAndLoad(k: Kconfig, header: seq<string>, order: seq<SymName>, items: seq<Item>)
    requires k.Valid() && (forall x :: x in items <==> Defined(k.t, x)) && DefinitionOrder(k.t, order) && Guarded(k.t)
    requires NoHiddenValues(k.t, k.users) && Writable(k.t, ValuesOf(k)) && ProperHeader(header) && Pythonic(k.t.num)
    modifies k
    ensures k.Valid()
    ensures Unchanged(k.t, k.rank, old(k.users), k.users) <==>
      && Representable(k.t, old(k.users), old(ValuesOf(k)))
      && Harmless(k.t, old(k.users), old(ValuesOf(k)),
                  Silenced(k.t, Remarks(header) + EntriesOf(order, old(MinSet(k.t, k.users, ValuesOf(k))))))
      && Unstripped(k.t, old(k.users), old(ValuesOf(k)), old(MinSet(k.t, k.users, ValuesOf(k))))
  {
    MinReload(k.t, k.rank, k.users, header, order);
    var file := WriteMinConfig(k, header, order);
    LoadConfig(k, file, items);
  }
}
