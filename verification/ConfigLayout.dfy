/** What a full configuration file looks like: where its titles, end comments, blank lines and symbol lines come from, one
    by one, told from the walk over the menu tree and the values alone. */
module ConfigLayout {
  import opened Wrappers
  import opened KconfigTree
  import opened KconfigReload
  import opened KconfigFile
  import opened ConfigText
  import opened MenuForest
  import opened ConfigWriter
  import KconfigLaws

  // ----- What is shown -----

  /** The condition is not n. */
  predicate Met(v: View, x: Expr) { KconfigLaws.Val(v.t, v.u, v.m, x) != 0 }

  /** The node is a menu that is shown: its dependencies and its `visible if` condition are met. */
  predicate OpenMenu(v: View, id: Id) { v.e.Item(id) == MenuEntry && Met(v, v.e.Of(id).dep) && Met(v, v.e.VisibleIf(id)) }

  /** Entering the node puts a title: it is a menu that is shown, or a comment whose dependencies are met. */
  predicate Titled(v: View, ev: Event) {
    ev.Enter? && (OpenMenu(v, ev.id) || (v.e.Item(ev.id) == CommentEntry && Met(v, v.e.Of(ev.id).dep)))
  }

  /** Leaving the node puts an end comment. */
  predicate Ended(v: View, ev: Event) { ev.Leave? && OpenMenu(v, ev.id) }

  predicate Visits(v: View, ev: Event, s: SymName) { ev.Enter? && v.e.Item(ev.id) == SymbolEntry(s) }

  /** One of the first k steps is to a node of the symbol. */
  predicate Visited(v: View, evs: seq<Event>, k: nat, s: SymName)
    requires k <= |evs|
  {
    k > 0 && (Visits(v, evs[k - 1], s) || Visited(v, evs, k - 1, s))
  }

  lemma {:induction false} VisitedIff(v: View, evs: seq<Event>, k: nat, s: SymName)
    requires k <= |evs|
    ensures Visited(v, evs, k, s) <==> exists j :: 0 <= j < k && Visits(v, evs[j], s)
  {
    if k > 0 { VisitedIff(v, evs, k - 1, s); }
  }

  /** The symbol whose line the k-th step puts: the step is the first to a node of it, and it is to be written. */
  function Lined(v: View, evs: seq<Event>, k: nat): Option<SymName>
    requires k < |evs|
  {
    if !(evs[k].Enter? && v.e.Item(evs[k].id).SymbolEntry?) then None else
    var s := v.e.Item(evs[k].id).sym;
    if !Visited(v, evs, k, s) && WriteIn(v.m, s) then Some(s) else None
  }

  predicate Puts(v: View, evs: seq<Event>, k: nat)
    requires k < |evs|
  {
    Titled(v, evs[k]) || Ended(v, evs[k]) || Lined(v, evs, k).Some?
  }

  /** The last thing put before the k-th step is an end comment. */
  predicate AfterEnd(v: View, evs: seq<Event>, k: nat)
    requires k <= |evs|
  {
    exists j :: 0 <= j < k && Ended(v, evs[j]) && forall i :: j < i < k ==> !Puts(v, evs, i)
  }

  // ----- The lines of one step -----

  function TitleOf(v: View, id: Id): string { if id in v.titles then v.titles[id] else "" }

  /** What the k-th step puts: an end comment, a title, or the line of a symbol, after a blank line if the last thing
      before it is an end comment */
  function Chunk(v: View, evs: seq<Event>, k: nat): seq<Line>
    requires k < |evs|
  {
    var ev := evs[k];
    if Ended(v, ev) then [Remark("# end of " + TitleOf(v, ev.id))]
    else if Titled(v, ev) then [Remark(""), Remark("#"), Remark("# " + TitleOf(v, ev.id)), Remark("#")]
    else if Lined(v, evs, k).Some? then
      (if AfterEnd(v, evs, k) then [Remark("")] else []) + [SymbolLine(Lined(v, evs, k).value)]
    else []
  }

  function Chunks(v: View, evs: seq<Event>, k: nat): seq<Line>
    requires k <= |evs|
  {
    if k == 0 then [] else Chunks(v, evs, k - 1) + Chunk(v, evs, k - 1)
  }

  lemma ShownIff(v: View, id: Id)
    ensures v.MenuShown(id) <==> OpenMenu(v, id)
    ensures v.Shown(id) <==> Titled(v, Enter(id))
  {
  }

  /** The page after the first k steps */
  ghost predicate PageIs(v: View, header: seq<string>, evs: seq<Event>, k: nat, p: Page)
    requires k <= |evs|
  {
    && p.lines == Remarks(header) + Chunks(v, evs, k)
    && (p.afterEnd <==> AfterEnd(v, evs, k))
    && forall s :: s in p.seen <==> Visited(v, evs, k, s)
  }

  lemma EndStays(v: View, evs: seq<Event>, k: nat)
    requires k < |evs| && AfterEnd(v, evs, k) && !Puts(v, evs, k)
    ensures AfterEnd(v, evs, k + 1)
  {
    var j :| 0 <= j < k && Ended(v, evs[j]) && forall i :: j < i < k ==> !Puts(v, evs, i);
    assert forall i :: j < i < k + 1 ==> !Puts(v, evs, i);
  }

  lemma EndBefore(v: View, evs: seq<Event>, k: nat)
    requires k < |evs| && AfterEnd(v, evs, k + 1) && !Ended(v, evs[k])
    ensures AfterEnd(v, evs, k) && !Puts(v, evs, k)
  {
    var j :| 0 <= j < k + 1 && Ended(v, evs[j]) && forall i :: j < i < k + 1 ==> !Puts(v, evs, i);
    assert j < k;
  }

  lemma AfterStep(v: View, evs: seq<Event>, k: nat)
    requires k < |evs|
    ensures AfterEnd(v, evs, k + 1) <==> Ended(v, evs[k]) || (AfterEnd(v, evs, k) && !Puts(v, evs, k))
  {
    if AfterEnd(v, evs, k + 1) && !Ended(v, evs[k]) { EndBefore(v, evs, k); }
    if AfterEnd(v, evs, k) && !Puts(v, evs, k) { EndStays(v, evs, k); }
    if Ended(v, evs[k]) { assert 0 <= k < k + 1; }
  }

  /** A step to a node of a symbol */
  lemma SymbolStep(v: View, header: seq<string>, evs: seq<Event>, k: nat, p: Page, s: SymName)
    requires k < |evs| && PageIs(v, header, evs, k, p) && Visits(v, evs[k], s)
    ensures var q := Write(v, p, evs[k]);
      && q.lines == p.lines + Chunk(v, evs, k) && q.seen == p.seen + {s}
      && (q.afterEnd <==> AfterEnd(v, evs, k) && !Puts(v, evs, k))
  {
    if Lined(v, evs, k).Some? {
      assert Chunk(v, evs, k) == (if AfterEnd(v, evs, k) then [Remark("")] else []) + [SymbolLine(s)];
    } else {
      assert Chunk(v, evs, k) == [] && p.lines + [] == p.lines;
      if s in p.seen { assert p.seen + {s} == p.seen; }
    }
  }

  /** Any other step */
  lemma OtherStep(v: View, header: seq<string>, evs: seq<Event>, k: nat, p: Page)
    requires k < |evs| && PageIs(v, header, evs, k, p) && !(evs[k].Enter? && v.e.Item(evs[k].id).SymbolEntry?)
    ensures var q := Write(v, p, evs[k]);
      && q.lines == p.lines + Chunk(v, evs, k) && q.seen == p.seen
      && (q.afterEnd <==> Ended(v, evs[k]) || (AfterEnd(v, evs, k) && !Puts(v, evs, k)))
  {
    ShownIff(v, evs[k].id);
    assert p.lines + [] == p.lines;
  }

  lemma PageStep(v: View, header: seq<string>, evs: seq<Event>, k: nat, p: Page)
    requires k < |evs| && PageIs(v, header, evs, k, p)
    ensures PageIs(v, header, evs, k + 1, Write(v, p, evs[k]))
  {
    var ev := evs[k];
    AfterStep(v, evs, k);
    if ev.Enter? && v.e.Item(ev.id).SymbolEntry? {
      SymbolStep(v, header, evs, k, p, v.e.Item(ev.id).sym);
    } else {
      OtherStep(v, header, evs, k, p);
    }
    var front, c := Chunks(v, evs, k), Chunk(v, evs, k);
    assert Remarks(header) + front + c == Remarks(header) + (front + c);
  }

  /** The writer's lines are the header and then, step by step, what the steps put. */
  lemma {:induction false} WrittenSteps(v: View, header: seq<string>, evs: seq<Event>, k: nat)
    requires k <= |evs|
    ensures PageIs(v, header, evs, k, WriteAll(v, Page(Remarks(header), false, {}), evs[..k]))
  {
    if k == 0 {
      assert Remarks(header) + [] == Remarks(header);
    } else {
      WrittenSteps(v, header, evs, k - 1);
      assert evs[..k][..k - 1] == evs[..k - 1];
      PageStep(v, header, evs, k - 1, WriteAll(v, Page(Remarks(header), false, {}), evs[..k - 1]));
    }
  }

  /** The layout of the file */
  lemma LayoutIs(v: View, header: seq<string>, f: Forest)
    ensures ConfigLines(v, header, f) == Remarks(header) + Chunks(v, Events(f), |Events(f)|)
  {
    WrittenSteps(v, header, Events(f), |Events(f)|);
    assert Events(f)[..|Events(f)|] == Events(f);
  }

  // ----- The steps -----

  function Entered(evs: seq<Event>): seq<Id> {
    if evs == [] then [] else (if evs[0].Enter? then [evs[0].id] else []) + Entered(evs[1..])
  }

  lemma {:induction false} EnteredConcat(xs: seq<Event>, ys: seq<Event>)
    ensures Entered(xs + ys) == Entered(xs) + Entered(ys)
  {
    if xs == [] {
      assert xs + ys == ys;
    } else {
      assert (xs + ys)[0] == xs[0] && (xs + ys)[1..] == xs[1..] + ys;
      EnteredConcat(xs[1..], ys);
    }
  }

  /** Every node is entered once, in the order of the menu tree. */
  lemma {:induction false} EnteredInOrder(f: Forest)
    ensures Entered(Events(f)) == Pre(f)
  {
    if f.Menu? {
      EnteredInOrder(f.list);
      EnteredInOrder(f.next);
      var up: seq<Event> := if f.list.Menu? then [Leave(f.id)] else [];
      var e: seq<Event> := [Enter(f.id)];
      assert e[1..] == [] && [Leave(f.id)][1..] == [] && Entered(up) == [] && Entered(e) == [f.id];
      EnteredConcat(e + Events(f.list) + up, Events(f.next));
      EnteredConcat(e + Events(f.list), up);
      EnteredConcat(e, Events(f.list));
    }
  }

  /** `g` is a node of the forest, with its children and its following siblings. */
  predicate Sub(f: Forest, g: Forest) { g == f || (f.Menu? && (Sub(f.list, g) || Sub(f.next, g))) }

  /** A node with children is left when all of them, and nothing else, has been dealt with since it was entered. */
  lemma {:induction false} LeftAfterChildren(f: Forest, g: Forest) returns (before: seq<Event>, after: seq<Event>)
    requires Sub(f, g) && g.Menu? && g.list.Menu?
    ensures Events(f) == before + ([Enter(g.id)] + Events(g.list) + [Leave(g.id)]) + after
  {
    var up: seq<Event> := if f.list.Menu? then [Leave(f.id)] else [];
    if g == f {
      before, after := [], Events(f.next);
    } else if Sub(f.list, g) {
      var b, a := LeftAfterChildren(f.list, g);
      before, after := [Enter(f.id)] + b, a + up + Events(f.next);
    } else {
      var b, a := LeftAfterChildren(f.next, g);
      before, after := [Enter(f.id)] + Events(f.list) + up + b, a;
    }
  }

  // ----- The lines of the symbols -----

  /** What is to be written of a symbol: a logical symbol that is visible or y, and, unless it is never written, a string or
      number that is visible or has a default whose condition is not n */
  ghost predicate Due(v: View, s: SymName) {
    && s in v.t.syms
    && var d := v.t.syms[s];
       match d.kind
       case Unknown => false
       case Bool => KconfigLaws.Shown(v.m, s) || TextIn(v.m, s) == "y"
       case Tristate => KconfigLaws.Shown(v.m, s) || TextIn(v.m, s) == "y"
       case _ =>
         !d.noWrite && (KconfigLaws.Shown(v.m, s) || exists i :: 0 <= i < |d.defaults| && Met(v, d.defaults[i].cond))
  }

  lemma DueIff(v: View, s: SymName)
    requires AllValues(v.t, v.u, v.m)
    ensures WriteIn(v.m, s) <==> Due(v, s)
  {
    if s in v.t.syms && v.t.syms[s].kind != Unknown {
      if !v.t.syms[s].kind.Logical() { KconfigLaws.TextWritten(v.t, v.u, v.m, s); }
      else if v.t.syms[s].choice.Some? { KconfigLaws.ChoiceSymValue(v.t, v.u, v.m, s); }
      else { KconfigLaws.LogicalValue(v.t, v.u, v.m, s); }
    } else {
      assert !Varies(v.t, StrVal(s));
    }
  }

  /** How often a symbol has a line in some lines */
  function Count(ls: seq<Line>, s: SymName): nat {
    if ls == [] then 0 else (if ls[0] == SymbolLine(s) then 1 else 0) + Count(ls[1..], s)
  }

  lemma {:induction false} CountConcat(a: seq<Line>, b: seq<Line>, s: SymName)
    ensures Count(a + b, s) == Count(a, s) + Count(b, s)
  {
    if a == [] {
      assert a + b == b;
    } else {
      assert (a + b)[1..] == a[1..] + b;
      CountConcat(a[1..], b, s);
    }
  }

  lemma {:induction false} NoSymbolLines(ls: seq<Line>, s: SymName)
    requires forall l :: l in ls ==> l.Remark?
    ensures Count(ls, s) == 0
  {
    if ls != [] {
      assert ls[0] in ls;
      NoSymbolLines(ls[1..], s);
    }
  }

  lemma ChunkCount(v: View, evs: seq<Event>, k: nat, s: SymName)
    requires k < |evs|
    ensures Count(Chunk(v, evs, k), s) == if Lined(v, evs, k) == Some(s) then 1 else 0
  {
    var x := Lined(v, evs, k);
    if x.Some? { OneCount(AfterEnd(v, evs, k), x.value, s); } else { NoSymbolLines(Chunk(v, evs, k), s); }
  }

  lemma OneCount(gap: bool, x: SymName, s: SymName)
    ensures Count((if gap then [Remark("")] else []) + [SymbolLine(x)], s) == if x == s then 1 else 0
  {
    var ls: seq<Line> := [SymbolLine(x)];
    assert ls[1..] == [] && Count(ls, s) == if x == s then 1 else 0;
    if gap { assert ([Remark("")] + ls)[1..] == ls; } else { assert [] + ls == ls; }
  }

  /** How many of the first k steps put a line of the symbol */
  function LinedSteps(v: View, evs: seq<Event>, k: nat, s: SymName): nat
    requires k <= |evs|
  {
    if k == 0 then 0 else LinedSteps(v, evs, k - 1, s) + if Lined(v, evs, k - 1) == Some(s) then 1 else 0
  }

  lemma {:induction false} ChunksCount(v: View, evs: seq<Event>, k: nat, s: SymName)
    requires k <= |evs|
    ensures Count(Chunks(v, evs, k), s) == LinedSteps(v, evs, k, s)
  {
    if k > 0 {
      var front, c := Chunks(v, evs, k - 1), Chunk(v, evs, k - 1);
      ChunksCount(v, evs, k - 1, s);
      ChunkCount(v, evs, k - 1, s);
      CountConcat(front, c, s);
      assert Chunks(v, evs, k) == front + c;
    }
  }

  lemma {:induction false} LinedOnce(v: View, evs: seq<Event>, k: nat, s: SymName)
    requires k <= |evs|
    ensures LinedSteps(v, evs, k, s) == if Visited(v, evs, k, s) && WriteIn(v.m, s) then 1 else 0
  {
    if k > 0 {
      LinedOnce(v, evs, k - 1, s);
      LinedIff(v, evs, k - 1, s);
    }
  }

  lemma LinedIff(v: View, evs: seq<Event>, k: nat, s: SymName)
    requires k < |evs|
    ensures Lined(v, evs, k) == Some(s) <==> Visits(v, evs[k], s) && !Visited(v, evs, k, s) && WriteIn(v.m, s)
  {
  }

  /** Each symbol that is visited and due has one line, however many nodes it has, and no other symbol has any. */
  lemma OneLineEach(v: View, header: seq<string>, f: Forest, s: SymName)
    requires AllValues(v.t, v.u, v.m)
    ensures Count(ConfigLines(v, header, f), s) ==
      if Due(v, s) && exists ev :: ev in Events(f) && Visits(v, ev, s) then 1 else 0
  {
    var evs := Events(f);
    LayoutCount(v, header, evs, s);
    LayoutIs(v, header, f);
    DueIff(v, s);
    VisitedIff(v, evs, |evs|, s);
    if ev :| ev in evs && Visits(v, ev, s) {
      var j :| 0 <= j < |evs| && evs[j] == ev;
      assert Visits(v, evs[j], s);
    }
  }

  lemma LayoutCount(v: View, header: seq<string>, evs: seq<Event>, s: SymName)
    ensures Count(Remarks(header) + Chunks(v, evs, |evs|), s) ==
      if Visited(v, evs, |evs|, s) && WriteIn(v.m, s) then 1 else 0
  {
    CountConcat(Remarks(header), Chunks(v, evs, |evs|), s);
    NoSymbolLines(Remarks(header), s);
    ChunksCount(v, evs, |evs|, s);
    LinedOnce(v, evs, |evs|, s);
  }

  /** The text of a symbol's line: n as a comment, other values behind an equals sign, and strings quoted */
  lemma LineIs(t: Tree, m: Answers, s: SymName)
    requires s in t.syms && t.syms[s].kind != Unknown
    ensures var k, text := t.syms[s].kind, TextIn(m, s);
      LineText(t, m, SymbolLine(s)) ==
        if (k.Bool? || k.Tristate?) && text == "n" then "# CONFIG_" + s + " is not set"
        else "CONFIG_" + s + "=" + if k.Text? then "\"" + Escape(text) + "\"" else text
  {
  }
}
