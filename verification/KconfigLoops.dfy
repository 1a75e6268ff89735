/** The search for dependency loops, with its treatment of choices. */
module KconfigLoops {
  import opened Wrappers
  import opened KconfigTree
  import opened KconfigEval
  import opened KconfigCache
  import opened KconfigDeps

  /** The dependents of each item in the order in which the program happens to iterate over them */
  datatype Net = Net(t: Tree, order: map<Item, seq<Item>>) {
    function Dependents(x: Item): seq<Item> { if x in order then order[x] else [] }
    function ChoiceOf(s: SymName): Option<ChoiceId> { if s in t.syms then t.syms[s].choice else None }
    function Members(c: ChoiceId): seq<SymName> { if c in t.choices then t.choices[c].syms else [] }

    /** What stands for an item: its choice for a choice symbol, the item itself otherwise */
    function Key(x: Item): Item {
      if x.SymItem? && ChoiceOf(x.name).Some? then ChoiceItem(ChoiceOf(x.name).value) else x
    }
  }

  type Mark = v: int | 1 <= v <= 2 witness 1

  /** What the search ends in: no loop, a loop still being collected on the way back, or the exception */
  datatype Outcome = NoLoop | Partial(loop: seq<Item>) | Raised(loop: seq<Item>)

  /** `visited` is 1 for an item that is being searched and 2 for one that was. The rest is history: the order in which
      items got the 2, and whether the search met a finished symbol of an unfinished choice. */
  datatype Marks = Marks(visited: map<Item, Mark>, fin: seq<Item>, missed: bool) {
    predicate Open(x: Item) { x in visited && visited[x] == 1 }
    predicate Done(x: Item) { x in visited && visited[x] == 2 }
  }

  /** How a search that finds no loop changes the marks */
  ghost predicate Grown(st: Marks, st': Marks) {
    && (forall x :: st'.Open(x) <==> st.Open(x))
    && (forall x :: st.Done(x) ==> st'.Done(x))
    && (forall x :: x in st.fin ==> x in st'.fin)
    && (st.missed ==> st'.missed)
  }

  /** The items that a search within `nodes` can reach are in it. */
  predicate Within(n: Net, nodes: set<Item>) {
    forall x :: x in nodes ==>
      && Defined(n.t, x)
      && (forall y :: y in n.Dependents(x) ==> y in nodes)
      && (x.SymItem? && n.ChoiceOf(x.name).Some? ==> ChoiceItem(n.ChoiceOf(x.name).value) in nodes)
      && (x.ChoiceItem? ==> forall s :: s in n.Members(x.id) ==> SymItem(s) in nodes)
  }

  /** _found_dep_loop() */
  function FoundDepLoop(r: Outcome, cur: Item): Outcome {
    if !r.Partial? || r.loop == [] then r else if cur != r.loop[0] then Partial(r.loop + [cur]) else Raised(r.loop)
  }

  ghost predicate HasChoices(n: Net) { exists s :: n.ChoiceOf(s).Some? }

  /** The symbol's choice is being searched. */
  predicate ChoiceOpen(n: Net, st: Marks, s: SymName) {
    n.ChoiceOf(s).Some? && st.Open(ChoiceItem(n.ChoiceOf(s).value))
  }

  function Begin(st: Marks, x: Item): (st': Marks)
    ensures st'.visited.Keys == st.visited.Keys + {x}
  {
    st.(visited := st.visited[x := 1])
  }

  function Finish(st: Marks, x: Item): (st': Marks)
    ensures st'.visited.Keys == st.visited.Keys + {x}
  {
    st.(visited := st.visited[x := 2], fin := st.fin + [x])
  }

  lemma GrownThrough(st: Marks, x: Item, st1: Marks)
    requires x !in st.visited && Grown(Begin(st, x), st1)
    ensures Grown(st, Finish(st1, x))
  {
    var b, f := Begin(st, x), Finish(st1, x);
    forall y ensures (f.Open(y) <==> st.Open(y)) && (st.Done(y) ==> f.Done(y)) {
      assert st1.Open(y) <==> b.Open(y);
      assert b.Done(y) ==> st1.Done(y);
    }
  }

  lemma GrownTwice(st: Marks, st1: Marks, st2: Marks)
    requires Grown(st, st1) && Grown(st1, st2)
    ensures Grown(st, st2)
  {
    forall y ensures (st2.Open(y) <==> st.Open(y)) && (st.Done(y) ==> st2.Done(y)) {
      assert st1.Open(y) <==> st.Open(y);
    }
  }

  /** _check_dep_loop_sym() */
  function SearchSym(n: Net, nodes: set<Item>, st: Marks, s: SymName, ignoreChoice: bool): (r: (Outcome, Marks))
    requires Within(n, nodes) && SymItem(s) in nodes && st.visited.Keys <= nodes
    ensures st.visited.Keys <= r.1.visited.Keys <= nodes && (r.0.NoLoop? ==> Grown(st, r.1))
    ensures r.1.missed ==> st.missed || HasChoices(n)
    decreases nodes - st.visited.Keys, 0, 0
  {
    var x := SymItem(s);
    if x in st.visited then
      if st.visited[x] == 2 then (NoLoop, st.(missed := st.missed || (!ignoreChoice && ChoiceOpen(n, st, s))))
      else (Partial([x]), st)
    else
      assert x in nodes - st.visited.Keys;
      var (r, st1) := SearchBelow(n, nodes, Begin(st, x), s, ignoreChoice);
      if !r.NoLoop? then (FoundDepLoop(r, x), st1)
      else
        GrownThrough(st, x, st1);
        (NoLoop, Finish(st1, x))
  }

  /** What is searched for a symbol: its dependents, and then its choice */
  function SearchBelow(n: Net, nodes: set<Item>, st: Marks, s: SymName, ignoreChoice: bool): (r: (Outcome, Marks))
    requires Within(n, nodes) && SymItem(s) in nodes && st.visited.Keys <= nodes
    ensures st.visited.Keys <= r.1.visited.Keys <= nodes && (r.0.NoLoop? ==> Grown(st, r.1))
    ensures r.1.missed ==> st.missed || HasChoices(n)
    decreases nodes - st.visited.Keys, 2, 0
  {
    var (r, st1) := SearchDeps(n, nodes, st, n.Dependents(SymItem(s)));
    if !r.NoLoop? then (r, st1)
    else
      var rest := SearchOwnChoice(n, nodes, st1, s, ignoreChoice);
      if rest.0.NoLoop? then GrownTwice(st, st1, rest.1); rest else rest
  }

  function SearchOwnChoice(n: Net, nodes: set<Item>, st: Marks, s: SymName, ignoreChoice: bool): (r: (Outcome, Marks))
    requires Within(n, nodes) && SymItem(s) in nodes && st.visited.Keys <= nodes
    ensures st.visited.Keys <= r.1.visited.Keys <= nodes && (r.0.NoLoop? ==> Grown(st, r.1))
    ensures r.1.missed ==> st.missed || HasChoices(n)
    decreases nodes - st.visited.Keys, 1, 0
  {
    if n.ChoiceOf(s).Some? && !ignoreChoice then SearchChoice(n, nodes, st, n.ChoiceOf(s).value, Some(s)) else (NoLoop, st)
  }

  /** The loop over the dependents of a symbol */
  function SearchDeps(n: Net, nodes: set<Item>, st: Marks, ys: seq<Item>): (r: (Outcome, Marks))
    requires Within(n, nodes) && (forall y :: y in ys ==> y in nodes) && st.visited.Keys <= nodes
    ensures st.visited.Keys <= r.1.visited.Keys <= nodes && (r.0.NoLoop? ==> Grown(st, r.1))
    ensures r.1.missed ==> st.missed || HasChoices(n)
    decreases nodes - st.visited.Keys, 1, |ys|
  {
    if ys == [] then (NoLoop, st)
    else
      var (r, st1) := SearchDep(n, nodes, st, ys[0]);
      if !r.NoLoop? then (r, st1)
      else
        var rest := SearchDeps(n, nodes, st1, ys[1..]);
        if rest.0.NoLoop? then GrownTwice(st, st1, rest.1); rest else rest
  }

  function SearchDep(n: Net, nodes: set<Item>, st: Marks, y: Item): (r: (Outcome, Marks))
    requires Within(n, nodes) && y in nodes && st.visited.Keys <= nodes
    ensures st.visited.Keys <= r.1.visited.Keys <= nodes && (r.0.NoLoop? ==> Grown(st, r.1))
    ensures r.1.missed ==> st.missed || HasChoices(n)
    decreases nodes - st.visited.Keys, 0, 1
  {
    match y
    case SymItem(s) => SearchSym(n, nodes, st, s, false)
    case ChoiceItem(c) => SearchChoice(n, nodes, st, c, None)
  }

  /** _check_dep_loop_choice() */
  function SearchChoice(n: Net, nodes: set<Item>, st: Marks, c: ChoiceId, skip: Option<SymName>): (r: (Outcome, Marks))
    requires Within(n, nodes) && ChoiceItem(c) in nodes && st.visited.Keys <= nodes
    ensures st.visited.Keys <= r.1.visited.Keys <= nodes && (r.0.NoLoop? ==> Grown(st, r.1))
    ensures r.1.missed ==> st.missed || HasChoices(n)
    decreases nodes - st.visited.Keys, 0, 0
  {
    var x := ChoiceItem(c);
    if x in st.visited then if st.visited[x] == 2 then (NoLoop, st) else (Partial([x]), st)
    else
      assert x in nodes - st.visited.Keys;
      var (r, st1) := SearchMembers(n, nodes, Begin(st, x), n.Members(c), skip);
      if !r.NoLoop? then (FoundDepLoop(r, x), st1)
      else
        GrownThrough(st, x, st1);
        (NoLoop, Finish(st1, x))
  }

  /** The loop over the symbols of a choice */
  function SearchMembers(
      n: Net, nodes: set<Item>, st: Marks, ss: seq<SymName>, skip: Option<SymName>): (r: (Outcome, Marks))
    requires Within(n, nodes) && (forall s :: s in ss ==> SymItem(s) in nodes) && st.visited.Keys <= nodes
    ensures st.visited.Keys <= r.1.visited.Keys <= nodes && (r.0.NoLoop? ==> Grown(st, r.1))
    ensures r.1.missed ==> st.missed || HasChoices(n)
    decreases nodes - st.visited.Keys, 1, |ss|
  {
    if ss == [] then (NoLoop, st)
    else if Some(ss[0]) == skip then SearchMembers(n, nodes, st, ss[1..], skip)
    else
      var (r, st1) := SearchSym(n, nodes, st, ss[0], true);
      if !r.NoLoop? then (r, st1)
      else
        var rest := SearchMembers(n, nodes, st1, ss[1..], skip);
        if rest.0.NoLoop? then GrownTwice(st, st1, rest.1); rest else rest
  }

  /** The program's loop over all symbols, which stops at the exception */
  function SearchAll(n: Net, nodes: set<Item>, st: Marks, ss: seq<SymName>): (r: (Outcome, Marks))
    requires Within(n, nodes) && (forall s :: s in ss ==> SymItem(s) in nodes) && st.visited.Keys <= nodes
    ensures r.1.missed ==> st.missed || HasChoices(n)
    decreases |ss|
  {
    if ss == [] then (NoLoop, st)
    else
      var (r, st1) := SearchSym(n, nodes, st, ss[0], false);
      if !r.NoLoop? then (r, st1) else SearchAll(n, nodes, st1, ss[1..])
  }

  // ----- What has no loop passes -----

  /** Choice symbols and choices refer to each other. */
  ghost predicate Linked(n: Net) {
    forall c: ChoiceId, s: SymName :: s in n.Members(c) <==> n.ChoiceOf(s) == Some(c)
  }

  /** A level for each item: the symbols of a choice are on the level of the choice, and a dependent of a symbol is on
      a higher level than the symbol. */
  ghost predicate Leveled(n: Net, level: Item -> nat) {
    forall x: Item, y {:trigger y in n.Dependents(x)} ::
      x.SymItem? && Defined(n.t, x) && y in n.Dependents(x) ==> level(n.Key(x)) < level(n.Key(y))
  }

  /** With the symbols of each choice taken together, the dependencies of symbols have no loop. */
  ghost predicate LoopFree(n: Net) { exists level :: Leveled(n, level) }

  /** A search that changes nothing but to finish items */
  ghost predicate Passes(r: (Outcome, Marks), st: Marks) { r.0.NoLoop? && r.1.missed == st.missed }

  /** The items being searched are below `x`, or on its level but different from it if `beside` */
  ghost predicate Above(n: Net, level: Item -> nat, st: Marks, x: Item, beside: bool) {
    forall z :: st.Open(z) ==>
      level(n.Key(z)) < level(n.Key(x)) || (beside && level(n.Key(z)) == level(n.Key(x)) && z != x)
  }

  lemma AboveDependents(n: Net, level: Item -> nat, st: Marks, s: SymName, beside: bool)
    requires Leveled(n, level) && Above(n, level, st, SymItem(s), beside) && s in n.t.syms
    ensures forall y :: y in n.Dependents(SymItem(s)) ==> Above(n, level, Begin(st, SymItem(s)), y, false)
  {
    forall y, z | y in n.Dependents(SymItem(s)) && Begin(st, SymItem(s)).Open(z)
      ensures level(n.Key(z)) < level(n.Key(y))
    {
      assert z == SymItem(s) || st.Open(z);
    }
  }

  lemma AboveLater(n: Net, level: Item -> nat, st: Marks, st': Marks, y: Item, beside: bool)
    requires Grown(st, st') && Above(n, level, st, y, beside)
    ensures Above(n, level, st', y, beside)
  {
  }

  lemma {:induction false} SymPasses(
      n: Net, nodes: set<Item>, level: Item -> nat, st: Marks, s: SymName, ignoreChoice: bool)
    requires Within(n, nodes) && SymItem(s) in nodes && st.visited.Keys <= nodes && Linked(n) && Leveled(n, level)
    requires Above(n, level, st, SymItem(s), ignoreChoice)
    ensures Passes(SearchSym(n, nodes, st, s, ignoreChoice), st)
    decreases nodes - st.visited.Keys, 0, 1
  {
    var x := SymItem(s);
    if x !in st.visited {
      assert x in nodes - st.visited.Keys;
      BelowPasses(n, nodes, level, st, s, ignoreChoice);
      var (r, st1) := SearchBelow(n, nodes, Begin(st, x), s, ignoreChoice);
      assert r.NoLoop? && SearchSym(n, nodes, st, s, ignoreChoice) == (NoLoop, Finish(st1, x));
    } else {
      assert !st.Open(x) || ignoreChoice;
      assert st.Done(x);
    }
  }

  lemma {:induction false} BelowPasses(
      n: Net, nodes: set<Item>, level: Item -> nat, st: Marks, s: SymName, ignoreChoice: bool)
    requires Within(n, nodes) && SymItem(s) in nodes && st.visited.Keys <= nodes && Linked(n) && Leveled(n, level)
    requires Above(n, level, st, SymItem(s), ignoreChoice) && SymItem(s) !in st.visited
    ensures Passes(SearchBelow(n, nodes, Begin(st, SymItem(s)), s, ignoreChoice), Begin(st, SymItem(s)))
    decreases nodes - st.visited.Keys, 0, 0
  {
    var x := SymItem(s);
    var b := Begin(st, x);
    assert x in nodes - st.visited.Keys;
    AboveDependents(n, level, st, s, ignoreChoice);
    DepsPass(n, nodes, level, b, n.Dependents(x));
    if n.ChoiceOf(s).Some? && !ignoreChoice {
      ChoicePasses(n, nodes, level, SearchDeps(n, nodes, b, n.Dependents(x)).1, n.ChoiceOf(s).value, Some(s));
    }
  }

  lemma {:induction false} DepsPass(n: Net, nodes: set<Item>, level: Item -> nat, st: Marks, ys: seq<Item>)
    requires Within(n, nodes) && (forall y :: y in ys ==> y in nodes) && st.visited.Keys <= nodes
    requires Linked(n) && Leveled(n, level) && forall y :: y in ys ==> Above(n, level, st, y, false)
    ensures Passes(SearchDeps(n, nodes, st, ys), st)
    decreases nodes - st.visited.Keys, 1, |ys|
  {
    if ys != [] {
      DepPasses(n, nodes, level, st, ys[0]);
      var (r, st1) := SearchDep(n, nodes, st, ys[0]);
      forall y | y in ys[1..] ensures Above(n, level, st1, y, false) { AboveLater(n, level, st, st1, y, false); }
      DepsPass(n, nodes, level, st1, ys[1..]);
    }
  }

  lemma {:induction false} DepPasses(n: Net, nodes: set<Item>, level: Item -> nat, st: Marks, y: Item)
    requires Within(n, nodes) && y in nodes && st.visited.Keys <= nodes && Linked(n) && Leveled(n, level)
    requires Above(n, level, st, y, false)
    ensures Passes(SearchDep(n, nodes, st, y), st)
    decreases nodes - st.visited.Keys, 0, 2
  {
    match y
    case SymItem(s) => SymPasses(n, nodes, level, st, s, false);
    case ChoiceItem(c) => ChoicePasses(n, nodes, level, st, c, None);
  }

  lemma MembersAbove(n: Net, level: Item -> nat, st: Marks, c: ChoiceId, skip: Option<SymName>)
    requires Linked(n) && Entered(n, level, st, c, skip)
    ensures forall s :: s in n.Members(c) && Some(s) != skip ==> Above(n, level, Begin(st, ChoiceItem(c)), SymItem(s), true)
  {
    forall s, z | s in n.Members(c) && Some(s) != skip && Begin(st, ChoiceItem(c)).Open(z)
      ensures level(n.Key(z)) < level(n.Key(SymItem(s)))
              || (level(n.Key(z)) == level(n.Key(SymItem(s))) && z != SymItem(s))
    {
      assert z == ChoiceItem(c) || st.Open(z);
    }
  }

  /** A choice is entered from below, or through its symbol `skip`. */
  ghost predicate Entered(n: Net, level: Item -> nat, st: Marks, c: ChoiceId, skip: Option<SymName>) {
    forall z :: st.Open(z) ==>
      || level(n.Key(z)) < level(ChoiceItem(c))
      || (skip.Some? && z == SymItem(skip.value) && n.ChoiceOf(skip.value) == Some(c))
  }

  lemma {:induction false} ChoicePasses(
      n: Net, nodes: set<Item>, level: Item -> nat, st: Marks, c: ChoiceId, skip: Option<SymName>)
    requires Within(n, nodes) && ChoiceItem(c) in nodes && st.visited.Keys <= nodes && Linked(n) && Leveled(n, level)
    requires Entered(n, level, st, c, skip)
    ensures Passes(SearchChoice(n, nodes, st, c, skip), st)
    decreases nodes - st.visited.Keys, 0, 0
  {
    var x := ChoiceItem(c);
    assert !st.Open(x);
    if x !in st.visited {
      assert x in nodes - st.visited.Keys;
      MembersAbove(n, level, st, c, skip);
      MembersPass(n, nodes, level, Begin(st, x), c, n.Members(c), skip);
    }
  }

  lemma {:induction false} MembersPass(
      n: Net, nodes: set<Item>, level: Item -> nat, st: Marks, c: ChoiceId, ss: seq<SymName>, skip: Option<SymName>)
    requires Within(n, nodes) && (forall s :: s in ss ==> SymItem(s) in nodes) && st.visited.Keys <= nodes
    requires Linked(n) && Leveled(n, level) && forall s :: s in ss ==> n.ChoiceOf(s) == Some(c)
    requires forall s :: s in ss && Some(s) != skip ==> Above(n, level, st, SymItem(s), true)
    ensures Passes(SearchMembers(n, nodes, st, ss, skip), st)
    decreases nodes - st.visited.Keys, 1, |ss|
  {
    if ss != [] {
      if Some(ss[0]) == skip {
        MembersPass(n, nodes, level, st, c, ss[1..], skip);
      } else {
        SymPasses(n, nodes, level, st, ss[0], true);
        var st1 := SearchSym(n, nodes, st, ss[0], true).1;
        forall s | s in ss[1..] && Some(s) != skip ensures Above(n, level, st1, SymItem(s), true) {
          AboveLater(n, level, st, st1, SymItem(s), true);
        }
        MembersPass(n, nodes, level, st1, c, ss[1..], skip);
      }
    }
  }

  lemma {:induction false} AllPass(n: Net, nodes: set<Item>, level: Item -> nat, st: Marks, ss: seq<SymName>)
    requires Within(n, nodes) && (forall s :: s in ss ==> SymItem(s) in nodes) && st.visited.Keys <= nodes
    requires Linked(n) && Leveled(n, level) && forall z :: !st.Open(z)
    ensures Passes(SearchAll(n, nodes, st, ss), st)
    decreases |ss|
  {
    if ss != [] {
      SymPasses(n, nodes, level, st, ss[0], false);
      AllPass(n, nodes, level, SearchSym(n, nodes, st, ss[0], false).1, ss[1..]);
    }
  }

  // ----- What passes has no loop, unless one was missed -----

  /** The item, its choice and all symbols of that are finished. */
  ghost predicate Settled(n: Net, fin: seq<Item>, y: Item) {
    forall z :: n.Key(z) == n.Key(y) ==> z in fin
  }

  /** The item is finished: a choice with all its symbols, and a choice symbol with its choice and all symbols of that
      unless a loop may have been missed. */
  ghost predicate Awaited(n: Net, fin: seq<Item>, missed: bool, y: Item) {
    y in fin && (y.ChoiceItem? || !missed ==> Settled(n, fin, y))
  }

  /** Each symbol was finished after everything that depends on it. */
  ghost predicate InOrder(n: Net, fin: seq<Item>, missed: bool) {
    forall i, y {:trigger y in n.Dependents(fin[i])} ::
      0 <= i < |fin| && fin[i].SymItem? && y in n.Dependents(fin[i]) ==> Awaited(n, fin[..i], missed, y)
  }

  ghost predicate DependentsAwaited(n: Net, st: Marks, s: SymName) {
    forall y :: y in n.Dependents(SymItem(s)) ==> Awaited(n, st.fin, st.missed, y)
  }

  predicate Distinct(fin: seq<Item>) { forall i, j :: 0 <= i < j < |fin| ==> fin[i] != fin[j] }

  /** The symbols of a finished choice are finished, except for `hole`, and the choice of a finished symbol was
      visited. */
  ghost predicate ChoicesDone(n: Net, st: Marks, hole: Option<SymName>) {
    && (forall c, s :: st.Done(ChoiceItem(c)) && s in n.Members(c) && Some(s) != hole ==> st.Done(SymItem(s)))
    && (forall s :: st.Done(SymItem(s)) && n.ChoiceOf(s).Some? ==> ChoiceItem(n.ChoiceOf(s).value) in st.visited)
  }

  ghost predicate Recorded(n: Net, st: Marks) {
    && (forall x :: st.Done(x) <==> x in st.fin)
    && Distinct(st.fin)
    && InOrder(n, st.fin, st.missed)
  }

  lemma RecordedFinish(n: Net, st: Marks, x: Item)
    requires Recorded(n, st) && !st.Done(x)
    requires x.SymItem? ==> DependentsAwaited(n, st, x.name)
    ensures Recorded(n, Finish(st, x))
  {
    var fin := st.fin + [x];
    forall i, y | 0 <= i < |fin| && fin[i].SymItem? && y in n.Dependents(fin[i]) ensures Awaited(n, fin[..i], st.missed, y) {
      if i < |st.fin| { assert fin[..i] == st.fin[..i] && fin[i] == st.fin[i]; } else { assert fin[..i] == st.fin; }
    }
  }

  lemma AwaitedLater(n: Net, st: Marks, st': Marks, y: Item)
    requires Grown(st, st') && Awaited(n, st.fin, st.missed, y)
    ensures Awaited(n, st'.fin, st'.missed, y)
  {
  }

  lemma ChoiceSettled(n: Net, st: Marks, c: ChoiceId, y: Item)
    requires Linked(n) && Recorded(n, st) && ChoicesDone(n, st, None)
    requires st.Done(ChoiceItem(c)) && n.Key(y) == ChoiceItem(c)
    ensures Settled(n, st.fin, y)
  {
    forall z | n.Key(z) == n.Key(y) ensures z in st.fin {
      if z.SymItem? { assert z.name in n.Members(c); }
    }
  }

  ghost predicate Kept(n: Net, st: Marks) { Recorded(n, st) && ChoicesDone(n, st, None) }

  lemma KeptBegin(n: Net, st: Marks, x: Item)
    requires Kept(n, st) && x !in st.visited
    ensures Kept(n, Begin(st, x))
  {
    var b := Begin(st, x);
    assert forall y :: b.Done(y) <==> st.Done(y);
  }

  lemma KeptFinishSym(n: Net, st: Marks, s: SymName)
    requires Linked(n) && Recorded(n, st) && ChoicesDone(n, st, Some(s)) && !st.Done(SymItem(s))
    requires DependentsAwaited(n, st, s)
    requires n.ChoiceOf(s).Some? ==> ChoiceItem(n.ChoiceOf(s).value) in st.visited
    ensures Kept(n, Finish(st, SymItem(s)))
  {
    RecordedFinish(n, st, SymItem(s));
    var f := Finish(st, SymItem(s));
    assert forall y :: f.Done(y) <==> st.Done(y) || y == SymItem(s);
  }

  lemma KeptFinishChoice(n: Net, st: Marks, c: ChoiceId, skip: Option<SymName>)
    requires Kept(n, st) && !st.Done(ChoiceItem(c))
    requires forall s :: s in n.Members(c) && Some(s) != skip ==> st.Done(SymItem(s))
    ensures Recorded(n, Finish(st, ChoiceItem(c))) && ChoicesDone(n, Finish(st, ChoiceItem(c)), skip)
  {
    RecordedFinish(n, st, ChoiceItem(c));
    var f := Finish(st, ChoiceItem(c));
    assert forall y :: f.Done(y) <==> st.Done(y) || y == ChoiceItem(c);
  }

  /** What a search of a symbol without result leaves */
  ghost predicate SymKept(n: Net, st: Marks, s: SymName, ignoreChoice: bool) {
    && Kept(n, st)
    && st.Done(SymItem(s))
    && (!ignoreChoice ==> Awaited(n, st.fin, st.missed, SymItem(s)))
  }

  lemma DoneKept(n: Net, st: Marks, s: SymName, ignoreChoice: bool)
    requires Linked(n) && Kept(n, st) && st.Done(SymItem(s))
    requires (n.ChoiceOf(s).Some? ==> !ignoreChoice && !ChoiceOpen(n, st, s))
    ensures SymKept(n, st, s, ignoreChoice)
  {
    if n.ChoiceOf(s).Some? {
      ChoiceSettled(n, st, n.ChoiceOf(s).value, SymItem(s));
    }
  }

  lemma {:induction false} SymKeeps(n: Net, nodes: set<Item>, st: Marks, s: SymName, ignoreChoice: bool)
    requires Within(n, nodes) && SymItem(s) in nodes && st.visited.Keys <= nodes && Linked(n) && Kept(n, st)
    requires ignoreChoice ==> ChoiceOpen(n, st, s)
    ensures var (r, st') := SearchSym(n, nodes, st, s, ignoreChoice); r.NoLoop? ==> SymKept(n, st', s, ignoreChoice)
    decreases nodes - st.visited.Keys, 0, 1
  {
    var x := SymItem(s);
    if x !in st.visited {
      assert x in nodes - st.visited.Keys;
      KeptBegin(n, st, x);
      BelowKeeps(n, nodes, Begin(st, x), s, ignoreChoice);
      var (r, st1) := SearchBelow(n, nodes, Begin(st, x), s, ignoreChoice);
      if r.NoLoop? {
        assert Begin(st, x).Open(x);
        SymFinished(n, st1, s, ignoreChoice);
      }
    } else if st.Done(x) {
      SymKeptAgain(n, st, SearchSym(n, nodes, st, s, ignoreChoice).1, s, ignoreChoice);
    }
  }

  /** Everything below a symbol is searched. */
  ghost predicate BelowKept(n: Net, st: Marks, s: SymName, ignoreChoice: bool) {
    && Recorded(n, st)
    && ChoicesDone(n, st, Some(s))
    && DependentsAwaited(n, st, s)
    && (n.ChoiceOf(s).Some? ==>
          && ChoiceItem(n.ChoiceOf(s).value) in st.visited
          && (!ignoreChoice ==> st.Done(ChoiceItem(n.ChoiceOf(s).value))))
  }

  lemma {:induction false} BelowKeeps(n: Net, nodes: set<Item>, st: Marks, s: SymName, ignoreChoice: bool)
    requires Within(n, nodes) && SymItem(s) in nodes && st.visited.Keys <= nodes && Linked(n) && Kept(n, st)
    requires ignoreChoice ==> ChoiceOpen(n, st, s)
    ensures var (r, st') := SearchBelow(n, nodes, st, s, ignoreChoice); r.NoLoop? ==> BelowKept(n, st', s, ignoreChoice)
    decreases nodes - st.visited.Keys, 2, 0
  {
    DepsKeep(n, nodes, st, n.Dependents(SymItem(s)));
    var (r, st1) := SearchDeps(n, nodes, st, n.Dependents(SymItem(s)));
    if r.NoLoop? { OwnChoiceKeeps(n, nodes, st1, s, ignoreChoice); }
  }

  lemma {:induction false} OwnChoiceKeeps(n: Net, nodes: set<Item>, st: Marks, s: SymName, ignoreChoice: bool)
    requires Within(n, nodes) && SymItem(s) in nodes && st.visited.Keys <= nodes && Linked(n) && Kept(n, st)
    requires ignoreChoice ==> ChoiceOpen(n, st, s)
    requires DependentsAwaited(n, st, s)
    ensures var (r, st') := SearchOwnChoice(n, nodes, st, s, ignoreChoice); r.NoLoop? ==> BelowKept(n, st', s, ignoreChoice)
    decreases nodes - st.visited.Keys, 1, 0
  {
    if n.ChoiceOf(s).Some? && !ignoreChoice {
      ChoiceKeeps(n, nodes, st, n.ChoiceOf(s).value, Some(s));
      var (r, st') := SearchChoice(n, nodes, st, n.ChoiceOf(s).value, Some(s));
      if r.NoLoop? {
        forall y | y in n.Dependents(SymItem(s)) ensures Awaited(n, st'.fin, st'.missed, y) { AwaitedLater(n, st, st', y); }
      }
    }
  }

  lemma KeptMissed(n: Net, st: Marks, missed: bool)
    requires Kept(n, st) && (st.missed ==> missed)
    ensures Kept(n, st.(missed := missed))
  {
    var st' := st.(missed := missed);
    assert forall y :: st'.Done(y) <==> st.Done(y);
  }

  lemma SymKeptAgain(n: Net, st: Marks, st': Marks, s: SymName, ignoreChoice: bool)
    requires Linked(n) && Kept(n, st) && st.Done(SymItem(s)) && (ignoreChoice ==> ChoiceOpen(n, st, s))
    requires st' == st.(missed := st.missed || (!ignoreChoice && ChoiceOpen(n, st, s)))
    ensures SymKept(n, st', s, ignoreChoice)
  {
    KeptMissed(n, st, st'.missed);
    if !ignoreChoice && !st'.missed { DoneKept(n, st', s, ignoreChoice); }
  }

  lemma SymFinished(n: Net, st: Marks, s: SymName, ignoreChoice: bool)
    requires Linked(n) && st.Open(SymItem(s)) && BelowKept(n, st, s, ignoreChoice)
    ensures SymKept(n, Finish(st, SymItem(s)), s, ignoreChoice)
  {
    KeptFinishSym(n, st, s);
    if !ignoreChoice { DoneKept(n, Finish(st, SymItem(s)), s, ignoreChoice); }
  }

  lemma {:induction false} DepsKeep(n: Net, nodes: set<Item>, st: Marks, ys: seq<Item>)
    requires Within(n, nodes) && (forall y :: y in ys ==> y in nodes)
    requires st.visited.Keys <= nodes && Linked(n) && Kept(n, st)
    ensures var (r, st') := SearchDeps(n, nodes, st, ys);
            r.NoLoop? ==> Kept(n, st') && forall y :: y in ys ==> Awaited(n, st'.fin, st'.missed, y)
    decreases nodes - st.visited.Keys, 1, |ys|
  {
    if ys != [] {
      var y := ys[0];
      DepKeeps(n, nodes, st, y);
      var (r, st1) := SearchDep(n, nodes, st, y);
      if r.NoLoop? {
        DepsKeep(n, nodes, st1, ys[1..]);
        var (r2, st2) := SearchDeps(n, nodes, st1, ys[1..]);
        if r2.NoLoop? { AwaitedLater(n, st1, st2, y); }
      }
    }
  }

  lemma {:induction false} DepKeeps(n: Net, nodes: set<Item>, st: Marks, y: Item)
    requires Within(n, nodes) && y in nodes && st.visited.Keys <= nodes && Linked(n) && Kept(n, st)
    ensures var (r, st') := SearchDep(n, nodes, st, y);
            r.NoLoop? ==> Kept(n, st') && Awaited(n, st'.fin, st'.missed, y)
    decreases nodes - st.visited.Keys, 0, 2
  {
    match y
    case SymItem(s) => SymKeeps(n, nodes, st, s, false);
    case ChoiceItem(c) =>
      ChoiceKeeps(n, nodes, st, c, None);
      var (r, st') := SearchChoice(n, nodes, st, c, None);
      if r.NoLoop? { ChoiceSettled(n, st', c, y); }
  }

  lemma {:induction false} ChoiceKeeps(n: Net, nodes: set<Item>, st: Marks, c: ChoiceId, skip: Option<SymName>)
    requires Within(n, nodes) && ChoiceItem(c) in nodes && st.visited.Keys <= nodes && Linked(n) && Kept(n, st)
    ensures var (r, st') := SearchChoice(n, nodes, st, c, skip);
            r.NoLoop? ==> Recorded(n, st') && ChoicesDone(n, st', skip) && st'.Done(ChoiceItem(c))
    decreases nodes - st.visited.Keys, 0, 0
  {
    var x := ChoiceItem(c);
    if x !in st.visited {
      assert x in nodes - st.visited.Keys;
      KeptBegin(n, st, x);
      MembersKeep(n, nodes, Begin(st, x), c, n.Members(c), skip);
      var (r, st1) := SearchMembers(n, nodes, Begin(st, x), n.Members(c), skip);
      if r.NoLoop? {
        assert Begin(st, x).Open(x) && st1.Open(x);
        KeptFinishChoice(n, st1, c, skip);
      }
    }
  }

  lemma {:induction false} MembersKeep(
      n: Net, nodes: set<Item>, st: Marks, c: ChoiceId, ss: seq<SymName>, skip: Option<SymName>)
    requires Within(n, nodes) && (forall s :: s in ss ==> SymItem(s) in nodes)
    requires st.visited.Keys <= nodes && Linked(n) && Kept(n, st)
    requires st.Open(ChoiceItem(c)) && forall s :: s in ss ==> n.ChoiceOf(s) == Some(c)
    ensures var (r, st') := SearchMembers(n, nodes, st, ss, skip);
            r.NoLoop? ==> Kept(n, st') && forall s :: s in ss && Some(s) != skip ==> st'.Done(SymItem(s))
    decreases nodes - st.visited.Keys, 1, |ss|
  {
    if ss != [] {
      if Some(ss[0]) == skip {
        MembersKeep(n, nodes, st, c, ss[1..], skip);
      } else {
        SymKeeps(n, nodes, st, ss[0], true);
        var (r, st1) := SearchSym(n, nodes, st, ss[0], true);
        if r.NoLoop? {
          MembersKeep(n, nodes, st1, c, ss[1..], skip);
        }
      }
    }
  }

  lemma {:induction false} AllKeep(n: Net, nodes: set<Item>, st: Marks, ss: seq<SymName>)
    requires Within(n, nodes) && (forall s :: s in ss ==> SymItem(s) in nodes)
    requires st.visited.Keys <= nodes && Linked(n) && Kept(n, st)
    ensures var (r, st') := SearchAll(n, nodes, st, ss);
            r.NoLoop? ==> Kept(n, st') && Grown(st, st') && forall s :: s in ss ==> st'.Done(SymItem(s))
    decreases |ss|
  {
    if ss != [] {
      SymKeeps(n, nodes, st, ss[0], false);
      var (r, st1) := SearchSym(n, nodes, st, ss[0], false);
      if r.NoLoop? {
        AllKeep(n, nodes, st1, ss[1..]);
        var (r2, st2) := SearchAll(n, nodes, st1, ss[1..]);
        if r2.NoLoop? { GrownTwice(st, st1, st2); }
      }
    }
  }

  // ----- The exact condition for a correct pass -----

  /** How many items were finished after the last one that `k` stands for */
  function Since(n: Net, fin: seq<Item>, k: Item): (d: nat)
    ensures d <= |fin|
  {
    if fin == [] || n.Key(fin[|fin| - 1]) == k then 0 else 1 + Since(n, fin[..|fin| - 1], k)
  }

  lemma {:induction false} SinceAtMost(n: Net, fin: seq<Item>, i: nat)
    requires i < |fin|
    ensures Since(n, fin, n.Key(fin[i])) < |fin| - i
  {
    if i < |fin| - 1 { SinceAtMost(n, fin[..|fin| - 1], i); }
  }

  lemma {:induction false} SinceBeyond(n: Net, fin: seq<Item>, i: nat, k: Item)
    requires i <= |fin| && forall j :: i <= j < |fin| ==> n.Key(fin[j]) != k
    ensures |fin| - i <= Since(n, fin, k)
  {
    if i < |fin| { SinceBeyond(n, fin[..|fin| - 1], i, k); }
  }

  lemma OrderLevels(n: Net, fin: seq<Item>)
    requires Distinct(fin) && InOrder(n, fin, false) && forall s :: s in n.t.syms ==> SymItem(s) in fin
    ensures Leveled(n, k => Since(n, fin, k))
  {
    forall x: Item, y | x.SymItem? && Defined(n.t, x) && y in n.Dependents(x)
      ensures Since(n, fin, n.Key(x)) < Since(n, fin, n.Key(y))
    {
      var i :| 0 <= i < |fin| && fin[i] == x;
      assert Settled(n, fin[..i], y);
      forall j | i <= j < |fin| ensures n.Key(fin[j]) != n.Key(y) {
        assert fin[j] !in fin[..i];
      }
      SinceAtMost(n, fin, i);
      SinceBeyond(n, fin, i, n.Key(y));
    }
  }

  // ----- What a pass excludes in any case -----

  /** How many items were finished after `x` */
  function After(fin: seq<Item>, x: Item): (d: nat)
    ensures d <= |fin|
  {
    if fin == [] || fin[|fin| - 1] == x then 0 else 1 + After(fin[..|fin| - 1], x)
  }

  lemma {:induction false} AfterIs(fin: seq<Item>, i: nat)
    requires Distinct(fin) && i < |fin|
    ensures After(fin, fin[i]) == |fin| - 1 - i
  {
    if i < |fin| - 1 { AfterIs(fin[..|fin| - 1], i); }
  }

  /** A level for each item: a dependent of a symbol is on a higher level, and a symbol is not below its choice. The
      symbols of a choice need not be on one level. */
  ghost predicate Stacked(n: Net, level: Item -> nat) {
    && (forall x: Item, y {:trigger y in n.Dependents(x)} ::
          x.SymItem? && Defined(n.t, x) && y in n.Dependents(x) ==> level(x) < level(y))
    && (forall c: ChoiceId, s :: s in n.Members(c) && c in n.t.choices ==> level(ChoiceItem(c)) <= level(SymItem(s)))
  }

  function StackBy(
      n: Net, fin: seq<Item>): Item -> nat { (x: Item) => if x.SymItem? then After(fin, x) else Since(n, fin, x) }

  lemma OrderStacks(n: Net, fin: seq<Item>, missed: bool)
    requires Distinct(fin) && InOrder(n, fin, missed) && Linked(n) && forall s :: s in n.t.syms ==> SymItem(s) in fin
    ensures Stacked(n, StackBy(n, fin))
  {
    var level := StackBy(n, fin);
    forall x: Item, y | x.SymItem? && Defined(n.t, x) && y in n.Dependents(x) ensures level(x) < level(y) {
      var i :| 0 <= i < |fin| && fin[i] == x;
      DependentAbove(n, fin, missed, i, y);
    }
    forall c: ChoiceId, s | s in n.Members(c) && c in n.t.choices ensures level(ChoiceItem(c)) <= level(SymItem(s)) {
      assert n.ChoiceOf(s) == Some(c);
      var i :| 0 <= i < |fin| && fin[i] == SymItem(s);
      AfterIs(fin, i);
      SinceAtMost(n, fin, i);
    }
  }

  lemma DependentAbove(n: Net, fin: seq<Item>, missed: bool, i: nat, y: Item)
    requires Distinct(fin) && InOrder(n, fin, missed) && i < |fin| && fin[i].SymItem? && y in n.Dependents(fin[i])
    ensures After(fin, fin[i]) < if y.SymItem? then After(fin, y) else Since(n, fin, y)
  {
    AfterIs(fin, i);
    assert Awaited(n, fin[..i], missed, y);
    if y.SymItem? {
      var j :| 0 <= j < i && fin[j] == y;
      AfterIs(fin, j);
    } else {
      forall j | i <= j < |fin| ensures n.Key(fin[j]) != n.Key(y) { assert fin[j] !in fin[..i]; }
      SinceBeyond(n, fin, i, y);
    }
  }

  /** The search is to start from all defined symbols. */
  ghost predicate Rooted(n: Net, nodes: set<Item>, ss: seq<SymName>) {
    && Within(n, nodes)
    && Linked(n)
    && (forall s :: s in ss <==> s in n.t.syms)
    && (forall s :: s in ss ==> SymItem(s) in nodes)
  }

  const Unmarked: Marks := Marks(map[], [], false)

  lemma PassLevels(n: Net, nodes: set<Item>, ss: seq<SymName>)
    requires Rooted(n, nodes, ss)
    ensures var (r, st) := SearchAll(n, nodes, Unmarked, ss);
            r.NoLoop? && !st.missed ==> Leveled(n, k => Since(n, st.fin, k))
  {
    AllKeep(n, nodes, Unmarked, ss);
    var (r, st) := SearchAll(n, nodes, Unmarked, ss);
    if r.NoLoop? && !st.missed {
      OrderLevels(n, st.fin);
    }
  }

  lemma PassStacks(n: Net, nodes: set<Item>, ss: seq<SymName>)
    requires Rooted(n, nodes, ss)
    ensures var (r, st) := SearchAll(n, nodes, Unmarked, ss); r.NoLoop? ==> Stacked(n, StackBy(n, st.fin))
  {
    AllKeep(n, nodes, Unmarked, ss);
    var (r, st) := SearchAll(n, nodes, Unmarked, ss);
    if r.NoLoop? {
      OrderStacks(n, st.fin, st.missed);
    }
  }

  /** The check raises no error and missed nothing exactly if the dependencies have no loop. */
  lemma PassIffLoopFree(n: Net, nodes: set<Item>, ss: seq<SymName>)
    requires Rooted(n, nodes, ss)
    ensures var (r, st) := SearchAll(n, nodes, Unmarked, ss); r.NoLoop? && !st.missed <==> LoopFree(n)
  {
    PassLevels(n, nodes, ss);
    if LoopFree(n) {
      var level :| Leveled(n, level);
      AllPass(n, nodes, level, Unmarked, ss);
    }
  }

  // ----- What is reported is a loop -----

  /** A step of the search: to a dependent of a symbol, from a choice symbol to its choice, or from a choice to a
      symbol of it */
  predicate Edge(n: Net, x: Item, y: Item) {
    match x
    case SymItem(s) => y in n.Dependents(x) || (n.ChoiceOf(s).Some? && y == ChoiceItem(n.ChoiceOf(s).value))
    case ChoiceItem(c) => y.SymItem? && y.name in n.Members(c)
  }

  /** `p` runs against the edges: each element depends on the one after it. */
  predicate Chain(n: Net, p: seq<Item>) {
    forall i :: 0 <= i < |p| - 1 ==> Edge(n, p[i + 1], p[i])
  }

  predicate IsLoop(n: Net, p: seq<Item>) {
    p != [] && Chain(n, p) && Edge(n, p[0], p[|p| - 1])
  }

  /** What a search of `xs` returns: a chain from one of `xs` to an item being searched, or a loop */
  ghost predicate Found(n: Net, st: Marks, xs: seq<Item>, r: Outcome) {
    match r
    case NoLoop => true
    case Partial(p) => p != [] && st.Open(p[0]) && p[|p| - 1] in xs && Chain(n, p)
    case Raised(p) => IsLoop(n, p)
  }

  lemma FoundUp(n: Net, st: Marks, x: Item, ys: seq<Item>, r: Outcome)
    requires x !in st.visited && Found(n, Begin(st, x), ys, r) && !r.NoLoop? && forall y :: y in ys ==> Edge(n, x, y)
    ensures Found(n, st, [x], FoundDepLoop(r, x))
  {
    if r.Partial? && x != r.loop[0] {
      var p := r.loop + [x];
      forall i | 0 <= i < |p| - 1 ensures Edge(n, p[i + 1], p[i]) {}
    }
  }

  lemma FoundEarlier(n: Net, st: Marks, st': Marks, xs: seq<Item>, ys: seq<Item>, r: Outcome)
    requires Grown(st, st') && Found(n, st', xs, r) && forall x :: x in xs ==> x in ys
    ensures Found(n, st, ys, r)
  {
  }

  lemma {:induction false} SymReports(n: Net, nodes: set<Item>, st: Marks, s: SymName, ignoreChoice: bool)
    requires Within(n, nodes) && SymItem(s) in nodes && st.visited.Keys <= nodes
    ensures Found(n, st, [SymItem(s)], SearchSym(n, nodes, st, s, ignoreChoice).0)
    decreases nodes - st.visited.Keys, 0, 0
  {
    var x := SymItem(s);
    if x !in st.visited {
      assert x in nodes - st.visited.Keys;
      BelowReports(n, nodes, Begin(st, x), s, ignoreChoice);
      var r := SearchBelow(n, nodes, Begin(st, x), s, ignoreChoice).0;
      if !r.NoLoop? { FoundUp(n, st, x, Next(n, s), r); }
    }
  }

  /** Where the search goes on from a symbol */
  function Next(n: Net, s: SymName): (ys: seq<Item>)
    ensures forall y :: y in ys ==> Edge(n, SymItem(s), y)
  {
    n.Dependents(SymItem(s)) + if n.ChoiceOf(s).Some? then [ChoiceItem(n.ChoiceOf(s).value)] else []
  }

  lemma {:induction false} BelowReports(n: Net, nodes: set<Item>, st: Marks, s: SymName, ignoreChoice: bool)
    requires Within(n, nodes) && SymItem(s) in nodes && st.visited.Keys <= nodes
    ensures Found(n, st, Next(n, s), SearchBelow(n, nodes, st, s, ignoreChoice).0)
    decreases nodes - st.visited.Keys, 2, 0
  {
    DepsReport(n, nodes, st, n.Dependents(SymItem(s)));
    var (r1, st1) := SearchDeps(n, nodes, st, n.Dependents(SymItem(s)));
    if r1.NoLoop? && n.ChoiceOf(s).Some? && !ignoreChoice {
      var c := n.ChoiceOf(s).value;
      ChoiceReports(n, nodes, st1, c, Some(s));
      FoundEarlier(n, st, st1, [ChoiceItem(c)], Next(n, s), SearchChoice(n, nodes, st1, c, Some(s)).0);
    }
  }

  lemma {:induction false} DepsReport(n: Net, nodes: set<Item>, st: Marks, ys: seq<Item>)
    requires Within(n, nodes) && (forall y :: y in ys ==> y in nodes) && st.visited.Keys <= nodes
    ensures Found(n, st, ys, SearchDeps(n, nodes, st, ys).0)
    decreases nodes - st.visited.Keys, 1, |ys|
  {
    if ys != [] {
      match ys[0] {
        case SymItem(s) => SymReports(n, nodes, st, s, false);
        case ChoiceItem(c) => ChoiceReports(n, nodes, st, c, None);
      }
      var (r, st1) := SearchDep(n, nodes, st, ys[0]);
      if r.NoLoop? {
        DepsReport(n, nodes, st1, ys[1..]);
        FoundEarlier(n, st, st1, ys[1..], ys, SearchDeps(n, nodes, st1, ys[1..]).0);
      }
    }
  }

  lemma {:induction false} ChoiceReports(n: Net, nodes: set<Item>, st: Marks, c: ChoiceId, skip: Option<SymName>)
    requires Within(n, nodes) && ChoiceItem(c) in nodes && st.visited.Keys <= nodes
    ensures Found(n, st, [ChoiceItem(c)], SearchChoice(n, nodes, st, c, skip).0)
    decreases nodes - st.visited.Keys, 0, 0
  {
    var x := ChoiceItem(c);
    if x !in st.visited {
      assert x in nodes - st.visited.Keys;
      MembersReport(n, nodes, Begin(st, x), n.Members(c), skip);
      var r := SearchMembers(n, nodes, Begin(st, x), n.Members(c), skip).0;
      if !r.NoLoop? {
        FoundUp(n, st, x, Names(n.Members(c)), r);
      }
    }
  }

  function Names(ss: seq<SymName>): (xs: seq<Item>)
    ensures forall x :: x in xs <==> x.SymItem? && x.name in ss
  {
    if ss == [] then [] else [SymItem(ss[0])] + Names(ss[1..])
  }

  lemma {:induction false} MembersReport(n: Net, nodes: set<Item>, st: Marks, ss: seq<SymName>, skip: Option<SymName>)
    requires Within(n, nodes) && (forall s :: s in ss ==> SymItem(s) in nodes) && st.visited.Keys <= nodes
    ensures Found(n, st, Names(ss), SearchMembers(n, nodes, st, ss, skip).0)
    decreases nodes - st.visited.Keys, 1, |ss|
  {
    if ss != [] {
      if Some(ss[0]) == skip {
        MembersReport(n, nodes, st, ss[1..], skip);
      } else {
        SymReports(n, nodes, st, ss[0], true);
        var (r, st1) := SearchSym(n, nodes, st, ss[0], true);
        if r.NoLoop? {
          MembersReport(n, nodes, st1, ss[1..], skip);
          FoundEarlier(n, st, st1, Names(ss[1..]), Names(ss), SearchMembers(n, nodes, st1, ss[1..], skip).0);
        }
      }
    }
  }

  /** The program ignores what the search of a symbol returns and relies on the exception: nothing else than a
      complete loop is ever returned to it. */
  lemma {:induction false} AllReport(n: Net, nodes: set<Item>, st: Marks, ss: seq<SymName>)
    requires Within(n, nodes) && (forall s :: s in ss ==> SymItem(s) in nodes) && st.visited.Keys <= nodes
    requires forall z :: !st.Open(z)
    ensures var r := SearchAll(n, nodes, st, ss).0; r.NoLoop? || (r.Raised? && IsLoop(n, r.loop))
    decreases |ss|
  {
    if ss != [] {
      SymReports(n, nodes, st, ss[0], false);
      var (r, st1) := SearchSym(n, nodes, st, ss[0], false);
      if r.NoLoop? { AllReport(n, nodes, st1, ss[1..]); }
    }
  }

  lemma EdgeLevels(n: Net, level: Item -> nat, x: Item, y: Item)
    requires Linked(n) && Leveled(n, level) && Defined(n.t, x) && Edge(n, x, y)
    ensures level(n.Key(x)) <= level(n.Key(y)) && (x.SymItem? && y in n.Dependents(x) ==> level(n.Key(x)) < level(n.Key(y)))
  {
  }

  lemma {:induction false} ChainLevels(n: Net, level: Item -> nat, p: seq<Item>, i: nat, k: nat)
    requires Linked(n) && Leveled(n, level) && Chain(n, p) && i <= k < |p| && forall x :: x in p ==> Defined(n.t, x)
    ensures level(n.Key(p[k])) <= level(n.Key(p[i]))
  {
    if i < k {
      ChainLevels(n, level, p, i, k - 1);
      assert p[k] in p && Edge(n, p[k - 1 + 1], p[k - 1]);
      EdgeLevels(n, level, p[k], p[k - 1]);
    }
  }

  lemma LoopOnOneLevel(n: Net, level: Item -> nat, p: seq<Item>, i: nat)
    requires Linked(n) && Leveled(n, level) && IsLoop(n, p) && i < |p| && forall x :: x in p ==> Defined(n.t, x)
    ensures level(n.Key(p[i])) == level(n.Key(p[0]))
  {
    ChainLevels(n, level, p, 0, i);
    ChainLevels(n, level, p, i, |p| - 1);
    assert p[0] in p;
    EdgeLevels(n, level, p[0], p[|p| - 1]);
  }

  /** In a configuration free of loops, a closed chain of steps only goes between a choice and its symbols. */
  lemma NoClosedChain(n: Net, p: seq<Item>, i: nat, j: nat)
    requires Linked(n) && LoopFree(n) && IsLoop(n, p) && (forall x :: x in p ==> Defined(n.t, x)) && i < |p| && j < |p|
    ensures !(p[j].SymItem? && p[i] in n.Dependents(p[j]))
  {
    var level :| Leveled(n, level);
    assert p[j] in p;
    LoopOnOneLevel(n, level, p, i);
    LoopOnOneLevel(n, level, p, j);
  }

  /** A step that goes to a dependent or from a choice to a symbol of it. The other steps go from a symbol to its choice. */
  predicate Straight(n: Net, x: Item, y: Item) { Edge(n, x, y) && (x.SymItem? ==> y in n.Dependents(x)) }

  predicate StraightLoop(n: Net, p: seq<Item>) {
    && IsLoop(n, p)
    && (forall i :: 0 <= i < |p| - 1 ==> Straight(n, p[i + 1], p[i]))
    && Straight(n, p[0], p[|p| - 1])
  }

  lemma {:induction false} StraightRises(n: Net, level: Item -> nat, p: seq<Item>, i: nat)
    requires Stacked(n, level) && StraightLoop(n, p) && i < |p| && forall x :: x in p ==> Defined(n.t, x)
    ensures level(p[i]) <= level(p[0])
    ensures i > 0 && (exists j :: 0 < j <= i && p[j].SymItem?) ==> level(p[i]) < level(p[0])
  {
    if i > 0 {
      assert p[i] in p && Straight(n, p[i - 1 + 1], p[i - 1]);
      StraightRises(n, level, p, i - 1);
    }
  }

  /** A pass excludes every loop without such a detour, whatever the search met: only a loop that enters a choice through
      one of its symbols, without depending on the choice itself, can be missed. */
  lemma OnlyDetoursMissed(n: Net, nodes: set<Item>, ss: seq<SymName>, p: seq<Item>)
    requires Rooted(n, nodes, ss)
    requires SearchAll(n, nodes, Unmarked, ss).0.NoLoop? && forall x :: x in p ==> Defined(n.t, x)
    ensures !StraightLoop(n, p)
  {
    PassStacks(n, nodes, ss);
    StackedNoLoop(n, StackBy(n, SearchAll(n, nodes, Unmarked, ss).1.fin), p);
  }

  lemma StackedNoLoop(n: Net, level: Item -> nat, p: seq<Item>)
    requires Stacked(n, level) && forall x :: x in p ==> Defined(n.t, x)
    ensures !StraightLoop(n, p)
  {
    if StraightLoop(n, p) {
      assert p[0] in p && p[|p| - 1] in p;
      StraightRises(n, level, p, |p| - 1);
    }
  }

  // ----- The program -----

  class LoopCheck {
    const n: Net
    ghost const nodes: set<Item>
    var visited: map<Item, Mark>
    ghost var fin: seq<Item>
    ghost var missed: bool

    constructor (n: Net, ghost nodes: set<Item>)
      ensures this.n == n && this.nodes == nodes && Now() == Marks(map[], [], false)
    {
      this.n, this.nodes := n, nodes;
      visited, fin, missed := map[], [], false;
    }

    ghost function Now(): Marks
      reads this
    {
      Marks(visited, fin, missed)
    }

    method CheckSym(s: SymName, ignoreChoice: bool) returns (r: Outcome)
      requires Within(n, nodes) && SymItem(s) in nodes && visited.Keys <= nodes
      modifies this
      ensures (r, Now()) == SearchSym(n, nodes, old(Now()), s, ignoreChoice)
      decreases nodes - visited.Keys, 0
    {
      var x := SymItem(s);
      if x in visited {
        if visited[x] == 2 {
          missed := missed || (!ignoreChoice && ChoiceOpen(n, Now(), s));
          return NoLoop;
        }
        return Partial([x]);
      }
      assert x in nodes - visited.Keys;
      visited := visited[x := 1];
      ghost var begun := Now();
      var ys := n.Dependents(x);
      for i := 0 to |ys|
        invariant begun.visited.Keys <= visited.Keys <= nodes
        invariant SearchDeps(n, nodes, begun, ys) == SearchDeps(n, nodes, Now(), ys[i..])
      {
        assert ys[i..][1..] == ys[i + 1..] && ys[i] in ys;
        match ys[i] {
          case SymItem(y) => r := CheckSym(y, false);
          case ChoiceItem(c) => r := CheckChoice(c, None);
        }
        if !r.NoLoop? {
          assert SearchBelow(n, nodes, begun, s, ignoreChoice) == (r, Now());
          return FoundDepLoop(r, x);
        }
      }
      if n.ChoiceOf(s).Some? && !ignoreChoice {
        r := CheckChoice(n.ChoiceOf(s).value, Some(s));
        if !r.NoLoop? {
          assert SearchBelow(n, nodes, begun, s, ignoreChoice) == (r, Now());
          return FoundDepLoop(r, x);
        }
      }
      assert SearchBelow(n, nodes, begun, s, ignoreChoice) == (NoLoop, Now());
      visited, fin := visited[x := 2], fin + [x];
      r := NoLoop;
    }

    method CheckChoice(c: ChoiceId, skip: Option<SymName>) returns (r: Outcome)
      requires Within(n, nodes) && ChoiceItem(c) in nodes && visited.Keys <= nodes
      modifies this
      ensures (r, Now()) == SearchChoice(n, nodes, old(Now()), c, skip)
      decreases nodes - visited.Keys, 0
    {
      var x := ChoiceItem(c);
      if x in visited {
        return if visited[x] == 2 then NoLoop else Partial([x]);
      }
      assert x in nodes - visited.Keys;
      visited := visited[x := 1];
      ghost var begun := Now();
      var ss := n.Members(c);
      for i := 0 to |ss|
        invariant begun.visited.Keys <= visited.Keys <= nodes
        invariant SearchMembers(n, nodes, begun, ss, skip) == SearchMembers(n, nodes, Now(), ss[i..], skip)
      {
        assert ss[i..][1..] == ss[i + 1..] && ss[i] in ss;
        if Some(ss[i]) != skip {
          r := CheckSym(ss[i], true);
          if !r.NoLoop? {
            return FoundDepLoop(r, x);
          }
        }
      }
      visited, fin := visited[x := 2], fin + [x];
      r := NoLoop;
    }

    method CheckAll(ss: seq<SymName>) returns (r: Outcome)
      requires Within(n, nodes) && (forall s :: s in ss ==> SymItem(s) in nodes) && visited.Keys <= nodes
      modifies this
      ensures (r, Now()) == SearchAll(n, nodes, old(Now()), ss)
    {
      ghost var begun := Now();
      for i := 0 to |ss|
        invariant visited.Keys <= nodes && SearchAll(n, nodes, begun, ss) == SearchAll(n, nodes, Now(), ss[i..])
      {
        assert ss[i..][1..] == ss[i + 1..] && ss[i] in ss;
        r := CheckSym(ss[i], false);
        if !r.NoLoop? {
          return;
        }
      }
      r := NoLoop;
    }
  }
}
