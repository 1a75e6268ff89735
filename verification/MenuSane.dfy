/** The configuration tree that finalising assembles, and why the evaluator can rely on it. */
module MenuSane {
  import opened Wrappers
  import opened KconfigTree
  import opened KconfigEval
  import opened KconfigReload
  import opened MenuForest
  import opened MenuDeps
  import opened MenuProps

  // ----- Every node has one place -----

  /** The nodes of a level */
  function Tops(f: Forest): multiset<Id> { if f.Nil? then multiset{} else multiset{f.id} + Tops(f.next) }

  function StepTops(st: Step): multiset<Id> { if st.ChoiceStep? then Tops(st.kids) else multiset{} }

  /** The nodes directly below choices, as the steps found them */
  function AllTops(steps: seq<Step>): multiset<Id> {
    if steps == [] then multiset{} else StepTops(steps[0]) + AllTops(steps[1..])
  }

  /** The nodes that are not below a choice */
  function Open(z: Attributes, f: Forest): multiset<Id> {
    if f.Nil? then multiset{}
    else multiset{f.id} + (if z.Item(f.id).ChoiceEntry? then multiset{} else Open(z, f.list)) + Open(z, f.next)
  }

  lemma SumsRegroup(a: multiset<Id>, b: multiset<Id>, c: multiset<Id>)
    ensures a + (b + c) == a + b + c
  {
  }

  lemma HeadFirst(xs: seq<Step>, ys: seq<Step>)
    requires xs != []
    ensures xs + ys == [xs[0]] + (xs[1..] + ys)
  {
  }

  lemma ConsTops(st: Step, rest: seq<Step>)
    ensures AllTops([st] + rest) == StepTops(st) + AllTops(rest)
  {
    assert ([st] + rest)[1..] == rest;
  }

  lemma {:induction false} AllTopsConcat(xs: seq<Step>, ys: seq<Step>)
    ensures AllTops(xs + ys) == AllTops(xs) + AllTops(ys)
  {
    if xs == [] {
      assert xs + ys == ys && AllTops(xs) == multiset{};
    } else {
      AllTopsConcat(xs[1..], ys);
      HeadFirst(xs, ys);
      ConsTops(xs[0], xs[1..] + ys);
      SumsRegroup(StepTops(xs[0]), AllTops(xs[1..]), AllTops(ys));
    }
  }

  lemma {:induction false} TopsOpen(z: Attributes, f: Forest)
    ensures Tops(f) <= Open(z, f)
  {
    if f.Menu? { TopsOpen(z, f.next); }
  }

  lemma {:induction false} AppendOpen(z: Attributes, f: Forest, g: Forest)
    ensures Open(z, Append(f, g)) == Open(z, f) + Open(z, g)
  {
    if f.Menu? { AppendOpen(z, f.next, g); }
  }

  lemma {:induction false} FlatOpen(z: Attributes, f: Forest)
    ensures Open(z, Flat(z, f)) == Open(z, f)
    decreases Size(f)
  {
    if f.Menu? {
      if f.list.Menu? && Lifts(z, f.id) {
        AppendSize(f.list, f.next);
        AppendOpen(z, f.list, f.next);
        FlatOpen(z, Append(f.list, f.next));
      } else {
        FlatOpen(z, f.next);
      }
    }
  }

  lemma {:induction false} KeptOpen(z: Attributes, f: Forest)
    ensures Open(z, Kept(z, f)) <= Open(z, f)
  {
    if f.Menu? { KeptOpen(z, f.next); }
  }

  lemma LevelOpen(z: Attributes, f: Forest)
    ensures Open(z, Level(z, f)) <= Open(z, f)
  {
    FlatOpen(z, f);
    KeptOpen(z, Flat(z, f));
  }

  /** What is open below the first of some siblings once it is finalised */
  function OpenBelow(z: Attributes, f: Forest): multiset<Id>
    requires f.Menu?
  {
    if z.Item(f.id).ChoiceEntry? then multiset{} else Open(z, Kids(z, f))
  }

  lemma {:induction false} CopiedTops(z: Attributes, f: Forest)
    requires f.Menu? && SymbolsLeaf(z, f)
    ensures AllTops(Copied(z, f)) + OpenBelow(z, f) + Ids(Rest(z, f)) <= Ids(f.list) + Ids(f.next)
    decreases Size(f), 1
  {
    if IsSymbol(z, f.id) {
      var subs := CopiedSubs(z, f.id, f.next);
      SubsTops(z, f.id, f.next);
      LevelOpen(z, Submenus(z, f.id, f.next));
      AllTopsConcat([SymStep(f.id)], subs);
      assert AllTops([SymStep(f.id)]) == multiset{} by { assert [SymStep(f.id)][1..] == []; }
      Fewer(AllTops(subs), Open(z, Submenus(z, f.id, f.next)), OpenBelow(z, f), Ids(Rest(z, f)), Ids(f.next));
    } else {
      var below := CopiedEach(z, f.list);
      EachTops(z, f.list);
      LevelOpen(z, Each(z, f.list));
      TopsOpen(z, Kids(z, f));
      OwnTops(z, f);
      Fewer(AllTops(below), Open(z, Each(z, f.list)), Open(z, Kids(z, f)), multiset{}, Ids(f.list));
      if z.Item(f.id).ChoiceEntry? {
        Fewer(AllTops(below), Open(z, Kids(z, f)), Tops(Kids(z, f)), multiset{}, Ids(f.list));
      }
    }
  }

  lemma Fewer(a: multiset<Id>, b: multiset<Id>, b': multiset<Id>, c: multiset<Id>, all: multiset<Id>)
    requires a + b + c <= all && b' <= b
    ensures a + b' + c <= all
  {
    forall x ensures (a + b' + c)[x] <= all[x] { assert (a + b + c)[x] <= all[x] && b'[x] <= b[x]; }
  }

  lemma OwnTops(z: Attributes, f: Forest)
    requires f.Menu? && !IsSymbol(z, f.id)
    ensures AllTops(Copied(z, f)) ==
      AllTops(CopiedEach(z, f.list)) + if z.Item(f.id).ChoiceEntry? then Tops(Kids(z, f)) else multiset{}
  {
    var last := if z.Item(f.id).ChoiceEntry? then [ChoiceStep(f.id, Kids(z, f))] else [];
    AllTopsConcat(CopiedEach(z, f.list), last);
    if last != [] { assert last[1..] == []; }
  }

  lemma {:induction false} SubsTops(z: Attributes, id: Id, f: Forest)
    requires SymbolsLeaf(z, f)
    ensures AllTops(CopiedSubs(z, id, f)) + Open(z, Submenus(z, id, f)) + Ids(Left(z, id, f)) <= Ids(f)
    decreases Size(f), 2
  {
    if f.Menu? && Submenu(z, id, f.id) {
      var rest := Rest(z, f);
      CopiedTops(z, f);
      RestLeaf(z, f);
      SubsTops(z, id, rest);
      SubsParts(z, id, f);
      IdsParts(f);
      Joined(multiset{f.id}, AllTops(Copied(z, f)), OpenBelow(z, f), Ids(rest), Ids(f.list) + Ids(f.next),
             AllTops(CopiedSubs(z, id, rest)), Open(z, Submenus(z, id, rest)), Ids(Left(z, id, f)));
    }
  }

  lemma Joined(
      own: multiset<Id>, tops: multiset<Id>, below: multiset<Id>, rest: multiset<Id>, all: multiset<Id>,
      tops': multiset<Id>, open': multiset<Id>, left: multiset<Id>)
    requires tops + below + rest <= all && tops' + open' + left <= rest
    ensures (tops + tops') + (own + below + open') + left <= own + all
  {
    forall x ensures ((tops + tops') + (own + below + open') + left)[x] <= (own + all)[x] {
      assert (tops + below + rest)[x] <= all[x] && (tops' + open' + left)[x] <= rest[x];
    }
  }

  lemma JoinedAll(
      own: multiset<Id>, tops: multiset<Id>, below: multiset<Id>, rest: multiset<Id>, all: multiset<Id>,
      tops': multiset<Id>, open': multiset<Id>)
    requires tops + below + rest <= all && tops' + open' <= rest
    ensures (tops + tops') + (own + below + open') <= own + all
  {
    Joined(own, tops, below, rest, all, tops', open', multiset{});
  }

  lemma EachParts(z: Attributes, f: Forest)
    requires f.Menu?
    ensures AllTops(CopiedEach(z, f)) == AllTops(Copied(z, f)) + AllTops(CopiedEach(z, Rest(z, f)))
    ensures Open(z, Each(z, f)) == multiset{f.id} + OpenBelow(z, f) + Open(z, Each(z, Rest(z, f)))
  {
    AllTopsConcat(Copied(z, f), CopiedEach(z, Rest(z, f)));
  }

  lemma SubsParts(z: Attributes, id: Id, f: Forest)
    requires f.Menu? && Submenu(z, id, f.id)
    ensures AllTops(CopiedSubs(z, id, f)) == AllTops(Copied(z, f)) + AllTops(CopiedSubs(z, id, Rest(z, f)))
    ensures Open(z, Submenus(z, id, f)) == multiset{f.id} + OpenBelow(z, f) + Open(z, Submenus(z, id, Rest(z, f)))
    ensures Left(z, id, f) == Left(z, id, Rest(z, f))
  {
    AllTopsConcat(Copied(z, f), CopiedSubs(z, id, Rest(z, f)));
  }

  lemma IdsParts(f: Forest)
    requires f.Menu?
    ensures Ids(f) == multiset{f.id} + (Ids(f.list) + Ids(f.next))
  {
  }

  /** No node is found directly below choices more often than it occurs. */
  lemma {:induction false} EachTops(z: Attributes, f: Forest)
    requires SymbolsLeaf(z, f)
    ensures AllTops(CopiedEach(z, f)) + Open(z, Each(z, f)) <= Ids(f)
    decreases Size(f), 2
  {
    if f.Menu? {
      var rest := Rest(z, f);
      CopiedTops(z, f);
      RestLeaf(z, f);
      EachTops(z, rest);
      EachParts(z, f);
      IdsParts(f);
      JoinedAll(multiset{f.id}, AllTops(Copied(z, f)), OpenBelow(z, f), Ids(rest), Ids(f.list) + Ids(f.next),
                AllTops(CopiedEach(z, rest)), Open(z, Each(z, rest)));
    }
  }

  /** A step found the node directly below the choice. */
  ghost predicate Under(z: Attributes, steps: seq<Step>, c: ChoiceId, id: Id) {
    exists i :: 0 <= i < |steps| && Finds(z, steps[i], c, id)
  }

  predicate Finds(z: Attributes, st: Step, c: ChoiceId, id: Id) {
    st.ChoiceStep? && z.Item(st.id) == ChoiceEntry(c) && TopOf(st.kids, id)
  }

  lemma {:induction false} TopCounts(f: Forest, id: Id)
    requires TopOf(f, id)
    ensures Tops(f)[id] >= 1
  {
    if f.id != id { TopCounts(f.next, id); }
  }

  lemma {:induction false} StepCounts(steps: seq<Step>, i: nat, id: Id)
    requires i < |steps| && steps[i].ChoiceStep? && TopOf(steps[i].kids, id)
    ensures AllTops(steps)[id] >= 1
  {
    if i == 0 { TopCounts(steps[0].kids, id); } else { StepCounts(steps[1..], i - 1, id); }
  }

  lemma {:induction false} TwoStepsCount(steps: seq<Step>, i: nat, j: nat, id: Id)
    requires i < j < |steps| && steps[i].ChoiceStep? && steps[j].ChoiceStep?
    requires TopOf(steps[i].kids, id) && TopOf(steps[j].kids, id)
    ensures AllTops(steps)[id] >= 2
  {
    if i == 0 {
      TopCounts(steps[0].kids, id);
      StepCounts(steps[1..], j - 1, id);
    } else {
      TwoStepsCount(steps[1..], i - 1, j - 1, id);
    }
  }

  /** A node is directly below at most one choice. */
  lemma UnderOne(z: Attributes, f: Forest, c: ChoiceId, d: ChoiceId, id: Id)
    requires SymbolsLeaf(z, f) && Distinct(f)
    requires Under(z, CopiedEach(z, f), c, id) && Under(z, CopiedEach(z, f), d, id)
    ensures c == d
  {
    var steps := CopiedEach(z, f);
    var i :| 0 <= i < |steps| && Finds(z, steps[i], c, id);
    var j :| 0 <= j < |steps| && Finds(z, steps[j], d, id);
    TopOnce(z, f, id);
    if i < j { TwoStepsCount(steps, i, j, id); }
    if j < i { TwoStepsCount(steps, j, i, id); }
  }

  lemma TopOnce(z: Attributes, f: Forest, id: Id)
    requires SymbolsLeaf(z, f) && Distinct(f)
    ensures AllTops(CopiedEach(z, f))[id] <= 1
  {
    EachTops(z, f);
    assert Ids(f)[id] <= 1;
  }

  lemma UnderInside(z: Attributes, f: Forest, c: ChoiceId, id: Id)
    requires SymbolsLeaf(z, f) && Under(z, CopiedEach(z, f), c, id)
    ensures id in Ids(f)
  {
    var steps := CopiedEach(z, f);
    var i :| 0 <= i < |steps| && Finds(z, steps[i], c, id);
    EachTops(z, f);
    StepCounts(steps, i, id);
    assert AllTops(steps)[id] <= Ids(f)[id];
  }

  // ----- The steps and the nodes -----

  lemma {:induction false} RestIds(z: Attributes, f: Forest)
    requires f.Menu?
    ensures forall id :: id in Ids(Rest(z, f)) ==> id in Ids(f.next)
    decreases Size(f), 1
  {
    if IsSymbol(z, f.id) { LeftIds(z, f.id, f.next); }
  }

  lemma {:induction false} LeftIds(z: Attributes, id: Id, f: Forest)
    ensures forall x :: x in Ids(Left(z, id, f)) ==> x in Ids(f)
    decreases Size(f), 2
  {
    if f.Menu? && Submenu(z, id, f.id) {
      RestIds(z, f);
      LeftIds(z, id, Rest(z, f));
    }
  }

  ghost predicate StepsWithin(steps: seq<Step>, ids: multiset<Id>) { forall st :: st in steps ==> st.id in ids }

  lemma {:induction false} CopiedWithin(z: Attributes, f: Forest)
    requires f.Menu?
    ensures StepsWithin(Copied(z, f), Ids(f))
    decreases Size(f), 1
  {
    IdsInside(f);
    if IsSymbol(z, f.id) {
      SubsWithin(z, f.id, f.next);
      WithinConcat([SymStep(f.id)], CopiedSubs(z, f.id, f.next), Ids(f));
    } else {
      EachWithin(z, f.list);
      WithinConcat(CopiedEach(z, f.list), if z.Item(f.id).ChoiceEntry? then [ChoiceStep(f.id, Kids(z, f))] else [], Ids(f));
    }
  }

  lemma IdsInside(f: Forest)
    requires f.Menu?
    ensures f.id in Ids(f) && forall x :: x in Ids(f.list) || x in Ids(f.next) ==> x in Ids(f)
  {
  }

  lemma WithinConcat(xs: seq<Step>, ys: seq<Step>, ids: multiset<Id>)
    requires StepsWithin(xs, ids) && StepsWithin(ys, ids)
    ensures StepsWithin(xs + ys, ids)
  {
  }

  lemma {:induction false} SubsWithin(z: Attributes, id: Id, f: Forest)
    ensures StepsWithin(CopiedSubs(z, id, f), Ids(f))
    decreases Size(f), 2
  {
    if f.Menu? && Submenu(z, id, f.id) {
      CopiedWithin(z, f);
      RestIds(z, f);
      SubsWithin(z, id, Rest(z, f));
      IdsInside(f);
    }
  }

  lemma {:induction false} EachWithin(z: Attributes, f: Forest)
    ensures StepsWithin(CopiedEach(z, f), Ids(f))
    decreases Size(f), 2
  {
    if f.Menu? {
      CopiedWithin(z, f);
      RestIds(z, f);
      EachWithin(z, Rest(z, f));
      IdsInside(f);
    }
  }

  lemma {:induction false} SymItems(z: Attributes, f: Forest, id: Id)
    requires id in Ids(f) && IsSymbol(z, id)
    ensures id in Items(z, f)
  {
    if id == f.id {
    } else if id in Ids(f.list) {
      SymItems(z, f.list, id);
    } else {
      SymItems(z, f.next, id);
    }
  }

  lemma {:induction false} SymNodesAll(z: Attributes, ids: seq<Id>, id: Id)
    requires id in ids && IsSymbol(z, id)
    ensures id in SymNodes(z, ids)
  {
    if ids[0] != id { SymNodesAll(z, ids[1..], id); }
  }

  lemma {:induction false} NodesAll(z: Attributes, ids: seq<Id>, s: SymName, id: Id)
    requires id in ids && z.Item(id) == SymbolEntry(s)
    ensures id in NodesOf(z, ids, s)
  {
    var n := |ids| - 1;
    if ids[n] != id {
      assert id in ids[..n];
      NodesAll(z, ids[..n], s, id);
    }
  }

  lemma NodeListed(z: Attributes, f: Forest, s: SymName, id: Id)
    requires id in Ids(f) && z.Item(id) == SymbolEntry(s)
    ensures id in Syms(z, f) && id in NodesOf(z, Syms(z, f), s)
  {
    SymItems(z, f, id);
    SymNodesAll(z, Items(z, f), id);
    NodesAll(z, Syms(z, f), s, id);
  }

  lemma {:induction false} KidNode(z: Attributes, kids: Forest, s: SymName) returns (id: Id)
    requires s in KidSyms(z, kids)
    ensures TopOf(kids, id) && z.Item(id) == SymbolEntry(s)
  {
    if IsSymbol(z, kids.id) && z.Item(kids.id).sym == s { id := kids.id; } else { id := KidNode(z, kids.next, s); }
  }

  /** A symbol of a choice has a node directly below it. */
  lemma {:induction false} MemberNode(z: Attributes, steps: seq<Step>, c: ChoiceId, s: SymName) returns (id: Id)
    requires s in ChoiceMembers(z, steps, c)
    ensures Under(z, steps, c, id) && z.Item(id) == SymbolEntry(s)
  {
    var n := |steps| - 1;
    var st := steps[n];
    if st.ChoiceStep? && z.Item(st.id) == ChoiceEntry(c) && s in KidSyms(z, st.kids) {
      id := KidNode(z, st.kids, s);
      assert Finds(z, steps[n], c, id);
    } else {
      id := MemberNode(z, steps[..n], c, s);
      var i :| 0 <= i < |steps[..n]| && Finds(z, steps[..n][i], c, id);
      assert steps[i] == steps[..n][i];
    }
  }

  // ----- The assembled tree -----

  function ChoiceDefaultList(adds: seq<Property>): seq<ChoiceDefault> {
    if adds == [] then []
    else
      var first := adds[0];
      (if first.DefaultOf? && first.value.Ref? && first.value.leaf.Sym?
       then [ChoiceDefault(first.value.leaf.name, first.cond)] else [])
      + ChoiceDefaultList(adds[1..])
  }

  /** The nodes of a choice */
  function ChoiceNodes(z: Attributes, ids: seq<Id>, c: ChoiceId): seq<Id> {
    if ids == [] then []
    else (if z.Item(ids[0]) == ChoiceEntry(c) then [ids[0]] else []) + ChoiceNodes(z, ids[1..], c)
  }

  /** The tree of all symbols and choices that have a node, with what was copied to them */
  ghost predicate Whole(t: Tree, z: Attributes, b: Builds, f: Forest) {
    && Assembled(t, z, b, Syms(z, f))
    && (forall s :: s in t.syms <==> exists id :: id in Ids(f) && z.Item(id) == SymbolEntry(s))
    && (forall c :: c in t.choices <==> exists id :: id in Ids(f) && z.Item(id) == ChoiceEntry(c))
    && (forall s :: s in t.syms ==> t.syms[s].kind == b.Of(s).kind)
    && (forall c :: c in t.choices ==>
          && t.choices[c].kind == b.Choice(c).kind
          && t.choices[c].prompts == PromptList(z, ChoiceNodes(z, Items(z, f), c))
          && t.choices[c].defaults == ChoiceDefaultList(b.Choice(c).adds))
  }

  /** What `_check_sym_sanity` and `_check_choice_sanity` find nothing wrong with, as far as it matters here: every symbol
      has a type, strings and numbers have plain symbols as defaults and are not selected, choices are bool or tristate, a
      default of a choice is one of its symbols, and a choice symbol has prompts exactly at its nodes directly below the
      choice. */
  ghost predicate PassesSanity(t: Tree, z: Attributes, b: Builds, f: Forest) {
    && (forall s :: s in t.syms && !t.syms[s].kind.Logical() ==> forall x :: x in t.syms[s].defaults ==> x.value.Ref?)
    && (forall s, x :: s in t.syms && x in b.Of(s).adds && x.SelectOf? && x.target in t.syms ==>
          t.syms[x.target].kind.Logical())
    && (forall c :: c in t.choices ==> t.choices[c].kind.Logical())
    && (forall c, x :: c in t.choices && x in t.choices[c].defaults ==> b.Of(x.sym).choice == Some(c))
    && (forall c, s, id :: c in t.choices && s in t.choices[c].syms && id in NodesOf(z, Syms(z, f), s) ==>
          (z.Of(id).prompt.Some? <==> Under(z, CopiedEach(z, f), c, id)))
  }

  /** No sanity check sees to this. */
  predicate ChoiceSymsLogical(t: Tree) {
    forall c, s :: c in t.choices && s in t.choices[c].syms && s in t.syms ==> t.syms[s].kind.Logical()
  }

  /** The tree and everything it comes from */
  ghost predicate Produced(a: Attributes, z: Attributes, f: Forest, ks: Kinds, t: Tree) {
    && Settled(a, z, f, Y, Y) && a.item == z.item && SymbolsLeaf(z, f) && Distinct(f)
    && var b := ApplyAll(Start(ks), z, CopiedEach(z, f));
       Whole(t, z, b, f) && PassesSanity(t, z, b, f) && ChoiceSymsLogical(t)
  }

  function Result(z: Attributes, f: Forest, ks: Kinds): Builds { ApplyAll(Start(ks), z, CopiedEach(z, f)) }

  /** The node of a choice symbol directly below its choice, and that both are in the tree */
  lemma MemberKnown(a: Attributes, z: Attributes, f: Forest, ks: Kinds, t: Tree, c: ChoiceId, s: SymName) returns (id: Id)
    requires Produced(a, z, f, ks, t) && s in Result(z, f, ks).Choice(c).syms
    ensures s in t.syms && c in t.choices && z.Item(id) == SymbolEntry(s) && Under(z, CopiedEach(z, f), c, id)
    ensures id in NodesOf(z, Syms(z, f), s)
  {
    var steps := CopiedEach(z, f);
    ChoiceBuilt(ks, z, steps, c);
    id := MemberNode(z, steps, c, s);
    UnderInside(z, f, c, id);
    NodeListed(z, f, s, id);
    var i :| 0 <= i < |steps| && Finds(z, steps[i], c, id);
    EachWithin(z, f);
    assert steps[i] in steps && steps[i].id in Ids(f);
  }

  /** No symbol is in two choices: it would have a prompt outside of one of them. */
  lemma InOneChoice(a: Attributes, z: Attributes, f: Forest, ks: Kinds, t: Tree, c: ChoiceId, d: ChoiceId, s: SymName)
    requires Produced(a, z, f, ks, t) && s in Result(z, f, ks).Choice(c).syms && s in Result(z, f, ks).Choice(d).syms
    ensures c == d
  {
    var id := MemberKnown(a, z, f, ks, t, c, s);
    var other := MemberKnown(a, z, f, ks, t, d, s);
    assert z.Of(id).prompt.Some?;
    assert Under(z, CopiedEach(z, f), d, id);
    UnderOne(z, f, c, d, id);
  }

  /** Choice symbols and choices refer to each other, both ways. */
  lemma MembersExactly(a: Attributes, z: Attributes, f: Forest, ks: Kinds, t: Tree, c: ChoiceId, s: SymName)
    requires Produced(a, z, f, ks, t)
    ensures s in Result(z, f, ks).Choice(c).syms <==> Result(z, f, ks).Of(s).choice == Some(c)
  {
    var b := Result(z, f, ks);
    AllReferBack(ks, z, CopiedEach(z, f));
    if s in b.Choice(c).syms {
      var d := b.Of(s).choice.value;
      assert s in b.Choice(d).syms;
      InOneChoice(a, z, f, ks, t, c, d, s);
    }
  }

  lemma SymIsSane(a: Attributes, z: Attributes, f: Forest, ks: Kinds, t: Tree, s: SymName)
    requires Produced(a, z, f, ks, t) && s in t.syms
    ensures SaneSym(t, s)
  {
    if t.syms[s].choice.Some? {
      var c := t.syms[s].choice.value;
      MembersExactly(a, z, f, ks, t, c, s);
      var id := MemberKnown(a, z, f, ks, t, c, s);
      SymPrompts(a, z, f, ks, t, c, s);
    }
  }

  lemma SymPrompts(a: Attributes, z: Attributes, f: Forest, ks: Kinds, t: Tree, c: ChoiceId, s: SymName)
    requires Produced(a, z, f, ks, t) && s in t.syms && c in t.choices && s in t.choices[c].syms
    ensures forall p :: p in t.syms[s].prompts ==> p == N || ChoiceItem(c) in ExprItems(p)
  {
    var steps, ids := CopiedEach(z, f), NodesOf(z, Syms(z, f), s);
    forall id | id in ids && z.Of(id).prompt.Some?
      ensures exists st :: st in steps && st.ChoiceStep? && z.Item(st.id) == ChoiceEntry(c) && TopOf(st.kids, id)
    {
      assert Under(z, steps, c, id);
      var i :| 0 <= i < |steps| && Finds(z, steps[i], c, id);
      assert steps[i] in steps;
    }
    ChoicePrompts(a, z, f, ks, t, s, c);
  }

  lemma ChoiceIsSane(a: Attributes, z: Attributes, f: Forest, ks: Kinds, t: Tree, c: ChoiceId)
    requires Produced(a, z, f, ks, t) && c in t.choices
    ensures SaneChoice(t, c)
  {
    forall s | s in t.choices[c].syms ensures s in t.syms && t.syms[s].choice == Some(c) {
      var id := MemberKnown(a, z, f, ks, t, c, s);
      MembersExactly(a, z, f, ks, t, c, s);
    }
    forall x | x in t.choices[c].defaults ensures x.sym in t.choices[c].syms {
      MembersExactly(a, z, f, ks, t, c, x.sym);
    }
  }

  /** What finalising makes of a parsed tree that passes the sanity checks is a tree that the evaluator can rely on. */
  lemma FinalisedSane(a: Attributes, z: Attributes, f: Forest, ks: Kinds, t: Tree)
    requires Produced(a, z, f, ks, t)
    ensures Sane(t)
  {
    forall s | s in t.syms ensures SaneSym(t, s) { SymIsSane(a, z, f, ks, t, s); }
    forall c | c in t.choices ensures SaneChoice(t, c) { ChoiceIsSane(a, z, f, ks, t, c); }
  }

  // ----- Selects -----

  predicate Selects(ps: seq<Property>, x: SymName) { exists p :: p in ps && p.SelectOf? && p.target == x }

  lemma {:induction false} UnselectedReverses(b: Builds, s: SymName, ps: seq<Property>, x: SymName)
    requires !Selects(ps, x)
    ensures AddReverses(b, s, ps).Of(x).revDep == b.Of(x).revDep
    decreases |ps|
  {
    if ps != [] {
      assert ps[0] in ps;
      UnselectedReverses(AddReverse(b, s, ps[0]), s, ps[1..], x);
    }
  }

  lemma UnselectedStep(b: Builds, e: Attributes, st: Step, x: SymName)
    requires Fits(e, st) && (st.SymStep? ==> !Selects(e.Of(st.id).adds, x))
    ensures Apply(b, e, st).Of(x).revDep == b.Of(x).revDep
  {
    match st
    case SymStep(id) => UnselectedReverses(AddOwn(b, e.Item(id).sym, e.Of(id)), e.Item(id).sym, e.Of(id).adds, x);
    case ChoiceStep(id, kids) =>
      var c := e.Item(id).choice;
      MembersKeep(AddToChoice(b, c, e.Of(id)), e, c, kids, x);
      TypesKeep(AddMembers(AddToChoice(b, c, e.Of(id)), e, c, kids), c, x);
  }

  /** A symbol that no node selects has no reverse dependencies. */
  lemma {:induction false} Unselected(ks: Kinds, e: Attributes, steps: seq<Step>, x: SymName)
    requires AllFit(e, steps) && forall st :: st in steps && st.SymStep? ==> !Selects(e.Of(st.id).adds, x)
    ensures ApplyAll(Start(ks), e, steps).Of(x).revDep == N
    decreases |steps|
  {
    if steps != [] {
      var front, st := steps[..|steps| - 1], steps[|steps| - 1];
      Unselected(ks, e, front, x);
      ApplySnoc(Start(ks), e, steps);
      assert st in steps;
      UnselectedStep(ApplyAll(Start(ks), e, front), e, st, x);
    }
  }

  lemma {:induction false} AddsOfNode(e: Attributes, ids: seq<Id>, id: Id, p: Property)
    requires id in ids && p in e.Of(id).adds
    ensures p in AllAdds(e, ids)
  {
    var n := |ids| - 1;
    if ids[n] != id {
      assert id in ids[..n];
      AddsOfNode(e, ids[..n], id, p);
    }
  }

  lemma Selector(a: Attributes, z: Attributes, f: Forest, ks: Kinds, t: Tree, st: Step, p: Property)
    requires Produced(a, z, f, ks, t) && st in CopiedEach(z, f) && st.SymStep? && p in z.Of(st.id).adds
    ensures IsSymbol(z, st.id) && z.Item(st.id).sym in t.syms && p in Result(z, f, ks).Of(z.Item(st.id).sym).adds
  {
    assert Fits(z, st);
    var s := z.Item(st.id).sym;
    EachWithin(z, f);
    NodeListed(z, f, s, st.id);
    EachOrder(z, f);
    SymBuilt(ks, z, CopiedEach(z, f), s);
    AddsOfNode(z, NodesOf(z, Syms(z, f), s), st.id, p);
  }

  /** Strings and numbers have no reverse dependencies. */
  lemma NumbersUnselected(a: Attributes, z: Attributes, f: Forest, ks: Kinds, t: Tree, x: SymName)
    requires Produced(a, z, f, ks, t) && x in t.syms && !t.syms[x].kind.Logical()
    ensures t.syms[x].revDep == N
  {
    forall st | st in CopiedEach(z, f) && st.SymStep? ensures !Selects(z.Of(st.id).adds, x) {
      forall p | p in z.Of(st.id).adds && p.SelectOf? ensures p.target != x { Selector(a, z, f, ks, t, st, p); }
    }
    Unselected(ks, z, CopiedEach(z, f), x);
  }

  /** And it is one that the minimal configuration can rely on. */
  lemma FinalisedGuarded(a: Attributes, z: Attributes, f: Forest, ks: Kinds, t: Tree)
    requires Produced(a, z, f, ks, t)
    ensures Guarded(t)
  {
    forall s | s in t.syms && !t.syms[s].kind.Logical() ensures t.syms[s].revDep == N {
      NumbersUnselected(a, z, f, ks, t, s);
    }
    FinalisedGuards(a, z, f, ks, t);
  }
}
