/** What finalising copies from the menu nodes to the symbols and choices, in which order, and what it is worth. */
module MenuProps {
  import opened Wrappers
  import opened KconfigTree
  import opened KconfigEval
  import opened KconfigReload
  import opened MenuForest
  import opened MenuDeps

  // ----- Copying -----

  /** A symbol while it collects what its nodes add; `adds` holds its defaults, ranges, selects and implies. */
  datatype SymBuild = SymBuild(
    kind: Kind, directDep: Expr, adds: seq<Property>, revDep: Expr, weakRevDep: Expr, choice: Option<ChoiceId>)

  datatype ChoiceBuild = ChoiceBuild(kind: Kind, directDep: Expr, adds: seq<Property>, syms: seq<SymName>)

  datatype Builds = Builds(syms: map<SymName, SymBuild>, choices: map<ChoiceId, ChoiceBuild>) {
    function Of(s: SymName): SymBuild { if s in syms then syms[s] else SymBuild(Unknown, N, [], N, N, None) }
    function Choice(c: ChoiceId): ChoiceBuild { if c in choices then choices[c] else ChoiceBuild(Unknown, N, [], []) }
  }

  /** The types that were given to symbols and choices */
  datatype Kinds = Kinds(syms: map<SymName, Kind>, choices: map<ChoiceId, Kind>) {
    function Of(s: SymName): Kind { if s in syms then syms[s] else Unknown }
  }

  function Start(ks: Kinds): Builds {
    Builds(map s | s in ks.syms :: SymBuild(ks.syms[s], N, [], N, N, None),
           map c | c in ks.choices :: ChoiceBuild(ks.choices[c], N, [], []))
  }

  /** A select or imply of the symbol `s` adds to the reverse dependencies of its target. */
  function AddReverse(b: Builds, s: SymName, p: Property): Builds {
    match p
    case SelectOf(target, cond) =>
      var d := b.Of(target);
      b.(syms := b.syms[target := d.(revDep := MakeOr(d.revDep, MakeAnd(Ref(Sym(s)), cond)))])
    case ImplyOf(target, cond) =>
      var d := b.Of(target);
      b.(syms := b.syms[target := d.(weakRevDep := MakeOr(d.weakRevDep, MakeAnd(Ref(Sym(s)), cond)))])
    case _ => b
  }

  function AddReverses(b: Builds, s: SymName, ps: seq<Property>): Builds
    decreases |ps|
  {
    if ps == [] then b else AddReverses(AddReverse(b, s, ps[0]), s, ps[1..])
  }

  function AddOwn(b: Builds, s: SymName, p: Props): Builds {
    var d := b.Of(s);
    b.(syms := b.syms[s := d.(directDep := MakeOr(d.directDep, p.dep), adds := d.adds + p.adds)])
  }

  /** `_add_props_to_sym` */
  function AddNode(b: Builds, e: Attributes, id: Id): Builds
    requires IsSymbol(e, id)
  {
    AddReverses(AddOwn(b, e.Item(id).sym, e.Of(id)), e.Item(id).sym, e.Of(id).adds)
  }

  function AddMember(b: Builds, c: ChoiceId, s: SymName): Builds {
    Builds(b.syms[s := b.Of(s).(choice := Some(c))], b.choices[c := b.Choice(c).(syms := b.Choice(c).syms + [s])])
  }

  /** The first loop of `_finalize_choice`: the symbols directly below a choice become its symbols. */
  function AddMembers(b: Builds, e: Attributes, c: ChoiceId, kids: Forest): Builds
    decreases kids
  {
    if kids.Nil? then b
    else AddMembers(if IsSymbol(e, kids.id) then AddMember(b, c, e.Item(kids.id).sym) else b, e, c, kids.next)
  }

  function FirstKind(b: Builds, syms: seq<SymName>): Kind {
    if syms == [] then Unknown
    else if b.Of(syms[0]).kind != Unknown then b.Of(syms[0]).kind
    else FirstKind(b, syms[1..])
  }

  function WithKind(b: Builds, s: SymName, k: Kind): Builds {
    if b.Of(s).kind == Unknown then b.(syms := b.syms[s := b.Of(s).(kind := k)]) else b
  }

  function WithKinds(b: Builds, syms: seq<SymName>, k: Kind): Builds
    decreases |syms|
  {
    if syms == [] then b else WithKinds(WithKind(b, syms[0], k), syms[1..], k)
  }

  function ChoiceKind(b: Builds, c: ChoiceId): Kind {
    if b.Choice(c).kind != Unknown then b.Choice(c).kind else FirstKind(b, b.Choice(c).syms)
  }

  /** The rest of `_finalize_choice`: a choice without a type gets that of its first symbol with one, and its symbols
      without a type get that of the choice. */
  function GiveTypes(b: Builds, c: ChoiceId): Builds {
    var k := ChoiceKind(b, c);
    WithKinds(b.(choices := b.choices[c := b.Choice(c).(kind := k)]), b.Choice(c).syms, k)
  }

  function AddToChoice(b: Builds, c: ChoiceId, p: Props): Builds {
    var d := b.Choice(c);
    b.(choices := b.choices[c := d.(directDep := MakeOr(d.directDep, p.dep), adds := d.adds + p.adds)])
  }

  /** The copying done for one node; a choice comes with its finalised children. */
  datatype Step = SymStep(id: Id) | ChoiceStep(id: Id, kids: Forest)

  predicate Fits(e: Attributes, st: Step) {
    if st.SymStep? then IsSymbol(e, st.id) else e.Item(st.id).ChoiceEntry?
  }

  function Apply(b: Builds, e: Attributes, st: Step): Builds
    requires Fits(e, st)
  {
    match st
    case SymStep(id) => AddNode(b, e, id)
    case ChoiceStep(id, kids) =>
      var c := e.Item(id).choice;
      GiveTypes(AddMembers(AddToChoice(b, c, e.Of(id)), e, c, kids), c)
  }

  predicate AllFit(e: Attributes, steps: seq<Step>) { forall st :: st in steps ==> Fits(e, st) }

  function ApplyAll(b: Builds, e: Attributes, steps: seq<Step>): Builds
    requires AllFit(e, steps)
    decreases |steps|
  {
    if steps == [] then b else ApplyAll(Apply(b, e, steps[0]), e, steps[1..])
  }

  lemma {:induction false} ApplyConcat(b: Builds, e: Attributes, xs: seq<Step>, ys: seq<Step>)
    requires AllFit(e, xs) && AllFit(e, ys)
    ensures AllFit(e, xs + ys) && ApplyAll(b, e, xs + ys) == ApplyAll(ApplyAll(b, e, xs), e, ys)
    decreases |xs|
  {
    if xs == [] {
      assert xs + ys == ys;
    } else {
      ApplyConcat(Apply(b, e, xs[0]), e, xs[1..], ys);
      assert (xs + ys)[1..] == xs[1..] + ys;
    }
  }

  /** The copying of `_finalize_node` for the first of some siblings: a symbol comes before the siblings it takes, a choice
      after everything below it. */
  function Copied(e: Attributes, f: Forest): (r: seq<Step>)
    requires f.Menu?
    ensures AllFit(e, r)
    decreases Size(f), 1
  {
    if IsSymbol(e, f.id) then [SymStep(f.id)] + CopiedSubs(e, f.id, f.next)
    else CopiedEach(e, f.list) + if e.Item(f.id).ChoiceEntry? then [ChoiceStep(f.id, Kids(e, f))] else []
  }

  function CopiedSubs(e: Attributes, id: Id, f: Forest): (r: seq<Step>)
    ensures AllFit(e, r)
    decreases Size(f), 2
  {
    if f.Nil? || !Submenu(e, id, f.id) then [] else Copied(e, f) + CopiedSubs(e, id, Rest(e, f))
  }

  function CopiedEach(e: Attributes, f: Forest): (r: seq<Step>)
    ensures AllFit(e, r)
    decreases Size(f), 2
  {
    if f.Nil? then [] else Copied(e, f) + CopiedEach(e, Rest(e, f))
  }

  // ----- The order -----

  /** The symbol nodes among the steps, and among the nodes */
  function SymSteps(steps: seq<Step>): seq<Id> {
    if steps == [] then [] else (if steps[0].SymStep? then [steps[0].id] else []) + SymSteps(steps[1..])
  }

  function SymNodes(e: Attributes, ids: seq<Id>): seq<Id> {
    if ids == [] then [] else (if IsSymbol(e, ids[0]) then [ids[0]] else []) + SymNodes(e, ids[1..])
  }

  lemma Joined(a: seq<Id>, b: seq<Id>, c: seq<Id>)
    ensures a + (b + c) == a + b + c
  {
  }

  lemma {:induction false} SymStepsConcat(xs: seq<Step>, ys: seq<Step>)
    ensures SymSteps(xs + ys) == SymSteps(xs) + SymSteps(ys)
  {
    if xs == [] {
      assert xs + ys == ys;
    } else {
      SymStepsConcat(xs[1..], ys);
      var zs := xs + ys;
      assert zs[0] == xs[0] && zs[1..] == xs[1..] + ys;
      Joined(if xs[0].SymStep? then [xs[0].id] else [], SymSteps(xs[1..]), SymSteps(ys));
    }
  }

  lemma {:induction false} SymNodesConcat(e: Attributes, xs: seq<Id>, ys: seq<Id>)
    ensures SymNodes(e, xs + ys) == SymNodes(e, xs) + SymNodes(e, ys)
  {
    if xs == [] {
      assert xs + ys == ys;
    } else {
      SymNodesConcat(e, xs[1..], ys);
      var zs := xs + ys;
      assert zs[0] == xs[0] && zs[1..] == xs[1..] + ys;
      Joined(if IsSymbol(e, xs[0]) then [xs[0]] else [], SymNodes(e, xs[1..]), SymNodes(e, ys));
    }
  }

  function Syms(e: Attributes, f: Forest): seq<Id> { SymNodes(e, Items(e, f)) }

  lemma SymsParts(e: Attributes, f: Forest)
    requires f.Menu?
    ensures Syms(e, f) == (if IsSymbol(e, f.id) then [f.id] else []) + Syms(e, f.list) + Syms(e, f.next)
  {
    SymNodesConcat(e, Own(e, f.id) + Items(e, f.list), Items(e, f.next));
    SymNodesConcat(e, Own(e, f.id), Items(e, f.list));
    assert SymNodes(e, [f.id][1..]) == [];
  }

  lemma {:induction false} CopiedOrder(e: Attributes, f: Forest)
    requires f.Menu? && SymbolsLeaf(e, f)
    ensures SymSteps(Copied(e, f)) + Syms(e, Rest(e, f)) == Syms(e, f)
    decreases Size(f), 1
  {
    SymsParts(e, f);
    if IsSymbol(e, f.id) {
      SubsOrder(e, f.id, f.next);
      SymStepsConcat([SymStep(f.id)], CopiedSubs(e, f.id, f.next));
      assert [SymStep(f.id)][1..] == [];
      assert Syms(e, f.list) == [];
    } else {
      EachOrder(e, f.list);
      var last := if e.Item(f.id).ChoiceEntry? then [ChoiceStep(f.id, Kids(e, f))] else [];
      SymStepsConcat(CopiedEach(e, f.list), last);
      assert last != [] ==> last[1..] == [];
    }
  }

  lemma {:induction false} SubsOrder(e: Attributes, id: Id, f: Forest)
    requires SymbolsLeaf(e, f)
    ensures SymSteps(CopiedSubs(e, id, f)) + Syms(e, Left(e, id, f)) == Syms(e, f)
    decreases Size(f), 2
  {
    if f.Menu? && Submenu(e, id, f.id) {
      CopiedOrder(e, f);
      RestLeaf(e, f);
      SubsOrder(e, id, Rest(e, f));
      SymStepsConcat(Copied(e, f), CopiedSubs(e, id, Rest(e, f)));
    }
  }

  /** Properties are copied from the symbol nodes in the order of the nodes, whatever implicit submenus arise. */
  lemma {:induction false} EachOrder(e: Attributes, f: Forest)
    requires SymbolsLeaf(e, f)
    ensures SymSteps(CopiedEach(e, f)) == Syms(e, f)
    decreases Size(f), 2
  {
    if f.Menu? {
      CopiedOrder(e, f);
      RestLeaf(e, f);
      EachOrder(e, Rest(e, f));
      SymStepsConcat(Copied(e, f), CopiedEach(e, Rest(e, f)));
    }
  }

  // ----- What the symbols and choices end up with -----

  lemma ApplySnoc(b: Builds, e: Attributes, steps: seq<Step>)
    requires steps != [] && AllFit(e, steps)
    ensures var front, st := steps[..|steps| - 1], steps[|steps| - 1];
      ApplyAll(b, e, steps) == Apply(ApplyAll(b, e, front), e, st)
  {
    var front, st := steps[..|steps| - 1], steps[|steps| - 1];
    assert steps == front + [st] && [st][1..] == [];
    ApplyConcat(b, e, front, [st]);
  }

  lemma {:induction false} ReversesKeep(b: Builds, s: SymName, ps: seq<Property>, x: SymName)
    ensures var d, d' := b.Of(x), AddReverses(b, s, ps).Of(x);
      d'.directDep == d.directDep && d'.adds == d.adds && d'.choice == d.choice && d'.kind == d.kind
    ensures AddReverses(b, s, ps).choices == b.choices
    decreases |ps|
  {
    if ps != [] { ReversesKeep(AddReverse(b, s, ps[0]), s, ps[1..], x); }
  }

  lemma {:induction false} MembersKeep(b: Builds, e: Attributes, c: ChoiceId, kids: Forest, x: SymName)
    ensures var d, d' := b.Of(x), AddMembers(b, e, c, kids).Of(x);
      && d'.directDep == d.directDep && d'.adds == d.adds && d'.kind == d.kind
      && d'.revDep == d.revDep && d'.weakRevDep == d.weakRevDep
    ensures forall x :: AddMembers(b, e, c, kids).Choice(x).kind == b.Choice(x).kind
    decreases kids
  {
    if kids.Menu? {
      MembersKeep(if IsSymbol(e, kids.id) then AddMember(b, c, e.Item(kids.id).sym) else b, e, c, kids.next, x);
    }
  }

  /** The nodes of a symbol */
  function NodesOf(e: Attributes, ids: seq<Id>, s: SymName): seq<Id> {
    if ids == [] then [] else
    var last := ids[|ids| - 1];
    NodesOf(e, ids[..|ids| - 1], s) + (if e.Item(last) == SymbolEntry(s) then [last] else [])
  }

  function OrDeps(e: Attributes, ids: seq<Id>): Expr {
    if ids == [] then N else MakeOr(OrDeps(e, ids[..|ids| - 1]), e.Of(ids[|ids| - 1]).dep)
  }

  function AllAdds(e: Attributes, ids: seq<Id>): seq<Property> {
    if ids == [] then [] else AllAdds(e, ids[..|ids| - 1]) + e.Of(ids[|ids| - 1]).adds
  }

  lemma SymStepsSnoc(steps: seq<Step>)
    requires steps != []
    ensures var front, st := steps[..|steps| - 1], steps[|steps| - 1];
      SymSteps(steps) == SymSteps(front) + if st.SymStep? then [st.id] else []
  {
    var front, st := steps[..|steps| - 1], steps[|steps| - 1];
    assert steps == front + [st] && [st][1..] == [];
    SymStepsConcat(front, [st]);
  }

  lemma {:induction false} KindsKeep(b: Builds, syms: seq<SymName>, k: Kind, x: SymName)
    ensures var b' := WithKinds(b, syms, k); b'.Of(x) == b.Of(x).(kind := b'.Of(x).kind) && b'.choices == b.choices
    ensures b.Of(x).kind != Unknown ==> WithKinds(b, syms, k).Of(x) == b.Of(x)
    decreases |syms|
  {
    if syms != [] { KindsKeep(WithKind(b, syms[0], k), syms[1..], k, x); }
  }

  /** Types change nothing else. */
  lemma TypesKeep(b: Builds, c: ChoiceId, x: SymName)
    ensures var b' := GiveTypes(b, c); b'.Of(x) == b.Of(x).(kind := b'.Of(x).kind)
    ensures GiveTypes(b, c).choices == b.choices[c := b.Choice(c).(kind := ChoiceKind(b, c))]
    ensures b.Of(x).kind != Unknown ==> GiveTypes(b, c).Of(x) == b.Of(x)
  {
    KindsKeep(b.(choices := b.choices[c := b.Choice(c).(kind := ChoiceKind(b, c))]), b.Choice(c).syms, ChoiceKind(b, c), x);
  }

  /** What a step does to the dependencies and properties of a symbol */
  lemma StepBuilds(b: Builds, e: Attributes, st: Step, s: SymName)
    requires Fits(e, st)
    ensures var d, d' := b.Of(s), Apply(b, e, st).Of(s);
      if st.SymStep? && e.Item(st.id) == SymbolEntry(s)
      then d'.directDep == MakeOr(d.directDep, e.Of(st.id).dep) && d'.adds == d.adds + e.Of(st.id).adds
      else d'.directDep == d.directDep && d'.adds == d.adds
  {
    match st
    case SymStep(id) => ReversesKeep(AddOwn(b, e.Item(id).sym, e.Of(id)), e.Item(id).sym, e.Of(id).adds, s);
    case ChoiceStep(id, kids) =>
      var c := e.Item(id).choice;
      MembersKeep(AddToChoice(b, c, e.Of(id)), e, c, kids, s);
      TypesKeep(AddMembers(AddToChoice(b, c, e.Of(id)), e, c, kids), c, s);
  }

  lemma NodesSnoc(e: Attributes, ids: seq<Id>, id: Id, s: SymName)
    ensures NodesOf(e, ids + [id], s) ==
      if e.Item(id) == SymbolEntry(s) then NodesOf(e, ids, s) + [id] else NodesOf(e, ids, s)
  {
    assert (ids + [id])[..|ids|] == ids;
  }

  lemma NodeFolds(e: Attributes, ids: seq<Id>, id: Id)
    ensures OrDeps(e, ids + [id]) == MakeOr(OrDeps(e, ids), e.Of(id).dep)
    ensures AllAdds(e, ids + [id]) == AllAdds(e, ids) + e.Of(id).adds
  {
    assert (ids + [id])[..|ids|] == ids;
  }

  /** A symbol gets the dependencies of its nodes, joined, and everything they add, in the order of the nodes. */
  lemma {:induction false} SymBuilt(ks: Kinds, e: Attributes, steps: seq<Step>, s: SymName)
    requires AllFit(e, steps)
    ensures var d, ids := ApplyAll(Start(ks), e, steps).Of(s), NodesOf(e, SymSteps(steps), s);
      d.directDep == OrDeps(e, ids) && d.adds == AllAdds(e, ids)
    decreases |steps|
  {
    if steps != [] {
      var front, st := steps[..|steps| - 1], steps[|steps| - 1];
      SymBuilt(ks, e, front, s);
      ApplySnoc(Start(ks), e, steps);
      SymStepsSnoc(steps);
      assert st in steps;
      StepBuilds(ApplyAll(Start(ks), e, front), e, st, s);
      if st.SymStep? {
        var ids := NodesOf(e, SymSteps(front), s);
        NodesSnoc(e, SymSteps(front), st.id, s);
        NodeFolds(e, ids, st.id);
      } else {
        assert SymSteps(steps) == SymSteps(front);
      }
    }
  }

  // ----- Reverse dependencies -----

  function Reverse(d: SymBuild, weak: bool): Expr { if weak then d.weakRevDep else d.revDep }

  /** What a property of the symbol `s` contributes to the reverse dependencies of `target` */
  function Contribution(v: Valuation, s: SymName, p: Property, target: SymName, weak: bool): Tri {
    match p
    case SelectOf(x, cond) => if !weak && x == target then Min(v.leaf(Sym(s)), Worth(v, cond)) else 0
    case ImplyOf(x, cond) => if weak && x == target then Min(v.leaf(Sym(s)), Worth(v, cond)) else 0
    case _ => 0
  }

  function Contributions(v: Valuation, s: SymName, ps: seq<Property>, target: SymName, weak: bool): Tri {
    if ps == [] then 0 else Max(Contribution(v, s, ps[0], target, weak), Contributions(v, s, ps[1..], target, weak))
  }

  /** The greatest contribution of any node */
  function NodesContribute(v: Valuation, e: Attributes, ids: seq<Id>, target: SymName, weak: bool): Tri {
    if ids == [] then 0
    else Max(NodesContribute(v, e, ids[..|ids| - 1], target, weak), NodeContributes(v, e, ids[|ids| - 1], target, weak))
  }

  function NodeContributes(v: Valuation, e: Attributes, id: Id, target: SymName, weak: bool): Tri {
    if IsSymbol(e, id) then Contributions(v, e.Item(id).sym, e.Of(id).adds, target, weak) else 0
  }

  lemma StepWorth(v: Valuation, b: Builds, e: Attributes, st: Step, target: SymName, weak: bool)
    requires Proper(v) && Fits(e, st)
    ensures Worth(v, Reverse(Apply(b, e, st).Of(target), weak)) ==
      Max(Worth(v, Reverse(b.Of(target), weak)), if st.SymStep? then NodeContributes(v, e, st.id, target, weak) else 0)
  {
    match st
    case SymStep(id) =>
      ReversesWorth(v, AddOwn(b, e.Item(id).sym, e.Of(id)), e.Item(id).sym, e.Of(id).adds, target, weak);
    case ChoiceStep(id, kids) =>
      var c := e.Item(id).choice;
      MembersKeep(AddToChoice(b, c, e.Of(id)), e, c, kids, target);
      TypesKeep(AddMembers(AddToChoice(b, c, e.Of(id)), e, c, kids), c, target);
  }

  lemma ReverseWorth(v: Valuation, b: Builds, s: SymName, p: Property, target: SymName, weak: bool)
    requires Proper(v)
    ensures Worth(v, Reverse(AddReverse(b, s, p).Of(target), weak)) ==
      Max(Worth(v, Reverse(b.Of(target), weak)), Contribution(v, s, p, target, weak))
  {
    if p.SelectOf? || p.ImplyOf? {
      var d, x := b.Of(target), MakeAnd(Ref(Sym(s)), p.cond);
      AndWorth(v, Ref(Sym(s)), p.cond);
      OrWorth(v, d.revDep, x);
      OrWorth(v, d.weakRevDep, x);
    }
  }

  lemma {:induction false} ReversesWorth(
      v: Valuation, b: Builds, s: SymName, ps: seq<Property>, target: SymName, weak: bool)
    requires Proper(v)
    ensures Worth(v, Reverse(AddReverses(b, s, ps).Of(target), weak)) ==
      Max(Worth(v, Reverse(b.Of(target), weak)), Contributions(v, s, ps, target, weak))
    decreases |ps|
  {
    if ps != [] {
      ReverseWorth(v, b, s, ps[0], target, weak);
      ReversesWorth(v, AddReverse(b, s, ps[0]), s, ps[1..], target, weak);
    }
  }

  /** A symbol is selected (implied) with the greatest of all selects (implies) that name it, each of them limited by the
      selecting symbol and its condition. */
  lemma {:induction false} ReverseBuilt(
      v: Valuation, ks: Kinds, e: Attributes, steps: seq<Step>, target: SymName, weak: bool)
    requires Proper(v) && AllFit(e, steps)
    ensures Worth(v, Reverse(ApplyAll(Start(ks), e, steps).Of(target), weak)) ==
      NodesContribute(v, e, SymSteps(steps), target, weak)
    decreases |steps|
  {
    if steps == [] {
      ConstantsWorth(v);
    } else {
      var front, st := steps[..|steps| - 1], steps[|steps| - 1];
      ReverseBuilt(v, ks, e, front, target, weak);
      ApplySnoc(Start(ks), e, steps);
      SymStepsSnoc(steps);
      assert st in steps;
      StepWorth(v, ApplyAll(Start(ks), e, front), e, st, target, weak);
      if st.SymStep? {
        assert (SymSteps(front) + [st.id])[..|SymSteps(front)|] == SymSteps(front);
      } else {
        assert SymSteps(steps) == SymSteps(front);
      }
    }
  }

  // ----- Choices -----

  /** The symbols directly below a choice */
  function KidSyms(e: Attributes, kids: Forest): seq<SymName> {
    if kids.Nil? then [] else (if IsSymbol(e, kids.id) then [e.Item(kids.id).sym] else []) + KidSyms(e, kids.next)
  }

  /** The symbols below all nodes of a choice, in order */
  function ChoiceMembers(e: Attributes, steps: seq<Step>, c: ChoiceId): seq<SymName> {
    if steps == [] then [] else
    var st := steps[|steps| - 1];
    ChoiceMembers(e, steps[..|steps| - 1], c)
    + (if st.ChoiceStep? && e.Item(st.id) == ChoiceEntry(c) then KidSyms(e, st.kids) else [])
  }

  lemma {:induction false} MembersAdded(b: Builds, e: Attributes, x: ChoiceId, kids: Forest, c: ChoiceId)
    ensures AddMembers(b, e, x, kids).Choice(c).syms == b.Choice(c).syms + if c == x then KidSyms(e, kids) else []
    decreases kids
  {
    if kids.Menu? {
      var b1 := if IsSymbol(e, kids.id) then AddMember(b, x, e.Item(kids.id).sym) else b;
      MembersAdded(b1, e, x, kids.next, c);
    }
  }

  lemma StepMembers(b: Builds, e: Attributes, st: Step, c: ChoiceId)
    requires Fits(e, st)
    ensures Apply(b, e, st).Choice(c).syms ==
      b.Choice(c).syms + if st.ChoiceStep? && e.Item(st.id) == ChoiceEntry(c) then KidSyms(e, st.kids) else []
  {
    match st
    case SymStep(id) => ReversesKeep(AddOwn(b, e.Item(id).sym, e.Of(id)), e.Item(id).sym, e.Of(id).adds, e.Item(id).sym);
    case ChoiceStep(id, kids) =>
      var x := e.Item(id).choice;
      MembersAdded(AddToChoice(b, x, e.Of(id)), e, x, kids, c);
      TypesKeep(AddMembers(AddToChoice(b, x, e.Of(id)), e, x, kids), x, "");
  }

  /** A choice gets exactly the symbols directly below its finalised nodes, in order. */
  lemma {:induction false} ChoiceBuilt(ks: Kinds, e: Attributes, steps: seq<Step>, c: ChoiceId)
    requires AllFit(e, steps)
    ensures ApplyAll(Start(ks), e, steps).Choice(c).syms == ChoiceMembers(e, steps, c)
    decreases |steps|
  {
    if steps != [] {
      var front, st := steps[..|steps| - 1], steps[|steps| - 1];
      ChoiceBuilt(ks, e, front, c);
      ApplySnoc(Start(ks), e, steps);
      assert st in steps;
      StepMembers(ApplyAll(Start(ks), e, front), e, st, c);
    }
  }

  /** A symbol that a choice lists is a choice symbol, and the choice of a symbol lists it. */
  ghost predicate RefersBack(b: Builds) {
    && (forall s :: b.Of(s).choice.Some? ==> s in b.Choice(b.Of(s).choice.value).syms)
    && (forall c: ChoiceId, s :: s in b.Choice(c).syms ==> b.Of(s).choice.Some?)
  }

  lemma SameReferences(b: Builds, b': Builds)
    requires RefersBack(b)
    requires forall s :: b'.Of(s).choice == b.Of(s).choice
    requires forall c: ChoiceId :: b'.Choice(c).syms == b.Choice(c).syms
    ensures RefersBack(b')
  {
    forall s | b'.Of(s).choice.Some? ensures s in b'.Choice(b'.Of(s).choice.value).syms {
      assert b.Of(s).choice.Some?;
    }
    forall c: ChoiceId, s | s in b'.Choice(c).syms ensures b'.Of(s).choice.Some? { assert s in b.Choice(c).syms; }
  }

  lemma MemberRefersBack(b: Builds, c: ChoiceId, x: SymName)
    requires RefersBack(b)
    ensures RefersBack(AddMember(b, c, x))
  {
    var b' := AddMember(b, c, x);
    forall s | b'.Of(s).choice.Some? ensures s in b'.Choice(b'.Of(s).choice.value).syms {
      if s != x { assert b.Of(s).choice.Some?; }
    }
    forall d: ChoiceId, s | s in b'.Choice(d).syms ensures b'.Of(s).choice.Some? {
      assert b'.Choice(d).syms == b.Choice(d).syms + if d == c then [x] else [];
      if s == x {
        assert b'.Of(x).choice == Some(c);
      } else {
        assert s in b.Choice(d).syms && b'.Of(s) == b.Of(s);
      }
    }
  }

  lemma {:induction false} MembersReferBack(b: Builds, e: Attributes, c: ChoiceId, kids: Forest)
    requires RefersBack(b)
    ensures RefersBack(AddMembers(b, e, c, kids))
    decreases kids
  {
    if kids.Menu? {
      if IsSymbol(e, kids.id) {
        MemberRefersBack(b, c, e.Item(kids.id).sym);
        MembersReferBack(AddMember(b, c, e.Item(kids.id).sym), e, c, kids.next);
      } else {
        MembersReferBack(b, e, c, kids.next);
      }
    }
  }

  lemma TypesReferBack(b: Builds, c: ChoiceId)
    requires RefersBack(b)
    ensures RefersBack(GiveTypes(b, c))
  {
    TypesKeep(b, c, "");
    forall s ensures GiveTypes(b, c).Of(s).choice == b.Of(s).choice { TypesKeep(b, c, s); }
    SameReferences(b, GiveTypes(b, c));
  }

  lemma StepRefersBack(b: Builds, e: Attributes, st: Step)
    requires Fits(e, st) && RefersBack(b)
    ensures RefersBack(Apply(b, e, st))
  {
    match st
    case SymStep(id) =>
      var s, p := e.Item(id).sym, e.Of(id);
      ReversesKeep(AddOwn(b, s, p), s, p.adds, s);
      forall x ensures AddNode(b, e, id).Of(x).choice == b.Of(x).choice { ReversesKeep(AddOwn(b, s, p), s, p.adds, x); }
      SameReferences(b, AddNode(b, e, id));
    case ChoiceStep(id, kids) =>
      var c := e.Item(id).choice;
      var b1 := AddToChoice(b, c, e.Of(id));
      SameReferences(b, b1);
      MembersReferBack(b1, e, c, kids);
      TypesReferBack(AddMembers(b1, e, c, kids), c);
  }

  lemma {:induction false} AllReferBack(ks: Kinds, e: Attributes, steps: seq<Step>)
    requires AllFit(e, steps)
    ensures RefersBack(ApplyAll(Start(ks), e, steps))
    decreases |steps|
  {
    if steps != [] {
      AllReferBack(ks, e, steps[..|steps| - 1]);
      ApplySnoc(Start(ks), e, steps);
      assert steps[|steps| - 1] in steps;
      StepRefersBack(ApplyAll(Start(ks), e, steps[..|steps| - 1]), e, steps[|steps| - 1]);
    }
  }

  // ----- Types -----

  /** Given types stay; the symbols of a choice with a type have one, and a choice with a symbol that was given one has
      one. */
  ghost predicate WellKinded(b: Builds, ks: Kinds) {
    && (forall s :: ks.Of(s) != Unknown ==> b.Of(s).kind == ks.Of(s))
    && (forall c: ChoiceId, s :: s in b.Choice(c).syms && b.Choice(c).kind != Unknown ==> b.Of(s).kind != Unknown)
    && (forall c: ChoiceId, s :: s in b.Choice(c).syms && ks.Of(s) != Unknown ==> b.Choice(c).kind != Unknown)
  }

  lemma {:induction false} AllGiven(b: Builds, syms: seq<SymName>, k: Kind)
    requires k != Unknown
    ensures forall s :: s in syms ==> WithKinds(b, syms, k).Of(s).kind != Unknown
    decreases |syms|
  {
    if syms != [] {
      var b1 := WithKind(b, syms[0], k);
      AllGiven(b1, syms[1..], k);
      KindsKeep(b1, syms[1..], k, syms[0]);
    }
  }

  lemma {:induction false} FirstFound(b: Builds, syms: seq<SymName>, s: SymName)
    requires s in syms && b.Of(s).kind != Unknown
    ensures FirstKind(b, syms) != Unknown
  {
    if b.Of(syms[0]).kind == Unknown { FirstFound(b, syms[1..], s); }
  }

  /** The types of a choice whose symbols are known, whatever it and its symbols had before */
  lemma TypesGiven(b: Builds, ks: Kinds, c: ChoiceId)
    requires forall s :: ks.Of(s) != Unknown ==> b.Of(s).kind == ks.Of(s)
    requires forall x: ChoiceId, s :: x != c && s in b.Choice(x).syms && b.Choice(x).kind != Unknown ==>
      b.Of(s).kind != Unknown
    requires forall x: ChoiceId, s :: x != c && s in b.Choice(x).syms && ks.Of(s) != Unknown ==> b.Choice(x).kind != Unknown
    ensures WellKinded(GiveTypes(b, c), ks)
  {
    var k, b' := ChoiceKind(b, c), GiveTypes(b, c);
    TypesKeep(b, c, "");
    forall s ensures b.Of(s).kind != Unknown ==> b'.Of(s).kind == b.Of(s).kind { TypesKeep(b, c, s); }
    forall x: ChoiceId, s | s in b'.Choice(x).syms && b'.Choice(x).kind != Unknown ensures b'.Of(s).kind != Unknown {
      if x == c { AllGiven(b.(choices := b.choices[c := b.Choice(c).(kind := k)]), b.Choice(c).syms, k); }
      else { assert s in b.Choice(x).syms; }
    }
    forall x: ChoiceId, s | s in b'.Choice(x).syms && ks.Of(s) != Unknown ensures b'.Choice(x).kind != Unknown {
      if x == c {
        if b.Choice(c).kind == Unknown { FirstFound(b, b.Choice(c).syms, s); }
      } else {
        assert s in b.Choice(x).syms;
      }
    }
  }

  lemma SameKinds(b: Builds, b': Builds, ks: Kinds)
    requires WellKinded(b, ks)
    requires forall s :: b'.Of(s).kind == b.Of(s).kind
    requires forall c: ChoiceId :: b'.Choice(c).syms == b.Choice(c).syms && b'.Choice(c).kind == b.Choice(c).kind
    ensures WellKinded(b', ks)
  {
    forall c: ChoiceId, s | s in b'.Choice(c).syms
      ensures b'.Choice(c).kind != Unknown ==> b'.Of(s).kind != Unknown
      ensures ks.Of(s) != Unknown ==> b'.Choice(c).kind != Unknown
    {
      assert s in b.Choice(c).syms;
    }
  }

  lemma StepKinds(b: Builds, e: Attributes, st: Step, ks: Kinds)
    requires Fits(e, st) && WellKinded(b, ks)
    ensures WellKinded(Apply(b, e, st), ks)
  {
    match st
    case SymStep(id) =>
      var s, p := e.Item(id).sym, e.Of(id);
      ReversesKeep(AddOwn(b, s, p), s, p.adds, s);
      forall x ensures AddNode(b, e, id).Of(x).kind == b.Of(x).kind { ReversesKeep(AddOwn(b, s, p), s, p.adds, x); }
      SameKinds(b, AddNode(b, e, id), ks);
    case ChoiceStep(id, kids) =>
      var c := e.Item(id).choice;
      var b1 := AddToChoice(b, c, e.Of(id));
      var b2 := AddMembers(b1, e, c, kids);
      forall x ensures b2.Of(x).kind == b.Of(x).kind { MembersKeep(b1, e, c, kids, x); }
      MembersKeep(b1, e, c, kids, "");
      forall x: ChoiceId ensures x != c ==> b2.Choice(x).syms == b.Choice(x).syms && b2.Choice(x).kind == b.Choice(x).kind {
        MembersAdded(b1, e, c, kids, x);
        assert b.Choice(x).syms + [] == b.Choice(x).syms;
      }
      TypesGiven(b2, ks, c);
  }

  /** Whatever is finalised, types are taken over between choices and their symbols. */
  lemma {:induction false} TypesBuilt(ks: Kinds, e: Attributes, steps: seq<Step>)
    requires AllFit(e, steps)
    ensures WellKinded(ApplyAll(Start(ks), e, steps), ks)
    decreases |steps|
  {
    if steps != [] {
      TypesBuilt(ks, e, steps[..|steps| - 1]);
      ApplySnoc(Start(ks), e, steps);
      assert steps[|steps| - 1] in steps;
      StepKinds(ApplyAll(Start(ks), e, steps[..|steps| - 1]), e, steps[|steps| - 1], ks);
    }
  }

  // ----- Prompts within choices -----

  /** An expression that is n, or mentions the choice */
  predicate Bound(c: ChoiceId, x: Expr) { x == N || ChoiceItem(c) in ExprItems(x) }

  predicate NodeBound(z: Attributes, c: ChoiceId, id: Id) {
    Bound(c, z.Of(id).dep) && (z.Of(id).prompt.Some? ==> Bound(c, z.Of(id).prompt.value))
  }

  /** All nodes that are not below a further choice */
  predicate AllBound(z: Attributes, c: ChoiceId, f: Forest) {
    f.Menu? ==>
      NodeBound(z, c, f.id) && (!z.Item(f.id).ChoiceEntry? ==> AllBound(z, c, f.list)) && AllBound(z, c, f.next)
  }

  lemma AndBound(c: ChoiceId, a: Expr, b: Expr)
    requires Bound(c, b)
    ensures Bound(c, MakeAnd(a, b))
  {
    assert "y"[0] != "n"[0];
    if a != Y && b != Y && a != N && b != N { assert MakeAnd(a, b) == And(a, b); }
  }

  /** What is passed down from a choice is bound to it, as far as the next choice. */
  lemma {:induction false} SettledBound(
      a: Attributes, z: Attributes, f: Forest, base: Expr, visibleIf: Expr, c: ChoiceId)
    requires Settled(a, z, f, base, visibleIf) && Bound(c, base) && a.item == z.item
    ensures AllBound(z, c, f)
    decreases f
  {
    if f.Menu? {
      var p, dep := a.Of(f.id), z.Of(f.id).dep;
      AndBound(c, p.dep, base);
      AndBound(c, visibleIf, dep);
      if p.prompt.Some? {
        AndBound(c, p.prompt.value, MakeAnd(visibleIf, dep));
        AndBound(c, p.prompt.value, dep);
      }
      if !z.Item(f.id).ChoiceEntry? {
        SettledBound(a, z, f.list, BaseOf(a.Item(f.id), z.Of(f.id)), VisibleBelow(a, f.id, visibleIf), c);
      }
      SettledBound(a, z, f.next, base, visibleIf, c);
    }
  }

  lemma {:induction false} AppendBound(z: Attributes, c: ChoiceId, f: Forest, g: Forest)
    requires AllBound(z, c, f) && AllBound(z, c, g)
    ensures AllBound(z, c, Append(f, g))
  {
    if f.Menu? { AppendBound(z, c, f.next, g); }
  }

  lemma {:induction false} LevelBound(z: Attributes, c: ChoiceId, f: Forest)
    requires AllBound(z, c, f)
    ensures AllBound(z, c, Level(z, f))
  {
    FlatBound(z, c, f);
    KeptBound(z, c, Flat(z, f));
  }

  lemma {:induction false} FlatBound(z: Attributes, c: ChoiceId, f: Forest)
    requires AllBound(z, c, f)
    ensures AllBound(z, c, Flat(z, f))
    decreases Size(f)
  {
    if f.Menu? {
      if f.list.Menu? && Lifts(z, f.id) {
        AppendSize(f.list, f.next);
        AppendBound(z, c, f.list, f.next);
        FlatBound(z, c, Append(f.list, f.next));
      } else {
        FlatBound(z, c, f.next);
      }
    }
  }

  lemma {:induction false} KeptBound(z: Attributes, c: ChoiceId, f: Forest)
    requires AllBound(z, c, f)
    ensures AllBound(z, c, Kept(z, f))
  {
    if f.Menu? { KeptBound(z, c, f.next); }
  }

  lemma {:induction false} RestBound(z: Attributes, c: ChoiceId, f: Forest)
    requires f.Menu? && AllBound(z, c, f)
    ensures AllBound(z, c, Rest(z, f))
    decreases Size(f), 1
  {
    if IsSymbol(z, f.id) { LeftBound(z, c, f.id, f.next); }
  }

  lemma {:induction false} LeftBound(z: Attributes, c: ChoiceId, id: Id, f: Forest)
    requires AllBound(z, c, f)
    ensures AllBound(z, c, Left(z, id, f))
    decreases Size(f), 2
  {
    if f.Menu? && Submenu(z, id, f.id) {
      RestBound(z, c, f);
      LeftBound(z, c, id, Rest(z, f));
    }
  }

  lemma {:induction false} KidsBound(z: Attributes, c: ChoiceId, f: Forest)
    requires f.Menu? && AllBound(z, c, f) && !z.Item(f.id).ChoiceEntry?
    ensures AllBound(z, c, Kids(z, f))
    decreases Size(f), 1
  {
    if IsSymbol(z, f.id) {
      SubmenusBound(z, c, f.id, f.next);
      LevelBound(z, c, Submenus(z, f.id, f.next));
    } else {
      EachBound(z, c, f.list);
      LevelBound(z, c, Each(z, f.list));
    }
  }

  lemma {:induction false} SubmenusBound(z: Attributes, c: ChoiceId, id: Id, f: Forest)
    requires AllBound(z, c, f)
    ensures AllBound(z, c, Submenus(z, id, f))
    decreases Size(f), 2
  {
    if f.Menu? && Submenu(z, id, f.id) {
      if !z.Item(f.id).ChoiceEntry? { KidsBound(z, c, f); }
      RestBound(z, c, f);
      SubmenusBound(z, c, id, Rest(z, f));
    }
  }

  lemma {:induction false} EachBound(z: Attributes, c: ChoiceId, f: Forest)
    requires AllBound(z, c, f)
    ensures AllBound(z, c, Each(z, f))
    decreases Size(f), 2
  {
    if f.Menu? {
      if !z.Item(f.id).ChoiceEntry? { KidsBound(z, c, f); }
      RestBound(z, c, f);
      EachBound(z, c, Rest(z, f));
    }
  }

  /** The finalised children of a choice, whatever was flattened or moved into submenus, have prompts that are n or mention
      the choice. */
  lemma ChoiceKidsBound(a: Attributes, z: Attributes, f: Forest, visibleIf: Expr)
    requires f.Menu? && z.Item(f.id).ChoiceEntry? && a.item == z.item
    requires Settled(a, z, f.list, BaseOf(a.Item(f.id), z.Of(f.id)), visibleIf)
    ensures AllBound(z, z.Item(f.id).choice, Kids(z, f))
  {
    var c := z.Item(f.id).choice;
    SettledBound(a, z, f.list, Mode(c), visibleIf, c);
    EachBound(z, c, f.list);
    LevelBound(z, c, Each(z, f.list));
  }

  // ----- The configuration tree -----

  /** The conditions of the prompts of some nodes */
  function PromptList(z: Attributes, ids: seq<Id>): seq<Expr> {
    if ids == [] then []
    else (if z.Of(ids[0]).prompt.Some? then [z.Of(ids[0]).prompt.value] else []) + PromptList(z, ids[1..])
  }

  function DefaultList(adds: seq<Property>): seq<Default> {
    if adds == [] then []
    else (if adds[0].DefaultOf? then [Default(adds[0].value, adds[0].cond)] else []) + DefaultList(adds[1..])
  }

  function RangeList(adds: seq<Property>): seq<Range> {
    if adds == [] then []
    else (if adds[0].RangeOf? then [Range(adds[0].low, adds[0].high, adds[0].cond)] else []) + RangeList(adds[1..])
  }

  /** The tree has the properties that were copied, and the prompts of the symbols' nodes `ids`. */
  predicate Assembled(t: Tree, z: Attributes, b: Builds, ids: seq<Id>) {
    && (forall s :: s in t.syms ==>
          && t.syms[s].prompts == PromptList(z, NodesOf(z, ids, s))
          && t.syms[s].defaults == DefaultList(b.Of(s).adds)
          && t.syms[s].ranges == RangeList(b.Of(s).adds)
          && t.syms[s].directDep == b.Of(s).directDep
          && t.syms[s].revDep == b.Of(s).revDep
          && t.syms[s].weakRevDep == b.Of(s).weakRevDep
          && t.syms[s].choice == b.Of(s).choice)
    && forall c :: c in t.choices ==> t.choices[c].syms == b.Choice(c).syms
  }

  /** The place `p` is what the node `id` was given. */
  predicate IsPlace(z: Attributes, id: Id, p: Place) {
    && z.Of(id).dep == p.dep
    && z.Of(id).prompt == (if p.cond.None? then None else Some(MakeAnd(p.cond.value, MakeAnd(p.visibleIf, p.dep))))
  }

  lemma {:induction false} PlaceExists(a: Attributes, z: Attributes, f: Forest, base: Expr, visibleIf: Expr, id: Id)
    returns (p: Place)
    requires Settled(a, z, f, base, visibleIf) && a.item == z.item && id in Ids(f) && IsSymbol(z, id)
    ensures IsPlace(z, id, p)
    decreases f
  {
    if id == f.id {
      p := Place(z.Of(id).dep, visibleIf, a.Of(id).prompt);
    } else if id in Ids(f.list) {
      p := PlaceExists(a, z, f.list, BaseOf(a.Item(f.id), z.Of(f.id)), VisibleBelow(a, f.id, visibleIf), id);
    } else {
      p := PlaceExists(a, z, f.next, base, visibleIf, id);
    }
  }

  predicate ArePlaces(z: Attributes, ids: seq<Id>, ps: seq<Place>) {
    |ps| == |ids| && forall k :: 0 <= k < |ids| ==> IsPlace(z, ids[k], ps[k])
  }

  lemma {:induction false} PlacesExist(a: Attributes, z: Attributes, f: Forest, ids: seq<Id>) returns (ps: seq<Place>)
    requires Settled(a, z, f, Y, Y) && a.item == z.item && forall id :: id in ids ==> id in Ids(f) && IsSymbol(z, id)
    ensures ArePlaces(z, ids, ps)
    decreases |ids|
  {
    ps := [];
    if ids != [] {
      var p := PlaceExists(a, z, f, Y, Y, ids[0]);
      ps := PlacesExist(a, z, f, ids[1..]);
      ps := [p] + ps;
    }
  }

  lemma {:induction false} PlacePrompts(z: Attributes, ids: seq<Id>, ps: seq<Place>)
    requires ArePlaces(z, ids, ps)
    ensures PromptList(z, ids) == PromptsOf(ps)
  {
    if ids != [] {
      assert ArePlaces(z, ids[1..], ps[1..]);
      assert IsPlace(z, ids[0], ps[0]);
      PlacePrompts(z, ids[1..], ps[1..]);
    }
  }

  lemma {:induction false} PlaceDeps(z: Attributes, ids: seq<Id>, ps: seq<Place>)
    requires ArePlaces(z, ids, ps)
    ensures OrDeps(z, ids) == DirectDepOf(ps)
  {
    if ids != [] {
      var n := |ids| - 1;
      assert ArePlaces(z, ids[..n], ps[..n]);
      assert IsPlace(z, ids[n], ps[n]);
      PlaceDeps(z, ids[..n], ps[..n]);
    }
  }

  lemma {:induction false} NodesAre(z: Attributes, ids: seq<Id>, s: SymName)
    ensures forall id :: id in NodesOf(z, ids, s) ==> id in ids && z.Item(id) == SymbolEntry(s)
  {
    if ids != [] { NodesAre(z, ids[..|ids| - 1], s); }
  }

  lemma {:induction false} SymNodesAre(e: Attributes, ids: seq<Id>)
    ensures forall id :: id in SymNodes(e, ids) ==> id in ids && IsSymbol(e, id)
  {
    if ids != [] { SymNodesAre(e, ids[1..]); }
  }

  lemma {:induction false} ItemsAre(e: Attributes, f: Forest)
    ensures forall id :: id in Items(e, f) ==> id in Ids(f)
  {
    if f.Menu? {
      ItemsAre(e, f.list);
      ItemsAre(e, f.next);
    }
  }

  /** The tree that finalising assembles is guarded: a symbol whose direct dependencies are n has no visible prompt. */
  lemma FinalisedGuards(a: Attributes, z: Attributes, f: Forest, ks: Kinds, t: Tree)
    requires Settled(a, z, f, Y, Y) && a.item == z.item && SymbolsLeaf(z, f)
    requires Assembled(t, z, ApplyAll(Start(ks), z, CopiedEach(z, f)), Syms(z, f))
    requires forall s :: s in t.syms && !t.syms[s].kind.Logical() ==> t.syms[s].revDep == N
    ensures Guarded(t)
  {
    EachOrder(z, f);
    forall s, u: Users, m: Answers | s in t.syms && ExprVal(t, u, m, t.syms[s].directDep) == Some(0)
      ensures MaxPrompt(t, u, m, t.syms[s].prompts) in {None, Some(0)}
    {
      var ids := NodesOf(z, Syms(z, f), s);
      SymBuilt(ks, z, CopiedEach(z, f), s);
      NodesInForest(z, f, s);
      var ps := PlacesExist(a, z, f, ids);
      PlacePrompts(z, ids, ps);
      PlaceDeps(z, ids, ps);
      DirectDepGuards(t, u, m, ps);
    }
  }

  lemma NodesInForest(z: Attributes, f: Forest, s: SymName)
    ensures forall id :: id in NodesOf(z, Syms(z, f), s) ==> id in Ids(f) && IsSymbol(z, id)
  {
    NodesAre(z, Syms(z, f), s);
    SymNodesAre(z, Items(z, f));
    ItemsAre(z, f);
  }

  // ----- Prompts of choice symbols -----

  /** Below every choice the expressions are settled with the choice as the base. */
  ghost predicate ChoicesSettled(a: Attributes, z: Attributes, f: Forest) {
    f.Menu? ==>
      && (a.Item(f.id).ChoiceEntry? ==> exists vis :: Settled(a, z, f.list, Mode(a.Item(f.id).choice), vis))
      && ChoicesSettled(a, z, f.list)
      && ChoicesSettled(a, z, f.next)
  }

  lemma {:induction false} SettledChoices(a: Attributes, z: Attributes, f: Forest, base: Expr, visibleIf: Expr)
    requires Settled(a, z, f, base, visibleIf)
    ensures ChoicesSettled(a, z, f)
    decreases f
  {
    if f.Menu? {
      SettledChoices(a, z, f.list, BaseOf(a.Item(f.id), z.Of(f.id)), VisibleBelow(a, f.id, visibleIf));
      SettledChoices(a, z, f.next, base, visibleIf);
    }
  }

  lemma {:induction false} RestChoices(a: Attributes, z: Attributes, f: Forest)
    requires f.Menu? && ChoicesSettled(a, z, f)
    ensures ChoicesSettled(a, z, Rest(z, f))
    decreases Size(f), 1
  {
    if IsSymbol(z, f.id) { LeftChoices(a, z, f.id, f.next); }
  }

  lemma {:induction false} LeftChoices(a: Attributes, z: Attributes, id: Id, f: Forest)
    requires ChoicesSettled(a, z, f)
    ensures ChoicesSettled(a, z, Left(z, id, f))
    decreases Size(f), 2
  {
    if f.Menu? && Submenu(z, id, f.id) {
      RestChoices(a, z, f);
      LeftChoices(a, z, id, Rest(z, f));
    }
  }

  ghost predicate StepBound(z: Attributes, st: Step) {
    st.ChoiceStep? && z.Item(st.id).ChoiceEntry? ==> AllBound(z, z.Item(st.id).choice, st.kids)
  }

  ghost predicate StepsBound(z: Attributes, steps: seq<Step>) { forall st :: st in steps ==> StepBound(z, st) }

  lemma {:induction false} CopiedBound(a: Attributes, z: Attributes, f: Forest)
    requires f.Menu? && ChoicesSettled(a, z, f) && a.item == z.item
    ensures StepsBound(z, Copied(z, f))
    decreases Size(f), 1
  {
    if IsSymbol(z, f.id) {
      SubsBound(a, z, f.id, f.next);
    } else {
      EachStepsBound(a, z, f.list);
      if z.Item(f.id).ChoiceEntry? {
        var vis :| Settled(a, z, f.list, Mode(a.Item(f.id).choice), vis);
        ChoiceKidsBound(a, z, f, vis);
      }
    }
  }

  lemma {:induction false} SubsBound(a: Attributes, z: Attributes, id: Id, f: Forest)
    requires ChoicesSettled(a, z, f) && a.item == z.item
    ensures StepsBound(z, CopiedSubs(z, id, f))
    decreases Size(f), 2
  {
    if f.Menu? && Submenu(z, id, f.id) {
      CopiedBound(a, z, f);
      RestChoices(a, z, f);
      SubsBound(a, z, id, Rest(z, f));
    }
  }

  lemma {:induction false} EachStepsBound(a: Attributes, z: Attributes, f: Forest)
    requires ChoicesSettled(a, z, f) && a.item == z.item
    ensures StepsBound(z, CopiedEach(z, f))
    decreases Size(f), 2
  {
    if f.Menu? {
      CopiedBound(a, z, f);
      RestChoices(a, z, f);
      EachStepsBound(a, z, Rest(z, f));
    }
  }

  predicate TopOf(kids: Forest, id: Id) { kids.Menu? && (kids.id == id || TopOf(kids.next, id)) }

  lemma {:induction false} TopBound(z: Attributes, c: ChoiceId, kids: Forest, id: Id)
    requires AllBound(z, c, kids) && TopOf(kids, id)
    ensures NodeBound(z, c, id)
  {
    if kids.id != id { TopBound(z, c, kids.next, id); }
  }

  /** What the sanity check of choices looks for: no prompt of a choice symbol is outside of the choice. */
  ghost predicate PromptsInside(z: Attributes, steps: seq<Step>, ids: seq<Id>, c: ChoiceId) {
    forall id :: id in ids && z.Of(id).prompt.Some? ==>
      exists st :: st in steps && st.ChoiceStep? && z.Item(st.id) == ChoiceEntry(c) && TopOf(st.kids, id)
  }

  lemma {:induction false} PromptListBound(z: Attributes, steps: seq<Step>, ids: seq<Id>, c: ChoiceId)
    requires StepsBound(z, steps) && PromptsInside(z, steps, ids, c)
    ensures forall p :: p in PromptList(z, ids) ==> Bound(c, p)
  {
    if ids != [] {
      PromptListBound(z, steps, ids[1..], c);
      if z.Of(ids[0]).prompt.Some? {
        var st :| st in steps && st.ChoiceStep? && z.Item(st.id) == ChoiceEntry(c) && TopOf(st.kids, ids[0]);
        assert StepBound(z, st);
        TopBound(z, c, st.kids, ids[0]);
      }
    }
  }

  /** Each prompt of a choice symbol that has no prompt outside of its choice is n or mentions the choice. */
  lemma ChoicePrompts(a: Attributes, z: Attributes, f: Forest, ks: Kinds, t: Tree, s: SymName, c: ChoiceId)
    requires Settled(a, z, f, Y, Y) && a.item == z.item && s in t.syms
    requires Assembled(t, z, ApplyAll(Start(ks), z, CopiedEach(z, f)), Syms(z, f))
    requires PromptsInside(z, CopiedEach(z, f), NodesOf(z, Syms(z, f), s), c)
    ensures forall p :: p in t.syms[s].prompts ==> p == N || ChoiceItem(c) in ExprItems(p)
  {
    SettledChoices(a, z, f, Y, Y);
    EachStepsBound(a, z, f);
    PromptListBound(z, CopiedEach(z, f), NodesOf(z, Syms(z, f), s), c);
  }
}
