/** The menu tree in memory: nodes that are linked by `parent`, `list` and `next`, the methods that rewrite the links in
    place, and the iterative walk. */
module MenuTree {
  import opened Wrappers
  import opened KconfigTree
  import opened MenuForest
  import opened MenuDeps
  import opened MenuProps

  datatype Link = Link(parent: Option<Id>, list: Option<Id>, next: Option<Id>)

  type Links = map<Id, Link>

  function At(k: Links, id: Id): Link { if id in k then k[id] else Link(None, None, None) }

  function First(f: Forest, after: Option<Id>): Option<Id> { if f.Nil? then after else Some(f.id) }

  function Last(f: Forest): Id
    requires f.Menu?
  {
    if f.next.Nil? then f.id else Last(f.next)
  }

  /** The links hold the siblings `f` below `p`; `after` is what follows the last of them. */
  predicate Linked(k: Links, f: Forest, p: Option<Id>, after: Option<Id>) {
    f.Menu? ==>
      && At(k, f.id) == Link(p, First(f.list, None), First(f.next, after))
      && Linked(k, f.list, Some(f.id), None) && Linked(k, f.next, p, after)
  }

  ghost predicate SameOn(k: Links, k': Links, ids: multiset<Id>) { forall id :: id in ids ==> At(k', id) == At(k, id) }

  ghost predicate SameOutside(k: Links, k': Links, ids: multiset<Id>) {
    forall id :: id !in ids ==> At(k', id) == At(k, id)
  }

  lemma {:induction false} LinkedFrame(k: Links, k': Links, f: Forest, p: Option<Id>, after: Option<Id>)
    requires Linked(k, f, p, after) && SameOn(k, k', Ids(f))
    ensures Linked(k', f, p, after)
  {
    if f.Menu? {
      assert f.id in Ids(f);
      assert SameOn(k, k', Ids(f.list)) && SameOn(k, k', Ids(f.next));
      LinkedFrame(k, k', f.list, Some(f.id), None);
      LinkedFrame(k, k', f.next, p, after);
    }
  }

  /** A change at a node elsewhere */
  lemma LinkedApart(k: Links, x: Id, v: Link, f: Forest, p: Option<Id>, after: Option<Id>)
    requires Linked(k, f, p, after) && x !in Ids(f)
    ensures Linked(k[x := v], f, p, after)
  {
    LinkedFrame(k, k[x := v], f, p, after);
  }

  lemma {:induction false} LinkedAppend(k: Links, f: Forest, g: Forest, p: Option<Id>, after: Option<Id>)
    ensures Linked(k, Append(f, g), p, after) <==> Linked(k, f, p, First(g, after)) && Linked(k, g, p, after)
  {
    if f.Menu? { LinkedAppend(k, f.next, g, p, after); }
  }

  /** The last sibling gets another successor. */
  lemma {:induction false} LinkedOnward(k: Links, f: Forest, p: Option<Id>, after: Option<Id>, after': Option<Id>)
    requires f.Menu? && Distinct(f) && Linked(k, f, p, after)
    ensures Linked(k[Last(f) := At(k, Last(f)).(next := after')], f, p, after')
  {
    var v := At(k, Last(f)).(next := after');
    DistinctParts(f);
    if f.next.Nil? {
      LinkedApart(k, f.id, v, f.list, Some(f.id), None);
    } else {
      LastIn(f.next);
      LinkedApart(k, Last(f), v, f.list, Some(f.id), None);
      LinkedOnward(k, f.next, p, after, after');
    }
  }

  lemma {:induction false} LastIn(f: Forest)
    requires f.Menu?
    ensures Last(f) in Ids(f)
  {
    if f.next.Menu? { LastIn(f.next); }
  }

  lemma {:induction false} AppendAssoc(f: Forest, g: Forest, h: Forest)
    ensures Append(Append(f, g), h) == Append(f, Append(g, h))
  {
    if f.Menu? { AppendAssoc(f.next, g, h); }
  }

  /** A node that goes from the front of one list to the end of another */
  lemma AppendMoves(f: Forest, id: Id, list: Forest, g: Forest)
    ensures Append(Append(f, Menu(id, list, Nil)), g) == Append(f, Menu(id, list, g))
  {
    AppendAssoc(f, Menu(id, list, Nil), g);
  }

  lemma DistinctAppend(f: Forest, g: Forest)
    requires Distinct(Append(f, g))
    ensures Distinct(f) && Distinct(g) && forall id :: id in Ids(f) ==> id !in Ids(g)
  {
    AppendIds(f, g);
    forall id ensures Ids(f)[id] + Ids(g)[id] <= 1 { assert Ids(Append(f, g))[id] <= 1; }
  }

  /** Around the node `todo.id` of a level, nothing else is that node. */
  lemma Apart(done: Forest, todo: Forest)
    requires todo.Menu? && Distinct(Append(done, todo))
    ensures todo.id !in Ids(done) && todo.id !in Ids(todo.list) && todo.id !in Ids(todo.next)
    ensures todo.id in Ids(Append(done, todo))
  {
    DistinctAppend(done, todo);
    DistinctParts(todo);
    AppendIds(done, todo);
    assert todo.id in Ids(todo);
  }

  /** A node is changed and joins the nodes before it. */
  lemma LinkedDone(k: Links, done: Forest, id: Id, list: Forest, p: Option<Id>, r: Option<Id>)
    requires Linked(k, done, p, Some(id)) && Linked(k, list, Some(id), None) && id !in Ids(done) && id !in Ids(list)
    ensures Linked(k[id := Link(p, First(list, None), r)], Append(done, Menu(id, list, Nil)), p, r)
  {
    var v := Link(p, First(list, None), r);
    LinkedApart(k, id, v, done, p, Some(id));
    LinkedApart(k, id, v, list, Some(id), None);
    LinkedAppend(k[id := v], done, Menu(id, list, Nil), p, r);
  }

  /** An unchanged node joins the nodes before it. */
  lemma LinkedPassed(k: Links, done: Forest, todo: Forest, p: Option<Id>)
    requires todo.Menu? && Linked(k, done, p, Some(todo.id)) && Linked(k, todo, p, None)
    ensures Linked(k, Append(done, Menu(todo.id, todo.list, Nil)), p, First(todo.next, None))
  {
    LinkedAppend(k, done, Menu(todo.id, todo.list, Nil), p, First(todo.next, None));
  }

  lemma SameIdsDistinct(f: Forest, g: Forest)
    requires Distinct(f) && Ids(g) <= Ids(f)
    ensures Distinct(g)
  {
    forall id ensures Ids(g)[id] <= 1 { assert Ids(f)[id] <= 1; }
  }

  // ----- New parents -----

  /** The siblings `f` while they get the parent p instead of q, one after the other */
  ghost predicate Reparenting(k0: Links, k: Links, f: Forest, done: Forest, todo: Forest, p: Option<Id>, q: Option<Id>) {
    && todo.Menu? && Append(done, todo) == f && Last(todo) == Last(f)
    && Linked(k, done, p, Some(todo.id)) && Linked(k, todo, q, None)
    && SameOutside(k0, k, Ids(f))
  }

  lemma ReparentStep(k0: Links, k: Links, f: Forest, done: Forest, todo: Forest, p: Option<Id>, q: Option<Id>)
    requires f.Menu? && Distinct(f) && Reparenting(k0, k, f, done, todo, p, q)
    ensures var k' := k[todo.id := At(k, todo.id).(parent := p)];
      && Linked(k', Append(done, Menu(todo.id, todo.list, Nil)), p, First(todo.next, None))
      && Linked(k', todo.next, q, None) && SameOutside(k0, k', Ids(f))
  {
    Apart(done, todo);
    LinkedDone(k, done, todo.id, todo.list, p, First(todo.next, None));
    LinkedApart(k, todo.id, At(k, todo.id).(parent := p), todo.next, q, None);
  }

  // ----- Flattening -----

  /** A level while it is flattened */
  ghost predicate Flattening(k0: Links, k: Links, e: Attributes, f: Forest, done: Forest, todo: Forest, p: Option<Id>) {
    && Ids(Append(done, todo)) == Ids(f) && Append(done, Flat(e, todo)) == Flat(e, f)
    && Linked(k, done, p, First(todo, None)) && Linked(k, todo, p, None)
    && SameOutside(k0, k, Ids(f))
  }

  /** In the specification: the first node keeps its children. */
  lemma KeepSpec(e: Attributes, done: Forest, todo: Forest)
    requires todo.Menu? && (todo.list.Nil? || !Lifts(e, todo.id))
    ensures var done' := Append(done, Menu(todo.id, todo.list, Nil));
      Append(done', todo.next) == Append(done, todo) && Append(done', Flat(e, todo.next)) == Append(done, Flat(e, todo))
  {
    AppendMoves(done, todo.id, todo.list, todo.next);
    AppendMoves(done, todo.id, todo.list, Flat(e, todo.next));
  }

  /** It does not. */
  lemma LiftSpec(e: Attributes, done: Forest, todo: Forest)
    requires todo.Menu? && todo.list.Menu? && Lifts(e, todo.id)
    ensures Append(Append(done, Menu(todo.id, Nil, Nil)), Flat(e, Append(todo.list, todo.next)))
         == Append(done, Flat(e, todo))
  {
    AppendMoves(done, todo.id, Nil, Flat(e, Append(todo.list, todo.next)));
  }

  lemma LiftIds(done: Forest, todo: Forest)
    requires todo.Menu?
    ensures Ids(Append(Append(done, Menu(todo.id, Nil, Nil)), Append(todo.list, todo.next))) == Ids(Append(done, todo))
  {
    AppendMoves(done, todo.id, Nil, Append(todo.list, todo.next));
    AppendIds(done, Menu(todo.id, Nil, Append(todo.list, todo.next)));
    AppendIds(done, todo);
    AppendIds(todo.list, todo.next);
  }

  lemma FlattenKept(k0: Links, k: Links, e: Attributes, f: Forest, done: Forest, todo: Forest, p: Option<Id>)
    requires Flattening(k0, k, e, f, done, todo, p) && todo.Menu? && (todo.list.Nil? || !Lifts(e, todo.id))
    ensures Flattening(k0, k, e, f, Append(done, Menu(todo.id, todo.list, Nil)), todo.next, p)
  {
    KeepSpec(e, done, todo);
    LinkedPassed(k, done, todo, p);
  }

  lemma FlattenStart(k: Links, e: Attributes, f: Forest, p: Option<Id>)
    requires Linked(k, f, p, None)
    ensures Flattening(k, k, e, f, Nil, f, p)
  {
  }

  lemma FlattenEnd(k0: Links, k: Links, e: Attributes, f: Forest, done: Forest, p: Option<Id>)
    requires Flattening(k0, k, e, f, done, Nil, p)
    ensures Linked(k, Flat(e, f), p, None)
  {
    AppendNil(done);
  }

  lemma FlattenLifted(k0: Links, k: Links, k': Links, e: Attributes, f: Forest, done: Forest, todo: Forest, p: Option<Id>)
    requires Flattening(k0, k, e, f, done, todo, p) && todo.Menu? && todo.list.Menu? && Lifts(e, todo.id)
    requires Linked(k', Append(todo.list, todo.next), p, None)
    requires Linked(k', Append(done, Menu(todo.id, Nil, Nil)), p, Some(todo.list.id))
    requires SameOutside(k, k', Ids(Append(done, todo)))
    ensures Flattening(k0, k', e, f, Append(done, Menu(todo.id, Nil, Nil)), Append(todo.list, todo.next), p)
  {
    LiftSpec(e, done, todo);
    LiftIds(done, todo);
  }

  lemma Separate(done: Forest, todo: Forest)
    requires todo.Menu? && Distinct(Append(done, todo))
    ensures Distinct(todo.list)
    ensures forall id :: id in Ids(todo.list) ==> id !in Ids(done) && id !in Ids(todo.next) && id != todo.id
  {
    DistinctAppend(done, todo);
    DistinctParts(todo);
    assert forall id :: id in Ids(todo.list) ==> id in Ids(todo);
  }

  /** The links when the children have their new parent, and the last of them its new successor */
  lemma LiftKids(k: Links, k1: Links, done: Forest, todo: Forest, p: Option<Id>)
    requires todo.Menu? && todo.list.Menu? && Distinct(Append(done, todo))
    requires Linked(k, done, p, Some(todo.id)) && Linked(k, todo, p, None)
    requires SameOutside(k, k1, Ids(todo.list)) && Linked(k1, todo.list, p, None)
    ensures var k2 := k1[Last(todo.list) := At(k1, Last(todo.list)).(next := First(todo.next, None))];
      Linked(k2, Append(todo.list, todo.next), p, None) && Linked(k2, done, p, Some(todo.id))
  {
    var last, after := Last(todo.list), First(todo.next, None);
    var v := At(k1, last).(next := after);
    Separate(done, todo);
    LastIn(todo.list);
    LinkedFrame(k, k1, todo.next, p, None);
    LinkedFrame(k, k1, done, p, Some(todo.id));
    LinkedOnward(k1, todo.list, p, None, after);
    LinkedApart(k1, last, v, todo.next, p, None);
    LinkedApart(k1, last, v, done, p, Some(todo.id));
    LinkedAppend(k1[last := v], todo.list, todo.next, p, None);
  }

  /** The links when the node itself has been changed */
  lemma LiftNode(k2: Links, done: Forest, todo: Forest, p: Option<Id>)
    requires todo.Menu? && todo.list.Menu? && Distinct(Append(done, todo))
    requires Linked(k2, Append(todo.list, todo.next), p, None) && Linked(k2, done, p, Some(todo.id))
    ensures var k3 := k2[todo.id := Link(p, None, Some(todo.list.id))];
      && Linked(k3, Append(todo.list, todo.next), p, None)
      && Linked(k3, Append(done, Menu(todo.id, Nil, Nil)), p, Some(todo.list.id))
  {
    Apart(done, todo);
    AppendIds(todo.list, todo.next);
    LinkedApart(k2, todo.id, Link(p, None, Some(todo.list.id)), Append(todo.list, todo.next), p, None);
    LinkedDone(k2, done, todo.id, Nil, p, Some(todo.list.id));
  }

  lemma LiftFrame(k0: Links, k: Links, k1: Links, ids: multiset<Id>, done: Forest, todo: Forest, v: Link, w: Link)
    requires todo.Menu? && todo.list.Menu? && Ids(Append(done, todo)) == ids && SameOutside(k0, k, ids)
    requires SameOutside(k, k1, Ids(todo.list))
    ensures SameOutside(k0, k1[Last(todo.list) := v][todo.id := w], ids)
  {
    LastIn(todo.list);
    AppendIds(done, todo);
  }

  // ----- Removing `if` nodes -----

  /** The siblings from the first that is no `if` on */
  function Skip(e: Attributes, f: Forest): Forest { if f.Menu? && IsIf(e, f.id) then Skip(e, f.next) else f }

  lemma {:induction false} SkipSpec(e: Attributes, f: Forest)
    ensures Kept(e, Skip(e, f)) == Kept(e, f) && Ids(Skip(e, f)) <= Ids(f) && Size(Skip(e, f)) <= Size(f)
    ensures Skip(e, f).Menu? ==> !IsIf(e, Skip(e, f).id)
  {
    if f.Menu? { SkipSpec(e, f.next); }
  }

  lemma {:induction false} SkipLinked(k: Links, e: Attributes, f: Forest, p: Option<Id>)
    requires Linked(k, f, p, None)
    ensures Linked(k, Skip(e, f), p, None)
  {
    if f.Menu? { SkipLinked(k, e, f.next, p); }
  }

  /** A level while its `if` nodes are removed */
  ghost predicate Removing(k0: Links, k: Links, e: Attributes, f: Forest, done: Forest, todo: Forest, p: Option<Id>) {
    && Ids(Append(done, todo)) <= Ids(f) && Append(done, Kept(e, todo)) == Kept(e, f)
    && (todo.Menu? ==> !IsIf(e, todo.id))
    && Linked(k, done, p, First(todo, None)) && Linked(k, todo, p, None)
    && SameOutside(k0, k, Ids(f))
  }

  lemma RemoveSpec(e: Attributes, f: Forest, done: Forest, todo: Forest)
    requires Ids(Append(done, todo)) <= Ids(f) && Append(done, Kept(e, todo)) == Kept(e, f)
    requires todo.Menu? && !IsIf(e, todo.id)
    ensures var done', todo' := Append(done, Menu(todo.id, todo.list, Nil)), Skip(e, todo.next);
      Ids(Append(done', todo')) <= Ids(f) && Append(done', Kept(e, todo')) == Kept(e, f)
  {
    var todo' := Skip(e, todo.next);
    SkipSpec(e, todo.next);
    AppendMoves(done, todo.id, todo.list, todo');
    AppendMoves(done, todo.id, todo.list, Kept(e, todo'));
    AppendIds(done, todo);
    AppendIds(done, Menu(todo.id, todo.list, todo'));
  }

  lemma RemoveLinks(k: Links, e: Attributes, done: Forest, todo: Forest, p: Option<Id>)
    requires todo.Menu? && Distinct(Append(done, todo)) && Linked(k, done, p, Some(todo.id)) && Linked(k, todo, p, None)
    ensures var todo' := Skip(e, todo.next); var k' := k[todo.id := At(k, todo.id).(next := First(todo', None))];
      && Linked(k', Append(done, Menu(todo.id, todo.list, Nil)), p, First(todo', None)) && Linked(k', todo', p, None)
  {
    var todo' := Skip(e, todo.next);
    Apart(done, todo);
    SkipSpec(e, todo.next);
    SkipLinked(k, e, todo.next, p);
    LinkedDone(k, done, todo.id, todo.list, p, First(todo', None));
    LinkedApart(k, todo.id, At(k, todo.id).(next := First(todo', None)), todo', p, None);
  }

  lemma RemoveStep(k0: Links, k: Links, e: Attributes, f: Forest, done: Forest, todo: Forest, p: Option<Id>)
    requires Distinct(f) && Removing(k0, k, e, f, done, todo, p) && todo.Menu?
    ensures var todo' := Skip(e, todo.next); var k' := k[todo.id := At(k, todo.id).(next := First(todo', None))];
      Removing(k0, k', e, f, Append(done, Menu(todo.id, todo.list, Nil)), todo', p)
  {
    SameIdsDistinct(f, Append(done, todo));
    RemoveSpec(e, f, done, todo);
    RemoveLinks(k, e, done, todo, p);
    SkipSpec(e, todo.next);
    RemoveFrame(k0, k, f, done, todo, At(k, todo.id).(next := First(Skip(e, todo.next), None)));
  }

  lemma RemoveFrame(k0: Links, k: Links, f: Forest, done: Forest, todo: Forest, v: Link)
    requires todo.Menu? && Ids(Append(done, todo)) <= Ids(f) && SameOutside(k0, k, Ids(f))
    ensures SameOutside(k0, k[todo.id := v], Ids(f))
  {
    AppendIds(done, todo);
    assert todo.id in Ids(todo);
  }

  // ----- Propagation -----

  ghost predicate SameProps(e: Attributes, e': Attributes, ids: multiset<Id>) {
    forall id :: id in ids ==> e'.Of(id) == e.Of(id)
  }

  ghost predicate SamePropsOutside(e: Attributes, e': Attributes, ids: multiset<Id>) {
    forall id :: id !in ids ==> e'.Of(id) == e.Of(id)
  }

  /** Whether a node has a prompt never changes. */
  ghost predicate SamePrompts(e: Attributes, e': Attributes) {
    forall id :: e'.Of(id).prompt.Some? == e.Of(id).prompt.Some?
  }

  /** The nodes of a level have their final expressions, and those below them still the original ones. */
  ghost predicate Ready(e: Attributes, a: Attributes, z: Attributes, f: Forest) {
    f.Menu? ==> e.Of(f.id) == z.Of(f.id) && SameProps(a, e, Ids(f.list)) && Ready(e, a, z, f.next)
  }

  lemma {:induction false} ReadyFrame(e: Attributes, e': Attributes, a: Attributes, z: Attributes, f: Forest)
    requires Ready(e, a, z, f) && SameProps(e, e', Ids(f))
    ensures Ready(e', a, z, f)
  {
    if f.Menu? {
      assert f.id in Ids(f);
      assert SameProps(e, e', Ids(f.list)) && SameProps(e, e', Ids(f.next));
      ReadyFrame(e, e', a, z, f.next);
    }
  }

  lemma {:induction false} ReadyAppend(e: Attributes, a: Attributes, z: Attributes, f: Forest, g: Forest)
    ensures Ready(e, a, z, Append(f, g)) <==> Ready(e, a, z, f) && Ready(e, a, z, g)
  {
    if f.Menu? { ReadyAppend(e, a, z, f.next, g); }
  }

  /** A level while it gets its final expressions */
  ghost predicate Propagating(
      e0: Attributes, e: Attributes, a: Attributes, z: Attributes, f: Forest, done: Forest, todo: Forest, base: Expr,
      visibleIf: Expr)
  {
    && Append(done, todo) == f && Settled(a, z, todo, base, visibleIf)
    && Ready(e, a, z, done) && SameProps(a, e, Ids(todo))
    && SamePropsOutside(e0, e, Ids(f)) && SamePrompts(e0, e)
  }

  function WithProps(e: Attributes, id: Id, p: Props): Attributes { e.(props := e.props[id := p]) }

  lemma WithPropsOf(e: Attributes, id: Id, p: Props, other: Id)
    ensures WithProps(e, id, p).Of(other) == if other == id then p else e.Of(other)
  {
  }

  lemma PropsFrame(e0: Attributes, e: Attributes, ids: multiset<Id>, x: Id, p: Props)
    requires x in ids && SamePropsOutside(e0, e, ids)
    ensures SamePropsOutside(e0, WithProps(e, x, p), ids)
  {
    forall id | id !in ids ensures WithProps(e, x, p).Of(id) == e0.Of(id) { WithPropsOf(e, x, p, id); }
  }

  lemma PromptsFrame(e0: Attributes, e: Attributes, x: Id, p: Props)
    requires SamePrompts(e0, e) && p.prompt.Some? == e.Of(x).prompt.Some?
    ensures SamePrompts(e0, WithProps(e, x, p))
  {
    forall id ensures WithProps(e, x, p).Of(id).prompt.Some? == e0.Of(id).prompt.Some? { WithPropsOf(e, x, p, id); }
  }

  lemma PropagateStep(
      e0: Attributes, e: Attributes, a: Attributes, z: Attributes, f: Forest, done: Forest, todo: Forest, base: Expr,
      visibleIf: Expr)
    requires Distinct(f) && Propagating(e0, e, a, z, f, done, todo, base, visibleIf) && todo.Menu? && e.item == a.item
    ensures Propagated(e.Item(todo.id), e.Of(todo.id), base, visibleIf) == z.Of(todo.id)
    ensures Propagating(e0, WithProps(e, todo.id, z.Of(todo.id)), a, z, f,
                        Append(done, Menu(todo.id, todo.list, Nil)), todo.next, base, visibleIf)
  {
    var p := z.Of(todo.id);
    AppendIds(done, todo);
    assert todo.id in Ids(todo) && e.Of(todo.id) == a.Of(todo.id);
    PropsFrame(e0, e, Ids(f), todo.id, p);
    PromptsFrame(e0, e, todo.id, p);
    PropagateReady(e, a, z, done, todo);
    AppendMoves(done, todo.id, todo.list, todo.next);
  }

  lemma PropsApart(a: Attributes, e: Attributes, x: Id, p: Props, ids: multiset<Id>)
    requires x !in ids && SameProps(a, e, ids)
    ensures SameProps(a, WithProps(e, x, p), ids)
  {
    forall id | id in ids ensures WithProps(e, x, p).Of(id) == a.Of(id) { WithPropsOf(e, x, p, id); }
  }

  lemma PropagateReady(e: Attributes, a: Attributes, z: Attributes, done: Forest, todo: Forest)
    requires todo.Menu? && Distinct(Append(done, todo)) && Ready(e, a, z, done) && SameProps(a, e, Ids(todo))
    ensures var e' := WithProps(e, todo.id, z.Of(todo.id));
      Ready(e', a, z, Append(done, Menu(todo.id, todo.list, Nil))) && SameProps(a, e', Ids(todo.next))
  {
    var x, p := todo.id, z.Of(todo.id);
    var e' := WithProps(e, x, p);
    Apart(done, todo);
    PartsSame(a, e, todo);
    PropsApart(a, e, x, p, Ids(todo.list));
    PropsApart(a, e, x, p, Ids(todo.next));
    PropsApart(e, e, x, p, Ids(done));
    ReadyFrame(e, e', a, z, done);
    WithPropsOf(e, x, p, x);
    ReadyAppend(e', a, z, done, Menu(x, todo.list, Nil));
  }

  lemma PartsSame(a: Attributes, e: Attributes, f: Forest)
    requires f.Menu? && SameProps(a, e, Ids(f))
    ensures SameProps(a, e, Ids(f.list)) && SameProps(a, e, Ids(f.next)) && e.Of(f.id) == a.Of(f.id)
  {
    assert f.id in Ids(f);
    assert forall id :: id in Ids(f.list) || id in Ids(f.next) ==> id in Ids(f);
  }

  // ----- Finalising -----

  predicate SuffixOf(g: Forest, f: Forest) { g == f || (f.Menu? && SuffixOf(g, f.next)) }

  lemma {:induction false} SuffixTrans(f: Forest, g: Forest, h: Forest)
    requires SuffixOf(f, g) && SuffixOf(g, h)
    ensures SuffixOf(f, h)
  {
    if g != h { SuffixTrans(f, g, h.next); }
  }

  lemma {:induction false} RestSuffix(z: Attributes, f: Forest)
    requires f.Menu?
    ensures SuffixOf(Rest(z, f), f.next)
    decreases Size(f), 1
  {
    if IsSymbol(z, f.id) { LeftSuffix(z, f.id, f.next); }
  }

  lemma {:induction false} LeftSuffix(z: Attributes, id: Id, f: Forest)
    ensures SuffixOf(Left(z, id, f), f)
    decreases Size(f), 2
  {
    if f.Menu? && Submenu(z, id, f.id) {
      RestSuffix(z, f);
      LeftSuffix(z, id, Rest(z, f));
      SuffixTrans(Left(z, id, f), Rest(z, f), f.next);
    }
  }

  lemma {:induction false} SuffixIds(g: Forest, f: Forest)
    requires SuffixOf(g, f)
    ensures Ids(g) <= Ids(f)
  {
    if g != f { SuffixIds(g, f.next); }
  }

  /** What is passed down to the children of the siblings is settled. */
  predicate KidsSettled(a: Attributes, z: Attributes, f: Forest, visibleIf: Expr) {
    f.Menu? ==>
      && Settled(a, z, f.list, BaseOf(a.Item(f.id), z.Of(f.id)), VisibleBelow(a, f.id, visibleIf))
      && KidsSettled(a, z, f.next, visibleIf)
  }

  lemma {:induction false} SettledKids(a: Attributes, z: Attributes, f: Forest, base: Expr, visibleIf: Expr)
    requires Settled(a, z, f, base, visibleIf)
    ensures KidsSettled(a, z, f, visibleIf)
  {
    if f.Menu? { SettledKids(a, z, f.next, base, visibleIf); }
  }

  lemma {:induction false} SuffixInherits(a: Attributes, z: Attributes, g: Forest, f: Forest, visibleIf: Expr)
    requires SuffixOf(g, f) && KidsSettled(a, z, f, visibleIf) && SymbolsLeaf(z, f)
    ensures KidsSettled(a, z, g, visibleIf) && SymbolsLeaf(z, g)
  {
    if g != f { SuffixInherits(a, z, g, f.next, visibleIf); }
  }

  ghost predicate SameNodes(e: Attributes, a: Attributes, z: Attributes) {
    e.item == a.item == z.item && e.visibility == a.visibility && SamePrompts(e, z)
  }

  /** Siblings that are still to be finalised */
  ghost predicate Job(e: Attributes, a: Attributes, z: Attributes, f: Forest, visibleIf: Expr) {
    SameNodes(e, a, z) && Ready(e, a, z, f) && KidsSettled(a, z, f, visibleIf) && SymbolsLeaf(z, f)
  }

  ghost predicate FinalExcept(e: Attributes, z: Attributes, ids: multiset<Id>, except: multiset<Id>) {
    forall id :: id in ids && id !in except ==> e.Of(id) == z.Of(id)
  }

  /** The expressions after the first of the siblings was finalised */
  ghost predicate Finalised(e: Attributes, e': Attributes, a: Attributes, z: Attributes, f: Forest)
    requires f.Menu?
  {
    && SameNodes(e', a, z) && Ready(e', a, z, Rest(z, f))
    && FinalExcept(e', z, Ids(f), Ids(Rest(z, f))) && SamePropsOutside(e, e', Ids(f))
  }

  /** The expressions while the siblings `f` are finalised, with `todo` left */
  ghost predicate Progress(
      e0: Attributes, e: Attributes, a: Attributes, z: Attributes, f: Forest, todo: Forest, visibleIf: Expr)
  {
    && SuffixOf(todo, f)
    && Job(e, a, z, todo, visibleIf)
    && FinalExcept(e, z, Ids(f), Ids(todo))
    && SamePropsOutside(e0, e, Ids(f))
  }

  lemma ProgressStep(
      e0: Attributes, e: Attributes, e': Attributes, a: Attributes, z: Attributes, f: Forest, todo: Forest,
      visibleIf: Expr)
    requires todo.Menu? && Progress(e0, e, a, z, f, todo, visibleIf) && Finalised(e, e', a, z, todo)
    ensures Progress(e0, e', a, z, f, Rest(z, todo), visibleIf)
  {
    var rest := Rest(z, todo);
    RestSuffix(z, todo);
    assert SuffixOf(rest, todo);
    SuffixTrans(rest, todo, f);
    SuffixInherits(a, z, rest, todo, visibleIf);
    ProgressProps(e0, e, e', z, Ids(f), Ids(todo), Ids(rest), f, todo);
  }

  lemma ProgressProps(
      e0: Attributes, e: Attributes, e': Attributes, z: Attributes, all: multiset<Id>, todo: multiset<Id>,
      rest: multiset<Id>, f: Forest, g: Forest)
    requires all == Ids(f) && todo == Ids(g) && SuffixOf(g, f)
    requires FinalExcept(e, z, all, todo) && SamePropsOutside(e0, e, all)
    requires FinalExcept(e', z, todo, rest) && SamePropsOutside(e, e', todo)
    ensures FinalExcept(e', z, all, rest) && SamePropsOutside(e0, e', all)
  {
    SuffixIds(g, f);
  }

  // ----- The links while siblings are finalised -----

  lemma FirstFinalised(k: Links, k': Links, done: Forest, todo: Forest, kids: Forest, rest: Forest, p: Option<Id>)
    requires todo.Menu? && Linked(k, done, p, Some(todo.id))
    requires SameOutside(k, k', Ids(todo)) && Distinct(Append(done, todo))
    requires Linked(k', Menu(todo.id, kids, rest), p, None)
    ensures Linked(k', Append(done, Menu(todo.id, kids, Nil)), p, First(rest, None)) && Linked(k', rest, p, None)
  {
    DistinctAppend(done, todo);
    LinkedFrame(k, k', done, p, Some(todo.id));
    LinkedPassed(k', done, Menu(todo.id, kids, rest), p);
  }

  lemma FinalisedIds(z: Attributes, all: multiset<Id>, done: Forest, todo: Forest)
    requires todo.Menu? && SymbolsLeaf(z, todo) && Ids(Append(done, todo)) <= all
    ensures Ids(Append(Append(done, Menu(todo.id, Kids(z, todo), Nil)), Rest(z, todo))) <= all
  {
    KidsIds(z, todo);
    AppendMoves(done, todo.id, Kids(z, todo), Rest(z, todo));
    AppendIds(done, todo);
    AppendIds(done, Menu(todo.id, Kids(z, todo), Rest(z, todo)));
    FewerIds(Ids(done), multiset{todo.id}, Ids(Kids(z, todo)), Ids(Rest(z, todo)), Ids(todo.list), Ids(todo.next));
  }

  lemma FewerIds(
      done: multiset<Id>, own: multiset<Id>, kids: multiset<Id>, rest: multiset<Id>, list: multiset<Id>,
      next: multiset<Id>)
    requires kids + rest <= list + next
    ensures done + (own + kids + rest) <= done + (own + list + next)
  {
    forall x ensures (done + (own + kids + rest))[x] <= (done + (own + list + next))[x] {
      assert (kids + rest)[x] <= (list + next)[x];
    }
  }

  /** Children while they are finalised */
  ghost predicate Finalising(k0: Links, k: Links, z: Attributes, f: Forest, done: Forest, todo: Forest, p: Option<Id>) {
    && Ids(Append(done, todo)) <= Ids(f) && Append(done, Each(z, todo)) == Each(z, f)
    && Linked(k, done, p, First(todo, None)) && Linked(k, todo, p, None)
    && SameOutside(k0, k, Ids(f))
  }

  lemma OutsideTrans(k0: Links, k: Links, k': Links, all: multiset<Id>, some: multiset<Id>)
    requires SameOutside(k0, k, all) && SameOutside(k, k', some) && some <= all
    ensures SameOutside(k0, k', all)
  {
  }

  lemma FinalisingStep(k0: Links, k: Links, k': Links, z: Attributes, f: Forest, done: Forest, todo: Forest, p: Option<Id>)
    requires Distinct(f) && Finalising(k0, k, z, f, done, todo, p) && todo.Menu? && SymbolsLeaf(z, todo)
    requires Linked(k', Menu(todo.id, Kids(z, todo), Rest(z, todo)), p, None) && SameOutside(k, k', Ids(todo))
    ensures Finalising(k0, k', z, f, Append(done, Menu(todo.id, Kids(z, todo), Nil)), Rest(z, todo), p)
  {
    SameIdsDistinct(f, Append(done, todo));
    FirstFinalised(k, k', done, todo, Kids(z, todo), Rest(z, todo), p);
    FinalisedIds(z, Ids(f), done, todo);
    AppendIds(done, todo);
    OutsideTrans(k0, k, k', Ids(f), Ids(todo));
    AppendMoves(done, todo.id, Kids(z, todo), Each(z, Rest(z, todo)));
  }

  /** A symbol that takes its dependents below it: so far `subs`, linked from the symbol and already with it as their
      parent; `rest` are its remaining siblings. */
  ghost predicate Absorbing(k0: Links, k: Links, z: Attributes, f: Forest, subs: Forest, rest: Forest, p: Option<Id>)
    requires f.Menu?
  {
    && Ids(Append(subs, rest)) <= Ids(f.next)
    && Append(subs, Submenus(z, f.id, rest)) == Submenus(z, f.id, f.next) && Left(z, f.id, rest) == Left(z, f.id, f.next)
    && At(k, f.id) == Link(p, None, First(subs, First(rest, None)))
    && Linked(k, subs, Some(f.id), First(rest, None)) && Linked(k, rest, p, None)
    && SameOutside(k0, k, Ids(f))
  }

  lemma AbsorbLinks(k: Links, k1: Links, id: Id, subs: Forest, rest: Forest, kids: Forest, left: Forest, p: Option<Id>)
    requires rest.Menu? && Distinct(Append(subs, rest)) && Distinct(Append(subs, Menu(rest.id, kids, left)))
    requires Linked(k, subs, Some(id), Some(rest.id)) && SameOutside(k, k1, Ids(rest))
    requires Linked(k1, Menu(rest.id, kids, left), p, None)
    ensures var k2 := k1[rest.id := At(k1, rest.id).(parent := Some(id))];
      && Linked(k2, Append(subs, Menu(rest.id, kids, Nil)), Some(id), First(left, None)) && Linked(k2, left, p, None)
  {
    DistinctAppend(subs, rest);
    Apart(subs, Menu(rest.id, kids, left));
    LinkedFrame(k, k1, subs, Some(id), Some(rest.id));
    LinkedDone(k1, subs, rest.id, kids, Some(id), First(left, None));
    LinkedApart(k1, rest.id, At(k1, rest.id).(parent := Some(id)), left, p, None);
  }

  lemma WithinRest(f: Forest, subs: Forest, rest: Forest)
    requires f.Menu? && Distinct(f) && rest.Menu? && Ids(Append(subs, rest)) <= Ids(f.next)
    ensures f.id !in Ids(rest) && Ids(rest) <= Ids(f) && rest.id in Ids(rest) && rest.id in Ids(f)
  {
    DistinctParts(f);
    AppendIds(subs, rest);
    SomeId(rest);
    SecondPart(Ids(subs), Ids(rest), Ids(f.next));
    SecondPart(multiset{f.id} + Ids(f.list), Ids(f.next), Ids(f));
    Transitive(Ids(rest), Ids(f.next), Ids(f));
  }

  lemma SecondPart(a: multiset<Id>, b: multiset<Id>, c: multiset<Id>)
    requires a + b <= c
    ensures b <= c
  {
  }

  lemma Transitive(a: multiset<Id>, b: multiset<Id>, c: multiset<Id>)
    requires a <= b <= c
    ensures a <= c
  {
  }

  lemma SomeId(f: Forest)
    requires f.Menu?
    ensures f.id in Ids(f)
  {
  }

  lemma AbsorbNode(k0: Links, k: Links, k1: Links, f: Forest, subs: Forest, rest: Forest, v: Link)
    requires f.Menu? && Distinct(f) && rest.Menu? && Ids(Append(subs, rest)) <= Ids(f.next)
    requires SameOutside(k0, k, Ids(f)) && SameOutside(k, k1, Ids(rest))
    ensures At(k1[rest.id := v], f.id) == At(k, f.id) && SameOutside(k0, k1[rest.id := v], Ids(f))
  {
    WithinRest(f, subs, rest);
    OutsideTrans(k0, k, k1, Ids(f), Ids(rest));
  }

  lemma AbsorbSpec(z: Attributes, f: Forest, subs: Forest, rest: Forest)
    requires f.Menu? && rest.Menu? && SymbolsLeaf(z, rest) && Submenu(z, f.id, rest.id)
      && Ids(Append(subs, rest)) <= Ids(f.next)
    requires Append(subs, Submenus(z, f.id, rest)) == Submenus(z, f.id, f.next)
      && Left(z, f.id, rest) == Left(z, f.id, f.next)
    ensures var subs', rest' := Append(subs, Menu(rest.id, Kids(z, rest), Nil)), Rest(z, rest);
      && Ids(Append(subs', rest')) <= Ids(f.next) && Left(z, f.id, rest') == Left(z, f.id, f.next)
      && Append(subs', Submenus(z, f.id, rest')) == Submenus(z, f.id, f.next)
  {
    FinalisedIds(z, Ids(f.next), subs, rest);
    AppendMoves(subs, rest.id, Kids(z, rest), Submenus(z, f.id, Rest(z, rest)));
  }

  lemma AbsorbStep(k0: Links, k: Links, k1: Links, z: Attributes, f: Forest, subs: Forest, rest: Forest, p: Option<Id>)
    requires f.Menu? && Distinct(f) && Absorbing(k0, k, z, f, subs, rest, p)
    requires rest.Menu? && SymbolsLeaf(z, rest) && Submenu(z, f.id, rest.id)
    requires Linked(k1, Menu(rest.id, Kids(z, rest), Rest(z, rest)), p, None) && SameOutside(k, k1, Ids(rest))
    ensures Absorbing(k0, k1[rest.id := At(k1, rest.id).(parent := Some(f.id))], z, f,
                      Append(subs, Menu(rest.id, Kids(z, rest), Nil)), Rest(z, rest), p)
  {
    DistinctParts(f);
    SameIdsDistinct(f.next, Append(subs, rest));
    AbsorbSpec(z, f, subs, rest);
    AppendMoves(subs, rest.id, Kids(z, rest), Rest(z, rest));
    SameIdsDistinct(f.next, Append(subs, Menu(rest.id, Kids(z, rest), Rest(z, rest))));
    AbsorbLinks(k, k1, f.id, subs, rest, Kids(z, rest), Rest(z, rest), p);
    AbsorbNode(k0, k, k1, f, subs, rest, At(k1, rest.id).(parent := Some(f.id)));
  }

  /** The absorbed siblings become children. */
  lemma Tilt(k: Links, id: Id, subs: Forest, rest: Forest, p: Option<Id>)
    requires subs.Menu? && Distinct(Menu(id, subs, rest))
    requires Linked(k, subs, Some(id), First(rest, None)) && Linked(k, rest, p, None)
    ensures var k1 := k[id := Link(p, Some(subs.id), First(rest, None))];
      Linked(k1[Last(subs) := At(k1, Last(subs)).(next := None)], Menu(id, subs, rest), p, None)
  {
    var v := Link(p, Some(subs.id), First(rest, None));
    var k1 := k[id := v];
    DistinctParts(Menu(id, subs, rest));
    LastIn(subs);
    LinkedApart(k, id, v, subs, Some(id), First(rest, None));
    LinkedApart(k, id, v, rest, p, None);
    LinkedOnward(k1, subs, Some(id), First(rest, None), None);
    LinkedApart(k1, Last(subs), At(k1, Last(subs)).(next := None), rest, p, None);
  }

  // ----- Between the running program and the final expressions -----

  lemma LiftsSame(e: Attributes, z: Attributes, id: Id)
    requires e.item == z.item && SamePrompts(e, z)
    ensures Lifts(e, id) == Lifts(z, id) && IsIf(e, id) == IsIf(z, id)
  {
    assert e.Of(id).prompt.Some? == z.Of(id).prompt.Some?;
  }

  lemma {:induction false} FlatSame(e: Attributes, z: Attributes, f: Forest)
    requires e.item == z.item && SamePrompts(e, z)
    ensures Flat(e, f) == Flat(z, f)
    decreases Size(f)
  {
    if f.Menu? {
      LiftsSame(e, z, f.id);
      AppendSize(f.list, f.next);
      if f.list.Menu? && Lifts(e, f.id) { FlatSame(e, z, Append(f.list, f.next)); } else { FlatSame(e, z, f.next); }
    }
  }

  lemma {:induction false} KeptSame(e: Attributes, z: Attributes, f: Forest)
    requires e.item == z.item && SamePrompts(e, z)
    ensures Kept(e, f) == Kept(z, f)
  {
    if f.Menu? {
      LiftsSame(e, z, f.id);
      KeptSame(e, z, f.next);
    }
  }

  lemma LevelSame(e: Attributes, z: Attributes, f: Forest)
    requires e.item == z.item && SamePrompts(e, z)
    ensures Level(e, f) == Level(z, f)
  {
    FlatSame(e, z, f);
    KeptSame(e, z, Flat(z, f));
  }

  lemma {:induction false} SuffixSize(g: Forest, f: Forest)
    requires SuffixOf(g, f)
    ensures Size(g) <= Size(f)
  {
    if g != f { SuffixSize(g, f.next); }
  }

  lemma LevelLinks(k0: Links, k1: Links, id: Id, below: Forest, rest: Forest, p: Option<Id>)
    requires Linked(k0, Menu(id, below, rest), p, None)
    requires SameOutside(k0, k1, Ids(below)) && Distinct(Menu(id, below, rest))
    ensures At(k1, id) == Link(p, First(below, None), First(rest, None)) && Linked(k1, rest, p, None)
  {
    DistinctParts(Menu(id, below, rest));
    LinkedFrame(k0, k1, rest, p, None);
  }

  lemma {:induction false} FlatFirst(e: Attributes, f: Forest)
    ensures First(Flat(e, f), None) == First(f, None)
  {
  }

  lemma {:induction false} EachFirst(z: Attributes, f: Forest)
    ensures First(Each(z, f), None) == First(f, None)
  {
  }

  lemma LevelEnd(k0: Links, k1: Links, k2: Links, e: Attributes, id: Id, below: Forest, rest: Forest, p: Option<Id>)
    requires Linked(k0, Menu(id, below, rest), p, None)
    requires Distinct(Menu(id, below, rest)) && SameOutside(k0, k1, Ids(below))
    requires At(k2, id) == At(k1, id).(list := First(Level(e, below), None))
    requires Linked(k2, Level(e, below), Some(id), None)
    requires SameOutside(k1[id := At(k2, id)], k2, Ids(below))
    ensures Linked(k2, Menu(id, Level(e, below), rest), p, None)
  {
    LevelLinks(k0, k1, id, below, rest, p);
    LevelRest(k1, k2, id, below, rest, p);
  }

  lemma LevelRest(k1: Links, k2: Links, id: Id, below: Forest, rest: Forest, p: Option<Id>)
    requires Distinct(Menu(id, below, rest)) && Linked(k1, rest, p, None)
      && SameOutside(k1[id := At(k2, id)], k2, Ids(below))
    ensures Linked(k2, rest, p, None)
  {
    forall x | x in Ids(rest) ensures At(k2, x) == At(k1, x) { LevelRestAt(k1, k2, id, below, rest, x); }
    LinkedFrame(k1, k2, rest, p, None);
  }

  lemma LevelRestAt(k1: Links, k2: Links, id: Id, below: Forest, rest: Forest, x: Id)
    requires Distinct(Menu(id, below, rest)) && x in Ids(rest) && SameOutside(k1[id := At(k2, id)], k2, Ids(below))
    ensures At(k2, x) == At(k1, x)
  {
    DistinctParts(Menu(id, below, rest));
    assert x != id && x !in Ids(below);
  }

  lemma LevelFrame(k0: Links, k1: Links, k2: Links, id: Id, below: Forest, rest: Forest)
    requires SameOutside(k0, k1, Ids(below)) && SameOutside(k1[id := At(k2, id)], k2, Ids(below))
    ensures SameOutside(k0, k2, Ids(Menu(id, below, rest)))
  {
    forall x | x !in Ids(Menu(id, below, rest)) ensures At(k2, x) == At(k0, x) {
      assert x != id && x !in Ids(below);
    }
  }

  lemma FinalisingStart(k: Links, z: Attributes, f: Forest, p: Option<Id>)
    requires Linked(k, f, p, None)
    ensures Finalising(k, k, z, f, Nil, f, p)
  {
  }

  lemma FinalisingEnd(k0: Links, k: Links, z: Attributes, f: Forest, done: Forest, p: Option<Id>)
    requires Finalising(k0, k, z, f, done, Nil, p)
    ensures Linked(k, Each(z, f), p, None)
  {
    AppendNil(done);
  }

  lemma ProgressStart(e: Attributes, a: Attributes, z: Attributes, f: Forest, visibleIf: Expr)
    requires Job(e, a, z, f, visibleIf)
    ensures Progress(e, e, a, z, f, f, visibleIf)
  {
  }

  lemma AbsorbStart(k: Links, z: Attributes, f: Forest, p: Option<Id>)
    requires f.Menu? && f.list.Nil? && Linked(k, f, p, None)
    ensures Absorbing(k, k, z, f, Nil, f.next, p)
  {
  }

  /** When the loop over the dependents ends, they are all there. */
  lemma AbsorbEnd(k0: Links, k: Links, z: Attributes, f: Forest, subs: Forest, rest: Forest, p: Option<Id>)
    requires f.Menu? && Absorbing(k0, k, z, f, subs, rest, p) && (rest.Nil? || !Submenu(z, f.id, rest.id))
    ensures subs == Submenus(z, f.id, f.next) && rest == Left(z, f.id, f.next)
  {
    AppendNil(subs);
  }

  lemma TiltDistinct(f: Forest, subs: Forest, rest: Forest)
    requires f.Menu? && Distinct(f) && Ids(Append(subs, rest)) <= Ids(f.next)
    ensures Distinct(Menu(f.id, subs, rest)) && Ids(Menu(f.id, subs, rest)) <= Ids(f)
  {
    AppendIds(subs, rest);
    forall x ensures Ids(Menu(f.id, subs, rest))[x] <= Ids(f)[x] {
      assert Ids(Append(subs, rest))[x] <= Ids(f.next)[x];
    }
    SameIdsDistinct(f, Menu(f.id, subs, rest));
  }

  lemma SubmenuSame(e: Attributes, z: Attributes, id: Id, other: Id)
    requires e.item == z.item && e.Of(other) == z.Of(other)
    ensures Submenu(e, id, other) == Submenu(z, id, other)
  {
  }

  lemma NextSibling(k0: Links, k: Links, z: Attributes, f: Forest, subs: Forest, rest: Forest, p: Option<Id>)
    requires f.Menu? && Absorbing(k0, k, z, f, subs, rest, p)
    ensures At(k, if subs.Nil? then f.id else Last(subs)).next == First(rest, None)
  {
    if subs.Menu? { LastNext(k, subs, Some(f.id), First(rest, None)); }
  }

  lemma {:induction false} LastNext(k: Links, f: Forest, p: Option<Id>, after: Option<Id>)
    requires f.Menu? && Linked(k, f, p, after)
    ensures At(k, Last(f)).next == after
  {
    if f.next.Menu? { LastNext(k, f.next, p, after); }
  }

  lemma {:induction false} AppendLast(f: Forest, id: Id, list: Forest)
    ensures Append(f, Menu(id, list, Nil)).Menu? && Last(Append(f, Menu(id, list, Nil))) == id
  {
    if f.Menu? { AppendLast(f.next, id, list); }
  }

  /** After the propagation, the children are ready. */
  lemma BlockJob(e0: Attributes, e1: Attributes, a: Attributes, z: Attributes, f: Forest, visibleIf: Expr)
    requires f.Menu? && Job(e0, a, z, f, visibleIf) && e1.item == e0.item && e1.visibility == e0.visibility
    requires Ready(e1, a, z, f.list) && SamePrompts(e0, e1)
    ensures Job(e1, a, z, f.list, VisibleBelow(e0, f.id, visibleIf))
  {
    SettledKids(a, z, f.list, BaseOf(a.Item(f.id), z.Of(f.id)), VisibleBelow(a, f.id, visibleIf));
  }

  lemma BlockEmpty(e: Attributes, a: Attributes, z: Attributes, f: Forest, visibleIf: Expr)
    requires f.Menu? && f.list.Nil? && !IsSymbol(z, f.id) && Job(e, a, z, f, visibleIf)
    ensures Finalised(e, e, a, z, f)
  {
  }

  /** The children of a node before the last steps for their level */
  function Lower(z: Attributes, f: Forest): Forest
    requires f.Menu?
  {
    if IsSymbol(z, f.id) then Submenus(z, f.id, f.next) else Each(z, f.list)
  }

  lemma BelowIds(z: Attributes, f: Forest)
    requires f.Menu? && SymbolsLeaf(z, f) && Distinct(f)
    ensures Ids(Menu(f.id, Lower(z, f), Rest(z, f))) <= Ids(f) && Distinct(Menu(f.id, Lower(z, f), Rest(z, f)))
  {
    var below := Lower(z, f);
    if IsSymbol(z, f.id) { SubmenusIds(z, f.id, f.next); } else { EachIds(z, f.list); }
    assert Ids(below) + Ids(Rest(z, f)) <= Ids(f.list) + Ids(f.next);
    FewerIds(multiset{}, multiset{f.id}, Ids(below), Ids(Rest(z, f)), Ids(f.list), Ids(f.next));
    SameIdsDistinct(f, Menu(f.id, below, Rest(z, f)));
  }

  /** The expressions of a node whose children are done */
  lemma ChildrenFinal(
      e0: Attributes, e1: Attributes, e2: Attributes, a: Attributes, z: Attributes, f: Forest, visibleIf: Expr,
      below: Expr)
    requires f.Menu? && Distinct(f) && !IsSymbol(z, f.id) && Job(e0, a, z, f, visibleIf)
    requires SamePropsOutside(e0, e1, Ids(f.list)) && Progress(e1, e2, a, z, f.list, Nil, below)
    ensures Finalised(e0, e2, a, z, f)
  {
    ChildrenProps(e0, e1, e2, z, f);
    DistinctParts(f);
    ReadyFrame(e0, e2, a, z, f.next);
  }

  lemma ChildrenProps(e0: Attributes, e1: Attributes, e2: Attributes, z: Attributes, f: Forest)
    requires f.Menu? && Distinct(f) && e0.Of(f.id) == z.Of(f.id)
    requires SamePropsOutside(e0, e1, Ids(f.list)) && SamePropsOutside(e1, e2, Ids(f.list))
      && FinalExcept(e2, z, Ids(f.list), Ids(Nil))
    ensures FinalExcept(e2, z, Ids(f), Ids(f.next)) && SamePropsOutside(e0, e2, Ids(f)) && SameProps(e0, e2, Ids(f.next))
  {
    DistinctParts(f);
    forall id | id in Ids(f) && id !in Ids(f.next) ensures e2.Of(id) == z.Of(id) {
      assert id == f.id || id in Ids(f.list);
    }
    forall id | id !in Ids(f.list) ensures e2.Of(id) == e0.Of(id) { assert e1.Of(id) == e0.Of(id); }
  }

  lemma DependentsFinal(e0: Attributes, e: Attributes, a: Attributes, z: Attributes, f: Forest, visibleIf: Expr)
    requires f.Menu? && Distinct(f) && f.list.Nil? && Job(e0, a, z, f, visibleIf)
    requires Progress(e0, e, a, z, f.next, Rest(z, f), visibleIf)
    ensures Finalised(e0, e, a, z, f)
  {
    DistinctParts(f);
  }

  lemma AbsorbReady(k0: Links, k: Links, z: Attributes, f: Forest, subs: Forest, rest: Forest, p: Option<Id>)
    requires f.Menu? && Distinct(f) && Absorbing(k0, k, z, f, subs, rest, p)
    ensures Distinct(rest)
  {
    DistinctParts(f);
    SameIdsDistinct(f.next, Append(subs, rest));
    DistinctAppend(subs, rest);
  }

  /** What a symbol with the siblings `f` starts from when it takes its dependents */
  datatype Taker = Taker(k: Links, e: Attributes, a: Attributes, z: Attributes, f: Forest, p: Option<Id>, visibleIf: Expr)

  /** A symbol while it takes its dependents, links and expressions together */
  ghost predicate Taking(w: Taker, k: Links, e: Attributes, subs: Forest, rest: Forest, cur: Id) {
    && w.f.Menu?
    && Absorbing(w.k, k, w.z, w.f, subs, rest, w.p)
    && Progress(w.e, e, w.a, w.z, w.f.next, rest, w.visibleIf)
    && AtEnd(w, k, e, subs, rest, cur)
  }

  /** `cur` is the last sibling taken, and the program's condition for the next one is the specification's. */
  ghost predicate AtEnd(w: Taker, k: Links, e: Attributes, subs: Forest, rest: Forest, cur: Id)
    requires w.f.Menu?
  {
    && cur == (if subs.Nil? then w.f.id else Last(subs))
    && At(k, cur).next == First(rest, None)
    && (rest.Menu? ==> Submenu(e, w.f.id, rest.id) == Submenu(w.z, w.f.id, rest.id))
  }

  lemma TakeStart(w: Taker)
    requires w.f.Menu? && w.f.list.Nil? && Linked(w.k, w.f, w.p, None) && Job(w.e, w.a, w.z, w.f, w.visibleIf)
    ensures Taking(w, w.k, w.e, Nil, w.f.next, w.f.id)
  {
    AbsorbStart(w.k, w.z, w.f, w.p);
    ProgressStart(w.e, w.a, w.z, w.f.next, w.visibleIf);
    if w.f.next.Menu? { SubmenuSame(w.e, w.z, w.f.id, w.f.next.id); }
  }

  lemma TakeStep(w: Taker, k: Links, k1: Links, e: Attributes, e1: Attributes, subs: Forest, rest: Forest, cur: Id)
    requires Taking(w, k, e, subs, rest, cur) && Distinct(w.f) && rest.Menu? && Submenu(w.z, w.f.id, rest.id)
    requires Linked(k1, Menu(rest.id, Kids(w.z, rest), Rest(w.z, rest)), w.p, None) && SameOutside(k, k1, Ids(rest))
    requires Finalised(e, e1, w.a, w.z, rest)
    ensures Taking(w, k1[rest.id := At(k1, rest.id).(parent := Some(w.f.id))], e1,
                   Append(subs, Menu(rest.id, Kids(w.z, rest), Nil)), Rest(w.z, rest), rest.id)
  {
    AbsorbStep(w.k, k, k1, w.z, w.f, subs, rest, w.p);
    ProgressStep(w.e, e, e1, w.a, w.z, w.f.next, rest, w.visibleIf);
    AppendLast(subs, rest.id, Kids(w.z, rest));
    if Rest(w.z, rest).Menu? { SubmenuSame(e1, w.z, w.f.id, Rest(w.z, rest).id); }
  }

  lemma TakeReady(w: Taker, k: Links, e: Attributes, subs: Forest, rest: Forest, cur: Id)
    requires Taking(w, k, e, subs, rest, cur) && Distinct(w.f)
    ensures Distinct(rest) && Linked(k, rest, w.p, None) && Job(e, w.a, w.z, rest, w.visibleIf)
  {
    AbsorbReady(w.k, k, w.z, w.f, subs, rest, w.p);
  }

  function Tilted(k: Links, node: Id, cur: Id): Links {
    var k1 := k[node := At(k, node).(list := At(k, node).next, next := At(k, cur).next)];
    k1[cur := At(k1, cur).(next := None)]
  }

  lemma TiltEnd(k0: Links, k: Links, z: Attributes, f: Forest, subs: Forest, rest: Forest, p: Option<Id>)
    requires f.Menu? && Distinct(f) && Absorbing(k0, k, z, f, subs, rest, p) && subs.Menu?
    ensures Last(subs) != f.id && Linked(Tilted(k, f.id, Last(subs)), Menu(f.id, subs, rest), p, None)
  {
    TiltDistinct(f, subs, rest);
    NextSibling(k0, k, z, f, subs, rest, p);
    DistinctParts(Menu(f.id, subs, rest));
    LastIn(subs);
    Tilt(k, f.id, subs, rest, p);
  }

  lemma TiltFrame(k0: Links, k: Links, z: Attributes, f: Forest, subs: Forest, rest: Forest, p: Option<Id>)
    requires f.Menu? && Distinct(f) && Absorbing(k0, k, z, f, subs, rest, p) && subs.Menu?
    ensures SameOutside(k0, Tilted(k, f.id, Last(subs)), Ids(f))
  {
    AppendIds(subs, rest);
    LastIn(subs);
    assert Last(subs) in Ids(f.next);
  }

  lemma BlockLinks(k0: Links, k: Links, z: Attributes, f: Forest, p: Option<Id>)
    requires f.Menu? && Distinct(f) && Linked(k0, f, p, None) && SameOutside(k0, k, Ids(f.list))
    requires Linked(k, Each(z, f.list), Some(f.id), None)
    ensures Linked(k, Menu(f.id, Each(z, f.list), f.next), p, None)
  {
    DistinctParts(f);
    EachFirst(z, f.list);
    LinkedFrame(k0, k, f.next, p, None);
  }

  lemma BelowDone(
      e0: Attributes, e1: Attributes, e2: Attributes, k0: Links, k: Links, a: Attributes, z: Attributes, f: Forest,
      p: Option<Id>, visibleIf: Expr, below: Expr)
    requires f.Menu? && Distinct(f) && !IsSymbol(z, f.id) && Job(e0, a, z, f, visibleIf)
    requires SamePropsOutside(e0, e1, Ids(f.list)) && Progress(e1, e2, a, z, f.list, Nil, below)
    requires Linked(k0, f, p, None) && SameOutside(k0, k, Ids(f.list)) && Linked(k, Each(z, f.list), Some(f.id), None)
    ensures Finalised(e0, e2, a, z, f) && Linked(k, Menu(f.id, Each(z, f.list), f.next), p, None)
    ensures SameOutside(k0, k, Ids(f))
  {
    ChildrenFinal(e0, e1, e2, a, z, f, visibleIf, below);
    BlockLinks(k0, k, z, f, p);
    BlockFrame(k0, k, f);
  }

  lemma BlockFrame(k0: Links, k: Links, f: Forest)
    requires f.Menu? && SameOutside(k0, k, Ids(f.list))
    ensures SameOutside(k0, k, Ids(f))
  {
    assert forall id :: id in Ids(f.list) ==> id in Ids(f);
  }

  // ----- The whole tree -----

  lemma {:induction false} SpreadPrompts(a: Attributes, props: map<Id, Props>, f: Forest, base: Expr, visibleIf: Expr)
    requires SamePrompts(a, a.(props := props))
    ensures SamePrompts(a, a.(props := Spread(a, props, f, base, visibleIf)))
    decreases f
  {
    if f.Menu? {
      var p := Propagated(a.Item(f.id), a.Of(f.id), base, visibleIf);
      var low, vis := BaseOf(a.Item(f.id), p), VisibleBelow(a, f.id, visibleIf);
      assert a.(props := props).Of(f.id).prompt.Some? == a.Of(f.id).prompt.Some?;
      PromptsFrame(a, a.(props := props), f.id, p);
      SpreadPrompts(a, props[f.id := p], f.list, low, vis);
      SpreadPrompts(a, Spread(a, props[f.id := p], f.list, low, vis), f.next, base, visibleIf);
    }
  }

  lemma {:induction false} LeafSame(a: Attributes, z: Attributes, f: Forest)
    requires a.item == z.item && SymbolsLeaf(a, f)
    ensures SymbolsLeaf(z, f)
  {
    if f.Menu? {
      LeafSame(a, z, f.list);
      LeafSame(a, z, f.next);
    }
  }

  lemma {:induction false} ItemsSame(a: Attributes, z: Attributes, f: Forest)
    requires a.item == z.item
    ensures Items(a, f) == Items(z, f)
  {
    if f.Menu? {
      ItemsSame(a, z, f.list);
      ItemsSame(a, z, f.next);
    }
  }

  /** The tree as the parser leaves it: one top menu without conditions */
  ghost predicate Parsed(a: Attributes, f: Forest) {
    && f.Menu? && f.next.Nil? && Distinct(f) && SymbolsLeaf(a, f) && IfsPromptless(a)
    && a.Item(f.id).MenuEntry? && a.Of(f.id).dep == Y && a.VisibleIf(f.id) == Y
  }

  /** The final attributes of a parsed tree */
  function Final(a: Attributes, f: Forest): Attributes
    requires f.Menu?
  {
    a.(props := Spread(a, a.props, f.list, Y, Y))
  }

  lemma FinalJob(a: Attributes, f: Forest)
    requires Parsed(a, f)
    ensures Settled(a, Final(a, f), f.list, Y, Y) && Job(a, a, Final(a, f), f, Y)
  {
    var z := Final(a, f);
    DistinctParts(f);
    SpreadSettles(a, a.props, f.list, Y, Y);
    SpreadPrompts(a, a.props, f.list, Y, Y);
    SpreadFrame(a, a.props, f.list, Y, Y, f.id);
    LeafSame(a, z, f);
    assert a.(props := a.props) == a;
  }

  lemma FinalSettled(a: Attributes, z: Attributes, e: Attributes, f: Forest)
    requires Parsed(a, f) && Settled(a, z, f.list, Y, Y) && z.item == a.item && Finalised(a, e, a, z, f)
    ensures SameProps(z, e, Ids(f)) && Settled(a, e, f.list, Y, Y)
  {
    assert forall id :: id in Ids(f.list) ==> id in Ids(f);
    SettledFrame(a, z, e, f.list, Y, Y);
  }

  lemma TopCopied(z: Attributes, f: Forest)
    requires f.Menu? && z.Item(f.id).MenuEntry?
    ensures Copied(z, f) == CopiedEach(z, f.list)
  {
    assert CopiedEach(z, f.list) + [] == CopiedEach(z, f.list);
  }

  lemma FinalWalk(a: Attributes, f: Forest)
    requires Parsed(a, f)
    ensures Pre(Kids(Final(a, f), f)) == Items(a, f.list)
  {
    var z := Final(a, f);
    FinalJob(a, f);
    forall id | IsIf(z, id) ensures Lifts(z, id) { LiftsSame(a, z, id); }
    FinalisedWalk(z, f);
    ItemsSame(a, z, f.list);
  }

  // ----- The walk -----

  /** Where the walk is below: the siblings from a parent on, and where those are */
  datatype Above = Top | Below(up: Forest, above: Above)

  function ParentOf(above: Above): Option<Id> { if above.Top? || above.up.Nil? then None else Some(above.up.id) }

  predicate LinkedAbove(k: Links, above: Above) {
    above.Below? ==> above.up.Menu? && Linked(k, above.up, ParentOf(above.above), None) && LinkedAbove(k, above.above)
  }

  /** What comes after everything below a place */
  function Later(above: Above): seq<Id> {
    if above.Top? || above.up.Nil? then [] else Pre(above.up.next) + Later(above.above)
  }

  /** The walk stands at the first node of `here` and has visited the nodes before and including it. */
  predicate Walking(k: Links, here: Forest, above: Above, visited: seq<Id>, all: seq<Id>) {
    && here.Menu? && Linked(k, here, ParentOf(above), None) && LinkedAbove(k, above)
    && visited + (Pre(here.list) + (Pre(here.next) + Later(above))) == all
  }

  lemma Visit(visited: seq<Id>, f: Forest, later: seq<Id>)
    requires f.Menu?
    ensures visited + (Pre(f) + later) == visited + [f.id] + (Pre(f.list) + (Pre(f.next) + later))
  {
    Regroup3([f.id], Pre(f.list), Pre(f.next), later);
    Regroup2(visited, [f.id], Pre(f.list) + (Pre(f.next) + later));
  }

  lemma Regroup2(a: seq<Id>, b: seq<Id>, c: seq<Id>)
    ensures a + (b + c) == a + b + c
  {
  }

  lemma Regroup3(a: seq<Id>, b: seq<Id>, c: seq<Id>, d: seq<Id>)
    ensures a + b + c + d == a + (b + (c + d))
  {
    Regroup2(a, b, c + d);
    Regroup2(a + b, c, d);
  }

  lemma WalkDown(k: Links, here: Forest, above: Above, visited: seq<Id>, all: seq<Id>)
    requires Walking(k, here, above, visited, all) && here.list.Menu?
    ensures Walking(k, here.list, Below(here, above), visited + [here.list.id], all)
  {
    Visit(visited, here.list, Pre(here.next) + Later(above));
  }

  lemma WalkOn(k: Links, here: Forest, above: Above, visited: seq<Id>, all: seq<Id>)
    requires here.Menu? && here.next.Menu? && Linked(k, here, ParentOf(above), None) && LinkedAbove(k, above)
    requires visited + (Pre(here.next) + Later(above)) == all
    ensures Walking(k, here.next, above, visited + [here.next.id], all)
  {
    Visit(visited, here.next, Later(above));
  }

  lemma WalkStart(k: Links, f: Forest)
    requires f.Menu? && f.next.Nil? && Linked(k, f, None, None)
    ensures Walking(k, f, Top, [], Pre(f.list))
  {
    assert [] + (Pre(f.list) + (Pre(f.next) + Later(Top))) == Pre(f.list);
  }

  /** The symbols of some nodes */
  function SymsIn(e: Attributes, ids: seq<Id>): set<SymName> { set id | id in ids && IsSymbol(e, id) :: e.Item(id).sym }

  /** The nodes without those of symbols that an earlier node has */
  function FirstNodes(e: Attributes, ids: seq<Id>): seq<Id> {
    if ids == [] then []
    else
      var front, last := ids[..|ids| - 1], ids[|ids| - 1];
      FirstNodes(e, front) + (if IsSymbol(e, last) && e.Item(last).sym in SymsIn(e, front) then [] else [last])
  }

  lemma FirstNodesSnoc(e: Attributes, ids: seq<Id>, id: Id)
    ensures FirstNodes(e, ids + [id]) ==
      if IsSymbol(e, id) && e.Item(id).sym in SymsIn(e, ids) then FirstNodes(e, ids) else FirstNodes(e, ids) + [id]
    ensures SymsIn(e, ids + [id]) == SymsIn(e, ids) + if IsSymbol(e, id) then {e.Item(id).sym} else {}
  {
    assert (ids + [id])[..|ids|] == ids;
  }

  /** Each symbol is there once, with its first node. */
  lemma {:induction false} FirstNodesUnique(e: Attributes, ids: seq<Id>)
    ensures SymsIn(e, FirstNodes(e, ids)) == SymsIn(e, ids)
    ensures forall id :: id in FirstNodes(e, ids) ==> id in ids
    ensures forall id :: id in ids && !IsSymbol(e, id) ==> id in FirstNodes(e, ids)
    ensures forall i, j :: 0 <= i < j < |FirstNodes(e, ids)| && IsSymbol(e, FirstNodes(e, ids)[i]) ==>
              e.Item(FirstNodes(e, ids)[i]) != e.Item(FirstNodes(e, ids)[j])
  {
    if ids != [] {
      var front, last := ids[..|ids| - 1], ids[|ids| - 1];
      assert ids == front + [last];
      FirstNodesUnique(e, front);
      FirstNodesSnoc(e, front, last);
      var fs := FirstNodes(e, front);
      forall i | 0 <= i < |fs| && IsSymbol(e, fs[i]) ensures e.Item(fs[i]).sym in SymsIn(e, front) {
        assert fs[i] in fs && e.Item(fs[i]).sym in SymsIn(e, fs);
      }
      if FirstNodes(e, ids) != fs { FirstNodesSnoc(e, fs, last); }
    }
  }

  // ----- Copying, alongside -----

  /** What is copied for a node before and after its children are put in order */
  function BelowCopied(e: Attributes, f: Forest): (r: seq<Step>)
    requires f.Menu?
    ensures AllFit(e, r)
  {
    if IsSymbol(e, f.id) then [SymStep(f.id)] + CopiedSubs(e, f.id, f.next) else CopiedEach(e, f.list)
  }

  function OwnChoice(e: Attributes, f: Forest): (r: seq<Step>)
    requires f.Menu?
    ensures AllFit(e, r)
  {
    if e.Item(f.id).ChoiceEntry? then [ChoiceStep(f.id, Kids(e, f))] else []
  }

  /** The node itself has its final expressions. */
  lemma OwnFinal(e: Attributes, z: Attributes, f: Forest)
    requires f.Menu? && Distinct(f) && FinalExcept(e, z, Ids(f), Ids(Rest(z, f)))
    ensures e.Of(f.id) == z.Of(f.id)
  {
    RestSuffix(z, f);
    SuffixIds(Rest(z, f), f.next);
    DistinctParts(f);
    SomeId(f);
  }

  lemma CopiedParts(b: Builds, e: Attributes, f: Forest)
    requires f.Menu?
    ensures ApplyAll(b, e, Copied(e, f)) == ApplyAll(ApplyAll(b, e, BelowCopied(e, f)), e, OwnChoice(e, f))
  {
    ApplyConcat(b, e, BelowCopied(e, f), OwnChoice(e, f));
    if IsSymbol(e, f.id) { assert BelowCopied(e, f) + [] == BelowCopied(e, f); }
  }

  lemma SubsStep(b: Builds, e: Attributes, id: Id, f: Forest)
    requires f.Menu? && Submenu(e, id, f.id)
    ensures ApplyAll(b, e, CopiedSubs(e, id, f)) == ApplyAll(ApplyAll(b, e, Copied(e, f)), e, CopiedSubs(e, id, Rest(e, f)))
  {
    ApplyConcat(b, e, Copied(e, f), CopiedSubs(e, id, Rest(e, f)));
  }

  lemma EachStep(b: Builds, e: Attributes, f: Forest)
    requires f.Menu?
    ensures ApplyAll(b, e, CopiedEach(e, f)) == ApplyAll(ApplyAll(b, e, Copied(e, f)), e, CopiedEach(e, Rest(e, f)))
  {
    ApplyConcat(b, e, Copied(e, f), CopiedEach(e, Rest(e, f)));
  }

  lemma NodeSame(b: Builds, e: Attributes, z: Attributes, id: Id)
    requires e.item == z.item && e.Of(id) == z.Of(id) && IsSymbol(z, id)
    ensures AddNode(b, e, id) == AddNode(b, z, id)
  {
  }

  lemma {:induction false} MembersSame(b: Builds, e: Attributes, z: Attributes, c: ChoiceId, kids: Forest)
    requires e.item == z.item
    ensures AddMembers(b, e, c, kids) == AddMembers(b, z, c, kids)
    decreases kids
  {
    if kids.Menu? {
      MembersSame(if IsSymbol(e, kids.id) then AddMember(b, c, e.Item(kids.id).sym) else b, e, z, c, kids.next);
    }
  }

  lemma ChoiceSame(b: Builds, e: Attributes, z: Attributes, id: Id, kids: Forest)
    requires e.item == z.item && e.Of(id) == z.Of(id) && z.Item(id).ChoiceEntry?
    ensures Apply(b, e, ChoiceStep(id, kids)) == ApplyAll(b, z, [ChoiceStep(id, kids)])
  {
    MembersSame(AddToChoice(b, z.Item(id).choice, z.Of(id)), e, z, z.Item(id).choice, kids);
    assert [ChoiceStep(id, kids)][1..] == [];
  }

  lemma SymCopied(b: Builds, e: Attributes, f: Forest)
    requires f.Menu? && IsSymbol(e, f.id)
    ensures ApplyAll(b, e, BelowCopied(e, f)) == ApplyAll(AddNode(b, e, f.id), e, CopiedSubs(e, f.id, f.next))
  {
    assert BelowCopied(e, f)[1..] == CopiedSubs(e, f.id, f.next);
  }

  class Menus {
    const item: map<Id, Entry>
    const visibility: map<Id, Expr>
    var props: map<Id, Props>
    var links: Links
    /** The symbols' and choices' own fields */
    var builds: Builds

    constructor (item: map<Id, Entry>, visibility: map<Id, Expr>, props: map<Id, Props>, links: Links, kinds: Kinds)
      ensures this.item == item && this.visibility == visibility && this.props == props && this.links == links
      ensures builds == Start(kinds)
    {
      this.item, this.visibility, this.props, this.links, builds := item, visibility, props, links, Start(kinds);
    }

    function Attrs(): Attributes
      reads this
    {
      Attributes(item, props, visibility)
    }

    /** The inner loop of `_flatten`: the children get a new parent. */
    method Reparent(first: Id, p: Option<Id>, ghost f: Forest, ghost q: Option<Id>) returns (last: Id)
      requires f.Menu? && first == f.id && Distinct(f) && Linked(links, f, q, None)
      modifies this`links
      ensures Linked(links, f, p, None) && last == Last(f)
      ensures SameOutside(old(links), links, Ids(f))
    {
      last := first;
      ghost var done, todo := Nil, f;
      while true
        invariant Reparenting(old(links), links, f, done, todo, p, q) && todo.id == last
        decreases todo
      {
        ReparentStep(old(links), links, f, done, todo, p, q);
        AppendMoves(done, last, todo.list, todo.next);
        links := links[last := At(links, last).(parent := p)];
        if At(links, last).next.None? {
          AppendNil(Append(done, Menu(last, todo.list, Nil)));
          break;
        }
        done, todo := Append(done, Menu(last, todo.list, Nil)), todo.next;
        last := At(links, last).next.value;
      }
    }

    /** The body of the loop of `_flatten` for a node that does not keep its children */
    method Lift(id: Id, ghost done: Forest, ghost todo: Forest, ghost p: Option<Id>)
      requires todo.Menu? && todo.id == id && todo.list.Menu? && Distinct(Append(done, todo))
      requires Linked(links, done, p, Some(id)) && Linked(links, todo, p, None)
      modifies this`links
      ensures Linked(links, Append(todo.list, todo.next), p, None)
      ensures Linked(links, Append(done, Menu(id, Nil, Nil)), p, Some(todo.list.id))
      ensures SameOutside(old(links), links, Ids(Append(done, todo)))
      ensures At(links, id).next == Some(todo.list.id)
    {
      ghost var k := links;
      Separate(done, todo);
      var last := Reparent(At(links, id).list.value, At(links, id).parent, todo.list, Some(id));
      ghost var k1 := links;
      LiftKids(k, k1, done, todo, p);
      assert At(k1, id) == At(k, id);
      links := links[last := At(links, last).(next := At(links, id).next)];
      LiftNode(links, done, todo, p);
      LastIn(todo.list);
      links := links[id := At(links, id).(next := At(links, id).list, list := None)];
      LiftFrame(k, k, k1, Ids(Append(done, todo)), done, todo, At(k1, last).(next := At(k1, id).next), At(links, id));
    }

    /** The body of the loop of `_flatten` */
    method FlattenNode(
        id: Id, ghost k0: Links, ghost f: Forest, ghost done: Forest, ghost todo: Forest, ghost p: Option<Id>)
      returns (node: Option<Id>, ghost done': Forest, ghost todo': Forest)
      requires Distinct(f) && Flattening(k0, links, Attrs(), f, done, todo, p) && todo.Menu? && todo.id == id
      modifies this`links
      ensures Flattening(k0, links, Attrs(), f, done', todo', p) && node == First(todo', None)
      ensures Size(todo') < Size(todo)
    {
      if At(links, id).list.Some? && Lifts(Attrs(), id) {
        ghost var k := links;
        SameIdsDistinct(f, Append(done, todo));
        Lift(id, done, todo, p);
        FlattenLifted(k0, k, links, Attrs(), f, done, todo, p);
        AppendSize(todo.list, todo.next);
        done', todo' := Append(done, Menu(id, Nil, Nil)), Append(todo.list, todo.next);
      } else {
        FlattenKept(k0, links, Attrs(), f, done, todo, p);
        done', todo' := Append(done, Menu(id, todo.list, Nil)), todo.next;
      }
      node := At(links, id).next;
    }

    /** `_flatten` */
    method Flatten(first: Option<Id>, ghost f: Forest, ghost p: Option<Id>)
      requires first == First(f, None) && Distinct(f) && Linked(links, f, p, None)
      modifies this`links
      ensures Linked(links, Flat(Attrs(), f), p, None)
      ensures SameOutside(old(links), links, Ids(f))
    {
      var node := first;
      ghost var done, todo := Nil, f;
      FlattenStart(links, Attrs(), f, p);
      while node.Some?
        invariant Flattening(old(links), links, Attrs(), f, done, todo, p) && node == First(todo, None)
        decreases Size(todo)
      {
        node, done, todo := FlattenNode(node.value, old(links), f, done, todo, p);
      }
      FlattenEnd(old(links), links, Attrs(), f, done, p);
    }

    /** The loops of `_remove_ifs` that pass over `if` nodes */
    method SkipIfs(first: Option<Id>, ghost f: Forest, ghost p: Option<Id>) returns (cur: Option<Id>)
      requires first == First(f, None) && Linked(links, f, p, None)
      ensures cur == First(Skip(Attrs(), f), None)
    {
      cur := first;
      ghost var todo := f;
      while cur.Some? && IsIf(Attrs(), cur.value)
        invariant cur == First(todo, None) && Linked(links, todo, p, None) && Skip(Attrs(), todo) == Skip(Attrs(), f)
        decreases todo
      {
        cur := At(links, cur.value).next;
        todo := todo.next;
      }
    }

    /** `_remove_ifs` */
    method RemoveIfs(node: Id, ghost f: Forest)
      requires At(links, node).list == First(f, None) && Linked(links, f, Some(node), None)
      requires Distinct(f) && node !in Ids(f)
      modifies this`links
      ensures Linked(links, Kept(Attrs(), f), Some(node), None)
      ensures At(links, node) == old(At(links, node)).(list := First(Kept(Attrs(), f), None))
      ensures SameOutside(old(links)[node := At(links, node)], links, Ids(f))
    {
      ghost var p := Some(node);
      var cur := SkipIfs(At(links, node).list, f, p);
      ghost var done, todo := Nil, Skip(Attrs(), f);
      SkipSpec(Attrs(), f);
      SkipLinked(links, Attrs(), f, p);
      LinkedApart(links, node, At(links, node).(list := cur), todo, p, None);
      links := links[node := At(links, node).(list := cur)];
      ghost var k0 := links;
      assert First(Kept(Attrs(), todo), None) == cur;
      while cur.Some?
        invariant Removing(k0, links, Attrs(), f, done, todo, p) && cur == First(todo, None)
        decreases Size(todo)
      {
        var next := SkipIfs(At(links, cur.value).next, todo.next, p);
        RemoveStep(k0, links, Attrs(), f, done, todo, p);
        SkipSpec(Attrs(), todo.next);
        links := links[cur.value := At(links, cur.value).(next := next)];
        done, todo := Append(done, Menu(todo.id, todo.list, Nil)), Skip(Attrs(), todo.next);
        cur := next;
      }
      AppendNil(done);
    }

    /** `_propagate_deps` */
    method PropagateDeps(node: Id, visibleIf: Expr, ghost f: Forest, ghost a: Attributes, ghost z: Attributes)
      requires At(links, node).list == First(f, None)
      requires Linked(links, f, Some(node), None) && Distinct(f) && node !in Ids(f)
      requires a.item == item && SameProps(a, Attrs(), Ids(f))
      requires Settled(a, z, f, BaseOf(Attrs().Item(node), Attrs().Of(node)), visibleIf)
      modifies this`props
      ensures Ready(Attrs(), a, z, f)
      ensures SamePropsOutside(old(Attrs()), Attrs(), Ids(f)) && SamePrompts(old(Attrs()), Attrs())
    {
      var base := BaseOf(Attrs().Item(node), Attrs().Of(node));
      var cur := At(links, node).list;
      ghost var done, todo := Nil, f;
      while cur.Some?
        invariant Propagating(old(Attrs()), Attrs(), a, z, f, done, todo, base, visibleIf)
        invariant cur == First(todo, None) && Linked(links, todo, Some(node), None)
        decreases todo
      {
        var id := cur.value;
        PropagateStep(old(Attrs()), Attrs(), a, z, f, done, todo, base, visibleIf);
        props := props[id := Propagated(Attrs().Item(id), Attrs().Of(id), base, visibleIf)];
        done, todo := Append(done, Menu(id, todo.list, Nil)), todo.next;
        cur := At(links, id).next;
      }
      AppendNil(done);
    }

    /** The last steps of `_finalize_node` for the level below a node */
    method FinalizeLevel(node: Id, ghost below: Forest, ghost rest: Forest, ghost p: Option<Id>)
      requires Linked(links, Menu(node, below, rest), p, None) && Distinct(Menu(node, below, rest))
      modifies this`links
      ensures Linked(links, Menu(node, Level(Attrs(), below), rest), p, None)
      ensures SameOutside(old(links), links, Ids(Menu(node, below, rest)))
    {
      if At(links, node).list.Some? {
        ghost var k0, e := links, Attrs();
        DistinctParts(Menu(node, below, rest));
        Flatten(At(links, node).list, below, Some(node));
        ghost var k1 := links;
        LevelLinks(k0, k1, node, below, rest, p);
        FlatIds(e, below);
        FlatFirst(e, below);
        SameIdsDistinct(below, Flat(e, below));
        RemoveIfs(node, Flat(e, below));
        LevelEnd(k0, k1, links, e, node, below, rest, p);
        LevelFrame(k0, k1, links, node, below, rest);
      }
    }

    /** `_add_props_to_sym` */
    method AddPropsToSym(node: Id)
      requires IsSymbol(Attrs(), node)
      modifies this`builds
      ensures builds == AddNode(old(builds), Attrs(), node)
    {
      var s, p := item[node].sym, Attrs().Of(node);
      builds := AddOwn(builds, s, p);
      ghost var b := builds;
      for i := 0 to |p.adds|
        invariant AddReverses(builds, s, p.adds[i..]) == AddReverses(b, s, p.adds)
      {
        assert p.adds[i..][1..] == p.adds[i + 1..];
        builds := AddReverse(builds, s, p.adds[i]);
      }
    }

    /** The last steps of `_finalize_node` for a choice, and `_finalize_choice` */
    method FinalizeChoice(node: Id, ghost kids: Forest, ghost p: Option<Id>)
      requires Attrs().Item(node).ChoiceEntry?
      requires At(links, node).list == First(kids, None) && Linked(links, kids, p, None)
      modifies this`builds
      ensures builds == Apply(old(builds), Attrs(), ChoiceStep(node, kids))
    {
      var c := item[node].choice;
      builds := AddToChoice(builds, c, Attrs().Of(node));
      ghost var b, todo := builds, kids;
      var cur := At(links, node).list;
      while cur.Some?
        invariant cur == First(todo, None) && Linked(links, todo, p, None)
        invariant AddMembers(builds, Attrs(), c, todo) == AddMembers(b, Attrs(), c, kids)
        decreases todo
      {
        if IsSymbol(Attrs(), cur.value) {
          builds := AddMember(builds, c, item[cur.value].sym);
        }
        cur := At(links, cur.value).next;
        todo := todo.next;
      }
      DetermineTypes(c);
    }

    /** The second and third loop of `_finalize_choice` */
    method DetermineTypes(c: ChoiceId)
      modifies this`builds
      ensures builds == GiveTypes(old(builds), c)
    {
      var syms := builds.Choice(c).syms;
      var k := builds.Choice(c).kind;
      if k == Unknown {
        k := FirstType(syms);
      }
      builds := builds.(choices := builds.choices[c := builds.Choice(c).(kind := k)]);
      ghost var b := builds;
      for i := 0 to |syms|
        invariant WithKinds(builds, syms[i..], k) == WithKinds(b, syms, k)
      {
        assert syms[i..][1..] == syms[i + 1..];
        builds := WithKind(builds, syms[i], k);
      }
    }

    method FirstType(syms: seq<SymName>) returns (k: Kind)
      ensures k == FirstKind(builds, syms)
    {
      for i := 0 to |syms|
        invariant FirstKind(builds, syms[i..]) == FirstKind(builds, syms)
      {
        assert syms[i..][1..] == syms[i + 1..];
        if builds.Of(syms[i]).kind != Unknown {
          return builds.Of(syms[i]).kind;
        }
      }
      k := Unknown;
    }

    /** One of the siblings that depend on a symbol */
    method TakeDependent(
        node: Id, id: Id, visibleIf: Expr, ghost w: Taker, ghost subs: Forest, ghost rest: Forest, ghost cur: Id)
      requires Taking(w, links, Attrs(), subs, rest, cur) && Distinct(w.f) && w.f.id == node && w.visibleIf == visibleIf
      requires rest.Menu? && rest.id == id && Submenu(w.z, node, id) && Size(rest) < Size(w.f)
      modifies this`links, this`props, this`builds
      ensures Taking(w, links, Attrs(), Append(subs, Menu(id, Kids(w.z, rest), Nil)), Rest(w.z, rest), id)
      ensures builds == ApplyAll(old(builds), w.z, Copied(w.z, rest))
      decreases Size(w.f), 0
    {
      ghost var k, e := links, Attrs();
      TakeReady(w, k, e, subs, rest, cur);
      ghost var k1 := FinalizeUnder(node, id, visibleIf, rest, w.p, w.a, w.z);
      TakeStep(w, k, k1, e, Attrs(), subs, rest, cur);
    }

    /** A node is finalised with the links `k1`, and then gets the parent `node`. */
    method FinalizeUnder(
        node: Id, id: Id, visibleIf: Expr, ghost f: Forest, ghost p: Option<Id>, ghost a: Attributes,
        ghost z: Attributes)
      returns (ghost k1: Links)
      requires f.Menu? && f.id == id && Distinct(f) && Linked(links, f, p, None) && Job(Attrs(), a, z, f, visibleIf)
      modifies this`links, this`props, this`builds
      ensures Linked(k1, Menu(id, Kids(z, f), Rest(z, f)), p, None) && SameOutside(old(links), k1, Ids(f))
      ensures Finalised(old(Attrs()), Attrs(), a, z, f)
      ensures links == k1[id := At(k1, id).(parent := Some(node))]
      ensures builds == ApplyAll(old(builds), z, Copied(z, f))
      decreases Size(f), 6
    {
      FinalizeNode(id, visibleIf, f, p, a, z);
      k1 := links;
      ghost var e1 := Attrs();
      links := links[id := At(links, id).(parent := Some(node))];
      assert Attrs() == e1;
    }

    /** The loop over the siblings that depend on a symbol */
    method TakeAll(node: Id, visibleIf: Expr, ghost w: Taker) returns (cur: Id, ghost subs: Forest, ghost rest: Forest)
      requires w.f.Menu? && w.f.id == node && w.f.list.Nil? && Distinct(w.f) && Linked(links, w.f, w.p, None)
      requires w.k == links && w.e == Attrs() && w.visibleIf == visibleIf && Job(w.e, w.a, w.z, w.f, visibleIf)
      modifies this`links, this`props, this`builds
      ensures Taking(w, links, Attrs(), subs, rest, cur)
      ensures rest.Nil? || !Submenu(w.z, node, rest.id)
      ensures builds == ApplyAll(old(builds), w.z, CopiedSubs(w.z, node, w.f.next))
      decreases Size(w.f), 1
    {
      cur, subs, rest := node, Nil, w.f.next;
      TakeStart(w);
      while At(links, cur).next.Some? && Submenu(Attrs(), node, At(links, cur).next.value)
        invariant Taking(w, links, Attrs(), subs, rest, cur)
        invariant Size(rest) < Size(w.f)
        invariant ApplyAll(builds, w.z, CopiedSubs(w.z, node, rest)) ==
          ApplyAll(old(builds), w.z, CopiedSubs(w.z, node, w.f.next))
        decreases Size(rest)
      {
        ghost var last := cur;
        cur := At(links, cur).next.value;
        SubsStep(builds, w.z, node, rest);
        TakeDependent(node, cur, visibleIf, w, subs, rest, last);
        subs, rest := Append(subs, Menu(cur, Kids(w.z, rest), Nil)), Rest(w.z, rest);
      }
    }

    /** `_finalize_node` for a symbol: siblings that depend on it are finalised and become its children. */
    method TakeDependents(
        node: Id, visibleIf: Expr, ghost f: Forest, ghost p: Option<Id>, ghost a: Attributes, ghost z: Attributes)
      requires f.Menu? && f.id == node && Distinct(f) && Linked(links, f, p, None) && Job(Attrs(), a, z, f, visibleIf)
      requires IsSymbol(z, node)
      modifies this`links, this`props, this`builds
      ensures Linked(links, Menu(node, Submenus(z, node, f.next), Rest(z, f)), p, None)
      ensures SameOutside(old(links), links, Ids(f))
      ensures Progress(old(Attrs()), Attrs(), a, z, f.next, Rest(z, f), visibleIf)
      ensures builds == ApplyAll(old(builds), z, CopiedSubs(z, node, f.next))
      decreases Size(f), 2
    {
      var cur;
      ghost var subs, rest;
      cur, subs, rest := TakeAll(node, visibleIf, Taker(links, Attrs(), a, z, f, p, visibleIf));
      AbsorbEnd(old(links), links, z, f, subs, rest, p);
      TiltUp(node, cur, old(links), f, subs, rest, p, z);
    }

    /** `_finalize_node` for a symbol: the siblings taken become children. */
    method TiltUp(
        node: Id, cur: Id, ghost k0: Links, ghost f: Forest, ghost subs: Forest, ghost rest: Forest,
        ghost p: Option<Id>, ghost z: Attributes)
      requires f.Menu? && f.id == node && Distinct(f) && Absorbing(k0, links, z, f, subs, rest, p)
      requires cur == if subs.Nil? then node else Last(subs)
      modifies this`links
      ensures Linked(links, Menu(node, subs, rest), p, None) && SameOutside(k0, links, Ids(f))
    {
      if subs.Menu? {
        TiltEnd(k0, links, z, f, subs, rest, p);
        TiltFrame(k0, links, z, f, subs, rest, p);
      }
      if cur != node {
        links := links[node := At(links, node).(list := At(links, node).next, next := At(links, cur).next)];
        links := links[cur := At(links, cur).(next := None)];
      }
    }

    /** `_finalize_node` for the children of a menu, choice or `if` */
    method FinalizeChildren(node: Id, visibleIf: Expr, ghost f: Forest, ghost a: Attributes, ghost z: Attributes)
      requires At(links, node).list == First(f, None) && Distinct(f) && Linked(links, f, Some(node), None)
      requires Job(Attrs(), a, z, f, visibleIf)
      modifies this`links, this`props, this`builds
      ensures Linked(links, Each(z, f), Some(node), None)
      ensures SameOutside(old(links), links, Ids(f))
      ensures Progress(old(Attrs()), Attrs(), a, z, f, Nil, visibleIf)
      ensures builds == ApplyAll(old(builds), z, CopiedEach(z, f))
      decreases Size(f), 7
    {
      var cur := At(links, node).list;
      ghost var done, todo := Nil, f;
      FinalisingStart(links, z, f, Some(node));
      ProgressStart(Attrs(), a, z, f, visibleIf);
      while cur.Some?
        invariant Finalising(old(links), links, z, f, done, todo, Some(node)) && cur == First(todo, None)
        invariant Progress(old(Attrs()), Attrs(), a, z, f, todo, visibleIf) && Size(todo) <= Size(f)
        invariant ApplyAll(builds, z, CopiedEach(z, todo)) == ApplyAll(old(builds), z, CopiedEach(z, f))
        decreases Size(todo)
      {
        EachStep(builds, z, todo);
        cur := FinalizeChild(cur.value, visibleIf, old(links), old(Attrs()), f, done, todo, Some(node), a, z);
        done, todo := Append(done, Menu(todo.id, Kids(z, todo), Nil)), Rest(z, todo);
      }
      FinalisingEnd(old(links), links, z, f, done, Some(node));
    }

    /** One of the children; returns the next. */
    method FinalizeChild(
        id: Id, visibleIf: Expr, ghost k0: Links, ghost e0: Attributes, ghost f: Forest, ghost done: Forest,
        ghost todo: Forest, ghost p: Option<Id>, ghost a: Attributes, ghost z: Attributes)
      returns (next: Option<Id>)
      requires Distinct(f) && todo.Menu? && todo.id == id && Size(todo) <= Size(f)
      requires Finalising(k0, links, z, f, done, todo, p) && Progress(e0, Attrs(), a, z, f, todo, visibleIf)
      modifies this`links, this`props, this`builds
      ensures Finalising(k0, links, z, f, Append(done, Menu(id, Kids(z, todo), Nil)), Rest(z, todo), p)
      ensures Progress(e0, Attrs(), a, z, f, Rest(z, todo), visibleIf) && next == First(Rest(z, todo), None)
      ensures builds == ApplyAll(old(builds), z, Copied(z, todo))
      decreases Size(f), 6
    {
      ghost var k, e := links, Attrs();
      SameIdsDistinct(f, Append(done, todo));
      DistinctAppend(done, todo);
      FinalizeNode(id, visibleIf, todo, p, a, z);
      FinalisingStep(k0, k, links, z, f, done, todo, p);
      ProgressStep(e0, e, Attrs(), a, z, f, todo, visibleIf);
      next := At(links, id).next;
    }

    /** `_finalize_node` */
    method FinalizeNode(
        node: Id, visibleIf: Expr, ghost f: Forest, ghost p: Option<Id>, ghost a: Attributes, ghost z: Attributes)
      requires f.Menu? && f.id == node && Distinct(f) && Linked(links, f, p, None) && Job(Attrs(), a, z, f, visibleIf)
      modifies this`links, this`props, this`builds
      ensures Linked(links, Menu(node, Kids(z, f), Rest(z, f)), p, None)
      ensures SameOutside(old(links), links, Ids(f))
      ensures Finalised(old(Attrs()), Attrs(), a, z, f)
      ensures builds == ApplyAll(old(builds), z, Copied(z, f))
      decreases Size(f), 5
    {
      FinalizeLinks(node, visibleIf, f, p, a, z);
      assert Attrs().Of(node) == z.Of(node) by { OwnFinal(Attrs(), z, f); }
      FinishChoice(node, f, p, z);
      CopiedParts(old(builds), z, f);
    }

    /** All of `_finalize_node` but its end */
    method FinalizeLinks(
        node: Id, visibleIf: Expr, ghost f: Forest, ghost p: Option<Id>, ghost a: Attributes, ghost z: Attributes)
      requires f.Menu? && f.id == node && Distinct(f) && Linked(links, f, p, None) && Job(Attrs(), a, z, f, visibleIf)
      modifies this`links, this`props, this`builds
      ensures Linked(links, Menu(node, Kids(z, f), Rest(z, f)), p, None)
      ensures SameOutside(old(links), links, Ids(f))
      ensures Finalised(old(Attrs()), Attrs(), a, z, f)
      ensures builds == ApplyAll(old(builds), z, BelowCopied(z, f))
      decreases Size(f), 4
    {
      FinalizeItem(node, visibleIf, f, p, a, z);
      FinalizeLower(node, f, p, old(links), z);
    }

    method FinalizeLower(node: Id, ghost f: Forest, ghost p: Option<Id>, ghost k0: Links, ghost z: Attributes)
      requires f.Menu? && f.id == node && Distinct(f) && SymbolsLeaf(z, f) && SameNodes(Attrs(), Attrs(), z)
      requires Linked(links, Menu(node, Lower(z, f), Rest(z, f)), p, None) && SameOutside(k0, links, Ids(f))
      modifies this`links
      ensures Linked(links, Menu(node, Kids(z, f), Rest(z, f)), p, None) && SameOutside(k0, links, Ids(f))
    {
      ghost var k := links;
      BelowIds(z, f);
      FinalizeLevel(node, Lower(z, f), Rest(z, f), p);
      LevelSame(Attrs(), z, Lower(z, f));
      OutsideTrans(k0, k, links, Ids(f), Ids(Menu(node, Lower(z, f), Rest(z, f))));
    }

    /** The part of `_finalize_node` that comes last, for a choice */
    method FinishChoice(node: Id, ghost f: Forest, ghost p: Option<Id>, ghost z: Attributes)
      requires f.Menu? && f.id == node && Linked(links, Menu(node, Kids(z, f), Rest(z, f)), p, None)
      requires z.item == item && Attrs().Of(node) == z.Of(node)
      modifies this`builds
      ensures builds == ApplyAll(old(builds), z, OwnChoice(z, f))
    {
      if Attrs().Item(node).ChoiceEntry? {
        FinalizeChoice(node, Kids(z, f), Some(node));
        ChoiceSame(old(builds), Attrs(), z, node, Kids(z, f));
      }
    }

    /** The part of `_finalize_node` that depends on the item */
    method FinalizeItem(
        node: Id, visibleIf: Expr, ghost f: Forest, ghost p: Option<Id>, ghost a: Attributes, ghost z: Attributes)
      requires f.Menu? && f.id == node && Distinct(f) && Linked(links, f, p, None) && Job(Attrs(), a, z, f, visibleIf)
      modifies this`links, this`props, this`builds
      ensures Linked(links, Menu(node, Lower(z, f), Rest(z, f)), p, None)
      ensures SameOutside(old(links), links, Ids(f))
      ensures Finalised(old(Attrs()), Attrs(), a, z, f)
      ensures builds == ApplyAll(old(builds), z, BelowCopied(z, f))
      decreases Size(f), 3
    {
      if IsSymbol(Attrs(), node) {
        AddPropsToSym(node);
        NodeSame(old(builds), Attrs(), z, node);
        TakeDependents(node, visibleIf, f, p, a, z);
        SymCopied(old(builds), z, f);
        DependentsFinal(old(Attrs()), Attrs(), a, z, f, visibleIf);
      } else {
        FinalizeBlock(node, visibleIf, f, p, a, z);
      }
    }

    /** The part of `_finalize_node` for a menu, choice or `if` */
    method FinalizeBlock(
        node: Id, visibleIf: Expr, ghost f: Forest, ghost p: Option<Id>, ghost a: Attributes, ghost z: Attributes)
      requires f.Menu? && f.id == node && Distinct(f) && Linked(links, f, p, None) && Job(Attrs(), a, z, f, visibleIf)
      requires !IsSymbol(z, node)
      modifies this`links, this`props, this`builds
      ensures Linked(links, Menu(node, Each(z, f.list), f.next), p, None)
      ensures SameOutside(old(links), links, Ids(f))
      ensures Finalised(old(Attrs()), Attrs(), a, z, f)
      ensures builds == ApplyAll(old(builds), z, CopiedEach(z, f.list))
      decreases Size(f), 1
    {
      if At(links, node).list.Some? {
        FinalizeBelow(node, VisibleBelow(Attrs(), node, visibleIf), visibleIf, f, p, a, z);
      } else {
        BlockEmpty(Attrs(), a, z, f, visibleIf);
      }
    }

    /** The children of a menu, choice or `if`, with what is passed down to them */
    method FinalizeBelow(
        node: Id, below: Expr, ghost visibleIf: Expr, ghost f: Forest, ghost p: Option<Id>, ghost a: Attributes,
        ghost z: Attributes)
      requires f.Menu? && f.id == node && Distinct(f) && Linked(links, f, p, None) && Job(Attrs(), a, z, f, visibleIf)
      requires !IsSymbol(z, node) && below == VisibleBelow(Attrs(), node, visibleIf)
      modifies this`links, this`props, this`builds
      ensures Linked(links, Menu(node, Each(z, f.list), f.next), p, None)
      ensures SameOutside(old(links), links, Ids(f))
      ensures Finalised(old(Attrs()), Attrs(), a, z, f)
      ensures builds == ApplyAll(old(builds), z, CopiedEach(z, f.list))
      decreases Size(f), 0
    {
      ghost var e0, k := Attrs(), links;
      DistinctParts(f);
      PropagateDeps(node, below, f.list, a, z);
      ghost var e1 := Attrs();
      BlockJob(e0, e1, a, z, f, visibleIf);
      FinalizeChildren(node, below, f.list, a, z);
      BelowDone(e0, e1, Attrs(), k, links, a, z, f, p, visibleIf, below);
    }

    /** The inner loop of `node_iter`: up to the next parent that has a successor, and on to that; None at the top */
    method Climb(start: Id, ghost here: Forest, ghost above: Above, ghost visited: seq<Id>, ghost all: seq<Id>)
      returns (node: Option<Id>, ghost here': Forest, ghost above': Above)
      requires here.Menu? && here.id == start && Linked(links, here, ParentOf(above), None) && LinkedAbove(links, above)
      requires visited + Later(above) == all
      ensures node.None? ==> visited == all
      ensures node.Some? ==> Walking(links, here', above', visited + [node.value], all) && here'.id == node.value
    {
      var cur := start;
      here', above' := here, above;
      while At(links, cur).parent.Some?
        invariant here'.Menu? && here'.id == cur
        invariant Linked(links, here', ParentOf(above'), None) && LinkedAbove(links, above')
        invariant visited + Later(above') == all
        decreases above'
      {
        cur := At(links, cur).parent.value;
        here', above' := above'.up, above'.above;
        if At(links, cur).next.Some? {
          WalkOn(links, here', above', visited, all);
          here' := here'.next;
          return At(links, cur).next, here', above';
        }
      }
      node := None;
    }

    /** The loop of `node_iter`: one step of the walk; None at the end */
    method NextNode(node: Id, ghost here: Forest, ghost above: Above, ghost visited: seq<Id>, ghost all: seq<Id>)
      returns (next: Option<Id>, ghost here': Forest, ghost above': Above)
      requires Walking(links, here, above, visited, all) && here.id == node
      ensures next.None? ==> visited == all
      ensures next.Some? ==> Walking(links, here', above', visited + [next.value], all) && here'.id == next.value
    {
      if At(links, node).list.Some? {
        WalkDown(links, here, above, visited, all);
        return At(links, node).list, here.list, Below(here, above);
      }
      if At(links, node).next.Some? {
        WalkOn(links, here, above, visited, all);
        return At(links, node).next, here.next, above;
      }
      next, here', above' := Climb(node, here, above, visited, all);
    }

    /** `node_iter`: every node but the top, in the order of the walk, without recursion. With `uniqueSyms` only the first
        node of each symbol is yielded. */
    method NodeIter(top: Id, uniqueSyms: bool, ghost f: Forest) returns (yielded: seq<Id>)
      requires f.Menu? && f.id == top && f.next.Nil? && Linked(links, f, None, None)
      ensures yielded == if uniqueSyms then FirstNodes(Attrs(), Pre(f.list)) else Pre(f.list)
    {
      yielded := [];
      var node := top;
      var visitedSyms: set<SymName> := {};
      ghost var here, above, all, visited: seq<Id> := f, Top, Pre(f.list), [];
      WalkStart(links, f);
      while true
        invariant Walking(links, here, above, visited, all) && here.id == node
        invariant yielded == (if uniqueSyms then FirstNodes(Attrs(), visited) else visited)
        invariant uniqueSyms ==> visitedSyms == SymsIn(Attrs(), visited)
        decreases |all| - |visited|
      {
        var next;
        next, here, above := NextNode(node, here, above, visited, all);
        if next.None? {
          return;
        }
        node := next.value;
        FirstNodesSnoc(Attrs(), visited, node);
        visited := visited + [node];
        if uniqueSyms && IsSymbol(Attrs(), node) {
          if item[node].sym in visitedSyms {
            continue;
          }
          visitedSyms := visitedSyms + {item[node].sym};
        }
        yielded := yielded + [node];
      }
    }

    /** Finalising the whole tree: the links hold the finalised tree, and every node has its final expressions. */
    method Finalize(top: Id, ghost f: Forest)
      requires Parsed(Attrs(), f) && f.id == top && Linked(links, f, None, None)
      modifies this`links, this`props, this`builds
      ensures Linked(links, Menu(top, Kids(Final(old(Attrs()), f), f), Nil), None, None)
      ensures SameProps(Final(old(Attrs()), f), Attrs(), Ids(f)) && Settled(old(Attrs()), Attrs(), f.list, Y, Y)
      ensures builds == ApplyAll(old(builds), Final(old(Attrs()), f), CopiedEach(Final(old(Attrs()), f), f.list))
    {
      ghost var a := Attrs();
      ghost var z := Final(a, f);
      FinalJob(a, f);
      FinalizeNode(top, Y, f, None, a, z);
      FinalSettled(a, z, Attrs(), f);
      TopCopied(z, f);
    }

    /** The nodes that `node_iter` visits in the finalised tree: every item of the parsed tree once, in its order */
    method FinalizeAndIterate(top: Id, ghost f: Forest) returns (visited: seq<Id>)
      requires Parsed(Attrs(), f) && f.id == top && Linked(links, f, None, None)
      modifies this`links, this`props, this`builds
      ensures visited == Items(old(Attrs()), f.list)
    {
      ghost var a := Attrs();
      Finalize(top, f);
      visited := NodeIter(top, false, Menu(top, Kids(Final(a, f), f), Nil));
      FinalWalk(a, f);
    }
  }
}
