/** Finite relations: a relation without closed walks is one that some numbering ascends along. */
module Orders {
  /** Each element is related to the next. */
  ghost predicate Walk<T(!new)>(r: (T, T) -> bool, p: seq<T>) {
    forall i :: 0 <= i < |p| - 1 ==> r(p[i], p[i + 1])
  }

  ghost predicate WalkFrom<T(!new)>(r: (T, T) -> bool, p: seq<T>, a: T, b: T) {
    |p| >= 2 && p[0] == a && p[|p| - 1] == b && Walk(r, p)
  }

  /** A walk of one or more steps leads from `a` to `b`. */
  ghost predicate Leads<T(!new)>(r: (T, T) -> bool, a: T, b: T) { exists p: seq<T> :: WalkFrom(r, p, a, b) }

  ghost predicate Ascends<T(!new)>(r: (T, T) -> bool, level: T -> nat) { forall a, b :: r(a, b) ==> level(a) < level(b) }

  ghost predicate Acyclic<T(!new)>(r: (T, T) -> bool) { forall a :: !Leads(r, a, a) }

  /** How many elements lead to `b` */
  ghost function Before<T(!new)>(r: (T, T) -> bool, all: set<T>, b: T): nat { |set a | a in all && Leads(r, a, b)| }

  ghost function BeforeBy<T(!new)>(r: (T, T) -> bool, all: set<T>): T -> nat { b => Before(r, all, b) }

  lemma LeadsOn<T(!new)>(r: (T, T) -> bool, a: T, b: T, c: T)
    requires Leads(r, a, b) && r(b, c)
    ensures Leads(r, a, c)
  {
    var p :| WalkFrom(r, p, a, b);
    assert WalkFrom(r, p + [c], a, c);
  }

  lemma LeadsOnce<T(!new)>(r: (T, T) -> bool, a: T, b: T)
    requires r(a, b)
    ensures Leads(r, a, b)
  {
    assert WalkFrom(r, [a, b], a, b);
  }

  lemma {:induction false} SubsetSize<T>(a: set<T>, b: set<T>)
    requires a <= b
    ensures |a| <= |b|
  {
    if a != {} {
      var x :| x in a;
      SubsetSize(a - {x}, b - {x});
    }
  }

  lemma BeforeAscends<T(!new)>(r: (T, T) -> bool, all: set<T>, a: T, b: T)
    requires r(a, b) && a in all && !Leads(r, a, a)
    ensures Before(r, all, a) < Before(r, all, b)
  {
    var before, before' := set z | z in all && Leads(r, z, a), set z | z in all && Leads(r, z, b);
    forall z | z in before ensures z in before' { LeadsOn(r, z, a, b); }
    LeadsOnce(r, a, b);
    SubsetSize(before + {a}, before');
  }

  lemma {:induction false} WalkAscends<T(!new)>(r: (T, T) -> bool, level: T -> nat, p: seq<T>, i: nat)
    requires Ascends(r, level) && Walk(r, p) && 0 < i < |p|
    ensures level(p[0]) < level(p[i])
  {
    if i > 1 { WalkAscends(r, level, p, i - 1); }
    assert r(p[i - 1], p[i - 1 + 1]);
  }

  /** A relation over finitely many elements has an ascending numbering exactly if it has no closed walk. */
  lemma AscendsIff<T(!new)>(r: (T, T) -> bool, all: set<T>)
    requires forall a, b :: r(a, b) ==> a in all
    ensures (exists level: T -> nat :: Ascends(r, level)) <==> Acyclic(r)
  {
    if level: T -> nat :| Ascends(r, level) {
      forall a ensures !Leads(r, a, a) {
        if p :| WalkFrom(r, p, a, a) { WalkAscends(r, level, p, |p| - 1); }
      }
    }
    if Acyclic(r) {
      var level := BeforeBy(r, all);
      forall a, b | r(a, b) ensures level(a) < level(b) { BeforeAscends(r, all, a, b); }
      assert Ascends(r, level);
    }
  }
}
