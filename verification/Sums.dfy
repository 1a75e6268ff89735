/** Sums of weights over a sequence */
module Sums {
  function Total<T>(ts: seq<T>, w: T -> nat): nat {
    if ts == [] then 0 else w(ts[0]) + Total(ts[1..], w)
  }

  lemma {:induction false} TotalUpdated<T>(ts: seq<T>, w: T -> nat, i: nat, p: T)
    requires i < |ts|
    ensures Total(ts[i := p], w) + w(ts[i]) == Total(ts, w) + w(p)
  {
    if i == 0 {
      assert ts[i := p][1..] == ts[1..];
    } else {
      assert ts[i := p][1..] == ts[1..][i - 1 := p];
      TotalUpdated(ts[1..], w, i - 1, p);
    }
  }

  lemma {:induction false} TotalAtLeast<T>(ts: seq<T>, w: T -> nat, i: nat)
    requires i < |ts|
    ensures Total(ts, w) >= w(ts[i])
  {
    if i > 0 { TotalAtLeast(ts[1..], w, i - 1); }
  }

  lemma {:induction false} TotalPositive<T>(ts: seq<T>, w: T -> nat) returns (i: nat)
    requires Total(ts, w) > 0
    ensures i < |ts| && w(ts[i]) > 0
  {
    if w(ts[0]) > 0 {
      i := 0;
    } else {
      var k := TotalPositive(ts[1..], w);
      i := k + 1;
    }
  }

  lemma {:induction false} TotalZero<T>(ts: seq<T>, w: T -> nat)
    requires forall i :: 0 <= i < |ts| ==> w(ts[i]) == 0
    ensures Total(ts, w) == 0
  {
    if ts != [] { TotalZero(ts[1..], w); }
  }
}
