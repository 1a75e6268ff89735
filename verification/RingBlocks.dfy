/** The ring block buffer: contiguous blocks handed out from a circular arena. */
module RingBlocks {
  import opened Wrappers

  datatype Status = Unused | Inited | Put | Get

  /** A block descriptor; `off` is the start of its memory relative to the start of the arena. */
  datatype Blk = Blk(status: Status, off: nat, size: nat) {
    function End(): nat { off + size }
  }

  // ----- Layouts -----

  /** The blocks follow each other without gaps. */
  predicate Contiguous(bs: seq<Blk>) {
    && (forall k :: 0 <= k < |bs| ==> bs[k].size > 0)
    && (forall k :: 0 < k < |bs| ==> bs[k].off == bs[k - 1].End())
  }

  /** One run of blocks inside the arena */
  predicate Straight(bs: seq<Blk>, n: nat) { bs != [] && Contiguous(bs) && bs[|bs| - 1].End() <= n }

  /** A run up to the end of the arena, then a run from its start that ends at or before the first block */
  predicate WrappedAt(bs: seq<Blk>, n: nat, k: nat) {
    && 0 < k < |bs|
    && Straight(bs[..k], n)
    && Contiguous(bs[k..])
    && bs[k].off == 0
    && bs[|bs| - 1].End() <= bs[0].off
  }

  ghost predicate Wrapped(bs: seq<Blk>, n: nat) { exists k: nat :: WrappedAt(bs, n, k) }

  ghost predicate Layout(bs: seq<Blk>, n: nat) { bs == [] || Straight(bs, n) || Wrapped(bs, n) }

  predicate Disjoint(a: Blk, b: Blk) { a.End() <= b.off || b.End() <= a.off }

  lemma {:induction false} ContiguousAscends(bs: seq<Blk>, i: nat, j: nat)
    requires Contiguous(bs) && i < j < |bs|
    ensures bs[i].End() <= bs[j].off && bs[i].End() < bs[j].End()
    decreases j
  {
    assert bs[j].off == bs[j - 1].End();
    if i < j - 1 { ContiguousAscends(bs, i, j - 1); }
  }

  lemma WrappedParts(bs: seq<Blk>, n: nat, k: nat, i: nat)
    requires WrappedAt(bs, n, k) && i < |bs|
    ensures bs[i].size > 0
    ensures i < k ==> bs[0].off <= bs[i].off && bs[i].End() <= n
    ensures k <= i ==> bs[i].End() <= bs[0].off
  {
    if i < k {
      assert bs[..k][i] == bs[i] && bs[..k][0] == bs[0] && bs[..k][k - 1] == bs[k - 1];
      if 0 < i { ContiguousAscends(bs[..k], 0, i); }
      if i < k - 1 { ContiguousAscends(bs[..k], i, k - 1); }
    } else {
      assert bs[k..][i - k] == bs[i] && bs[k..][|bs| - 1 - k] == bs[|bs| - 1];
      if i < |bs| - 1 { ContiguousAscends(bs[k..], i - k, |bs| - 1 - k); }
    }
  }

  /** Every block of a layout lies inside the arena. */
  lemma LayoutInside(bs: seq<Blk>, n: nat, i: nat)
    requires Layout(bs, n) && i < |bs|
    ensures bs[i].size > 0 && bs[i].End() <= n
  {
    if Straight(bs, n) {
      if i < |bs| - 1 { ContiguousAscends(bs, i, |bs| - 1); }
    } else {
      var k: nat :| WrappedAt(bs, n, k);
      WrappedParts(bs, n, k, i);
      WrappedParts(bs, n, k, 0);
    }
  }

  /** No two blocks of a layout overlap. */
  lemma LayoutDisjoint(bs: seq<Blk>, n: nat, i: nat, j: nat)
    requires Layout(bs, n) && i < j < |bs|
    ensures Disjoint(bs[i], bs[j])
  {
    if Straight(bs, n) {
      ContiguousAscends(bs, i, j);
    } else {
      var k: nat :| WrappedAt(bs, n, k);
      WrappedParts(bs, n, k, i);
      WrappedParts(bs, n, k, j);
      if j < k {
        ContiguousAscends(bs[..k], i, j);
      } else if k <= i {
        ContiguousAscends(bs[k..], i - k, j - k);
      }
    }
  }

  /** One comparison tells whether the blocks wrap. */
  lemma WrapTest(bs: seq<Blk>, n: nat)
    requires Layout(bs, n) && bs != []
    ensures bs[0].off <= bs[|bs| - 1].off <==> Straight(bs, n)
    ensures bs[0].off > bs[|bs| - 1].off <==> Wrapped(bs, n)
  {
    if Straight(bs, n) && |bs| > 1 { ContiguousAscends(bs, 0, |bs| - 1); }
    forall k: nat | WrappedAt(bs, n, k) ensures bs[|bs| - 1].off < bs[0].off { WrappedParts(bs, n, k, |bs| - 1); }
  }

  /** The free ends that the allocator computes are not negative. */
  lemma EndsInside(bs: seq<Blk>, n: nat)
    requires Layout(bs, n) && bs != []
    ensures bs[|bs| - 1].End() <= n && (bs[0].off > bs[|bs| - 1].off ==> bs[|bs| - 1].End() <= bs[0].off)
  {
    LayoutInside(bs, n, |bs| - 1);
    WrapTest(bs, n);
  }

  /** Where the allocator places a request beside the oldest and the newest block, if it finds room */
  function PlaceBeside(head: Blk, tail: Blk, n: nat, size: nat): Option<nat> {
    if head.off <= tail.off then
      if n - tail.End() >= size then Some(tail.End())
      else if head.off >= size then Some(0)
      else None
    else if head.off - tail.End() >= size then Some(tail.End())
    else None
  }

  function Place(bs: seq<Blk>, n: nat, size: nat): Option<nat> {
    if bs == [] then Some(0) else PlaceBeside(bs[0], bs[|bs| - 1], n, size)
  }

  lemma PlacedAfterStraight(bs: seq<Blk>, n: nat, b: Blk)
    requires bs != [] && Straight(bs, n) && b.size > 0 && Place(bs, n, b.size) == Some(b.off)
      && bs[0].off <= bs[|bs| - 1].off
    ensures Layout(bs + [b], n)
  {
    var bs' := bs + [b];
    if b.off == 0 && n - bs[|bs| - 1].End() < b.size {
      assert bs'[..|bs|] == bs && bs'[|bs|..] == [b];
      assert WrappedAt(bs', n, |bs|);
    } else {
      assert Straight(bs', n);
    }
  }

  lemma PlacedAfterWrapped(bs: seq<Blk>, n: nat, b: Blk)
    requires bs != [] && Wrapped(bs, n) && b.size > 0
    requires Place(bs, n, b.size) == Some(b.off) && bs[0].off > bs[|bs| - 1].off
    ensures Layout(bs + [b], n)
  {
    var k: nat :| WrappedAt(bs, n, k);
    WrappedOn(bs, n, b, k);
    assert WrappedAt(bs + [b], n, k);
  }

  lemma WrappedOn(bs: seq<Blk>, n: nat, b: Blk, k: nat)
    requires WrappedAt(bs, n, k) && b.size > 0 && b.off == bs[|bs| - 1].End() && b.End() <= bs[0].off
    ensures WrappedAt(bs + [b], n, k)
  {
    var bs' := bs + [b];
    assert bs'[..k] == bs[..k] && bs'[k..] == bs[k..] + [b];
    ContiguousOn(bs[k..], b);
  }

  lemma ContiguousOn(bs: seq<Blk>, b: Blk)
    requires Contiguous(bs) && bs != [] && b.size > 0 && b.off == bs[|bs| - 1].End()
    ensures Contiguous(bs + [b])
  {
  }

  /** A placed block keeps the layout. The one exception is a request larger than the whole arena on an empty
      list, which the allocator does not check. */
  lemma PlaceKeepsLayout(bs: seq<Blk>, n: nat, b: Blk)
    requires Layout(bs, n) && b.size > 0 && Place(bs, n, b.size) == Some(b.off)
    ensures Layout(bs + [b], n) <==> bs != [] || b.size <= n
  {
    if bs == [] {
      assert bs + [b] == [b];
    } else {
      WrapTest(bs, n);
      if Straight(bs, n) { PlacedAfterStraight(bs, n, b); } else { PlacedAfterWrapped(bs, n, b); }
    }
  }

  /** Some place for one more block of that size gives a layout again. */
  ghost predicate Fits(bs: seq<Blk>, n: nat, size: nat) { exists off: nat :: FitsAt(bs, n, size, off) }

  ghost predicate FitsAt(bs: seq<Blk>, n: nat, size: nat, off: nat) { Layout(bs + [Blk(Inited, off, size)], n) }

  lemma ContiguousFront(bs: seq<Blk>, b: Blk)
    requires bs != [] && Contiguous(bs + [b])
    ensures Contiguous(bs) && b.off == bs[|bs| - 1].End() && b.size > 0
  {
    var bs' := bs + [b];
    assert bs'[|bs|] == b && bs'[|bs| - 1] == bs[|bs| - 1];
    assert forall k :: 0 <= k < |bs| ==> bs'[k] == bs[k];
  }

  /** One more block on a layout comes right behind the newest one, or, if that does not wrap yet, at the start of the
      arena. */
  lemma OneMore(bs: seq<Blk>, n: nat, b: Blk)
    requires bs != [] && Layout(bs, n) && Layout(bs + [b], n)
    ensures bs[0].off <= bs[|bs| - 1].off ==>
      (b.off == bs[|bs| - 1].End() && b.End() <= n) || (b.off == 0 && b.End() <= bs[0].off)
    ensures bs[0].off > bs[|bs| - 1].off ==> b.off == bs[|bs| - 1].End() && b.End() <= bs[0].off
  {
    var bs' := bs + [b];
    WrapTest(bs, n);
    if Straight(bs', n) {
      ContiguousFront(bs, b);
      StraightFront(bs, n, b);
    } else {
      var k: nat :| WrappedAt(bs', n, k);
      if k == |bs| { OneMoreAtStart(bs, n, b); } else { OneMoreWrapped(bs, n, b, k); }
    }
  }

  lemma StraightFront(bs: seq<Blk>, n: nat, b: Blk)
    requires bs != [] && Straight(bs + [b], n)
    ensures Straight(bs, n) && b.End() <= n
  {
    ContiguousFront(bs, b);
    assert (bs + [b])[|bs|] == b;
  }

  lemma OneMoreAtStart(bs: seq<Blk>, n: nat, b: Blk)
    requires WrappedAt(bs + [b], n, |bs|)
    ensures Straight(bs, n) && b.off == 0 && b.End() <= bs[0].off
  {
    assert (bs + [b])[..|bs|] == bs && (bs + [b])[|bs|] == b;
  }

  lemma OneMoreWrapped(bs: seq<Blk>, n: nat, b: Blk, k: nat)
    requires k < |bs| && WrappedAt(bs + [b], n, k)
    ensures WrappedAt(bs, n, k) && b.off == bs[|bs| - 1].End() && b.End() <= bs[0].off
  {
    assert (bs + [b])[..k] == bs[..k] && (bs + [b])[k..] == bs[k..] + [b];
    ContiguousFront(bs[k..], b);
  }

  /** The allocator places a request behind the newest block if that fits, and else at the start of the arena if that
      fits; it refuses exactly the requests that fit nowhere. */
  lemma PlaceIff(bs: seq<Blk>, n: nat, size: nat)
    requires Layout(bs, n) && bs != [] && size > 0
    ensures Place(bs, n, size) ==
      if FitsAt(bs, n, size, bs[|bs| - 1].End()) then Some(bs[|bs| - 1].End())
      else if FitsAt(bs, n, size, 0) then Some(0)
      else None
    ensures Place(bs, n, size).None? <==> !Fits(bs, n, size)
  {
    var end := bs[|bs| - 1].End();
    EndsInside(bs, n);
    forall off: nat | FitsAt(bs, n, size, off) ensures off in {0, end} && Place(bs, n, size).Some? {
      OneMore(bs, n, Blk(Inited, off, size));
    }
    if FitsAt(bs, n, size, end) { OneMore(bs, n, Blk(Inited, end, size)); }
    var at := Place(bs, n, size);
    if at.Some? { PlaceKeepsLayout(bs, n, Blk(Inited, at.value, size)); }
  }

  /** Freeing the oldest block keeps the layout; the last block of the first run takes the wrap with it. */
  lemma DropKeepsLayout(bs: seq<Blk>, n: nat)
    requires Layout(bs, n) && bs != []
    ensures Layout(bs[1..], n)
  {
    if |bs| > 1 {
      if Straight(bs, n) {
        DropFromStraight(bs, n);
      } else {
        var k: nat :| WrappedAt(bs, n, k);
        DropFromWrapped(bs, n, k);
      }
    }
  }

  lemma DropFromStraight(bs: seq<Blk>, n: nat)
    requires Straight(bs, n) && |bs| > 1
    ensures Straight(bs[1..], n)
  {
    var r := bs[1..];
    assert forall k :: 0 < k < |r| ==> r[k] == bs[k + 1] && r[k - 1] == bs[k];
  }

  lemma DropFromWrapped(bs: seq<Blk>, n: nat, k: nat)
    requires WrappedAt(bs, n, k)
    ensures Layout(bs[1..], n)
  {
    var r := bs[1..];
    WrappedParts(bs, n, k, 0);
    if k == 1 {
      assert Straight(r, n);
    } else {
      DropFromStraight(bs[..k], n);
      WrappedParts(bs, n, k, 1);
      assert r[..k - 1] == bs[..k][1..] && r[k - 1..] == bs[k..];
      assert WrappedAt(r, n, k - 1);
    }
  }

  // ----- States -----

  function Select(a: seq<Blk>, l: seq<nat>): (bs: seq<Blk>)
    requires forall k :: 0 <= k < |l| ==> l[k] < |a|
    ensures |bs| == |l| && forall k :: 0 <= k < |l| ==> bs[k] == a[l[k]]
  {
    seq(|l|, k requires 0 <= k < |l| => a[l[k]])
  }

  /** The descriptors, the list of blocks in use (oldest first), and every block handed out so far by alloc and
      by get, in order */
  datatype Ring = Ring(blks: seq<Blk>, list: seq<nat>, granted: seq<nat>, delivered: seq<nat>)

  predicate Listed(r: Ring) {
    && (forall k :: 0 <= k < |r.list| ==> r.list[k] < |r.blks|)
    && (forall j, k :: 0 <= j < k < |r.list| ==> r.list[j] != r.list[k])
  }

  function InUse(r: Ring): (bs: seq<Blk>)
    requires Listed(r)
    ensures |bs| == |r.list|
  {
    Select(r.blks, r.list)
  }

  predicate HeadTaken(r: Ring)
    requires Listed(r)
  {
    r.list != [] && r.blks[r.list[0]].status.Get?
  }

  /** A block is listed exactly when it is in use, and only the head can be with the consumer. */
  predicate StatusOk(r: Ring)
    requires Listed(r)
  {
    && (forall i :: 0 <= i < |r.blks| ==> (i in r.list <==> !r.blks[i].status.Unused?))
    && (forall k :: 0 < k < |r.list| ==> !r.blks[r.list[k]].status.Get?)
  }

  /** The blocks in use are the ones allocated last. Blocks were delivered in allocation order: all that are no
      longer in use, and the head if the consumer has it. */
  predicate HistoryOk(r: Ring)
    requires Listed(r)
  {
    && |r.list| <= |r.granted| && r.granted[|r.granted| - |r.list|..] == r.list
    && r.delivered == r.granted[..|r.granted| - |r.list| + if HeadTaken(r) then 1 else 0]
  }

  ghost predicate Inv(r: Ring, n: nat) {
    Listed(r) && StatusOk(r) && HistoryOk(r) && Layout(InUse(r), n)
  }

  function Granted(r: Ring, i: nat, b: Blk): Ring
    requires i < |r.blks|
  {
    Ring(r.blks[i := b], r.list + [i], r.granted + [i], r.delivered)
  }

  function WithStatus(r: Ring, i: nat, st: Status): Ring
    requires i < |r.blks|
  {
    r.(blks := r.blks[i := r.blks[i].(status := st)])
  }

  function Delivered(r: Ring): Ring
    requires Listed(r) && r.list != []
  {
    WithStatus(r, r.list[0], Get).(delivered := r.delivered + [r.list[0]])
  }

  function Freed(r: Ring, i: nat): Ring
    requires i < |r.blks|
  {
    WithStatus(r, i, Unused).(list := Without(r.list, i))
  }

  /** Allocation keeps all guarantees, exactly unless an oversized request meets an empty list. */
  lemma GrantedInv(r: Ring, n: nat, i: nat, b: Blk)
    requires Inv(r, n) && i < |r.blks| && r.blks[i].status.Unused? && b.status.Inited? && b.size > 0
    requires Place(InUse(r), n, b.size) == Some(b.off)
    ensures Inv(Granted(r, i, b), n) <==> r.list != [] || b.size <= n
  {
    assert i !in r.list;
    GrantedStatus(r, i, b);
    GrantedHistory(r, i, b);
    GrantedInUse(r, i, b);
    PlaceKeepsLayout(InUse(r), n, b);
  }

  lemma GrantedInUse(r: Ring, i: nat, b: Blk)
    requires Listed(r) && i < |r.blks| && i !in r.list
    ensures Listed(Granted(r, i, b)) && InUse(Granted(r, i, b)) == InUse(r) + [b]
  {
    assert forall j :: j in (r.list + [i]) <==> j in r.list || j == i;
  }

  lemma GrantedStatus(r: Ring, i: nat, b: Blk)
    requires Listed(r) && i < |r.blks| && i !in r.list && b.status.Inited? && StatusOk(r)
    ensures Listed(Granted(r, i, b)) && StatusOk(Granted(r, i, b))
  {
    assert forall j :: j in (r.list + [i]) <==> j in r.list || j == i;
  }

  lemma GrantedHistory(r: Ring, i: nat, b: Blk)
    requires Listed(r) && i < |r.blks| && i !in r.list && b.status.Inited? && HistoryOk(r) && Listed(Granted(r, i, b))
    ensures HistoryOk(Granted(r, i, b))
  {
    var r' := Granted(r, i, b);
    var cut := |r.granted| - |r.list|;
    assert r'.granted[cut..] == r.granted[cut..] + [i];
    assert HeadTaken(r') == HeadTaken(r) by {
      if r.list == [] { assert r'.list[0] == i; } else { assert r'.list[0] == r.list[0] && r.list[0] in r.list; }
    }
    assert HeadTaken(r) ==> r.granted[..cut + 1] == r'.granted[..cut + 1];
    assert r.granted[..cut] == r'.granted[..cut];
  }

  /** Changing the status of a block in use keeps the list and its layout. */
  lemma StatusChanged(r: Ring, i: nat, st: Status)
    requires Listed(r) && StatusOk(r) && i < |r.blks| && !r.blks[i].status.Unused? && !st.Unused?
    requires st.Get? ==> r.list != [] && r.list[0] == i
    ensures Listed(WithStatus(r, i, st)) && StatusOk(WithStatus(r, i, st))
  {
    var r' := WithStatus(r, i, st);
    assert Listed(r');
    forall k | 0 < k < |r.list| ensures !r'.blks[r.list[k]].status.Get? {
      assert r.list[0] != r.list[k];
    }
  }

  lemma LayoutKept(r: Ring, n: nat, i: nat, st: Status)
    requires Listed(r) && i < |r.blks| && Listed(WithStatus(r, i, st)) && Layout(InUse(r), n)
    ensures Layout(InUse(WithStatus(r, i, st)), n)
  {
    SameLayout(InUse(r), InUse(WithStatus(r, i, st)), n);
  }

  lemma PutInv(r: Ring, n: nat, i: nat)
    requires Inv(r, n) && i < |r.blks| && r.blks[i].status.Inited?
    ensures Inv(WithStatus(r, i, Put), n)
  {
    StatusChanged(r, i, Put);
    LayoutKept(r, n, i, Put);
    PutHistory(r, i);
  }

  lemma PutHistory(r: Ring, i: nat)
    requires Listed(r) && HistoryOk(r) && i < |r.blks| && r.blks[i].status.Inited? && Listed(WithStatus(r, i, Put))
    ensures HistoryOk(WithStatus(r, i, Put))
  {
    assert HeadTaken(WithStatus(r, i, Put)) == HeadTaken(r);
  }

  lemma DeliveredHistory(r: Ring)
    requires Listed(r) && HistoryOk(r) && r.list != [] && !HeadTaken(r) && Listed(Delivered(r))
    ensures HistoryOk(Delivered(r))
  {
    var cut := |r.granted| - |r.list|;
    assert r.granted[cut..][0] == r.list[0];
    assert r.granted[..cut + 1] == r.granted[..cut] + [r.list[0]];
    assert HeadTaken(Delivered(r));
  }

  lemma DeliveredStatus(r: Ring)
    requires Listed(r) && StatusOk(r) && r.list != [] && r.blks[r.list[0]].status.Put?
    ensures Listed(Delivered(r)) && StatusOk(Delivered(r)) && InUse(Delivered(r)) == InUse(WithStatus(r, r.list[0], Get))
  {
    StatusChanged(r, r.list[0], Get);
  }

  lemma DeliveredInv(r: Ring, n: nat)
    requires Inv(r, n) && r.list != [] && r.blks[r.list[0]].status.Put?
    ensures Inv(Delivered(r), n)
  {
    DeliveredStatus(r);
    LayoutKept(r, n, r.list[0], Get);
    DeliveredHistory(r);
  }

  lemma TakenIsHead(r: Ring, i: nat)
    requires Listed(r) && StatusOk(r) && i < |r.blks| && r.blks[i].status.Get?
    ensures r.list != [] && r.list[0] == i && HeadTaken(r) && Freed(r, i).list == r.list[1..] && i !in r.list[1..]
  {
    assert i in r.list;
    var k :| 0 <= k < |r.list| && r.list[k] == i;
    assert k == 0;
  }

  lemma FreedListed(r: Ring, i: nat)
    requires Listed(r) && StatusOk(r) && i < |r.blks| && r.blks[i].status.Get?
    ensures Listed(Freed(r, i)) && InUse(Freed(r, i)) == InUse(r)[1..]
  {
    TakenIsHead(r, i);
    var r' := Freed(r, i);
    assert Listed(r');
    forall k | 0 <= k < |r'.list| ensures r'.blks[r'.list[k]] == r.blks[r.list[k + 1]] {
      assert r'.list[k] in r.list[1..];
    }
  }

  lemma FreedStatus(r: Ring, i: nat)
    requires Listed(r) && StatusOk(r) && i < |r.blks| && r.blks[i].status.Get? && Listed(Freed(r, i))
    ensures StatusOk(Freed(r, i))
  {
    TakenIsHead(r, i);
    assert forall j :: j in r.list <==> j == i || j in r.list[1..];
    assert forall k :: 0 < k < |r.list| ==> r.list[k] != i;
  }

  lemma FreedHistory(r: Ring, i: nat)
    requires Listed(r) && StatusOk(r) && HistoryOk(r) && i < |r.blks| && r.blks[i].status.Get? && Listed(Freed(r, i))
    requires !HeadTaken(Freed(r, i))
    ensures HistoryOk(Freed(r, i))
  {
    TakenIsHead(r, i);
    var cut := |r.granted| - |r.list|;
    assert r.granted[cut..][1..] == r.granted[cut + 1..];
  }

  /** The block the consumer has is always the oldest one, so freeing removes the head of the list. */
  lemma FreedInv(r: Ring, n: nat, i: nat)
    requires Inv(r, n) && i < |r.blks| && r.blks[i].status.Get?
    ensures r.list != [] && r.list[0] == i && Freed(r, i).list == r.list[1..] && Inv(Freed(r, i), n)
  {
    TakenIsHead(r, i);
    FreedListed(r, i);
    FreedStatus(r, i);
    DropKeepsLayout(InUse(r), n);
    FreedHead(r, i);
    FreedHistory(r, i);
  }

  lemma FreedHead(r: Ring, i: nat)
    requires Listed(r) && StatusOk(r) && i < |r.blks| && r.blks[i].status.Get? && Listed(Freed(r, i))
    ensures !HeadTaken(Freed(r, i))
  {
    TakenIsHead(r, i);
    if |r.list| > 1 { assert Freed(r, i).blks[r.list[1]] == r.blks[r.list[1]]; }
  }

  /** Blocks come out in the order they were allocated, whatever order they were put in. */
  lemma InOrder(r: Ring)
    requires Listed(r) && HistoryOk(r)
    ensures r.delivered <= r.granted
  {
  }

  // ----- Runs -----

  /** `Alloc(i, size)` hands out the unused descriptor i; a call that finds no room or no block changes nothing. */
  datatype Event = Alloc(i: nat, size: nat) | PutBlk(i: nat) | GetBlk | FreeBlk(i: nat)

  /** The state after a call, if the call meets the assertions of the program */
  function Step(r: Ring, n: nat, e: Event): Option<Ring> {
    if !Listed(r) then None
    else match e
      case Alloc(i, size) =>
        if size == 0 || i >= |r.blks| || !r.blks[i].status.Unused? then None
        else if Place(InUse(r), n, size).None? then Some(r)
        else Some(Granted(r, i, Blk(Inited, Place(InUse(r), n, size).value, size)))
      case PutBlk(i) => if i < |r.blks| && r.blks[i].status.Inited? then Some(WithStatus(r, i, Put)) else None
      case GetBlk => Some(if r.list != [] && r.blks[r.list[0]].status.Put? then Delivered(r) else r)
      case FreeBlk(i) => if i < |r.blks| && r.blks[i].status.Get? then Some(Freed(r, i)) else None
  }

  /** The states of a run, if every call meets its assertions */
  predicate IsRun(rs: seq<Ring>, n: nat, es: seq<Event>) {
    |rs| == |es| + 1 && forall k :: 0 <= k < |es| ==> Step(rs[k], n, es[k]) == Some(rs[k + 1])
  }

  /** No request is larger than the arena. */
  predicate Modest(es: seq<Event>, n: nat) { forall k :: 0 <= k < |es| && es[k].Alloc? ==> es[k].size <= n }

  predicate Fresh(r: Ring) {
    r.list == [] && r.granted == [] && r.delivered == [] && forall i :: 0 <= i < |r.blks| ==> r.blks[i].status.Unused?
  }

  lemma StepInv(r: Ring, n: nat, e: Event, r': Ring)
    requires Inv(r, n) && Step(r, n, e) == Some(r')
    ensures Inv(r', n) <==> !(e.Alloc? && e.size > n && r.list == [])
  {
    match e {
      case Alloc(i, size) => {
        if Place(InUse(r), n, size).Some? { GrantedInv(r, n, i, Blk(Inited, Place(InUse(r), n, size).value, size)); }
        else { assert r.list != []; }
      }
      case PutBlk(i) => { PutInv(r, n, i); }
      case GetBlk => { if r.list != [] && r.blks[r.list[0]].status.Put? { DeliveredInv(r, n); } }
      case FreeBlk(i) => { FreedInv(r, n, i); }
    }
  }

  lemma {:induction false} RunInv(rs: seq<Ring>, n: nat, es: seq<Event>, k: nat)
    requires IsRun(rs, n, es) && Modest(es, n) && Fresh(rs[0]) && k <= |es|
    ensures Inv(rs[k], n)
  {
    if k == 0 {
      FreshInv(rs[0], n);
    } else {
      RunInv(rs, n, es, k - 1);
      StepInv(rs[k - 1], n, es[k - 1], rs[k]);
    }
  }

  lemma FreshInv(r: Ring, n: nat)
    requires Fresh(r)
    ensures Inv(r, n)
  {
    FreshHistory(r);
    assert InUse(r) == [];
  }

  lemma FreshHistory(r: Ring)
    requires Fresh(r)
    ensures Listed(r) && HistoryOk(r)
  {
    assert r.granted[..0] == [] && r.granted[0..] == [];
  }

  /** In every state of every run whose requests fit the arena: the blocks in use lie inside it and do not overlap, one
      comparison tells whether they wrap, a block is listed exactly when it is in use, and blocks have been delivered
      in the order they were allocated. */
  lemma EveryRun(rs: seq<Ring>, n: nat, es: seq<Event>, k: nat)
    requires IsRun(rs, n, es) && Modest(es, n) && Fresh(rs[0]) && k <= |es|
    ensures Listed(rs[k]) && StatusOk(rs[k]) && rs[k].delivered <= rs[k].granted
    ensures forall i :: 0 <= i < |rs[k].list| ==> InUse(rs[k])[i].End() <= n
    ensures forall i, j :: 0 <= i < j < |rs[k].list| ==> Disjoint(InUse(rs[k])[i], InUse(rs[k])[j])
    ensures rs[k].list != [] ==>
      (InUse(rs[k])[0].off <= InUse(rs[k])[|rs[k].list| - 1].off <==> Straight(InUse(rs[k]), n))
  {
    RunInv(rs, n, es, k);
    var bs := InUse(rs[k]);
    InOrder(rs[k]);
    forall i | 0 <= i < |bs| ensures bs[i].End() <= n { LayoutInside(bs, n, i); }
    forall i, j | 0 <= i < j < |bs| ensures Disjoint(bs[i], bs[j]) { LayoutDisjoint(bs, n, i, j); }
    if bs != [] { WrapTest(bs, n); }
  }

  // ----- The buffer -----

  predicate NoneUnused(blks: seq<Blk>) { forall j :: 0 <= j < |blks| ==> !blks[j].status.Unused? }

  /** What an allocation does. It fails exactly if no descriptor is unused, or there are blocks and no place beside them has
      room, and then changes nothing. Otherwise the first unused descriptor gets a block behind the newest one, if that has
      room, or else at the start of the arena. */
  ghost predicate Allocated(r: Ring, n: nat, size: nat, got: Option<nat>, r': Ring)
    requires Listed(r)
  {
    && (got.None? <==> NoneUnused(r.blks) || (r.list != [] && !Fits(InUse(r), n, size)))
    && (got.None? ==> r' == r)
    && (got.Some? ==>
          FirstUnused(r.blks, got.value) && r' == Granted(r, got.value, Blk(Inited, Behind(InUse(r), n, size), size)))
  }

  predicate FirstUnused(blks: seq<Blk>, i: nat) {
    i < |blks| && blks[i].status.Unused? && forall j :: 0 <= j < i ==> !blks[j].status.Unused?
  }

  /** The place behind the newest block, if there is one and it has room, or else the start of the arena */
  ghost function Behind(bs: seq<Blk>, n: nat, size: nat): nat {
    if bs != [] && FitsAt(bs, n, size, bs[|bs| - 1].End()) then bs[|bs| - 1].End() else 0
  }

  class RingBlk {
    const bufSize: nat
    const blkSet: array<Blk>
    /** the blocks in use, oldest first */
    var list: seq<nat>
    ghost var granted: seq<nat>
    ghost var delivered: seq<nat>

    ghost function View(): Ring
      reads this, blkSet
    {
      Ring(blkSet[..], list, granted, delivered)
    }

    ghost predicate Valid()
      reads this, blkSet
    {
      Inv(View(), bufSize)
    }

    /** rbb_init() */
    constructor (bufSize: nat, blkSet: array<Blk>)
      requires bufSize > 0 && blkSet.Length > 0
      modifies blkSet
      ensures Valid() && list == [] && this.bufSize == bufSize && this.blkSet == blkSet
      ensures granted == [] && delivered == []
    {
      this.bufSize, this.blkSet := bufSize, blkSet;
      list, granted, delivered := [], [], [];
      new;
      for i := 0 to blkSet.Length
        invariant forall j :: 0 <= j < i ==> blkSet[j].status.Unused?
        invariant list == [] && granted == [] && delivered == []
      {
        blkSet[i] := blkSet[i].(status := Unused);
      }
    }

    /** rbb_find_empty_blk_in_set() */
    method FindEmpty() returns (i: Option<nat>)
      ensures i.Some? ==> FirstUnused(blkSet[..], i.value)
      ensures i.None? ==> NoneUnused(blkSet[..])
    {
      for j := 0 to blkSet.Length
        invariant forall k :: 0 <= k < j ==> !blkSet[k].status.Unused?
      {
        if blkSet[j].status.Unused? {
          return Some(j);
        }
      }
      i := None;
    }

    /** The placement of a new block, decided from the oldest and the newest block */
    method FindRoom(size: nat) returns (at: Option<nat>)
      requires Valid() && size > 0
      ensures at == Place(InUse(View()), bufSize, size)
    {
      if list == [] {
        return Some(0);
      }
      var head, tail := blkSet[list[0]], blkSet[list[|list| - 1]];
      EndsInside(InUse(View()), bufSize);
      assert Place(InUse(View()), bufSize, size) == PlaceBeside(head, tail, bufSize, size);
      if head.off <= tail.off {
        var empty1, empty2 := bufSize - tail.End(), head.off;
        if empty1 >= size {
          at := Some(tail.End());
        } else if empty2 >= size {
          at := Some(0);
        } else {
          at := None;
        }
      } else {
        var empty1 := head.off - tail.End();
        at := if empty1 >= size then Some(tail.End()) else None;
      }
    }

    /** rbb_blk_alloc() */
    method Alloc(size: nat) returns (r: Option<nat>)
      requires Valid() && size > 0
      modifies this, blkSet
      ensures Allocated(old(View()), bufSize, size, r, View())
      ensures Valid() <==> r.None? || old(list) != [] || size <= bufSize
    {
      r := FindEmpty();
      if list != [] { PlaceIff(InUse(View()), bufSize, size); }
      if r.None? {
        return;
      }
      var at := FindRoom(size);
      if at.None? {
        return None;
      }
      var b := Blk(Inited, at.value, size);
      GrantedInv(View(), bufSize, r.value, b);
      blkSet[r.value] := b;
      list := list + [r.value];
      granted := granted + [r.value];
      assert blkSet[..] == old(blkSet[..])[r.value := b];
    }

    /** rbb_blk_put() */
    method PutBlk(i: nat)
      requires Valid() && i < blkSet.Length && blkSet[i].status.Inited?
      modifies blkSet
      ensures Valid() && View() == WithStatus(old(View()), i, Put)
    {
      PutInv(View(), bufSize, i);
      blkSet[i] := blkSet[i].(status := Put);
      assert blkSet[..] == old(blkSet[..])[i := old(blkSet[i]).(status := Put)];
    }

    /** rbb_blk_get(): hands out the oldest block, and only when it has been put. */
    method GetBlk() returns (r: Option<nat>)
      requires Valid()
      modifies blkSet, this`delivered
      ensures Valid()
      ensures r.Some? <==> list != [] && list[0] < blkSet.Length && old(blkSet[list[0]]).status.Put?
      ensures r.Some? ==> r.value == list[0] && View() == Delivered(old(View()))
      ensures r.None? ==> View() == old(View())
    {
      if list == [] || !blkSet[list[0]].status.Put? {
        return None;
      }
      DeliveredInv(View(), bufSize);
      HandOut(list[0]);
      r := Some(list[0]);
    }

    /** The two stores for the head of the list */
    method HandOut(i: nat)
      requires list != [] && i == list[0] && Listed(View())
      modifies blkSet, this`delivered
      ensures View() == Delivered(old(View()))
    {
      blkSet[i] := blkSet[i].(status := Get);
      delivered := delivered + [i];
      assert blkSet[..] == old(blkSet[..])[i := old(blkSet[i]).(status := Get)];
    }

    /** rbb_blk_free() */
    method FreeBlk(i: nat)
      requires Valid() && i < blkSet.Length && blkSet[i].status.Get?
      modifies this`list, blkSet
      ensures Valid() && old(list) == [i] + list && View() == Freed(old(View()), i)
    {
      ghost var r := View();
      FreedInv(r, bufSize, i);
      HeadRemoved(list, i);
      list := Without(list, i);
      blkSet[i] := blkSet[i].(status := Unused);
      assert blkSet[..] == r.blks[i := r.blks[i].(status := Unused)];
      assert View() == Freed(r, i);
    }
  }

  // ----- The calls and the runs -----

  datatype Call = CallAlloc(size: nat) | CallPut(i: nat) | CallGet | CallFree(i: nat)

  /** The assertions at the start of a call */
  predicate Meets(r: Ring, c: Call) {
    match c
    case CallAlloc(size) => size > 0
    case CallPut(i) => i < |r.blks| && r.blks[i].status.Inited?
    case CallGet => true
    case CallFree(i) => i < |r.blks| && r.blks[i].status.Get?
  }

  /** What a call is in a run: an allocation takes the first unused descriptor, if there is one. */
  predicate IsCall(r: Ring, c: Call, e: Option<Event>) {
    match c
    case CallAlloc(size) =>
      if e.None? then NoneUnused(r.blks)
      else e.value.Alloc? && e.value.size == size && FirstUnused(r.blks, e.value.i)
    case CallPut(i) => e == Some(PutBlk(i))
    case CallGet => e == Some(GetBlk)
    case CallFree(i) => e == Some(FreeBlk(i))
  }

  predicate Stepped(r: Ring, n: nat, e: Option<Event>, r': Ring) {
    if e.None? then r' == r else Step(r, n, e.value) == Some(r')
  }

  method PerformAlloc(rb: RingBlk, size: nat) returns (e: Option<Event>)
    requires rb.Valid() && 0 < size <= rb.bufSize
    modifies rb, rb.blkSet
    ensures rb.Valid() && IsCall(old(rb.View()), CallAlloc(size), e) && Stepped(old(rb.View()), rb.bufSize, e, rb.View())
  {
    var free := rb.FindEmpty();
    ghost var r := rb.View();
    var got := rb.Alloc(size);
    e := if free.None? then None else Some(Alloc(free.value, size));
    AllocCall(r, rb.bufSize, size, free, got, rb.View());
  }

  lemma AllocCall(r: Ring, n: nat, size: nat, free: Option<nat>, got: Option<nat>, r': Ring)
    requires Inv(r, n) && size > 0 && Allocated(r, n, size, got, r')
    requires if free.None? then NoneUnused(r.blks) else FirstUnused(r.blks, free.value)
    ensures Stepped(r, n, if free.None? then None else Some(Alloc(free.value, size)), r')
  {
    if free.Some? {
      if got.Some? {
        OneFirst(r.blks, got.value, free.value);
        AllocStep(r, n, free.value, size);
      } else {
        NoAllocStep(r, n, free.value, size);
      }
    }
  }

  lemma OneFirst(blks: seq<Blk>, i: nat, j: nat)
    requires FirstUnused(blks, i) && FirstUnused(blks, j)
    ensures i == j
  {
  }

  lemma AllocStep(r: Ring, n: nat, i: nat, size: nat)
    requires Inv(r, n) && FirstUnused(r.blks, i) && 0 < size && (r.list != [] ==> Fits(InUse(r), n, size))
    ensures Step(r, n, Alloc(i, size)) == Some(Granted(r, i, Blk(Inited, Behind(InUse(r), n, size), size)))
  {
    if r.list != [] { PlaceIff(InUse(r), n, size); }
  }

  lemma NoAllocStep(r: Ring, n: nat, i: nat, size: nat)
    requires Inv(r, n) && FirstUnused(r.blks, i) && 0 < size && r.list != [] && !Fits(InUse(r), n, size)
    ensures Step(r, n, Alloc(i, size)) == Some(r)
  {
    PlaceIff(InUse(r), n, size);
  }

  lemma OtherSteps(r: Ring, n: nat, i: nat)
    requires Listed(r)
    ensures Meets(r, CallPut(i)) ==> Step(r, n, PutBlk(i)) == Some(WithStatus(r, i, Put))
    ensures Meets(r, CallFree(i)) ==> Step(r, n, FreeBlk(i)) == Some(Freed(r, i))
    ensures Step(r, n, GetBlk) == Some(if r.list != [] && r.blks[r.list[0]].status.Put? then Delivered(r) else r)
  {
  }

  method PerformGet(rb: RingBlk)
    requires rb.Valid()
    modifies rb, rb.blkSet
    ensures rb.Valid() && Step(old(rb.View()), rb.bufSize, GetBlk) == Some(rb.View())
  {
    OtherSteps(rb.View(), rb.bufSize, 0);
    var _ := rb.GetBlk();
  }

  method PerformFree(rb: RingBlk, i: nat)
    requires rb.Valid() && Meets(rb.View(), CallFree(i))
    modifies rb, rb.blkSet
    ensures rb.Valid() && Step(old(rb.View()), rb.bufSize, FreeBlk(i)) == Some(rb.View())
  {
    OtherSteps(rb.View(), rb.bufSize, i);
    rb.FreeBlk(i);
  }

  method PerformPut(rb: RingBlk, i: nat)
    requires rb.Valid() && Meets(rb.View(), CallPut(i))
    modifies rb, rb.blkSet
    ensures rb.Valid() && Step(old(rb.View()), rb.bufSize, PutBlk(i)) == Some(rb.View())
  {
    OtherSteps(rb.View(), rb.bufSize, i);
    rb.PutBlk(i);
  }

  /** Every call on the buffer whose request fits the arena is a step of a run; only an allocation for which no descriptor
      is unused is none, and changes nothing. */
  method Perform(rb: RingBlk, c: Call) returns (e: Option<Event>)
    requires rb.Valid() && Meets(rb.View(), c) && (c.CallAlloc? ==> c.size <= rb.bufSize)
    modifies rb, rb.blkSet
    ensures rb.Valid() && IsCall(old(rb.View()), c, e) && Stepped(old(rb.View()), rb.bufSize, e, rb.View())
  {
    match c
    case CallAlloc(size) =>
      e := PerformAlloc(rb, size);
    case CallPut(i) =>
      PerformPut(rb, i);
      e := Some(PutBlk(i));
    case CallGet =>
      PerformGet(rb);
      e := Some(GetBlk);
    case CallFree(i) =>
      PerformFree(rb, i);
      e := Some(FreeBlk(i));
  }

  lemma HeadRemoved(s: seq<nat>, i: nat)
    requires s != [] && s[0] == i
    ensures s == [i] + Without(s, i)
  {
  }

  /** os_list_del() */
  function Without(s: seq<nat>, x: nat): seq<nat> {
    if s == [] then [] else if s[0] == x then s[1..] else [s[0]] + Without(s[1..], x)
  }

  /** Layouts do not depend on block status. */
  lemma SameLayout(bs: seq<Blk>, bs': seq<Blk>, n: nat)
    requires Layout(bs, n) && |bs| == |bs'|
    requires forall k :: 0 <= k < |bs| ==> bs[k].off == bs'[k].off && bs[k].size == bs'[k].size
    ensures Layout(bs', n)
  {
    if bs != [] && !Straight(bs, n) {
      var k: nat :| WrappedAt(bs, n, k);
      assert WrappedAt(bs', n, k) by {
        assert bs[..k][k - 1] == bs[k - 1] && bs'[..k][k - 1] == bs'[k - 1];
        assert Contiguous(bs'[..k]) by { assert Contiguous(bs[..k]); ContiguousSame(bs[..k], bs'[..k]); }
        ContiguousSame(bs[k..], bs'[k..]);
      }
    } else if bs != [] {
      ContiguousSame(bs, bs');
    }
  }

  lemma ContiguousSame(bs: seq<Blk>, bs': seq<Blk>)
    requires Contiguous(bs) && |bs| == |bs'|
    requires forall k :: 0 <= k < |bs| ==> bs[k].off == bs'[k].off && bs[k].size == bs'[k].size
    ensures Contiguous(bs')
  {
    forall k | 0 < k < |bs'| ensures bs'[k].off == bs'[k - 1].End() {
      assert bs[k].off == bs[k - 1].End();
    }
  }
}
