/** The byte ring buffer that tells full from empty by a mirror bit on each index. */
module RingBuffer {
  newtype byte = x: int | 0 <= x < 256

  // ----- Circular sequences -----

  /** The slot `k` places after slot `s` in a ring of `n` slots */
  function Adv(n: nat, s: nat, k: nat): (r: nat)
    requires s < n && k <= n
    ensures r < n
  {
    if s + k < n then s + k else s + k - n
  }

  /** `len` elements of the ring `a`, from slot `s` on */
  function Ring(a: seq<byte>, s: nat, len: nat): (r: seq<byte>)
    requires s < |a| && len <= |a|
    ensures |r| == len
  {
    seq(len, i requires 0 <= i < len => a[Adv(|a|, s, i)])
  }

  /** The ring after writing `data` from slot `w` on */
  function Written(a: seq<byte>, w: nat, data: seq<byte>): (r: seq<byte>)
    requires w < |a| && |data| <= |a|
    ensures |r| == |a|
  {
    seq(|a|, i requires 0 <= i < |a| =>
      var k := if w <= i then i - w else i + |a| - w;
      if k < |data| then data[k] else a[i])
  }

  /** The array after copying `src` to `at` */
  function Copied(a: seq<byte>, at: nat, src: seq<byte>): (r: seq<byte>)
    requires at + |src| <= |a|
    ensures |r| == |a|
  {
    a[..at] + src + a[at + |src|..]
  }

  /** One copy, or two if the data reaches the end of the array */
  lemma WrittenCopied(a: seq<byte>, w: nat, data: seq<byte>)
    requires w < |a| && |data| <= |a|
    ensures w + |data| <= |a| ==> Copied(a, w, data) == Written(a, w, data)
    ensures w + |data| >= |a| ==>
      Copied(Copied(a, w, data[..|a| - w]), 0, data[|a| - w..]) == Written(a, w, data)
  {
    var r := Written(a, w, data);
    if w + |data| <= |a| {
      var c := Copied(a, w, data);
      forall i | 0 <= i < |a| ensures c[i] == r[i] {}
    }
    if w + |data| >= |a| {
      var c := Copied(Copied(a, w, data[..|a| - w]), 0, data[|a| - w..]);
      forall i | 0 <= i < |a| ensures c[i] == r[i] {}
    }
  }

  lemma RingSplit(a: seq<byte>, s: nat, k: nat, l: nat)
    requires s < |a| && k + l <= |a|
    ensures Ring(a, s, k + l) == Ring(a, s, k) + Ring(a, Adv(|a|, s, k), l)
  {
  }

  /** Writing puts the data in place and keeps the slots after it. */
  lemma RingWritten(a: seq<byte>, w: nat, data: seq<byte>)
    requires w < |a| && |data| <= |a|
    ensures Ring(Written(a, w, data), w, |data|) == data
    ensures Ring(Written(a, w, data), Adv(|a|, w, |data|), |a| - |data|) == Ring(a, Adv(|a|, w, |data|), |a| - |data|)
  {
  }

  /** The newest `n` elements of `s` */
  function KeepLast(s: seq<byte>, n: nat): seq<byte> {
    if |s| <= n then s else s[|s| - n..]
  }

  lemma KeepLastTwice(s: seq<byte>, d: seq<byte>, n: nat)
    ensures KeepLast(KeepLast(s, n) + d, n) == KeepLast(s + d, n)
  {
  }

  /** Pushing bytes one at a time, each time dropping the oldest byte if there is no room */
  function PushEach(s: seq<byte>, data: seq<byte>, n: nat): seq<byte>
    decreases |data|
  {
    if data == [] then s else PushEach(KeepLast(s + data[..1], n), data[1..], n)
  }

  lemma {:induction false} PushEachKeepsLast(s: seq<byte>, data: seq<byte>, n: nat)
    requires |s| <= n
    ensures PushEach(s, data, n) == KeepLast(s + data, n)
    decreases |data|
  {
    if data != [] {
      PushEachKeepsLast(KeepLast(s + data[..1], n), data[1..], n);
      KeepLastTwice(s + data[..1], data[1..], n);
      assert s + data[..1] + data[1..] == s + data;
    } else {
      assert s + data == s;
    }
  }

  /** Writing after the contents appends to them while there is room. */
  lemma RingAppend(a: seq<byte>, r: nat, len: nat, data: seq<byte>)
    requires r < |a| && len + |data| <= |a|
    ensures Ring(Written(a, Adv(|a|, r, len), data), r, len + |data|) == Ring(a, r, len) + data
  {
    var n, w := |a|, Adv(|a|, r, len);
    var a', end, free := Written(a, w, data), Adv(n, w, |data|), n - len - |data|;
    RingWritten(a, w, data);
    RingSplit(a', r, len, |data|);
    RingSplit(a', end, free, len);
    RingSplit(a, end, free, len);
    assert Adv(n, end, free) == r;
    Suffix(Ring(a', end, free), Ring(a', r, len), Ring(a, end, free), Ring(a, r, len));
  }

  lemma Suffix(x: seq<byte>, y: seq<byte>, x': seq<byte>, y': seq<byte>)
    requires x + y == x' + y' && |x| == |x'|
    ensures y == y'
  {
    assert y == (x + y)[|x|..];
    assert y' == (x' + y')[|x'|..];
  }

  lemma DropFirst(x: seq<byte>, y: seq<byte>, z: seq<byte>)
    ensures (x + y + z)[|x|..] == y + z
  {
  }

  /** From the new end on, the ring holds what was not overwritten, then the data. */
  lemma RingAfterWrite(a: seq<byte>, w: nat, data: seq<byte>)
    requires w < |a| && |data| <= |a|
    ensures var end := Adv(|a|, w, |data|); Ring(Written(a, w, data), end, |a|) == Ring(a, end, |a| - |data|) + data
  {
    var n, end := |a|, Adv(|a|, w, |data|);
    RingWritten(a, w, data);
    RingSplit(Written(a, w, data), end, n - |data|, |data|);
    assert Adv(n, end, n - |data|) == w;
  }

  lemma KeepLastOf(x: seq<byte>, y: seq<byte>, z: seq<byte>, n: nat)
    requires |y| + |z| == n
    ensures KeepLast(x + y + z, n) == y + z
  {
    DropFirst(x, y, z);
    if x == [] { assert x + y + z == y + z; }
  }

  lemma KeepNewest(a: seq<byte>, r: nat, len: nat, data: seq<byte>)
    requires r < |a| && len <= |a| && |data| <= |a| <= len + |data|
    ensures KeepLast(Ring(a, r, len) + data, |a|) == Ring(a, Adv(|a|, r, len + |data| - |a|), |a| - |data|) + data
  {
    var n, drop := |a|, len + |data| - |a|;
    var x, y := Ring(a, r, drop), Ring(a, Adv(n, r, drop), n - |data|);
    RingSplit(a, r, drop, n - |data|);
    assert drop + (n - |data|) == len && Ring(a, r, len) == x + y;
    KeepLastOf(x, y, data, n);
  }

  /** Writing past the room left overwrites the oldest bytes: from the new end on, the ring holds the newest. */
  lemma RingOverwrite(a: seq<byte>, r: nat, len: nat, data: seq<byte>)
    requires r < |a| && len <= |a| && |data| <= |a| <= len + |data|
    ensures var w := Adv(|a|, r, len);
      Ring(Written(a, w, data), Adv(|a|, w, |data|), |a|) == KeepLast(Ring(a, r, len) + data, |a|)
  {
    var w := Adv(|a|, r, len);
    RingAfterWrite(a, w, data);
    KeepNewest(a, r, len, data);
    assert Adv(|a|, r, len + |data| - |a|) == Adv(|a|, w, |data|);
  }

  /** A forced put, with as much of the data as the ring holds */
  lemma RingForce(a: seq<byte>, r: nat, len: nat, data: seq<byte>)
    requires r < |a| && len <= |a|
    ensures var n, w, tail := |a|, Adv(|a|, r, len), KeepLast(data, |a|);
      var a', all := Written(a, w, tail), KeepLast(Ring(a, r, len) + data, n);
      && (len + |tail| <= n ==> Ring(a', r, len + |tail|) == all)
      && (len + |tail| >= n ==> Ring(a', Adv(n, w, |tail|), n) == all)
  {
    var n, tail, c := |a|, KeepLast(data, |a|), Ring(a, r, len);
    if len + |tail| <= n { RingAppend(a, r, len, tail); }
    if len + |tail| >= n { RingOverwrite(a, r, len, tail); }
    KeepTail(c, data, n);
  }

  lemma KeepTail(c: seq<byte>, data: seq<byte>, n: nat)
    ensures KeepLast(c + KeepLast(data, n), n) == KeepLast(c + data, n)
  {
    if |data| > n {
      var front, tail := data[..|data| - n], data[|data| - n..];
      KeepLastOf(c, tail, [], n);
      KeepLastOf(c + front, tail, [], n);
      assert c + tail + [] == c + tail && c + front + tail + [] == c + data;
    }
  }

  /** A forced byte */
  lemma RingForced(a: seq<byte>, r: nat, len: nat, ch: byte)
    requires r < |a| && len <= |a|
    ensures var w := Adv(|a|, r, len); var a' := Written(a, w, [ch]); var all := KeepLast(Ring(a, r, len) + [ch], |a|);
      if len < |a| then Ring(a', r, len + 1) == all else Ring(a', Adv(|a|, w, 1), |a|) == all
  {
    if len < |a| { RingAppend(a, r, len, [ch]); } else { RingOverwrite(a, r, len, [ch]); }
  }

  /** `n` elements from slot `s` on, as one or two pieces of the array */
  function Pieces(a: seq<byte>, s: nat, n: nat): seq<byte>
    requires s < |a| && n <= |a|
  {
    if s + n < |a| then a[s..s + n] else a[s..] + a[..s + n - |a|]
  }

  lemma RingPieces(a: seq<byte>, s: nat, n: nat)
    requires s < |a| && n <= |a|
    ensures Ring(a, s, n) == Pieces(a, s, n)
  {
  }

  lemma RingTaken(a: seq<byte>, s: nat, len: nat, n: nat)
    requires s < |a| && n <= len <= |a|
    ensures Ring(a, s, len) == Pieces(a, s, n) + Ring(a, Adv(|a|, s, n), len - n)
  {
    RingSplit(a, s, n, len - n);
    RingPieces(a, s, n);
    assert n + (len - n) == len;
  }

  datatype State = Empty | Full | HalfFull

  class RingBuff {
    const buff: array<byte>
    var readIndex: nat
    var writeIndex: nat
    var readMirror: bool
    var writeMirror: bool

    /** Equal mirrors mean that the writer has not lapped the reader. */
    ghost predicate Valid()
      reads this
    {
      && readIndex < buff.Length && writeIndex < buff.Length
      && (if readMirror == writeMirror then readIndex <= writeIndex else writeIndex <= readIndex)
    }

    ghost function Len(): (n: nat)
      requires Valid()
      reads this
      ensures n <= buff.Length && writeIndex == Adv(buff.Length, readIndex, n)
      ensures n == buff.Length ==> readMirror != writeMirror
    {
      if readMirror == writeMirror then writeIndex - readIndex else buff.Length - (readIndex - writeIndex)
    }

    ghost function Contents(): (s: seq<byte>)
      requires Valid()
      reads this, buff
      ensures |s| == Len()
    {
      Ring(buff[..], readIndex, Len())
    }

    /** rb_ring_buff_init() */
    constructor (pool: array<byte>)
      requires pool.Length > 0
      ensures Valid() && Contents() == [] && buff == pool && readIndex == writeIndex == 0 && readMirror == writeMirror
    {
      buff := pool;
      readIndex, writeIndex := 0, 0;
      readMirror, writeMirror := false, false;
    }

    /** rb_ring_buff_reset() */
    method Reset()
      requires Valid()
      modifies this
      ensures Valid() && Contents() == []
    {
      readIndex, writeIndex := 0, 0;
      readMirror, writeMirror := false, false;
    }

    /** rb_ring_buff_state() */
    method GetState() returns (state: State)
      requires Valid()
      ensures state == if Contents() == [] then Empty else if |Contents()| == buff.Length then Full else HalfFull
    {
      if readIndex == writeIndex {
        if readMirror == writeMirror {
          return Empty;
        } else {
          return Full;
        }
      }
      state := HalfFull;
    }

    method DataLen() returns (len: nat)
      requires Valid()
      ensures len == |Contents()|
    {
      var state := GetState();
      match state
      case Empty => len := 0;
      case Full => len := buff.Length;
      case HalfFull =>
        if writeIndex > readIndex {
          len := writeIndex - readIndex;
        } else {
          len := buff.Length - (readIndex - writeIndex);
        }
    }

    method SpaceLen() returns (len: nat)
      requires Valid()
      ensures len == buff.Length - |Contents()|
    {
      var n := DataLen();
      len := buff.Length - n;
    }

    /** memcpy() of `src` into the buffer at `at` */
    method CopyIn(at: nat, src: seq<byte>)
      requires at + |src| <= buff.Length
      modifies buff
      ensures buff[..] == Copied(old(buff[..]), at, src)
    {
      for i := 0 to |src|
        invariant forall j :: 0 <= j < buff.Length ==> buff[j] == if at <= j < at + i then src[j - at] else old(buff[j])
      {
        buff[at + i] := src[i];
      }
    }

    /** The copies of put and put_force: the data goes in from the write index on, in two pieces if it reaches
        the end of the buffer. The index advances, and the mirror flips when it wraps. */
    method Store(data: seq<byte>)
      requires Valid() && |data| <= buff.Length
      modifies this`writeIndex, this`writeMirror, buff
      ensures buff[..] == Written(old(buff[..]), old(writeIndex), data)
      ensures writeIndex == Adv(buff.Length, old(writeIndex), |data|)
      ensures writeMirror == (if buff.Length - old(writeIndex) > |data| then old(writeMirror) else !old(writeMirror))
    {
      WrittenCopied(buff[..], writeIndex, data);
      if buff.Length - writeIndex > |data| {
        CopyIn(writeIndex, data);
        writeIndex := writeIndex + |data|;
        return;
      }
      var first := buff.Length - writeIndex;
      CopyIn(writeIndex, data[..first]);
      CopyIn(0, data[first..]);
      writeMirror := !writeMirror;
      writeIndex := |data| - first;
    }

    /** rb_ring_buff_put(): takes as much of the data as there is room for. */
    method Put(data: seq<byte>) returns (n: nat)
      requires Valid() && data != []
      modifies this`writeIndex, this`writeMirror, buff
      ensures Valid()
      ensures n == if |data| <= buff.Length - |old(Contents())| then |data| else buff.Length - |old(Contents())|
      ensures Contents() == old(Contents()) + data[..n]
    {
      var size := SpaceLen();
      if size == 0 {
        return 0;
      }
      n := if size < |data| then size else |data|;
      ghost var a := buff[..];
      Store(data[..n]);
      RingAppend(a, readIndex, old(Len()), data[..n]);
    }

    /** The copies of get, in two pieces if the data reaches the end of the buffer */
    method CopyOut(n: nat) returns (out: seq<byte>)
      requires Valid() && n <= buff.Length
      ensures out == Pieces(buff[..], readIndex, n)
    {
      if buff.Length - readIndex > n {
        out := buff[readIndex..readIndex + n];
      } else {
        out := buff[readIndex..] + buff[..n - (buff.Length - readIndex)];
      }
    }

    /** The read index after the copies of get; the mirror flips when it wraps. */
    method AdvanceRead(n: nat)
      requires Valid() && n <= Len()
      modifies this`readIndex, this`readMirror
      ensures Valid() && Len() == old(Len()) - n && readIndex == Adv(buff.Length, old(readIndex), n)
    {
      if buff.Length - readIndex > n {
        readIndex := readIndex + n;
      } else {
        readMirror := !readMirror;
        readIndex := n - (buff.Length - readIndex);
      }
    }

    /** rb_ring_buff_get(): takes out up to `len` of the oldest bytes. */
    method Get(len: nat) returns (out: seq<byte>)
      requires Valid() && len > 0
      modifies this`readIndex, this`readMirror
      ensures Valid()
      ensures |out| == if len <= |old(Contents())| then len else |old(Contents())|
      ensures old(Contents()) == out + Contents()
    {
      var size := DataLen();
      if size == 0 {
        return [];
      }
      var n := if size < len then size else len;
      RingTaken(buff[..], readIndex, Len(), n);
      out := CopyOut(n);
      AdvanceRead(n);
    }

    /** rb_ring_buff_put_char() */
    method PutChar(ch: byte) returns (n: nat)
      requires Valid()
      modifies this`writeIndex, this`writeMirror, buff
      ensures Valid()
      ensures n == if |old(Contents())| < buff.Length then 1 else 0
      ensures Contents() == if n == 1 then old(Contents()) + [ch] else old(Contents())
    {
      var space := SpaceLen();
      if space == 0 {
        return 0;
      }
      ghost var a := buff[..];
      RingAppend(a, readIndex, Len(), [ch]);
      buff[writeIndex] := ch;
      assert buff[..] == Written(a, writeIndex, [ch]);
      if writeIndex == buff.Length - 1 {
        writeMirror := !writeMirror;
        writeIndex := 0;
      } else {
        writeIndex := writeIndex + 1;
      }
      n := 1;
    }

    /** rb_ring_buff_put_char_force(): the byte always goes in, at the cost of the oldest one. */
    method PutCharForce(ch: byte) returns (n: nat)
      requires Valid()
      modifies this, buff
      ensures Valid() && n == 1
      ensures Contents() == KeepLast(old(Contents()) + [ch], buff.Length)
    {
      var state := GetState();
      ghost var a, w := buff[..], writeIndex;
      RingForced(a, readIndex, Len(), ch);
      buff[writeIndex] := ch;
      StepForce(state.Full?);
      assert buff[..] == Written(a, w, [ch]);
      n := 1;
    }

    /** The indices of put_char_force */
    method StepForce(full: bool)
      requires Valid() && full == (Len() == buff.Length)
      modifies this
      ensures Valid() && Len() == if full then buff.Length else old(Len()) + 1
      ensures readIndex == if full then Adv(buff.Length, old(writeIndex), 1) else old(readIndex)
    {
      if writeIndex == buff.Length - 1 {
        writeMirror := !writeMirror;
        writeIndex := 0;
        if full {
          readMirror := !readMirror;
          readIndex := writeIndex;
        }
      } else {
        writeIndex := writeIndex + 1;
        if full {
          readIndex := writeIndex;
        }
      }
    }

    /** rb_ring_buff_get_char() */
    method GetChar() returns (ch: byte, n: nat)
      requires Valid()
      modifies this`readIndex, this`readMirror
      ensures Valid()
      ensures n == if old(Contents()) == [] then 0 else 1
      ensures n == 0 ==> Contents() == old(Contents())
      ensures n == 1 ==> old(Contents()) == [ch] + Contents()
    {
      var size := DataLen();
      if size == 0 {
        return 0, 0;
      }
      ghost var a := buff[..];
      RingSplit(a, readIndex, 1, Len() - 1);
      ch := buff[readIndex];
      assert Ring(a, readIndex, 1) == [ch];
      if readIndex == buff.Length - 1 {
        readMirror := !readMirror;
        readIndex := 0;
      } else {
        readIndex := readIndex + 1;
      }
      n := 1;
    }

    /** Whether a forced put of `len` bytes wraps around and overflows while the mirrors are equal */
    ghost predicate Loses(len: nat)
      requires Valid()
      reads this
    {
      var n := if len > buff.Length then buff.Length else len;
      && buff.Length - writeIndex <= n
      && n > buff.Length - Len()
      && readMirror == writeMirror
    }

    /** rb_ring_buff_put_force() */
    method PutForce(data: seq<byte>) returns (n: nat)
      requires Valid() && data != []
      modifies this, buff
      ensures Valid()
      ensures n == if |data| > buff.Length then buff.Length else |data|
      // The newest bytes are kept, exactly unless the call wraps and overflows from equal mirrors.
      ensures Contents() == KeepLast(old(Contents()) + data, buff.Length) <==> !old(Loses(|data|))
      // Then both mirrors flip, and the buffer reads as empty.
      ensures old(Loses(|data|)) ==> Contents() == []
    {
      var space := SpaceLen();
      var tail := data;
      if |data| > buff.Length {
        tail := data[|data| - buff.Length..];
      }
      n := |tail|;
      RingForce(buff[..], readIndex, Len(), data);
      ghost var all := KeepLast(Contents() + data, buff.Length);
      assert tail == KeepLast(data, buff.Length) && all != [];
      ForceIn(tail, space);
      assert !old(Loses(|data|)) ==> Contents() == all;
    }

    /** The copies and the indices of put_force */
    method ForceIn(data: seq<byte>, space: nat)
      requires Valid() && 0 < |data| <= buff.Length && space == buff.Length - Len()
      modifies this, buff
      ensures Valid() && buff[..] == Written(old(buff[..]), old(writeIndex), data)
      ensures old(Loses(|data|)) ==> Len() == 0
      ensures !old(Loses(|data|)) && |data| <= space ==> readIndex == old(readIndex) && Len() == old(Len()) + |data|
      ensures !old(Loses(|data|)) && |data| > space ==>
        readIndex == Adv(buff.Length, old(writeIndex), |data|) && Len() == buff.Length
    {
      var wraps := buff.Length - writeIndex <= |data|;
      Store(data);
      if |data| > space {
        Overrun(wraps);
      }
    }

    /** A forced put has overwritten the oldest bytes: reading goes on at the write index. */
    method Overrun(wraps: bool)
      requires readIndex < buff.Length && writeIndex < buff.Length
      modifies this`readIndex, this`readMirror
      ensures Valid() && readIndex == writeIndex && readMirror == (if wraps then !old(readMirror) else old(readMirror))
      ensures Len() == if readMirror == writeMirror then 0 else buff.Length
    {
      if wraps {
        readMirror := !readMirror;
      }
      readIndex := writeIndex;
    }
  }

  // ----- Runs -----

  datatype Op = OpPut(data: seq<byte>) | OpGet(len: nat) | OpPutChar(ch: byte) | OpGetChar | OpPutCharForce(ch: byte)

  /** What a run accepts, delivers and leaves, on a queue of at most `n` bytes */
  datatype Run = Run(accepted: seq<byte>, delivered: seq<byte>, queue: seq<byte>)

  function Step(n: nat, q: seq<byte>, op: Op): (r: Run)
    requires |q| <= n
    ensures |r.queue| <= n
  {
    match op
    case OpPut(data) => Accept(n, q, data)
    case OpPutChar(ch) => Accept(n, q, [ch])
    case OpGet(len) => Deliver(q, len)
    case OpGetChar => Deliver(q, 1)
    case OpPutCharForce(ch) => Run([ch], [], KeepLast(q + [ch], n))
  }

  function Accept(n: nat, q: seq<byte>, data: seq<byte>): Run
    requires |q| <= n
  {
    var k := if |data| <= n - |q| then |data| else n - |q|;
    Run(data[..k], [], q + data[..k])
  }

  function Deliver(q: seq<byte>, len: nat): Run {
    var k := if len <= |q| then len else |q|;
    Run([], q[..k], q[k..])
  }

  function RunAll(n: nat, q: seq<byte>, ops: seq<Op>): (r: Run)
    requires |q| <= n
    ensures |r.queue| <= n
    decreases |ops|
  {
    if ops == [] then Run([], [], q) else
    var first := Step(n, q, ops[0]);
    var rest := RunAll(n, first.queue, ops[1..]);
    Run(first.accepted + rest.accepted, first.delivered + rest.delivered, rest.queue)
  }

  predicate Unforced(ops: seq<Op>) { forall k :: 0 <= k < |ops| ==> !ops[k].OpPutCharForce? }

  /** No byte is lost, duplicated or reordered: in every run without forced puts, what was delivered followed by what is
      left equals what was there followed by what was accepted. */
  lemma {:induction false} Conservation(n: nat, q: seq<byte>, ops: seq<Op>)
    requires |q| <= n && Unforced(ops)
    ensures var r := RunAll(n, q, ops); r.delivered + r.queue == q + r.accepted
    decreases |ops|
  {
    if ops == [] {
      assert [] + q == q + [];
    } else {
      var first := Step(n, q, ops[0]);
      Conservation(n, first.queue, ops[1..]);
      var rest := RunAll(n, first.queue, ops[1..]);
      StepConserves(n, q, ops[0]);
      Chained(q, first.accepted, first.delivered, first.queue, rest.accepted, rest.delivered, rest.queue);
    }
  }

  lemma StepConserves(n: nat, q: seq<byte>, op: Op)
    requires |q| <= n && !op.OpPutCharForce?
    ensures var r := Step(n, q, op); r.delivered + r.queue == q + r.accepted
  {
  }

  lemma Chained(q: seq<byte>, a: seq<byte>, d: seq<byte>, m: seq<byte>, a': seq<byte>, d': seq<byte>, m': seq<byte>)
    requires d + m == q + a && d' + m' == m + a'
    ensures d + d' + m' == q + (a + a')
  {
    assert d + d' + m' == d + (d' + m');
    assert d + (m + a') == d + m + a';
    assert q + a + a' == q + (a + a');
  }

  predicate Legal(op: Op) { (op.OpPut? ==> op.data != []) && (op.OpGet? ==> op.len > 0) }

  method PerformPut(rb: RingBuff, op: Op) returns (accepted: seq<byte>)
    requires rb.Valid() && Legal(op) && (op.OpPut? || op.OpPutChar? || op.OpPutCharForce?)
    modifies rb, rb.buff
    ensures rb.Valid() && Run(accepted, [], rb.Contents()) == Step(rb.buff.Length, old(rb.Contents()), op)
  {
    if op.OpPut? {
      var n := rb.Put(op.data);
      accepted := op.data[..n];
    } else if op.OpPutChar? {
      var n := rb.PutChar(op.ch);
      accepted := [op.ch][..n];
      assert n == 0 ==> old(rb.Contents()) + accepted == old(rb.Contents());
    } else {
      var _ := rb.PutCharForce(op.ch);
      accepted := [op.ch];
    }
  }

  lemma Delivers(q: seq<byte>, out: seq<byte>, rest: seq<byte>, len: nat)
    requires q == out + rest && |out| == if len <= |q| then len else |q|
    ensures Deliver(q, len) == Run([], out, rest)
  {
  }

  method PerformGet(rb: RingBuff, op: Op) returns (delivered: seq<byte>)
    requires rb.Valid() && Legal(op) && (op.OpGet? || op.OpGetChar?)
    modifies rb, rb.buff
    ensures rb.Valid() && Run([], delivered, rb.Contents()) == Step(rb.buff.Length, old(rb.Contents()), op)
  {
    ghost var q := rb.Contents();
    if op.OpGet? {
      delivered := rb.Get(op.len);
      Delivers(q, delivered, rb.Contents(), op.len);
    } else {
      var ch, n := rb.GetChar();
      delivered := [ch][..n];
      assert n == 0 ==> q == delivered + rb.Contents();
      Delivers(q, delivered, rb.Contents(), 1);
    }
  }

  /** The buffer performs every run as the bounded queue does. */
  method Perform(rb: RingBuff, ops: seq<Op>) returns (accepted: seq<byte>, delivered: seq<byte>)
    requires rb.Valid() && forall k :: 0 <= k < |ops| ==> Legal(ops[k])
    modifies rb, rb.buff
    ensures rb.Valid()
    ensures Run(accepted, delivered, rb.Contents()) == RunAll(rb.buff.Length, old(rb.Contents()), ops)
    decreases |ops|
  {
    accepted, delivered := [], [];
    if ops == [] {
      return;
    }
    if ops[0].OpGet? || ops[0].OpGetChar? {
      delivered := PerformGet(rb, ops[0]);
    } else {
      accepted := PerformPut(rb, ops[0]);
    }
    var a, d := Perform(rb, ops[1..]);
    accepted, delivered := accepted + a, delivered + d;
  }

  /** A buffer that holds something and has not wrapped loses it, and the new data as well, when a buffer's length of
      data is forced into it. */
  method PutForceLosesAll(rb: RingBuff, data: seq<byte>)
    requires rb.Valid() && rb.Contents() != [] && rb.readMirror == rb.writeMirror && |data| == rb.buff.Length
    modifies rb, rb.buff
    ensures rb.Valid() && rb.Contents() == [] != KeepLast(old(rb.Contents()) + data, rb.buff.Length)
  {
    assert rb.Loses(|data|);
    var _ := rb.PutForce(data);
  }

  /** Such buffers exist: two bytes put into four. */
  method LosingBuffer() returns (rb: RingBuff)
    ensures fresh(rb) && fresh(rb.buff) && rb.Valid() && rb.Contents() == [1, 2]
    ensures rb.readMirror == rb.writeMirror && rb.buff.Length == 4
  {
    var pool := new byte[4](_ => 0);
    rb := new RingBuff(pool);
    var n := rb.Put([1, 2]);
    assert [1, 2][..2] == [1, 2];
  }
}
