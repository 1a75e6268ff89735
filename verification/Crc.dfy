/** The nibble-table CRC with the generator x^16 + x^12 + x^5 + 1 of section 2 of ITU-T V.41.

    Machine words are their bits, most significant first. As polynomials over the field with two elements the
    first bit of a word is its highest coefficient, and addition is exclusive or. */
module Crc {
  import opened Arith

  type Bits = seq<bool>
  type Word = w: Bits | |w| == 16 witness seq(16, _ => false)
  type Byte = b: Bits | |b| == 8 witness seq(8, _ => false)
  type Nibble = n: Bits | |n| == 4 witness seq(4, _ => false)

  function Zeros(n: nat): Bits { seq(n, _ => false) }

  function Xor(a: Bits, b: Bits): (r: Bits)
    requires |a| == |b|
    ensures |r| == |a|
  {
    seq(|a|, i requires 0 <= i < |a| => a[i] != b[i])
  }

  /** The lowest `k` binary digits of a number */
  function Digits(v: nat, k: nat): (r: Bits)
    ensures |r| == k
    decreases k
  {
    if k == 0 then [] else Digits(v / 2, k - 1) + [v % 2 == 1]
  }

  function Short(v: nat): Word { Digits(v, 16) }

  const CRC_TA: seq<nat> := [
    0x0000, 0x1021, 0x2042, 0x3063, 0x4084, 0x50a5, 0x60c6, 0x70e7,
    0x8108, 0x9129, 0xa14a, 0xb16b, 0xc18c, 0xd1ad, 0xe1ce, 0xf1ef]

  /** The coefficients of x^12 + x^5 + 1, the generator without its leading term */
  const POLY: Word := Short(0x1021)

  // ----- Bit by bit -----

  /** Multiplication by x modulo the generator: if the degree reaches 16, the generator is subtracted. */
  function Shift(w: Word): Word {
    var s := w[1..] + [false];
    if w[0] then Xor(s, POLY) else s
  }

  function Shifts(w: Word, k: nat): Word
    decreases k
  {
    if k == 0 then w else Shifts(Shift(w), k - 1)
  }

  /** `x` in the highest places of a word, zeros below */
  function AtTop(x: Bits): Word
    requires |x| <= 16
  {
    x + Zeros(16 - |x|)
  }

  /** The checksum after more message bits: each is added to the highest coefficient before a step. */
  function AddBits(c: Word, bits: Bits): Word
    decreases |bits|
  {
    if bits == [] then c else AddBits(Shift(Xor(c, AtTop(bits[..1]))), bits[1..])
  }

  function MessageBits(msg: seq<Byte>): Bits { if msg == [] then [] else msg[0] + MessageBits(msg[1..]) }

  /** The reference: all bits of the message, most significant first */
  function Checksum(init: Word, msg: seq<Byte>): Word { AddBits(init, MessageBits(msg)) }

  // ----- Linearity -----

  lemma ShiftXor(a: Word, b: Word)
    ensures Shift(Xor(a, b)) == Xor(Shift(a), Shift(b))
  {
  }

  lemma {:induction false} ShiftsXor(a: Word, b: Word, k: nat)
    ensures Shifts(Xor(a, b), k) == Xor(Shifts(a, k), Shifts(b, k))
    decreases k
  {
    if k > 0 {
      ShiftXor(a, b);
      ShiftsXor(Shift(a), Shift(b), k - 1);
    }
  }

  /** The constant term of the generator makes the step reversible. */
  lemma ShiftInjective(a: Word, b: Word)
    requires Shift(a) == Shift(b)
    ensures a == b
  {
    PolyBits();
    assert Shift(a)[15] == a[0] && Shift(b)[15] == b[0];
    forall i | 0 < i < 16 ensures a[i] == b[i] {
      assert Shift(a)[i - 1] == (a[i] != (a[0] && POLY[i - 1]));
      assert Shift(b)[i - 1] == (b[i] != (b[0] && POLY[i - 1]));
    }
  }

  lemma {:induction false} ShiftsInjective(a: Word, b: Word, k: nat)
    requires Shifts(a, k) == Shifts(b, k)
    ensures a == b
    decreases k
  {
    if k > 0 {
      ShiftsInjective(Shift(a), Shift(b), k - 1);
      ShiftInjective(a, b);
    }
  }

  /** Up to 16 bits can be added at once. */
  lemma {:induction false} AddBitsAtOnce(c: Word, x: Bits)
    requires |x| <= 16
    ensures AddBits(c, x) == Shifts(Xor(c, AtTop(x)), |x|)
    decreases |x|
  {
    if x == [] {
      assert Xor(c, AtTop(x)) == c;
    } else {
      var first, rest := AtTop(x[..1]), AtTop([false] + x[1..]);
      AddBitsAtOnce(Shift(Xor(c, first)), x[1..]);
      FirstOnTop(c, x);
      ShiftXor(Xor(c, first), rest);
      RestRises(x);
    }
  }

  lemma FirstOnTop(c: Word, x: Bits)
    requires 0 < |x| <= 16
    ensures Xor(c, AtTop(x)) == Xor(Xor(c, AtTop(x[..1])), AtTop([false] + x[1..]))
  {
    var first, rest := AtTop(x[..1]), AtTop([false] + x[1..]);
    assert Xor(first, rest) == AtTop(x);
    XorAssoc(c, first, rest);
  }

  lemma RestRises(x: Bits)
    requires 0 < |x| <= 16
    ensures Shift(AtTop([false] + x[1..])) == AtTop(x[1..])
  {
    var w := AtTop([false] + x[1..]);
    assert !w[0];
    assert w[1..] + [false] == AtTop(x[1..]);
  }

  /** Checksums compose over concatenation. */
  lemma {:induction false} AddBitsConcat(c: Word, x: Bits, y: Bits)
    ensures AddBits(c, x + y) == AddBits(AddBits(c, x), y)
    decreases |x|
  {
    if x == [] {
      assert x + y == y;
    } else {
      assert (x + y)[..1] == x[..1] && (x + y)[1..] == x[1..] + y;
      AddBitsConcat(Shift(Xor(c, AtTop(x[..1]))), x[1..], y);
    }
  }

  lemma {:induction false} MessageBitsConcat(x: seq<Byte>, y: seq<Byte>)
    ensures MessageBits(x + y) == MessageBits(x) + MessageBits(y)
  {
    if x == [] {
      assert x + y == y;
    } else {
      assert (x + y)[0] == x[0] && (x + y)[1..] == x[1..] + y;
      MessageBitsConcat(x[1..], y);
    }
  }

  lemma ChecksumConcat(init: Word, x: seq<Byte>, y: seq<Byte>)
    ensures Checksum(init, x + y) == Checksum(Checksum(init, x), y)
  {
    MessageBitsConcat(x, y);
    AddBitsConcat(init, MessageBits(x), MessageBits(y));
  }

  lemma {:induction false} AddBitsInjective(a: Word, b: Word, x: Bits)
    requires AddBits(a, x) == AddBits(b, x)
    ensures a == b
    decreases |x|
  {
    if x != [] {
      var t := AtTop(x[..1]);
      AddBitsInjective(Shift(Xor(a, t)), Shift(Xor(b, t)), x[1..]);
      ShiftInjective(Xor(a, t), Xor(b, t));
      XorCancel(a, b, t);
    }
  }

  lemma XorCancel(a: Bits, b: Bits, t: Bits)
    requires |a| == |b| == |t| && Xor(a, t) == Xor(b, t)
    ensures a == b
  {
    forall i | 0 <= i < |a| ensures a[i] == b[i] {
      assert Xor(a, t)[i] == (a[i] != t[i]) && Xor(b, t)[i] == (b[i] != t[i]);
    }
  }

  // ----- Error detection -----

  /** Every error burst of at most 16 bits is detected, wherever it starts: bit strings of equal length that
      differ only within 16 consecutive bits have different checksums. */
  lemma BurstDetected(c: Word, p: Bits, x: Bits, y: Bits, s: Bits)
    requires |x| == |y| <= 16
    ensures AddBits(c, p + x + s) == AddBits(c, p + y + s) <==> x == y
  {
    AddBitsConcat(c, p + x, s);
    AddBitsConcat(c, p + y, s);
    AddBitsConcat(c, p, x);
    AddBitsConcat(c, p, y);
    var d := AddBits(c, p);
    if AddBits(c, p + x + s) == AddBits(c, p + y + s) {
      AddBitsInjective(AddBits(d, x), AddBits(d, y), s);
      ShortBurst(d, x, y);
    }
  }

  lemma ShortBurst(d: Word, x: Bits, y: Bits)
    requires |x| == |y| <= 16 && AddBits(d, x) == AddBits(d, y)
    ensures x == y
  {
    AddBitsAtOnce(d, x);
    AddBitsAtOnce(d, y);
    ShiftsInjective(Xor(d, AtTop(x)), Xor(d, AtTop(y)), |x|);
    assert Xor(d, AtTop(x)) == Xor(AtTop(x), d) && Xor(d, AtTop(y)) == Xor(AtTop(y), d);
    XorCancel(AtTop(x), AtTop(y), d);
    assert x == AtTop(x)[..|x|] && y == AtTop(y)[..|y|];
  }

  /** In bytes: messages that differ only within two consecutive bytes have different checksums. */
  lemma TwoBytesDetected(init: Word, p: seq<Byte>, a1: Byte, a2: Byte, b1: Byte, b2: Byte, s: seq<Byte>)
    requires (a1, a2) != (b1, b2)
    ensures Checksum(init, p + [a1, a2] + s) != Checksum(init, p + [b1, b2] + s)
  {
    PairBits(p, a1, a2, s);
    PairBits(p, b1, b2, s);
    assert (a1 + a2)[..8] == a1 && (a1 + a2)[8..] == a2 && (b1 + b2)[..8] == b1 && (b1 + b2)[8..] == b2;
    BurstDetected(init, MessageBits(p), a1 + a2, b1 + b2, MessageBits(s));
  }

  lemma PairBits(p: seq<Byte>, a: Byte, b: Byte, s: seq<Byte>)
    ensures MessageBits(p + [a, b] + s) == MessageBits(p) + (a + b) + MessageBits(s)
  {
    MessageBitsConcat(p + [a, b], s);
    MessageBitsConcat(p, [a, b]);
    assert [b][1..] == [] && MessageBits([b]) == b + [];
    assert [a, b][1..] == [b] && MessageBits([a, b]) == a + (b + []);
  }

  // ----- Long division -----

  /** Long division of a polynomial by the generator: `w` is the remainder so far, and each step brings down the
      next coefficient. */
  function Remainder(w: Word, bits: Bits): Word
    decreases |bits|
  {
    if bits == [] then w else Remainder(Xor(Shift(w), Zeros(15) + bits[..1]), bits[1..])
  }

  lemma {:induction false} RemainderOfZeros(w: Word, k: nat)
    ensures Remainder(w, Zeros(k)) == Shifts(w, k)
    decreases k
  {
    if k > 0 {
      assert Zeros(k)[1..] == Zeros(k - 1) && Xor(Shift(w), Zeros(15) + Zeros(k)[..1]) == Shift(w);
      RemainderOfZeros(Shift(w), k - 1);
    }
  }

  lemma LowBitRisesOnce(b: bool, k: nat)
    requires 0 < k <= 15
    ensures Shift(Zeros(16 - k) + [b] + Zeros(k - 1)) == Zeros(15 - k) + [b] + Zeros(k)
  {
    var w := Zeros(16 - k) + [b] + Zeros(k - 1);
    assert !w[0] && w[1..] + [false] == Zeros(15 - k) + [b] + Zeros(k);
  }

  /** A one in the lowest place reaches the highest after 15 steps. */
  lemma {:induction false} LowBitRises(b: bool, k: nat)
    requires k <= 15
    ensures Shifts(Zeros(15) + [b], k) == Zeros(15 - k) + [b] + Zeros(k)
    decreases k
  {
    if k > 0 {
      LowBitRises(b, k - 1);
      ShiftsStep(Zeros(15) + [b], k - 1);
      LowBitRisesOnce(b, k);
    }
  }

  lemma {:induction false} ShiftsStep(w: Word, k: nat)
    ensures Shifts(w, k + 1) == Shift(Shifts(w, k))
    decreases k
  {
    if k > 0 { ShiftsStep(Shift(w), k - 1); }
  }

  /** The bit brought down rises to the top by itself in 15 steps; one more step then acts on it. */
  lemma BroughtDown(w: Word, b: bool)
    ensures Shifts(Xor(Shift(w), Zeros(15) + [b]), 16) == Shift(Xor(Shifts(w, 16), AtTop([b])))
  {
    var low := Zeros(15) + [b];
    ShiftsXor(Shift(w), low, 16);
    LowBitRises(b, 15);
    ShiftsStep(low, 15);
    ShiftsStep(w, 16);
    assert Zeros(0) + [b] + Zeros(15) == AtTop([b]);
    ShiftXor(Shifts(w, 16), AtTop([b]));
  }

  /** Adding bits at the top computes the remainder of the message times x^16. */
  lemma {:induction false} AddBitsIsRemainder(w: Word, bits: Bits)
    ensures AddBits(Shifts(w, 16), bits) == Remainder(w, bits + Zeros(16))
    decreases |bits|
  {
    var all := bits + Zeros(16);
    if bits == [] {
      assert all == Zeros(16);
      RemainderOfZeros(w, 16);
    } else {
      assert bits[..1] == [bits[0]] && all[..1] == bits[..1] && all[1..] == bits[1..] + Zeros(16);
      BroughtDown(w, bits[0]);
      AddBitsIsRemainder(Xor(Shift(w), Zeros(15) + bits[..1]), bits[1..]);
    }
  }

  lemma ChecksumIsRemainder(msg: seq<Byte>)
    ensures Checksum(Zeros(16), msg) == Remainder(Zeros(16), MessageBits(msg) + Zeros(16))
  {
    RemainderOfZeros(Zeros(16), 16);
    ShiftsOfZero(16);
    AddBitsIsRemainder(Zeros(16), MessageBits(msg));
  }

  // ----- Quotient and remainder -----

  /** The generator with its leading term */
  function Generator(): Bits { [true] + POLY }

  /** The product of a polynomial and the generator */
  function Times(q: Bits): (r: Bits)
    ensures |r| == |q| + 16
  {
    if q == [] then Zeros(16) else Xor(FirstTerm(q), [false] + Times(q[1..]))
  }

  /** The product of the leading term and the generator */
  function FirstTerm(q: Bits): (r: Bits)
    requires q != []
    ensures |r| == |q| + 16 && r[0] == q[0]
  {
    (if q[0] then Generator() else Zeros(17)) + Zeros(|q| - 1)
  }

  /** The quotient that long division writes down on the way */
  function Quotient(w: Word, bits: Bits): (q: Bits)
    ensures |q| == |bits|
    decreases |bits|
  {
    if bits == [] then [] else [w[0]] + Quotient(Xor(Shift(w), Zeros(15) + bits[..1]), bits[1..])
  }

  lemma XorAt(a: Bits, b: Bits, i: nat)
    requires |a| == |b| && i < |a|
    ensures Xor(a, b)[i] == (a[i] != b[i])
  {
  }

  /** One step of long division: bringing down a bit and subtracting the generator if it goes in */
  lemma DivisionStep(w: Word, b: bool)
    ensures w + [b] == Xor(if w[0] then Generator() else Zeros(17), [false] + Xor(Shift(w), Zeros(15) + [b]))
  {
    var g := if w[0] then Generator() else Zeros(17);
    var low := Zeros(15) + [b];
    forall i | 0 <= i < 17 ensures (w + [b])[i] == Xor(g, [false] + Xor(Shift(w), low))[i] {
      XorAt(g, [false] + Xor(Shift(w), low), i);
      if i > 0 {
        XorAt(Shift(w), low, i - 1);
        ShiftAt(w, i - 1);
      }
    }
  }

  lemma ShiftAt(w: Word, k: nat)
    requires k < 16
    ensures Shift(w)[k] == ((k < 15 && w[k + 1]) != (w[0] && POLY[k]))
  {
    if w[0] { XorAt(w[1..] + [false], POLY, k); }
  }

  lemma XorConcat(a: Bits, b: Bits, c: Bits, d: Bits)
    requires |a| == |b| && |c| == |d|
    ensures Xor(a + c, b + d) == Xor(a, b) + Xor(c, d)
  {
  }

  lemma XorAssoc(a: Bits, b: Bits, c: Bits)
    requires |a| == |b| == |c|
    ensures Xor(Xor(a, b), c) == Xor(a, Xor(b, c))
  {
  }

  lemma XorZeros(a: Bits)
    ensures Xor(Zeros(|a|), a) == a && Xor(a, Zeros(|a|)) == a
  {
  }

  /** What was divided is the quotient times the generator, plus the remainder. */
  lemma {:induction false} Divided(w: Word, bits: Bits)
    ensures w + bits == Xor(Times(Quotient(w, bits)), Zeros(|bits|) + Remainder(w, bits))
    decreases |bits|
  {
    var q, r := Quotient(w, bits), Remainder(w, bits);
    if bits == [] {
      XorZeros(w);
      assert Zeros(0) + r == r && w + bits == w;
    } else {
      var b, rest := bits[..1], bits[1..];
      var next := Xor(Shift(w), Zeros(15) + b);
      Divided(next, rest);
      assert b == [bits[0]] && q[0] == w[0] && q[1..] == Quotient(next, rest);
      BroughtDownTo(w, bits, q, next);
      Carried(FirstTerm(q), Times(q[1..]), Zeros(|rest|) + r);
      ZeroFront(|rest|, r);
    }
  }

  /** What remains to be divided after the first step */
  lemma BroughtDownTo(w: Word, bits: Bits, q: Bits, next: Word)
    requires bits != [] && |q| == |bits| && q[0] == w[0] && next == Xor(Shift(w), Zeros(15) + [bits[0]])
    ensures w + bits == Xor(FirstTerm(q), [false] + (next + bits[1..]))
  {
    var rest := bits[1..];
    DivisionStep(w, bits[0]);
    XorConcat(if w[0] then Generator() else Zeros(17), [false] + next, Zeros(|rest|), rest);
    XorZeros(rest);
    Regrouped(w, bits, next);
  }

  lemma Regrouped(w: Bits, bits: Bits, next: Bits)
    requires bits != []
    ensures w + bits == (w + [bits[0]]) + bits[1..]
    ensures ([false] + next) + bits[1..] == [false] + (next + bits[1..])
  {
  }

  lemma Carried(a: Bits, t: Bits, r: Bits)
    requires |a| == |t| + 1 && |t| == |r|
    ensures Xor(a, [false] + Xor(t, r)) == Xor(Xor(a, [false] + t), [false] + r)
  {
    XorConcat([false], [false], t, r);
    XorAssoc(a, [false] + t, [false] + r);
    assert Xor([false], [false]) == [false];
  }

  /** Quotient and remainder are determined. */
  lemma {:induction false} DivisionUnique(p: Bits, q: Bits, r: Word, s: Word)
    requires |p| == |q| && Xor(Times(p), Zeros(|p|) + r) == Xor(Times(q), Zeros(|q|) + s)
    ensures p == q && r == s
    decreases |p|
  {
    var n := |p|;
    if n == 0 {
      XorZeros(r);
      XorZeros(s);
      assert Zeros(0) + r == r && Zeros(0) + s == s;
    } else {
      var x, y := Xor(Times(p[1..]), Zeros(n - 1) + r), Xor(Times(q[1..]), Zeros(n - 1) + s);
      Leading(p, r);
      Leading(q, s);
      XorAt(FirstTerm(p), [false] + x, 0);
      XorAt(FirstTerm(q), [false] + y, 0);
      assert FirstTerm(p) == FirstTerm(q);
      XorSwap(FirstTerm(p), [false] + x);
      XorSwap(FirstTerm(p), [false] + y);
      XorCancel([false] + x, [false] + y, FirstTerm(p));
      assert x == ([false] + x)[1..] && y == ([false] + y)[1..];
      DivisionUnique(p[1..], q[1..], r, s);
    }
  }

  lemma XorSwap(a: Bits, b: Bits)
    requires |a| == |b|
    ensures Xor(a, b) == Xor(b, a)
  {
  }

  lemma Leading(q: Bits, r: Word)
    requires q != []
    ensures Xor(Times(q), Zeros(|q|) + r) == Xor(FirstTerm(q), [false] + Xor(Times(q[1..]), Zeros(|q| - 1) + r))
  {
    var low := Zeros(|q| - 1) + r;
    ZeroFront(|q| - 1, r);
    LeadingBits(q, low);
  }

  lemma LeadingBits(q: Bits, low: Bits)
    requires q != [] && |low| == |q| + 15
    ensures Xor(Times(q), [false] + low) == Xor(FirstTerm(q), [false] + Xor(Times(q[1..]), low))
  {
    Carried(FirstTerm(q), Times(q[1..]), low);
  }

  lemma ZeroFront(n: nat, r: Bits)
    ensures [false] + (Zeros(n) + r) == Zeros(n + 1) + r
  {
    assert [false] + Zeros(n) == Zeros(n + 1);
    assert [false] + (Zeros(n) + r) == ([false] + Zeros(n)) + r;
  }

  /** The dividend is q times the generator, plus r. */
  predicate DividesTo(dividend: Bits, q: Bits, r: Word) {
    |q| == |dividend| && Zeros(16) + dividend == Xor(Times(q), Zeros(|q|) + r)
  }

  lemma DividesToOne(dividend: Bits, q: Bits, r: Word)
    requires DividesTo(dividend, q, r)
    ensures r == Remainder(Zeros(16), dividend)
  {
    Divided(Zeros(16), dividend);
    DivisionUnique(q, Quotient(Zeros(16), dividend), r, Remainder(Zeros(16), dividend));
  }

  /** The checksum is the one word r for which the message times x^16 is a multiple of the generator plus r. */
  lemma ChecksumIsTheRemainder(msg: seq<Byte>, r: Word)
    ensures r == Checksum(Zeros(16), msg) <==> exists q: Bits :: DividesTo(MessageBits(msg) + Zeros(16), q, r)
  {
    var all := MessageBits(msg) + Zeros(16);
    ChecksumIsRemainder(msg);
    if r == Checksum(Zeros(16), msg) {
      Divided(Zeros(16), all);
      assert DividesTo(all, Quotient(Zeros(16), all), r);
    }
    if q: Bits :| DividesTo(all, q, r) {
      DividesToOne(all, q, r);
    }
  }

  lemma {:induction false} ShiftsOfZero(k: nat)
    ensures Shifts(Zeros(16), k) == Zeros(16)
    decreases k
  {
    if k > 0 {
      assert Shift(Zeros(16)) == Zeros(16);
      ShiftsOfZero(k - 1);
    }
  }

  /** An initial value acts like an exclusive or on the first two bytes. */
  lemma InitialValue(init: Word, a: Byte, b: Byte, s: seq<Byte>)
    ensures Checksum(init, [a, b] + s) == Checksum(Zeros(16), [Xor(a, init[..8]), Xor(b, init[8..])] + s)
  {
    var a', b' := Xor(a, init[..8]), Xor(b, init[8..]);
    PairAdded(init, a, b, s);
    PairAdded(Zeros(16), a', b', s);
    XorPair(init, a, b);
    XorZeros(a' + b');
  }

  lemma XorPair(init: Word, a: Byte, b: Byte)
    ensures Xor(init, a + b) == Xor(a, init[..8]) + Xor(b, init[8..])
  {
  }

  lemma PairAdded(c: Word, a: Byte, b: Byte, s: seq<Byte>)
    ensures Checksum(c, [a, b] + s) == AddBits(Shifts(Xor(c, a + b), 16), MessageBits(s))
  {
    assert [] + [a, b] + s == [a, b] + s;
    PairBits([], a, b, s);
    assert [] + (a + b) + MessageBits(s) == (a + b) + MessageBits(s);
    AddBitsConcat(c, a + b, MessageBits(s));
    AddBitsAtOnce(c, a + b);
    assert AtTop(a + b) == a + b;
  }

  // ----- The table -----

  function NatOf(n: Nibble): (v: nat)
    ensures v < 16
  {
    8 * Num(n[0]) + 4 * Num(n[1]) + 2 * Num(n[2]) + Num(n[3])
  }

  function Num(b: bool): nat { if b then 1 else 0 }

  function Entry(n: Nibble): Word { Short(CRC_TA[NatOf(n)]) }

  /** One table step: the high nibble of the checksum and a message nibble select the entry. */
  function TableStep(c: Word, n: Nibble): Word { Xor(c[4..] + Zeros(4), Entry(Xor(c[..4], n))) }

  /** Entry n is n times x^12 + x^5 + 1, and the three copies of n do not overlap. */
  lemma EntryBits(n: Nibble)
    ensures Entry(n) == n + Zeros(3) + n + Zeros(1) + n
  {
    var v := NatOf(n);
    assert CRC_TA[v] == v * 0x1021;
    ShortOfMultiple(n);
  }

  lemma ShortOfMultiple(n: Nibble)
    ensures Short(NatOf(n) * 0x1021) == n + Zeros(3) + n + Zeros(1) + n
  {
    var v := NatOf(n);
    DigitsOfNibble(n);
    ThreeCopies(v);
  }

  lemma ThreeCopies(v: nat)
    requires v < 16
    ensures Short(v * 0x1021) == Digits(v, 4) + Zeros(3) + Digits(v, 4) + Zeros(1) + Digits(v, 4)
  {
    UpperCopy(v);
    LowerCopies(v);
    PaddedCopy(v, 3);
    PaddedCopy(v, 1);
    Assembled(Short(v * 0x1021), Digits(v * 0x21, 12), Digits(v, 7), Digits(v, 5), Digits(v, 4));
  }

  lemma Assembled(word: Bits, lower: Bits, seven: Bits, five: Bits, d: Bits)
    requires word == d + lower && lower == seven + five && seven == Zeros(3) + d && five == Zeros(1) + d
    ensures word == d + Zeros(3) + d + Zeros(1) + d
  {
  }

  lemma UpperCopy(v: nat)
    requires v < 16
    ensures Short(v * 0x1021) == Digits(v, 4) + Digits(v * 0x21, 12)
  {
    Powers();
    DigitsSplit(v, v * 0x21, 4, 12, v * 0x1021);
  }

  lemma LowerCopies(v: nat)
    requires v < 16
    ensures Digits(v * 0x21, 12) == Digits(v, 7) + Digits(v, 5)
  {
    Powers();
    DigitsSplit(v, v, 7, 5, v * 0x21);
  }

  lemma PaddedCopy(v: nat, k: nat)
    requires v < 16
    ensures Digits(v, k + 4) == Zeros(k) + Digits(v, 4)
  {
    Powers();
    DigitsSplit(0, v, k, 4, v);
    DigitsOfZero(k);
  }

  lemma Powers()
    ensures Pow2(4) == 16 && Pow2(5) == 32 && Pow2(12) == 0x1000
  {
    assert Pow2(8) == 0x100;
  }

  lemma {:induction false} DigitsOfZero(k: nat)
    ensures Digits(0, k) == Zeros(k)
  {
    if k > 0 { DigitsOfZero(k - 1); }
  }

  /** The digits of a number are those of its upper part followed by those of its lower part. */
  lemma {:induction false} DigitsSplit(v: nat, w: nat, k: nat, j: nat, q: nat)
    requires w < Pow2(j) && q == v * Pow2(j) + w
    ensures Digits(q, k + j) == Digits(v, k) + Digits(w, j)
    decreases j
  {
    if j > 0 {
      var half := v * Pow2(j - 1);
      Doubled(v, Pow2(j - 1));
      assert q == 2 * half + w;
      DigitsSplit(v, w / 2, k, j - 1, q / 2);
    }
  }

  lemma Doubled(v: nat, p: nat)
    ensures v * (2 * p) == 2 * (v * p)
  {
  }

  lemma DigitsOfNibble(n: Nibble)
    ensures Digits(NatOf(n), 4) == n
  {
    var v := NatOf(n);
    assert v / 2 == 4 * Num(n[0]) + 2 * Num(n[1]) + Num(n[2]);
    assert v / 2 / 2 == 2 * Num(n[0]) + Num(n[1]);
    assert v / 2 / 2 / 2 == Num(n[0]);
    assert Digits(v / 2 / 2 / 2, 1) == [n[0]];
    assert Digits(v / 2 / 2, 2) == [n[0], n[1]];
    assert Digits(v / 2, 3) == [n[0], n[1], n[2]];
  }

  /** A nibble after k steps: its k highest bits have left the top and stand in the places of the generator. */
  function Spread(n: Nibble, k: nat): Word
    requires k <= 4
  {
    n[k..] + n[..k] + Zeros(7 - k) + n[..k] + Zeros(5 - k) + n[..k]
  }

  lemma SpreadStep(n: Nibble, k: nat)
    requires k < 4
    ensures Shift(Spread(n, k)) == Spread(n, k + 1)
  {
    PolyBits();
    var w, r := Spread(n, k), Spread(n, k + 1);
    assert w[0] == n[k];
    forall i | 0 <= i < 16 ensures Shift(w)[i] == r[i] {
      SpreadAt(n, k + 1, i);
      if i < 15 { SpreadAt(n, k, i + 1); }
    }
  }

  lemma SpreadAt(n: Nibble, k: nat, i: nat)
    requires k <= 4 && i < 16
    ensures Spread(n, k)[i] == (
      if i < 4 - k then n[i + k] else if i < 4 then n[i - (4 - k)]
      else if i < 11 - k then false else if i < 11 then n[i - (11 - k)]
      else if i < 16 - k then false else n[i - (16 - k)])
  {
  }

  /** Four steps on a nibble alone give the same three copies. */
  lemma NibbleShifts(n: Nibble)
    ensures Shifts(AtTop(n), 4) == n + Zeros(3) + n + Zeros(1) + n
  {
    assert AtTop(n) == Spread(n, 0) && Spread(n, 4) == n + Zeros(3) + n + Zeros(1) + n;
    SpreadStep(n, 0);
    SpreadStep(n, 1);
    SpreadStep(n, 2);
    SpreadStep(n, 3);
    assert Shifts(Spread(n, 3), 1) == Spread(n, 4);
    assert Shifts(Spread(n, 2), 2) == Spread(n, 4);
    assert Shifts(Spread(n, 1), 3) == Spread(n, 4);
  }

  lemma PolyBits()
    ensures forall i :: 0 <= i < 16 ==> POLY[i] == (i in {3, 10, 15})
  {
    var one := [false, false, false, true];
    assert NatOf(one) == 1;
    ShortOfMultiple(one);
  }

  lemma TableEntry(n: Nibble)
    ensures Entry(n) == Shifts(AtTop(n), 4)
  {
    EntryBits(n);
    NibbleShifts(n);
  }

  /** A word whose highest four bits are zero is only moved up. */
  lemma LowShifts(w: Word)
    requires w[..4] == Zeros(4)
    ensures Shifts(w, 4) == w[4..] + Zeros(4)
  {
    assert w[0] == w[..4][0] && w[1] == w[..4][1] && w[2] == w[..4][2] && w[3] == w[..4][3];
    var a := Shift(w);
    var b := Shift(a);
    var c := Shift(b);
    var d := Shift(c);
    assert a == w[1..] + Zeros(1);
    assert b == w[2..] + Zeros(2);
    assert c == w[3..] + Zeros(3);
    assert d == w[4..] + Zeros(4);
    assert Shifts(c, 1) == d;
    assert Shifts(b, 2) == d;
    assert Shifts(a, 3) == d;
  }

  /** One table step does four single steps. */
  lemma TableStepIsFour(c: Word, n: Nibble)
    ensures TableStep(c, n) == AddBits(c, n)
  {
    AddBitsAtOnce(c, n);
    var high, low := Xor(c[..4], n), Zeros(4) + c[4..];
    assert Xor(c, AtTop(n)) == Xor(low, AtTop(high));
    ShiftsXor(low, AtTop(high), 4);
    LowShifts(low);
    assert low[4..] == c[4..];
    TableEntry(high);
  }

  lemma ByteIsTwoSteps(c: Word, b: Byte)
    ensures TableStep(TableStep(c, b[..4]), b[4..]) == AddBits(c, b)
  {
    TableStepIsFour(c, b[..4]);
    TableStepIsFour(TableStep(c, b[..4]), b[4..]);
    assert b[..4] + b[4..] == b;
    AddBitsConcat(c, b[..4], b[4..]);
  }

  lemma ChecksumSnoc(init: Word, msg: seq<Byte>, b: Byte)
    ensures Checksum(init, msg + [b]) == AddBits(Checksum(init, msg), b)
  {
    ChecksumConcat(init, msg, [b]);
    assert [b][1..] == [] && MessageBits([b]) == b + [] == b;
  }

  /** The body of the loop of `crc16`: the two halves of a byte */
  method AddByte(crc: Word, b: Byte) returns (r: Word)
    ensures r == AddBits(crc, b)
  {
    ByteIsTwoSteps(crc, b);
    var da := crc[..4];
    r := crc[4..] + Zeros(4);
    r := Xor(r, Entry(Xor(da, b[..4])));
    da := r[..4];
    r := r[4..] + Zeros(4);
    r := Xor(r, Entry(Xor(da, b[4..])));
  }

  /** `crc16`: a count that is not positive reads nothing. */
  method Crc16(init_crc: Word, buff: array<Byte>, len: int) returns (crc: Word)
    requires len <= buff.Length
    ensures crc == Checksum(init_crc, if len > 0 then buff[..len] else [])
  {
    crc := init_crc;
    var ptr, left := 0, len;
    while left > 0
      invariant 0 <= ptr && (len > 0 ==> left >= 0 && ptr + left == len) && (len <= 0 ==> ptr == 0 && left == len)
      invariant ptr <= buff.Length && crc == Checksum(init_crc, buff[..ptr])
    {
      left := left - 1;
      assert buff[..ptr + 1] == buff[..ptr] + [buff[ptr]];
      ChecksumSnoc(init_crc, buff[..ptr], buff[ptr]);
      crc := AddByte(crc, buff[ptr]);
      ptr := ptr + 1;
    }
  }
}
