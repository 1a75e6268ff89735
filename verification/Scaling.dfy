/** Fixed-point scaling factors: `calc_mult_shift` picks `mult` and `shift` so that x * mult >> shift stands for
    x * to / from, for counts x up to max_from seconds at the rate `from`.

    The program's words are natural numbers here; every intermediate value is shown to fit its 64-bit word. */
module Scaling {
  import opened Arith

  const U32: nat := 0x1_0000_0000
  const U64: nat := 0x1_0000_0000_0000_0000

  lemma WordSizes()
    ensures Pow2(32) == U32 && Pow2(64) == U64
  {
    assert Pow2(8) == 0x100;
    Pow2Add(8, 8);
    Pow2Add(16, 16);
    Pow2Add(32, 32);
  }

  // ----- The bound on the factor -----

  /** `a` bits are left for the factor beside counts up to `m`: the largest number up to 32 for which a factor
      below 2^a times `m` cannot leave the 64-bit word */
  predicate Headroom(m: nat, a: nat) {
    a <= 32 && m < Pow2(64 - a) && (a < 32 ==> m >= Pow2(63 - a))
  }

  lemma HeadroomUnique(m: nat, a: nat, b: nat)
    requires Headroom(m, a) && Headroom(m, b)
    ensures a == b
  {
    if a < b {
      Pow2Monotone(64 - b, 63 - a);
    } else if b < a {
      Pow2Monotone(64 - a, 63 - b);
    }
  }

  /** The loop over `tmp`: each halving gives up one bit of the factor. */
  method CountHeadroom(max_from: nat, from: nat) returns (sftacc: nat)
    requires max_from < U32 && from < U32
    ensures max_from * from < U64
    ensures Headroom(max_from * from, sftacc)
  {
    WordSizes();
    ProductBelow(max_from, from, U32, U32);
    ghost var m: nat := max_from * from;
    var tmp: nat := max_from * from / U32;
    sftacc := 32;
    LeftStart(m);
    while tmp != 0
      invariant Left(m, tmp, sftacc)
      decreases tmp
    {
      LeftStep(m, tmp, sftacc);
      tmp := tmp / 2;
      sftacc := sftacc - 1;
    }
    QuotientIsZero(m, Pow2(64 - sftacc));
  }

  /** What the loop keeps: `tmp` is what remains of `m` above the bits given up so far. */
  predicate Left(m: nat, tmp: nat, a: nat) {
    a <= 32 && tmp == m / Pow2(64 - a) && tmp < Pow2(a) && (a < 32 ==> m >= Pow2(63 - a))
  }

  lemma LeftStart(m: nat)
    requires m < U64
    ensures Left(m, m / U32, 32)
  {
    WordSizes();
    Quotient(m, U32);
    var q := m / U32;
    if q >= U32 { ProductOrder(U32, U32, q); }
  }

  lemma LeftStep(m: nat, tmp: nat, a: nat)
    requires Left(m, tmp, a) && tmp != 0
    ensures a > 0 && Left(m, tmp / 2, a - 1)
  {
    QuotientIsZero(m, Pow2(64 - a));
    HalfQuotient(m, Pow2(64 - a));
  }

  // ----- Rounding -----

  /** to * 2^s / from, rounded to the nearest integer */
  function Scaled(from: nat, to: nat, s: nat): nat
    requires from > 0
  {
    (to * Pow2(s) + from / 2) / from
  }

  function Abs(x: int): nat { if x < 0 then -x else x }

  /** x is a rounding of y / d. */
  predicate Rounds(x: nat, y: nat, d: nat) { Abs(x * d - y) <= d / 2 }

  lemma ScaledRounds(from: nat, to: nat, s: nat)
    requires from > 0
    ensures Rounds(Scaled(from, to, s), to * Pow2(s), from)
  {
    var x := to * Pow2(s) + from / 2;
    var q := x / from;
    assert x == from * q + x % from;
    assert from * q == q * from;
  }

  lemma ScaledMonotone(from: nat, to: nat, j: nat, k: nat)
    requires from > 0 && j <= k
    ensures Scaled(from, to, j) <= Scaled(from, to, k)
  {
    Pow2Monotone(j, k);
    assert to * Pow2(j) <= to * Pow2(k);
    QuotientMonotone(to * Pow2(j) + from / 2, to * Pow2(k) + from / 2, from);
  }

  /** An `os_uint64_t` holds the value modulo 2^64. */
  function Wrap64(x: nat): nat { x % U64 }

  lemma NoWrap(x: nat)
    requires x < U64
    ensures Wrap64(x) == x
  {
  }

  /** Neither the shifted value nor the rounding term leaves the 64-bit word. */
  lemma NoOverflow(from: nat, to: nat, s: nat)
    requires 0 < from < U32 && to < U32 && s <= 32
    ensures Wrap64(to * Pow2(s)) == to * Pow2(s)
    ensures Wrap64(Wrap64(to * Pow2(s)) + from / 2) / from == Scaled(from, to, s)
  {
    WordSizes();
    Pow2Monotone(s, 32);
    var x := to * Pow2(s);
    ProductFits(to, Pow2(s));
    NoWrap(x);
    NoWrap(x + from / 2);
  }

  lemma ProductFits(to: nat, p: nat)
    requires to < U32 && p <= U32
    ensures to * p + U32 <= U64
  {
    ProductOrder(to, p, U32);
  }

  // ----- The two loops together -----

  /** What `calc_mult_shift` is for: counts up to max_from seconds can be multiplied within the 64-bit word, and
      the factor is the right one up to rounding. */
  predicate Usable(from: nat, to: nat, max_from: nat, mult: nat, shift: nat) {
    max_from * from * mult < U64 && Rounds(mult, to * Pow2(shift), from)
  }

  /** The loop is left by its break. */
  predicate Breaks(from: nat, to: nat, sftacc: nat)
    requires from > 0
  {
    Scaled(from, to, 1) < Pow2(sftacc)
  }

  /** No shift above `s` leaves the factor below its bound. */
  predicate AllAbove(from: nat, to: nat, sftacc: nat, shift: nat)
    requires from > 0
  {
    forall s :: shift < s <= 32 ==> Scaled(from, to, s) >= Pow2(sftacc)
  }

  /** The shift is the largest in 1..32 that leaves the factor below its bound. */
  predicate LargestShift(from: nat, to: nat, sftacc: nat, shift: nat)
    requires from > 0
  {
    1 <= shift <= 32 && Scaled(from, to, shift) < Pow2(sftacc) && AllAbove(from, to, sftacc, shift)
  }

  method CalcMultShift(from: nat, to: nat, max_from: nat) returns (mult: nat, shift: nat, ghost sftacc: nat)
    requires 0 < from < U32 && to < U32 && max_from < U32
    ensures mult < U32 && shift <= 32
    ensures Headroom(max_from * from, sftacc)
    ensures shift > 0 <==> Breaks(from, to, sftacc)
    ensures shift > 0 ==> LargestShift(from, to, sftacc, shift) && mult == Scaled(from, to, shift)
    ensures shift > 0 ==> Usable(from, to, max_from, mult, shift)
    // Without a break the factor still belongs to the shift 1.
    ensures shift == 0 ==> mult == Scaled(from, to, 1) % U32
  {
    var acc := CountHeadroom(max_from, from);
    sftacc := acc;
    var tmp;
    tmp, shift := TryShifts(from, to, acc);
    if shift > 0 { AfterBreak(from, to, max_from, acc, shift); }
    mult := tmp % U32;
  }

  /** The factor for one shift, in 64-bit arithmetic */
  method Scale(from: nat, to: nat, sft: nat) returns (tmp: nat)
    requires 0 < from < U32 && to < U32 && sft <= 32
    ensures tmp == Scaled(from, to, sft)
  {
    NoOverflow(from, to, sft);
    tmp := Wrap64(to * Pow2(sft));
    tmp := Wrap64(tmp + from / 2);
    tmp := tmp / from;
  }

  /** The loop over `sft` */
  method TryShifts(from: nat, to: nat, sftacc: nat) returns (tmp: nat, sft: nat)
    requires 0 < from < U32 && to < U32
    ensures sft == 0 ==> !Breaks(from, to, sftacc) && tmp == Scaled(from, to, 1)
    ensures sft > 0 ==> LargestShift(from, to, sftacc, sft) && tmp == Scaled(from, to, sft)
  {
    sft, tmp := 32, 0;
    while sft > 0
      invariant 0 <= sft <= 32 && AllAbove(from, to, sftacc, sft)
      invariant sft < 32 ==> tmp == Scaled(from, to, sft + 1) >= Pow2(sftacc)
    {
      tmp := Scale(from, to, sft);
      QuotientIsZero(tmp, Pow2(sftacc));
      if tmp / Pow2(sftacc) == 0 { break; }
      sft := sft - 1;
    }
  }

  lemma AfterBreak(from: nat, to: nat, max_from: nat, sftacc: nat, shift: nat)
    requires 0 < from && 1 <= shift && Headroom(max_from * from, sftacc) && Scaled(from, to, shift) < Pow2(sftacc)
    ensures Scaled(from, to, shift) < U32
    ensures Breaks(from, to, sftacc) && Usable(from, to, max_from, Scaled(from, to, shift), shift)
  {
    WordSizes();
    Pow2Monotone(sftacc, 32);
    ScaledMonotone(from, to, 1, shift);
    ScaledRounds(from, to, shift);
    BoundedFactor(max_from * from, sftacc, Scaled(from, to, shift));
  }

  lemma BoundedFactor(m: nat, a: nat, f: nat)
    requires Headroom(m, a) && f < Pow2(a)
    ensures m * f < U64
  {
    WordSizes();
    Pow2Add(64 - a, a);
    ProductBelow(m, f, Pow2(64 - a), Pow2(a));
  }

  // ----- When there is no break -----

  /** The one case in which the result is right although no shift meets the bound: counts use the whole word, and
      the factor 1 without a shift is itself a rounding of to / from. */
  predicate OneByOne(from: nat, to: nat, sftacc: nat)
    requires from > 0
  {
    sftacc == 0 && Scaled(from, to, 1) == 1 && from <= 2 * to
  }

  /** The result is usable exactly when the loop breaks or in that one case. */
  lemma UsableIff(from: nat, to: nat, max_from: nat, sftacc: nat, mult: nat, shift: nat)
    requires 0 < from < U32 && to < U32 && max_from < U32
    requires Headroom(max_from * from, sftacc)
    requires shift > 0 <==> Breaks(from, to, sftacc)
    requires shift > 0 ==> Usable(from, to, max_from, mult, shift)
    requires shift == 0 ==> mult == Scaled(from, to, 1) % U32
    ensures Usable(from, to, max_from, mult, shift) <==> Breaks(from, to, sftacc) || OneByOne(from, to, sftacc)
  {
    if shift == 0 {
      if Scaled(from, to, 1) == 1 {
        ScaledTwice(from, to);
        FactorOne(from, to, max_from, sftacc);
      } else {
        UnbrokenMany(from, to, sftacc);
      }
    }
  }

  lemma ScaledTwice(from: nat, to: nat)
    requires from > 0
    ensures Pow2(0) == 1 && Pow2(1) == 2 && to * Pow2(0) == to && to * Pow2(1) == 2 * to
    ensures Rounds(Scaled(from, to, 1), 2 * to, from)
  {
    ScaledRounds(from, to, 1);
  }

  /** A factor for the shift 1 that is not 1 is no rounding for the shift 0. */
  lemma UnbrokenMany(from: nat, to: nat, sftacc: nat)
    requires 0 < from < U32 && to < U32 && !Breaks(from, to, sftacc) && Scaled(from, to, 1) != 1
    ensures !Rounds(Scaled(from, to, 1) % U32, to * Pow2(0), from) && !OneByOne(from, to, sftacc)
  {
    var f := Scaled(from, to, 1);
    ScaledTwice(from, to);
    if sftacc > 0 { Pow2Monotone(1, sftacc); }
    if f >= U32 { TooLarge(from, to, f); } else { Doubled(from, to, f); }
  }

  lemma FactorOne(from: nat, to: nat, max_from: nat, sftacc: nat)
    requires 0 < from < U32 && Headroom(max_from * from, sftacc)
    requires Scaled(from, to, 1) == 1 >= Pow2(sftacc) && Rounds(1, 2 * to, from)
    ensures Usable(from, to, max_from, 1, 0) <==> OneByOne(from, to, sftacc)
  {
    Pow2Monotone(if sftacc > 0 then 1 else 0, sftacc);
    assert Pow2(1) == 2;
    HeadroomFits(max_from * from, sftacc);
    RoundsToOne(from, to);
    assert to * Pow2(0) == to;
  }

  lemma RoundsToOne(from: nat, to: nat)
    requires from > 0 && Rounds(1, 2 * to, from)
    ensures Rounds(1, to, from) <==> from <= 2 * to
  {
  }

  lemma HeadroomFits(m: nat, a: nat)
    requires Headroom(m, a)
    ensures m < U64
  {
    WordSizes();
    Pow2Monotone(64 - a, 64);
  }

  /** A factor of two or more taken for the shift 1 is wrong for the shift 0. */
  lemma Doubled(from: nat, to: nat, f: nat)
    requires from > 0 && f >= 2 && Rounds(f, 2 * to, from)
    ensures !Rounds(f, to, from)
  {
    ProductOrder(from, 2, f);
    Commute(from, f);
  }

  /** The truncation to 32 bits happens only for from == 1, and the factor is then wrong. */
  lemma TooLarge(from: nat, to: nat, f: nat)
    requires 0 < from && to < U32 && f >= U32 && Rounds(f, 2 * to, from)
    ensures !Rounds(f % U32, to, from)
  {
    ProductOrder(from, U32, f);
    Commute(from, f);
    assert from < 2;
    assert f == 2 * to && f % U32 == f - U32;
  }

  /** Such calls exist: a factor of 2^32 - 1 without fraction bits is not representable. */
  lemma NotUsable()
    ensures Headroom(1 * 1, 32) && !Breaks(1, U32 - 1, 32)
    ensures !Usable(1, U32 - 1, 1, Scaled(1, U32 - 1, 1) % U32, 0)
  {
    WordSizes();
    Pow2Monotone(1, 32);
    assert Pow2(1) == 2 && Scaled(1, U32 - 1, 1) == 2 * (U32 - 1);
    UsableIff(1, U32 - 1, 1, 32, Scaled(1, U32 - 1, 1) % U32, 0);
  }

  // ----- Conversions -----

  /** The conversion x * mult >> shift of a count within the promised range does not leave the 64-bit word and
      differs from x * to / from by less than one unit and the rounding of the factor. */
  lemma Conversion(from: nat, to: nat, max_from: nat, mult: nat, shift: nat, x: nat)
    requires from > 0 && Usable(from, to, max_from, mult, shift) && x <= max_from * from
    ensures Wrap64(x * mult) == x * mult
    ensures var p := Pow2(shift); var y := x * mult / p;
      && y * p * from <= x * to * p + x * (from / 2)
      && x * to * p < (y + 1) * p * from + x * (from / 2)
  {
    var p := Pow2(shift);
    var z := x * mult;
    var y := z / p;
    ProductOrder(mult, x, max_from * from);
    Commute(mult, x);
    Commute(mult, max_from * from);
    NoWrap(z);
    Quotient(z, p);
    Commute(p, y);
    Commute(p, y + 1);
    Distribute(p, y, 1);
    FactorError(x, mult, from, to, p);
    ProductOrder(from, y * p, z);
    ProductOrder(from, z, (y + 1) * p);
    Commute(from, y * p);
    Commute(from, z);
    Commute(from, (y + 1) * p);
  }

  lemma FactorError(x: nat, mult: nat, from: nat, to: nat, p: nat)
    requires Rounds(mult, to * p, from)
    ensures x * to * p - x * (from / 2) <= x * mult * from <= x * to * p + x * (from / 2)
  {
    Product3(x, mult, from);
    Product3(x, to, p);
    var h := from / 2;
    ProductOrder(x, mult * from, to * p + h);
    Distribute(x, to * p, h);
    ProductOrder(x, to * p - h, mult * from);
  }
}
