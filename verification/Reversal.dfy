/** The table `rev` of the bundled fflate code: four rounds of masks and shifts reverse the
    bits of a 15-bit number. */
module Reversal {
  import opened Words
  import opened Huffman

  // ---- and, or and shifts on the two ends of a number ----------------------------------

  lemma {:induction false} AndSplit(a: nat, b: nat, c: nat, d: nat, k: nat)
    requires a < Pow2(k) && c < Pow2(k)
    ensures BitAnd(a + Shl(b, k), c + Shl(d, k)) == BitAnd(a, c) + Shl(BitAnd(b, d), k)
  {
    hide Shl, BitAnd;
    if k > 0 {
      var (p, r, q, s) := FourHalves(a, c, k);
      AndSplit(p, b, q, d, k - 1);
      AndBits(p + Shl(b, k - 1), q + Shl(d, k - 1), r, s);
      AndBits(p, q, r, s);
      ShlDown(b, k);
      ShlDown(d, k);
      ShlDown(BitAnd(b, d), k);
    } else {
      NoBits(a, b, c, d);
    }
  }

  lemma {:induction false} OrSplit(a: nat, b: nat, c: nat, d: nat, k: nat)
    requires a < Pow2(k) && c < Pow2(k)
    ensures BitOr(a + Shl(b, k), c + Shl(d, k)) == BitOr(a, c) + Shl(BitOr(b, d), k)
  {
    hide Shl, BitOr;
    if k > 0 {
      var (p, r, q, s) := FourHalves(a, c, k);
      OrSplit(p, b, q, d, k - 1);
      OrBits(p + Shl(b, k - 1), q + Shl(d, k - 1), r, s);
      OrBits(p, q, r, s);
      ShlDown(b, k);
      ShlDown(d, k);
      ShlDown(BitOr(b, d), k);
    } else {
      NoBits(a, b, c, d);
    }
  }

  /** Both numbers without their lowest bits, and those. */
  function FourHalves(a: nat, c: nat, k: nat): (h: (nat, nat, nat, nat))
    requires k > 0 && a < Pow2(k) && c < Pow2(k)
    ensures a == 2 * h.0 + h.1 && c == 2 * h.2 + h.3 && h.1 < 2 && h.3 < 2
    ensures h.0 < Pow2(k - 1) && h.2 < Pow2(k - 1)
  {
    (a / 2, a % 2, c / 2, c % 2)
  }

  lemma AndBits(p: nat, q: nat, r: nat, s: nat)
    requires r < 2 && s < 2
    ensures BitAnd(2 * p + r, 2 * q + s) == (if r == 1 && s == 1 then 1 else 0) + 2 * BitAnd(p, q)
  {
    assert (2 * p + r) / 2 == p && (2 * q + s) / 2 == q;
  }

  lemma OrBits(p: nat, q: nat, r: nat, s: nat)
    requires r < 2 && s < 2
    ensures BitOr(2 * p + r, 2 * q + s) == (if r == 1 || s == 1 then 1 else 0) + 2 * BitOr(p, q)
  {
    assert (2 * p + r) / 2 == p && (2 * q + s) / 2 == q;
  }

  lemma ShlDown(x: nat, k: nat)
    requires k > 0
    ensures Shl(x, k) == 2 * Shl(x, k - 1)
  {
  }

  lemma NoBits(a: nat, b: nat, c: nat, d: nat)
    requires a < Pow2(0) && c < Pow2(0)
    ensures a == 0 && c == 0 && Shl(b, 0) == b && Shl(d, 0) == d && BitAnd(0, 0) == 0 && BitOr(0, 0) == 0
    ensures forall x :: Shl(x, 0) == x
  {
  }

  // ---- one round ---------------------------------------------------------------------------

  /** n groups of 2w bits, with ones in the lower half of each. */
  function LowMask(w: nat, n: nat): nat {
    if n == 0 then 0 else Pow2(w) - 1 + Shl(LowMask(w, n - 1), 2 * w)
  }

  /** One round of the loop body: the upper halves down, the lower halves up. */
  function Round(x: nat, high: nat, low: nat, w: nat): nat {
    BitOr(Shr(BitAnd(x, high), w), Shl(BitAnd(x, low), w))
  }

  /** The two halves of each of n groups of 2w bits exchanged. */
  function Swapped(w: nat, n: nat, x: nat): nat {
    if n == 0 then 0
    else
      var (lo, hi) := (Low(x, w), Low(Shr(x, w), w));
      hi + Shl(lo, w) + Shl(Swapped(w, n - 1, Shr(x, 2 * w)), 2 * w)
  }

  /** A number's lowest two groups of w bits and the rest. */
  lemma Parts(x: nat, w: nat)
    ensures var (lo, hi, rest) := (Low(x, w), Low(Shr(x, w), w), Shr(x, 2 * w));
            && lo < Pow2(w) && hi < Pow2(w) && x == lo + Shl(hi + Shl(rest, w), w)
  {
    hide Shl, Shr, Low;
    Split(x, w);
    Split(Shr(x, w), w);
    ShrShr(x, w, w);
  }

  lemma AndNothing(x: nat)
    ensures BitAnd(x, 0) == 0 && BitAnd(0, x) == 0
  {
    BitAndNothing(x);
  }

  /** What a round's masks keep: the lower halves where they are, the upper halves moved
      down already. */
  lemma {:induction false} MaskedParts(x: nat, w: nat, n: nat)
    requires n > 0
    ensures var (lo, hi, rest) := (Low(x, w), Low(Shr(x, w), w), Shr(x, 2 * w));
            && BitAnd(x, LowMask(w, n)) == lo + Shl(BitAnd(rest, LowMask(w, n - 1)), 2 * w)
            && BitAnd(x, Shl(LowMask(w, n), w)) == Shl(hi + Shl(BitAnd(rest, Shl(LowMask(w, n - 1), w)), w), w)
  {
    hide Shl, Shr, Low, BitAnd;
    var (lo, hi, rest) := (Low(x, w), Low(Shr(x, w), w), Shr(x, 2 * w));
    var (ones, m) := (Pow2(w) - 1, LowMask(w, n - 1));
    Parts(x, w);
    assert Pow2(w) > 0 by { PowPositive(w); }
    ShlShl(m, w, w);
    assert LowMask(w, n) == ones + Shl(0 + Shl(m, w), w);
    AndSplit(lo, hi + Shl(rest, w), ones, 0 + Shl(m, w), w);
    AndSplit(hi, rest, 0, m, w);
    BitAndOnes(lo, w);
    LowSmall(lo, w);
    AndNothing(hi);
    ShlShl(BitAnd(rest, m), w, w);
    ShlAdd(ones, Shl(m, 2 * w), w);
    ShlShl(m, 2 * w, w);
    ShlShl(m, w, 2 * w);
    ShlShl(Shl(m, w), w, w);
    assert Shl(LowMask(w, n), w) == 0 + Shl(ones + Shl(Shl(m, w), w), w) by { ShlShl(m, w, w); ShlAdd(ones, Shl(Shl(m, w), w), w); }
    AndSplit(lo, hi + Shl(rest, w), 0, ones + Shl(Shl(m, w), w), w);
    AndSplit(hi, rest, ones, Shl(m, w), w);
    BitAndOnes(hi, w);
    LowSmall(hi, w);
    AndNothing(lo);
  }

  lemma PowPositive(w: nat)
    ensures Pow2(w) > 0
  {
  }

  /** A round with masks of n groups exchanges the halves of each group. */
  lemma {:induction false} RoundSwaps(x: nat, w: nat, n: nat)
    ensures Round(x, Shl(LowMask(w, n), w), LowMask(w, n), w) == Swapped(w, n, x)
  {
    hide Shl, Shr, Low, BitAnd, BitOr;
    if n == 0 {
      RoundOfNothing(x, w);
    } else {
      var (lo, hi, rest) := (Low(x, w), Low(Shr(x, w), w), Shr(x, 2 * w));
      var (p, q) := (BitAnd(rest, Shl(LowMask(w, n - 1), w)), BitAnd(rest, LowMask(w, n - 1)));
      MaskedParts(x, w, n);
      Parts(x, w);
      RoundSwaps(rest, w, n - 1);
      PowPositive(w);
      Join(0, hi + Shl(p, w), w);
      UpperStays(rest, w, n - 1);
      ShlShl(Shr(p, w), w, w);
      ShlAdd(lo, Shl(q, 2 * w), w);
      ShlShl(q, 2 * w, w);
      ShlShl(q, w, 2 * w);
      HalvesFit(lo, hi, w);
      OrSplit(hi, Shr(p, w), Shl(lo, w), Shl(q, w), 2 * w);
      BitOrDisjoint(hi, lo, w);
    }
  }

  lemma HalvesFit(lo: nat, hi: nat, w: nat)
    requires lo < Pow2(w) && hi < Pow2(w)
    ensures hi < Pow2(2 * w) && Shl(lo, w) < Pow2(2 * w)
  {
    ShlLess(lo, w, w);
    Pow2Mono(w, 2 * w);
  }

  lemma RoundOfNothing(x: nat, w: nat)
    ensures Round(x, Shl(0, w), 0, w) == 0
  {
    AndNothing(x);
    LowSmall(0, w) by { PowPositive(w); }
  }

  /** What the upper mask keeps is a multiple of the half group. */
  lemma {:induction false} UpperStays(x: nat, w: nat, n: nat)
    ensures var p := BitAnd(x, Shl(LowMask(w, n), w)); p == Shl(Shr(p, w), w)
  {
    hide Shl, Shr, Low, BitAnd;
    var m := LowMask(w, n);
    Split(x, w);
    PowPositive(w);
    AndSplit(Low(x, w), Shr(x, w), 0, m, w);
    AndNothing(Low(x, w));
    Join(0, BitAnd(Shr(x, w), m), w);
  }

  // ---- the rounds together -------------------------------------------------------------------

  /** n groups of w bits, each with its bits reversed. */
  function InGroups(w: nat, n: nat, x: nat): nat {
    if n == 0 then 0 else Rev(w, Low(x, w)) + Shl(InGroups(w, n - 1, Shr(x, w)), w)
  }

  /** Exchanging the halves of groups whose halves are reversed reverses the groups. */
  lemma {:induction false} SwapDoubles(w: nat, n: nat, x: nat)
    ensures Swapped(w, n, InGroups(w, 2 * n, x)) == InGroups(2 * w, n, x)
  {
    hide Shl, Shr, Low, Rev;
    if n == 0 {
    } else {
      var (lo, hi, rest) := (Low(x, w), Low(Shr(x, w), w), Shr(x, 2 * w));
      var (a, b, more) := (Rev(w, lo), Rev(w, hi), InGroups(w, 2 * n - 2, rest));
      ShrShr(x, w, w);
      assert InGroups(w, 2 * n, x) == a + Shl(b + Shl(more, w), w);
      RevRange(w, lo);
      RevRange(w, hi);
      Join(a, b + Shl(more, w), w);
      Join(b, more, w);
      ShrShr(a + Shl(b + Shl(more, w), w), w, w);
      SwapDoubles(w, n - 1, rest);
      WholeGroup(x, w);
      RevSplit(w, w, hi, lo);
    }
  }

  /** A group of 2w bits is its two halves. */
  lemma WholeGroup(x: nat, w: nat)
    ensures Low(x, 2 * w) == Shl(Low(Shr(x, w), w), w) + Low(x, w) && Low(x, w) < Pow2(w)
  {
    hide Shl, Shr, Low;
    ShrLow(x, w, w);
    Split(x, w);
  }

  lemma {:induction false} SingleBits(n: nat, x: nat)
    requires x < Pow2(n)
    ensures InGroups(1, n, x) == x
  {
    if n == 0 {
    } else {
      var q, r := Halve(x);
      SingleBits(n - 1, q);
      RevOne(r);
      OneBitLow(x, q, r);
    }
  }

  lemma OneBitLow(x: nat, q: nat, r: nat)
    requires x == 2 * q + r && r < 2
    ensures Low(x, 1) == r && Shr(x, 1) == q
  {
  }

  /** The four masks. */
  lemma MaskValues()
    ensures LowMask(1, 8) == 21845 && LowMask(2, 4) == 13107 && LowMask(4, 2) == 3855 && LowMask(8, 1) == 255
    ensures Shl(21845, 1) == 43690 && Shl(13107, 2) == 52428 && Shl(3855, 4) == 61680 && Shl(255, 8) == 65280
  {
    hide LowMask, Shl;
    Pow2Values();
    Multiples();
    NoMask(1);
    NoMask(2);
    NoMask(4);
    NoMask(8);
    for n := 0 to 8
      invariant LowMask(1, n) == [0, 1, 5, 21, 85, 341, 1365, 5461, 21845][n]
    {
      MaskStep(1, n);
    }
    for n := 0 to 4
      invariant LowMask(2, n) == [0, 3, 51, 819, 13107][n]
    {
      MaskStep(2, n);
    }
    MaskStep(4, 0);
    MaskStep(4, 1);
    MaskStep(8, 0);
  }

  lemma NoMask(w: nat)
    ensures LowMask(w, 0) == 0 && Shl(0, 2 * w) == 0
  {
  }

  lemma MaskStep(w: nat, n: nat)
    ensures LowMask(w, n + 1) == Pow2(w) - 1 + Shl(LowMask(w, n), 2 * w)
  {
  }

  lemma Multiples()
    ensures forall m: nat :: Shl(m, 1) == 2 * m && Shl(m, 2) == 4 * m && Shl(m, 4) == 16 * m && Shl(m, 8) == 256 * m
  {
    forall m: nat ensures Shl(m, 1) == 2 * m && Shl(m, 2) == 4 * m && Shl(m, 4) == 16 * m && Shl(m, 8) == 256 * m {
      Shl4(m);
      Shl8(m);
      RevOne(0);
      ShlShl(m, 1, 1);
    }
  }

  /** The body of the loop that fills `rev`. */
  function Rounds(i: nat): nat {
    var x1 := Round(i, 43690, 21845, 1);
    var x2 := Round(x1, 52428, 13107, 2);
    var x3 := Round(x2, 61680, 3855, 4);
    Shr(Round(x3, 65280, 255, 8), 1)
  }

  /** The masks and shifts reverse all fifteen bits. */
  lemma RoundsReverse(i: nat)
    requires i < 32768
    ensures Rounds(i) == Rev(15, i)
  {
    hide Round, Shl, Shr, Low, Rev, LowMask, Swapped, InGroups;
    MaskValues();
    assert i < Pow2(15) && i < Pow2(16) by { Pow2Values(); }
    SingleBits(16, i);
    RoundSwaps(i, 1, 8);
    SwapDoubles(1, 8, i);
    RoundSwaps(InGroups(2, 8, i), 2, 4);
    SwapDoubles(2, 4, i);
    RoundSwaps(InGroups(4, 4, i), 4, 2);
    SwapDoubles(4, 2, i);
    RoundSwaps(InGroups(8, 2, i), 8, 1);
    SwapDoubles(8, 1, i);
    OneGroup(i);
    RevNarrow(16, 15, i);
  }

  lemma OneGroup(i: nat)
    requires i < Pow2(16)
    ensures InGroups(16, 1, i) == Rev(16, i)
  {
    LowSmall(i, 16);
    assert Shl(0, 16) == 0;
  }

  /** The loop that fills `rev`: the table holds what the code tables are built from. */
  method FillRev() returns (rev: array<nat>)
    ensures fresh(rev) && rev.Length == 32768
    ensures forall i :: 0 <= i < 32768 ==> rev[i] == RevAt(i)
  {
    hide Rounds, Rev;
    rev := new nat[32768](_ => 0);
    for i := 0 to 32768
      invariant forall k :: 0 <= k < i ==> rev[k] == RevAt(k)
    {
      RoundsReverse(i);
      rev[i] := Rounds(i);
    }
  }
}
