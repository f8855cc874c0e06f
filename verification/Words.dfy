/** Unsigned machine words as natural numbers: shifts, masks, bit reversal and bitwise
    or, all defined one bit at a time so that their laws need no nonlinear arithmetic. */
module Words {

  type byte = x: int | 0 <= x < 256 witness 0

  function Min(a: int, b: int): int {
    if a <= b then a else b
  }

  /** A cell of a vector; past its end it reads as undefined, which counts as 0. */
  function Cell(L: seq<nat>, i: nat): nat {
    if i < |L| then L[i] else 0
  }

  /** x << n */
  function Shl(x: nat, n: nat): (r: nat)
    ensures x > 0 ==> r >= x
    ensures x == 0 ==> r == 0
  {
    if n == 0 then x else 2 * Shl(x, n - 1)
  }

  /** x >> n */
  function Shr(x: nat, n: nat): (r: nat)
    ensures r <= x
  {
    if n == 0 then x else Shr(x / 2, n - 1)
  }

  /** x & ((1 << n) - 1) */
  function Low(x: nat, n: nat): (r: nat)
    ensures r <= x
  {
    if n == 0 then 0 else x % 2 + 2 * Low(x / 2, n - 1)
  }

  function Pow2(n: nat): nat {
    Shl(1, n)
  }

  lemma Pow2Values()
    ensures Pow2(0) == 1 && Pow2(1) == 2 && Pow2(2) == 4 && Pow2(3) == 8 && Pow2(4) == 16
    ensures Pow2(5) == 32 && Pow2(6) == 64 && Pow2(7) == 128 && Pow2(8) == 256
    ensures Pow2(9) == 512 && Pow2(13) == 8192 && Pow2(14) == 16384 && Pow2(15) == 32768
    ensures Pow2(16) == 65536 && Pow2(24) == 16777216
  {
    assert Pow2(4) == 16;
    assert Pow2(8) == 256;
    assert Pow2(12) == 4096;
    assert Pow2(16) == 65536;
    assert Pow2(20) == 1048576;
  }

  // ---- laws of shifting and masking ------------------------------------------

  lemma {:induction false} ShlAdd(x: nat, y: nat, n: nat)
    ensures Shl(x + y, n) == Shl(x, n) + Shl(y, n)
  {
    if n == 0 {
    } else {
      ShlAdd(x, y, n - 1);
    }
  }

  lemma {:induction false} ShlDouble(x: nat, n: nat)
    ensures Shl(2 * x, n) == 2 * Shl(x, n) == Shl(x, n + 1)
  {
    ShlAdd(x, x, n);
  }

  lemma {:induction false} ShlShl(x: nat, m: nat, n: nat)
    ensures Shl(Shl(x, m), n) == Shl(x, m + n)
  {
    if n == 0 {
    } else {
      ShlShl(x, m, n - 1);
    }
  }

  lemma ShlByte(x: nat, n: nat)
    ensures Shl(x, 8) == 256 * x
    ensures Shl(x, n + 8) == 256 * Shl(x, n)
  {
    Shl8(x);
    Shl8(Shl(x, n));
    ShlShl(x, n, 8);
  }

  lemma Shl4(x: nat)
    ensures Shl(x, 4) == 16 * x
  {
    assert Shl(x, 2) == 2 * Shl(x, 1) == 4 * x;
    assert Shl(x, 4) == 2 * Shl(x, 3) == 4 * Shl(x, 2);
  }

  lemma Shl8(x: nat)
    ensures Shl(x, 8) == 256 * x
  {
    Shl4(x);
    Shl4(16 * x);
    ShlShl(x, 4, 4);
  }

  lemma {:induction false} ShlMono(a: nat, b: nat, n: nat)
    ensures a <= b <==> Shl(a, n) <= Shl(b, n)
    ensures a < b ==> Shl(a, n) + Pow2(n) <= Shl(b, n)
  {
    if n == 0 {
    } else {
      ShlMono(a, b, n - 1);
    }
  }

  lemma {:induction false} Pow2Mono(a: nat, b: nat)
    requires a <= b
    ensures Pow2(a) <= Pow2(b)
  {
    if a < b {
      Pow2Mono(a, b - 1);
    }
  }

  /** A number is its low bits and its high bits. */
  lemma {:induction false} Split(x: nat, n: nat)
    ensures x == Low(x, n) + Shl(Shr(x, n), n)
    ensures Low(x, n) < Pow2(n)
  {
    if n == 0 {
    } else {
      Split(x / 2, n - 1);
    }
  }

  /** Low and high bits put together come apart again. */
  lemma {:induction false} Join(lo: nat, hi: nat, n: nat)
    requires lo < Pow2(n)
    ensures Low(lo + Shl(hi, n), n) == lo
    ensures Shr(lo + Shl(hi, n), n) == hi
  {
    if n == 0 {
    } else {
      var x := lo + Shl(hi, n);
      assert x % 2 == lo % 2 && x / 2 == lo / 2 + Shl(hi, n - 1);
      Join(lo / 2, hi, n - 1);
      assert lo < Pow2(n) == 2 * Pow2(n - 1);
      assert Low(x, n) == x % 2 + 2 * Low(x / 2, n - 1);
    }
  }

  lemma LowSmall(x: nat, n: nat)
    requires x < Pow2(n)
    ensures Low(x, n) == x && Shr(x, n) == 0
  {
    Join(x, 0, n);
  }

  lemma {:induction false} ShrShr(x: nat, m: nat, n: nat)
    ensures Shr(Shr(x, m), n) == Shr(x, m + n)
  {
    if m == 0 {
    } else {
      ShrShr(x / 2, m - 1, n);
    }
  }

  lemma {:induction false} LowLow(x: nat, m: nat, n: nat)
    requires n <= m
    ensures Low(Low(x, m), n) == Low(x, n)
  {
    if n == 0 {
    } else {
      var y := Low(x, m);
      assert y % 2 == x % 2 && y / 2 == Low(x / 2, m - 1);
      LowLow(x / 2, m - 1, n - 1);
    }
  }

  /** Taking a field out of a word. */
  lemma {:induction false} ShrLow(x: nat, m: nat, n: nat)
    ensures Shr(Low(x, m + n), m) == Low(Shr(x, m), n)
    ensures Low(x, m + n) == Low(x, m) + Shl(Low(Shr(x, m), n), m)
  {
    if m == 0 {
    } else {
      var y := Low(x, m + n);
      assert y % 2 == x % 2 && y / 2 == Low(x / 2, m - 1 + n);
      ShrLow(x / 2, m - 1, n);
    }
  }

  lemma {:induction false} ShlLess(x: nat, m: nat, n: nat)
    requires x < Pow2(m)
    ensures Shl(x, n) < Pow2(m + n)
  {
    if n == 0 {
    } else {
      ShlLess(x, m, n - 1);
    }
  }

  lemma {:induction false} ShrRange(x: nat, m: nat, n: nat)
    requires x < Pow2(m + n)
    ensures Shr(x, n) < Pow2(m)
  {
    if n == 0 {
    } else {
      ShrRange(x / 2, m, n - 1);
    }
  }

  // ---- bit reversal --------------------------------------------------------

  /** The low n bits of x, read in the opposite order. */
  function Rev(n: nat, x: nat): nat {
    if n == 0 then 0 else Shl(x % 2, n - 1) + Rev(n - 1, x / 2)
  }

  lemma {:induction false} RevRange(n: nat, x: nat)
    ensures Rev(n, x) < Pow2(n)
  {
    if n == 0 {
    } else {
      RevRange(n - 1, x / 2);
    }
  }

  /** The lowest bit goes to the top. */
  lemma RevStep(n: nat, x: nat, b: nat)
    requires b < 2
    ensures Rev(n + 1, 2 * x + b) == (if b == 1 then Pow2(n) else 0) + Rev(n, x)
  {
  }

  lemma {:induction false} RevZero(n: nat)
    ensures Rev(n, 0) == 0
  {
    if n == 0 {
    } else {
      RevZero(n - 1);
    }
  }

  lemma RevCons(n: nat, q: nat, r: nat)
    requires r < 2
    ensures Rev(n + 1, 2 * q + r) == Shl(r, n) + Rev(n, q)
  {
    assert (2 * q + r) % 2 == r && (2 * q + r) / 2 == q;
  }

  /** Splitting off the lowest bit, without leaving quotients for the solver to chase. */
  lemma Halve(x: nat) returns (q: nat, r: nat)
    ensures x == 2 * q + r && r < 2
  {
    q, r := x / 2, x % 2;
  }

  lemma {:induction false} RevSplit(a: nat, b: nat, hi: nat, lo: nat)
    requires lo < Pow2(b)
    ensures Rev(a + b, Shl(hi, b) + lo) == Rev(a, hi) + Shl(Rev(b, lo), a)
    decreases b, 0
  {
    if b > 0 {
      var q, r := Halve(lo);
      RevSplitStep(a, b - 1, hi, q, r);
    }
  }

  lemma {:induction false} RevSplitStep(a: nat, b: nat, hi: nat, q: nat, r: nat)
    requires r < 2 && q < Pow2(b)
    ensures Rev(a + (b + 1), Shl(hi, b + 1) + (2 * q + r)) == Rev(a, hi) + Shl(Rev(b + 1, 2 * q + r), a)
    decreases b, 1
  {
    hide Rev;
    RevSplit(a, b, hi, q);
    RevCons(a + b, Shl(hi, b) + q, r);
    RevCons(b, q, r);
    ShlShl(r, b, a);
    ShlAdd(Shl(r, b), Rev(b, q), a);
    assert 2 * (Shl(hi, b) + q) + r == Shl(hi, b + 1) + (2 * q + r);
  }

  lemma RevOne(r: nat)
    ensures Rev(1, r) == r % 2 && forall y: nat :: Shl(y, 1) == 2 * y
  {
  }

  lemma RevNothing(x: nat)
    requires x < Pow2(0)
    ensures Rev(0, Rev(0, x)) == x
  {
  }

  lemma HalveRange(q: nat, r: nat, n: nat)
    requires n > 0 && 2 * q + r < Pow2(n)
    ensures q < Pow2(n - 1)
  {
  }

  lemma {:induction false} RevInvolution(n: nat, x: nat)
    requires x < Pow2(n)
    ensures Rev(n, Rev(n, x)) == x
  {
    hide Rev, Shl;
    if n == 0 {
      RevNothing(x);
    } else {
      var q, r := Halve(x);
      HalveRange(q, r, n);
      RevInvolution(n - 1, q);
      RevRange(n - 1, q);
      RevCons(n - 1, q, r);
      RevSplit(1, n - 1, r, Rev(n - 1, q));
      RevOne(r);
    }
  }

  /** Reversing a short code inside a wider word and shifting it back down. */
  lemma RevNarrow(wide: nat, n: nat, x: nat)
    requires n <= wide && x < Pow2(n)
    ensures Shr(Rev(wide, x), wide - n) == Rev(n, x)
  {
    hide Rev, Shr, Low;
    RevSplit(wide - n, n, 0, x);
    RevZero(wide - n);
    assert Shl(0, n) == 0;
    assert 0 < Pow2(wide - n) by { Pow2Mono(0, wide - n); }
    Join(0, Rev(n, x), wide - n);
  }

  // ---- bitwise or -----------------------------------------------------------

  function BitOr(a: nat, b: nat): nat
    decreases a + b
  {
    if a == 0 && b == 0 then 0
    else
      (if a % 2 == 1 || b % 2 == 1 then 1 else 0) + 2 * BitOr(a / 2, b / 2)
  }

  lemma {:induction false} BitOrZero(b: nat)
    ensures BitOr(0, b) == b
  {
    if b == 0 {
    } else {
      BitOrZero(b / 2);
    }
  }

  /** Or-ing in bits that lie above every set bit adds them. */
  lemma {:induction false} BitOrDisjoint(a: nat, b: nat, k: nat)
    requires a < Pow2(k)
    ensures BitOr(a, Shl(b, k)) == a + Shl(b, k)
  {
    if k == 0 {
      BitOrZero(b);
    } else {
      BitOrDisjoint(a / 2, b, k - 1);
    }
  }

  // ---- bitwise and ----------------------------------------------------------

  /** x & y */
  function BitAnd(x: nat, y: nat): (r: nat)
    ensures r <= y
    decreases x
  {
    if x == 0 then 0 else (if x % 2 == 1 && y % 2 == 1 then 1 else 0) + 2 * BitAnd(x / 2, y / 2)
  }

  lemma {:induction false} BitAndOnes(x: nat, n: nat)
    ensures BitAnd(x, Pow2(n) - 1) == Low(x, n)
  {
    if n > 0 && x > 0 {
      BitAndOnes(x / 2, n - 1);
      assert (Pow2(n) - 1) / 2 == Pow2(n - 1) - 1;
    } else if x > 0 {
      BitAndNothing(x);
    }
  }

  lemma {:induction false} BitAndNothing(x: nat)
    ensures BitAnd(x, 0) == 0
  {
    if x == 0 {
    } else {
      BitAndNothing(x / 2);
    }
  }
}
