/** Canonical Huffman tables: `hMap` of the bundled fflate code, section 3.2.2 of
    RFC 1951. A code-length vector gives the length of every symbol, 0 for a symbol
    that is not used. */
module Huffman {
  import opened Words

  type Lengths = seq<nat>

  // ---- what the tables are made of ----------------------------------------

  /** How many of the first k symbols have length len. */
  function Count(L: Lengths, len: nat, k: nat): (c: nat)
    requires k <= |L|
    ensures c <= k
  {
    if k == 0 then 0
    else
      Count(L, len, k - 1) + if L[k - 1] == len then 1 else 0
  }

  /** The first code of length len, before any 16-bit truncation. */
  function FirstCode(L: Lengths, len: nat): nat {
    if len <= 1 then 0 else 2 * (FirstCode(L, len - 1) + Count(L, len - 1, |L|))
  }

  /** The same number as a 16-bit array cell holds it. */
  function FirstCode16(L: Lengths, len: nat): (c: nat)
    ensures c < 65536
  {
    if len <= 1 then 0 else 2 * (FirstCode16(L, len - 1) + Count(L, len - 1, |L|) % 65536) % 65536
  }

  /** The code of symbol i in the 16-bit cell that counts up through its length. */
  function Code16(L: Lengths, i: nat): nat
    requires i < |L|
  {
    (FirstCode16(L, L[i]) + Count(L, L[i], i)) % 65536
  }

  /** A read of the 32768-entry reversal table; past its end the read is undefined,
      which the shift that follows turns into 0. */
  function RevAt(v: nat): nat {
    if v < 32768 then Rev(15, v) else 0
  }

  /** The transmitted code of symbol i: its canonical code, first bit lowest. */
  function Enc(L: Lengths, i: nat): nat
    requires i < |L| && L[i] <= 15
  {
    if L[i] == 0 then 0 else Shr(RevAt(Code16(L, i)), 15 - L[i])
  }

  function Packed(L: Lengths, i: nat): (s: nat)
    requires i < |L|
  {
    i * 16 + L[i]
  }

  ghost predicate Fits(L: Lengths, mb: nat) {
    mb <= 15 && forall i :: 0 <= i < |L| ==> L[i] <= mb
  }

  /** The decode-table index that cell number t of symbol i's block is stored at. */
  function Slot(L: Lengths, mb: nat, i: nat, t: nat): nat
    requires Fits(L, mb) && i < |L|
  {
    Shr(RevAt(Shl(Code16(L, i), mb - L[i]) + t), 15 - mb)
  }

  ghost predicate Hits(L: Lengths, mb: nat, i: nat, w: nat)
    requires Fits(L, mb) && i < |L|
  {
    L[i] > 0 && exists t: nat :: t < Pow2(mb - L[i]) && Slot(L, mb, i, t) == w
  }

  /** The decode-table entry at w after the first k symbols: the last one stored there. */
  ghost function Entry(L: Lengths, mb: nat, k: nat, w: nat): nat
    requires Fits(L, mb) && k <= |L|
  {
    if k == 0 then 0
    else if Hits(L, mb, k - 1, w) then Packed(L, k - 1)
    else Entry(L, mb, k - 1, w)
  }

  // ---- Kraft's inequality ---------------------------------------------------

  function Weight(L: Lengths, mb: nat, i: nat): nat
    requires i < |L|
  {
    if 0 < L[i] <= mb then Pow2(mb - L[i]) else 0
  }

  function KraftSum(L: Lengths, mb: nat, k: nat): nat
    requires k <= |L|
  {
    if k == 0 then 0 else KraftSum(L, mb, k - 1) + Weight(L, mb, k - 1)
  }

  ghost predicate Kraft(L: Lengths, mb: nat) {
    Fits(L, mb) && |L| < 65536 && KraftSum(L, mb, |L|) <= Pow2(mb)
  }

  /** The weight of the symbols among the first k whose length is 1..len. */
  function LengthSum(L: Lengths, mb: nat, len: nat, k: nat): nat
    requires k <= |L| && len <= mb
  {
    if len == 0 then 0 else LengthSum(L, mb, len - 1, k) + Shl(Count(L, len, k), mb - len)
  }

  lemma {:induction false} LengthSumStep(L: Lengths, mb: nat, len: nat, k: nat)
    requires 0 < k <= |L| && len <= mb
    ensures LengthSum(L, mb, len, k)
         == LengthSum(L, mb, len, k - 1) + if 0 < L[k - 1] <= len then Pow2(mb - L[k - 1]) else 0
  {
    if len == 0 {
    } else {
      LengthSumStep(L, mb, len - 1, k);
      ShlAdd(Count(L, len, k - 1), 1, mb - len);
    }
  }

  lemma {:induction false} LengthSumZero(L: Lengths, mb: nat, len: nat)
    requires len <= mb
    ensures LengthSum(L, mb, len, 0) == 0
  {
    if len == 0 {
    } else {
      LengthSumZero(L, mb, len - 1);
    }
  }

  /** Summing by length and summing by symbol agree. */
  lemma {:induction false} LengthSumIsKraftSum(L: Lengths, mb: nat, k: nat)
    requires k <= |L|
    ensures LengthSum(L, mb, mb, k) == KraftSum(L, mb, k)
  {
    if k == 0 {
      LengthSumZero(L, mb, mb);
    } else {
      LengthSumIsKraftSum(L, mb, k - 1);
      LengthSumStep(L, mb, mb, k);
    }
  }

  /** The first code after the codes of length len, scaled to mb bits, is the weight
      of everything no longer than len. */
  lemma {:induction false} CodesUpTo(L: Lengths, mb: nat, len: nat)
    requires 1 <= len <= mb
    ensures Shl(FirstCode(L, len) + Count(L, len, |L|), mb - len) == LengthSum(L, mb, len, |L|)
  {
    ShlAdd(FirstCode(L, len), Count(L, len, |L|), mb - len);
    if len > 1 {
      CodesUpTo(L, mb, len - 1);
      ShlDouble(FirstCode(L, len - 1) + Count(L, len - 1, |L|), mb - len);
    }
  }

  lemma {:induction false} LengthSumMono(L: Lengths, mb: nat, a: nat, b: nat)
    requires a <= b <= mb
    ensures LengthSum(L, mb, a, |L|) <= LengthSum(L, mb, b, |L|)
  {
    if a < b {
      LengthSumMono(L, mb, a, b - 1);
    }
  }

  /** Under Kraft's inequality the codes of each length fit that length. */
  lemma CodesFit(L: Lengths, mb: nat, len: nat)
    requires Kraft(L, mb) && 1 <= len <= mb
    ensures FirstCode(L, len) + Count(L, len, |L|) <= Pow2(len)
  {
    CodesUpTo(L, mb, len);
    LengthSumMono(L, mb, len, mb);
    LengthSumIsKraftSum(L, mb, |L|);
    ShlShl(1, len, mb - len);
    ShlMono(FirstCode(L, len) + Count(L, len, |L|), Pow2(len), mb - len);
  }

  lemma {:induction false} CountMono(L: Lengths, len: nat, a: nat, b: nat)
    requires a <= b <= |L|
    ensures Count(L, len, a) <= Count(L, len, b)
    ensures forall i :: a <= i < b && L[i] == len ==> Count(L, len, a) < Count(L, len, b)
  {
    if a < b {
      CountMono(L, len, a, b - 1);
    }
  }

  /** No 16-bit cell overflows under Kraft's inequality. */
  lemma {:induction false} FirstCodeExact(L: Lengths, mb: nat, len: nat)
    requires Kraft(L, mb) && len <= mb
    ensures FirstCode16(L, len) == FirstCode(L, len)
  {
    if len > 1 {
      FirstCodeExact(L, mb, len - 1);
      CodesFit(L, mb, len - 1);
      Pow2Mono(len - 1, 14);
      Pow2Values();
    }
  }

  lemma CodeExact(L: Lengths, mb: nat, i: nat)
    requires Kraft(L, mb) && i < |L| && L[i] > 0
    ensures Code16(L, i) == FirstCode(L, L[i]) + Count(L, L[i], i)
    ensures Code16(L, i) < FirstCode(L, L[i]) + Count(L, L[i], |L|) <= Pow2(L[i]) <= 32768
  {
    FirstCodeExact(L, mb, L[i]);
    CodesFit(L, mb, L[i]);
    CountMono(L, L[i], i, |L|);
    Pow2Mono(L[i], 15);
    assert Pow2(15) == 32768 by { Pow2Values(); }
  }

  /** What the encode table holds: the canonical code, reversed. */
  lemma EncExact(L: Lengths, mb: nat, i: nat)
    requires Kraft(L, mb) && i < |L| && L[i] > 0
    ensures Enc(L, i) == Rev(L[i], Code16(L, i)) < Pow2(L[i])
  {
    CodeExact(L, mb, i);
    RevNarrow(15, L[i], Code16(L, i));
    RevRange(L[i], Code16(L, i));
  }

  /** Every code of length b comes after every code of a smaller length a. */
  lemma {:induction false} LaterLength(L: Lengths, a: nat, b: nat)
    requires 1 <= a < b
    ensures Shl(FirstCode(L, a) + Count(L, a, |L|), b - a) <= FirstCode(L, b)
  {
    if b > a + 1 {
      LaterLength(L, a, b - 1);
    }
  }

  // ---- the decode table ------------------------------------------------------

  /** Where cell t of symbol i's block lands, with all truncation gone. */
  lemma BlockRange(L: Lengths, mb: nat, i: nat, t: nat)
    requires Kraft(L, mb) && i < |L| && L[i] > 0 && t < Pow2(mb - L[i])
    ensures Shl(Code16(L, i), mb - L[i]) + t < Pow2(mb) <= 32768
  {
    CodeExact(L, mb, i);
    ShlShl(1, L[i], mb - L[i]);
    ShlMono(Code16(L, i), Pow2(L[i]), mb - L[i]);
    Pow2Mono(mb, 15);
    assert Pow2(15) == 32768 by { Pow2Values(); }
  }

  lemma SlotExact(L: Lengths, mb: nat, i: nat, t: nat)
    requires Kraft(L, mb) && i < |L| && L[i] > 0 && t < Pow2(mb - L[i])
    ensures Slot(L, mb, i, t) == Enc(L, i) + Shl(Rev(mb - L[i], t), L[i])
    ensures Slot(L, mb, i, t) == Rev(mb, Shl(Code16(L, i), mb - L[i]) + t)
  {
    hide Shl, Rev, Shr, Enc, Code16;
    var v := Shl(Code16(L, i), mb - L[i]) + t;
    BlockRange(L, mb, i, t);
    RevNarrow(15, mb, v);
    EncExact(L, mb, i);
    RevSplit(L[i], mb - L[i], Code16(L, i), t);
  }

  /** A lookahead word reaches symbol i's block exactly when it starts with i's code. */
  lemma HitsIffPrefix(L: Lengths, mb: nat, i: nat, w: nat)
    requires Kraft(L, mb) && i < |L| && L[i] > 0 && w < Pow2(mb)
    ensures Hits(L, mb, i, w) <==> Low(w, L[i]) == Enc(L, i)
  {
    hide Shl, Rev, Shr, Low, Enc, Code16, Slot;
    var len, r := L[i], mb - L[i];
    EncExact(L, mb, i);
    Split(w, len);
    if Hits(L, mb, i, w) {
      var t: nat :| t < Pow2(r) && Slot(L, mb, i, t) == w;
      SlotExact(L, mb, i, t);
      Join(Enc(L, i), Rev(r, t), len);
    }
    if Low(w, len) == Enc(L, i) {
      var q := Shr(w, len);
      ShlShl(1, r, len);
      ShlMono(Pow2(r), q, len);
      var t := Rev(r, q);
      RevRange(r, q);
      SlotExact(L, mb, i, t);
      RevInvolution(r, q);
      assert Slot(L, mb, i, t) == w;
    }
  }

  /** Symbol i comes before symbol j in canonical order. */
  predicate Before(L: Lengths, i: nat, j: nat)
    requires i < |L| && j < |L|
  {
    L[i] < L[j] || (L[i] == L[j] && i < j)
  }

  lemma ShlNothing(x: nat)
    ensures Shl(x, 0) == x
  {
  }

  lemma CodesSpaced(L: Lengths, mb: nat, i: nat, j: nat)
    requires Kraft(L, mb) && i < |L| && j < |L| && L[i] > 0 && L[j] > 0 && Before(L, i, j)
    ensures Shl(Code16(L, i) + 1, L[j] - L[i]) <= Code16(L, j)
  {
    hide KraftSum, Code16, FirstCode, Count, Shl;
    assert Shl(Code16(L, i) + 1, 0) == Code16(L, i) + 1 by { ShlNothing(Code16(L, i) + 1); }
    CodeExact(L, mb, i);
    CodeExact(L, mb, j);
    if L[i] == L[j] {
      CountMono(L, L[i], i, j);
    } else {
      LaterLength(L, L[i], L[j]);
      ShlMono(Code16(L, i) + 1, FirstCode(L, L[i]) + Count(L, L[i], |L|), L[j] - L[i]);
    }
  }

  /** Blocks come in canonical order and do not overlap. */
  lemma BlocksOrdered(L: Lengths, mb: nat, i: nat, j: nat)
    requires Kraft(L, mb) && i < |L| && j < |L| && L[i] > 0 && L[j] > 0 && Before(L, i, j)
    ensures Shl(Code16(L, i), mb - L[i]) + Pow2(mb - L[i]) <= Shl(Code16(L, j), mb - L[j])
  {
    hide Shl, Code16;
    var ci, d := Code16(L, i), L[j] - L[i];
    CodesSpaced(L, mb, i, j);
    ShlMono(Shl(ci + 1, d), Code16(L, j), mb - L[j]);
    ShlShl(ci + 1, d, mb - L[j]);
    ShlAdd(ci, 1, mb - L[i]);
  }

  /** The blocks of two symbols are disjoint, so the code is prefix-free. */
  lemma PrefixFree(L: Lengths, mb: nat, i: nat, j: nat, w: nat)
    requires Kraft(L, mb) && i < |L| && j < |L| && w < Pow2(mb)
    requires Hits(L, mb, i, w) && Hits(L, mb, j, w)
    ensures i == j
  {
    hide Shl, Rev, Code16, Slot;
    var t: nat :| t < Pow2(mb - L[i]) && Slot(L, mb, i, t) == w;
    var u: nat :| u < Pow2(mb - L[j]) && Slot(L, mb, j, u) == w;
    SlotExact(L, mb, i, t);
    SlotExact(L, mb, j, u);
    BlockRange(L, mb, i, t);
    BlockRange(L, mb, j, u);
    var v, v' := Shl(Code16(L, i), mb - L[i]) + t, Shl(Code16(L, j), mb - L[j]) + u;
    RevInvolution(mb, v);
    RevInvolution(mb, v');
    assert v == v';
    if Before(L, i, j) {
      BlocksOrdered(L, mb, i, j);
    } else if Before(L, j, i) {
      BlocksOrdered(L, mb, j, i);
    }
  }

  lemma {:induction false} EntryFinds(L: Lengths, mb: nat, k: nat, w: nat, i: nat)
    requires Kraft(L, mb) && i < k <= |L| && w < Pow2(mb) && Hits(L, mb, i, w)
    ensures Entry(L, mb, k, w) == Packed(L, i)
  {
    if i < k - 1 {
      if Hits(L, mb, k - 1, w) {
        PrefixFree(L, mb, i, k - 1, w);
      }
      EntryFinds(L, mb, k - 1, w, i);
    }
  }

  /** The two tables agree on every lookahead word: the decode entry names symbol i
      exactly when the word starts with i's transmitted code, and is 0 when the word
      starts with no code at all. */
  lemma TablesAgree(L: Lengths, mb: nat, w: nat)
    requires Kraft(L, mb) && w < Pow2(mb)
    ensures forall i :: 0 <= i < |L| && L[i] > 0 ==>
              (Low(w, L[i]) == Enc(L, i) <==> Entry(L, mb, |L|, w) == Packed(L, i))
    ensures Entry(L, mb, |L|, w) != 0 ==>
              exists i :: 0 <= i < |L| && L[i] > 0 && Entry(L, mb, |L|, w) == Packed(L, i)
  {
    hide Hits, Entry, Low, Enc, Slot;
    forall i | 0 <= i < |L| && L[i] > 0
      ensures Low(w, L[i]) == Enc(L, i) <==> Entry(L, mb, |L|, w) == Packed(L, i)
    {
      HitsIffPrefix(L, mb, i, w);
      if Hits(L, mb, i, w) {
        EntryFinds(L, mb, |L|, w, i);
      } else if Entry(L, mb, |L|, w) == Packed(L, i) {
        EntryNamesHit(L, mb, |L|, w);
      }
    }
    if Entry(L, mb, |L|, w) != 0 {
      EntryNamesHit(L, mb, |L|, w);
    }
  }

  lemma {:induction false} EntryNamesHit(L: Lengths, mb: nat, k: nat, w: nat)
    requires Fits(L, mb) && k <= |L| && Entry(L, mb, k, w) != 0
    ensures Entry(L, mb, k, w) / 16 < k
    ensures Hits(L, mb, Entry(L, mb, k, w) / 16, w)
    ensures Entry(L, mb, k, w) == Packed(L, Entry(L, mb, k, w) / 16)
  {
    if !Hits(L, mb, k - 1, w) {
      EntryNamesHit(L, mb, k - 1, w);
    }
  }

  // ---- vectors that differ in trailing zeros, and narrower tables ---------------

  ghost predicate SameLengths(L: Lengths, M: Lengths) {
    forall i: nat :: Cell(L, i) == Cell(M, i)
  }

  lemma SameCount(L: Lengths, M: Lengths, len: nat, j: nat, k: nat)
    requires SameLengths(L, M) && len > 0 && j <= |L| && k <= |M|
    requires j == k || (j == |L| && k == |M|)
    ensures Count(L, len, j) == Count(M, len, k)
  {
    if j >= k {
      SameCountDown(L, M, len, j, k);
    } else {
      SameCountDown(M, L, len, k, j);
    }
  }

  lemma {:induction false} SameCountDown(L: Lengths, M: Lengths, len: nat, j: nat, k: nat)
    requires SameLengths(L, M) && len > 0 && k <= j <= |L| && k <= |M|
    requires j == k || k == |M|
    ensures Count(L, len, j) == Count(M, len, k)
    decreases j
  {
    if j == 0 {
    } else {
      assert Cell(L, j - 1) == Cell(M, j - 1);
      SameCountDown(L, M, len, j - 1, if j == k then k - 1 else k);
    }
  }

  lemma {:induction false} SameFirstCode(L: Lengths, M: Lengths, len: nat)
    requires SameLengths(L, M)
    ensures FirstCode16(L, len) == FirstCode16(M, len)
  {
    if len > 1 {
      SameFirstCode(L, M, len - 1);
      SameCount(L, M, len - 1, |L|, |M|);
    }
  }

  lemma SameCell(L: Lengths, M: Lengths, i: nat)
    requires SameLengths(L, M)
    ensures Cell(L, i) == Cell(M, i)
  {
  }

  /** Trailing zeros do not change a code. */
  lemma SameEnc(L: Lengths, M: Lengths, i: nat)
    requires SameLengths(L, M) && i < |L| && i < |M| && L[i] <= 15
    ensures L[i] == M[i] && Enc(L, i) == Enc(M, i)
  {
    hide Shr, RevAt, Count, FirstCode16, SameLengths;
    SameCell(L, M, i);
    SameFirstCode(L, M, L[i]);
    if L[i] > 0 {
      SameCount(L, M, L[i], i, i);
    }
  }

  lemma {:induction false} KraftTrailing(L: Lengths, M: Lengths, mb: nat, j: nat, k: nat)
    requires SameLengths(L, M) && k <= j <= |L| && k <= |M| && (j == k || k == |M|)
    ensures KraftSum(L, mb, j) == KraftSum(M, mb, k)
    decreases j
  {
    if j == 0 {
    } else {
      assert Cell(L, j - 1) == Cell(M, j - 1);
      KraftTrailing(L, M, mb, j - 1, if j == k then k - 1 else k);
    }
  }

  lemma {:induction false} KraftScale(L: Lengths, mb: nat, wide: nat, k: nat)
    requires k <= |L| && mb <= wide && forall i :: 0 <= i < |L| ==> L[i] <= mb
    ensures KraftSum(L, wide, k) == Shl(KraftSum(L, mb, k), wide - mb)
  {
    if k > 0 {
      hide Shl;
      KraftScale(L, mb, wide, k - 1);
      ShlAdd(KraftSum(L, mb, k - 1), Weight(L, mb, k - 1), wide - mb);
      if L[k - 1] > 0 {
        ShlShl(1, mb - L[k - 1], wide - mb);
      }
    } else {
      assert Shl(0, wide - mb) == 0;
    }
    ShlAdd(0, 0, wide - mb);
  }

  /** A table just wide enough for its longest code still satisfies Kraft's inequality. */
  lemma KraftNarrow(L: Lengths, M: Lengths, mb: nat, wide: nat)
    requires Kraft(L, wide) && SameLengths(L, M) && mb <= wide && |M| < 65536
    requires forall i :: 0 <= i < |M| ==> M[i] <= mb
    ensures Kraft(M, mb)
  {
    hide Shl, KraftSum;
    if |L| >= |M| {
      KraftTrailing(L, M, wide, |L|, |M|);
    } else {
      KraftTrailing(M, L, wide, |M|, |L|);
    }
    KraftScale(M, mb, wide, |M|);
    ShlShl(1, mb, wide - mb);
    ShlMono(KraftSum(M, mb, |M|), Pow2(mb), wide - mb);
  }

  // ---- hMap -------------------------------------------------------------------

  lemma SlotRange(L: Lengths, mb: nat, i: nat, t: nat)
    requires Fits(L, mb) && i < |L|
    ensures Slot(L, mb, i, t) < Pow2(mb)
  {
    var v := Shl(Code16(L, i), mb - L[i]) + t;
    RevRange(15, v);
    ShrRange(RevAt(v), mb, 15 - mb);
  }

  /** Counts the symbols of each length and derives the first code of each length. */
  method LengthCells(cd: Lengths, mb: nat) returns (le: array<nat>)
    requires Fits(cd, mb)
    ensures fresh(le) && le.Length == mb
    ensures forall k :: 0 <= k < mb ==> le[k] == FirstCode16(cd, k + 1)
  {
    var l := new nat[mb](_ => 0);
    for i := 0 to |cd|
      invariant forall k :: 0 <= k < mb ==> l[k] == Count(cd, k + 1, i) % 65536
    {
      if cd[i] != 0 {
        l[cd[i] - 1] := (l[cd[i] - 1] + 1) % 65536;
      }
    }
    le := new nat[mb](_ => 0);
    var i := 1;
    while i < mb
      invariant 1 <= i
      invariant forall k :: 0 <= k < mb ==> l[k] == Count(cd, k + 1, |cd|) % 65536
      invariant forall k :: 0 <= k < mb && k < i ==> le[k] == FirstCode16(cd, k + 1)
    {
      le[i] := 2 * (le[i - 1] + l[i - 1]) % 65536;
      i := i + 1;
    }
  }

  /** The 16-bit cells once the first i symbols have taken their codes. */
  ghost predicate Cells(cd: Lengths, mb: nat, le: seq<nat>, i: nat)
    requires i <= |cd|
  {
    |le| == mb && forall k {:trigger le[k]} :: 0 <= k < mb ==>
      le[k] == (FirstCode16(cd, k + 1) + Count(cd, k + 1, i)) % 65536
  }

  /** Takes the next code of symbol i's length and counts its cell up. */
  method TakeCode(cd: Lengths, mb: nat, le: array<nat>, i: nat) returns (code: nat)
    requires Fits(cd, mb) && i < |cd| && cd[i] != 0 && Cells(cd, mb, le[..], i)
    modifies le
    ensures Cells(cd, mb, le[..], i + 1)
    ensures code == Code16(cd, i)
  {
    hide Cells, Code16, FirstCode16, Count;
    ghost var was := le[..];
    CellTaken(cd, mb, was, i);
    var j := cd[i] - 1;
    code := le[j];
    assert code == was[j];
    le[j] := (code + 1) % 65536;
    assert le[..] == was[j := (was[j] + 1) % 65536];
  }

  lemma CellTaken(cd: Lengths, mb: nat, le: seq<nat>, i: nat)
    requires Fits(cd, mb) && i < |cd| && cd[i] != 0 && Cells(cd, mb, le, i)
    ensures |le| == mb && le[cd[i] - 1] == Code16(cd, i)
    ensures Cells(cd, mb, le[cd[i] - 1 := (le[cd[i] - 1] + 1) % 65536], i + 1)
  {
    hide FirstCode16, Count;
    var j := cd[i] - 1;
    CodeOfCell(cd, i);
    var now := le[j := (le[j] + 1) % 65536];
    forall k | 0 <= k < mb
      ensures now[k] == (FirstCode16(cd, k + 1) + Count(cd, k + 1, i + 1)) % 65536
    {
      CountNext(cd, k + 1, i);
    }
  }

  lemma CountNext(L: Lengths, len: nat, i: nat)
    requires i < |L|
    ensures Count(L, len, i + 1) == Count(L, len, i) + if L[i] == len then 1 else 0
  {
  }

  lemma CodeOfCell(L: Lengths, i: nat)
    requires i < |L| && L[i] > 0
    ensures Code16(L, i) == (FirstCode16(L, L[i]) + Count(L, L[i], i)) % 65536
  {
  }

  lemma SkipCode(cd: Lengths, mb: nat, le: seq<nat>, i: nat)
    requires i < |cd| && cd[i] == 0 && Cells(cd, mb, le, i)
    ensures Cells(cd, mb, le, i + 1)
  {
  }

  /** `hMap(cd, mb, 0)`: the transmitted code of every symbol. */
  method EncodeTable(cd: Lengths, mb: nat) returns (co: array<nat>)
    requires Fits(cd, mb)
    ensures fresh(co) && co.Length == |cd|
    ensures forall i :: 0 <= i < |cd| ==> co[i] == Enc(cd, i)
  {
    hide Cells, Code16, Shr, FirstCode16, Count;
    var le := LengthCells(cd, mb);
    co := new nat[|cd|](_ => 0);
    StartCells(cd, mb, le[..]);
    for i := 0 to |cd|
      invariant Cells(cd, mb, le[..], i)
      invariant forall k :: 0 <= k < i ==> co[k] == Enc(cd, k)
      invariant forall k :: i <= k < |cd| ==> co[k] == 0
    {
      if cd[i] != 0 {
        var code := TakeCode(cd, mb, le, i);
        co[i] := Shr(RevAt(code), 15 - cd[i]);
      } else {
        SkipCode(cd, mb, le[..], i);
      }
    }
  }

  lemma StartCells(cd: Lengths, mb: nat, le: seq<nat>)
    requires |le| == mb && forall k :: 0 <= k < mb ==> le[k] == FirstCode16(cd, k + 1)
    ensures Cells(cd, mb, le, 0)
  {
  }

  /** Stores symbol i's packed entry in every cell of its block. */
  method FillBlock(cd: Lengths, mb: nat, co: array<nat>, i: nat, code: nat)
    requires Fits(cd, mb) && i < |cd| && cd[i] != 0 && code == Code16(cd, i)
    requires co.Length == Pow2(mb)
    requires forall w: nat :: w < Pow2(mb) ==> co[w] == Entry(cd, mb, i, w)
    modifies co
    ensures forall w: nat :: w < Pow2(mb) ==> co[w] == Entry(cd, mb, i + 1, w)
  {
    hide Shl, Shr, RevAt, Code16;
    var sv := Packed(cd, i);
    var r := mb - cd[i];
    var v := Shl(code, r);
    for t := 0 to Pow2(r)
      invariant forall w: nat :: w < Pow2(mb) ==>
                  co[w] == if exists u: nat :: u < t && Slot(cd, mb, i, u) == w then sv else Entry(cd, mb, i, w)
    {
      SlotRange(cd, mb, i, t);
      co[Shr(RevAt(v + t), 15 - mb)] := sv;
    }
  }

  /** `hMap(cd, mb, 1)`: the entry for every lookahead word. A packed entry has to fit
      a 16-bit cell, which bounds the alphabet. */
  method DecodeTable(cd: Lengths, mb: nat) returns (co: array<nat>)
    requires Fits(cd, mb) && |cd| <= 4096
    ensures fresh(co) && co.Length == Pow2(mb)
    ensures forall w: nat :: w < Pow2(mb) ==> co[w] == Entry(cd, mb, |cd|, w)
  {
    hide Cells, Code16, Shr, Shl, FirstCode16, Count;
    var le := LengthCells(cd, mb);
    co := new nat[Pow2(mb)](_ => 0);
    StartCells(cd, mb, le[..]);
    for i := 0 to |cd|
      invariant Cells(cd, mb, le[..], i)
      invariant forall w: nat :: w < Pow2(mb) ==> co[w] == Entry(cd, mb, i, w)
    {
      if cd[i] != 0 {
        var code := TakeCode(cd, mb, le, i);
        FillBlock(cd, mb, co, i, code);
      } else {
        SkipCode(cd, mb, le[..], i);
      }
    }
  }
}
