/** The same cipher on 64-bit words: wires as shifts and masks, boxes as rows of hexadecimal
    digits; and that it is the one on bit strings. */
module DesWords {
  import opened DesTables
  import opened Des

  type Word = bv64

  predicate Bit(v: Word, k: nat)
    requires k < 64
  {
    (v >> k) & 1 == 1
  }

  /** The low n bits, the highest of them first. */
  function Of(v: Word, n: nat): (x: Bits)
    requires n <= 64
    ensures |x| == n
  {
    seq(n, i requires 0 <= i < n => Bit(v, n - 1 - i))
  }

  // ---- wires ---------------------------------------------------------------------------------

  /** The eight bits of y below its m-th are these bits of x. */
  predicate Eight(x: Word, y: Word, m: nat, a: nat, b: nat, c: nat, d: nat, e: nat, f: nat, g: nat, h: nat)
    requires 8 <= m <= 64 && a < 64 && b < 64 && c < 64 && d < 64 && e < 64 && f < 64 && g < 64 && h < 64
  {
    && (Bit(y, m - 1) <==> Bit(x, a)) && (Bit(y, m - 2) <==> Bit(x, b)) && (Bit(y, m - 3) <==> Bit(x, c)) && (Bit(y, m - 4) <==> Bit(x, d))
    && (Bit(y, m - 5) <==> Bit(x, e)) && (Bit(y, m - 6) <==> Bit(x, f)) && (Bit(y, m - 7) <==> Bit(x, g)) && (Bit(y, m - 8) <==> Bit(x, h))
  }

  /** They are the bits of x, of n, that the row of a table names. */
  predicate Wired(row: seq<Position>, x: Word, n: nat, y: Word, m: nat)
    requires 8 <= m <= 64 && n <= 64
  {
    && |row| == 8 && (forall c :: 0 <= c < 8 ==> row[c] <= n)
    && Eight(x, y, m, n - row[0], n - row[1], n - row[2], n - row[3], n - row[4], n - row[5], n - row[6], n - row[7])
  }

  /** The choice of 48 bits out of both halves of the key. */
  function Pc2(x: Word): Word {
    ((x << 18) & 0x400000) | ((x << 17) & 0x40000) | ((x << 12) & 0x110000000000) | ((x << 10) & 0x88000)
    | ((x << 8) & 0x800100) | ((x << 7) & 0x400000000000) | ((x << 5) & 0x800000000000) | ((x << 4) & 0x1000)
    | ((x << 3) & 0x4440) | ((x << 2) & 0x2800000000) | ((x << 1) & 0x80100000) | ((x >> 0) & 0x200000010000)
    | ((x >> 1) & 0x800) | ((x >> 2) & 0x8008000000) | ((x >> 3) & 0x400000008) | ((x >> 4) & 0x200000)
    | ((x >> 5) & 0x20) | ((x >> 8) & 0x200) | ((x >> 9) & 0x40000020000) | ((x >> 10) & 0x1004002010)
    | ((x >> 11) & 0x220000000) | ((x >> 12) & 0xA4000000000) | ((x >> 15) & 0x80) | ((x >> 18) & 0x42000004)
    | ((x >> 20) & 0x100000000) | ((x >> 21) & 0x10000000) | ((x >> 24) & 0x1) | ((x >> 26) & 0x2)
    | ((x >> 30) & 0x1000000)
  }

  lemma Pc2Wires(x: Word)
    ensures |PC2| == 6 && forall r :: 0 <= r < 6 ==> Wired(PC2[r], x, 56, Pc2(x), 48 - 8 * r)
  {
    Pc20(x);
    Pc21(x);
    Pc22(x);
    Pc23(x);
    Pc24(x);
    Pc25(x);
    hide Pc2, Eight;
    assert Wired(PC2[0], x, 56, Pc2(x), 48);
    assert Wired(PC2[1], x, 56, Pc2(x), 40);
    assert Wired(PC2[2], x, 56, Pc2(x), 32);
    assert Wired(PC2[3], x, 56, Pc2(x), 24);
    assert Wired(PC2[4], x, 56, Pc2(x), 16);
    assert Wired(PC2[5], x, 56, Pc2(x), 8);
  }

  lemma Pc20(x: Word) ensures Eight(x, Pc2(x), 48, 42, 39, 45, 32, 55, 51, 53, 28) { }
  lemma Pc21(x: Word) ensures Eight(x, Pc2(x), 40, 41, 50, 35, 46, 33, 37, 44, 52) { }
  lemma Pc22(x: Word) ensures Eight(x, Pc2(x), 32, 30, 48, 40, 49, 29, 36, 43, 54) { }
  lemma Pc23(x: Word) ensures Eight(x, Pc2(x), 24, 15, 4, 25, 19, 9, 1, 26, 16) { }
  lemma Pc24(x: Word) ensures Eight(x, Pc2(x), 16, 5, 11, 23, 8, 12, 7, 17, 0) { }
  lemma Pc25(x: Word) ensures Eight(x, Pc2(x), 8, 22, 3, 10, 14, 6, 20, 27, 24) { }

  /** The wires behind the boxes. */
  function Pw(x: Word): Word {
    ((x << 24) & 0x8000000) | ((x << 21) & 0x2000000) | ((x << 17) & 0x30000000) | ((x << 16) & 0x20000)
    | ((x << 15) & 0x80000000) | ((x << 14) & 0x100000) | ((x << 12) & 0x200000) | ((x << 11) & 0x800)
    | ((x << 9) & 0x1000000) | ((x << 6) & 0x4000000) | ((x << 5) & 0x40402400) | ((x << 4) & 0x40000)
    | ((x << 3) & 0x20) | ((x >> 6) & 0x11080) | ((x >> 7) & 0x9) | ((x >> 8) & 0x880000)
    | ((x >> 10) & 0x4000) | ((x >> 13) & 0x40) | ((x >> 15) & 0x8100) | ((x >> 19) & 0x4)
    | ((x >> 20) & 0x200) | ((x >> 22) & 0x10) | ((x >> 27) & 0x2)
  }

  lemma PwWires(x: Word)
    ensures |P| == 4 && forall r :: 0 <= r < 4 ==> Wired(P[r], x, 32, Pw(x), 32 - 8 * r)
  {
    Pw0(x);
    Pw1(x);
    Pw2(x);
    Pw3(x);
    hide Pw, Eight;
    assert Wired(P[0], x, 32, Pw(x), 32);
    assert Wired(P[1], x, 32, Pw(x), 24);
    assert Wired(P[2], x, 32, Pw(x), 16);
    assert Wired(P[3], x, 32, Pw(x), 8);
  }

  lemma Pw0(x: Word) ensures Eight(x, Pw(x), 32, 16, 25, 12, 11, 3, 20, 4, 15) { }
  lemma Pw1(x: Word) ensures Eight(x, Pw(x), 24, 31, 17, 9, 6, 27, 14, 1, 22) { }
  lemma Pw2(x: Word) ensures Eight(x, Pw(x), 16, 30, 24, 8, 18, 0, 5, 29, 23) { }
  lemma Pw3(x: Word) ensures Eight(x, Pw(x), 8, 13, 19, 2, 26, 10, 21, 28, 7) { }

  /** The expansion. */
  function Ew(x: Word): Word {
    ((x << 47) & 0x800000000000) | ((x << 15) & 0x7C0000000000) | ((x << 13) & 0x3F000000000) | ((x << 11) & 0xFC0000000)
    | ((x << 9) & 0x3F000000) | ((x << 7) & 0xFC0000) | ((x << 5) & 0x3F000) | ((x << 3) & 0xFC0)
    | ((x << 1) & 0x3E) | ((x >> 31) & 0x1)
  }

  lemma EwWires(x: Word)
    ensures |E| == 6 && forall r :: 0 <= r < 6 ==> Wired(E[r], x, 32, Ew(x), 48 - 8 * r)
  {
    Ew0(x);
    Ew1(x);
    Ew2(x);
    Ew3(x);
    Ew4(x);
    Ew5(x);
    hide Ew, Eight;
    assert Wired(E[0], x, 32, Ew(x), 48);
    assert Wired(E[1], x, 32, Ew(x), 40);
    assert Wired(E[2], x, 32, Ew(x), 32);
    assert Wired(E[3], x, 32, Ew(x), 24);
    assert Wired(E[4], x, 32, Ew(x), 16);
    assert Wired(E[5], x, 32, Ew(x), 8);
  }

  lemma Ew0(x: Word) ensures Eight(x, Ew(x), 48, 0, 31, 30, 29, 28, 27, 28, 27) { }
  lemma Ew1(x: Word) ensures Eight(x, Ew(x), 40, 26, 25, 24, 23, 24, 23, 22, 21) { }
  lemma Ew2(x: Word) ensures Eight(x, Ew(x), 32, 20, 19, 20, 19, 18, 17, 16, 15) { }
  lemma Ew3(x: Word) ensures Eight(x, Ew(x), 24, 16, 15, 14, 13, 12, 11, 12, 11) { }
  lemma Ew4(x: Word) ensures Eight(x, Ew(x), 16, 10, 9, 8, 7, 8, 7, 6, 5) { }
  lemma Ew5(x: Word) ensures Eight(x, Ew(x), 8, 4, 3, 4, 3, 2, 1, 0, 31) { }

  /** The initial permutation. */
  function Ip(x: Word): Word {
    ((x << 57) & 0x8000000000000000) | ((x << 51) & 0x80000000000000) | ((x << 48) & 0x4000000000000000) | ((x << 45) & 0x800000000000)
    | ((x << 42) & 0x40000000000000) | ((x << 39) & 0x2000008000000000) | ((x << 36) & 0x400000000000) | ((x << 33) & 0x20000000000000)
    | ((x << 30) & 0x1000004000000000) | ((x << 27) & 0x200000000000) | ((x << 24) & 0x10000080000000) | ((x << 21) & 0x800002000000000)
    | ((x << 18) & 0x100000800000) | ((x << 15) & 0x8000040000000) | ((x << 12) & 0x400001000008000) | ((x << 9) & 0x80000400000)
    | ((x << 6) & 0x4000020000080) | ((x << 3) & 0x200000800004000) | ((x >> 0) & 0x40000200000) | ((x >> 3) & 0x2000010000040)
    | ((x >> 6) & 0x100000400002000) | ((x >> 9) & 0x20000100000) | ((x >> 12) & 0x1000008000020) | ((x >> 15) & 0x200001000)
    | ((x >> 18) & 0x10000080000) | ((x >> 21) & 0x4000010) | ((x >> 24) & 0x100000800) | ((x >> 27) & 0x40000)
    | ((x >> 30) & 0x2000008) | ((x >> 33) & 0x400) | ((x >> 36) & 0x20000) | ((x >> 39) & 0x1000004)
    | ((x >> 42) & 0x200) | ((x >> 45) & 0x10000) | ((x >> 48) & 0x2) | ((x >> 51) & 0x100)
    | ((x >> 57) & 0x1)
  }

  lemma IpWires(x: Word)
    ensures |IP| == 8 && forall r :: 0 <= r < 8 ==> Wired(IP[r], x, 64, Ip(x), 64 - 8 * r)
  {
    Ip0(x);
    Ip1(x);
    Ip2(x);
    Ip3(x);
    Ip4(x);
    Ip5(x);
    Ip6(x);
    Ip7(x);
    hide Ip, Eight;
    assert Wired(IP[0], x, 64, Ip(x), 64);
    assert Wired(IP[1], x, 64, Ip(x), 56);
    assert Wired(IP[2], x, 64, Ip(x), 48);
    assert Wired(IP[3], x, 64, Ip(x), 40);
    assert Wired(IP[4], x, 64, Ip(x), 32);
    assert Wired(IP[5], x, 64, Ip(x), 24);
    assert Wired(IP[6], x, 64, Ip(x), 16);
    assert Wired(IP[7], x, 64, Ip(x), 8);
  }

  lemma Ip0(x: Word) ensures Eight(x, Ip(x), 64, 6, 14, 22, 30, 38, 46, 54, 62) { }
  lemma Ip1(x: Word) ensures Eight(x, Ip(x), 56, 4, 12, 20, 28, 36, 44, 52, 60) { }
  lemma Ip2(x: Word) ensures Eight(x, Ip(x), 48, 2, 10, 18, 26, 34, 42, 50, 58) { }
  lemma Ip3(x: Word) ensures Eight(x, Ip(x), 40, 0, 8, 16, 24, 32, 40, 48, 56) { }
  lemma Ip4(x: Word) ensures Eight(x, Ip(x), 32, 7, 15, 23, 31, 39, 47, 55, 63) { }
  lemma Ip5(x: Word) ensures Eight(x, Ip(x), 24, 5, 13, 21, 29, 37, 45, 53, 61) { }
  lemma Ip6(x: Word) ensures Eight(x, Ip(x), 16, 3, 11, 19, 27, 35, 43, 51, 59) { }
  lemma Ip7(x: Word) ensures Eight(x, Ip(x), 8, 1, 9, 17, 25, 33, 41, 49, 57) { }

  /** The final permutation. */
  function Fp(x: Word): Word {
    ((x << 57) & 0x200000000000000) | ((x << 51) & 0x800000000000000) | ((x << 48) & 0x2000000000000) | ((x << 45) & 0x2000000000000000)
    | ((x << 42) & 0x8000000000000) | ((x << 39) & 0x8000020000000000) | ((x << 36) & 0x20000000000000) | ((x << 33) & 0x80000000000)
    | ((x << 30) & 0x80000200000000) | ((x << 27) & 0x200000000000) | ((x << 24) & 0x100000800000000) | ((x << 21) & 0x800002000000)
    | ((x << 18) & 0x400002000000000) | ((x << 15) & 0x1000008000000) | ((x << 12) & 0x1000008000020000) | ((x << 9) & 0x4000020000000)
    | ((x << 6) & 0x4000010000080000) | ((x << 3) & 0x10000080000200) | ((x >> 0) & 0x40000200000) | ((x >> 3) & 0x40000100000800)
    | ((x >> 6) & 0x100000800002) | ((x >> 9) & 0x400002000) | ((x >> 12) & 0x400001000008) | ((x >> 15) & 0x1000008000)
    | ((x >> 18) & 0x4000020) | ((x >> 21) & 0x4000010000) | ((x >> 24) & 0x10000080) | ((x >> 27) & 0x40000)
    | ((x >> 30) & 0x40000100) | ((x >> 33) & 0x100000) | ((x >> 36) & 0x400) | ((x >> 39) & 0x400001)
    | ((x >> 42) & 0x1000) | ((x >> 45) & 0x4) | ((x >> 48) & 0x4000) | ((x >> 51) & 0x10)
    | ((x >> 57) & 0x40)
  }

  lemma FpWires(x: Word)
    ensures |FP| == 8 && forall r :: 0 <= r < 8 ==> Wired(FP[r], x, 64, Fp(x), 64 - 8 * r)
  {
    Fp0(x);
    Fp1(x);
    Fp2(x);
    Fp3(x);
    Fp4(x);
    Fp5(x);
    Fp6(x);
    Fp7(x);
    hide Fp, Eight;
    assert Wired(FP[0], x, 64, Fp(x), 64);
    assert Wired(FP[1], x, 64, Fp(x), 56);
    assert Wired(FP[2], x, 64, Fp(x), 48);
    assert Wired(FP[3], x, 64, Fp(x), 40);
    assert Wired(FP[4], x, 64, Fp(x), 32);
    assert Wired(FP[5], x, 64, Fp(x), 24);
    assert Wired(FP[6], x, 64, Fp(x), 16);
    assert Wired(FP[7], x, 64, Fp(x), 8);
  }

  lemma Fp0(x: Word) ensures Eight(x, Fp(x), 64, 24, 56, 16, 48, 8, 40, 0, 32) { }
  lemma Fp1(x: Word) ensures Eight(x, Fp(x), 56, 25, 57, 17, 49, 9, 41, 1, 33) { }
  lemma Fp2(x: Word) ensures Eight(x, Fp(x), 48, 26, 58, 18, 50, 10, 42, 2, 34) { }
  lemma Fp3(x: Word) ensures Eight(x, Fp(x), 40, 27, 59, 19, 51, 11, 43, 3, 35) { }
  lemma Fp4(x: Word) ensures Eight(x, Fp(x), 32, 28, 60, 20, 52, 12, 44, 4, 36) { }
  lemma Fp5(x: Word) ensures Eight(x, Fp(x), 24, 29, 61, 21, 53, 13, 45, 5, 37) { }
  lemma Fp6(x: Word) ensures Eight(x, Fp(x), 16, 30, 62, 22, 54, 14, 46, 6, 38) { }
  lemma Fp7(x: Word) ensures Eight(x, Fp(x), 8, 31, 63, 23, 55, 15, 47, 7, 39) { }

  /** The 56 bits of the key. */
  function Pc1(x: Word): Word {
    ((x << 48) & 0x80000000000000) | ((x << 41) & 0x800000000000) | ((x << 39) & 0x40000000000000) | ((x << 34) & 0x8000000000)
    | ((x << 32) & 0x400000000000) | ((x << 30) & 0x20000000000000) | ((x << 27) & 0x80000000) | ((x << 26) & 0x8000000)
    | ((x << 25) & 0x4000000000) | ((x << 23) & 0x200000000000) | ((x << 21) & 0x10000000000000) | ((x << 18) & 0x40000000)
    | ((x << 17) & 0x4080000) | ((x << 16) & 0x2000000000) | ((x << 14) & 0x100000000000) | ((x << 12) & 0x8000000000000)
    | ((x << 9) & 0x20000000) | ((x << 8) & 0x2040800) | ((x << 7) & 0x1000000000) | ((x << 5) & 0x80000000000)
    | ((x << 3) & 0x4000000000000) | ((x >> 0) & 0x10000000) | ((x >> 1) & 0x1020400) | ((x >> 2) & 0x800000000)
    | ((x >> 4) & 0x40000000000) | ((x >> 6) & 0x2000000000000) | ((x >> 10) & 0x810200) | ((x >> 11) & 0x400000000)
    | ((x >> 13) & 0x20000000000) | ((x >> 15) & 0x1000000000000) | ((x >> 19) & 0x408100) | ((x >> 20) & 0x200000000)
    | ((x >> 22) & 0x10000000000) | ((x >> 28) & 0x204080) | ((x >> 29) & 0x100000000) | ((x >> 33) & 0x8)
    | ((x >> 37) & 0x102040) | ((x >> 42) & 0x4) | ((x >> 46) & 0x1020) | ((x >> 51) & 0x2)
    | ((x >> 55) & 0x10) | ((x >> 60) & 0x1)
  }

  lemma Pc1Wires(x: Word)
    ensures |PC1| == 7 && forall r :: 0 <= r < 7 ==> Wired(PC1[r], x, 64, Pc1(x), 56 - 8 * r)
  {
    Pc10(x);
    Pc11(x);
    Pc12(x);
    Pc13(x);
    Pc14(x);
    Pc15(x);
    Pc16(x);
    hide Pc1, Eight;
    assert Wired(PC1[0], x, 64, Pc1(x), 56);
    assert Wired(PC1[1], x, 64, Pc1(x), 48);
    assert Wired(PC1[2], x, 64, Pc1(x), 40);
    assert Wired(PC1[3], x, 64, Pc1(x), 32);
    assert Wired(PC1[4], x, 64, Pc1(x), 24);
    assert Wired(PC1[5], x, 64, Pc1(x), 16);
    assert Wired(PC1[6], x, 64, Pc1(x), 8);
  }

  lemma Pc10(x: Word) ensures Eight(x, Pc1(x), 56, 7, 15, 23, 31, 39, 47, 55, 63) { }
  lemma Pc11(x: Word) ensures Eight(x, Pc1(x), 48, 6, 14, 22, 30, 38, 46, 54, 62) { }
  lemma Pc12(x: Word) ensures Eight(x, Pc1(x), 40, 5, 13, 21, 29, 37, 45, 53, 61) { }
  lemma Pc13(x: Word) ensures Eight(x, Pc1(x), 32, 4, 12, 20, 28, 1, 9, 17, 25) { }
  lemma Pc14(x: Word) ensures Eight(x, Pc1(x), 24, 33, 41, 49, 57, 2, 10, 18, 26) { }
  lemma Pc15(x: Word) ensures Eight(x, Pc1(x), 16, 34, 42, 50, 58, 3, 11, 19, 27) { }
  lemma Pc16(x: Word) ensures Eight(x, Pc1(x), 8, 35, 43, 51, 59, 36, 44, 52, 60) { }

  lemma WiredAt(row: seq<Position>, x: Word, n: nat, y: Word, m: nat, c: nat)
    requires 8 <= m <= 64 && n <= 64 && c < 8 && Wired(row, x, n, y, m)
    ensures |row| == 8 && row[c] <= n && (Bit(y, m - 1 - c) <==> Bit(x, n - row[c]))
  {
    hide Bit;
  }

  /** A table whose rows are all wired so permutes the bits. */
  lemma PermuteOf(x: Word, n: nat, t: Rows, y: Word)
    requires n <= 64 && 0 < |t| <= 8 && InWidth(t, n) && forall r :: 0 <= r < |t| ==> Wired(t[r], x, n, y, 8 * |t| - 8 * r)
    ensures Permute(Of(x, n), t) == Of(y, 8 * |t|)
  {
    hide Bit, Wired;
    forall i | 0 <= i < 8 * |t| ensures Permute(Of(x, n), t)[i] == Of(y, 8 * |t|)[i] {
      var (r, c) := (i / 8, i % 8);
      WiredAt(t[r], x, n, y, 8 * |t| - 8 * r, c);
      assert At(t, i) == t[r][c];
    }
  }

  // ---- sums --------------------------------------------------------------------------------

  /** Eight bits of a sum. */
  predicate Sum(a: Word, b: Word, m: nat)
    requires 8 <= m <= 64
  {
    && (Bit(a ^ b, m - 1) <==> Bit(a, m - 1) != Bit(b, m - 1)) && (Bit(a ^ b, m - 2) <==> Bit(a, m - 2) != Bit(b, m - 2))
    && (Bit(a ^ b, m - 3) <==> Bit(a, m - 3) != Bit(b, m - 3)) && (Bit(a ^ b, m - 4) <==> Bit(a, m - 4) != Bit(b, m - 4))
    && (Bit(a ^ b, m - 5) <==> Bit(a, m - 5) != Bit(b, m - 5)) && (Bit(a ^ b, m - 6) <==> Bit(a, m - 6) != Bit(b, m - 6))
    && (Bit(a ^ b, m - 7) <==> Bit(a, m - 7) != Bit(b, m - 7)) && (Bit(a ^ b, m - 8) <==> Bit(a, m - 8) != Bit(b, m - 8))
  }

  lemma Sum0(a: Word, b: Word) ensures Sum(a, b, 8) { }
  lemma Sum1(a: Word, b: Word) ensures Sum(a, b, 16) { }
  lemma Sum2(a: Word, b: Word) ensures Sum(a, b, 24) { }
  lemma Sum3(a: Word, b: Word) ensures Sum(a, b, 32) { }
  lemma Sum4(a: Word, b: Word) ensures Sum(a, b, 40) { }
  lemma Sum5(a: Word, b: Word) ensures Sum(a, b, 48) { }

  lemma SumBit(a: Word, b: Word, k: nat)
    requires k < 48
    ensures Bit(a ^ b, k) <==> Bit(a, k) != Bit(b, k)
  {
    hide Bit, Sum;
    if k < 8 {
      Sum0(a, b);
      SumAt(a, b, 8, k);
    } else if k < 16 {
      Sum1(a, b);
      SumAt(a, b, 16, k);
    } else if k < 24 {
      Sum2(a, b);
      SumAt(a, b, 24, k);
    } else if k < 32 {
      Sum3(a, b);
      SumAt(a, b, 32, k);
    } else if k < 40 {
      Sum4(a, b);
      SumAt(a, b, 40, k);
    } else {
      Sum5(a, b);
      SumAt(a, b, 48, k);
    }
  }

  lemma XorOf(a: Word, b: Word, n: nat)
    requires n <= 48
    ensures Xor(Of(a, n), Of(b, n)) == Of(a ^ b, n)
  {
    hide Bit;
    forall i | 0 <= i < n ensures Xor(Of(a, n), Of(b, n))[i] == Of(a ^ b, n)[i] {
      SumBit(a, b, n - 1 - i);
    }
  }

  lemma SumAt(a: Word, b: Word, m: nat, k: nat)
    requires 8 <= m <= 64 && m - 8 <= k < m && Sum(a, b, m)
    ensures Bit(a ^ b, k) <==> Bit(a, k) != Bit(b, k)
  {
    hide Bit;
  }

  // ---- boxes ------------------------------------------------------------------------------------

  /** The rows of a box, a hexadecimal digit for each column. */
  function Digits(index: nat, row: nat): Word {
    if index == 0 then
      if row == 0 then 0xE4D12FB83A6C5907 else if row == 1 then 0x0F74E2D1A6CB9538 else if row == 2 then 0x41E8D62BFC973A50 else 0xFC8249175B3EA06D
    else if index == 1 then
      if row == 0 then 0xF18E6B34972DC05A else if row == 1 then 0x3D47F28EC01A69B5 else if row == 2 then 0x0E7BA4D158C6932F else 0xD8A13F42B67C05E9
    else if index == 2 then
      if row == 0 then 0xA09E63F51DC7B428 else if row == 1 then 0xD709346A285ECBF1 else if row == 2 then 0xD6498F30B12C5AE7 else 0x1AD069874FE3B52C
    else if index == 3 then
      if row == 0 then 0x7DE3069A1285BC4F else if row == 1 then 0xD8B56F03472C1AE9 else if row == 2 then 0xA690CB7DF13E5284 else 0x3F06A1D8945BC72E
    else if index == 4 then
      if row == 0 then 0x2C417AB6853FD0E9 else if row == 1 then 0xEB2C47D150FA3986 else if row == 2 then 0x421BAD78F9C5630E else 0xB8C71E2D6F09A453
    else if index == 5 then
      if row == 0 then 0xC1AF92680D34E75B else if row == 1 then 0xAF427C9561DE0B38 else if row == 2 then 0x9EF528C3704A1DB6 else 0x432C95FABE17608D
    else if index == 6 then
      if row == 0 then 0x4B2EF08D3C975A61 else if row == 1 then 0xD0B7491AE35C2F86 else if row == 2 then 0x14BDC37EAF680592 else 0x6BD814A7950FE23C
    else
      if row == 0 then 0xD2846FB1A93E50C7 else if row == 1 then 0x1FD8A374C56B0E92 else if row == 2 then 0x7B419CE206ADF358 else 0x21E74A8DFC90356B
  }

  /** The digit of a column. */
  function Digit(d: Word, c: Word): Word { (d >> ((60 - (c << 2)) & 60)) & 15 }

  /** What a box makes of the low six bits. */
  function Cell(index: nat, x: Word): Word {
    Digit(if x & 32 != 0 then if x & 1 != 0 then Digits(index, 3) else Digits(index, 2)
          else if x & 1 != 0 then Digits(index, 1) else Digits(index, 0), (x >> 1) & 15)
  }

  function Nib(v: Nibble): Word {
    match v
    case 0 => 0
    case 1 => 1
    case 2 => 2
    case 3 => 3
    case 4 => 4
    case 5 => 5
    case 6 => 6
    case 7 => 7
    case 8 => 8
    case 9 => 9
    case 10 => 10
    case 11 => 11
    case 12 => 12
    case 13 => 13
    case 14 => 14
    case _ => 15
  }

  predicate RowIs(row: seq<Nibble>, d: Word) {
    && |row| == 16
    && Nib(row[0]) == (d >> 60) & 15 && Nib(row[1]) == (d >> 56) & 15 && Nib(row[2]) == (d >> 52) & 15 && Nib(row[3]) == (d >> 48) & 15
    && Nib(row[4]) == (d >> 44) & 15 && Nib(row[5]) == (d >> 40) & 15 && Nib(row[6]) == (d >> 36) & 15 && Nib(row[7]) == (d >> 32) & 15
    && Nib(row[8]) == (d >> 28) & 15 && Nib(row[9]) == (d >> 24) & 15 && Nib(row[10]) == (d >> 20) & 15 && Nib(row[11]) == (d >> 16) & 15
    && Nib(row[12]) == (d >> 12) & 15 && Nib(row[13]) == (d >> 8) & 15 && Nib(row[14]) == (d >> 4) & 15 && Nib(row[15]) == (d >> 0) & 15
  }

  lemma Box0Row0() ensures |S1| == 4 && RowIs(S1[0], Digits(0, 0)) { }
  lemma Box0Row1() ensures |S1| == 4 && RowIs(S1[1], Digits(0, 1)) { }
  lemma Box0Row2() ensures |S1| == 4 && RowIs(S1[2], Digits(0, 2)) { }
  lemma Box0Row3() ensures |S1| == 4 && RowIs(S1[3], Digits(0, 3)) { }
  lemma Box1Row0() ensures |S2| == 4 && RowIs(S2[0], Digits(1, 0)) { }
  lemma Box1Row1() ensures |S2| == 4 && RowIs(S2[1], Digits(1, 1)) { }
  lemma Box1Row2() ensures |S2| == 4 && RowIs(S2[2], Digits(1, 2)) { }
  lemma Box1Row3() ensures |S2| == 4 && RowIs(S2[3], Digits(1, 3)) { }
  lemma Box2Row0() ensures |S3| == 4 && RowIs(S3[0], Digits(2, 0)) { }
  lemma Box2Row1() ensures |S3| == 4 && RowIs(S3[1], Digits(2, 1)) { }
  lemma Box2Row2() ensures |S3| == 4 && RowIs(S3[2], Digits(2, 2)) { }
  lemma Box2Row3() ensures |S3| == 4 && RowIs(S3[3], Digits(2, 3)) { }
  lemma Box3Row0() ensures |S4| == 4 && RowIs(S4[0], Digits(3, 0)) { }
  lemma Box3Row1() ensures |S4| == 4 && RowIs(S4[1], Digits(3, 1)) { }
  lemma Box3Row2() ensures |S4| == 4 && RowIs(S4[2], Digits(3, 2)) { }
  lemma Box3Row3() ensures |S4| == 4 && RowIs(S4[3], Digits(3, 3)) { }
  lemma Box4Row0() ensures |S5| == 4 && RowIs(S5[0], Digits(4, 0)) { }
  lemma Box4Row1() ensures |S5| == 4 && RowIs(S5[1], Digits(4, 1)) { }
  lemma Box4Row2() ensures |S5| == 4 && RowIs(S5[2], Digits(4, 2)) { }
  lemma Box4Row3() ensures |S5| == 4 && RowIs(S5[3], Digits(4, 3)) { }
  lemma Box5Row0() ensures |S6| == 4 && RowIs(S6[0], Digits(5, 0)) { }
  lemma Box5Row1() ensures |S6| == 4 && RowIs(S6[1], Digits(5, 1)) { }
  lemma Box5Row2() ensures |S6| == 4 && RowIs(S6[2], Digits(5, 2)) { }
  lemma Box5Row3() ensures |S6| == 4 && RowIs(S6[3], Digits(5, 3)) { }
  lemma Box6Row0() ensures |S7| == 4 && RowIs(S7[0], Digits(6, 0)) { }
  lemma Box6Row1() ensures |S7| == 4 && RowIs(S7[1], Digits(6, 1)) { }
  lemma Box6Row2() ensures |S7| == 4 && RowIs(S7[2], Digits(6, 2)) { }
  lemma Box6Row3() ensures |S7| == 4 && RowIs(S7[3], Digits(6, 3)) { }
  lemma Box7Row0() ensures |S8| == 4 && RowIs(S8[0], Digits(7, 0)) { }
  lemma Box7Row1() ensures |S8| == 4 && RowIs(S8[1], Digits(7, 1)) { }
  lemma Box7Row2() ensures |S8| == 4 && RowIs(S8[2], Digits(7, 2)) { }
  lemma Box7Row3() ensures |S8| == 4 && RowIs(S8[3], Digits(7, 3)) { }

  lemma NibOf(v: Nibble)
    ensures NibbleBits(v) == Of(Nib(v), 4)
  {
  }

  lemma Columns(d: Word)
    ensures Digit(d, 0) == (d >> 60) & 15 && Digit(d, 1) == (d >> 56) & 15 && Digit(d, 2) == (d >> 52) & 15 && Digit(d, 3) == (d >> 48) & 15
    ensures Digit(d, 4) == (d >> 44) & 15 && Digit(d, 5) == (d >> 40) & 15 && Digit(d, 6) == (d >> 36) & 15 && Digit(d, 7) == (d >> 32) & 15
    ensures Digit(d, 8) == (d >> 28) & 15 && Digit(d, 9) == (d >> 24) & 15 && Digit(d, 10) == (d >> 20) & 15 && Digit(d, 11) == (d >> 16) & 15
    ensures Digit(d, 12) == (d >> 12) & 15 && Digit(d, 13) == (d >> 8) & 15 && Digit(d, 14) == (d >> 4) & 15 && Digit(d, 15) == (d >> 0) & 15
  {
  }

  lemma RowAt(row: seq<Nibble>, d: Word, c: nat)
    requires RowIs(row, d) && c < 16
    ensures Nib(row[c]) == Digit(d, Nib(c))
  {
    hide Digit;
    Columns(d);
  }

  function One(x: Word, k: nat): nat
    requires k < 64
  {
    if Bit(x, k) then 1 else 0
  }

  /** The four bits in the middle and the two outer ones, as numbers. */
  lemma RowColumn(x: Word)
    ensures Nib(8 * One(x, 4) + 4 * One(x, 3) + 2 * One(x, 2) + One(x, 1)) == (x >> 1) & 15
    ensures (x & 32 != 0 <==> Bit(x, 5)) && (x & 1 != 0 <==> Bit(x, 0))
  {
  }

  lemma BoxIs(index: nat, row: nat)
    requires index < 8 && row < 4
    ensures RowIs(Box(index)[row], Digits(index, row))
  {
    hide RowIs, Digits, S1, S2, S3, S4, S5, S6, S7, S8;
    match index {
      case 0 => Box0Row0(); Box0Row1(); Box0Row2(); Box0Row3();
      case 1 => Box1Row0(); Box1Row1(); Box1Row2(); Box1Row3();
      case 2 => Box2Row0(); Box2Row1(); Box2Row2(); Box2Row3();
      case 3 => Box3Row0(); Box3Row1(); Box3Row2(); Box3Row3();
      case 4 => Box4Row0(); Box4Row1(); Box4Row2(); Box4Row3();
      case 5 => Box5Row0(); Box5Row1(); Box5Row2(); Box5Row3();
      case 6 => Box6Row0(); Box6Row1(); Box6Row2(); Box6Row3();
      case _ => Box7Row0(); Box7Row1(); Box7Row2(); Box7Row3();
    }
  }

  /** A box on words is the box on bits. */
  lemma CellOf(index: nat, v: Word)
    requires index < 8
    ensures NibbleBits(Substitute(Of(v, 6), index)) == Of(Cell(index, v), 4)
  {
    hide Digit, Digits, Nib, RowIs, Bit, NibbleBits, Box;
    var x := Of(v, 6);
    var (row, column) := (2 * One(v, 5) + One(v, 0), 8 * One(v, 4) + 4 * One(v, 3) + 2 * One(v, 2) + One(v, 1));
    RowColumn(v);
    BoxIs(index, row);
    RowAt(Box(index)[row], Digits(index, row), column);
    NibOf(Box(index)[row][column]);
  }

  // ---- the round function -------------------------------------------------------------------------

  /** Eight digits in a row. */
  function Pack(z0: Word, z1: Word, z2: Word, z3: Word, z4: Word, z5: Word, z6: Word, z7: Word): Word {
    (z0 << 28) | (z1 << 24) | (z2 << 20) | (z3 << 16) | (z4 << 12) | (z5 << 8) | (z6 << 4) | z7
  }

  function Boxes(x: Word): Word {
    Pack(Cell(0, x >> 42), Cell(1, x >> 36), Cell(2, x >> 30), Cell(3, x >> 24), Cell(4, x >> 18), Cell(5, x >> 12), Cell(6, x >> 6), Cell(7, x >> 0))
  }

  /** Six bits of a word shifted down. */
  predicate Six(x: Word, y: Word, s: nat)
    requires s + 6 <= 64
  {
    && (Bit(y, 0) <==> Bit(x, s)) && (Bit(y, 1) <==> Bit(x, s + 1)) && (Bit(y, 2) <==> Bit(x, s + 2))
    && (Bit(y, 3) <==> Bit(x, s + 3)) && (Bit(y, 4) <==> Bit(x, s + 4)) && (Bit(y, 5) <==> Bit(x, s + 5))
  }

  lemma SixOf(x: Word, y: Word, a: nat)
    requires a + 6 <= 48 && Six(x, y, 42 - a)
    ensures Of(x, 48)[a..a + 6] == Of(y, 6)
  {
    hide Bit;
  }

  /** Four bits of a word put together from eight. */
  predicate Nibbled(y: Word, z: Word, s: nat)
    requires s + 4 <= 64
  {
    (Bit(y, s) <==> Bit(z, 0)) && (Bit(y, s + 1) <==> Bit(z, 1)) && (Bit(y, s + 2) <==> Bit(z, 2)) && (Bit(y, s + 3) <==> Bit(z, 3))
  }

  lemma Packed(z0: Word, z1: Word, z2: Word, z3: Word, z4: Word, z5: Word, z6: Word, z7: Word)
    requires z0 & 15 == z0 && z1 & 15 == z1 && z2 & 15 == z2 && z3 & 15 == z3 && z4 & 15 == z4 && z5 & 15 == z5 && z6 & 15 == z6 && z7 & 15 == z7
    ensures var y := Pack(z0, z1, z2, z3, z4, z5, z6, z7);
            && Nibbled(y, z0, 28) && Nibbled(y, z1, 24) && Nibbled(y, z2, 20) && Nibbled(y, z3, 16) && Nibbled(y, z4, 12)
            && Nibbled(y, z5, 8) && Nibbled(y, z6, 4) && Nibbled(y, z7, 0)
  {
  }

  /** Four bits in front of those below them. */
  lemma Front(y: Word, z: Word, n: nat)
    requires n + 4 <= 64 && Nibbled(y, z, n)
    ensures Of(z, 4) + Of(y, n) == Of(y, n + 4)
  {
    hide Bit;
  }

  lemma Concat8(y: Word, z0: Word, z1: Word, z2: Word, z3: Word, z4: Word, z5: Word, z6: Word, z7: Word)
    requires Nibbled(y, z0, 28) && Nibbled(y, z1, 24) && Nibbled(y, z2, 20) && Nibbled(y, z3, 16) && Nibbled(y, z4, 12)
    requires Nibbled(y, z5, 8) && Nibbled(y, z6, 4) && Nibbled(y, z7, 0)
    ensures Of(z0, 4) + (Of(z1, 4) + (Of(z2, 4) + (Of(z3, 4) + (Of(z4, 4) + (Of(z5, 4) + (Of(z6, 4) + (Of(z7, 4)))))))) == Of(y, 32)
  {
    hide Of, Nibbled;
    Nothing(y);
    assert Of(z7, 4) + [] == Of(z7, 4);
    Front(y, z7, 0);
    Front(y, z6, 4);
    Front(y, z5, 8);
    Front(y, z4, 12);
    Front(y, z3, 16);
    Front(y, z2, 20);
    Front(y, z1, 24);
    Front(y, z0, 28);
  }

  lemma Nothing(y: Word)
    ensures Of(y, 0) == []
  {
  }

  lemma DigitSmall(d: Word, c: Word)
    ensures Digit(d, c) & 15 == Digit(d, c)
  {
  }

  lemma Unrolled(x: Bits)
    requires |x| == 48
    ensures SBoxes(x, 0) == NibbleBits(Substitute(x[0..6], 0)) + (NibbleBits(Substitute(x[6..12], 1)) + (NibbleBits(Substitute(x[12..18], 2))
            + (NibbleBits(Substitute(x[18..24], 3)) + (NibbleBits(Substitute(x[24..30], 4))
            + (NibbleBits(Substitute(x[30..36], 5)) + (NibbleBits(Substitute(x[36..42], 6)) + (NibbleBits(Substitute(x[42..48], 7)))))))))
  {
    hide Substitute, NibbleBits;
    assert x[6..][..6] == x[6..12] && x[6..][6..][..6] == x[12..18] && x[6..][6..][6..][..6] == x[18..24];
    assert x[6..][6..][6..][6..][..6] == x[24..30] && x[6..][6..][6..][6..][6..][..6] == x[30..36];
    assert x[6..][6..][6..][6..][6..][6..][..6] == x[36..42] && x[6..][6..][6..][6..][6..][6..][6..][..6] == x[42..48];
  }

  lemma Shifts(x: Word)
    ensures Six(x, x >> 42, 42) && Six(x, x >> 36, 36) && Six(x, x >> 30, 30) && Six(x, x >> 24, 24) && Six(x, x >> 18, 18)
    ensures Six(x, x >> 12, 12) && Six(x, x >> 6, 6) && Six(x, x >> 0, 0)
  {
  }

  lemma SliceCell(x: Word, y: Word, index: nat)
    requires index < 8 && Six(x, y, 42 - 6 * index)
    ensures NibbleBits(Substitute(Of(x, 48)[6 * index..6 * index + 6], index)) == Of(Cell(index, y), 4)
    ensures Cell(index, y) & 15 == Cell(index, y)
  {
    hide Bit, Cell, Six, Substitute, NibbleBits;
    SixOf(x, y, 6 * index);
    CellOf(index, y);
    CellSmall(index, y);
  }

  /** All eight boxes. */
  lemma BoxesOf(x: Word)
    ensures SBoxes(Of(x, 48), 0) == Of(Boxes(x), 32)
  {
    hide *;
    Shifts(x);
    Unrolled(Of(x, 48));
    SliceCell(x, x >> 42, 0);
    SliceCell(x, x >> 36, 1);
    SliceCell(x, x >> 30, 2);
    SliceCell(x, x >> 24, 3);
    SliceCell(x, x >> 18, 4);
    SliceCell(x, x >> 12, 5);
    SliceCell(x, x >> 6, 6);
    SliceCell(x, x >> 0, 7);
    BoxesPacked(x);
    Concat8(Boxes(x), Cell(0, x >> 42), Cell(1, x >> 36), Cell(2, x >> 30), Cell(3, x >> 24),
            Cell(4, x >> 18), Cell(5, x >> 12), Cell(6, x >> 6), Cell(7, x >> 0));
  }

  lemma BoxesPacked(x: Word)
    requires Cell(0, x >> 42) & 15 == Cell(0, x >> 42) && Cell(1, x >> 36) & 15 == Cell(1, x >> 36)
    requires Cell(2, x >> 30) & 15 == Cell(2, x >> 30) && Cell(3, x >> 24) & 15 == Cell(3, x >> 24)
    requires Cell(4, x >> 18) & 15 == Cell(4, x >> 18) && Cell(5, x >> 12) & 15 == Cell(5, x >> 12)
    requires Cell(6, x >> 6) & 15 == Cell(6, x >> 6) && Cell(7, x >> 0) & 15 == Cell(7, x >> 0)
    ensures Nibbled(Boxes(x), Cell(0, x >> 42), 28) && Nibbled(Boxes(x), Cell(1, x >> 36), 24)
    ensures Nibbled(Boxes(x), Cell(2, x >> 30), 20) && Nibbled(Boxes(x), Cell(3, x >> 24), 16)
    ensures Nibbled(Boxes(x), Cell(4, x >> 18), 12) && Nibbled(Boxes(x), Cell(5, x >> 12), 8)
    ensures Nibbled(Boxes(x), Cell(6, x >> 6), 4) && Nibbled(Boxes(x), Cell(7, x >> 0), 0)
  {
    hide Cell, Nibbled, Bit, Pack;
    Packed(Cell(0, x >> 42), Cell(1, x >> 36), Cell(2, x >> 30), Cell(3, x >> 24),
            Cell(4, x >> 18), Cell(5, x >> 12), Cell(6, x >> 6), Cell(7, x >> 0));
  }

  lemma CellSmall(index: nat, x: Word)
    ensures Cell(index, x) & 15 == Cell(index, x)
  {
    hide Digit, Digits;
    DigitSmall(Digits(index, 0), (x >> 1) & 15);
    DigitSmall(Digits(index, 1), (x >> 1) & 15);
    DigitSmall(Digits(index, 2), (x >> 1) & 15);
    DigitSmall(Digits(index, 3), (x >> 1) & 15);
  }

  function Fw(r: Word, k: Word): Word { Pw(Boxes(Ew(r) ^ k)) }

  /** The round function on words is the one on bits. */
  lemma FeistelOf(r: Word, k: Word)
    ensures Feistel(Of(r, 32), Of(k, 48)) == Of(Fw(r, k), 32)
  {
    hide Ew, Pw, Boxes, Permute, SBoxes, Xor, Of, InWidth, Wired;
    TableWidths();
    EwWires(r);
    PermuteOf(r, 32, E, Ew(r));
    XorOf(Ew(r), k, 48);
    BoxesOf(Ew(r) ^ k);
    PwWires(Boxes(Ew(r) ^ k));
    PermuteOf(Boxes(Ew(r) ^ k), 32, P, Pw(Boxes(Ew(r) ^ k)));
  }

  // ---- the key schedule -----------------------------------------------------------------------------

  /** Both halves of the key in one word, each turned by one place and by two. */
  function Turn1(x: Word): Word {
    ((x << 1) & 0xFFFFFFEFFFFFFE) | ((x >> 27) & 0x10000001)
  }

  function Turn2(x: Word): Word {
    ((x << 2) & 0xFFFFFFCFFFFFFC) | ((x >> 26) & 0x30000003)
  }

  lemma Turn1Part0(x: Word) ensures Eight(x, Turn1(x), 56, 54, 53, 52, 51, 50, 49, 48, 47) { }
  lemma Turn1Part1(x: Word) ensures Eight(x, Turn1(x), 48, 46, 45, 44, 43, 42, 41, 40, 39) { }
  lemma Turn1Part2(x: Word) ensures Eight(x, Turn1(x), 40, 38, 37, 36, 35, 34, 33, 32, 31) { }
  lemma Turn1Part3(x: Word) ensures Eight(x, Turn1(x), 32, 30, 29, 28, 55, 26, 25, 24, 23) { }
  lemma Turn1Part4(x: Word) ensures Eight(x, Turn1(x), 24, 22, 21, 20, 19, 18, 17, 16, 15) { }
  lemma Turn1Part5(x: Word) ensures Eight(x, Turn1(x), 16, 14, 13, 12, 11, 10, 9, 8, 7) { }
  lemma Turn1Part6(x: Word) ensures Eight(x, Turn1(x), 8, 6, 5, 4, 3, 2, 1, 0, 27) { }
  lemma Turn2Part0(x: Word) ensures Eight(x, Turn2(x), 56, 53, 52, 51, 50, 49, 48, 47, 46) { }
  lemma Turn2Part1(x: Word) ensures Eight(x, Turn2(x), 48, 45, 44, 43, 42, 41, 40, 39, 38) { }
  lemma Turn2Part2(x: Word) ensures Eight(x, Turn2(x), 40, 37, 36, 35, 34, 33, 32, 31, 30) { }
  lemma Turn2Part3(x: Word) ensures Eight(x, Turn2(x), 32, 29, 28, 55, 54, 25, 24, 23, 22) { }
  lemma Turn2Part4(x: Word) ensures Eight(x, Turn2(x), 24, 21, 20, 19, 18, 17, 16, 15, 14) { }
  lemma Turn2Part5(x: Word) ensures Eight(x, Turn2(x), 16, 13, 12, 11, 10, 9, 8, 7, 6) { }
  lemma Turn2Part6(x: Word) ensures Eight(x, Turn2(x), 8, 5, 4, 3, 2, 1, 0, 27, 26) { }

  lemma RotateAt(x: Bits, k: nat, i: nat)
    requires k <= |x| && i < |x|
    ensures Rotate(x, k)[i] == if i + k < |x| then x[i + k] else x[i + k - |x|]
  {
  }

  /** Where a bit comes from when both halves turn. */
  lemma HalvesAt(x: Word, k: nat, i: nat)
    requires k <= 28 && i < 56
    ensures var z := Rotate(Of(x, 56)[..28], k) + Rotate(Of(x, 56)[28..], k);
            |z| == 56 && (z[i] <==> Bit(x, 55 - if i < 28 then if i + k < 28 then i + k else i + k - 28 else if i + k < 56 then i + k else i + k - 28))
  {
    hide Bit;
    if i < 28 {
      RotateAt(Of(x, 56)[..28], k, i);
    } else {
      RotateAt(Of(x, 56)[28..], k, i - 28);
    }
  }

  lemma Turn1Bit(x: Word, i: nat)
    requires i < 56
    ensures Bit(Turn1(x), 55 - i) <==> Bit(x, 55 - if i < 28 then if i + 1 < 28 then i + 1 else i + 1 - 28 else if i + 1 < 56 then i + 1 else i + 1 - 28)
  {
    hide Bit, Turn1;
    if i < 8 {
      Turn1Part0(x);
    } else if i < 16 {
      Turn1Part1(x);
    } else if i < 24 {
      Turn1Part2(x);
    } else if i < 32 {
      Turn1Part3(x);
    } else if i < 40 {
      Turn1Part4(x);
    } else if i < 48 {
      Turn1Part5(x);
    } else {
      Turn1Part6(x);
    }
  }

  lemma Turn1Of(x: Word)
    ensures Rotate(Of(x, 56)[..28], 1) + Rotate(Of(x, 56)[28..], 1) == Of(Turn1(x), 56)
  {
    hide Bit, Turn1, Rotate;
    var z := Rotate(Of(x, 56)[..28], 1) + Rotate(Of(x, 56)[28..], 1);
    forall i | 0 <= i < 56 ensures z[i] == Of(Turn1(x), 56)[i] {
      HalvesAt(x, 1, i);
      Turn1Bit(x, i);
    }
  }

  lemma Turn2Bit(x: Word, i: nat)
    requires i < 56
    ensures Bit(Turn2(x), 55 - i) <==> Bit(x, 55 - if i < 28 then if i + 2 < 28 then i + 2 else i + 2 - 28 else if i + 2 < 56 then i + 2 else i + 2 - 28)
  {
    hide Bit, Turn2;
    if i < 8 {
      Turn2Part0(x);
    } else if i < 16 {
      Turn2Part1(x);
    } else if i < 24 {
      Turn2Part2(x);
    } else if i < 32 {
      Turn2Part3(x);
    } else if i < 40 {
      Turn2Part4(x);
    } else if i < 48 {
      Turn2Part5(x);
    } else {
      Turn2Part6(x);
    }
  }

  lemma Turn2Of(x: Word)
    ensures Rotate(Of(x, 56)[..28], 2) + Rotate(Of(x, 56)[28..], 2) == Of(Turn2(x), 56)
  {
    hide Bit, Turn2, Rotate;
    var z := Rotate(Of(x, 56)[..28], 2) + Rotate(Of(x, 56)[28..], 2);
    forall i | 0 <= i < 56 ensures z[i] == Of(Turn2(x), 56)[i] {
      HalvesAt(x, 2, i);
      Turn2Bit(x, i);
    }
  }

  // ---- rounds -------------------------------------------------------------------------------------------

  /** The key as it has been turned, and both halves of the block. */
  datatype State = State(cd: Word, l: Word, r: Word)

  function Step(s: State, k: nat): State {
    var cd := Turn(s.cd, k);
    State(cd, s.r, s.l ^ Fw(s.r, Pc2(cd)))
  }

  /** The rounds from the i-th on. */
  function Rest(s: State, i: nat): (Bits, Bits)
    requires i <= 16
  {
    Rounds(Of(s.l, 32), Of(s.r, 32), Schedule(Of(s.cd, 56)[..28], Of(s.cd, 56)[28..], i))
  }

  function Turn(cd: Word, k: nat): Word { if k == 1 then Turn1(cd) else Turn2(cd) }

  lemma TurnOf(cd: Word, k: nat)
    requires k == 1 || k == 2
    ensures var (c, d) := (Rotate(Of(cd, 56)[..28], k), Rotate(Of(cd, 56)[28..], k));
            c == Of(Turn(cd, k), 56)[..28] && d == Of(Turn(cd, k), 56)[28..]
  {
    hide Turn1, Turn2, Of, Rotate;
    Turn1Of(cd);
    Turn2Of(cd);
    var (c, d) := (Rotate(Of(cd, 56)[..28], k), Rotate(Of(cd, 56)[28..], k));
    assert c == (c + d)[..28] && d == (c + d)[28..];
  }

  /** The next subkey. */
  lemma KeyOf(cd: Word, i: nat)
    requires i < 16 && |ROTATIONS| == 16 && (ROTATIONS[i] == 1 || ROTATIONS[i] == 2)
    ensures var y := Turn(cd, ROTATIONS[i]);
            Schedule(Of(cd, 56)[..28], Of(cd, 56)[28..], i) == [Of(Pc2(y), 48)] + Schedule(Of(y, 56)[..28], Of(y, 56)[28..], i + 1)
  {
    hide Turn, Pc2, Permute, Of, Rotate, Wired, Schedule, InWidth;
    var y := Turn(cd, ROTATIONS[i]);
    TurnOf(cd, ROTATIONS[i]);
    ScheduleOne(Of(cd, 56)[..28], Of(cd, 56)[28..], i);
    assert Of(y, 56)[..28] + Of(y, 56)[28..] == Of(y, 56);
    Pc2Wires(y);
    PermuteOf(y, 56, PC2, Pc2(y));
  }

  /** One round on words is one on bits. */
  lemma StepOf(s: State, i: nat)
    requires i < 16 && |ROTATIONS| == 16 && (ROTATIONS[i] == 1 || ROTATIONS[i] == 2)
    ensures Rest(s, i) == Rest(Step(s, ROTATIONS[i]), i + 1)
  {
    hide Turn, Pc2, Fw, Feistel, Xor, Of, Rounds, Schedule;
    var cd := Turn(s.cd, ROTATIONS[i]);
    KeyOf(s.cd, i);
    FeistelOf(s.r, Pc2(cd));
    XorOf(s.l, Fw(s.r, Pc2(cd)), 32);
    RoundsOne(Of(s.l, 32), Of(s.r, 32), Of(Pc2(cd), 48), Schedule(Of(cd, 56)[..28], Of(cd, 56)[28..], i + 1));
  }

  lemma ScheduleOne(l: Bits, r: Bits, i: nat)
    requires |l| == |r| == 28 && i < 16
    ensures |ROTATIONS| == 16 && ROTATIONS[i] < 28 && |PC2| == 6 && InWidth(PC2, 56)
    ensures var (c, d) := (Rotate(l, ROTATIONS[i]), Rotate(r, ROTATIONS[i])); Schedule(l, r, i) == [Permute(c + d, PC2)] + Schedule(c, d, i + 1)
  {
    TableWidths();
  }

  lemma RoundsOne(l: Bits, r: Bits, k: Bits, ks: seq<Bits>)
    requires |l| == |r| == 32 && |k| == 48 && Keys(ks)
    ensures Keys([k] + ks) && Rounds(l, r, [k] + ks) == Rounds(r, Xor(l, Feistel(r, k)), ks)
  {
    hide Feistel, Xor;
    assert ([k] + ks)[1..] == ks;
  }

  /** Where the rounds begin. */
  function First(block: Word, key: Word): State { State(Pc1(key), Ip(block) >> 32, Ip(block) & 0xFFFF_FFFF) }

  function Paired(l: Word, r: Word): Word { (r << 32) | (l & 0xFFFF_FFFF) }

  function Result(s: State): Word { Fp(Paired(s.l, s.r)) }

  lemma {:induction false} HalfOf(x: Word)
    ensures Of(x, 64)[..32] == Of(x >> 32, 32) && Of(x, 64)[32..] == Of(x & 0xFFFF_FFFF, 32)
  {
    hide Bit;
    forall i | 0 <= i < 32 ensures Of(x, 64)[..32][i] == Of(x >> 32, 32)[i] && Of(x, 64)[32..][i] == Of(x & 0xFFFF_FFFF, 32)[i] {
      HighBit(x, 31 - i);
      LowBit(x, 31 - i);
    }
  }

  lemma HighBit(x: Word, k: nat)
    requires k < 32
    ensures Bit(x >> 32, k) <==> Bit(x, 32 + k)
  {
    hide Bit, Eight;
    if k < 8 {
      High0(x);
      EightAt(x, x >> 32, 8, 32, 32 + k);
    } else if k < 16 {
      High1(x);
      EightAt(x, x >> 32, 16, 40, 32 + k);
    } else if k < 24 {
      High2(x);
      EightAt(x, x >> 32, 24, 48, 32 + k);
    } else {
      High3(x);
      EightAt(x, x >> 32, 32, 56, 32 + k);
    }
  }

  lemma LowBit(x: Word, k: nat)
    requires k < 32
    ensures Bit(x & 0xFFFF_FFFF, k) <==> Bit(x, k)
  {
    hide Bit, Eight;
    var y := x & 0xFFFF_FFFF;
    if k < 8 {
      Low0(x);
      EightAt(x, y, 8, 0, k);
    } else if k < 16 {
      Low1(x);
      EightAt(x, y, 16, 8, k);
    } else if k < 24 {
      Low2(x);
      EightAt(x, y, 24, 16, k);
    } else {
      Low3(x);
      EightAt(x, y, 32, 24, k);
    }
  }

  lemma PairedOf(l: Word, r: Word)
    ensures Of(r, 32) + Of(l, 32) == Of(Paired(l, r), 64)
  {
    hide Bit, Paired;
    var y := Paired(l, r);
    forall i | 0 <= i < 64 ensures (Of(r, 32) + Of(l, 32))[i] == Of(y, 64)[i] {
      PairedBit(l, r, if i < 32 then 31 - i else 63 - i);
    }
  }

  /** Eight bits that stay in order, from the a-th up. */
  lemma EightAt(x: Word, y: Word, m: nat, a: nat, k: nat)
    requires 8 <= m <= 64 && a + 8 <= 64 && a <= k < a + 8 && Eight(x, y, m, a + 7, a + 6, a + 5, a + 4, a + 3, a + 2, a + 1, a)
    ensures Bit(y, m - 8 + k - a) <==> Bit(x, k)
  {
    hide Bit;
  }

  lemma PairedBit(l: Word, r: Word, k: nat)
    requires k < 32
    ensures var y := Paired(l, r); (Bit(y, 32 + k) <==> Bit(r, k)) && (Bit(y, k) <==> Bit(l, k))
  {
    hide Bit, Paired;
    if k < 8 {
      Paired0(l, r);
      EightAt(r, Paired(l, r), 40, 0, k);
      EightAt(l, Paired(l, r), 8, 0, k);
    } else if k < 16 {
      Paired1(l, r);
      EightAt(r, Paired(l, r), 48, 8, k);
      EightAt(l, Paired(l, r), 16, 8, k);
    } else if k < 24 {
      Paired2(l, r);
      EightAt(r, Paired(l, r), 56, 16, k);
      EightAt(l, Paired(l, r), 24, 16, k);
    } else {
      Paired3(l, r);
      EightAt(r, Paired(l, r), 64, 24, k);
      EightAt(l, Paired(l, r), 32, 24, k);
    }
  }

  lemma High0(x: Word) ensures Eight(x, x >> 32, 8, 39, 38, 37, 36, 35, 34, 33, 32) { }
  lemma High1(x: Word) ensures Eight(x, x >> 32, 16, 47, 46, 45, 44, 43, 42, 41, 40) { }
  lemma High2(x: Word) ensures Eight(x, x >> 32, 24, 55, 54, 53, 52, 51, 50, 49, 48) { }
  lemma High3(x: Word) ensures Eight(x, x >> 32, 32, 63, 62, 61, 60, 59, 58, 57, 56) { }
  lemma Low0(x: Word) ensures Eight(x, x & 0xFFFF_FFFF, 8, 7, 6, 5, 4, 3, 2, 1, 0) { }
  lemma Low1(x: Word) ensures Eight(x, x & 0xFFFF_FFFF, 16, 15, 14, 13, 12, 11, 10, 9, 8) { }
  lemma Low2(x: Word) ensures Eight(x, x & 0xFFFF_FFFF, 24, 23, 22, 21, 20, 19, 18, 17, 16) { }
  lemma Low3(x: Word) ensures Eight(x, x & 0xFFFF_FFFF, 32, 31, 30, 29, 28, 27, 26, 25, 24) { }
  lemma Paired0(l: Word, r: Word) ensures var y := Paired(l, r); Eight(r, y, 40, 7, 6, 5, 4, 3, 2, 1, 0) && Eight(l, y, 8, 7, 6, 5, 4, 3, 2, 1, 0) { }
  lemma Paired1(l: Word, r: Word) ensures var y := Paired(l, r); Eight(r, y, 48, 15, 14, 13, 12, 11, 10, 9, 8) && Eight(l, y, 16, 15, 14, 13, 12, 11, 10, 9, 8) { }
  lemma Paired2(l: Word, r: Word) ensures var y := Paired(l, r); Eight(r, y, 56, 23, 22, 21, 20, 19, 18, 17, 16) && Eight(l, y, 24, 23, 22, 21, 20, 19, 18, 17, 16) { }
  lemma Paired3(l: Word, r: Word) ensures var y := Paired(l, r); Eight(r, y, 64, 31, 30, 29, 28, 27, 26, 25, 24) && Eight(l, y, 32, 31, 30, 29, 28, 27, 26, 25, 24) { }

  /** The halves of the permuted block. */
  lemma FirstOf(block: Word)
    ensures |IP| == 8 && InWidth(IP, 64)
    ensures var x := Permute(Of(block, 64), IP); x[..32] == Of(Ip(block) >> 32, 32) && x[32..] == Of(Ip(block) & 0xFFFF_FFFF, 32)
  {
    hide Ip, Permute, Of, InWidth, Wired;
    BlockWidths();
    IpWires(block);
    PermuteOf(block, 64, IP, Ip(block));
    HalfOf(Ip(block));
  }

  lemma KeyFirstOf(key: Word)
    ensures |PC1| == 7 && InWidth(PC1, 64) && Permute(Of(key, 64), PC1) == Of(Pc1(key), 56)
  {
    hide Pc1, Permute, Of, InWidth, Wired;
    BlockWidths();
    Pc1Wires(key);
    PermuteOf(key, 64, PC1, Pc1(key));
  }

  lemma ResultOf(s: State)
    ensures |FP| == 8 && InWidth(FP, 64) && Permute(Of(s.r, 32) + Of(s.l, 32), FP) == Of(Result(s), 64)
  {
    hide Fp, Paired, Permute, Of, InWidth, Wired;
    BlockWidths();
    PairedOf(s.l, s.r);
    FpWires(Paired(s.l, s.r));
    PermuteOf(Paired(s.l, s.r), 64, FP, Fp(Paired(s.l, s.r)));
  }

  /** Sixteen rounds on words encrypt as the network on bits does. */
  lemma EncryptOf(block: Word, key: Word, s: State)
    requires Rest(First(block, key), 0) == Rest(s, 16)
    ensures Encrypt(Of(block, 64), Of(key, 64)) == Of(Result(s), 64)
  {
    hide Ip, Pc1, Permute, Of, Rounds, Schedule, InWidth, Result;
    FirstOf(block);
    KeyFirstOf(key);
    NoKeysLeft(Of(s.cd, 56)[..28], Of(s.cd, 56)[28..], Of(s.l, 32), Of(s.r, 32));
    ResultOf(s);
  }

  lemma NoKeysLeft(c: Bits, d: Bits, l: Bits, r: Bits)
    requires |c| == |d| == 28 && |l| == |r| == 32
    ensures Rounds(l, r, Schedule(c, d, 16)) == (l, r)
  {
  }
}
