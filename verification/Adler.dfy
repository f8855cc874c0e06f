/** The Adler-32 accumulator of the bundled fflate code, section 2.2 of RFC 1950, with the
    reductions it puts off and the 32-bit operators it reduces with. */
module Adler {
  import opened Words

  const MOD := 65521

  // ---- the checksum -----------------------------------------------------------------

  /** The two sums, byte by byte. */
  function Sums(d: seq<byte>): (r: (nat, nat))
    ensures r.0 < MOD && r.1 < MOD
  {
    if d == [] then (1, 0)
    else
      var (a, b) := Sums(d[..|d| - 1]);
      var a' := (a + d[|d| - 1]) % MOD;
      (a', (b + a') % MOD)
  }

  /** The 32-bit checksum, s2 above s1. */
  function Checksum(d: seq<byte>): nat {
    65536 * Sums(d).1 + Sums(d).0
  }

  function Total(d: seq<byte>): nat {
    if d == [] then 0 else d[0] + Total(d[1..])
  }

  /** Every byte counted once for itself and once for each byte behind it. */
  function Weighted(d: seq<byte>): nat {
    if d == [] then 0 else |d| * d[0] + Weighted(d[1..])
  }

  lemma {:induction false} TotalSnoc(d: seq<byte>, x: byte)
    ensures Total(d + [x]) == Total(d) + x
  {
    if d == [] {
      assert (d + [x])[1..] == [];
    } else {
      assert (d + [x])[1..] == d[1..] + [x];
      TotalSnoc(d[1..], x);
    }
  }

  lemma {:induction false} WeightedSnoc(d: seq<byte>, x: byte)
    ensures Weighted(d + [x]) == Weighted(d) + Total(d) + x
  {
    if d == [] {
      assert (d + [x])[1..] == [];
    } else {
      assert (d + [x])[1..] == d[1..] + [x];
      WeightedSnoc(d[1..], x);
      assert (|d| + 1) * d[0] == |d| * d[0] + d[0];
    }
  }

  /** Adding multiples of the modulus changes nothing. */
  lemma SameMod(x: int, y: int, k: int)
    requires x == y + MOD * k
    ensures x % MOD == y % MOD
  {
    var q := y / MOD;
    assert x == MOD * (q + k) + y % MOD;
  }

  lemma AddMod(x: nat, y: nat)
    ensures (x % MOD + y) % MOD == (x + y) % MOD
    ensures (y + x % MOD) % MOD == (x + y) % MOD
  {
    SameMod(x + y, x % MOD + y, x / MOD);
  }

  /** The sums in closed form: one more than the bytes, and their weighted sum with one
      for each byte. */
  lemma {:induction false} ClosedForm(d: seq<byte>)
    ensures Sums(d) == ((1 + Total(d)) % 65521, (|d| + Weighted(d)) % 65521)
  {
    hide Sums, Total, Weighted;
    if d == [] {
      NoSums();
    } else {
      var e, x := d[..|d| - 1], d[|d| - 1];
      assert d == e + [x];
      ClosedForm(e);
      SumsSnoc(e, x);
      TotalSnoc(e, x);
      WeightedSnoc(e, x);
      NextSums(1 + Total(e), |e| + Weighted(e), x);
    }
  }

  lemma NoSums()
    ensures Sums([]) == (1, 0) && Total([]) == 0 && Weighted([]) == 0
  {
  }

  lemma SumsSnoc(e: seq<byte>, x: byte)
    ensures Sums(e + [x]) == ((Sums(e).0 + x) % MOD, (Sums(e).1 + (Sums(e).0 + x) % MOD) % MOD)
  {
    var d := e + [x];
    assert d[..|d| - 1] == e && d[|d| - 1] == x && d != [];
  }

  /** One byte more, with the remainders taken at the end. */
  lemma NextSums(a: nat, b: nat, x: nat)
    ensures (a % MOD + x) % MOD == (a + x) % MOD
    ensures (b % MOD + (a + x) % MOD) % MOD == (b + a + x) % MOD
  {
    AddMod(a, x);
    AddMod(b, (a + x) % MOD);
    AddMod(a + x, b);
  }

  // ---- 32-bit operators -----------------------------------------------------------------

  /** ToInt32 of an integral number. */
  function Int32(x: int): (r: int)
    ensures -0x8000_0000 <= r < 0x8000_0000
    ensures 0 <= x < 0x8000_0000 ==> r == x
  {
    var u := x % 0x1_0000_0000;
    if u >= 0x8000_0000 then u - 0x1_0000_0000 else u
  }

  /** x & 65535 and x >> 16 */
  function Low16(x: int): int { Int32(x) % 65536 }

  function High16(x: int): int { Int32(x) / 65536 }

  /** `(n & 65535) + 15 * (n >> 16)` */
  function Fold(n: int): int { Low16(n) + 15 * High16(n) }

  /** As long as no sign bit is set, folding keeps the remainder. */
  lemma FoldKeeps(n: nat)
    requires n < 0x8000_0000
    ensures 0 <= Fold(n) <= 65535 + 15 * (n / 65536) && Fold(n) % MOD == n % MOD
  {
    SameMod(n, Fold(n), n / 65536);
  }

  // ---- the accumulator ------------------------------------------------------------------

  class Adler {
    var a: int
    var b: int
    ghost var Contents: seq<byte>

    /** The fields stand for the bytes seen, and are small enough for one more stretch. */
    ghost predicate Valid()
      reads this
    {
      && 0 <= a <= 65700 && 0 <= b <= 311310
      && (a % MOD, b % MOD) == Sums(Contents)
    }

    constructor ()
      ensures Valid() && Contents == []
    {
      a, b, Contents := 1, 0, [];
    }

    /** `p(d)`: any number of bytes, in any number of calls. */
    method P(d: seq<byte>)
      requires Valid()
      modifies this
      ensures Valid() && Contents == old(Contents) + d
    {
      hide Sums, Fold;
      var n, m := a, b;
      var i := 0;
      assert Contents + d[..0] == Contents;
      while i != |d|
        invariant 0 <= i <= |d| && 0 <= n <= 65700 && 0 <= m <= 311310
        invariant (n % MOD, m % MOD) == Sums(Contents + d[..i])
        invariant Contents == old(Contents)
        decreases |d| - i
      {
        n, m, i := Stretch(Contents, d, i, n, m);
        FoldKeeps(n);
        FoldKeeps(m);
        n, m := Fold(n), Fold(m);
      }
      assert Contents + d[..i] == Contents + d;
      a, b, Contents := n, m, Contents + d;
    }

    /** `d()`: the checksum with its bytes turned round, so that `wbytes` writes the
        most significant one first. */
    method D() returns (v: int)
      requires Valid()
      modifies this
      ensures Valid() && Contents == old(Contents)
      ensures a == Sums(Contents).0 && b == Sums(Contents).1
      ensures -0x8000_0000 <= v < 0x8000_0000
      ensures v % 0x1_0000_0000 == Turned(Checksum(Contents))
    {
      hide Sums, Packed, Turned;
      a, b := a % MOD, b % MOD;
      v := Packed(a, b);
      TurnedBytes(a, b);
    }
  }

  /** `e = min(i + 2655, l)` and the loop up to e: at most 2655 bytes, so neither sum
      reaches the sign bit. */
  method Stretch(ghost done: seq<byte>, d: seq<byte>, i0: nat, n0: nat, m0: nat) returns (n: nat, m: nat, i: nat)
    requires i0 < |d| && n0 <= 65700 && m0 <= 311310
    requires (n0 % MOD, m0 % MOD) == Sums(done + d[..i0])
    ensures i == Min(i0 + 2655, |d|)
    ensures n <= 742725 && m <= 1073834010
    ensures (n % MOD, m % MOD) == Sums(done + d[..i])
  {
    hide Sums;
    n, m, i := n0, m0, i0;
    var e := Min(i + 2655, |d|);
    while i < e
      invariant i0 <= i <= e && n <= n0 + 255 * (i - i0) && n <= 742725
      invariant m <= m0 + (i - i0) * n0 + 255 * Triangle(i - i0)
      invariant (n % MOD, m % MOD) == Sums(done + d[..i])
      decreases e - i
    {
      OneMore(done + d[..i], d[i], n, m);
      assert done + d[..i] + [d[i]] == done + d[..i + 1];
      assert (i - i0 + 1) * n0 == (i - i0) * n0 + n0;
      TriangleStep(i - i0);
      n := n + d[i];
      m := m + n;
      i := i + 1;
    }
    StretchBounds(i - i0, n0);
  }

  function Triangle(k: nat): nat { k * (k + 1) / 2 }

  lemma TriangleStep(k: nat)
    ensures Triangle(k + 1) == Triangle(k) + k + 1
  {
    assert (k + 1) * (k + 2) == k * (k + 1) + 2 * (k + 1);
  }

  lemma StretchBounds(k: nat, n0: nat)
    requires k <= 2655 && n0 <= 65700
    ensures k * n0 <= 174433500 && Triangle(k) <= 3525840
  {
    Product(k, 2655, n0, 65700);
    Product(k, 2655, k + 1, 2656);
  }

  lemma Product(a: nat, b: nat, c: nat, d: nat)
    requires a <= b && c <= d
    ensures a * c <= b * d
  {
    assert (b - a) * c >= 0 && b * (d - c) >= 0;
  }

  /** One byte, with both reductions put off. */
  lemma OneMore(d: seq<byte>, x: byte, n: nat, m: nat)
    requires (n % MOD, m % MOD) == Sums(d)
    ensures ((n + x) % MOD, (m + (n + x)) % MOD) == Sums(d + [x])
  {
    assert (d + [x])[..|d|] == d;
    AddMod(n, x);
    AddMod(m, (n + x) % MOD);
    AddMod(n + x, m);
  }

  // ---- the trailer ----------------------------------------------------------------------

  /** A 32-bit number with its four bytes in the opposite order. */
  function Turned(x: nat): nat {
    x % 256 * 0x100_0000 + x / 256 % 256 * 0x1_0000 + x / 0x1_0000 % 256 * 256 + x / 0x100_0000
  }

  /** `(a & 255) << 24 | (a & 65280) << 8 | (b & 255) << 8 | b >> 8`: only the first operand
      can reach the sign bit, and no two have a common bit. */
  function Packed(a: int, b: int): int {
    Int32(a % 256 * 0x100_0000) + a / 256 * 65536 + b % 256 * 256 + b / 256
  }

  lemma TurnedBytes(a: nat, b: nat)
    requires a < MOD && b < MOD
    ensures var v := Packed(a, b);
            -0x8000_0000 <= v < 0x8000_0000 && v % 0x1_0000_0000 == Turned(65536 * b + a)
  {
    hide Int32, Turned;
    var (al, ah, bl, bh) := (a % 256, a / 256, b % 256, b / 256);
    assert a == 256 * ah + al && b == 256 * bh + bl;
    assert 65536 * b + a == Packed4(bh, bl, ah, al);
    FourBytes(bh, bl, ah, al);
    TopByte(al);
  }

  lemma TopByte(lo: byte)
    ensures Int32(lo * 0x100_0000) == if lo >= 128 then lo * 0x100_0000 - 0x1_0000_0000 else lo * 0x100_0000
  {
  }

  /** Four bytes as one number, the first the most significant. */
  function Packed4(p: byte, q: byte, r: byte, s: byte): nat {
    p * 0x100_0000 + q * 0x1_0000 + r * 256 + s
  }

  lemma FourBytes(p: byte, q: byte, r: byte, s: byte)
    ensures var x := Packed4(p, q, r, s);
            && x % 256 == s && x / 256 % 256 == r && x / 0x1_0000 % 256 == q && x / 0x100_0000 == p && x / 0x100_0000 % 256 == p
            && Turned(x) == Packed4(s, r, q, p)
  {
    var x := Packed4(p, q, r, s);
    Down(p * 0x1_0000 + q * 256 + r, s);
    Down(p * 256 + q, r);
    Down(p, q);
    assert x == 256 * (p * 0x1_0000 + q * 256 + r) + s;
    assert p * 0x1_0000 + q * 256 + r == 256 * (p * 256 + q) + r && p * 256 + q == 256 * p + q;
    assert x / 0x1_0000 == x / 256 / 256 && x / 0x100_0000 == x / 256 / 256 / 256;
  }

  lemma Down(x: nat, b: byte)
    ensures (256 * x + b) / 256 == x && (256 * x + b) % 256 == b
  {
  }

  /** `wbytes(d, b, v)`: bytes are written from the lowest up, until none is left. */
  method WBytes(d: array<byte>, b0: nat, v0: int)
    requires -0x8000_0000 <= v0 < 0x8000_0000
    modifies d
    ensures d[..] == Laid(old(d[..]), b0, v0 % 0x1_0000_0000)
  {
    var b: nat, v: int := b0, v0;
    if v != 0 {
      ghost var u: nat := v % 0x1_0000_0000;
      LowByte(v);
      var low: byte := v % 256;
      ghost var was := d[..];
      if b < d.Length { d[b] := low; }
      assert Laid(was, b0, u) == Laid(d[..], b + 1, u / 256);
      b, v := b + 1, v % 0x1_0000_0000 / 256;
      while v != 0
        invariant v >= 0 && Laid(was, b0, u) == Laid(d[..], b, v)
        decreases v
      {
        if b < d.Length { d[b] := v % 256; }
        b, v := b + 1, v / 256;
      }
    }
  }

  lemma LowByte(v: int)
    requires -0x8000_0000 <= v < 0x8000_0000
    ensures v % 0x1_0000_0000 % 256 == v % 256 && (v != 0 ==> v % 0x1_0000_0000 != 0)
  {
    if v < 0 {
      assert v % 0x1_0000_0000 == v + 0x1_0000_0000;
    }
  }

  function Laid(d: seq<byte>, b: nat, v: nat): seq<byte>
    decreases v
  {
    if v == 0 then d else Laid(if b < |d| then d[b := v % 256] else d, b + 1, v / 256)
  }

  /** Four bytes, most significant first. */
  function BigEndian(x: nat): seq<byte> {
    [x / 0x100_0000 % 256, x / 0x1_0000 % 256, x / 256 % 256, x % 256]
  }

  lemma LaidFour(d: seq<byte>, b: nat, v: nat)
    requires b + 4 <= |d| && v < 0x1_0000_0000
    requires forall i :: b <= i < b + 4 ==> d[i] == 0
    ensures Laid(d, b, v) == d[..b] + [v % 256, v / 256 % 256, v / 0x1_0000 % 256, v / 0x100_0000] + d[b + 4..]
  {
    var v1 := v / 256;
    var v2 := v1 / 256;
    var v3 := v2 / 256;
    var d1 := d[b := v % 256];
    var d2 := d1[b + 1 := v1 % 256];
    var d3 := d2[b + 2 := v2 % 256];
    assert v2 == v / 0x1_0000 && v3 == v / 0x100_0000 < 256;
    assert Laid(d, b, v) == Laid(d1, b + 1, v1);
    assert Laid(d1, b + 1, v1) == Laid(d2, b + 2, v2);
    assert Laid(d2, b + 2, v2) == Laid(d3, b + 3, v3);
    assert Laid(d3, b + 3, v3) == d3[b + 3 := v3];
  }

  /** The zlib trailer: whatever the calls in which the bytes went in, the last four cells,
      zero until then, receive the checksum in network order. */
  lemma TrailerBytes(d: seq<byte>, b: nat, data: seq<byte>)
    requires b + 4 <= |d| && forall i :: b <= i < b + 4 ==> d[i] == 0
    ensures Laid(d, b, Turned(Checksum(data))) == d[..b] + BigEndian(Checksum(data)) + d[b + 4..]
  {
    hide Sums;
    var x := Checksum(data);
    assert x < 0x1_0000_0000;
    TurnedTwice(x);
    LaidFour(d, b, Turned(x));
  }

  lemma TurnedTwice(x: nat)
    requires x < 0x1_0000_0000
    ensures var v := Turned(x);
            && v < 0x1_0000_0000 && v % 256 == x / 0x100_0000 % 256 && v / 256 % 256 == x / 0x1_0000 % 256
            && v / 0x1_0000 % 256 == x / 256 % 256 && v / 0x100_0000 == x % 256
  {
    var (p, q, r, t) := (x / 0x100_0000, x / 0x1_0000 % 256, x / 256 % 256, x % 256);
    assert x == Packed4(p, q, r, t) by { Unpacked(x); }
    FourBytes(p, q, r, t);
    FourBytes(t, r, q, p);
  }

  lemma Unpacked(x: nat)
    requires x < 0x1_0000_0000
    ensures x / 0x100_0000 < 256
    ensures x == Packed4(x / 0x100_0000, x / 0x1_0000 % 256, x / 256 % 256, x % 256)
  {
    var y := x / 256;
    var z := y / 256;
    assert x / 0x1_0000 == z && x / 0x100_0000 == z / 256;
    assert x == 256 * y + x % 256 && y == 256 * z + y % 256 && z == 256 * (z / 256) + z % 256;
  }
}
