/** The bit reader and bit writer of the bundled fflate code. A byte buffer is read as
    one number, lowest byte first, so that a field of k bits at bit position p is
    Low(Shr(LE(d), p), k). */
module BitStream {
  import opened Words

  function LE(d: seq<byte>): nat {
    if d == [] then 0 else d[0] + 256 * LE(d[1..])
  }

  /** An index past the end of a typed array reads as undefined, which `|` makes 0. */
  function At(d: seq<byte>, i: nat): byte {
    if i < |d| then d[i] else 0
  }

  /** Three bytes from index i; the operands that `|` combines have no common bit. */
  function Three(d: seq<byte>, i: nat): nat {
    At(d, i) + 256 * At(d, i + 1) + 65536 * At(d, i + 2)
  }

  /** `bits16(d, p)` */
  function Bits16(d: seq<byte>, p: nat): nat {
    Shr(Three(d, p / 8), p % 8)
  }

  /** `bits(d, p, (1 << k) - 1)` */
  function Bits(d: seq<byte>, p: nat, k: nat): nat {
    Low(Shr(At(d, p / 8) + 256 * At(d, p / 8 + 1), p % 8), k)
  }

  /** `shft(p)`: the first whole byte at or after bit p. */
  function Shft(p: nat): nat {
    (p + 7) / 8
  }

  // ---- the buffer as a number ------------------------------------------------

  lemma ByteShift(x: nat, b: byte)
    ensures Low(b + 256 * x, 8) == b && Shr(b + 256 * x, 8) == x
  {
    hide Shl, Shr, Low;
    ShlByte(x, 0);
    ShlByte(1, 0);
    Join(b, x, 8);
  }

  lemma {:induction false} LERange(d: seq<byte>)
    ensures LE(d) < Pow2(8 * |d|)
  {
    hide Shl;
    if d != [] {
      LERange(d[1..]);
      ShlByte(1, 8 * |d| - 8);
    } else {
      Pow2Mono(0, 0);
      ShlAdd(0, 1, 0);
      assert Pow2(0) == 1 by { Pow2Values(); }
    }
  }

  lemma {:induction false} LEConcat(a: seq<byte>, b: seq<byte>)
    ensures LE(a + b) == LE(a) + Shl(LE(b), 8 * |a|)
  {
    if a == [] {
      assert a + b == b;
    } else {
      LEConcat(a[1..], b);
      assert (a + b)[1..] == a[1..] + b;
      ShlByte(LE(b), 8 * |a| - 8);
    }
  }

  /** Dropping whole bytes is shifting. */
  lemma DropBytes(d: seq<byte>, o: nat)
    requires o <= |d|
    ensures Shr(LE(d), 8 * o) == LE(d[o..])
    ensures Low(LE(d), 8 * o) == LE(d[..o])
  {
    hide LE, Shl, Shr, Low;
    assert d == d[..o] + d[o..];
    LEConcat(d[..o], d[o..]);
    LERange(d[..o]);
    Join(LE(d[..o]), LE(d[o..]), 8 * o);
  }

  lemma {:induction false} LEZeros(d: seq<byte>)
    ensures LE(d) == 0 <==> forall i :: 0 <= i < |d| ==> d[i] == 0
  {
    if d == [] {
    } else {
      LEZeros(d[1..]);
      assert (forall i :: 0 <= i < |d| ==> d[i] == 0) ==> forall i :: 0 <= i < |d[1..]| ==> d[1..][i] == 0;
      if d[0] == 0 && forall i :: 0 <= i < |d[1..]| ==> d[1..][i] == 0 {
        forall i | 0 <= i < |d| ensures d[i] == 0 {
          assert i > 0 ==> d[i] == d[1..][i - 1];
        }
      }
    }
  }

  /** A field that lies inside the low m bits can be read from those bits alone. */
  lemma FieldOfLow(z: nat, m: nat, q: nat, k: nat)
    requires q + k <= m
    ensures Low(Shr(Low(z, m), q), k) == Low(Shr(z, q), k)
  {
    hide *;
    ShrLow(z, q, k);
    ShrLow(Low(z, m), q, k);
    LowLow(z, m, q + k);
  }

  lemma SuffixThree(e: seq<byte>)
    ensures Low(LE(e), 24) == Three(e, 0)
    ensures Low(LE(e), 16) == At(e, 0) + 256 * At(e, 1)
  {
    var e' := e + seq(3, _ => 0);
    LEConcat(e, seq(3, _ => 0));
    LEZeros(seq(3, _ => 0));
    assert LE(e') == LE(e);
    assert e'[..3] == [At(e, 0), At(e, 1), At(e, 2)];
    assert e'[..2] == [At(e, 0), At(e, 1)];
    DropBytes(e', 3);
    DropBytes(e', 2);
    LEThree(At(e, 0), At(e, 1), At(e, 2));
  }

  lemma LEThree(a: byte, b: byte, c: byte)
    ensures LE([a, b, c]) == a + 256 * b + 65536 * c
    ensures LE([a, b]) == a + 256 * b
    ensures LE([a]) == a
  {
    assert LE([a]) == a && LE([b]) == b && LE([c]) == c;
    assert LE([b, c]) == b + 256 * c by {
      assert [b, c][1..] == [c];
    }
    assert [a, b, c][1..] == [b, c];
    assert [a, b][1..] == [b];
  }

  lemma DropPast(d: seq<byte>, o: nat)
    ensures Shr(LE(d), 8 * o) == LE(if o <= |d| then d[o..] else [])
  {
    if o <= |d| {
      DropBytes(d, o);
    } else {
      LERange(d);
      Pow2Mono(8 * |d|, 8 * o);
      LowSmall(LE(d), 8 * o);
    }
  }

  /** What `bits16` reads, as a field of the whole buffer. */
  lemma Bits16Reads(d: seq<byte>, p: nat, k: nat)
    requires k <= 17
    ensures Low(Bits16(d, p), k) == Low(Shr(LE(d), p), k)
  {
    hide LE, Low, Shr, Shl;
    var o, q := p / 8, p % 8;
    var e := if o <= |d| then d[o..] else [];
    DropPast(d, o);
    ShrShr(LE(d), 8 * o, q);
    SuffixThree(e);
    assert Three(e, 0) == Three(d, o);
    FieldOfLow(LE(e), 24, q, k);
  }

  /** What `bits` reads, as a field of the whole buffer. */
  lemma BitsReads(d: seq<byte>, p: nat, k: nat)
    requires k <= 9
    ensures Bits(d, p, k) == Low(Shr(LE(d), p), k)
  {
    hide LE, Low, Shr, Shl;
    var o, q := p / 8, p % 8;
    var e := if o <= |d| then d[o..] else [];
    DropPast(d, o);
    ShrShr(LE(d), 8 * o, q);
    SuffixThree(e);
    FieldOfLow(LE(e), 16, q, k);
  }

  // ---- writing ------------------------------------------------------------------

  /** `d[i] |= x` on a byte array, where a write past the end is ignored. */
  function OrAt(d: seq<byte>, i: nat, x: nat): (r: seq<byte>)
    ensures |r| == |d|
  {
    if i < |d| then d[i := BitOr(d[i], x) % 256] else d
  }

  function Put(d: seq<byte>, p: nat, v: nat): (r: seq<byte>)
    ensures |r| == |d|
  {
    var o, s := p / 8, Shl(v, p % 8);
    OrAt(OrAt(OrAt(d, o, s), o + 1, s / 256), o + 2, s / 65536)
  }

  /** A buffer with nothing at or above bit p, and room for k more bits there. */
  ghost predicate Room(d: seq<byte>, p: nat, k: nat) {
    LE(d) < Pow2(p) && p + k <= 8 * |d|
  }

  lemma TailOfRoom(d: seq<byte>, p: nat, k: nat)
    requires Room(d, p, k) && k > 0
    ensures p / 8 < |d| && d[p / 8] < Pow2(p % 8)
    ensures forall i :: p / 8 < i < |d| ==> d[i] == 0
    ensures LE(d[p / 8 + 1..]) == 0
  {
    var o, q := p / 8, p % 8;
    var e := d[o..];
    DropBytes(d, o);
    ShrRange(LE(d), q, 8 * o);
    Pow2Mono(q, 7);
    Pow2Values();
    assert LE(e) == e[0] + 256 * LE(e[1..]);
    assert e[1..] == d[o + 1..];
    LEZeros(e[1..]);
    forall i | o < i < |d| ensures d[i] == 0 {
      assert d[i] == e[1..][i - o - 1];
    }
  }

  lemma DivIsShr(x: nat)
    ensures x / 256 == Shr(x, 8)
  {
    hide Shr, Low;
    ByteShift(x / 256, x % 256);
  }

  /** Or-ing a into the bottom of a shifted value does not reach the byte above. */
  lemma NoCarry(a: nat, v: nat, q: nat)
    requires q < 8 && a < Pow2(q)
    ensures (a + Shl(v, q)) / 256 == Shl(v, q) / 256
    ensures BitOr(a, Shl(v, q)) == a + Shl(v, q)
  {
    hide Shl, Shr, Low, BitOr;
    BitOrDisjoint(a, v, q);
    var x, y := a + Shl(v, q), Shl(v, q);
    Join(a, v, q);
    Join(0, v, q);
    ShrShr(x, q, 8 - q);
    ShrShr(y, q, 8 - q);
    DivIsShr(x);
    DivIsShr(y);
  }

  /** A number of up to three bytes, without leaving quotients for the solver to chase. */
  lemma ThreeBytes(x: nat) returns (a: byte, b: byte, c: byte)
    requires x < 16777216
    ensures a == x % 256 && b == x / 256 % 256 && c == x / 65536 % 256 && x == a + 256 * b + 65536 * c
  {
    a, b, c := x % 256, x / 256 % 256, x / 65536 % 256;
  }

  /** Bytes of a number that fits the space left. */
  lemma LEOfBytes(x: nat, n: nat, e: seq<byte>)
    requires |e| == n > 0 && x < 16777216 && x < Pow2(8 * n)
    requires e[0] == x % 256
    requires n > 1 ==> e[1] == x / 256 % 256
    requires n > 2 ==> e[2] == x / 65536 % 256
    requires forall i :: 3 <= i < n ==> e[i] == 0
    ensures LE(e) == x
  {
    hide LE, Shl, Pow2;
    assert Pow2(8) == 256 && Pow2(16) == 65536 by { Pow2Values(); }
    var a, b, c := ThreeBytes(x);
    if n == 1 {
      LEThree(e[0], 0, 0);
      assert e == [e[0]];
    } else if n == 2 {
      LEThree(e[0], e[1], 0);
      assert e == [e[0], e[1]];
    } else {
      var z := e[3..];
      assert e == [e[0], e[1], e[2]] + z;
      LEConcat([e[0], e[1], e[2]], z);
      LEThree(e[0], e[1], e[2]);
      LEZeros(z);
    }
  }

  /** Putting a k-bit value at the end of what is written adds it to the number. */
  lemma PutAdds(d: seq<byte>, p: nat, v: nat, k: nat)
    requires Room(d, p, k) && v < Pow2(k) && k <= 16
    ensures LE(Put(d, p, v)) == LE(d) + Shl(v, p) < Pow2(p + k)
  {
    hide LE, Put, Shl;
    ShlLess(v, k, p);
    ShlAdd(Pow2(k) - 1, 1, p);
    ShlMono(v, Pow2(k) - 1, p);
    ShlShl(1, k, p);
    if k == 0 {
      PutNothing(d, p);
    } else {
      PutSome(d, p, v, k);
    }
  }

  lemma PutNothing(d: seq<byte>, p: nat)
    ensures Put(d, p, 0) == d
  {
    hide BitOr, Shl, OrAt;
    assert Shl(0, p % 8) == 0;
    OrNothing(d, p / 8);
    OrNothing(d, p / 8 + 1);
    OrNothing(d, p / 8 + 2);
  }

  lemma OrNothing(d: seq<byte>, i: nat)
    ensures OrAt(d, i, 0) == d
  {
    if i < |d| {
      BitOrRightZero(d[i]);
    }
  }

  lemma {:induction false} BitOrRightZero(a: nat)
    ensures BitOr(a, 0) == a
  {
    if a == 0 {
    } else {
      BitOrRightZero(a / 2);
    }
  }

  lemma SumRange(a: nat, v: nat, q: nat, k: nat)
    requires a < Pow2(q) && v < Pow2(k)
    ensures a + Shl(v, q) < Pow2(q + k)
  {
    ShlMono(v, Pow2(k), q);
    ShlShl(1, k, q);
  }

  lemma FewBits(m: nat, n: nat)
    requires m <= 24 && m <= 8 * n
    ensures Pow2(m) <= 16777216 && Pow2(m) <= Pow2(8 * n)
  {
    hide Pow2;
    Pow2Mono(m, 8 * n);
    Pow2Mono(m, 24);
    Pow2Values();
  }

  /** The bytes that are put, into a buffer that is zero behind byte o. */
  lemma PutBytes(d: seq<byte>, o: nat, s: nat, a: byte)
    requires o < |d| && d[o] == a && (forall i :: o < i < |d| ==> d[i] == 0)
    requires BitOr(a, s) == a + s && (a + s) / 256 == s / 256
    ensures var r := OrAt(OrAt(OrAt(d, o, s), o + 1, s / 256), o + 2, s / 65536);
            && r[..o] == d[..o] && r[o] == (a + s) % 256
            && (o + 1 < |d| ==> r[o + 1] == (a + s) / 256 % 256) && (o + 2 < |d| ==> r[o + 2] == (a + s) / 65536 % 256)
            && forall i :: o + 3 <= i < |d| ==> r[i] == 0
  {
    hide BitOr;
    BitOrZero(s / 256);
    BitOrZero(s / 65536);
    assert (a + s) / 65536 == (a + s) / 256 / 256 && s / 65536 == s / 256 / 256;
  }

  lemma PutSome(d: seq<byte>, p: nat, v: nat, k: nat)
    requires Room(d, p, k) && v < Pow2(k) && 0 < k <= 16
    ensures LE(Put(d, p, v)) == LE(d) + Shl(v, p)
  {
    hide Shl, LE, BitOr, Shr, Low;
    TailOfRoom(d, p, k);
    var o, q := p / 8, p % 8;
    var s, n := Shl(v, q), |d| - o;
    var a := d[o];
    var x := a + s;
    var r := Put(d, p, v);
    NoCarry(a, v, q);
    SumRange(a, v, q, k);
    assert x < 16777216 && x < Pow2(8 * n) by { FewBits(q + k, n); }
    PutBytes(d, o, s, a);
    assert LE(r[o..]) == x by { LEOfBytes(x, n, r[o..]); }
    assert LE(d[o..]) == a by { HeadOnly(d, o); }
    assert r[..o] == d[..o];
    Halves(r, o);
    Halves(d, o);
    ShlAdd(a, s, 8 * o);
    ShlShl(v, q, 8 * o);
  }

  lemma Halves(d: seq<byte>, o: nat)
    requires o <= |d|
    ensures LE(d) == LE(d[..o]) + Shl(LE(d[o..]), 8 * o)
  {
    assert d == d[..o] + d[o..];
    LEConcat(d[..o], d[o..]);
  }

  lemma HeadOnly(d: seq<byte>, o: nat)
    requires o < |d| && LE(d[o + 1..]) == 0
    ensures LE(d[o..]) == d[o]
  {
    assert d[o..][1..] == d[o + 1..];
  }

  // ---- the writers as they run ------------------------------------------------

  method OrByte(d: array<byte>, i: nat, x: nat)
    modifies d
    ensures d[..] == OrAt(old(d[..]), i, x)
  {
    if i < d.Length {
      d[i] := BitOr(d[i], x) % 256;
    }
  }

  /** `wbits16(d, p, v)` */
  method WBits16(d: array<byte>, p: nat, v: nat)
    modifies d
    ensures d[..] == Put(old(d[..]), p, v)
  {
    var s, o := Shl(v, p % 8), p / 8;
    OrByte(d, o, s);
    OrByte(d, o + 1, s / 256);
    OrByte(d, o + 2, s / 65536);
  }

  /** `wbits(d, p, v)`, which touches two bytes only; for a value of at most 9 bits the
      third byte of `wbits16` would not change either. */
  method WBits(d: array<byte>, p: nat, v: nat)
    requires v < 512
    modifies d
    ensures d[..] == Put(old(d[..]), p, v)
  {
    hide Shl, BitOr;
    var s, o := Shl(v, p % 8), p / 8;
    OrByte(d, o, s);
    OrByte(d, o + 1, s / 256);
    assert s < 65536 by {
      Pow2Values();
      ShlLess(v, 9, p % 8);
      Pow2Mono(9 + p % 8, 16);
    }
    if o + 2 < d.Length {
      BitOrRightZero(d[o + 2]);
    }
  }
}
