/** Length and distance codes of DEFLATE (section 3.2.5 of RFC 1951) as the bundled
    fflate code tabulates them, and the LZ77 tokens its block writer is given. */
module Tokens {
  import opened Words

  /** `fleb[i]` and `fdeb[i]`, tables of 32 cells in which the number of extra bits goes
      up by one every four length codes and every two distance codes. */
  function LengthExtra(i: nat): nat {
    if i < 8 || i >= 28 then 0 else i / 4 - 1
  }

  function DistExtra(i: nat): nat {
    if i < 4 || i >= 30 then 0 else i / 2 - 1
  }

  function LengthTable(): seq<nat> {
    seq(32, i requires 0 <= i => LengthExtra(i))
  }

  function DistTable(): seq<nat> {
    seq(32, i requires 0 <= i => DistExtra(i))
  }

  /** `freb(eb, start).b[i]`: the first length or distance of code i. The shift for i = 0
      reads before the table and shifts by nothing. */
  function Base(eb: seq<nat>, start: nat, i: nat): nat
    requires i <= |eb|
  {
    if i == 0 then start + 1 else Base(eb, start, i - 1) + Pow2(eb[i - 1])
  }

  /** The code whose range holds v, searched from code i down. */
  function CodeOf(eb: seq<nat>, start: nat, v: nat, i: nat): (c: nat)
    requires i <= |eb|
    ensures c <= i
  {
    if i == 0 || Base(eb, start, i) <= v then i else CodeOf(eb, start, v, i - 1)
  }

  lemma {:induction false} CodeOfRange(eb: seq<nat>, start: nat, v: nat, i: nat)
    requires i < |eb| && start < v < Base(eb, start, i + 1)
    ensures var c := CodeOf(eb, start, v, i);
            Base(eb, start, c) <= v < Base(eb, start, c + 1) && v - Base(eb, start, c) < Pow2(eb[c])
  {
    if i > 0 && v < Base(eb, start, i) {
      CodeOfRange(eb, start, v, i - 1);
    }
  }

  /** `freb`: the bases, and for every value its offset and code packed as offset << 5 | code. */
  method Freb(eb: seq<nat>, start: nat) returns (b: array<nat>, r: array<nat>)
    requires |eb| >= 31
    ensures fresh(b) && fresh(r) && b.Length == 31 && r.Length == Base(eb, start, 30) >= Base(eb, start, 1)
    ensures forall i :: 0 <= i < 31 ==> b[i] == Base(eb, start, i)
    ensures RangesFilled(eb, start, r[..], r.Length)
  {
    hide RangesFilled, Base;
    BaseMono(eb, start, 1, 30);
    b := Bases(eb, start);
    r := new nat[b[30]](_ => 0);
    NothingFilled(eb, start, r[..]);
    for i := 1 to 30
      invariant forall k :: 0 <= k < 31 ==> b[k] == Base(eb, start, k)
      invariant RangesFilled(eb, start, r[..], Base(eb, start, i))
    {
      BaseMono(eb, start, i + 1, 30);
      FillRange(eb, start, r, i);
    }
  }

  /** The first loop of `freb`. */
  method Bases(eb: seq<nat>, start: nat) returns (b: array<nat>)
    requires |eb| >= 31
    ensures fresh(b) && b.Length == 31
    ensures forall i :: 0 <= i < 31 ==> b[i] == Base(eb, start, i)
  {
    hide Pow2, Base;
    b := new nat[31](_ => 0);
    var sum: nat := start + 1;
    BaseZero(eb, start);
    b[0] := sum;
    for i := 1 to b.Length
      invariant sum == Base(eb, start, i - 1)
      invariant forall k :: 0 <= k < i ==> b[k] == Base(eb, start, k)
    {
      BaseNext(eb, start, i);
      sum := sum + Pow2(eb[i - 1]);
      b[i] := sum;
    }
  }

  lemma BaseZero(eb: seq<nat>, start: nat)
    ensures Base(eb, start, 0) == start + 1
  {
  }

  lemma BaseNext(eb: seq<nat>, start: nat, i: nat)
    requires 0 < i <= |eb|
    ensures Base(eb, start, i) == Base(eb, start, i - 1) + Pow2(eb[i - 1])
  {
  }

  /** The inner loop of `freb`: every value of code i's range. */
  method FillRange(eb: seq<nat>, start: nat, r: array<nat>, i: nat)
    requires |eb| >= 31 && 1 <= i < 30 && Base(eb, start, i + 1) <= r.Length
    requires RangesFilled(eb, start, r[..], Base(eb, start, i))
    modifies r
    ensures RangesFilled(eb, start, r[..], Base(eb, start, i + 1))
  {
    hide RangesFilled, CodeOf;
    BaseMono(eb, start, i, i + 1);
    var first := Base(eb, start, i);
    for j := first to Base(eb, start, i + 1)
      invariant RangesFilled(eb, start, r[..], j)
    {
      ghost var was := r[..];
      FillsCell(eb, start, was, i, j);
      var cell: nat := 32 * (j - first) + i;
      r[j] := cell;
      assert r[..] == was[j := cell];
    }
  }

  lemma FillsCell(eb: seq<nat>, start: nat, r: seq<nat>, i: nat, j: nat)
    requires |eb| >= 31 && 1 <= i < 30 && RangesFilled(eb, start, r, j)
    requires Base(eb, start, i) <= j < Base(eb, start, i + 1) && j < |r|
    ensures RangesFilled(eb, start, r[j := 32 * (j - Base(eb, start, i)) + i], j + 1)
  {
    CodeOfIs(eb, start, j, i, 29);
    BaseMono(eb, start, 1, i);
  }

  lemma NothingFilled(eb: seq<nat>, start: nat, r: seq<nat>)
    requires |eb| >= 31 && |r| >= Base(eb, start, 1) && forall v :: 0 <= v < |r| ==> r[v] == 0
    ensures RangesFilled(eb, start, r, Base(eb, start, 1))
  {
  }

  /** The cell of every value below n that has a range of its own; the first value, with
      the cells below it, keeps the zero it starts with. */
  ghost predicate RangesFilled(eb: seq<nat>, start: nat, r: seq<nat>, n: nat)
    requires |eb| >= 31
  {
    && n <= |r|
    && (forall v {:trigger r[v]} :: 0 <= v < Base(eb, start, 1) && v < |r| ==> r[v] == 0)
    && (forall v {:trigger r[v]} :: Base(eb, start, 1) <= v < n ==> HoldsCode(eb, start, v, r[v]))
  }

  predicate HoldsCode(eb: seq<nat>, start: nat, v: nat, cell: nat)
    requires |eb| >= 31
  {
    var c := CodeOf(eb, start, v, 29);
    Base(eb, start, c) <= v && cell == 32 * (v - Base(eb, start, c)) + c
  }

  lemma {:induction false} BaseMono(eb: seq<nat>, start: nat, i: nat, j: nat)
    requires i <= j <= |eb|
    ensures Base(eb, start, i) <= Base(eb, start, j)
  {
    if i < j {
      BaseMono(eb, start, i, j - 1);
    }
  }

  lemma {:induction false} CodeOfIs(eb: seq<nat>, start: nat, v: nat, c: nat, i: nat)
    requires c <= i < |eb| && Base(eb, start, c) <= v < Base(eb, start, c + 1)
    ensures CodeOf(eb, start, v, i) == c
  {
    if c < i {
      BaseMono(eb, start, c + 1, i);
      CodeOfIs(eb, start, v, c, i - 1);
    }
  }

  // ---- the two alphabets -------------------------------------------------------

  /** `fl[i]`: the bases of the length codes, with length 258 given a code of its own. */
  function LengthBase(i: nat): nat
    requires i < 31
  {
    if i == 28 then 258 else Base(LengthTable(), 2, i)
  }

  function LengthCode(len: nat): (c: nat)
    ensures c <= 29
  {
    if len == 258 then 28 else CodeOf(LengthTable(), 2, len, 29)
  }

  /** `fd[i]` */
  function DistBase(i: nat): nat
    requires i < 31
  {
    Base(DistTable(), 0, i)
  }

  function DistCode(dist: nat): (c: nat)
    ensures c <= 29
  {
    CodeOf(DistTable(), 0, dist, 29)
  }

  lemma BaseFour(eb: seq<nat>, start: nat, i: nat, k: nat)
    requires i + 4 <= |eb| && eb[i] == eb[i + 1] == eb[i + 2] == eb[i + 3] == k
    ensures Base(eb, start, i + 4) == Base(eb, start, i) + 4 * Pow2(k)
  {
    hide Pow2, Shl;
    assert Base(eb, start, i + 2) == Base(eb, start, i) + 2 * Pow2(k);
  }

  lemma BaseTwo(eb: seq<nat>, start: nat, i: nat, k: nat)
    requires i + 2 <= |eb| && eb[i] == eb[i + 1] == k
    ensures Base(eb, start, i + 2) == Base(eb, start, i) + 2 * Pow2(k)
  {
    hide Pow2, Shl;
  }

  lemma Pow2Next(n: nat)
    ensures Pow2(n + 1) == 2 * Pow2(n)
  {
  }

  lemma LengthBases()
    ensures Base(LengthTable(), 2, 0) == 3 && Base(LengthTable(), 2, 28) == 259
  {
    hide Pow2, Base;
    BaseZero(LengthTable(), 2);
    BaseFour(LengthTable(), 2, 0, 0);
    Pow2Values();
    for g := 1 to 7
      invariant Base(LengthTable(), 2, 4 * g) == 3 + 4 * Pow2(g - 1)
    {
      BaseFour(LengthTable(), 2, 4 * g, g - 1);
      Pow2Next(g - 1);
    }
  }

  lemma DistBases()
    ensures Base(DistTable(), 0, 30) == 32769
  {
    hide Pow2, Base;
    BaseZero(DistTable(), 0);
    BaseTwo(DistTable(), 0, 0, 0);
    Pow2Values();
    for g := 1 to 15
      invariant Base(DistTable(), 0, 2 * g) == 1 + 2 * Pow2(g - 1)
    {
      BaseTwo(DistTable(), 0, 2 * g, g - 1);
      Pow2Next(g - 1);
    }
  }

  /** Every DEFLATE length is its code's base plus an offset that fits the extra bits. */
  lemma LengthSplits(len: nat)
    requires 3 <= len <= 258
    ensures var c := LengthCode(len);
            c <= 28 && LengthBase(c) <= len && len - LengthBase(c) < Pow2(LengthExtra(c)) <= 32
  {
    hide Shl, Base, CodeOf;
    LengthBases();
    Pow2Values();
    if len < 258 {
      var c := CodeOf(LengthTable(), 2, len, 27);
      CodeOfRange(LengthTable(), 2, len, 27);
      CodeOfIs(LengthTable(), 2, len, c, 29);
      Pow2Mono(LengthExtra(c), 5);
    }
  }

  lemma DistSplits(dist: nat)
    requires 1 <= dist <= 32768
    ensures var c := DistCode(dist);
            DistBase(c) <= dist && dist - DistBase(c) < Pow2(DistExtra(c)) <= 8192
  {
    hide Shl, Base, CodeOf;
    DistBases();
    Pow2Values();
    CodeOfRange(DistTable(), 0, dist, 29);
    Pow2Mono(DistExtra(DistCode(dist)), 13);
  }

  // ---- tokens --------------------------------------------------------------------

  datatype Token = Literal(b: byte) | Match(len: nat, dist: nat)

  predicate Valid(t: Token) {
    t.Match? ==> 3 <= t.len <= 258 && 1 <= t.dist <= 32768
  }

  /** The 32-bit word the match finder stores for a token. */
  function Pack(t: Token): nat {
    match t
    case Literal(b) => b
    case Match(len, dist) =>
      var lc, dc := LengthCode(len), DistCode(dist);
      PackNumbers(lc, if len < LengthBase(lc) then 0 else len - LengthBase(lc),
                  dc, if dist < DistBase(dc) then 0 else dist - DistBase(dc))
  }

  function PackNumbers(lc: nat, lx: nat, dc: nat, dx: nat): nat {
    268435456 + 262144 * (32 * lx + lc) + (32 * dx + dc)
  }

  /** The fields the block writer takes back out of the word. */
  lemma Unpack(t: Token)
    requires Valid(t)
    ensures t.Literal? <==> Pack(t) <= 255
    ensures t.Match? ==>
              && Pack(t) / 262144 % 32 == LengthCode(t.len)
              && Pack(t) / 8388608 % 32 == t.len - LengthBase(LengthCode(t.len))
              && Pack(t) % 32 == DistCode(t.dist)
              && Pack(t) / 32 % 8192 == t.dist - DistBase(DistCode(t.dist))
  {
    hide Shl, Base, CodeOf, LengthBase, DistBase, LengthCode, DistCode, PackNumbers;
    if t.Match? {
      LengthSplits(t.len);
      DistSplits(t.dist);
      var lc, dc := LengthCode(t.len), DistCode(t.dist);
      UnpackNumbers(lc, t.len - LengthBase(lc), dc, t.dist - DistBase(dc));
    }
  }

  lemma UnpackNumbers(lc: nat, lx: nat, dc: nat, dx: nat)
    requires lc < 32 && lx < 32 && dc < 32 && dx < 8192
    ensures var p := PackNumbers(lc, lx, dc, dx);
            p > 255 && p / 262144 % 32 == lc && p / 8388608 % 32 == lx && p % 32 == dc && p / 32 % 8192 == dx
  {
    var p := PackNumbers(lc, lx, dc, dx);
    assert p / 262144 == 1024 + 32 * lx + lc;
    assert p / 8388608 == 32 + lx;
    assert p / 32 == 8388608 + 8192 * (32 * lx + lc) + dx;
  }

  /** `revfl` after its last cell has been given the code of length 258. */
  ghost predicate LengthCellsOk(r: seq<nat>) {
    && |r| >= 259 && r[258] == 28
    && exists was: seq<nat> :: RangesFilled(LengthTable(), 2, was, |was|) && |was| >= 258 && was[..258] == r[..258]
  }

  lemma CellOf(eb: seq<nat>, start: nat, r: seq<nat>, v: nat)
    requires |eb| >= 31 && eb[0] == 0 && RangesFilled(eb, start, r, |r|) && start < v < |r|
    ensures Base(eb, start, CodeOf(eb, start, v, 29)) <= v
    ensures r[v] == 32 * (v - Base(eb, start, CodeOf(eb, start, v, 29))) + CodeOf(eb, start, v, 29)
  {
    if v < Base(eb, start, 1) {
      CodeOfIs(eb, start, v, 0, 29);
      Pow2Values();
    } else {
      assert HoldsCode(eb, start, v, r[v]);
    }
  }

  /** `268435456 | revfl[l] << 18 | revfd[d]`, whose operands have no common bit: the tables
      that `freb` builds give every match its packed word. */
  method PackMatch(revfl: array<nat>, revfd: array<nat>, l: nat, d: nat) returns (sym: nat)
    requires 3 <= l <= 258 && 1 <= d <= 32768
    requires LengthCellsOk(revfl[..]) && RangesFilled(DistTable(), 0, revfd[..], revfd.Length) && revfd.Length >= 32769
    ensures sym == Pack(Match(l, d))
  {
    hide RangesFilled, Base, CodeOf, Shl;
    LengthSplits(l);
    DistSplits(d);
    if l < 258 {
      ghost var was: seq<nat> :| RangesFilled(LengthTable(), 2, was, |was|) && |was| >= 258 && was[..258] == revfl[..][..258];
      CellOf(LengthTable(), 2, was, l);
      assert was[..258][l] == revfl[..][..258][l];
    }
    CellOf(DistTable(), 0, revfd[..], d);
    sym := 268435456 + 262144 * revfl[l] + revfd[d];
  }

  /** What a copy of len bytes from dist back appends; it may read what it writes. */
  function Copied(out: seq<byte>, len: nat, dist: nat): (r: seq<byte>)
    requires 1 <= dist <= |out|
    ensures |r| == |out| + len && r[..|out|] == out
    decreases len
  {
    if len == 0 then out else Copied(out + [out[|out| - dist]], len - 1, dist)
  }

  /** The tokens make sense after n bytes of output. */
  predicate AllValid(n: nat, ts: seq<Token>)
    decreases |ts|
  {
    ts == [] ||
    (Valid(ts[0]) && (ts[0].Match? ==> ts[0].dist <= n) && AllValid(n + Size(ts[0]), ts[1..]))
  }

  function Size(t: Token): nat {
    if t.Literal? then 1 else t.len
  }

  /** The LZ77 expansion of one token, and of a list. */
  function Apply(out: seq<byte>, t: Token): (r: seq<byte>)
    requires t.Match? ==> 1 <= t.dist <= |out|
    ensures |r| == |out| + Size(t) && r[..|out|] == out
  {
    if t.Literal? then out + [t.b] else Copied(out, t.len, t.dist)
  }

  function Unzip(out: seq<byte>, ts: seq<Token>): (r: seq<byte>)
    requires AllValid(|out|, ts)
    ensures |r| >= |out| && r[..|out|] == out
    decreases |ts|
  {
    if ts == [] then out else Unzip(Apply(out, ts[0]), ts[1..])
  }
}
