/** The header of a block with its own codes, section 3.2.7 of RFC 1951: the code lengths
    of the two alphabets, run-length coded and sent with a third prefix code. */
module Header {
  import opened Words
  import opened Huffman
  import opened BitStream
  import opened Fields
  import C = CodeLengths
  import I = Inflate
  import opened Blocks

  /** `clim[i]`: the order in which the lengths of the third code are sent. */
  const ORDER: seq<nat> := [16, 17, 18, 0, 8, 7, 9, 6, 10, 5, 11, 4, 12, 3, 13, 2, 14, 1, 15]

  /** The place of each symbol in that order. */
  const PLACE: seq<nat> := [3, 17, 15, 13, 11, 9, 7, 5, 4, 6, 8, 10, 12, 14, 16, 18, 0, 1, 2]

  lemma OrderPlace(i: nat)
    requires i < 19
    ensures ORDER[i] < 19 && PLACE[ORDER[i]] == i
    ensures PLACE[i] < 19 && ORDER[PLACE[i]] == i
  {
  }

  /** `max(a)` */
  function MaxOf(L: Lengths): (m: nat)
    ensures forall i :: 0 <= i < |L| ==> L[i] <= m
    ensures L != [] ==> m in L
    ensures L == [] ==> m == 0
  {
    if L == [] then 0
    else
      var m := MaxOf(L[1..]);
      assert forall i :: 0 <= i < |L| ==> L[i] == (if i == 0 then L[0] else L[1..][i - 1]);
      if L[0] > m || |L| == 1 then L[0] else m
  }

  /** `clt` after hcLen three-bit lengths from pos. */
  function ThirdCode(dat: seq<byte>, pos: nat, hcLen: nat): (r: Lengths)
    ensures |r| == 19
  {
    seq(19, s requires 0 <= s < 19 =>
      if PLACE[s] < hcLen then Bits(dat, pos + 3 * PLACE[s], 3) else 0)
  }

  /** The loop that fills `ldt` to tl lengths. A word without a code reads as length 0. */
  ghost function ReadLengths(dat: seq<byte>, pos: nat, clt: Lengths, clb: nat, tl: nat, acc: seq<nat>): (r: (seq<nat>, nat))
    requires Fits(clt, clb)
    ensures |r.0| == tl && r.1 >= pos
    decreases tl - |acc|
  {
    if |acc| >= tl then (acc[..tl], pos)
    else
      var r := Entry(clt, clb, |clt|, Bits(dat, pos, clb));
      var s, pos1 := r / 16, pos + r % 16;
      var k := C.ReadBits(s);
      ReadLengths(dat, pos1 + k, clt, clb, tl, C.Append(acc, s, Bits(dat, pos1, k)))
  }

  // ---- what the writer sends ---------------------------------------------------

  function WordFields(ws: seq<nat>, clt: Lengths): seq<Field>
    requires forall i :: 0 <= i < |clt| ==> clt[i] <= 15
    requires forall w :: w in ws ==> C.Sym(w) < |clt|
  {
    if ws == [] then []
    else
      assert ws[0] in ws;
      [Symbol(clt, C.Sym(ws[0])), Field(C.Extra(ws[0]), C.ExtraBits(ws[0]))] + WordFields(ws[1..], clt)
  }

  ghost predicate WordsCodable(ws: seq<nat>, clt: Lengths, clb: nat) {
    && Kraft(clt, clb) && clb <= 7
    && forall w :: w in ws ==> C.WordOk(w) && C.Sym(w) < |clt| && clt[C.Sym(w)] > 0
  }

  lemma SameLook(dat: seq<byte>, pos: nat, lens: Lengths, mb: nat)
    requires Fits(lens, mb) && mb <= 9
    ensures Entry(lens, mb, |lens|, Bits(dat, pos, mb)) == I.Look(dat, pos, lens, mb)
  {
    Bits16Reads(dat, pos, mb);
    BitsReads(dat, pos, mb);
  }

  lemma OneWord(dat: seq<byte>, pos: nat, w: nat, clt: Lengths, clb: nat, rest: seq<Field>)
    requires Kraft(clt, clb) && clb <= 7 && C.WordOk(w) && C.Sym(w) < |clt| && clt[C.Sym(w)] > 0
    requires Holds(dat, pos, [Symbol(clt, C.Sym(w)), Field(C.Extra(w), C.ExtraBits(w))] + rest)
    ensures Entry(clt, clb, |clt|, Bits(dat, pos, clb)) == Packed(clt, C.Sym(w))
    ensures var pos1 := pos + clt[C.Sym(w)];
            Bits(dat, pos1, C.ReadBits(C.Sym(w))) == C.Extra(w) && Holds(dat, pos1 + C.ReadBits(C.Sym(w)), rest)
  {
    hide Holds, Entry, Bits, I.Look, Enc, Shr, Low, C.Extra, C.ExtraBits, C.Sym;
    var x := Field(C.Extra(w), C.ExtraBits(w));
    assert [Symbol(clt, C.Sym(w)), x] + rest == [Symbol(clt, C.Sym(w))] + ([x] + rest);
    LookFinds(dat, pos, clt, clb, C.Sym(w), [x] + rest);
    SameLook(dat, pos, clt, clb);
    var pos1 := pos + clt[C.Sym(w)];
    HoldsNext(dat, pos1, x, rest);
    BitsReads(dat, pos1, x.width);
  }

  lemma AppendGrows(acc: seq<nat>, sym: nat, extra: nat)
    ensures |C.Append(acc, sym, extra)| > |acc|
    ensures acc <= C.Append(acc, sym, extra)
  {
  }

  lemma {:induction false} ExpandGrows(a: seq<nat>, b: seq<nat>)
    ensures C.Expand(a) <= C.Expand(a + b) && (b != [] ==> |C.Expand(a)| < |C.Expand(a + b)|)
    decreases |b|
  {
    if b == [] {
      assert a + b == a;
    } else {
      var n := |b| - 1;
      assert (a + b)[..|a + b| - 1] == a + b[..n];
      ExpandGrows(a, b[..n]);
      AppendGrows(C.Expand(a + b[..n]), C.Sym(b[n]), C.Extra(b[n]));
    }
  }

  lemma AppendAfter(a: seq<nat>, acc: seq<nat>, sym: nat, extra: nat)
    requires acc != [] || sym != 16
    ensures C.Append(a + acc, sym, extra) == a + C.Append(acc, sym, extra)
  {
  }

  /** Two run-length coded vectors read as one, when the second does not begin by
      repeating the length before it. */
  lemma {:induction false} ExpandConcat(a: seq<nat>, b: seq<nat>)
    requires b != [] ==> C.Sym(b[0]) != 16
    ensures C.Expand(a + b) == C.Expand(a) + C.Expand(b)
    decreases |b|
  {
    hide C.Sym, C.Extra, C.Append;
    if b == [] {
      assert a + b == a;
    } else {
      var n := |b| - 1;
      assert (a + b)[..|a + b| - 1] == a + b[..n];
      ExpandConcat(a, b[..n]);
      assert [] + b[..n] == b[..n];
      ExpandGrows([], b[..n]);
      AppendAfter(C.Expand(a), C.Expand(b[..n]), C.Sym(b[n]), C.Extra(b[n]));
    }
  }

  /** The reader's loop gives back exactly the vector the words stand for. */
  lemma {:induction false} LengthsRead(dat: seq<byte>, pos: nat, clt: Lengths, clb: nat, done: seq<nat>, ws: seq<nat>,
                                       rest: seq<Field>)
    requires WordsCodable(ws, clt, clb)
    requires Holds(dat, pos, WordFields(ws, clt) + rest)
    ensures ReadLengths(dat, pos, clt, clb, |C.Expand(done + ws)|, C.Expand(done))
         == (C.Expand(done + ws), pos + Width(WordFields(ws, clt)))
    ensures Holds(dat, pos + Width(WordFields(ws, clt)), rest)
    decreases |ws|
  {
    hide Holds, Entry, Bits, KraftSum, Enc, C.Extra, C.ExtraBits, C.Sym, C.Append, C.ReadBits;
    if ws == [] {
      assert done + ws == done && WordFields(ws, clt) + rest == rest;
      assert C.Expand(done)[..|C.Expand(done)|] == C.Expand(done);
    } else {
      var w, more := ws[0], ws[1..];
      assert w in ws && forall v :: v in more ==> v in ws;
      var head := [Symbol(clt, C.Sym(w)), Field(C.Extra(w), C.ExtraBits(w))];
      assert WordFields(ws, clt) + rest == head + (WordFields(more, clt) + rest);
      OneWord(dat, pos, w, clt, clb, WordFields(more, clt) + rest);
      assert Packed(clt, C.Sym(w)) % 16 == clt[C.Sym(w)] && Packed(clt, C.Sym(w)) / 16 == C.Sym(w);
      assert done + ws == (done + [w]) + more;
      assert (done + [w])[..|done|] == done;
      ExpandGrows(done, ws);
      LengthsRead(dat, pos + clt[C.Sym(w)] + C.ReadBits(C.Sym(w)), clt, clb, done + [w], more, rest);
      FieldWidths(head[0], head[1], WordFields(more, clt));
    }
  }

  // ---- the header as a whole --------------------------------------------------------

  ghost predicate AllSmall(L: Lengths) {
    forall i :: 0 <= i < |L| ==> L[i] <= 15
  }

  lemma SmallAppend(acc: seq<nat>, sym: nat, extra: nat)
    requires AllSmall(acc)
    ensures AllSmall(C.Append(acc, sym, extra))
  {
  }

  lemma {:induction false} LengthsSmall(dat: seq<byte>, pos: nat, clt: Lengths, clb: nat, tl: nat, acc: seq<nat>)
    requires Fits(clt, clb) && AllSmall(acc)
    ensures AllSmall(ReadLengths(dat, pos, clt, clb, tl, acc).0)
    decreases tl - |acc|
  {
    hide Entry, Bits;
    if |acc| < tl {
      var r := Entry(clt, clb, |clt|, Bits(dat, pos, clb));
      var s, pos1 := r / 16, pos + r % 16;
      var k := C.ReadBits(s);
      var acc' := C.Append(acc, s, Bits(dat, pos1, k));
      SmallAppend(acc, s, Bits(dat, pos1, k));
      LengthsSmall(dat, pos1 + k, clt, clb, tl, acc');
      assert ReadLengths(dat, pos, clt, clb, tl, acc) == ReadLengths(dat, pos1 + k, clt, clb, tl, acc');
    }
  }

  lemma MaxFits(L: Lengths, n: nat)
    requires n <= 15 && forall i :: 0 <= i < |L| ==> L[i] <= n
    ensures Fits(L, MaxOf(L)) && MaxOf(L) <= n
  {
    if L != [] {
      var m := MaxOf(L);
      var i :| 0 <= i < |L| && L[i] == m;
    }
  }

  lemma ThirdFits(dat: seq<byte>, pos: nat, hcLen: nat)
    ensures Fits(ThirdCode(dat, pos, hcLen), MaxOf(ThirdCode(dat, pos, hcLen)))
    ensures MaxOf(ThirdCode(dat, pos, hcLen)) <= 7
  {
    hide MaxOf;
    var clt := ThirdCode(dat, pos, hcLen);
    forall i | 0 <= i < |clt| ensures clt[i] <= 7 {
      var z := Shr(BitStream.At(dat, (pos + 3 * PLACE[i]) / 8) + 256 * BitStream.At(dat, (pos + 3 * PLACE[i]) / 8 + 1),
                   (pos + 3 * PLACE[i]) % 8);
      Split(z, 3);
      Pow2Values();
    }
    MaxFits(clt, 7);
  }

  /** The two codes cut from the vector of lengths that was read. */
  ghost function CutCodes(ldt: seq<nat>, hLit: nat): (c: I.Codes)
    requires hLit <= |ldt| && hLit <= 288 && |ldt| - hLit <= 32 && AllSmall(ldt)
    ensures I.CodesFitTables(c)
  {
    var lt, dt := ldt[..hLit], ldt[hLit..];
    MaxFits(lt, 15);
    MaxFits(dt, 15);
    I.Codes(lt, MaxOf(lt), dt, MaxOf(dt))
  }

  /** What `inflt` makes of the bits of a type 2 header at pos. */
  ghost function ReadHeader(dat: seq<byte>, pos: nat): (r: (I.Codes, nat))
    ensures I.CodesFitTables(r.0) && r.1 >= pos
  {
    var (hLit, hDist, hcLen) := (Bits(dat, pos, 5) + 257, Bits(dat, pos + 5, 5) + 1, Bits(dat, pos + 10, 4) + 4);
    var r := ReadVector(dat, pos + 14, hcLen, hLit + hDist);
    FiveBits(dat, pos);
    FiveBits(dat, pos + 5);
    (CutCodes(r.0, hLit), r.1)
  }

  /** The third code from pos, and behind it the tl lengths it codes. */
  ghost function ReadVector(dat: seq<byte>, pos: nat, hcLen: nat, tl: nat): (r: (seq<nat>, nat))
    ensures |r.0| == tl && AllSmall(r.0) && r.1 >= pos
  {
    ThirdFits(dat, pos, hcLen);
    VectorBehind(dat, pos + 3 * hcLen, ThirdCode(dat, pos, hcLen), tl)
  }

  ghost function VectorBehind(dat: seq<byte>, pos: nat, clt: Lengths, tl: nat): (r: (seq<nat>, nat))
    requires Fits(clt, MaxOf(clt))
    ensures |r.0| == tl && AllSmall(r.0) && r.1 >= pos
  {
    LengthsSmall(dat, pos, clt, MaxOf(clt), tl, []);
    ReadLengths(dat, pos, clt, MaxOf(clt), tl, [])
  }

  lemma FiveBits(dat: seq<byte>, pos: nat)
    ensures Bits(dat, pos, 5) < 32
  {
    Split(Shr(BitStream.At(dat, pos / 8) + 256 * BitStream.At(dat, pos / 8 + 1), pos % 8), 5);
    Pow2Values();
  }

  /** A header the writer sends: the third code, how many of its lengths are sent, the two
      codes, and the words that stand for them. */
  datatype Plan = Plan(clt: Lengths, nlcc: nat, c: I.Codes, ws: seq<nat>)

  ghost predicate PlanOk(h: Plan) {
    && |h.clt| == 19 && 4 <= h.nlcc <= 19
    && (forall i :: 0 <= i < 19 ==> h.clt[i] <= 7)
    && (forall i :: h.nlcc <= i < 19 ==> h.clt[ORDER[i]] == 0)
    && WordsCodable(h.ws, h.clt, MaxOf(h.clt))
    && |h.c.ll| >= 257 && |h.c.dl| >= 1 && CodesOk(h.c)
    && h.c.lb == MaxOf(h.c.ll) && h.c.db == MaxOf(h.c.dl)
    && C.Expand(h.ws) == h.c.ll + h.c.dl
  }

  function OrderFields(clt: Lengths, i: nat, n: nat): seq<Field>
    requires |clt| == 19 && i <= n <= 19
    decreases n - i
  {
    OrderPlace(if i < 19 then i else 0);
    if i == n then [] else [Field(clt[ORDER[i]], 3)] + OrderFields(clt, i + 1, n)
  }

  function HeaderFields(h: Plan): seq<Field>
    requires PlanOk(h)
  {
    [Field(|h.c.ll| - 257, 5), Field(|h.c.dl| - 1, 5), Field(h.nlcc - 4, 4)]
    + OrderFields(h.clt, 0, h.nlcc) + WordFields(h.ws, h.clt)
  }

  lemma {:induction false} OrderReads(dat: seq<byte>, pos: nat, clt: Lengths, i: nat, n: nat, rest: seq<Field>)
    requires |clt| == 19 && (forall k :: 0 <= k < 19 ==> clt[k] <= 7) && i <= n <= 19
    requires Holds(dat, pos + 3 * i, OrderFields(clt, i, n) + rest)
    ensures forall k :: i <= k < n ==> Bits(dat, pos + 3 * k, 3) == clt[ORDER[k]]
    ensures Holds(dat, pos + 3 * n, rest)
    decreases n - i
  {
    hide Holds, Bits, Low, Shr, Shl;
    if i == n {
      assert OrderFields(clt, i, n) + rest == rest;
    } else {
      OrderPlace(i);
      assert Pow2(3) == 8 by { Pow2Values(); }
      OneLength(dat, pos + 3 * i, clt[ORDER[i]], OrderFields(clt, i + 1, n), rest);
      OrderReads(dat, pos, clt, i + 1, n, rest);
    }
  }

  lemma OneLength(dat: seq<byte>, p: nat, x: nat, more: seq<Field>, rest: seq<Field>)
    requires x <= 7 && Holds(dat, p, [Field(x, 3)] + more + rest)
    ensures Bits(dat, p, 3) == x && Holds(dat, p + 3, more + rest)
  {
    hide Holds, Bits, Low, Shr, Shl;
    Pow2Values();
    assert [Field(x, 3)] + more + rest == [Field(x, 3)] + (more + rest);
    HoldsNext(dat, p, Field(x, 3), more + rest);
    BitsReads(dat, p, 3);
  }

  lemma ThirdReads(dat: seq<byte>, pos: nat, clt: Lengths, n: nat, rest: seq<Field>)
    requires |clt| == 19 && (forall k :: 0 <= k < 19 ==> clt[k] <= 7) && n <= 19
    requires forall k :: n <= k < 19 ==> clt[ORDER[k]] == 0
    requires Holds(dat, pos, OrderFields(clt, 0, n) + rest)
    ensures ThirdCode(dat, pos, n) == clt && Holds(dat, pos + 3 * n, rest)
  {
    hide Holds, Bits;
    OrderReads(dat, pos, clt, 0, n, rest);
    var r := ThirdCode(dat, pos, n);
    forall s | 0 <= s < 19 ensures r[s] == clt[s] {
      OrderPlace(s);
    }
  }

  lemma CountsRead(dat: seq<byte>, pos: nat, a: nat, b: nat, c: nat, rest: seq<Field>)
    requires a < 32 && b < 32 && c < 16
    requires Holds(dat, pos, [Field(a, 5), Field(b, 5), Field(c, 4)] + rest)
    ensures Bits(dat, pos, 5) == a && Bits(dat, pos + 5, 5) == b && Bits(dat, pos + 10, 4) == c
    ensures Holds(dat, pos + 14, rest)
  {
    hide Holds, Bits, Low, Shr, Shl;
    Pow2Values();
    var fa, fb, fc := Field(a, 5), Field(b, 5), Field(c, 4);
    assert [fa, fb, fc] + rest == [fa] + ([fb] + ([fc] + rest));
    HoldsNext(dat, pos, fa, [fb] + ([fc] + rest));
    HoldsNext(dat, pos + 5, fb, [fc] + rest);
    HoldsNext(dat, pos + 10, fc, rest);
    BitsReads(dat, pos, 5);
    BitsReads(dat, pos + 5, 5);
    BitsReads(dat, pos + 10, 4);
  }

  /** The header round trip: both codes come back, up to trailing zeros already cut. */
  lemma HeaderReads(dat: seq<byte>, pos: nat, h: Plan, rest: seq<Field>)
    requires PlanOk(h) && Holds(dat, pos, HeaderFields(h) + rest)
    ensures ReadHeader(dat, pos) == (h.c, pos + Width(HeaderFields(h)))
    ensures Holds(dat, pos + Width(HeaderFields(h)), rest)
  {
    hide *;
    PartsRead(dat, pos, h, rest);
    HeaderWidth(h);
  }

  lemma PartsRead(dat: seq<byte>, pos: nat, h: Plan, rest: seq<Field>)
    requires PlanOk(h) && Holds(dat, pos, HeaderFields(h) + rest)
    ensures var end := pos + 14 + 3 * h.nlcc + Width(WordFields(h.ws, h.clt));
            ReadHeader(dat, pos) == (h.c, end) && Holds(dat, end, rest)
  {
    hide Holds, Bits, KraftSum, CodesOk, MaxOf, ReadVector, WordFields, OrderFields, Width, HeaderFields, C.Expand, CutCodes, AllSmall;
    var (a, b, c) := (|h.c.ll| - 257, |h.c.dl| - 1, h.nlcc - 4);
    PlanSizes(h);
    FieldsGrouped(h, rest);
    CountsRead(dat, pos, a, b, c, OrderFields(h.clt, 0, h.nlcc) + (WordFields(h.ws, h.clt) + rest));
    VectorReads(dat, pos + 14, h, rest);
    CutApart(h);
  }

  /** The vector that was sent as one is cut into the two it was made of. */
  lemma CutApart(h: Plan)
    requires PlanOk(h)
    ensures AllSmall(h.c.ll + h.c.dl) && 257 <= |h.c.ll| <= 288 && |h.c.dl| <= 32 && CutCodes(h.c.ll + h.c.dl, |h.c.ll|) == h.c
  {
    hide MaxOf, WordFields, C.Expand, WordsCodable, KraftSum;
    assert (h.c.ll + h.c.dl)[..|h.c.ll|] == h.c.ll && (h.c.ll + h.c.dl)[|h.c.ll|..] == h.c.dl;
  }

  /** The third code and the vector behind it. */
  lemma VectorReads(dat: seq<byte>, pos: nat, h: Plan, rest: seq<Field>)
    requires PlanOk(h) && Holds(dat, pos, OrderFields(h.clt, 0, h.nlcc) + (WordFields(h.ws, h.clt) + rest))
    ensures var (vector, end) := (C.Expand(h.ws), pos + 3 * h.nlcc + Width(WordFields(h.ws, h.clt)));
            ReadVector(dat, pos, h.nlcc, |vector|) == (vector, end) && Holds(dat, end, rest)
  {
    hide Holds, ThirdCode, ReadLengths, WordFields, OrderFields, Width, MaxOf, C.Expand, CodesOk, Fits;
    ThirdReads(dat, pos, h.clt, h.nlcc, WordFields(h.ws, h.clt) + rest);
    AllLengthsRead(dat, pos + 3 * h.nlcc, h.clt, MaxOf(h.clt), h.ws, rest);
  }

  lemma AllLengthsRead(dat: seq<byte>, pos: nat, clt: Lengths, clb: nat, ws: seq<nat>, rest: seq<Field>)
    requires WordsCodable(ws, clt, clb) && Holds(dat, pos, WordFields(ws, clt) + rest)
    ensures ReadLengths(dat, pos, clt, clb, |C.Expand(ws)|, []) == (C.Expand(ws), pos + Width(WordFields(ws, clt)))
    ensures Holds(dat, pos + Width(WordFields(ws, clt)), rest)
  {
    hide *;
    NothingExpands();
    LengthsRead(dat, pos, clt, clb, [], ws, rest);
    assert [] + ws == ws;
  }

  lemma FieldsGrouped(h: Plan, rest: seq<Field>)
    requires PlanOk(h)
    ensures HeaderFields(h) + rest == [Field(|h.c.ll| - 257, 5), Field(|h.c.dl| - 1, 5), Field(h.nlcc - 4, 4)]
                                      + (OrderFields(h.clt, 0, h.nlcc) + (WordFields(h.ws, h.clt) + rest))
  {
    hide OrderFields, WordFields;
  }

  lemma NothingExpands()
    ensures C.Expand([]) == []
  {
  }

  lemma PlanSizes(h: Plan)
    requires PlanOk(h)
    ensures 257 <= |h.c.ll| <= 288 && 1 <= |h.c.dl| <= 32
  {
  }

  lemma {:induction false} OrderWidth(clt: Lengths, i: nat, n: nat)
    requires |clt| == 19 && i <= n <= 19
    ensures Width(OrderFields(clt, i, n)) == 3 * (n - i)
    decreases n - i
  {
    if i < n {
      OrderWidth(clt, i + 1, n);
      assert OrderFields(clt, i, n)[1..] == OrderFields(clt, i + 1, n);
    }
  }

  lemma HeaderWidth(h: Plan)
    requires PlanOk(h)
    ensures Width(HeaderFields(h)) == 14 + 3 * h.nlcc + Width(WordFields(h.ws, h.clt))
  {
    hide KraftSum, CodesOk, MaxOf, WordFields, OrderFields, C.Sym, C.WordOk;
    PlanSizes(h);
    var counts := [Field(|h.c.ll| - 257, 5), Field(|h.c.dl| - 1, 5), Field(h.nlcc - 4, 4)];
    var order, words := OrderFields(h.clt, 0, h.nlcc), WordFields(h.ws, h.clt);
    WidthConcat(counts, order);
    WidthConcat(counts + order, words);
    OrderWidth(h.clt, 0, h.nlcc);
    FieldWidths(counts[0], counts[1], [counts[2]]);
    OneField(counts[2]);
    assert counts == [counts[0], counts[1]] + [counts[2]];
  }
}
