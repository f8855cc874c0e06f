/** The block writers of the bundled fflate code, `wblk` and `wfblk`, on the output array:
    what they leave there is a block that `inflt` reads back. */
module Writer {
  import opened Words
  import opened Huffman
  import opened BitStream
  import opened Fields
  import opened Tokens
  import I = Inflate
  import opened Blocks
  import opened Header
  import opened Stream
  import C = CodeLengths

  // ---- one field -----------------------------------------------------------------

  /** `wbits16(out, p, v), p += k` */
  method Send(out: array<byte>, p: nat, v: nat, k: nat) returns (next: nat)
    requires Room(out[..], p, k) && v < Pow2(k) && k <= 16
    modifies out
    ensures Wrote(old(out[..]), p, [Field(v, k)], out[..], next)
  {
    WroteOne(out[..], p, Field(v, k));
    WBits16(out, p, v);
    next := p + k;
  }

  /** `wbits(out, p, v), p += k` */
  method SendShort(out: array<byte>, p: nat, v: nat, k: nat) returns (next: nat)
    requires Room(out[..], p, k) && v < Pow2(k) && k <= 9
    modifies out
    ensures Wrote(old(out[..]), p, [Field(v, k)], out[..], next)
  {
    assert v < 512 by {
      Pow2Mono(k, 9);
      Pow2Values();
    }
    WroteOne(out[..], p, Field(v, k));
    WBits(out, p, v);
    next := p + k;
  }

  // ---- the tokens of a block ----------------------------------------------------

  /** The tables a block is written with hold the codes c, for every symbol in use. */
  ghost predicate Tables(lm: seq<nat>, ll: Lengths, lens: Lengths) {
    forall i :: 0 <= i < |lens| && lens[i] > 0 ==>
      i < |lm| && i < |ll| && ll[i] == lens[i] <= 15 && lm[i] == Enc(lens, i)
  }

  method SendSymbol(out: array<byte>, p: nat, lm: array<nat>, ll: Lengths, i: nat, ghost lens: Lengths, ghost mb: nat)
      returns (next: nat)
    requires Kraft(lens, mb) && Tables(lm[..], ll, lens)
    requires i < |lens| && lens[i] > 0 && Room(out[..], p, lens[i])
    modifies out
    ensures Wrote(old(out[..]), p, [Symbol(lens, i)], out[..], next)
  {
    SymbolSound(lens, mb, i);
    assert lm[..][i] == lm[i];
    next := Send(out, p, lm[i], ll[i]);
  }

  lemma WroteEmpty(d: seq<byte>, p: nat)
    requires LE(d) < Pow2(p)
    ensures Wrote(d, p, [Field(0, 0)], d, p)
  {
    OneField(Field(0, 0));
    assert Shl(0, p) == 0;
  }

  /** `len = sym >> 18 & 31` and what follows it. */
  method SendLength(out: array<byte>, p: nat, sym: nat, lm: array<nat>, ll: Lengths, ghost c: I.Codes)
      returns (next: nat)
    requires CodesOk(c) && Tables(lm[..], ll, c.ll)
    requires var i := sym / 262144 % 32; var x := sym / 8388608 % 32;
             && i <= 28 && 257 + i < |c.ll| && c.ll[257 + i] > 0 && x < Pow2(LengthExtra(i))
             && LE(out[..]) < Pow2(p) && p + c.ll[257 + i] + LengthExtra(i) <= 8 * out.Length
    modifies out
    ensures var i := sym / 262144 % 32;
            Wrote(old(out[..]), p, [Symbol(c.ll, 257 + i), Field(sym / 8388608 % 32, LengthExtra(i))], out[..], next)
  {
    hide Wrote, KraftSum, Shl, Enc, LE;
    var len, x := sym / 262144 % 32, sym / 8388608 % 32;
    ghost var d0 := out[..];
    next := SendSymbol(out, p, lm, ll, 257 + len, c.ll, c.lb);
    ghost var d1, p1 := out[..], next;
    WroteSize(d0, p, [Symbol(c.ll, 257 + len)], d1, p1);
    OneField(Symbol(c.ll, 257 + len));
    if len > 7 {
      next := SendShort(out, next, x, LengthExtra(len));
    } else {
      ZeroWide(x);
      WroteEmpty(d1, p1);
    }
    WroteMore(d0, p, [Symbol(c.ll, 257 + len)], d1, p1, [Field(x, LengthExtra(len))], out[..], next);
    assert [Symbol(c.ll, 257 + len)] + [Field(x, LengthExtra(len))] == [Symbol(c.ll, 257 + len), Field(x, LengthExtra(len))];
  }

  lemma ZeroWide(x: nat)
    ensures x < Pow2(0) ==> x == 0
  {
  }

  lemma WroteSize(d: seq<byte>, p: nat, fs: seq<Field>, d': seq<byte>, p': nat)
    requires Wrote(d, p, fs, d', p')
    ensures |d'| == |d| && p' == p + Width(fs) && LE(d') < Pow2(p')
  {
  }

  /** `dst = sym & 31` and what follows it. */
  method SendDistance(out: array<byte>, p: nat, sym: nat, dm: array<nat>, dl: Lengths, ghost c: I.Codes)
      returns (next: nat)
    requires CodesOk(c) && Tables(dm[..], dl, c.dl)
    requires var i := sym % 32; var x := sym / 32 % 8192;
             && i < |c.dl| && c.dl[i] > 0 && x < Pow2(DistExtra(i))
             && LE(out[..]) < Pow2(p) && p + c.dl[i] + DistExtra(i) <= 8 * out.Length
    modifies out
    ensures Wrote(old(out[..]), p, [Symbol(c.dl, sym % 32), Field(sym / 32 % 8192, DistExtra(sym % 32))], out[..], next)
  {
    hide Wrote, KraftSum, Shl, Enc, LE;
    var dst, x := sym % 32, sym / 32 % 8192;
    ghost var d0 := out[..];
    next := SendSymbol(out, p, dm, dl, dst, c.dl, c.db);
    ghost var d1, p1 := out[..], next;
    WroteSize(d0, p, [Symbol(c.dl, dst)], d1, p1);
    OneField(Symbol(c.dl, dst));
    if dst > 3 {
      next := Send(out, next, x, DistExtra(dst));
    } else {
      ZeroWide(x);
      WroteEmpty(d1, p1);
    }
    WroteMore(d0, p, [Symbol(c.dl, dst)], d1, p1, [Field(x, DistExtra(dst))], out[..], next);
    assert [Symbol(c.dl, dst)] + [Field(x, DistExtra(dst))] == [Symbol(c.dl, dst), Field(x, DistExtra(dst))];
  }

  method SendToken(out: array<byte>, p: nat, sym: nat, lm: array<nat>, ll: Lengths, dm: array<nat>, dl: Lengths,
                   ghost t: Token, ghost c: I.Codes) returns (next: nat)
    requires CodesOk(c) && Valid(t) && Codable(t, c) && sym == Pack(t)
    requires Tables(lm[..], ll, c.ll) && Tables(dm[..], dl, c.dl)
    requires LE(out[..]) < Pow2(p) && p + Width(TokenFields(t, c)) <= 8 * out.Length
    modifies out
    ensures Wrote(old(out[..]), p, TokenFields(t, c), out[..], next)
  {
    hide Wrote, KraftSum, Shl, Enc, LE, LengthCode, DistCode, LengthBase, DistBase, PackNumbers;
    Unpack(t);
    ghost var d0 := out[..];
    if sym > 255 {
      LengthSplits(t.len);
      DistSplits(t.dist);
      ghost var fs := TokenFields(t, c);
      FieldWidths(fs[0], fs[1], [fs[2], fs[3]]);
      FieldWidths(fs[2], fs[3], []);
      assert [fs[2], fs[3]] + [] == [fs[2], fs[3]] && [fs[0], fs[1]] + [fs[2], fs[3]] == fs;
      EmptyWidth();
      next := SendLength(out, p, sym, lm, ll, c);
      ghost var d1, p1 := out[..], next;
      WroteSize(d0, p, [fs[0], fs[1]], d1, p1);
      FieldWidths(fs[0], fs[1], []);
      assert [fs[0], fs[1]] + [] == [fs[0], fs[1]];
      next := SendDistance(out, next, sym, dm, dl, c);
      WroteMore(d0, p, [fs[0], fs[1]], d1, p1, [fs[2], fs[3]], out[..], next);
    } else {
      OneField(Symbol(c.ll, t.b));
      next := SendSymbol(out, p, lm, ll, sym, c.ll, c.lb);
    }
  }

  /** What remains to be written fits, and what is written is a prefix of the whole. */
  ghost predicate Underway(d0: seq<byte>, p0: nat, all: seq<Field>, done: seq<Field>, d: seq<byte>, p: nat, rest: seq<Field>) {
    && Wrote(d0, p0, done, d, p) && done + rest == all
    && p0 + Width(all) <= 8 * |d0|
  }

  lemma RoomLeft(d0: seq<byte>, p0: nat, all: seq<Field>, done: seq<Field>, d: seq<byte>, p: nat, a: seq<Field>, b: seq<Field>)
    requires Underway(d0, p0, all, done, d, p, a + b)
    ensures LE(d) < Pow2(p) && p + Width(a) <= 8 * |d|
  {
    hide Shl, LE;
    WidthConcat(done, a + b);
    WidthConcat(a, b);
  }

  lemma GoOn(d0: seq<byte>, p0: nat, all: seq<Field>, done: seq<Field>, d: seq<byte>, p: nat, a: seq<Field>, b: seq<Field>,
             d': seq<byte>, p': nat)
    requires Underway(d0, p0, all, done, d, p, a + b) && Wrote(d, p, a, d', p')
    ensures Underway(d0, p0, all, done + a, d', p', b)
  {
    hide Wrote;
    WroteMore(d0, p0, done, d, p, a, d', p');
    assert done + a + b == done + (a + b);
  }

  lemma StartUnderway(d: seq<byte>, p: nat, all: seq<Field>)
    requires LE(d) < Pow2(p) && p + Width(all) <= 8 * |d|
    ensures Underway(d, p, all, [], d, p, all)
  {
    WroteNothing(d, p);
    assert [] + all == all;
  }

  lemma AllWritten(d0: seq<byte>, p0: nat, all: seq<Field>, done: seq<Field>, d: seq<byte>, p: nat)
    requires Underway(d0, p0, all, done, d, p, [])
    ensures Wrote(d0, p0, all, d, p)
  {
    assert done + [] == done;
  }

  /** The loop over `syms` and the end-of-block symbol. */
  method SendBody(out: array<byte>, p: nat, syms: seq<nat>, lm: array<nat>, ll: Lengths, dm: array<nat>, dl: Lengths,
                  ghost ts: seq<Token>, ghost c: I.Codes) returns (next: nat)
    requires CodesOk(c) && AllCodable(ts, c)
    requires |syms| == |ts| && forall i :: 0 <= i < |ts| ==> syms[i] == Pack(ts[i])
    requires Tables(lm[..], ll, c.ll) && Tables(dm[..], dl, c.dl)
    requires out != lm as object && out != dm as object
    requires LE(out[..]) < Pow2(p) && p + Width(BodyFields(ts, c)) <= 8 * out.Length
    modifies out
    ensures Wrote(old(out[..]), p, BodyFields(ts, c), out[..], next)
  {
    hide Wrote, Underway, KraftSum, LE, TokenFields, Width, Codable, Valid, Tables, Pack, BodyFields;
    ghost var d0, all := out[..], BodyFields(ts, c);
    ghost var done := [];
    next := p;
    StartUnderway(d0, p, all);
    for i := 0 to |syms|
      invariant Underway(d0, p, all, done, out[..], next, BodyFields(ts[i..], c))
      invariant Tables(lm[..], ll, c.ll) && Tables(dm[..], dl, c.dl)
    {
      ghost var t, d1, p1 := ts[i], out[..], next;
      assert t in ts && ts[i..][0] == t && ts[i..][1..] == ts[i + 1..];
      BodyStep(ts[i..], c);
      RoomLeft(d0, p, all, done, d1, p1, TokenFields(t, c), BodyFields(ts[i + 1..], c));
      next := SendToken(out, next, syms[i], lm, ll, dm, dl, t, c);
      GoOn(d0, p, all, done, d1, p1, TokenFields(t, c), BodyFields(ts[i + 1..], c), out[..], next);
      done := done + TokenFields(t, c);
    }
    ghost var d1, p1, end := out[..], next, [Symbol(c.ll, 256)];
    assert ts[|syms|..] == [];
    BodyStop(c);
    assert end + [] == end;
    RoomLeft(d0, p, all, done, d1, p1, end, []);
    OneField(Symbol(c.ll, 256));
    next := SendSymbol(out, next, lm, ll, 256, c.ll, c.lb);
    GoOn(d0, p, all, done, d1, p1, end, [], out[..], next);
    AllWritten(d0, p, all, done + end, out[..], next);
  }

  lemma BodyStep(ts: seq<Token>, c: I.Codes)
    requires CodesOk(c) && AllCodable(ts, c) && ts != []
    ensures AllCodable(ts[1..], c) && Valid(ts[0]) && Codable(ts[0], c)
    ensures BodyFields(ts, c) == TokenFields(ts[0], c) + BodyFields(ts[1..], c)
  {
    assert ts[0] in ts;
  }

  lemma BodyStop(c: I.Codes)
    requires CodesOk(c)
    ensures BodyFields([], c) == [Symbol(c.ll, 256)]
  {
  }

  // ---- the header of a dynamic block --------------------------------------------

  method SendWord(out: array<byte>, p: nat, w: nat, llm: array<nat>, lct: Lengths, ghost clt: Lengths, ghost clb: nat)
      returns (next: nat)
    requires Kraft(clt, clb) && clb <= 7 && Tables(llm[..], lct, clt)
    requires C.WordOk(w) && C.Sym(w) < |clt| && clt[C.Sym(w)] > 0
    requires LE(out[..]) < Pow2(p) && p + clt[C.Sym(w)] + C.ExtraBits(w) <= 8 * out.Length
    modifies out
    ensures Wrote(old(out[..]), p, [Symbol(clt, C.Sym(w)), Field(C.Extra(w), C.ExtraBits(w))], out[..], next)
  {
    hide Wrote, KraftSum, Shl, Enc, LE, C.ExtraBits, C.Extra, C.Sym;
    var len := C.Sym(w);
    ghost var d0 := out[..];
    SymbolSound(clt, clb, len);
    next := SendShort(out, p, llm[len], lct[len]);
    ghost var d1, p1 := out[..], next;
    WroteSize(d0, p, [Symbol(clt, len)], d1, p1);
    OneField(Symbol(clt, len));
    if len > 15 {
      next := SendShort(out, next, C.Extra(w), C.ExtraBits(w));
    } else {
      ZeroWide(C.Extra(w));
      WroteEmpty(d1, p1);
    }
    WroteMore(d0, p, [Symbol(clt, len)], d1, p1, [Field(C.Extra(w), C.ExtraBits(w))], out[..], next);
    assert [Symbol(clt, len)] + [Field(C.Extra(w), C.ExtraBits(w))] == [Symbol(clt, len), Field(C.Extra(w), C.ExtraBits(w))];
  }

  method SendWords(out: array<byte>, p: nat, ws: seq<nat>, llm: array<nat>, lct: Lengths, ghost clt: Lengths, ghost clb: nat)
      returns (next: nat)
    requires WordsCodable(ws, clt, clb) && Tables(llm[..], lct, clt) && out != llm as object
    requires LE(out[..]) < Pow2(p) && p + Width(WordFields(ws, clt)) <= 8 * out.Length
    modifies out
    ensures Wrote(old(out[..]), p, WordFields(ws, clt), out[..], next)
  {
    hide Wrote, Underway, KraftSum, LE, Width, Tables, WordFields, C.Sym, C.ExtraBits, C.Extra, C.WordOk;
    ghost var d0, all := out[..], WordFields(ws, clt);
    ghost var done := [];
    next := p;
    StartUnderway(d0, p, all);
    for i := 0 to |ws|
      invariant Underway(d0, p, all, done, out[..], next, WordFields(ws[i..], clt))
      invariant Tables(llm[..], lct, clt)
    {
      ghost var d1, p1, w := out[..], next, ws[i];
      assert w in ws && ws[i..][0] == w && ws[i..][1..] == ws[i + 1..];
      WordStep(ws[i..], clt);
      ghost var fs := [Symbol(clt, C.Sym(w)), Field(C.Extra(w), C.ExtraBits(w))];
      RoomLeft(d0, p, all, done, d1, p1, fs, WordFields(ws[i + 1..], clt));
      FieldWidths(fs[0], fs[1], []);
      EmptyWidth();
      assert fs + [] == fs;
      next := SendWord(out, next, ws[i], llm, lct, clt, clb);
      GoOn(d0, p, all, done, d1, p1, fs, WordFields(ws[i + 1..], clt), out[..], next);
      done := done + fs;
    }
    assert ws[|ws|..] == [];
    WordStop(clt);
    AllWritten(d0, p, all, done, out[..], next);
  }

  lemma WordStep(ws: seq<nat>, clt: Lengths)
    requires forall i :: 0 <= i < |clt| ==> clt[i] <= 15
    requires forall w :: w in ws ==> C.Sym(w) < |clt|
    requires ws != []
    ensures forall w :: w in ws[1..] ==> w in ws
    ensures ws[0] in ws
    ensures WordFields(ws, clt)
         == [Symbol(clt, C.Sym(ws[0])), Field(C.Extra(ws[0]), C.ExtraBits(ws[0]))] + WordFields(ws[1..], clt)
  {
  }

  lemma WordStop(clt: Lengths)
    requires forall i :: 0 <= i < |clt| ==> clt[i] <= 15
    ensures WordFields([], clt) == []
  {
  }

  /** The lengths of the third code, in their order. */
  method SendOrder(out: array<byte>, p: nat, lct: Lengths, nlcc: nat, ghost clt: Lengths) returns (next: nat)
    requires |clt| == 19 && nlcc <= 19 && forall i :: 0 <= i < 19 ==> clt[i] <= 7 && Cell(lct, i) == clt[i]
    requires LE(out[..]) < Pow2(p) && p + 3 * nlcc <= 8 * out.Length
    modifies out
    ensures Wrote(old(out[..]), p, OrderFields(clt, 0, nlcc), out[..], next)
  {
    hide Wrote, Underway, LE, Width, OrderFields;
    ghost var d0, all := out[..], OrderFields(clt, 0, nlcc);
    ghost var done := [];
    next := p;
    OrderWidth(clt, 0, nlcc);
    StartUnderway(d0, p, all);
    for i := 0 to nlcc
      invariant Underway(d0, p, all, done, out[..], next, OrderFields(clt, i, nlcc))
    {
      ghost var d1, p1 := out[..], next;
      OrderPlace(i);
      ghost var f := Field(clt[ORDER[i]], 3);
      OrderStep(clt, i, nlcc);
      RoomLeft(d0, p, all, done, d1, p1, [f], OrderFields(clt, i + 1, nlcc));
      OneField(f);
      assert Pow2(3) == 8 by { Pow2Values(); }
      next := SendShort(out, next, Cell(lct, ORDER[i]), 3);
      GoOn(d0, p, all, done, d1, p1, [f], OrderFields(clt, i + 1, nlcc), out[..], next);
      done := done + [f];
    }
    assert OrderFields(clt, nlcc, nlcc) == [] by { OrderStop(clt, nlcc); }
    AllWritten(d0, p, all, done, out[..], next);
  }

  lemma OrderStep(clt: Lengths, i: nat, n: nat)
    requires |clt| == 19 && i < n <= 19
    ensures ORDER[i] < 19 && OrderFields(clt, i, n) == [Field(clt[ORDER[i]], 3)] + OrderFields(clt, i + 1, n)
  {
    OrderPlace(i);
  }

  lemma OrderStop(clt: Lengths, n: nat)
    requires |clt| == 19 && n <= 19
    ensures OrderFields(clt, n, n) == []
  {
  }

  method SendCounts(out: array<byte>, p: nat, a: nat, b: nat, c: nat) returns (next: nat)
    requires a < 32 && b < 32 && c < 16 && LE(out[..]) < Pow2(p) && p + 14 <= 8 * out.Length
    modifies out
    ensures Wrote(old(out[..]), p, [Field(a, 5), Field(b, 5), Field(c, 4)], out[..], next)
  {
    hide Wrote, LE;
    ghost var d0 := out[..];
    assert Pow2(5) == 32 && Pow2(4) == 16 by { Pow2Values(); }
    next := SendShort(out, p, a, 5);
    ghost var d1, p1 := out[..], next;
    WroteSize(d0, p, [Field(a, 5)], d1, p1);
    OneField(Field(a, 5));
    next := SendShort(out, next, b, 5);
    ghost var d2, p2 := out[..], next;
    WroteSize(d1, p1, [Field(b, 5)], d2, p2);
    OneField(Field(b, 5));
    next := SendShort(out, next, c, 4);
    WroteMore(d0, p, [Field(a, 5)], d1, p1, [Field(b, 5)], d2, p2);
    WroteMore(d0, p, [Field(a, 5)] + [Field(b, 5)], d2, p2, [Field(c, 4)], out[..], next);
    assert [Field(a, 5)] + [Field(b, 5)] + [Field(c, 4)] == [Field(a, 5), Field(b, 5), Field(c, 4)];
  }

  /** The whole header. */
  method SendHeader(out: array<byte>, p: nat, nlc: nat, ndc: nat, nlcc: nat, lct: Lengths, llm: array<nat>,
                    lclt: seq<nat>, lcdt: seq<nat>, ghost h: Plan) returns (next: nat)
    requires PlanOk(h) && nlc == |h.c.ll| && ndc == |h.c.dl| && nlcc == h.nlcc && lclt + lcdt == h.ws
    requires (forall i :: 0 <= i < 19 ==> Cell(lct, i) == h.clt[i]) && Tables(llm[..], lct, h.clt)
    requires out != llm as object
    requires LE(out[..]) < Pow2(p) && p + Width(HeaderFields(h)) <= 8 * out.Length
    modifies out
    ensures Wrote(old(out[..]), p, HeaderFields(h), out[..], next)
  {
    hide Wrote, LE, Width, OrderFields, WordFields, KraftSum, CodesOk, MaxOf, C.WordOk, C.Sym, C.Expand, Tables;
    ghost var d0 := out[..];
    PlanSizes(h);
    HeaderWidth(h);
    ghost var counts := [Field(nlc - 257, 5), Field(ndc - 1, 5), Field(nlcc - 4, 4)];
    ghost var order, words := OrderFields(h.clt, 0, h.nlcc), WordFields(h.ws, h.clt);
    CountsWidth(counts[0], counts[1], counts[2]);
    OrderWidth(h.clt, 0, h.nlcc);
    next := SendCounts(out, p, nlc - 257, ndc - 1, nlcc - 4);
    ghost var d1, p1 := out[..], next;
    WroteSize(d0, p, counts, d1, p1);
    next := SendOrder(out, next, lct, nlcc, h.clt);
    ghost var d2, p2 := out[..], next;
    WroteSize(d1, p1, order, d2, p2);
    next := SendWords(out, next, lclt + lcdt, llm, lct, h.clt, MaxOf(h.clt));
    WroteMore(d0, p, counts, d1, p1, order, d2, p2);
    WroteMore(d0, p, counts + order, d2, p2, words, out[..], next);
  }

  lemma CountsWidth(a: Field, b: Field, c: Field)
    ensures Width([a, b, c]) == a.width + b.width + c.width
  {
    FieldWidths(a, b, [c]);
    OneField(c);
    assert [a, b] + [c] == [a, b, c];
  }
}
