/** `wblk` and `wfblk` as a whole: whichever form they choose, they leave one block that
    stands for the tokens, and it is never longer than the fixed form. */
module BlockWriter {
  import opened Words
  import opened Huffman
  import opened BitStream
  import opened Fields
  import opened Tokens
  import I = Inflate
  import opened Blocks
  import opened Header
  import opened Stream
  import opened Writer
  import opened Costs
  import C = CodeLengths

  // ---- stored blocks ---------------------------------------------------------------

  lemma ByteIsPut(d: seq<byte>, k: nat, b: byte)
    requires k < |d| && d[k] == 0
    ensures Put(d, 8 * k, b) == d[k := b]
  {
    hide BitOr;
    assert OrAt(d, k, b) == d[k := b] by { BitOrZero(b); }
    ZeroesStay(d[k := b], k + 1);
    ZeroesStay(d[k := b], k + 2);
  }

  lemma FreshByte(d: seq<byte>, k: nat)
    requires Room(d, 8 * k, 8)
    ensures k < |d| && d[k] == 0
  {
    hide LE;
    Pow2Values();
    TailOfRoom(d, 8 * k, 8);
  }

  lemma ZeroesStay(d: seq<byte>, i: nat)
    ensures OrAt(d, i, 0) == d
  {
    if i < |d| {
      BitOrRightZero(d[i]);
    }
  }

  /** `out[k] = b` behind everything written so far. */
  method SendByte(out: array<byte>, k: nat, b: byte)
    requires LE(out[..]) < Pow2(8 * k) && k < out.Length
    modifies out
    ensures Wrote(old(out[..]), 8 * k, [Field(b, 8)], out[..], 8 * (k + 1))
  {
    hide Shl, LE, Put;
    Pow2Values();
    WroteOne(out[..], 8 * k, Field(b, 8));
    FreshByte(out[..], k);
    ByteIsPut(out[..], k, b);
    out[k] := b;
  }

  /** Two bytes are one field of 16 bits. */
  lemma WordOfBytes(lo: byte, hi: byte)
    ensures Width([Field(lo, 8)] + [Field(hi, 8)]) == Width([Field(lo + 256 * hi, 16)])
    ensures Num([Field(lo, 8)] + [Field(hi, 8)]) == Num([Field(lo + 256 * hi, 16)])
  {
    hide Shl;
    WidthConcat([Field(lo, 8)], [Field(hi, 8)]);
    NumConcat([Field(lo, 8)], [Field(hi, 8)]);
    OneField(Field(lo, 8));
    OneField(Field(hi, 8));
    OneField(Field(lo + 256 * hi, 16));
    Shl8(hi);
  }

  method SendPair(out: array<byte>, k: nat, lo: byte, hi: byte)
    requires LE(out[..]) < Pow2(8 * k) && k + 1 < out.Length
    modifies out
    ensures Wrote(old(out[..]), 8 * k, [Field(lo + 256 * hi, 16)], out[..], 8 * (k + 2))
  {
    hide Shl, LE;
    ghost var d0 := out[..];
    SendByte(out, k, lo);
    ghost var d1 := out[..];
    SendByte(out, k + 1, hi);
    WroteMore(d0, 8 * k, [Field(lo, 8)], d1, 8 * (k + 1), [Field(hi, 8)], out[..], 8 * (k + 2));
    WordOfBytes(lo, hi);
  }

  lemma WrotePad(d: seq<byte>, p: nat, w: nat)
    requires LE(d) < Pow2(p)
    ensures Wrote(d, p, [Field(0, w)], d, p + w)
  {
    OneField(Field(0, w));
    Pow2Mono(p, p + w);
    assert Shl(0, p) == 0;
  }

  /** `wfblk(out, pos, dat)`, without the two type bits, which it leaves zero. */
  method WfBlk(out: array<byte>, pos: nat, dat: seq<byte>) returns (next: nat)
    requires |dat| < 65536 && LE(out[..]) < Pow2(pos) && 8 * (Shft(pos + 2) + 4 + |dat|) <= 8 * out.Length
    modifies out
    ensures next == 8 * (Shft(pos + 2) + 4 + |dat|)
    ensures Wrote(old(out[..]), pos, [Field(0, 2)] + (StoredHead(|dat|, pos + 2) + ByteFields(dat)), out[..], next)
  {
    hide Shl, LE, Wrote;
    var s, o := |dat|, Shft(pos + 2);
    ghost var d0 := out[..];
    WrotePad(d0, pos, 2);
    WroteSize(d0, pos, [Field(0, 2)], d0, pos + 2);
    WrotePad(d0, pos + 2, 8 * o - (pos + 2));
    WroteSize(d0, pos + 2, [Field(0, 8 * o - (pos + 2))], d0, 8 * o);
    SendPair(out, o, s % 256, s / 256);
    ghost var d1 := out[..];
    WroteSize(d0, 8 * o, [Field(s, 16)], d1, 8 * (o + 2));
    SendPair(out, o + 2, 255 - s % 256, 255 - s / 256);
    ghost var d2, head := out[..], StoredHead(s, pos + 2);
    WroteSize(d1, 8 * (o + 2), [Field(65535 - s, 16)], d2, 8 * (o + 4));
    WroteMore(d0, pos + 2, [head[0]], d0, 8 * o, [head[1]], d1, 8 * (o + 2));
    WroteMore(d0, pos + 2, [head[0]] + [head[1]], d1, 8 * (o + 2), [head[2]], d2, 8 * (o + 4));
    assert [head[0]] + [head[1]] + [head[2]] == head;
    SendBytes(out, o + 4, dat);
    next := 8 * (o + 4 + s);
    WroteMore(d0, pos + 2, head, d2, 8 * (o + 4), ByteFields(dat), out[..], next);
    WroteMore(d0, pos, [Field(0, 2)], d0, pos + 2, head + ByteFields(dat), out[..], next);
  }

  /** The loop that copies the bytes of a stored block. */
  method SendBytes(out: array<byte>, k: nat, dat: seq<byte>)
    requires LE(out[..]) < Pow2(8 * k) && k + |dat| <= out.Length
    modifies out
    ensures Wrote(old(out[..]), 8 * k, ByteFields(dat), out[..], 8 * (k + |dat|))
  {
    hide Shl, LE, Wrote;
    ghost var d0 := out[..];
    WroteNothing(d0, 8 * k);
    assert ByteFields(dat[..0]) == [];
    for i := 0 to |dat|
      invariant Wrote(d0, 8 * k, ByteFields(dat[..i]), out[..], 8 * (k + i))
    {
      ghost var d1 := out[..];
      WroteSize(d0, 8 * k, ByteFields(dat[..i]), d1, 8 * (k + i));
      SendByte(out, k + i, dat[i]);
      WroteMore(d0, 8 * k, ByteFields(dat[..i]), d1, 8 * (k + i), [Field(dat[i], 8)], out[..], 8 * (k + i + 1));
      BytesSnoc(dat[..i], dat[i]);
      assert dat[..i] + [dat[i]] == dat[..i + 1];
    }
    assert dat[..|dat|] == dat;
  }

  lemma {:induction false} BytesSnoc(a: seq<byte>, b: byte)
    ensures ByteFields(a + [b]) == ByteFields(a) + [Field(b, 8)]
  {
    if a == [] {
      assert (a + [b])[1..] == [];
    } else {
      assert (a + [b])[1..] == a[1..] + [b];
      BytesSnoc(a[1..], b);
    }
  }

  // ---- the codes a block is sent with ------------------------------------------------

  /** What the block writer relies on from `hTree(f, mb)`: a prefix code of at most mb bits
      that has a code for every symbol in use. */
  ghost predicate GoodTree(f: seq<nat>, mb: nat, L: Lengths, m: nat) {
    && Kraft(L, m) && m <= mb && |L| <= |f|
    && forall s :: 0 <= s < |f| && f[s] > 0 ==> s < |L| && L[s] > 0
  }

  /** Its builder ends its list with a weight of 25001, so the counts must not add up to
      more than that. */
  const MOST := 25001

  ghost predicate GoodTrees(tree: (seq<nat>, nat) -> (Lengths, nat)) {
    forall f, mb :: 0 < mb <= 15 && |f| <= Pow2(mb) && Total(f) <= MOST ==> GoodTree(f, mb, tree(f, mb).0, tree(f, mb).1)
  }

  ghost predicate AllUsed(us: seq<nat>, L: Lengths) {
    forall i :: 0 <= i < |us| ==> Cell(L, us[i]) > 0
  }

  lemma TreeCoversUses(f: seq<nat>, us: seq<nat>, mb: nat, L: Lengths, m: nat)
    requires GoodTree(f, mb, L, m) && Counts(f, us)
    ensures AllUsed(us, L)
  {
    hide KraftSum;
    forall i | 0 <= i < |us| ensures Cell(L, us[i]) > 0 {
      UsedOccurs(us, i);
    }
  }

  lemma StripSame(c: Lengths, n: nat)
    requires C.StripsTo(c, n)
    ensures SameLengths(c, C.Stripped(c, n))
  {
  }

  lemma SameUsed(us: seq<nat>, L: Lengths, M: Lengths)
    requires SameLengths(L, M) && AllUsed(us, L)
    ensures AllUsed(us, M) && Cost(us, M) == Cost(us, L)
    decreases us
  {
    forall i | 0 <= i < |us| ensures Cell(M, us[i]) > 0 {
      SameCell(L, M, us[i]);
    }
    if us != [] {
      SameCell(L, M, us[0]);
      SameUsed(us[1..], L, M);
    }
  }

  /** Codes for all the symbols of a block send all its tokens. */
  lemma {:induction false} UsedCodable(ts: seq<Token>, c: I.Codes)
    requires AllUsed(Letters(ts), c.ll) && AllUsed(Distances(ts), c.dl)
    requires forall t :: t in ts ==> Valid(t)
    ensures AllCodable(ts, c) && 256 < |c.ll| && c.ll[256] > 0
  {
    hide LengthCode, DistCode, Valid;
    if ts != [] {
      ghost var us, ds := Letters(ts), Distances(ts);
      assert us[0] == Letter(ts[0]) && us[1..] == Letters(ts[1..]);
      assert AllUsed(Distances(ts[1..]), c.dl) by {
        assert ds[if ts[0].Match? then 1 else 0..] == Distances(ts[1..]);
      }
      assert AllUsed(us[1..], c.ll);
      UsedCodable(ts[1..], c);
      assert Cell(c.ll, us[0]) > 0;
      if ts[0].Match? {
        assert ds[0] == DistCode(ts[0].dist) && Cell(c.dl, ds[0]) > 0;
      }
      assert Valid(ts[0]) && Codable(ts[0], c);
      forall t | t in ts ensures Valid(t) && Codable(t, c) {
        assert t == ts[0] || t in ts[1..];
      }
    } else {
      assert Letters(ts)[0] == 256;
    }
  }

  /** A stripped code is as good as the whole one. */
  lemma StrippedCode(c: Lengths, m: nat, n: nat)
    requires Kraft(c, m) && C.StripsTo(c, n)
    ensures var s := C.Stripped(c, n);
            Kraft(s, MaxOf(s)) && MaxOf(s) <= m && SameLengths(c, s)
  {
    hide KraftSum;
    var s := C.Stripped(c, n);
    StripSame(c, n);
    forall i | 0 <= i < |s| ensures s[i] <= m {
      SameCell(c, s, i);
    }
    MaxFits(s, m);
    KraftNarrow(c, s, MaxOf(s), m);
  }

  /** The third code, padded to its 19 cells. */
  function Padded(lct: Lengths): Lengths {
    C.Stripped(lct, 19)
  }

  lemma PaddedCode(lct: Lengths, m: nat)
    requires Kraft(lct, m) && |lct| <= 19
    ensures var s := Padded(lct);
            Kraft(s, MaxOf(s)) && MaxOf(s) <= m && SameLengths(lct, s)
  {
    hide KraftSum;
    var s := Padded(lct);
    assert SameLengths(lct, s);
    forall i | 0 <= i < |s| ensures s[i] <= m {
      SameCell(lct, s, i);
    }
    MaxFits(s, m);
    KraftNarrow(lct, s, MaxOf(s), m);
  }

  function PlanOf(dlt: Lengths, nlc: nat, ddt: Lengths, ndc: nat, lct: Lengths, nlcc: nat, ws: seq<nat>): Plan {
    var (ll, dl) := (C.Stripped(dlt, nlc), C.Stripped(ddt, ndc));
    Plan(Padded(lct), nlcc, I.Codes(ll, MaxOf(ll), dl, MaxOf(dl)), ws)
  }

  /** The words of a vector, as `lc` delivers them. */
  ghost predicate WordsOf(ws: seq<nat>, c: Lengths, n: nat) {
    && C.StripsTo(c, n) && (forall i :: 0 <= i < |ws| ==> C.WordOk(ws[i]))
    && ws != [] && C.Sym(ws[0]) != 16 && C.Expand(ws) == C.Stripped(c, n)
  }

  ghost predicate ThirdOk(lct: Lengths, nlcc: nat) {
    4 <= nlcc <= 19 && forall i :: nlcc <= i < 19 ==> Cell(lct, ORDER[i]) == 0
  }

  lemma WordsUsed(ws: seq<nat>, lct: Lengths, m: nat)
    requires Kraft(lct, m) && m <= 7 && |lct| <= 19 && AllUsed(Syms(ws), lct)
    requires forall i :: 0 <= i < |ws| ==> C.WordOk(ws[i])
    ensures WordsCodable(ws, Padded(lct), MaxOf(Padded(lct))) && Cost(Syms(ws), Padded(lct)) == Cost(Syms(ws), lct)
  {
    hide KraftSum, Kraft, MaxOf, C.Sym, C.WordOk, Cost, AllUsed, Cell, Padded, SameLengths, Syms;
    PaddedCode(lct, m);
    SameUsed(Syms(ws), lct, Padded(lct));
    forall w | w in ws ensures C.WordOk(w) && C.Sym(w) < |Padded(lct)| && Padded(lct)[C.Sym(w)] > 0 {
      var i :| 0 <= i < |ws| && ws[i] == w;
      WordUsed(ws, Padded(lct), i);
    }
  }

  lemma WordUsed(ws: seq<nat>, L: Lengths, i: nat)
    requires AllUsed(Syms(ws), L) && i < |ws|
    ensures C.Sym(ws[i]) < |L| && L[C.Sym(ws[i])] > 0
  {
    hide C.Sym, Syms;
    var u := Syms(ws)[i];
    assert u == C.Sym(ws[i]);
    assert Cell(L, u) > 0;
  }

  lemma PlanIsOk(dlt: Lengths, mlb: nat, nlc: nat, ddt: Lengths, mdb: nat, ndc: nat, lct: Lengths, mlcb: nat, nlcc: nat,
                 a: seq<nat>, b: seq<nat>)
    requires Kraft(dlt, mlb) && mlb <= 15 && Kraft(ddt, mdb) && mdb <= 15 && Kraft(lct, mlcb) && mlcb <= 7
    requires 256 < |dlt| <= 288 && dlt[256] > 0 && |ddt| <= 32 && |lct| <= 19
    requires WordsOf(a, dlt, nlc) && WordsOf(b, ddt, ndc) && AllUsed(Syms(a + b), lct) && ThirdOk(lct, nlcc)
    ensures PlanOk(PlanOf(dlt, nlc, ddt, ndc, lct, nlcc, a + b))
  {
    hide KraftSum, MaxOf, C.Sym, C.WordOk, C.Expand, Enc;
    var h := PlanOf(dlt, nlc, ddt, ndc, lct, nlcc, a + b);
    StrippedCode(dlt, mlb, nlc);
    StrippedCode(ddt, mdb, ndc);
    PaddedCode(lct, mlcb);
    WordsUsed(a + b, lct, mlcb);
    ExpandConcat(a, b);
    forall i | 0 <= i < 19 ensures ORDER[i] < 19 && h.clt[ORDER[i]] == Cell(lct, ORDER[i]) {
      OrderPlace(i);
    }
    assert nlc > 256 && h.c.ll[256] == dlt[256];
    assert MaxOf(h.clt) <= 7;
  }

  // ---- preparing a block ---------------------------------------------------------------

  /** `++lcfreq[lclt[i] & 31]` for each word of a vector; there are too few of them to wrap
      a 16-bit cell. */
  method CountWords(lcfreq: array<nat>, ws: seq<nat>, ghost us: seq<nat>)
    requires lcfreq.Length == 19 && Counts(lcfreq[..], us)
    requires forall i :: 0 <= i < |ws| ==> C.Sym(ws[i]) <= 18
    modifies lcfreq
    ensures Counts(lcfreq[..], us + Syms(ws))
  {
    hide C.Sym, Counts;
    assert us + Syms(ws[..0]) == us;
    for i := 0 to |ws|
      invariant Counts(lcfreq[..], us + Syms(ws[..i]))
    {
      var s := C.Sym(ws[i]);
      ghost var was := lcfreq[..];
      CountOne(was, us + Syms(ws[..i]), s);
      lcfreq[s] := lcfreq[s] + 1;
      assert lcfreq[..] == was[s := was[s] + 1];
      assert ws[..i + 1] == ws[..i] + [ws[i]];
      SymsSnoc(ws[..i], ws[i]);
      assert us + Syms(ws[..i]) + [s] == us + (Syms(ws[..i]) + [s]);
    }
    assert ws[..|ws|] == ws;
  }

  lemma CountOne(f: seq<nat>, us: seq<nat>, s: nat)
    requires Counts(f, us) && s < |f|
    ensures Counts(f[s := f[s] + 1], us + [s])
  {
    forall u | 0 <= u < |f| ensures f[s := f[s] + 1][u] == Occurs(us + [s], u) {
      OccursSnoc(us, s, u);
    }
  }

  lemma {:induction false} SymsSnoc(ws: seq<nat>, w: nat)
    ensures Syms(ws + [w]) == Syms(ws) + [C.Sym(w)]
  {
    if ws == [] {
      assert (ws + [w])[1..] == [];
    } else {
      assert (ws + [w])[1..] == ws[1..] + [w];
      SymsSnoc(ws[1..], w);
    }
  }

  lemma {:induction false} SymsConcat(a: seq<nat>, b: seq<nat>)
    ensures Syms(a + b) == Syms(a) + Syms(b)
  {
    if a == [] {
      assert a + b == b;
    } else {
      assert (a + b)[1..] == a[1..] + b;
      SymsConcat(a[1..], b);
    }
  }

  /** The loop that sets `nlcc`. */
  method CountThird(lct: Lengths) returns (nlcc: nat)
    ensures ThirdOk(lct, nlcc)
  {
    nlcc := 19;
    while nlcc > 4 && Cell(lct, ORDER[nlcc - 1]) == 0
      invariant ThirdOk(lct, nlcc)
    {
      nlcc := nlcc - 1;
    }
  }

  /** `lc` on a vector of lengths, with its words taken out. */
  method CodeVector(c: Lengths) returns (ws: seq<nat>, n: nat)
    requires forall i :: 0 <= i < |c| ==> c[i] < 16
    ensures WordsOf(ws, c, n) && |ws| <= n
  {
    var cl, cli;
    cl, cli, n := C.Lc(c);
    ws := cl[..cli];
  }

  /** Everything `wblk` knows about a block before it writes it. */
  datatype Prepared = Prepared(dlt: Lengths, mlb: nat, nlc: nat, lclt: seq<nat>,
                               ddt: Lengths, mdb: nat, ndc: nat, lcdt: seq<nat>,
                               lct: Lengths, mlcb: nat, nlcc: nat, ftlen: nat, dtlen: nat)
  {
    function Plan(): Plan {
      PlanOf(dlt, nlc, ddt, ndc, lct, nlcc, lclt + lcdt)
    }
  }

  lemma {:induction false} FixedCodable(ts: seq<Token>)
    requires forall t :: t in ts ==> Valid(t)
    ensures CodesOk(FixedCodes()) && AllCodable(ts, FixedCodes())
  {
    hide LengthCode, DistCode, KraftSum;
    FixedCodesOk();
    forall t | t in ts ensures Codable(t, FixedCodes()) {
      if t.Match? {
        LengthSplits(t.len);
        DistCodes(t.dist);
      }
    }
  }

  lemma DistCodes(dist: nat)
    ensures DistCode(dist) <= 29
  {
  }

  function FixedWidth(ts: seq<Token>): nat
    requires forall t :: t in ts ==> Valid(t)
  {
    FixedCodable(ts);
    Width(BodyFields(ts, FixedCodes()))
  }

  ghost predicate PreparedOk(x: Prepared, ts: seq<Token>) {
    && Kraft(x.dlt, x.mlb) && x.mlb <= 15 && Kraft(x.ddt, x.mdb) && x.mdb <= 15 && Kraft(x.lct, x.mlcb) && x.mlcb <= 7
    && WordsOf(x.lclt, x.dlt, x.nlc) && WordsOf(x.lcdt, x.ddt, x.ndc) && |x.lct| <= 19
    && PlanOk(x.Plan()) && AllCodable(ts, x.Plan().c)
    && (forall t :: t in ts ==> Valid(t)) && x.ftlen == FixedWidth(ts)
    && x.dtlen == Width(HeaderFields(x.Plan())) + Width(BodyFields(ts, x.Plan().c))
  }

  /** The frequencies of the symbols in the two coded vectors. */
  method CountBoth(lclt: seq<nat>, lcdt: seq<nat>) returns (f: seq<nat>)
    requires forall i :: 0 <= i < |lclt| ==> C.Sym(lclt[i]) <= 18
    requires forall i :: 0 <= i < |lcdt| ==> C.Sym(lcdt[i]) <= 18
    ensures |f| == 19 && Counts(f, Syms(lclt + lcdt))
  {
    hide C.Sym, Counts, Syms;
    var lcfreq := new nat[19](_ => 0);
    NoCounts(lcfreq[..]);
    CountWords(lcfreq, lclt, []);
    CountWords(lcfreq, lcdt, [] + Syms(lclt));
    SymsConcat(lclt, lcdt);
    assert [] + Syms(lclt) + Syms(lcdt) == Syms(lclt + lcdt);
    f := lcfreq[..];
  }

  lemma NoCounts(f: seq<nat>)
    requires forall i :: 0 <= i < |f| ==> f[i] == 0
    ensures Counts(f, [])
  {
  }

  /** `wblk` up to its comparison of sizes: `ftlen` and `dtlen` are the exact numbers of
      bits of the two ways to send the tokens. */
  method Prepare(tree: (seq<nat>, nat) -> (Lengths, nat), lf: seq<nat>, df: seq<nat>, eb: nat, ghost ts: seq<Token>)
      returns (x: Prepared)
    requires GoodTrees(tree) && |lf| == 288 && |df| == 32 && |ts| <= 25000
    requires forall t :: t in ts ==> Valid(t)
    requires Counts(lf, Letters(ts)) && Counts(df, Distances(ts)) && eb == ExtraBits(ts)
    ensures PreparedOk(x, ts)
  {
    hide GoodTree, Counts, WordsOf, ThirdOk, Letters, Distances, ExtraBits, Cost, PreparedOk, C.Sym, Syms, Valid;
    Pow2Mono(7, 15);
    Pow2Values();
    TokenCounts(lf, df, ts);
    var (dlt, mlb) := tree(lf, 15);
    var (ddt, mdb) := tree(df, 15);
    TreeFacts(lf, 15, dlt, mlb);
    TreeFacts(df, 15, ddt, mdb);
    var lclt, nlc := CodeVector(dlt);
    var lcdt, ndc := CodeVector(ddt);
    WordsAreOk(lclt, dlt, nlc);
    WordsAreOk(lcdt, ddt, ndc);
    var lcfreq := CountBoth(lclt, lcdt);
    CountsTotal(lcfreq, Syms(lclt + lcdt));
    var (lct, mlcb) := tree(lcfreq, 7);
    TreeFacts(lcfreq, 7, lct, mlcb);
    var nlcc := CountThird(lct);
    var a := Clen(lf, FixedLengths() , Letters(ts));
    var b := Clen(df, FixedDistances(), Distances(ts));
    var c := Clen(lf, dlt, Letters(ts));
    var d := Clen(df, ddt, Distances(ts));
    var e := Clen(lcfreq, lct, Syms(lclt + lcdt));
    var ftlen := a + b + eb;
    var dtlen := c + d + eb + 14 + 3 * nlcc + e + 2 * lcfreq[16] + 3 * lcfreq[17] + 7 * lcfreq[18];
    x := Prepared(dlt, mlb, nlc, lclt, ddt, mdb, ndc, lcdt, lct, mlcb, nlcc, ftlen, dtlen);
    AllPrepared(x, lf, df, lcfreq, ts);
  }

  /** No more letters than tokens and the end of block, and no more distances than tokens. */
  lemma {:induction false} LettersMany(ts: seq<Token>)
    ensures |Letters(ts)| == |ts| + 1 && |Distances(ts)| <= |ts|
  {
    if ts == [] {
    } else {
      LettersMany(ts[1..]);
    }
  }

  lemma TokenCounts(lf: seq<nat>, df: seq<nat>, ts: seq<Token>)
    requires Counts(lf, Letters(ts)) && Counts(df, Distances(ts)) && |ts| <= 25000
    ensures Total(lf) <= MOST && Total(df) <= MOST
  {
    hide Counts, Letters, Distances, Total;
    LettersMany(ts);
    CountsTotal(lf, Letters(ts));
    CountsTotal(df, Distances(ts));
  }

  lemma TreeFacts(f: seq<nat>, mb: nat, L: Lengths, m: nat)
    requires GoodTree(f, mb, L, m) && mb <= 15
    ensures |L| <= |f| && forall i :: 0 <= i < |L| ==> L[i] < 16
  {
    hide KraftSum;
  }

  lemma TreeKraft(f: seq<nat>, mb: nat, L: Lengths, m: nat)
    requires GoodTree(f, mb, L, m)
    ensures Kraft(L, m) && m <= mb && |L| <= |f|
  {
    hide KraftSum;
  }

  lemma AllPrepared(x: Prepared, lf: seq<nat>, df: seq<nat>, f: seq<nat>, ts: seq<Token>)
    requires |lf| == 288 && |df| == 32 && |f| == 19 && forall t :: t in ts ==> Valid(t)
    requires GoodTree(lf, 15, x.dlt, x.mlb) && GoodTree(df, 15, x.ddt, x.mdb) && GoodTree(f, 7, x.lct, x.mlcb)
    requires Counts(lf, Letters(ts)) && Counts(df, Distances(ts)) && Counts(f, Syms(x.lclt + x.lcdt))
    requires WordsOf(x.lclt, x.dlt, x.nlc) && WordsOf(x.lcdt, x.ddt, x.ndc) && ThirdOk(x.lct, x.nlcc)
    requires x.ftlen == Cost(Letters(ts), FixedLengths()) + Cost(Distances(ts), FixedDistances()) + ExtraBits(ts)
    requires x.dtlen == Cost(Letters(ts), x.dlt) + Cost(Distances(ts), x.ddt) + ExtraBits(ts) + 14 + 3 * x.nlcc
                        + Cost(Syms(x.lclt + x.lcdt), x.lct) + 2 * f[16] + 3 * f[17] + 7 * f[18]
    ensures PreparedOk(x, ts)
  {
    hide KraftSum, Counts, WordsOf, ThirdOk, Letters, Distances, ExtraBits, Cost, Width, PlanOk, PlanOf, MaxOf, Occurs,
         CodesOk, C.Sym, C.Extra, C.ExtraBits, AllUsed, AllCodable, Valid, GoodTree, C.StripsTo, C.WordOk, FixedWidth, Kraft, Syms;
    TreeKraft(lf, 15, x.dlt, x.mlb);
    TreeKraft(df, 15, x.ddt, x.mdb);
    TreeKraft(f, 7, x.lct, x.mlcb);
    TreeCoversUses(lf, Letters(ts), 15, x.dlt, x.mlb);
    TreeCoversUses(df, Distances(ts), 15, x.ddt, x.mdb);
    TreeCoversUses(f, Syms(x.lclt + x.lcdt), 7, x.lct, x.mlcb);
    WordsAreOk(x.lclt, x.dlt, x.nlc);
    WordsAreOk(x.lcdt, x.ddt, x.ndc);
    EndUsed(ts, x.dlt);
    PlanIsOk(x.dlt, x.mlb, x.nlc, x.ddt, x.mdb, x.ndc, x.lct, x.mlcb, x.nlcc, x.lclt, x.lcdt);
    FixedSize(ts);
    DynamicSize(x, ts, f);
  }

  lemma WordsAreOk(ws: seq<nat>, c: Lengths, n: nat)
    requires WordsOf(ws, c, n)
    ensures C.StripsTo(c, n) && (n <= |c| || n == 1) && forall i :: 0 <= i < |ws| ==> C.WordOk(ws[i]) && C.Sym(ws[i]) <= 18
  {
  }

  lemma {:induction false} EndUsed(ts: seq<Token>, L: Lengths)
    requires AllUsed(Letters(ts), L)
    ensures 256 < |L| && L[256] > 0
  {
    var us := Letters(ts);
    if ts == [] {
      assert us[0] == 256;
    } else {
      assert us[1..] == Letters(ts[1..]);
      EndUsed(ts[1..], L);
    }
  }

  lemma FixedSize(ts: seq<Token>)
    requires forall t :: t in ts ==> Valid(t)
    ensures FixedWidth(ts) == Cost(Letters(ts), FixedLengths()) + Cost(Distances(ts), FixedDistances()) + ExtraBits(ts)
  {
    hide Cost, Letters, Distances, ExtraBits, Width, BodyFields, AllCodable, CodesOk, Valid, FixedLengths, FixedDistances;
    FixedCodable(ts);
    BodyWidth(ts, FixedCodes());
  }

  lemma DynamicSize(x: Prepared, ts: seq<Token>, f: seq<nat>)
    requires PlanOk(x.Plan()) && C.StripsTo(x.dlt, x.nlc) && C.StripsTo(x.ddt, x.ndc)
    requires AllUsed(Letters(ts), x.dlt) && AllUsed(Distances(ts), x.ddt) && forall t :: t in ts ==> Valid(t)
    requires |f| == 19 && Counts(f, Syms(x.lclt + x.lcdt))
    requires Kraft(x.lct, x.mlcb) && x.mlcb <= 7 && |x.lct| <= 19 && AllUsed(Syms(x.lclt + x.lcdt), x.lct)
    requires forall i :: 0 <= i < |x.lclt + x.lcdt| ==> C.WordOk((x.lclt + x.lcdt)[i])
    ensures AllCodable(ts, x.Plan().c)
    ensures Width(HeaderFields(x.Plan())) + Width(BodyFields(ts, x.Plan().c))
         == Cost(Letters(ts), x.dlt) + Cost(Distances(ts), x.ddt) + ExtraBits(ts) + 14 + 3 * x.nlcc
          + Cost(Syms(x.lclt + x.lcdt), x.lct) + 2 * f[16] + 3 * f[17] + 7 * f[18]
  {
    hide KraftSum, Letters, Distances, ExtraBits, Cost, Width, MaxOf, Occurs, C.StripsTo, C.Stripped, Kraft, Padded,
         CodesOk, C.Sym, C.WordOk, C.Extra, C.ExtraBits, AllUsed, AllCodable, Valid, HeaderFields, BodyFields, Syms, PlanOk, WordFields;
    var h, ws := x.Plan(), x.lclt + x.lcdt;
    PlanCodes(h);
    StripSame(x.dlt, x.nlc);
    StripSame(x.ddt, x.ndc);
    SameUsed(Letters(ts), x.dlt, h.c.ll);
    SameUsed(Distances(ts), x.ddt, h.c.dl);
    UsedCodable(ts, h.c);
    BodyWidth(ts, h.c);
    HeaderWidth(h);
    WordsUsed(ws, x.lct, x.mlcb);
    WordsWidth(ws, h.clt, MaxOf(h.clt));
  }

  // ---- writing a block -------------------------------------------------------------------

  lemma TablesOf(c: Lengths, m: nat, s: Lengths, lm: seq<nat>)
    requires Kraft(c, m) && SameLengths(c, s) && |lm| == |c| && forall i :: 0 <= i < |c| ==> lm[i] == Enc(c, i)
    ensures Tables(lm, c, s)
  {
    hide Enc, KraftSum;
    forall i | 0 <= i < |s| && s[i] > 0
      ensures i < |c| && c[i] == s[i] <= 15 && lm[i] == Enc(s, i)
    {
      SameCell(c, s, i);
      SameEnc(c, s, i);
    }
  }

  /** `hMap(c, m, 0)` for a code sent as s. */
  method CodeTable(c: Lengths, m: nat, ghost s: Lengths) returns (lm: array<nat>)
    requires Kraft(c, m) && SameLengths(c, s)
    ensures fresh(lm) && Tables(lm[..], c, s)
  {
    hide KraftSum, Enc;
    lm := EncodeTable(c, m);
    TablesOf(c, m, s, lm[..]);
  }

  /** The tokens with the fixed codes. */
  method SendFixed(out: array<byte>, p: nat, syms: seq<nat>, ghost ts: seq<Token>) returns (next: nat)
    requires forall t :: t in ts ==> Valid(t)
    requires |syms| == |ts| && forall i :: 0 <= i < |ts| ==> syms[i] == Pack(ts[i])
    requires LE(out[..]) < Pow2(p) && p + FixedWidth(ts) <= 8 * out.Length
    modifies out
    ensures AllCodable(ts, FixedCodes()) && CodesOk(FixedCodes())
    ensures Wrote(old(out[..]), p, BodyFields(ts, FixedCodes()), out[..], next) && next == p + FixedWidth(ts)
  {
    hide KraftSum, Enc, Width, BodyFields, AllCodable, Valid, Wrote, LE, Pack, FixedLengths, FixedDistances, Tables;
    FixedCodable(ts);
    ghost var d0 := out[..];
    var c := FixedCodes();
    var lm := CodeTable(c.ll, 9, c.ll);
    var dm := CodeTable(c.dl, 5, c.dl);
    next := SendBody(out, p, syms, lm, c.ll, dm, c.dl, ts, c);
    WroteSize(d0, p, BodyFields(ts, c), out[..], next);
  }

  /** The header and the tokens with their own codes. */
  method SendDynamic(out: array<byte>, p: nat, x: Prepared, syms: seq<nat>, ghost ts: seq<Token>) returns (next: nat)
    requires PreparedOk(x, ts)
    requires |syms| == |ts| && forall i :: 0 <= i < |ts| ==> syms[i] == Pack(ts[i])
    requires LE(out[..]) < Pow2(p) && p + x.dtlen <= 8 * out.Length
    modifies out
    ensures Wrote(old(out[..]), p, HeaderFields(x.Plan()) + BodyFields(ts, x.Plan().c), out[..], next)
    ensures next == p + x.dtlen
  {
    hide KraftSum, Enc, Width, BodyFields, HeaderFields, AllCodable, Valid, Wrote, LE, Pack, Tables, PlanOk, MaxOf,
         CodesOk, C.Expand, C.Sym, C.WordOk, FixedWidth;
    ghost var h, d0 := x.Plan(), out[..];
    PlanCodes(h);
    StripSame(x.dlt, x.nlc);
    StripSame(x.ddt, x.ndc);
    var llm := CodeTable(x.lct, x.mlcb, h.clt) by { PaddedCode(x.lct, x.mlcb); }
    next := SendHeader(out, p, x.nlc, x.ndc, x.nlcc, x.lct, llm, x.lclt, x.lcdt, h);
    ghost var d1, p1 := out[..], next;
    WroteSize(d0, p, HeaderFields(h), d1, p1);
    var lm := CodeTable(x.dlt, x.mlb, h.c.ll);
    var dm := CodeTable(x.ddt, x.mdb, h.c.dl);
    next := SendBody(out, next, syms, lm, x.dlt, dm, x.ddt, ts, h.c);
    WroteSize(d1, p1, BodyFields(ts, h.c), out[..], next);
    WroteMore(d0, p, HeaderFields(h), d1, p1, BodyFields(ts, h.c), out[..], next);
  }

  /** Where the block stands in its input, when it can be stored: the bytes the tokens stand
      for. A block longer than 65535 bytes must not look cheapest stored. */
  ghost predicate StoredOk(dat: seq<byte>, bs: int, bl: nat, ts: seq<Token>, out0: seq<byte>)
    requires AllValid(|out0|, ts) && forall t :: t in ts ==> Valid(t)
  {
    bs >= 0 ==>
      && bs + bl <= |dat| && Unzip(out0, ts) == out0 + dat[bs..bs + bl]
      && (bl < 65536 || FixedWidth(ts) < 8 * (bl + 5))
  }

  /** The rest of `wblk`, behind the final bit: the cheapest form is chosen and written. */
  method SendForm(x: Prepared, dat: seq<byte>, out: array<byte>, syms: seq<nat>, bs: int, bl: nat, p: nat,
                  ghost ts: seq<Token>, ghost out0: seq<byte>) returns (next: nat, ghost b: Block)
    requires PreparedOk(x, ts)
    requires |ts| <= 25000 && AllValid(|out0|, ts) && forall t :: t in ts ==> Valid(t)
    requires |syms| == |ts| && forall i :: 0 <= i < |ts| ==> syms[i] == Pack(ts[i])
    requires StoredOk(dat, bs, bl, ts, out0)
    requires LE(out[..]) < Pow2(p) && p + 2 + FixedWidth(ts) <= 8 * out.Length
    modifies out
    ensures Sendable(b, |out0|) && Content(out0, b) == Unzip(out0, ts)
    ensures Wrote(old(out[..]), p, [Field(KindOf(b), 2)] + InnerFields(b, |out0|, p + 2), out[..], next)
    ensures next <= p + 2 + FixedWidth(ts)
  {
    hide KraftSum, Width, Shl, LE, Wrote, BodyFields, HeaderFields, AllCodable, AllValid, Valid, PreparedOk, Pack, Counts,
         Unzip, FixedWidth, StoredHead, ByteFields, PlanOk, Shft, CodesOk, InnerFields;
    ghost var d0 := out[..];
    PreparedSizes(x, ts);
    var flen := 8 * (bl + 5);
    if bs >= 0 && flen <= x.ftlen && flen <= x.dtlen {
      b := Stored(dat[bs..bs + bl]);
      StoredEnd(p + 2, bl);
      next := WfBlk(out, p, dat[bs..bs + bl]);
      assert InnerFields(b, |out0|, p + 2) == StoredHead(bl, p + 2) + ByteFields(dat[bs..bs + bl]) by { InnerForms(b, |out0|, p + 2); }
    } else {
      var dynamic := x.dtlen < x.ftlen;
      ghost var kind := [Field(if dynamic then 2 else 1, 2)];
      Pow2Values();
      OneField(kind[0]);
      next := SendShort(out, p, if dynamic then 2 else 1, 2);
      ghost var d1, p1 := out[..], next;
      WroteSize(d0, p, kind, d1, p1);
      if dynamic {
        b := Dynamic(x.Plan(), ts);
        next := SendDynamic(out, next, x, syms, ts);
      } else {
        b := Fixed(ts);
        next := SendFixed(out, next, syms, ts);
      }
      InnerForms(b, |out0|, p + 2);
      WroteSize(d1, p1, InnerFields(b, |out0|, p + 2), out[..], next);
      WroteMore(d0, p, kind, d1, p1, InnerFields(b, |out0|, p + 2), out[..], next);
    }
  }

  lemma InnerForms(b: Block, n: nat, p: nat)
    requires Sendable(b, n)
    ensures CodesOk(FixedCodes())
    ensures b.Stored? ==> InnerFields(b, n, p) == StoredHead(|b.data|, p) + ByteFields(b.data)
    ensures b.Fixed? ==> InnerFields(b, n, p) == BodyFields(b.ts, FixedCodes())
    ensures b.Dynamic? ==> InnerFields(b, n, p) == HeaderFields(b.h) + BodyFields(b.ts, b.h.c)
  {
    hide KraftSum, BodyFields, HeaderFields, AllCodable, AllValid, StoredHead, ByteFields, PlanOk;
    FixedCodesOk();
  }

  /** `wblk`: one block is written, it stands for exactly what the tokens stand for, and
      it takes no more room than the fixed form. */
  method WBlk(tree: (seq<nat>, nat) -> (Lengths, nat), dat: seq<byte>, out: array<byte>, final: bool, syms: seq<nat>,
              lf: array<nat>, df: array<nat>, eb: nat, bs: int, bl: nat, p: nat,
              ghost ts: seq<Token>, ghost out0: seq<byte>) returns (next: nat, ghost b: Block)
    requires GoodTrees(tree) && lf.Length == 288 && df.Length == 32 && lf != df
    requires |ts| <= 25000 && AllValid(|out0|, ts) && forall t :: t in ts ==> Valid(t)
    requires |syms| == |ts| && forall i :: 0 <= i < |ts| ==> syms[i] == Pack(ts[i])
    requires Counts(lf[..][256 := lf[256] + 1], Letters(ts)) && Counts(df[..], Distances(ts)) && eb == ExtraBits(ts)
    requires StoredOk(dat, bs, bl, ts, out0)
    requires out != lf as object && out != df as object
    requires LE(out[..]) < Pow2(p) && p + 3 + FixedWidth(ts) <= 8 * out.Length
    modifies out, lf
    ensures lf[..] == old(lf[..][256 := lf[256] + 1])
    ensures Sendable(b, |out0|) && Content(out0, b) == Unzip(out0, ts)
    ensures Wrote(old(out[..]), p, BlockFields(b, |out0|, final, p), out[..], next)
    ensures next <= p + 3 + FixedWidth(ts)
  {
    hide KraftSum, Width, Shl, LE, Wrote, AllValid, Valid, PreparedOk, Pack, Counts, StoredOk, Sendable, Content,
         Letters, Distances, ExtraBits, Unzip, FixedWidth, InnerFields, BlockFields;
    ghost var d0, head := out[..], [Field(Bit(final), 1)];
    OneField(head[0]);
    Pow2Values();
    var p1 := SendShort(out, p, Bit(final), 1);
    ghost var d1 := out[..];
    WroteSize(d0, p, head, d1, p1);
    lf[256] := lf[256] + 1;
    var x := Prepare(tree, lf[..], df[..], eb, ts);
    next, b := SendForm(x, dat, out, syms, bs, bl, p1, ts, out0);
    SplitBlock(b, |out0|, final, p);
    WroteMore(d0, p, head, d1, p1, [Field(KindOf(b), 2)] + InnerFields(b, |out0|, p + 3), out[..], next);
  }

  lemma PreparedSizes(x: Prepared, ts: seq<Token>)
    requires PreparedOk(x, ts) && forall t :: t in ts ==> Valid(t)
    ensures x.ftlen == FixedWidth(ts) && PlanOk(x.Plan()) && AllCodable(ts, x.Plan().c)
    ensures CodesOk(x.Plan().c)
    ensures x.dtlen == Width(HeaderFields(x.Plan())) + Width(BodyFields(ts, x.Plan().c))
  {
    hide KraftSum, Width, BodyFields, HeaderFields, Valid, FixedWidth;
  }

  lemma StoredEnd(p: nat, n: nat)
    ensures 8 * (Shft(p) + 4 + n) <= p + 8 * (n + 5)
  {
  }
}
