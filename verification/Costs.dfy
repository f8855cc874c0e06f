/** The sizes `wblk` compares before it chooses how to send a block: they are exact. */
module Costs {
  import opened Words
  import opened Huffman
  import opened Fields
  import opened Tokens
  import opened Blocks
  import opened Header
  import opened Stream
  import I = Inflate
  import C = CodeLengths

  function Occurs(us: seq<nat>, s: nat): nat {
    if us == [] then 0 else (if us[0] == s then 1 else 0) + Occurs(us[1..], s)
  }

  /** The table f holds how often each symbol is used. */
  ghost predicate Counts(f: seq<nat>, us: seq<nat>) {
    && (forall i :: 0 <= i < |us| ==> us[i] < |f|)
    && forall s :: 0 <= s < |f| ==> f[s] == Occurs(us, s)
  }

  function Total(f: seq<nat>): nat {
    if f == [] then 0 else Total(f[..|f| - 1]) + f[|f| - 1]
  }

  /** How many uses there are of symbols below n. */
  function Below(us: seq<nat>, n: nat): nat {
    if us == [] then 0 else (if us[0] < n then 1 else 0) + Below(us[1..], n)
  }

  lemma {:induction false} BelowMore(us: seq<nat>, n: nat)
    ensures Below(us, n + 1) == Below(us, n) + Occurs(us, n) && Below(us, 0) == 0
  {
    if us == [] {
    } else {
      BelowMore(us[1..], n);
    }
  }

  lemma {:induction false} BelowAll(us: seq<nat>, n: nat)
    requires forall i :: 0 <= i < |us| ==> us[i] < n
    ensures Below(us, n) == |us|
  {
    if us == [] {
    } else {
      BelowAll(us[1..], n);
    }
  }

  lemma {:induction false} TotalBelow(f: seq<nat>, us: seq<nat>, n: nat)
    requires Counts(f, us) && n <= |f|
    ensures Total(f[..n]) == Below(us, n)
  {
    if n == 0 {
      BelowMore(us, 0);
    } else {
      TotalBelow(f, us, n - 1);
      BelowMore(us, n - 1);
      assert f[..n][..n - 1] == f[..n - 1];
    }
  }

  /** The counts add up to the number of uses. */
  lemma CountsTotal(f: seq<nat>, us: seq<nat>)
    requires Counts(f, us)
    ensures Total(f) == |us|
  {
    TotalBelow(f, us, |f|);
    BelowAll(us, |f|);
    assert f[..|f|] == f;
  }

  lemma {:induction false} UsedOccurs(us: seq<nat>, i: nat)
    requires i < |us|
    ensures Occurs(us, us[i]) > 0
  {
    if i == 0 {
    } else {
      UsedOccurs(us[1..], i - 1);
    }
  }

  lemma {:induction false} OccursSnoc(us: seq<nat>, u: nat, s: nat)
    ensures Occurs(us + [u], s) == Occurs(us, s) + if u == s then 1 else 0
  {
    if us != [] {
      assert (us + [u])[1..] == us[1..] + [u];
      OccursSnoc(us[1..], u, s);
    } else {
      assert [u][1..] == [];
    }
  }

  /** How many bits the symbols take. */
  function Cost(us: seq<nat>, lens: Lengths): nat {
    if us == [] then 0 else Cell(lens, us[0]) + Cost(us[1..], lens)
  }

  /** What `clen` adds up. */
  function Weighed(us: seq<nat>, cl: Lengths, k: nat): nat
    requires k <= |cl|
  {
    if k == 0 then 0 else Weighed(us, cl, k - 1) + Occurs(us, k - 1) * cl[k - 1]
  }

  lemma {:induction false} WeighedStep(us: seq<nat>, cl: Lengths, k: nat)
    requires us != [] && k <= |cl|
    ensures Weighed(us, cl, k) == Weighed(us[1..], cl, k) + if us[0] < k then cl[us[0]] else 0
  {
    if k == 0 {
    } else {
      WeighedStep(us, cl, k - 1);
      var n, x := Occurs(us[1..], k - 1), cl[k - 1];
      assert (n + 1) * x == n * x + x;
    }
  }

  lemma {:induction false} WeighedNothing(cl: Lengths, k: nat)
    requires k <= |cl|
    ensures Weighed([], cl, k) == 0
  {
    if k == 0 {
    } else {
      WeighedNothing(cl, k - 1);
    }
  }

  lemma {:induction false} WeighedIsCost(us: seq<nat>, cl: Lengths)
    ensures Weighed(us, cl, |cl|) == Cost(us, cl)
  {
    if us == [] {
      WeighedNothing(cl, |cl|);
    } else {
      WeighedStep(us, cl, |cl|);
      WeighedIsCost(us[1..], cl);
    }
  }

  /** `clen(cf, cl)` is the number of bits the counted symbols take. */
  method Clen(cf: seq<nat>, cl: Lengths, ghost us: seq<nat>) returns (l: nat)
    requires Counts(cf, us) && |cl| <= |cf|
    ensures l == Cost(us, cl)
  {
    l := 0;
    for i := 0 to |cl|
      invariant l == Weighed(us, cl, i)
    {
      l := l + cf[i] * cl[i];
    }
    WeighedIsCost(us, cl);
  }

  // ---- the symbols of a block ----------------------------------------------------

  function Letter(t: Token): nat {
    match t
    case Literal(b) => b
    case Match(len, _) => 257 + LengthCode(len)
  }

  /** The literal and length symbols of a block, with the end of block. */
  function Letters(ts: seq<Token>): seq<nat> {
    if ts == [] then [256] else [Letter(ts[0])] + Letters(ts[1..])
  }

  function Distances(ts: seq<Token>): seq<nat> {
    if ts == [] then []
    else (if ts[0].Match? then [DistCode(ts[0].dist)] else []) + Distances(ts[1..])
  }

  function TokenExtra(t: Token): nat {
    match t
    case Literal(_) => 0
    case Match(len, dist) => LengthExtra(LengthCode(len)) + DistExtra(DistCode(dist))
  }

  function ExtraBits(ts: seq<Token>): nat {
    if ts == [] then 0 else TokenExtra(ts[0]) + ExtraBits(ts[1..])
  }

  lemma TokenWidth(t: Token, c: I.Codes)
    requires CodesOk(c) && Valid(t) && Codable(t, c)
    ensures Width(TokenFields(t, c))
         == Cell(c.ll, Letter(t)) + (if t.Match? then Cell(c.dl, DistCode(t.dist)) else 0) + TokenExtra(t)
  {
    hide Enc, KraftSum, LengthCode, DistCode, LengthBase, DistBase, LengthExtra, DistExtra, Width;
    var fs := TokenFields(t, c);
    EmptyWidth();
    if t.Literal? {
      OneField(fs[0]);
    } else {
      FieldWidths(fs[0], fs[1], [fs[2], fs[3]]);
      FieldWidths(fs[2], fs[3], []);
      assert [fs[2], fs[3]] + [] == [fs[2], fs[3]] && [fs[0], fs[1]] + [fs[2], fs[3]] == fs;
      LengthSplits(t.len);
      DistSplits(t.dist);
    }
  }

  /** The exact size of a block of tokens: what `clen(lf, ll) + clen(df, dl) + eb` adds up. */
  lemma {:induction false} BodyWidth(ts: seq<Token>, c: I.Codes)
    requires CodesOk(c) && AllCodable(ts, c)
    ensures Width(BodyFields(ts, c)) == Cost(Letters(ts), c.ll) + Cost(Distances(ts), c.dl) + ExtraBits(ts)
  {
    hide KraftSum, Width, TokenFields, Letter, TokenExtra, DistCode, Codable, Valid;
    if ts == [] {
      OneField(Symbol(c.ll, 256));
      CostOne(256, c.ll);
    } else {
      assert ts[0] in ts;
      BodyWidth(ts[1..], c);
      TokenWidth(ts[0], c);
      WidthConcat(TokenFields(ts[0], c), BodyFields(ts[1..], c));
      LettersStep(ts, c.ll);
      DistancesStep(ts, c.dl);
    }
  }

  lemma CostOne(u: nat, lens: Lengths)
    ensures Cost([u], lens) == Cell(lens, u)
  {
    assert [u][1..] == [];
  }

  lemma LettersStep(ts: seq<Token>, lens: Lengths)
    requires ts != []
    ensures Cost(Letters(ts), lens) == Cell(lens, Letter(ts[0])) + Cost(Letters(ts[1..]), lens)
  {
    assert Letters(ts)[1..] == Letters(ts[1..]);
  }

  lemma DistancesStep(ts: seq<Token>, lens: Lengths)
    requires ts != []
    ensures Cost(Distances(ts), lens)
         == (if ts[0].Match? then Cell(lens, DistCode(ts[0].dist)) else 0) + Cost(Distances(ts[1..]), lens)
  {
    hide DistCode;
    if ts[0].Match? {
      assert Distances(ts)[1..] == Distances(ts[1..]);
    } else {
      assert Distances(ts) == Distances(ts[1..]);
    }
  }

  // ---- the words of a header -------------------------------------------------------

  function Syms(ws: seq<nat>): (us: seq<nat>)
    ensures |us| == |ws|
    ensures forall i :: 0 <= i < |us| ==> us[i] == C.Sym(ws[i])
  {
    if ws == [] then [] else [C.Sym(ws[0])] + Syms(ws[1..])
  }

  /** The exact size of the coded lengths: what `clen(lcfreq, lct)` and the extra bits of
      symbols 16, 17 and 18 add up. */
  lemma {:induction false} WordsWidth(ws: seq<nat>, clt: Lengths, clb: nat)
    requires WordsCodable(ws, clt, clb)
    ensures Width(WordFields(ws, clt))
         == Cost(Syms(ws), clt) + 2 * Occurs(Syms(ws), 16) + 3 * Occurs(Syms(ws), 17) + 7 * Occurs(Syms(ws), 18)
  {
    hide KraftSum, Width, Enc, C.Sym;
    if ws == [] {
      EmptyWidth();
    } else {
      var w, us := ws[0], Syms(ws);
      assert w in ws && C.WordOk(w) && C.Sym(w) < |clt| && clt[C.Sym(w)] > 0;
      assert forall x :: x in ws[1..] ==> x in ws;
      WordsWidth(ws[1..], clt, clb);
      assert us[1..] == Syms(ws[1..]);
      FieldWidths(Symbol(clt, C.Sym(w)), Field(C.Extra(w), C.ExtraBits(w)), WordFields(ws[1..], clt));
    }
  }
}
