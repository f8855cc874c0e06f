/** What the block writer sends for a list of tokens, and that the symbol loop turns it
    back into their LZ77 expansion. */
module Blocks {
  import opened Words
  import opened Huffman
  import opened BitStream
  import opened Fields
  import opened Tokens
  import opened Inflate

  // ---- codes and fields -------------------------------------------------------

  /** Two prefix codes that can send an end of block. */
  ghost predicate CodesOk(c: Codes) {
    && CodesFitTables(c) && Kraft(c.ll, c.lb) && Kraft(c.dl, c.db)
    && |c.ll| > 256 && c.ll[256] > 0
  }

  /** Every symbol a token needs has a code. */
  predicate Codable(t: Token, c: Codes) {
    match t
    case Literal(b) => b < |c.ll| && c.ll[b] > 0
    case Match(len, dist) =>
      && 257 + LengthCode(len) < |c.ll| && c.ll[257 + LengthCode(len)] > 0
      && DistCode(dist) < |c.dl| && c.dl[DistCode(dist)] > 0
  }

  predicate AllCodable(ts: seq<Token>, c: Codes) {
    forall t :: t in ts ==> Valid(t) && Codable(t, c)
  }

  function Symbol(lens: Lengths, sym: nat): Field
    requires sym < |lens| && lens[sym] <= 15
  {
    Field(Enc(lens, sym), lens[sym])
  }

  /** What is sent behind the symbol of a length, and of a distance. */
  function LengthField(len: nat): Field
    requires 3 <= len <= 258
  {
    LengthSplits(len);
    Field(len - LengthBase(LengthCode(len)), LengthExtra(LengthCode(len)))
  }

  function DistField(dist: nat): Field
    requires 1 <= dist <= 32768
  {
    DistSplits(dist);
    Field(dist - DistBase(DistCode(dist)), DistExtra(DistCode(dist)))
  }

  function TokenFields(t: Token, c: Codes): seq<Field>
    requires CodesFitTables(c) && Valid(t) && Codable(t, c)
  {
    match t
    case Literal(b) => [Symbol(c.ll, b)]
    case Match(len, dist) =>
      [Symbol(c.ll, 257 + LengthCode(len)), LengthField(len), Symbol(c.dl, DistCode(dist)), DistField(dist)]
  }

  function BodyFields(ts: seq<Token>, c: Codes): seq<Field>
    requires CodesOk(c) && AllCodable(ts, c)
  {
    if ts == [] then [Symbol(c.ll, 256)] else TokenFields(ts[0], c) + BodyFields(ts[1..], c)
  }

  lemma SymbolSound(lens: Lengths, mb: nat, sym: nat)
    requires Kraft(lens, mb) && sym < |lens| && lens[sym] > 0
    ensures Symbol(lens, sym).value < Pow2(lens[sym])
  {
    EncExact(lens, mb, sym);
  }

  lemma TokenSound(t: Token, c: Codes)
    requires CodesOk(c) && Valid(t) && Codable(t, c)
    ensures Sound(TokenFields(t, c))
  {
    hide Enc, LengthCode, DistCode, LengthBase, DistBase, Shl, Kraft;
    if t.Literal? {
      SymbolSound(c.ll, c.lb, t.b);
    } else {
      LengthSplits(t.len);
      DistSplits(t.dist);
      SymbolSound(c.ll, c.lb, 257 + LengthCode(t.len));
      SymbolSound(c.dl, c.db, DistCode(t.dist));
    }
  }

  lemma {:induction false} BodySound(ts: seq<Token>, c: Codes)
    requires CodesOk(c) && AllCodable(ts, c)
    ensures Sound(BodyFields(ts, c))
  {
    hide CodesOk, TokenFields, Symbol;
    if ts == [] {
      EndSound(c);
    } else {
      assert ts[0] in ts;
      TokenSound(ts[0], c);
      BodySound(ts[1..], c);
    }
  }

  lemma EndSound(c: Codes)
    requires CodesOk(c)
    ensures Sound([Symbol(c.ll, 256)])
  {
    SymbolSound(c.ll, c.lb, 256);
  }

  // ---- reading one symbol, one extra field ----------------------------------------

  /** The bits of dat at pos begin with these fields, all inside dat. */
  ghost predicate Holds(dat: seq<byte>, pos: nat, fs: seq<Field>) {
    StartsWith(Shr(LE(dat), pos), fs) && pos + Width(fs) <= 8 * |dat|
  }

  lemma HoldsNext(dat: seq<byte>, pos: nat, f: Field, rest: seq<Field>)
    requires f.value < Pow2(f.width) && f.width <= 16 && Holds(dat, pos, [f] + rest)
    ensures Low(Shr(LE(dat), pos), f.width) == f.value
    ensures Holds(dat, pos + f.width, rest)
  {
    hide Low, Shr, StartsWith;
    StartsField(Shr(LE(dat), pos), f, rest);
    ShrShr(LE(dat), pos, f.width);
    WidthConcat([f], rest);
    OneField(f);
  }

  lemma HoldsConcat(dat: seq<byte>, pos: nat, a: seq<Field>, b: seq<Field>)
    requires Sound(a) && Holds(dat, pos, a + b)
    ensures Holds(dat, pos, a) && Holds(dat, pos + Width(a), b)
  {
    hide Low, Shr, StartsWith;
    StartsConcat(Shr(LE(dat), pos), a, b);
    ShrShr(LE(dat), pos, Width(a));
    WidthConcat(a, b);
  }

  /** A sent symbol is looked up again from the bits that follow it or not. */
  lemma LookFinds(dat: seq<byte>, pos: nat, lens: Lengths, mb: nat, sym: nat, rest: seq<Field>)
    requires Kraft(lens, mb) && sym < |lens| && lens[sym] > 0
    requires Holds(dat, pos, [Symbol(lens, sym)] + rest)
    ensures Look(dat, pos, lens, mb) == Packed(lens, sym)
    ensures Holds(dat, pos + lens[sym], rest)
  {
    hide Low, Shr, StartsWith, Entry, Enc, Holds;
    SymbolSound(lens, mb, sym);
    HoldsNext(dat, pos, Symbol(lens, sym), rest);
    var z := Shr(LE(dat), pos);
    var w := Low(Bits16(dat, pos), mb);
    Bits16Reads(dat, pos, mb);
    LowLow(z, mb, lens[sym]);
    Split(z, mb);
    TablesAgree(lens, mb, w);
  }

  // ---- the output buffer -----------------------------------------------------------

  /** Nothing has been written past the write position. */
  ghost predicate Clean(o: Out) {
    forall i :: o.bt <= i < |o.buf| ==> o.buf[i] == 0
  }

  /** The bytes before the write position, were the buffer long enough: a byte lost past
      its end is a zero once the buffer grows. */
  function Prefix(o: Out): (r: seq<byte>)
    ensures |r| == o.bt
  {
    if o.bt <= |o.buf| then o.buf[..o.bt] else o.buf + seq(o.bt - |o.buf|, _ => 0 as byte)
  }

  lemma StoreAppends(o: Out, x: byte)
    requires Clean(o)
    ensures Clean(Store(o, x))
    ensures Prefix(Store(o, x)) == Prefix(o) + [if o.bt < |o.buf| then x else 0]
  {
  }

  lemma StoreSize(o: Out, x: byte)
    ensures Store(o, x).bt == o.bt + 1 && |Store(o, x).buf| == |o.buf|
  {
  }

  lemma ReserveKeeps(o: Out, n: nat)
    requires Clean(o)
    ensures Clean(Reserve(o, n)) && Prefix(Reserve(o, n)) == Prefix(o)
    ensures n <= |Reserve(o, n).buf|
  {
    if o.bt > |Reserve(o, n).buf| {
      assert Prefix(Reserve(o, n)) == Prefix(o);
    }
  }

  /** In a buffer with room, the byte loop of a match appends the LZ77 copy. */
  lemma {:induction false} CopyAppends(o: Out, n: nat, dist: nat)
    requires Clean(o) && 1 <= dist <= o.bt && o.bt + n <= |o.buf|
    ensures var r := CopyBytes(o, n, dist, true);
            Clean(r) && Prefix(r) == Copied(Prefix(o), n, dist) && r.bt == o.bt + n && |r.buf| == |o.buf|
    decreases n
  {
    hide Clean, Prefix, Source, Copied, CopyBytes, Store;
    CopySteps(o, n, dist);
    if n == 0 {
    } else {
      var x := Source(o, dist, true);
      StoreAppends(o, x);
      StoreSize(o, x);
      CopyAppends(Store(o, x), n - 1, dist);
    }
  }

  lemma CopySteps(o: Out, n: nat, dist: nat)
    requires 1 <= dist <= o.bt && o.bt + n <= |o.buf|
    ensures var x := Source(o, dist, true);
            && CopyBytes(o, n, dist, true) == (if n == 0 then o else CopyBytes(Store(o, x), n - 1, dist, true))
            && Copied(Prefix(o), n, dist) == (if n == 0 then Prefix(o) else Copied(Prefix(o) + [x], n - 1, dist))
            && Store(o, x).bt == o.bt + 1
  {
  }

  // ---- the block round trip -----------------------------------------------------

  /** The size `cbuf(n)` leaves. */
  function Grown(size: nat, n: nat): nat {
    if n <= size then size else if 2 * size > n then 2 * size else n
  }

  /** No byte is lost: each literal falls inside the buffer or is a zero that growing the
      buffer puts back, and the buffer reaches the end. Only a match asks for room. */
  predicate Kept(ts: seq<Token>, size: nat, bt: nat)
    decreases |ts|
  {
    if ts == [] then bt <= size
    else if ts[0].Literal? then (bt < size || ts[0].b == 0) && Kept(ts[1..], size, bt + 1)
    else Kept(ts[1..], Grown(size, bt + ROOM), bt + ts[0].len)
  }

  /** The two fields of a distance decode to a copy from that distance. */
  lemma DistanceDecodes(dat: seq<byte>, c: Codes, o: Out, pos: nat, len: nat, dist: nat, rest: seq<Field>)
    requires CodesOk(c) && 1 <= dist <= 32768 && DistCode(dist) < |c.dl| && c.dl[DistCode(dist)] > 0
    requires DistBase(DistCode(dist)) <= dist <= o.bt
    requires var dc := DistCode(dist);
             Holds(dat, pos, [Symbol(c.dl, dc), Field(dist - DistBase(dc), DistExtra(dc))] + rest)
    ensures var pos' := pos + c.dl[DistCode(dist)] + DistExtra(DistCode(dist));
            && Holds(dat, pos', rest)
            && CopyMatch(dat, c, o, pos, len) == Done(CopyBytes(Reserve(o, o.bt + ROOM), len, dist, true), pos')
  {
    hide Holds, KraftSum, Enc, Bits16, Look, DistCode, DistBase, CopyBytes, Reserve, Shr, Low, Shl;
    var dc := DistCode(dist);
    var dx := Field(dist - DistBase(dc), DistExtra(dc));
    DistSplits(dist);
    assert [Symbol(c.dl, dc), dx] + rest == [Symbol(c.dl, dc)] + ([dx] + rest);
    LookFinds(dat, pos, c.dl, c.db, dc, [dx] + rest);
    var pos1 := pos + c.dl[dc];
    HoldsNext(dat, pos1, dx, rest);
    Bits16Reads(dat, pos1, dx.width);
    InBounds(dat, pos1 + dx.width, rest);
  }

  lemma InBounds(dat: seq<byte>, pos: nat, fs: seq<Field>)
    requires Holds(dat, pos, fs)
    ensures pos <= 8 * |dat|
  {
  }

  /** The two fields of a length decode to that length. */
  lemma LengthDecodes(dat: seq<byte>, c: Codes, pos: nat, len: nat, rest: seq<Field>)
    requires CodesOk(c) && 3 <= len <= 258 && 257 + LengthCode(len) < |c.ll| && c.ll[257 + LengthCode(len)] > 0
    requires LengthBase(LengthCode(len)) <= len
    requires var lc := LengthCode(len);
             Holds(dat, pos, [Symbol(c.ll, 257 + lc), Field(len - LengthBase(lc), LengthExtra(lc))] + rest)
    ensures var lc := LengthCode(len); var pos1 := pos + c.ll[257 + lc];
            && Holds(dat, pos1 + LengthExtra(lc), rest) && pos1 <= 8 * |dat|
            && Look(dat, pos, c.ll, c.lb) == Packed(c.ll, 257 + lc)
            && LengthAt(dat, pos1, 257 + lc) == len
  {
    hide Holds, Kraft, Enc, Bits, Look, LengthCode, Shr, Low, Shl;
    var lc := LengthCode(len);
    var lx := Field(len - LengthBase(lc), LengthExtra(lc));
    LengthSplits(len);
    assert [Symbol(c.ll, 257 + lc), lx] + rest == [Symbol(c.ll, 257 + lc)] + ([lx] + rest);
    LookFinds(dat, pos, c.ll, c.lb, 257 + lc, [lx] + rest);
    var pos1 := pos + c.ll[257 + lc];
    InBounds(dat, pos1, [lx] + rest);
    HoldsNext(dat, pos1, lx, rest);
    BitsReads(dat, pos1, lx.width);
    if lc <= 7 {
      ShortLength(lc);
    }
  }

  /** The first eight length codes have consecutive bases and no extra bits. */
  lemma ShortLength(lc: nat)
    requires lc <= 7
    ensures LengthBase(lc) == lc + 3 && Pow2(LengthExtra(lc)) == 1
  {
    ShortBase(lc);
  }

  lemma {:induction false} ShortBase(i: nat)
    requires i <= 7
    ensures Base(LengthTable(), 2, i) == i + 3
  {
    if i == 0 {
    } else {
      ShortBase(i - 1);
    }
  }

  lemma SymbolsMatch(dat: seq<byte>, c: Codes, o: Out, pos: nat, sym: nat, o': Out, pos': nat)
    requires CodesFitTables(c) && 257 <= sym < |c.ll| && c.ll[sym] > 0
    requires Look(dat, pos, c.ll, c.lb) == Packed(c.ll, sym) && pos + c.ll[sym] <= 8 * |dat|
    requires CopyMatch(dat, c, o, pos + c.ll[sym] + (if sym > 264 then LengthExtra(sym - 257) else 0),
                       LengthAt(dat, pos + c.ll[sym], sym)) == Done(o', pos')
    ensures Symbols(dat, c, o, pos) == Symbols(dat, c, o', pos')
  {
    hide CopyMatch, Look, LengthAt, LengthExtra;
    assert Packed(c.ll, sym) % 16 == c.ll[sym] && Packed(c.ll, sym) / 16 == sym;
  }

  lemma FieldWidths(a: Field, b: Field, rest: seq<Field>)
    ensures Width([a, b] + rest) == a.width + b.width + Width(rest)
  {
    var fs := [a, b] + rest;
    assert fs[1..] == [b] + rest && fs[1..][1..] == rest;
  }

  /** One match of a block: the symbol loop performs the copy and goes on behind it. */
  lemma MatchDecodes(dat: seq<byte>, c: Codes, o: Out, pos: nat, len: nat, dist: nat, rest: seq<Field>)
    requires CodesOk(c) && Valid(Match(len, dist)) && Codable(Match(len, dist), c)
    requires dist <= o.bt && Clean(o)
    requires Holds(dat, pos, TokenFields(Match(len, dist), c) + rest)
    ensures var pos' := pos + Width(TokenFields(Match(len, dist), c));
            var o' := CopyBytes(Reserve(o, o.bt + ROOM), len, dist, true);
            && Holds(dat, pos', rest)
            && Symbols(dat, c, o, pos) == Symbols(dat, c, o', pos')
            && Clean(o') && Prefix(o') == Copied(Prefix(o), len, dist)
            && o'.bt == o.bt + len && |o'.buf| == Grown(|o.buf|, o.bt + ROOM)
  {
    hide Holds, Kraft, Enc, Look, LengthCode, DistCode, LengthBase, DistBase, Width, CopyBytes, CopyMatch, Clean, Prefix,
         Symbols, Copied, LengthAt;
    LengthSplits(len);
    DistSplits(dist);
    var lc, dc := LengthCode(len), DistCode(dist);
    var lf := [Symbol(c.ll, 257 + lc), Field(len - LengthBase(lc), LengthExtra(lc))];
    var df := [Symbol(c.dl, dc), Field(dist - DistBase(dc), DistExtra(dc))];
    assert TokenFields(Match(len, dist), c) == lf + df;
    assert TokenFields(Match(len, dist), c) + rest == lf + (df + rest);
    LengthDecodes(dat, c, pos, len, df + rest);
    DistanceDecodes(dat, c, o, pos + c.ll[257 + lc] + LengthExtra(lc), len, dist, rest);
    FieldWidths(lf[0], lf[1], df);
    FieldWidths(df[0], df[1], []);
    assert df + [] == df;
    EmptyWidth();
    var o' := CopyBytes(Reserve(o, o.bt + ROOM), len, dist, true);
    SymbolsMatch(dat, c, o, pos, 257 + lc, o', pos + Width(lf + df));
    ReserveKeeps(o, o.bt + ROOM);
    CopyAppends(Reserve(o, o.bt + ROOM), len, dist);
  }

  lemma EmptyWidth()
    ensures Width([]) == 0
  {
  }

  lemma LiteralDecodes(dat: seq<byte>, c: Codes, o: Out, pos: nat, b: byte, rest: seq<Field>)
    requires CodesOk(c) && Codable(Literal(b), c)
    requires Holds(dat, pos, TokenFields(Literal(b), c) + rest)
    ensures var pos' := pos + Width(TokenFields(Literal(b), c));
            Holds(dat, pos', rest) && Symbols(dat, c, o, pos) == Symbols(dat, c, Store(o, b), pos')
  {
    hide Holds, Kraft, Enc, Look, CopyMatch, Store;
    LookFinds(dat, pos, c.ll, c.lb, b, rest);
    InBounds(dat, pos + c.ll[b], rest);
    OneField(Symbol(c.ll, b));
    assert Packed(c.ll, b) % 16 == c.ll[b] && Packed(c.ll, b) / 16 == b;
  }

  lemma EndDecodes(dat: seq<byte>, c: Codes, o: Out, pos: nat)
    requires CodesOk(c) && Holds(dat, pos, [Symbol(c.ll, 256)])
    ensures Symbols(dat, c, o, pos) == Done(o, pos + Width([Symbol(c.ll, 256)]))
  {
    hide Holds, Kraft, Enc, Look, CopyMatch;
    assert [Symbol(c.ll, 256)] + [] == [Symbol(c.ll, 256)];
    LookFinds(dat, pos, c.ll, c.lb, 256, []);
    InBounds(dat, pos + c.ll[256], []);
    OneField(Symbol(c.ll, 256));
    assert Packed(c.ll, 256) % 16 == c.ll[256] && Packed(c.ll, 256) / 16 == 256;
  }

  /** A finished result: where it ends, how much it produced, and what it takes for the
      output to be the one wanted. */
  ghost predicate Finishes(r: Result, end: nat, want: seq<byte>, kept: bool) {
    && r.Done? && r.pos == end && r.out.bt == |want| && Clean(r.out)
    && (Written(r.out) == want <==> kept)
  }

  lemma SplitOff(ts: seq<Token>, c: Codes, n: nat)
    requires AllCodable(ts, c) && AllValid(n, ts) && ts != []
    ensures Valid(ts[0]) && Codable(ts[0], c) && (ts[0].Match? ==> 1 <= ts[0].dist <= n)
    ensures AllCodable(ts[1..], c) && AllValid(n + Size(ts[0]), ts[1..])
  {
    hide Codable;
    assert ts[0] in ts;
    assert forall u :: u in ts[1..] ==> u in ts;
  }

  /** One token of the loop: it is applied to the output. */
  lemma TokenDecodes(dat: seq<byte>, c: Codes, o: Out, pos: nat, t: Token, rest: seq<Field>)
      returns (o': Out, pos': nat)
    requires CodesOk(c) && Valid(t) && Codable(t, c) && (t.Match? ==> t.dist <= o.bt) && Clean(o)
    requires Holds(dat, pos, TokenFields(t, c) + rest)
    ensures pos' == pos + Width(TokenFields(t, c)) && Holds(dat, pos', rest)
    ensures Symbols(dat, c, o, pos) == Symbols(dat, c, o', pos')
    ensures Clean(o') && o'.bt == o.bt + Size(t)
    ensures |o'.buf| == if t.Literal? then |o.buf| else Grown(|o.buf|, o.bt + ROOM)
    ensures Prefix(o') == if t.Literal? && o.bt >= |o.buf| then Prefix(o) + [0] else Apply(Prefix(o), t)
  {
    hide Holds, Symbols, Kraft, Width, TokenFields, CopyBytes, Reserve, Clean, Prefix, Copied;
    pos' := pos + Width(TokenFields(t, c));
    if t.Literal? {
      assert t == Literal(t.b);
      LiteralDecodes(dat, c, o, pos, t.b, rest);
      StoreAppends(o, t.b);
      o' := Store(o, t.b);
    } else {
      assert t == Match(t.len, t.dist);
      MatchDecodes(dat, c, o, pos, t.len, t.dist, rest);
      o' := CopyBytes(Reserve(o, o.bt + ROOM), t.len, t.dist, true);
    }
  }

  /** The block round trip, for every list of tokens and every pair of prefix codes: the
      loop ends exactly behind what was written with as many bytes as the LZ77 expansion,
      and its output is that expansion if and only if the output so far was right and no
      byte is lost. */
  lemma {:induction false} BodyDecodes(dat: seq<byte>, c: Codes, o: Out, pos: nat, ts: seq<Token>, out: seq<byte>)
    requires CodesOk(c) && AllCodable(ts, c) && AllValid(|out|, ts)
    requires Clean(o) && o.bt == |out|
    requires Holds(dat, pos, BodyFields(ts, c))
    ensures Finishes(Symbols(dat, c, o, pos), pos + Width(BodyFields(ts, c)), Unzip(out, ts),
                     Prefix(o) == out && Kept(ts, |o.buf|, o.bt))
    decreases |ts|
  {
    hide Holds, Symbols, Kraft, TokenFields, Width, Clean, Prefix, Apply, Finishes, AllValid, Codable, Valid, AllCodable;
    if ts == [] {
      NoTokens(dat, c, o, pos, out);
    } else {
      var t, rest := ts[0], ts[1..];
      SplitOff(ts, c, |out|);
      TokenSound(t, c);
      var o', pos' := TokenDecodes(dat, c, o, pos, t, BodyFields(rest, c));
      WidthConcat(TokenFields(t, c), BodyFields(rest, c));
      BodyDecodes(dat, c, o', pos', rest, Apply(out, t));
      SamePrefix(o, o', t, out);
      var kept, kept' := Prefix(o) == out && Kept(ts, |o.buf|, o.bt), Prefix(o') == Apply(out, t) && Kept(rest, |o'.buf|, o'.bt);
      assert kept == kept';
      assert Unzip(out, ts) == Unzip(Apply(out, t), rest);
      assert pos' + Width(BodyFields(rest, c)) == pos + Width(BodyFields(ts, c));
    }
  }

  lemma NoTokens(dat: seq<byte>, c: Codes, o: Out, pos: nat, out: seq<byte>)
    requires CodesOk(c) && o.bt == |out| && Clean(o) && Holds(dat, pos, BodyFields([], c))
    ensures Finishes(Symbols(dat, c, o, pos), pos + Width(BodyFields([], c)), out, Prefix(o) == out && o.bt <= |o.buf|)
  {
    hide Holds, Symbols;
    EndDecodes(dat, c, o, pos);
  }

  lemma SamePrefix(o: Out, o': Out, t: Token, out: seq<byte>)
    requires o.bt == |out| && (t.Match? ==> 1 <= t.dist <= |out|)
    requires Prefix(o') == if t.Literal? && o.bt >= |o.buf| then Prefix(o) + [0] else Apply(Prefix(o), t)
    ensures Prefix(o') == Apply(out, t) <==> Prefix(o) == out && (t.Literal? ==> o.bt < |o.buf| || t.b == 0)
  {
    hide Prefix;
    assert Apply(out, t)[..o.bt] == out;
    assert Apply(Prefix(o), t)[..o.bt] == Prefix(o);
    assert (Prefix(o) + [0])[..o.bt] == Prefix(o);
    assert t.Literal? ==> Apply(out, t)[o.bt] == t.b;
    assert (Prefix(o) + [0])[o.bt] == 0;
  }

  /** A block of no more tokens than the room asked for at its start loses nothing. The
      block writer's token buffer holds 25000. */
  lemma {:induction false} ShortBlockKept(ts: seq<Token>, size: nat, bt: nat)
    requires bt + |ts| <= size && |ts| <= ROOM - 258
    requires forall t :: t in ts ==> Valid(t)
    ensures Kept(ts, size, bt)
    decreases |ts|
  {
    if ts == [] {
    } else {
      assert ts[0] in ts;
      if ts[0].Literal? {
        ShortBlockKept(ts[1..], size, bt + 1);
      } else {
        ShortBlockKept(ts[1..], Grown(size, bt + ROOM), bt + ts[0].len);
      }
    }
  }

  /** Literals alone never ask for room, so they are kept exactly when they fit. */
  lemma {:induction false} LiteralsKept(ts: seq<Token>, size: nat, bt: nat)
    requires forall i :: 0 <= i < |ts| ==> ts[i].Literal?
    ensures Kept(ts, size, bt) <==> bt + |ts| <= size
    decreases |ts|
  {
    if ts == [] {
    } else {
      LiteralsKept(ts[1..], size, bt + 1);
    }
  }
}
