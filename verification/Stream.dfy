/** Whole streams: the block loop of `inflt` run to the end of a final block, and what it
    gives back for any list of blocks written one behind the other (section 3.2.3 of
    RFC 1951). */
module Stream {
  import opened Words
  import opened Huffman
  import opened BitStream
  import opened Fields
  import opened Tokens
  import opened Inflate
  import opened Blocks
  import opened Header
  import C = CodeLengths

  // ---- the fixed codes -----------------------------------------------------------

  /** `flt` */
  function FixedLengths(): Lengths {
    seq(288, i requires 0 <= i => if i < 144 then 8 else if i < 256 then 9 else if i < 280 then 7 else 8)
  }

  /** `fdt` */
  function FixedDistances(): Lengths {
    seq(32, _ => 5)
  }

  function FixedCodes(): Codes {
    Codes(FixedLengths(), 9, FixedDistances(), 5)
  }

  lemma {:induction false} KraftRun(L: Lengths, mb: nat, a: nat, b: nat, w: nat)
    requires a <= b <= |L| && forall i :: a <= i < b ==> Weight(L, mb, i) == w
    ensures KraftSum(L, mb, b) == KraftSum(L, mb, a) + (b - a) * w
  {
    hide Weight;
    if a < b {
      KraftRun(L, mb, a, b - 1, w);
      assert (b - a) * w == (b - 1 - a) * w + w;
    }
  }

  lemma EmptySum(L: Lengths, mb: nat)
    ensures KraftSum(L, mb, 0) == 0
  {
  }

  lemma FixedCodesOk()
    ensures CodesOk(FixedCodes())
  {
    hide KraftSum, Shl;
    Pow2Values();
    var L, D := FixedLengths(), FixedDistances();
    assert KraftSum(L, 9, 0) == 0 && KraftSum(D, 5, 0) == 0 by { EmptySum(L, 9); EmptySum(D, 5); }
    KraftRun(L, 9, 0, 144, 2);
    KraftRun(L, 9, 144, 256, 1);
    KraftRun(L, 9, 256, 280, 4);
    KraftRun(L, 9, 280, 288, 2);
    KraftRun(D, 5, 0, 32, 1);
  }

  // ---- the block loop ------------------------------------------------------------

  /** `buf.set(bytes, bt)` in a buffer that has been given the room. */
  function StoreAll(o: Out, bytes: seq<byte>): Out
    decreases |bytes|
  {
    if bytes == [] then o else StoreAll(Store(o, bytes[0]), bytes[1..])
  }

  /** A stored block, from behind its type bits. */
  function ReadStored(dat: seq<byte>, o: Out, pos: nat): (r: Result)
    ensures r.Done? ==> pos < r.pos <= 8 * |dat|
  {
    var s := Shft(pos) + 4;
    var l := At(dat, s - 4) + 256 * At(dat, s - 3);
    if s + l > |dat| then Failed(UnexpectedEof)
    else Done(StoreAll(Reserve(o, o.bt + l), dat[s..s + l]), 8 * (s + l))
  }

  /** A compressed block, from behind its header. */
  ghost function ReadBody(dat: seq<byte>, c: Codes, o: Out, pos: nat): (r: Result)
    requires CodesFitTables(c)
    ensures r.Done? ==> pos < r.pos <= 8 * |dat|
  {
    if pos > 8 * |dat| then Failed(UnexpectedEof) else Symbols(dat, c, Reserve(o, o.bt + ROOM), pos)
  }

  ghost function ReadBlock(dat: seq<byte>, o: Out, pos: nat): (r: Result)
    ensures r.Done? ==> pos < r.pos <= 8 * |dat|
  {
    var kind := Bits(dat, pos + 1, 2);
    if kind == 0 then ReadStored(dat, o, pos + 3)
    else if kind == 1 then FixedCodesOk(); ReadBody(dat, FixedCodes(), o, pos + 3)
    else if kind == 2 then
      var (c, p) := ReadHeader(dat, pos + 3);
      ReadBody(dat, c, o, p)
    else Failed(InvalidBlockType)
  }

  /** `inflt` on a whole stream: blocks until one is marked final. */
  ghost function Inflt(dat: seq<byte>, o: Out, pos: nat): Result
    decreases 8 * |dat| + 1 - pos
  {
    var r := ReadBlock(dat, o, pos);
    if r.Failed? || Bits(dat, pos, 1) == 1 then r else Inflt(dat, r.out, r.pos)
  }

  // ---- what the writers send ---------------------------------------------------------

  datatype Block = Stored(data: seq<byte>) | Fixed(ts: seq<Token>) | Dynamic(h: Plan, ts: seq<Token>)

  /** A block the writer can send after n bytes of output. */
  ghost predicate Sendable(b: Block, n: nat) {
    match b
    case Stored(data) => |data| < 65536
    case Fixed(ts) => AllCodable(ts, FixedCodes()) && AllValid(n, ts) && |ts| <= ROOM - 258
    case Dynamic(h, ts) => PlanOk(h) && AllCodable(ts, h.c) && AllValid(n, ts) && |ts| <= ROOM - 258
  }

  function ByteFields(data: seq<byte>): seq<Field> {
    if data == [] then [] else [Field(data[0], 8)] + ByteFields(data[1..])
  }

  function Bit(b: bool): nat {
    if b then 1 else 0
  }

  ghost function BlockFields(b: Block, n: nat, final: bool, p: nat): seq<Field>
    requires Sendable(b, n)
  {
    FixedCodesOk();
    [Field(Bit(final), 1)] +
    match b
    case Stored(data) =>
      [Field(0, 2)]
      + (StoredHead(|data|, p + 3) + ByteFields(data))
    case Fixed(ts) => [Field(1, 2)] + BodyFields(ts, FixedCodes())
    case Dynamic(h, ts) => [Field(2, 2)] + (HeaderFields(h) + BodyFields(ts, h.c))
  }

  ghost function Content(out: seq<byte>, b: Block): (r: seq<byte>)
    requires Sendable(b, |out|)
  {
    if b.Stored? then out + b.data else Unzip(out, b.ts)
  }

  ghost predicate AllSendable(bs: seq<Block>, out: seq<byte>)
    decreases |bs|
  {
    bs == [] || (Sendable(bs[0], |out|) && AllSendable(bs[1..], Content(out, bs[0])))
  }

  ghost function Contents(out: seq<byte>, bs: seq<Block>): seq<byte>
    requires AllSendable(bs, out)
    decreases |bs|
  {
    if bs == [] then out else Contents(Content(out, bs[0]), bs[1..])
  }

  /** The blocks one behind the other from bit p, the last one marked final. */
  ghost function StreamFields(bs: seq<Block>, out: seq<byte>, p: nat): seq<Field>
    requires AllSendable(bs, out)
    decreases |bs|
  {
    if bs == [] then []
    else
      var fs := BlockFields(bs[0], |out|, |bs| == 1, p);
      fs + StreamFields(bs[1..], Content(out, bs[0]), p + Width(fs))
  }

  // ---- one block -------------------------------------------------------------------

  /** The state between blocks: the output so far, all of it inside the buffer. */
  ghost predicate Holding(o: Out, out: seq<byte>) {
    Clean(o) && Prefix(o) == out && o.bt <= |o.buf|
  }

  lemma BodyRead(dat: seq<byte>, c: Codes, o: Out, pos: nat, ts: seq<Token>, out: seq<byte>, rest: seq<Field>)
    requires CodesOk(c) && AllCodable(ts, c) && AllValid(|out|, ts) && |ts| <= ROOM - 258
    requires Holding(o, out) && Holds(dat, pos, BodyFields(ts, c) + rest)
    ensures var r := ReadBody(dat, c, o, pos);
            && r.Done? && r.pos == pos + Width(BodyFields(ts, c)) && Holds(dat, r.pos, rest)
            && Holding(r.out, Unzip(out, ts))
  {
    hide Holds, Symbols, KraftSum, Codable, BodyFields, Width, Clean, AllValid, Unzip, Valid, Kept, Reserve, Finishes,
         Prefix, Holding, Codable;
    BodySound(ts, c);
    HoldsConcat(dat, pos, BodyFields(ts, c), rest);
    InBounds(dat, pos, BodyFields(ts, c));
    var o' := Reserve(o, o.bt + ROOM);
    ReadyForBody(o, out, ts);
    BodyDecodes(dat, c, o', pos, ts, out);
    AllKept(Symbols(dat, c, o', pos), pos + Width(BodyFields(ts, c)), Unzip(out, ts));
  }

  lemma ReadyForBody(o: Out, out: seq<byte>, ts: seq<Token>)
    requires Holding(o, out) && |ts| <= ROOM - 258 && forall t :: t in ts ==> Valid(t)
    ensures var o' := Reserve(o, o.bt + ROOM);
            Clean(o') && Prefix(o') == out && o'.bt == |out| && Kept(ts, |o'.buf|, o'.bt)
  {
    hide Clean, Prefix, Kept, Valid;
    ReserveKeeps(o, o.bt + ROOM);
    ShortBlockKept(ts, |Reserve(o, o.bt + ROOM).buf|, o.bt);
  }

  lemma AllKept(r: Result, end: nat, want: seq<byte>)
    requires Finishes(r, end, want, true)
    ensures r == Done(r.out, end) && Holding(r.out, want)
  {
  }

  lemma {:induction false} StoreAllAppends(o: Out, bytes: seq<byte>)
    requires Clean(o) && o.bt + |bytes| <= |o.buf|
    ensures var r := StoreAll(o, bytes);
            Clean(r) && Prefix(r) == Prefix(o) + bytes && r.bt == o.bt + |bytes| && |r.buf| == |o.buf|
    decreases |bytes|
  {
    hide Clean, Prefix, Store;
    if bytes == [] {
      assert Prefix(o) + bytes == Prefix(o);
    } else {
      StoreAppends(o, bytes[0]);
      StoreSize(o, bytes[0]);
      StoreAllAppends(Store(o, bytes[0]), bytes[1..]);
      assert Prefix(o) + [bytes[0]] + bytes[1..] == Prefix(o) + bytes;
    }
  }

  lemma {:induction false} ByteWidth(data: seq<byte>)
    ensures Width(ByteFields(data)) == 8 * |data|
  {
    if data == [] {
    } else {
      ByteWidth(data[1..]);
      assert ByteFields(data)[1..] == ByteFields(data[1..]);
    }
  }

  lemma OneByte(dat: seq<byte>, k: nat, b: byte, rest: seq<Field>)
    requires Holds(dat, 8 * k, [Field(b, 8)] + rest)
    ensures k < |dat| && dat[k] == b && Holds(dat, 8 * (k + 1), rest)
  {
    hide Holds, Low, Shr, Shl;
    Pow2Values();
    HoldsNext(dat, 8 * k, Field(b, 8), rest);
    InBounds(dat, 8 * k + 8, rest);
    DropBytes(dat, k);
    assert dat[k..][1..] == dat[k + 1..];
    ByteShift(LE(dat[k + 1..]), dat[k]);
  }

  /** Byte fields on a byte boundary are the bytes there. */
  lemma {:induction false} BytesRead(dat: seq<byte>, k: nat, data: seq<byte>, rest: seq<Field>)
    requires k <= |dat| && Holds(dat, 8 * k, ByteFields(data) + rest)
    ensures k + |data| <= |dat| && dat[k..k + |data|] == data && Holds(dat, 8 * (k + |data|), rest)
    decreases |data|
  {
    hide Holds;
    if data == [] {
      assert ByteFields(data) + rest == rest;
    } else {
      assert ByteFields(data) + rest == [Field(data[0], 8)] + (ByteFields(data[1..]) + rest);
      OneByte(dat, k, data[0], ByteFields(data[1..]) + rest);
      BytesRead(dat, k + 1, data[1..], rest);
      assert dat[k..k + |data|] == [dat[k]] + dat[k + 1..k + 1 + |data[1..]|];
    }
  }

  /** The two bytes of a 16-bit field on a byte boundary. */
  lemma WordRead(dat: seq<byte>, k: nat, v: nat, rest: seq<Field>)
    requires k <= |dat| && v < 65536 && Holds(dat, 8 * k, [Field(v, 16)] + rest)
    ensures At(dat, k) + 256 * At(dat, k + 1) == v && Holds(dat, 8 * k + 16, rest)
  {
    hide Holds, Low, Shr, Shl, LE;
    Pow2Values();
    HoldsNext(dat, 8 * k, Field(v, 16), rest);
    DropBytes(dat, k);
    SuffixThree(dat[k..]);
  }

  function StoredHead(n: nat, p: nat): seq<Field>
    requires n < 65536
  {
    [Field(0, 8 * Shft(p) - p), Field(n, 16), Field(65535 - n, 16)]
  }

  lemma StoredHeadRead(dat: seq<byte>, p: nat, n: nat, rest: seq<Field>)
    requires n < 65536 && Holds(dat, p, StoredHead(n, p) + rest)
    ensures Shft(p) + 4 <= |dat| && At(dat, Shft(p)) + 256 * At(dat, Shft(p) + 1) == n
    ensures Holds(dat, 8 * (Shft(p) + 4), rest)
  {
    hide Holds, Pow2;
    var a := Shft(p);
    var pad, len, inv := Field(0, 8 * a - p), Field(n, 16), Field(65535 - n, 16);
    assert StoredHead(n, p) + rest == [pad] + ([len] + ([inv] + rest));
    assert Pow2(8 * a - p) > 0 && Pow2(16) == 65536 by { Pow2Mono(0, 8 * a - p); Pow2Values(); }
    HoldsNext(dat, p, pad, [len] + ([inv] + rest));
    InBounds(dat, 8 * a, [len] + ([inv] + rest));
    WordRead(dat, a, n, [inv] + rest);
    HoldsNext(dat, 8 * a + 16, inv, rest);
    InBounds(dat, 8 * a + 32, rest);
  }

  lemma StoredCopy(o: Out, data: seq<byte>, out: seq<byte>)
    requires Holding(o, out)
    ensures Holding(StoreAll(Reserve(o, o.bt + |data|), data), out + data)
  {
    hide Clean, Prefix, Reserve, StoreAll;
    var n := o.bt + |data|;
    ReserveKeeps(o, n);
    ReserveStays(o, n);
    StoreAllAppends(Reserve(o, n), data);
  }

  lemma StoredRead(dat: seq<byte>, o: Out, p: nat, data: seq<byte>, out: seq<byte>, rest: seq<Field>)
    requires |data| < 65536 && Holding(o, out)
    requires Holds(dat, p, StoredHead(|data|, p) + (ByteFields(data) + rest))
    ensures var r := ReadStored(dat, o, p);
            && r.Done? && r.pos == 8 * (Shft(p) + 4 + |data|) && Holds(dat, r.pos, rest)
            && Holding(r.out, out + data)
  {
    hide Holds, Holding, Reserve, StoreAll, StoredHead, Shft, ByteFields;
    StoredHeadRead(dat, p, |data|, ByteFields(data) + rest);
    BytesRead(dat, Shft(p) + 4, data, rest);
    StoredCopy(o, data, out);
  }

  lemma ReserveStays(o: Out, n: nat)
    ensures Reserve(o, n).bt == o.bt
  {
  }

  // ---- the block and stream round trips ----------------------------------------------

  lemma KindReads(dat: seq<byte>, p: nat, final: bool, kind: nat, rest: seq<Field>)
    requires kind < 4 && Holds(dat, p, [Field(Bit(final), 1)] + ([Field(kind, 2)] + rest))
    ensures Bits(dat, p, 1) == Bit(final) && Bits(dat, p + 1, 2) == kind
    ensures Holds(dat, p + 3, rest)
  {
    hide Holds, Bits, Low, Shr, Shl;
    Pow2Values();
    HoldsNext(dat, p, Field(Bit(final), 1), [Field(kind, 2)] + rest);
    HoldsNext(dat, p + 1, Field(kind, 2), rest);
    BitsReads(dat, p, 1);
    BitsReads(dat, p + 1, 2);
  }

  function KindOf(b: Block): nat {
    match b
    case Stored(_) => 0
    case Fixed(_) => 1
    case Dynamic(_, _) => 2
  }

  /** A block without its final bit and its type. */
  ghost function InnerFields(b: Block, n: nat, p: nat): seq<Field>
    requires Sendable(b, n)
  {
    FixedCodesOk();
    match b
    case Stored(data) => StoredHead(|data|, p) + ByteFields(data)
    case Fixed(ts) => BodyFields(ts, FixedCodes())
    case Dynamic(h, ts) => HeaderFields(h) + BodyFields(ts, h.c)
  }

  lemma StoredWidth(n: nat, p: nat, data: seq<byte>)
    requires n == |data| < 65536
    ensures p + Width(StoredHead(n, p) + ByteFields(data)) == 8 * (Shft(p) + 4 + |data|)
  {
    var h := StoredHead(n, p);
    WidthConcat(h, ByteFields(data));
    ByteWidth(data);
    FieldWidths(h[0], h[1], [h[2]]);
    assert h == [h[0], h[1]] + [h[2]];
    OneField(h[2]);
  }

  /** One block of any kind: what `inflt` reads is what was sent. */
  lemma BlockReads(dat: seq<byte>, o: Out, p: nat, b: Block, final: bool, out: seq<byte>, rest: seq<Field>)
    requires Sendable(b, |out|) && Holding(o, out)
    requires Holds(dat, p, BlockFields(b, |out|, final, p) + rest)
    ensures Bits(dat, p, 1) == Bit(final)
    ensures var r := ReadBlock(dat, o, p);
            && r.Done? && r.pos == p + Width(BlockFields(b, |out|, final, p)) && Holds(dat, r.pos, rest)
            && Holding(r.out, Content(out, b))
  {
    hide Holds, Bits, Holding, InnerFields, Content, ReadBlock, Width, Sendable;
    var kind, inner := Field(KindOf(b), 2), InnerFields(b, |out|, p + 3);
    SplitBlock(b, |out|, final, p);
    assert [Field(Bit(final), 1)] + ([kind] + inner) + rest == [Field(Bit(final), 1)] + ([kind] + (inner + rest));
    KindReads(dat, p, final, KindOf(b), inner + rest);
    FieldWidths(Field(Bit(final), 1), kind, inner);
    assert [Field(Bit(final), 1)] + ([kind] + inner) == [Field(Bit(final), 1), kind] + inner;
    InnerReads(dat, o, p, b, out, rest);
  }

  lemma SplitBlock(b: Block, n: nat, final: bool, p: nat)
    requires Sendable(b, n)
    ensures BlockFields(b, n, final, p) == [Field(Bit(final), 1)] + ([Field(KindOf(b), 2)] + InnerFields(b, n, p + 3))
  {
    hide BodyFields, HeaderFields, AllCodable, AllValid, StoredHead, ByteFields, PlanOk;
  }

  lemma InnerReads(dat: seq<byte>, o: Out, p: nat, b: Block, out: seq<byte>, rest: seq<Field>)
    requires Sendable(b, |out|) && Holding(o, out) && Bits(dat, p + 1, 2) == KindOf(b)
    requires Holds(dat, p + 3, InnerFields(b, |out|, p + 3) + rest)
    ensures var r := ReadBlock(dat, o, p);
            && r.Done? && r.pos == p + 3 + Width(InnerFields(b, |out|, p + 3)) && Holds(dat, r.pos, rest)
            && Holding(r.out, Content(out, b))
  {
    hide Holds, Bits, Holding, BodyFields, HeaderFields, AllCodable, AllValid, ReadStored, ReadBody, ReadHeader,
         StoredHead, ByteFields, Unzip, Width, PlanOk, CodesOk;
    FixedCodesOk();
    var inner := InnerFields(b, |out|, p + 3);
    match b
    case Stored(data) =>
      assert inner + rest == StoredHead(|data|, p + 3) + (ByteFields(data) + rest);
      StoredRead(dat, o, p + 3, data, out, rest);
      StoredWidth(|data|, p + 3, data);
    case Fixed(ts) =>
      BodyRead(dat, FixedCodes(), o, p + 3, ts, out, rest);
    case Dynamic(h, ts) =>
      PlanCodes(h);
      assert inner + rest == HeaderFields(h) + (BodyFields(ts, h.c) + rest);
      HeaderReads(dat, p + 3, h, BodyFields(ts, h.c) + rest);
      BodyRead(dat, h.c, o, p + 3 + Width(HeaderFields(h)), ts, out, rest);
      WidthConcat(HeaderFields(h), BodyFields(ts, h.c));
  }

  lemma PlanCodes(h: Plan)
    requires PlanOk(h)
    ensures CodesOk(h.c)
  {
  }

  /** The stream round trip: however a nonempty list of blocks is split between stored,
      fixed and dynamic ones, `inflt` returns exactly what they stand for and stops where
      the last one ends. */
  lemma {:induction false} StreamReads(dat: seq<byte>, o: Out, p: nat, bs: seq<Block>, out: seq<byte>)
    requires bs != [] && AllSendable(bs, out) && Holding(o, out)
    requires Holds(dat, p, StreamFields(bs, out, p))
    ensures var r := Inflt(dat, o, p);
            && r.Done? && r.pos == p + Width(StreamFields(bs, out, p))
            && Written(r.out) == Contents(out, bs)
    decreases |bs|
  {
    hide Holds, Bits, Clean, BlockFields, Content, Width, ReadBlock, Sendable;
    var fs := BlockFields(bs[0], |out|, |bs| == 1, p);
    var more := StreamFields(bs[1..], Content(out, bs[0]), p + Width(fs));
    BlockReads(dat, o, p, bs[0], |bs| == 1, out, more);
    WidthConcat(fs, more);
    EmptyWidth();
    if |bs| > 1 {
      StreamReads(dat, ReadBlock(dat, o, p).out, p + Width(fs), bs[1..], Content(out, bs[0]));
    }
  }

  // ---- what was written is what is read ------------------------------------------------

  lemma {:induction false} BytesSound(data: seq<byte>)
    ensures Sound(ByteFields(data))
  {
    Pow2Values();
    if data == [] {
    } else {
      BytesSound(data[1..]);
    }
  }

  lemma {:induction false} OrderSound(clt: Lengths, i: nat, n: nat)
    requires |clt| == 19 && (forall k :: 0 <= k < 19 ==> clt[k] <= 7) && i <= n <= 19
    ensures Sound(OrderFields(clt, i, n))
    decreases n - i
  {
    Pow2Values();
    if i < n {
      OrderPlace(i);
      OrderSound(clt, i + 1, n);
    }
  }

  lemma {:induction false} WordsSound(ws: seq<nat>, clt: Lengths, clb: nat)
    requires WordsCodable(ws, clt, clb)
    ensures Sound(WordFields(ws, clt))
  {
    hide KraftSum, C.Sym, C.Extra, C.ExtraBits, Enc;
    if ws == [] {
    } else {
      var w := ws[0];
      assert w in ws && forall x :: x in ws[1..] ==> x in ws;
      SymbolSound(clt, clb, C.Sym(w));
      WordsSound(ws[1..], clt, clb);
    }
  }

  lemma HeaderSound(h: Plan)
    requires PlanOk(h)
    ensures Sound(HeaderFields(h))
  {
    hide KraftSum, MaxOf, C.Sym, C.WordOk, C.Expand, OrderFields, WordFields;
    PlanSizes(h);
    Pow2Values();
    OrderSound(h.clt, 0, h.nlcc);
    WordsSound(h.ws, h.clt, MaxOf(h.clt));
  }

  lemma HeadSound(n: nat, p: nat)
    requires n < 65536
    ensures Sound(StoredHead(n, p))
  {
    hide Shl, Pow2;
    assert Pow2(8 * Shft(p) - p) > 0 && Pow2(16) == 65536 by { Pow2Mono(0, 8 * Shft(p) - p); Pow2Values(); }
  }

  lemma InnerSound(b: Block, n: nat, p: nat)
    requires Sendable(b, n)
    ensures Sound(InnerFields(b, n, p))
  {
    hide BodyFields, HeaderFields, AllCodable, AllValid, StoredHead, ByteFields, PlanOk, CodesOk;
    FixedCodesOk();
    match b
    case Stored(data) =>
      HeadSound(|data|, p);
      BytesSound(data);
    case Fixed(ts) =>
      BodySound(ts, FixedCodes());
    case Dynamic(h, ts) =>
      PlanCodes(h);
      HeaderSound(h);
      BodySound(ts, h.c);
  }

  lemma {:induction false} StreamSound(bs: seq<Block>, out: seq<byte>, p: nat)
    requires AllSendable(bs, out)
    ensures Sound(StreamFields(bs, out, p))
    decreases |bs|
  {
    hide InnerFields, BlockFields, Width, Content, Sendable;
    Pow2Values();
    if bs == [] {
    } else {
      var fs := BlockFields(bs[0], |out|, |bs| == 1, p);
      SplitBlock(bs[0], |out|, |bs| == 1, p);
      InnerSound(bs[0], |out|, p + 3);
      StreamSound(bs[1..], Content(out, bs[0]), p + Width(fs));
    }
  }

  /** The round trip on buffers: blocks written from bit p of a buffer that is zero behind
      it are read from there, whatever lies before and however much room is left. */
  lemma StreamRoundTrip(d: seq<byte>, p: nat, bs: seq<Block>, out: seq<byte>, d': seq<byte>, p': nat, o: Out)
    requires bs != [] && AllSendable(bs, out) && Holding(o, out)
    requires LE(d) < Pow2(p) && Wrote(d, p, StreamFields(bs, out, p), d', p') && p' <= 8 * |d|
    ensures var r := Inflt(d', o, p);
            r.Done? && r.pos == p' && Written(r.out) == Contents(out, bs)
  {
    hide LE, Shr, Shl, Low, Num, Width, AllSendable, StreamFields, Inflt, Contents, StartsWith, Sound, Holding;
    StreamSound(bs, out, p);
    WroteReads(d, p, StreamFields(bs, out, p), d', p');
    StreamReads(d', o, p, bs, out);
  }

  // ---- where a byte is lost ---------------------------------------------------------------

  /** `new u8(32768)`, the buffer a fresh inflater starts with. */
  function FreshOut(): Out {
    Out(seq(32768, _ => 0 as byte), 0)
  }

  lemma FreshRoom()
    ensures var o := Reserve(FreshOut(), ROOM);
            Clean(o) && Prefix(o) == [] && o.bt == 0 && |o.buf| == ROOM
  {
    var o := Reserve(FreshOut(), ROOM);
    assert |o.buf| == ROOM;
    forall i | 0 <= i < |o.buf| ensures o.buf[i] == 0 {
    }
    ReserveKeeps(FreshOut(), ROOM);
  }

  /** A stream that starts with a block of literals: `inflt` asks for room only before the
      block and at matches, so the bytes come out right if and only if there are no more
      than 131072 of them; every further one is dropped without an error. */
  lemma LiteralBlock(dat: seq<byte>, c: Codes, pos: nat, ts: seq<Token>)
    requires CodesOk(c) && AllCodable(ts, c) && AllValid(0, ts)
    requires forall i :: 0 <= i < |ts| ==> ts[i].Literal?
    requires Holds(dat, pos, BodyFields(ts, c))
    ensures Finishes(ReadBody(dat, c, FreshOut(), pos), pos + Width(BodyFields(ts, c)), Unzip([], ts), |ts| <= 131072)
  {
    hide Holds, Symbols, KraftSum, Codable, BodyFields, Width, Clean, AllValid, Unzip, Valid, Kept, Reserve, Finishes, Prefix;
    FreshRoom();
    InBounds(dat, pos, BodyFields(ts, c));
    BodyDecodes(dat, c, Reserve(FreshOut(), ROOM), pos, ts, []);
    LiteralsKept(ts, ROOM, 0);
  }

  // ---- such a block ---------------------------------------------------------------------------

  /** A code of one bit for the byte 0 and for the end of block, and no distances. */
  function TwoCodes(): Codes { Codes([1] + seq(255, _ => 0) + [1], 1, [], 0) }

  lemma TwoLengths()
    ensures var c := TwoCodes(); |c.ll| == 257 && c.ll[0] == c.ll[256] == 1 && c.lb == 1 && c.dl == [] && c.db == 0
    ensures forall i :: 0 < i < 256 ==> TwoCodes().ll[i] == 0
  {
  }

  lemma {:induction false} TwoCounts(k: nat)
    requires 1 <= k <= 256 < |TwoCodes().ll|
    ensures Count(TwoCodes().ll, 1, k) == 1 && KraftSum(TwoCodes().ll, 1, k) == 1
  {
    hide TwoCodes;
    TwoLengths();
    var L := TwoCodes().ll;
    if k == 1 {
      assert Count(L, 1, 0) == 0 && KraftSum(L, 1, 0) == 0;
    } else {
      TwoCounts(k - 1);
    }
  }

  lemma TwoCodesOk()
    ensures CodesOk(TwoCodes())
  {
    hide TwoCodes;
    TwoLengths();
    var c := TwoCodes();
    TwoCounts(256);
    Pow2Values();
    assert KraftSum(c.ll, 1, 257) == KraftSum(c.ll, 1, 256) + Weight(c.ll, 1, 256);
    assert KraftSum(c.dl, 0, 0) == 0;
  }

  lemma TwoSymbols()
    ensures |TwoCodes().ll| == 257 && TwoCodes().ll[0] == TwoCodes().ll[256] == 1
    ensures Symbol(TwoCodes().ll, 0) == Field(0, 1) && Symbol(TwoCodes().ll, 256) == Field(1, 1)
  {
    hide TwoCodes, Rev, Shr;
    TwoLengths();
    var L := TwoCodes().ll;
    TwoCounts(256);
    Pow2Values();
    assert Count(L, 1, 0) == 0 && FirstCode16(L, 1) == 0;
    RevNarrow(15, 1, 0);
    RevNarrow(15, 1, 1);
    RevOne(0);
    RevOne(1);
  }

  function ZeroTokens(n: nat): seq<Token> { seq(n, _ => Literal(0)) }

  /** Its bits: a zero for each byte and a one. */
  lemma {:induction false} ZeroFields(n: nat)
    ensures CodesOk(TwoCodes()) && AllCodable(ZeroTokens(n), TwoCodes())
    ensures var fs := BodyFields(ZeroTokens(n), TwoCodes()); Num(fs) == Shl(1, n) && Width(fs) == n + 1
  {
    hide TwoCodes, KraftSum, Symbol, AllCodable, CodesOk, Shl, BodyFields, Num, Width, Valid;
    TwoCodesOk();
    ZerosCodable(n);
    var ts := ZeroTokens(n);
    if n == 0 {
      NoZeros();
    } else {
      ZerosCodable(n - 1);
      ZeroFields(n - 1);
      assert ts[1..] == ZeroTokens(n - 1);
      FirstZero(ts);
      OneZeroMore(BodyFields(ts[1..], TwoCodes()), n - 1);
    }
  }

  lemma NoZeros()
    requires CodesOk(TwoCodes())
    ensures AllCodable([], TwoCodes())
    ensures var fs := BodyFields([], TwoCodes()); Num(fs) == Shl(1, 0) && Width(fs) == 1
  {
    hide TwoCodes, KraftSum, Symbol;
    TwoSymbols();
    OneField(Field(1, 1));
  }

  lemma OneZeroMore(fs: seq<Field>, n: nat)
    requires Num(fs) == Shl(1, n) && Width(fs) == n + 1
    ensures Num([Field(0, 1)] + fs) == Shl(1, n + 1) && Width([Field(0, 1)] + fs) == n + 2
  {
    hide Shl, Num, Width;
    OneField(Field(0, 1));
    WidthConcat([Field(0, 1)], fs);
    NumConcat([Field(0, 1)], fs);
    ShlShl(1, n, 1);
  }

  lemma ZerosCodable(n: nat)
    requires CodesOk(TwoCodes())
    ensures AllCodable(ZeroTokens(n), TwoCodes()) && forall t :: t in ZeroTokens(n) ==> Valid(t)
  {
    hide TwoCodes, KraftSum;
    TwoLengths();
  }

  lemma FirstZero(ts: seq<Token>)
    requires ts != [] && ts[0] == Literal(0) && CodesOk(TwoCodes()) && AllCodable(ts, TwoCodes()) && AllCodable(ts[1..], TwoCodes())
    ensures BodyFields(ts, TwoCodes()) == [Field(0, 1)] + BodyFields(ts[1..], TwoCodes())
  {
    hide TwoCodes, KraftSum, Symbol;
    TwoSymbols();
  }

  /** 131073 bytes 0: the last of them is lost. */
  lemma LostExample()
    ensures var dat: seq<byte> := seq(16384, _ => 0 as byte) + [2];
            && CodesOk(TwoCodes()) && AllValid(0, ZeroTokens(131073))
            && !Finishes(ReadBody(dat, TwoCodes(), FreshOut(), 0), 131074, Unzip([], ZeroTokens(131073)), true)
  {
    hide ReadBody, BodyFields, Finishes, Unzip, Shl, LE, KraftSum, AllCodable, AllValid, CodesOk, TwoCodes, Num, Width, Holds;
    var dat: seq<byte> := seq(16384, _ => 0 as byte) + [2];
    var ts, c := ZeroTokens(131073), TwoCodes();
    TwoCodesOk();
    ZerosCodable(131073);
    ZeroFields(131073);
    ZeroNumber(dat);
    ZerosHold(dat, BodyFields(ts, c));
    ZerosValid(0, 131073);
    LiteralBlock(dat, c, 0, ts);
    NotBoth(ReadBody(dat, c, FreshOut(), 0), 131074, Unzip([], ts));
  }

  lemma ZeroNumber(dat: seq<byte>)
    requires dat == seq(16384, _ => 0 as byte) + [2]
    ensures LE(dat) == Shl(1, 131073)
  {
    hide Shl, LE;
    LEConcat(seq(16384, _ => 0 as byte), [2]);
    LEZeros(seq(16384, _ => 0 as byte));
    LEThree(2, 0, 0);
    ShlDouble(1, 131072);
  }

  lemma ZerosHold(dat: seq<byte>, fs: seq<Field>)
    requires LE(dat) == Num(fs) == Shl(1, 131073) && Width(fs) == 131074 && |dat| == 16385
    ensures Holds(dat, 0, fs)
  {
    hide LE, Num, Width, Shl;
    ShlDouble(1, 131073);
    ShlMono(0, 1, 131073);
    ShlZero(131073);
    LowSmall(LE(dat), 131074);
    ShrNothing(LE(dat));
  }

  lemma {:induction false} ShlZero(n: nat)
    ensures Shl(0, n) == 0
  {
  }

  lemma ShrNothing(x: nat)
    ensures Shr(x, 0) == x
  {
  }

  lemma {:induction false} ZerosValid(m: nat, n: nat)
    ensures AllValid(m, ZeroTokens(n))
    decreases n
  {
    if n == 0 {
    } else {
      ZerosValid(m + 1, n - 1);
      assert ZeroTokens(n)[1..] == ZeroTokens(n - 1);
    }
  }

  lemma NotBoth(r: Result, end: nat, want: seq<byte>)
    requires Finishes(r, end, want, false)
    ensures !Finishes(r, end, want, true)
  {
  }
}
