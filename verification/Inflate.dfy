/** The symbol loop of `inflt`: what one compressed block decodes to, section 3.2.3 of
    RFC 1951. The output buffer is a typed array with a write position beside it: the
    buffer grows when the code asks for room, and a write past its end is lost. */
module Inflate {
  import opened Words
  import opened Huffman
  import opened BitStream
  import opened Tokens

  /** `buf` and `bt` */
  datatype Out = Out(buf: seq<byte>, bt: nat)

  /** `cbuf(n)` */
  function Reserve(o: Out, n: nat): Out {
    if n > |o.buf| then
      var size := if 2 * |o.buf| > n then 2 * |o.buf| else n;
      Out(o.buf + seq(size - |o.buf|, _ => 0 as byte), o.bt)
    else o
  }

  /** `buf[bt++] = x` */
  function Store(o: Out, x: byte): Out {
    Out(if o.bt < |o.buf| then o.buf[o.bt := x] else o.buf, o.bt + 1)
  }

  /** The byte a copy from dist back reads. Distance code 31 has no base, so its distance
      is not a number and the read is undefined, which stores 0. */
  function Source(o: Out, dist: nat, defined: bool): byte {
    if defined && dist <= o.bt then At(o.buf, o.bt - dist) else 0
  }

  function CopyBytes(o: Out, n: nat, dist: nat, defined: bool): Out
    decreases n
  {
    if n == 0 then o else CopyBytes(Store(o, Source(o, dist, defined)), n - 1, dist, defined)
  }

  /** What `inflt` returns: the written part, as far as the buffer reaches. */
  function Written(o: Out): seq<byte> {
    if o.bt <= |o.buf| then o.buf[..o.bt] else o.buf
  }

  /** The block's two codes: `lm` with `lbt`, `dm` with `dbt`. */
  datatype Codes = Codes(ll: Lengths, lb: nat, dl: Lengths, db: nat)

  ghost predicate CodesFitTables(c: Codes) {
    Fits(c.ll, c.lb) && Fits(c.dl, c.db) && |c.ll| <= 288 && |c.dl| <= 32
  }

  datatype Error = UnexpectedEof | InvalidBlockType | InvalidLength | InvalidDistance

  datatype Result = Done(out: Out, pos: nat) | Failed(error: Error)

  const ROOM := 131072

  /** A length symbol's value and the bits it takes. */
  function LengthAt(dat: seq<byte>, pos: nat, sym: nat): nat
    requires 257 <= sym < 288
  {
    if sym > 264 then LengthBase(sym - 257) + Bits(dat, pos, LengthExtra(sym - 257)) else sym - 254
  }

  /** A distance symbol's value; code 31 is past the end of the table of bases. */
  function DistAt(dat: seq<byte>, pos: nat, dsym: nat): nat
    requires dsym < 32
  {
    (if dsym < 31 then DistBase(dsym) else 0) + Low(Bits16(dat, pos), DistExtra(dsym))
  }

  /** The table entry for the bits at pos. */
  ghost function Look(dat: seq<byte>, pos: nat, lens: Lengths, mb: nat): nat
    requires Fits(lens, mb)
  {
    Entry(lens, mb, |lens|, Low(Bits16(dat, pos), mb))
  }

  lemma LookBounds(dat: seq<byte>, pos: nat, lens: Lengths, mb: nat)
    requires Fits(lens, mb)
    ensures var e := Look(dat, pos, lens, mb);
            e != 0 ==> e / 16 < |lens| && 1 <= e % 16 <= 15
  {
    var w := Low(Bits16(dat, pos), mb);
    if Entry(lens, mb, |lens|, w) != 0 {
      EntryNamesHit(lens, mb, |lens|, w);
    }
  }

  /** The distance half of a match and the copy. */
  ghost function CopyMatch(dat: seq<byte>, c: Codes, o: Out, pos: nat, add: nat): Result
    requires CodesFitTables(c)
    ensures var r := CopyMatch(dat, c, o, pos, add); r.Done? ==> pos <= r.pos <= 8 * |dat|
  {
    LookBounds(dat, pos, c.dl, c.db);
    var d := Look(dat, pos, c.dl, c.db);
    if d == 0 then Failed(InvalidDistance)
    else
      var dsym := d / 16;
      var pos1 := pos + d % 16;
      var dist := DistAt(dat, pos1, dsym);
      var pos2 := pos1 + DistExtra(dsym);
      if pos2 > 8 * |dat| then Failed(UnexpectedEof)
      else if dsym < 31 && o.bt < dist then Failed(InvalidDistance)
      else Done(CopyBytes(Reserve(o, o.bt + ROOM), add, dist, dsym < 31), pos2)
  }

  /** The loop over symbols, from pos to just past the end-of-block symbol. */
  ghost function Symbols(dat: seq<byte>, c: Codes, o: Out, pos: nat): (r: Result)
    requires CodesFitTables(c)
    ensures r.Done? ==> pos < r.pos <= 8 * |dat|
    decreases 8 * |dat| + 16 - pos
  {
    LookBounds(dat, pos, c.ll, c.lb);
    var e := Look(dat, pos, c.ll, c.lb);
    var sym, pos1 := e / 16, pos + e % 16;
    if pos1 > 8 * |dat| then Failed(UnexpectedEof)
    else if e == 0 then Failed(InvalidLength)
    else if sym < 256 then Symbols(dat, c, Store(o, sym), pos1)
    else if sym == 256 then Done(o, pos1)
    else
      var pos2 := pos1 + (if sym > 264 then LengthExtra(sym - 257) else 0);
      var r := CopyMatch(dat, c, o, pos2, LengthAt(dat, pos1, sym));
      if r.Failed? then r else Symbols(dat, c, r.out, r.pos)
  }
}
