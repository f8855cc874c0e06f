/** `inflt` on its arrays: it computes what the stream specification says, error for
    error, whatever bytes it is given. */
module Inflater {
  import opened Options
  import opened Words
  import opened Huffman
  import opened BitStream
  import opened Tokens
  import opened Inflate
  import opened Header
  import opened Stream
  import C = CodeLengths

  /** `cbuf(n)` */
  method CBuf(buf: array<byte>, n: nat, ghost bt: nat) returns (nbuf: array<byte>)
    ensures nbuf == buf || fresh(nbuf)
    ensures Out(nbuf[..], bt) == Reserve(Out(buf[..], bt), n)
  {
    if n > buf.Length {
      var size := if 2 * buf.Length > n then 2 * buf.Length else n;
      nbuf := new byte[size](i requires 0 <= i < size reads buf => if i < buf.Length then buf[i] else 0);
      assert nbuf[..] == buf[..] + seq(size - buf.Length, _ => 0 as byte);
    } else {
      nbuf := buf;
    }
  }

  /** `buf[bt] = x` */
  method Put(buf: array<byte>, bt: nat, x: byte)
    modifies buf
    ensures Out(buf[..], bt + 1) == Store(Out(old(buf[..]), bt), x)
  {
    if bt < buf.Length {
      buf[bt] := x;
    }
  }

  /** `for (; bt < end; ++bt) buf[bt] = buf[bt - dt]` */
  method CopyLoop(buf: array<byte>, bt0: nat, add: nat, dt: nat, defined: bool) returns (bt: nat)
    modifies buf
    ensures Out(buf[..], bt) == CopyBytes(Out(old(buf[..]), bt0), add, dt, defined)
  {
    hide Store, Source;
    bt := bt0;
    for left := add downto 0
      invariant CopyBytes(Out(old(buf[..]), bt0), add, dt, defined) == CopyBytes(Out(buf[..], bt), left, dt, defined)
    {
      var x := Read(buf, bt, dt, defined);
      Put(buf, bt, x);
      bt := bt + 1;
    }
  }

  method Read(buf: array<byte>, bt: nat, dt: nat, defined: bool) returns (x: byte)
    ensures x == Source(Out(buf[..], bt), dt, defined)
  {
    x := if defined && dt <= bt && bt - dt < buf.Length then buf[bt - dt] else 0;
  }

  /** `hMap(cd, mb, 1)` */
  ghost predicate TableOf(t: seq<nat>, L: Lengths, mb: nat)
    requires Fits(L, mb)
  {
    |t| == Pow2(mb) && forall w: nat :: w < |t| ==> t[w] == Entry(L, mb, |L|, w)
  }

  /** `lm[bits16(dat, pos) & lms]` */
  method Peek(dat: seq<byte>, pos: nat, t: array<nat>, mb: nat, ghost L: Lengths) returns (e: nat)
    requires Fits(L, mb) && TableOf(t[..], L, mb)
    ensures e == Look(dat, pos, L, mb)
  {
    hide Entry, Bits16, Low, Shl;
    var w := Low(Bits16(dat, pos), mb);
    Split(Bits16(dat, pos), mb);
    assert t[..][w] == t[w];
    e := t[w];
  }

  /** The outcome of a stage is what the specification returns. */
  ghost predicate Agrees(r: Result, error: Option<Error>, buf: seq<byte>, bt: nat, pos: nat) {
    match r
    case Done(o, p) => error == None && o == Out(buf, bt) && p == pos
    case Failed(e) => error == Some(e)
  }

  /** The distance half of a match, and the copy. */
  method MatchStep(dat: seq<byte>, dm: array<nat>, dbt: nat, buf0: array<byte>, bt0: nat, pos0: nat, add: nat,
                   ghost c: Codes) returns (error: Option<Error>, buf: array<byte>, bt: nat, pos: nat)
    requires CodesFitTables(c) && c.db == dbt && TableOf(dm[..], c.dl, dbt) && dm as object != buf0
    modifies buf0
    ensures buf == buf0 || fresh(buf)
    ensures Agrees(CopyMatch(dat, c, Out(old(buf0[..]), bt0), pos0, add), error, buf[..], bt, pos)
  {
    hide Look, DistBase, DistExtra, Low, Bits16, CopyBytes, Reserve, TableOf;
    buf, bt, error := buf0, bt0, None;
    LookBounds(dat, pos0, c.dl, c.db);
    var d := Peek(dat, pos0, dm, dbt, c.dl);
    if d == 0 {
      return Some(InvalidDistance), buf, bt, pos0;
    }
    var dsym := d / 16;
    pos := pos0 + d % 16;
    var dt := DistAt(dat, pos, dsym);
    pos := pos + DistExtra(dsym);
    if pos > 8 * |dat| {
      return Some(UnexpectedEof), buf, bt, pos;
    }
    buf := CBuf(buf, bt + ROOM, bt);
    if dsym < 31 && bt < dt {
      return Some(InvalidDistance), buf, bt, pos;
    }
    bt := CopyLoop(buf, bt, add, dt, dsym < 31);
  }

  /** The loop over symbols. */
  method SymbolLoop(dat: seq<byte>, lm: array<nat>, lbt: nat, dm: array<nat>, dbt: nat, buf0: array<byte>, bt0: nat, pos0: nat,
                    ghost c: Codes) returns (error: Option<Error>, buf: array<byte>, bt: nat, pos: nat)
    requires CodesFitTables(c) && c.lb == lbt && c.db == dbt
    requires TableOf(lm[..], c.ll, lbt) && TableOf(dm[..], c.dl, dbt)
    requires lm as object != buf0 && dm as object != buf0
    modifies buf0
    ensures buf == buf0 || fresh(buf)
    ensures Agrees(Symbols(dat, c, Out(old(buf0[..]), bt0), pos0), error, buf[..], bt, pos)
  {
    hide Look, LengthAt, LengthExtra, CopyMatch, TableOf, Store;
    buf, bt, pos, error := buf0, bt0, pos0, None;
    ghost var want := Symbols(dat, c, Out(buf0[..], bt0), pos0);
    while true
      invariant (buf == buf0 || fresh(buf)) && lm as object != buf && dm as object != buf
      invariant TableOf(lm[..], c.ll, lbt) && TableOf(dm[..], c.dl, dbt)
      invariant error == None && want == Symbols(dat, c, Out(buf[..], bt), pos)
      decreases 8 * |dat| + 16 - pos
    {
      LookBounds(dat, pos, c.ll, c.lb);
      var e := Peek(dat, pos, lm, lbt, c.ll);
      var sym := e / 16;
      pos := pos + e % 16;
      if pos > 8 * |dat| {
        return Some(UnexpectedEof), buf, bt, pos;
      }
      if e == 0 {
        return Some(InvalidLength), buf, bt, pos;
      }
      if sym < 256 {
        Put(buf, bt, sym);
        bt := bt + 1;
      } else if sym == 256 {
        return;
      } else {
        var add := LengthAt(dat, pos, sym);
        pos := pos + if sym > 264 then LengthExtra(sym - 257) else 0;
        error, buf, bt, pos := MatchStep(dat, dm, dbt, buf, bt, pos, add, c);
        if error != None {
          return;
        }
      }
    }
  }

  /** `hMap(cd, mb, 1)` */
  method ReadTable(cd: Lengths, mb: nat) returns (t: array<nat>)
    requires Fits(cd, mb) && |cd| <= 4096
    ensures fresh(t) && TableOf(t[..], cd, mb)
  {
    hide Entry, Shl;
    t := DecodeTable(cd, mb);
  }

  /** The loop that fills `clt` in the order of `clim`. */
  method ReadThird(dat: seq<byte>, pos: nat, hcLen: nat) returns (clt: array<nat>)
    requires hcLen <= 19
    ensures fresh(clt) && clt[..] == ThirdCode(dat, pos, hcLen)
  {
    hide Bits;
    clt := new nat[19](_ => 0);
    for i := 0 to hcLen
      invariant forall s :: 0 <= s < 19 ==> clt[s] == if PLACE[s] < i then Bits(dat, pos + 3 * PLACE[s], 3) else 0
    {
      ghost var was := clt[..];
      OrderPlace(i);
      clt[ORDER[i]] := Bits(dat, pos + i * 3, 3);
      forall s | 0 <= s < 19
        ensures clt[s] == if PLACE[s] < i + 1 then Bits(dat, pos + 3 * PLACE[s], 3) else 0
      {
        OrderPlace(s);
      }
    }
    assert |clt[..]| == 19;
  }

  /** `while (n--) ldt[i++] = c`; a write past the end is lost. */
  method Repeat(ldt: array<nat>, i: nat, n: nat, c: nat, ghost acc: seq<nat>) returns (next: nat)
    requires i == |acc| && Filled(ldt[..], acc)
    modifies ldt
    ensures next == i + n && Filled(ldt[..], acc + C.Rep(n, c))
  {
    next := i;
    for k := 0 to n
      invariant next == i + k && Filled(ldt[..], acc + C.Rep(k, c))
    {
      ghost var was := ldt[..];
      if next < ldt.Length {
        ldt[next] := c;
      }
      FilledMore(was, ldt[..], acc + C.Rep(k, c), c);
      assert acc + C.Rep(k, c) + [c] == acc + C.Rep(k + 1, c);
      next := next + 1;
    }
  }

  /** The vector holds as many of the lengths read as it has cells. */
  ghost predicate Filled(ldt: seq<nat>, acc: seq<nat>) {
    forall k :: 0 <= k < |acc| && k < |ldt| ==> ldt[k] == acc[k]
  }

  lemma FilledMore(was: seq<nat>, now: seq<nat>, acc: seq<nat>, c: nat)
    requires Filled(was, acc) && now == if |acc| < |was| then was[|acc| := c] else was
    ensures Filled(now, acc + [c])
  {
  }

  /** The loop over `clm` that fills `ldt`. */
  method ReadLdt(dat: seq<byte>, pos0: nat, clm: array<nat>, clb: nat, tl: nat, ghost clt: Lengths)
      returns (ldt: array<nat>, pos: nat)
    requires Fits(clt, clb) && TableOf(clm[..], clt, clb)
    ensures fresh(ldt) && (ldt[..], pos) == ReadLengths(dat, pos0, clt, clb, tl, [])
  {
    hide Entry, Bits, TableOf, C.ReadBits, Filled, ReadLengths, C.Append;
    ldt := new nat[tl](_ => 0);
    pos := pos0;
    ghost var acc: seq<nat> := [];
    NothingFilled(ldt[..]);
    var i := 0;
    while i < tl
      invariant i == |acc| && Filled(ldt[..], acc) && TableOf(clm[..], clt, clb) && ldt.Length == tl && clm != ldt
      invariant ReadLengths(dat, pos0, clt, clb, tl, []) == ReadLengths(dat, pos, clt, clb, tl, acc)
      decreases tl - i
    {
      var r := PeekShort(dat, pos, clm, clb, clt);
      var s := r / 16;
      pos := pos + r % 16;
      ReadBitsOf(s);
      var extra := Bits(dat, pos, C.ReadBits(s));
      ghost var acc' := C.Append(acc, s, extra);
      AppendGrows(acc, s, extra);
      LengthsStep(dat, pos - r % 16, clt, clb, tl, acc);
      pos := pos + C.ReadBits(s);
      i := OneWord(ldt, i, s, extra, acc);
      acc := acc';
    }
    AllFilled(ldt[..], acc);
    LengthsEnd(dat, pos, clt, clb, tl, acc);
  }

  lemma LengthsStep(dat: seq<byte>, pos: nat, clt: Lengths, clb: nat, tl: nat, acc: seq<nat>)
    requires Fits(clt, clb) && |acc| < tl
    ensures var r := Entry(clt, clb, |clt|, Bits(dat, pos, clb));
            var k := C.ReadBits(r / 16);
            var more := C.Append(acc, r / 16, Bits(dat, pos + r % 16, k));
            ReadLengths(dat, pos, clt, clb, tl, acc) == ReadLengths(dat, pos + r % 16 + k, clt, clb, tl, more)
  {
    hide Entry, Bits, C.ReadBits;
  }

  lemma LengthsEnd(dat: seq<byte>, pos: nat, clt: Lengths, clb: nat, tl: nat, acc: seq<nat>)
    requires Fits(clt, clb) && |acc| >= tl
    ensures ReadLengths(dat, pos, clt, clb, tl, acc) == (acc[..tl], pos)
  {
  }

  lemma ReadBitsOf(s: nat)
    ensures s < 16 ==> C.ReadBits(s) == 0
  {
  }

  lemma NothingFilled(ldt: seq<nat>)
    ensures Filled(ldt, [])
  {
  }

  lemma AllFilled(ldt: seq<nat>, acc: seq<nat>)
    requires Filled(ldt, acc) && |ldt| <= |acc|
    ensures ldt == acc[..|ldt|]
  {
  }

  /** What one symbol of the third code appends. */
  method OneWord(ldt: array<nat>, i: nat, s: nat, extra: nat, ghost acc: seq<nat>) returns (next: nat)
    requires i == |acc| && i < ldt.Length && Filled(ldt[..], acc)
    modifies ldt
    ensures next == |C.Append(acc, s, extra)| && Filled(ldt[..], C.Append(acc, s, extra))
  {
    if s < 16 {
      next := Repeat(ldt, i, 1, s, acc);
      assert C.Rep(1, s) == [s];
    } else if s == 16 {
      next := Repeat(ldt, i, 3 + extra, if i == 0 then 0 else ldt[i - 1], acc);
    } else if s == 17 {
      next := Repeat(ldt, i, 3 + extra, 0, acc);
    } else {
      next := Repeat(ldt, i, 11 + extra, 0, acc);
    }
  }

  /** `clm[bits(dat, pos, clbmsk)]` */
  method PeekShort(dat: seq<byte>, pos: nat, t: array<nat>, mb: nat, ghost L: Lengths) returns (e: nat)
    requires Fits(L, mb) && TableOf(t[..], L, mb)
    ensures e == Entry(L, mb, |L|, Bits(dat, pos, mb))
  {
    hide Entry, Shl, Low, Shr;
    var w := Bits(dat, pos, mb);
    Split(Shr(At(dat, pos / 8) + 256 * At(dat, pos / 8 + 1), pos % 8), mb);
    assert t[..][w] == t[w];
    e := t[w];
  }

  // ---- blocks ------------------------------------------------------------------------

  /** `buf.set(bytes, bt)` */
  method SetBytes(buf: array<byte>, bt0: nat, bytes: seq<byte>) returns (bt: nat)
    modifies buf
    ensures Out(buf[..], bt) == StoreAll(Out(old(buf[..]), bt0), bytes)
  {
    hide Store;
    bt := bt0;
    for i := 0 to |bytes|
      invariant StoreAll(Out(old(buf[..]), bt0), bytes) == StoreAll(Out(buf[..], bt), bytes[i..])
    {
      assert bytes[i..][0] == bytes[i] && bytes[i..][1..] == bytes[i + 1..];
      Put(buf, bt, bytes[i]);
      bt := bt + 1;
    }
    assert bytes[|bytes|..] == [];
  }

  /** A stored block, from behind its type bits. */
  method StoredBlock(dat: seq<byte>, buf0: array<byte>, bt0: nat, pos0: nat)
      returns (error: Option<Error>, buf: array<byte>, bt: nat, pos: nat)
    modifies buf0
    ensures buf == buf0 || fresh(buf)
    ensures Agrees(ReadStored(dat, Out(old(buf0[..]), bt0), pos0), error, buf[..], bt, pos)
  {
    hide Reserve, StoreAll, Shft;
    buf, bt, pos := buf0, bt0, pos0;
    var s := Shft(pos) + 4;
    var l := At(dat, s - 4) + 256 * At(dat, s - 3);
    if s + l > |dat| {
      return Some(UnexpectedEof), buf, bt, pos;
    }
    buf := CBuf(buf, bt + l, bt);
    bt := SetBytes(buf, bt, dat[s..s + l]);
    return None, buf, bt, 8 * (s + l);
  }

  /** A compressed block, from behind its header. */
  method CodedBlock(dat: seq<byte>, lm: array<nat>, lbt: nat, dm: array<nat>, dbt: nat, buf0: array<byte>, bt0: nat, pos0: nat,
                    ghost c: Codes) returns (error: Option<Error>, buf: array<byte>, bt: nat, pos: nat)
    requires CodesFitTables(c) && c.lb == lbt && c.db == dbt
    requires TableOf(lm[..], c.ll, lbt) && TableOf(dm[..], c.dl, dbt)
    requires lm as object != buf0 && dm as object != buf0
    modifies buf0
    ensures buf == buf0 || fresh(buf)
    ensures Agrees(ReadBody(dat, c, Out(old(buf0[..]), bt0), pos0), error, buf[..], bt, pos)
  {
    hide Reserve, Symbols, TableOf;
    if pos0 > 8 * |dat| {
      return Some(UnexpectedEof), buf0, bt0, pos0;
    }
    buf := CBuf(buf0, bt0 + ROOM, bt0);
    error, buf, bt, pos := SymbolLoop(dat, lm, lbt, dm, dbt, buf, bt0, pos0, c);
  }

  /** The two codes a header describes, with their tables. */
  method HeaderTables(dat: seq<byte>, pos0: nat)
      returns (lm: array<nat>, lbt: nat, dm: array<nat>, dbt: nat, pos: nat, ghost c: Codes)
    ensures (c, pos) == ReadHeader(dat, pos0) && CodesFitTables(c) && c.lb == lbt && c.db == dbt
    ensures fresh(lm) && fresh(dm) && TableOf(lm[..], c.ll, lbt) && TableOf(dm[..], c.dl, dbt)
  {
    hide Bits, MaxOf, Entry, TableOf, ThirdCode, ReadLengths;
    c := ReadHeader(dat, pos0).0;
    var hLit, hcLen := Bits(dat, pos0, 5) + 257, Bits(dat, pos0 + 10, 4) + 4;
    var tl := hLit + Bits(dat, pos0 + 5, 5) + 1;
    FiveBits(dat, pos0);
    FiveBits(dat, pos0 + 5);
    FourBits(dat, pos0 + 10);
    var clt := ReadThird(dat, pos0 + 14, hcLen);
    ThirdFits(dat, pos0 + 14, hcLen);
    var clb := MaxOf(clt[..]);
    var clm := ReadTable(clt[..], clb);
    var ldt;
    ldt, pos := ReadLdt(dat, pos0 + 14 + 3 * hcLen, clm, clb, tl, clt[..]);
    var lt, dt := ldt[..hLit], ldt[hLit..];
    assert c.ll == lt && c.dl == dt by { CutIs(dat, pos0, ldt[..], pos); }
    lbt, dbt := MaxOf(lt), MaxOf(dt);
    lm := ReadTable(lt, lbt);
    dm := ReadTable(dt, dbt);
  }

  lemma FourBits(dat: seq<byte>, pos: nat)
    ensures Bits(dat, pos, 4) < 16
  {
    hide Shr, Low;
    Split(Shr(At(dat, pos / 8) + 256 * At(dat, pos / 8 + 1), pos % 8), 4);
    Pow2Values();
  }

  lemma CutIs(dat: seq<byte>, pos: nat, ldt: seq<nat>, end: nat)
    requires var n := Bits(dat, pos + 10, 4) + 4;
             var clt := ThirdCode(dat, pos + 14, n);
             Fits(clt, MaxOf(clt)) &&
             (ldt, end) == ReadLengths(dat, pos + 14 + 3 * n, clt, MaxOf(clt), Bits(dat, pos, 5) + 257 + Bits(dat, pos + 5, 5) + 1, [])
    ensures var (c, p) := ReadHeader(dat, pos); var hLit := Bits(dat, pos, 5) + 257;
            && p == end && hLit <= |ldt| && c.ll == ldt[..hLit] && c.dl == ldt[hLit..]
            && c.lb == MaxOf(c.ll) && c.db == MaxOf(c.dl)
  {
    hide Bits, MaxOf, ThirdCode, ReadLengths;
  }

  /** One block of any kind. */
  method OneBlock(dat: seq<byte>, flrm: array<nat>, fdrm: array<nat>, buf0: array<byte>, bt0: nat, pos0: nat)
      returns (error: Option<Error>, buf: array<byte>, bt: nat, pos: nat)
    requires Fits(FixedLengths(), 9) && Fits(FixedDistances(), 5)
    requires TableOf(flrm[..], FixedLengths(), 9) && TableOf(fdrm[..], FixedDistances(), 5)
    requires flrm as object != buf0 && fdrm as object != buf0
    modifies buf0
    ensures buf == buf0 || fresh(buf)
    ensures Agrees(ReadBlock(dat, Out(old(buf0[..]), bt0), pos0), error, buf[..], bt, pos)
  {
    hide Bits, TableOf, ReadBody, ReadStored, ReadHeader, FixedLengths, FixedDistances;
    FixedCodesOk();
    var kind := Bits(dat, pos0 + 1, 2);
    if kind == 0 {
      error, buf, bt, pos := StoredBlock(dat, buf0, bt0, pos0 + 3);
    } else if kind == 1 {
      error, buf, bt, pos := CodedBlock(dat, flrm, 9, fdrm, 5, buf0, bt0, pos0 + 3, FixedCodes());
    } else if kind == 2 {
      var lm, lbt, dm, dbt, p;
      ghost var c;
      lm, lbt, dm, dbt, p, c := HeaderTables(dat, pos0 + 3);
      error, buf, bt, pos := CodedBlock(dat, lm, lbt, dm, dbt, buf0, bt0, p, c);
    } else {
      return Some(InvalidBlockType), buf0, bt0, pos0;
    }
  }

  /** `inflt` for input that is complete, writing from the start of the buffer it is given:
      the bytes it returns, or the error it throws, are those of the specification. */
  method InfltAll(dat: seq<byte>, buf0: array<byte>) returns (error: Option<Error>, bytes: seq<byte>, pos: nat)
    modifies buf0
    ensures dat == [] ==> error == None && bytes == old(buf0[..])
    ensures dat != [] ==>
              match Inflt(dat, Out(old(buf0[..]), 0), 0)
              case Done(o, p) => error == None && bytes == Written(o) && pos == p
              case Failed(e) => error == Some(e)
  {
    hide Bits, TableOf, ReadBlock, FixedLengths, FixedDistances;
    if dat == [] {
      return None, buf0[..], 0;
    }
    FixedCodesOk();
    var flrm := ReadTable(FixedLengths(), 9);
    var fdrm := ReadTable(FixedDistances(), 5);
    var buf, bt: nat := buf0, 0;
    ghost var want := Inflt(dat, Out(buf0[..], 0), 0);
    pos := 0;
    error := None;
    while true
      invariant (buf == buf0 || fresh(buf)) && flrm as object != buf && fdrm as object != buf
      invariant TableOf(flrm[..], FixedLengths(), 9) && TableOf(fdrm[..], FixedDistances(), 5)
      invariant error == None && want == Inflt(dat, Out(buf[..], bt), pos)
      decreases 8 * |dat| + 1 - pos
    {
      var final := Bits(dat, pos, 1);
      error, buf, bt, pos := OneBlock(dat, flrm, fdrm, buf, bt, pos);
      if error != None {
        bytes := [];
        return;
      }
      if final == 1 {
        break;
      }
    }
    bytes := if bt <= buf.Length then buf[..bt] else buf[..];
  }
}
