/** The wrapper around a deflate stream, RFC 1950, as `Unzlib` takes it off: a header that is
    checked, and a trailer that is cut off and not looked at. */
module Zlib {
  import opened Options
  import opened Words
  import opened BitStream
  import opened Fields
  import H = Header
  import opened Inflate
  import opened Blocks
  import opened Stream
  import Inflater

  /** What `zls` lets pass: deflate with a window of at most 32768, a multiple of 31, no
      dictionary. */
  predicate HeaderOk(p: seq<byte>) {
    |p| >= 2 && p[0] % 16 == 8 && p[0] / 16 <= 7 && (256 * p[0] as int + p[1] as int) % 31 == 0 && p[1] / 32 % 2 == 0
  }

  /** What a whole payload inflates to, or nothing when it throws. */
  ghost function Unzlib(p: seq<byte>): Option<seq<byte>> {
    if |p| < 6 || !HeaderOk(p) then None
    else
      var body := p[2..|p| - 4];
      if body == [] then Some([])
      else
        match Inflt(body, FreshOut(), 0)
        case Done(o, _) => Some(Written(o))
        case Failed(_) => None
  }

  /** The two header bytes: method 8, a window of at most 32768, a multiple of 31, no dictionary. */
  lemma UnzlibParts(p: seq<byte>)
    ensures var sound := |p| >= 6 && p[0] % 16 == 8 && p[0] < 128 && (256 * p[0] as int + p[1] as int) % 31 == 0 && p[1] % 64 < 32;
            && (!sound ==> Unzlib(p) == None)
            && (sound && |p| == 6 ==> Unzlib(p) == Some([]))
            && (sound && |p| > 6 ==> match Inflt(p[2..|p| - 4], FreshOut(), 0) case Done(o, _) => Unzlib(p) == Some(Written(o)) case Failed(_) => Unzlib(p) == None)
  {
    hide Inflt, Written;
  }

  /** `new Unzlib(…).push(payload, true)`, all that it hands on. */
  method UnzlibAll(p: seq<byte>) returns (r: Option<seq<byte>>)
    ensures r == Unzlib(p)
    ensures var sound := |p| >= 6 && p[0] % 16 == 8 && p[0] < 128 && (256 * p[0] as int + p[1] as int) % 31 == 0 && p[1] % 64 < 32;
            && (!sound ==> r == None)
            && (sound && |p| == 6 ==> r == Some([]))
            && (sound && |p| > 6 ==> match Inflt(p[2..|p| - 4], FreshOut(), 0) case Done(o, _) => r == Some(Written(o)) case Failed(_) => r == None)
  {
    hide Inflt, Written;
    UnzlibParts(p);
    if |p| < 6 || !HeaderOk(p) {
      return None;
    }
    var body := p[2..|p| - 4];
    if body == [] {
      return Some([]);
    }
    var buf := new byte[32768](_ => 0);
    assert Out(buf[..], 0) == FreshOut();
    var error, bytes, pos := Inflater.InfltAll(body, buf);
    r := if error == None then Some(bytes) else None;
  }

  /** `zlh` without a dictionary. */
  function Header(level: nat): (h: seq<byte>)
    requires level <= 9
    ensures |h| == 2 && HeaderOk(h)
  {
    var c: int := 64 * if level == 0 then 0 else if level < 6 then 1 else if level == 9 then 3 else 2;
    var word: int := 256 * 120 + c;
    [120, c + (31 - word % 31)]
  }

  lemma HeaderBytes(level: nat)
    requires level <= 9
    ensures Header(level) == [0x78, if level == 0 then 0x01 else if level < 6 then 0x5E else if level < 9 then 0x9C else 0xDA]
  {
  }

  lemma FreshHolds()
    ensures Holding(FreshOut(), [])
  {
    assert FreshOut().buf[..0] == [];
  }

  /** Any list of blocks, in any mixture of kinds, comes out as what it stands for, behind a
      header of any level; and whatever the trailer says. */
  lemma UnzlibReads(level: nat, body: seq<byte>, trailer: seq<byte>, bs: seq<Block>)
    requires level <= 9 && |trailer| == 4
    requires bs != [] && AllSendable(bs, []) && Holds(body, 0, StreamFields(bs, [], 0))
    ensures Unzlib(Header(level) + body + trailer) == Some(Contents([], bs))
  {
    hide AllSendable, Holds, StreamFields, Contents, Inflt, FreshOut, Written, Holding;
    var p := Header(level) + body + trailer;
    FreshHolds();
    StreamReads(body, FreshOut(), 0, bs, []);
    assert p[2..|p| - 4] == body && p[0] == Header(level)[0] && p[1] == Header(level)[1];
    NoStream();
  }

  lemma NoStream()
    ensures Inflt([], FreshOut(), 0).Failed?
  {
  }

  // ---- a stream that goes on ----------------------------------------------------------------

  /** Blocks none of which is the last, and behind them the head of an empty stored block, up
      to the length that a flush sends and that is cut off as if it were the trailer. */
  ghost function OpenFields(bs: seq<Block>, out: seq<byte>, p: nat): seq<Field>
    requires AllSendable(bs, out)
    decreases |bs|
  {
    if bs == [] then [Field(0, 1), Field(0, 2)]
    else
      var fs := BlockFields(bs[0], |out|, false, p);
      fs + OpenFields(bs[1..], Content(out, bs[0]), p + Width(fs))
  }

  const FLUSH: seq<byte> := [0, 0, 255, 255]

  /** Where the head of the empty block begins. */
  ghost function OpenEnd(bs: seq<Block>, out: seq<byte>, p: nat): nat
    requires AllSendable(bs, out)
    decreases |bs|
  {
    if bs == [] then p else OpenEnd(bs[1..], Content(out, bs[0]), p + Width(BlockFields(bs[0], |out|, false, p)))
  }

  /** The reader gets as far as the length of the empty block and finds the input at its
      end. */
  lemma {:induction false} OpenFails(dat: seq<byte>, o: Out, p: nat, bs: seq<Block>, out: seq<byte>)
    requires AllSendable(bs, out) && Holding(o, out) && Holds(dat, p, OpenFields(bs, out, p))
    requires 8 * |dat| < OpenEnd(bs, out, p) + 3 + 8
    ensures Inflt(dat, o, p) == Failed(UnexpectedEof)
    decreases |bs|
  {
    hide Holds, Bits, Holding, BlockFields, Content, Width, ReadBlock, Sendable;
    if bs == [] {
      HeadFails(dat, o, p);
    } else {
      var fs := BlockFields(bs[0], |out|, false, p);
      var more := OpenFields(bs[1..], Content(out, bs[0]), p + Width(fs));
      BlockReads(dat, o, p, bs[0], false, out, more);
      OpenFails(dat, ReadBlock(dat, o, p).out, p + Width(fs), bs[1..], Content(out, bs[0]));
    }
  }

  lemma HeadFails(dat: seq<byte>, o: Out, p: nat)
    requires Holds(dat, p, [Field(0, 1), Field(0, 2)]) && 8 * |dat| < p + 3 + 8
    ensures Inflt(dat, o, p) == Failed(UnexpectedEof)
  {
    hide Holds, Bits, Width, H.ReadHeader, ReadBody;
    assert [Field(0, 1)] + ([Field(0, 2)] + []) == [Field(0, 1), Field(0, 2)];
    KindReads(dat, p, false, 0, []);
    StoredPastEnd(dat, o, p + 3);
  }

  lemma StoredPastEnd(dat: seq<byte>, o: Out, p: nat)
    requires 8 * |dat| < p + 8
    ensures ReadStored(dat, o, p) == Failed(UnexpectedEof)
  {
  }

  /** What a server has deflated of a stream that goes on, without the four bytes that end a
      flush. */
  ghost predicate Flushed(body: seq<byte>, bs: seq<Block>) {
    AllSendable(bs, []) && Holds(body, 0, OpenFields(bs, [], 0)) && 8 * |body| < OpenEnd(bs, [], 0) + 3 + 8
  }

  /** What a server has deflated so far and then flushed, as RFC 1950 and RFC 1951 have it,
      does not inflate by itself: its last four bytes are taken for a trailer. */
  lemma FlushedFails(level: nat, body: seq<byte>, bs: seq<Block>)
    requires level <= 9 && body != [] && Flushed(body, bs)
    ensures Unzlib(Header(level) + body + FLUSH) == None
  {
    hide AllSendable, Holds, OpenFields, OpenEnd, Inflt, FreshOut, Holding;
    var z := Header(level) + body + FLUSH;
    FreshHolds();
    OpenFails(body, FreshOut(), 0, bs, []);
    assert z[2..|z| - 4] == body;
  }
}
