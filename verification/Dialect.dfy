/** ZRLE as section 7.7.6 of RFC 6143 has it, with compact pixels and one zlib stream that
    goes on over all rectangles, and what becomes of it in a client that reads whole pixels
    and inflates each rectangle on its own. */
module Dialect {
  import opened Options
  import opened Words
  import opened Pixels
  import opened Rre
  import opened Rfb
  import opened ZrleStall
  import Blocks
  import Stream
  import Zlib
  import Zrle

  // ---- compact pixels ---------------------------------------------------------------------

  /** The length of a tile in three of the standard's forms, each pixel in three bytes. */
  predicate Compact(d: seq<byte>, w: nat, h: nat) {
    && d != []
    && (d[0] == 0 ==> |d| == 1 + 3 * (w * h))
    && (d[0] == 1 ==> |d| == 4)
    && (d[0] > 1 ==> d[0] <= 16 && |d| == 1 + 3 * d[0] as int + Zrle.RowBytes(w, Zrle.IndexBits(d[0] as int)) * h)
  }

  /** A rectangle of one tile that is sent raw, in one colour or packed is always read as one
      from which bytes are missing. */
  lemma CompactShort(d: seq<byte>, w: nat, h: nat)
    requires 1 <= w <= 64 && 1 <= h <= 64 && Compact(d, w, h)
    ensures Stops(d, 0, w, h, 0, 0, CLIENT, TooLittle)
    ensures Zrle.ReadTiles(d, 0, w, h, 0, 0, CLIENT, []).Short?
  {
    hide Zrle.ReadTiles, Zrle.RowBytes, Zrle.IndexBits;
    NoneEmpty(w, h);
    LacksBytes(d, w, h);
    ShortIff(d, 0, w, h, 0, 0, CLIENT, []);
  }

  lemma NoneEmpty(w: nat, h: nat)
    requires w >= 1 && h >= 1
    ensures w * h >= 1
  {
  }

  lemma LacksBytes(d: seq<byte>, w: nat, h: nat)
    requires w * h >= 1 && Compact(d, w, h)
    ensures TileEnd(d, 0, w, h, CLIENT) == None && !Strange(d, 0) && !BadTile(d, 0, w, h, CLIENT)
  {
    hide Zrle.RowBytes, Zrle.IndexBits;
    assert Zrle.PaletteEnd(1, d[0] as int, CLIENT) == 1 + 4 * d[0] as int;
    assert RawEnd(1, w, h, CLIENT) == 1 + 4 * (w * h);
    RowsBehind(1 + 3 * d[0] as int, w, h, d[0] as int);
    assert RowsEnd(1 + 4 * d[0] as int, w, h, d[0] as int) == d[0] as int + RowsEnd(1 + 3 * d[0] as int, w, h, d[0] as int);
  }

  /** One pixel in one colour. */
  lemma CompactExample(b: byte, g: byte, r: byte)
    ensures Zrle.ReadTiles([1, b, g, r], 0, 1, 1, 0, 0, CLIENT, []) == Zrle.Short
  {
    CompactShort([1, b, g, r], 1, 1);
  }

  // ---- what does not inflate -------------------------------------------------------------------

  /** `createZrleInflater`: what does not inflate is deflated instead, and the result begins
      as every zlib stream that `zlibSync` makes. */
  ghost predicate Bundled(inflate: seq<byte> -> Option<seq<byte>>) {
    forall z :: match Zlib.Unzlib(z)
                case Some(x) => inflate(z) == Some(x)
                case None => inflate(z).Some? && inflate(z).value != [] && inflate(z).value[0] == 120
  }

  /** A rectangle whose payload does not inflate is skipped without a word, unless it is
      empty. */
  lemma NotInflatedSkipped(env: Env, d: seq<byte>, o: nat, x: nat, y: nat, w: nat, h: nat)
    requires Bundled(env.inflate) && w > 0 && h > 0 && o + 4 <= |d| && o + 4 + Num(d, o, 4) <= |d|
    requires Zlib.Unzlib(d[o + 4..o + 4 + Num(d, o, 4)]) == None
    ensures ReadZrle(env, d, o, x, y, w, h) == Got(o + 4 + Num(d, o, 4), [], Keep, false)
  {
    hide Num, Zlib.Unzlib;
    var z := d[o + 4..o + 4 + Num(d, o, 4)];
    var decoded := env.inflate(z).value;
    assert match Zlib.Unzlib(z) case Some(x) => env.inflate(z) == Some(x) case None => env.inflate(z).Some? && decoded != [] && decoded[0] == 120;
    Skips(decoded, w, h);
  }

  lemma Skips(decoded: seq<byte>, w: nat, h: nat)
    requires decoded != [] && decoded[0] == 120 && w > 0 && h > 0
    ensures Zrle.ReadTiles(decoded, 0, w, h, 0, 0, CLIENT, []) == Zrle.Skip
  {
    hide Zrle.ReadTile;
    TileIff(decoded, 0, Words.Min(64, w), Words.Min(64, h), CLIENT);
  }

  /** So the first ZRLE rectangle of a server that keeps to the standard and flushes its
      stream behind it, whatever is in it, is never shown. */
  lemma FirstRectangleSkipped(env: Env, d: seq<byte>, o: nat, x: nat, y: nat, w: nat, h: nat, level: nat, body: seq<byte>,
                              bs: seq<Stream.Block>)
    requires Bundled(env.inflate) && w > 0 && h > 0 && o + 4 <= |d| && o + 4 + Num(d, o, 4) <= |d|
    requires level <= 9 && body != [] && Zlib.Flushed(body, bs)
    requires d[o + 4..o + 4 + Num(d, o, 4)] == Zlib.Header(level) + body + Zlib.FLUSH
    ensures ReadZrle(env, d, o, x, y, w, h) == Got(o + 4 + Num(d, o, 4), [], Keep, false)
  {
    hide Num, Zlib.Flushed, Zlib.Unzlib, Zlib.Header, Bundled, ReadZrle;
    Zlib.FlushedFails(level, body, bs);
    NotInflatedSkipped(env, d, o, x, y, w, h);
  }

  // ---- a session that stalls ----------------------------------------------------------------------

  /** An update that begins with a ZRLE rectangle which is all there. */
  predicate BeginsZrle(d: seq<byte>) {
    && |d| >= 20 && d[0] == 0 && Num(d, 2, 2) > 0 && Signed(Num(d, 12, 4)) == 16 && 20 + Num(d, 16, 4) <= |d|
  }

  function ZrlePayload(d: seq<byte>): seq<byte>
    requires BeginsZrle(d)
  {
    d[20..20 + Num(d, 16, 4)]
  }

  /** Such an update is never delivered, nor anything that the server sends behind it, if the
      rectangle inflates to something that is reported short. */
  lemma StalledForEver(env: Env, d: seq<byte>, more: seq<byte>, screen: Screen)
    requires BeginsZrle(d) && env.inflate(ZrlePayload(d)).Some?
    requires var x := env.inflate(ZrlePayload(d)).value; var (w, h) := (Num(d, 8, 2), Num(d, 10, 2));
             Stops(x, 0, w, h, 0, 0, CLIENT, TooLittle) || Stops(x, 0, w, h, 0, 0, CLIENT, BadIndex)
    ensures var s := State(Connected, d + more, screen); Run(env, s) == Done(s, [], [])
  {
    hide Num, Signed, Stops, Zrle.ReadTiles, Zrle.Parse, ReadRaw, ReadRre, ReadHextile, ReadName, ReadCursor;
    var e := d + more;
    NumStable(d, e, 2, 2);
    NumStable(d, e, 4, 2);
    NumStable(d, e, 6, 2);
    NumStable(d, e, 8, 2);
    NumStable(d, e, 10, 2);
    NumStable(d, e, 12, 4);
    NumStable(d, e, 16, 4);
    NeverComplete(d, e, 16, Num(d, 8, 2), Num(d, 10, 2), CLIENT, env.inflate);
    assert ReadRect(env, e, 4) == RectRead.Missing;
    assert ReadRects(env, e, 4, Num(e, 2, 2), screen, []) == Partial(screen);
  }
}
