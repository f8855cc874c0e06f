/** The rectangles of a framebuffer update as a server sends them (sections 7.6.1, 7.7 and
    7.8 of RFC 6143), and that the client makes of their bytes what was sent. */
module Rectangles {
  import opened Options
  import opened Words
  import opened Pixels
  import opened Rre
  import opened Rfb
  import opened Encodings
  import opened Packing
  import opened ZrleEncodings
  import Zrle
  import Zlib
  import Stream
  import Blocks
  import Tiles
  import Hextile

  datatype Place = Place(x: nat, y: nat, w: nat, h: nat)

  /** What a rectangle carries; `Lines` is RRE for k = 2 and CoRRE for k = 1. */
  datatype Content = Plain(pixels: seq<Rgba>)
                   | Moved(srcX: nat, srcY: nat)
                   | Lines(background: Rgba, subs: seq<Sub>, k: nat)
                   | Squares(tiles: seq<Sent>)
                   | Zipped(zipped: seq<byte>, coded: seq<Coded>)
                   | Shape(pixels: seq<Rgba>, visible: seq<bool>)
                   | Titled(title: seq<byte>)
                   | Resized
                   | Screens(screens: nat, rest: seq<byte>)

  ghost predicate Proper(env: Env, p: Place, c: Content) {
    && p.x < 65536 && p.y < 65536 && p.w < 65536 && p.h < 65536
    && match c
       case Plain(pixels) => |pixels| == PixelCount(p.w, p.h) && AllSolid(pixels)
       case Moved(srcX, srcY) => srcX < 65536 && srcY < 65536
       case Lines(background, subs, k) =>
         (k == 1 || k == 2) && background.a == 255 && |subs| < 0x1_0000_0000 && forall i :: 0 <= i < |subs| ==> SubFits(subs[i], k)
       case Squares(tiles) => Covers(tiles, p.w, p.h, 0, 0)
       case Zipped(zipped, coded) =>
         && |zipped| < 0x1_0000_0000 && Covering(coded, p.w, p.h, 0, 0)
         && env.inflate(zipped).Some? && Starts(env.inflate(zipped).value, 0, CoveringBytes(coded, p.w, p.h, 0, 0))
       case Shape(pixels, visible) => |pixels| == |visible| == PixelCount(p.w, p.h) && AllSolid(pixels)
       case Titled(title) => |title| < 0x1_0000_0000
       case Resized => true
       case Screens(screens, rest) => screens < 256 && |rest| == 3 + 16 * screens
  }

  /** The number of an encoding. */
  function Code(c: Content): int {
    match c
    case Plain(_) => 0
    case Moved(_, _) => 1
    case Lines(_, _, k) => if k == 2 then 2 else 4
    case Squares(_) => 5
    case Zipped(_, _) => 16
    case Shape(_, _) => -239
    case Titled(_) => -307
    case Resized => -223
    case Screens(_, _) => -308
  }

  // ---- bytes ----------------------------------------------------------------------------------

  function Word(v: int): nat
    requires -0x8000_0000 <= v < 0x8000_0000
  {
    if v < 0 then v + 0x1_0000_0000 else v
  }

  function HeaderBytes(p: Place, code: int): (r: seq<byte>)
    requires -0x8000_0000 <= code < 0x8000_0000
    ensures |r| == 12
  {
    Be(p.x, 2) + (Be(p.y, 2) + (Be(p.w, 2) + (Be(p.h, 2) + Be(Word(code), 4))))
  }

  ghost function ContentBytes(env: Env, p: Place, c: Content): seq<byte>
    requires Proper(env, p, c)
  {
    match c
    case Plain(pixels) => RawBytes(pixels)
    case Moved(srcX, srcY) => Be(srcX, 2) + Be(srcY, 2)
    case Lines(background, subs, k) => RreBytes(background, subs, k)
    case Squares(tiles) => RectBytes(tiles, p.w, p.h, 0, 0)
    case Zipped(zipped, _) => Be(|zipped|, 4) + zipped
    case Shape(pixels, visible) => RawBytes(pixels) + MaskRows(visible, p.w, p.h)
    case Titled(title) => Be(|title|, 4) + title
    case Resized => []
    case Screens(screens, rest) => [ScreenCount(screens)] + rest
  }

  function ScreenCount(n: nat): byte
    requires n < 256
  {
    n
  }

  // ---- the cursor's mask ---------------------------------------------------------------------------

  /** A bit for each pixel, set where it is visible. */
  function Flags(visible: seq<bool>): (r: seq<nat>)
    ensures |r| == |visible| && Narrow(r, 1)
  {
    hide Pow2;
    Pow2Values();
    seq<nat>(|visible|, i requires 0 <= i < |visible| => if visible[i] then 1 else 0)
  }

  function MaskRows(visible: seq<bool>, w: nat, h: nat): seq<byte> { Rows(Flags(visible), 1, w, h) }

  lemma MaskRowsLength(visible: seq<bool>, w: nat, h: nat)
    ensures |MaskRows(visible, w, h)| == MaskBytes(w, h)
  {
    hide Rows;
    RowsLength(Flags(visible), 1, w, h);
  }

  /** The client finds each pixel's own bit. */
  lemma MaskReads(visible: seq<bool>, w: nat, h: nat, px: nat, py: nat)
    requires px < w && py < h && py * w + px < |visible|
    ensures MaskAt(MaskRows(visible, w, h), w, px, py) <==> visible[py * w + px]
  {
    hide Rows, Shr, Low;
    CellReads(Flags(visible), 1, w, h, py, px);
    LowOne(Shr(MaskRows(visible, w, h)[py * MaskRow(w) + px / 8], 7 - px % 8));
  }

  lemma LowOne(x: nat)
    ensures Low(x, 1) == x % 2
  {
    assert Low(x / 2, 0) == 0;
  }

  // ---- what the client is to make of them ---------------------------------------------------------

  /** The tiles of a Hextile rectangle lie in it as the grid demands. */
  lemma SquaresLaid(tiles: seq<Sent>, w: nat, h: nat)
    requires Covers(tiles, w, h, 0, 0)
    ensures Tiles.AllLaid(MeantTiles(tiles, w, h, 0, 0, Hextile.BLACK, Hextile.WHITE), w, h)
  {
    hide Covers, MeantTiles, RectBytes, Tiles.AllLaid, Hextile.Parse;
    var d := RectBytes(tiles, w, h, 0, 0);
    assert d[0..|d|] == d;
    HextileReads(d, 0, tiles, w, h);
    Hextile.ParseMeaning(d, 0, w, h, CLIENT);
  }

  lemma ZippedLaid(env: Env, p: Place, zipped: seq<byte>, coded: seq<Coded>)
    requires Proper(env, p, Zipped(zipped, coded))
    ensures Tiles.AllLaid(CodedTiles(coded, p.w, p.h, 0, 0), p.w, p.h)
  {
    hide Covering, CoveringBytes, CodedTiles, Tiles.AllLaid, Zrle.Parse;
    var d := Be(|zipped|, 4) + zipped;
    assert d[0..|d|] == d;
    ZrleReads(d, 0, zipped, coded, p.w, p.h, env.inflate);
    Zrle.ParseMeaning(d, 0, p.w, p.h, CLIENT, env.inflate);
  }

  ghost function Shown(env: Env, p: Place, c: Content): seq<Rect>
    requires Proper(env, p, c)
  {
    match c
    case Plain(pixels) => [Area(p.x, p.y, p.w, p.h, pixels)]
    case Moved(srcX, srcY) => [CopyRect(p.x, p.y, p.w, p.h, srcX, srcY)]
    case Lines(background, subs, k) => [Area(p.x, p.y, p.w, p.h, Image(p.w, p.h, Picture(background, subs, 0)))]
    case Squares(tiles) =>
      SquaresLaid(tiles, p.w, p.h);
      [Area(p.x, p.y, p.w, p.h, Tiles.Render(p.w, p.h, MeantTiles(tiles, p.w, p.h, 0, 0, Hextile.BLACK, Hextile.WHITE)))]
    case Zipped(zipped, coded) =>
      ZippedLaid(env, p, zipped, coded);
      [Area(p.x, p.y, p.w, p.h, Tiles.Render(p.w, p.h, CodedTiles(coded, p.w, p.h, 0, 0)))]
    case Shape(pixels, visible) => [Cursor(p.x, p.y, p.w, p.h, Cut(pixels, visible))]
    case Titled(title) => [DesktopName(env.name(title))]
    case Resized => [Resize(p.x, p.y, p.w, p.h)]
    case Screens(_, _) => [Resize(p.x, p.y, p.w, p.h)]
  }

  /** The pixels that are not visible made transparent. */
  function Cut(pixels: seq<Rgba>, visible: seq<bool>): seq<Rgba>
    requires |pixels| == |visible|
  {
    seq(|pixels|, i requires 0 <= i < |pixels| => if visible[i] then pixels[i] else pixels[i].(a := 0))
  }

  function Changes(env: Env, p: Place, c: Content): Change {
    match c
    case Titled(title) => Name(env.name(title))
    case Resized => Size(p.w, p.h)
    case Screens(_, _) => Size(p.w, p.h)
    case _ => Keep
  }

  // ---- reading back -----------------------------------------------------------------------------------

  lemma PlainReads(d: seq<byte>, o: nat, p: Place, pixels: seq<Rgba>)
    requires Starts(d, o, RawBytes(pixels)) && AllSolid(pixels) && |pixels| == PixelCount(p.w, p.h)
    ensures ReadRaw(d, o, p.x, p.y, p.w, p.h) == Got(o + 4 * |pixels|, [Area(p.x, p.y, p.w, p.h, pixels)], Keep, false)
  {
    hide *;
    RawReads(d, o, pixels);
    PixelsOf(d, o, p, pixels);
  }

  lemma PixelsOf(d: seq<byte>, o: nat, p: Place, pixels: seq<Rgba>)
    requires |pixels| == PixelCount(p.w, p.h) && o + 4 * |pixels| <= |d| && RawPixels(d, o, |pixels|, CLIENT) == pixels
    ensures ReadRaw(d, o, p.x, p.y, p.w, p.h) == Got(o + 4 * |pixels|, [Area(p.x, p.y, p.w, p.h, pixels)], Keep, false)
  {
    hide RawPixels;
  }

  lemma LinesRead(env: Env, d: seq<byte>, o: nat, p: Place, background: Rgba, subs: seq<Sub>, k: nat)
    requires Proper(env, p, Lines(background, subs, k)) && Starts(d, o, RreBytes(background, subs, k))
    ensures ReadRre(d, o, p.x, p.y, p.w, p.h, k)
         == Got(o + |RreBytes(background, subs, k)|, [Area(p.x, p.y, p.w, p.h, Image(p.w, p.h, Picture(background, subs, 0)))], Keep, false)
  {
    hide Starts, Rre.Parse, RreBytes, PaintSubs, Pixels.Fill, Blank;
    RreReads(d, o, background, subs, k);
  }

  lemma SquaresRead(d: seq<byte>, o: nat, p: Place, tiles: seq<Sent>, env: Env)
    requires Proper(env, p, Squares(tiles)) && Starts(d, o, RectBytes(tiles, p.w, p.h, 0, 0)) && o <= |d|
    ensures ReadHextile(d, o, p.x, p.y, p.w, p.h)
         == Got(o + |RectBytes(tiles, p.w, p.h, 0, 0)|, Shown(env, p, Squares(tiles)), Keep, false)
  {
    hide Starts, Hextile.Parse, RectBytes, Covers, MeantTiles, Tiles.Render;
    HextileReads(d, o, tiles, p.w, p.h);
  }

  lemma ZippedReads(env: Env, d: seq<byte>, o: nat, p: Place, zipped: seq<byte>, coded: seq<Coded>)
    requires Proper(env, p, Zipped(zipped, coded)) && Starts(d, o, Be(|zipped|, 4) + zipped)
    ensures ReadZrle(env, d, o, p.x, p.y, p.w, p.h) == Got(o + 4 + |zipped|, Shown(env, p, Zipped(zipped, coded)), Keep, false)
  {
    hide Starts, Zrle.Parse, Covering, CoveringBytes, CodedTiles, Tiles.Render, Be;
    ZrleReads(d, o, zipped, coded, p.w, p.h, env.inflate);
  }

  lemma CutMasked(pixels: seq<Rgba>, visible: seq<bool>, w: nat, h: nat)
    requires |pixels| == |visible| == w * h
    ensures Masked(pixels, MaskRows(visible, w, h), w) == Cut(pixels, visible)
  {
    hide MaskAt, MaskRows;
    forall i | 0 <= i < |pixels|
      ensures Masked(pixels, MaskRows(visible, w, h), w)[i] == Cut(pixels, visible)[i]
    {
      RowOf(i, w, h);
      MaskReads(visible, w, h, i % w, i / w);
    }
  }

  lemma RowOf(i: nat, w: nat, h: nat)
    requires i < w * h
    ensures w > 0 && i / w < h && (i / w) * w + i % w == i
  {
    if i / w >= h {
      AsMany(h, i / w, w);
    }
  }

  lemma AsMany(a: nat, b: nat, w: nat)
    requires a <= b
    ensures a * w <= b * w
  {
  }

  lemma ShapeReads(env: Env, d: seq<byte>, o: nat, p: Place, pixels: seq<Rgba>, visible: seq<bool>)
    requires Proper(env, p, Shape(pixels, visible)) && Starts(d, o, RawBytes(pixels) + MaskRows(visible, p.w, p.h))
    ensures ReadCursor(d, o, p.x, p.y, p.w, p.h)
         == Got(o + |RawBytes(pixels) + MaskRows(visible, p.w, p.h)|, [Cursor(p.x, p.y, p.w, p.h, Cut(pixels, visible))], Keep, false)
  {
    hide RawPixels, RawBytes, MaskRows, Masked, Cut, MaskBytes;
    var mask := MaskRows(visible, p.w, p.h);
    StartsBoth(d, o, RawBytes(pixels), mask);
    RawReads(d, o, pixels);
    MaskRowsLength(visible, p.w, p.h);
    CutMasked(pixels, visible, p.w, p.h);
  }

  lemma TitleReads(env: Env, d: seq<byte>, o: nat, title: seq<byte>)
    requires |title| < 0x1_0000_0000 && Starts(d, o, Be(|title|, 4) + title)
    ensures ReadName(env, d, o) == Got(o + 4 + |title|, [DesktopName(env.name(title))], Name(env.name(title)), false)
  {
    hide Be, Num, Pow256, Starts;
    LengthReads(d, o, title);
  }

  /** What a rectangle carries is read back, whatever stands in front of it and behind it. */
  lemma ContentReads(env: Env, d: seq<byte>, o: nat, p: Place, c: Content)
    requires Proper(env, p, c) && o <= |d| && Starts(d, o, ContentBytes(env, p, c))
    ensures ReadPayload(env, d, o, p.x, p.y, p.w, p.h, Code(c)) == Got(o + |ContentBytes(env, p, c)|, Shown(env, p, c), Changes(env, p, c), false)
  {
    hide Starts, Num, ReadRaw, ReadRre, ReadZrle, ReadHextile, ReadName, ReadCursor, Be, RawBytes, MaskRows, RreBytes, RectBytes, Covers, SubFits,
         Image, Cut, AllSolid;
    match c
    case Plain(pixels) => PlainReads(d, o, p, pixels);
    case Moved(srcX, srcY) => MovedReads(d, o, srcX, srcY);
    case Lines(background, subs, k) => LinesRead(env, d, o, p, background, subs, k);
    case Squares(tiles) => SquaresRead(d, o, p, tiles, env);
    case Zipped(zipped, coded) => ZippedReads(env, d, o, p, zipped, coded);
    case Shape(pixels, visible) => ShapeReads(env, d, o, p, pixels, visible);
    case Titled(title) => TitleReads(env, d, o, title);
    case Resized =>
    case Screens(screens, rest) => ScreensRead(d, o, screens, rest);
  }

  /** A rectangle of tiles, coded and then deflated into any list of blocks of any kinds, is
      shown as its tiles by a client whose inflater is the bundled one. */
  lemma DeflatedReads(env: Env, d: seq<byte>, o: nat, p: Place, coded: seq<Coded>, level: nat, body: seq<byte>, trailer: seq<byte>,
                      bs: seq<Stream.Block>)
    requires p.x < 65536 && p.y < 65536 && p.w < 65536 && p.h < 65536 && Covering(coded, p.w, p.h, 0, 0)
    requires level <= 9 && |trailer| == 4 && 6 + |body| < 0x1_0000_0000
    requires bs != [] && Stream.AllSendable(bs, []) && Blocks.Holds(body, 0, Stream.StreamFields(bs, [], 0))
    requires Stream.Contents([], bs) == CoveringBytes(coded, p.w, p.h, 0, 0)
    requires var z := Zlib.Header(level) + body + trailer;
             env.inflate(z) == Zlib.Unzlib(z) && o <= |d| && Starts(d, o, Be(|z|, 4) + z)
    ensures var z := Zlib.Header(level) + body + trailer;
            && Proper(env, p, Zipped(z, coded))
            && ReadPayload(env, d, o, p.x, p.y, p.w, p.h, 16)
            == Got(o + 4 + |z|, Shown(env, p, Zipped(z, coded)), Keep, false)
  {
    hide Stream.AllSendable, Blocks.Holds, Stream.StreamFields, Stream.Contents, Zlib.Unzlib, Zlib.Header, Covering, CoveringBytes, Shown,
         ReadPayload, Be;
    var z := Zlib.Header(level) + body + trailer;
    Zlib.UnzlibReads(level, body, trailer, bs);
    var bytes := CoveringBytes(coded, p.w, p.h, 0, 0);
    assert bytes[0..|bytes|] == bytes;
    ContentReads(env, d, o, p, Zipped(z, coded));
  }

  lemma MovedReads(d: seq<byte>, o: nat, srcX: nat, srcY: nat)
    requires srcX < 65536 && srcY < 65536 && Starts(d, o, Be(srcX, 2) + Be(srcY, 2))
    ensures o + 4 <= |d| && Num(d, o, 2) == srcX && Num(d, o + 2, 2) == srcY
  {
    hide Be, Num, Pow256;
    PowValues();
    StartsInside(d, o, Be(srcX, 2) + Be(srcY, 2));
    StartsBoth(d, o, Be(srcX, 2), Be(srcY, 2));
    NumBe(d, o, srcX, 2);
    NumBe(d, o + 2, srcY, 2);
  }

  lemma ScreensRead(d: seq<byte>, o: nat, screens: nat, rest: seq<byte>)
    requires screens < 256 && |rest| == 3 + 16 * screens && Starts(d, o, [ScreenCount(screens)] + rest)
    ensures o + 4 + 16 * screens <= |d| && d[o] == screens
  {
    StartsBoth(d, o, [ScreenCount(screens)], rest);
    OneByte(d, o, ScreenCount(screens));
  }

  /** The header of a rectangle is read back field by field. */
  lemma HeaderReads(d: seq<byte>, o: nat, p: Place, code: int)
    requires p.x < 65536 && p.y < 65536 && p.w < 65536 && p.h < 65536 && -0x8000_0000 <= code < 0x8000_0000
    requires Starts(d, o, HeaderBytes(p, code))
    ensures o + 12 <= |d| && Num(d, o, 2) == p.x && Num(d, o + 2, 2) == p.y && Num(d, o + 4, 2) == p.w && Num(d, o + 6, 2) == p.h
    ensures Signed(Num(d, o + 8, 4)) == code
  {
    hide Be, Num, Pow256, Starts;
    PowValues();
    var (x, y, w, h, e) := (Be(p.x, 2), Be(p.y, 2), Be(p.w, 2), Be(p.h, 2), Be(Word(code), 4));
    StartsInside(d, o, HeaderBytes(p, code));
    StartsBoth(d, o, x, y + (w + (h + e)));
    StartsBoth(d, o + 2, y, w + (h + e));
    StartsBoth(d, o + 4, w, h + e);
    StartsBoth(d, o + 6, h, e);
    NumBe(d, o, p.x, 2);
    NumBe(d, o + 2, p.y, 2);
    NumBe(d, o + 4, p.w, 2);
    NumBe(d, o + 6, p.h, 2);
    NumBe(d, o + 8, Word(code), 4);
  }

  /** A rectangle with its place. */
  datatype Sending = Sending(place: Place, content: Content)

  ghost predicate Fine(env: Env, s: Sending) { Proper(env, s.place, s.content) }

  ghost function SendingBytes(env: Env, s: Sending): seq<byte>
    requires Fine(env, s)
  {
    HeaderBytes(s.place, Code(s.content)) + ContentBytes(env, s.place, s.content)
  }

  lemma SendingReads(env: Env, d: seq<byte>, o: nat, s: Sending)
    requires Fine(env, s) && Starts(d, o, SendingBytes(env, s))
    ensures ReadRect(env, d, o) == Got(o + |SendingBytes(env, s)|, Shown(env, s.place, s.content), Changes(env, s.place, s.content), false)
  {
    hide Starts, Num, ReadPayload, HeaderBytes, ContentBytes, Shown, Changes;
    StartsBoth(d, o, HeaderBytes(s.place, Code(s.content)), ContentBytes(env, s.place, s.content));
    HeaderReads(d, o, s.place, Code(s.content));
    ContentReads(env, d, o + 12, s.place, s.content);
  }

  // ---- the rectangles of an update ---------------------------------------------------------------------

  ghost predicate AllFine(env: Env, ss: seq<Sending>) { forall i :: 0 <= i < |ss| ==> Fine(env, ss[i]) }

  ghost function AllBytes(env: Env, ss: seq<Sending>): seq<byte>
    requires AllFine(env, ss)
  {
    if ss == [] then [] else SendingBytes(env, ss[0]) + AllBytes(env, ss[1..])
  }

  ghost function AllShown(env: Env, ss: seq<Sending>): seq<Rect>
    requires AllFine(env, ss)
  {
    if ss == [] then [] else Shown(env, ss[0].place, ss[0].content) + AllShown(env, ss[1..])
  }

  function ScreenAfter(env: Env, screen: Screen, ss: seq<Sending>): Screen
    decreases |ss|
  {
    if ss == [] then screen else ScreenAfter(env, Apply(screen, Changes(env, ss[0].place, ss[0].content)), ss[1..])
  }

  const NOWHERE := Place(0, 0, 0, 0)

  /** Behind the rectangles, the mark that ends an update early. */
  function EndBytes(early: bool): seq<byte> { if early then HeaderBytes(NOWHERE, -224) else [] }

  lemma EndReads(env: Env, d: seq<byte>, o: nat)
    requires Starts(d, o, EndBytes(true))
    ensures ReadRect(env, d, o) == Got(o + 12, [], Keep, true)
  {
    hide Starts, Num, HeaderBytes, ReadRaw, ReadRre, ReadZrle, ReadHextile, ReadName, ReadCursor;
    HeaderReads(d, o, NOWHERE, -224);
  }

  /** All rectangles of an update are read in order, also when it announces more of them
      than it sends and ends with the mark. */
  lemma {:induction false} RectsRead(env: Env, d: seq<byte>, o: nat, ss: seq<Sending>, count: nat, screen: Screen, acc: seq<Rect>)
    requires AllFine(env, ss) && |ss| <= count && o <= |d| && Starts(d, o, AllBytes(env, ss) + EndBytes(|ss| < count))
    ensures ReadRects(env, d, o, count, screen, acc)
         == UpdateRead.Whole(ScreenAfter(env, screen, ss), acc + AllShown(env, ss), o + |AllBytes(env, ss) + EndBytes(|ss| < count)|)
    decreases |ss|
  {
    hide Starts, ReadRect, Proper, SendingBytes, EndBytes, Shown, Changes;
    var early := |ss| < count;
    if ss != [] {
      var (first, rest) := (SendingBytes(env, ss[0]), AllBytes(env, ss[1..]));
      assert first + rest + EndBytes(early) == first + (rest + EndBytes(early));
      StartsBoth(d, o, first, rest + EndBytes(early));
      SendingReads(env, d, o, ss[0]);
      var (shown, change) := (Shown(env, ss[0].place, ss[0].content), Changes(env, ss[0].place, ss[0].content));
      RectsRead(env, d, o + |first|, ss[1..], count - 1, Apply(screen, change), acc + shown);
      assert acc + shown + AllShown(env, ss[1..]) == acc + AllShown(env, ss);
    } else {
      assert [] + EndBytes(early) == EndBytes(early);
      assert acc + [] == acc;
      if early {
        EndReads(env, d, o);
        EndRect(early);
      } else {
        EndRect(early);
      }
    }
  }

  lemma EndRect(early: bool)
    ensures |EndBytes(early)| == if early then 12 else 0
  {
  }
}
