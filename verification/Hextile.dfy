/** Hextile rectangles (section 7.7.4 of RFC 6143): tiles of 16 by 16 pixels in raster
    order, with a background and a foreground that stay in force from tile to tile. */
module Hextile {
  import opened Options
  import opened Words
  import opened Pixels
  import opened Rre
  import opened Tiles

  const BLACK := Rgba(0, 0, 0, 255)
  const WHITE := Rgba(255, 255, 255, 255)

  function Bit(s: byte, n: nat): bool
    requires n > 0
  {
    s / n % 2 == 1
  }

  // ---- reading ----------------------------------------------------------------------

  /** The subrectangles of a tile at (tx, ty); their coordinates are kept as those of the
      rectangle. */
  function ReadSubs(d: seq<byte>, cursor: nat, n: nat, coloured: bool, fore: Rgba, tx: nat, ty: nat, f: Format, acc: seq<Sub>)
      : (r: Option<(seq<Sub>, nat)>)
    ensures r.Some? ==> cursor <= r.value.1
    decreases n
  {
    if n == 0 then Some((acc, cursor))
    else
      var c := if coloured then PixelAt(d, cursor, f) else Some(fore);
      if c == None then None
      else
        var p := cursor + if coloured then BytesPerPixel(f) else 0;
        if |d| < p + 2 then None
        else
          var u := Sub(tx + d[p] / 16, ty + d[p] % 16, d[p + 1] / 16 + 1, d[p + 1] % 16 + 1, c.value);
          ReadSubs(d, p + 2, n - 1, coloured, fore, tx, ty, f, acc + [u])
  }

  /** A colour that is only sent when its bit is set. */
  function ReadColour(d: seq<byte>, cursor: nat, sent: bool, f: Format): Option<(Option<Rgba>, nat)> {
    if !sent then Some((None, cursor))
    else if PixelAt(d, cursor, f) == None then None
    else Some((PixelAt(d, cursor, f), cursor + BytesPerPixel(f)))
  }

  function Else(c: Option<Rgba>, before: Rgba): Rgba {
    if c.Some? then c.value else before
  }

  datatype Got = Got(tile: Tile, cursor: nat)

  /** One tile, with the colours in force before it. */
  function ReadTile(d: seq<byte>, cursor: nat, tx: nat, ty: nat, tw: nat, th: nat, back: Rgba, fore: Rgba, f: Format)
      : (r: Option<Got>)
    ensures r.Some? ==> cursor < r.value.cursor
  {
    if |d| < cursor + 1 then None
    else
      var s, p := d[cursor], cursor + 1;
      if Bit(s, 1) then
        if |d| < p + tw * th * BytesPerPixel(f) then None
        else Some(Got(Tile(tx, ty, tw, th, None, None, Raw(RawPixels(d, p, tw * th, f))), p + tw * th * BytesPerPixel(f)))
      else
        match ReadColour(d, p, Bit(s, 2), f)
        case None => None
        case Some((b, p1)) =>
          match ReadColour(d, p1, Bit(s, 4), f)
          case None => None
          case Some((g, p2)) => ReadPainted(d, p2, s, tx, ty, tw, th, b, g, Else(b, back), Else(g, fore), f)
  }

  function ReadPainted(d: seq<byte>, p: nat, s: byte, tx: nat, ty: nat, tw: nat, th: nat,
                       b: Option<Rgba>, g: Option<Rgba>, back: Rgba, fore: Rgba, f: Format): (r: Option<Got>)
    ensures r.Some? ==> p <= r.value.cursor
  {
    if !Bit(s, 8) then Some(Got(Tile(tx, ty, tw, th, b, g, Painted(back, fore, false, [])), p))
    else if |d| < p + 1 then None
    else
      match ReadSubs(d, p + 1, d[p], Bit(s, 16), fore, tx, ty, f, [])
      case None => None
      case Some((subs, q)) => Some(Got(Tile(tx, ty, tw, th, b, g, Painted(back, fore, Bit(s, 16), subs)), q))
  }

  /** The loops over the tiles, from the tile at (tx, ty) on. */
  function ReadTiles(d: seq<byte>, cursor: nat, width: nat, height: nat, tx: nat, ty: nat, back: Rgba, fore: Rgba, f: Format,
                     acc: seq<Tile>): (r: Option<(seq<Tile>, nat)>)
    ensures r.Some? ==> cursor <= r.value.1
    decreases height - ty, width - tx
  {
    if ty >= height then Some((acc, cursor))
    else if tx >= width then ReadTiles(d, cursor, width, height, 0, ty + 16, back, fore, f, acc)
    else
      match ReadTile(d, cursor, tx, ty, Words.Min(16, width - tx), Words.Min(16, height - ty), back, fore, f)
      case None => None
      case Some(t) => ReadTiles(d, t.cursor, width, height, tx + 16, ty, Else(t.tile.back, back), Else(t.tile.fore, fore), f, acc + [t.tile])
  }

  function Parse(d: seq<byte>, o: nat, width: nat, height: nat, f: Format): (r: Option<(seq<Tile>, nat)>)
    ensures r.Some? ==> o <= r.value.1
  {
    ReadTiles(d, o, width, height, 0, 0, BLACK, WHITE, f, [])
  }

  // ---- painting -----------------------------------------------------------------------

  lemma PaintSubsMore(s: Surface, width: nat, subs: seq<Sub>, u: Sub)
    ensures PaintSubs(s, width, subs + [u]) == Fill(PaintSubs(s, width, subs), width, u.x, u.y, u.w, u.h, u.c)
  {
    hide Fill;
    assert (subs + [u])[..|subs|] == subs;
  }

  /** The loop over the subrectangles of a tile. */
  method SubsLoop(d: seq<byte>, start: nat, count: nat, coloured: bool, fore: Rgba, tx: nat, ty: nat, f: Format,
                  rgba: array<Rgba>, width: nat) returns (ok: bool, cursor: nat, ghost subs: seq<Sub>)
    modifies rgba
    ensures match ReadSubs(d, start, count, coloured, fore, tx, ty, f, [])
            case None => !ok
            case Some((us, q)) => ok && us == subs && cursor == q && rgba[..] == PaintSubs(old(rgba[..]), width, subs)
  {
    hide Fill, PixelAt;
    cursor, subs := start, [];
    ghost var was := rgba[..];
    for i := 0 to count
      invariant ReadSubs(d, start, count, coloured, fore, tx, ty, f, []) == ReadSubs(d, cursor, count - i, coloured, fore, tx, ty, f, subs)
      invariant rgba[..] == PaintSubs(was, width, subs)
    {
      var colour := fore;
      if coloured {
        var decoded := PixelAt(d, cursor, f);
        if decoded == None {
          return false, cursor, subs;
        }
        colour := decoded.value;
        cursor := cursor + BytesPerPixel(f);
      }
      if |d| < cursor + 2 {
        return false, cursor, subs;
      }
      var xy, wh := d[cursor], d[cursor + 1];
      cursor := cursor + 2;
      ghost var u := Sub(tx + xy / 16, ty + xy % 16, wh / 16 + 1, wh % 16 + 1, colour);
      FillRgbaRect(rgba, width, tx + xy / 16, ty + xy % 16, wh / 16 + 1, wh % 16 + 1, colour);
      PaintSubsMore(was, width, subs, u);
      subs := subs + [u];
    }
    ok := true;
  }

  /** One turn of the loop over the tiles. */
  method TileTurn(d: seq<byte>, start: nat, tx: nat, ty: nat, tw: nat, th: nat, back0: Rgba, fore0: Rgba, f: Format,
                  rgba: array<Rgba>, width: nat, ghost height: nat)
      returns (ok: bool, cursor: nat, back: Rgba, fore: Rgba, ghost t: Tile)
    requires rgba.Length == width * height && tx + tw <= width && ty + th <= height
    modifies rgba
    ensures match ReadTile(d, start, tx, ty, tw, th, back0, fore0, f)
            case None => !ok
            case Some(g) => ok && g == Got(t, cursor) && TileOk(t, width, height)
                            && back == Else(t.back, back0) && fore == Else(t.fore, fore0)
                            && rgba[..] == PaintTile(old(rgba[..]), width, t)
  {
    hide Fill, PixelAt, Blit, RawPixels, ReadSubs;
    ok, cursor, back, fore := false, start, back0, fore0;
    t := Tile(tx, ty, tw, th, None, None, Painted(BLACK, WHITE, false, []));
    if |d| < cursor + 1 {
      return;
    }
    var sub := d[cursor];
    cursor := cursor + 1;
    if Bit(sub, 1) {
      var rawLength := tw * th * BytesPerPixel(f);
      if |d| < cursor + rawLength {
        return;
      }
      var pixels := RawPixels(d, cursor, tw * th, f);
      cursor := cursor + rawLength;
      BlitRgbaTile(rgba, width, height, tx, ty, tw, th, pixels);
      t := Tile(tx, ty, tw, th, None, None, Raw(pixels));
      return true, cursor, back, fore, t;
    }
    ghost var b, g: Option<Rgba> := None, None;
    if Bit(sub, 2) {
      var decoded := PixelAt(d, cursor, f);
      if decoded == None {
        return;
      }
      back := decoded.value;
      b := decoded;
      cursor := cursor + BytesPerPixel(f);
    }
    FillRgbaRect(rgba, width, tx, ty, tw, th, back);
    if Bit(sub, 4) {
      var decoded := PixelAt(d, cursor, f);
      if decoded == None {
        return;
      }
      fore := decoded.value;
      g := decoded;
      cursor := cursor + BytesPerPixel(f);
    }
    t := Tile(tx, ty, tw, th, b, g, Painted(back, fore, false, []));
    if Bit(sub, 8) {
      if |d| < cursor + 1 {
        return;
      }
      var subrectCount := d[cursor];
      cursor := cursor + 1;
      ghost var subs;
      ok, cursor, subs := SubsLoop(d, cursor, subrectCount, Bit(sub, 16), fore, tx, ty, f, rgba, width);
      t := Tile(tx, ty, tw, th, b, g, Painted(back, fore, Bit(sub, 16), subs));
      return;
    }
    ok := true;
  }

  /** `parseHextileRect` */
  method ParseHextileRect(d: seq<byte>, offset: nat, width: nat, height: nat, f: Format)
      returns (consumed: Option<nat>, rgba: array<Rgba>)
    ensures fresh(rgba)
    ensures match Parse(d, offset, width, height, f)
            case None => consumed == None
            case Some((tiles, q)) => consumed == Some(q - offset)
                                     && (forall i :: 0 <= i < |tiles| ==> TileOk(tiles[i], width, height))
                                     && rgba[..] == Render(width, height, tiles)
  {
    hide ReadTile, PaintTile, TileOk;
    rgba := new Rgba[width * height](_ => CLEAR);
    assert rgba[..] == Blank(width * height);
    var cursor: nat, back, fore := offset, BLACK, WHITE;
    ghost var tiles: seq<Tile> := [];
    var tileY := 0;
    while tileY < height
      invariant rgba.Length == width * height
      invariant forall i :: 0 <= i < |tiles| ==> TileOk(tiles[i], width, height)
      invariant rgba[..] == Render(width, height, tiles)
      invariant Parse(d, offset, width, height, f) == ReadTiles(d, cursor, width, height, 0, tileY, back, fore, f, tiles)
      decreases height - tileY
    {
      var tileHeight := Words.Min(16, height - tileY);
      var tileX := 0;
      while tileX < width
        invariant rgba.Length == width * height
        invariant forall i :: 0 <= i < |tiles| ==> TileOk(tiles[i], width, height)
        invariant rgba[..] == Render(width, height, tiles)
        invariant Parse(d, offset, width, height, f) == ReadTiles(d, cursor, width, height, tileX, tileY, back, fore, f, tiles)
        decreases width - tileX
      {
        var tileWidth := Words.Min(16, width - tileX);
        var ok;
        ghost var t;
        ok, cursor, back, fore, t := TileTurn(d, cursor, tileX, tileY, tileWidth, tileHeight, back, fore, f, rgba, width, height);
        if !ok {
          return None, rgba;
        }
        RenderMore(width, height, tiles, t);
        tiles := tiles + [t];
        tileX := tileX + 16;
      }
      tileY := tileY + 16;
    }
    consumed := Some(cursor - offset);
  }

  // ---- meaning --------------------------------------------------------------------------

  // ---- what the reader delivers -----------------------------------------------------------

  lemma {:induction false} SubsSound(d: seq<byte>, cursor: nat, n: nat, coloured: bool, fore: Rgba, tx: nat, ty: nat, f: Format, acc: seq<Sub>)
    requires fore.a == 255
    requires forall i :: 0 <= i < |acc| ==> acc[i].x >= tx && acc[i].y >= ty && acc[i].c.a == 255 && (!coloured ==> acc[i].c == fore)
    requires ReadSubs(d, cursor, n, coloured, fore, tx, ty, f, acc).Some?
    ensures forall i :: 0 <= i < |ReadSubs(d, cursor, n, coloured, fore, tx, ty, f, acc).value.0| ==>
              var u := ReadSubs(d, cursor, n, coloured, fore, tx, ty, f, acc).value.0[i];
              u.x >= tx && u.y >= ty && u.c.a == 255 && (!coloured ==> u.c == fore)
    decreases n
  {
    hide PixelAt;
    if n == 0 {
    } else {
      var c := if coloured then PixelAt(d, cursor, f) else Some(fore);
      var p := cursor + if coloured then BytesPerPixel(f) else 0;
      var u := Sub(tx + d[p] / 16, ty + d[p] % 16, d[p + 1] / 16 + 1, d[p + 1] % 16 + 1, c.value);
      SubsSound(d, p + 2, n - 1, coloured, fore, tx, ty, f, acc + [u]);
    }
  }

  /** The colours a tile is painted with: those it sets, else those in force. */
  predicate Carries(t: Tile, back: Rgba, fore: Rgba) {
    match t.body
    case Raw(_) => t.back.None? && t.fore.None?
    case Painted(background, foreground, coloured, subs) =>
      && background == Else(t.back, back) && foreground == Else(t.fore, fore)
      && (!coloured ==> forall i :: 0 <= i < |subs| ==> subs[i].c == foreground)
  }

  lemma TileRead(d: seq<byte>, cursor: nat, tx: nat, ty: nat, tw: nat, th: nat, back: Rgba, fore: Rgba, f: Format)
    requires back.a == 255 && fore.a == 255 && ReadTile(d, cursor, tx, ty, tw, th, back, fore, f).Some?
    ensures var t := ReadTile(d, cursor, tx, ty, tw, th, back, fore, f).value.tile;
            && t.x == tx && t.y == ty && t.w == tw && t.h == th && Placed(t) && OpaqueTile(t) && Carries(t, back, fore)
            && (t.body.Raw? ==> |t.body.pixels| == tw * th)
            && Else(t.back, back).a == 255 && Else(t.fore, fore).a == 255
  {
    hide PixelAt, RawPixels, ReadSubs;
    var s, p := d[cursor], cursor + 1;
    if !Bit(s, 1) {
      var (b, p1) := ReadColour(d, p, Bit(s, 2), f).value;
      var (g, p2) := ReadColour(d, p1, Bit(s, 4), f).value;
      if Bit(s, 8) {
        SubsSound(d, p2 + 1, d[p2], Bit(s, 16), Else(g, fore), tx, ty, f, []);
      }
    }
  }

  /** The colour in force behind some tiles: the last one set, else the initial one. */
  function BackInForce(tiles: seq<Tile>): Rgba {
    if tiles == [] then Rgba(0, 0, 0, 255) else Else(tiles[|tiles| - 1].back, BackInForce(tiles[..|tiles| - 1]))
  }

  function ForeInForce(tiles: seq<Tile>): Rgba {
    if tiles == [] then Rgba(255, 255, 255, 255) else Else(tiles[|tiles| - 1].fore, ForeInForce(tiles[..|tiles| - 1]))
  }

  /** Every tile is painted with the colours last set before it or by it. */
  ghost predicate AllCarry(tiles: seq<Tile>) {
    forall i :: 0 <= i < |tiles| ==> Carries(tiles[i], BackInForce(tiles[..i]), ForeInForce(tiles[..i]))
  }

  lemma CarryStep(tiles: seq<Tile>, t: Tile)
    requires AllCarry(tiles) && Carries(t, BackInForce(tiles), ForeInForce(tiles))
    ensures AllCarry(tiles + [t])
    ensures BackInForce(tiles + [t]) == Else(t.back, BackInForce(tiles))
    ensures ForeInForce(tiles + [t]) == Else(t.fore, ForeInForce(tiles))
  {
    hide Carries;
    var all := tiles + [t];
    assert all[..|tiles|] == tiles && all[|tiles|] == t;
    forall i | 0 <= i < |tiles| ensures all[..i] == tiles[..i] && all[i] == tiles[i] {
    }
  }

  /** What holds in front of the tile at (tx, ty). */
  ghost predicate Reading(tiles: seq<Tile>, width: nat, height: nat, tx: nat, ty: nat, back: Rgba, fore: Rgba) {
    && Laid(tiles, width, height, tx, ty, 16) && AllOpaque(tiles) && AllCarry(tiles)
    && back == BackInForce(tiles) && fore == ForeInForce(tiles) && back.a == 255 && fore.a == 255
  }

  lemma ReadingStep(tiles: seq<Tile>, width: nat, height: nat, tx: nat, ty: nat, back: Rgba, fore: Rgba, t: Tile)
    requires Reading(tiles, width, height, tx, ty, back, fore) && tx < width && ty < height
    requires t.x == tx && t.y == ty && t.w == Words.Min(16, width - tx) && t.h == Words.Min(16, height - ty)
    requires (t.body.Raw? ==> |t.body.pixels| == t.w * t.h) && Placed(t) && OpaqueTile(t) && Carries(t, back, fore)
    requires Else(t.back, back).a == 255 && Else(t.fore, fore).a == 255
    ensures Reading(tiles + [t], width, height, tx + 16, ty, Else(t.back, back), Else(t.fore, fore))
  {
    hide Laid, Placed, OpaqueTile, AllCarry, Else, BackInForce, ForeInForce, Carries;
    CarryStep(tiles, t);
    LaidStep(tiles, width, height, tx, ty, t, 16);
  }

  lemma {:induction false} TilesRead(d: seq<byte>, cursor: nat, width: nat, height: nat, tx: nat, ty: nat,
                                     back: Rgba, fore: Rgba, f: Format, acc: seq<Tile>)
    requires Reading(acc, width, height, tx, ty, back, fore)
    requires ReadTiles(d, cursor, width, height, tx, ty, back, fore, f, acc).Some?
    ensures var tiles := ReadTiles(d, cursor, width, height, tx, ty, back, fore, f, acc).value.0;
            AllLaid(tiles, width, height) && AllOpaque(tiles) && AllCarry(tiles)
    decreases height - ty, width - tx
  {
    hide Laid, AllLaid, ReadTile, OpaqueTile, AllOpaque, Placed, Carries, AllCarry, Else, BackInForce, ForeInForce;
    if ty >= height {
      LaidAll(acc, width, height, tx, ty, 16);
    } else if tx >= width {
      LaidRow(acc, width, height, tx, ty, 16);
      TilesRead(d, cursor, width, height, 0, ty + 16, back, fore, f, acc);
    } else {
      var (tw, th) := (Words.Min(16, width - tx), Words.Min(16, height - ty));
      var g := ReadTile(d, cursor, tx, ty, tw, th, back, fore, f).value;
      TileRead(d, cursor, tx, ty, tw, th, back, fore, f);
      ReadingStep(acc, width, height, tx, ty, back, fore, g.tile);
      TilesRead(d, g.cursor, width, height, tx + 16, ty, Else(g.tile.back, back), Else(g.tile.fore, fore), f, acc + [g.tile]);
    }
  }

  /** What an accepted payload shows. Its tiles cover the rectangle, each painted with the
      background and foreground last set before it or by it; every pixel is opaque; and
      when no subrectangle crosses the rectangle's right edge, every pixel shows what its
      own tile means, even where subrectangles run over the edges of their tiles. */
  lemma ParseMeaning(d: seq<byte>, o: nat, width: nat, height: nat, f: Format)
    requires Parse(d, o, width, height, f).Some?
    ensures var tiles := Parse(d, o, width, height, f).value.0;
            && AllLaid(tiles, width, height) && AllCarry(tiles)
            && Opaque(Render(width, height, tiles))
            && ((forall i :: 0 <= i < |tiles| ==> TileInColumns(tiles[i], width)) ==>
                  forall px, py :: 0 <= px < width && 0 <= py < height ==>
                    PixelOf(Render(width, height, tiles), width, px, py) == TileColour(tiles, px, py))
  {
    hide ReadTiles, TileColour, TileInColumns, Render, AllTiles, RasterOrder, Laid, AllOpaque, TileOk, Opaque;
    LaidFirst(width, height, 16);
    assert AllOpaque([]) by { NoTiles(); }
    TilesRead(d, o, width, height, 0, 0, BLACK, WHITE, f, []);
    LaidMeaning(Parse(d, o, width, height, f).value.0, width, height);
  }

  lemma NoTiles()
    ensures AllOpaque([])
  {
  }

  // ---- more bytes behind the payload --------------------------------------------------------

  lemma {:induction false} SubsStable(d: seq<byte>, e: seq<byte>, cursor: nat, n: nat, coloured: bool, fore: Rgba, tx: nat, ty: nat,
                                      f: Format, acc: seq<Sub>)
    requires d <= e && ReadSubs(d, cursor, n, coloured, fore, tx, ty, f, acc).Some?
    ensures ReadSubs(e, cursor, n, coloured, fore, tx, ty, f, acc) == ReadSubs(d, cursor, n, coloured, fore, tx, ty, f, acc)
    ensures n == 0 || ReadSubs(d, cursor, n, coloured, fore, tx, ty, f, acc).value.1 <= |d|
    decreases n
  {
    hide PixelAt;
    if n == 0 {
    } else {
      if coloured {
        PixelStable(d, e, cursor, f);
      }
      var c := if coloured then PixelAt(d, cursor, f) else Some(fore);
      var p := cursor + if coloured then BytesPerPixel(f) else 0;
      var u := Sub(tx + d[p] / 16, ty + d[p] % 16, d[p + 1] / 16 + 1, d[p + 1] % 16 + 1, c.value);
      SubsStable(d, e, p + 2, n - 1, coloured, fore, tx, ty, f, acc + [u]);
    }
  }

  lemma ColourStable(d: seq<byte>, e: seq<byte>, cursor: nat, sent: bool, f: Format)
    requires d <= e && ReadColour(d, cursor, sent, f).Some? && cursor <= |d|
    ensures ReadColour(e, cursor, sent, f) == ReadColour(d, cursor, sent, f)
    ensures ReadColour(d, cursor, sent, f).value.1 <= |d|
  {
    hide Colour;
    if sent {
      PixelStable(d, e, cursor, f);
    }
  }

  lemma TileStable(d: seq<byte>, e: seq<byte>, cursor: nat, tx: nat, ty: nat, tw: nat, th: nat, back: Rgba, fore: Rgba, f: Format)
    requires d <= e && ReadTile(d, cursor, tx, ty, tw, th, back, fore, f).Some?
    ensures ReadTile(e, cursor, tx, ty, tw, th, back, fore, f) == ReadTile(d, cursor, tx, ty, tw, th, back, fore, f)
    ensures ReadTile(d, cursor, tx, ty, tw, th, back, fore, f).value.cursor <= |d|
  {
    hide PixelAt, RawPixels, ReadSubs, ReadColour;
    var s, p := d[cursor], cursor + 1;
    if Bit(s, 1) {
      RawStable(d, e, p, tw * th, f);
    } else {
      ColourStable(d, e, p, Bit(s, 2), f);
      var (b, p1) := ReadColour(d, p, Bit(s, 2), f).value;
      ColourStable(d, e, p1, Bit(s, 4), f);
      var (g, p2) := ReadColour(d, p1, Bit(s, 4), f).value;
      if Bit(s, 8) {
        SubsStable(d, e, p2 + 1, d[p2], Bit(s, 16), Else(g, fore), tx, ty, f, []);
        NoSubs(d, p2 + 1, Bit(s, 16), Else(g, fore), tx, ty, f);
      }
    }
  }

  lemma NoSubs(d: seq<byte>, cursor: nat, coloured: bool, fore: Rgba, tx: nat, ty: nat, f: Format)
    ensures ReadSubs(d, cursor, 0, coloured, fore, tx, ty, f, []) == Some(([], cursor))
  {
  }

  lemma {:induction false} TilesStable(d: seq<byte>, e: seq<byte>, cursor: nat, width: nat, height: nat, tx: nat, ty: nat,
                                       back: Rgba, fore: Rgba, f: Format, acc: seq<Tile>)
    requires d <= e && cursor <= |d| && ReadTiles(d, cursor, width, height, tx, ty, back, fore, f, acc).Some?
    ensures ReadTiles(e, cursor, width, height, tx, ty, back, fore, f, acc)
         == ReadTiles(d, cursor, width, height, tx, ty, back, fore, f, acc)
    ensures ReadTiles(d, cursor, width, height, tx, ty, back, fore, f, acc).value.1 <= |d|
    decreases height - ty, width - tx
  {
    hide ReadTile;
    if ty < height && tx >= width {
      TilesStable(d, e, cursor, width, height, 0, ty + 16, back, fore, f, acc);
    } else if ty < height {
      var (tw, th) := (Words.Min(16, width - tx), Words.Min(16, height - ty));
      TileStable(d, e, cursor, tx, ty, tw, th, back, fore, f);
      var g := ReadTile(d, cursor, tx, ty, tw, th, back, fore, f).value;
      TilesStable(d, e, g.cursor, width, height, tx + 16, ty, Else(g.tile.back, back), Else(g.tile.fore, fore), f, acc + [g.tile]);
    }
  }

  /** An accepted payload is the same whatever arrives behind it. */
  lemma ParseStable(d: seq<byte>, e: seq<byte>, o: nat, width: nat, height: nat, f: Format)
    requires d <= e && o <= |d| && Parse(d, o, width, height, f).Some?
    ensures Parse(e, o, width, height, f) == Parse(d, o, width, height, f)
    ensures Parse(d, o, width, height, f).value.1 <= |d|
  {
    TilesStable(d, e, o, width, height, 0, 0, BLACK, WHITE, f, []);
  }
}
