/** Rectangles that are sent as tiles in raster order: how they are painted, and that
    every pixel shows what its own tile means. */
module Tiles {
  import opened Options
  import opened Words
  import opened Pixels
  import opened Rre

  /** What a tile shows: raw pixels, or a background with subrectangles over it. */
  datatype Body = Raw(pixels: seq<Rgba>)
                | Painted(background: Rgba, foreground: Rgba, coloured: bool, subs: seq<Sub>)

  /** A tile with the colours it sets, if it does. */
  datatype Tile = Tile(x: nat, y: nat, w: nat, h: nat, back: Option<Rgba>, fore: Option<Rgba>, body: Body)

  /** A tile that lies inside the surface, with pixels of its own size. */
  predicate TileOk(t: Tile, width: nat, height: nat) {
    && t.x + t.w <= width && t.y + t.h <= height
    && (t.body.Raw? ==> |t.body.pixels| == t.w * t.h)
  }

  function PaintTile(s: Surface, width: nat, t: Tile): (r: Surface)
    requires t.body.Raw? ==> |t.body.pixels| == t.w * t.h
    ensures |r| == |s|
  {
    match t.body
    case Raw(pixels) => Blit(s, width, t.x, t.y, t.w, t.h, pixels, t.h)
    case Painted(background, _, _, subs) =>
      PaintSubs(Fill(s, width, t.x, t.y, t.w, t.h, background), width, subs)
  }

  function Render(width: nat, height: nat, tiles: seq<Tile>): (r: Surface)
    requires forall i :: 0 <= i < |tiles| ==> TileOk(tiles[i], width, height)
    ensures |r| == width * height
  {
    if tiles == [] then Blank(width * height)
    else
      assert TileOk(tiles[|tiles| - 1], width, height);
      PaintTile(Render(width, height, tiles[..|tiles| - 1]), width, tiles[|tiles| - 1])
  }

  lemma RenderMore(width: nat, height: nat, tiles: seq<Tile>, t: Tile)
    requires forall i :: 0 <= i < |tiles| ==> TileOk(tiles[i], width, height)
    requires TileOk(t, width, height)
    ensures forall i :: 0 <= i < |tiles + [t]| ==> TileOk((tiles + [t])[i], width, height)
    ensures Render(width, height, tiles + [t]) == PaintTile(Render(width, height, tiles), width, t)
  {
    hide PaintTile;
    assert (tiles + [t])[..|tiles|] == tiles;
  }

  /** What a tile shows at one of its pixels. */
  function Shows(t: Tile, px: nat, py: nat): Rgba
    requires Inside(t.x, t.y, t.w, t.h, px, py)
  {
    match t.body
    case Raw(pixels) => TileAt(pixels, t.w, px - t.x, py - t.y)
    case Painted(background, _, _, subs) => Top(subs, background, px, py)
  }

  /** The tile a pixel belongs to. */
  function TileColour(tiles: seq<Tile>, px: nat, py: nat): Option<Rgba> {
    if tiles == [] then None
    else
      var t := tiles[|tiles| - 1];
      if Inside(t.x, t.y, t.w, t.h, px, py) then Some(Shows(t, px, py)) else TileColour(tiles[..|tiles| - 1], px, py)
  }

  /** Subrectangles may run over the bottom and the right of their tile, but not over the
      right edge of the rectangle. */
  predicate TileInColumns(t: Tile, width: nat) {
    t.body.Painted? ==> InColumns(t.body.subs, width)
  }

  /** Subrectangles start inside their tile or below it or to its right. */
  predicate Placed(t: Tile) {
    t.body.Painted? ==> forall i :: 0 <= i < |t.body.subs| ==> t.body.subs[i].x >= t.x && t.body.subs[i].y >= t.y
  }

  /** All colours of a tile are opaque. */
  predicate OpaqueTile(t: Tile) {
    match t.body
    case Raw(pixels) => forall i :: 0 <= i < |pixels| ==> pixels[i].a == 255
    case Painted(background, _, _, subs) =>
      background.a == 255 && forall i :: 0 <= i < |subs| ==> subs[i].c.a == 255
  }

  lemma {:induction false} TopElsewhere(subs: seq<Sub>, background: Rgba, px: nat, py: nat)
    requires forall i :: 0 <= i < |subs| ==> px < subs[i].x || py < subs[i].y
    ensures Top(subs, background, px, py) == background
  {
    if subs == [] {
    } else {
      TopElsewhere(subs[..|subs| - 1], background, px, py);
    }
  }

  /** A tile shows what it means on its own pixels, and leaves everything above it and
      to its left alone. */
  lemma PaintTileAt(s: Surface, width: nat, height: nat, t: Tile, px: nat, py: nat)
    requires TileOk(t, width, height) && Placed(t) && TileInColumns(t, width)
    requires px < width && py * width + px < |s|
    ensures Inside(t.x, t.y, t.w, t.h, px, py) ==> PaintTile(s, width, t)[py * width + px] == Shows(t, px, py)
    ensures px < t.x || py < t.y ==> PaintTile(s, width, t)[py * width + px] == s[py * width + px]
  {
    hide Blit, Fill, PaintSubs, Top;
    match t.body
    case Raw(pixels) =>
      BlitAt(s, width, t.x, t.y, t.w, t.h, pixels, t.h, px, py);
    case Painted(background, _, _, subs) =>
      FillAt(s, width, t.x, t.y, t.w, t.h, background, px, py);
      PaintedAt(Fill(s, width, t.x, t.y, t.w, t.h, background), width, subs, px, py);
      if px < t.x || py < t.y {
        TopElsewhere(subs, s[py * width + px], px, py);
      }
  }

  /** A later tile lies to the right of an earlier one or below it. */
  predicate After(t: Tile, u: Tile) {
    t.x + t.w <= u.x || t.y + t.h <= u.y
  }

  ghost predicate RasterOrder(tiles: seq<Tile>) {
    forall j, k :: 0 <= j < k < |tiles| ==> After(tiles[j], tiles[k])
  }

  ghost predicate AllTiles(tiles: seq<Tile>, width: nat, height: nat) {
    forall i :: 0 <= i < |tiles| ==> TileOk(tiles[i], width, height) && Placed(tiles[i])
  }

  ghost predicate AllOpaque(tiles: seq<Tile>) {
    forall i :: 0 <= i < |tiles| ==> OpaqueTile(tiles[i])
  }

  lemma {:induction false} TileColourInside(tiles: seq<Tile>, px: nat, py: nat)
    requires TileColour(tiles, px, py).Some?
    ensures exists i :: 0 <= i < |tiles| && Inside(tiles[i].x, tiles[i].y, tiles[i].w, tiles[i].h, px, py)
  {
    hide Shows;
    var n := |tiles| - 1;
    if !Inside(tiles[n].x, tiles[n].y, tiles[n].w, tiles[n].h, px, py) {
      TileColourInside(tiles[..n], px, py);
      var i :| 0 <= i < n && Inside(tiles[..n][i].x, tiles[..n][i].y, tiles[..n][i].w, tiles[..n][i].h, px, py);
      assert tiles[i] == tiles[..n][i];
    }
  }

  /** Tiles in raster order keep out of each other: every pixel shows what its own tile
      means. */
  lemma {:induction false} RenderAt(width: nat, height: nat, tiles: seq<Tile>, px: nat, py: nat)
    requires AllTiles(tiles, width, height) && RasterOrder(tiles) && px < width && py < height
    requires forall i :: 0 <= i < |tiles| ==> TileInColumns(tiles[i], width)
    requires TileColour(tiles, px, py).Some?
    ensures PixelOf(Render(width, height, tiles), width, px, py) == TileColour(tiles, px, py)
  {
    hide Shows, PaintTile, Placed, TileOk, TileInColumns;
    var n := |tiles| - 1;
    var front, t := tiles[..n], tiles[n];
    PixelIndex(width, height, px, py);
    assert TileOk(t, width, height) && Placed(t) && TileInColumns(t, width);
    PaintTileAt(Render(width, height, front), width, height, t, px, py);
    if !Inside(t.x, t.y, t.w, t.h, px, py) {
      RenderAt(width, height, front, px, py);
      TileColourInside(front, px, py);
      var i :| 0 <= i < n && Inside(front[i].x, front[i].y, front[i].w, front[i].h, px, py);
      assert After(tiles[i], tiles[n]);
    }
  }

  lemma {:induction false} PaintSubsOpaqueAt(s: Surface, width: nat, subs: seq<Sub>, i: nat)
    requires i < |s| && s[i].a == 255 && forall k :: 0 <= k < |subs| ==> subs[k].c.a == 255
    ensures PaintSubs(s, width, subs)[i].a == 255
  {
    hide Fill;
    if subs == [] {
    } else {
      var u, front := subs[|subs| - 1], subs[..|subs| - 1];
      PaintSubsOpaqueAt(s, width, front, i);
      FillOpaqueAt(PaintSubs(s, width, front), width, u.x, u.y, u.w, u.h, u.c, i);
    }
  }

  /** Wherever its subrectangles end, a tile makes its own pixels opaque and none other
      transparent. */
  lemma TileOpaqueAt(s: Surface, width: nat, height: nat, t: Tile, px: nat, py: nat)
    requires TileOk(t, width, height) && OpaqueTile(t) && px < width && py * width + px < |s|
    ensures Inside(t.x, t.y, t.w, t.h, px, py) || s[py * width + px].a == 255 ==>
              PaintTile(s, width, t)[py * width + px].a == 255
  {
    hide Blit, Fill, PaintSubs;
    var i := py * width + px;
    match t.body
    case Raw(pixels) =>
      BlitAt(s, width, t.x, t.y, t.w, t.h, pixels, t.h, px, py);
      if Inside(t.x, t.y, t.w, t.h, px, py) {
        PixelIndex(t.w, t.h, px - t.x, py - t.y);
      }
    case Painted(background, _, _, subs) =>
      var base := Fill(s, width, t.x, t.y, t.w, t.h, background);
      FillAt(s, width, t.x, t.y, t.w, t.h, background, px, py);
      if base[i].a == 255 {
        PaintSubsOpaqueAt(base, width, subs, i);
      }
  }

  lemma {:induction false} RenderOpaqueAt(width: nat, height: nat, tiles: seq<Tile>, px: nat, py: nat)
    requires AllTiles(tiles, width, height) && AllOpaque(tiles) && px < width && py < height && TileColour(tiles, px, py).Some?
    ensures OpaqueAt(Render(width, height, tiles), width, px, py)
  {
    hide Shows, PaintTile, OpaqueTile, TileOk, Placed, Render;
    var front, t := tiles[..|tiles| - 1], tiles[|tiles| - 1];
    PixelIndex(width, height, px, py);
    assert TileOk(t, width, height) && OpaqueTile(t);
    RenderMore(width, height, front, t);
    assert tiles == front + [t];
    TileOpaqueAt(Render(width, height, front), width, height, t, px, py);
    if !Inside(t.x, t.y, t.w, t.h, px, py) {
      RenderOpaqueAt(width, height, front, px, py);
    }
  }

  predicate OpaqueAt(s: Surface, width: nat, px: nat, py: nat) {
    PixelOf(s, width, px, py).Some? && PixelOf(s, width, px, py).value.a == 255
  }

  lemma OrderStep(tiles: seq<Tile>, t: Tile, size: nat)
    requires RasterOrder(tiles) && forall i :: 0 <= i < |tiles| ==> Before(tiles[i], t.x, t.y, size)
    ensures RasterOrder(tiles + [t])
  {
    var all := tiles + [t];
    forall j, k | 0 <= j < k < |all| ensures After(all[j], all[k]) {
      if k == |tiles| {
        assert Before(tiles[j], t.x, t.y, size);
      } else {
        assert After(tiles[j], tiles[k]);
      }
    }
  }

  predicate Before(t: Tile, tx: nat, ty: nat, size: nat) {
    t.h <= size && (t.y + t.h <= ty || (t.y == ty && t.x + t.w <= tx))
  }

  ghost predicate Covering(tiles: seq<Tile>, width: nat, height: nat, tx: nat, ty: nat, size: nat) {
    forall px, py :: 0 <= px < width && 0 <= py < height && (py < ty || (py < ty + size && px < tx)) ==>
      TileColour(tiles, px, py).Some?
  }

  lemma CoveringStep(tiles: seq<Tile>, width: nat, height: nat, tx: nat, ty: nat, t: Tile, size: nat)
    requires Covering(tiles, width, height, tx, ty, size) && tx < width && ty < height
    requires t.x == tx && t.y == ty && t.w == Words.Min(size, width - tx) && t.h == Words.Min(size, height - ty)
    ensures Covering(tiles + [t], width, height, tx + size, ty, size)
  {
    hide Shows;
    var all := tiles + [t];
    assert all[..|tiles|] == tiles && all[|tiles|] == t;
    forall px, py | 0 <= px < width && 0 <= py < height && (py < ty || (py < ty + size && px < tx + size))
      ensures TileColour(all, px, py).Some?
    {
      if !Inside(tx, ty, t.w, t.h, px, py) {
        assert TileColour(tiles, px, py).Some?;
      }
    }
  }

  lemma TileFits(t: Tile, width: nat, height: nat, size: nat)
    requires t.x < width && t.y < height && t.w == Words.Min(size, width - t.x) && t.h == Words.Min(size, height - t.y)
    requires t.body.Raw? ==> |t.body.pixels| == t.w * t.h
    ensures TileOk(t, width, height)
  {
  }

  /** The tiles read in front of the one at (tx, ty), on a grid of the given size. */
  ghost predicate Laid(tiles: seq<Tile>, width: nat, height: nat, tx: nat, ty: nat, size: nat) {
    && AllTiles(tiles, width, height) && RasterOrder(tiles) && Covering(tiles, width, height, tx, ty, size)
    && forall i :: 0 <= i < |tiles| ==> Before(tiles[i], tx, ty, size)
  }

  lemma LaidFirst(width: nat, height: nat, size: nat)
    ensures Laid([], width, height, 0, 0, size)
  {
  }

  lemma LaidStep(tiles: seq<Tile>, width: nat, height: nat, tx: nat, ty: nat, t: Tile, size: nat)
    requires Laid(tiles, width, height, tx, ty, size) && tx < width && ty < height
    requires t.x == tx && t.y == ty && t.w == Words.Min(size, width - tx) && t.h == Words.Min(size, height - ty)
    requires (t.body.Raw? ==> |t.body.pixels| == t.w * t.h) && Placed(t)
    ensures Laid(tiles + [t], width, height, tx + size, ty, size)
  {
    hide TileOk, Placed, Covering, RasterOrder;
    TileFits(t, width, height, size);
    OrderStep(tiles, t, size);
    CoveringStep(tiles, width, height, tx, ty, t, size);
  }

  lemma LaidRow(tiles: seq<Tile>, width: nat, height: nat, tx: nat, ty: nat, size: nat)
    requires Laid(tiles, width, height, tx, ty, size) && (tx >= width || ty >= height)
    ensures Laid(tiles, width, height, 0, ty + size, size)
  {
    hide TileOk, Placed, TileColour, RasterOrder;
  }

  /** All tiles of a rectangle have been read. */
  ghost predicate AllLaid(tiles: seq<Tile>, width: nat, height: nat) {
    && AllTiles(tiles, width, height) && RasterOrder(tiles)
    && forall px, py :: 0 <= px < width && 0 <= py < height ==> TileColour(tiles, px, py).Some?
  }

  lemma LaidAll(tiles: seq<Tile>, width: nat, height: nat, tx: nat, ty: nat, size: nat)
    requires Laid(tiles, width, height, tx, ty, size) && ty >= height
    ensures AllLaid(tiles, width, height)
  {
    hide TileOk, Placed, TileColour, RasterOrder;
  }

  /** What a rectangle of tiles shows: every pixel what its own tile means, when no
      subrectangle crosses the right edge; and, in any case, nothing transparent when no
      tile is. */
  lemma LaidMeaning(tiles: seq<Tile>, width: nat, height: nat)
    requires AllLaid(tiles, width, height)
    ensures (forall i :: 0 <= i < |tiles| ==> TileInColumns(tiles[i], width)) ==>
              forall px, py :: 0 <= px < width && 0 <= py < height ==>
                PixelOf(Render(width, height, tiles), width, px, py) == TileColour(tiles, px, py)
    ensures AllOpaque(tiles) ==> Opaque(Render(width, height, tiles))
  {
    hide TileOk, Placed, TileColour, TileInColumns, OpaqueTile, Render, RasterOrder;
    if AllOpaque(tiles) {
      forall i | 0 <= i < width * height ensures Render(width, height, tiles)[i].a == 255 {
        var (px, py) := Split(i, width, height);
        RenderOpaqueAt(width, height, tiles, px, py);
      }
    }
    if forall i :: 0 <= i < |tiles| ==> TileInColumns(tiles[i], width) {
      forall px, py | 0 <= px < width && 0 <= py < height
        ensures PixelOf(Render(width, height, tiles), width, px, py) == TileColour(tiles, px, py)
      {
        RenderAt(width, height, tiles, px, py);
      }
    }
  }

  /** The column and the row of an index. */
  function Split(i: nat, width: nat, height: nat): (r: (nat, nat))
    requires i < width * height
    ensures r.0 < width && r.1 < height && i == r.1 * width + r.0
  {
    SplitBounds(i, width, height);
    (i % width, i / width)
  }

  lemma SplitBounds(i: nat, width: nat, height: nat)
    requires i < width * height
    ensures width > 0 && i / width < height
  {
    assert width == 0 ==> width * height == 0;
    QuotientBound(i, width, height);
  }

  lemma {:induction false} RawStable(d: seq<byte>, e: seq<byte>, o: nat, n: nat, f: Format)
    requires d <= e && o + n * BytesPerPixel(f) <= |d|
    ensures RawPixels(d, o, n, f) == RawPixels(e, o, n, f)
  {
    hide PixelAt;
    if n == 0 {
    } else {
      MoreSubs(n - 1, n, BytesPerPixel(f));
      RawStable(d, e, o, n - 1, f);
      PixelStable(d, e, o + (n - 1) * BytesPerPixel(f), f);
    }
  }
}
