/** ZRLE-style rectangles: tiles of 64 by 64 pixels out of an inflated payload. Unlike
    section 7.7.6 of RFC 6143 the client reads whole pixels, not compact ones, and inflates
    each rectangle on its own. */
module Zrle {
  import opened Options
  import opened Words
  import opened Pixels
  import opened Rre
  import opened Tiles

  // ---- run lengths ------------------------------------------------------------------

  /** One more than the sum of the bytes up to the first that is not 255, and where the
      next byte is. */
  function RunFrom(d: seq<byte>, cursor: nat, run: nat): (r: Option<(nat, nat)>)
    ensures r.Some? ==> r.value.0 >= run && cursor < r.value.1 <= |d|
    decreases |d| - cursor
  {
    if |d| < cursor + 1 then None
    else if d[cursor] == 255 then RunFrom(d, cursor + 1, run + 255)
    else Some((run + d[cursor], cursor + 1))
  }

  /** `parseZrleRunLength(bytes, offset)`: the length and the bytes consumed. */
  method ParseZrleRunLength(d: seq<byte>, offset: nat) returns (r: Option<(nat, nat)>)
    ensures match RunFrom(d, offset, 1)
            case None => r == None
            case Some((run, q)) => r == Some((run, q - offset))
  {
    var cursor: nat, runLength: nat := offset, 1;
    while true
      invariant cursor >= offset && RunFrom(d, offset, 1) == RunFrom(d, cursor, runLength)
      decreases |d| - cursor
    {
      if |d| < cursor + 1 {
        return None;
      }
      var value := d[cursor];
      cursor := cursor + 1;
      runLength := runLength + value;
      if value != 255 {
        break;
      }
    }
    r := Some((runLength, cursor - offset));
  }

  /** The bytes of a run length: 255 as long as it can be taken off, then the rest. */
  function RunBytes(n: nat): seq<byte>
    requires n >= 1
  {
    if n <= 255 then [n - 1] else [255] + RunBytes(n - 255)
  }

  /** Every length from 1 up is read back from its bytes. */
  lemma {:induction false} RunDecodes(d: seq<byte>, o: nat, n: nat, run: nat)
    requires n >= 1 && o <= |d| && RunBytes(n) <= d[o..]
    ensures RunFrom(d, o, run) == Some((run + n - 1, o + |RunBytes(n)|))
    decreases n
  {
    assert d[o..][0] == d[o] == RunBytes(n)[0];
    if n > 255 {
      assert d[o + 1..] == d[o..][1..];
      assert RunBytes(n - 255) == RunBytes(n)[1..];
      RunDecodes(d, o + 1, n - 255, run + 255);
    }
  }

  /** And a length has no other bytes than its own. */
  lemma {:induction false} RunEncodes(d: seq<byte>, o: nat, run: nat)
    requires RunFrom(d, o, run).Some?
    ensures var (n, q) := RunFrom(d, o, run).value;
            o < q <= |d| && d[o..q] == RunBytes(n - run + 1)
    decreases |d| - o
  {
    var (n, q) := RunFrom(d, o, run).value;
    if d[o] == 255 {
      RunEncodes(d, o + 1, run + 255);
      assert d[o..q] == [255] + d[o + 1..q];
    } else {
      assert d[o..q] == [d[o]];
    }
  }

  // ---- runs -----------------------------------------------------------------------------

  datatype Run = Run(c: Rgba, n: nat)

  function Rep(c: Rgba, n: nat): (r: seq<Rgba>)
    ensures |r| == n
  {
    seq(n, _ => c)
  }

  /** The pixels of all runs, one behind the other. */
  function Expand(runs: seq<Run>): seq<Rgba> {
    if runs == [] then [] else Expand(runs[..|runs| - 1]) + Rep(runs[|runs| - 1].c, runs[|runs| - 1].n)
  }

  lemma ExpandMore(runs: seq<Run>, c: Rgba, n: nat)
    ensures Expand(runs + [Run(c, n)]) == Expand(runs) + Rep(c, n)
  {
    assert (runs + [Run(c, n)])[..|runs|] == runs;
  }

  /** The runs of a plain RLE tile of n pixels: a pixel and a length, until there are
      enough of them. */
  function PlainRuns(d: seq<byte>, cursor: nat, n: nat, f: Format, acc: seq<Run>): (r: Option<(seq<Run>, nat)>)
    ensures r.Some? ==> cursor <= r.value.1 && n <= |Expand(r.value.0)|
    decreases n - |Expand(acc)|
  {
    if |Expand(acc)| >= n then Some((acc, cursor))
    else if PixelAt(d, cursor, f) == None then None
    else
      var c, p := PixelAt(d, cursor, f).value, cursor + BytesPerPixel(f);
      match RunFrom(d, p, 1)
      case None => None
      case Some((run, q)) =>
        ExpandMore(acc, c, run);
        PlainRuns(d, q, n, f, acc + [Run(c, run)])
  }

  /** The runs of a palette RLE tile: an index, with a length behind it when its high bit
      is set. An index past the palette stops everything. */
  function PaletteRuns(d: seq<byte>, cursor: nat, n: nat, palette: seq<Rgba>, acc: seq<Run>): (r: Option<(seq<Run>, nat)>)
    ensures r.Some? ==> cursor <= r.value.1 && n <= |Expand(r.value.0)|
    decreases n - |Expand(acc)|
  {
    if |Expand(acc)| >= n then Some((acc, cursor))
    else if |d| < cursor + 1 then None
    else
      var b := d[cursor];
      match (if b >= 128 then RunFrom(d, cursor + 1, 1) else Some((1, cursor + 1)))
      case None => None
      case Some((run, q)) =>
        if b % 128 >= |palette| then None
        else
          ExpandMore(acc, palette[b % 128], run);
          PaletteRuns(d, q, n, palette, acc + [Run(palette[b % 128], run)])
  }

  // ---- tiles ------------------------------------------------------------------------------

  /** Bits an index takes in a packed tile. */
  function IndexBits(size: nat): (bits: nat)
    ensures bits in {1, 2, 4}
  {
    if size <= 2 then 1 else if size <= 4 then 2 else 4
  }

  /** `Math.ceil(tileWidth * bitsPerIndex / 8)` */
  function RowBytes(w: nat, bits: nat): nat {
    (w * bits + 7) / 8
  }

  /** The bytes of a row of indices, section 7.7.6 of RFC 6143. */
  lemma RowOfIndices(w: nat, size: nat)
    ensures RowBytes(w, IndexBits(size)) == if size <= 2 then (w + 7) / 8 else if size <= 4 then (w + 3) / 4 else (w + 1) / 2
  {
  }

  lemma IndexInRow(w: nat, h: nat, bits: nat, row: nat, col: nat)
    requires col < w && row < h && bits > 0
    ensures row * RowBytes(w, bits) + col * bits / 8 < RowBytes(w, bits) * h
  {
    var n := RowBytes(w, bits);
    assert col * bits + bits <= w * bits by { Multiples(col + 1, w, bits); }
    assert col * bits / 8 < n;
    RowInTile(row, n, h);
  }

  /** The row and the column of pixel k of a tile of width w. */
  function Row(w: nat, k: nat): nat
    requires w > 0
  {
    k / w
  }

  function Column(w: nat, k: nat): nat
    requires w > 0
  {
    k % w
  }

  /** The index of one pixel of a packed tile whose data starts at o. */
  function PackedIndex(d: seq<byte>, o: nat, w: nat, h: nat, bits: nat, row: nat, col: nat): nat
    requires col < w && row < h && bits in {1, 2, 4} && o + RowBytes(w, bits) * h <= |d|
  {
    IndexInRow(w, h, bits, row, col);
    var shift := 8 - bits - col * bits % 8;
    Low(Shr(d[o + row * RowBytes(w, bits) + col * bits / 8], if shift >= 0 then shift else 0), bits)
  }

  function Lookup(palette: seq<Rgba>, index: nat): Rgba {
    if index < |palette| then palette[index] else CLEAR
  }

  /** The pixels of a packed tile: one whose index is past the palette is not painted. */
  function PackedPixels(d: seq<byte>, o: nat, w: nat, h: nat, palette: seq<Rgba>, n: nat): (r: seq<Rgba>)
    requires w > 0 && n <= w * h && o + RowBytes(w, IndexBits(|palette|)) * h <= |d|
    ensures |r| == n
  {
    if n == 0 then [] else
      PixelPlace(w, h, n - 1);
      PackedPixels(d, o, w, h, palette, n - 1)
      + [Lookup(palette, PackedIndex(d, o, w, h, IndexBits(|palette|), Row(w, n - 1), Column(w, n - 1)))]
  }

  lemma PixelPlace(w: nat, h: nat, k: nat)
    requires w > 0 && k < w * h
    ensures Row(w, k) < h && Column(w, k) < w && k == Row(w, k) * w + Column(w, k)
  {
    QuotientBound(k, w, h);
  }

  datatype TileData = Missing | Unknown | Data(pixels: seq<Rgba>, cursor: nat)

  function ReadRaw(d: seq<byte>, p: nat, n: nat, f: Format): (r: TileData)
    ensures r.Data? ==> |r.pixels| == n && r.cursor >= p
  {
    if |d| < p + n * BytesPerPixel(f) then Missing
    else Data(RawPixels(d, p, n, f), p + n * BytesPerPixel(f))
  }

  function ReadSolid(d: seq<byte>, p: nat, n: nat, f: Format): (r: TileData)
    ensures r.Data? ==> |r.pixels| == n && r.cursor >= p
  {
    if PixelAt(d, p, f) == None then Missing
    else Data(Rep(PixelAt(d, p, f).value, n), p + BytesPerPixel(f))
  }

  /** The first n pixels of some runs. */
  function FirstPixels(runs: Option<(seq<Run>, nat)>, n: nat): (r: TileData)
    requires runs.Some? ==> n <= |Expand(runs.value.0)|
    ensures r.Data? ==> |r.pixels| == n && runs.Some? && r.cursor == runs.value.1
    ensures !r.Unknown?
  {
    match runs
    case None => Missing
    case Some((rs, q)) => Data(Expand(rs)[..n], q)
  }

  function ReadPacked(d: seq<byte>, q: nat, w: nat, h: nat, palette: seq<Rgba>): (r: TileData)
    requires w > 0
    ensures r.Data? ==> |r.pixels| == w * h && r.cursor >= q
  {
    if |d| < q + RowBytes(w, IndexBits(|palette|)) * h then Missing
    else Data(PackedPixels(d, q, w, h, palette, w * h), q + RowBytes(w, IndexBits(|palette|)) * h)
  }

  function PaletteEnd(p: nat, size: nat, f: Format): (q: nat)
    ensures q >= p
  {
    p + size * BytesPerPixel(f)
  }

  function ReadPalette(d: seq<byte>, p: nat, size: nat, f: Format): (r: Option<seq<Rgba>>)
    ensures r.Some? ==> |r.value| == size
  {
    if |d| < PaletteEnd(p, size, f) then None else Some(RawPixels(d, p, size, f))
  }

  /** A tile with a palette, packed or run-length coded. */
  function ReadIndexed(d: seq<byte>, q: nat, w: nat, h: nat, palette: Option<seq<Rgba>>, rle: bool): (r: TileData)
    requires w > 0
    ensures r.Data? ==> |r.pixels| == w * h && r.cursor >= q
  {
    match palette
    case None => Missing
    case Some(colours) =>
      if rle then FirstPixels(PaletteRuns(d, q, w * h, colours, []), w * h) else ReadPacked(d, q, w, h, colours)
  }

  /** One tile of w by h pixels. */
  function ReadTile(d: seq<byte>, cursor: nat, w: nat, h: nat, f: Format): (r: TileData)
    requires w > 0 && h > 0
    ensures r.Data? ==> |r.pixels| == w * h && r.cursor >= cursor
  {
    if |d| < cursor + 1 then Missing
    else
      var p, rle, size := cursor + 1, d[cursor] >= 128, d[cursor] % 128;
      if !rle && size == 0 then ReadRaw(d, p, w * h, f)
      else if !rle && size == 1 then ReadSolid(d, p, w * h, f)
      else if !rle && size > 16 then Unknown
      else if size == 0 then FirstPixels(PlainRuns(d, p, w * h, f, []), w * h)
      else ReadIndexed(d, PaletteEnd(p, size, f), w, h, ReadPalette(d, p, size, f), rle)
  }

  datatype Tiling = Short | Skip | Shown(tiles: seq<Tile>)

  function PixelTile(x: nat, y: nat, w: nat, h: nat, pixels: seq<Rgba>): Tile {
    Tile(x, y, w, h, None, None, Raw(pixels))
  }

  /** The loops over the tiles, from the one at (tx, ty) on. */
  function ReadTiles(d: seq<byte>, cursor: nat, width: nat, height: nat, tx: nat, ty: nat, f: Format, acc: seq<Tile>): Tiling
    decreases height - ty, width - tx
  {
    if ty >= height then Shown(acc)
    else if tx >= width then ReadTiles(d, cursor, width, height, 0, ty + 64, f, acc)
    else
      var (w, h) := (Words.Min(64, width - tx), Words.Min(64, height - ty));
      match ReadTile(d, cursor, w, h, f)
      case Missing => Short
      case Unknown => Skip
      case Data(pixels, q) => ReadTiles(d, q, width, height, tx + 64, ty, f, acc + [PixelTile(tx, ty, w, h, pixels)])
  }

  datatype Parsed = Incomplete | Skipped(consumed: nat) | Tiled(tiles: seq<Tile>, consumed: nat)

  /** `parseZrleRect`; inflate stands for `inflateZrle`, with nothing for what it throws on. */
  function Parse(d: seq<byte>, o: nat, width: nat, height: nat, f: Format, inflate: seq<byte> -> Option<seq<byte>>): (r: Parsed)
    ensures !r.Incomplete? ==> r.consumed >= 4 && o + r.consumed <= |d|
  {
    if |d| < o + 4 then Incomplete
    else
      var n := Num(d, o, 4);
      if |d| < o + 4 + n then Incomplete
      else
        match inflate(d[o + 4..o + 4 + n])
        case None => Skipped(4 + n)
        case Some(decoded) =>
          match ReadTiles(decoded, 0, width, height, 0, 0, f, [])
          case Short => Incomplete
          case Skip => Skipped(4 + n)
          case Shown(tiles) => Tiled(tiles, 4 + n)
  }

  // ---- painting a tile pixel by pixel -------------------------------------------------------

  /** Where pixel k of a tile of width w at (x, y) is. */
  function Spot(width: nat, x: nat, y: nat, w: nat, k: nat): nat
    requires w > 0
  {
    (y + Row(w, k)) * width + (x + Column(w, k))
  }

  /** The pixels of a tile, painted one after the other from its first. */
  function Sprinkle(s: Surface, width: nat, x: nat, y: nat, w: nat, p: seq<Rgba>): (r: Surface)
    requires w > 0
    ensures |r| == |s|
  {
    if p == [] then s
    else FillRange(Sprinkle(s, width, x, y, w, p[..|p| - 1]), Spot(width, x, y, w, |p| - 1), 1, p[|p| - 1])
  }

  lemma PlaceOf(w: nat, row: nat, col: nat)
    requires col < w
    ensures Row(w, row * w + col) == row && Column(w, row * w + col) == col
  {
    var k := row * w + col;
    if k / w < row {
      Later(w, k / w, row);
    } else if k / w > row {
      Later(w, row, k / w);
    }
  }

  lemma SprinkleMore(s: Surface, width: nat, x: nat, y: nat, w: nat, p: seq<Rgba>, c: Rgba)
    requires w > 0
    ensures Sprinkle(s, width, x, y, w, p + [c]) == FillRange(Sprinkle(s, width, x, y, w, p), Spot(width, x, y, w, |p|), 1, c)
  {
    hide Spot;
    assert (p + [c])[..|p|] == p;
  }

  lemma {:induction false} SprinkleColumns(s: Surface, width: nat, x: nat, y: nat, w: nat, h: nat, tile: seq<Rgba>, row: nat, col: nat)
    requires w > 0 && |tile| == w * h && row < h && col <= w && row * w + w <= w * h
    requires Sprinkle(s, width, x, y, w, tile[..row * w]) == Blit(s, width, x, y, w, h, tile, row)
    ensures Sprinkle(s, width, x, y, w, tile[..row * w + col])
         == CopyRange(Blit(s, width, x, y, w, h, tile, row), (y + row) * width + x, tile[row * w..row * w + col])
  {
    hide Blit, Sprinkle;
    if col == 0 {
    } else {
      var k := row * w + (col - 1);
      SprinkleColumns(s, width, x, y, w, h, tile, row, col - 1);
      PlaceOf(w, row, col - 1);
      assert tile[..k + 1] == tile[..k] + [tile[k]];
      SprinkleMore(s, width, x, y, w, tile[..k], tile[k]);
    }
  }

  lemma {:induction false} SprinkleRows(s: Surface, width: nat, x: nat, y: nat, w: nat, h: nat, tile: seq<Rgba>, row: nat)
    requires w > 0 && |tile| == w * h && row <= h
    ensures row * w <= w * h
    ensures Sprinkle(s, width, x, y, w, tile[..row * w]) == Blit(s, width, x, y, w, h, tile, row)
  {
    hide Sprinkle, Blit;
    BlitRows(s, width, x, y, w, h, tile, row);
    if row > 0 {
      RowInTile(row - 1, w, h);
      assert row * w == (row - 1) * w + w;
      SprinkleRows(s, width, x, y, w, h, tile, row - 1);
      SprinkleColumns(s, width, x, y, w, h, tile, row - 1, w);
    } else {
      NoSprinkle(s, width, x, y, w);
      assert tile[..row * w] == [];
    }
  }

  lemma BlitRows(s: Surface, width: nat, x: nat, y: nat, w: nat, h: nat, tile: seq<Rgba>, row: nat)
    requires |tile| == w * h && row <= h
    ensures Blit(s, width, x, y, w, h, tile, 0) == s
    ensures row > 0 ==> (row - 1) * w + w <= w * h
    ensures row > 0 ==> Blit(s, width, x, y, w, h, tile, row)
                        == CopyRange(Blit(s, width, x, y, w, h, tile, row - 1), (y + (row - 1)) * width + x, tile[(row - 1) * w..(row - 1) * w + w])
  {
    if row > 0 {
      RowInTile(row - 1, w, h);
    }
  }

  lemma NoSprinkle(s: Surface, width: nat, x: nat, y: nat, w: nat)
    requires w > 0
    ensures Sprinkle(s, width, x, y, w, []) == s
  {
  }

  /** Painting a tile pixel by pixel in reading order is copying it in row by row. */
  lemma SprinkleIsBlit(s: Surface, width: nat, x: nat, y: nat, w: nat, h: nat, tile: seq<Rgba>)
    requires w > 0 && |tile| == w * h
    ensures Sprinkle(s, width, x, y, w, tile) == Blit(s, width, x, y, w, h, tile, h)
  {
    hide Sprinkle, Blit;
    SprinkleRows(s, width, x, y, w, h, tile, h);
    assert h * w == w * h;
    assert tile[..h * w] == tile;
  }

  /** Pixels not reached yet are as they were. */
  lemma {:induction false} SprinkleAhead(s: Surface, width: nat, x: nat, y: nat, w: nat, p: seq<Rgba>, k: nat)
    requires w > 0 && x + w <= width && |p| <= k && Spot(width, x, y, w, k) < |s|
    ensures Sprinkle(s, width, x, y, w, p)[Spot(width, x, y, w, k)] == s[Spot(width, x, y, w, k)]
  {
    if p == [] {
    } else {
      hide Spot;
      SprinkleAhead(s, width, x, y, w, p[..|p| - 1], k);
      SpotsDiffer(width, x, y, w, |p| - 1, k);
    }
  }

  lemma SpotsDiffer(width: nat, x: nat, y: nat, w: nat, j: nat, k: nat)
    requires w > 0 && x + w <= width && j < k
    ensures Spot(width, x, y, w, j) != Spot(width, x, y, w, k)
  {
    var (a, b) := (y + j / w, y + k / w);
    assert j == j / w * w + j % w && k == k / w * w + k % w;
    if a < b {
      Later(width, a, b);
    } else if a > b {
      Later(w, k / w, j / w);
    }
  }

  lemma OnePixel(s: Surface, width: nat, x: nat, y: nat, c: Rgba)
    ensures Fill(s, width, x, y, 1, 1, c) == FillRange(s, y * width + x, 1, c)
  {
    assert Fill(s, width, x, y, 1, 0, c) == s;
  }

  // ---- the loops of a tile --------------------------------------------------------------------

  /** The place in a tile behind its first |p| pixels. */
  predicate At(w: nat, h: nat, px: nat, py: nat, p: seq<Rgba>) {
    |p| == py * w + px && px < w && (py < h || (py == h && px == 0))
  }

  /** One pixel of a run, and the step to the next place. */
  method PaintNext(rgba: array<Rgba>, width: nat, tx: nat, ty: nat, w: nat, h: nat, px0: nat, py0: nat, c: Rgba,
                   ghost base: Surface, ghost p: seq<Rgba>) returns (px: nat, py: nat)
    requires w > 0 && At(w, h, px0, py0, p) && py0 < h && rgba[..] == Sprinkle(base, width, tx, ty, w, p)
    modifies rgba
    ensures At(w, h, px, py, p + [c]) && rgba[..] == Sprinkle(base, width, tx, ty, w, p + [c])
  {
    hide Sprinkle, Fill;
    px, py := px0, py0;
    OnePixel(rgba[..], width, tx + px, ty + py, c);
    PlaceOf(w, py, px);
    SprinkleMore(base, width, tx, ty, w, p, c);
    FillRgbaRect(rgba, width, tx + px, ty + py, 1, 1, c);
    px := px + 1;
    if px >= w {
      assert (py + 1) * w == py * w + w;
      px := 0;
      py := py + 1;
    }
  }

  /** The loop over a run, which ends with the run or with the tile. */
  method PaintRun(rgba: array<Rgba>, width: nat, tx: nat, ty: nat, w: nat, h: nat, px0: nat, py0: nat, c: Rgba, run: nat,
                  ghost base: Surface, ghost p: seq<Rgba>) returns (px: nat, py: nat, ghost p': seq<Rgba>)
    requires w > 0 && At(w, h, px0, py0, p) && py0 < h && rgba[..] == Sprinkle(base, width, tx, ty, w, p)
    modifies rgba
    ensures At(w, h, px, py, p') && rgba[..] == Sprinkle(base, width, tx, ty, w, p')
    ensures p' <= p + Rep(c, run) && (|p'| == |p| + run || py == h)
  {
    hide Sprinkle;
    px, py, p' := px0, py0, p;
    for i := 0 to run
      invariant At(w, h, px, py, p') && py < h && rgba[..] == Sprinkle(base, width, tx, ty, w, p')
      invariant p' == p + Rep(c, i)
    {
      px, py := PaintNext(rgba, width, tx, ty, w, h, px, py, c, base, p');
      assert p + Rep(c, i) + [c] == p + Rep(c, i + 1);
      p' := p' + [c];
      if py >= h {
        assert Rep(c, i + 1) <= Rep(c, run);
        break;
      }
    }
  }

  lemma AtEnd(w: nat, h: nat, px: nat, py: nat, p: seq<Rgba>)
    requires At(w, h, px, py, p)
    ensures |p| <= w * h && (py < h <==> |p| < w * h)
  {
    if py < h {
      RowInTile(py, w, h);
    } else {
      assert py * w == w * h;
    }
  }

  /** What the run loops keep: the pixels painted are those of the runs so far, as many as
      the tile has. */
  ghost predicate Painting(w: nat, h: nat, px: nat, py: nat, p: seq<Rgba>, runs: seq<Run>) {
    && At(w, h, px, py, p) && p <= Expand(runs)
    && (py < h ==> p == Expand(runs))
  }

  lemma PaintingStep(w: nat, h: nat, px: nat, py: nat, p: seq<Rgba>, runs: seq<Run>, c: Rgba, run: nat)
    requires At(w, h, px, py, p) && p <= Expand(runs) + Rep(c, run) && (|p| == |Expand(runs)| + run || py == h)
    ensures Painting(w, h, px, py, p, runs + [Run(c, run)])
  {
    ExpandMore(runs, c, run);
  }

  lemma PaintingStart(w: nat, h: nat)
    requires w > 0 && h > 0
    ensures Painting(w, h, 0, 0, [], [])
  {
  }

  lemma PaintingEnd(w: nat, h: nat, px: nat, py: nat, p: seq<Rgba>, runs: seq<Run>)
    requires Painting(w, h, px, py, p, runs)
    ensures py < h <==> |Expand(runs)| < w * h
    ensures py >= h ==> p == Expand(runs)[..w * h]
  {
    hide Expand;
    AtEnd(w, h, px, py, p);
  }

  /** A plain RLE tile. */
  method PlainTile(d: seq<byte>, start: nat, tx: nat, ty: nat, w: nat, h: nat, f: Format, rgba: array<Rgba>, width: nat)
      returns (ok: bool, cursor: nat)
    requires w > 0 && h > 0
    modifies rgba
    ensures match FirstPixels(PlainRuns(d, start, w * h, f, []), w * h)
            case Missing => !ok
            case Data(pixels, q) => ok && cursor == q && rgba[..] == Sprinkle(old(rgba[..]), width, tx, ty, w, pixels)
  {
    hide Sprinkle, PixelAt, RunFrom, Painting;
    cursor := start;
    ghost var base, p, runs: seq<Run> := rgba[..], [], [];
    var px: nat, py: nat := 0, 0;
    NoSprinkle(base, width, tx, ty, w);
    PaintingStart(w, h);
    while py < h
      invariant Painting(w, h, px, py, p, runs) && rgba[..] == Sprinkle(base, width, tx, ty, w, p)
      invariant PlainRuns(d, start, w * h, f, []) == PlainRuns(d, cursor, w * h, f, runs)
      decreases w * h - |Expand(runs)|
    {
      PaintingEnd(w, h, px, py, p, runs);
      var color := PixelAt(d, cursor, f);
      if color == None {
        return false, cursor;
      }
      cursor := cursor + BytesPerPixel(f);
      var run := ParseZrleRunLength(d, cursor);
      if run == None {
        return false, cursor;
      }
      cursor := cursor + run.value.1;
      ExpandMore(runs, color.value, run.value.0);
      assert At(w, h, px, py, p) && p == Expand(runs) by { PaintingHere(w, h, px, py, p, runs); }
      px, py, p := PaintRun(rgba, width, tx, ty, w, h, px, py, color.value, run.value.0, base, p);
      PaintingStep(w, h, px, py, p, runs, color.value, run.value.0);
      runs := runs + [Run(color.value, run.value.0)];
    }
    PaintingEnd(w, h, px, py, p, runs);
    ok := true;
  }

  lemma PaintingHere(w: nat, h: nat, px: nat, py: nat, p: seq<Rgba>, runs: seq<Run>)
    requires Painting(w, h, px, py, p, runs) && py < h
    ensures At(w, h, px, py, p) && p == Expand(runs)
  {
  }

  /** One more run of a palette RLE tile. */
  lemma PaletteNext(d: seq<byte>, cursor: nat, n: nat, palette: seq<Rgba>, runs: seq<Run>)
    requires |Expand(runs)| < n
    ensures |d| < cursor + 1 ==> PaletteRuns(d, cursor, n, palette, runs) == None
    ensures cursor < |d| ==>
              var run := if d[cursor] >= 128 then RunFrom(d, cursor + 1, 1) else Some((1, cursor + 1));
              PaletteRuns(d, cursor, n, palette, runs)
              == if run == None || d[cursor] % 128 >= |palette| then None
                 else PaletteRuns(d, run.value.1, n, palette, runs + [Run(palette[d[cursor] % 128], run.value.0)])
  {
    hide RunFrom, Expand;
  }

  lemma PaletteFull(d: seq<byte>, cursor: nat, n: nat, palette: seq<Rgba>, runs: seq<Run>)
    requires |Expand(runs)| >= n
    ensures PaletteRuns(d, cursor, n, palette, runs) == Some((runs, cursor))
  {
  }

  /** A palette RLE tile, behind its palette. */
  method PaletteTile(d: seq<byte>, start: nat, tx: nat, ty: nat, w: nat, h: nat, palette: seq<Rgba>, rgba: array<Rgba>, width: nat)
      returns (ok: bool, cursor: nat)
    requires w > 0 && h > 0
    modifies rgba
    ensures match FirstPixels(PaletteRuns(d, start, w * h, palette, []), w * h)
            case Missing => !ok
            case Data(pixels, q) => ok && cursor == q && rgba[..] == Sprinkle(old(rgba[..]), width, tx, ty, w, pixels)
  {
    hide Sprinkle, RunFrom, Painting, PaletteRuns, Expand, At;
    cursor := start;
    ghost var base, p, runs: seq<Run> := rgba[..], [], [];
    var px: nat, py: nat := 0, 0;
    NoSprinkle(base, width, tx, ty, w);
    PaintingStart(w, h);
    while py < h
      invariant Painting(w, h, px, py, p, runs) && rgba[..] == Sprinkle(base, width, tx, ty, w, p)
      invariant PaletteRuns(d, start, w * h, palette, []) == PaletteRuns(d, cursor, w * h, palette, runs)
      decreases w * h - |Expand(runs)|
    {
      PaintingEnd(w, h, px, py, p, runs);
      PaletteNext(d, cursor, w * h, palette, runs);
      if |d| < cursor + 1 {
        return false, cursor;
      }
      var indexByte := d[cursor];
      cursor := cursor + 1;
      var paletteIndex: nat, runLength: nat := indexByte, 1;
      if indexByte >= 128 {
        paletteIndex := indexByte % 128;
        var run := ParseZrleRunLength(d, cursor);
        if run == None {
          return false, cursor;
        }
        cursor := cursor + run.value.1;
        runLength := run.value.0;
      }
      if paletteIndex >= |palette| {
        return false, cursor;
      }
      var color := palette[paletteIndex];
      ExpandMore(runs, color, runLength);
      assert At(w, h, px, py, p) && p == Expand(runs) by { PaintingHere(w, h, px, py, p, runs); }
      px, py, p := PaintRun(rgba, width, tx, ty, w, h, px, py, color, runLength, base, p);
      PaintingStep(w, h, px, py, p, runs, color, runLength);
      runs := runs + [Run(color, runLength)];
    }
    PaintingEnd(w, h, px, py, p, runs);
    PaletteFull(d, cursor, w * h, palette, runs);
    ok := true;
  }

  /** The loop that reads a palette. */
  method PaletteLoop(d: seq<byte>, start: nat, size: nat, f: Format) returns (palette: Option<seq<Rgba>>, cursor: nat)
    requires start <= |d|
    ensures palette == ReadPalette(d, start, size, f)
    ensures palette.Some? ==> cursor == PaletteEnd(start, size, f)
  {
    hide PixelAt, RawPixels;
    var colours: seq<Rgba> := [];
    cursor := start;
    NoPixels(d, start, f);
    for i := 0 to size
      invariant cursor == start + i * BytesPerPixel(f) <= |d| && i * BytesPerPixel(f) <= size * BytesPerPixel(f)
      invariant colours == RawPixels(d, start, i, f)
    {
      MoreSubs(i, size, BytesPerPixel(f));
      var color := PixelAt(d, cursor, f);
      if color == None {
        return None, cursor;
      }
      OnePixelMore(d, start, i, f);
      cursor := cursor + BytesPerPixel(f);
      colours := colours + [color.value];
    }
    palette := Some(colours);
  }

  lemma NoPixels(d: seq<byte>, o: nat, f: Format)
    requires o <= |d|
    ensures RawPixels(d, o, 0, f) == []
  {
  }

  lemma OnePixelMore(d: seq<byte>, o: nat, i: nat, f: Format)
    requires o + i * BytesPerPixel(f) + BytesPerPixel(f) <= |d|
    ensures (i + 1) * BytesPerPixel(f) == i * BytesPerPixel(f) + BytesPerPixel(f)
    ensures RawPixels(d, o, i + 1, f) == RawPixels(d, o, i, f) + [PixelAt(d, o + i * BytesPerPixel(f), f).value]
  {
  }

  /** Nothing has been painted where the tile is to go. */
  ghost predicate TileClear(s: Surface, width: nat, x: nat, y: nat, w: nat, h: nat)
    requires w > 0
  {
    forall k :: 0 <= k < w * h && Spot(width, x, y, w, k) < |s| ==> s[Spot(width, x, y, w, k)] == CLEAR
  }

  /** A packed tile, behind its palette: a pixel whose index is past it stays clear. */
  method PackedTile(d: seq<byte>, o: nat, tx: nat, ty: nat, w: nat, h: nat, palette: seq<Rgba>, rgba: array<Rgba>, width: nat)
    requires w > 0 && tx + w <= width && o + RowBytes(w, IndexBits(|palette|)) * h <= |d|
    requires TileClear(rgba[..], width, tx, ty, w, h)
    modifies rgba
    ensures rgba[..] == Sprinkle(old(rgba[..]), width, tx, ty, w, PackedPixels(d, o, w, h, palette, w * h))
  {
    hide Sprinkle, PackedIndex, Spot, IndexBits, RowBytes, PackedPixels, TileClear;
    ghost var base, p := rgba[..], [];
    NoSprinkle(base, width, tx, ty, w);
    assert PackedPixels(d, o, w, h, palette, 0) == [] by { NoPacked(d, o, w, h, palette); }
    for row := 0 to h
      invariant p == PackedSoFar(d, o, w, h, palette, row, 0)
      invariant rgba[..] == Sprinkle(base, width, tx, ty, w, p)
    {
      for col := 0 to w
        invariant p == PackedSoFar(d, o, w, h, palette, row, col)
        invariant rgba[..] == Sprinkle(base, width, tx, ty, w, p)
      {
        var paletteIndex := PackedIndex(d, o, w, h, IndexBits(|palette|), row, col);
        PackedMore(d, o, w, h, palette, row, col);
        PackedStep(rgba[..], base, width, tx, ty, w, h, p, row, col, Lookup(palette, paletteIndex));
        if paletteIndex < |palette| {
          OnePixel(rgba[..], width, tx + col, ty + row, palette[paletteIndex]);
          FillRgbaRect(rgba, width, tx + col, ty + row, 1, 1, palette[paletteIndex]);
        }
        p := p + [Lookup(palette, paletteIndex)];
      }
      PackedRow(d, o, w, h, palette, row);
    }
    PackedAll(d, o, w, h, palette);
  }

  function PackedSoFar(d: seq<byte>, o: nat, w: nat, h: nat, palette: seq<Rgba>, row: nat, col: nat): (p: seq<Rgba>)
    requires w > 0 && col <= w && row <= h && (row == h ==> col == 0) && o + RowBytes(w, IndexBits(|palette|)) * h <= |d|
    ensures |p| == row * w + col
  {
    PlaceInTile(w, h, row, col);
    PackedPixels(d, o, w, h, palette, row * w + col)
  }

  lemma PlaceInTile(w: nat, h: nat, row: nat, col: nat)
    requires col <= w && row <= h && (row == h ==> col == 0)
    ensures row * w + col <= w * h
  {
    if row < h {
      RowInTile(row, w, h);
    } else {
      assert row * w == w * h;
    }
  }

  lemma NoPacked(d: seq<byte>, o: nat, w: nat, h: nat, palette: seq<Rgba>)
    requires w > 0 && o + RowBytes(w, IndexBits(|palette|)) * h <= |d|
    ensures PackedPixels(d, o, w, h, palette, 0) == []
  {
  }

  lemma PackedMore(d: seq<byte>, o: nat, w: nat, h: nat, palette: seq<Rgba>, row: nat, col: nat)
    requires w > 0 && col < w && row < h && o + RowBytes(w, IndexBits(|palette|)) * h <= |d|
    ensures PackedSoFar(d, o, w, h, palette, row, col + 1)
         == PackedSoFar(d, o, w, h, palette, row, col) + [Lookup(palette, PackedIndex(d, o, w, h, IndexBits(|palette|), row, col))]
  {
    hide PackedIndex;
    PlaceOf(w, row, col);
    PlaceInTile(w, h, row, col + 1);
  }

  lemma PackedRow(d: seq<byte>, o: nat, w: nat, h: nat, palette: seq<Rgba>, row: nat)
    requires w > 0 && row < h && o + RowBytes(w, IndexBits(|palette|)) * h <= |d|
    ensures PackedSoFar(d, o, w, h, palette, row, w) == PackedSoFar(d, o, w, h, palette, row + 1, 0)
  {
    assert (row + 1) * w + 0 == row * w + w;
  }

  lemma PackedAll(d: seq<byte>, o: nat, w: nat, h: nat, palette: seq<Rgba>)
    requires w > 0 && o + RowBytes(w, IndexBits(|palette|)) * h <= |d|
    ensures PackedSoFar(d, o, w, h, palette, h, 0) == PackedPixels(d, o, w, h, palette, w * h)
  {
    assert h * w + 0 == w * h;
  }

  /** Painting one more pixel, which does nothing when the colour is clear. */
  lemma PackedStep(now: Surface, base: Surface, width: nat, tx: nat, ty: nat, w: nat, h: nat, p: seq<Rgba>, row: nat, col: nat, c: Rgba)
    requires w > 0 && col < w && row < h && |p| == row * w + col && tx + w <= width
    requires TileClear(base, width, tx, ty, w, h) && now == Sprinkle(base, width, tx, ty, w, p)
    ensures Sprinkle(base, width, tx, ty, w, p + [c]) == FillRange(now, (ty + row) * width + (tx + col), 1, c)
    ensures c == CLEAR ==> FillRange(now, (ty + row) * width + (tx + col), 1, c) == now
  {
    hide Sprinkle;
    var k := row * w + col;
    PlaceOf(w, row, col);
    PlaceInTile(w, h, row, col + 1);
    SprinkleMore(base, width, tx, ty, w, p, c);
    if Spot(width, tx, ty, w, k) < |base| {
      SprinkleAhead(base, width, tx, ty, w, p, k);
    }
  }

  // ---- the rectangle --------------------------------------------------------------------------

  lemma {:induction false} SprinkleRep(s: Surface, width: nat, x: nat, y: nat, w: nat, h: nat, c: Rgba)
    ensures Fill(s, width, x, y, w, h, c) == Blit(s, width, x, y, w, h, Rep(c, w * h), h)
  {
    FillIsBlit(s, width, x, y, w, h, c, h);
  }

  lemma {:induction false} FillIsBlit(s: Surface, width: nat, x: nat, y: nat, w: nat, h: nat, c: Rgba, rows: nat)
    requires rows <= h
    ensures Fill(s, width, x, y, w, rows, c) == Blit(s, width, x, y, w, h, Rep(c, w * h), rows)
  {
    if rows == 0 {
    } else {
      FillIsBlit(s, width, x, y, w, h, c, rows - 1);
      RowInTile(rows - 1, w, h);
      assert RowPart(Rep(c, w * h), rows - 1, w, h) == Rep(c, w);
    }
  }

  /** What reading and painting one tile does. */
  ghost predicate TurnOk(r: TileData, tx: nat, ty: nat, w: nat, h: nat, status: TileData, cursor: nat, was: Surface, now: Surface, width: nat) {
    match r
    case Missing => status.Missing?
    case Unknown => status.Unknown?
    case Data(pixels, q) => status == r && cursor == q && |pixels| == w * h
                            && now == PaintTile(was, width, PixelTile(tx, ty, w, h, pixels))
  }

  /** A palette tile of either kind. */
  method IndexedTile(d: seq<byte>, start: nat, tx: nat, ty: nat, w: nat, h: nat, size: nat, rle: bool, f: Format,
                     rgba: array<Rgba>, width: nat) returns (ghost status: TileData, ok: bool, cursor: nat)
    requires w > 0 && h > 0 && tx + w <= width && start <= |d| && TileClear(rgba[..], width, tx, ty, w, h)
    modifies rgba
    ensures var r := ReadIndexed(d, PaletteEnd(start, size, f), w, h, ReadPalette(d, start, size, f), rle);
            ok == status.Data? && !status.Unknown? && TurnOk(r, tx, ty, w, h, status, cursor, old(rgba[..]), rgba[..], width)
  {
    hide Sprinkle, Blit, PackedPixels, PaletteRuns, PixelAt, TileClear, FirstPixels, RowBytes;
    ghost var was := rgba[..];
    status := ReadIndexed(d, PaletteEnd(start, size, f), w, h, ReadPalette(d, start, size, f), rle);
    var palette;
    palette, cursor := PaletteLoop(d, start, size, f);
    if palette == None {
      return status, false, cursor;
    }
    if rle {
      ok, cursor := PaletteTile(d, cursor, tx, ty, w, h, palette.value, rgba, width);
    } else {
      var rowBytes := RowBytes(w, IndexBits(size));
      if |d| < cursor + rowBytes * h {
        return status, false, cursor;
      }
      PackedTile(d, cursor, tx, ty, w, h, palette.value, rgba, width);
      cursor := cursor + rowBytes * h;
      ok := true;
    }
    if status.Data? {
      SprinkleIsBlit(was, width, tx, ty, w, h, status.pixels);
    }
  }

  method RawTile(d: seq<byte>, start: nat, tx: nat, ty: nat, w: nat, h: nat, f: Format, rgba: array<Rgba>, width: nat, ghost height: nat)
      returns (ghost status: TileData, ok: bool, cursor: nat)
    requires tx + w <= width && ty + h <= height && rgba.Length == width * height
    modifies rgba
    ensures ok == status.Data? && !status.Unknown? && TurnOk(ReadRaw(d, start, w * h, f), tx, ty, w, h, status, cursor, old(rgba[..]), rgba[..], width)
  {
    hide Blit, RawPixels;
    status, cursor := ReadRaw(d, start, w * h, f), start;
    var rawLength := w * h * BytesPerPixel(f);
    if |d| < cursor + rawLength {
      return status, false, cursor;
    }
    BlitRgbaTile(rgba, width, height, tx, ty, w, h, RawPixels(d, cursor, w * h, f));
    cursor := cursor + rawLength;
    ok := true;
  }

  method SolidTile(d: seq<byte>, start: nat, tx: nat, ty: nat, w: nat, h: nat, f: Format, rgba: array<Rgba>, width: nat)
      returns (ghost status: TileData, ok: bool, cursor: nat)
    modifies rgba
    ensures ok == status.Data? && !status.Unknown? && TurnOk(ReadSolid(d, start, w * h, f), tx, ty, w, h, status, cursor, old(rgba[..]), rgba[..], width)
  {
    hide Blit, Fill, PixelAt;
    status, cursor := ReadSolid(d, start, w * h, f), start;
    var background := PixelAt(d, cursor, f);
    if background == None {
      return status, false, cursor;
    }
    cursor := cursor + BytesPerPixel(f);
    SprinkleRep(rgba[..], width, tx, ty, w, h, background.value);
    FillRgbaRect(rgba, width, tx, ty, w, h, background.value);
    ok := true;
  }

  method RunsTile(d: seq<byte>, start: nat, tx: nat, ty: nat, w: nat, h: nat, f: Format, rgba: array<Rgba>, width: nat)
      returns (ghost status: TileData, ok: bool, cursor: nat)
    requires w > 0 && h > 0
    modifies rgba
    ensures ok == status.Data? && !status.Unknown?
    ensures TurnOk(FirstPixels(PlainRuns(d, start, w * h, f, []), w * h), tx, ty, w, h, status, cursor, old(rgba[..]), rgba[..], width)
  {
    hide Blit, Sprinkle, FirstPixels, PlainRuns;
    ghost var was := rgba[..];
    status := FirstPixels(PlainRuns(d, start, w * h, f, []), w * h);
    ok, cursor := PlainTile(d, start, tx, ty, w, h, f, rgba, width);
    if status.Data? {
      SprinkleIsBlit(was, width, tx, ty, w, h, status.pixels);
    }
  }

  /** One turn of the loop over the tiles. */
  method TileTurn(d: seq<byte>, start: nat, tx: nat, ty: nat, w: nat, h: nat, f: Format, rgba: array<Rgba>, width: nat, ghost height: nat)
      returns (ghost status: TileData, ok: bool, skip: bool, cursor: nat)
    requires 0 < w && 0 < h && tx + w <= width && ty + h <= height && rgba.Length == width * height
    requires TileClear(rgba[..], width, tx, ty, w, h)
    modifies rgba
    ensures TurnOk(ReadTile(d, start, w, h, f), tx, ty, w, h, status, cursor, old(rgba[..]), rgba[..], width)
    ensures ok == status.Data? && skip == status.Unknown?
  {
    hide PixelAt, TileClear, FirstPixels, ReadIndexed, PaletteEnd, ReadPalette, PlainRuns, ReadRaw, ReadSolid, PaintTile;
    ok, skip, cursor, status := false, false, start, Missing;
    if |d| < cursor + 1 {
      return;
    }
    var subencoding := d[cursor];
    cursor := cursor + 1;
    var paletteSize, runLengthEncoded := subencoding % 128, subencoding >= 128;
    if !runLengthEncoded && paletteSize == 0 {
      status, ok, cursor := RawTile(d, cursor, tx, ty, w, h, f, rgba, width, height);
    } else if !runLengthEncoded && paletteSize == 1 {
      status, ok, cursor := SolidTile(d, cursor, tx, ty, w, h, f, rgba, width);
    } else if !runLengthEncoded && paletteSize > 16 {
      skip, status := true, Unknown;
    } else if paletteSize == 0 {
      status, ok, cursor := RunsTile(d, cursor, tx, ty, w, h, f, rgba, width);
    } else {
      status, ok, cursor := IndexedTile(d, cursor, tx, ty, w, h, paletteSize, runLengthEncoded, f, rgba, width);
    }
  }

  ghost predicate AllPixels(tiles: seq<Tile>) {
    forall i :: 0 <= i < |tiles| ==> tiles[i].body.Raw?
  }

  lemma {:induction false} RenderClear(width: nat, height: nat, tiles: seq<Tile>, px: nat, py: nat)
    requires AllTiles(tiles, width, height) && AllPixels(tiles) && px < width && py < height
    requires forall i :: 0 <= i < |tiles| ==> !Inside(tiles[i].x, tiles[i].y, tiles[i].w, tiles[i].h, px, py)
    ensures PixelOf(Render(width, height, tiles), width, px, py) == Some(CLEAR)
  {
    hide Blit;
    PixelIndex(width, height, px, py);
    if tiles == [] {
    } else {
      var n := |tiles| - 1;
      var t := tiles[n];
      assert TileOk(t, width, height) && t.body.Raw?;
      RenderClear(width, height, tiles[..n], px, py);
      BlitAt(Render(width, height, tiles[..n]), width, t.x, t.y, t.w, t.h, t.body.pixels, t.h, px, py);
    }
  }

  /** Where the next tile is to go nothing has been painted. */
  lemma ClearAhead(width: nat, height: nat, tiles: seq<Tile>, tx: nat, ty: nat, w: nat, h: nat)
    requires AllTiles(tiles, width, height) && Laid(tiles, width, height, tx, ty, 64) && AllPixels(tiles)
    requires 0 < w && tx + w <= width && ty + h <= height
    ensures TileClear(Render(width, height, tiles), width, tx, ty, w, h)
  {
    hide Render, Spot, Laid;
    forall k | 0 <= k < w * h && Spot(width, tx, ty, w, k) < width * height
      ensures Render(width, height, tiles)[Spot(width, tx, ty, w, k)] == CLEAR
    {
      SpotClear(width, height, tiles, tx, ty, w, h, k);
    }
  }

  lemma SpotClear(width: nat, height: nat, tiles: seq<Tile>, tx: nat, ty: nat, w: nat, h: nat, k: nat)
    requires Laid(tiles, width, height, tx, ty, 64) && AllPixels(tiles)
    requires 0 < w && tx + w <= width && ty + h <= height && k < w * h && Spot(width, tx, ty, w, k) < width * height
    ensures Render(width, height, tiles)[Spot(width, tx, ty, w, k)] == CLEAR
  {
    hide Render, RasterOrder, Covering;
    PixelPlace(w, h, k);
    var (px, py) := (tx + Column(w, k), ty + Row(w, k));
    forall i | 0 <= i < |tiles| ensures !Inside(tiles[i].x, tiles[i].y, tiles[i].w, tiles[i].h, px, py) {
      assert Before(tiles[i], tx, ty, 64);
    }
    RenderClear(width, height, tiles, px, py);
  }

  /** What the loops over the tiles keep. */
  ghost predicate Reading(tiles: seq<Tile>, width: nat, height: nat, tx: nat, ty: nat, s: Surface) {
    && Laid(tiles, width, height, tx, ty, 64) && AllPixels(tiles) && s == Render(width, height, tiles)
  }

  lemma ReadingStep(tiles: seq<Tile>, width: nat, height: nat, tx: nat, ty: nat, s: Surface, pixels: seq<Rgba>, now: Surface)
    requires Reading(tiles, width, height, tx, ty, s) && tx < width && ty < height
    requires var (w, h) := (Words.Min(64, width - tx), Words.Min(64, height - ty));
             |pixels| == w * h && now == PaintTile(s, width, PixelTile(tx, ty, w, h, pixels))
    ensures var (w, h) := (Words.Min(64, width - tx), Words.Min(64, height - ty));
            Reading(tiles + [PixelTile(tx, ty, w, h, pixels)], width, height, tx + 64, ty, now)
  {
    hide PaintTile, Render, Laid, RasterOrder, Covering;
    var (w, h) := (Words.Min(64, width - tx), Words.Min(64, height - ty));
    var t := PixelTile(tx, ty, w, h, pixels);
    LaidStep(tiles, width, height, tx, ty, t, 64);
    LaidTiles(tiles, width, height, tx, ty);
    TileFits(t, width, height, 64);
    RenderMore(width, height, tiles, t);
  }

  lemma LaidTiles(tiles: seq<Tile>, width: nat, height: nat, tx: nat, ty: nat)
    requires Laid(tiles, width, height, tx, ty, 64)
    ensures AllTiles(tiles, width, height)
  {
  }

  /** `parseZrleRect` */
  method ParseZrleRect(d: seq<byte>, offset: nat, width: nat, height: nat, f: Format, inflate: seq<byte> -> Option<seq<byte>>)
      returns (consumed: Option<nat>, skipped: bool, rgba: array<Rgba>)
    ensures fresh(rgba)
    ensures match Parse(d, offset, width, height, f, inflate)
            case Incomplete => consumed == None
            case Skipped(n) => consumed == Some(n) && skipped
            case Tiled(tiles, n) => consumed == Some(n) && !skipped && AllTiles(tiles, width, height)
                                    && rgba[..] == Render(width, height, tiles)
  {
    hide Num, ReadTile, PaintTile, Reading, TileClear, AllTiles, Laid;
    rgba, skipped := new Rgba[width * height](_ => CLEAR), false;
    if |d| < offset + 4 {
      return None, false, rgba;
    }
    var compressedLength := Num(d, offset, 4);
    if |d| < offset + 4 + compressedLength {
      return None, false, rgba;
    }
    var result := inflate(d[offset + 4..offset + 4 + compressedLength]);
    if result == None {
      return Some(4 + compressedLength), true, rgba;
    }
    var decoded, cursor: nat := result.value, 0;
    ghost var tiles: seq<Tile> := [];
    ghost var all := ReadTiles(decoded, 0, width, height, 0, 0, f, []);
    assert Reading(tiles, width, height, 0, 0, rgba[..]) by { NothingRead(width, height, rgba[..]); }
    var tileY := 0;
    while tileY < height
      invariant rgba.Length == width * height && Reading(tiles, width, height, 0, tileY, rgba[..])
      invariant all == ReadTiles(decoded, cursor, width, height, 0, tileY, f, tiles)
      decreases height - tileY
    {
      var tileHeight := Words.Min(64, height - tileY);
      var tileX := 0;
      while tileX < width
        invariant rgba.Length == width * height && Reading(tiles, width, height, tileX, tileY, rgba[..])
        invariant all == ReadTiles(decoded, cursor, width, height, tileX, tileY, f, tiles)
        decreases width - tileX
      {
        var tileWidth := Words.Min(64, width - tileX);
        var ok, skip;
        ghost var status, was := TileData.Missing, rgba[..];
        ReadingAhead(tiles, width, height, tileX, tileY, was);
        status, ok, skip, cursor := TileTurn(decoded, cursor, tileX, tileY, tileWidth, tileHeight, f, rgba, width, height);
        if skip {
          return Some(4 + compressedLength), true, rgba;
        }
        if !ok {
          return None, false, rgba;
        }
        ReadingStep(tiles, width, height, tileX, tileY, was, status.pixels, rgba[..]);
        tiles := tiles + [PixelTile(tileX, tileY, tileWidth, tileHeight, status.pixels)];
        tileX := tileX + 64;
      }
      ReadingRow(tiles, width, height, tileX, tileY, rgba[..]);
      tileY := tileY + 64;
    }
    ReadingDone(tiles, width, height, 0, tileY, rgba[..]);
    return Some(4 + compressedLength), false, rgba;
  }

  lemma NothingRead(width: nat, height: nat, s: Surface)
    requires |s| == width * height && forall i :: 0 <= i < |s| ==> s[i] == CLEAR
    ensures Reading([], width, height, 0, 0, s)
  {
    assert s == Blank(width * height);
  }

  lemma ReadingAhead(tiles: seq<Tile>, width: nat, height: nat, tx: nat, ty: nat, s: Surface)
    requires Reading(tiles, width, height, tx, ty, s) && tx < width && ty < height
    ensures TileClear(s, width, tx, ty, Words.Min(64, width - tx), Words.Min(64, height - ty))
  {
    hide Render, Laid, TileClear;
    LaidTiles(tiles, width, height, tx, ty);
    ClearAhead(width, height, tiles, tx, ty, Words.Min(64, width - tx), Words.Min(64, height - ty));
  }

  lemma ReadingRow(tiles: seq<Tile>, width: nat, height: nat, tx: nat, ty: nat, s: Surface)
    requires Reading(tiles, width, height, tx, ty, s) && tx >= width
    ensures Reading(tiles, width, height, 0, ty + 64, s)
  {
    hide Render, Laid;
    LaidTiles(tiles, width, height, tx, ty);
    LaidRow(tiles, width, height, tx, ty, 64);
    LaidTiles(tiles, width, height, 0, ty + 64);
  }

  lemma ReadingDone(tiles: seq<Tile>, width: nat, height: nat, tx: nat, ty: nat, s: Surface)
    requires Reading(tiles, width, height, tx, ty, s) && ty >= height
    ensures AllTiles(tiles, width, height) && AllLaid(tiles, width, height) && AllPixels(tiles) && s == Render(width, height, tiles)
  {
    hide Render, Laid;
    LaidTiles(tiles, width, height, tx, ty);
    LaidAll(tiles, width, height, tx, ty, 64);
  }

  // ---- meaning ---------------------------------------------------------------------------------

  lemma TileLaid(tiles: seq<Tile>, width: nat, height: nat, tx: nat, ty: nat, pixels: seq<Rgba>)
    requires Laid(tiles, width, height, tx, ty, 64) && AllPixels(tiles) && tx < width && ty < height
    requires |pixels| == Words.Min(64, width - tx) * Words.Min(64, height - ty)
    ensures var more := tiles + [PixelTile(tx, ty, Words.Min(64, width - tx), Words.Min(64, height - ty), pixels)];
            Laid(more, width, height, tx + 64, ty, 64) && AllPixels(more)
  {
    hide Laid;
    LaidStep(tiles, width, height, tx, ty, PixelTile(tx, ty, Words.Min(64, width - tx), Words.Min(64, height - ty), pixels), 64);
  }

  lemma {:induction false} TilesRead(d: seq<byte>, cursor: nat, width: nat, height: nat, tx: nat, ty: nat, f: Format, acc: seq<Tile>)
    requires Laid(acc, width, height, tx, ty, 64) && AllPixels(acc)
    requires ReadTiles(d, cursor, width, height, tx, ty, f, acc).Shown?
    ensures var tiles := ReadTiles(d, cursor, width, height, tx, ty, f, acc).tiles;
            AllLaid(tiles, width, height) && AllPixels(tiles)
    decreases height - ty, width - tx
  {
    hide Laid, AllLaid, ReadTile, AllPixels;
    if ty >= height {
      LaidAll(acc, width, height, tx, ty, 64);
    } else if tx >= width {
      LaidRow(acc, width, height, tx, ty, 64);
      TilesRead(d, cursor, width, height, 0, ty + 64, f, acc);
    } else {
      var (w, h) := (Words.Min(64, width - tx), Words.Min(64, height - ty));
      var t := ReadTile(d, cursor, w, h, f);
      TileLaid(acc, width, height, tx, ty, t.pixels);
      TilesRead(d, t.cursor, width, height, tx + 64, ty, f, acc + [PixelTile(tx, ty, w, h, t.pixels)]);
    }
  }

  /** What an accepted payload shows: its tiles cover the rectangle, every pixel is that of
      its own tile, and nothing is transparent if no tile has a transparent pixel. */
  lemma ParseMeaning(d: seq<byte>, o: nat, width: nat, height: nat, f: Format, inflate: seq<byte> -> Option<seq<byte>>)
    requires Parse(d, o, width, height, f, inflate).Tiled?
    ensures var tiles := Parse(d, o, width, height, f, inflate).tiles;
            && AllLaid(tiles, width, height) && AllPixels(tiles)
            && (forall px, py :: 0 <= px < width && 0 <= py < height ==>
                  PixelOf(Render(width, height, tiles), width, px, py) == TileColour(tiles, px, py))
            && (AllOpaque(tiles) ==> Opaque(Render(width, height, tiles)))
  {
    hide ReadTiles, TileColour, Render, AllTiles, RasterOrder, Laid, AllOpaque, TileOk, Opaque, Num;
    var n := Num(d, o, 4);
    var decoded := inflate(d[o + 4..o + 4 + n]).value;
    LaidFirst(width, height, 64);
    TilesRead(decoded, 0, width, height, 0, 0, f, []);
    LaidMeaning(Parse(d, o, width, height, f, inflate).tiles, width, height);
  }

  // ---- where a tile stays transparent ------------------------------------------------------------

  lemma PackedSnoc(d: seq<byte>, o: nat, w: nat, h: nat, palette: seq<Rgba>, n: nat)
    requires w > 0 && 0 < n <= w * h && o + RowBytes(w, IndexBits(|palette|)) * h <= |d|
    requires Row(w, n - 1) < h && Column(w, n - 1) < w
    ensures PackedPixels(d, o, w, h, palette, n)
         == PackedPixels(d, o, w, h, palette, n - 1)
            + [Lookup(palette, PackedIndex(d, o, w, h, IndexBits(|palette|), Row(w, n - 1), Column(w, n - 1)))]
  {
    hide PackedIndex, RowBytes, IndexBits, Row, Column;
  }

  lemma {:induction false} PackedAt(d: seq<byte>, o: nat, w: nat, h: nat, palette: seq<Rgba>, n: nat, k: nat)
    requires w > 0 && k < n <= w * h && o + RowBytes(w, IndexBits(|palette|)) * h <= |d|
    ensures Row(w, k) < h && Column(w, k) < w
    ensures PackedPixels(d, o, w, h, palette, n)[k] == Lookup(palette, PackedIndex(d, o, w, h, IndexBits(|palette|), Row(w, k), Column(w, k)))
    decreases n
  {
    hide PackedIndex, RowBytes, IndexBits, PackedPixels, Lookup, Row, Column;
    PixelPlace(w, h, k);
    PixelPlace(w, h, n - 1);
    PackedSnoc(d, o, w, h, palette, n);
    if k < n - 1 {
      PackedAt(d, o, w, h, palette, n - 1, k);
    }
  }

  /** Every index of a packed tile is inside its palette. */
  ghost predicate IndicesFit(d: seq<byte>, o: nat, w: nat, h: nat, size: nat)
    requires w > 0 && o + RowBytes(w, IndexBits(size)) * h <= |d|
  {
    forall row, col :: 0 <= row < h && 0 <= col < w ==> PackedIndex(d, o, w, h, IndexBits(size), row, col) < size
  }

  /** A packed tile is opaque exactly when all its indices are inside the palette. */
  lemma PackedOpaque(d: seq<byte>, o: nat, w: nat, h: nat, palette: seq<Rgba>)
    requires w > 0 && o + RowBytes(w, IndexBits(|palette|)) * h <= |d| && Opaque(palette)
    ensures Opaque(PackedPixels(d, o, w, h, palette, w * h)) <==> IndicesFit(d, o, w, h, |palette|)
  {
    hide PackedIndex, RowBytes, IndexBits, PackedPixels;
    var p, bits := PackedPixels(d, o, w, h, palette, w * h), IndexBits(|palette|);
    if IndicesFit(d, o, w, h, |palette|) {
      forall k | 0 <= k < |p| ensures p[k].a == 255 {
        PackedAt(d, o, w, h, palette, w * h, k);
      }
    } else {
      var row, col :| 0 <= row < h && 0 <= col < w && PackedIndex(d, o, w, h, bits, row, col) >= |palette|;
      PlaceOf(w, row, col);
      PlaceInTile(w, h, row, col + 1);
      PackedAt(d, o, w, h, palette, w * h, row * w + col);
    }
  }

  lemma {:induction false} ExpandOpaque(runs: seq<Run>)
    requires forall i :: 0 <= i < |runs| ==> runs[i].c.a == 255
    ensures Opaque(Expand(runs))
  {
    if runs == [] {
    } else {
      ExpandOpaque(runs[..|runs| - 1]);
    }
  }

  lemma {:induction false} PlainOpaque(d: seq<byte>, cursor: nat, n: nat, f: Format, acc: seq<Run>)
    requires (forall i :: 0 <= i < |acc| ==> acc[i].c.a == 255) && PlainRuns(d, cursor, n, f, acc).Some?
    ensures Opaque(Expand(PlainRuns(d, cursor, n, f, acc).value.0))
    decreases n - |Expand(acc)|
  {
    hide Expand, PixelAt, RunFrom;
    if |Expand(acc)| >= n {
      ExpandOpaque(acc);
    } else {
      var c, p := PixelAt(d, cursor, f).value, cursor + BytesPerPixel(f);
      var (run, q) := RunFrom(d, p, 1).value;
      ExpandMore(acc, c, run);
      PlainOpaque(d, q, n, f, acc + [Run(c, run)]);
    }
  }

  lemma {:induction false} PaletteOpaque(d: seq<byte>, cursor: nat, n: nat, palette: seq<Rgba>, acc: seq<Run>)
    requires (forall i :: 0 <= i < |acc| ==> acc[i].c.a == 255) && Opaque(palette) && PaletteRuns(d, cursor, n, palette, acc).Some?
    ensures Opaque(Expand(PaletteRuns(d, cursor, n, palette, acc).value.0))
    decreases n - |Expand(acc)|
  {
    hide Expand, RunFrom;
    if |Expand(acc)| >= n {
      ExpandOpaque(acc);
    } else {
      var b := d[cursor];
      var (run, q) := (if b >= 128 then RunFrom(d, cursor + 1, 1) else Some((1, cursor + 1))).value;
      ExpandMore(acc, palette[b % 128], run);
      PaletteOpaque(d, q, n, palette, acc + [Run(palette[b % 128], run)]);
    }
  }

  /** The subencodings of packed tiles. */
  predicate IsPacked(sub: byte) {
    2 <= sub <= 16
  }

  /** A tile that is read is opaque, except that a packed one is exactly when its indices
      stay inside its palette. */
  lemma TileOpaque(d: seq<byte>, cursor: nat, w: nat, h: nat, f: Format)
    requires w > 0 && h > 0 && ReadTile(d, cursor, w, h, f).Data?
    ensures var q := PaletteEnd(cursor + 1, d[cursor] % 128, f);
            && (IsPacked(d[cursor]) ==> q + RowBytes(w, IndexBits(d[cursor])) * h <= |d|)
            && (Opaque(ReadTile(d, cursor, w, h, f).pixels)
                <==> (IsPacked(d[cursor]) ==> IndicesFit(d, q, w, h, d[cursor])))
  {
    hide PackedPixels, PlainRuns, PaletteRuns, PixelAt, RawPixels, RowBytes, IndexBits, PaletteEnd, IndicesFit, Expand;
    var p, rle, size := cursor + 1, d[cursor] >= 128, d[cursor] % 128;
    if rle && size == 0 {
      PlainOpaque(d, p, w * h, f, []);
    } else if size > 1 || rle {
      var palette, q := ReadPalette(d, p, size, f).value, PaletteEnd(p, size, f);
      assert Opaque(palette) by { PaletteIsOpaque(d, p, size, f); }
      if rle {
        PaletteOpaque(d, q, w * h, palette, []);
      } else {
        PackedOpaque(d, q, w, h, palette);
      }
    }
  }

  /** One pixel whose index is the fourth of a palette of three. */
  lemma TransparentExample()
    ensures ReadTile([3, 1, 1, 1, 0, 2, 2, 2, 0, 3, 3, 3, 0, 192], 0, 1, 1, CLIENT) == Data([CLEAR], 14)
  {
    hide RawPixels, Shr, Low, PixelAt;
    var d: seq<byte> := [3, 1, 1, 1, 0, 2, 2, 2, 0, 3, 3, 3, 0, 192];
    var palette := RawPixels(d, 1, 3, CLIENT);
    assert PaletteEnd(1, 3, CLIENT) == 13 && RowBytes(1, IndexBits(3)) == 1;
    assert d[13] == 192;
    TopBits();
    assert PackedIndex(d, 13, 1, 1, 2, 0, 0) == 3;
    assert Row(1, 0) == 0 && Column(1, 0) == 0;
    assert PackedPixels(d, 13, 1, 1, palette, 1) == [] + [CLEAR];
  }

  lemma TopBits()
    ensures Low(Shr(192, 6), 2) == 3
  {
    assert Shr(192, 6) == Shr(96, 5) == Shr(48, 4) == Shr(24, 3) == Shr(12, 2) == Shr(6, 1) == Shr(3, 0) == 3;
    assert Low(3, 2) == 1 + 2 * Low(1, 1) && Low(1, 1) == 1;
  }

  lemma PaletteIsOpaque(d: seq<byte>, p: nat, size: nat, f: Format)
    requires ReadPalette(d, p, size, f).Some?
    ensures Opaque(ReadPalette(d, p, size, f).value)
  {
  }

  // ---- more bytes behind the payload ------------------------------------------------------------------

  /** An accepted payload is the same whatever arrives behind it. */
  lemma ParseStable(d: seq<byte>, e: seq<byte>, o: nat, width: nat, height: nat, f: Format, inflate: seq<byte> -> Option<seq<byte>>)
    requires d <= e && !Parse(d, o, width, height, f, inflate).Incomplete?
    ensures Parse(e, o, width, height, f, inflate) == Parse(d, o, width, height, f, inflate)
  {
    hide ReadTiles, Num;
    NumStable(d, e, o, 4);
    SameSlice(d, e, o + 4, o + 4 + Num(d, o, 4));
  }

  lemma SameSlice(d: seq<byte>, e: seq<byte>, a: nat, b: nat)
    requires d <= e && a <= b <= |d|
    ensures d[a..b] == e[a..b]
  {
  }
}
