/** Pixels as the VNC client reads them, and the RGBA surface it paints on. */
module Pixels {
  import opened Options
  import opened Words

  datatype Rgba = Rgba(r: byte, g: byte, b: byte, a: byte)

  /** What a typed array holds before anything is painted. */
  const CLEAR := Rgba(0, 0, 0, 0)

  // ---- pixel values -----------------------------------------------------------------

  /** A true-colour pixel format. */
  datatype Format = Format(bitsPerPixel: nat, bigEndian: bool, redMax: nat, greenMax: nat, blueMax: nat,
                           redShift: nat, greenShift: nat, blueShift: nat)

  /** `DEFAULT_CLIENT_PIXEL_FORMAT`, which the client asks for and never changes. */
  const CLIENT := Format(32, false, 255, 255, 255, 16, 8, 0)

  function BytesPerPixel(f: Format): (n: nat)
    ensures n >= 1
  {
    if f.bitsPerPixel / 8 > 1 then f.bitsPerPixel / 8 else 1
  }

  function Append(hi: nat, lo: byte): nat { 256 * hi + lo }

  /** `readPixelValue`; pixels of more than four bytes read as 0. */
  function ReadPixel(d: seq<byte>, o: nat, n: nat, bigEndian: bool): nat
    requires n >= 1 && o + n <= |d|
  {
    if n == 1 then d[o]
    else if n == 2 then
      if bigEndian then Append(d[o], d[o + 1]) else Append(d[o + 1], d[o])
    else if n == 3 then
      if bigEndian then Append(Append(d[o], d[o + 1]), d[o + 2]) else Append(Append(d[o + 2], d[o + 1]), d[o])
    else if n == 4 then
      if bigEndian then Append(Append(Append(d[o], d[o + 1]), d[o + 2]), d[o + 3])
      else Append(Append(Append(d[o + 3], d[o + 2]), d[o + 1]), d[o])
    else 0
  }

  /** `scaleChannel`: `Math.round` of a quotient of small integers. */
  function Scale(v: nat, max: nat): (r: byte)
    requires v <= max
  {
    if max == 0 then 0 else if max == 255 then v else
      ScaleRange(v, max);
      (510 * v + max) / (2 * max)
  }

  lemma ScaleRange(v: nat, max: nat)
    requires v <= max && max > 0
    ensures 0 <= (510 * v + max) / (2 * max) <= 255
  {
    QuotientBound(510 * v + max, 2 * max, 256);
  }

  lemma QuotientBound(x: nat, n: nat, k: nat)
    requires n > 0 && x < k * n
    ensures 0 <= x / n < k
  {
    Multiples(k, x / n, n);
    assert x / n * n <= x;
  }

  lemma Multiples(a: int, b: int, n: nat)
    ensures a <= b ==> a * n <= b * n
  {
    if a <= b {
      assert (b - a) * n >= 0;
    }
  }

  function Channel(value: nat, shift: nat, max: nat): byte {
    Scale(BitAnd(Shr(value, shift % 32), max), max)
  }

  function Colour(value: nat, f: Format): Rgba {
    Rgba(Channel(value, f.redShift, f.redMax), Channel(value, f.greenShift, f.greenMax),
         Channel(value, f.blueShift, f.blueMax), 255)
  }

  /** `decodePixelToRgba` */
  function PixelAt(d: seq<byte>, o: nat, f: Format): (r: Option<Rgba>)
    ensures r.None? <==> |d| < o + BytesPerPixel(f)
    ensures r.Some? ==> r.value.a == 255
  {
    if |d| < o + BytesPerPixel(f) then None
    else Some(Colour(ReadPixel(d, o, BytesPerPixel(f), f.bigEndian), f))
  }

  /** In the client's own format a pixel is its four bytes in the opposite order, with
      the last replaced by full opacity. */
  lemma ClientPixel(d: seq<byte>, o: nat)
    requires o + 4 <= |d|
    ensures PixelAt(d, o, CLIENT) == Some(Rgba(d[o + 2], d[o + 1], d[o], 255))
  {
    hide Shr, Low, BitAnd, Shl;
    var c := Append(d[o + 3], d[o + 2]);
    var b := Append(c, d[o + 1]);
    var x := Append(b, d[o]);
    Pow2Values();
    ByteParts(b, d[o]);
    ByteParts(c, d[o + 1]);
    ByteParts(d[o + 3], d[o + 2]);
    ShrShr(x, 8, 8);
    BitAndOnes(Shr(x, 16), 8);
    BitAndOnes(Shr(x, 8), 8);
    BitAndOnes(Shr(x, 0), 8);
    assert Shr(x, 0) == x by { NoShift(x); }
  }

  lemma NoShift(x: nat)
    ensures Shr(x, 0) == x
  {
  }

  lemma ByteParts(hi: nat, lo: byte)
    ensures Shr(Append(hi, lo), 8) == hi && Low(Append(hi, lo), 8) == lo
  {
    hide Shl, Shr, Low;
    Pow2Values();
    Shl8(hi);
    Join(lo, hi, 8);
  }

  /** `decodeRawRectToRgba` on as many bytes as it needs. */
  function RawPixels(d: seq<byte>, o: nat, n: nat, f: Format): (r: seq<Rgba>)
    requires o + n * BytesPerPixel(f) <= |d|
    ensures |r| == n && forall i :: 0 <= i < n ==> r[i].a == 255
  {
    if n == 0 then [] else
      assert (n - 1) * BytesPerPixel(f) + BytesPerPixel(f) == n * BytesPerPixel(f);
      RawPixels(d, o, n - 1, f) + [PixelAt(d, o + (n - 1) * BytesPerPixel(f), f).value]
  }

  // ---- surfaces -----------------------------------------------------------------------

  type Surface = seq<Rgba>

  function Blank(n: nat): (s: Surface)
    ensures |s| == n
  {
    seq(n, _ => CLEAR)
  }

  /** n pixels of one colour from index a, as far as the surface reaches. */
  function FillRange(s: Surface, a: nat, n: nat, c: Rgba): (r: Surface)
    ensures |r| == |s|
    ensures forall i :: 0 <= i < |s| ==> r[i] == if a <= i < a + n then c else s[i]
  {
    seq(|s|, i requires 0 <= i < |s| => if a <= i < a + n then c else s[i])
  }

  /** `fillRgbaRect` on a surface of the given width: a write past the end is lost, and a
      row that runs over the right edge goes on at the left of the next one. */
  function Fill(s: Surface, width: nat, x: nat, y: nat, w: nat, h: nat, c: Rgba): (r: Surface)
    ensures |r| == |s|
  {
    if h == 0 then s else FillRange(Fill(s, width, x, y, w, h - 1, c), (y + h - 1) * width + x, w, c)
  }

  method FillRgbaRect(s: array<Rgba>, width: nat, x: nat, y: nat, w: nat, h: nat, c: Rgba)
    modifies s
    ensures s[..] == Fill(old(s[..]), width, x, y, w, h, c)
  {
    ghost var was := s[..];
    for row := 0 to h
      invariant s[..] == Fill(was, width, x, y, w, row, c)
    {
      ghost var before := s[..];
      for col := 0 to w
        invariant s[..] == FillRange(before, (y + row) * width + x, col, c)
      {
        var dst := (y + row) * width + (x + col);
        if dst < s.Length {
          s[dst] := c;
        }
      }
    }
  }

  lemma RowOf(width: nat, px: nat, py: nat, x: nat, q: nat, w: nat)
    requires px < width && x + w <= width
    ensures q * width + x <= py * width + px < q * width + x + w <==> py == q && x <= px < x + w
  {
    if py < q {
      Later(width, py, q);
    } else if py > q {
      Later(width, q, py);
    }
  }

  lemma Later(width: nat, p: nat, q: nat)
    requires p < q
    ensures p * width + width <= q * width
  {
    var k := q - p - 1;
    assert k * width >= 0;
    assert q * width == (p + 1 + k) * width == p * width + width + k * width;
  }

  predicate Inside(x: nat, y: nat, w: nat, h: nat, px: nat, py: nat) {
    x <= px < x + w && y <= py < y + h
  }

  lemma PixelIndex(width: nat, height: nat, px: nat, py: nat)
    requires px < width && py < height
    ensures py * width + px < width * height
  {
    Later(width, py, height);
  }

  /** A rectangle that ends inside the surface's columns paints exactly its pixels, also
      where it runs over the bottom. */
  lemma {:induction false} FillAt(s: Surface, width: nat, x: nat, y: nat, w: nat, h: nat, c: Rgba, px: nat, py: nat)
    requires px < width && x + w <= width && py * width + px < |s|
    ensures Fill(s, width, x, y, w, h, c)[py * width + px] == if Inside(x, y, w, h, px, py) then c else s[py * width + px]
  {
    if h == 0 {
    } else {
      FillAt(s, width, x, y, w, h - 1, c, px, py);
      RowOf(width, px, py, x, y + h - 1, w);
    }
  }

  /** One of the rows covers the place. */
  predicate Hits(width: nat, x: nat, y: nat, w: nat, h: nat, i: nat) {
    exists row :: 0 <= row < h && InRun(width, x, y, w, row, i)
  }

  predicate InRun(width: nat, x: nat, y: nat, w: nat, row: nat, i: nat) {
    (y + row) * width + x <= i < (y + row) * width + x + w
  }

  lemma {:induction false} FillHits(s: Surface, width: nat, x: nat, y: nat, w: nat, h: nat, c: Rgba, i: nat)
    requires i < |s|
    ensures Fill(s, width, x, y, w, h, c)[i] == if Hits(width, x, y, w, h, i) then c else s[i]
  {
    if h == 0 {
    } else {
      FillHits(s, width, x, y, w, h - 1, c, i);
      assert InRun(width, x, y, w, h - 1, i) <==> (y + h - 1) * width + x <= i < (y + h - 1) * width + x + w;
      assert Hits(width, x, y, w, h, i) <==> Hits(width, x, y, w, h - 1, i) || InRun(width, x, y, w, h - 1, i);
    }
  }

  /** Nothing that lies outside the rectangle is painted on a surface of that size. */
  ghost predicate OwnOnly(width: nat, height: nat, x: nat, y: nat, w: nat, h: nat) {
    forall s: Surface, c: Rgba, px: nat, py: nat ::
      |s| == width * height && px < width && py < height && !Inside(x, y, w, h, px, py) ==>
        Unpainted(s, width, x, y, w, h, c, px, py)
  }

  predicate Unpainted(s: Surface, width: nat, x: nat, y: nat, w: nat, h: nat, c: Rgba, px: nat, py: nat) {
    var i := py * width + px;
    i < |s| ==> Fill(s, width, x, y, w, h, c)[i] == s[i]
  }

  /** What a caller can check before: nothing to paint; inside the columns; over the right
      edge from the first column with no row below the rectangle, or from a later column on
      the last row or below it; or all of it behind the end of the surface. */
  predicate Clean(width: nat, height: nat, x: nat, y: nat, w: nat, h: nat) {
    || w == 0 || h == 0 || x + w <= width
    || (x == 0 && y + h >= height)
    || (0 < x < width && y + 1 >= height)
    || y * width + x >= width * height
  }

  /** A place in a row that is painted, on the surface: its row and column. */
  lemma PlaceHit(width: nat, height: nat, x: nat, y: nat, w: nat, h: nat, px: nat, py: nat)
    requires width > 0 && px < width && py < height && Clean(width, height, x, y, w, h)
    requires Hits(width, x, y, w, h, py * width + px)
    ensures Inside(x, y, w, h, px, py)
  {
    var row :| 0 <= row < h && InRun(width, x, y, w, row, py * width + px);
    var q := y + row;
    PixelIndex(width, height, px, py);
    if x + w <= width {
      RowOf(width, px, py, x, q, w);
    } else if y * width + x >= width * height {
      NoLess(width, y, q);
    } else if x == 0 {
      if py < y {
        Later(width, py, y);
        NoLess(width, y, q);
      }
    } else if 0 < x < width {
      LastRow(width, height, x, y, q, px, py);
    }
  }

  lemma NoLess(width: nat, p: nat, q: nat)
    requires p <= q
    ensures p * width <= q * width
  {
  }

  /** From the last row on, a place at or behind the start of a row is in that row. */
  lemma LastRow(width: nat, height: nat, x: nat, y: nat, q: nat, px: nat, py: nat)
    requires px < width && x < width && py < height <= y + 1 && y <= q && q * width + x <= py * width + px
    ensures py == q == y && x <= px
  {
    if py < q {
      Later(width, py, q);
    }
  }

  /** The first row that runs over the edge paints the place behind it. */
  lemma SpillOf(width: nat, height: nat, x: nat, y: nat, w: nat, h: nat) returns (px: nat, py: nat)
    requires width > 0 && !Clean(width, height, x, y, w, h)
    ensures px < width && py < height && !Inside(x, y, w, h, px, py) && Hits(width, x, y, w, h, py * width + px)
  {
    if x == 0 {
      px, py := 0, y + h;
      assert (y + h) * width == (y + (h - 1)) * width + width;
      assert InRun(width, x, y, w, h - 1, py * width + px);
    } else if x < width {
      px, py := 0, y + 1;
      assert (y + 1) * width == (y + 0) * width + width;
      assert InRun(width, x, y, w, 0, py * width + px);
    } else {
      px, py := x % width, y + x / width;
      Wrapped(width, height, x, y);
      assert InRun(width, x, y, w, 0, py * width + px);
    }
  }

  /** A column behind the right edge is one of a later row. */
  lemma Wrapped(width: nat, height: nat, x: nat, y: nat)
    requires width > 0 && y * width + x < width * height
    ensures (y + x / width) * width + x % width == y * width + x && y + x / width < height && x % width < width
  {
    var (q, m) := (x / width, x % width);
    assert x == q * width + m;
    assert (y + q) * width == y * width + q * width;
    if y + q >= height {
      NoLess(width, height, y + q);
    }
  }

  /** The missing clip, exactly: a fill keeps to its own pixels, on every surface and in
      every colour, if and only if it is clean. */
  lemma FillOwnIff(width: nat, height: nat, x: nat, y: nat, w: nat, h: nat)
    requires width > 0
    ensures OwnOnly(width, height, x, y, w, h) <==> Clean(width, height, x, y, w, h)
  {
    hide Fill, Hits, Clean, Inside;
    if Clean(width, height, x, y, w, h) {
      forall s: Surface, c: Rgba, px: nat, py: nat |
        |s| == width * height && px < width && py < height && !Inside(x, y, w, h, px, py)
        ensures Unpainted(s, width, x, y, w, h, c, px, py)
      {
        if py * width + px < |s| {
          FillHits(s, width, x, y, w, h, c, py * width + px);
          if Hits(width, x, y, w, h, py * width + px) {
            PlaceHit(width, height, x, y, w, h, px, py);
          }
        }
      }
    } else {
      var px, py := SpillOf(width, height, x, y, w, h);
      var s, c := Blank(width * height), Rgba(0, 0, 0, 255);
      PixelIndex(width, height, px, py);
      FillHits(s, width, x, y, w, h, c, py * width + px);
      assert c != s[py * width + px];
      assert !Unpainted(s, width, x, y, w, h, c, px, py);
    }
  }

  lemma {:induction false} FillAll(s: Surface, width: nat, h: nat, c: Rgba)
    ensures forall i :: 0 <= i < |s| ==> Fill(s, width, 0, 0, width, h, c)[i] == if i < width * h then c else s[i]
  {
    if h > 0 {
      FillAll(s, width, h - 1, c);
      assert width * h == width * (h - 1) + width && (h - 1) * width == width * (h - 1);
    } else {
      assert width * h == 0;
    }
  }

  ghost predicate Opaque(s: Surface) {
    forall i :: 0 <= i < |s| ==> s[i].a == 255
  }

  lemma {:induction false} FillOpaque(s: Surface, width: nat, x: nat, y: nat, w: nat, h: nat, c: Rgba)
    requires Opaque(s) && c.a == 255
    ensures Opaque(Fill(s, width, x, y, w, h, c))
  {
    if h == 0 {
    } else {
      FillOpaque(s, width, x, y, w, h - 1, c);
    }
  }

  // ---- copying a tile in -------------------------------------------------------------

  function CopyRange(s: Surface, a: nat, q: seq<Rgba>): (r: Surface)
    ensures |r| == |s|
    ensures forall i :: 0 <= i < |s| ==> r[i] == if a <= i < a + |q| then q[i - a] else s[i]
  {
    seq(|s|, i requires 0 <= i < |s| => if a <= i < a + |q| then q[i - a] else s[i])
  }

  lemma RowInTile(row: nat, w: nat, h: nat)
    requires row < h
    ensures row * w + w <= w * h
  {
    if row + 1 < h {
      Later(w, row, h);
    } else {
      assert row * w + w == w * h;
    }
  }

  function RowPart(tile: seq<Rgba>, row: nat, w: nat, h: nat): (r: seq<Rgba>)
    requires row < h && |tile| == w * h
    ensures |r| == w
  {
    RowInTile(row, w, h);
    tile[row * w..row * w + w]
  }

  /** The first rows of a tile of w by h pixels, copied in at (x, y). */
  function Blit(s: Surface, width: nat, x: nat, y: nat, w: nat, h: nat, tile: seq<Rgba>, rows: nat): (r: Surface)
    requires |tile| == w * h && rows <= h
    ensures |r| == |s|
  {
    if rows == 0 then s
    else CopyRange(Blit(s, width, x, y, w, h, tile, rows - 1), (y + rows - 1) * width + x, RowPart(tile, rows - 1, w, h))
  }

  /** A tile inside the surface never makes `set` reach past its end. */
  lemma RowFits(width: nat, height: nat, x: nat, y: nat, w: nat, h: nat, row: nat)
    requires x + w <= width && y + h <= height && row < h
    ensures (y + row) * width + x + w <= width * height
  {
    RowInTile(y + row, width, height);
  }

  /** `blitRgbaTile` */
  method BlitRgbaTile(s: array<Rgba>, width: nat, ghost height: nat, x: nat, y: nat, w: nat, h: nat, tile: seq<Rgba>)
    requires |tile| == w * h && s.Length == width * height && x + w <= width && y + h <= height
    modifies s
    ensures s[..] == Blit(old(s[..]), width, x, y, w, h, tile, h)
  {
    ghost var was := s[..];
    for row := 0 to h
      invariant s[..] == Blit(was, width, x, y, w, h, tile, row)
    {
      hide Blit, RowPart;
      RowFits(width, height, x, y, w, h, row);
      BlitStep(was, width, x, y, w, h, tile, row + 1);
      SetRow(s, (y + row) * width + x, RowPart(tile, row, w, h));
    }
  }

  /** `surface.set(part, a)` */
  method SetRow(s: array<Rgba>, a: nat, part: seq<Rgba>)
    requires a + |part| <= s.Length
    modifies s
    ensures s[..] == CopyRange(old(s[..]), a, part)
  {
    for col := 0 to |part|
      invariant forall i :: 0 <= i < s.Length ==> s[i] == if a <= i < a + col then part[i - a] else old(s[i])
    {
      s[a + col] := part[col];
    }
  }

  lemma RowPartAt(tile: seq<Rgba>, row: nat, w: nat, h: nat, k: nat)
    requires row < h && |tile| == w * h && k < w
    ensures row * w + k < |tile| && RowPart(tile, row, w, h)[k] == tile[row * w + k]
  {
    RowInTile(row, w, h);
  }

  lemma BlitStep(s: Surface, width: nat, x: nat, y: nat, w: nat, h: nat, tile: seq<Rgba>, rows: nat)
    requires |tile| == w * h && 0 < rows <= h
    ensures Blit(s, width, x, y, w, h, tile, rows)
         == CopyRange(Blit(s, width, x, y, w, h, tile, rows - 1), (y + rows - 1) * width + x, RowPart(tile, rows - 1, w, h))
  {
  }

  /** One row copied in touches just its own pixels. */
  lemma CopyRowAt(s: Surface, width: nat, x: nat, row: nat, part: seq<Rgba>, px: nat, py: nat)
    requires x + |part| <= width && px < width && py * width + px < |s|
    ensures CopyRange(s, row * width + x, part)[py * width + px]
         == if py == row && x <= px < x + |part| then part[px - x] else s[py * width + px]
  {
    RowOf(width, px, py, x, row, |part|);
  }

  /** The pixel of a tile of width w at column dx and row dy. */
  function TileAt(tile: seq<Rgba>, w: nat, dx: nat, dy: nat): Rgba {
    if dy * w + dx < |tile| then tile[dy * w + dx] else CLEAR
  }

  lemma RowIsTile(tile: seq<Rgba>, row: nat, w: nat, h: nat, k: nat)
    requires row < h && |tile| == w * h && k < w
    ensures RowPart(tile, row, w, h)[k] == TileAt(tile, w, k, row)
  {
    RowPartAt(tile, row, w, h, k);
  }

  /** The first rows of a tile show its pixels where they are copied to, and change nothing
      else. */
  lemma {:induction false} BlitAt(s: Surface, width: nat, x: nat, y: nat, w: nat, h: nat, tile: seq<Rgba>, rows: nat, px: nat, py: nat)
    requires |tile| == w * h && rows <= h && x + w <= width && px < width && py * width + px < |s|
    ensures Blit(s, width, x, y, w, h, tile, rows)[py * width + px]
         == if Inside(x, y, w, rows, px, py) then TileAt(tile, w, px - x, py - y) else s[py * width + px]
  {
    hide Blit, RowPart, CopyRange, TileAt;
    if rows > 0 {
      BlitAt(s, width, x, y, w, h, tile, rows - 1, px, py);
      BlitStep(s, width, x, y, w, h, tile, rows);
      CopyRowAt(Blit(s, width, x, y, w, h, tile, rows - 1), width, x, y + rows - 1, RowPart(tile, rows - 1, w, h), px, py);
      if py == y + rows - 1 && x <= px < x + w {
        RowIsTile(tile, rows - 1, w, h, px - x);
      }
    } else {
      NoBlit(s, width, x, y, w, h, tile);
    }
  }

  lemma NoBlit(s: Surface, width: nat, x: nat, y: nat, w: nat, h: nat, tile: seq<Rgba>)
    requires |tile| == w * h
    ensures Blit(s, width, x, y, w, h, tile, 0) == s
  {
  }

  lemma {:induction false} FillOpaqueAt(s: Surface, width: nat, x: nat, y: nat, w: nat, h: nat, c: Rgba, i: nat)
    requires i < |s| && s[i].a == 255 && c.a == 255
    ensures Fill(s, width, x, y, w, h, c)[i].a == 255
  {
    if h == 0 {
    } else {
      FillOpaqueAt(s, width, x, y, w, h - 1, c, i);
    }
  }
}
