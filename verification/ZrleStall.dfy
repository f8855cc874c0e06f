/** When an inflated ZRLE rectangle is reported as if bytes were missing, said of its bytes:
    where each tile ends, and what can stop it. */
module ZrleStall {
  import opened Options
  import opened Words
  import opened Pixels
  import opened Rre
  import opened Tiles
  import opened Zrle

  // ---- where things end -----------------------------------------------------------------

  /** Where whole runs for that many pixels end, each a pixel and a length; nothing when
      fewer bytes remain than they need. */
  function RunsEnd(d: seq<byte>, cursor: nat, left: int, f: Format): Option<nat>
    decreases left
  {
    if left <= 0 then Some(cursor)
    else if |d| < cursor + BytesPerPixel(f) then None
    else
      match RunFrom(d, cursor + BytesPerPixel(f), 1)
      case None => None
      case Some((n, q)) => RunsEnd(d, q, left - n, f)
  }

  /** The length of a palette run: 1 without the high bit. */
  function IndexRun(d: seq<byte>, cursor: nat): (r: Option<(nat, nat)>)
    requires cursor < |d|
    ensures r.Some? ==> r.value.0 >= 1 && cursor < r.value.1 <= |d|
  {
    if d[cursor] >= 128 then RunFrom(d, cursor + 1, 1) else Some((1, cursor + 1))
  }

  /** The same for runs of a palette, whatever they name. */
  function IndexEnd(d: seq<byte>, cursor: nat, left: int): Option<nat>
    decreases left
  {
    if left <= 0 then Some(cursor)
    else if |d| <= cursor then None
    else
      match IndexRun(d, cursor)
      case None => None
      case Some((n, q)) => IndexEnd(d, q, left - n)
  }

  /** One of these runs names an index that the palette does not have. */
  predicate BadRun(d: seq<byte>, cursor: nat, left: int, size: nat)
    decreases left
  {
    && left > 0 && cursor < |d|
    && (d[cursor] % 128 >= size
        || (IndexRun(d, cursor).Some? && BadRun(d, IndexRun(d, cursor).value.1, left - IndexRun(d, cursor).value.0, size)))
  }

  function Within(d: seq<byte>, end: nat): Option<nat> { if |d| < end then None else Some(end) }

  function RawEnd(p: nat, w: nat, h: nat, f: Format): nat { p + w * h * BytesPerPixel(f) }

  function RowsEnd(q: nat, w: nat, h: nat, size: nat): nat { q + RowBytes(w, IndexBits(size)) * h }

  /** Where a tile ends that begins at c; nothing when fewer bytes remain than its form
      needs. */
  function TileEnd(d: seq<byte>, c: nat, w: nat, h: nat, f: Format): Option<nat> {
    if |d| < c + 1 then None
    else
      var p, rle, size := c + 1, d[c] >= 128, d[c] % 128;
      if !rle && size == 0 then Within(d, RawEnd(p, w, h, f))
      else if !rle && size == 1 then Within(d, p + BytesPerPixel(f))
      else if !rle && size > 16 then Some(p)
      else if size == 0 then RunsEnd(d, p, w * h, f)
      else if |d| < PaletteEnd(p, size, f) then None
      else if rle then IndexEnd(d, PaletteEnd(p, size, f), w * h)
      else Within(d, RowsEnd(PaletteEnd(p, size, f), w, h, size))
  }

  /** The tile has a form that the client does not know. */
  predicate Strange(d: seq<byte>, c: nat) { c < |d| && 16 < d[c] < 128 }

  /** A run-length coded tile whose palette is there, and one of whose runs names an index
      that it does not have. */
  predicate BadTile(d: seq<byte>, c: nat, w: nat, h: nat, f: Format) {
    && c < |d| && d[c] > 128 && PaletteEnd(c + 1, d[c] % 128, f) <= |d|
    && BadRun(d, PaletteEnd(c + 1, d[c] % 128, f), w * h, d[c] % 128)
  }

  // ---- one tile ---------------------------------------------------------------------------

  lemma {:induction false} PlainEnds(d: seq<byte>, cursor: nat, n: nat, f: Format, acc: seq<Run>)
    ensures var r := PlainRuns(d, cursor, n, f, acc); var end := RunsEnd(d, cursor, n - |Expand(acc)|, f);
            (r.Some? <==> end.Some?) && (r.Some? ==> r.value.1 == end.value)
    decreases n - |Expand(acc)|
  {
    hide Expand, PixelAt, RunFrom;
    if |Expand(acc)| >= n {
    } else if PixelAt(d, cursor, f).Some? && RunFrom(d, cursor + BytesPerPixel(f), 1).Some? {
      var (run, q) := RunFrom(d, cursor + BytesPerPixel(f), 1).value;
      ExpandMore(acc, PixelAt(d, cursor, f).value, run);
      PlainEnds(d, q, n, f, acc + [Run(PixelAt(d, cursor, f).value, run)]);
    }
  }

  lemma {:induction false} PaletteEnds(d: seq<byte>, cursor: nat, n: nat, palette: seq<Rgba>, acc: seq<Run>)
    ensures var r := PaletteRuns(d, cursor, n, palette, acc); var left := n - |Expand(acc)|;
            (r.Some? <==> IndexEnd(d, cursor, left).Some? && !BadRun(d, cursor, left, |palette|))
            && (r.Some? ==> r.value.1 == IndexEnd(d, cursor, left).value)
    decreases n - |Expand(acc)|
  {
    hide Expand, RunFrom;
    if |Expand(acc)| >= n || cursor >= |d| {
    } else if IndexRun(d, cursor).Some? && d[cursor] % 128 < |palette| {
      var (run, q) := IndexRun(d, cursor).value;
      var c := palette[d[cursor] % 128];
      ExpandMore(acc, c, run);
      PaletteEnds(d, q, n, palette, acc + [Run(c, run)]);
    }
  }

  /** A tile is read if and only if its form is known, none of its runs names an index that
      its palette does not have, and no fewer bytes remain than it needs. */
  lemma TileIff(d: seq<byte>, c: nat, w: nat, h: nat, f: Format)
    requires w > 0 && h > 0
    ensures var r := ReadTile(d, c, w, h, f);
            && (r.Unknown? <==> Strange(d, c))
            && (r.Data? <==> !Strange(d, c) && !BadTile(d, c, w, h, f) && TileEnd(d, c, w, h, f).Some?)
            && (r.Data? ==> r.cursor == TileEnd(d, c, w, h, f).value)
  {
    hide PlainRuns, PaletteRuns, PixelAt, RawPixels, PackedPixels, RowBytes, IndexBits, PaletteEnd, Expand, RunsEnd, IndexEnd, BadRun;
    if c < |d| {
      var p, size := c + 1, d[c] % 128;
      NoneYet();
      PlainEnds(d, p, w * h, f, []);
      if PaletteEnd(p, size, f) <= |d| {
        PaletteEnds(d, PaletteEnd(p, size, f), w * h, ReadPalette(d, p, size, f).value, []);
      }
    }
  }

  lemma NoneYet()
    ensures |Expand([])| == 0
  {
  }

  // ---- a whole rectangle -------------------------------------------------------------------

  datatype Why = TooLittle | BadIndex

  /** What stops the first tile that cannot be read, from the one at (tx, ty) on. */
  predicate Stops(d: seq<byte>, cursor: nat, width: nat, height: nat, tx: nat, ty: nat, f: Format, why: Why)
    decreases height - ty, width - tx
  {
    if ty >= height then false
    else if tx >= width then Stops(d, cursor, width, height, 0, ty + 64, f, why)
    else
      var (w, h) := (Words.Min(64, width - tx), Words.Min(64, height - ty));
      if Strange(d, cursor) then false
      else if BadTile(d, cursor, w, h, f) then why == BadIndex
      else
        match TileEnd(d, cursor, w, h, f)
        case None => why == TooLittle
        case Some(q) => Stops(d, q, width, height, tx + 64, ty, f, why)
  }

  /** A rectangle is reported short if and only if its first tile that cannot be read has
      fewer bytes left than its form needs, or a run that names an index which its palette
      does not have; and it is never both. */
  lemma {:induction false} ShortIff(d: seq<byte>, cursor: nat, width: nat, height: nat, tx: nat, ty: nat, f: Format, acc: seq<Tile>)
    ensures ReadTiles(d, cursor, width, height, tx, ty, f, acc).Short?
       <==> Stops(d, cursor, width, height, tx, ty, f, TooLittle) || Stops(d, cursor, width, height, tx, ty, f, BadIndex)
    ensures !(Stops(d, cursor, width, height, tx, ty, f, TooLittle) && Stops(d, cursor, width, height, tx, ty, f, BadIndex))
    decreases height - ty, width - tx
  {
    hide ReadTile, TileEnd, BadTile, Strange;
    if ty >= height {
    } else if tx >= width {
      ShortIff(d, cursor, width, height, 0, ty + 64, f, acc);
    } else {
      var (w, h) := (Words.Min(64, width - tx), Words.Min(64, height - ty));
      TileIff(d, cursor, w, h, f);
      var t := ReadTile(d, cursor, w, h, f);
      if t.Data? {
        ShortIff(d, t.cursor, width, height, tx + 64, ty, f, acc + [PixelTile(tx, ty, w, h, t.pixels)]);
      }
    }
  }

  // ---- more bytes behind ----------------------------------------------------------------------

  /** What ends inside the bytes ends there whatever follows, and the other way round. */
  lemma {:induction false} RunLocal(d: seq<byte>, e: seq<byte>, cursor: nat, run: nat)
    requires d <= e
    ensures var (a, b) := (RunFrom(d, cursor, run), RunFrom(e, cursor, run));
            (a.Some? <==> b.Some? && b.value.1 <= |d|) && (a.Some? ==> a == b)
    decreases |e| - cursor
  {
    if cursor >= |d| {
    } else if d[cursor] == 255 {
      RunLocal(d, e, cursor + 1, run + 255);
    }
  }

  lemma {:induction false} RunsLocal(d: seq<byte>, e: seq<byte>, cursor: nat, left: int, f: Format)
    requires d <= e && cursor <= |d|
    ensures var (a, b) := (RunsEnd(d, cursor, left, f), RunsEnd(e, cursor, left, f));
            (a.Some? <==> b.Some? && b.value <= |d|) && (a.Some? ==> a == b) && (b.Some? ==> b.value >= cursor)
    decreases left
  {
    hide RunFrom;
    RunsGrow(e, cursor, left, f);
    if left > 0 && cursor + BytesPerPixel(f) <= |d| {
      var p := cursor + BytesPerPixel(f);
      RunLocal(d, e, p, 1);
      if RunFrom(d, p, 1).Some? {
        var (n, q) := RunFrom(d, p, 1).value;
        RunsLocal(d, e, q, left - n, f);
      } else if RunFrom(e, p, 1).Some? {
        var (n, q) := RunFrom(e, p, 1).value;
        RunsGrow(e, q, left - n, f);
      }
    } else if left > 0 && cursor + BytesPerPixel(f) <= |e| && RunFrom(e, cursor + BytesPerPixel(f), 1).Some? {
      var (n, q) := RunFrom(e, cursor + BytesPerPixel(f), 1).value;
      RunsGrow(e, q, left - n, f);
    }
  }

  lemma {:induction false} RunsGrow(e: seq<byte>, cursor: nat, left: int, f: Format)
    ensures RunsEnd(e, cursor, left, f).Some? ==> RunsEnd(e, cursor, left, f).value >= cursor
    decreases left
  {
    hide RunFrom;
    if left > 0 && cursor + BytesPerPixel(f) <= |e| && RunFrom(e, cursor + BytesPerPixel(f), 1).Some? {
      var (n, q) := RunFrom(e, cursor + BytesPerPixel(f), 1).value;
      RunsGrow(e, q, left - n, f);
    }
  }

  lemma {:induction false} IndexGrows(e: seq<byte>, cursor: nat, left: int)
    ensures IndexEnd(e, cursor, left).Some? ==> IndexEnd(e, cursor, left).value >= cursor
    decreases left
  {
    hide RunFrom;
    if left > 0 && cursor < |e| && IndexRun(e, cursor).Some? {
      var (n, q) := IndexRun(e, cursor).value;
      IndexGrows(e, q, left - n);
    }
  }

  lemma IndexRunLocal(d: seq<byte>, e: seq<byte>, cursor: nat)
    requires d <= e && cursor < |d|
    ensures var (a, b) := (IndexRun(d, cursor), IndexRun(e, cursor));
            (a.Some? <==> b.Some? && b.value.1 <= |d|) && (a.Some? ==> a == b)
  {
    hide RunFrom;
    RunLocal(d, e, cursor + 1, 1);
  }

  lemma {:induction false} IndexLocal(d: seq<byte>, e: seq<byte>, cursor: nat, left: int)
    requires d <= e && cursor <= |d|
    ensures var (a, b) := (IndexEnd(d, cursor, left), IndexEnd(e, cursor, left));
            (a.Some? <==> b.Some? && b.value <= |d|) && (a.Some? ==> a == b)
    decreases left
  {
    hide IndexRun;
    if left > 0 && cursor < |e| && IndexRun(e, cursor).Some? {
      var (n, q) := IndexRun(e, cursor).value;
      IndexGrows(e, q, left - n);
      if cursor < |d| {
        IndexRunLocal(d, e, cursor);
        if q <= |d| {
          IndexLocal(d, e, q, left - n);
        }
      }
    } else if left > 0 && cursor < |d| {
      IndexRunLocal(d, e, cursor);
    }
  }

  /** A bad index stays one; and runs that are all there are bad only if they were. */
  lemma {:induction false} BadLocal(d: seq<byte>, e: seq<byte>, cursor: nat, left: int, size: nat)
    requires d <= e
    ensures BadRun(d, cursor, left, size) ==> BadRun(e, cursor, left, size)
    ensures IndexEnd(d, cursor, left).Some? && BadRun(e, cursor, left, size) ==> BadRun(d, cursor, left, size)
    decreases left
  {
    hide IndexRun;
    if left > 0 && cursor < |d| {
      IndexRunLocal(d, e, cursor);
      if IndexRun(d, cursor).Some? {
        var (n, q) := IndexRun(d, cursor).value;
        BadLocal(d, e, q, left - n, size);
      }
    }
  }

  lemma TileLocal(d: seq<byte>, e: seq<byte>, c: nat, w: nat, h: nat, f: Format)
    requires d <= e && c < |d|
    ensures var (a, b) := (TileEnd(d, c, w, h, f), TileEnd(e, c, w, h, f));
            (a.Some? <==> b.Some? && b.value <= |d|) && (a.Some? ==> a == b)
    ensures Strange(e, c) <==> Strange(d, c)
    ensures BadTile(d, c, w, h, f) ==> BadTile(e, c, w, h, f)
    ensures TileEnd(d, c, w, h, f).Some? && BadTile(e, c, w, h, f) ==> BadTile(d, c, w, h, f)
  {
    hide RunsEnd, IndexEnd, BadRun, PaletteEnd, RawEnd, RowsEnd;
    var p, size := c + 1, d[c] % 128;
    RunsLocal(d, e, p, w * h, f);
    var q := PaletteEnd(p, size, f);
    IndexGrows(e, q, w * h);
    if q <= |d| {
      IndexLocal(d, e, q, w * h);
      BadLocal(d, e, q, w * h, size);
    }
    RowsBehind(q, w, h, size);
  }

  lemma RowsBehind(q: nat, w: nat, h: nat, size: nat)
    ensures RowsEnd(q, w, h, size) >= q
  {
    hide RowBytes, IndexBits;
  }

  /** No bytes that the payload might still inflate to make up for a bad index. */
  lemma {:induction false} BadStays(d: seq<byte>, e: seq<byte>, cursor: nat, width: nat, height: nat, tx: nat, ty: nat, f: Format)
    requires d <= e && Stops(d, cursor, width, height, tx, ty, f, BadIndex)
    ensures Stops(e, cursor, width, height, tx, ty, f, BadIndex)
    decreases height - ty, width - tx
  {
    hide TileEnd, BadTile, Strange;
    if ty >= height {
    } else if tx >= width {
      BadStays(d, e, cursor, width, height, 0, ty + 64, f);
    } else {
      var (w, h) := (Words.Min(64, width - tx), Words.Min(64, height - ty));
      BadOrRead(d, cursor, w, h, f);
      TileLocal(d, e, cursor, w, h, f);
      if !BadTile(d, cursor, w, h, f) {
        BadStays(d, e, TileEnd(d, cursor, w, h, f).value, width, height, tx + 64, ty, f);
      }
    }
  }

  lemma BadOrRead(d: seq<byte>, c: nat, w: nat, h: nat, f: Format)
    ensures BadTile(d, c, w, h, f) || TileEnd(d, c, w, h, f).Some? ==> c < |d|
  {
    hide BadRun;
  }

  // ---- zeros make up for what is missing ---------------------------------------------------------

  predicate ZeroFrom(e: seq<byte>, m: nat) { forall i :: m <= i < |e| ==> e[i] == 0 }

  function Max(a: nat, b: nat): nat { if a < b then b else a }

  /** Room for that many runs of k bytes. */
  function Room(k: nat, left: int): nat
    decreases left
  {
    if left <= 0 then 0 else k + Room(k, left - 1)
  }

  lemma {:induction false} RoomMono(k: nat, a: int, b: int)
    requires a <= b
    ensures Room(k, a) <= Room(k, b)
    decreases b
  {
    if a == b || b <= 0 {
    } else {
      RoomMono(k, a, b - 1);
    }
  }

  lemma {:induction false} RunZeros(e: seq<byte>, m: nat, cursor: nat, run: nat)
    requires ZeroFrom(e, m) && Max(m, cursor) < |e|
    ensures RunFrom(e, cursor, run).Some? && RunFrom(e, cursor, run).value.1 <= Max(m, cursor) + 1
    decreases |e| - cursor
  {
    if e[cursor] != 255 {
    } else {
      RunZeros(e, m, cursor + 1, run + 255);
    }
  }

  lemma {:induction false} RunsZeros(e: seq<byte>, m: nat, cursor: nat, left: int, f: Format)
    requires ZeroFrom(e, m) && |e| >= Max(m, cursor) + Room(BytesPerPixel(f) + 1, left)
    ensures RunsEnd(e, cursor, left, f).Some? && RunsEnd(e, cursor, left, f).value <= Max(m, cursor) + Room(BytesPerPixel(f) + 1, left)
    decreases left
  {
    hide RunFrom, BytesPerPixel, ZeroFrom;
    if left <= 0 {
    } else {
      var p := cursor + BytesPerPixel(f);
      RunZeros(e, m, p, 1);
      var (n, q) := RunFrom(e, p, 1).value;
      RoomMono(BytesPerPixel(f) + 1, left - n, left - 1);
      RunsZeros(e, m, q, left - n, f);
    }
  }

  lemma {:induction false} IndexZeros(e: seq<byte>, m: nat, cursor: nat, left: int)
    requires ZeroFrom(e, m) && |e| >= Max(m, cursor) + Room(2, left)
    ensures IndexEnd(e, cursor, left).Some? && IndexEnd(e, cursor, left).value <= Max(m, cursor) + Room(2, left)
    decreases left
  {
    hide RunFrom, ZeroFrom;
    if left <= 0 {
    } else {
      RunZeros(e, m, cursor + 1, 1);
      var (n, q) := IndexRun(e, cursor).value;
      RoomMono(2, left - n, left - 1);
      IndexZeros(e, m, q, left - n);
    }
  }

  /** Zeros name the first colour of a palette. */
  lemma {:induction false} ZerosNotBad(d: seq<byte>, e: seq<byte>, cursor: nat, left: int, size: nat)
    requires d <= e && ZeroFrom(e, |d|) && size > 0 && BadRun(e, cursor, left, size)
    ensures BadRun(d, cursor, left, size)
    decreases left
  {
    hide IndexRun;
    if e[cursor] % 128 >= size {
    } else {
      var (n, q) := IndexRun(e, cursor).value;
      ZerosNotBad(d, e, q, left - n, size);
      if cursor < |d| {
        IndexRunLocal(d, e, cursor);
      }
      BadInside(d, q, left - n, size);
    }
  }

  lemma BadInside(d: seq<byte>, cursor: nat, left: int, size: nat)
    ensures BadRun(d, cursor, left, size) ==> cursor < |d|
  {
  }

  /** Enough zeros for a tile of any form. */
  function TileRoom(w: nat, h: nat, f: Format): nat {
    1 + PaletteEnd(0, 128, f) + RawEnd(0, w, h, f) + Room(BytesPerPixel(f) + 1, w * h) + Room(2, w * h)
    + RowsEnd(0, w, h, 2) + RowsEnd(0, w, h, 4) + RowsEnd(0, w, h, 16)
  }

  lemma EndsMove(p: nat, w: nat, h: nat, size: nat, f: Format)
    requires size < 128
    ensures RawEnd(p, w, h, f) == p + RawEnd(0, w, h, f) && RowsEnd(p, w, h, size) == p + RowsEnd(0, w, h, size)
    ensures p <= PaletteEnd(p, size, f) <= p + PaletteEnd(0, 128, f) && BytesPerPixel(f) <= PaletteEnd(0, 128, f)
    ensures RowsEnd(0, w, h, size) in {RowsEnd(0, w, h, 2), RowsEnd(0, w, h, 4), RowsEnd(0, w, h, 16)}
  {
    hide RowBytes, BytesPerPixel;
    var b := BytesPerPixel(f);
    assert size * b <= 128 * b;
  }

  lemma TileZeros(e: seq<byte>, m: nat, c: nat, w: nat, h: nat, f: Format)
    requires ZeroFrom(e, m) && |e| >= Max(m, c) + TileRoom(w, h, f)
    ensures TileEnd(e, c, w, h, f).Some? && TileEnd(e, c, w, h, f).value <= Max(m, c) + TileRoom(w, h, f)
  {
    hide RunsEnd, IndexEnd, PaletteEnd, RawEnd, RowsEnd, Room, ZeroFrom, BytesPerPixel;
    var p, size := c + 1, e[c] % 128;
    EndsMove(p, w, h, size, f);
    var q := PaletteEnd(p, size, f);
    EndsMove(q, w, h, size, f);
    RunsZeros(e, m, p, w * h, f);
    IndexZeros(e, m, q, w * h);
  }

  function RectRoom(width: nat, height: nat, tx: nat, ty: nat, f: Format): nat
    decreases height - ty, width - tx
  {
    if ty >= height then 0
    else if tx >= width then RectRoom(width, height, 0, ty + 64, f)
    else TileRoom(Words.Min(64, width - tx), Words.Min(64, height - ty), f) + RectRoom(width, height, tx + 64, ty, f)
  }

  /** Tiles of zeros are raw and black. */
  lemma {:induction false} ZerosShown(e: seq<byte>, m: nat, cursor: nat, width: nat, height: nat, tx: nat, ty: nat, f: Format, acc: seq<Tile>)
    requires ZeroFrom(e, m) && m <= cursor && |e| >= cursor + RectRoom(width, height, tx, ty, f)
    ensures ReadTiles(e, cursor, width, height, tx, ty, f, acc).Shown?
    decreases height - ty, width - tx
  {
    hide ReadTile, TileEnd, TileRoom;
    if ty >= height {
    } else if tx >= width {
      ZerosShown(e, m, cursor, width, height, 0, ty + 64, f, acc);
    } else {
      var (w, h) := (Words.Min(64, width - tx), Words.Min(64, height - ty));
      SomeRoom(w, h, f);
      TileZeros(e, m, cursor, w, h, f);
      TileIff(e, cursor, w, h, f);
      assert e[cursor] == 0;
      var t := ReadTile(e, cursor, w, h, f);
      ZerosShown(e, m, t.cursor, width, height, tx + 64, ty, f, acc + [PixelTile(tx, ty, w, h, t.pixels)]);
    }
  }

  lemma SomeRoom(w: nat, h: nat, f: Format)
    ensures TileRoom(w, h, f) > 0
  {
    hide RawEnd, RowsEnd, PaletteEnd, Room;
  }

  /** Where the first tile that cannot be read lacks bytes, zeros complete it and all behind
      it. */
  lemma {:induction false} LittleCompleted(d: seq<byte>, e: seq<byte>, cursor: nat, width: nat, height: nat, tx: nat, ty: nat, f: Format,
                                           acc: seq<Tile>)
    requires d <= e && ZeroFrom(e, |d|) && cursor <= |d| && |e| >= |d| + RectRoom(width, height, tx, ty, f)
    requires Stops(d, cursor, width, height, tx, ty, f, TooLittle)
    ensures ReadTiles(e, cursor, width, height, tx, ty, f, acc).Shown?
    decreases height - ty, width - tx
  {
    hide ReadTile, TileEnd, TileRoom, BadTile, Strange, ZeroFrom;
    if ty >= height {
    } else if tx >= width {
      LittleCompleted(d, e, cursor, width, height, 0, ty + 64, f, acc);
    } else {
      var (w, h) := (Words.Min(64, width - tx), Words.Min(64, height - ty));
      SomeRoom(w, h, f);
      TileZeros(e, |d|, cursor, w, h, f);
      TileGoesOn(d, e, cursor, w, h, f);
      TileIff(e, cursor, w, h, f);
      var t := ReadTile(e, cursor, w, h, f);
      var acc' := acc + [PixelTile(tx, ty, w, h, t.pixels)];
      if TileEnd(d, cursor, w, h, f).Some? {
        LittleCompleted(d, e, t.cursor, width, height, tx + 64, ty, f, acc');
      } else {
        ZerosShown(e, |d|, t.cursor, width, height, tx + 64, ty, f, acc');
      }
    }
  }

  /** The same tile with zeros behind: no form that is not known, no bad index. */
  lemma TileGoesOn(d: seq<byte>, e: seq<byte>, c: nat, w: nat, h: nat, f: Format)
    requires d <= e && ZeroFrom(e, |d|) && c <= |d| && c < |e| && !Strange(d, c) && !BadTile(d, c, w, h, f) && TileEnd(e, c, w, h, f).Some?
    ensures !Strange(e, c) && !BadTile(e, c, w, h, f)
    ensures if TileEnd(d, c, w, h, f).Some? then TileEnd(e, c, w, h, f) == TileEnd(d, c, w, h, f) && TileEnd(e, c, w, h, f).value <= |d|
            else TileEnd(e, c, w, h, f).value > |d|
  {
    hide TileEnd, BadTile;
    if c < |d| {
      TileLocal(d, e, c, w, h, f);
      if BadTile(e, c, w, h, f) {
        BadComesFrom(d, e, c, w, h, f);
      }
    } else {
      EmptyTile(d, e, c, w, h, f);
    }
  }

  lemma EmptyTile(d: seq<byte>, e: seq<byte>, c: nat, w: nat, h: nat, f: Format)
    requires c == |d| && c < |e| && e[c] == 0
    ensures TileEnd(d, c, w, h, f) == None && !Strange(e, c) && !BadTile(e, c, w, h, f)
    ensures TileEnd(e, c, w, h, f).Some? ==> TileEnd(e, c, w, h, f).value > c
  {
  }

  lemma BadComesFrom(d: seq<byte>, e: seq<byte>, c: nat, w: nat, h: nat, f: Format)
    requires d <= e && ZeroFrom(e, |d|) && c < |d| && BadTile(e, c, w, h, f)
    ensures BadTile(d, c, w, h, f)
  {
    hide BadRun, PaletteEnd;
    var q, size := PaletteEnd(c + 1, d[c] % 128, f), d[c] % 128;
    ZerosNotBad(d, e, q, w * h, size);
    BadInside(d, q, w * h, size);
  }

  function Zeros(n: nat): (z: seq<byte>)
    ensures |z| == n
  {
    seq(n, _ => 0 as byte)
  }

  /** Of a rectangle reported short: some bytes behind it would complete it if and only if
      what it lacks is bytes, and none if and only if an index is bad. */
  lemma MoreHelpsIff(d: seq<byte>, width: nat, height: nat, f: Format)
    requires ReadTiles(d, 0, width, height, 0, 0, f, []).Short?
    ensures (exists e :: d <= e && ReadTiles(e, 0, width, height, 0, 0, f, []).Shown?) <==> Stops(d, 0, width, height, 0, 0, f, TooLittle)
    ensures (forall e :: d <= e ==> ReadTiles(e, 0, width, height, 0, 0, f, []).Short?) <==> Stops(d, 0, width, height, 0, 0, f, BadIndex)
  {
    hide ReadTiles, Stops, RectRoom;
    ShortIff(d, 0, width, height, 0, 0, f, []);
    if Stops(d, 0, width, height, 0, 0, f, TooLittle) {
      var e := d + Zeros(RectRoom(width, height, 0, 0, f));
      LittleCompleted(d, e, 0, width, height, 0, 0, f, []);
      assert d <= e && ReadTiles(e, 0, width, height, 0, 0, f, []).Shown?;
    } else {
      forall e | d <= e ensures ReadTiles(e, 0, width, height, 0, 0, f, []).Short? {
        BadStays(d, e, 0, width, height, 0, 0, f);
        ShortIff(e, 0, width, height, 0, 0, f, []);
      }
    }
  }

  // ---- the payload ----------------------------------------------------------------------------------

  /** A payload that is all there is reported like one that is not, whatever arrives behind
      it, if and only if it inflates and its first tile that cannot be read lacks bytes or
      has a bad index. */
  lemma NeverComplete(d: seq<byte>, e: seq<byte>, o: nat, width: nat, height: nat, f: Format, inflate: seq<byte> -> Option<seq<byte>>)
    requires d <= e && o + 4 <= |d| && o + 4 + Num(d, o, 4) <= |d|
    ensures Zrle.Parse(e, o, width, height, f, inflate).Incomplete? <==>
              var r := inflate(d[o + 4..o + 4 + Num(d, o, 4)]);
              r.Some? && (Stops(r.value, 0, width, height, 0, 0, f, TooLittle) || Stops(r.value, 0, width, height, 0, 0, f, BadIndex))
  {
    hide ReadTiles, Num, Stops;
    NumStable(d, e, o, 4);
    SameSlice(d, e, o + 4, o + 4 + Num(d, o, 4));
    var r := inflate(d[o + 4..o + 4 + Num(d, o, 4)]);
    if r.Some? {
      ShortIff(r.value, 0, width, height, 0, 0, f, []);
    }
  }

  /** One tile of one pixel whose run names the sixth colour of a palette of one. */
  lemma BadIndexExample(rest: seq<byte>)
    ensures Stops([129, 1, 2, 3, 0, 5] + rest, 0, 1, 1, 0, 0, CLIENT, BadIndex)
  {
    var d := [129, 1, 2, 3, 0, 5] + rest;
    assert d[0] == 129 && d[5] == 5;
    assert PaletteEnd(1, 1, CLIENT) == 5;
    assert BadRun(d, 5, 1, 1);
  }

  /** One raw tile of one pixel, of which three bytes are there. */
  lemma TooLittleExample()
    ensures Stops([0, 1, 2, 3], 0, 1, 1, 0, 0, CLIENT, TooLittle)
  {
    assert RawEnd(1, 1, 1, CLIENT) == 5;
  }
}
