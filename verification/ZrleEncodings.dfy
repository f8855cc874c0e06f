/** What a server sends inside a ZRLE rectangle, and that the client's decoder gives back
    exactly the pixels that were sent, in each of the five forms of a tile. */
module ZrleEncodings {
  import opened Options
  import opened Words
  import opened Pixels
  import opened Rre
  import opened Tiles
  import opened Encodings
  import opened Packing
  import opened Zrle

  /** A run of a palette colour. */
  datatype IndexRun = IndexRun(index: nat, n: nat)

  /** A tile as the server codes it. */
  datatype Coded = Copied(pixels: seq<Rgba>)
                 | Solid(c: Rgba)
                 | Packed(palette: seq<Rgba>, indices: seq<nat>)
                 | Runs(runs: seq<Run>)
                 | IndexRuns(palette: seq<Rgba>, indexed: seq<IndexRun>)

  function Colour(palette: seq<Rgba>, index: nat): Rgba
    requires index < |palette|
  {
    palette[index]
  }

  predicate AllIn(indices: seq<nat>, size: nat) { forall i :: 0 <= i < |indices| ==> indices[i] < size }

  predicate RunsOk(runs: seq<Run>) { forall i :: 0 <= i < |runs| ==> runs[i].n >= 1 && runs[i].c.a == 255 }

  predicate IndexRunsOk(runs: seq<IndexRun>, size: nat) { forall i :: 0 <= i < |runs| ==> runs[i].n >= 1 && runs[i].index < size }

  /** The runs in the colours of the palette. */
  function Coloured(runs: seq<IndexRun>, palette: seq<Rgba>): seq<Run>
    requires IndexRunsOk(runs, |palette|)
  {
    if runs == [] then [] else [Run(palette[runs[0].index], runs[0].n)] + Coloured(runs[1..], palette)
  }

  predicate CodedOk(s: Coded, w: nat, h: nat) {
    match s
    case Copied(pixels) => |pixels| == PixelCount(w, h) && AllSolid(pixels)
    case Solid(c) => c.a == 255
    case Packed(palette, indices) => 2 <= |palette| <= 16 && AllSolid(palette) && |indices| == PixelCount(w, h) && AllIn(indices, |palette|)
    case Runs(runs) => RunsOk(runs) && |Expand(runs)| == PixelCount(w, h)
    case IndexRuns(palette, runs) =>
      1 <= |palette| <= 127 && AllSolid(palette) && IndexRunsOk(runs, |palette|) && |Expand(Coloured(runs, palette))| == PixelCount(w, h)
  }

  /** The pixels of a tile, row by row. */
  function Meaning(s: Coded, w: nat, h: nat): (r: seq<Rgba>)
    requires CodedOk(s, w, h)
    ensures |r| == w * h
  {
    match s
    case Copied(pixels) => pixels
    case Solid(c) => Rep(c, PixelCount(w, h))
    case Packed(palette, indices) => seq(|indices|, i requires 0 <= i < |indices| => Colour(palette, indices[i]))
    case Runs(runs) => Expand(runs)
    case IndexRuns(palette, runs) => Expand(Coloured(runs, palette))
  }

  // ---- bytes ----------------------------------------------------------------------------------

  function RunPair(r: Run): seq<byte>
    requires r.n >= 1
  {
    PixelBytes(r.c) + RunBytes(r.n)
  }

  function RunPairs(runs: seq<Run>): seq<byte>
    requires RunsOk(runs)
  {
    if runs == [] then [] else RunPair(runs[0]) + RunPairs(runs[1..])
  }

  /** An index alone for a single pixel, else with the high bit set and a length behind. */
  function IndexPair(r: IndexRun): seq<byte>
    requires r.n >= 1 && r.index < 128
  {
    if r.n == 1 then [Byte(r.index)] else [Byte(128 + r.index)] + RunBytes(r.n)
  }

  function IndexPairs(runs: seq<IndexRun>): seq<byte>
    requires IndexRunsOk(runs, 128)
  {
    if runs == [] then [] else IndexPair(runs[0]) + IndexPairs(runs[1..])
  }

  lemma IndicesNarrow(indices: seq<nat>, size: nat)
    requires AllIn(indices, size) && size <= 16
    ensures Narrow(indices, IndexBits(size))
  {
    hide Pow2;
    Pow2Values();
  }

  function PackedRows(palette: seq<Rgba>, indices: seq<nat>, w: nat, h: nat): seq<byte>
    requires |palette| <= 16 && AllIn(indices, |palette|)
  {
    IndicesNarrow(indices, |palette|);
    Rows(indices, IndexBits(|palette|), w, h)
  }

  function Kind(s: Coded): nat {
    match s
    case Copied(_) => 0
    case Solid(_) => 1
    case Packed(palette, _) => |palette|
    case Runs(_) => 128
    case IndexRuns(palette, _) => 128 + |palette|
  }

  function CodedBody(s: Coded, w: nat, h: nat): seq<byte>
    requires CodedOk(s, w, h)
  {
    match s
    case Copied(pixels) => RawBytes(pixels)
    case Solid(c) => PixelBytes(c)
    case Packed(palette, indices) => RawBytes(palette) + PackedRows(palette, indices, w, h)
    case Runs(runs) => RunPairs(runs)
    case IndexRuns(palette, runs) => RawBytes(palette) + IndexPairs(runs)
  }

  function CodedBytes(s: Coded, w: nat, h: nat): seq<byte>
    requires CodedOk(s, w, h)
  {
    [Byte(Kind(s))] + CodedBody(s, w, h)
  }

  // ---- runs read back ----------------------------------------------------------------------------

  lemma {:induction false} ExpandConcat(a: seq<Run>, b: seq<Run>)
    ensures Expand(a + b) == Expand(a) + Expand(b)
    decreases |b|
  {
    if b == [] {
      assert a + b == a;
    } else {
      var n := |b| - 1;
      assert (a + b)[..|a + b| - 1] == a + b[..n];
      ExpandConcat(a, b[..n]);
    }
  }

  /** What has been read falls short of the tile as long as a run is missing. */
  lemma StillShort(acc: seq<Run>, r: Run, rest: seq<Run>)
    requires r.n >= 1
    ensures |Expand(acc)| < |Expand(acc + ([r] + rest))|
  {
    hide Expand;
    ExpandConcat(acc, [r] + rest);
    ExpandConcat([r], rest);
    ExpandMore([], r.c, r.n);
    assert [] + [Run(r.c, r.n)] == [r];
  }

  lemma LengthStarts(d: seq<byte>, o: nat, n: nat, run: nat)
    requires n >= 1 && Starts(d, o, RunBytes(n))
    ensures RunFrom(d, o, run) == Some((run + n - 1, o + |RunBytes(n)|))
  {
    hide RunFrom;
    assert d[o..][..|RunBytes(n)|] == d[o..o + |RunBytes(n)|];
    RunDecodes(d, o, n, run);
  }

  /** A plain RLE tile gives back the runs it was written from. */
  lemma {:induction false} PlainRunsRead(d: seq<byte>, o: nat, n: nat, acc: seq<Run>, runs: seq<Run>)
    requires RunsOk(runs) && Starts(d, o, RunPairs(runs)) && |Expand(acc + runs)| == n
    ensures PlainRuns(d, o, n, CLIENT, acc) == Some((acc + runs, o + |RunPairs(runs)|))
    decreases |runs|
  {
    hide Expand, PixelAt, RunFrom, RunBytes, Starts, PixelBytes;
    if runs == [] {
      assert acc + runs == acc;
    } else {
      var r, rest := runs[0], runs[1..];
      assert runs == [r] + rest && acc + [r] + rest == acc + runs;
      assert [Run(r.c, r.n)] == [r];
      StillShort(acc, r, rest);
      StartsBoth(d, o, RunPair(r), RunPairs(rest));
      StartsBoth(d, o, PixelBytes(r.c), RunBytes(r.n));
      PixelReads(d, o, r.c);
      LengthStarts(d, o + 4, r.n, 1);
      ExpandMore(acc, r.c, r.n);
      PlainRunsRead(d, o + |RunPair(r)|, n, acc + [r], rest);
    }
  }

  /** One run of a palette colour. */
  lemma IndexPairReads(d: seq<byte>, o: nat, r: IndexRun)
    requires r.n >= 1 && r.index < 128 && Starts(d, o, IndexPair(r))
    ensures o < |d| && d[o] % 128 == r.index
    ensures (if d[o] >= 128 then RunFrom(d, o + 1, 1) else Some((1, o + 1))) == Some((r.n, o + |IndexPair(r)|))
  {
    hide RunFrom, RunBytes, Starts;
    if r.n == 1 {
      OneByte(d, o, Byte(r.index));
    } else {
      StartsBoth(d, o, [Byte(128 + r.index)], RunBytes(r.n));
      OneByte(d, o, Byte(128 + r.index));
      LengthStarts(d, o + 1, r.n, 1);
    }
  }

  /** A palette RLE tile gives back the runs it was written from. */
  lemma {:induction false} IndexRunsRead(d: seq<byte>, o: nat, n: nat, palette: seq<Rgba>, acc: seq<Run>, runs: seq<IndexRun>)
    requires |palette| <= 127 && IndexRunsOk(runs, |palette|) && Starts(d, o, IndexPairs(runs))
    requires |Expand(acc + Coloured(runs, palette))| == n
    ensures PaletteRuns(d, o, n, palette, acc) == Some((acc + Coloured(runs, palette), o + |IndexPairs(runs)|))
    decreases |runs|
  {
    hide Expand, RunFrom, RunBytes, Starts, IndexPair;
    if runs == [] {
      assert acc + [] == acc;
    } else {
      var first, rest := runs[0], runs[1..];
      var r, more := Run(palette[first.index], first.n), Coloured(runs[1..], palette);
      assert acc + [r] + more == acc + ([r] + more);
      StillShort(acc, r, more);
      StartsBoth(d, o, IndexPair(first), IndexPairs(rest));
      IndexPairReads(d, o, first);
      ExpandMore(acc, r.c, r.n);
      IndexRunsRead(d, o + |IndexPair(first)|, n, palette, acc + [r], rest);
    }
  }

  // ---- packed indices read back ---------------------------------------------------------------------

  /** The packed rows give back one palette colour for each pixel. */
  lemma PackedReads(d: seq<byte>, o: nat, w: nat, h: nat, palette: seq<Rgba>, indices: seq<nat>)
    requires w > 0 && CodedOk(Packed(palette, indices), w, h) && Starts(d, o, PackedRows(palette, indices, w, h))
    ensures Zrle.ReadPacked(d, o, w, h, palette)
         == Data(Meaning(Packed(palette, indices), w, h), o + |PackedRows(palette, indices, w, h)|)
  {
    hide PackedPixels, RowBytes, IndexBits, Rows, AllIn, AllSolid;
    var bits := IndexBits(|palette|);
    IndicesNarrow(indices, |palette|);
    RowsLength(indices, bits, w, h);
    StartsInside(d, o, PackedRows(palette, indices, w, h));
    Turned(RowBytes(w, bits), h);
    var got := PackedPixels(d, o, w, h, palette, w * h);
    forall k | 0 <= k < w * h ensures got[k] == Meaning(Packed(palette, indices), w, h)[k] {
      OnePackedReads(d, o, w, h, palette, indices, k);
    }
  }

  lemma Turned(a: nat, b: nat)
    ensures a * b == b * a
  {
  }

  lemma OnePackedReads(d: seq<byte>, o: nat, w: nat, h: nat, palette: seq<Rgba>, indices: seq<nat>, k: nat)
    requires w > 0 && CodedOk(Packed(palette, indices), w, h) && Starts(d, o, PackedRows(palette, indices, w, h)) && k < w * h
    requires o + RowBytes(w, IndexBits(|palette|)) * h <= |d|
    ensures PackedPixels(d, o, w, h, palette, w * h)[k] == palette[indices[k]]
  {
    hide PackedPixels, PackedIndex, RowBytes, IndexBits, Rows, Row, Column, AllSolid;
    IndicesNarrow(indices, |palette|);
    PixelPlace(w, h, k);
    PackedAt(d, o, w, h, palette, w * h, k);
    IndexReads(d, o, w, h, IndexBits(|palette|), indices, Row(w, k), Column(w, k));
  }

  lemma IndexReads(d: seq<byte>, o: nat, w: nat, h: nat, bits: nat, indices: seq<nat>, row: nat, column: nat)
    requires bits in {1, 2, 4} && Narrow(indices, bits) && Starts(d, o, Rows(indices, bits, w, h))
    requires o + RowBytes(w, bits) * h <= |d| && column < w && row < h && row * w + column < |indices|
    ensures PackedIndex(d, o, w, h, bits, row, column) == indices[row * w + column]
  {
    hide RowBytes, Rows, Shr, Low, Starts, Narrow;
    CellReads(indices, bits, w, h, row, column);
    StartsAt(d, o, Rows(indices, bits, w, h), row * RowBytes(w, bits) + column * bits / 8);
  }

  lemma StartsAt(d: seq<byte>, o: nat, a: seq<byte>, i: nat)
    requires Starts(d, o, a) && i < |a|
    ensures o + i < |d| && d[o + i] == a[i]
  {
    assert d[o..o + |a|][i] == d[o + i];
  }

  // ---- tiles read back ---------------------------------------------------------------------------------

  lemma CopiedReads(d: seq<byte>, p: nat, w: nat, h: nat, pixels: seq<Rgba>)
    requires |pixels| == PixelCount(w, h) && AllSolid(pixels) && Starts(d, p, RawBytes(pixels))
    ensures Zrle.ReadRaw(d, p, PixelCount(w, h), CLIENT) == Data(pixels, p + |RawBytes(pixels)|)
  {
    hide Starts, RawPixels, PixelCount;
    RawReads(d, p, pixels);
  }

  lemma SolidReads(d: seq<byte>, p: nat, n: nat, c: Rgba)
    requires c.a == 255 && Starts(d, p, PixelBytes(c))
    ensures Zrle.ReadSolid(d, p, n, CLIENT) == Data(Rep(c, n), p + 4)
  {
    hide Starts, PixelAt, PixelBytes;
    PixelReads(d, p, c);
  }

  /** A palette is read back. */
  lemma PaletteReads(d: seq<byte>, p: nat, palette: seq<Rgba>)
    requires AllSolid(palette) && Starts(d, p, RawBytes(palette))
    ensures PaletteEnd(p, |palette|, CLIENT) == p + |RawBytes(palette)|
    ensures ReadPalette(d, p, |palette|, CLIENT) == Some(palette)
  {
    hide Starts, RawPixels;
    RawReads(d, p, palette);
  }

  lemma RunsRead(d: seq<byte>, p: nat, n: nat, runs: seq<Run>)
    requires RunsOk(runs) && |Expand(runs)| == n && Starts(d, p, RunPairs(runs))
    ensures FirstPixels(PlainRuns(d, p, n, CLIENT, []), n) == Data(Expand(runs), p + |RunPairs(runs)|)
  {
    hide Starts, Expand, PlainRuns, RunPairs;
    assert [] + runs == runs;
    PlainRunsRead(d, p, n, [], runs);
  }

  lemma PaletteRunsRead(d: seq<byte>, q: nat, n: nat, palette: seq<Rgba>, runs: seq<IndexRun>)
    requires |palette| <= 127 && IndexRunsOk(runs, |palette|) && Starts(d, q, IndexPairs(runs)) && |Expand(Coloured(runs, palette))| == n
    ensures FirstPixels(PaletteRuns(d, q, n, palette, []), n) == Data(Expand(Coloured(runs, palette)), q + |IndexPairs(runs)|)
  {
    hide Starts, Expand, PaletteRuns, IndexPairs, Coloured;
    assert [] + Coloured(runs, palette) == Coloured(runs, palette);
    IndexRunsRead(d, q, n, palette, [], runs);
  }

  /** Both forms with a palette, from behind the first byte. */
  lemma IndexedReads(d: seq<byte>, p: nat, s: Coded, w: nat, h: nat)
    requires w > 0 && CodedOk(s, w, h) && (s.Packed? || s.IndexRuns?) && Starts(d, p, CodedBody(s, w, h))
    ensures ReadIndexed(d, PaletteEnd(p, |s.palette|, CLIENT), w, h, ReadPalette(d, p, |s.palette|, CLIENT), s.IndexRuns?)
         == Data(Meaning(s, w, h), p + |CodedBody(s, w, h)|)
  {
    hide Starts, Expand, PaletteRuns, IndexPairs, Coloured, Zrle.ReadPacked, ReadPalette, PaletteEnd, FirstPixels, RawBytes, PackedRows,
         AllSolid, AllIn;
    var q := p + |RawBytes(s.palette)|;
    match s {
      case Packed(palette, indices) => StartsBoth(d, p, RawBytes(palette), PackedRows(palette, indices, w, h));
      case IndexRuns(palette, runs) => StartsBoth(d, p, RawBytes(palette), IndexPairs(runs));
    }
    PaletteReads(d, p, s.palette);
    match s {
      case Packed(palette, indices) => PackedReads(d, q, w, h, palette, indices);
      case IndexRuns(palette, runs) => PaletteRunsRead(d, q, PixelCount(w, h), palette, runs);
    }
  }

  /** One tile is read back, in whichever form it was sent. */
  lemma CodedReads(d: seq<byte>, o: nat, s: Coded, w: nat, h: nat)
    requires w > 0 && h > 0 && CodedOk(s, w, h) && Starts(d, o, CodedBytes(s, w, h))
    ensures Zrle.ReadTile(d, o, w, h, CLIENT) == Data(Meaning(s, w, h), o + |CodedBytes(s, w, h)|)
  {
    hide Starts, Expand, PlainRuns, RunPairs, Coloured, Zrle.ReadRaw, Zrle.ReadSolid, ReadIndexed, ReadPalette, PaletteEnd, FirstPixels,
         RawBytes, AllSolid, AllIn, RunsOk, IndexRunsOk, Rep, CodedBody;
    var p := o + 1;
    StartsBoth(d, o, [Byte(Kind(s))], CodedBody(s, w, h));
    OneByte(d, o, Byte(Kind(s)));
    BodyOf(s, w, h);
    match s
    case Copied(pixels) => CopiedReads(d, p, w, h, pixels);
    case Solid(c) => SolidReads(d, p, PixelCount(w, h), c);
    case Runs(runs) => RunsRead(d, p, PixelCount(w, h), runs);
    case _ => IndexedReads(d, p, s, w, h);
  }

  lemma BodyOf(s: Coded, w: nat, h: nat)
    requires CodedOk(s, w, h)
    ensures match s
            case Copied(pixels) => CodedBody(s, w, h) == RawBytes(pixels)
            case Solid(c) => CodedBody(s, w, h) == PixelBytes(c)
            case Runs(runs) => CodedBody(s, w, h) == RunPairs(runs)
            case _ => true
  {
  }

  // ---- rectangles read back ------------------------------------------------------------------------------

  /** Tiles for a whole rectangle from (tx, ty) on, each fitting its place. */
  ghost predicate Covering(ss: seq<Coded>, width: nat, height: nat, tx: nat, ty: nat)
    decreases height - ty, width - tx
  {
    if ty >= height then ss == []
    else if tx >= width then Covering(ss, width, height, 0, ty + 64)
    else ss != [] && CodedOk(ss[0], Words.Min(64, width - tx), Words.Min(64, height - ty)) && Covering(ss[1..], width, height, tx + 64, ty)
  }

  ghost function CoveringBytes(ss: seq<Coded>, width: nat, height: nat, tx: nat, ty: nat): seq<byte>
    requires Covering(ss, width, height, tx, ty)
    decreases height - ty, width - tx
  {
    if ty >= height then []
    else if tx >= width then CoveringBytes(ss, width, height, 0, ty + 64)
    else CodedBytes(ss[0], Words.Min(64, width - tx), Words.Min(64, height - ty)) + CoveringBytes(ss[1..], width, height, tx + 64, ty)
  }

  ghost function CodedTiles(ss: seq<Coded>, width: nat, height: nat, tx: nat, ty: nat): seq<Tile>
    requires Covering(ss, width, height, tx, ty)
    decreases height - ty, width - tx
  {
    if ty >= height then []
    else if tx >= width then CodedTiles(ss, width, height, 0, ty + 64)
    else
      var (w, h) := (Words.Min(64, width - tx), Words.Min(64, height - ty));
      [PixelTile(tx, ty, w, h, Meaning(ss[0], w, h))] + CodedTiles(ss[1..], width, height, tx + 64, ty)
  }

  lemma {:induction false} CodedTilesRead(d: seq<byte>, o: nat, ss: seq<Coded>, width: nat, height: nat, tx: nat, ty: nat, acc: seq<Tile>)
    requires Covering(ss, width, height, tx, ty) && Starts(d, o, CoveringBytes(ss, width, height, tx, ty))
    ensures Zrle.ReadTiles(d, o, width, height, tx, ty, CLIENT, acc) == Shown(acc + CodedTiles(ss, width, height, tx, ty))
    decreases height - ty, width - tx
  {
    hide Starts, Zrle.ReadTile, CodedOk, CodedBytes, Meaning, PixelTile;
    if ty >= height {
      assert acc + [] == acc;
    } else if tx >= width {
      CodedTilesRead(d, o, ss, width, height, 0, ty + 64, acc);
    } else {
      var (w, h) := (Words.Min(64, width - tx), Words.Min(64, height - ty));
      var (bytes, more) := (CodedBytes(ss[0], w, h), CoveringBytes(ss[1..], width, height, tx + 64, ty));
      StartsBoth(d, o, bytes, more);
      CodedReads(d, o, ss[0], w, h);
      var t := PixelTile(tx, ty, w, h, Meaning(ss[0], w, h));
      CodedTilesRead(d, o + |bytes|, ss[1..], width, height, tx + 64, ty, acc + [t]);
      var rest := CodedTiles(ss[1..], width, height, tx + 64, ty);
      assert acc + [t] + rest == acc + ([t] + rest);
    }
  }

  /** A rectangle that was deflated on its own gives back the tiles that were sent. */
  lemma ZrleReads(d: seq<byte>, o: nat, zipped: seq<byte>, ss: seq<Coded>, width: nat, height: nat, inflate: seq<byte> -> Option<seq<byte>>)
    requires Covering(ss, width, height, 0, 0) && |zipped| < 0x1_0000_0000 && Starts(d, o, Be(|zipped|, 4) + zipped)
    requires inflate(zipped).Some? && Starts(inflate(zipped).value, 0, CoveringBytes(ss, width, height, 0, 0))
    ensures Zrle.Parse(d, o, width, height, CLIENT, inflate) == Tiled(CodedTiles(ss, width, height, 0, 0), 4 + |zipped|)
  {
    hide Starts, Num, Be, Zrle.ReadTiles, Covering, CoveringBytes, CodedTiles;
    LengthReads(d, o, zipped);
    CodedTilesRead(inflate(zipped).value, 0, ss, width, height, 0, 0, []);
    var tiles := CodedTiles(ss, width, height, 0, 0);
    assert [] + tiles == tiles;
  }
}
