/** What a server sends for a rectangle (section 7.7 of RFC 6143), and that the client's
    decoders give back exactly what was sent. */
module Encodings {
  import opened Options
  import opened Words
  import opened Pixels
  import opened Rre
  import opened Tiles
  import Hextile

  // ---- numbers and pixels -----------------------------------------------------------------

  function Pow256(n: nat): nat { if n == 0 then 1 else 256 * Pow256(n - 1) }

  /** A number in n bytes, most significant first. */
  function Be(v: nat, n: nat): (r: seq<byte>)
    ensures |r| == n
  {
    if n == 0 then [] else Be(v / 256, n - 1) + [v % 256]
  }

  /** The bytes at o begin with these. */
  predicate Starts(d: seq<byte>, o: nat, a: seq<byte>) {
    o + |a| <= |d| && d[o..o + |a|] == a
  }

  lemma StartsBoth(d: seq<byte>, o: nat, a: seq<byte>, b: seq<byte>)
    ensures Starts(d, o, a + b) <==> Starts(d, o, a) && Starts(d, o + |a|, b)
  {
    if o + |a + b| <= |d| {
      assert d[o..o + |a + b|] == d[o..o + |a|] + d[o + |a|..o + |a| + |b|];
      if Starts(d, o, a + b) {
        assert (a + b)[..|a|] == a && (a + b)[|a|..] == b;
      }
    }
  }

  lemma {:induction false} NumBe(d: seq<byte>, o: nat, v: nat, n: nat)
    requires Starts(d, o, Be(v, n)) && v < Pow256(n)
    ensures Num(d, o, n) == v
    decreases n
  {
    if n == 0 {
    } else {
      StartsBoth(d, o, Be(v / 256, n - 1), [v % 256]);
      NumBe(d, o, v / 256, n - 1);
      assert d[o + n - 1..o + n] == [v % 256];
      assert d[o + n - 1] == d[o + n - 1..o + n][0];
    }
  }

  lemma PowValues()
    ensures Pow256(1) == 256 && Pow256(2) == 65536 && Pow256(4) == 0x1_0000_0000
  {
    assert Pow256(2) == 256 * Pow256(1);
    assert Pow256(3) == 256 * Pow256(2);
  }

  /** A length in four bytes and what it counts. */
  lemma LengthReads(d: seq<byte>, o: nat, text: seq<byte>)
    requires |text| < 0x1_0000_0000 && Starts(d, o, Be(|text|, 4) + text)
    ensures o + 4 + |text| <= |d| && Num(d, o, 4) == |text| && d[o + 4..o + 4 + |text|] == text
  {
    hide Be, Num, Pow256;
    PowValues();
    StartsBoth(d, o, Be(|text|, 4), text);
    NumBe(d, o, |text|, 4);
  }

  function PixelBytes(c: Rgba): (r: seq<byte>)
    ensures |r| == 4
  {
    [c.b, c.g, c.r, 0]
  }

  lemma PixelReads(d: seq<byte>, o: nat, c: Rgba)
    requires Starts(d, o, PixelBytes(c)) && c.a == 255
    ensures PixelAt(d, o, CLIENT) == Some(c)
  {
    hide PixelAt;
    assert d[o..o + 4] == PixelBytes(c);
    assert d[o + 0] == d[o..o + 4][0] && d[o + 1] == d[o..o + 4][1] && d[o + 2] == d[o..o + 4][2];
    ClientPixel(d, o);
  }

  function PixelCount(w: nat, h: nat): nat { w * h }

  predicate AllSolid(pixels: seq<Rgba>) { forall i :: 0 <= i < |pixels| ==> pixels[i].a == 255 }

  function RawBytes(pixels: seq<Rgba>): (r: seq<byte>)
    ensures |r| == 4 * |pixels|
  {
    if pixels == [] then [] else RawBytes(pixels[..|pixels| - 1]) + PixelBytes(pixels[|pixels| - 1])
  }

  lemma {:induction false} RawReads(d: seq<byte>, o: nat, pixels: seq<Rgba>)
    requires Starts(d, o, RawBytes(pixels)) && AllSolid(pixels)
    ensures o + 4 * |pixels| <= |d| && RawPixels(d, o, |pixels|, CLIENT) == pixels
    decreases |pixels|
  {
    hide Starts, PixelAt, PixelBytes;
    StartsInside(d, o, RawBytes(pixels));
    if pixels == [] {
    } else {
      var n := |pixels| - 1;
      StartsBoth(d, o, RawBytes(pixels[..n]), PixelBytes(pixels[n]));
      RawReads(d, o, pixels[..n]);
      PixelReads(d, o + 4 * n, pixels[n]);
      assert pixels == pixels[..n] + [pixels[n]];
    }
  }

  // ---- RRE and CoRRE ---------------------------------------------------------------------------

  function SubBytes(u: Sub, k: nat): (r: seq<byte>)
    ensures |r| == SubSize(CLIENT, k)
  {
    PixelBytes(u.c) + (Be(u.x, k) + (Be(u.y, k) + (Be(u.w, k) + Be(u.h, k))))
  }

  predicate SubFits(u: Sub, k: nat) {
    u.c.a == 255 && u.x < Pow256(k) && u.y < Pow256(k) && u.w < Pow256(k) && u.h < Pow256(k)
  }

  function SubsBytes(us: seq<Sub>, k: nat): seq<byte> {
    if us == [] then [] else SubsBytes(us[..|us| - 1], k) + SubBytes(us[|us| - 1], k)
  }

  function RreBytes(background: Rgba, us: seq<Sub>, k: nat): seq<byte> {
    Be(|us|, 4) + (PixelBytes(background) + SubsBytes(us, k))
  }

  lemma SubReads(d: seq<byte>, o: nat, u: Sub, k: nat)
    requires Starts(d, o, SubBytes(u, k)) && SubFits(u, k)
    ensures o + SubSize(CLIENT, k) <= |d| && SubAt(d, o, CLIENT, k) == u
  {
    hide Starts, PixelAt, Num, Be, Pow256, PixelBytes;
    var (x, y, w, h) := (Be(u.x, k), Be(u.y, k), Be(u.w, k), Be(u.h, k));
    var p := o + 4;
    StartsBoth(d, o, PixelBytes(u.c), x + (y + (w + h)));
    StartsBoth(d, p, x, y + (w + h));
    StartsBoth(d, p + k, y, w + h);
    StartsBoth(d, p + 2 * k, w, h);
    PixelReads(d, o, u.c);
    NumBe(d, p, u.x, k);
    NumBe(d, p + k, u.y, k);
    NumBe(d, p + 2 * k, u.w, k);
    NumBe(d, p + 3 * k, u.h, k);
    StartsInside(d, o, SubBytes(u, k));
  }

  lemma StartsInside(d: seq<byte>, o: nat, a: seq<byte>)
    requires Starts(d, o, a)
    ensures o + |a| <= |d|
  {
  }

  lemma {:induction false} SubsRead(d: seq<byte>, o: nat, us: seq<Sub>, k: nat)
    requires Starts(d, o, SubsBytes(us, k)) && forall i :: 0 <= i < |us| ==> SubFits(us[i], k)
    ensures |SubsBytes(us, k)| == |us| * SubSize(CLIENT, k) && o + |us| * SubSize(CLIENT, k) <= |d|
    ensures Subs(d, o, |us|, CLIENT, k) == us
    decreases |us|
  {
    hide Starts, SubFits, SubBytes, SubAt, SubSize;
    StartsInside(d, o, SubsBytes(us, k));
    if us == [] {
    } else {
      var n := |us| - 1;
      StartsBoth(d, o, SubsBytes(us[..n], k), SubBytes(us[n], k));
      SubsRead(d, o, us[..n], k);
      MoreSubs(n, n + 1, SubSize(CLIENT, k));
      SubReads(d, o + n * SubSize(CLIENT, k), us[n], k);
      assert us == us[..n] + [us[n]];
    }
  }

  /** An RRE payload (k = 2) or a CoRRE payload (k = 1) gives back its background and its
      subrectangles in order, whatever is in front of it and behind it. */
  lemma RreReads(d: seq<byte>, o: nat, background: Rgba, us: seq<Sub>, k: nat)
    requires Starts(d, o, RreBytes(background, us, k)) && background.a == 255
    requires |us| < 0x1_0000_0000 && forall i :: 0 <= i < |us| ==> SubFits(us[i], k)
    ensures Rre.Parse(d, o, CLIENT, k) == Some(Picture(background, us, |RreBytes(background, us, k)|))
  {
    hide Starts, SubFits, Be, PixelAt, Num, Subs, SubSize, PixelBytes;
    PowValues();
    StartsBoth(d, o, Be(|us|, 4), PixelBytes(background) + SubsBytes(us, k));
    StartsBoth(d, o + 4, PixelBytes(background), SubsBytes(us, k));
    NumBe(d, o, |us|, 4);
    PixelReads(d, o + 4, background);
    SubsRead(d, o + 8, us, k);
  }

  // ---- Hextile --------------------------------------------------------------------------------------

  /** A subrectangle inside a tile. */
  datatype Part = Part(x: nat, y: nat, w: nat, h: nat, c: Rgba)

  predicate PartFits(p: Part) { p.x < 16 && p.y < 16 && 1 <= p.w <= 16 && 1 <= p.h <= 16 && p.c.a == 255 }

  /** A tile as the server means it: its pixels, or the colours it sets and its parts, in
      the foreground colour or in colours of their own. */
  datatype Sent = Whole(bytes: seq<byte>) | Mixed(back: Option<Rgba>, fore: Option<Rgba>, coloured: bool, parts: seq<Part>)

  function Byte(n: nat): byte
    requires n < 256
  {
    n
  }

  function PartBytes(p: Part, coloured: bool): seq<byte>
    requires PartFits(p)
  {
    (if coloured then PixelBytes(p.c) else []) + [Byte(16 * p.x + p.y), Byte(16 * (p.w - 1) + (p.h - 1))]
  }

  function PartsBytes(ps: seq<Part>, coloured: bool): seq<byte>
    requires forall i :: 0 <= i < |ps| ==> PartFits(ps[i])
  {
    if ps == [] then [] else PartBytes(ps[0], coloured) + PartsBytes(ps[1..], coloured)
  }

  function ColourBytes(c: Option<Rgba>): seq<byte> { if c.Some? then PixelBytes(c.value) else [] }

  function Flags(s: Sent): byte {
    match s
    case Whole(_) => 1
    case Mixed(back, fore, coloured, parts) =>
      (if back.Some? then 2 else 0) + (if fore.Some? then 4 else 0) + (if parts != [] then 8 else 0) + (if coloured then 16 else 0)
  }

  predicate SentOk(s: Sent, w: nat, h: nat) {
    match s
    case Whole(bytes) => |bytes| == 4 * (w * h)
    case Mixed(back, fore, _, parts) =>
      && (back.Some? ==> back.value.a == 255) && (fore.Some? ==> fore.value.a == 255) && |parts| < 256
      && forall i :: 0 <= i < |parts| ==> PartFits(parts[i])
  }

  function TileBytes(s: Sent, w: nat, h: nat): seq<byte>
    requires SentOk(s, w, h)
  {
    match s
    case Whole(bytes) => [Flags(s)] + bytes
    case Mixed(back, fore, coloured, parts) =>
      [Flags(s)] + (ColourBytes(back) + (ColourBytes(fore)
      + (if parts == [] then [] else [Byte(|parts|)] + PartsBytes(parts, coloured))))
  }

  /** What the client is to make of a part at the tile (tx, ty). */
  function Meant(p: Part, coloured: bool, fore: Rgba, tx: nat, ty: nat): Sub {
    Sub(tx + p.x, ty + p.y, p.w, p.h, if coloured then p.c else fore)
  }

  function MeantAll(ps: seq<Part>, coloured: bool, fore: Rgba, tx: nat, ty: nat): seq<Sub> {
    if ps == [] then [] else [Meant(ps[0], coloured, fore, tx, ty)] + MeantAll(ps[1..], coloured, fore, tx, ty)
  }

  /** What the client is to make of a tile, with the colours in force before it. */
  function MeantTile(s: Sent, tx: nat, ty: nat, w: nat, h: nat, back: Rgba, fore: Rgba): Tile
    requires SentOk(s, w, h)
  {
    match s
    case Whole(bytes) => Tile(tx, ty, w, h, None, None, Raw(RawPixels(bytes, 0, w * h, CLIENT)))
    case Mixed(b, f, coloured, parts) =>
      var (b', f') := (Hextile.Else(b, back), Hextile.Else(f, fore));
      Tile(tx, ty, w, h, b, f, Painted(b', f', coloured && parts != [], MeantAll(parts, coloured, f', tx, ty)))
  }

  lemma OneByte(d: seq<byte>, o: nat, b: byte)
    requires Starts(d, o, [b])
    ensures o < |d| && d[o] == b
  {
    assert d[o] == d[o..o + 1][0];
  }

  /** The bytes of one part, at o. */
  lemma PartReads(d: seq<byte>, o: nat, p: Part, coloured: bool)
    requires PartFits(p) && Starts(d, o, PartBytes(p, coloured))
    ensures var q := o + if coloured then 4 else 0;
            && |PartBytes(p, coloured)| == q + 2 - o && q + 2 <= |d|
            && (coloured ==> PixelAt(d, o, CLIENT) == Some(p.c))
            && d[q] / 16 == p.x && d[q] % 16 == p.y && d[q + 1] / 16 + 1 == p.w && d[q + 1] % 16 + 1 == p.h
  {
    hide Starts, PixelAt, PixelBytes;
    var (a, b) := (Byte(16 * p.x + p.y), Byte(16 * (p.w - 1) + (p.h - 1)));
    var colour := if coloured then PixelBytes(p.c) else [];
    StartsBoth(d, o, colour, [a, b]);
    assert [a] + [b] == [a, b];
    StartsBoth(d, o + |colour|, [a], [b]);
    OneByte(d, o + |colour|, a);
    OneByte(d, o + |colour| + 1, b);
    if coloured {
      PixelReads(d, o, p.c);
    }
  }

  lemma {:induction false} PartsRead(d: seq<byte>, o: nat, ps: seq<Part>, coloured: bool, fore: Rgba, tx: nat, ty: nat, acc: seq<Sub>)
    requires (forall i :: 0 <= i < |ps| ==> PartFits(ps[i])) && Starts(d, o, PartsBytes(ps, coloured))
    ensures Hextile.ReadSubs(d, o, |ps|, coloured, fore, tx, ty, CLIENT, acc)
         == Some((acc + MeantAll(ps, coloured, fore, tx, ty), o + |PartsBytes(ps, coloured)|))
    decreases |ps|
  {
    hide Starts, PixelAt, PartFits, PartBytes;
    if ps == [] {
      assert acc + MeantAll(ps, coloured, fore, tx, ty) == acc;
    } else {
      var p := ps[0];
      var u := Meant(p, coloured, fore, tx, ty);
      StartsBoth(d, o, PartBytes(p, coloured), PartsBytes(ps[1..], coloured));
      PartReads(d, o, p, coloured);
      PartsRead(d, o + |PartBytes(p, coloured)|, ps[1..], coloured, fore, tx, ty, acc + [u]);
      assert acc + [u] + MeantAll(ps[1..], coloured, fore, tx, ty) == acc + MeantAll(ps, coloured, fore, tx, ty);
    }
  }

  lemma ColourReads(d: seq<byte>, o: nat, c: Option<Rgba>)
    requires Starts(d, o, ColourBytes(c)) && (c.Some? ==> c.value.a == 255)
    ensures Hextile.ReadColour(d, o, c.Some?, CLIENT) == Some((c, o + |ColourBytes(c)|))
  {
    hide Starts, PixelAt, PixelBytes;
    if c.Some? {
      PixelReads(d, o, c.value);
    }
  }

  lemma FlagBits(s: Sent)
    ensures Hextile.Bit(Flags(s), 1) <==> s.Whole?
    ensures s.Mixed? ==> && (Hextile.Bit(Flags(s), 2) <==> s.back.Some?) && (Hextile.Bit(Flags(s), 4) <==> s.fore.Some?)
                         && (Hextile.Bit(Flags(s), 8) <==> s.parts != []) && (Hextile.Bit(Flags(s), 16) <==> s.coloured)
  {
  }

  lemma {:induction false} SamePixels(d: seq<byte>, o: nat, bytes: seq<byte>, n: nat)
    requires Starts(d, o, bytes) && 4 * n <= |bytes|
    ensures RawPixels(d, o, n, CLIENT) == RawPixels(bytes, 0, n, CLIENT)
  {
    if n == 0 {
    } else {
      SamePixels(d, o, bytes, n - 1);
      var i := 4 * (n - 1);
      var here := d[o..o + |bytes|];
      assert here[i] == d[o + i] && here[i + 1] == d[o + i + 1] && here[i + 2] == d[o + i + 2];
      ClientPixel(d, o + i);
      ClientPixel(bytes, i);
    }
  }

  lemma PaintedReads(d: seq<byte>, p: nat, s: Sent, tx: nat, ty: nat, w: nat, h: nat, back: Rgba, fore: Rgba)
    requires SentOk(s, w, h) && s.Mixed?
    requires Starts(d, p, if s.parts == [] then [] else [Byte(|s.parts|)] + PartsBytes(s.parts, s.coloured))
    ensures Hextile.ReadPainted(d, p, Flags(s), tx, ty, w, h, s.back, s.fore, back, fore, CLIENT)
         == Some(Hextile.Got(Tile(tx, ty, w, h, s.back, s.fore, Painted(back, fore, s.coloured && s.parts != [],
                                  MeantAll(s.parts, s.coloured, fore, tx, ty))),
                             p + if s.parts == [] then 0 else 1 + |PartsBytes(s.parts, s.coloured)|))
  {
    hide Starts, Hextile.ReadSubs, PartsBytes, Flags, Hextile.Bit, PartFits;
    FlagBits(s);
    if s.parts != [] {
      StartsBoth(d, p, [Byte(|s.parts|)], PartsBytes(s.parts, s.coloured));
      OneByte(d, p, Byte(|s.parts|));
      PartsRead(d, p + 1, s.parts, s.coloured, fore, tx, ty, []);
      assert [] + MeantAll(s.parts, s.coloured, fore, tx, ty) == MeantAll(s.parts, s.coloured, fore, tx, ty);
    }
  }

  lemma WholeReads(d: seq<byte>, o: nat, s: Sent, tx: nat, ty: nat, w: nat, h: nat, back: Rgba, fore: Rgba)
    requires SentOk(s, w, h) && s.Whole? && Starts(d, o, TileBytes(s, w, h))
    ensures Hextile.ReadTile(d, o, tx, ty, w, h, back, fore, CLIENT)
         == Some(Hextile.Got(MeantTile(s, tx, ty, w, h, back, fore), o + |TileBytes(s, w, h)|))
  {
    hide Starts, Hextile.ReadPainted, Hextile.ReadColour, RawPixels, Flags, Hextile.Bit, MeantAll, PartFits, ColourBytes, PartsBytes;
    FlagBits(s);
    StartsBoth(d, o, [Flags(s)], s.bytes);
    OneByte(d, o, Flags(s));
    SamePixels(d, o + 1, s.bytes, w * h);
    StartsInside(d, o + 1, s.bytes);
  }

  lemma MixedReads(d: seq<byte>, o: nat, s: Sent, tx: nat, ty: nat, w: nat, h: nat, back: Rgba, fore: Rgba)
    requires SentOk(s, w, h) && s.Mixed? && Starts(d, o, TileBytes(s, w, h))
    ensures Hextile.ReadTile(d, o, tx, ty, w, h, back, fore, CLIENT)
         == Some(Hextile.Got(MeantTile(s, tx, ty, w, h, back, fore), o + |TileBytes(s, w, h)|))
  {
    hide Starts, Hextile.ReadPainted, Hextile.ReadColour, RawPixels, PartsBytes, Flags, Hextile.Bit, MeantAll, PartFits, ColourBytes;
    FlagBits(s);
    var Mixed(b, f, coloured, parts) := s;
    var tail := if parts == [] then [] else [Byte(|parts|)] + PartsBytes(parts, coloured);
    StartsBoth(d, o, [Flags(s)], ColourBytes(b) + (ColourBytes(f) + tail));
    OneByte(d, o, Flags(s));
    StartsBoth(d, o + 1, ColourBytes(b), ColourBytes(f) + tail);
    StartsBoth(d, o + 1 + |ColourBytes(b)|, ColourBytes(f), tail);
    ColourReads(d, o + 1, b);
    ColourReads(d, o + 1 + |ColourBytes(b)|, f);
    PaintedReads(d, o + 1 + |ColourBytes(b)| + |ColourBytes(f)|, s, tx, ty, w, h, Hextile.Else(b, back), Hextile.Else(f, fore));
  }

  /** One tile is read back as it was meant. */
  lemma TileReads(d: seq<byte>, o: nat, s: Sent, tx: nat, ty: nat, w: nat, h: nat, back: Rgba, fore: Rgba)
    requires SentOk(s, w, h) && Starts(d, o, TileBytes(s, w, h))
    ensures Hextile.ReadTile(d, o, tx, ty, w, h, back, fore, CLIENT)
         == Some(Hextile.Got(MeantTile(s, tx, ty, w, h, back, fore), o + |TileBytes(s, w, h)|))
  {
    hide *;
    if s.Whole? {
      WholeReads(d, o, s, tx, ty, w, h, back, fore);
    } else {
      MixedReads(d, o, s, tx, ty, w, h, back, fore);
    }
  }

  /** Tiles for a whole rectangle from (tx, ty) on, each fitting its place. */
  ghost predicate Covers(ss: seq<Sent>, width: nat, height: nat, tx: nat, ty: nat)
    decreases height - ty, width - tx
  {
    if ty >= height then ss == []
    else if tx >= width then Covers(ss, width, height, 0, ty + 16)
    else ss != [] && SentOk(ss[0], Words.Min(16, width - tx), Words.Min(16, height - ty)) && Covers(ss[1..], width, height, tx + 16, ty)
  }

  ghost function RectBytes(ss: seq<Sent>, width: nat, height: nat, tx: nat, ty: nat): seq<byte>
    requires Covers(ss, width, height, tx, ty)
    decreases height - ty, width - tx
  {
    if ty >= height then []
    else if tx >= width then RectBytes(ss, width, height, 0, ty + 16)
    else TileBytes(ss[0], Words.Min(16, width - tx), Words.Min(16, height - ty)) + RectBytes(ss[1..], width, height, tx + 16, ty)
  }

  ghost function MeantTiles(ss: seq<Sent>, width: nat, height: nat, tx: nat, ty: nat, back: Rgba, fore: Rgba): seq<Tile>
    requires Covers(ss, width, height, tx, ty)
    decreases height - ty, width - tx
  {
    if ty >= height then []
    else if tx >= width then MeantTiles(ss, width, height, 0, ty + 16, back, fore)
    else
      var t := MeantTile(ss[0], tx, ty, Words.Min(16, width - tx), Words.Min(16, height - ty), back, fore);
      [t] + MeantTiles(ss[1..], width, height, tx + 16, ty, Hextile.Else(t.back, back), Hextile.Else(t.fore, fore))
  }

  lemma {:induction false} TilesRead(d: seq<byte>, o: nat, ss: seq<Sent>, width: nat, height: nat, tx: nat, ty: nat,
                                     back: Rgba, fore: Rgba, acc: seq<Tile>)
    requires Covers(ss, width, height, tx, ty) && Starts(d, o, RectBytes(ss, width, height, tx, ty))
    ensures Hextile.ReadTiles(d, o, width, height, tx, ty, back, fore, CLIENT, acc)
         == Some((acc + MeantTiles(ss, width, height, tx, ty, back, fore), o + |RectBytes(ss, width, height, tx, ty)|))
    decreases height - ty, width - tx
  {
    hide Starts, Hextile.ReadTile, SentOk, TileBytes, MeantTile;
    if ty >= height {
      assert acc + [] == acc;
    } else if tx >= width {
      TilesRead(d, o, ss, width, height, 0, ty + 16, back, fore, acc);
    } else {
      var (w, h) := (Words.Min(16, width - tx), Words.Min(16, height - ty));
      var (bytes, more) := (TileBytes(ss[0], w, h), RectBytes(ss[1..], width, height, tx + 16, ty));
      StartsBoth(d, o, bytes, more);
      TileReads(d, o, ss[0], tx, ty, w, h, back, fore);
      var t := MeantTile(ss[0], tx, ty, w, h, back, fore);
      var (b, f) := (Hextile.Else(t.back, back), Hextile.Else(t.fore, fore));
      TilesRead(d, o + |bytes|, ss[1..], width, height, tx + 16, ty, b, f, acc + [t]);
      var rest := MeantTiles(ss[1..], width, height, tx + 16, ty, b, f);
      assert acc + [t] + rest == acc + ([t] + rest);
    }
  }

  /** A Hextile payload gives back the tiles that were sent, each with the colours the
      server had in force. */
  lemma HextileReads(d: seq<byte>, o: nat, ss: seq<Sent>, width: nat, height: nat)
    requires Covers(ss, width, height, 0, 0) && Starts(d, o, RectBytes(ss, width, height, 0, 0))
    ensures Hextile.Parse(d, o, width, height, CLIENT)
         == Some((MeantTiles(ss, width, height, 0, 0, Hextile.BLACK, Hextile.WHITE), o + |RectBytes(ss, width, height, 0, 0)|))
  {
    hide Covers, RectBytes, MeantTiles, Hextile.ReadTiles, Starts;
    TilesRead(d, o, ss, width, height, 0, 0, Hextile.BLACK, Hextile.WHITE, []);
    var tiles := MeantTiles(ss, width, height, 0, 0, Hextile.BLACK, Hextile.WHITE);
    assert [] + tiles == tiles;
  }
}
