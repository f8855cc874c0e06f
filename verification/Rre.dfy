/** RRE and CoRRE rectangles (section 7.7.3 of RFC 6143): a background and a list of
    subrectangles, painted in order. */
module Rre {
  import opened Options
  import opened Words
  import opened Pixels

  datatype Sub = Sub(x: nat, y: nat, w: nat, h: nat, c: Rgba)

  /** The number in n bytes, most significant first. */
  function Num(d: seq<byte>, o: nat, n: nat): nat
    requires o + n <= |d|
  {
    if n == 0 then 0 else Append(Num(d, o, n - 1), d[o + n - 1])
  }

  /** A colour and four coordinates of k bytes each: k is 2 for RRE and 1 for CoRRE. */
  function SubSize(f: Format, k: nat): nat {
    BytesPerPixel(f) + 4 * k
  }

  function SubAt(d: seq<byte>, o: nat, f: Format, k: nat): (r: Sub)
    requires o + SubSize(f, k) <= |d|
    ensures r.c.a == 255
  {
    var p := o + BytesPerPixel(f);
    Sub(Num(d, p, k), Num(d, p + k, k), Num(d, p + 2 * k, k), Num(d, p + 3 * k, k), PixelAt(d, o, f).value)
  }

  /** Where n subrectangles from o on end. */
  function SubsEnd(o: nat, n: nat, f: Format, k: nat): (e: nat)
    ensures e >= o
  {
    o + n * SubSize(f, k)
  }

  function Subs(d: seq<byte>, o: nat, n: nat, f: Format, k: nat): (r: seq<Sub>)
    requires o + n * SubSize(f, k) <= |d|
    ensures |r| == n && forall i :: 0 <= i < n ==> r[i].c.a == 255
  {
    if n == 0 then []
    else
      assert (n - 1) * SubSize(f, k) + SubSize(f, k) == n * SubSize(f, k);
      Subs(d, o, n - 1, f, k) + [SubAt(d, o + (n - 1) * SubSize(f, k), f, k)]
  }

  datatype Picture = Picture(background: Rgba, subs: seq<Sub>, consumed: nat)

  /** The payload at o, or nothing when it is not all there. */
  function Parse(d: seq<byte>, o: nat, f: Format, k: nat): (r: Option<Picture>)
    ensures r.Some? ==> r.value.consumed > 0 && o + r.value.consumed <= |d|
  {
    var start := o + 4 + BytesPerPixel(f);
    if |d| < start then None
    else
      var n := Num(d, o, 4);
      if |d| < SubsEnd(start, n, f, k) then None
      else Some(Picture(PixelAt(d, o + 4, f).value, Subs(d, start, n, f, k), SubsEnd(start, n, f, k) - o))
  }

  // ---- painting ---------------------------------------------------------------------

  function PaintSubs(s: Surface, width: nat, subs: seq<Sub>): (r: Surface)
    ensures |r| == |s|
  {
    if subs == [] then s
    else
      var u := subs[|subs| - 1];
      Fill(PaintSubs(s, width, subs[..|subs| - 1]), width, u.x, u.y, u.w, u.h, u.c)
  }

  function Image(width: nat, height: nat, p: Picture): Surface {
    PaintSubs(Fill(Blank(width * height), width, 0, 0, width, height, p.background), width, p.subs)
  }

  /** `parseRreRect` for k = 2 and `parseCoRreRect` for k = 1. Once the length check has
      passed, no pixel read in the loop can be missing. */
  method ParseRect(d: seq<byte>, offset: nat, width: nat, height: nat, f: Format, k: nat)
      returns (consumed: Option<nat>, rgba: array<Rgba>)
    ensures fresh(rgba)
    ensures match Parse(d, offset, f, k)
            case None => consumed == None
            case Some(p) => consumed == Some(p.consumed) && rgba[..] == Image(width, height, p)
  {
    hide Fill, PixelAt, Num, SubsEnd, PaintSubs, Subs;
    rgba := new Rgba[width * height](_ => CLEAR);
    assert rgba[..] == Blank(width * height);
    var bytesPerPixel := BytesPerPixel(f);
    if |d| < offset + 4 + bytesPerPixel {
      return None, rgba;
    }
    var count := Num(d, offset, 4);
    var cursor := offset + 4;
    var background := PixelAt(d, cursor, f);
    cursor := cursor + bytesPerPixel;
    if |d| < SubsEnd(cursor, count, f, k) {
      return None, rgba;
    }
    FillRgbaRect(rgba, width, 0, 0, width, height, background.value);
    PaintLoop(d, cursor, count, f, k, rgba, width);
    consumed := Some(SubsEnd(cursor, count, f, k) - offset);
  }

  /** The loop over the subrectangles. */
  method PaintLoop(d: seq<byte>, start: nat, count: nat, f: Format, k: nat, rgba: array<Rgba>, width: nat)
    requires SubsEnd(start, count, f, k) <= |d|
    modifies rgba
    ensures rgba[..] == PaintSubs(old(rgba[..]), width, Subs(d, start, count, f, k))
  {
    hide Fill, PixelAt, Num, SubSize, PaintSubs, Subs, SubAt;
    ghost var base := rgba[..];
    var cursor := start;
    PaintNothing(d, start, f, k, base, width);
    for i := 0 to count
      invariant cursor == start + i * SubSize(f, k) <= SubsEnd(start, count, f, k)
      invariant rgba[..] == PaintSubs(base, width, Subs(d, start, i, f, k))
    {
      MoreSubs(i, count, SubSize(f, k));
      PaintOneMore(d, start, i, f, k, base, width);
      var u := SubAt(d, cursor, f, k);
      FillRgbaRect(rgba, width, u.x, u.y, u.w, u.h, u.c);
      cursor := cursor + SubSize(f, k);
    }
  }

  lemma PaintNothing(d: seq<byte>, o: nat, f: Format, k: nat, s: Surface, width: nat)
    requires o <= |d|
    ensures PaintSubs(s, width, Subs(d, o, 0, f, k)) == s
  {
  }

  lemma PaintOneMore(d: seq<byte>, o: nat, i: nat, f: Format, k: nat, s: Surface, width: nat)
    requires o + i * SubSize(f, k) + SubSize(f, k) <= |d| && (i + 1) * SubSize(f, k) == i * SubSize(f, k) + SubSize(f, k)
    ensures var u := SubAt(d, o + i * SubSize(f, k), f, k);
            var before := PaintSubs(s, width, Subs(d, o, i, f, k));
            PaintSubs(s, width, Subs(d, o, i + 1, f, k)) == Fill(before, width, u.x, u.y, u.w, u.h, u.c)
  {
    hide Fill, PixelAt, Num, SubSize, SubAt;
    var subs := Subs(d, o, i + 1, f, k);
    assert subs[..i] == Subs(d, o, i, f, k);
  }

  lemma MoreSubs(i: nat, n: nat, size: nat)
    requires i < n
    ensures (i + 1) * size == i * size + size <= n * size
  {
    assert (n - i - 1) * size >= 0;
    assert n * size == i * size + size + (n - i - 1) * size;
  }

  // ---- meaning ------------------------------------------------------------------------

  /** The colour of the last subrectangle over a pixel, else the background. */
  function Top(subs: seq<Sub>, background: Rgba, px: nat, py: nat): Rgba {
    if subs == [] then background
    else
      var u := subs[|subs| - 1];
      if Inside(u.x, u.y, u.w, u.h, px, py) then u.c else Top(subs[..|subs| - 1], background, px, py)
  }

  lemma {:induction false} TopIsLast(subs: seq<Sub>, background: Rgba, px: nat, py: nat, i: nat)
    requires i <= |subs|
    requires i < |subs| ==> Inside(subs[i].x, subs[i].y, subs[i].w, subs[i].h, px, py)
    requires forall j :: 0 <= j < |subs| && (j > i || i == |subs|) ==>
               !Inside(subs[j].x, subs[j].y, subs[j].w, subs[j].h, px, py)
    ensures Top(subs, background, px, py) == if i < |subs| then subs[i].c else background
    decreases |subs|
  {
    if subs != [] && i != |subs| - 1 {
      TopIsLast(subs[..|subs| - 1], background, px, py, if i < |subs| then i else |subs| - 1);
    }
  }

  predicate InColumns(subs: seq<Sub>, width: nat) {
    forall i :: 0 <= i < |subs| ==> subs[i].x + subs[i].w <= width
  }

  lemma {:induction false} PaintedAt(s: Surface, width: nat, subs: seq<Sub>, px: nat, py: nat)
    requires InColumns(subs, width) && px < width && py * width + px < |s|
    ensures PaintSubs(s, width, subs)[py * width + px] == Top(subs, s[py * width + px], px, py)
  {
    hide Fill;
    if subs == [] {
    } else {
      var u, front := subs[|subs| - 1], subs[..|subs| - 1];
      PaintedAt(s, width, front, px, py);
      FillAt(PaintSubs(s, width, front), width, u.x, u.y, u.w, u.h, u.c, px, py);
    }
  }

  lemma {:induction false} PaintedOpaque(s: Surface, width: nat, subs: seq<Sub>)
    requires Opaque(s) && forall i :: 0 <= i < |subs| ==> subs[i].c.a == 255
    ensures Opaque(PaintSubs(s, width, subs))
  {
    hide Fill;
    if subs == [] {
    } else {
      var u, front := subs[|subs| - 1], subs[..|subs| - 1];
      PaintedOpaque(s, width, front);
      FillOpaque(PaintSubs(s, width, front), width, u.x, u.y, u.w, u.h, u.c);
    }
  }

  /** What an accepted payload shows: when no subrectangle crosses the right edge, each
      pixel has the colour of the last one over it, else the background; and in any case
      every pixel is painted opaque. */
  lemma ImageMeaning(d: seq<byte>, o: nat, width: nat, height: nat, f: Format, k: nat)
    requires Parse(d, o, f, k).Some?
    ensures var p := Parse(d, o, f, k).value; var s := Image(width, height, p);
            && |s| == width * height && Opaque(s)
            && (InColumns(p.subs, width) ==>
                  forall px, py :: 0 <= px < width && 0 <= py < height ==>
                    PixelOf(s, width, px, py) == Some(Top(p.subs, p.background, px, py)))
  {
    hide Fill, Subs, PixelAt, Num, Top;
    var p := Parse(d, o, f, k).value;
    var base := Fill(Blank(width * height), width, 0, 0, width, height, p.background);
    FillAll(Blank(width * height), width, height, p.background);
    assert Opaque(base);
    PaintedOpaque(base, width, p.subs);
    if InColumns(p.subs, width) {
      forall px, py | 0 <= px < width && 0 <= py < height
        ensures PixelOf(Image(width, height, p), width, px, py) == Some(Top(p.subs, p.background, px, py))
      {
        PixelIndex(width, height, px, py);
        PaintedAt(base, width, p.subs, px, py);
      }
    }
  }

  function PixelOf(s: Surface, width: nat, px: nat, py: nat): Option<Rgba> {
    if py * width + px < |s| then Some(s[py * width + px]) else None
  }

  // ---- more bytes behind the payload ------------------------------------------------------

  lemma {:induction false} NumStable(d: seq<byte>, e: seq<byte>, o: nat, n: nat)
    requires d <= e && o + n <= |d|
    ensures Num(d, o, n) == Num(e, o, n)
  {
    if n == 0 {
    } else {
      NumStable(d, e, o, n - 1);
    }
  }

  lemma PixelStable(d: seq<byte>, e: seq<byte>, o: nat, f: Format)
    requires d <= e && o + BytesPerPixel(f) <= |d|
    ensures PixelAt(d, o, f) == PixelAt(e, o, f)
  {
    hide Colour;
    assert forall i :: 0 <= i < |d| ==> d[i] == e[i];
  }

  lemma {:induction false} SubsStable(d: seq<byte>, e: seq<byte>, o: nat, n: nat, f: Format, k: nat)
    requires d <= e && o + n * SubSize(f, k) <= |d|
    ensures Subs(d, o, n, f, k) == Subs(e, o, n, f, k)
  {
    hide PixelAt, Num;
    if n == 0 {
    } else {
      MoreSubs(n - 1, n, SubSize(f, k));
      SubsStable(d, e, o, n - 1, f, k);
      var p := o + (n - 1) * SubSize(f, k);
      PixelStable(d, e, p, f);
      var q := p + BytesPerPixel(f);
      NumStable(d, e, q, k);
      NumStable(d, e, q + k, k);
      NumStable(d, e, q + 2 * k, k);
      NumStable(d, e, q + 3 * k, k);
    }
  }

  /** An accepted payload is the same whatever arrives behind it. */
  lemma ParseStable(d: seq<byte>, e: seq<byte>, o: nat, f: Format, k: nat)
    requires d <= e && Parse(d, o, f, k).Some?
    ensures Parse(e, o, f, k) == Parse(d, o, f, k)
  {
    hide PixelAt, Subs;
    NumStable(d, e, o, 4);
    PixelStable(d, e, o + 4, f);
    SubsStable(d, e, o + 4 + BytesPerPixel(f), Num(d, o, 4), f, k);
  }
}
