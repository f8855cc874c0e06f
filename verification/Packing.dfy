/** Small numbers packed into bytes row by row, the first in the highest bits and every row
    in whole bytes: the indices of a packed tile and the mask of a cursor. */
module Packing {
  import opened Words
  import Zrle

  /** Numbers of the same width put together, the first the highest. */
  function Cells(v: seq<nat>, bits: nat): nat {
    if v == [] then 0 else Shl(Cells(v[..|v| - 1], bits), bits) + v[|v| - 1]
  }

  predicate Narrow(v: seq<nat>, bits: nat) { forall i :: 0 <= i < |v| ==> v[i] < Pow2(bits) }

  lemma {:induction false} CellsShr(v: seq<nat>, bits: nat, n: nat)
    requires Narrow(v, bits) && n <= |v|
    ensures Shr(Cells(v, bits), n * bits) == Cells(v[..|v| - n], bits)
    decreases n
  {
    hide Shr, Shl, Pow2, Cells;
    if n == 0 {
      ShrNone(Cells(v, bits));
      assert v[..|v|] == v;
    } else {
      var front := v[..|v| - 1];
      CellsLast(v, bits);
      CellsShr(front, bits, n - 1);
      ShrShr(Cells(v, bits), bits, (n - 1) * bits);
      Times(n, bits);
      assert front[..|front| - (n - 1)] == v[..|v| - n];
    }
  }

  lemma Times(n: nat, m: nat)
    requires n > 0
    ensures m + (n - 1) * m == n * m
  {
  }

  lemma ShrNone(x: nat)
    ensures Shr(x, 0) == x
  {
  }

  /** Taking the last one off. */
  lemma CellsLast(v: seq<nat>, bits: nat)
    requires Narrow(v, bits) && v != []
    ensures Shr(Cells(v, bits), bits) == Cells(v[..|v| - 1], bits) && Low(Cells(v, bits), bits) == v[|v| - 1]
  {
    Join(v[|v| - 1], Cells(v[..|v| - 1], bits), bits);
  }

  /** Each number is found at its place. */
  lemma CellOf(v: seq<nat>, bits: nat, i: nat)
    requires Narrow(v, bits) && i < |v|
    ensures Low(Shr(Cells(v, bits), (|v| - 1 - i) * bits), bits) == v[i]
  {
    hide Shr, Shl, Pow2, Cells, Low;
    CellsShr(v, bits, |v| - 1 - i);
    assert |v| - (|v| - 1 - i) == i + 1;
    CellsLast(v[..i + 1], bits);
  }

  lemma {:induction false} CellsFit(v: seq<nat>, bits: nat)
    requires Narrow(v, bits)
    ensures Cells(v, bits) < Pow2(|v| * bits)
    decreases |v|
  {
    if v == [] {
    } else {
      var front := Cells(v[..|v| - 1], bits);
      CellsFit(v[..|v| - 1], bits);
      Times(|v|, bits);
      NextFits(front, v[|v| - 1], (|v| - 1) * bits, bits);
    }
  }

  lemma NextFits(x: nat, y: nat, m: nat, n: nat)
    requires x < Pow2(m) && y < Pow2(n)
    ensures Shl(x, n) + y < Pow2(n + m)
  {
    ShlMono(x + 1, Pow2(m), n);
    ShlMono(x, x + 1, n);
    ShlShl(1, m, n);
  }

  // ---- bytes and rows ---------------------------------------------------------------------

  /** How many of them a byte holds. */
  function Slots(bits: nat): (n: nat)
    requires bits in {1, 2, 4}
    ensures n > 0
  {
    if bits == 1 then 8 else if bits == 2 then 4 else 2
  }

  /** What one byte of a row holds, zeros beyond the row. */
  function Slice(v: seq<nat>, bits: nat, w: nat, row: nat, column: nat): (r: seq<nat>)
    requires bits in {1, 2, 4}
    ensures |r| == Slots(bits)
  {
    seq<nat>(Slots(bits), j requires 0 <= j < Slots(bits) => Entry(v, w, row, Slots(bits) * column + j))
  }

  function Entry(v: seq<nat>, w: nat, row: nat, x: nat): nat {
    if x < w && row * w + x < |v| then v[row * w + x] else 0
  }

  lemma SliceNarrow(v: seq<nat>, bits: nat, w: nat, row: nat, column: nat)
    requires bits in {1, 2, 4} && Narrow(v, bits)
    ensures Narrow(Slice(v, bits, w, row, column), bits)
  {
    hide Pow2;
    Pow2Values();
    forall j | 0 <= j < Slots(bits) ensures Slice(v, bits, w, row, column)[j] < Pow2(bits) {
      var x := Slots(bits) * column + j;
      assert Slice(v, bits, w, row, column)[j] == Entry(v, w, row, x);
    }
  }

  function CellByte(v: seq<nat>, bits: nat, w: nat, row: nat, column: nat): byte
    requires bits in {1, 2, 4} && Narrow(v, bits)
  {
    hide Cells, Shl, Pow2, Slice;
    SliceNarrow(v, bits, w, row, column);
    CellsFit(Slice(v, bits, w, row, column), bits);
    Pow2Values();
    Cells(Slice(v, bits, w, row, column), bits)
  }

  function Line(v: seq<nat>, bits: nat, w: nat, row: nat): (r: seq<byte>)
    requires bits in {1, 2, 4} && Narrow(v, bits)
    ensures |r| == Zrle.RowBytes(w, bits)
  {
    seq(Zrle.RowBytes(w, bits), c requires 0 <= c < Zrle.RowBytes(w, bits) => CellByte(v, bits, w, row, c))
  }

  function Rows(v: seq<nat>, bits: nat, w: nat, h: nat): seq<byte>
    requires bits in {1, 2, 4} && Narrow(v, bits)
  {
    if h == 0 then [] else Rows(v, bits, w, h - 1) + Line(v, bits, w, h - 1)
  }

  lemma {:induction false} RowsLength(v: seq<nat>, bits: nat, w: nat, h: nat)
    requires bits in {1, 2, 4} && Narrow(v, bits)
    ensures |Rows(v, bits, w, h)| == h * Zrle.RowBytes(w, bits)
    decreases h
  {
    hide Line, Zrle.RowBytes, Narrow;
    if h == 0 {
    } else {
      RowsLength(v, bits, w, h - 1);
      Times(h, Zrle.RowBytes(w, bits));
    }
  }

  lemma {:induction false} RowsAt(v: seq<nat>, bits: nat, w: nat, h: nat, row: nat, column: nat)
    requires bits in {1, 2, 4} && Narrow(v, bits) && row < h && column < Zrle.RowBytes(w, bits)
    ensures row * Zrle.RowBytes(w, bits) + column < |Rows(v, bits, w, h)|
    ensures Rows(v, bits, w, h)[row * Zrle.RowBytes(w, bits) + column] == CellByte(v, bits, w, row, column)
    decreases h
  {
    hide CellByte, Zrle.RowBytes, Narrow;
    var n := Zrle.RowBytes(w, bits);
    RowsLength(v, bits, w, h - 1);
    if row < h - 1 {
      RowsAt(v, bits, w, h - 1, row, column);
    }
  }

  /** Where a number lies: its byte in the row and its place in the byte. */
  lemma Located(bits: nat, w: nat, column: nat)
    requires bits in {1, 2, 4} && column < w
    ensures var (b, i) := (column / Slots(bits), column % Slots(bits));
            && b == column * bits / 8 && b < Zrle.RowBytes(w, bits)
            && (Slots(bits) - 1 - i) * bits == 8 - bits - column * bits % 8 && Slots(bits) * b + i == column
  {
    if bits == 1 {
    } else if bits == 2 {
    } else {
    }
  }

  /** Every number is read back from its row and column. */
  lemma CellReads(v: seq<nat>, bits: nat, w: nat, h: nat, row: nat, column: nat)
    requires bits in {1, 2, 4} && Narrow(v, bits) && row < h && column < w && row * w + column < |v|
    ensures var i := row * Zrle.RowBytes(w, bits) + column * bits / 8;
            && i < |Rows(v, bits, w, h)| && 8 - bits - column * bits % 8 >= 0
            && Low(Shr(Rows(v, bits, w, h)[i], 8 - bits - column * bits % 8), bits) == v[row * w + column]
  {
    hide Rows, Cells, Shr, Low, Shl, Pow2, Narrow, Zrle.RowBytes, Slots;
    var (b, k) := (column / Slots(bits), column % Slots(bits));
    Located(bits, w, column);
    RowsAt(v, bits, w, h, row, b);
    var s := Slice(v, bits, w, row, b);
    SliceNarrow(v, bits, w, row, b);
    CellOf(s, bits, k);
    assert s[k] == Entry(v, w, row, column);
  }
}
