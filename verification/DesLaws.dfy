/** What the designers of DES promise of its tables (FIPS 46-3; Coppersmith, "The Data
    Encryption Standard and its strength against attacks"), without the numbers in them. */
module DesLaws {
  import opened DesTables
  import opened Des
  import opened DesWords

  // ---- wires --------------------------------------------------------------------------------

  /** The expansion sends groups of four, each with its neighbours on both sides, in a circle. */
  lemma ExpansionForm(g: nat, k: nat)
    requires g < 8 && k < 6
    ensures |E| == 6 && InWidth(E, 32)
    ensures var p := 4 * g + k; At(E, 6 * g + k) == if p == 0 then 32 else if p == 33 then 1 else p
  {
  }

  /** Every bit leaves the boxes by a wire of its own. */
  lemma WiresPermute(i: nat, j: nat)
    requires i < j < 32
    ensures |P| == 4 && InWidth(P, 32) && At(P, i) != At(P, j)
  {
  }

  /** Columns of even bits, then columns of odd bits, each from the last byte to the first. */
  lemma InitialForm(i: nat)
    requires i < 64
    ensures |IP| == 8 && InWidth(IP, 64) && At(IP, i) == (if i < 32 then 58 + 2 * (i / 8) else 49 + 2 * (i / 8)) - 8 * (i % 8)
  {
  }

  /** The left half of the key goes up its columns from the first, the right half from the
      seventh, and the last four bits are from the fourth. */
  lemma KeyForm(i: nat)
    requires i < 56
    ensures |PC1| == 7 && InWidth(PC1, 64)
    ensures At(PC1, i) == if i < 28 then 57 + i / 8 - 8 * (i % 8) else if i < 52 then 63 - (i - 28) / 8 - 8 * ((i - 28) % 8) else 28 - 8 * (i - 52)
  {
  }

  /** Sixteen rounds turn each half of the key once round. */
  lemma OnceAround()
    ensures |ROTATIONS| == 16
    ensures ROTATIONS[0] + ROTATIONS[1] + ROTATIONS[2] + ROTATIONS[3] + ROTATIONS[4] + ROTATIONS[5] + ROTATIONS[6] + ROTATIONS[7]
            + ROTATIONS[8] + ROTATIONS[9] + ROTATIONS[10] + ROTATIONS[11] + ROTATIONS[12] + ROTATIONS[13] + ROTATIONS[14] + ROTATIONS[15] == 28
  {
  }

  // ---- boxes ---------------------------------------------------------------------------------

  predicate TwoOrMore(v: Word) { v & (v - 1) != 0 }

  /** Two inputs with the same outer bits, or with both first bits changed and neither last,
      give different numbers; those one bit or the middle two apart give numbers at least two
      bits apart. */
  predicate Criteria(i: nat, x: Word, y: Word) {
    var d := x ^ y;
    && ((d & 33 == 0 && d != 0) || d & 51 == 48 ==> Cell(i, x) != Cell(i, y))
    && (d == 1 || d == 2 || d == 4 || d == 8 || d == 16 || d == 32 || d == 12 ==> TwoOrMore(Cell(i, x) ^ Cell(i, y)))
  }

  lemma Criteria0(x: Word, y: Word) requires x < 64 && y < 64 ensures Criteria(0, x, y) { }
  lemma Criteria1(x: Word, y: Word) requires x < 64 && y < 64 ensures Criteria(1, x, y) { }
  lemma Criteria2(x: Word, y: Word) requires x < 64 && y < 64 ensures Criteria(2, x, y) { }
  lemma Criteria3(x: Word, y: Word) requires x < 64 && y < 64 ensures Criteria(3, x, y) { }
  lemma Criteria4(x: Word, y: Word) requires x < 64 && y < 64 ensures Criteria(4, x, y) { }
  lemma Criteria5(x: Word, y: Word) requires x < 64 && y < 64 ensures Criteria(5, x, y) { }
  lemma Criteria6(x: Word, y: Word) requires x < 64 && y < 64 ensures Criteria(6, x, y) { }
  lemma Criteria7(x: Word, y: Word) requires x < 64 && y < 64 ensures Criteria(7, x, y) { }

  lemma AllCriteria(i: nat, x: Word, y: Word)
    requires i < 8 && x < 64 && y < 64
    ensures Criteria(i, x, y)
  {
    hide Criteria;
    match i {
      case 0 => Criteria0(x, y);
      case 1 => Criteria1(x, y);
      case 2 => Criteria2(x, y);
      case 3 => Criteria3(x, y);
      case 4 => Criteria4(x, y);
      case 5 => Criteria5(x, y);
      case 6 => Criteria6(x, y);
      case _ => Criteria7(x, y);
    }
  }

  // ---- the same of bits ------------------------------------------------------------------------

  function Pick(b: bool, w: Word): Word { if b then w else 0 }

  function Word6(a: bool, b: bool, c: bool, d: bool, e: bool, f: bool): Word {
    Pick(a, 32) | Pick(b, 16) | Pick(c, 8) | Pick(d, 4) | Pick(e, 2) | Pick(f, 1)
  }

  /** Six bits as a word. */
  function WordOf(x: Bits): Word
    requires |x| == 6
  {
    Word6(x[0], x[1], x[2], x[3], x[4], x[5])
  }

  lemma Word6Bits(a: bool, b: bool, c: bool, d: bool, e: bool, f: bool)
    ensures var w := Word6(a, b, c, d, e, f);
            w < 64 && (Bit(w, 5) <==> a) && (Bit(w, 4) <==> b) && (Bit(w, 3) <==> c) && (Bit(w, 2) <==> d) && (Bit(w, 1) <==> e) && (Bit(w, 0) <==> f)
  {
  }

  lemma OfWord(x: Bits)
    requires |x| == 6
    ensures WordOf(x) < 64 && Of(WordOf(x), 6) == x
  {
    hide Word6, Bit;
    Word6Bits(x[0], x[1], x[2], x[3], x[4], x[5]);
  }

  function Ones(x: Bits): nat { if x == [] then 0 else B(x[0]) + Ones(x[1..]) }

  lemma OnesMore(x: Bits)
    requires |x| >= 2
    ensures Ones(x) == B(x[0]) + B(x[1]) + Ones(x[2..])
  {
    assert x[1..][1..] == x[2..];
  }

  lemma OnesOfFour(x: Bits)
    requires |x| == 4
    ensures Ones(x) == B(x[0]) + B(x[1]) + B(x[2]) + B(x[3])
  {
    OnesMore(x);
    OnesMore(x[2..]);
    assert x[2..][2..] == [];
  }

  lemma OnesOfSix(x: Bits)
    requires |x| == 6
    ensures Ones(x) == B(x[0]) + B(x[1]) + B(x[2]) + B(x[3]) + B(x[4]) + B(x[5])
  {
    OnesMore(x);
    OnesOfFour(x[2..]);
  }

  lemma OneFlip(d: Word)
    requires d < 64
    ensures Ones(Of(d, 6)) == 1 ==> d == 1 || d == 2 || d == 4 || d == 8 || d == 16 || d == 32
    ensures Of(d, 6) == [false, false, true, true, false, false] ==> d == 12
  {
    hide Ones;
    OnesOfSix(Of(d, 6));
  }

  lemma Masks(d: Word)
    ensures d & 33 == 0 <==> !Bit(d, 5) && !Bit(d, 0)
    ensures d & 51 == 48 <==> Bit(d, 5) && Bit(d, 4) && !Bit(d, 1) && !Bit(d, 0)
  {
  }

  lemma SmallWords(a: Word, b: Word)
    requires a < 64 && b < 64
    ensures a ^ b < 64 && (a ^ b == 0 ==> a == b)
  {
  }

  lemma TwoOnes(v: Word)
    requires v & 15 == v && TwoOrMore(v)
    ensures Ones(Of(v, 4)) >= 2
  {
    hide Ones;
    OnesOfFour(Of(v, 4));
  }

  lemma FourOf(v: Word)
    requires v & 15 == v
    ensures v == (if Bit(v, 3) then 8 else 0) | (if Bit(v, 2) then 4 else 0) | (if Bit(v, 1) then 2 else 0) | (if Bit(v, 0) then 1 else 0)
  {
  }

  lemma FourBits(a: Word, b: Word)
    requires a & 15 == a && b & 15 == b && Of(a, 4) == Of(b, 4)
    ensures a == b
  {
    hide Bit;
    FourOf(a);
    FourOf(b);
    assert Of(a, 4)[0] == Of(b, 4)[0] && Of(a, 4)[1] == Of(b, 4)[1] && Of(a, 4)[2] == Of(b, 4)[2] && Of(a, 4)[3] == Of(b, 4)[3];
  }

  lemma SmallXor(a: Word, b: Word)
    requires a & 15 == a && b & 15 == b
    ensures (a ^ b) & 15 == a ^ b
  {
  }

  lemma Outer(x: Bits, w: Word)
    requires x == Of(w, 6)
    ensures x[0] == Bit(w, 5) && x[1] == Bit(w, 4) && x[4] == Bit(w, 1) && x[5] == Bit(w, 0)
  {
  }

  /** Each row of a box lists sixteen different numbers; so do inputs with both first bits
      changed and neither last. */
  lemma RowsPermute(index: nat, x: Bits, y: Bits)
    requires index < 8 && |x| == |y| == 6 && x != y
    requires (x[0] == y[0] && x[5] == y[5]) || (x[0] != y[0] && x[1] != y[1] && x[4] == y[4] && x[5] == y[5])
    ensures Substitute(x, index) != Substitute(y, index)
  {
    hide Bit, Cell, Substitute, NibbleBits, Of, WordOf, Ones, TwoOrMore;
    var (a, b) := (WordOf(x), WordOf(y));
    OfWord(x);
    OfWord(y);
    SmallWords(a, b);
    SumBit(a, b, 5);
    SumBit(a, b, 4);
    SumBit(a, b, 1);
    SumBit(a, b, 0);
    Masks(a ^ b);
    Outer(x, a);
    Outer(y, b);
    AllCriteria(index, a, b);
    CellOf(index, a);
    CellOf(index, b);
    CellSmall(index, a);
    CellSmall(index, b);
    if Of(Cell(index, a), 4) == Of(Cell(index, b), 4) {
      FourBits(Cell(index, a), Cell(index, b));
    }
  }

  /** Inputs one bit apart, or apart in the middle two, give numbers at least two bits apart. */
  lemma BoxesSpread(index: nat, x: Bits, y: Bits)
    requires index < 8 && |x| == |y| == 6
    requires Ones(Xor(x, y)) == 1 || Xor(x, y) == [false, false, true, true, false, false]
    ensures Ones(Xor(NibbleBits(Substitute(x, index)), NibbleBits(Substitute(y, index)))) >= 2
  {
    hide Bit, Cell, Substitute, NibbleBits, Of, WordOf, Ones, TwoOrMore, Xor;
    var (a, b) := (WordOf(x), WordOf(y));
    OfWord(x);
    OfWord(y);
    SmallWords(a, b);
    XorOf(a, b, 6);
    OneFlip(a ^ b);
    AllCriteria(index, a, b);
    CellOf(index, a);
    CellOf(index, b);
    CellSmall(index, a);
    CellSmall(index, b);
    SmallXor(Cell(index, a), Cell(index, b));
    XorOf(Cell(index, a), Cell(index, b), 4);
    TwoOnes(Cell(index, a) ^ Cell(index, b));
  }
}
