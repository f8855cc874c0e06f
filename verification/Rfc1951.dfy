/** The numbers of DEFLATE that reader and writer share, each as RFC 1951 gives it and
    without naming the tables they are taken from, and a stream of another encoder. */
module Rfc1951 {
  import opened Words
  import opened Huffman
  import opened BitStream
  import opened Fields
  import opened Tokens
  import opened Inflate
  import opened Blocks
  import opened Header
  import opened Stream
  import C = CodeLengths

  // ---- the third code, section 3.2.7 -------------------------------------------------

  /** Where the length of a code-length symbol stands: 16, 17, 18 and 0 come first, then
      those from 8 up and those from 7 down take turns. */
  function PlaceOf(s: nat): (i: nat)
    requires s < 19
  {
    if s >= 16 then s - 16 else if s == 0 then 3 else if s >= 8 then 4 + 2 * (s - 8) else 5 + 2 * (7 - s)
  }

  /** Both tables say so. */
  lemma PlaceIs(s: nat)
    requires s < 19
    ensures |ORDER| == |PLACE| == 19 && PLACE[s] == PlaceOf(s) < 19 && ORDER[PlaceOf(s)] == s
  {
  }

  /** What the reader takes for the third code when n lengths were sent from pos. */
  lemma ThirdPlaces(dat: seq<byte>, pos: nat, n: nat, s: nat)
    requires s < 19
    ensures ThirdCode(dat, pos, n)[s] == if PlaceOf(s) < n then Bits(dat, pos + 3 * PlaceOf(s), 3) else 0
  {
    hide Bits;
    PlaceIs(s);
  }

  lemma {:induction false} OrderAt(clt: Lengths, i: nat, n: nat, k: nat)
    requires |clt| == 19 && i <= k < n <= 19
    ensures |OrderFields(clt, i, n)| == n - i && ORDER[k] < 19 && OrderFields(clt, i, n)[k - i] == Field(clt[ORDER[k]], 3)
    decreases n - i
  {
    OrderPlace(k);
    if i < k {
      OrderAt(clt, i + 1, n, k);
    } else {
      OrderCount(clt, i, n);
    }
  }

  lemma {:induction false} OrderCount(clt: Lengths, i: nat, n: nat)
    requires |clt| == 19 && i <= n <= 19
    ensures |OrderFields(clt, i, n)| == n - i
    decreases n - i
  {
    if i < n {
      OrderCount(clt, i + 1, n);
    }
  }

  /** What the writer sends: three counts, then the length of every symbol at its place;
      what is not sent is zero. */
  lemma HeaderPlaces(h: Plan, s: nat)
    requires PlanOk(h) && s < 19
    ensures var fs := HeaderFields(h);
            && |fs| == 3 + h.nlcc + |WordFields(h.ws, h.clt)|
            && fs[..3] == [Field(|h.c.ll| - 257, 5), Field(|h.c.dl| - 1, 5), Field(h.nlcc - 4, 4)]
            && (PlaceOf(s) < h.nlcc ==> fs[3 + PlaceOf(s)] == Field(h.clt[s], 3))
            && (PlaceOf(s) >= h.nlcc ==> h.clt[s] == 0)
  {
    hide KraftSum, MaxOf, C.Expand, WordFields, CodesOk, WordsCodable, OrderFields;
    PlaceIs(s);
    OrderPlace(s);
    OrderCount(h.clt, 0, h.nlcc);
    if PlaceOf(s) < h.nlcc {
      OrderAt(h.clt, 0, h.nlcc, PlaceOf(s));
    }
  }

  // ---- the fixed codes, section 3.2.6 ---------------------------------------------------

  /** The bits and the code of a literal or length, as the table lists them. */
  function FixedCode(s: nat): (nat, nat)
    requires s < 288
  {
    if s < 144 then (8, 0x30 + s)
    else if s < 256 then (9, 0x190 + (s - 144))
    else if s < 280 then (7, s - 256)
    else (8, 0xC0 + (s - 280))
  }

  lemma {:induction false} CountRun(L: Lengths, len: nat, a: nat, b: nat, x: nat)
    requires a <= b <= |L| && forall i :: a <= i < b ==> L[i] == x
    ensures Count(L, len, b) == Count(L, len, a) + if x == len then b - a else 0
  {
    if a < b {
      CountRun(L, len, a, b - 1, x);
    }
  }

  lemma FixedCounts(len: nat, k: nat)
    requires k <= 288
    ensures |FixedLengths()| == 288
    ensures Count(FixedLengths(), len, k)
            == (if len == 8 then (if k <= 144 then k else 144) + (if k <= 280 then 0 else k - 280)
                else if len == 9 then if k <= 144 then 0 else if k <= 256 then k - 144 else 112
                else if len == 7 then if k <= 256 then 0 else if k <= 280 then k - 256 else 24
                else 0)
  {
    var L := FixedLengths();
    assert Count(L, len, 0) == 0;
    if k <= 144 {
      CountRun(L, len, 0, k, 8);
    } else {
      CountRun(L, len, 0, 144, 8);
      if k <= 256 {
        CountRun(L, len, 144, k, 9);
      } else {
        CountRun(L, len, 144, 256, 9);
        if k <= 280 {
          CountRun(L, len, 256, k, 7);
        } else {
          CountRun(L, len, 256, 280, 7);
          CountRun(L, len, 280, k, 8);
        }
      }
    }
  }

  lemma FirstNext(L: Lengths, len: nat)
    requires len < 15
    ensures FirstCode16(L, 0) == FirstCode16(L, 1) == 0
    ensures len >= 1 ==> FirstCode16(L, len + 1) == 2 * (FirstCode16(L, len) + Count(L, len, |L|) % 65536) % 65536
  {
  }

  lemma {:induction false} NoneShorter(L: Lengths, len: nat)
    requires 1 <= len <= 15 && forall k :: 1 <= k < len ==> Count(L, k, |L|) == 0
    ensures FirstCode16(L, len) == 0
  {
    hide Count;
    if len > 1 {
      NoneShorter(L, len - 1);
    }
  }

  lemma FixedFirst()
    ensures var L := FixedLengths(); FirstCode16(L, 7) == 0 && FirstCode16(L, 8) == 0x30 && FirstCode16(L, 9) == 0x190
  {
    hide FixedLengths, Count, FirstCode16;
    forall k | 1 <= k < 7 ensures Count(FixedLengths(), k, |FixedLengths()|) == 0 {
      FixedCounts(k, 288);
    }
    NoneShorter(FixedLengths(), 7);
    FixedCounts(7, 288);
    FixedCounts(8, 288);
    FirstNext(FixedLengths(), 7);
    FirstNext(FixedLengths(), 8);
  }

  /** A code of all symbols is sent first bit first. */
  lemma SentFirst(L: Lengths, s: nat)
    requires s < |L| && 0 < L[s] <= 15 && Code16(L, s) < Pow2(L[s])
    ensures Symbol(L, s) == Field(Rev(L[s], Code16(L, s)), L[s])
  {
    hide Rev, Code16, Shr, Pow2;
    Pow2Mono(L[s], 15);
    Pow2Values();
    RevNarrow(15, L[s], Code16(L, s));
  }

  lemma FixedAt(s: nat)
    requires s < 288
    ensures |FixedLengths()| == 288 && FixedLengths()[s] == FixedCode(s).0
  {
  }

  lemma CodeFrom(L: Lengths, s: nat, first: nat, n: nat)
    requires s < |L| && FirstCode16(L, L[s]) == first && Count(L, L[s], s) == n && first + n < 65536
    ensures Code16(L, s) == first + n
  {
  }

  lemma FixedSymbols(s: nat)
    requires s < 288
    ensures |FixedLengths()| == 288
    ensures var (bits, code) := FixedCode(s);
            FixedLengths()[s] == bits && Code16(FixedLengths(), s) == code && Symbol(FixedLengths(), s) == Field(Rev(bits, code), bits)
  {
    hide FixedLengths, Count, FirstCode16, Code16, Symbol, Pow2, Rev;
    var (bits, code) := FixedCode(s);
    var first := if bits == 7 then 0 else if bits == 8 then 0x30 else 0x190;
    FixedAt(s);
    FixedFirst();
    FixedCounts(bits, s);
    CodeFrom(FixedLengths(), s, first, code - first);
    Pow2Values();
    SentFirst(FixedLengths(), s);
  }

  lemma FixedDistanceCounts(len: nat, k: nat)
    requires k <= 32
    ensures |FixedDistances()| == 32
    ensures Count(FixedDistances(), len, k) == if len == 5 then k else 0
  {
    assert Count(FixedDistances(), len, 0) == 0;
    CountRun(FixedDistances(), len, 0, k, 5);
  }

  lemma FixedDistanceSymbols(s: nat)
    requires s < 32
    ensures |FixedDistances()| == 32 && FixedDistances()[s] == 5 && Symbol(FixedDistances(), s) == Field(Rev(5, s), 5)
  {
    hide Symbol, FirstCode16, Count, Code16, Pow2, Rev;
    var L := FixedDistances();
    FixedDistanceFirst();
    FixedDistanceCounts(5, s);
    CodeFrom(L, s, 0, s);
    Pow2Values();
    SentFirst(L, s);
  }

  lemma FixedDistanceFirst()
    ensures FirstCode16(FixedDistances(), 5) == 0
  {
    hide FirstCode16, Count, FixedDistances;
    forall k | 1 <= k < 5 ensures Count(FixedDistances(), k, |FixedDistances()|) == 0 {
      FixedDistanceCounts(k, 32);
    }
    NoneShorter(FixedDistances(), 5);
  }

  // ---- lengths and distances, section 3.2.5 ------------------------------------------------

  /** Length code 257 + k: eight codes of one length each, then four codes with every number of
      extra bits from one to five, and the longest length on its own. */
  lemma LengthCodes(k: nat)
    requires k <= 28
    ensures (LengthBase(k), LengthExtra(k))
         == if k < 8 then (3 + k, 0) else if k == 28 then (258, 0) else (3 + (4 + k % 4) * Pow2(k / 4 - 1), k / 4 - 1)
  {
    hide Pow2, Base;
    if 8 <= k < 28 {
      LengthGroup(k / 4);
      LengthInGroup(k / 4, k % 4);
    } else if k < 8 {
      LengthStart(k);
    }
  }

  lemma {:induction false} LengthStart(k: nat)
    requires k <= 8
    ensures Base(LengthTable(), 2, k) == 3 + k
  {
    Pow2Values();
    if k > 0 {
      LengthStart(k - 1);
    }
  }

  lemma {:induction false} LengthGroup(g: nat)
    requires 2 <= g <= 7
    ensures Base(LengthTable(), 2, 4 * g) == 3 + 4 * Pow2(g - 1)
  {
    hide Pow2, Base;
    if g == 2 {
      LengthStart(8);
      Pow2Values();
    } else {
      LengthGroup(g - 1);
      BaseFour(LengthTable(), 2, 4 * (g - 1), g - 2);
      Pow2Next(g - 2);
    }
  }

  lemma {:induction false} LengthInGroup(g: nat, j: nat)
    requires 2 <= g < 7 && j < 4
    ensures Base(LengthTable(), 2, 4 * g + j) == Base(LengthTable(), 2, 4 * g) + j * Pow2(g - 1)
  {
    hide Pow2;
    if j > 0 {
      LengthInGroup(g, j - 1);
    }
  }

  /** Distance code k: four codes of one distance each, then two with every number of extra
      bits from one to thirteen. */
  lemma DistCodes(k: nat)
    requires k < 30
    ensures (DistBase(k), DistExtra(k)) == if k < 4 then (1 + k, 0) else (1 + (2 + k % 2) * Pow2(k / 2 - 1), k / 2 - 1)
  {
    hide Pow2, Base;
    if k < 4 {
      DistStart(k);
    } else {
      DistGroup(k / 2);
      if k % 2 == 1 {
        BaseNext(DistTable(), 0, k);
      }
    }
  }

  lemma {:induction false} DistStart(k: nat)
    requires k <= 4
    ensures Base(DistTable(), 0, k) == 1 + k
  {
    Pow2Values();
    if k > 0 {
      DistStart(k - 1);
    }
  }

  lemma {:induction false} DistGroup(g: nat)
    requires 2 <= g <= 15
    ensures Base(DistTable(), 0, 2 * g) == 1 + 2 * Pow2(g - 1)
  {
    hide Pow2, Base;
    if g == 2 {
      DistStart(4);
      Pow2Values();
    } else {
      DistGroup(g - 1);
      BaseTwo(DistTable(), 0, 2 * (g - 1), g - 2);
      Pow2Next(g - 2);
    }
  }

  // ---- repeated lengths, section 3.2.7 --------------------------------------------------------

  /** The first length a symbol can stand for, and the last. */
  function Repeats(sym: nat): (nat, nat) {
    if sym == 16 then (3, 6) else if sym == 17 then (3, 10) else if sym == 18 then (11, 138) else (1, 1)
  }

  /** What a code-length symbol adds to the lengths before it: as many as its extra bits say,
      which reach every number in its range, all of them the length before, zero, or itself. */
  lemma RepeatsMeaning(acc: seq<nat>, sym: nat, extra: nat)
    requires sym <= 18 && extra < Pow2(C.ReadBits(sym))
    ensures var (least, most) := Repeats(sym);
            var r := C.Append(acc, sym, extra);
            && acc <= r && |r| == |acc| + least + extra && least + extra <= most == least + Pow2(C.ReadBits(sym)) - 1
            && forall i :: |acc| <= i < |r| ==> r[i] == if sym < 16 then sym else if sym == 16 && acc != [] then acc[|acc| - 1] else 0
  {
    hide Pow2;
    Pow2Values();
  }

  // ---- stored blocks, section 3.2.4 --------------------------------------------------------------

  /** A stored block as it lies in the buffer: from the next whole byte behind its three bits the
      length, low byte first, the same with every bit turned over, and the data. */
  lemma StoredBytes(dat: seq<byte>, p: nat, data: seq<byte>, m: nat, final: bool, rest: seq<Field>)
    requires |data| < 65536 && Holds(dat, p, BlockFields(Stored(data), m, final, p) + rest)
    ensures Bits(dat, p, 1) == (if final then 1 else 0) && Bits(dat, p + 1, 2) == 0
    ensures var (a, lo, hi) := ((p + 10) / 8, |data| % 256, |data| / 256);
            && a + 4 + |data| <= |dat|
            && dat[a] == lo && dat[a + 1] == hi && dat[a + 2] == 255 - lo && dat[a + 3] == 255 - hi
            && dat[a + 4..a + 4 + |data|] == data
  {
    hide Holds, Bits, Shl, Shr, Low, ByteFields, Pow2;
    Pow2Values();
    var (a, n) := (Shft(p + 3), |data|);
    var (f, k) := (Field(Bit(final), 1), Field(0, 2));
    var (pad, len, inv) := (Field(0, 8 * a - p - 3), Field(n, 16), Field(65535 - n, 16));
    var tail := ByteFields(data) + rest;
    assert BlockFields(Stored(data), m, final, p) + rest == [f] + ([k] + ([pad] + ([len] + ([inv] + tail))));
    KindReads(dat, p, final, 0, [pad] + ([len] + ([inv] + tail)));
    Pow2Mono(0, 8 * a - p - 3);
    HoldsNext(dat, p + 3, pad, [len] + ([inv] + tail));
    InBounds(dat, 8 * a, [len] + ([inv] + tail));
    WordRead(dat, a, n, [inv] + tail);
    InBounds(dat, 8 * a + 16, [inv] + tail);
    WordRead(dat, a + 2, 65535 - n, tail);
    InBounds(dat, 8 * a + 32, tail);
    BytesRead(dat, a + 4, data, rest);
  }

  // ---- a stream of another encoder ------------------------------------------------------------

  lemma NumFirst(v: nat, w: nat, fs: seq<Field>, n: nat)
    requires Num(fs) == n
    ensures Num([Field(v, w)] + fs) == v + Shl(n, w) && Width([Field(v, w)] + fs) == w + Width(fs)
    ensures Shl(n, 1) == 2 * n && Shl(n, 2) == 4 * n && Shl(n, 7) == 128 * n && Shl(n, 8) == 256 * n
  {
    hide Shl;
    assert ([Field(v, w)] + fs)[1..] == fs;
    ShlSteps(n);
  }

  lemma ShlSteps(n: nat)
    ensures Shl(n, 1) == 2 * n && Shl(n, 2) == 4 * n && Shl(n, 7) == 128 * n && Shl(n, 8) == 256 * n
  {
    hide Shl;
    ShlOne(n);
    ShlOne(2 * n);
    ShlOne(64 * n);
    ShlShl(n, 1, 1);
    Shl4(n);
    Shl4(16 * n);
    Shl8(n);
    ShlShl(n, 4, 2);
    ShlShl(n, 6, 1);
    ShlShl(16 * n, 1, 1);
    ShlOne(16 * n);
    ShlOne(32 * n);
  }

  lemma ShlOne(n: nat)
    ensures Shl(n, 1) == 2 * n
  {
  }

  function Letters(): seq<Token> { [Literal(97), Literal(97), Match(9, 1)] }

  /** The bits of the fixed block: final, type 1, twice the letter, a length of nine, a distance
      of one, and the end. */
  function LettersSent(): seq<Field> {
    [Field(1, 1), Field(1, 2), Field(137, 8), Field(137, 8), Field(112, 7), Field(0, 0), Field(0, 5), Field(0, 0), Field(0, 7)]
  }

  lemma LettersNumber()
    ensures Num(LettersSent()) == 0x0003844C4B && Width(LettersSent()) == 38
  {
    hide Num, Width, Shl;
    var s := LettersSent();
    assert s[8..] == [s[8]] + [] && s[7..] == [s[7]] + s[8..] && s[6..] == [s[6]] + s[7..] && s[5..] == [s[5]] + s[6..];
    assert s[4..] == [s[4]] + s[5..] && s[3..] == [s[3]] + s[4..] && s[2..] == [s[2]] + s[3..] && s[1..] == [s[1]] + s[2..];
    assert s == [s[0]] + s[1..];
    NothingSent();
    NumFirst(0, 7, [], 0);
    NumFirst(0, 0, s[8..], 0);
    NumFirst(0, 5, s[7..], 0);
    NumFirst(0, 0, s[6..], 0);
    NumFirst(112, 7, s[5..], 0);
    NumFirst(137, 8, s[4..], 112);
    NumFirst(137, 8, s[3..], 28809);
    NumFirst(1, 2, s[2..], 7375241);
    NumFirst(1, 1, s[1..], 29500965);
  }

  lemma NothingSent()
    ensures Num([]) == 0 && Width([]) == 0 && forall w: nat :: Shl(0, w) == 0
  {
  }

  lemma LettersTurned()
    ensures Rev(8, 145) == 137 && Rev(7, 7) == 112 && Rev(7, 0) == 0 && Rev(5, 0) == 0
  {
    hide Rev, Pow2;
    Pow2Values();
    RevStep(7, 72, 1);
    RevStep(6, 36, 0);
    RevStep(5, 18, 0);
    RevStep(4, 9, 0);
    NineTurned();
    RevStep(6, 3, 1);
    RevStep(5, 1, 1);
    RevStep(4, 0, 1);
    RevZero(4);
    RevZero(5);
    RevZero(7);
  }

  lemma NineTurned()
    ensures Rev(4, 9) == 9
  {
    assert Rev(2, 2) == 1;
  }

  lemma LettersTokens()
    ensures LengthCode(9) == 6 && LengthField(9) == Field(0, 0) && DistCode(1) == 0 && DistField(1) == Field(0, 0)
  {
    hide Base, CodeOf, Pow2, Shl;
    LengthStart(6);
    LengthStart(7);
    CodeOfIs(LengthTable(), 2, 9, 6, 29);
    DistStart(0);
    DistStart(1);
    CodeOfIs(DistTable(), 0, 1, 0, 29);
  }

  /** The symbols of the block. */
  lemma LettersSymbols()
    ensures |FixedLengths()| == 288 && |FixedDistances()| == 32
    ensures FixedLengths()[97] <= 15 && Symbol(FixedLengths(), 97) == Field(137, 8)
    ensures FixedLengths()[263] <= 15 && Symbol(FixedLengths(), 263) == Field(112, 7)
    ensures FixedLengths()[256] <= 15 && Symbol(FixedLengths(), 256) == Field(0, 7)
    ensures FixedDistances()[0] <= 15 && Symbol(FixedDistances(), 0) == Field(0, 5)
  {
    hide Symbol, Rev, FixedLengths, FixedDistances, Code16;
    LettersTurned();
    FixedSymbols(97);
    FixedSymbols(263);
    FixedSymbols(256);
    FixedDistanceSymbols(0);
  }

  lemma LettersCodable()
    ensures CodesOk(FixedCodes()) && AllCodable(Letters(), FixedCodes())
  {
    hide CodesOk, KraftSum, LengthCode, DistCode;
    FixedCodesOk();
    LettersTokens();
    FixedAt(97);
    FixedAt(263);
    FixedDistanceCounts(5, 0);
  }

  lemma LettersFields()
    requires CodesOk(FixedCodes()) && AllCodable(Letters(), FixedCodes())
    ensures BodyFields(Letters(), FixedCodes()) == LettersSent()[2..]
  {
    hide FixedLengths, FixedDistances, Symbol, KraftSum, LengthCode, DistCode, LengthField, DistField;
    LettersTokens();
    LettersSymbols();
    var ts := Letters();
    assert ts[1..] == [Literal(97), Match(9, 1)] && ts[1..][1..] == [Match(9, 1)] && ts[1..][1..][1..] == [];
    assert BodyFields([], FixedCodes()) == [Field(0, 7)];
    assert BodyFields([Match(9, 1)], FixedCodes()) == LettersSent()[4..];
  }

  lemma LettersBlock()
    ensures AllSendable([Fixed(Letters())], []) && StreamFields([Fixed(Letters())], [], 0) == LettersSent()
    ensures Contents([], [Fixed(Letters())]) == seq(11, _ => 97)
  {
    hide CodesOk, AllCodable, AllValid, BodyFields, FixedCodes, Unzip;
    LettersCodable();
    LettersOut();
    LettersFields();
    var b := Fixed(Letters());
    assert Sendable(b, 0);
    assert BlockFields(b, 0, true, 0) == LettersSent();
    assert [b][1..] == [];
  }

  lemma LettersOut()
    ensures AllValid(0, Letters()) && Unzip([], Letters()) == seq(11, _ => 97)
  {
    hide Copied;
    var two: seq<byte> := [97, 97];
    assert Letters()[1..] == [Literal(97), Match(9, 1)] && Letters()[1..][1..] == [Match(9, 1)];
    assert Apply([], Literal(97)) == [97] && Apply([97], Literal(97)) == two;
    CopiedLast(two, 9);
    assert Apply(two, Match(9, 1)) == seq(11, _ => 97);
  }

  /** A match one byte back repeats the byte. */
  lemma {:induction false} CopiedLast(out: seq<byte>, len: nat)
    requires out != []
    ensures Copied(out, len, 1) == out + seq(len, _ => out[|out| - 1])
    decreases len
  {
    if len > 0 {
      CopiedLast(out + [out[|out| - 1]], len - 1);
    }
  }

  lemma FreshHolding()
    ensures Holding(FreshOut(), [])
  {
  }

  lemma NumberHeld(dat: seq<byte>, fs: seq<Field>)
    requires LE(dat) == Num(fs) < Pow2(Width(fs)) && Width(fs) <= 8 * |dat|
    ensures Holds(dat, 0, fs)
  {
    hide LE, Num, Width, Shl;
    LowSmall(LE(dat), Width(fs));
    ShrNothing(LE(dat));
  }

  lemma LettersSound()
    ensures Sound(LettersSent())
  {
    Pow2Values();
  }

  lemma LettersHeld()
    ensures Holds([0x4B, 0x4C, 0x84, 0x03, 0x00], 0, LettersSent())
  {
    hide LE, Num, Width, Shl;
    var dat: seq<byte> := [0x4B, 0x4C, 0x84, 0x03, 0x00];
    LettersNumber();
    assert dat == [0x4B, 0x4C, 0x84] + [0x03, 0x00];
    LEConcat([0x4B, 0x4C, 0x84], [0x03, 0x00]);
    LEThree(0x4B, 0x4C, 0x84);
    LEThree(0x03, 0x00, 0x00);
    Shl8(3);
    Shl8(768);
    Shl8(196608);
    ShlShl(3, 8, 8);
    ShlShl(3, 16, 8);
    LettersSound();
    NumRange(LettersSent());
    NumberHeld(dat, LettersSent());
  }

  /** A fixed block of five bytes: a letter eleven times, by its code twice and then by a match. */
  lemma KnownFixed()
    ensures var r := Inflt([0x4B, 0x4C, 0x84, 0x03, 0x00], FreshOut(), 0);
            r.Done? && Written(r.out) == seq(11, _ => 97)
  {
    hide *;
    FreshHolding();
    LettersBlock();
    LettersHeld();
    StreamReads([0x4B, 0x4C, 0x84, 0x03, 0x00], FreshOut(), 0, [Fixed(Letters())], []);
  }
}
