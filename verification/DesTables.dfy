/** The constant tables of DES (FIPS 46-3), in rows of eight. Positions count from 1 at
    the most significant bit. */
module DesTables {
  type Position = x: int | 1 <= x <= 64 witness 1

  type Nibble = x: int | 0 <= x < 16

  type Rows = seq<seq<Position>>

  const PC1: Rows := [
    [57, 49, 41, 33, 25, 17, 9, 1],
    [58, 50, 42, 34, 26, 18, 10, 2],
    [59, 51, 43, 35, 27, 19, 11, 3],
    [60, 52, 44, 36, 63, 55, 47, 39],
    [31, 23, 15, 7, 62, 54, 46, 38],
    [30, 22, 14, 6, 61, 53, 45, 37],
    [29, 21, 13, 5, 28, 20, 12, 4]]

  const PC2: Rows := [
    [14, 17, 11, 24, 1, 5, 3, 28],
    [15, 6, 21, 10, 23, 19, 12, 4],
    [26, 8, 16, 7, 27, 20, 13, 2],
    [41, 52, 31, 37, 47, 55, 30, 40],
    [51, 45, 33, 48, 44, 49, 39, 56],
    [34, 53, 46, 42, 50, 36, 29, 32]]

  const IP: Rows := [
    [58, 50, 42, 34, 26, 18, 10, 2],
    [60, 52, 44, 36, 28, 20, 12, 4],
    [62, 54, 46, 38, 30, 22, 14, 6],
    [64, 56, 48, 40, 32, 24, 16, 8],
    [57, 49, 41, 33, 25, 17, 9, 1],
    [59, 51, 43, 35, 27, 19, 11, 3],
    [61, 53, 45, 37, 29, 21, 13, 5],
    [63, 55, 47, 39, 31, 23, 15, 7]]

  const FP: Rows := [
    [40, 8, 48, 16, 56, 24, 64, 32],
    [39, 7, 47, 15, 55, 23, 63, 31],
    [38, 6, 46, 14, 54, 22, 62, 30],
    [37, 5, 45, 13, 53, 21, 61, 29],
    [36, 4, 44, 12, 52, 20, 60, 28],
    [35, 3, 43, 11, 51, 19, 59, 27],
    [34, 2, 42, 10, 50, 18, 58, 26],
    [33, 1, 41, 9, 49, 17, 57, 25]]

  const E: Rows := [
    [32, 1, 2, 3, 4, 5, 4, 5],
    [6, 7, 8, 9, 8, 9, 10, 11],
    [12, 13, 12, 13, 14, 15, 16, 17],
    [16, 17, 18, 19, 20, 21, 20, 21],
    [22, 23, 24, 25, 24, 25, 26, 27],
    [28, 29, 28, 29, 30, 31, 32, 1]]

  const P: Rows := [
    [16, 7, 20, 21, 29, 12, 28, 17],
    [1, 15, 23, 26, 5, 18, 31, 10],
    [2, 8, 24, 14, 32, 27, 3, 9],
    [19, 13, 30, 6, 22, 11, 4, 25]]

  const ROTATIONS: seq<nat> := [1, 1, 2, 2, 2, 2, 2, 2, 1, 2, 2, 2, 2, 2, 2, 1]

  const S1: seq<seq<Nibble>> := [
    [14, 4, 13, 1, 2, 15, 11, 8, 3, 10, 6, 12, 5, 9, 0, 7],
    [0, 15, 7, 4, 14, 2, 13, 1, 10, 6, 12, 11, 9, 5, 3, 8],
    [4, 1, 14, 8, 13, 6, 2, 11, 15, 12, 9, 7, 3, 10, 5, 0],
    [15, 12, 8, 2, 4, 9, 1, 7, 5, 11, 3, 14, 10, 0, 6, 13]]

  const S2: seq<seq<Nibble>> := [
    [15, 1, 8, 14, 6, 11, 3, 4, 9, 7, 2, 13, 12, 0, 5, 10],
    [3, 13, 4, 7, 15, 2, 8, 14, 12, 0, 1, 10, 6, 9, 11, 5],
    [0, 14, 7, 11, 10, 4, 13, 1, 5, 8, 12, 6, 9, 3, 2, 15],
    [13, 8, 10, 1, 3, 15, 4, 2, 11, 6, 7, 12, 0, 5, 14, 9]]

  const S3: seq<seq<Nibble>> := [
    [10, 0, 9, 14, 6, 3, 15, 5, 1, 13, 12, 7, 11, 4, 2, 8],
    [13, 7, 0, 9, 3, 4, 6, 10, 2, 8, 5, 14, 12, 11, 15, 1],
    [13, 6, 4, 9, 8, 15, 3, 0, 11, 1, 2, 12, 5, 10, 14, 7],
    [1, 10, 13, 0, 6, 9, 8, 7, 4, 15, 14, 3, 11, 5, 2, 12]]

  const S4: seq<seq<Nibble>> := [
    [7, 13, 14, 3, 0, 6, 9, 10, 1, 2, 8, 5, 11, 12, 4, 15],
    [13, 8, 11, 5, 6, 15, 0, 3, 4, 7, 2, 12, 1, 10, 14, 9],
    [10, 6, 9, 0, 12, 11, 7, 13, 15, 1, 3, 14, 5, 2, 8, 4],
    [3, 15, 0, 6, 10, 1, 13, 8, 9, 4, 5, 11, 12, 7, 2, 14]]

  const S5: seq<seq<Nibble>> := [
    [2, 12, 4, 1, 7, 10, 11, 6, 8, 5, 3, 15, 13, 0, 14, 9],
    [14, 11, 2, 12, 4, 7, 13, 1, 5, 0, 15, 10, 3, 9, 8, 6],
    [4, 2, 1, 11, 10, 13, 7, 8, 15, 9, 12, 5, 6, 3, 0, 14],
    [11, 8, 12, 7, 1, 14, 2, 13, 6, 15, 0, 9, 10, 4, 5, 3]]

  const S6: seq<seq<Nibble>> := [
    [12, 1, 10, 15, 9, 2, 6, 8, 0, 13, 3, 4, 14, 7, 5, 11],
    [10, 15, 4, 2, 7, 12, 9, 5, 6, 1, 13, 14, 0, 11, 3, 8],
    [9, 14, 15, 5, 2, 8, 12, 3, 7, 0, 4, 10, 1, 13, 11, 6],
    [4, 3, 2, 12, 9, 5, 15, 10, 11, 14, 1, 7, 6, 0, 8, 13]]

  const S7: seq<seq<Nibble>> := [
    [4, 11, 2, 14, 15, 0, 8, 13, 3, 12, 9, 7, 5, 10, 6, 1],
    [13, 0, 11, 7, 4, 9, 1, 10, 14, 3, 5, 12, 2, 15, 8, 6],
    [1, 4, 11, 13, 12, 3, 7, 14, 10, 15, 6, 8, 0, 5, 9, 2],
    [6, 11, 13, 8, 1, 4, 10, 7, 9, 5, 0, 15, 14, 2, 3, 12]]

  const S8: seq<seq<Nibble>> := [
    [13, 2, 8, 4, 6, 15, 11, 1, 10, 9, 3, 14, 5, 0, 12, 7],
    [1, 15, 13, 8, 10, 3, 7, 4, 12, 5, 6, 11, 0, 14, 9, 2],
    [7, 11, 4, 1, 9, 12, 14, 2, 0, 6, 10, 13, 15, 3, 5, 8],
    [2, 1, 14, 7, 4, 10, 8, 13, 15, 12, 9, 0, 3, 5, 6, 11]]

  /** `S_BOXES[index]` */
  function Box(index: nat): (s: seq<seq<Nibble>>)
    requires index < 8
    ensures |s| == 4 && forall r :: 0 <= r < 4 ==> |s[r]| == 16
  {
    match index
    case 0 => S1
    case 1 => S2
    case 2 => S3
    case 3 => S4
    case 4 => S5
    case 5 => S6
    case 6 => S7
    case _ => S8
  }

  /** Every position of the table exists in a number of that many bits. */
  ghost predicate InWidth(t: Rows, width: nat) {
    forall r :: 0 <= r < |t| ==> |t[r]| == 8 && forall c :: 0 <= c < 8 ==> t[r][c] <= width
  }

  lemma TableWidths()
    ensures |PC1| == 7 && |PC2| == 6 && |IP| == |FP| == 8 && |E| == 6 && |P| == 4 && |ROTATIONS| == 16
    ensures InWidth(PC1, 64) && InWidth(PC2, 56) && InWidth(IP, 64) && InWidth(FP, 64)
    ensures InWidth(E, 32) && InWidth(P, 32)
    ensures forall i :: 0 <= i < 16 ==> ROTATIONS[i] < 28
  {
    RoundWidths();
    BlockWidths();
  }

  lemma RoundWidths()
    ensures |E| == 6 && |P| == 4 && |PC2| == 6 && |ROTATIONS| == 16
    ensures InWidth(E, 32) && InWidth(P, 32) && InWidth(PC2, 56)
    ensures forall i :: 0 <= i < 16 ==> ROTATIONS[i] < 28
  {
  }

  lemma BlockWidths()
    ensures |PC1| == 7 && |IP| == |FP| == 8
    ensures InWidth(PC1, 64) && InWidth(IP, 64) && InWidth(FP, 64)
  {
  }

  function At(t: Rows, i: nat): Position
    requires i / 8 < |t| && |t[i / 8]| == 8
  {
    t[i / 8][i % 8]
  }

  lemma IPUndoesFP0()
    requires |IP| == |FP| == 8 && InWidth(IP, 64) && InWidth(FP, 64)
    ensures forall i :: 0 <= i < 16 ==> At(IP, At(FP, i) - 1) == i + 1
  {
  }

  lemma IPUndoesFP16()
    requires |IP| == |FP| == 8 && InWidth(IP, 64) && InWidth(FP, 64)
    ensures forall i :: 16 <= i < 32 ==> At(IP, At(FP, i) - 1) == i + 1
  {
  }

  lemma IPUndoesFP32()
    requires |IP| == |FP| == 8 && InWidth(IP, 64) && InWidth(FP, 64)
    ensures forall i :: 32 <= i < 48 ==> At(IP, At(FP, i) - 1) == i + 1
  {
  }

  lemma IPUndoesFP48()
    requires |IP| == |FP| == 8 && InWidth(IP, 64) && InWidth(FP, 64)
    ensures forall i :: 48 <= i < 64 ==> At(IP, At(FP, i) - 1) == i + 1
  {
  }

  lemma FPUndoesIP0()
    requires |IP| == |FP| == 8 && InWidth(IP, 64) && InWidth(FP, 64)
    ensures forall i :: 0 <= i < 16 ==> At(FP, At(IP, i) - 1) == i + 1
  {
  }

  lemma FPUndoesIP16()
    requires |IP| == |FP| == 8 && InWidth(IP, 64) && InWidth(FP, 64)
    ensures forall i :: 16 <= i < 32 ==> At(FP, At(IP, i) - 1) == i + 1
  {
  }

  lemma FPUndoesIP32()
    requires |IP| == |FP| == 8 && InWidth(IP, 64) && InWidth(FP, 64)
    ensures forall i :: 32 <= i < 48 ==> At(FP, At(IP, i) - 1) == i + 1
  {
  }

  lemma FPUndoesIP48()
    requires |IP| == |FP| == 8 && InWidth(IP, 64) && InWidth(FP, 64)
    ensures forall i :: 48 <= i < 64 ==> At(FP, At(IP, i) - 1) == i + 1
  {
  }

  /** The initial and the final permutation undo each other. */
  lemma TablesUndo()
    requires |IP| == |FP| == 8 && InWidth(IP, 64) && InWidth(FP, 64)
    ensures forall i :: 0 <= i < 64 ==> At(IP, At(FP, i) - 1) == i + 1
    ensures forall i :: 0 <= i < 64 ==> At(FP, At(IP, i) - 1) == i + 1
  {
    IPUndoesFP0();
    IPUndoesFP16();
    IPUndoesFP32();
    IPUndoesFP48();
    FPUndoesIP0();
    FPUndoesIP16();
    FPUndoesIP32();
    FPUndoesIP48();
  }

  /** The key permutation leaves out every eighth bit. */
  lemma NoParity()
    requires |PC1| == 7 && InWidth(PC1, 64)
    ensures forall i :: 0 <= i < 56 ==> At(PC1, i) % 8 != 0
  {
  }
}
