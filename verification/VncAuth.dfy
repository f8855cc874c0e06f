/** `encryptDesBlock` and the VNC password response as the client computes them, on
    numbers, and what the response says about challenge and password. */
module VncAuth {
  import opened Words
  import opened DesTables
  import opened Des

  // ---- numbers and bit strings -----------------------------------------------------------

  /** The number a bit string stands for. */
  function Val(x: Bits): nat {
    if x == [] then 0 else 2 * Val(x[..|x| - 1]) + B(x[|x| - 1])
  }

  lemma ValSnoc(x: Bits, b: bool)
    ensures Val(x + [b]) == 2 * Val(x) + B(b)
  {
    assert (x + [b])[..|x|] == x;
  }

  lemma {:induction false} ValRange(x: Bits)
    ensures Val(x) < Pow2(|x|)
  {
    if x == [] {
    } else {
      ValRange(x[..|x| - 1]);
    }
  }

  lemma {:induction false} ValConcat(a: Bits, b: Bits)
    ensures Val(a + b) == Shl(Val(a), |b|) + Val(b)
    ensures Low(Val(a + b), |b|) == Val(b) && Shr(Val(a + b), |b|) == Val(a)
    decreases |b|
  {
    if b == [] {
      assert a + b == a;
    } else {
      var c, z := b[..|b| - 1], b[|b| - 1];
      assert a + b == (a + c) + [z];
      ValSnoc(a + c, z);
      ValConcat(a, c);
    }
    ValRange(b);
    Join(Val(b), Val(a), |b|);
  }

  /** `input >> (n - position) & 1` */
  lemma BitAt(x: Bits, i: nat)
    requires i < |x|
    ensures Low(Shr(Val(x), |x| - 1 - i), 1) == B(x[i])
  {
    var a, b := x[..i + 1], x[i + 1..];
    assert x == a + b;
    ValConcat(a, b);
    assert a == x[..i] + [x[i]];
    ValConcat(x[..i], [x[i]]);
    assert Val([x[i]]) == B(x[i]) by { ValSnoc([], x[i]); }
  }

  lemma {:induction false} ValInjective(a: Bits, b: Bits)
    requires |a| == |b| && Val(a) == Val(b)
    ensures a == b
  {
    if a == [] {
    } else {
      var n := |a| - 1;
      ValInjective(a[..n], b[..n]);
      assert a == a[..n] + [a[n]] && b == b[..n] + [b[n]];
    }
  }

  /** x ^ y on nonnegative numbers */
  function BitXor(x: nat, y: nat): nat
    decreases x + y
  {
    if x == 0 && y == 0 then 0 else (x + y) % 2 + 2 * BitXor(x / 2, y / 2)
  }

  lemma {:induction false} XorVal(a: Bits, b: Bits)
    requires |a| == |b|
    ensures BitXor(Val(a), Val(b)) == Val(Xor(a, b))
  {
    hide Val, BitXor;
    if a != [] {
      var n := |a| - 1;
      var (p, q) := (a[..n], b[..n]);
      XorVal(p, q);
      assert a == p + [a[n]] && b == q + [b[n]] && Xor(a, b) == Xor(p, q) + [a[n] != b[n]];
      ValSnoc(p, a[n]);
      ValSnoc(q, b[n]);
      ValSnoc(Xor(p, q), a[n] != b[n]);
      XorStep(Val(p), Val(q), B(a[n]), B(b[n]));
    } else {
      NoBits(a);
      NoBits(b);
      NoBits(Xor(a, b));
      XorStep(0, 0, 0, 0);
    }
  }

  lemma XorStep(x: nat, y: nat, r: nat, s: nat)
    requires r < 2 && s < 2
    ensures BitXor(2 * x + r, 2 * y + s) == 2 * BitXor(x, y) + if r == s then 0 else 1
  {
    assert (2 * x + r) / 2 == x && (2 * y + s) / 2 == y;
  }

  // ---- the steps of the cipher on numbers --------------------------------------------------

  /** `permuteBits(input, table, n)` */
  method PermuteBits(input: nat, t: Rows, n: nat, ghost x: Bits) returns (output: nat)
    requires |x| == n && input == Val(x) && InWidth(t, n)
    ensures output == Val(Permute(x, t))
  {
    hide Val, Shr, Low, Shl;
    output := 0;
    ghost var y := Permute(x, t);
    assert Val(y[..0]) == 0 by { NoBits(y[..0]); }
    for i := 0 to 8 * |t|
      invariant output == Val(y[..i])
    {
      var position: nat := At(t, i);
      BitAt(x, position - 1);
      output := 2 * output + Low(Shr(input, n - position), 1);
      ValSnoc(y[..i], y[i]);
      assert y[..i + 1] == y[..i] + [y[i]];
    }
    assert y[..8 * |t|] == y;
  }

  lemma NoBits(x: Bits)
    requires x == []
    ensures Val(x) == 0
  {
  }

  /** `rotateLeft28(value, amount)`; the two operands that are combined have no common bit. */
  method RotateLeft28(value: nat, amount: nat, ghost x: Bits) returns (r: nat)
    requires |x| == 28 && value == Val(x) && amount < 28
    ensures r == Val(Rotate(x, amount))
  {
    hide Val, Shl, Shr, Low, BitOr;
    var a, b := x[..amount], x[amount..];
    assert x == a + b;
    r := Low(BitOr(Shr(value, 28 - amount), Shl(value, amount)), 28);
    ValConcat(a, b);
    ValConcat(x, a);
    ValConcat(a, b + a);
    ValRange(a);
    BitOrDisjoint(Val(a), value, amount);
    assert x + a == a + (b + a);
  }

  lemma Halves(x: Bits, n: nat)
    requires n <= |x|
    ensures Low(Val(x), |x| - n) == Val(x[n..]) && Low(Shr(Val(x), |x| - n), n) == Val(x[..n])
    ensures Shl(Val(x[..n]), |x| - n) + Val(x[n..]) == Val(x)
  {
    hide Val, Shl, Shr, Low;
    assert x == x[..n] + x[n..];
    ValConcat(x[..n], x[n..]);
    ValRange(x[..n]);
    LowSmall(Val(x[..n]), n);
  }

  /** `a << n | b` */
  lemma Together(a: Bits, b: Bits)
    ensures BitOr(Val(b), Shl(Val(a), |b|)) == Val(a + b)
  {
    hide Val, Shl, BitOr;
    ValConcat(a, b);
    ValRange(b);
    BitOrDisjoint(Val(b), Val(a), |b|);
  }

  /** One turn of the loop over `ROTATIONS`. */
  method NextSubkey(left: nat, right: nat, i: nat, ghost l: Bits, ghost r: Bits) returns (left': nat, right': nat, k: nat)
    requires |ROTATIONS| == 16 && |PC2| == 6 && InWidth(PC2, 56) && i < 16 && ROTATIONS[i] < 28
    requires |l| == |r| == 28 && left == Val(l) && right == Val(r)
    ensures var (l', r') := (Rotate(l, ROTATIONS[i]), Rotate(r, ROTATIONS[i]));
            left' == Val(l') && right' == Val(r') && k == Val(Permute(l' + r', PC2))
  {
    hide Val, Shl, BitOr, Permute, InWidth, Rotate;
    var n := ROTATIONS[i];
    left' := RotateLeft28(left, n, l);
    right' := RotateLeft28(right, n, r);
    Together(Rotate(l, n), Rotate(r, n));
    k := PermuteBits(BitOr(right', Shl(left', 28)), PC2, 56, Rotate(l, n) + Rotate(r, n));
  }

  lemma ScheduleStep(l: Bits, r: Bits, i: nat)
    requires |l| == |r| == 28 && i < 16
    ensures |ROTATIONS| == 16 && ROTATIONS[i] < 28 && |PC2| == 6 && InWidth(PC2, 56)
    ensures var (l', r') := (Rotate(l, ROTATIONS[i]), Rotate(r, ROTATIONS[i]));
            Schedule(l, r, i) == [Permute(l' + r', PC2)] + Schedule(l', r', i + 1)
  {
    TableWidths();
  }

  lemma ScheduleEnd(l: Bits, r: Bits)
    requires |l| == |r| == 28
    ensures Schedule(l, r, 16) == []
  {
  }

  /** `buildDesSubkeys(keyBytes)` */
  method BuildDesSubkeys(key: nat, ghost x: Bits) returns (ks: seq<nat>)
    requires |x| == 64 && key == Val(x)
    ensures |ks| == 16 && forall i :: 0 <= i < 16 ==> ks[i] == Val(Subkeys(x)[i])
  {
    hide Val, Shl, Shr, Low, Permute, InWidth, Rotate, Schedule, Keys;
    assert |PC1| == 7 && InWidth(PC1, 64) by { BlockWidths(); }
    ghost var y := Permute(x, PC1);
    var key56 := PermuteBits(key, PC1, 64, x);
    Halves(y, 28);
    var left, right := Low(Shr(key56, 28), 28), Low(key56, 28);
    ghost var l, r, done: seq<Bits> := y[..28], y[28..], [];
    ghost var all := Subkeys(x);
    ks := [];
    var i := 0;
    while i < 16
      invariant 0 <= i <= 16
      invariant |l| == |r| == 28 && left == Val(l) && right == Val(r)
      invariant |ks| == |done| == i && forall k :: 0 <= k < i ==> ks[k] == Val(done[k])
      invariant all == done + Schedule(l, r, i)
    {
      var k;
      ScheduleStep(l, r, i);
      left, right, k := NextSubkey(left, right, i, l, r);
      l, r := Rotate(l, ROTATIONS[i]), Rotate(r, ROTATIONS[i]);
      ks := ks + [k];
      done := done + [Permute(l + r, PC2)];
      i := i + 1;
    }
    ScheduleEnd(l, r);
  }

  lemma FourValues(a: bool, b: bool, c: bool, d: bool)
    ensures Val([a, b, c, d]) == 8 * B(a) + 4 * B(b) + 2 * B(c) + B(d)
  {
    assert [a, b, c, d] == [] + [a] + [b] + [c] + [d];
    ValSnoc([], a);
    ValSnoc([] + [a], b);
    ValSnoc([] + [a] + [b], c);
    ValSnoc([] + [a] + [b] + [c], d);
  }

  lemma SixValues(x: Bits)
    requires |x| == 6
    ensures Val(x) == 32 * B(x[0]) + 16 * B(x[1]) + 8 * B(x[2]) + 4 * B(x[3]) + 2 * B(x[4]) + B(x[5])
  {
    hide Val;
    assert x == [x[0], x[1], x[2], x[3]] + [x[4]] + [x[5]];
    FourValues(x[0], x[1], x[2], x[3]);
    ValSnoc([x[0], x[1], x[2], x[3]], x[4]);
    ValSnoc([x[0], x[1], x[2], x[3]] + [x[4]], x[5]);
  }

  lemma NibbleVal(v: Nibble)
    ensures Val(NibbleBits(v)) == v
  {
    FourValues(v / 8 == 1, v / 4 % 2 == 1, v / 2 % 2 == 1, v % 2 == 1);
  }

  /** n bits from position a on. */
  lemma Chunk(x: Bits, a: nat, n: nat)
    requires a + n <= |x|
    ensures Low(Shr(Val(x), |x| - a - n), n) == Val(x[a..a + n])
  {
    hide Val, Shr, Low, Shl;
    var y := x[..a + n];
    assert x == y + x[a + n..] && y == x[..a] + x[a..a + n];
    ValConcat(y, x[a + n..]);
    ValConcat(x[..a], x[a..a + n]);
  }

  /** `S_BOXES[index][row][column]` for a chunk of six bits. */
  method Choose(chunk: nat, index: nat, ghost x: Bits) returns (s: Nibble)
    requires |x| == 6 && chunk == Val(x) && index < 8
    ensures s == Substitute(x, index)
  {
    hide Val, Box;
    RowColumn(x);
    var row, column := chunk / 32 * 2 + chunk % 2, chunk / 2 % 16;
    s := Box(index)[row][column];
  }

  lemma RowColumn(x: Bits)
    requires |x| == 6
    ensures Val(x) / 32 * 2 + Val(x) % 2 == 2 * B(x[0]) + B(x[5])
    ensures Val(x) / 2 % 16 == 8 * B(x[1]) + 4 * B(x[2]) + 2 * B(x[3]) + B(x[4])
  {
    hide Val;
    SixValues(x);
    var mid := 8 * B(x[1]) + 4 * B(x[2]) + 2 * B(x[3]) + B(x[4]);
    assert Val(x) == 2 * (16 * B(x[0]) + mid) + B(x[5]);
    assert Val(x) / 2 == 16 * B(x[0]) + mid;
    assert Val(x) / 32 == B(x[0]);
  }

  /** `applySBoxes(value48)` */
  method ApplySBoxes(value: nat, ghost x: Bits) returns (output: nat)
    requires |x| == 48 && value == Val(x)
    ensures output == Val(SBoxes(x, 0))
  {
    hide Val, Shr, Low, Shl, BitOr, SBoxes, Substitute, NibbleBits;
    output := 0;
    ghost var done: Bits := [];
    NoBits(done);
    for index := 0 to 8
      invariant output == Val(done) && SBoxes(x, 0) == done + SBoxes(x[6 * index..], index)
    {
      ghost var rest := x[6 * index..];
      Chunk(x, 6 * index, 6);
      assert rest[..6] == x[6 * index..6 * index + 6] && rest[6..] == x[6 * index + 6..];
      var s := Choose(Low(Shr(value, (7 - index) * 6), 6), index, rest[..6]);
      SBoxesStep(rest, index);
      NibbleVal(s);
      Together(done, NibbleBits(s));
      output := BitOr(s, Shl(output, 4));
      done := done + NibbleBits(s);
    }
    SBoxesEnd(x[6 * 8..]);
    assert done + [] == done;
  }

  lemma SBoxesStep(x: Bits, index: nat)
    requires index < 8 && |x| == 6 * (8 - index)
    ensures SBoxes(x, index) == NibbleBits(Substitute(x[..6], index)) + SBoxes(x[6..], index + 1)
  {
  }

  lemma SBoxesEnd(x: Bits)
    requires x == []
    ensures SBoxes(x, 8) == []
  {
  }

  /** `desFeistel(right32, subkey48)` */
  method DesFeistel(right: nat, subkey: nat, ghost r: Bits, ghost k: Bits) returns (output: nat)
    requires |r| == 32 && |k| == 48 && right == Val(r) && subkey == Val(k)
    ensures output == Val(Feistel(r, k))
  {
    hide Val, BitXor, Permute, InWidth, SBoxes;
    assert |E| == 6 && |P| == 4 && InWidth(E, 32) && InWidth(P, 32) by { RoundWidths(); }
    var expanded := PermuteBits(right, E, 32, r);
    XorVal(Permute(r, E), k);
    var substituted := ApplySBoxes(BitXor(expanded, subkey), Xor(Permute(r, E), k));
    output := PermuteBits(substituted, P, 32, SBoxes(Xor(Permute(r, E), k), 0));
  }

  /** The loop over the subkeys. */
  method RunRounds(left0: nat, right0: nat, subkeys: seq<nat>, ghost l0: Bits, ghost r0: Bits, ghost ks: seq<Bits>)
      returns (left: nat, right: nat)
    requires |l0| == |r0| == 32 && left0 == Val(l0) && right0 == Val(r0) && Keys(ks)
    requires |subkeys| == |ks| && forall i :: 0 <= i < |ks| ==> subkeys[i] == Val(ks[i])
    ensures left == Val(Rounds(l0, r0, ks).0) && right == Val(Rounds(l0, r0, ks).1)
  {
    hide Val, Low, BitXor, Feistel;
    left, right := left0, right0;
    ghost var l, r := l0, r0;
    for i := 0 to |subkeys|
      invariant |l| == |r| == 32 && left == Val(l) && right == Val(r)
      invariant Rounds(l0, r0, ks) == Rounds(l, r, ks[i..])
    {
      var nextLeft := right;
      var f := DesFeistel(right, subkeys[i], r, ks[i]);
      XorVal(l, Feistel(r, ks[i]));
      ValRange(Xor(l, Feistel(r, ks[i])));
      LowSmall(Val(Xor(l, Feistel(r, ks[i]))), 32);
      var nextRight := Low(BitXor(left, f), 32);
      assert ks[i..][0] == ks[i] && ks[i..][1..] == ks[i + 1..];
      left, right := nextLeft, nextRight;
      l, r := r, Xor(l, Feistel(r, ks[i]));
    }
    assert ks[|ks|..] == [];
  }

  // ---- bytes ---------------------------------------------------------------------------------

  function ByteBits(b: byte): (r: Bits)
    ensures |r| == 8
  {
    NibbleBits(b / 16) + NibbleBits(b % 16)
  }

  function BytesBits(d: seq<byte>): (r: Bits)
    ensures |r| == 8 * |d|
  {
    if d == [] then [] else ByteBits(d[0]) + BytesBits(d[1..])
  }

  lemma ByteVal(b: byte)
    ensures Val(ByteBits(b)) == b
  {
    hide Val, Shl;
    ValConcat(NibbleBits(b / 16), NibbleBits(b % 16));
    NibbleVal(b / 16);
    NibbleVal(b % 16);
    Shl4(b / 16);
  }

  lemma {:induction false} BytesConcat(a: seq<byte>, b: seq<byte>)
    ensures BytesBits(a + b) == BytesBits(a) + BytesBits(b)
  {
    if a == [] {
      assert a + b == b;
    } else {
      assert (a + b)[1..] == a[1..] + b;
      BytesConcat(a[1..], b);
    }
  }

  lemma OneByte(b: byte)
    ensures BytesBits([b]) == ByteBits(b)
  {
    assert [b][1..] == [];
  }

  /** `bytesToBigInt(bytes)` */
  method BytesToBigInt(d: seq<byte>) returns (value: nat)
    ensures value == Val(BytesBits(d))
  {
    hide Val, Shl, BitOr;
    value := 0;
    NoBits(BytesBits(d[..0]));
    for i := 0 to |d|
      invariant value == Val(BytesBits(d[..i]))
    {
      ByteVal(d[i]);
      OneByte(d[i]);
      Together(BytesBits(d[..i]), ByteBits(d[i]));
      BytesConcat(d[..i], [d[i]]);
      assert d[..i + 1] == d[..i] + [d[i]];
      value := BitOr(d[i], Shl(value, 8));
    }
    assert d[..|d|] == d;
  }

  /** `bigIntToBytes(value, length)` */
  method BigIntToBytes(value: nat, length: nat, ghost x: Bits) returns (out: seq<byte>)
    requires |x| == 8 * length && value == Val(x)
    ensures |out| == length && BytesBits(out) == x
  {
    hide Val, Shl, Shr, Low;
    var a := new byte[length](_ => 0);
    var remaining := value;
    assert x[..8 * length] == x;
    for index := length downto 0
      invariant remaining == Val(x[..8 * index]) && BytesBits(a[index..]) == x[8 * index..]
    {
      ghost var y, was := x[..8 * index + 8], a[index + 1..];
      Split(remaining, 8);
      Pow2Values();
      a[index] := Low(remaining, 8);
      assert y[..8 * index] == x[..8 * index] && y == y[..8 * index] + y[8 * index..];
      ValConcat(y[..8 * index], y[8 * index..]);
      ByteVal(a[index]);
      ValInjective(ByteBits(a[index]), y[8 * index..]);
      assert a[index..] == [a[index]] + was;
      remaining := Shr(remaining, 8);
    }
    out := a[..];
    assert a[0..] == out && x[0..] == x;
  }

  /** `encryptDesBlock(blockBytes, keyBytes)` */
  method EncryptDesBlock(block: seq<byte>, key: seq<byte>) returns (out: seq<byte>)
    requires |block| == 8 && |key| == 8
    ensures |out| == 8 && BytesBits(out) == Encrypt(BytesBits(block), BytesBits(key))
  {
    hide Val, Shl, Shr, Low, BitOr, Permute, InWidth, Rounds, Subkeys, Keys;
    ghost var b, k := BytesBits(block), BytesBits(key);
    assert |IP| == |FP| == 8 && InWidth(IP, 64) && InWidth(FP, 64) by { BlockWidths(); }
    var keyNumber := BytesToBigInt(key);
    var subkeys := BuildDesSubkeys(keyNumber, k);
    var blockNumber := BytesToBigInt(block);
    var initial := PermuteBits(blockNumber, IP, 64, b);
    ghost var x := Permute(b, IP);
    Halves(x, 32);
    var left, right := RunRounds(Low(Shr(initial, 32), 32), Low(initial, 32), subkeys, x[..32], x[32..], Subkeys(k));
    ghost var m := Rounds(x[..32], x[32..], Subkeys(k));
    Together(m.1, m.0);
    var final := PermuteBits(BitOr(left, Shl(right, 32)), FP, 64, m.1 + m.0);
    out := BigIntToBytes(final, 8, Permute(m.1 + m.0, FP));
  }

  // ---- the password response ---------------------------------------------------------------------

  /** `REVERSED_BITS` */
  method ReversedBits() returns (t: array<byte>)
    ensures fresh(t) && t.Length == 256 && forall v :: 0 <= v < 256 ==> t[v] == Rev(8, v)
  {
    hide Rev, Shr, Low, Shl;
    Pow2Values();
    t := new byte[256](_ => 0);
    for value := 0 to 256
      invariant forall v :: 0 <= v < value ==> t[v] == Rev(8, v)
    {
      var reversed := 0;
      NothingReversed(value);
      for bit := 0 to 8
        invariant reversed == Rev(bit, Low(value, bit))
        invariant forall v :: 0 <= v < value ==> t[v] == Rev(8, v)
      {
        reversed := 2 * reversed + Low(Shr(value, bit), 1);
        ReversedMore(value, bit);
      }
      LowSmall(value, 8);
      RevRange(8, value);
      t[value] := reversed;
    }
  }

  lemma NothingReversed(v: nat)
    ensures Rev(0, Low(v, 0)) == 0
  {
  }

  lemma ReversedMore(v: nat, k: nat)
    ensures Rev(k + 1, Low(v, k + 1)) == 2 * Rev(k, Low(v, k)) + Low(Shr(v, k), 1)
  {
    hide Rev, Shr, Low, Shl;
    var hi := Low(Shr(v, k), 1);
    ShrLow(v, k, 1);
    Split(v, k);
    RevSplit(1, k, hi, Low(v, k));
    OneBit(Shr(v, k), Rev(k, Low(v, k)));
  }

  lemma OneBit(x: nat, y: nat)
    ensures Rev(1, Low(x, 1)) == Low(x, 1) && Shl(y, 1) == 2 * y
  {
  }

  /** `codeUnit`: the low byte of a character, or zero past the end. */
  function Code(password: seq<nat>, i: nat): byte {
    if i < |password| then password[i] % 256 else 0
  }

  function Key(password: seq<nat>): (r: seq<byte>)
    ensures |r| == 8
  {
    RevByte();
    seq(8, i requires 0 <= i => Rev(8, Code(password, i)))
  }

  lemma RevByte()
    ensures forall v: nat :: Rev(8, v) < 256
  {
    forall v: nat ensures Rev(8, v) < 256 {
      RevRange(8, v);
      Pow2Values();
    }
  }

  /** `buildVncPasswordKey(password)` */
  method BuildVncPasswordKey(password: seq<nat>) returns (key: seq<byte>)
    ensures key == Key(password)
  {
    hide Rev;
    var reversed := ReversedBits();
    var k := new byte[8](_ => 0);
    for index := 0 to 8
      invariant forall v :: 0 <= v < 256 ==> reversed[v] == Rev(8, v)
      invariant forall i :: 0 <= i < index ==> k[i] == Rev(8, Code(password, i))
    {
      k[index] := reversed[Code(password, index)];
    }
    key := k[..];
  }

  datatype Response = Answer(bytes: seq<byte>) | InvalidChallenge(length: nat)

  /** The two halves of a challenge, each encrypted with the password's key. */
  function ResponseBits(password: seq<nat>, challenge: seq<byte>): (r: Bits)
    requires |challenge| == 16
    ensures |r| == 128
  {
    var key := BytesBits(Key(password));
    Encrypt(BytesBits(challenge[..8]), key) + Encrypt(BytesBits(challenge[8..]), key)
  }

  /** `buildVncPasswordAuthResponse(password, challenge)` */
  method BuildVncPasswordAuthResponse(password: seq<nat>, challenge: seq<byte>) returns (r: Response)
    ensures r.InvalidChallenge? <==> |challenge| != 16
    ensures r.Answer? ==> |r.bytes| == 16 && BytesBits(r.bytes) == ResponseBits(password, challenge)
    ensures r.InvalidChallenge? ==> r.length == |challenge|
  {
    hide Encrypt, BytesBits, Key;
    if |challenge| != 16 {
      return InvalidChallenge(|challenge|);
    }
    var key := BuildVncPasswordKey(password);
    var first := EncryptDesBlock(challenge[..8], key);
    var second := EncryptDesBlock(challenge[8..], key);
    BytesConcat(first, second);
    r := Answer(first + second);
  }

  lemma {:induction false} BytesInjective(a: seq<byte>, b: seq<byte>)
    requires |a| == |b| && BytesBits(a) == BytesBits(b)
    ensures a == b
  {
    if a == [] {
    } else {
      hide ByteBits;
      assert BytesBits(a)[..8] == ByteBits(a[0]) && BytesBits(b)[..8] == ByteBits(b[0]);
      assert BytesBits(a)[8..] == BytesBits(a[1..]) && BytesBits(b)[8..] == BytesBits(b[1..]);
      ByteVal(a[0]);
      ByteVal(b[0]);
      BytesInjective(a[1..], b[1..]);
    }
  }

  /** A server that knows the password can recover the challenge from the response, so no
      two challenges have the same one. */
  lemma ResponseInjective(password: seq<nat>, c: seq<byte>, d: seq<byte>)
    requires |c| == |d| == 16
    ensures var key := BytesBits(Key(password)); var r := ResponseBits(password, c);
            Decrypt(r[..64], key) + Decrypt(r[64..], key) == BytesBits(c)
    ensures ResponseBits(password, c) == ResponseBits(password, d) ==> c == d
  {
    hide Encrypt, Decrypt, BytesBits, Key;
    Recovered(password, c);
    Recovered(password, d);
    if ResponseBits(password, c) == ResponseBits(password, d) {
      BytesInjective(c, d);
    }
  }

  lemma Recovered(password: seq<nat>, c: seq<byte>)
    requires |c| == 16
    ensures var key := BytesBits(Key(password)); var r := ResponseBits(password, c);
            Decrypt(r[..64], key) + Decrypt(r[64..], key) == BytesBits(c)
  {
    hide Encrypt, Decrypt, BytesBits, Key;
    var key := BytesBits(Key(password));
    RoundTrip(BytesBits(c[..8]), key);
    RoundTrip(BytesBits(c[8..]), key);
    var r := ResponseBits(password, c);
    assert r[..64] == Encrypt(BytesBits(c[..8]), key) && r[64..] == Encrypt(BytesBits(c[8..]), key);
    assert c == c[..8] + c[8..];
    BytesConcat(c[..8], c[8..]);
  }

  /** Passwords whose first eight characters agree in their low seven bits. */
  ghost predicate SameSevenBits(p: seq<nat>, q: seq<nat>) {
    forall i :: 0 <= i < 8 ==> Code(p, i) % 128 == Code(q, i) % 128
  }

  lemma {:induction false} BytesAt(d: seq<byte>, i: nat, j: nat)
    requires i < |d| && j < 8
    ensures BytesBits(d)[8 * i + j] == ByteBits(d[i])[j]
  {
    hide ByteBits;
    if i == 0 {
    } else {
      BytesAt(d[1..], i - 1, j);
    }
  }

  /** Reversing a byte puts its high bit last, where the key schedule does not look. */
  lemma ReversedByte(v: byte, w: byte, j: nat)
    requires v % 128 == w % 128 && j < 7
    ensures Rev(8, v) < 256 && Rev(8, w) < 256
    ensures ByteBits(Rev(8, v))[j] == ByteBits(Rev(8, w))[j]
  {
    hide Rev;
    RevByte();
    HighBitLast(v);
    HighBitLast(w);
    FrontOfByte(Rev(7, v % 128), v / 128, j);
    FrontOfByte(Rev(7, w % 128), w / 128, j);
  }

  lemma HighBitLast(v: byte)
    ensures Rev(8, v) == 2 * Rev(7, v % 128) + v / 128
  {
    hide Rev, Shl, Low, Shr;
    Pow2Values();
    LowSmall(v % 128, 7);
    assert Shl(v / 128, 7) == 128 * (v / 128) by { Shl7(v / 128); }
    RevSplit(1, 7, v / 128, v % 128);
    assert Rev(1, v / 128) == v / 128 && Shl(Rev(7, v % 128), 1) == 2 * Rev(7, v % 128) by { OneDigit(v / 128, Rev(7, v % 128)); }
  }

  lemma Shl7(x: nat)
    ensures Shl(x, 7) == 128 * x
  {
    Shl4(x);
    assert Shl(x, 5) == 2 * Shl(x, 4) && Shl(x, 6) == 2 * Shl(x, 5);
  }

  lemma OneDigit(b: nat, y: nat)
    requires b < 2
    ensures Rev(1, b) == b && Shl(y, 1) == 2 * y
  {
  }

  lemma FrontOfByte(x: nat, b: nat, j: nat)
    requires x < 128 && b < 2 && j < 7
    ensures ByteBits(2 * x + b)[j] == ByteBits(2 * x)[j]
  {
    var q, r := x / 8, x % 8;
    assert x == 8 * q + r;
    assert (2 * x + b) / 16 == q && 2 * x / 16 == q;
    assert (2 * x + b) % 16 == 2 * r + b && 2 * x % 16 == 2 * r;
    FrontOfNibble(r, b);
  }

  lemma FrontOfNibble(r: nat, b: nat)
    requires r < 8 && b < 2
    ensures NibbleBits(2 * r + b)[..3] == NibbleBits(2 * r)[..3]
  {
  }

  /** The response depends on nothing of the password but the low seven bits of its first
      eight characters. */
  lemma SevenBitsDecide(p: seq<nat>, q: seq<nat>, challenge: seq<byte>)
    requires |challenge| == 16 && SameSevenBits(p, q)
    ensures ResponseBits(p, challenge) == ResponseBits(q, challenge)
  {
    hide Network, Subkeys, ByteBits, Rev;
    var a, b := BytesBits(Key(p)), BytesBits(Key(q));
    forall i | 0 <= i < 64 && i % 8 != 7 ensures a[i] == b[i] {
      BytesAt(Key(p), i / 8, i % 8);
      BytesAt(Key(q), i / 8, i % 8);
      ReversedByte(Code(p, i / 8), Code(q, i / 8), i % 8);
    }
    ParityIgnored(a, b);
  }
}
