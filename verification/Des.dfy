/** DES as the VNC password response uses it (FIPS 46-3, section 7.2.2 of RFC 6143): the
    cipher on bit strings, most significant bit first, and its algebra. */
module Des {
  import opened DesTables

  type Bits = seq<bool>

  // ---- the cipher ---------------------------------------------------------------------

  function Permute(x: Bits, t: Rows): (r: Bits)
    requires InWidth(t, |x|)
    ensures |r| == 8 * |t|
  {
    seq(8 * |t|, i requires 0 <= i < 8 * |t| => x[At(t, i) - 1])
  }

  function Xor(a: Bits, b: Bits): (r: Bits)
    requires |a| == |b|
    ensures |r| == |a|
  {
    seq(|a|, i requires 0 <= i < |a| => a[i] != b[i])
  }

  function Complement(a: Bits): (r: Bits)
    ensures |r| == |a|
  {
    seq(|a|, i requires 0 <= i < |a| => !a[i])
  }

  function Rotate(x: Bits, k: nat): (r: Bits)
    requires k <= |x|
    ensures |r| == |x|
  {
    x[k..] + x[..k]
  }

  function B(b: bool): nat { if b then 1 else 0 }

  /** What one S-box makes of its six bits: the outer two choose the row. */
  function Substitute(x: Bits, index: nat): Nibble
    requires |x| == 6 && index < 8
  {
    var (row, column) := (2 * B(x[0]) + B(x[5]), 8 * B(x[1]) + 4 * B(x[2]) + 2 * B(x[3]) + B(x[4]));
    Box(index)[row][column]
  }

  function NibbleBits(v: Nibble): (r: Bits)
    ensures |r| == 4
  {
    [v / 8 == 1, v / 4 % 2 == 1, v / 2 % 2 == 1, v % 2 == 1]
  }

  /** The S-boxes from the given one on. */
  function SBoxes(x: Bits, index: nat): (r: Bits)
    requires index <= 8 && |x| == 6 * (8 - index)
    ensures |r| == 4 * (8 - index)
    decreases 8 - index
  {
    if index == 8 then [] else NibbleBits(Substitute(x[..6], index)) + SBoxes(x[6..], index + 1)
  }

  function Feistel(right: Bits, subkey: Bits): (r: Bits)
    requires |right| == 32 && |subkey| == 48
    ensures |r| == 32
  {
    TableWidths();
    Permute(SBoxes(Xor(Permute(right, E), subkey), 0), P)
  }

  ghost predicate Keys(ks: seq<Bits>) {
    forall i :: 0 <= i < |ks| ==> |ks[i]| == 48
  }

  /** The rounds, one for each subkey, from both halves to both halves. */
  function Rounds(left: Bits, right: Bits, ks: seq<Bits>): (r: (Bits, Bits))
    requires |left| == 32 && |right| == 32 && Keys(ks)
    ensures |r.0| == |r.1| == 32
    decreases |ks|
  {
    if ks == [] then (left, right)
    else Rounds(right, Xor(left, Feistel(right, ks[0])), ks[1..])
  }

  /** The network with any list of subkeys. */
  function Network(block: Bits, ks: seq<Bits>): (r: Bits)
    requires |block| == 64 && Keys(ks)
    ensures |r| == 64
  {
    TableWidths();
    var initial := Permute(block, IP);
    var (left, right) := Rounds(initial[..32], initial[32..], ks);
    Permute(right + left, FP)
  }

  /** The subkeys still to come from round i on. */
  function Schedule(left: Bits, right: Bits, i: nat): (ks: seq<Bits>)
    requires |left| == 28 && |right| == 28 && i <= 16
    ensures |ks| == 16 - i && Keys(ks)
    decreases 16 - i
  {
    TableWidths();
    if i == 16 then []
    else
      var (l, r) := (Rotate(left, ROTATIONS[i]), Rotate(right, ROTATIONS[i]));
      [Permute(l + r, PC2)] + Schedule(l, r, i + 1)
  }

  function Subkeys(key: Bits): (ks: seq<Bits>)
    requires |key| == 64
    ensures |ks| == 16 && Keys(ks)
  {
    TableWidths();
    var key56 := Permute(key, PC1);
    Schedule(key56[..28], key56[28..], 0)
  }

  function Encrypt(block: Bits, key: Bits): (r: Bits)
    requires |block| == 64 && |key| == 64
    ensures |r| == 64
  {
    Network(block, Subkeys(key))
  }

  function Reversed(ks: seq<Bits>): (r: seq<Bits>)
    requires Keys(ks)
    ensures |r| == |ks| && Keys(r)
  {
    seq(|ks|, i requires 0 <= i < |ks| => ks[|ks| - 1 - i])
  }

  function Decrypt(block: Bits, key: Bits): (r: Bits)
    requires |block| == 64 && |key| == 64
    ensures |r| == 64
  {
    Network(block, Reversed(Subkeys(key)))
  }

  // ---- decryption ----------------------------------------------------------------------

  lemma XorTwice(a: Bits, b: Bits)
    requires |a| == |b|
    ensures Xor(Xor(a, b), b) == a
  {
  }

  lemma {:induction false} RoundsConcat(left: Bits, right: Bits, a: seq<Bits>, b: seq<Bits>)
    requires |left| == 32 && |right| == 32 && Keys(a) && Keys(b)
    ensures var m := Rounds(left, right, a);
            Rounds(left, right, a + b) == Rounds(m.0, m.1, b)
    decreases |a|
  {
    hide Feistel, Xor;
    if a == [] {
      assert a + b == b;
    } else {
      assert (a + b)[1..] == a[1..] + b;
      RoundsConcat(right, Xor(left, Feistel(right, a[0])), a[1..], b);
    }
  }

  lemma OneRound(left: Bits, right: Bits, k: Bits)
    requires |left| == 32 && |right| == 32 && |k| == 48
    ensures Keys([k]) && Rounds(left, right, [k]) == (right, Xor(left, Feistel(right, k)))
  {
    hide Feistel, Xor;
    assert [k][1..] == [];
  }

  /** The rounds with the subkeys in the opposite order, on the halves exchanged, give back
      the halves exchanged. */
  lemma {:induction false} RoundsUndo(left: Bits, right: Bits, ks: seq<Bits>)
    requires |left| == 32 && |right| == 32 && Keys(ks)
    ensures var m := Rounds(left, right, ks);
            Rounds(m.1, m.0, Reversed(ks)) == (right, left)
    decreases |ks|
  {
    hide Feistel, Xor;
    if ks == [] {
    } else {
      var k, rest := ks[0], ks[1..];
      var next := Xor(left, Feistel(right, k));
      var m := Rounds(right, next, rest);
      RoundsUndo(right, next, rest);
      assert Reversed(ks) == Reversed(rest) + [k];
      RoundsConcat(m.1, m.0, Reversed(rest), [k]);
      OneRound(next, right, k);
      XorTwice(left, Feistel(right, k));
    }
  }

  lemma PermuteUndo(x: Bits, p: Rows, q: Rows)
    requires |p| == |q| == 8 && |x| == 64 && InWidth(p, 64) && InWidth(q, 64)
    requires forall i :: 0 <= i < 64 ==> At(q, At(p, i) - 1) == i + 1
    ensures Permute(Permute(x, q), p) == x
  {
  }

  lemma HalvesUndo(a: Bits, b: Bits)
    requires |a| == |b| == 32
    ensures |IP| == |FP| == 8 && InWidth(IP, 64) && InWidth(FP, 64)
    ensures var x := Permute(Permute(a + b, FP), IP); x[..32] == a && x[32..] == b
  {
    TableWidths();
    TablesUndo();
    PermuteUndo(a + b, IP, FP);
  }

  /** The network with the subkeys reversed undoes the network. */
  lemma NetworkUndo(block: Bits, ks: seq<Bits>)
    requires |block| == 64 && Keys(ks)
    ensures Network(Network(block, ks), Reversed(ks)) == block
  {
    hide Feistel, Rounds, Permute, InWidth;
    TableWidths();
    var initial := Permute(block, IP);
    var m := Rounds(initial[..32], initial[32..], ks);
    HalvesUndo(m.1, m.0);
    RoundsUndo(initial[..32], initial[32..], ks);
    assert initial[..32] + initial[32..] == initial;
    assert Permute(initial, FP) == block by {
      TablesUndo();
      PermuteUndo(block, FP, IP);
    }
  }

  /** Decryption undoes encryption and encryption decryption, for every key. */
  lemma RoundTrip(block: Bits, key: Bits)
    requires |block| == 64 && |key| == 64
    ensures Decrypt(Encrypt(block, key), key) == block
    ensures Encrypt(Decrypt(block, key), key) == block
  {
    hide Network, Subkeys, Feistel;
    var ks := Subkeys(key);
    NetworkUndo(block, ks);
    NetworkUndo(block, Reversed(ks));
    assert Reversed(Reversed(ks)) == ks;
  }

  // ---- complementation -------------------------------------------------------------------

  lemma XorComplements(a: Bits, b: Bits)
    requires |a| == |b|
    ensures Xor(Complement(a), Complement(b)) == Xor(a, b)
    ensures Xor(Complement(a), b) == Complement(Xor(a, b))
  {
  }

  lemma PermuteComplement(x: Bits, t: Rows)
    requires InWidth(t, |x|)
    ensures Permute(Complement(x), t) == Complement(Permute(x, t))
  {
  }

  function Complements(ks: seq<Bits>): (r: seq<Bits>)
    requires Keys(ks)
    ensures |r| == |ks| && Keys(r)
  {
    seq(|ks|, i requires 0 <= i < |ks| => Complement(ks[i]))
  }

  lemma FeistelComplement(right: Bits, k: Bits)
    requires |right| == 32 && |k| == 48
    ensures Feistel(Complement(right), Complement(k)) == Feistel(right, k)
  {
    hide SBoxes;
    TableWidths();
    PermuteComplement(right, E);
    XorComplements(Permute(right, E), k);
  }

  lemma {:induction false} RoundsComplement(left: Bits, right: Bits, ks: seq<Bits>)
    requires |left| == 32 && |right| == 32 && Keys(ks)
    ensures var m := Rounds(left, right, ks);
            Rounds(Complement(left), Complement(right), Complements(ks)) == (Complement(m.0), Complement(m.1))
    decreases |ks|
  {
    hide Feistel, Xor;
    if ks == [] {
    } else {
      FeistelComplement(right, ks[0]);
      XorComplements(left, Feistel(right, ks[0]));
      assert Complements(ks)[1..] == Complements(ks[1..]);
      RoundsComplement(right, Xor(left, Feistel(right, ks[0])), ks[1..]);
    }
  }

  lemma RotateComplement(x: Bits, k: nat)
    requires k <= |x|
    ensures Rotate(Complement(x), k) == Complement(Rotate(x, k))
  {
  }

  lemma ConcatComplement(a: Bits, b: Bits)
    ensures Complement(a) + Complement(b) == Complement(a + b)
  {
  }

  lemma ComplementsStep(ks: seq<Bits>, k: Bits)
    requires Keys(ks) && |k| == 48
    ensures Keys([k] + ks) && Complements([k] + ks) == [Complement(k)] + Complements(ks)
  {
  }

  lemma {:induction false} ScheduleComplement(left: Bits, right: Bits, i: nat)
    requires |left| == 28 && |right| == 28 && i <= 16
    ensures Schedule(Complement(left), Complement(right), i) == Complements(Schedule(left, right, i))
    decreases 16 - i
  {
    hide Permute, Complement, Rotate, Complements, InWidth;
    TableWidths();
    if i < 16 {
      var k := ROTATIONS[i];
      var (l, r) := (Rotate(left, k), Rotate(right, k));
      RotateComplement(left, k);
      RotateComplement(right, k);
      ConcatComplement(l, r);
      PermuteComplement(l + r, PC2);
      ScheduleComplement(l, r, i + 1);
      ComplementsStep(Schedule(l, r, i + 1), Permute(l + r, PC2));
    } else {
      assert Complements([]) == [] by { NoKeys(); }
    }
  }

  lemma NoKeys()
    ensures Complements([]) == []
  {
  }

  /** The complementation property: with block and key complemented, so is the result. */
  lemma Complementation(block: Bits, key: Bits)
    requires |block| == 64 && |key| == 64
    ensures Encrypt(Complement(block), Complement(key)) == Complement(Encrypt(block, key))
  {
    hide Permute, Rounds, Schedule;
    TableWidths();
    PermuteComplement(key, PC1);
    var key56 := Permute(key, PC1);
    assert Complement(key56)[..28] == Complement(key56[..28]) && Complement(key56)[28..] == Complement(key56[28..]);
    ScheduleComplement(key56[..28], key56[28..], 0);
    PermuteComplement(block, IP);
    var initial := Permute(block, IP);
    assert Complement(initial)[..32] == Complement(initial[..32]) && Complement(initial)[32..] == Complement(initial[32..]);
    RoundsComplement(initial[..32], initial[32..], Subkeys(key));
    var m := Rounds(initial[..32], initial[32..], Subkeys(key));
    assert Complement(m.1) + Complement(m.0) == Complement(m.1 + m.0);
    PermuteComplement(m.1 + m.0, FP);
  }

  // ---- what of the key matters -------------------------------------------------------------

  /** Two keys that differ only in their parity bits, every eighth one. */
  ghost predicate SameButParity(a: Bits, b: Bits) {
    |a| == |b| == 64 && forall i :: 0 <= i < 64 && i % 8 != 7 ==> a[i] == b[i]
  }

  lemma ParityIgnored(a: Bits, b: Bits)
    requires SameButParity(a, b)
    ensures Subkeys(a) == Subkeys(b)
  {
    TableWidths();
    NoParity();
    assert Permute(a, PC1) == Permute(b, PC1);
  }
}
