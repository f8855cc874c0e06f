/** Bit strings as lists of fields, lowest bit first: what a writer leaves in a buffer
    and what a reader finds at the front of it. */
module Fields {
  import opened Words
  import opened BitStream

  datatype Field = Field(value: nat, width: nat)

  function Width(fs: seq<Field>): nat {
    if fs == [] then 0 else fs[0].width + Width(fs[1..])
  }

  function Num(fs: seq<Field>): nat {
    if fs == [] then 0 else fs[0].value + Shl(Num(fs[1..]), fs[0].width)
  }

  /** Every value fits its field, and every field fits one write. */
  ghost predicate Sound(fs: seq<Field>) {
    forall f :: f in fs ==> f.value < Pow2(f.width) && f.width <= 16
  }

  lemma {:induction false} WidthConcat(a: seq<Field>, b: seq<Field>)
    ensures Width(a + b) == Width(a) + Width(b)
  {
    if a == [] {
      assert a + b == b;
    } else {
      assert (a + b)[1..] == a[1..] + b;
      WidthConcat(a[1..], b);
    }
  }

  lemma {:induction false} NumConcat(a: seq<Field>, b: seq<Field>)
    ensures Num(a + b) == Num(a) + Shl(Num(b), Width(a))
  {
    if a == [] {
      assert a + b == b;
    } else {
      hide Shl;
      assert (a + b)[1..] == a[1..] + b;
      NumConcat(a[1..], b);
      ShlAdd(Num(a[1..]), Shl(Num(b), Width(a[1..])), a[0].width);
      ShlShl(Num(b), Width(a[1..]), a[0].width);
    }
  }

  lemma {:induction false} NumRange(fs: seq<Field>)
    requires Sound(fs)
    ensures Num(fs) < Pow2(Width(fs))
  {
    if fs == [] {
      Pow2Values();
    } else {
      hide Shl;
      NumRange(fs[1..]);
      var w := fs[0].width;
      assert fs[0] in fs;
      SumRange(fs[0].value, Num(fs[1..]), w, Width(fs[1..]));
    }
  }

  // ---- reading ---------------------------------------------------------------

  /** The bits of z begin with these fields. */
  predicate StartsWith(z: nat, fs: seq<Field>) {
    Low(z, Width(fs)) == Num(fs)
  }

  lemma StartsConcat(z: nat, a: seq<Field>, b: seq<Field>)
    requires Sound(a) && StartsWith(z, a + b)
    ensures StartsWith(z, a) && StartsWith(Shr(z, Width(a)), b)
  {
    hide Shl, Low, Shr;
    var m := Width(a);
    WidthConcat(a, b);
    NumConcat(a, b);
    NumRange(a);
    ShrLow(z, m, Width(b));
    Split(z, m);
    Join(Num(a), Num(b), m);
    Join(Low(z, m), Low(Shr(z, m), Width(b)), m);
  }

  lemma StartsField(z: nat, f: Field, rest: seq<Field>)
    requires f.value < Pow2(f.width) && f.width <= 16 && StartsWith(z, [f] + rest)
    ensures Low(z, f.width) == f.value && StartsWith(Shr(z, f.width), rest)
  {
    hide Shl, Low, Shr;
    assert Sound([f]);
    StartsConcat(z, [f], rest);
    OneField(f);
  }

  lemma OneField(f: Field)
    ensures Width([f]) == f.width && Num([f]) == f.value
  {
    hide Shl;
    assert [f][1..] == [];
    ShlAdd(0, 0, f.width);
  }

  // ---- writing ----------------------------------------------------------------

  /** d' and p' are d and p after the fields have been written at p. */
  ghost predicate Wrote(d: seq<byte>, p: nat, fs: seq<Field>, d': seq<byte>, p': nat) {
    |d'| == |d| && p' == p + Width(fs) && LE(d') == LE(d) + Shl(Num(fs), p) < Pow2(p')
  }

  lemma WroteNothing(d: seq<byte>, p: nat)
    requires LE(d) < Pow2(p)
    ensures Wrote(d, p, [], d, p)
  {
    assert Shl(0, p) == 0;
  }

  lemma WroteMore(d: seq<byte>, p: nat, a: seq<Field>, d1: seq<byte>, p1: nat, b: seq<Field>, d2: seq<byte>, p2: nat)
    requires Wrote(d, p, a, d1, p1) && Wrote(d1, p1, b, d2, p2)
    ensures Wrote(d, p, a + b, d2, p2)
  {
    hide Shl, LE;
    WidthConcat(a, b);
    NumConcat(a, b);
    ShlAdd(Num(a), Shl(Num(b), Width(a)), p);
    ShlShl(Num(b), Width(a), p);
  }

  lemma WroteOne(d: seq<byte>, p: nat, f: Field)
    requires Room(d, p, f.width) && f.value < Pow2(f.width) && f.width <= 16
    ensures Wrote(d, p, [f], Put(d, p, f.value), p + f.width)
  {
    PutAdds(d, p, f.value, f.width);
    OneField(f);
  }

  /** What has been written is what will be read. */
  lemma WroteReads(d: seq<byte>, p: nat, fs: seq<Field>, d': seq<byte>, p': nat)
    requires LE(d) < Pow2(p) && Sound(fs) && Wrote(d, p, fs, d', p')
    ensures StartsWith(Shr(LE(d'), p), fs)
  {
    hide Shl, LE, Low, Shr;
    Join(LE(d), Num(fs), p);
    NumRange(fs);
    LowSmall(Num(fs), Width(fs));
  }
}
