/** Run-length coding of code lengths: `lc` of the bundled fflate code and the reader's
    rules for symbols 16, 17 and 18, section 3.2.7 of RFC 1951. */
module CodeLengths {
  import opened Words

  // A word packs a symbol (5 bits), the value of its extra bits (7 bits) and their number.
  function Sym(w: nat): nat { w % 32 }

  function Extra(w: nat): nat { w / 32 % 128 }

  function ExtraBits(w: nat): nat { w / 4096 }

  /** How many extra bits the reader takes after a symbol. */
  function ReadBits(sym: nat): nat {
    if sym == 16 then 2 else if sym == 17 then 3 else if sym == 18 then 7 else 0
  }

  function Rep(n: nat, x: nat): (r: seq<nat>)
    ensures |r| == n
  {
    seq(n, _ => x)
  }

  /** What the reader appends for one symbol and its extra value. A copy of the previous
      length at the very start copies an undefined cell, which reads back as 0. */
  function Append(acc: seq<nat>, sym: nat, extra: nat): seq<nat> {
    if sym < 16 then acc + [sym]
    else if sym == 16 then acc + Rep(3 + extra, if acc == [] then 0 else acc[|acc| - 1])
    else if sym == 17 then acc + Rep(3 + extra, 0)
    else acc + Rep(11 + extra, 0)
  }

  function Expand(ws: seq<nat>): seq<nat> {
    if ws == [] then []
    else
      var w := ws[|ws| - 1];
      Append(Expand(ws[..|ws| - 1]), Sym(w), Extra(w))
  }

  predicate WordOk(w: nat) {
    Sym(w) <= 18 && ExtraBits(w) == ReadBits(Sym(w)) && Extra(w) < Pow2(ExtraBits(w))
  }

  /** c up to its last nonzero length, which is never shorter than one. */
  ghost predicate StripsTo(c: seq<nat>, n: nat) {
    && 1 <= n && (n <= |c| || n == 1)
    && (forall i :: n <= i < |c| ==> c[i] == 0)
    && (n > 1 ==> c[n - 1] != 0)
  }

  function Stripped(c: seq<nat>, n: nat): (r: seq<nat>)
    ensures |r| == n
  {
    seq(n, i requires 0 <= i => Cell(c, i))
  }

  lemma RepMore(x: nat, a: nat, b: nat)
    ensures Rep(a, x) + Rep(b, x) == Rep(a + b, x)
  {
  }

  /** The constants `lc` packs its words from. */
  lemma WordValues(k: nat)
    ensures k < 16 ==> Sym(k) == k && Extra(k) == 0 && ExtraBits(k) == 0
    ensures k < 4 ==> Sym(32 * k + 8208) == 16 && Extra(32 * k + 8208) == k && ExtraBits(32 * k + 8208) == 2
    ensures k < 8 ==> Sym(32 * k + 12305) == 17 && Extra(32 * k + 12305) == k && ExtraBits(32 * k + 12305) == 3
    ensures k < 128 ==> Sym(32 * k + 28690) == 18 && Extra(32 * k + 28690) == k && ExtraBits(32 * k + 28690) == 7
  {
  }

  /** `w(v)`, with what it does to the expansion. */
  method PutWord(cl: array<nat>, cli: nat, v: nat) returns (next: nat)
    requires cli < cl.Length
    modifies cl
    ensures next == cli + 1 && cl[cli] == v
    ensures forall i :: 0 <= i < cl.Length && i != cli ==> cl[i] == old(cl[i])
    ensures Expand(cl[..next]) == Append(old(Expand(cl[..cli])), Sym(v), Extra(v))
  {
    cl[cli] := v;
    next := cli + 1;
    assert cl[..next][..cli] == old(cl[..cli]);
  }

  /** What every stage of a run leaves: words for the lengths consumed so far. */
  ghost predicate RunState(cl: seq<nat>, head: seq<nat>, next: nat, start: seq<nat>, done: nat, x: nat) {
    && |head| <= next <= |head| + done && next <= |cl| && head <= cl
    && (forall i :: 0 <= i < next ==> WordOk(cl[i]))
    && Expand(cl[..next]) == start + Rep(done, x)
    && (next > |head| ==> Sym(cl[|head|]) != 16)
    && (done > 0 ==> next > |head|)
  }

  /** One word standing for the next k lengths of a run. */
  method RunWord(cl: array<nat>, ghost head: seq<nat>, next: nat, ghost start: seq<nat>, ghost done: nat, ghost x: nat,
                 v: nat, ghost k: nat) returns (after: nat)
    requires RunState(cl[..], head, next, start, done, x) && next < cl.Length && k > 0 && WordOk(v)
    requires done > 0 || Sym(v) != 16
    requires Append(start + Rep(done, x), Sym(v), Extra(v)) == start + Rep(done, x) + Rep(k, x)
    modifies cl
    ensures after == next + 1 && RunState(cl[..], head, after, start, done + k, x)
  {
    assert cl[..][..next] == cl[..next];
    after := PutWord(cl, next, v);
    assert cl[..][..after] == cl[..after];
    RepMore(x, done, k);
    assert start + Rep(done, x) + Rep(k, x) == start + (Rep(done, x) + Rep(k, x));
  }

  method EndZeroRun(cl: array<nat>, ghost head: seq<nat>, cli: nat, cls: nat, ghost start: seq<nat>) returns (next: nat, left: nat)
    requires cls > 2 && |head| == cli && cli + cls <= cl.Length && RunState(cl[..], head, cli, start, 0, 0)
    modifies cl
    ensures left <= cls && RunState(cl[..], head, next, start, cls - left, 0)
  {
    hide RunState;
    Pow2Values();
    left := cls;
    next := cli;
    while left > 138
      invariant 0 < left <= cls && next <= cli + cls - left
      invariant RunState(cl[..], head, next, start, cls - left, 0)
    {
      WordValues(127);
      next := RunWord(cl, head, next, start, cls - left, 0, 32754, 138);
      left := left - 138;
    }
    if left > 2 {
      WordValues(if left > 10 then left - 11 else left - 3);
      next := RunWord(cl, head, next, start, cls - left, 0,
                      if left > 10 then 32 * (left - 11) + 28690 else 32 * (left - 3) + 12305, left);
      left := 0;
    }
  }

  method EndCopyRun(cl: array<nat>, ghost head: seq<nat>, cli: nat, cln: nat, cls: nat, ghost start: seq<nat>) returns (next: nat, left: nat)
    requires cln < 16 && cls > 3 && |head| == cli && cli + cls <= cl.Length && RunState(cl[..], head, cli, start, 0, cln)
    modifies cl
    ensures left <= cls && RunState(cl[..], head, next, start, cls - left, cln)
  {
    hide RunState;
    Pow2Values();
    WordValues(cln);
    next := RunWord(cl, head, cli, start, 0, cln, cln, 1);
    left := cls - 1;
    while left > 6
      invariant 0 < left < cls && next <= cli + cls - left
      invariant RunState(cl[..], head, next, start, cls - left, cln)
    {
      WordValues(3);
      next := RunWord(cl, head, next, start, cls - left, cln, 8304, 6);
      left := left - 6;
    }
    if left > 2 {
      WordValues(left - 3);
      next := RunWord(cl, head, next, start, cls - left, cln, 32 * (left - 3) + 8208, left);
      left := 0;
    }
  }

  /** Ends a run of cls lengths equal to cln: no more words than lengths. */
  method EndRun(cl: array<nat>, cli: nat, cln: nat, cls: nat) returns (next: nat)
    requires cln < 16 && 0 < cls && cli + cls <= cl.Length
    requires forall i :: 0 <= i < cli ==> WordOk(cl[i])
    modifies cl
    ensures cli < next <= cli + cls && Sym(cl[cli]) != 16
    ensures forall i :: 0 <= i < cli ==> cl[i] == old(cl[i])
    ensures forall i :: 0 <= i < next ==> WordOk(cl[i])
    ensures Expand(cl[..next]) == old(Expand(cl[..cli])) + Rep(cls, cln)
  {
    hide RunState, Expand, Append, Rep;
    ghost var head := cl[..cli];
    ghost var start := Expand(head);
    var left := cls;
    next := cli;
    StartRun(cl[..], head, cln);
    if cln == 0 && left > 2 {
      next, left := EndZeroRun(cl, head, cli, cls, start);
    } else if left > 3 {
      next, left := EndCopyRun(cl, head, cli, cln, cls, start);
    }
    while left > 0
      invariant 0 <= left <= cls
      invariant RunState(cl[..], head, next, start, cls - left, cln)
    {
      next := PlainWord(cl, head, next, start, cls - left, cln);
      left := left - 1;
    }
    FinishRun(cl[..], head, next, start, cls, cln);
    assert cl[..][..next] == cl[..next];
    assert forall i :: 0 <= i < cli ==> cl[i] == head[i];
  }

  lemma StartRun(cl: seq<nat>, head: seq<nat>, x: nat)
    requires head <= cl && forall i :: 0 <= i < |head| ==> WordOk(cl[i])
    ensures RunState(cl, head, |head|, Expand(head), 0, x)
  {
    hide Expand, WordOk;
    assert cl[..|head|] == head;
    assert Expand(head) + Rep(0, x) == Expand(head);
  }

  lemma FinishRun(cl: seq<nat>, head: seq<nat>, next: nat, start: seq<nat>, done: nat, x: nat)
    requires RunState(cl, head, next, start, done, x) && done > 0
    ensures |head| < next <= |head| + done && next <= |cl| && head <= cl && Sym(cl[|head|]) != 16
    ensures forall i :: 0 <= i < next ==> WordOk(cl[i])
    ensures Expand(cl[..next]) == start + Rep(done, x)
  {
  }

  /** `w(cln)` inside a run. */
  method PlainWord(cl: array<nat>, ghost head: seq<nat>, next: nat, ghost start: seq<nat>, ghost done: nat, x: nat)
      returns (after: nat)
    requires x < 16 && RunState(cl[..], head, next, start, done, x) && |head| + done < cl.Length
    modifies cl
    ensures RunState(cl[..], head, after, start, done + 1, x)
  {
    WordValues(x);
    after := RunWord(cl, head, next, start, done, x, x, 1);
  }

  lemma NoWords(ws: seq<nat>)
    requires ws == []
    ensures Expand(ws) == []
  {
  }

  /** The scan of `lc` for the last nonzero length. */
  method StripLength(c: seq<nat>) returns (n: nat)
    ensures StripsTo(c, n)
  {
    var s := |c|;
    while s > 0
      invariant 0 <= s <= |c|
      invariant forall i :: s <= i < |c| ==> c[i] == 0
    {
      s := s - 1;
      if c[s] != 0 {
        break;
      }
    }
    n := s + 1;
  }

  /** `lc(c)`: the words expand back to the vector up to its trailing zeros, and there is
      room for them in the n cells allocated. */
  method Lc(c: seq<nat>) returns (cl: array<nat>, cli: nat, n: nat)
    requires forall i :: 0 <= i < |c| ==> c[i] < 16
    ensures fresh(cl) && cl.Length == n && 0 < cli <= n
    ensures StripsTo(c, n)
    ensures Sym(cl[0]) != 16
    ensures forall i :: 0 <= i < cli ==> WordOk(cl[i])
    ensures Expand(cl[..cli]) == Stripped(c, n)
  {
    hide Expand, WordOk, StripsTo, Rep, Stripped;
    n := StripLength(c);
    assert n >= 1 by { AtLeastOne(c, n); }
    cl := new nat[n](_ => 0);
    cli := 0;
    var cln, cls := Cell(c, 0), 1;
    NoWords(cl[..0]);
    StrippedGrows(c, 0);
    for i := 1 to n
      invariant 1 <= cls && cli + cls <= i && cln == Cell(c, i - 1)
      invariant forall k :: 0 <= k < cli ==> WordOk(cl[k])
      invariant Expand(cl[..cli]) + Rep(cls, cln) == Stripped(c, i)
      invariant cli > 0 ==> Sym(cl[0]) != 16
    {
      StrippedGrows(c, i);
      if Cell(c, i) == cln {
        RunGrows(Expand(cl[..cli]), cls, cln);
        cls := cls + 1;
      } else {
        cli := EndRun(cl, cli, cln, cls);
        cls := 1;
        cln := Cell(c, i);
      }
    }
    cli := EndRun(cl, cli, cln, cls);
  }

  lemma AtLeastOne(c: seq<nat>, n: nat)
    requires StripsTo(c, n)
    ensures n >= 1
  {
  }

  lemma StrippedGrows(c: seq<nat>, i: nat)
    ensures Stripped(c, i + 1) == Stripped(c, i) + Rep(1, Cell(c, i))
    ensures Stripped(c, 0) == []
  {
  }

  lemma RunGrows(start: seq<nat>, n: nat, x: nat)
    ensures start + Rep(n, x) + Rep(1, x) == start + Rep(n + 1, x)
  {
    assert Rep(n + 1, x) == Rep(n, x) + Rep(1, x);
  }
}
