/** The address bar's history: trimmed, distinct, resolvable, at most a hundred entries,
    the latest first. */
module AddressHistory {
  import opened Text

  const LIMIT := 100

  /** White space, and what `resolveAddressInput` accepts. */
  datatype Env = Env(space: char -> bool, resolves: string -> bool)

  predicate Wanted(env: Env, s: string) {
    s != "" && env.resolves(s)
  }

  /** The loop of `normalizeAddressHistory` with what it has collected. */
  function Collect(env: Env, inputs: seq<string>, out: seq<string>): (r: seq<string>)
    ensures out <= r
  {
    if inputs == [] || |out| >= LIMIT then out
    else
      var s := Trim(inputs[0], env.space);
      Collect(env, inputs[1..], if Wanted(env, s) && s !in out then out + [s] else out)
  }

  function Normalize(env: Env, inputs: seq<string>): seq<string> {
    Collect(env, inputs, [])
  }

  /** `normalizeAddressHistory(inputs)` */
  method NormalizeAddressHistory(env: Env, inputs: seq<string>) returns (out: seq<string>)
    ensures out == Normalize(env, inputs)
  {
    out := [];
    var seen: set<string> := {};
    assert inputs[0..] == inputs;
    for i := 0 to |inputs|
      invariant |out| < LIMIT && (forall s :: s in seen <==> s in out)
      invariant Normalize(env, inputs) == Collect(env, inputs[i..], out)
    {
      assert inputs[i..][0] == inputs[i] && inputs[i..][1..] == inputs[i + 1..];
      var input := Trim(inputs[i], env.space);
      if input == "" || input in seen {
        continue;
      }
      if !env.resolves(input) {
        continue;
      }
      seen := seen + {input};
      out := out + [input];
      if |out| >= LIMIT {
        break;
      }
    }
  }

  // ---- what comes out -----------------------------------------------------------------

  ghost predicate Distinct(s: seq<string>) {
    forall i, j :: 0 <= i < j < |s| ==> s[i] != s[j]
  }

  /** A history as it is kept. */
  ghost predicate Clean(env: Env, s: seq<string>) {
    && |s| <= 100 && Distinct(s)
    && forall i :: 0 <= i < |s| ==> Wanted(env, s[i]) && Trimmed(s[i], env.space)
  }

  lemma {:induction false} CollectClean(env: Env, inputs: seq<string>, out: seq<string>)
    requires Clean(env, out)
    ensures Clean(env, Collect(env, inputs, out))
    decreases |inputs|
  {
    if inputs != [] && |out| < LIMIT {
      var s := Trim(inputs[0], env.space);
      TrimTrims(inputs[0], env.space);
      CollectClean(env, inputs[1..], if Wanted(env, s) && s !in out then out + [s] else out);
    }
  }

  /** What is kept, from the inputs alone: those wanted, each where it comes first. */
  function Firsts(env: Env, inputs: seq<string>): seq<string> {
    if inputs == [] then []
    else
      var front, s := Firsts(env, inputs[..|inputs| - 1]), Trim(inputs[|inputs| - 1], env.space);
      if s != "" && env.resolves(s) && s !in front then front + [s] else front
  }

  function Upto(s: seq<string>): seq<string> {
    if |s| <= 100 then s else s[..100]
  }

  lemma {:induction false} FirstsGrow(env: Env, inputs: seq<string>, n: nat)
    requires n <= |inputs|
    ensures Firsts(env, inputs[..n]) <= Firsts(env, inputs)
    decreases |inputs| - n
  {
    if n < |inputs| {
      assert inputs[..n + 1][..n] == inputs[..n];
      FirstsGrow(env, inputs, n + 1);
    } else {
      assert inputs[..n] == inputs;
    }
  }

  lemma {:induction false} CollectIsFirsts(env: Env, inputs: seq<string>, n: nat)
    requires n <= |inputs| && |Firsts(env, inputs[..n])| <= 100
    ensures Collect(env, inputs[n..], Firsts(env, inputs[..n])) == Upto(Firsts(env, inputs))
    decreases |inputs| - n
  {
    var out := Firsts(env, inputs[..n]);
    if n == |inputs| {
      assert inputs[..n] == inputs;
    } else if |out| >= 100 {
      FirstsGrow(env, inputs, n);
    } else {
      assert inputs[n..][0] == inputs[n] && inputs[n..][1..] == inputs[n + 1..];
      assert inputs[..n + 1][..n] == inputs[..n];
      CollectIsFirsts(env, inputs, n + 1);
    }
  }

  lemma {:induction false} FirstsOfClean(env: Env, s: seq<string>)
    requires Distinct(s) && forall i :: 0 <= i < |s| ==> Wanted(env, s[i]) && Trimmed(s[i], env.space)
    ensures Firsts(env, s) == s
  {
    if s == [] {
    } else {
      var n := |s| - 1;
      FirstsOfClean(env, s[..n]);
      TrimStays(s[n], env.space);
    }
  }

  /** The loop keeps the first hundred of the distinct wanted inputs, its result is clean,
      and it leaves a clean history as it is. */
  lemma NormalizeMeaning(env: Env, inputs: seq<string>)
    ensures Normalize(env, inputs) == Upto(Firsts(env, inputs))
    ensures Clean(env, Normalize(env, inputs))
    ensures Clean(env, inputs) ==> Normalize(env, inputs) == inputs
    ensures Normalize(env, Normalize(env, inputs)) == Normalize(env, inputs)
  {
    CollectClean(env, inputs, []);
    assert inputs[0..] == inputs && inputs[..0] == [];
    CollectIsFirsts(env, inputs, 0);
    if Clean(env, inputs) {
      FirstsOfClean(env, inputs);
    }
    var once := Normalize(env, inputs);
    assert once[0..] == once && once[..0] == [];
    CollectIsFirsts(env, once, 0);
    FirstsOfClean(env, once);
  }

  lemma {:induction false} FirstsOfCons(env: Env, s: string, rest: seq<string>)
    requires Wanted(env, s) && Trimmed(s, env.space) && Clean(env, rest)
    ensures Firsts(env, [s] + rest) == [s] + Without(rest, s)
    decreases |rest|
  {
    TrimStays(s, env.space);
    var all := [s] + rest;
    if rest == [] {
      assert all[..|all| - 1] == [] && all[0] == s;
    } else {
      var n := |rest| - 1;
      assert all[..|all| - 1] == [s] + rest[..n] && all[|all| - 1] == rest[n];
      FirstsOfCons(env, s, rest[..n]);
      TrimStays(rest[n], env.space);
      WithoutMembers(rest[..n], s);
    }
  }

  function Without(s: seq<string>, x: string): seq<string> {
    if s == [] then []
    else Without(s[..|s| - 1], x) + if s[|s| - 1] == x then [] else [s[|s| - 1]]
  }

  lemma {:induction false} WithoutMembers(s: seq<string>, x: string)
    ensures forall y :: y in Without(s, x) ==> y in s && y != x
  {
    if s == [] {
    } else {
      WithoutMembers(s[..|s| - 1], x);
    }
  }

  /** Entering an address puts it first, and keeps the rest in order without it, up to the
      limit. */
  lemma EnterMeaning(env: Env, input: string, history: seq<string>)
    requires Clean(env, history) && Wanted(env, Trim(input, env.space))
    ensures var s := Trim(input, env.space);
            Normalize(env, [s] + history) == Upto([s] + Without(history, s))
  {
    var s := Trim(input, env.space);
    TrimTrims(input, env.space);
    NormalizeMeaning(env, [s] + history);
    FirstsOfCons(env, s, history);
  }
}
