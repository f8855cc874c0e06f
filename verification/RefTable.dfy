/** The table through which a WebAssembly guest refers to JavaScript values: boxing hands
    out references, `finalizeRef` takes them back. */
module RefTable {

  /** A JavaScript value. Numbers that are neither zero nor NaN are known by their bits;
      strings by their text, everything else by its identity. */
  datatype Value = Undefined | Null | True | False | NaN | Zero(negative: bool) | Number(hi: nat, lo: nat)
                 | Text(text: string) | Symbol(name: nat) | Function(name: nat) | Object(name: nat)

  const WORD := 0x1_0000_0000

  /** The 64 bits of a reference, in two halves. */
  datatype Ref = Ref(hi: nat, lo: nat)

  const HEAD := 0x7FF80000

  /** Exponent bits all ones, and a fraction that is not zero. */
  predicate IsNaN(hi: nat, lo: nat) { hi / 0x10_0000 % 0x800 == 0x7FF && (hi % 0x10_0000 != 0 || lo != 0) }

  predicate IsZero(hi: nat, lo: nat) { (hi == 0 || hi == 0x8000_0000) && lo == 0 }

  /** Bits of a number that is neither zero nor NaN. */
  predicate Sound(v: Value) { v.Number? ==> v.hi < WORD && v.lo < WORD && !IsNaN(v.hi, v.lo) && !IsZero(v.hi, v.lo) }

  /** Values that go into the table. */
  predicate Tabled(v: Value) { v.Text? || v.Symbol? || v.Function? || v.Object? }

  function Flag(v: Value): nat {
    match v
    case Text(_) => 2
    case Symbol(_) => 3
    case Function(_) => 4
    case _ => 1
  }

  /** The reference to slot id. */
  function Slot(id: nat, flag: nat): Ref { Ref(HEAD + flag, id) }

  /** The references that need no slot of their own. */
  function Fixed(v: Value): Ref
    requires !Tabled(v)
  {
    match v
    case NaN => Slot(0, 0)
    case Zero(_) => Slot(1, 0)
    case Number(hi, lo) => Ref(hi, lo)
    case Undefined => Ref(0, 0)
    case Null => Slot(2, 0)
    case True => Slot(3, 0)
    case False => Slot(4, 0)
    case _ => Ref(0, 0)
  }

  /** The value a guest gets back: of zero, the sign is lost. */
  function Plain(v: Value): Value { if v.Zero? then Zero(false) else v }

  lemma SlotIsNaN(id: nat, flag: nat)
    requires flag < 8
    ensures IsNaN(HEAD + flag, id) && !IsZero(HEAD + flag, id)
  {
  }

  /** The seven slots the table starts with; the last two are the global object and the
      runtime itself. */
  function Initial(global: Value, go: Value): seq<Value> {
    [NaN, Zero(false), Null, True, False, global, go]
  }

  // ---- the table as a value -----------------------------------------------------------------

  /** `_values`, `_goRefCounts`, `_ids` and `_idPool`, with how many references to each slot
      the guest holds. */
  datatype State = State(values: seq<Value>, counts: map<nat, int>, ids: map<Value, nat>, pool: seq<nat>, held: map<nat, nat>)

  function Held(s: State, id: nat): nat { if id in s.held then s.held[id] else 0 }

  /** A slot in use: its value is known under it. */
  predicate Live(s: State, id: nat) { 7 <= id < |s.values| && s.values[id] in s.ids && s.ids[s.values[id]] == id }

  ghost predicate Slots(s: State, global: Value, go: Value) {
    && |s.values| >= 7 && s.values[..7] == Initial(global, go)
    && forall v :: v in s.ids ==> Tabled(v) && 7 <= s.ids[v] < |s.values| && s.values[s.ids[v]] == v
  }

  /** The free slots: none twice, none live, none referred to; with the live ones they are
      everything behind the first seven. */
  ghost predicate Pool(s: State) {
    && (forall i :: 0 <= i < |s.pool| ==> 7 <= s.pool[i] < |s.values| && !Live(s, s.pool[i]))
    && (forall i, j :: 0 <= i < j < |s.pool| ==> s.pool[i] != s.pool[j])
    && |s.values| == 7 + |s.ids| + |s.pool|
  }

  /** A live slot's count is the number of references held, and only live slots are held;
      the count of a slot once freed is spent. */
  ghost predicate Counted(s: State) {
    && (forall v :: v in s.ids ==> s.ids[v] in s.counts && s.counts[s.ids[v]] == Held(s, s.ids[v]))
    && (forall id :: id in s.held && s.held[id] > 0 ==> Live(s, id))
    && forall id :: id in s.counts && !Live(s, id) ==> s.counts[id] <= 0
  }

  ghost predicate Ok(s: State, global: Value, go: Value) {
    Slots(s, global, go) && Pool(s) && Counted(s) && forall v :: v in s.ids ==> Held(s, s.ids[v]) > 0
  }

  function NewSlot(s: State): nat { if s.pool != [] then s.pool[|s.pool| - 1] else |s.values| }

  /** A slot for a value that has none: the one freed last, else a new one. */
  function Take(s: State, v: Value): State
    requires NewSlot(s) <= |s.values|
  {
    var id := NewSlot(s);
    s.(values := if id < |s.values| then s.values[id := v] else s.values + [v], counts := s.counts[id := 0],
       ids := s.ids[v := id], pool := if s.pool != [] then s.pool[..|s.pool| - 1] else [])
  }

  function Up(s: State, id: nat): State
    requires id in s.counts
  {
    s.(counts := s.counts[id := s.counts[id] + 1], held := s.held[id := Held(s, id) + 1])
  }

  /** `boxValue(v)` */
  function Boxed(s: State, v: Value): State
    requires NewSlot(s) <= |s.values| && forall w :: w in s.ids ==> s.ids[w] in s.counts
  {
    if !Tabled(v) then s
    else if v in s.ids then Up(s, s.ids[v])
    else Up(Take(s, v), NewSlot(s))
  }

  /** `finalizeRef`, one reference less, and the slot freed with the last. */
  function Finalized(s: State, id: nat): State
    requires id in s.counts && id < |s.values| && Held(s, id) > 0
  {
    var t := s.(counts := s.counts[id := s.counts[id] - 1], held := s.held[id := Held(s, id) - 1]);
    if t.counts[id] != 0 then t
    else t.(values := s.values[id := Null], ids := s.ids - {s.values[id]}, pool := s.pool + [id])
  }

  /** `finalizeRef` for a slot to which no reference is held: nothing, or a spent count that
      falls further. */
  function Strayed(s: State, id: nat): State {
    if id in s.counts then s.(counts := s.counts[id := s.counts[id] - 1]) else s
  }

  /** It does no harm, and never frees a slot. */
  lemma StrayedOk(s: State, global: Value, go: Value, id: nat)
    requires Ok(s, global, go) && Held(s, id) == 0
    ensures Ok(Strayed(s, id), global, go) && !Live(s, id) && (id in s.counts ==> s.counts[id] <= 0)
  {
    var t := Strayed(s, id);
    HeldIfLive(s, global, go, id);
    SameShape(s, t, global, go);
    hide Slots, Pool, Live;
  }

  lemma HeldIfLive(s: State, global: Value, go: Value, id: nat)
    requires Ok(s, global, go)
    ensures Live(s, id) ==> Held(s, id) > 0
  {
    hide Slots, Pool, Counted;
  }

  lemma SameShape(s: State, t: State, global: Value, go: Value)
    requires t.values == s.values && t.ids == s.ids && t.pool == s.pool
    ensures (Slots(t, global, go) <==> Slots(s, global, go)) && (Pool(t) <==> Pool(s)) && forall k: nat :: Live(t, k) <==> Live(s, k)
  {
  }

  lemma OkFacts(s: State, global: Value, go: Value)
    requires Ok(s, global, go)
    ensures NewSlot(s) <= |s.values| && NewSlot(s) >= 7 && !Live(s, NewSlot(s)) && Held(s, NewSlot(s)) == 0
    ensures forall v :: v in s.ids ==> s.ids[v] in s.counts && s.ids[v] < |s.values| && s.values[s.ids[v]] == v
    ensures forall id :: id in s.held && s.held[id] > 0 ==> Live(s, id)
    ensures forall v :: v in s.ids ==> s.counts[s.ids[v]] == Held(s, s.ids[v]) > 0
  {
  }

  lemma TakeSlots(s: State, global: Value, go: Value, v: Value)
    requires Ok(s, global, go) && Tabled(v) && v !in s.ids
    ensures NewSlot(s) <= |s.values| && Slots(Take(s, v), global, go)
  {
    OkFacts(s, global, go);
    hide Pool, Counted;
    var t, id := Take(s, v), NewSlot(s);
    assert t.values[..7] == s.values[..7];
    forall w | w in t.ids ensures Tabled(w) && 7 <= t.ids[w] < |t.values| && t.values[t.ids[w]] == w {
      assert w != v ==> s.ids[w] != id || Live(s, id);
    }
  }

  lemma TakeDead(s: State, global: Value, go: Value, v: Value, k: nat)
    requires Ok(s, global, go) && Tabled(v) && v !in s.ids && NewSlot(s) <= |s.values|
    requires k < |s.values| && !Live(s, k) && k != NewSlot(s)
    ensures !Live(Take(s, v), k)
  {
    hide Pool, Counted;
  }

  lemma TakePool(s: State, global: Value, go: Value, v: Value)
    requires Ok(s, global, go) && Tabled(v) && v !in s.ids
    ensures NewSlot(s) <= |s.values| && Pool(Take(s, v))
  {
    OkFacts(s, global, go);
    TakeSize(s, v);
    var t, id := Take(s, v), NewSlot(s);
    assert Pool(s);
    forall i | 0 <= i < |t.pool| ensures t.pool[i] == s.pool[i] && t.pool[i] != id {
    }
    hide Counted, Slots, Live, Take, NewSlot, Ok;
    forall i | 0 <= i < |t.pool| ensures !Live(t, t.pool[i]) {
      TakeDead(s, global, go, v, t.pool[i]);
    }
  }

  lemma TakeIs(s: State, v: Value)
    requires NewSlot(s) <= |s.values|
    ensures var t := Take(s, v); v in t.ids && t.ids[v] == NewSlot(s) && NewSlot(s) in t.counts
  {
  }

  lemma TakeSize(s: State, v: Value)
    requires v !in s.ids && NewSlot(s) <= |s.values| && |s.values| == 7 + |s.ids| + |s.pool|
    requires s.pool != [] ==> NewSlot(s) < |s.values|
    ensures var t := Take(s, v); |t.values| == 7 + |t.ids| + |t.pool| && |t.values| >= |s.values|
  {
    assert Take(s, v).ids.Keys == s.ids.Keys + {v};
  }

  lemma TakeCounted(s: State, global: Value, go: Value, v: Value)
    requires Ok(s, global, go) && Tabled(v) && v !in s.ids
    ensures NewSlot(s) <= |s.values| && Counted(Take(s, v))
    ensures forall w :: w in Take(s, v).ids && w != v ==> Take(s, v).ids[w] != NewSlot(s)
  {
    OkFacts(s, global, go);
    hide Pool, Slots, Counted;
    var t, id := Take(s, v), NewSlot(s);
    forall w | w in s.ids ensures s.ids[w] != id {
      assert s.ids[w] != id || Live(s, id);
    }
    forall k: nat ensures Live(t, k) <==> Live(s, k) || k == id {
      TakeLive(s, v, k);
    }
    CountedTaken(s, t, v, id);
  }

  lemma CountedTaken(s: State, t: State, v: Value, id: nat)
    requires Counted(s) && Held(s, id) == 0 && v !in s.ids && forall w :: w in s.ids ==> s.ids[w] != id
    requires t.counts == s.counts[id := 0] && t.ids == s.ids[v := id] && t.held == s.held
    requires forall k: nat :: Live(t, k) <==> Live(s, k) || k == id
    ensures Counted(t)
  {
    hide Live;
  }

  /** Exactly the slot taken comes to life. */
  lemma TakeLive(s: State, v: Value, k: nat)
    requires 7 <= NewSlot(s) <= |s.values| && v !in s.ids && !Live(s, NewSlot(s))
    ensures Live(Take(s, v), k) <==> Live(s, k) || k == NewSlot(s)
  {
    var t, id := Take(s, v), NewSlot(s);
    if k < |s.values| && k != id {
      assert t.values[k] == s.values[k];
    }
  }

  /** Counting up changes nothing else. */
  lemma UpRest(s: State, global: Value, go: Value, id: nat)
    requires Slots(s, global, go) && Pool(s) && id in s.counts
    ensures Slots(Up(s, id), global, go) && Pool(Up(s, id))
    ensures forall k :: Live(Up(s, id), k) <==> Live(s, k)
  {
  }

  lemma UpOk(s: State, global: Value, go: Value, v: Value)
    requires Slots(s, global, go) && Pool(s) && Counted(s) && v in s.ids
    requires forall w :: w in s.ids && w != v ==> Held(s, s.ids[w]) > 0 && s.ids[w] != s.ids[v]
    ensures s.ids[v] in s.counts && Ok(Up(s, s.ids[v]), global, go)
  {
    hide Pool, Slots, Live;
    UpRest(s, global, go, s.ids[v]);
    KnownLive(s, global, go, v);
    var t := Up(s, s.ids[v]);
    forall k | k in t.held && t.held[k] > 0 ensures Live(t, k) {
    }
  }

  lemma KnownLive(s: State, global: Value, go: Value, v: Value)
    requires Slots(s, global, go) && v in s.ids
    ensures Live(s, s.ids[v])
  {
  }

  lemma OneSlotEach(s: State, global: Value, go: Value, v: Value, w: Value)
    requires Slots(s, global, go) && v in s.ids && w in s.ids && s.ids[v] == s.ids[w]
    ensures v == w
  {
  }

  /** What boxing does: a value that has a slot keeps it, one that has none gets one that
      nobody refers to, and no slot that is referred to changes its value. */
  ghost predicate BoxedWell(s: State, t: State, v: Value) {
    && (Tabled(v) ==> v in t.ids && t.ids == s.ids[v := t.ids[v]] && Held(t, t.ids[v]) == Held(s, t.ids[v]) + 1
                      && (v !in s.ids ==> Held(s, t.ids[v]) == 0) && t.held == s.held[t.ids[v] := Held(t, t.ids[v])])
    && forall id :: id in s.held && s.held[id] > 0 ==> id < |s.values| <= |t.values| && t.values[id] == s.values[id]
  }

  lemma BoxedKnown(s: State, global: Value, go: Value, v: Value)
    requires Ok(s, global, go) && v in s.ids
    ensures s.ids[v] in s.counts && Ok(Up(s, s.ids[v]), global, go) && BoxedWell(s, Up(s, s.ids[v]), v)
  {
    hide Pool, Counted;
    OkFacts(s, global, go);
    forall w | w in s.ids && w != v ensures s.ids[w] != s.ids[v] {
      assert s.values[s.ids[w]] == w;
    }
    hide Slots;
    UpOk(s, global, go, v);
    assert s.ids == s.ids[v := s.ids[v]];
  }

  lemma NewWell(s: State, v: Value)
    requires Tabled(v) && v !in s.ids && NewSlot(s) <= |s.values| && Held(s, NewSlot(s)) == 0
    requires forall id :: id in s.held && s.held[id] > 0 ==> id < |s.values|
    ensures BoxedWell(s, Up(Take(s, v), NewSlot(s)), v)
  {
    hide NewSlot;
    var id, t := NewSlot(s), Up(Take(s, v), NewSlot(s));
    assert t.ids == s.ids[v := id] && t.held == s.held[id := 1];
    forall k | k in s.held && s.held[k] > 0 ensures k < |s.values| <= |t.values| && t.values[k] == s.values[k] {
      assert k != id;
    }
  }

  lemma BoxedNew(s: State, global: Value, go: Value, v: Value)
    requires Ok(s, global, go) && Tabled(v) && v !in s.ids
    ensures NewSlot(s) <= |s.values| && NewSlot(s) in Take(s, v).counts
    ensures Ok(Up(Take(s, v), NewSlot(s)), global, go) && BoxedWell(s, Up(Take(s, v), NewSlot(s)), v)
  {
    hide Ok, Slots, Pool, Counted, NewSlot, BoxedWell, Up, Live;
    OkFacts(s, global, go);
    LiveInside(s);
    TakeSlots(s, global, go, v);
    TakePool(s, global, go, v);
    TakeCounted(s, global, go, v);
    NewWell(s, v);
    UpOk(Take(s, v), global, go, v);
  }

  lemma LiveInside(s: State)
    ensures forall id: nat :: Live(s, id) ==> id < |s.values|
  {
  }

  /** Boxing keeps the table in order. */
  lemma BoxedOk(s: State, global: Value, go: Value, v: Value)
    requires Ok(s, global, go)
    ensures NewSlot(s) <= |s.values| && forall w :: w in s.ids ==> s.ids[w] in s.counts
    ensures Ok(Boxed(s, v), global, go) && BoxedWell(s, Boxed(s, v), v)
  {
    hide Ok, Take, Up, NewSlot;
    OkFacts(s, global, go);
    if Tabled(v) && v in s.ids {
      BoxedKnown(s, global, go, v);
    } else if Tabled(v) {
      BoxedNew(s, global, go, v);
    }
  }

  lemma FreedPool(s: State, global: Value, go: Value, id: nat)
    requires Ok(s, global, go) && Held(s, id) == 1 && Live(s, id) && id in s.counts && s.counts[id] == 1
    ensures Pool(Finalized(s, id)) && Slots(Finalized(s, id), global, go)
  {
    hide Counted, Slots, Live;
    FreedSlots(s, global, go, id);
    FreedDead(s, global, go, id);
    FreedIds(s, id);
    assert forall i :: 0 <= i < |s.pool| ==> s.pool[i] != id;
  }

  /** The value of the freed slot is known no longer. */
  lemma FreedIds(s: State, id: nat)
    requires Held(s, id) == 1 && Live(s, id) && id in s.counts && s.counts[id] == 1
    ensures var t := Finalized(s, id);
            |t.values| == |s.values| && |t.ids| + 1 == |s.ids| && t.pool == s.pool + [id] && 7 <= id < |s.values|
  {
    LiveKnown(s, id);
    var t, v := Finalized(s, id), s.values[id];
    assert v !in t.ids && s.ids.Keys == t.ids.Keys + {v};
    assert |s.ids| == |s.ids.Keys| && |t.ids| == |t.ids.Keys|;
  }

  lemma LiveKnown(s: State, id: nat)
    requires Live(s, id)
    ensures s.values[id] in s.ids && s.ids[s.values[id]] == id && 7 <= id < |s.values|
  {
  }

  lemma FreedSlots(s: State, global: Value, go: Value, id: nat)
    requires Ok(s, global, go) && Held(s, id) == 1 && Live(s, id) && id in s.counts && s.counts[id] == 1
    ensures Slots(Finalized(s, id), global, go)
  {
    hide Counted, Pool;
    var t := Finalized(s, id);
    assert t.values[..7] == s.values[..7];
  }

  /** No free slot comes to life, and the freed one is dead. */
  lemma FreedDead(s: State, global: Value, go: Value, id: nat)
    requires Ok(s, global, go) && Held(s, id) == 1 && Live(s, id) && id in s.counts && s.counts[id] == 1
    ensures forall k: nat :: !Live(s, k) || k == id ==> !Live(Finalized(s, id), k)
  {
    hide Counted, Pool;
    var t := Finalized(s, id);
    assert Null !in t.ids by { assert !Tabled(Null); }
  }

  lemma FreedCounted(s: State, global: Value, go: Value, id: nat)
    requires Ok(s, global, go) && Held(s, id) == 1 && Live(s, id) && id in s.counts && s.counts[id] == 1
    ensures var t := Finalized(s, id); Counted(t) && forall v :: v in t.ids ==> Held(t, t.ids[v]) > 0
  {
    hide Pool;
    var t, v := Finalized(s, id), s.values[id];
    forall w | w in t.ids ensures t.ids[w] != id {
      if t.ids[w] == id {
        OneSlotEach(s, global, go, v, w);
      }
    }
    forall k | k in t.held && t.held[k] > 0 ensures Live(t, k) {
      assert Live(s, k) && k != id;
    }
  }

  lemma DownOk(s: State, global: Value, go: Value, id: nat)
    requires Ok(s, global, go) && Held(s, id) > 1 && Live(s, id) && id in s.counts && s.counts[id] == Held(s, id)
    ensures Ok(Finalized(s, id), global, go)
  {
    var t := Finalized(s, id);
    assert Slots(t, global, go);
    forall i | 0 <= i < |t.pool| ensures !Live(t, t.pool[i]) {
      assert !Live(s, s.pool[i]);
    }
    forall k | k in t.held && t.held[k] > 0 ensures Live(t, k) {
      assert Live(s, k);
    }
  }

  /** Giving back a reference that is held keeps the table in order, leaves every other
      count and every value still referred to alone, and frees the slot exactly with the
      last reference. */
  lemma FinalizedOk(s: State, global: Value, go: Value, id: nat)
    requires Ok(s, global, go) && Held(s, id) > 0
    ensures id in s.counts && id < |s.values| && Live(s, id) && s.counts[id] == Held(s, id)
    ensures var t := Finalized(s, id);
            && Ok(t, global, go) && t.held == s.held[id := Held(s, id) - 1]
            && (forall k :: k in t.held && t.held[k] > 0 ==> k < |s.values| == |t.values| && t.values[k] == s.values[k])
            && (if Held(s, id) > 1 then t.ids == s.ids && t.pool == s.pool
                else t.ids == s.ids - {s.values[id]} && t.pool == s.pool + [id])
  {
    OkFacts(s, global, go);
    assert Live(s, id);
    hide Slots, Pool, Counted;
    if Held(s, id) > 1 {
      DownOk(s, global, go, id);
    } else {
      FreedPool(s, global, go, id);
      FreedCounted(s, global, go, id);
    }
  }

  lemma FirstSeven(s: State, global: Value, go: Value)
    requires Slots(s, global, go)
    ensures s.values[0] == NaN && s.values[1] == Zero(false) && s.values[2] == Null && s.values[3] == True && s.values[4] == False
  {
    assert forall i :: 0 <= i < 5 ==> s.values[i] == s.values[..7][i];
  }

  /** What the guest sees behind a reference. */
  predicate Shows(s: State, r: Ref, v: Value) {
    if IsZero(r.hi, r.lo) then v == Undefined
    else if !IsNaN(r.hi, r.lo) then v == Number(r.hi, r.lo)
    else v == if r.lo < |s.values| then s.values[r.lo] else Undefined
  }

  lemma Inside(s: State, global: Value, go: Value, v: Value)
    requires Ok(s, global, go) && Sound(v)
    ensures !Tabled(v) ==> Shows(s, Fixed(v), Plain(v))
    ensures v in s.ids ==> Shows(s, Slot(s.ids[v], Flag(v)), Plain(v))
  {
    hide Pool, Counted;
    FirstSeven(s, global, go);
    if v in s.ids {
      SlotIsNaN(s.ids[v], Flag(v));
    }
  }

  /** Unboxing undoes boxing, but for the sign of a zero. */
  lemma UnboxBox(s: State, global: Value, go: Value, v: Value)
    requires Ok(s, global, go) && Sound(v)
    ensures NewSlot(s) <= |s.values| && forall w :: w in s.ids ==> s.ids[w] in s.counts
    ensures var t := Boxed(s, v); (Tabled(v) ==> v in t.ids) && Shows(t, if Tabled(v) then Slot(t.ids[v], Flag(v)) else Fixed(v), Plain(v))
  {
    BoxedOk(s, global, go, v);
    hide Ok, Boxed, Shows, Fixed, Slot, Sound, Flag;
    Inside(Boxed(s, v), global, go, v);
  }

  /** The reference of a value: a number by its bits, the rest by a NaN with a type and a slot. */
  lemma RefIs(v: Value)
    ensures Tabled(v) <==> v.Text? || v.Symbol? || v.Function? || v.Object?
    ensures Tabled(v) ==> Flag(v) == (if v.Text? then 2 else if v.Symbol? then 3 else if v.Function? then 4 else 1)
    ensures v.Undefined? ==> Fixed(v) == Ref(0, 0)
    ensures v.NaN? ==> Fixed(v) == Ref(0x7FF80000, 0)
    ensures v.Zero? ==> Fixed(v) == Ref(0x7FF80000, 1)
    ensures v.Null? ==> Fixed(v) == Ref(0x7FF80000, 2)
    ensures v.True? ==> Fixed(v) == Ref(0x7FF80000, 3)
    ensures v.False? ==> Fixed(v) == Ref(0x7FF80000, 4)
    ensures v.Number? ==> Fixed(v) == Ref(v.hi, v.lo)
  {
  }

  // ---- whole runs of a guest -----------------------------------------------------------------------

  datatype Op = Box(v: Value) | Release(id: nat)

  ghost function Next(s: State, op: Op, global: Value, go: Value): State
    requires Ok(s, global, go)
  {
    match op
    case Box(v) => BoxedOk(s, global, go, v); Boxed(s, v)
    case Release(id) =>
      if Held(s, id) > 0 then FinalizedOk(s, global, go, id); Finalized(s, id)
      else Strayed(s, id)
  }

  lemma NextOk(s: State, op: Op, global: Value, go: Value)
    requires Ok(s, global, go)
    ensures Ok(Next(s, op, global, go), global, go)
    ensures forall id: nat :: Held(s, id) > 0 && Held(Next(s, op, global, go), id) > 0 ==>
              id < |s.values| && id < |Next(s, op, global, go).values| && Next(s, op, global, go).values[id] == s.values[id]
  {
    hide Ok, Boxed, Finalized, Live;
    OkFacts(s, global, go);
    LiveInside(s);
    match op
    case Box(v) => BoxedOk(s, global, go, v);
    case Release(id) =>
      if Held(s, id) > 0 {
        FinalizedOk(s, global, go, id);
      } else {
        StrayedOk(s, global, go, id);
      }
  }

  /** The guest holds a reference to the slot all along. */
  ghost predicate KeepsHolding(s: State, ops: seq<Op>, global: Value, go: Value, id: nat)
    requires Ok(s, global, go)
    decreases |ops|
  {
    && Held(s, id) > 0
    && (ops != [] ==> (NextOk(s, ops[0], global, go); KeepsHolding(Next(s, ops[0], global, go), ops[1..], global, go, id)))
  }

  ghost function After(s: State, ops: seq<Op>, global: Value, go: Value, id: nat): State
    requires Ok(s, global, go) && KeepsHolding(s, ops, global, go, id)
    decreases |ops|
  {
    if ops == [] then s
    else NextOk(s, ops[0], global, go); After(Next(s, ops[0], global, go), ops[1..], global, go, id)
  }

  /** As long as a reference is held it shows the same value, whatever else is boxed and
      given back meanwhile. */
  lemma {:induction false} HeldShowsSame(s: State, ops: seq<Op>, global: Value, go: Value, id: nat)
    requires Ok(s, global, go) && KeepsHolding(s, ops, global, go, id)
    ensures var t := After(s, ops, global, go, id);
            Ok(t, global, go) && id < |s.values| && id < |t.values| && t.values[id] == s.values[id]
    decreases |ops|
  {
    hide Ok, Next;
    if ops != [] {
      NextOk(s, ops[0], global, go);
      HeldShowsSame(Next(s, ops[0], global, go), ops[1..], global, go, id);
    } else {
      OkFacts(s, global, go);
      LiveInside(s);
    }
  }

  // ---- the table in place ------------------------------------------------------------------------

  class Table {
    const global: Value
    const go: Value
    var values: seq<Value>
    var goRefCounts: map<nat, int>
    var ids: map<Value, nat>
    var idPool: seq<nat>
    ghost var held: map<nat, nat>

    ghost function Value(): State
      reads this
    {
      State(values, goRefCounts, ids, idPool, held)
    }

    ghost predicate Valid()
      reads this
    {
      Ok(Value(), global, go)
    }

    constructor (global: Value, go: Value)
      ensures Valid() && Value() == State(Initial(global, go), map[], map[], [], map[])
    {
      this.global, this.go := global, go;
      values, goRefCounts, ids, idPool, held := Initial(global, go), map[], map[], [], map[];
    }

    /** `unboxValue(ref)` */
    method UnboxValue(r: Ref) returns (v: Value)
      ensures Shows(Value(), r, v)
    {
      if IsZero(r.hi, r.lo) {
        return Undefined;
      }
      if !IsNaN(r.hi, r.lo) {
        return Number(r.hi, r.lo);
      }
      return if r.lo < |values| then values[r.lo] else Undefined;
    }

    /** `boxValue(v)`; a reference has 32 bits for its slot. */
    method BoxValue(v: Value) returns (r: Ref)
      requires Valid() && Sound(v) && |values| < WORD
      modifies this
      ensures Valid() && old(NewSlot(Value()) <= |values| && forall w :: w in ids ==> ids[w] in goRefCounts)
      ensures Value() == Boxed(old(Value()), v)
      ensures Tabled(v) ==> v in ids
      ensures r == match v
                   case Undefined => Ref(0, 0)
                   case NaN => Ref(0x7FF80000, 0)
                   case Zero(_) => Ref(0x7FF80000, 1)
                   case Null => Ref(0x7FF80000, 2)
                   case True => Ref(0x7FF80000, 3)
                   case False => Ref(0x7FF80000, 4)
                   case Number(hi, lo) => Ref(hi, lo)
                   case Object(_) => Ref(0x7FF80001, ids[v])
                   case Text(_) => Ref(0x7FF80002, ids[v])
                   case Symbol(_) => Ref(0x7FF80003, ids[v])
                   case Function(_) => Ref(0x7FF80004, ids[v])
      ensures Shows(Value(), r, Plain(v))
    {
      hide Ok, Shows, Fixed, Flag, Sound, BoxedWell, Take, NewSlot;
      UnboxBox(Value(), global, go, v);
      RefIs(v);
      BoxedOk(Value(), global, go, v);
      OkFacts(Value(), global, go);
      if !Tabled(v) {
        return Fixed(v);
      }
      var id: nat;
      if v in ids {
        id := ids[v];
      } else {
        TakeIs(Value(), v);
        id := TakeSlot(v);
      }
      held := held[id := Held(Value(), id) + 1];
      goRefCounts := goRefCounts[id := goRefCounts[id] + 1];
      r := Slot(id, Flag(v));
    }

    method TakeSlot(v: Value) returns (id: nat)
      requires NewSlot(Value()) <= |values|
      modifies this`values, this`goRefCounts, this`ids, this`idPool
      ensures id == old(NewSlot(Value())) && Value() == Take(old(Value()), v)
    {
      if idPool != [] {
        id := idPool[|idPool| - 1];
        idPool := idPool[..|idPool| - 1];
      } else {
        id := |values|;
      }
      values := if id < |values| then values[id := v] else values + [v];
      goRefCounts := goRefCounts[id := 0];
      ids := ids[v := id];
    }

    /** `finalizeRef(ref)`: with a reference to the slot held, one less of them; without,
        nothing but a spent count. */
    method FinalizeRef(r: Ref)
      requires Valid()
      modifies this
      ensures Valid() && old(Held(Value(), r.lo) > 0 ==> r.lo in goRefCounts && r.lo < |values|)
      ensures Value() == if old(Held(Value(), r.lo) > 0) then Finalized(old(Value()), r.lo) else Strayed(old(Value()), r.lo)
    {
      hide Ok;
      var id := r.lo;
      if Held(Value(), id) > 0 {
        FinalizedOk(Value(), global, go, id);
      } else {
        StrayedOk(Value(), global, go, id);
      }
      if id !in goRefCounts {
        return;
      }
      if Held(Value(), id) > 0 {
        held := held[id := Held(Value(), id) - 1];
      }
      goRefCounts := goRefCounts[id := goRefCounts[id] - 1];
      if goRefCounts[id] == 0 {
        var v := values[id];
        values := values[id := Null];
        ids := ids - {v};
        idPool := idPool + [id];
      }
    }
  }
}
