/** The tab list: a slice that is edited in place, and which tab is active. */
module Tabs {
  import opened Options

  datatype Tab = Tab(id: string, kind: string, title: string, url: string, favicon: string, host: string, user: string, port: int)

  // ---- lists of tabs -------------------------------------------------------------------------

  /** The place of a tab, or the length when there is none. */
  function Find(s: seq<Tab>, id: string): (k: nat)
    ensures k <= |s| && (k < |s| ==> s[k].id == id) && forall i :: 0 <= i < k ==> s[i].id != id
  {
    if s == [] || s[0].id == id then 0 else 1 + Find(s[1..], id)
  }

  predicate Has(s: seq<Tab>, id: string) { exists i :: 0 <= i < |s| && s[i].id == id }

  predicate Distinct(s: seq<Tab>) { forall i, j :: 0 <= i < j < |s| ==> s[i].id != s[j].id }

  /** All tabs but those with the ID. */
  function Without(s: seq<Tab>, id: string): seq<Tab> {
    if s == [] then []
    else Without(s[..|s| - 1], id) + if s[|s| - 1].id == id then [] else [s[|s| - 1]]
  }

  function Insert(s: seq<Tab>, k: nat, t: Tab): (r: seq<Tab>)
    requires k <= |s|
    ensures |r| == |s| + 1
  {
    s[..k] + [t] + s[k..]
  }

  function Remove(s: seq<Tab>, k: nat): (r: seq<Tab>)
    requires k < |s|
    ensures |r| == |s| - 1
  {
    s[..k] + s[k + 1..]
  }

  lemma {:induction false} WithoutNone(s: seq<Tab>, id: string)
    requires forall i :: 0 <= i < |s| ==> s[i].id != id
    ensures Without(s, id) == s
  {
    if s == [] {
    } else {
      WithoutNone(s[..|s| - 1], id);
    }
  }

  lemma {:induction false} WithoutConcat(a: seq<Tab>, b: seq<Tab>, id: string)
    ensures Without(a + b, id) == Without(a, id) + Without(b, id)
    decreases |b|
  {
    if b == [] {
      assert a + b == a;
    } else {
      assert (a + b)[..|a + b| - 1] == a + b[..|b| - 1];
      WithoutConcat(a, b[..|b| - 1], id);
    }
  }

  lemma WithoutOne(s: seq<Tab>, k: nat)
    requires k < |s| && Distinct(s)
    ensures Without(s, s[k].id) == Remove(s, k)
  {
    hide Without;
    var id := s[k].id;
    var (a, b) := (s[..k], s[k + 1..]);
    assert s == a + [s[k]] + b;
    OthersDiffer(s, k, a, b);
    hide Distinct;
    WithoutConcat(a + [s[k]], b, id);
    WithoutConcat(a, [s[k]], id);
    WithoutNone(a, id);
    WithoutNone(b, id);
    assert Without([s[k]], id) == [] by { WithoutIt(s[k]); }
    assert a + [] + b == Remove(s, k);
  }

  lemma OthersDiffer(s: seq<Tab>, k: nat, a: seq<Tab>, b: seq<Tab>)
    requires k < |s| && Distinct(s) && s == a + [s[k]] + b && |a| == k
    ensures forall i :: 0 <= i < |a| ==> a[i].id != s[k].id
    ensures forall i :: 0 <= i < |b| ==> b[i].id != s[k].id
  {
    forall i | 0 <= i < |a| ensures a[i].id != s[k].id {
      assert a[i] == s[i];
    }
    forall i | 0 <= i < |b| ensures b[i].id != s[k].id {
      assert b[i] == s[k + 1 + i];
    }
  }

  lemma WithoutIt(t: Tab)
    ensures Without([t], t.id) == []
  {
    assert [t][..0] == [];
  }

  // ---- reordering ------------------------------------------------------------------------------

  /** `reorderTab`: the tab is taken out and put before the other one, or at the end when
      there is no other one. */
  function Reordered(s: seq<Tab>, id: string, before: string): seq<Tab> {
    var from := Find(s, id);
    if from == |s| then s
    else
      var rest := Remove(s, from);
      Insert(rest, Target(rest, id, before), s[from])
  }

  lemma RemoveAt(s: seq<Tab>, k: nat, i: nat)
    requires k < |s| && i < |s| - 1
    ensures Remove(s, k)[i] == s[if i < k then i else i + 1]
  {
  }

  /** Where a tab is put that has been taken out. */
  function Target(rest: seq<Tab>, id: string, before: string): (k: nat)
    ensures k <= |rest|
  {
    if before != "" && before != id then Find(rest, before) else |rest|
  }

  lemma TargetMeaning(s: seq<Tab>, from: nat, before: string)
    requires from < |s| && Distinct(s)
    ensures var rest := Remove(s, from); var k := Target(rest, s[from].id, before);
            && (before != "" && before != s[from].id && Has(s, before) ==> k < |rest| && rest[k].id == before)
            && (before == "" || before == s[from].id || !Has(s, before) ==> k == |rest|)
  {
    hide Distinct, Remove;
    var rest := Remove(s, from);
    if Has(s, before) && before != s[from].id {
      var i :| 0 <= i < |s| && s[i].id == before;
      RemoveAt(s, from, if i < from then i else i - 1);
    }
    if !Has(s, before) {
      var k := Find(rest, before);
      if k < |rest| {
        RemoveAt(s, from, k);
      }
    }
  }

  lemma TakenOut(s: seq<Tab>, from: nat)
    requires from < |s| && Distinct(s)
    ensures Distinct(Remove(s, from)) && forall i :: 0 <= i < |s| - 1 ==> Remove(s, from)[i].id != s[from].id
    ensures multiset(s) == multiset(Remove(s, from)) + multiset{s[from]}
  {
    assert s == s[..from] + [s[from]] + s[from + 1..];
  }

  lemma PutIn(rest: seq<Tab>, k: nat, t: Tab)
    requires k <= |rest|
    ensures Remove(Insert(rest, k, t), k) == rest && multiset(Insert(rest, k, t)) == multiset(rest) + multiset{t}
    ensures Insert(rest, k, t)[k] == t && (k < |rest| ==> Insert(rest, k, t)[k + 1] == rest[k])
  {
    assert rest == rest[..k] + rest[k..];
  }

  /** Only the tab itself is moved: the others keep their order, and it ends up directly
      before its target, or last. */
  lemma ReorderMeaning(s: seq<Tab>, id: string, before: string)
    requires Distinct(s) && Find(s, id) < |s|
    ensures var r := Reordered(s, id, before); var k := Find(r, id);
            && k < |r| == |s| && r[k] == s[Find(s, id)] && Remove(r, k) == Without(s, id)
            && multiset(r) == multiset(s) && Distinct(r)
            && (before != "" && before != id && Has(s, before) ==> k + 1 < |r| && r[k + 1].id == before)
            && (before == "" || before == id || !Has(s, before) ==> k + 1 == |r|)
  {
    hide Distinct, Has, Remove, Insert, Without;
    var from := Find(s, id);
    var rest := Remove(s, from);
    var at := Target(rest, id, before);
    WithoutOne(s, from);
    TargetMeaning(s, from, before);
    TakenOut(s, from);
    PutIn(rest, at, s[from]);
    InsertFind(rest, at, s[from]);
  }

  lemma InsertFind(s: seq<Tab>, k: nat, t: Tab)
    requires k <= |s| && Distinct(s) && forall i :: 0 <= i < |s| ==> s[i].id != t.id
    ensures Find(Insert(s, k, t), t.id) == k && Distinct(Insert(s, k, t)) && Insert(s, k, t)[k] == t
  {
    var r := Insert(s, k, t);
    forall i | 0 <= i < |r| ensures r[i] == if i < k then s[i] else if i == k then t else s[i - 1] {
    }
    assert r[k].id == t.id;
  }

  // ---- closing, adding and merging ---------------------------------------------------------------

  /** `upsertTab`: a tab that is known keeps what the new one leaves empty. */
  function Merged(known: Tab, t: Tab): Tab {
    t.(favicon := if t.favicon == "" then known.favicon else t.favicon, url := if t.url == "" then known.url else t.url,
       title := if t.title == "" then known.title else t.title)
  }

  function Upserted(s: seq<Tab>, t: Tab): seq<Tab> {
    var k := Find(s, t.id);
    if k < |s| then s[k := Merged(s[k], t)] else s + [t]
  }

  /** A tab that is known stays where it is: the new one replaces it but for the title, the
      address and the icon that it leaves empty; one that is not known comes last. */
  lemma UpsertMeaning(s: seq<Tab>, t: Tab)
    ensures var k, r := Find(s, t.id), Upserted(s, t);
            if k == |s| then r == s + [t]
            else
              && |r| == |s| && (forall i :: 0 <= i < |s| && i != k ==> r[i] == s[i])
              && r[k].id == t.id && r[k].kind == t.kind && r[k].host == t.host && r[k].user == t.user && r[k].port == t.port
              && r[k].title == (if t.title != "" then t else s[k]).title
              && r[k].url == (if t.url != "" then t else s[k]).url
              && r[k].favicon == (if t.favicon != "" then t else s[k]).favicon
  {
  }

  lemma UpsertDistinct(s: seq<Tab>, t: Tab)
    requires Distinct(s)
    ensures Distinct(Upserted(s, t)) && Has(Upserted(s, t), t.id)
    ensures forall id :: Has(s, id) ==> Has(Upserted(s, t), id)
  {
    var k, r := Find(s, t.id), Upserted(s, t);
    assert r[k].id == t.id;
    forall id | Has(s, id) ensures Has(r, id) {
      var i :| 0 <= i < |s| && s[i].id == id;
      assert r[i].id == id;
    }
  }

  lemma RemoveFacts(s: seq<Tab>, k: nat)
    requires Distinct(s) && k < |s|
    ensures Distinct(Remove(s, k)) && forall id :: Has(Remove(s, k), id) <==> Has(s, id) && id != s[k].id
  {
    var r := Remove(s, k);
    forall i | 0 <= i < |r| ensures r[i] == s[if i < k then i else i + 1] {
    }
    forall id | Has(s, id) && id != s[k].id ensures Has(r, id) {
      var i :| 0 <= i < |s| && s[i].id == id;
      assert r[if i < k then i else i - 1].id == id;
    }
  }

  // ---- the list in place ---------------------------------------------------------------------------

  /** A slice of its backing array, and what goes with it in the application. */
  class TabList {
    var store: array<Tab>
    var len: nat
    var active: string
    var lastClose: string
    var lastCloseAt: Option<nat>
    var locked: bool
    var restored: bool

    predicate Fits()
      reads this
    {
      len <= store.Length
    }

    ghost function Contents(): seq<Tab>
      reads this, store
      requires Fits()
    {
      store[..len]
    }

    /** IDs are distinct, and the active one is empty or present. */
    ghost predicate Valid()
      reads this, store
    {
      Fits() && Distinct(Contents()) && (active == "" || Has(Contents(), active))
    }

    constructor ()
      ensures Valid() && fresh(store) && Contents() == [] && active == ""
    {
      store, len, active, lastClose, lastCloseAt, locked, restored := new Tab[0], 0, "", "", None, true, false;
    }

    method IndexOf(id: string) returns (k: nat)
      requires Fits()
      ensures k == Find(Contents(), id)
    {
      k := 0;
      assert store[..len][0..] == store[..len];
      while k < len && store[k].id != id
        invariant k <= len && Find(Contents(), id) == k + Find(Contents()[k..], id)
      {
        assert Contents()[k..][0] == store[k] && Contents()[k..][1..] == Contents()[k + 1..];
        k := k + 1;
      }
    }

    /** `append(tabs[:k], tabs[k+1:]...)`: everything behind k moves down in place. */
    method DropAt(k: nat)
      requires Fits() && k < len
      modifies this`len, store
      ensures Fits() && store == old(store) && Contents() == Remove(old(Contents()), k) && len == old(len) - 1
    {
      ghost var was := Contents();
      for i := k to len - 1
        invariant len == old(len) && store == old(store)
        invariant store[..i] == was[..k] + was[k + 1..i + 1] && store[i + 1..len] == was[i + 1..]
      {
        assert store[i + 1] == was[i + 1];
        assert store[i + 1..len][1..] == store[i + 2..len];
        store[i] := store[i + 1];
        assert store[..i + 1] == store[..i] + [was[i + 1]];
        assert was[k + 1..i + 2] == was[k + 1..i + 1] + [was[i + 1]];
      }
      len := len - 1;
      assert was[k + 1..len + 1] == was[k + 1..];
    }

    /** `append(tabs, tab)`: in place while the array has room, else in a larger one. */
    method Append(t: Tab)
      requires Fits()
      modifies this`len, this`store, store
      ensures Fits() && (store == old(store) || fresh(store)) && Contents() == old(Contents()) + [t]
    {
      if len == store.Length {
        var larger := new Tab[2 * len + 1](i requires 0 <= i < 2 * len + 1 reads this, store =>
          if i < store.Length then store[i] else t);
        assert larger[..len] == store[..len];
        store := larger;
      }
      store[len] := t;
      len := len + 1;
    }

    /** `append(tabs[:k], part...)` where the array has the room: part is written over what
        is behind k. */
    method Overwrite(k: nat, part: seq<Tab>)
      requires Fits() && k <= len && k + |part| <= store.Length
      modifies this`len, store
      ensures Fits() && store == old(store) && Contents() == old(Contents())[..k] + part
    {
      ghost var front := store[..k];
      for i := 0 to |part|
        invariant len == old(len) && store == old(store) && store[..k + i] == front + part[..i]
      {
        store[k + i] := part[i];
        assert store[..k + i + 1] == store[..k + i] + [part[i]];
      }
      assert part[..|part|] == part;
      len := k + |part|;
    }

    /** `append(tabs[:k], append([]Tab{t}, tabs[k:]...)...)`: the inner slice is a copy, so
        that writing it over the array loses nothing. */
    method InsertAt(k: nat, t: Tab)
      requires Fits() && k < len < store.Length
      modifies this`len, store
      ensures Fits() && store == old(store) && Contents() == Insert(old(Contents()), k, t)
    {
      ghost var was := Contents();
      var tail := [t] + store[k..len];
      assert store[k..len] == was[k..];
      Overwrite(k, tail);
    }

    /** The second half of `reorderTab`: the tab goes back in. */
    method PutBack(t: Tab, before: string)
      requires Fits() && len < store.Length
      modifies this`len, store
      ensures Fits() && store == old(store)
      ensures Contents() == Insert(old(Contents()), Target(old(Contents()), t.id, before), t)
    {
      var insertAt := len;
      if before != "" && before != t.id {
        insertAt := IndexOf(before);
      }
      if insertAt >= len {
        store[len] := t;
        len := len + 1;
      } else {
        InsertAt(insertAt, t);
      }
    }

    /** `reorderTab(tabID, beforeID)`: both halves in place, since the array has the room
        that the tab leaves. */
    method Reorder(id: string, before: string)
      requires Valid()
      modifies this`len, store
      ensures Valid() && store == old(store) && Contents() == Reordered(old(Contents()), id, before)
    {
      hide Distinct, Has, Reordered, Remove, Insert;
      ghost var was := Contents();
      var from := IndexOf(id);
      if from == len {
        ReorderNone(was, id, before);
        return;
      }
      ReorderMeaning(was, id, before);
      ReorderKeeps(was, id, before, active);
      ReorderIs(was, id, before);
      var tab := store[from];
      DropAt(from);
      PutBack(tab, before);
    }

    /** `forgetTab(tabID)` */
    method Forget(id: string)
      requires Valid()
      modifies this`len, this`store, this`active
      ensures Valid() && (store == old(store) || fresh(store))
      ensures Contents() == Without(old(Contents()), id) && active == if old(active) == id then "" else old(active)
    {
      ghost var was := Contents();
      CopyWithout(id);
      WithoutKeeps(was, id);
      if active == id {
        active := "";
      }
    }

    /** The loop that builds a new slice without one tab. */
    method CopyWithout(id: string)
      requires Fits()
      modifies this`len, this`store
      ensures Fits() && fresh(store) && Contents() == Without(old(Contents()), id)
    {
      var kept := new Tab[len](i requires 0 <= i < len reads this, store => if i < store.Length then store[i] else Tab("", "", "", "", "", "", "", 0));
      var n := 0;
      assert store[..0] == [];
      for i := 0 to len
        invariant len == old(len) && store == old(store) && store[..] == old(store[..])
        invariant n <= i && kept[..n] == Without(store[..i], id)
      {
        assert store[..i + 1][..i] == store[..i];
        if store[i].id != id {
          kept[n] := store[i];
          n := n + 1;
        }
      }
      store, len := kept, n;
    }

    /** `closeTab(tabID)`: the tab that slid into its place becomes active, else the new last
        one. A second close of the same tab within a quarter of a second is ignored. */
    method Close(id: string, now: nat)
      requires Valid()
      modifies this`len, this`store, this`active, this`lastClose, this`lastCloseAt
      ensures Valid() && (store == old(store) || fresh(store))
      ensures var s := old(Contents()); var k := Find(s, id);
              var again := id == old(lastClose) && old(lastCloseAt).Some? && now - old(lastCloseAt).value < 250;
              && (again || k == |s| ==> Contents() == s && active == old(active))
              && (!again && k < |s| ==>
                    && Contents() == Remove(s, k)
                    && active == if |s| == 1 then "" else if old(active) != id then old(active) else if k + 1 < |s| then s[k + 1].id else s[k - 1].id)
              && (!again ==> lastClose == id && lastCloseAt == Some(now))
    {
      if id == lastClose && lastCloseAt.Some? && now - lastCloseAt.value < 250 {
        return;
      }
      hide Distinct, Has, Remove, Without;
      lastCloseAt, lastClose := Some(now), id;
      ghost var was := Contents();
      var closedIndex := IndexOf(id);
      if closedIndex == len {
        return;
      }
      WithoutOne(was, closedIndex);
      RemoveFacts(was, closedIndex);
      CopyWithout(id);
      if active == id {
        active := NextTo(was, closedIndex);
      } else if len == 0 {
        active := "";
      }
    }

    /** The tab to activate in place of the one that was at index k. */
    method NextTo(ghost was: seq<Tab>, k: nat) returns (id: string)
      requires Fits() && k < |was| && Contents() == Remove(was, k)
      ensures id == if |was| == 1 then "" else if k + 1 < |was| then was[k + 1].id else was[k - 1].id
      ensures id == "" || Has(Contents(), id)
    {
      hide Has;
      if len == 0 {
        return "";
      }
      var nextIndex := if k >= len then len - 1 else k;
      id := store[nextIndex].id;
      FoundHas(Contents(), nextIndex);
    }

    /** `switchTab(tabID)` */
    method Switch(id: string)
      requires Valid()
      modifies this`active
      ensures Valid() && active == if Has(Contents(), id) then id else old(active)
    {
      var k := IndexOf(id);
      if k < len {
        FoundHas(Contents(), k);
        active := id;
      }
    }

    /** `a.tabs = upsertTab(a.tabs, tab)` */
    method Upsert(t: Tab)
      requires Fits()
      modifies this`len, this`store, store
      ensures Fits() && (store == old(store) || fresh(store)) && Contents() == Upserted(old(Contents()), t)
    {
      var k := IndexOf(t.id);
      if k < len {
        ghost var was := Contents();
        store[k] := Merged(store[k], t);
        assert Contents() == was[k := Merged(was[k], t)];
      } else {
        Append(t);
      }
    }

    /** `registerLocalTab`, with what the shell has sent already cleaned: a tab that is new
        becomes active. */
    method Register(t: Tab)
      requires Valid()
      modifies this`len, this`store, this`active, store
      ensures Valid() && (store == old(store) || fresh(store))
      ensures Contents() == Upserted(old(Contents()), t)
      ensures active == if Has(old(Contents()), t.id) then old(active) else t.id
    {
      ghost var was := Contents();
      UpsertDistinct(was, t);
      var k := IndexOf(t.id);
      var isNew := k == len;
      if k < len {
        FoundHas(was, k);
      }
      Upsert(t);
      if isNew {
        active := t.id;
      }
    }

    /** `openSettingsTab`, and every other way to open a tab and make it active. */
    method Open(t: Tab)
      requires Valid()
      modifies this`len, this`store, this`active, store
      ensures Valid() && (store == old(store) || fresh(store))
      ensures Contents() == Upserted(old(Contents()), t) && active == t.id
    {
      UpsertDistinct(Contents(), t);
      Upsert(t);
      active := t.id;
    }

    /** `clearActiveTab` */
    method ClearActive()
      requires Valid()
      modifies this`active
      ensures Valid() && active == ""
    {
      active := "";
    }

    /** The restoring part of `shellTabs`: once, behind the unlock gate, and only into an
        empty list; saved are the tabs stored, under fresh IDs. */
    method Restore(saved: seq<Tab>, wanted: bool)
      requires Valid() && Distinct(saved)
      modifies this`len, this`store, this`active, this`restored, store
      ensures Valid() && (store == old(store) || fresh(store))
      ensures restored == (old(restored) || !locked)
      ensures var now := !locked && !old(restored) && wanted && old(Contents()) == [];
              && Contents() == (if now then saved else old(Contents()))
              && active == (if now && saved != [] then saved[0].id else old(active))
    {
      if locked || restored {
        return;
      }
      restored := true;
      if !wanted || len != 0 {
        return;
      }
      assert Contents() == [];
      for i := 0 to |saved|
        invariant Fits() && (store == old(store) || fresh(store)) && Contents() == saved[..i]
        invariant restored && locked == old(locked) && active == old(active)
      {
        Append(saved[i]);
        assert saved[..i] + [saved[i]] == saved[..i + 1];
      }
      assert saved[..|saved|] == saved;
      if len > 0 {
        active := store[0].id;
        FoundHas(saved, 0);
      }
    }
  }

  lemma FoundHas(s: seq<Tab>, k: nat)
    requires k < |s|
    ensures Has(s, s[k].id)
  {
  }

  lemma ReorderKeeps(s: seq<Tab>, id: string, before: string, other: string)
    requires Distinct(s) && Find(s, id) < |s|
    ensures Has(s, other) ==> Has(Reordered(s, id, before), other)
  {
    hide Distinct, Reordered;
    ReorderMeaning(s, id, before);
    if Has(s, other) {
      SameTabs(s, Reordered(s, id, before), other);
    }
  }

  lemma ReorderNone(s: seq<Tab>, id: string, before: string)
    requires Find(s, id) == |s|
    ensures Reordered(s, id, before) == s
  {
  }

  lemma ReorderIs(s: seq<Tab>, id: string, before: string)
    requires Find(s, id) < |s|
    ensures var rest := Remove(s, Find(s, id));
            s[Find(s, id)].id == id && Reordered(s, id, before) == Insert(rest, Target(rest, id, before), s[Find(s, id)])
  {
  }

  lemma SameTabs(s: seq<Tab>, r: seq<Tab>, id: string)
    requires multiset(r) == multiset(s) && Has(s, id)
    ensures Has(r, id)
  {
    var i :| 0 <= i < |s| && s[i].id == id;
    assert s[i] in multiset(s);
    assert s[i] in multiset(r);
    var j :| 0 <= j < |r| && r[j] == s[i];
  }

  lemma WithoutKeeps(s: seq<Tab>, id: string)
    requires Distinct(s)
    ensures Distinct(Without(s, id)) && forall x :: Has(s, x) && x != id ==> Has(Without(s, id), x)
  {
    var k := Find(s, id);
    if k < |s| {
      WithoutOne(s, k);
      RemoveFacts(s, k);
    } else {
      WithoutNone(s, id);
    }
  }
}
