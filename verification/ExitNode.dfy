/** Choosing an exit node: the peer is looked up, the backend's preferences are edited and
    read back until they are effective, and put back when they do not become so. */
module ExitNode {
  import opened Options

  // ---- looking a peer up ----------------------------------------------------------------

  datatype Peer = Peer(id: string, host: string, dns: string, exitOption: bool)

  datatype Lookup = NoStatus | Ambiguous | NotFound | NotOffered | NoStableId | Found(id: string)

  /** Names are compared in lower case without a final dot; fold does both. */
  predicate Matches(p: Peer, name: string, fold: string -> string) {
    fold(name) == fold(p.host) || fold(name) == fold(p.dns) || name == p.id
  }

  /** The loop over the peers, with the last match so far. */
  function Search(peers: seq<Peer>, name: string, fold: string -> string, selected: Option<Peer>): Lookup
    decreases |peers|
  {
    if peers == [] then
      match selected
      case None => NotFound
      case Some(p) => if !p.exitOption then NotOffered else if p.id == "" then NoStableId else Found(p.id)
    else if !Matches(peers[0], name, fold) then Search(peers[1..], name, fold, selected)
    else if selected.Some? && selected.value.id != peers[0].id then Ambiguous
    else Search(peers[1..], name, fold, Some(peers[0]))
  }

  /** The loop of `exitNodePreference` over the peers, in whatever order they come. */
  method FindPeer(peers: seq<Peer>, name: string, fold: string -> string) returns (r: Lookup)
    ensures r == Search(peers, name, fold, None)
  {
    var selected: Option<Peer> := None;
    assert peers[0..] == peers;
    for i := 0 to |peers|
      invariant Search(peers, name, fold, None) == Search(peers[i..], name, fold, selected)
    {
      assert peers[i..][0] == peers[i] && peers[i..][1..] == peers[i + 1..];
      if !Matches(peers[i], name, fold) {
        continue;
      }
      if selected.Some? && selected.value.id != peers[i].id {
        return Ambiguous;
      }
      selected := Some(peers[i]);
    }
    if selected == None {
      return NotFound;
    }
    r := if !selected.value.exitOption then NotOffered else if selected.value.id == "" then NoStableId else Found(selected.value.id);
  }

  /** The IDs of the peers whose host name or DNS name is the name up to fold, or whose ID is it. */
  ghost function MatchIds(peers: seq<Peer>, name: string, fold: string -> string): set<string> {
    set i | 0 <= i < |peers| && (fold(peers[i].host) == fold(name) || fold(peers[i].dns) == fold(name) || peers[i].id == name) :: peers[i].id
  }

  ghost function Known(selected: Option<Peer>): set<string> { if selected.Some? then {selected.value.id} else {} }

  lemma MatchIdsSplit(peers: seq<Peer>, name: string, fold: string -> string)
    requires peers != []
    ensures MatchIds(peers, name, fold)
         == (if Matches(peers[0], name, fold) then {peers[0].id} else {}) + MatchIds(peers[1..], name, fold)
  {
    var (a, b) := (MatchIds(peers, name, fold), MatchIds(peers[1..], name, fold));
    forall x | x in b ensures x in a {
      var i :| 0 <= i < |peers[1..]| && Matches(peers[1..][i], name, fold) && peers[1..][i].id == x;
      assert peers[i + 1] == peers[1..][i];
    }
    forall x | x in a ensures x in (if Matches(peers[0], name, fold) then {peers[0].id} else {}) + b {
      var i :| 0 <= i < |peers| && Matches(peers[i], name, fold) && peers[i].id == x;
      if i > 0 {
        assert peers[1..][i - 1] == peers[i];
      }
    }
  }

  /** The search is ambiguous exactly when matches have different IDs, and finds nothing
      exactly when there is none. */
  lemma {:induction false} SearchIds(peers: seq<Peer>, name: string, fold: string -> string, selected: Option<Peer>)
    ensures var ids := Known(selected) + MatchIds(peers, name, fold); var r := Search(peers, name, fold, selected);
            && (r == Ambiguous <==> exists x, y :: x in ids && y in ids && x != y)
            && (r == NotFound <==> ids == {})
            && (r.Found? ==> ids == {r.id})
    decreases |peers|
  {
    hide MatchIds, Matches;
    if peers == [] {
      assert MatchIds(peers, name, fold) == {} by { NoIds(name, fold); }
      assert Known(selected) + {} == Known(selected);
    } else {
      MatchIdsSplit(peers, name, fold);
      var p := peers[0];
      var ids, rest := Known(selected) + MatchIds(peers, name, fold), MatchIds(peers[1..], name, fold);
      if !Matches(p, name, fold) {
        SearchIds(peers[1..], name, fold, selected);
        assert ids == Known(selected) + rest;
      } else if selected.Some? && selected.value.id != p.id {
        assert selected.value.id in ids && p.id in ids;
      } else {
        SearchIds(peers[1..], name, fold, Some(p));
        assert ids == Known(Some(p)) + rest;
      }
    }
  }

  lemma NoIds(name: string, fold: string -> string)
    ensures MatchIds([], name, fold) == {}
  {
  }

  /** One peer for each ID. */
  ghost predicate OnePerId(peers: seq<Peer>) {
    forall p, q :: p in peers && q in peers && p.id == q.id ==> p == q
  }

  lemma {:induction false} SearchSelects(peers: seq<Peer>, name: string, fold: string -> string, selected: Option<Peer>)
    requires !Search(peers, name, fold, selected).Ambiguous? && !Search(peers, name, fold, selected).NotFound?
    ensures exists p :: ((p in peers && Matches(p, name, fold)) || Some(p) == selected) && Search(peers, name, fold, selected) == Verdict(p)
    decreases |peers|
  {
    if peers == [] {
      assert Search(peers, name, fold, selected) == Verdict(selected.value);
    } else {
      var next := if Matches(peers[0], name, fold) then Some(peers[0]) else selected;
      SearchSelects(peers[1..], name, fold, next);
      var p :| ((p in peers[1..] && Matches(p, name, fold)) || Some(p) == next) && Search(peers[1..], name, fold, next) == Verdict(p);
      assert p in peers[1..] ==> p in peers;
    }
  }

  function Verdict(p: Peer): Lookup {
    if !p.exitOption then NotOffered else if p.id == "" then NoStableId else Found(p.id)
  }

  /** When all peers that answer to the name are one, it must offer itself and have an ID. */
  lemma SearchOffered(peers: seq<Peer>, name: string, fold: string -> string, p: Peer)
    requires OnePerId(peers) && p in peers && MatchIds(peers, name, fold) == {p.id}
    ensures Search(peers, name, fold, None) == if p.exitOption then (if p.id != "" then Found(p.id) else NoStableId) else NotOffered
  {
    hide MatchIds, Matches, Search;
    SearchIds(peers, name, fold, None);
    assert Known(None) + {p.id} == {p.id};
    SearchSelects(peers, name, fold, None);
    var q :| q in peers && Matches(q, name, fold) && Search(peers, name, fold, None) == Verdict(q);
    InIds(peers, q, name, fold);
  }

  /** The order in which the peers come does not matter. */
  lemma OrderIrrelevant(a: seq<Peer>, b: seq<Peer>, name: string, fold: string -> string)
    requires OnePerId(a) && (forall p :: p in a <==> p in b)
    ensures Search(a, name, fold, None) == Search(b, name, fold, None)
  {
    var (r, q) := (Search(a, name, fold, None), Search(b, name, fold, None));
    SearchIds(a, name, fold, None);
    SearchIds(b, name, fold, None);
    SameIds(a, b, name, fold);
    if !r.Ambiguous? && !r.NotFound? {
      SearchSelects(a, name, fold, None);
      SearchSelects(b, name, fold, None);
      var p :| p in a && Matches(p, name, fold) && r == Verdict(p);
      var u :| u in b && Matches(u, name, fold) && q == Verdict(u);
      InIds(a, p, name, fold);
      InIds(a, u, name, fold);
      assert p.id == u.id;
    }
  }

  lemma InIds(a: seq<Peer>, p: Peer, name: string, fold: string -> string)
    requires p in a && Matches(p, name, fold)
    ensures p.id in MatchIds(a, name, fold)
  {
    var i :| 0 <= i < |a| && a[i] == p;
  }

  lemma SameIds(a: seq<Peer>, b: seq<Peer>, name: string, fold: string -> string)
    requires forall p :: p in a <==> p in b
    ensures MatchIds(a, name, fold) == MatchIds(b, name, fold)
  {
    forall x | x in MatchIds(a, name, fold) ensures x in MatchIds(b, name, fold) {
      var i :| 0 <= i < |a| && Matches(a[i], name, fold) && a[i].id == x;
      InIds(b, a[i], name, fold);
    }
    forall x | x in MatchIds(b, name, fold) ensures x in MatchIds(a, name, fold) {
      var i :| 0 <= i < |b| && Matches(b[i], name, fold) && b[i].id == x;
      InIds(a, b[i], name, fold);
    }
  }

  // ---- preferences ------------------------------------------------------------------------

  /** The four preferences an exit node is chosen with. */
  datatype Route = Route(routeAll: bool, id: string, ip: string, auto: string)

  /** All preferences of the backend; others stands for those nobody here looks at. */
  datatype Prefs = Prefs(route: Route, others: string)

  /** `status`: the peers, and the exit node in use with whether it is online. */
  datatype Status = Status(peers: seq<Peer>, exit: Option<(string, bool)>)

  /** `effectiveExitNode(prefs, status, wanted) == nil` */
  predicate Effective(p: Prefs, status: Option<Status>, wanted: string) {
    if wanted == "" then p.route.id == "" && p.route.ip == "" && p.route.auto == ""
    else p.route.routeAll && p.route.id == wanted && p.route.auto == ""
         && status.Some? && status.value.exit == Some((wanted, true))
  }

  datatype Error = StatusUnread | LookupFailed(why: Lookup) | PrefsUnread | EditRefused | ReadbackFailed | NotEffective
                 | NotConnected | RollbackFailed(cause: Error)

  /** What the backend answers to its n-th call: whether the call succeeds, the status, and
      the preferences it reports, which may lag behind what has been set; and whether an
      edit that it refuses takes effect all the same. */
  datatype Answer = Answer(ok: bool, status: Option<Status>, report: Option<Prefs>, slips: bool)

  /** One call with its answer. */
  datatype Call = StatusCall(ok: bool, status: Option<Status>)
                | PrefsCall(ok: bool, prefs: Option<Prefs>)
                | EditCall(ok: bool, route: Route, took: bool)

  predicate AnsweredBy(c: Call, a: Answer) {
    match c
    case StatusCall(ok, status) => ok == a.ok && status == a.status
    case PrefsCall(ok, prefs) => ok == a.ok && prefs == a.report
    case EditCall(ok, _, took) => ok == a.ok && took == (a.ok || a.slips)
  }

  /** The preferences behind some calls. */
  function Replay(p: Prefs, calls: seq<Call>): Prefs {
    if calls == [] then p
    else
      var (before, c) := (Replay(p, calls[..|calls| - 1]), calls[|calls| - 1]);
      if c.EditCall? && c.took then before.(route := c.route) else before
  }

  lemma {:induction false} ReplayConcat(p: Prefs, a: seq<Call>, b: seq<Call>)
    ensures Replay(p, a + b) == Replay(Replay(p, a), b)
  {
    if b == [] {
      assert a + b == a;
    } else {
      assert (a + b)[..|a + b| - 1] == a + b[..|b| - 1];
      ReplayConcat(p, a, b[..|b| - 1]);
    }
  }

  /** The backend: preferences that only an edit changes, and everything else up to it. The
      history holds every call that has been made, each as it was answered. */
  class Backend {
    const answers: nat -> Answer
    const first: Prefs
    var calls: nat
    var prefs: Prefs
    ghost var history: seq<Call>

    ghost predicate Valid()
      reads this
    {
      && calls == |history| && prefs == Replay(first, history)
      && forall i :: 0 <= i < |history| ==> AnsweredBy(history[i], answers(i))
    }

    constructor (answers: nat -> Answer, prefs: Prefs)
      ensures Valid() && this.prefs == prefs && history == []
    {
      this.answers, this.first, this.prefs, calls, history := answers, prefs, prefs, 0, [];
    }

    method ReadStatus() returns (ok: bool, status: Option<Status>)
      requires Valid()
      modifies this`calls, this`history
      ensures Valid() && history == old(history) + [StatusCall(ok, status)]
    {
      ok, status := answers(calls).ok, answers(calls).status;
      calls, history := calls + 1, history + [StatusCall(ok, status)];
    }

    method GetPrefs() returns (ok: bool, p: Option<Prefs>)
      requires Valid()
      modifies this`calls, this`history
      ensures Valid() && history == old(history) + [PrefsCall(ok, p)]
    {
      ok, p := answers(calls).ok, answers(calls).report;
      calls, history := calls + 1, history + [PrefsCall(ok, p)];
    }

    /** Only the four preferences of the mask are touched, all of them or none. */
    method EditPrefs(route: Route) returns (ok: bool, ghost took: bool)
      requires Valid()
      modifies this`calls, this`prefs, this`history
      ensures Valid() && (ok ==> took) && history == old(history) + [EditCall(ok, route, took)]
    {
      ok, took := answers(calls).ok, answers(calls).ok || answers(calls).slips;
      if ok || answers(calls).slips {
        prefs := prefs.(route := route);
      }
      calls, history := calls + 1, history + [EditCall(ok, route, took)];
    }
  }

  // ---- what a change does -----------------------------------------------------------------

  function Outcome(prefs: Option<Prefs>, status: Option<Status>, id: string): Option<Error> {
    if prefs.Some? && Effective(prefs.value, status, id) then None else Some(NotEffective)
  }

  /** One round of reading back: the preferences, and for a chosen node the status. */
  ghost predicate Round(name: string, id: string, r: seq<Call>, error: Option<Error>) {
    && r != [] && r[0].PrefsCall?
    && if !r[0].ok then |r| == 1 && error == Some(ReadbackFailed)
       else if name == "" then |r| == 1 && error == Outcome(r[0].prefs, None, id)
       else |r| == 2 && r[1].StatusCall? && error == if r[1].ok then Outcome(r[0].prefs, r[1].status, id) else Some(ReadbackFailed)
  }

  function RoundSize(name: string): nat { if name == "" then 1 else 2 }

  /** Whole rounds, none of which has shown the change effective. */
  ghost predicate NotYet(name: string, id: string, h: seq<Call>) {
    || h == []
    || (var n := |h| - RoundSize(name); n >= 0 && Round(name, id, h[n..], Some(NotEffective)) && NotYet(name, id, h[..n]))
  }

  /** The calls of a readback: rounds that show nothing yet, and one that settles it. */
  ghost predicate ReadBackWent(name: string, id: string, h: seq<Call>, error: Option<Error>) {
    exists n :: 0 <= n <= |h| && NotYet(name, id, h[..n]) && Round(name, id, h[n..], error)
  }

  /** Where the preferences are read before the edit. */
  function Head(name: string): nat { if name == "" then 0 else 1 }

  /** The ID that the name stands for in the status read first. */
  function Target(name: string, fold: string -> string, h: seq<Call>): Lookup {
    if name == "" then Found("")
    else if h == [] || !h[0].StatusCall? || h[0].status == None then NoStatus
    else Search(h[0].status.value.peers, name, fold, None)
  }

  ghost predicate LookedUp(name: string, fold: string -> string, h: seq<Call>) {
    && |h| > Head(name) && (name != "" ==> h[0].StatusCall? && h[0].ok) && Target(name, fold, h).Found?
    && h[Head(name)].PrefsCall?
  }

  ghost predicate Prepared(name: string, fold: string -> string, h: seq<Call>) {
    LookedUp(name, fold, h) && h[Head(name)].ok && h[Head(name)].prefs.Some?
  }

  /** The preferences were read and the change was accepted. */
  ghost predicate Edited(name: string, fold: string -> string, h: seq<Call>) {
    && |h| >= Head(name) + 2 && Prepared(name, fold, h)
    && h[Head(name) + 1] == EditCall(true, Route(name != "", Target(name, fold, h).id, "", ""), true)
  }

  /** The edit, a readback that failed, and behind it the edit that puts back what had been
      read. */
  ghost predicate RolledBack(name: string, fold: string -> string, h: seq<Call>, cause: Error, ok: bool) {
    var n := |h| - 1;
    && n >= Head(name) + 2 && Edited(name, fold, h)
    && ReadBackWent(name, Target(name, fold, h).id, h[Head(name) + 2..n], Some(cause))
    && h[n].EditCall? && h[n].ok == ok && (ok ==> h[n].took) && h[n].route == h[Head(name)].prefs.value.route
  }

  /** `applyAndVerifyExitNode`: the calls it has made, in order, with their answers. */
  ghost predicate Applied(name: string, fold: string -> string, h: seq<Call>, error: Option<Error>) {
    var k := Head(name);
    match error
    case None => Edited(name, fold, h) && ReadBackWent(name, Target(name, fold, h).id, h[k + 2..], None)
    case Some(StatusUnread) => name != "" && |h| == 1 && h[0].StatusCall? && !h[0].ok
    case Some(LookupFailed(why)) =>
      name != "" && |h| == 1 && h[0].StatusCall? && h[0].ok && why == Target(name, fold, h) && !why.Found?
    case Some(PrefsUnread) => |h| == k + 1 && LookedUp(name, fold, h) && !Prepared(name, fold, h)
    case Some(EditRefused) =>
      && |h| == k + 2 && Prepared(name, fold, h)
      && h[k + 1].EditCall? && !h[k + 1].ok && h[k + 1].route == Route(name != "", Target(name, fold, h).id, "", "")
    case Some(RollbackFailed(cause)) => (cause.ReadbackFailed? || cause.NotEffective?) && RolledBack(name, fold, h, cause, false)
    case Some(NotConnected) => false
    case Some(cause) => RolledBack(name, fold, h, cause, true)
  }

  /** `applyAndVerifyExitNode(ctx, lc, name)`; the context's deadline is a number of calls. */
  method ApplyAndVerify(b: Backend, name: string, fold: string -> string, deadline: nat) returns (error: Option<Error>, ghost h: seq<Call>)
    requires b.Valid()
    modifies b
    ensures b.Valid() && b.history == old(b.history) + h && b.prefs == Replay(old(b.prefs), h)
    ensures Applied(name, fold, h, error)
    ensures error == Some(NotEffective) || error == Some(RollbackFailed(NotEffective)) ==> b.calls > deadline
  {
    hide Search, Replay, ReadBackWent, Effective, AnsweredBy, RoundSize, RolledBack;
    h := [];
    ghost var h0 := b.history;
    var id := "";
    if name != "" {
      var ok, status := b.ReadStatus();
      h := [StatusCall(ok, status)];
      ReplayConcat(b.first, h0, h);
      if !ok {
        return Some(StatusUnread), h;
      }
      if status == None {
        return Some(LookupFailed(NoStatus)), h;
      }
      var found := FindPeer(status.value.peers, name, fold);
      if !found.Found? {
        return Some(LookupFailed(found)), h;
      }
      id := found.id;
    }
    var read, previous := b.GetPrefs();
    h := h + [PrefsCall(read, previous)];
    ReplayConcat(b.first, h0, h);
    if !read || previous == None {
      return Some(PrefsUnread), h;
    }
    var edited, took := b.EditPrefs(Route(name != "", id, "", ""));
    h := h + [EditCall(edited, Route(name != "", id, "", ""), took)];
    ReplayConcat(b.first, h0, h);
    if !edited {
      return Some(EditRefused), h;
    }
    ghost var more, begun := [], h;
    error, more := ReadBack(b, name, id, deadline);
    h := begun + more;
    assert b.history == h0 + h;
    ReplayConcat(b.first, h0, h);
    Begun(name, fold, begun, more);
    if error.Some? {
      var restored, back := b.EditPrefs(previous.value.route);
      h := begun + more + [EditCall(restored, previous.value.route, back)];
      assert b.history == h0 + h;
      ReplayConcat(b.first, h0, h);
      GoesBack(name, fold, begun, more, error.value, EditCall(restored, previous.value.route, back));
      if !restored {
        error := Some(RollbackFailed(error.value));
      }
    }
  }

  lemma Begun(name: string, fold: string -> string, begun: seq<Call>, more: seq<Call>)
    requires |begun| == Head(name) + 2 && Edited(name, fold, begun)
    ensures Edited(name, fold, begun + more) && (begun + more)[Head(name) + 2..] == more
    ensures Target(name, fold, begun + more) == Target(name, fold, begun)
  {
    hide Search;
  }

  lemma GoesBack(name: string, fold: string -> string, begun: seq<Call>, more: seq<Call>, cause: Error, c: Call)
    requires |begun| == Head(name) + 2 && Edited(name, fold, begun)
    requires ReadBackWent(name, Target(name, fold, begun).id, more, Some(cause))
    requires c.EditCall? && (c.ok ==> c.took) && c.route == begun[Head(name)].prefs.value.route
    ensures RolledBack(name, fold, begun + more + [c], cause, c.ok)
  {
    hide Search, ReadBackWent, Target;
    var h := begun + more + [c];
    assert h == begun + (more + [c]) && h[Head(name) + 2..|h| - 1] == more;
    Begun(name, fold, begun, more + [c]);
  }

  /** The readback loop, until the change is effective, a read fails or time is up. */
  method ReadBack(b: Backend, name: string, id: string, deadline: nat) returns (error: Option<Error>, ghost h: seq<Call>)
    requires b.Valid()
    modifies b`calls, b`history
    ensures b.Valid() && b.history == old(b.history) + h
    ensures ReadBackWent(name, id, h, error) && (error.Some? ==> error.value.ReadbackFailed? || error.value.NotEffective?)
    ensures error == Some(NotEffective) ==> b.calls >= deadline
  {
    hide Replay, Effective;
    h := [];
    var status: Option<Status> := None;
    while true
      invariant name == "" ==> status == None
      invariant b.Valid() && b.history == old(b.history) + h && NotYet(name, id, h)
      decreases if deadline > b.calls then deadline - b.calls else 0
    {
      ghost var n, earlier := |h|, h;
      var ok, prefs := b.GetPrefs();
      h := h + [PrefsCall(ok, prefs)];
      assert h[..n] == earlier && h[n..] == [PrefsCall(ok, prefs)];
      if !ok {
        return Some(ReadbackFailed), h;
      }
      if name != "" {
        ok, status := b.ReadStatus();
        h := h + [StatusCall(ok, status)];
        assert h[..n] == earlier && h[n..] == [PrefsCall(true, prefs), StatusCall(ok, status)];
        if !ok {
          return Some(ReadbackFailed), h;
        }
      }
      if prefs.Some? && Effective(prefs.value, status, id) {
        return None, h;
      }
      if b.calls >= deadline {
        return Some(NotEffective), h;
      }
    }
  }

  // ---- what a caller is entitled to ------------------------------------------------------------

  predicate ReadsOnly(h: seq<Call>) { forall i :: 0 <= i < |h| ==> !h[i].EditCall? }

  lemma {:induction false} ReadsChangeNothing(p: Prefs, h: seq<Call>)
    requires ReadsOnly(h)
    ensures Replay(p, h) == p
  {
    if h == [] {
    } else {
      ReadsChangeNothing(p, h[..|h| - 1]);
    }
  }

  lemma {:induction false} NotYetReads(name: string, id: string, h: seq<Call>)
    requires NotYet(name, id, h)
    ensures ReadsOnly(h)
    decreases |h|
  {
    if h == [] {
    } else {
      var n := |h| - RoundSize(name);
      NotYetReads(name, id, h[..n]);
      assert h == h[..n] + h[n..];
    }
  }

  /** Reading back only reads, and its last calls say why it has ended. */
  lemma ReadBackMeaning(name: string, id: string, h: seq<Call>, error: Option<Error>)
    requires ReadBackWent(name, id, h, error) && (name == "" <==> id == "")
    ensures ReadsOnly(h)
    ensures error.None? ==> Shown(name, id, h)
    ensures error == Some(NotEffective) ==> !Shown(name, id, h) && LastRead(name, h)
    ensures error == Some(ReadbackFailed) ==> h != [] && !h[|h| - 1].ok
  {
    hide NotYet, Round, Shown;
    var n :| 0 <= n <= |h| && NotYet(name, id, h[..n]) && Round(name, id, h[n..], error);
    NotYetReads(name, id, h[..n]);
    RoundReads(name, id, h[..n], h[n..], error);
    assert h == h[..n] + h[n..];
  }

  lemma RoundReads(name: string, id: string, earlier: seq<Call>, r: seq<Call>, error: Option<Error>)
    requires Round(name, id, r, error) && (name == "" <==> id == "")
    ensures ReadsOnly(r) && r != []
    ensures error.None? ==> Shown(name, id, earlier + r)
    ensures error == Some(NotEffective) ==> !Shown(name, id, earlier + r) && LastRead(name, earlier + r) && |r| == RoundSize(name)
    ensures error == Some(ReadbackFailed) ==> !r[|r| - 1].ok
  {
  }

  /** The last calls have read the preferences, and for a name the status. */
  ghost predicate LastRead(name: string, h: seq<Call>) {
    var n := |h| - RoundSize(name);
    n >= 0 && h[n].PrefsCall? && h[n].ok && (name != "" ==> h[n + 1].StatusCall? && h[n + 1].ok)
  }

  /** The last calls have read the node as selected and online, or no node as selected. */
  ghost predicate Shown(name: string, id: string, h: seq<Call>) {
    var n := |h| - RoundSize(name);
    && n >= 0 && h[n].PrefsCall? && h[n].ok && h[n].prefs.Some?
    && var route := h[n].prefs.value.route;
       if name == "" then route.id == route.ip == route.auto == ""
       else route.routeAll && route.id == id && route.auto == ""
            && h[n + 1].StatusCall? && h[n + 1].ok && h[n + 1].status.Some? && h[n + 1].status.value.exit == Some((id, true))
  }

  /** No earlier round has shown the change effective: the readback ends at the first that does. */
  lemma {:induction false} FirstShown(name: string, id: string, h: seq<Call>, k: nat)
    requires NotYet(name, id, h) && (name == "" <==> id == "")
    requires 0 < k && k * RoundSize(name) <= |h|
    ensures !Shown(name, id, h[..k * RoundSize(name)])
    decreases |h|
  {
    hide Round, Shown;
    var n := |h| - RoundSize(name);
    RoundReads(name, id, h[..n], h[n..], Some(NotEffective));
    assert h[..n] + h[n..] == h == h[..|h|];
    NotYetWhole(name, id, h[..n]);
    if k * RoundSize(name) <= n {
      FirstShown(name, id, h[..n], k);
      assert h[..n][..k * RoundSize(name)] == h[..k * RoundSize(name)];
    }
  }

  lemma {:induction false} NotYetWhole(name: string, id: string, h: seq<Call>)
    requires NotYet(name, id, h)
    ensures |h| % RoundSize(name) == 0
    decreases |h|
  {
    hide Round;
    if h != [] {
      NotYetWhole(name, id, h[..|h| - RoundSize(name)]);
    }
  }

  lemma Named(name: string, fold: string -> string, h: seq<Call>)
    requires Target(name, fold, h).Found?
    ensures var id := Target(name, fold, h).id; name == "" <==> id == ""
    ensures name != "" ==> h != [] && h[0].StatusCall? && h[0].status.Some? && MatchIds(h[0].status.value.peers, name, fold) == {Target(name, fold, h).id}
  {
    hide Search, MatchIds;
    if name != "" {
      var ids := MatchIds(h[0].status.value.peers, name, fold);
      SearchIds(h[0].status.value.peers, name, fold, None);
      SearchStable(h[0].status.value.peers, name, fold, None);
      assert Known(None) + ids == ids;
    }
  }

  /** Success: the name stands for exactly one ID, which is not empty, in the status read
      first; all four preferences were set to it and no others; and behind the edit the last
      two calls have read it as selected, with routes accepted, and online. Without a name the
      last call has read that nothing is selected. */
  lemma Confirmed(name: string, fold: string -> string, was: Prefs, h: seq<Call>)
    requires Applied(name, fold, h, None)
    ensures var n := |h|;
            if name == "" then
              && n >= 3 && Replay(was, h) == was.(route := Route(false, "", "", ""))
              && h[n - 1].PrefsCall? && h[n - 1].ok && h[n - 1].prefs.Some?
              && var route := h[n - 1].prefs.value.route; route.id == "" && route.ip == "" && route.auto == ""
            else
              && n >= 5 && h[0].StatusCall? && h[0].status.Some?
              && var id := Replay(was, h).route.id;
                 && id != "" && MatchIds(h[0].status.value.peers, name, fold) == {id}
                 && Replay(was, h) == was.(route := Route(true, id, "", ""))
                 && h[n - 2].PrefsCall? && h[n - 2].ok && h[n - 2].prefs.Some?
                 && (var route := h[n - 2].prefs.value.route; route.routeAll && route.id == id && route.auto == "")
                 && h[n - 1].StatusCall? && h[n - 1].ok && h[n - 1].status.Some? && h[n - 1].status.value.exit == Some((id, true))
  {
    hide ReadBackWent, Search, MatchIds, Replay;
    var k, id := Head(name), Target(name, fold, h).id;
    Named(name, fold, h);
    ConfirmedRoute(name, fold, was, h);
    var more := h[k + 2..];
    ReadBackMeaning(name, id, more, None);
    assert more[|more| - 1] == h[|h| - 1] && (name != "" ==> more[|more| - 2] == h[|h| - 2]);
  }

  lemma ConfirmedRoute(name: string, fold: string -> string, was: Prefs, h: seq<Call>)
    requires Applied(name, fold, h, None)
    ensures Replay(was, h) == was.(route := Route(name != "", Target(name, fold, h).id, "", ""))
  {
    hide ReadBackWent, Search;
    var k, id := Head(name), Target(name, fold, h).id;
    Named(name, fold, h);
    ReadBackMeaning(name, id, h[k + 2..], None);
    assert h == h[..k + 2] + h[k + 2..];
    ReplayConcat(was, h[..k + 2], h[k + 2..]);
    ReadsChangeNothing(Replay(was, h[..k + 2]), h[k + 2..]);
    OneEdit(was, h[..k + 2]);
  }

  /** Time ran out: the last two calls before the way back, or the last one without a name, were
      answered, and did not say all that a success needs. */
  lemma Unconfirmed(name: string, fold: string -> string, h: seq<Call>, error: Error)
    requires Applied(name, fold, h, Some(error)) && (error == NotEffective || error == RollbackFailed(NotEffective))
    ensures var n := |h| - 1;
            if name == "" then
              && n >= 3 && h[n - 1].PrefsCall? && h[n - 1].ok
              && (h[n - 1].prefs.Some? ==> var route := h[n - 1].prefs.value.route; route.id != "" || route.ip != "" || route.auto != "")
            else
              && n >= 5 && h[0].StatusCall? && h[0].status.Some? && h[n - 2].PrefsCall? && h[n - 2].ok && h[n - 1].StatusCall? && h[n - 1].ok
              && exists id :: MatchIds(h[0].status.value.peers, name, fold) == {id} && (h[n - 2].prefs.Some? && h[n - 1].status.Some? ==>
                   var route := h[n - 2].prefs.value.route;
                   !route.routeAll || route.id != id || route.auto != "" || h[n - 1].status.value.exit != Some((id, true)))
  {
    hide ReadBackWent, Search, MatchIds;
    var k, n, id := Head(name), |h| - 1, Target(name, fold, h).id;
    Named(name, fold, h);
    var more := h[k + 2..n];
    ReadBackMeaning(name, id, more, Some(NotEffective));
    assert LastRead(name, more) && !Shown(name, id, more);
    if name == "" {
      assert more[|more| - 1] == h[n - 1];
    } else {
      assert more[|more| - 1] == h[n - 1] && more[|more| - 2] == h[n - 2];
      assert MatchIds(h[0].status.value.peers, name, fold) == {id};
    }
  }

  lemma {:induction false} SearchStable(peers: seq<Peer>, name: string, fold: string -> string, selected: Option<Peer>)
    requires Search(peers, name, fold, selected).Found?
    ensures Search(peers, name, fold, selected).id != ""
    decreases |peers|
  {
    hide Matches;
    if peers == [] {
    } else {
      SearchStable(peers[1..], name, fold, if Matches(peers[0], name, fold) then Some(peers[0]) else selected);
    }
  }

  /** Reads, and an edit at the end. */
  lemma OneEdit(was: Prefs, h: seq<Call>)
    requires h != [] && ReadsOnly(h[..|h| - 1])
    ensures var c := h[|h| - 1]; Replay(was, h) == if c.EditCall? && c.took then was.(route := c.route) else was
  {
    ReadsChangeNothing(was, h[..|h| - 1]);
  }

  /** The preferences behind a failure, whatever the backend has answered. */
  function Left(name: string, fold: string -> string, was: Prefs, h: seq<Call>, error: Error): Prefs
    requires h != []
  {
    var (k, last) := (Head(name), h[|h| - 1]);
    if error.StatusUnread? || error.LookupFailed? || error.PrefsUnread? || !last.EditCall? then was
    else if last.took then was.(route := last.route)
    else if error.EditRefused? then was
    else was.(route := Route(name != "", if Target(name, fold, h).Found? then Target(name, fold, h).id else "", "", ""))
  }

  lemma Failed(name: string, fold: string -> string, was: Prefs, h: seq<Call>, error: Error)
    requires Applied(name, fold, h, Some(error))
    ensures h != [] && Replay(was, h) == Left(name, fold, was, h, error)
  {
    hide ReadBackWent, Search, Effective;
    var k := Head(name);
    if error.StatusUnread? || error.LookupFailed? || error.PrefsUnread? || error.EditRefused? {
      OneEdit(was, h);
    } else {
      var cause := if error.RollbackFailed? then error.cause else error;
      var n := |h| - 1;
      var more := h[k + 2..n];
      Named(name, fold, h);
      ReadBackMeaning(name, Target(name, fold, h).id, more, Some(cause));
      assert h[..n] == h[..k + 2] + more;
      ReplayConcat(was, h[..k + 2], more);
      ReadsChangeNothing(Replay(was, h[..k + 2]), more);
      OneEdit(was, h[..k + 2]);
    }
  }

  /** A failure that no refused call is to blame for: without an accepted edit nothing has
      changed, and with one the four preferences are what had been read before it. */
  lemma Restored(name: string, fold: string -> string, was: Prefs, h: seq<Call>, error: Error)
    requires Applied(name, fold, h, Some(error)) && !error.EditRefused? && !error.RollbackFailed?
    ensures Replay(was, h) == if error.ReadbackFailed? || error.NotEffective? then was.(route := h[Head(name)].prefs.value.route) else was
  {
    hide ReadBackWent, Search;
    Failed(name, fold, was, h, error);
  }

  /** When the preferences read before the change were the true ones, a failure has changed
      nothing at all, if and only if the change would have been none, or neither a refused
      change has taken effect nor the way back has failed to. */
  lemma RestoredWhole(name: string, fold: string -> string, was: Prefs, h: seq<Call>, error: Error)
    requires Applied(name, fold, h, Some(error))
    requires |h| > Head(name) && h[Head(name)].PrefsCall? && h[Head(name)].prefs.Some? ==> h[Head(name)].prefs.value == was
    ensures h != []
    ensures Replay(was, h) == was <==>
              || ((error.EditRefused? ==> !h[|h| - 1].took) && (error.RollbackFailed? ==> h[|h| - 1].took))
              || was.route == Route(name != "", Target(name, fold, h).id, "", "")
  {
    hide ReadBackWent, Search;
    Failed(name, fold, was, h, error);
  }

  /** A change that is refused and takes effect all the same. */
  lemma NotRestoredExample(fold: string -> string)
    ensures var was := Prefs(Route(false, "", "", ""), "");
            var h := [StatusCall(true, Some(Status([Peer("n", "a", "", true)], None))), PrefsCall(true, Some(was)),
                      EditCall(false, Route(true, "n", "", ""), true)];
            Applied("a", fold, h, Some(EditRefused)) && Replay(was, h) == was.(route := Route(true, "n", "", "")) != was
  {
    var was := Prefs(Route(false, "", "", ""), "");
    var h := [StatusCall(true, Some(Status([Peer("n", "a", "", true)], None))), PrefsCall(true, Some(was)),
              EditCall(false, Route(true, "n", "", ""), true)];
    var peers := [Peer("n", "a", "", true)];
    assert peers[1..] == [] && Matches(peers[0], "a", fold);
    assert Search(peers, "a", fold, None) == Search([], "a", fold, Some(peers[0])) == Found("n");
    assert Target("a", fold, h) == Found("n");
    assert ReadsOnly(h[..2]);
    OneEdit(was, h);
  }

  // ---- the settings handler ------------------------------------------------------------------

  datatype Reply = Changed | Refused(error: Error) | NotSaved | NotSavedNorRestored(error: Error)

  class App {
    const backend: Backend
    const fold: string -> string
    const connected: bool
    var inMemory: string
    var onDisk: string
    var active: bool
    var troubled: bool
    var recovering: bool

    constructor (backend: Backend, fold: string -> string, connected: bool, saved: string)
      ensures inMemory == onDisk == saved && this.backend == backend
    {
      this.backend, this.fold, this.connected := backend, fold, connected;
      inMemory, onDisk, active, troubled, recovering := saved, saved, false, false, false;
    }

    /** What one application of a name has done to the backend; without a connection there
        is nothing to clear, and nothing to choose. */
    ghost predicate Went(name: string, h: seq<Call>, error: Option<Error>) {
      if connected then Applied(name, fold, h, error)
      else h == [] && error == if name == "" then None else Some(NotConnected)
    }

    /** `applyExitNodePreference` */
    method Apply(name: string, deadline: nat) returns (error: Option<Error>, ghost h: seq<Call>)
      requires backend.Valid()
      modifies backend
      ensures backend.Valid() && backend.history == old(backend.history) + h && backend.prefs == Replay(old(backend.prefs), h)
      ensures Went(name, h, error)
    {
      if !connected {
        h := [];
        return if name == "" then None else Some(NotConnected), h;
      }
      error, h := ApplyAndVerify(backend, name, fold, deadline);
    }

    /** `handleExitNode`, behind its locks; saves says whether the file can be written. The
        saved choice changes in memory and on disk together or not at all, and only after
        the backend has confirmed it. */
    method Choose(name: string, saves: bool, deadline: nat) returns (reply: Reply, ghost h: seq<Call>, ghost back: seq<Call>)
      requires inMemory == onDisk && backend.Valid()
      modifies this`inMemory, this`onDisk, this`active, this`troubled, this`recovering, backend
      ensures inMemory == onDisk == if reply.Changed? then name else old(inMemory)
      ensures backend.Valid() && backend.history == old(backend.history) + (h + back)
      ensures backend.prefs == Replay(Replay(old(backend.prefs), h), back)
      ensures Went(name, h, if reply.Refused? then Some(reply.error) else None)
      ensures if reply.Changed? || reply.Refused? then back == []
              else Went(old(inMemory), back, if reply.NotSaved? then None else Some(reply.error))
      ensures reply.Changed? && connected ==>
                var route := backend.prefs.route;
                route == Route(name != "", route.id, "", "") && (route.id == "" <==> name == "") && Shown(name, route.id, h)
      ensures reply.Changed? ==> saves && active == (name != "") && !troubled && recovering == old(recovering)
      ensures reply.Refused? ==> !active && troubled && recovering == (old(recovering) || old(inMemory) != "")
      ensures reply.NotSaved? ==> !saves && active == old(active) && troubled == old(troubled) && recovering == old(recovering)
      ensures reply.NotSavedNorRestored? ==> !saves && !active && troubled && recovering == (old(recovering) || old(inMemory) != "")
    {
      hide Applied, Replay;
      back := [];
      ghost var h0 := backend.history;
      ghost var was := backend.prefs;
      var before := inMemory;
      var error;
      error, h := Apply(name, deadline);
      NoCalls(h, backend.prefs);
      if error.Some? {
        active, troubled := false, true;
        if before != "" {
          recovering := true;
        }
        return Refused(error.value), h, back;
      }
      if !saves {
        var failure;
        failure, back := Apply(before, deadline);
        assert h0 + h + back == h0 + (h + back);
        if failure.Some? {
          active, troubled := false, true;
          if before != "" {
            recovering := true;
          }
          return NotSavedNorRestored(failure.value), h, back;
        }
        return NotSaved, h, back;
      }
      if connected {
        Confirmed(name, fold, was, h);
      }
      onDisk := name;
      inMemory := name;
      active, troubled := name != "", false;
      reply := Changed;
    }

    lemma NoCalls(h: seq<Call>, p: Prefs)
      ensures h + [] == h && Replay(p, []) == p
    {
    }
  }
}
