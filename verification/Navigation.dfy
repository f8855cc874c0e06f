/** Which network failures a browser tab reports: those of its main document, once each. */
module Navigation {
  import opened Options

  datatype Failure = Failure(text: string, canceled: bool)

  datatype Request = Request(url: string, frame: string, failure: Option<Failure>)

  /** Everything that has happened, in order. A report names the place of the request it is
      about. */
  datatype Event = Started
                 | Sent(id: string, frame: string, url: string)
                 | Finished(id: string)
                 | Failed(id: string, failure: Failure)
                 | FrameKnown(frame: string)
                 | Closed
                 | Reported(origin: nat, url: string, failure: Failure)

  const TABLE := 64

  // ---- what may be reported ---------------------------------------------------------------

  /** Nothing between places a and b ends the request sent at a: no navigation start, no
      finish, no request with its ID, no report of it, no close. */
  ghost predicate Open(log: seq<Event>, a: nat, b: nat)
    requires a < b <= |log| && log[a].Sent?
  {
    forall j :: a < j < b ==> !Ends(log[j], a, log[a].id)
  }

  predicate Ends(e: Event, origin: nat, id: string) {
    match e
    case Started => true
    case Sent(x, _, _) => x == id
    case Finished(x) => x == id
    case Closed => true
    case Reported(k, _, _) => k == origin
    case _ => false
  }

  ghost predicate HasFailed(log: seq<Event>, a: nat, b: nat, f: Failure)
    requires a < b <= |log| && log[a].Sent?
  {
    exists j :: a < j < b && log[j] == Failed(log[a].id, f)
  }

  /** The main frame as known at place n. */
  function Frame(log: seq<Event>, n: nat): string
    requires n <= |log|
  {
    if n == 0 then "" else if log[n - 1].FrameKnown? then log[n - 1].frame else Frame(log, n - 1)
  }

  /** A report at place r is about a request of the main frame, sent since the latest
      navigation start, neither finished nor reported nor replaced since, that has failed
      the way it says; and the tracker has not been closed. */
  ghost predicate ReportOk(log: seq<Event>, r: nat)
    requires r < |log| && log[r].Reported?
  {
    var k := log[r].origin;
    && k < r && log[k].Sent? && log[k].url == log[r].url
    && Open(log, k, r) && HasFailed(log, k, r, log[r].failure)
    && Frame(log, r) != "" && log[k].frame == Frame(log, r)
  }

  ghost predicate ReportsOk(log: seq<Event>) {
    && (forall r :: 0 <= r < |log| && log[r].Reported? ==> ReportOk(log, r))
    && forall c, r :: 0 <= c < r < |log| && log[c].Closed? ==> !log[r].Reported?
  }

  /** No request is reported twice. */
  lemma ReportedOnce(log: seq<Event>, q: nat, r: nat)
    requires ReportsOk(log) && q < r < |log| && log[q].Reported? && log[r].Reported?
    ensures log[q].origin != log[r].origin
  {
    assert ReportOk(log, q) && ReportOk(log, r);
    var k := log[r].origin;
    if k < q {
      assert !Ends(log[q], k, log[k].id);
    }
  }

  lemma {:induction false} FrameStays(log: seq<Event>, e: Event, n: nat)
    requires n <= |log|
    ensures Frame(log + [e], n) == Frame(log, n)
  {
    if n == 0 {
    } else {
      FrameStays(log, e, n - 1);
    }
  }

  /** One more event that is no report leaves the reports as they were. */
  lemma ReportsStay(log: seq<Event>, e: Event)
    requires ReportsOk(log) && (e.Reported? ==> ReportOk(log + [e], |log|) && forall c :: 0 <= c < |log| ==> !log[c].Closed?)
    ensures ReportsOk(log + [e])
  {
    var all := log + [e];
    forall r | 0 <= r < |all| && all[r].Reported? ensures ReportOk(all, r) {
      if r < |log| {
        assert ReportOk(log, r);
        FrameStays(log, e, r);
        var k := log[r].origin;
        var j :| k < j < r && log[j] == Failed(log[k].id, log[r].failure);
        assert all[j] == Failed(all[k].id, all[r].failure);
      }
    }
  }

  // ---- the table ------------------------------------------------------------------------------

  /** An entry stands for a request sent at its origin that nothing has ended. */
  ghost predicate EntryOk(log: seq<Event>, id: string, req: Request, k: nat) {
    && k < |log| && log[k] == Sent(id, req.frame, req.url) && Open(log, k, |log|)
    && (req.failure.Some? ==> HasFailed(log, k, |log|, req.failure.value))
  }

  ghost predicate TableOk(log: seq<Event>, requests: map<string, Request>, origin: map<string, nat>) {
    && origin.Keys == requests.Keys
    && forall id :: id in requests ==> EntryOk(log, id, requests[id], origin[id])
  }

  lemma EntryStays(log: seq<Event>, e: Event, id: string, req: Request, k: nat)
    requires EntryOk(log, id, req, k) && !Ends(e, k, id)
    ensures EntryOk(log + [e], id, req, k)
  {
    var all := log + [e];
    if req.failure.Some? {
      var j :| k < j < |log| && log[j] == Failed(log[k].id, req.failure.value);
      assert all[j] == log[j];
    }
  }

  lemma EntryFails(log: seq<Event>, id: string, req: Request, k: nat, f: Failure)
    requires EntryOk(log, id, req, k)
    ensures EntryOk(log + [Failed(id, f)], id, req.(failure := Some(f)), k)
  {
    var all := log + [Failed(id, f)];
    assert all[|log|] == Failed(all[k].id, f);
  }

  lemma TableStays(log: seq<Event>, e: Event, requests: map<string, Request>, origin: map<string, nat>,
                   requests': map<string, Request>, origin': map<string, nat>)
    requires TableOk(log, requests, origin) && origin'.Keys == requests'.Keys
    requires forall id :: id in requests' ==>
               || EntryOk(log + [e], id, requests'[id], origin'[id])
               || (id in requests && requests'[id] == requests[id] && origin'[id] == origin[id] && !Ends(e, origin[id], id))
    ensures TableOk(log + [e], requests', origin')
  {
    forall id | id in requests' ensures EntryOk(log + [e], id, requests'[id], origin'[id]) {
      if id in requests && requests'[id] == requests[id] && origin'[id] == origin[id] && !Ends(e, origin[id], id) {
        EntryStays(log, e, id, requests[id], origin[id]);
      }
    }
  }

  predicate Lingers(requests: map<string, Request>) {
    exists id :: id in requests && requests[id].failure.Some?
  }

  /** Taking an entry out of the table by reporting it. */
  lemma Reports(log: seq<Event>, requests: map<string, Request>, origin: map<string, nat>, id: string)
    requires ReportsOk(log) && TableOk(log, requests, origin) && id in requests && requests[id].failure.Some?
    requires forall c :: 0 <= c < |log| ==> !log[c].Closed?
    requires Frame(log, |log|) != "" && requests[id].frame == Frame(log, |log|)
    ensures var e := Reported(origin[id], requests[id].url, requests[id].failure.value);
            ReportsOk(log + [e]) && TableOk(log + [e], requests - {id}, origin - {id})
  {
    var k, req := origin[id], requests[id];
    var e := Reported(k, req.url, req.failure.value);
    var all := log + [e];
    assert EntryOk(log, id, req, k);
    FrameStays(log, e, |log|);
    var j :| k < j < |log| && log[j] == Failed(log[k].id, req.failure.value);
    assert all[j] == Failed(all[k].id, req.failure.value);
    assert ReportOk(all, |log|);
    ReportsStay(log, e);
    forall x | x in requests - {id} ensures !Ends(e, origin[x], x) {
      assert EntryOk(log, x, requests[x], origin[x]);
    }
    TableStays(log, e, requests, origin, requests - {id}, origin - {id});
  }

  // ---- what a flush does ------------------------------------------------------------------------

  /** How many reports there have been. */
  function Count(log: seq<Event>): nat {
    if log == [] then 0 else Count(log[..|log| - 1]) + if log[|log| - 1].Reported? then 1 else 0
  }

  lemma CountMore(log: seq<Event>, e: Event)
    ensures Count(log + [e]) == Count(log) + if e.Reported? then 1 else 0
  {
    assert (log + [e])[..|log|] == log;
  }

  /** An entry that has to be reported. */
  predicate Due(requests: map<string, Request>, frame: string, id: string) {
    id in requests && requests[id].failure.Some? && requests[id].frame == frame
  }

  function ReportOf(requests: map<string, Request>, origin: map<string, nat>, id: string): (e: Event)
    requires id in requests && requests[id].failure.Some? && id in origin
    ensures e.Reported?
  {
    Reported(origin[id], requests[id].url, requests[id].failure.value)
  }

  ghost predicate AllDue(requests: map<string, Request>, origin: map<string, nat>, frame: string, ids: seq<string>) {
    forall i :: 0 <= i < |ids| ==> Due(requests, frame, ids[i]) && ids[i] in origin
  }

  /** Their reports, in order. */
  ghost function Told(requests: map<string, Request>, origin: map<string, nat>, frame: string, ids: seq<string>): seq<Event>
    requires AllDue(requests, origin, frame, ids)
  {
    if ids == [] then [] else Told(requests, origin, frame, ids[..|ids| - 1]) + [ReportOf(requests, origin, ids[|ids| - 1])]
  }

  ghost predicate Distinct(ids: seq<string>) { forall i, j :: 0 <= i < j < |ids| ==> ids[i] != ids[j] }

  function Unfailed(requests: map<string, Request>): map<string, Request> {
    map id | id in requests && requests[id].failure.None? :: requests[id]
  }

  /** The close that a callback has asked for. */
  function Ending(closed: bool): seq<Event> { if closed then [Closed] else [] }

  /** Before, and what has become of it. */
  datatype Table = Table(requests: map<string, Request>, origin: map<string, nat>, closed: bool, reports: nat)

  /** What a flush does with the main frame known: every failed entry leaves the table, and
      of those of the main frame each is reported once and in some order; unless a callback
      closes the tracker, which ends it behind the report it came with. */
  ghost predicate Flushed(a: Table, frame: string, closesOn: nat -> bool, ids: seq<string>, tail: seq<Event>, b: Table) {
    && Distinct(ids) && AllDue(a.requests, a.origin, frame, ids)
    && tail == Told(a.requests, a.origin, frame, ids) + Ending(b.closed)
    && b.reports == a.reports + |ids| && (forall n :: a.reports < n < b.reports ==> !closesOn(n))
    && (b.closed <==> ids != [] && closesOn(b.reports))
    && if b.closed then b.requests == map[]
       else b.requests == Unfailed(a.requests) && forall id :: Due(a.requests, frame, id) ==> id in ids
  }

  /** And when it is not known: nothing. */
  ghost predicate Swept(a: Table, frame: string, closesOn: nat -> bool, ids: seq<string>, tail: seq<Event>, b: Table) {
    if frame == "" then ids == [] && tail == [] && b == a else Flushed(a, frame, closesOn, ids, tail, b)
  }

  /** In the middle of a flush: those entries that are gone are the reported ones, and some
      failed ones of other frames. */
  ghost predicate Sweeping(a: Table, frame: string, closesOn: nat -> bool, ids: seq<string>, b: Table) {
    && Distinct(ids) && AllDue(a.requests, a.origin, frame, ids)
    && b.reports == a.reports + |ids| && (forall n :: a.reports < n < b.reports ==> !closesOn(n))
    && (b.closed <==> ids != [] && closesOn(b.reports))
    && (b.closed ==> b.requests == map[])
    && (!b.closed ==>
          && (forall id :: id in b.requests ==>
                id in a.requests && b.requests[id] == a.requests[id] && id in b.origin && id in a.origin && b.origin[id] == a.origin[id]
                && id !in ids)
          && (forall id :: id in a.requests && a.requests[id].failure.None? ==> id in b.requests)
          && forall id :: Due(a.requests, frame, id) ==> id in b.requests || id in ids)
  }

  /** One failed entry has been dealt with. */
  ghost predicate Settled(b: Table, frame: string, closesOn: nat -> bool, id: string, b': Table)
    requires id in b.requests
  {
    if b.requests[id].frame == frame then
      && b'.reports == b.reports + 1 && b'.closed == closesOn(b'.reports)
      && if b'.closed then b'.requests == map[] else b'.requests == b.requests - {id} && b'.origin == b.origin - {id}
    else b'.requests == b.requests - {id} && b'.origin == b.origin - {id} && b'.closed == b.closed && b'.reports == b.reports
  }

  lemma SweepBegins(a: Table, frame: string, closesOn: nat -> bool)
    requires !a.closed && a.origin.Keys == a.requests.Keys
    ensures Sweeping(a, frame, closesOn, [], a) && Told(a.requests, a.origin, frame, []) + Ending(a.closed) == []
  {
  }

  lemma SweepReports(a: Table, frame: string, closesOn: nat -> bool, ids: seq<string>, b: Table, id: string, b': Table)
    requires Sweeping(a, frame, closesOn, ids, b) && !b.closed && Due(b.requests, frame, id) && Settled(b, frame, closesOn, id, b')
    ensures Sweeping(a, frame, closesOn, ids + [id], b')
  {
    var all := ids + [id];
    assert forall x :: x in all <==> x in ids || x == id;
    assert Distinct(all) && AllDue(a.requests, a.origin, frame, all);
    hide Distinct, AllDue;
    if b'.closed {
    } else {
      assert forall x :: x in b'.requests ==> x in b.requests && x != id;
    }
  }

  /** The report made is the one that the table called for when the flush began. */
  lemma ToldMore(a: Table, frame: string, closesOn: nat -> bool, ids: seq<string>, b: Table, id: string)
    requires Sweeping(a, frame, closesOn, ids, b) && !b.closed && Due(b.requests, frame, id)
    ensures id in b.origin && AllDue(a.requests, a.origin, frame, ids) && AllDue(a.requests, a.origin, frame, ids + [id])
    ensures Told(a.requests, a.origin, frame, ids + [id]) == Told(a.requests, a.origin, frame, ids) + [ReportOf(b.requests, b.origin, id)]
  {
    var all := ids + [id];
    assert all[..|ids|] == ids;
  }

  lemma SweepDrops(a: Table, frame: string, closesOn: nat -> bool, ids: seq<string>, b: Table, id: string, b': Table)
    requires Sweeping(a, frame, closesOn, ids, b) && !b.closed && id in b.requests && b.requests[id].failure.Some?
    requires b.requests[id].frame != frame && Settled(b, frame, closesOn, id, b')
    ensures Sweeping(a, frame, closesOn, ids, b')
  {
  }

  lemma SweepGoesOn(a: Table, frame: string, closesOn: nat -> bool, ids: seq<string>, b: Table, id: string, b': Table)
    requires Sweeping(a, frame, closesOn, ids, b) && !b.closed && id in b.requests && b.requests[id].failure.Some?
    requires Settled(b, frame, closesOn, id, b')
    ensures Sweeping(a, frame, closesOn, if b.requests[id].frame == frame then ids + [id] else ids, b')
  {
    hide Sweeping, Settled;
    if b.requests[id].frame == frame {
      SweepReports(a, frame, closesOn, ids, b, id, b');
    } else {
      SweepDrops(a, frame, closesOn, ids, b, id, b');
    }
  }

  lemma SweepEnds(a: Table, frame: string, closesOn: nat -> bool, ids: seq<string>, b: Table)
    requires Sweeping(a, frame, closesOn, ids, b) && !Lingers(b.requests)
    ensures Flushed(a, frame, closesOn, ids, Told(a.requests, a.origin, frame, ids) + Ending(b.closed), b)
  {
    if !b.closed {
      assert b.requests == Unfailed(a.requests);
    }
  }

  // ---- the tracker ----------------------------------------------------------------------------

  ghost predicate WasClosed(log: seq<Event>) {
    exists c :: 0 <= c < |log| && log[c].Closed?
  }

  lemma OneMore(log: seq<Event>, e: Event)
    ensures WasClosed(log + [e]) <==> WasClosed(log) || e.Closed?
    ensures Frame(log + [e], |log| + 1) == if e.FrameKnown? then e.frame else Frame(log, |log|)
  {
    FrameStays(log, e, |log|);
    var all := log + [e];
    assert all[|log|] == e;
    if WasClosed(log) {
      var c :| 0 <= c < |log| && log[c].Closed?;
      assert all[c].Closed?;
    }
  }

  /** What ties the fields to what has happened. */
  ghost predicate Ok(log: seq<Event>, requests: map<string, Request>, origin: map<string, nat>, mainFrame: string, closed: bool) {
    && ReportsOk(log) && TableOk(log, requests, origin) && |requests| <= 64
    && mainFrame == Frame(log, |log|) && (closed <==> WasClosed(log)) && (closed ==> requests == map[])
  }

  lemma OkCleared(log: seq<Event>, requests: map<string, Request>, origin: map<string, nat>, mainFrame: string, e: Event)
    requires Ok(log, requests, origin, mainFrame, false) && (e.Started? || e.Closed?)
    ensures Ok(log + [e], map[], map[], mainFrame, e.Closed?)
  {
    hide ReportsOk, TableOk, WasClosed, Frame, EntryOk;
    ReportsStay(log, e);
    OneMore(log, e);
    TableStays(log, e, requests, origin, map[], map[]);
  }

  lemma OkReported(log: seq<Event>, requests: map<string, Request>, origin: map<string, nat>, mainFrame: string, id: string)
    requires Ok(log, requests, origin, mainFrame, false) && id in requests && requests[id].failure.Some?
    requires mainFrame != "" && requests[id].frame == mainFrame && id in origin
    ensures Ok(log + [ReportOf(requests, origin, id)], requests - {id}, origin - {id}, mainFrame, false)
  {
    hide ReportsOk, TableOk, Frame, EntryOk;
    Reports(log, requests, origin, id);
    OneMore(log, Reported(origin[id], requests[id].url, requests[id].failure.value));
    Smaller(requests, id);
  }

  lemma OkDropped(log: seq<Event>, requests: map<string, Request>, origin: map<string, nat>, mainFrame: string, id: string)
    requires Ok(log, requests, origin, mainFrame, false) && id in requests
    ensures Ok(log, requests - {id}, origin - {id}, mainFrame, false)
  {
    hide ReportsOk, WasClosed, Frame, EntryOk;
    Smaller(requests, id);
  }

  lemma OkSent(log: seq<Event>, requests: map<string, Request>, origin: map<string, nat>, mainFrame: string, id: string, frame: string, url: string)
    requires Ok(log, requests, origin, mainFrame, false)
    ensures var full := |requests| >= 64; var req := Request(url, frame, None);
            Ok(log + [Sent(id, frame, url)], (if full then map[] else requests)[id := req],
               (if full then map[] else origin)[id := |log|], mainFrame, false)
  {
    hide ReportsOk, WasClosed, Frame, EntryOk, TableOk, Ends;
    var e, req := Sent(id, frame, url), Request(url, frame, None);
    ReportsStay(log, e);
    OneMore(log, e);
    var full := |requests| >= TABLE;
    var table := if full then map[] else requests;
    Larger(table, id, req);
    TableKeys(log, requests, origin);
    TableSent(log, requests, origin, table, if full then map[] else origin, id, frame, url);
  }

  lemma TableKeys(log: seq<Event>, requests: map<string, Request>, origin: map<string, nat>)
    requires TableOk(log, requests, origin)
    ensures origin.Keys == requests.Keys
  {
  }

  /** A request sent replaces the entry with its ID and leaves the others. */
  lemma TableSent(log: seq<Event>, requests: map<string, Request>, origin: map<string, nat>,
                  table: map<string, Request>, kept: map<string, nat>, id: string, frame: string, url: string)
    requires TableOk(log, requests, origin) && ((table, kept) == (requests, origin) || (table, kept) == (map[], map[]))
    ensures TableOk(log + [Sent(id, frame, url)], table[id := Request(url, frame, None)], kept[id := |log|])
  {
    var e, req := Sent(id, frame, url), Request(url, frame, None);
    assert EntryOk(log + [e], id, req, |log|);
    forall x | x in table && x != id ensures !Ends(e, kept[x], x) {
    }
    hide EntryOk, Ends;
    TableStays(log, e, requests, origin, table[id := req], kept[id := |log|]);
  }

  lemma OkFinished(log: seq<Event>, requests: map<string, Request>, origin: map<string, nat>, mainFrame: string, id: string)
    requires Ok(log, requests, origin, mainFrame, false)
    ensures Ok(log + [Finished(id)], requests - {id}, origin - {id}, mainFrame, false)
  {
    hide ReportsOk, WasClosed, Frame, EntryOk;
    ReportsStay(log, Finished(id));
    OneMore(log, Finished(id));
    TableStays(log, Finished(id), requests, origin, requests - {id}, origin - {id});
    if id in requests {
      Smaller(requests, id);
    } else {
      assert requests - {id} == requests;
    }
  }

  lemma OkFailed(log: seq<Event>, requests: map<string, Request>, origin: map<string, nat>, mainFrame: string, id: string, f: Failure)
    requires Ok(log, requests, origin, mainFrame, false) && id in requests
    ensures Ok(log + [Failed(id, f)], requests[id := requests[id].(failure := Some(f))], origin, mainFrame, false)
  {
    hide ReportsOk, WasClosed, Frame, EntryOk;
    var e, req := Failed(id, f), requests[id].(failure := Some(f));
    ReportsStay(log, e);
    OneMore(log, e);
    EntryFails(log, id, requests[id], origin[id], f);
    TableStays(log, e, requests, origin, requests[id := req], origin);
    Replaced(requests, id, req);
  }

  lemma OkFrame(log: seq<Event>, requests: map<string, Request>, origin: map<string, nat>, mainFrame: string, frame: string)
    requires Ok(log, requests, origin, mainFrame, false)
    ensures Ok(log + [FrameKnown(frame)], requests, origin, frame, false)
  {
    hide ReportsOk, WasClosed, Frame, EntryOk;
    ReportsStay(log, FrameKnown(frame));
    OneMore(log, FrameKnown(frame));
    TableStays(log, FrameKnown(frame), requests, origin, requests, origin);
  }

  lemma OkKeys(log: seq<Event>, requests: map<string, Request>, origin: map<string, nat>, mainFrame: string, closed: bool)
    requires Ok(log, requests, origin, mainFrame, closed)
    ensures origin.Keys == requests.Keys && (closed ==> requests == map[]) && |requests| <= 64
  {
  }

  /** The closures of `EnableNavigationDiagnostics`. What the callback for a failure does is
      up to the tab; it may close the tracker from inside. */
  class Tracker {
    const closesOn: nat -> bool
    var requests: map<string, Request>
    var mainFrame: string
    var closed: bool
    var reports: nat
    ghost var origin: map<string, nat>
    ghost var log: seq<Event>

    ghost predicate Consistent()
      reads this
    {
      Ok(log, requests, origin, mainFrame, closed) && reports == Count(log)
    }

    ghost function Now(): Table
      reads this
    {
      Table(requests, origin, closed, reports)
    }

    /** Between events, besides: once the main frame is known no failed entry lingers. */
    ghost predicate Valid()
      reads this
    {
      Consistent() && (mainFrame != "" ==> !Lingers(requests))
    }

    constructor (closesOn: nat -> bool)
      ensures Valid() && log == [] && !closed
    {
      this.closesOn := closesOn;
      requests, mainFrame, closed, reports, origin, log := map[], "", false, 0, map[], [];
    }

    /** `closeAll` */
    method Close()
      requires Consistent()
      modifies this`closed, this`requests, this`origin, this`log
      ensures Consistent() && closed && requests == map[]
      ensures log == if old(closed) then old(log) else old(log) + [Closed]
    {
      hide Ok;
      OkKeys(log, requests, origin, mainFrame, closed);
      if closed {
        return;
      }
      OkCleared(log, requests, origin, mainFrame, Closed);
      CountMore(log, Closed);
      log := log + [Closed];
      closed, requests, origin := true, map[], map[];
    }

    /** One failed entry is taken out of the table, and reported if it is of the main frame. */
    method Settle(id: string)
      requires Consistent() && !closed && mainFrame != "" && id in requests && requests[id].failure.Some? && id in origin
      modifies this`closed, this`requests, this`origin, this`log, this`reports
      ensures Consistent() && |requests| < |old(requests)|
      ensures Settled(old(Now()), mainFrame, closesOn, id, Now())
      ensures log == old(log) + if old(requests)[id].frame == mainFrame
                                then [ReportOf(old(requests), old(origin), id)] + Ending(closed) else []
      ensures old(requests)[id].frame != mainFrame ==> !closed
    {
      hide Ok, Count, ReportOf, Ending;
      ghost var e, b, log0 := ReportOf(requests, origin, id), Now(), log;
      var req := requests[id];
      OkKeys(log, requests, origin, mainFrame, closed);
      Smaller(requests, id);
      EndingIs(log, e);
      if req.frame == mainFrame {
        OkReported(log, requests, origin, mainFrame, id);
        CountMore(log, e);
        log := log + [e];
        requests, origin := requests - {id}, origin - {id};
        reports := reports + 1;
        if closesOn(reports) {
          Close();
        }
        assert Settled(b, mainFrame, closesOn, id, Now()) && log == log0 + ([e] + Ending(closed));
      } else {
        OkDropped(log, requests, origin, mainFrame, id);
        requests, origin := requests - {id}, origin - {id};
      }
    }

    /** One turn of the loop of `flush`. */
    method SettleNext(ghost a: Table, ghost ids0: seq<string>, ghost log0: seq<Event>, ghost tail0: seq<Event>)
        returns (ghost ids: seq<string>, ghost tail: seq<Event>)
      requires Consistent() && Sweeping(a, mainFrame, closesOn, ids0, Now()) && AllDue(a.requests, a.origin, mainFrame, ids0)
      requires log == log0 + tail0 && tail0 == Told(a.requests, a.origin, mainFrame, ids0) + Ending(closed)
      requires mainFrame != "" && exists id :: id in requests && requests[id].failure.Some?
      modifies this`closed, this`requests, this`origin, this`log, this`reports
      ensures Consistent() && Sweeping(a, mainFrame, closesOn, ids, Now()) && AllDue(a.requests, a.origin, mainFrame, ids)
      ensures log == log0 + tail && tail == Told(a.requests, a.origin, mainFrame, ids) + Ending(closed)
      ensures |requests| < |old(requests)|
    {
      hide Ok, Count, Sweeping, Told, AllDue, ReportOf, Settled, Ending;
      ids, tail := ids0, tail0;
      OkKeys(log, requests, origin, mainFrame, closed);
      var id :| id in requests && requests[id].failure.Some?;
      ghost var b, main := Now(), requests[id].frame == mainFrame;
      Settle(id);
      SweepGoesOn(a, mainFrame, closesOn, ids, b, id, Now());
      if main {
        ToldMore(a, mainFrame, closesOn, ids, b, id);
        Joined(log0, tail, ReportOf(b.requests, b.origin, id), closed);
        ids := ids + [id];
        tail := Told(a.requests, a.origin, mainFrame, ids) + Ending(closed);
      }
    }

    /** `flush`: the entries come in any order. */
    method Flush() returns (ghost ids: seq<string>, ghost tail: seq<Event>)
      requires Consistent()
      modifies this`closed, this`requests, this`origin, this`log, this`reports
      ensures Valid() && log == old(log) + tail
      ensures if old(closed) then tail == [] && Now() == old(Now()) else Swept(old(Now()), mainFrame, closesOn, ids, tail, Now())
    {
      hide Ok, Count, Sweeping, Flushed, Told, AllDue, Ending;
      ids, tail := [], [];
      OkKeys(log, requests, origin, mainFrame, closed);
      if closed || mainFrame == "" {
        return;
      }
      ghost var a := Now();
      SweepBegins(a, mainFrame, closesOn);
      while exists id :: id in requests && requests[id].failure.Some?
        invariant Consistent() && Sweeping(a, mainFrame, closesOn, ids, Now()) && AllDue(a.requests, a.origin, mainFrame, ids)
        invariant log == old(log) + tail && tail == Told(a.requests, a.origin, mainFrame, ids) + Ending(closed)
        decreases |requests|
      {
        ids, tail := SettleNext(a, ids, old(log), tail);
      }
      SweepEnds(a, mainFrame, closesOn, ids, Now());
    }

    /** `NavigationStarting` */
    method Starting()
      requires Valid()
      modifies this`requests, this`origin, this`log
      ensures Valid() && log == if closed then old(log) else old(log) + [Started]
      ensures requests == map[]
    {
      hide Ok;
      OkKeys(log, requests, origin, mainFrame, closed);
      if closed {
        return;
      }
      OkCleared(log, requests, origin, mainFrame, Started);
      CountMore(log, Started);
      log := log + [Started];
      requests, origin := map[], map[];
    }

    /** `Network.requestWillBeSent`, for a request of the given type. */
    method WillBeSent(kind: string, id: string, frame: string, url: string)
      requires Valid()
      modifies this`requests, this`origin, this`log
      ensures Valid()
      ensures var watched := !closed && kind == "Document" && id != "" && (mainFrame == "" || frame == mainFrame);
              && log == (if watched then old(log) + [Sent(id, frame, url)] else old(log))
              && requests == if watched then (if |old(requests)| >= 64 then map[] else old(requests))[id := Request(url, frame, None)]
                             else old(requests)
    {
      hide Ok;
      if closed || kind != "Document" || id == "" {
        return;
      }
      if mainFrame != "" && frame != mainFrame {
        return;
      }
      OkSent(log, requests, origin, mainFrame, id, frame, url);
      CountMore(log, Sent(id, frame, url));
      ghost var place := |log|;
      log := log + [Sent(id, frame, url)];
      if |requests| >= TABLE {
        requests, origin := map[], map[];
      }
      requests, origin := requests[id := Request(url, frame, None)], origin[id := place];
    }

    /** `Network.loadingFinished` */
    method LoadingFinished(id: string)
      requires Valid()
      modifies this`requests, this`origin, this`log
      ensures Valid() && requests == old(requests) - {id} && log == if closed then old(log) else old(log) + [Finished(id)]
    {
      hide Ok;
      OkKeys(log, requests, origin, mainFrame, closed);
      if closed {
        return;
      }
      OkFinished(log, requests, origin, mainFrame, id);
      CountMore(log, Finished(id));
      log := log + [Finished(id)];
      requests, origin := requests - {id}, origin - {id};
    }

    /** `Network.loadingFailed`: with the main frame known, the failure is reported at once
        and alone, if it is one of the main frame. */
    method LoadingFailed(id: string, failure: Failure) returns (ghost ids: seq<string>, ghost tail: seq<Event>)
      requires Valid()
      modifies this`closed, this`requests, this`origin, this`log, this`reports
      ensures Valid()
      ensures old(closed) || id !in old(requests) ==> log == old(log) && Now() == old(Now())
      ensures !old(closed) && id in old(requests) ==>
                && log == old(log) + [Failed(id, failure)] + tail
                && Swept(old(Now()).(requests := old(requests)[id := old(requests)[id].(failure := Some(failure))]), mainFrame, closesOn,
                         ids, tail, Now())
                && ids == if mainFrame != "" && old(requests)[id].frame == mainFrame then [id] else []
    {
      hide Ok, Count, Flushed;
      ids, tail := [], [];
      if closed || id !in requests {
        return;
      }
      OkFailed(log, requests, origin, mainFrame, id, failure);
      CountMore(log, Failed(id, failure));
      ghost var before := requests;
      log := log + [Failed(id, failure)];
      requests := requests[id := requests[id].(failure := Some(failure))];
      ghost var a := Now();
      ids, tail := Flush();
      if mainFrame != "" {
        OnlyOneDue(a, mainFrame, closesOn, ids, tail, Now(), id);
      }
    }

    /** `Page.getFrameTree` has named the main frame: what has failed in it until then is
        reported now. */
    method FrameTree(frame: string) returns (ghost ids: seq<string>, ghost tail: seq<Event>)
      requires Valid()
      modifies this
      ensures Valid()
      ensures old(closed) || frame == "" ==> log == old(log) && Now() == old(Now()) && mainFrame == old(mainFrame)
      ensures !old(closed) && frame != "" ==>
                && mainFrame == frame && log == old(log) + [FrameKnown(frame)] + tail
                && Flushed(old(Now()), frame, closesOn, ids, tail, Now())
    {
      hide Ok, Count, Flushed;
      ids, tail := [], [];
      if closed || frame == "" {
        return;
      }
      OkFrame(log, requests, origin, mainFrame, frame);
      CountMore(log, FrameKnown(frame));
      log := log + [FrameKnown(frame)];
      mainFrame := frame;
      ids, tail := Flush();
    }
  }

  /** When only one entry has failed, a flush reports that one or nothing. */
  lemma OnlyOneDue(a: Table, frame: string, closesOn: nat -> bool, ids: seq<string>, tail: seq<Event>, b: Table, id: string)
    requires Flushed(a, frame, closesOn, ids, tail, b)
    requires id in a.requests && a.requests[id].failure.Some?
    requires forall x :: x in a.requests && a.requests[x].failure.Some? ==> x == id
    ensures ids == if a.requests[id].frame == frame then [id] else []
  {
    hide Told;
    TwoDiffer(ids);
    forall i | 0 <= i < |ids| ensures ids[i] == id {
      assert Due(a.requests, frame, ids[i]);
    }
    assert |ids| == 1 ==> ids == [ids[0]];
    assert Due(a.requests, frame, id) <==> a.requests[id].frame == frame;
  }

  lemma Joined(log: seq<Event>, tail: seq<Event>, e: Event, closed: bool)
    ensures tail + Ending(false) == tail && log + tail + ([e] + Ending(closed)) == log + (tail + [e] + Ending(closed))
  {
  }

  lemma EndingIs(log: seq<Event>, e: Event)
    ensures log + [e] + [Closed] == log + ([e] + Ending(true)) && log + [e] == log + ([e] + Ending(false)) && log + [] == log
  {
  }

  lemma TwoDiffer(ids: seq<string>)
    requires Distinct(ids)
    ensures |ids| > 1 ==> ids[0] != ids[1]
  {
  }

  lemma Smaller(m: map<string, Request>, id: string)
    requires id in m
    ensures |m - {id}| == |m| - 1
  {
    assert m.Keys == (m - {id}).Keys + {id};
  }

  lemma Larger(m: map<string, Request>, id: string, req: Request)
    ensures |m[id := req]| <= |m| + 1
  {
    assert m[id := req].Keys == m.Keys + {id};
  }

  lemma Replaced(m: map<string, Request>, id: string, req: Request)
    requires id in m
    ensures |m[id := req]| == |m|
  {
    assert m[id := req].Keys == m.Keys;
  }
}
