/** Sessions in which the server, as RFC 6143 has it, waits for what the client has to say:
    which of them are carried out as the server means them, however its bytes are cut. */
module RfbTalk {
  import opened Options
  import opened Words
  import opened Pixels
  import opened Rre
  import opened Rfb
  import opened RfbChunks
  import opened RfbRuns
  import opened Encodings
  import opened RfbSession

  // ---- a server that waits ------------------------------------------------------------------

  /** What the server waits for before it goes on. */
  datatype Gate = AtOnce | TheVersion | TheSelection | TheResponse | TheInitialisation | TheRequest(n: nat)

  function Requests(out: seq<Message>): nat { Count(out, (m: Message) => m.UpdateRequest?) }

  /** Among the client's messages is what the server waits for; for the n-th update, n
      requests. */
  ghost predicate Passes(g: Gate, out: seq<Message>) {
    match g
    case AtOnce => true
    case TheVersion => exists m :: m in out && m.ClientVersion?
    case TheSelection => exists m :: m in out && m.SelectSecurity?
    case TheResponse => exists m :: m in out && m.AuthResponse?
    case TheInitialisation => exists m :: m in out && m.ClientInit?
    case TheRequest(n) => Requests(out) >= n
  }

  /** What the server sends in one go, cut anyhow. */
  datatype Segment = Segment(gate: Gate, chunks: seq<seq<byte>>)

  /** How far the two get: to the end, to a point at which each waits for the other, or to an
      exception in the client. */
  datatype Talked = Finished(state: State, events: seq<Event>, outgoing: seq<Message>)
                  | Deadlocked(state: State, events: seq<Event>, outgoing: seq<Message>)
                  | Broken

  ghost function Talk(env: Env, s: State, e: seq<Event>, o: seq<Message>, segments: seq<Segment>): Talked
    decreases |segments|
  {
    if segments == [] then Finished(s, e, o)
    else if !Passes(segments[0].gate, o) then Deadlocked(s, e, o)
    else
      match Feed(env, s, segments[0].chunks)
      case Thrown => Broken
      case Done(s', e', o') => Talk(env, s', e + e', o + o', segments[1..])
  }

  datatype Go = Go(gate: Gate, bytes: seq<byte>)

  /** The segments are these goes, each cut somehow. */
  ghost predicate Cuts(goes: seq<Go>, segments: seq<Segment>) {
    && |segments| == |goes|
    && forall i :: 0 <= i < |goes| ==> segments[i].gate == goes[i].gate && Joined(segments[i].chunks) == goes[i].bytes
  }

  // ---- what the server has to say ---------------------------------------------------------------

  /** From the security types to the result, sections 7.1.2 and 7.1.3 and appendix A. */
  function Security(x: Server): seq<Go>
    requires |Listed(x).types| < 256
  {
    if x.minor >= 7 then
      [Go(TheVersion, TypeBytes(Listed(x)))]
      + if x.kind == 2 then [Go(TheSelection, x.challenge), Go(TheResponse, Be(0, 4))]
        else if SendsResult(x) then [Go(TheSelection, Be(0, 4))] else []
    else
      [Go(TheVersion, TypeBytes(Listed(x)) + ChallengeBytes(x))] + if x.kind == 2 then [Go(TheResponse, Be(0, 4))] else []
  }

  /** An update, which waits for a request of its own, and what is said behind it. */
  datatype Round = Round(update: Said, rest: seq<Said>)

  ghost predicate RoundOk(env: Env, r: Round) {
    r.update.Update? && Sayable(env, r.update) && AllSayable(env, r.rest) && Quiet(r.rest)
  }

  /** Nothing that waits for a request. */
  predicate Quiet(ms: seq<Said>) { forall i :: 0 <= i < |ms| ==> !ms[i].Update? }

  ghost predicate RoundsOk(env: Env, rounds: seq<Round>) { forall i :: 0 <= i < |rounds| ==> RoundOk(env, rounds[i]) }

  /** The rounds from the n-th request on. */
  ghost function RoundGoes(env: Env, rounds: seq<Round>, n: nat): seq<Go>
    requires RoundsOk(env, rounds)
  {
    if rounds == [] then []
    else [Go(TheRequest(n), AllSaid(env, [rounds[0].update] + rounds[0].rest))] + RoundGoes(env, rounds[1..], n + 1)
  }

  function Flat(rounds: seq<Round>): seq<Said> {
    if rounds == [] then [] else [rounds[0].update] + rounds[0].rest + Flat(rounds[1..])
  }

  /** A whole session: the handshake, what is said at once behind it, and the rounds. */
  ghost predicate SessionOk(env: Env, x: Server, first: seq<Said>, rounds: seq<Round>) {
    Legit(env, x) && AllSayable(env, first) && Quiet(first) && RoundsOk(env, rounds)
  }

  ghost function SessionGoes(env: Env, x: Server, first: seq<Said>, rounds: seq<Round>): seq<Go>
    requires SessionOk(env, x, first, rounds)
  {
    [Go(AtOnce, Banner(x.minor))] + Security(x)
    + ([Go(TheInitialisation, InitBytes(x) + AllSaid(env, first))] + RoundGoes(env, rounds, 1))
  }

  // ---- one go after the other ----------------------------------------------------------------------

  lemma EmptyWaits(env: Env, stage: Stage, screen: Screen)
    ensures Advance(env, State(stage, [], screen)) == Wait(State(stage, [], screen))
    ensures Run(env, State(stage, [], screen)) == Done(State(stage, [], screen), [], [])
  {
  }

  /** A go that the client has waited for, in whatever pieces. */
  lemma {:induction false} OneGo(env: Env, stage: Stage, screen: Screen, e: seq<Event>, o: seq<Message>, segments: seq<Segment>, go: Go,
              s': State, e': seq<Event>, o': seq<Message>)
    requires segments != [] && segments[0].gate == go.gate && Joined(segments[0].chunks) == go.bytes && Passes(go.gate, o)
    requires Run(env, State(stage, go.bytes, screen)) == Done(s', e', o') && !ZeroWord(State(stage, go.bytes, screen))
    ensures Talk(env, State(stage, [], screen), e, o, segments) == Talk(env, s', e + e', o + o', segments[1..])
  {
    hide Run, Advance, Feed, Joined, ZeroWord, Passes;
    EmptyWaits(env, stage, screen);
    assert [] + go.bytes == go.bytes;
    ChunksAgree(env, State(stage, [], screen), segments[0].chunks);
  }

  lemma NotZero(stage: Stage, bytes: seq<byte>, screen: Screen)
    requires stage == VersionStage ==> |bytes| < 20
    requires stage == Type33Stage ==> |bytes| >= 4 && Num(bytes, 0, 4) != 0
    ensures !ZeroWord(State(stage, bytes, screen))
  {
    hide Num;
  }

  // ---- the handshake ----------------------------------------------------------------------------------

  /** What the client has told and said when it waits for the display. */
  function Told0(x: Server): seq<Event> {
    [ProtocolVersion(3, x.minor, ClientMinor(3, x.minor))] + SecurityEvents(x) + if SendsResult(x) then [SecurityResult] else []
  }

  function Said0(env: Env, x: Server): seq<Message> {
    [ClientVersion(ClientMinor(3, x.minor))] + (if x.minor >= 7 then [SelectSecurity(x.kind)] else [])
    + (if x.kind == 2 then [AuthResponse(x.challenge)] else []) + [ClientInit(env.shared)]
  }

  lemma {:induction false} BannerTalks(env: Env, x: Server, segments: seq<Segment>)
    requires Legit(env, x) && segments != [] && segments[0].gate == AtOnce && Joined(segments[0].chunks) == Banner(x.minor)
    ensures Talk(env, START, [], [], segments)
         == Talk(env, State(if x.minor >= 7 then TypesStage else Type33Stage, [], START.screen),
                 [ProtocolVersion(3, x.minor, ClientMinor(3, x.minor))], [ClientVersion(ClientMinor(3, x.minor))], segments[1..])
  {
    hide Run, Talk, Banner, ClientMinor, Joined, Choose;
    var none := START.screen;
    var (e, o) := ([ProtocolVersion(3, x.minor, ClientMinor(3, x.minor))], [ClientVersion(ClientMinor(3, x.minor))]);
    var next := State(if x.minor >= 7 then TypesStage else Type33Stage, [], none);
    VersionRuns(env, x.minor, [], none);
    EmptyWaits(env, next.stage, none);
    assert Banner(x.minor) + [] == Banner(x.minor) && e + [] == e && o + [] == o && [] + e == e && [] + o == o;
    NotZero(VersionStage, Banner(x.minor), none);
    OneGo(env, VersionStage, none, [], [], segments, Go(AtOnce, Banner(x.minor)), next, e, o);
  }

  /** The types of a server that lets the client choose. */
  lemma {:induction false} TypesTalk(env: Env, x: Server, e: seq<Event>, o: seq<Message>, segments: seq<Segment>)
    requires Legit(env, x) && x.minor >= 7 && Passes(TheVersion, o)
    requires segments != [] && segments[0].gate == TheVersion && Joined(segments[0].chunks) == TypeBytes(Listed(x))
    ensures Talk(env, State(TypesStage, [], START.screen), e, o, segments)
         == Talk(env, State(Selected(x), [], START.screen), e + SecurityEvents(x), o + [SelectSecurity(x.kind)], segments[1..])
  {
    hide Run, Talk, TypeBytes, Joined, Legit, SecurityEvents, Passes;
    LegitParts(env, x);
    var none := START.screen;
    TypesRun(env, x, [], none);
    EmptyWaits(env, Selected(x), none);
    assert TypeBytes(Listed(x)) + [] == TypeBytes(Listed(x)) && SecurityEvents(x) + [] == SecurityEvents(x);
    assert Chosen(env, x) + [] == [SelectSecurity(x.kind)];
    NotZero(TypesStage, TypeBytes(Listed(x)), none);
    OneGo(env, TypesStage, none, e, o, segments, Go(TheVersion, TypeBytes(Listed(x))), State(Selected(x), [], none),
          SecurityEvents(x), [SelectSecurity(x.kind)]);
  }

  /** The word of a server that has chosen, and the challenge with it. */
  lemma {:induction false} WordTalks(env: Env, x: Server, e: seq<Event>, o: seq<Message>, segments: seq<Segment>)
    requires Legit(env, x) && x.minor < 7 && Passes(TheVersion, o)
    requires segments != [] && segments[0].gate == TheVersion && Joined(segments[0].chunks) == TypeBytes(Listed(x)) + ChallengeBytes(x)
    ensures Talk(env, State(Type33Stage, [], START.screen), e, o, segments)
         == Talk(env, State(if x.kind == 2 then ResultStage else InitStage, [], START.screen), e + [SecuritySelected(x.kind)],
                 o + [if x.kind == 2 then AuthResponse(x.challenge) else ClientInit(env.shared)], segments[1..])
  {
    hide Run, Talk, TypeBytes, Joined, Legit, Passes;
    LegitParts(env, x);
    var none := START.screen;
    var next := State(if x.kind == 2 then ResultStage else InitStage, [], none);
    var said := [if x.kind == 2 then AuthResponse(x.challenge) else ClientInit(env.shared)];
    TypesRun(env, x, ChallengeBytes(x), none);
    EmptyWaits(env, next.stage, none);
    if x.kind == 2 {
      ChallengeRuns(env, x.challenge, [], none);
      assert x.challenge + [] == x.challenge;
    }
    assert SecurityEvents(x) == [SecuritySelected(x.kind)];
    assert [SecuritySelected(x.kind)] + [] == [SecuritySelected(x.kind)] && [] + said == said && said + [] == said;
    WordNotZero(env, x);
    NotZero(Type33Stage, TypeBytes(Listed(x)) + ChallengeBytes(x), none);
    OneGo(env, Type33Stage, none, e, o, segments, Go(TheVersion, TypeBytes(Listed(x)) + ChallengeBytes(x)), next,
          [SecuritySelected(x.kind)], said);
  }

  lemma WordNotZero(env: Env, x: Server)
    requires Legit(env, x) && x.minor < 7
    ensures var d := TypeBytes(Listed(x)) + ChallengeBytes(x); |d| >= 4 && Num(d, 0, 4) != 0
  {
    hide Be, Num, Pow256;
    PowValues();
    StartsFirst(Be(x.kind, 4), ChallengeBytes(x));
    NumBe(Be(x.kind, 4) + ChallengeBytes(x), 0, x.kind, 4);
  }

  lemma {:induction false} ChallengeTalks(env: Env, x: Server, e: seq<Event>, o: seq<Message>, segments: seq<Segment>)
    requires Legit(env, x) && x.kind == 2 && Passes(TheSelection, o)
    requires segments != [] && segments[0].gate == TheSelection && Joined(segments[0].chunks) == x.challenge
    ensures Talk(env, State(ChallengeStage, [], START.screen), e, o, segments)
         == Talk(env, State(ResultStage, [], START.screen), e, o + [AuthResponse(x.challenge)], segments[1..])
  {
    hide Run, Talk, Joined, Legit, Passes;
    LegitParts(env, x);
    var none := START.screen;
    ChallengeRuns(env, x.challenge, [], none);
    EmptyWaits(env, ResultStage, none);
    assert x.challenge + [] == x.challenge && [AuthResponse(x.challenge)] + [] == [AuthResponse(x.challenge)] && e + [] == e;
    NotZero(ChallengeStage, x.challenge, none);
    OneGo(env, ChallengeStage, none, e, o, segments, Go(TheSelection, x.challenge), State(ResultStage, [], none), [], [AuthResponse(x.challenge)]);
  }

  lemma {:induction false} ResultTalks(env: Env, e: seq<Event>, o: seq<Message>, segments: seq<Segment>)
    requires segments != [] && Passes(segments[0].gate, o) && Joined(segments[0].chunks) == Be(0, 4)
    ensures Talk(env, State(ResultStage, [], START.screen), e, o, segments)
         == Talk(env, State(InitStage, [], START.screen), e + [SecurityResult], o + [ClientInit(env.shared)], segments[1..])
  {
    hide Run, Talk, Joined, Be, Passes;
    var none := START.screen;
    ResultRuns(env, [], none);
    EmptyWaits(env, InitStage, none);
    assert Be(0, 4) + [] == Be(0, 4) && [SecurityResult] + [] == [SecurityResult] && [ClientInit(env.shared)] + [] == [ClientInit(env.shared)];
    NotZero(ResultStage, Be(0, 4), none);
    OneGo(env, ResultStage, none, e, o, segments, Go(segments[0].gate, Be(0, 4)), State(InitStage, [], none), [SecurityResult], [ClientInit(env.shared)]);
  }

  /** With a server that lets the client choose. */
  lemma {:induction false} ChoiceTalks(env: Env, x: Server, segments: seq<Segment>)
    requires Legit(env, x) && !NoResult(x) && x.minor >= 7
    requires |segments| > |Security(x)| && Cuts([Go(AtOnce, Banner(x.minor))] + Security(x), segments[..1 + |Security(x)|])
    ensures Talk(env, START, [], [], segments)
         == Talk(env, State(InitStage, [], START.screen), Told0(x), Said0(env, x), segments[1 + |Security(x)|..])
  {
    hide Talk, Banner, Legit, TypeBytes, Be, Joined, Passes;
    Waits();
    LegitParts(env, x);
    var goes := [Go(AtOnce, Banner(x.minor))] + Security(x);
    Pieces(goes, segments);
    var o1 := [ClientVersion(ClientMinor(3, x.minor))];
    var o2 := o1 + [SelectSecurity(x.kind)];
    var e1 := [ProtocolVersion(3, x.minor, ClientMinor(3, x.minor))];
    var e2 := e1 + SecurityEvents(x);
    BannerTalks(env, x, segments);
    assert o1[0] in o1;
    TypesTalk(env, x, e1, o1, segments[1..]);
    assert segments[1..][1..] == segments[2..] && segments[2..][1..] == segments[3..];
    assert o2[1] in o2;
    if x.kind == 2 {
      var o3 := o2 + [AuthResponse(x.challenge)];
      ChallengeTalks(env, x, e2, o2, segments[2..]);
      assert o3[2] in o3;
      ResultTalks(env, e2, o3, segments[3..]);
      assert segments[3..][1..] == segments[4..];
    } else {
      ResultTalks(env, e2, o2, segments[2..]);
      assert o2 + [] == o2;
    }
  }

  /** With one that has chosen. */
  lemma {:induction false} ChosenTalks(env: Env, x: Server, segments: seq<Segment>)
    requires Legit(env, x) && x.minor < 7
    requires |segments| > |Security(x)| && Cuts([Go(AtOnce, Banner(x.minor))] + Security(x), segments[..1 + |Security(x)|])
    ensures Talk(env, START, [], [], segments)
         == Talk(env, State(InitStage, [], START.screen), Told0(x), Said0(env, x), segments[1 + |Security(x)|..])
  {
    hide Talk, Banner, Legit, TypeBytes, Be, Joined, Passes;
    Waits();
    LegitParts(env, x);
    var goes := [Go(AtOnce, Banner(x.minor))] + Security(x);
    Pieces(goes, segments);
    var o1 := [ClientVersion(ClientMinor(3, x.minor))];
    var e1 := [ProtocolVersion(3, x.minor, ClientMinor(3, x.minor))];
    BannerTalks(env, x, segments);
    assert o1[0] in o1;
    WordTalks(env, x, e1, o1, segments[1..]);
    assert segments[1..][1..] == segments[2..];
    if x.kind == 2 {
      var o2 := o1 + [AuthResponse(x.challenge)];
      assert o2[1] in o2;
      ResultTalks(env, e1 + [SecuritySelected(2)], o2, segments[2..]);
      assert segments[2..][1..] == segments[3..];
      assert o1 + [] == o1;
      assert Told0(x) == e1 + [SecuritySelected(2)] + [SecurityResult];
      assert Said0(env, x) == o2 + [ClientInit(env.shared)];
    } else {
      assert o1 + [] + [] == o1 && Told0(x) == e1 + [SecuritySelected(1)];
    }
  }

  /** What is waited for is passed by the message. */
  lemma Waits()
    ensures forall o: seq<Message>, m :: m in o && m.ClientVersion? ==> Passes(TheVersion, o)
    ensures forall o: seq<Message>, m :: m in o && m.SelectSecurity? ==> Passes(TheSelection, o)
    ensures forall o: seq<Message>, m :: m in o && m.AuthResponse? ==> Passes(TheResponse, o)
  {
  }

  lemma Pieces(goes: seq<Go>, segments: seq<Segment>)
    requires |segments| >= |goes| && Cuts(goes, segments[..|goes|])
    ensures forall i :: 0 <= i < |goes| ==> segments[i].gate == goes[i].gate && Joined(segments[i].chunks) == goes[i].bytes
  {
    hide Joined;
    forall i | 0 <= i < |goes| ensures segments[i].gate == goes[i].gate && Joined(segments[i].chunks) == goes[i].bytes {
      assert segments[..|goes|][i] == segments[i];
    }
  }

  /** The whole handshake, up to the point at which the client waits for the display and has
      said what the server waits for. */
  lemma {:induction false} HandshakeTalks(env: Env, x: Server, segments: seq<Segment>)
    requires Legit(env, x) && !NoResult(x)
    requires |segments| > |Security(x)| && Cuts([Go(AtOnce, Banner(x.minor))] + Security(x), segments[..1 + |Security(x)|])
    ensures Talk(env, START, [], [], segments)
         == Talk(env, State(InitStage, [], START.screen), Told0(x), Said0(env, x), segments[1 + |Security(x)|..])
    ensures Passes(TheInitialisation, Said0(env, x)) && Requests(Said0(env, x)) == 0
  {
    hide Talk, Legit, Banner, Security, Cuts, ClientMinor, Told0;
    if x.minor >= 7 {
      ChoiceTalks(env, x, segments);
    } else {
      ChosenTalks(env, x, segments);
    }
    var o := Said0(env, x);
    assert o[|o| - 1] in o && o[|o| - 1].ClientInit?;
    NoRequests(o);
  }

  lemma {:induction false} NoRequests(o: seq<Message>)
    requires forall i :: 0 <= i < |o| ==> !o[i].UpdateRequest?
    ensures Requests(o) == 0
  {
    if o == [] {
    } else {
      NoRequests(o[1..]);
    }
  }

  // ---- the connected server ----------------------------------------------------------------------------

  /** What is told and said before, and then this. */
  function Over(e: seq<Event>, o: seq<Message>, r: Result): Talked {
    match r
    case Thrown => Broken
    case Done(s, e', o') => Finished(s, e + e', o + o')
  }

  lemma {:induction false} StoryConcat(env: Env, screen: Screen, a: seq<Said>, b: seq<Said>)
    requires AllSayable(env, a) && AllSayable(env, b)
    ensures AllSayable(env, a + b) && Story(env, screen, a).Done?
    ensures var r := Story(env, screen, a);
            r.state == State(Connected, [], r.state.screen)
            && Story(env, screen, a + b) == Rfb.Before(r.events, r.outgoing, Story(env, r.state.screen, b))
    decreases |a|
  {
    hide Sayable, Told, Answer, ScreenThen;
    StoryEnds(env, screen, a);
    if a == [] {
      assert a + b == b;
      BeforeBefore([], [], [], [], Story(env, screen, b));
    } else {
      assert (a + b)[0] == a[0] && (a + b)[1..] == a[1..] + b;
      var next := ScreenThen(env, screen, a[0]);
      StoryConcat(env, next, a[1..], b);
      var q := Story(env, next, a[1..]);
      BeforeBefore([Told(env, screen, a[0])], Answer(env, screen, a[0]), q.events, q.outgoing, Story(env, q.state.screen, b));
    }
  }

  /** One request for each update. */
  lemma {:induction false} StoryRequests(env: Env, screen: Screen, ms: seq<Said>)
    requires AllSayable(env, ms)
    ensures Story(env, screen, ms).Done?
    ensures Requests(Story(env, screen, ms).outgoing) == Count(ms, (m: Said) => m.Update?)
    decreases |ms|
  {
    hide Sayable, Told, ScreenThen;
    StoryEnds(env, screen, ms);
    if ms == [] {
    } else {
      var next := ScreenThen(env, screen, ms[0]);
      StoryRequests(env, next, ms[1..]);
      StoryEnds(env, next, ms[1..]);
      CountConcat(Answer(env, screen, ms[0]), Story(env, next, ms[1..]).outgoing, (m: Message) => m.UpdateRequest?);
      OneAnswer(env, screen, ms[0]);
    }
  }

  lemma OneAnswer(env: Env, screen: Screen, m: Said)
    ensures Requests(Answer(env, screen, m)) == if m.Update? then 1 else 0
  {
    hide ScreenThen;
    CountShort(Answer(env, screen, m), (n: Message) => n.UpdateRequest?);
  }

  lemma {:induction false} QuietCount(ms: seq<Said>)
    requires Quiet(ms)
    ensures Count(ms, (m: Said) => m.Update?) == 0
  {
    if ms == [] {
    } else {
      QuietCount(ms[1..]);
    }
  }

  /** What a connected server says in one go is told as what it says. */
  lemma {:induction false} SaidTalks(env: Env, screen: Screen, e: seq<Event>, o: seq<Message>, segments: seq<Segment>, ms: seq<Said>)
    requires AllSayable(env, ms) && segments != [] && Passes(segments[0].gate, o) && Joined(segments[0].chunks) == AllSaid(env, ms)
    ensures Story(env, screen, ms).Done?
    ensures var r := Story(env, screen, ms);
            Talk(env, State(Connected, [], screen), e, o, segments) == Talk(env, r.state, e + r.events, o + r.outgoing, segments[1..])
  {
    hide Run, Talk, Joined, AllSaid, Story, AllSayable, Passes;
    StoryEnds(env, screen, ms);
    AllSaidRuns(env, screen, ms);
    NotZero(Connected, AllSaid(env, ms), screen);
    var r := Story(env, screen, ms);
    OneGo(env, Connected, screen, e, o, segments, Go(segments[0].gate, AllSaid(env, ms)), r.state, r.events, r.outgoing);
  }

  lemma {:induction false} FlatSayable(env: Env, rounds: seq<Round>)
    requires RoundsOk(env, rounds)
    ensures AllSayable(env, Flat(rounds))
  {
    hide Sayable;
    if rounds == [] {
    } else {
      FlatSayable(env, rounds[1..]);
      assert RoundOk(env, rounds[0]);
    }
  }

  lemma RoundSayable(env: Env, r: Round)
    requires RoundOk(env, r)
    ensures AllSayable(env, [r.update] + r.rest) && Count([r.update] + r.rest, (m: Said) => m.Update?) == 1
  {
    hide Sayable;
    QuietCount(r.rest);
    assert ([r.update] + r.rest)[1..] == r.rest;
  }

  /** All rounds, with a request outstanding for each when its turn comes. */
  lemma {:induction false} RoundsTalk(env: Env, screen: Screen, e: seq<Event>, o: seq<Message>, segments: seq<Segment>, rounds: seq<Round>, n: nat)
    requires RoundsOk(env, rounds) && Requests(o) >= n && Cuts(RoundGoes(env, rounds, n), segments)
    ensures AllSayable(env, Flat(rounds))
    ensures Talk(env, State(Connected, [], screen), e, o, segments) == Over(e, o, Story(env, screen, Flat(rounds)))
    decreases |rounds|
  {
    hide RoundOk, AllSayable, Sayable, Story, AllSaid, Requests, Joined;
    FlatSayable(env, rounds);
    if rounds == [] {
      NoStory(env, screen);
      assert e + [] == e && o + [] == o;
    } else {
      var (ms, more) := ([rounds[0].update] + rounds[0].rest, Flat(rounds[1..]));
      var goes := RoundGoes(env, rounds, n);
      RoundSayable(env, rounds[0]);
      FlatSayable(env, rounds[1..]);
      assert segments[0].gate == goes[0].gate && Joined(segments[0].chunks) == goes[0].bytes;
      SaidTalks(env, screen, e, o, segments, ms);
      var r := Story(env, screen, ms);
      StoryRequests(env, screen, ms);
      StoryConcat(env, screen, ms, more);
      RequestsConcat(o, r.outgoing);
      RestCut(goes, segments);
      RoundsTalk(env, r.state.screen, e + r.events, o + r.outgoing, segments[1..], rounds[1..], n + 1);
      OverBefore(e, o, r.events, r.outgoing, Story(env, r.state.screen, more));
      assert Flat(rounds) == ms + more;
    }
  }

  lemma NoStory(env: Env, screen: Screen)
    ensures AllSayable(env, []) && Story(env, screen, []) == Done(State(Connected, [], screen), [], [])
  {
  }

  lemma RequestsConcat(a: seq<Message>, b: seq<Message>)
    ensures Requests(a + b) == Requests(a) + Requests(b)
  {
    CountConcat(a, b, (m: Message) => m.UpdateRequest?);
  }

  lemma RestCut(goes: seq<Go>, segments: seq<Segment>)
    requires Cuts(goes, segments) && goes != []
    ensures Cuts(goes[1..], segments[1..])
  {
    hide Joined;
  }

  lemma OverBefore(e: seq<Event>, o: seq<Message>, e': seq<Event>, o': seq<Message>, r: Result)
    ensures Over(e, o, Rfb.Before(e', o', r)) == Over(e + e', o + o', r)
  {
    if r.Done? {
      assert e + (e' + r.events) == e + e' + r.events && o + (o' + r.outgoing) == o + o' + r.outgoing;
    }
  }

  // ---- whole sessions ------------------------------------------------------------------------------------

  /** The initialisation with what is said at once behind it, and everything from there. */
  lemma {:induction false} DisplayTalks(env: Env, x: Server, first: seq<Said>, rounds: seq<Round>, e: seq<Event>, o: seq<Message>, segments: seq<Segment>)
    requires SessionOk(env, x, first, rounds) && Passes(TheInitialisation, o) && Requests(o) == 0
    requires Cuts([Go(TheInitialisation, InitBytes(x) + AllSaid(env, first))] + RoundGoes(env, rounds, 1), segments)
    ensures AllSayable(env, first + Flat(rounds))
    ensures Talk(env, State(InitStage, [], START.screen), e, o, segments)
         == Over(e + [DisplayInit(x.w, x.h, x.format, env.name(x.title))],
                 o + [SetPixelFormat, SetEncodings(env.encodings), UpdateRequest(false, x.w, x.h)],
                 Story(env, Screen(x.w, x.h, env.name(x.title)), first + Flat(rounds)))
  {
    hide Run, Legit, AllSayable, RoundsOk, Story, AllSaid, Joined, Requests, Passes, InitBytes;
    LegitParts(env, x);
    var none, screen := START.screen, Screen(x.w, x.h, env.name(x.title));
    var (e0, o0) := ([DisplayInit(x.w, x.h, x.format, env.name(x.title))], [SetPixelFormat, SetEncodings(env.encodings), UpdateRequest(false, x.w, x.h)]);
    var bytes := InitBytes(x) + AllSaid(env, first);
    var goes := [Go(TheInitialisation, bytes)] + RoundGoes(env, rounds, 1);
    InitRuns(env, x, AllSaid(env, first), none);
    AllSaidRuns(env, screen, first);
    StoryEnds(env, screen, first);
    var r := Story(env, screen, first);
    NotZero(InitStage, bytes, none);
    assert segments[0].gate == goes[0].gate && Joined(segments[0].chunks) == goes[0].bytes;
    OneGo(env, InitStage, none, e, o, segments, goes[0], r.state, e0 + r.events, o0 + r.outgoing);
    RestCut(goes, segments);
    assert goes[1..] == RoundGoes(env, rounds, 1);
    FirstRequest(env, x);
    RequestsConcat(o0, r.outgoing);
    RequestsConcat(o, o0 + r.outgoing);
    FlatSayable(env, rounds);
    StoryConcat(env, screen, first, Flat(rounds));
    RoundsTalk(env, r.state.screen, e + (e0 + r.events), o + (o0 + r.outgoing), segments[1..], rounds, 1);
    assert e + (e0 + r.events) == e + e0 + r.events && o + (o0 + r.outgoing) == o + o0 + r.outgoing;
    OverBefore(e + e0, o + o0, r.events, r.outgoing, Story(env, r.state.screen, Flat(rounds)));
  }

  lemma FirstRequest(env: Env, x: Server)
    ensures Requests([SetPixelFormat, SetEncodings(env.encodings), UpdateRequest(false, x.w, x.h)]) == 1
  {
    CountShort([SetPixelFormat, SetEncodings(env.encodings), UpdateRequest(false, x.w, x.h)], (m: Message) => m.UpdateRequest?);
  }

  /** Every server but one gets through its whole session, and the client tells and answers
      what it means. */
  lemma {:induction false} SessionTalks(env: Env, x: Server, first: seq<Said>, rounds: seq<Round>, segments: seq<Segment>)
    requires SessionOk(env, x, first, rounds) && !NoResult(x) && Cuts(SessionGoes(env, x, first, rounds), segments)
    ensures AllSayable(env, first + Flat(rounds))
    ensures Talk(env, START, [], [], segments) == Over([], [], MeantSession(env, x, first + Flat(rounds)))
  {
    hide Talk, Legit, AllSayable, RoundsOk, Story, AllSaid, Joined, Passes, InitBytes, Banner, Security, Requests;
    LegitParts(env, x);
    var head := [Go(AtOnce, Banner(x.minor))] + Security(x);
    var tail := [Go(TheInitialisation, InitBytes(x) + AllSaid(env, first))] + RoundGoes(env, rounds, 1);
    TwoParts(head, tail, segments);
    HandshakeTalks(env, x, segments);
    DisplayTalks(env, x, first, rounds, Told0(x), Said0(env, x), segments[|head|..]);
    MeantJoins(env, x);
    StoryEnds(env, Screen(x.w, x.h, env.name(x.title)), first + Flat(rounds));
    OverNothing(MeantSession(env, x, first + Flat(rounds)));
    OverBefore([], [], Opening(env, x), Replies(env, x), Story(env, Screen(x.w, x.h, env.name(x.title)), first + Flat(rounds)));
  }

  lemma TwoParts(head: seq<Go>, tail: seq<Go>, segments: seq<Segment>)
    requires Cuts(head + tail, segments)
    ensures Cuts(head, segments[..|head|]) && Cuts(tail, segments[|head|..])
  {
    hide Joined;
    forall i | 0 <= i < |head| ensures segments[i].gate == head[i].gate && Joined(segments[i].chunks) == head[i].bytes {
      assert (head + tail)[i] == head[i];
    }
    forall i | 0 <= i < |tail|
      ensures segments[|head|..][i].gate == tail[i].gate && Joined(segments[|head|..][i].chunks) == tail[i].bytes
    {
      assert (head + tail)[|head| + i] == tail[i];
    }
  }

  lemma MeantJoins(env: Env, x: Server)
    ensures [] + Opening(env, x) == Told0(x) + [DisplayInit(x.w, x.h, x.format, env.name(x.title))]
    ensures [] + Replies(env, x) == Said0(env, x) + [SetPixelFormat, SetEncodings(env.encodings), UpdateRequest(false, x.w, x.h)]
  {
  }

  lemma OverNothing(r: Result)
    requires r.Done?
    ensures Over([], [], r) == Finished(r.state, r.events, r.outgoing)
  {
  }

  /** A 3.7 server that asks for no password waits for the client's initialisation, and the
      client for a result that appendix A.2 does not have: nobody says anything more. */
  lemma {:induction false} BothWait(env: Env, x: Server, first: seq<Said>, rounds: seq<Round>, segments: seq<Segment>)
    requires SessionOk(env, x, first, rounds) && NoResult(x) && Cuts(SessionGoes(env, x, first, rounds), segments)
    ensures Talk(env, START, [], [], segments)
         == Deadlocked(State(ResultStage, [], START.screen), [ProtocolVersion(3, 7, 7)] + SecurityEvents(x), [ClientVersion(7), SelectSecurity(1)])
  {
    hide Legit, AllSayable, RoundsOk, AllSaid, Joined, InitBytes, Banner, TypeBytes, RoundGoes, Feed;
    LegitParts(env, x);
    var goes := SessionGoes(env, x, first, rounds);
    assert goes[0] == Go(AtOnce, Banner(7)) && goes[1] == Go(TheVersion, TypeBytes(Listed(x)));
    assert goes[2] == Go(TheInitialisation, InitBytes(x) + AllSaid(env, first));
    var (e, o) := ([ProtocolVersion(3, 7, 7)], [ClientVersion(7)]);
    assert segments[0].gate == goes[0].gate && Joined(segments[0].chunks) == goes[0].bytes;
    BannerTalks(env, x, segments);
    assert o[0] in o;
    assert segments[1].gate == goes[1].gate && Joined(segments[1].chunks) == goes[1].bytes;
    TypesTalk(env, x, e, o, segments[1..]);
    assert segments[1..][1..] == segments[2..];
    assert o + [SelectSecurity(1)] == [ClientVersion(7), SelectSecurity(1)];
    assert segments[2].gate == goes[2].gate;
  }

  /** For every server that keeps to RFC 6143 up to the rectangles, which are those of
      `Rectangles.Proper` and so ZRLE only in this client's own dialect; that the client can
      talk to; and whatever it says: the session is carried out as the server means it,
      however its bytes are cut, if and only if it is not a 3.7 server that asks for no
      password. */
  lemma {:induction false} SessionIff(env: Env, x: Server, first: seq<Said>, rounds: seq<Round>, segments: seq<Segment>)
    requires SessionOk(env, x, first, rounds) && Cuts(SessionGoes(env, x, first, rounds), segments)
    ensures AllSayable(env, first + Flat(rounds))
    ensures Talk(env, START, [], [], segments) == Over([], [], MeantSession(env, x, first + Flat(rounds))) <==> !NoResult(x)
  {
    hide Talk, Legit, AllSayable, RoundsOk, SessionGoes, Cuts, Story, MeantSession;
    FlatSayable(env, rounds);
    Together(env, first, Flat(rounds));
    if NoResult(x) {
      BothWait(env, x, first, rounds, segments);
    } else {
      SessionTalks(env, x, first, rounds, segments);
    }
  }

  lemma Together(env: Env, a: seq<Said>, b: seq<Said>)
    requires AllSayable(env, a) && AllSayable(env, b)
    ensures AllSayable(env, a + b)
  {
    hide Sayable;
  }
}
