/** What holds of every run of the VNC client, however many calls it takes. */
module RfbRuns {
  import opened Words
  import opened Rre
  import opened Rfb
  import opened RfbChunks

  function Count<T>(s: seq<T>, p: T -> bool): nat {
    if s == [] then 0 else (if p(s[0]) then 1 else 0) + Count(s[1..], p)
  }

  lemma {:induction false} CountConcat<T>(a: seq<T>, b: seq<T>, p: T -> bool)
    ensures Count(a + b, p) == Count(a, p) + Count(b, p)
  {
    if a == [] {
      assert a + b == b;
    } else {
      assert (a + b)[1..] == a[1..] + b;
      CountConcat(a[1..], b, p);
    }
  }

  lemma CountShort<T>(s: seq<T>, p: T -> bool)
    requires |s| <= 3
    ensures Count(s, p) == (if |s| > 0 && p(s[0]) then 1 else 0) + (if |s| > 1 && p(s[1]) then 1 else 0)
                         + (if |s| > 2 && p(s[2]) then 1 else 0)
  {
    if |s| > 1 {
      assert Count(s[1..], p) == (if p(s[1]) then 1 else 0) + Count(s[1..][1..], p);
    }
  }

  function Updates(e: seq<Event>): nat { Count(e, (x: Event) => x.FramebufferUpdate?) }

  function Inits(e: seq<Event>): nat { Count(e, (x: Event) => x.DisplayInit?) }

  function Increments(o: seq<Message>): nat { Count(o, (x: Message) => x.UpdateRequest? && x.incremental) }

  function Fulls(o: seq<Message>): nat { Count(o, (x: Message) => x.UpdateRequest? && !x.incremental) }

  function Answers(o: seq<Message>): nat { Count(o, (x: Message) => x.AuthResponse?) }

  function ClientInits(o: seq<Message>): nat { Count(o, (x: Message) => x.ClientInit?) }

  /** How far the handshake is. */
  function Rank(s: Stage): nat {
    match s
    case VersionStage => 0
    case TypesStage => 1
    case Type33Stage => 1
    case ChallengeStage => 2
    case ResultStage => 3
    case InitStage => 4
    case Connected => 5
  }

  function IfRank(from: Stage, to: Stage, rank: nat): nat {
    if Rank(from) < rank <= Rank(to) then 1 else 0
  }

  /** What a stretch of a run has delivered, given where it began and ended: one update
      request for each update and one for the display, one client initialisation when it
      reaches that stage, an answer to a challenge at most once and only past it. */
  ghost predicate Balanced(from: Stage, to: Stage, e: seq<Event>, o: seq<Message>) {
    && Rank(from) <= Rank(to)
    && Updates(e) == Increments(o) && (Updates(e) > 0 ==> to == Connected)
    && Inits(e) == Fulls(o) == IfRank(from, to, 5)
    && ClientInits(o) == IfRank(from, to, 4)
    && Answers(o) <= IfRank(from, to, 3)
  }

  lemma Nothing(s: Stage, t: Stage)
    requires Rank(s) == Rank(t)
    ensures Balanced(s, t, [], [])
  {
  }

  /** The counts of the few things one turn delivers. */
  lemma ShortCounts(e: seq<Event>, o: seq<Message>)
    requires |e| <= 2 && |o| <= 3
    ensures Updates(e) == (if |e| > 0 && e[0].FramebufferUpdate? then 1 else 0) + (if |e| > 1 && e[1].FramebufferUpdate? then 1 else 0)
    ensures Inits(e) == (if |e| > 0 && e[0].DisplayInit? then 1 else 0) + (if |e| > 1 && e[1].DisplayInit? then 1 else 0)
    ensures |o| == 0 ==> Increments(o) == Fulls(o) == Answers(o) == ClientInits(o) == 0
    ensures |o| == 1 ==> && Increments(o) == (if o[0].UpdateRequest? && o[0].incremental then 1 else 0)
                         && Fulls(o) == (if o[0].UpdateRequest? && !o[0].incremental then 1 else 0)
                         && Answers(o) == (if o[0].AuthResponse? then 1 else 0)
                         && ClientInits(o) == (if o[0].ClientInit? then 1 else 0)
    ensures |o| == 3 && o[0].SetPixelFormat? && o[1].SetEncodings? && o[2].UpdateRequest? && !o[2].incremental ==>
              Increments(o) == Answers(o) == ClientInits(o) == 0 && Fulls(o) == 1
  {
    CountShort(e, (x: Event) => x.FramebufferUpdate?);
    CountShort(e, (x: Event) => x.DisplayInit?);
    CountShort(o, (x: Message) => x.UpdateRequest? && x.incremental);
    CountShort(o, (x: Message) => x.UpdateRequest? && !x.incremental);
    CountShort(o, (x: Message) => x.AuthResponse?);
    CountShort(o, (x: Message) => x.ClientInit?);
  }

  lemma TurnBalanced(env: Env, s: State)
    requires Advance(env, s).Progress?
    ensures var t := Advance(env, s); Balanced(s.stage, t.next.stage, t.events, t.outgoing)
  {
    hide Num, ReadRects, IsBanner, Minor, Major, ClientMinor, Choose, Updates, Inits, Increments, Fulls, Answers, ClientInits;
    var t := Advance(env, s);
    ShortCounts(t.events, t.outgoing);
  }

  lemma BalancedConcat(a: Stage, b: Stage, c: Stage, e: seq<Event>, o: seq<Message>, e': seq<Event>, o': seq<Message>)
    requires Balanced(a, b, e, o) && Balanced(b, c, e', o')
    ensures Balanced(a, c, e + e', o + o')
  {
    CountConcat(e, e', (x: Event) => x.FramebufferUpdate?);
    CountConcat(e, e', (x: Event) => x.DisplayInit?);
    CountConcat(o, o', (x: Message) => x.UpdateRequest? && x.incremental);
    CountConcat(o, o', (x: Message) => x.UpdateRequest? && !x.incremental);
    CountConcat(o, o', (x: Message) => x.AuthResponse?);
    CountConcat(o, o', (x: Message) => x.ClientInit?);
  }

  lemma WaitRank(env: Env, s: State)
    requires Advance(env, s).Wait?
    ensures Rank(Advance(env, s).state.stage) == Rank(s.stage)
  {
    hide Num, ReadRects;
  }

  lemma {:induction false} RunBalanced(env: Env, s: State)
    requires Run(env, s).Done?
    ensures var r := Run(env, s); Balanced(s.stage, r.state.stage, r.events, r.outgoing)
    decreases |s.buffer|
  {
    hide Balanced, Advance;
    match Advance(env, s) {
      case Wait(w) =>
        WaitRank(env, s);
        Nothing(s.stage, w.stage);
      case Progress(next, e, o) =>
        TurnConsumes(env, s);
        TurnBalanced(env, s);
        RunBalanced(env, next);
        var r := Run(env, next);
        BalancedConcat(s.stage, next.stage, r.state.stage, e, o, r.events, r.outgoing);
    }
  }

  /** Over any number of calls that do not throw. */
  lemma {:induction false} FeedBalanced(env: Env, s: State, chunks: seq<seq<byte>>)
    requires Feed(env, s, chunks).Done?
    ensures var r := Feed(env, s, chunks); Balanced(s.stage, r.state.stage, r.events, r.outgoing)
    decreases |chunks|
  {
    hide Balanced, Run;
    if chunks == [] {
      Nothing(s.stage, s.stage);
    } else {
      RunBalanced(env, With(s, chunks[0]));
      var r := Receive(env, s, chunks[0]);
      FeedBalanced(env, r.state, chunks[1..]);
      var q := Feed(env, r.state, chunks[1..]);
      BalancedConcat(s.stage, r.state.stage, q.state.stage, r.events, r.outgoing, q.events, q.outgoing);
    }
  }

  /** Of the versions 3.3, 3.7 and 3.8 the client announces the highest that is not above the
      server's, 3.3 to a server below that, and 3.8 above version 3. */
  lemma ClientVersions(major: nat, minor: nat, v: nat)
    requires v in {3, 7, 8}
    ensures ClientMinor(major, minor) in {3, 7, 8}
    ensures major > 3 ==> ClientMinor(major, minor) == 8
    ensures major <= 3 ==> (v <= minor ==> v <= ClientMinor(major, minor)) && ClientMinor(major, minor) <= if minor < 3 then 3 else minor
  {
  }

  /** The version the client announces is that of the handshake it then follows, unless a
      server claims a major version above 3 with a minor one below 7: it is told 3.8 and
      parsed as 3.3. */
  lemma AnnouncedVersionFits(s: State)
    requires VersionTurn(s).Progress?
    ensures var t := VersionTurn(s); var (major, minor) := (Major(s.buffer[..12]), Minor(s.buffer[..12]));
            (t.next.stage == Type33Stage <==> t.outgoing == [ClientVersion(3)]) <==> (major <= 3 || minor >= 7)
  {
    hide Minor, Major;
    var t := VersionTurn(s);
    assert t.outgoing[0].ClientVersion?;
  }

  /** `RFB 004.000`: told 3.8, and its next bytes taken for a word. */
  lemma AnnouncedVersionExample()
    ensures VersionTurn(State(VersionStage, [82, 70, 66, 32, 48, 48, 52, 46, 48, 48, 48, 10], START.screen))
         == Progress(State(Type33Stage, [], START.screen), [ProtocolVersion(4, 0, 8)], [ClientVersion(8)])
  {
    var d: seq<byte> := [82, 70, 66, 32, 48, 48, 52, 46, 48, 48, 48, 10];
    assert d[..12] == d && d[12..] == [];
    assert IsBanner(d) && Major(d) == 4 && Minor(d) == 0;
  }
}
