/** What a server that follows RFC 6143 sends, stage by stage and message by message, and
    what the client makes of each. */
module RfbSession {
  import opened Options
  import opened Words
  import opened Pixels
  import opened Rre
  import opened Rfb
  import opened RfbChunks
  import opened Encodings
  import opened Rectangles

  // ---- the handshake, sections 7.1 and 7.3 and appendix A -----------------------------------

  /** What a server of version 3 decides: the types it offers (below 3.7 it settles the
      type by itself), the type that is used, and what it says of its display. */
  datatype Server = Server(minor: nat, types: seq<byte>, kind: nat, challenge: seq<byte>, w: nat, h: nat, format: seq<byte>, title: seq<byte>)

  /** The server is one the client can talk to. */
  predicate Legit(env: Env, x: Server) {
    && x.minor < 1000 && |x.challenge| == 16 && x.w < 65536 && x.h < 65536 && |x.format| == 16 && |x.title| < 0x1_0000_0000
    && if x.minor >= 7 then 0 < |x.types| < 256 && Prefers(env, x.types, x.kind) else x.kind == 1 || (x.kind == 2 && env.password.Some?)
  }

  /** The client uses password authentication when it is offered and a password is there, and
      otherwise none when that is offered. */
  predicate Prefers(env: Env, types: seq<byte>, kind: nat) {
    kind in {1, 2} && kind in types && (kind == 2 <==> 2 in types && env.password.Some?)
  }

  /** A result follows in 3.8, and before that only when a password was asked for. */
  predicate SendsResult(x: Server) {
    x.minor >= 8 || x.kind == 2
  }

  function Letter(n: nat): byte
    requires n < 208
  {
    48 + n
  }

  function Digits(n: nat): (r: seq<byte>)
    requires n < 1000
    ensures |r| == 3
  {
    [Letter(n / 100), Letter(n / 10 % 10), Letter(n % 10)]
  }

  function Banner(minor: nat): (r: seq<byte>)
    requires minor < 1000
    ensures |r| == 12
  {
    [82, 70, 66, 32] + Digits(3) + [46] + Digits(minor) + [10]
  }

  function TypeBytes(x: Server): seq<byte>
    requires |x.types| < 256
  {
    if x.minor >= 7 then [Count8(x.types)] + x.types else Be(x.kind, 4)
  }

  function Count8(s: seq<byte>): byte
    requires |s| < 256
  {
    |s|
  }

  function ChallengeBytes(x: Server): seq<byte> { if x.kind == 2 then x.challenge else [] }

  function InitBytes(x: Server): seq<byte> {
    Be(x.w, 2) + (Be(x.h, 2) + (x.format + (Be(|x.title|, 4) + x.title)))
  }

  /** A server that does not offer types lists none. */
  function Listed(x: Server): Server { if x.minor >= 7 then x else x.(types := []) }

  function SecurityEvents(x: Server): seq<Event> {
    (if x.minor >= 7 then [SecurityTypes(x.types)] else []) + [SecuritySelected(x.kind)]
  }

  function Opening(env: Env, x: Server): seq<Event> {
    [ProtocolVersion(3, x.minor, ClientMinor(3, x.minor))] + SecurityEvents(x) + (if SendsResult(x) then [SecurityResult] else [])
    + [DisplayInit(x.w, x.h, x.format, env.name(x.title))]
  }

  function Replies(env: Env, x: Server): seq<Message> {
    [ClientVersion(ClientMinor(3, x.minor))] + (if x.minor >= 7 then [SelectSecurity(x.kind)] else [])
    + (if x.kind == 2 then [AuthResponse(x.challenge)] else []) + [ClientInit(env.shared)]
    + [SetPixelFormat, SetEncodings(env.encodings), UpdateRequest(false, x.w, x.h)]
  }

  // ---- one turn after the other ------------------------------------------------------------------

  lemma Onward(env: Env, s: State, next: State, e: seq<Event>, o: seq<Message>)
    requires Advance(env, s) == Progress(next, e, o)
    ensures Run(env, s) == Rfb.Before(e, o, Run(env, next))
  {
    hide Advance;
  }

  lemma StartsFirst(a: seq<byte>, rest: seq<byte>)
    ensures Starts(a + rest, 0, a) && (a + rest)[..|a|] == a && (a + rest)[|a|..] == rest
  {
  }

  lemma BannerReads(minor: nat)
    requires minor < 1000
    ensures IsBanner(Banner(minor)) && Major(Banner(minor)) == 3 && Minor(Banner(minor)) == minor
  {
    hide Digits;
    DigitsRead(3);
    DigitsRead(minor);
    var b := Banner(minor);
    assert b[4] == Digits(3)[0] && b[5] == Digits(3)[1] && b[6] == Digits(3)[2];
    assert b[8] == Digits(minor)[0] && b[9] == Digits(minor)[1] && b[10] == Digits(minor)[2];
  }

  lemma DigitsRead(n: nat)
    requires n < 1000
    ensures var d := Digits(n); Digit(d[0]) && Digit(d[1]) && Digit(d[2]) && Number(d[0], d[1], d[2]) == n
  {
  }

  lemma VersionRuns(env: Env, minor: nat, rest: seq<byte>, screen: Screen)
    requires minor < 1000
    ensures Run(env, State(VersionStage, Banner(minor) + rest, screen))
         == Rfb.Before([ProtocolVersion(3, minor, ClientMinor(3, minor))], [ClientVersion(ClientMinor(3, minor))],
                       Run(env, State(if minor >= 7 then TypesStage else Type33Stage, rest, screen)))
  {
    hide Banner, IsBanner, Major, Minor, ClientMinor, Run;
    BannerReads(minor);
    StartsFirst(Banner(minor), rest);
    Onward(env, State(VersionStage, Banner(minor) + rest, screen), State(if minor >= 7 then TypesStage else Type33Stage, rest, screen),
           [ProtocolVersion(3, minor, ClientMinor(3, minor))], [ClientVersion(ClientMinor(3, minor))]);
  }

  function Selected(x: Server): Stage {
    if x.kind == 2 then ChallengeStage else if x.minor >= 7 then ResultStage else InitStage
  }

  function Chosen(env: Env, x: Server): seq<Message> {
    if x.minor >= 7 then [SelectSecurity(x.kind)] else if x.kind == 1 then [ClientInit(env.shared)] else []
  }

  lemma ChoiceIs(env: Env, types: seq<byte>, kind: nat)
    ensures Choose(env, types) == Some(kind) <==> Prefers(env, types, kind)
    ensures Choose(env, types) == None <==> !(1 in types) && !(2 in types && env.password.Some?)
  {
  }

  /** What becomes of the list of types: password authentication, none, or an error. */
  lemma TypesMeaning(env: Env, types: seq<byte>, rest: seq<byte>, screen: Screen)
    requires 0 < |types| < 256
    ensures var r := Run(env, State(TypesStage, [Count8(types)] + types + rest, screen));
            && (forall kind: nat {:trigger Prefers(env, types, kind)} :: Prefers(env, types, kind) ==>
                  r == Rfb.Before([SecurityTypes(types), SecuritySelected(kind)], [SelectSecurity(kind)],
                                  Run(env, State(if kind == 2 then ChallengeStage else ResultStage, rest, screen))))
            && (!(1 in types) && !(2 in types && env.password.Some?) ==> r == Thrown)
  {
    hide Choose, Prefers, Run;
    var s := State(TypesStage, [Count8(types)] + types + rest, screen);
    StartsFirst([Count8(types)] + types, rest);
    assert s.buffer[0] == |types| && s.buffer[1..1 + |types|] == types && s.buffer[1 + |types|..] == rest;
    ChoiceIs(env, types, 0);
    forall k: nat | Prefers(env, types, k)
      ensures Choose(env, types) == Some(k)
    {
      ChoiceIs(env, types, k);
    }
    if Choose(env, types) == None {
      ThrowsAtOnce(env, s);
    } else {
      var kind := Choose(env, types).value;
      Onward(env, s, State(if kind == 2 then ChallengeStage else ResultStage, rest, screen),
             [SecurityTypes(types), SecuritySelected(kind)], [SelectSecurity(kind)]);
    }
  }

  lemma ThrowsAtOnce(env: Env, s: State)
    requires Advance(env, s) == Throw
    ensures Run(env, s) == Thrown
  {
    hide Advance;
  }

  lemma TypesRun(env: Env, x: Server, rest: seq<byte>, screen: Screen)
    requires Legit(env, x)
    ensures Run(env, State(if x.minor >= 7 then TypesStage else Type33Stage, TypeBytes(Listed(x)) + rest, screen))
         == Rfb.Before(SecurityEvents(x), Chosen(env, x), Run(env, State(Selected(x), rest, screen)))
  {
    hide Run, Num, Starts, Be, Choose, Pow256;
    ChoiceIs(env, x.types, x.kind);
    var s := State(if x.minor >= 7 then TypesStage else Type33Stage, TypeBytes(Listed(x)) + rest, screen);
    var d := s.buffer;
    StartsFirst(TypeBytes(Listed(x)), rest);
    if x.minor >= 7 {
      assert d[0] == |x.types| && d[1..1 + |x.types|] == x.types;
    } else {
      PowValues();
      NumBe(d, 0, x.kind, 4);
    }
    Onward(env, s, State(Selected(x), rest, screen), SecurityEvents(x), Chosen(env, x));
  }

  lemma ChallengeRuns(env: Env, challenge: seq<byte>, rest: seq<byte>, screen: Screen)
    requires |challenge| == 16 && env.password.Some?
    ensures Run(env, State(ChallengeStage, challenge + rest, screen))
         == Rfb.Before([], [AuthResponse(challenge)], Run(env, State(ResultStage, rest, screen)))
  {
    hide Run;
    StartsFirst(challenge, rest);
    Onward(env, State(ChallengeStage, challenge + rest, screen), State(ResultStage, rest, screen), [], [AuthResponse(challenge)]);
  }

  lemma ResultRuns(env: Env, rest: seq<byte>, screen: Screen)
    ensures Run(env, State(ResultStage, Be(0, 4) + rest, screen))
         == Rfb.Before([SecurityResult], [ClientInit(env.shared)], Run(env, State(InitStage, rest, screen)))
  {
    hide Run, Num, Be, Pow256;
    PowValues();
    StartsFirst(Be(0, 4), rest);
    NumBe(Be(0, 4) + rest, 0, 0, 4);
    Onward(env, State(ResultStage, Be(0, 4) + rest, screen), State(InitStage, rest, screen), [SecurityResult], [ClientInit(env.shared)]);
  }

  /** The fields of the initialisation. */
  lemma InitReads(d: seq<byte>, x: Server)
    requires Starts(d, 0, InitBytes(x)) && x.w < 65536 && x.h < 65536 && |x.format| == 16 && |x.title| < 0x1_0000_0000
    ensures |InitBytes(x)| == 24 + |x.title| <= |d|
    ensures Num(d, 0, 2) == x.w && Num(d, 2, 2) == x.h && d[4..20] == x.format && Num(d, 20, 4) == |x.title| && d[24..24 + |x.title|] == x.title
  {
    hide Num, Be, Pow256;
    PowValues();
    var (w, h, n) := (Be(x.w, 2), Be(x.h, 2), Be(|x.title|, 4));
    StartsBoth(d, 0, w, h + (x.format + (n + x.title)));
    StartsBoth(d, 2, h, x.format + (n + x.title));
    StartsBoth(d, 4, x.format, n + x.title);
    NumBe(d, 0, x.w, 2);
    NumBe(d, 2, x.h, 2);
    LengthReads(d, 20, x.title);
  }

  lemma InitRuns(env: Env, x: Server, rest: seq<byte>, screen: Screen)
    requires x.w < 65536 && x.h < 65536 && |x.format| == 16 && |x.title| < 0x1_0000_0000
    ensures Run(env, State(InitStage, InitBytes(x) + rest, screen))
         == Rfb.Before([DisplayInit(x.w, x.h, x.format, env.name(x.title))],
                       [SetPixelFormat, SetEncodings(env.encodings), UpdateRequest(false, x.w, x.h)],
                       Run(env, State(Connected, rest, Screen(x.w, x.h, env.name(x.title)))))
  {
    hide Run, Num, InitBytes, Starts;
    StartsFirst(InitBytes(x), rest);
    InitReads(InitBytes(x) + rest, x);
    Onward(env, State(InitStage, InitBytes(x) + rest, screen), State(Connected, rest, Screen(x.w, x.h, env.name(x.title))),
           [DisplayInit(x.w, x.h, x.format, env.name(x.title))], [SetPixelFormat, SetEncodings(env.encodings), UpdateRequest(false, x.w, x.h)]);
  }

  /** The one handshake of RFC 6143 in which the client waits for a result that is not sent. */
  predicate NoResult(x: Server) { x.minor == 7 && x.kind == 1 }

  lemma LegitParts(env: Env, x: Server)
    requires Legit(env, x)
    ensures x.minor < 1000 && |x.challenge| == 16 && x.w < 65536 && x.h < 65536 && |x.format| == 16 && |x.title| < 0x1_0000_0000
    ensures |Listed(x).types| < 256 && (x.kind == 1 || (x.kind == 2 && env.password.Some?))
  {
  }

  // ---- messages of a connected server, sections 7.6.1, 7.6.3 and 7.6.4 ------------------------------

  datatype Said = Update(pad: byte, rects: seq<Sending>, count: nat) | Ring | CutText(padding: seq<byte>, text: seq<byte>)

  ghost predicate Sayable(env: Env, m: Said) {
    match m
    case Update(_, rects, count) => |rects| <= count < 65536 && AllFine(env, rects)
    case Ring => true
    case CutText(padding, text) => |padding| == 3 && |text| < 0x1_0000_0000
  }

  ghost function SaidBytes(env: Env, m: Said): (r: seq<byte>)
    requires Sayable(env, m)
  {
    match m
    case Update(pad, rects, count) => [0, pad] + (Be(count, 2) + (AllBytes(env, rects) + EndBytes(|rects| < count)))
    case Ring => [2]
    case CutText(padding, text) => ([3] + padding) + (Be(|text|, 4) + text)
  }

  function ScreenThen(env: Env, screen: Screen, m: Said): Screen {
    if m.Update? then ScreenAfter(env, screen, m.rects) else screen
  }

  ghost function Told(env: Env, screen: Screen, m: Said): Event
    requires Sayable(env, m)
  {
    match m
    case Update(_, rects, _) => FramebufferUpdate(ScreenAfter(env, screen, rects).w, ScreenAfter(env, screen, rects).h, AllShown(env, rects))
    case Ring => Bell
    case CutText(_, text) => Clipboard(env.text(text))
  }

  /** After each update the client asks for the next. */
  function Answer(env: Env, screen: Screen, m: Said): seq<Message> {
    var after := ScreenThen(env, screen, m);
    if m.Update? then [UpdateRequest(true, after.w, after.h)] else []
  }

  lemma UpdateRuns(env: Env, m: Said, rest: seq<byte>, screen: Screen)
    requires Sayable(env, m) && m.Update?
    ensures Advance(env, State(Connected, SaidBytes(env, m) + rest, screen))
         == Progress(State(Connected, rest, ScreenThen(env, screen, m)), [Told(env, screen, m)], Answer(env, screen, m))
  {
    hide AllFine, AllBytes, AllShown, ScreenAfter, ReadRects, Num, Be, Pow256, Starts, EndBytes;
    var d := SaidBytes(env, m) + rest;
    var body := AllBytes(env, m.rects) + EndBytes(|m.rects| < m.count);
    PowValues();
    StartsFirst(SaidBytes(env, m), rest);
    StartsInside(d, 0, SaidBytes(env, m));
    StartsBoth(d, 0, [0, m.pad], Be(m.count, 2) + body);
    StartsBoth(d, 2, Be(m.count, 2), body);
    NumBe(d, 2, m.count, 2);
    RectsRead(env, d, 4, m.rects, m.count, screen, []);
    assert [] + AllShown(env, m.rects) == AllShown(env, m.rects);
  }

  lemma CutTextRuns(env: Env, m: Said, rest: seq<byte>, screen: Screen)
    requires Sayable(env, m) && m.CutText?
    ensures Advance(env, State(Connected, SaidBytes(env, m) + rest, screen)) == Progress(State(Connected, rest, screen), [Told(env, screen, m)], [])
  {
    hide ReadRects, Num, Be, Starts;
    var d := SaidBytes(env, m) + rest;
    StartsFirst(SaidBytes(env, m), rest);
    StartsBoth(d, 0, [3] + m.padding, Be(|m.text|, 4) + m.text);
    LengthReads(d, 4, m.text);
  }

  /** One message is one turn, and tells what was said. */
  lemma SaidRuns(env: Env, m: Said, rest: seq<byte>, screen: Screen)
    requires Sayable(env, m)
    ensures Run(env, State(Connected, SaidBytes(env, m) + rest, screen))
         == Rfb.Before([Told(env, screen, m)], Answer(env, screen, m), Run(env, State(Connected, rest, ScreenThen(env, screen, m))))
  {
    hide Run, Advance, Told;
    match m {
      case Update(_, _, _) => UpdateRuns(env, m, rest, screen);
      case Ring => RingRuns(env, rest, screen);
      case CutText(_, _) => CutTextRuns(env, m, rest, screen);
    }
    Onward(env, State(Connected, SaidBytes(env, m) + rest, screen), State(Connected, rest, ScreenThen(env, screen, m)),
           [Told(env, screen, m)], Answer(env, screen, m));
  }

  lemma RingRuns(env: Env, rest: seq<byte>, screen: Screen)
    ensures Advance(env, State(Connected, SaidBytes(env, Ring) + rest, screen)) == Progress(State(Connected, rest, screen), [Told(env, screen, Ring)], [])
  {
    hide ReadRects;
    StartsFirst([2], rest);
  }

  ghost predicate AllSayable(env: Env, ms: seq<Said>) { forall i :: 0 <= i < |ms| ==> Sayable(env, ms[i]) }

  ghost function AllSaid(env: Env, ms: seq<Said>): seq<byte>
    requires AllSayable(env, ms)
  {
    if ms == [] then [] else SaidBytes(env, ms[0]) + AllSaid(env, ms[1..])
  }

  /** Everything the client delivers for these messages. */
  ghost function Story(env: Env, screen: Screen, ms: seq<Said>): Result
    requires AllSayable(env, ms)
    decreases |ms|
  {
    if ms == [] then Done(State(Connected, [], screen), [], [])
    else Rfb.Before([Told(env, screen, ms[0])], Answer(env, screen, ms[0]), Story(env, ScreenThen(env, screen, ms[0]), ms[1..]))
  }

  lemma {:induction false} AllSaidRuns(env: Env, screen: Screen, ms: seq<Said>)
    requires AllSayable(env, ms)
    ensures Run(env, State(Connected, AllSaid(env, ms), screen)) == Story(env, screen, ms)
    decreases |ms|
  {
    hide Sayable, SaidBytes, Told, Answer, ScreenThen, Run, Advance;
    if ms == [] {
      NothingRuns(env, screen);
    } else {
      SaidRuns(env, ms[0], AllSaid(env, ms[1..]), screen);
      AllSaidRuns(env, ScreenThen(env, screen, ms[0]), ms[1..]);
    }
  }

  lemma NothingRuns(env: Env, screen: Screen)
    ensures Run(env, State(Connected, [], screen)) == Done(State(Connected, [], screen), [], [])
  {
  }

  // ---- whole sessions ---------------------------------------------------------------------------------

  /** The session as the server means it. */
  ghost function MeantSession(env: Env, x: Server, ms: seq<Said>): Result
    requires Legit(env, x) && AllSayable(env, ms)
  {
    Rfb.Before(Opening(env, x), Replies(env, x), Story(env, Screen(x.w, x.h, env.name(x.title)), ms))
  }

  lemma {:induction false} StoryEnds(env: Env, screen: Screen, ms: seq<Said>)
    requires AllSayable(env, ms)
    ensures Story(env, screen, ms).Done?
    decreases |ms|
  {
    hide Sayable, Told, Answer, ScreenThen;
    if ms == [] {
    } else {
      StoryEnds(env, ScreenThen(env, screen, ms[0]), ms[1..]);
    }
  }
}
