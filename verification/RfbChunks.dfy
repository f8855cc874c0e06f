/** How the server's bytes are cut into chunks makes no difference to the VNC client, with
    one exception that is described exactly. */
module RfbChunks {
  import opened Words
  import opened Pixels
  import opened Rre
  import opened Rfb
  import Tiles
  import Hextile
  import Zrle

  // ---- rectangles with more bytes behind them --------------------------------------------

  lemma RawStable(d: seq<byte>, e: seq<byte>, o: nat, x: nat, y: nat, w: nat, h: nat)
    requires d <= e && !ReadRaw(d, o, x, y, w, h).Missing?
    ensures ReadRaw(e, o, x, y, w, h) == ReadRaw(d, o, x, y, w, h)
  {
    hide RawPixels;
    Tiles.RawStable(d, e, o, w * h, CLIENT);
  }

  lemma ZrleStable(env: Env, d: seq<byte>, e: seq<byte>, o: nat, x: nat, y: nat, w: nat, h: nat)
    requires d <= e && !ReadZrle(env, d, o, x, y, w, h).Missing?
    ensures ReadZrle(env, e, o, x, y, w, h) == ReadZrle(env, d, o, x, y, w, h)
  {
    hide Zrle.Parse, Tiles.Render;
    Zrle.ParseStable(d, e, o, w, h, CLIENT, env.inflate);
  }

  lemma HextileStable(d: seq<byte>, e: seq<byte>, o: nat, x: nat, y: nat, w: nat, h: nat)
    requires d <= e && o <= |d| && !ReadHextile(d, o, x, y, w, h).Missing?
    ensures ReadHextile(e, o, x, y, w, h) == ReadHextile(d, o, x, y, w, h)
  {
    hide Hextile.Parse, Tiles.Render;
    Hextile.ParseStable(d, e, o, w, h, CLIENT);
  }

  lemma RreStable(d: seq<byte>, e: seq<byte>, o: nat, x: nat, y: nat, w: nat, h: nat, k: nat)
    requires d <= e && !ReadRre(d, o, x, y, w, h, k).Missing?
    ensures ReadRre(e, o, x, y, w, h, k) == ReadRre(d, o, x, y, w, h, k)
  {
    hide Rre.Parse, Image;
    Rre.ParseStable(d, e, o, CLIENT, k);
  }

  lemma SliceStable(d: seq<byte>, e: seq<byte>, a: nat, b: nat)
    requires d <= e && a <= b <= |d|
    ensures d[a..b] == e[a..b]
  {
  }

  lemma CursorStable(d: seq<byte>, e: seq<byte>, o: nat, x: nat, y: nat, w: nat, h: nat)
    requires d <= e && !ReadCursor(d, o, x, y, w, h).Missing?
    ensures ReadCursor(e, o, x, y, w, h) == ReadCursor(d, o, x, y, w, h)
  {
    hide RawPixels, Masked, MaskBytes;
    var m := PixelsEnd(o, w, h);
    Tiles.RawStable(d, e, o, w * h, CLIENT);
    SliceStable(d, e, m, m + MaskBytes(w, h));
  }

  lemma NameStable(env: Env, d: seq<byte>, e: seq<byte>, o: nat)
    requires d <= e && !ReadName(env, d, o).Missing?
    ensures ReadName(env, e, o) == ReadName(env, d, o)
  {
    hide Num;
    NumStable(d, e, o, 4);
    SliceStable(d, e, o + 4, o + 4 + Num(d, o, 4));
  }

  lemma PayloadStable(env: Env, d: seq<byte>, e: seq<byte>, o: nat, x: nat, y: nat, w: nat, h: nat, encoding: int)
    requires d <= e && o <= |d| && !ReadPayload(env, d, o, x, y, w, h, encoding).Missing?
    ensures ReadPayload(env, e, o, x, y, w, h, encoding) == ReadPayload(env, d, o, x, y, w, h, encoding)
  {
    hide Num, ReadRaw, ReadRre, ReadZrle, ReadHextile, ReadName, ReadCursor;
    if encoding == 0 {
      RawStable(d, e, o, x, y, w, h);
    } else if encoding == 2 {
      RreStable(d, e, o, x, y, w, h, 2);
    } else if encoding == 1 {
      NumStable(d, e, o, 2);
      NumStable(d, e, o + 2, 2);
    } else if encoding == 4 {
      RreStable(d, e, o, x, y, w, h, 1);
    } else if encoding == 16 {
      ZrleStable(env, d, e, o, x, y, w, h);
    } else if encoding == 5 {
      HextileStable(d, e, o, x, y, w, h);
    } else if encoding == -307 {
      NameStable(env, d, e, o);
    } else if encoding == -239 {
      CursorStable(d, e, o, x, y, w, h);
    }
  }

  lemma RectStable(env: Env, d: seq<byte>, e: seq<byte>, o: nat)
    requires d <= e && !ReadRect(env, d, o).Missing?
    ensures ReadRect(env, e, o) == ReadRect(env, d, o)
  {
    hide Num, ReadPayload;
    NumStable(d, e, o, 2);
    NumStable(d, e, o + 2, 2);
    NumStable(d, e, o + 4, 2);
    NumStable(d, e, o + 6, 2);
    NumStable(d, e, o + 8, 4);
    PayloadStable(env, d, e, o + 12, Num(d, o, 2), Num(d, o + 2, 2), Num(d, o + 4, 2), Num(d, o + 6, 2), Signed(Num(d, o + 8, 4)));
  }

  /** An update that is all there, or that cannot be read, stays so. */
  lemma {:induction false} RectsStable(env: Env, d: seq<byte>, e: seq<byte>, o: nat, left: nat, screen: Screen, acc: seq<Rect>)
    requires d <= e && o <= |d| && !ReadRects(env, d, o, left, screen, acc).Partial?
    ensures ReadRects(env, e, o, left, screen, acc) == ReadRects(env, d, o, left, screen, acc)
    decreases left
  {
    hide ReadRect;
    if left == 0 {
    } else {
      RectStable(env, d, e, o);
      var r := ReadRect(env, d, o);
      if r.Got? {
        RectsStable(env, d, e, r.next, if r.last then 0 else left - 1, Apply(screen, r.change), acc + r.shown);
      }
    }
  }

  /** An incomplete update changes the size and the name either to something fixed or not
      at all, whatever they were before. */
  lemma {:induction false} PartialShape(env: Env, d: seq<byte>, o: nat, left: nat, u: Screen, v: Screen, acc: seq<Rect>)
    requires o <= |d| && ReadRects(env, d, o, left, u, acc).Partial?
    ensures ReadRects(env, d, o, left, v, acc).Partial?
    ensures var (p, q) := (ReadRects(env, d, o, left, u, acc).screen, ReadRects(env, d, o, left, v, acc).screen);
            && ((p.w, p.h) == (q.w, q.h) || ((p.w, p.h) == (u.w, u.h) && (q.w, q.h) == (v.w, v.h)))
            && (p.name == q.name || (p.name == u.name && q.name == v.name))
    decreases left
  {
    hide ReadRect;
    var r := ReadRect(env, d, o);
    if r.Got? {
      PartialShape(env, d, r.next, if r.last then 0 else left - 1, Apply(u, r.change), Apply(v, r.change), acc + r.shown);
    }
  }

  /** Reading an incomplete update again changes nothing more. */
  lemma PartialAgain(env: Env, d: seq<byte>, o: nat, left: nat, screen: Screen, acc: seq<Rect>)
    requires o <= |d| && ReadRects(env, d, o, left, screen, acc).Partial?
    ensures var p := ReadRects(env, d, o, left, screen, acc).screen;
            ReadRects(env, d, o, left, p, acc) == Partial(p)
  {
    hide ReadRects;
    PartialShape(env, d, o, left, screen, ReadRects(env, d, o, left, screen, acc).screen, acc);
  }

  /** Two screens that an incomplete update makes the same are made the same by what it
      turns out to be. */
  lemma {:induction false} SamePartial(env: Env, d: seq<byte>, e: seq<byte>, o: nat, left: nat, u: Screen, v: Screen, acc: seq<Rect>)
    requires d <= e && o <= |d| && ReadRects(env, d, o, left, u, acc).Partial?
    requires ReadRects(env, d, o, left, u, acc) == ReadRects(env, d, o, left, v, acc)
    ensures ReadRects(env, e, o, left, u, acc) == ReadRects(env, e, o, left, v, acc)
    decreases left
  {
    hide ReadRect;
    var r := ReadRect(env, d, o);
    if r.Got? {
      RectStable(env, d, e, o);
      SamePartial(env, d, e, r.next, if r.last then 0 else left - 1, Apply(u, r.change), Apply(v, r.change), acc + r.shown);
    }
  }

  // ---- turns with more bytes in the buffer --------------------------------------------------

  /** A turn that goes on or throws does the same with more bytes behind. */
  ghost predicate Grows(t: Turn, grown: Turn, more: seq<byte>) {
    match t
    case Wait(_) => true
    case Progress(next, e, o) => grown == Progress(With(next, more), e, o)
    case Throw => grown == Throw
  }

  lemma BehindGrows(s: State, n: nat, stage: Stage, more: seq<byte>)
    requires n <= |s.buffer|
    ensures Behind(With(s, more), n, stage) == With(Behind(s, n, stage), more)
  {
    assert (s.buffer + more)[n..] == s.buffer[n..] + more;
  }

  lemma VersionGrows(s: State, more: seq<byte>)
    ensures Grows(VersionTurn(s), VersionTurn(With(s, more)), more)
  {
    hide Behind, IsBanner, ClientMinor, Major, Minor;
    if |s.buffer| >= 12 {
      assert (s.buffer + more)[..12] == s.buffer[..12];
      BehindGrows(s, 12, TypesStage, more);
      BehindGrows(s, 12, Type33Stage, more);
    }
  }

  lemma TypesGrows(env: Env, s: State, more: seq<byte>)
    ensures Grows(TypesTurn(env, s), TypesTurn(env, With(s, more)), more)
  {
    hide Behind, Num, Choose;
    var d, e := s.buffer, s.buffer + more;
    if |d| >= 1 {
      assert e[0] == d[0];
      if d[0] == 0 {
        if |d| >= 5 {
          NumStable(d, e, 1, 4);
        }
      } else if |d| >= 1 + d[0] as int {
        assert e[1..1 + d[0] as int] == d[1..1 + d[0] as int];
        BehindGrows(s, 1 + d[0] as int, ChallengeStage, more);
        BehindGrows(s, 1 + d[0] as int, ResultStage, more);
      }
    }
  }

  lemma Type33Grows(env: Env, s: State, more: seq<byte>)
    ensures Grows(Type33Turn(env, s), Type33Turn(env, With(s, more)), more)
  {
    hide Behind, Num;
    var d, e := s.buffer, s.buffer + more;
    if |d| >= 4 {
      NumStable(d, e, 0, 4);
      if |d| >= 8 {
        NumStable(d, e, 4, 4);
      }
      BehindGrows(s, 4, ChallengeStage, more);
      BehindGrows(s, 4, InitStage, more);
    }
  }

  lemma AuthGrows(env: Env, s: State, more: seq<byte>)
    ensures Grows(ChallengeTurn(env, s), ChallengeTurn(env, With(s, more)), more)
    ensures Grows(ResultTurn(env, s), ResultTurn(env, With(s, more)), more)
  {
    hide Behind, Num;
    var d, e := s.buffer, s.buffer + more;
    if |d| >= 16 {
      assert e[..16] == d[..16];
      BehindGrows(s, 16, ResultStage, more);
    }
    if |d| >= 4 {
      NumStable(d, e, 0, 4);
      BehindGrows(s, 4, InitStage, more);
    }
  }

  lemma InitGrows(env: Env, s: State, more: seq<byte>)
    ensures Grows(InitTurn(env, s), InitTurn(env, With(s, more)), more)
  {
    hide Behind, Num;
    var d, e := s.buffer, s.buffer + more;
    if |d| >= 24 {
      NumStable(d, e, 20, 4);
      NumStable(d, e, 0, 2);
      NumStable(d, e, 2, 2);
      var n := Num(d, 20, 4);
      if |d| >= 24 + n {
        SliceStable(d, e, 24, 24 + n);
        SliceStable(d, e, 4, 20);
        BehindGrows(s, 24 + n, Connected, more);
      }
    }
  }

  lemma UpdateGrows(env: Env, s: State, more: seq<byte>)
    ensures Grows(UpdateTurn(env, s), UpdateTurn(env, With(s, more)), more)
  {
    hide ReadRects, Num;
    var d, e := s.buffer, s.buffer + more;
    if |d| >= 4 {
      NumStable(d, e, 2, 2);
      var r := ReadRects(env, d, 4, Num(d, 2, 2), s.screen, []);
      if !r.Partial? {
        RectsStable(env, d, e, 4, Num(d, 2, 2), s.screen, []);
        if r.Whole? {
          assert e[r.next..] == d[r.next..] + more;
        }
      }
    }
  }

  lemma ConnectedGrows(env: Env, s: State, more: seq<byte>)
    ensures Grows(ConnectedTurn(env, s), ConnectedTurn(env, With(s, more)), more)
  {
    hide Behind, Num, UpdateTurn;
    var d, e := s.buffer, s.buffer + more;
    if |d| >= 1 {
      assert e[0] == d[0];
      UpdateGrows(env, s, more);
      BehindGrows(s, 1, Connected, more);
      if |d| >= 8 {
        NumStable(d, e, 4, 4);
        var n := Num(d, 4, 4);
        if |d| >= 8 + n {
          SliceStable(d, e, 8, 8 + n);
          BehindGrows(s, 8 + n, Connected, more);
        }
      }
    }
  }

  lemma TurnGrows(env: Env, s: State, more: seq<byte>)
    ensures Grows(Advance(env, s), Advance(env, With(s, more)), more)
  {
    hide VersionTurn, TypesTurn, Type33Turn, ChallengeTurn, ResultTurn, InitTurn, ConnectedTurn, Grows;
    match s.stage
    case VersionStage => VersionGrows(s, more);
    case TypesStage => TypesGrows(env, s, more);
    case Type33Stage => Type33Grows(env, s, more);
    case ChallengeStage => AuthGrows(env, s, more);
    case ResultStage => AuthGrows(env, s, more);
    case InitStage => InitGrows(env, s, more);
    case Connected => ConnectedGrows(env, s, more);
  }

  // ---- the exception --------------------------------------------------------------------------

  /** A 3.3 server has sent the word zero with at least four bytes behind it. */
  predicate ZeroWord(s: State) {
    || (s.stage == Type33Stage && |s.buffer| >= 8 && Num(s.buffer, 0, 4) == 0)
    || (s.stage == VersionStage && |s.buffer| >= 20 && IsBanner(s.buffer[..12]) && Minor(s.buffer[..12]) < 7
        && Num(s.buffer, 12, 4) == 0)
  }

  lemma {:induction false} NumShift(d: seq<byte>, m: nat, o: nat, n: nat)
    requires m + o + n <= |d|
    ensures Num(d[m..], o, n) == Num(d, m + o, n)
  {
    if n == 0 {
    } else {
      NumShift(d, m, o, n - 1);
    }
  }

  /** The exception does not turn up later than it can be seen. */
  lemma ZeroWordBack(env: Env, s: State, more: seq<byte>)
    requires Advance(env, s).Progress? && ZeroWord(With(Advance(env, s).next, more))
    ensures ZeroWord(With(s, more))
  {
    hide Num, ReadRects, Minor, IsBanner;
    if s.stage == VersionStage {
      var e := s.buffer + more;
      assert e[12..] == s.buffer[12..] + more && e[..12] == s.buffer[..12];
      NumShift(e, 12, 0, 4);
    }
  }

  lemma SameTurn(env: Env, s: State, t: State)
    requires Advance(env, s) == Advance(env, t)
    ensures Run(env, s) == Run(env, t)
  {
    hide Advance;
    if Advance(env, s).Progress? {
      TurnConsumes(env, s);
      TurnConsumes(env, t);
    }
  }

  lemma UpdateResumes(env: Env, s: State, more: seq<byte>)
    requires s.stage == Connected && |s.buffer| >= 4 && s.buffer[0] == 0 && UpdateTurn(env, s).Wait?
    ensures var w := UpdateTurn(env, s).state;
            && Advance(env, With(w, more)) == Advance(env, With(s, more)) && Advance(env, w) == Wait(w)
  {
    hide ReadRects, Num;
    var d, e := s.buffer, s.buffer + more;
    var p := UpdateTurn(env, s).state.screen;
    NumStable(d, e, 2, 2);
    PartialAgain(env, d, 4, Num(d, 2, 2), s.screen, []);
    SamePartial(env, d, e, 4, Num(d, 2, 2), s.screen, p, []);
    assert e[0] == d[0];
  }

  /** After a wait, more bytes lead to where they would have led without it. */
  lemma WaitResumes(env: Env, s: State, more: seq<byte>)
    requires Advance(env, s).Wait? && !ZeroWord(With(s, more))
    ensures var w := Advance(env, s).state;
            && Run(env, With(w, more)) == Run(env, With(s, more)) && Advance(env, w) == Wait(w) && !ZeroWord(With(w, more))
  {
    hide Num, ReadRects, Run, Minor, IsBanner;
    var w := Advance(env, s).state;
    if w != s {
      if s.stage == Type33Stage {
        var e := s.buffer + more;
        NumStable(s.buffer, e, 0, 4);
        assert |e| < 8;
        assert e[4..] == w.buffer + more;
        assert Advance(env, With(s, more)) == Wait(With(w, more));
        assert Advance(env, With(w, more)) == Wait(With(w, more));
        SameTurn(env, With(s, more), With(w, more));
      } else {
        UpdateResumes(env, s, more);
        SameTurn(env, With(s, more), With(w, more));
      }
    }
  }

  lemma BeforeBefore(e: seq<Event>, o: seq<Message>, e': seq<Event>, o': seq<Message>, r: Result)
    ensures Rfb.Before(e, o, Rfb.Before(e', o', r)) == Rfb.Before(e + e', o + o', r)
    ensures Rfb.Before([], [], r) == r
  {
    if r.Done? {
      assert e + (e' + r.events) == e + e' + r.events && o + (o' + r.outgoing) == o + o' + r.outgoing;
      assert [] + r.events == r.events && [] + r.outgoing == r.outgoing;
    }
  }

  /** One call and then more bytes, or all of them in one call. */
  lemma {:induction false} RunSplits(env: Env, s: State, more: seq<byte>)
    requires !ZeroWord(With(s, more))
    ensures match Run(env, s)
            case Thrown => Run(env, With(s, more)) == Thrown
            case Done(w, e, o) => && Run(env, With(s, more)) == Rfb.Before(e, o, Run(env, With(w, more)))
                                  && Advance(env, w) == Wait(w) && !ZeroWord(With(w, more))
    decreases |s.buffer|
  {
    hide Advance, ZeroWord;
    TurnGrows(env, s, more);
    match Advance(env, s)
    case Throw =>
    case Wait(w) =>
      WaitResumes(env, s, more);
      BeforeBefore([], [], [], [], Run(env, With(w, more)));
    case Progress(next, e, o) =>
      TurnConsumes(env, s);
      TurnConsumes(env, With(s, more));
      if ZeroWord(With(next, more)) {
        ZeroWordBack(env, s, more);
      }
      RunSplits(env, next, more);
      var r := Run(env, next);
      if r.Done? {
        BeforeBefore(e, o, r.events, r.outgoing, Run(env, With(r.state, more)));
      }
  }

  lemma EmptyChunk(s: State)
    ensures With(s, []) == s
  {
    assert s.buffer + [] == s.buffer;
  }

  lemma WithWith(s: State, a: seq<byte>, b: seq<byte>)
    ensures With(With(s, a), b) == With(s, a + b)
  {
    assert s.buffer + a + b == s.buffer + (a + b);
  }

  /** From any state in which the parser waits: unless a 3.3 server's word is zero, the
      bytes deliver the same events, messages, final state and leftover bytes however they
      are cut, and throw if and only if they do in one piece. */
  lemma {:induction false} ChunksAgree(env: Env, s: State, chunks: seq<seq<byte>>)
    requires Advance(env, s) == Wait(s) && !ZeroWord(With(s, Joined(chunks)))
    ensures Feed(env, s, chunks) == Receive(env, s, Joined(chunks))
    decreases |chunks|
  {
    hide Advance, ZeroWord;
    if chunks == [] {
      EmptyChunk(s);
    } else {
      var rest := Joined(chunks[1..]);
      WithWith(s, chunks[0], rest);
      RunSplits(env, With(s, chunks[0]), rest);
      var r := Run(env, With(s, chunks[0]));
      if r.Done? {
        ChunksAgree(env, r.state, chunks[1..]);
      }
    }
  }

  // ---- the exception is one -----------------------------------------------------------------------

  lemma StartWaits(env: Env)
    ensures Advance(env, START) == Wait(START)
  {
  }

  /** The banner of a 3.3 server followed by the word zero, and nothing yet. */
  lemma ZeroReceived(env: Env, d: seq<byte>)
    requires |d| >= 16 && IsBanner(d[..12]) && Minor(d[..12]) < 7 && Num(d, 12, 4) == 0
    ensures var t := VersionTurn(With(START, d));
            && t.Progress? && t.next == State(Type33Stage, d[12..], START.screen)
            && Num(d[12..], 0, 4) == 0
  {
    hide Num, Minor, IsBanner;
    assert With(START, d).buffer == d;
    NumShift(d, 12, 0, 4);
  }

  lemma RunWaits(env: Env, s: State)
    requires Advance(env, s).Wait?
    ensures Run(env, s) == Done(Advance(env, s).state, [], [])
  {
    hide Advance;
  }

  /** In one piece the zero word is consumed and the rest left in the buffer. */
  lemma ZeroInOnePiece(env: Env, d: seq<byte>)
    requires ZeroWord(With(START, d)) && Receive(env, START, d) != Thrown
    ensures var t := VersionTurn(With(START, d));
            Receive(env, START, d) == Done(State(Type33Stage, d[16..], START.screen), t.events, t.outgoing)
  {
    hide Num, Minor, IsBanner, ClientMinor, Major;
    assert With(START, d).buffer == d;
    ZeroReceived(env, d);
    var s := State(Type33Stage, d[12..], START.screen);
    assert d[12..][4..] == d[16..];
    TurnConsumes(env, With(START, d));
    var t := VersionTurn(With(START, d));
    assert t.events + [] == t.events && t.outgoing + [] == t.outgoing;
    assert Receive(env, START, d) == Rfb.Before(t.events, t.outgoing, Run(env, s));
    assert Advance(env, s).Wait? || Advance(env, s).Throw?;
    if Advance(env, s).Wait? {
      RunWaits(env, s);
      assert Advance(env, s).state == State(Type33Stage, d[16..], START.screen);
    }
  }

  /** Cut behind the zero word, the next four bytes are taken for the security type. */
  lemma ZeroInTwoPieces(env: Env, d: seq<byte>)
    requires ZeroWord(With(START, d))
    ensures Feed(env, START, [d[..16], d[16..]]) != Done(State(Type33Stage, d[16..], START.screen),
                                                          VersionTurn(With(START, d)).events, VersionTurn(With(START, d)).outgoing)
  {
    hide Num, Minor, IsBanner, ClientMinor, Major;
    assert With(START, d).buffer == d;
    var a, b := d[..16], d[16..];
    assert a[..12] == d[..12];
    NumStable(a, d, 12, 4);
    ZeroInOneReceive(env, a);
    var w := State(Type33Stage, [], START.screen);
    assert With(w, b) == State(Type33Stage, b, START.screen);
    SecondPiece(env, b);
    assert [a, b][1..] == [b];
    FeedOne(env, w, b);
  }

  lemma FeedOne(env: Env, s: State, b: seq<byte>)
    ensures Feed(env, s, [b]) == Receive(env, s, b)
  {
    hide Receive;
    var r := Receive(env, s, b);
    assert [b][1..] == [];
    if r.Done? {
      assert r.events + [] == r.events && r.outgoing + [] == r.outgoing;
    }
  }

  lemma ZeroInOneReceive(env: Env, a: seq<byte>)
    requires |a| == 16 && IsBanner(a[..12]) && Minor(a[..12]) < 7 && Num(a, 12, 4) == 0
    ensures Receive(env, START, a)
         == Done(State(Type33Stage, [], START.screen), VersionTurn(With(START, a)).events, VersionTurn(With(START, a)).outgoing)
  {
    hide Num, Minor, IsBanner, ClientMinor, Major;
    assert With(START, a).buffer == a;
    ZeroReceived(env, a);
    var s := State(Type33Stage, a[12..], START.screen);
    assert a[12..][4..] == [];
    TurnConsumes(env, With(START, a));
    var t := VersionTurn(With(START, a));
    assert t.events + [] == t.events && t.outgoing + [] == t.outgoing;
    RunWaits(env, s);
  }

  /** Whatever the four bytes are, they are consumed or throw. */
  lemma SecondPiece(env: Env, b: seq<byte>)
    requires |b| >= 4
    ensures var r := Run(env, State(Type33Stage, b, START.screen));
            r.Done? ==> r.state.stage != Type33Stage || |r.state.buffer| < |b|
  {
    hide Num, Run;
    var s := State(Type33Stage, b, START.screen);
    RunEnds(env, s);
    assert Advance(env, s) == Type33Turn(env, s);
    if Advance(env, s).Wait? {
      assert Advance(env, s).state == Behind(s, 4, Type33Stage);
    }
  }

  /** A run ends with fewer bytes than it has begun with, unless it only waits. */
  lemma {:induction false} RunEnds(env: Env, s: State)
    ensures var r := Run(env, s);
            r.Done? ==> |r.state.buffer| <= |s.buffer|
                        && (Advance(env, s).Progress? ==> |r.state.buffer| < |s.buffer|)
                        && (Advance(env, s).Wait? ==> r.state == Advance(env, s).state)
                        && !Advance(env, s).Throw?
    decreases |s.buffer|
  {
    match Advance(env, s) {
      case Throw =>
      case Wait(w) => WaitShorter(env, s);
      case Progress(next, _, _) =>
        TurnConsumes(env, s);
        RunEnds(env, next);
    }
  }

  lemma WaitShorter(env: Env, s: State)
    requires Advance(env, s).Wait?
    ensures |Advance(env, s).state.buffer| <= |s.buffer|
  {
    hide Num, ReadRects;
  }

  /** For a new client and any bytes that do not throw in one piece: all ways to cut them
      agree with the whole if and only if they are not the banner of a server older than
      3.7, the word zero and at least four bytes behind it. */
  lemma ChunksAgreeIff(env: Env, d: seq<byte>)
    requires Receive(env, START, d) != Thrown
    ensures (forall chunks :: Joined(chunks) == d ==> Feed(env, START, chunks) == Receive(env, START, d))
            <==> !(|d| >= 20 && IsBanner(d[..12]) && Minor(d[..12]) < 7 && Num(d, 12, 4) == 0)
  {
    hide Num, Minor, IsBanner, Advance, Receive, Feed;
    assert With(START, d).buffer == d;
    if ZeroWord(With(START, d)) {
      ZeroInOnePiece(env, d);
      ZeroInTwoPieces(env, d);
      TwoPieces(d[..16], d[16..]);
      assert d[..16] + d[16..] == d;
      assert Joined([d[..16], d[16..]]) == d;
    } else {
      StartWaits(env);
      forall chunks | Joined(chunks) == d ensures Feed(env, START, chunks) == Receive(env, START, d) {
        ChunksAgree(env, START, chunks);
      }
    }
  }

  lemma TwoPieces(a: seq<byte>, b: seq<byte>)
    ensures Joined([a, b]) == a + b
  {
    assert [a, b][1..] == [b] && [b][1..] == [];
    assert Joined([b]) == b + Joined([]);
    assert a + (b + []) == a + b;
  }
}
