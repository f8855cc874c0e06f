/** `VncRemoteDisplayProtocol` without a pipeline: the object whose fields `receive`
    updates, proved against the turns of the specification. */
module RfbClient {
  import opened Options
  import opened Words
  import opened Pixels
  import opened Rre
  import opened Rfb
  import Tiles
  import Hextile
  import Zrle

  datatype Status = Waits | Goes | Throws

  /** A turn has ended the way the specification says. */
  ghost predicate Did(t: Turn, status: Status, now: State, events: seq<Event>, outgoing: seq<Message>) {
    match t
    case Wait(s) => status == Waits && now == s && events == [] && outgoing == []
    case Progress(next, e, o) => status == Goes && now == next && events == e && outgoing == o
    case Throw => status == Throws
  }

  class VncProtocol {
    const env: Env
    var stage: Stage
    var buffer: seq<byte>
    var framebufferWidth: nat
    var framebufferHeight: nat
    var serverName: string

    constructor (env: Env)
      ensures this.env == env && Value() == START
    {
      this.env := env;
      stage, buffer := VersionStage, [];
      framebufferWidth, framebufferHeight, serverName := 0, 0, "";
    }

    ghost function Value(): State
      reads this
    {
      State(stage, buffer, Screen(framebufferWidth, framebufferHeight, serverName))
    }

    /** `consume(length)` */
    method Consume(length: nat) returns (chunk: seq<byte>)
      requires length <= |buffer|
      modifies this`buffer
      ensures chunk == old(buffer[..length]) && buffer == old(buffer[length..])
    {
      chunk := buffer[..length];
      buffer := buffer[length..];
    }

    method VersionStep() returns (status: Status, events: seq<Event>, outgoing: seq<Message>)
      modifies this
      ensures Did(VersionTurn(old(Value())), status, Value(), events, outgoing)
    {
      events, outgoing := [], [];
      if |buffer| < 12 {
        return Waits, events, outgoing;
      }
      var banner := Consume(12);
      if !IsBanner(banner) {
        return Throws, events, outgoing;
      }
      var client := ClientMinor(Major(banner), Minor(banner));
      outgoing := [ClientVersion(client)];
      events := [ProtocolVersion(Major(banner), Minor(banner), client)];
      stage := if Minor(banner) >= 7 then TypesStage else Type33Stage;
      status := Goes;
    }

    method TypesStep() returns (status: Status, events: seq<Event>, outgoing: seq<Message>)
      modifies this
      ensures Did(TypesTurn(env, old(Value())), status, Value(), events, outgoing)
      ensures var d := old(buffer);
              0 < |d| && 0 < d[0] && 1 + d[0] as int <= |d| ==>
                var types := d[1..1 + d[0] as int];
                if 2 in types && env.password.Some? then status == Goes && outgoing == [SelectSecurity(2)] && stage == ChallengeStage
                else if 1 in types then status == Goes && outgoing == [SelectSecurity(1)] && stage == ResultStage
                else status == Throws
    {
      hide Num;
      events, outgoing := [], [];
      if |buffer| < 1 {
        return Waits, events, outgoing;
      }
      var count := buffer[0];
      if count == 0 {
        if |buffer| < 5 || |buffer| < 5 + Num(buffer, 1, 4) {
          return Waits, events, outgoing;
        }
        return Throws, events, outgoing;
      }
      if |buffer| < 1 + count as int {
        return Waits, events, outgoing;
      }
      ghost var d := buffer;
      var first := Consume(1);
      var types := Consume(count);
      assert types == d[1..1 + count as int] && buffer == d[1 + count as int..];
      events := [SecurityTypes(types)];
      var selected;
      if 2 in types && env.password.Some? {
        selected := 2;
      } else if 1 in types {
        selected := 1;
      } else {
        return Throws, events, outgoing;
      }
      outgoing := [SelectSecurity(selected)];
      events := events + [SecuritySelected(selected)];
      stage := if selected == 2 then ChallengeStage else ResultStage;
      status := Goes;
    }

    method Type33Step() returns (status: Status, events: seq<Event>, outgoing: seq<Message>)
      requires stage == Type33Stage
      modifies this
      ensures Did(Type33Turn(env, old(Value())), status, Value(), events, outgoing)
    {
      hide Num;
      events, outgoing := [], [];
      if |buffer| < 4 {
        return Waits, events, outgoing;
      }
      ghost var d := buffer;
      var securityType := Num(buffer, 0, 4);
      var word := Consume(4);
      if securityType == 0 {
        if |buffer| < 4 {
          return Waits, events, outgoing;
        }
        NumBehind(d, 4, 4);
        if |buffer| < 4 + Num(buffer, 0, 4) {
          return Waits, events, outgoing;
        }
        return Throws, events, outgoing;
      }
      if securityType == 2 {
        if env.password.None? {
          return Throws, events, outgoing;
        }
        stage := ChallengeStage;
        return Goes, [SecuritySelected(2)], outgoing;
      }
      if securityType != 1 {
        return Throws, events, outgoing;
      }
      stage := InitStage;
      return Goes, [SecuritySelected(1)], [ClientInit(env.shared)];
    }

    method ChallengeStep() returns (status: Status, events: seq<Event>, outgoing: seq<Message>)
      modifies this
      ensures Did(ChallengeTurn(env, old(Value())), status, Value(), events, outgoing)
    {
      events, outgoing := [], [];
      if |buffer| < 16 {
        return Waits, events, outgoing;
      }
      if env.password.None? {
        return Throws, events, outgoing;
      }
      var challenge := Consume(16);
      stage := ResultStage;
      return Goes, events, [AuthResponse(challenge)];
    }

    method ResultStep() returns (status: Status, events: seq<Event>, outgoing: seq<Message>)
      modifies this
      ensures Did(ResultTurn(env, old(Value())), status, Value(), events, outgoing)
    {
      hide Num;
      events, outgoing := [], [];
      if |buffer| < 4 {
        return Waits, events, outgoing;
      }
      var result := Num(buffer, 0, 4);
      var word := Consume(4);
      if result != 0 {
        return Throws, events, outgoing;
      }
      stage := InitStage;
      return Goes, [SecurityResult], [ClientInit(env.shared)];
    }

    method InitStep() returns (status: Status, events: seq<Event>, outgoing: seq<Message>)
      modifies this
      ensures Did(InitTurn(env, old(Value())), status, Value(), events, outgoing)
    {
      hide Num;
      events, outgoing := [], [];
      if |buffer| < 24 {
        return Waits, events, outgoing;
      }
      ghost var d := buffer;
      var nameLength := Num(buffer, 20, 4);
      if |buffer| < 24 + nameLength {
        return Waits, events, outgoing;
      }
      var fixed := Consume(24);
      NumFront(d, 24, 0, 2);
      NumFront(d, 24, 2, 2);
      framebufferWidth, framebufferHeight := Num(fixed, 0, 2), Num(fixed, 2, 2);
      var name := Consume(nameLength);
      assert name == d[24..24 + nameLength];
      assert fixed[4..20] == d[4..20];
      assert buffer == d[24 + nameLength..];
      serverName := env.name(name);
      stage := Connected;
      outgoing := [SetPixelFormat, SetEncodings(env.encodings), UpdateRequest(false, framebufferWidth, framebufferHeight)];
      events := [DisplayInit(framebufferWidth, framebufferHeight, fixed[4..20], serverName)];
      status := Goes;
    }

    /** The payload of one rectangle. */
    method RectStep(offset: nat, x: nat, y: nat, w: nat, h: nat, encoding: int) returns (r: RectRead)
      requires offset <= |buffer|
      modifies this`framebufferWidth, this`framebufferHeight, this`serverName
      ensures r == ReadPayload(env, buffer, offset, x, y, w, h, encoding)
      ensures r.Got? ==> Value() == old(Value()).(screen := Apply(old(Value()).screen, r.change))
      ensures !r.Got? ==> Value() == old(Value())
    {
      hide Num, Image, Tiles.Render, RawPixels, Rre.Parse, Hextile.Parse, Zrle.Parse, Masked;
      ghost var want := ReadPayload(env, buffer, offset, x, y, w, h, encoding);
      if encoding == 0 {
        r := ReadRaw(buffer, offset, x, y, w, h);
      } else if encoding == 2 || encoding == 4 {
        var consumed, rgba := ParseRect(buffer, offset, w, h, CLIENT, if encoding == 2 then 2 else 1);
        r := if consumed == None then Missing else Got(offset + consumed.value, [Area(x, y, w, h, rgba[..])], Keep, false);
      } else if encoding == 1 {
        if |buffer| < offset + 4 {
          return Missing;
        }
        r := Got(offset + 4, [CopyRect(x, y, w, h, Num(buffer, offset, 2), Num(buffer, offset + 2, 2))], Keep, false);
      } else if encoding == 16 {
        var consumed, skipped, rgba := Zrle.ParseZrleRect(buffer, offset, w, h, CLIENT, env.inflate);
        r := if consumed == None then Missing
             else if skipped then Got(offset + consumed.value, [], Keep, false)
             else Got(offset + consumed.value, [Area(x, y, w, h, rgba[..])], Keep, false);
      } else if encoding == 5 {
        var consumed, rgba := Hextile.ParseHextileRect(buffer, offset, w, h, CLIENT);
        r := if consumed == None then Missing else Got(offset + consumed.value, [Area(x, y, w, h, rgba[..])], Keep, false);
      } else if encoding == -224 {
        r := Got(offset, [], Keep, true);
      } else if encoding == -307 {
        if |buffer| < offset + 4 {
          return Missing;
        }
        var nameLength := Num(buffer, offset, 4);
        if |buffer| < offset + 4 + nameLength {
          return Missing;
        }
        serverName := env.name(buffer[offset + 4..offset + 4 + nameLength]);
        r := Got(offset + 4 + nameLength, [DesktopName(serverName)], Name(serverName), false);
      } else if encoding == -308 {
        if |buffer| < offset + 4 {
          return Missing;
        }
        var payloadLength := 4 + 16 * buffer[offset] as int;
        if |buffer| < offset + payloadLength {
          return Missing;
        }
        framebufferWidth, framebufferHeight := w, h;
        r := Got(offset + payloadLength, [Resize(x, y, w, h)], Size(w, h), false);
      } else if encoding == -239 {
        r := ReadCursor(buffer, offset, x, y, w, h);
      } else if encoding == -223 {
        framebufferWidth, framebufferHeight := w, h;
        r := Got(offset, [Resize(x, y, w, h)], Size(w, h), false);
      } else {
        r := Unsupported;
      }
    }

    /** A framebuffer update. What its rectangles change of the screen stays changed even
        when the update turns out not to be all there. */
    method UpdateStep() returns (status: Status, events: seq<Event>, outgoing: seq<Message>)
      modifies this
      ensures Did(UpdateTurn(env, old(Value())), status, Value(), events, outgoing)
    {
      hide Num, ReadPayload;
      events, outgoing := [], [];
      if |buffer| < 4 {
        return Waits, events, outgoing;
      }
      var numberOfRectangles := Num(buffer, 2, 2);
      var offset: nat, rects: seq<Rect>, i: nat := 4, [], 0;
      ghost var was := Value();
      while i < numberOfRectangles
        invariant offset <= |buffer| && i <= numberOfRectangles
        invariant Value() == was.(screen := Value().screen)
        invariant ReadRects(env, buffer, 4, numberOfRectangles, was.screen, [])
               == ReadRects(env, buffer, offset, numberOfRectangles - i, Value().screen, rects)
        decreases numberOfRectangles - i
      {
        if |buffer| < offset + 12 {
          return Waits, events, outgoing;
        }
        var r := RectStep(offset + 12, Num(buffer, offset, 2), Num(buffer, offset + 2, 2), Num(buffer, offset + 4, 2),
                          Num(buffer, offset + 6, 2), Signed(Num(buffer, offset + 8, 4)));
        match r {
          case Missing => return Waits, events, outgoing;
          case Unsupported => return Throws, events, outgoing;
          case Got(next, shown, change, last) =>
            offset, rects := next, rects + shown;
            i := if last then numberOfRectangles else i + 1;
        }
      }
      var message := Consume(offset);
      events := [FramebufferUpdate(framebufferWidth, framebufferHeight, rects)];
      outgoing := [UpdateRequest(true, framebufferWidth, framebufferHeight)];
      status := Goes;
    }

    method ConnectedStep() returns (status: Status, events: seq<Event>, outgoing: seq<Message>)
      requires stage == Connected
      modifies this
      ensures Did(ConnectedTurn(env, old(Value())), status, Value(), events, outgoing)
    {
      hide Num, ReadRects;
      events, outgoing := [], [];
      if |buffer| < 1 {
        return Waits, events, outgoing;
      }
      var kind := buffer[0];
      if kind == 0 {
        status, events, outgoing := UpdateStep();
      } else if kind == 2 {
        var message := Consume(1);
        return Goes, [Bell], outgoing;
      } else if kind == 3 {
        if |buffer| < 8 {
          return Waits, events, outgoing;
        }
        ghost var d := buffer;
        var length := Num(buffer, 4, 4);
        if |buffer| < 8 + length {
          return Waits, events, outgoing;
        }
        var head := Consume(8);
        var text := Consume(length);
        assert text == d[8..8 + length] && buffer == d[8 + length..];
        return Goes, [Clipboard(env.text(text))], outgoing;
      } else {
        return Throws, events, outgoing;
      }
    }

    /** `receive(chunk)`: terminates, and delivers what the specification says. */
    method Receive(chunk: seq<byte>) returns (thrown: bool, events: seq<Event>, outgoing: seq<Message>)
      modifies this
      ensures match Rfb.Receive(env, old(Value()), chunk)
              case Thrown => thrown
              case Done(s, e, o) => !thrown && Value() == s && events == e && outgoing == o
    {
      hide VersionTurn, TypesTurn, Type33Turn, ChallengeTurn, ResultTurn, InitTurn, ConnectedTurn;
      buffer := buffer + chunk;
      ghost var s := Value();
      events, outgoing := [], [];
      var progressed := true;
      while progressed
        invariant progressed ==> Run(env, s) == Rfb.Before(events, outgoing, Run(env, Value()))
        invariant !progressed ==> Run(env, s) == Done(Value(), events, outgoing)
        decreases |buffer|, progressed
      {
        ghost var was := Value();
        var status, e, o;
        match stage {
          case VersionStage => status, e, o := VersionStep();
          case TypesStage => status, e, o := TypesStep();
          case Type33Stage => status, e, o := Type33Step();
          case ChallengeStage => status, e, o := ChallengeStep();
          case ResultStage => status, e, o := ResultStep();
          case InitStage => status, e, o := InitStep();
          case Connected => status, e, o := ConnectedStep();
        }
        assert Did(Advance(env, was), status, Value(), e, o);
        if status == Throws {
          return true, events, outgoing;
        }
        if status == Goes {
          TurnConsumes(env, was);
          BeforeBefore(events, outgoing, e, o, Run(env, Value()));
        } else {
          WaitKeeps(env, was);
        }
        assert status == Waits ==> events + e == events && outgoing + o == outgoing;
        events, outgoing := events + e, outgoing + o;
        progressed := status == Goes;
      }
      thrown := false;
    }
  }

  lemma {:induction false} NumBehind(d: seq<byte>, o: nat, n: nat)
    requires o + n <= |d|
    ensures Num(d[o..], 0, n) == Num(d, o, n)
  {
    if n == 0 {
    } else {
      NumBehind(d, o, n - 1);
    }
  }

  lemma {:induction false} NumFront(d: seq<byte>, m: nat, o: nat, n: nat)
    requires o + n <= m <= |d|
    ensures Num(d[..m], o, n) == Num(d, o, n)
  {
    NumStable(d[..m], d, o, n);
  }

  lemma BeforeBefore(e: seq<Event>, o: seq<Message>, e': seq<Event>, o': seq<Message>, r: Result)
    ensures Rfb.Before(e, o, Rfb.Before(e', o', r)) == Rfb.Before(e + e', o + o', r)
  {
    if r.Done? {
      assert e + (e' + r.events) == e + e' + r.events && o + (o' + r.outgoing) == o + o' + r.outgoing;
    }
  }

  /** Waiting never takes bytes back. */
  lemma WaitKeeps(env: Env, s: State)
    requires Advance(env, s).Wait?
    ensures |Advance(env, s).state.buffer| <= |s.buffer|
  {
    hide ReadRects, Num;
  }
}
