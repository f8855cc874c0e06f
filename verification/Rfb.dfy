/** The VNC client's side of RFB: what one turn of the loop in `receive` does, as a
    function of the parser's state and the bytes it holds. */
module Rfb {
  import opened Options
  import opened Words
  import opened Pixels
  import opened Rre
  import Tiles
  import Hextile
  import Zrle

  // ---- what the parser is given and what it delivers ----------------------------------

  /** What the viewer configures, and the decoders that are not part of this model: the
      inflater, which may throw, and the two uses of TextDecoder. */
  datatype Env = Env(password: Option<seq<nat>>, shared: bool, encodings: seq<int>,
                     inflate: seq<byte> -> Option<seq<byte>>, name: seq<byte> -> string, text: seq<byte> -> string)

  datatype Rect = Area(x: nat, y: nat, w: nat, h: nat, rgba: Surface)
                | CopyRect(x: nat, y: nat, w: nat, h: nat, srcX: nat, srcY: nat)
                | DesktopName(name: string)
                | Resize(x: nat, y: nat, w: nat, h: nat)
                | Cursor(x: nat, y: nat, w: nat, h: nat, rgba: Surface)

  datatype Event = ProtocolVersion(major: nat, minor: nat, client: nat)
                 | SecurityTypes(types: seq<byte>)
                 | SecuritySelected(kind: nat)
                 | SecurityResult
                 | DisplayInit(w: nat, h: nat, format: seq<byte>, name: string)
                 | FramebufferUpdate(w: nat, h: nat, rects: seq<Rect>)
                 | Bell
                 | Clipboard(text: string)

  datatype Message = ClientVersion(minor: nat)
                   | SelectSecurity(kind: nat)
                   | AuthResponse(challenge: seq<byte>)
                   | ClientInit(shared: bool)
                   | SetPixelFormat
                   | SetEncodings(encodings: seq<int>)
                   | UpdateRequest(incremental: bool, w: nat, h: nat)

  datatype Stage = VersionStage | TypesStage | Type33Stage | ChallengeStage | ResultStage | InitStage | Connected

  /** `framebufferWidth`, `framebufferHeight` and `serverName` */
  datatype Screen = Screen(w: nat, h: nat, name: string)

  datatype State = State(stage: Stage, buffer: seq<byte>, screen: Screen)

  /** One turn of the loop: it waits for more bytes, goes on, or throws. */
  datatype Turn = Wait(state: State) | Progress(next: State, events: seq<Event>, outgoing: seq<Message>) | Throw

  // ---- the handshake --------------------------------------------------------------------

  predicate Digit(b: byte) { 48 <= b <= 57 }

  function Number(a: byte, b: byte, c: byte): nat
    requires Digit(a) && Digit(b) && Digit(c)
  {
    100 * (a - 48) + 10 * (b - 48) + (c - 48)
  }

  /** `RFB ddd.ddd` and a line feed. */
  predicate IsBanner(d: seq<byte>) {
    && |d| == 12 && d[0] == 82 && d[1] == 70 && d[2] == 66 && d[3] == 32 && d[7] == 46 && d[11] == 10
    && Digit(d[4]) && Digit(d[5]) && Digit(d[6]) && Digit(d[8]) && Digit(d[9]) && Digit(d[10])
  }

  function Major(d: seq<byte>): nat
    requires IsBanner(d)
  {
    Number(d[4], d[5], d[6])
  }

  function Minor(d: seq<byte>): nat
    requires IsBanner(d)
  {
    Number(d[8], d[9], d[10])
  }

  /** `chooseClientVersion`: the minor version the client announces. */
  function ClientMinor(major: nat, minor: nat): nat {
    if major > 3 || minor >= 8 then 8 else if minor >= 7 then 7 else 3
  }

  function Behind(s: State, n: nat, stage: Stage): State
    requires n <= |s.buffer|
  {
    s.(buffer := s.buffer[n..], stage := stage)
  }

  function VersionTurn(s: State): Turn {
    if |s.buffer| < 12 then Wait(s)
    else
      var banner := s.buffer[..12];
      if !IsBanner(banner) then Throw
      else
        var client := ClientMinor(Major(banner), Minor(banner));
        Progress(Behind(s, 12, if Minor(banner) >= 7 then TypesStage else Type33Stage),
                 [ProtocolVersion(Major(banner), Minor(banner), client)], [ClientVersion(client)])
  }

  /** The security type chosen among those offered. */
  function Choose(env: Env, types: seq<byte>): Option<nat> {
    if 2 in types && env.password.Some? then Some(2) else if 1 in types then Some(1) else None
  }

  function TypesTurn(env: Env, s: State): Turn {
    var d := s.buffer;
    if |d| < 1 then Wait(s)
    else if d[0] == 0 then
      if |d| < 5 || |d| < 5 + Num(d, 1, 4) then Wait(s) else Throw
    else if |d| < 1 + d[0] as int then Wait(s)
    else
      var types := d[1..1 + d[0] as int];
      match Choose(env, types)
      case None => Throw
      case Some(kind) =>
        Progress(Behind(s, 1 + d[0] as int, if kind == 2 then ChallengeStage else ResultStage),
                 [SecurityTypes(types), SecuritySelected(kind)], [SelectSecurity(kind)])
  }

  /** The word of a 3.3 server. A zero is consumed before its reason has arrived, and the
      stage does not remember it. */
  function Type33Turn(env: Env, s: State): Turn {
    var d := s.buffer;
    if |d| < 4 then Wait(s)
    else
      var kind := Num(d, 0, 4);
      if kind == 0 then
        if |d| < 8 || |d| < 8 + Num(d, 4, 4) then Wait(Behind(s, 4, Type33Stage)) else Throw
      else if kind == 2 then
        if env.password.None? then Throw else Progress(Behind(s, 4, ChallengeStage), [SecuritySelected(2)], [])
      else if kind != 1 then Throw
      else Progress(Behind(s, 4, InitStage), [SecuritySelected(1)], [ClientInit(env.shared)])
  }

  function ChallengeTurn(env: Env, s: State): Turn {
    if |s.buffer| < 16 then Wait(s)
    else if env.password.None? then Throw
    else Progress(Behind(s, 16, ResultStage), [], [AuthResponse(s.buffer[..16])])
  }

  function ResultTurn(env: Env, s: State): Turn {
    if |s.buffer| < 4 then Wait(s)
    else if Num(s.buffer, 0, 4) != 0 then Throw
    else Progress(Behind(s, 4, InitStage), [SecurityResult], [ClientInit(env.shared)])
  }

  function InitTurn(env: Env, s: State): Turn {
    var d := s.buffer;
    if |d| < 24 then Wait(s)
    else
      var n := Num(d, 20, 4);
      if |d| < 24 + n then Wait(s)
      else
        var (w, h, name) := (Num(d, 0, 2), Num(d, 2, 2), env.name(d[24..24 + n]));
        Progress(Behind(s, 24 + n, Connected).(screen := Screen(w, h, name)),
                 [DisplayInit(w, h, d[4..20], name)],
                 [SetPixelFormat, SetEncodings(env.encodings), UpdateRequest(false, w, h)])
  }

  // ---- rectangles --------------------------------------------------------------------------

  /** What a rectangle changes of the screen. */
  datatype Change = Keep | Size(w: nat, h: nat) | Name(name: string)

  function Apply(screen: Screen, c: Change): Screen {
    match c
    case Keep => screen
    case Size(w, h) => screen.(w := w, h := h)
    case Name(name) => screen.(name := name)
  }

  datatype RectRead = Missing | Unsupported | Got(next: nat, shown: seq<Rect>, change: Change, last: bool)

  /** An encoding number as the signed word it is. */
  function Signed(v: nat): int {
    if v >= 0x8000_0000 then v - 0x1_0000_0000 else v
  }

  /** One bit for each pixel of a row, in whole bytes. */
  function MaskRow(w: nat): nat {
    (w + 7) / 8
  }

  function MaskAt(mask: seq<byte>, w: nat, px: nat, py: nat): bool {
    var i := py * MaskRow(w) + px / 8;
    i < |mask| && Shr(mask[i], 7 - px % 8) % 2 == 1
  }

  /** The cursor's pixels, those the mask hides transparent. */
  function Masked(pixels: seq<Rgba>, mask: seq<byte>, w: nat): (r: seq<Rgba>)
    ensures |r| == |pixels|
  {
    seq(|pixels|, i requires 0 <= i < |pixels| =>
      if w > 0 && MaskAt(mask, w, i % w, i / w) then pixels[i] else pixels[i].(a := 0))
  }

  function ReadRaw(d: seq<byte>, o: nat, x: nat, y: nat, w: nat, h: nat): (r: RectRead)
    ensures r.Got? ==> o <= r.next <= |d|
  {
    if |d| < PixelsEnd(o, w, h) then Missing
    else Got(PixelsEnd(o, w, h), [Area(x, y, w, h, PixelsAt(d, o, w, h))], Keep, false)
  }

  /** RRE for k = 2, CoRRE for k = 1. */
  function ReadRre(d: seq<byte>, o: nat, x: nat, y: nat, w: nat, h: nat, k: nat): (r: RectRead)
    ensures r.Got? ==> o <= r.next <= |d|
  {
    match Rre.Parse(d, o, CLIENT, k)
    case None => Missing
    case Some(p) => Got(o + p.consumed, [Area(x, y, w, h, Image(w, h, p))], Keep, false)
  }

  function ReadHextile(d: seq<byte>, o: nat, x: nat, y: nat, w: nat, h: nat): (r: RectRead)
    requires o <= |d|
    ensures r.Got? ==> o <= r.next <= |d|
  {
    match Hextile.Parse(d, o, w, h, CLIENT)
    case None => Missing
    case Some((tiles, q)) =>
      Hextile.ParseStable(d, d, o, w, h, CLIENT);
      Hextile.ParseMeaning(d, o, w, h, CLIENT);
      Got(q, [Area(x, y, w, h, Tiles.Render(w, h, tiles))], Keep, false)
  }

  function ReadZrle(env: Env, d: seq<byte>, o: nat, x: nat, y: nat, w: nat, h: nat): (r: RectRead)
    ensures r.Got? ==> o <= r.next <= |d|
  {
    match Zrle.Parse(d, o, w, h, CLIENT, env.inflate)
    case Incomplete => Missing
    case Skipped(n) => Got(o + n, [], Keep, false)
    case Tiled(tiles, n) =>
      Zrle.ParseMeaning(d, o, w, h, CLIENT, env.inflate);
      Got(o + n, [Area(x, y, w, h, Tiles.Render(w, h, tiles))], Keep, false)
  }

  function ReadName(env: Env, d: seq<byte>, o: nat): (r: RectRead)
    ensures r.Got? ==> o <= r.next <= |d|
  {
    if |d| < o + 4 || |d| < o + 4 + Num(d, o, 4) then Missing
    else
      var name := env.name(d[o + 4..o + 4 + Num(d, o, 4)]);
      Got(o + 4 + Num(d, o, 4), [DesktopName(name)], Name(name), false)
  }

  function ReadCursor(d: seq<byte>, o: nat, x: nat, y: nat, w: nat, h: nat): (r: RectRead)
    ensures r.Got? ==> o <= r.next <= |d|
  {
    var m := PixelsEnd(o, w, h);
    var end := m + MaskBytes(w, h);
    if |d| < end then Missing
    else Got(end, [Cursor(x, y, w, h, Masked(PixelsAt(d, o, w, h), d[m..end], w))], Keep, false)
  }

  /** Where the raw pixels of a rectangle end. */
  function PixelsEnd(o: nat, w: nat, h: nat): (m: nat)
    ensures m >= o
  {
    o + w * h * BytesPerPixel(CLIENT)
  }

  function MaskBytes(w: nat, h: nat): nat { MaskRow(w) * h }

  function PixelsAt(d: seq<byte>, o: nat, w: nat, h: nat): seq<Rgba>
    requires PixelsEnd(o, w, h) <= |d|
  {
    RawPixels(d, o, w * h, CLIENT)
  }

  /** The payload of a rectangle, from behind its header. */
  function ReadPayload(env: Env, d: seq<byte>, o: nat, x: nat, y: nat, w: nat, h: nat, encoding: int): (r: RectRead)
    requires o <= |d|
    ensures r.Got? ==> o <= r.next <= |d|
  {
    if encoding == 0 then ReadRaw(d, o, x, y, w, h)
    else if encoding == 2 then ReadRre(d, o, x, y, w, h, 2)
    else if encoding == 1 then
      if |d| < o + 4 then Missing
      else Got(o + 4, [CopyRect(x, y, w, h, Num(d, o, 2), Num(d, o + 2, 2))], Keep, false)
    else if encoding == 4 then ReadRre(d, o, x, y, w, h, 1)
    else if encoding == 16 then ReadZrle(env, d, o, x, y, w, h)
    else if encoding == 5 then ReadHextile(d, o, x, y, w, h)
    else if encoding == -224 then Got(o, [], Keep, true)
    else if encoding == -307 then ReadName(env, d, o)
    else if encoding == -308 then
      if |d| < o + 4 || |d| < o + 4 + 16 * d[o] as int then Missing
      else Got(o + 4 + 16 * d[o] as int, [Resize(x, y, w, h)], Size(w, h), false)
    else if encoding == -239 then ReadCursor(d, o, x, y, w, h)
    else if encoding == -223 then Got(o, [Resize(x, y, w, h)], Size(w, h), false)
    else Unsupported
  }

  function ReadRect(env: Env, d: seq<byte>, o: nat): (r: RectRead)
    ensures r.Got? ==> o + 12 <= r.next <= |d|
  {
    if |d| < o + 12 then Missing
    else ReadPayload(env, d, o + 12, Num(d, o, 2), Num(d, o + 2, 2), Num(d, o + 4, 2), Num(d, o + 6, 2), Signed(Num(d, o + 8, 4)))
  }

  datatype UpdateRead = Partial(screen: Screen) | BadEncoding | Whole(screen: Screen, rects: seq<Rect>, next: nat)

  /** The loop over the rectangles of an update. An incomplete update leaves what its
      rectangles have changed of the screen. */
  function ReadRects(env: Env, d: seq<byte>, o: nat, left: nat, screen: Screen, acc: seq<Rect>): (r: UpdateRead)
    requires o <= |d|
    ensures r.Whole? ==> o <= r.next <= |d|
    decreases left
  {
    if left == 0 then Whole(screen, acc, o)
    else
      match ReadRect(env, d, o)
      case Missing => Partial(screen)
      case Unsupported => BadEncoding
      case Got(next, shown, change, last) =>
        ReadRects(env, d, next, if last then 0 else left - 1, Apply(screen, change), acc + shown)
  }

  // ---- messages of a connected server ---------------------------------------------------------

  function UpdateTurn(env: Env, s: State): Turn {
    var d := s.buffer;
    if |d| < 4 then Wait(s)
    else
      match ReadRects(env, d, 4, Num(d, 2, 2), s.screen, [])
      case Partial(screen) => Wait(s.(screen := screen))
      case BadEncoding => Throw
      case Whole(screen, rects, next) =>
        Progress(s.(buffer := d[next..], screen := screen), [FramebufferUpdate(screen.w, screen.h, rects)],
                 [UpdateRequest(true, screen.w, screen.h)])
  }

  function ConnectedTurn(env: Env, s: State): Turn {
    var d := s.buffer;
    if |d| < 1 then Wait(s)
    else if d[0] == 0 then UpdateTurn(env, s)
    else if d[0] == 2 then Progress(Behind(s, 1, Connected), [Bell], [])
    else if d[0] == 3 then
      if |d| < 8 || |d| < 8 + Num(d, 4, 4) then Wait(s)
      else Progress(Behind(s, 8 + Num(d, 4, 4), Connected), [Clipboard(env.text(d[8..8 + Num(d, 4, 4)]))], [])
    else Throw
  }

  /** One turn of the loop in `receive`. */
  function Advance(env: Env, s: State): Turn {
    match s.stage
    case VersionStage => VersionTurn(s)
    case TypesStage => TypesTurn(env, s)
    case Type33Stage => Type33Turn(env, s)
    case ChallengeStage => ChallengeTurn(env, s)
    case ResultStage => ResultTurn(env, s)
    case InitStage => InitTurn(env, s)
    case Connected => ConnectedTurn(env, s)
  }

  /** Every turn that goes on consumes at least one byte. */
  lemma TurnConsumes(env: Env, s: State)
    requires Advance(env, s).Progress?
    ensures |Advance(env, s).next.buffer| < |s.buffer|
  {
    hide ReadRects, Num;
  }

  // ---- whole calls ------------------------------------------------------------------------------

  datatype Result = Done(state: State, events: seq<Event>, outgoing: seq<Message>) | Thrown

  function Before(events: seq<Event>, outgoing: seq<Message>, r: Result): Result {
    match r
    case Thrown => Thrown
    case Done(s, e, o) => Done(s, events + e, outgoing + o)
  }

  /** The loop, until it waits or throws. */
  function Run(env: Env, s: State): Result
    decreases |s.buffer|
  {
    match Advance(env, s)
    case Wait(s') => Done(s', [], [])
    case Throw => Thrown
    case Progress(next, events, outgoing) =>
      TurnConsumes(env, s);
      Before(events, outgoing, Run(env, next))
  }

  function With(s: State, chunk: seq<byte>): State {
    s.(buffer := s.buffer + chunk)
  }

  /** `receive(chunk)` */
  function Receive(env: Env, s: State, chunk: seq<byte>): Result {
    Run(env, With(s, chunk))
  }

  /** The same bytes in several calls, everything delivered put together. */
  function Feed(env: Env, s: State, chunks: seq<seq<byte>>): Result
    decreases |chunks|
  {
    if chunks == [] then Done(s, [], [])
    else
      match Receive(env, s, chunks[0])
      case Thrown => Thrown
      case Done(s', e, o) => Before(e, o, Feed(env, s', chunks[1..]))
  }

  function Joined(chunks: seq<seq<byte>>): seq<byte> {
    if chunks == [] then [] else chunks[0] + Joined(chunks[1..])
  }

  /** The state of a new client. */
  const START := State(VersionStage, [], Screen(0, 0, ""))
}
