/** The relay between a SOCKS5 client and its target: two directions at once, each copying
    what it reads in order, through short reads, short writes and errors. */
module Relay {

  type byte = x: int | 0 <= x < 256

  const CHUNK := 32768

  // ---- one direction, step by step ----------------------------------------------------------

  /** Where a direction is; what is pending has been read and not yet written. A direction
      that is over has been cut if a write has failed. */
  datatype Place = Reading | Writing(pending: seq<byte>, last: bool) | Halting(cut: bool) | Over(cut: bool)

  /** A direction with everything it has read and delivered; closed is its destination's
      write side. */
  datatype Flow = Flow(place: Place, read: seq<byte>, sent: seq<byte>, closed: bool)

  datatype Step = ReadStep(data: seq<byte>, error: bool) | WriteStep(n: nat, error: bool) | HalfClose

  /** A step of one direction, whatever Read and Write answer. */
  function FlowStep(f: Flow, s: Step): (r: Flow)
  {
    match (f.place, s)
    case (Reading, ReadStep(data, error)) =>
      var place := if data != [] then Writing(data, error) else if error then Halting(false) else Reading;
      f.(place := place, read := f.read + data)
    case (Writing(p, last), WriteStep(n, error)) =>
      if n > |p| then f
      else
        var rest := p[n..];
        var place := if error || (n == 0 && p != []) then Halting(true)
                     else if rest != [] then Writing(rest, last) else if last then Halting(false) else Reading;
        f.(place := place, sent := f.sent + p[..n])
    case (Halting(cut), HalfClose) => f.(place := Over(cut), closed := true)
    case _ => f
  }

  const IDLE := Flow(Reading, [], [], false)

  ghost predicate FlowOk(f: Flow) {
    && f.sent <= f.read
    && (f.closed <==> f.place.Over?)
    && (f.place.Reading? ==> f.sent == f.read)
    && (f.place.Writing? ==> f.sent + f.place.pending == f.read && f.place.pending != [])
    && (f.place == Halting(false) || f.place == Over(false) ==> f.sent == f.read)
  }

  lemma FlowKept(f: Flow, s: Step)
    requires FlowOk(f)
    ensures FlowOk(FlowStep(f, s))
    ensures f.read <= FlowStep(f, s).read && f.sent <= FlowStep(f, s).sent
  {
    match (f.place, s)
    case (Writing(p, last), WriteStep(n, error)) =>
      if n <= |p| {
        assert p == p[..n] + p[n..];
        assert f.sent + p[..n] + p[n..] == f.read;
      }
    case _ =>
  }

  // ---- one direction, with what its two ends answer ------------------------------------------

  /** One answer of Read: some bytes, and whether an error comes with them; the end of the
      stream is an error too. */
  datatype ReadAnswer = Got(data: seq<byte>, error: bool)

  /** One answer of Write: how much of the data it has taken, and whether it fails. */
  datatype WriteAnswer = Took(n: nat, error: bool)

  function Clip(data: seq<byte>): (r: seq<byte>)
    ensures |r| == (if |data| < 32768 then |data| else 32768) && r <= data
  {
    if |data| <= CHUNK then data else data[..CHUNK]
  }

  /** What Read answers; when nothing is left of the script, it fails. */
  function Reads(script: seq<ReadAnswer>): Step {
    if script == [] then ReadStep([], true) else ReadStep(Clip(script[0].data), script[0].error)
  }

  /** What Write answers for n bytes. */
  function Writes(script: seq<WriteAnswer>, n: nat): Step {
    if script == [] then WriteStep(0, true) else WriteStep(if script[0].n <= n then script[0].n else n, script[0].error)
  }

  function Behind<T>(script: seq<T>): seq<T> { if script == [] then [] else script[1..] }

  /** A direction with what its ends are still going to answer. */
  datatype Scripted = Scripted(flow: Flow, toRead: seq<ReadAnswer>, toWrite: seq<WriteAnswer>)

  /** The next step, as long as the relay is not over. */
  function Coming(x: Scripted): Step {
    match x.flow.place
    case Reading => Reads(x.toRead)
    case Writing(p, _) => Writes(x.toWrite, |p|)
    case _ => HalfClose
  }

  function Advance(x: Scripted): Scripted {
    var f := FlowStep(x.flow, Coming(x));
    match x.flow.place
    case Reading => Scripted(f, Behind(x.toRead), x.toWrite)
    case Writing(_, _) => Scripted(f, x.toRead, Behind(x.toWrite))
    case _ => x.(flow := f)
  }

  predicate Running(f: Flow) { f.place.Reading? || f.place.Writing? }

  function Rank(f: Flow): nat { if f.place.Reading? then 1 else if f.place.Writing? then 2 + |f.place.pending| else 0 }

  /** The steps of the relay until it is over, each with the answer that comes next. */
  function Steps(x: Scripted): seq<Step>
    decreases |x.toRead|, Rank(x.flow)
  {
    if Running(x.flow) then [Coming(x)] + Steps(Advance(x)) else []
  }

  /** Where they lead. */
  function Outcome(x: Scripted): Scripted
    decreases |x.toRead|, Rank(x.flow)
  {
    if Running(x.flow) then Outcome(Advance(x)) else x
  }

  function Play(f: Flow, steps: seq<Step>): Flow
    decreases |steps|
  {
    if steps == [] then f else Play(FlowStep(f, steps[0]), steps[1..])
  }

  /** A write that fails or takes nothing. */
  predicate Fails(s: Step) { s.WriteStep? && (s.error || s.n == 0) }

  /** A read that is the last of its stream. */
  predicate Ends(s: Step) { s.ReadStep? && s.error }

  /** What the relay does by itself: its steps are a run of the machine; it is cut if and
      only if its last write has failed, no earlier one has, and it goes on until then or
      until a read has ended its stream; and without a cut everything read is delivered. */
  lemma {:induction false} RelayMeaning(x: Scripted)
    requires FlowOk(x.flow) && Running(x.flow)
    ensures var (steps, y) := (Steps(x), Outcome(x));
            && steps != [] && Play(x.flow, steps) == y.flow && FlowOk(y.flow) && y.flow.place.Halting?
            && x.flow.read <= y.flow.read && x.flow.sent <= y.flow.sent
            && (forall i :: 0 <= i < |steps| - 1 ==> !Fails(steps[i]))
            && (y.flow.place.cut <==> Fails(steps[|steps| - 1]))
            && (!y.flow.place.cut ==>
                  && y.flow.sent == y.flow.read
                  && ((x.flow.place.Writing? && x.flow.place.last) || exists i :: 0 <= i < |steps| && Ends(steps[i])))
    decreases |x.toRead|, Rank(x.flow)
  {
    hide FlowStep;
    var (c, y) := (Coming(x), Advance(x));
    var (steps, more) := (Steps(x), Steps(y));
    FlowKept(x.flow, c);
    OneStep(x);
    assert steps[1..] == more;
    Advances(x);
    if Running(y.flow) {
      RelayMeaning(y);
      LastOf(c, more);
      forall i | 0 <= i < |steps| - 1 ensures !Fails(steps[i]) {
        assert i > 0 ==> steps[i] == more[i - 1];
      }
      if i :| 0 <= i < |more| && Ends(more[i]) {
        assert steps[i + 1] == more[i];
      }
      assert steps[0] == c;
    } else {
      assert steps == [c];
      assert Play(x.flow, steps) == Play(y.flow, []);
      assert steps[0] == c;
    }
  }

  lemma Advances(x: Scripted)
    requires Running(x.flow)
    ensures |Advance(x).toRead| < |x.toRead| || (Advance(x).toRead == x.toRead && Rank(Advance(x).flow) < Rank(x.flow))
  {
  }

  lemma LastOf(c: Step, more: seq<Step>)
    requires more != []
    ensures ([c] + more)[|[c] + more| - 1] == more[|more| - 1]
  {
  }

  /** One step of a relay that is under way. */
  lemma OneStep(x: Scripted)
    requires FlowOk(x.flow) && Running(x.flow)
    ensures var (c, f) := (Coming(x), Advance(x).flow);
            && f == FlowStep(x.flow, c)
            && (Running(f) ==> !Fails(c))
            && (!Running(f) ==> f.place.Halting? && (f.place.cut <==> Fails(c)))
            && ((f.place.Writing? && f.place.last) || f.place == Halting(false) ==> (x.flow.place.Writing? && x.flow.place.last) || Ends(c))
  {
  }

  // ---- one direction, as the code runs it -------------------------------------------------

  /** A connection. What its peer and the network do is in the two scripts. */
  class Conn {
    var toRead: seq<ReadAnswer>
    var toWrite: seq<WriteAnswer>
    ghost var received: seq<byte>
    ghost var sent: seq<byte>
    var writeClosed: bool

    constructor (toRead: seq<ReadAnswer>, toWrite: seq<WriteAnswer>)
      ensures this.toRead == toRead && this.toWrite == toWrite && received == [] && sent == [] && !writeClosed
    {
      this.toRead, this.toWrite, received, sent, writeClosed := toRead, toWrite, [], [], false;
    }

    method Read() returns (data: seq<byte>, error: bool)
      modifies this`toRead, this`received
      ensures ReadStep(data, error) == Reads(old(toRead)) && toRead == Behind(old(toRead))
      ensures received == old(received) + data
    {
      if toRead == [] {
        data, error := [], true;
      } else {
        data, error := Clip(toRead[0].data), toRead[0].error;
        toRead := toRead[1..];
      }
      received := received + data;
    }

    method Write(data: seq<byte>) returns (n: nat, error: bool)
      modifies this`toWrite, this`sent
      ensures WriteStep(n, error) == Writes(old(toWrite), |data|) && toWrite == Behind(old(toWrite))
      ensures n <= |data| && sent == old(sent) + data[..n]
    {
      if toWrite == [] {
        n, error := 0, true;
      } else {
        n := if toWrite[0].n <= |data| then toWrite[0].n else |data|;
        error := toWrite[0].error;
        toWrite := toWrite[1..];
      }
      sent := sent + data[..n];
    }

    /** `halfCloseWrite` */
    method CloseWrite()
      modifies this`writeClosed
      ensures writeClosed
    {
      writeClosed := true;
    }
  }

  /** What `writeFull` takes of the data, whether it fails, and what is left of the script. */
  function Push(data: seq<byte>, script: seq<WriteAnswer>): (r: (nat, bool, seq<WriteAnswer>))
    ensures r.0 <= |data|
    decreases |data|
  {
    if data == [] then (0, false, script)
    else
      var s := Writes(script, |data|);
      if Fails(s) then (s.n, true, Behind(script))
      else
        var (n, error, rest) := Push(data[s.n..], Behind(script));
        (s.n + n, error, rest)
  }

  /** The same with n bytes taken before. */
  function Further(n: nat, r: (nat, bool, seq<WriteAnswer>)): (nat, bool, seq<WriteAnswer>) { (n + r.0, r.1, r.2) }

  lemma PushGoesOn(data: seq<byte>, script: seq<WriteAnswer>)
    requires data != []
    ensures var s := Writes(script, |data|);
            && s.WriteStep? && s.n <= |data|
            && Push(data, script) == if Fails(s) then (s.n, true, Behind(script)) else Further(s.n, Push(data[s.n..], Behind(script)))
  {
  }

  lemma PushNothing(script: seq<WriteAnswer>)
    ensures Push([], script) == (0, false, script)
  {
  }

  /** Its writes are the steps of the machine that is writing the data. */
  lemma {:induction false} PushIsSteps(f: Flow, toRead: seq<ReadAnswer>, script: seq<WriteAnswer>)
    requires f.place.Writing? && f.place.pending != []
    ensures var (n, error, rest) := Push(f.place.pending, script);
            Outcome(Scripted(f, toRead, script)) == Outcome(Scripted(Pushed(f, n, error), toRead, rest))
    decreases |f.place.pending|
  {
    hide Outcome, FlowStep, Writes;
    var p := f.place.pending;
    var s := Writes(script, |p|);
    var g := FlowStep(f, s);
    WriteGoes(f, toRead, script);
    if Fails(s) {
    } else if s.n == |p| {
      assert Push(p[s.n..], Behind(script)) == (0, false, Behind(script));
    } else {
      PushIsSteps(g, toRead, Behind(script));
      var (n, error, rest) := Push(p[s.n..], Behind(script));
      PushedTwice(f, s.n, n, error);
    }
  }

  lemma PushedTwice(f: Flow, m: nat, n: nat, error: bool)
    requires f.place.Writing? && m + n <= |f.place.pending|
    ensures var p := f.place.pending;
            Pushed(f.(place := Writing(p[m..], f.place.last), sent := f.sent + p[..m]), n, error) == Pushed(f, m + n, error)
  {
    var p := f.place.pending;
    assert p[..m] + p[m..][..n] == p[..m + n];
    assert f.sent + p[..m] + p[m..][..n] == f.sent + p[..m + n];
  }

  lemma WriteGoes(f: Flow, toRead: seq<ReadAnswer>, script: seq<WriteAnswer>)
    requires f.place.Writing? && f.place.pending != []
    ensures var p := f.place.pending; var s := Writes(script, |p|); var g := FlowStep(f, s);
            && s.WriteStep? && s.n <= |p|
            && Outcome(Scripted(f, toRead, script)) == Outcome(Scripted(g, toRead, Behind(script)))
            && (Fails(s) ==> g == Pushed(f, s.n, true))
            && (!Fails(s) && s.n == |p| ==> g == Pushed(f, |p|, false))
            && (!Fails(s) && s.n < |p| ==> g == f.(place := Writing(p[s.n..], f.place.last), sent := f.sent + p[..s.n]))
  {
  }

  /** The machine when its data has been dealt with. */
  function Pushed(f: Flow, n: nat, error: bool): Flow
    requires f.place.Writing? && n <= |f.place.pending|
  {
    f.(place := if error then Halting(true) else if f.place.last then Halting(false) else Reading, sent := f.sent + f.place.pending[..n])
  }

  /** `writeFull(w, data)` */
  method WriteFull(w: Conn, data: seq<byte>) returns (error: bool, ghost n: nat)
    modifies w`toWrite, w`sent
    ensures (n, error, w.toWrite) == Push(data, old(w.toWrite))
    ensures n <= |data| && w.sent == old(w.sent) + data[..n] && (!error ==> n == |data|)
  {
    hide Push, Writes, Behind;
    var rest := data;
    n := 0;
    ghost var all := Push(data, w.toWrite);
    while |rest| > 0
      invariant n <= |data| && rest == data[n..] && w.sent == old(w.sent) + data[..n]
      invariant all == Further(n, Push(rest, w.toWrite))
      decreases |rest|
    {
      PushGoesOn(rest, w.toWrite);
      var k, failed := w.Write(rest);
      assert data[..n] + rest[..k] == data[..n + k];
      n := n + k;
      if failed {
        return true, n;
      }
      if k == 0 {
        return true, n;
      }
      rest := rest[k..];
    }
    PushNothing(w.toWrite);
    error := false;
  }

  /** `relay(dst, src)`: it does what the machine does from the start with the answers of
      its two ends, until that is over. */
  method RelayOne(dst: Conn, src: Conn) returns (cut: bool, ghost read: seq<byte>, ghost delivered: seq<byte>)
    requires dst != src
    modifies dst`toWrite, dst`sent, src`toRead, src`received
    ensures src.received == old(src.received) + read && dst.sent == old(dst.sent) + delivered
    ensures Scripted(Flow(Halting(cut), read, delivered, false), src.toRead, dst.toWrite)
         == Outcome(Scripted(IDLE, old(src.toRead), old(dst.toWrite)))
  {
    hide Push, FlowOk, Outcome, Reads, Behind;
    read, delivered := [], [];
    ghost var all := Outcome(Scripted(IDLE, src.toRead, dst.toWrite));
    while true
      invariant src.received == old(src.received) + read && dst.sent == old(dst.sent) + delivered
      invariant all == Outcome(Scripted(Flow(Reading, read, delivered, false), src.toRead, dst.toWrite))
      decreases |src.toRead|
    {
      ghost var script := src.toRead;
      var data, error := src.Read();
      ReadGoes(read, delivered, script, dst.toWrite, data, error);
      read := read + data;
      if |data| > 0 {
        ghost var f := Flow(Writing(data, error), read, delivered, false);
        PushIsSteps(f, src.toRead, dst.toWrite);
        var failed;
        ghost var n;
        failed, n := WriteFull(dst, data);
        delivered := delivered + data[..n];
        assert all == Outcome(Scripted(Pushed(f, n, failed), src.toRead, dst.toWrite));
        if failed {
          Halted(true, read, delivered, src.toRead, dst.toWrite);
          return true, read, delivered;
        }
      }
      if error {
        Halted(false, read, delivered, src.toRead, dst.toWrite);
        return false, read, delivered;
      }
    }
  }

  /** What a read does to the machine. */
  lemma ReadGoes(read: seq<byte>, sent: seq<byte>, toRead: seq<ReadAnswer>, toWrite: seq<WriteAnswer>, data: seq<byte>, error: bool)
    requires ReadStep(data, error) == Reads(toRead)
    ensures var place := if data != [] then Writing(data, error) else if error then Halting(false) else Reading;
            Outcome(Scripted(Flow(Reading, read, sent, false), toRead, toWrite))
            == Outcome(Scripted(Flow(place, read + data, sent, false), Behind(toRead), toWrite))
    ensures !error ==> |Behind(toRead)| < |toRead|
  {
  }

  lemma Halted(cut: bool, read: seq<byte>, sent: seq<byte>, toRead: seq<ReadAnswer>, toWrite: seq<WriteAnswer>)
    ensures var x := Scripted(Flow(Halting(cut), read, sent, false), toRead, toWrite); Outcome(x) == x
  {
  }

  /** One goroutine of `handleSOCKS5WithDial`: the relay, and behind it the write side is
      closed. */
  method Direction(dst: Conn, src: Conn) returns (cut: bool, ghost read: seq<byte>, ghost delivered: seq<byte>)
    requires dst != src
    modifies dst`toWrite, dst`sent, dst`writeClosed, src`toRead, src`received
    ensures src.received == old(src.received) + read && dst.sent == old(dst.sent) + delivered && dst.writeClosed
    ensures var y := Outcome(Scripted(IDLE, old(src.toRead), old(dst.toWrite)));
            && Scripted(Flow(Halting(cut), read, delivered, false), src.toRead, dst.toWrite) == y
            && Flow(Over(cut), read, delivered, true) == Play(IDLE, Steps(Scripted(IDLE, old(src.toRead), old(dst.toWrite))) + [HalfClose])
    ensures delivered <= read && (!cut ==> delivered == read)
  {
    hide Outcome, Steps, Play;
    ghost var x := Scripted(IDLE, src.toRead, dst.toWrite);
    cut, read, delivered := RelayOne(dst, src);
    dst.CloseWrite();
    RelayMeaning(x);
    PlayThen(IDLE, Steps(x), HalfClose);
  }

  lemma {:induction false} PlayThen(f: Flow, steps: seq<Step>, s: Step)
    ensures Play(f, steps + [s]) == FlowStep(Play(f, steps), s)
    decreases |steps|
  {
    hide FlowStep;
    if steps == [] {
      assert [s][1..] == [] && [] + [s] == [s];
    } else {
      assert (steps + [s])[1..] == steps[1..] + [s];
      PlayThen(FlowStep(f, steps[0]), steps[1..], s);
    }
  }

  // ---- both directions at once ---------------------------------------------------------------

  datatype Sys = Sys(up: Flow, down: Flow, torn: bool)

  datatype Event = Up(step: Step) | Down(step: Step) | Tear

  /** The sockets are torn down only behind `wg.Wait()`. */
  function Next(s: Sys, e: Event): Sys {
    match e
    case Up(step) => if s.torn then s else s.(up := FlowStep(s.up, step))
    case Down(step) => if s.torn then s else s.(down := FlowStep(s.down, step))
    case Tear => if s.up.place.Over? && s.down.place.Over? then s.(torn := true) else s
  }

  function After(s: Sys, es: seq<Event>): Sys
    decreases |es|
  {
    if es == [] then s else After(Next(s, es[0]), es[1..])
  }

  function Begin(): Sys { Sys(IDLE, IDLE, false) }

  ghost predicate Ok(s: Sys) {
    FlowOk(s.up) && FlowOk(s.down) && (s.torn ==> s.up.place.Over? && s.down.place.Over?)
  }

  lemma {:induction false} Kept(s: Sys, es: seq<Event>)
    requires Ok(s)
    ensures Ok(After(s, es))
    decreases |es|
  {
    hide FlowOk, FlowStep;
    if es == [] {
    } else {
      match es[0] {
        case Up(step) => FlowKept(s.up, step);
        case Down(step) => FlowKept(s.down, step);
        case Tear =>
      }
      Kept(Next(s, es[0]), es[1..]);
    }
  }

  /** In every interleaving of the two directions, whatever the reads and writes answer: each
      delivers a prefix of what it has read; a direction that ended without a failed write
      has delivered everything before its destination's write side was closed; and the
      sockets are torn down only when both are over. */
  lemma RelayKeepsOrder(es: seq<Event>)
    ensures var s := After(Begin(), es);
            && s.up.sent <= s.up.read && s.down.sent <= s.down.read
            && (s.up.closed && s.up.place == Over(false) ==> s.up.sent == s.up.read)
            && (s.down.closed && s.down.place == Over(false) ==> s.down.sent == s.down.read)
            && (s.torn ==> s.up.closed && s.down.closed)
  {
    Kept(Begin(), es);
  }

  /** The steps of one direction in a run of both. */
  function Ups(es: seq<Event>): seq<Step> {
    if es == [] then [] else (if es[0].Up? then [es[0].step] else []) + Ups(es[1..])
  }

  function Downs(es: seq<Event>): seq<Step> {
    if es == [] then [] else (if es[0].Down? then [es[0].step] else []) + Downs(es[1..])
  }

  lemma OverStays(f: Flow, s: Step)
    requires f.place.Over?
    ensures FlowStep(f, s) == f
  {
  }

  /** Neither direction ever cuts the other: what each does is what it would do by itself,
      also behind the other's end. */
  lemma {:induction false} Independent(s: Sys, es: seq<Event>)
    requires Ok(s)
    ensures After(s, es).up == Play(s.up, Ups(es)) && After(s, es).down == Play(s.down, Downs(es))
    decreases |es|
  {
    hide FlowOk, FlowStep;
    if es == [] {
    } else {
      var (ups, downs) := (Ups(es[1..]), Downs(es[1..]));
      assert [] + ups == ups && [] + downs == downs;
      match es[0] {
        case Up(step) =>
          FlowKept(s.up, step);
          assert ([step] + ups)[1..] == ups;
          if s.torn {
            OverStays(s.up, step);
          }
        case Down(step) =>
          FlowKept(s.down, step);
          assert ([step] + downs)[1..] == downs;
          if s.torn {
            OverStays(s.down, step);
          }
        case Tear =>
      }
      Independent(Next(s, es[0]), es[1..]);
    }
  }

  /** A direction whose steps in a run of both are those that its ends answer, relay and
      half-close, ends as it does alone, wherever the other's steps fall: with everything
      read delivered before its destination's write side is closed, unless a write failed. */
  lemma DirectionAmongBoth(es: seq<Event>, toRead: seq<ReadAnswer>, toWrite: seq<WriteAnswer>)
    ensures var (s, x) := (After(Begin(), es), Scripted(IDLE, toRead, toWrite));
            && (Ups(es) == Steps(x) + [HalfClose] ==> EndsAlone(s.up, x))
            && (Downs(es) == Steps(x) + [HalfClose] ==> EndsAlone(s.down, x))
  {
    hide Steps, Outcome, Play, After, EndsAlone;
    var x := Scripted(IDLE, toRead, toWrite);
    Independent(Begin(), es);
    PlayEnds(x);
  }

  /** The direction is over as the relay by itself leaves it. */
  ghost predicate EndsAlone(f: Flow, x: Scripted) {
    var y := Outcome(x).flow;
    && y.place.Halting? && f == y.(place := Over(y.place.cut), closed := true) && (!y.place.cut ==> f.sent == f.read)
  }

  lemma PlayEnds(x: Scripted)
    requires x.flow == IDLE
    ensures EndsAlone(Play(IDLE, Steps(x) + [HalfClose]), x)
  {
    hide Steps, Outcome, Play;
    RelayMeaning(x);
    PlayThen(IDLE, Steps(x), HalfClose);
  }
}
