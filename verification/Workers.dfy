/** The two background workers of the Tailscale backend, the one that retries its startup
    and the one that reapplies a saved exit node, with everyone who starts and stops them. */
module Workers {
  import opened Options

  /** A worker's name stands for its context and its `done` channel. */
  type Name = nat

  type Thread = nat

  /** The retry worker: `start` first stops a recovery and waits for its end, then takes
      `tsStartMu`; between two attempts the worker sleeps. */
  datatype Retry = StopsRecovery | AwaitsRecovery(done: Option<Name>) | WantsStart | Starts | RetrySleeps | RetryLeaves

  /** The recovery worker: it sleeps, tries for `configSaveMu`, and applies the saved exit
      node while it holds it. */
  datatype Recovery = RecoverySleeps | Tries | Applies(node: string) | RecoveryLeaves

  /** Everyone else. A stopper goes through the three parts of `stopTailscaleRetry`; a
      starter calls `startTailscale` itself; a handler holds `configSaveMu`, may save
      another exit node and schedule a recovery, and may go on to stop the workers. */
  datatype Pc = Stop1 | Await1(done: Option<Name>) | Stop2 | Await2(done: Option<Name>) | Stop3 | Await3(done: Option<Name>)
              | Stopped
              | StartStops | StartAwaits(done: Option<Name>) | StartWants | StartHolds
              | Wanting | Handling

  datatype Holder = User(t: Thread) | Worker(g: Name)

  datatype Sys = Sys(
    retrying: bool, retryCancel: Option<Name>, retryDone: Option<Name>,
    exitCancel: Option<Name>, exitDone: Option<Name>,
    retry: map<Name, Retry>, recovery: map<Name, Recovery>,
    cancelled: set<Name>, closed: set<Name>, next: Name,
    threads: map<Thread, Pc>, saveMu: Option<Holder>, startMu: Option<Holder>, saved: string)

  /** How an attempt to start ends. With a route that cannot be applied the start succeeds
      all the same, and a recovery is scheduled. */
  datatype Outcome = Connected | RouteFails | NoKey | Fails

  datatype Action = ScheduleRetry | Spawn(t: Thread, pc: Pc)
                  | Go(t: Thread) | EndStart(t: Thread, outcome: Outcome)
                  | SaveNode(t: Thread, node: string) | HandlerRecovers(t: Thread) | HandlerStops(t: Thread)
                  | RetryGo(g: Name) | RetryEnds(g: Name, outcome: Outcome) | RetryWakes(g: Name) | RetryCancelled(g: Name)
                  | RecoveryWakes(g: Name) | RecoveryCancelled(g: Name) | RecoveryGo(g: Name, ok: bool)

  // ---- the critical sections under tsRetryMu and exitRetryMu, one step each -----------------

  /** `scheduleTailscaleRetry` */
  function Schedule(s: Sys): Sys {
    if s.retrying then s
    else s.(retrying := true, retryCancel := Some(s.next), retryDone := Some(s.next),
            retry := s.retry[s.next := StopsRecovery], next := s.next + 1)
  }

  /** `scheduleExitNodeRecovery` */
  function ScheduleRecovery(s: Sys): Sys {
    if s.exitDone.Some? then s
    else s.(exitCancel := Some(s.next), exitDone := Some(s.next),
            recovery := s.recovery[s.next := RecoverySleeps], next := s.next + 1)
  }

  function Cancel(s: Sys, g: Option<Name>): Sys {
    if g.Some? then s.(cancelled := s.cancelled + {g.value}) else s
  }

  /** What `stopExitNodeRecovery` does before it waits for what it found in `exitRetryDone`. */
  function CancelRecovery(s: Sys): Sys { Cancel(s, s.exitCancel) }

  /** What `stopTailscaleRetry` does under `tsRetryMu`. */
  function CancelRetry(s: Sys): Sys { Cancel(s, s.retryCancel).(retryCancel := None) }

  predicate Over(s: Sys, done: Option<Name>) { done.None? || done.value in s.closed }

  function At(s: Sys, t: Thread, pc: Pc): Sys { s.(threads := s.threads[t := pc]) }

  function RetryAt(s: Sys, g: Name, pc: Retry): Sys { s.(retry := s.retry[g := pc]) }

  function RecoveryAt(s: Sys, g: Name, pc: Recovery): Sys { s.(recovery := s.recovery[g := pc]) }

  function Without(s: Sys, t: Thread): Sys {
    s.(threads := s.threads - {t}, saveMu := if s.saveMu == Some(User(t)) then None else s.saveMu)
  }

  // ---- one step --------------------------------------------------------------------------------

  function ThreadStep(s: Sys, t: Thread): Option<Sys> {
    if t !in s.threads then None
    else
      match s.threads[t]
      case Stop1 => Some(At(CancelRecovery(s), t, Await1(s.exitDone)))
      case Await1(d) => if Over(s, d) then Some(At(s, t, Stop2)) else None
      case Stop2 => Some(At(CancelRetry(s), t, Await2(s.retryDone)))
      case Await2(d) => if Over(s, d) then Some(At(s, t, Stop3)) else None
      case Stop3 => Some(At(CancelRecovery(s), t, Await3(s.exitDone)))
      case Await3(d) => if Over(s, d) then Some(At(s, t, Stopped)) else None
      case Stopped => Some(Without(s, t))
      case StartStops => Some(At(CancelRecovery(s), t, StartAwaits(s.exitDone)))
      case StartAwaits(d) => if Over(s, d) then Some(At(s, t, StartWants)) else None
      case StartWants => if s.startMu == None then Some(At(s, t, StartHolds).(startMu := Some(User(t)))) else None
      case StartHolds => None
      case Wanting => if s.saveMu == None then Some(At(s, t, Handling).(saveMu := Some(User(t)))) else None
      case Handling => Some(Without(s, t))
  }

  function RetryStep(s: Sys, g: Name): Option<Sys> {
    if g !in s.retry then None
    else
      match s.retry[g]
      case StopsRecovery => Some(RetryAt(CancelRecovery(s), g, AwaitsRecovery(s.exitDone)))
      case AwaitsRecovery(d) => if Over(s, d) then Some(RetryAt(s, g, WantsStart)) else None
      case WantsStart => if s.startMu == None then Some(RetryAt(s, g, Starts).(startMu := Some(Worker(g)))) else None
      case RetryLeaves =>
        Some(s.(retry := s.retry - {g}, retrying := false, retryCancel := None, retryDone := None, closed := s.closed + {g}))
      case _ => None
  }

  function RecoveryStep(s: Sys, g: Name, ok: bool): Option<Sys> {
    if g !in s.recovery then None
    else
      match s.recovery[g]
      case RecoverySleeps => None
      case Tries =>
        if s.saveMu.Some? then Some(RecoveryAt(s, g, RecoverySleeps))
        else Some(RecoveryAt(s, g, Applies(s.saved)).(saveMu := Some(Worker(g))))
      case Applies(_) =>
        Some(RecoveryAt(s, g, if ok || g in s.cancelled then RecoveryLeaves else RecoverySleeps).(saveMu := None))
      case RecoveryLeaves =>
        Some(s.(recovery := s.recovery - {g}, exitCancel := None, exitDone := None, closed := s.closed + {g}))
  }

  predicate FirstPc(pc: Pc) { pc == Stop1 || pc == StartStops || pc == Wanting }

  function Step(s: Sys, a: Action): Option<Sys> {
    match a
    case ScheduleRetry => Some(Schedule(s))
    case Spawn(t, pc) => if t !in s.threads && FirstPc(pc) then Some(At(s, t, pc)) else None
    case Go(t) => ThreadStep(s, t)
    case EndStart(t, outcome) =>
      if t in s.threads && s.threads[t] == StartHolds then
        var s' := s.(threads := s.threads - {t}, startMu := None);
        Some(if outcome == RouteFails then ScheduleRecovery(s') else s')
      else None
    case SaveNode(t, node) => if t in s.threads && s.threads[t] == Handling then Some(s.(saved := node)) else None
    case HandlerRecovers(t) => if t in s.threads && s.threads[t] == Handling then Some(ScheduleRecovery(s)) else None
    case HandlerStops(t) => if t in s.threads && s.threads[t] == Handling then Some(At(s, t, Stop1)) else None
    case RetryGo(g) => RetryStep(s, g)
    case RetryEnds(g, outcome) =>
      if g in s.retry && s.retry[g] == Starts then
        var s' := RetryAt(s, g, if outcome == Fails then RetrySleeps else RetryLeaves).(startMu := None);
        Some(if outcome == RouteFails then ScheduleRecovery(s') else s')
      else None
    case RetryWakes(g) => if g in s.retry && s.retry[g] == RetrySleeps then Some(RetryAt(s, g, StopsRecovery)) else None
    case RetryCancelled(g) =>
      if g in s.retry && s.retry[g] == RetrySleeps && g in s.cancelled then Some(RetryAt(s, g, RetryLeaves)) else None
    case RecoveryWakes(g) =>
      if g in s.recovery && s.recovery[g] == RecoverySleeps then Some(RecoveryAt(s, g, Tries)) else None
    case RecoveryCancelled(g) =>
      if g in s.recovery && s.recovery[g] == RecoverySleeps && g in s.cancelled then Some(RecoveryAt(s, g, RecoveryLeaves)) else None
    case RecoveryGo(g, ok) => RecoveryStep(s, g, ok)
  }

  // ---- what always holds --------------------------------------------------------------------------

  /** The fields say exactly which workers live, and there is never more than one of each. */
  ghost predicate Fields(s: Sys) {
    && (s.retrying <==> s.retryDone.Some?)
    && s.retry.Keys == (if s.retryDone.Some? then {s.retryDone.value} else {})
    && (s.retryCancel.Some? ==> s.retryCancel == s.retryDone)
    && (s.retryDone.Some? && s.retryCancel.None? ==> s.retryDone.value in s.cancelled)
    && s.recovery.Keys == (if s.exitDone.Some? then {s.exitDone.value} else {})
    && s.exitCancel == s.exitDone
  }

  ghost predicate Names(s: Sys) {
    && (forall g :: g in s.retry ==> g < s.next && g !in s.recovery)
    && (forall g :: g in s.recovery ==> g < s.next)
    && (forall g :: g in s.closed ==> g < s.next && g !in s.retry && g !in s.recovery)
  }

  /** Whoever waits for a worker's end waits for one that has ended or that has been told to. */
  ghost predicate RecoveryEnding(s: Sys, d: Option<Name>) {
    d.Some? ==> d.value in s.closed || (d.value in s.recovery && d.value in s.cancelled)
  }

  ghost predicate RetryEnding(s: Sys, d: Option<Name>) {
    d.Some? ==> d.value in s.closed || (d.value in s.retry && d.value in s.cancelled)
  }

  ghost predicate Waits(s: Sys) {
    && (forall t :: t in s.threads ==> PcWaits(s, s.threads[t]))
    && forall g :: g in s.retry && s.retry[g].AwaitsRecovery? ==> RecoveryEnding(s, s.retry[g].done)
  }

  ghost predicate Locks(s: Sys) {
    && (match s.saveMu
        case None => true
        case Some(User(t)) => t in s.threads && CanHold(s.threads[t])
        case Some(Worker(g)) => g in s.recovery && s.recovery[g].Applies?)
    && (match s.startMu
        case None => true
        case Some(User(t)) => t in s.threads && s.threads[t] == StartHolds
        case Some(Worker(g)) => g in s.retry && s.retry[g] == Starts)
    && (forall t :: t in s.threads && s.threads[t] == StartHolds ==> s.startMu == Some(User(t)))
    && (forall t :: t in s.threads && s.threads[t] == Handling ==> s.saveMu == Some(User(t)))
    && (forall g :: g in s.retry && s.retry[g] == Starts ==> s.startMu == Some(Worker(g)))
    && (forall g :: g in s.recovery && s.recovery[g].Applies? ==> s.saveMu == Some(Worker(g)) && s.recovery[g].node == s.saved)
  }

  predicate CanHold(pc: Pc) {
    pc.Stop1? || pc.Await1? || pc.Stop2? || pc.Await2? || pc.Stop3? || pc.Await3? || pc.Stopped? || pc.Handling?
  }

  ghost predicate Inv(s: Sys) { Fields(s) && Names(s) && Waits(s) && Locks(s) }

  function Begin(saved: string): Sys {
    Sys(false, None, None, None, None, map[], map[], {}, {}, 0, map[], None, None, saved)
  }

  lemma BeginInv(saved: string)
    ensures Inv(Begin(saved))
  {
  }

  /** What nobody takes back. */
  ghost predicate Grows(s: Sys, s': Sys) {
    && s.closed <= s'.closed && s.cancelled <= s'.cancelled
    && (forall g :: g in s.recovery ==> g in s'.recovery || g in s'.closed)
    && (forall g :: g in s.retry ==> g in s'.retry || g in s'.closed)
  }

  lemma EndingStays(s: Sys, s': Sys, d: Option<Name>)
    requires Grows(s, s')
    ensures RecoveryEnding(s, d) ==> RecoveryEnding(s', d)
    ensures RetryEnding(s, d) ==> RetryEnding(s', d)
  {
  }

  ghost predicate PcWaits(s: Sys, pc: Pc) {
    match pc
    case Await1(d) => RecoveryEnding(s, d)
    case Await2(d) => RetryEnding(s, d)
    case Await3(d) => RecoveryEnding(s, d)
    case StartAwaits(d) => RecoveryEnding(s, d)
    case _ => true
  }

  /** Only what has changed has to be looked at. */
  lemma WaitsKept(s: Sys, s': Sys)
    requires Waits(s) && Grows(s, s')
    requires forall t :: t in s'.threads ==> (t in s.threads && s'.threads[t] == s.threads[t]) || PcWaits(s', s'.threads[t])
    requires forall g :: g in s'.retry && s'.retry[g].AwaitsRecovery? ==>
               (g in s.retry && s'.retry[g] == s.retry[g]) || RecoveryEnding(s', s'.retry[g].done)
    ensures Waits(s')
  {
    hide RecoveryEnding, RetryEnding, Grows;
    forall t | t in s'.threads ensures PcWaits(s', s'.threads[t]) {
      if t in s.threads && s'.threads[t] == s.threads[t] && !s.threads[t].Stop1? {
        PcStays(s, s', s.threads[t]);
      }
    }
    forall g | g in s'.retry && s'.retry[g].AwaitsRecovery? ensures RecoveryEnding(s', s'.retry[g].done) {
      EndingStays(s, s', s'.retry[g].done);
    }
  }

  lemma PcStays(s: Sys, s': Sys, pc: Pc)
    requires Grows(s, s') && PcWaits(s, pc)
    ensures PcWaits(s', pc)
  {
    hide RecoveryEnding, RetryEnding, Grows;
    match pc
    case Await1(d) => EndingStays(s, s', d);
    case Await2(d) => EndingStays(s, s', d);
    case Await3(d) => EndingStays(s, s', d);
    case StartAwaits(d) => EndingStays(s, s', d);
    case _ =>
  }

  // One lemma for each kind of change.

  lemma CancelRecoveryKeeps(s: Sys)
    requires Inv(s)
    ensures Inv(CancelRecovery(s)) && RecoveryEnding(CancelRecovery(s), s.exitDone)
  {
    hide Waits, Locks;
    assert Locks(CancelRecovery(s)) by { SameLocks(s, CancelRecovery(s)); }
    WaitsKept(s, CancelRecovery(s));
  }

  lemma CancelRetryKeeps(s: Sys)
    requires Inv(s)
    ensures Inv(CancelRetry(s)) && RetryEnding(CancelRetry(s), s.retryDone)
  {
    hide Waits, Locks;
    assert Locks(CancelRetry(s)) by { SameLocks(s, CancelRetry(s)); }
    WaitsKept(s, CancelRetry(s));
  }

  lemma SameLocks(s: Sys, s': Sys)
    requires Locks(s) && s'.threads == s.threads && s'.retry == s.retry && s'.recovery == s.recovery
    requires s'.saveMu == s.saveMu && s'.startMu == s.startMu && s'.saved == s.saved
    ensures Locks(s')
  {
  }

  lemma AtLocks(s: Sys, t: Thread, pc: Pc)
    requires Locks(s) && t in s.threads && pc != StartHolds && pc != Handling && s.threads[t] != StartHolds
    requires s.saveMu == Some(User(t)) ==> CanHold(pc)
    ensures Locks(At(s, t, pc))
  {
  }

  lemma AtKeeps(s: Sys, t: Thread, pc: Pc)
    requires Inv(s) && t in s.threads && PcWaits(s, pc) && pc != StartHolds && pc != Handling && s.threads[t] != StartHolds
    requires s.saveMu == Some(User(t)) ==> CanHold(pc)
    ensures Inv(At(s, t, pc))
  {
    hide Waits, Locks;
    AtLocks(s, t, pc);
    SamePcWaits(s, At(s, t, pc), pc);
    WaitsKept(s, At(s, t, pc));
  }

  lemma SamePcWaits(s: Sys, s': Sys, pc: Pc)
    requires s'.closed == s.closed && s'.cancelled == s.cancelled && s'.retry == s.retry && s'.recovery == s.recovery
    ensures PcWaits(s, pc) == PcWaits(s', pc)
  {
  }

  lemma HoldStartKeeps(s: Sys, t: Thread)
    requires Inv(s) && t in s.threads && s.threads[t] == StartWants && s.startMu == None
    ensures Inv(At(s, t, StartHolds).(startMu := Some(User(t))))
  {
    hide Waits;
    WaitsKept(s, At(s, t, StartHolds).(startMu := Some(User(t))));
  }

  lemma HoldSaveKeeps(s: Sys, t: Thread)
    requires Inv(s) && t in s.threads && s.threads[t] == Wanting && s.saveMu == None
    ensures Inv(At(s, t, Handling).(saveMu := Some(User(t))))
  {
    hide Waits;
    WaitsKept(s, At(s, t, Handling).(saveMu := Some(User(t))));
  }

  lemma WithoutKeeps(s: Sys, t: Thread)
    requires Inv(s) && t in s.threads && s.threads[t] != StartHolds
    ensures Inv(Without(s, t))
  {
    hide Waits;
    WaitsKept(s, Without(s, t));
  }

  lemma ThreadKeeps(s: Sys, t: Thread)
    requires Inv(s) && ThreadStep(s, t).Some?
    ensures Inv(ThreadStep(s, t).value)
  {
    hide Inv, CancelRecovery, CancelRetry, At, Without;
    ThreadFacts(s, t);
    CancelFacts(s);
    match s.threads[t]
    case Stop1 =>
      CancelRecoveryKeeps(s);
      AtKeeps(CancelRecovery(s), t, Await1(s.exitDone));
    case Await1(d) => AtKeeps(s, t, Stop2);
    case Stop2 =>
      CancelRetryKeeps(s);
      AtKeeps(CancelRetry(s), t, Await2(s.retryDone));
    case Await2(d) => AtKeeps(s, t, Stop3);
    case Stop3 =>
      CancelRecoveryKeeps(s);
      AtKeeps(CancelRecovery(s), t, Await3(s.exitDone));
    case Await3(d) => AtKeeps(s, t, Stopped);
    case Stopped => WithoutKeeps(s, t);
    case StartStops =>
      CancelRecoveryKeeps(s);
      AtKeeps(CancelRecovery(s), t, StartAwaits(s.exitDone));
    case StartAwaits(d) => AtKeeps(s, t, StartWants);
    case StartWants => HoldStartKeeps(s, t);
    case Wanting => HoldSaveKeeps(s, t);
    case Handling => WithoutKeeps(s, t);
  }

  lemma ThreadFacts(s: Sys, t: Thread)
    requires Inv(s) && t in s.threads
    ensures s.saveMu == Some(User(t)) ==> CanHold(s.threads[t])
  {
  }

  lemma CancelFacts(s: Sys)
    ensures CancelRecovery(s).threads == s.threads && CancelRecovery(s).saveMu == s.saveMu
    ensures CancelRetry(s).threads == s.threads && CancelRetry(s).saveMu == s.saveMu
    ensures CancelRecovery(s).retry == s.retry && CancelRecovery(s).recovery == s.recovery
    ensures CancelRetry(s).retry == s.retry && CancelRetry(s).recovery == s.recovery
  {
  }

  lemma RetryAtKeeps(s: Sys, g: Name, pc: Retry)
    requires Inv(s) && g in s.retry && s.retry[g] != Starts && pc != Starts
    requires pc.AwaitsRecovery? ==> RecoveryEnding(s, pc.done)
    ensures Inv(RetryAt(s, g, pc))
  {
    hide Waits;
    WaitsKept(s, RetryAt(s, g, pc));
  }

  lemma RetryHoldKeeps(s: Sys, g: Name)
    requires Inv(s) && g in s.retry && s.retry[g] == WantsStart && s.startMu == None
    ensures Inv(RetryAt(s, g, Starts).(startMu := Some(Worker(g))))
  {
    hide Waits;
    WaitsKept(s, RetryAt(s, g, Starts).(startMu := Some(Worker(g))));
  }

  lemma RetryGoneKeeps(s: Sys, g: Name)
    requires Inv(s) && g in s.retry && s.retry[g] == RetryLeaves
    ensures Inv(s.(retry := s.retry - {g}, retrying := false, retryCancel := None, retryDone := None, closed := s.closed + {g}))
  {
    hide Waits;
    WaitsKept(s, s.(retry := s.retry - {g}, retrying := false, retryCancel := None, retryDone := None, closed := s.closed + {g}));
  }

  lemma RetryKeeps(s: Sys, g: Name)
    requires Inv(s) && RetryStep(s, g).Some?
    ensures Inv(RetryStep(s, g).value)
  {
    hide Inv, CancelRecovery, RetryAt;
    CancelFacts(s);
    match s.retry[g]
    case StopsRecovery =>
      CancelRecoveryKeeps(s);
      RetryAtKeeps(CancelRecovery(s), g, AwaitsRecovery(s.exitDone));
    case AwaitsRecovery(d) => RetryAtKeeps(s, g, WantsStart);
    case WantsStart => RetryHoldKeeps(s, g);
    case RetryLeaves => RetryGoneKeeps(s, g);
  }

  lemma RecoveryAtKeeps(s: Sys, g: Name, pc: Recovery)
    requires Inv(s) && g in s.recovery && !s.recovery[g].Applies? && !pc.Applies?
    ensures Inv(RecoveryAt(s, g, pc))
  {
    hide Waits;
    WaitsKept(s, RecoveryAt(s, g, pc));
  }

  lemma RecoveryHoldKeeps(s: Sys, g: Name)
    requires Inv(s) && g in s.recovery && s.recovery[g] == Tries && s.saveMu == None
    ensures Inv(RecoveryAt(s, g, Applies(s.saved)).(saveMu := Some(Worker(g))))
  {
    hide Waits;
    WaitsKept(s, RecoveryAt(s, g, Applies(s.saved)).(saveMu := Some(Worker(g))));
  }

  lemma RecoveryFreesKeeps(s: Sys, g: Name, pc: Recovery)
    requires Inv(s) && g in s.recovery && s.recovery[g].Applies? && !pc.Applies?
    ensures Inv(RecoveryAt(s, g, pc).(saveMu := None))
  {
    hide Waits;
    WaitsKept(s, RecoveryAt(s, g, pc).(saveMu := None));
  }

  lemma RecoveryGoneKeeps(s: Sys, g: Name)
    requires Inv(s) && g in s.recovery && s.recovery[g] == RecoveryLeaves
    ensures Inv(s.(recovery := s.recovery - {g}, exitCancel := None, exitDone := None, closed := s.closed + {g}))
  {
    hide Waits;
    WaitsKept(s, s.(recovery := s.recovery - {g}, exitCancel := None, exitDone := None, closed := s.closed + {g}));
  }

  lemma RecoveryKeeps(s: Sys, g: Name, ok: bool)
    requires Inv(s) && RecoveryStep(s, g, ok).Some?
    ensures Inv(RecoveryStep(s, g, ok).value)
  {
    hide Inv, RecoveryAt;
    match s.recovery[g]
    case Tries =>
      if s.saveMu.Some? {
        RecoveryAtKeeps(s, g, RecoverySleeps);
      } else {
        RecoveryHoldKeeps(s, g);
      }
    case Applies(_) => RecoveryFreesKeeps(s, g, if ok || g in s.cancelled then RecoveryLeaves else RecoverySleeps);
    case RecoveryLeaves => RecoveryGoneKeeps(s, g);
  }

  lemma ScheduleFields(s: Sys)
    requires Inv(s)
    ensures Fields(Schedule(s)) && Names(Schedule(s)) && Grows(s, Schedule(s)) && Locks(Schedule(s))
  {
    hide Waits;
  }

  lemma ScheduleRecoveryFields(s: Sys)
    requires Inv(s)
    ensures Fields(ScheduleRecovery(s)) && Names(ScheduleRecovery(s)) && Grows(s, ScheduleRecovery(s)) && Locks(ScheduleRecovery(s))
  {
    hide Waits;
  }

  lemma ScheduleKeeps(s: Sys)
    requires Inv(s)
    ensures Inv(Schedule(s)) && Inv(ScheduleRecovery(s))
  {
    hide Waits, Locks, Names, Fields, Grows;
    ScheduleFields(s);
    ScheduleRecoveryFields(s);
    WaitsKept(s, Schedule(s));
    WaitsKept(s, ScheduleRecovery(s));
  }

  /** A step that leaves the fields and the sets of workers alone. */
  lemma LightKeeps(s: Sys, s': Sys)
    requires Inv(s) && Locks(s') && s'.retry.Keys == s.retry.Keys && s'.recovery.Keys == s.recovery.Keys
    requires s' == s.(threads := s'.threads, retry := s'.retry, recovery := s'.recovery, startMu := s'.startMu, saved := s'.saved)
    requires forall t :: t in s'.threads ==> (t in s.threads && s'.threads[t] == s.threads[t]) || PcWaits(s', s'.threads[t])
    requires forall g :: g in s'.retry && s'.retry[g].AwaitsRecovery? ==> g in s.retry && s'.retry[g] == s.retry[g]
    ensures Inv(s')
  {
    hide Waits, Locks;
    WaitsKept(s, s');
  }

  lemma EndKeeps(s: Sys, t: Thread)
    requires Inv(s) && t in s.threads && s.threads[t] == StartHolds
    ensures Inv(s.(threads := s.threads - {t}, startMu := None))
  {
    LightKeeps(s, s.(threads := s.threads - {t}, startMu := None));
  }

  lemma RetryEndKeeps(s: Sys, g: Name, pc: Retry)
    requires Inv(s) && g in s.retry && s.retry[g] == Starts && (pc == RetrySleeps || pc == RetryLeaves)
    ensures Inv(RetryAt(s, g, pc).(startMu := None))
  {
    LightKeeps(s, RetryAt(s, g, pc).(startMu := None));
  }

  lemma StepKeeps(s: Sys, a: Action)
    requires Inv(s) && Step(s, a).Some?
    ensures Inv(Step(s, a).value)
  {
    hide ThreadStep, RetryStep, RecoveryStep, Schedule, ScheduleRecovery, Inv;
    match a
    case ScheduleRetry => ScheduleKeeps(s);
    case Go(t) => ThreadKeeps(s, t);
    case RetryGo(g) => RetryKeeps(s, g);
    case RecoveryGo(g, ok) => RecoveryKeeps(s, g, ok);
    case HandlerRecovers(t) => ScheduleKeeps(s);
    case EndStart(t, outcome) =>
      EndKeeps(s, t);
      ScheduleKeeps(s.(threads := s.threads - {t}, startMu := None));
    case RetryEnds(g, outcome) =>
      var pc := if outcome == Fails then RetrySleeps else RetryLeaves;
      RetryEndKeeps(s, g, pc);
      ScheduleKeeps(RetryAt(s, g, pc).(startMu := None));
    case _ =>
      SmallKeeps(s, a);
  }

  predicate Small(a: Action) {
    a.Spawn? || a.SaveNode? || a.HandlerStops? || a.RetryWakes? || a.RetryCancelled? || a.RecoveryWakes? || a.RecoveryCancelled?
  }

  lemma SmallLocks(s: Sys, a: Action)
    requires Inv(s) && Step(s, a).Some? && Small(a)
    ensures Locks(Step(s, a).value)
  {
    hide Waits, Names, Fields;
  }

  lemma SmallKeeps(s: Sys, a: Action)
    requires Inv(s) && Step(s, a).Some? && Small(a)
    ensures Inv(Step(s, a).value)
  {
    hide Waits, Locks, Fields, Names;
    SmallLocks(s, a);
    LightKeeps(s, Step(s, a).value);
  }

  // ---- runs -----------------------------------------------------------------------------------

  ghost predicate Runs(s: Sys, es: seq<Action>, s': Sys)
    decreases |es|
  {
    if es == [] then s == s' else Step(s, es[0]).Some? && Runs(Step(s, es[0]).value, es[1..], s')
  }

  lemma {:induction false} RunKeeps(s: Sys, es: seq<Action>, s': Sys)
    requires Inv(s) && Runs(s, es, s')
    ensures Inv(s')
    decreases |es|
  {
    hide Inv, Step;
    if es == [] {
    } else {
      StepKeeps(s, es[0]);
      RunKeeps(Step(s, es[0]).value, es[1..], s');
    }
  }

  /** In every run there is at most one retry worker and one recovery worker, and the
      fields say whether there is and which; and a recovery that is applying an exit node
      applies the one that is saved, which nobody can change meanwhile. */
  lemma WorkersExact(saved: string, es: seq<Action>, s: Sys)
    requires Runs(Begin(saved), es, s)
    ensures s.retry.Keys == (if s.retryDone.Some? then {s.retryDone.value} else {}) && (s.retrying <==> s.retry != map[])
    ensures s.recovery.Keys == (if s.exitDone.Some? then {s.exitDone.value} else {})
    ensures forall g :: g in s.recovery && s.recovery[g].Applies? ==> s.recovery[g].node == s.saved
  {
    BeginInv(saved);
    RunKeeps(Begin(saved), es, s);
    assert s.retry != map[] ==> s.retry.Keys != {};
    assert s.retryDone.Some? ==> s.retryDone.value in s.retry.Keys;
  }

  // ---- stopping --------------------------------------------------------------------------------

  predicate IsStarter(pc: Pc) { pc.StartStops? || pc.StartAwaits? || pc.StartWants? || pc.StartHolds? }

  /** Nobody else schedules or starts anything. The workers that live go on. */
  predicate Quiet(a: Action) {
    !a.ScheduleRetry? && !a.HandlerRecovers? && !a.EndStart? && (a.Spawn? ==> !IsStarter(a.pc))
  }

  function Only(d: Option<Name>): set<Name> { if d.Some? then {d.value} else {} }

  ghost predicate NoStarters(s: Sys) { forall u :: u in s.threads ==> !IsStarter(s.threads[u]) }

  /** What the stopper knows at each point of its way. */
  ghost predicate Stopping(s: Sys, t: Thread) {
    && NoStarters(s)
    && (t in s.threads ==>
          match s.threads[t]
          case Await2(d) => s.retry.Keys <= Only(d)
          case Stop3 => s.retry.Keys == {}
          case Await3(d) => s.retry.Keys == {} && s.recovery.Keys <= Only(d)
          case Stopped => s.retry.Keys == {} && s.recovery.Keys == {}
          case _ => true)
  }

  /** Without schedulers no retry worker comes into being, and a recovery worker only where a
      retry worker is. */
  lemma QuietWorkers(s: Sys, a: Action)
    requires Inv(s) && Step(s, a).Some? && Quiet(a)
    ensures var s' := Step(s, a).value;
            s'.retry.Keys <= s.retry.Keys && (s.retry.Keys == {} ==> s'.recovery.Keys <= s.recovery.Keys)
  {
    hide Waits, Locks, Fields, Names, Without;
    if a.RetryEnds? {
      assert a.g in s.retry.Keys;
    }
    if a.Go? && a.t in s.threads {
      WithoutWorkers(s, a.t);
    }
  }

  lemma WithoutWorkers(s: Sys, t: Thread)
    ensures Without(s, t).retry == s.retry && Without(s, t).recovery == s.recovery
  {
  }

  lemma OwnStopStep(s: Sys, t: Thread)
    requires Inv(s) && Stopping(s, t) && ThreadStep(s, t).Some?
    ensures Stopping(ThreadStep(s, t).value, t)
  {
    EndedWorkers(s, t);
    hide Waits, Locks, Names, CancelRecovery, CancelRetry, NoStarters, RecoveryEnding, RetryEnding, At, Without;
    CancelFacts(s);
    WithoutWorkers(s, t);
    AtThreads(s, t);
    AtThreads(CancelRecovery(s), t);
    AtThreads(CancelRetry(s), t);
    OneThreadSteps(s, t);
  }

  /** Whom the stopper has waited for has left. */
  lemma EndedWorkers(s: Sys, t: Thread)
    requires Inv(s) && t in s.threads
    ensures s.threads[t].Await2? && Over(s, s.threads[t].done) ==> forall g :: g in Only(s.threads[t].done) ==> g !in s.retry
    ensures s.threads[t].Await3? && Over(s, s.threads[t].done) ==> forall g :: g in Only(s.threads[t].done) ==> g !in s.recovery
  {
    hide Waits, Locks, Fields;
  }

  lemma OneThreadSteps(s: Sys, u: Thread)
    requires ThreadStep(s, u).Some? && NoStarters(s)
    ensures var s' := ThreadStep(s, u).value;
            NoStarters(s') && forall t :: t in s'.threads && t != u ==> t in s.threads && s'.threads[t] == s.threads[t]
  {
    var s' := ThreadStep(s, u).value;
    assert !IsStarter(s.threads[u]);
    NextPc(s, u);
    hide ThreadStep;
    forall t | t in s'.threads ensures !IsStarter(s'.threads[t]) {
      if t != u {
        assert !IsStarter(s.threads[t]);
      }
    }
  }

  /** The thread alone changes its place, and a thread that is no starter does not become one. */
  lemma NextPc(s: Sys, u: Thread)
    requires ThreadStep(s, u).Some? && !IsStarter(s.threads[u])
    ensures var s' := ThreadStep(s, u).value;
            && (u in s'.threads ==> !IsStarter(s'.threads[u]))
            && forall t :: t in s'.threads && t != u ==> t in s.threads && s'.threads[t] == s.threads[t]
  {
    hide CancelRecovery, CancelRetry, At, Without;
    CancelFacts(s);
    AtThreads(s, u);
    AtThreads(CancelRecovery(s), u);
    AtThreads(CancelRetry(s), u);
  }

  lemma AtThreads(s: Sys, u: Thread)
    ensures forall pc :: At(s, u, pc).threads == s.threads[u := pc] && At(s, u, pc).retry == s.retry && At(s, u, pc).recovery == s.recovery
    ensures Without(s, u).threads == s.threads - {u}
  {
  }

  lemma WorkersLeaveThreads(s: Sys, a: Action)
    requires a.RetryGo? || a.RecoveryGo? || a.RetryEnds? || a.RetryWakes? || a.RetryCancelled? || a.RecoveryWakes? || a.RecoveryCancelled?
    requires Step(s, a).Some?
    ensures Step(s, a).value.threads == s.threads
  {
    hide CancelRecovery, CancelRetry;
    CancelFacts(s);
  }

  lemma OtherThreads(s: Sys, a: Action, t: Thread)
    requires Step(s, a).Some? && Quiet(a) && NoStarters(s) && a != Go(t)
    ensures var s' := Step(s, a).value;
            && NoStarters(s')
            && (t in s'.threads && (t !in s.threads || s'.threads[t] != s.threads[t]) ==>
                  s'.threads[t] in {Stop1, Wanting})
  {
    hide ThreadStep, RetryStep, RecoveryStep, ScheduleRecovery;
    if a.Go? {
      OneThreadSteps(s, a.t);
    } else if !a.Spawn? && !a.SaveNode? && !a.HandlerStops? {
      WorkersLeaveThreads(s, a);
    }
  }

  lemma StopStep(s: Sys, a: Action, t: Thread)
    requires Inv(s) && Stopping(s, t) && Step(s, a).Some? && Quiet(a)
    ensures Stopping(Step(s, a).value, t)
  {
    if a == Go(t) {
      OwnStopStep(s, t);
    } else {
      hide Inv, Step, NoStarters;
      OtherThreads(s, a, t);
      QuietWorkers(s, a);
    }
  }

  lemma {:induction false} StopsAlong(s: Sys, es: seq<Action>, s': Sys, t: Thread)
    requires Inv(s) && Stopping(s, t) && Runs(s, es, s')
    requires forall i :: 0 <= i < |es| ==> Quiet(es[i])
    ensures Inv(s') && Stopping(s', t)
    decreases |es|
  {
    hide Inv, Step, Stopping, Quiet;
    if es == [] {
    } else {
      StepKeeps(s, es[0]);
      StopStep(s, es[0], t);
      StopsAlong(Step(s, es[0]).value, es[1..], s', t);
    }
  }

  /** When `stopTailscaleRetry` returns and nobody else has scheduled or started anything
      since it was called, neither worker lives, even if the retry it drained has scheduled
      a recovery in its last attempt; and the fields say so. */
  lemma StoppedMeansStopped(s: Sys, es: seq<Action>, s': Sys, t: Thread)
    requires Inv(s) && t in s.threads && s.threads[t] == Stop1 && NoStarters(s) && Runs(s, es, s')
    requires forall i :: 0 <= i < |es| ==> Quiet(es[i])
    requires t in s'.threads && s'.threads[t] == Stopped
    ensures s'.retry == map[] && s'.recovery == map[] && !s'.retrying && s'.exitDone == None
  {
    StopsAlong(s, es, s', t);
    assert s'.retry.Keys == {} && s'.recovery.Keys == {};
  }

  // ---- nobody waits for ever --------------------------------------------------------------------

  datatype Process = TheThread(t: Thread) | TheRetry(g: Name) | TheRecovery(g: Name)

  predicate Lives(s: Sys, p: Process) {
    match p
    case TheThread(t) => t in s.threads
    case TheRetry(g) => g in s.retry
    case TheRecovery(g) => g in s.recovery
  }

  /** The process can take a step of its own. */
  ghost predicate Moves(s: Sys, p: Process) {
    match p
    case TheThread(t) => Step(s, Go(t)).Some? || Step(s, EndStart(t, Fails)).Some?
    case TheRetry(g) => Step(s, RetryGo(g)).Some? || Step(s, RetryEnds(g, Fails)).Some? || Step(s, RetryWakes(g)).Some?
    case TheRecovery(g) => Step(s, RecoveryGo(g, false)).Some? || Step(s, RecoveryWakes(g)).Some?
  }

  function HolderOf(h: Holder, save: bool): Process {
    match h
    case User(t) => TheThread(t)
    case Worker(g) => if save then TheRecovery(g) else TheRetry(g)
  }

  /** Whom a process that cannot move waits for. */
  function WaitsFor(s: Sys, p: Process): Process {
    match p
    case TheThread(t) =>
      if t !in s.threads then p
      else
        (match s.threads[t]
         case Await1(Some(g)) => TheRecovery(g)
         case Await2(Some(g)) => TheRetry(g)
         case Await3(Some(g)) => TheRecovery(g)
         case StartAwaits(Some(g)) => TheRecovery(g)
         case StartWants => if s.startMu.Some? then HolderOf(s.startMu.value, false) else p
         case Wanting => if s.saveMu.Some? then HolderOf(s.saveMu.value, true) else p
         case _ => p)
    case TheRetry(g) =>
      if g !in s.retry then p
      else
        (match s.retry[g]
         case AwaitsRecovery(Some(h)) => TheRecovery(h)
         case WantsStart => if s.startMu.Some? then HolderOf(s.startMu.value, false) else p
         case _ => p)
    case TheRecovery(_) => p
  }

  function Rank(s: Sys, p: Process): nat {
    match p
    case TheThread(t) =>
      if t !in s.threads then 0
      else (match s.threads[t]
            case Wanting => 4
            case StartHolds => 0
            case _ => 3)
    case TheRetry(g) => if g in s.retry && s.retry[g] == Starts then 1 else 2
    case TheRecovery(_) => 0
  }

  /** Every process can move or waits for one that lives and is lower in a fixed order; so
      nobody waits in a circle, not even a stopper that holds `configSaveMu`, because a
      recovery worker never waits at all. */
  lemma MovesOrWaits(s: Sys, p: Process)
    requires Inv(s) && Lives(s, p)
    ensures Moves(s, p) || (Lives(s, WaitsFor(s, p)) && Rank(s, WaitsFor(s, p)) < Rank(s, p))
    ensures p.TheRecovery? ==> Moves(s, p)
  {
    hide Inv, Moves, WaitsFor, Rank;
    match p
    case TheThread(t) => ThreadMovesOrWaits(s, t);
    case TheRetry(g) => RetryMovesOrWaits(s, g);
    case TheRecovery(g) => RecoveryMoves(s, g);
  }

  lemma RetryMovesOrWaits(s: Sys, g: Name)
    requires Inv(s) && Lives(s, TheRetry(g))
    ensures var p := TheRetry(g);
            Moves(s, p) || (Lives(s, WaitsFor(s, p)) && Rank(s, WaitsFor(s, p)) < Rank(s, p))
  {
    hide Names, CancelRecovery, CancelRetry, ThreadStep, RecoveryStep;
  }

  lemma RecoveryMoves(s: Sys, g: Name)
    requires Inv(s) && Lives(s, TheRecovery(g))
    ensures Moves(s, TheRecovery(g))
  {
    hide Names, CancelRecovery, CancelRetry, ThreadStep, RetryStep;
  }

  lemma ThreadMovesOrWaits(s: Sys, t: Thread)
    requires Inv(s) && t in s.threads
    ensures var p := TheThread(t);
            Moves(s, p) || (Lives(s, WaitsFor(s, p)) && Rank(s, WaitsFor(s, p)) < Rank(s, p))
  {
    hide Names, Fields, CancelRecovery, CancelRetry, RetryStep, RecoveryStep;
    assert PcWaits(s, s.threads[t]);
  }

  /** From every process in every state of every run, following who waits for whom leads to
      one that can take a step. */
  lemma {:induction false} NoDeadlock(s: Sys, p: Process)
    requires Inv(s) && Lives(s, p)
    ensures exists q :: Lives(s, q) && Moves(s, q)
    decreases Rank(s, p)
  {
    hide Inv, Moves, WaitsFor, Rank;
    MovesOrWaits(s, p);
    if !Moves(s, p) {
      NoDeadlock(s, WaitsFor(s, p));
    }
  }
}
