/** Settings changed by any number of handlers at once: each takes `configSaveMu`, copies
    the configuration under `mu`, edits and saves the copy, and under `mu` again writes
    what it changed into memory, one field after the other. */
module Settings {
  import opened Options
  import opened Text
  import H = AddressHistory

  // ---- the configuration ------------------------------------------------------------------

  datatype SavedTab = SavedTab(kind: string, title: string, host: string, user: string, port: int, url: string, favicon: string)

  datatype HostConfig = HostConfig(user: string, port: int, keyName: string, nickname: string, url: string,
                                   hostKey: string, fingerprint: string)

  const NO_HOST := HostConfig("", 0, "", "", "", "", "")

  datatype Config = Config(unlock: string, width: int, height: int, tabs: seq<SavedTab>, recent: seq<string>,
                           history: seq<string>, hosts: map<string, HostConfig>, savePasswords: bool, search: string,
                           exitNode: string, fontSize: int, font: string, theme: string, restore: bool, auto: bool,
                           debug: bool)

  /** The parts of the normalizers that rest on libraries: URL, host and key-name rules, the
      lower-case trimmed form of a font name, and the search providers. */
  datatype Env = Env(history: H.Env, fold: string -> string, tabs: seq<SavedTab> -> seq<SavedTab>,
                     hosts: map<string, HostConfig> -> map<string, HostConfig>, search: string -> bool)

  const FONTS := {"fira-code", "cascadia-mono", "consolas", "nsimsun"}

  /** Names that are lower-case and trimmed are left as they are. */
  ghost predicate EnvOk(env: Env) {
    forall f :: f in FONTS ==> env.fold(f) == f
  }

  function FontSize(size: int): int { if 10 <= size <= 32 then size else 0 }

  function Font(env: Env, font: string): string {
    if env.fold(font) in FONTS then env.fold(font) else "fira-code"
  }

  function Unlock(unlock: string): string { if unlock == "master" then "master" else "dpapi" }

  function Search(env: Env, search: string): string { if env.search(search) then search else "duckduckgo" }

  /** `normalizeConfig` */
  function N(env: Env, c: Config): Config {
    c.(unlock := Unlock(c.unlock), width := if c.width <= 0 then 1200 else c.width,
       height := if c.height <= 0 then 800 else c.height, fontSize := FontSize(c.fontSize), font := Font(env, c.font),
       search := Search(env, c.search), history := H.Normalize(env.history, c.history), theme := "dark",
       hosts := env.hosts(c.hosts), tabs := env.tabs(c.tabs))
  }

  // ---- requests ----------------------------------------------------------------------------

  /** One assignment to a field of the configuration in memory. */
  datatype Write = SetUnlock(unlock: string) | SetTabs(tabs: seq<SavedTab>) | SetRecent(recent: seq<string>)
                 | SetHistory(history: seq<string>) | SetHost(host: string, conf: HostConfig) | DropHost(host: string)
                 | SetPasswords(on: bool) | SetSearch(search: string) | SetExitNode(node: string) | SetFontSize(size: int)
                 | SetFont(font: string) | SetTheme(theme: string) | SetRestore(on: bool) | SetAuto(on: bool) | SetDebug(on: bool)

  function Apply(c: Config, w: Write): Config {
    match w
    case SetUnlock(x) => c.(unlock := x)
    case SetTabs(x) => c.(tabs := x)
    case SetRecent(x) => c.(recent := x)
    case SetHistory(x) => c.(history := x)
    case SetHost(h, x) => c.(hosts := c.hosts[h := x])
    case DropHost(h) => c.(hosts := c.hosts - {h})
    case SetPasswords(x) => c.(savePasswords := x)
    case SetSearch(x) => c.(search := x)
    case SetExitNode(x) => c.(exitNode := x)
    case SetFontSize(x) => c.(fontSize := x)
    case SetFont(x) => c.(font := x)
    case SetTheme(x) => c.(theme := x)
    case SetRestore(x) => c.(restore := x)
    case SetAuto(x) => c.(auto := x)
    case SetDebug(x) => c.(debug := x)
  }

  function ApplyAll(c: Config, ws: seq<Write>): Config
    decreases |ws|
  {
    if ws == [] then c else ApplyAll(Apply(c, ws[0]), ws[1..])
  }

  lemma {:induction false} ApplyConcat(c: Config, a: seq<Write>, b: seq<Write>)
    ensures ApplyAll(c, a + b) == ApplyAll(ApplyAll(c, a), b)
    decreases |a|
  {
    if a == [] {
      assert a + b == b;
    } else {
      assert (a + b)[1..] == a[1..] + b;
      ApplyConcat(Apply(c, a[0]), a[1..], b);
    }
  }

  /** What a handler has been asked, its input already checked. A host patch is a change of
      the stored entry that leaves its key alone; `persistOpenTabs` brings no tabs along, it
      takes those it finds under `mu`. */
  datatype Request = UnlockMethod(unlock: string)
                   | SaveTabs(tabs: seq<SavedTab>)
                   | WindowTabs
                   | Address(input: string)
                   | HideRecent(key: string)
                   | PatchHost(host: string, change: HostConfig -> HostConfig)
                   | DeleteHost(host: string)
                   | TrustKey(host: string, key: string, fingerprint: string)
                   | Passwords(on: bool)
                   | SearchWith(search: string)
                   | UseExitNode(node: string)
                   | Appearance(size: int, font: string, theme: string, restore: bool, auto: bool)
                   | DebugLog(on: bool)

  ghost predicate Checked(env: Env, r: Request) {
    match r
    case UnlockMethod(x) => x == "master" || x == "dpapi"
    case SearchWith(x) => env.search(x)
    case Address(x) => H.Wanted(env.history, x) && Trimmed(x, env.history.space)
    case PatchHost(_, change) =>
      forall c :: change(c).hostKey == c.hostKey && change(c).fingerprint == c.fingerprint
    case TrustKey(_, key, _) => key != ""
    case _ => true
  }

  function Entry(c: Config, host: string): HostConfig {
    if host in c.hosts then c.hosts[host] else NO_HOST
  }

  function LastHundred(s: seq<string>): seq<string> {
    if |s| > 100 then s[|s| - 100..] else s
  }

  /** The edited copy, or nothing when there is nothing to save. */
  datatype Plan = Nothing | Edit(copy: Config, writes: seq<Write>)

  /** What a request makes of the configuration it has copied, and what it will write into
      memory once the copy is saved; window is the list of open tabs. `SaveConfig` normalizes the copy in place, so a handler
      that writes fields of the copy writes them normalized; the others write the value
      they had. */
  function Planned(env: Env, c: Config, window: seq<SavedTab>, r: Request): Plan {
    match r
    case UnlockMethod(x) => Edit(c.(unlock := x), [SetUnlock(x)])
    case SaveTabs(x) => Edit(c.(tabs := env.tabs(x)), [SetTabs(env.tabs(x))])
    case WindowTabs => Edit(c.(tabs := window), [SetTabs(window)])
    case Address(x) =>
      var copy := c.(history := H.Normalize(env.history, [x] + c.history));
      Edit(copy, [SetHistory(N(env, copy).history)])
    case HideRecent(x) =>
      if x in c.recent then Nothing
      else
        var copy := c.(recent := LastHundred(c.recent + [x]));
        Edit(copy, [SetRecent(N(env, copy).recent)])
    case PatchHost(h, change) =>
      var conf := change(Entry(c, h));
      Edit(c.(hosts := c.hosts[h := conf]), [SetHost(h, conf)])
    case DeleteHost(h) => Edit(c.(hosts := c.hosts - {h}), [DropHost(h)])
    case TrustKey(h, key, fingerprint) =>
      if Entry(c, h).hostKey != "" then Nothing
      else
        var conf := Entry(c, h).(hostKey := key, fingerprint := fingerprint);
        Edit(c.(hosts := c.hosts[h := conf]), [SetHost(h, conf)])
    case Passwords(x) => Edit(c.(savePasswords := x), [SetPasswords(x)])
    case SearchWith(x) => Edit(c.(search := x), [SetSearch(x)])
    case UseExitNode(x) => Edit(c.(exitNode := x), [SetExitNode(x)])
    case Appearance(size, font, theme, restore, auto) =>
      var copy := c.(fontSize := FontSize(size), font := Font(env, font), theme := "dark", restore := restore, auto := auto);
      var saved := N(env, copy);
      Edit(copy, [SetFontSize(saved.fontSize), SetFont(saved.font), SetTheme(saved.theme), SetRestore(saved.restore), SetAuto(saved.auto)])
    case DebugLog(x) => Edit(c.(debug := x), [SetDebug(x)])
  }

  /** Most handlers write what they have edited. */
  lemma PlanCopies(env: Env, c: Config, window: seq<SavedTab>, r: Request)
    requires Planned(env, c, window, r).Edit? && !r.Address? && !r.Appearance?
    ensures ApplyAll(c, Planned(env, c, window, r).writes) == Planned(env, c, window, r).copy
  {
    OneWrite(c, Planned(env, c, window, r).writes);
  }

  lemma AddressAgrees(env: Env, c: Config, window: seq<SavedTab>, x: string)
    ensures var p := Planned(env, c, window, Address(x)); N(env, ApplyAll(c, p.writes)) == N(env, p.copy)
  {
    hide N, ApplyAll;
    var p := Planned(env, c, window, Address(x));
    NormalizedHistory(env, p.copy);
    OneWrite(c, p.writes);
    assert ApplyAll(c, p.writes) == p.copy.(history := H.Normalize(env.history, p.copy.history));
  }

  lemma NormalizedHistory(env: Env, c: Config)
    ensures N(env, c).history == H.Normalize(env.history, c.history)
    ensures N(env, c.(history := H.Normalize(env.history, c.history))) == N(env, c)
  {
    hide H.Normalize, Font, FontSize;
    H.NormalizeMeaning(env.history, c.history);
  }

  lemma Normalized(env: Env, c: Config)
    ensures var n := N(env, c);
            && n.fontSize == FontSize(c.fontSize) && n.font == Font(env, c.font) && n.theme == "dark"
            && n.restore == c.restore && n.auto == c.auto && n.recent == c.recent
  {
  }

  lemma AppearanceAgrees(env: Env, c: Config, window: seq<SavedTab>, r: Request)
    requires EnvOk(env) && r.Appearance?
    ensures ApplyAll(c, Planned(env, c, window, r).writes) == Planned(env, c, window, r).copy
  {
    hide ApplyAll, N, Font;
    var p := Planned(env, c, window, r);
    FiveWrites(c, p.writes);
    FontAgain(env, r.font);
    Normalized(env, p.copy);
  }

  lemma FontAgain(env: Env, font: string)
    requires EnvOk(env)
    ensures Font(env, Font(env, font)) == Font(env, font)
  {
  }

  /** What is saved and what is written into memory are the same to the normalizer, though
      it is not idempotent: only the fields that handlers write normalized have to be. */
  lemma PlanAgrees(env: Env, c: Config, window: seq<SavedTab>, r: Request)
    requires EnvOk(env) && Planned(env, c, window, r).Edit?
    ensures var p := Planned(env, c, window, r); N(env, ApplyAll(c, p.writes)) == N(env, p.copy) && Does(env, c, window, r, ApplyAll(c, p.writes))
  {
    hide N, Planned, ApplyAll, Does;
    EditAsked(env, c, window, r);
    match r
    case Address(x) => AddressAgrees(env, c, window, x);
    case Appearance(_, _, _, _, _) => AppearanceAgrees(env, c, window, r);
    case _ => PlanCopies(env, c, window, r);
  }

  lemma OneWrite(c: Config, ws: seq<Write>)
    requires |ws| == 1
    ensures ApplyAll(c, ws) == Apply(c, ws[0])
  {
    assert ws[1..] == [];
  }

  lemma FirstWrite(c: Config, ws: seq<Write>, w: Write, rest: seq<Write>)
    requires ws == [w] + rest
    ensures ApplyAll(c, ws) == ApplyAll(Apply(c, w), rest)
  {
    hide Apply;
    assert ws[1..] == rest;
  }

  lemma FiveWrites(c: Config, ws: seq<Write>)
    requires |ws| == 5
    ensures ApplyAll(c, ws) == Apply(Apply(Apply(Apply(Apply(c, ws[0]), ws[1]), ws[2]), ws[3]), ws[4])
  {
    hide ApplyAll, Apply;
    var c1 := Apply(c, ws[0]);
    var c2 := Apply(c1, ws[1]);
    FirstWrite(c, ws, ws[0], ws[1..]);
    FirstWrite(c1, ws[1..], ws[1], ws[2..]);
    FirstWrite(c2, ws[2..], ws[2], ws[3..]);
    FirstWrite(Apply(c2, ws[2]), ws[3..], ws[3], ws[4..]);
    OneWrite(Apply(Apply(c2, ws[2]), ws[3]), ws[4..]);
  }

  /** What the file holds of a configuration. */
  lemma FileForm(env: Env, c: Config)
    requires EnvOk(env)
    ensures var n := N(env, c);
            && n.unlock in {"master", "dpapi"} && (n.unlock == "master" <==> c.unlock == "master")
            && (n.width, n.height) == (if c.width > 0 then c.width else 1200, if c.height > 0 then c.height else 800)
            && (10 <= n.fontSize <= 32 || n.fontSize == 0) && (10 <= c.fontSize <= 32 ==> n.fontSize == c.fontSize)
            && (n.fontSize != c.fontSize ==> n.fontSize == 0)
            && n.font in {"fira-code", "cascadia-mono", "consolas", "nsimsun"} && (env.fold(c.font) in {"fira-code", "cascadia-mono", "consolas", "nsimsun"} ==> n.font == env.fold(c.font))
            && (n.font == env.fold(c.font) || n.font == "fira-code") && n.theme == "dark"
            && n.search == (if env.search(c.search) then c.search else "duckduckgo")
            && n.history == H.Upto(H.Firsts(env.history, c.history)) && n.hosts == env.hosts(c.hosts) && n.tabs == env.tabs(c.tabs)
            && n.recent == c.recent && n.savePasswords == c.savePasswords && n.exitNode == c.exitNode
            && n.restore == c.restore && n.auto == c.auto && n.debug == c.debug
  {
    hide H.Firsts, H.Upto, H.Normalize;
    H.NormalizeMeaning(env.history, c.history);
  }

  // ---- what the requests mean ----------------------------------------------------------------

  function Stored(hosts: map<string, HostConfig>, host: string): HostConfig {
    if host in hosts then hosts[host] else HostConfig("", 0, "", "", "", "", "")
  }

  /** Configuration e has the values that the request asks for, given configuration c. */
  ghost predicate Granted(env: Env, c: Config, window: seq<SavedTab>, r: Request, e: Config) {
    match r
    case UnlockMethod(x) => e.unlock == x
    case SaveTabs(x) => e.tabs == env.tabs(x)
    case WindowTabs => e.tabs == window
    case Address(x) => e.history == H.Upto(H.Firsts(env.history, [x] + c.history))
    case HideRecent(x) =>
      if x in c.recent then e.recent == c.recent
      else
        && e.recent != [] && e.recent[|e.recent| - 1] == x && |e.recent| == (if |c.recent| < 100 then |c.recent| + 1 else 100)
        && e.recent[..|e.recent| - 1] == c.recent[|c.recent| + 1 - |e.recent|..]
    case PatchHost(h, change) => h in e.hosts && e.hosts[h] == change(Stored(c.hosts, h))
    case DeleteHost(h) => h !in e.hosts
    case TrustKey(h, key, fingerprint) =>
      && h in e.hosts
      && var (was, now) := (Stored(c.hosts, h), e.hosts[h]);
         if was.hostKey != "" then now == was
         else now == HostConfig(was.user, was.port, was.keyName, was.nickname, was.url, key, fingerprint)
    case Passwords(on) => e.savePasswords == on
    case SearchWith(x) => e.search == x
    case UseExitNode(x) => e.exitNode == x
    case Appearance(size, font, theme, restore, auto) =>
      && e.fontSize == (if 10 <= size && size <= 32 then size else 0)
      && e.font == (if env.fold(font) in {"cascadia-mono", "consolas", "nsimsun"} then env.fold(font) else "fira-code")
      && e.theme == "dark" && e.restore == restore && e.auto == auto
    case DebugLog(on) => e.debug == on
  }

  /** Nothing has changed but what the request is about. */
  ghost predicate OnlyThat(r: Request, c: Config, e: Config) {
    match r
    case UnlockMethod(_) => e == c.(unlock := e.unlock)
    case SaveTabs(_) => e == c.(tabs := e.tabs)
    case WindowTabs => e == c.(tabs := e.tabs)
    case Address(_) => e == c.(history := e.history)
    case HideRecent(_) => e == c.(recent := e.recent)
    case PatchHost(h, _) => e == c.(hosts := e.hosts) && e.hosts - {h} == c.hosts - {h}
    case DeleteHost(h) => e == c.(hosts := e.hosts) && e.hosts - {h} == c.hosts - {h}
    case TrustKey(h, _, _) => e == c.(hosts := e.hosts) && e.hosts - {h} == c.hosts - {h}
    case Passwords(_) => e == c.(savePasswords := e.savePasswords)
    case SearchWith(_) => e == c.(search := e.search)
    case UseExitNode(_) => e == c.(exitNode := e.exitNode)
    case Appearance(_, _, _, _, _) =>
      e == c.(fontSize := e.fontSize, font := e.font, theme := e.theme, restore := e.restore, auto := e.auto)
    case DebugLog(_) => e == c.(debug := e.debug)
  }

  ghost predicate Does(env: Env, c: Config, window: seq<SavedTab>, r: Request, e: Config) {
    Granted(env, c, window, r, e) && OnlyThat(r, c, e)
  }

  /** What memory is after the writes of a request. */
  function Made(env: Env, c: Config, window: seq<SavedTab>, r: Request): Config {
    var p := Planned(env, c, window, r); if p.Edit? then ApplyAll(c, p.writes) else c
  }

  lemma AddressDoes(env: Env, c: Config, window: seq<SavedTab>, x: string)
    ensures Does(env, c, window, Address(x), Made(env, c, window, Address(x)))
  {
    hide N, ApplyAll, H.Firsts, H.Upto, H.Normalize;
    var p := Planned(env, c, window, Address(x));
    OneWrite(c, p.writes);
    NormalizedHistory(env, p.copy);
    H.NormalizeMeaning(env.history, [x] + c.history);
  }

  lemma RecentDoes(env: Env, c: Config, window: seq<SavedTab>, x: string)
    ensures Does(env, c, window, HideRecent(x), Made(env, c, window, HideRecent(x)))
  {
    hide N, ApplyAll;
    var p := Planned(env, c, window, HideRecent(x));
    if x !in c.recent {
      OneWrite(c, p.writes);
      Normalized(env, p.copy);
    }
  }

  lemma HostDoes(env: Env, c: Config, window: seq<SavedTab>, r: Request)
    requires r.PatchHost? || r.DeleteHost? || r.TrustKey?
    ensures Does(env, c, window, r, Made(env, c, window, r))
  {
    hide ApplyAll;
    var p := Planned(env, c, window, r);
    if p.Edit? {
      OneWrite(c, p.writes);
    }
    var e := Made(env, c, window, r);
    assert e.hosts - {r.host} == c.hosts - {r.host};
  }

  lemma AppearanceDoes(env: Env, c: Config, window: seq<SavedTab>, r: Request)
    requires EnvOk(env) && r.Appearance?
    ensures Does(env, c, window, r, Made(env, c, window, r))
  {
    hide N, ApplyAll, Font;
    AppearanceAgrees(env, c, window, r);
    FontMeaning(env, r.font);
  }

  /** The writes of a request make of the configuration in memory exactly what it asks for;
      one that writes nothing finds it there. */
  lemma PlanDoes(env: Env, c: Config, window: seq<SavedTab>, r: Request)
    requires EnvOk(env)
    ensures Does(env, c, window, r, Made(env, c, window, r))
  {
    hide N, ApplyAll, Font, Does, Made;
    match r
    case Address(x) => AddressDoes(env, c, window, x);
    case HideRecent(x) => RecentDoes(env, c, window, x);
    case PatchHost(_, _) => HostDoes(env, c, window, r);
    case DeleteHost(_) => HostDoes(env, c, window, r);
    case TrustKey(_, _, _) => HostDoes(env, c, window, r);
    case Appearance(_, _, _, _, _) => AppearanceDoes(env, c, window, r);
    case _ => FieldDoes(env, c, window, r);
  }

  lemma FieldDoes(env: Env, c: Config, window: seq<SavedTab>, r: Request)
    requires r.UnlockMethod? || r.SaveTabs? || r.WindowTabs? || r.Passwords? || r.SearchWith? || r.UseExitNode? || r.DebugLog?
    ensures Does(env, c, window, r, Made(env, c, window, r))
  {
    hide N, ApplyAll;
    OneWrite(c, Planned(env, c, window, r).writes);
  }

  lemma FontMeaning(env: Env, font: string)
    ensures Font(env, font) == if env.fold(font) in {"cascadia-mono", "consolas", "nsimsun"} then env.fold(font) else "fira-code"
  {
  }

  // ---- threads ------------------------------------------------------------------------------

  /** Where a thread is. The first five hold `configSaveMu`. */
  datatype Pc = Copying(request: Request)                    // wants mu to copy
              | Editing(request: Request)                    // holds mu
              | Saving(copy: Config, writes: seq<Write>)     // saves the copy
              | Writing(writes: seq<Write>)                  // saved, wants mu to write
              | Committing(writes: seq<Write>)               // holds mu
              | Leaving                                      // gives configSaveMu back
              | Wanting(request: Request)                    // wants configSaveMu
              | Reading                                      // holds mu, only reads
              | WantRead                                     // wants mu, only to read

  type Thread = nat

  /** For the proofs only, the log lists everything that has been saved, window all lists
      of open tabs there have been, the last of which is the present one, taken which of
      them is in the copy under way, and stamps where in the log which of them was saved;
      asked is the request the copy under way was made for, and saved those of all copies
      that have been saved. */
  datatype Sys = Sys(threads: map<Thread, Pc>, saveMu: Option<Thread>, mu: Option<Thread>, mem: Config,
                     disk: Option<Config>, log: seq<Write>, window: seq<seq<SavedTab>>, taken: Option<nat>, stamps: seq<Stamp>,
                     asked: Option<Asked>, saved: seq<Asked>)

  /** A request, and the list of open tabs when its copy was made. */
  datatype Asked = Asked(request: Request, window: seq<SavedTab>)

  datatype Stamp = Stamp(place: nat, list: nat)

  function Open(s: Sys): seq<SavedTab> { if s.window == [] then [] else s.window[|s.window| - 1] }

  datatype Action = Ask(request: Request) | AskRead | ChangeTabs(tabs: seq<SavedTab>) | LockSave | LockMu | Copy | SaveOk | SaveFail | WriteField | UnlockMu | UnlockSave

  function At(s: Sys, t: Thread, pc: Pc): Sys { s.(threads := s.threads[t := pc]) }

  function Taken(s: Sys, r: Request): Option<nat> { if r.WindowTabs? && s.window != [] then Some(|s.window| - 1) else None }

  function Stamped(s: Sys): seq<Stamp> { if s.taken.Some? then [Stamp(|s.log|, s.taken.value)] else [] }

  /** One step of one thread; nothing when it cannot take it. A save is one step that
      replaces the file or leaves it as it was. */
  function Step(env: Env, s: Sys, t: Thread, a: Action): Option<Sys> {
    if t !in s.threads then
      match a
      case Ask(r) => Some(At(s, t, Wanting(r)))
      case AskRead => Some(At(s, t, WantRead))
      case ChangeTabs(tabs) => if s.mu == None then Some(s.(window := s.window + [tabs])) else None
      case _ => None
    else
      match (s.threads[t], a)
      case (Wanting(r), LockSave) => if s.saveMu == None then Some(At(s, t, Copying(r)).(saveMu := Some(t))) else None
      case (Copying(r), LockMu) => if s.mu == None then Some(At(s, t, Editing(r)).(mu := Some(t))) else None
      case (Editing(r), Copy) =>
        (match Planned(env, s.mem, Open(s), r)
         case Nothing => Some(At(s, t, Leaving).(mu := None))
         case Edit(copy, writes) => Some(At(s, t, Saving(copy, writes)).(mu := None, taken := Taken(s, r), asked := Some(Asked(r, Open(s))))))
      case (Saving(copy, writes), SaveOk) =>
        Some(At(s, t, Writing(writes)).(disk := Some(N(env, copy)), log := s.log + writes, stamps := s.stamps + Stamped(s),
                                       saved := s.saved + if s.asked.Some? then [s.asked.value] else []))
      case (Saving(_, _), SaveFail) => Some(At(s, t, Leaving))
      case (Writing(writes), LockMu) => if s.mu == None then Some(At(s, t, Committing(writes)).(mu := Some(t))) else None
      case (Committing(writes), WriteField) =>
        if writes == [] then None else Some(At(s, t, Committing(writes[1..])).(mem := Apply(s.mem, writes[0])))
      case (Committing(writes), UnlockMu) => if writes == [] then Some(At(s, t, Leaving).(mu := None)) else None
      case (Leaving, UnlockSave) => Some(s.(threads := s.threads - {t}, saveMu := None))
      case (WantRead, LockMu) => if s.mu == None then Some(At(s, t, Reading).(mu := Some(t))) else None
      case (Reading, UnlockMu) => Some(s.(threads := s.threads - {t}, mu := None))
      case _ => None
  }

  predicate HoldsSave(pc: Pc) { pc.Copying? || pc.Editing? || pc.Saving? || pc.Writing? || pc.Committing? || pc.Leaving? }

  predicate HoldsMu(pc: Pc) { pc.Editing? || pc.Committing? || pc.Reading? }

  /** What is saved but not yet in memory. */
  function Pending(s: Sys): seq<Write> {
    if s.saveMu.Some? && s.saveMu.value in s.threads then
      match s.threads[s.saveMu.value]
      case Writing(ws) => ws
      case Committing(ws) => ws
      case _ => []
    else []
  }

  ghost predicate Locks(s: Sys) {
    && (forall t :: t in s.threads ==> (HoldsSave(s.threads[t]) <==> s.saveMu == Some(t)))
    && (forall t :: t in s.threads ==> (HoldsMu(s.threads[t]) <==> s.mu == Some(t)))
    && (s.saveMu.Some? ==> s.saveMu.value in s.threads) && (s.mu.Some? ==> s.mu.value in s.threads)
  }

  /** Memory, once what is pending has been written, is everything saved applied in order to
      the initial configuration, and the file is that normalized; a copy being saved is the
      memory with its writes, to the normalizer. */
  ghost predicate Inv(env: Env, init: Config, s: Sys) {
    && Locks(s)
    && ApplyAll(s.mem, Pending(s)) == ApplyAll(init, s.log)
    && (s.disk.Some? ==> s.disk.value == N(env, ApplyAll(init, s.log)))
    && (s.saveMu.Some? && s.threads[s.saveMu.value].Saving? ==>
          var pc := s.threads[s.saveMu.value]; N(env, pc.copy) == N(env, ApplyAll(s.mem, pc.writes)))
  }

  function Begin(init: Config): Sys { Sys(map[], None, None, init, None, [], [[]], None, [], None, []) }

  lemma BeginInv(env: Env, init: Config)
    ensures Inv(env, init, Begin(init))
  {
  }

  lemma LocksKept(env: Env, s: Sys, t: Thread, a: Action)
    requires Locks(s) && Step(env, s, t, a).Some?
    ensures Locks(Step(env, s, t, a).value)
  {
    hide Planned, Apply, ApplyAll, N, Open, Taken, Stamped;
  }

  /** What a step does to memory, file and log. */
  lemma ValuesKept(env: Env, init: Config, s: Sys, t: Thread, a: Action)
    requires EnvOk(env) && Inv(env, init, s) && Step(env, s, t, a).Some?
    ensures Inv(env, init, Step(env, s, t, a).value)
  {
    hide Planned, Apply, N;
    LocksKept(env, s, t, a);
    if t in s.threads {
      match s.threads[t]
      case Editing(r) =>
        if Planned(env, s.mem, Open(s), r).Edit? {
          PlanAgrees(env, s.mem, Open(s), r);
        }
      case Saving(copy, writes) =>
        ApplyConcat(init, s.log, writes);
      case Committing(writes) =>
      case _ =>
    }
  }

  // ---- runs -----------------------------------------------------------------------------------

  datatype Event = Event(thread: Thread, action: Action)

  ghost predicate Runs(env: Env, s: Sys, es: seq<Event>, s': Sys)
    decreases |es|
  {
    if es == [] then s == s'
    else
      var n := Step(env, s, es[0].thread, es[0].action);
      n.Some? && Runs(env, n.value, es[1..], s')
  }

  lemma {:induction false} RunKeeps(env: Env, init: Config, s: Sys, es: seq<Event>, s': Sys)
    requires EnvOk(env) && Inv(env, init, s) && Runs(env, s, es, s')
    ensures Inv(env, init, s')
    decreases |es|
  {
    hide Inv, Step;
    if es == [] {
    } else {
      ValuesKept(env, init, s, es[0].thread, es[0].action);
      RunKeeps(env, init, Step(env, s, es[0].thread, es[0].action).value, es[1..], s');
    }
  }

  /** In every interleaving of any number of handlers: whenever `configSaveMu` is free,
      memory is all saved changes applied in order to the initial configuration, none lost,
      and once a save has succeeded the file is memory normalized. */
  lemma FileMatchesMemory(env: Env, init: Config, es: seq<Event>, s: Sys)
    requires EnvOk(env) && Runs(env, Begin(init), es, s) && s.saveMu == None
    ensures s.mem == ApplyAll(init, s.log)
    ensures s.disk.Some? ==> s.disk.value == N(env, s.mem)
  {
    BeginInv(env, init);
    RunKeeps(env, init, Begin(init), es, s);
  }

  /** While one handler holds `configSaveMu`, no other thread's step changes memory, file
      or log; and a save that fails changes none of them either. */
  lemma OthersWait(env: Env, init: Config, s: Sys, t: Thread, u: Thread, a: Action)
    requires Inv(env, init, s) && s.saveMu == Some(t) && Step(env, s, u, a).Some? && (u != t || a == SaveFail)
    ensures var s' := Step(env, s, u, a).value; s'.mem == s.mem && s'.disk == s.disk && s'.log == s.log
  {
    hide Planned, Apply, ApplyAll, N;
  }

  /** A reader under `mu` never sees a handler's fields half written: what it sees is
      everything saved, or everything but the last save. */
  lemma ReadersSeeWhole(env: Env, init: Config, s: Sys, t: Thread)
    requires Inv(env, init, s) && t in s.threads && s.threads[t].Reading?
    ensures ApplyAll(s.mem, Pending(s)) == ApplyAll(init, s.log)
    ensures s.saveMu.Some? ==> !s.threads[s.saveMu.value].Committing?
    ensures Pending(s) != [] ==> s.saveMu.Some? && s.threads[s.saveMu.value] == Writing(Pending(s))
  {
    hide ApplyAll, N;
  }

  /** No deadlock: as long as any thread is under way, some thread can take a step. */
  lemma SomeoneCanStep(env: Env, init: Config, s: Sys, t: Thread)
    requires Inv(env, init, s) && t in s.threads
    ensures exists u, a :: u in s.threads && Step(env, s, u, a).Some?
  {
    hide ApplyAll, N, Apply, Planned;
    var u := if s.mu.Some? then s.mu.value else if s.saveMu.Some? then s.saveMu.value else t;
    assert u in s.threads;
    var a := match s.threads[u]
      case Wanting(_) => LockSave
      case Copying(_) => LockMu
      case Editing(_) => Copy
      case Saving(_, _) => SaveOk
      case Writing(_) => LockMu
      case Committing(ws) => (if ws == [] then UnlockMu else WriteField)
      case Leaving => UnlockSave
      case WantRead => LockMu
      case Reading => UnlockMu;
    assert Step(env, s, u, a).Some?;
  }

  // ---- what is saved stays saved --------------------------------------------------------------------

  /** Configuration d is what the saved requests make of c, one after the other. */
  ghost predicate Serial(env: Env, c: Config, rs: seq<Asked>, d: Config) {
    if rs == [] then c == d
    else
      var (front, last) := (rs[..|rs| - 1], rs[|rs| - 1]);
      exists m :: Serial(env, c, front, m) && Does(env, m, last.window, last.request, d)
  }

  /** Everything saved is what the saved requests asked for, and the copy under way is going to
      be what its request asks for. */
  ghost predicate AskedInv(env: Env, init: Config, s: Sys) {
    && Serial(env, init, s.saved, ApplyAll(init, s.log))
    && (s.saveMu.Some? && s.saveMu.value in s.threads && s.threads[s.saveMu.value].Saving? ==>
          s.asked.Some? && Does(env, s.mem, s.asked.value.window, s.asked.value.request, ApplyAll(s.mem, s.threads[s.saveMu.value].writes)))
  }

  lemma SerialMore(env: Env, c: Config, rs: seq<Asked>, m: Config, q: Asked, d: Config)
    requires Serial(env, c, rs, m) && Does(env, m, q.window, q.request, d)
    ensures Serial(env, c, rs + [q], d)
  {
    var all := rs + [q];
    var (front, last) := (all[..|all| - 1], all[|all| - 1]);
    assert front == rs && last == q;
    assert Serial(env, c, front, m) && Does(env, m, last.window, last.request, d);
  }

  lemma AskedKept(env: Env, init: Config, s: Sys, t: Thread, a: Action)
    requires EnvOk(env) && Inv(env, init, s) && AskedInv(env, init, s) && Step(env, s, t, a).Some?
    ensures AskedInv(env, init, Step(env, s, t, a).value)
  {
    hide Planned, Apply, ApplyAll, N, Does, Serial;
    LocksKept(env, s, t, a);
    assert s.log + [] == s.log;
    OthersHold(s, t);
    if t in s.threads {
      match s.threads[t]
      case Editing(r) => EditAsked(env, s.mem, Open(s), r);
      case Saving(copy, writes) =>
        if a.SaveOk? {
          NoWrites(s.mem);
          ApplyConcat(init, s.log, writes);
          SerialMore(env, init, s.saved, s.mem, s.asked.value, ApplyAll(s.mem, writes));
        }
      case _ =>
    }
  }

  lemma EditAsked(env: Env, c: Config, window: seq<SavedTab>, r: Request)
    requires EnvOk(env)
    ensures var p := Planned(env, c, window, r); p.Edit? ==> Does(env, c, window, r, ApplyAll(c, p.writes))
  {
    hide Planned, ApplyAll, N, Does;
    PlanDoes(env, c, window, r);
  }

  lemma NoWrites(c: Config)
    ensures ApplyAll(c, []) == c
  {
  }

  lemma {:induction false} RunAsked(env: Env, init: Config, s: Sys, es: seq<Event>, s': Sys)
    requires EnvOk(env) && Inv(env, init, s) && AskedInv(env, init, s) && Runs(env, s, es, s')
    ensures AskedInv(env, init, s')
    decreases |es|
  {
    hide Inv, AskedInv, Step;
    if es == [] {
    } else {
      ValuesKept(env, init, s, es[0].thread, es[0].action);
      AskedKept(env, init, s, es[0].thread, es[0].action);
      RunAsked(env, init, Step(env, s, es[0].thread, es[0].action).value, es[1..], s');
    }
  }

  /** In every interleaving of any number of handlers: with `configSaveMu` free, memory is what
      the requests that were saved ask for, taken one after the other in the order they were
      saved, and the file that normalized. */
  lemma RequestsSerial(env: Env, init: Config, es: seq<Event>, s: Sys)
    requires EnvOk(env) && Runs(env, Begin(init), es, s) && s.saveMu == None
    ensures Serial(env, init, s.saved, s.mem)
    ensures s.disk.Some? ==> s.disk.value == N(env, s.mem)
  {
    hide N;
    BeginInv(env, init);
    assert ApplyAll(init, []) == init;
    RunAsked(env, init, Begin(init), es, s);
    FileMatchesMemory(env, init, es, s);
  }

  /** Two requests are about the same setting, or the same host. */
  predicate Touching(a: Request, b: Request) {
    match a
    case UnlockMethod(_) => b.UnlockMethod?
    case SaveTabs(_) => b.SaveTabs? || b.WindowTabs?
    case WindowTabs => b.SaveTabs? || b.WindowTabs?
    case Address(_) => b.Address?
    case HideRecent(_) => b.HideRecent?
    case Passwords(_) => b.Passwords?
    case SearchWith(_) => b.SearchWith?
    case UseExitNode(_) => b.UseExitNode?
    case Appearance(_, _, _, _, _) => b.Appearance?
    case DebugLog(_) => b.DebugLog?
    case _ => (b.PatchHost? || b.DeleteHost? || b.TrustKey?) && a.host == b.host
  }

  lemma OthersKeep(env: Env, c: Config, window: seq<SavedTab>, r: Request, d: Config, other: Request, e: Config)
    requires Granted(env, c, window, r, d) && OnlyThat(other, d, e) && !Touching(r, other)
    ensures Granted(env, c, window, r, e)
  {
    hide H.Firsts, H.Upto, OnlyThat;
    if r.PatchHost? || r.DeleteHost? || r.TrustKey? {
      HostUntouched(r.host, other, d, e);
    } else {
      FieldsUntouched(r, other, d, e);
    }
  }

  lemma FieldsUntouched(r: Request, other: Request, d: Config, e: Config)
    requires OnlyThat(other, d, e) && !Touching(r, other) && !r.PatchHost? && !r.DeleteHost? && !r.TrustKey?
    ensures r.UnlockMethod? ==> e.unlock == d.unlock
    ensures r.SaveTabs? || r.WindowTabs? ==> e.tabs == d.tabs
    ensures r.Address? ==> e.history == d.history
    ensures r.HideRecent? ==> e.recent == d.recent
    ensures r.Passwords? ==> e.savePasswords == d.savePasswords
    ensures r.SearchWith? ==> e.search == d.search
    ensures r.UseExitNode? ==> e.exitNode == d.exitNode
    ensures r.DebugLog? ==> e.debug == d.debug
    ensures r.Appearance? ==> e.fontSize == d.fontSize && e.font == d.font && e.theme == d.theme && e.restore == d.restore && e.auto == d.auto
  {
    if other.PatchHost? || other.DeleteHost? || other.TrustKey? {
      assert e == d.(hosts := e.hosts);
    }
  }

  lemma HostUntouched(host: string, other: Request, d: Config, e: Config)
    requires OnlyThat(other, d, e) && !((other.PatchHost? || other.DeleteHost? || other.TrustKey?) && other.host == host)
    ensures (host in d.hosts <==> host in e.hosts) && (host in d.hosts ==> e.hosts[host] == d.hosts[host])
  {
    if other.PatchHost? || other.DeleteHost? || other.TrustKey? {
      assert host in d.hosts - {other.host} <==> host in d.hosts;
      assert host in e.hosts - {other.host} <==> host in e.hosts;
    }
  }

  lemma {:induction false} GrantedLast(env: Env, init: Config, rs: seq<Asked>, d: Config, k: nat)
    requires Serial(env, init, rs, d) && k < |rs| && forall i :: k < i < |rs| ==> !Touching(rs[k].request, rs[i].request)
    ensures exists c :: Serial(env, init, rs[..k], c) && Granted(env, c, rs[k].window, rs[k].request, d)
    decreases |rs|
  {
    hide Granted, OnlyThat, Touching;
    var n := |rs| - 1;
    var m :| Serial(env, init, rs[..n], m) && Does(env, m, rs[n].window, rs[n].request, d);
    if k < n {
      GrantedLast(env, init, rs[..n], m, k);
      assert rs[..n][..k] == rs[..k];
      var c :| Serial(env, init, rs[..k], c) && Granted(env, c, rs[k].window, rs[k].request, m);
      OthersKeep(env, c, rs[k].window, rs[k].request, m, rs[n].request, d);
    }
  }

  /** An update is never lost to one of another setting, or of another host: with
      `configSaveMu` free, memory shows what every saved request asked for, given what the
      requests saved before it had made, unless a later one was about the same. */
  lemma UpdateNotLost(env: Env, init: Config, es: seq<Event>, s: Sys, k: nat)
    requires EnvOk(env) && Runs(env, Begin(init), es, s) && s.saveMu == None && k < |s.saved|
    requires forall i :: k < i < |s.saved| ==> !Touching(s.saved[k].request, s.saved[i].request)
    ensures exists c :: Serial(env, init, s.saved[..k], c) && Granted(env, c, s.saved[k].window, s.saved[k].request, s.mem)
  {
    RequestsSerial(env, init, es, s);
    GrantedLast(env, init, s.saved, s.mem, k);
  }

  // ---- the open tabs -----------------------------------------------------------------------------

  /** Each stamp marks a saved list of tabs; later ones mark no older list. */
  ghost predicate StampsOk(s: Sys) {
    && (forall p :: 0 <= p < |s.stamps| ==> StampOk(s, s.stamps[p]))
    && (forall p, q :: 0 <= p < q < |s.stamps| ==> s.stamps[p].list <= s.stamps[q].list)
  }

  predicate StampOk(s: Sys, m: Stamp) {
    m.list < |s.window| && m.place < |s.log| && s.log[m.place] == SetTabs(s.window[m.list])
  }

  /** A copy under way that has taken the window's tabs is going to save that list, which is
      none older than those saved. */
  ghost predicate TakenOk(s: Sys) {
    s.saveMu.Some? && s.saveMu.value in s.threads && s.threads[s.saveMu.value].Saving? && s.taken.Some? ==>
      && s.taken.value < |s.window| && s.threads[s.saveMu.value].writes == [SetTabs(s.window[s.taken.value])]
      && forall p :: 0 <= p < |s.stamps| ==> s.stamps[p].list <= s.taken.value
  }

  ghost predicate TabsInv(s: Sys) { Locks(s) && s.window != [] && StampsOk(s) && TakenOk(s) }

  lemma PlanOfWindow(env: Env, c: Config, window: seq<SavedTab>)
    ensures Planned(env, c, window, WindowTabs).Edit? && Planned(env, c, window, WindowTabs).writes == [SetTabs(window)]
  {
  }

  lemma StampsGrow(s: Sys, s': Sys)
    requires StampsOk(s) && s.window <= s'.window && s.log <= s'.log && s'.stamps == s.stamps
    ensures StampsOk(s')
  {
    forall p | 0 <= p < |s'.stamps| ensures StampOk(s', s'.stamps[p]) {
      assert StampOk(s, s.stamps[p]);
    }
  }

  lemma TabsKept(env: Env, s: Sys, t: Thread, a: Action)
    requires TabsInv(s) && Step(env, s, t, a).Some?
    ensures TabsInv(Step(env, s, t, a).value)
  {
    hide Planned, Apply, ApplyAll, N, StampsOk;
    LocksKept(env, s, t, a);
    var s' := Step(env, s, t, a).value;
    if t in s.threads && s.threads[t].Saving? && a.SaveOk? {
      SavedTabsKept(env, s, t);
    } else {
      assert s.log + [] == s.log;
      StampsGrow(s, s');
      OthersHold(s, t);
      if t in s.threads && s.threads[t].Editing? && s.threads[t].request.WindowTabs? && a.Copy? {
        PlanOfWindow(env, s.mem, Open(s));
        StampsBelow(s);
      }
    }
  }

  lemma StampsBelow(s: Sys)
    requires StampsOk(s)
    ensures forall p :: 0 <= p < |s.stamps| ==> s.stamps[p].list <= |s.window| - 1
  {
    forall p | 0 <= p < |s.stamps| ensures s.stamps[p].list <= |s.window| - 1 {
      assert StampOk(s, s.stamps[p]);
    }
  }

  lemma OthersHold(s: Sys, t: Thread)
    requires Locks(s)
    ensures s.saveMu.Some? && s.saveMu.value in s.threads && s.threads[s.saveMu.value].Saving? && t != s.saveMu.value ==>
              t !in s.threads || !HoldsSave(s.threads[t])
  {
  }

  lemma SavedTabsKept(env: Env, s: Sys, t: Thread)
    requires TabsInv(s) && t in s.threads && s.threads[t].Saving?
    ensures var s' := Step(env, s, t, SaveOk).value; StampsOk(s') && TakenOk(s')
  {
    hide N;
    var s' := Step(env, s, t, SaveOk).value;
    assert s.saveMu == Some(t);
    forall p | 0 <= p < |s'.stamps| ensures StampOk(s', s'.stamps[p]) {
      if p < |s.stamps| {
        assert StampOk(s, s.stamps[p]);
      }
    }
  }

  lemma {:induction false} RunKeepsTabs(env: Env, s: Sys, es: seq<Event>, s': Sys)
    requires TabsInv(s) && Runs(env, s, es, s')
    ensures TabsInv(s')
    decreases |es|
  {
    hide TabsInv, Step;
    if es == [] {
    } else {
      TabsKept(env, s, es[0].thread, es[0].action);
      RunKeepsTabs(env, Step(env, s, es[0].thread, es[0].action).value, es[1..], s');
    }
  }

  /** In every interleaving: a later save of the open tabs never stores an older list of
      them than an earlier one, however the requests to save them were ordered. */
  lemma TabsInOrder(env: Env, init: Config, es: seq<Event>, s: Sys, p: nat, q: nat)
    requires Runs(env, Begin(init), es, s) && p < q < |s.stamps|
    ensures s.stamps[p].list <= s.stamps[q].list < |s.window|
    ensures StampOk(s, s.stamps[p]) && StampOk(s, s.stamps[q])
  {
    RunKeepsTabs(env, Begin(init), es, s);
  }

  /** Stamps from n on, and the copy under way, hold list k or a later one. */
  ghost predicate FreshFrom(s: Sys, n: nat, k: nat) {
    && |s.stamps| >= n && k < |s.window| && (forall p :: n <= p < |s.stamps| ==> s.stamps[p].list >= k)
    && (s.saveMu.Some? && s.saveMu.value in s.threads && s.threads[s.saveMu.value].Saving? && s.taken.Some? ==> s.taken.value >= k)
  }

  lemma FreshKept(env: Env, s: Sys, t: Thread, a: Action, n: nat, k: nat)
    requires TabsInv(s) && FreshFrom(s, n, k) && Step(env, s, t, a).Some?
    ensures FreshFrom(Step(env, s, t, a).value, n, k)
  {
    hide Planned, Apply, ApplyAll, N, StampsOk, TakenOk;
    OthersHold(s, t);
  }

  lemma {:induction false} RunFresh(env: Env, s: Sys, es: seq<Event>, s': Sys, n: nat, k: nat)
    requires TabsInv(s) && FreshFrom(s, n, k) && Runs(env, s, es, s')
    ensures FreshFrom(s', n, k)
    decreases |es|
  {
    hide TabsInv, FreshFrom, Step;
    if es == [] {
    } else {
      TabsKept(env, s, es[0].thread, es[0].action);
      FreshKept(env, s, es[0].thread, es[0].action, n, k);
      RunFresh(env, Step(env, s, es[0].thread, es[0].action).value, es[1..], s', n, k);
    }
  }

  /** What is saved of the tabs from a moment on at which `configSaveMu` is free is the list
      open at that moment or a later one: so a save asked for behind a change never misses
      it, whoever else saves meanwhile. */
  lemma LaterSavesSeeChange(env: Env, init: Config, es: seq<Event>, s: Sys, more: seq<Event>, s': Sys, p: nat)
    requires Runs(env, Begin(init), es, s) && s.saveMu == None && Runs(env, s, more, s')
    requires |s.stamps| <= p < |s'.stamps|
    ensures s'.stamps[p].list >= |s.window| - 1
  {
    RunKeepsTabs(env, Begin(init), es, s);
    RunFresh(env, s, more, s', |s.stamps|, |s.window| - 1);
  }

  // ---- trust on first use -----------------------------------------------------------------------------

  /** What the requests under way may still do to a host's trusted key: nothing, unless
      they delete the host. */
  predicate KeepsKey(w: Write, host: string, key: string) {
    match w
    case SetHost(h, conf) => h == host ==> conf.hostKey == key
    case DropHost(h) => h != host
    case _ => true
  }

  /** A request that is not the deletion of the host never replaces a key once stored: not a
      patch, and not a connection that presents another key. */
  lemma TrustKept(env: Env, c: Config, window: seq<SavedTab>, r: Request, host: string)
    requires Checked(env, r) && Planned(env, c, window, r).Edit? && r != DeleteHost(host) && Entry(c, host).hostKey != ""
    ensures forall i :: 0 <= i < |Planned(env, c, window, r).writes| ==>
              KeepsKey(Planned(env, c, window, r).writes[i], host, Entry(c, host).hostKey)
    ensures Entry(ApplyAll(c, Planned(env, c, window, r).writes), host).hostKey == Entry(c, host).hostKey
  {
    hide N, ApplyAll, Font, FontSize;
    var p := Planned(env, c, window, r);
    if r.PatchHost? || r.TrustKey? || r.DeleteHost? {
      OneWrite(c, p.writes);
    } else {
      forall i | 0 <= i < |p.writes| ensures !p.writes[i].SetHost? && !p.writes[i].DropHost? {
      }
      HostsKept(c, p.writes);
    }
  }

  lemma {:induction false} HostsKept(c: Config, ws: seq<Write>)
    requires forall i :: 0 <= i < |ws| ==> !ws[i].SetHost? && !ws[i].DropHost?
    ensures ApplyAll(c, ws).hosts == c.hosts
    decreases |ws|
  {
    if ws == [] {
    } else {
      assert !ws[0].SetHost? && !ws[0].DropHost?;
      HostsKept(Apply(c, ws[0]), ws[1..]);
    }
  }

  /** A thread that is not about to delete the host or to write another key for it. */
  ghost predicate ThreadKeeps(env: Env, pc: Pc, host: string, key: string) {
    match pc
    case Wanting(r) => Checked(env, r) && r != DeleteHost(host)
    case Copying(r) => Checked(env, r) && r != DeleteHost(host)
    case Editing(r) => Checked(env, r) && r != DeleteHost(host)
    case Saving(_, ws) => AllKeep(ws, host, key)
    case Writing(ws) => AllKeep(ws, host, key)
    case Committing(ws) => AllKeep(ws, host, key)
    case _ => true
  }

  ghost predicate TrustInv(env: Env, s: Sys, host: string, key: string) {
    && Entry(s.mem, host).hostKey == key
    && forall t :: t in s.threads ==> ThreadKeeps(env, s.threads[t], host, key)
  }

  predicate AllKeep(ws: seq<Write>, host: string, key: string) {
    forall i :: 0 <= i < |ws| ==> KeepsKey(ws[i], host, key)
  }

  /** What the thread that takes a step is about to do behind it. */
  lemma ThreadStep(env: Env, s: Sys, t: Thread, a: Action, host: string, key: string)
    requires TrustInv(env, s, host, key) && key != "" && Step(env, s, t, a).Some?
    requires a.Ask? ==> Checked(env, a.request) && a.request != DeleteHost(host)
    ensures var s' := Step(env, s, t, a).value;
            && (t in s'.threads ==> ThreadKeeps(env, s'.threads[t], host, key))
            && Entry(s'.mem, host).hostKey == key
  {
    hide Planned, N, Checked, Apply, Entry, KeepsKey;
    if t in s.threads {
      assert ThreadKeeps(env, s.threads[t], host, key);
      match s.threads[t]
      case Editing(r) =>
        if Planned(env, s.mem, Open(s), r).Edit? {
          TrustKept(env, s.mem, Open(s), r, host);
        }
      case Committing(ws) =>
        if ws != [] {
          WriteKeeps(s.mem, ws[0], host, key);
        }
      case _ =>
    }
  }

  lemma WriteKeeps(c: Config, w: Write, host: string, key: string)
    requires KeepsKey(w, host, key) && key != "" && Entry(c, host).hostKey == key
    ensures Entry(Apply(c, w), host).hostKey == key
  {
  }

  lemma OthersStay(env: Env, s: Sys, t: Thread, a: Action, u: Thread)
    requires Step(env, s, t, a).Some? && u != t
    ensures var s' := Step(env, s, t, a).value;
            (u in s'.threads <==> u in s.threads) && (u in s.threads ==> s'.threads[u] == s.threads[u])
  {
    hide Planned, N, Apply;
  }

  lemma TrustStep(env: Env, s: Sys, t: Thread, a: Action, host: string, key: string)
    requires TrustInv(env, s, host, key) && key != "" && Step(env, s, t, a).Some?
    requires a.Ask? ==> Checked(env, a.request) && a.request != DeleteHost(host)
    ensures TrustInv(env, Step(env, s, t, a).value, host, key)
  {
    hide Step, ThreadKeeps, Checked;
    ThreadStep(env, s, t, a, host, key);
    var s' := Step(env, s, t, a).value;
    forall u | u in s'.threads ensures ThreadKeeps(env, s'.threads[u], host, key) {
      if u != t {
        OthersStay(env, s, t, a, u);
      }
    }
  }

  /** Trust on first use: whatever patches, connections and other changes are under way or
      still come, in any interleaving, the key of a host stays as it is as long as nobody
      asks for the host to be deleted. */
  lemma {:induction false} TrustStays(env: Env, s: Sys, es: seq<Event>, s': Sys, host: string, key: string)
    requires TrustInv(env, s, host, key) && key != "" && Runs(env, s, es, s')
    requires forall i :: 0 <= i < |es| && es[i].action.Ask? ==>
               Checked(env, es[i].action.request) && es[i].action.request != DeleteHost(host)
    ensures Entry(s'.mem, host).hostKey == key
    decreases |es|
  {
    hide TrustInv, Step, Checked;
    if es == [] {
      assert Entry(s.mem, host).hostKey == key by { TrustNow(env, s, host, key); }
    } else {
      TrustStep(env, s, es[0].thread, es[0].action, host, key);
      TrustStays(env, Step(env, s, es[0].thread, es[0].action).value, es[1..], s', host, key);
    }
  }

  lemma TrustNow(env: Env, s: Sys, host: string, key: string)
    requires TrustInv(env, s, host, key)
    ensures Entry(s.mem, host).hostKey == key
  {
  }
}
