/**
 * One login of the desktop shell's LoginManager: timers, cookie and storage replies, the window's
 * close event and cancellation arrive in any order.
 */
module LoginManager {
  import opened JsText
  import Headers = LoginHeaderCapture

  datatype Source =
    | CookieSource(name: string, domain: string)
    | StorageSource(name: string)
    | HeaderSource(name: string)

  /** `lower` stands for String.prototype.toLowerCase. */
  datatype Config = Config(providerId: string, sources: seq<Source>, lower: string -> string)

  datatype Cookie = Cookie(name: string, domain: string, value: string)

  /** What storage lookups return for an absent item is null, here None. */
  type Credentials = map<string, Option<string>>

  datatype TimerKind = MinTimeTimer | OverallTimer | PollTimer

  datatype Request = CookieRequest | StorageRequest(credentials: Credentials)

  datatype StatusKind = Starting | Navigating | Detected | Waiting | Complete | Error | Cancelled

  datatype Status = Status(kind: StatusKind, providerId: Option<string>)

  datatype Outcome = Success(credentials: Credentials) | Failure(error: string)

  datatype CookieReply = Cookies(cookies: seq<Cookie>, windowAlive: bool) | CookiesRejected

  /** `NoValues` is a rejected script or a reply that is no object. */
  datatype StorageReply = Values(values: Credentials) | NoValues

  datatype Event =
    | Navigated(validUrl: bool, matchesSuccess: bool)
    | HeadersSeen(headers: Headers.Request)
    | WindowClosed
    | TimerFired(id: nat)
    | CookiesReturned(id: nat, cookieReply: CookieReply)
    | StorageReturned(id: nat, storageReply: StorageReply)
    | CancelCalled

  /**
   * What surrounds the manager: locals of its callbacks, timers and requests outstanding, and what
   * this login has emitted, which is its status events and the calls that settle its promise.
   */
  datatype World = World(
    navigated: bool,
    polls: nat,
    armed: map<nat, TimerKind>,
    pending: map<nat, Request>,
    nextId: nat,
    statuses: seq<Status>,
    outcomes: seq<Outcome>)

  /** The manager's fields, and its world. */
  datatype Login = Login(
    completed: bool,
    active: Option<string>,
    minTimer: Option<nat>,
    overallTimer: Option<nat>,
    pollTimer: Option<nat>,
    windowOpen: bool,
    headers: map<string, string>,
    world: World)

  // ----- sources and credentials -----

  predicate Contains(s: string, t: string) {
    exists i :: 0 <= i <= |s| && t <= s[i..]
  }

  predicate CookieMatches(source: Source, c: Cookie)
    requires source.CookieSource?
  {
    var d := source.domain;
    c.name == source.name && (d == "" || Contains(c.domain, if d[0] == '.' then d[1..] else d))
  }

  function FindCookie(source: Source, cookies: seq<Cookie>): Option<string>
    requires source.CookieSource?
  {
    if cookies == [] then None
    else if CookieMatches(source, cookies[0]) then Some(cookies[0].value)
    else FindCookie(source, cookies[1..])
  }

  /** The cookie values found for the given sources, a later source of the same name winning. */
  function CookieValues(sources: seq<Source>, cookies: seq<Cookie>): Credentials {
    if sources == [] then map[]
    else
      var last := sources[|sources| - 1];
      var before := CookieValues(sources[..|sources| - 1], cookies);
      if last.CookieSource? && FindCookie(last, cookies).Some?
      then before[last.name := FindCookie(last, cookies)] else before
  }

  function HeaderValues(headers: map<string, string>): Credentials {
    map k | k in headers :: Some(headers[k])
  }

  predicate NeedsStorage(cfg: Config) {
    exists s :: s in cfg.sources && s.StorageSource?
  }

  /** Every source's key is present in the credentials, whatever its value. */
  predicate AllFound(cfg: Config, credentials: Credentials) {
    forall s :: s in cfg.sources ==> s.name in credentials
  }

  /** The names of the header sources, in order. */
  function HeaderNames(sources: seq<Source>): (names: seq<string>)
    ensures forall n :: n in names <==> HeaderSource(n) in sources
  {
    if sources == [] then []
    else (if sources[0].HeaderSource? then [sources[0].name] else []) + HeaderNames(sources[1..])
  }

  function Captured(cfg: Config, held: map<string, string>, request: Headers.Request): map<string, string> {
    Headers.Captured(cfg.lower, HeaderNames(cfg.sources), held, request)
  }

  // ----- steps -----

  predicate TerminalKind(k: StatusKind) {
    k.Complete? || k.Error? || k.Cancelled?
  }

  function Disarm(armed: map<nat, TimerKind>, timer: Option<nat>): map<nat, TimerKind> {
    if timer.Some? then armed - {timer.value} else armed
  }

  function Emitted(w: World, kind: StatusKind, provider: Option<string>): World {
    w.(statuses := w.statuses + [Status(kind, provider)])
  }

  function Resolved(w: World, outcome: Outcome): World {
    w.(outcomes := w.outcomes + [outcome])
  }

  function Arm(w: World, kind: TimerKind): World {
    w.(armed := w.armed[w.nextId := kind], nextId := w.nextId + 1)
  }

  function Cleaned(s: Login): Login {
    Login(true, None, None, None, None, false, map[],
          s.world.(armed := Disarm(Disarm(Disarm(s.world.armed, s.minTimer), s.overallTimer), s.pollTimer)))
  }

  function Settle(s: Login, kind: StatusKind, provider: Option<string>, outcome: Outcome): Login {
    var t := Cleaned(s);
    t.(world := Resolved(Emitted(t.world, kind, provider), outcome))
  }

  function ArmPoll(s: Login): Login {
    s.(pollTimer := Some(s.world.nextId), world := Arm(s.world, PollTimer))
  }

  function Ask(s: Login, r: Request): Login {
    s.(world := s.world.(pending := s.world.pending[s.world.nextId := r], nextId := s.world.nextId + 1))
  }

  function Polled(cfg: Config, s: Login): Login {
    var w := s.world.(polls := s.world.polls + 1);
    Ask(s.(world := if w.polls % 30 == 0 then Emitted(w, Waiting, Some(cfg.providerId)) else w), CookieRequest)
  }

  function Checked(cfg: Config, s: Login, credentials: Credentials): Login {
    if s.completed then s
    else if AllFound(cfg, credentials) && credentials != map[]
    then Settle(s, Complete, Some(cfg.providerId), Success(credentials))
    else ArmPoll(s)
  }

  function Visited(cfg: Config, s: Login, validUrl: bool, matchesSuccess: bool): Login {
    if s.completed || !validUrl then s
    else
      var provider := Some(cfg.providerId);
      var w := if s.world.navigated && matchesSuccess then Emitted(s.world, Detected, provider) else s.world;
      s.(world := Emitted(w.(navigated := true), Navigating, provider))
  }

  function Fired(cfg: Config, s: Login, id: nat): Login {
    if id !in s.world.armed then s
    else
      var t := s.(world := s.world.(armed := s.world.armed - {id}));
      if s.completed then t
      else match s.world.armed[id]
        case MinTimeTimer => ArmPoll(t.(world := t.world.(polls := 0)))
        case OverallTimer => Settle(t, Error, Some(cfg.providerId), Failure("Login timed out"))
        case PollTimer => Polled(cfg, t)
  }

  function Answered(s: Login, id: nat): Login {
    s.(world := s.world.(pending := s.world.pending - {id}))
  }

  function CookiesSeen(cfg: Config, s: Login, id: nat, reply: CookieReply): Login {
    if id !in s.world.pending || !s.world.pending[id].CookieRequest? then s
    else
      var t := Answered(s, id);
      if s.completed then t
      else match reply
        case CookiesRejected => ArmPoll(t)
        case Cookies(cookies, windowAlive) =>
          var credentials := HeaderValues(s.headers) + CookieValues(cfg.sources, cookies);
          if NeedsStorage(cfg) && s.windowOpen && windowAlive then Ask(t, StorageRequest(credentials))
          else Checked(cfg, t, credentials)
  }

  function StorageSeen(cfg: Config, s: Login, id: nat, reply: StorageReply): Login {
    if id !in s.world.pending || !s.world.pending[id].StorageRequest? then s
    else
      var found := if reply.Values? then reply.values else map[];
      Checked(cfg, Answered(s, id), s.world.pending[id].credentials + found)
  }

  function Step(cfg: Config, s: Login, e: Event): Login {
    match e
    case Navigated(validUrl, matchesSuccess) => Visited(cfg, s, validUrl, matchesSuccess)
    case HeadersSeen(request) => s.(headers := Captured(cfg, s.headers, request))
    case WindowClosed =>
      if s.completed then s else Settle(s, Cancelled, Some(cfg.providerId), Failure("Login window closed"))
    case TimerFired(id) => Fired(cfg, s, id)
    case CookiesReturned(id, reply) => CookiesSeen(cfg, s, id, reply)
    case StorageReturned(id, reply) => StorageSeen(cfg, s, id, reply)
    // The provider id is read after the clean-up has cleared it.
    case CancelCalled => if s.active.None? then s else Settle(s, Cancelled, None, Failure("Login cancelled"))
  }

  function Run(cfg: Config, s: Login, events: seq<Event>): Login
    decreases |events|
  {
    if events == [] then s else Run(cfg, Step(cfg, s, events[0]), events[1..])
  }

  /** A manager no login is using. Headers may have been captured since the last one. */
  predicate Idle(s: Login) {
    && s.active.None? && s.world.armed == map[] && s.world.pending == map[] && !s.windowOpen
    && s.minTimer.None? && s.overallTimer.None? && s.pollTimer.None?
  }

  function Opened(cfg: Config, s: Login): Login {
    var w := Emitted(s.world, Navigating, Some(cfg.providerId));
    s.(windowOpen := true, minTimer := Some(w.nextId), overallTimer := Some(w.nextId + 1),
       world := Arm(Arm(w, MinTimeTimer), OverallTimer))
  }

  /** The state a started login leaves behind; `opens` is false when opening the window throws. */
  function Started(cfg: Config, s: Login, opens: bool): Login {
    var provider := Some(cfg.providerId);
    var w := s.world.(navigated := false, statuses := [Status(Starting, provider)], outcomes := []);
    var t := s.(active := provider, completed := false, world := w);
    if opens then Opened(cfg, t) else Settle(t, Error, provider, Failure("Failed to open window"))
  }

  // ----- the manager -----

  class Manager {
    var completed: bool
    var active: Option<string>
    var minTimer: Option<nat>
    var overallTimer: Option<nat>
    var pollTimer: Option<nat>
    var windowOpen: bool
    var headers: map<string, string>
    var world: World

    constructor ()
      ensures View() == Fresh() && Idle(View())
    {
      completed, active, windowOpen, headers := false, None, false, map[];
      minTimer, overallTimer, pollTimer := None, None, None;
      world := World(false, 0, map[], map[], 0, [], []);
    }

    function View(): Login
      reads this
    {
      Login(completed, active, minTimer, overallTimer, pollTimer, windowOpen, headers, world)
    }

    method SetTimer(kind: TimerKind) returns (id: nat)
      modifies this`world
      ensures id == old(world).nextId && world == Arm(old(world), kind)
    {
      id := world.nextId;
      world := Arm(world, kind);
    }

    method ClearTimer(timer: Option<nat>)
      modifies this`world
      ensures world == old(world).(armed := Disarm(old(world).armed, timer))
    {
      if timer.Some? {
        world := world.(armed := world.armed - {timer.value});
      }
    }

    method Emit(kind: StatusKind, provider: Option<string>)
      modifies this`world
      ensures world == Emitted(old(world), kind, provider)
    {
      world := world.(statuses := world.statuses + [Status(kind, provider)]);
    }

    method Resolve(outcome: Outcome)
      modifies this`world
      ensures world == Resolved(old(world), outcome)
    {
      world := world.(outcomes := world.outcomes + [outcome]);
    }

    method Cleanup()
      modifies this
      ensures View() == Cleaned(old(View()))
    {
      completed := true;
      active := None;
      ClearTimer(minTimer);
      minTimer := None;
      ClearTimer(overallTimer);
      overallTimer := None;
      ClearTimer(pollTimer);
      pollTimer := None;
      windowOpen := false;
      headers := map[];
    }

    method Finish(kind: StatusKind, provider: Option<string>, outcome: Outcome)
      modifies this
      ensures View() == Settle(old(View()), kind, provider, outcome)
    {
      Cleanup();
      Emit(kind, provider);
      Resolve(outcome);
    }

    /** Refused when the provider is unknown (None) or a login is under way; otherwise starts one. */
    method StartLogin(config: Option<Config>, opens: bool) returns (refused: Option<Outcome>)
      modifies this
      ensures config.None? || old(active).Some? ==>
                refused.Some? && refused.value.Failure? && View() == old(View())
      ensures config.Some? && old(active).None? ==>
                refused.None? && View() == Started(config.value, old(View()), opens)
    {
      if config.None? {
        return Some(Failure("No extraction config for provider"));
      }
      if active.Some? {
        return Some(Failure("A login process is already in progress"));
      }
      var provider := Some(config.value.providerId);
      active, completed := provider, false;
      world := world.(navigated := false, statuses := [Status(Starting, provider)], outcomes := []);
      if opens {
        OpenLoginWindow(config.value);
      } else {
        Finish(Error, provider, Failure("Failed to open window"));
      }
      return None;
    }

    method OpenLoginWindow(cfg: Config)
      modifies this
      ensures View() == Opened(cfg, old(View()))
    {
      windowOpen := true;
      Emit(Navigating, Some(cfg.providerId));
      var min := SetTimer(MinTimeTimer);
      minTimer := Some(min);
      var overall := SetTimer(OverallTimer);
      overallTimer := Some(overall);
    }

    method OnNavigate(cfg: Config, validUrl: bool, matchesSuccess: bool)
      modifies this`world
      ensures View() == Step(cfg, old(View()), Navigated(validUrl, matchesSuccess))
    {
      if completed || !validUrl {
        return;
      }
      if world.navigated && matchesSuccess {
        Emit(Detected, Some(cfg.providerId));
      }
      if !world.navigated {
        world := world.(navigated := true);
      }
      Emit(Navigating, Some(cfg.providerId));
    }

    /** The hook is installed only with header sources; without any it would add nothing. */
    method OnRequestHeaders(cfg: Config, request: Headers.Request)
      modifies this`headers
      ensures View() == Step(cfg, old(View()), HeadersSeen(request))
    {
      headers := Headers.CaptureConfiguredHeaders(cfg.lower, HeaderNames(cfg.sources), request, headers);
    }

    method OnClosed(cfg: Config)
      modifies this
      ensures View() == Step(cfg, old(View()), WindowClosed)
    {
      if !completed {
        Finish(Cancelled, Some(cfg.providerId), Failure("Login window closed"));
      }
    }

    method OnTimer(cfg: Config, id: nat)
      modifies this
      ensures View() == Step(cfg, old(View()), TimerFired(id))
    {
      if id !in world.armed {
        return;
      }
      var kind := world.armed[id];
      world := world.(armed := world.armed - {id});
      if completed {
        return;
      }
      match kind
      case MinTimeTimer =>
        world := world.(polls := 0);
        ScheduleNextPoll();
      case OverallTimer =>
        Finish(Error, Some(cfg.providerId), Failure("Login timed out"));
      case PollTimer =>
        Poll(cfg);
    }

    method Poll(cfg: Config)
      modifies this`world
      ensures View() == Polled(cfg, old(View()))
    {
      world := world.(polls := world.polls + 1);
      if world.polls % 30 == 0 {
        Emit(Waiting, Some(cfg.providerId));
      }
      Request(CookieRequest);
    }

    method ScheduleNextPoll()
      modifies this`world, this`pollTimer
      ensures View() == ArmPoll(old(View()))
    {
      var id := SetTimer(PollTimer);
      pollTimer := Some(id);
    }

    method Request(r: Request)
      modifies this`world
      ensures View() == Ask(old(View()), r)
    {
      world := world.(pending := world.pending[world.nextId := r], nextId := world.nextId + 1);
    }

    method OnCookies(cfg: Config, id: nat, reply: CookieReply)
      modifies this
      ensures View() == Step(cfg, old(View()), CookiesReturned(id, reply))
    {
      if id !in world.pending || !world.pending[id].CookieRequest? {
        return;
      }
      world := world.(pending := world.pending - {id});
      if completed {
        return;
      }
      match reply
      case CookiesRejected =>
        ScheduleNextPoll();
      case Cookies(cookies, windowAlive) =>
        var values := MatchCookies(cfg.sources, cookies);
        var credentials := HeaderValues(headers) + values;
        if NeedsStorage(cfg) && windowOpen && windowAlive {
          Request(StorageRequest(credentials));
        } else {
          CheckCredentials(cfg, credentials);
        }
    }

    method MatchCookies(sources: seq<Source>, cookies: seq<Cookie>) returns (values: Credentials)
      ensures values == CookieValues(sources, cookies)
    {
      values := map[];
      for i := 0 to |sources|
        invariant values == CookieValues(sources[..i], cookies)
      {
        assert sources[..i + 1][..i] == sources[..i];
        if sources[i].CookieSource? {
          var matched := FindCookie(sources[i], cookies);
          if matched.Some? {
            values := values[sources[i].name := matched];
          }
        }
      }
      assert sources[..|sources|] == sources;
    }

    method OnStorage(cfg: Config, id: nat, reply: StorageReply)
      modifies this
      ensures View() == Step(cfg, old(View()), StorageReturned(id, reply))
    {
      if id !in world.pending || !world.pending[id].StorageRequest? {
        return;
      }
      var credentials := world.pending[id].credentials;
      world := world.(pending := world.pending - {id});
      credentials := credentials + if reply.Values? then reply.values else map[];
      CheckCredentials(cfg, credentials);
    }

    method CheckCredentials(cfg: Config, credentials: Credentials)
      modifies this
      ensures View() == Checked(cfg, old(View()), credentials)
    {
      if completed {
        return;
      }
      if AllFound(cfg, credentials) && credentials != map[] {
        Finish(Complete, Some(cfg.providerId), Success(credentials));
      } else {
        ScheduleNextPoll();
      }
    }

    method Cancel(cfg: Config)
      modifies this
      ensures View() == Step(cfg, old(View()), CancelCalled)
    {
      if active.None? {
        return;
      }
      Cleanup();
      Emit(Cancelled, active);
      Resolve(Failure("Login cancelled"));
    }
  }

  // ----- invariants -----

  function Held(timer: Option<nat>): set<nat> {
    if timer.Some? then {timer.value} else {}
  }

  predicate NoneTerminal(statuses: seq<Status>) {
    forall s :: s in statuses ==> !TerminalKind(s.kind)
  }

  predicate IdsUsed(s: Login) {
    && (forall id :: id in s.world.armed ==> id < s.world.nextId)
    && (forall id :: id in s.world.pending ==> id < s.world.nextId)
  }

  predicate WaitsForTimer(s: Login, timer: Option<nat>, kind: TimerKind)
    requires s.overallTimer.Some?
  {
    && timer.Some? && timer != s.overallTimer && s.world.pending == map[]
    && s.world.armed == map[s.overallTimer.value := OverallTimer, timer.value := kind]
  }

  predicate WaitsForReply(s: Login)
    requires s.overallTimer.Some?
  {
    && s.world.armed == map[s.overallTimer.value := OverallTimer]
    && exists id :: id in s.world.pending && s.world.pending.Keys == {id}
  }

  /**
   * An unsettled login: the overall timeout is armed, and exactly one further thing is under way,
   * which is the minimum-time timer, a poll timer or one request.
   */
  predicate Live(s: Login) {
    && !s.completed && s.active.Some? && s.windowOpen
    && s.world.outcomes == [] && NoneTerminal(s.world.statuses) && IdsUsed(s)
    && s.overallTimer.Some?
    && (|| WaitsForTimer(s, s.minTimer, MinTimeTimer)
        || WaitsForTimer(s, s.pollTimer, PollTimer)
        || WaitsForReply(s))
  }

  /** A settled login: nothing armed, one outcome, one terminal status, and the two match. */
  predicate Settled(cfg: Config, s: Login) {
    && s.completed && s.active.None? && !s.windowOpen && s.world.armed == map[]
    && s.minTimer.None? && s.overallTimer.None? && s.pollTimer.None?
    && |s.world.outcomes| == 1
    && s.world.statuses != [] && NoneTerminal(Init(s.world.statuses)) && TerminalKind(Last(s.world.statuses).kind)
    && (s.world.outcomes[0].Success? <==> Last(s.world.statuses).kind.Complete?)
    && (s.world.outcomes[0].Success? ==> AllFound(cfg, s.world.outcomes[0].credentials))
  }

  lemma StartEstablishes(cfg: Config, s: Login, opens: bool)
    requires Idle(s)
    ensures opens ==> Live(Started(cfg, s, opens))
    ensures !opens ==> Settled(cfg, Started(cfg, s, opens))
  {
    var t := Started(cfg, s, opens);
    if !opens {
      assert Init(t.world.statuses) == [Status(Starting, Some(cfg.providerId))];
    }
  }

  lemma SettleSettles(cfg: Config, s: Login, kind: StatusKind, provider: Option<string>, outcome: Outcome)
    requires NoneTerminal(s.world.statuses) && s.world.outcomes == [] && TerminalKind(kind)
    requires s.world.armed.Keys <= Held(s.minTimer) + Held(s.overallTimer) + Held(s.pollTimer)
    requires outcome.Success? <==> kind.Complete?
    requires outcome.Success? ==> AllFound(cfg, outcome.credentials)
    ensures Settled(cfg, Settle(s, kind, provider, outcome))
  {
    var t := Settle(s, kind, provider, outcome);
    assert Init(t.world.statuses) == s.world.statuses;
    assert t.world.armed == map[];
  }

  lemma CheckedKeeps(cfg: Config, s: Login, credentials: Credentials)
    requires !s.completed && s.active.Some? && s.windowOpen && s.world.outcomes == [] && NoneTerminal(s.world.statuses)
    requires s.overallTimer.Some? && s.world.armed == map[s.overallTimer.value := OverallTimer]
    requires s.world.pending == map[] && IdsUsed(s)
    ensures Live(Checked(cfg, s, credentials)) || Settled(cfg, Checked(cfg, s, credentials))
  {
    assert s.overallTimer.value in s.world.armed;
    if AllFound(cfg, credentials) && credentials != map[] {
      SettleSettles(cfg, s, Complete, Some(cfg.providerId), Success(credentials));
    } else {
      assert WaitsForTimer(ArmPoll(s), ArmPoll(s).pollTimer, PollTimer);
    }
  }

  /** The request that came back was the only one, so nothing is pending behind it. */
  lemma ReplyConsumed(s: Login, id: nat)
    requires Live(s) && id in s.world.pending
    ensures WaitsForReply(s) && s.world.pending - {id} == map[]
  {
    assert s.world.pending.Keys == {id};
  }

  lemma FiredKeeps(cfg: Config, s: Login, id: nat)
    requires Live(s)
    ensures Live(Fired(cfg, s, id)) || Settled(cfg, Fired(cfg, s, id))
  {
    if id in s.world.armed {
      var t := s.(world := s.world.(armed := s.world.armed - {id}));
      var u := Fired(cfg, s, id);
      if s.world.armed[id].OverallTimer? {
        assert id == s.overallTimer.value;
        SettleSettles(cfg, t, Error, Some(cfg.providerId), Failure("Login timed out"));
      } else {
        assert t.world.armed == map[s.overallTimer.value := OverallTimer];
        assert s.overallTimer.value in t.world.armed;
        if s.world.armed[id].MinTimeTimer? {
          assert WaitsForTimer(u, u.pollTimer, PollTimer);
        } else {
          assert s.world.nextId in u.world.pending && u.world.pending.Keys == {s.world.nextId};
          assert WaitsForReply(u);
        }
      }
    }
  }

  lemma RepliesKeep(cfg: Config, s: Login, e: Event)
    requires Live(s) && (e.CookiesReturned? || e.StorageReturned?)
    ensures Live(Step(cfg, s, e)) || Settled(cfg, Step(cfg, s, e))
  {
    if e.id in s.world.pending {
      ReplyConsumed(s, e.id);
      var t := Answered(s, e.id);
      var u := Step(cfg, s, e);
      assert s.overallTimer.value in s.world.armed;
      if e.StorageReturned? && s.world.pending[e.id].StorageRequest? {
        var found := if e.storageReply.Values? then e.storageReply.values else map[];
        CheckedKeeps(cfg, t, s.world.pending[e.id].credentials + found);
      } else if e.CookiesReturned? && s.world.pending[e.id].CookieRequest? {
        match e.cookieReply
        case CookiesRejected =>
          assert WaitsForTimer(u, u.pollTimer, PollTimer);
        case Cookies(cookies, windowAlive) =>
          var credentials := HeaderValues(s.headers) + CookieValues(cfg.sources, cookies);
          if NeedsStorage(cfg) && windowAlive {
            assert s.world.nextId in u.world.pending && u.world.pending.Keys == {s.world.nextId};
          } else {
            CheckedKeeps(cfg, t, credentials);
          }
      }
    }
  }

  lemma LiveStep(cfg: Config, s: Login, e: Event)
    requires Live(s)
    ensures Live(Step(cfg, s, e)) || Settled(cfg, Step(cfg, s, e))
  {
    match e
    case Navigated(_, _) =>
    case HeadersSeen(_) =>
    case WindowClosed =>
      LiveTimersStored(s);
      SettleSettles(cfg, s, Cancelled, Some(cfg.providerId), Failure("Login window closed"));
    case TimerFired(id) =>
      FiredKeeps(cfg, s, id);
    case CookiesReturned(_, _) =>
      RepliesKeep(cfg, s, e);
    case StorageReturned(_, _) =>
      RepliesKeep(cfg, s, e);
    case CancelCalled =>
      LiveTimersStored(s);
      SettleSettles(cfg, s, Cancelled, None, Failure("Login cancelled"));
  }

  /** Every armed timer is held in one of the three handles, so a clean-up reaches it. */
  lemma LiveTimersStored(s: Login)
    requires Live(s)
    ensures s.world.armed.Keys <= Held(s.minTimer) + Held(s.overallTimer) + Held(s.pollTimer)
  {
  }

  /**
   * After settling, no event touches the promise, the statuses or a timer. A late reply only leaves
   * the queue, and a late request can still put captured headers into the manager.
   */
  lemma LateEventsChangeNothing(cfg: Config, s: Login, e: Event)
    requires Settled(cfg, s)
    ensures Settled(cfg, Step(cfg, s, e))
    ensures Step(cfg, s, e).(world := Step(cfg, s, e).world.(pending := s.world.pending), headers := s.headers) == s
    ensures !e.HeadersSeen? ==> Step(cfg, s, e).headers == s.headers
    ensures !e.CookiesReturned? && !e.StorageReturned? ==> Step(cfg, s, e).world.pending == s.world.pending
  {
  }

  /**
   * The header hook outlives the login: after settling the held headers change exactly when a request
   * offers a value for a configured header that has none.
   */
  lemma LateHeadersChangeExactly(cfg: Config, s: Login, e: Event)
    requires Settled(cfg, s)
    ensures Step(cfg, s, e).headers != s.headers <==>
            e.HeadersSeen? && exists k :: HeaderSource(k) in cfg.sources && Headers.Open(s.headers, k)
                                          && Headers.Offered(cfg.lower, e.headers, k).Some?
  {
    if e.HeadersSeen? {
      var names := HeaderNames(cfg.sources);
      Headers.CaptureChangesExactly(cfg.lower, names, s.headers, e.headers);
      assert forall k :: k in names && Headers.Captures(cfg.lower, names, s.headers, e.headers, k) <==>
                         HeaderSource(k) in cfg.sources && Headers.Open(s.headers, k)
                         && Headers.Offered(cfg.lower, e.headers, k).Some?;
    }
  }

  /** Whatever happens in whatever order, a login is live or settled. */
  lemma {:induction false} RunLiveOrSettled(cfg: Config, s: Login, events: seq<Event>)
    requires Live(s) || Settled(cfg, s)
    ensures Live(Run(cfg, s, events)) || Settled(cfg, Run(cfg, s, events))
    decreases |events|
  {
    if events != [] {
      if Live(s) {
        LiveStep(cfg, s, events[0]);
      } else {
        LateEventsChangeNothing(cfg, s, events[0]);
      }
      RunLiveOrSettled(cfg, Step(cfg, s, events[0]), events[1..]);
    }
  }

  /** The first settlement is final. */
  lemma {:induction false} SettlementIsFinal(cfg: Config, s: Login, events: seq<Event>)
    requires Settled(cfg, s)
    ensures Settled(cfg, Run(cfg, s, events))
    ensures Run(cfg, s, events).world.outcomes == s.world.outcomes
    ensures Run(cfg, s, events).world.statuses == s.world.statuses
    decreases |events|
  {
    if events != [] {
      LateEventsChangeNothing(cfg, s, events[0]);
      SettlementIsFinal(cfg, Step(cfg, s, events[0]), events[1..]);
    }
  }

  /**
   * What holds at every point of a login: at most one settlement, and that exactly when it is completed; then
   * no timer armed, one terminal status that fits the outcome, and every key in a success; before, the overall
   * timeout armed and no terminal status.
   */
  predicate Guaranteed(cfg: Config, r: Login) {
    && |r.world.outcomes| <= 1
    && (r.completed <==> |r.world.outcomes| == 1)
    && (r.completed ==> r.world.armed == map[] && r.active.None?)
    && (!r.completed ==> r.overallTimer.Some? && r.overallTimer.value in r.world.armed
                         && r.world.armed[r.overallTimer.value].OverallTimer? && NoneTerminal(r.world.statuses))
    && (r.completed ==> r.world.statuses != [] && NoneTerminal(Init(r.world.statuses))
                        && TerminalKind(Last(r.world.statuses).kind)
                        && (r.world.outcomes[0].Success? <==> Last(r.world.statuses).kind.Complete?))
    && (r.completed && r.world.outcomes[0].Success? ==> AllFound(cfg, r.world.outcomes[0].credentials))
  }

  /** What a whole login guarantees, from start to any point of any run. */
  lemma LoginGuarantees(cfg: Config, s: Login, opens: bool, events: seq<Event>)
    requires Idle(s)
    ensures Guaranteed(cfg, Run(cfg, Started(cfg, s, opens), events))
  {
    StartEstablishes(cfg, s, opens);
    RunLiveOrSettled(cfg, Started(cfg, s, opens), events);
    var r := Run(cfg, Started(cfg, s, opens), events);
    if !r.completed {
      assert r.overallTimer.value in r.world.armed;
    }
  }

  /**
   * Once its login is settled and every reply has arrived the manager is idle again, so what is guaranteed
   * of a login is guaranteed of the next one too.
   */
  lemma NextLoginGuarantees(cfg: Config, s: Login, opens: bool, events: seq<Event>,
                            next: Config, nextOpens: bool, nextEvents: seq<Event>)
    requires Idle(s)
    requires var r := Run(cfg, Started(cfg, s, opens), events); r.completed && r.world.pending == map[]
    ensures var r := Run(cfg, Started(cfg, s, opens), events);
            Idle(r) && Guaranteed(next, Run(next, Started(next, r, nextOpens), nextEvents))
  {
    StartEstablishes(cfg, s, opens);
    RunLiveOrSettled(cfg, Started(cfg, s, opens), events);
    LoginGuarantees(next, Run(cfg, Started(cfg, s, opens), events), nextOpens, nextEvents);
  }

  /** Firing the overall timer of a live login always settles it. */
  lemma OverallTimeoutSettles(cfg: Config, s: Login)
    requires Live(s)
    ensures Settled(cfg, Step(cfg, s, TimerFired(s.overallTimer.value)))
    ensures Step(cfg, s, TimerFired(s.overallTimer.value)).world.outcomes == [Failure("Login timed out")]
  {
    var id := s.overallTimer.value;
    assert id in s.world.armed && s.world.armed[id].OverallTimer?;
    FiredKeeps(cfg, s, id);
    var t := s.(world := s.world.(armed := s.world.armed - {id}));
    assert Fired(cfg, s, id) == Settle(t, Error, Some(cfg.providerId), Failure("Login timed out"));
  }

  /** Of all events that settle a login, exactly cancelling leaves a last status without the provider. */
  lemma SettlingStatusExactly(cfg: Config, s: Login, e: Event)
    requires Live(s) && Settled(cfg, Step(cfg, s, e))
    ensures Last(Step(cfg, s, e).world.statuses).providerId
         == if e.CancelCalled? then None else Some(cfg.providerId)
  {
    match e
    case TimerFired(id) => SettlingTimer(cfg, s, id);
    case CookiesReturned(_, _) => SettlingReply(cfg, s, e);
    case StorageReturned(_, _) => SettlingReply(cfg, s, e);
    case _ =>
  }

  lemma SettlingTimer(cfg: Config, s: Login, id: nat)
    requires Live(s) && Fired(cfg, s, id).completed
    ensures Last(Fired(cfg, s, id).world.statuses).providerId == Some(cfg.providerId)
  {
  }

  lemma SettlingReply(cfg: Config, s: Login, e: Event)
    requires Live(s) && (e.CookiesReturned? || e.StorageReturned?) && Step(cfg, s, e).completed
    ensures Last(Step(cfg, s, e).world.statuses).providerId == Some(cfg.providerId)
  {
  }

  /** The event of a run that settles a login. */
  function SettledBy(cfg: Config, s: Login, events: seq<Event>): Option<Event>
    decreases |events|
  {
    if events == [] then None
    else if Step(cfg, s, events[0]).completed then Some(events[0])
    else SettledBy(cfg, Step(cfg, s, events[0]), events[1..])
  }

  /** Over whole runs: a login that ended names its provider in its last status exactly unless cancelling ended it. */
  lemma {:induction false} LastStatusExactly(cfg: Config, s: Login, events: seq<Event>)
    requires Live(s) && Run(cfg, s, events).completed
    ensures SettledBy(cfg, s, events).Some? && Settled(cfg, Run(cfg, s, events))
    ensures Last(Run(cfg, s, events).world.statuses).providerId
         == if SettledBy(cfg, s, events).value.CancelCalled? then None else Some(cfg.providerId)
    decreases |events|
  {
    var t := Step(cfg, s, events[0]);
    LiveStep(cfg, s, events[0]);
    if t.completed {
      SettlingStatusExactly(cfg, s, events[0]);
      SettlementIsFinal(cfg, t, events[1..]);
    } else {
      LastStatusExactly(cfg, t, events[1..]);
    }
  }

  /** A new login that is cancelled at once. */
  lemma CancelledStatusNamesNoProvider(cfg: Config)
    ensures Last(CancelledAtOnce(cfg).world.statuses) == Status(Cancelled, None)
  {
    StartEstablishes(cfg, Fresh(), true);
    LiveStep(cfg, Started(cfg, Fresh(), true), CancelCalled);
  }

  // ----- late headers -----

  /** Headers held by an idle manager make a login that needs nothing else succeed at its first poll. */
  lemma HeldHeadersSucceed(cfg: Config, s: Login)
    requires Idle(s) && s.headers != map[]
    requires forall source :: source in cfg.sources ==> source.HeaderSource? && source.name in s.headers
    ensures AfterFirstPoll(cfg, s).world.outcomes == [Success(HeaderValues(s.headers))]
  {
    var n := s.world.nextId;
    FirstPollAsksCookies(cfg, s);
    HeadersAloneComplete(cfg, Polling(cfg, s), n + 3);
  }

  lemma FirstPollAsksCookies(cfg: Config, s: Login)
    requires Idle(s)
    ensures var t := Polling(cfg, s);
            && !t.completed && t.world.outcomes == [] && t.headers == s.headers
            && t.world.pending == map[s.world.nextId + 3 := CookieRequest]
  {
    var n := s.world.nextId;
    var s1 := Step(cfg, Started(cfg, s, true), TimerFired(n));
    assert s1.world.armed == map[n + 1 := OverallTimer, n + 2 := PollTimer];
  }

  lemma HeadersAloneComplete(cfg: Config, s: Login, id: nat)
    requires !s.completed && s.world.outcomes == [] && s.world.pending == map[id := CookieRequest]
    requires s.headers != map[]
    requires forall source :: source in cfg.sources ==> source.HeaderSource? && source.name in s.headers
    ensures Step(cfg, s, CookiesReturned(id, Cookies([], true))).world.outcomes == [Success(HeaderValues(s.headers))]
  {
    NoCookieSources(cfg.sources);
    var found := HeaderValues(s.headers);
    var k :| k in s.headers;
    assert k in found && found + CookieValues(cfg.sources, []) == found;
  }

  lemma {:induction false} NoCookieSources(sources: seq<Source>)
    ensures CookieValues(sources, []) == map[]
  {
    if sources != [] {
      NoCookieSources(sources[..|sources| - 1]);
    }
  }

  /** A new login, cancelled at once. */
  function CancelledAtOnce(cfg: Config): Login {
    Step(cfg, Started(cfg, Fresh(), true), CancelCalled)
  }

  lemma LateHeaderStays(cfg: Config, name: string, value: string)
    requires cfg.sources == [HeaderSource(name)] && value != "" && Trimmed(value)
    ensures Settled(cfg, CancelledAtOnce(cfg)) && CancelledAtOnce(cfg).headers == map[]
    ensures var late := Step(cfg, CancelledAtOnce(cfg), HeadersSeen([(name, Headers.Text(value))]));
            late.headers == map[name := value] && Idle(late)
  {
    StartEstablishes(cfg, Fresh(), true);
    LiveStep(cfg, Started(cfg, Fresh(), true), CancelCalled);
    OneHeaderCaptured(cfg, name, value);
  }

  /** A new login, cancelled, then a late header, then a second login: it succeeds with what the first one left. */
  lemma LateHeaderReachesNextLogin(cfg: Config, name: string, value: string)
    requires cfg.sources == [HeaderSource(name)] && value != "" && Trimmed(value)
    ensures Settled(cfg, CancelledAtOnce(cfg)) && CancelledAtOnce(cfg).headers == map[]
    ensures var late := Step(cfg, CancelledAtOnce(cfg), HeadersSeen([(name, Headers.Text(value))]));
            && late.headers == map[name := value] && Idle(late)
            && AfterFirstPoll(cfg, late).world.outcomes == [Success(map[name := Some(value)])]
  {
    LateHeaderStays(cfg, name, value);
    var late := Step(cfg, CancelledAtOnce(cfg), HeadersSeen([(name, Headers.Text(value))]));
    assert name in late.headers;
    HeldHeadersSucceed(cfg, late);
    assert HeaderValues(late.headers) == map[name := Some(value)];
  }

  lemma OneHeaderCaptured(cfg: Config, name: string, value: string)
    requires cfg.sources == [HeaderSource(name)] && value != "" && Trimmed(value)
    ensures Captured(cfg, map[], [(name, Headers.Text(value))]) == map[name := value]
  {
    var request := [(name, Headers.Text(value))];
    TrimOfTrimmed(value);
    assert HeaderNames(cfg.sources) == [name];
    assert Headers.Offered(cfg.lower, request, name) == Some(value);
  }

  // ----- what decides a login -----

  /** Over every run: a success holds the name of every cookie, storage and header source, and is not empty. */
  lemma SuccessHoldsEveryKey(cfg: Config, s: Login, events: seq<Event>, found: Credentials)
    requires Idle(s) && Run(cfg, Started(cfg, s, true), events).world.outcomes == [Success(found)]
    ensures forall name, domain :: CookieSource(name, domain) in cfg.sources ==> name in found
    ensures forall name :: StorageSource(name) in cfg.sources ==> name in found
    ensures forall name :: HeaderSource(name) in cfg.sources ==> name in found
    ensures found != map[]
  {
    StartEstablishes(cfg, s, true);
    SuccessOverRun(cfg, Started(cfg, s, true), events, found);
  }

  lemma {:induction false} SuccessOverRun(cfg: Config, s: Login, events: seq<Event>, found: Credentials)
    requires Live(s) && Run(cfg, s, events).world.outcomes == [Success(found)]
    ensures found != map[] && forall source :: source in cfg.sources ==> source.name in found
    decreases |events|
  {
    var t := Step(cfg, s, events[0]);
    LiveStep(cfg, s, events[0]);
    if t.completed {
      SettlementIsFinal(cfg, t, events[1..]);
      SuccessInStep(cfg, s, events[0], found);
    } else {
      SuccessOverRun(cfg, t, events[1..], found);
    }
  }

  lemma SuccessInStep(cfg: Config, s: Login, e: Event, found: Credentials)
    requires Live(s) && Step(cfg, s, e).world.outcomes == [Success(found)]
    ensures found != map[] && forall source :: source in cfg.sources ==> source.name in found
  {
    assert Step(cfg, s, e).world.outcomes[0] == Success(found);
    match e
    case TimerFired(id) => NoSuccessFromTimer(cfg, s, id);
    case CookiesReturned(id, reply) => SuccessFromCookies(cfg, s, id, reply, found);
    case StorageReturned(id, reply) => SuccessFromStorage(cfg, s, id, reply, found);
    case _ =>
  }

  lemma NoSuccessFromTimer(cfg: Config, s: Login, id: nat)
    requires Live(s)
    ensures forall o :: o in Fired(cfg, s, id).world.outcomes ==> o.Failure?
  {
  }

  lemma SuccessFromCookies(cfg: Config, s: Login, id: nat, reply: CookieReply, found: Credentials)
    requires Live(s) && CookiesSeen(cfg, s, id, reply).world.outcomes == [Success(found)]
    ensures found != map[] && forall source :: source in cfg.sources ==> source.name in found
  {
    assert CookiesSeen(cfg, s, id, reply).world.outcomes[0] == Success(found);
  }

  lemma SuccessFromStorage(cfg: Config, s: Login, id: nat, reply: StorageReply, found: Credentials)
    requires Live(s) && StorageSeen(cfg, s, id, reply).world.outcomes == [Success(found)]
    ensures found != map[] && forall source :: source in cfg.sources ==> source.name in found
  {
    assert StorageSeen(cfg, s, id, reply).world.outcomes[0] == Success(found);
  }

  /** The login goes on, with a poll timer armed. */
  predicate PollsOn(t: Login) {
    && !t.completed && t.world.outcomes == []
    && t.pollTimer.Some? && t.pollTimer.value in t.world.armed && t.world.armed[t.pollTimer.value].PollTimer?
  }

  /** The login has succeeded with exactly these credentials. */
  predicate SucceededWith(cfg: Config, t: Login, found: Credentials) {
    && t.completed && t.world.outcomes == [Success(found)]
    && t.world.statuses != [] && Last(t.world.statuses) == Status(Complete, Some(cfg.providerId))
  }

  lemma CheckDecides(cfg: Config, s: Login, merged: Credentials)
    requires !s.completed && s.world.outcomes == []
    ensures if merged != map[] && forall source :: source in cfg.sources ==> source.name in merged
            then SucceededWith(cfg, Checked(cfg, s, merged), merged) else PollsOn(Checked(cfg, s, merged))
  {
  }

  /**
   * A storage reply overrides what was gathered before it, and a reply without values adds nothing. A live
   * login succeeds with exactly that if it holds the name of every source and is not empty, and polls on otherwise.
   */
  lemma StorageReplyDecides(cfg: Config, s: Login, id: nat, reply: StorageReply, before: Credentials)
    requires Live(s) && id in s.world.pending && s.world.pending[id] == StorageRequest(before)
    ensures var merged := if reply.Values? then before + reply.values else before;
            var t := Step(cfg, s, StorageReturned(id, reply));
            if merged != map[] && forall source :: source in cfg.sources ==> source.name in merged
            then SucceededWith(cfg, t, merged) else PollsOn(t)
  {
    var none: Credentials := map[];
    assert before + none == before;
    CheckDecides(cfg, Answered(s, id), if reply.Values? then before + reply.values else before);
  }

  /** A cookie source's value: that of the first cookie with its name whose domain contains its own, without a dot. */
  predicate IsCookieOf(name: string, domain: string, c: Cookie) {
    && c.name == name
    && (domain == "" || exists i :: 0 <= i <= |c.domain| &&
                          (if domain[0] == '.' then domain[1..] else domain) <= c.domain[i..])
  }

  predicate IsCookieValue(name: string, domain: string, cookies: seq<Cookie>, v: string) {
    exists i :: 0 <= i < |cookies| && IsCookieOf(name, domain, cookies[i]) && cookies[i].value == v
                && forall j :: 0 <= j < i ==> !IsCookieOf(name, domain, cookies[j])
  }

  lemma {:induction false} CookieFound(source: Source, cookies: seq<Cookie>)
    requires source.CookieSource?
    ensures forall v :: FindCookie(source, cookies) == Some(v) <==>
                        IsCookieValue(source.name, source.domain, cookies, v)
  {
    if cookies != [] {
      CookieFound(source, cookies[1..]);
      MatchesAlike(source, cookies[0]);
      forall v
        ensures IsCookieValue(source.name, source.domain, cookies, v) <==>
                if IsCookieOf(source.name, source.domain, cookies[0]) then v == cookies[0].value
                else IsCookieValue(source.name, source.domain, cookies[1..], v)
      {
        CookieValueStep(source.name, source.domain, cookies, v);
      }
    }
  }

  lemma MatchesAlike(source: Source, c: Cookie)
    requires source.CookieSource?
    ensures CookieMatches(source, c) <==> IsCookieOf(source.name, source.domain, c)
  {
  }

  lemma CookieValueStep(name: string, domain: string, cookies: seq<Cookie>, v: string)
    requires cookies != []
    ensures IsCookieValue(name, domain, cookies, v) <==>
            if IsCookieOf(name, domain, cookies[0]) then v == cookies[0].value
            else IsCookieValue(name, domain, cookies[1..], v)
  {
    var rest := cookies[1..];
    if IsCookieValue(name, domain, rest, v) && !IsCookieOf(name, domain, cookies[0]) {
      var i :| 0 <= i < |rest| && IsCookieOf(name, domain, rest[i]) && rest[i].value == v
               && forall j :: 0 <= j < i ==> !IsCookieOf(name, domain, rest[j]);
      assert cookies[i + 1] == rest[i];
      assert forall j :: 0 < j < i + 1 ==> cookies[j] == rest[j - 1];
    }
    if IsCookieValue(name, domain, cookies, v) && !IsCookieOf(name, domain, cookies[0]) {
      var i :| 0 <= i < |cookies| && IsCookieOf(name, domain, cookies[i]) && cookies[i].value == v
               && forall j :: 0 <= j < i ==> !IsCookieOf(name, domain, cookies[j]);
      assert rest[i - 1] == cookies[i];
      assert forall j :: 0 <= j < i - 1 ==> rest[j] == cookies[j + 1];
    }
  }

  /**
   * What a cookie reply gathers under a name: the last cookie source of that name with a value decides,
   * a captured header where there is none.
   */
  ghost predicate IsGathered(cfg: Config, headers: map<string, string>, cookies: seq<Cookie>, k: string, v: string) {
    if exists i :: IsLastWithCookie(cfg.sources, k, cookies, i)
    then exists i :: IsLastWithCookie(cfg.sources, k, cookies, i)
                     && IsCookieValue(k, cfg.sources[i].domain, cookies, v)
    else k in headers && headers[k] == v
  }

  /** The last source of a name that has a value. */
  predicate IsLastWithCookie(sources: seq<Source>, k: string, cookies: seq<Cookie>, i: int) {
    && 0 <= i < |sources| && HasCookie(sources[i], k, cookies)
    && forall j :: i < j < |sources| ==> !HasCookie(sources[j], k, cookies)
  }

  predicate HasCookie(source: Source, k: string, cookies: seq<Cookie>) {
    source.CookieSource? && source.name == k && exists c :: c in cookies && IsCookieOf(k, source.domain, c)
  }

  function Gathered(cfg: Config, headers: map<string, string>, cookies: seq<Cookie>): Credentials {
    HeaderValues(headers) + CookieValues(cfg.sources, cookies)
  }

  /**
   * A cookie reply leads to a request for storage, holding what was gathered, when some source needs it and
   * the window is there; otherwise what was gathered decides as above.
   */
  lemma CookieReplyDecides(cfg: Config, s: Login, id: nat, cookies: seq<Cookie>, windowAlive: bool)
    requires Live(s) && id in s.world.pending && s.world.pending[id] == CookieRequest
    ensures var merged := Gathered(cfg, s.headers, cookies);
            var t := Step(cfg, s, CookiesReturned(id, Cookies(cookies, windowAlive)));
            if windowAlive && exists name :: StorageSource(name) in cfg.sources
            then !t.completed && t.world.pending == map[s.world.nextId := StorageRequest(merged)]
            else if merged != map[] && forall source :: source in cfg.sources ==> source.name in merged
            then SucceededWith(cfg, t, merged) else PollsOn(t)
    ensures PollsOn(Step(cfg, s, CookiesReturned(id, CookiesRejected)))
  {
    ReplyConsumed(s, id);
    NeedsStorageIs(cfg);
    CheckDecides(cfg, Answered(s, id), Gathered(cfg, s.headers, cookies));
  }

  lemma NeedsStorageIs(cfg: Config)
    ensures NeedsStorage(cfg) <==> exists name :: StorageSource(name) in cfg.sources
  {
    if NeedsStorage(cfg) {
      var source :| source in cfg.sources && source.StorageSource?;
      assert StorageSource(source.name) in cfg.sources;
    }
  }

  /** Every gathered value is a string, and is the one described. */
  lemma GatheredIs(cfg: Config, headers: map<string, string>, cookies: seq<Cookie>, k: string)
    ensures var c := Gathered(cfg, headers, cookies);
            && (k in c ==> c[k].Some?)
            && forall v :: (k in c && c[k] == Some(v)) <==> IsGathered(cfg, headers, cookies, k, v)
  {
    CookieValuesAreStrings(cfg.sources, cookies);
    if k in CookieValues(cfg.sources, cookies) {
      OwnerExists(cfg.sources, cookies, k);
      var i :| IsLastWithCookie(cfg.sources, k, cookies, i);
      LastCookieDecides(cfg.sources, cookies, k, i);
      OnlyOneIsLast(cfg.sources, cookies, k, i);
      CookieFound(cfg.sources[i], cookies);
    } else {
      NoOwner(cfg.sources, cookies, k);
    }
  }

  lemma NoOwner(sources: seq<Source>, cookies: seq<Cookie>, k: string)
    requires k !in CookieValues(sources, cookies)
    ensures !exists i :: IsLastWithCookie(sources, k, cookies, i)
  {
    if i :| IsLastWithCookie(sources, k, cookies, i) {
      LastCookieDecides(sources, cookies, k, i);
    }
  }

  lemma OnlyOneIsLast(sources: seq<Source>, cookies: seq<Cookie>, k: string, i: int)
    requires IsLastWithCookie(sources, k, cookies, i)
    ensures forall j :: IsLastWithCookie(sources, k, cookies, j) ==> j == i
  {
  }

  lemma HasCookieFound(source: Source, k: string, cookies: seq<Cookie>)
    ensures HasCookie(source, k, cookies) <==>
            source.CookieSource? && source.name == k && FindCookie(source, cookies).Some?
    ensures HasCookie(source, k, cookies) ==>
            forall v :: IsCookieValue(k, source.domain, cookies, v) <==> FindCookie(source, cookies) == Some(v)
  {
    if source.CookieSource? && source.name == k {
      CookieFound(source, cookies);
      SomeCookieMatches(source, cookies);
    }
  }

  lemma {:induction false} SomeCookieMatches(source: Source, cookies: seq<Cookie>)
    requires source.CookieSource?
    ensures FindCookie(source, cookies).Some? <==>
            exists c :: c in cookies && IsCookieOf(source.name, source.domain, c)
  {
    if cookies != [] {
      MatchesAlike(source, cookies[0]);
      SomeCookieMatches(source, cookies[1..]);
      assert cookies == [cookies[0]] + cookies[1..];
    }
  }

  lemma {:induction false} LastCookieDecides(sources: seq<Source>, cookies: seq<Cookie>, k: string, i: int)
    requires IsLastWithCookie(sources, k, cookies, i)
    ensures k in CookieValues(sources, cookies) && CookieValues(sources, cookies)[k] == FindCookie(sources[i], cookies)
  {
    var n := |sources| - 1;
    HasCookieFound(sources[n], k, cookies);
    if i < n {
      LastInFront(sources, cookies, k, i);
      LastCookieDecides(sources[..n], cookies, k, i);
    }
  }

  lemma LastInFront(sources: seq<Source>, cookies: seq<Cookie>, k: string, i: int)
    requires sources != [] && !HasCookie(Last(sources), k, cookies)
    ensures IsLastWithCookie(sources, k, cookies, i) <==> IsLastWithCookie(Init(sources), k, cookies, i)
  {
  }

  lemma {:induction false} OwnerExists(sources: seq<Source>, cookies: seq<Cookie>, k: string)
    requires k in CookieValues(sources, cookies)
    ensures exists i :: IsLastWithCookie(sources, k, cookies, i)
  {
    var n := |sources| - 1;
    HasCookieFound(sources[n], k, cookies);
    if HasCookie(sources[n], k, cookies) {
      assert IsLastWithCookie(sources, k, cookies, n);
    } else {
      OwnerExists(sources[..n], cookies, k);
      var i :| IsLastWithCookie(sources[..n], k, cookies, i);
      LastInFront(sources, cookies, k, i);
    }
  }

  // ----- what a login shows -----

  /** A started login: its statuses, its timers, and the failure when the window does not open. */
  lemma StartShows(cfg: Config, s: Login)
    requires Idle(s)
    ensures var t, n, provider := Started(cfg, s, true), s.world.nextId, Some(cfg.providerId);
            && t.world.statuses == [Status(Starting, provider), Status(Navigating, provider)]
            && t.world.armed == map[n := MinTimeTimer, n + 1 := OverallTimer]
            && t.minTimer == Some(n) && t.overallTimer == Some(n + 1) && t.pollTimer == None && t.active == provider
    ensures var t, provider := Started(cfg, s, false), Some(cfg.providerId);
            && t.world.statuses == [Status(Starting, provider), Status(Error, provider)]
            && t.world.outcomes == [Failure("Failed to open window")]
  {
  }

  /** The minimum-time timer starts the polling; a poll asks for the cookies, and every thirtieth one says so. */
  lemma TimersPoll(cfg: Config, s: Login, id: nat)
    requires Live(s) && id in s.world.armed
    ensures s.world.armed[id].MinTimeTimer? ==>
              PollsOn(Step(cfg, s, TimerFired(id))) && Step(cfg, s, TimerFired(id)).world.polls == 0
    ensures s.world.armed[id].PollTimer? ==>
              var t, polls := Step(cfg, s, TimerFired(id)), s.world.polls + 1;
              && t.world.pending == map[s.world.nextId := CookieRequest] && t.world.polls == polls
              && t.world.statuses == s.world.statuses +
                                     (if polls % 30 == 0 then [Status(Waiting, Some(cfg.providerId))] else [])
  {
    assert s.world.statuses + [] == s.world.statuses;
  }

  /** How each of the other endings is reported. */
  lemma EndingsShow(cfg: Config, s: Login)
    requires Live(s)
    ensures var t := Step(cfg, s, WindowClosed);
            && t.world.statuses == s.world.statuses + [Status(Cancelled, Some(cfg.providerId))]
            && t.world.outcomes == [Failure("Login window closed")]
    ensures var t := Step(cfg, s, CancelCalled);
            && t.world.statuses == s.world.statuses + [Status(Cancelled, None)]
            && t.world.outcomes == [Failure("Login cancelled")]
    ensures var t := Step(cfg, s, TimerFired(s.overallTimer.value));
            && t.world.statuses == s.world.statuses + [Status(Error, Some(cfg.providerId))]
            && t.world.outcomes == [Failure("Login timed out")]
  {
    OverallTimeoutSettles(cfg, s);
    assert s.overallTimer.value in s.world.armed;
  }

  /** A navigation to a valid address is reported, and first, from the second one on, that it looks like a success. */
  lemma NavigationShows(cfg: Config, s: Login, validUrl: bool, matchesSuccess: bool)
    requires Live(s)
    ensures var t, provider := Step(cfg, s, Navigated(validUrl, matchesSuccess)), Some(cfg.providerId);
            var detected := if s.world.navigated && matchesSuccess then [Status(Detected, provider)] else [];
            if !validUrl then t == s
            else t.world.navigated
                 && t.world.statuses == s.world.statuses + detected + [Status(Navigating, provider)]
  {
    assert s.world.statuses + [] == s.world.statuses;
  }

  /** Settling gives up window, timers and captured headers, and makes way for the next login. */
  lemma SettlingCleansUp(cfg: Config, s: Login, e: Event)
    requires Live(s) && Step(cfg, s, e).completed
    ensures var t := Step(cfg, s, e);
            && t.active == None && !t.windowOpen && t.headers == map[] && t.world.armed == map[]
            && t.minTimer == None && t.overallTimer == None && t.pollTimer == None
            && |t.world.outcomes| == 1
  {
    LiveStep(cfg, s, e);
  }

  // ----- null credentials -----

  lemma {:induction false} CookieValuesAreStrings(sources: seq<Source>, cookies: seq<Cookie>)
    ensures forall k :: k in CookieValues(sources, cookies) ==> CookieValues(sources, cookies)[k].Some?
  {
    if sources != [] {
      CookieValuesAreStrings(sources[..|sources| - 1], cookies);
    }
  }

  /** Credentials gathered before the storage reply are all strings. */
  predicate StringsPending(s: Login) {
    forall id :: id in s.world.pending && s.world.pending[id].StorageRequest? ==>
      forall k :: k in s.world.pending[id].credentials ==> s.world.pending[id].credentials[k].Some?
  }

  lemma StringsAfterCookies(cfg: Config, s: Login, id: nat, reply: CookieReply)
    requires StringsPending(s)
    ensures StringsPending(CookiesSeen(cfg, s, id, reply))
  {
    if reply.Cookies? {
      CookieValuesAreStrings(cfg.sources, reply.cookies);
    }
  }

  lemma StringsAfterTimer(cfg: Config, s: Login, id: nat)
    requires StringsPending(s)
    ensures StringsPending(Fired(cfg, s, id))
  {
  }

  lemma StringsPendingStep(cfg: Config, s: Login, e: Event)
    requires StringsPending(s)
    ensures StringsPending(Step(cfg, s, e))
  {
    match e
    case TimerFired(id) => StringsAfterTimer(cfg, s, id);
    case CookiesReturned(id, reply) => StringsAfterCookies(cfg, s, id, reply);
    case _ =>
  }

  /** A storage reply that holds null under the key. */
  predicate HoldsNull(e: Event, k: string) {
    e.StorageReturned? && e.storageReply.Values? && k in e.storageReply.values && e.storageReply.values[k].None?
  }

  lemma CookieSuccessIsStrings(cfg: Config, s: Login, id: nat, reply: CookieReply, found: Credentials, k: string)
    requires Live(s) && CookiesSeen(cfg, s, id, reply).world.outcomes == [Success(found)] && k in found
    ensures found[k].Some?
  {
    assert CookiesSeen(cfg, s, id, reply).world.outcomes[0] == Success(found);
    if reply.Cookies? {
      CookieValuesAreStrings(cfg.sources, reply.cookies);
    }
  }

  lemma NullFromStorage(cfg: Config, s: Login, id: nat, reply: StorageReply, found: Credentials, k: string)
    requires Live(s) && StringsPending(s)
    requires StorageSeen(cfg, s, id, reply).world.outcomes == [Success(found)] && k in found
    ensures found[k].None? <==> reply.Values? && k in reply.values && reply.values[k].None?
  {
    assert StorageSeen(cfg, s, id, reply).world.outcomes[0] == Success(found);
  }

  /** In a step that succeeds, a credential is null exactly when the storage reply holds null for it. */
  lemma NullExactlyFromStorage(cfg: Config, s: Login, e: Event, found: Credentials, k: string)
    requires Live(s) && StringsPending(s)
    requires Step(cfg, s, e).world.outcomes == [Success(found)] && k in found
    ensures found[k].None? <==> HoldsNull(e, k)
  {
    assert Step(cfg, s, e).world.outcomes[0] == Success(found);
    match e
    case CookiesReturned(id, reply) => CookieSuccessIsStrings(cfg, s, id, reply, found, k);
    case StorageReturned(id, reply) => NullFromStorage(cfg, s, id, reply, found, k);
    case _ =>
  }

  lemma {:induction false} NullOverRun(cfg: Config, s: Login, events: seq<Event>, found: Credentials, k: string)
    requires Live(s) && StringsPending(s)
    requires Run(cfg, s, events).world.outcomes == [Success(found)] && k in found
    ensures SettledBy(cfg, s, events).Some?
    ensures found[k].None? <==> HoldsNull(SettledBy(cfg, s, events).value, k)
    decreases |events|
  {
    var t := Step(cfg, s, events[0]);
    LiveStep(cfg, s, events[0]);
    if t.completed {
      SettlementIsFinal(cfg, t, events[1..]);
      NullExactlyFromStorage(cfg, s, events[0], found, k);
    } else {
      StringsPendingStep(cfg, s, events[0]);
      NullOverRun(cfg, t, events[1..], found, k);
    }
  }

  /**
   * Over every run of a login that succeeds, a credential is null exactly when the storage reply that
   * settled the login holds null for it.
   */
  lemma NullExactlyOverRuns(cfg: Config, s: Login, events: seq<Event>, found: Credentials, k: string)
    requires Idle(s)
    requires Run(cfg, Started(cfg, s, true), events).world.outcomes == [Success(found)] && k in found
    ensures SettledBy(cfg, Started(cfg, s, true), events).Some?
    ensures found[k].None? <==> HoldsNull(SettledBy(cfg, Started(cfg, s, true), events).value, k)
  {
    StartEstablishes(cfg, s, true);
    NullOverRun(cfg, Started(cfg, s, true), events, found, k);
  }

  /** The state of a new manager. */
  function Fresh(): Login {
    Login(false, None, None, None, None, false, map[], World(false, 0, map[], map[], 0, [], []))
  }

  /** A login started here, after its first poll has found no cookie. */
  function AfterFirstPoll(cfg: Config, s: Login): Login {
    Step(cfg, Polling(cfg, s), CookiesReturned(s.world.nextId + 3, Cookies([], true)))
  }

  /** A login started here, whose first poll has asked for the cookies. */
  function Polling(cfg: Config, s: Login): Login {
    var n := s.world.nextId;
    Step(cfg, Step(cfg, Started(cfg, s, true), TimerFired(n)), TimerFired(n + 2))
  }

  /** A new login that needs one storage token, after its first poll has asked for it. */
  function AskedForToken(cfg: Config): Login {
    AfterFirstPoll(cfg, Fresh())
  }

  lemma FirstPollAsksStorage(cfg: Config, token: string)
    requires cfg.sources == [StorageSource(token)]
    ensures AskedForToken(cfg).world.pending == map[4 := StorageRequest(map[])]
    ensures !AskedForToken(cfg).completed && AskedForToken(cfg).world.outcomes == []
  {
    FirstPollAsksCookies(cfg, Fresh());
    assert Polling(cfg, Fresh()).world.pending == map[3 := CookieRequest];
    assert StorageSource(token) in cfg.sources;
    NoCookieSources(cfg.sources);
  }

  /** So the very first poll of a login that only needs a storage token "succeeds" without the token. */
  lemma MissingTokenSucceeds(cfg: Config, token: string)
    requires cfg.sources == [StorageSource(token)]
    ensures Idle(Fresh()) && Live(AskedForToken(cfg))
    ensures Step(cfg, AskedForToken(cfg), StorageReturned(4, Values(map[token := None]))).world.outcomes
         == [Success(map[token := None])]
  {
    FirstPollAsksStorage(cfg, token);
    NullReplyCompletes(cfg, token, AskedForToken(cfg), 4);
    LiveWhileAsking(cfg);
  }

  lemma LiveWhileAsking(cfg: Config)
    requires !AskedForToken(cfg).completed
    ensures Live(AskedForToken(cfg))
  {
    var s0 := Started(cfg, Fresh(), true);
    var s1 := Step(cfg, s0, TimerFired(0));
    StartEstablishes(cfg, Fresh(), true);
    LiveStep(cfg, s0, TimerFired(0));
    LiveStep(cfg, s1, TimerFired(2));
    LiveStep(cfg, Step(cfg, s1, TimerFired(2)), CookiesReturned(3, Cookies([], true)));
  }

  lemma NullReplyCompletes(cfg: Config, token: string, s: Login, id: nat)
    requires !s.completed && s.world.outcomes == [] && s.world.pending == map[id := StorageRequest(map[])]
    requires cfg.sources == [StorageSource(token)]
    ensures Step(cfg, s, StorageReturned(id, Values(map[token := None]))).world.outcomes ==
            [Success(map[token := None])]
  {
    var empty: Credentials := map[];
    var found: Credentials := map[token := None];
    assert empty + found == found && token in found;
  }
}
