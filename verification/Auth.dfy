/**
 Running a user command with automatic setup and login retries
 (cli/src/auth_flow.rs). The gateway, the terminal and the clock answer
 arbitrarily; the session cached in the configuration file is the state.
 */
module Auth {
  import opened Common
  import opened Naming

  /** A gateway error with its code and setup hint, or any other failure. */
  datatype Error = Rpc(code: int, setupMode: bool) | Message

  predicate SetupRequired(e: Error) {
    e.Rpc? && (e.code == 425 || e.setupMode)
  }

  predicate AuthFailed(e: Error) {
    e.Rpc? && e.code == 401
  }

  datatype Credentials = Credentials(username: Option<string>, password: Option<string>, token: Option<string>)

  predicate Usable(c: Credentials) {
    (c.password.Some? || c.token.Some?) ==> c.username.Some?
  }

  /** The configuration file. */
  datatype Config = Config(
    username: Option<string>,
    sessionToken: Option<string>,
    sessionTokenId: Option<string>,
    sessionExpiresAt: Option<int>,
    deviceToken: Option<string>,
    deviceId: Option<string>)

  datatype Event =
    | Probed
    | SetUp(failure: Option<Error>)
    | LoggedIn(username: string, password: string, result: Result<string, Error>)
    | Cleared(saved: bool)
    | Ran(credentials: Credentials, failure: Option<Error>)

  datatype Login = Issued(token: string, id: string, expiresAt: Option<int>) | LoginFails(error: Error)

  /** What the terminal brings: trimmed text, None for an empty line, or a failure. */
  datatype Prompt = Typed(text: Option<string>) | PromptFails

  /** The device token a setup may issue, with the device it is bound to. */
  datatype DeviceToken = DeviceToken(token: string, deviceId: Option<string>)

  /** The reply to a setup request, None when it cannot be read, or the failure before it. */
  datatype Setup = SetupDone(user: Option<(string, Option<DeviceToken>)>) | SetupFails(error: Error)

  /** The environment's answers, each by the number of events that went before. */
  datatype Env = Env(
    probe: Result<bool, Error>,
    interactive: bool,
    startUsername: Option<string>,             // username in the configuration loaded at start
    setup: nat -> Setup,
    login: nat -> Login,
    command: nat -> Option<Error>,
    saves: nat -> bool,
    clock: nat -> int,
    typedUsername: nat -> Prompt,
    typedPassword: nat -> Prompt)

  /** What the user passed on the command line. */
  datatype Options = Options(token: Option<string>, username: Option<string>, password: Option<string>)

  function NormalizeField(value: Option<string>): Option<string> {
    if value.Some? && Trim(value.value) != "" then Some(Trim(value.value)) else None
  }

  function Explicit(o: Options): bool {
    NormalizeField(o.token).Some?
  }

  function OrElseSome(a: Option<string>, b: Option<string>): Option<string> {
    if a.Some? then a else b
  }

  function ResolveUsername(configured: Option<string>, cli: Option<string>): Option<string> {
    OrElseSome(NormalizeField(cli), NormalizeField(configured))
  }

  /** The cached session token, unless it has expired. */
  function SessionToken(c: Config, now: int): Option<string> {
    if c.sessionExpiresAt.Some? && now >= c.sessionExpiresAt.value then None else c.sessionToken
  }

  // ------------------------------------------------------ the flow as a function

  datatype World = World(disk: Config, trace: seq<Event>)

  function Noted(w: World, e: Event): World {
    w.(trace := w.trace + [e])
  }

  function WithSession(c: Config, username: string, l: Login): Config
    requires l.Issued?
  {
    c.(username := Some(username), sessionToken := Some(l.token),
        sessionTokenId := Some(l.id), sessionExpiresAt := l.expiresAt)
  }

  function WithoutSession(c: Config): Config {
    c.(sessionToken := None, sessionTokenId := None, sessionExpiresAt := None)
  }

  function HasSession(c: Config): bool {
    c.sessionToken.Some? || c.sessionTokenId.Some? || c.sessionExpiresAt.Some?
  }

  /** Logs in with a password and caches the session. */
  function Issue(env: Env, w: World, username: string, password: string): (Result<Credentials, Error>, World) {
    var l := env.login(|w.trace|);
    match l
    case LoginFails(e) => (Err(e), Noted(w, LoggedIn(username, password, Err(e))))
    case Issued(token, _, _) =>
      var v := Noted(w, LoggedIn(username, password, Ok(token)));
      if !env.saves(|v.trace|) then (Err(Message), v)
      else (Ok(Credentials(Some(username), None, Some(token))), v.(disk := WithSession(w.disk, username, l)))
  }

  function Clear(env: Env, w: World): (Result<(), Error>, World) {
    if HasSession(w.disk) && !env.saves(|w.trace|) then (Err(Message), Noted(w, Cleared(false)))
    else (Ok(()), Noted(w, Cleared(true)).(disk := WithoutSession(w.disk)))
  }

  function Checked(c: Credentials, w: World): (Result<Credentials, Error>, World) {
    (if Usable(c) then Ok(c) else Err(Message), w)
  }

  /** Logging in, once it is clear that neither a token nor a cached session is at hand. */
  function LogIn(env: Env, w: World, username: Option<string>, password: Option<string>):
      (Result<Credentials, Error>, World) {
    var named := if username.None? && env.interactive then env.typedUsername(|w.trace|) else Typed(username);
    if named.PromptFails? then (Err(Message), w)
    else if named.text.Some? && password.None? && !env.interactive then (Err(Message), w)
    else
      var secret := if named.text.Some? && password.None? then env.typedPassword(|w.trace|) else Typed(password);
      if secret.PromptFails? || named.text.None? || secret.text.None? then (Err(Message), w)
      else Issue(env, w, named.text.value, secret.text.value)
  }

  function Resolve(env: Env, w: World, o: Options): (Result<Credentials, Error>, World) {
    var username := OrElseSome(ResolveUsername(w.disk.username, o.username),
        ResolveUsername(env.startUsername, o.username));
    var password, token := NormalizeField(o.password), NormalizeField(o.token);
    var cached := SessionToken(w.disk, env.clock(|w.trace|));
    if username.None? && (password.Some? || token.Some?) then (Err(Message), w)
    else if token.Some? then Checked(Credentials(username, None, token), w)
    else if password.None? && cached.Some? then Checked(Credentials(username, None, cached), w)
    else LogIn(env, w, username, password)
  }

  function RunCommand(env: Env, w: World, c: Credentials): (Result<(), Error>, World) {
    var failure := env.command(|w.trace|);
    (if failure.Some? then Err(failure.value) else Ok(()), Noted(w, Ran(c, failure)))
  }

  function Attempt(env: Env, w: World, o: Options): (Result<(), Error>, World) {
    var (auth, w1) := Resolve(env, w, o);
    if auth.Err? then (Err(auth.error), w1)
    else
      var (r, w2) := RunCommand(env, w1, auth.value);
      if r.Ok? || !AuthFailed(r.error) || Explicit(o) then (r, w2)
      else
        var (cleared, w3) := Clear(env, w2);
        if cleared.Err? then (cleared, w3)
        else
          var (refreshed, w4) := Resolve(env, w3, o);
          if refreshed.Err? then (Err(refreshed.error), w4) else RunCommand(env, w4, refreshed.value)
  }

  function CanSetUp(env: Env, o: Options): bool {
    env.interactive || (o.username.Some? && o.password.Some?)
  }

  /** The configuration after a setup; what the reply does not mention stays. */
  function WithUser(c: Config, username: string, device: Option<DeviceToken>): Config {
    var d := c.(username := Some(username));
    if device.None? then d
    else d.(deviceToken := Some(device.value.token), deviceId := OrElseSome(device.value.deviceId, c.deviceId))
  }

  function DoSetup(env: Env, w: World): (Result<(), Error>, World) {
    match env.setup(|w.trace|)
    case SetupFails(e) => (Err(e), Noted(w, SetUp(Some(e))))
    case SetupDone(None) => (Ok(()), Noted(w, SetUp(None)))
    case SetupDone(Some((username, device))) =>
      var after := WithUser(w.disk, username, device);
      if after != w.disk && !env.saves(|w.trace|) then (Err(Message), Noted(w, SetUp(Some(Message))))
      else (Ok(()), Noted(w, SetUp(None)).(disk := after))
  }

  function Run(env: Env, start: World, o: Options): (Result<(), Error>, World) {
    var w := Noted(start, Probed);
    if env.probe.Err? then (Err(env.probe.error), w)
    else if env.probe.value && !CanSetUp(env, o) then (Err(Message), w)
    else
      var (ready, w1) := if env.probe.value then DoSetup(env, w) else (Ok(()), w);
      if ready.Err? then (ready, w1)
      else
        var (r, w2) := Attempt(env, w1, o);
        if r.Ok? || !SetupRequired(r.error) then (r, w2)
        else if !CanSetUp(env, o) then (Err(Message), w2)
        else
          var (again, w3) := DoSetup(env, w2);
          if again.Err? then (again, w3) else Attempt(env, w3, o)
  }

  // -------------------------------------------------------- as the source runs it

  class AuthFlow {
    const env: Env
    var disk: Config
    var trace: seq<Event>

    function Value(): World
      reads this
    {
      World(disk, trace)
    }

    constructor (env: Env, disk: Config)
      ensures this.env == env && Value() == World(disk, [])
    {
      this.env := env;
      this.disk := disk;
      trace := [];
    }

    method IssueAndStoreSession(username: string, password: string) returns (r: Result<Credentials, Error>)
      modifies this
      ensures (r, Value()) == Issue(env, old(Value()), username, password)
    {
      var l := env.login(|trace|);
      match l
      case LoginFails(e) =>
        trace := trace + [LoggedIn(username, password, Err(e))];
        return Err(e);
      case Issued(token, id, expiresAt) =>
        trace := trace + [LoggedIn(username, password, Ok(token))];
        if !env.saves(|trace|) {
          return Err(Message);
        }
        disk := disk.(username := Some(username), sessionToken := Some(token),
            sessionTokenId := Some(id), sessionExpiresAt := expiresAt);
        return Ok(Credentials(Some(username), None, Some(token)));
    }

    method ClearCachedSession() returns (r: Result<(), Error>)
      modifies this
      ensures (r, Value()) == Clear(env, old(Value()))
    {
      var changed := HasSession(disk);
      var cleared := disk.(sessionToken := None, sessionTokenId := None, sessionExpiresAt := None);
      if changed {
        if !env.saves(|trace|) {
          trace := trace + [Cleared(false)];
          return Err(Message);
        }
        disk := cleared;
      }
      trace := trace + [Cleared(true)];
      return Ok(());
    }

    method ResolveInteractive(o: Options) returns (r: Result<Credentials, Error>)
      modifies this
      ensures (r, Value()) == Resolve(env, old(Value()), o)
    {
      var username := OrElseSome(ResolveUsername(disk.username, o.username),
          ResolveUsername(env.startUsername, o.username));
      var password := NormalizeField(o.password);
      var explicitToken := NormalizeField(o.token);
      if username.None? && (password.Some? || explicitToken.Some?) {
        return Err(Message);
      }
      if explicitToken.Some? {
        var auth := Credentials(username, None, explicitToken);
        return if Usable(auth) then Ok(auth) else Err(Message);
      }
      if password.None? {
        var cached := SessionToken(disk, env.clock(|trace|));
        if cached.Some? {
          var auth := Credentials(username, None, cached);
          return if Usable(auth) then Ok(auth) else Err(Message);
        }
      }
      if username.None? && env.interactive {
        var typed := env.typedUsername(|trace|);
        if typed.PromptFails? {
          return Err(Message);
        }
        username := typed.text;
      }
      if username.Some? && password.None? {
        if !env.interactive {
          return Err(Message);
        }
        var typed := env.typedPassword(|trace|);
        if typed.PromptFails? {
          return Err(Message);
        }
        password := typed.text;
      }
      if username.None? || password.None? {
        return Err(Message);
      }
      r := IssueAndStoreSession(username.value, password.value);
    }

    method RunWithAuth(c: Credentials) returns (r: Result<(), Error>)
      modifies this
      ensures (r, Value()) == RunCommand(env, old(Value()), c)
    {
      var failure := env.command(|trace|);
      trace := trace + [Ran(c, failure)];
      r := if failure.Some? then Err(failure.value) else Ok(());
    }

    method AttemptWithLoginRetry(o: Options) returns (r: Result<(), Error>)
      modifies this
      ensures (r, Value()) == Attempt(env, old(Value()), o)
    {
      hide Resolve, Clear, RunCommand, Explicit;
      var auth := ResolveInteractive(o);
      if auth.Err? {
        return Err(auth.error);
      }
      r := RunWithAuth(auth.value);
      if r.Ok? || !AuthFailed(r.error) || Explicit(o) {
        return r;
      }
      var cleared := ClearCachedSession();
      if cleared.Err? {
        return cleared;
      }
      var refreshed := ResolveInteractive(o);
      if refreshed.Err? {
        return Err(refreshed.error);
      }
      r := RunWithAuth(refreshed.value);
    }

    method RunAuthSetup() returns (r: Result<(), Error>)
      modifies this
      ensures (r, Value()) == DoSetup(env, old(Value()))
    {
      match env.setup(|trace|)
      case SetupFails(e) =>
        trace := trace + [SetUp(Some(e))];
        return Err(e);
      case SetupDone(None) =>
        trace := trace + [SetUp(None)];
        return Ok(());
      case SetupDone(Some((username, device))) =>
        var local, changed := disk, false;
        if local.username != Some(username) {
          local, changed := local.(username := Some(username)), true;
        }
        if device.Some? {
          if local.deviceToken != Some(device.value.token) {
            local, changed := local.(deviceToken := Some(device.value.token)), true;
          }
          if device.value.deviceId.Some? && local.deviceId != device.value.deviceId {
            local, changed := local.(deviceId := device.value.deviceId), true;
          }
        }
        if changed {
          if !env.saves(|trace|) {
            trace := trace + [SetUp(Some(Message))];
            return Err(Message);
          }
          disk := local;
        }
        trace := trace + [SetUp(None)];
        return Ok(());
    }

    method RunWithAutoSetupAndLoginRetry(o: Options) returns (r: Result<(), Error>)
      modifies this
      ensures (r, Value()) == Run(env, old(Value()), o)
    {
      hide Attempt, DoSetup;
      trace := trace + [Probed];
      if env.probe.Err? {
        return Err(env.probe.error);
      }
      if env.probe.value {
        if !CanSetUp(env, o) {
          return Err(Message);
        }
        r := RunAuthSetup();
        if r.Err? {
          return r;
        }
      }
      r := AttemptWithLoginRetry(o);
      if r.Ok? || !SetupRequired(r.error) {
        return r;
      }
      if !CanSetUp(env, o) {
        return Err(Message);
      }
      r := RunAuthSetup();
      if r.Err? {
        return r;
      }
      r := AttemptWithLoginRetry(o);
    }
  }

  // ---------------------------------------------------- what every run satisfies

  /** Counts of a trace so far, and what has happened since the last command. */
  datatype Monitor = Monitor(
    commands: nat,
    setups: nat,
    clears: nat,
    failure: Option<Error>,      // of the last command
    cleared: bool,               // the cached session was dropped
    issued: Option<string>,      // token of a login after that
    setupAsked: bool,            // the gateway asked for setup, to the command or to a login
    setUp: bool,                 // setup succeeded
    justified: bool)             // every rerun had a reason

  const QUIET := Monitor(0, 0, 0, None, false, None, false, false, true)

  /** May the command run (again) now? Either setup was asked for and done, or the last run was
      refused, no token was given, the cache was cleared, and it runs with a token issued since. */
  predicate MayRun(m: Monitor, c: Credentials, explicit: bool) {
    || m.commands == 0
    || (m.setupAsked && m.setUp)
    || (!explicit && m.failure.Some? && AuthFailed(m.failure.value) &&
        m.cleared && m.issued.Some? && c.token == m.issued)
  }

  function Observe(m: Monitor, e: Event, explicit: bool): Monitor {
    match e
    case Probed => m
    case SetUp(failure) => m.(setups := m.setups + 1, setUp := m.setUp || failure.None?)
    case LoggedIn(_, _, Ok(token)) => m.(issued := Some(token))
    case LoggedIn(_, _, Err(error)) => m.(setupAsked := m.setupAsked || SetupRequired(error))
    case Cleared(saved) => m.(clears := m.clears + 1, cleared := m.cleared || saved, issued := None)
    case Ran(c, failure) =>
      Monitor(m.commands + 1, m.setups, m.clears, failure, false, None,
              failure.Some? && SetupRequired(failure.value), false,
              m.justified && MayRun(m, c, explicit))
  }

  function Observed(trace: seq<Event>, explicit: bool): Monitor {
    if trace == [] then QUIET
    else Observe(Observed(trace[..|trace| - 1], explicit), trace[|trace| - 1], explicit)
  }

  lemma ObserveNext(w: World, e: Event, explicit: bool)
    ensures Observed(Noted(w, e).trace, explicit) == Observe(Observed(w.trace, explicit), e, explicit)
  {
    assert Noted(w, e).trace[..|w.trace|] == w.trace;
  }

  function Session(c: Config): (Option<string>, Option<string>, Option<int>) {
    (c.sessionToken, c.sessionTokenId, c.sessionExpiresAt)
  }

  predicate SameExceptLogin(m: Monitor, n: Monitor) {
    && n.commands == m.commands && n.setups == m.setups && n.clears == m.clears && n.failure == m.failure
    && n.cleared == m.cleared && n.setUp == m.setUp && n.justified == m.justified
    && (m.setupAsked ==> n.setupAsked)
  }

  lemma IssueObserved(env: Env, w: World, username: string, password: string, explicit: bool)
    ensures var (r, v) := Issue(env, w, username, password);
      && SameExceptLogin(Observed(w.trace, explicit), Observed(v.trace, explicit))
      && (r.Ok? ==> r.value.token.Some? && Observed(v.trace, explicit).issued == r.value.token)
      && (r.Err? && SetupRequired(r.error) ==> Observed(v.trace, explicit).setupAsked)
  {
    var l := env.login(|w.trace|);
    ObserveNext(w, LoggedIn(username, password, if l.Issued? then Ok(l.token) else Err(l.error)), explicit);
  }

  /** An explicit token is used as it is, without touching anything; without one and without
      a cached session, credentials come from a login made now. */
  lemma ResolveObserved(env: Env, w: World, o: Options)
    ensures var (r, v) := Resolve(env, w, o);
      var m, n := Observed(w.trace, Explicit(o)), Observed(v.trace, Explicit(o));
      && SameExceptLogin(m, n)
      && (r.Err? && SetupRequired(r.error) ==> n.setupAsked)
      && (Explicit(o) ==> v == w && (r.Ok? ==> r.value.token == NormalizeField(o.token)))
      && (!Explicit(o) && w.disk.sessionToken.None? && r.Ok? ==> r.value.token.Some? && n.issued == r.value.token)
  {
    hide Issue, NormalizeField;
    var username := OrElseSome(ResolveUsername(w.disk.username, o.username),
        ResolveUsername(env.startUsername, o.username));
    var password := NormalizeField(o.password);
    if Resolve(env, w, o) == LogIn(env, w, username, password) {
      var named := if username.None? && env.interactive then env.typedUsername(|w.trace|) else Typed(username);
      if named.Typed? && named.text.Some? {
        var secret := if password.None? then env.typedPassword(|w.trace|) else Typed(password);
        if secret.Typed? && secret.text.Some? {
          IssueObserved(env, w, named.text.value, secret.text.value, Explicit(o));
        }
      }
    }
  }

  /** What one attempt adds: at most two commands and one clearing, with every rerun justified. */
  predicate AttemptAdds(m: Monitor, n: Monitor, explicit: bool) {
    && n.setups == m.setups
    && m.commands <= n.commands <= m.commands + (if explicit then 1 else 2)
    && m.clears <= n.clears <= m.clears + (if explicit then 0 else 1)
    && n.justified
  }

  lemma AttemptObserved(env: Env, w: World, o: Options)
    requires var m := Observed(w.trace, Explicit(o)); m.justified && (m.commands == 0 || (m.setupAsked && m.setUp))
    ensures var (r, v) := Attempt(env, w, o);
      && AttemptAdds(Observed(w.trace, Explicit(o)), Observed(v.trace, Explicit(o)), Explicit(o))
      && (r.Err? && SetupRequired(r.error) ==> Observed(v.trace, Explicit(o)).setupAsked)
      && (Explicit(o) ==> v.disk == w.disk)
  {
    hide Resolve, Explicit, Observed;
    var (auth, w1) := Resolve(env, w, o);
    ResolveObserved(env, w, o);
    if auth.Ok? {
      var (r, w2) := RunCommand(env, w1, auth.value);
      ObserveNext(w1, Ran(auth.value, env.command(|w1.trace|)), Explicit(o));
      if r.Err? && AuthFailed(r.error) && !Explicit(o) {
        var (cleared, w3) := Clear(env, w2);
        ObserveNext(w2, Cleared(cleared.Ok?), Explicit(o));
        if cleared.Ok? {
          var (refreshed, w4) := Resolve(env, w3, o);
          ResolveObserved(env, w3, o);
          if refreshed.Ok? {
            ObserveNext(w4, Ran(refreshed.value, env.command(|w4.trace|)), Explicit(o));
          }
        }
      }
    }
  }

  lemma SetupObserved(env: Env, w: World, explicit: bool)
    ensures var (r, v) := DoSetup(env, w);
      var m, n := Observed(w.trace, explicit), Observed(v.trace, explicit);
      && n == m.(setups := m.setups + 1, setUp := m.setUp || r.Ok?)
      && Session(v.disk) == Session(w.disk)
  {
    var r := DoSetup(env, w).0;
    ObserveNext(w, SetUp(if r.Ok? then None else Some(r.error)), explicit);
  }

  /** Limits after `attempts` attempts of the command and `setups` setups. */
  predicate Within(m: Monitor, explicit: bool, attempts: nat, setups: nat) {
    && m.justified
    && m.setups <= setups
    && m.commands <= (if explicit then attempts else 2 * attempts)
    && m.clears <= (if explicit then 0 else attempts)
  }

  /** The part up to the end of the first attempt. */
  lemma FirstAttemptIsBounded(env: Env, w: World, o: Options)
    requires var m := Observed(w.trace, Explicit(o)); Within(m, Explicit(o), 0, 1)
    ensures var (r, v) := Attempt(env, w, o);
      && Within(Observed(v.trace, Explicit(o)), Explicit(o), 1, 1)
      && (r.Err? && SetupRequired(r.error) ==> Observed(v.trace, Explicit(o)).setupAsked)
      && (Explicit(o) ==> v.disk == w.disk)
  {
    hide Attempt, Explicit, Observed;
    AttemptObserved(env, w, o);
  }

  /** Setup after a setup-required failure, then the second attempt. */
  lemma SecondAttemptIsBounded(env: Env, w: World, o: Options)
    requires var m := Observed(w.trace, Explicit(o)); Within(m, Explicit(o), 1, 1) && m.setupAsked
    ensures var (again, v) := DoSetup(env, w);
      var end := if again.Err? then v else Attempt(env, v, o).1;
      && Within(Observed(end.trace, Explicit(o)), Explicit(o), 2, 2)
      && (Explicit(o) ==> Session(end.disk) == Session(w.disk))
  {
    hide Attempt, DoSetup, Explicit, Observed;
    SetupObserved(env, w, Explicit(o));
    var (again, v) := DoSetup(env, w);
    if again.Ok? {
      AttemptObserved(env, v, o);
    }
  }

  lemma {:induction false} RunIsWithin(env: Env, disk: Config, o: Options)
    ensures var (r, w) := Run(env, World(disk, []), o);
      && Within(Observed(w.trace, Explicit(o)), Explicit(o), 2, 2)
      && (Explicit(o) ==> Session(w.disk) == Session(disk))
  {
    hide Attempt, DoSetup, Explicit, Observed, SetupRequired, CanSetUp;
    var explicit := Explicit(o);
    var w0 := World(disk, []);
    var w := Noted(w0, Probed);
    NothingObserved(explicit);
    ObserveNext(w0, Probed, explicit);
    if env.probe.Ok? && (env.probe.value ==> CanSetUp(env, o)) {
      SetupObserved(env, w, explicit);
      var (ready, w1) := if env.probe.value then DoSetup(env, w) else (Ok(()), w);
      if ready.Ok? {
        FirstAttemptIsBounded(env, w1, o);
        var (r, w2) := Attempt(env, w1, o);
        if r.Err? && SetupRequired(r.error) && CanSetUp(env, o) {
          SecondAttemptIsBounded(env, w2, o);
        }
      }
    }
  }

  /** For every sequence of outcomes: at most four commands, two setups and two clearings; with
      an explicit token at most two commands, no clearing, and the cached session is left alone;
      and no command is rerun without a reason. */
  lemma RunIsBounded(env: Env, disk: Config, o: Options)
    ensures var (r, w) := Run(env, World(disk, []), o);
      var m := Observed(w.trace, Explicit(o));
      && m.justified
      && m.setups <= 2
      && m.commands <= (if Explicit(o) then 2 else 4)
      && m.clears <= (if Explicit(o) then 0 else 2)
      && (Explicit(o) ==> Session(w.disk) == Session(disk))
  {
    hide Run, Observed, Explicit;
    RunIsWithin(env, disk, o);
  }

  /** A command is given a user name and a token, never a password; what was passed wins. */
  predicate CarriesToken(c: Credentials, o: Options) {
    && c.username.Some? && c.password.None? && c.token.Some?
    && (Explicit(o) ==> c.token == NormalizeField(o.token))
    && (NormalizeField(o.username).Some? ==> c.username == NormalizeField(o.username))
  }

  predicate CommandsCarryTokens(trace: seq<Event>, o: Options) {
    forall e :: e in trace && e.Ran? ==> CarriesToken(e.credentials, o)
  }

  lemma ResolveYieldsToken(env: Env, w: World, o: Options)
    requires CommandsCarryTokens(w.trace, o)
    ensures var (r, v) := Resolve(env, w, o);
      (r.Ok? ==> CarriesToken(r.value, o)) && CommandsCarryTokens(v.trace, o)
  {
    hide NormalizeField;
  }

  lemma AttemptCarriesTokens(env: Env, w: World, o: Options)
    requires CommandsCarryTokens(w.trace, o)
    ensures CommandsCarryTokens(Attempt(env, w, o).1.trace, o)
  {
    hide Resolve, NormalizeField, Explicit, CarriesToken;
    var (auth, w1) := Resolve(env, w, o);
    ResolveYieldsToken(env, w, o);
    if auth.Ok? {
      var (r, w2) := RunCommand(env, w1, auth.value);
      var (_, w3) := Clear(env, w2);
      assert CommandsCarryTokens(w2.trace, o);
      assert CommandsCarryTokens(w3.trace, o);
      ResolveYieldsToken(env, w3, o);
      var (refreshed, w4) := Resolve(env, w3, o);
      if refreshed.Ok? {
        assert CommandsCarryTokens(RunCommand(env, w4, refreshed.value).1.trace, o);
      }
    }
  }

  /** In every run, every command runs with a token: the explicit one whenever there is one,
      a password only ever having been exchanged for one. */
  lemma EveryCommandCarriesToken(env: Env, disk: Config, o: Options)
    ensures CommandsCarryTokens(Run(env, World(disk, []), o).1.trace, o)
  {
    hide Attempt, NormalizeField, Explicit, CarriesToken;
    var w := Noted(World(disk, []), Probed);
    var (ready, w1) := if env.probe.Ok? && env.probe.value then DoSetup(env, w) else (Ok(()), w);
    assert CommandsCarryTokens(w1.trace, o);
    AttemptCarriesTokens(env, w1, o);
    var (_, w2) := Attempt(env, w1, o);
    var (_, w3) := DoSetup(env, w2);
    assert CommandsCarryTokens(w3.trace, o);
    AttemptCarriesTokens(env, w3, o);
  }

  // ------------------------------------------------------------- what a run answers

  /** The answer that belongs to a run's last event: success after a command that succeeded, the
      error of the command, login or setup that failed, and otherwise an error of the client's own
      (no credentials, a session that could not be saved, setup that is not possible). */
  function AnswerTo(env: Env, o: Options, last: Event): Result<(), Error> {
    match last
    case Ran(_, None) => Ok(())
    case Ran(_, Some(e)) => Err(if SetupRequired(e) && !CanSetUp(env, o) then Message else e)
    case LoggedIn(_, _, Err(e)) => Err(if SetupRequired(e) && !CanSetUp(env, o) then Message else e)
    case SetUp(Some(e)) => Err(e)
    case Probed => Err(if env.probe.Err? then env.probe.error else Message)
    case _ => Err(Message)
  }

  /** The same for one attempt, whose own failures all come back as they are. */
  function AttemptAnswer(last: Event): Result<(), Error> {
    match last
    case Ran(_, None) => Ok(())
    case Ran(_, Some(e)) => Err(e)
    case LoggedIn(_, _, Err(e)) => Err(e)
    case _ => Err(Message)
  }

  /** A resolution either notes nothing and succeeds or fails by itself, or notes one login. */
  lemma ResolveAnswers(env: Env, w: World, o: Options)
    ensures var (r, v) := Resolve(env, w, o);
      || (v.trace == w.trace && (r.Err? ==> r.error == Message))
      || (|v.trace| == |w.trace| + 1 && w.trace <= v.trace && v.trace[|w.trace|].LoggedIn? &&
          match v.trace[|w.trace|].result
          case Err(e) => r == Err(e)
          case Ok(token) => r == Err(Message) || (r.Ok? && r.value.token == Some(token)))
  {
    hide NormalizeField;
  }

  lemma AttemptEnds(env: Env, w: World, o: Options)
    ensures var (r, v) := Attempt(env, w, o);
      && w.trace <= v.trace
      && (v.trace == w.trace ==> r == Err(Message))
      && (v.trace != w.trace ==> r == AttemptAnswer(v.trace[|v.trace| - 1]) && !v.trace[|v.trace| - 1].SetUp?)
  {
    hide Resolve, Explicit;
    var (auth, w1) := Resolve(env, w, o);
    ResolveAnswers(env, w, o);
    if auth.Ok? {
      var (r, w2) := RunCommand(env, w1, auth.value);
      var (cleared, w3) := Clear(env, w2);
      ResolveAnswers(env, w3, o);
    }
  }

  lemma SetupEnds(env: Env, w: World)
    ensures var (r, v) := DoSetup(env, w);
      && v.trace == w.trace + [SetUp(if r.Ok? then None else Some(r.error))]
  {
  }

  /** Every run ends with the answer that belongs to its last event. */
  lemma RunAnswers(env: Env, disk: Config, o: Options)
    ensures var (r, w) := Run(env, World(disk, []), o);
      w.trace != [] && r == AnswerTo(env, o, w.trace[|w.trace| - 1])
  {
    hide Attempt, DoSetup, CanSetUp;
    var w := Noted(World(disk, []), Probed);
    if env.probe.Ok? && (env.probe.value ==> CanSetUp(env, o)) {
      SetupEnds(env, w);
      var (ready, w1) := if env.probe.value then DoSetup(env, w) else (Ok(()), w);
      if ready.Ok? {
        AttemptEnds(env, w1, o);
        var (r, w2) := Attempt(env, w1, o);
        if r.Err? && SetupRequired(r.error) && CanSetUp(env, o) {
          SetupEnds(env, w2);
          var (again, w3) := DoSetup(env, w2);
          AttemptEnds(env, w3, o);
        }
      }
    }
  }

  /** A run succeeds exactly when its last event is a command that succeeded. */
  lemma RunSucceedsExactly(env: Env, disk: Config, o: Options)
    ensures var (r, w) := Run(env, World(disk, []), o);
      r.Ok? <==> w.trace != [] && w.trace[|w.trace| - 1].Ran? && w.trace[|w.trace| - 1].failure.None?
  {
    hide Run;
    RunAnswers(env, disk, o);
    var w := Run(env, World(disk, []), o).1;
    OnlyACommandSucceeds(env, o, w.trace[|w.trace| - 1]);
  }

  lemma OnlyACommandSucceeds(env: Env, o: Options, last: Event)
    ensures AnswerTo(env, o, last).Ok? <==> last.Ran? && last.failure.None?
  {
  }

  /** After the previous command the session was dropped, and no command ran since. */
  ghost predicate RetriedLogin(trace: seq<Event>, n: nat)
    requires n < |trace|
  {
    exists i, j :: 0 <= i < j < n && trace[i].Ran? && trace[j] == Cleared(true) &&
      (forall k :: i < k < n ==> !trace[k].Ran?) && trace[i].failure.Some? && AuthFailed(trace[i].failure.value)
  }

  /** Setup was asked for by an earlier failure and then done. */
  ghost predicate RetriedSetup(trace: seq<Event>, n: nat)
    requires n < |trace|
  {
    exists i, j :: 0 <= i < j < n && AsksForSetup(trace[i]) && trace[j] == SetUp(None)
  }

  predicate AsksForSetup(e: Event) {
    (e.Ran? && e.failure.Some? && SetupRequired(e.failure.value)) ||
    (e.LoggedIn? && e.result.Err? && SetupRequired(e.result.error))
  }

  lemma AttemptRetries(env: Env, w: World, o: Options)
    ensures var (r, v) := Attempt(env, w, o);
      var n := |v.trace| - 1;
      (|v.trace| > |w.trace| && v.trace[n].Ran? && v.trace[n].failure.Some? &&
       AuthFailed(v.trace[n].failure.value) && !Explicit(o)) ==> RetriedLogin(v.trace, n)
  {
    hide Resolve, Explicit, AuthFailed;
    var (auth, w1) := Resolve(env, w, o);
    ResolveAnswers(env, w, o);
    if auth.Ok? {
      var (r, w2) := RunCommand(env, w1, auth.value);
      if r.Err? && AuthFailed(r.error) && !Explicit(o) {
        var (cleared, w3) := Clear(env, w2);
        if cleared.Ok? {
          var (refreshed, w4) := Resolve(env, w3, o);
          ResolveAnswers(env, w3, o);
          if refreshed.Ok? {
            var (_, w5) := RunCommand(env, w4, refreshed.value);
            var i, j := |w1.trace|, |w2.trace|;
            assert w5.trace[i].Ran? && w5.trace[j] == Cleared(true);
            assert forall k :: i < k < |w5.trace| - 1 ==> !w5.trace[k].Ran?;
          }
        }
      }
    }
  }

  /** A run gives up on a command refused for its credentials only after logging in anew, unless
      a token was given, and on one that asks for setup only after a setup, if one is possible. */
  lemma GivesUpOnlyAfterRetrying(env: Env, disk: Config, o: Options)
    ensures var (r, w) := Run(env, World(disk, []), o);
      var n := |w.trace| - 1;
      w.trace != [] && w.trace[n].Ran? && w.trace[n].failure.Some? ==>
        && (AuthFailed(w.trace[n].failure.value) && !Explicit(o) ==> RetriedLogin(w.trace, n))
        && (SetupRequired(w.trace[n].failure.value) && CanSetUp(env, o) ==> RetriedSetup(w.trace, n))
  {
    hide Attempt, DoSetup, CanSetUp, Explicit, AuthFailed, SetupRequired, RetriedLogin, RetriedSetup;
    var w := Noted(World(disk, []), Probed);
    if env.probe.Ok? && (env.probe.value ==> CanSetUp(env, o)) {
      SetupEnds(env, w);
      var (ready, w1) := if env.probe.value then DoSetup(env, w) else (Ok(()), w);
      if ready.Ok? {
        AttemptEnds(env, w1, o);
        AttemptRetries(env, w1, o);
        var (r, w2) := Attempt(env, w1, o);
        if r.Err? && SetupRequired(r.error) && CanSetUp(env, o) {
          SetupEnds(env, w2);
          var (again, w3) := DoSetup(env, w2);
          if again.Ok? {
            AttemptEnds(env, w3, o);
            AttemptRetries(env, w3, o);
            SecondAttemptFollowsSetup(env, w2, w3, o);
          }
        }
      }
    }
  }

  lemma SecondAttemptFollowsSetup(env: Env, w2: World, w3: World, o: Options)
    requires w2.trace != [] && w3.trace == w2.trace + [SetUp(None)]
    requires AttemptAnswer(w2.trace[|w2.trace| - 1]).Err?
    requires SetupRequired(AttemptAnswer(w2.trace[|w2.trace| - 1]).error)
    ensures var v := Attempt(env, w3, o).1;
      |v.trace| > |w3.trace| ==> RetriedSetup(v.trace, |v.trace| - 1)
  {
    hide Attempt;
    AttemptEnds(env, w3, o);
    var v := Attempt(env, w3, o).1;
    if |v.trace| > |w3.trace| {
      var i := |w2.trace| - 1;
      assert v.trace[i] == w2.trace[i] && AsksForSetup(v.trace[i]);
      assert v.trace[i + 1] == w3.trace[i + 1] == SetUp(None);
    }
  }

  // ------------------------------------------------- credentials and the configuration

  /** How errors are told apart, and when setup is possible. */
  lemma ErrorsAreToldApart(env: Env, o: Options, code: int, setupMode: bool)
    ensures SetupRequired(Rpc(code, setupMode)) <==> code == 425 || setupMode
    ensures AuthFailed(Rpc(code, setupMode)) <==> code == 401
    ensures !SetupRequired(Message) && !AuthFailed(Message)
    ensures !CanSetUp(env, o) <==> !env.interactive && (o.username.None? || o.password.None?)
  {
  }

  /** A cached session is used exactly until it expires. */
  lemma SessionIsUsedUntilExpiry(c: Config, now: int, token: string)
    ensures SessionToken(c, now) == Some(token) <==>
              c.sessionToken == Some(token) && (c.sessionExpiresAt.Some? ==> now < c.sessionExpiresAt.value)
  {
  }

  /** A field counts when something is left of it without the whitespace around it. */
  lemma FieldCountsExactly(value: Option<string>, text: string)
    ensures NormalizeField(value) == Some(text) <==>
              value.Some? && text != "" && Tight(text) &&
              exists a: string, b: string :: value.value == a + text + b && AllWhitespace(a) && AllWhitespace(b)
  {
    hide Trim;
    if value.Some? {
      var a, b := TrimSplits(value.value);
      if text != "" && Tight(text) {
        forall a: string, b: string | value.value == a + text + b && AllWhitespace(a) && AllWhitespace(b)
          ensures Trim(value.value) == text
        {
          TrimOf(a, text, b);
        }
      }
    }
  }

  /** The user named on the command line goes before the one configured. */
  lemma UsernamePrecedence(configured: Option<string>, cli: Option<string>)
    ensures NormalizeField(cli).Some? ==> ResolveUsername(configured, cli) == NormalizeField(cli)
    ensures NormalizeField(cli).None? ==> ResolveUsername(configured, cli) == NormalizeField(configured)
  {
  }

  /** Without a token and without a password an unexpired session is used, and nothing is noted. */
  lemma CachedSessionIsUsed(env: Env, w: World, o: Options, token: string)
    requires !Explicit(o) && NormalizeField(o.password).None?
    requires w.disk.sessionToken == Some(token)
    requires w.disk.sessionExpiresAt.Some? ==> env.clock(|w.trace|) < w.disk.sessionExpiresAt.value
    ensures var (r, v) := Resolve(env, w, o);
      v == w && (r.Ok? ==> r.value.token == Some(token))
  {
    hide NormalizeField;
  }

  /** A login is made with what was passed on the command line, where something was. */
  predicate LoginUses(e: Event, o: Options) {
    e.LoggedIn? ==>
      && (NormalizeField(o.username).Some? ==> e.username == NormalizeField(o.username).value)
      && (NormalizeField(o.password).Some? ==> e.password == NormalizeField(o.password).value)
  }

  predicate LoginsUse(trace: seq<Event>, o: Options) {
    forall e :: e in trace ==> LoginUses(e, o)
  }

  /** Who logs in and with what: passed, then configured now, then configured at the start, then
      typed; a password only as passed or typed. */
  lemma LoginCredentials(env: Env, w: World, o: Options)
    ensures var v := Resolve(env, w, o).1;
      |v.trace| > |w.trace| ==>
        var e := v.trace[|w.trace|];
        && e.LoggedIn?
        && (if NormalizeField(o.username).Some? then Some(e.username) == NormalizeField(o.username)
            else if NormalizeField(w.disk.username).Some? then Some(e.username) == NormalizeField(w.disk.username)
            else if NormalizeField(env.startUsername).Some? then Some(e.username) == NormalizeField(env.startUsername)
            else env.interactive && env.typedUsername(|w.trace|) == Typed(Some(e.username)))
        && (if NormalizeField(o.password).Some? then Some(e.password) == NormalizeField(o.password)
            else env.interactive && env.typedPassword(|w.trace|) == Typed(Some(e.password)))
  {
    hide NormalizeField;
  }

  lemma ResolveLogsInAsTold(env: Env, w: World, o: Options)
    requires LoginsUse(w.trace, o)
    ensures LoginsUse(Resolve(env, w, o).1.trace, o)
  {
    hide NormalizeField, Resolve;
    ResolveAnswers(env, w, o);
    LoginCredentials(env, w, o);
    var v := Resolve(env, w, o).1;
    forall e | e in v.trace ensures LoginUses(e, o) {
      if |v.trace| > |w.trace| {
        assert v.trace == w.trace + [v.trace[|w.trace|]];
      } else {
        assert v.trace == w.trace;
      }
    }
  }

  lemma AttemptLogsInAsTold(env: Env, w: World, o: Options)
    requires LoginsUse(w.trace, o)
    ensures LoginsUse(Attempt(env, w, o).1.trace, o)
  {
    hide NormalizeField, Resolve, Explicit, AuthFailed;
    var (auth, w1) := Resolve(env, w, o);
    ResolveLogsInAsTold(env, w, o);
    if auth.Ok? {
      var (r, w2) := RunCommand(env, w1, auth.value);
      var (_, w3) := Clear(env, w2);
      assert LoginsUse(w3.trace, o);
      ResolveLogsInAsTold(env, w3, o);
    }
  }

  /** In every run, every login uses the user and the password that were passed, if they were. */
  lemma EveryLoginIsAsTold(env: Env, disk: Config, o: Options)
    ensures LoginsUse(Run(env, World(disk, []), o).1.trace, o)
  {
    hide Attempt, LoginUses;
    var w := Noted(World(disk, []), Probed);
    OtherEventsAreNoLogins(o);
    var (ready, w1) := if env.probe.Ok? && env.probe.value then DoSetup(env, w) else (Ok(()), w);
    assert LoginsUse(w1.trace, o);
    AttemptLogsInAsTold(env, w1, o);
    var (_, w2) := Attempt(env, w1, o);
    var (_, w3) := DoSetup(env, w2);
    assert LoginsUse(w3.trace, o);
    AttemptLogsInAsTold(env, w3, o);
  }

  lemma OtherEventsAreNoLogins(o: Options)
    ensures LoginUses(Probed, o) && forall f :: LoginUses(SetUp(f), o)
  {
  }

  /** Without a token, a password given or no valid session at hand means that credentials come
      from a login. */
  lemma OtherwiseLogsIn(env: Env, w: World, o: Options)
    requires !Explicit(o)
    requires NormalizeField(o.password).Some? || SessionToken(w.disk, env.clock(|w.trace|)).None?
    ensures var (r, v) := Resolve(env, w, o);
      r.Ok? ==> |v.trace| == |w.trace| + 1
  {
    hide NormalizeField;
  }

  /** Without a terminal, no credentials are even tried exactly when no user is named, or neither
      token, password nor valid session is at hand. */
  lemma RefusesExactlyWithoutCredentials(env: Env, w: World, o: Options)
    requires !env.interactive
    ensures var (r, v) := Resolve(env, w, o);
      var named := NormalizeField(o.username).Some? || NormalizeField(w.disk.username).Some? ||
                   NormalizeField(env.startUsername).Some?;
      var credited := NormalizeField(o.token).Some? || NormalizeField(o.password).Some? ||
                      SessionToken(w.disk, env.clock(|w.trace|)).Some?;
      r.Err? && v.trace == w.trace <==> !named || !credited
  {
    hide NormalizeField;
  }

  /** A login caches exactly the session it was issued, for the user who logged in. */
  lemma LoginChangesOnlyTheSession(env: Env, w: World, username: string, password: string)
    ensures var (r, v) := Issue(env, w, username, password);
      && v.disk.deviceToken == w.disk.deviceToken && v.disk.deviceId == w.disk.deviceId
      && (r.Err? ==> v.disk == w.disk)
      && (r.Ok? ==> env.login(|w.trace|).Issued?)
      && (r.Ok? ==>
            var l := env.login(|w.trace|);
            && r.value == Credentials(Some(username), None, Some(l.token))
            && v.disk.username == Some(username) && v.disk.sessionToken == Some(l.token)
            && v.disk.sessionTokenId == Some(l.id) && v.disk.sessionExpiresAt == l.expiresAt)
  {
  }

  /** Clearing removes the session, all three fields of it, and nothing else. */
  lemma ClearingRemovesOnlyTheSession(env: Env, w: World)
    ensures var (r, v) := Clear(env, w);
      && v.disk.username == w.disk.username
      && v.disk.deviceToken == w.disk.deviceToken && v.disk.deviceId == w.disk.deviceId
      && (r.Ok? ==> Session(v.disk) == (None, None, None))
      && (r.Err? ==> v.disk == w.disk)
      && (Session(w.disk) == (None, None, None) ==> r.Ok? && v.disk == w.disk)
  {
  }

  /** Setup stores the user and the device token it is told of, and leaves sessions alone. */
  lemma SetupStoresWhatItIsTold(env: Env, w: World)
    ensures var (r, v) := DoSetup(env, w);
      && Session(v.disk) == Session(w.disk)
      && (r.Err? ==> v.disk == w.disk)
      && (r.Ok? && env.setup(|w.trace|) == SetupDone(None) ==> v.disk == w.disk)
      && (forall name, device :: r.Ok? && env.setup(|w.trace|) == SetupDone(Some((name, device))) ==>
            && v.disk.username == Some(name)
            && v.disk.deviceToken == (if device.Some? then Some(device.value.token) else w.disk.deviceToken)
            && v.disk.deviceId ==
                 if device.Some? && device.value.deviceId.Some? then device.value.deviceId else w.disk.deviceId)
  {
  }

  // ------------------------------------------------------------- the bounds are met

  /** A gateway that first needs setup, then refuses every session once, and is reset in between. */
  const FLAKY: Env := Env(
    Ok(true), false, None,
    n => SetupDone(None),
    n => Issued("token", "id", None),
    n => if n == 3 || n == 9 then Some(Rpc(401, false)) else if n == 6 then Some(Rpc(425, false)) else None,
    n => true,
    n => 0,
    n => PromptFails,
    n => PromptFails)

  const PASSWORD_LOGIN := Options(None, Some("user"), Some("secret"))

  lemma FlakyAttempt(w: World)
    requires w.disk.sessionExpiresAt.None?
    requires FLAKY.command(|w.trace| + 1) == Some(Rpc(401, false))
    ensures var (r, v) := Attempt(FLAKY, w, PASSWORD_LOGIN);
      var c := Credentials(Some("user"), None, Some("token"));
      var failure := FLAKY.command(|w.trace| + 4);
      && v.trace == w.trace + [LoggedIn("user", "secret", Ok("token")), Ran(c, Some(Rpc(401, false))),
          Cleared(true), LoggedIn("user", "secret", Ok("token")), Ran(c, failure)]
      && v.disk.sessionExpiresAt.None?
      && r == if failure.Some? then Err(failure.value) else Ok(())
  {
    TrimNothing("user");
    TrimNothing("secret");
    FlakyResolve(w);
    var (auth, w1) := Resolve(FLAKY, w, PASSWORD_LOGIN);
    var (_, w2) := RunCommand(FLAKY, w1, auth.value);
    var (_, w3) := Clear(FLAKY, w2);
    FlakyResolve(w3);
  }

  lemma FlakyResolve(w: World)
    ensures var (r, v) := Resolve(FLAKY, w, PASSWORD_LOGIN);
      && r == Ok(Credentials(Some("user"), None, Some("token")))
      && v.trace == w.trace + [LoggedIn("user", "secret", Ok("token"))]
      && v.disk == WithSession(w.disk, "user", Issued("token", "id", None))
  {
    TrimNothing("user");
    TrimNothing("secret");
    assert NormalizeField(PASSWORD_LOGIN.username) == Some("user");
  }

  /** All three bounds are reached by one run. */
  lemma BoundsAreReached(disk: Config)
    requires disk.sessionExpiresAt.None?
    ensures var m := Observed(Run(FLAKY, World(disk, []), PASSWORD_LOGIN).1.trace, false);
      m.commands == 4 && m.setups == 2 && m.clears == 2
  {
    hide Attempt, Observed;
    var w0 := World(disk, []);
    var w := Noted(w0, Probed);
    var (_, w1) := DoSetup(FLAKY, w);
    FlakyAttempt(w1);
    var (r, w2) := Attempt(FLAKY, w1, PASSWORD_LOGIN);
    var (_, w3) := DoSetup(FLAKY, w2);
    FlakyAttempt(w3);
    var (_, w4) := Attempt(FLAKY, w3, PASSWORD_LOGIN);
    FlakyCounts(w1, w2);
    FlakyCounts(w3, w4);
    ObserveNext(w0, Probed, false);
    SetupObserved(FLAKY, w, false);
    SetupObserved(FLAKY, w2, false);
    NothingObserved(false);
  }

  lemma NothingObserved(explicit: bool)
    ensures Observed([], explicit) == QUIET
  {
  }

  lemma FlakyCounts(w: World, v: World)
    requires |v.trace| == |w.trace| + 5 && w.trace == v.trace[..|w.trace|]
    requires v.trace[|w.trace|].LoggedIn? && v.trace[|w.trace| + 3].LoggedIn?
    requires v.trace[|w.trace| + 1].Ran? && v.trace[|w.trace| + 4].Ran? && v.trace[|w.trace| + 2].Cleared?
    ensures var m, n := Observed(w.trace, false), Observed(v.trace, false);
      n.commands == m.commands + 2 && n.clears == m.clears + 1 && n.setups == m.setups
  {
    var k, t := |w.trace|, v.trace;
    assert t[..k + 1][..k] == t[..k];
    assert t[..k + 2][..k + 1] == t[..k + 1];
    assert t[..k + 3][..k + 2] == t[..k + 2];
    assert t[..k + 4][..k + 3] == t[..k + 3];
    assert t[..k + 5] == t;
    assert Observed(t[..k + 1], false) == Observe(Observed(t[..k], false), t[k], false);
    assert Observed(t[..k + 2], false) == Observe(Observed(t[..k + 1], false), t[k + 1], false);
    assert Observed(t[..k + 3], false) == Observe(Observed(t[..k + 2], false), t[k + 2], false);
    assert Observed(t[..k + 4], false) == Observe(Observed(t[..k + 3], false), t[k + 3], false);
    assert Observed(t, false) == Observe(Observed(t[..k + 4], false), t[k + 4], false);
  }

  // ------------------------------------------------------------------- devices

  /** Credentials of a device: never prompted for, from the command line or the configuration. */
  function ResolveDevice(c: Config, token: Option<string>, cliUsername: Option<string>): Result<Credentials, Error> {
    var username := ResolveUsername(c.username, cliUsername);
    var credential := OrElseSome(NormalizeField(token), NormalizeField(c.deviceToken));
    if credential.Some? && username.None? then Err(Message)
    else if username.Some? && credential.None? then Err(Message)
    else if !Usable(Credentials(username, None, credential)) then Err(Message)
    else Ok(Credentials(username, None, credential))
  }

  /** A device is resolved to a name with a token, or to neither; nothing else. */
  lemma DeviceHasBothOrNeither(c: Config, token: Option<string>, cliUsername: Option<string>)
    ensures var r := ResolveDevice(c, token, cliUsername);
      var named := NormalizeField(cliUsername).Some? || NormalizeField(c.username).Some?;
      var credited := NormalizeField(token).Some? || NormalizeField(c.deviceToken).Some?;
      && (r.Ok? <==> named == credited)
      && (r.Ok? ==>
            r.value.password.None? && (r.value.username.Some? <==> named) && (r.value.token.Some? <==> credited))
      && (r.Ok? && NormalizeField(token).Some? ==> r.value.token == NormalizeField(token))
      && (r.Ok? && NormalizeField(token).None? ==> r.value.token == NormalizeField(c.deviceToken))
      && (r.Ok? && NormalizeField(cliUsername).Some? ==> r.value.username == NormalizeField(cliUsername))
      && (r.Ok? && NormalizeField(cliUsername).None? ==> r.value.username == NormalizeField(c.username))
  {
  }
}
