/**
 * The process-wide state of app.py: the metric history, the alert evaluator, the alert log and
 * the authenticator, with one step of the collection loop and the request handlers that change
 * core state (register, login, the bearer check and the threshold update).
 */
module Monitor {

  import opened Wrappers
  import opened Alerts
  import opened Auth
  import opened AlertLog
  import opened History
  import opened Bearer

  /** An error response: HTTP status and the `error` text. */
  datatype HttpError = HttpError(status: nat, message: string)

  const CREDENTIALS_REQUIRED: string := "Username and password required"
  const UNAUTHORIZED: string := "Unauthorized"
  const INVALID_TOKEN: string := "Invalid token"

  /** How many of the newest samples the summary averages and the metrics endpoint returns. */
  const SUMMARY_WINDOW: nat := 10
  const METRICS_WINDOW: nat := 50

  /** A request field that is present and not empty (`not value` is false). */
  predicate Present(field: Option<string>)
  {
    field.Some? && field.value != ""
  }

  /** The header passes the "Bearer " check and its token names a live session. */
  predicate Admits(sessions: map<string, Session>, header: Option<string>, now: int)
  {
    var token := BearerToken(header);
    token.Some? && token.value in sessions && !Expired(sessions[token.value], now)
  }

  /**
   * The session table after the bearer check: the presented token's session is deleted when it
   * has expired, and nothing else changes.
   */
  function AfterCheck(sessions: map<string, Session>, header: Option<string>, now: int): map<string, Session>
  {
    var token := BearerToken(header);
    if token.Some? && token.value in sessions && Expired(sessions[token.value], now)
    then sessions - {token.value}
    else sessions
  }

  /** What the bearer check decided. */
  datatype AuthCheck = Authorized | NoBearer | BadToken

  class Monitor {
    var recentMetrics: seq<Sample>
    const dbManager: DatabaseManager
    const authManager: AuthManager
    const alertManager: AlertManager

    ghost predicate Valid()
      reads this, dbManager, authManager, alertManager
    {
      && |recentMetrics| <= MAX_METRICS_STORAGE
      && dbManager.Valid()
      && authManager.Valid()
      && alertManager.Valid()
    }

    /** The state at start-up: empty history and tables, initial thresholds, an open alert log. */
    constructor ()
      ensures Valid()
      ensures fresh(dbManager) && fresh(authManager) && fresh(alertManager)
      ensures recentMetrics == []
      ensures dbManager.connected && dbManager.rows == [] && dbManager.dbPath == DEFAULT_DB_PATH
      ensures authManager.users == map[] && authManager.sessions == map[]
      ensures alertManager.GetThresholds() == Thresholds(INITIAL_CPU_THRESHOLD, INITIAL_MEMORY_THRESHOLD)
    {
      recentMetrics := [];
      dbManager := new DatabaseManager(DEFAULT_DB_PATH);
      authManager := new AuthManager();
      alertManager := new AlertManager();
    }

    /** Appends a sample and drops the oldest once the history holds more than MAX_METRICS_STORAGE. */
    method PushMetric(sample: Sample)
      requires Valid()
      modifies this
      ensures Valid()
      ensures recentMetrics == Push(old(recentMetrics), sample)
      ensures recentMetrics == Last(old(recentMetrics) + [sample], MAX_METRICS_STORAGE)
    {
      recentMetrics := recentMetrics + [sample];
      if |recentMetrics| > MAX_METRICS_STORAGE {
        recentMetrics := recentMetrics[1..];
      }
    }

    /**
     * One iteration of the collection loop, given the readings and the clock: the sample is
     * pushed first, then the reading is evaluated and every alert is stored, in the order the
     * evaluator returned them, as new unacknowledged rows with the next ids. The thresholds are
     * not touched and the rows already stored are kept as they were. A store on a closed log
     * fails; the sample is in the history all the same, and nothing is stored.
     */
    method CollectOnce(cpu: real, memory: real, now: int) returns (r: Outcome<DbError>)
      requires Valid()
      modifies this, dbManager
      ensures Valid()
      ensures recentMetrics == Push(old(recentMetrics), Sample(now, cpu, memory))
      ensures dbManager.connected == old(dbManager.connected)
      ensures r.Pass? <==> old(dbManager.connected) || alertManager.CheckThresholds(cpu, memory, now) == []
      ensures r.Pass? ==>
        var alerts := alertManager.CheckThresholds(cpu, memory, now);
        && dbManager.rows == old(dbManager.rows) + NewRows(old(dbManager.nextId), alerts)
        && dbManager.nextId == old(dbManager.nextId) + |alerts|
        && AlertsOf(dbManager.rows) == AlertsOf(old(dbManager.rows)) + alerts
      ensures r.Fail? ==>
        r.error == ConnectionClosed && dbManager.rows == old(dbManager.rows) && dbManager.nextId == old(dbManager.nextId)
    {
      PushMetric(Sample(now, cpu, memory));
      var alerts := alertManager.CheckThresholds(cpu, memory, now);
      r := StoreAlerts(alerts);
    }

    /**
     * Stores the alerts one by one, in order, stopping at the first failed store. The store
     * fails only on a closed log, and then already on the first alert. On success the rows
     * stored before are untouched and each alert follows as a new row with the next id.
     */
    method StoreAlerts(alerts: seq<Alert>) returns (r: Outcome<DbError>)
      requires dbManager.Valid()
      modifies dbManager
      ensures dbManager.Valid()
      ensures dbManager.connected == old(dbManager.connected)
      ensures r.Pass? <==> old(dbManager.connected) || alerts == []
      ensures r.Pass? ==>
        && dbManager.rows == old(dbManager.rows) + NewRows(old(dbManager.nextId), alerts)
        && dbManager.nextId == old(dbManager.nextId) + |alerts|
        && AlertsOf(dbManager.rows) == AlertsOf(old(dbManager.rows)) + alerts
      ensures r.Fail? ==>
        r.error == ConnectionClosed && dbManager.rows == old(dbManager.rows) && dbManager.nextId == old(dbManager.nextId)
    {
      ghost var stored0, firstId, wasConnected := dbManager.rows, dbManager.nextId, dbManager.connected;
      for i := 0 to |alerts|
        invariant dbManager.Valid()
        invariant dbManager.connected == wasConnected
        invariant i > 0 ==> wasConnected
        invariant dbManager.rows == stored0 + NewRows(firstId, alerts[..i])
        invariant dbManager.nextId == firstId + i
      {
        var stored := dbManager.StoreAlert(alerts[i]);
        if stored.Fail? {
          return stored;
        }
        NewRowsSnoc(stored0, firstId, alerts, i);
      }
      assert alerts[..|alerts|] == alerts;
      AlertsOfAppend(stored0, NewRows(firstId, alerts));
      r := Pass;
    }

    /** The samples the summary averages: the newest SUMMARY_WINDOW, oldest first. */
    function SummaryMetrics(): (window: seq<Sample>)
      reads this
      ensures |window| == Min(|recentMetrics|, SUMMARY_WINDOW)
      ensures window == recentMetrics[|recentMetrics| - |window|..]
    {
      Last(recentMetrics, SUMMARY_WINDOW)
    }

    /** The samples the metrics endpoint returns: the newest METRICS_WINDOW, oldest first. */
    function LatestMetrics(): (window: seq<Sample>)
      reads this
      ensures |window| == Min(|recentMetrics|, METRICS_WINDOW)
      ensures window == recentMetrics[|recentMetrics| - |window|..]
    {
      Last(recentMetrics, METRICS_WINDOW)
    }

    /**
     * The guard of the protected routes: no "Bearer " header, or a token that is not a live
     * session (an expired one is deleted on the way), is refused.
     */
    method CheckBearer(header: Option<string>, now: int) returns (check: AuthCheck)
      requires Valid()
      modifies authManager
      ensures Valid()
      ensures check == NoBearer <==> BearerToken(header).None?
      ensures check == Authorized <==> Admits(old(authManager.sessions), header, now)
      ensures authManager.users == old(authManager.users)
      ensures authManager.sessions == AfterCheck(old(authManager.sessions), header, now)
      ensures check == Authorized ==> authManager.sessions == old(authManager.sessions)
    {
      var token := BearerToken(header);
      if token.None? {
        return NoBearer;
      }
      var valid := authManager.ValidateSession(token.value, now);
      check := if valid then Authorized else BadToken;
    }

    /**
     * The threshold update route. After the bearer check, the CPU value (when given) is applied
     * first and the memory value (when given) second; a rejected CPU value stops the update
     * before the memory setter runs, and a rejected memory value leaves an accepted CPU value
     * in place. Rejections answer 500 with the setter's message.
     */
    method UpdateThresholds(header: Option<string>, cpu: Option<real>, memory: Option<real>, now: int)
      returns (r: Result<Thresholds, HttpError>)
      requires Valid()
      modifies authManager, alertManager
      ensures Valid()
      ensures authManager.users == old(authManager.users)
      ensures authManager.sessions == AfterCheck(old(authManager.sessions), header, now)
      ensures alertManager.activeAlerts == old(alertManager.activeAlerts)
      ensures !Admits(old(authManager.sessions), header, now) ==>
        && r.Failure? && r.error.status == 401
        && r.error.message == (if BearerToken(header).None? then UNAUTHORIZED else INVALID_TOKEN)
        && alertManager.GetThresholds() == old(alertManager.GetThresholds())
      ensures Admits(old(authManager.sessions), header, now) ==>
        var cpuAccepted := cpu.None? || InRange(cpu.value);
        var memoryAccepted := memory.None? || InRange(memory.value);
        && alertManager.cpuThreshold ==
             (if cpu.Some? && InRange(cpu.value) then cpu.value else old(alertManager.cpuThreshold))
        && alertManager.memoryThreshold ==
             (if cpuAccepted && memory.Some? && InRange(memory.value) then memory.value
              else old(alertManager.memoryThreshold))
        && (r.Success? <==> cpuAccepted && memoryAccepted)
        && (r.Success? ==> r.value == alertManager.GetThresholds())
        && (r.Failure? ==> r.error == HttpError(500, if cpuAccepted then MEMORY_RANGE_ERROR else CPU_RANGE_ERROR))
    {
      var check := CheckBearer(header, now);
      if check == NoBearer {
        return Failure(HttpError(401, UNAUTHORIZED));
      }
      if check == BadToken {
        return Failure(HttpError(401, INVALID_TOKEN));
      }
      if cpu.Some? {
        var outcome := alertManager.SetCpuThreshold(cpu.value);
        if outcome.Fail? {
          return Failure(HttpError(500, outcome.error));
        }
      }
      if memory.Some? {
        var outcome := alertManager.SetMemoryThreshold(memory.value);
        if outcome.Fail? {
          return Failure(HttpError(500, outcome.error));
        }
      }
      r := Success(alertManager.GetThresholds());
    }

    /**
     * The registration route: a missing or empty username or password answers 400 without
     * reaching the authenticator; otherwise the authenticator registers the user, and a taken
     * name answers 400 with its message.
     */
    method Register(username: Option<string>, password: Option<string>, salt: nat, now: int)
      returns (r: Result<nat, HttpError>)
      requires Valid()
      modifies authManager
      ensures Valid()
      ensures authManager.sessions == old(authManager.sessions)
      ensures !(Present(username) && Present(password)) ==>
        r == Failure(HttpError(400, CREDENTIALS_REQUIRED)) && authManager.users == old(authManager.users)
      ensures Present(username) && Present(password) && username.value in old(authManager.users) ==>
        r == Failure(HttpError(400, DUPLICATE_USER)) && authManager.users == old(authManager.users)
      ensures Present(username) && Present(password) && username.value !in old(authManager.users) ==>
        && r == Success(|old(authManager.users)| + 1)
        && authManager.users == old(authManager.users)[username.value :=
             User(|old(authManager.users)| + 1, username.value, HashPassword(password.value, salt), now)]
    {
      if !Present(username) || !Present(password) {
        return Failure(HttpError(400, CREDENTIALS_REQUIRED));
      }
      var registered := authManager.RegisterUser(username.value, password.value, salt, now);
      match registered
      case Success(id) => r := Success(id);
      case Failure(message) => r := Failure(HttpError(400, message));
    }

    /**
     * The login route: a missing or empty username or password answers 400 without reaching
     * the authenticator; bad credentials answer 401 with the one undifferentiated message;
     * otherwise the new session's token is returned.
     */
    method Login(username: Option<string>, password: Option<string>, token: string, now: int)
      returns (r: Result<string, HttpError>)
      requires Valid()
      modifies authManager
      ensures Valid()
      ensures authManager.users == old(authManager.users)
      ensures !(Present(username) && Present(password)) ==>
        r == Failure(HttpError(400, CREDENTIALS_REQUIRED)) && authManager.sessions == old(authManager.sessions)
      ensures Present(username) && Present(password) ==>
        && (r.Success? <==> username.value in authManager.users &&
                            CheckPassword(password.value, authManager.users[username.value].passwordHash))
        && (r.Failure? ==> r.error == HttpError(401, INVALID_CREDENTIALS) &&
                           authManager.sessions == old(authManager.sessions))
        && (r.Success? ==> r.value == token && authManager.sessions == old(authManager.sessions)[token :=
              Session(authManager.users[username.value].id, username.value, now + SESSION_DURATION)])
    {
      if !Present(username) || !Present(password) {
        return Failure(HttpError(400, CREDENTIALS_REQUIRED));
      }
      var loggedIn := authManager.LoginUser(username.value, password.value, token, now);
      match loggedIn
      case Success(t) => r := Success(t);
      case Failure(message) => r := Failure(HttpError(401, message));
    }
  }

  /**
   * The end-to-end case: with thresholds 25 and 30, a reading of 40% CPU and 10% memory gives
   * exactly one CPU alert at threshold 25, and a log holding just that alert counts one CPU row.
   */
  lemma OneCpuAlert(m: AlertManager, now: int)
    requires m.cpuThreshold == INITIAL_CPU_THRESHOLD && m.memoryThreshold == INITIAL_MEMORY_THRESHOLD
    ensures m.CheckThresholds(40.0, 10.0, now) == [Alert(CPU, HighCpuUsage(40.0), 40.0, 25.0, now, HIGH)]
    ensures Breakdown([NewRow(1, m.CheckThresholds(40.0, 10.0, now)[0])]) == map[CPU := 1]
  {
    var alerts := m.CheckThresholds(40.0, 10.0, now);
    assert exists i :: 0 <= i < |alerts| && alerts[i].kind == CPU;
    var rows := [NewRow(1, alerts[0])];
    assert Kinds(rows) == [CPU];
    assert multiset(Kinds(rows))[CPU] == 1;
  }

  /**
   * A session's life seen from the routes: register, a refused duplicate, login, a valid
   * token at once and at the last instant of its lifetime, an expired one after it.
   */
  method SessionLifecycle(salt: nat, token: string, now: int)
  {
    var app := new Monitor();
    var alice, pw := Some("alice"), Some("pw123");
    var first := app.Register(alice, pw, salt, now);
    assert first == Success(1);
    var again := app.Register(alice, Some("other"), salt, now);
    assert again == Failure(HttpError(400, DUPLICATE_USER));
    var login := app.Login(alice, pw, token, now);
    assert login == Success(token);
    var header := Some(BEARER_PREFIX + token);
    assert header.value[..|BEARER_PREFIX|] == BEARER_PREFIX;
    assert header.value[|BEARER_PREFIX|..] == token;
    var atOnce := app.authManager.ValidateSession(token, now);
    assert atOnce;
    var atExpiry := app.authManager.ValidateSession(token, now + SESSION_DURATION);
    assert atExpiry;
    var after := app.authManager.ValidateSession(token, now + SESSION_DURATION + 1);
    assert !after;
    var gone := app.authManager.ValidateSession(token, now);
    assert !gone;
  }
}
