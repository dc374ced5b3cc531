/**
 * The admin gate and console routes (routes/admin.js): the session check,
 * the constant-time PIN comparison, the PIN form and its submission, the
 * two JSON endpoints behind the session check, and logout.
 */
module AdminRoutes {
  import opened Common
  import opened Records
  import opened Persistence
  import opened Http
  import opened RateLimiter
  import opened Utf8
  import opened JsNumber
  import opened StatsService

  const GatePath: string := "/admin2430.html"
  const DashboardPath: string := "/admin2430.html/dashboard"
  const GateView: string := "admin-login"
  const GateTitle: string := "Admin Access"
  const PinConfigKey: string := "admin_pin"
  const PinRequiredMessage: string := "PIN is required"
  const RetryMessage: string := "System error - please try again"
  const ContactAdminMessage: string := "System error - please contact administrator"
  const InvalidPinMessage: string := "Invalid PIN code"

  const DefaultDays: int := 7
  const TopIPsLimit: nat := 10
  const TopUsernamesLimit: nat := 20
  const DefaultPageSize: int := 25
  const DefaultOffset: int := 0

  /** An express-session session: its id and the two values the gate stores in it. */
  class Session {
    const id: string
    var isAdmin: bool
    var loginTime: Option<Time>

    constructor(id: string)
      ensures this.id == id && !isAdmin && loginTime.None?
    {
      this.id := id;
      this.isAdmin := false;
      this.loginTime := None;
    }
  }

  // ---- Session check -------------------------------------------------------

  /** `requireAdminAuth`: pass on exactly the requests whose session is marked admin. */
  function RequireAdminAuth(session: Session?): (r: Response)
    reads session
    ensures r.Next? <==> session != null && session.isAdmin
    ensures !r.Next? ==> r == Redirect(GatePath)
  {
    if session != null && session.isAdmin then Next else Redirect(GatePath)
  }

  /** `GET /admin2430.html`: an admin session goes to the dashboard, anyone else gets the PIN form. */
  function PinPage(session: Session?): (r: Response)
    reads session
    ensures r == Redirect(DashboardPath) <==> RequireAdminAuth(session).Next?
    ensures !RequireAdminAuth(session).Next? ==> r.Render? && r.status == StatusOk && r.view == GateView && r.message.None?
  {
    if session != null && session.isAdmin then Redirect(DashboardPath)
    else Render(StatusOk, GateView, GateTitle, None)
  }

  // ---- Constant-time comparison ---------------------------------------------

  /** `crypto.timingSafeEqual` on two buffers of the same length: every byte agrees. */
  function TimingSafeEqual(a: seq<byte>, b: seq<byte>): (r: bool)
    requires |a| == |b|
    ensures r <==> forall i :: 0 <= i < |a| ==> a[i] == b[i]
  {
    if a == [] then true else a[0] == b[0] && TimingSafeEqual(a[1..], b[1..])
  }

  /**
   * `safeCompare(a, b)`: compares the UTF-8 encodings of the two strings,
   * answering false at once when their byte lengths differ.
   */
  function SafeCompare(a: string, b: string): bool
  {
    var bufA := Encode(a);
    var bufB := Encode(b);
    if |bufA| != |bufB| then false else TimingSafeEqual(bufA, bufB)
  }

  /** The comparison is exact string equality, in both directions. */
  lemma SafeCompareIsEquality(a: string, b: string)
    ensures SafeCompare(a, b) <==> a == b
  {
    if SafeCompare(a, b) {
      assert Encode(a) == Encode(b);
      EncodeInjective(a, b);
    }
  }

  // ---- PIN submission --------------------------------------------------------

  /**
   * Everything `POST /admin2430.html` decides, given the state of the
   * database: the response, the admin_access_logs row it writes (if the
   * write goes through), and whether the session is marked admin.
   */
  datatype PinOutcome = PinOutcome(response: Response, logged: Option<AdminAccessEntry>, grant: bool)

  function Failure(status: nat, message: string): Response
  {
    Render(status, GateView, GateTitle, Some(message))
  }

  /** The outcome after writing `row`: if the write throws, the generic retry error. */
  function AfterWrite(row: AdminAccessEntry, writes: bool, success: Response, grant: bool): PinOutcome
  {
    if writes then PinOutcome(success, Some(row), grant)
    else PinOutcome(Failure(InternalServerError, RetryMessage), None, false)
  }

  function SubmitPinOutcome(up: bool, config: map<string, string>, isIP: string -> bool,
                            ip: string, pin: Option<string>, sessionId: string, now: Time): (o: PinOutcome)
    ensures o.grant <==> o.response == Redirect(DashboardPath)
    ensures o.logged.Some? ==> o.logged.value.accessGranted == o.grant
    ensures o.logged.Some? ==> (o.logged.value.sessionId.Some? <==> o.grant)
    ensures o.grant ==> o.logged.Some? && o.logged.value.sessionId == Some(sessionId)
    ensures o.logged.Some? ==> AdminAccessAccepted(o.logged.value, isIP) && up
    ensures !up ==> o.logged.None?
    ensures Truthy(pin) && o.logged.None? ==> o.response == Failure(InternalServerError, RetryMessage)
    ensures !Truthy(pin) ==> o == PinOutcome(Failure(BadRequest, PinRequiredMessage), None, false)
  {
    if !Truthy(pin) then PinOutcome(Failure(BadRequest, PinRequiredMessage), None, false)
    else if !up then PinOutcome(Failure(InternalServerError, RetryMessage), None, false)
    else if PinConfigKey !in config then
      var row := AdminAccessEntry(0, ip, now, pin.value, false, None);
      AfterWrite(row, AdminAccessAccepted(row, isIP), Failure(InternalServerError, ContactAdminMessage), false)
    else
      var valid := SafeCompare(pin.value, config[PinConfigKey]);
      var row := AdminAccessEntry(0, ip, now, pin.value, valid, if valid then Some(sessionId) else None);
      AfterWrite(row, AdminAccessAccepted(row, isIP),
                 if valid then Redirect(DashboardPath) else Failure(Unauthorized, InvalidPinMessage), valid)
  }

  /**
   * Access is granted exactly when a PIN was given, the configured PIN
   * exists and equals it, and the attempt was logged; an empty or missing
   * PIN is answered 400 and never logged.
   */
  lemma GrantOnlyForConfiguredPin(up: bool, config: map<string, string>, isIP: string -> bool,
                                  ip: string, pin: Option<string>, sessionId: string, now: Time)
    ensures var o := SubmitPinOutcome(up, config, isIP, ip, pin, sessionId, now);
      o.grant <==> Truthy(pin) && PinConfigKey in config && pin.value == config[PinConfigKey] && o.logged.Some?
    ensures !Truthy(pin) ==>
              SubmitPinOutcome(up, config, isIP, ip, pin, sessionId, now)
              == PinOutcome(Failure(BadRequest, PinRequiredMessage), None, false)
  {
    if Truthy(pin) && PinConfigKey in config {
      SafeCompareIsEquality(pin.value, config[PinConfigKey]);
    }
  }

  /**
   * With the database up and a row it accepts, every submission of a
   * non-empty PIN is logged, with the PIN as entered; a wrong PIN is
   * answered 401 and a missing configuration 500.
   */
  lemma EverySubmissionLogged(up: bool, config: map<string, string>, isIP: string -> bool,
                              ip: string, pin: Option<string>, sessionId: string, now: Time)
    requires up && Truthy(pin) && isIP(ip) && |ip| <= 45
    requires FitsColumn(pin, 10) && FitsColumn(Some(sessionId), 255)
    ensures var o := SubmitPinOutcome(up, config, isIP, ip, pin, sessionId, now);
      && o.logged.Some? && o.logged.value.pinEntered == pin.value && o.logged.value.ipAddress == ip
      && (PinConfigKey !in config ==> o.response == Failure(InternalServerError, ContactAdminMessage))
      && (PinConfigKey in config && pin.value != config[PinConfigKey] ==>
            o.response == Failure(Unauthorized, InvalidPinMessage))
  {
    if PinConfigKey in config {
      SafeCompareIsEquality(pin.value, config[PinConfigKey]);
    }
  }

  /**
   * pin_entered is a `STRING(10)` column, so a PIN of more than ten
   * characters, or one holding U+0000, makes the log write throw: the
   * submission is answered with the generic 500 and leaves no trace in
   * admin_access_logs.
   */
  lemma RefusedPinNotLogged(up: bool, config: map<string, string>, isIP: string -> bool,
                            ip: string, pin: Option<string>, sessionId: string, now: Time)
    requires pin.Some? && !FitsColumn(pin, 10)
    ensures SubmitPinOutcome(up, config, isIP, ip, pin, sessionId, now)
            == PinOutcome(Failure(InternalServerError, RetryMessage), None, false)
  {
  }

  /**
   * `POST /admin2430.html` after the limiter: looks up the configured PIN,
   * logs the attempt, and marks the session admin (with the login time)
   * only after a correct PIN was logged. The outcome is `SubmitPinOutcome`.
   */
  method SubmitPin(store: Store, session: Session, ip: string, pin: Option<string>, now: Time)
    returns (r: Response)
    modifies store`adminAccess, session
    ensures var o := SubmitPinOutcome(old(store.up), old(store.config), store.isIP, ip, pin, session.id, now);
      && r == o.response
      && store.adminAccess == (if o.logged.Some? then old(store.adminAccess) + [o.logged.value.(id := |old(store.adminAccess)| + 1)]
                               else old(store.adminAccess))
      && session.isAdmin == (old(session.isAdmin) || o.grant)
      && session.loginTime == (if o.grant then Some(now) else old(session.loginTime))
  {
    if !Truthy(pin) {
      return Failure(BadRequest, PinRequiredMessage);
    }
    var config := store.FindConfig(PinConfigKey);
    if config.Failed? {
      return Failure(InternalServerError, RetryMessage);
    }
    if config.value.None? {
      var row := AdminAccessEntry(0, ip, now, pin.value, false, None);
      var ok := store.CreateAdminAccess(row);
      if !ok {
        return Failure(InternalServerError, RetryMessage);
      }
      return Failure(InternalServerError, ContactAdminMessage);
    }
    var valid := SafeCompare(pin.value, config.value.value);
    var row := AdminAccessEntry(0, ip, now, pin.value, valid, if valid then Some(session.id) else None);
    var ok := store.CreateAdminAccess(row);
    if !ok {
      return Failure(InternalServerError, RetryMessage);
    }
    if valid {
      session.isAdmin := true;
      session.loginTime := Some(now);
      r := Redirect(DashboardPath);
    } else {
      r := Failure(Unauthorized, InvalidPinMessage);
    }
  }

  /**
   * The PIN route as mounted: the admin limiter first, keyed by the client
   * IP. A refused request is answered 429, writes nothing and leaves the
   * session as it was; a request let through is handled by `SubmitPin`.
   */
  method PostPin(limiter: FixedWindowLimiter, store: Store, session: Session, ip: string, pin: Option<string>, now: Time)
    returns (r: Response)
    modifies limiter`windows, store`adminAccess, session
    ensures limiter.windows == old(limiter.windows)[ip := Hit(Lookup(old(limiter.windows), ip), now, limiter.windowMs)]
    ensures limiter.windows[ip].hits > limiter.max ==>
              && r == JsonError(TooManyRequests, limiter.limitMessage)
              && store.adminAccess == old(store.adminAccess)
              && session.isAdmin == old(session.isAdmin)
              && session.loginTime == old(session.loginTime)
    ensures limiter.windows[ip].hits <= limiter.max ==>
              var o := SubmitPinOutcome(old(store.up), old(store.config), store.isIP, ip, pin, session.id, now);
              && r == o.response
              && store.adminAccess == (if o.logged.Some? then old(store.adminAccess) + [o.logged.value.(id := |old(store.adminAccess)| + 1)]
                                       else old(store.adminAccess))
              && session.isAdmin == (old(session.isAdmin) || o.grant)
              && session.loginTime == (if o.grant then Some(now) else old(session.loginTime))
  {
    var gate := limiter.Admit(ip, now);
    if gate != Next {
      return gate;
    }
    r := SubmitPin(store, session, ip, pin, now);
  }

  /**
   * `POST /admin2430.html/logout`: destroys the session and redirects to
   * the PIN form, whether or not destroying reported an error.
   */
  method Logout(session: Session, destroyFailed: bool) returns (r: Response)
    modifies session
    ensures r == Redirect(GatePath)
    ensures !destroyFailed ==> !session.isAdmin && session.loginTime.None?
    ensures destroyFailed ==> session.isAdmin == old(session.isAdmin) && session.loginTime == old(session.loginTime)
  {
    if !destroyFailed {
      session.isAdmin := false;
      session.loginTime := None;
    }
    r := Redirect(GatePath);
  }

  // ---- JSON endpoints ------------------------------------------------------

  /** The body of `GET /admin2430.html/api/stats`. */
  datatype StatsBody = StatsBody(timeline: Timeline, topIPs: Ranking, topUsernames: Ranking, distribution: Ranking)

  /** A JSON endpoint either passes the session check and answers with data, or is redirected. */
  datatype ApiReply<T> = Data(body: T) | Refused(response: Response)

  /**
   * `GET /admin2430.html/api/stats?days=`: the four chart queries, the
   * timeline over `parseInt(days) || 7` days. Each query catches its own
   * errors, so the route's own 500 branch is never taken.
   */
  function ApiStats(session: Session?, days: Option<string>, up: bool,
                    logs: seq<GeneralLog>, attempts: seq<CredentialAttempt>, now: Time): (r: ApiReply<StatsBody>)
    reads session
    ensures r.Refused? <==> !RequireAdminAuth(session).Next?
    ensures r.Refused? ==> r.response == Redirect(GatePath)
    ensures r.Data? ==> r.body.timeline == GetTimelineData(attempts, now, ParseIntOr(days, DefaultDays), !up)
    ensures r.Data? ==> r.body.topIPs == GetTopIPs(attempts, TopIPsLimit, !up)
    ensures r.Data? ==> r.body.topUsernames == GetTopUsernames(attempts, TopUsernamesLimit, !up)
    ensures r.Data? ==> r.body.distribution == GetRequestDistribution(logs, !up)
  {
    if !RequireAdminAuth(session).Next? then Refused(RequireAdminAuth(session))
    else
      var window := ParseIntOr(days, DefaultDays);
      Data(StatsBody(GetTimelineData(attempts, now, window, !up),
                     GetTopIPs(attempts, TopIPsLimit, !up),
                     GetTopUsernames(attempts, TopUsernamesLimit, !up),
                     GetRequestDistribution(logs, !up)))
  }

  /**
   * A missing, non-numeric or zero `days` gives the seven-day timeline;
   * any other decimal number of days is used as written.
   */
  lemma StatsDaysParameter(session: Session?, n: int, up: bool,
                           logs: seq<GeneralLog>, attempts: seq<CredentialAttempt>, now: Time)
    requires session != null && session.isAdmin
    ensures ApiStats(session, None, up, logs, attempts, now).body.timeline
         == GetTimelineData(attempts, now, DefaultDays, !up)
    ensures ApiStats(session, Some(IntToDecimal(n)), up, logs, attempts, now).body.timeline
         == GetTimelineData(attempts, now, if n == 0 then DefaultDays else n, !up)
  {
    ParseIntOfDecimal(n, DefaultDays);
  }

  /**
   * A `days` of magnitude 2^53 or more (where JavaScript's parseInt starts
   * rounding) moves the cutoff out of the database's range, so the route
   * answers with the empty timeline.
   */
  lemma HugeDaysParameter(session: Session?, n: int, up: bool,
                          logs: seq<GeneralLog>, attempts: seq<CredentialAttempt>, now: Time)
    requires session != null && session.isAdmin
    requires MinTimestamp <= now < TimestampLimit
    requires n >= 0x20_0000_0000_0000 || n <= -0x20_0000_0000_0000
    ensures ApiStats(session, Some(IntToDecimal(n)), up, logs, attempts, now).body.timeline == Timeline([], [])
  {
    ParseIntOfDecimal(n, DefaultDays);
    HugeDaysEmptyTimeline(attempts, now, n);
  }

  /**
   * `GET /admin2430.html/api/recent?limit=&offset=`: one page of recent
   * attempts, `parseInt(limit) || 25` rows from `parseInt(offset) || 0`.
   */
  function ApiRecent(session: Session?, limit: Option<string>, offset: Option<string>, up: bool,
                     attempts: seq<CredentialAttempt>): (r: ApiReply<RecentPage>)
    reads session
    ensures r.Refused? <==> !RequireAdminAuth(session).Next?
    ensures r.Refused? ==> r.response == Redirect(GatePath)
    ensures r.Data? ==> r.body == GetRecentAttempts(attempts, ParseIntOr(limit, DefaultPageSize), ParseIntOr(offset, DefaultOffset), !up)
  {
    if !RequireAdminAuth(session).Next? then Refused(RequireAdminAuth(session))
    else Data(GetRecentAttempts(attempts, ParseIntOr(limit, DefaultPageSize), ParseIntOr(offset, DefaultOffset), !up))
  }

  /**
   * Without parameters the endpoint serves the 25 newest attempts and the
   * total; a negative offset or limit written in decimal is passed to the
   * query, which fails and yields the empty page with a total of 0.
   */
  lemma RecentParameters(session: Session?, n: int, up: bool, attempts: seq<CredentialAttempt>)
    requires session != null && session.isAdmin
    ensures ApiRecent(session, None, None, up, attempts).body == GetRecentAttempts(attempts, 25, 0, !up)
    ensures n < 0 ==> ApiRecent(session, None, Some(IntToDecimal(n)), up, attempts).body == RecentPage(0, [])
    ensures n < 0 ==> ApiRecent(session, Some(IntToDecimal(n)), None, up, attempts).body == RecentPage(0, [])
  {
    ParseIntOfDecimal(n, DefaultOffset);
    ParseIntOfDecimal(n, DefaultPageSize);
  }
}
