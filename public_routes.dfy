/**
 * The credential trap (routes/public.js): the fake login page and the
 * `POST /login` handler, which records every complete submission and always
 * answers that the credentials are invalid.
 */
module PublicRoutes {
  import opened Common
  import opened Records
  import opened Persistence
  import opened Http
  import opened RateLimiter

  const MaxFieldLength: nat := 255
  const LoginView: string := "login"
  const LoginTitle: string := "SecureCorp Portal - Sign In"
  const MissingFieldsMessage: string := "Username and password are required"
  const InvalidCredentialsMessage: string := "Invalid username or password"
  /** The simulated authentication delay is `MinDelayMs + jitter` with `jitter < JitterMs`. */
  const MinDelayMs: nat := 500
  const JitterMs: nat := 1000

  /** `GET /`: the login form, with no error. */
  function LoginPage(): (r: Response)
    ensures r.Render? && r.status == StatusOk && r.view == LoginView && r.message.None?
  {
    Render(StatusOk, LoginView, LoginTitle, None)
  }

  /**
   * `validator.trim(username).substring(0, 255)`: the first 255 characters
   * of the trimmed username, or all of it when it is shorter. It is a piece
   * of the submitted username starting after its leading blanks, so it
   * never starts with whitespace.
   */
  function SanitizeUsername(u: string): (s: string)
    ensures |s| <= MaxFieldLength
    ensures LeadingSpaces(u) + |s| <= |u| && s == u[LeadingSpaces(u)..LeadingSpaces(u) + |s|]
    ensures s == [] || !IsJsSpace(s[0])
    ensures |Trim(u)| <= MaxFieldLength ==> s == Trim(u)
    ensures |s| == if |Trim(u)| <= MaxFieldLength then |Trim(u)| else MaxFieldLength
    ensures s == Trim(u)[..|s|]
  {
    Prefix(Trim(u), MaxFieldLength)
  }

  /** `password.substring(0, 255)`: the first 255 characters, or the whole password. */
  function SanitizePassword(p: string): (s: string)
    ensures |s| <= MaxFieldLength && |s| <= |p| && s == p[..|s|]
    ensures |p| <= MaxFieldLength ==> s == p
    ensures |p| > MaxFieldLength ==> |s| == MaxFieldLength
  {
    Prefix(p, MaxFieldLength)
  }

  /** The credential_capture row for a complete submission (the id is the store's to assign). */
  function CaptureRow(ip: string, userAgent: Option<string>, username: string, password: string, now: Time): (row: CredentialAttempt)
    ensures row.ipAddress == ip && row.userAgent == userAgent && row.timestamp == now
    ensures row.usernameAttempted == Some(SanitizeUsername(username))
    ensures row.passwordAttempted == Some(SanitizePassword(password))
    ensures row.passwordLength == Some(|row.passwordAttempted.value|)
  {
    var stored := SanitizePassword(password);
    CredentialAttempt(0, ip, userAgent, now, Some(SanitizeUsername(username)), Some(stored), Some(|stored|))
  }

  /**
   * The sanitised fields always fit the widths of their columns, so the
   * database refuses a captured row only for its IP address or for a U+0000
   * character in the stored text: the row is accepted exactly when neither
   * happens. The stored password length is at most 255.
   */
  lemma CaptureRowAccepted(ip: string, userAgent: Option<string>, username: string, password: string, now: Time, isIP: string -> bool)
    ensures CredentialAccepted(CaptureRow(ip, userAgent, username, password, now), isIP)
        <==> && IpAccepted(Some(ip), isIP) && FitsText(userAgent)
             && Storable(SanitizeUsername(username)) && Storable(SanitizePassword(password))
    ensures CaptureRow(ip, userAgent, username, password, now).passwordLength.value <= MaxFieldLength
  {
  }

  /** What the handler answers and how long it waits before answering. */
  datatype LoginReply = LoginReply(response: Response, delayMs: nat)

  /**
   * `POST /login` behind its rate limiter. A submission missing either
   * field (absent or empty) is refused with 400 and nothing is written.
   * Otherwise exactly one capture row is attempted, the answer is 401 with
   * the same message whether or not it was stored, and the simulated delay
   * of 500 ms plus `jitter` happens only after a successful write.
   */
  method Login(store: Store, ip: string, userAgent: Option<string>, username: Option<string>, password: Option<string>, now: Time, jitter: nat)
    returns (reply: LoginReply)
    requires jitter < JitterMs
    modifies store`credentials
    ensures !(Truthy(username) && Truthy(password)) ==>
              && reply == LoginReply(JsonError(BadRequest, MissingFieldsMessage), 0)
              && store.credentials == old(store.credentials)
    ensures Truthy(username) && Truthy(password) ==>
              var row := CaptureRow(ip, userAgent, username.value, password.value, now);
              var stored := store.up && CredentialAccepted(row, store.isIP);
              && reply.response == JsonError(Unauthorized, InvalidCredentialsMessage)
              && reply.delayMs == (if stored then MinDelayMs + jitter else 0)
              && store.credentials == if stored then old(store.credentials) + [row.(id := |old(store.credentials)| + 1)]
                                      else old(store.credentials)
  {
    if !(Truthy(username) && Truthy(password)) {
      return LoginReply(JsonError(BadRequest, MissingFieldsMessage), 0);
    }
    var row := CaptureRow(ip, userAgent, username.value, password.value, now);
    var stored := store.CreateCredential(row);
    var delay := if stored then MinDelayMs + jitter else 0;
    reply := LoginReply(JsonError(Unauthorized, InvalidCredentialsMessage), delay);
  }

  /**
   * The route as mounted: the login limiter first, keyed by the client IP.
   * A refused request gets the limiter's 429 and writes nothing; a request
   * let through is handled by `Login`. No answer ever grants access.
   */
  method PostLogin(limiter: FixedWindowLimiter, store: Store, ip: string, userAgent: Option<string>,
                   username: Option<string>, password: Option<string>, now: Time, jitter: nat)
    returns (reply: LoginReply)
    requires jitter < JitterMs
    modifies limiter`windows, store`credentials
    ensures limiter.windows == old(limiter.windows)[ip := Hit(Lookup(old(limiter.windows), ip), now, limiter.windowMs)]
    ensures reply.response.JsonError?
    ensures reply.response.status in {BadRequest, Unauthorized, TooManyRequests}
    ensures reply.response.status == TooManyRequests <==> limiter.windows[ip].hits > limiter.max
    ensures reply.response.status == TooManyRequests ==>
              reply == LoginReply(JsonError(TooManyRequests, limiter.limitMessage), 0)
              && store.credentials == old(store.credentials)
    ensures |store.credentials| <= |old(store.credentials)| + 1
    ensures limiter.windows[ip].hits <= limiter.max && !(Truthy(username) && Truthy(password)) ==>
              && reply == LoginReply(JsonError(BadRequest, MissingFieldsMessage), 0)
              && store.credentials == old(store.credentials)
    ensures limiter.windows[ip].hits <= limiter.max && Truthy(username) && Truthy(password) ==>
              var row := CaptureRow(ip, userAgent, username.value, password.value, now);
              var stored := store.up && CredentialAccepted(row, store.isIP);
              && reply.response == JsonError(Unauthorized, InvalidCredentialsMessage)
              && reply.delayMs == (if stored then MinDelayMs + jitter else 0)
              && store.credentials == if stored then old(store.credentials) + [row.(id := |old(store.credentials)| + 1)]
                                      else old(store.credentials)
  {
    var gate := limiter.Admit(ip, now);
    if gate != Next {
      return LoginReply(gate, 0);
    }
    reply := Login(store, ip, userAgent, username, password, now, jitter);
  }

  /**
   * Truncation happens after trimming, so a stored username can end in
   * whitespace: 254 letters, a space and one more letter are stored as the
   * 254 letters and the space.
   */
  lemma TruncatedUsernameMayEndInSpace()
    ensures var u := seq(254, _ => 'a') + [' ', 'b'];
            var s := SanitizeUsername(u);
            |s| == 255 && IsJsSpace(s[254])
  {
    var u := seq(254, _ => 'a') + [' ', 'b'];
    assert TrimStart(u) == u;
    assert TrimEnd(u) == u;
  }
}
