/**
 * The two fixed-window rate limiters (middleware/rateLimiter.js), with the
 * semantics of express-rate-limit's in-memory store: each client key has a
 * hit counter and a reset time; a request at or after the reset time starts
 * a new window, every request (refused ones included) adds one hit, and a
 * request is passed on while the counter is at most the limit.
 */
module RateLimiter {
  import opened Common
  import opened Records
  import opened Http

  /** The state kept for one client: hits so far in the window and when the window ends. */
  datatype Window = Window(hits: nat, resetTime: Time)

  const LoginWindowMs: nat := 60_000
  const LoginMax: nat := 5
  const LoginLimitMessage: string := "Too many login attempts. Please try again later."

  const AdminWindowMs: nat := 3_600_000
  const AdminMax: nat := 3
  const AdminLimitMessage: string := "Too many admin access attempts. Try again later."

  function Lookup(windows: map<string, Window>, key: string): Option<Window>
  {
    if key in windows then Some(windows[key]) else None
  }

  /** The client's window after one more request at `now`. */
  function Hit(w: Option<Window>, now: Time, windowMs: nat): Window
  {
    if w.None? || w.value.resetTime <= now then Window(1, now + windowMs)
    else Window(w.value.hits + 1, w.value.resetTime)
  }

  /** Whether each of a client's requests, made at `times` in order, is passed on. */
  function Replay(w: Option<Window>, times: seq<Time>, windowMs: nat, max: nat): (passed: seq<bool>)
    ensures |passed| == |times|
    decreases |times|
  {
    if times == [] then []
    else
      var w' := Hit(w, times[0], windowMs);
      [w'.hits <= max] + Replay(Some(w'), times[1..], windowMs, max)
  }

  function CountPassed(passed: seq<bool>): nat
  {
    if passed == [] then 0 else (if passed[0] then 1 else 0) + CountPassed(passed[1..])
  }

  /**
   * Inside a window that is still open, the i-th further request is the
   * window's (hits + i + 1)-th and is passed on exactly when that does not
   * exceed the limit: refused requests keep counting.
   */
  lemma {:induction false} ReplayOpenWindow(hits: nat, resetTime: Time, times: seq<Time>, windowMs: nat, max: nat)
    requires forall i :: 0 <= i < |times| ==> times[i] < resetTime
    ensures forall i :: 0 <= i < |times| ==>
              (Replay(Some(Window(hits, resetTime)), times, windowMs, max)[i] <==> hits + i + 1 <= max)
    decreases |times|
  {
    if times != [] {
      ReplayOpenWindow(hits + 1, resetTime, times[1..], windowMs, max);
    }
  }

  /**
   * A burst of requests that starts a fresh window (no window yet, or the
   * last one has expired) and stays within `windowMs` of its first request:
   * exactly the first `max` requests are passed on.
   */
  lemma ReplayBurst(w: Option<Window>, times: seq<Time>, windowMs: nat, max: nat)
    requires times != []
    requires w.None? || w.value.resetTime <= times[0]
    requires forall i :: 0 <= i < |times| ==> times[0] <= times[i] < times[0] + windowMs
    ensures forall i :: 0 <= i < |times| ==> (Replay(w, times, windowMs, max)[i] <==> i < max)
    ensures CountPassed(Replay(w, times, windowMs, max)) == if |times| < max then |times| else max
  {
    var first := Hit(w, times[0], windowMs);
    assert first == Window(1, times[0] + windowMs);
    ReplayOpenWindow(1, times[0] + windowMs, times[1..], windowMs, max);
    var passed := Replay(w, times, windowMs, max);
    forall i | 0 <= i < |times| ensures passed[i] <==> i < max {
      if i > 0 {
        assert passed[i] == Replay(Some(first), times[1..], windowMs, max)[i - 1];
      }
    }
    CountLeading(passed, max);
  }

  /** A sequence that is true exactly on its first `n` positions has min(length, n) trues. */
  lemma {:induction false} CountLeading(passed: seq<bool>, n: nat)
    requires forall i :: 0 <= i < |passed| ==> (passed[i] <==> i < n)
    ensures CountPassed(passed) == if |passed| < n then |passed| else n
  {
    if passed != [] {
      if n == 0 {
        CountNone(passed);
      } else {
        CountLeading(passed[1..], n - 1);
      }
    }
  }

  lemma {:induction false} CountNone(passed: seq<bool>)
    requires forall i :: 0 <= i < |passed| ==> !passed[i]
    ensures CountPassed(passed) == 0
  {
    if passed != [] {
      CountNone(passed[1..]);
    }
  }

  /**
   * The first request after a window has ended, or from a client never
   * seen, is passed on (for any limit of at least one) and opens a window
   * of `windowMs` with one hit.
   */
  lemma ExpiredWindowResets(w: Option<Window>, now: Time, windowMs: nat, max: nat)
    requires max >= 1
    requires w.None? || w.value.resetTime <= now
    ensures Replay(w, [now], windowMs, max) == [true]
    ensures Hit(w, now, windowMs) == Window(1, now + windowMs)
  {
  }

  /** One limiter instance: its configuration and the windows of all clients. */
  class FixedWindowLimiter {
    const windowMs: nat
    const max: nat
    const limitMessage: string
    var windows: map<string, Window>

    constructor(windowMs: nat, max: nat, limitMessage: string)
      ensures this.windowMs == windowMs && this.max == max && this.limitMessage == limitMessage
      ensures windows == map[]
    {
      this.windowMs := windowMs;
      this.max := max;
      this.limitMessage := limitMessage;
      this.windows := map[];
    }

    /**
     * The middleware for a request from client `key` at `now`: one more hit
     * on that client's window (no other client's window changes), then
     * either `next()` or a 429 with the limiter's message.
     */
    method Admit(key: string, now: Time) returns (r: Response)
      modifies this`windows
      ensures windows == old(windows)[key := Hit(Lookup(old(windows), key), now, windowMs)]
      ensures r == if Replay(Lookup(old(windows), key), [now], windowMs, max)[0] then Next
                   else JsonError(TooManyRequests, limitMessage)
      ensures r.Next? <==> windows[key].hits <= max
    {
      var w := Hit(Lookup(windows, key), now, windowMs);
      windows := windows[key := w];
      if w.hits <= max {
        r := Next;
      } else {
        r := JsonError(TooManyRequests, limitMessage);
      }
    }
  }

  /** `loginLimiter`: five requests per client per minute. */
  method NewLoginLimiter() returns (l: FixedWindowLimiter)
    ensures fresh(l) && l.windows == map[]
    ensures l.windowMs == LoginWindowMs && l.max == LoginMax && l.limitMessage == LoginLimitMessage
  {
    l := new FixedWindowLimiter(LoginWindowMs, LoginMax, LoginLimitMessage);
  }

  /** `adminLimiter`: three requests per client per hour. */
  method NewAdminLimiter() returns (l: FixedWindowLimiter)
    ensures fresh(l) && l.windows == map[]
    ensures l.windowMs == AdminWindowMs && l.max == AdminMax && l.limitMessage == AdminLimitMessage
  {
    l := new FixedWindowLimiter(AdminWindowMs, AdminMax, AdminLimitMessage);
  }
}
