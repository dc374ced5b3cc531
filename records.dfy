/**
 * The rows of the three append-only tables (general_logs,
 * credential_capture, admin_access_logs) and what the database accepts in
 * them: column widths of the `STRING(n)` columns, `NOT NULL` on the IP
 * address, the `isIP` validator, which is taken as a given predicate, and
 * PostgreSQL's refusal of the character U+0000 in any text value.
 */
module Records {
  import opened Common

  /** A point in time in milliseconds since the Unix epoch, as `new Date()` holds it. */
  type Time = int

  const MillisPerDay: int := 86_400_000

  /** One request seen by the request logger (models/GeneralLog.js). */
  datatype GeneralLog = GeneralLog(
    id: nat,
    ipAddress: Option<string>,
    userAgent: Option<string>,
    timestamp: Time,
    requestMethod: string,
    requestPath: Option<string>,
    referer: Option<string>)

  /** One submission to the fake login form (models/CredentialCapture.js). */
  datatype CredentialAttempt = CredentialAttempt(
    id: nat,
    ipAddress: string,
    userAgent: Option<string>,
    timestamp: Time,
    usernameAttempted: Option<string>,
    passwordAttempted: Option<string>,
    passwordLength: Option<int>)

  /** One PIN submission to the admin gate (models/AdminAccessLog.js). */
  datatype AdminAccessEntry = AdminAccessEntry(
    id: nat,
    ipAddress: string,
    timestamp: Time,
    pinEntered: string,
    accessGranted: bool,
    sessionId: Option<string>)

  /** PostgreSQL text cannot hold U+0000: a value containing it makes the insert fail. */
  predicate Storable(s: string)
  {
    forall i :: 0 <= i < |s| ==> s[i] != '\0'
  }

  /** A nullable `TEXT` column accepts the value. */
  predicate FitsText(s: Option<string>)
  {
    s.None? || Storable(s.value)
  }

  /** A nullable `STRING(width)` column accepts the value. */
  predicate FitsColumn(s: Option<string>, width: nat)
  {
    s.None? || (|s.value| <= width && Storable(s.value))
  }

  /** An IP address that passes `NOT NULL`, `isIP` and `STRING(45)`. */
  predicate IpAccepted(ip: Option<string>, isIP: string -> bool)
  {
    ip.Some? && isIP(ip.value) && |ip.value| <= 45
  }

  predicate GeneralLogAccepted(r: GeneralLog, isIP: string -> bool)
  {
    && IpAccepted(r.ipAddress, isIP)
    && FitsText(r.userAgent)
    && FitsColumn(Some(r.requestMethod), 10)
    && FitsColumn(r.requestPath, 255)
    && FitsColumn(r.referer, 500)
  }

  predicate CredentialAccepted(r: CredentialAttempt, isIP: string -> bool)
  {
    && IpAccepted(Some(r.ipAddress), isIP)
    && FitsText(r.userAgent)
    && FitsColumn(r.usernameAttempted, 255)
    && FitsColumn(r.passwordAttempted, 255)
  }

  predicate AdminAccessAccepted(r: AdminAccessEntry, isIP: string -> bool)
  {
    && IpAccepted(Some(r.ipAddress), isIP)
    && FitsColumn(Some(r.pinEntered), 10)
    && FitsColumn(r.sessionId, 255)
  }
}
