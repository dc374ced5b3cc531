/**
 * The request logger (middleware/requestLogger.js): every request is written
 * to general_logs and then passed on. The write is not awaited and its
 * failure is swallowed; here it is applied at once, and its outcome is
 * visible only in the table.
 */
module RequestLogger {
  import opened Common
  import opened Records
  import opened Persistence

  /** The socket behind a request; `remoteAddress` is undefined once the socket is gone. */
  datatype Connection = Connection(remoteAddress: Option<string>)

  /** The parts of an Express request the logger reads. */
  datatype Request = Request(
    ip: Option<string>,
    connection: Option<Connection>,
    userAgent: Option<string>,
    httpMethod: string,
    path: string,
    referer: Option<string>)

  /**
   * The row the logger builds, or `None` when building it throws: the IP
   * falls back to the socket address only when `req.ip` is falsy, and
   * reading that address throws when there is no connection object.
   */
  function LogRow(req: Request, now: Time): (row: Option<GeneralLog>)
    ensures row.None? <==> !Truthy(req.ip) && req.connection.None?
    ensures row.Some? ==> row.value.timestamp == now
    ensures row.Some? ==> row.value.requestMethod == req.httpMethod
    ensures row.Some? ==> row.value.requestPath == Some(req.path)
    ensures row.Some? ==> row.value.userAgent == req.userAgent
    ensures row.Some? && Truthy(req.ip) ==> row.value.ipAddress == req.ip
    ensures row.Some? && !Truthy(req.ip) ==> row.value.ipAddress == req.connection.value.remoteAddress
    ensures row.Some? ==> (Truthy(row.value.referer) <==> Truthy(req.referer))
    ensures row.Some? ==> row.value.referer != Some("")
    ensures row.Some? && Truthy(req.referer) ==> row.value.referer == req.referer
  {
    if !Truthy(req.ip) && req.connection.None? then None
    else
      var ip := if Truthy(req.ip) then req.ip else req.connection.value.remoteAddress;
      var referer := if Truthy(req.referer) then req.referer else None;
      Some(GeneralLog(0, ip, req.userAgent, now, req.httpMethod, Some(req.path), referer))
  }

  /**
   * `requestLogger(req, res, next)`. `next` is called exactly once whatever
   * happens; at most one row is appended, and it is appended exactly when
   * the row could be built, the database is up and it accepts the row.
   */
  method Log(store: Store, req: Request, now: Time) returns (nextCalls: nat)
    modifies store`generalLogs
    ensures nextCalls == 1
    ensures LogRow(req, now).None? ==> store.generalLogs == old(store.generalLogs)
    ensures LogRow(req, now).Some? ==>
              var row := LogRow(req, now).value;
              store.generalLogs ==
                if store.up && GeneralLogAccepted(row, store.isIP)
                then old(store.generalLogs) + [row.(id := |old(store.generalLogs)| + 1)]
                else old(store.generalLogs)
  {
    var row := LogRow(req, now);
    if row.Some? {
      var _ := store.CreateGeneralLog(row.value);
    }
    nextCalls := 1;
  }

  /**
   * A request that carries a valid IP, and whose method, path, referer and
   * user agent fit their columns, gives a row the database accepts.
   */
  lemma LoggedWhenAccepted(req: Request, now: Time, isIP: string -> bool)
    requires Truthy(req.ip) && isIP(req.ip.value) && |req.ip.value| <= 45
    requires FitsColumn(Some(req.httpMethod), 10) && FitsColumn(Some(req.path), 255)
    requires FitsColumn(req.referer, 500) && FitsText(req.userAgent)
    ensures LogRow(req, now).Some? && GeneralLogAccepted(LogRow(req, now).value, isIP)
  {
  }
}
