/**
 * The database as the handlers see it: three append-only tables, the
 * key/value configuration table, and whether the database answers at all.
 * A write either appends exactly one row (with the next id) or, when the
 * database is down or rejects the row, throws and leaves the table as it was.
 */
module Persistence {
  import opened Common
  import opened Records

  class Store {
    /** Whether the database is reachable; every query and write fails when it is not. */
    var up: bool
    /** The `isIP` validator of the models. */
    const isIP: string -> bool
    var generalLogs: seq<GeneralLog>
    var credentials: seq<CredentialAttempt>
    var adminAccess: seq<AdminAccessEntry>
    /** The app_config table, from configKey to configValue. */
    var config: map<string, string>

    constructor(isIP: string -> bool, config: map<string, string>)
      ensures up && this.isIP == isIP && this.config == config
      ensures generalLogs == [] && credentials == [] && adminAccess == []
    {
      this.up := true;
      this.isIP := isIP;
      this.config := config;
      this.generalLogs := [];
      this.credentials := [];
      this.adminAccess := [];
    }

    /** `GeneralLog.create(row)`. */
    method CreateGeneralLog(row: GeneralLog) returns (ok: bool)
      modifies this`generalLogs
      ensures ok == (up && GeneralLogAccepted(row, isIP))
      ensures generalLogs == if ok then old(generalLogs) + [row.(id := |old(generalLogs)| + 1)]
                             else old(generalLogs)
    {
      ok := up && GeneralLogAccepted(row, isIP);
      if ok {
        generalLogs := generalLogs + [row.(id := |generalLogs| + 1)];
      }
    }

    /** `CredentialCapture.create(row)`. */
    method CreateCredential(row: CredentialAttempt) returns (ok: bool)
      modifies this`credentials
      ensures ok == (up && CredentialAccepted(row, isIP))
      ensures credentials == if ok then old(credentials) + [row.(id := |old(credentials)| + 1)]
                             else old(credentials)
    {
      ok := up && CredentialAccepted(row, isIP);
      if ok {
        credentials := credentials + [row.(id := |credentials| + 1)];
      }
    }

    /** `AdminAccessLog.create(row)`. */
    method CreateAdminAccess(row: AdminAccessEntry) returns (ok: bool)
      modifies this`adminAccess
      ensures ok == (up && AdminAccessAccepted(row, isIP))
      ensures adminAccess == if ok then old(adminAccess) + [row.(id := |old(adminAccess)| + 1)]
                             else old(adminAccess)
    {
      ok := up && AdminAccessAccepted(row, isIP);
      if ok {
        adminAccess := adminAccess + [row.(id := |adminAccess| + 1)];
      }
    }

    /** `AppConfig.findOne({where: {configKey: key}})`: the value, null, or a thrown error. */
    method FindConfig(key: string) returns (r: Result<Option<string>>)
      ensures !up ==> r == Failed
      ensures up ==> r == Ok(if key in config then Some(config[key]) else None)
    {
      if !up {
        return Failed;
      }
      r := Ok(if key in config then Some(config[key]) else None);
    }
  }
}
