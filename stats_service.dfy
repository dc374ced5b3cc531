/**
 * The read side of the analytics console (services/statsService.js). Each
 * query is a function over the rows of the tables it reads; `failed` stands
 * for the database call throwing, in which case the query returns its empty
 * default instead of propagating the error.
 */
module StatsService {
  import opened Common
  import opened Records
  import opened Grouping

  datatype Timeline = Timeline(dates: seq<int>, counts: seq<nat>)
  /** `{ips, counts}`, `{usernames, counts}` or `{paths, counts}`. */
  datatype Ranking = Ranking(names: seq<string>, counts: seq<nat>)
  datatype Overview = Overview(
    totalRequests: nat,
    totalAttempts: nat,
    uniqueIPs: nat,
    firstAttempt: Option<Time>,
    lastAttempt: Option<Time>)
  /** One row of the recent-attempts table; the password text is not among its fields. */
  datatype RecentRow = RecentRow(
    id: nat,
    timestamp: Time,
    ipAddress: string,
    username: Option<string>,
    passwordLength: Option<int>,
    userAgent: Option<string>)
  datatype RecentPage = RecentPage(total: nat, attempts: seq<RecentRow>)

  const TopIPsDefaultLimit: nat := 10
  const TopUsernamesDefaultLimit: nat := 20
  const DistributionLimit: nat := 10
  const RecentDefaultLimit: int := 25
  /** The largest `LIMIT` or `OFFSET` PostgreSQL takes: the largest bigint. */
  const MaxBigint: int := 0x7FFF_FFFF_FFFF_FFFF

  // ---- Timeline --------------------------------------------------------

  /** `DATE(timestamp)`: the calendar day (UTC) as a day number since the epoch. */
  function Day(t: Time): int
  {
    t / MillisPerDay
  }

  /** `NOW() - INTERVAL 'days days'`. */
  function Cutoff(now: Time, days: int): Time
  {
    now - days * MillisPerDay
  }

  /**
   * PostgreSQL timestamps run from 4713 BC to the end of 294276 AD:
   * `MinTimestamp` is the first millisecond, `TimestampLimit` the first one
   * past the range.
   */
  const MinTimestamp: int := -210_866_803_200_000
  const TimestampLimit: int := 9_224_318_016_000_000

  /**
   * Whether the database can compute the cutoff. For any other `days` the
   * subtraction raises "timestamp out of range" (a `days` outside the
   * interval's 32-bit day field is far outside this range already).
   */
  predicate CutoffInRange(now: Time, days: int)
  {
    MinTimestamp <= Cutoff(now, days) < TimestampLimit
  }

  /** The attempts selected by `WHERE timestamp >= cutoff`, in table order. */
  function InWindow(attempts: seq<CredentialAttempt>, cutoff: Time): (w: seq<CredentialAttempt>)
    ensures forall a :: a in w <==> a in attempts && a.timestamp >= cutoff
    ensures forall a :: multiset(w)[a] == if a.timestamp >= cutoff then multiset(attempts)[a] else 0
    ensures |w| <= |attempts|
  {
    if attempts == [] then []
    else
      var rest := InWindow(attempts[1..], cutoff);
      assert multiset(attempts) == multiset{attempts[0]} + multiset(attempts[1..]) by {
        assert attempts == [attempts[0]] + attempts[1..];
      }
      (if attempts[0].timestamp >= cutoff then [attempts[0]] else []) + rest
  }

  function DaysOf(attempts: seq<CredentialAttempt>): (ds: seq<int>)
    ensures |ds| == |attempts| && forall i :: 0 <= i < |ds| ==> ds[i] == Day(attempts[i].timestamp)
  {
    seq(|attempts|, i requires 0 <= i < |attempts| => Day(attempts[i].timestamp))
  }

  /** The sort key of `ORDER BY DATE(timestamp) ASC`. */
  function ByDateAscending(b: Bucket<int>): int
  {
    -b.key
  }

  /**
   * `getTimelineData(days)`: attempts per calendar day since the cutoff,
   * oldest day first. A failed query, or a cutoff the database cannot
   * compute, gives the empty timeline.
   */
  function GetTimelineData(attempts: seq<CredentialAttempt>, now: Time, days: int, failed: bool): (r: Timeline)
    ensures failed || !CutoffInRange(now, days) ==> r == Timeline([], [])
  {
    if failed || !CutoffInRange(now, days) then Timeline([], [])
    else
      var buckets := SortDesc(Tally(DaysOf(InWindow(attempts, Cutoff(now, days)))), ByDateAscending);
      Timeline(Keys(buckets), Counts(buckets))
  }

  /** The timeline's days, as a grouping of the in-window days sorted oldest first. */
  function TimelineBuckets(attempts: seq<CredentialAttempt>, now: Time, days: int): (bs: seq<Bucket<int>>)
    requires CutoffInRange(now, days)
    ensures GetTimelineData(attempts, now, days, false) == Timeline(Keys(bs), Counts(bs))
  {
    SortDesc(Tally(DaysOf(InWindow(attempts, Cutoff(now, days)))), ByDateAscending)
  }

  /** The timeline's days are strictly ascending, one count per day. */
  lemma TimelineAscending(attempts: seq<CredentialAttempt>, now: Time, days: int)
    ensures var r := GetTimelineData(attempts, now, days, false);
      && |r.dates| == |r.counts|
      && forall i, j :: 0 <= i < j < |r.dates| ==> r.dates[i] < r.dates[j]
  {
    if !CutoffInRange(now, days) {
      return;
    }
    var ds := DaysOf(InWindow(attempts, Cutoff(now, days)));
    var sorted := TimelineBuckets(attempts, now, days);
    PermutedTally(Tally(ds), sorted, ds);
    AscendingDays(sorted);
  }

  lemma AscendingDays(bs: seq<Bucket<int>>)
    requires DistinctKeys(bs) && NonIncreasing(bs, ByDateAscending)
    ensures forall i, j :: 0 <= i < j < |bs| ==> bs[i].key < bs[j].key
  {
    forall i, j | 0 <= i < j < |bs| ensures bs[i].key < bs[j].key {
      assert ByDateAscending(bs[i]) >= ByDateAscending(bs[j]);
    }
  }

  /**
   * Each count is the number of attempts inside the window made that day,
   * and no day with no attempts is listed.
   */
  lemma TimelineCounts(attempts: seq<CredentialAttempt>, now: Time, days: int)
    ensures var r := GetTimelineData(attempts, now, days, false);
            var w := InWindow(attempts, Cutoff(now, days));
      forall i :: 0 <= i < |r.dates| ==> r.counts[i] == Count(DaysOf(w), r.dates[i]) > 0
  {
    if !CutoffInRange(now, days) {
      return;
    }
    var ds := DaysOf(InWindow(attempts, Cutoff(now, days)));
    var sorted := TimelineBuckets(attempts, now, days);
    PermutedTally(Tally(ds), sorted, ds);
    forall i | 0 <= i < |sorted| ensures sorted[i].count == Count(ds, sorted[i].key) > 0 {
      assert sorted[i] in sorted;
    }
  }

  /** Every day on which an attempt was made since the cutoff appears in the timeline. */
  lemma TimelineComplete(attempts: seq<CredentialAttempt>, now: Time, days: int)
    requires CutoffInRange(now, days)
    ensures forall a :: a in attempts && a.timestamp >= Cutoff(now, days) ==>
              Day(a.timestamp) in GetTimelineData(attempts, now, days, false).dates
  {
    var w := InWindow(attempts, Cutoff(now, days));
    var ds := DaysOf(w);
    var sorted := TimelineBuckets(attempts, now, days);
    PermutedTally(Tally(ds), sorted, ds);
    forall a | a in attempts && a.timestamp >= Cutoff(now, days) ensures Day(a.timestamp) in Keys(sorted) {
      var i :| 0 <= i < |w| && w[i] == a;
      assert ds[i] in ds;
    }
  }

  /** The counts add up to the number of attempts made since the cutoff. */
  lemma TimelineTotal(attempts: seq<CredentialAttempt>, now: Time, days: int)
    requires CutoffInRange(now, days)
    ensures Sum(GetTimelineData(attempts, now, days, false).counts)
         == |InWindow(attempts, Cutoff(now, days))|
  {
    var ds := DaysOf(InWindow(attempts, Cutoff(now, days)));
    var sorted := TimelineBuckets(attempts, now, days);
    SumSort(Tally(ds), ByDateAscending);
    SumOfCounts(sorted);
  }

  /**
   * A `days` of magnitude 2^53 or more moves the cutoff out of the
   * database's range, so the timeline is empty.
   */
  lemma HugeDaysEmptyTimeline(attempts: seq<CredentialAttempt>, now: Time, days: int)
    requires MinTimestamp <= now < TimestampLimit
    requires days >= 0x20_0000_0000_0000 || days <= -0x20_0000_0000_0000
    ensures GetTimelineData(attempts, now, days, false) == Timeline([], [])
  {
    if days >= 0x20_0000_0000_0000 {
      assert days * MillisPerDay >= 0x20_0000_0000_0000 * MillisPerDay;
    } else {
      assert days * MillisPerDay <= -0x20_0000_0000_0000 * MillisPerDay;
    }
  }

  // ---- Top-N rankings ----------------------------------------------------

  function IPsOf(attempts: seq<CredentialAttempt>): (ips: seq<string>)
    ensures |ips| == |attempts| && forall i :: 0 <= i < |ips| ==> ips[i] == attempts[i].ipAddress
  {
    seq(|attempts|, i requires 0 <= i < |attempts| => attempts[i].ipAddress)
  }

  /** The non-null usernames, in table order (`WHERE usernameAttempted IS NOT NULL`). */
  function UsernamesOf(attempts: seq<CredentialAttempt>): (us: seq<string>)
    ensures forall u :: u in us <==> exists a :: a in attempts && a.usernameAttempted == Some(u)
  {
    if attempts == [] then []
    else
      (if attempts[0].usernameAttempted.Some? then [attempts[0].usernameAttempted.value] else [])
      + UsernamesOf(attempts[1..])
  }

  /** A ranking read off a top-N grouping. */
  function RankingOf(bs: seq<Bucket<string>>): (r: Ranking)
  {
    Ranking(Keys(bs), Counts(bs))
  }

  /** What a ranking of the values `ks` with at most `limit` entries promises. */
  predicate IsTopRanking(r: Ranking, ks: seq<string>, limit: nat)
  {
    && |r.names| == |r.counts| <= limit
    && (forall i, j :: 0 <= i < j < |r.names| ==> r.names[i] != r.names[j])
    && (forall i :: 0 <= i < |r.names| ==> r.counts[i] == Count(ks, r.names[i]) && r.counts[i] > 0)
    && (forall i, j :: 0 <= i < j < |r.counts| ==> r.counts[i] >= r.counts[j])
    && (forall k :: k in ks && k !in r.names ==>
          |r.names| == limit && forall i :: 0 <= i < |r.counts| ==> Count(ks, k) <= r.counts[i])
  }

  lemma TopRanking(ks: seq<string>, limit: nat)
    ensures IsTopRanking(RankingOf(TopN(ks, limit)), ks, limit)
  {
    TopNSpec(ks, limit);
  }

  /** `getTopIPs(limit)`: the IPs with the most attempts, most first. */
  function GetTopIPs(attempts: seq<CredentialAttempt>, limit: nat, failed: bool): (r: Ranking)
    ensures failed ==> r == Ranking([], [])
  {
    if failed then Ranking([], []) else RankingOf(TopN(IPsOf(attempts), limit))
  }

  /**
   * At most `limit` distinct IPs, each with its number of attempts, most
   * first; an IP left out has no more attempts than any IP listed.
   */
  lemma TopIPsSpec(attempts: seq<CredentialAttempt>, limit: nat)
    ensures IsTopRanking(GetTopIPs(attempts, limit, false), IPsOf(attempts), limit)
  {
    TopRanking(IPsOf(attempts), limit);
  }

  /** `getTopUsernames(limit)`: the non-null usernames tried most often. */
  function GetTopUsernames(attempts: seq<CredentialAttempt>, limit: nat, failed: bool): (r: Ranking)
    ensures failed ==> r == Ranking([], [])
  {
    if failed then Ranking([], []) else RankingOf(TopN(UsernamesOf(attempts), limit))
  }

  /** The same ranking contract over the non-null usernames; a null username is never listed. */
  lemma TopUsernamesSpec(attempts: seq<CredentialAttempt>, limit: nat)
    ensures IsTopRanking(GetTopUsernames(attempts, limit, false), UsernamesOf(attempts), limit)
    ensures forall u :: u in GetTopUsernames(attempts, limit, false).names ==>
              exists a :: a in attempts && a.usernameAttempted == Some(u)
  {
    var us := UsernamesOf(attempts);
    TopRanking(us, limit);
    var r := GetTopUsernames(attempts, limit, false);
    forall u | u in r.names ensures exists a :: a in attempts && a.usernameAttempted == Some(u) {
      var i :| 0 <= i < |r.names| && r.names[i] == u;
      CountPositive(us, u);
    }
  }

  // ---- Request distribution ----------------------------------------------

  function PathsOf(logs: seq<GeneralLog>): (ps: seq<Option<string>>)
    ensures |ps| == |logs| && forall i :: 0 <= i < |ps| ==> ps[i] == logs[i].requestPath
  {
    seq(|logs|, i requires 0 <= i < |logs| => logs[i].requestPath)
  }

  /** `r.requestPath || 'Unknown'`: a null (or empty) path is shown as "Unknown". */
  function PathLabel(p: Option<string>): (shown: string)
    ensures p.None? ==> shown == "Unknown"
    ensures p.Some? && p.value != "" ==> shown == p.value
    ensures p == Some("") ==> shown == "Unknown"
  {
    if p.Some? && p.value != "" then p.value else "Unknown"
  }

  function Labels(bs: seq<Bucket<Option<string>>>): (ls: seq<string>)
    ensures |ls| == |bs| && forall i :: 0 <= i < |ls| ==> ls[i] == PathLabel(bs[i].key)
  {
    seq(|bs|, i requires 0 <= i < |bs| => PathLabel(bs[i].key))
  }

  /** `getRequestDistribution()`: the ten most requested paths. */
  function GetRequestDistribution(logs: seq<GeneralLog>, failed: bool): (r: Ranking)
    ensures failed ==> r == Ranking([], [])
  {
    if failed then Ranking([], [])
    else
      var top := TopN(PathsOf(logs), DistributionLimit);
      Ranking(Labels(top), Counts(top))
  }

  /**
   * At most ten paths, counts never increasing; each entry is the label of a
   * distinct stored path (null read as "Unknown") with the number of requests
   * for it; a path left out was requested no more often than any listed.
   */
  lemma DistributionSpec(logs: seq<GeneralLog>)
    ensures var r := GetRequestDistribution(logs, false);
            var ps := PathsOf(logs);
            var top := TopN(ps, DistributionLimit);
      && |r.names| == |r.counts| == |top| <= DistributionLimit
      && (forall i, j :: 0 <= i < j < |r.counts| ==> r.counts[i] >= r.counts[j])
      && (forall i :: 0 <= i < |top| ==>
            r.names[i] == PathLabel(top[i].key) && r.counts[i] == Count(ps, top[i].key) > 0)
      && (forall i :: 0 <= i < |top| && top[i].key.None? ==> r.names[i] == "Unknown")
      && DistinctKeys(top)
      && (forall p :: p in ps && p !in Keys(top) ==>
            forall i :: 0 <= i < |r.counts| ==> Count(ps, p) <= r.counts[i])
  {
    TopNSpec(PathsOf(logs), DistributionLimit);
  }

  // ---- Overview ----------------------------------------------------------

  function TimestampsOf(attempts: seq<CredentialAttempt>): (ts: seq<Time>)
    ensures |ts| == |attempts| && forall i :: 0 <= i < |ts| ==> ts[i] == attempts[i].timestamp
  {
    seq(|attempts|, i requires 0 <= i < |attempts| => attempts[i].timestamp)
  }

  /** `MIN(timestamp)`: null for no rows, otherwise a timestamp present and no larger than any. */
  function Earliest(ts: seq<Time>): (m: Option<Time>)
    ensures m.None? <==> ts == []
    ensures m.Some? ==> m.value in ts && forall i :: 0 <= i < |ts| ==> m.value <= ts[i]
  {
    if ts == [] then None
    else match Earliest(ts[1..])
      case None => Some(ts[0])
      case Some(rest) => Some(if ts[0] <= rest then ts[0] else rest)
  }

  /** `MAX(timestamp)`: null for no rows, otherwise a timestamp present and no smaller than any. */
  function Latest(ts: seq<Time>): (m: Option<Time>)
    ensures m.None? <==> ts == []
    ensures m.Some? ==> m.value in ts && forall i :: 0 <= i < |ts| ==> ts[i] <= m.value
  {
    if ts == [] then None
    else match Latest(ts[1..])
      case None => Some(ts[0])
      case Some(rest) => Some(if ts[0] >= rest then ts[0] else rest)
  }

  /**
   * `getOverviewStats()`. The four sub-queries run under one `try`, so a
   * failure of any of them gives the all-zero, all-null overview.
   */
  function GetOverviewStats(logs: seq<GeneralLog>, attempts: seq<CredentialAttempt>, failed: bool): (r: Overview)
    ensures failed ==> r == Overview(0, 0, 0, None, None)
  {
    if failed then Overview(0, 0, 0, None, None)
    else
      var ts := TimestampsOf(attempts);
      Overview(|logs|, |attempts|, |Distinct(IPsOf(attempts))|, Earliest(ts), Latest(ts))
  }

  /**
   * The overview counts the request log and the attempts, has at most as
   * many distinct IPs as attempts, and its first and last attempt are the
   * earliest and latest attempt timestamps, null exactly when there are none.
   */
  lemma OverviewSpec(logs: seq<GeneralLog>, attempts: seq<CredentialAttempt>)
    ensures var r := GetOverviewStats(logs, attempts, false);
      && r.totalRequests == |logs| && r.totalAttempts == |attempts|
      && r.uniqueIPs == |Distinct(IPsOf(attempts))| <= r.totalAttempts
      && (attempts == [] <==> r.firstAttempt.None?)
      && (attempts == [] <==> r.lastAttempt.None?)
      && (attempts == [] ==> r == Overview(|logs|, 0, 0, None, None))
      && (forall a :: a in attempts ==>
            r.firstAttempt.Some? && r.firstAttempt.value <= a.timestamp
            && r.lastAttempt.Some? && a.timestamp <= r.lastAttempt.value)
      && (r.firstAttempt.Some? ==> exists a :: a in attempts && a.timestamp == r.firstAttempt.value)
      && (r.lastAttempt.Some? ==> exists a :: a in attempts && a.timestamp == r.lastAttempt.value)
  {
    var ips := IPsOf(attempts);
    var ts := TimestampsOf(attempts);
    DistinctAtMostLength(ips);
    if attempts == [] {
      assert Distinct(ips) == {};
    }
    forall a | a in attempts ensures a.timestamp in ts {
      var i :| 0 <= i < |attempts| && attempts[i] == a;
      assert ts[i] == a.timestamp;
    }
    var r := GetOverviewStats(logs, attempts, false);
    if r.firstAttempt.Some? {
      var i :| 0 <= i < |ts| && ts[i] == r.firstAttempt.value;
      assert attempts[i] in attempts;
    }
    if r.lastAttempt.Some? {
      var i :| 0 <= i < |ts| && ts[i] == r.lastAttempt.value;
      assert attempts[i] in attempts;
    }
  }

  // ---- Recent attempts ---------------------------------------------------

  /** The sort key of `ORDER BY timestamp DESC`. */
  function ByTimestamp(a: CredentialAttempt): int
  {
    a.timestamp
  }

  /** The row the API sends for one attempt: everything but the password text. */
  function RowOf(a: CredentialAttempt): RecentRow
  {
    RecentRow(a.id, a.timestamp, a.ipAddress, a.usernameAttempted, a.passwordLength, a.userAgent)
  }

  /** `LIMIT limit OFFSET offset` on an ordered result. */
  function Page<T>(s: seq<T>, limit: nat, offset: nat): (p: seq<T>)
    ensures |p| == if offset >= |s| then 0 else if |s| - offset < limit then |s| - offset else limit
    ensures forall i :: 0 <= i < |p| ==> p[i] == s[offset + i]
  {
    if offset >= |s| then [] else Take(s[offset..], limit)
  }

  function RowsOf(attempts: seq<CredentialAttempt>): (rows: seq<RecentRow>)
    ensures |rows| == |attempts| && forall i :: 0 <= i < |rows| ==> rows[i] == RowOf(attempts[i])
  {
    seq(|attempts|, i requires 0 <= i < |attempts| => RowOf(attempts[i]))
  }

  /** The `LIMIT` and `OFFSET` values PostgreSQL accepts: non-negative bigints. */
  predicate PageBoundsAccepted(limit: int, offset: int)
  {
    0 <= limit <= MaxBigint && 0 <= offset <= MaxBigint
  }

  /**
   * `getRecentAttempts(limit, offset)`: the total number of attempts and one
   * page of them, newest first. PostgreSQL rejects a negative `LIMIT` or
   * `OFFSET`, or one beyond the bigint range, which lands in the error
   * default like any other failure.
   */
  function GetRecentAttempts(attempts: seq<CredentialAttempt>, limit: int, offset: int, failed: bool): (r: RecentPage)
    ensures failed || !PageBoundsAccepted(limit, offset) ==> r == RecentPage(0, [])
  {
    if failed || !PageBoundsAccepted(limit, offset) then RecentPage(0, [])
    else RecentPage(|attempts|, RowsOf(Page(Newest(attempts), limit, offset)))
  }

  /** The newest-first ordering of the attempts that pages are cut from. */
  function Newest(attempts: seq<CredentialAttempt>): (sorted: seq<CredentialAttempt>)
    ensures |sorted| == |attempts| && multiset(sorted) == multiset(attempts)
    ensures forall a :: a in sorted <==> a in attempts
    ensures forall i, j :: 0 <= i < j < |sorted| ==> sorted[i].timestamp >= sorted[j].timestamp
  {
    var sorted := SortDesc(attempts, ByTimestamp);
    assert forall i, j :: 0 <= i < j < |sorted| ==> ByTimestamp(sorted[i]) >= ByTimestamp(sorted[j]);
    assert forall a :: a in sorted <==> a in multiset(attempts);
    sorted
  }

  /**
   * `total` counts all attempts whatever the page; the page holds
   * `min(limit, total - offset)` rows, newest first: the password-free
   * projections of the attempts at positions `offset`, `offset + 1`, ... of
   * the newest-first order.
   */
  lemma RecentAttemptsPage(attempts: seq<CredentialAttempt>, limit: nat, offset: nat)
    requires PageBoundsAccepted(limit, offset)
    ensures var r := GetRecentAttempts(attempts, limit, offset, false);
      forall i :: 0 <= i < |r.attempts| ==> r.attempts[i] == RowOf(Newest(attempts)[offset + i])
    ensures var r := GetRecentAttempts(attempts, limit, offset, false);
      && r.total == |attempts|
      && |r.attempts| == (if offset >= |attempts| then 0
                          else if |attempts| - offset < limit then |attempts| - offset else limit)
      && (forall i, j :: 0 <= i < j < |r.attempts| ==> r.attempts[i].timestamp >= r.attempts[j].timestamp)
    ensures forall row :: row in GetRecentAttempts(attempts, limit, offset, false).attempts ==>
              exists a :: a in attempts && row == RowOf(a)
  {
    var sorted := Newest(attempts);
    var page := Page(sorted, limit, offset);
    var r := GetRecentAttempts(attempts, limit, offset, false);
    assert r.attempts == RowsOf(page);
    forall row | row in r.attempts ensures exists a :: a in attempts && row == RowOf(a) {
      var i :| 0 <= i < |r.attempts| && r.attempts[i] == row;
      assert sorted[offset + i] in sorted;
    }
  }

  /** The first page holds the newest attempts: an attempt not shown is no newer than any shown. */
  lemma RecentAttemptsNewestFirst(attempts: seq<CredentialAttempt>, limit: nat)
    requires PageBoundsAccepted(limit, 0)
    ensures var r := GetRecentAttempts(attempts, limit, 0, false);
      forall a :: a in attempts && RowOf(a) !in r.attempts ==>
        forall i :: 0 <= i < |r.attempts| ==> a.timestamp <= r.attempts[i].timestamp
  {
    var sorted := Newest(attempts);
    var page := Page(sorted, limit, 0);
    var rows := GetRecentAttempts(attempts, limit, 0, false).attempts;
    assert rows == RowsOf(page);
    LeftOutIsOlder(sorted, page, rows);
  }

  /**
   * For any offset, the attempts the offset skips are at least as new as
   * every row on the page, and the attempts after the page are no newer
   * than any row on it.
   */
  lemma RecentAttemptsWindow(attempts: seq<CredentialAttempt>, limit: nat, offset: nat)
    requires PageBoundsAccepted(limit, offset)
    ensures var sorted := Newest(attempts);
            var r := GetRecentAttempts(attempts, limit, offset, false);
      && (forall j, i :: 0 <= j < offset && j < |sorted| && 0 <= i < |r.attempts| ==>
            r.attempts[i].timestamp <= sorted[j].timestamp)
      && (forall j, i :: offset + |r.attempts| <= j < |sorted| && 0 <= i < |r.attempts| ==>
            sorted[j].timestamp <= r.attempts[i].timestamp)
  {
    RecentAttemptsPage(attempts, limit, offset);
  }

  /** In a newest-first order, an attempt whose row is not on the first page is no newer than any row on it. */
  lemma LeftOutIsOlder(sorted: seq<CredentialAttempt>, page: seq<CredentialAttempt>, rows: seq<RecentRow>)
    requires forall i, j :: 0 <= i < j < |sorted| ==> sorted[i].timestamp >= sorted[j].timestamp
    requires |page| <= |sorted| && forall i :: 0 <= i < |page| ==> page[i] == sorted[i]
    requires rows == RowsOf(page)
    ensures forall a :: a in sorted && RowOf(a) !in rows ==>
              forall i :: 0 <= i < |rows| ==> a.timestamp <= rows[i].timestamp
  {
    forall a, i | a in sorted && RowOf(a) !in rows && 0 <= i < |rows|
      ensures a.timestamp <= rows[i].timestamp
    {
      var q :| 0 <= q < |sorted| && sorted[q] == a;
      assert rows[i].timestamp == sorted[i].timestamp;
    }
  }
}
