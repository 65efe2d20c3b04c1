/** The retry delay shared by the frontier and the processing consumers. */
module Backoff {
  import opened Bits

  const BASE_SECONDS: nat := 60
  const MAX_SECONDS: nat := 21600

  /** `base * 2**(retry - 1)`, capped. */
  function Delay(retryCount: int): nat {
    var delay := BASE_SECONDS * Pow2(if retryCount < 1 then 0 else retryCount - 1);
    if delay <= MAX_SECONDS then delay else MAX_SECONDS
  }

  /** The delay with its jitter; `draw` in [-1, 1] stands for the random choice. */
  function ComputeBackoffSeconds(retryCount: int, draw: real): (seconds: real)
    requires -1.0 <= draw <= 1.0
    ensures 0.8 * Delay(retryCount) as real <= seconds <= 1.2 * Delay(retryCount) as real
  {
    var delay := Delay(retryCount) as real;
    JitterIsBounded(delay, draw);
    delay + draw * (0.2 * delay)
  }

  /** The jitter goes to both ends of its range. */
  lemma JitterReachesItsEnds(retryCount: int)
    ensures ComputeBackoffSeconds(retryCount, -1.0) == 0.8 * Delay(retryCount) as real
    ensures ComputeBackoffSeconds(retryCount, 0.0) == Delay(retryCount) as real
    ensures ComputeBackoffSeconds(retryCount, 1.0) == 1.2 * Delay(retryCount) as real
    ensures retryCount < 1 ==> Delay(retryCount) == 60
  {
  }

  lemma JitterIsBounded(delay: real, draw: real)
    requires -1.0 <= draw <= 1.0 && delay >= 0.0
    ensures -0.2 * delay <= draw * (0.2 * delay) <= 0.2 * delay
  {
    var jitter := 0.2 * delay;
    NonNegativeProduct(1.0 - draw, jitter);
    NonNegativeProduct(1.0 + draw, jitter);
  }

  lemma NonNegativeProduct(a: real, b: real)
    requires a >= 0.0 && b >= 0.0
    ensures a * b >= 0.0
  {
  }

  /** Each further retry doubles the delay until the cap of six hours. */
  lemma DelayDoubles(retryCount: nat)
    requires retryCount >= 1
    ensures Delay(1) == 60 && 60 <= Delay(retryCount) <= 6 * 60 * 60
    ensures var twice := 2 * Delay(retryCount);
            Delay(retryCount + 1) == if twice <= 6 * 60 * 60 then twice else 6 * 60 * 60
  {
    PowerIsPositive(retryCount - 1);
  }

  lemma {:induction false} PowerIsPositive(k: nat)
    ensures Pow2(k) >= 1
  {
    if k > 0 {
      PowerIsPositive(k - 1);
    }
  }
}

/** The durable URL frontier: rows, row transitions, claims under row locks, and the operations on them. */
module Frontier {
  import opened Wrappers
  import opened Backoff

  type Time = real
  type UrlId = nat
  type Txn = nat

  datatype Status = Discovered | Queued | Leased | Crawling | Success | Failed | RetryPending | Blocked | Skipped

  datatype UrlType = Homepage | Section | ArticlePage | Sitemap | Rss | OtherType

  datatype FailureCategory =
    | DnsFailure | ConnectionTimeout | Http403 | Http429 | Http5xx | HttpOther | RobotsRestricted
    | ParserFailure | BrowserFailure | DatabaseFailure | LlmFailure | EmbeddingFailure | Unknown

  predicate IsPermanent(c: FailureCategory) {
    c.RobotsRestricted?
  }

  predicate IsBlocking(c: FailureCategory) {
    c.Http403? || c.Http429?
  }

  datatype Config = Config(leaseSeconds: real, maxRetries: int, recrawlArticleHours: real, recrawlHubMinutes: real)

  datatype Row = Row(
    urlHash: string, domain: string, sourceId: nat, jobId: Option<nat>, priority: real, urlType: UrlType,
    status: Status, leaseOwner: Option<string>, leaseExpiresAt: Option<Time>, retryCount: nat,
    nextCrawlAt: Option<Time>, firstSeenAt: Time, lastSeenAt: Time, lastCrawledAt: Option<Time>,
    failureCategory: Option<FailureCategory>, contentHash: Option<string>)

  // ---------- Row transitions ----------

  function Unleased(row: Row, status: Status): Row {
    row.(status := status, leaseOwner := None, leaseExpiresAt := None)
  }

  function OnLeased(config: Config, row: Row, worker: string, now: Time): Row {
    row.(status := Leased, leaseOwner := Some(worker), leaseExpiresAt := Some(now + config.leaseSeconds))
  }

  function OnExtended(config: Config, row: Row, now: Time): Row {
    row.(leaseExpiresAt := Some(now + config.leaseSeconds))
  }

  function OnSuccess(config: Config, row: Row, contentHash: Option<string>, now: Time): Row {
    var interval := if row.urlType in {Homepage, Section, Rss, Sitemap} then config.recrawlHubMinutes * 60.0
                    else config.recrawlArticleHours * 3600.0;
    Unleased(row, Status.Success).(
      lastCrawledAt := Some(now), nextCrawlAt := Some(now + interval), retryCount := 0, failureCategory := None,
      contentHash := if contentHash.Some? then contentHash else row.contentHash)
  }

  function OnNotModified(config: Config, row: Row, now: Time): Row {
    Unleased(row, Status.Success).(
      lastCrawledAt := Some(now), nextCrawlAt := Some(now + config.recrawlArticleHours * 3600.0), retryCount := 0)
  }

  function OnFailed(config: Config, row: Row, category: FailureCategory, draw: real, now: Time): Row
    requires -1.0 <= draw <= 1.0
  {
    var retries := row.retryCount + 1;
    var base := row.(retryCount := retries, failureCategory := Some(category), lastCrawledAt := Some(now));
    if IsPermanent(category) then Unleased(base, Blocked).(nextCrawlAt := None)
    else if retries >= config.maxRetries then Unleased(base, Failed).(nextCrawlAt := None)
    else
      var backoff := ComputeBackoffSeconds(retries, draw) * (if IsBlocking(category) then 4.0 else 1.0);
      Unleased(base, RetryPending).(nextCrawlAt := Some(now + backoff))
  }

  /** Manual retry of a failed row. */
  function OnRetried(row: Row, job: Option<nat>, now: Time): Row {
    row.(status := RetryPending, retryCount := 0, nextCrawlAt := Some(now), jobId := job)
  }

  /** Job seeding of a known, unclaimed row. */
  function OnRequeued(row: Row, job: Option<nat>, now: Time): Row {
    row.(lastSeenAt := now, jobId := job, status := Queued, nextCrawlAt := Some(now), retryCount := 0)
  }

  // ---------- Discovered links ----------

  /** A link that survived normalization and the domain guard. */
  datatype Link = Link(urlHash: string, domain: string, priority: real, urlType: UrlType)

  function Inserted(link: Link, sourceId: nat, job: Option<nat>, dbNow: Time): Row {
    Row(link.urlHash, link.domain, sourceId, job, link.priority, link.urlType, Queued, None, None, 0,
        Some(dbNow), dbNow, dbNow, None, None, None)
  }

  predicate Mentions(links: seq<Link>, urlHash: string) {
    exists i :: 0 <= i < |links| && links[i].urlHash == urlHash
  }

  predicate Stored(rows: seq<Row>, urlHash: string) {
    exists i :: 0 <= i < |rows| && rows[i].urlHash == urlHash
  }

  /** What the upsert does to a row whose hash is mentioned. */
  function OnConflict(row: Row, requeue: bool, job: Option<nat>, now: Time): Row {
    if !requeue then row.(lastSeenAt := now)
    else if row.status.Leased? || row.status.Crawling? then row
    else OnRequeued(row, job, now)
  }

  function NewRows(rows: seq<Row>, links: seq<Link>, sourceId: nat, job: Option<nat>, dbNow: Time): seq<Row> {
    if links == [] then []
    else
      var link := links[|links| - 1];
      NewRows(rows, links[..|links| - 1], sourceId, job, dbNow)
      + (if Stored(rows, link.urlHash) then [] else [Inserted(link, sourceId, job, dbNow)])
  }

  function Upserted(
      rows: seq<Row>, links: seq<Link>, sourceId: nat, requeue: bool, job: Option<nat>, now: Time, dbNow: Time)
    : seq<Row>
  {
    seq(|rows|, i requires 0 <= i < |rows| =>
      if Mentions(links, rows[i].urlHash) then OnConflict(rows[i], requeue, job, now) else rows[i])
    + NewRows(rows, links, sourceId, job, dbNow)
  }

  // ---------- Claims ----------

  datatype Filter = Filter(sourceId: Option<nat>, jobId: Option<nat>)

  predicate Admits(filter: Filter, row: Row) {
    && (filter.sourceId.Some? ==> row.sourceId == filter.sourceId.value)
    && (filter.jobId.Some? ==> row.jobId == filter.jobId)
  }

  /** A claim between selecting its rows and committing the lease; it holds their row locks. */
  datatype Claim = Claim(worker: string, ids: set<UrlId>, now: Time)

  datatype State = State(rows: seq<Row>, claims: map<Txn, Claim>, clock: Time)

  predicate IsDue(row: Row, now: Time) {
    (row.status.Queued? || row.status.RetryPending?) && row.nextCrawlAt.Some? && row.nextCrawlAt.value <= now
  }

  predicate Locked(s: State, id: UrlId) {
    exists txn: Txn :: txn in s.claims && id in s.claims[txn].ids
  }

  /** Rows the claim query sees: due, admitted, and not skipped because another claim holds their lock. */
  predicate Claimable(s: State, filter: Filter, now: Time, id: UrlId) {
    id < |s.rows| && IsDue(s.rows[id], now) && Admits(filter, s.rows[id]) && !Locked(s, id)
  }

  function ClaimableSet(s: State, filter: Filter, now: Time): set<UrlId> {
    set id: UrlId | 0 <= id < |s.rows| && Claimable(s, filter, now, id)
  }

  /** `ORDER BY priority DESC, next_crawl_at`. */
  predicate Precedes(a: Row, b: Row) {
    a.priority > b.priority
    || (a.priority == b.priority && a.nextCrawlAt.Some? && b.nextCrawlAt.Some?
         && a.nextCrawlAt.value <= b.nextCrawlAt.value)
  }

  /** Any batch the database may lock: the first `limit` claimable rows, ties broken either way. */
  predicate IsBatch(s: State, filter: Filter, now: Time, limit: nat, ids: set<UrlId>) {
    var all := ClaimableSet(s, filter, now);
    && ids <= all
    && |ids| == (if |all| <= limit then |all| else limit)
    && forall i: UrlId, j: UrlId :: i in ids && j in all && j !in ids ==> Precedes(s.rows[i], s.rows[j])
  }

  // ---------- Steps ----------

  datatype Op =
    | AddUrls(links: seq<Link>, sourceId: nat, requeue: bool, job: Option<nat>, now: Time, dbNow: Time)
    | LockBatch(txn: Txn, worker: string, filter: Filter, limit: nat, ids: set<UrlId>, now: Time)
    | CommitBatch(txn: Txn, now: Time)
    | ExtendLease(id: UrlId, worker: string, now: Time)
    | Release(id: UrlId, worker: string, now: Time)
    | MarkSuccess(id: UrlId, worker: string, contentHash: Option<string>, now: Time)
    | MarkNotModified(id: UrlId, worker: string, now: Time)
    | MarkFailed(id: UrlId, worker: string, category: FailureCategory, draw: real, now: Time)
    | Skip(id: UrlId, worker: string, now: Time)
    | ReapExpired(now: Time)
    | RequeueFailed(sourceId: nat, job: Option<nat>, now: Time)

  /** One report about one row. */
  predicate IsOutcome(op: Op) {
    op.MarkSuccess? || op.MarkNotModified? || op.MarkFailed? || op.Skip?
  }

  /**
   * A step is possible when the clock does not run backwards and no row it writes is locked by a claim
   * (it would wait for the lock). Late reports, by workers that lost their lease, are possible.
   */
  ghost predicate Enabled(config: Config, s: State, op: Op) {
    && s.clock <= op.now
    && match op
       case AddUrls(links, _, _, _, _, _) =>
         && (forall i, j :: 0 <= i < j < |links| ==> links[i].urlHash != links[j].urlHash)
         && (forall id: UrlId :: Locked(s, id) && id < |s.rows| ==> !Mentions(links, s.rows[id].urlHash))
       case LockBatch(txn, _, filter, limit, ids, now) => txn !in s.claims && IsBatch(s, filter, now, limit, ids)
       case CommitBatch(txn, _) => txn in s.claims
       case MarkFailed(id, _, _, draw, _) => !Locked(s, id) && -1.0 <= draw <= 1.0
       case ReapExpired(_) => true
       case RequeueFailed(_, _, _) => true
       case _ => !Locked(s, op.id)
  }

  predicate LeaseIsOver(row: Row, now: Time) {
    (row.status.Leased? || row.status.Crawling?) && row.leaseExpiresAt.Some? && row.leaseExpiresAt.value < now
  }

  function ReapedRow(row: Row, now: Time): Row {
    if LeaseIsOver(row, now) then Unleased(row, Queued) else row
  }

  function RetriedRow(row: Row, sourceId: nat, job: Option<nat>, now: Time): Row {
    if row.sourceId == sourceId && row.status.Failed? then OnRetried(row, job, now) else row
  }

  function CommittedRow(config: Config, row: Row, id: UrlId, claim: Claim): Row {
    if id in claim.ids then OnLeased(config, row, claim.worker, claim.now) else row
  }

  function Reaped(rows: seq<Row>, now: Time): seq<Row> {
    seq(|rows|, i requires 0 <= i < |rows| => ReapedRow(rows[i], now))
  }

  function Retried(rows: seq<Row>, sourceId: nat, job: Option<nat>, now: Time): seq<Row> {
    seq(|rows|, i requires 0 <= i < |rows| => RetriedRow(rows[i], sourceId, job, now))
  }

  function Committed(config: Config, rows: seq<Row>, claim: Claim): seq<Row> {
    seq(|rows|, i requires 0 <= i < |rows| => CommittedRow(config, rows[i], i, claim))
  }

  /** The effect of a single-row statement; a row that is missing or does not match is left alone. */
  function Touched(config: Config, row: Row, op: Op): Row
    requires op.MarkFailed? ==> -1.0 <= op.draw <= 1.0
  {
    match op
    case ExtendLease(_, worker, now) => if row.leaseOwner == Some(worker) then OnExtended(config, row, now) else row
    case Release(_, worker, _) => if row.leaseOwner == Some(worker) then Unleased(row, Queued) else row
    case MarkSuccess(_, _, contentHash, now) => OnSuccess(config, row, contentHash, now)
    case MarkNotModified(_, _, now) => OnNotModified(config, row, now)
    case MarkFailed(_, _, category, draw, now) => OnFailed(config, row, category, draw, now)
    case Skip(_, _, _) => Unleased(row, Skipped)
    case _ => row
  }

  predicate IsSingleRow(op: Op) {
    IsOutcome(op) || op.ExtendLease? || op.Release?
  }

  ghost function After(config: Config, s: State, op: Op): State
    requires Enabled(config, s, op)
  {
    var rows := match op
      case AddUrls(links, sourceId, requeue, job, now, dbNow) =>
        Upserted(s.rows, links, sourceId, requeue, job, now, dbNow)
      case LockBatch(_, _, _, _, _, _) => s.rows
      case CommitBatch(txn, _) => Committed(config, s.rows, s.claims[txn])
      case ReapExpired(now) => Reaped(s.rows, now)
      case RequeueFailed(sourceId, job, now) => Retried(s.rows, sourceId, job, now)
      case _ => if op.id < |s.rows| then s.rows[op.id := Touched(config, s.rows[op.id], op)] else s.rows;
    var claims := match op
      case LockBatch(txn, worker, _, _, ids, now) => s.claims[txn := Claim(worker, ids, now)]
      case CommitBatch(txn, _) => s.claims - {txn}
      case _ => s.claims;
    State(rows, claims, op.now)
  }

  function Count(rows: seq<Row>, p: Row -> bool): nat {
    if rows == [] then 0 else Count(rows[..|rows| - 1], p) + (if p(rows[|rows| - 1]) then 1 else 0)
  }

  /** The `crawl_urls` table with the row locks of running claims. */
  class UrlTable {
    const config: Config
    var rows: seq<Row>
    var claims: map<Txn, Claim>
    var clock: Time

    constructor (config: Config)
      ensures this.config == config && S() == State([], map[], 0.0)
    {
      this.config := config;
      rows, claims, clock := [], map[], 0.0;
    }

    function S(): State
      reads this
    {
      State(rows, claims, clock)
    }

    /** The select part of a claim: lock the batch. */
    method LockDueRows(txn: Txn, worker: string, filter: Filter, limit: nat, now: Time) returns (ids: set<UrlId>)
      requires S().clock <= now && txn !in claims
      modifies this
      ensures var op := LockBatch(txn, worker, filter, limit, ids, now);
              Enabled(config, old(S()), op) && S() == After(config, old(S()), op)
      ensures |ids| <= limit && rows == old(rows) && claims == old(claims)[txn := Claim(worker, ids, now)]
      ensures forall id: UrlId :: id in ids ==>
        id < |rows| && IsWaiting(rows[id], filter, now) && IsUnlocked(old(claims), id)
      ensures forall id: UrlId ::
        id < |rows| && id !in ids && IsWaiting(rows[id], filter, now) && IsUnlocked(old(claims), id) ==>
          |ids| == limit && forall i: UrlId :: i in ids ==> GoesFirst(rows[i], rows[id])
    {
      ghost var found := BatchExists(S(), filter, now, limit, ClaimableSet(S(), filter, now));
      ids :| ids <= ClaimableSet(S(), filter, now) && IsBatch(S(), filter, now, limit, ids);
      BatchMeans(S(), filter, now, limit, ids);
      claims := claims[txn := Claim(worker, ids, now)];
      clock := now;
    }

    /** The update part of a claim: exactly the locked rows are leased to the worker, and unlocked. */
    method CommitClaim(txn: Txn, now: Time) returns (claimed: set<UrlId>)
      requires Enabled(config, S(), CommitBatch(txn, now))
      modifies this
      ensures S() == After(config, old(S()), CommitBatch(txn, now)) && claimed == old(claims)[txn].ids
      ensures |rows| == |old(rows)| && forall id: UrlId :: id < |rows| ==>
        rows[id] == if id !in claimed then old(rows)[id] else
          var claim := old(claims)[txn];
          old(rows)[id].(status := Leased, leaseOwner := Some(claim.worker),
                         leaseExpiresAt := Some(claim.now + config.leaseSeconds))
    {
      var claim := claims[txn];
      for i := 0 to |rows|
        invariant |rows| == |old(rows)| && claims == old(claims)
        invariant forall id: UrlId :: id < |rows| ==>
          rows[id] == if id < i then CommittedRow(config, old(rows)[id], id, claim) else old(rows)[id]
      {
        if i in claim.ids {
          rows := rows[i := rows[i].(status := Leased, leaseOwner := Some(claim.worker),
                                     leaseExpiresAt := Some(claim.now + config.leaseSeconds))];
        }
      }
      claims := claims - {txn};
      clock := now;
      claimed := claim.ids;
      assert rows == Committed(config, old(rows), claim);
    }

    method ExtendLeaseOf(id: UrlId, worker: string, now: Time) returns (extended: bool)
      requires Enabled(config, S(), ExtendLease(id, worker, now))
      modifies this
      ensures S() == After(config, old(S()), ExtendLease(id, worker, now))
      ensures extended <==> id < |rows| && old(rows)[id].leaseOwner == Some(worker)
      ensures rows == if !extended then old(rows) else
        old(rows)[id := old(rows)[id].(leaseExpiresAt := Some(now + config.leaseSeconds))]
    {
      extended := id < |rows| && rows[id].leaseOwner == Some(worker);
      if extended {
        rows := rows[id := rows[id].(leaseExpiresAt := Some(now + config.leaseSeconds))];
      }
      clock := now;
    }

    method ReleaseUrl(id: UrlId, worker: string, now: Time)
      requires Enabled(config, S(), Release(id, worker, now))
      modifies this
      ensures S() == After(config, old(S()), Release(id, worker, now))
      ensures rows == if id >= |old(rows)| || old(rows)[id].leaseOwner != Some(worker) then old(rows) else
        old(rows)[id := old(rows)[id].(status := Queued, leaseOwner := None, leaseExpiresAt := None)]
    {
      if id < |rows| && rows[id].leaseOwner == Some(worker) {
        rows := rows[id := rows[id].(status := Queued, leaseOwner := None, leaseExpiresAt := None)];
      }
      clock := now;
    }

    /** Returns whether the page changed; an unknown row did not. */
    method RecordSuccess(id: UrlId, worker: string, contentHash: Option<string>, now: Time) returns (changed: bool)
      requires Enabled(config, S(), MarkSuccess(id, worker, contentHash, now))
      modifies this
      ensures S() == After(config, old(S()), MarkSuccess(id, worker, contentHash, now))
      ensures changed <==> id < |rows| && (contentHash.None? || old(rows)[id].contentHash != contentHash)
      ensures rows == if id >= |old(rows)| then old(rows) else
        var was := old(rows)[id];
        var hub := was.urlType.Homepage? || was.urlType.Section? || was.urlType.Rss? || was.urlType.Sitemap?;
        old(rows)[id := was.(
          status := Status.Success, leaseOwner := None, leaseExpiresAt := None, lastCrawledAt := Some(now),
          nextCrawlAt := Some(now + if hub then config.recrawlHubMinutes * 60.0
            else config.recrawlArticleHours * 3600.0),
          retryCount := 0, failureCategory := None,
          contentHash := if contentHash.Some? then contentHash else was.contentHash)]
    {
      clock := now;
      if id >= |rows| {
        return false;
      }
      var url := rows[id];
      changed := contentHash.None? || url.contentHash != contentHash;
      var interval := if url.urlType in {Homepage, Section, Rss, Sitemap} then config.recrawlHubMinutes * 60.0
                      else config.recrawlArticleHours * 3600.0;
      url := url.(status := Status.Success, leaseOwner := None, leaseExpiresAt := None, lastCrawledAt := Some(now),
                  nextCrawlAt := Some(now + interval), retryCount := 0, failureCategory := None);
      if contentHash.Some? {
        url := url.(contentHash := contentHash);
      }
      rows := rows[id := url];
    }

    method RecordNotModified(id: UrlId, worker: string, now: Time)
      requires Enabled(config, S(), MarkNotModified(id, worker, now))
      modifies this
      ensures S() == After(config, old(S()), MarkNotModified(id, worker, now))
      ensures rows == if id >= |old(rows)| then old(rows) else
        old(rows)[id := old(rows)[id].(
          status := Status.Success, leaseOwner := None, leaseExpiresAt := None, lastCrawledAt := Some(now),
          nextCrawlAt := Some(now + config.recrawlArticleHours * 3600.0), retryCount := 0)]
    {
      clock := now;
      if id < |rows| {
        rows := rows[id := rows[id].(
          status := Status.Success, leaseOwner := None, leaseExpiresAt := None, lastCrawledAt := Some(now),
          nextCrawlAt := Some(now + config.recrawlArticleHours * 3600.0), retryCount := 0)];
      }
    }

    /** Schedules a retry with backoff or gives up; reports the status the row ended in. */
    method RecordFailure(
        id: UrlId, worker: string, category: FailureCategory, draw: real, now: Time)
      returns (status: Status)
      requires Enabled(config, S(), MarkFailed(id, worker, category, draw, now))
      modifies this
      ensures S() == After(config, old(S()), MarkFailed(id, worker, category, draw, now))
      ensures status == if id < |rows| then rows[id].status else Failed
      ensures |rows| == |old(rows)| && forall other: UrlId :: other < |rows| && other != id ==>
        rows[other] == old(rows)[other]
      ensures id < |rows| ==>
        var was, url := old(rows)[id], rows[id];
        && url == was.(
             status := url.status, nextCrawlAt := url.nextCrawlAt, retryCount := was.retryCount + 1,
             leaseOwner := None, leaseExpiresAt := None, lastCrawledAt := Some(now), failureCategory := Some(category))
        && (category.RobotsRestricted? ==> url.status.Blocked? && url.nextCrawlAt.None?)
        && (!category.RobotsRestricted? && was.retryCount + 1 >= config.maxRetries ==>
             url.status.Failed? && url.nextCrawlAt.None?)
        && (!category.RobotsRestricted? && was.retryCount + 1 < config.maxRetries ==>
             && url.status.RetryPending? && url.nextCrawlAt.Some?
             && var wait := Delay(was.retryCount + 1) as real * if category.Http403? || category.Http429? then 4.0
                else 1.0;
             0.8 * wait <= url.nextCrawlAt.value - now <= 1.2 * wait)
    {
      clock := now;
      if id >= |rows| {
        return Failed;
      }
      var url := rows[id];
      url := url.(retryCount := url.retryCount + 1, leaseOwner := None, leaseExpiresAt := None,
                  failureCategory := Some(category), lastCrawledAt := Some(now));
      if IsPermanent(category) {
        url := url.(status := Blocked, nextCrawlAt := None);
      } else if url.retryCount >= config.maxRetries {
        url := url.(status := Failed, nextCrawlAt := None);
      } else {
        var backoff := ComputeBackoffSeconds(url.retryCount, draw);
        if IsBlocking(category) {
          backoff := backoff * 4.0;
        }
        url := url.(status := RetryPending, nextCrawlAt := Some(now + backoff));
      }
      rows := rows[id := url];
      status := url.status;
    }

    method SkipUrl(id: UrlId, worker: string, now: Time)
      requires Enabled(config, S(), Skip(id, worker, now))
      modifies this
      ensures S() == After(config, old(S()), Skip(id, worker, now))
      ensures rows == if id >= |old(rows)| then old(rows) else
        old(rows)[id := old(rows)[id].(status := Skipped, leaseOwner := None, leaseExpiresAt := None)]
    {
      clock := now;
      if id < |rows| {
        rows := rows[id := rows[id].(status := Skipped, leaseOwner := None, leaseExpiresAt := None)];
      }
    }

    /** Exactly the rows with an expired lease return to the queue; the answer is how many there were. */
    method ReapExpiredLeases(now: Time) returns (reaped: nat)
      requires Enabled(config, S(), ReapExpired(now))
      modifies this
      ensures S() == After(config, old(S()), ReapExpired(now))
      ensures reaped == |Where(old(rows), (row: Row) => LeaseIsOver(row, now))|
      ensures |rows| == |old(rows)| && forall id: UrlId :: id < |rows| ==>
        var was := old(rows)[id];
        var over := (was.status.Leased? || was.status.Crawling?) && was.leaseExpiresAt.Some?
          && was.leaseExpiresAt.value < now;
        rows[id] == if !over then was else was.(status := Queued, leaseOwner := None, leaseExpiresAt := None)
    {
      reaped := 0;
      ghost var p := (row: Row) => LeaseIsOver(row, now);
      for i := 0 to |rows|
        invariant |rows| == |old(rows)| && claims == old(claims)
        invariant forall id: UrlId :: id < |rows| ==>
          rows[id] == if id < i then ReapedRow(old(rows)[id], now) else old(rows)[id]
        invariant reaped == |Where(old(rows)[..i], p)|
      {
        OneMoreRow(old(rows), p, i);
        if LeaseIsOver(rows[i], now) {
          rows := rows[i := rows[i].(status := Queued, leaseOwner := None, leaseExpiresAt := None)];
          reaped := reaped + 1;
        }
      }
      clock := now;
      assert rows == Reaped(old(rows), now) && old(rows)[..|rows|] == old(rows);
    }

    /** Exactly the failed rows of the source become due, as if never tried; the answer is how many there were. */
    method RequeueFailedUrls(sourceId: nat, job: Option<nat>, now: Time) returns (requeued: nat)
      requires Enabled(config, S(), RequeueFailed(sourceId, job, now))
      modifies this
      ensures S() == After(config, old(S()), RequeueFailed(sourceId, job, now))
      ensures requeued == |Where(old(rows), (row: Row) => row.sourceId == sourceId && row.status.Failed?)|
      ensures |rows| == |old(rows)| && forall id: UrlId :: id < |rows| ==>
        rows[id] == if old(rows)[id].sourceId != sourceId || !old(rows)[id].status.Failed? then old(rows)[id] else
          old(rows)[id].(status := RetryPending, retryCount := 0, nextCrawlAt := Some(now), jobId := job)
    {
      requeued := 0;
      ghost var p := (row: Row) => row.sourceId == sourceId && row.status.Failed?;
      for i := 0 to |rows|
        invariant |rows| == |old(rows)| && claims == old(claims)
        invariant forall id: UrlId :: id < |rows| ==>
          rows[id] == if id < i then RetriedRow(old(rows)[id], sourceId, job, now) else old(rows)[id]
        invariant requeued == |Where(old(rows)[..i], p)|
      {
        OneMoreRow(old(rows), p, i);
        if rows[i].sourceId == sourceId && rows[i].status.Failed? {
          rows := rows[i := rows[i].(status := RetryPending, retryCount := 0, nextCrawlAt := Some(now), jobId := job)];
          requeued := requeued + 1;
        }
      }
      clock := now;
      assert rows == Retried(old(rows), sourceId, job, now) && old(rows)[..|rows|] == old(rows);
    }
  }

  /** The rows a `WHERE` clause selects. */
  function Where(rows: seq<Row>, p: Row -> bool): set<UrlId> {
    set id: UrlId | 0 <= id < |rows| && p(rows[id])
  }

  lemma OneMoreRow(rows: seq<Row>, p: Row -> bool, i: nat)
    requires i < |rows|
    ensures |Where(rows[..i + 1], p)| == |Where(rows[..i], p)| + if p(rows[i]) then 1 else 0
  {
    var before, after := Where(rows[..i], p), Where(rows[..i + 1], p);
    assert after == if p(rows[i]) then before + {i} else before;
  }

  // ---------- What the claim query returns ----------

  /** Due, and of the source and the job asked for, if any. */
  ghost predicate IsWaiting(row: Row, filter: Filter, now: Time) {
    && (row.status == Queued || row.status == RetryPending)
    && row.nextCrawlAt != None && row.nextCrawlAt.value <= now
    && filter.sourceId in {None, Some(row.sourceId)} && filter.jobId in {None, row.jobId}
  }

  ghost predicate IsUnlocked(claims: map<Txn, Claim>, id: UrlId) {
    forall txn: Txn :: txn in claims ==> id !in claims[txn].ids
  }

  /** Higher priority, or the same and due no later. */
  ghost predicate GoesFirst(a: Row, b: Row) {
    && a.priority >= b.priority
    && (a.priority == b.priority && a.nextCrawlAt != None && b.nextCrawlAt != None ==>
         a.nextCrawlAt.value <= b.nextCrawlAt.value)
  }

  lemma BatchMeans(s: State, filter: Filter, now: Time, limit: nat, ids: set<UrlId>)
    requires IsBatch(s, filter, now, limit, ids)
    ensures |ids| <= limit
    ensures forall id: UrlId :: id in ids ==>
      id < |s.rows| && IsWaiting(s.rows[id], filter, now) && IsUnlocked(s.claims, id)
    ensures forall id: UrlId ::
      id < |s.rows| && id !in ids && IsWaiting(s.rows[id], filter, now) && IsUnlocked(s.claims, id) ==>
        |ids| == limit && forall i: UrlId :: i in ids ==> GoesFirst(s.rows[i], s.rows[id])
  {
    var all := ClaimableSet(s, filter, now);
    forall id: UrlId | id < |s.rows|
      ensures id in all <==> IsWaiting(s.rows[id], filter, now) && IsUnlocked(s.claims, id)
    {
      ClaimableMeans(s, filter, now, id);
    }
    forall id: UrlId | id in all && id !in ids ensures |ids| == limit {
      MoreThanTheBatch(ids, all, id);
    }
    forall id: UrlId, i: UrlId | id in all && id !in ids && i in ids ensures GoesFirst(s.rows[i], s.rows[id]) {
      assert Precedes(s.rows[i], s.rows[id]);
    }
    hide IsWaiting, IsUnlocked, Claimable, ClaimableSet, GoesFirst, Precedes;
  }

  lemma MoreThanTheBatch(ids: set<UrlId>, all: set<UrlId>, id: UrlId)
    requires ids <= all && id in all && id !in ids
    ensures |ids| < |all|
  {
    assert |all - ids| == |all| - |ids| && id in all - ids;
  }

  lemma ClaimableMeans(s: State, filter: Filter, now: Time, id: UrlId)
    requires id < |s.rows|
    ensures id in ClaimableSet(s, filter, now) <==> IsWaiting(s.rows[id], filter, now) && IsUnlocked(s.claims, id)
  {
    assert Locked(s, id) <==> !IsUnlocked(s.claims, id);
    assert IsDue(s.rows[id], now) && Admits(filter, s.rows[id]) <==> IsWaiting(s.rows[id], filter, now);
    hide IsWaiting, IsUnlocked, IsDue, Admits, Locked;
  }

  // ---------- The claim query always has an answer ----------

  /** A batch can be cut from any due set; `pool` shrinks to the rows still to be considered. */
  lemma {:induction false} BatchExists(
      s: State, filter: Filter, now: Time, limit: nat, pool: set<UrlId>)
    returns (ids: set<UrlId>)
    requires pool <= ClaimableSet(s, filter, now)
    ensures ids <= pool && |ids| == (if |pool| <= limit then |pool| else limit)
    ensures forall i: UrlId, j: UrlId :: i in ids && j in pool && j !in ids ==> Precedes(s.rows[i], s.rows[j])
  {
    if |pool| <= limit {
      ids := pool;
    } else {
      var last := LastOf(s, filter, now, pool);
      ids := BatchExists(s, filter, now, limit, pool - {last});
    }
  }

  lemma {:induction false} LastOf(s: State, filter: Filter, now: Time, pool: set<UrlId>) returns (last: UrlId)
    requires pool <= ClaimableSet(s, filter, now) && pool != {}
    ensures last in pool && forall i: UrlId :: i in pool ==> Precedes(s.rows[i], s.rows[last])
  {
    var x :| x in pool;
    if pool == {x} {
      last := x;
    } else {
      var other := LastOf(s, filter, now, pool - {x});
      last := if Precedes(s.rows[x], s.rows[other]) then other else x;
    }
  }
}
