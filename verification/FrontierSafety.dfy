/** What every reachable state of the frontier satisfies, whoever reports what and however late. */
module FrontierSafety {
  import opened Wrappers
  import opened Backoff
  import opened Frontier

  // ---------- The state invariant ----------

  /** A retry scheduled by a failure waits at least the jittered backoff, four times as long when blocked. */
  ghost predicate BackoffKept(row: Row) {
    row.status.RetryPending? && row.retryCount >= 1 ==>
      && row.lastCrawledAt.Some? && row.failureCategory.Some? && row.nextCrawlAt.Some?
      && row.lastCrawledAt.value + MinimumWait(row) <= row.nextCrawlAt.value
      && row.nextCrawlAt.value <= row.lastCrawledAt.value + 1.5 * MinimumWait(row)
  }

  function MinimumWait(row: Row): real
    requires row.failureCategory.Some?
  {
    0.8 * Delay(row.retryCount) as real * (if IsBlocking(row.failureCategory.value) then 4.0 else 1.0)
  }

  /** How often a row is tried before it is given up: `max_retries` times, but at least once. */
  function AttemptLimit(config: Config): int {
    if config.maxRetries >= 1 then config.maxRetries else 1
  }

  ghost predicate RowOk(config: Config, row: Row, clock: Time) {
    && !row.status.Discovered? && !row.status.Crawling?
    && (row.leaseOwner.Some? <==> row.status.Leased?)
    && (row.leaseExpiresAt.Some? <==> row.status.Leased?)
    && (row.status.Queued? || row.status.RetryPending? || row.status.Leased? ==>
         row.nextCrawlAt.Some? && row.retryCount < AttemptLimit(config))
    && (row.status.Leased? ==> row.nextCrawlAt.value <= clock)
    && (row.status.Failed? ==> row.retryCount >= AttemptLimit(config) && row.nextCrawlAt.None?)
    && (row.status.Blocked? ==> row.nextCrawlAt.None?)
    && BackoffKept(row)
  }

  ghost predicate RowsOk(config: Config, rows: seq<Row>, clock: Time) {
    forall id: UrlId :: id < |rows| ==> RowOk(config, rows[id], clock)
  }

  ghost predicate UniqueHashes(rows: seq<Row>) {
    forall i: UrlId, j: UrlId :: i < j < |rows| ==> rows[i].urlHash != rows[j].urlHash
  }

  /** Running claims hold disjoint batches of rows that are still due, hence leased to nobody. */
  ghost predicate ClaimsOk(s: State) {
    && (forall txn: Txn :: txn in s.claims ==> ClaimOk(s.rows, s.claims[txn], s.clock))
    && (forall a: Txn, b: Txn :: a in s.claims && b in s.claims && a != b ==> s.claims[a].ids !! s.claims[b].ids)
  }

  ghost predicate ClaimOk(rows: seq<Row>, claim: Claim, clock: Time) {
    && claim.now <= clock
    && forall id: UrlId :: id in claim.ids ==> id < |rows| && IsDue(rows[id], claim.now)
  }

  ghost predicate Inv(config: Config, s: State) {
    RowsOk(config, s.rows, s.clock) && UniqueHashes(s.rows) && ClaimsOk(s)
  }

  lemma TouchedRowOk(config: Config, row: Row, op: Op, clock: Time)
    requires RowOk(config, row, clock) && IsSingleRow(op) && clock <= op.now
    requires op.MarkFailed? ==> -1.0 <= op.draw <= 1.0
    ensures RowOk(config, Touched(config, row, op), op.now)
    ensures Touched(config, row, op).urlHash == row.urlHash
  {
    hide Delay;
    if op.MarkFailed? {
      var seconds := ComputeBackoffSeconds(row.retryCount + 1, op.draw);
    }
  }

  lemma BulkRowOk(config: Config, row: Row, id: UrlId, op: Op, s: State)
    requires RowOk(config, row, s.clock) && s.clock <= op.now && ClaimsOk(s)
    requires id < |s.rows| && row == s.rows[id]
    ensures op.ReapExpired? ==> RowOk(config, ReapedRow(row, op.now), op.now)
    ensures op.RequeueFailed? ==> RowOk(config, RetriedRow(row, op.sourceId, op.job, op.now), op.now)
    ensures op.CommitBatch? && op.txn in s.claims ==>
      RowOk(config, CommittedRow(config, row, id, s.claims[op.txn]), op.now)
    ensures op.AddUrls? ==> RowOk(config, OnConflict(row, op.requeue, op.job, op.now), op.now)
    ensures RowOk(config, row, op.now)
  {
    hide Delay;
    if op.CommitBatch? && op.txn in s.claims {
      assert ClaimOk(s.rows, s.claims[op.txn], s.clock);
    }
  }

  /** The rows an upsert appends carry distinct new hashes from the links. */
  lemma {:induction false} NewRowsShape(rows: seq<Row>, links: seq<Link>, sourceId: nat, job: Option<nat>, dbNow: Time)
    requires forall i, j :: 0 <= i < j < |links| ==> links[i].urlHash != links[j].urlHash
    ensures var added := NewRows(rows, links, sourceId, job, dbNow);
      && UniqueHashes(added)
      && forall k: nat :: k < |added| ==>
           !Stored(rows, added[k].urlHash)
           && exists i :: 0 <= i < |links| && added[k] == Inserted(links[i], sourceId, job, dbNow)
  {
    if links != [] {
      var front, last := links[..|links| - 1], links[|links| - 1];
      NewRowsShape(rows, front, sourceId, job, dbNow);
      var before, added := NewRows(rows, front, sourceId, job, dbNow), NewRows(rows, links, sourceId, job, dbNow);
      forall k: nat | k < |before| ensures before[k].urlHash != last.urlHash {
        var i :| 0 <= i < |front| && before[k] == Inserted(front[i], sourceId, job, dbNow);
        assert front[i] == links[i];
      }
      forall k: nat | k < |added|
        ensures exists i :: 0 <= i < |links| && added[k] == Inserted(links[i], sourceId, job, dbNow)
      {
        if k < |before| {
          var i :| 0 <= i < |front| && before[k] == Inserted(front[i], sourceId, job, dbNow);
          assert links[i] == front[i];
        } else {
          assert added[k] == Inserted(links[|links| - 1], sourceId, job, dbNow);
        }
      }
    }
  }

  lemma UpsertedRowsOk(config: Config, s: State, op: Op)
    requires Inv(config, s) && op.AddUrls? && Enabled(config, s, op)
    ensures RowsOk(config, After(config, s, op).rows, op.now) && UniqueHashes(After(config, s, op).rows)
  {
    NewRowsShape(s.rows, op.links, op.sourceId, op.job, op.dbNow);
    var rows, added := After(config, s, op).rows, NewRows(s.rows, op.links, op.sourceId, op.job, op.dbNow);
    hide RowOk, Enabled, Inserted;
    forall id: UrlId | id < |rows|
      ensures RowOk(config, rows[id], op.now) && (id < |s.rows| ==> rows[id].urlHash == s.rows[id].urlHash)
    {
      UpsertedRowOk(config, s, op, id);
    }
    hide OnConflict, Mentions, Stored;
    UniqueTogether(s.rows, rows, added);
  }

  lemma UpsertedRowOk(config: Config, s: State, op: Op, id: UrlId)
    requires Inv(config, s) && op.AddUrls? && Enabled(config, s, op) && id < |After(config, s, op).rows|
    ensures var row := After(config, s, op).rows[id];
      RowOk(config, row, op.now) && (id < |s.rows| ==> row.urlHash == s.rows[id].urlHash)
  {
    hide RowOk, Mentions, Stored, OnConflict, ClaimsOk, UniqueHashes, NewRows;
    if id < |s.rows| {
      BulkRowOk(config, s.rows[id], id, op, s);
      ConflictKeepsHash(s.rows[id], op);
    } else {
      NewRowOk(config, s.rows, op, id - |s.rows|);
    }
  }

  lemma NewRowOk(config: Config, rows: seq<Row>, op: Op, k: nat)
    requires op.AddUrls? && forall i, j :: 0 <= i < j < |op.links| ==> op.links[i].urlHash != op.links[j].urlHash
    requires k < |NewRows(rows, op.links, op.sourceId, op.job, op.dbNow)|
    ensures RowOk(config, NewRows(rows, op.links, op.sourceId, op.job, op.dbNow)[k], op.now)
  {
    hide RowOk;
    NewRowsShape(rows, op.links, op.sourceId, op.job, op.dbNow);
    var added := NewRows(rows, op.links, op.sourceId, op.job, op.dbNow);
    var i :| 0 <= i < |op.links| && added[k] == Inserted(op.links[i], op.sourceId, op.job, op.dbNow);
    InsertedRowOk(config, op.links[i], op);
  }

  /** Rows that keep their hashes, followed by rows with distinct new ones. */
  lemma UniqueTogether(before: seq<Row>, rows: seq<Row>, added: seq<Row>)
    requires UniqueHashes(before) && UniqueHashes(added) && |rows| == |before| + |added|
    requires forall id: UrlId :: id < |before| ==> rows[id].urlHash == before[id].urlHash
    requires forall id: UrlId :: |before| <= id < |rows| ==> rows[id] == added[id - |before|]
    requires forall k: nat :: k < |added| ==> !Stored(before, added[k].urlHash)
    ensures UniqueHashes(rows)
  {
    hide Stored;
    forall i: UrlId, j: UrlId | i < j < |rows| ensures rows[i].urlHash != rows[j].urlHash {
      if i < |before| <= j {
        NewHashesAreNew(before, added[j - |before|].urlHash, i);
      }
    }
  }

  lemma ConflictKeepsHash(row: Row, op: Op)
    requires op.AddUrls?
    ensures OnConflict(row, op.requeue, op.job, op.now).urlHash == row.urlHash
  {
  }

  lemma NewHashesAreNew(rows: seq<Row>, urlHash: string, i: UrlId)
    requires i < |rows| && !Stored(rows, urlHash)
    ensures rows[i].urlHash != urlHash
  {
  }

  lemma InsertedRowOk(config: Config, link: Link, op: Op)
    requires op.AddUrls?
    ensures RowOk(config, Inserted(link, op.sourceId, op.job, op.dbNow), op.now)
  {
  }

  lemma StepKeepsRows(config: Config, s: State, op: Op)
    requires Inv(config, s) && Enabled(config, s, op)
    ensures RowsOk(config, After(config, s, op).rows, op.now) && UniqueHashes(After(config, s, op).rows)
  {
    hide RowOk, IsBatch, OnFailed, Unleased;
    if op.AddUrls? {
      UpsertedRowsOk(config, s, op);
    } else {
      var rows := After(config, s, op).rows;
      forall id: UrlId | id < |s.rows|
        ensures RowOk(config, rows[id], op.now) && rows[id].urlHash == s.rows[id].urlHash
      {
        BulkRowOk(config, s.rows[id], id, op, s);
        if IsSingleRow(op) {
          TouchedRowOk(config, s.rows[id], op, s.clock);
        } else {
          BulkKeepsHash(config, s, op, id);
        }
      }
    }
  }

  lemma BulkKeepsHash(config: Config, s: State, op: Op, id: UrlId)
    requires Enabled(config, s, op) && !op.AddUrls? && !IsSingleRow(op) && id < |s.rows|
    ensures |After(config, s, op).rows| == |s.rows| && After(config, s, op).rows[id].urlHash == s.rows[id].urlHash
  {
  }

  /** A row locked by a claim is written by nobody but that claim. */
  lemma LockedRowsUntouched(config: Config, s: State, op: Op, txn: Txn, id: UrlId)
    requires Inv(config, s) && Enabled(config, s, op) && txn in s.claims && id in s.claims[txn].ids
    requires op != CommitBatch(txn, op.now)
    ensures id < |After(config, s, op).rows| && After(config, s, op).rows[id] == s.rows[id]
  {
    hide RowOk, IsBatch, OnFailed, Mentions, NewRows, Upserted;
    assert ClaimOk(s.rows, s.claims[txn], s.clock);
    assert Locked(s, id);
    if op.AddUrls? {
      UnmentionedRowKept(s.rows, op, id);
    }
  }

  lemma UnmentionedRowKept(rows: seq<Row>, op: Op, id: UrlId)
    requires op.AddUrls? && id < |rows| && !Mentions(op.links, rows[id].urlHash)
    ensures var after := Upserted(rows, op.links, op.sourceId, op.requeue, op.job, op.now, op.dbNow);
            id < |after| && after[id] == rows[id]
  {
  }

  lemma StepKeepsClaims(config: Config, s: State, op: Op)
    requires Inv(config, s) && Enabled(config, s, op)
    ensures ClaimsOk(After(config, s, op))
  {
    var s' := After(config, s, op);
    forall txn: Txn | txn in s'.claims ensures ClaimOk(s'.rows, s'.claims[txn], s'.clock) {
      if txn in s.claims {
        assert ClaimOk(s.rows, s.claims[txn], s.clock);
        forall id: UrlId | id in s.claims[txn].ids ensures id < |s'.rows| && s'.rows[id] == s.rows[id] {
          LockedRowsUntouched(config, s, op, txn, id);
        }
      }
    }
    if op.LockBatch? {
      forall txn: Txn | txn in s.claims ensures s.claims[txn].ids !! op.ids {
        forall id: UrlId | id in op.ids ensures id !in s.claims[txn].ids {
          assert Claimable(s, op.filter, op.now, id);
        }
      }
    }
  }

  lemma StepKeepsInv(config: Config, s: State, op: Op)
    requires Inv(config, s) && Enabled(config, s, op)
    ensures Inv(config, After(config, s, op))
  {
    hide RowsOk, UniqueHashes, ClaimsOk, Enabled;
    StepKeepsRows(config, s, op);
    StepKeepsClaims(config, s, op);
  }

  // ---------- Runs ----------

  ghost predicate IsRun(config: Config, states: seq<State>, ops: seq<Op>) {
    IsPath(config, states, ops) && states[0].rows == [] && states[0].claims == map[]
  }

  /** Consecutive steps through these states. */
  ghost predicate IsPath(config: Config, states: seq<State>, ops: seq<Op>) {
    && |states| == |ops| + 1
    && forall i {:trigger ops[i]} :: 0 <= i < |ops| ==> IsStep(config, states[i], ops[i], states[i + 1])
  }

  ghost predicate IsStep(config: Config, s: State, op: Op, s': State) {
    Enabled(config, s, op) && s' == After(config, s, op)
  }

  lemma RunStep(config: Config, states: seq<State>, ops: seq<Op>, n: nat)
    requires IsRun(config, states, ops) && n + 1 < |states|
    ensures n < |ops| && IsStep(config, states[n], ops[n], states[n + 1])
  {
  }

  lemma PathJoins(config: Config, a: seq<State>, opsA: seq<Op>, b: seq<State>, opsB: seq<Op>)
    requires IsPath(config, a, opsA) && IsPath(config, b, opsB) && a[|opsA|] == b[0]
    ensures IsPath(config, a + b[1..], opsA + opsB)
  {
    hide IsStep;
    var states, ops := a + b[1..], opsA + opsB;
    forall i | 0 <= i < |ops| ensures IsStep(config, states[i], ops[i], states[i + 1]) {
      if i < |opsA| {
        assert states[i] == a[i] && ops[i] == opsA[i] && states[i + 1] == a[i + 1];
      } else {
        var k := i - |opsA|;
        assert states[i] == b[k] && ops[i] == opsB[k] && states[i + 1] == b[k + 1];
      }
    }
  }

  /** The invariant holds in every reachable state, late reports included. */
  lemma {:induction false} InvOverRuns(config: Config, states: seq<State>, ops: seq<Op>, n: nat)
    requires IsRun(config, states, ops) && n < |states|
    ensures Inv(config, states[n])
  {
    if n > 0 {
      hide IsRun, Inv, Enabled, After;
      RunStep(config, states, ops, n - 1);
      InvOverRuns(config, states, ops, n - 1);
      StepKeepsInv(config, states[n - 1], ops[n - 1]);
    }
  }

  /** Every row that is still to be tried has retries left in the literal sense of the configuration. */
  ghost predicate RetriesLeft(config: Config, s: State) {
    forall id: UrlId :: id < |s.rows|
      && (s.rows[id].status.Queued? || s.rows[id].status.RetryPending? || s.rows[id].status.Leased?)
      ==> s.rows[id].retryCount < config.maxRetries
  }

  /** Scheduled rows have retries left in every reachable state exactly when the configuration allows one. */
  lemma RetriesLeftNeedOne(config: Config)
    ensures (forall states: seq<State>, ops: seq<Op> ::
               IsRun(config, states, ops) ==> RetriesLeft(config, states[|ops|]))
       <==> config.maxRetries >= 1
  {
    if config.maxRetries >= 1 {
      forall states: seq<State>, ops: seq<Op> | IsRun(config, states, ops) ensures RetriesLeft(config, states[|ops|]) {
        InvOverRuns(config, states, ops, |ops|);
        LimitIsRetries(config, states[|ops|]);
      }
    } else {
      var s, discover := State([], map[], 0.0), Discovery("h", 0.0);
      OneRow(config, s, discover, "h");
      assert IsRun(config, [s, After(config, s, discover)], [discover]);
      assert After(config, s, discover).rows[0].status.Queued? && !RetriesLeft(config, After(config, s, discover));
    }
  }

  lemma LimitIsRetries(config: Config, s: State)
    requires Inv(config, s) && config.maxRetries >= 1
    ensures RetriesLeft(config, s)
  {
    forall id: UrlId | id < |s.rows| ensures RowOk(config, s.rows[id], s.clock) {
    }
  }

  /** The discovery of one URL. */
  function Discovery(urlHash: string, now: Time): Op {
    AddUrls([Link(urlHash, "d", 0.0, OtherType)], 0, false, None, now, now)
  }

  lemma OneRow(config: Config, s: State, discover: Op, urlHash: string)
    requires s == State([], map[], s.clock) && discover == Discovery(urlHash, s.clock)
    ensures Enabled(config, s, discover)
    ensures After(config, s, discover)
         == State([Inserted(Link(urlHash, "d", 0.0, OtherType), 0, None, s.clock)], map[], s.clock)
  {
    var link := Link(urlHash, "d", 0.0, OtherType);
    assert !Stored([], urlHash) && [link][..0] == [];
    assert NewRows([], [link], 0, None, s.clock) == [Inserted(link, 0, None, s.clock)];
  }

  /** A row whose lease the reaper takes back is due at once: no URL is lost to a dead worker. */
  lemma ReapedRowIsDue(config: Config, s: State, now: Time, id: UrlId)
    requires Inv(config, s) && s.clock <= now && id < |s.rows|
    ensures var row, reaped := s.rows[id], After(config, s, ReapExpired(now)).rows[id];
            if row.status.Leased? && row.leaseExpiresAt.value < now
            then reaped.status.Queued? && IsDue(reaped, now) && reaped.retryCount == row.retryCount
            else reaped == row
  {
    assert RowOk(config, s.rows[id], s.clock);
  }

  /** The failure report that scheduled a retry: the one the row remembers. */
  ghost predicate IsFailureBehind(op: Op, row: Row, id: UrlId) {
    op.MarkFailed? && op.id == id && row.lastCrawledAt == Some(op.now) && row.failureCategory == Some(op.category)
  }

  ghost predicate AwaitsRetry(s: State, id: UrlId) {
    id < |s.rows| && s.rows[id].status.RetryPending? && s.rows[id].retryCount >= 1
  }

  /** Only a failure report puts a row in this state; other steps leave what it remembers alone. */
  lemma RetryHasCause(config: Config, s: State, op: Op, id: UrlId)
    requires Inv(config, s) && Enabled(config, s, op) && AwaitsRetry(After(config, s, op), id)
    ensures var row' := After(config, s, op).rows[id];
      || IsFailureBehind(op, row', id)
      || (AwaitsRetry(s, id) && s.rows[id].lastCrawledAt == row'.lastCrawledAt
          && s.rows[id].failureCategory == row'.failureCategory)
  {
    hide RowsOk, UniqueHashes, ClaimsOk, IsBatch, Mentions, Stored, ComputeBackoffSeconds;
    if op.AddUrls? {
      if id >= |s.rows| {
        NewRowsShape(s.rows, op.links, op.sourceId, op.job, op.dbNow);
      }
    }
  }

  lemma {:induction false} FailureBehindRetry(config: Config, states: seq<State>, ops: seq<Op>, n: nat, id: UrlId)
    requires IsRun(config, states, ops) && n < |states| && AwaitsRetry(states[n], id)
    ensures exists i: nat :: i < n && IsFailureBehind(ops[i], states[n].rows[id], id)
  {
    if n > 0 {
      hide IsRun, Inv, Enabled, After;
      RunStep(config, states, ops, n - 1);
      var s, op := states[n - 1], ops[n - 1];
      InvOverRuns(config, states, ops, n - 1);
      RetryHasCause(config, s, op, id);
      if !IsFailureBehind(op, states[n].rows[id], id) {
        FailureBehindRetry(config, states, ops, n - 1, id);
        var i: nat :| i < n - 1 && IsFailureBehind(ops[i], s.rows[id], id);
        assert IsFailureBehind(ops[i], states[n].rows[id], id);
      }
    }
  }

  /**
   * In every run, a claim that picks up a failed row comes at least the minimum backoff after the failure
   * report that scheduled the retry, four times as long when that report was about being blocked.
   */
  lemma NoEarlyRetry(config: Config, states: seq<State>, ops: seq<Op>, n: nat, id: UrlId)
    requires IsRun(config, states, ops) && n < |ops|
    requires ops[n].LockBatch? && id in ops[n].ids && AwaitsRetry(states[n], id)
    ensures exists i: nat :: (
      && i < n && IsFailureBehind(ops[i], states[n].rows[id], id)
      && ops[i].now
         + 0.8 * Delay(states[n].rows[id].retryCount) as real * (if IsBlocking(ops[i].category) then 4.0 else 1.0)
         <= ops[n].now)
  {
    hide Delay;
    InvOverRuns(config, states, ops, n);
    FailureBehindRetry(config, states, ops, n, id);
    var row := states[n].rows[id];
    var i: nat :| i < n && IsFailureBehind(ops[i], row, id);
    RunStep(config, states, ops, n);
    hide IsRun;
    assert RowOk(config, row, states[n].clock);
    assert Claimable(states[n], ops[n].filter, ops[n].now, id);
  }

  /** A committing claim leases rows nobody holds a lease on, and exactly the rows it locked. */
  lemma CommitLeasesFreeRows(config: Config, s: State, txn: Txn, now: Time, id: UrlId)
    requires Inv(config, s) && Enabled(config, s, CommitBatch(txn, now)) && id < |s.rows|
    ensures |After(config, s, CommitBatch(txn, now)).rows| == |s.rows|
    ensures var before, after := s.rows[id], After(config, s, CommitBatch(txn, now)).rows[id];
            if id in s.claims[txn].ids then
              && IsDue(before, s.claims[txn].now) && before.leaseOwner.None?
              && after == OnLeased(config, before, s.claims[txn].worker, s.claims[txn].now)
            else after == before
  {
    assert RowOk(config, s.rows[id], s.clock);
    assert ClaimOk(s.rows, s.claims[txn], s.clock);
  }
}
