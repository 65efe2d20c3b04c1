/** What the retry count of a row counts, over whole runs, and when a row is given up. */
module FrontierRetries {
  import opened Wrappers
  import opened Frontier
  import opened FrontierSafety

  /** A failure report about a stored row. */
  ghost predicate Fails(s: State, op: Op, id: UrlId) {
    op.MarkFailed? && op.id == id && id < |s.rows|
  }

  /** What gives a row its attempts back: a success, job seeding while nobody holds it, or a manual retry. */
  ghost predicate StartsOver(s: State, op: Op, id: UrlId) {
    && id < |s.rows|
    && (|| ((op.MarkSuccess? || op.MarkNotModified?) && op.id == id)
        || (op.AddUrls? && op.requeue && Mentions(op.links, s.rows[id].urlHash)
            && s.rows[id].status != Leased && s.rows[id].status != Crawling)
        || (op.RequeueFailed? && op.sourceId == s.rows[id].sourceId && s.rows[id].status == Failed))
  }

  /** Failure reports on the row among the first `n` steps since it was inserted or last started over. */
  ghost function Failures(states: seq<State>, ops: seq<Op>, n: nat, id: UrlId): nat
    requires n <= |ops| < |states|
  {
    if n == 0 || StartsOver(states[n - 1], ops[n - 1], id) then 0
    else Failures(states, ops, n - 1, id) + if Fails(states[n - 1], ops[n - 1], id) then 1 else 0
  }

  lemma NoFailuresBefore(config: Config, states: seq<State>, ops: seq<Op>, n: nat, id: UrlId)
    requires IsRun(config, states, ops) && n <= |ops| < |states| && |states[n].rows| <= id
    ensures Failures(states, ops, n, id) == 0
  {
    if n > 0 {
      RunStep(config, states, ops, n - 1);
      RowsStay(config, states[n - 1], ops[n - 1]);
      NoFailuresBefore(config, states, ops, n - 1, id);
    }
  }

  lemma RowsStay(config: Config, s: State, op: Op)
    requires Enabled(config, s, op)
    ensures |s.rows| <= |After(config, s, op).rows|
  {
  }

  /** How one step changes the retry count of a row. */
  lemma CountStep(config: Config, s: State, op: Op, id: UrlId)
    requires Enabled(config, s, op) && id < |After(config, s, op).rows|
    ensures After(config, s, op).rows[id].retryCount ==
      if id >= |s.rows| || StartsOver(s, op, id) then 0
      else s.rows[id].retryCount + if Fails(s, op, id) then 1 else 0
  {
    hide IsBatch, Mentions;
    if op.AddUrls? && id >= |s.rows| {
      NewRowsShape(s.rows, op.links, op.sourceId, op.job, op.dbNow);
    }
  }

  /**
   * In every run, late reports included, the retry count of a row is the number of failure reports on it
   * since it was inserted, requeued or last succeeded.
   */
  lemma {:induction false} RetryCountCountsFailures(config: Config, states: seq<State>, ops: seq<Op>, n: nat, id: UrlId)
    requires IsRun(config, states, ops) && n <= |ops| < |states| && id < |states[n].rows|
    ensures states[n].rows[id].retryCount == Failures(states, ops, n, id)
  {
    if n > 0 {
      RunStep(config, states, ops, n - 1);
      CountStep(config, states[n - 1], ops[n - 1], id);
      hide StartsOver, Fails, After, Enabled;
      if id < |states[n - 1].rows| {
        RetryCountCountsFailures(config, states, ops, n - 1, id);
      } else {
        NoFailuresBefore(config, states, ops, n - 1, id);
      }
    }
  }

  /**
   * A row that was still to be tried is given up by a failure report exactly when that was its last allowed
   * failure in a row, `max_retries` of them but at least one; a permanent failure blocks it at once.
   */
  lemma GivenUpAfterLimit(config: Config, states: seq<State>, ops: seq<Op>, n: nat)
    requires IsRun(config, states, ops) && n < |ops| < |states|
    requires ops[n].MarkFailed? && ops[n].id < |states[n].rows|
    requires states[n].rows[ops[n].id].status in {Queued, RetryPending, Leased}
    ensures ops[n].id < |states[n + 1].rows|
    ensures var row, failures := states[n + 1].rows[ops[n].id], Failures(states, ops, n + 1, ops[n].id);
      && (row.status == Blocked <==> ops[n].category == RobotsRestricted)
      && (row.status == Failed <==> row.status != Blocked && failures == AttemptLimit(config))
      && (row.status == RetryPending <==> row.status != Blocked && failures < AttemptLimit(config))
  {
    var s, op := states[n], ops[n];
    RunStep(config, states, ops, n);
    InvOverRuns(config, states, ops, n);
    RowsStay(config, s, op);
    RetryCountCountsFailures(config, states, ops, n + 1, op.id);
    assert RowOk(config, s.rows[op.id], s.clock);
    CountStep(config, s, op, op.id);
  }
}
