/** How much work a frontier can generate: a budget that only insertions raise and every outcome lowers. */
module FrontierWork {
  import opened Wrappers
  import opened Frontier
  import opened FrontierSafety

  /** Attempts a row still has, while it can be claimed or is leased. */
  function Attempts(config: Config, row: Row): int {
    if row.status.Queued? || row.status.RetryPending? || row.status.Leased?
    then AttemptLimit(config) - row.retryCount
    else 0
  }

  function Budget(config: Config, rows: seq<Row>): int {
    if rows == [] then 0 else Budget(config, rows[..|rows| - 1]) + Attempts(config, rows[|rows| - 1])
  }

  lemma {:induction false} BudgetPointwise(config: Config, a: seq<Row>, b: seq<Row>)
    requires |a| == |b| && forall i :: 0 <= i < |a| ==> Attempts(config, a[i]) == Attempts(config, b[i])
    ensures Budget(config, a) == Budget(config, b)
  {
    hide Attempts;
    if a != [] {
      BudgetPointwise(config, a[..|a| - 1], b[..|b| - 1]);
    }
  }

  lemma {:induction false} BudgetAppend(config: Config, a: seq<Row>, b: seq<Row>)
    ensures Budget(config, a + b) == Budget(config, a) + Budget(config, b)
  {
    hide Attempts;
    if b == [] {
      assert a + b == a;
    } else {
      BudgetAppend(config, a, b[..|b| - 1]);
      assert (a + b)[..|a + b| - 1] == a + b[..|b| - 1];
    }
  }

  lemma BudgetUpdate(config: Config, rows: seq<Row>, id: UrlId, row: Row)
    requires id < |rows|
    ensures Budget(config, rows[id := row]) == Budget(config, rows) - Attempts(config, rows[id]) + Attempts(config, row)
  {
    hide Attempts;
    var front, back := rows[..id], rows[id + 1..];
    assert rows == front + [rows[id]] + back && rows[id := row] == front + [row] + back;
    BudgetAppend(config, front + [rows[id]], back);
    BudgetAppend(config, front, [rows[id]]);
    BudgetAppend(config, front + [row], back);
    BudgetAppend(config, front, [row]);
    BudgetOne(config, row);
    BudgetOne(config, rows[id]);
  }

  lemma BudgetOne(config: Config, row: Row)
    ensures Budget(config, [row]) == Attempts(config, row)
  {
    assert Budget(config, [row][..0]) == 0;
  }

  lemma {:induction false} UniformBudget(config: Config, rows: seq<Row>)
    requires forall i :: 0 <= i < |rows| ==> Attempts(config, rows[i]) == AttemptLimit(config)
    ensures Budget(config, rows) == AttemptLimit(config) * |rows|
  {
    hide Attempts;
    if rows == [] {
      assert AttemptLimit(config) * 0 == 0;
    } else {
      UniformBudget(config, rows[..|rows| - 1]);
      assert AttemptLimit(config) * |rows| == AttemptLimit(config) * (|rows| - 1) + AttemptLimit(config);
    }
  }

  lemma NewRowsBudget(config: Config, rows: seq<Row>, links: seq<Link>, sourceId: nat, job: Option<nat>, dbNow: Time)
    requires forall i, j :: 0 <= i < j < |links| ==> links[i].urlHash != links[j].urlHash
    ensures var added := NewRows(rows, links, sourceId, job, dbNow);
            Budget(config, added) == AttemptLimit(config) * |added|
  {
    NewRowsShape(rows, links, sourceId, job, dbNow);
    UniformBudget(config, NewRows(rows, links, sourceId, job, dbNow));
  }

  /** Steps that give rows their budget back. */
  predicate IsRequeue(op: Op) {
    op.RequeueFailed? || (op.AddUrls? && op.requeue)
  }

  ghost predicate ReportsLeasedRow(s: State, op: Op) {
    IsOutcome(op) ==> op.id < |s.rows| && s.rows[op.id].status.Leased?
  }

  lemma BulkBudget(config: Config, s: State, op: Op, id: UrlId)
    requires Inv(config, s) && Enabled(config, s, op) && id < |s.rows|
    requires !IsRequeue(op) && !IsSingleRow(op)
    ensures id < |After(config, s, op).rows|
      && Attempts(config, After(config, s, op).rows[id]) == Attempts(config, s.rows[id])
  {
    hide BackoffKept, IsBatch, NewRows;
    assert RowOk(config, s.rows[id], s.clock);
    if op.CommitBatch? {
      assert ClaimOk(s.rows, s.claims[op.txn], s.clock);
    }
  }

  lemma TouchedBudget(config: Config, row: Row, op: Op, clock: Time)
    requires RowOk(config, row, clock) && IsSingleRow(op)
    requires op.MarkFailed? ==> -1.0 <= op.draw <= 1.0
    ensures !IsOutcome(op) ==> Attempts(config, Touched(config, row, op)) == Attempts(config, row)
    ensures IsOutcome(op) && row.status.Leased? ==> Attempts(config, Touched(config, row, op)) < Attempts(config, row)
  {
    hide BackoffKept;
  }

  /**
   * Claims, commits, releases, reaps and extensions leave the budget unchanged; an insertion raises it by
   * the attempt limit per new row; an outcome on a leased row lowers it by at least one.
   */
  lemma StepBudget(config: Config, s: State, op: Op)
    requires Inv(config, s) && Enabled(config, s, op)
    requires !IsRequeue(op) && ReportsLeasedRow(s, op)
    ensures var rows := After(config, s, op).rows;
      && |rows| >= |s.rows| && (!op.AddUrls? ==> |rows| == |s.rows|)
      && (IsOutcome(op) ==> Budget(config, rows) <= Budget(config, s.rows) - 1)
      && (!IsOutcome(op) ==>
           Budget(config, rows) == Budget(config, s.rows) + AttemptLimit(config) * (|rows| - |s.rows|))
  {
    hide Budget, Attempts, RowOk, IsBatch, Touched, OnConflict;
    var rows := After(config, s, op).rows;
    if IsSingleRow(op) {
      if op.id < |s.rows| {
        assert RowOk(config, s.rows[op.id], s.clock);
        BudgetUpdate(config, s.rows, op.id, Touched(config, s.rows[op.id], op));
        TouchedBudget(config, s.rows[op.id], op, s.clock);
      }
    } else {
      forall id: UrlId | id < |s.rows|
        ensures id < |rows| && Attempts(config, rows[id]) == Attempts(config, s.rows[id])
      {
        BulkBudget(config, s, op, id);
      }
      var kept := rows[..|s.rows|];
      BudgetPointwise(config, kept, s.rows);
      if op.AddUrls? {
        var added := NewRows(s.rows, op.links, op.sourceId, op.job, op.dbNow);
        assert rows == kept + added;
        BudgetAppend(config, kept, added);
        NewRowsBudget(config, s.rows, op.links, op.sourceId, op.job, op.dbNow);
      } else {
        assert rows == kept;
      }
    }
  }

  function Outcomes(ops: seq<Op>, n: nat): nat
    requires n <= |ops|
  {
    if n == 0 then 0 else Outcomes(ops, n - 1) + (if IsOutcome(ops[n - 1]) then 1 else 0)
  }

  /** A stretch of a run from any good state, without requeues, in which reports concern leased rows. */
  ghost predicate IsWorkRun(config: Config, states: seq<State>, ops: seq<Op>) {
    && |states| == |ops| + 1 && Inv(config, states[0])
    && forall i {:trigger ops[i]} :: 0 <= i < |ops| ==> IsWorkStep(config, states[i], ops[i], states[i + 1])
  }

  ghost predicate IsWorkStep(config: Config, s: State, op: Op, s': State) {
    IsStep(config, s, op, s') && !IsRequeue(op) && ReportsLeasedRow(s, op)
  }

  lemma {:induction false} WorkSoFar(config: Config, states: seq<State>, ops: seq<Op>, n: nat)
    requires IsWorkRun(config, states, ops) && n < |states|
    ensures Inv(config, states[n]) && |states[n].rows| >= |states[0].rows|
    ensures Outcomes(ops, n) + Budget(config, states[n].rows)
         <= Budget(config, states[0].rows) + AttemptLimit(config) * (|states[n].rows| - |states[0].rows|)
  {
    hide Inv, Enabled, After, Budget, ReportsLeasedRow, IsRequeue;
    if n > 0 {
      WorkSoFar(config, states, ops, n - 1);
      assert IsWorkStep(config, states[n - 1], ops[n - 1], states[n - 1 + 1]);
      StepKeepsInv(config, states[n - 1], ops[n - 1]);
      StepBudget(config, states[n - 1], ops[n - 1]);
      Distribute(AttemptLimit(config), |states[n].rows| - |states[n - 1].rows|,
        |states[n - 1].rows| - |states[0].rows|);
    }
  }

  lemma Distribute(k: int, a: int, b: int)
    ensures k * a + k * b == k * (a + b)
  {
  }

  lemma InvBoundsRows(config: Config, s: State)
    requires Inv(config, s)
    ensures RowsOk(config, s.rows, s.clock)
  {
  }

  lemma {:induction false} BudgetIsNonNegative(config: Config, rows: seq<Row>, clock: Time)
    requires RowsOk(config, rows, clock)
    ensures Budget(config, rows) >= 0
  {
    if rows != [] {
      BudgetIsNonNegative(config, rows[..|rows| - 1], clock);
      assert RowOk(config, rows[|rows| - 1], clock);
    }
  }

  /**
   * Bounded work: the outcomes of any such run number at most the attempts its rows had at the start plus
   * the attempt limit for each row inserted on the way.
   */
  lemma BoundedWork(config: Config, states: seq<State>, ops: seq<Op>)
    requires IsWorkRun(config, states, ops)
    ensures var inserted := |states[|ops|].rows| - |states[0].rows|;
            inserted >= 0 && Outcomes(ops, |ops|) <= Budget(config, states[0].rows) + AttemptLimit(config) * inserted
  {
    hide IsWorkStep, AttemptLimit, Budget, Inv;
    WorkSoFar(config, states, ops, |ops|);
    hide IsWorkRun;
    InvBoundsRows(config, states[|ops|]);
    BudgetIsNonNegative(config, states[|ops|].rows, states[|ops|].clock);
  }
}
