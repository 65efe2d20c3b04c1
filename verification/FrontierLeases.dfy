/** Who holds a row and for how long: lease discipline, its limits, and what happens beyond them. */
module FrontierLeases {
  import opened Wrappers
  import opened Frontier
  import opened FrontierSafety

  // ---------- Lease discipline ----------

  /** A lease as its worker remembers it: until when it may report. */
  datatype Lease = Lease(worker: string, id: UrlId)

  type Held = map<Lease, Time>

  /** Workers report, extend and release only rows they remember leasing, no later than the expiry they know. */
  ghost predicate Disciplined(held: Held, op: Op) {
    IsSingleRow(op) ==> Lease(op.worker, op.id) in held && op.now <= held[Lease(op.worker, op.id)]
  }

  /** What workers remember after a step: leases appear on commit, move on extension, go with the outcome. */
  ghost function HeldAfter(config: Config, s: State, held: Held, op: Op): Held
    requires Enabled(config, s, op)
  {
    match op
    case CommitBatch(txn, _) =>
      var claim := s.claims[txn];
      held + map id: UrlId | id in claim.ids :: Lease(claim.worker, id) := claim.now + config.leaseSeconds
    case ExtendLease(id, worker, now) => held[Lease(worker, id) := now + config.leaseSeconds]
    case _ => if IsSingleRow(op) then held - {Lease(op.worker, op.id)} else held
  }

  ghost predicate IsHeld(s: State, lease: Lease, until: Time) {
    && lease.id < |s.rows| && s.rows[lease.id].status.Leased?
    && s.rows[lease.id].leaseOwner == Some(lease.worker) && s.rows[lease.id].leaseExpiresAt == Some(until)
  }

  /** Every remembered lease that has not run out is the lease in the table. */
  ghost predicate HeldOk(s: State, held: Held) {
    forall lease: Lease :: lease in held && s.clock <= held[lease] ==> IsHeld(s, lease, held[lease])
  }

  ghost predicate IsDisciplinedRun(config: Config, states: seq<State>, ops: seq<Op>, helds: seq<Held>) {
    && IsRun(config, states, ops) && |helds| == |states| && helds[0] == map[]
    && forall i {:trigger ops[i]} :: 0 <= i < |ops| ==>
       IsDisciplinedStep(config, states[i], ops[i], helds[i], helds[i + 1])
  }

  ghost predicate IsDisciplinedStep(config: Config, s: State, op: Op, held: Held, held': Held) {
    Disciplined(held, op) && Enabled(config, s, op) && held' == HeldAfter(config, s, held, op)
  }

  lemma StepKeepsHeld(config: Config, s: State, op: Op, held: Held)
    requires Inv(config, s) && HeldOk(s, held) && Enabled(config, s, op) && Disciplined(held, op)
    ensures HeldOk(After(config, s, op), HeldAfter(config, s, held, op))
  {
    var s', held' := After(config, s, op), HeldAfter(config, s, held, op);
    forall lease: Lease | lease in held' && s'.clock <= held'[lease] ensures IsHeld(s', lease, held'[lease]) {
      LeaseSurvives(config, s, op, held, lease);
    }
  }

  lemma LeaseSurvives(config: Config, s: State, op: Op, held: Held, lease: Lease)
    requires Inv(config, s) && HeldOk(s, held) && Enabled(config, s, op) && Disciplined(held, op)
    requires lease in HeldAfter(config, s, held, op) && op.now <= HeldAfter(config, s, held, op)[lease]
    ensures IsHeld(After(config, s, op), lease, HeldAfter(config, s, held, op)[lease])
  {
    if IsSingleRow(op) {
      CallSurvives(config, s, op, held, lease);
    } else if op.CommitBatch? {
      CommitSurvives(config, s, op, held, lease);
    } else {
      hide Inv, UniqueHashes, ClaimsOk, IsBatch, Upserted;
      assert IsHeld(s, lease, held[lease]);
      if op.AddUrls? {
        LeasedRowKept(s.rows, op, lease.id);
      }
    }
  }

  lemma CallSurvives(config: Config, s: State, op: Op, held: Held, lease: Lease)
    requires HeldOk(s, held) && Enabled(config, s, op) && Disciplined(held, op) && IsSingleRow(op)
    requires lease in HeldAfter(config, s, held, op) && op.now <= HeldAfter(config, s, held, op)[lease]
    ensures IsHeld(After(config, s, op), lease, HeldAfter(config, s, held, op)[lease])
  {
    hide OnFailed, Locked;
    assert IsHeld(s, Lease(op.worker, op.id), held[Lease(op.worker, op.id)]);
    if lease != Lease(op.worker, op.id) {
      assert IsHeld(s, lease, held[lease]);
    }
  }

  lemma CommitSurvives(config: Config, s: State, op: Op, held: Held, lease: Lease)
    requires Inv(config, s) && HeldOk(s, held) && Enabled(config, s, op) && op.CommitBatch?
    requires lease in HeldAfter(config, s, held, op) && op.now <= HeldAfter(config, s, held, op)[lease]
    ensures IsHeld(After(config, s, op), lease, HeldAfter(config, s, held, op)[lease])
  {
    hide RowsOk, UniqueHashes;
    assert ClaimOk(s.rows, s.claims[op.txn], s.clock);
    if lease in held && op.now <= held[lease] {
      assert IsHeld(s, lease, held[lease]);
    }
  }

  /** Discovery never touches the status or the lease of a leased row. */
  lemma LeasedRowKept(rows: seq<Row>, op: Op, id: UrlId)
    requires op.AddUrls? && id < |rows| && rows[id].status.Leased?
    ensures var after := Upserted(rows, op.links, op.sourceId, op.requeue, op.job, op.now, op.dbNow);
            id < |after| && after[id] == rows[id].(lastSeenAt := after[id].lastSeenAt)
  {
  }

  lemma {:induction false} HeldOverRuns(config: Config, states: seq<State>, ops: seq<Op>, helds: seq<Held>, n: nat)
    requires IsDisciplinedRun(config, states, ops, helds) && n < |states|
    ensures HeldOk(states[n], helds[n])
  {
    if n > 0 {
      RunStep(config, states, ops, n - 1);
      assert IsDisciplinedStep(config, states[n - 1], ops[n - 1], helds[n - 1], helds[n - 1 + 1]);
      hide IsRun, Inv, HeldOk, Enabled, After, HeldAfter, Disciplined;
      HeldOverRuns(config, states, ops, helds, n - 1);
      InvOverRuns(config, states, ops, n - 1);
      StepKeepsHeld(config, states[n - 1], ops[n - 1], helds[n - 1]);
    }
  }

  /**
   * When workers report, extend and release only before the expiry they know of, every such step, over
   * every interleaving of claimers, reapers, discoverers and requeuers, lands on a row that is still
   * leased to that very worker.
   */
  lemma OutcomesLandOnOwnLease(config: Config, states: seq<State>, ops: seq<Op>, helds: seq<Held>, n: nat)
    requires IsDisciplinedRun(config, states, ops, helds) && n < |ops|
    requires IsSingleRow(ops[n])
    ensures var s, op := states[n], ops[n];
      && op.id < |s.rows| && s.rows[op.id].status.Leased? && s.rows[op.id].leaseOwner == Some(op.worker)
      && s.rows[op.id].leaseExpiresAt.Some? && op.now <= s.rows[op.id].leaseExpiresAt.value
  {
    HeldOverRuns(config, states, ops, helds, n);
    assert IsDisciplinedStep(config, states[n], ops[n], helds[n], helds[n + 1]);
    assert IsHeld(states[n], Lease(ops[n].worker, ops[n].id), helds[n][Lease(ops[n].worker, ops[n].id)]);
  }

  // ---------- How long a lease lasts ----------

  predicate CallsBy(op: Op, worker: string) {
    (IsSingleRow(op) || op.LockBatch?) && op.worker == worker
  }

  ghost predicate WithoutCallsBy(ops: seq<Op>, worker: string) {
    forall i :: 0 <= i < |ops| ==> !CallsBy(ops[i], worker)
  }

  /** What may happen from `s` on, with every worker keeping the discipline. */
  ghost predicate IsContinuation(
    config: Config, s: State, held: Held, states: seq<State>, ops: seq<Op>, helds: seq<Held>)
  {
    && |states| == |ops| + 1 == |helds| && states[0] == s && helds[0] == held
    && forall i {:trigger ops[i]} :: 0 <= i < |ops| ==>
         IsStep(config, states[i], ops[i], states[i + 1])
         && IsDisciplinedStep(config, states[i], ops[i], helds[i], helds[i + 1])
  }

  /** A report of this worker about this row would be applied at once, to its own lease. */
  ghost predicate Lands(s: State, lease: Lease) {
    && lease.id < |s.rows| && s.rows[lease.id].status.Leased?
    && s.rows[lease.id].leaseOwner == Some(lease.worker) && !Locked(s, lease.id)
  }

  /** Whatever the others do up to `now`, a report at `now` still hits the worker's own lease. */
  ghost predicate LandsWhateverOthersDo(config: Config, s: State, held: Held, lease: Lease, now: Time) {
    forall states: seq<State>, ops: seq<Op>, helds: seq<Held> ::
      IsContinuation(config, s, held, states, ops, helds) && WithoutCallsBy(ops, lease.worker)
        && states[|ops|].clock <= now
      ==> Lands(states[|ops|], lease)
  }

  /** With the invariant and the bookkeeping, a remembered live lease is there to be hit. */
  lemma HeldRowLands(config: Config, s: State, held: Held, lease: Lease)
    requires Inv(config, s) && HeldOk(s, held) && lease in held && s.clock <= held[lease]
    ensures IsHeld(s, lease, held[lease]) && Lands(s, lease)
  {
    assert IsHeld(s, lease, held[lease]);
    LeasedRowUnlocked(config, s, lease.id);
  }

  lemma LeasedRowUnlocked(config: Config, s: State, id: UrlId)
    requires Inv(config, s) && id < |s.rows| && s.rows[id].status.Leased?
    ensures !Locked(s, id)
  {
    forall txn: Txn | txn in s.claims ensures id !in s.claims[txn].ids {
      assert ClaimOk(s.rows, s.claims[txn], s.clock);
    }
  }

  /** Up to its expiry a lease stays as its worker remembers it while the worker itself makes no call. */
  lemma {:induction false} LeaseStays(
      config: Config, s: State, held: Held, states: seq<State>, ops: seq<Op>, helds: seq<Held>, n: nat, lease: Lease)
    requires Inv(config, s) && HeldOk(s, held) && lease in held
    requires IsContinuation(config, s, held, states, ops, helds) && WithoutCallsBy(ops, lease.worker)
    requires n < |states| && states[n].clock <= held[lease]
    ensures Inv(config, states[n]) && HeldOk(states[n], helds[n])
    ensures lease in helds[n] && helds[n][lease] == held[lease]
  {
    hide Inv, HeldOk, Enabled, After, HeldAfter, Disciplined;
    if n > 0 {
      var t, op := states[n - 1], ops[n - 1];
      assert IsStep(config, t, op, states[n - 1 + 1])
        && IsDisciplinedStep(config, t, op, helds[n - 1], helds[n - 1 + 1]);
      ClockRuns(config, t, op);
      LeaseStays(config, s, held, states, ops, helds, n - 1, lease);
      StepKeepsInv(config, t, op);
      StepKeepsHeld(config, t, op, helds[n - 1]);
      MemoryStays(config, t, op, helds[n - 1], lease);
    }
  }

  lemma ClockRuns(config: Config, s: State, op: Op)
    requires Enabled(config, s, op)
    ensures s.clock <= op.now == After(config, s, op).clock
  {
  }

  lemma MemoryStays(config: Config, s: State, op: Op, held: Held, lease: Lease)
    requires Inv(config, s) && HeldOk(s, held) && Enabled(config, s, op) && !CallsBy(op, lease.worker)
    requires lease in held && s.clock <= held[lease]
    ensures var held' := HeldAfter(config, s, held, op); lease in held' && held'[lease] == held[lease]
  {
    HeldRowLands(config, s, held, lease);
    if op.CommitBatch? {
      assert lease.id in s.claims[op.txn].ids ==> Locked(s, lease.id);
    }
  }

  lemma FreshTxn(claims: map<Txn, Claim>) returns (txn: Txn)
    ensures txn !in claims
  {
    if txns: Txn :| txns !in claims {
      txn := txns;
    } else {
      NatsAreMany(claims.Keys, |claims.Keys| + 1);
    }
  }

  lemma {:induction false} NatsAreMany(s: set<Txn>, n: nat)
    requires forall k: Txn :: k < n ==> k in s
    ensures n <= |s|
  {
    if n > 0 {
      NatsAreMany(s - {n - 1}, n - 1);
    }
  }

  /** Another worker. */
  function OtherThan(worker: string): (other: string)
    ensures other != worker
  {
    worker + "'"
  }

  /** A worker can claim any due row that nobody has locked. */
  lemma ClaimRow(config: Config, s: State, id: UrlId, worker: string, now: Time) returns (lock: Op, commit: Op)
    requires id < |s.rows| && IsDue(s.rows[id], now) && !Locked(s, id) && s.clock <= now
    ensures lock.LockBatch? && lock.worker == worker && commit == CommitBatch(lock.txn, now) && lock.txn !in s.claims
    ensures Enabled(config, s, lock) && var s1 := After(config, s, lock);
      && Enabled(config, s1, commit) && var s2 := After(config, s1, commit);
      && |s2.rows| == |s1.rows| == |s.rows| && s2.claims == s.claims && s2.clock == s1.clock == now
      && s2.rows[id] == OnLeased(config, s.rows[id], worker, now)
  {
    hide OnLeased, IsDue;
    var filter := Filter(None, None);
    var txn := FreshTxn(s.claims);
    var all := ClaimableSet(s, filter, now);
    assert id in all;
    hide ClaimableSet, Locked;
    lock, commit := LockBatch(txn, worker, filter, |all|, all, now), CommitBatch(txn, now);
    assert After(config, After(config, s, lock), commit).claims == s.claims;
  }

  /**
   * Once a lease has run out, another worker can have the row: the reaper frees it, a claim locks it, the
   * claim commits.
   */
  lemma TakeOver(config: Config, s: State, held: Held, id: UrlId, thief: string, now: Time)
    returns (states: seq<State>, ops: seq<Op>, helds: seq<Held>)
    requires Inv(config, s) && id < |s.rows| && s.rows[id].status.Leased?
    requires s.clock <= now && s.rows[id].leaseExpiresAt.value < now
    ensures IsContinuation(config, s, held, states, ops, helds) && |ops| == 3
    ensures ops[0] == ReapExpired(now) && ops[1].LockBatch? && ops[1].worker == thief && ops[2].CommitBatch?
    ensures forall i :: 0 <= i < 4 ==> |states[i].rows| == |s.rows|
    ensures var last := states[3];
      && last.clock == now && last.rows[id] == OnLeased(config, ReapedRow(s.rows[id], now), thief, now)
      && !Locked(last, id)
  {
    LeasedRowUnlocked(config, s, id);
    ReapedRowIsDue(config, s, now, id);
    var reap := ReapExpired(now);
    var s1 := After(config, s, reap);
    assert s1.claims == s.claims && !Locked(s1, id);
    hide Inv, OnLeased, ReapedRow;
    var lock, commit := ClaimRow(config, s1, id, thief, now);
    hide Enabled, IsDue;
    var s2 := After(config, s1, lock);
    var s3 := After(config, s2, commit);
    assert !Locked(s3, id);
    hide After, Locked;
    states, ops := [s, s1, s2, s3], [reap, lock, commit];
    helds := ThreeSteps(config, held, states, ops);
  }

  /** Steps that are no single-row calls keep the discipline trivially. */
  lemma ThreeSteps(config: Config, held: Held, states: seq<State>, ops: seq<Op>) returns (helds: seq<Held>)
    requires |states| == |ops| + 1 == 4
    requires !IsSingleRow(ops[0]) && IsStep(config, states[0], ops[0], states[1])
    requires !IsSingleRow(ops[1]) && IsStep(config, states[1], ops[1], states[2])
    requires !IsSingleRow(ops[2]) && IsStep(config, states[2], ops[2], states[3])
    ensures IsContinuation(config, states[0], held, states, ops, helds)
  {
    hide After;
    var h1 := HeldAfter(config, states[0], held, ops[0]);
    var h2 := HeldAfter(config, states[1], h1, ops[1]);
    var h3 := HeldAfter(config, states[2], h2, ops[2]);
    hide Enabled, HeldAfter;
    helds := [held, h1, h2, h3];
  }

  /**
   * A lease lasts exactly until its expiry. At any point of any disciplined run where a worker holds a live
   * lease, its report at `now` is sure to hit its own lease if and only if `now` is not past the expiry.
   */
  lemma LeaseLastsUntilExpiry(
      config: Config, states: seq<State>, ops: seq<Op>, helds: seq<Held>, n: nat, lease: Lease, now: Time)
    requires IsDisciplinedRun(config, states, ops, helds) && n < |states|
    requires lease in helds[n] && states[n].clock <= helds[n][lease] && states[n].clock <= now
    ensures LandsWhateverOthersDo(config, states[n], helds[n], lease, now) <==> now <= helds[n][lease]
  {
    hide Inv, HeldOk, Enabled, After, HeldAfter, Disciplined;
    var s, held := states[n], helds[n];
    InvOverRuns(config, states, ops, n);
    HeldOverRuns(config, states, ops, helds, n);
    HeldRowLands(config, s, held, lease);
    if now <= held[lease] {
      forall states': seq<State>, ops': seq<Op>, helds': seq<Held> |
        IsContinuation(config, s, held, states', ops', helds')
        && WithoutCallsBy(ops', lease.worker) && states'[|ops'|].clock <= now
        ensures Lands(states'[|ops'|], lease)
      {
        LeaseStays(config, s, held, states', ops', helds', |ops'|, lease);
        HeldRowLands(config, states'[|ops'|], helds'[|ops'|], lease);
      }
    } else {
      var states', ops', helds' := TakeOver(config, s, held, lease.id, OtherThan(lease.worker), now);
      assert WithoutCallsBy(ops', lease.worker);
      assert !Lands(states'[|ops'|], lease);
    }
  }

  /**
   * Past the expiry the table does not protect the new lease: from any state of any run, with a row whose
   * lease has run out, the row can pass to another worker and then be freed, under that worker's live
   * lease, by the late report of the first.
   */
  lemma LateReportTakesLease(config: Config, s: State, id: UrlId, now: Time)
    returns (states: seq<State>, ops: seq<Op>, owner: string)
    requires Inv(config, s) && id < |s.rows| && s.rows[id].status.Leased?
    requires s.clock <= now && s.rows[id].leaseExpiresAt.value < now
    ensures IsPath(config, states, ops) && |ops| == 4 && states[0] == s
    ensures ops[3] == MarkSuccess(id, s.rows[id].leaseOwner.value, None, now) && owner != s.rows[id].leaseOwner.value
    ensures forall i :: 0 <= i < 5 ==> |states[i].rows| == |s.rows|
    ensures ops[1].LockBatch? && ops[1].worker == owner
    ensures states[3].rows[id].leaseOwner == Some(owner)
      && states[3].rows[id].leaseExpiresAt == Some(now + config.leaseSeconds)
    ensures states[4].rows[id].status.Success? && states[4].rows[id].leaseOwner.None?
  {
    var late := s.rows[id].leaseOwner.value;
    owner := OtherThan(late);
    var helds;
    states, ops, helds := TakeOver(config, s, map[], id, owner, now);
    var report := MarkSuccess(id, late, None, now);
    hide Inv, Enabled, After;
    var s4 := ReportFrees(config, states[3], report);
    var last := [states[3], s4];
    assert states + [s4] == states + last[1..];
    PathJoins(config, states, ops, last, [report]);
    states, ops := states + [s4], ops + [report];
  }

  lemma ReportFrees(config: Config, s: State, report: Op) returns (s': State)
    requires report.MarkSuccess? && report.id < |s.rows| && !Locked(s, report.id) && s.clock <= report.now
    ensures IsPath(config, [s, s'], [report]) && |s'.rows| == |s.rows|
    ensures s'.rows[report.id].status.Success? && s'.rows[report.id].leaseOwner.None?
  {
    s' := After(config, s, report);
    assert IsStep(config, s, report, s');
  }

  /** Such a run from the empty table: discover, claim, expire, reap, claim again, report late. */
  lemma LateReportRun(config: Config, worker: string) returns (states: seq<State>, ops: seq<Op>)
    ensures |ops| == 7 && IsRun(config, states, ops)
    ensures ops[1].LockBatch? && ops[1].worker == worker && ops[4].LockBatch? && ops[4].worker != worker
    ensures ops[6].MarkSuccess? && ops[6].id == 0 && ops[6].worker == worker
    ensures |states[6].rows| == 1 == |states[7].rows|
    ensures states[3].rows != [] && states[3].rows[0].leaseOwner == Some(worker)
    ensures states[6].rows[0].leaseOwner == Some(ops[4].worker)
      && states[6].rows[0].leaseExpiresAt == Some(ops[6].now + config.leaseSeconds)
    ensures states[7].rows[0].leaseOwner.None?
  {
    var first, firstOps := FirstLease(config, worker);
    var later := (if config.leaseSeconds < 0.0 then 0.0 else config.leaseSeconds) + 1.0;
    hide Inv, Enabled, After;
    var rest, restOps, owner := LateReportTakesLease(config, first[3], 0, later);
    states, ops := first + rest[1..], firstOps + restOps;
    PathJoins(config, first, firstOps, rest, restOps);
  }

  /** One URL is discovered and claimed. */
  lemma FirstLease(config: Config, worker: string) returns (states: seq<State>, ops: seq<Op>)
    ensures IsRun(config, states, ops) && |ops| == 3 && ops[1].LockBatch? && ops[1].worker == worker
    ensures Inv(config, states[3]) && states[3].clock == 0.0 && |states[3].rows| == 1
    ensures var row := states[3].rows[0];
      row.status.Leased? && row.leaseOwner == Some(worker) && row.leaseExpiresAt == Some(config.leaseSeconds)
  {
    var s0 := State([], map[], 0.0);
    var discover := Discovery("h", 0.0);
    OneRow(config, s0, discover, "h");
    var s1 := After(config, s0, discover);
    StepKeepsInv(config, s0, discover);
    var lock, commit := ClaimRow(config, s1, 0, worker, 0.0);
    var s2 := After(config, s1, lock);
    StepKeepsInv(config, s1, lock);
    var s3 := After(config, s2, commit);
    StepKeepsInv(config, s2, commit);
    hide Inv, Enabled, After;
    assert IsStep(config, s0, discover, s1) && IsStep(config, s1, lock, s2) && IsStep(config, s2, commit, s3);
    hide IsStep;
    states, ops := [s0, s1, s2, s3], [discover, lock, commit];
  }

  // ---------- One lease at a time ----------

  /** The steps that end the lease of a row: a report, a release by its owner, or the reaper after the expiry. */
  ghost predicate EndsLease(s: State, op: Op, id: UrlId) {
    && id < |s.rows|
    && (|| (IsOutcome(op) && op.id == id)
        || (op.Release? && op.id == id && s.rows[id].leaseOwner == Some(op.worker))
        || (op.ReapExpired? && s.rows[id].leaseExpiresAt.Some? && s.rows[id].leaseExpiresAt.value < op.now))
  }

  ghost predicate IsLeasedTo(s: State, id: UrlId, owner: string) {
    id < |s.rows| && s.rows[id].status.Leased? && s.rows[id].leaseOwner == Some(owner)
  }

  lemma LeaseGoesOn(config: Config, s: State, op: Op, id: UrlId, owner: string)
    requires Inv(config, s) && Enabled(config, s, op) && IsLeasedTo(s, id, owner) && !EndsLease(s, op, id)
    ensures IsLeasedTo(After(config, s, op), id, owner)
  {
    LeasedRowUnlocked(config, s, id);
    hide RowsOk, UniqueHashes, ClaimsOk, IsBatch, OnFailed;
    if op.AddUrls? {
      LeasedRowKept(s.rows, op, id);
    }
  }

  lemma {:induction false} LeaseUnbroken(
      config: Config, states: seq<State>, ops: seq<Op>, i: nat, n: nat, id: UrlId, owner: string)
    requires IsRun(config, states, ops) && i <= n < |states|
    requires IsLeasedTo(states[i], id, owner)
    requires forall k {:trigger ops[k]} :: i <= k < n ==> k < |ops| && !EndsLease(states[k], ops[k], id)
    ensures IsLeasedTo(states[n], id, owner)
  {
    if i < n {
      hide IsRun, Inv, Enabled, After, EndsLease, IsLeasedTo;
      RunStep(config, states, ops, n - 1);
      LeaseUnbroken(config, states, ops, i, n - 1, id, owner);
      InvOverRuns(config, states, ops, n - 1);
      LeaseGoesOn(config, states[n - 1], ops[n - 1], id, owner);
    }
  }

  /**
   * No row is ever leased twice at once: in every run, late reports included, between two claims that
   * lease the same row its first lease was ended by a report, by its owner's release, or by the reaper
   * after it had run out.
   */
  lemma OneLeaseAtATime(config: Config, states: seq<State>, ops: seq<Op>, i: nat, j: nat, id: UrlId)
    requires IsRun(config, states, ops) && i < j < |ops|
    requires ops[i].CommitBatch? && ops[i].txn in states[i].claims && id in states[i].claims[ops[i].txn].ids
    requires ops[j].CommitBatch? && ops[j].txn in states[j].claims && id in states[j].claims[ops[j].txn].ids
    ensures exists k :: i < k < j && EndsLease(states[k], ops[k], id)
  {
    hide Enabled, After, EndsLease;
    InvOverRuns(config, states, ops, i);
    InvOverRuns(config, states, ops, j);
    RunStep(config, states, ops, i);
    RunStep(config, states, ops, j);
    assert ClaimOk(states[i].rows, states[i].claims[ops[i].txn], states[i].clock);
    assert ClaimOk(states[j].rows, states[j].claims[ops[j].txn], states[j].clock);
    hide Inv;
    CommitLeasesFreeRows(config, states[i], ops[i].txn, ops[i].now, id);
    var owner := states[i].claims[ops[i].txn].worker;
    assert IsLeasedTo(states[i + 1], id, owner);
    if forall k :: i < k < j ==> !EndsLease(states[k], ops[k], id) {
      LeaseUnbroken(config, states, ops, i + 1, j, id, owner);
      CommitLeasesFreeRows(config, states[j], ops[j].txn, ops[j].now, id);
      assert false;
    }
  }
}
