/** Conservation and the retry bound, over every interleaving of the commands. */
module QueueSafety {
  import opened Wrappers
  import opened Queue

  /** The places a job can be in. */
  datatype Place =
    | Undelivered(id: EntryId) | Pending(id: EntryId) | Done(id: EntryId)
    | Delayed(envelope: EnvelopeId) | DeadLettered(index: nat) | InTransit(worker: Worker)

  function JobAt(s: State, p: Place): Option<JobId> {
    match p
    case Undelivered(id) => if id in s.undelivered && id < |s.entries| then Some(s.entries[id].job) else None
    case Pending(id) => if id in s.pending && id < |s.entries| then Some(s.entries[id].job) else None
    case Done(id) => if id in s.done && id < |s.entries| then Some(s.entries[id].job) else None
    case Delayed(k) => if k in s.delayed then Some(s.delayed[k].job) else None
    case DeadLettered(i) => if i < |s.dead| then Some(s.dead[i].job) else None
    case InTransit(w) =>
      var phase := PhaseOf(s, w);
      if phase.Retrying? && phase.id < |s.entries| then Some(s.entries[phase.id].job)
      else if phase.Publishing? then Some(phase.envelope.job)
      else None
  }

  /** Each published job is in exactly one place, and nothing else is anywhere. */
  ghost predicate Conserved(s: State) {
    && (forall j: JobId :: j in s.history.published <==> IsSomewhere(s, j))
    && (forall p: Place, q: Place :: JobAt(s, p).Some? && JobAt(s, p) == JobAt(s, q) ==> p == q)
  }

  ghost predicate IsSomewhere(s: State, j: JobId) {
    exists p: Place :: JobAt(s, p) == Some(j)
  }

  /** Bookkeeping that makes conservation inductive. */
  ghost predicate WellFormed(s: State) {
    && EntriesOk(s) && InboxOk(s)
    && (forall w: Worker :: PhaseOf(s, w).Retrying? ==> PhaseOf(s, w).id < |s.entries|)
    && (forall k: EnvelopeId :: k in s.delayed ==> k < s.issued)
  }

  /** An entry is undelivered, pending or done, and only one of these. */
  ghost predicate EntriesOk(s: State) {
    && (forall id: EntryId :: id in s.undelivered || id in s.pending || id in s.done ==> id < |s.entries|)
    && (forall id: EntryId :: id in s.undelivered ==> id !in s.pending && id !in s.done)
    && (forall id: EntryId :: id in s.pending ==> id !in s.done)
  }

  lemma StepKeepsEntries(config: Config, s: State, op: Op)
    requires WellFormed(s) && Enabled(config, s, op)
    ensures EntriesOk(After(config, s, op))
  {
    hide CountDelivery, RetryWait, Take, Drop;
  }

  /** A live worker has one copy of a message that is pending with it. */
  ghost predicate InboxOk(s: State) {
    forall m: Message :: m in s.inbox ==>
      m.id in s.pending && s.pending[m.id] == m.worker && m.worker !in s.stopped && s.inbox[m] == 1
  }

  lemma StepKeepsInbox(config: Config, s: State, op: Op)
    requires WellFormed(s) && Enabled(config, s, op)
    ensures InboxOk(After(config, s, op))
  {
    hide CountDelivery, RetryWait;
  }

  lemma StepKeepsWellFormed(config: Config, s: State, op: Op)
    requires WellFormed(s) && Enabled(config, s, op)
    ensures WellFormed(After(config, s, op))
  {
    StepKeepsEntries(config, s, op);
    StepKeepsInbox(config, s, op);
    var s' := After(config, s, op);
    forall w: Worker | PhaseOf(s', w).Retrying? ensures PhaseOf(s', w).id < |s'.entries| {
      RetryKnowsEntry(config, s, op, w);
    }
    hide EntriesOk, InboxOk, Take, Drop, CountDelivery, RetryWait, PhaseOf;
  }

  lemma RetryKnowsEntry(config: Config, s: State, op: Op, w: Worker)
    requires WellFormed(s) && Enabled(config, s, op) && PhaseOf(After(config, s, op), w).Retrying?
    ensures PhaseOf(After(config, s, op), w).id < |After(config, s, op).entries|
  {
    hide InboxOk, Take, Drop, CountDelivery, RetryWait;
    assert PhaseOf(s, w) == PhaseOf(After(config, s, op), w) || op.RetryAck?;
  }

  /** The step took `job` from one place to another and changed no other place. */
  ghost predicate Moved(s: State, s': State, from: Place, to: Place) {
    && s'.history.published == s.history.published
    && JobAt(s, from).Some? && (to == from || JobAt(s, to).None?)
    && forall p: Place :: JobAt(s', p) == if p == to then JobAt(s, from) else if p == from then None else JobAt(s, p)
  }

  lemma MoveConserves(s: State, s': State, from: Place, to: Place)
    requires Conserved(s) && Moved(s, s', from, to)
    ensures Conserved(s')
  {
    hide JobAt;
    forall j: JobId ensures IsSomewhere(s, j) <==> IsSomewhere(s', j) {
      if p: Place :| JobAt(s, p) == Some(j) {
        assert JobAt(s', if p == from then to else p) == Some(j);
      }
      if q: Place :| JobAt(s', q) == Some(j) {
        assert JobAt(s, if q == to then from else q) == Some(j);
      }
    }
  }

  /** Which move a step makes, if any. */
  function Source(s: State, op: Op): Option<Place> {
    match op
    case Deliver(_, id) => Some(Undelivered(id))
    case ClaimStale(_, id) => Some(Pending(id))
    case Ack(_, id) => Some(Pending(id))
    case RetryAck(_, id, _) => Some(Pending(id))
    case RetryDelay(w) => Some(InTransit(w))
    case RetryDeadLetter(w) => Some(InTransit(w))
    case PumpRemove(w) =>
      var phase := PhaseOf(s, w);
      if phase.Pumping? && phase.due != [] && phase.due[0] in s.delayed then Some(Delayed(phase.due[0])) else None
    case PumpPublish(w) => Some(InTransit(w))
    case _ => None
  }

  function Target(s: State, op: Op): Place {
    match op
    case Deliver(_, id) => Pending(id)
    case ClaimStale(_, id) => Pending(id)
    case Ack(_, id) => Done(id)
    case RetryAck(w, _, _) => InTransit(w)
    case RetryDelay(_) => Delayed(s.issued)
    case RetryDeadLetter(_) => DeadLettered(|s.dead|)
    case PumpRemove(w) => InTransit(w)
    case _ => Undelivered(|s.entries|)
  }

  /** Every command is a move of one job, a no-op on places, or the publication of a new job. */
  lemma StepMoves(config: Config, s: State, op: Op)
    requires WellFormed(s) && Enabled(config, s, op)
    ensures Source(s, op).Some? ==> Moved(s, After(config, s, op), Source(s, op).value, Target(s, op))
    ensures Source(s, op).None? && !op.Publish? ==>
      After(config, s, op).history.published == s.history.published
        && forall p: Place :: JobAt(After(config, s, op), p) == JobAt(s, p)
  {
    var s' := After(config, s, op);
    if Source(s, op).Some? {
      var from, to := Source(s, op).value, Target(s, op);
      forall p: Place
        ensures JobAt(s', p) == if p == to then JobAt(s, from) else if p == from then None else JobAt(s, p)
      {
        PlaceAfter(config, s, op, p);
      }
    } else if !op.Publish? {
      forall p: Place ensures JobAt(s', p) == JobAt(s, p) {
        PlaceAfter(config, s, op, p);
      }
    }
  }

  function JobAfter(s: State, op: Op, p: Place): Option<JobId> {
    var from, to := Source(s, op), Target(s, op);
    if from.None? then JobAt(s, p)
    else if p == to then JobAt(s, from.value)
    else if p == from.value then None
    else JobAt(s, p)
  }

  lemma PlaceAfter(config: Config, s: State, op: Op, p: Place)
    requires WellFormed(s) && Enabled(config, s, op) && !op.Publish?
    ensures JobAt(After(config, s, op), p) == JobAfter(s, op, p)
  {
    match p
    case Undelivered(_) => UndeliveredAfter(config, s, op, p);
    case Pending(_) => PendingAfter(config, s, op, p);
    case Done(_) => DoneAfter(config, s, op, p);
    case InTransit(_) => InTransitAfter(config, s, op, p);
    case Delayed(_) => DelayedAfter(config, s, op, p);
    case DeadLettered(_) => DeadLetteredAfter(config, s, op, p);
  }

  lemma UndeliveredAfter(config: Config, s: State, op: Op, p: Place)
    requires WellFormed(s) && Enabled(config, s, op) && !op.Publish? && p.Undelivered?
    ensures JobAt(After(config, s, op), p) == JobAfter(s, op, p)
  {
    hide CountDelivery, RetryWait;
  }

  lemma PendingAfter(config: Config, s: State, op: Op, p: Place)
    requires WellFormed(s) && Enabled(config, s, op) && !op.Publish? && p.Pending?
    ensures JobAt(After(config, s, op), p) == JobAfter(s, op, p)
  {
    hide CountDelivery, RetryWait;
  }

  lemma DoneAfter(config: Config, s: State, op: Op, p: Place)
    requires WellFormed(s) && Enabled(config, s, op) && !op.Publish? && p.Done?
    ensures JobAt(After(config, s, op), p) == JobAfter(s, op, p)
  {
    hide CountDelivery, RetryWait;
  }

  lemma DelayedAfter(config: Config, s: State, op: Op, p: Place)
    requires WellFormed(s) && Enabled(config, s, op) && !op.Publish? && p.Delayed?
    ensures JobAt(After(config, s, op), p) == JobAfter(s, op, p)
  {
    hide CountDelivery, RetryWait;
  }

  lemma DeadLetteredAfter(config: Config, s: State, op: Op, p: Place)
    requires WellFormed(s) && Enabled(config, s, op) && !op.Publish? && p.DeadLettered?
    ensures JobAt(After(config, s, op), p) == JobAfter(s, op, p)
  {
    hide CountDelivery, RetryWait;
  }

  lemma InTransitAfter(config: Config, s: State, op: Op, p: Place)
    requires WellFormed(s) && Enabled(config, s, op) && !op.Publish? && p.InTransit?
    ensures JobAt(After(config, s, op), p) == JobAfter(s, op, p)
  {
    hide CountDelivery, RetryWait;
    PhaseKept(config, s, op, p.worker);
  }

  lemma StepConserves(config: Config, s: State, op: Op)
    requires WellFormed(s) && Conserved(s) && Enabled(config, s, op)
    ensures Conserved(After(config, s, op))
  {
    var s' := After(config, s, op);
    if op.Publish? {
      PublishConserves(config, s, op);
    } else {
      StepMoves(config, s, op);
      hide JobAt, After, WellFormed, Enabled;
      if Source(s, op).Some? {
        MoveConserves(s, s', Source(s, op).value, Target(s, op));
      } else {
        forall j: JobId ensures IsSomewhere(s, j) <==> IsSomewhere(s', j) {
        }
      }
    }
  }

  lemma PublishConserves(config: Config, s: State, op: Op)
    requires WellFormed(s) && Conserved(s) && op.Publish? && Enabled(config, s, op)
    ensures Conserved(After(config, s, op))
  {
    var s', added := After(config, s, op), Undelivered(|s.entries|);
    forall p: Place ensures JobAt(s', p) == if p == added then Some(op.job) else JobAt(s, p) {
    }
    assert JobAt(s, added).None?;
    hide JobAt;
    forall j: JobId ensures IsSomewhere(s', j) <==> j == op.job || IsSomewhere(s, j) {
      if p: Place :| JobAt(s, p) == Some(j) {
        assert JobAt(s', p) == Some(j);
      }
    }
  }

  // ---------- Envelopes are republished at most once ----------

  /** An envelope id is either waiting, in one worker's hand, or spent on at most one entry. */
  ghost predicate EnvelopesOk(s: State) {
    && SpentOk(s)
    && (forall w: Worker :: PhaseOk(s, w))
    && (forall v: Worker, w: Worker :: PhaseOf(s, v).Publishing? && PhaseOf(s, w).Publishing? && v != w ==>
          PhaseOf(s, v).envelopeId != PhaseOf(s, w).envelopeId)
  }

  ghost predicate SpentOk(s: State) {
    && (forall i: EntryId :: i < |s.entries| && s.entries[i].from.Some? ==>
          s.entries[i].from.value < s.issued && s.entries[i].from.value !in s.delayed)
    && (forall i: EntryId, j: EntryId :: i < j < |s.entries| && s.entries[i].from.Some? ==>
         s.entries[i].from != s.entries[j].from)
  }

  /** An envelope in hand is due, gone from the delayed set and not yet spent; scanned ones still waiting are due. */
  ghost predicate PhaseOk(s: State, w: Worker) {
    match PhaseOf(s, w)
    case Publishing(k, envelope, rest) =>
      && k < s.issued && k !in s.delayed && envelope.due <= s.clock && ListOk(s, rest)
      && forall i: EntryId :: i < |s.entries| ==> s.entries[i].from != Some(k)
    case Pumping(due) => ListOk(s, due)
    case _ => true
  }

  ghost predicate ListOk(s: State, due: seq<EnvelopeId>) {
    forall i :: 0 <= i < |due| ==> due[i] < s.issued && (due[i] in s.delayed ==> s.delayed[due[i]].due <= s.clock)
  }

  lemma StepKeepsEnvelopes(config: Config, s: State, op: Op)
    requires WellFormed(s) && EnvelopesOk(s) && Enabled(config, s, op)
    ensures EnvelopesOk(After(config, s, op))
  {
    var s' := After(config, s, op);
    SpentStaySpent(config, s, op);
    forall w: Worker ensures PhaseOk(s', w) {
      PhaseStaysOk(config, s, op, w);
    }
    forall v: Worker, w: Worker | PhaseOf(s', v).Publishing? && PhaseOf(s', w).Publishing? && v != w
      ensures PhaseOf(s', v).envelopeId != PhaseOf(s', w).envelopeId
    {
      HandsStayApart(config, s, op, v, w);
    }
  }

  lemma SpentStaySpent(config: Config, s: State, op: Op)
    requires WellFormed(s) && EnvelopesOk(s) && Enabled(config, s, op)
    ensures SpentOk(After(config, s, op))
  {
    if op.PumpPublish? {
      assert PhaseOk(s, op.worker);
    }
  }

  lemma PhaseStaysOk(config: Config, s: State, op: Op, w: Worker)
    requires WellFormed(s) && EnvelopesOk(s) && Enabled(config, s, op)
    ensures PhaseOk(After(config, s, op), w)
  {
    if op.Publish? || op.Tick? || op.worker != w {
      OthersPhaseOk(config, s, op, w);
    } else {
      OwnPhaseOk(config, s, op);
    }
  }

  lemma OthersPhaseOk(config: Config, s: State, op: Op, w: Worker)
    requires WellFormed(s) && EnvelopesOk(s) && Enabled(config, s, op) && (op.Publish? || op.Tick? || op.worker != w)
    ensures PhaseOk(After(config, s, op), w)
  {
    PhaseKept(config, s, op, w);
    assert PhaseOk(s, w);
    if op.PumpPublish? && PhaseOf(s, w).Publishing? {
      assert PhaseOf(s, w).envelopeId != PhaseOf(s, op.worker).envelopeId;
    }
  }

  lemma OwnPhaseOk(config: Config, s: State, op: Op)
    requires WellFormed(s) && EnvelopesOk(s) && Enabled(config, s, op) && !op.Publish? && !op.Tick?
    ensures PhaseOk(After(config, s, op), op.worker)
  {
    assert PhaseOk(s, op.worker);
  }

  lemma HandsStayApart(config: Config, s: State, op: Op, v: Worker, w: Worker)
    requires WellFormed(s) && EnvelopesOk(s) && Enabled(config, s, op) && v != w
    requires PhaseOf(After(config, s, op), v).Publishing? && PhaseOf(After(config, s, op), w).Publishing?
    ensures PhaseOf(After(config, s, op), v).envelopeId != PhaseOf(After(config, s, op), w).envelopeId
  {
    PhaseKept(config, s, op, v);
    PhaseKept(config, s, op, w);
    assert PhaseOk(s, v) && PhaseOk(s, w);
  }

  /** A step changes the phase of nobody but the worker that takes it. */
  lemma PhaseKept(config: Config, s: State, op: Op, w: Worker)
    requires Enabled(config, s, op)
    ensures op.Publish? || op.Tick? || op.worker != w ==> PhaseOf(After(config, s, op), w) == PhaseOf(s, w)
  {
  }

  // ---------- Runs ----------

  ghost predicate IsRun(config: Config, states: seq<State>, ops: seq<Op>) {
    IsPath(config, states, ops) && states[0] == EMPTY
  }

  lemma RunStep(config: Config, states: seq<State>, ops: seq<Op>, n: nat)
    requires IsRun(config, states, ops) && n + 1 < |states|
    ensures n < |ops| && IsStep(config, states[n], ops[n], states[n + 1])
  {
  }

  /** Conservation, single ownership and single republication hold in every reachable state. */
  lemma {:induction false} ConservationOverRuns(config: Config, states: seq<State>, ops: seq<Op>, n: nat)
    requires IsRun(config, states, ops) && n < |states|
    ensures WellFormed(states[n]) && Conserved(states[n]) && EnvelopesOk(states[n])
  {
    hide WellFormed, Conserved, EnvelopesOk, Enabled, After;
    if n == 0 {
      EmptyIsGood();
    } else {
      ConservationOverRuns(config, states, ops, n - 1);
      assert IsStep(config, states[n - 1], ops[n - 1], states[n - 1 + 1]);
      StepKeepsWellFormed(config, states[n - 1], ops[n - 1]);
      StepConserves(config, states[n - 1], ops[n - 1]);
      StepKeepsEnvelopes(config, states[n - 1], ops[n - 1]);
    }
  }

  lemma EmptyIsGood()
    ensures WellFormed(EMPTY) && Conserved(EMPTY) && EnvelopesOk(EMPTY)
  {
    assert forall p: Place :: JobAt(EMPTY, p).None?;
  }

  /** No delayed envelope is republished twice, and none before it is due. */
  lemma RepublishedOnce(config: Config, states: seq<State>, ops: seq<Op>, n: nat, i: EntryId, j: EntryId)
    requires IsRun(config, states, ops) && n < |states| && i < j < |states[n].entries|
    ensures states[n].entries[i].from.Some? ==> states[n].entries[i].from != states[n].entries[j].from
    ensures n < |ops| && ops[n].PumpPublish? ==>
      PhaseOf(states[n], ops[n].worker).Publishing? && PhaseOf(states[n], ops[n].worker).envelope.due <= states[n].clock
  {
    hide Conserved;
    ConservationOverRuns(config, states, ops, n);
    if n < |ops| {
      assert IsStep(config, states[n], ops[n], states[n + 1]);
      if ops[n].PumpPublish? {
        assert PhaseOk(states[n], ops[n].worker);
      }
    }
  }

  // ---------- Retries wait ----------

  /** The step put this envelope into the delayed set: the next attempt, due after the delay of the failed one. */
  ghost predicate Issues(config: Config, s: State, op: Op, k: EnvelopeId, envelope: Envelope) {
    && op.RetryDelay? && s.issued == k
    && var failed := PhaseOf(s, op.worker);
    && failed.Retrying? && failed.id < |s.entries|
    && envelope.stream == s.entries[failed.id].stream && envelope.job == s.entries[failed.id].job
    && envelope.attempt == failed.attempt + 1
    && envelope.due == s.clock + RetryWait(config, failed.attempt)
  }

  /** The envelope waits, or is in a worker's hand. */
  ghost predicate IsKept(s: State, k: EnvelopeId, envelope: Envelope) {
    (k in s.delayed && s.delayed[k] == envelope) || InHand(s, k, envelope)
  }

  ghost predicate InHand(s: State, k: EnvelopeId, envelope: Envelope) {
    exists w: Worker :: PhaseOf(s, w).Publishing? && PhaseOf(s, w).envelopeId == k && PhaseOf(s, w).envelope == envelope
  }

  lemma KeptOrIssued(config: Config, s: State, op: Op, k: EnvelopeId, envelope: Envelope)
    requires Enabled(config, s, op) && IsKept(After(config, s, op), k, envelope)
    ensures IsKept(s, k, envelope) || Issues(config, s, op, k, envelope)
  {
    if InHand(After(config, s, op), k, envelope) {
      HandWasKept(config, s, op, k, envelope);
    } else {
      DelayedWasIssued(config, s, op, k, envelope);
    }
  }

  lemma HandWasKept(config: Config, s: State, op: Op, k: EnvelopeId, envelope: Envelope)
    requires Enabled(config, s, op) && InHand(After(config, s, op), k, envelope)
    ensures IsKept(s, k, envelope)
  {
    hide Take, Drop, CountDelivery, RetryWait;
    var s' := After(config, s, op);
    var w: Worker :|
      PhaseOf(s', w).Publishing? && PhaseOf(s', w).envelopeId == k && PhaseOf(s', w).envelope == envelope;
    PhaseKept(config, s, op, w);
    if op != PumpRemove(w) {
      assert PhaseOf(s, w) == PhaseOf(s', w);
      assert InHand(s, k, envelope);
    }
  }

  /** The delay is linear in the attempt that failed. */
  lemma WaitIsLinear(config: Config, attempt: int)
    ensures RetryWait(config, attempt) == config.retryDelaySeconds * attempt as real
    ensures RetryWait(config, attempt + 1) == RetryWait(config, attempt) + config.retryDelaySeconds
  {
  }

  lemma DelayedWasIssued(config: Config, s: State, op: Op, k: EnvelopeId, envelope: Envelope)
    requires Enabled(config, s, op)
    requires k in After(config, s, op).delayed && After(config, s, op).delayed[k] == envelope
    ensures IsKept(s, k, envelope) || Issues(config, s, op, k, envelope)
  {
    hide Take, Drop, CountDelivery, RetryWait;
    if op.RetryDelay? && k == s.issued {
      var phase := PhaseOf(s, op.worker);
      assert phase == Retrying(phase.id, phase.attempt);
      assert Issues(config, s, op, k, envelope);
    } else {
      assert k in s.delayed && s.delayed[k] == envelope;
    }
  }

  lemma NothingKept(config: Config, states: seq<State>, ops: seq<Op>, k: EnvelopeId, envelope: Envelope)
    requires IsRun(config, states, ops)
    ensures |states| > 0 && !IsKept(states[0], k, envelope)
  {
  }

  lemma {:induction false} EnvelopeOrigin(
      config: Config, states: seq<State>, ops: seq<Op>, n: nat, k: EnvelopeId, envelope: Envelope)
    requires IsRun(config, states, ops) && n < |states| && IsKept(states[n], k, envelope)
    ensures exists i: nat :: i < n && i < |ops| && Issues(config, states[i], ops[i], k, envelope)
  {
    hide IsRun, Issues, IsKept, After, Enabled;
    NothingKept(config, states, ops, k, envelope);
    if n > 0 {
      RunStep(config, states, ops, n - 1);
      KeptOrIssued(config, states[n - 1], ops[n - 1], k, envelope);
      if IsKept(states[n - 1], k, envelope) {
        EnvelopeOrigin(config, states, ops, n - 1, k, envelope);
      }
    }
  }

  /**
   * From `s` to `t` at least the delay of the failed attempt passed, and the step from `t` to `t'` publishes
   * the next attempt of the job whose retry was scheduled at `s`, on the same stream.
   */
  ghost predicate IsRetryOf(config: Config, s: State, op: Op, t: State, t': State) {
    && op.RetryDelay?
    && var failed := PhaseOf(s, op.worker);
    && failed.Retrying? && failed.id < |s.entries|
    && t.clock >= s.clock + RetryWait(config, failed.attempt)
    && var job := s.entries[failed.id];
    t'.entries == t.entries + [Entry(job.stream, job.job, failed.attempt + 1, Some(s.issued))]
  }

  lemma PublishFromHand(config: Config, s: State, op: Op, t: State, publish: Op)
    requires EnvelopesOk(t) && publish.PumpPublish? && Enabled(config, t, publish)
    requires var phase := PhaseOf(t, publish.worker); Issues(config, s, op, phase.envelopeId, phase.envelope)
    ensures IsRetryOf(config, s, op, t, After(config, t, publish))
  {
    hide RetryWait, Take, Drop;
    assert PhaseOk(t, publish.worker);
    hide EnvelopesOk;
  }

  /** In every run, a retry is republished only after the delay of the attempt that failed. */
  lemma RetryWaitsOut(config: Config, states: seq<State>, ops: seq<Op>, n: nat)
    requires IsRun(config, states, ops) && n < |ops| < |states| && ops[n].PumpPublish?
    ensures exists i: nat :: i < n && IsRetryOf(config, states[i], ops[i], states[n], states[n + 1])
  {
    hide Conserved, WellFormed, EnvelopesOk, After, Issues, IsRetryOf;
    assert IsStep(config, states[n], ops[n], states[n + 1]);
    ConservationOverRuns(config, states, ops, n);
    var phase := PhaseOf(states[n], ops[n].worker);
    EnvelopeOrigin(config, states, ops, n, phase.envelopeId, phase.envelope);
    var i: nat :| i < n && i < |ops| && Issues(config, states[i], ops[i], phase.envelopeId, phase.envelope);
    PublishFromHand(config, states[i], ops[i], states[n], ops[n]);
  }

  // ---------- Which claims conserve ----------

  /** The effect of a claim, whoever the message is taken from. */
  function Claimed(s: State, thief: Worker, id: EntryId): State {
    s.(pending := s.pending[id := thief], inbox := Take(s.inbox, Message(thief, id)))
  }

  lemma {:induction false} PathConserves(config: Config, states: seq<State>, ops: seq<Op>, n: nat)
    requires IsPath(config, states, ops) && n < |states| && WellFormed(states[0]) && Conserved(states[0])
    ensures WellFormed(states[n]) && Conserved(states[n])
  {
    hide WellFormed, Conserved, Enabled, After;
    if n > 0 {
      PathConserves(config, states, ops, n - 1);
      assert IsStep(config, states[n - 1], ops[n - 1], states[n - 1 + 1]);
      StepKeepsWellFormed(config, states[n - 1], ops[n - 1]);
      StepConserves(config, states[n - 1], ops[n - 1]);
    }
  }

  /** Two live workers have the same message, and the second is idle. */
  ghost predicate BothHold(s: State, slow: Worker, thief: Worker, id: EntryId) {
    && slow != thief && slow !in s.stopped && Free(s, thief)
    && Message(slow, id) in s.inbox && Message(thief, id) in s.inbox && id < |s.entries|
    && (PhaseOf(s, slow).Retrying? ==> PhaseOf(s, slow).id < |s.entries|)
  }

  function WorkLeft(phase: Phase): nat {
    match phase
    case Idle => 0
    case Retrying(_, _) => 1
    case Pumping(due) => 2 * |due| + 1
    case Publishing(_, _, rest) => 2 * |rest| + 2
  }

  /** The next command of the operation a worker is in. */
  function NextCommand(config: Config, s: State, w: Worker): Op {
    match PhaseOf(s, w)
    case Idle => Tick(s.clock)
    case Retrying(_, attempt) => if attempt < config.maxAttempts then RetryDelay(w) else RetryDeadLetter(w)
    case Pumping(due) => if due == [] then PumpEnd(w) else PumpRemove(w)
    case Publishing(_, _, _) => PumpPublish(w)
  }

  lemma CommandProgresses(config: Config, s: State, slow: Worker, thief: Worker, id: EntryId)
    requires BothHold(s, slow, thief, id) && !PhaseOf(s, slow).Idle?
    ensures var op := NextCommand(config, s, slow);
      && Enabled(config, s, op) && var s' := After(config, s, op);
      && BothHold(s', slow, thief, id) && WorkLeft(PhaseOf(s', slow)) < WorkLeft(PhaseOf(s, slow))
  {
    hide RetryWait;
  }

  /** A worker finishes what it is doing. */
  lemma {:induction false} Settle(config: Config, s: State, slow: Worker, thief: Worker, id: EntryId)
    returns (states: seq<State>, ops: seq<Op>)
    requires BothHold(s, slow, thief, id)
    ensures IsPath(config, states, ops) && states[0] == s
    ensures BothHold(states[|ops|], slow, thief, id) && Free(states[|ops|], slow)
    decreases WorkLeft(PhaseOf(s, slow))
  {
    if PhaseOf(s, slow).Idle? {
      states, ops := [s], [];
    } else {
      CommandProgresses(config, s, slow, thief, id);
      var op := NextCommand(config, s, slow);
      var s1 := After(config, s, op);
      hide BothHold, NextCommand, After, Enabled;
      var rest, more := Settle(config, s1, slow, thief, id);
      states, ops := [s] + rest, [op] + more;
      PathPrepends(config, s, op, rest, more);
    }
  }

  lemma PathPrepends(config: Config, s: State, op: Op, states: seq<State>, ops: seq<Op>)
    requires IsPath(config, states, ops) && IsStep(config, s, op, states[0])
    ensures IsPath(config, [s] + states, [op] + ops)
  {
    hide IsStep;
    forall i | 0 <= i < |ops| + 1
      ensures IsStep(config, ([s] + states)[i], ([op] + ops)[i], ([s] + states)[i + 1])
    {
      if i > 0 {
        assert IsStep(config, states[i - 1], ops[i - 1], states[i - 1 + 1]);
      }
    }
  }

  /** Two idle workers with the same message both begin a retry: the job is in two hands. */
  lemma BothRetry(
      config: Config, s: State, slow: Worker, thief: Worker, id: EntryId)
    returns (s1: State, s2: State, op1: Op, op2: Op)
    requires BothHold(s, slow, thief, id) && Free(s, slow)
    ensures IsStep(config, s, op1, s1) && IsStep(config, s1, op2, s2) && !Conserved(s2)
  {
    var attempt := s.entries[id].attempt;
    op1, op2 := RetryAck(slow, id, attempt), RetryAck(thief, id, attempt);
    s1 := After(config, s, op1);
    s2 := After(config, s1, op2);
    assert JobAt(s2, InTransit(slow)) == JobAt(s2, InTransit(thief)) == Some(s.entries[id].job);
    assert InTransit(slow) != InTransit(thief);
  }

  /**
   * A claim is safe exactly when the previous owner no longer has the message: if so, whatever happens
   * next conserves every job; if not, the two copies can put the job in two places. The claimer may be the
   * previous owner itself, restarted or not.
   */
  lemma ClaimConserves(config: Config, s: State, thief: Worker, id: EntryId)
    requires WellFormed(s) && Conserved(s) && Free(s, thief) && id in s.pending
    ensures (forall states: seq<State>, ops: seq<Op> ::
               IsPath(config, states, ops) && states[0] == Claimed(s, thief, id) ==> Conserved(states[|ops|]))
       <==> Message(s.pending[id], id) !in s.inbox
  {
    var slow, stolen := s.pending[id], Claimed(s, thief, id);
    if Message(slow, id) in s.inbox && slow == thief {
      hide Conserved;
      var states, ops := FailsTwice(config, s, thief, id);
    } else if Message(slow, id) in s.inbox {
      ClaimLeavesTwo(s, thief, id);
      hide BothHold, Conserved, WellFormed, IsStep;
      var states, ops := Settle(config, stolen, slow, thief, id);
      var s1, s2, op1, op2 := BothRetry(config, states[|ops|], slow, thief, id);
      PathGrows(config, states, ops, op1, s1);
      PathGrows(config, states + [s1], ops + [op1], op2, s2);
      var states', ops' := states + [s1] + [s2], ops + [op1] + [op2];
      assert states'[0] == stolen && states'[|ops'|] == s2;
    } else {
      ClaimKeepsPlaces(s, thief, id);
      forall states: seq<State>, ops: seq<Op> | IsPath(config, states, ops) && states[0] == stolen
        ensures Conserved(states[|ops|])
      {
        PathConserves(config, states, ops, |ops|);
      }
    }
  }

  /** A worker that claims back a message it still has fails on both copies: the job is in two places. */
  lemma FailsTwice(config: Config, s: State, w: Worker, id: EntryId) returns (states: seq<State>, ops: seq<Op>)
    requires WellFormed(s) && Free(s, w) && Message(w, id) in s.inbox
    ensures IsPath(config, states, ops) && states[0] == Claimed(s, w, id) && !Conserved(states[|ops|])
  {
    var s0 := Claimed(s, w, id);
    var attempt := s.entries[id].attempt;
    assert PhaseOf(s0, w) == PhaseOf(s, w) && s0.inbox[Message(w, id)] == 2;
    assert CanFail(s0, w, id);
    hide WellFormed, Take, Drop;
    var first, s2 := FailPath(config, s0, w, id);
    var again := RetryAck(w, id, attempt);
    assert Enabled(config, s2, again);
    var s3 := After(config, s2, again);
    states, ops := first + [s3], FailOps(config, s0, w, id) + [again];
    assert IsStep(config, s2, again, s3);
    PathGrows(config, first, FailOps(config, s0, w, id), again, s3);
    var elsewhere := if attempt < config.maxAttempts then Delayed(s.issued) else DeadLettered(|s.dead|);
    assert JobAt(s3, InTransit(w)) == JobAt(s3, elsewhere) == Some(s.entries[id].job);
    assert InTransit(w) != elsewhere;
    hide IsStep;
  }

  lemma ClaimLeavesTwo(s: State, thief: Worker, id: EntryId)
    requires WellFormed(s) && Free(s, thief) && id in s.pending && s.pending[id] != thief
    requires Message(s.pending[id], id) in s.inbox
    ensures BothHold(Claimed(s, thief, id), s.pending[id], thief, id)
  {
    assert forall w: Worker :: PhaseOf(Claimed(s, thief, id), w) == PhaseOf(s, w);
  }

  lemma ClaimKeepsPlaces(s: State, thief: Worker, id: EntryId)
    requires WellFormed(s) && Conserved(s) && Free(s, thief) && id in s.pending
      && Message(s.pending[id], id) !in s.inbox
    ensures WellFormed(Claimed(s, thief, id)) && Conserved(Claimed(s, thief, id))
  {
    var s' := Claimed(s, thief, id);
    forall p: Place ensures JobAt(s', p) == JobAt(s, p) {
    }
    assert forall w: Worker :: PhaseOf(s', w) == PhaseOf(s, w);
    hide JobAt;
    forall j: JobId ensures IsSomewhere(s', j) <==> IsSomewhere(s, j) {
    }
  }

  /** A worker fails on a message it has: the two commands of a retry. */
  predicate CanFail(s: State, w: Worker, id: EntryId) {
    Free(s, w) && Message(w, id) in s.inbox && id < |s.entries|
  }

  function FailOps(config: Config, s: State, w: Worker, id: EntryId): seq<Op>
    requires id < |s.entries|
  {
    var attempt := s.entries[id].attempt;
    [RetryAck(w, id, attempt), if attempt < config.maxAttempts then RetryDelay(w) else RetryDeadLetter(w)]
  }

  lemma FailPath(config: Config, s: State, w: Worker, id: EntryId) returns (states: seq<State>, s2: State)
    requires CanFail(s, w, id)
    ensures IsPath(config, states, FailOps(config, s, w, id)) && states[0] == s && states[2] == s2
    ensures s2.entries == s.entries && s2.stopped == s.stopped && s2.inbox == Drop(s.inbox, Message(w, id))
    ensures forall m: Message :: m in s.inbox && (m != Message(w, id) || s.inbox[m] > 1) ==> m in s2.inbox
    ensures forall v: Worker :: PhaseOf(s2, v) == if v == w then Idle else PhaseOf(s, v)
    ensures if s.entries[id].attempt < config.maxAttempts
      then s2.issued == s.issued + 1 && s2.dead == s.dead && s2.delayed.Keys == s.delayed.Keys + {s.issued}
           && s2.delayed[s.issued].job == s.entries[id].job
           && forall k: EnvelopeId :: k in s.delayed && k != s.issued ==> s2.delayed[k] == s.delayed[k]
      else s2.issued == s.issued && s2.delayed == s.delayed
           && s2.dead == s.dead + [DeadLetter(s.entries[id].stream, s.entries[id].job, s.entries[id].attempt)]
  {
    hide RetryWait;
    var s1 := After(config, s, FailOps(config, s, w, id)[0]);
    s2 := After(config, s1, FailOps(config, s, w, id)[1]);
    states := [s, s1, s2];
  }

  /**
   * What the harm comes to: after a message is taken over from a worker that is still alive, and both fail
   * on it, the job waits for two retries, or is dead-lettered twice when its attempts are exhausted.
   */
  lemma LiveClaimDuplicates(config: Config, s: State, slow: Worker, thief: Worker, id: EntryId)
    returns (states: seq<State>, ops: seq<Op>)
    requires WellFormed(s) && slow != thief && Free(s, slow) && Free(s, thief) && Message(slow, id) in s.inbox
    ensures IsPath(config, states, ops) && states[0] == Claimed(s, thief, id)
    ensures ops == FailOps(config, s, slow, id) + FailOps(config, s, thief, id)
    ensures var last, job := states[4], Some(s.entries[id].job);
      if s.entries[id].attempt < config.maxAttempts
      then JobAt(last, Delayed(s.issued)) == JobAt(last, Delayed(s.issued + 1)) == job
      else JobAt(last, DeadLettered(|s.dead|)) == JobAt(last, DeadLettered(|s.dead| + 1)) == job
  {
    var s0 := Claimed(s, thief, id);
    assert forall w: Worker :: PhaseOf(s0, w) == PhaseOf(s, w);
    assert CanFail(s0, slow, id) && Message(thief, id) in s0.inbox && Free(s0, thief);
    hide WellFormed, Take, Drop;
    var first, s2 := FailPath(config, s0, slow, id);
    assert CanFail(s2, thief, id);
    var second, s4 := FailPath(config, s2, thief, id);
    hide IsPath;
    states, ops := first + second[1..], FailOps(config, s, slow, id) + FailOps(config, s, thief, id);
    PathJoins(config, first, FailOps(config, s0, slow, id), second, FailOps(config, s2, thief, id));
    PathLength(config, first, FailOps(config, s0, slow, id));
    PathLength(config, second, FailOps(config, s2, thief, id));
  }

  // ---------- The retry bound ----------

  /** Delay scheduled before attempt `a`: the sum of `delay * 1` up to `delay * (a - 1)`. */
  function Schedule(config: Config, a: nat): real {
    if a <= 1 then 0.0 else Schedule(config, a - 1) + RetryWait(config, a - 1)
  }

  lemma {:induction false} ScheduleClosedForm(config: Config, a: nat)
    requires a >= 1
    ensures Schedule(config, a) == config.retryDelaySeconds * (a * (a - 1)) as real / 2.0
  {
    if a > 1 {
      ScheduleClosedForm(config, a - 1);
      assert a * (a - 1) == (a - 1) * (a - 2) + 2 * (a - 1);
      HalfSum(config.retryDelaySeconds, ((a - 1) * (a - 2)) as real, (a - 1) as real);
    }
  }

  lemma HalfSum(d: real, x: real, y: real)
    ensures d * x / 2.0 + d * y == d * (x + 2.0 * y) / 2.0
  {
  }

  /** The attempt number a job carries at a place. */
  function AttemptAt(s: State, p: Place): int
    requires JobAt(s, p).Some?
  {
    match p
    case Undelivered(id) => s.entries[id].attempt
    case Pending(id) => s.entries[id].attempt
    case Done(id) => s.entries[id].attempt
    case Delayed(k) => s.delayed[k].attempt
    case DeadLettered(i) => s.dead[i].attempts
    case InTransit(w) => if PhaseOf(s, w).Retrying? then PhaseOf(s, w).attempt else PhaseOf(s, w).envelope.attempt
  }

  /** Whether the delivery for the current attempt is still to come. */
  predicate Awaits(s: State, p: Place) {
    p.Undelivered? || p.Delayed? || (p.InTransit? && PhaseOf(s, p.worker).Publishing?)
  }

  /**
   * Attempts stay within 1 and the maximum; a job never refused has been handed out once for each attempt
   * begun, after exactly the scheduled delays; a dead letter carries the maximum.
   */
  ghost predicate PlaceOk(config: Config, s: State, p: Place) {
    JobAt(s, p).Some? ==>
      var job, attempt := JobAt(s, p).value, AttemptAt(s, p);
      && 1 <= attempt <= config.maxAttempts
      && (p.DeadLettered? ==> attempt == config.maxAttempts)
      && (job !in s.history.rejected ==>
           && Handled(s.history, job) == attempt - (if Awaits(s, p) then 1 else 0)
           && Waited(s.history, job) == Schedule(config, attempt))
  }

  ghost predicate RetriesOk(config: Config, s: State) {
    && (forall p: Place :: PlaceOk(config, s, p))
    && (forall j: JobId :: j !in s.history.published ==> Handled(s.history, j) == 0 && Waited(s.history, j) == 0.0)
  }

  lemma StepKeepsRetries(config: Config, s: State, op: Op)
    requires config.maxAttempts >= 1 && WellFormed(s) && Conserved(s) && RetriesOk(config, s)
    requires Enabled(config, s, op) && !op.ClaimStale?
    ensures RetriesOk(config, After(config, s, op))
  {
    var s' := After(config, s, op);
    forall p: Place ensures PlaceOk(config, s', p) {
      if op.Publish? {
        PublishedPlaceOk(config, s, op, p);
      } else {
        PlaceAfter(config, s, op, p);
        if Source(s, op).Some? && p == Target(s, op) {
          TargetOk(config, s, op);
        } else if JobAt(s', p).Some? {
          OtherPlaceOk(config, s, op, p);
        }
      }
    }
    forall j: JobId | j !in s'.history.published ensures Handled(s'.history, j) == 0 && Waited(s'.history, j) == 0.0 {
      UnpublishedUntouched(config, s, op, j);
    }
  }

  lemma UnpublishedUntouched(config: Config, s: State, op: Op, j: JobId)
    requires WellFormed(s) && Conserved(s) && RetriesOk(config, s) && Enabled(config, s, op)
    requires j !in After(config, s, op).history.published
    ensures Handled(After(config, s, op).history, j) == 0 && Waited(After(config, s, op).history, j) == 0.0
  {
    hide PlaceOk;
    assert j !in s.history.published && !IsSomewhere(s, j);
    if op.Deliver? {
      assert JobAt(s, Undelivered(op.id)) != Some(j);
    } else if op.RetryDelay? {
      assert JobAt(s, InTransit(op.worker)) != Some(j);
    }
  }

  lemma PublishedPlaceOk(config: Config, s: State, op: Op, p: Place)
    requires config.maxAttempts >= 1 && WellFormed(s) && Conserved(s) && RetriesOk(config, s) && op.Publish?
      && Enabled(config, s, op)
    ensures PlaceOk(config, After(config, s, op), p)
  {
    assert PlaceOk(config, s, p);
    if JobAt(s, p).Some? {
      assert IsSomewhere(s, JobAt(s, p).value);
    }
  }

  lemma TargetOk(config: Config, s: State, op: Op)
    requires config.maxAttempts >= 1 && WellFormed(s) && RetriesOk(config, s)
    requires Enabled(config, s, op) && !op.ClaimStale? && Source(s, op).Some?
    ensures PlaceOk(config, After(config, s, op), Target(s, op))
  {
    hide Take, Drop, RetryWait;
    assert PlaceOk(config, s, Source(s, op).value);
  }

  lemma OtherPlaceOk(config: Config, s: State, op: Op, p: Place)
    requires WellFormed(s) && Conserved(s) && RetriesOk(config, s)
    requires Enabled(config, s, op) && !op.ClaimStale? && !op.Publish? && JobAt(After(config, s, op), p).Some?
    requires Source(s, op).Some? ==> p != Target(s, op)
    ensures PlaceOk(config, After(config, s, op), p)
  {
    hide After, JobAt, AttemptAt, Awaits;
    PlaceAfter(config, s, op, p);
    assert PlaceOk(config, s, p);
    assert Source(s, op).Some? ==> JobAt(s, p) != JobAt(s, Source(s, op).value);
    CarriedAttemptKept(config, s, op, p);
    OtherHistoryKept(config, s, op, JobAt(s, p).value);
  }

  lemma CarriedAttemptKept(config: Config, s: State, op: Op, p: Place)
    requires WellFormed(s) && Enabled(config, s, op) && !op.Publish? && JobAt(s, p).Some?
      && JobAt(After(config, s, op), p).Some?
    requires Source(s, op).Some? ==> p != Target(s, op)
    ensures AttemptAt(After(config, s, op), p) == AttemptAt(s, p) && Awaits(After(config, s, op), p) == Awaits(s, p)
  {
    hide CountDelivery, RetryWait;
    if p.InTransit? {
      PhaseKept(config, s, op, p.worker);
    }
  }

  /** A step writes the history of no job but the one it moves. */
  lemma OtherHistoryKept(config: Config, s: State, op: Op, j: JobId)
    requires WellFormed(s) && Enabled(config, s, op) && !op.Publish?
    requires Source(s, op).Some? ==> JobAt(s, Source(s, op).value) != Some(j)
    ensures var h, h' := s.history, After(config, s, op).history;
            Handled(h', j) == Handled(h, j) && Waited(h', j) == Waited(h, j) && (j in h'.rejected <==> j in h.rejected)
  {
  }

  lemma EmptyRetriesOk(config: Config)
    ensures RetriesOk(config, EMPTY)
  {
    assert forall p: Place :: JobAt(EMPTY, p).None?;
  }

  lemma {:induction false} RetriesOverRuns(config: Config, states: seq<State>, ops: seq<Op>, n: nat)
    requires config.maxAttempts >= 1 && IsRun(config, states, ops) && n < |states|
    requires forall i :: 0 <= i < |ops| ==> !ops[i].ClaimStale?
    ensures RetriesOk(config, states[n])
  {
    hide WellFormed, Conserved, EnvelopesOk, RetriesOk, Enabled, After;
    if n == 0 {
      EmptyRetriesOk(config);
    } else {
      RetriesOverRuns(config, states, ops, n - 1);
      ConservationOverRuns(config, states, ops, n - 1);
      assert IsStep(config, states[n - 1], ops[n - 1], states[n - 1 + 1]);
      StepKeepsRetries(config, states[n - 1], ops[n - 1]);
    }
  }

  /**
   * Without stale redelivery, every entry carries an attempt between 1 and the maximum; and a well-formed
   * job that ends as a dead letter was handled exactly the maximum number of times, once per attempt,
   * after delays that sum to `delay * max * (max - 1) / 2`.
   */
  lemma RetryBound(config: Config, states: seq<State>, ops: seq<Op>, n: nat, id: EntryId, i: nat)
    requires config.maxAttempts >= 1 && IsRun(config, states, ops) && n < |states|
    requires forall k :: 0 <= k < |ops| ==> !ops[k].ClaimStale?
    ensures var s := states[n];
      && (id < |s.entries| && (id in s.undelivered || id in s.pending || id in s.done) ==>
           1 <= s.entries[id].attempt <= config.maxAttempts)
      && (i < |s.dead| ==> s.dead[i].attempts == config.maxAttempts)
      && (i < |s.dead| && s.dead[i].job !in s.history.rejected ==>
           && Handled(s.history, s.dead[i].job) == config.maxAttempts
           && Waited(s.history, s.dead[i].job)
              == config.retryDelaySeconds * (config.maxAttempts * (config.maxAttempts - 1)) as real / 2.0)
  {
    RetriesOverRuns(config, states, ops, n);
    var s := states[n];
    assert PlaceOk(config, s, Undelivered(id)) && PlaceOk(config, s, Pending(id)) && PlaceOk(config, s, Done(id));
    assert PlaceOk(config, s, DeadLettered(i));
    ScheduleClosedForm(config, config.maxAttempts);
  }
}
