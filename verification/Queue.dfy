/** The Redis Streams queue at the granularity of single Redis commands. */
module Queue {
  import opened Wrappers

  type JobId = nat
  type Worker = nat
  type EntryId = nat
  type EnvelopeId = nat

  datatype Config = Config(maxAttempts: int, retryDelaySeconds: real)

  /** A stream entry; `from` names the delayed envelope it was republished from. */
  datatype Entry = Entry(stream: string, job: JobId, attempt: int, from: Option<EnvelopeId>)

  /** A member of the delayed set with its score. */
  datatype Envelope = Envelope(stream: string, job: JobId, attempt: int, due: real)

  datatype DeadLetter = DeadLetter(origin: string, job: JobId, attempts: int)

  /** A message in the memory of a worker. */
  datatype Message = Message(worker: Worker, id: EntryId)

  /** The messages in memory, with how many copies of each their worker has. */
  function Take(inbox: map<Message, nat>, m: Message): map<Message, nat> {
    inbox[m := (if m in inbox then inbox[m] else 0) + 1]
  }

  function Drop(inbox: map<Message, nat>, m: Message): map<Message, nat> {
    if m in inbox && inbox[m] > 1 then inbox[m := inbox[m] - 1] else inbox - {m}
  }

  /** Where a worker stands between two commands of one operation. */
  datatype Phase =
    | Idle
    | Retrying(id: EntryId, attempt: int)
    | Pumping(due: seq<EnvelopeId>)
    | Publishing(envelopeId: EnvelopeId, envelope: Envelope, rest: seq<EnvelopeId>)

  datatype State = State(
    entries: seq<Entry>, undelivered: set<EntryId>, pending: map<EntryId, Worker>, done: set<EntryId>,
    delayed: map<EnvelopeId, Envelope>, issued: nat, dead: seq<DeadLetter>,
    phases: map<Worker, Phase>, inbox: map<Message, nat>, stopped: set<Worker>, clock: real,
    history: History)

  /** What happened to each job: deliveries, scheduled delay, and whether it was refused as malformed. */
  datatype History = History(
      published: set<JobId>, handled: map<JobId, nat>, waited: map<JobId, real>, rejected: set<JobId>)

  function Handled(h: History, job: JobId): nat {
    if job in h.handled then h.handled[job] else 0
  }

  function Waited(h: History, job: JobId): real {
    if job in h.waited then h.waited[job] else 0.0
  }

  const EMPTY := State([], {}, map[], {}, map[], 0, [], map[], map[], {}, 0.0, History({}, map[], map[], {}))

  function PhaseOf(s: State, w: Worker): Phase {
    if w in s.phases then s.phases[w] else Idle
  }

  datatype Op =
    | Publish(job: JobId, stream: string)
    | Deliver(worker: Worker, id: EntryId)
    | ClaimStale(worker: Worker, id: EntryId)
    | Ack(worker: Worker, id: EntryId)
    | RetryAck(worker: Worker, id: EntryId, attempt: int)
    | RetryDelay(worker: Worker)
    | RetryDeadLetter(worker: Worker)
    | PumpScan(worker: Worker, due: seq<EnvelopeId>)
    | PumpRemove(worker: Worker)
    | PumpPublish(worker: Worker)
    | PumpEnd(worker: Worker)
    | Stop(worker: Worker)
    | Restart(worker: Worker)
    | Tick(now: real)

  /**
   * Which command can come next. Workers are single threads; they stop only between operations or while
   * scanning, never between the commands of a retry or with an envelope in hand; and stale messages are
   * claimed only when their previous owner no longer has them, as after a crash or a restart.
   */
  predicate Enabled(config: Config, s: State, op: Op) {
    match op
    case Publish(job, _) => job !in s.history.published
    case Deliver(w, id) => Free(s, w) && id in s.undelivered
    case ClaimStale(w, id) => Free(s, w) && id in s.pending && Message(s.pending[id], id) !in s.inbox
    case Ack(w, id) => Free(s, w) && Message(w, id) in s.inbox
    case RetryAck(w, id, attempt) =>
      Free(s, w) && Message(w, id) in s.inbox && id < |s.entries|
        && (attempt == s.entries[id].attempt || attempt == config.maxAttempts)
    case RetryDelay(w) => PhaseOf(s, w).Retrying? && PhaseOf(s, w).attempt < config.maxAttempts
      && PhaseOf(s, w).id < |s.entries|
    case RetryDeadLetter(w) => PhaseOf(s, w).Retrying? && PhaseOf(s, w).attempt >= config.maxAttempts
      && PhaseOf(s, w).id < |s.entries|
    case PumpScan(w, due) =>
      Free(s, w) && forall i :: 0 <= i < |due| ==> due[i] in s.delayed && s.delayed[due[i]].due <= s.clock
    case PumpRemove(w) => PhaseOf(s, w).Pumping? && PhaseOf(s, w).due != []
    case PumpPublish(w) => PhaseOf(s, w).Publishing?
    case PumpEnd(w) => PhaseOf(s, w) == Pumping([])
    case Stop(w) => PhaseOf(s, w).Idle? || PhaseOf(s, w).Pumping?
    case Restart(w) => w in s.stopped
    case Tick(now) => s.clock <= now
  }

  /** Seconds before the next attempt: the delay grows linearly with the attempt that failed. */
  function RetryWait(config: Config, attempt: int): real {
    config.retryDelaySeconds * attempt as real
  }

  predicate Free(s: State, w: Worker) {
    w !in s.stopped && PhaseOf(s, w).Idle?
  }

  function After(config: Config, s: State, op: Op): State
    requires Enabled(config, s, op)
  {
    match op
    case Publish(job, stream) =>
      s.(entries := s.entries + [Entry(stream, job, 1, None)], undelivered := s.undelivered + {|s.entries|},
         history := s.history.(published := s.history.published + {job}))
    case Deliver(w, id) =>
      s.(undelivered := s.undelivered - {id}, pending := s.pending[id := w], inbox := Take(s.inbox, Message(w, id)),
         history := if id < |s.entries| then CountDelivery(s.history, s.entries[id].job) else s.history)
    case ClaimStale(w, id) => s.(pending := s.pending[id := w], inbox := Take(s.inbox, Message(w, id)))
    case Ack(w, id) => s.(pending := s.pending - {id}, done := s.done + {id}, inbox := Drop(s.inbox, Message(w, id)))
    case RetryAck(w, id, attempt) =>
      s.(pending := s.pending - {id}, inbox := Drop(s.inbox, Message(w, id)),
         phases := s.phases[w := Retrying(id, attempt)],
         history := if attempt == s.entries[id].attempt then s.history
                    else s.history.(rejected := s.history.rejected + {s.entries[id].job}))
    case RetryDelay(w) =>
      var entry, attempt := s.entries[s.phases[w].id], s.phases[w].attempt;
      var delay := RetryWait(config, attempt);
      s.(delayed := s.delayed[s.issued := Envelope(entry.stream, entry.job, attempt + 1, s.clock + delay)],
         issued := s.issued + 1, phases := s.phases[w := Idle],
         history := s.history.(waited := s.history.waited[entry.job := Waited(s.history, entry.job) + delay]))
    case RetryDeadLetter(w) =>
      var entry := s.entries[s.phases[w].id];
      s.(dead := s.dead + [DeadLetter(entry.stream, entry.job, s.phases[w].attempt)], phases := s.phases[w := Idle])
    case PumpScan(w, due) => s.(phases := s.phases[w := Pumping(due)])
    case PumpRemove(w) =>
      var k, rest := s.phases[w].due[0], s.phases[w].due[1..];
      if k in s.delayed then s.(delayed := s.delayed - {k}, phases := s.phases[w := Publishing(k, s.delayed[k], rest)])
      else s.(phases := s.phases[w := Pumping(rest)])
    case PumpPublish(w) =>
      var phase := s.phases[w];
      var e := phase.envelope;
      s.(entries := s.entries + [Entry(e.stream, e.job, e.attempt, Some(phase.envelopeId))],
         undelivered := s.undelivered + {|s.entries|}, phases := s.phases[w := Pumping(phase.rest)])
    case PumpEnd(w) => s.(phases := s.phases[w := Idle])
    case Stop(w) =>
      s.(stopped := s.stopped + {w}, phases := s.phases[w := Idle],
         inbox := map m | m in s.inbox && m.worker != w :: s.inbox[m])
    case Restart(w) => s.(stopped := s.stopped - {w})
    case Tick(now) => s.(clock := now)
  }

  function CountDelivery(h: History, job: JobId): History {
    h.(handled := h.handled[job := Handled(h, job) + 1])
  }

  ghost predicate IsStep(config: Config, s: State, op: Op, s': State) {
    Enabled(config, s, op) && s' == After(config, s, op)
  }

  /** Consecutive steps through these states. */
  ghost predicate IsPath(config: Config, states: seq<State>, ops: seq<Op>) {
    && |states| == |ops| + 1
    && forall i {:trigger ops[i]} :: 0 <= i < |ops| ==> IsStep(config, states[i], ops[i], states[i + 1])
  }

  lemma PathGrows(config: Config, states: seq<State>, ops: seq<Op>, op: Op, s: State)
    requires IsPath(config, states, ops) && IsStep(config, states[|ops|], op, s)
    ensures IsPath(config, states + [s], ops + [op])
  {
    hide IsStep;
    forall i | 0 <= i < |ops + [op]| ensures IsStep(config, (states + [s])[i], (ops + [op])[i], (states + [s])[i + 1]) {
      if i < |ops| {
        assert IsStep(config, states[i], ops[i], states[i + 1]);
      }
    }
  }

  lemma PathJoins(config: Config, a: seq<State>, opsA: seq<Op>, b: seq<State>, opsB: seq<Op>)
    requires IsPath(config, a, opsA) && IsPath(config, b, opsB) && a[|opsA|] == b[0]
    ensures IsPath(config, a + b[1..], opsA + opsB)
  {
    hide IsStep;
    var states, ops := a + b[1..], opsA + opsB;
    forall i | 0 <= i < |ops| ensures IsStep(config, states[i], ops[i], states[i + 1]) {
      if i < |opsA| {
        assert states[i] == a[i] && ops[i] == opsA[i] && states[i + 1] == a[i + 1];
      } else {
        var k := i - |opsA|;
        assert states[i] == b[k] && ops[i] == opsB[k] && states[i + 1] == b[k + 1];
      }
    }
  }

  lemma PathLength(config: Config, states: seq<State>, ops: seq<Op>)
    requires IsPath(config, states, ops)
    ensures |states| == |ops| + 1
  {
  }

  function DueSet(s: State): set<EnvelopeId> {
    set k | k in s.delayed && s.delayed[k].due <= s.clock
  }

  /** What the scan of the delayed set returns: up to `limit` due envelopes, lowest score first. */
  predicate IsDueList(s: State, limit: nat, due: seq<EnvelopeId>) {
    && (forall i :: 0 <= i < |due| ==> due[i] in DueSet(s))
    && (forall i, j :: 0 <= i < j < |due| ==> due[i] != due[j] && s.delayed[due[i]].due <= s.delayed[due[j]].due)
    && |due| == (if |DueSet(s)| <= limit then |DueSet(s)| else limit)
    && (forall i, k :: 0 <= i < |due| && k in DueSet(s) && k !in due ==> s.delayed[due[i]].due <= s.delayed[k].due)
  }

  /** The scan always has an answer; `pool` shrinks to the envelopes still to be considered. */
  lemma {:induction false} DueListExists(s: State, limit: nat, pool: set<EnvelopeId>) returns (due: seq<EnvelopeId>)
    requires pool <= DueSet(s)
    ensures forall i :: 0 <= i < |due| ==> due[i] in pool
    ensures forall i, j :: 0 <= i < j < |due| ==> due[i] != due[j] && s.delayed[due[i]].due <= s.delayed[due[j]].due
    ensures |due| == if |pool| <= limit then |pool| else limit
    ensures forall i, k :: 0 <= i < |due| && k in pool && k !in due ==> s.delayed[due[i]].due <= s.delayed[k].due
  {
    if limit == 0 || pool == {} {
      due := [];
    } else {
      var first := LowestScore(s, pool);
      var rest := DueListExists(s, limit - 1, pool - {first});
      due := [first] + rest;
    }
  }

  lemma SomeDueList(s: State, limit: nat) returns (due: seq<EnvelopeId>)
    ensures IsDueList(s, limit, due)
  {
    due := DueListExists(s, limit, DueSet(s));
  }

  /** Distinct envelopes of the delayed set, all of them due. */
  predicate AllDue(s: State, due: seq<EnvelopeId>) {
    && (forall i :: 0 <= i < |due| ==> due[i] in s.delayed && s.delayed[due[i]].due <= s.clock)
    && (forall i, j :: 0 <= i < j < |due| ==> due[i] != due[j])
  }

  lemma DueListIsDue(s: State, limit: nat, due: seq<EnvelopeId>)
    requires IsDueList(s, limit, due)
    ensures AllDue(s, due)
  {
  }

  lemma {:induction false} LowestScore(s: State, pool: set<EnvelopeId>) returns (first: EnvelopeId)
    requires pool <= DueSet(s) && pool != {}
    ensures first in pool && forall k: EnvelopeId :: k in pool ==> s.delayed[first].due <= s.delayed[k].due
    decreases pool
  {
    first :| first in pool;
    if pool != {first} {
      var other := LowestScore(s, pool - {first});
      if s.delayed[other].due < s.delayed[first].due {
        first := other;
      }
    }
  }

  /** The commands of one pump that loses no race: scan, remove and publish each envelope, end. */
  function PumpOps(w: Worker, due: seq<EnvelopeId>): seq<Op> {
    [PumpScan(w, due)] + Republish(w, |due|) + [PumpEnd(w)]
  }

  function Republish(w: Worker, n: nat): seq<Op> {
    if n == 0 then [] else Republish(w, n - 1) + [PumpRemove(w), PumpPublish(w)]
  }

  /** One turn of the pump. */
  function Removed(s: State, w: Worker, k: EnvelopeId, rest: seq<EnvelopeId>): State
    requires k in s.delayed
  {
    s.(delayed := s.delayed - {k}, phases := s.phases[w := Publishing(k, s.delayed[k], rest)])
  }

  function Republished(s: State, w: Worker, k: EnvelopeId, e: Envelope, rest: seq<EnvelopeId>): State {
    s.(entries := s.entries + [Entry(e.stream, e.job, e.attempt, Some(k))],
       undelivered := s.undelivered + {|s.entries|}, phases := s.phases[w := Pumping(rest)])
  }

  lemma PumpTurn(config: Config, s: State, w: Worker, k: EnvelopeId, rest: seq<EnvelopeId>)
    requires k in s.delayed && w in s.phases && s.phases[w] == Pumping([k] + rest)
    ensures var s1 := Removed(s, w, k, rest);
      && IsStep(config, s, PumpRemove(w), s1)
      && IsStep(config, s1, PumpPublish(w), Republished(s1, w, k, s.delayed[k], rest))
  {
    assert ([k] + rest)[1..] == rest;
  }

  /** The state after the scan and `n` turns. */
  function Pumped(s: State, w: Worker, due: seq<EnvelopeId>, n: nat): State
    requires n <= |due| && forall i :: 0 <= i < |due| ==> due[i] in s.delayed
  {
    if n == 0 then s.(phases := s.phases[w := Pumping(due)])
    else
      var t, k := Pumped(s, w, due, n - 1), due[n - 1];
      if k in t.delayed then Republished(Removed(t, w, k, due[n..]), w, k, t.delayed[k], due[n..]) else t
  }

  /** What `n` turns do, if nobody else pumps: the first `n` envelopes are on their streams, the rest wait. */
  ghost predicate IsPumped(s: State, w: Worker, due: seq<EnvelopeId>, n: nat, t: State)
    requires n <= |due| && forall i :: 0 <= i < |due| ==> due[i] in s.delayed
  {
    && t == s.(entries := t.entries, delayed := t.delayed, undelivered := t.undelivered,
               phases := s.phases[w := Pumping(due[n..])])
    && |t.entries| == |s.entries| + n && t.entries[..|s.entries|] == s.entries
    && (forall i :: 0 <= i < n ==>
          var e := s.delayed[due[i]]; t.entries[|s.entries| + i] == Entry(e.stream, e.job, e.attempt, Some(due[i])))
    && (forall id: EntryId :: id in t.undelivered <==> id in s.undelivered || |s.entries| <= id < |t.entries|)
    && t.delayed == s.delayed - (set i | 0 <= i < n :: due[i])
  }

  lemma {:induction false} PumpedShape(s: State, w: Worker, due: seq<EnvelopeId>, n: nat)
    requires n <= |due| && AllDue(s, due)
    ensures IsPumped(s, w, due, n, Pumped(s, w, due, n))
  {
    if n > 0 {
      PumpedShape(s, w, due, n - 1);
      PumpedOnce(s, w, due, n, Pumped(s, w, due, n - 1));
    }
  }

  lemma PumpedOnce(s: State, w: Worker, due: seq<EnvelopeId>, n: nat, t: State)
    requires 0 < n <= |due| && AllDue(s, due)
    requires IsPumped(s, w, due, n - 1, t)
    ensures var k := due[n - 1];
      k in t.delayed && IsPumped(s, w, due, n, Republished(Removed(t, w, k, due[n..]), w, k, t.delayed[k], due[n..]))
  {
    var k := due[n - 1];
    var after := Republished(Removed(t, w, k, due[n..]), w, k, t.delayed[k], due[n..]);
    assert (set i | 0 <= i < n :: due[i]) == (set i | 0 <= i < n - 1 :: due[i]) + {k};
    assert after.entries[..|s.entries|] == t.entries[..|s.entries|];
  }

  /** The next turn: its envelope is still there. */
  lemma PumpedNext(s: State, w: Worker, due: seq<EnvelopeId>, n: nat)
    requires n < |due| && AllDue(s, due)
    ensures var t, k := Pumped(s, w, due, n), due[n];
      && k in t.delayed && w in t.phases && t.phases[w] == Pumping([k] + due[n + 1..])
      && Pumped(s, w, due, n + 1) == Republished(Removed(t, w, k, due[n + 1..]), w, k, t.delayed[k], due[n + 1..])
  {
    PumpedShape(s, w, due, n);
    PumpedOnce(s, w, due, n + 1, Pumped(s, w, due, n));
    assert due[n..] == [due[n]] + due[n + 1..];
  }

  /** Pumping alone is a path of single steps. */
  lemma {:induction false} PumpIsPath(config: Config, s: State, w: Worker, due: seq<EnvelopeId>, n: nat)
    returns (states: seq<State>)
    requires Free(s, w) && n <= |due| && AllDue(s, due)
    ensures IsPath(config, states, [PumpScan(w, due)] + Republish(w, n)) && states[0] == s
    ensures states[|states| - 1] == Pumped(s, w, due, n)
  {
    if n == 0 {
      states := [s, Pumped(s, w, due, 0)];
      assert IsStep(config, s, PumpScan(w, due), states[1]);
    } else {
      hide AllDue, Free;
      var t, k := Pumped(s, w, due, n - 1), due[n - 1];
      PumpedNext(s, w, due, n - 1);
      hide Pumped, IsPath, Removed, Republished, IsStep;
      states := PumpIsPath(config, s, w, due, n - 1);
      PumpTurn(config, t, w, k, due[n..]);
      var s1 := Removed(t, w, k, due[n..]);
      var ops := [PumpScan(w, due)] + Republish(w, n - 1);
      TwoMore(config, states, ops, PumpRemove(w), s1, PumpPublish(w), Pumped(s, w, due, n));
      states := states + [s1, Pumped(s, w, due, n)];
      assert [PumpScan(w, due)] + Republish(w, n) == ops + [PumpRemove(w), PumpPublish(w)];
    }
  }

  lemma TwoMore(config: Config, states: seq<State>, ops: seq<Op>, op1: Op, s1: State, op2: Op, s2: State)
    requires IsPath(config, states, ops) && IsStep(config, states[|ops|], op1, s1) && IsStep(config, s1, op2, s2)
    ensures IsPath(config, states + [s1, s2], ops + [op1, op2])
  {
    hide IsStep;
    PathGrows(config, states, ops, op1, s1);
    PathGrows(config, states + [s1], ops + [op1], op2, s2);
    assert states + [s1, s2] == states + [s1] + [s2] && ops + [op1, op2] == ops + [op1] + [op2];
  }

  /** What a whole pump leaves behind, and that its last command ends the path. */
  lemma PumpEnds(config: Config, s: State, w: Worker, due: seq<EnvelopeId>, s': State, states: seq<State>)
    requires AllDue(s, due) && s' == Idled(Pumped(s, w, due, |due|), w)
    requires IsPath(config, states, [PumpScan(w, due)] + Republish(w, |due|))
    requires states[|states| - 1] == Pumped(s, w, due, |due|)
    ensures IsPath(config, states + [s'], PumpOps(w, due)) && IsPumpedOut(s, w, due, s')
  {
    PumpedShape(s, w, due, |due|);
    hide IsPath, AllDue, Republish, Pumped, IsStep;
    PumpedOut(s, w, due, states[|states| - 1], s');
    hide IsPumped, IsPumpedOut;
    PumpStops(config, states[|states| - 1], w);
    PathGrows(config, states, [PumpScan(w, due)] + Republish(w, |due|), PumpEnd(w), s');
  }

  lemma PumpStops(config: Config, s: State, w: Worker)
    requires w in s.phases && s.phases[w] == Pumping([])
    ensures IsStep(config, s, PumpEnd(w), Idled(s, w))
  {
  }

  lemma PumpedOut(s: State, w: Worker, due: seq<EnvelopeId>, t: State, s': State)
    requires AllDue(s, due) && IsPumped(s, w, due, |due|, t) && s' == Idled(t, w)
    ensures IsPumpedOut(s, w, due, s') && w in t.phases && t.phases[w] == Pumping([])
  {
    assert due[|due|..] == [];
    assert s.phases[w := Pumping([])][w := Idle] == s.phases[w := Idle];
  }

  function Idled(s: State, w: Worker): State {
    s.(phases := s.phases[w := Idle])
  }

  /** Every envelope of the list, once, is an undelivered entry of its stream, in order; nothing else changed. */
  ghost predicate IsPumpedOut(s: State, w: Worker, due: seq<EnvelopeId>, t: State)
    requires forall i :: 0 <= i < |due| ==> due[i] in s.delayed
  {
    && t == Idled(s.(entries := t.entries, delayed := t.delayed, undelivered := t.undelivered), w)
    && |t.entries| == |s.entries| + |due| && t.entries[..|s.entries|] == s.entries
    && (forall i :: 0 <= i < |due| ==>
          var e := s.delayed[due[i]]; t.entries[|s.entries| + i] == Entry(e.stream, e.job, e.attempt, Some(due[i])))
    && (forall id: EntryId :: id in t.undelivered <==> id in s.undelivered || |s.entries| <= id < |t.entries|)
    && t.delayed == s.delayed - (set i | 0 <= i < |due| :: due[i])
  }

  // ---------- The queue as one mutable system ----------

  class StreamQueues {
    const config: Config
    var state: State

    constructor (config: Config)
      ensures this.config == config && state == EMPTY
    {
      this.config := config;
      state := EMPTY;
    }

    /** XADD of a new job. */
    method PublishJob(job: JobId, stream: string) returns (id: EntryId)
      requires job !in state.history.published
      modifies this
      ensures state == After(config, old(state), Publish(job, stream))
      ensures id == |old(state).entries| && state.entries == old(state).entries + [Entry(stream, job, 1, None)]
      ensures state.undelivered == old(state).undelivered + {id}
    {
      id := |state.entries|;
      state := state.(entries := state.entries + [Entry(stream, job, 1, None)], undelivered := state.undelivered + {id},
                      history := state.history.(published := state.history.published + {job}));
    }

    /** XREADGROUP of one entry: the oldest undelivered entry of the stream, if there is one. */
    method Consume(worker: Worker, stream: string) returns (message: Option<EntryId>)
      requires Free(state, worker)
      modifies this
      ensures message.None? ==>
        state == old(state) && forall id: EntryId :: id < |state.entries| && id in state.undelivered ==>
          state.entries[id].stream != stream
      ensures message.Some? ==>
        && message.value < |old(state).entries| && message.value in old(state).undelivered
        && old(state).entries[message.value].stream == stream
        && (forall id: EntryId :: id < message.value && id in old(state).undelivered ==>
             old(state).entries[id].stream != stream)
        && state == After(config, old(state), Deliver(worker, message.value))
        && state.undelivered == old(state).undelivered - {message.value}
        && state.pending == old(state).pending[message.value := worker] && Message(worker, message.value) in state.inbox
    {
      for id := 0 to |state.entries|
        invariant state == old(state)
        invariant forall k: EntryId :: k < id && k in state.undelivered ==> state.entries[k].stream != stream
      {
        if id in state.undelivered && state.entries[id].stream == stream {
          state := state.(undelivered := state.undelivered - {id}, pending := state.pending[id := worker],
                          inbox := Take(state.inbox, Message(worker, id)),
                          history := CountDelivery(state.history, state.entries[id].job));
          return Some(id);
        }
      }
      return None;
    }

    method AckMessage(worker: Worker, id: EntryId)
      requires Enabled(config, state, Ack(worker, id))
      modifies this
      ensures state == After(config, old(state), Ack(worker, id))
      ensures id !in state.pending && id in state.done && state.entries == old(state).entries
    {
      state := state.(pending := state.pending - {id}, done := state.done + {id},
                      inbox := Drop(state.inbox, Message(worker, id)));
    }

    /** The first command of a retry: the original entry is always acked. */
    method AckForRetry(worker: Worker, id: EntryId, attempt: int)
      requires Enabled(config, state, RetryAck(worker, id, attempt))
      modifies this
      ensures state == After(config, old(state), RetryAck(worker, id, attempt))
    {
      var entry := state.entries[id];
      state := state.(pending := state.pending - {id}, inbox := Drop(state.inbox, Message(worker, id)),
                      phases := state.phases[worker := Retrying(id, attempt)],
                      history := if attempt == entry.attempt then state.history
                                 else state.history.(rejected := state.history.rejected + {entry.job}));
    }

    /** ZADD of an envelope with the next attempt, due after a delay that grows with the attempt. */
    method ScheduleRetry(worker: Worker)
      requires Enabled(config, state, RetryDelay(worker))
      modifies this
      ensures state == After(config, old(state), RetryDelay(worker))
    {
      var entry, attempt := state.entries[state.phases[worker].id], state.phases[worker].attempt;
      var delay := RetryWait(config, attempt);
      var envelope := Envelope(entry.stream, entry.job, attempt + 1, state.clock + delay);
      var waited := state.history.waited[entry.job := Waited(state.history, entry.job) + delay];
      state := state.(delayed := state.delayed[state.issued := envelope],
                      issued := state.issued + 1, phases := state.phases[worker := Idle],
                      history := state.history.(waited := waited));
    }

    /** XADD to the dead-letter stream. */
    method DeadLetterMessage(worker: Worker)
      requires Enabled(config, state, RetryDeadLetter(worker))
      modifies this
      ensures state == After(config, old(state), RetryDeadLetter(worker))
    {
      var entry := state.entries[state.phases[worker].id];
      state := state.(dead := state.dead + [DeadLetter(entry.stream, entry.job, state.phases[worker].attempt)],
                      phases := state.phases[worker := Idle]);
    }

    /**
     * `retry` run to its end without interruption: the entry is acked first, then either a delayed
     * envelope with the next attempt or a dead letter takes its place.
     */
    method Retry(worker: Worker, id: EntryId, attempt: int) returns (scheduled: bool)
      requires Enabled(config, state, RetryAck(worker, id, attempt))
      modifies this
      ensures scheduled <==> attempt < config.maxAttempts
      ensures var acked := After(config, old(state), RetryAck(worker, id, attempt));
              state == After(config, acked, if scheduled then RetryDelay(worker) else RetryDeadLetter(worker))
      ensures id !in state.pending && state.undelivered == old(state).undelivered && state.entries == old(state).entries
      ensures var entry, wait := old(state).entries[id], config.retryDelaySeconds * attempt as real;
        if scheduled then
          && state.delayed == old(state).delayed[old(state).issued :=
               Envelope(entry.stream, entry.job, attempt + 1, old(state).clock + wait)]
          && state.issued == old(state).issued + 1 && state.dead == old(state).dead
          && Waited(state.history, entry.job) == Waited(old(state).history, entry.job) + wait
        else
          && state.dead == old(state).dead + [DeadLetter(entry.stream, entry.job, attempt)]
          && state.delayed == old(state).delayed && state.issued == old(state).issued
    {
      AckForRetry(worker, id, attempt);
      if attempt >= config.maxAttempts {
        DeadLetterMessage(worker);
        return false;
      }
      ScheduleRetry(worker);
      assert RetryWait(config, attempt) == config.retryDelaySeconds * attempt as real;
      return true;
    }

    /**
     * `pump_delayed` with no other pumper running: every envelope of the scan, once, goes back onto its
     * stream in order of its score, undelivered, and `moved` counts them; nothing else changes. It is a
     * path of the single steps.
     */
    method PumpDelayed(worker: Worker, limit: nat)
      returns (moved: nat, ghost due: seq<EnvelopeId>, ghost states: seq<State>, ghost ops: seq<Op>)
      requires Free(state, worker)
      modifies this
      ensures IsDueList(old(state), limit, due) && moved == |due|
      ensures IsPath(config, states, ops) && ops == PumpOps(worker, due)
      ensures states[0] == old(state) && states[|ops|] == state
      ensures AllDue(old(state), due) && IsPumpedOut(old(state), worker, due, state)
    {
      ghost var found := SomeDueList(state, limit);
      var scan :| IsDueList(state, limit, scan);
      due := scan;
      DueListIsDue(state, limit, scan);
      states := PumpIsPath(config, state, worker, scan, |scan|);
      hide IsPath, IsStep, IsDueList, AllDue, Free, Republish;
      state := state.(phases := state.phases[worker := Pumping(scan)]);
      moved := 0;
      assert state == Pumped(old(state), worker, scan, 0);
      hide Pumped, IsPumped;
      for n := 0 to |scan|
        invariant state == Pumped(old(state), worker, scan, n) && moved == n
      {
        PumpedNext(old(state), worker, scan, n);
        var k := scan[n];
        if k in state.delayed {
          var e := state.delayed[k];
          state := state.(delayed := state.delayed - {k},
                          phases := state.phases[worker := Publishing(k, e, scan[n + 1..])]);
          state := state.(entries := state.entries + [Entry(e.stream, e.job, e.attempt, Some(k))],
                          undelivered := state.undelivered + {|state.entries|},
                          phases := state.phases[worker := Pumping(scan[n + 1..])]);
          moved := moved + 1;
        }
      }
      state := state.(phases := state.phases[worker := Idle]);
      PumpEnds(config, old(state), worker, scan, state, states);
      ops := PumpOps(worker, scan);
      states := states + [state];
    }
  }
}
