/** LLM analysis with per-provider retries, corrective prompts and a fallback chain. */
module LlmLadder {
  import opened Wrappers
  import opened Bits

  type Analysis = string

  datatype Completion = Completion(
      text: string, promptTokens: nat, completionTokens: nat, provider: string, model: string)

  datatype Reply = ApiError(retryable: bool) | Completed(completion: Completion)

  datatype Failure = ProviderError(retryable: bool) | Malformed

  /**
   * One request: the provider's position in the chain, the attempt number, and whether the prompt carries the
   * corrective note.
   */
  datatype Slot = Slot(provider: nat, attempt: nat, corrective: bool)

  datatype Bill = Bill(errors: seq<Failure>, promptTokens: nat, completionTokens: nat, cost: real)

  /**
   * The extractor's settings, with the parts of the outside world it depends on: `strip` and `recover`
   * stand for text handling and schema validation, `replies` scripts what each provider answers.
   */
  datatype Setup = Setup(
    providers: seq<string>, maxRetries: int, backoffBase: real,
    strip: string -> string, recover: string -> Option<Analysis>, cost: Completion -> real,
    replies: (nat, nat) -> Reply)
  {
    /** A local model that is only a fallback gets one attempt. */
    function Budget(p: nat): nat
      requires p < |providers|
    {
      if providers[p] == "ollama" && |providers| > 1 then 1 else if maxRetries > 0 then maxRetries else 0
    }

    function Analysis(c: Completion): Option<Analysis> {
      var raw := strip(c.text);
      if raw == "" || raw == "{}" || raw == "null" || raw == "[]" then None else recover(raw)
    }

    function Verdict(slot: Slot): Option<Analysis> {
      var reply := replies(slot.provider, slot.attempt);
      if reply.Completed? then Analysis(reply.completion) else None
    }

    predicate EndsProvider(p: nat, attempt: nat) {
      var reply := replies(p, attempt);
      reply.ApiError? && !reply.retryable
    }

    predicate IsMalformed(p: nat, attempt: nat) {
      var reply := replies(p, attempt);
      reply.Completed? && Analysis(reply.completion).None?
    }

    /** The prompt is corrective once some earlier reply of the same provider was malformed. */
    predicate Corrective(p: nat, attempt: nat) {
      attempt > 1 && (IsMalformed(p, attempt - 1) || Corrective(p, attempt - 1))
    }

    /** The last attempt at provider `p` from `attempt` on: a non-retryable error or the end of its budget. */
    function LastAttempt(p: nat, attempt: nat): nat
      requires p < |providers| && attempt > 0
      decreases Budget(p) + 1 - attempt
    {
      if attempt > Budget(p) then attempt - 1
      else if EndsProvider(p, attempt) then attempt
      else LastAttempt(p, attempt + 1)
    }

    function Attempts(p: nat, n: nat): seq<Slot> {
      if n == 0 then [] else Attempts(p, n - 1) + [Slot(p, n, Corrective(p, n))]
    }

    /** All requests the first `p` providers would receive if no reply were ever valid. */
    function Ladder(p: nat): seq<Slot>
      requires p <= |providers|
    {
      if p == 0 then [] else Ladder(p - 1) + Attempts(p - 1, LastAttempt(p - 1, 1))
    }

    function TotalBudget(p: nat): nat
      requires p <= |providers|
    {
      if p == 0 then 0 else TotalBudget(p - 1) + Budget(p - 1)
    }

    // ---------- What a list of requests adds up to ----------

    ghost predicate NoneValid(slots: seq<Slot>) {
      forall i :: 0 <= i < |slots| ==> Verdict(slots[i]).None?
    }

    /** One request's share: a completion costs its tokens whatever its text; anything but a valid reply is an error. */
    function Charge(bill: Bill, slot: Slot): Bill {
      match replies(slot.provider, slot.attempt)
      case ApiError(retryable) => bill.(errors := bill.errors + [ProviderError(retryable)])
      case Completed(c) =>
        Bill(if Analysis(c).None? then bill.errors + [Malformed] else bill.errors,
             bill.promptTokens + c.promptTokens, bill.completionTokens + c.completionTokens, bill.cost + cost(c))
    }

    function BillFor(slots: seq<Slot>): Bill {
      if slots == [] then Bill([], 0, 0, 0.0) else Charge(BillFor(slots[..|slots| - 1]), slots[|slots| - 1])
    }

    function Errors(slots: seq<Slot>): seq<Failure> {
      BillFor(slots).errors
    }

    // ---------- Sleeping ----------

    function Pause(attempt: nat): real
      requires attempt > 0
    {
      backoffBase * Pow2(attempt - 1) as real
    }

    /** The sleeps of providers that were given up on. */
    ghost predicate AreSleeps(slept: seq<real>)
      requires |slept| <= |providers|
    {
      forall p :: 0 <= p < |slept| ==> slept[p] == Slept(p, LastAttempt(p, 1))
    }

    /**
     * Time slept at provider `p` during its first `n` attempts: after a retryable error that is not the last
     * attempt.
     */
    function Slept(p: nat, n: nat): real
      requires p < |providers|
    {
      if n == 0 then 0.0
      else
        var reply := replies(p, n);
        Slept(p, n - 1) + (if reply.ApiError? && reply.retryable && n < Budget(p) then Pause(n) else 0.0)
    }
  }

  class LlmUsage {
    var provider: string
    var model: string
    var promptTokens: nat
    var completionTokens: nat
    var cost: real
    var attempts: nat
    var errors: seq<Failure>

    constructor ()
      ensures provider == "" && model == "" && promptTokens == 0 && completionTokens == 0
      ensures cost == 0.0 && attempts == 0 && errors == []
    {
      provider, model, promptTokens, completionTokens, cost, attempts, errors := "", "", 0, 0, 0.0, 0, [];
    }

    /** Every completion costs tokens, whether or not its text is usable. */
    method Add(c: Completion, price: real)
      modifies this
      ensures provider == c.provider && model == c.model
      ensures promptTokens == old(promptTokens) + c.promptTokens
      ensures completionTokens == old(completionTokens) + c.completionTokens
      ensures cost == old(cost) + price && attempts == old(attempts) && errors == old(errors)
    {
      provider, model := c.provider, c.model;
      promptTokens := promptTokens + c.promptTokens;
      completionTokens := completionTokens + c.completionTokens;
      cost := cost + price;
    }

    ghost function Totals(): Bill
      reads this
    {
      Bill(errors, promptTokens, completionTokens, cost)
    }

    /** The usage accounts for exactly these requests. */
    ghost predicate Accounts(setup: Setup, slots: seq<Slot>)
      reads this
    {
      attempts == |slots| && Totals() == setup.BillFor(slots)
    }
  }

  lemma EmptyBill(setup: Setup)
    ensures setup.BillFor([]) == Bill([], 0, 0, 0.0)
  {
  }

  lemma BillGrows(setup: Setup, slots: seq<Slot>, slot: Slot)
    ensures setup.BillFor(slots + [slot]) == setup.Charge(setup.BillFor(slots), slot)
  {
    assert (slots + [slot])[..|slots|] == slots;
  }

  /**
   * The retry loop at provider `p`, after the requests `before`. Without a valid reply every attempt of
   * the provider is spent; with one, the requests stop there.
   */
  method AskProvider(setup: Setup, p: nat, usage: LlmUsage, before: seq<Slot>)
    returns (result: Option<Analysis>, sent: seq<Slot>, slept: real)
    requires p < |setup.providers| && usage.Accounts(setup, before) && setup.NoneValid(before)
    modifies usage
    ensures usage.Accounts(setup, sent)
    ensures result.None? ==>
      && sent == before + setup.Attempts(p, setup.LastAttempt(p, 1)) && setup.NoneValid(sent)
      && slept == setup.Slept(p, setup.LastAttempt(p, 1))
    ensures result.Some? ==> sent != [] && var last := sent[|sent| - 1];
      && last.provider == p && 1 <= last.attempt <= setup.LastAttempt(p, 1)
      && sent == before + setup.Attempts(p, last.attempt) && setup.NoneValid(sent[..|sent| - 1])
      && result == setup.Verdict(last) && slept == setup.Slept(p, last.attempt - 1)
      && usage.provider == setup.replies(p, last.attempt).completion.provider
      && usage.model == setup.replies(p, last.attempt).completion.model
  {
    hide setup.BillFor, setup.Pause, setup.Attempts, setup.Slept, setup.Corrective, setup.LastAttempt, setup.NoneValid,
      setup.Budget;
    NothingAsked(setup, p, before);
    sent, slept := before, 0.0;
    var corrective, attempt := false, 1;
    while attempt <= setup.Budget(p)
      invariant usage.Accounts(setup, sent)
      invariant 1 <= attempt <= setup.Budget(p) + 1
      invariant sent == before + setup.Attempts(p, attempt - 1) && setup.NoneValid(sent)
      invariant corrective == setup.Corrective(p, attempt)
      invariant setup.LastAttempt(p, 1) == setup.LastAttempt(p, attempt)
      invariant slept == setup.Slept(p, attempt - 1)
      decreases setup.Budget(p) + 1 - attempt
    {
      usage.attempts := usage.attempts + 1;
      OneMoreAttempt(setup, p, attempt, before, sent);
      sent := sent + [Slot(p, attempt, corrective)];
      match setup.replies(p, attempt) {
        case ApiError(retryable) =>
          usage.errors := usage.errors + [ProviderError(retryable)];
          if !retryable {
            return None, sent, slept;
          }
          if attempt < setup.Budget(p) {
            slept := slept + setup.Pause(attempt);
          }
        case Completed(completion) =>
          usage.Add(completion, setup.cost(completion));
          var analysis := setup.Analysis(completion);
          if analysis.Some? {
            return analysis, sent, slept;
          }
          usage.errors := usage.errors + [Malformed];
          corrective := true;
      }
      attempt := attempt + 1;
    }
    LastAttemptBounds(setup, p, attempt);
    return None, sent, slept;
  }

  lemma NothingAsked(setup: Setup, p: nat, before: seq<Slot>)
    requires p < |setup.providers|
    ensures before + setup.Attempts(p, 0) == before && setup.Slept(p, 0) == 0.0 && !setup.Corrective(p, 1)
  {
  }

  /** What the next request adds to the requests, the bill and the sleep, and where it leaves the loop. */
  lemma OneMoreAttempt(setup: Setup, p: nat, attempt: nat, before: seq<Slot>, sent: seq<Slot>)
    requires p < |setup.providers| && 1 <= attempt <= setup.Budget(p)
    requires sent == before + setup.Attempts(p, attempt - 1) && setup.NoneValid(sent)
    ensures var slot := Slot(p, attempt, setup.Corrective(p, attempt));
      && sent + [slot] == before + setup.Attempts(p, attempt) && (sent + [slot])[..|sent|] == sent
      && (setup.Verdict(slot).None? ==> setup.NoneValid(sent + [slot]))
      && setup.BillFor(sent + [slot]) == setup.Charge(setup.BillFor(sent), slot)
    ensures setup.Corrective(p, attempt + 1) == (setup.IsMalformed(p, attempt) || setup.Corrective(p, attempt))
    ensures var reply := setup.replies(p, attempt);
      setup.Slept(p, attempt) == setup.Slept(p, attempt - 1)
        + if reply.ApiError? && reply.retryable && attempt < setup.Budget(p) then setup.Pause(attempt) else 0.0
    ensures setup.LastAttempt(p, attempt) == if setup.EndsProvider(p, attempt) then attempt
      else setup.LastAttempt(p, attempt + 1)
    ensures attempt <= setup.LastAttempt(p, attempt)
  {
    var slot := Slot(p, attempt, setup.Corrective(p, attempt));
    LastAttemptBounds(setup, p, attempt);
    BillGrows(setup, sent, slot);
    assert sent + [slot] == before + (setup.Attempts(p, attempt - 1) + [slot]);
    hide setup.Verdict;
  }

  /**
   * The ladder. The requests sent are the flat ladder up to and including its first valid reply, or all of
   * it; the usage accounts for exactly those requests; and `slept` lists the sleep at each provider reached.
   */
  method Analyze(setup: Setup) returns (result: Option<Analysis>, usage: LlmUsage, sent: seq<Slot>, slept: seq<real>)
    ensures fresh(usage) && usage.Accounts(setup, sent)
    ensures result.Some? ==>
      && sent != [] && sent <= setup.Ladder(|setup.providers|)
      && setup.NoneValid(sent[..|sent| - 1]) && result == setup.Verdict(sent[|sent| - 1])
    ensures result.None? ==> sent == setup.Ladder(|setup.providers|) && setup.NoneValid(sent)
    ensures result.None? ==> |slept| == |setup.providers| && setup.AreSleeps(slept)
    ensures result.Some? ==> var last := sent[|sent| - 1];
      && 1 <= |slept| == last.provider + 1 <= |setup.providers|
         && 1 <= last.attempt <= setup.LastAttempt(last.provider, 1)
      && setup.AreSleeps(slept[..last.provider]) && slept[last.provider] == setup.Slept(last.provider, last.attempt - 1)
  {
    hide setup.BillFor, setup.Slept, setup.LastAttempt, setup.Verdict, setup.Attempts;
    usage := new LlmUsage();
    result, sent, slept := None, [], [];
    EmptyBill(setup);
    for p := 0 to |setup.providers|
      invariant fresh(usage) && usage.Accounts(setup, sent) && result.None?
      invariant sent == setup.Ladder(p) && setup.NoneValid(sent) && |slept| == p && setup.AreSleeps(slept)
    {
      var pause;
      result, sent, pause := AskProvider(setup, p, usage, sent);
      slept := slept + [pause];
      assert slept[..p] == slept[..|slept| - 1];
      if result.Some? {
        LaddersExtend(setup, p, sent[|sent| - 1].attempt);
        return;
      }
    }
  }

  /** What has been sent at a provider is part of the whole ladder. */
  lemma LaddersExtend(setup: Setup, p: nat, attempt: nat)
    requires p < |setup.providers| && 1 <= attempt <= setup.LastAttempt(p, 1)
    ensures setup.Ladder(p) + setup.Attempts(p, attempt) <= setup.Ladder(|setup.providers|)
  {
    AttemptsGrow(setup, p, attempt, setup.LastAttempt(p, 1));
    LadderGrows(setup, p + 1, |setup.providers|);
  }

  lemma {:induction false} AttemptsGrow(setup: Setup, p: nat, m: nat, n: nat)
    requires m <= n
    ensures setup.Attempts(p, m) <= setup.Attempts(p, n)
  {
    if m < n {
      AttemptsGrow(setup, p, m, n - 1);
    }
  }

  lemma {:induction false} LadderGrows(setup: Setup, p: nat, q: nat)
    requires p <= q <= |setup.providers|
    ensures setup.Ladder(p) <= setup.Ladder(q)
  {
    if p < q {
      LadderGrows(setup, p, q - 1);
    }
  }

  // ---------- The flat scan and the bounds ----------

  /** The reference: the first valid reply in a flat list of requests. */
  function FlatScan(setup: Setup, slots: seq<Slot>): Option<Analysis> {
    if slots == [] then None
    else if setup.Verdict(slots[0]).Some? then setup.Verdict(slots[0])
    else FlatScan(setup, slots[1..])
  }

  lemma {:induction false} ScanSkipsFailures(setup: Setup, failed: seq<Slot>, rest: seq<Slot>)
    requires setup.NoneValid(failed)
    ensures FlatScan(setup, failed + rest) == FlatScan(setup, rest)
  {
    if failed == [] {
      assert failed + rest == rest;
    } else {
      ScanSkipsFailures(setup, failed[1..], rest);
      assert (failed + rest)[1..] == failed[1..] + rest;
    }
  }

  /** What `Analyze` promises about its requests makes it a refinement of the flat scan of the ladder. */
  lemma LadderRefinesFlatScan(setup: Setup, result: Option<Analysis>, sent: seq<Slot>)
    requires result.Some? ==>
      && sent != [] && sent <= setup.Ladder(|setup.providers|)
      && setup.NoneValid(sent[..|sent| - 1]) && result == setup.Verdict(sent[|sent| - 1])
    requires result.None? ==> sent == setup.Ladder(|setup.providers|) && setup.NoneValid(sent)
    ensures result == FlatScan(setup, setup.Ladder(|setup.providers|))
    ensures |setup.Errors(sent)| == if result.Some? then |sent| - 1 else |sent|
    ensures |sent| <= setup.TotalBudget(|setup.providers|)
  {
    var ladder := setup.Ladder(|setup.providers|);
    LadderWithinBudget(setup, |setup.providers|);
    if result.None? {
      ScanSkipsFailures(setup, ladder, []);
      assert ladder + [] == ladder;
      AllFail(setup, sent);
    } else {
      var failed, rest := sent[..|sent| - 1], ladder[|sent| - 1..];
      assert ladder == failed + rest && rest[0] == sent[|sent| - 1];
      ScanSkipsFailures(setup, failed, rest);
      AllFail(setup, failed);
    }
  }

  lemma {:induction false} AllFail(setup: Setup, slots: seq<Slot>)
    requires setup.NoneValid(slots)
    ensures |setup.Errors(slots)| == |slots|
  {
    if slots != [] {
      AllFail(setup, slots[..|slots| - 1]);
      assert setup.Verdict(slots[|slots| - 1]).None?;
    }
  }

  lemma {:induction false} LadderWithinBudget(setup: Setup, p: nat)
    requires p <= |setup.providers|
    ensures |setup.Ladder(p)| <= setup.TotalBudget(p)
  {
    if p > 0 {
      LadderWithinBudget(setup, p - 1);
      LastAttemptBounds(setup, p - 1, 1);
      AttemptsLength(setup, p - 1, setup.LastAttempt(p - 1, 1));
    }
  }

  lemma {:induction false} LastAttemptBounds(setup: Setup, p: nat, attempt: nat)
    requires p < |setup.providers| && 1 <= attempt <= setup.Budget(p) + 1
    ensures attempt - 1 <= setup.LastAttempt(p, attempt) <= setup.Budget(p)
    ensures attempt <= setup.Budget(p) ==> attempt <= setup.LastAttempt(p, attempt)
    decreases setup.Budget(p) + 1 - attempt
  {
    if attempt <= setup.Budget(p) && !setup.EndsProvider(p, attempt) {
      LastAttemptBounds(setup, p, attempt + 1);
    }
  }

  lemma {:induction false} AttemptsLength(setup: Setup, p: nat, n: nat)
    ensures |setup.Attempts(p, n)| == n
  {
    if n > 0 {
      AttemptsLength(setup, p, n - 1);
    }
  }

  lemma {:induction false} SleptSoFar(setup: Setup, p: nat, n: nat)
    requires p < |setup.providers| && n <= setup.Budget(p) && setup.backoffBase >= 0.0
    ensures n < setup.Budget(p) ==> 0.0 <= setup.Slept(p, n) <= setup.backoffBase * (Pow2(n) - 1) as real
    ensures n == setup.Budget(p) > 0 ==> 0.0 <= setup.Slept(p, n) <= setup.backoffBase * (Pow2(n - 1) - 1) as real
  {
    if n > 0 {
      SleptSoFar(setup, p, n - 1);
      Doubling(setup.backoffBase, n);
    }
  }

  lemma {:induction false} SleptGrows(setup: Setup, p: nat, m: nat, n: nat)
    requires p < |setup.providers| && m <= n && setup.backoffBase >= 0.0
    ensures setup.Slept(p, m) <= setup.Slept(p, n)
  {
    if m < n {
      SleptGrows(setup, p, m, n - 1);
      Doubling(setup.backoffBase, n);
    }
  }

  /** One provider sleeps at most `base * (2**(n - 1) - 1)` for a budget of `n` attempts, however it answers. */
  lemma SleepBound(setup: Setup, p: nat, attempts: nat)
    requires p < |setup.providers| && attempts <= setup.Budget(p) && setup.backoffBase >= 0.0 && setup.Budget(p) > 0
    ensures 0.0 <= setup.Slept(p, attempts) <= setup.backoffBase * (Pow2(setup.Budget(p) - 1) - 1) as real
  {
    hide Setup.Slept;
    SleptSoFar(setup, p, setup.Budget(p));
    SleptGrows(setup, p, attempts, setup.Budget(p));
    SleptGrows(setup, p, 0, attempts);
    NoSleepYet(setup, p);
  }

  lemma NoSleepYet(setup: Setup, p: nat)
    requires p < |setup.providers|
    ensures setup.Slept(p, 0) == 0.0
  {
  }

  lemma Doubling(base: real, n: nat)
    requires base >= 0.0 && n > 0
    ensures 0.0 <= base * Pow2(n - 1) as real
    ensures base * (Pow2(n - 1) - 1) as real + base * Pow2(n - 1) as real == base * (Pow2(n) - 1) as real
  {
  }

  // ---------- What the ladder consists of ----------

  /**
   * How long a provider is asked: until the error that no retry can help, else to the end of its attempts,
   * which are one for a local model behind or before others and `max_retries` for any other provider.
   */
  lemma LastAttemptMeans(setup: Setup, p: nat)
    requires p < |setup.providers|
    ensures var n := setup.LastAttempt(p, 1);
      var attempts := if setup.providers[p] == "ollama" && |setup.providers| > 1 then 1 else setup.maxRetries;
      && (attempts <= 0 ==> n == 0)
      && (attempts > 0 ==> 1 <= n <= attempts && (n < attempts ==> setup.replies(p, n) == ApiError(false)))
      && forall k: nat :: 1 <= k < n ==> setup.replies(p, k) != ApiError(false)
  {
    LastAttemptBounds(setup, p, 1);
    LastAttemptEnds(setup, p, 1);
  }

  lemma {:induction false} LastAttemptEnds(setup: Setup, p: nat, attempt: nat)
    requires p < |setup.providers| && 1 <= attempt <= setup.Budget(p) + 1
    ensures var n := setup.LastAttempt(p, attempt);
      && (attempt <= n < setup.Budget(p) ==> setup.replies(p, n) == ApiError(false))
      && forall k: nat :: attempt <= k < n ==> setup.replies(p, k) != ApiError(false)
    decreases setup.Budget(p) + 1 - attempt
  {
    if attempt <= setup.Budget(p) && !setup.EndsProvider(p, attempt) {
      LastAttemptBounds(setup, p, attempt + 1);
      LastAttemptEnds(setup, p, attempt + 1);
    }
  }

  /** A request carries the corrective note exactly when an earlier reply of the provider was no valid analysis. */
  lemma {:induction false} CorrectiveMeans(setup: Setup, p: nat, attempt: nat)
    ensures setup.Corrective(p, attempt) <==>
      exists k: nat :: 1 <= k < attempt && setup.replies(p, k).Completed? && setup.Verdict(Slot(p, k, false)).None?
  {
    if attempt > 1 {
      CorrectiveMeans(setup, p, attempt - 1);
      var before := setup.replies(p, attempt - 1);
      assert setup.IsMalformed(p, attempt - 1) <==>
        before.Completed? && setup.Verdict(Slot(p, attempt - 1, false)).None?;
    }
  }

  /** Every completion costs its tokens, valid or not, and every request without a valid reply is one error. */
  lemma EveryRequestIsBilled(setup: Setup, slots: seq<Slot>, slot: Slot)
    ensures setup.BillFor([]) == Bill([], 0, 0, 0.0)
    ensures var was, now, reply := setup.BillFor(slots), setup.BillFor(slots + [slot]),
      setup.replies(slot.provider, slot.attempt);
      && (reply.ApiError? ==> now == was.(errors := was.errors + [ProviderError(reply.retryable)]))
      && (reply.Completed? ==>
           && now.promptTokens == was.promptTokens + reply.completion.promptTokens
           && now.completionTokens == was.completionTokens + reply.completion.completionTokens
           && now.cost == was.cost + setup.cost(reply.completion)
           && now.errors == was.errors + if setup.Verdict(slot).None? then [Malformed] else [])
  {
    BillGrows(setup, slots, slot);
  }

  /** The requests of a provider are numbered from one, and one provider follows the other. */
  lemma {:induction false} AttemptsMean(setup: Setup, p: nat, n: nat)
    ensures |setup.Attempts(p, n)| == n
    ensures forall i :: 0 <= i < n ==> setup.Attempts(p, n)[i] == Slot(p, i + 1, setup.Corrective(p, i + 1))
  {
    if n > 0 {
      AttemptsMean(setup, p, n - 1);
    }
  }

  /** The ladder lists every request: provider by provider, each from its first attempt to its last. */
  lemma {:induction false} LadderMeans(setup: Setup, p: nat)
    requires p <= |setup.providers|
    ensures forall slot: Slot :: slot in setup.Ladder(p) <==>
      && slot.provider < p && 1 <= slot.attempt <= setup.LastAttempt(slot.provider, 1)
      && slot.corrective == setup.Corrective(slot.provider, slot.attempt)
  {
    if p > 0 {
      LadderMeans(setup, p - 1);
      var n := setup.LastAttempt(p - 1, 1);
      AttemptsMean(setup, p - 1, n);
      hide setup.Attempts, setup.LastAttempt, setup.Corrective;
      var last := setup.Attempts(p - 1, n);
      forall slot: Slot ensures slot in last <==>
        slot.provider == p - 1 && 1 <= slot.attempt <= n && slot.corrective == setup.Corrective(p - 1, slot.attempt)
      {
        if slot.provider == p - 1 && 1 <= slot.attempt <= n
          && slot.corrective == setup.Corrective(p - 1, slot.attempt) {
          assert last[slot.attempt - 1] == slot;
        }
      }
    }
  }

  /** It lists them in the order of providers and attempts, hence each once. */
  lemma {:induction false} LadderIsOrdered(setup: Setup, p: nat, i: nat, j: nat)
    requires p <= |setup.providers| && i < j < |setup.Ladder(p)|
    ensures var a, b := setup.Ladder(p)[i], setup.Ladder(p)[j];
      a.provider < b.provider || (a.provider == b.provider && a.attempt < b.attempt)
  {
    if p > 0 {
      hide setup.Attempts, setup.LastAttempt, setup.Corrective;
      var before, n := setup.Ladder(p - 1), setup.LastAttempt(p - 1, 1);
      var last := setup.Attempts(p - 1, n);
      assert setup.Ladder(p) == before + last;
      hide setup.Ladder;
      AttemptsMean(setup, p - 1, n);
      if j < |before| {
        LadderIsOrdered(setup, p - 1, i, j);
      } else if i < |before| {
        LadderMeans(setup, p - 1);
        assert before[i] in before;
      }
    }
  }

  /** Empty replies are never valid, whatever the recovery would make of them. */
  lemma EmptyRepliesAreMalformed(setup: Setup, slot: Slot, c: Completion)
    requires setup.replies(slot.provider, slot.attempt) == Completed(c)
    ensures setup.strip(c.text) in {"", "{}", "null", "[]"} ==> setup.Verdict(slot).None?
    ensures setup.strip(c.text) !in {"", "{}", "null", "[]"} ==>
      setup.Verdict(slot) == setup.recover(setup.strip(c.text))
  {
  }

  /** The sleep bound is reached: a provider that fails every time, retryably, costs exactly that much. */
  lemma {:induction false} SleepBoundIsReached(setup: Setup, p: nat, n: nat)
    requires p < |setup.providers| && n <= setup.Budget(p)
    requires forall k: nat :: 1 <= k <= n ==> setup.replies(p, k) == ApiError(true)
    ensures n < setup.Budget(p) ==> setup.Slept(p, n) == setup.backoffBase * (Pow2(n) - 1) as real
    ensures n == setup.Budget(p) > 0 ==> setup.Slept(p, n) == setup.backoffBase * (Pow2(n - 1) - 1) as real
  {
    if n > 0 {
      SleepBoundIsReached(setup, p, n - 1);
      Double(setup.backoffBase, n);
    }
  }

  lemma Double(base: real, n: nat)
    requires n > 0
    ensures base * (Pow2(n - 1) - 1) as real + base * Pow2(n - 1) as real == base * (Pow2(n) - 1) as real
  {
  }
}
