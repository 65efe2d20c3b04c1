# A verified model of the news crawler's stateful core

This Dafny 4.11 project models the parts of the crawler whose correctness rests on small state machines hidden
behind SQL, Lua and Redis calls, and proves what those machines guarantee. Tables and keys are explicit state
(fields of classes, maps and sequences); each method of the program is a method, and where several processes
interleave, a relation over single steps that the methods are proved to implement.

`dafny verify dfyconfig.toml` verifies everything. Nothing here was executed; all statements are proved for all inputs, all
runs and all interleavings within the hypotheses written in the contracts.

| file | what it models |
|---|---|
| `TokenBucket.dfy` | the per-domain token bucket in Redis: rate bound under arbitrary clocks, tightness, invisible expiry |
| `Politeness.dfy` | the wait loop in front of every crawl request, with other workers calling meanwhile |
| `SimHash.dfy` | 64-bit SimHash, its four bands and signed storage; bit strings of Python and Postgres integers |
| `Dedup.dfy` | exact and banded near-duplicate lookup against a full scan |
| `Articles.dfy` | article persistence: version history and separation of the corpus over runs |
| `Frontier.dfy` | retry backoff; the URL frontier: rows, claims under row locks, all operations |
| `FrontierSafety.dfy` | the invariant of every reachable state |
| `FrontierLeases.dfy` | who holds a row and for how long: lease discipline, its exact limit, one lease at a time |
| `FrontierRetries.dfy` | what the retry count counts, and when a row is given up |
| `FrontierWork.dfy` | how much work a frontier can generate |
| `Discovery.dfy` | batch discovery and the upsert |
| `Queue.dfy` | the stream queue, command by command, and the operations made of the commands |
| `QueueSafety.dfy` | conservation, single republication, safe claims and the retry bound, over every interleaving |
| `Retention.dfy` | batch purging, its statistics tables, and the balance of created, live and deleted articles |
| `LlmLadder.dfy` | provider fallback with retries: refinement of a flat scan, billing, sleeping |
| `Text.dfy` | splitting at a separator and joining again |
| `Wrappers.dfy` | `Option` and `Result` |

## Promises that hold only conditionally

Each of these is a lemma that gives the exact condition or a concrete failing run.

- The banded lookup can miss a duplicate when its candidate query is cut off at 500 rows: exactly when at least 500
  matching rows lie beyond the threshold (`Dedup.LimitHidesDuplicates`, with such corpora in `Dedup.CrowdHidesDuplicate`).
- The number `add_urls` returns is the growth of the table exactly when no known URL of the batch was first seen at
  the instant of the call (`Discovery.ReportedIsGrowth`, with such a run in `Discovery.CountedTwice`).
- Rows that are still to be tried have retries left in the literal sense, `retry_count < max_retries`, exactly for
  `max_retries >= 1` (`FrontierSafety.RetriesLeftNeedOne`); with zero, a row is tried once, and all other results hold as well.
- The purge statistics agree after a run exactly when it completes or fails before tallying a batch: a tallied batch that is
  rolled back, or one committed just before an exception, sets them apart (`Retention.RetentionDb.PurgeExpiredArticles`).
- Outcomes are applied whoever reports them. A report is sure to hit its worker's own lease exactly up to the expiry
  (`FrontierLeases.LeaseLastsUntilExpiry`); beyond it, it can end the lease of the next owner
  (`FrontierLeases.LateReportTakesLease`, and a run from the empty table in `FrontierLeases.LateReportRun`).
- Taking over a stale message conserves jobs exactly when its previous owner no longer has it
  (`QueueSafety.ClaimConserves`; what happens otherwise is `QueueSafety.LiveClaimDuplicates`).

Where documentation and code disagree the model follows the code: `docs/crawl-lifecycle.md` describes an automatic
recrawl of successful URLs and rows in the states "discovered" and "crawling"; no frontier method produces either, and
the invariant proves that those two states never occur.

## Model

| member | source | states |
|---|---|---|
| `TokenBucket.DomainRateLimiter.Acquire` | apps/api/newscrawl_api/coordination/ratelimit.py:14-42 | one run of the script: an expired key reads as a full bucket, the refill is capped at the burst, a token is taken exactly when a whole one is there, the wait is the time to the next whole token, and only the key of this domain is written |
| `TokenBucket.DomainRateLimiter.WaitTime` | apps/api/newscrawl_api/coordination/ratelimit.py:66-77 | peeking (which caps at 1, not at the burst) reports exactly the wait `acquire` would answer at that instant, and zero exactly when it would allow; nothing is consumed |
| `TokenBucket.TokensStep` | apps/api/newscrawl_api/coordination/ratelimit.py:28-39 | the potential `tokens - rate * ts` never rises, and falls by one per grant, even when the clock runs backwards |
| `TokenBucket.TokensRun` | apps/api/newscrawl_api/coordination/ratelimit.py:20-41 | over any call sequence on a live key, tokens left plus tokens granted stay within the burst plus what the elapsed clock is worth |
| `TokenBucket.RateBound` | apps/api/newscrawl_api/coordination/ratelimit.py:1-6 | the politeness promise: up to any granted call, at most `burst + rate * elapsed` grants, for every sequence of worker clocks |
| `TokenBucket.RateBoundIsTight` | apps/api/newscrawl_api/coordination/ratelimit.py:28-37 | a schedule that keeps the key live is granted every call, and from the `burst`-th call on the grants equal `burst + rate * elapsed` at every call, so no smaller bound is true |
| `TokenBucket.TtlCoversRefill` | apps/api/newscrawl_api/coordination/ratelimit.py:40 | the expiry outlasts a complete refill by a minute, and by less than a second more |
| `TokenBucket.ExpiredIsFull` | apps/api/newscrawl_api/coordination/ratelimit.py:20-40 | a key that has expired would have been full again, so losing it changes no token count |
| `TokenBucket.SameKey` | apps/api/newscrawl_api/coordination/ratelimit.py:20-41 | with one nondecreasing clock, a run with expiry keeps the same key as a run on a server that never drops keys |
| `TokenBucket.ExpiryIsInvisible` | apps/api/newscrawl_api/coordination/ratelimit.py:20-41 | hence every call of every such run gets the answer it would get if keys lived for ever |
| `TokenBucket.RateBoundOnOneClock` | apps/api/newscrawl_api/coordination/ratelimit.py:1-6 | the rate bound with no hypothesis on the key: on one clock, over idle times and expiries alike, the grants of every run stay within `burst + rate * elapsed` |
| `TokenBucket.WaitIsExact` | apps/api/newscrawl_api/coordination/ratelimit.py:36 | after a denial, with nobody else calling, a later call is allowed if and only if the advertised wait has passed |
| `Politeness.AcquireOnTime` | apps/api/newscrawl_api/coordination/ratelimit.py:50-64 | a call on the shared clock allows exactly when the level is at least one, and lowers the level by what it grants |
| `Politeness.LevelRises` | apps/api/newscrawl_api/coordination/ratelimit.py:28 | between calls the level rises with the clock up to the burst, across an expiry too |
| `Politeness.OthersCall` | apps/crawler/newscrawl_crawler/middlewares.py:57 | grants to other workers during a sleep are paid for by the level and the time that passed |
| `Politeness.Sleep` | apps/crawler/newscrawl_crawler/middlewares.py:57-58 | a sleep lasts at least what was asked; unless somebody else was granted a token, the level afterwards is the old level plus the refill, capped |
| `Politeness.ProcessRequest` | apps/crawler/newscrawl_crawler/middlewares.py:40-58 | a request sleeps at most 30 s in total; when nobody else is granted a token it sleeps exactly the advertised wait, up to the 30 s, and goes through on its second call if that suffices; in any case it sleeps no longer than its own token and those granted to others take to come back, and calls at most twice plus once per such grant (fewer than `3 + 30 * rate` times when sleeps end on time); it gives up only after the full 30 s; the wait is always positive, so the 0.1 s fallback is dead code |
| `Bits.LowBitsIsModulo` | packages/crawler-utils/newscrawl_crawler_utils/simhash.py:66 | masking the low bits of any integer, negative ones included, is the remainder modulo a power of two |
| `Bits.LowBitsAgree` | packages/crawler-utils/newscrawl_crawler_utils/simhash.py:59-66 | two integers agree under a mask exactly when no masked bit differs |
| `Bits.DifferingCounts` | packages/crawler-utils/newscrawl_crawler_utils/simhash.py:59-60 | the distance is the number of positions at which the binary digits differ |
| `SimHash.OneWordEdit` | packages/crawler-utils/newscrawl_crawler_utils/simhash.py:26-31 | replacing one word changes at most `shingle_size` shingles and not their number |
| `SimHash.FeaturesAreWindows` | packages/crawler-utils/newscrawl_crawler_utils/simhash.py:26-31 | split at spaces, the features are the windows of `shingle_size` consecutive words in order, all of them; a shorter text is one feature |
| `SimHash.SimHash64` | packages/crawler-utils/newscrawl_crawler_utils/simhash.py:38-56 | the voting loops compute the 64-bit number whose bits are the strict majorities of the feature hashes; empty text gives 0 |
| `SimHash.HashIsMajority` | packages/crawler-utils/newscrawl_crawler_utils/simhash.py:46-56 | a digit of the hash is one exactly when more than half of the features have a one there |
| `SimHash.HashIsDetermined` | packages/crawler-utils/newscrawl_crawler_utils/simhash.py:46-56 | that property determines the number: no other value has those majorities |
| `SimHash.VotesDrift` | packages/crawler-utils/newscrawl_crawler_utils/simhash.py:46-50 | changing `k` features moves every counter by at most `2k` |
| `SimHash.Locality` | packages/crawler-utils/newscrawl_crawler_utils/simhash.py:46-56 | so the hash moves by at most the number of counters within `(-2k, 2k]` |
| `SimHash.OneWordLocality` | packages/crawler-utils/newscrawl_crawler_utils/simhash.py:1-5 | any one-word edit of a text moves its hash by at most the counters two shingles can flip |
| `SimHash.BandsAgree` | packages/crawler-utils/newscrawl_crawler_utils/simhash.py:63-66 | two numbers share a band exactly when none of its 16 bits differs |
| `SimHash.BandIsDigit` | packages/crawler-utils/newscrawl_crawler_utils/simhash.py:63-66 | band `i` is the `i`-th digit to the base 65536, the lowest first, of negative numbers too |
| `SimHash.NearHashesShareABand` | packages/crawler-utils/newscrawl_crawler_utils/simhash.py:7-9 | pigeonhole: hashes at most three bits apart agree on one of the four bands |
| `SimHash.SignedStorageIsFaithful` | packages/crawler-utils/newscrawl_crawler_utils/simhash.py:69-77 | storing as a signed 64-bit integer and reading back is the identity, keeps distances, and the arithmetic shift on the signed column extracts the same bands |
| `SimHash.UnsignedIsFaithful` | packages/crawler-utils/newscrawl_crawler_utils/simhash.py:59-77 | masking to 64 bits changes no distance |
| `Dedup.NearRowsMatch` | apps/processor/newscrawl_processor/dedup.py:94-107 | every stored row within three bits satisfies the SQL band filter on the signed column |
| `Dedup.FilterComparesDigits` | apps/processor/newscrawl_processor/dedup.py:94-107 | the SQL filter matches a stored value exactly when one of its four 16-bit digits is that of the query |
| `Dedup.NearMeans` | apps/processor/newscrawl_processor/dedup.py:104-118 | a row is near when it is stored with a hash, is not the excluded one, and differs from the query in at most `threshold` of the 64 bits |
| `Dedup.Scan` | apps/processor/newscrawl_processor/dedup.py:113-122 | the candidate loop keeps a closest row within the threshold and logs every gray row once with its distance |
| `Dedup.SortedIsASort` | apps/processor/newscrawl_processor/dedup.py:131 | ordering the gray rows keeps their multiset and sorts by distance |
| `Dedup.FindNear` | apps/processor/newscrawl_processor/dedup.py:87-132 | a reported row is within the threshold and at the reported distance; with an uncut answer it reports a duplicate if and only if a scan of all rows finds one, at minimum distance; otherwise at most ten gray rows, closest first, none closer left out |
| `Dedup.CompleteLookup` | apps/processor/newscrawl_processor/dedup.py:104-117 | with at most 500 matching rows, the answer contains every row within the threshold |
| `Dedup.LimitHidesDuplicates` | apps/processor/newscrawl_processor/dedup.py:108 | when a duplicate exists, every possible answer shows one if and only if fewer than 500 matching rows lie beyond the threshold |
| `Dedup.CrowdHidesDuplicate` | apps/processor/newscrawl_processor/dedup.py:104-117 | such corpora exist: next to rows four bits away that share its bands, an exact copy can stay unseen if and only if there are at least 500 of them |
| `Dedup.FindDuplicate` | apps/processor/newscrawl_processor/dedup.py:59-85 | what a verdict means: the exact stage decides exactly when an equal hash is stored, the near stage never speaks for a zero hash, and silence on an uncut query means no row is near |
| `Dedup.OneWordEditIsCaught` | apps/processor/newscrawl_processor/dedup.py:59-138 | replace any one word of a stored text: if no more of its tallies are fragile than the threshold allows, an uncut lookup of the edited text reports a duplicate |
| `Articles.ArticleService.Persist` | apps/processor/newscrawl_processor/articles.py:38-93 | each call is one step of create, update, unchanged or duplicate, and keeps the whole version history true; a created row takes every field from its extraction, and unchanged and duplicate calls change nothing |
| `Articles.ArticleService.UpdateExisting` | apps/processor/newscrawl_processor/articles.py:95-136 | equal content hash: nothing changes; otherwise every field, the hashes and the version move together, and the new snapshot carries the difference to the old row |
| `Articles.UpdateMeans` | apps/processor/newscrawl_processor/articles.py:103-132 | an update writes every field of the one row from the extraction, raises its version by one, adds that one version, and flags metadata exactly when subtitle, summary, tags or images changed |
| `Articles.CreateKeepsHistory` | apps/processor/newscrawl_processor/articles.py:64-93 | a new article starts a history of one version and disturbs no other |
| `Articles.UpdateKeepsHistory` | apps/processor/newscrawl_processor/articles.py:117-132 | an update extends one history by one true version and leaves all others alone |
| `Articles.NextVersionIsTrue` | apps/processor/newscrawl_processor/articles.py:103-132 | the flags of a new version are the difference of adjacent snapshots, and one of title, body, author, publication time changed |
| `Articles.HistoryOverRuns` | apps/processor/newscrawl_processor/articles.py:86-151 | after any run each article has versions exactly 1..current, the last equals the live row, neighbours differ in content hash, and URLs are unique |
| `Articles.AdmittedArticleIsApart` | apps/processor/newscrawl_processor/articles.py:53-64 | an article admitted as new has a new content hash and, where hashes are nonzero, is beyond the threshold from every stored one |
| `Articles.SeparatedCorpus` | apps/processor/newscrawl_processor/articles.py:49-93 | in every run on fresh URLs with uncut queries the stored hashes form a code of minimum distance threshold + 1 |
| `Backoff.ComputeBackoffSeconds` | packages/crawler-utils/newscrawl_crawler_utils/backoff.py:18-22 | the jittered delay is within 20 % of the capped exponential one |
| `Backoff.JitterReachesItsEnds` | packages/crawler-utils/newscrawl_crawler_utils/backoff.py:18-22 | the jitter goes to both ends of that range, and counts below one are treated as one |
| `Backoff.DelayDoubles` | packages/crawler-utils/newscrawl_crawler_utils/backoff.py:13-20 | the delay starts at 60 s and doubles with each retry until 6 hours |
| `Frontier.UrlTable.LockDueRows` | apps/api/newscrawl_api/services/frontier.py:178-188 | only due rows of the source and job asked for are locked, never one that another claim holds, and one is left out only for `limit` rows of higher priority, or of the same and due no later |
| `Frontier.UrlTable.CommitClaim` | apps/api/newscrawl_api/services/frontier.py:194-204 | row by row: exactly the locked rows become leased, with the expiry counted from the time of the query, and no other row changes |
| `Frontier.UrlTable.ExtendLeaseOf` | apps/api/newscrawl_api/services/frontier.py:206-212 | only the lease owner moves the expiry, and the answer says whether it did |
| `Frontier.UrlTable.ReleaseUrl` | apps/api/newscrawl_api/services/frontier.py:214-224 | only the lease owner returns a row to the queue |
| `Frontier.UrlTable.RecordSuccess` | apps/api/newscrawl_api/services/frontier.py:228-268 | whoever reports, the row is freed with no retries and comes up again after the hub interval for homepages, sections and feeds and the article interval for the rest; the answer says whether the content changed |
| `Frontier.UrlTable.RecordNotModified` | apps/api/newscrawl_api/services/frontier.py:270-282 | the row is freed and rescheduled, keeping its content hash and failure category |
| `Frontier.UrlTable.RecordFailure` | apps/api/newscrawl_api/services/frontier.py:284-319 | exactly one more retry is counted; a robots refusal blocks, `max_retries` fails, otherwise the row waits the jittered backoff of the new count, four times as long for 403 and 429; no other row or field changes and the answer is the stored status |
| `Frontier.UrlTable.SkipUrl` | apps/api/newscrawl_api/services/frontier.py:321-331 | the row is skipped and freed, its schedule untouched |
| `Frontier.UrlTable.ReapExpiredLeases` | apps/api/newscrawl_api/services/frontier.py:335-349 | row by row: exactly the rows with an expired lease return to the queue with their schedule and retry count, and the answer is the size of that set |
| `Frontier.UrlTable.RequeueFailedUrls` | apps/api/newscrawl_api/services/frontier.py:351-365 | row by row: exactly the failed rows of the source become due for the job with a fresh retry count, and the answer is the size of that set |
| `Frontier.BatchExists` | apps/api/newscrawl_api/services/frontier.py:180-188 | a batch of the first `limit` rows can be cut from any due set, so the claim query is never without an answer |
| `FrontierSafety.NewRowsShape` | apps/api/newscrawl_api/services/frontier.py:139-159 | the upsert inserts only hashes not stored yet, each once, each from a link of the batch |
| `FrontierSafety.StepKeepsInv` | apps/api/newscrawl_api/services/frontier.py:80-365 | for every configuration, every operation, late reports included, keeps: lease fields set exactly on leased rows; queued, retrying and leased rows scheduled and below the attempt limit, which is `max_retries` but at least one; failed rows at it and unscheduled; retries not before their backoff; hashes unique; running claims disjoint and on due rows |
| `FrontierSafety.RetriesLeftNeedOne` | apps/api/newscrawl_api/services/frontier.py:310 | scheduled rows are below `max_retries` itself in every reachable state if and only if `max_retries` is at least one |
| `FrontierSafety.InvOverRuns` | apps/api/newscrawl_api/services/frontier.py:80-365 | so it holds in every reachable state of every interleaving |
| `FrontierSafety.NoEarlyRetry` | apps/api/newscrawl_api/services/frontier.py:314-318 | in every run, a claim that picks up a failed row comes at least the minimum backoff after the failure report that scheduled it, four times as long when that report was about being blocked |
| `FrontierSafety.LockedRowsUntouched` | apps/api/newscrawl_api/services/frontier.py:187 | while a claim holds a row lock no other operation changes the row |
| `FrontierRetries.RetryCountCountsFailures` | apps/api/newscrawl_api/services/frontier.py:228-365 | in every run, late reports included, the retry count of a row is the number of failure reports on it since it was inserted, requeued or last succeeded |
| `FrontierRetries.GivenUpAfterLimit` | apps/api/newscrawl_api/services/frontier.py:299-319 | a row that was still to be tried is given up by a failure report if and only if that was its `max_retries`-th such failure (the first, if that is less than one) and no robots refusal |
| `FrontierLeases.StepKeepsHeld` | apps/api/newscrawl_api/services/frontier.py:194-224 | what workers remember about their unexpired leases stays true under every step |
| `FrontierLeases.HeldOverRuns` | apps/api/newscrawl_api/services/frontier.py:194-224 | and therefore in every reachable state of a disciplined run |
| `FrontierLeases.OutcomesLandOnOwnLease` | apps/api/newscrawl_api/services/frontier.py:226-331 | if workers report, extend and release only before the expiry they know, every such call hits a row still leased to them, in every interleaving |
| `FrontierLeases.LeaseLastsUntilExpiry` | apps/api/newscrawl_api/services/frontier.py:194-204 | at any point of any disciplined run, a live lease is sure to be its worker's own at `now`, whatever the others do meanwhile, if and only if `now` is not past its expiry |
| `FrontierLeases.LateReportTakesLease` | apps/api/newscrawl_api/services/frontier.py:242-253 | from any state with an expired lease, the row can be reaped and leased to another worker, whose live lease the late report of the first then ends |
| `FrontierLeases.LateReportRun` | apps/api/newscrawl_api/services/frontier.py:168-268 | such a run of seven steps from the empty table |
| `FrontierLeases.OneLeaseAtATime` | apps/api/newscrawl_api/services/frontier.py:168-365 | in every run, late reports included, between two claims that lease the same row the first lease was ended by a report, by its owner's release, or by the reaper after it had run out |
| `FrontierWork.StepBudget` | apps/api/newscrawl_api/services/frontier.py:168-365 | claims, releases, reaps and extensions keep the remaining attempts; an insertion adds the attempt limit per row; an outcome on a leased row costs at least one |
| `FrontierWork.WorkSoFar` | apps/api/newscrawl_api/services/frontier.py:168-365 | outcomes so far plus attempts left never exceed the starting attempts plus those of inserted rows |
| `FrontierWork.BoundedWork` | apps/api/newscrawl_api/services/frontier.py:168-365 | so the number of outcomes of any run without requeues is bounded by them |
| `Discovery.Stage` | apps/api/newscrawl_api/services/frontier.py:101-133 | the batch dictionary holds the first accepted occurrence of each hash, and every accepted hash |
| `Discovery.AddDiscovered` | apps/api/newscrawl_api/services/frontier.py:80-164 | row by row: known rows change only if an item within the allowed domains names their hash, by a new sighting or, requeued, by becoming due for the job unless claimed; new rows are queued as the first item naming their hash says; every named hash is stored; the answer is the growth plus the clock collisions, or plus the adopted rows |
| `Discovery.AdoptedAreReported` | apps/api/newscrawl_api/services/frontier.py:140-154 | the rows a requeueing upsert returns are the inserted ones and the known, unclaimed ones |
| `Discovery.GuardComparesLabels` | apps/api/newscrawl_api/services/frontier.py:107-109 | a domain is allowed if and only if the list is empty or its last labels are those of a listed domain |
| `Discovery.LookalikeIsRefused` | apps/api/newscrawl_api/services/frontier.py:107-109 | a domain that merely ends in the letters of the listed one is refused |
| `Discovery.OnlyAllowedDomainsEnter` | apps/api/newscrawl_api/services/frontier.py:107-109 | every inserted row lies within a listed domain by whole labels, is new, and is the first accepted occurrence of its hash |
| `Discovery.AcceptedHashesAreStored` | apps/api/newscrawl_api/services/frontier.py:139-159 | every accepted hash is stored afterwards |
| `Discovery.ReportedIsGrowth` | apps/api/newscrawl_api/services/frontier.py:156-164 | the returned number is the growth of the table if and only if no known URL of the batch was first seen at the very instant of the call; the excess is the number of such rows |
| `Discovery.CountedTwice` | apps/api/newscrawl_api/services/frontier.py:156-164 | such a run: the same link twice at one instant, where the second call inserts nothing and reports one |
| `Discovery.RepeatedBatchAddsNothing` | apps/api/newscrawl_api/services/frontier.py:156-164 | the same batch again, at any later instant, inserts nothing and reports zero |
| `Queue.StreamQueues.Consume` | apps/api/newscrawl_api/coordination/queues.py:79-92 | the oldest undelivered entry of the stream goes to the worker; none only when the stream has none |
| `Queue.StreamQueues.Retry` | apps/api/newscrawl_api/coordination/queues.py:97-117 | ack first; while attempts are left one envelope with the next attempt of the same job and stream, due `retry_delay * attempt` from now, else one dead letter with that attempt; the answer says which |
| `Queue.StreamQueues.PumpDelayed` | apps/api/newscrawl_api/coordination/queues.py:133-149 | alone, a pump republishes exactly the lowest-scored due envelopes up to its limit, each once and in order, counts them and changes nothing else; it is the path scan, then remove and publish for each, then end |
| `Queue.SomeDueList` | apps/api/newscrawl_api/coordination/queues.py:136-139 | the scan always has an answer: the lowest-scored due envelopes, in order, up to the limit |
| `Queue.PumpIsPath` | apps/api/newscrawl_api/coordination/queues.py:141-148 | pumping alone is a path of the single Redis commands over which the safety results are stated |
| `QueueSafety.StepMoves` | apps/api/newscrawl_api/coordination/queues.py:71-165 | every Redis command moves one job from one place to another, or moves nothing, or publishes |
| `QueueSafety.StepConserves` | apps/api/newscrawl_api/coordination/queues.py:71-165 | so each published job stays in exactly one of undelivered, pending, done, delayed, dead-letter, in transit |
| `QueueSafety.StepKeepsEnvelopes` | apps/api/newscrawl_api/coordination/queues.py:141-147 | an envelope is waiting, or in one pumper's hand, or spent on one entry, never two of these, and is due when taken |
| `QueueSafety.ConservationOverRuns` | apps/api/newscrawl_api/coordination/queues.py:71-165 | these hold in every reachable state of every interleaving of consumers, retriers and pumpers |
| `QueueSafety.RepublishedOnce` | apps/api/newscrawl_api/coordination/queues.py:142-147 | no envelope is republished twice, and none before it is due |
| `QueueSafety.WaitIsLinear` | apps/api/newscrawl_api/coordination/queues.py:107 | the delay is `retry_delay * attempt` |
| `QueueSafety.RetryWaitsOut` | apps/api/newscrawl_api/coordination/queues.py:107-147 | in every run, an envelope is republished no earlier than `retry_delay * attempt` after the failed attempt scheduled it, as the next attempt of the same job on the same stream |
| `QueueSafety.ClaimConserves` | apps/api/newscrawl_api/coordination/queues.py:151-165 | from any well-formed, conserved state every continuation of a claim conserves every job if and only if the previous owner, who may be the claimer, no longer has the message |
| `QueueSafety.LiveClaimDuplicates` | apps/api/newscrawl_api/coordination/queues.py:97-165 | what the harm comes to: when both holders fail, the job waits for two retries, or is dead-lettered twice once its attempts are exhausted |
| `QueueSafety.ScheduleClosedForm` | apps/api/newscrawl_api/coordination/queues.py:107 | the delays before attempt `a` sum to `retry_delay * a * (a - 1) / 2` |
| `QueueSafety.StepKeepsRetries` | apps/api/newscrawl_api/coordination/queues.py:97-117 | attempts stay within 1..max, and hand-outs and scheduled delay match the attempt at every place |
| `QueueSafety.RetriesOverRuns` | apps/api/newscrawl_api/coordination/queues.py:97-149 | in every run without stale claims |
| `QueueSafety.RetryBound` | apps/api/newscrawl_api/coordination/queues.py:97-117 | so a well-formed dead letter was handled exactly `max_attempts` times after delays summing to the closed form |
| `Counters.TallyCounts` | apps/api/newscrawl_api/services/retention_stats.py:131-135 | a tally holds each key as often as the list, and sums to its length |
| `Counters.SumAddsTotals` | apps/api/newscrawl_api/services/retention_stats.py:17-21 | pointwise sums add up as multisets and in total |
| `Counters.MergeCounts` | apps/api/newscrawl_api/services/retention_stats.py:17-21 | merging adds every count of both dictionaries, for every key |
| `Retention.RetentionDb.Create` | apps/api/newscrawl_api/services/article_daily_stats.py:11-30 | a new article is counted on the given day; if that is the day it was created, every accounting identity is kept |
| `Retention.RetentionDb.MarkDuplicate` | apps/processor/newscrawl_processor/embeddings.py:125-127 | marking an article as a duplicate of a stored one keeps references and accounting intact |
| `Retention.RetentionDb.SyncDailyStats` | apps/api/newscrawl_api/services/article_daily_stats.py:34-54 | each day's counter becomes the larger of itself and the live count; in a consistent database nothing changes |
| `Retention.RetentionDb.DeleteBatch` | apps/processor/newscrawl_processor/retention.py:148-165 | exactly the batch goes; every other article keeps every field but a reference into the batch, and all its child rows; no other child row stays |
| `Retention.BatchExtendsPurge` | apps/processor/newscrawl_processor/retention.py:122-137 | a batch of the oldest of what is left extends "the oldest so far" by its size, and an empty batch means nothing expired is left |
| `Retention.WhatAPurgeLeaves` | apps/processor/newscrawl_processor/retention.py:122-172 | nothing expired is left exactly when the quota suffices, articles at or after the cutoff stay, and nothing left is older than anything deleted |
| `Retention.WithoutKeepsReferences` | apps/processor/newscrawl_processor/retention.py:148-165 | deleting with detachment leaves no dangling child row or duplicate marker |
| `Retention.RetentionDb.RecordPurgeCycle` | apps/api/newscrawl_api/services/retention_stats.py:24-128 | the cycle is appended; its day's row, dictionaries and breakdown tables grow by it key by key, other days stay; the books are kept whatever the cycle, and the sums go on agreeing exactly when the cycle's own do |
| `Retention.RecordKeepsLedger` | apps/api/newscrawl_api/services/retention_stats.py:55-125 | every day's total and every count of its breakdowns stay the sums over that day's cycles, failed ones included, in the day's row and in the breakdown tables |
| `Retention.RecordKeepsRollups` | apps/api/newscrawl_api/services/retention_stats.py:40-125 | language sums and source sums go on equalling articles deleted, per cycle and per day, if and only if they do in the recorded cycle |
| `Retention.RetentionDb.PurgeExpiredArticles` | apps/processor/newscrawl_processor/retention.py:97-207 | from any database with intact references: deleted articles are older than the cutoff and no older one stays; there are at most batch_size * max_batches, and a completed run that deletes fewer leaves none; survivors keep every field but references to deleted ones, and exactly the survivors' child rows stay; commits differ by one nonempty batch each and never dangle; lagging day counters are raised first; the recorded counts per language and source are those of the tallied articles, and counts that agreed before still agree if and only if the run completes or fails before it tallies a batch |
| `Retention.DaysHave24Hours` | apps/api/newscrawl_api/services/article_daily_stats.py:44-46 | a day is the half-open interval of 24 hours it names, before the epoch too |
| `Retention.RetentionDb.PurgeBatches` | apps/processor/newscrawl_processor/retention.py:117-178 | the batch loop with an exception in the query, between tally and commit, or after a commit: tallies may run ahead of the deletions, the total may lag behind them, and each does so exactly at those points |
| `Retention.CreatedIsLivePlusDeleted` | apps/api/newscrawl_api/services/article_daily_stats.py:11-54 | in every consistent database, which every operation keeps, articles created equal live plus deleted for each day, and in total live plus the sum over recorded cycles |
| `Retention.CreateKeepsBalance` | apps/api/newscrawl_api/services/article_daily_stats.py:20-30 | counting a new article on its creation day keeps the daily balance |
| `Retention.BookDeletions` | apps/processor/newscrawl_processor/retention.py:165-172 | a purge moves articles from live to deleted, day by day, without touching the created counters |
| `LlmLadder.LlmUsage.Add` | apps/processor/newscrawl_processor/llm/extractor.py:98-104 | every completion adds its tokens and cost, usable or not |
| `LlmLadder.AskProvider` | apps/processor/newscrawl_processor/llm/extractor.py:153-207 | the attempts at one provider: all of them without a valid reply, else up to the first valid one; prompts turn corrective after a malformed reply; the sleeps are those between attempts |
| `LlmLadder.Analyze` | apps/processor/newscrawl_processor/llm/extractor.py:148-212 | the requests sent are the flat ladder up to its first valid reply, or all of it, and the usage bills exactly them |
| `LlmLadder.LadderMeans` | apps/processor/newscrawl_processor/llm/extractor.py:153-163 | the ladder lists exactly the attempts of every provider, with the corrective note where due |
| `LlmLadder.LadderIsOrdered` | apps/processor/newscrawl_processor/llm/extractor.py:153-163 | provider by provider and attempt by attempt, hence each once |
| `LlmLadder.LastAttemptMeans` | apps/processor/newscrawl_processor/llm/extractor.py:158-178 | a provider is asked until the first error that no retry can help, else `max_retries` times, a local one among several once |
| `LlmLadder.CorrectiveMeans` | apps/processor/newscrawl_processor/llm/extractor.py:156-206 | a request carries the corrective note if and only if an earlier reply of its provider was no valid analysis |
| `LlmLadder.EmptyRepliesAreMalformed` | apps/processor/newscrawl_processor/llm/extractor.py:183-195 | empty replies are malformed, others stand or fall with their recovery |
| `LlmLadder.EveryRequestIsBilled` | apps/processor/newscrawl_processor/llm/extractor.py:163-207 | each completion adds its tokens and cost, valid or not, and each request without a valid reply adds one error |
| `LlmLadder.LadderRefinesFlatScan` | apps/processor/newscrawl_processor/llm/extractor.py:148-212 | the answer is the first valid reply of the flat ladder; errors are attempts on failure and attempts - 1 on success; attempts stay within the summed budgets |
| `LlmLadder.LadderWithinBudget` | apps/processor/newscrawl_processor/llm/extractor.py:159-163 | the ladder is no longer than the provider budgets together |
| `LlmLadder.SleepBound` | apps/processor/newscrawl_processor/llm/extractor.py:178-179 | one provider costs at most `base * (2^(n-1) - 1)` seconds of sleep, however it answers |
| `LlmLadder.SleepBoundIsReached` | apps/processor/newscrawl_processor/llm/extractor.py:178-179 | a provider that fails every time, retryably, costs exactly that |

## Left out

- Floating point: token counts, waits, delays and costs are reals; rounding in Lua and Python, and the overflow of the
  backoff power for retry counts beyond a thousand, are not modelled.
- URL normalization, the priority score, SHA-256, BLAKE2b, Unicode normalization, lower-casing and word splitting are parameters.
- The bucket is stated for a fixed rate > 0 and burst >= 1 per domain, as configured; a per-request rate override that
  changes between calls on one domain is not.
- Politeness.ProcessRequest: the other workers are a finite script of calls during each sleep; after it the request is
  alone. The bounds do not depend on the script's length. Were sleeps to overrun without limit, other workers could take every token first
  and the accounted sleep need never reach 30 s; no bound on calls independent of the others' grants is claimed for that.
- Frontier columns that no decision reads: HTTP status, error text, etag, last-modified, canonical URL, depth, discovered-from.
- Each `mark_*` report is atomic here; the lost updates an ORM read-modify-write could cause are not modelled. All frontier operations
  read one nondecreasing clock.
- FrontierWork.BoundedWork: stated without requeue operations, which give attempts back, and for outcomes on leased rows, since a report on another row
  can cost no attempt.
- Articles.SeparatedCorpus: stated for sequential `persist` calls on fresh URLs, because an update skips the duplicate lookup and concurrent
  cleaning workers race between lookup and insert.
- Articles: country, source, language, extraction method and confidence columns, and the conversion of the hash to its stored form (proved in
  `SimHash`); the daily counter that `persist` increments is modelled in `Retention`.
- Dedup: completeness of the gray zone (distances 4 to 6), which banding does not promise; the semantic stage beyond the marker it sets.
- Queue: a read of several entries is several single deliveries; entry payloads are opaque; crashes between the commands of a retry or with an
  envelope in a pumper's hand (a job can be lost there), `replay_dead_letters`, tombstones, explicit attempts on publish and stream trimming.
- Queue: all workers read one nondecreasing clock for scores and scans; with skewed clocks an envelope can be pumped early by the skew.
- QueueSafety.RetryBound: stated for runs without stale redelivery, which hands a job out again without raising its attempt.
- Retention.RetentionDb.PurgeExpiredArticles: no concurrent writers. A failure of the initial sync or of the recording itself, the S3 deletes
  and their counter are not modelled; the child tables are one map keyed by table and row.
- Retention.RetentionDb.Create: the day counted and the day of `created_at` come from two clocks; identities are kept when they agree.
- LlmLadder: prompt text beyond the presence of the corrective note, JSON recovery and schema validation (parameters), HTTP, and the
  constructor's refusal of an empty provider list.
- Heartbeats, job transitions, statistics endpoints, authentication, language detection, the extraction engine, embeddings and the web application.
