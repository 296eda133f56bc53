# Verified kernels of Smara

A Dafny model of the small stateful parts of this repository that carry real guarantees:
spend budgets, a rate limiter, a job-claim protocol, a resumable evaluation matrix and two
pass gates, the money printer and parser, the client side of a request protocol, stable
numbers for page controls, the sync of open bills, its nightly trigger, and the HTML
renderer. `dafny verify dfyconfig.toml` checks all of it.

What the code changes in place is a class whose methods are proved against functions on
values; the properties are lemmas about those functions, over every run where there are
runs. The outside world (the provider, the page, the file system, clocks, crashes) is an
arbitrary input of each step.

| file | models |
|---|---|
| `RateLimiting.dfy` | the token bucket with bans, per client, with resets |
| `WorkerBudget.dfy` | the shared budget client: any interleaving of streams, its reports and continuations, the usage ledger |
| `LiveLedger.dfy` | the saved budget ledger across processes, with a stop possible between counting, saving and sending |
| `SandboxRunner.dfy` | any number of runners over one jobs directory, and the cap on returned files |
| `EvaluationMatrix.dfy` | the resumable run loop, retrying failures, the pass decision |
| `ProviderGate.dfy` | the category totals and the pass decision of the provider acceptance |
| `Money.dfy` | Indian grouping of rupee amounts, and reading amounts back |
| `NativeSession.dfy` | replies, notifications and requests over one queue with one event log |
| `RefRegistry.dfy` | stable control numbers across page snapshots, and finding a control again |
| `TallySync.dfy` | reading bill reports, building the payload, sending it in parts |
| `NightlySync.dfy` | the once-a-day trigger with restarts, deaths and toggling |
| `Documents.dfy` | escaping and the HTML of all block kinds |

Rupees, tokens and seconds are exact reals; floating-point and decimal rounding of the
original is idealised away except where it rounds on purpose.

## What does not hold

Where the code does less than its documentation or a reader would expect, the model keeps
the code and proves the exact condition or a concrete case:

* The clock is read before the lock is taken, so calls can take effect out of time order.
  The promised rate limit then holds exactly when the drips between consecutive call times
  stay within it (`BoundHoldsExactly`); one step back of a second already grants twice the
  capacity (`BackwardsClockBreaksTheBound`). What does hold in any order is
  `WindowBoundAnyOrder`.
* The refusal that starts a ban advertises a truncated wait, long enough exactly for whole
  seconds (`BanStartRetryAfterExact`). Without bans the advertised wait suffices exactly
  from a thousandth of a token per second on, or for a capacity that refills within a second
  (`RetryAfterExact`), and the advertised reset time is right exactly from the same rate on
  (`ResetExact`).
* A continued budget can start above its ceiling without being flagged: with an accepted
  ledger exactly when its tokens with their framing cost more than the ceiling, otherwise
  exactly when the earlier estimate is less than a paisa below it (`CarryFlaggedExactly`,
  `LedgerCanExceedUnflagged`, `CarryCanExceedUnflagged`). Whole paise exclude the second
  case only (`WholePaiseCarryWithin`).
* A run that is stopped after admitting a call and before its next report is saved is
  continued as if that call had not been made. The count and the reservation are the true
  ones exactly when no run of the chain does so (`ChainCountsExactly`, `ChainCoversExactly`,
  `UnsavedCallEscapes`).
* A stream that reports more than its worst case can take the spend over the ceiling; its
  exact condition is `ModestExactly`.
* A ledger chain with a cycle is accepted when the limit of twenty hops ends on the root's
  ledger (`CycleCanBeAccepted`), and a true chain of more than twenty hops is refused
  (`StraightChainsAccepted`).
* An evaluation attempt that raises or is killed leaves no record of what it billed, so the
  spend ceiling bounds the recorded bills only (`ChainSpendsWithin`,
  `RaisedAttemptsEscape`, `KilledAttemptsEscape`).
* A claimed job is never finished exactly when its runner is stopped before finishing it
  (`EveryClaimedJob`, `OrphanNeverFinishes`).
* The provider gate counts runs per category, not per case
  (`GateCountsCategoriesNotCells`); when it passes, every cell has its run exactly when
  every run is of a cell (`GateCoversExactly`). Retrying drops a failed record even when its
  repeat is outside the matrix (`RetryReplacesOnlyFailures`, `RetryLosesTheRecord`).
* A date can lose its nightly sync in three ways: its stamp came with the config, came from
  a poll that straddled midnight (`MidnightTakesTheNextDate`), or from a helper that died
  between saving it and trying (`DeathTakesTheDate`); these are all (`OwnAttemptExactly`).
* A date can have two: exactly when an enabled helper polls a stamped date with a config
  that does not carry such a stamp (`AtMostOnceExactly`), as after pairing again or after a
  toggle that races with the helper (`PairingAgainRepeats`, `RacingToggleRepeats`).
* Neither switching the sync off nor unpairing reaches a running helper, whose next attempt
  writes its own config back (`DisableLastsUntilTheNextAttempt`,
  `UnpairLastsUntilTheNextAttempt`).

## Model

| member | source | states |
|---|---|---|
| RateLimiting.TokenBucket.Take | rate_limiter/__init__.py:83-120 | On one client's bucket a call does what the decision function says: ban, refill, grant or refuse, with the four headers |
| RateLimiting.RateLimiter.Acquire | rate_limiter/__init__.py:74-120 | A call decides on the caller's own bucket, full if the client is new, and leaves every other client's bucket as it was |
| RateLimiting.RateLimiter.Reset | rate_limiter/__init__.py:122-128 | Forgets exactly the one client, or everybody, also for the empty name; the buckets of the others are the same objects |
| RateLimiting.NonInterference | rate_limiter/__init__.py:77-126 | In any run with other clients' calls and resets a client gets the answers, grants and bucket of its own subsequence run alone |
| RateLimiting.GrantedFromAvailable | rate_limiter/__init__.py:93-113 | Over any run, whatever the order of its call times, what a client is granted plus what it could still get is at most what it could get before, plus its drips, plus a capacity per reset; buckets stay between nothing and full |
| RateLimiting.WindowBoundAnyOrder | rate_limiter/__init__.py:74-128 | After any history and with call times in any order, the tokens granted by a window of calls are at most the capacity plus the drips between the client's consecutive calls, counted from any time, plus one capacity per reset, bans included |
| RateLimiting.WindowBound | rate_limiter/__init__.py:74-128 | When the window's call times do not go back, after any history, the tokens granted between t1 and t2 are at most capacity + refill_rate * (t2 - t1), bans included, plus one capacity per reset |
| RateLimiting.DrippedInWindow | rate_limiter/__init__.py:94-96 | On a clock that only moves forward the drips of a window are at most what refills in it |
| RateLimiting.GreedyGetsEverything | rate_limiter/__init__.py:93-101 | A new client that asks for everything gets the capacity and every drip, whatever ban is configured: the bound for any order is reached |
| RateLimiting.BoundHoldsExactly | rate_limiter/__init__.py:74-101 | For calls of a new client at given times in the order they take effect, the promised bound holds for all requests if and only if the drips between consecutive times are at most refill_rate * (t2 - t1) |
| RateLimiting.BackwardsClockBreaksTheBound | rate_limiter/__init__.py:94-96 | One second back on the clock grants twice the capacity in a window of no length |
| RateLimiting.BanHolds | rate_limiter/__init__.py:83-91 | While a ban lasts every call of the client is refused, and no refused call changes its bucket or extends the ban |
| RateLimiting.RetryAfterSuffices | rate_limiter/__init__.py:107-120 | Without bans and with a refill rate of at least 0.001, a client refused a request within the capacity that waits the advertised time is granted it, whatever other clients do meanwhile |
| RateLimiting.RetryAfterExact | rate_limiter/__init__.py:107-120 | Without bans, waiting the advertised time suffices for every refusal of what fits the capacity if and only if the rate is at least 0.001 or the capacity refills within a second |
| RateLimiting.SlowRefillBreaksTheWait | rate_limiter/__init__.py:108-110 | At every slower rate an empty bucket asked for half a drip more than it refills advertises one second and refuses again after it |
| RateLimiting.OversizedNeverServed | rate_limiter/__init__.py:98-107 | A request above the capacity is never granted |
| RateLimiting.RetryAfterNeedsRefill | rate_limiter/__init__.py:110-110 | With no refill the request is refused again after any wait, not just the advertised one |
| RateLimiting.RetryAfterOutlastsBan | rate_limiter/__init__.py:84-91 | A refusal inside a ban advertises a wait that always gets past that ban |
| RateLimiting.BanStartRetryAfterExact | rate_limiter/__init__.py:111-120 | The wait advertised when a ban starts gets past the ban if and only if the configured duration is a whole number of seconds |
| RateLimiting.BanStartRetryAfterTooShort | rate_limiter/__init__.py:111-113 | A ban of a second and a half that advertises one second |
| RateLimiting.ResetTellsWhenFull | rate_limiter/__init__.py:102-106 | With a refill rate of at least 0.001, one second after the advertised reset time an untouched bucket is full |
| RateLimiting.ResetExact | rate_limiter/__init__.py:102-106 | That holds for every served call if and only if the rate is at least 0.001 or the capacity is zero |
| RateLimiting.RemainingIsExact | rate_limiter/__init__.py:99-106 | At the same instant exactly the advertised remaining number of further one-token calls is granted, however many are made |
| RateLimiting.HeadersMeaning | rate_limiter/__init__.py:83-120 | Every answer of every configuration: the limit is the whole part of the capacity; refusals promise nothing remaining and advertise the least whole seconds past the ban or the missing drips, or the whole seconds of a new ban; the reset time is the end of the ban, of the wait, or of filling up |
| RateLimiting.ResetStartsAnew | rate_limiter/__init__.py:122-128 | After a reset of everybody or of the client its next call is decided on a new, full bucket |
| WorkerBudget.ObserveMeaning | scripts/run_native_live_workers_browser.py:127-140 | A stream counts as complete exactly when its end marker came, and the token count kept is that of the last line that reports three whole nonnegative counts with the total covering the parts |
| WorkerBudget.UsageResponse.IterLines | scripts/run_native_live_workers_browser.py:127-140 | Every line is passed on unchanged while the account is kept |
| WorkerBudget.StepAccounted | scripts/run_native_live_workers_browser.py:54-87 | Every atomic step of every stream keeps the counters equal to what the admitted calls say |
| WorkerBudget.EveryRunAccounted | scripts/run_native_live_workers_browser.py:54-87 | In every interleaving, reserved rupees are 396 per million of the tokens reported by complete streams and of the whole worst case of all other admitted requests, with 1024 of framing each; requests is their number and within the ceiling; active, peak and reported counts are exact |
| WorkerBudget.EveryCallCapped | scripts/run_native_live_workers_browser.py:57-58 | In every run each admitted call has the bytes of a call that was begun, and as output cap what that asked for, when that is not zero and within the limit, else the limit; never more than the limit |
| WorkerBudget.AuthorizedRuns | scripts/run_native_live_workers_browser.py:39-41 | Authorised limits never admit more than 32 calls, a cap above 8192, or, with modest reports, a reservation above 300 rupees |
| WorkerBudget.BlockedExactly | scripts/run_native_live_workers_browser.py:60-66 | Every stream begun is admitted or counted as blocked, and the exhausted flag is raised only by blocking one or by a settlement above the ceiling |
| WorkerBudget.PeakIsMostOpen | scripts/run_native_live_workers_browser.py:68-76 | The peak counter is the largest number of streams ever open together |
| WorkerBudget.BillWithinTotal | scripts/run_native_live_workers_browser.py:77-85 | Any bill, at 396 per million, within the reserved worst case of each request and within its settled report is at most the reservation |
| WorkerBudget.WorstBillReached | scripts/run_native_live_workers_browser.py:77-85 | With modest reports some such bill reaches the reservation, so nothing is reserved needlessly |
| WorkerBudget.SpendStaysWithin | scripts/run_native_live_workers_browser.py:54-87 | If no stream reports more than its payload bytes plus its output cap, then at every point of every run neither the reservation nor earlier charge plus any plausible bill exceeds the approved rupees |
| WorkerBudget.ModestExactly | scripts/run_native_live_workers_browser.py:57-87 | A single settling request stays within every authorised ceiling that admits it if and only if it reports no more tokens than its payload bytes plus its output cap |
| WorkerBudget.OverspendIsFlagged | scripts/run_native_live_workers_browser.py:60-66 | Without any assumption on the reports, reserved rupees above the ceiling imply the exhausted flag, and the flag is never cleared |
| WorkerBudget.ImmodestReportOverspends | scripts/run_native_live_workers_browser.py:81-87 | A single report above its worst case costs more than the ceiling |
| WorkerBudget.StreamAloneIsARun | scripts/run_native_live_workers_browser.py:54-87 | A stream by itself is a run of the interleaving model, refused or not |
| WorkerBudget.StreamAloneMeaning | scripts/run_native_live_workers_browser.py:54-87 | What the reference run of a lone stream does to each counter, with its cap and its price written out |
| WorkerBudget.BudgetClient.constructor | scripts/run_native_live_workers_browser.py:39-52 | A new client is the empty budget with its limits |
| WorkerBudget.BudgetClient.Reserve | scripts/run_native_live_workers_browser.py:60-66 | Under the lock: admit and charge the worst case, or count a refusal and flag exhaustion |
| WorkerBudget.BudgetClient.Finished | scripts/run_native_live_workers_browser.py:75-87 | Under the lock: close the stream and settle it down only when it is complete with valid usage |
| WorkerBudget.BudgetClient.Stream | scripts/run_native_live_workers_browser.py:54-87 | A call that asks for n within the cap reserves (bytes + 1024 + n) * 396 / 1000000 rupees, any other (bytes + 1024 + cap) * 396 / 1000000; it is refused exactly at a ceiling, settled at its last report exactly when it ends complete, and passes the provider's lines on; this is the reference run of its steps |
| WorkerBudget.SummaryCovers | scripts/run_native_live_workers_browser.py:92-99 | The summarised estimate is the least number of whole paise that covers the reservation, less than a paisa above it |
| WorkerBudget.BudgetClient.Summary | scripts/run_native_live_workers_browser.py:92-99 | The report keeps the exact request count and peak, and an estimate in whole paise that covers the reservation and is less than a paisa above it |
| WorkerBudget.BudgetClient.CarryForward | scripts/run_native_live_workers_browser.py:101-114 | Restores count, peak and a paisa more than the estimate of an earlier report, or the priced tokens and framing of a ledger of the same count; or raises and changes nothing, exactly when count or estimate is not below its ceiling |
| WorkerBudget.CarryKeepsTheCharge | scripts/run_native_live_workers_browser.py:92-109 | A continuation from a report never starts with less than the summarised reservation, with the same request count |
| WorkerBudget.CarryFlaggedExactly | scripts/run_native_live_workers_browser.py:101-114 | The restored reservation is within the ceiling or flagged if and only if, with an accepted ledger, all its tokens and framing fit under the ceiling, and without one the estimate is at least a paisa below it |
| WorkerBudget.WholePaiseCarryWithin | scripts/run_native_live_workers_browser.py:92-114 | Under a ceiling in whole paise restoring a report exceeds it if and only if an accepted ledger costs more than the ceiling |
| WorkerBudget.CarryCanExceedUnflagged | scripts/run_native_live_workers_browser.py:105-109 | An estimate of 299.995 under a ceiling of 300 starts above it, unflagged |
| WorkerBudget.LedgerCanExceedUnflagged | scripts/run_native_live_workers_browser.py:111-114 | An accepted ledger of a million tokens after an estimate of half a rupee starts above a ceiling of 300, unflagged |
| WorkerBudget.ChainKeepsTheCharge | scripts/run_native_live_workers_browser.py:54-114 | Over any linear chain of continued runs, each stopped anywhere before or after saving its report, the last process counts exactly the calls its continued reports knew of, within its ceiling, and its reservation is their charge plus one to two paise for each report carried without a ledger |
| WorkerBudget.ChainGoesOnExactly | scripts/run_native_live_workers_browser.py:101-114 | A chain goes on if and only if the limits are authorised, some run saved a report, and its count and estimate are below the new ceilings; a run that saves none leaves that report in place |
| WorkerBudget.ChainCountsExactly | scripts/run_native_live_workers_browser.py:92-114 | The last process's count is the true number of requests of all runs if and only if no earlier run admitted a call after it last saved its report; there are never more than the last ceiling and the calls so missed |
| WorkerBudget.NothingLostExactly | scripts/run_native_live_workers_browser.py:456-468 | A chain's report knows of every call of all runs if and only if no run admitted one after its last save |
| WorkerBudget.ChainCoversExactly | scripts/run_native_live_workers_browser.py:92-114 | For up to twenty reports carried without a ledger the reservation covers every call of all runs if and only if no earlier run admitted one after its last save |
| WorkerBudget.UnsavedCallEscapes | scripts/run_native_live_workers_browser.py:456-468 | A run that dies after a call its saved report does not know of lets the continuation make a second call under a ceiling of one |
| WorkerBudget.PlausibleAtSave | scripts/run_native_live_workers_browser.py:81-85 | A bill plausible for the calls as they ended is plausible for them as the report knew them |
| WorkerBudget.ChainSpendStaysWithin | scripts/run_native_live_workers_browser.py:54-114 | Over any such chain under any ceilings, with modest reports and a last ledger that fits, every plausible bill of the known calls is within the last ceiling, and that of all calls within it and the cost of the calls missed, so within it if every earlier run saved; the reservation is at most a paisa above it, and not above it in whole paise |
| WorkerBudget.LedgerBillReached | scripts/run_native_live_workers_browser.py:111-114 | A ledger that does not fit has a plausible bill above the ceiling |
| WorkerBudget.CompleteLedgerUsage | scripts/run_native_live_workers_browser.py:143-169 | Accepted exactly when every running total equals the sum of the valid increments so far in its rollout and the requests number as expected; then it holds their sum |
| WorkerBudget.LedgerSettlesEveryRequest | scripts/run_native_live_workers_browser.py:111-114 | A continuation with an accepted ledger holds exactly the settled cost of every request |
| LiveLedger.CarryExactly | scripts/run_native_outcome_suite.py:50-58 | A saved ledger is carried, unreset, if and only if neither ceiling shrinks and both still cover it |
| LiveLedger.CarriedExactly | scripts/run_native_outcome_suite.py:50-58 | Any file at all is carried if and only if its ceilings are numbers up to the new ones (or one of the values Python does not find greater) and its count and reservation are numbers within them |
| LiveLedger.MalformedNeverCarried | scripts/run_native_outcome_suite.py:51-57 | Missing, non-numeric, infinite or negative entries never authorise a budget |
| LiveLedger.StepCovered | scripts/run_native_outcome_suite.py:61-82 | Every step, every stop and every failed save keeps the file on disk covering all requests sent and about to be sent, in number and rupees |
| LiveLedger.SentWithinApproval | scripts/run_native_outcome_suite.py:46-83 | Over any linear chain of processes, stopped anywhere, the requests ever sent and their cost are within the last approved ceilings; so is every bill, at 396 per million, of at most the payload bytes, the output allowance and 1024 tokens for each |
| LiveLedger.ApprovalsOnlyGrow | scripts/run_native_outcome_suite.py:50-59 | No later process has smaller ceilings, and nothing sent is forgotten |
| LiveLedger.SmoothRunsAreExact | scripts/run_native_outcome_suite.py:73-82 | Without stops and failures the file counts exactly the requests sent or cleared for sending, and exactly their cost |
| LiveLedger.SmoothRunsAreTight | scripts/run_native_outcome_suite.py:72-82 | Then bills of at most bytes, allowance and framing for those requests come to exactly what the file reserves, so no smaller reservation would do |
| LiveLedger.SumIsReached | scripts/run_native_outcome_suite.py:72-72 | The cost of any requests is reached by such a bill |
| LiveLedger.CarriesOn | scripts/run_native_outcome_suite.py:46-59 | After a stop a new process goes on exactly under ceilings not below the file's, with its count and reservation and nothing to send |
| LiveLedger.LiveBudget.constructor | scripts/run_native_outcome_suite.py:46-59 | A first process starts empty and saves its ledger |
| LiveLedger.LiveBudget.Continue | scripts/run_native_outcome_suite.py:50-59 | A process carries a previous ledger, or is not made, as the carry check decides |
| LiveLedger.LiveBudget.Reserve | scripts/run_native_outcome_suite.py:68-82 | Refused exactly for an allowance outside 1 to 1000000 or when one request more, or (bytes + allowance + 1024) * 396 / 1000000 rupees more, would pass a ceiling; else counted and saved before it is cleared; after a failed save it stays counted and nothing is cleared |
| LiveLedger.WalkChain | scripts/run_native_outcome_suite.py:109-118 | Accepts exactly the chains of distinct readable files that end at the root's ledger in fewer than twenty hops, and walks over distinct files cut at twenty hops while standing on it |
| LiveLedger.StraightChainsAccepted | scripts/run_native_outcome_suite.py:109-118 | A straight chain to the root's ledger is accepted if and only if it has at most twenty hops |
| LiveLedger.CycleCanBeAccepted | scripts/run_native_outcome_suite.py:109-118 | A ring of twenty files entered through one more hop is accepted although it never ends |
| SandboxRunner.StepExclusive | server/sandbox/runner.py:106-121 | Every step of any runner, starts and stops included, keeps claims exclusive and executions behind their marker |
| SandboxRunner.ExecutedAtMostOnce | server/sandbox/runner.py:106-121 | For any number of runners, any interleaving and any stops, execute is started at most once per job, and only for claimed jobs |
| SandboxRunner.NoJobTwice | server/sandbox/runner.py:106-121 | In every run from an empty directory no job is started twice and claims stay exclusive |
| SandboxRunner.UnreadyIsLeftAlone | server/sandbox/runner.py:112-113 | In every run from an empty directory whatever is taken, started or has a result is ready |
| SandboxRunner.StartsWereAsked | server/sandbox/runner.py:112-117 | In every run nothing is started that was not submitted and then marked ready by its submitter |
| SandboxRunner.OrphanNeverFinishes | server/sandbox/runner.py:112-116 | A claimed job without a living owner never gets a result and is never started again |
| SandboxRunner.StopOrphansWhatItOwned | server/sandbox/runner.py:113-120 | A step leaves a claimed unfinished job without an owner if and only if it stops the job's owner |
| SandboxRunner.OrphanedExactly | server/sandbox/runner.py:106-121 | In any run a job ends without owner and result if and only if its owner was stopped before finishing it |
| SandboxRunner.OwnerCanFinish | server/sandbox/runner.py:117-120 | A living owner's own steps give its job a result, however execute ends |
| SandboxRunner.EveryClaimedJob | server/sandbox/runner.py:106-121 | In any run from an empty directory a claimed job is orphaned if and only if its owner was stopped; otherwise it has its result or a living owner whose own steps finish it |
| SandboxRunner.JobsDirectory.ServePass | server/sandbox/runner.py:111-120 | One round of a lone runner takes exactly the listed jobs that are ready, untaken and without a result, starts each once and gives it its outcome; every other job is left as it was |
| SandboxRunner.PassMeaning | server/sandbox/runner.py:111-120 | Marker by marker: a listed job with ready and neither taken nor result gets both, an error result if execute raised; every other job keeps its markers |
| SandboxRunner.ExecutedMeaning | server/sandbox/runner.py:111-117 | A pass starts exactly the listed jobs that are ready, untaken and without a result, each once |
| SandboxRunner.PassIsARun | server/sandbox/runner.py:106-121 | A lone runner's pass is a run of the many-runner protocol |
| SandboxRunner.CollectOutputs | server/sandbox/runner.py:82-89 | The returned files are the longest run of eligible files, in order, within both the count and the byte cap |
| SandboxRunner.ReturnedWithin | server/sandbox/runner.py:82-89 | At most ten files of at most ten million bytes together are returned, none of them the result file or a directory |
| EvaluationMatrix.RunSession | scripts/run_live_web_acceptance_v2.py:598-674 | A session attempts the first so many missing cells, each admitted under both ceilings, saves a record after each, and names the true reason it stopped: for the cost limit, that one attempt more could bill more than the ceiling; a session killed in an attempt had admitted it |
| EvaluationMatrix.TodoMeaning | scripts/run_live_web_acceptance_v2.py:600-603 | What a session may attempt is exactly the missing cells, each once, in repeat-major order |
| EvaluationMatrix.MatrixMeaning | scripts/run_live_web_acceptance_v2.py:600-601 | The matrix is every task in every repeat from one on, in repeat-major order, and nothing else |
| EvaluationMatrix.TodoAfterPart | scripts/run_live_web_acceptance_v2.py:593-603 | After an interruption exactly the rest is missing, in the same order |
| EvaluationMatrix.EvidenceIsAPrefix | scripts/run_live_web_acceptance_v2.py:593-671 | The saved records of any chain of interrupted sessions are a first part of the uninterrupted session's |
| EvaluationMatrix.ResumedEqualsUninterrupted | scripts/run_live_web_acceptance_v2.py:593-671 | If outcomes depend on the cell only, a chain that ends complete has the record list of one uninterrupted run |
| EvaluationMatrix.SessionIsALink | scripts/run_live_web_acceptance_v2.py:598-674 | One more session extends the chain of sessions by one link |
| EvaluationMatrix.SessionKeepsUnique | scripts/run_live_web_acceptance_v2.py:602-669 | A session never records a cell twice |
| EvaluationMatrix.CompleteCoversTheMatrix | scripts/run_live_web_acceptance_v2.py:600-669 | A session that ends complete leaves a record for every cell |
| EvaluationMatrix.SessionSpendsWithin | scripts/run_live_web_acceptance_v2.py:604-608 | If no record shows more than its attempt was admitted for, a session's recorded bills stay within its ceiling, and what was really spent on the recorded attempts within it and what their records do not show |
| EvaluationMatrix.ChainSpendsWithin | scripts/run_live_web_acceptance_v2.py:546-561 | Wherever a chain of sessions with nondecreasing spend ceilings stops, the recorded bills are within the last ceiling, and what was really spent within it and the bills of attempts that raised or were killed, so within it when none is lost |
| EvaluationMatrix.RaisedAttemptsEscape | scripts/run_live_web_acceptance_v2.py:658-662 | If every attempt raises after spending its allowance, a session goes through the whole matrix and spends one allowance a cell under a ceiling of one |
| EvaluationMatrix.KilledAttemptsEscape | scripts/run_live_web_acceptance_v2.py:602-671 | Killed in its first attempt and resumed any number of times, a chain spends that many allowances under a ceiling of one |
| EvaluationMatrix.DropFailed | scripts/run_live_web_acceptance_v2.py:583-592 | Retrying keeps exactly the records whose key no failed record of a selected case has |
| EvaluationMatrix.RetryReplacesOnlyFailures | scripts/run_live_web_acceptance_v2.py:582-603 | Retrying keeps exactly the records that passed or are of unselected cases, attempts each dropped one inside the matrix again and no passed cell; a dropped record with a repeat outside the matrix is lost |
| EvaluationMatrix.RetryLosesTheRecord | scripts/run_live_web_acceptance_v2.py:583-603 | A failed record of a repeat that is no longer asked for is dropped and not attempted again |
| EvaluationMatrix.GateMeansFullMatrix | scripts/run_live_web_acceptance_v2.py:675-699 | For covered matrices the gate passes if and only if there is one record for each cell, nine in ten passed, four in five of every category, and no violation, unmeasured or false completion |
| EvaluationMatrix.GateByRecords | scripts/run_live_web_acceptance_v2.py:675-699 | The gate in terms of the saved records: for covered matrices it passes if and only if no two records inside are of one cell, none has a repeat below one, nine in ten of all cells and four in five of each category have a passed record, and every record is measured, free of violations and completed only when it passed |
| EvaluationMatrix.MatrixRunsAreFull | scripts/run_live_web_acceptance_v2.py:675-678 | The records inside the matrix number as many as its cells exactly when there is one for each |
| ProviderGate.RoundingReach | scripts/run_w5_provider_acceptance.py:204-208 | Rounded to four digits, half to even, a rate reaches 0.90 from 0.89995 on and 0.80 from 0.79995 on, exactly |
| ProviderGate.RoundingMeaning | scripts/run_w5_provider_acceptance.py:204-208 | A rounded rate is the nearest number of ten-thousandths, the even one of two |
| ProviderGate.ExpectedCounts | scripts/run_w5_provider_acceptance.py:157-160 | Each category expects its number of tasks times the repetitions |
| ProviderGate.TallyRuns | scripts/run_w5_provider_acceptance.py:165-200 | Raises exactly when two runs share case and repeat, and names them; otherwise counts every category and the totals over the whole list |
| ProviderGate.ComputeCategoryTotals | scripts/run_w5_provider_acceptance.py:149-219 | Raises exactly on a repeated attempt; otherwise the summary holds the counts of the whole list and the gate decision |
| ProviderGate.FullCategoriesAddUp | scripts/run_w5_provider_acceptance.py:202-205 | Categories with exactly their expected counts add up to the expected count of all of them |
| ProviderGate.NoRunOutside | scripts/run_w5_provider_acceptance.py:202-213 | By counting alone: no run belongs to a category without tasks |
| ProviderGate.GateMeaning | scripts/run_w5_provider_acceptance.py:207-219 | The gate passes if and only if the run is complete, the total and every category are attempted exactly as expected, 0.89995 of all and 0.79995 of each category passed, and there is no violation or false completion |
| ProviderGate.RowMeaning | scripts/run_w5_provider_acceptance.py:157-213 | Each category row counts the runs filed under it, those that passed and those that did not, against its tasks times the repetitions; its threshold is met exactly when it is attempted as expected and 0.79995 of it passed |
| ProviderGate.GateByRuns | scripts/run_w5_provider_acceptance.py:207-219 | The gate in terms of the runs and tasks themselves |
| ProviderGate.GateCoversExactly | scripts/run_w5_provider_acceptance.py:180-219 | With distinct task ids and a passing gate, every (case, repeat) cell has a run if and only if every run is of a cell |
| ProviderGate.GateCountsCategoriesNotCells | scripts/run_w5_provider_acceptance.py:187-219 | A run of an unknown case in a known category passes the gate |
| Money.Inr | server/sandbox/munim_docs.py:19-32 | The loop prints the amount rounded to the shown digits, half away from zero, grouped, with sign and symbol |
| Money.RoundingMeaning | server/sandbox/munim_docs.py:21-21 | The printed number of units is a nearest one, and on a tie the one further from zero |
| Money.WholeUnitsStay | server/sandbox/munim_docs.py:21-21 | Rounding leaves an amount in whole units of the last shown digit as it is |
| Money.ValueOfDigits | server/sandbox/munim_docs.py:23-23 | The digits of a number have its value |
| Money.GroupsShape | server/sandbox/munim_docs.py:25-30 | The grouping loop yields two-digit groups, the first of one or two digits, that concatenate to the head |
| Money.PartsAreGrouped | server/sandbox/munim_docs.py:24-31 | The printed whole part is a last group of up to three digits with two-digit groups before it, concatenating to the whole part |
| Money.GroupingIsUnique | server/sandbox/munim_docs.py:24-31 | No other list of groups has that shape and content |
| Money.PrintedLayout | server/sandbox/munim_docs.py:19-32 | Read from left to right a printed amount is a minus sign exactly when negative, the symbol if asked for, the whole digits between commas in Indian groups without needless zeros, then a point and exactly the shown digits, or neither; the digits have the amount's value |
| Money.ScrubSimple | server/sandbox/munim_helpers.py:28-28 | On text without letters the cleaning pattern removes exactly the commas, symbol, brackets and spaces |
| Money.PrintThenParse | server/sandbox/munim_docs.py:19-32 | Printing then parsing any amount is the identity on the rounded amount, with any number of decimals, with or without the symbol |
| Money.PaiseComeBack | server/sandbox/munim_docs.py:19-32 | Every amount of whole paise, printed and parsed, is the same amount |
| Money.PrintThenParseMarked | server/sandbox/munim_helpers.py:26-34 | A debit mark after a printed amount changes nothing; a credit mark makes it minus its magnitude; in any letter case, with or without a dot |
| Money.PrintThenParseEnclosed | server/sandbox/munim_helpers.py:26-34 | Parentheses around a printed amount make it minus its magnitude |
| Money.PrintThenParseWithCurrency | server/sandbox/munim_helpers.py:18-34 | Rs, with or without a dot, or INR before a printed amount, in any letter case, with any spaces between, changes nothing |
| Money.PrintThenParseWithPlus | server/sandbox/munim_helpers.py:26-34 | A plus sign before a printed amount changes nothing |
| Money.GluedMarkIsNoAmount | server/sandbox/munim_helpers.py:18-34 | A debit or credit mark glued to the digits is not removed, and the text is no amount |
| Money.SpacesAround | server/sandbox/munim_helpers.py:20-34 | Space characters of any kind around a text never change what it reads as |
| NativeSession.Wait | scripts/native_session.py:43-54 | Turns are looked at in order, an abort before the deadline and the deadline before the queue; a message is taken at the first turn that brings one and only then, and waiting goes on only while an abort event is watched |
| NativeSession.EachRequestAnswered | scripts/native_session.py:57-70 | Every request of the runtime whose decision does not raise is answered, at its own place in order, with its own id |
| NativeSession.DecidedAnswers | scripts/native_session.py:57-70 | With a decision maker every request gets what was decided about it at its position, with its own id |
| NativeSession.DefaultAnswers | scripts/native_session.py:60-69 | Without one exactly changes and commands are declined, exactly permission requests are granted nothing, and exactly elicitations get their own refusal |
| NativeSession.NothingElseAnswered | scripts/native_session.py:58-70 | There are exactly as many answers as such requests |
| NativeSession.NothingElse | scripts/native_session.py:57-69 | A message without id or method is never answered, nor is a request of an unknown kind without a decision maker |
| NativeSession.ReplyMeaning | scripts/native_session.py:80-80 | A reply bears no method and the number itself, or true for number one |
| NativeSession.AnswersGrow | scripts/native_session.py:57-70 | Answers to later messages come after those to earlier ones |
| NativeSession.DefaultsGrantNothing | scripts/native_session.py:60-69 | Without a decision maker no answer ever grants anything |
| NativeSession.Session.constructor | scripts/native_session.py:17-24 | A session starts with an empty log and no request sent |
| NativeSession.Session.Next | scripts/native_session.py:41-71 | Takes the head of the queue, logs it, answers it if it asks, and returns it; raises on abort, silence, exit or an undecided request, in each case with exactly the stated change of queue, log and output |
| NativeSession.Session.Rpc | scripts/native_session.py:73-84 | Sends one request under a fresh number and ends with the first later reply to that number: its result, its failure, or no such reply in time; nothing is lost from queue or log |
| NativeSession.Session.WaitFor | scripts/native_session.py:90-101 | Returns the earliest match at or after since, logged before or after the call, and takes nothing off the queue if it was logged before; a since past the end counts as the end, a negative one from the end, but not before the start; when it raises nothing from there on matched |
| NativeSession.FirstMatch | scripts/native_session.py:93-100 | The first index from a start whose message matches, or none |
| RefRegistry.FirstsAreDistinct | server/bridge/munim_bridge.py:537-542 | No two numbers stand for the same control key |
| RefRegistry.FirstsHaveAll | server/bridge/munim_bridge.py:537-542 | Exactly the keys ever listed have a number |
| RefRegistry.IssuedNumbersStay | server/bridge/munim_bridge.py:538-542 | A number once given never changes its key, whatever is listed later |
| RefRegistry.LastOfMeaning | server/bridge/munim_bridge.py:536-546 | A snapshot shows exactly the keys it listed, each as its last entry |
| RefRegistry.ListingMeaning | server/bridge/munim_bridge.py:522-547 | Each item of each of the first twelve frames stands behind the items of the frames before it, under its frame and local number, and is marked when its frame is not the first |
| RefRegistry.HitsMeaning | server/bridge/munim_bridge.py:608-620 | The controls with a role and a name are a single one exactly when one shown number has both and no other has |
| RefRegistry.PageRefs.Number | server/bridge/munim_bridge.py:537-542 | A known key keeps its number, a new one gets the next; both maps stay inverse and nothing else changes |
| RefRegistry.PageRefs.NothingRenumbered | server/bridge/munim_bridge.py:537-542 | Between any two moments at which the maps number what was listed, no key loses or changes its number |
| RefRegistry.PageRefs.Snapshot | server/bridge/munim_bridge.py:522-547 | Over the first twelve frames, skipping those that raise, lists and numbers every item; the two maps number all keys ever listed in order of first appearance |
| RefRegistry.PageRefs.Observe | server/bridge/munim_bridge.py:729-748 | Takes a snapshot and remembers role and name under each shown number |
| RefRegistry.PageRefs.Resolve | server/bridge/munim_bridge.py:596-620 | Returns the control of the number's own key if visible, else the only number of a fresh snapshot shown with the role and name last seen, else raises, exactly when there is no such one; no number changes |
| RefRegistry.PageRefs.ByName | server/bridge/munim_bridge.py:671-679 | Returns a number if and only if exactly one shown control has the name |
| TallySync.ParseBills | server/bridge/tally_sender.py:62-77 | The loop gives the usable ones of the reference reading: one bill per marker, in order |
| TallySync.ReadMeaning | server/bridge/tally_sender.py:62-77 | The reading has one bill for each marker, in order: what the marker says, the size of the last closing balance and the last due date before the next marker or the end, or zero and none |
| TallySync.SplitGrows | server/bridge/tally_sender.py:65-76 | One element more opens a bill or amends the last one, whatever came before |
| TallySync.UsablesMeaning | server/bridge/tally_sender.py:77-77 | Exactly the bills with party, number, positive amount and date are kept |
| TallySync.WrittenReadsBack | server/bridge/tally_sender.py:62-77 | Writing usable bills as a report, each balance with either sign, and reading it gives the same bills |
| TallySync.BuildPayload | server/bridge/tally_sender.py:90-105 | For each bill of a party with ten digits of phone number, in order, one row with that party, number, amount, phone and tax number, due on the bill's due date or else creditDays after its date; the other parties are listed; for each payable one row with its supplier, number, date, amount, tax number and class |
| TallySync.HavingMeaning | server/bridge/tally_sender.py:94-101 | A bill is sent if and only if the directory has a number of ten digits or more for its party |
| TallySync.HavingAppend | server/bridge/tally_sender.py:94-101 | Parting bills keeps their order |
| TallySync.SplittingKeepsMoney | server/bridge/tally_sender.py:94-101 | The bills sent and the bills kept back add up to the input amount |
| TallySync.SplittingKeepsBills | server/bridge/tally_sender.py:94-101 | Every bill is on exactly one side, as often as it was given |
| TallySync.PartiesApart | server/bridge/tally_sender.py:96-101 | No party is both sent to and listed as without a phone number |
| TallySync.Count | server/bridge/tally_sender.py:118-118 | The number of parts of 5000 is the least that holds the longer list, and at least one |
| TallySync.Send | server/bridge/tally_sender.py:115-123 | Posts the parts in order and stops at the first that raises; otherwise posts all and returns the last reply |
| TallySync.PartsMakeUpTheLists | server/bridge/tally_sender.py:118-119 | The posted parts concatenate to a first part of both lists, to all of both once every part is posted, with at most 5000 rows of each kind in each |
| TallySync.SyncConserves | server/bridge/tally_sender.py:108-123 | From report to server: the amounts posted and the amounts kept back are the amounts of the usable bills |
| NightlySync.StepStaysCurrent | server/bridge/munim_bridge.py:1350-1362 | A step leaves every config that can come into force with the newest stamp if and only if it puts no stale copy on disk |
| NightlySync.AtMostOnceExactly | server/bridge/munim_bridge.py:1350-1371 | With starts, stops, deaths, toggles, pairing and unpairing anywhere and any clock: every attempt begins at two o'clock or later and on a later date than all stamps before it, if and only if no enabled helper polls a stamped date with a config that lacks such a stamp |
| NightlySync.CarefulIsInformed | server/bridge/munim_bridge.py:1350-1384 | That is so in every run that never overwrites the file with a config missing a stamp |
| NightlySync.AtMostOncePerDate | server/bridge/munim_bridge.py:1350-1371 | When helpers are so informed, any two attempts begin at two o'clock or later on different dates, the later one after the earlier one's stamp |
| NightlySync.Calendar | server/bridge/tally_sender.py:126-130 | Dates and hours are those of the calendar: a time lies within its hour of its date |
| NightlySync.EveryPolledDateServed | server/bridge/munim_bridge.py:1350-1371 | Each date on which an enabled helper polls to the end at two o'clock or later has a stamp in the end, whatever is toggled, paired or lost on the way, if that poll's clock is past the stamps made before it |
| NightlySync.OnlyOneServes | server/bridge/munim_bridge.py:1358-1362 | When helpers are informed, no date has two stamps |
| NightlySync.OwnAttemptExactly | server/bridge/munim_bridge.py:1358-1366 | A stamped date has a sync tried on it if and only if its stamp comes neither from the loaded config, nor from a poll of an earlier date, nor from a helper that died before trying |
| NightlySync.MidnightTakesTheNextDate | server/bridge/munim_bridge.py:1358-1360 | A check just before and a stamp just after midnight leave the new date without an attempt |
| NightlySync.DeathTakesTheDate | server/bridge/munim_bridge.py:1360-1364 | A helper that dies between saving the stamp and trying leaves the date without a sync, although an enabled helper polls it again |
| NightlySync.RacingToggleRepeats | server/bridge/munim_bridge.py:1376-1384 | A toggle that read the file before an attempt and wrote it after leads to two attempts on one date |
| NightlySync.PairingAgainRepeats | server/bridge/munim_bridge.py:1104-1104 | Pairing again between two polls leads to two attempts on one date |
| NightlySync.DisableLastsUntilTheNextAttempt | server/bridge/munim_bridge.py:1360-1362 | Against a running helper the switch stays off exactly until the next attempt |
| NightlySync.UnpairLastsUntilTheNextAttempt | server/bridge/munim_bridge.py:1601-1604 | Beside a running helper the file stays gone exactly until the next attempt, which writes the pairing back |
| NightlySync.StoppedIsQuiet | server/bridge/munim_bridge.py:1350-1371 | A stopped helper tries nothing until it is started again |
| NightlySync.Helper.MaybeTallySync | server/bridge/munim_bridge.py:1350-1371 | One poll changes memory, file and log as the reference step does, and attempts exactly when it lives, the hour is two or later, the sync is enabled and its stamp is of an earlier date or missing |
| NightlySync.Helper.Toggle | server/bridge/munim_bridge.py:1374-1386 | The command line's read and write without anything in between; a file that cannot be read becomes a fresh config |
| Documents.EscapeIsPerCharacter | server/sandbox/munim_docs.py:35-36 | The six whole-text replacements in turn are one replacement of each character |
| Documents.EscapeIsInjective | server/sandbox/munim_docs.py:35-36 | Different texts are escaped differently |
| Documents.RendersEscaped | server/sandbox/munim_docs.py:35-36 | Escaped text, wherever it stands, opens and closes no element and shows exactly the text |
| Documents.RendersTag | server/sandbox/munim_docs.py:108-147 | An element around well-nested content is well nested and shows the content |
| Documents.MoneyCellReadsBack | server/sandbox/munim_docs.py:39-44 | A money cell parses back to its amount in paise, a blank one to no amount |
| Documents.ShownMeaning | server/sandbox/munim_docs.py:156-159 | A cell of words shows the words; a bar shows a dash for nothing or zero, else its words, or rupees that read back as its amount |
| Documents.RowReads | server/sandbox/munim_docs.py:140-146 | A row shows its cells in order up to the shorter of row and columns, each by the kind of its own column, money cells as rupees that read back |
| Documents.BarsRead | server/sandbox/munim_docs.py:131-134 | A chart shows each title with its value in order, as rupees that read back when it is of money |
| Documents.Top | server/sandbox/munim_docs.py:130-130 | The scale of a chart is the largest value, or the tiny default |
| Documents.BarsFit | server/sandbox/munim_docs.py:151-153 | Every bar is between 0 and 100 per cent wide, and a bar at the top of the scale exactly 100 |
| Documents.WidthMeaning | server/sandbox/munim_docs.py:151-153 | A width is the nearest number of tenths of a per cent of the scale, zero for nothing and below |
| Documents.TrackMeaning | server/sandbox/munim_docs.py:151-153 | A bar above zero is one element whose style gives that width with one digit after the point |
| Documents.RendersStats | server/sandbox/munim_docs.py:121-127 | Statistics are well nested and show label, value and hint of each in order |
| Documents.RendersChart | server/sandbox/munim_docs.py:128-135 | Charts are well nested and show the title, then each label with its value |
| Documents.RendersTable | server/sandbox/munim_docs.py:136-147 | Tables are well nested and show caption, headings, cells row by row or the empty notice, and the total row |
| Documents.RendersBlock | server/sandbox/munim_docs.py:104-147 | Every block kind is well nested and shows exactly its texts in order |
| Documents.StandIns | server/sandbox/munim_docs.py:115-142 | A table without rows and a signature without a name show their stand-ins |
| Documents.BlocksHtml | server/sandbox/munim_docs.py:104-148 | Raises exactly when some bar, or some cell of a rupee column, is shown and no number; otherwise the HTML of the known blocks, one below the other |
| Documents.RaisesMeaning | server/sandbox/munim_docs.py:128-146 | A block raises exactly when a bar, or a cell of a rupee column in a row or the total, shows something that is no number |
| Documents.KnownMeaning | server/sandbox/munim_docs.py:104-148 | Exactly the blocks of a known type are rendered |
| Documents.BlocksRender | server/sandbox/munim_docs.py:104-148 | For every list of blocks the HTML is well nested with br as the only element without an end tag, and its text is the blocks' texts in order |
| Documents.PageRenders | server/sandbox/munim_docs.py:166-175 | The same for the body of the whole document with foot, header and details |

## Left out

- Floating point: rupees, tokens, seconds and rates are exact reals, so binary rounding, infinities and NaN of the original are not modelled; a report that parses an amount as infinite would keep it.
- RateLimiting.WindowBound: capacity, refill rate and requests are amounts, not negative; the call times of the window do not go back, which BoundHoldsExactly shows to matter.
- RateLimiting: header values are integers, not strings; finding the client's address is not modelled.
- WorkerBudget.SpendStaysWithin: needs reports within the reserved worst case; ModestExactly and ImmodestReportOverspends show why.
- WorkerBudget.ChainCountsExactly: the chain is linear; nothing stops a user from continuing one report twice, and then each continuation forgets the other. A report cut short while it is written counts as not saved, and an accepted ledger is compared with the report by its number of requests only, as in the code.
- WorkerBudget: the HTTP client, the JSON decoding of rollout lines and errors in it are inputs; the length of the payload in bytes is a parameter.
- LiveLedger.SentWithinApproval: the chain of processes is linear; two processes that carry the same ledger are not modelled, and replacing the ledger file is atomic, as its writer makes it with a temporary file and one replacement (src/smara/native_profiles.py:83-95).
- LiveLedger: the checks of saved reports and workspaces around the chain walk.
- SandboxRunner: the subprocess, its limits and its result text; the server's removal of old job directories; a result file cut short by a stop.
- EvaluationMatrix: matching of sealed file digests, declared ceilings and models on resuming; the elapsed seconds carried over are part of the clock parameter; spend discarded by retrying, which drops recorded bills too; latency and coverage statistics.
- EvaluationMatrix.ResumedEqualsUninterrupted: tasks have distinct ids and outcomes depend on the cell only.
- ProviderGate: token totals and rupee estimates of the summary; the loop that makes the attempts.
- Money: letters beyond ASCII count as no word characters; exponents, underscores, infinities and NaN that float() accepts are not read.
- Money: the totals of bank statements and the other readers of exports.
- NativeSession: starting and closing the process, and failing writes to it; the decision maker is any function of the message and its position.
- RefRegistry: the page script, scroll position, live messages, and reuse of an identifier by a new page; numbers are stable for keys, not for page elements across navigation.
- RefRegistry: describing what changed on a page, the loop warning, settling and the restart delay of the helper, all of which read more of the page or the system.
- TallySync: decoding of XML, dates and numbers; the list of skipped parties is a set, not sorted; company classes are looked up by a function.
- TallySync.BuildPayload: bills have dates, as parsing ensures.
- NightlySync: local time has a fixed offset, so no daylight saving; two helpers at once; a failed save other than by dying, and a toggle's save cut short; running the sync by hand, which makes no stamp.
- Documents: the head of the document and its style sheet, PDF and Word output; a bar's width is rounded half away from zero where the original rounds binary fractions.
- Documents: values that are no text, number or None, and number spellings that only one of float and Decimal accepts.
- Documents: which class, colour or alignment an element carries.
