# NotifyRelay's delivery core

NotifyRelay accepts a notification, writes one delivery per target into a durable queue, and has workers send it
through a channel (DingTalk, WeCom, Feishu, Slack and others). This project models what a delivery goes through
from its enqueue to a terminal state, and the guards every send passes on the way.

- **The queue.** `Deliveries` is the two tables and what one transaction does to them; `QueueStore` and `Spool` are
  the objects that do it in place; `QueueWorker` is what a worker does with a claimed batch. `QueueSystem` runs
  several workers, the orphan sweep, retention, replays, crashes, and failing writes against one clock, one
  transaction or spool operation at a time. `QueueOutcomes` says field by field where each step leaves a
  delivery and how its life ends, `QueueDrain` that the worker's loop is a run of those steps. `QueueExclusive`,
  `QueueFinality`, `QueueLedger`, `QueueBudget`, `QueueKeeping` and `QueueBodies` prove what every run keeps;
  `QueueRace` builds the runs in which it is lost.
- **The breaker.** `Breaker` is one channel's breaker written through to its store; `BreakerSystem` interleaves
  deliveries with operator resets, settings changes, restarts and a store that may fail; `BreakerProbes` adds a clock.
- **The quota.** `Quota` is the limiter with its in-memory windows and persisted counters; `QuotaWindow` proves what
  dropping the oldest entry does to a sliding window, `QuotaLedger` what the counters count while the transactions of
  concurrent reservations interleave.
- **The router.** `Router` is one delivery's path through breaker, quota, pacing and channel, and how each is settled.
- **Length limits.** `Overflow` is splitting, truncation and the budgets, `OverflowChunks` what a message comes out
  as; `Payload` is the text each channel builds from a part, measured against the limits it declares.
- **Smaller loops.** `RateLimit` (the slot per interval), `Template` (placeholders), `ChannelConfig` (sealing stored
  credentials, masking them in a form, merging the form back).

A state-changing object is a class whose methods are proved equal to a function on values; the theorems are then
about that function, over every run of a state machine whose steps are those functions. `dafny verify dfyconfig.toml`
checks the whole project.

## Where code and prose disagree

The model follows the code. In these places the repository's own comments or documentation say something else.

- `README.md` and `internal/config/config.go` say that a claim timeout above the deliver timeout keeps a slow delivery
  from being sent twice. A batch is claimed at one instant and worked through one item at a time, and a finish does
  not look at the row's status or claim, so with two workers the rule is enough only when the *whole batch* fits in a
  claim. `QueueFinality.SentIsFinalExactly` gives the condition in both directions, `QueueFinality.StaleFinish` the run
  in which a sent delivery is taken out of sent again.
- `internal/queue/worker.go` keeps a body until the delivery is sent or its retention is over. A completion that the
  store refuses discards it all the same, and so, with every write accepted, does a sent delivery that a late answer
  brings back: `QueueBodies.BodiesKeptExactly` says for which configurations that cannot happen.
- `internal/breaker/breaker.go` says of handing a slot back that it does not over-admit. A delivery admitted while the
  breaker was closed holds no slot, and when it settles during a later half-open phase it frees somebody else's.
  `BreakerProbes.ProbeLimitExactly` gives the condition in both directions: the limit on probes holds as long as no
  delivery is out for as long as the open timeout.
- `internal/quota/quota.go` says the oldest entry is the one the reservation added. It need not be.
  `QuotaWindow.WindowBoundExactly` says when the window keeps its limit all the same: exactly when what is given back
  is given back inside the window. For the one-second window any send slower than a second is too late.
- A refusal is meant to leave the allowance as it was. When the month refuses after the day was charged, the day stays
  charged; `QuotaLedger.StrandsExactly` shows this happens in some run exactly when both are limited.
- `internal/store/sqlite/quota.go` says a release is never clipped at zero; the statement's `count > 0` clips it.
  `QuotaLedger.CountersBalance` shows the clip is never reached when each unit is released at most once.
- `internal/channel/result.go` speaks of a mixed batch in terms of transient failures. A batch in which some recipient
  was accepted and the rest could not be connected to is a connect error, and so gives its allowance back though a
  peer did answer: `Channel.FromRecipients` says exactly when, `Router.EveryPartSettledOnce` what a connect error costs.
- `internal/config/channels.go` takes a value that starts with the sealed marker for one already sealed. A plaintext
  that merely starts with it is stored as typed and does not read back: `ChannelConfig.RoundTripExactly` and
  `ChannelConfig.PrivateIsMarked` give the exact condition.
- `internal/router/ratelimit.go` takes a declared rate for a ceiling and spaces deliveries so as not to exceed it. The
  interval is rounded down to whole nanoseconds, so a rate that does not divide a second evenly lets one more through
  in some seconds: four at three a second. `RateLimit.RateKeptExactly` gives the condition.
- A link costs five characters around its text and URL in DingTalk, WeCom and Feishu, and the budget sets aside four.
  The declared overhead absorbs the difference up to a number of links: `Payload.MaxLinksExact`.

## Model

The theorems come first, the nine exact conditions at their head; then the methods and functions they are about.

| member | source | states |
|---|---|---|
| `QueueFinality.SentIsFinalExactly` | internal/store/sqlite/queue.go:211-217 | For every valid configuration: no timely run ever takes a delivery out of sent if and only if there is one worker or the batch fits in the claim; the configured rule alone gives it for a batch of one |
| `QueueBudget.EarnedExactly` | internal/queue/worker.go:371-449 | Under any policy: the attempts of a life are answered for once each, numbered one, two, three, and "attempts exhausted" is the verdict exactly when the life drew MaxAttempts transient answers, a pending delivery having spent one attempt per transient answer with some left, if and only if there is one worker or the batch fits in a claim. The exhaustion half alone holds for every policy if and only if the same |
| `QueueOutcomes.EndsWellExactly` | internal/queue/worker.go:333-449 | In every timely run a delivery that was sent, permanently rejected or found without its body takes no further record in that life and is sent or failed accordingly, and none is given up otherwise but for its attempts or its age, if and only if there is one worker or the batch fits in a claim |
| `QueueBodies.BodiesKeptExactly` | internal/queue/worker.go:362-369 | Every timely run in which each completion is written keeps the body of every delivery that may still be sent or replayed, for as long as failed ones are retained, if and only if there is one worker, or the batch fits in a claim, or that retention does not outlast a claim |
| `QueueBudget.LifeIsBoundedExactly` | internal/queue/worker.go:333-449 | One life of a delivery, enqueue or replay to terminal, records at most MaxAttempts + ceil(MaxAge / ReleaseDelay) outcomes other than shutdown releases, for every retry policy, if and only if there is one worker or the batch fits in a claim |
| `BreakerProbes.ProbeLimitExactly` | internal/breaker/breaker.go:41-50 | For all settings, and every interleaving with resets, restarts and store failures: a half-open breaker never has more probes in flight than its limit if and only if no delivery is out for as long as the open timeout |
| `QuotaWindow.WindowBoundExactly` | internal/quota/quota.go:223-235 | For every limit and width: no span of one window width ever holds more charged reservations than the limit if and only if every reservation that is given back is given back inside the window |
| `QuotaLedger.StrandsExactly` | internal/quota/quota.go:156-191 | No refusal ever leaves a unit charged, in any interleaving of the store's transactions, if and only if at most one of day and month is limited |
| `RateLimit.RateKeptExactly` | internal/router/ratelimit.go:55-113 | For every whole rate p: no second of any run sees more than p slots if and only if p divides a second into whole nanoseconds, or is at least one per nanosecond |
| `QueueExclusive.ClaimsAreExclusive` | internal/store/sqlite/queue.go:66-129 | If a full batch at one deliver timeout per item fits in the claim timeout, then in every run that meets its deadlines each live worker holds the current claim, with current copies, of everything still in its hands, and no delivery is in two places |
| `QueueExclusive.StepKeepsExclusive` | internal/queue/worker.go:304-330 | Every single step, sweeps and crashes included, keeps those exclusive claims |
| `QueueExclusive.HeadWritten` | internal/store/sqlite/queue.go:211-217 | Whatever a worker writes to the row of its head item, the other workers' claims and its own later ones stand |
| `QueueExclusive.WithinClaim` | internal/config/config.go:527-531 | A worker on schedule is inside its claim however far through the batch it is |
| `QueueFinality.CopiesAreCurrent` | internal/queue/worker.go:304-330 | With one worker, or a batch that fits in a claim, every worker's copy of what it still holds is current, of a row that is still pending |
| `QueueFinality.LoneRun` | internal/store/sqlite/queue.go:305-325 | With a single worker that needs no claim bound: a swept row waits for the worker that still has it |
| `QueueFinality.SentStaysSent` | internal/queue/worker.go:304-330 | One worker, or a batch that fits, is enough |
| `QueueFinality.OnlyHoldersOverwrite` | internal/store/sqlite/queue.go:161-228 | If no worker holds a delivery, no step of any kind takes it out of sent |
| `QueueFinality.StaleFinish` | internal/queue/worker.go:304-330 | Otherwise, for any such workers, batch and timeouts, a late answer takes a sent delivery back out of sent: into the queue if the policy has a try left, to failed if not |
| `QueueRace.Contest` | internal/queue/worker.go:304-330 | Any two workers, batch and timeouts with a batch that outlasts a claim: from any waiting delivery there is a timely run, losing no record, that ends with two workers holding it |
| `QueueOutcomes.PermanentGoes` | internal/queue/worker.go:371-372 | A permanent rejection fails the delivery at once with its own reason, whatever its attempts and age, with one charged record, and keeps the body; nothing else changes |
| `QueueOutcomes.TransientGoes` | internal/queue/worker.go:429-449 | A transient failure puts the delivery back, due after the listed wait for its new attempt number, exactly while attempts + 1 and age are below their limits; otherwise it is failed as exhausted, or else as expired. One attempt is spent either way |
| `QueueOutcomes.NoRoomGoes` | internal/queue/worker.go:402-425 | A connect error or "not attempted" puts it back unspent, due one release delay from now, exactly while attempts and age are below their limits; otherwise it is failed |
| `QueueOutcomes.SentGoes` | internal/queue/worker.go:362-369 | Sent: delivered now with one charged record, and its body gone |
| `QueueOutcomes.UnreadableGoes` | internal/queue/worker.go:338-346 | A body that cannot be read fails the delivery as such, with a record that says so |
| `QueueOutcomes.HandedBackGoes` | internal/queue/worker.go:319-324 | Told to stop, what is in flight goes back due at once and unspent; anything else is left alone |
| `QueueOutcomes.RefusedGoes` | internal/queue/worker.go:362-369 | A write the store refuses leaves the tables as they were, whatever the answer; the body of what was sent is gone all the same |
| `QueueOutcomes.TooLateGoes` | internal/store/sqlite/queue.go:243-294 | A put-back of a row no longer in flight, and any answer for a row that is gone, change no table |
| `QueueOutcomes.MovesOn` | internal/queue/worker.go:318-327 | Either way the worker is at its next item, begun now, or is done; no other worker is touched |
| `QueueOutcomes.ClaimedInOrder` | internal/store/sqlite/queue.go:80-90 | A batch is distinct due rows, at most the limit, longest due first and then oldest; a due row left out means a full batch none of which comes after it |
| `QueueOutcomes.ClaimedGoes` | internal/store/sqlite/queue.go:92-128 | A claimed row is in flight since now and otherwise as it was; the worker has a copy of each in that order, and no other row changes |
| `QueueOutcomes.EnqueuedGoes` | internal/store/sqlite/queue.go:18-58 | A new delivery is queued and due as of its creation, with no attempts and no records, and no other row changes |
| `QueueOutcomes.SweptGoes` | internal/store/sqlite/queue.go:305-325 | The sweep requeues exactly what has been in flight for longer than a claim, due as before |
| `QueueOutcomes.ReplayedGoes` | internal/store/sqlite/queue.go:505-524 | A replay gives exactly the failed delivery it names a new life, due now, with creation time and records kept |
| `QueueOutcomes.PrunedGoes` | internal/store/sqlite/queue.go:390-402 | Retention removes exactly what was sent, or failed, longer ago than each is kept, records included |
| `QueueOutcomes.PrunedBodies` | internal/store/spool/spool.go:113-146 | Bodies go by their own age alone, and the tables stay |
| `QueueOutcomes.StepEndsWell` | internal/store/sqlite/queue.go:161-228 | With current copies, every step keeps how lives end |
| `QueueOutcomes.EndsTwice` | internal/store/sqlite/queue.go:211-217 | Otherwise a life holds "sent" and a transient failure after it |
| `QueueDrain.DrainIsARun` | internal/queue/worker.go:318-327 | The loop over a claimed batch, stopped or not and with any writes refused, is the worker going through the same moments in the queue, one clock tick and one settled or handed back head per item, to the same tables and bodies |
| `QueueDrain.TakenCounts` | internal/queue/worker.go:318-327 | The number it reports is how many items were not handed back |
| `QueueLedger.AttemptLedger` | internal/store/sqlite/queue.go:190-217 | In every interleaving, stale finishes and crashes included, a row's attempt counter is the number of its attempt records since its enqueue or last replay that are not releases |
| `QueueLedger.StepKeepsBalance` | internal/store/sqlite/queue.go:243-294 | Each transaction moves counter and records together, or neither |
| `QueueBudget.LifeIsBounded` | internal/queue/policy.go:61-100 | One worker, or a batch that fits, is enough for it |
| `QueueBudget.Overrun` | internal/queue/worker.go:402-449 | Otherwise one release and two answers to one attempt overrun the bound of some policy |
| `QueueBudget.ExhaustedMeansVerdicts` | internal/queue/policy.go:89-100 | One worker, or a batch that fits, is enough for it |
| `QueueBudget.NotEarned` | internal/store/sqlite/queue.go:211-217 | Otherwise two workers answer for one attempt, and counter and verdicts part, under every policy of up to three attempts, or whose backoffs let all but the last three retries be waited for within the age limit, or whose age limit outlasts a claim |
| `QueueBudget.NotNumbered` | internal/store/sqlite/queue.go:190-217 | And under every policy a life then holds two records of the same attempt |
| `QueueBudget.RunsStayInBudget` | internal/queue/policy.go:61-100 | The invariant behind both: remaining attempts and remaining age against the records of the current life |
| `QueueBudget.VerdictKeepsRow` | internal/queue/worker.go:371-449 | One decision on one row keeps its budget, for all five classes and an unreadable body |
| `QueueKeeping.NeverStuck` | internal/store/sqlite/queue.go:80-113 | In every run, once its instant has come, a sweep leaves a pending delivery due, and the next claim takes it or is full of rows that do not come after it |
| `QueueKeeping.AlwaysFindable` | internal/store/sqlite/queue.go:305-313 | In every run a row in flight says since when, so the sweep can see it |
| `QueueKeeping.RowsLeaveByRetention` | internal/store/sqlite/queue.go:390-402 | A row leaves the table by retention and nothing else, exactly when it is terminal and past its time |
| `QueueBodies.BodiesStay` | internal/queue/worker.go:172-213 | Each of the three is enough, as long as no completion is lost |
| `QueueBodies.BodyGone` | internal/queue/worker.go:531-538 | With none of them a late answer brings a sent delivery back without its body, though every write succeeded |
| `QueueBodies.AlwaysYoungHeld` | internal/store/sqlite/queue.go:305-325 | In every run, whatever the timeouts, a delivery younger than the claim timeout is in one worker's hands at most, and in flight while it is |
| `QueueBodies.BodySurvivesExactlyWhenRecorded` | internal/queue/worker.go:362-369 | After a pending delivery went out, row and body agree, sent and discarded, if and only if the completion was written; otherwise the row is pending as before with no body |
| `BreakerSystem.NoStrandedSlot` | internal/breaker/breaker.go:197-247 | In every interleaving slots taken never exceed deliveries out and are zero outside half-open; with nothing out, every breaker not inside its open timeout admits |
| `BreakerSystem.StepAccountsSlots` | internal/breaker/breaker.go:324-377 | Each step, resets, settings changes, restarts and store failures included, keeps that account |
| `BreakerSystem.ProbesBounded` | internal/breaker/breaker.go:197-247 | However slow deliveries are, the probes of the current phase in flight exceed the limit by at most the deliveries from before it that settled in it; without those the slot count is exact |
| `BreakerSystem.AbandonKeepsExactCount` | internal/breaker/breaker.go:235-247 | Handing a slot back keeps the slot count exact if and only if the delivery was a probe of this phase, or no slot is taken |
| `BreakerProbes.AlwaysNoStrays` | internal/breaker/breaker.go:197-247 | When deliveries are that fast, everything in flight in a half-open phase is a probe of that phase |
| `BreakerProbes.StrayLetsOneMoreOut` | internal/breaker/breaker.go:225-247 | When they are not, for any settings there is a run with one probe more in flight than the limit |
| `BreakerSystem.MovesExactly` | internal/breaker/breaker.go:197-340 | With a working store, restarts and settings changes included, event by event and both ways: closed opens exactly on the transient or connect error that completes FailureThreshold of them with no sent or permanent answer, reset or restart between; half-open opens again on any of those, dated now, and closes exactly on a reset or the sent or permanent answer that makes SuccessThreshold of the phase, exactly that many under fixed settings; open becomes half-open exactly on an arrival after the timeout and closes exactly on a reset. Everybody is admitted when closed, nobody before the timeout when open, and as many as there are free slots when half-open |
| `BreakerSystem.StepMovesRight` | internal/breaker/breaker.go:275-321 | One step of the same |
| `Breaker.Defaults` | internal/breaker/breaker.go:53-79 | Five failures, two answers, a minute, one probe, each only where not set |
| `BreakerSystem.FaultsOpen` | internal/breaker/breaker.go:295-321 | Any sequence of transient and connect-error outcomes, at any instants, opens a closed breaker exactly when it reaches the threshold, dated by the outcome that did |
| `BreakerSystem.AlwaysAgreed` | internal/store/sqlite/state.go:80-126 | With a working store, and settings changed at any time, memory and store agree on mode and opening instant after every step |
| `BreakerSystem.RestartForgetsCountsOnly` | internal/breaker/breaker.go:348-397 | With a working store, settings changed at any time: a restart forgets slots, successes and the failures of a closed breaker, and nothing else |
| `BreakerSystem.OpenRefusesAcrossRestarts` | internal/breaker/breaker.go:197-222 | With a working store, however often it is restarted and its settings are changed, an open breaker stays open and admits nobody who arrives before its timeout, as set at the time, is up |
| `QuotaWindow.WindowBound` | internal/quota/quota.go:121-154 | Given back inside the window is enough, whatever entry a release drops |
| `QuotaWindow.LateReleaseOverspends` | internal/quota/quota.go:299-306 | Otherwise, for any limit, there is a run that charges one more than the limit at a single instant |
| `QuotaWindow.DropDominates` | internal/quota/quota.go:299-306 | Dropping the oldest entry in place of the reservation's own leaves a list that counts at least the exact ledger at every cutoff |
| `QuotaWindow.ReleaseDominatesExactly` | internal/quota/quota.go:223-235 | For every ledger the list dominated before, if and only if the released entry is still inside the window or the list is empty |
| `QuotaWindow.TakeKeeps` | internal/quota/quota.go:121-154 | A granted reservation keeps every span within the limit |
| `QuotaLedger.CountersBalance` | internal/store/sqlite/quota.go:18-78 | In every run, store failures included, each day or month counter is the units taken less the units given back in that period, and within its limit |
| `QuotaLedger.CounterSplits` | internal/quota/quota.go:156-221 | A counter is the calls answered, the units held, those a refused month left behind and those whose release the store refused; with at most one of day and month limited and releases written, the calls answered and the units held and nothing else |
| `QuotaLedger.DayUnitLeft` | internal/quota/quota.go:179-187 | With both limited there is a run in which a refused month leaves the day charged |
| `QuotaLedger.AskingReserves` | internal/quota/quota.go:156-191 | Its two transactions for one reservation grant, refuse and charge as one call of the limiter does: a unit of each limited period the store answers for, or a refusal that leaves only the day charged |
| `QuotaLedger.GivingUpSettles` | internal/quota/quota.go:205-221 | And its releases take one unit from each counter held, where the store allows it, as one settlement does |
| `Quota.Limiter.Spend` | internal/router/router.go:623-660 | Reserve, call, settle: a call that reached the peer costs each limited period that could be asked one unit, and each limited window one entry; one that did not leaves every counter as it was if the store takes the release, and a window one entry shorter at the front |
| `Quota.RoomExactly` | internal/quota/quota.go:121-144 | A window has room exactly when it is unlimited or fewer sends than its limit came strictly within the last second, minute or hour |
| `Router.SkipIffNotAttempted` | internal/router/router.go:677-698 | For an admitted delivery, whatever the answers, a skip reason is given if and only if the class is "not attempted"; `Router.Deliver` states it for the refused ones too |
| `Router.ReportsMostSevereCall` | internal/router/router.go:800-805 | The class reported is the maximum over the calls made, and one of them gave it |
| `Router.EveryPartSettledOnce` | internal/router/router.go:606-659 | On every path the trace is the parts' turns in order, and a part gets one exactly when no part before it was held back: no allowance; reserved and given back; or reserved, called, and then given back if the peer was not reached and charged if it was |
| `Router.ChargedForAnswers` | internal/router/router.go:650-659 | Units kept by a delivery are its calls whose normalised class is not a connect error |
| `Router.BreakerSettledOnce` | internal/router/router.go:574-584 | An admitted delivery settles with the breaker exactly once, last: with its class when the channel was called, by giving the slot back when not |
| `Router.FirstPartDecides` | internal/router/router.go:598-639 | No parts is permanent without a reason; a first part held back is "not attempted", for want of allowance or of a slot; otherwise the channel is called and no reason is given |
| `Payload.PayloadsWithin` | internal/router/overflow.go:22-69 | End to end: each payload built from each part keeps to the declared characters and bytes, for up to 9999 parts |
| `Payload.WithinExactly` | internal/router/overflow.go:85-118 | All bodies within the budget render within the limits if and only if head, links and marker cost no more than was set aside |
| `Payload.MaxLinksExact` | internal/channel/dingtalk/dingtalk.go:29-38 | The number of links each channel's overhead has room for, and not one more; Slack needs none |
| `Payload.TextLength` | internal/channel/wecom/wecom.go:320-342 | The rendered length to the character and byte |
| `Payload.HeadCosts` | internal/channel/feishu/feishu.go:27-34 | An alert has the costliest head, and with the declared overhead leaves room for exactly the stated links |
| `Payload.HeadReads` | internal/channel/wecom/wecom.go:320-356 | What each channel writes for a message without links, literally, by severity |
| `Payload.LinkReads` | internal/channel/dingtalk/dingtalk.go:195-203 | One link more is one line more at the end: Markdown with text and address in that order, Slack's own form, or the bare address |
| `Payload.PlatformLimits` | internal/channel/wecom/wecom.go:30-33 | The declared limits of each channel in characters and bytes |
| `Payload.MarkerShort` | internal/router/overflow.go:49-64 | Up to 9999 parts the marker stays within the twelve characters set aside |
| `Payload.MarkersExactly` | internal/router/overflow.go:49-64 | What is set aside for part markers is enough for all of n parts if and only if n is at most 9999 |
| `Overflow.ChunksFit` | internal/router/overflow.go:156-195 | Every chunk is within both budgets, or is the one character no budget under four bytes can take |
| `Overflow.ChunksFitExactly` | internal/router/overflow.go:156-195 | Every chunk of every body is within the budget if and only if the byte budget takes any one character, of up to four bytes |
| `OverflowChunks.ChunksExactly` | internal/router/overflow.go:156-195 | The chunks of a body are its pieces between cuts, trailing line breaks off, where each cut is at the last line break in the second half of the longest stretch that fits, or at the end of that stretch; and that describes one way of cutting and no other |
| `OverflowChunks.FewestChunks` | internal/router/overflow.go:160-176 | A one-byte-per-character body without line breaks comes out in exactly ceil(length / limit) chunks, all but the last full |
| `OverflowChunks.BudgetExactly` | internal/router/overflow.go:85-118 | Overhead, title, links, twelve for the marker and the budget add up to each declared limit, and there is no budget exactly when they leave nothing |
| `OverflowChunks.AppliedExactly` | internal/router/overflow.go:22-69 | A message goes out whole if its body fits; otherwise refused, as the longest part of it that fits, or as its chunks in order with numbered titles, as the mode says |
| `OverflowChunks.DigitsRead` | internal/router/overflow.go:49-64 | Part numbers are written in decimal without leading zeros |
| `Overflow.SplitRejoins` | internal/router/overflow.go:156-195 | The body is the chunks in order with only runs of line breaks put back after each |
| `Overflow.SplitsIntoSeveral` | internal/router/overflow.go:43-64 | A body that does not fit comes out in several chunks, unless it is one character |
| `Overflow.LongestFitIs` | internal/router/overflow.go:131-152 | And it is the only such cut |
| `RateLimit.RateBound` | internal/router/ratelimit.go:73-113 | Any half-open span of a length holds at most ceil(length / interval) slots |
| `RateLimit.SlotsAreSpaced` | internal/router/ratelimit.go:73-113 | Any two slots are at least one interval apart |
| `RateLimit.SlotsSpaced` | internal/router/ratelimit.go:95-113 | Each slot is the asking instant or one interval after the previous slot, whichever is later |
| `RateLimit.IntervalExactly` | internal/router/ratelimit.go:55-71 | The interval is the longest whole number of nanoseconds the rate allows, or one |
| `RateLimit.BoundIsMet` | internal/router/ratelimit.go:95-113 | And some run meets that bound, for any interval and length |
| `Template.RenderNothing` | internal/message/template.go:24-68 | With nothing to substitute, the template comes out as it went in |
| `Template.UnknownSurvives` | internal/message/template.go:58-62 | So does one none of whose names is known, stray braces included |
| `Template.RenderByNames` | internal/message/template.go:57-62 | Only the names a template has matter |
| `Template.HoleIsNamedPair` | internal/message/template.go:38-55 | A placeholder starts at a brace if and only if what stands before the next closing brace is a name |
| `Template.EnclosingBraceIsLiteral` | internal/message/template.go:47-55 | A brace followed by no name character is copied, and what is inside is read on its own |
| `Template.RenderHole` | internal/message/template.go:57-64 | Text, a name in braces and more text give the text, the name's value or the braces as they stand if it has none, and the rest rendered by itself |
| `Template.RenderBrace` | internal/message/template.go:47-55 | Any other opening brace stands for itself, and the rest is rendered by itself |
| `Template.RenderPlain` | internal/message/template.go:30-36 | Text without an opening brace comes out as it is |
| `Template.NameChars` | internal/message/template.go:72-87 | Names are ASCII letters, digits, underscore and dot |
| `ChannelConfig.MergeOfMaskExactly` | internal/config/channels.go:305-377 | A form with fields taken out, put in or changed, merged, comes out as meant if and only if every credential it hid is still private or was typed in again and no field taken out has become private; always when the type is the same |
| `ChannelConfig.EditSurvivesStorage` | internal/config/channels.go:349-387 | Read, masked, edited, merged, saved, read again: as meant, if and only if nothing in that carries the marker |
| `ChannelConfig.RoundTripExactly` | internal/config/channels.go:215-281 | What was sealed opens to the same configuration if and only if no string in it starts with the sealed marker |
| `ChannelConfig.SavedReadsBackExactly` | internal/config/channels.go:96-131 | The same for a whole instance, with type and quota, and on unless it was saved as off |
| `ChannelConfig.PrivateIsMarked` | internal/config/channels.go:209-252 | Every non-empty private string is stored under the marker, and as typed exactly when it carried the marker already; everything not private is stored as given |
| `ChannelConfig.SealingTwice` | internal/config/channels.go:230-237 | Saving a sealed configuration again changes nothing |
| `ChannelConfig.ImportStoresLast` | internal/config/channels.go:164-168 | Each imported instance is stored as its last entry says |
| `ChannelConfig.ImportLeavesOthers` | internal/config/channels.go:164-168 | An import leaves every row it does not name as it was |
| `Channel.MixedBatch` | internal/channel/result.go:179-205 | A batch is a connect error if and only if someone was not reached and nobody failed otherwise |
| `RetryPolicy.RetryIffNotExhausted` | internal/queue/policy.go:61-100 | The two ways of asking for another try agree, and a next try is never in the past |
| `RetryPolicy.RetryExactly` | internal/queue/policy.go:61-100 | Another try comes the listed wait from now, the last one listed from then on, exactly while attempts and age are below their limits; attempts are reported before age |
| `RetryPolicy.Defaults` | internal/queue/policy.go:29-55 | Five attempts, 30 s, 2 min, 10 min, 1 h and 4 h apart, in a day, each only where not set |
| `Deliveries.FirstDue` | internal/store/sqlite/queue.go:80-90 | Among due rows there is one that none comes before, so a claim with work to do is not empty |
| `QueueStore.SelectDue` | internal/store/sqlite/queue.go:80-113 | The select of a claim returns due rows, earliest due then oldest first, at most the limit, and leaves out a due row only when full and of rows that do not come after it |
| `QueueStore.Store.Enqueue` | internal/store/sqlite/queue.go:18-58 | All rows or none: a repeated or existing key rolls the whole batch back |
| `QueueStore.Store.Claim` | internal/store/sqlite/queue.go:66-129 | The selected rows, and only they, go to sending with this instant as their claim; what is returned is the marked rows |
| `QueueStore.Store.Finish` | internal/store/sqlite/queue.go:161-228 | Attempt record and state change together, asking nothing of the row's status or claim, for complete, reschedule and dead letter alike; nothing for a missing row |
| `QueueStore.Store.Release` | internal/store/sqlite/queue.go:243-294 | A row in flight goes back without spending an attempt, with a released record; any other row is left alone |
| `QueueStore.Store.RecoverOrphans` | internal/store/sqlite/queue.go:305-325 | Exactly the rows in flight whose claim has run out go back to queued |
| `QueueStore.Store.Replay` | internal/store/sqlite/queue.go:505-524 | A failed row starts over with no attempts spent and its creation time kept |
| `QueueStore.Store.Prune` | internal/store/sqlite/queue.go:390-414 | The two deletes remove exactly the terminal rows past their retention, and their records with them, and count them |
| `Spool.Store.Prune` | internal/store/spool/spool.go:113-146 | Exactly the bodies older than the cutoff go, whatever the tables say, and are counted |
| `QueueWorker.Worker.Enqueue` | internal/queue/worker.go:172-221 | Bodies before rows: it succeeds if and only if every body and then the whole batch of rows could be written; a refused batch drops its bodies, any failure leaves no row, and no other body is touched |
| `QueueWorker.Worker.Process` | internal/queue/worker.go:333-392 | One item: tables and spool become what the decision on its verdict says; where that leaves each of the five classes and an unreadable body is `QueueOutcomes` |
| `QueueWorker.Worker.RetryOrGiveUp` | internal/queue/worker.go:429-449 | A transient answer reschedules, or dead-letters as exhausted or expired |
| `QueueWorker.Worker.ReleaseNoCapacity` | internal/queue/worker.go:402-425 | No capacity puts the delivery back unspent, or dead-letters it when its age or budget is used up |
| `QueueWorker.Worker.DrainBatch` | internal/queue/worker.go:308-326 | A batch is settled item by item in claim order, the rest handed back once the worker is told to stop, and those processed are counted |
| `Breaker.ChannelBreaker.LoadOnce` | internal/breaker/breaker.go:348-377 | The saved record is read once, its slots not |
| `Breaker.ChannelBreaker.MoveTo` | internal/breaker/breaker.go:324-340 | A change of mode clears slots and successes, dates an opening, forgets failures on closing, and is written |
| `Breaker.ChannelBreaker.Admit` | internal/breaker/breaker.go:197-222 | Admits as the mode, the timeout and the free slots say, and takes a slot exactly when half-open |
| `Breaker.ChannelBreaker.GiveBack` | internal/breaker/breaker.go:238-247 | Frees one slot, if half-open and one is taken |
| `Breaker.ChannelBreaker.Report` | internal/breaker/breaker.go:255-273 | Sent and permanent speak for the channel, transient and connect error against it |
| `Breaker.ChannelBreaker.ReportSuccess` | internal/breaker/breaker.go:275-293 | Counts towards closing when half-open, clears the run of failures when closed |
| `Breaker.ChannelBreaker.ReportFailure` | internal/breaker/breaker.go:295-321 | Opens from half-open at once, from closed at the threshold; that it does exactly this over every run is `BreakerSystem.MovesExactly` |
| `Breaker.ChannelBreaker.ResetNow` | internal/breaker/breaker.go:415-429 | Closed from any mode, reporting the one it replaced even if it had to be read first |
| `Quota.ChannelWindows.Count` | internal/quota/quota.go:276-290 | Keeps the entries strictly inside the window, in order, and counts them |
| `Quota.Counters.TryConsume` | internal/store/sqlite/quota.go:18-58 | Charged if and only if the store answers and the counter is unlimited or below its limit; no change otherwise |
| `Quota.Counters.Release` | internal/store/sqlite/quota.go:65-78 | One less, never below zero |
| `Quota.Limiter.LookShort` | internal/quota/quota.go:121-144 | Every limited window is looked at until one has no room |
| `Quota.Limiter.TakeShort` | internal/quota/quota.go:121-154 | All or nothing over the short windows: taken from only when every limited one has room |
| `Quota.Limiter.ReleaseShort` | internal/quota/quota.go:223-235 | Each window of a reservation loses its oldest entry, and no other window changes |
| `Quota.Limiter.TryReserve` | internal/quota/quota.go:114-191 | Granted if and only if every window, and every counter the store can read, has room; a grant adds one to exactly the counters it lists, and a refusal adds one to the day exactly when the month refuses after the day was charged |
| `Quota.Limiter.Settle` | internal/quota/quota.go:205-221 | A release takes from each counter as many units as the reservation holds of it, never below zero, where the store takes it, and leaves every other counter as it was; a commit, or a second settlement either way, changes nothing |
| `Router.Deliver` | internal/router/router.go:514-699 | A refused target or recipient count is permanent and touches nothing; a message the limits refuse is permanent, with the slot given back and no part tried; a suspended channel, no allowance and no slot are "not attempted" with that reason each; and for every message, channel and sequence of answers the class, the reason and everything done to breaker, quota and channel, in order |
| `Router.DeliverParts` | internal/router/router.go:587-699 | From the admission on, the settlement with the breaker last on every path; the detail is that of the first most severe answer |
| `Router.SendParts` | internal/router/router.go:606-667 | Parts go out until one is held back; the outcome is the most severe answer of those sent |
| `Router.TryPart` | internal/router/router.go:606-659 | Reserve, wait, call, settle; "not attempted" from a channel is a connect error |
| `Router.Worst` | internal/router/router.go:800-805 | Folding by severity yields one of the answers, the first of those that none is more severe than |
| `Channel.FromRecipients` | internal/channel/result.go:179-221 | The most severe class over all recipients: permanent if and only if there was none or somebody failed permanently or unclassified; transient if and only if nobody did and somebody failed transiently; sent if and only if everyone accepted; a connect error although somebody accepted if and only if the rest, and someone, could not be connected to |
| `Overflow.BodyBudget` | internal/router/overflow.go:85-118 | What title, links, overhead and marker leave for the body, or no room at all |
| `Overflow.Apply` | internal/router/overflow.go:22-69 | Length limits that let a message through leave at least one part |
| `Overflow.ApplyLimits` | internal/router/overflow.go:22-69 | Passed, cut, split or refused as the mode says |
| `Overflow.LongestFit` | internal/router/overflow.go:131-152 | The cut is within both budgets and one character more is not |
| `Overflow.TruncateBody` | internal/router/overflow.go:131-152 | The loop that counts characters and bytes finds it |
| `Overflow.TruncateRunes` | internal/router/overflow.go:204-209 | A prefix of at most the limit, the whole text when it is short enough |
| `Overflow.GrowWindow` | internal/router/overflow.go:160-176 | The inner loop takes the longest stretch within budget, at least one character; that no longer stretch fits is `OverflowChunks.FirstStretch` |
| `OverflowChunks.FirstStretch` | internal/router/overflow.go:160-176 | The window fits, or is one character, and with one character more it does not fit |
| `Overflow.FindCut` | internal/router/overflow.go:178-186 | The cut is after the last line break in the second half of the window, or at its end |
| `Overflow.SplitBody` | internal/router/overflow.go:156-195 | The loop produces the chunks `OverflowChunks.ChunksExactly` describes, and ends |
| `Overflow.NumberTitle` | internal/router/overflow.go:49-64 | The title with its part marker, cut again to the title limit |
| `Overflow.NumberParts` | internal/router/overflow.go:49-64 | One message per chunk, numbered when there are several, links and all else unchanged |
| `Payload.Render` | internal/channel/dingtalk/dingtalk.go:176-193 | The builder writes header, body, then links |
| `Payload.WriteLinks` | internal/channel/feishu/feishu.go:219-228 | One line per link, in order |
| `RateLimit.Bucket.Reserve` | internal/router/ratelimit.go:95-113 | The slot is now or the next scheduled instant, whichever is later, and is taken at once |
| `RateLimit.Limiter.Wait` | internal/router/ratelimit.go:33-71 | No rate, no bucket; otherwise the slot is kept even when the caller gives up |
| `Template.Render` | internal/message/template.go:24-68 | The scan from brace to brace equals tokenising leftmost first and then substituting, so values are never rescanned |
| `Template.IsPlaceholderName` | internal/message/template.go:72-87 | Non-empty and made of name characters only |
| `ChannelConfig.MaskSecrets` | internal/config/channels.go:305-329 | What is left is every parameter the schema does not mark private, as it was, and nothing else; exactly those that held a credential are named |
| `ChannelConfig.ChannelSource.Seal` | internal/config/channels.go:215-252 | The private values and no others are sealed; without a key it fails if and only if there is one to seal |
| `ChannelConfig.ChannelSource.Open` | internal/config/channels.go:260-281 | Every marked value is opened, whatever the schema says; it fails if and only if one cannot be |
| `ChannelConfig.ChannelSource.Get` | internal/config/channels.go:77-87 | The instance as its row reads back, missing, or failed, which it is if the database does not answer |
| `ChannelConfig.ChannelSource.Save` | internal/config/channels.go:96-131 | Refused without a name, a known type, a needed key or a database that takes the row, and then nothing changes; otherwise one row is replaced by the sealed instance |
| `ChannelConfig.ChannelSource.MergeEdit` | internal/config/channels.go:349-377 | Absent private parameters come from the stored instance; a new instance is left as sent; failed if the database does not answer |
| `ChannelConfig.ChannelSource.ImportOnce` | internal/config/channels.go:151-183 | With the marker set nothing is read, so deleted channels stay deleted; the marker is set only after every instance was saved, and an import cut short, by any read or write refused, leaves it unset with the instances before that saved |

## Left out

- HTTP, SMTP and admin handlers, the UI, sessions, API keys, metrics, logs and redaction: plumbing around the core.
- SQL, WAL and files: one transaction or one spool operation is one atomic step that may fail.
- The network clients, signing and AES-GCM: a channel is whatever class it reports, a cipher is two functions with the laws `ChannelConfig.Sound` states.
- Format adaptation before the length limits, and text that is not valid UTF-8: a message starts as Unicode scalar values.
- How a target reference is resolved and pinned to an instance: `Router.Deliver` takes the answer as an input.
- What is fixed at enqueue (request id, target, recipients) and the attempt's elapsed time: carried along, never decided on.
- The outer loop of drain and the polling around it: `QueueSystem` lets any idle worker claim at any instant instead.
- Fan-out over several targets and reloading channels: each target is one `Router.Deliver`, each channel one breaker and limiter.
- Panics inside a send, cancelled store contexts at shutdown, and a router without a breaker store or limiter beyond the `guarded` switch.
- A failing SELECT or COMMIT inside `QueueStore`: a refused write is the caller's `storeUp` and leaves the tables alone.
- Spool file names: `validateID` refuses some ids before any file is touched; ids here are numbers that never are.
- Constructors, setters and one-line wrappers are modelled without a row of their own; the worker's defaults other than its policy are not modelled.
- Which calendar day and month an instant falls in: the period keys are inputs.
- Pruning of attempt records and of old counters by their own retention; rows take their records with them here.
- A policy or a rate changed in the middle of a run: the theorems on runs hold them fixed, the methods do not.
- Rounding inside the floating-point division of a rate: the quotient is over the reals, and rounded down to nanoseconds as the code does.
- The order in which masked credential names are listed, and the wording of errors and details.
- JSON numbers, lists and objects in a channel's configuration: carried as opaque values, since only strings can be sealed.
- QueueBudget.LifeIsBounded: like `QueueBudget.LifeIsBoundedExactly`, counts recorded outcomes. One that leaves no record, because the store refused the write or a lone worker put back a row the sweep had already taken, is not counted, nor is the orphan recovery that comes with it; shutdown releases are not either.
- QueueBudget.EarnedExactly: the exhaustion half alone, for one fixed policy, is shown to fail under the policies `QueueBudget.NotEarned` names. With four or more attempts, backoffs that outlast the age limit before the last three of them, and an age limit that does not outlast a claim, every stale answer expires the delivery, and whether the counts ever part depends on how many claims a batch can outlast; together with the numbering of attempts the condition is exact for every policy.
- QueueBudget.LifeIsBoundedExactly: exact over all policies together; for one fixed policy without the claim bound the count may stay below a bound that is not tight for it.
- QueueKeeping.NeverStuck: says that a claim would take the delivery, not that the scheduler ever runs one.
- Payload.PayloadsWithin: its three premises are exact one by one in `Payload.WithinExactly`, `Overflow.ChunksFitExactly` and `Payload.MarkersExactly`; a title limit or slack in the overhead can make up for one of them.
