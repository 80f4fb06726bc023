# A Dafny model of civic-ai-relay

civic-ai-relay is a relay in front of language-model providers. It admits a
request against quotas, reserves tokens and money in a ledger, forwards the
request, streams the answer back and settles the reservation with what was
really used. This project models that core in Dafny and proves what the design
promises about it.

## What is modelled

**Ledger.** `Ledger`, `Pairing`, `Pricing`, `Calendar`, `Windows`, `Period`,
`Admission`, `Overview`, `LedgerRuns`, `RateLimit`, `Overdraft`, `Concurrency`,
`Handoffs`: the tables `requests` and `key_reservations` as maps from id to row,
each transaction one function, and properties of every run of transactions.
`Transactions` and `Quotas` say what each transaction answers and writes in terms
of the rows alone.

**Relay.** `Gates`, `Outcomes`, `System`, `Slots`, `Leases`, `Guarantees`,
`Schedules`, `Completion`, `Shutdown`: a transition system in which requests, `Lease.Close`,
the reconciler, the reaper, pruning, deletes, crashes and restarts interleave at the
granularity of the critical sections. The store may lose an answer before or
after it commits. A run is any sequence of actions; one that is not enabled when
its turn comes does nothing. `Store` holds the imperative counterparts.

**Streaming.** `Sse`, `SseReader`, `SseLaws`, `NativeTranslate`, `NativeStream`,
`NativeLaws`, `Bridge`, `StreamLaws`, `Producer`: the byte-level event reader (sections 9.2.5 and 9.2.6 of the WHATWG
HTML Living Standard, with LF and CRLF line ends), translation of native
Anthropic and Gemini streams, the chat stream and the Responses bridge.

**Configuration and cache.** `EnvQuote`, `EnvFile`, `EnvLaws`: the relay.env
parser and printer. `ProviderCache`: upstream clients beside the provider table.

Where the source updates fields in place the model is a class or a method with
loops, each tied by its `ensures` to the function the theorems are about. Code
that only computes is a function.

## Assumptions the theorems name

- Instants are integers in nanoseconds, the clock never goes back, and requests
  are dated under the reservation lock.
- `System.Reasonable`: the longest time from dating a request to registering its
  lease, plus the reaper's longest time from its first snapshot to its cutoff,
  is at most the reap age. The time to register alone is not enough. The
  condition is exact: `Schedules.SlowReaperAbortsLiveLease` gives, for every
  configuration outside it, a run that aborts a live lease.
- Pruning keeps rows for at least a minute more than that time to register
  (`LedgerRuns.Sane`). This too is exact for the rate limit
  (`RateLimit.ShortRetentionBreaksTheLimit`).
- Pruning does not reach the row of a lease that is committed but unconfirmed;
  `Guarantees.PruningLosesLeaseIff` says exactly when a lease would be lost.
- Request tokens are drawn at random and do not repeat.
- Closing a lease again carries no request trace, or one with nothing to add:
  `Store.TracedRetryConflicts` says exactly when a traced retry is refused.
- The ledger starts empty, without half pairs left by an older version.

## Where the code is weaker than one might expect

- A settlement can move the handoff of a period or take it back:
  `Handoffs.SettlementCanUndoHandoff` shows a ledger on which it happens. It
  leaves the handoff in place exactly if the settled row comes after it, or the
  sums with the reservation exchanged for the charge still reach a limit there
  and not before (`Handoffs.SettlementKeepsHandoffIff`). Later admissions never
  move it (`Admission.AdmissionKeepsHandoff`).
- Settlements can exceed their reservations by more than one micro-yuan when a
  cached token is dearer than an uncached one. `Pricing.BoundHoldsIff` gives the
  exact condition for every quote: what splitting a prompt adds by rounding and by
  the difference in price must stay below two micro-yuan for every prompt that
  can be reserved. Cached tokens that are no dearer always meet it
  (`Pricing.CheaperIsHarmless`); dearer ones never do where a prompt of two
  million tokens can be reserved (`Pricing.DearerIsHarmful`), that is at input
  prices up to about 4.6 yuan per token.
- `Guarantees.InvalidOutcomeIsNeverSettled`: a lease closed with an outcome the
  store calls invalid, such as the negative token count of a faulty upstream, is
  never settled. It keeps its row and both its slots until the process ends, and
  the reaper leaves it alone.
- `Bridge.EstimateBillsNoInput`: a stream without a usage report records the
  reserved input tokens but bills none of them.
- The upper bound of the five-hour query compares a number with text, which
  SQLite always finds true. Enforcement and console then differ by exactly the
  rows dated in the future (`Overview.FiveHourDifference`).
- `ProviderCache.OverlappingUpdatesLeaveStaleClient`: two overlapping updates of
  one provider can leave a stale client behind. `ProviderCache.RunIsCoherentIff`
  gives the exact condition, over whole runs and with lookups in flight.
  Switching a provider off evicts nothing (`ProviderCache.DisablingDoesNotEvict`).
- A translated Anthropic stream carries one [DONE] for each `message_stop` and
  one more for a clean end (`NativeStream.DoneIsCounted`), so a stream with both
  carries it twice (`NativeStream.DoneTwice`).
- Two tools of an Anthropic stream get the same index exactly if a block is opened
  again and another one follows (`NativeLaws.SlotsApartIff`).

## Model

| member | source | states |
|---|---|---|
| `Guarantees.ExactlyOnceSettlement` | internal/relay/service.go:181-255 | In every run each lease commits at most once and never meets a conflict or a missing row; the row under its token records the outcome the first Close froze; an unsettled lease still has its reserved row; the key slot and then the global slot are given back at most once each, and only after the store confirmed |
| `Guarantees.FrozenOutcomeIsForever` | internal/relay/service.go:190-218 | No later action but a crash changes the first frozen outcome of a lease, nor what it will submit |
| `Guarantees.HealthyStoreConfirms` | internal/relay/service.go:230-254 | In every reachable state a store that answers confirms the next attempt of a closing lease, whatever answers were lost before, if and only if the store calls its outcome valid |
| `Guarantees.InvalidOutcomeIsNeverSettled` | internal/store/settlement.go:35-40 | Once a lease has frozen an outcome that the store calls invalid, in every continuation without a crash it keeps that outcome, its reserved row and both its slots, unsettled |
| `Guarantees.ReaperSafety` | cmd/civic-relay/main.go:283-307 | In every run a commit of the reaper leaves the row of every lease that is being registered or registered and unsettled exactly as it was |
| `Leases.ReaperSparesLeases` | internal/store/maintenance.go:58-72 | The step form: with the lists read active first and pending second, no unsettled lease's row is due at the cutoff |
| `Schedules.SlowReaperAbortsLiveLease` | cmd/civic-relay/main.go:291-297 | For every configuration in which the two delays together exceed the reap age: a run from the initial state at whose end the reaper's commit aborts the row of a registered, live lease |
| `Guarantees.PruningLosesLeaseIff` | internal/store/ledger.go:596-615 | In every run, after pruning at any cutoff the next attempt of a lease with a valid outcome is confirmed if and only if it was not committed yet or its row is not older than the cutoff; otherwise it answers "not found" |
| `Schedules.CommitCanGoUnconfirmed` | internal/relay/settlement.go:24-42 | For every valid outcome, a run in which the store commits it and the lease stays unconfirmed |
| `Guarantees.TwoRowInvariant` | internal/store/ledger.go:496-514 | In every run, through crashes and restarts: ids and tokens are unique, every key row belongs to one request row that agrees with it on key, model, group, time, status, tokens and amount, every reserved request has its key row, and ids follow time |
| `Guarantees.RecoveryIsComplete` | cmd/civic-relay/main.go:64-71 | Right after startup recovery no row of either table is reserved, and the pairing still holds |
| `Guarantees.QuotasHoldOfTheRelay` | internal/store/ledger.go:404-452 | The sliding rate limit and the overdraft bound hold in every reachable state of the whole relay |
| `Guarantees.EveryRunIsGood` | internal/relay/service.go:281-400 | Every run of the relay is a run of its ledger, and the lease invariant holds in every reachable state |
| `Guarantees.RequestsAdvance` | internal/relay/service.go:181-255 | No action but a crash takes back a frozen outcome, a returned Close or a confirmed settlement |
| `Completion.ClosingCanFinish` | internal/relay/service.go:181-255 | From every reachable state, a closing lease with a valid outcome is over after one answered attempt and four sections of its own: off both lists, its outcome on record, one holder less in each gate |
| `Completion.PendingCanFinish` | internal/relay/reconcile.go:38-60 | The same for a lease that was left pending, whatever was lost before, once the reconciler takes it up |
| `Completion.UnansweredGoesPending` | internal/relay/service.go:238-243 | A lease without an answer is put on the pending list before it leaves the active one, and keeps its slots |
| `Completion.OrphansAreReaped` | cmd/civic-relay/main.go:283-307 | In every reachable state the next pass of the reaper aborts each reserved request that is older than the reap age and on neither list, and leaves every other row |
| `Completion.DrainingAdmitsNothing` | internal/relay/service.go:338-347 | Once draining, in every continuation a request that has not passed the check is turned away |
| `Completion.BeginMoves` | internal/relay/service.go:338-347 | Where the books of the gates are right, as in every reachable state: a request takes a global slot exactly if one is free, passes unless the relay is draining, and gives the slot back when it cannot go on |
| `Completion.KeyIsFound` | internal/relay/limits.go:84-98 | The gate of the key is the one in the table, its reference count one higher; without one a new gate is registered with one reference, and other keys keep theirs |
| `Completion.KeyMoves` | internal/relay/limits.go:98-109 | The same for the slot of its key |
| `Leases.FinishOnLease` | internal/store/settlement.go:85-135 | On the row of a lease a valid frozen outcome is settled or found already settled, never refused |
| `Leases.CloseKeeps` | internal/relay/service.go:184-218 | A second Close keeps the frozen outcome, whatever outcome it was given |
| `Slots.SlotsAreConserved` | internal/relay/service.go:338-398 | In every reachable state the global gate counts exactly the requests that hold a global slot; each key gate counts exactly its holders, within the limit it was created with; references are holders plus attempts; each of them refers to the gate its key maps to |
| `Slots.GatesComeAndGo` | internal/relay/limits.go:84-127 | In every reachable state a key has a gate exactly while some request holds or tries for one of its slots; the next one after that starts a fresh gate with the limit it finds |
| `Slots.EnterConserves` | internal/relay/limits.go:91-98 | The first section of TryAcquire keeps all of that, for a new gate and for an existing one |
| `Slots.AttemptConserves` | internal/relay/limits.go:99-101 | The second section keeps it; the gate never passes its limit |
| `Slots.LeaveConserves` | internal/relay/limits.go:102-107 | The delete on the failure path never removes a gate that has a holder or another attempt |
| `Slots.ReleaseConserves` | internal/relay/limits.go:111-127 | Release finds the holder's own gate, which is counted, and removes it only with its last reference |
| `Slots.StepConserves` | internal/relay/service.go:235-254 | Every action of the relay keeps the counts; a failed settlement keeps its slots |
| `Gates.Gate.TryAcquire` | internal/relay/limits.go:19-30 | Takes a slot exactly if one is free |
| `Gates.Gate.Release` | internal/relay/limits.go:32-41 | Gives one slot back and never goes below zero |
| `Gates.Gate.SetLimit` | internal/relay/limits.go:43-53 | Sets a limit of at least one and keeps the holders |
| `Gates.KeyGates.TryAcquire` | internal/relay/limits.go:84-109 | Succeeds exactly if the key's gate has room; a failed attempt leaves a referenced gate as it was |
| `Gates.KeyGates.Release` | internal/relay/limits.go:111-127 | Gives back slot and reference, and drops the gate with the last of both |
| `Outcomes.RetrySubmitsTheSame` | internal/relay/service.go:198-218 | A retry submits the kept outcome unchanged if and only if it brings no trace or one that has nothing to add |
| `Outcomes.FreezeMeans` | internal/relay/service.go:190-197 | The handler's outcome is kept as it is; a missing status means completed |
| `Outcomes.EnrichMeans` | internal/relay/service.go:198-218 | What is missing is filled in, the client's id from the lease and then from the trace, and nothing that is there is changed |
| `Store.TracedRetryConflicts` | internal/store/settlement.go:85-97 | After a settlement, a retry enriched by a trace is answered "already settled" if that trace adds nothing, and "conflict" otherwise |
| `Store.Store.ReserveRequest` | internal/store/ledger.go:297-522 | The transaction as loops over the rows gives the decision of `Decide` and the tables of `Reserve`; a refusal leaves the tables alone |
| `Store.Store.CountOpen` | internal/store/ledger.go:370-376 | Counts the reserved rows of the key |
| `Store.Store.CountDated` | internal/store/ledger.go:404-412 | Counts the requests of all keys dated in a closed interval |
| `Store.Store.SumWindow` | internal/store/ledger.go:434-437 | Sums reserved and charged tokens and amounts of a window in one pass |
| `Store.Store.CheckPeriodOrWeek` | internal/store/ledger.go:453-479 | Lists the period's rows, searches the handoff and checks the window that applies; the answer is that of `PeriodOrWeekCheck` |
| `Store.Store.CheckQuotas` | internal/store/ledger.go:434-495 | The checks in the order of the transaction; the first refusal is the answer |
| `Store.Store.FinishReservation` | internal/store/settlement.go:35-135 | The imperative settlement, with its search for the newest reserved key row, is `Ledger.Finish` in tables and answer |
| `Store.Store.ReapOrphanReservations` | internal/store/maintenance.go:26-76 | Without a cutoff nothing is done; otherwise builds the exclusion set in loops, aborts exactly the due rows of both tables and counts the key rows |
| `Store.Exclusions` | internal/store/maintenance.go:32-42 | The exclusion set is the positive ids of both lists |
| `Store.SettleWithRetry` | internal/relay/settlement.go:24-42 | Exactly the attempts that are to be made are made: the first, and each of two more if everything before it was lost to a retryable error and its wait does not outlast the deadline. The settlement is in the tables if one of them arrives, and it is confirmed if and only if the store accepts it and one of them is answered |
| `Store.Lease.Close` | internal/relay/service.go:181-255 | A settled lease is left alone; otherwise the outcome is frozen, and if the store accepts it and one attempt is answered the lease leaves both lists and both slots are given back; if not it is pending and keeps its slots |
| `Store.RunOnce` | internal/relay/reconcile.go:38-60 | Over lease objects, in any order and cut short anywhere: a lease leaves the list only settled, with its outcome on record; the others wait with their frozen outcome; for each settled lease one global slot and its key's slot are given back; rows of other requests are untouched; a pass without an error has emptied the list; a pass that is not cut short leaves exactly the leases whose outcome the store refuses or does not answer |
| `Store.CloseAgain` | internal/relay/reconcile.go:51-57 | Closing a waiting lease with a blank outcome submits the frozen one; it is settled if and only if the store accepts it and answers, and stays pending with its slots otherwise |
| `Store.AttemptsFollowTheLoop` | internal/relay/settlement.go:24-42 | The transition system decides as the loop does: its attempts end confirmed if and only if the outcome is accepted and one of them is answered, pending otherwise, and with the same tables |
| `Store.SettlingsAreIndependent` | internal/store/settlement.go:72-104 | Settling one request leaves open what the store says to another |
| `Store.Service.AddPending` | internal/relay/reconcile.go:13-20 | Puts the lease under its id and keeps the others |
| `Store.Service.RemovePending` | internal/relay/reconcile.go:22-26 | Takes one id off the list |
| `Store.FinishIsIdempotent` | internal/store/settlement.go:85-97 | Submitting a settled outcome again changes nothing and is confirmed |
| `Store.FinishDetectsConflict` | internal/store/settlement.go:85-97 | Another outcome for a final row changes nothing; it is a conflict exactly if it differs after defaults |
| `Store.FinishTouchesOneRow` | internal/store/settlement.go:99-132 | A settlement changes no other request row, and what it confirms is on record |
| `Transactions.FinishAnswers` | internal/store/settlement.go:35-104 | Every answer: a malformed submission is invalid, written out number by number; a missing row is not found; a reserved one is settled, whichever of the four outcomes it is given; a final one is settled already if it shows the outcome column by column, defaults included, and a conflict if not; only "settled" changes the tables |
| `Transactions.EveryOutcomeSettles` | internal/store/settlement.go:41-43 | Completed, failed, aborted and rejected each settle a reserved request, for all numbers in range |
| `Transactions.FinishRecords` | internal/store/settlement.go:105-132 | The columns a settlement writes in the request row and its key row, and that it writes no other row |
| `Transactions.ReapRecords` | internal/store/maintenance.go:60-76 | Exactly the reserved requests older than the cutoff and on no list are aborted, both rows of each, with nothing charged and their error code; every other row stays |
| `Transactions.ReapCounts` | internal/store/maintenance.go:61-76 | The number of key rows reported is the number of such requests |
| `Transactions.PruneKeepsExactly` | internal/store/ledger.go:596-615 | Pruning drops the final rows older than the cutoff from both tables and changes none |
| `Transactions.DeleteRecords` | internal/store/schema.go:204-206 | A delete of keys, models and providers is rolled back while one of them has an open reservation; otherwise their key rows go, and request rows lose exactly the references to them |
| `Shutdown.OrderlyShutdown` | cmd/civic-relay/main.go:114-203 | Over every run: no idle channel is closed twice; the store is closed only when no handler runs, none can start and maintenance has ended; a nil result means every request of the process was turned away or is settled |
| `Shutdown.EveryShutdownIsOk` | cmd/civic-relay/main.go:114-182 | The invariant behind it, with the relay running underneath |
| `Shutdown.NothingPendingMeansOver` | cmd/civic-relay/main.go:184-203 | No handler running and nothing pending means that every lease is settled |
| `Shutdown.QuietShutdownCloses` | cmd/civic-relay/main.go:114-182 | With no handler running, nothing pending and no error, Close goes through all its phases, closes the store and returns nil |
| `Shutdown.FailuresAreReported` | cmd/civic-relay/main.go:126-182 | A forced close, leases still pending, maintenance that does not end and a store that does not close are each in the error |
| `Shutdown.BusyHandlerKeepsStoreOpen` | cmd/civic-relay/main.go:173-177 | A handler that does not end in time leaves the store open, and Close returns an error |
| `Shutdown.TrackedHandler.Enter` | cmd/civic-relay/main.go:222-239 | Admits exactly while not draining; a fresh channel is made for the first handler |
| `Shutdown.TrackedHandler.Leave` | cmd/civic-relay/main.go:240-247 | The last handler closes the channel, once |
| `Pairing.ReservedPairIsUnique` | internal/store/settlement.go:99-104 | A reserved request has exactly one key row with its token, and the newest-reserved query finds it |
| `Pairing.InsertKeeps` | internal/store/ledger.go:496-514 | Inserting a pair under a free token keeps the pairing |
| `Pairing.FinishKeeps` | internal/store/settlement.go:99-132 | Settling keeps the pairing |
| `Pairing.ReapTogether` | internal/store/maintenance.go:60-76 | A request row is due if and only if its key row is |
| `Pairing.ReapKeeps` | internal/store/maintenance.go:26-76 | Reaping keeps the pairing |
| `Pairing.PruneKeeps` | internal/store/ledger.go:596-615 | Pruning keeps the pairing |
| `Pairing.DeleteKeeps` | internal/store/schema.go:204-206 | Deleting keys, models and providers, with cascades and the trigger on reserved rows, keeps the pairing |
| `Pairing.ReuseKeeps` | internal/store/schema.go:68-94 | SQLite handing out freed top ids again keeps the pairing |
| `Pairing.RecoveryLeavesNothingReserved` | cmd/civic-relay/main.go:64-71 | Reaping with nothing excluded and a cutoff beyond all rows leaves no reserved row |
| `Ledger.NewestReserved` | internal/store/settlement.go:99-104 | The highest id of a reserved key row with the token, if there is one |
| `LedgerRuns.RunsAreSound` | internal/store/ledger.go:298-305 | In every run of transactions the pairing holds, rows carry their billing day, none is dated after the last admission, and ids follow time |
| `RateLimit.SlidingRateLimit` | internal/store/ledger.go:404-412 | In every run any closed interval of sixty seconds contains at most the limit of admissions over all keys, whatever is settled, reaped, pruned or deleted meanwhile |
| `RateLimit.ShortRetentionBreaksTheLimit` | internal/store/ledger.go:596-615 | For every timing outside `Sane`: a possible run, with a limit of one, that admits two requests within one minute |
| `Overdraft.OverdraftBound` | internal/store/ledger.go:422-452 | In every run, for any number of concurrent requests, a key's total or a group's day stays at or below L - 1 + R plus what settlements charged beyond their own reservations |
| `Overdraft.OverdraftBoundWithoutOvercharges` | internal/store/ledger.go:480-495 | L - 1 + R when no settlement overcharges |
| `Overdraft.SettleRaises` | internal/store/settlement.go:106-108 | A settlement raises a window by at most its overcharge |
| `Overdraft.SettlementConserves` | internal/store/settlement.go:106-131 | A settlement changes only its own pair of rows, charges exactly the outcome's tokens and amount, and moves the usage of every window by exactly that exchange |
| `Concurrency.OpenReservationsAreLimited` | internal/store/ledger.go:368-376 | In every run a key never has more open reservations than its concurrency limit, also across restarts |
| `Period.HandoffIsFirstReach` | internal/store/ledger.go:262-295 | A handoff exists exactly if the totals reach a limit, and it is the first row whose prefix sum does |
| `Period.HandoffIgnoresLaterRows` | internal/store/ledger.go:276-294 | The handoff depends only on the rows up to it |
| `Period.UpdateKeepsHandoffIff` | internal/store/ledger.go:276-294 | Changing the weight of one listed row keeps the handoff exactly if the row comes after it, or the prefix sums with the weights exchanged still reach a limit there and not before |
| `Handoffs.SettlementKeepsHandoffIff` | internal/store/settlement.go:106-131 | The same for a settlement on the ledger, a rejected request counting for nothing |
| `Handoffs.SettlementUndoesHandoffIff` | internal/store/ledger.go:273-275 | A settlement leaves an active period without a handoff exactly if the totals with the reservation exchanged for the charge reach no limit |
| `Handoffs.SettlementCanUndoHandoff` | internal/store/ledger.go:262-295 | An admitted request that reserves the whole period quota hands the group over; settled unused, it takes the handoff back |
| `Handoffs.HandoffTimeById` | internal/store/ledger.go:276-294 | The handoff instant is the date of the one row with which the sums first reach a limit |
| `Handoffs.ListedInQueryOrder` | internal/store/ledger.go:276 | Where ids follow time, as in every run, the rows listed by id are the rows listed by time and id |
| `Period.PeriodQuotaTransition` | internal/store/ledger.go:262-295 | Totals, and the instant of the first row whose running sums reach a limit; none exactly if both totals are under their limits; the search never runs off the end |
| `Admission.PeriodScopeNeverRefuses` | internal/store/ledger.go:453-479 | While a period is active there is no handoff exactly if both sums are under their limits, and then nothing is refused: the period-scope rejections are unreachable |
| `Admission.HandoffInsidePeriod` | internal/store/ledger.go:453-465 | The handoff instant lies inside the period and not after now |
| `Admission.HandoffConserves` | internal/store/ledger.go:453-465 | The period total is the sum up to the handoff plus the weekly sum after it |
| `Admission.AdmissionKeepsHandoff` | internal/store/ledger.go:453-465 | A later admission leaves the handoff where it is |
| `Admission.AdmissionMeans` | internal/store/ledger.go:389-495 | An admitted request passed the concurrency, rate, group and key checks and brought a free token |
| `Admission.AmountIsAccepted` | internal/store/ledger.go:389-403 | The amount reserved is the one the price bound is about |
| `Admission.FirstRequestIsAdmitted` | internal/store/ledger.go:297-522 | A well-formed request on an empty ledger is admitted, for every policy with a quote in range: limits bind only what is already used |
| `Quotas.AdmittedIff` | internal/store/ledger.go:297-522 | Exactly when a request is admitted, and for which amount: it is well formed, the key is enabled and has room, its group may use the model at a price in 64 bits, fewer requests than the limit are dated within the last minute, no limit of group or key is reached, and the token is new |
| `Quotas.RefusalMeans` | internal/store/ledger.go:297-495 | The first condition that fails names the refusal |
| `Quotas.AdmissionRecords` | internal/store/ledger.go:496-514 | The two rows an admission writes, column by column |
| `Quotas.GroupAnswers` | internal/store/ledger.go:434-479 | Five hours, then the Beijing day, then period or week: each limit against the sum over the rows it counts, with the rows written out; the first refusal is the answer and names the sum and the limit |
| `Quotas.OutsidePeriod` | internal/store/ledger.go:467-479 | Outside a period the weekly limits bind the rows dated from Monday 00:00 in Beijing, or from the end of a period that ended since, up to now |
| `Quotas.RunningPeriod` | internal/store/ledger.go:453-479 | While a period runs nothing else is asked until it is used up; from then on the weekly limits bind the rows after the one that used it up |
| `Quotas.KeyAnswers` | internal/store/ledger.go:480-495 | A key's total limits against the sum over its rows |
| `Quotas.FullWeekRefuses` | internal/store/ledger.go:467-479 | One row of the current week that fills the weekly limit is enough to refuse the group |
| `Quotas.AmountMeans` | internal/store/ledger.go:183-225 | The amount reserved, in terms of the quotes, and exactly when it cannot be computed |
| `Overview.DashboardAgreesWithEnforcement` | internal/store/ledger.go:621-746 | Without rows from the future the group checks pass if and only if the console shows no active gauge with a positive limit and usage at or above it |
| `Overview.FiveHourDifference` | internal/store/ledger.go:435-440 | The enforced five-hour sum is the shown one plus the rows dated after now |
| `Calendar.WeekContains` | internal/store/ledger.go:231-236 | The computed week start is a Monday 00:00 in UTC+8 and its week contains the instant |
| `Calendar.WeeksTile` | internal/store/ledger.go:231-236 | It is the only such Monday: weeks tile time |
| `Calendar.WeekStartCounted` | internal/store/ledger.go:231-236 | The week start counted from Monday 1970-01-05 in Beijing: the calendar is the real one |
| `Calendar.WeeklyWindowAvoidsExpiredPeriod` | internal/store/ledger.go:242-254 | The weekly window lies in the current week and never starts before the end of an expired period |
| `Pricing.PriceUsage` | internal/relay/service.go:648-674 | The smaller of the largest 64-bit integer and the exact sum of rounded-up parts |
| `Pricing.SaturatingIsExact` | internal/relay/service.go:676-690 | Cutting each part off first does not change the sum that is cut off at the end |
| `Pricing.PricePart` | internal/relay/service.go:676-690 | A part never leaves the 64-bit range |
| `Pricing.CeilPriceIsExact` | internal/store/ledger.go:183-194 | An accepted price is the exact rounded-up quotient, computed inside the 64-bit range |
| `Pricing.BillMeans` | internal/relay/service.go:648-674 | A bill: uncached prompt at the input price, cached prompt at its own price or else the input price, completion at the output price, each rounded up; cached tokens at least none and at most the prompt |
| `Pricing.PriceWithRateMeans` | internal/store/ledger.go:211-219 | A scaled quote is the product in whole thousandths, refused exactly if a factor or the product is out of range |
| `Pricing.ReserveAmountMeans` | internal/store/ledger.go:183-209 | A reserved amount covers input and output at their prices, each rounded up, and exactly when it overflows |
| `Pricing.ApplyRateMeans` | internal/relay/service.go:403-416 | The multiplier of the service: thousandths, one if it is not positive, cut off at the 64-bit limit |
| `Pricing.RatesAgree` | internal/relay/service.go:403-416 | For a quote the store accepted, the service's multiplier gives the same value without saturation |
| `Pricing.SettledWithinReserved` | internal/relay/pricing.go:23-31 | With real tokens within the reserved counts and cached tokens no dearer than uncached ones, the settled amount is at most the reserved amount plus one micro-yuan |
| `Pricing.CheaperQuoteIsEnough` | internal/store/ledger.go:211-219 | A cached quote at most the input quote stays so after the group multiplier, and its product is in range |
| `Pricing.DearCacheBreaksTheBound` | internal/relay/service.go:659-666 | An accepted reservation over whose prompt cached tokens are dearer by two micro-yuan, used up from the cache, costs more than its amount and one micro-yuan, if and only if that is below the 64-bit limit |
| `Pricing.BoundHoldsIff` | internal/relay/service.go:648-674 | For every quote: all reservations under it settle for at most one micro-yuan more than they reserved if and only if the store accepts none, or no prompt that can be reserved has an excess of two micro-yuan from rounding its cached and uncached parts and from their difference in price |
| `Pricing.ReservationBreaksIff` | internal/relay/service.go:648-674 | The same for one reservation: some usage within its counts breaks the bound if and only if its whole prompt has such an excess for some number of cached tokens and the amount is not at the 64-bit limit |
| `Pricing.ExcessMeans` | internal/relay/service.go:662-666 | The two parts of a prompt cost two micro-yuan more than the whole exactly if the excess does |
| `Pricing.CheaperIsHarmless` | internal/store/ledger.go:211-219 | Cached tokens no dearer than uncached ones have no such excess |
| `Pricing.DearerIsHarmful` | internal/store/ledger.go:183-194 | Dearer ones have, where a prompt of two million tokens can be reserved |
| `Admission.AdmittedSettlesWithin` | internal/store/ledger.go:389-403 | An admitted request whose usage stays within its reserved counts settles for at most one micro-yuan more than it reserved, under every quote without such an excess, so under every one whose cached tokens are no dearer |
| `Admission.OneMicroyuanOverIsReached` | internal/store/ledger.go:389-403 | An admitted request whose settlement costs the extra micro-yuan |
| `Admission.HarmfulCacheBreaksAdmission` | internal/store/ledger.go:389-403 | For every other quote: an admitted request whose usage within the reserved counts breaks the bound |
| `Windows.RowsTotal` | internal/store/ledger.go:789-802 | The window sum is the total of the rows the window lists |
| `Sse.SplitIsDeclarative` | internal/upstream/sse_reader.go:33-98 | Next returns a frame if and only if the bytes open with blank lines and a block of text lines closed by a blank line within the limit, and then that frame and rest; an error other than "too large" if and only if they end before the next frame within the limit |
| `Sse.ChopIsUnique` | internal/upstream/sse_reader.go:82-98 | Bytes are cut into terminated lines and an unterminated tail in one way only |
| `Sse.StreamRebuilds` | internal/upstream/sse_reader.go:33-80 | Raw bytes of the frames with the skipped blank lines rebuild the consumed input, no frame exceeds the limit, and the end is clean exactly if the source ended well and left only blank lines |
| `Sse.UnterminatedTailErrors` | internal/upstream/sse_reader.go:40-46 | Input that does not end in LF never reads as a clean end |
| `Sse.CleanStop` | internal/upstream/sse_reader.go:40-46 | Next answers EOF if and only if the source ended well and only blank lines were left |
| `Sse.RawReadsBack` | internal/upstream/sse_reader.go:54-56 | The raw bytes of a frame, read before anything else, give the same frame |
| `Sse.EventReadsBack` | internal/upstream/native.go:482-485 | A payload without line breaks, sent as an event, is read back as one frame with exactly that data |
| `Sse.BlankLines` | internal/upstream/sse_reader.go:47-49 | The blank lines are LF and CR LF, nothing else |
| `SseLaws.BlockIsRead` | internal/upstream/sse_reader.go:33-80 | Whatever fields, bare names and comments a server writes, with or without the space after the colon and with either line end, a block is read as one frame: data values on lines of their own, the last event name, and a comment if there is nothing but comments |
| `SseLaws.EndIsRead` | internal/upstream/sse_reader.go:40-46 | Where the bytes end before a frame does: a failing source is reported as it is, an unfinished frame as an unexpected end |
| `SseReader.SSEReader.Next` | internal/upstream/sse_reader.go:33-80 | Whatever the chunks, frame, error and position are those of `Sse.Split` on the unread bytes: data is the newline-join of the data values, event the last one, the comment flag set if all lines are comments; after "too large" more than the limit has been consumed, after any other error everything |
| `SseReader.SSEReader.ReadLine` | internal/upstream/sse_reader.go:82-98 | The limit checked chunk by chunk gives the result of checking the whole line |
| `SseReader.SSEReader.constructor` | internal/upstream/sse_reader.go:26-31 | A limit outside 1..1048576 becomes 1048576 |
| `NativeTranslate.ToolIndicesByFirstAppearance` | internal/upstream/native.go:394-418 | Over a whole Gemini stream every delta names its call by its place in the order of first appearance, the id is sent exactly at that first appearance, and no id twice |
| `NativeTranslate.EachToolIsOpened` | internal/upstream/native.go:400-414 | Every index below the number of calls is opened |
| `NativeTranslate.NoToolIsOpenedTwice` | internal/upstream/native.go:400-414 | No index is opened twice |
| `NativeTranslate.GatherParts` | internal/upstream/native.go:388-419 | The loop over the parts gives text, deltas and tables of `Gather` |
| `NativeStream.NativeBody.Read` | internal/upstream/native.go:225-253 | For any buffer size: the next bytes of the concatenated translations, at least one if any are left, and the end only after all of them |
| `NativeStream.NativeBody.TranslateFrame` | internal/upstream/native.go:256-332 | One frame's emission, with counters, tool tables and terminal error updated |
| `NativeStream.Drain` | internal/upstream/native.go:225-253 | Reading to the end with any positive sizes delivers exactly the output and how it ended |
| `NativeStream.OutputEnds` | internal/upstream/native.go:226-246 | A clean end puts [DONE] last; an error event is the last thing sent, and the terminal error follows |
| `NativeStream.EndIsDecided` | internal/upstream/native.go:226-272 | The end is the terminal error of the first frame that carries one, and without one the reader's end: a stream ends well if and only if its source does and no frame carries an error |
| `NativeStream.DoneIsCounted` | internal/upstream/native.go:321-325 | The output carries one [DONE] for each `message_stop` before an error and one more for a clean end, and no other |
| `NativeStream.DoneTwice` | internal/upstream/native.go:231-241 | One `message_stop` event and the end of the body give [DONE] twice |
| `NativeStream.OutputReadsBack` | internal/upstream/native.go:256-272 | Read through the event reader, the output gives one frame for each translation that is not empty, in order, and then a clean end |
| `NativeLaws.EventIsTranslated` | internal/upstream/native.go:275-332 | Each Anthropic event, told by the events before it: a text delta gives its text, a tool block the number of blocks opened before it, an argument fragment goes under its block's number, a message delta gives the mapped reason and the counts of the last message start |
| `NativeLaws.GeminiIsTranslated` | internal/upstream/native.go:376-447 | Each Gemini event: the joined texts of its parts, its calls with their arguments and names, the mapped reason, and the counts as last reported |
| `NativeLaws.StreamIsTranslated` | internal/upstream/native.go:225-272 | The payloads a client reads in the whole output are the encodings of what the upstream's events call for, in order, and [DONE] after a clean end |
| `NativeLaws.AnthropicFrames` | internal/upstream/native.go:275-279 | Frames that carry no event add nothing |
| `NativeLaws.TextIsPassedOn` | internal/upstream/native.go:304-308 | Over a whole Anthropic stream the text sent is the text given before the first error: nothing is lost, added or moved |
| `NativeLaws.GeminiTextIsPassedOn` | internal/upstream/native.go:388-393 | The same for Gemini parts |
| `NativeLaws.ArgsReachTheirTool` | internal/upstream/native.go:291-312 | If every block is opened once and before its arguments, the arguments sent under its index are its fragments, in order |
| `NativeLaws.SlotsApartIff` | internal/upstream/native.go:291-300 | Two Anthropic tools share an index exactly if a block is opened again and another one follows |
| `NativeLaws.GeminiArgsReachTheirTool` | internal/upstream/native.go:394-418 | The arguments sent under an index are those given for the tool it stands for |
| `NativeLaws.FinishIsOfLastDelta` | internal/upstream/native.go:313-324 | The client is told last what the last message delta says, with the counts of the message start before it |
| `Bridge.ResponsesStream` | internal/httpapi/responses.go:145-334 | What the whole stream sends and records is determined by its signals and writes: everything due and the verdict on it, or as much as was written up to and with the first write that failed; the charge is that of the last usage reported, or estimated from the text, and the HTTP status and the cut at the output limit are those the signals gave |
| `Bridge.ChatStream` | internal/httpapi/public.go:159-285 | The same for chat; the charge is that of the last usage reported, or estimated from the characters, of the frames taken in before a write failed |
| `Bridge.ChargeUsage` | internal/httpapi/responses.go:163-183 | A reported usage is charged as it is; without one, half a token for each unit sent, rounded up; the amount is the saturated exact bill |
| `Bridge.EstimateBillsNoInput` | internal/httpapi/public.go:174-186 | An estimated charge records the reserved input tokens but bills none of them |
| `Bridge.PumpResponses` | internal/httpapi/responses.go:209-299 | The loop stops at the first signal that ends the stream, with everything due before it written and text, finish reason and usage gathered |
| `Bridge.FinishResponses` | internal/httpapi/responses.go:301-334 | The closing part, for every way the loop can stop: what is left to say is said, up to a write that fails |
| `Bridge.PumpChat` | internal/httpapi/public.go:208-260 | The chat loop; the frame that ends the stream is written before it is looked at |
| `Bridge.FinishChat` | internal/httpapi/public.go:262-285 | The closing part of the chat stream |
| `Bridge.ResponsesOutcomeFollows` | internal/httpapi/responses.go:301-334 | No terminal event and no failed write is followed by anything; every closing text is the concatenation of the deltas sent before it; "completed" is recorded if and only if header and then [DONE] came before anything that ends the stream, the finish reason was not "length", the request was still wanted and every write succeeded; "failed" ends with a failure event of that code |
| `Bridge.ChatOutcomeFollows` | internal/httpapi/public.go:262-285 | The same discipline for chat, where a completed stream has written everything due through [DONE] |
| `Bridge.CutDelivers` | internal/httpapi/stream_session.go:146-166 | A stream cut by a failed write has written nothing but the beginning of what was due |
| `StreamLaws.VerdictOnUpstream` | internal/upstream/terminal.go:9-45 | An upstream that had answered, while the request is wanted: a plain end is "failed" as incomplete, an unreadable frame as invalid, an error under its own code or as a failed read, a cut at the output limit as incomplete; only [DONE] completes, and only cancellation aborts |
| `StreamLaws.VerdictOnUnopened` | internal/httpapi/stream_session.go:181-193 | An upstream that never answered: cancelled, or failed with the upstream's own code, with the time limit, or with the connection |
| `StreamLaws.VerdictOnClient` | internal/httpapi/public.go:248-258 | A client that goes away and a refused admission, each with its code |
| `StreamLaws.VerdictOnLateUpstream` | internal/httpapi/public.go:267 | Once the request is not wanted any more the end is an abort, whatever came from upstream |
| `StreamLaws.AbortedIff` | internal/upstream/terminal.go:9-28 | "Aborted" is recorded exactly of a cancelled request, a refused admission or a failed write |
| `StreamLaws.LastEvents` | internal/httpapi/public.go:280-284 | A failure and a refused admission are told by one last event with the code that is recorded; any other abort is silent; a completed response ends with its three closing events |
| `StreamLaws.SentSoFar` | internal/httpapi/responses.go:225-283 | Up to any point the deltas sent are the texts of the chunks, the frames passed on are those to be passed on, in order, and there is one comment for each heartbeat |
| `StreamLaws.ChargeMeans` | internal/httpapi/public.go:170-190 | The charge, column by column, for a reported, an estimated and an unknown usage |
| `StreamLaws.UsageIsLastReport` | internal/httpapi/responses.go:260-262 | The usage kept is the last report with a positive total |
| `Bridge.CleanMeans` | internal/upstream/terminal.go:9-45 | How far the loop got decides whether the run is clean |
| `Bridge.TextIsWritten` | internal/httpapi/responses.go:276-283 | The text gathered is the text of the deltas written |
| `Bridge.ForwardsEveryFrame` | internal/httpapi/public.go:216-220 | A chat stream passes on every received frame, unchanged and in order |
| `Bridge.CompletedChatSentEverything` | internal/httpapi/public.go:244-247 | A completed chat stream has written every received frame through [DONE], in order, and every write succeeded |
| `Bridge.Session.Next` | internal/httpapi/stream_session.go:117-144 | Passes heartbeats and admission checks, writes here and nowhere else while waiting, and returns the next result |
| `Bridge.OpenFailure` | internal/httpapi/stream_session.go:181-193 | An upstream that did not open is never recorded as completed |
| `Producer.Produce` | internal/httpapi/stream_session.go:75-115 | Hands on header, frames through [DONE] or the error, in order, up to the first refusal |
| `Producer.HeaderComesFirst` | internal/httpapi/stream_session.go:79-87 | A handler that sees a frame has seen the header |
| `Producer.FeedMeans` | internal/httpapi/stream_session.go:88-104 | Handed on are the frames that the bytes hold, up to [DONE], and without one the error that ends them |
| `Producer.CompletedChatRelaysUpstream` | internal/httpapi/public.go:206-285 | With any interleaving of other signals, a completed chat stream has relayed exactly the upstream frames through [DONE], as the bytes determine them |
| `EnvFile.RoundTrip` | internal/config/store.go:57-107 | Parsing the printed text gives the mapping back, for all valid keys, arbitrary values and any order of keys |
| `EnvFile.SerializeEnvMapping` | internal/config/store.go:150-170 | Refuses exactly the mappings with an invalid key; otherwise prints the keys in ascending order and the text parses back to the mapping |
| `EnvFile.ParseEnvText` | internal/config/store.go:57-82 | The loop over lines is `Parse`: last binding wins, the first bad line is refused with its number |
| `EnvFile.LineParses` | internal/config/store.go:142-147 | The line printed for a binding is parsed as that binding and holds no line break |
| `EnvLaws.CharactersMean` | internal/config/store.go:19 | Which characters are white space, and which texts are keys |
| `EnvLaws.BindsIff` | internal/config/store.go:57-81 | Exactly the lines of this shape bind a key, and to this value: white space around each part, perhaps an `export`, a valid key, an equals sign and a value that can be read |
| `EnvLaws.QuietIff` | internal/config/store.go:61-63 | Exactly the blank lines and the comments say nothing |
| `EnvLaws.TextMeans` | internal/config/store.go:57-82 | A text is refused with the first line that is neither quiet nor a binding; otherwise each key has the value of the last line that binds it |
| `EnvLaws.LinesAreFound` | internal/config/store.go:84-88 | LF and CR LF both separate lines, and nothing else does |
| `EnvLaws.PrintedBareIff` | internal/config/store.go:142-147 | A value is printed as it is exactly if it has no white space at its ends and none of seven characters |
| `EnvFile.OrderIsCanonical` | internal/config/store.go:149-162 | There is one ascending order of the keys, so the printed text is canonical |
| `EnvFile.TrimSpace` | internal/config/store.go:91 | The result is trimmed, and trimmed text is left alone |
| `EnvQuote.QuoteRoundTrip` | internal/config/store.go:96-101 | Unquoting undoes quoting for every string, also with bytes that are not UTF-8, and whichever characters count as printable |
| `EnvQuote.ParseSingleQuoted` | internal/config/store.go:109-140 | The loop decodes or refuses as `Single` does |
| `EnvQuote.SingleRoundTrip` | internal/config/store.go:109-140 | Every text has a single-quoted form that decodes to it |
| `EnvLaws.DoubleQuotes` | internal/config/store.go:96-101 | Plain text in double quotes stands for itself; without the closing quote, with anything after it, or with a line break inside it is refused |
| `EnvLaws.SingleEscape` | internal/config/store.go:125-136 | What a symbol behind a backslash stands for in single quotes |
| `ProviderCache.CacheAgreesWithTable` | internal/relay/providers.go:32-57 | In every run whose commits are safe, whenever no change of a provider waits for its eviction its cached client has the stored address, key and protocol |
| `ProviderCache.RunIsCoherentIff` | internal/store/providers.go:204-211 | For every run: cache and lookups are coherent at every point if and only if each commit that skips its eviction finds, for whoever already holds something of that provider, address, protocol and key as it had read them |
| `ProviderCache.StepKeepsCoherenceIff` | internal/store/providers.go:204-211 | The same for one step from a coherent state; every other step keeps coherence |
| `ProviderCache.UpdateRecords` | internal/store/providers.go:154-211 | An update writes each column as given or as read, touches no other row, and owes an eviction exactly if a key was given or address or protocol became another |
| `ProviderCache.OtherCallsRecord` | internal/store/providers.go:119-283 | What the other calls leave behind: a given-up update changes no row, a delete takes exactly its row and owes an eviction, a creation adds exactly its row |
| `ProviderCache.SerializedRunsAreSafe` | internal/store/providers.go:154-211 | Updates of one provider that run one at a time are safe |
| `ProviderCache.SerializedCacheAgreesWithTable` | internal/relay/providers.go:32-57 | In every run with updates of each provider one at a time the cache is coherent throughout, and a cached client without a pending eviction has the stored address, key and protocol |
| `ProviderCache.OverlappingUpdatesLeaveStaleClient` | internal/store/providers.go:154-213 | A run of two overlapping updates that ends with a stale client and nothing pending |
| `ProviderCache.DisablingDoesNotEvict` | internal/store/providers.go:196-211 | Switching a provider off leaves its cached client in service |
| `ProviderCache.Registry.ForProvider` | internal/relay/providers.go:32-52 | A hit is served as it is; a miss does the four lookup steps on the two tables it reads |
| `ProviderCache.Registry.EvictProvider` | internal/relay/providers.go:53-57 | Drops the one client |

## Left out

- The SQLite engine, WAL, busy handling and text against `julianday` comparison: transactions are atomic steps over maps, and times are integers.
- `AddDate` is taken as a fixed number of days, which is exact in UTC+8.
- HTTP, sockets, timers, contexts and JSON text: cancel flags, read results, decoded events and the success of each write are inputs.
- estimateInputTokens and tokenMilli: the input estimate is a number in the request.
- PrepareStream's open-once flag and the upstream handles that CancelActive closes: short guards.
- Admin handlers, visibility, access log, plugin manager, memory guard, group monitor, model sync, analytics: routing and I/O with easy branches.
- Encryption, digests and random ids: library primitives.
- GroupUsageBuckets: by design it ignores the period handoff.
- Request-body conversions between OpenAI, Anthropic and Gemini: untyped JSON reshaping.
- ResponsesTerminal and translateNativeFrame: not reached by the streams modelled here.
- KeyGates.SetLimit and group deletion: not part of the reservation protocol.
- Half pairs from an older schema: the ledger starts empty.
- Store.SettleWithRetry: the error code test for busy and locked is the `retryable` flag of a fault.
- Numbers in native events are reals cut off toward zero; conversions outside the 64-bit range are not modelled.
- NativeLaws.ArgsReachTheirTool: after a repeated block index two Anthropic tools can share an index, as in the code; `NativeLaws.SlotsApartIff` says exactly when.
- Response ids, model names and timestamps inside events: constants of one response.
- EnvFile.SerializeEnvMapping: library sorting is a selection of the least key.
- ProviderCache.CacheAgreesWithTable: a provider's enabled flag is not covered.
