# A verified model of the finance kernel

Dafny model of the parts of the personal-finance kernel that hold state, interleave or do arithmetic
that has to add up: fetching exchange rates, scheduling jobs, keeping the equity of each currency,
synchronising rates and converting with them, and reporting over the result. `dafny verify dfyconfig.toml`
checks the whole project.

Dates are integer days, clocks integer seconds, money integer cents, rates and ratios real numbers.
What the network, the database or a handler answers is an input: a parameter of a method, or part of the
action that receives it.

| files | what they hold |
|---|---|
| `FetchProtocol`, `FetchRuns`, `FetchResults`, `FetchClient` | the NBU client: tasks sharing one semaphore and one pause/resume event, every interleaving, where results come from, and the draining loop |
| `TaskRegistry` | the named-task registry with its done callback that pops by key |
| `JobRows`, `Scheduler`, `SchedulerSteps`, `SchedulerHeld`, `SchedulerCoverage`, `SchedulerSpacing`, `SchedulerRestarts`, `SchedulerLateness` | the jobs table, the trampolines and the API calls as one state machine; who is served, how far apart, which restarts keep that, how late |
| `Sums`, `Ledger`, `LedgerRows`, `LedgerRuns`, `LedgerDatabase` | costs, incomes, exchanges and equity; the stored columns and the refusals; read phase and commit phase apart; the requests as they run |
| `Analytics`, `AnalyticsLaws` | basic analytics and its agreement with the ledger |
| `Rates`, `RateSync` | the exchange-rate table and the gap filling |
| `Conversion`, `RealSums`, `UsdRatio` | conversion to USD, on single rows and on daily totals |
| `Shortcuts` | the order of cost shortcuts |
| `Listing`, `Paging` | the merged transaction list: filters and order; pages and walks over them |

Every method of a class is tied by its postcondition to a function of the old state; the laws are proved
about those functions. State machines are `Enabled` and `Next` over an `Action`, and `Runs`/`After` over
lists of actions, so a statement about `After` is about every reachable state.

## Findings

These are places where a promise holds only under a condition. Each has a lemma with the exact condition,
or with the input that breaks it, and what the code does was kept.

- A trampoline restarted before its predecessor's done callback has fired may be dropped from the registry
  by that callback (`TaskRegistry.RestartSafeIff`, an equivalence). It then survives `shutdown`
  (`TaskRegistry.ShutdownIff`), and the next restart of its type does not cancel it.
- A restart keeps the executions of its type an interval apart if and only if every working trampoline of the
  type is the one the registry names, so that the restart cancels it (`SchedulerRestarts.RestartSpacingIff`);
  other types do not matter. Otherwise some job is executed twice with the same start. Cancelling a running
  trampoline is fine (`SchedulerRestarts.SpacingOfGuardedRestarts`); a second restart after the first one's late
  callback is not (`SchedulerRestarts.SecondRestartBreaksSpacing`).
- With `max_concurrent` 0, at least one attempt and at least one date, fetching deadlocks; otherwise it never
  does (`FetchRuns.DeadlockFreeIff`, an equivalence). With `max_concurrent` 0 and no attempt at all, it fails
  by a division by zero after its first result (`FetchClient.Client.FetchRates`).
- Two deletes of one cost that both read it before either commits return its value twice
  (`LedgerRuns.OverlappingDeletes`). `LedgerRuns.StepGap` gives the exact drift of every commit, and a currency
  balances at the end of a run exactly when its opening gap and all drifts cancel out
  (`LedgerRuns.RunBalancesIff`).
- `update_cost` and `update_income` accept a negative value that `add_cost` and `add_income` refuse
  (`Ledger.NegativeCostAccepted`, `Ledger.NegativeIncomeAccepted`): the check sits on the ORM attribute, and the
  update is a statement. An update is a delete followed by an add exactly when the value is not negative. Only
  a caller inside the process can pass such a value: the HTTP contracts run `cents_from_raw`
  (src/http/contracts/_mixins.py), which refuses values of 0 and below.
- Category ratios divide by zero exactly when some currency has costs that sum to zero
  (`Analytics.BasicAnalytics`); without negative costs, exactly when all its costs in the range are zero
  (`AnalyticsLaws.IndivisibleIff`). One cost of zero, which `add_cost` accepts, is enough
  (`AnalyticsLaws.ZeroCostDivides`); positive costs exclude it (`AnalyticsLaws.PositiveCostsDivide`). The HTTP
  contracts keep zero and negative costs out, so only a caller inside the process can reach it.
- A day that cannot be fetched is filled with the rate closest to the start of the range, not to that day. The
  two are the same row exactly when no row lies strictly between it and its mirror image around the day
  (`RateSync.FallbackIsClosestIff`); `RateSync.FallbackIgnoresTheDay` is an input where they differ.
- A second synchronisation inserts nothing exactly when the client stays silent for every currency that has no
  rate at all (`RateSync.SecondSyncIdle`, an equivalence).
- `delete_cost_shortcut` does not check the owner and renumbers only the caller's rows; a reorder need not
  name every shortcut. `Shortcuts.StepContiguousIff` says exactly which calls keep all orders contiguous, and
  `ForeignDeleteBreaks` and `PartialReorderBreaks` are inputs that do not. The comment on
  `cost_shortcut_update_positions` asks for positions 1..N; the code accepts 0..n-1 and so does the model.
- Rows of different tables can share day and id, and the listing's ORDER BY leaves their order open. Following
  `context` with a given limit shows every row once, whatever the database answers, exactly when no such pair
  lies across two pages (`Paging.PagingSafeIff`), and with every limit exactly when there is no such pair at all
  (`Paging.EveryLimitSafeIff`). The comment that a category filter skips pagination is not what the code does.

## Model

| member | source | states |
|---|---|---|
| `FetchProtocol.StepInv` | src/integrations/nbu.py:132-226 | in every interleaving: permits plus requests in flight equal max_concurrent, waiters queue once each and only when no permit is free, attempts stay in range, and a cleared event means some task is in its 429 sleep and will set it |
| `FetchProtocol.InitInv` | src/integrations/nbu.py:71-99 | a new client with fresh tasks satisfies that invariant |
| `FetchProtocol.AcquireInv` | src/integrations/nbu.py:134-138 | entering the semaphore, at once or by queueing, keeps it |
| `FetchProtocol.ReleaseInv` | src/integrations/nbu.py:137-140 | leaving the semaphore hands the permit to the first waiter or returns it, and loses none |
| `FetchProtocol.HandleInv` | src/integrations/nbu.py:150-224 | every answer ends the task or sends it to sleep, and only a task that will resume the others pauses them |
| `FetchProtocol.HandleShape` | src/integrations/nbu.py:142-224 | an answer changes only its own task and the event, a retry happens only before the last attempt, and the event is cleared only together with a 429 sleep |
| `FetchProtocol.WakeInv` | src/integrations/nbu.py:188-192 | waking up, with or without setting the event, keeps the invariant through the start of the next attempt |
| `FetchProtocol.StepMeasure` | src/integrations/nbu.py:132-226 | every step of every task lowers one natural number summed over the tasks |
| `FetchRuns.Terminates` | src/integrations/nbu.py:228-277 | no run over n dates has more than n * (5 * (max_retries + 1) + 1) steps |
| `FetchRuns.DeadlockFreeIff` | src/integrations/nbu.py:71-99 | every reachable unfinished state has a next step if and only if max_concurrent is at least 1, or no attempt is allowed, or there are no dates |
| `FetchRuns.Completes` | src/integrations/nbu.py:228-277 | from every reachable state some schedule finishes all tasks |
| `FetchRuns.RunInv` | src/integrations/nbu.py:132-226 | the invariant holds after every run, and steps taken plus measure left never exceed the measure at the start |
| `FetchRuns.FetchAccounting` | src/integrations/nbu.py:132-192 | at any moment of any run: at most (max_retries + 1) requests per date, and each task's own sleep, negative delays counting as zero, at most retry_delay * (2^max_retries - 1) plus max_retries times the longest Retry-After |
| `FetchRuns.AccountingIsTight` | src/integrations/nbu.py:168-198 | a task answered 429 without a header every time sends exactly max_retries + 1 requests and sleeps exactly retry_delay * (2^max_retries - 1): the bounds are reached |
| `FetchResults.RespondEffect` | src/integrations/nbu.py:136-224 | what each answer does: a 200 ends the task with the currency's rate or nothing; any other ends it with nothing on the last attempt, else it sleeps for retry_delay, for the Retry-After value, or for retry_delay * 2^attempt; only a 429 with attempts left clears the event |
| `FetchResults.RespondHandsOver` | src/integrations/nbu.py:137-140 | the freed permit goes to the task that has waited longest, which sends its request in its own attempt; no other task changes |
| `FetchResults.BeginEffect` | src/integrations/nbu.py:132-138 | a task begins with attempt 0, retries with the next, ends with nothing after the last, waits while the event is cleared, and else enters the semaphore or queues last |
| `FetchResults.BeginFrame` | src/integrations/nbu.py:190-191 | the end of a 429 sleep releases every paused task in its own attempt; other steps touch no other task |
| `FetchResults.RunResult` | src/integrations/nbu.py:145-148 | in every run a date's task has ended with a rate if and only if the server answered that task with that rate |
| `FetchClient.Client.Step` | src/integrations/nbu.py:117-226 | the in-place code of a task does exactly the protocol's step, and the step is added to the history |
| `FetchClient.Client.Turn` | src/integrations/nbu.py:252-277 | one turn of the draining loop: a finished task's result is yielded and the task dropped, or the wait passes with other tasks' steps, or it times out with no step at all; it pauses exactly at full batches with tasks left, and fails exactly when it divides by a max_concurrent of 0 |
| `FetchClient.Client.FetchRates` | src/integrations/nbu.py:228-277 | whenever the fetch cannot deadlock and only finitely many waits time out idly: one result per date, a rate exactly where the server answered that date with it, counted, with the stated number of batch pauses; it fails after one result exactly for max_concurrent 0 and some date |
| `FetchClient.PausesClosed` | src/integrations/nbu.py:271-277 | the number of batch pauses in closed form |
| `FetchClient.AllDoneIdle` | src/integrations/nbu.py:132-140 | when all tasks are done the semaphore is full, nobody waits and nothing is paused |
| `TaskRegistry.StepInv` | src/application/scheduler/_primitives.py:31-52 | every entry names the task last started under its key, never cancelled through the registry, and without a fired callback |
| `TaskRegistry.RunInv` | src/application/scheduler/_primitives.py:31-52 | the same in every run, clean or not |
| `TaskRegistry.CleanRun` | src/application/scheduler/_primitives.py:31-43 | if no key is started before the earlier task's callback has fired, no key has two live tasks and every live task is registered |
| `TaskRegistry.RestartSafeIff` | src/application/scheduler/_primitives.py:36-43 | after a start, all clean continuations keep every live task registered if and only if no earlier task of the key has its callback still to fire |
| `TaskRegistry.ShutdownIff` | src/application/scheduler/_primitives.py:55-59 | shutdown empties the registry, and leaves nothing live if and only if no live task had been dropped from it |
| `TaskRegistry.CancelAllEffect` | src/application/scheduler/_primitives.py:46-59 | cancelling a list of keys kills exactly the registered live tasks of those keys |
| `TaskRegistry.Registry.Start` | src/application/scheduler/_primitives.py:31-43 | run_task in place: cancel the key, create the task, register it |
| `TaskRegistry.Registry.Cancel` | src/application/scheduler/_primitives.py:46-52 | cancel_task in place |
| `TaskRegistry.Registry.OnDone` | src/application/scheduler/_primitives.py:43 | the callback pops its key, whichever task the key names by then |
| `TaskRegistry.Registry.Shutdown` | src/application/scheduler/_primitives.py:55-59 | shutdown in place, with the equivalence above |
| `JobRows.BatchEffect` | src/application/scheduler/_scheduler.py:163-210 | with nobody else writing: each job of the batch ends as success without a message or as error with the message's first 1000 characters, exactly by its handler's outcome; run_count is one higher, next_run_at = start + interval exactly for positive intervals, and it is deactivated exactly on a non-empty message; no other row changes |
| `JobRows.RecordEffect` | src/application/scheduler/_scheduler.py:188-210 | the same for one write from any snapshot: columns from the outcome and the snapshot, other rows kept, a row that is gone stays gone |
| `JobRows.MarkEffect` | src/application/scheduler/_scheduler.py:164-166 | before the handler the row is marked as running and is otherwise unchanged |
| `JobRows.ResetEffect` | src/infrastructure/repositories/jobs.py:118-141 | exactly rows left running whose time has come become stale and due now; no other column changes |
| `JobRows.Jobs.ExecuteBatch` | src/application/scheduler/_scheduler.py:155-210 | the batch loop in place: two writes per job, values from the snapshot, rows that are gone skipped; each handler finds its job marked as running |
| `Scheduler.StepRegistry` | src/application/scheduler/_scheduler.py:39-50 | the registry invariant holds in every run of the scheduler |
| `Scheduler.StartAllEffect` | src/application/scheduler/_scheduler.py:67-97 | bootstrap starts one registered live trampoline for each type of its list |
| `SchedulerSteps.CreateEffect` | src/http/resources/jobs.py:86-98 | a new job is active, due at once, never run, and promises the call to schedule_type |
| `SchedulerSteps.UpdateEffect` | src/http/resources/jobs.py:111-118 | an update sets active to what was sent, keeps everything else, and promises a restart exactly for an active job of a known type |
| `SchedulerSteps.ScheduleEffect` | src/application/scheduler/_scheduler.py:39-50 | the call starts a task of its type, registered under its key, which will poll or run as a kernel type |
| `SchedulerSteps.PollEffect` | src/application/scheduler/_scheduler.py:122-153 | a poll stops exactly when no active job of the type has a positive interval; otherwise it takes exactly the due ones as they stand, and will sleep for the least interval of all scheduled ones |
| `SchedulerSteps.BeginEffect` | src/application/scheduler/_scheduler.py:163-168 | the first job in hand is marked as running and starts now |
| `SchedulerSteps.EndEffect` | src/application/scheduler/_scheduler.py:188-210 | the finished run is written and logged, and the trampoline goes on with the rest, or to sleep from now on |
| `SchedulerSteps.WakeEffect` | src/application/scheduler/_scheduler.py:153 | a trampoline polls again only after its whole sleep |
| `SchedulerSteps.RebootEffect` | src/application/scheduler/_scheduler.py:67-97 | a restart of the process resets exactly the stale rows and starts one trampoline for each listed type |
| `SchedulerCoverage.StepCoverage` | src/application/scheduler/_scheduler.py:67-153 | through every interleaving of commits, restarts, polls, stops and callbacks: an active job with a positive interval and a known non-kernel type has a live trampoline that has not decided to stop, or the API call that activated it is about to start one |
| `SchedulerCoverage.AlwaysCovered` | src/application/scheduler/_scheduler.py:67-97 | this holds in every run from start-up on |
| `SchedulerCoverage.WriteKeepsCoverage` | src/http/resources/jobs.py:86-118 | a commit that creates, updates or deletes a job keeps coverage: one that leaves the job active promises the call to schedule_type |
| `SchedulerCoverage.PollCovers` | src/application/scheduler/_scheduler.py:122-138 | a trampoline decides to stop only when no active scheduled job of its type is left |
| `SchedulerCoverage.RebootCovers` | src/infrastructure/repositories/jobs.py:118-141 | after a restart of the process, with the stale reset, every schedulable job is covered |
| `SchedulerHeld.StepSound` | src/application/scheduler/_scheduler.py:122-210 | in every run, whatever is restarted, cancelled or orphaned: a trampoline holds jobs of its own type only, each once, read when due, and every logged start lies in the past |
| `SchedulerHeld.AlwaysSound` | src/application/scheduler/_scheduler.py:67-97 | this holds in every run from start-up on |
| `SchedulerSpacing.StepSpacing` | src/application/scheduler/_scheduler.py:141-210 | with one working trampoline of a type, next_run_at of its jobs never drops below a completed start plus the interval, also across the stale reset; other types may have any number |
| `SchedulerSpacing.Spacing` | src/application/scheduler/_scheduler.py:122-210 | starts of completed executions of a job are at least its interval apart in every run in which its own type never has two working trampolines |
| `SchedulerRestarts.RestartSoloIff` | src/application/scheduler/_scheduler.py:39-50 | a restart leaves at most one working trampoline of a type if and only if, when it is a restart of that type, every working one of the type is the registered one |
| `SchedulerRestarts.AlwaysSoloIff` | src/application/scheduler/_scheduler.py:39-50 | a run never has two working trampolines of a type if and only if all restarts of that type meet that guard |
| `SchedulerRestarts.SpacingOfGuardedRestarts` | src/application/scheduler/_primitives.py:31-52 | from start-up on, the jobs of a type whose restarts meet the guard are spaced, also when those cancel running trampolines, and whatever happens to other types |
| `SchedulerRestarts.RestartSpacingIff` | src/application/scheduler/_primitives.py:31-52 | all continuations with guarded restarts of a type keep its jobs spaced if and only if the restart at hand meets the guard |
| `SchedulerRestarts.OrphanBreaksSpacing` | src/application/scheduler/_primitives.py:36-43 | from any state in which a restart does not cancel a working trampoline of its type, a continuation without further restarts executes one job twice with the same start |
| `SchedulerRestarts.SecondRestartBreaksSpacing` | src/application/scheduler/_primitives.py:43 | such a state is reachable from start-up: the second of two restarts, after the late callback of the first trampoline |
| `SchedulerSpacing.EndStep` | src/application/scheduler/_scheduler.py:188-210 | the write after a handler keeps what all trampolines hold consistent with the log |
| `SchedulerLateness.StepLateness` | src/application/scheduler/_scheduler.py:122-153 | while one trampoline runs undisturbed, every scheduled job of its type not held by it lies after its last poll, and no sleep is longer than any scheduled interval; other types may do anything |
| `SchedulerLateness.BoundedLateness` | src/application/scheduler/_scheduler.py:122-153 | in every state of such a run after its first turn, no scheduled job is overdue by the last batch, the last sleep and the turn under way together; the job being executed started within that bound; the sleep is at most the job's own interval |
| `LedgerRows.AddCostEffect` | src/application/transactions.py:32-56 | an add is refused exactly for a negative value or a missing reference; otherwise the row is stored as sent, other rows stay, and only its currency's equity moves, by the value |
| `LedgerRows.AddIncomeEffect` | src/application/transactions.py:164-189 | the same for incomes |
| `LedgerRows.AddExchangeEffect` | src/application/transactions.py:294-335 | the same for exchanges, with both currencies |
| `LedgerRows.CommitUpdateCostEffect` | src/infrastructure/repositories/cost.py:105-119 | a committed update of a present row stores, column by column, the payload's value where one is sent and the current value otherwise; owner and other rows stay; it is refused exactly for a null or a missing reference |
| `LedgerRows.CommitUpdateIncomeEffect` | src/infrastructure/repositories/income.py:62-75 | the same for incomes |
| `LedgerRows.CommitUpdateGone` | src/application/transactions.py:91-114 | an update whose row is gone by the commit succeeds and changes the equity alone |
| `LedgerRows.UpdateCostEffect` | src/application/transactions.py:59-116 | the whole request: not found, nothing to update exactly when every entry repeats its column, or the row with the payload applied |
| `LedgerRows.UpdateIncomeEffect` | src/application/transactions.py:192-246 | the same for incomes |
| `LedgerRows.DeleteEffects` | src/application/transactions.py:119-137 | a delete is refused exactly when the row is missing, and removes that row alone; the same for incomes and exchanges |
| `LedgerRows.DeleteCurrencyEffect` | src/infrastructure/repositories/currency.py:42-67 | a currency is dropped exactly when no cost, income or exchange refers to it |
| `Ledger.AddCostGap` | src/application/transactions.py:32-56 | adding a cost moves equity by exactly its effect |
| `Ledger.AddIncomeGap` | src/application/transactions.py:164-189 | adding an income moves equity by exactly its effect |
| `Ledger.AddExchangeGap` | src/application/transactions.py:294-335 | an exchange moves the equity of both currencies by exactly its effect, also when they are the same |
| `Ledger.ShiftForCostIs` | src/application/transactions.py:96-114 | all branches of the cost update move each currency by new effect minus old effect of the row as read |
| `Ledger.ShiftForIncomeIs` | src/application/transactions.py:229-244 | the same for incomes |
| `Ledger.UpdateCostGap` | src/application/transactions.py:74-114 | a committed update moves the gap between equity and rows by its worth on the row as read minus its worth on the row as it is |
| `Ledger.UpdateIncomeGap` | src/application/transactions.py:207-244 | the same for incomes |
| `Ledger.DeleteCostGap` | src/application/transactions.py:131-137 | the same for deleting a cost |
| `Ledger.DeleteIncomeGap` | src/application/transactions.py:261-267 | the same for deleting an income |
| `Ledger.DeleteExchangeGap` | src/application/transactions.py:350-359 | the same for deleting an exchange |
| `Ledger.UpdateCostIsDeleteThenAdd` | src/application/transactions.py:59-116 | a successful update leaves the tables that a delete followed by an add of the new row leaves if and only if the new value is not negative |
| `Ledger.UpdateIncomeIsDeleteThenAdd` | src/application/transactions.py:192-246 | the same for incomes |
| `Ledger.NegativeCostAccepted` | src/infrastructure/repositories/cost.py:105-119 | every update of a cost to a new negative value is committed and raises equity; an add of that row is refused |
| `Ledger.NegativeIncomeAccepted` | src/infrastructure/repositories/income.py:62-75 | every update of an income to a new negative value is committed and lowers equity; an add of that row is refused |
| `LedgerRuns.StepGap` | src/application/transactions.py:74-137 | in every interleaving, each step moves each currency's gap by exactly the snapshot effect minus the current effect; only successful commits move it |
| `LedgerRuns.RunGap` | src/application/transactions.py:32-359 | in every run, with or without conflicts, a currency's gap at the end is its gap at the start plus the drifts of all commits |
| `LedgerRuns.RunBalancesIff` | src/application/transactions.py:32-359 | a currency balances at the end of a run if and only if its opening gap and those drifts cancel out |
| `LedgerRuns.StepConsistent` | src/infrastructure/repositories/currency.py:42-91 | every step keeps referential integrity; a used currency cannot be dropped |
| `LedgerRuns.RunBalanced` | src/application/transactions.py:32-359 | equity = opening + incomes - costs + exchanges in - exchanges out after every run in which no commit changes a row another request has read and not committed |
| `LedgerRuns.OverlappingDeletes` | src/application/transactions.py:119-137 | two overlapping deletes of one cost leave a gap of its value |
| `LedgerRuns.PerformIsRun` | src/infrastructure/database/cqs.py:34-61 | a request performed at once is a conflict-free run that ends with its result, or with unchanged tables when it fails |
| `LedgerRuns.SequentialLedger` | src/application/transactions.py:32-359 | the ledger invariant after any list of requests, failing ones included |
| `LedgerDatabase.Database.AddCost` | src/application/transactions.py:32-56 | the statements of the session in order, then commit; any failure leaves the tables as they were, success stores the row as sent and leaves every currency's gap as it was |
| `LedgerDatabase.Database.AddIncome` | src/application/transactions.py:164-189 | the same for incomes |
| `LedgerDatabase.Database.CurrencyExchange` | src/application/transactions.py:294-335 | the same for exchanges |
| `LedgerDatabase.Database.ReadToUpdateCost` | src/application/transactions.py:73-89 | the read phase: not found, nothing to update exactly when every entry repeats its column, or the row and the payload with exactly the repeated entries dropped |
| `LedgerDatabase.Database.CommitUpdateCost` | src/application/transactions.py:91-114 | the transaction of the update, all or nothing: each column is the payload's or the current one, other rows stay, and every currency's gap moves by the worth on the row as read minus the worth on the row as it is |
| `LedgerDatabase.Database.ReadToUpdateIncome` | src/application/transactions.py:206-222 | the read phase for incomes |
| `LedgerDatabase.Database.CommitUpdateIncome` | src/application/transactions.py:224-244 | the transaction for incomes, all or nothing |
| `LedgerDatabase.Database.CommitDeleteCost` | src/application/transactions.py:131-137 | delete and equity change in one commit, with the same law for the gaps |
| `LedgerDatabase.Database.CommitDeleteIncome` | src/application/transactions.py:261-267 | the same for incomes |
| `LedgerDatabase.Database.CommitDeleteExchange` | src/application/transactions.py:350-359 | the same for exchanges |
| `Analytics.BasicAnalytics` | src/infrastructure/query_services/analytics.py:258-447 | fails without a filter, divides by zero exactly when a currency's costs sum to zero, and otherwise reports for each currency the sums of its own rows that pass the filter |
| `Analytics.FillCategories` | src/infrastructure/query_services/analytics.py:413-431 | the grouped merge gives each currency the shares of its own category rows, and fails exactly on a zero total |
| `Analytics.FillExchanges` | src/infrastructure/query_services/analytics.py:443-445 | each exchange lowers one currency and raises the other, also when they are the same |
| `Analytics.ExchangeTotalIs` | src/infrastructure/query_services/analytics.py:443-445 | adding up the listed exchanges is summing the table's passing rows |
| `Analytics.CategoriesDivide` | src/infrastructure/query_services/analytics.py:297-316 | a currency has category rows exactly when it has costs |
| `AnalyticsLaws.NetIsBalance` | src/infrastructure/query_services/analytics.py:399-445 | over a range that covers every row and without a pattern, incomes - costs + exchanges is the ledger's balance |
| `AnalyticsLaws.AnalyticsAgreesWithEquity` | src/infrastructure/query_services/analytics.py:247-447 | after every conflict-free run of ledger operations that figure is stored equity minus opening equity |
| `AnalyticsLaws.AnalyticsDiffersByDrift` | src/infrastructure/query_services/analytics.py:247-447 | after every run at all it is that, minus the drifts of the run's commits |
| `AnalyticsLaws.AdjacentRangesAdd` | src/infrastructure/query_services/analytics.py:269-278 | costs, incomes and exchanges of two adjacent ranges each add up to those of the joined range |
| `AnalyticsLaws.AdjacentReportsAdd` | src/infrastructure/query_services/analytics.py:269-278 | and so do the reported figures |
| `AnalyticsLaws.CategoryTotals` | src/infrastructure/query_services/analytics.py:413-431 | a currency's category totals sum to its costs and its ratios to 100 |
| `AnalyticsLaws.CategoryBreakdown` | src/infrastructure/query_services/analytics.py:413-431 | its categories are exactly those it has costs in, each once, each with its own total and that total's percentage of the costs |
| `AnalyticsLaws.SourceBreakdown` | src/infrastructure/query_services/analytics.py:433-441 | a currency's source totals sum to its incomes |
| `AnalyticsLaws.SourceTotals` | src/infrastructure/query_services/analytics.py:433-441 | its sources are exactly those it has incomes from, each once, each with its own total |
| `AnalyticsLaws.FiltersMean` | src/infrastructure/query_services/analytics.py:265-284 | costs and incomes count when their date is in the range, ends included, and their name matches; exchanges by date, and never with a pattern |
| `AnalyticsLaws.PatternHidesExchanges` | src/infrastructure/query_services/analytics.py:279-284 | with a pattern the exchange figure of every currency is 0 |
| `AnalyticsLaws.PositiveCostsDivide` | src/infrastructure/query_services/analytics.py:423 | with positive cost values no ratio divides by zero |
| `AnalyticsLaws.IndivisibleIff` | src/infrastructure/query_services/analytics.py:423 | without negative costs the division fails if and only if some currency has costs in the range and all of them are zero |
| `AnalyticsLaws.ZeroCostDivides` | src/infrastructure/query_services/analytics.py:423 | a ledger that one accepted add leaves, at which it fails |
| `Rates.LatestUpTo` | src/infrastructure/repositories/exchange_rates.py:86-95 | the first query: the latest row of the currency on or before the target, found whenever there is one |
| `Rates.EarliestFrom` | src/infrastructure/repositories/exchange_rates.py:97-106 | the second query: the earliest row on or after the target, found whenever there is one |
| `Rates.ClosestIsArgmin` | src/infrastructure/repositories/exchange_rates.py:115-125 | the two queries find a row whenever one exists, of minimum distance, the earlier one on a tie |
| `Rates.ClosestToStartIff` | src/application/analytics.py:94 | that condition for any table and any day from the start on |
| `Rates.ClosestUnique` | src/infrastructure/repositories/exchange_rates.py:76-125 | under the table's uniqueness there is only one such row |
| `Rates.RateStore.AddRate` | src/infrastructure/repositories/exchange_rates.py:127-133 | a row is refused exactly when its (from, to, date) is taken |
| `Rates.RateStore.GetExistingDates` | src/infrastructure/repositories/exchange_rates.py:31-52 | exactly the days of the range that have a rate |
| `Rates.RateStore.SaveFetched` | src/application/analytics.py:64-86 | every fetched rate of a missing day is saved once and none is refused |
| `Rates.RateStore.SaveFallbacks` | src/application/analytics.py:104-114 | every day still missing gets the given rate once |
| `Rates.RateStore.EnsureCurrency` | src/application/analytics.py:47-114 | one currency: old rows stay, missing days are fetched or filled with the closest rate, uniqueness is never violated |
| `RateSync.EnsureExchangeRates` | src/application/analytics.py:18-114 | the whole synchronisation as a chain of such steps over the non-UAH currencies |
| `RateSync.SyncCompletes` | src/application/analytics.py:41-114 | afterwards every day of the range has a row for each non-UAH currency that has any rate; one that has none got nothing from the fetcher |
| `RateSync.DayOutcome` | src/application/analytics.py:47-114 | a day that had a rate gets no other, a fetched rate is stored as it came, and a day left over gets a fallback row if the currency has any rate |
| `RateSync.FetchedIsStored` | src/application/analytics.py:67-81 | after the whole synchronisation the client's answer for every missing day of a foreign currency is in the table |
| `RateSync.SecondSyncIdle` | src/application/analytics.py:47-92 | a second run inserts nothing if and only if the client has no answer, on any day of the range, for a foreign currency without any rate |
| `RateSync.SameAnswersIdle` | src/application/analytics.py:47-92 | in particular when the client answers as before |
| `RateSync.FallbackIsClosestIff` | src/application/analytics.py:94-114 | every missing day that could not be fetched gets the rate closest to the start of the range, and that row is the closest to the day if and only if no row lies strictly between it and its mirror image around the day |
| `RateSync.FallbackIgnoresTheDay` | src/application/analytics.py:94-114 | an input where a day is filled with a rate that is not the closest to it |
| `Conversion.BuildLookup` | src/application/analytics.py:139-146 | of any list of rates the dictionary keeps the last one of each (currency, day), no key twice; with one base currency it lists all rates in their order |
| `Conversion.LastRateMeans` | src/application/analytics.py:144-146 | which of several rates of a key that is |
| `Conversion.RateInUse` | src/application/analytics.py:190-232 | the rate that counts on a day is its own one, or else that of the nearest day, the first of equally near ones, or none |
| `Conversion.ConvertMeans` | src/application/analytics.py:173-209 | a USD amount is itself; any other is the amount times its rate in use, divided by that of USD, and 0 without both or with a zero rate |
| `Conversion.Nearest` | src/application/analytics.py:219-232 | the first entry of the currency with minimum distance, found whenever the currency is in the lookup |
| `Conversion.FallbackRefinesClosest` | src/application/analytics.py:212-232 | over a date-ordered lookup with the same rows, the in-memory fallback returns the rate that the two queries return |
| `Conversion.ConvertIsLinear` | src/application/analytics.py:173-209 | the value in USD is the amount times the price of one cent on that day |
| `Conversion.ConvertedOnItsOwnDay` | src/application/analytics.py:186-209 | when the day has rates, an amount is converted with that day's rates of its currency and of USD; an amount in USD is taken as it is |
| `UsdRatio.PushDown` | src/infrastructure/query_services/analytics.py:464-539 | converting totals per currency and day and summing equals converting every single row and summing |
| `UsdRatio.TotalRatioUsd` | src/application/analytics.py:117-170 | the returned ratio is 100 * costs / incomes of all single costs and incomes in USD; 0 without costs, 100 with costs but no incomes |
| `UsdRatio.RatioMeans` | src/application/analytics.py:161-170 | the quotient and its two special cases |
| `UsdRatio.CostInUsd` | src/infrastructure/query_services/analytics.py:464-500 | a single cost counts by its own currency, day and value if it passes the filter |
| `UsdRatio.IncomeInUsd` | src/infrastructure/query_services/analytics.py:501-539 | the same for incomes |
| `UsdRatio.RatesBetweenAre` | src/infrastructure/repositories/exchange_rates.py:16-29 | the loaded rates are exactly those of the range, ordered by date |
| `UsdRatio.ConvertedAfterSync` | src/application/analytics.py:117-209 | after a synchronisation every row of the range in UAH or in a currency that has any rate is converted with its own day's rates, never the fallback; a row in USD is taken as it is |
| `Shortcuts.StepContiguousIff` | src/infrastructure/repositories/cost.py:192-290 | while every user's positions form a block from 0 or 1, a call keeps that for all users if and only if it is safe: a stated condition on the rows before the call |
| `Shortcuts.RunContiguous` | src/application/transactions.py:365-431 | over every run of adds, own deletes and full reorders, every user's positions are distinct and form a block from 0 or 1 |
| `Shortcuts.DeleteKeepsIff` | src/application/transactions.py:419-431 | a delete keeps a given user's order if and only if the caller is that user, or the row was not that user's, or it was on position 0 or the user's last |
| `Shortcuts.ReorderEffect` | src/infrastructure/repositories/cost.py:221-262 | an accepted reorder occupies 0 .. k-1 with own shortcuts and changes no other row and no owner |
| `Shortcuts.PermutationIff` | src/infrastructure/repositories/cost.py:224-232 | the sorted-equals-range check accepts exactly lists with each of 0 .. n-1 once |
| `Shortcuts.CheckMeans` | src/infrastructure/repositories/cost.py:221-246 | exactly which lists are refused, with which error, in which order, and which ids are reported as foreign |
| `Shortcuts.RebuildEffect` | src/infrastructure/repositories/cost.py:264-290 | a rebuild gives exactly 1..n, keeps the (position, id) order, lower positions and then lower ids first, and touches no other user's row |
| `Shortcuts.RebuildIdle` | src/infrastructure/repositories/cost.py:264-290 | a second rebuild finds the same order and writes nothing |
| `Shortcuts.NothingMisplaced` | src/infrastructure/repositories/cost.py:279-281 | a rebuild writes nothing if and only if the positions already are 1..n in order |
| `Shortcuts.ForeignDeleteBreaks` | src/application/transactions.py:429-431 | a delete of someone else's shortcut that leaves a hole |
| `Shortcuts.PartialReorderBreaks` | src/infrastructure/repositories/cost.py:221-262 | an accepted reorder of one of two shortcuts that leaves a hole |
| `Shortcuts.ShortcutTable.AddShortcut` | src/application/transactions.py:365-399 | in place: position 1 for the first shortcut, else one after the user's highest position; no other row changes |
| `Shortcuts.ShortcutTable.Rebuild` | src/infrastructure/repositories/cost.py:264-290 | the loop that writes only changed rows has the effect of numbering all of them, and which rows it writes |
| `Shortcuts.ShortcutTable.DeleteShortcut` | src/application/transactions.py:419-431 | in place: delete by id, then rebuild the caller's rows |
| `Shortcuts.ShortcutTable.UpdatePositions` | src/infrastructure/repositories/cost.py:192-262 | in place: succeeds exactly when the positions are each of 0 .. n-1 once, the ids distinct and all of them the user's own; then every named row gets its position and no other row changes; a refusal leaves the table alone |
| `Listing.BuildQueries` | src/infrastructure/query_services/analytics.py:105-188 | the conditions added to each branch select exactly the rows that pass the filter, per kind, and no row twice |
| `Listing.RowsMean` | src/infrastructure/query_services/analytics.py:44-103 | the merged rows are those of the three tables |
| `Listing.CostPassesMeans` | src/infrastructure/query_services/analytics.py:105-172 | what the filter asks of a cost, by its columns |
| `Listing.IncomePassesMeans` | src/infrastructure/query_services/analytics.py:105-172 | what it asks of an income |
| `Listing.ExchangePassesMeans` | src/infrastructure/query_services/analytics.py:105-172 | what it asks of an exchange: the currency it was made to, the value that was paid, and no name |
| `Listing.NewestFirst` | src/infrastructure/query_services/analytics.py:190-194 | the order: newest day first, then highest id |
| `Listing.PushDown` | src/infrastructure/query_services/analytics.py:174-194 | the UNION ALL of the filtered branches has each passing row once and nothing else |
| `Listing.ListingIsFilteredMerge` | src/infrastructure/query_services/analytics.py:105-194 | push-down, union and sort give the same list as filtering the merged ordered list, when no two passing rows share day and id |
| `Listing.FilteredIsAnswer` | src/infrastructure/query_services/analytics.py:105-194 | with such pairs, the filtered merged list is still one of the answers the query allows |
| `Listing.OneAnswer` | src/infrastructure/query_services/analytics.py:190-194 | without such pairs the order is determined |
| `Paging.ResponseMeans` | src/http/resources/transactions.py:36-57 | exactly negative contexts and limits fail; any other response is the page at its offset, full while something is left, and context plus left is the total |
| `Paging.DefaultPage` | src/infrastructure/responses.py:109-132 | without a context the list starts at its first row; without a limit, or with limit 0, a page has ten rows |
| `Paging.PageOf` | src/infrastructure/database/dal.py:111-131 | negative offsets and limits are refused, in this order; limit 0 adds no limit; otherwise OFFSET and LIMIT cut the page out of the list |
| `Paging.WalkShowsAll` | src/http/resources/transactions.py:46-57 | over a fixed order, following context until left is 0 shows every row once, in order, and ends |
| `Paging.WalkAt` | src/http/resources/transactions.py:46-57 | when answers differ from page to page, row j of a walk is row j of the answer its page was cut from |
| `Paging.SamePlaces` | src/infrastructure/query_services/analytics.py:190-194 | two answers have the same days and ids in the same places |
| `Paging.PagingSafeIff` | src/infrastructure/query_services/analytics.py:190-201 | whatever the database answers from page to page, a client with a given limit sees every row once if and only if no two rows that share day and id lie on either side of a page start |
| `Paging.EveryLimitSafeIff` | src/infrastructure/query_services/analytics.py:190-201 | with every limit, if and only if no two rows share day and id |

## Left out

- Manual runs: `run_now`, the queue worker and `job_run` racing a trampoline.
- Start-up: `bootstrap` resets stale rows, reads the active jobs and starts the trampolines in one step.
- Deleting a currency checks its use and deletes it in one step.
- Polls: a trampoline reads the table and the clock in one step; other tasks do not run between the two.
- Kernel trampolines are registered like the others but their handlers and sleeps are not modelled; the registry key `trampoline:<type>` is written as the type.
- Semaphore hand-over: the permit passes to the first waiter and that waiter's request goes out in one step.
- Retry-After values that are not finite numbers, sleeps that never end, and `fetch_rates` being abandoned by its caller.
- FetchClient.Client.FetchRates: covers configurations that cannot deadlock (for the others it does not return, as FetchRuns.DeadlockFreeIff shows), any finite number of idle timeouts, and a client that is not fetching already.
- SchedulerSpacing.Spacing: assumes that the job's own type never has two working trampolines; SchedulerRestarts gives the exact condition on the restarts.
- A cancellation that arrives while a trampoline's last write is already being committed: in the model a cancelled trampoline writes nothing more.
- SchedulerLateness.BoundedLateness: covers a trampoline that is not restarted, with exact sleeps and no job of its type created or activated meanwhile.
- Database exceptions that end a trampoline or abort a fetch in the middle, and shutdown of the process during a step of another task.
- SQL text, sessions and isolation levels: a commit is one atomic step and equity changes are relative, as in the statements.
- The six analytics queries are taken to see one state of the tables; category and currency names are not carried along.
- References to currencies from shortcuts and other tables that can also stop a currency from being deleted.
- Concurrent runs of `ensure_exchange_rates`, and fetchers that answer with another date or another currency.
- Shortcut rows without a position: the column may be empty in the schema, but every insert fills it and a migration filled the old rows.
- Concurrent adds of shortcuts, which may read the same last position.
- The name, icon and user columns that a listed row shows, and the value an exchange shows.
- Floating-point rounding, money formatting, calendar arithmetic and time zones.
- The comparison of names with ILIKE: a pattern is the set of names it accepts.
- Users, authentication, notifications, cash balances, assets, news, agents and all other HTTP resources: easy members or external output.
