# Work-order service: a verified model

A Dafny model of the parts of the work-order service where state, dates and retries meet:

- **Lazy scheduling of contract visits.** Each sweep computes the visits that a contract's terms call for
  (clamped month steps, day steps, an end date, a five-year horizon, at most 1000 visits), and creates a work
  order for every one inside the lead window that has no live row yet. A change of the contract cancels the
  pending rows and generates them again.
- **Recurring templates.** Each sweep adds at most one child to a template, on the next date that its
  frequency and days give.
- **Several sessions at once.** An advisory lock around a sweep, released before the session commits; contract
  edits and deletes that take no advisory lock; rows that stay locked until their writer commits.
- **Staff and vendor edits** that retire a template and cancel its children.
- **The webhook outbox.** Claiming, inline retries, recording, shutdown, and what failures do to them.
- **Invoices and payments.** Settlement by the first completed payment, and timelines that tell the status.
- **The audit trail.** Field-level diffs over JSON-safe snapshots, and the events they raise.

`dafny verify dfyconfig.toml` checks everything.

## How it is laid out

| file | what it holds |
|---|---|
| `Calendar.dfy`, `IsoFormat.dfy` | dates, day numbers, month arithmetic, dates as text |
| `Schedule.dfy`, `Recurrence.dfy`, `Contracts.dfy` | the bounded generator, frequencies and next occurrences, contract visits |
| `WorkOrders.dfy` | the work-order table and its statements |
| `ContractScheduler.dfy`, `ContractLifecycle.dfy`, `ContractSweep.dfy`, `ContractRuns.dfy` | generation and recompute, contract services and sweeps, one sweep over all contracts, safety over whole runs |
| `ContractRowsByHand.dfy` | contract rows and templates that staff make or change |
| `RecurringScheduler.dfy`, `RecurringChain.dfy`, `TemplateRetirement.dfy` | template expansion, chains and convergence, retirement |
| `SweepLock.dfy`, `DeletionRace.dfy` | concurrent sweeps, recomputes and deletes as machines of steps |
| `WebhookOutbox.dfy`, `WebhookRuns.dfy`, `WebhookProgress.dfy` | the worker, accounting over runs, progress |
| `Invoices.dfy`, `Payments.dfy` | invoices with timelines, payments and settlement |
| `JsonValues.dfy`, `FieldDiffs.dfy`, `AuditTrail.dfy`, `PaymentAudit.dfy` | values and Python's equality, diffs, the trail, payments |
| `Wrappers.dfy`, `PartialUpdate.dfy`, `Text.dfy` | options and results, partial updates, ASCII text |

Services that update stored rows are classes over a table with a sequence of rows. Each method is proved equal to
a function of the tables before it, and the lemmas are about these functions. The lemmas called
`...InPlainTerms` spell out, column by column and with every constant, name and text, what an operation does; the
other lemmas say what follows for whole runs. A row's identifier is its position;
rows are never removed, as in the service, where a delete only changes the record status. A day is a day number,
tied to calendar dates by the lemmas of `Calendar.dfy`. Today's date, the HTTP answers, the success of
recording a result, the moment of a shutdown and the outcome of the try-lock are parameters.

## What the code does that its documentation does not say

- Templates without valid days, whatever their frequency, all quarterly, half-yearly and yearly ones, and all
  others by day of the month whose smallest valid day comes after the 5th, never get a first child; every other
  one gets it from a sweep on the right day, unless its first date is past its end
  (`RecurringChain.FirstChildEverExactly`). A daily template is treated as monthly
  (`Recurrence.NextMonthOccurrence`), although contract visits step daily (`Recurrence.Step`).
- A contract of more than 1000 visits stalls (`Contracts.CapStalls`).
- The lock does not make sweeps safe by itself: it is released before the commit, recomputes ignore it, and what a
  sweep read may be out of date when it inserts (`SweepLock.UnlockBeforeCommitDuplicates`,
  `SweepLock.RecomputeIgnoresTheLock`, `SweepLock.StaleReadDuplicates`).
- A contract deleted while a sweep has it on its list can be left with pending work orders that nothing cancels any
  more (`DeletionRace.SweepOutlivesDelete`).
- `recompute_contract` reports no cancelled rows when it regenerates.
- A template created by hand as a contract row can put a second live row on a contract's date
  (`ContractRowsByHand.TemplateDuplicatesVisit`).
- A vendor who terminates a template cancels none of its children (`TemplateRetirement.VendorTerminationKeepsOrphans`).
- A batch of pending deliveries without a URL starves every later delivery (`WebhookProgress.ServedExactly`); one
  that raises keeps all after it in its batch from being made, round after round (`WebhookRuns.BatchRowByRow`,
  `WebhookRuns.PoisonedPair`), and may itself be posted without limit (`WebhookRuns.RaisingRowIsPostedForever`).
- A change to `resubmitted` leaves no event on an invoice's timeline (`Invoices.ResubmittedIsUnrecorded`).
- A diff misses changes between values that Python calls equal, such as 1 and true (`PaymentAudit.ReceiptLost`);
  a payment's trail is exact if and only if this never happens to its receipt
  (`PaymentAudit.PaymentTrailIsExactUnlessReceiptSlips`).

## Model

| member | source | states |
|---|---|---|
| `ContractScheduler.IncrementalEqualsOneShot` | src/app/business/services/scheduler_service.py:207-251 | Generation passes over a contract on any days, in any order, leave the live dates of one pass on the latest of those days: the initial dates plus the visits due then. |
| `ContractScheduler.RepeatedPassCreatesNothing` | src/app/business/services/scheduler_service.py:207-251 | A pass adds nothing if and only if every due date is already live; so a second pass on the same or an earlier day leaves the table as it is. |
| `ContractScheduler.RegenerationIsExact` | src/app/business/services/scheduler_service.py:259-282 | Cancel-and-regenerate on an active contract: live dates are those of started rows plus the due visits of the new terms; every old row is untouched unless it was pending, and then only terminated; the pending rows are the new ones, one per due date not kept. |
| `ContractScheduler.LiveDatesAfterPass` | src/app/business/services/scheduler_service.py:207-251 | A pass adds exactly the due dates to its contract's live dates and none to any other contract's. |
| `ContractScheduler.CancellationKeeps` | src/app/crud/crud_work_orders.py:206-224 | After a cancellation the live dates are those of rows in progress, in review or completed. |
| `ContractScheduler.PassInPlainTerms` | src/app/business/services/scheduler_service.py:207-251 | A pass leaves every row alone and adds visits on different days; after it every due day has a live visit. |
| `ContractScheduler.AddedVisitInPlainTerms` | src/app/business/services/scheduler_service.py:180-205 | Each row it adds is an upcoming, untouched visit of the contract, of its tenant and for its assets, on a due day that had none. |
| `ContractScheduler.KeptDatesInPlainTerms` | src/app/crud/crud_work_orders.py:206-224 | What survives a cancellation, spelled out: rows in progress, in review or completed that are not deleted. |
| `ContractScheduler.ContractSchedulerService.GenerateForContract` | src/app/business/services/scheduler_service.py:207-251 | Appends one row per due date without a live row; created + skipped is the number of due visits; the recorded next visit is the first one after today. |
| `ContractScheduler.ContractSchedulerService.PlaceVisits` | src/app/business/services/scheduler_service.py:223-244 | The loop over the generator: stops at the first visit past the lead window, and still finds the first visit after today. |
| `ContractScheduler.ContractSchedulerService.RecomputeContract` | src/app/business/services/scheduler_service.py:259-282 | Cancels for a deleted or terminal contract, does nothing for a draft or paused one, regenerates for an active one; the reported number of cancelled rows is 0 on an active contract even when rows were cancelled. |
| `ContractScheduler.VisitRow` | src/app/business/services/scheduler_service.py:180-205 | A generated row is pending for its contract on the visit's date, and neither a recurring template nor anybody's child. |
| `ContractScheduler.ContractTable.UpdateNextVisitDate` | src/app/crud/crud_contracts.py:159-173 | Writes the next visit date of one contract and nothing else. |
| `ContractLifecycle.ChangeRegeneratesExactly` | src/app/business/services/contract_service.py:85-126 | What a contract update does to its dates, by the status afterwards and by whether a term or the status changed. |
| `ContractLifecycle.EachColumnCancels` | src/app/business/services/contract_service.py:109-125 | On an active contract an upcoming row is terminated by an update if and only if the start, the end, the frequency, the last service, the lead, the assets or the status gets a new value, each on its own. |
| `ContractLifecycle.UpdateCancelsInPlainTerms` | src/app/business/services/contract_service.py:109-125 | The same for every row of the table, with the columns compared before and after: upcoming rows of the contract are terminated or not, all others untouched. |
| `ContractLifecycle.UpdateOfInactiveInPlainTerms` | src/app/business/services/contract_service.py:109-126 | An update that leaves the contract terminated or expired terminates its upcoming rows; one that leaves it draft or paused touches no row. |
| `ContractLifecycle.UpdateGeneratesInPlainTerms` | src/app/business/services/contract_service.py:85-126 | An update that sends anything brings an active contract's due visits up to date; one that sends nothing, or to a missing contract, does nothing. |
| `ContractLifecycle.ChangeInPlainTerms` | src/app/business/services/contract_service.py:197-209 | Column by column: a value sent is stored, null clears the end, the last service and the next visit and is dropped elsewhere, and what is not sent stays. |
| `ContractLifecycle.CreateInPlainTerms` | src/app/business/services/contract_service.py:65-83 | A new contract is active and quarterly unless it says otherwise; no old contract or row is touched. |
| `ContractLifecycle.DeleteInPlainTerms` | src/app/business/services/contract_service.py:128-148 | A delete marks the contract and terminates its upcoming rows; nothing else changes. |
| `ContractLifecycle.ContractService.Create` | src/app/business/services/contract_service.py:65-83 | Stores the contract (active and quarterly by default) and generates its due visits. |
| `ContractLifecycle.ContractService.Update` | src/app/business/services/contract_service.py:85-126 | Not found, empty change, or the amended record followed by a recompute that cancels only if one of six terms or the status changed; the record it returns is the one before the recompute. |
| `ContractLifecycle.ContractService.Delete` | src/app/business/services/contract_service.py:128-148 | Soft-deletes and cancels the pending rows. |
| `ContractLifecycle.SchedulerService.SweepContract` | src/app/business/services/scheduler_service.py:371-380 | One listed contract: cancelled when terminated or expired, generated for when active, else left alone; the counters tell the rows added and terminated. |
| `ContractLifecycle.SchedulerService.SweepContracts` | src/app/business/services/scheduler_service.py:369-380 | The sweep over all contracts; created + skipped adds up to the visits due over all active ones. |
| `ContractLifecycle.SchedulerService.GenerateDueWorkOrders` | src/app/business/services/scheduler_service.py:365-385 | Contract sweep, then recurring sweep; created is the growth of the table, cancelled the growth in terminated rows, skipped the due visits that had a row plus the templates past their end. |
| `ContractLifecycle.SchedulerService.RunOnce` | src/app/business/services/scheduler_service.py:387-394 | A sweep that is refused the lock changes nothing and reports so. |
| `ContractSweep.SweepIsExact` | src/app/business/services/scheduler_service.py:369-380 | A sweep is exact for every contract at once: an active one gains its due visits, a terminated or expired one keeps its started rows only, any other one stays, whatever the other contracts are. |
| `ContractSweep.SecondSweepChangesNothing` | src/app/business/services/scheduler_service.py:369-380 | The contract side of a second sweep on the same day changes neither table. |
| `ContractSweep.SweepBringsUpToDate` | src/app/business/services/scheduler_service.py:369-380 | After a sweep no terminal contract has a pending row, and every active one has its due dates live and its next visit recorded. |
| `ContractSweep.SweepInPlainTerms` | src/app/business/services/scheduler_service.py:369-380 | Day by day, by a contract's status, deletion mark and tenant: which live visits it has after a sweep. |
| `ContractSweep.SweptContractInPlainTerms` | src/app/business/services/scheduler_service.py:365-380 | A sweep records the next visit of the active contracts in it, and changes no contract otherwise. |
| `ContractRuns.RunsStayGoodExactly` | src/app/business/services/scheduler_service.py:365-385 | Over any run of sweeps, contract changes with their recomputes, and staff and vendor changes, on any days: no contract has two live rows on a date and no dead contract has a pending row, throughout, if and only if every step meets a condition on the tables it starts from. |
| `ContractRuns.RunsFromEmptyAreSafe` | src/app/business/services/scheduler_service.py:365-385 | From empty tables on, only changes by hand need care: as long as none puts a contract row on a taken date, leaves a dead contract a pending row or makes a contract row a template, no run breaks either rule. |
| `ContractRuns.StepKeepsGoodExactly` | src/app/business/services/scheduler_service.py:259-282 | Every single step keeps the two rules if and only if it is allowed; contract creates, updates and deletes and work-order deletes always are. |
| `ContractRuns.HandChangeKeepsGoodExactly` | src/app/business/services/work_order_service.py:101-150 | A staff or vendor update keeps them if and only if the changed row is not on the date of another row that stays live and not pending for a dead contract. |
| `ContractRuns.AddingKeepsGoodExactly` | src/app/business/services/work_order_service.py:76-99 | The same for a row that staff add. |
| `ContractRuns.PassKeepsGood` | src/app/business/services/scheduler_service.py:207-251 | A generation pass for a living contract keeps it. |
| `ContractRuns.SweptOneKeepsGood` | src/app/business/services/scheduler_service.py:371-380 | The sweep over one listed contract keeps it. |
| `ContractRuns.RecomputeRestoresGood` | src/app/business/services/scheduler_service.py:259-282 | A recompute restores it after an arbitrary change of the contract's record. |
| `ContractRuns.RecurringSweepKeepsGoodExactly` | src/app/business/services/scheduler_service.py:284-363 | The recurring sweep keeps them if and only if the templates that count as contract rows plan no taken date, none twice and none for a dead contract. |
| `ContractRuns.CarefulRunsAreAllowed` | src/app/business/services/scheduler_service.py:365-385 | Where no contract row is or becomes a template, every sweep of a run is allowed. |
| `ContractRuns.DeletedForGood` | src/app/business/services/contract_service.py:128-148 | A deleted contract stays deleted in every run; as long as each step is allowed, it has no pending row either. |
| `ContractRowsByHand.AddingKeepsDatesUniqueExactly` | src/app/business/services/work_order_service.py:76-99 | A row that staff add duplicates a contract's date if and only if it is live on a date already taken. |
| `ContractRowsByHand.ChangingKeepsDatesUniqueExactly` | src/app/business/services/work_order_service.py:101-150 | A staff update, reviving, moving or changing a template included, duplicates a date if and only if the changed row meets another live one that is not cancelled along with the update. |
| `ContractRowsByHand.SweepKeepsNoPendingExactly` | src/app/business/services/scheduler_service.py:320-346 | A recurring sweep gives a contract without pending rows one if and only if a template of the contract adds one. |
| `ContractRowsByHand.SweepKeepsDatesUniqueExactly` | src/app/business/services/scheduler_service.py:320-328 | When templates do count as contract rows: a recurring sweep keeps a contract's live dates unique if and only if the dates its templates add are neither taken nor added twice. |
| `ContractRowsByHand.TemplateDuplicatesVisit` | src/app/business/services/scheduler_service.py:315-328 | The duplicate occurs: a Monday template of a contract gets a child on a day that the contract already has a visit on. |
| `SweepLock.DuplicateFreeExactly` | src/app/business/services/scheduler_service.py:207-251 | Reads and inserts of any number of sessions, interleaved in any way, with any of them rolled back: the table ends with one live row per contract and date if and only if, among the sessions that commit, none ever read a key as absent while another one, not yet committed, had inserted it or was still to insert it. |
| `SweepLock.RowsAfterRun` | src/app/business/services/scheduler_service.py:207-251 | In closed form: a (contract, date) gains one row for each read, by a session that commits, that found it due and absent. |
| `SweepLock.UndisturbedExactly` | src/app/business/services/scheduler_service.py:207-244 | The same runs, by the time between a read and its inserts: if and only if at no moment had a session inserted, uncommitted, a key that another one had read as absent and was still to insert. |
| `SweepLock.SettledRunsAreSafe` | src/app/business/services/scheduler_service.py:387-394 | Sweeps under the advisory lock are safe in every run in which each one commits before the next one reads, wherever sweeps fail: between a read and its inserts the lock keeps the others out. |
| `SweepLock.RecomputesAloneAreSafe` | src/app/business/services/contract_service.py:85-126 | Recomputes alone never duplicate a row, in any interleaving: each writes its contract before it reads, and so makes the next one for it wait. |
| `SweepLock.MutualExclusion` | src/app/business/services/scheduler_service.py:165-178 | In every run of steps of any number of workers at most one sweep is in the locked region, and a refused worker changes nothing. |
| `SweepLock.ClearExactly` | src/app/business/services/scheduler_service.py:213 | A step leads to a state without double claims of sessions that commit if and only if there was none and it reads as absent no key that another one has inserted or is still to insert. |
| `SweepLock.RowsStay` | src/app/core/db/postgres/database.py:170-188 | No step takes a row away, so a run that ends without duplicates had none at any point. |
| `SweepLock.PassIsGeneration` | src/app/business/services/scheduler_service.py:207-244 | Whatever the others do meanwhile, a read and its visits insert exactly the visits that a generation pass adds to the table the read saw. |
| `SweepLock.UnlockBeforeCommitDuplicates` | src/app/business/services/scheduler_service.py:387-394 | A run that breaks the premise: unlock comes before commit, and a second sweep reads between the two and inserts the visit again. |
| `SweepLock.RecomputeIgnoresTheLock` | src/app/business/services/contract_service.py:121-125 | A recompute takes no advisory lock; between a sweep's insert and its commit it reads and inserts the visit again. |
| `SweepLock.StaleReadDuplicates` | src/app/business/services/scheduler_service.py:213-235 | A sweep reads, a whole recompute comes and commits, and the sweep inserts what it still takes to be missing. |
| `SweepLock.SessionCanFail` | src/app/core/db/postgres/database.py:181-186 | Any session that is at work can be rolled back, a sweep once it has unlocked, and leaves nothing behind. |
| `DeletionRace.RunsStayCleanExactly` | src/app/business/services/scheduler_service.py:369-380 | Deletes, sweeps and recomputes of any number of sessions, interleaved in any way: no deleted contract ever has a pending row if and only if no session commits, uncancelled, a row of a contract that was deleted while it was at work. |
| `DeletionRace.StepKeepsCleanExactly` | src/app/business/services/contract_service.py:128-140 | One step leaves a deleted contract a pending row if and only if it is such a commit; the commit of the delete itself never is, since no other session can commit rows of the contract between its cancellation and its commit. |
| `DeletionRace.OnlySweepsAreLate` | src/app/business/services/contract_service.py:85-126 | Only a sweep can commit so late; a recompute has written its contract first, which makes a delete wait. |
| `DeletionRace.RecordingLivingIsEnough` | src/app/crud/crud_contracts.py:159-173 | If the write that ends a pass refused a deleted contract, as the other writes do, no commit would be late. |
| `DeletionRace.OrphansStay` | src/app/crud/crud_contracts.py:142-157 | Once no session has a deleted contract on its list, no step of any run touches its pending rows again. |
| `DeletionRace.SweepOutlivesDelete` | src/app/business/services/scheduler_service.py:369-380 | It happens: a sweep lists a contract, a delete clears it and commits, and the sweep inserts and commits a visit, which stays for good. |
| `DeletionRace.CommitInPlainTerms` | src/app/core/db/postgres/database.py:176-188 | A commit adds what the session has inserted and not cancelled, takes away what it cancelled, and nothing else; what others have inserted stays out. |
| `DeletionRace.StepKeepsRowsApart` | src/app/crud/crud_work_orders.py:88-106 | In every run, what a session has inserted is neither committed nor inserted or cancelled by another one. |
| `DeletionRace.EditReplacesVisit` | src/app/business/services/scheduler_service.py:259-282 | A run: a recompute cancels a visit, inserts another, and commits the exchange. |
| `Recurrence.MonthScheduleClosedForm` | src/app/business/services/scheduler_service.py:120-124 | Point n of a schedule with step k months lies exactly n*k months after the first, its day is the least of the first day and the last days of the months visited, and never below min(first day, 28). |
| `Recurrence.Step` | src/app/business/services/scheduler_service.py:120-124 | A step goes forward by 1, 7 or 14 days, or by 28 to 31 days per month. |
| `Recurrence.StepInPlainTerms` | src/app/business/services/scheduler_service.py:120-124 | A contract step is 1, 7 or 14 days, or 1, 6 or 12 months for monthly, half-yearly and yearly, and 3 months for quarterly and any other frequency. |
| `Recurrence.PointInPlainTerms` | src/app/business/services/scheduler_service.py:120-124 | Point n lies n, 7n or 14n days, or n, 3n, 6n or 12n months after the first, on the clamped day. |
| `Schedule.PointSpacing` | src/app/business/services/scheduler_service.py:148-155 | Points are apart by at least n shortest and at most n longest steps. |
| `Schedule.PointsIncrease` | src/app/business/services/scheduler_service.py:148-155 | The schedule is strictly increasing in spite of clamping. |
| `Schedule.EnumerateMember` | src/app/business/services/scheduler_service.py:148-155 | The bounded generator yields exactly the points within its bounds among the first 1000. |
| `Schedule.EnumerateIncreasing` | src/app/business/services/scheduler_service.py:148-155 | It yields them in strictly increasing order. |
| `Schedule.EnumerateVisits` | src/app/business/services/scheduler_service.py:149-155 | The generator's loop computes that enumeration. |
| `Schedule.UpToMember` | src/app/business/services/scheduler_service.py:222-225 | The loop's break keeps exactly the visits within the lead window. |
| `Schedule.FirstAfterIsLeast` | src/app/business/services/scheduler_service.py:223-224 | The first visit seen after today is the least one. |
| `Contracts.IterVisitDates` | src/app/business/services/scheduler_service.py:134-155 | Start date, or one step past the later of start and last service; nothing without a start date. |
| `Contracts.VisitInPlainTerms` | src/app/business/services/scheduler_service.py:26-32 | Visit n of a contract lies n, 7n or 14n days, or n, 3n, 6n or 12n months after its first, by its frequency, a missing or unknown one counting as quarterly. |
| `Contracts.FirstVisitInPlainTerms` | src/app/business/services/scheduler_service.py:134-148 | The first visit is on the start date, or one step of the frequency past the later of start and last service; none without a start. |
| `Contracts.VisitDatesInPlainTerms` | src/app/business/services/scheduler_service.py:148-155 | The visits are those of the first 1000 that lie by the end date and within 1830 days. |
| `Contracts.DueInPlainTerms` | src/app/business/services/scheduler_service.py:219-227 | Due are those within the lead: five days if none is set, none for a negative one. |
| `Contracts.VisitsRespectTerms` | src/app/business/services/scheduler_service.py:134-155 | Every visit lies on or after the start, after the last service, by the end date and within 1830 days; there are at most 1000; and an unserviced contract has its first visit on its start date. |
| `Contracts.DueExactly` | src/app/business/services/scheduler_service.py:219-227 | A day is due if and only if it is among the first 1000 schedule points and within the end date, the horizon and the lead window. |
| `Contracts.DueGrows` | src/app/business/services/scheduler_service.py:219-227 | What was due stays due on later days. |
| `Contracts.CoverageExactly` | src/app/business/services/scheduler_service.py:36-37 | With a lead within the horizon, every schedule point up to min(end, today + lead) is enumerated if and only if point 1000 is not itself within these bounds. |
| `Contracts.CoverageByShortestStep` | src/app/business/services/scheduler_service.py:36-37 | A bound a caller can check: coverage holds if 1000 shortest steps from the first visit reach past the lead window. |
| `Contracts.CapStalls` | src/app/business/services/scheduler_service.py:149-155 | Once the last of the 1000 points is due, no later day adds a visit, and once it has passed there is no next visit. |
| `Contracts.DailyContractStalls` | src/app/business/services/scheduler_service.py:149-155 | A daily contract gets no visit past its first 1000 days, however long it runs. |
| `Contracts.NextVisitIsLeast` | src/app/business/services/scheduler_service.py:219-250 | The recorded next visit is the least enumerated visit after today. |
| `Contracts.VisitsStayNearToday` | src/app/business/services/scheduler_service.py:147-155 | No date is computed more than one step past the five-year horizon. |
| `Calendar.Lt` | src/app/business/services/scheduler_service.py:113-116 | Comparing year, month and day in turn is comparing day numbers. |
| `Calendar.OrdinalRoundTrip` | src/app/business/services/scheduler_service.py:75-80 | Dates and day numbers correspond one to one. |
| `Calendar.OrdinalInjective` | src/app/business/services/scheduler_service.py:75-80 | Different dates have different day numbers. |
| `Calendar.YearStartFormula` | src/app/business/services/scheduler_service.py:75-80 | The day number agrees with the closed Gregorian formula for the days before a year. |
| `Calendar.MonthLengthsInPlainTerms` | src/app/business/services/scheduler_service.py:79 | The lengths of the twelve months, in common and in leap years. |
| `Calendar.AddMonths` | src/app/business/services/scheduler_service.py:75-80 | Exactly the given number of months later, on the same day or the last day of the month. |
| `Calendar.AddMonthsGap` | src/app/business/services/scheduler_service.py:75-80 | k months later is 28k to 31k days later. |
| `IsoFormat.ParseFormat` | src/app/business/services/scheduler_service.py:66-72 | Reading a written date gives it back, whatever follows the first ten characters. |
| `IsoFormat.FormatInjective` | src/app/crud/crud_work_orders.py:204 | Different dates are written differently. |
| `IsoFormat.FormatOrder` | src/app/business/services/scheduler_service.py:296 | Written dates sort as the dates do. |
| `IsoFormat.TextDedupeIsDateDedupe` | src/app/business/services/scheduler_service.py:226-228 | Membership of the written date in a set of written dates is membership of the date. |
| `Recurrence.NormalizeDays` | src/app/business/services/scheduler_service.py:83-95 | Decodes entry by entry and returns the valid days, sorted and without repetition. |
| `Recurrence.NormalizedDays` | src/app/business/services/scheduler_service.py:83-95 | Contains exactly the decoded values in range, in increasing order. |
| `Recurrence.NormalizedInPlainTerms` | src/app/business/services/scheduler_service.py:83-95 | A day is in a list if and only if it is from 1 to 7 (weekly, fortnightly) or 1 to 28 and some entry is its number or one of the names of that ISO weekday, in any letter case and with any white space around it. |
| `Recurrence.OtherWordsAddNoDay` | src/app/business/services/scheduler_service.py:83-95 | A word that spells none of the fourteen names adds no day. |
| `Text.CleanedUpExactly` | src/app/business/services/scheduler_service.py:92 | Stripping and lowering gives a word if and only if the text spells it, whatever the case and the white space around. |
| `Recurrence.ComputeNextOccurrence` | src/app/business/services/scheduler_service.py:98-117 | The branches and the weekday loop compute the next occurrence. |
| `Recurrence.FindWeekday` | src/app/business/services/scheduler_service.py:104-108 | The weekday loop with its fallthrough. |
| `Recurrence.NextOccurrenceIsLater` | src/app/business/services/scheduler_service.py:98-117 | The next occurrence is strictly after the anchor, for every frequency and every list of days. |
| `Recurrence.NextWeekdayOccurrence` | src/app/business/services/scheduler_service.py:100-109 | With valid weekdays it is the least later date on one of them, at most seven days on, so the fallthrough is dead. |
| `Recurrence.NamedDayIsNext` | src/app/business/services/scheduler_service.py:98-108 | A weekly or fortnightly template whose one entry names a day next occurs on the first such weekday to come. |
| `Recurrence.FortnightlyIsWeekly` | src/app/business/services/scheduler_service.py:100-109 | A fortnightly template with weekdays runs on the weekly schedule. |
| `Recurrence.NextMonthOccurrence` | src/app/business/services/scheduler_service.py:110-117 | For other frequencies it is exactly k months on, on the smallest valid day if there is one and on the clamped day otherwise; daily counts as one month; the repair branch never runs. |
| `Recurrence.NextOccurrenceInPlainTerms` | src/app/business/services/scheduler_service.py:98-117 | Without valid days 7 or 14 days on; otherwise by month: 3, 6 or 12 months on for quarterly, half-yearly and yearly, one for anything else, on the smallest valid day or the clamped one. |
| `Recurrence.NextOccurrenceGrows` | src/app/business/services/scheduler_service.py:93-117 | With valid days, a later date has no earlier next occurrence. |
| `Recurrence.LastMonthdayBefore` | src/app/business/services/scheduler_service.py:110-117 | With days of the month and a step of one month, all days of a month have the same next occurrence, its smallest valid day later than the last of them. |
| `Recurrence.MonthOccurrenceIsFar` | src/app/business/services/scheduler_service.py:110-117 | By day of the month the next occurrence is at least the smallest valid day ahead. |
| `RecurringChain.ChainStep` | src/app/business/services/scheduler_service.py:290-359 | A sweep adds at most one child to a template, exactly when the next date is within its end and five days from today; it is later than the anchor and every live child. |
| `RecurringChain.SweepKeepsChildrenDistinct` | src/app/business/services/scheduler_service.py:290-359 | Live children of a work order stay on distinct dates. |
| `RecurringChain.FirstChildExactly` | src/app/business/services/scheduler_service.py:296-314 | A childless template gets a child if and only if the next occurrence after max(anchor, today) is within five days and its end. |
| `RecurringChain.FirstChildEverExactly` | src/app/business/services/scheduler_service.py:296-314 | A run of sweeps from a given day on that gives a childless row a child exists if and only if the row is a listed template within reach whose first date is not past its end. Out of reach are templates without valid days, quarterly, half-yearly and yearly ones, and all others by day of the month whose smallest valid day comes after the 5th. |
| `RecurringChain.FirstChildComes` | src/app/business/services/scheduler_service.py:296-314 | For a template within reach one sweep is enough, on the last day on which its first date is still the next one. |
| `RecurringChain.NoFirstChildEver` | src/app/business/services/scheduler_service.py:296-314 | So no run of sweeps on any days gives a first child to a template out of reach. |
| `RecurringChain.MidMonthNeverStarts` | src/app/business/services/scheduler_service.py:110-117 | A monthly template on the 15th never gets a first child. |
| `RecurringChain.GapShrinks` | src/app/business/services/scheduler_service.py:296-314 | A template that fires comes closer to the end of the lead window; one that does not keeps its plan. |
| `RecurringChain.SweepsConverge` | src/app/business/services/scheduler_service.py:284-363 | Sweeps repeated on one day reach a fixed point: with at most k days of room per template, no sweep after the k-th adds a row, and after one more nothing changes. |
| `RecurringChain.FiveSweepsAreEnough` | src/app/business/services/scheduler_service.py:284-363 | Five sweeps suffice when no template's anchor or last child lies in the past. |
| `RecurringChain.QuietIsFixed` | src/app/business/services/scheduler_service.py:284-363 | When no template fires, a sweep adds no row and the next one changes nothing. |
| `RecurringScheduler.SkipsOnlyPastEnd` | src/app/business/services/scheduler_service.py:310-314 | A template is skipped only for its end date: the branch for an existing date is never taken. |
| `RecurringScheduler.SweptRowInPlainTerms` | src/app/business/services/scheduler_service.py:284-359 | What a sweep does for one row, spelled out: which rows it expands, the date it looks at, what it records, and the child it adds, field by field, if the date is at most five days ahead. |
| `RecurringScheduler.ChildDatesAfterSweep` | src/app/business/services/scheduler_service.py:290-359 | A template's live child dates gain its planned child and nothing else. |
| `RecurringScheduler.SweepStep` | src/app/business/services/scheduler_service.py:290-359 | What is decided for a template does not depend on the templates expanded before it. |
| `RecurringScheduler.FindLatest` | src/app/business/services/scheduler_service.py:296 | The maximum of the child dates, None for none. |
| `RecurringScheduler.ChildRow` | src/app/business/services/scheduler_service.py:315-347 | A child is a live upcoming unstarted child of its template on the planned date, and no template itself; it inherits its template's contract and source. |
| `RecurringScheduler.RecurringSchedulerService.SweepTemplate` | src/app/business/services/scheduler_service.py:288-362 | One round of the loop: expands exactly the live recurring rows of the tenant. |
| `RecurringScheduler.RecurringSchedulerService.ExpandTemplate` | src/app/business/services/scheduler_service.py:290-359 | The loop body: records the next date and creates at most one child. |
| `RecurringScheduler.RecurringSchedulerService.GenerateRecurringWorkOrders` | src/app/business/services/scheduler_service.py:284-363 | The loop amounts to expanding all templates at once; created is the growth of the table, skipped the number of templates past their end. |
| `WorkOrders.WorkOrderTable.Create` | src/app/crud/crud_work_orders.py:88-106 | Appends the row. |
| `WorkOrders.WorkOrderTable.ExistingContractScheduleDates` | src/app/crud/crud_work_orders.py:190-204 | Collects the dates of the contract's live rows. |
| `WorkOrders.LiveDatesInPlainTerms` | src/app/crud/crud_work_orders.py:190-204 | A date counts as taken if and only if a generated row of the contract that is neither deleted nor terminated is on it. |
| `WorkOrders.WorkOrderTable.CancelContractWorkOrders` | src/app/crud/crud_work_orders.py:206-224 | Terminates exactly the pending contract rows and returns their number. |
| `WorkOrders.CancellationInPlainTerms` | src/app/crud/crud_work_orders.py:206-224 | Row by row: the upcoming generated rows of the contract become terminated, all others stay. |
| `WorkOrders.WorkOrderTable.RecurringChildDates` | src/app/crud/crud_work_orders.py:288-301 | Collects the dates of the template's live children. |
| `WorkOrders.ChildDatesInPlainTerms` | src/app/crud/crud_work_orders.py:288-301 | A date counts as taken for a template if and only if a child that is neither deleted nor terminated is on it. |
| `WorkOrders.WorkOrderTable.CancelRecurringChildren` | src/app/crud/crud_work_orders.py:226-267 | Terminates exactly the live upcoming unstarted children, adds one event to each, and returns their number. |
| `WorkOrders.ChildCancellationInPlainTerms` | src/app/crud/crud_work_orders.py:226-267 | Row by row: the upcoming, unstarted children become terminated with one more event, all other rows stay. |
| `WorkOrders.WorkOrderTable.UpdateRecurringNextDate` | src/app/crud/crud_work_orders.py:303-316 | Writes the next date of one template and nothing else. |
| `WorkOrders.WorkOrderTable.AppendTimeline` | src/app/crud/crud_work_orders.py:134-162 | Appends one event to an existing row; None and no change for a missing one. |
| `WorkOrders.WorkOrderTable.SoftDelete` | src/app/crud/crud_work_orders.py:164-188 | Clears one row's active flag. |
| `TemplateRetirement.WorkOrderService.Update` | src/app/business/services/work_order_service.py:101-150 | Not found, empty payload, or the changed record with the children cancelled by the first branch that applies. |
| `TemplateRetirement.WorkOrderService.Delete` | src/app/business/services/work_order_service.py:152-176 | Cancels the children of a template, then soft-deletes it. |
| `TemplateRetirement.WorkOrderService.VendorUpdate` | src/app/business/services/work_order_service.py:235-265 | Changes the row and returns it, and reaches no child. |
| `TemplateRetirement.UpdateCancelsExactly` | src/app/business/services/work_order_service.py:113-141 | Over every combination of sent fields: an update of a template cancels all its unstarted children if a schedule field was sent or the state set to terminated, and touches no child otherwise. |
| `TemplateRetirement.OtherRowsInPlainTerms` | src/app/business/services/work_order_service.py:113-141 | What an update does to every other row: terminated, with the very note of the branch taken, if it is an upcoming, unstarted child and there is a reason to cancel; untouched otherwise, and always by a vendor. |
| `TemplateRetirement.UpdatedRowInPlainTerms` | src/app/business/services/work_order_service.py:327-345 | Column by column: a value sent is stored, null clears three of the dates and is dropped elsewhere, and what is not sent stays. |
| `TemplateRetirement.NothingToUpdate` | src/app/business/services/work_order_service.py:101-111 | An update that sends nothing, or to a missing or deleted row, touches no row. |
| `TemplateRetirement.DeleteInPlainTerms` | src/app/business/services/work_order_service.py:152-176 | A delete marks the row, and terminates its upcoming, unstarted children with its note if it is a template. |
| `TemplateRetirement.DeleteLeavesNoOrphans` | src/app/business/services/work_order_service.py:152-176 | A delete leaves no live upcoming unstarted child and touches no other row. |
| `TemplateRetirement.RetirementIsFinal` | src/app/business/services/work_order_service.py:113-141 | After a template is disabled or terminated no orphan is left, and none appears in any later run of sweeps. |
| `TemplateRetirement.RetiredForGood` | src/app/business/services/scheduler_service.py:284-363 | No run of sweeps brings a child to a work order that is no live template. |
| `TemplateRetirement.VendorTerminationKeepsOrphans` | src/app/business/services/work_order_service.py:235-265 | A vendor who terminates a template cancels nothing, and no later run of sweeps makes up for it: orphans are left at the end exactly if the template had an unstarted child before. |
| `TemplateRetirement.OrphansStay` | src/app/business/services/scheduler_service.py:284-363 | No run of sweeps cancels the unstarted children of a work order that is no live template. |
| `WebhookProgress.ServedExactly` | src/app/crud/crud_webhook_deliveries.py:85-116 | Whatever the endpoints answer, after as many batches as there are attempts left a pending row with a URL is still pending if and only if at least a whole batch of pending rows without a URL precedes it in id order. |
| `WebhookProgress.EveryRowIsServed` | src/app/workers/schedulers/webhook_delivery_worker.py:120-143 | With fewer than a batch of pending rows without a URL, every row with one is delivered or exhausted after that many batches. |
| `WebhookProgress.BatchProgress` | src/app/workers/schedulers/webhook_delivery_worker.py:120-143 | A batch that claims a row with a URL brings the attempts left strictly down; one that claims none changes nothing. |
| `WebhookProgress.ClaimedExactly` | src/app/crud/crud_webhook_deliveries.py:85-116 | A pending row is claimed if and only if fewer than a batch of pending rows precede it. |
| `WebhookRuns.RunAccounts` | src/app/workers/schedulers/webhook_delivery_worker.py:49-80 | Over any run, whatever raises and whatever is not recorded, with rows enqueued and triggers lost in between: attempt never falls or passes 3, a delivered row stays so, and a recorded outcome has an error exactly if it is no delivery. But for what was sent in calls that raised or were not recorded, requests are at most the attempts used, and there is at most one 2xx, exactly if the row is now delivered. |
| `WebhookRuns.NothingLostExactly` | src/app/workers/schedulers/webhook_delivery_worker.py:66-80 | Nothing is sent without a trace if and only if each call that reaches the row sends nothing or is recorded without an exception. |
| `WebhookRuns.CalmLosesNothing` | src/app/workers/schedulers/webhook_delivery_worker.py:66-80 | So it is in runs where no call raises and all results are recorded. |
| `WebhookRuns.FreshRowGetsTwoPosts` | src/app/models/webhook_delivery.py:48 | A freshly enqueued row starts at attempt 1, so it is sent at most two requests as long as nothing is lost, and two if the endpoint keeps failing. |
| `WebhookRuns.RaisingRowIsPostedForever` | src/app/workers/schedulers/webhook_delivery_worker.py:66-80 | Otherwise there is no limit: a fresh row whose second attempt fails and whose third one raises is sent one more request in every batch. |
| `WebhookRuns.SettledForGood` | src/app/crud/crud_webhook_deliveries.py:93-104 | In any run, a delivered or exhausted row is never claimed again and no request is sent for it. |
| `WebhookRuns.CallAccounts` | src/app/workers/schedulers/webhook_delivery_worker.py:21-46 | One recorded call: attempts used, requests sent, success and error agree. |
| `WebhookRuns.DeliversExactly` | src/app/workers/schedulers/webhook_delivery_worker.py:26-46 | A recorded call delivers if and only if an attempt that is made is answered with a code from 200 to 299: one past the prior attempts and up to the third, with no earlier one rejected, raised or answered so. |
| `WebhookRuns.LastAttemptDecides` | src/app/workers/schedulers/webhook_delivery_worker.py:49-80 | The attempt that ends the call decides what is stored, field by field, how many requests were sent, and whether an exception escapes. |
| `WebhookRuns.OneAttemptEnds` | src/app/workers/schedulers/webhook_delivery_worker.py:26-46 | Exactly one attempt ends a call. |
| `WebhookRuns.PendingInPlainTerms` | src/app/crud/crud_webhook_deliveries.py:93-104 | Claimed rows are undelivered and under three attempts, and all such rows are claimed if the batch has room; a call for an exhausted row does nothing. |
| `WebhookRuns.UnaccountedExactly` | src/app/workers/schedulers/webhook_delivery_worker.py:66-80 | Requests go unaccounted for exactly when some were sent and the call raised or its result was not recorded. |
| `WebhookRuns.UnrecordedRoundsRepeat` | src/app/workers/schedulers/webhook_delivery_worker.py:66-80 | While no result is recorded the rows do not change, so each round posts them anew, accepted or not. |
| `WebhookRuns.PoisonBlocksEverything` | src/app/workers/schedulers/webhook_delivery_worker.py:131-143 | As long as the first row that is handled raises, no row ever changes, in however many rounds. |
| `WebhookRuns.PoisonedPair` | src/app/workers/schedulers/webhook_delivery_worker.py:66-80 | It happens: of two fresh deliveries the first one raises at its second attempt, and the other is never made, although its next request would succeed. |
| `WebhookRuns.BatchRowByRow` | src/app/workers/schedulers/webhook_delivery_worker.py:131-143 | A batch in any weather, row by row: a claimed row is delivered to, once, if and only if it has a URL and no earlier item with a URL lets an exception escape; any other row stays as it is. |
| `WebhookRuns.CalmBatchRow` | src/app/workers/schedulers/webhook_delivery_worker.py:131-143 | So where nothing raises, exactly the claimed rows with a URL change, each on its own. |
| `WebhookRuns.WorkerBatchIsPossible` | src/app/workers/schedulers/webhook_delivery_worker.py:120-143 | The worker's own batches, interrupted or not, are among the runs accounted for. |
| `WebhookOutbox.PostWithRetries` | src/app/workers/schedulers/webhook_delivery_worker.py:21-46 | The retry loop: up to attempt 3, ending at a 2xx answer, a rejected URL or an exception. |
| `WebhookOutbox.ClaimedArePending` | src/app/crud/crud_webhook_deliveries.py:85-116 | Claimed rows are pending, distinct and in id order. |
| `WebhookOutbox.DeliveryTable.Create` | src/app/crud/crud_webhook_deliveries.py:143-154 | Appends a row with the column defaults. |
| `WebhookOutbox.DeliveryTable.ClaimPendingBatch` | src/app/crud/crud_webhook_deliveries.py:85-116 | Claims the first rows that are undelivered and under 3 attempts. |
| `WebhookOutbox.DeliveryTable.UpdateResult` | src/app/crud/crud_webhook_deliveries.py:118-141 | Overwrites the outcome of one row. |
| `WebhookOutbox.WebhookDeliveryWorker.DeliverWebhook` | src/app/workers/schedulers/webhook_delivery_worker.py:49-80 | Skips an exhausted row, else posts and records; an exception escapes before anything is recorded. |
| `WebhookOutbox.WebhookDeliveryWorker.ProcessBatch` | src/app/workers/schedulers/webhook_delivery_worker.py:120-143 | Goes through the claimed rows in turn until a shutdown or an exception, skipping rows without a URL. |
| `WebhookOutbox.WebhookDeliveryWorker.RunForever` | src/app/workers/schedulers/webhook_delivery_worker.py:145-172 | The table is the result of the batches so far; a worker stopped before handles none. |
| `WebhookOutbox.WebhookDeliveryWorker.Stop` | src/app/workers/schedulers/webhook_delivery_worker.py:174-181 | Takes effect once. |
| `Invoices.ReplaysExactly` | src/app/business/services/invoice_service.py:98-144 | For every history of updates and added notes: the timeline replays to the current status if and only if that status is not resubmitted. |
| `Invoices.TimelineOnlyGrows` | src/app/business/services/invoice_service.py:113-132 | The old timeline stays a prefix, and exactly one event is added per note and per change to a status other than resubmitted. |
| `Invoices.CreatedFaithfulExactly` | src/app/business/services/invoice_service.py:201-212 | An invoice created without a timeline has one that tells its status exactly if it starts as submitted. |
| `Invoices.UpdateInPlainTerms` | src/app/business/services/invoice_service.py:98-144 | What an update comes to, with every column and the very event of each change of status: missing, nothing to store, a taken number, or the stored record. |
| `Invoices.CreateInPlainTerms` | src/app/business/services/invoice_service.py:201-212 | A new invoice column by column, with its defaults. |
| `Invoices.TakenInPlainTerms` | src/app/models/vendor_invoice.py:98 | A number is taken if any invoice, deleted or not, has it without the white space around. |
| `Text.StripExactly` | src/app/business/services/invoice_service.py:203 | Stripping gives a text if and only if it is what lies between the white space around. |
| `Invoices.ResubmittedIsUnrecorded` | src/app/business/services/invoice_service.py:121-127 | The gap: submitted to resubmitted leaves the timeline saying submitted. |
| `Invoices.UpdateKeepsNumbersUnique` | src/app/models/vendor_invoice.py:98 | An accepted update keeps invoice numbers unique, deleted invoices included. |
| `Invoices.InvoiceService.Create` | src/app/business/services/invoice_service.py:73-96 | Missing work order, duplicate number, or the prepared row. |
| `Invoices.InvoiceService.Update` | src/app/business/services/invoice_service.py:98-144 | Not found, empty payload, duplicate number, or the amended row with its status event appended. |
| `Invoices.InvoiceService.Delete` | src/app/business/services/invoice_service.py:146-164 | Soft-deletes one invoice. |
| `Invoices.InvoiceTable.AppendTimeline` | src/app/crud/crud_invoices.py:122-150 | Appends one event to an existing row; None and no change for a missing one. |
| `Invoices.InvoiceTable.SoftDelete` | src/app/crud/crud_invoices.py:152-176 | Clears one row's active flag. |
| `Invoices.InvoiceTable.IsTaken` | src/app/models/vendor_invoice.py:98 | Tells whether another row has the number. |
| `Payments.FirstCompletedWins` | src/app/business/services/payment_service.py:161-203 | Over any sequence of payments created, changed and deleted, an unpaid invoice is paid by the first completed payment whose references exist, with its id and exactly one paid event; nothing else touches it. |
| `Payments.OneReleasePerPaidInvoice` | src/app/business/services/payment_service.py:193-203 | A work order gains one payment_released event for each of its invoices that became paid, and no other. |
| `Payments.NoSettlementWithoutWorkOrder` | src/app/business/services/payment_service.py:193-203 | An invoice whose work order is deleted is never settled: each attempt is rolled back whole. |
| `Payments.ActionOnInvoice` | src/app/business/services/payment_service.py:65-86 | One action settles an unpaid invoice exactly if it pays it, and leaves a paid one alone. |
| `Payments.CreateInPlainTerms` | src/app/business/services/payment_service.py:65-86 | What creating a payment changes, spelled out: nothing, the payments alone, or the payment, its invoice and that one's work order. |
| `Payments.UpdateInPlainTerms` | src/app/business/services/payment_service.py:88-131 | Updating or deleting a payment changes its amount, its status or its mark, and nothing else. |
| `Payments.PaymentService.Create` | src/app/business/services/payment_service.py:65-86 | Missing references, a plain payment, a settling payment, or a rollback of everything. |
| `Payments.PaymentService.SettleLinkedInvoice` | src/app/business/services/payment_service.py:161-203 | Marks an unpaid invoice paid and tells its work order; leaves a paid or missing one alone. |
| `Payments.PaymentService.Update` | src/app/business/services/payment_service.py:88-111 | Changes the payment only, whatever its new status. |
| `Payments.PaymentService.Delete` | src/app/business/services/payment_service.py:113-131 | Soft-deletes the payment only. |
| `PaymentAudit.PaymentTrailIsExactUnlessReceiptSlips` | src/app/business/services/payment_service.py:88-111 | For every payment and every sequence of updates: after each of them the created snapshot with the diffs so far applied is the JSON-safe row, updated_at aside, if and only if no update replaced the receipt by a different one that compares equal to it. |
| `PaymentAudit.PaymentTrailIsFaithful` | src/app/business/services/payment_service.py:88-111 | In any case it agrees with the row up to Python's equality. |
| `PaymentAudit.TrailInPlainTerms` | src/app/business/services/events_service.py:25-61 | Column by column, after any number of updates: but for the receipt and updated_at, the folded trail holds the very text of a text, the ISO text of a date or a datetime, the number of a number, and null for null. |
| `PaymentAudit.DifferentDatesAreTold` | src/app/business/services/events_service.py:25-61 | So payments with different dates never have the same folded trail. |
| `PaymentAudit.DiffInPlainTerms` | src/app/business/services/events_service.py:48-61 | A diff names the columns, other than updated_at, whose values differ, with the JSON of the old and the new value. |
| `PaymentAudit.PayloadInPlainTerms` | src/app/business/services/payment_service.py:231-241 | A value sent is stored, null is dropped but for the date, the reference, the receipt and the notes. |
| `PaymentAudit.LosslessUnlessReceiptSlips` | src/app/models/payment.py:61-65 | Of a payment's columns only the receipt, which holds any JSON object, can lose a change. |
| `PaymentAudit.PlainReceiptsNeverSlip` | src/app/business/services/events_service.py:57-60 | Receipts that never hold a boolean, a float or a decimal lose none. |
| `PaymentAudit.AuditedPayment.constructor` | src/app/business/services/payment_service.py:65-81 | A new payment starts its trail with a created event. |
| `PaymentAudit.AuditedPayment.Update` | src/app/business/services/payment_service.py:88-111 | Writes the columns sent, except nulls of columns that cannot be cleared, and records the diff; a request in which nothing is left changes and records nothing. |
| `PaymentAudit.ReceiptLost` | src/app/business/services/events_service.py:48-61 | It happens: the diff of a receipt entry that goes from 1 to true is empty. |
| `PaymentAudit.PythonIsLawful` | src/app/business/services/events_service.py:25-40 | Python's equality is reflexive and transitive, and equal values have equal JSON. |
| `FieldDiffs.DiffKeepsAgreement` | src/app/business/services/events_service.py:48-61 | Applying the diff of two rows to a snapshot that agrees with the first gives one that agrees with the second. |
| `FieldDiffs.DiffRecords` | src/app/business/services/events_service.py:48-61 | Sound and complete: names exactly the fields of the new record that differ, updated_at aside, with their JSON values. |
| `JsonValues.DeepSafeFixesJson` | src/app/business/services/events_service.py:35-40 | The JSON conversion leaves exactly the JSON values as they are, and is idempotent. |
| `JsonValues.DeepSafeExactly` | src/app/business/services/events_service.py:25-40 | The JSON of a value: the ISO text of a date or datetime, the text of a uuid, the float of a decimal, lists in order for lists and tuples, dicts with the same keys, and anything else itself. |
| `JsonValues.NumbersCompareByValue` | src/app/business/services/events_service.py:57-60 | Numbers of all kinds compare by value, true as one and false as zero. |
| `JsonValues.DeepSafeRespectsEquality` | src/app/business/services/events_service.py:25-40 | Values that compare equal have JSON that compares equal. |
| `JsonValues.PlainEquality` | src/app/business/services/events_service.py:57-60 | Without booleans, floats and decimals Python's equality is equality. |
| `AuditTrail.HistoryIsExactIfLossless` | src/app/business/services/events_service.py:48-61 | For any table: the folded trail is the JSON-safe row after every update if and only if no update changed a field's JSON by a value that compares equal to the old one. |
| `AuditTrail.RowIsExactIfNothingDrifted` | src/app/business/services/events_service.py:48-61 | For one row of a history: it is told exactly if and only if no field's JSON has moved since the trail last recorded it. |
| `AuditTrail.ReconstructedField` | src/app/business/services/events_service.py:48-61 | The folded trail in closed form: each field has the JSON it had when it was last recorded. |
| `AuditTrail.TrailTellsTheRow` | src/app/business/services/events_service.py:87-124 | For any table and any lawful comparison, after every update the folded trail agrees with the row. |
| `AuditTrail.AuditedRowIsFaithful` | src/app/business/services/events_service.py:87-124 | It holds of every row that is kept through the audited methods. |
| `AuditTrail.StatusChangedExactly` | src/app/business/services/events_service.py:73-77 | An update raises status_changed exactly if the status differs. |
| `AuditTrail.OneDispatchPerTrigger` | src/app/business/services/events_service.py:126-161 | Every matching trigger gets exactly one delivery of the event, and no other trigger gets any. |
| `AuditTrail.DispatchesInPlainTerms` | src/app/business/services/events_service.py:126-161 | The enabled triggers of the tenant, project and entity for the raised event get one delivery each, with event name, changes and snapshot. |
| `AuditTrail.EventsService.RecordAndDispatch` | src/app/business/services/events_service.py:87-161 | Appends one audit event with the record's snapshot, and the deliveries; nothing without a tenant or a project. |
| `AuditTrail.AuditedRow.constructor` | src/app/business/services/payment_service.py:65-81 | A new row starts its trail with a created event. |
| `AuditTrail.AuditedRow.Update` | src/app/business/services/payment_service.py:88-111 | An update replaces the sent columns and adds its diff to the trail; an empty payload does neither. |

## Left out

- Routers, response envelopes, middleware, settings, translations and column declarations: plumbing.
- HTTP, name resolution, URL validation, signing, Redis, S3 and the MCP server: an attempt to post is an arbitrary answer, error, rejection or exception.
- API keys, vendor tokens and their hashes.
- Plain CRUD entities (assets, categories, custom fields, forms, templates, business profile) and list pagination: they would only add easy members.
- Scoping of single-row lookups by tenant and project: the tables hold the rows of one project, except for the tenant filter of a sweep, which is modelled.
- Checks that assets, vendors and form templates exist: a failed check changes nothing.
- Descriptive fields (titles, notes, amounts in text, prices) beyond whether one was sent; timestamps; generated identifiers.
- Exceptions swallowed in the recurring loop and database errors in the middle of a sweep: every statement of a sweep succeeds.
- Calendar.FromOrdinal: years have no upper limit, while Python stops at 9999; `Contracts.VisitsStayNearToday` bounds how far past today contract visits are computed.
- IsoFormat.ParseFormat: reads the extended calendar form only, not the other forms that `date.fromisoformat` accepts.
- Recurrence.NormalizeDays: what `int` accepts as a number is already a number here, and `strip` and `lower` cover ASCII.
- SweepLock.DuplicateFreeExactly: rows are keys of contract and date, and cancellations are not among the steps (they are in `DeletionRace`); a pass in which a statement fails is rolled back whole.
- Databases other than those that read what is committed at each statement and lock a row from its update to the end of the session, as PostgreSQL does by default; locks on work-order rows, and deadlocks.
- Undoing a staff or contract update is not promised: the payload builders drop null for most columns that may hold it, so a value sent where there was none cannot be taken back.
- RecurringScheduler.RecurringSchedulerService.GenerateRecurringWorkOrders: goes through the templates in id order, while the service's query leaves the order open; `RecurringScheduler.SweepStep` says that templates do not influence each other.
- RecurringScheduler.FindLatest: goes through the dates as dates; `IsoFormat.FormatOrder` is what makes this the same as through text.
- WebhookOutbox.DeliveryTable.Create: a new row gets the last place in id order here, an arbitrary one in the service; `WebhookRuns.RunAccounts` holds for claims in any order, and `WebhookProgress` adds no rows.
- WebhookOutbox.WebhookDeliveryWorker.DeliverWebhook: the text of an error carries no status number, and an exception is taken to come before the request is sent.
- Several webhook workers at once: row locks end before the first request is sent, so the accounting is for one worker.
- Backoff times and polling intervals.
- Invoices.InvoiceService.Create: line items, documents, files and currency are not modelled.
- Payments.PaymentService.Create: the text of the note is a parameter.
- AuditTrail.EventsService.RecordAndDispatch: tenant and project are given rather than looked up in the record; label, actor and source are not modelled.
- FieldDiffs.DiffRecords: changes are kept by field, so the order in which a diff lists them is not modelled.
- JsonValues.PyEq: dates and datetimes compare by their ISO text, floats are reals, and there is no NaN.
- The audit events and deliveries of entities other than payments are recorded by the same method; their calls are not repeated in each service here.
- After-commit callbacks of the session helper: no service of this kind registers one.
