# Maintenance core: model and proofs

A Dafny model of the parts of this maintenance service that hold state or decide
dates, and proofs of what they keep over every run. Tables are sequences and maps,
`attrs` keys are typed fields, times are integers (nanoseconds for schedules,
shutdowns and the outbox), and every store operation is one atomic step, except
in the outbox and in the preventive-maintenance sync, where the interleaving is
the subject.

Where the service changes rows in a loop, so does the model: a class or a method
with the loop, proved equal to a function of the old tables, and the theorems are
about that function and about runs of it. The rules modules, and lemmas such as
`PMDates.ForecastExactly` or `Backoff.RetryDelayDoubles`, say what an operation does
in the fields of the rows and the numbers of the source alone, without the functions
that define it.

| files | component |
|---|---|
| `Splitter.dfy`, `SplitterRules.dfy` | the migration splitter, against a lexer that reads one byte at a time, and as rules on the text alone |
| `PMDates.dfy` | due dates: the advance after a job, the projection of a schedule, and how they agree |
| `Forecast.dfy` | the forecast as it is served: ranges of whole days, and what an hours interval that does not fit costs |
| `Backoff.dfy`, `Outbox.dfy` | retry delays with 64-bit wrap-around; the outbox with several publishers and crashes |
| `PMSync.dfy` | the sync under its lock, as interleaved runs and as the program |
| `ShutdownModel.dfy`, `ShutdownStore.dfy` | shutdowns, stops and deletions, in bulk and row by row |
| `ShutdownRules.dfy` | what each operation on shutdowns accepts, and what it then writes, in terms of rows and request |
| `ShutdownRuns.dfy` | runs of everything that touches the tables of shutdowns, deletions included, and their scopes |
| `ShutdownHeaders.dfy`, `ShutdownSafety.dfy`, `ShutdownOrders.dfy` | what every run keeps: headers and machines; stops; jobs |
| `ShutdownPlants.dfy` | machines that move between factories while a shutdown has them |
| `ShutdownJobs.dfy` | setting the jobs of a shutdown: what it touches, how they end, those left behind |
| `Downtime.dfy`, `DowntimeSafety.dfy`, `DowntimeTimes.dfy` | the life of a downtime record over every run, when it began and ended, and the machines during a shutdown |
| `Checklist.dfy`, `Commissioning.dfy`, `CommissioningStore.dfy` | checklists, limits, handover, approval, completion |
| `CommissioningSafety.dfy`, `CommissioningRules.dfy` | what every run of them keeps; what each accepts, and what it then writes |
| `Parts.dfy` | planned parts of a template |
| `Shifts.dfy` | shift snapshots and the timetable of a day |
| `Text.dfy`, `Floats.dfy`, `Wrappers.dfy` | trimming, case, numerals; floating-point values; options and results |

Check everything with `dafny verify dfyconfig.toml`.

## What the proofs found

Each of these is a lemma with the exact condition, or a concrete run.

- `backoffFor` multiplies a power of two by a second in 64 bits. From the 34th
  attempt the product wraps, and the delay is zero or negative but for eight
  exceptions. So claims of a row are at least a second apart exactly up to the
  34th (`Backoff.RetryDelayBounds`, `Outbox.ClaimsAreSpacedExactlyTo34`).
- A running-hours interval of some 106,752 days at the machine's current rate
  does not fit in a 64-bit duration and becomes one of minus 292 years: 500 hours
  on a machine that ran six minutes in a month. Forecasts then lose every job but
  the first, those by days too: 13 monthly ones in 400 days. What they still show is
  in order and rightly flagged, unless the first job is itself nearly 292 years
  overdue, as it is when the hours left do not fit either; and then every forecast
  shows that phantom (`Forecast.AnotherJobIsShownExactly`,
  `Forecast.JobsByDaysAreLost`, `Forecast.IdleMachineForecast`,
  `Forecast.ForecastsAreSoundExactly`, `Forecast.PhantomJobIsServed`; the condition
  as one on hours and rate in `PMDates.FitsAtRate`).
- A forecast may be asked for 400 days ahead, but its cap of 400 occurrences is
  safe for a daily schedule up to 399 (`PMDates.CapIsHarmless`).
- With fixed dates and a running-hours interval the forecast loses the calendar
  as soon as hours come first; the advance keeps it (`PMDates.ForecastLeavesTheCalendar`).
- A shutdown of no machine can be planned, and a planned one changed into one, by
  a list of blank tags and by nothing else, although the check means to demand a
  machine (`ShutdownHeaders.PlannedOnNothing`, `ShutdownHeaders.AmendedToNothing`,
  `ShutdownHeaders.ShutdownOfNothingHappens`).
- A stop of a shutdown can be deleted like any downtime record. Its machine then
  has none, and starting the shutdown does not take it down
  (`ShutdownSafety.HeaderFixesTheStops`, `DowntimeSafety.StartTakesMachinesDown`).
- It can also be started, dropped and ended by hand, and a stop can be recorded
  under the code of a shutdown. Shutdown and stops agree after the first exactly
  when the stop was over or no shutdown has its code, and after the second exactly
  when it fits (`ShutdownSafety.HandKeepsStopsExactly`,
  `ShutdownSafety.RecordingKeepsStopsExactly`).
- A finished job keeps its shutdown when that drops its machine or is called off.
  Reopened, it is live in a shutdown that does not take it
  (`ShutdownOrders.ReopeningKeepsOrdersExactly`, `ShutdownOrders.ReopenedInCalledOff`).
- Deleting a factory deletes its shutdowns but not their stops and jobs. A live job
  is left pointing nowhere exactly when there was one, and a later shutdown can get
  the code again and find two stops on one machine
  (`ShutdownOrders.DropPlantKeepsOrdersExactly`, `ShutdownSafety.ReusedCode`,
  `ShutdownSafety.PlannedStopsFollowExactlyWhenUnused`).
- A job still open when its shutdown is completed stays tagged with it: no operation
  can take it out or put it in another, unless a deleted factory frees the code
  (`ShutdownJobs.LeftOverForGood`, `ShutdownJobs.OnlyADeletedFactoryFreesACode`).
- Every stop that a fault report opens starts at the zero time: the value sent is
  never null, so the default of the column is not used. A record that began carries
  the zero time if and only if it was written open without a start
  (`DowntimeSafety.FaultStopsStartAtZero`, `DowntimeSafety.ZeroStartsExactly`).
- Setting the jobs of a shutdown takes no lock, and a process that dies loses the
  sync's lock before an insert that is under way. An order raised so is a second
  live one for its schedule exactly when there is one as it lands, and a reopened
  one likewise (`PMSync.JobsBesideARun`, `PMSync.DeadRunsInsertLandsLate`,
  `PMSync.LateInsertExactly`, `PMSync.ReopenedExactly`).
- Reopening a completed order lets the supervisor who checked it sign again as
  the technician who did it; the work was always checked by another if and only if
  no such signature was ever given (`CommissioningSafety.CheckedExactlyUnlessSelfSigned`,
  `CommissioningSafety.ReopenedWorkCanBeCheckedByItsDoer`).
- PATCH can add a test to a checklist that engineering or production accepted, or
  whose order is completed. The signatures stay and then cover a test nobody marked,
  exactly then (`CommissioningSafety.AddedItemKeepsExactly`).
- Merging parts can store a quantity above the limit of one item, and writing
  that list back is then refused (`Parts.RenormalisingIsHarmless`). The word for
  not-a-number passes as a quantity and spoils the total of its part, and only that
  does (`Parts.NotANumberSpoilsExactly`).
- A test with limits that no reading can meet, such as not-a-number or a minimum
  above the maximum, is accepted only as not applicable
  (`Checklist.LimitsHoldExactly`, `CommissioningSafety.ContradictoryTestIsSetAside`).
- Shift snapshots published within a microsecond of each other may not converge,
  for the time held is rounded to microseconds and the time sent is cut off. They do
  if and only if one of them beats every other in that comparison
  (`Shifts.DeliveriesConvergeExactly`).
- A machine moved to another factory while a shutdown has it can be booked there for
  the same time: the check looks at one factory. The next plan can do so if and only
  if some machine is away like that (`ShutdownPlants.NextPlanBooksTwiceExactly`,
  `ShutdownPlants.MovedAndBookedTwice`).
- Opening tags may start with a digit here, which section 4.1.2.4 of the
  PostgreSQL manual does not allow; quotes other than dollar quotes protect nothing
  (`Splitter.OnlyDollarQuotesProtect`).

## Model

| member | source | states |
|---|---|---|
| `Splitter.DollarTagAt` | internal/migrate/migrate.go:199-213 | the result is a tag that opens the text, and it is empty only when no tag at all opens it |
| `Splitter.ScanFrom` | internal/migrate/migrate.go:175-192 | one pass of the loop body, jumping over a whole tag or one byte, keeps: emitted chunks and what is still to come are the lexer's chunks |
| `Splitter.Split` | internal/migrate/migrate.go:170-195 | the index-jumping loop returns exactly the chunks of the byte-by-byte lexer, for every input |
| `Splitter.NothingLost` | internal/migrate/migrate.go:170-195 | the chunks joined are the input, byte for byte |
| `Splitter.CutsExactlyThere` | internal/migrate/migrate.go:161-195 | the input is cut after byte i if and only if `;`, newline, newline starts at i with the lexer outside every dollar quote |
| `Splitter.OnlyDollarQuotesProtect` | internal/migrate/migrate.go:161-195 | without a dollar sign every such semicolon cuts, string literals and comments notwithstanding |
| `Splitter.ChunksAreWellFormed` | internal/migrate/migrate.go:170-195 | every chunk but the last lexes from closed to closed, ends in `;` and does not split, and the next starts with a blank line |
| `Splitter.SplitAppend` | internal/migrate/migrate.go:170-195 | no tag and no lookahead crosses the semicolon that ends a chunk: splitting a chunk followed by text is that chunk and the split of the text |
| `Splitter.SplitUndoesJoin` | internal/migrate/migrate.go:170-195 | splitting undoes joining for exactly the well-formed chunk lists, which are exactly the lists splitting can return |
| `Splitter.EveryChunkStandsAlone` | internal/migrate/migrate.go:170-195 | each chunk splits to itself; each but the last lexes from closed to closed |
| `Splitter.ExecSql` | internal/migrate/migrate.go:144-159 | statements are sent trimmed, blanks skipped, in order, up to and including the first one refused |
| `Splitter.WholeFileSent` | internal/migrate/migrate.go:144-159 | when all are accepted, nothing of the file but white space was left out or reordered |
| `SplitterRules.ByteRule` | internal/migrate/migrate.go:161-195 | where no tag opens the text a chunk ends behind its first byte if and only if `;`, newline, newline starts there, and what follows is split as if on its own |
| `SplitterRules.QuoteRule` | internal/migrate/migrate.go:175-192 | a dollar quote, from its tag to the next place where the same tag stands, is never cut, whatever is in it, and what follows is split as if on its own |
| `SplitterRules.OpenQuoteRule` | internal/migrate/migrate.go:175-192 | one that is never closed hides the rest of the text: it is one chunk |
| `SplitterRules.SomeRuleApplies` | internal/migrate/migrate.go:161-213 | one of these rules applies to every text, so they say what its chunks are; a tag is letters, digits and underscores between two dollar signs |
| `SplitterRules.ScriptIsTheSame` | internal/migrate/migrate.go:144-159 | a file has the same statements with CR LF line ends as with LF; each is trimmed and none is blank |
| `PMDates.CatchUp` | internal/store/gaps_cmms.go:273-277 | the loop ends at prev + max(1, ⌊(done−prev)/interval⌋+1) intervals, the first calendar date after both prev and done |
| `PMDates.NextDueAfter` | internal/store/gaps_cmms.go:261-278 | floating dates count whole days from completion, be it late or early, and fixed ones go to the first calendar date after both; 30 days for an interval that is not positive |
| `PMDates.DueDatesCountOn` | internal/store/gaps_cmms.go:261-278 | over any run of completions each due date follows that rule from the one before it; a floating one is the last completion and the interval, whatever came before |
| `PMDates.FixedDatesKeepTheCalendar` | internal/store/gaps_cmms.go:261-278 | over any run of completions at any times every due date stays whole intervals from the first, and after the last completion |
| `PMDates.Schedule.Advance` | internal/store/gaps_cmms.go:232-259 | completing a job records it, sets the schedule as scheduled, and moves the due date by that rule, past now and without leaving a fixed calendar |
| `PMDates.ProjectSchedule` | internal/store/forecast.go:95-147 | for any plan the bounded loop returns exactly the listed ones among the occurrences before the first that is past the range, 400 at most |
| `PMDates.ForecastExactly` | internal/store/forecast.go:102-146 | each job is due on the earlier of its two dates, by days when they tie; the first alone can be overdue and is then done now; and from there both dates count on by whole intervals, late first jobs included, but for a fixed day date that came first |
| `PMDates.FloatingForecast` | internal/store/forecast.go:130-146 | a plan that floats in closed form: job k is k times the shorter interval after the first date, or after now if that is past |
| `PMDates.ReturnedExactly` | internal/store/forecast.go:95-147 | whatever the plan, a job is returned if and only if it is among the first 400, comes with all before it no later than the range ends, and no earlier than it starts unless it is the first and overdue |
| `PMDates.StoppingLosesNothing` | internal/store/forecast.go:102-121 | if an hours interval fits in 64 bits, stopping there loses nothing: the list is that of the first 400 occurrences |
| `PMDates.ListingInOrder` | internal/store/forecast.go:95-147 | with an interval that fits the list is in date order, strictly unless the interval rounds to nothing; all in range or overdue; overdue marks exactly the dates before now |
| `PMDates.ReturnedInOrderExactlyWhenFits` | internal/store/forecast.go:95-147 | by projectSchedule alone, for whatever range: every list it returns is in date order if and only if an hours interval fits in 64 bits |
| `PMDates.OverflowListsOneJob` | internal/store/forecast.go:142-144 | with one that does not, no range that stays within 292 years shows more than the first job, days or hours |
| `PMDates.ListingIsComplete` | internal/store/forecast.go:95-147 | no occurrence in range among the first n is missing |
| `PMDates.StrictlyIncreasing` | internal/store/forecast.go:102-146 | the dates strictly increase, at any distance, if and only if an hours interval fits in 64 bits and lasts at least one nanosecond |
| `PMDates.OverdueExactlyWhenPast` | internal/store/forecast.go:102-146 | the first n dates are flagged overdue exactly when they are before now, if and only if an hours interval fits in 64 bits or the first is at least n - 1 times 292 years ahead, or n is at most 1 |
| `PMDates.OverdueWhenPast` | internal/store/forecast.go:102-146 | with an interval that fits only the first date can be before now, and it is flagged exactly then |
| `PMDates.DatesFallBack` | internal/store/forecast.go:142-144 | with one that does not, occurrence k is exactly k times 2^63 nanoseconds, 292 years each, before the later of now and the first |
| `PMDates.FitsAtRate` | internal/store/forecast.go:142-144 | an interval fits exactly when its hours are fewer than 2^63 nanoseconds of running at the current rate, some 106,752 days |
| `PMDates.FirstByHoursBeforeReading` | internal/store/forecast.go:290-300 | the first job by hours is put before the meter reading exactly when the hours left are as many as that |
| `Forecast.MaintenanceForecast` | internal/store/forecast.go:206-217 | for one schedule: the range is taken as whole days and refused if it ends before it starts or exceeds 400 days, otherwise projected |
| `Forecast.ServedDays` | internal/store/forecast.go:206-217 | exactly the ranges of 1 to 400 days are served |
| `Forecast.ServedExactly` | internal/store/forecast.go:95-217 | a job is served if and only if it is among the first 400, comes with all before it by 23:59:59 of the last day, and not before the first day unless it is the first and overdue |
| `Forecast.OverflowServesOneJob` | internal/store/forecast.go:142-144 | with an interval that does not fit, and a first job not nearly 292 years overdue, every served forecast shows the first job or nothing |
| `Forecast.AnotherJobIsShownExactly` | internal/store/forecast.go:102-146 | some served forecast shows a job after the first if and only if an hours interval fits in 64 bits or the first job is nearly 292 years overdue |
| `Forecast.ForecastsAreSoundExactly` | internal/store/forecast.go:102-146 | every served forecast is in date order and flags exactly the dates before now, whether or not the interval fits, but for the plans whose interval does not fit and whose first job is that long overdue |
| `Forecast.JobsByDaysAreLost` | internal/store/forecast.go:142-144 | of what its days alone would show, such a plan's forecast shows exactly the first job |
| `Forecast.PhantomJobIsServed` | internal/store/forecast.go:290-300 | when the hours left do not fit, every forecast shows a job dated 292 years before the meter reading, as overdue |
| `Forecast.IdleMachineForecast` | internal/store/forecast.go:152-189 | 500 hours on a machine that ran 0.1 hours in 30 days, planned monthly as well: 400 days from now show tomorrow's job alone, and the days alone one each month, 13 more |
| `PMDates.ServiceGap` | internal/store/forecast.go:105-145 | each projected job is within one day-interval and one hours-interval, whichever apply, of max(previous job, now), and not before that if and only if an hours interval fits in 64 bits |
| `PMDates.CapIsHarmless` | internal/store/forecast.go:34-36 | by days alone the cap can hide nothing in range if and only if the range ends within 399 days of now |
| `PMDates.ForecastIsTheAdvance` | internal/store/forecast.go:102-146 | by days alone each forecast date is what the advance gives for a job done on time, or now when overdue |
| `PMDates.FixedForecastComesTrue` | internal/store/forecast.go:102-146 | with fixed dates the real due dates are the forecast ones while no job is finished as late as the next forecast date |
| `PMDates.ForecastLeavesTheCalendar` | internal/store/forecast.go:116-144 | with hours as well, forecast and advance agree on the day calendar if and only if dates float, the job fell due by days, or it is done on a calendar date |
| `Backoff.RetryDelayBounds` | internal/outbox/outbox.go:211-220 | the delay never exceeds five minutes, and is at least a second exactly for the attempts listed, otherwise zero or less |
| `Backoff.RetryDelayDoubles` | internal/outbox/outbox.go:211-220 | the delay is two seconds after the first failure and doubles with each of the first 33 up to five minutes; from the 34th on it is five minutes for the eight listed and nothing for every other |
| `Backoff.IdlePollsSettle` | internal/outbox/outbox.go:148-192 | after any polls the next comes in two seconds if the last found work, in four if it was the first that did not, and otherwise in eight |
| `Outbox.Table.ClaimBatch` | internal/outbox/outbox.go:48-86 | the oldest due, undispatched, unlocked rows up to the limit get one attempt more and a lease; no other row changes |
| `Outbox.ClaimsExactly` | internal/outbox/outbox.go:48-86 | a row is claimed if and only if it is undispatched, due and not locked, and fewer rows before it are than the limit, 32 if that is not positive; it then has one attempt more, is due again in a second, and is for the publisher to deliver under that attempt |
| `Outbox.BatchTasks` | internal/outbox/outbox.go:48-86 | a batch holds one delivery for each row it picks and nothing else, never more than the limit |
| `Outbox.Table.MarkFailed` | internal/outbox/outbox.go:97-104 | only the row's next availability changes, in whole milliseconds |
| `Outbox.DeliveryExactly` | internal/outbox/outbox.go:88-104 | in every reachable state: a delivery that succeeds and is marked leaves its row dispatched; one that fails leaves it due at the clock of the mark plus the wait of its attempt, two seconds doubled up to five minutes; no other row changes |
| `Outbox.RunKeepsInv` | internal/outbox/outbox.go:48-209 | the protocol invariant survives every interleaving of claims, deliveries, marks, crashes and time |
| `Outbox.AtLeastOnce` | internal/outbox/outbox.go:48-104 | a dispatched row was delivered, deliveries never exceed attempts, and an undispatched row is due within five minutes of its last touch |
| `Outbox.ClaimsAreSpaced` | internal/outbox/outbox.go:48-104 | the first 34 claims of a row are at least a second apart, however many publishers |
| `Outbox.ClaimsAreSpacedExactlyTo34` | internal/outbox/outbox.go:48-104 | claim j is a second after the one before it in every reachable state if and only if it is one of the first 34 |
| `Outbox.RowsOnlyProgress` | internal/outbox/outbox.go:48-104 | rows are never lost or rewritten, and a dispatched one is never claimed again |
| `Outbox.EveryRowCanStillGo` | internal/outbox/outbox.go:48-104 | from every reachable state some continuation delivers any given undispatched row |
| `Outbox.TwoClaimsAtOnce` | internal/outbox/outbox.go:211-220 | for every j from 34 on a reachable state in which claims j and j - 1 of a row, counted from 0, happen at one instant |
| `Outbox.DrainOnce` | internal/outbox/outbox.go:194-209 | what the drain loop does to the table is a run of the protocol in which no other publisher steps in, with nothing left to do |
| `PMSync.NeverTwoLiveOrders` | internal/jobs/preventive_maintenance.go:23-120 | however runs start, check, insert, stop and die while orders are raised elsewhere, finished and reopened, no schedule ever has two live orders, as long as no insert the lock does not guard and no reopened order lands beside a live order or a run about to raise one |
| `PMSync.LockIsOfTheRun` | internal/store/advisory_lock.go:13-31 | in every reachable state the lock is held by exactly the run in progress, so it never stays behind |
| `PMSync.EveryScheduleCanBeServed` | internal/jobs/preventive_maintenance.go:23-58 | and from every reachable state at most four steps give a schedule a live order: the run in the way ends, the next one takes the lock, checks and inserts |
| `PMSync.LateInsertExactly` | internal/store/advisory_lock.go:14-31 | an insert the lock does not guard makes a second live order if and only if there is one when it lands |
| `PMSync.ReopenedExactly` | internal/store/gaps_cmms.go:75-88 | reopening a finished order makes a second live one if and only if its schedule has one |
| `PMSync.DeadRunsInsertLandsLate` | internal/store/advisory_lock.go:14-31 | a run with the lock that ends with two live orders of a schedule, because a process died with its insert under way |
| `PMSync.JobsBesideARun` | internal/store/shutdown.go:507-588 | and one because the jobs of a shutdown, which take no lock, were set beside the sync |
| `PMSync.TwoLiveOrdersWithoutTheLock` | internal/store/advisory_lock.go:5-31 | the same steps without the lock reach two live orders of one schedule |
| `PMSync.Store.SyncStatuses` | internal/store/gaps_cmms.go:204-212 | exactly the scheduled ones past their date become overdue, and the count is how many |
| `PMSync.Store.RaiseByDate` | internal/jobs/preventive_maintenance.go:42-74 | the date loop raises what the specification of the loop says, and counts it |
| `PMSync.Store.RaiseByMeter` | internal/jobs/preventive_maintenance.go:76-118 | the meter loop, on its snapshot, raises what its specification says and leaves the schedules settled, which OverdueExactly spells out; both counts are exact |
| `PMSync.Store.Sync` | internal/jobs/preventive_maintenance.go:32-120 | one run: overdue is exactly what was, and what was scheduled and is past its date or out of hours, no date and no other status changed; orders raised; both counts exact |
| `PMSync.OverdueExactly` | internal/jobs/preventive_maintenance.go:32-95 | over any runs at any times a schedule is overdue if and only if it was, or was scheduled and at one of them past its date or out of running hours; any other status, every date and every meter stay |
| `PMSync.SyncRaisesExactlyTheMissing` | internal/jobs/preventive_maintenance.go:32-120 | every schedule due within 24 hours, overdue, or with its hours used up or nearly so ends with a live order; orders are raised only for such, only if they had none, only once |
| `PMSync.SecondRunDoesNothing` | internal/jobs/preventive_maintenance.go:32-120 | after an error-free run another one at the same time changes nothing |
| `PMSync.SyncTwice` | internal/jobs/preventive_maintenance.go:32-120 | run twice by the program, the second run creates 0 and marks 0 overdue |
| `PMSync.SyncIsARun` | internal/jobs/preventive_maintenance.go:32-120 | what the program does to the orders is a run of the interleaving machine |
| `ShutdownStore.Store.CreateDowntimeEvent` | internal/store/cmms.go:219-304 | a stop is recorded as scheduled, for the window given, or as open, from the start and to the end given, or refused; the conditions and the record are written out; an open one without an end takes the machine down |
| `ShutdownStore.Store.StartDowntimeEvent` | internal/store/cmms.go:310-359 | exactly a scheduled stop starts; it began now, its machine is down, and the bus hears once |
| `ShutdownStore.Store.CancelDowntimeEvent` | internal/store/cmms.go:363-386 | only a scheduled stop is dropped |
| `ShutdownStore.Store.EndDowntimeEvent` | internal/store/cmms.go:388-436 | exactly an open or closed stop ends; it ended now, its machine is idle, and the bus hears once |
| `ShutdownStore.Store.DeleteDowntimeEvent` | internal/store/register_delete.go:229-232 | any record there is goes, tagged or not, and nothing else changes |
| `ShutdownStore.Store.DeleteWorkOrder` | internal/store/register_delete.go:204-227 | an order goes unless a schedule block refers to it |
| `ShutdownStore.Store.DeletePlant` | internal/store/register_delete.go:118-158 | a factory without machines or other history goes, and its shutdowns with it; their stops and jobs stay |
| `DowntimeSafety.OpProgresses` | internal/store/cmms.go:219-436 | every operation, shutdowns, fault reports and deletions included, moves every record only scheduled→open, scheduled→cancelled, open→closed, closed→closed or to deleted, keeps asset, tag and, once begun, start and plan, and keeps what each state means |
| `DowntimeSafety.RunKeepsRecords` | internal/store/cmms.go:219-436 | over every run a record that began keeps start and plan and is never scheduled again, dropped and deleted ones never change back, and with the bus on exactly the ones that began were announced, once |
| `DowntimeTimes.StepTimes` | internal/store/cmms.go:310-436 | every operation, shutdowns included: a stop it starts began at its clock, one it ends ended at its clock, the bus hears of either once, and the times of no other record change |
| `DowntimeTimes.TimesAreThoseOfTheSteps` | internal/store/cmms.go:219-436 | over every run a stop that began started at the clock of the step that started it, by hand or with its shutdown, or at the start it was sent with; it ended at the clock of the last step that ended it; it is closed if and only if some step did |
| `DowntimeTimes.ClosedWasEnded` | internal/store/shutdown.go:664-698 | over every run a closed stop was ended by EndStop or FinishShutdown, and its end is the clock of the last of those steps that ended it |
| `DowntimeTimes.NewRecordIsAsSent` | internal/store/cmms.go:219-304 | a record just written is scheduled if it was sent so, otherwise open from the start and to the end it was sent with, or from the zero time for a fault |
| `DowntimeSafety.GoneByItsOwnDeletion` | internal/store/register_delete.go:229-232 | over every run a record that is gone was deleted by name |
| `DowntimeSafety.OneStopUnlessDeleted` | internal/store/shutdown.go:318-388 | each machine of a shutdown not called off has exactly one stop that stands, or the one that counts was deleted by name in the run |
| `DowntimeSafety.ZeroStartsExactly` | internal/store/cmms.go:219-304 | over every run a record that began starts at the zero time if and only if some step wrote it open without a start |
| `DowntimeSafety.FaultStopsStartAtZero` | internal/store/maintenance_phase2.go:113-119 | every stop a fault report opens starts at the zero time, for as long as it is on record |
| `DowntimeSafety.StartTakesMachinesDown` | internal/store/shutdown.go:633-647 | starting a shutdown sets down exactly the registered machines that have a standing stop of it, all machines of the shutdown |
| `DowntimeSafety.FinishSetsMachinesIdle` | internal/store/shutdown.go:672-686 | finishing it sets exactly those idle |
| `ShutdownJobs.LeftOverForGood` | internal/store/shutdown.go:507-588 | an order tagged with a completed shutdown, or with one whose factory was deleted, keeps that tag over every further run in which none is planned under the same code |
| `ShutdownJobs.OnlyADeletedFactoryFreesACode` | internal/store/shutdown.go:305-316 | while no factory is deleted no code in use is given again |
| `ShutdownJobs.LeftOverJoinsNoOther` | internal/store/shutdown.go:507-588 | putting such an order into another shutdown is refused and changes nothing |
| `ShutdownModel.CodesDiffer` | internal/store/shutdown.go:305-316 | the codes tried are pairwise different |
| `ShutdownModel.FreeFromIsFirst` | internal/store/shutdown.go:305-316 | the search ends, at the first code not in use |
| `ShutdownModel.NextNumIsFresh` | internal/store/gaps_cmms.go:24-34 | the next work-order number is not in use |
| `ShutdownStore.Store.ResolveMachines` | internal/store/shutdown.go:258-283 | the loop keeps the machines in order, blanks and repeats dropped, or refuses |
| `ShutdownStore.Store.HasClash` | internal/store/shutdown.go:284-301 | true exactly when another active shutdown of the plant has one of the machines in an overlapping window |
| `ShutdownStore.Store.NextShutdownCode` | internal/store/shutdown.go:305-316 | returns the first free code; the loop terminates |
| `ShutdownStore.Store.CreateShutdown` | internal/store/shutdown.go:338-388 | a header under a new code and one scheduled stop a machine, or nothing |
| `ShutdownStore.Store.UpdateShutdown` | internal/store/shutdown.go:400-493 | planned stops move with the window, removed machines lose their stop and their jobs, added ones get a stop |
| `ShutdownStore.Store.SetShutdownJobs` | internal/store/shutdown.go:507-588 | jobs are added, brought forward and removed one by one; what was done before a refusal stays done |
| `ShutdownStore.Store.StartShutdown` | internal/store/shutdown.go:625-660 | every planned stop of the shutdown starts and its machine goes down |
| `ShutdownStore.Store.FinishShutdown` | internal/store/shutdown.go:664-698 | every open stop of the shutdown ends and its machine goes idle |
| `ShutdownStore.Store.CancelShutdown` | internal/store/shutdown.go:702-743 | planned stops are dropped and live jobs leave the shutdown |
| `ShutdownRules.ResolvesExactly` | internal/store/shutdown.go:258-283 | tags are accepted if and only if the first of each spelling, case and blanks aside, is a machine of the plant that is not retired; the machines are exactly those |
| `ShutdownRules.ResolvesInOrder` | internal/store/shutdown.go:258-283 | in the order in which they are first named |
| `ShutdownRules.ChecksExactly` | internal/store/shutdown.go:255-303 | the check passes if and only if there is a tag, all are accepted, and no machine named is in another planned or running shutdown of the plant at a time in the window; only the last is a conflict |
| `ShutdownRules.PlansExactly` | internal/store/shutdown.go:338-388 | a shutdown is planned if and only if plant, title of 1 to 200 characters, window of at most 60 days not yet over, and machines are allowed; the one new header is as asked |
| `ShutdownRules.CodedExactly` | internal/store/shutdown.go:305-316 | its code is SD-, the plant in upper case, the day, and from the second on a number, the first of these that no shutdown has |
| `ShutdownRules.PlansStopsExactly` | internal/store/shutdown.go:318-330 | planning writes one scheduled stop for each machine, for exactly the window, under the code |
| `ShutdownRules.AmendsExactly` | internal/store/shutdown.go:400-493 | a shutdown is changed if and only if it is planned and what then holds of title, window and machines is allowed, its own booking aside; the header is as it was but for what was given |
| `ShutdownRules.AmendsStopsExactly` | internal/store/shutdown.go:454-491 | in whatever state: its stops that have not begun get the new window and are dropped with their machine, live jobs leave with theirs, each machine put in gets a stop, and nothing else changes |
| `ShutdownRules.PhasesExactly` | internal/store/shutdown.go:625-743 | it starts and is called off if and only if planned, and finishes if and only if in progress; its header then says so, and when, and no other header changes |
| `ShutdownRules.PhasesMoveExactly` | internal/store/shutdown.go:633-743 | starting sets down exactly the machines of its scheduled stops, finishing sets idle exactly those of its open ones, calling off drops exactly its scheduled stops, in whatever state |
| `ShutdownRules.JoinsExactly` | internal/store/shutdown.go:515-539 | an order joins if and only if it is live, on a machine of the shutdown and in no other one; it is then planned for the later of the day it was planned for and the first of the shutdown |
| `ShutdownRules.LeavesExactly` | internal/store/shutdown.go:574-586 | an order leaves only the shutdown it is in, and keeps everything else |
| `ShutdownRules.BringsExactly` | internal/store/shutdown.go:545-573 | a schedule of a machine of the shutdown brings the live order raised for it last, or one raised now; any other is refused |
| `ShutdownRules.SetsJobsExactly` | internal/store/shutdown.go:507-588 | while it is planned or in progress its jobs are set one by one, those to put in, then the schedules, then those to take out, up to the first refused; what was done stays |
| `ShutdownRules.NumbersExactly` | internal/store/gaps_cmms.go:24-34 | the next number is one more than the greatest of the orders there, or 2281 when there is none |
| `ShutdownRules.RefusesOthers` | internal/store/shutdown.go:400-743 | a shutdown that is not there cannot be changed, started, finished, called off or given jobs, nor can one that is over be given jobs |
| `ShutdownRules.DropsPlantExactly` | internal/store/register_delete.go:118-158 | a factory is deleted if and only if it is there, has no machine and nothing else holds it; exactly its shutdowns go with it |
| `ShutdownRules.DropsExactly` | internal/store/register_delete.go:204-226 | an order is deleted if and only if nothing holds it; a machine, if and only if nothing holds it and no stop and no order names it |
| `ShutdownHeaders.ResolvedMachines` | internal/store/shutdown.go:258-283 | the machines are registered at the plant, not retired, each once |
| `ShutdownHeaders.EveryTagIsNamed` | internal/store/shutdown.go:258-283 | every tag that is not blank names one of them, up to case |
| `ShutdownHeaders.NoMachineExactlyWhenBlank` | internal/store/shutdown.go:258-283 | the check ends with no machine if and only if every tag is blank |
| `ShutdownHeaders.PlannedOnNothing` | internal/store/shutdown.go:338-388 | a shutdown is planned on no machine if and only if its tags, of which there must be some, are all blank |
| `ShutdownHeaders.AmendedToNothing` | internal/store/shutdown.go:400-493 | a change leaves none if and only if the tags that then hold are all blank |
| `ShutdownHeaders.ShutdownOfNothingHappens` | internal/store/shutdown.go:258-283 | a reachable state with a planned shutdown of no machine and no stop |
| `ShutdownSafety.AmendKeepsStops` | internal/store/shutdown.go:400-493 | changing window and machines keeps every header's stops, machines removed and added again included |
| `ShutdownOrders.SetJobsKeepsOrders` | internal/store/shutdown.go:507-588 | setting jobs, also when it stops half-way, keeps every live job on a machine of its shutdown |
| `ShutdownHeaders.RunKeepsHeaders` | internal/store/shutdown.go:258-743 | codes stay unique and machines booked once over every run whatever, edits and deletions of everything included |
| `ShutdownSafety.RunKeepsStops` | internal/store/shutdown.go:338-743 | every header's stops stay as it says over every run in which each step meets the exact condition of its kind: stops moved or recorded by hand, codes reused; deletions of stops are free |
| `ShutdownSafety.WithoutDeletedFactories` | internal/store/shutdown.go:305-316 | as long as no factory is deleted and no stop recorded under a code not in use, every new shutdown gets a code no stop carries, so such a run is one of those of RunKeepsStops |
| `ShutdownSafety.PlannedStopsFollowExactlyWhenUnused` | internal/store/shutdown.go:318-388 | the stops planned for a new shutdown are as its header says if and only if no standing stop carried its code |
| `ShutdownSafety.HandKeepsStopsExactly` | internal/store/cmms.go:310-436 | starting, dropping or ending a stop by hand keeps every header's stops as it says if and only if no shutdown has its code or it was closed |
| `ShutdownSafety.RecordingKeepsStopsExactly` | internal/store/cmms.go:219-304 | recording a stop by hand keeps them so if and only if it fits: under no code in use, or on a machine of that shutdown which has no stop standing, in the state and window of its phase |
| `ShutdownSafety.ReusedCode` | internal/store/register_delete.go:118-158 | a run that deletes and adds a factory again ends with two standing stops of one shutdown on one machine |
| `ShutdownOrders.RunKeepsOrders` | internal/store/shutdown.go:338-743 | live jobs stay on machines of their shutdowns over every run that reopens no order its shutdown no longer takes and deletes no factory under live jobs |
| `ShutdownOrders.DropPlantKeepsOrdersExactly` | internal/store/register_delete.go:118-158 | deleting a factory keeps that if and only if no live job is in one of its shutdowns |
| `ShutdownOrders.ReopeningKeepsOrdersExactly` | internal/store/gaps_cmms.go:75-88 | reopening an order keeps it if and only if the order is in no shutdown, or in one not called off that has its machine |
| `ShutdownOrders.ReopenedInCalledOff` | internal/store/gaps_cmms.go:75-88 | a run that ends with a live job in a shutdown that was called off |
| `ShutdownSafety.AmendMovesExactly` | internal/store/shutdown.go:454-478 | a change drops exactly the standing stops on machines no longer listed, moves the other standing ones to the new window, and leaves every other stop as it was |
| `ShutdownOrders.AmendReleasesExactly` | internal/store/shutdown.go:479-491 | it takes out exactly the live jobs on machines no longer listed |
| `ShutdownOrders.CalledOffHoldsNoLiveJob` | internal/store/shutdown.go:702-743 | in every state the runs of RunKeepsOrders reach a shutdown that was called off holds no live job |
| `ShutdownSafety.HeaderFixesTheStops` | internal/store/shutdown.go:318-388 | in every state the runs of RunKeepsStops reach each standing stop of a shutdown is on one of its machines, scheduled for exactly the window while planned, open while in progress, closed once completed; one called off has none; and each machine has exactly one if and only if its latest was not deleted, otherwise none |
| `ShutdownHeaders.NoMachineTwice` | internal/store/shutdown.go:258-303 | in every state any run reaches codes are unique, and two active shutdowns of a plant sharing a machine do not overlap |
| `ShutdownPlants.NextPlanBooksTwiceExactly` | internal/store/shutdown.go:258-303 | across factories: the next plan can put a machine into two overlapping active shutdowns if and only if a machine of an active one is in use at another factory |
| `ShutdownPlants.EditKeepsHomeExactly` | internal/store/plants.go:528-541 | editing a machine keeps the machines of active shutdowns at their factories if and only if it is not moved out of one |
| `ShutdownPlants.NoMachineTwiceAnywhere` | internal/store/shutdown.go:258-303 | over every run whose edits all meet that condition no machine is in two overlapping active shutdowns, of whatever factories |
| `ShutdownPlants.MovedAndBookedTwice` | internal/store/plants.go:528-541 | a run that moves a machine and ends with it in two overlapping shutdowns |
| `ShutdownOrders.JobsFitTheirShutdown` | internal/store/shutdown.go:479-491 | in every state the runs of RunKeepsOrders reach a live tagged job is on a current machine of an existing shutdown that was not called off |
| `ShutdownJobs.NumbersAreUnique` | internal/store/gaps_cmms.go:24-34 | in every state any run reaches no two orders have one number, although numbers of deleted ones are given again |
| `ShutdownJobs.JobsTouchOnlyNamed` | internal/store/shutdown.go:507-588 | setting jobs, also when it stops half-way, touches only shutdown and planned day, and only of orders named by number or schedule |
| `ShutdownJobs.JobsEndAsAsked` | internal/store/shutdown.go:507-588 | when it goes through, jobs to remove are out, and jobs to add, not also removed, are in and planned no earlier than the shutdown |
| `ShutdownJobs.SchedulesEndAsAsked` | internal/store/shutdown.go:507-588 | when it goes through, every schedule named has a live order that is in and planned no earlier than the shutdown, or out if also removed |
| `ShutdownJobs.RaisedOnlyForSchedules` | internal/store/shutdown.go:507-588 | also when it stops half-way, orders are raised only for schedules named that had no live one |
| `Checklist.ChecklistSteps` | internal/store/maintenance_phase2.go:362-381 | the traversal returns the names of exactly the named items |
| `Checklist.ChecklistLimits` | internal/store/installation.go:127-152 | the other traversal returns the limits of exactly the named items |
| `Checklist.LimitsHoldExactly` | internal/store/installation.go:85-123 | some reading is inside the limits if and only if none is not-a-number or infinite at the wrong end and they are not the wrong way round |
| `Checklist.StepsAndLimitsLineUp` | internal/store/installation.go:125-152 | the two lists have one length, and step i and limits i come from one item |
| `Checklist.EveryNamedItemIsAStep` | internal/store/maintenance_phase2.go:362-381 | no named item is left out |
| `Checklist.StepsAreNamed` | internal/store/maintenance_phase2.go:362-381 | no step is blank or has white space around it, whichever key of the item named it |
| `Checklist.StepsExactly` | internal/store/maintenance_phase2.go:362-381 | the steps are, in order, the names of exactly the items that are strings with text or have one under step, text, title or name, the first of these that does; the limits beside them are the min, max and unit of the same item |
| `Commissioning.ActorName` | internal/middleware/audit.go:12-25 | whoever acts has a name |
| `Commissioning.RecordReadsBack` | internal/store/maintenance_phase2.go:383-464 | a step marked shows its last mark; every other step shows exactly what it did |
| `Commissioning.RecordingComposes` | internal/store/maintenance_phase2.go:400-464 | marking in two requests, by two people at two times, shows for each step what one request by its last marker would |
| `CommissioningStore.FailedOrOpen` | internal/store/installation.go:192-205 | the counts of unmarked and of failed steps |
| `CommissioningStore.WorkOrder.EntryFor` | internal/store/maintenance_phase2.go:414-446 | an entry for exactly the acceptable marks, otherwise a bad request |
| `CommissioningStore.WorkOrder.MergeMarks` | internal/store/maintenance_phase2.go:411-448 | merging mark by mark leaves the last mark of each step, or what was there; it fails exactly when some mark is not acceptable |
| `CommissioningStore.WorkOrder.RecordChecklist` | internal/store/maintenance_phase2.go:400-464 | the whole row after marking, and no change when refused |
| `CommissioningStore.WorkOrder.WithdrawAcceptance` | internal/store/installation.go:263-273 | both acceptances go, the installer's signature stays, and it says whether anything changed |
| `CommissioningStore.WorkOrder.SignHandover` | internal/store/installation.go:211-259 | the whole row after signing, or why it was refused |
| `CommissioningStore.WorkOrder.CheckCommissioning` | internal/store/installation.go:278-303 | the list of what is missing, in order |
| `CommissioningStore.WorkOrder.CheckCompletion` | internal/store/maintenance_phase2.go:756-790 | refuses unless approval, tests or steps, signatures and failure code are all there |
| `CommissioningStore.WorkOrder.PatchStatus` | internal/store/gaps_cmms.go:75-88 | a status set directly meets the gates of starting and completing |
| `CommissioningStore.WorkOrder.CompleteWorkOrder` | internal/store/cmms.go:124-142 | completes exactly when nothing is missing |
| `CommissioningStore.WorkOrder.Signoff` | internal/store/maintenance_phase2.go:502-538 | technician before completion, supervisor after, the supervisor another person; conditions and signature are written out in CommissioningRules.SignsOffExactly |
| `CommissioningStore.WorkOrder.DecideApproval` | internal/store/maintenance_phase2.go:710-738 | only pending work, only by another person; who decided, when and why is kept, and a rejection needs a reason and cancels; written out in CommissioningRules.DecidesExactly |
| `CommissioningSafety.RunKeepsInv` | internal/store/installation.go:192-303 | the commissioning invariant survives every run of marking, signing, deciding, starting, completing and reopening |
| `CommissioningSafety.AcceptanceStandsOnGoodTests` | internal/store/installation.go:211-273 | while engineering's or production's signature stands there is a test, and every test is passed within its limits or not applicable |
| `CommissioningSafety.ContradictoryTestIsSetAside` | internal/store/installation.go:153-170 | while a job is accepted, a test whose limits no reading meets is marked not applicable |
| `CommissioningSafety.ThreeDifferentPeople` | internal/store/installation.go:242-254 | the signers of a handover are pairwise different up to case |
| `CommissioningSafety.CompletedMeansAccepted` | internal/store/installation.go:275-303 | a completed commissioning job has all three signatures and only good tests |
| `CommissioningRules.CompletedIsFulfilled` | internal/store/maintenance_phase2.go:751-799 | in every reachable state a completed order was approved if it had to be; ordinary work with steps has each marked pass, fail or na and the technician's signature; a commissioning job has each test passed or na and three signatures; breakdown and corrective work has its failure code |
| `CommissioningRules.StatusesExactly` | internal/store/maintenance_phase2.go:740-799 | in every reachable state an order is completed when asked if and only if it has all that, and started if and only if it needs no approval or has it; any other status is simply set |
| `CommissioningRules.RecordsExactly` | internal/store/maintenance_phase2.go:400-464 | marks are recorded if and only if the order is open, has steps, and each mark names a step and a result, says what failed, and does not pass a step outside its limits; then the last mark of each step is on record, in step order, and a commissioning job has lost both acceptances |
| `CommissioningRules.SignsExactly` | internal/store/installation.go:207-259 | a handover is signed if and only if the job is a commissioning that is open, the date is allowed, the signer has no other signature on it, and, to accept, every test is marked pass or na; the row then has the signature of the person on the paper, on the day written there, or of the one signed in, now, and is otherwise as it was |
| `CommissioningRules.NoOtherParty` | internal/store/installation.go:211-215 | nobody else than the three parties signs |
| `CommissioningSafety.AddedItemKeepsExactly` | internal/store/gaps_cmms.go:61-66 | an item added to the checklist by PATCH keeps all this if and only if it names no step, or nobody accepted yet and the order is not completed |
| `CommissioningSafety.RetestNeedsNewAcceptance` | internal/store/maintenance_phase2.go:455-462 | after any recording the job is completed only if both acceptors sign again |
| `CommissioningSafety.CostlyWorkIsApprovedByAnother` | internal/store/maintenance_phase2.go:680-749 | work at or above the threshold is in progress or completed only once someone other than its requester approved it |
| `CommissioningSafety.RejectedWorkStops` | internal/store/maintenance_phase2.go:710-749 | rejected work is never started or completed by any later run |
| `CommissioningSafety.DecisionBinds` | internal/store/maintenance_phase2.go:710-749 | approved work may be started at once; rejected work never is, whatever follows |
| `CommissioningSafety.NobodyChecksOwnWork` | internal/store/maintenance_phase2.go:499-538 | without reopening, technician and supervisor differ over every run |
| `CommissioningSafety.CheckedExactlyUnlessSelfSigned` | internal/store/maintenance_phase2.go:499-538 | over every run, at every point the supervisor on record is not the technician, if and only if at no step the supervisor on record signs as the technician |
| `CommissioningSafety.ReopenedWorkCanBeCheckedByItsDoer` | internal/store/gaps_cmms.go:111-114 | a run that reopens and ends with one person as both |
| `Parts.Template.TemplateParts` | internal/store/planned_parts.go:24-37 | the parts read, malformed items skipped |
| `Parts.Template.NormalizeTemplateParts` | internal/store/planned_parts.go:42-80 | the list as it is then stored, and no change on failure |
| `Parts.Gather` | internal/store/planned_parts.go:55-73 | quantities are the totals by code, codes in first-seen order; it fails exactly when an item is unacceptable |
| `Parts.MergingConserves` | internal/store/planned_parts.go:42-80 | the total of every upper-cased code is unchanged, for any floating-point addition that does not round what is added to zero |
| `Parts.NotANumberSpoilsExactly` | internal/store/planned_parts.go:60-73 | of an accepted list a total is not a number if and only if one of its quantities is none |
| `Parts.EachCodeOnce` | internal/store/planned_parts.go:42-80 | each code appears once, trimmed |
| `Parts.FirstSeenOrder` | internal/store/planned_parts.go:42-80 | in the order and the spelling in which it was first asked for |
| `Parts.NormalizedReadsBack` | internal/store/planned_parts.go:24-80 | reading back gives exactly the stored list |
| `Parts.RenormalisingIsHarmless` | internal/store/planned_parts.go:42-80 | storing again changes nothing if and only if every merged total is within the limit of one item; otherwise it is refused |
| `Parts.TwiceTheLimit` | internal/store/planned_parts.go:42-80 | a list accepted once and refused the second time |
| `Parts.StoresExactly` | internal/store/planned_parts.go:55-80 | one item more is accepted if and only if its code has 1 to 64 characters and its quantity is neither 0 or less nor above 100,000; it is added to the row of its code, case aside, or is a row of its own at the end |
| `Parts.ReadsExactly` | internal/store/planned_parts.go:24-37 | reading skips exactly the items without a code or a quantity above 0, not-a-number aside |
| `Shifts.Plants.ApplyProductionShifts` | internal/store/production_shifts.go:78-105 | exactly the rows of the plant, case aside, that hold nothing or what reads, rounded to microseconds, no later than the snapshot does, cut off to them, take it |
| `Shifts.DeliversExactly` | internal/store/production_shifts.go:78-105 | after any deliveries one more is held if and only if that comparison says so |
| `Shifts.EndsWithTheNewest` | internal/store/production_shifts.go:73-105 | if one snapshot sent beats every other, the plant ends with it in any order of delivery, and it is the newest |
| `Shifts.DeliveriesConvergeExactly` | internal/store/production_shifts.go:73-105 | all deliveries of the same snapshots, in any order and repetition, end alike if and only if there are none or one beats every other |
| `Shifts.ToldApartConverges` | internal/store/production_shifts.go:84-93 | one does when the comparison tells any two of them apart |
| `Shifts.TwoDeliveriesExactly` | internal/store/production_shifts.go:84-93 | two snapshots end alike in both orders if and only if they are equal or exactly one of them replaces the other |
| `Shifts.ShiftsInForceOn` | internal/store/production_shifts.go:148-169 | one row a case-folded name, present exactly when an active row covers the day, the version of greatest effective date, first of equals, sorted by start time |
| `Shifts.InForceExactly` | internal/store/production_shifts.go:143-169 | a row is listed if and only if it is active, the day is within its version, first and last day included, and of the rows of its name that are it took effect last, and first in the list of those |
| `Shifts.InForceIsDetermined` | internal/store/production_shifts.go:143-169 | that description fixes the rows, but for the order of shifts that start together |

## Left out

- ShutdownSafety.HeaderFixesTheStops: not of every run, for it fails after a stop is moved by hand, recorded where it does not fit, or planned under the code of a lost shutdown; its runs are those whose every step meets the exact condition proved for its kind.
- ShutdownOrders.JobsFitTheirShutdown: not of every run, for it fails after an order is reopened that its shutdown no longer takes, or a factory deleted under live jobs; each is proved to be exactly when.
- Every shutdown run: raw PATCH does not write the tag of an order or the attrs of a plant, and two shutdown requests do not interleave.
- Scope of the commissioning runs: a job is raised neither started nor completed, with nothing marked or signed, and PATCH writes neither the checklist, but for the item of AddedItemKeepsExactly, nor the reserved attrs; its status is patched freely.
- PMSync.NeverTwoLiveOrders: not of every run, for it fails when an insert outside the lock or a reopened order lands late, which is proved to be exactly when; the lock is not lost while its process lives.
- Agreement signatures of shutdowns, their detail view, job counts, leads, notes, reasons and every message text.
- The projection of production's KPIs (internal/store/production_kpis.go): an upsert of whole snapshots, which would add easy members only.
- What follows completion: the fault report closed, the schedule advanced by the order's own transaction, the commissioning job an installation raises, notifications.
- HTTP, SQL text, driver failures and JSON encoding; an operation reads the clock once.
- ShutdownStore.Store.DeletePlant: shop floors and other history that hold a factory, an order or a machine are one flag of the request; the constraint that keeps a referenced schedule is left out.
- DowntimeSafety.ZeroStartsExactly: no clock reads the zero time, the start of the year 1.
- DowntimeSafety.RunKeepsRecords: events are counted on each record, not kept as an ordered log; the outbox is modelled on its own.
- ShutdownStore.Store.UpdateShutdown: stops are visited in table order rather than by asset, and header and stop times have one precision, where the database keeps microseconds.
- ShutdownModel.NextNumIsFresh: numbers are unbounded, where the database casts to a 32-bit integer, and it speaks of one reader at a time.
- PMDates.NextDueAfter: times are UTC instants, so a day is 24 hours; daylight saving in another location is not modelled.
- PMDates.ProjectSchedule: the days an hours interval lasts are a real number, so quotient and product do not round; the conversion to 64 bits is modelled.
- Backoff.RetryDelayBounds: a float beyond 2^63 becomes the least 64-bit integer, as on amd64, here and for hours intervals; the language leaves it to the platform.
- Parts.MergingConserves: addition is any that the laws of Floats.Lawful hold of, not one fixed rounding; that JSON cannot encode a quantity that is no number is not modelled.
- Checklist.ChecklistLimits: a string carries the number scanned from it; how it is scanned is not modelled.
- ShutdownPlants.NoMachineTwiceAnywhere: not of every run, for it fails after a machine is moved out of the factory of an active shutdown, which is proved to be exactly when the next plan can break it.
- Forecast.MaintenanceForecast: one schedule; the listing of schedules, items and gaps is left out.
- Commissioning.RecordReadsBack: stored results are entries with a whole index; foreign items in the list, which reading skips, are not modelled.
- Shifts.ShiftsInForceOn: the library sort is an insertion in arbitrary order of arrival; the full listing and time zones are left out.
- Trimming and case follow ASCII, and a character is a byte.
