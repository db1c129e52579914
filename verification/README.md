# Verified core of the trading backend

A Dafny 4.11 model of the self-contained cores of the trading backend, with proofs of what
they promise. `dafny verify dfyconfig.toml` checks everything.

| files | what they model |
|---|---|
| `Common.dfy` | Optional values, results and small facts shared by the others |
| `CivilDates.dfy`, `Easter.dfy`, `MarketHolidays.dfy`, `HolidaysByDate.dfy`, `MarketCalendar.dfy` | Dates as day numbers; the closed-form Easter against the Gregorian epact rule; the NYSE holidays and early closes of every year, also by date and weekday alone; the loops for the next and previous trading day and for an interval; the day of the monthly report |
| `SchedulerIdempotency.dfy`, `TradingScheduler.dfy` | The scheduler's daily loop over crashes, restarts, failing handlers and a faulty key store, as a state machine over its steps |
| `RebalancingLock.dfy` | The rebalancing endpoint's check, lock, background task and releases, with requests interleaved step by step |
| `CircuitBreaker.dfy` | The three-state breaker, with calls that report back late and in any state |
| `MapSums.dfy`, `PortfolioLedger.dfy`, `Reconciliation.dfy`, `TradingGuard.dfy` | Ledger, reconciliation and guard, each by itself and composed: a drift from the accepted fills stops every later order |
| `TokenRevocation.dfy`, `Sessions.dfy` | Logins, refreshes, role changes and logouts over whole runs |
| `PeriodicReport.dfy`, `WeightOptimizer.dfy`, `EmergencyMonitor.dfy` | Maximum drawdown, strategy weights, loss thresholds and defensive sales, over exact rationals |
| `PipelineStateMachine.dfy`, `GateRegistry.dfy`, `Pipeline.dfy` | The pipeline's state machine with its history, the gate registry, and the analysis run with its fallbacks |
| `GracefulShutdown.dfy` | Draining, cancelling and stopping, with other tasks' calls at every wait |

Objects that the program updates in place are classes whose methods state their new state by
a function of the old one; the lemmas are about those functions and about runs of them.
Anything decided outside (clocks, faults, other tasks, gates, handlers) is a parameter or a
step of its own, so that the theorems hold for all of it.

Where the code and its comments disagree, the model follows the code. Findings that the proofs
brought up, each shown by a lemma:

- A New Year's Day on a Saturday is listed as observed on 31 December but looked up in the
  wrong year, so that day counts as a trading day; all other listed holidays are closed days
  (`ListedHolidayIsClosed`).
- The monthly report compares month numbers alone and so misses a last trading day before a
  closure of about a year; otherwise it is right (`MonthlyReportOnLastTradingDay`,
  `ClosedYearMissesReport`).
- Early closes are trading days except on a Friday before a Saturday holiday
  (`EarlyClosesOnTradingDays`).
- The whole-second truncation lets a key end up to a second before midnight; a restart in
  that second repeats an event (`KeyCoversRestOfDay`, `RestartInLastSecondRepeats`; exactly
  when a restart repeats one: `RestartRepeatsIffKeyMissing`).
- The exception handler deletes the lock whoever holds it, a second time after an exception
  in a holder, and after one before the lock was taken: from any state with holders in
  time, one request in that handler is enough for two to hold the lock (`RaisingBreaksExclusion`,
  `ExclusionIffNoneRaised`).
- The half-open limit counts successes and not admissions: its rejection never fires, and
  concurrent probes are not capped (`HalfOpenRejectsIffNoProbes`, `ProbesAreNotCapped`). A
  decorated call that is cancelled is never counted (`CallsConserved`).
- The 40% cap does not survive normalising in general (`CapIsNotKept`; exactly when it does:
  `LimitsSurviveNormalizing`).
- A single-position portfolio triggers at a loss of one eighth
  (`SinglePositionTriggersAtOneEighth`).
- Positions without cost can bring the weighted return below the loss percentage, and values
  below zero can make the drawdown by running peak miss the worst pair; the exact conditions
  are `WeightedReturnAboveLossIff` and `WorstPairIff`.
- A machine started in TRADING or amid the chain of checks can trade without all of them
  (`AlwaysCheckedFrom`).
- Switching a user off does not stop the user's refresh tokens (`SwitchedOffStillRefreshes`).
- Another process's commit between a fill's own commit and its cache write leaves the cache
  behind (`AgreesIffNetUntouched`).
- An update naming an unknown role is answered as failed, yet its new e-mail address and
  activity stay, since the session is committed at the end of the request
  (`Sessions.UserRecord.Update`).
- A custom fallback other than IDLE or HALTED is not reached (`FallbackReached`), and the
  dynamic ensemble's first transition is refused (`DynamicEnsembleCannotStart`).
- A pending order whose task answers its cancellation with an exception of its own aborts the
  shutdown for good in DRAINING (`Shutdown`).

## Model

| member | source | states |
|---|---|---|
| `CivilDates.FromOrdinalOfOrdinal` | backend/core/market_calendar.py:213-233 | Day numbers and valid year, month, day triples are in one-to-one correspondence (this direction: encoding and decoding a valid date gives it back), for every year from 1 on |
| `CivilDates.OrdinalOfFromOrdinal` | backend/core/market_calendar.py:213-233 | The other direction: every day number decodes to a valid date that encodes to it |
| `Easter.EasterIsFirstSundayAfterFullMoon` | backend/core/market_calendar.py:213-233 | In every year the closed form decodes to a valid date from 22 March to 25 April that is the first Sunday strictly after the Paschal full moon, the moon being defined by golden number, solar and lunar equation |
| `Easter.EasterSundayIsUnique` | backend/core/market_calendar.py:213-233 | A day satisfies the rule if and only if it is the computed one |
| `Easter.MoonShiftIsEpact` | backend/core/market_calendar.py:218-225 | The closed form's h is the distance of the epact's full moon from 21 March, a day more when h is 29, or 28 with a above 10 |
| `MarketHolidays.NthWeekdayIsNth` | backend/core/market_calendar.py:104-118 | The result is the one day of that weekday in the n-th week of the month |
| `MarketHolidays.LastWeekdayIsLast` | backend/core/market_calendar.py:121-129 | The result is the one day of that weekday in the month's last seven days, December included |
| `MarketHolidays.ObservedIsNearestWeekday` | backend/core/market_calendar.py:132-143 | The observed day is a weekday, strictly nearer to the holiday than any other weekday |
| `MarketHolidays.GoodFridayIsFriday` | backend/core/market_calendar.py:179-181 | Good Friday is a Friday from 20 March to 23 April, two days before Easter, in every year |
| `MarketHolidays.HolidayInWindow` | backend/core/market_calendar.py:146-183 | Each of the ten holidays is a weekday within a fixed window of days of the year |
| `HolidaysByDate.NyseHolidaysByDate` | backend/core/market_calendar.py:146-183 | A day is a holiday of the calendar if and only if its month, day and weekday are among nine listed kinds (such as a Monday from 1 to 7 September), or Easter Sunday by the full-moon rule is two days later |
| `MarketHolidays.HolidaysAWeekApart` | backend/core/market_calendar.py:146-183 | Any two holidays, looked up by their own year, are at least seven days apart, also across the turn of the year |
| `MarketHolidays.TenHolidays` | backend/core/market_calendar.py:146-183 | The ten holidays of a year are at least twelve days apart, so the set has ten elements |
| `MarketHolidays.ListedHolidayIsClosed` | backend/core/market_calendar.py:146-183 | In every year each of the ten listed holidays is a closed day of the calendar, if and only if it is not the New Year's Day of a year beginning on a Saturday |
| `MarketHolidays.NewYear2022IsSaturday` | backend/core/market_calendar.py:146-183 | 2022 is a year of the exception |
| `MarketHolidays.LastDayIsOpen` | backend/core/market_calendar.py:271-291 | 31 December is never a holiday of the calendar |
| `MarketHolidays.EarlyClosesOnTradingDays` | backend/core/market_calendar.py:186-210 | An early close lies in its year on a weekday, and is a holiday if and only if it is a Friday 3 July or 24 December |
| `HolidaysByDate.NyseEarlyClosesByDate` | backend/core/market_calendar.py:186-210 | A day closes early if and only if it is 3 July or 24 December on a weekday, or a Friday from 23 to 29 November |
| `MarketHolidays.DstCovers34Weeks` | backend/core/market_calendar.py:404-412 | The days of a year with daylight saving are one stretch of exactly 238 days from a Sunday on, in every year |
| `MarketCalendars.NyseOpensWithinFourDays` | backend/core/market_calendar.py:271-291 | One of any four consecutive days is an NYSE trading day |
| `MarketCalendars.FiniteHolidaysLeaveAWeekday` | backend/core/market_calendar.py:65-98 | Finitely many holidays leave an open weekday within 7 * (their number / 5 + 1) days: the loop's termination for any such list |
| `MarketCalendars.MarketCalendar.IsTradingDay` | backend/core/market_calendar.py:271-291 | Weekday and not a holiday of the market, whatever the cache holds |
| `MarketCalendars.OpenByDate` | backend/core/market_calendar.py:271-291 | What that answer is by date: on the NYSE a weekday of none of those kinds, in Korea a weekday whose date is not on the list |
| `MarketCalendars.MarketCalendar.GetNyseHolidaysCached` | backend/core/market_calendar.py:241-245 | The cache only ever holds the computed sets |
| `MarketCalendars.MarketCalendar.NextTradingDay` | backend/core/market_calendar.py:311-316 | The loop ends, at the least later trading day, within the market's reach |
| `MarketCalendars.NextIsLeast` | backend/core/market_calendar.py:311-316 | A later day is the next trading day if and only if it is open and no day in between is |
| `MarketCalendars.MarketCalendar.PrevTradingDay` | backend/core/market_calendar.py:318-323 | The loop ends at the greatest earlier trading day, or runs off the first date if there is none |
| `MarketCalendars.NextAndPrevAreInverse` | backend/core/market_calendar.py:311-323 | On trading days, next and previous undo each other |
| `MarketCalendars.MarketCalendar.TradingDaysBetween` | backend/core/market_calendar.py:325-348 | The loop's list is the list of the three lemmas below |
| `MarketCalendars.BetweenIsAscending` | backend/core/market_calendar.py:325-348 | Exactly the trading days of the interval, strictly ascending |
| `MarketCalendars.BetweenIsIteratedNext` | backend/core/market_calendar.py:325-348 | The list equals stepping through the interval with the next trading day |
| `MarketCalendars.BetweenSplits` | backend/core/market_calendar.py:350-357 | Lists and counts add up over a split interval |
| `MarketCalendars.MarketCalendar.ShouldGenerateMonthly` | backend/core/periodic_reporter.py:394-405 | The reporter's test is the predicate of the next two rows |
| `MarketCalendars.MonthlyReportOnLastTradingDay` | backend/core/periodic_reporter.py:394-405 | For any market and trading day: the report's test agrees with being the month's last trading day if and only if a change of year to the next trading day is a change of month number too |
| `MarketCalendars.MonthlyReportOncePerMonth` | backend/core/periodic_reporter.py:394-405 | In any month with a trading day the report is due on no day but the last trading day, and on that one if and only if the turn from it shows |
| `MarketCalendars.ShortClosureShows` | backend/core/periodic_reporter.py:394-405 | It shows whenever the next trading day is at most 300 days away |
| `MarketCalendars.YearLongClosureMissesReport` | backend/core/periodic_reporter.py:394-405 | Closed from a weekday to one of the same month number in a later year, the market's last trading day before gets no report |
| `MarketCalendars.ClosedYearMissesReport` | backend/core/periodic_reporter.py:394-405 | For one, 2 January of a common year such as 2025, with a list closing the rest of the year |
| `MarketCalendars.SecondOfJanuary2025IsWeekday` | backend/core/periodic_reporter.py:394-405 | 2025 is such a year |
| `MarketCalendars.ShippedMarketsReport` | backend/core/periodic_reporter.py:394-405 | With the shipped Korean list, and on the NYSE, the report is due exactly on the last trading day of each month, for all days |
| `SchedulerIdempotency.KeyLifetime` | backend/core/scheduler_idempotency.py:58-71 | A key lasts to within a second of midnight, and beyond it only if written in the last minute |
| `SchedulerIdempotency.KeyCoversRestOfDay` | backend/core/scheduler_idempotency.py:58-71 | A key covers the whole rest of its day if and only if whole seconds are left or less than a minute is |
| `SchedulerIdempotency.LoadFindsLiveKeys` | backend/core/scheduler_idempotency.py:127-163 | The events loaded are exactly those whose key is live |
| `TradingScheduling.FirstUnexecutedIsFirst` | backend/core/trading_scheduler.py:525-546 | The event found is the first in schedule order that is not executed; none is found only if all are executed |
| `TradingScheduling.TradingScheduler.FindNextEvent` | backend/core/trading_scheduler.py:525-546 | The loop finds that event, at any time of day |
| `TradingScheduling.TradingScheduler.Restore` | backend/core/trading_scheduler.py:289-304 | Loaded events become today's executed ones; an empty load leaves the memory |
| `TradingScheduling.TradingScheduler.BeginDay` | backend/core/trading_scheduler.py:459-468 | A new trading date starts empty and is counted once |
| `TradingScheduling.TradingScheduler.RecordSkipped` | backend/core/trading_scheduler.py:548-580 | An event found executed is remembered once |
| `TradingScheduling.TradingScheduler.RecordCompleted` | backend/core/trading_scheduler.py:600-637 | A completed event is appended |
| `TradingScheduling.HandlersRunInOrderAndNotEarly` | backend/core/trading_scheduler.py:433-523 | In any run, a running handler's event is the first unexecuted one of the loop's date, that date is a trading day, and the scheduled time has come |
| `TradingScheduling.ExecutedWasCompleted` | backend/core/trading_scheduler.py:548-637 | In any run, with any faults, what the loop takes for executed was completed: by this process on the loop's date, or by some process whose key of that date or later says so; a failed handler does not count |
| `TradingScheduling.FailedIsChosenAgain` | backend/core/trading_scheduler.py:622-637 | A handler's exception changes neither memory nor keys, and the same event is chosen at the next turn of that date |
| `TradingScheduling.DueEventIsCarriedOut` | backend/core/trading_scheduler.py:548-637 | The next event, once due, can be carried out with its key live afterwards: skipped if the key was found, else completed once |
| `TradingScheduling.UnansweredCheckRuns` | backend/core/trading_scheduler.py:562-580 | A final check that the store does not answer lets the event run |
| `TradingScheduling.PausedCompletesNothing` | backend/core/trading_scheduler.py:433-475 | While paused at its top the loop completes and writes nothing |
| `TradingScheduling.OncePerDateAndProcess` | backend/core/trading_scheduler.py:433-637 | In any run, with any faults, one process completes an event at most once per date |
| `TradingScheduling.OncePerDateByLoads` | backend/core/trading_scheduler.py:289-304 | With keys written and read at restarts, outside a day's last second, an event completes at most once per date over all processes, even if every final check fails |
| `TradingScheduling.OncePerDateByChecks` | backend/core/trading_scheduler.py:548-637 | The same with keys written and final checks answered on the loop's date, even if every restart fails to load |
| `TradingScheduling.RestartRepeatsIffKeyMissing` | backend/core/trading_scheduler.py:289-304 | With a faultless store and no further crash, from any stopped state on a trading day, the process started next can repeat an event, over all that it may go on to do, if and only if some event completed that day has lost its key |
| `TradingScheduling.StartAfterRunRepeatsIffKeyMissing` | backend/core/trading_scheduler.py:433-637 | The same after any run at all of a schedule in order of time, whatever faults and crashes it had, on any day |
| `TradingScheduling.RestartInLastSecondRepeats` | backend/core/scheduler_idempotency.py:58-71 | An instance from the start, with a faultless store throughout: a restart in the last second completes an event twice |
| `RebalancingLock.MutualExclusion` | backend/api/routes/system.py:319-350 | In every interleaving without exceptions where holders finish within the time to live, at most one request lies between acquiring and releasing |
| `RebalancingLock.FreeLockIsGranted` | backend/api/routes/system.py:284-346 | With nobody raising, holders in time and deletes carried out: in any run a request that tries the lock gets it if and only if nobody holds it |
| `RebalancingLock.LeftLockRunsOut` | backend/api/routes/system.py:43-45 | After any run, whatever went wrong, 300 seconds later the lock is granted |
| `RebalancingLock.RequestGoesThrough` | backend/api/routes/system.py:249-290 | From any state with the lock free and the day not marked an unforced request can run, marks the day and leaves the lock free |
| `RebalancingLock.SecondRunCheckedBeforeFirstMark` | backend/api/routes/system.py:249-290 | In every interleaving, late holders and exceptions included: of two requests, the check of an unforced one does not come after the other's mark of that day, save in the day's last second |
| `RebalancingLock.LastInstantPassesAgain` | backend/core/scheduler_idempotency.py:58-71 | That exemption is needed: for any day marked a minute or more before midnight and not at a whole second before it, a run in which an unforced check in the last instant passes |
| `RebalancingLock.ExclusionIffNoneRaised` | backend/api/routes/system.py:319-350 | From any state with holders in time and their locks in place, exclusion lasts over all continuations without further exceptions or late holders, if and only if no request is in its exception handler |
| `RebalancingLock.ExclusionIffTimely` | backend/api/routes/system.py:43-45 | From any state with the locks in place and nobody raised, a second request can join a holder at the same instant if and only if some holder is past its time to live |
| `RebalancingLock.RaisingBreaksExclusion` | backend/api/routes/system.py:486-502 | Any exception of a request, before or after acquiring, in any state with holders in time, leads on to two holders without another exception |
| `RebalancingLock.RaisingAfterAcquiring` | backend/api/routes/system.py:486-502 | Such an exception after acquiring does come up, in a run from the start |
| `RebalancingLock.RaisingBeforeAcquiring` | backend/api/routes/system.py:331-346 | And so does one of the locking call itself |
| `RebalancingLock.OverrunBreaksExclusion` | backend/api/routes/system.py:43-45 | A run from the start with a late holder, where another can join it |
| `CircuitBreaking.CircuitBreaker.RecordSuccess` | backend/core/circuit_breaker.py:121-130 | The success step of the runs below, on the object's fields |
| `CircuitBreaking.CircuitBreaker.RecordFailure` | backend/core/circuit_breaker.py:132-148 | The failure step, excluded exceptions included |
| `CircuitBreaking.CircuitBreaker.CheckState` | backend/core/circuit_breaker.py:150-161 | The admission step, with its verdict and remaining time |
| `CircuitBreaking.AdmittedIff` | backend/core/circuit_breaker.py:150-161 | In any run a call is admitted if and only if the breaker is CLOSED, or the half-open limit is at least one and it is HALF_OPEN, or OPEN and last changed the recovery timeout ago |
| `CircuitBreaking.RemainingIsExact` | backend/core/circuit_breaker.py:154-157 | The remaining time of a refusal by OPEN is exact: refused before it is over, no longer OPEN when it is |
| `CircuitBreaking.TripsAtThreshold` | backend/core/circuit_breaker.py:132-148 | In any run, CLOSED has fewer failures in a row than the threshold and is left exactly by the failure completing it, counted since the last success, all of them in CLOSED |
| `CircuitBreaking.ClosesAfterProbes` | backend/core/circuit_breaker.py:121-130 | HALF_OPEN closes exactly at the required successes since it was entered, with no failure counted since, and reopens exactly at a counted failure |
| `CircuitBreaking.OpenLasts` | backend/core/circuit_breaker.py:96-103 | While nobody asks or looks after the timeout, OPEN lasts since the same instant and admits nothing, whatever late outcomes come in |
| `CircuitBreaking.NothingAdmittedWhileRecovering` | backend/core/circuit_breaker.py:150-161 | No call is admitted within the recovery timeout of any opening |
| `CircuitBreaking.HalfOpenRejectsIffNoProbes` | backend/core/circuit_breaker.py:159-161 | The half-open rejection fires if and only if the limit is below one |
| `CircuitBreaking.CallsConserved` | backend/core/circuit_breaker.py:163-197 | Admitted calls are the total plus those in flight plus those cancelled, which are never counted; total and failures are the numbers of reports and of counted failures |
| `CircuitBreaking.ProbesAreNotCapped` | backend/core/circuit_breaker.py:159-161 | From any HALF_OPEN breaker below its limit, any number of further probes gets in at once |
| `MapSums.SumValues` | backend/core/reconciliation.py:86-87 | The total over a map's values, in any order of iteration |
| `PortfolioLedgers.PortfolioLedger.RecordFill` | backend/core/portfolio_ledger.py:100-126 | Validation, commit and cache update in both modes, for accepted, refused and failed fills; an accepted purchase raises the quantity by what is bought and a sale lowers it |
| `PortfolioLedgers.PortfolioLedger.Hydrate` | backend/core/portfolio_ledger.py:86-98 | The cache becomes the positive rows; a failing load changes nothing |
| `PortfolioLedgers.PortfolioLedger.GetPositions` | backend/core/portfolio_ledger.py:128-130 | A copy with equal quantities and no zero entry |
| `PortfolioLedgers.RowsAreNetSums` | backend/core/portfolio_ledger.py:51-66 | Whoever writes, each row is the sum of the accepted signed fills of its ticker, never negative, and absent when zero |
| `PortfolioLedgers.FillMovesItsTicker` | backend/core/portfolio_ledger.py:100-126 | In both modes an accepted BUY raises its ticker by the quantity, an accepted SELL lowers it, and nothing else moves |
| `PortfolioLedgers.BoughtMinusSold` | backend/core/portfolio_ledger.py:100-126 | Over any run each row is what it was, plus what was bought, minus what was sold, plus what others changed, folded over side and quantity of the accepted fills |
| `PortfolioLedgers.InMemoryBoughtMinusSold` | backend/core/portfolio_ledger.py:100-126 | Without a repository each position is what was bought less what was sold |
| `PortfolioLedgers.SingleWriterAgrees` | backend/core/portfolio_ledger.py:86-126 | With one writer, cache and repository are equal after every operation, failed commits included |
| `PortfolioLedgers.AgreesWhereJustWritten` | backend/core/portfolio_ledger.py:86-126 | With other writers between operations, they agree on a ticker right after an accepted fill of it, and everywhere after hydrating |
| `PortfolioLedgers.AgreesIffNetUntouched` | backend/core/portfolio_ledger.py:112-126 | With others' commits between a fill's own commit and its cache write, they agree on its ticker if and only if those leave the ticker's net as it was |
| `PortfolioLedgers.AgreesWithoutCommitsBetween` | backend/core/portfolio_ledger.py:112-126 | In particular they agree if none of those commits is of that ticker |
| `PortfolioLedgers.LoadAgreesIffNetsUntouched` | backend/core/portfolio_ledger.py:86-98 | With others' commits between load and take-over, cache and repository agree if and only if those leave all nets as they were |
| `PortfolioLedgers.AcceptedIffCovered` | backend/core/portfolio_ledger.py:100-126 | A fill is accepted if and only if it is well-formed, the store answers and the net of earlier fills covers it; otherwise nothing changes |
| `PortfolioLedgers.RefusedBecause` | backend/core/portfolio_ledger.py:100-126 | Each reason for refusing a fill with its exact condition; short positions only by a SELL of more than the net |
| `PortfolioLedgers.InMemoryRunIsOwnRepository` | backend/core/portfolio_ledger.py:100-126 | Without a repository, any run of fills does what a repository equal to the cache would do |
| `PortfolioLedgers.InMemoryIsNetSums` | backend/core/portfolio_ledger.py:100-126 | So positions are the net sums of the accepted fills there too, never negative, and absent when zero |
| `Reconciliations.ReconciliationEngine.Reconcile` | backend/core/reconciliation.py:47-98 | One right entry for exactly the tickers of either side that differ by more than 1e-6; totals are the maps' sums; matched if and only if there is no entry |
| `Reconciliations.MatchBoundsTotals` | backend/core/reconciliation.py:65-98 | Matched if and only if no ticker differs, and then the totals differ by at most 1e-6 times the number of tickers |
| `Reconciliations.ReconciliationEngine.GetMismatches` | backend/core/reconciliation.py:118-122 | The entries of the last report, or none before the first |
| `TradingGuards.ReconciliationRunner.Run` | backend/core/reconciliation_runner.py:75-122 | A failing provider changes nothing; more mismatches than the threshold throw the switch |
| `TradingGuards.ThrownByReconciliationIff` | backend/core/reconciliation_runner.py:94-122 | The switch is on afterwards if and only if it was or more tickers differ than the threshold, and nothing else of the guard changes |
| `TradingGuards.MismatchStopsOrders` | backend/core/reconciliation_runner.py:94-122 | With the default threshold one differing ticker refuses every later order until a deactivation, whatever happens in between |
| `TradingGuards.DriftFromFillsStopsOrders` | backend/core/reconciliation_runner.py:94-122 | The same from the ledger's history, from any balanced rows on and with hydrations among the fills: a broker quantity that is not the net of the accepted fills |
| `TradingGuards.TradingGuard.RecordTradeResult` | backend/core/trading_guard.py:274-301 | The trade step of the folds below, on the object's fields |
| `TradingGuards.TradingGuard.CheckPreOrder` | backend/core/trading_guard.py:335-377 | The order check of `AllowedIff`, on the object's fields |
| `TradingGuards.TradingGuard.RunAllChecks` | backend/core/trading_guard.py:382-398 | The checks in order; the first broken limit throws the switch |
| `TradingGuards.FieldsAreFolds` | backend/core/trading_guard.py:274-308 | Over any run: daily PnL is the sum since the last reset, the loss count is the trailing losing streak, the peak is the largest value ever seen |
| `TradingGuards.DrawdownIsFraction` | backend/core/trading_guard.py:160-174 | With non-negative values the drawdown stays in [0, 1] |
| `TradingGuards.AllowedIff` | backend/core/trading_guard.py:335-398 | An order passes if and only if the switch is off, the environment right, no limit broken and the order not too large; the switch is on afterwards if and only if it was or a limit is broken |
| `TradingGuards.RefusedBecause` | backend/core/trading_guard.py:335-398 | Each reason for refusing an order with its exact condition, in the order of the checks; the amount counts only for a purchase with a positive limit price |
| `TradingGuards.DeactivatingWhileBreached` | backend/core/trading_guard.py:320-325 | After deactivating with a limit still broken, the next check refuses, and latches again if and only if the environment is right |
| `TradingGuards.SwitchLatches` | backend/core/trading_guard.py:313-329 | Once thrown, the switch stays until a deactivation |
| `Sessions.UserRecord.Update` | backend/api/routes/users.py:185-216 | E-mail address, activity and role are changed as given, the role version by one exactly when the role really changes; an unknown role name fails but keeps the first two |
| `Sessions.RoleChangeEndsSessions` | backend/api/routes/auth.py:124-183 | After a role change no token minted before it, nor any refreshed from one, is ever accepted or refreshed again, even if the old role is restored |
| `Sessions.LineHasOneVersion` | backend/api/routes/auth.py:155-191 | All tokens along a line of refreshes carry one user and one role version |
| `Sessions.AccessTokensLeadNowhere` | backend/api/routes/auth.py:92-112 | In any run every token from which another descends is a refresh token |
| `Sessions.RefreshLasts` | backend/api/routes/auth.py:95-165 | After any run a token that may refresh may do so if and only if it has not expired, was not itself logged out, and its user's role was not changed |
| `Sessions.LoginRefreshLasts` | backend/api/middleware/auth.py:198-228 | The same from a login on for its refresh token; its access token never refreshes |
| `Sessions.LogoutIsFinal` | backend/api/middleware/auth.py:318-344 | A logged-out token is never accepted or refreshed again |
| `Sessions.SessionLasts` | backend/api/middleware/auth.py:458-572 | After any run an accepted token is accepted if and only if it has not expired, was not itself logged out, its user's role was not changed, not even there and back, and the user is then active and not locked |
| `Sessions.SwitchedOffStillRefreshes` | backend/api/routes/auth.py:132-183 | A switched-off user's refresh token goes on yielding pairs, refused while the user is off and accepted once the user is on again |
| `Sessions.LoginLasts` | backend/api/middleware/auth.py:166-196 | The same if-and-only-if for the access token of a login, from the login on |
| `TokenRevocation.InMemoryTokenRevocationStore.Revoke` | backend/api/middleware/token_revocation.py:78-85 | A positive time to live lists the id until then; list and expiries keep the same ids |
| `TokenRevocation.RevokedUntil` | backend/api/middleware/token_revocation.py:78-96 | A revocation refuses its id exactly up to the end of its time to live and no other id |
| `TokenRevocation.InMemoryTokenRevocationStore.IsRevoked` | backend/api/middleware/token_revocation.py:87-96 | The answer is the listing's; entries dropped on the way change no answer now or later |
| `PeriodicReports.CalculateMdd` | backend/core/periodic_reporter.py:326-341 | The one pass computes the running-peak drawdown of the next row |
| `PeriodicReports.RunningDrawdownIsWorstPair` | backend/core/periodic_reporter.py:326-341 | For non-negative values it is the worst change over all pairs of days i <= j, or 0 if there is none |
| `PeriodicReports.WorstPairIff` | backend/core/periodic_reporter.py:326-341 | For any values, it is that worst change if and only if it is no larger than the changes to days with a negative value |
| `PeriodicReports.NegativeValuesDiffer` | backend/core/periodic_reporter.py:326-341 | An instance of the failing side |
| `EmergencyMonitoring.WeightedReturnAboveLoss` | backend/core/emergency_monitor.py:460-536 | For any number of paid positions the value-weighted return is never below the cost-weighted loss percentage |
| `EmergencyMonitoring.WeightedReturnAboveLossIff` | backend/core/emergency_monitor.py:460-536 | For all positions with positive total worth V and cost C: the weighted return is not below the loss percentage if and only if (the sum of worth squared over cost, plus the worth of positions without cost) times C is at least V squared |
| `EmergencyMonitoring.FreePositionBreaksComparison` | backend/core/emergency_monitor.py:74-78 | An instance of the failing side: a position without cost beside an unchanged one |
| `EmergencyMonitoring.AlgoTriggerBand` | backend/core/emergency_monitor.py:526-554 | With several positions the trigger fires if and only if the loss is 25% or more, or 5% or more with its square at least four times the variance |
| `EmergencyMonitoring.SinglePositionTriggersAtOneEighth` | backend/core/emergency_monitor.py:539-554 | With one position it fires if and only if the loss is 12.5% or more |
| `EmergencyMonitoring.WorthlessPortfolio` | backend/core/emergency_monitor.py:475-482 | A portfolio worth nothing is judged by the user's stop loss alone |
| `EmergencyMonitoring.OneTrigger` | backend/core/emergency_monitor.py:632-637 | One trigger keeps three tenths rounded up: less from two shares on, never nothing |
| `EmergencyMonitoring.SaleIsSevenTenths` | backend/core/emergency_monitor.py:630-649 | A holding of two shares or more is sold by exactly one order, of seven tenths rounded down, all that is not kept, at the current price; smaller ones by none |
| `EmergencyMonitoring.RepeatedTriggers` | backend/core/emergency_monitor.py:632-637 | After k triggers a holding q is at least (3/10)^k q and less than 9/7 above it |
| `EmergencyMonitoring.EventuallyOneShare` | backend/core/emergency_monitor.py:632-637 | Once (3/10)^k q is at most 5/7, exactly one share is left, for good |
| `EmergencyMonitoring.GenerateDefensiveOrders` | backend/core/emergency_monitor.py:616-653 | The orders are the sorted sales of the positions |
| `EmergencyMonitoring.SortIsStable` | backend/core/emergency_monitor.py:651-653 | Sorting puts larger amounts first and keeps the order of equal ones, losing and adding none |
| `EmergencyMonitoring.SortKeepsAll` | backend/core/emergency_monitor.py:651-653 | The sorted orders are a permutation of the unsorted ones |
| `WeightOptimizing.SharpeWeights` | backend/core/weight_optimizer.py:278-292 | Weights in proportion to non-negative Sharpe ratios, equal ones if their sum is tiny |
| `WeightOptimizing.RiskAdjustedWeights` | backend/core/weight_optimizer.py:294-318 | The same for the composite score |
| `WeightOptimizing.ScoresAreNotNegative` | backend/core/weight_optimizer.py:294-318 | Scores are never negative, and positive if and only if the Sharpe ratio is |
| `WeightOptimizing.ScoreParts` | backend/core/weight_optimizer.py:278-318 | A non-negative Sharpe ratio is its own score; the composite score takes the drawdown's part off, up to 99%, and adds what the Calmar ratio multiplies |
| `WeightOptimizing.ProportionalSumsToOne` | backend/core/weight_optimizer.py:278-318 | The weights sum to 1 in both branches |
| `WeightOptimizing.ProportionalKeepsRatios` | backend/core/weight_optimizer.py:278-318 | Weights stand to each other as the scores, or are all equal if these sum to next to nothing |
| `WeightOptimizing.ApplyConstraints` | backend/core/weight_optimizer.py:373-394 | The loop applies floor, cap and sentiment cap to every strategy |
| `WeightOptimizing.ConstrainedWithinLimits` | backend/core/weight_optimizer.py:373-394 | The result is within the limits, weights within them are left alone, applying again changes nothing, and exactly negligible weights become 0 |
| `WeightOptimizing.ConstrainIsNearest` | backend/core/weight_optimizer.py:373-394 | A weight that counts goes to the nearest one between floor and its cap |
| `WeightOptimizing.Normalize` | backend/core/weight_optimizer.py:418-436 | The loop rounds each active weight's share of the active total; the equal-weight branch is dead |
| `WeightOptimizing.ShareOfTotal` | backend/core/weight_optimizer.py:418-436 | A share times the active total is the weight |
| `WeightOptimizing.NormalizedWeight` | backend/core/weight_optimizer.py:418-436 | A final weight has four digits and is within half a step of its share; inactive weights become 0 |
| `WeightOptimizing.RoundHalfEvenIsNearest` | backend/core/weight_optimizer.py:432-433 | Rounding goes to a nearest value, and of two to the even one |
| `WeightOptimizing.NormalizedSumsToOne` | backend/core/weight_optimizer.py:418-436 | Before rounding the shares sum to 1; after it the sum is off by at most n / 20000 |
| `WeightOptimizing.ShareBounds` | backend/core/weight_optimizer.py:77-81 | With n active strategies each share before rounding lies in [1/(8n-7), 8/(n+7)] |
| `WeightOptimizing.LimitsSurviveNormalizing` | backend/core/weight_optimizer.py:418-436 | A share keeps to 40% if and only if its weight is at most 40% of the constrained total, and to 5% if and only if it is at least 5% of it; at the cap this is a total of at least 1, at the floor one of at most 1 |
| `WeightOptimizing.CapIsNotKept` | backend/core/weight_optimizer.py:418-436 | Two strategies at floor and cap end at 1/9 and 8/9, the bounds of `ShareBounds` |
| `WeightOptimizing.SmoothWeights` | backend/core/weight_optimizer.py:396-416 | The loop mixes old and new over the union of keys |
| `WeightOptimizing.SmoothingIsAverage` | backend/core/weight_optimizer.py:396-416 | Each weight moves three tenths of the way, and a common sum is kept |
| `WeightOptimizing.TimeWeightedAverage` | backend/core/weight_optimizer.py:438-464 | The explicit powers of two give the same as halving what came before at every window |
| `WeightOptimizing.AverageIsPowerWeighted` | backend/core/weight_optimizer.py:438-464 | The average over n windows weights them by 1, 2, 4 and so on, which sum to 2^n - 1 |
| `WeightOptimizing.NewestWindowOutweighs` | backend/core/weight_optimizer.py:438-464 | Each key stays in its windows' range and nearer to the newest value than to either end |
| `WeightOptimizing.AverageKeepsSum` | backend/core/weight_optimizer.py:438-464 | Windows of equal sum average to that sum |
| `WeightOptimizing.Optimize` | backend/core/weight_optimizer.py:89-138 | Scores, constraints, smoothing if there are current weights, normalising |
| `WeightOptimizing.OptimizedSumsToOne` | backend/core/weight_optimizer.py:89-138 | Without smoothing, up to a million strategies end with weights that sum to 1 up to n / 20000 |
| `WeightOptimizing.SmoothedSumsToOne` | backend/core/weight_optimizer.py:89-138 | With non-negative current weights the sum is 1 up to rounding, too |
| `WeightOptimizing.CombineWindows` | backend/core/weight_optimizer.py:224-237 | The tail of the walk-forward run: average, constraints, normalising |
| `PipelineStates.PipelineStateMachine.Transition` | backend/core/state_machine.py:78-91 | Raises exactly on unlisted transitions, then changing nothing |
| `PipelineStates.TransitionsByTarget` | backend/core/state_machine.py:28-45 | The listed transitions, said by the states from which each state is entered |
| `PipelineStates.PipelineStateMachine.Halt` | backend/core/state_machine.py:93-100 | Always ends HALTED, marked as forced exactly where not listed |
| `PipelineStates.PipelineStateMachine.Reset` | backend/core/state_machine.py:102-109 | Always ends IDLE, marked as forced exactly where not listed |
| `PipelineStates.RunIsWellFormed` | backend/core/state_machine.py:28-109 | Every run's history consists of listed transitions and forced moves to IDLE or HALTED |
| `PipelineStates.WellFormedIsRun` | backend/core/state_machine.py:28-109 | Every such history is some run's |
| `PipelineStates.TradingFollowsEveryCheck` | backend/core/state_machine.py:28-45 | In a history from IDLE, RECONCILING, COMPLETED, HALTED or ERROR every TRADING entry directly follows IDLE, COLLECTING, ANALYZING, CONSTRUCTING, VALIDATING |
| `PipelineStates.AlwaysCheckedFrom` | backend/core/state_machine.py:60-62 | The initial states that guarantee this in every history are exactly those five |
| `PipelineStates.HaltedHolds` | backend/core/state_machine.py:28-45 | In any history HALTED is followed only by IDLE or HALTED |
| `PipelineStates.TradingLongAfterHalt` | backend/core/state_machine.py:28-45 | In a history from one of those states, TRADING comes at least six entries after a HALTED |
| `GateRegistries.GateRegistry.Register` | backend/core/gate_registry.py:24-29 | New gates go last, known ones are replaced in place; the order lists each id once |
| `GateRegistries.GateRegistry.Unregister` | backend/core/gate_registry.py:31-35 | Gate and place are removed together |
| `GateRegistries.RegistrationRoundTrips` | backend/core/gate_registry.py:24-35 | Unregistering undoes registering a new gate; the other order puts the gate last |
| `GateRegistries.GateRegistry.EvaluateAll` | backend/core/gate_registry.py:53-85 | The verdicts in order, cut exactly after the first BLOCK if asked to |
| `Pipelines.FallbackHandler.Handle` | backend/core/fallback_handler.py:48-75 | PASS changes nothing; BLOCK halts or resets |
| `Pipelines.FallbackReached` | backend/core/fallback_handler.py:23-75 | The configured fallback is reached if and only if it is IDLE or HALTED, as all defaults are |
| `Pipelines.DefaultHalts` | backend/core/fallback_handler.py:23-34 | By default exactly the blocks of three gates end HALTED, all others IDLE |
| `Pipelines.InvestmentDecisionPipeline.EvaluateGate` | backend/core/pipeline.py:115-143 | Unregistered gates are skipped, PASS goes on, BLOCK is handled and ends the analysis |
| `Pipelines.InvestmentDecisionPipeline.RunFullAnalysis` | backend/core/pipeline.py:148-262 | The outcome depends only on gates, fallbacks and services' results, not on the state before; no transition is refused; the machine ends in the reported state and its history only grows |
| `Pipelines.PassedOrLastBlocked` | backend/core/pipeline.py:148-262 | A result has only PASS verdicts and COMPLETED, or exactly its last verdict is BLOCK and it ends where that gate's fallback leads |
| `Pipelines.EveryRegisteredGateIsAsked` | backend/core/pipeline.py:148-262 | A completed analysis asked every registered gate of the three, in order and each about its own data; a blocked one asked those up to the one that blocked |
| `Pipelines.BlockedByFirst` | backend/core/pipeline.py:148-262 | Which gate blocks, and exactly when the analysis raises, in terms of gates and services |
| `Pipelines.InvestmentDecisionPipeline.RunBatchAnalysis` | backend/core/pipeline.py:267-309 | The loop's results are those of the next row |
| `Pipelines.BatchIsolatesTickers` | backend/core/pipeline.py:267-309 | A ticker's result is that of its own last analysis that did not raise, whatever became of the others |
| `Pipelines.BatchHasReturned` | backend/core/pipeline.py:267-309 | A ticker has a result if and only if some analysis of it did not raise |
| `Pipelines.DynamicEnsembleCannotStart` | backend/core/pipeline.py:442-443 | After a reset the transition to ANALYZING is refused, in every history |
| `GracefulShutdowns.GracefulShutdownManager.RegisterPendingOrder` | backend/core/graceful_shutdown.py:144-172 | Orders are accepted exactly while RUNNING |
| `GracefulShutdowns.GracefulShutdownManager.DrainPendingOrders` | backend/core/graceful_shutdown.py:273-299 | Polls until nothing is pending or the timeout has passed, at most ceil(timeout) times, and counts what was completed meanwhile |
| `GracefulShutdowns.RemainsUnlessCompleted` | backend/core/graceful_shutdown.py:273-299 | An order is pending after k polls if and only if it was at first and was not completed during them |
| `GracefulShutdowns.GracefulShutdownManager.CancelRemainingOrders` | backend/core/graceful_shutdown.py:301-331 | All orders pending at the start are counted and none is left, unless at some order's turn its task raises, which aborts |
| `GracefulShutdowns.GracefulShutdownManager.Shutdown` | backend/core/graceful_shutdown.py:181-271 | Drained plus cancelled is the number pending at first, for any calls of other tasks meanwhile; phases only advance; nothing is pending at the end; aborted if and only if a raising order is left after the polls; a second call does nothing |
| `GracefulShutdowns.StoppedInReverse` | backend/core/graceful_shutdown.py:230-245 | The stopped services are a subsequence of the reversed registration order, with every service that can stop |

## Left out

- Floats: all arithmetic is over exact rationals; in binary floats a defensive quantity can come out one share lower.
- The end of the date type in year 9999: years are unbounded above; below year 1 the search for a previous trading day finds nothing.
- Weekly reports, opening hours, closing times and time zones of the calendar.
- Scheduler: pausing while waiting, stop and start on one object, single events run by hand, two live processes, sleeps that overshoot midnight, heartbeats and what handlers do; keys are pairs of event and date, and one answer of the store is one instant.
- Rebalancing: signals, profile and execution are one step that goes on, returns or raises; the audit record is not modelled.
- WeightOptimizing.OptimizedSumsToOne: beyond a million strategies all proportional weights can be negligible, which normalising returns as zeros.
- WeightOptimizing.Optimize: minimum variance and the performance figures are not modelled; upper case is that of ASCII letters.
- Volatility, Sharpe ratio, worst positions, the monitor's loop, cooldown and its user-threshold branch beyond `WorthlessPortfolio`.
- Guard: reasons, warnings and timestamps, the older order check with balances, and capital verification; environment verification is one boolean of the object.
- Ledger: values other than BUY and SELL, the lock (operations are atomic) and the SQL repository, which is taken by its contract.
- Sessions: hashing, signing, key rotation, one-time passwords, session records; users always have a role, and token ids are unique, which `Sessions.LogoutIsFinal` and `Sessions.SessionLasts` assume.
- Registry of breakers and metrics. The context manager makes the same calls as the decorator, except that a cancellation counts as a failure there.
- Pipeline: what services compute; a service either returns something or raises. Gates always answer, the fallback handler drives the pipeline's own machine as it does by default, and its callback is not modelled. Reason texts are reduced to the forced marker.
- GracefulShutdowns.GracefulShutdownManager.Shutdown: cleanup callbacks, whose failures are swallowed, and a cancellation of the shutdown itself are not modelled; the order in which pending orders are cancelled is arbitrary.
- Order executor, order idempotency, backtests, notifications, capital budget and protection, and all HTTP, SQL, Redis and broker access.
