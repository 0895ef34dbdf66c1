# Interactive timetable: schedule resolver and server-clock bookkeeping

This Dafny project models the two library files behind an interactive
school timetable.

`lib/schedule-utils.ts` resolves a wall-clock moment against a fixed
timetable:

- which weekday label (星期一 … 星期五) and which of the eight periods the
  moment falls in;
- which of the seven breaks it falls in, and which period follows;
- which timetable entry is current or next;
- the day list, sorted by period;
- the day agenda, with the synthetic break rows interleaved at 節次
  `period + 0.5`;
- the colour class picked for a subject name by a string hash.

`lib/time-utils.ts` keeps one server-clock sync record and the time of the
last sync. It estimates the server time from them, decides when a record is
fresh or stale, and classifies the offset into a coloured status with a
text label.

Modules:

- `Collections` holds `Option` and JavaScript's `find` and `filter` on
  sequences, with their laws.
- `ScheduleUtils` holds the period and break tables, `getCurrentTime`,
  `isInBreakPeriod`, `getCurrentClass` and `getNextClass`.
- `ScheduleAgenda` holds `getScheduleByDay` (a filter and a stable sort)
  and `getDailyScheduleWithBreaks`. The latter is a method whose loop is
  proved against the function `AgendaUpTo`.
- `SubjectColor` holds `getSubjectColor`: a method with the source's hash
  loop over UTF-16 code units, with JavaScript's `<<` written out through
  ToInt32.
- `TimeUtils` holds the sync state: a class `TimeSyncClock` with the two
  module-level variables as fields, plus pure functions for every read of
  that state.

Behaviour the model keeps, including quirks:

- A period's end minute belongs to it, while a break's end minute does not.
  So at 09:00, 10:00, 11:00, 12:00, 13:50, 14:50 and 15:55 the moment is
  both in a period and in the following break; `ClassAndBreakOverlap`
  proves exactly that.
- The agenda contains only the periods that have an entry. Every period
  except the last is followed by its break row, whether or not the period
  has an entry.
- A sync whose response time does not parse ends with the fallback record
  but with `lastSyncTime` already moved. The fallback record has offset 0,
  so the status reads 同步良好 (good) after a failed sync.
- `getServerTime` applies the stored offset whether the record is stale or
  fresh.

## Model

| member | source | states |
|---|---|---|
| Collections.Find | lib/schedule-utils.ts:50 | `find` returns nothing exactly when no element satisfies the predicate; whatever it returns is an element that satisfies it |
| Collections.FindIsHeadOfFilter | lib/schedule-utils.ts:63 | `find` returns the first element that `filter` would keep |
| Collections.FindUnique | lib/schedule-utils.ts:129 | when one value is the only one satisfying the predicate, `find` returns it |
| Collections.Filter | lib/schedule-utils.ts:67 | `filter` keeps the input's order and is never longer than its input; its contents are stated by FilterSatisfies, FilterKeeps and FilterSubMultiset |
| Collections.FilterSatisfies | lib/schedule-utils.ts:67 | every element `filter` returns satisfies the predicate |
| Collections.FilterSubMultiset | lib/schedule-utils.ts:67 | `filter` returns a sub-multiset of its input |
| Collections.FilterKeeps | lib/schedule-utils.ts:67 | `filter` keeps every element that satisfies the predicate |
| Collections.FilterOfFilter | lib/schedule-utils.ts:63 | filtering twice equals filtering once with the conjunction |
| Collections.FilterPartition | lib/schedule-utils.ts:67 | a law of `filter`, used for the agenda's length: a filter and the filter of the negation together have the input's length |
| Collections.FilterAppend | lib/schedule-utils.ts:67 | a law of `filter`, used for the agenda's rows: `filter` distributes over concatenation |
| ScheduleUtils.WeekdayOf | lib/schedule-utils.ts:27-35 | the label is empty exactly for days outside 1..5, and is `WEEKDAYS[d-1]` otherwise |
| ScheduleUtils.CurrentTime | lib/schedule-utils.ts:19-56 | computes `getCurrentTime`; carries no contract of its own, and its meaning is the contract of CurrentTimeMeaning |
| ScheduleUtils.PeriodAt | lib/schedule-utils.ts:49-54 | computes the period lookup; carries no contract of its own, and its meaning is the contract of PeriodAtIff |
| ScheduleUtils.CurrentTimeMeaning | lib/schedule-utils.ts:19-56 | `getCurrentTime` reports the weekday label (empty on weekends) and period `k` exactly when `start_k <= minute <= end_k` |
| ScheduleUtils.PeriodAtIff | lib/schedule-utils.ts:38-54 | the period lookup returns `k` iff `1 <= k <= 8` and the minute lies in period `k`'s window, both ends included |
| ScheduleUtils.PeriodAtRow | lib/schedule-utils.ts:50 | a minute inside row `i`'s window gives period `i + 1` |
| ScheduleUtils.PeriodAtFound | lib/schedule-utils.ts:50 | a period that is found is in 1..8 and its window contains the minute |
| ScheduleUtils.PeriodTimeRow | lib/schedule-utils.ts:38-47 | row `i` of the period table is period `i + 1`, is non-empty and ends before the next row starts |
| ScheduleUtils.PeriodsListed | lib/schedule-utils.ts:17 | `PERIODS` lists the table's period numbers 1..8 in order |
| ScheduleUtils.PeriodsDisjoint | lib/schedule-utils.ts:38-47 | no two period windows share a minute, so at most one period matches |
| ScheduleUtils.PeriodEndsExample | lib/schedule-utils.ts:39 | 08:10 and 09:00 both give period 1 |
| ScheduleUtils.PeriodGapExample | lib/schedule-utils.ts:39-40 | 09:05 gives no period and 09:10 gives period 2 |
| ScheduleUtils.BreakAt | lib/schedule-utils.ts:112-136 | a break is reported iff some window contains the minute; then the next period is in 2..8 and the label is one of the two; otherwise the result is `{false, "", null}` |
| ScheduleUtils.InBreakPeriod | lib/schedule-utils.ts:112-136 | the same at a moment, with the lunch label exactly in [12:00, 13:00) and followed by period 5 |
| ScheduleUtils.BreakAtIff | lib/schedule-utils.ts:119-134 | the lookup leads into period `k` iff `2 <= k <= 8` and the minute lies in the window before `k`, end excluded |
| ScheduleUtils.BreakAtLunch | lib/schedule-utils.ts:123 | the lunch label is reported exactly in the fourth window, and then the next period is 5 |
| ScheduleUtils.BreakAtRow | lib/schedule-utils.ts:129-134 | a minute inside window `i` reports that window's label and period `i + 2` |
| ScheduleUtils.BreakAtFound | lib/schedule-utils.ts:129-134 | a reported break's window contains the minute and gives the reported label |
| ScheduleUtils.BreakWindowRow | lib/schedule-utils.ts:119-127 | window `i` leads into period `i + 2`, is non-empty and ends before the next one; only the fourth is lunch |
| ScheduleUtils.BreaksDisjoint | lib/schedule-utils.ts:119-127 | no two break windows share a minute |
| ScheduleUtils.ShortBreakExample | lib/schedule-utils.ts:120 | 09:05 is the short break before period 2 |
| ScheduleUtils.LunchBreakExample | lib/schedule-utils.ts:123 | 12:30 is the lunch break before period 5 |
| ScheduleUtils.NoBreakExample | lib/schedule-utils.ts:129 | 09:10 is in no break |
| ScheduleUtils.NoBreakDuringPeriod | lib/schedule-utils.ts:129 | a minute of a period other than its last is in no break |
| ScheduleUtils.FindEntry | lib/schedule-utils.ts:63 | the entry found is in the list and matches day and period; none is found iff no entry matches |
| ScheduleUtils.CurrentClass | lib/schedule-utils.ts:58-64 | nothing on weekends or outside every period; otherwise an entry of the current weekday and period, nothing only when no entry matches |
| ScheduleUtils.NextClass | lib/schedule-utils.ts:138-145 | nothing on weekends or outside breaks; otherwise an entry of that weekday for the period after the break, nothing only when no entry matches |
| ScheduleUtils.BreaksSitBetweenPeriods | lib/schedule-utils.ts:119-127 | each break starts at the inclusive end of the period before it and ends at the start of the period it leads into |
| ScheduleUtils.PeriodMeetsBreak | lib/schedule-utils.ts:50 | a period and a break share a minute only if the break follows the period, and only at the period's last minute |
| ScheduleUtils.ClassAndBreakOverlap | lib/schedule-utils.ts:129 | a minute is in both a period and a break iff it is one of the seven period ends, and then the break leads into the next period |
| ScheduleUtils.NextClassBecomesCurrent | lib/schedule-utils.ts:138-145 | the entry announced as next during a break is the one `getCurrentClass` gives when the next period starts |
| ScheduleAgenda.Insert | lib/schedule-utils.ts:67 | insertion adds exactly one element, as a multiset |
| ScheduleAgenda.InsertSorted | lib/schedule-utils.ts:67 | insertion keeps a list sorted by period |
| ScheduleAgenda.InsertAbove | lib/schedule-utils.ts:67 | insertion keeps a common lower bound on periods |
| ScheduleAgenda.SortByPeriod | lib/schedule-utils.ts:67 | the sort returns a permutation of its input, sorted by period |
| ScheduleAgenda.InsertKeepsPeriodOrder | lib/schedule-utils.ts:67 | insertion puts the new entry ahead of the entries with the same period |
| ScheduleAgenda.SortIsStable | lib/schedule-utils.ts:67 | the entries of each period keep their order in the sorted list |
| ScheduleAgenda.ScheduleByDay | lib/schedule-utils.ts:66-68 | the day list is a permutation of the filter by weekday, sorted by period, and holds exactly the day's entries |
| ScheduleAgenda.DayEntriesSound | lib/schedule-utils.ts:67 | a rearrangement of the day filter holds only the day's entries |
| ScheduleAgenda.DayEntriesComplete | lib/schedule-utils.ts:67 | a rearrangement of the day filter holds every one of the day's entries |
| ScheduleAgenda.ScheduleByDayFirst | lib/schedule-utils.ts:89 | the day list's first entry of a period is the dataset's first entry for that day and period |
| ScheduleAgenda.AgendaBreakRow | lib/schedule-utils.ts:78-86 | break row `i` follows period `i + 1` and is 午休 only for `i = 3` |
| ScheduleAgenda.AgendaBreaksMatchWindows | lib/schedule-utils.ts:78-86 | each agenda break shows its break window as `HH:MM-HH:MM`, is 午休 exactly for the lunch window, and follows the period before the window |
| ScheduleAgenda.EarlyMorningBreakTimes | lib/schedule-utils.ts:79-80 | the first two displayed break times are their windows |
| ScheduleAgenda.LateMorningBreakTimes | lib/schedule-utils.ts:81-82 | the third and fourth displayed break times are their windows |
| ScheduleAgenda.AfternoonBreakTimes | lib/schedule-utils.ts:83-85 | the last three displayed break times are their windows |
| ScheduleAgenda.BreakAfter | lib/schedule-utils.ts:96 | periods 1..7 have their own break row, any other period none |
| ScheduleAgenda.BreakAfterLookup | lib/schedule-utils.ts:96 | `find` by `after` over the break table gives row `period - 1` for periods 1..7 and nothing otherwise |
| ScheduleAgenda.AgendaUpTo | lib/schedule-utils.ts:88-107 | the rows after the loop has handled periods 1 to `n`; carries no contract of its own, and what it holds is the contract of AgendaOrdered, AgendaBreaksUpTo and AgendaClassesUpTo |
| ScheduleAgenda.DailyAgenda | lib/schedule-utils.ts:70-109 | the value `getDailyScheduleWithBreaks` returns; carries no contract of its own, and what it holds is the contract of DailyAgendaBreaks, DailyAgendaClasses and DailyAgendaShape |
| ScheduleAgenda.DailyScheduleWithBreaks | lib/schedule-utils.ts:70-110 | the loop returns `AgendaUpTo(day list, day, 8)`, the rows of periods 1 to 8 in order |
| ScheduleAgenda.LoopStep | lib/schedule-utils.ts:91-106 | the two pushes of one turn append that period's rows |
| ScheduleAgenda.PeriodsFoundMembers | lib/schedule-utils.ts:89 | the periods found are exactly the periods 1..n whose entry is in the day list |
| ScheduleAgenda.PeriodRowsShape | lib/schedule-utils.ts:88-107 | one turn appends the period's entry, if any, then the break after it unless it is period 8 |
| ScheduleAgenda.RowsForKinds | lib/schedule-utils.ts:91-106 | one turn appends at most one class row and the break after the period |
| ScheduleAgenda.RowsForOrder | lib/schedule-utils.ts:101 | one turn's rows are for the day, with 節次 between `p` and `p + 0.5`, increasing |
| ScheduleAgenda.PeriodRowsFacts | lib/schedule-utils.ts:88-107 | the same for the rows that the loop actually appends |
| ScheduleAgenda.AgendaOrdered | lib/schedule-utils.ts:88-107 | after `n` turns every row is for the day, with 節次 in [1, n + 0.5], strictly increasing |
| ScheduleAgenda.ConcatOrdered | lib/schedule-utils.ts:101 | earlier periods' rows followed by period `p`'s rows stay strictly increasing |
| ScheduleAgenda.AgendaBreaksStep | lib/schedule-utils.ts:97-106 | one turn adds the break after `n` to the break rows, except after period 8 |
| ScheduleAgenda.ExpectedBreaksAt | lib/schedule-utils.ts:78-86 | the expected breaks are those after periods 1, 2, … in order, at most seven |
| ScheduleAgenda.AgendaBreaksUpTo | lib/schedule-utils.ts:95-106 | after `n` turns the break rows are exactly the breaks after periods 1..min(n, 7) |
| ScheduleAgenda.AgendaClassesStep | lib/schedule-utils.ts:89-93 | one turn adds the period's first entry, if any, to the class rows |
| ScheduleAgenda.AgendaClassesUpTo | lib/schedule-utils.ts:89-93 | after `n` turns the class rows are the first entries of periods 1..n, in order |
| ScheduleAgenda.PeriodsFoundBelow | lib/schedule-utils.ts:88 | no period above `n` is found in the first `n` turns |
| ScheduleAgenda.FoundClassCount | lib/schedule-utils.ts:89-93 | there are as many class rows as periods with an entry |
| ScheduleAgenda.FoundClassCountStep | lib/schedule-utils.ts:89-93 | one turn keeps that count equal |
| ScheduleAgenda.FoundClassEntries | lib/schedule-utils.ts:89-93 | every class row holds the first entry of its own period |
| ScheduleAgenda.FoundClassesComplete | lib/schedule-utils.ts:89-93 | every period with an entry has its class row |
| ScheduleAgenda.DayListEntries | lib/schedule-utils.ts:74 | the day list is all of the day, has the dataset's first entries per period, and has entries for the same periods |
| ScheduleAgenda.DailyAgendaBreaks | lib/schedule-utils.ts:95-106 | the agenda has exactly seven break rows, after periods 1..7 in order, with 節次 `k + 0.5`, 午休 only after period 4 |
| ScheduleAgenda.DailyAgendaClasses | lib/schedule-utils.ts:89-93 | the agenda's class rows are the dataset's first entries, one per period of the day that has one, and no others |
| ScheduleAgenda.DailyAgendaShape | lib/schedule-utils.ts:70-110 | rows are for the day, with strictly increasing 節次 in [1, 8.5]; the length is 7 plus the number of periods with an entry; every such entry is present |
| SubjectColor.Abs | lib/schedule-utils.ts:169 | the magnitude is a natural number equal to the argument or its negation |
| SubjectColor.ToInt32 | lib/schedule-utils.ts:166 | ToInt32 lands in the signed 32-bit range, congruent to its argument modulo 2^32 |
| SubjectColor.ToInt32Congruent | lib/schedule-utils.ts:166 | congruent integers have the same ToInt32 |
| SubjectColor.ShiftLeft5 | lib/schedule-utils.ts:166 | `h << 5` is a signed 32-bit value congruent to `32 * h` modulo 2^32 |
| SubjectColor.ShiftCongruent | lib/schedule-utils.ts:166 | shifting the 32-bit image of `h` is multiplying `h` by 32, modulo 2^32 |
| SubjectColor.Utf16 | lib/schedule-utils.ts:165-166 | the string as code units: at least one per character, each in 0..0xFFFF |
| SubjectColor.Utf16RoundTrip | lib/schedule-utils.ts:166 | decoding the code units gives back every character |
| SubjectColor.Utf16OfBmp | lib/schedule-utils.ts:166 | a string within the Basic Multilingual Plane is its own code units |
| SubjectColor.HashStep | lib/schedule-utils.ts:166 | one turn of the loop; carries no contract of its own, and its meaning modulo 2^32 is the contract of WrapStep |
| SubjectColor.Hash | lib/schedule-utils.ts:164-167 | the hash after the loop; carries no contract of its own, and its meaning is the contract of HashLow32 (low 32 bits) and HashMagnitude (size) |
| SubjectColor.HashLow32 | lib/schedule-utils.ts:164-167 | the hash's low 32 bits are those of the 32-bit `31 * h + code` hash |
| SubjectColor.WrapStep | lib/schedule-utils.ts:166 | one loop turn agrees with one turn of the 32-bit hash modulo 2^32 |
| SubjectColor.HashMagnitude | lib/schedule-utils.ts:164-167 | after `n` code units the hash's magnitude is at most `n * (2^31 + 2^16)` |
| SubjectColor.HashFitsDouble | lib/schedule-utils.ts:164-167 | for names under 2^21 code units the hash stays an exact double |
| SubjectColor.SubjectColorOf | lib/schedule-utils.ts:151-170 | the loop computes the hash of the code units; the colour is `PALETTE[abs(hash) % 8]`, always one of the eight |
| SubjectColor.EmptySubjectColor | lib/schedule-utils.ts:164-169 | the empty name hashes to 0 and gets the first colour |
| TimeUtils.Measured | lib/time-utils.ts:31-34 | latency is `end - start`; offset plus client time is server time plus half the latency |
| TimeUtils.AfterSync | lib/time-utils.ts:19-65 | the state after a sync; carries no contract of its own, and its meaning is the contract of SuccessfulSync, FailedSync, UnparsableServerTime and SyncLeavesRecord |
| TimeUtils.Trunc | lib/time-utils.ts:79 | `new Date(x)` keeps the integral part, rounding toward zero |
| TimeUtils.ServerTime | lib/time-utils.ts:67-80 | with no record the client time; otherwise the client time plus the offset, truncated, stale or not |
| TimeUtils.Latency | lib/time-utils.ts:82-84 | 0 with no record, the stored latency otherwise |
| TimeUtils.TimeOffset | lib/time-utils.ts:86-88 | 0 with no record, the stored offset otherwise |
| TimeUtils.AbsReal | lib/time-utils.ts:103 | the magnitude of the offset is non-negative and equals the offset or its negation |
| TimeUtils.SyncStatusColor | lib/time-utils.ts:100-109 | gray iff no record; with a record, green iff the absolute offset is at most 100, yellow iff it is in (100, 500], orange iff in (500, 1000], red iff it exceeds 1000 |
| TimeUtils.SyncStatusText | lib/time-utils.ts:111-120 | 未同步 iff no record; with a record, 同步良好 iff the absolute offset is at most 100, 同步正常 iff it is in (100, 500], 同步一般 iff in (500, 1000], 同步較差 iff it exceeds 1000 |
| TimeUtils.TimeSyncClock.constructor | lib/time-utils.ts:15-16 | module load: no record, last sync at 0 |
| TimeUtils.TimeSyncClock.SyncWithServerTime | lib/time-utils.ts:19-65 | the new state is `AfterSync` of the old one: measured record and new sync time on success, fallback record and old sync time on failure, and the record stored is the one returned |
| TimeUtils.TimeSyncClock.EnsureTimeSync | lib/time-utils.ts:94-98 | syncs exactly when there is no record or it is over 30 s old; otherwise the state is unchanged |
| TimeUtils.IsTimeSynced | lib/time-utils.ts:90-92 | `isTimeSynced`; carries no contract of its own, and its relation to the resync condition is the contract of SyncedNeedsNoResync and FreshnessBoundary |
| TimeUtils.NeedsResync | lib/time-utils.ts:95 | the resync condition of `ensureTimeSync`; carries no contract of its own, and its relation to `isTimeSynced` is the contract of FreshnessBoundary |
| TimeUtils.SyncedNeedsNoResync | lib/time-utils.ts:90-98 | a synced state never asks for a resync |
| TimeUtils.FreshnessBoundary | lib/time-utils.ts:90-98 | with a record, exactly one of synced and needs-resync holds, except at exactly 30 s, where neither does |
| TimeUtils.SyncLeavesRecord | lib/time-utils.ts:19-65 | after any sync there is a record, so the status is not gray or 未同步 |
| TimeUtils.SuccessfulSync | lib/time-utils.ts:31-43 | a successful sync stores latency `end - start` and server time plus half the round trip, and counts as synced for the next 30 s |
| TimeUtils.FailedSync | lib/time-utils.ts:53-63 | a failed sync keeps the sync time, leaves a resync due if it was due, has zero latency and offset, and shows green and 同步良好 |
| TimeUtils.UnparsableServerTime | lib/time-utils.ts:32-62 | an unparseable server time leaves the fallback record but moves the sync time |
| TimeUtils.ServerTimeNearOffset | lib/time-utils.ts:72-79 | the server time is within 1 ms of client time plus offset |
| TimeUtils.ServerTimeIgnoresStaleness | lib/time-utils.ts:68-79 | the server time does not depend on the last sync time |
| TimeUtils.StatusColorMatchesText | lib/time-utils.ts:100-120 | colour and text each determine the other |
| TimeUtils.StatusOneToOne | lib/time-utils.ts:100-120 | two states show the same colour iff they show the same text |
| TimeUtils.StatusMonotone | lib/time-utils.ts:103-108 | a larger absolute offset never gives a better colour |
| TimeUtils.StatusThresholds | lib/time-utils.ts:114-119 | 100 ms is good, 100.5 and 500 ms normal, 1000 ms fair, 1000.5 ms poor |
| TimeUtils.InitialState | lib/time-utils.ts:15-16 | before any sync: gray, 未同步, resync due, server time is client time, latency and offset 0 |

## Left out

- The React components, the notification and PWA helpers and the service
  worker: rendering, timers and browser APIs with no logic of their own.
- Notification de-duplication: it relies on `isClassStartingSoon` and
  `didClassJustStart`, which are not defined in `lib/schedule-utils.ts`. They
  are not part of this model.
- `formatTime` returns its argument unchanged, so there is nothing to model.
- Clock reads (`new Date()`, `Date.now()`) are parameters. In the schedule
  code, one `Moment` (JavaScript day of week, hour, minute) stands for all
  reads of one call. `getNextClass` reads the clock twice, and the model
  assumes both reads fall in the same minute. In `syncWithServerTime` each
  read is its own parameter. `getServerTime` reads the clock twice
  (`Date.now()` for the staleness test, `new Date()` for the result) and
  `ServerTime` takes one `now` for both; the merge loses nothing, because
  `ServerTimeIgnoresStaleness` shows the staleness test does not change the
  result.
- `fetch`, `response.json()` and `console.log` are replaced by a
  `FetchOutcome` parameter. A failing network call, a non-ok status and a
  JSON error are one case, `Failed`; a body whose time does not parse is
  `Received(None)`.
- Floating point: offsets are exact reals. Only an unparseable server time
  gives a `NaN` offset, and the model covers that case as the source
  resolves it. `Date`'s range limit (TimeClip to ±8.64e15 ms) is not modelled.
- `ScheduleItem.節次` is an integer. The source's type allows any number, but
  the timetable data holds integers.
- TimeUtils.TimeSyncClock.EnsureTimeSync: the staleness test and the sync
  are one atomic step. Asynchronous interleaving is not modelled: another
  sync that completes while this one awaits `fetch` is not represented.
- SubjectColor.Utf16: covers only well-formed strings. A JavaScript string
  can hold unpaired surrogates, which `charCodeAt` returns, but a Dafny
  `string` of Unicode scalar values cannot represent them.
- SubjectColor.SubjectColorOf: exact only while the hash fits a double, which
  `HashFitsDouble` proves for names under 2^21 UTF-16 code units. For longer
  names the source's doubles would round and the model's integers would not.
- TimeUtils.Latency and TimeUtils.TimeOffset: the `|| 0` fallback is
  modelled, but the `NaN` case it also covers is not, because no stored
  record has a `NaN` field once `syncWithServerTime` has returned.
