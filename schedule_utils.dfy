/** The clock-driven lookups of the timetable resolver: which weekday and
    period a wall-clock moment falls in, which break it falls in, and the
    timetable entries that are current or next. The moment is a parameter
    here; the source reads it from `new Date()` on every call. */
module ScheduleUtils {
  import opened Collections

  /** One entry of the static timetable: 星期 (weekday label), 節次 (period
      number), 時間 (display time range) and 科目 (subject). */
  datatype ScheduleItem = ScheduleItem(weekday: string, period: int, time: string, subject: string)

  /** A wall-clock reading: `getDay()` (0 = Sunday … 6 = Saturday),
      `getHours()` and `getMinutes()`. */
  datatype Moment = Moment(day: int, hour: int, minute: int)

  function MinuteOfDay(now: Moment): int
  {
    now.hour * 60 + now.minute
  }

  const WEEKDAYS: seq<string> := ["星期一", "星期二", "星期三", "星期四", "星期五"]
  const PERIODS: seq<int> := [1, 2, 3, 4, 5, 6, 7, 8]

  /** The JavaScript day number to weekday label table of `getCurrentTime`. */
  const DAY_MAP: map<int, string> := map[1 := "星期一", 2 := "星期二", 3 := "星期三", 4 := "星期四", 5 := "星期五"]

  /** A class period as minutes from midnight; both ends belong to it. */
  datatype PeriodTime = PeriodTime(period: int, start: int, end: int)

  const PERIOD_TIMES: seq<PeriodTime> := [
    PeriodTime(1, 8 * 60 + 10, 9 * 60),        // 08:10-09:00
    PeriodTime(2, 9 * 60 + 10, 10 * 60),       // 09:10-10:00
    PeriodTime(3, 10 * 60 + 10, 11 * 60),      // 10:10-11:00
    PeriodTime(4, 11 * 60 + 10, 12 * 60),      // 11:10-12:00
    PeriodTime(5, 13 * 60, 13 * 60 + 50),      // 13:00-13:50
    PeriodTime(6, 14 * 60, 14 * 60 + 50),      // 14:00-14:50
    PeriodTime(7, 15 * 60 + 5, 15 * 60 + 55),  // 15:05-15:55
    PeriodTime(8, 16 * 60 + 5, 16 * 60 + 55)   // 16:05-16:55
  ]

  /** A break as minutes from midnight; the start belongs to it, the end
      does not. `kind` is the label shown, `nextPeriod` the period after it. */
  datatype BreakWindow = BreakWindow(start: int, end: int, kind: string, nextPeriod: int)

  const SHORT_BREAK := "課間休息"
  const LUNCH_BREAK := "午休時間"

  const BREAK_WINDOWS: seq<BreakWindow> := [
    BreakWindow(9 * 60, 9 * 60 + 10, SHORT_BREAK, 2),         // 09:00-09:10
    BreakWindow(10 * 60, 10 * 60 + 10, SHORT_BREAK, 3),       // 10:00-10:10
    BreakWindow(11 * 60, 11 * 60 + 10, SHORT_BREAK, 4),       // 11:00-11:10
    BreakWindow(12 * 60, 13 * 60, LUNCH_BREAK, 5),            // 12:00-13:00
    BreakWindow(13 * 60 + 50, 14 * 60, SHORT_BREAK, 6),       // 13:50-14:00
    BreakWindow(14 * 60 + 50, 15 * 60 + 5, SHORT_BREAK, 7),   // 14:50-15:05
    BreakWindow(15 * 60 + 55, 16 * 60 + 5, SHORT_BREAK, 8)    // 15:55-16:05
  ]

  /** The minutes at which a period's inclusive end meets the following
      break's inclusive start. */
  const OVERLAP_MINUTES: seq<int> := [540, 600, 660, 720, 830, 890, 955]

  /** Result of `getCurrentTime`. */
  datatype DayPeriod = DayPeriod(day: string, period: Option<int>)

  /** Result of `isInBreakPeriod`. */
  datatype BreakInfo = BreakInfo(isBreak: bool, breakType: string, nextPeriod: Option<int>)

  // The predicates handed to `find`, named so that every use denotes the same closure.

  function InPeriod(t: int): PeriodTime -> bool
  {
    (p: PeriodTime) => t >= p.start && t <= p.end
  }

  function InBreak(t: int): BreakWindow -> bool
  {
    (b: BreakWindow) => t >= b.start && t < b.end
  }

  function OnDayAt(day: string, period: int): ScheduleItem -> bool
  {
    (item: ScheduleItem) => item.weekday == day && item.period == period
  }

  /** `dayMap[currentDay] || ""`: the weekday label, empty on weekends. */
  function WeekdayOf(d: int): (w: string)
    ensures w == "" <==> !(1 <= d <= 5)
    ensures 1 <= d <= 5 ==> w == WEEKDAYS[d - 1]
  {
    if d in DAY_MAP then DAY_MAP[d] else ""
  }

  /** The period whose window contains minute `t` (`currentPeriod?.period || null`;
      no period is numbered 0, so `|| null` only maps "not found"). */
  function PeriodAt(t: int): (p: Option<int>)
  {
    var w := Find(PERIOD_TIMES, InPeriod(t));
    if w.Some? then Some(w.value.period) else None
  }

  /** `getCurrentTime`: the weekday label and the period of the clock
      reading (`CurrentTimeMeaning` states what they are). */
  function CurrentTime(now: Moment): DayPeriod
  {
    DayPeriod(WeekdayOf(now.day), PeriodAt(MinuteOfDay(now)))
  }

  /** The day is the weekday's label, empty exactly on weekends, and
      period `k` is reported exactly when the minute lies in its window. */
  lemma CurrentTimeMeaning(now: Moment, k: int)
    ensures CurrentTime(now).day == "" <==> !(1 <= now.day <= 5)
    ensures 1 <= now.day <= 5 ==> CurrentTime(now).day == WEEKDAYS[now.day - 1]
    ensures CurrentTime(now).period == Some(k) <==>
      1 <= k <= 8 && PERIOD_TIMES[k - 1].start <= MinuteOfDay(now) <= PERIOD_TIMES[k - 1].end
  {
    PeriodAtIff(MinuteOfDay(now), k);
  }

  /** Facts about one row of the period table: it is numbered by its
      position and it ends before the next one starts. */
  lemma PeriodTimeRow(i: int)
    requires 0 <= i < |PERIOD_TIMES|
    ensures PERIOD_TIMES[i].period == i + 1
    ensures PERIOD_TIMES[i].start <= PERIOD_TIMES[i].end
    ensures i + 1 < |PERIOD_TIMES| ==> PERIOD_TIMES[i].end < PERIOD_TIMES[i + 1].start
  {
    assert i == 0 || i == 1 || i == 2 || i == 3 || i == 4 || i == 5 || i == 6 || i == 7;
  }

  /** `PERIODS` lists the period numbers of the table, in its order. */
  lemma PeriodsListed(i: int)
    requires 0 <= i < |PERIODS|
    ensures |PERIODS| == |PERIOD_TIMES| && PERIODS[i] == PERIOD_TIMES[i].period == i + 1
  {
    PeriodTimeRow(i);
  }

  /** No two period windows share a minute. */
  lemma {:induction false} PeriodsDisjoint(t: int, i: int, j: int)
    requires 0 <= i < j < |PERIOD_TIMES|
    ensures PERIOD_TIMES[i].end < PERIOD_TIMES[j].start
    ensures !(InPeriod(t)(PERIOD_TIMES[i]) && InPeriod(t)(PERIOD_TIMES[j]))
    decreases j - i
  {
    PeriodTimeRow(i);
    if i + 1 < j {
      PeriodsDisjoint(t, i + 1, j);
      PeriodTimeRow(i + 1);
    }
  }

  /** The period windows are pairwise disjoint and numbered by position, so
      minute `t` lies in period `k` exactly when it lies in the k-th window;
      the order in which `find` scans them does not matter. */
  lemma PeriodAtIff(t: int, k: int)
    ensures PeriodAt(t) == Some(k) <==> 1 <= k <= 8 && PERIOD_TIMES[k - 1].start <= t <= PERIOD_TIMES[k - 1].end
  {
    if PeriodAt(t) == Some(k) {
      PeriodAtFound(t);
    } else if 1 <= k <= 8 && InPeriod(t)(PERIOD_TIMES[k - 1]) {
      PeriodAtRow(t, k - 1);
    }
  }

  /** A minute inside window `i` is in period `i + 1`. */
  lemma PeriodAtRow(t: int, i: int)
    requires 0 <= i < |PERIOD_TIMES| && InPeriod(t)(PERIOD_TIMES[i])
    ensures PeriodAt(t) == Some(i + 1)
  {
    forall j | 0 <= j < |PERIOD_TIMES| && InPeriod(t)(PERIOD_TIMES[j])
      ensures PERIOD_TIMES[j] == PERIOD_TIMES[i]
    {
      if j < i { PeriodsDisjoint(t, j, i); }
      else if i < j { PeriodsDisjoint(t, i, j); }
    }
    FindUnique(PERIOD_TIMES, InPeriod(t), PERIOD_TIMES[i]);
    PeriodTimeRow(i);
  }

  /** A period that is found contains the minute. */
  lemma PeriodAtFound(t: int)
    requires PeriodAt(t).Some?
    ensures 1 <= PeriodAt(t).value <= 8
    ensures InPeriod(t)(PERIOD_TIMES[PeriodAt(t).value - 1])
  {
    var r := Find(PERIOD_TIMES, InPeriod(t));
    var i :| 0 <= i < |PERIOD_TIMES| && PERIOD_TIMES[i] == r.value;
    PeriodAtRow(t, i);
  }

  /** `isInBreakPeriod`, at minute `t`. */
  function BreakAt(t: int): (r: BreakInfo)
    ensures r.isBreak <==> exists i :: 0 <= i < |BREAK_WINDOWS| && BREAK_WINDOWS[i].start <= t < BREAK_WINDOWS[i].end
    ensures r.isBreak ==> r.nextPeriod.Some? && 2 <= r.nextPeriod.value <= 8
    ensures r.isBreak ==> r.breakType == SHORT_BREAK || r.breakType == LUNCH_BREAK
    ensures !r.isBreak ==> r == BreakInfo(false, "", None)
  {
    var b := Find(BREAK_WINDOWS, InBreak(t));
    if b.Some? then BreakInfo(true, b.value.kind, Some(b.value.nextPeriod))
    else BreakInfo(false, "", None)
  }

  /** `isInBreakPeriod`. */
  function InBreakPeriod(now: Moment): (r: BreakInfo)
    ensures r.isBreak <==> exists i :: 0 <= i < |BREAK_WINDOWS| && BREAK_WINDOWS[i].start <= MinuteOfDay(now) < BREAK_WINDOWS[i].end
    ensures r.breakType == LUNCH_BREAK <==> 12 * 60 <= MinuteOfDay(now) < 13 * 60
    ensures r.breakType == LUNCH_BREAK ==> r.nextPeriod == Some(5)
    ensures !r.isBreak ==> r == BreakInfo(false, "", None)
  {
    var t := MinuteOfDay(now);
    BreakAtLunch(t);
    BreakAt(t)
  }

  /** Facts about one row of the break table: it leads into the period
      two past its position, it is non-empty and it ends no later than the
      next one starts; only the fourth is the lunch break. */
  lemma BreakWindowRow(i: int)
    requires 0 <= i < |BREAK_WINDOWS|
    ensures BREAK_WINDOWS[i].nextPeriod == i + 2
    ensures BREAK_WINDOWS[i].start < BREAK_WINDOWS[i].end
    ensures i + 1 < |BREAK_WINDOWS| ==> BREAK_WINDOWS[i].end < BREAK_WINDOWS[i + 1].start
    ensures BREAK_WINDOWS[i].kind == LUNCH_BREAK <==> i == 3
    ensures BREAK_WINDOWS[i].kind == SHORT_BREAK <==> i != 3
  {
    assert i == 0 || i == 1 || i == 2 || i == 3 || i == 4 || i == 5 || i == 6;
  }

  /** No two break windows share a minute. */
  lemma {:induction false} BreaksDisjoint(t: int, i: int, j: int)
    requires 0 <= i < j < |BREAK_WINDOWS|
    ensures BREAK_WINDOWS[i].end < BREAK_WINDOWS[j].start
    ensures !(InBreak(t)(BREAK_WINDOWS[i]) && InBreak(t)(BREAK_WINDOWS[j]))
    decreases j - i
  {
    BreakWindowRow(i);
    if i + 1 < j {
      BreaksDisjoint(t, i + 1, j);
      BreakWindowRow(i + 1);
    }
  }

  /** Like the periods, the break windows are disjoint and ordered, so
      minute `t` is in the break before period `k` exactly when it lies in
      that window. */
  lemma BreakAtIff(t: int, k: int)
    ensures BreakAt(t).nextPeriod == Some(k) <==> 2 <= k <= 8 && BREAK_WINDOWS[k - 2].start <= t < BREAK_WINDOWS[k - 2].end
  {
    if BreakAt(t).nextPeriod == Some(k) {
      BreakAtFound(t);
    } else if 2 <= k <= 8 && InBreak(t)(BREAK_WINDOWS[k - 2]) {
      BreakAtRow(t, k - 2);
    }
  }

  /** The lunch label belongs to the window before period 5 and to no
      other. */
  lemma BreakAtLunch(t: int)
    ensures BreakAt(t).breakType == LUNCH_BREAK <==> BREAK_WINDOWS[3].start <= t < BREAK_WINDOWS[3].end
    ensures BreakAt(t).breakType == LUNCH_BREAK ==> BreakAt(t).nextPeriod == Some(5)
  {
    if BreakAt(t).breakType == LUNCH_BREAK {
      BreakAtFound(t);
      BreakWindowRow(BreakAt(t).nextPeriod.value - 2);
    } else if InBreak(t)(BREAK_WINDOWS[3]) {
      BreakAtRow(t, 3);
      BreakWindowRow(3);
    }
  }

  /** A minute inside window `i` is in that break. */
  lemma BreakAtRow(t: int, i: int)
    requires 0 <= i < |BREAK_WINDOWS| && InBreak(t)(BREAK_WINDOWS[i])
    ensures BreakAt(t) == BreakInfo(true, BREAK_WINDOWS[i].kind, Some(i + 2))
  {
    forall j | 0 <= j < |BREAK_WINDOWS| && InBreak(t)(BREAK_WINDOWS[j])
      ensures BREAK_WINDOWS[j] == BREAK_WINDOWS[i]
    {
      if j < i { BreaksDisjoint(t, j, i); }
      else if i < j { BreaksDisjoint(t, i, j); }
    }
    FindUnique(BREAK_WINDOWS, InBreak(t), BREAK_WINDOWS[i]);
    BreakWindowRow(i);
  }

  /** A break that is found contains the minute. */
  lemma BreakAtFound(t: int)
    requires BreakAt(t).isBreak
    ensures BreakAt(t).nextPeriod.Some? && 2 <= BreakAt(t).nextPeriod.value <= 8
    ensures InBreak(t)(BREAK_WINDOWS[BreakAt(t).nextPeriod.value - 2])
    ensures BreakAt(t).breakType == BREAK_WINDOWS[BreakAt(t).nextPeriod.value - 2].kind
  {
    var r := Find(BREAK_WINDOWS, InBreak(t));
    var i :| 0 <= i < |BREAK_WINDOWS| && BREAK_WINDOWS[i] == r.value;
    BreakAtRow(t, i);
  }

  /** The first entry for `day` and `period`, in the order of the dataset. */
  function FindEntry(schedule: seq<ScheduleItem>, day: string, period: int): (r: Option<ScheduleItem>)
    ensures r.Some? ==> r.value in schedule && r.value.weekday == day && r.value.period == period
    ensures r.None? <==> forall i :: 0 <= i < |schedule| ==> !(schedule[i].weekday == day && schedule[i].period == period)
  {
    Find(schedule, OnDayAt(day, period))
  }

  /** `getCurrentClass`: nothing on a weekend or outside every period,
      otherwise the first entry of the current weekday and period. */
  function CurrentClass(schedule: seq<ScheduleItem>, now: Moment): (r: Option<ScheduleItem>)
    ensures !(1 <= now.day <= 5) || PeriodAt(MinuteOfDay(now)).None? ==> r.None?
    ensures r.Some? ==> r.value in schedule && r.value.weekday == WEEKDAYS[now.day - 1]
    ensures r.Some? ==> PeriodAt(MinuteOfDay(now)) == Some(r.value.period)
    ensures 1 <= now.day <= 5 && PeriodAt(MinuteOfDay(now)).Some? ==>
              (r.None? <==> forall i :: 0 <= i < |schedule| ==>
                 !(schedule[i].weekday == WEEKDAYS[now.day - 1] && Some(schedule[i].period) == PeriodAt(MinuteOfDay(now))))
  {
    var cur := CurrentTime(now);
    if cur.day == "" || cur.period.None? then None
    else FindEntry(schedule, cur.day, cur.period.value)
  }

  /** `getNextClass`: during a break on a weekday, the first entry of that
      weekday for the period the break leads into; otherwise nothing. */
  function NextClass(schedule: seq<ScheduleItem>, now: Moment): (r: Option<ScheduleItem>)
    ensures !(1 <= now.day <= 5) || !InBreakPeriod(now).isBreak ==> r.None?
    ensures r.Some? ==> r.value in schedule && r.value.weekday == WEEKDAYS[now.day - 1]
    ensures r.Some? ==> InBreakPeriod(now).nextPeriod == Some(r.value.period) && 2 <= r.value.period <= 8
    ensures 1 <= now.day <= 5 && InBreakPeriod(now).isBreak ==>
              (r.None? <==> forall i :: 0 <= i < |schedule| ==>
                 !(schedule[i].weekday == WEEKDAYS[now.day - 1] && Some(schedule[i].period) == InBreakPeriod(now).nextPeriod))
  {
    var day := CurrentTime(now).day;
    var breakInfo := InBreakPeriod(now);
    if day == "" || !breakInfo.isBreak || breakInfo.nextPeriod.None? then None
    else FindEntry(schedule, day, breakInfo.nextPeriod.value)
  }

  /** Both ends of period 1, 08:10 and 09:00, belong to it. */
  lemma PeriodEndsExample()
    ensures PeriodAt(490) == Some(1) && PeriodAt(540) == Some(1)
  {
    PeriodAtRow(490, 0);
    PeriodAtRow(540, 0);
  }

  /** 09:05 lies between periods 1 and 2, and 09:10 starts period 2. */
  lemma PeriodGapExample()
    ensures PeriodAt(545) == None && PeriodAt(550) == Some(2)
  {
    PeriodAtRow(550, 1);
    if PeriodAt(545).Some? {
      PeriodAtFound(545);
      BreakAtRow(545, 0);
      PeriodMeetsBreak(545, PeriodAt(545).value - 1, 0);
    }
  }

  /** 09:05 is the short break before period 2. */
  lemma ShortBreakExample()
    ensures BreakAt(545) == BreakInfo(true, SHORT_BREAK, Some(2))
  {
    BreakAtRow(545, 0);
  }

  /** 12:30 is the lunch break before period 5. */
  lemma LunchBreakExample()
    ensures BreakAt(750) == BreakInfo(true, LUNCH_BREAK, Some(5))
  {
    BreakAtRow(750, 3);
  }

  /** 09:10, the first minute of period 2, is in no break. */
  lemma NoBreakExample()
    ensures BreakAt(550) == BreakInfo(false, "", None)
  {
    NoBreakDuringPeriod(550, 1);
  }

  /** Each break starts at the (inclusive) end of the period before it and
      ends at the start of the period it leads into; that end is the k-th
      of the overlap minutes. */
  lemma BreaksSitBetweenPeriods(k: int)
    requires 0 <= k < 7
    ensures BREAK_WINDOWS[k].start == PERIOD_TIMES[k].end == OVERLAP_MINUTES[k]
    ensures BREAK_WINDOWS[k].end == PERIOD_TIMES[k + 1].start
    ensures BREAK_WINDOWS[k].nextPeriod == PERIOD_TIMES[k + 1].period
  {
    assert k == 0 || k == 1 || k == 2 || k == 3 || k == 4 || k == 5 || k == 6;
  }

  /** Period `i` and break `j` (0-based rows) share a minute only when the
      break is the one right after the period, and then only at the period's
      last minute. */
  lemma PeriodMeetsBreak(t: int, i: int, j: int)
    requires 0 <= i < |PERIOD_TIMES| && 0 <= j < |BREAK_WINDOWS|
    requires InPeriod(t)(PERIOD_TIMES[i]) && InBreak(t)(BREAK_WINDOWS[j])
    ensures i == j && t == PERIOD_TIMES[i].end
  {
    BreaksSitBetweenPeriods(j);
    if j < i {
      PeriodTimeRow(j + 1);
      if j + 1 < i {
        PeriodsDisjoint(t, j + 1, i);
      }
    } else if i < j {
      PeriodTimeRow(j);
      PeriodsDisjoint(t, i, j);
    }
  }

  /** A minute of a period other than its last is in no break. */
  lemma NoBreakDuringPeriod(t: int, i: int)
    requires 0 <= i < |PERIOD_TIMES| && PERIOD_TIMES[i].start <= t < PERIOD_TIMES[i].end
    ensures BreakAt(t) == BreakInfo(false, "", None)
  {
    if BreakAt(t).isBreak {
      BreakAtFound(t);
      PeriodMeetsBreak(t, i, BreakAt(t).nextPeriod.value - 2);
    }
  }

  /** Because periods end inclusively and breaks start inclusively, a minute
      is at once in a period and in a break exactly at the seven period
      ends 540, 600, 660, 720, 830, 890 and 955, and then the break is the
      one leading into the next period. */
  lemma ClassAndBreakOverlap(t: int)
    ensures PeriodAt(t).Some? && BreakAt(t).isBreak <==> t in OVERLAP_MINUTES
    ensures PeriodAt(t).Some? && BreakAt(t).isBreak ==> BreakAt(t).nextPeriod == Some(PeriodAt(t).value + 1)
  {
    var p := PeriodAt(t);
    var b := BreakAt(t);
    if p.Some? && b.isBreak {
      var k := p.value;
      var m := b.nextPeriod.value;
      PeriodAtIff(t, k);
      BreakAtIff(t, m);
      PeriodMeetsBreak(t, k - 1, m - 2);
      BreaksSitBetweenPeriods(k - 1);
    }
    if t in OVERLAP_MINUTES {
      var k :| 0 <= k < 7 && OVERLAP_MINUTES[k] == t;
      BreaksSitBetweenPeriods(k);
      PeriodAtIff(t, k + 1);
      PeriodTimeRow(k);
      BreakAtIff(t, k + 2);
    }
  }

  /** The entry announced as next during a break is the one that becomes
      current when the following period starts. */
  lemma NextClassBecomesCurrent(schedule: seq<ScheduleItem>, now: Moment, k: int)
    requires InBreakPeriod(now).nextPeriod == Some(k)
    ensures NextClass(schedule, now) ==
              CurrentClass(schedule, Moment(now.day, PERIOD_TIMES[k - 1].start / 60, PERIOD_TIMES[k - 1].start % 60))
  {
    var s := PERIOD_TIMES[k - 1].start;
    var later := Moment(now.day, s / 60, s % 60);
    assert MinuteOfDay(later) == s;
    var info := InBreakPeriod(now);
    assert info.isBreak;
    assert 2 <= k <= 8 by {
      assert info == BreakAt(MinuteOfDay(now));
    }
    PeriodTimeRow(k - 1);
    PeriodAtIff(s, k);
    var day := WeekdayOf(now.day);
    assert CurrentTime(later) == DayPeriod(day, Some(k));
    assert CurrentTime(now).day == day;
    assert NextClass(schedule, now) == if day == "" then None else FindEntry(schedule, day, k);
    assert CurrentClass(schedule, later) == if day == "" then None else FindEntry(schedule, day, k);
  }
}
