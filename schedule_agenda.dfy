/** The day views of the timetable: one weekday's entries ordered by period
    (`getScheduleByDay`) and the full day agenda with the breaks interleaved
    (`getDailyScheduleWithBreaks`). */
module ScheduleAgenda {
  import opened Collections
  import opened ScheduleUtils

  function OnDay(day: string): ScheduleItem -> bool
  {
    (item: ScheduleItem) => item.weekday == day
  }

  function AtPeriod(period: int): ScheduleItem -> bool
  {
    (item: ScheduleItem) => item.period == period
  }

  predicate SortedByPeriod(s: seq<ScheduleItem>)
  {
    forall i, j :: 0 <= i < j < |s| ==> s[i].period <= s[j].period
  }

  /** Places `x` before the first element whose period is not smaller, so
      that `x` stays ahead of the entries with the same period. */
  function Insert(x: ScheduleItem, s: seq<ScheduleItem>): (r: seq<ScheduleItem>)
    ensures |r| == |s| + 1
    ensures multiset(r) == multiset(s) + multiset{x}
  {
    if |s| == 0 || x.period <= s[0].period then [x] + s
    else
      assert s == [s[0]] + s[1..];
      [s[0]] + Insert(x, s[1..])
  }

  lemma {:induction false} InsertSorted(x: ScheduleItem, s: seq<ScheduleItem>)
    requires SortedByPeriod(s)
    ensures SortedByPeriod(Insert(x, s))
  {
    if |s| > 0 && s[0].period < x.period {
      var t := Insert(x, s[1..]);
      InsertSorted(x, s[1..]);
      InsertAbove(x, s[1..], s[0].period);
      assert Insert(x, s) == [s[0]] + t;
    }
  }

  /** Inserting into entries whose periods are all at least `b` an entry whose
      period is at least `b` keeps them all at least `b`. */
  lemma {:induction false} InsertAbove(x: ScheduleItem, s: seq<ScheduleItem>, b: int)
    requires b <= x.period && forall i :: 0 <= i < |s| ==> b <= s[i].period
    ensures forall i :: 0 <= i < |Insert(x, s)| ==> b <= Insert(x, s)[i].period
  {
    if |s| > 0 && s[0].period < x.period {
      InsertAbove(x, s[1..], b);
      assert Insert(x, s) == [s[0]] + Insert(x, s[1..]);
    }
  }

  /** The stable sort `sort((a, b) => a.節次 - b.節次)`. JavaScript's sort is
      stable, and a stable sort by a key has only one possible result, so
      insertion sort computes exactly what the source computes. */
  function SortByPeriod(s: seq<ScheduleItem>): (r: seq<ScheduleItem>)
    ensures |r| == |s|
    ensures multiset(r) == multiset(s)
    ensures SortedByPeriod(r)
  {
    if |s| == 0 then []
    else
      assert s == [s[0]] + s[1..];
      InsertSorted(s[0], SortByPeriod(s[1..]));
      Insert(s[0], SortByPeriod(s[1..]))
  }

  lemma {:induction false} InsertKeepsPeriodOrder(x: ScheduleItem, s: seq<ScheduleItem>, p: int)
    ensures Filter(Insert(x, s), AtPeriod(p)) == (if x.period == p then [x] else []) + Filter(s, AtPeriod(p))
  {
    if |s| == 0 || x.period <= s[0].period {
      assert ([x] + s)[1..] == s;
    } else {
      var t := Insert(x, s[1..]);
      InsertKeepsPeriodOrder(x, s[1..], p);
      assert ([s[0]] + t)[1..] == t;
    }
  }

  /** The sort is stable: the entries of any one period keep their order. */
  lemma {:induction false} SortIsStable(s: seq<ScheduleItem>, p: int)
    ensures Filter(SortByPeriod(s), AtPeriod(p)) == Filter(s, AtPeriod(p))
  {
    if |s| > 0 {
      SortIsStable(s[1..], p);
      InsertKeepsPeriodOrder(s[0], SortByPeriod(s[1..]), p);
    }
  }

  /** `getScheduleByDay`: the entries of `day`, ordered by period. */
  function ScheduleByDay(schedule: seq<ScheduleItem>, day: string): (r: seq<ScheduleItem>)
    ensures multiset(r) == multiset(Filter(schedule, OnDay(day)))
    ensures SortedByPeriod(r)
    ensures forall i :: 0 <= i < |r| ==> r[i] in schedule && r[i].weekday == day
    ensures forall i :: 0 <= i < |schedule| && schedule[i].weekday == day ==> schedule[i] in r
  {
    var f := Filter(schedule, OnDay(day));
    var r := SortByPeriod(f);
    DayEntriesSound(schedule, day, r);
    DayEntriesComplete(schedule, day, r);
    r
  }

  /** Any rearrangement of the day's filtered entries holds only entries
      of the dataset for that day. */
  lemma DayEntriesSound(schedule: seq<ScheduleItem>, day: string, r: seq<ScheduleItem>)
    requires multiset(r) == multiset(Filter(schedule, OnDay(day)))
    ensures forall i :: 0 <= i < |r| ==> r[i] in schedule && r[i].weekday == day
  {
    var f := Filter(schedule, OnDay(day));
    FilterSatisfies(schedule, OnDay(day));
    FilterSubMultiset(schedule, OnDay(day));
    forall i | 0 <= i < |r|
      ensures r[i] in schedule && r[i].weekday == day
    {
      var x := r[i];
      assert x in multiset(f);
      assert x in multiset(schedule);
      var j :| 0 <= j < |f| && f[j] == x;
      assert OnDay(day)(f[j]);
    }
  }

  /** Any rearrangement of the day's filtered entries holds every entry of
      the dataset for that day. */
  lemma DayEntriesComplete(schedule: seq<ScheduleItem>, day: string, r: seq<ScheduleItem>)
    requires multiset(r) == multiset(Filter(schedule, OnDay(day)))
    ensures forall i :: 0 <= i < |schedule| && schedule[i].weekday == day ==> schedule[i] in r
  {
    var f := Filter(schedule, OnDay(day));
    FilterKeeps(schedule, OnDay(day));
    forall i | 0 <= i < |schedule| && schedule[i].weekday == day
      ensures schedule[i] in r
    {
      var x := schedule[i];
      assert OnDay(day)(x);
      assert x in multiset(f);
    }
  }

  /** Within one period the day's list keeps the dataset's order, so its
      first entry for a period is the one `getCurrentClass` picks. */
  lemma ScheduleByDayFirst(schedule: seq<ScheduleItem>, day: string, p: int)
    ensures Filter(ScheduleByDay(schedule, day), AtPeriod(p)) == Filter(schedule, OnDayAt(day, p))
    ensures Find(ScheduleByDay(schedule, day), AtPeriod(p)) == FindEntry(schedule, day, p)
  {
    var f := Filter(schedule, OnDay(day));
    SortIsStable(f, p);
    FilterOfFilter(schedule, OnDay(day), AtPeriod(p), OnDayAt(day, p));
    FindIsHeadOfFilter(ScheduleByDay(schedule, day), AtPeriod(p));
    FindIsHeadOfFilter(schedule, OnDayAt(day, p));
  }

  /** One synthetic break row of the agenda table. */
  datatype AgendaBreak = AgendaBreak(after: int, time: string, name: string)

  const REST := "休息"
  const LUNCH := "午休"

  const AGENDA_BREAKS: seq<AgendaBreak> := [
    AgendaBreak(1, "09:00-09:10", REST),
    AgendaBreak(2, "10:00-10:10", REST),
    AgendaBreak(3, "11:00-11:10", REST),
    AgendaBreak(4, "12:00-13:00", LUNCH),
    AgendaBreak(5, "13:50-14:00", REST),
    AgendaBreak(6, "14:50-15:05", REST),
    AgendaBreak(7, "15:55-16:05", REST)
  ]

  /** A minute of the day written `HH:MM`. */
  function Clock(m: int): (r: string)
    requires 0 <= m < 24 * 60
    ensures |r| == 5 && r[2] == ':'
  {
    var h, mm := m / 60, m % 60;
    [Digit(h / 10), Digit(h % 10), ':', Digit(mm / 10), Digit(mm % 10)]
  }

  function Digit(d: int): char
    requires 0 <= d <= 9
  {
    "0123456789"[d]
  }

  /** The agenda's break rows and the break windows of `isInBreakPeriod` are
      the same seven breaks: each displayed time is the window written as
      `HH:MM-HH:MM`, and the row is labelled 午休 exactly where the window
      is the lunch break. */
  lemma AgendaBreaksMatchWindows(k: int)
    requires 0 <= k < 7
    ensures AGENDA_BREAKS[k].time == Clock(BREAK_WINDOWS[k].start) + "-" + Clock(BREAK_WINDOWS[k].end)
    ensures AGENDA_BREAKS[k].name == LUNCH <==> BREAK_WINDOWS[k].kind == LUNCH_BREAK
    ensures AGENDA_BREAKS[k].after + 1 == BREAK_WINDOWS[k].nextPeriod
  {
    BreakWindowRow(k);
    if k < 2 {
      EarlyMorningBreakTimes(k);
    } else if k < 4 {
      LateMorningBreakTimes(k);
    } else {
      AfternoonBreakTimes(k);
    }
  }

  /** The displayed times of the breaks after periods 1 and 2. */
  lemma EarlyMorningBreakTimes(k: int)
    requires 0 <= k < 2
    ensures AGENDA_BREAKS[k].time == Clock(BREAK_WINDOWS[k].start) + "-" + Clock(BREAK_WINDOWS[k].end)
  {
    var w, g := BREAK_WINDOWS[k], AGENDA_BREAKS[k];
    if k == 0 {
      WindowText(w, g, "09:00", "09:10");
    } else {
      WindowText(w, g, "10:00", "10:10");
    }
  }

  /** The displayed times of the breaks after periods 3 and 4. */
  lemma LateMorningBreakTimes(k: int)
    requires 2 <= k < 4
    ensures AGENDA_BREAKS[k].time == Clock(BREAK_WINDOWS[k].start) + "-" + Clock(BREAK_WINDOWS[k].end)
  {
    var w, g := BREAK_WINDOWS[k], AGENDA_BREAKS[k];
    if k == 2 {
      WindowText(w, g, "11:00", "11:10");
    } else {
      WindowText(w, g, "12:00", "13:00");
    }
  }

  /** The displayed times of the three afternoon breaks. */
  lemma AfternoonBreakTimes(k: int)
    requires 4 <= k < 7
    ensures AGENDA_BREAKS[k].time == Clock(BREAK_WINDOWS[k].start) + "-" + Clock(BREAK_WINDOWS[k].end)
  {
    var w, g := BREAK_WINDOWS[k], AGENDA_BREAKS[k];
    if k == 4 {
      WindowText(w, g, "13:50", "14:00");
    } else if k == 5 {
      WindowText(w, g, "14:50", "15:05");
    } else {
      WindowText(w, g, "15:55", "16:05");
    }
  }

  lemma WindowText(w: BreakWindow, g: AgendaBreak, from: string, to: string)
    requires 0 <= w.start < 24 * 60 && 0 <= w.end < 24 * 60
    requires Clock(w.start) == from && Clock(w.end) == to
    requires g.time == from + "-" + to
    ensures g.time == Clock(w.start) + "-" + Clock(w.end)
  {
  }

  /** A row of the day agenda: a timetable entry (`isBreak: false`) or a
      break after period `after` (`isBreak: true`). The source stores both
      as one record; its fields are the member functions below. */
  datatype AgendaRow =
    | ClassRow(item: ScheduleItem)
    | BreakRow(weekday: string, after: int, time: string, name: string)
  {
    /** 星期 */
    function Weekday(): string
    {
      if ClassRow? then item.weekday else weekday
    }

    /** 節次: the entry's period, or `period + 0.5` for a break. */
    function Period(): real
    {
      if ClassRow? then item.period as real else after as real + 0.5
    }

    /** 時間 */
    function Time(): string
    {
      if ClassRow? then item.time else time
    }

    /** 科目 */
    function Subject(): string
    {
      if ClassRow? then item.subject else name
    }

    predicate IsBreak()
    {
      BreakRow?
    }
  }

  const IsBreakRow: AgendaRow -> bool := (r: AgendaRow) => r.BreakRow?
  const IsClassRow: AgendaRow -> bool := (r: AgendaRow) => r.ClassRow?

  function AfterIs(period: int): AgendaBreak -> bool
  {
    (b: AgendaBreak) => b.after == period
  }

  lemma AgendaBreakRow(i: int)
    requires 0 <= i < |AGENDA_BREAKS|
    ensures AGENDA_BREAKS[i].after == i + 1
    ensures AGENDA_BREAKS[i].name == if i == 3 then LUNCH else REST
  {
    assert i == 0 || i == 1 || i == 2 || i == 3 || i == 4 || i == 5 || i == 6;
  }

  /** `breakPeriods.find((bp) => bp.after === period)`: periods 1 to 7 have
      their own row, any other period none. */
  function BreakAfter(period: int): (r: Option<AgendaBreak>)
    ensures r == if 1 <= period <= 7 then Some(AGENDA_BREAKS[period - 1]) else None
  {
    BreakAfterLookup(period);
    Find(AGENDA_BREAKS, AfterIs(period))
  }

  lemma BreakAfterLookup(period: int)
    ensures Find(AGENDA_BREAKS, AfterIs(period)) == if 1 <= period <= 7 then Some(AGENDA_BREAKS[period - 1]) else None
  {
    if 1 <= period <= 7 {
      forall i | 0 <= i < |AGENDA_BREAKS| && AfterIs(period)(AGENDA_BREAKS[i])
        ensures AGENDA_BREAKS[i] == AGENDA_BREAKS[period - 1]
      {
        AgendaBreakRow(i);
      }
      AgendaBreakRow(period - 1);
      FindUnique(AGENDA_BREAKS, AfterIs(period), AGENDA_BREAKS[period - 1]);
    } else {
      forall i | 0 <= i < |AGENDA_BREAKS|
        ensures !AfterIs(period)(AGENDA_BREAKS[i])
      {
        AgendaBreakRow(i);
      }
    }
  }

  /** What one turn of the source's loop appends for `period`. */
  function PeriodRows(daySchedule: seq<ScheduleItem>, day: string, period: int): seq<AgendaRow>
  {
    Pushes(Find(daySchedule, AtPeriod(period)), BreakAfter(period), day, period)
  }

  /** The rows pushed for the period's entry `classItem` and its break
      `breakAfter`. */
  function Pushes(classItem: Option<ScheduleItem>, breakAfter: Option<AgendaBreak>, day: string, period: int): seq<AgendaRow>
  {
    (if classItem.Some? then [ClassRow(classItem.value)] else [])
    + (if breakAfter.Some? && period < 8 then [BreakRow(day, period, breakAfter.value.time, breakAfter.value.name)] else [])
  }

  /** The agenda after the loop has handled periods 1 to `n`. */
  function AgendaUpTo(daySchedule: seq<ScheduleItem>, day: string, n: nat): seq<AgendaRow>
  {
    if n == 0 then [] else AgendaUpTo(daySchedule, day, n - 1) + PeriodRows(daySchedule, day, n)
  }

  /** The value `getDailyScheduleWithBreaks` returns. */
  function DailyAgenda(schedule: seq<ScheduleItem>, day: string): seq<AgendaRow>
  {
    AgendaUpTo(ScheduleByDay(schedule, day), day, 8)
  }

  /** `getDailyScheduleWithBreaks`: the loop over periods 1 to 8 pushing the
      period's entry, if any, and then the break after it, if any. */
  method DailyScheduleWithBreaks(schedule: seq<ScheduleItem>, day: string) returns (rows: seq<AgendaRow>)
    ensures rows == DailyAgenda(schedule, day)
  {
    var daySchedule := ScheduleByDay(schedule, day);
    rows := [];
    for period := 1 to 9
      invariant rows == AgendaUpTo(daySchedule, day, period - 1)
    {
      ghost var before := rows;
      var classItem := Find(daySchedule, AtPeriod(period));
      if classItem.Some? {
        rows := rows + [ClassRow(classItem.value)];
      }
      ghost var middle := rows;
      var breakAfter := BreakAfter(period);
      if breakAfter.Some? && period < 8 {
        rows := rows + [BreakRow(day, period, breakAfter.value.time, breakAfter.value.name)];
      }
      LoopStep(daySchedule, day, period, classItem, breakAfter, before, middle, rows);
    }
  }

  /** The two pushes of one turn append `PeriodRows`. */
  lemma LoopStep(ds: seq<ScheduleItem>, day: string, period: int, c: Option<ScheduleItem>, b: Option<AgendaBreak>,
                 before: seq<AgendaRow>, middle: seq<AgendaRow>, after: seq<AgendaRow>)
    requires 1 <= period
    requires before == AgendaUpTo(ds, day, period - 1)
    requires c == Find(ds, AtPeriod(period)) && b == BreakAfter(period)
    requires middle == if c.Some? then before + [ClassRow(c.value)] else before
    requires after == if b.Some? && period < 8 then middle + [BreakRow(day, period, b.value.time, b.value.name)] else middle
    ensures after == AgendaUpTo(ds, day, period)
  {
    assert AgendaUpTo(ds, day, period) == before + Pushes(c, b, day, period);
    if c.Some? && b.Some? && period < 8 {
      AppendTwo(before, ClassRow(c.value), BreakRow(day, period, b.value.time, b.value.name));
    } else if !c.Some? && !(b.Some? && period < 8) {
      assert before + [] == before;
    }
  }

  // ---------------------------------------------------------------------
  // What the agenda contains, stated against the dataset directly.

  /** The break row that follows period `after`: labelled 午休 after period 4
      and 休息 otherwise, with the display time of the table. */
  function ExpectedBreak(day: string, after: int): AgendaRow
    requires 1 <= after <= 7
  {
    BreakRow(day, after, AGENDA_BREAKS[after - 1].time, if after == 4 then LUNCH else REST)
  }

  /** The periods 1 to `n` for which the dataset has an entry on `day`. */
  function PeriodsWithEntry(schedule: seq<ScheduleItem>, day: string, n: int): set<int>
  {
    set p | 1 <= p <= n && FindEntry(schedule, day, p).Some?
  }

  /** The entries of a day list all belong to `day`. */
  predicate AllOnDay(ds: seq<ScheduleItem>, day: string)
  {
    forall i :: 0 <= i < |ds| ==> ds[i].weekday == day
  }

  /** The periods 1 to `n` that have an entry in the day list `ds`. */
  function PeriodsFound(ds: seq<ScheduleItem>, n: nat): set<int>
  {
    if n == 0 then {} else PeriodsFound(ds, n - 1) + (if Find(ds, AtPeriod(n)).Some? then {n} else {})
  }

  lemma {:induction false} PeriodsFoundMembers(ds: seq<ScheduleItem>, n: nat)
    ensures forall p :: p in PeriodsFound(ds, n) <==> 1 <= p <= n && Find(ds, AtPeriod(p)).Some?
  {
    if n > 0 {
      PeriodsFoundMembers(ds, n - 1);
    }
  }

  /** The rows one turn of the loop should append when `c` is the period's
      entry: its class row, if any, then the break after `p` unless `p` is
      the last period. */
  function RowsFor(c: Option<ScheduleItem>, day: string, p: int): seq<AgendaRow>
    requires 1 <= p <= 8
  {
    (if c.Some? then [ClassRow(c.value)] else []) + (if p <= 7 then [ExpectedBreak(day, p)] else [])
  }

  /** One turn of the loop appends the period's entry and the expected break. */
  lemma PeriodRowsShape(ds: seq<ScheduleItem>, day: string, p: int)
    requires 1 <= p <= 8
    ensures PeriodRows(ds, day, p) == RowsFor(Find(ds, AtPeriod(p)), day, p)
  {
    if p <= 7 {
      AgendaBreakRow(p - 1);
    }
  }

  /** The rows of one period split into at most one class row and the
      break after `p`. */
  lemma RowsForKinds(c: Option<ScheduleItem>, day: string, p: int, rs: seq<AgendaRow>)
    requires 1 <= p <= 8
    requires rs == RowsFor(c, day, p)
    ensures Filter(rs, IsBreakRow) == if p <= 7 then [ExpectedBreak(day, p)] else []
    ensures Filter(rs, IsClassRow) == if c.Some? then [ClassRow(c.value)] else []
  {
    var b: seq<AgendaRow> := if p <= 7 then [ExpectedBreak(day, p)] else [];
    assert Filter(b, IsBreakRow) == b && Filter(b, IsClassRow) == [] by {
      if p <= 7 { assert b[1..] == []; }
    }
    if c.Some? {
      assert rs == [ClassRow(c.value)] + b;
      assert rs[1..] == b;
    } else {
      assert rs == b;
    }
  }

  /** The rows of one period are for `day` and lie between `p` and
      `p + 0.5` in increasing order. */
  lemma RowsForOrder(c: Option<ScheduleItem>, day: string, p: int, rs: seq<AgendaRow>)
    requires 1 <= p <= 8
    requires c.Some? ==> c.value.period == p && c.value.weekday == day
    requires rs == RowsFor(c, day, p)
    ensures forall i :: 0 <= i < |rs| ==> p as real <= rs[i].Period() <= p as real + 0.5 && rs[i].Weekday() == day
    ensures forall i, j :: 0 <= i < j < |rs| ==> rs[i].Period() < rs[j].Period()
  {
    if c.Some? && p <= 7 {
      assert rs == [ClassRow(c.value), ExpectedBreak(day, p)];
    }
  }

  /** Everything a turn of the loop appends, for a list of `day`'s entries. */
  lemma PeriodRowsFacts(ds: seq<ScheduleItem>, day: string, p: int, rs: seq<AgendaRow>)
    requires 1 <= p <= 8 && AllOnDay(ds, day)
    requires rs == PeriodRows(ds, day, p)
    ensures Filter(rs, IsBreakRow) == if p <= 7 then [ExpectedBreak(day, p)] else []
    ensures Filter(rs, IsClassRow) == if Find(ds, AtPeriod(p)).Some? then [ClassRow(Find(ds, AtPeriod(p)).value)] else []
    ensures forall i :: 0 <= i < |rs| ==> p as real <= rs[i].Period() <= p as real + 0.5 && rs[i].Weekday() == day
    ensures forall i, j :: 0 <= i < j < |rs| ==> rs[i].Period() < rs[j].Period()
  {
    var c := Find(ds, AtPeriod(p));
    PeriodRowsShape(ds, day, p);
    if c.Some? {
      var k :| 0 <= k < |ds| && ds[k] == c.value;
    }
    RowsForKinds(c, day, p, rs);
    RowsForOrder(c, day, p, rs);
  }

  /** Rows come in strictly increasing 節次 order, every row is for `day`,
      and every row up to period `n` has 節次 between 1 and `n + 0.5`. */
  lemma {:induction false} AgendaOrdered(ds: seq<ScheduleItem>, day: string, n: nat, rows: seq<AgendaRow>)
    requires n <= 8 && AllOnDay(ds, day)
    requires rows == AgendaUpTo(ds, day, n)
    ensures forall i :: 0 <= i < |rows| ==> 1.0 <= rows[i].Period() <= n as real + 0.5 && rows[i].Weekday() == day
    ensures forall i, j :: 0 <= i < j < |rows| ==> rows[i].Period() < rows[j].Period()
  {
    if n > 0 {
      var before := AgendaUpTo(ds, day, n - 1);
      var rs := PeriodRows(ds, day, n);
      AgendaOrdered(ds, day, n - 1, before);
      PeriodRowsFacts(ds, day, n, rs);
      assert rows == before + rs;
      ConcatOrdered(before, rs, day, n);
    }
  }

  /** The rows of periods before `p` followed by the rows of period `p`
      are still for `day`, between 1 and `p + 0.5`, and strictly increasing. */
  lemma ConcatOrdered(a: seq<AgendaRow>, b: seq<AgendaRow>, day: string, p: nat)
    requires p >= 1
    requires forall i :: 0 <= i < |a| ==> 1.0 <= a[i].Period() <= (p - 1) as real + 0.5 && a[i].Weekday() == day
    requires forall i, j :: 0 <= i < j < |a| ==> a[i].Period() < a[j].Period()
    requires forall i :: 0 <= i < |b| ==> p as real <= b[i].Period() <= p as real + 0.5 && b[i].Weekday() == day
    requires forall i, j :: 0 <= i < j < |b| ==> b[i].Period() < b[j].Period()
    ensures forall i :: 0 <= i < |a + b| ==> 1.0 <= (a + b)[i].Period() <= p as real + 0.5 && (a + b)[i].Weekday() == day
    ensures forall i, j :: 0 <= i < j < |a + b| ==> (a + b)[i].Period() < (a + b)[j].Period()
  {
    var r := a + b;
    forall i | 0 <= i < |r|
      ensures 1.0 <= r[i].Period() <= p as real + 0.5 && r[i].Weekday() == day
    {
      if i >= |a| { assert r[i] == b[i - |a|]; }
    }
    forall i, j | 0 <= i < j < |r|
      ensures r[i].Period() < r[j].Period()
    {
      if j < |a| {
      } else if i >= |a| {
        assert r[i] == b[i - |a|] && r[j] == b[j - |a|];
      } else {
        assert r[j] == b[j - |a|];
      }
    }
  }

  /** The break rows up to period `n` are those of the earlier periods
      followed by the break after `n`, unless `n` is the last period. */
  lemma AgendaBreaksStep(ds: seq<ScheduleItem>, day: string, n: nat)
    requires 1 <= n <= 8 && AllOnDay(ds, day)
    ensures Filter(AgendaUpTo(ds, day, n), IsBreakRow) ==
            Filter(AgendaUpTo(ds, day, n - 1), IsBreakRow) + (if n <= 7 then [ExpectedBreak(day, n)] else [])
  {
    var before := AgendaUpTo(ds, day, n - 1);
    var rs := PeriodRows(ds, day, n);
    PeriodRowsFacts(ds, day, n, rs);
    assert AgendaUpTo(ds, day, n) == before + rs;
    FilterAppend(before, rs, IsBreakRow);
  }

  /** The breaks after periods 1 to `n`, the last period excepted. */
  function ExpectedBreaks(day: string, n: nat): seq<AgendaRow>
    requires n <= 8
  {
    if n == 0 then [] else ExpectedBreaks(day, n - 1) + (if n <= 7 then [ExpectedBreak(day, n)] else [])
  }

  lemma ExpectedBreaksStep(day: string, n: nat)
    requires 1 <= n <= 8
    ensures ExpectedBreaks(day, n) == ExpectedBreaks(day, n - 1) + (if n <= 7 then [ExpectedBreak(day, n)] else [])
  {
  }

  /** `ExpectedBreaks` lists the breaks after 1, 2, ..., at most 7 of them. */
  lemma {:induction false} ExpectedBreaksAt(day: string, n: nat)
    requires n <= 8
    ensures |ExpectedBreaks(day, n)| == if n <= 7 then n else 7
    ensures forall k :: 0 <= k < |ExpectedBreaks(day, n)| ==> ExpectedBreaks(day, n)[k] == ExpectedBreak(day, k + 1)
  {
    if n > 0 {
      ExpectedBreaksAt(day, n - 1);
    }
  }

  /** The break rows of the agenda are exactly the breaks after periods 1
      to `n` (at most 7), in that order. */
  lemma {:induction false} AgendaBreaksUpTo(ds: seq<ScheduleItem>, day: string, n: nat)
    requires n <= 8 && AllOnDay(ds, day)
    ensures Filter(AgendaUpTo(ds, day, n), IsBreakRow) == ExpectedBreaks(day, n)
  {
    if n > 0 {
      AgendaBreaksUpTo(ds, day, n - 1);
      AgendaBreaksStep(ds, day, n);
      ExpectedBreaksStep(day, n);
      SameExtension(Filter(AgendaUpTo(ds, day, n - 1), IsBreakRow), ExpectedBreaks(day, n - 1),
                    if n <= 7 then [ExpectedBreak(day, n)] else [],
                    Filter(AgendaUpTo(ds, day, n), IsBreakRow), ExpectedBreaks(day, n));
    }
  }

  /** The class rows up to period `n` are those of the earlier periods
      followed by the entry of period `n`, if it has one. */
  lemma AgendaClassesStep(ds: seq<ScheduleItem>, day: string, n: nat)
    requires 1 <= n <= 8 && AllOnDay(ds, day)
    ensures Filter(AgendaUpTo(ds, day, n), IsClassRow) ==
            Filter(AgendaUpTo(ds, day, n - 1), IsClassRow) +
            (if Find(ds, AtPeriod(n)).Some? then [ClassRow(Find(ds, AtPeriod(n)).value)] else [])
  {
    var before := AgendaUpTo(ds, day, n - 1);
    var rs := PeriodRows(ds, day, n);
    PeriodRowsFacts(ds, day, n, rs);
    assert AgendaUpTo(ds, day, n) == before + rs;
    FilterAppend(before, rs, IsClassRow);
  }

  /** The class rows for the first entries of periods 1 to `n` in `ds`. */
  function FoundClasses(ds: seq<ScheduleItem>, n: nat): seq<AgendaRow>
  {
    if n == 0 then []
    else
      var c := Find(ds, AtPeriod(n));
      FoundClasses(ds, n - 1) + (if c.Some? then [ClassRow(c.value)] else [])
  }

  /** The class rows of the agenda up to period `n` are `FoundClasses`. */
  lemma FoundClassesStep(ds: seq<ScheduleItem>, n: nat)
    requires n >= 1
    ensures FoundClasses(ds, n) == FoundClasses(ds, n - 1) +
            (if Find(ds, AtPeriod(n)).Some? then [ClassRow(Find(ds, AtPeriod(n)).value)] else [])
  {
  }

  lemma {:induction false} AgendaClassesUpTo(ds: seq<ScheduleItem>, day: string, n: nat)
    requires n <= 8 && AllOnDay(ds, day)
    ensures Filter(AgendaUpTo(ds, day, n), IsClassRow) == FoundClasses(ds, n)
  {
    if n > 0 {
      var c := Find(ds, AtPeriod(n));
      AgendaClassesUpTo(ds, day, n - 1);
      AgendaClassesStep(ds, day, n);
      FoundClassesStep(ds, n);
      SameExtension(Filter(AgendaUpTo(ds, day, n - 1), IsClassRow), FoundClasses(ds, n - 1),
                    if c.Some? then [ClassRow(c.value)] else [],
                    Filter(AgendaUpTo(ds, day, n), IsClassRow), FoundClasses(ds, n));
    }
  }

  lemma {:induction false} PeriodsFoundBelow(ds: seq<ScheduleItem>, n: nat, p: int)
    requires p > n
    ensures p !in PeriodsFound(ds, n)
  {
    if n > 0 {
      PeriodsFoundBelow(ds, n - 1, p);
    }
  }

  /** One class row per period up to `n` that has an entry. */
  lemma {:induction false} FoundClassCount(ds: seq<ScheduleItem>, n: nat)
    ensures |FoundClasses(ds, n)| == |PeriodsFound(ds, n)|
  {
    if n > 0 {
      FoundClassCount(ds, n - 1);
      PeriodsFoundBelow(ds, n - 1, n);
      FoundClassCountStep(ds, n);
    }
  }

  lemma FoundClassCountStep(ds: seq<ScheduleItem>, n: nat)
    requires n > 0
    requires |FoundClasses(ds, n - 1)| == |PeriodsFound(ds, n - 1)| && n !in PeriodsFound(ds, n - 1)
    ensures |FoundClasses(ds, n)| == |PeriodsFound(ds, n)|
  {
    var prev, before, c := FoundClasses(ds, n - 1), PeriodsFound(ds, n - 1), Find(ds, AtPeriod(n));
    var tail: seq<AgendaRow> := if c.Some? then [ClassRow(c.value)] else [];
    assert FoundClasses(ds, n) == prev + tail;
    assert PeriodsFound(ds, n) == before + (if c.Some? then {n} else {});
    CountStep(prev, tail, before, n, c.Some?);
  }

  /** Appending as many elements as are added to a disjoint set keeps the
      sizes equal. */
  lemma CountStep<T>(prev: seq<T>, tail: seq<T>, before: set<int>, n: int, has: bool)
    requires |prev| == |before| && n !in before
    requires |tail| == if has then 1 else 0
    ensures |prev + tail| == |before + (if has then {n} else {})|
  {
  }

  /** Every class row up to `n` holds the first entry of its own period. */
  lemma {:induction false} FoundClassEntries(ds: seq<ScheduleItem>, n: nat)
    ensures forall i :: 0 <= i < |FoundClasses(ds, n)| ==>
              FoundClasses(ds, n)[i].ClassRow? && 1 <= FoundClasses(ds, n)[i].item.period <= n &&
              Find(ds, AtPeriod(FoundClasses(ds, n)[i].item.period)) == Some(FoundClasses(ds, n)[i].item)
  {
    if n > 0 {
      var prev := FoundClasses(ds, n - 1);
      var c := Find(ds, AtPeriod(n));
      FoundClassEntries(ds, n - 1);
      var tail: seq<AgendaRow> := if c.Some? then [ClassRow(c.value)] else [];
      assert FoundClasses(ds, n) == prev + tail;
      forall i | 0 <= i < |FoundClasses(ds, n)|
        ensures FoundClasses(ds, n)[i].ClassRow? && 1 <= FoundClasses(ds, n)[i].item.period <= n &&
                Find(ds, AtPeriod(FoundClasses(ds, n)[i].item.period)) == Some(FoundClasses(ds, n)[i].item)
      {
        if i < |prev| {
          assert FoundClasses(ds, n)[i] == prev[i];
        } else {
          assert FoundClasses(ds, n)[i] == ClassRow(c.value);
        }
      }
    }
  }

  /** Every period up to `n` with an entry has its class row. */
  lemma {:induction false} FoundClassesComplete(ds: seq<ScheduleItem>, n: nat)
    ensures forall p :: 1 <= p <= n && Find(ds, AtPeriod(p)).Some? ==> ClassRow(Find(ds, AtPeriod(p)).value) in FoundClasses(ds, n)
  {
    if n > 0 {
      FoundClassesComplete(ds, n - 1);
      var c := Find(ds, AtPeriod(n));
      var tail: seq<AgendaRow> := if c.Some? then [ClassRow(c.value)] else [];
      assert FoundClasses(ds, n) == FoundClasses(ds, n - 1) + tail;
    }
  }

  /** The day list of `getScheduleByDay` has the same periods with an entry
      as the dataset, with the same first entries. */
  lemma DayListEntries(schedule: seq<ScheduleItem>, day: string, ds: seq<ScheduleItem>)
    requires ds == ScheduleByDay(schedule, day)
    ensures AllOnDay(ds, day)
    ensures forall p :: Find(ds, AtPeriod(p)) == FindEntry(schedule, day, p)
    ensures PeriodsFound(ds, 8) == PeriodsWithEntry(schedule, day, 8)
  {
    forall p
      ensures Find(ds, AtPeriod(p)) == FindEntry(schedule, day, p)
    {
      ScheduleByDayFirst(schedule, day, p);
    }
    PeriodsFoundMembers(ds, 8);
  }

  /** The break rows of the full agenda: seven, after periods 1 to 7 in
      order, labelled 午休 only after period 4, each with 節次 `k + 0.5`. */
  lemma DailyAgendaBreaks(schedule: seq<ScheduleItem>, day: string, breaks: seq<AgendaRow>)
    requires breaks == Filter(DailyAgenda(schedule, day), IsBreakRow)
    ensures |breaks| == 7
    ensures forall k :: 0 <= k < 7 ==> breaks[k] == ExpectedBreak(day, k + 1) && breaks[k].Period() == (k + 1) as real + 0.5
  {
    var ds := ScheduleByDay(schedule, day);
    DayListEntries(schedule, day, ds);
    AgendaBreaksUpTo(ds, day, 8);
    ExpectedBreaksAt(day, 8);
  }

  /** The class rows of the full agenda: the dataset's first entry for each
      period of `day` that has one, and no other. */
  lemma DailyAgendaClasses(schedule: seq<ScheduleItem>, day: string, classes: seq<AgendaRow>)
    requires classes == Filter(DailyAgenda(schedule, day), IsClassRow)
    ensures |classes| == |PeriodsWithEntry(schedule, day, 8)|
    ensures forall i :: 0 <= i < |classes| ==>
              classes[i].ClassRow? && FindEntry(schedule, day, classes[i].item.period) == Some(classes[i].item)
    ensures forall p :: 1 <= p <= 8 && FindEntry(schedule, day, p).Some? ==> ClassRow(FindEntry(schedule, day, p).value) in classes
  {
    var ds := ScheduleByDay(schedule, day);
    DayListEntries(schedule, day, ds);
    AgendaClassesUpTo(ds, day, 8);
    FoundClassCount(ds, 8);
    FoundClassEntries(ds, 8);
    FoundClassesComplete(ds, 8);
  }

  /** The whole agenda: rows for `day` in strictly increasing 節次, seven
      breaks plus one row per period with an entry, each of those entries
      present. */
  lemma DailyAgendaShape(schedule: seq<ScheduleItem>, day: string, rows: seq<AgendaRow>)
    requires rows == DailyAgenda(schedule, day)
    ensures forall i :: 0 <= i < |rows| ==> rows[i].Weekday() == day && 1.0 <= rows[i].Period() <= 8.5
    ensures forall i, j :: 0 <= i < j < |rows| ==> rows[i].Period() < rows[j].Period()
    ensures |rows| == 7 + |PeriodsWithEntry(schedule, day, 8)|
    ensures forall p :: 1 <= p <= 8 && FindEntry(schedule, day, p).Some? ==> ClassRow(FindEntry(schedule, day, p).value) in rows
  {
    var ds := ScheduleByDay(schedule, day);
    var classes := Filter(rows, IsClassRow);
    DayListEntries(schedule, day, ds);
    AgendaOrdered(ds, day, 8, rows);
    DailyAgendaBreaks(schedule, day, Filter(rows, IsBreakRow));
    DailyAgendaClasses(schedule, day, classes);
    FilterPartition(rows, IsBreakRow, IsClassRow);
    FilterSubMultiset(rows, IsClassRow);
    forall p | 1 <= p <= 8 && FindEntry(schedule, day, p).Some?
      ensures ClassRow(FindEntry(schedule, day, p).value) in rows
    {
      assert ClassRow(FindEntry(schedule, day, p).value) in multiset(classes);
    }
  }
}
