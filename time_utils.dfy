/** The server-clock bookkeeping: one sync record and the time of the last
    sync whose response arrived, the rules that call them fresh or stale,
    and the offset classifier shown as a coloured status dot.

    Times are integer milliseconds since the epoch. Every read of the
    client clock (`Date.now()`, `new Date()`) and the result of the
    `fetch("/api/time")` call are parameters. */
module TimeUtils {
  import opened Collections

  /** 30 seconds. */
  const SYNC_INTERVAL: int := 30000

  /** What `syncWithServerTime` stores: the server's clock reading, the
      client's, the round-trip time and the estimated server-minus-client
      offset, which can be a half millisecond. */
  datatype SyncRecord = SyncRecord(serverTime: int, clientTime: int, latency: int, offset: real)

  /** How the request ended. `Failed`: the network call threw, the status
      was not ok, or the body was not JSON. `Received(t)`: a JSON body
      arrived whose `serverTime` parses to the instant `t`, or does not
      parse at all (`None`). */
  datatype FetchOutcome = Failed | Received(serverTime: Option<int>)

  /** The two module-level variables of the source. */
  datatype SyncState = SyncState(timeSync: Option<SyncRecord>, lastSyncTime: int)

  const INITIAL: SyncState := SyncState(None, 0)

  /** The record installed when the sync fails: the current client time on
      both sides, no latency, no offset. */
  function Fallback(now: int): SyncRecord
  {
    SyncRecord(now, now, 0, 0.0)
  }

  /** The record of a sync whose response arrived: the latency is the
      round-trip time and the offset assumes the server read its clock half
      way through. */
  function Measured(serverTime: int, clientTime: int, requestStart: int, requestEnd: int): (r: SyncRecord)
    ensures r.latency == requestEnd - requestStart
    ensures r.offset + clientTime as real == serverTime as real + r.latency as real / 2.0
  {
    var latency := requestEnd - requestStart;
    SyncRecord(serverTime, clientTime, latency, (serverTime - clientTime) as real + latency as real / 2.0)
  }

  /** The state after `syncWithServerTime`. A response whose time does not
      parse first stores a record with a `NaN` offset and moves
      `lastSyncTime`; logging that record then throws, and the handler
      replaces the record by the fallback but leaves `lastSyncTime` moved. */
  function AfterSync(s: SyncState, outcome: FetchOutcome, requestStart: int, requestEnd: int,
                     clientNow: int, syncedAt: int, fallbackNow: int): SyncState
  {
    match outcome
    case Failed => SyncState(Some(Fallback(fallbackNow)), s.lastSyncTime)
    case Received(None) => SyncState(Some(Fallback(fallbackNow)), syncedAt)
    case Received(Some(t)) => SyncState(Some(Measured(t, clientNow, requestStart, requestEnd)), syncedAt)
  }

  // ---------------------------------------------------------------------
  // Reading the state.

  /** `new Date(x)` keeps the integral part of `x`, rounding toward zero. */
  function Trunc(x: real): (r: int)
    ensures x >= 0.0 ==> r as real <= x < r as real + 1.0
    ensures x < 0.0 ==> r as real - 1.0 < x <= r as real
  {
    if x >= 0.0 then x.Floor else -((-x).Floor)
  }

  /** `getServerTime` at client time `now`. The source tests for staleness
      first, but both of its branches apply the stored offset; only the
      absence of a record gives the bare client time. */
  function ServerTime(s: SyncState, now: int): (r: int)
    ensures s.timeSync.None? ==> r == now
    ensures s.timeSync.Some? ==> r == Trunc(now as real + s.timeSync.value.offset)
  {
    if s.timeSync.None? || now - s.lastSyncTime > SYNC_INTERVAL then
      if s.timeSync.Some? then Trunc(now as real + s.timeSync.value.offset) else now
    else
      Trunc(now as real + s.timeSync.value.offset)
  }

  /** `getLatency`: 0 without a record. */
  function Latency(s: SyncState): (r: int)
    ensures s.timeSync.None? ==> r == 0
    ensures s.timeSync.Some? ==> r == s.timeSync.value.latency
  {
    if s.timeSync.Some? && s.timeSync.value.latency != 0 then s.timeSync.value.latency else 0
  }

  /** `getTimeOffset`: 0 without a record. */
  function TimeOffset(s: SyncState): (r: real)
    ensures s.timeSync.None? ==> r == 0.0
    ensures s.timeSync.Some? ==> r == s.timeSync.value.offset
  {
    if s.timeSync.Some? && s.timeSync.value.offset != 0.0 then s.timeSync.value.offset else 0.0
  }

  /** `isTimeSynced`: a record less than 30 s old. */
  predicate IsTimeSynced(s: SyncState, now: int)
  {
    s.timeSync.Some? && now - s.lastSyncTime < SYNC_INTERVAL
  }

  /** The condition under which `ensureTimeSync` syncs again: no record, or
      one more than 30 s old. */
  predicate NeedsResync(s: SyncState, now: int)
  {
    s.timeSync.None? || now - s.lastSyncTime > SYNC_INTERVAL
  }

  // ---------------------------------------------------------------------
  // The status classifier.

  const GRAY: string := "bg-gray-400"
  const GREEN: string := "bg-green-500"
  const YELLOW: string := "bg-yellow-500"
  const ORANGE: string := "bg-orange-500"
  const RED: string := "bg-red-500"

  const NOT_SYNCED: string := "未同步"
  const SYNC_GOOD: string := "同步良好"
  const SYNC_NORMAL: string := "同步正常"
  const SYNC_FAIR: string := "同步一般"
  const SYNC_POOR: string := "同步較差"

  function AbsReal(x: real): (r: real)
    ensures r >= 0.0 && (r == x || r == -x)
  {
    if x < 0.0 then -x else x
  }

  /** `getSyncStatusColor`. */
  function SyncStatusColor(s: SyncState): (r: string)
    ensures r == GRAY <==> s.timeSync.None?
    ensures s.timeSync.Some? ==> (r == GREEN <==> AbsReal(s.timeSync.value.offset) <= 100.0)
    ensures s.timeSync.Some? ==> (r == YELLOW <==> 100.0 < AbsReal(s.timeSync.value.offset) <= 500.0)
    ensures s.timeSync.Some? ==> (r == ORANGE <==> 500.0 < AbsReal(s.timeSync.value.offset) <= 1000.0)
    ensures s.timeSync.Some? ==> (r == RED <==> AbsReal(s.timeSync.value.offset) > 1000.0)
  {
    if s.timeSync.None? then GRAY
    else
      var offset := AbsReal(s.timeSync.value.offset);
      if offset <= 100.0 then GREEN
      else if offset <= 500.0 then YELLOW
      else if offset <= 1000.0 then ORANGE
      else RED
  }

  /** `getSyncStatusText`. */
  function SyncStatusText(s: SyncState): (r: string)
    ensures r == NOT_SYNCED <==> s.timeSync.None?
    ensures s.timeSync.Some? ==> (r == SYNC_GOOD <==> AbsReal(s.timeSync.value.offset) <= 100.0)
    ensures s.timeSync.Some? ==> (r == SYNC_NORMAL <==> 100.0 < AbsReal(s.timeSync.value.offset) <= 500.0)
    ensures s.timeSync.Some? ==> (r == SYNC_FAIR <==> 500.0 < AbsReal(s.timeSync.value.offset) <= 1000.0)
    ensures s.timeSync.Some? ==> (r == SYNC_POOR <==> AbsReal(s.timeSync.value.offset) > 1000.0)
  {
    if s.timeSync.None? then NOT_SYNCED
    else
      var offset := AbsReal(s.timeSync.value.offset);
      if offset <= 100.0 then SYNC_GOOD
      else if offset <= 500.0 then SYNC_NORMAL
      else if offset <= 1000.0 then SYNC_FAIR
      else SYNC_POOR
  }

  /** The dot colour that goes with each status text. */
  function ColorForText(text: string): string
  {
    if text == NOT_SYNCED then GRAY
    else if text == SYNC_GOOD then GREEN
    else if text == SYNC_NORMAL then YELLOW
    else if text == SYNC_FAIR then ORANGE
    else RED
  }

  /** The status text that goes with each dot colour. */
  function TextForColor(color: string): string
  {
    if color == GRAY then NOT_SYNCED
    else if color == GREEN then SYNC_GOOD
    else if color == YELLOW then SYNC_NORMAL
    else if color == ORANGE then SYNC_FAIR
    else SYNC_POOR
  }

  /** How bad a status colour is, from 0 (good) to 3 (poor); gray is -1. */
  function Severity(color: string): int
  {
    if color == GREEN then 0
    else if color == YELLOW then 1
    else if color == ORANGE then 2
    else if color == RED then 3
    else -1
  }

  // ---------------------------------------------------------------------
  // The state that the source keeps in two module-level variables.

  class TimeSyncClock {
    var timeSync: Option<SyncRecord>
    var lastSyncTime: int

    function State(): SyncState
      reads this
    {
      SyncState(timeSync, lastSyncTime)
    }

    /** Module load: no record, last sync at 0. */
    constructor ()
      ensures State() == INITIAL
    {
      timeSync := None;
      lastSyncTime := 0;
    }

    /** `syncWithServerTime`, after `fetch` has produced `outcome`.
        `requestStart` and `requestEnd` are the clock readings around the
        request, `clientNow` the one taken after the body was parsed,
        `syncedAt` the one stored as the sync time and `fallbackNow` the one
        taken in the error handler. */
    method SyncWithServerTime(outcome: FetchOutcome, requestStart: int, requestEnd: int,
                              clientNow: int, syncedAt: int, fallbackNow: int) returns (rec: SyncRecord)
      modifies this
      ensures State() == AfterSync(old(State()), outcome, requestStart, requestEnd, clientNow, syncedAt, fallbackNow)
      ensures timeSync == Some(rec)
    {
      if outcome.Received? {
        var latency := requestEnd - requestStart;
        if outcome.serverTime.Some? {
          var serverTime := outcome.serverTime.value;
          var offset := (serverTime - clientNow) as real + latency as real / 2.0;
          rec := SyncRecord(serverTime, clientNow, latency, offset);
          timeSync := Some(rec);
          lastSyncTime := syncedAt;
          return;
        }
        // The record with a NaN offset is stored and the clock read, and
        // the log statement that follows throws.
        lastSyncTime := syncedAt;
      }
      rec := Fallback(fallbackNow);
      timeSync := Some(rec);
    }

    /** `ensureTimeSync`: syncs when there is no record or it is more than
        30 s old, and otherwise changes nothing. */
    method EnsureTimeSync(now: int, outcome: FetchOutcome, requestStart: int, requestEnd: int,
                          clientNow: int, syncedAt: int, fallbackNow: int)
      modifies this
      ensures old(NeedsResync(State(), now)) ==>
                State() == AfterSync(old(State()), outcome, requestStart, requestEnd, clientNow, syncedAt, fallbackNow)
      ensures !old(NeedsResync(State(), now)) ==> State() == old(State())
    {
      if timeSync.None? || now - lastSyncTime > SYNC_INTERVAL {
        var _ := SyncWithServerTime(outcome, requestStart, requestEnd, clientNow, syncedAt, fallbackNow);
      }
    }
  }

  // ---------------------------------------------------------------------
  // Properties.

  /** A state that counts as synced never asks for a resync. */
  lemma SyncedNeedsNoResync(s: SyncState, now: int)
    requires IsTimeSynced(s, now)
    ensures !NeedsResync(s, now)
  {
  }

  /** With a record, exactly one of "synced" and "needs resync" holds,
      except at exactly 30 s after the last sync, where neither does. */
  lemma FreshnessBoundary(s: SyncState, now: int)
    requires s.timeSync.Some?
    ensures IsTimeSynced(s, now) != NeedsResync(s, now) <==> now - s.lastSyncTime != SYNC_INTERVAL
    ensures now - s.lastSyncTime == SYNC_INTERVAL ==> !IsTimeSynced(s, now) && !NeedsResync(s, now)
  {
  }

  /** Every sync leaves a record behind, so the status is never gray after
      one. */
  lemma SyncLeavesRecord(s: SyncState, outcome: FetchOutcome, requestStart: int, requestEnd: int,
                         clientNow: int, syncedAt: int, fallbackNow: int)
    ensures var t := AfterSync(s, outcome, requestStart, requestEnd, clientNow, syncedAt, fallbackNow);
      t.timeSync.Some? && SyncStatusColor(t) != GRAY && SyncStatusText(t) != NOT_SYNCED
  {
  }

  /** A successful sync stores latency `end - start`, estimates the server
      clock at `clientNow` as the server's reading plus half the round trip,
      and counts as synced, without asking for a resync, for the next 30 s. */
  lemma SuccessfulSync(s: SyncState, t: int, requestStart: int, requestEnd: int,
                       clientNow: int, syncedAt: int, fallbackNow: int, now: int)
    requires syncedAt <= now < syncedAt + SYNC_INTERVAL
    ensures var u := AfterSync(s, Received(Some(t)), requestStart, requestEnd, clientNow, syncedAt, fallbackNow);
      && Latency(u) == requestEnd - requestStart
      && ServerTime(u, clientNow) == Trunc(t as real + (requestEnd - requestStart) as real / 2.0)
      && u.lastSyncTime == syncedAt
      && IsTimeSynced(u, now) && !NeedsResync(u, now)
  {
    var u := AfterSync(s, Received(Some(t)), requestStart, requestEnd, clientNow, syncedAt, fallbackNow);
    var r := u.timeSync.value;
    assert clientNow as real + r.offset == t as real + (requestEnd - requestStart) as real / 2.0;
  }

  /** A failed request stores the fallback record and keeps the old sync
      time, so a state that needed a resync still needs one. The fallback
      has no latency and no offset: the server time is the client time and
      the status reads as the best one. */
  lemma FailedSync(s: SyncState, requestStart: int, requestEnd: int,
                   clientNow: int, syncedAt: int, fallbackNow: int, now: int)
    ensures var u := AfterSync(s, Failed, requestStart, requestEnd, clientNow, syncedAt, fallbackNow);
      && u.lastSyncTime == s.lastSyncTime
      && (now - s.lastSyncTime > SYNC_INTERVAL ==> NeedsResync(u, now))
      && Latency(u) == 0 && TimeOffset(u) == 0.0
      && ServerTime(u, now) == now
      && SyncStatusColor(u) == GREEN && SyncStatusText(u) == SYNC_GOOD
  {
    var u := AfterSync(s, Failed, requestStart, requestEnd, clientNow, syncedAt, fallbackNow);
    assert Trunc(now as real + 0.0) == now;
  }

  /** A response whose time does not parse ends with the fallback record
      but with the sync time moved, so it counts as synced for 30 s. */
  lemma UnparsableServerTime(s: SyncState, requestStart: int, requestEnd: int,
                             clientNow: int, syncedAt: int, fallbackNow: int, now: int)
    requires syncedAt <= now < syncedAt + SYNC_INTERVAL
    ensures var u := AfterSync(s, Received(None), requestStart, requestEnd, clientNow, syncedAt, fallbackNow);
      && u.timeSync == Some(Fallback(fallbackNow))
      && IsTimeSynced(u, now)
      && ServerTime(u, now) == now
  {
    assert Trunc(now as real + 0.0) == now;
  }

  /** The server time is the client time moved by the offset, to within a
      millisecond, whether the record is fresh or stale. */
  lemma ServerTimeNearOffset(s: SyncState, now: int)
    requires s.timeSync.Some?
    ensures var x := now as real + s.timeSync.value.offset;
      AbsReal(ServerTime(s, now) as real - x) < 1.0
  {
  }

  /** The server time does not depend on whether the record is stale. */
  lemma ServerTimeIgnoresStaleness(s: SyncState, now: int, last: int)
    ensures ServerTime(s, now) == ServerTime(SyncState(s.timeSync, last), now)
  {
  }

  /** Colour and text are chosen by the same thresholds: each determines
      the other. */
  lemma StatusColorMatchesText(s: SyncState)
    ensures TextForColor(SyncStatusColor(s)) == SyncStatusText(s)
    ensures ColorForText(SyncStatusText(s)) == SyncStatusColor(s)
  {
  }

  /** Two states show the same colour exactly when they show the same text. */
  lemma StatusOneToOne(s: SyncState, t: SyncState)
    ensures SyncStatusColor(s) == SyncStatusColor(t) <==> SyncStatusText(s) == SyncStatusText(t)
  {
    StatusColorMatchesText(s);
    StatusColorMatchesText(t);
  }

  /** A larger offset never gives a better colour. */
  lemma StatusMonotone(s: SyncState, t: SyncState)
    requires s.timeSync.Some? && t.timeSync.Some?
    requires AbsReal(s.timeSync.value.offset) <= AbsReal(t.timeSync.value.offset)
    ensures 0 <= Severity(SyncStatusColor(s)) <= Severity(SyncStatusColor(t)) <= 3
  {
  }

  /** Offsets at the thresholds: 100 ms is still good, 100.5 ms is not, and
      so on up to 1000 ms. */
  lemma StatusThresholds(r: SyncRecord)
    ensures AbsReal(r.offset) == 100.0 ==> SyncStatusText(SyncState(Some(r), 0)) == SYNC_GOOD
    ensures AbsReal(r.offset) == 100.5 ==> SyncStatusText(SyncState(Some(r), 0)) == SYNC_NORMAL
    ensures AbsReal(r.offset) == 500.0 ==> SyncStatusText(SyncState(Some(r), 0)) == SYNC_NORMAL
    ensures AbsReal(r.offset) == 1000.0 ==> SyncStatusText(SyncState(Some(r), 0)) == SYNC_FAIR
    ensures AbsReal(r.offset) == 1000.5 ==> SyncStatusText(SyncState(Some(r), 0)) == SYNC_POOR
  {
  }

  /** Before the first sync there is no record: the status is gray and
      "not synced", a resync is due, and the server time is the client
      time. */
  lemma InitialState(now: int)
    ensures NeedsResync(INITIAL, now) && !IsTimeSynced(INITIAL, now)
    ensures SyncStatusColor(INITIAL) == GRAY && SyncStatusText(INITIAL) == NOT_SYNCED
    ensures ServerTime(INITIAL, now) == now && Latency(INITIAL) == 0 && TimeOffset(INITIAL) == 0.0
  {
  }
}
