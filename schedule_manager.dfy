/**
 * The React side's ScheduleManager (src/services/ScheduleManager.ts): a
 * once-a-minute check, aligned to the minute, that turns Zen mode on when
 * one of today's enabled schedules covers the current minute and off when
 * none does.  It keeps its own `isZenModeActive` flag and mirrors every
 * change into the Zen timer store.
 *
 * Time is the day of the week (0 = Sunday .. 6 = Saturday, as Date.getDay)
 * and the milliseconds since local midnight; time zones and daylight
 * saving are outside the model.  The timer library, the database query,
 * the native blocker and the audio are parameters and recorded effects.
 */
module ScheduleService {
  import opened Common
  import Sorting
  import ZenStore

  const MINUTE_MS: int := 60_000
  /** The length used when a matching schedule has less than a second left. */
  const FALLBACK_SECONDS: int := 60

  // ---------------------------------------------------------------------
  // Reading "HH:mm"
  // ---------------------------------------------------------------------

  /**
   * Number(s) on one field of a time: surrounding whitespace is ignored,
   * an empty field is 0, an optionally signed run of decimal digits is its
   * value, and anything else is NaN (None).
   */
  function JsNumber(s: string): (r: Option<int>)
    ensures IsBlank(s) ==> r == Some(0)
  {
    var t := Trim(s);
    BlankIffTrimEmpty(s);
    if t == [] then Some(0)
    else if AllDigits(t) then Some(DigitsValue(t))
    else if |t| > 1 && (t[0] == '-' || t[0] == '+') && AllDigits(t[1..]) then
      Some(if t[0] == '-' then -(DigitsValue(t[1..]) as int) else DigitsValue(t[1..]))
    else None
  }

  /**
   * `h * 60 + m` for `const [h, m] = time.split(':').map(Number)`: NaN
   * (None) when either field is NaN or the minute is missing, since
   * arithmetic on undefined is NaN.
   */
  function MinuteOfDay(time: string): (r: Option<int>)
    ensures r.Some? ==> |Split(time, ':')| >= 2
  {
    var parts := Split(time, ':');
    if |parts| < 2 then None
    else
      match (JsNumber(parts[0]), JsNumber(parts[1]))
      case (Some(h), Some(m)) => Some(h * 60 + m)
      case _ => None
  }

  /** A run of decimal digits reads as its value. */
  lemma JsNumberOfDigits(s: string)
    requires |s| > 0 && AllDigits(s)
    ensures JsNumber(s) == Some(DigitsValue(s))
  {
    DigitsTrimmed(s);
  }

  /** A well-formed "HH:mm" gives the minute of the day it spells. */
  lemma MinuteOfDayOfPadded(h: int, m: int)
    requires 0 <= h <= 23 && 0 <= m <= 59
    ensures MinuteOfDay(Pad2(h) + ":" + Pad2(m)) == Some(h * 60 + m)
  {
    var a, b := Pad2(h), Pad2(m);
    assert ':' !in a && ':' !in b;
    JsNumberOfDigits(a);
    JsNumberOfDigits(b);
    MinuteOfDayOfFields(a, b, h, m);
  }

  /** Two colon-free fields reading as numbers give hours * 60 + minutes. */
  lemma MinuteOfDayOfFields(a: string, b: string, h: int, m: int)
    requires ':' !in a && ':' !in b
    requires JsNumber(a) == Some(h) && JsNumber(b) == Some(m)
    ensures MinuteOfDay(a + ":" + b) == Some(h * 60 + m)
  {
    SplitPair(a, b, ':');
  }

  // ---------------------------------------------------------------------
  // Matching
  // ---------------------------------------------------------------------

  /** A row of the schedules table. */
  datatype ScheduleRow = ScheduleRow(name: string, dayOfWeek: int, startTime: string, endTime: string, isEnabled: bool)

  /** The query: today's enabled rows, in table order. */
  function TodaysSchedules(rows: seq<ScheduleRow>, dayOfWeek: int): (r: seq<ScheduleRow>)
    ensures forall i :: 0 <= i < |r| ==> r[i] in rows && r[i].dayOfWeek == dayOfWeek && r[i].isEnabled
    ensures forall i :: 0 <= i < |rows| && rows[i].dayOfWeek == dayOfWeek && rows[i].isEnabled ==> rows[i] in r
  {
    Sorting.Filter(rows, IsTodays(dayOfWeek))
  }

  /** The query's condition: the row is enabled and set for `dayOfWeek`. */
  function IsTodays(dayOfWeek: int): ScheduleRow -> bool
  {
    (s: ScheduleRow) => s.dayOfWeek == dayOfWeek && s.isEnabled
  }

  /**
   * The query keeps table order: the rows of `a + b` come out as those of
   * `a` followed by those of `b`, and a single row is kept exactly when it
   * is enabled and set for today.
   */
  lemma {:induction false} TodaysSchedulesInTableOrder(a: seq<ScheduleRow>, b: seq<ScheduleRow>, dayOfWeek: int)
    ensures TodaysSchedules(a + b, dayOfWeek) == TodaysSchedules(a, dayOfWeek) + TodaysSchedules(b, dayOfWeek)
    ensures forall row :: TodaysSchedules([row], dayOfWeek) == if row.dayOfWeek == dayOfWeek && row.isEnabled then [row] else []
  {
    Sorting.FilterAppend(a, b, IsTodays(dayOfWeek));
  }

  /** start <= now < end, in minutes of the day; a NaN bound never compares true. */
  predicate Covers(s: ScheduleRow, currentTime: int)
  {
    && MinuteOfDay(s.startTime).Some? && MinuteOfDay(s.endTime).Some?
    && MinuteOfDay(s.startTime).value <= currentTime < MinuteOfDay(s.endTime).value
  }

  /** A range that ends at or before its start, such as an overnight one, covers no minute at all. */
  lemma OvernightNeverCovers(s: ScheduleRow, currentTime: int)
    requires MinuteOfDay(s.startTime).Some? && MinuteOfDay(s.endTime).Some?
    requires MinuteOfDay(s.endTime).value <= MinuteOfDay(s.startTime).value
    ensures !Covers(s, currentTime)
  {
  }

  /** Covers, as a test on rows for one minute. */
  function CoversAt(currentTime: int): ScheduleRow -> bool
  {
    s => Covers(s, currentTime)
  }

  /** The index of the first of `schedules` that covers the minute. */
  function FirstCovering(schedules: seq<ScheduleRow>, currentTime: int): (r: Option<nat>)
    ensures r.Some? ==> r.value < |schedules| && Covers(schedules[r.value], currentTime)
    ensures r.Some? ==> forall j :: 0 <= j < r.value ==> !Covers(schedules[j], currentTime)
    ensures r.None? ==> forall j :: 0 <= j < |schedules| ==> !Covers(schedules[j], currentTime)
  {
    var r := Sorting.FirstIndex(schedules, CoversAt(currentTime));
    assert r.Some? ==> CoversAt(currentTime)(schedules[r.value]);
    r
  }

  /** checkSchedules' loop: the first schedule that covers the minute, with `break`. */
  method FindActiveSchedule(schedules: seq<ScheduleRow>, currentTime: int) returns (active: Option<nat>)
    ensures active == FirstCovering(schedules, currentTime)
  {
    var p := CoversAt(currentTime);
    var i := 0;
    while i < |schedules|
      invariant 0 <= i <= |schedules|
      invariant forall j :: 0 <= j < i ==> !Covers(schedules[j], currentTime)
    {
      if Covers(schedules[i], currentTime) {
        Sorting.FirstIndexIs(schedules, p, i);
        return Some(i);
      }
      i := i + 1;
    }
    Sorting.FirstIndexNone(schedules, p);
    return None;
  }

  // ---------------------------------------------------------------------
  // Timing
  // ---------------------------------------------------------------------

  /** The wait until the next minute boundary: 60000 - t % 60000. */
  function AlignmentDelay(nowMs: int): (d: int)
    ensures nowMs >= 0 ==> 1 <= d <= MINUTE_MS && (nowMs + d) % MINUTE_MS == 0
  {
    MINUTE_MS - TruncRem(nowMs, MINUTE_MS)
  }

  /**
   * The session length for a schedule ending at minute `endMinute`:
   * the whole seconds until then (Math.floor), or 60 when that is not
   * positive.
   */
  function ActivationSeconds(endMinute: int, nowMsOfDay: int): (secs: int)
    ensures secs >= 1
    ensures endMinute * MINUTE_MS - nowMsOfDay >= 1000 ==>
              secs * 1000 <= endMinute * MINUTE_MS - nowMsOfDay < (secs + 1) * 1000
    ensures endMinute * MINUTE_MS - nowMsOfDay < 1000 ==> secs == FALLBACK_SECONDS
  {
    var diffInSec := (endMinute * MINUTE_MS - nowMsOfDay) / 1000;
    if diffInSec > 0 then diffInSec else FALLBACK_SECONDS
  }

  /**
   * A session started for a covering schedule ends no later than the
   * schedule does, except in the schedule's last second, when it runs for
   * the 60-second fallback instead.
   */
  lemma SessionWithinSchedule(s: ScheduleRow, nowMsOfDay: int)
    requires Covers(s, nowMsOfDay / MINUTE_MS)
    ensures var end := MinuteOfDay(s.endTime).value;
            var secs := ActivationSeconds(end, nowMsOfDay);
            (nowMsOfDay + secs * 1000 <= end * MINUTE_MS)
            || (end * MINUTE_MS - nowMsOfDay < 1000 && secs == FALLBACK_SECONDS)
    ensures MinuteOfDay(s.endTime).value * MINUTE_MS - nowMsOfDay > 0
  {
  }

  // ---------------------------------------------------------------------
  // The service
  // ---------------------------------------------------------------------

  datatype ScheduleEffect =
    | CheckQueued
    | AlignmentScheduled(delayMs: int)
    | IntervalCleared(id: int)
    | NativeBlockList(packages: seq<string>)
    | NativeBlockEnabled(enabled: bool)
    | FlutePlayed

  class ScheduleManagerService {
    /** The repeating timer's id; JavaScript treats a 0 id as no timer. */
    var timerId: Option<int>
    var isZenModeActive: bool
    /** Alignment timeouts scheduled by start and not yet fired. */
    var pendingAlignments: nat
    /** Repeating timers that are running, including any no field refers to any more. */
    var liveIntervals: set<int>
    var effects: seq<ScheduleEffect>
    const store: ZenStore.Store

    constructor (store: ZenStore.Store)
      ensures this.store == store
      ensures timerId == None && !isZenModeActive && pendingAlignments == 0 && liveIntervals == {} && effects == []
    {
      this.store := store;
      timerId, isZenModeActive, pendingAlignments, liveIntervals, effects := None, false, 0, {}, [];
    }

    /** `if (this.timerId)`. */
    predicate TimerSet()
      reads this
    {
      timerId.Some? && timerId.value != 0
    }

    /**
     * start: a no-op once the repeating timer is installed; otherwise it
     * queues a check now and one at the next minute boundary.  Until that
     * boundary no timer id is recorded, so a second start in that window
     * schedules a second alignment.
     */
    method Start(nowMs: int)
      modifies this
      ensures old(TimerSet()) ==>
                timerId == old(timerId) && pendingAlignments == old(pendingAlignments) && effects == old(effects)
      ensures !old(TimerSet()) ==>
                pendingAlignments == old(pendingAlignments) + 1
                && effects == old(effects) + [CheckQueued, AlignmentScheduled(AlignmentDelay(nowMs))]
      ensures timerId == old(timerId) && liveIntervals == old(liveIntervals) && isZenModeActive == old(isZenModeActive)
    {
      if TimerSet() {
        return;
      }
      effects := effects + [CheckQueued, AlignmentScheduled(AlignmentDelay(nowMs))];
      pendingAlignments := pendingAlignments + 1;
    }

    /** An alignment timeout fires: a check now, and a repeating one-minute timer from here on. */
    method AlignmentFired(intervalId: int)
      requires pendingAlignments > 0
      modifies this
      ensures pendingAlignments == old(pendingAlignments) - 1
      ensures timerId == Some(intervalId) && liveIntervals == old(liveIntervals) + {intervalId}
      ensures effects == old(effects) + [CheckQueued]
      ensures isZenModeActive == old(isZenModeActive)
    {
      pendingAlignments := pendingAlignments - 1;
      effects := effects + [CheckQueued];
      timerId := Some(intervalId);
      liveIntervals := liveIntervals + {intervalId};
    }

    /** A running repeating timer ticks: another check. */
    method IntervalTick(id: int)
      requires id in liveIntervals
      modifies this
      ensures effects == old(effects) + [CheckQueued]
      ensures timerId == old(timerId) && liveIntervals == old(liveIntervals) && pendingAlignments == old(pendingAlignments)
      ensures isZenModeActive == old(isZenModeActive)
    {
      effects := effects + [CheckQueued];
    }

    /**
     * stop: clears the recorded repeating timer, and does nothing without
     * one.  A pending alignment timeout is not cancelled.
     */
    method Stop()
      modifies this
      ensures old(TimerSet()) ==>
                timerId == None && liveIntervals == old(liveIntervals) - {old(timerId).value}
                && effects == old(effects) + [IntervalCleared(old(timerId).value)]
      ensures !old(TimerSet()) ==> timerId == old(timerId) && liveIntervals == old(liveIntervals) && effects == old(effects)
      ensures pendingAlignments == old(pendingAlignments) && isZenModeActive == old(isZenModeActive)
    {
      if TimerSet() {
        effects := effects + [IntervalCleared(timerId.value)];
        liveIntervals := liveIntervals - {timerId.value};
        timerId := None;
      }
    }

    /**
     * checkSchedules.  `rows` is None when the query throws (nothing
     * happens).  A covering schedule starts a session unless one is on; no
     * covering schedule ends the session when this manager or the store
     * still has it on.
     */
    method CheckSchedules(dayOfWeek: int, nowMsOfDay: int, rows: Option<seq<ScheduleRow>>,
                          blockedPackages: Option<seq<string>>, hasSetBlockedApps: bool, hasSetBlockEnabled: bool)
      modifies this, store
      ensures timerId == old(timerId) && liveIntervals == old(liveIntervals) && pendingAlignments == old(pendingAlignments)
      ensures store.installedApps == old(store.installedApps)
      ensures rows.None? ==>
                isZenModeActive == old(isZenModeActive) && effects == old(effects)
                && store.isZenModeActive == old(store.isZenModeActive)
                && store.zenDuration == old(store.zenDuration) && store.remainingTime == old(store.remainingTime)
      ensures rows.Some? ==>
                var today := TodaysSchedules(rows.value, dayOfWeek);
                var found := FirstCovering(today, nowMsOfDay / MINUTE_MS);
                && (found.Some? && !old(isZenModeActive) ==>
                      var secs := ActivationSeconds(MinuteOfDay(today[found.value].endTime).value, nowMsOfDay);
                      isZenModeActive && store.isZenModeActive && store.zenDuration == secs && store.remainingTime == secs
                      && effects == old(effects)
                                    + (if blockedPackages.Some? && hasSetBlockedApps then [NativeBlockList(blockedPackages.value)] else [])
                                    + (if hasSetBlockEnabled then [NativeBlockEnabled(true)] else [])
                                    + [FlutePlayed])
                && (found.Some? && old(isZenModeActive) ==>
                      isZenModeActive && effects == old(effects) && store.isZenModeActive == old(store.isZenModeActive)
                      && store.zenDuration == old(store.zenDuration) && store.remainingTime == old(store.remainingTime))
                && (found.None? && (old(isZenModeActive) || old(store.isZenModeActive)) ==>
                      !isZenModeActive && !store.isZenModeActive
                      && effects == old(effects) + (if hasSetBlockEnabled then [NativeBlockEnabled(false)] else [])
                      && store.zenDuration == old(store.zenDuration) && store.remainingTime == old(store.remainingTime))
                && (found.None? && !old(isZenModeActive) && !old(store.isZenModeActive) ==>
                      !isZenModeActive && effects == old(effects) && !store.isZenModeActive
                      && store.zenDuration == old(store.zenDuration) && store.remainingTime == old(store.remainingTime))
    {
      if rows.None? {
        return;
      }
      var currentTime := nowMsOfDay / MINUTE_MS;
      var today := TodaysSchedules(rows.value, dayOfWeek);
      var found := FindActiveSchedule(today, currentTime);
      if found.Some? {
        var end := MinuteOfDay(today[found.value].endTime).value;
        var secs := ActivationSeconds(end, nowMsOfDay);
        if !isZenModeActive {
          ActivateZenMode(secs, blockedPackages, hasSetBlockedApps, hasSetBlockEnabled);
        }
      } else {
        if isZenModeActive {
          DeactivateZenMode(hasSetBlockEnabled);
        } else if store.isZenModeActive {
          DeactivateZenMode(hasSetBlockEnabled);
        }
      }
    }

    /**
     * activateZenMode: marks the session on here and in the store with the
     * given length as both duration and time left, pushes the blocked
     * packages (None when their query throws) and enables native
     * blocking when the native module offers those calls, and plays the
     * flute.
     */
    method ActivateZenMode(durationSeconds: int, blockedPackages: Option<seq<string>>,
                           hasSetBlockedApps: bool, hasSetBlockEnabled: bool)
      modifies this, store
      ensures isZenModeActive && store.isZenModeActive
      ensures store.zenDuration == durationSeconds && store.remainingTime == durationSeconds
      ensures store.installedApps == old(store.installedApps)
      ensures effects == old(effects)
                         + (if blockedPackages.Some? && hasSetBlockedApps then [NativeBlockList(blockedPackages.value)] else [])
                         + (if hasSetBlockEnabled then [NativeBlockEnabled(true)] else [])
                         + [FlutePlayed]
      ensures timerId == old(timerId) && liveIntervals == old(liveIntervals) && pendingAlignments == old(pendingAlignments)
    {
      isZenModeActive := true;
      store.SetZenDuration(durationSeconds);
      store.SetRemainingTime(durationSeconds);
      store.SetZenModeActive(true);
      if blockedPackages.Some? && hasSetBlockedApps {
        effects := effects + [NativeBlockList(blockedPackages.value)];
      }
      if hasSetBlockEnabled {
        effects := effects + [NativeBlockEnabled(true)];
      }
      effects := effects + [FlutePlayed];
    }

    /** deactivateZenMode: off here and in the store, and native blocking off when offered. */
    method DeactivateZenMode(hasSetBlockEnabled: bool)
      modifies this, store
      ensures !isZenModeActive && !store.isZenModeActive
      ensures store.zenDuration == old(store.zenDuration) && store.remainingTime == old(store.remainingTime)
      ensures store.installedApps == old(store.installedApps)
      ensures effects == old(effects) + (if hasSetBlockEnabled then [NativeBlockEnabled(false)] else [])
      ensures timerId == old(timerId) && liveIntervals == old(liveIntervals) && pendingAlignments == old(pendingAlignments)
    {
      isZenModeActive := false;
      store.SetZenModeActive(false);
      if hasSetBlockEnabled {
        effects := effects + [NativeBlockEnabled(false)];
      }
    }
  }
}
