/**
 * The zenox ZenEngine object: the Zen session fields, their copy in
 * SharedPreferences, the schedule check that starts a session when an
 * enabled schedule covers the current minute, and the block list synced
 * to prefs before the session is switched on.
 *
 * Schedule windows here include both their start and their end minute;
 * days are numbered 1 = Monday .. 7 = Sunday, and a stored 0 counts as Sunday.
 */
module ZenoxEngine {
  import opened Common
  import opened Sorting
  import opened ZenDao
  import opened EngineCommon
  import ZentoxAlarm

  const QUICK_ZEN: string := "Quick Zen"
  const SCHEDULE_CHECK_INTERVAL_MS: int := 15_000

  // ---------------------------------------------------------------------
  // Which schedule is on now
  // ---------------------------------------------------------------------

  /** The stored day numbers with 0 (Sunday in an older numbering) read as 7. */
  function ZenoxDays(daysOfWeek: string): (r: seq<int>)
    ensures |r| == |DayNumbers(daysOfWeek)|
  {
    var ds := DayNumbers(daysOfWeek);
    seq(|ds|, i requires 0 <= i < |ds| => if ds[i] == 0 then 7 else ds[i])
  }

  /** Day `d` is listed when a piece names it, or, for Sunday, names 0. */
  lemma ZenoxDaysMembers(daysOfWeek: string, d: int)
    ensures d in ZenoxDays(daysOfWeek) <==>
              d != 0 && (d in DayNumbers(daysOfWeek) || (d == 7 && 0 in DayNumbers(daysOfWeek)))
  {
    var ds := DayNumbers(daysOfWeek);
    var r := ZenoxDays(daysOfWeek);
    if d in r {
      var i :| 0 <= i < |r| && r[i] == d;
      assert ds[i] in ds;
    }
    if d != 0 && d in ds {
      var i :| 0 <= i < |ds| && ds[i] == d;
      assert r[i] == d;
    }
    if d == 7 && 0 in ds {
      var i :| 0 <= i < |ds| && ds[i] == 0;
      assert r[i] == 7;
    }
  }

  /**
   * The time test of isScheduleActiveNow, in minutes of the day: start to
   * end inclusive; a window whose start and end are equal covers that one
   * minute; a window ending before it starts runs over midnight.
   */
  predicate InWindow(nowMin: int, startMin: int, endMin: int)
  {
    if endMin > startMin then startMin <= nowMin <= endMin
    else if endMin == startMin then nowMin == startMin
    else nowMin >= startMin || nowMin <= endMin
  }

  /**
   * On a 24-hour clock the window is the arc that runs forward from the
   * start minute to the end minute, both included.
   */
  lemma InWindowIsArc(nowMin: int, startMin: int, endMin: int)
    requires 0 <= nowMin < 1440 && 0 <= startMin < 1440 && 0 <= endMin < 1440
    ensures InWindow(nowMin, startMin, endMin) <==> (nowMin - startMin) % 1440 <= (endMin - startMin) % 1440
  {
    if nowMin < startMin {
      assert (nowMin - startMin) % 1440 == nowMin - startMin + 1440;
    } else {
      assert (nowMin - startMin) % 1440 == nowMin - startMin;
    }
    if endMin < startMin {
      assert (endMin - startMin) % 1440 == endMin - startMin + 1440;
    } else {
      assert (endMin - startMin) % 1440 == endMin - startMin;
    }
  }

  /** isScheduleActiveNow: today is one of the schedule's days and the minute is inside its window. */
  predicate IsScheduleActiveNow(s: ScheduleEntity, hour: int, minute: int, dayOfWeek: int)
  {
    dayOfWeek in ZenoxDays(s.daysOfWeek)
    && InWindow(hour * 60 + minute, s.startHour * 60 + s.startMinute, s.endHour * 60 + s.endMinute)
  }

  function ActiveAt(hour: int, minute: int, dayOfWeek: int): ScheduleEntity -> bool
  {
    s => IsScheduleActiveNow(s, hour, minute, dayOfWeek)
  }

  /** checkSchedules' loop: the first schedule that is on, stopping at it. */
  method FindActiveSchedule(schedules: seq<ScheduleEntity>, hour: int, minute: int, dayOfWeek: int)
    returns (k: Option<nat>)
    ensures k == FirstIndex(schedules, ActiveAt(hour, minute, dayOfWeek))
  {
    var p := ActiveAt(hour, minute, dayOfWeek);
    var i := 0;
    while i < |schedules|
      invariant 0 <= i <= |schedules|
      invariant forall j :: 0 <= j < i ==> !p(schedules[j])
    {
      if IsScheduleActiveNow(schedules[i], hour, minute, dayOfWeek) {
        k := Some(i);
        assert p(schedules[i]);
        FirstIndexIs(schedules, p, i);
        return;
      }
      i := i + 1;
    }
    FirstIndexNone(schedules, p);
    k := None;
  }

  // ---------------------------------------------------------------------
  // The end minute
  // ---------------------------------------------------------------------

  /**
   * As written, a schedule is still on during its end minute, and the
   * session checkSchedules then starts ends at that minute of the next day:
   * a 9:00-10:00 schedule seen at 10:00:15 blocks until 10:00 the day after.
   */
  lemma EndMinuteStartsDayLongSession()
    ensures var s := ScheduleEntity(1, "Focus", 9, 0, 10, 0, "4", false, true, None);
            var now := 10 * ZentoxAlarm.HOUR_MS + 15_000;
            IsScheduleActiveNow(s, HourOf(now), MinuteOf(now), TodayOf(now))
            && CalculateEndTime(s.endHour, s.endMinute, now) == now - 15_000 + ZentoxAlarm.DAY_MS
  {
    var now := 10 * ZentoxAlarm.HOUR_MS + 15_000;
    assert HourOf(now) == 10 && MinuteOf(now) == 0;
    assert TodayOf(now) == 4;
    assert Split("4", ',') == ["4"];
    assert Trim("4") == "4";
    assert ParseInt("4") == Some(4);
    assert DayNumbers("4") == [4];
    assert ZenoxDays("4") == [4];
  }

  /**
   * The minutes of the window other than its end minute (a window whose
   * start and end are equal keeps its one minute).  Every such minute is
   * also one where IsScheduleActiveNow holds.
   */
  predicate InWindowBeforeEnd(nowMin: int, startMin: int, endMin: int)
  {
    if endMin > startMin then startMin <= nowMin < endMin
    else if endMin == startMin then nowMin == startMin
    else nowMin >= startMin || nowMin < endMin
  }

  predicate IsScheduleActiveBeforeEnd(s: ScheduleEntity, hour: int, minute: int, dayOfWeek: int)
  {
    dayOfWeek in ZenoxDays(s.daysOfWeek)
    && InWindowBeforeEnd(hour * 60 + minute, s.startHour * 60 + s.startMinute, s.endHour * 60 + s.endMinute)
  }

  /** The window as written is exactly the minutes before the end minute, plus the end minute itself. */
  lemma ActiveIsBeforeEndOrEndMinute(s: ScheduleEntity, hour: int, minute: int, dayOfWeek: int)
    ensures IsScheduleActiveNow(s, hour, minute, dayOfWeek)
            <==> (IsScheduleActiveBeforeEnd(s, hour, minute, dayOfWeek)
                  || (dayOfWeek in ZenoxDays(s.daysOfWeek) && hour * 60 + minute == s.endHour * 60 + s.endMinute))
  {
  }

  /**
   * A session that a schedule with distinct start and end starts at any
   * minute of its window but the end minute ends after now and no later
   * than the length of the window from now: at the window's own end.
   */
  lemma SessionEndsWithWindow(s: ScheduleEntity, now: int)
    requires 0 <= s.startHour <= 23 && 0 <= s.startMinute <= 59 && 0 <= s.endHour <= 23 && 0 <= s.endMinute <= 59
    requires s.startHour * 60 + s.startMinute != s.endHour * 60 + s.endMinute
    requires IsScheduleActiveBeforeEnd(s, HourOf(now), MinuteOf(now), TodayOf(now))
    ensures now < CalculateEndTime(s.endHour, s.endMinute, now)
              <= now + ((s.endHour * 60 + s.endMinute - (s.startHour * 60 + s.startMinute)) % 1440) * ZentoxAlarm.MINUTE_MS
  {
    var MIN := ZentoxAlarm.MINUTE_MS;
    var startMin, endMin := s.startHour * 60 + s.startMinute, s.endHour * 60 + s.endMinute;
    var nm := HourOf(now) * 60 + MinuteOf(now);
    var r := now % ZentoxAlarm.DAY_MS;
    MinuteOfDayOf(now);
    assert nm * MIN <= r < (nm + 1) * MIN;
    assert DayStart(now) == now - r;
    assert s.endHour * ZentoxAlarm.HOUR_MS + s.endMinute * MIN == endMin * MIN;
    var end := now - r + endMin * MIN;
    var t := CalculateEndTime(s.endHour, s.endMinute, now);
    assert t == if end < now then end + ZentoxAlarm.DAY_MS else end;
    if endMin > startMin {
      assert (endMin - startMin) % 1440 == endMin - startMin;
      assert endMin * MIN >= (nm + 1) * MIN;
      assert t == end;
    } else if nm >= startMin {
      assert (endMin - startMin) % 1440 == endMin - startMin + 1440;
      assert endMin * MIN < nm * MIN;
      assert t == end + ZentoxAlarm.DAY_MS;
    } else {
      assert (endMin - startMin) % 1440 == endMin - startMin + 1440;
      assert endMin * MIN >= (nm + 1) * MIN;
      assert t == end;
    }
  }

  // ---------------------------------------------------------------------
  // A schedule's own block list
  // ---------------------------------------------------------------------

  predicate NonEmpty(x: string)
  {
    x != []
  }

  /**
   * parseBlockedAppsJson: the non-empty strings of the JSON array, in order;
   * nothing for a missing or blank text or one that is not a JSON array.
   * `decode` stands for org.json: the array's items as optString gives
   * them, or None when the text does not parse.
   */
  function ParseBlockedAppsJson(json: Option<string>, decode: string -> Option<seq<string>>): (r: seq<string>)
    ensures forall i :: 0 <= i < |r| ==> r[i] != []
    ensures json.None? || IsBlank(json.value) || decode(json.value).None? ==> r == []
    ensures json.Some? && !IsBlank(json.value) && decode(json.value).Some? ==>
              (forall i :: 0 <= i < |r| ==> r[i] in decode(json.value).value)
              && (forall x :: x in decode(json.value).value && x != [] ==> x in r)
  {
    if json.None? || IsBlank(json.value) then []
    else
      var items := decode(json.value);
      if items.None? then []
      else
        var r := Filter(items.value, NonEmpty);
        assert forall x :: x in items.value && x != [] ==> x in r by {
          forall x | x in items.value && x != []
            ensures x in r
          {
            var i :| 0 <= i < |items.value| && items.value[i] == x;
            assert NonEmpty(items.value[i]);
          }
        }
        r
  }

  /** The list checkSchedules hands on: the schedule's own list only when its JSON text is not blank. */
  function ScheduleBlockList(s: ScheduleEntity, decode: string -> Option<seq<string>>): (r: Option<seq<string>>)
    ensures r.Some? <==> s.blockedAppsJson.Some? && !IsBlank(s.blockedAppsJson.value)
  {
    if s.blockedAppsJson.Some? && !IsBlank(s.blockedAppsJson.value) then Some(ParseBlockedAppsJson(s.blockedAppsJson, decode))
    else None
  }

  // ---------------------------------------------------------------------
  // The engine
  // ---------------------------------------------------------------------

  class Engine {
    var isActive: bool
    var endTimeMs: int
    var scheduleName: string
    var isFortress: bool
    var isInitialized: bool
    /** The prefs file as the accessibility service reads it. */
    var prefs: EnginePrefs
    /** Everything done outside the object, oldest first. */
    var effects: seq<Effect>
    /** How many copies of the 15-second schedule checker have been posted. */
    var checkersPosted: nat
    const dao: Dao
    const decodeJsonArray: string -> Option<seq<string>>

    constructor (dao: Dao, disk: EnginePrefs, decodeJsonArray: string -> Option<seq<string>>)
      ensures !isActive && endTimeMs == 0 && scheduleName == "" && !isFortress && !isInitialized
      ensures prefs == disk && effects == [] && checkersPosted == 0
      ensures this.dao == dao && this.decodeJsonArray == decodeJsonArray
    {
      isActive, endTimeMs, scheduleName, isFortress, isInitialized := false, 0, "", false, false;
      prefs, effects, checkersPosted := disk, [], 0;
      this.dao, this.decodeJsonArray := dao, decodeJsonArray;
    }

    /**
     * init: runs once.  It reads the session back from prefs, restarts the
     * foreground service for a session still running, stops one that ended
     * while the process was dead, and posts the schedule checker.
     */
    method Init(now: int)
      modifies this
      ensures old(isInitialized) ==>
                isActive == old(isActive) && endTimeMs == old(endTimeMs) && scheduleName == old(scheduleName)
                && isFortress == old(isFortress) && prefs == old(prefs) && effects == old(effects)
                && checkersPosted == old(checkersPosted)
      ensures isInitialized
      ensures !old(isInitialized) ==> checkersPosted == old(checkersPosted) + 1
      ensures !old(isInitialized) ==> isActive && endTimeMs > 0 ==> endTimeMs > now
      ensures !old(isInitialized) ==>
                var a, e := GetOrElse(old(prefs).active, false), GetOrElse(old(prefs).endTime, 0);
                var n, f := GetOrElse(old(prefs).scheduleName, ""), GetOrElse(old(prefs).fortress, false);
                if a && e > 0 && e <= now then
                  !isActive && endTimeMs == 0 && scheduleName == "" && !isFortress
                  && prefs == WithSession(old(prefs), false, 0, "", false)
                  && effects == old(effects) + [EndAudioPlayed, StatePersisted(false), ForegroundStopped]
                else
                  isActive == a && endTimeMs == e && scheduleName == n && isFortress == f && prefs == old(prefs)
                  && effects == old(effects) + (if a && e > 0 then [ForegroundStarted(e, n)] else [])
    {
      if isInitialized {
        return;
      }
      isInitialized := true;
      isActive := GetOrElse(prefs.active, false);
      endTimeMs := GetOrElse(prefs.endTime, 0);
      scheduleName := GetOrElse(prefs.scheduleName, "");
      isFortress := GetOrElse(prefs.fortress, false);
      if isActive && endTimeMs > 0 && endTimeMs > now {
        effects := effects + [ForegroundStarted(endTimeMs, scheduleName)];
      } else if isActive && endTimeMs > 0 && endTimeMs <= now {
        StopZen();
      }
      checkersPosted := checkersPosted + 1;
    }

    /** startManualZen: a "Quick Zen" session of durationSec seconds on the global block list. */
    method StartManualZen(durationSec: int, fortress: bool, now: int)
      modifies this
      ensures isActive && endTimeMs == now + durationSec * 1000 && scheduleName == QUICK_ZEN && isFortress == fortress
      ensures prefs == WithSession(old(prefs), true, now + durationSec * 1000, QUICK_ZEN, fortress)
                         .(blockedPackages := Some(AsSet(dao.GetBlockedPackageNames())))
      ensures effects == old(effects) + [BlockListSynced(AsSet(dao.GetBlockedPackageNames())), StatePersisted(true),
                                         ForegroundStarted(now + durationSec * 1000, QUICK_ZEN)]
      ensures isInitialized == old(isInitialized) && checkersPosted == old(checkersPosted)
    {
      ActivateZen(QUICK_ZEN, now + durationSec * 1000, fortress, None);
    }

    /** stopZen: plays the end sound, clears the session and its prefs, stops the foreground service. */
    method StopZen()
      modifies this
      ensures !isActive && endTimeMs == 0 && scheduleName == "" && !isFortress
      ensures prefs == WithSession(old(prefs), false, 0, "", false)
      ensures effects == old(effects) + [EndAudioPlayed, StatePersisted(false), ForegroundStopped]
      ensures isInitialized == old(isInitialized) && checkersPosted == old(checkersPosted)
    {
      isActive, endTimeMs, scheduleName, isFortress := false, 0, "", false;
      prefs := WithSession(prefs, false, 0, "", false);
      effects := effects + [EndAudioPlayed, StatePersisted(false), ForegroundStopped];
    }

    /** getStatus. */
    function Status(now: int): (r: EngineStatus)
      reads this
      ensures r.isActive == isActive && r.scheduleName == scheduleName && r.isFortress == isFortress
      ensures r.remainingSeconds > 0 ==> isActive && endTimeMs - now >= 1000
      ensures r.remainingSeconds == RemainingSeconds(isActive, endTimeMs, now)
    {
      EngineStatus(isActive, RemainingSeconds(isActive, endTimeMs, now), scheduleName, isFortress)
    }

    /** syncBlockListToPrefs: the package list, as a set, under blocked_packages. */
    method SyncBlockListToPrefs(packageNames: seq<string>)
      modifies this
      ensures prefs == old(prefs).(blockedPackages := Some(AsSet(packageNames)))
      ensures effects == old(effects) + [BlockListSynced(AsSet(packageNames))]
      ensures isActive == old(isActive) && endTimeMs == old(endTimeMs) && scheduleName == old(scheduleName)
      ensures isFortress == old(isFortress) && isInitialized == old(isInitialized) && checkersPosted == old(checkersPosted)
    {
      var s := AsSet(packageNames);
      prefs := prefs.(blockedPackages := Some(s));
      effects := effects + [BlockListSynced(s)];
    }

    /**
     * activateZen: the block list (the schedule's own, or the database's
     * when there is none) goes to prefs first; only then is the session
     * switched on and persisted and the foreground service started.
     */
    method ActivateZen(name: string, endTime: int, fortress: bool, scheduleBlockList: Option<seq<string>>)
      modifies this
      ensures var packages := if scheduleBlockList.Some? then scheduleBlockList.value else dao.GetBlockedPackageNames();
              var synced := AsSet(packages);
              prefs == WithSession(old(prefs), true, endTime, name, fortress).(blockedPackages := Some(synced))
              && effects == old(effects) + [BlockListSynced(synced), StatePersisted(true), ForegroundStarted(endTime, name)]
      ensures isActive && endTimeMs == endTime && scheduleName == name && isFortress == fortress
      ensures isInitialized == old(isInitialized) && checkersPosted == old(checkersPosted)
    {
      var packages := if scheduleBlockList.Some? then scheduleBlockList.value else dao.GetBlockedPackageNames();
      SyncBlockListToPrefs(packages);
      ApplyZenStateAndStartService(name, endTime, fortress);
    }

    /** applyZenStateAndStartService: the four session fields, the same in prefs, then the service. */
    method ApplyZenStateAndStartService(name: string, endTime: int, fortress: bool)
      modifies this
      ensures isActive && endTimeMs == endTime && scheduleName == name && isFortress == fortress
      ensures prefs == WithSession(old(prefs), true, endTime, name, fortress)
      ensures effects == old(effects) + [StatePersisted(true), ForegroundStarted(endTime, name)]
      ensures isInitialized == old(isInitialized) && checkersPosted == old(checkersPosted)
    {
      isActive, endTimeMs, scheduleName, isFortress := true, endTime, name, fortress;
      prefs := WithSession(prefs, true, endTime, name, fortress);
      effects := effects + [StatePersisted(true), ForegroundStarted(endTime, name)];
    }

    /**
     * checkSchedules: nothing while a session runs; otherwise the first
     * enabled schedule that is on now starts a session that ends at the
     * schedule's end time, on the schedule's own list when it has one.
     */
    method CheckSchedules(now: int)
      modifies this
      ensures old(isActive) ==>
                isActive && endTimeMs == old(endTimeMs) && scheduleName == old(scheduleName)
                && isFortress == old(isFortress) && prefs == old(prefs) && effects == old(effects)
      ensures isInitialized == old(isInitialized) && checkersPosted == old(checkersPosted)
      ensures !old(isActive) ==>
                var enabled := dao.GetEnabledSchedules();
                var k := FirstIndex(enabled, ActiveAt(HourOf(now), MinuteOf(now), TodayOf(now)));
                if k.None? then
                  !isActive && endTimeMs == old(endTimeMs) && scheduleName == old(scheduleName)
                  && isFortress == old(isFortress) && prefs == old(prefs) && effects == old(effects)
                else
                  var s := enabled[k.value];
                  var list := ScheduleBlockList(s, decodeJsonArray);
                  var synced := AsSet(if list.Some? then list.value else dao.GetBlockedPackageNames());
                  isActive && scheduleName == s.name && isFortress == s.isFortress
                  && endTimeMs == CalculateEndTime(s.endHour, s.endMinute, now)
                  && prefs == WithSession(old(prefs), true, endTimeMs, s.name, s.isFortress).(blockedPackages := Some(synced))
                  && effects == old(effects) + [BlockListSynced(synced), StatePersisted(true), ForegroundStarted(endTimeMs, s.name)]
    {
      if isActive {
        return;
      }
      var enabled := dao.GetEnabledSchedules();
      var k := FindActiveSchedule(enabled, HourOf(now), MinuteOf(now), TodayOf(now));
      if k.Some? {
        var s := enabled[k.value];
        var endTime := CalculateEndTime(s.endHour, s.endMinute, now);
        ActivateZen(s.name, endTime, s.isFortress, ScheduleBlockList(s, decodeJsonArray));
      }
    }
  }
}
