/**
 * The zenbl ZenEngine object, the first generation of the engine: the same
 * session fields and prefs as the zenox engine, but
 *  - init runs again every time it is called,
 *  - activateZen switches the session on and persists it first and syncs
 *    the database block list afterwards, on a background job,
 *  - schedules have no list of their own,
 *  - a window includes its start minute but not its end minute, and a
 *    window whose start and end are equal lasts the whole day,
 *  - a stored day 0 is not read as Sunday.
 */
module ZenblEngine {
  import opened Common
  import opened Sorting
  import opened ZenDao
  import opened EngineCommon
  import ZenoxEngine

  const QUICK_ZEN: string := "Quick Zen"
  const SCHEDULE_CHECK_INTERVAL_MS: int := 30_000

  /**
   * The time test of isScheduleActiveNow, in minutes of the day: from the
   * start minute up to but not including the end minute, wrapping past
   * midnight when the end is not after the start.
   */
  predicate InWindow(nowMin: int, startMin: int, endMin: int)
  {
    if endMin > startMin then startMin <= nowMin < endMin
    else nowMin >= startMin || nowMin < endMin
  }

  /**
   * On a 24-hour clock the window is the arc that runs forward from the
   * start minute and stops before the end minute; equal ends give the
   * whole day.
   */
  lemma InWindowIsArc(nowMin: int, startMin: int, endMin: int)
    requires 0 <= nowMin < 1440 && 0 <= startMin < 1440 && 0 <= endMin < 1440
    ensures InWindow(nowMin, startMin, endMin) <==>
              startMin == endMin || (nowMin - startMin) % 1440 < (endMin - startMin) % 1440
  {
    if nowMin < startMin {
      assert (nowMin - startMin) % 1440 == nowMin - startMin + 1440;
    } else {
      assert (nowMin - startMin) % 1440 == nowMin - startMin;
    }
    if endMin < startMin {
      assert (endMin - startMin) % 1440 == endMin - startMin + 1440;
    } else {
      assert (endMin - startMin) % 1440 == endMin - startMin;
    }
  }

  /**
   * The two generations' windows against each other: with distinct ends
   * they differ only in the end minute, which zenox includes and zenbl does
   * not; with equal ends zenox covers one minute and zenbl the whole day.
   */
  lemma WindowsCompared(nowMin: int, startMin: int, endMin: int)
    requires 0 <= nowMin < 1440 && 0 <= startMin < 1440 && 0 <= endMin < 1440
    ensures startMin != endMin ==>
              (ZenoxEngine.InWindow(nowMin, startMin, endMin) <==> InWindow(nowMin, startMin, endMin) || nowMin == endMin)
    ensures startMin != endMin ==> !InWindow(endMin, startMin, endMin)
    ensures startMin == endMin ==> InWindow(nowMin, startMin, endMin)
    ensures startMin == endMin ==> (ZenoxEngine.InWindow(nowMin, startMin, endMin) <==> nowMin == startMin)
  {
  }

  /** isScheduleActiveNow: today is one of the stored day numbers and the minute is inside the window. */
  predicate IsScheduleActiveNow(s: ScheduleEntity, hour: int, minute: int, dayOfWeek: int)
  {
    dayOfWeek in DayNumbers(s.daysOfWeek)
    && InWindow(hour * 60 + minute, s.startHour * 60 + s.startMinute, s.endHour * 60 + s.endMinute)
  }

  /** A day list that spells Sunday as 0 never matches here: the engine's Sunday is 7. */
  lemma SundayAsZeroNeverMatches(s: ScheduleEntity, hour: int, minute: int)
    requires forall d :: d in DayNumbers(s.daysOfWeek) ==> d == 0
    ensures forall day :: 1 <= day <= 7 ==> !IsScheduleActiveNow(s, hour, minute, day)
  {
  }

  function ActiveAt(hour: int, minute: int, dayOfWeek: int): ScheduleEntity -> bool
  {
    s => IsScheduleActiveNow(s, hour, minute, dayOfWeek)
  }

  /** checkSchedules' loop: the first schedule that is on, stopping at it. */
  method FindActiveSchedule(schedules: seq<ScheduleEntity>, hour: int, minute: int, dayOfWeek: int)
    returns (k: Option<nat>)
    ensures k == FirstIndex(schedules, ActiveAt(hour, minute, dayOfWeek))
  {
    var p := ActiveAt(hour, minute, dayOfWeek);
    var i := 0;
    while i < |schedules|
      invariant 0 <= i <= |schedules|
      invariant forall j :: 0 <= j < i ==> !p(schedules[j])
    {
      if IsScheduleActiveNow(schedules[i], hour, minute, dayOfWeek) {
        k := Some(i);
        assert p(schedules[i]);
        FirstIndexIs(schedules, p, i);
        return;
      }
      i := i + 1;
    }
    FirstIndexNone(schedules, p);
    k := None;
  }

  class Engine {
    var isActive: bool
    var endTimeMs: int
    var scheduleName: string
    var isFortress: bool
    var prefs: EnginePrefs
    var effects: seq<Effect>
    /** How many copies of the 30-second schedule checker have been posted. */
    var checkersPosted: nat
    /** Block-list syncs launched by activateZen that have not run yet. */
    var pendingSyncs: nat
    const dao: Dao

    constructor (dao: Dao, disk: EnginePrefs)
      ensures !isActive && endTimeMs == 0 && scheduleName == "" && !isFortress
      ensures prefs == disk && effects == [] && checkersPosted == 0 && pendingSyncs == 0
      ensures this.dao == dao
    {
      isActive, endTimeMs, scheduleName, isFortress := false, 0, "", false;
      prefs, effects, checkersPosted, pendingSyncs := disk, [], 0, 0;
      this.dao := dao;
    }

    /**
     * init: reads the session back from prefs, restarts the foreground
     * service for a session still running, stops one that has ended, and
     * posts the schedule checker, on every call.
     */
    method Init(now: int)
      modifies this
      ensures checkersPosted == old(checkersPosted) + 1 && pendingSyncs == old(pendingSyncs)
      ensures isActive && endTimeMs > 0 ==> endTimeMs > now
      ensures var a, e := GetOrElse(old(prefs).active, false), GetOrElse(old(prefs).endTime, 0);
              var n, f := GetOrElse(old(prefs).scheduleName, ""), GetOrElse(old(prefs).fortress, false);
              if a && e > 0 && e <= now then
                !isActive && endTimeMs == 0 && scheduleName == "" && !isFortress
                && prefs == WithSession(old(prefs), false, 0, "", false)
                && effects == old(effects) + [EndAudioPlayed, StatePersisted(false), ForegroundStopped]
              else
                isActive == a && endTimeMs == e && scheduleName == n && isFortress == f && prefs == old(prefs)
                && effects == old(effects) + (if a && e > 0 then [ForegroundStarted(e, n)] else [])
    {
      isActive := GetOrElse(prefs.active, false);
      endTimeMs := GetOrElse(prefs.endTime, 0);
      scheduleName := GetOrElse(prefs.scheduleName, "");
      isFortress := GetOrElse(prefs.fortress, false);
      if isActive && endTimeMs > 0 && endTimeMs > now {
        effects := effects + [ForegroundStarted(endTimeMs, scheduleName)];
      } else if isActive && endTimeMs > 0 && endTimeMs <= now {
        StopZen();
      }
      checkersPosted := checkersPosted + 1;
    }

    /** startManualZen: a "Quick Zen" session of durationSec seconds. */
    method StartManualZen(durationSec: int, fortress: bool, now: int)
      modifies this
      ensures isActive && endTimeMs == now + durationSec * 1000 && scheduleName == QUICK_ZEN && isFortress == fortress
      ensures prefs == WithSession(old(prefs), true, now + durationSec * 1000, QUICK_ZEN, fortress)
      ensures effects == old(effects) + [StatePersisted(true), ForegroundStarted(now + durationSec * 1000, QUICK_ZEN)]
      ensures pendingSyncs == old(pendingSyncs) + 1 && checkersPosted == old(checkersPosted)
    {
      ActivateZen(QUICK_ZEN, now + durationSec * 1000, fortress);
    }

    /** stopZen: plays the end sound, clears the session and its prefs, stops the foreground service. */
    method StopZen()
      modifies this
      ensures !isActive && endTimeMs == 0 && scheduleName == "" && !isFortress
      ensures prefs == WithSession(old(prefs), false, 0, "", false)
      ensures effects == old(effects) + [EndAudioPlayed, StatePersisted(false), ForegroundStopped]
      ensures checkersPosted == old(checkersPosted) && pendingSyncs == old(pendingSyncs)
    {
      isActive, endTimeMs, scheduleName, isFortress := false, 0, "", false;
      prefs := WithSession(prefs, false, 0, "", false);
      effects := effects + [EndAudioPlayed, StatePersisted(false), ForegroundStopped];
    }

    /** getStatus. */
    function Status(now: int): (r: EngineStatus)
      reads this
      ensures r.isActive == isActive && r.scheduleName == scheduleName && r.isFortress == isFortress
      ensures r.remainingSeconds > 0 ==> isActive && endTimeMs - now >= 1000
      ensures r.remainingSeconds == RemainingSeconds(isActive, endTimeMs, now)
    {
      EngineStatus(isActive, RemainingSeconds(isActive, endTimeMs, now), scheduleName, isFortress)
    }

    /** syncBlockListToPrefs: the package list, as a set, under blocked_packages. */
    method SyncBlockListToPrefs(packageNames: seq<string>)
      modifies this
      ensures prefs == old(prefs).(blockedPackages := Some(AsSet(packageNames)))
      ensures effects == old(effects) + [BlockListSynced(AsSet(packageNames))]
      ensures isActive == old(isActive) && endTimeMs == old(endTimeMs) && scheduleName == old(scheduleName)
      ensures isFortress == old(isFortress) && checkersPosted == old(checkersPosted) && pendingSyncs == old(pendingSyncs)
    {
      prefs := prefs.(blockedPackages := Some(AsSet(packageNames)));
      effects := effects + [BlockListSynced(AsSet(packageNames))];
    }

    /**
     * activateZen: the session is switched on and persisted before
     * anything else; the database block list is synced later by the job
     * it launches; the foreground service is started at once.
     */
    method ActivateZen(name: string, endTime: int, fortress: bool)
      modifies this
      ensures isActive && endTimeMs == endTime && scheduleName == name && isFortress == fortress
      ensures prefs == WithSession(old(prefs), true, endTime, name, fortress)
      ensures effects == old(effects) + [StatePersisted(true), ForegroundStarted(endTime, name)]
      ensures pendingSyncs == old(pendingSyncs) + 1 && checkersPosted == old(checkersPosted)
    {
      isActive, endTimeMs, scheduleName, isFortress := true, endTime, name, fortress;
      prefs := WithSession(prefs, true, endTime, name, fortress);
      pendingSyncs := pendingSyncs + 1;
      effects := effects + [StatePersisted(true), ForegroundStarted(endTime, name)];
    }

    /** The job activateZen launched: copies the database's package names to prefs. */
    method RunPendingSync()
      modifies this
      ensures old(pendingSyncs) == 0 ==> prefs == old(prefs) && effects == old(effects) && pendingSyncs == 0
      ensures old(pendingSyncs) > 0 ==>
                pendingSyncs == old(pendingSyncs) - 1
                && prefs == old(prefs).(blockedPackages := Some(AsSet(dao.GetBlockedPackageNames())))
                && effects == old(effects) + [BlockListSynced(AsSet(dao.GetBlockedPackageNames()))]
      ensures isActive == old(isActive) && endTimeMs == old(endTimeMs) && scheduleName == old(scheduleName)
      ensures isFortress == old(isFortress) && checkersPosted == old(checkersPosted)
    {
      if pendingSyncs > 0 {
        SyncBlockListToPrefs(dao.GetBlockedPackageNames());
        pendingSyncs := pendingSyncs - 1;
      }
    }

    /**
     * checkSchedules: nothing while a session runs; otherwise the first
     * enabled schedule that is on now starts a session ending at the
     * schedule's end time.
     */
    method CheckSchedules(now: int)
      modifies this
      ensures old(isActive) ==>
                isActive && endTimeMs == old(endTimeMs) && scheduleName == old(scheduleName)
                && isFortress == old(isFortress) && prefs == old(prefs) && effects == old(effects)
                && pendingSyncs == old(pendingSyncs)
      ensures checkersPosted == old(checkersPosted)
      ensures !old(isActive) ==>
                var enabled := dao.GetEnabledSchedules();
                var k := FirstIndex(enabled, ActiveAt(HourOf(now), MinuteOf(now), TodayOf(now)));
                if k.None? then
                  !isActive && endTimeMs == old(endTimeMs) && scheduleName == old(scheduleName)
                  && isFortress == old(isFortress) && prefs == old(prefs) && effects == old(effects)
                  && pendingSyncs == old(pendingSyncs)
                else
                  var s := enabled[k.value];
                  var endTime := CalculateEndTime(s.endHour, s.endMinute, now);
                  isActive && scheduleName == s.name && isFortress == s.isFortress && endTimeMs == endTime
                  && prefs == WithSession(old(prefs), true, endTime, s.name, s.isFortress)
                  && effects == old(effects) + [StatePersisted(true), ForegroundStarted(endTime, s.name)]
                  && pendingSyncs == old(pendingSyncs) + 1
    {
      if isActive {
        return;
      }
      var enabled := dao.GetEnabledSchedules();
      var k := FindActiveSchedule(enabled, HourOf(now), MinuteOf(now), TodayOf(now));
      if k.Some? {
        var s := enabled[k.value];
        ActivateZen(s.name, CalculateEndTime(s.endHour, s.endMinute, now), s.isFortress);
      }
    }
  }
}
