/**
 * The session manager singleton of the zenox and zentox engines
 * (ZenoxManager and ZentoxManager are the same object body under two names;
 * each generation has its own instance bound to its own state store).
 *
 * It starts and extends the one Zen session, stops it, grants a five-minute
 * emergency break, and on each heartbeat starts a short session when an app
 * has used up its daily limit.
 */
module SessionManager {
  import opened Common
  import opened ZentoxState
  import opened AppDatabase
  import ZentoxAlarm

  const HEARTBEAT_MS: int := 30_000
  const USAGE_LIMIT_ZEN_MS: int := 60_000
  const EMERGENCY_BREAK_MS: int := 5 * 60_000

  const MANUAL: string := "MANUAL"
  const USAGE_LIMIT: string := "USAGE_LIMIT"

  /**
   * type?.trim().takeUnless { it.isNullOrEmpty() } ?: "UNKNOWN":
   * the trimmed trigger, or "UNKNOWN" when it is null or blank.
   */
  function TriggerTypeOf(t: Option<string>): (r: string)
    ensures r != []
    ensures t.None? ==> r == UNKNOWN_TRIGGER
    ensures t.Some? && IsBlank(t.value) ==> r == UNKNOWN_TRIGGER
    ensures t.Some? && !IsBlank(t.value) ==> r == Trim(t.value)
  {
    if t.Some? then
      BlankIffTrimEmpty(t.value);
      if Trim(t.value) == [] then UNKNOWN_TRIGGER else Trim(t.value)
    else UNKNOWN_TRIGGER
  }

  /** The trigger startZen records is never blank, so it survives the persisted round trip. */
  lemma TriggerTypeNotBlank(t: Option<string>)
    ensures !IsBlank(TriggerTypeOf(t))
  {
    var r := TriggerTypeOf(t);
    if t.Some? && !IsBlank(t.value) {
      TrimIsSlice(t.value);
      assert !IsWhitespace(r[0]);
    } else {
      assert !IsWhitespace(r[0]);
    }
  }

  /**
   * The next-status `when` of startZen for a positive duration: a new
   * session from INACTIVE, otherwise the same session with its end pushed to
   * the later of the old end and now + duration.
   */
  function NextStatus(current: ZenStatus, trigger: string, now: int, duration: int): (next: ZenStatus)
    requires duration > 0
    ensures next.Active?
    ensures next.endTimeEpochMillis >= now + duration
    ensures current.Inactive? ==> next == Active(trigger, now + duration)
    ensures current.Active? ==> next.triggerType == current.triggerType
    ensures current.Active? ==> next.endTimeEpochMillis == Max(current.endTimeEpochMillis, now + duration)
  {
    match current
    case Inactive => Active(trigger, now + duration)
    case Active(t, e) => Active(t, Max(e, now + duration))
  }

  /** Starting again never shortens an active session and never replaces it by a second one. */
  lemma NextStatusNeverShortens(current: ZenStatus, trigger: string, now: int, duration: int)
    requires duration > 0 && current.Active?
    ensures NextStatus(current, trigger, now, duration).endTimeEpochMillis >= current.endTimeEpochMillis
    ensures NextStatus(current, trigger, now, duration).triggerType == current.triggerType
  {
  }

  /** Asking twice in a row at the same instant is the same as asking once. */
  lemma NextStatusIdempotent(current: ZenStatus, trigger: string, now: int, duration: int)
    requires duration > 0
    ensures NextStatus(NextStatus(current, trigger, now, duration), trigger, now, duration)
            == NextStatus(current, trigger, now, duration)
  {
  }

  /** isEmergencyBreakActive's answer for a deadline. */
  predicate BreakActive(deadline: int, now: int)
  {
    now < deadline
  }

  /** The deadline isEmergencyBreakActive leaves behind: cleared once it has passed. */
  function DeadlineAfterCheck(deadline: int, now: int): (d: int)
    ensures BreakActive(deadline, now) ==> d == deadline
    ensures !BreakActive(deadline, now) ==> d == 0
  {
    if !BreakActive(deadline, now) && deadline != 0 then 0 else deadline
  }

  /** A break requested at `t0` is active exactly until t0 + 300000, and the cleared deadline stays inactive. */
  lemma EmergencyBreakWindow(t0: int, t: int)
    ensures BreakActive(t0 + EMERGENCY_BREAK_MS, t) <==> t < t0 + 300_000
    ensures t >= t0 + EMERGENCY_BREAK_MS && t >= 0 ==>
              !BreakActive(DeadlineAfterCheck(t0 + EMERGENCY_BREAK_MS, t), t)
  {
  }

  /** The OS usage statistics the tracker reads: foreground minutes today per package (0 when unknown). */
  datatype UsageTracker = UsageTracker(todayMinutes: map<string, int>)

  function TodayUsage(tracker: UsageTracker, pkg: string): int
  {
    if pkg in tracker.todayMinutes then tracker.todayMinutes[pkg] else 0
  }

  predicate OverLimit(tracker: UsageTracker, app: BlockedApp)
  {
    TodayUsage(tracker, app.packageName) >= app.dailyLimitMinutes
  }

  /** The first app, in DAO order, whose usage today has reached its limit. */
  function FirstOverLimit(apps: seq<BlockedApp>, tracker: UsageTracker): (i: Option<nat>)
    ensures i.Some? ==> i.value < |apps| && OverLimit(tracker, apps[i.value])
    ensures forall j :: 0 <= j < |apps| && (i.None? || j < i.value) ==> !OverLimit(tracker, apps[j])
  {
    if |apps| == 0 then None
    else if OverLimit(tracker, apps[0]) then Some(0)
    else
      var rest := FirstOverLimit(apps[1..], tracker);
      if rest.None? then None
      else
        assert forall j :: 1 <= j < rest.value + 1 ==> apps[j] == apps[1..][j - 1];
        Some(rest.value + 1)
  }

  /** The usage-limit trigger is recorded as written. */
  lemma UsageLimitTrigger()
    ensures TriggerTypeOf(Some(USAGE_LIMIT)) == USAGE_LIMIT
  {
    assert !IsWhitespace(USAGE_LIMIT[0]);
    assert !IsBlank(USAGE_LIMIT);
    assert TrimStart(USAGE_LIMIT) == USAGE_LIMIT;
    assert !IsWhitespace(USAGE_LIMIT[|USAGE_LIMIT| - 1]);
    assert TrimEnd(USAGE_LIMIT) == USAGE_LIMIT;
  }

  /** The alarm request scheduleNextAlarm hands to the OS for a schedule. */
  datatype AlarmRequest = AlarmRequest(scheduleId: int, triggerAtMillis: int, durationMillis: int)

  /** The alarm request for one schedule: its id, its next trigger after `now` and its duration. */
  function AlarmFor(s: ZenSchedule, now: int): (a: AlarmRequest)
    ensures a.scheduleId == s.id
    ensures a.triggerAtMillis > now && a.durationMillis >= ZentoxAlarm.MINUTE_MS
  {
    ZentoxAlarm.NextTriggerFacts(s, now);
    AlarmRequest(s.id, ZentoxAlarm.NextTriggerAt(s, now), ZentoxAlarm.ComputeDurationMillis(s))
  }

  /**
   * The request refreshSchedules makes for the enabled schedules: the alarm
   * of the one whose next trigger is earliest (the first of equals), and
   * nothing when there is none.
   */
  function EarliestAlarm(enabled: seq<ZenSchedule>, now: int): (a: Option<AlarmRequest>)
    ensures a.None? <==> |enabled| == 0
    ensures a.Some? ==> a.value.triggerAtMillis > now
  {
    if |enabled| == 0 then None else Some(AlarmFor(enabled[ArgMin(Triggers(enabled, now))], now))
  }

  /** The next trigger of every schedule of `s`, in scan order. */
  function Triggers(s: seq<ZenSchedule>, now: int): (ts: seq<int>)
    ensures |ts| == |s|
    ensures forall i :: 0 <= i < |s| ==> ts[i] == ZentoxAlarm.NextTriggerAt(s[i], now)
  {
    seq(|s|, i requires 0 <= i < |s| => ZentoxAlarm.NextTriggerAt(s[i], now))
  }

  /** The position of the smallest value, the first of equals: the choice scheduleNextAlarm makes. */
  function ArgMin(ts: seq<int>): (k: nat)
    requires |ts| > 0
    ensures k < |ts|
    ensures forall j :: 0 <= j < |ts| ==> ts[k] <= ts[j]
    ensures forall j :: 0 <= j < k ==> ts[k] < ts[j]
  {
    if |ts| == 1 then 0
    else
      var k := ArgMin(ts[..|ts| - 1]);
      if ts[|ts| - 1] < ts[k] then |ts| - 1 else k
  }

  /** One more value in the scan: it takes over only when strictly smaller. */
  lemma ArgMinStep(ts: seq<int>, i: nat)
    requires 0 < i < |ts|
    ensures ArgMin(ts[..i + 1]) == if ts[i] < ts[ArgMin(ts[..i])] then i else ArgMin(ts[..i])
  {
    assert ts[..i + 1][..i] == ts[..i];
  }

  /** The scan of scheduleNextAlarm: the schedule with the earliest next trigger, the first of equals. */
  method EarliestSchedule(enabled: seq<ZenSchedule>, now: int) returns (best: nat, bestAt: int)
    requires |enabled| > 0
    ensures best == ArgMin(Triggers(enabled, now))
    ensures bestAt == ZentoxAlarm.NextTriggerAt(enabled[best], now)
  {
    ghost var ts := Triggers(enabled, now);
    best := 0;
    bestAt := ZentoxAlarm.ComputeNextTriggerAt(enabled[0], now);
    var i := 1;
    while i < |enabled|
      invariant 1 <= i <= |enabled|
      invariant best == ArgMin(ts[..i])
      invariant bestAt == ts[best]
    {
      ArgMinStep(ts, i);
      var at := ZentoxAlarm.ComputeNextTriggerAt(enabled[i], now);
      assert at == ts[i];
      if at < bestAt {
        best := i;
        bestAt := at;
      }
      i := i + 1;
    }
    assert ts[..i] == ts;
  }

  /** The manager singleton. */
  class Manager {
    const state: StateStore
    var heartbeatRunning: bool
    var blockedAppDao: BlockedAppDao?
    var scheduleDao: ZenScheduleDao?
    var usageTracker: Option<UsageTracker>
    var hasContext: bool
    var emergencyBreakUntil: int

    /** The object as the process creates it, bound to its state store. */
    constructor (state: StateStore)
      ensures this.state == state
      ensures !heartbeatRunning && blockedAppDao == null && scheduleDao == null
      ensures usageTracker.None? && !hasContext && emergencyBreakUntil == 0
    {
      this.state := state;
      heartbeatRunning := false;
      blockedAppDao := null;
      scheduleDao := null;
      usageTracker := None;
      hasContext := false;
      emergencyBreakUntil := 0;
    }

    /**
     * initialize: attach the context, the DAOs and the tracker, load the
     * persisted status, start the heartbeat and end with refreshSchedules,
     * whose alarm request (the earliest enabled schedule) is returned.
     */
    method Initialize(dao: BlockedAppDao, schedules: ZenScheduleDao, tracker: UsageTracker, now: int)
      returns (alarm: Option<AlarmRequest>)
      modifies this, state
      ensures blockedAppDao == dao && scheduleDao == schedules && usageTracker == Some(tracker)
      ensures hasContext && heartbeatRunning && emergencyBreakUntil == old(emergencyBreakUntil)
      ensures state.hasContext && state.prefs == old(state.prefs) && state.status == Decode(state.prefs, now)
      ensures alarm == EarliestAlarm(schedules.GetActiveSchedules(), now)
    {
      Attach(dao, schedules, tracker, now);
      alarm := RefreshSchedules(now);
    }

    /** The part of initialize before refreshSchedules. */
    method Attach(dao: BlockedAppDao, schedules: ZenScheduleDao, tracker: UsageTracker, now: int)
      modifies this, state
      ensures blockedAppDao == dao && scheduleDao == schedules && usageTracker == Some(tracker)
      ensures hasContext && heartbeatRunning && emergencyBreakUntil == old(emergencyBreakUntil)
      ensures state.hasContext && state.prefs == old(state.prefs) && state.status == Decode(state.prefs, now)
    {
      hasContext := true;
      state.Initialize(now);
      blockedAppDao := dao;
      scheduleDao := schedules;
      usageTracker := Some(tracker);
      heartbeatRunning := true;
    }

    /**
     * startZen: a non-positive duration forces INACTIVE and returns the
     * status read back; otherwise one session is started or extended.
     */
    method StartZen(durationMillis: int, triggerType: Option<string>, now: int) returns (r: ZenStatus)
      modifies state
      ensures state.hasContext == old(state.hasContext)
      ensures durationMillis <= 0 ==> r == Inactive && state.status == Inactive
      ensures durationMillis > 0 ==>
                r == NextStatus(old(state.Observed(now)), TriggerTypeOf(triggerType), now, durationMillis)
                && state.status == r
      ensures state.hasContext ==> state.prefs == Persist(old(state.prefs), state.status)
      ensures !state.hasContext ==> state.prefs == old(state.prefs)
    {
      if durationMillis <= 0 {
        state.SetStatus(Inactive);
        r := state.GetStatus(now);
        PersistDecodeInactive(old(state.prefs), now);
        return;
      }
      var trigger := TriggerTypeOf(triggerType);
      var current := state.GetStatus(now);
      var next := NextStatus(current, trigger, now, durationMillis);
      state.SetStatus(next);
      r := next;
    }

    /** stopZen: INACTIVE, and the emergency break is cleared. */
    method StopZen()
      modifies this, state
      ensures state.status == Inactive && emergencyBreakUntil == 0
      ensures state.hasContext == old(state.hasContext)
      ensures state.hasContext ==> state.prefs == Persist(old(state.prefs), Inactive)
      ensures !state.hasContext ==> state.prefs == old(state.prefs)
      ensures heartbeatRunning == old(heartbeatRunning) && blockedAppDao == old(blockedAppDao)
      ensures usageTracker == old(usageTracker) && scheduleDao == old(scheduleDao) && hasContext == old(hasContext)
    {
      state.SetStatus(Inactive);
      emergencyBreakUntil := 0;
    }

    /** shutdown: cancel the heartbeat, drop every collaborator and clear the break; the session status is untouched. */
    method Shutdown()
      modifies this
      ensures !heartbeatRunning && blockedAppDao == null && scheduleDao == null
      ensures usageTracker.None? && !hasContext && emergencyBreakUntil == 0
    {
      heartbeatRunning := false;
      blockedAppDao := null;
      scheduleDao := null;
      usageTracker := None;
      hasContext := false;
      emergencyBreakUntil := 0;
    }

    /** requestEmergencyBreak: enforcement pauses for five minutes from `now`. */
    method RequestEmergencyBreak(now: int)
      modifies this
      ensures emergencyBreakUntil == now + EMERGENCY_BREAK_MS
      ensures heartbeatRunning == old(heartbeatRunning) && blockedAppDao == old(blockedAppDao)
      ensures usageTracker == old(usageTracker) && scheduleDao == old(scheduleDao) && hasContext == old(hasContext)
    {
      emergencyBreakUntil := now + EMERGENCY_BREAK_MS;
    }

    /** isEmergencyBreakActive: true before the deadline; a passed deadline is reset to 0. */
    method IsEmergencyBreakActive(now: int) returns (active: bool)
      modifies this
      ensures active == BreakActive(old(emergencyBreakUntil), now)
      ensures emergencyBreakUntil == DeadlineAfterCheck(old(emergencyBreakUntil), now)
      ensures heartbeatRunning == old(heartbeatRunning) && blockedAppDao == old(blockedAppDao)
      ensures usageTracker == old(usageTracker) && scheduleDao == old(scheduleDao) && hasContext == old(hasContext)
    {
      active := now < emergencyBreakUntil;
      if !active && emergencyBreakUntil != 0 {
        emergencyBreakUntil := 0;
      }
    }

    /**
     * checkUsageLimits: find the first limited app at or over its limit; if
     * a MANUAL session is running keep it, otherwise start (or extend) a
     * one-minute USAGE_LIMIT session.  Nothing happens without a DAO or a
     * tracker.
     */
    method CheckUsageLimits(now: int)
      modifies state
      ensures blockedAppDao == null || usageTracker.None? ==>
                state.status == old(state.status) && state.prefs == old(state.prefs)
      ensures blockedAppDao != null && usageTracker.Some? ==>
                var apps := blockedAppDao.GetAppsWithDailyLimit();
                var first := FirstOverLimit(apps, usageTracker.value);
                var current := old(state.Observed(now));
                (first.None? ==> state.status == old(state.status) && state.prefs == old(state.prefs))
                && (first.Some? && current.Active? && current.triggerType == MANUAL ==>
                      state.prefs == old(state.prefs) && state.Observed(now) == current)
                && (first.Some? && !(current.Active? && current.triggerType == MANUAL) ==>
                      state.status == NextStatus(current, USAGE_LIMIT, now, USAGE_LIMIT_ZEN_MS)
                      && (state.hasContext ==> state.prefs == Persist(old(state.prefs), state.status))
                      && (!state.hasContext ==> state.prefs == old(state.prefs)))
      ensures state.hasContext == old(state.hasContext)
    {
      if blockedAppDao == null || usageTracker.None? {
        return;
      }
      var tracker := usageTracker.value;
      var limitedApps := blockedAppDao.GetAppsWithDailyLimit();
      var i := 0;
      while i < |limitedApps|
        invariant 0 <= i <= |limitedApps|
        invariant forall j :: 0 <= j < i ==> !OverLimit(tracker, limitedApps[j])
        invariant state.status == old(state.status) && state.prefs == old(state.prefs)
        invariant state.hasContext == old(state.hasContext)
      {
        var app := limitedApps[i];
        var usageMinutes := TodayUsage(tracker, app.packageName);
        if usageMinutes < app.dailyLimitMinutes {
          i := i + 1;
          continue;
        }
        var currentStatus := state.GetStatus(now);
        if currentStatus.Active? && currentStatus.triggerType == MANUAL {
          return;
        }
        UsageLimitTrigger();
        var _ := StartZen(USAGE_LIMIT_ZEN_MS, Some(USAGE_LIMIT), now);
        return;
      }
    }

    /**
     * refreshSchedules: among the enabled schedules, the one whose next
     * trigger is earliest (the first of equals), turned into an alarm
     * request; nothing without a schedule DAO or a context, or with no
     * enabled schedule.
     */
    method RefreshSchedules(now: int) returns (alarm: Option<AlarmRequest>)
      ensures scheduleDao == null || !hasContext ==> alarm.None?
      ensures scheduleDao != null && hasContext ==> alarm == EarliestAlarm(scheduleDao.GetActiveSchedules(), now)
    {
      if scheduleDao == null || !hasContext {
        return None;
      }
      var enabled := scheduleDao.GetActiveSchedules();
      if |enabled| == 0 {
        return None;
      }
      var best, bestAt := EarliestSchedule(enabled, now);
      alarm := Some(AlarmRequest(enabled[best].id, bestAt, ZentoxAlarm.ComputeDurationMillis(enabled[best])));
    }
  }
}
