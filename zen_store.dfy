/**
 * The zustand store behind the React Zen timer (src/store/zenStore.ts):
 * whether Zen mode is on, the session length and the seconds left, and a
 * cache of the installed apps.  Every setter replaces its own fields and
 * leaves the others as they were.  Times are whole seconds.
 */
module ZenStore {
  import opened Common

  /** The default session length, 20 minutes in seconds. */
  const DEFAULT_DURATION_SECONDS: int := 20 * 60

  /** An installed app as the app list caches it. */
  datatype InstalledApp = InstalledApp(packageName: string, appName: string)

  /** decrementTime's new value: one second less, never below zero. */
  function Decremented(remaining: int): (r: int)
    ensures r >= 0
    ensures remaining > 0 ==> r == remaining - 1
    ensures remaining <= 0 ==> r == 0
  {
    Max(0, remaining - 1)
  }

  /** The seconds left after `ticks` calls of decrementTime. */
  function DecrementedTimes(remaining: int, ticks: nat): (r: int)
    decreases ticks
  {
    if ticks == 0 then remaining else DecrementedTimes(Decremented(remaining), ticks - 1)
  }

  /**
   * Counting down from a non-negative time, `ticks` decrements leave
   * max(0, remaining - ticks): the timer reaches zero after exactly
   * `remaining` ticks and then stays there.
   */
  lemma {:induction false} DecrementedTimesValue(remaining: int, ticks: nat)
    requires remaining >= 0
    ensures DecrementedTimes(remaining, ticks) == Max(0, remaining - ticks)
    decreases ticks
  {
    if ticks > 0 {
      DecrementedTimesValue(Decremented(remaining), ticks - 1);
    }
  }

  /** Decrementing at zero changes nothing. */
  lemma DecrementedAtZero(ticks: nat)
    ensures DecrementedTimes(0, ticks) == 0
  {
    DecrementedTimesValue(0, ticks);
  }

  class Store {
    var isZenModeActive: bool
    var zenDuration: int
    var remainingTime: int
    var installedApps: seq<InstalledApp>

    /** The initial state: off, with a 20-minute duration and 20 minutes left. */
    constructor ()
      ensures !isZenModeActive && zenDuration == DEFAULT_DURATION_SECONDS && remainingTime == DEFAULT_DURATION_SECONDS
      ensures installedApps == []
    {
      isZenModeActive := false;
      zenDuration := DEFAULT_DURATION_SECONDS;
      remainingTime := DEFAULT_DURATION_SECONDS;
      installedApps := [];
    }

    method SetZenModeActive(active: bool)
      modifies this
      ensures isZenModeActive == active
      ensures zenDuration == old(zenDuration) && remainingTime == old(remainingTime) && installedApps == old(installedApps)
    {
      isZenModeActive := active;
    }

    /** setZenDuration restarts the countdown: the duration and the time left both become `duration`. */
    method SetZenDuration(duration: int)
      modifies this
      ensures zenDuration == duration && remainingTime == duration
      ensures isZenModeActive == old(isZenModeActive) && installedApps == old(installedApps)
    {
      zenDuration, remainingTime := duration, duration;
    }

    method SetRemainingTime(time: int)
      modifies this
      ensures remainingTime == time
      ensures isZenModeActive == old(isZenModeActive) && zenDuration == old(zenDuration) && installedApps == old(installedApps)
    {
      remainingTime := time;
    }

    /** decrementTime: one second less, never below zero. */
    method DecrementTime()
      modifies this
      ensures remainingTime == Decremented(old(remainingTime))
      ensures isZenModeActive == old(isZenModeActive) && zenDuration == old(zenDuration) && installedApps == old(installedApps)
    {
      remainingTime := Max(0, remainingTime - 1);
    }

    method SetInstalledApps(apps: seq<InstalledApp>)
      modifies this
      ensures installedApps == apps
      ensures isZenModeActive == old(isZenModeActive) && zenDuration == old(zenDuration) && remainingTime == old(remainingTime)
    {
      installedApps := apps;
    }
  }
}
