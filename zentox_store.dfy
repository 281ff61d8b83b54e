/**
 * The React app's main zustand store (src/store/useStore.ts): the blocked
 * apps and schedules as the native side last reported them, and a loading
 * flag.  The calls into the native bridge are recorded in `calls`; each
 * asynchronous fetch is split into the part before its `await` and the
 * part after it, so another action may run in between.
 */
module ZentoxStore {
  import opened Common

  /** An app of the list; `isBlocked` is the field the optimistic update spreads in. */
  datatype AppInfo = AppInfo(packageName: string, appName: string, isBlocked: Option<bool>)

  datatype ZenSchedule = ZenSchedule(
    id: int, name: string, startHour: int, startMinute: int, endHour: int, endMinute: int,
    daysOfWeek: string, isEnabled: bool)

  /** toggleAppBlock's optimistic update: every entry of the package gets the new flag; the rest stay as they are. */
  function Toggled(apps: seq<AppInfo>, packageName: string, isBlocked: bool): (r: seq<AppInfo>)
    ensures |r| == |apps|
    ensures forall i :: 0 <= i < |apps| ==>
              r[i].packageName == apps[i].packageName && r[i].appName == apps[i].appName
    ensures forall i :: 0 <= i < |apps| && apps[i].packageName != packageName ==> r[i] == apps[i]
    ensures forall i :: 0 <= i < |apps| && apps[i].packageName == packageName ==> r[i].isBlocked == Some(isBlocked)
    decreases |apps|
  {
    if |apps| == 0 then []
    else
      var head := if apps[0].packageName == packageName then apps[0].(isBlocked := Some(isBlocked)) else apps[0];
      [head] + Toggled(apps[1..], packageName, isBlocked)
  }

  /** Toggling a package twice keeps the second flag only. */
  lemma ToggledLastWins(apps: seq<AppInfo>, packageName: string, first: bool, second: bool)
    ensures Toggled(Toggled(apps, packageName, first), packageName, second) == Toggled(apps, packageName, second)
  {
    var a, b := Toggled(Toggled(apps, packageName, first), packageName, second), Toggled(apps, packageName, second);
    assert |a| == |b|;
    forall i | 0 <= i < |a|
      ensures a[i] == b[i]
    {
    }
  }

  /** Toggles of two different packages do not interfere, in either order. */
  lemma ToggledCommute(apps: seq<AppInfo>, p: string, q: string, x: bool, y: bool)
    requires p != q
    ensures Toggled(Toggled(apps, p, x), q, y) == Toggled(Toggled(apps, q, y), p, x)
  {
    var a, b := Toggled(Toggled(apps, p, x), q, y), Toggled(Toggled(apps, q, y), p, x);
    assert |a| == |b|;
    forall i | 0 <= i < |a|
      ensures a[i] == b[i]
    {
    }
  }

  /** The calls the store makes into the native bridge. */
  datatype BridgeCall =
    | FetchBlockedAppsCall
    | FetchSchedulesCall
    | SaveScheduleCall(schedule: ZenSchedule)
    | DeleteScheduleCall(id: int)
    | ToggleAppBlockCall(packageName: string, appName: string, isBlocked: bool)

  class Store {
    var blockedApps: seq<AppInfo>
    var schedules: seq<ZenSchedule>
    var isLoading: bool
    var calls: seq<BridgeCall>

    constructor ()
      ensures blockedApps == [] && schedules == [] && !isLoading && calls == []
    {
      blockedApps, schedules, isLoading, calls := [], [], false, [];
    }

    /** fetchBlockedApps up to its await: loading, and the native fetch under way. */
    method BeginFetchBlockedApps()
      modifies this
      ensures isLoading && calls == old(calls) + [FetchBlockedAppsCall]
      ensures blockedApps == old(blockedApps) && schedules == old(schedules)
    {
      isLoading := true;
      calls := calls + [FetchBlockedAppsCall];
    }

    /**
     * fetchBlockedApps after its await: the answer replaces the list, a
     * failure (None) keeps the old one, and loading ends either way.
     */
    method FinishFetchBlockedApps(result: Option<seq<AppInfo>>)
      modifies this
      ensures !isLoading
      ensures blockedApps == (if result.Some? then result.value else old(blockedApps))
      ensures schedules == old(schedules) && calls == old(calls)
    {
      if result.Some? {
        blockedApps := result.value;
      }
      isLoading := false;
    }

    /** fetchSchedules up to its await. */
    method BeginFetchSchedules()
      modifies this
      ensures isLoading && calls == old(calls) + [FetchSchedulesCall]
      ensures blockedApps == old(blockedApps) && schedules == old(schedules)
    {
      isLoading := true;
      calls := calls + [FetchSchedulesCall];
    }

    /** fetchSchedules after its await: the same shape as for the apps. */
    method FinishFetchSchedules(result: Option<seq<ZenSchedule>>)
      modifies this
      ensures !isLoading
      ensures schedules == (if result.Some? then result.value else old(schedules))
      ensures blockedApps == old(blockedApps) && calls == old(calls)
    {
      if result.Some? {
        schedules := result.value;
      }
      isLoading := false;
    }

    /**
     * saveSchedule: the native save, then, only when it succeeded, a
     * fresh fetch of the schedules (finished by FinishFetchSchedules).
     */
    method SaveSchedule(schedule: ZenSchedule, saveOk: bool)
      modifies this
      ensures saveOk ==> isLoading && calls == old(calls) + [SaveScheduleCall(schedule), FetchSchedulesCall]
      ensures !saveOk ==> isLoading == old(isLoading) && calls == old(calls) + [SaveScheduleCall(schedule)]
      ensures blockedApps == old(blockedApps) && schedules == old(schedules)
    {
      calls := calls + [SaveScheduleCall(schedule)];
      if saveOk {
        BeginFetchSchedules();
      }
    }

    /** deleteSchedule: the native delete, then a fresh fetch only when it succeeded. */
    method DeleteSchedule(id: int, deleteOk: bool)
      modifies this
      ensures deleteOk ==> isLoading && calls == old(calls) + [DeleteScheduleCall(id), FetchSchedulesCall]
      ensures !deleteOk ==> isLoading == old(isLoading) && calls == old(calls) + [DeleteScheduleCall(id)]
      ensures blockedApps == old(blockedApps) && schedules == old(schedules)
    {
      calls := calls + [DeleteScheduleCall(id)];
      if deleteOk {
        BeginFetchSchedules();
      }
    }

    /** toggleAppBlock: tells the native side, then updates the list in place without waiting. */
    method ToggleAppBlock(packageName: string, appName: string, isBlocked: bool)
      modifies this
      ensures blockedApps == Toggled(old(blockedApps), packageName, isBlocked)
      ensures calls == old(calls) + [ToggleAppBlockCall(packageName, appName, isBlocked)]
      ensures schedules == old(schedules) && isLoading == old(isLoading)
    {
      calls := calls + [ToggleAppBlockCall(packageName, appName, isBlocked)];
      blockedApps := Toggled(blockedApps, packageName, isBlocked);
    }
  }
}
