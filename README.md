# Zen mode app blocker: a Dafny model

The app blocks chosen Android apps during a "Zen" session. A session is
started by hand, by a schedule, or when an app has used up its daily
limit. The repository holds three generations of the Android side,
`com.zenbl`, `com.zenox` and `com.zentox`, under a React Native UI. This
project models the logic of each generation as its own Dafny module and
proves what that logic promises.

- **Session state.** The session manager and the persisted Zen status
  are `SessionManager` and `ZentoxState`. `startZen` never opens a second
  session and only moves the end later. The emergency break lasts five
  minutes. The usage-limit trigger starts at most one session per run.
  The status decodes from preferences, with an expired session reading
  as inactive.
- **Enforcement.** `Enforcement` holds `shouldEnforce`, the block lookup
  (where a zenox focus profile overrides the database), the 700 ms
  redirect cooldown and the hide/show decision of one accessibility event.
- **Schedule arithmetic.**
  - `ZentoxAlarm` has the next trigger time and the session length.
  - `ZenoxEngine` has the inclusive window and 1 = Monday numbering.
  - `ZenblEngine` has the half-open window.
  - `EngineCommon` holds the parts the two engines share.
  - `ScheduleService` is the once-a-minute JavaScript check.
- **Blockers and overlays.**
  - `PuffService` is the Java "puff" blocker: audio, then attach, then HOME, with a 1 s delay, a 3 s animation and removal at 3.1 s.
  - `ZenblBlocker` and `ZenoxBlocker` are the Kotlin accessibility services, with the removal debounce, the home grace window and the `isRemovingOverlay` guard.
  - `OverlayCommon` holds the emergency-exit hold the Kotlin services share.
  - `OverlayService` is `ZenoxOverlayService`, with its break options and five-second hold.
  - `ZenoxNotification` is the ongoing notification.
- **Block-list stores.**
  - The two Room DAOs are `ZenDao` and `AppDatabase`. Each table is a sequence of rows in scan order, and REPLACE inserts delete the old row and append the new one.
  - `ZenoxBridge` covers the bridge's `setBlockedApps` merge, the toggle, the dashboard figures and the top-apps ranking.
  - `ZenEngineModule` covers the engine module's block list, schedule defaults, app scan and icon sizing.
- **React side.** `ZenStore` is the Zen timer store, `ZentoxStore` the main store and `I18n` the translation lookup.

Time is a count of milliseconds, plus a day index and a minute of the
day. There is no time zone and no daylight saving. Delayed callbacks
(150, 800, 1000, 1200, 3000 and 3100 ms) are separate methods, run when
the framework would deliver them. Calls into the Android framework or
the native bridge that the logic depends on are handled in two ways:

- What they answer is a parameter: an `Option` where a call can return nothing, a `bool` where it can throw.
- What they do is appended to an `effects` log on the object, so the order of effects is part of each contract.

`Common` holds the Kotlin/JVM string helpers: whitespace, `trim`,
`split`, `toIntOrNull` (ASCII digits only), `"%02d"`, `coerceIn` and truncating division.
`Sorting` holds the stable sort and filter behind the SQL `ORDER BY` and
`WHERE` clauses.

## Model

| member | source | states |
|---|---|---|
| AppDatabase.WithoutPackage | android/app/src/main/java/com/zentox/engine/AppDatabase.kt:26-27 | the rows left when a package's row goes: exactly the other rows, one fewer when the key was present, the same list when it was not; unique keys stay unique |
| AppDatabase.Upserted | android/app/src/main/java/com/zentox/engine/AppDatabase.kt:26-27 | REPLACE on the package key: the new row plus every old row with another package, keys still unique |
| AppDatabase.FindPackage | android/app/src/main/java/com/zentox/engine/AppDatabase.kt:29-30 | the LIMIT 1 lookup: null exactly when no row has the package, otherwise a stored row with that package |
| AppDatabase.FindPackageUnique | android/app/src/main/java/com/zentox/engine/AppDatabase.kt:29-30 | in a table with unique keys the lookup of a stored row's package returns that row |
| AppDatabase.UpsertLookup | android/app/src/main/java/com/zentox/engine/AppDatabase.kt:26-30 | after an upsert the new row answers for its package and every other package answers as before |
| AppDatabase.WithDailyLimit | android/app/src/main/java/com/zentox/engine/AppDatabase.kt:32-33 | exactly the rows with dailyLimitMinutes > 0 |
| AppDatabase.BlockedRows | android/app/src/main/java/com/zentox/engine/AppDatabase.kt:38-39 | exactly the rows with isBlocked |
| AppDatabase.CountMatchesBlockedRows | android/app/src/main/java/com/zentox/engine/AppDatabase.kt:38-42 | COUNT(*) over isBlocked = 1 equals the size of getBlockedApps |
| AppDatabase.BlockedAppDao.constructor | android/app/src/main/java/com/zentox/engine/AppDatabase.kt:24-43 | an empty blocked_apps table with unique keys |
| AppDatabase.BlockedAppDao.Upsert | android/app/src/main/java/com/zentox/engine/AppDatabase.kt:26-27 | the table becomes Upserted(old table, app) and keeps unique keys |
| AppDatabase.BlockedAppDao.GetByPackageName | android/app/src/main/java/com/zentox/engine/AppDatabase.kt:29-30 | a stored row with that package, or null only when no row has it |
| AppDatabase.BlockedAppDao.GetAppsWithDailyLimit | android/app/src/main/java/com/zentox/engine/AppDatabase.kt:32-33 | exactly the stored rows with a positive daily limit |
| AppDatabase.BlockedAppDao.GetAll | android/app/src/main/java/com/zentox/engine/AppDatabase.kt:35-36 | every stored row |
| AppDatabase.BlockedAppDao.GetBlockedApps | android/app/src/main/java/com/zentox/engine/AppDatabase.kt:38-39 | exactly the stored rows with isBlocked |
| AppDatabase.BlockedAppDao.GetBlockedCount | android/app/src/main/java/com/zentox/engine/AppDatabase.kt:41-42 | equal to the size of getBlockedApps |
| AppDatabase.ConsAscending | android/app/src/main/java/com/zentox/engine/AppDatabase.kt:53-54 | a row with a smaller id than all others can head an id-ascending table |
| AppDatabase.HeadSmallest | android/app/src/main/java/com/zentox/engine/AppDatabase.kt:47-48 | the first row of an id-ascending table has the smallest id |
| AppDatabase.WithoutId | android/app/src/main/java/com/zentox/engine/AppDatabase.kt:56-57 | exactly the rows with another id, one fewer when the id was present, unchanged when it was not, still ascending |
| AppDatabase.InsertById | android/app/src/main/java/com/zentox/engine/AppDatabase.kt:53-54 | the table with the new row added at its id position: ascending, one row longer, old rows kept |
| AppDatabase.Reverse | android/app/src/main/java/com/zentox/engine/AppDatabase.kt:47-48 | the rows in reverse order, used for ORDER BY id DESC |
| AppDatabase.EnabledRows | android/app/src/main/java/com/zentox/engine/AppDatabase.kt:50-51 | exactly the rows with isEnabled |
| AppDatabase.ZenScheduleDao.constructor | android/app/src/main/java/com/zentox/engine/AppDatabase.kt:45-58 | an empty zen_schedules table with the autoincrement counter at 0 |
| AppDatabase.ZenScheduleDao.AssignedId | android/app/src/main/java/com/zentox/engine/AppDatabase.kt:53-54 | id 0 asks for a fresh id one past the counter; any other id is kept (see also line 16 of the same file) |
| AppDatabase.ZenScheduleDao.InsertSchedule | android/app/src/main/java/com/zentox/engine/AppDatabase.kt:53-54 | returns the assigned id; a row with that id is replaced; a fresh id was not in use; the counter reaches the id |
| AppDatabase.ZenScheduleDao.DeleteById | android/app/src/main/java/com/zentox/engine/AppDatabase.kt:56-57 | removes only that id and returns the number of rows removed, 1 or 0 |
| AppDatabase.ZenScheduleDao.GetAllSchedules | android/app/src/main/java/com/zentox/engine/AppDatabase.kt:47-48 | every stored row, in descending id order |
| AppDatabase.ZenScheduleDao.GetActiveSchedules | android/app/src/main/java/com/zentox/engine/AppDatabase.kt:50-51 | exactly the enabled rows |
| ZenDao.WithoutKey | android/app/src/main/java/com/zenox/engine/db/ZenDao.kt:19-20 | exactly the rows of other packages; no row of that package is left; unique keys stay unique |
| ZenDao.Replaced | android/app/src/main/java/com/zenox/engine/db/ZenDao.kt:14-15 | one INSERT OR REPLACE keeps the package key unique |
| ZenDao.Lookup | android/app/src/main/java/com/zenox/engine/db/ZenDao.kt:5-26 | the row stored under a key: absent exactly when no row has the key |
| ZenDao.LookupWithoutKey | android/app/src/main/java/com/zenox/engine/db/ZenDao.kt:19-20 | after a delete the deleted key is gone and every other key answers as before |
| ZenDao.LookupAppend | android/app/src/main/java/com/zenox/engine/db/ZenDao.kt:14-15 | an appended row is found only for a key no earlier row holds |
| ZenDao.LookupAfterReplace | android/app/src/main/java/com/zenox/engine/db/ZenDao.kt:14-15 | after a REPLACE the new row answers for its key and the other keys are untouched |
| ZenDao.InsertedAll | android/app/src/main/java/com/zenox/engine/db/ZenDao.kt:14-15 | a list insert, one REPLACE per element, keeps keys unique |
| ZenDao.LastWith | android/app/src/main/java/com/zenox/engine/db/ZenDao.kt:14-15 | the last element of a list with a given key, or none when no element has it |
| ZenDao.InsertedAllLookup | android/app/src/main/java/com/zenox/engine/db/ZenDao.kt:14-15 | after a list insert a listed key holds its last occurrence in the list and an unlisted key is untouched |
| ZenDao.AppNameOrder | android/app/src/main/java/com/zenox/engine/db/ZenDao.kt:8 | ORDER BY appName is a total preorder |
| ZenDao.KeysOf | android/app/src/main/java/com/zenox/engine/db/ZenDao.kt:11-12 | one package name per row, and a name is in it exactly when a row has that key |
| ZenDao.ConsAscending | android/app/src/main/java/com/zenox/engine/db/ZenDao.kt:35-36 | a row with a smaller id than all others can head an id-ascending table |
| ZenDao.HeadSmallest | android/app/src/main/java/com/zenox/engine/db/ZenDao.kt:35-36 | the first row of an id-ascending table has the smallest id |
| ZenDao.WithoutId | android/app/src/main/java/com/zenox/engine/db/ZenDao.kt:38-40 | exactly the rows with another id, unchanged when the id is absent, still ascending |
| ZenDao.InsertById | android/app/src/main/java/com/zenox/engine/db/ZenDao.kt:35-36 | the new row added at its id position, keeping the old rows and the ascending order |
| ZenDao.InsertedSchedule | android/app/src/main/java/com/zenox/engine/db/ZenDao.kt:35-36 | one schedule insert: the stored row under its assigned id replaces any row with that id; the counter covers every id |
| ZenDao.InsertedSchedules | android/app/src/main/java/com/zenox/engine/db/ZenDao.kt:45-48 | inserting the schedules in turn keeps the table well formed |
| ZenDao.ReplaceAllSchedulesExact | android/app/src/main/java/com/zenox/engine/db/ZenDao.kt:44-48 | for a list of distinct explicit ids, replaceAllSchedules leaves exactly the listed schedules |
| ZenDao.StartTimeOrder | android/app/src/main/java/com/zenox/engine/db/ZenDao.kt:29 | ORDER BY startHour, startMinute is a total preorder |
| ZenDao.Dao.constructor | android/app/src/main/java/com/zenox/engine/db/ZenDao.kt:5-49 | both tables empty and the schedule counter at 0 |
| ZenDao.Dao.GetAllBlockedApps | android/app/src/main/java/com/zenox/engine/db/ZenDao.kt:8-9 | the stored rows as a permutation, sorted by appName |
| ZenDao.Dao.GetBlockedPackageNames | android/app/src/main/java/com/zenox/engine/db/ZenDao.kt:11-12 | one name per row, and exactly the stored keys |
| ZenDao.Dao.InsertBlockedApps | android/app/src/main/java/com/zenox/engine/db/ZenDao.kt:14-15 | the table becomes InsertedAll(old table, apps); the schedules are untouched |
| ZenDao.Dao.ClearBlockedApps | android/app/src/main/java/com/zenox/engine/db/ZenDao.kt:17 | the blocked table is empty and the schedules are untouched |
| ZenDao.Dao.DeleteBlockedApp | android/app/src/main/java/com/zenox/engine/db/ZenDao.kt:19-20 | the table loses exactly that package's row |
| ZenDao.Dao.ReplaceAllBlockedApps | android/app/src/main/java/com/zenox/engine/db/ZenDao.kt:22-26 | clear then insert: the table becomes InsertedAll(empty, apps) |
| ZenDao.Dao.GetAllSchedules | android/app/src/main/java/com/zenox/engine/db/ZenDao.kt:29-30 | the stored schedules as a permutation, sorted by start hour and minute |
| ZenDao.Dao.GetEnabledSchedules | android/app/src/main/java/com/zenox/engine/db/ZenDao.kt:32-33 | exactly the enabled schedules, both directions |
| ZenDao.Dao.InsertSchedule | android/app/src/main/java/com/zenox/engine/db/ZenDao.kt:35-36 | returns the assigned row id, and the table and counter become InsertedSchedule's |
| ZenDao.Dao.DeleteScheduleById | android/app/src/main/java/com/zenox/engine/db/ZenDao.kt:38-40 | the table loses exactly the rows with that id |
| ZenDao.Dao.ClearSchedules | android/app/src/main/java/com/zenox/engine/db/ZenDao.kt:42 | the schedule table is empty; blocked apps and counter untouched |
| ZenDao.Dao.ReplaceAllSchedules | android/app/src/main/java/com/zenox/engine/db/ZenDao.kt:44-48 | clear, then the loop of inserts: the table becomes InsertedSchedules(empty, counter, list) |
| ZenDao.ReplaceAllLastWins | android/app/src/main/java/com/zenox/engine/db/ZenDao.kt:22-26 | after replaceAllBlockedApps keys are unique and each key holds its last occurrence in the list |
| ZenDao.DeleteOnlyThat | android/app/src/main/java/com/zenox/engine/db/ZenDao.kt:19-20 | the deleted key is gone and every other key answers as before |
| ZentoxState.Persist | android/app/src/main/java/com/zentox/engine/ZentoxState.kt:43-61 | the stored record: active=false with trigger and end time removed for INACTIVE; active=true with the trigger and end time for ACTIVE |
| ZentoxState.TriggerOrUnknown | android/app/src/main/java/com/zentox/engine/ZentoxState.kt:68 | the stored trigger when it is present and not blank, "UNKNOWN" otherwise; never blank |
| ZentoxState.Decode | android/app/src/main/java/com/zentox/engine/ZentoxState.kt:63-75 | ACTIVE exactly when the active flag is set and the end time is after now; then it has that end time and a non-blank trigger |
| ZentoxState.PersistDecodeActive | android/app/src/main/java/com/zentox/engine/ZentoxState.kt:63-74 | writing ACTIVE(t, e) with a non-blank t and reading it back before e gives ACTIVE(t, e) (see also lines 38-41, 54-58 of the same file) |
| ZentoxState.PersistDecodeInactive | android/app/src/main/java/com/zentox/engine/ZentoxState.kt:48-52 | writing INACTIVE and reading it back gives INACTIVE (see also line 67 of the same file) |
| ZentoxState.ExpiredDecodesInactive | android/app/src/main/java/com/zentox/engine/ZentoxState.kt:70-71 | a record whose end time is not after now reads as INACTIVE |
| ZentoxState.PersistDecodeBlankTrigger | android/app/src/main/java/com/zentox/engine/ZentoxState.kt:56 | an ACTIVE status with a blank trigger reads back as ACTIVE("UNKNOWN", e) (see also line 68 of the same file) |
| ZentoxState.StateStore.constructor | android/app/src/main/java/com/zentox/engine/ZentoxState.kt:21-23 | INACTIVE in memory, no context yet, the disk record as it is |
| ZentoxState.StateStore.Initialize | android/app/src/main/java/com/zentox/engine/ZentoxState.kt:25-28 | the context is set and the in-memory status becomes the decoded record |
| ZentoxState.StateStore.GetStatus | android/app/src/main/java/com/zentox/engine/ZentoxState.kt:30-36 | with a context: the decoded record, which also replaces the in-memory value; without one: the in-memory value, unchanged |
| ZentoxState.StateStore.SetStatus | android/app/src/main/java/com/zentox/engine/ZentoxState.kt:38-44 | the in-memory status becomes the new one; the record is rewritten by Persist only when a context exists |
| ZentoxAlarm.ParseTime | android/app/src/main/java/com/zentox/engine/ZentoxAlarmManager.kt:84-89 | hour in 0..23 and minute in 0..59 whatever the text |
| ZentoxAlarm.ParseTimeOfPadded | android/app/src/main/java/com/zentox/engine/ZentoxAlarmManager.kt:84-89 | reading back "HH:MM" of an in-range hour and minute gives that hour and minute |
| ZentoxAlarm.ParseTimeWithoutColon | android/app/src/main/java/com/zentox/engine/ZentoxAlarmManager.kt:86-88 | a text without ':' has minute 0, and its hour is the clamped number when it parses |
| ZentoxAlarm.DaysIn | android/app/src/main/java/com/zentox/engine/ZentoxAlarmManager.kt:92-95 | every collected day is in 1..7 |
| ZentoxAlarm.DaysInNamed | android/app/src/main/java/com/zentox/engine/ZentoxAlarmManager.kt:92-95 | a day is collected exactly when some piece, trimmed, is its number |
| ZentoxAlarm.ParseDaysOfWeek | android/app/src/main/java/com/zentox/engine/ZentoxAlarmManager.kt:91-96 | every parsed day is in 1..7 |
| ZentoxAlarm.ComputeDurationMillis | android/app/src/main/java/com/zentox/engine/ZentoxAlarmManager.kt:75-82 | a whole number of minutes between 1 and 1439 |
| ZentoxAlarm.DurationReachesEnd | android/app/src/main/java/com/zentox/engine/ZentoxAlarmManager.kt:78-81 | start plus the duration lands on the end minute, wrapping midnight; start == end gives one minute; a later end gives end - start |
| ZentoxAlarm.Weekday | android/app/src/main/java/com/zentox/engine/ZentoxAlarmManager.kt:61 | the Calendar weekday of a day index, 1=Sunday..7=Saturday |
| ZentoxAlarm.TimeOfDay | android/app/src/main/java/com/zentox/engine/ZentoxAlarmManager.kt:56-59 | hour:minute with zero seconds and millis, within one day |
| ZentoxAlarm.FirstOffset | android/app/src/main/java/com/zentox/engine/ZentoxAlarmManager.kt:53-64 | the first day offset from 0 to 7 whose candidate is on an allowed day and after now, and no earlier offset qualifies |
| ZentoxAlarm.ComputeNextTriggerAt | android/app/src/main/java/com/zentox/engine/ZentoxAlarmManager.kt:48-73 | the loop's answer is NextTriggerAt (whose meaning NextTriggerFacts states) and lies after now |
| ZentoxAlarm.LaterDayIsAfterNow | android/app/src/main/java/com/zentox/engine/ZentoxAlarmManager.kt:53-63 | any candidate a day or more ahead is after now |
| ZentoxAlarm.DaysUntilWeekday | android/app/src/main/java/com/zentox/engine/ZentoxAlarmManager.kt:53-63 | 1 to 7 days ahead lies a day with the wanted weekday |
| ZentoxAlarm.FirstAllowedDay | android/app/src/main/java/com/zentox/engine/ZentoxAlarmManager.kt:61 | the first allowed weekday from a point on, or none when no later weekday is allowed |
| ZentoxAlarm.ScanAlwaysFinds | android/app/src/main/java/com/zentox/engine/ZentoxAlarmManager.kt:53-73 | the 0..7 scan always finds a candidate, so the fallback after the loop is never reached |
| ZentoxAlarm.BetweenIsEarlierCandidate | android/app/src/main/java/com/zentox/engine/ZentoxAlarmManager.kt:53-63 | a time between now and a candidate at the same time of day is the candidate of an earlier offset |
| ZentoxAlarm.NextTriggerFacts | android/app/src/main/java/com/zentox/engine/ZentoxAlarmManager.kt:53-63 | the trigger is after now, at the start time, on an allowed weekday (any day when none is listed), and no earlier such time exists |
| ZentoxAlarm.DayDecomposition | android/app/src/main/java/com/zentox/engine/ZentoxAlarmManager.kt:55-59 | a day index and a time of day are recovered from their sum by / and % |
| SessionManager.TriggerTypeOf | android/app/src/main/java/com/zenox/engine/ZenoxManager.kt:64 | a null or blank trigger type becomes "UNKNOWN", any other the trimmed text; never empty |
| SessionManager.TriggerTypeNotBlank | android/app/src/main/java/com/zentox/engine/ZentoxManager.kt:64 | the recorded trigger type is never blank |
| SessionManager.NextStatus | android/app/src/main/java/com/zenox/engine/ZenoxManager.kt:65-76 | always ACTIVE and lasting at least until now + duration; from INACTIVE exactly ACTIVE(trigger, now + duration); from ACTIVE the old trigger with end = max(old end, now + duration) |
| SessionManager.NextStatusNeverShortens | android/app/src/main/java/com/zentox/engine/ZentoxManager.kt:68-76 | starting during a session never moves its end earlier and keeps its trigger: no second session |
| SessionManager.NextStatusIdempotent | android/app/src/main/java/com/zenox/engine/ZenoxManager.kt:68-76 | repeating the same start at the same moment changes nothing more |
| SessionManager.DeadlineAfterCheck | android/app/src/main/java/com/zenox/engine/ZenoxManager.kt:109-116 | the deadline is kept while the break is active and reset to 0 once it has passed |
| SessionManager.EmergencyBreakWindow | android/app/src/main/java/com/zenox/engine/ZenoxManager.kt:103-116 | a break requested at t0 is active exactly while t < t0 + 300000, and stays inactive once its deadline is cleared (see also line 17 of the same file) |
| SessionManager.FirstOverLimit | android/app/src/main/java/com/zenox/engine/ZenoxManager.kt:137-143 | the first limited app whose usage today reached its limit, and no earlier app did |
| SessionManager.UsageLimitTrigger | android/app/src/main/java/com/zenox/engine/ZenoxManager.kt:150 | the usage-limit session is recorded with trigger "USAGE_LIMIT" |
| SessionManager.AlarmFor | android/app/src/main/java/com/zenox/engine/ZenoxManager.kt:169-170 | the alarm for a schedule carries its id, fires after now and lasts at least a minute |
| SessionManager.Triggers | android/app/src/main/java/com/zenox/engine/ZenoxManager.kt:166-167 | each enabled schedule's next trigger time, in order |
| SessionManager.ArgMin | android/app/src/main/java/com/zenox/engine/ZenoxManager.kt:166-168 | minByOrNull: an index of a least trigger time, the first among equals |
| SessionManager.ArgMinStep | android/app/src/main/java/com/zenox/engine/ZenoxManager.kt:166-168 | extending the scan by one element replaces the best only on a strictly smaller value |
| SessionManager.EarliestSchedule | android/app/src/main/java/com/zenox/engine/ZenoxManager.kt:166-168 | the loop returns ArgMin of the trigger times and that schedule's trigger time |
| SessionManager.Manager.constructor | android/app/src/main/java/com/zenox/engine/ZenoxManager.kt:19-27 | no heartbeat, no DAOs, no tracker or context, and no emergency break |
| SessionManager.Manager.Initialize | android/app/src/main/java/com/zenox/engine/ZenoxManager.kt:29-39 | the DAOs, tracker and context are set, the heartbeat runs, the state store holds the decoded record, and the closing refreshSchedules returns the alarm for the earliest next trigger among the new DAO's enabled schedules (none when there is none) |
| SessionManager.Manager.StartZen | android/app/src/main/java/com/zenox/engine/ZenoxManager.kt:56-81 | a non-positive duration forces and returns INACTIVE; otherwise the status becomes and returns NextStatus of the observed status; the record is persisted when a context exists |
| SessionManager.Manager.StopZen | android/app/src/main/java/com/zentox/engine/ZentoxManager.kt:83-88 | INACTIVE, persisted when a context exists, and the emergency-break deadline reset to 0 |
| SessionManager.Manager.Shutdown | android/app/src/main/java/com/zenox/engine/ZenoxManager.kt:90-101 | heartbeat stopped, DAOs, tracker and context dropped, deadline 0 |
| SessionManager.Manager.RequestEmergencyBreak | android/app/src/main/java/com/zenox/engine/ZenoxManager.kt:103-107 | the deadline becomes now + 300000 and nothing else changes |
| SessionManager.Manager.IsEmergencyBreakActive | android/app/src/main/java/com/zentox/engine/ZentoxManager.kt:109-116 | true exactly when now is before the deadline; a passed deadline is reset to 0 |
| SessionManager.Manager.CheckUsageLimits | android/app/src/main/java/com/zenox/engine/ZenoxManager.kt:131-154 | no DAO or tracker: no change; no app over its limit: no change; a MANUAL session: kept as it is; otherwise one 60000 ms USAGE_LIMIT start for the first app over its limit, saved to the preferences record when a context exists |
| SessionManager.Manager.RefreshSchedules | android/app/src/main/java/com/zenox/engine/ZenoxManager.kt:160-172 | no DAO or context: no alarm; otherwise an alarm exactly when a schedule is enabled, for the one with the earliest next trigger |
| Enforcement.EnforcementLoopGuard.constructor | android/app/src/main/java/com/zenox/engine/ZenoxAccessibilityService.kt:141-145 | a 700 ms cooldown, no last package, last redirect at 0 |
| Enforcement.EnforcementLoopGuard.ShouldSuppress | android/app/src/main/java/com/zenox/engine/ZenoxAccessibilityService.kt:147-154 | suppresses exactly a repeat of the last package within the cooldown; a suppressed call keeps the state, any other records (package, now) |
| Enforcement.GuardWindow | android/app/src/main/java/com/zentox/engine/ZentoxAccessibilityService.kt:121-127 | the same package is suppressed exactly before last + 700; another package, or no previous package, is never suppressed (see also line 115 of the same file) |
| Enforcement.ProfileItems | android/app/src/main/java/com/zenox/engine/ZenoxAccessibilityService.kt:130-135 | the set built from the array never holds an empty string |
| Enforcement.ProfileSet | android/app/src/main/java/com/zenox/engine/ZenoxAccessibilityService.kt:122-139 | the empty set on a missing record, a missing array or a parse failure |
| Enforcement.ProfileItemsMembers | android/app/src/main/java/com/zenox/engine/ZenoxAccessibilityService.kt:130-135 | a package is in the set exactly when some array entry trims to it and it is not empty |
| Enforcement.ProfileItemsSnoc | android/app/src/main/java/com/zenox/engine/ZenoxAccessibilityService.kt:131-134 | one more loop step adds the trimmed entry when it is not empty, and nothing else |
| Enforcement.ProfileItemsTrimmed | android/app/src/main/java/com/zenox/engine/ZenoxAccessibilityService.kt:132-133 | every package in the set is non-empty and already trimmed |
| Enforcement.ReadActiveProfileBlockedPackages | android/app/src/main/java/com/zenox/engine/ZenoxAccessibilityService.kt:122-139 | the loop builds exactly ProfileSet of the record |
| Enforcement.RowBlockedIff | android/app/src/main/java/com/zentox/engine/ZentoxAccessibilityService.kt:81-83 | with unique keys, the row test holds exactly when a stored row for the package has isBlocked |
| Enforcement.IsBlocked | android/app/src/main/java/com/zenox/engine/ZenoxAccessibilityService.kt:84-90 | a non-empty profile set alone decides membership; with an empty one the DAO row's isBlocked decides |
| Enforcement.NotEnforcedAction | android/app/src/main/java/com/zenox/engine/ZenoxAccessibilityService.kt:41-52 | a non-enforced package hides the overlay exactly when it is visible and the package is neither the app's own nor com.android.systemui (see also line 76 of the same file) |
| Enforcement.EnforcementService.constructor | android/app/src/main/java/com/zenox/engine/ZenoxAccessibilityService.kt:20-26 | the service holds its guard, manager, DAO, own package and profile mode |
| Enforcement.EnforcementService.ShouldEnforce | android/app/src/main/java/com/zenox/engine/ZenoxAccessibilityService.kt:100-119 | false for a null or blank package with nothing changed; otherwise true exactly when no break is active, the session is ACTIVE and not expired, and the package is blocked; the break deadline and the in-memory status after each case (kept during a break, INACTIVE with the deadline cleared for an expired session, the decoded status otherwise); the preferences record is never changed, since a decoded record is never expired |
| Enforcement.EnforcementService.OnAccessibilityEvent | android/app/src/main/java/com/zenox/engine/ZenoxAccessibilityService.kt:37-62 | blank packages are ignored; a non-enforced package gives the hide/leave decision; an enforced package within the cooldown is suppressed; any other shows the overlay for it and is recorded in the guard; for a non-blank package the manager's break deadline and status change as in shouldEnforce, and the preferences record is unchanged |
| EngineCommon.HourOf | android/app/src/main/java/com/zenox/engine/ZenEngine.kt:208 | the hour of day of an instant lies in 0..23 |
| EngineCommon.MinuteOf | android/app/src/main/java/com/zenox/engine/ZenEngine.kt:209 | the minute of the hour lies in 0..59 |
| EngineCommon.MinuteOfDayOf | android/app/src/main/java/com/zenox/engine/ZenEngine.kt:208-209 | hour * 60 + minute names the minute of the day the instant falls in (see also line 256 of the same file) |
| EngineCommon.HourModShift | android/app/src/main/java/com/zenox/engine/ZenEngine.kt:208-209 | whole hours added to an instant leave its minute of the hour unchanged |
| EngineCommon.EngineDay | android/app/src/main/java/com/zenox/engine/ZenEngine.kt:210-212 | the Calendar day 1=Sunday..7=Saturday maps to 1=Monday..7=Sunday, and the map is one-to-one (d % 7 + 1 gives the Calendar day back) |
| EngineCommon.TodayOf | android/app/src/main/java/com/zenbl/engine/ZenEngine.kt:178-180 | the engine's day of the week is in 1..7 |
| EngineCommon.TodayAdvances | android/app/src/main/java/com/zenbl/engine/ZenEngine.kt:178-180 | one day later the engine's day is the next one, Sunday (7) wrapping to Monday (1) |
| EngineCommon.ParsedInts | android/app/src/main/java/com/zenbl/engine/ZenEngine.kt:203 | mapNotNull keeps at most one number per comma-separated piece |
| EngineCommon.ParsedIntsMembers | android/app/src/main/java/com/zenbl/engine/ZenEngine.kt:203 | a day is in the parsed list exactly when some piece, trimmed, parses as that integer |
| EngineCommon.AsSet | android/app/src/main/java/com/zenox/engine/ZenEngine.kt:135 | toSet keeps exactly the list's members |
| EngineCommon.GetOrElse | android/app/src/main/java/com/zenox/engine/ZenEngine.kt:58-61 | a stored preference, or the default when the key is absent |
| EngineCommon.RemainingSeconds | android/app/src/main/java/com/zenox/engine/ZenEngine.kt:117-120 | never negative; 0 without an active session or once the end has passed; otherwise the whole seconds left, so r * 1000 <= end - now < (r + 1) * 1000 |
| EngineCommon.CalculateEndTime | android/app/src/main/java/com/zenox/engine/ZenEngine.kt:270-284 | the end time is at the schedule's end hour and minute, not before now and less than a day after it |
| EngineCommon.CalculateEndTimeUnique | android/app/src/main/java/com/zenbl/engine/ZenEngine.kt:219-233 | it is the only such instant: any instant in [now, now + 1 day) at that time of day is the result |
| ZenoxEngine.ZenoxDays | android/app/src/main/java/com/zenox/engine/ZenEngine.kt:252 | one engine day per parsed number |
| ZenoxEngine.ZenoxDaysMembers | android/app/src/main/java/com/zenox/engine/ZenEngine.kt:251-253 | a day matches exactly when it is listed, or it is Sunday (7) and the list holds the old JavaScript Sunday 0; 0 itself never matches |
| ZenoxEngine.InWindowIsArc | android/app/src/main/java/com/zenox/engine/ZenEngine.kt:256-267 | the window, inclusive of both its start and its end minute, is the clockwise arc from start to end; overnight windows wrap past midnight and start == end is that single minute |
| ZenoxEngine.FindActiveSchedule | android/app/src/main/java/com/zenox/engine/ZenEngine.kt:218-237 | the loop with its break picks the first enabled schedule active now, or none |
| ZenoxEngine.EndMinuteStartsDayLongSession | android/app/src/main/java/com/zenox/engine/ZenEngine.kt:270-284 | a 9:00-10:00 schedule matches at 10:00:15 and its end time is then the next day's 10:00, a session of almost 24 hours (see also lines 260-267 of the same file) |
| ZenoxEngine.ActiveIsBeforeEndOrEndMinute | android/app/src/main/java/com/zenox/engine/ZenEngine.kt:255-267 | the inclusive window is exactly the minutes before the end minute together with the end minute itself, on a listed day |
| ZenoxEngine.SessionEndsWithWindow | android/app/src/main/java/com/zenox/engine/ZenEngine.kt:270-284 | a session a schedule with distinct start and end starts at any matching minute but its end minute ends after now and no later than the window's length after now: at the window's end |
| ZenoxEngine.ParseBlockedAppsJson | android/app/src/main/java/com/zenox/engine/ZenEngine.kt:189-198 | null, blank or unparsable JSON gives the empty list; otherwise exactly the array's non-empty strings |
| ZenoxEngine.ScheduleBlockList | android/app/src/main/java/com/zenox/engine/ZenEngine.kt:222-227 | a schedule has its own list exactly when its blockedAppsJson is present and not blank; otherwise the global list is used |
| ZenoxEngine.Engine.constructor | android/app/src/main/java/com/zenox/engine/ZenEngine.kt:26-39 | an inactive, uninitialised engine over the stored preferences |
| ZenoxEngine.Engine.Init | android/app/src/main/java/com/zenox/engine/ZenEngine.kt:49-74 | a second call changes nothing; the first hydrates the session from preferences, restarts the foreground service for a live session, stops an expired one, and posts the schedule checker once; afterwards an active session never has an end in the past |
| ZenoxEngine.Engine.StartManualZen | android/app/src/main/java/com/zenox/engine/ZenEngine.kt:76-79 | a "Quick Zen" session ending durationSec seconds from now; prefs hold the session and the global block list; the effects are the block-list sync, the persisted state and the foreground start, in that order |
| ZenoxEngine.Engine.StopZen | android/app/src/main/java/com/zenox/engine/ZenEngine.kt:81-100 | state and preferences cleared, end audio played, foreground service stopped |
| ZenoxEngine.Engine.Status | android/app/src/main/java/com/zenox/engine/ZenEngine.kt:116-128 | the session fields as they are, and remaining seconds that are positive only for an active session with at least a second left |
| ZenoxEngine.Engine.SyncBlockListToPrefs | android/app/src/main/java/com/zenox/engine/ZenEngine.kt:134-137 | the stored blocked set becomes the set of the given names; the session is untouched |
| ZenoxEngine.Engine.ActivateZen | android/app/src/main/java/com/zenox/engine/ZenEngine.kt:145-171 | the block list (the schedule's own, or the global one) is synced before the active state is persisted and the service started |
| ZenoxEngine.Engine.ApplyZenStateAndStartService | android/app/src/main/java/com/zenox/engine/ZenEngine.kt:173-187 | the session fields and their persisted copies take the given values; the service starts with that end time and name |
| ZenoxEngine.Engine.CheckSchedules | android/app/src/main/java/com/zenox/engine/ZenEngine.kt:200-243 | during a session nothing changes; otherwise the first active enabled schedule, if any, starts a session ending at its calculated end time: prefs hold exactly that session and the synced list, and the effects are the sync, the persisted state and the foreground start, in that order |
| ZenblEngine.InWindowIsArc | android/app/src/main/java/com/zenbl/engine/ZenEngine.kt:207-216 | the window is the clockwise arc from start (included) to end (excluded), and start == end means the whole day |
| ZenblEngine.WindowsCompared | android/app/src/main/java/com/zenbl/engine/ZenEngine.kt:211-216 | the two generations agree except at the end minute, which only the newer one includes, and at start == end, which is a whole day here and a single minute in the newer engine |
| ZenblEngine.SundayAsZeroNeverMatches | android/app/src/main/java/com/zenbl/engine/ZenEngine.kt:203-204 | a schedule stored with Sunday as 0 never matches any day, since days run 1..7 |
| ZenblEngine.FindActiveSchedule | android/app/src/main/java/com/zenbl/engine/ZenEngine.kt:182-189 | the first enabled schedule active now, or none |
| ZenblEngine.Engine.constructor | android/app/src/main/java/com/zenbl/engine/ZenEngine.kt:25-37 | an inactive engine over the stored preferences, with no sync pending |
| ZenblEngine.Engine.Init | android/app/src/main/java/com/zenbl/engine/ZenEngine.kt:47-69 | hydrates from preferences on every call, restarts a live session, stops an expired one, posts another schedule checker; an active session never ends in the past |
| ZenblEngine.Engine.StartManualZen | android/app/src/main/java/com/zenbl/engine/ZenEngine.kt:71-74 | a "Quick Zen" session of durationSec seconds, persisted at once, with the block-list sync left pending |
| ZenblEngine.Engine.StopZen | android/app/src/main/java/com/zenbl/engine/ZenEngine.kt:76-95 | state and preferences cleared, end audio played, service stopped |
| ZenblEngine.Engine.Status | android/app/src/main/java/com/zenbl/engine/ZenEngine.kt:111-123 | the session fields and the whole seconds remaining, positive only for an active session with a second left |
| ZenblEngine.Engine.SyncBlockListToPrefs | android/app/src/main/java/com/zenbl/engine/ZenEngine.kt:129-132 | the stored blocked set becomes the given names; nothing else changes |
| ZenblEngine.Engine.ActivateZen | android/app/src/main/java/com/zenbl/engine/ZenEngine.kt:136-166 | the session is persisted and the service started before the block list is synced, which stays pending |
| ZenblEngine.Engine.RunPendingSync | android/app/src/main/java/com/zenbl/engine/ZenEngine.kt:155-163 | a pending sync, when it runs, stores the global block list and leaves the session alone |
| ZenblEngine.Engine.CheckSchedules | android/app/src/main/java/com/zenbl/engine/ZenEngine.kt:168-194 | during a session nothing changes; otherwise the first active enabled schedule starts a session ending at its calculated end time, always with the global list |
| ZenoxBridge.EngineStatusOf | android/app/src/main/java/com/zenox/bridge/ZenoxBridgeModule.kt:92-110 | active exactly when the status is ACTIVE; then the trigger type as schedule name and the whole seconds left (never negative); otherwise 0 and ""; never fortress |
| ZenoxBridge.ItemOutcomeOf | android/app/src/main/java/com/zenox/bridge/ZenoxBridgeModule.kt:206-211 | a non-object item is skipped; an accepted item has a non-blank trimmed package and the trimmed app name, or the package when that name is blank or absent; asString on a non-string field throws |
| ZenoxBridge.Get | android/app/src/main/java/com/zenox/bridge/ZenoxBridgeModule.kt:203 | a key of the insertion-ordered map has a value exactly when it is present |
| ZenoxBridge.Put | android/app/src/main/java/com/zenox/bridge/ZenoxBridgeModule.kt:211 | assigning an existing key keeps the order and size; a new key is appended at the end |
| ZenoxBridge.PutGet | android/app/src/main/java/com/zenox/bridge/ZenoxBridgeModule.kt:211 | after incoming[k] = v, k maps to v, every other key keeps its value, and keys stay unique |
| ZenoxBridge.IncomingLastWins | android/app/src/main/java/com/zenox/bridge/ZenoxBridgeModule.kt:203-213 | the parse fails exactly when some item throws; otherwise each package maps to the name of its last accepted item |
| ZenoxBridge.IncomingRow | android/app/src/main/java/com/zenox/bridge/ZenoxBridgeModule.kt:218-228 | an incoming package is stored blocked with its name, keeping an existing row's daily limit, else limit 0 |
| ZenoxBridge.MergedMeaning | android/app/src/main/java/com/zenox/bridge/ZenoxBridgeModule.kt:215-232 | after the merge a package has a row exactly when it was incoming or already stored; it is blocked exactly when incoming; its daily limit is kept; a stored package not incoming keeps its name |
| ZenoxBridge.MergedIdempotent | android/app/src/main/java/com/zenox/bridge/ZenoxBridgeModule.kt:215-232 | sending the same list a second time changes no row |
| ZenoxBridge.TodayWithinWeek | android/app/src/main/java/com/zenox/bridge/ZenoxBridgeModule.kt:444-454 | with non-negative daily figures, today's minutes and attempts lie between 0 and the week's totals |
| ZenoxBridge.SumsNonNegative | android/app/src/main/java/com/zenox/bridge/ZenoxBridgeModule.kt:444-449 | the week's totals of non-negative days are non-negative |
| ZenoxBridge.CountAttempts | android/app/src/main/java/com/zenox/bridge/ZenoxBridgeModule.kt:513-518 | the foreground moves of a package are at most the number of events |
| ZenoxBridge.ByWeekDescendingOrder | android/app/src/main/java/com/zenox/bridge/ZenoxBridgeModule.kt:533 | the sort key (descending weekly attempts) is a total preorder |
| ZenoxBridge.CountedRows | android/app/src/main/java/com/zenox/bridge/ZenoxBridgeModule.kt:527-532 | one (package, today, week) triple per blocked app, in the DAO's order |
| ZenoxBridge.Ranking | android/app/src/main/java/com/zenox/bridge/ZenoxBridgeModule.kt:533-534 | take(n) after the sort yields min(n, rows) rows |
| ZenoxBridge.RankingSorted | android/app/src/main/java/com/zenox/bridge/ZenoxBridgeModule.kt:533-534 | the ranking is in descending weekly order and holds only given rows |
| ZenoxBridge.RankingTopN | android/app/src/main/java/com/zenox/bridge/ZenoxBridgeModule.kt:533-534 | no row left out has more weekly attempts than any row kept |
| ZenoxBridge.RankingStable | android/app/src/main/java/com/zenox/bridge/ZenoxBridgeModule.kt:533 | sortedByDescending is stable: rows with equal weekly counts keep their DAO order |
| ZenoxBridge.SplitOfJoin | android/app/src/main/java/com/zenox/bridge/ZenoxBridgeModule.kt:633 | splitting a ':'-joined list of components without ':' gives the components back |
| ZenoxBridge.ServiceEnabledIff | android/app/src/main/java/com/zenox/bridge/ZenoxBridgeModule.kt:627-634 | the service is enabled exactly when one listed component equals the expected name ignoring case |
| ZenoxBridge.FormatTime | android/app/src/main/java/com/zenox/bridge/ZenoxBridgeModule.kt:643-647 | "HH:MM" of five characters that parses back to the clamped hour and minute |
| ZenoxBridge.FormatParseStable | android/app/src/main/java/com/zenox/bridge/ZenoxBridgeModule.kt:636-647 | formatting a parsed time and parsing it again gives the same hour and minute |
| ZenoxBridge.Bridge.constructor | android/app/src/main/java/com/zenox/bridge/ZenoxBridgeModule.kt:37-50 | the bridge holds the blocked-app DAO and the session manager |
| ZenoxBridge.Bridge.TriggerManualZen | android/app/src/main/java/com/zenox/bridge/ZenoxBridgeModule.kt:61-67 | the duration is raised to at least one second and converted to ms; the manager's status becomes NextStatus with trigger "MANUAL", always ACTIVE, saved to the preferences record when a context exists; with an active catalyst instance one ZenoxStatusChanged(true, remaining) event is emitted |
| ZenoxBridge.Bridge.StartZen | android/app/src/main/java/com/zenox/bridge/ZenoxBridgeModule.kt:54-59 | the manager's startZen with trigger "MANUAL" (INACTIVE for a non-positive duration), saved when a context exists, then one ZenoxStatusChanged event whose isActive is whether the duration was positive |
| ZenoxBridge.Bridge.StopZen | android/app/src/main/java/com/zenox/bridge/ZenoxBridgeModule.kt:69-74 | INACTIVE with the break cleared, saved when a context exists, then one ZenoxStatusChanged(false, 0) event |
| ZenoxBridge.Bridge.EmitStatusChanged | android/app/src/main/java/com/zenox/bridge/ZenoxBridgeModule.kt:608-621 | nothing without an active catalyst instance; otherwise one event with the status read back and the remaining time only while active; the preferences record is unchanged |
| ZenoxBridge.Bridge.ParseIncoming | android/app/src/main/java/com/zenox/bridge/ZenoxBridgeModule.kt:203-213 | the loop over the array builds exactly the last-wins map of accepted items, or reports the throw |
| ZenoxBridge.Bridge.SetBlockedApps | android/app/src/main/java/com/zenox/bridge/ZenoxBridgeModule.kt:199-239 | resolves true exactly when parsing succeeds; on failure the table is untouched; on success every package's row is the merge of the old rows with the incoming list |
| ZenoxBridge.Bridge.ToggleAppBlock | android/app/src/main/java/com/zenox/bridge/ZenoxBridgeModule.kt:582-596 | the package's row gets the given name and flag, keeping its daily limit (0 for a new row); every other row is unchanged |
| ZenoxBridge.Bridge.GetDashboardSummary | android/app/src/main/java/com/zenox/bridge/ZenoxBridgeModule.kt:435-475 | the week's sums, the last day as today, the blocked count, the goal as min(100, minutes / 3) clamped to 0..100, and the streak as minutes / 120, never negative |
| ZenoxBridge.Bridge.CountForeground | android/app/src/main/java/com/zenox/bridge/ZenoxBridgeModule.kt:513-524 | a package is counted exactly when it is blocked and moved to the foreground at least once, and its count is its number of foreground moves |
| ZenoxBridge.Bridge.GetTopBlockedApps | android/app/src/main/java/com/zenox/bridge/ZenoxBridgeModule.kt:477-553 | position by position, the stable descending-by-week ranking of the blocked rows with their event counts, cut to the limit clamped to 1..20 and named by their rows; so each carries its true counts and stored name, in descending weekly order |
| ZenoxBridge.Bridge.NameRanked | android/app/src/main/java/com/zenox/bridge/ZenoxBridgeModule.kt:536-546 | one result per ranked row, named as TopAppOf says |
| ZenoxBridge.TopAppOf | android/app/src/main/java/com/zenox/bridge/ZenoxBridgeModule.kt:537-545 | the row's counts, and the stored app name, or the package name for a package without one |
| ZenoxBridge.CountedRowsAreEventCounts | android/app/src/main/java/com/zenox/bridge/ZenoxBridgeModule.kt:527-532 | reading the count maps with a default of 0 gives each blocked row's event counts, in table order |
| ZenoxBridge.CountedRowsCounted | android/app/src/main/java/com/zenox/bridge/ZenoxBridgeModule.kt:527-532 | a missing map entry counts 0, so every row carries the true today and week counts |
| ZenEngineModule.EntitiesOf | android/app/src/main/java/com/zenox/ZenEngineModule.kt:52-59 | one entity per parsed app, carrying its package, name and icon, in order |
| ZenEngineModule.ReplacedTableMatchesSync | android/app/src/main/java/com/zenox/ZenEngineModule.kt:60-61 | after the replace, a package has a row exactly when it is in the set synced to preferences, and its row is the last entry sent for it |
| ZenEngineModule.EntityOf | android/app/src/main/java/com/zenox/ZenEngineModule.kt:127-139 | the id defaults to 0 (insert), the days to "1,2,3,4,5,6,7", fortress to false and enabled to true; the other fields are copied |
| ZenEngineModule.IconSize | android/app/src/main/java/com/zenox/ZenEngineModule.kt:293-310 | a bitmap keeps its size up to 96x96 and is scaled to 96x96 beyond; another drawable is drawn at least 48 wide and high; every icon ends within 96x96 |
| ZenEngineModule.DisplayNameOrder | android/app/src/main/java/com/zenox/ZenEngineModule.kt:194-195 | the display-name comparison is a total preorder, so the sort is well defined |
| ZenEngineModule.RenderedAll | android/app/src/main/java/com/zenox/ZenEngineModule.kt:199-219 | the loop emits at most one app per resolved activity |
| ZenEngineModule.RenderedAllIsFilter | android/app/src/main/java/com/zenox/ZenEngineModule.kt:199-219 | the emitted apps are exactly the activities with application info other than the app itself, in order, and the app itself never appears |
| ZenEngineModule.FilterKeepsOrder | android/app/src/main/java/com/zenox/ZenEngineModule.kt:194-205 | skipping entries of a sorted list leaves it sorted |
| ZenEngineModule.Unflatten | android/app/src/main/java/com/zenox/ZenEngineModule.kt:256 | a component name is read only from text with a '/', giving a package without '/' and a non-empty class |
| ZenEngineModule.UnflattenFlatten | android/app/src/main/java/com/zenox/ZenEngineModule.kt:248-256 | the flattened form of the service's component reads back as that component |
| ZenEngineModule.NoSettingIsOff | android/app/src/main/java/com/zenox/ZenEngineModule.kt:239-262 | a failed read, a missing setting and an empty one all report the service as disabled |
| ZenEngineModule.ListedServiceIsOn | android/app/src/main/java/com/zenox/ZenEngineModule.kt:254-257 | a setting listing the service's flattened name between ':' separators reports it enabled |
| ZenEngineModule.PieceBetweenSeparators | android/app/src/main/java/com/zenox/ZenEngineModule.kt:255 | a piece between two ':' without one inside is one of the split pieces |
| ZenEngineModule.CheckOverlayPermission | android/app/src/main/java/com/zenox/ZenEngineModule.kt:265-271 | granted below API 23 and otherwise exactly when overlays may be drawn |
| ZenEngineModule.RequestIffNotGranted | android/app/src/main/java/com/zenox/ZenEngineModule.kt:273-287 | the settings screen opens exactly when the permission check would report false |
| ZenEngineModule.EngineModule.constructor | android/app/src/main/java/com/zenox/ZenEngineModule.kt:29-37 | the module holds the database and the engine |
| ZenEngineModule.EngineModule.SetBlockedApps | android/app/src/main/java/com/zenox/ZenEngineModule.kt:42-67 | unparsable JSON changes nothing; otherwise the table is replaced by the sent apps and the preferences' blocked set equals the table's packages; exactly one block-list sync effect is recorded; schedules and every session field are untouched |
| ZenEngineModule.EngineModule.SaveSchedule | android/app/src/main/java/com/zenox/ZenEngineModule.kt:121-147 | unparsable JSON saves nothing and resolves no id; otherwise the entity is inserted or replaced and the assigned id is resolved |
| ZenEngineModule.EngineModule.GetInstalledApps | android/app/src/main/java/com/zenox/ZenEngineModule.kt:184-227 | a failed query rejects with ERR_FETCH_APPS; otherwise the launchable apps sorted by display name, without the app itself |
| ZenEngineModule.InstalledAppsOrdered | android/app/src/main/java/com/zenox/ZenEngineModule.kt:193-219 | the result stays in display-name order, is exactly the rendered kept activities, and never contains the app itself |
| OverlayCommon.FadeAlpha | android/app/src/main/java/com/zenbl/ZenAccessibilityService.java:107-108 | over progress 0..1 the alpha stays in 0..1, from 1 at the start to 0 at the end |
| OverlayCommon.FadeScale | android/app/src/main/java/com/zenbl/ZenAccessibilityService.java:110-111 | over progress 0..1 the scale stays in 1..1.5, from 1 at the start to 1.5 at the end |
| OverlayCommon.FadeMonotone | android/app/src/main/java/com/zenbl/ZenAccessibilityService.java:105-111 | as progress grows the overlay only fades and only grows, and scale = 1.5 - alpha / 2 |
| OverlayCommon.ContentOf | android/app/src/main/java/com/zenbl/ZenAccessibilityService.kt:124-140 | a "Blocked by: name" caption exactly when a schedule name is stored, and the emergency exit exactly outside fortress mode |
| OverlayCommon.HoldProgressPx | android/app/src/main/java/com/zenbl/ZenAccessibilityService.kt:186-188 | the bar width is the elapsed share of the 10 s hold of 600 px, rounded down, within 0..600 |
| OverlayCommon.HoldProgressMonotone | android/app/src/main/java/com/zenbl/ZenAccessibilityService.kt:185-188 | the bar only grows as the countdown runs, from 0 px to the full 600 px |
| OverlayCommon.SecondsLeft | android/app/src/main/java/com/zenbl/ZenAccessibilityService.kt:195 | the seconds shown round the time left up past the next whole second, so 1..10 during the hold |
| PuffService.TriggersIff | android/app/src/main/java/com/zenbl/ZenAccessibilityService.java:30-44 | only a window-state change of a stored blocked package starts the sequence; an event without a package counts as "unknown" |
| PuffService.SequenceEffects | android/app/src/main/java/com/zenbl/ZenAccessibilityService.java:46-95 | audio first; a refused overlay ends the sequence; otherwise the overlay is attached and then Home is pressed |
| PuffService.Blocker.constructor | android/app/src/main/java/com/zenbl/ZenAccessibilityService.java:25-27 | no overlay, animation or pending task |
| PuffService.Blocker.OnAccessibilityEvent | android/app/src/main/java/com/zenbl/ZenAccessibilityService.java:30-44 | an event that does not trigger changes nothing; one that does runs the whole sequence with a fresh overlay, which is attached with its puff posted exactly when the attach succeeds |
| PuffService.Blocker.BlockAppSequence | android/app/src/main/java/com/zenbl/ZenAccessibilityService.java:46-140 | every trigger attaches a new overlay, even over one already shown; an attached overlay gets its puff posted 1 s later; a refused one gets nothing |
| PuffService.Blocker.RunPuff | android/app/src/main/java/com/zenbl/ZenAccessibilityService.java:100-138 | the puff animation starts, or fails to, and the removal is posted 3.1 s later either way |
| PuffService.Blocker.OnAnimationFrame | android/app/src/main/java/com/zenbl/ZenAccessibilityService.java:104-122 | a frame sets alpha and scale by the fade curve (in 0..1 and 1..1.5); a failed update cancels the animation |
| PuffService.Blocker.OnAnimationEnd | android/app/src/main/java/com/zenbl/ZenAccessibilityService.java:102-103 | the animation stops and nothing else changes |
| PuffService.Blocker.RunRemoval | android/app/src/main/java/com/zenbl/ZenAccessibilityService.java:130-137 | the overlay, which is attached, is removed and its task is done; every attached overlay has exactly one task pending, so none stays on screen |
| ZenblBlocker.WithOverlay | android/app/src/main/java/com/zenbl/ZenAccessibilityService.kt:95-307 | a new overlay becomes current; it is on screen only when the attach succeeded, and it carries the emergency exit outside fortress mode |
| ZenblBlocker.Blocked | android/app/src/main/java/com/zenbl/ZenAccessibilityService.kt:86-93 | afterwards an overlay is current; with one already current nothing changes |
| ZenblBlocker.Removed | android/app/src/main/java/com/zenbl/ZenAccessibilityService.kt:309-311 | no overlay is current afterwards; a current one is queued for removal; without one nothing changes |
| ZenblBlocker.Checked | android/app/src/main/java/com/zenbl/ZenAccessibilityService.kt:48-71 | outside a session nothing changes; in one, a blocked package leaves an overlay current and any other package leaves none |
| ZenblBlocker.PrefChanged | android/app/src/main/java/com/zenbl/ZenAccessibilityService.kt:73-84 | only the is_zen_mode_active key matters; when it turns off no overlay stays current |
| ZenblBlocker.RemovalRun | android/app/src/main/java/com/zenbl/ZenAccessibilityService.kt:313-345 | a queued removal takes its view off the screen and leaves the queue |
| ZenblBlocker.ConsistentBlocked | android/app/src/main/java/com/zenbl/ZenAccessibilityService.kt:86-93 | blocking keeps every view on screen either current or queued for removal |
| ZenblBlocker.ConsistentRemoved | android/app/src/main/java/com/zenbl/ZenAccessibilityService.kt:309-346 | removing keeps that invariant |
| ZenblBlocker.ConsistentChecked | android/app/src/main/java/com/zenbl/ZenAccessibilityService.kt:48-84 | window events and preference changes keep it |
| ZenblBlocker.ConsistentRemovalRun | android/app/src/main/java/com/zenbl/ZenAccessibilityService.kt:313-345 | running a removal keeps it |
| ZenblBlocker.BlockOrder | android/app/src/main/java/com/zenbl/ZenAccessibilityService.kt:86-93 | audio, then the overlay with the stored caption and exit (or a failed attach), then Home (see also lines 301-306 of the same file) |
| ZenblBlocker.FailedAttachSticks | android/app/src/main/java/com/zenbl/ZenAccessibilityService.kt:301-306 | after a failed attach the view stays current though not on screen, so later blocked windows attach nothing until some other window removes it (see also line 88 of the same file) |
| ZenblBlocker.FailedAttachClears | android/app/src/main/java/com/zenbl/ZenAccessibilityService.kt:309-311 | once that stale view is cleared, the next block attaches a fresh overlay (see also line 88 of the same file) |
| ZenblBlocker.Blocker.constructor | android/app/src/main/java/com/zenbl/ZenAccessibilityService.kt:34-38 | no overlay, no last package, no hold and no relaunch |
| ZenblBlocker.Blocker.OnAccessibilityEvent | android/app/src/main/java/com/zenbl/ZenAccessibilityService.kt:40-46 | only a window-state change counts; it records the package ("unknown" when absent) and checks it |
| ZenblBlocker.Blocker.CheckAndBlock | android/app/src/main/java/com/zenbl/ZenAccessibilityService.kt:48-71 | the overlay state becomes Checked of the old one |
| ZenblBlocker.Blocker.OnSharedPreferenceChanged | android/app/src/main/java/com/zenbl/ZenAccessibilityService.kt:73-84 | the overlay state becomes PrefChanged of the old one, re-checking the last package |
| ZenblBlocker.Blocker.BlockApp | android/app/src/main/java/com/zenbl/ZenAccessibilityService.kt:86-93 | the overlay state becomes Blocked of the old one |
| ZenblBlocker.Blocker.SetupOverlay | android/app/src/main/java/com/zenbl/ZenAccessibilityService.kt:95-307 | the overlay state becomes WithOverlay of the old one |
| ZenblBlocker.Blocker.RemoveOverlayGracefully | android/app/src/main/java/com/zenbl/ZenAccessibilityService.kt:309-346 | the overlay state becomes Removed of the old one |
| ZenblBlocker.Blocker.RunRemoval | android/app/src/main/java/com/zenbl/ZenAccessibilityService.kt:313-345 | the overlay state becomes RemovalRun of the old one |
| ZenblBlocker.Blocker.HoldDown | android/app/src/main/java/com/zenbl/ZenAccessibilityService.kt:181-249 | pressing the exit button starts the hold |
| ZenblBlocker.Blocker.HoldTick | android/app/src/main/java/com/zenbl/ZenAccessibilityService.kt:185-197 | each tick shows the bar width and seconds left of the countdown, the width within 0..600 |
| ZenblBlocker.Blocker.HoldRelease | android/app/src/main/java/com/zenbl/ZenAccessibilityService.kt:250-258 | releasing cancels the hold and resets the bar |
| ZenblBlocker.Blocker.HoldFinish | android/app/src/main/java/com/zenbl/ZenAccessibilityService.kt:199-245 | a completed hold unlocks: the session is stopped and persisted off, the engine's end time, schedule name and fortress flag cleared and its counters kept, and the last package is queued for relaunch |
| ZenblBlocker.Blocker.RunRelaunch | android/app/src/main/java/com/zenbl/ZenAccessibilityService.kt:218-244 | the queued package is relaunched when it has a launch intent and dropped either way |
| ZenoxBlocker.NormalizePackageName | android/app/src/main/java/com/zenox/ZenAccessibilityService.kt:57-62 | the process suffix from the first ':' at a position past 0 is cut, so a ':' survives only as the first character; the result is no longer than the input and does not start with whitespace |
| ZenoxBlocker.TrimOfUnpadded | android/app/src/main/java/com/zenox/ZenAccessibilityService.kt:59 | on text that does not start with whitespace, trim only strips the end |
| ZenoxBlocker.NormalizeIdempotentIff | android/app/src/main/java/com/zenox/ZenAccessibilityService.kt:58-62 | normalizing twice gives the same as once exactly when the first result does not end in whitespace |
| ZenoxBlocker.NormalizeIdempotent | android/app/src/main/java/com/zenox/ZenAccessibilityService.kt:58-62 | for names without whitespace, normalizing is idempotent |
| ZenoxBlocker.NormalizeNotIdempotent | android/app/src/main/java/com/zenox/ZenAccessibilityService.kt:58-62 | "a :x" normalizes to "a ", and that to "a" |
| ZenoxBlocker.NormalizedSet | android/app/src/main/java/com/zenox/ZenAccessibilityService.kt:76-77 | the normalized blocked set holds exactly the normalized stored names |
| ZenoxBlocker.CancelPending | android/app/src/main/java/com/zenox/ZenAccessibilityService.kt:113-116 | no delayed removal is pending afterwards |
| ZenoxBlocker.WithOverlay | android/app/src/main/java/com/zenox/ZenAccessibilityService.kt:180-397 | a new view is built; it becomes current and on screen only when the attach succeeded, and is dropped otherwise |
| ZenoxBlocker.Removed | android/app/src/main/java/com/zenox/ZenAccessibilityService.kt:399-404 | while a removal runs nothing changes; otherwise the pending removal is cancelled and the current overlay, if any, starts its removal |
| ZenoxBlocker.Checked | android/app/src/main/java/com/zenox/ZenAccessibilityService.kt:64-100 | outside a session only the pending removal is cancelled; a blocked package cancels it, plays audio and posts a block task; another package keeps a shown overlay for the home screen or during the grace period, and otherwise (re)schedules the removal 1200 ms later |
| ZenoxBlocker.BlockTaskRun | android/app/src/main/java/com/zenox/ZenAccessibilityService.kt:159-176 | the grace period restarts for 1200 ms and Home is pressed last; with an overlay shown or being removed no view is built; otherwise one is, and a failed attach posts a retry |
| ZenoxBlocker.RetryRun | android/app/src/main/java/com/zenox/ZenAccessibilityService.kt:170-173 | the retry builds a view only when none is current |
| ZenoxBlocker.PendingRemovalRun | android/app/src/main/java/com/zenox/ZenAccessibilityService.kt:120-123 | the debounced removal runs and is no longer pending |
| ZenoxBlocker.RemovalTaskRun | android/app/src/main/java/com/zenox/ZenAccessibilityService.kt:406-440 | the view being removed leaves the screen and a new removal may start |
| ZenoxBlocker.PrefChanged | android/app/src/main/java/com/zenox/ZenAccessibilityService.kt:127-149 | keys other than the two watched ones change nothing; a blocked-list change outside a session, or before any window, only cancels the pending removal |
| ZenoxBlocker.ConsistentChecked | android/app/src/main/java/com/zenox/ZenAccessibilityService.kt:64-100 | window checks keep every view on screen either current or being removed, never both |
| ZenoxBlocker.ConsistentRemoved | android/app/src/main/java/com/zenox/ZenAccessibilityService.kt:399-441 | starting a removal keeps that invariant |
| ZenoxBlocker.ConsistentPrefChanged | android/app/src/main/java/com/zenox/ZenAccessibilityService.kt:127-149 | preference changes keep it |
| ZenoxBlocker.ConsistentBlockTaskRun | android/app/src/main/java/com/zenox/ZenAccessibilityService.kt:159-176 | a block task keeps it |
| ZenoxBlocker.ConsistentRetryRun | android/app/src/main/java/com/zenox/ZenAccessibilityService.kt:170-173 | a retry keeps it |
| ZenoxBlocker.ConsistentRemovalTaskRun | android/app/src/main/java/com/zenox/ZenAccessibilityService.kt:406-440 | the view being removed is on screen, and removing it keeps the invariant |
| ZenoxBlocker.ConsistentPendingRemovalRun | android/app/src/main/java/com/zenox/ZenAccessibilityService.kt:120-123 | the debounced removal keeps it |
| ZenoxBlocker.DebounceReplaces | android/app/src/main/java/com/zenox/ZenAccessibilityService.kt:118-125 | an unblocked window outside the grace period replaces any pending removal with one due 1200 ms from now, and leaves the overlay up until then (see also lines 93-98 of the same file) |
| ZenoxBlocker.BlockThenRetry | android/app/src/main/java/com/zenox/ZenAccessibilityService.kt:169-173 | a failed first attach leaves no overlay and one retry, which shows a fresh overlay exactly when its attach succeeds |
| ZenoxBlocker.Blocker.constructor | android/app/src/main/java/com/zenox/ZenAccessibilityService.kt:38-46 | no overlay, no removal running or pending, no grace period, no last package |
| ZenoxBlocker.Blocker.OnAccessibilityEvent | android/app/src/main/java/com/zenox/ZenAccessibilityService.kt:48-55 | a window-state change with a package records its normalized name and checks it; any other event, or one without a package, changes nothing |
| ZenoxBlocker.Blocker.CheckAndBlock | android/app/src/main/java/com/zenox/ZenAccessibilityService.kt:64-100 | the state becomes Checked of the old one |
| ZenoxBlocker.Blocker.OnSharedPreferenceChanged | android/app/src/main/java/com/zenox/ZenAccessibilityService.kt:127-149 | the state becomes PrefChanged of the old one |
| ZenoxBlocker.Blocker.RunBlockTask | android/app/src/main/java/com/zenox/ZenAccessibilityService.kt:159-176 | the state becomes BlockTaskRun of the old one |
| ZenoxBlocker.Blocker.RunRetry | android/app/src/main/java/com/zenox/ZenAccessibilityService.kt:170-173 | the state becomes RetryRun of the old one |
| ZenoxBlocker.Blocker.SetupOverlay | android/app/src/main/java/com/zenox/ZenAccessibilityService.kt:179-397 | returns whether the attach succeeded; the state becomes WithOverlay of the old one |
| ZenoxBlocker.Blocker.RunPendingRemoval | android/app/src/main/java/com/zenox/ZenAccessibilityService.kt:120-123 | the state becomes PendingRemovalRun of the old one |
| ZenoxBlocker.Blocker.RemoveOverlayGracefully | android/app/src/main/java/com/zenox/ZenAccessibilityService.kt:399-441 | the state becomes Removed of the old one |
| ZenoxBlocker.Blocker.RunRemovalTask | android/app/src/main/java/com/zenox/ZenAccessibilityService.kt:406-440 | the view being removed was on screen; the state becomes RemovalTaskRun of the old one |
| ZenoxBlocker.Blocker.HoldDown | android/app/src/main/java/com/zenox/ZenAccessibilityService.kt:266-334 | pressing the exit button starts the hold |
| ZenoxBlocker.Blocker.HoldTick | android/app/src/main/java/com/zenox/ZenAccessibilityService.kt:270-282 | each tick shows the bar width and seconds left of the countdown |
| ZenoxBlocker.Blocker.HoldRelease | android/app/src/main/java/com/zenox/ZenAccessibilityService.kt:335-343 | releasing cancels the hold and resets the bar |
| ZenoxBlocker.Blocker.HoldFinish | android/app/src/main/java/com/zenox/ZenAccessibilityService.kt:284-330 | a completed hold stops the session, persisted off, clears the engine's end time, schedule name and fortress flag, keeps its counters, and queues the last package for relaunch |
| ZenoxBlocker.Blocker.RunRelaunch | android/app/src/main/java/com/zenox/ZenAccessibilityService.kt:303-329 | the queued package is relaunched when launchable and dropped either way |
| OverlayService.BreakLabel | android/app/src/main/java/com/zenox/engine/ZenoxOverlayService.kt:407-413 | the label of a listed break length (30s, 1m, 2m, 3m, 5m), and "5m" for any other length (see also line 239 of the same file) |
| OverlayService.ResolveAppDisplayName | android/app/src/main/java/com/zenox/engine/ZenoxOverlayService.kt:447-456 | never blank: "This app" without a package, else the trimmed label when it is not blank, else the package name |
| OverlayService.CountBlockedAttemptsToday | android/app/src/main/java/com/zenox/engine/ZenoxOverlayService.kt:458-486 | 0 without a package or when the query fails; otherwise the number of today's foreground moves of that package |
| OverlayService.AttemptsNoun | android/app/src/main/java/com/zenox/engine/ZenoxOverlayService.kt:160 | "attempt" exactly for a count of 1, "attempts" otherwise |
| OverlayService.TruncToLong | android/app/src/main/java/com/zenox/engine/ZenoxOverlayService.kt:503 | toLong truncates toward zero |
| OverlayService.HoldDurationMs | android/app/src/main/java/com/zenox/engine/ZenoxOverlayService.kt:501-503 | the rest of the 5 s hold from the current progress, truncated, and never below 120 ms; 5000 ms from zero |
| OverlayService.HoldDurationMonotone | android/app/src/main/java/com/zenox/engine/ZenoxOverlayService.kt:501-503 | the further the fill already is, the shorter the animation |
| OverlayService.Service.constructor | android/app/src/main/java/com/zenox/engine/ZenoxOverlayService.kt:30-40 | no overlay, the first break option selected, no hold in progress |
| OverlayService.Service.IsOverlayVisible | android/app/src/main/java/com/zenox/engine/ZenoxOverlayService.kt:444 | visible exactly when an overlay view is attached |
| OverlayService.Service.RequestShow | android/app/src/main/java/com/zenox/engine/ZenoxOverlayService.kt:420-430 | the show intent is sent when the service can be started, whatever the visibility; no field other than the effect log changes |
| OverlayService.Service.RequestHide | android/app/src/main/java/com/zenox/engine/ZenoxOverlayService.kt:432-442 | the hide intent is sent only while the overlay is visible; no field other than the effect log changes |
| OverlayService.Service.OnStartCommand | android/app/src/main/java/com/zenox/engine/ZenoxOverlayService.kt:44-51 | ACTION_SHOW leaves exactly the state and effects showOverlay leaves, ACTION_HIDE exactly those of hideOverlay, and any other action changes nothing |
| OverlayService.Service.ShowOverlay | android/app/src/main/java/com/zenox/engine/ZenoxOverlayService.kt:61-84 | an overlay already shown stays and is marked visible; without a window manager nothing happens; a successful attach shows a card with the resolved app name, today's attempt count with its noun, the saved-time text and the selected break's hint; a failed one leaves nothing shown and stops the service (see also lines 86-90 of the same file) |
| OverlayService.Service.HideOverlay | android/app/src/main/java/com/zenox/engine/ZenoxOverlayService.kt:390-402 | the overlay, if any, is removed (best effort) and the service stopped; afterwards nothing is shown or visible |
| OverlayService.Service.OnDestroy | android/app/src/main/java/com/zenox/engine/ZenoxOverlayService.kt:53-59 | pending callbacks are dropped, the hold animator is cancelled and cleared, the overlay hidden with its removal (best effort) and stopSelf recorded; a break is queued only when a running hold had already reached the threshold; the break length and the fill stay |
| OverlayService.Service.SelectDuration | android/app/src/main/java/com/zenox/engine/ZenoxOverlayService.kt:227-241 | the chosen option becomes the break length and the hint names it; the view, the hold and the queued tasks are untouched |
| OverlayService.Service.BreathHint | android/app/src/main/java/com/zenox/engine/ZenoxOverlayService.kt:302-312 | a click on "Take 3 deep breaths instead" sets the hint to "Inhale 4s - Hold 4s - Exhale 6s" and shows it at once; nothing else changes |
| OverlayService.Service.CancelHold | android/app/src/main/java/com/zenox/engine/ZenoxOverlayService.kt:512-516 | cancelling a running animator also ends it, so a break is queued when the fill had reached 0.999; an idle one changes nothing (see also lines 500, 522 of the same file) |
| OverlayService.Service.HoldDown | android/app/src/main/java/com/zenox/engine/ZenoxOverlayService.kt:499-519 | the delayed hint is posted; a running animator is cancelled first, which queues the break when the fill had reached 0.999; a new animator runs from the current fill for HoldDurationMs; the view and the break length are untouched (see also lines 282-288 of the same file) |
| OverlayService.Service.HoldFrame | android/app/src/main/java/com/zenox/engine/ZenoxOverlayService.kt:505-511 | each frame sets the fill to the animated value and changes nothing else |
| OverlayService.Service.HoldAnimationEnd | android/app/src/main/java/com/zenox/engine/ZenoxOverlayService.kt:512-516 | at its end the animator queues the break exactly when the fill reached 0.999; nothing else changes |
| OverlayService.Service.HoldRelease | android/app/src/main/java/com/zenox/engine/ZenoxOverlayService.kt:521-528 | the pending hint is dropped, the hint faded out and the fill reset to 0, with the cancel's end check still run; the view and the break length stay (see also lines 291-297 of the same file) |
| OverlayService.Service.RunHint | android/app/src/main/java/com/zenox/engine/ZenoxOverlayService.kt:283-286 | a posted hint shows the hint text; only its own queue entry goes |
| OverlayService.Service.RunBreak | android/app/src/main/java/com/zenox/engine/ZenoxOverlayService.kt:34-37 | the break of the selected length is requested and the overlay hidden; the break length, the hold and the hint queue stay |
| ZenoxNotification.LongToInt | android/app/src/main/java/com/zenox/engine/ZenoxNotificationManager.kt:86 | toInt keeps the low 32 bits: the same value modulo 2^32, within the Int range, unchanged when it already fits |
| ZenoxNotification.FormatRemaining | android/app/src/main/java/com/zenox/engine/ZenoxNotificationManager.kt:85-90 | "00:00" for no time left; otherwise "MM:SS", at least two minute digits and exactly two second digits, whose minutes * 60 + seconds are the whole seconds left |
| ZenoxNotification.CanPostNotificationsCases | android/app/src/main/java/com/zenox/engine/ZenoxNotificationManager.kt:76-83 | disabled notifications never post; below API 33 enabled suffices; from API 33 the permission is also needed |
| ZenoxNotification.SessionNotification | android/app/src/main/java/com/zenox/engine/ZenoxNotificationManager.kt:23-51 | title "Zen Active - name", body "Time left: MM:SS", a big text starting with the body, on the session channel, ongoing, not auto-cancelled, alerting once, opening the app when it has a launch intent |
| ZenoxNotification.Notifier.constructor | android/app/src/main/java/com/zenox/engine/ZenoxNotificationManager.kt:17-19 | the notifier starts from the system's existing channel, nothing shown |
| ZenoxNotification.Notifier.EnsureChannel | android/app/src/main/java/com/zenox/engine/ZenoxNotificationManager.kt:60-74 | from API 26 the channel is created once when missing; otherwise nothing changes |
| ZenoxNotification.Notifier.ShowOrUpdate | android/app/src/main/java/com/zenox/engine/ZenoxNotificationManager.kt:20-54 | without permission nothing changes; otherwise the session notification replaces the shown one, and the session channel is created, and counted once, exactly when the SDK is 26 or higher and no channel existed |
| ZenoxNotification.Notifier.Cancel | android/app/src/main/java/com/zenox/engine/ZenoxNotificationManager.kt:56-58 | the notification is removed; the channel stays |
| ZenStore.Decremented | src/store/zenStore.ts:23 | one second less, never below 0 |
| ZenStore.DecrementedTimesValue | src/store/zenStore.ts:23 | n ticks from a non-negative time leave max(0, time - n) |
| ZenStore.DecrementedAtZero | src/store/zenStore.ts:23 | at zero the countdown stays at zero |
| ZenStore.Store.constructor | src/store/zenStore.ts:16-28 | inactive, 20 minutes as duration and remaining time, no apps |
| ZenStore.Store.SetZenModeActive | src/store/zenStore.ts:20 | only the active flag changes |
| ZenStore.Store.SetZenDuration | src/store/zenStore.ts:21 | duration and remaining time both take the new value |
| ZenStore.Store.SetRemainingTime | src/store/zenStore.ts:22 | only the remaining time changes |
| ZenStore.Store.DecrementTime | src/store/zenStore.ts:23 | the remaining time becomes Decremented of the old one; nothing else changes |
| ZenStore.Store.SetInstalledApps | src/store/zenStore.ts:27 | only the app cache changes |
| ScheduleService.JsNumber | src/services/ScheduleManager.ts:70 | Number() of blank text is 0 |
| ScheduleService.MinuteOfDay | src/services/ScheduleManager.ts:70-74 | a time has a minute of the day only when it has at least two ':'-separated parts |
| ScheduleService.JsNumberOfDigits | src/services/ScheduleManager.ts:70 | Number() of a digit string is its decimal value |
| ScheduleService.MinuteOfDayOfPadded | src/services/ScheduleManager.ts:70-74 | "HH:MM" gives HH * 60 + MM |
| ScheduleService.TodaysSchedules | src/services/ScheduleManager.ts:59-63 | exactly the enabled schedules of today's day of week |
| ScheduleService.TodaysSchedulesInTableOrder | src/services/ScheduleManager.ts:59-63 | the query keeps table order: it distributes over concatenation and keeps a single row exactly when it is enabled and for today |
| ScheduleService.OvernightNeverCovers | src/services/ScheduleManager.ts:78 | a schedule whose end is not after its start never matches |
| ScheduleService.FirstCovering | src/services/ScheduleManager.ts:69-82 | the first schedule with start <= now < end, and no earlier one matches; none when no schedule matches |
| ScheduleService.FindActiveSchedule | src/services/ScheduleManager.ts:67-82 | the loop with its break finds FirstCovering |
| ScheduleService.AlignmentDelay | src/services/ScheduleManager.ts:25-26 | 1 ms to one minute, and now plus the delay is a whole minute |
| ScheduleService.ActivationSeconds | src/services/ScheduleManager.ts:84-93 | the whole seconds until the end minute, or 60 when less than a second is left |
| ScheduleService.SessionWithinSchedule | src/services/ScheduleManager.ts:84-93 | a session started inside a schedule ends no later than the schedule, except for the 60 s fallback in its last second (see also line 78 of the same file) |
| ScheduleService.ScheduleManagerService.constructor | src/services/ScheduleManager.ts:12-14 | no timer and not active |
| ScheduleService.ScheduleManagerService.Start | src/services/ScheduleManager.ts:16-40 | with a timer set nothing happens; otherwise a check is queued and the minute alignment is scheduled |
| ScheduleService.ScheduleManagerService.AlignmentFired | src/services/ScheduleManager.ts:30-39 | the aligned check runs and the one-minute interval starts and becomes the timer |
| ScheduleService.ScheduleManagerService.IntervalTick | src/services/ScheduleManager.ts:35-37 | every tick queues a check |
| ScheduleService.ScheduleManagerService.Stop | src/services/ScheduleManager.ts:42-47 | a set timer is cleared and forgotten; otherwise nothing changes |
| ScheduleService.ScheduleManagerService.CheckSchedules | src/services/ScheduleManager.ts:49-112 | a failed query changes nothing; a covering schedule starts a session of ActivationSeconds unless one is active, with the native block list, native enable and flute effects in that order; no covering schedule switches an active session, or a stale store flag, off, with native disable when offered |
| ScheduleService.ScheduleManagerService.ActivateZenMode | src/services/ScheduleManager.ts:114-144 | active in service and store with the given duration; the block list goes to the native module when it has setBlockedApps, blocking is enabled when it has setBlockEnabled, then the flute plays |
| ScheduleService.ScheduleManagerService.DeactivateZenMode | src/services/ScheduleManager.ts:146-157 | inactive in service and store; blocking is disabled when the native module allows it |
| ZentoxStore.Toggled | src/store/useStore.ts:66-70 | every entry of the package gets the new flag, every other entry is unchanged, and order and length are kept |
| ZentoxStore.ToggledLastWins | src/store/useStore.ts:63-71 | toggling a package twice leaves the second flag |
| ZentoxStore.ToggledCommute | src/store/useStore.ts:63-71 | toggles of two different packages commute |
| ZentoxStore.Store.constructor | src/store/useStore.ts:16-19 | no apps, no schedules, not loading |
| ZentoxStore.Store.BeginFetchBlockedApps | src/store/useStore.ts:21-24 | loading, and the native fetch is under way |
| ZentoxStore.Store.FinishFetchBlockedApps | src/store/useStore.ts:24-30 | the answer replaces the apps, a failure keeps them; loading ends either way |
| ZentoxStore.Store.BeginFetchSchedules | src/store/useStore.ts:33-36 | loading, and the native fetch is under way |
| ZentoxStore.Store.FinishFetchSchedules | src/store/useStore.ts:36-42 | the answer replaces the schedules, a failure keeps them; loading ends either way |
| ZentoxStore.Store.SaveSchedule | src/store/useStore.ts:45-52 | the native save, then a schedule refetch only when the save succeeded |
| ZentoxStore.Store.DeleteSchedule | src/store/useStore.ts:54-61 | the native delete, then a schedule refetch only when it succeeded |
| ZentoxStore.Store.ToggleAppBlock | src/store/useStore.ts:63-71 | the native call is made and the list becomes Toggled of the old one at once |
| I18n.Walk | src/i18n/index.ts:31-40 | the empty path reaches the table itself |
| I18n.LookupPath | src/i18n/index.ts:31-40 | a string exactly when the dotted path leads to a string; null when it leads nowhere or to a non-string |
| I18n.WalkThroughLeaf | src/i18n/index.ts:32 | no path goes below a string or other non-object (see also line 36 of the same file) |
| I18n.WalkAppend | src/i18n/index.ts:35-38 | walking a path in two parts is walking it whole |
| I18n.GetByPath | src/i18n/index.ts:31-40 | the loop over the segments returns LookupPath |
| I18n.WordRun | src/i18n/index.ts:44 | the leading run of word characters, stopping at the first non-word character |
| I18n.PlaceholderAt | src/i18n/index.ts:44 | a match is "{{" + word + "}}" with a non-empty word |
| I18n.Interpolate | src/i18n/index.ts:42-48 | without parameters the value is returned untouched |
| I18n.SubstituteNoPlaceholder | src/i18n/index.ts:44 | text without "{{" is unchanged whatever the parameters |
| I18n.SubstituteLeadingPlaceholder | src/i18n/index.ts:44-47 | a leading placeholder is replaced by its parameter ("" when missing or null) and the scan resumes after it |
| I18n.WordRunOfWord | src/i18n/index.ts:44 | a word followed by a non-word character is matched whole |
| I18n.SubstituteIsSinglePass | src/i18n/index.ts:44 | an inserted value that looks like a placeholder is not substituted again |
| I18n.Translate | src/i18n/index.ts:50-53 | the locale's string, else English's, else the key itself, then interpolated |
| I18n.UnknownLocaleIsEnglish | src/i18n/index.ts:51 | a locale without a table translates as English |
| I18n.MissingKeyIsItself | src/i18n/index.ts:52 | an unknown key without parameters translates to itself |
| Common.IndexOf | android/app/src/main/java/com/zenox/ZenAccessibilityService.kt:60 | indexOf: -1 exactly when the character is absent, otherwise the position of its first occurrence |
| Common.SplitJoin | android/app/src/main/java/com/zenox/engine/ZenEngine.kt:252 | split loses nothing: joining the pieces with the separator gives the text back, and no piece contains the separator |
| Common.ParseInt | android/app/src/main/java/com/zenox/engine/ZenEngine.kt:252 | toIntOrNull: every result lies in the 32-bit Int range, and a non-empty digit string within that range parses to its value |
| Common.ParseIntCases | android/app/src/main/java/com/zenox/engine/ZenEngine.kt:252 | toIntOrNull: a lone sign, a bad first character or a later non-digit give null; a signed or unsigned digit run gives its value exactly when it fits in 32 bits |
| Common.IntToStringRoundTrip | src/i18n/index.ts:46 | String(n) of an Int-range number reads back as the same number |
| Common.Pad2RoundTrip | android/app/src/main/java/com/zenox/bridge/ZenoxBridgeModule.kt:643-647 | "%02d" of 0..99 gives two digits that read back as the same number |
| Common.TrimIdempotent | android/app/src/main/java/com/zenox/bridge/ZenoxBridgeModule.kt:208-210 | trim twice is trim once |
| Common.BlankIffTrimEmpty | android/app/src/main/java/com/zenox/bridge/ZenoxBridgeModule.kt:208-210 | isBlank holds exactly when the trimmed text is empty |
| Common.TrimIsSlice | android/app/src/main/java/com/zenox/bridge/ZenoxBridgeModule.kt:208-210 | trim removes only whitespace, only from the two ends, and leaves no whitespace at either end |
| Common.Base60ClockReadBack | android/app/src/main/java/com/zenox/engine/ZenoxOverlayService.kt:544-548 | "HH:MM" of a minute count splits into an hour part of at least two digits and a minute part below 60 that together give the count back |
| Common.TruncDiv | android/app/src/main/java/com/zenox/bridge/ZenoxBridgeModule.kt:458 | Kotlin's `/` on Int rounds toward zero: quotient times divisor plus the truncated remainder is the dividend, the remainder taking the dividend's sign |
| Common.Clamp | android/app/src/main/java/com/zenox/bridge/ZenoxBridgeModule.kt:486 | coerceIn: the result lies in the range, is the value itself when it already does, and the nearer bound otherwise |
| Sorting.SortBySorted | android/app/src/main/java/com/zenox/bridge/ZenoxBridgeModule.kt:533 | sorting by a total preorder gives an ordered permutation of the input |

One consequence of the zenox engine's inclusive window
(`ZenoxEngine.EndMinuteStartsDayLongSession`): a schedule seen during its
end minute starts a session. `calculateEndTime` then places the end at
the next day's end minute, so a 9:00-10:00 schedule checked at 10:00:15
blocks until 10:00 the following day. At every other minute of the
window, the session ends with the window (`ZenoxEngine.SessionEndsWithWindow`).

## Left out

- Coroutines, background threads and `Handler` posts without a delay run at once and in program order. Interleavings of the background jobs with the main thread are not modelled.
- Gson and org.json parsing: JSON arrives already parsed as datatypes. Malformed-JSON exceptions are an input (`None` or an error case).
- Floating point:
  - the fade alpha and scale and the overlay service's hold fill are Dafny `real`s;
  - Float-to-Int casts are modelled as truncation of the exact value;
  - rounding of IEEE arithmetic is not modelled.
- GetDashboardSummary (`ZenoxBridge.Bridge.GetDashboardSummary`): the goal percentage is an integer, the exact quotient of the week's minutes by 3 truncated and clamped to 0..100. The app computes `(w / 300f * 100f).toInt()` in float32, which is one lower at 159 and 177 minutes (52 and 58 where the model gives 53 and 59).
- HoldProgressPx (`OverlayCommon.HoldProgressPx`): the bar width is an integer, the exact share of 600 px truncated. The app's float32 `elapsed / 10000f * 600f` is one lower at thirteen elapsed times in 0..10000 ms (1050 ms gives 62 where the model gives 63; also 1950, 2100, 2650, 2950, 3900, 4200, 5300, 5900, 6550, 7150, 7800 and 8400 ms).
- Kotlin `Int`/`Long` overflow is not modelled except where noted: millisecond sums, minute products and counters are unbounded integers.
- The display-name `Collator` of `getInstalledApps` is replaced by code-point order. Locale-aware ordering is outside the model.
- Icon rendering, PNG compression and Base64 encoding are left out. Only the bitmap sizes decided by `convertIconToBase64` are modelled.
- `ComponentName.unflattenFromString` is modelled from its documented behaviour ("package/class", with a leading "." meaning a class in the package). The framework code is not part of this model.
- Methods that only forward to another object (status getters, simple pass-through bridge methods) have no model of their own.
- The audio of the Java puff blocker is a single `Audio` effect. Its volume reads a field `audioManager` that the Java service never declares, and no volume is modelled.
- The frame-by-frame fade-out animations of removed overlays are left out. A removal is the posted task that takes the window off.
- A second ACTION_DOWN on the emergency-exit button while a hold is running starts a second countdown timer, and the first one is no longer referenced. The model keeps the set of overlays being held, so that extra timer is not represented.
- When the emergency-exit hold completes, the service writes the shared preferences itself. The listener callback that this write causes is not replayed as a separate event.
- ZenoxBlocker.NormalizePackageName: not idempotent in general, and no idempotence is claimed. A name such as "a :x" normalises to "a ", which normalises again to "a". It is idempotent when the result has no trailing whitespace.
- The Java puff blocker swallows exceptions from removing its overlay. In the model a removal task always belongs to an overlay still on the screen, so removal always succeeds and the exception path does not arise.
- ZenoxOverlayService parts that are left out:
  - the randomly chosen quote;
  - the elapsed-minutes text;
  - view layout, colours and dimensions.
- `getTotalTimeSavedTodayMinutes`, `requestEmergencyBreak(durationMillis)` and `getEffectiveRemainingMillis` are not in the session manager's source. The overlay service's and the bridge's uses of them are parameters or recorded effects (the bridge's `remainingTime` is the parameter `remainingMillis`).
- EmitStatusChanged (`ZenoxBridge.Bridge.EmitStatusChanged`): the source reads the clock again before reading the status back; the model reads it at the same `now` as the start or stop that precedes it.
- The overlay service's static `overlayVisible` companion flag is a field of the one service instance.
- JavaScript `Number()` on time fields is modelled for optionally whitespace-padded decimal integers only. Fractions, exponents, hex and `Infinity` are out. JavaScript's whitespace set is approximated by the Kotlin one.
- JavaScript numbers are unbounded integers; fractional seconds are not modelled.
- Time zones and daylight saving are left out. Local time is epoch time with no offset, and the calendar is a day index with a minute of the day.
- The React `AppBlocker` native module shown in the app does not define `setBlockedApps` or `setBlockEnabled`. Their presence is a boolean parameter of `ScheduleService.ScheduleManagerService`.
- i18n lookups only walk own keys of parsed JSON objects. Array indexing and inherited prototype keys reached through a dotted path are not modelled.
- `ScheduleService.ScheduleManagerService.Start` is modelled as written: a second `start` during the alignment window schedules a second timer. No guard beyond the source's is added.
- UsageStatsManager, PackageManager, AlarmManager and the notification service answer through parameters. Their own behaviour is outside the model.
- The usage-statistics queries of the bridge (`getDebugState`, `getWeeklyStats`, `getSessionHistory`, `queryDailyStats`) are inputs to the arithmetic that consumes them. The queries themselves are not modelled.
- Opening the overlay-permission settings screen is modelled only as the decision to open it. The settings intents of the bridge are left out.
- Pad2 (`Common.Pad2`): always writes the ASCII digits '0'..'9'. `"%02d".format` without a `Locale` uses the default locale's digits (Arabic-Indic digits in an Arabic locale, for instance); only the overlay's `Locale.US` clock is unaffected.
- FormatTime (`ZenoxBridge.FormatTime`): its `"%02d:%02d"` is built from `Common.Pad2`, so its digits are ASCII whatever the default locale.
- FormatRemaining (`ZenoxNotification.FormatRemaining`): its `"%02d:%02d"` is built from `Common.Pad2`, so its digits are ASCII whatever the default locale.
- ZenoxNotification.FormatRemaining: the truncating Long-to-Int cast is in the body. The contract states the "MM:SS" read-back only for whole seconds within the Int range.
- ServiceEnabledIff (`ZenoxBridge.ServiceEnabledIff`): component names are compared with ASCII case folding only (`Common.EqualsIgnoreCase`). Kotlin's `equals(ignoreCase = true)` also folds non-ASCII letters, so two names that differ only in the case of a non-ASCII letter count as equal in the app but not in the model.
- EqualsIgnoreCase (`Common.EqualsIgnoreCase`): folds only 'A'..'Z' to 'a'..'z'. Unicode case mapping and case folding are not modelled.
- ParseInt (`Common.ParseInt`): accepts only the ASCII digits '0'..'9' after an optional sign. Kotlin's `toIntOrNull` also accepts other Unicode decimal digits, which the model reads as null.
