/**
 * The zenox Room database (ZenDao): the `blocked_apps` table keyed by
 * packageName and the `schedules` table with an auto-generated id.
 *
 * As in the zentox database, a table is the sequence of its rows in
 * SQLite's scan order: rowid order for `blocked_apps`, where INSERT OR
 * REPLACE deletes the conflicting row and appends the new one, and ascending
 * id for `schedules`, whose AUTOINCREMENT counter is never reset by a DELETE.
 */
module ZenDao {
  import opened Common
  import opened Sorting

  /** One row of `blocked_apps`. */
  datatype BlockedAppEntity = BlockedAppEntity(packageName: string, appName: string, iconBase64: Option<string>)

  /**
   * One row of `schedules`; daysOfWeek is a comma-separated list of day
   * numbers and blockedAppsJson an optional JSON array of package names.
   */
  datatype ScheduleEntity = ScheduleEntity(
    id: int, name: string,
    startHour: int, startMinute: int, endHour: int, endMinute: int,
    daysOfWeek: string, isFortress: bool, isEnabled: bool, blockedAppsJson: Option<string>)

  /** The daysOfWeek default of the entity: every day. */
  const ALL_DAYS: string := "1,2,3,4,5,6,7"

  // ---------------------------------------------------------------------
  // blocked_apps
  // ---------------------------------------------------------------------

  predicate UniqueKeys(rows: seq<BlockedAppEntity>)
  {
    forall i, j :: 0 <= i < j < |rows| ==> rows[i].packageName != rows[j].packageName
  }

  predicate HasKey(rows: seq<BlockedAppEntity>, pkg: string)
  {
    exists i :: 0 <= i < |rows| && rows[i].packageName == pkg
  }

  /** DELETE ... WHERE packageName = :pkg: the other rows, in their order. */
  function WithoutKey(rows: seq<BlockedAppEntity>, pkg: string): (r: seq<BlockedAppEntity>)
    ensures forall x :: x in r <==> x in rows && x.packageName != pkg
    ensures UniqueKeys(rows) ==> UniqueKeys(r)
    ensures !HasKey(r, pkg)
  {
    if |rows| == 0 then []
    else
      var tail := WithoutKey(rows[1..], pkg);
      assert UniqueKeys(rows) ==> UniqueKeys(rows[1..]);
      if rows[0].packageName == pkg then tail else [rows[0]] + tail
  }

  /** INSERT OR REPLACE of one row: the conflicting row goes, the new row is appended. */
  function Replaced(rows: seq<BlockedAppEntity>, app: BlockedAppEntity): (r: seq<BlockedAppEntity>)
    ensures UniqueKeys(rows) ==> UniqueKeys(r)
  {
    WithoutKey(rows, app.packageName) + [app]
  }

  /** The row stored under a key (the first in scan order). */
  function Lookup(rows: seq<BlockedAppEntity>, pkg: string): (r: Option<BlockedAppEntity>)
    ensures r.None? <==> !HasKey(rows, pkg)
    ensures r.Some? ==> r.value in rows && r.value.packageName == pkg
  {
    if |rows| == 0 then None
    else if rows[0].packageName == pkg then Some(rows[0])
    else
      assert HasKey(rows, pkg) ==> HasKey(rows[1..], pkg);
      Lookup(rows[1..], pkg)
  }

  /** Removing one key leaves the lookup of every other key as it was. */
  lemma {:induction false} LookupWithoutKey(rows: seq<BlockedAppEntity>, pkg: string, q: string)
    ensures Lookup(WithoutKey(rows, pkg), q) == if q == pkg then None else Lookup(rows, q)
  {
    if |rows| > 0 {
      LookupWithoutKey(rows[1..], pkg, q);
    }
  }

  /** A row appended after the others is found only when no earlier row has its key. */
  lemma {:induction false} LookupAppend(rows: seq<BlockedAppEntity>, app: BlockedAppEntity, q: string)
    ensures Lookup(rows + [app], q) == if HasKey(rows, q) then Lookup(rows, q)
                                      else if app.packageName == q then Some(app) else None
  {
    if |rows| > 0 {
      assert (rows + [app])[1..] == rows[1..] + [app];
      LookupAppend(rows[1..], app, q);
      assert HasKey(rows, q) && rows[0].packageName != q ==> HasKey(rows[1..], q);
    }
  }

  /** After a REPLACE the new row answers for its key and every other key is untouched. */
  lemma LookupAfterReplace(rows: seq<BlockedAppEntity>, app: BlockedAppEntity, q: string)
    ensures Lookup(Replaced(rows, app), q) == if q == app.packageName then Some(app) else Lookup(rows, q)
  {
    LookupWithoutKey(rows, app.packageName, q);
    LookupAppend(WithoutKey(rows, app.packageName), app, q);
  }

  /** Room's list insert: one INSERT OR REPLACE per element, front to back. */
  function InsertedAll(rows: seq<BlockedAppEntity>, apps: seq<BlockedAppEntity>): (r: seq<BlockedAppEntity>)
    ensures UniqueKeys(rows) ==> UniqueKeys(r)
  {
    if |apps| == 0 then rows else Replaced(InsertedAll(rows, apps[..|apps| - 1]), apps[|apps| - 1])
  }

  /** The last element of `apps` with key `q`. */
  function LastWith(apps: seq<BlockedAppEntity>, q: string): (r: Option<BlockedAppEntity>)
    ensures r.Some? ==> r.value in apps && r.value.packageName == q
    ensures r.None? ==> forall x :: x in apps ==> x.packageName != q
  {
    if |apps| == 0 then None
    else if apps[|apps| - 1].packageName == q then Some(apps[|apps| - 1])
    else
      var r := LastWith(apps[..|apps| - 1], q);
      assert forall x :: x in apps ==> x in apps[..|apps| - 1] || x == apps[|apps| - 1];
      r
  }

  /** After inserting a list, a key listed in it holds its last occurrence; any other key is untouched. */
  lemma {:induction false} InsertedAllLookup(rows: seq<BlockedAppEntity>, apps: seq<BlockedAppEntity>, q: string)
    ensures Lookup(InsertedAll(rows, apps), q) == if LastWith(apps, q).Some? then LastWith(apps, q) else Lookup(rows, q)
  {
    if |apps| > 0 {
      InsertedAllLookup(rows, apps[..|apps| - 1], q);
      LookupAfterReplace(InsertedAll(rows, apps[..|apps| - 1]), apps[|apps| - 1], q);
    }
  }

  /** getAllBlockedApps orders by appName, comparing strings by code point. */
  predicate ByAppName(a: BlockedAppEntity, b: BlockedAppEntity)
  {
    StrLe(a.appName, b.appName)
  }

  lemma AppNameOrder()
    ensures TotalPreorder(ByAppName)
  {
    forall a: BlockedAppEntity, b: BlockedAppEntity
      ensures ByAppName(a, b) || ByAppName(b, a)
    {
      StrLeTotal(a.appName, b.appName);
    }
    forall a: BlockedAppEntity, b: BlockedAppEntity, c: BlockedAppEntity | ByAppName(a, b) && ByAppName(b, c)
      ensures ByAppName(a, c)
    {
      StrLeTrans(a.appName, b.appName, c.appName);
    }
  }

  /** The packageName column, row by row. */
  function KeysOf(rows: seq<BlockedAppEntity>): (r: seq<string>)
    ensures |r| == |rows|
    ensures forall p :: p in r <==> HasKey(rows, p)
  {
    if |rows| == 0 then []
    else
      var tail := KeysOf(rows[1..]);
      assert forall p :: HasKey(rows, p) <==> rows[0].packageName == p || HasKey(rows[1..], p) by {
        forall p | HasKey(rows[1..], p)
          ensures HasKey(rows, p)
        {
          var i :| 0 <= i < |rows[1..]| && rows[1..][i].packageName == p;
          assert rows[i + 1].packageName == p;
        }
      }
      [rows[0].packageName] + tail
  }

  // ---------------------------------------------------------------------
  // schedules, kept in ascending id order
  // ---------------------------------------------------------------------

  predicate IdsAscending(rows: seq<ScheduleEntity>)
  {
    forall i, j :: 0 <= i < j < |rows| ==> rows[i].id < rows[j].id
  }

  predicate HasId(rows: seq<ScheduleEntity>, id: int)
  {
    exists i :: 0 <= i < |rows| && rows[i].id == id
  }

  lemma ConsAscending(a: ScheduleEntity, t: seq<ScheduleEntity>)
    requires IdsAscending(t)
    requires forall x :: x in t ==> a.id < x.id
    ensures IdsAscending([a] + t)
  {
    forall i, j | 0 <= i < j < |[a] + t|
      ensures ([a] + t)[i].id < ([a] + t)[j].id
    {
      if i == 0 {
        assert ([a] + t)[j] == t[j - 1];
        assert t[j - 1] in t;
      } else {
        assert ([a] + t)[i] == t[i - 1] && ([a] + t)[j] == t[j - 1];
      }
    }
  }

  lemma HeadSmallest(rows: seq<ScheduleEntity>)
    requires IdsAscending(rows) && |rows| > 0
    ensures forall x :: x in rows[1..] ==> rows[0].id < x.id
  {
    forall x | x in rows[1..]
      ensures rows[0].id < x.id
    {
      var k :| 0 <= k < |rows[1..]| && rows[1..][k] == x;
      assert rows[k + 1] == x;
    }
  }

  /** DELETE ... WHERE id = :id: the other rows, in their order. */
  function WithoutId(rows: seq<ScheduleEntity>, id: int): (r: seq<ScheduleEntity>)
    ensures forall x :: x in r <==> x in rows && x.id != id
    ensures !HasId(rows, id) ==> r == rows
    ensures IdsAscending(rows) ==> IdsAscending(r)
  {
    if |rows| == 0 then []
    else
      var tail := WithoutId(rows[1..], id);
      IdTailFacts(rows, id);
      if rows[0].id == id then tail
      else if IdsAscending(rows) then
        ConsAscending(rows[0], tail);
        [rows[0]] + tail
      else [rows[0]] + tail
  }

  /** What the tail of a table keeps of its order and of an id lookup. */
  lemma IdTailFacts(rows: seq<ScheduleEntity>, id: int)
    requires |rows| > 0
    ensures IdsAscending(rows) ==> IdsAscending(rows[1..])
    ensures IdsAscending(rows) ==> forall x :: x in rows[1..] ==> rows[0].id < x.id
    ensures IdsAscending(rows) && rows[0].id == id ==> !HasId(rows[1..], id)
    ensures HasId(rows, id) && rows[0].id != id ==> HasId(rows[1..], id)
    ensures !HasId(rows, id) ==> rows[0].id != id && !HasId(rows[1..], id)
    ensures rows == [rows[0]] + rows[1..]
  {
    if IdsAscending(rows) {
      HeadSmallest(rows);
    }
    if HasId(rows, id) && rows[0].id != id {
      var k :| 0 <= k < |rows| && rows[k].id == id;
      assert rows[1..][k - 1] == rows[k];
    }
    if !HasId(rows, id) {
      assert forall k :: 0 <= k < |rows[1..]| ==> rows[1..][k] == rows[k + 1];
    }
  }

  /** Places a row at its id position in an ascending table that has no row with that id. */
  function InsertById(rows: seq<ScheduleEntity>, s: ScheduleEntity): (r: seq<ScheduleEntity>)
    requires IdsAscending(rows) && !HasId(rows, s.id)
    ensures IdsAscending(r)
    ensures forall x :: x in r <==> x == s || x in rows
  {
    if |rows| == 0 then [s]
    else if s.id < rows[0].id then [s] + rows
    else
      var tail := InsertById(rows[1..], s);
      HeadSmallest(rows);
      ConsAscending(rows[0], tail);
      [rows[0]] + tail
  }

  /** The id an insert gets: a fresh one after the counter for id 0, the given id otherwise. */
  function AssignedId(lastId: int, s: ScheduleEntity): int
  {
    if s.id == 0 then lastId + 1 else s.id
  }

  /** The table holds at most the ids the counter has reached. */
  ghost predicate ScheduleTable(rows: seq<ScheduleEntity>, lastId: int)
  {
    IdsAscending(rows) && forall x :: x in rows ==> x.id <= lastId
  }

  /** One INSERT OR REPLACE on `schedules`: the table and the counter afterwards. */
  function InsertedSchedule(rows: seq<ScheduleEntity>, lastId: int, s: ScheduleEntity): (r: (seq<ScheduleEntity>, int))
    requires ScheduleTable(rows, lastId)
    ensures ScheduleTable(r.0, r.1)
    ensures forall x :: x in r.0 <==> x == s.(id := AssignedId(lastId, s)) || (x in rows && x.id != AssignedId(lastId, s))
  {
    var id := AssignedId(lastId, s);
    (InsertById(WithoutId(rows, id), s.(id := id)), Max(lastId, id))
  }

  /** replaceAllSchedules' loop: each schedule inserted in turn. */
  function InsertedSchedules(rows: seq<ScheduleEntity>, lastId: int, list: seq<ScheduleEntity>): (r: (seq<ScheduleEntity>, int))
    requires ScheduleTable(rows, lastId)
    ensures ScheduleTable(r.0, r.1)
  {
    if |list| == 0 then (rows, lastId)
    else
      var before := InsertedSchedules(rows, lastId, list[..|list| - 1]);
      InsertedSchedule(before.0, before.1, list[|list| - 1])
  }

  /** No two schedules of the list share an id, and none asks for a fresh one. */
  predicate DistinctExplicitIds(list: seq<ScheduleEntity>)
  {
    (forall i :: 0 <= i < |list| ==> list[i].id != 0)
    && (forall i, j :: 0 <= i < j < |list| ==> list[i].id != list[j].id)
  }

  /**
   * Replacing the whole table by schedules with distinct explicit ids leaves
   * exactly those schedules.
   */
  lemma {:induction false} ReplaceAllSchedulesExact(lastId: int, list: seq<ScheduleEntity>)
    requires DistinctExplicitIds(list)
    ensures forall x :: x in InsertedSchedules([], lastId, list).0 <==> x in list
  {
    if |list| > 0 {
      var init := list[..|list| - 1];
      var s := list[|list| - 1];
      assert DistinctExplicitIds(init);
      ReplaceAllSchedulesExact(lastId, init);
      var before := InsertedSchedules([], lastId, init);
      forall x | x in before.0
        ensures x.id != s.id
      {
        var k :| 0 <= k < |init| && init[k] == x;
        assert list[k] == x;
      }
      assert AssignedId(before.1, s) == s.id;
      assert s.(id := s.id) == s;
      assert forall x :: x in list <==> x in init || x == s;
    }
  }

  /** getAllSchedules orders by startHour, then startMinute. */
  predicate ByStartTime(a: ScheduleEntity, b: ScheduleEntity)
  {
    a.startHour < b.startHour || (a.startHour == b.startHour && a.startMinute <= b.startMinute)
  }

  lemma StartTimeOrder()
    ensures TotalPreorder(ByStartTime)
  {
  }

  predicate IsEnabled(s: ScheduleEntity)
  {
    s.isEnabled
  }

  // ---------------------------------------------------------------------
  // The DAO
  // ---------------------------------------------------------------------

  class Dao {
    var blockedApps: seq<BlockedAppEntity>
    var schedules: seq<ScheduleEntity>
    var lastScheduleId: int

    ghost predicate Valid()
      reads this
    {
      UniqueKeys(blockedApps) && ScheduleTable(schedules, lastScheduleId)
    }

    constructor ()
      ensures Valid() && blockedApps == [] && schedules == [] && lastScheduleId == 0
    {
      blockedApps := [];
      schedules := [];
      lastScheduleId := 0;
    }

    /** getAllBlockedApps: every row, ordered by appName. */
    function GetAllBlockedApps(): (r: seq<BlockedAppEntity>)
      reads this
      ensures Sorted(r, ByAppName)
      ensures multiset(r) == multiset(blockedApps)
    {
      AppNameOrder();
      SortBySorted(blockedApps, ByAppName);
      SortBy(blockedApps, ByAppName)
    }

    /** getBlockedPackageNames: the key column; its elements are exactly the stored keys. */
    function GetBlockedPackageNames(): (r: seq<string>)
      reads this
      ensures |r| == |blockedApps|
      ensures forall p :: p in r <==> HasKey(blockedApps, p)
    {
      KeysOf(blockedApps)
    }

    /** insertBlockedApps: one REPLACE per element, in list order. */
    method InsertBlockedApps(apps: seq<BlockedAppEntity>)
      requires Valid()
      modifies this
      ensures Valid()
      ensures blockedApps == InsertedAll(old(blockedApps), apps)
      ensures schedules == old(schedules) && lastScheduleId == old(lastScheduleId)
    {
      var i := 0;
      while i < |apps|
        invariant 0 <= i <= |apps|
        invariant Valid()
        invariant blockedApps == InsertedAll(old(blockedApps), apps[..i])
        invariant schedules == old(schedules) && lastScheduleId == old(lastScheduleId)
      {
        assert apps[..i + 1][..i] == apps[..i];
        blockedApps := Replaced(blockedApps, apps[i]);
        i := i + 1;
      }
      assert apps[..i] == apps;
    }

    method ClearBlockedApps()
      modifies this
      ensures blockedApps == []
      ensures schedules == old(schedules) && lastScheduleId == old(lastScheduleId)
    {
      blockedApps := [];
    }

    /** deleteBlockedApp: removes only that package's row. */
    method DeleteBlockedApp(pkg: string)
      requires Valid()
      modifies this
      ensures Valid()
      ensures blockedApps == WithoutKey(old(blockedApps), pkg)
      ensures schedules == old(schedules) && lastScheduleId == old(lastScheduleId)
    {
      blockedApps := WithoutKey(blockedApps, pkg);
    }

    /** replaceAllBlockedApps: clear, then insert the list, in one transaction. */
    method ReplaceAllBlockedApps(apps: seq<BlockedAppEntity>)
      requires Valid()
      modifies this
      ensures Valid()
      ensures blockedApps == InsertedAll([], apps)
      ensures schedules == old(schedules) && lastScheduleId == old(lastScheduleId)
    {
      ClearBlockedApps();
      InsertBlockedApps(apps);
    }

    /** getAllSchedules: every row, ordered by start hour and minute. */
    function GetAllSchedules(): (r: seq<ScheduleEntity>)
      reads this
      ensures Sorted(r, ByStartTime)
      ensures multiset(r) == multiset(schedules)
    {
      StartTimeOrder();
      SortBySorted(schedules, ByStartTime);
      SortBy(schedules, ByStartTime)
    }

    /** getEnabledSchedules: the enabled rows, in scan (id) order. */
    function GetEnabledSchedules(): (r: seq<ScheduleEntity>)
      reads this
      ensures forall i :: 0 <= i < |r| ==> r[i] in schedules && r[i].isEnabled
      ensures forall i :: 0 <= i < |schedules| && schedules[i].isEnabled ==> schedules[i] in r
    {
      Filter(schedules, IsEnabled)
    }

    /** insertSchedule: INSERT OR REPLACE; returns the row id the schedule was stored under. */
    method InsertSchedule(s: ScheduleEntity) returns (id: int)
      requires Valid()
      modifies this
      ensures Valid()
      ensures id == AssignedId(old(lastScheduleId), s)
      ensures (schedules, lastScheduleId) == InsertedSchedule(old(schedules), old(lastScheduleId), s)
      ensures blockedApps == old(blockedApps)
    {
      id := AssignedId(lastScheduleId, s);
      var r := InsertedSchedule(schedules, lastScheduleId, s);
      schedules, lastScheduleId := r.0, r.1;
    }

    /** deleteScheduleById, and @Delete, which deletes by the entity's primary key. */
    method DeleteScheduleById(id: int)
      requires Valid()
      modifies this
      ensures Valid()
      ensures schedules == WithoutId(old(schedules), id)
      ensures lastScheduleId == old(lastScheduleId) && blockedApps == old(blockedApps)
    {
      schedules := WithoutId(schedules, id);
    }

    method ClearSchedules()
      modifies this
      ensures schedules == [] && lastScheduleId == old(lastScheduleId) && blockedApps == old(blockedApps)
    {
      schedules := [];
    }

    /** replaceAllSchedules: clear, then insert each schedule in turn. */
    method ReplaceAllSchedules(list: seq<ScheduleEntity>)
      requires Valid()
      modifies this
      ensures Valid()
      ensures (schedules, lastScheduleId) == InsertedSchedules([], old(lastScheduleId), list)
      ensures blockedApps == old(blockedApps)
    {
      ClearSchedules();
      var i := 0;
      while i < |list|
        invariant 0 <= i <= |list|
        invariant Valid() && blockedApps == old(blockedApps)
        invariant (schedules, lastScheduleId) == InsertedSchedules([], old(lastScheduleId), list[..i])
      {
        assert list[..i + 1][..i] == list[..i];
        var _ := InsertSchedule(list[i]);
        i := i + 1;
      }
      assert list[..i] == list;
    }
  }

  /** replaceAllBlockedApps leaves one row per listed package: the last occurrence in the list. */
  lemma ReplaceAllLastWins(apps: seq<BlockedAppEntity>, q: string)
    ensures UniqueKeys(InsertedAll([], apps))
    ensures Lookup(InsertedAll([], apps), q) == LastWith(apps, q)
  {
    InsertedAllLookup([], apps, q);
  }

  /** deleteBlockedApp removes exactly the given key and nothing else. */
  lemma DeleteOnlyThat(rows: seq<BlockedAppEntity>, pkg: string, q: string)
    ensures Lookup(WithoutKey(rows, pkg), pkg).None?
    ensures q != pkg ==> Lookup(WithoutKey(rows, pkg), q) == Lookup(rows, q)
  {
    LookupWithoutKey(rows, pkg, pkg);
    LookupWithoutKey(rows, pkg, q);
  }
}
