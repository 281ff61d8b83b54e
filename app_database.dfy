/**
 * The zentox Room database: the `blocked_apps` table (primary key
 * packageName) and the `zen_schedules` table (auto-generated integer id).
 *
 * A table is kept as the sequence of its rows in SQLite's scan order.  For
 * `blocked_apps` that is rowid order: an INSERT OR REPLACE deletes the
 * conflicting row and appends the new one.  For `zen_schedules` the id is the
 * rowid, so the scan order is ascending id, and an AUTOINCREMENT counter
 * remembers the largest id ever used.
 */
module AppDatabase {
  import opened Common

  /** One row of `blocked_apps` (the entity class is not part of this model; its columns are the ones the code reads). */
  datatype BlockedApp = BlockedApp(packageName: string, appName: string, isBlocked: bool, dailyLimitMinutes: int)

  /** One row of `zen_schedules`. */
  datatype ZenSchedule = ZenSchedule(id: int, name: string, startTime: string, endTime: string, daysOfWeek: string, isEnabled: bool)

  // ---------------------------------------------------------------------
  // blocked_apps as a sequence of rows
  // ---------------------------------------------------------------------

  predicate UniquePackages(rows: seq<BlockedApp>)
  {
    forall i, j :: 0 <= i < j < |rows| ==> rows[i].packageName != rows[j].packageName
  }

  predicate HasPackage(rows: seq<BlockedApp>, pkg: string)
  {
    exists i :: 0 <= i < |rows| && rows[i].packageName == pkg
  }

  /** The rows whose key is not `pkg`, in their order. */
  function WithoutPackage(rows: seq<BlockedApp>, pkg: string): (r: seq<BlockedApp>)
    ensures forall x :: x in r <==> x in rows && x.packageName != pkg
    ensures |r| <= |rows|
    ensures UniquePackages(rows) ==> UniquePackages(r)
    ensures !HasPackage(rows, pkg) ==> r == rows
    ensures UniquePackages(rows) && HasPackage(rows, pkg) ==> |r| == |rows| - 1
  {
    if |rows| == 0 then []
    else
      var tail := WithoutPackage(rows[1..], pkg);
      PackageTailFacts(rows, pkg);
      if rows[0].packageName == pkg then tail
      else
        if UniquePackages(rows) then
          UniqueCons(rows[0], tail);
          [rows[0]] + tail
        else [rows[0]] + tail
  }

  /** What the tail of a table keeps of its uniqueness and of a package lookup. */
  lemma PackageTailFacts(rows: seq<BlockedApp>, pkg: string)
    requires |rows| > 0
    ensures UniquePackages(rows) ==> UniquePackages(rows[1..])
    ensures UniquePackages(rows) ==> forall x :: x in rows[1..] ==> x.packageName != rows[0].packageName
    ensures UniquePackages(rows) && rows[0].packageName == pkg ==> !HasPackage(rows[1..], pkg)
    ensures HasPackage(rows, pkg) && rows[0].packageName != pkg ==> HasPackage(rows[1..], pkg)
    ensures !HasPackage(rows, pkg) ==> rows[0].packageName != pkg && !HasPackage(rows[1..], pkg)
    ensures rows == [rows[0]] + rows[1..]
  {
    if UniquePackages(rows) {
      forall x | x in rows[1..]
        ensures x.packageName != rows[0].packageName
      {
        var k :| 0 <= k < |rows[1..]| && rows[1..][k] == x;
        assert rows[k + 1] == x;
      }
    }
    if HasPackage(rows, pkg) && rows[0].packageName != pkg {
      var k :| 0 <= k < |rows| && rows[k].packageName == pkg;
      assert rows[1..][k - 1] == rows[k];
    }
    if !HasPackage(rows, pkg) {
      assert forall k :: 0 <= k < |rows[1..]| ==> rows[1..][k] == rows[k + 1];
    }
  }

  /** A row whose package no row of a unique table has can go in front of it. */
  lemma UniqueCons(a: BlockedApp, t: seq<BlockedApp>)
    requires UniquePackages(t)
    requires forall x :: x in t ==> x.packageName != a.packageName
    ensures UniquePackages([a] + t)
  {
    forall i, j | 0 <= i < j < |[a] + t|
      ensures ([a] + t)[i].packageName != ([a] + t)[j].packageName
    {
      if i == 0 {
        assert ([a] + t)[j] == t[j - 1];
        assert t[j - 1] in t;
      } else {
        assert ([a] + t)[i] == t[i - 1] && ([a] + t)[j] == t[j - 1];
      }
    }
  }

  /** INSERT OR REPLACE on blocked_apps: any row with the same package goes, the new row is appended. */
  function Upserted(rows: seq<BlockedApp>, app: BlockedApp): (r: seq<BlockedApp>)
    ensures UniquePackages(rows) ==> UniquePackages(r)
    ensures forall x :: x in r <==> x == app || (x in rows && x.packageName != app.packageName)
  {
    WithoutPackage(rows, app.packageName) + [app]
  }

  /** SELECT ... WHERE packageName = :p LIMIT 1. */
  function FindPackage(rows: seq<BlockedApp>, pkg: string): (r: Option<BlockedApp>)
    ensures r.None? <==> !HasPackage(rows, pkg)
    ensures r.Some? ==> r.value in rows && r.value.packageName == pkg
  {
    if |rows| == 0 then None
    else if rows[0].packageName == pkg then Some(rows[0])
    else
      var t := FindPackage(rows[1..], pkg);
      assert HasPackage(rows, pkg) ==> HasPackage(rows[1..], pkg);
      t
  }

  /** With unique keys, the row found for a package is the only row with that package. */
  lemma {:induction false} FindPackageUnique(rows: seq<BlockedApp>, x: BlockedApp)
    requires UniquePackages(rows) && x in rows
    ensures FindPackage(rows, x.packageName) == Some(x)
  {
    if rows[0] != x {
      assert x in rows[1..];
      assert rows[0].packageName != x.packageName;
      FindPackageUnique(rows[1..], x);
    }
  }

  /** Looking up a package after an upsert: the new row for its own key, the old answer for every other key. */
  lemma UpsertLookup(rows: seq<BlockedApp>, app: BlockedApp, q: string)
    requires UniquePackages(rows)
    ensures FindPackage(Upserted(rows, app), app.packageName) == Some(app)
    ensures q != app.packageName ==> FindPackage(Upserted(rows, app), q) == FindPackage(rows, q)
  {
    var r := Upserted(rows, app);
    FindPackageUnique(r, app);
    if q != app.packageName {
      if HasPackage(rows, q) {
        var x := FindPackage(rows, q).value;
        FindPackageUnique(rows, x);
        FindPackageUnique(r, x);
      } else {
        forall x | x in r
          ensures x.packageName != q
        {
          if x != app {
            var i :| 0 <= i < |rows| && rows[i] == x;
          }
        }
      }
    }
  }

  /** WHERE dailyLimitMinutes > 0, in scan order. */
  function WithDailyLimit(rows: seq<BlockedApp>): (r: seq<BlockedApp>)
    ensures forall x :: x in r <==> x in rows && x.dailyLimitMinutes > 0
    ensures |r| <= |rows|
  {
    if |rows| == 0 then []
    else if rows[0].dailyLimitMinutes > 0 then [rows[0]] + WithDailyLimit(rows[1..])
    else WithDailyLimit(rows[1..])
  }

  /** WHERE isBlocked = 1, in scan order. */
  function BlockedRows(rows: seq<BlockedApp>): (r: seq<BlockedApp>)
    ensures forall x :: x in r <==> x in rows && x.isBlocked
    ensures |r| <= |rows|
  {
    if |rows| == 0 then []
    else if rows[0].isBlocked then [rows[0]] + BlockedRows(rows[1..])
    else BlockedRows(rows[1..])
  }

  /** SELECT COUNT(*) ... WHERE isBlocked = 1, counted row by row. */
  function CountBlocked(rows: seq<BlockedApp>): nat
  {
    if |rows| == 0 then 0 else (if rows[0].isBlocked then 1 else 0) + CountBlocked(rows[1..])
  }

  /** getBlockedCount agrees with the size of getBlockedApps. */
  lemma {:induction false} CountMatchesBlockedRows(rows: seq<BlockedApp>)
    ensures CountBlocked(rows) == |BlockedRows(rows)|
  {
    if |rows| > 0 {
      CountMatchesBlockedRows(rows[1..]);
    }
  }

  /** The BlockedAppDao over the blocked_apps table. */
  class BlockedAppDao {
    var rows: seq<BlockedApp>

    ghost predicate Valid()
      reads this
    {
      UniquePackages(rows)
    }

    constructor ()
      ensures Valid() && rows == []
    {
      rows := [];
    }

    /** upsert: REPLACE on the package key. */
    method Upsert(app: BlockedApp)
      requires Valid()
      modifies this
      ensures Valid()
      ensures rows == Upserted(old(rows), app)
    {
      rows := Upserted(rows, app);
    }

    function GetByPackageName(pkg: string): (r: Option<BlockedApp>)
      reads this
      ensures r.Some? ==> r.value in rows && r.value.packageName == pkg
      ensures r.None? ==> forall x :: x in rows ==> x.packageName != pkg
    {
      FindPackage(rows, pkg)
    }

    function GetAppsWithDailyLimit(): (r: seq<BlockedApp>)
      reads this
      ensures forall x :: x in r <==> x in rows && x.dailyLimitMinutes > 0
    {
      WithDailyLimit(rows)
    }

    function GetAll(): (r: seq<BlockedApp>)
      reads this
      ensures r == rows
    {
      rows
    }

    function GetBlockedApps(): (r: seq<BlockedApp>)
      reads this
      ensures forall x :: x in r <==> x in rows && x.isBlocked
    {
      BlockedRows(rows)
    }

    function GetBlockedCount(): (n: nat)
      reads this
      ensures n == |GetBlockedApps()|
    {
      CountMatchesBlockedRows(rows);
      CountBlocked(rows)
    }
  }

  // ---------------------------------------------------------------------
  // zen_schedules, kept in ascending id order
  // ---------------------------------------------------------------------

  predicate IdsAscending(rows: seq<ZenSchedule>)
  {
    forall i, j :: 0 <= i < j < |rows| ==> rows[i].id < rows[j].id
  }

  predicate IdsDescending(rows: seq<ZenSchedule>)
  {
    forall i, j :: 0 <= i < j < |rows| ==> rows[i].id > rows[j].id
  }

  predicate HasId(rows: seq<ZenSchedule>, id: int)
  {
    exists i :: 0 <= i < |rows| && rows[i].id == id
  }

  /** A row whose id is below every id of an ascending table can go in front of it. */
  lemma ConsAscending(a: ZenSchedule, t: seq<ZenSchedule>)
    requires IdsAscending(t)
    requires forall x :: x in t ==> a.id < x.id
    ensures IdsAscending([a] + t)
  {
    forall i, j | 0 <= i < j < |[a] + t|
      ensures ([a] + t)[i].id < ([a] + t)[j].id
    {
      if i == 0 {
        assert ([a] + t)[j] == t[j - 1];
        assert t[j - 1] in t;
      } else {
        assert ([a] + t)[i] == t[i - 1] && ([a] + t)[j] == t[j - 1];
      }
    }
  }

  /** Every later row of an ascending table has a larger id than the first. */
  lemma HeadSmallest(rows: seq<ZenSchedule>)
    requires IdsAscending(rows) && |rows| > 0
    ensures forall x :: x in rows[1..] ==> rows[0].id < x.id
  {
    forall x | x in rows[1..]
      ensures rows[0].id < x.id
    {
      var k :| 0 <= k < |rows[1..]| && rows[1..][k] == x;
      assert rows[k + 1] == x;
    }
  }

  /** The rows whose id is not `id`, in their order. */
  function WithoutId(rows: seq<ZenSchedule>, id: int): (r: seq<ZenSchedule>)
    ensures forall x :: x in r <==> x in rows && x.id != id
    ensures !HasId(rows, id) ==> r == rows
    ensures IdsAscending(rows) ==> IdsAscending(r)
    ensures IdsAscending(rows) && HasId(rows, id) ==> |r| == |rows| - 1
  {
    if |rows| == 0 then []
    else
      var tail := WithoutId(rows[1..], id);
      IdTailFacts(rows, id);
      if rows[0].id == id then tail
      else if IdsAscending(rows) then
        ConsAscending(rows[0], tail);
        [rows[0]] + tail
      else [rows[0]] + tail
  }

  /** What the tail of a table keeps of its order and of an id lookup. */
  lemma IdTailFacts(rows: seq<ZenSchedule>, id: int)
    requires |rows| > 0
    ensures IdsAscending(rows) ==> IdsAscending(rows[1..])
    ensures IdsAscending(rows) ==> forall x :: x in rows[1..] ==> rows[0].id < x.id
    ensures IdsAscending(rows) && rows[0].id == id ==> !HasId(rows[1..], id)
    ensures HasId(rows, id) && rows[0].id != id ==> HasId(rows[1..], id)
    ensures !HasId(rows, id) ==> rows[0].id != id && !HasId(rows[1..], id)
    ensures rows == [rows[0]] + rows[1..]
  {
    if IdsAscending(rows) {
      HeadSmallest(rows);
    }
    if HasId(rows, id) && rows[0].id != id {
      var k :| 0 <= k < |rows| && rows[k].id == id;
      assert rows[1..][k - 1] == rows[k];
    }
    if !HasId(rows, id) {
      assert forall k :: 0 <= k < |rows[1..]| ==> rows[1..][k] == rows[k + 1];
    }
  }

  /** Places a row at its id position in an ascending table that has no row with that id. */
  function InsertById(rows: seq<ZenSchedule>, s: ZenSchedule): (r: seq<ZenSchedule>)
    requires IdsAscending(rows) && !HasId(rows, s.id)
    ensures IdsAscending(r)
    ensures forall x :: x in r <==> x == s || x in rows
    ensures |r| == |rows| + 1
  {
    if |rows| == 0 then [s]
    else if s.id < rows[0].id then [s] + rows
    else
      var tail := InsertById(rows[1..], s);
      HeadSmallest(rows);
      ConsAscending(rows[0], tail);
      [rows[0]] + tail
  }

  /** Reverses a table, so an ascending one reads in descending id order. */
  function Reverse(rows: seq<ZenSchedule>): (r: seq<ZenSchedule>)
    ensures |r| == |rows|
    ensures forall k :: 0 <= k < |rows| ==> r[k] == rows[|rows| - 1 - k]
  {
    if |rows| == 0 then [] else Reverse(rows[1..]) + [rows[0]]
  }

  /** WHERE isEnabled = 1, in id order. */
  function EnabledRows(rows: seq<ZenSchedule>): (r: seq<ZenSchedule>)
    ensures forall x :: x in r <==> x in rows && x.isEnabled
  {
    if |rows| == 0 then []
    else if rows[0].isEnabled then [rows[0]] + EnabledRows(rows[1..])
    else EnabledRows(rows[1..])
  }

  /** The ZenScheduleDao over zen_schedules, with the AUTOINCREMENT counter. */
  class ZenScheduleDao {
    var rows: seq<ZenSchedule>
    var lastId: int

    ghost predicate Valid()
      reads this
    {
      IdsAscending(rows) && (forall x :: x in rows ==> x.id <= lastId)
    }

    constructor ()
      ensures Valid() && rows == [] && lastId == 0
    {
      rows := [];
      lastId := 0;
    }

    /** The id an insert of `s` gets: a fresh one when `s.id` is 0, `s.id` itself otherwise. */
    function AssignedId(s: ZenSchedule): (id: int)
      reads this
      ensures s.id == 0 ==> id == lastId + 1
      ensures s.id != 0 ==> id == s.id
    {
      if s.id == 0 then lastId + 1 else s.id
    }

    /**
     * insertSchedule: INSERT OR REPLACE; an id of 0 asks for a fresh id.
     * Returns the id of the stored row.
     */
    method InsertSchedule(s: ZenSchedule) returns (id: int)
      requires Valid()
      modifies this
      ensures Valid()
      ensures id == old(AssignedId(s))
      ensures rows == InsertById(WithoutId(old(rows), id), s.(id := id))
      ensures lastId == Max(old(lastId), id)
      ensures s.id == 0 ==> !HasId(old(rows), id)
    {
      id := AssignedId(s);
      var kept := WithoutId(rows, id);
      assert !HasId(kept, id);
      rows := InsertById(kept, s.(id := id));
      lastId := Max(lastId, id);
    }

    /** deleteById: removes the row with that id; the answer is the number of rows removed. */
    method DeleteById(id: int) returns (n: int)
      requires Valid()
      modifies this
      ensures Valid() && lastId == old(lastId)
      ensures n == (if HasId(old(rows), id) then 1 else 0)
      ensures rows == WithoutId(old(rows), id)
      ensures |rows| == |old(rows)| - n
    {
      n := if HasId(rows, id) then 1 else 0;
      rows := WithoutId(rows, id);
    }

    /** getAllSchedules: every row, ORDER BY id DESC. */
    function GetAllSchedules(): (r: seq<ZenSchedule>)
      reads this
      requires Valid()
      ensures IdsDescending(r)
      ensures forall x :: x in r <==> x in rows
    {
      var r := Reverse(rows);
      assert forall x :: x in r ==> x in rows;
      assert forall k :: 0 <= k < |rows| ==> rows[k] == r[|rows| - 1 - k];
      r
    }

    /** getActiveSchedules: exactly the enabled rows. */
    function GetActiveSchedules(): (r: seq<ZenSchedule>)
      reads this
      ensures forall x :: x in r <==> x in rows && x.isEnabled
    {
      EnabledRows(rows)
    }
  }
}
