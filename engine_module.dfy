/**
 * The zenox React Native module (ZenEngineModule): the block list written
 * from JavaScript, schedules saved with their defaults, the launcher-app
 * scan with its icon sizing, and the accessibility and overlay checks.
 * Gson results, PackageManager answers and the settings string are inputs.
 */
module ZenEngineModule {
  import opened Common
  import opened Sorting
  import opened ZenDao
  import opened EngineCommon
  import ZenoxEngine

  // ---------------------------------------------------------------------
  // setBlockedApps
  // ---------------------------------------------------------------------

  /** One element of the JSON list, as Gson builds it. */
  datatype AppPayload = AppPayload(packageName: string, appName: string, iconBase64: Option<string>)

  function EntitiesOf(apps: seq<AppPayload>): (r: seq<BlockedAppEntity>)
    ensures |r| == |apps|
    ensures forall i :: 0 <= i < |r| ==>
              r[i] == BlockedAppEntity(apps[i].packageName, apps[i].appName, apps[i].iconBase64)
  {
    seq(|apps|, i requires 0 <= i < |apps| => BlockedAppEntity(apps[i].packageName, apps[i].appName, apps[i].iconBase64))
  }

  /**
   * The table written by replaceAllBlockedApps holds exactly the packages
   * that are synced to prefs, each with its last listed row.
   */
  lemma ReplacedTableMatchesSync(apps: seq<AppPayload>, p: string)
    ensures HasKey(InsertedAll([], EntitiesOf(apps)), p) <==> p in AsSet(KeysOf(EntitiesOf(apps)))
    ensures Lookup(InsertedAll([], EntitiesOf(apps)), p) == LastWith(EntitiesOf(apps), p)
  {
    var entities := EntitiesOf(apps);
    ReplaceAllLastWins(entities, p);
    if p in KeysOf(entities) {
      assert HasKey(entities, p);
      var i :| 0 <= i < |entities| && entities[i].packageName == p;
      assert entities[i] in entities;
    }
  }

  // ---------------------------------------------------------------------
  // saveSchedule
  // ---------------------------------------------------------------------

  /** The JSON object saveSchedule reads; optional members are None when absent. */
  datatype ScheduleData = ScheduleData(
    id: Option<int>, name: string,
    startHour: int, startMinute: int, endHour: int, endMinute: int,
    daysOfWeek: Option<string>, isFortress: Option<bool>, isEnabled: Option<bool>,
    blockedAppsJson: Option<string>)

  /**
   * The entity saved: a missing id is 0 (a new row), missing days are every
   * day, a missing fortress flag is off and a missing enabled flag is on;
   * everything given is kept.
   */
  function EntityOf(data: ScheduleData): (e: ScheduleEntity)
    ensures e.id == (if data.id.Some? then data.id.value else 0)
    ensures e.daysOfWeek == (if data.daysOfWeek.Some? then data.daysOfWeek.value else ALL_DAYS)
    ensures e.isFortress == (data.isFortress.Some? && data.isFortress.value)
    ensures e.isEnabled == (data.isEnabled.None? || data.isEnabled.value)
    ensures e.name == data.name && e.blockedAppsJson == data.blockedAppsJson
    ensures (e.startHour, e.startMinute, e.endHour, e.endMinute)
            == (data.startHour, data.startMinute, data.endHour, data.endMinute)
  {
    ScheduleEntity(
      GetOrElse(data.id, 0), data.name,
      data.startHour, data.startMinute, data.endHour, data.endMinute,
      GetOrElse(data.daysOfWeek, ALL_DAYS), GetOrElse(data.isFortress, false), GetOrElse(data.isEnabled, true),
      data.blockedAppsJson)
  }

  // ---------------------------------------------------------------------
  // getInstalledApps and convertIconToBase64
  // ---------------------------------------------------------------------

  /** An app icon: a bitmap of a known size, or another drawable with its intrinsic size. */
  datatype Drawable = BitmapDrawable(width: int, height: int) | OtherDrawable(intrinsicWidth: int, intrinsicHeight: int)

  /**
   * The size of the bitmap that is PNG-encoded: a non-bitmap is drawn at
   * least 48 by 48; anything wider or taller than 96 is scaled to 96 by 96.
   */
  function IconSize(d: Drawable): (wh: (int, int))
    ensures d.OtherDrawable? ==> 48 <= wh.0 <= 96 && 48 <= wh.1 <= 96
    ensures d.BitmapDrawable? && (d.width > 96 || d.height > 96) ==> wh == (96, 96)
    ensures d.BitmapDrawable? && d.width <= 96 && d.height <= 96 ==> wh == (d.width, d.height)
    ensures d.OtherDrawable? && d.intrinsicWidth <= 96 && d.intrinsicHeight <= 96 ==>
              wh == (Max(d.intrinsicWidth, 48), Max(d.intrinsicHeight, 48))
  {
    var (w, h) := match d
      case BitmapDrawable(bw, bh) => (bw, bh)
      case OtherDrawable(iw, ih) => (Max(iw, 48), Max(ih, 48));
    if w > 96 || h > 96 then (96, 96) else (w, h)
  }

  /** The package manager's view of one launcher activity. */
  datatype AppInfo = AppInfo(packageName: string, appLabel: string, icon: Drawable, loadFails: bool)
  /** A launcher activity: the label the display-name comparator reads, and its application (None when null). */
  datatype LaunchInfo = LaunchInfo(displayName: string, appInfo: Option<AppInfo>)

  /** One pushed map; the PNG and Base64 encoding of the icon is represented by the bitmap size. */
  datatype InstalledApp = InstalledApp(packageName: string, appName: string, iconSize: (int, int))

  datatype InstalledAppsResult = Resolved(apps: seq<InstalledApp>) | Rejected(code: string)

  /** ResolveInfo.DisplayNameComparator, with labels compared by code point. */
  predicate ByDisplayName(a: LaunchInfo, b: LaunchInfo)
  {
    StrLe(a.displayName, b.displayName)
  }

  lemma DisplayNameOrder()
    ensures TotalPreorder(ByDisplayName)
  {
    forall a: LaunchInfo, b: LaunchInfo
      ensures ByDisplayName(a, b) || ByDisplayName(b, a)
    {
      StrLeTotal(a.displayName, b.displayName);
    }
    forall a: LaunchInfo, b: LaunchInfo, c: LaunchInfo | ByDisplayName(a, b) && ByDisplayName(b, c)
      ensures ByDisplayName(a, c)
    {
      StrLeTrans(a.displayName, b.displayName, c.displayName);
    }
  }

  /** An activity is listed when it has an application, is not this app, and its label and icon load. */
  function Listed(ownPackage: string): LaunchInfo -> bool
  {
    (info: LaunchInfo) => info.appInfo.Some? && info.appInfo.value.packageName != ownPackage && !info.appInfo.value.loadFails
  }

  function Rendered(info: LaunchInfo): InstalledApp
    requires info.appInfo.Some?
  {
    var a := info.appInfo.value;
    InstalledApp(a.packageName, a.appLabel, IconSize(a.icon))
  }

  /** The maps pushed for the activities in the order given. */
  function RenderedAll(infos: seq<LaunchInfo>, ownPackage: string): (r: seq<InstalledApp>)
    ensures |r| <= |infos|
    decreases |infos|
  {
    if |infos| == 0 then []
    else
      var rest := RenderedAll(infos[..|infos| - 1], ownPackage);
      var last := infos[|infos| - 1];
      if Listed(ownPackage)(last) then rest + [Rendered(last)] else rest
  }

  /** `r` is, position by position, the rendering of `kept`, and holds no row for this app. */
  predicate RendersAs(r: seq<InstalledApp>, kept: seq<LaunchInfo>, ownPackage: string)
  {
    |r| == |kept| &&
    forall i :: 0 <= i < |r| ==>
      kept[i].appInfo.Some? && r[i] == Rendered(kept[i]) && r[i].packageName != ownPackage
  }

  lemma RendersAsSnoc(r: seq<InstalledApp>, kept: seq<LaunchInfo>, x: LaunchInfo, ownPackage: string)
    requires RendersAs(r, kept, ownPackage)
    requires x.appInfo.Some? && x.appInfo.value.packageName != ownPackage
    ensures RendersAs(r + [Rendered(x)], kept + [x], ownPackage)
  {
  }

  /**
   * The pushed maps are, in order, the renderings of the listed
   * activities; none of them is this app.
   */
  lemma {:induction false} RenderedAllIsFilter(infos: seq<LaunchInfo>, ownPackage: string)
    ensures RendersAs(RenderedAll(infos, ownPackage), Filter(infos, Listed(ownPackage)), ownPackage)
    decreases |infos|
  {
    if |infos| > 0 {
      var p := Listed(ownPackage);
      var init, last := infos[..|infos| - 1], infos[|infos| - 1];
      RenderedAllIsFilter(init, ownPackage);
      assert infos == init + [last];
      FilterAppend(init, [last], p);
      assert [last][1..] == [];
      if p(last) {
        assert Filter([last], p) == [last];
        RendersAsSnoc(RenderedAll(init, ownPackage), Filter(init, p), last, ownPackage);
      } else {
        assert Filter([last], p) == [];
      }
    }
  }

  /** A filter keeps the order of a sorted list. */
  lemma FilterKeepsOrder<T>(xs: seq<T>, p: T -> bool, le: (T, T) -> bool)
    requires Sorted(xs, le)
    ensures Sorted(Filter(xs, p), le)
  {
    if |xs| > 0 {
      FilterKeepsOrder(xs[1..], p, le);
      var t := Filter(xs[1..], p);
      forall j | 0 <= j < |t|
        ensures le(xs[0], t[j])
      {
        assert t[j] in xs[1..];
      }
    }
  }

  // ---------------------------------------------------------------------
  // isServiceEnabled, checkOverlayPermission
  // ---------------------------------------------------------------------

  /** A component: package and fully qualified class name. */
  datatype ComponentName = ComponentName(packageName: string, className: string)

  /**
   * ComponentName.unflattenFromString: "package/class", where a class
   * starting with '.' is relative to the package; no '/' or nothing after
   * it gives null.
   */
  function Unflatten(s: string): (r: Option<ComponentName>)
    ensures r.Some? ==> '/' in s && '/' !in r.value.packageName && r.value.className != []
  {
    var sep := IndexOf(s, '/');
    if sep < 0 || sep + 1 >= |s| then None
    else
      var pkg, cls := s[..sep], s[sep + 1..];
      Some(ComponentName(pkg, if cls[0] == '.' then pkg + cls else cls))
  }

  /** The component flattened back to text. */
  function Flatten(c: ComponentName): string
  {
    c.packageName + "/" + c.className
  }

  /** Reading back a flattened component gives the component. */
  lemma UnflattenFlatten(c: ComponentName)
    requires '/' !in c.packageName && c.className != [] && c.className[0] != '.'
    ensures Unflatten(Flatten(c)) == Some(c)
  {
    var s := Flatten(c);
    assert s[|c.packageName|] == '/' && s[..|c.packageName|] == c.packageName;
    assert s[|c.packageName| + 1..] == c.className;
  }

  /** Reading the settings string: it may throw, or hold null. */
  datatype SettingRead = ReadFails | Setting(value: Option<string>)

  /**
   * isServiceEnabled: false when reading throws; a null setting counts as
   * ""; on when some ':'-separated entry unflattens to this service.
   */
  predicate IsServiceEnabled(read: SettingRead, myService: ComponentName)
  {
    read.Setting? &&
    var enabled := GetOrElse(read.value, "");
    exists entry :: entry in Split(enabled, ':') && Unflatten(entry) == Some(myService)
  }

  /** A null, empty or unreadable setting is off. */
  lemma NoSettingIsOff(myService: ComponentName)
    ensures !IsServiceEnabled(ReadFails, myService)
    ensures !IsServiceEnabled(Setting(None), myService)
    ensures !IsServiceEnabled(Setting(Some("")), myService)
  {
    assert Split("", ':') == [""];
  }

  /** A setting that lists this service among other ':'-separated entries turns it on. */
  lemma {:induction false} ListedServiceIsOn(before: string, myService: ComponentName, after: string)
    requires '/' !in myService.packageName && myService.className != [] && myService.className[0] != '.'
    requires ':' !in myService.packageName && ':' !in myService.className
    ensures IsServiceEnabled(Setting(Some(before + [':'] + (Flatten(myService) + [':'] + after))), myService)
  {
    UnflattenFlatten(myService);
    PieceBetweenSeparators(before, Flatten(myService), after);
  }

  /** A delimiter-free middle piece between two delimiters is one of the pieces of the split. */
  lemma PieceBetweenSeparators(before: string, mid: string, after: string)
    requires ':' !in mid
    ensures mid in Split(before + [':'] + (mid + [':'] + after), ':')
  {
    var pre := Split(before, ':');
    SplitAround(before, mid + [':'] + after, ':');
    SplitCons(mid, after, ':');
    var pieces := pre + ([mid] + Split(after, ':'));
    assert pieces[|pre|] == mid;
  }

  /** checkOverlayPermission: below API 23 (M) the permission is implied; from 23 on it is the system's answer. */
  function CheckOverlayPermission(sdkInt: int, canDrawOverlays: bool): (granted: bool)
    ensures sdkInt < 23 ==> granted
    ensures sdkInt >= 23 ==> granted == canDrawOverlays
  {
    sdkInt < 23 || canDrawOverlays
  }

  /** requestOverlayPermission opens the settings screen only from API 23 on, when drawing is not allowed. */
  predicate RequestOpensSettings(sdkInt: int, canDrawOverlays: bool)
  {
    sdkInt >= 23 && !canDrawOverlays
  }

  /** The settings screen is opened exactly when checkOverlayPermission reports no permission. */
  lemma RequestIffNotGranted(sdkInt: int, canDrawOverlays: bool)
    ensures RequestOpensSettings(sdkInt, canDrawOverlays) <==> !CheckOverlayPermission(sdkInt, canDrawOverlays)
  {
  }

  // ---------------------------------------------------------------------
  // The module object
  // ---------------------------------------------------------------------

  class EngineModule {
    const dao: Dao
    const engine: ZenoxEngine.Engine

    constructor (dao: Dao, engine: ZenoxEngine.Engine)
      ensures this.dao == dao && this.engine == engine
    {
      this.dao := dao;
      this.engine := engine;
    }

    /**
     * setBlockedApps: the parsed list replaces the whole table and exactly
     * its package names are synced; a parse error is swallowed with no
     * change.
     */
    method SetBlockedApps(parsed: Option<seq<AppPayload>>)
      requires dao.Valid()
      modifies dao, engine
      ensures dao.Valid()
      ensures parsed.None? ==> dao.blockedApps == old(dao.blockedApps) && engine.prefs == old(engine.prefs)
                               && engine.effects == old(engine.effects)
      ensures parsed.Some? ==> dao.blockedApps == InsertedAll([], EntitiesOf(parsed.value))
      ensures parsed.Some? ==> engine.prefs == old(engine.prefs).(blockedPackages := Some(AsSet(KeysOf(EntitiesOf(parsed.value)))))
      ensures parsed.Some? ==> engine.effects == old(engine.effects) + [BlockListSynced(AsSet(KeysOf(EntitiesOf(parsed.value))))]
      ensures parsed.Some? ==> forall p :: HasKey(dao.blockedApps, p) <==> p in engine.prefs.blockedPackages.value
      ensures dao.schedules == old(dao.schedules) && engine.isActive == old(engine.isActive)
      ensures engine.endTimeMs == old(engine.endTimeMs) && engine.scheduleName == old(engine.scheduleName)
      ensures engine.isFortress == old(engine.isFortress) && engine.isInitialized == old(engine.isInitialized)
      ensures engine.checkersPosted == old(engine.checkersPosted)
    {
      if parsed.None? {
        return;
      }
      var entities := EntitiesOf(parsed.value);
      dao.ReplaceAllBlockedApps(entities);
      engine.SyncBlockListToPrefs(KeysOf(entities));
      forall p {
        ReplacedTableMatchesSync(parsed.value, p);
      }
    }

    /** saveSchedule: the entity with its defaults is inserted or replaced; the promise gets the row id, or None on a parse error. */
    method SaveSchedule(parsed: Option<ScheduleData>) returns (id: Option<int>)
      requires dao.Valid()
      modifies dao
      ensures dao.Valid()
      ensures parsed.None? ==> id.None? && dao.schedules == old(dao.schedules) && dao.lastScheduleId == old(dao.lastScheduleId)
      ensures parsed.Some? ==> id == Some(AssignedId(old(dao.lastScheduleId), EntityOf(parsed.value)))
      ensures parsed.Some? ==>
                (dao.schedules, dao.lastScheduleId) == InsertedSchedule(old(dao.schedules), old(dao.lastScheduleId), EntityOf(parsed.value))
      ensures dao.blockedApps == old(dao.blockedApps)
    {
      if parsed.None? {
        return None;
      }
      var n := dao.InsertSchedule(EntityOf(parsed.value));
      id := Some(n);
    }

    /**
     * getInstalledApps: the launcher activities sorted by display name,
     * then one map per activity that has an application, is not this app
     * and loads; a failing query rejects with ERR_FETCH_APPS.
     */
    static method GetInstalledApps(query: Option<seq<LaunchInfo>>, ownPackage: string) returns (r: InstalledAppsResult)
      ensures query.None? <==> r == Rejected("ERR_FETCH_APPS")
      ensures query.Some? ==> r == Resolved(RenderedAll(SortBy(query.value, ByDisplayName), ownPackage))
    {
      if query.None? {
        return Rejected("ERR_FETCH_APPS");
      }
      var apps := SortBy(query.value, ByDisplayName);
      var list: seq<InstalledApp> := [];
      var i := 0;
      while i < |apps|
        invariant 0 <= i <= |apps|
        invariant list == RenderedAll(apps[..i], ownPackage)
      {
        assert apps[..i + 1][..i] == apps[..i];
        var info := apps[i];
        if info.appInfo.Some? && info.appInfo.value.packageName != ownPackage && !info.appInfo.value.loadFails {
          list := list + [Rendered(info)];
        }
        i := i + 1;
      }
      assert apps[..i] == apps;
      return Resolved(list);
    }
  }

  /**
   * The installed-app list never holds this app, and it is the listed
   * activities in display-name order.
   */
  lemma InstalledAppsOrdered(infos: seq<LaunchInfo>, ownPackage: string)
    ensures var sorted := SortBy(infos, ByDisplayName);
            var kept := Filter(sorted, Listed(ownPackage));
            Sorted(kept, ByDisplayName)
            && |RenderedAll(sorted, ownPackage)| == |kept|
            && (forall i :: 0 <= i < |kept| ==> RenderedAll(sorted, ownPackage)[i] == Rendered(kept[i]))
            && (forall a :: a in RenderedAll(sorted, ownPackage) ==> a.packageName != ownPackage)
  {
    var sorted := SortBy(infos, ByDisplayName);
    DisplayNameOrder();
    SortBySorted(infos, ByDisplayName);
    FilterKeepsOrder(sorted, Listed(ownPackage), ByDisplayName);
    RenderedAllIsFilter(sorted, ownPackage);
  }
}
