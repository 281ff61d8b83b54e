/**
 * The React Native bridge of the zenox engine (ZenoxBridgeModule), whose
 * state store and database are the ones of the zentox files:
 * the manual trigger, the status map, the setBlockedApps merge into the
 * blocked_apps table, the toggle, the dashboard arithmetic, the top
 * blocked apps ranking, the accessibility-setting test and the "HH:MM"
 * helpers. JSON is taken already parsed; usage events and daily stats are
 * inputs.
 */
module ZenoxBridge {
  import opened Common
  import opened Sorting
  import opened AppDatabase
  import opened ZentoxState
  import SessionManager
  import ZentoxAlarm

  // ---------------------------------------------------------------------
  // getEngineStatus
  // ---------------------------------------------------------------------

  /** The map getEngineStatus resolves. */
  datatype EngineStatusMap = EngineStatusMap(isActive: bool, remainingSeconds: int, scheduleName: string, isFortress: bool)

  /**
   * getEngineStatus for a status read from the state store and the
   * manager's effective remaining time: whole seconds, never negative;
   * the trigger type is reported as the schedule name.
   */
  function EngineStatusOf(status: ZenStatus, remainingMillis: int): (r: EngineStatusMap)
    ensures !r.isFortress && r.remainingSeconds >= 0
    ensures r.isActive <==> status.Active?
    ensures status.Active? ==> r.scheduleName == status.triggerType
    ensures status.Active? ==> r.remainingSeconds * 1000 <= Max(remainingMillis, 0) < (r.remainingSeconds + 1) * 1000
    ensures status.Inactive? ==> r.remainingSeconds == 0 && r.scheduleName == []
  {
    match status
    case Active(t, _) => EngineStatusMap(true, Max(TruncDiv(remainingMillis, 1000), 0), t, false)
    case Inactive => EngineStatusMap(false, 0, [], false)
  }

  // ---------------------------------------------------------------------
  // setBlockedApps: the parsed JSON
  // ---------------------------------------------------------------------

  /** A member of a JSON object as `get(name)?.asString` sees it: missing, a primitive's text, or a value whose asString throws. */
  datatype JsonField = Absent | Text(s: string) | NonText
  datatype JsonItem = NonObject | Object(packageName: JsonField, appName: JsonField)
  /** parseString's result: a syntax error, some other JSON value, or an array. */
  datatype JsonRoot = Malformed | NonArray | JsonArray(items: seq<JsonItem>)

  /** What one forEach step does: skip the item, throw, or put a package and its name. */
  datatype ItemOutcome = Skip | Throws | Entry(pkg: string, name: string)

  /**
   * One array item: a non-object or a blank package is skipped before the
   * name is read; a name that trims to blank becomes the package name.
   */
  function ItemOutcomeOf(item: JsonItem): (r: ItemOutcome)
    ensures item.NonObject? ==> r.Skip?
    ensures r.Entry? ==> item.Object? && !IsBlank(r.pkg) && !IsBlank(r.name)
    ensures r.Entry? ==> item.packageName.Text? && r.pkg == Trim(item.packageName.s)
    ensures r.Entry? && item.appName.Text? && !IsBlank(Trim(item.appName.s)) ==> r.name == Trim(item.appName.s)
    ensures r.Entry? && !(item.appName.Text? && !IsBlank(Trim(item.appName.s))) ==> r.name == r.pkg
    ensures r.Throws? <==>
              (item.Object? && (item.packageName.NonText?
                                || (item.packageName.Text? && !IsBlank(Trim(item.packageName.s)) && item.appName.NonText?)))
  {
    match item
    case NonObject => Skip
    case Object(pf, af) =>
      if pf.NonText? then Throws
      else
        var pkg := if pf.Text? then Trim(pf.s) else [];
        if IsBlank(pkg) then Skip
        else if af.NonText? then Throws
        else
          var name := if af.Text? then Trim(af.s) else [];
          Entry(pkg, if IsBlank(name) then pkg else name)
  }

  /** An insertion-ordered map (mutableMapOf) as its entries. */
  type Entries = seq<(string, string)>

  predicate UniqueKeys(m: Entries)
  {
    forall i, j :: 0 <= i < j < |m| ==> m[i].0 != m[j].0
  }

  predicate HasKey(m: Entries, k: string)
  {
    exists i :: 0 <= i < |m| && m[i].0 == k
  }

  function Get(m: Entries, k: string): (r: Option<string>)
    ensures r.None? <==> !HasKey(m, k)
  {
    if |m| == 0 then None
    else if m[0].0 == k then Some(m[0].1)
    else
      assert HasKey(m, k) && m[0].0 != k ==> HasKey(m[1..], k);
      Get(m[1..], k)
  }

  /** map[k] = v: a present key keeps its position and takes the new value; a new key is appended. */
  function Put(m: Entries, k: string, v: string): (r: Entries)
    ensures HasKey(m, k) ==> |r| == |m|
    ensures !HasKey(m, k) ==> r == m + [(k, v)]
    ensures forall i :: 0 <= i < |m| ==> r[i].0 == m[i].0
  {
    if |m| == 0 then [(k, v)]
    else if m[0].0 == k then [(k, v)] + m[1..]
    else
      assert HasKey(m, k) ==> HasKey(m[1..], k);
      [m[0]] + Put(m[1..], k, v)
  }

  /** After a put, keys stay distinct. */
  lemma {:induction false} PutUnique(m: Entries, k: string, v: string)
    requires UniqueKeys(m)
    ensures UniqueKeys(Put(m, k, v))
  {
    if |m| > 0 && m[0].0 != k {
      PutUnique(m[1..], k, v);
      var r := Put(m, k, v);
      assert r == [m[0]] + Put(m[1..], k, v);
      forall i | 1 <= i < |r|
        ensures r[i].0 != m[0].0
      {
        if i - 1 < |m[1..]| {
          assert r[i].0 == m[i].0;
        } else {
          assert !HasKey(m[1..], k) && r[i] == (k, v);
        }
      }
    } else if |m| > 0 {
      var r := Put(m, k, v);
      forall i, j | 0 <= i < j < |r|
        ensures r[i].0 != r[j].0
      {
        assert r[j].0 == m[j].0;
        if i > 0 { assert r[i].0 == m[i].0; }
      }
    }
  }

  /** After a put, the key reads the new value and every other key its old one. */
  lemma {:induction false} PutGetValue(m: Entries, k: string, v: string, q: string)
    ensures Get(Put(m, k, v), q) == if q == k then Some(v) else Get(m, q)
  {
    if |m| > 0 && m[0].0 != k {
      PutGetValue(m[1..], k, v, q);
      assert Put(m, k, v) == [m[0]] + Put(m[1..], k, v);
    }
  }

  /** After a put, the key reads the new value, every other key its old one, and keys stay distinct. */
  lemma PutGet(m: Entries, k: string, v: string, q: string)
    requires UniqueKeys(m)
    ensures UniqueKeys(Put(m, k, v))
    ensures Get(Put(m, k, v), q) == if q == k then Some(v) else Get(m, q)
  {
    PutUnique(m, k, v);
    PutGetValue(m, k, v, q);
  }

  /** The forEach over the items before the last one, then the last one: the map, or None once an item throws. */
  function IncomingOf(items: seq<JsonItem>): (r: Option<Entries>)
    decreases |items|
  {
    if |items| == 0 then Some([])
    else
      var prev := IncomingOf(items[..|items| - 1]);
      if prev.None? then None
      else
        match ItemOutcomeOf(items[|items| - 1])
        case Skip => prev
        case Throws => None
        case Entry(k, v) => Some(Put(prev.value, k, v))
  }

  /** The incoming map of a whole message: a syntax error throws; a non-array gives no packages. */
  function IncomingOfRoot(root: JsonRoot): (r: Option<Entries>)
  {
    match root
    case Malformed => None
    case NonArray => Some([])
    case JsonArray(items) => IncomingOf(items)
  }

  /** The name the last item for package `k` carries, if any. */
  function LastName(items: seq<JsonItem>, k: string): (r: Option<string>)
    decreases |items|
  {
    if |items| == 0 then None
    else
      var o := ItemOutcomeOf(items[|items| - 1]);
      if o.Entry? && o.pkg == k then Some(o.name) else LastName(items[..|items| - 1], k)
  }

  /** Some item of the array throws on reading. */
  predicate SomeItemThrows(items: seq<JsonItem>)
  {
    exists i :: 0 <= i < |items| && ItemOutcomeOf(items[i]).Throws?
  }

  /** An item throws in the whole array when one throws before the last or the last throws. */
  lemma SomeItemThrowsSnoc(items: seq<JsonItem>)
    requires |items| > 0
    ensures SomeItemThrows(items) <==>
              SomeItemThrows(items[..|items| - 1]) || ItemOutcomeOf(items[|items| - 1]).Throws?
  {
    var init := items[..|items| - 1];
    if SomeItemThrows(init) {
      var i :| 0 <= i < |init| && ItemOutcomeOf(init[i]).Throws?;
      assert items[i] == init[i];
    }
    if SomeItemThrows(items) {
      var i :| 0 <= i < |items| && ItemOutcomeOf(items[i]).Throws?;
      if i < |init| {
        assert init[i] == items[i];
      }
    }
  }

  /** The parse fails exactly when some item throws. */
  lemma {:induction false} IncomingThrowsIff(items: seq<JsonItem>)
    ensures IncomingOf(items).None? <==> SomeItemThrows(items)
    decreases |items|
  {
    if |items| > 0 {
      IncomingThrowsIff(items[..|items| - 1]);
      IncomingFailsStep(items);
      SomeItemThrowsSnoc(items);
    }
  }

  /** One more item fails the parse when the parse so far failed or the item throws. */
  lemma IncomingFailsStep(items: seq<JsonItem>)
    requires |items| > 0
    ensures IncomingOf(items).None? <==>
              IncomingOf(items[..|items| - 1]).None? || ItemOutcomeOf(items[|items| - 1]).Throws?
  {
  }

  /** A successful parse has distinct keys, each mapped to the name of its last item. */
  lemma {:induction false} IncomingGetLast(items: seq<JsonItem>, k: string)
    ensures IncomingOf(items).Some? ==> UniqueKeys(IncomingOf(items).value)
    ensures IncomingOf(items).Some? ==> Get(IncomingOf(items).value, k) == LastName(items, k)
    decreases |items|
  {
    if |items| > 0 {
      var init := items[..|items| - 1];
      IncomingGetLast(init, k);
      var o := ItemOutcomeOf(items[|items| - 1]);
      if IncomingOf(init).Some? && o.Entry? {
        PutGet(IncomingOf(init).value, o.pkg, o.name, k);
      }
    }
  }

  /**
   * The parse fails exactly when some item throws; otherwise its keys are
   * distinct and each package maps to the name of its last item.
   */
  lemma IncomingLastWins(items: seq<JsonItem>, k: string)
    ensures IncomingOf(items).None? <==> SomeItemThrows(items)
    ensures IncomingOf(items).Some? ==> UniqueKeys(IncomingOf(items).value)
    ensures IncomingOf(items).Some? ==> Get(IncomingOf(items).value, k) == LastName(items, k)
  {
    IncomingThrowsIff(items);
    IncomingGetLast(items, k);
  }

  // ---------------------------------------------------------------------
  // setBlockedApps: the merge
  // ---------------------------------------------------------------------

  /** The row an incoming package is written as: blocked, with the old row's limit or 0. */
  function IncomingRow(existing: seq<BlockedApp>, pkg: string, name: string): (r: BlockedApp)
    ensures r.packageName == pkg && r.appName == name && r.isBlocked
    ensures FindPackage(existing, pkg).Some? ==> r.dailyLimitMinutes == FindPackage(existing, pkg).value.dailyLimitMinutes
    ensures FindPackage(existing, pkg).None? ==> r.dailyLimitMinutes == 0
  {
    var current := FindPackage(existing, pkg);
    BlockedApp(pkg, name, true, if current.Some? then current.value.dailyLimitMinutes else 0)
  }

  /**
   * What the table holds for package `q` after the merge: an incoming
   * package its incoming row, any other existing row the same row
   * unblocked, and nothing for a package that was in neither.
   */
  ghost function Merged(existing: seq<BlockedApp>, incoming: Entries, q: string): Option<BlockedApp>
  {
    if HasKey(incoming, q) then Some(IncomingRow(existing, q, Get(incoming, q).value))
    else if FindPackage(existing, q).Some? then Some(FindPackage(existing, q).value.(isBlocked := false))
    else None
  }

  /**
   * The merge blocks exactly the incoming packages, keeps every limit,
   * deletes no row and adds none but the incoming ones.
   */
  lemma MergedMeaning(existing: seq<BlockedApp>, incoming: Entries, q: string)
    ensures Merged(existing, incoming, q).Some? <==> HasKey(incoming, q) || HasPackage(existing, q)
    ensures Merged(existing, incoming, q).Some? ==> Merged(existing, incoming, q).value.packageName == q
    ensures Merged(existing, incoming, q).Some? ==> (Merged(existing, incoming, q).value.isBlocked <==> HasKey(incoming, q))
    ensures HasPackage(existing, q) ==>
              Merged(existing, incoming, q).value.dailyLimitMinutes == FindPackage(existing, q).value.dailyLimitMinutes
    ensures HasPackage(existing, q) && !HasKey(incoming, q) ==>
              Merged(existing, incoming, q).value.appName == FindPackage(existing, q).value.appName
  {
  }

  /** Merging the same list again changes nothing. */
  lemma MergedIdempotent(existing: seq<BlockedApp>, after: seq<BlockedApp>, incoming: Entries)
    requires forall q :: FindPackage(after, q) == Merged(existing, incoming, q)
    ensures forall q :: Merged(after, incoming, q) == FindPackage(after, q)
  {
  }

  // ---------------------------------------------------------------------
  // getDashboardSummary
  // ---------------------------------------------------------------------

  /** One day of queryDailyStats; a day whose map is null is None. */
  datatype DailyStat = DailyStat(minutes: int, attempts: int)

  datatype DashboardSummary = DashboardSummary(
    todayMinutes: int, weekMinutes: int, attemptsToday: int, attemptsWeek: int,
    blockedAppsCount: int, goalProgressPct: int, currentStreakDays: int)

  function SumMinutes(days: seq<Option<DailyStat>>): int
    decreases |days|
  {
    if |days| == 0 then 0
    else SumMinutes(days[..|days| - 1]) + (if days[|days| - 1].Some? then days[|days| - 1].value.minutes else 0)
  }

  function SumAttempts(days: seq<Option<DailyStat>>): int
    decreases |days|
  {
    if |days| == 0 then 0
    else SumAttempts(days[..|days| - 1]) + (if days[|days| - 1].Some? then days[|days| - 1].value.attempts else 0)
  }

  /** The last day of the list, or zero when it is missing or null. */
  function Today(days: seq<Option<DailyStat>>): DailyStat
  {
    if |days| > 0 && days[|days| - 1].Some? then days[|days| - 1].value else DailyStat(0, 0)
  }

  /** With no negative day, today's figures never exceed the week's. */
  lemma {:induction false} TodayWithinWeek(days: seq<Option<DailyStat>>)
    requires forall i :: 0 <= i < |days| && days[i].Some? ==> days[i].value.minutes >= 0 && days[i].value.attempts >= 0
    ensures 0 <= Today(days).minutes <= SumMinutes(days)
    ensures 0 <= Today(days).attempts <= SumAttempts(days)
  {
    if |days| > 0 {
      var init := days[..|days| - 1];
      SumsNonNegative(init);
    }
  }

  lemma {:induction false} SumsNonNegative(days: seq<Option<DailyStat>>)
    requires forall i :: 0 <= i < |days| && days[i].Some? ==> days[i].value.minutes >= 0 && days[i].value.attempts >= 0
    ensures SumMinutes(days) >= 0 && SumAttempts(days) >= 0
    decreases |days|
  {
    if |days| > 0 {
      SumsNonNegative(days[..|days| - 1]);
    }
  }

  // ---------------------------------------------------------------------
  // getTopBlockedApps
  // ---------------------------------------------------------------------

  /** One usage event: its package and whether it is MOVE_TO_FOREGROUND. */
  datatype UsageEvent = UsageEvent(packageName: string, moveToForeground: bool)

  /** The number of foreground events of `pkg`. */
  function CountAttempts(events: seq<UsageEvent>, pkg: string): (n: nat)
    ensures n <= |events|
    decreases |events|
  {
    if |events| == 0 then 0
    else
      var e := events[|events| - 1];
      CountAttempts(events[..|events| - 1], pkg) + (if e.moveToForeground && e.packageName == pkg then 1 else 0)
  }

  /** A row of the ranking before the names are attached: package, today's and the week's attempts. */
  datatype Counted = Counted(packageName: string, today: int, week: int)

  /** A row getTopBlockedApps resolves. */
  datatype TopApp = TopApp(packageName: string, appName: string, attemptsToday: int, attemptsWeek: int)

  /** sortedByDescending { it.third }: `a` may precede `b` when its week count is not smaller. */
  function ByWeekDescending(): (Counted, Counted) -> bool
  {
    (a: Counted, b: Counted) => a.week >= b.week
  }

  lemma ByWeekDescendingOrder()
    ensures TotalPreorder(ByWeekDescending())
  {
  }

  function CountedRows(apps: seq<BlockedApp>, today: map<string, int>, week: map<string, int>): (r: seq<Counted>)
    ensures |r| == |apps|
    ensures forall i :: 0 <= i < |r| ==> r[i].packageName == apps[i].packageName
  {
    seq(|apps|, i requires 0 <= i < |apps| =>
      Counted(apps[i].packageName,
              if apps[i].packageName in today then today[apps[i].packageName] else 0,
              if apps[i].packageName in week then week[apps[i].packageName] else 0))
  }

  /** Each blocked row, in table order, with its package's foreground counts in the two windows. */
  function EventCounts(apps: seq<BlockedApp>, todayEvents: seq<UsageEvent>, weekEvents: seq<UsageEvent>): (r: seq<Counted>)
    ensures |r| == |apps|
    ensures forall i :: 0 <= i < |r| ==>
              r[i].packageName == apps[i].packageName
              && r[i].today == CountAttempts(todayEvents, apps[i].packageName)
              && r[i].week == CountAttempts(weekEvents, apps[i].packageName)
  {
    seq(|apps|, i requires 0 <= i < |apps| =>
      Counted(apps[i].packageName, CountAttempts(todayEvents, apps[i].packageName), CountAttempts(weekEvents, apps[i].packageName)))
  }

  /**
   * Reading the count maps with a default of 0 gives the event counts:
   * a blocked package missing from a map has no foreground event.
   */
  lemma CountedRowsAreEventCounts(apps: seq<BlockedApp>, blocked: set<string>, today: map<string, int>, week: map<string, int>,
                                  todayEvents: seq<UsageEvent>, weekEvents: seq<UsageEvent>)
    requires blocked == set i | 0 <= i < |apps| :: apps[i].packageName
    requires forall p :: p in today <==> p in blocked && CountAttempts(todayEvents, p) > 0
    requires forall p :: p in today ==> today[p] == CountAttempts(todayEvents, p)
    requires forall p :: p in week <==> p in blocked && CountAttempts(weekEvents, p) > 0
    requires forall p :: p in week ==> week[p] == CountAttempts(weekEvents, p)
    ensures CountedRows(apps, today, week) == EventCounts(apps, todayEvents, weekEvents)
  {
    var rows, counts := CountedRows(apps, today, week), EventCounts(apps, todayEvents, weekEvents);
    forall i | 0 <= i < |apps|
      ensures rows[i] == counts[i]
    {
      assert apps[i].packageName in blocked;
    }
  }

  /** The stable descending ranking cut to the first `n` rows. */
  function Ranking(rows: seq<Counted>, n: int): (r: seq<Counted>)
    ensures |r| == if n < 0 then 0 else Min(n, |rows|)
  {
    var sorted := SortBy(rows, ByWeekDescending());
    sorted[..if n < 0 then 0 else Min(n, |sorted|)]
  }

  /** The ranking is in descending week order and holds only input rows. */
  lemma RankingSorted(rows: seq<Counted>, n: int)
    ensures Sorted(Ranking(rows, n), ByWeekDescending())
    ensures forall x :: x in Ranking(rows, n) ==> x in rows
  {
    var le := ByWeekDescending();
    ByWeekDescendingOrder();
    SortBySorted(rows, le);
    var sorted := SortBy(rows, le);
    var r := Ranking(rows, n);
    assert r == sorted[..|r|];
    forall x | x in r
      ensures x in rows
    {
      assert x in sorted;
      assert x in multiset(sorted);
    }
  }

  /** A top-n: no input row left out has more week attempts than a row kept. */
  lemma RankingTopN(rows: seq<Counted>, n: int)
    ensures forall x, y :: x in Ranking(rows, n) && y in rows && y !in Ranking(rows, n) ==> y.week <= x.week
  {
    var le := ByWeekDescending();
    ByWeekDescendingOrder();
    SortBySorted(rows, le);
    var sorted := SortBy(rows, le);
    var r := Ranking(rows, n);
    assert r == sorted[..|r|];
    forall x, y | x in r && y in rows && y !in r
      ensures y.week <= x.week
    {
      var i :| 0 <= i < |r| && r[i] == x;
      assert y in multiset(rows);
      assert y in multiset(sorted);
      var j :| 0 <= j < |sorted| && sorted[j] == y;
      assert i < j;
      assert le(sorted[i], sorted[j]);
    }
  }

  /** When nothing is cut, rows with equal week counts keep their input order. */
  lemma RankingStable(rows: seq<Counted>, n: int, k: Counted)
    requires n >= |rows|
    ensures Filter(Ranking(rows, n), SameKey(ByWeekDescending(), k)) == Filter(rows, SameKey(ByWeekDescending(), k))
  {
    var le := ByWeekDescending();
    RankingWhole(rows, n);
    ByWeekDescendingOrder();
    SortByStable(rows, le, k);
  }

  /** With room for every row, the ranking is the whole sorted list. */
  lemma RankingWhole(rows: seq<Counted>, n: int)
    requires n >= |rows|
    ensures Ranking(rows, n) == SortBy(rows, ByWeekDescending())
  {
    var sorted := SortBy(rows, ByWeekDescending());
    assert sorted[..|sorted|] == sorted;
  }

  // ---------------------------------------------------------------------
  // isAccessibilityServiceEnabled
  // ---------------------------------------------------------------------

  /** A null setting is off; otherwise some ':'-separated entry must equal the component, ignoring case. */
  predicate IsAccessibilityServiceEnabled(setting: Option<string>, expected: string)
  {
    setting.Some? && exists piece :: piece in Split(setting.value, ':') && EqualsIgnoreCase(piece, expected)
  }

  /** Splitting a join of delimiter-free entries gives the entries back. */
  lemma {:induction false} SplitOfJoin(pieces: seq<string>, sep: char)
    requires |pieces| >= 1 && forall k :: 0 <= k < |pieces| ==> sep !in pieces[k]
    ensures Split(Join(pieces, sep), sep) == pieces
    decreases |pieces|
  {
    if |pieces| > 1 {
      var rest := Join(pieces[1..], sep);
      assert Join(pieces, sep) == pieces[0] + [sep] + rest;
      SplitCons(pieces[0], rest, sep);
      SplitOfJoin(pieces[1..], sep);
      assert pieces == [pieces[0]] + pieces[1..];
    } else {
      assert Join(pieces, sep) == pieces[0];
    }
  }

  /** For a setting written as ':'-joined components, the service is on iff one of them matches. */
  lemma {:induction false} ServiceEnabledIff(components: seq<string>, expected: string)
    requires |components| >= 1 && forall k :: 0 <= k < |components| ==> ':' !in components[k]
    ensures IsAccessibilityServiceEnabled(Some(Join(components, ':')), expected)
            <==> exists k :: 0 <= k < |components| && EqualsIgnoreCase(components[k], expected)
  {
    SplitOfJoin(components, ':');
    if exists k :: 0 <= k < |components| && EqualsIgnoreCase(components[k], expected) {
      var k :| 0 <= k < |components| && EqualsIgnoreCase(components[k], expected);
      assert components[k] in Split(Join(components, ':'), ':');
    }
  }

  // ---------------------------------------------------------------------
  // parseTime / formatTime
  // ---------------------------------------------------------------------

  /** formatTime: "%02d:%02d" of the clamped hour and minute; parseTime reads it back as those values. */
  function FormatTime(hour: int, minute: int): (s: string)
    ensures |s| == 5 && s[2] == ':'
    ensures ZentoxAlarm.ParseTime(s) == (Clamp(hour, 0, 23), Clamp(minute, 0, 59))
  {
    var h, m := Clamp(hour, 0, 23), Clamp(minute, 0, 59);
    ZentoxAlarm.ParseTimeOfPadded(h, m);
    Pad2(h) + ":" + Pad2(m)
  }

  /** parseTime and formatTime normalise: formatting a parsed time and parsing it again gives the same pair. */
  lemma FormatParseStable(time: string)
    ensures ZentoxAlarm.ParseTime(FormatTime(ZentoxAlarm.ParseTime(time).0, ZentoxAlarm.ParseTime(time).1))
            == ZentoxAlarm.ParseTime(time)
  {
  }

  // ---------------------------------------------------------------------
  // The module object
  // ---------------------------------------------------------------------

  /** An event sent to JavaScript through the device event emitter. */
  datatype JsEvent = ZenoxStatusChanged(isActive: bool, remainingTime: int)

  class Bridge {
    const dao: BlockedAppDao
    const manager: SessionManager.Manager
    /** The events emitted to JavaScript, oldest first. */
    var jsEvents: seq<JsEvent>

    constructor (dao: BlockedAppDao, manager: SessionManager.Manager)
      ensures this.dao == dao && this.manager == manager && jsEvents == []
    {
      this.dao := dao;
      this.manager := manager;
      jsEvents := [];
    }

    /**
     * startZen: the session manager's startZen with a MANUAL trigger (a
     * non-positive duration forces INACTIVE), then the status announced to
     * JavaScript.
     */
    method StartZen(duration: int, now: int, catalystActive: bool, remainingMillis: int)
      modifies this, manager.state
      ensures duration <= 0 ==> manager.state.status == Inactive
      ensures duration > 0 ==>
                manager.state.status == SessionManager.NextStatus(old(manager.state.Observed(now)), "MANUAL", now, duration)
      ensures manager.state.hasContext == old(manager.state.hasContext)
      ensures manager.state.hasContext ==> manager.state.prefs == Persist(old(manager.state.prefs), manager.state.status)
      ensures !manager.state.hasContext ==> manager.state.prefs == old(manager.state.prefs)
      ensures jsEvents == old(jsEvents)
                          + (if catalystActive then [ZenoxStatusChanged(duration > 0, if duration > 0 then remainingMillis else 0)] else [])
    {
      var r := manager.StartZen(duration, Some("MANUAL"), now);
      if manager.state.hasContext {
        if duration > 0 {
          if old(manager.state.Observed(now)).Inactive? {
            assert r.triggerType[0] == 'M';
          }
          PersistDecodeActive(old(manager.state.prefs), r.triggerType, r.endTimeEpochMillis, now);
        } else {
          PersistDecodeInactive(old(manager.state.prefs), now);
        }
      }
      EmitStatusChanged(catalystActive, remainingMillis, now);
    }

    /** stopZen: the session manager's stopZen (INACTIVE, break cleared), then the status announced to JavaScript. */
    method StopZen(now: int, catalystActive: bool, remainingMillis: int)
      modifies this, manager, manager.state
      ensures manager.state.status == Inactive && manager.emergencyBreakUntil == 0
      ensures manager.state.hasContext == old(manager.state.hasContext)
      ensures manager.state.hasContext ==> manager.state.prefs == Persist(old(manager.state.prefs), Inactive)
      ensures !manager.state.hasContext ==> manager.state.prefs == old(manager.state.prefs)
      ensures jsEvents == old(jsEvents) + (if catalystActive then [ZenoxStatusChanged(false, 0)] else [])
    {
      manager.StopZen();
      if manager.state.hasContext {
        PersistDecodeInactive(old(manager.state.prefs), now);
      }
      EmitStatusChanged(catalystActive, remainingMillis, now);
    }

    /**
     * triggerManualZen: a MANUAL session of at least one second, in
     * milliseconds, saved to the state store when it has a context, then
     * announced to JavaScript.  `catalystActive` and `remainingMillis` are
     * what emitStatusChanged asks of the React context and the session
     * manager.
     */
    method TriggerManualZen(durationSec: int, now: int, catalystActive: bool, remainingMillis: int) returns (r: ZenStatus)
      modifies this, manager.state
      ensures r == SessionManager.NextStatus(old(manager.state.Observed(now)), "MANUAL", now, Max(durationSec, 1) * 1000)
      ensures manager.state.status == r && r.Active?
      ensures manager.state.hasContext == old(manager.state.hasContext)
      ensures manager.state.hasContext ==> manager.state.prefs == Persist(old(manager.state.prefs), r)
      ensures !manager.state.hasContext ==> manager.state.prefs == old(manager.state.prefs)
      ensures jsEvents == old(jsEvents) + (if catalystActive then [ZenoxStatusChanged(true, remainingMillis)] else [])
    {
      var durationMs := Max(durationSec, 1) * 1000;
      r := manager.StartZen(durationMs, Some("MANUAL"), now);
      if manager.state.hasContext {
        if old(manager.state.Observed(now)).Inactive? {
          assert r.triggerType[0] == 'M';
        }
        PersistDecodeActive(old(manager.state.prefs), r.triggerType, r.endTimeEpochMillis, now);
      }
      EmitStatusChanged(catalystActive, remainingMillis, now);
    }

    /**
     * emitStatusChanged: nothing without an active catalyst instance;
     * otherwise the status is read back and sent with the remaining time
     * while a session is active, 0 otherwise.
     */
    method EmitStatusChanged(catalystActive: bool, remainingMillis: int, now: int)
      modifies this, manager.state
      ensures var s := old(manager.state.Observed(now));
              jsEvents == old(jsEvents) + (if catalystActive then [ZenoxStatusChanged(s.Active?, if s.Active? then remainingMillis else 0)] else [])
      ensures manager.state.hasContext == old(manager.state.hasContext) && manager.state.prefs == old(manager.state.prefs)
      ensures catalystActive ==> manager.state.status == old(manager.state.Observed(now))
      ensures !catalystActive ==> manager.state.status == old(manager.state.status)
    {
      if !catalystActive {
        return;
      }
      var status := manager.state.GetStatus(now);
      jsEvents := jsEvents + [ZenoxStatusChanged(status.Active?, if status.Active? then remainingMillis else 0)];
    }

    /** The forEach over the array: the incoming map, or None when an item throws. */
    method ParseIncoming(root: JsonRoot) returns (incoming: Option<Entries>)
      ensures incoming == IncomingOfRoot(root)
    {
      match root
      case Malformed => return None;
      case NonArray => return Some([]);
      case JsonArray(items) =>
        var m: Entries := [];
        var i := 0;
        while i < |items|
          invariant 0 <= i <= |items|
          invariant IncomingOf(items[..i]) == Some(m)
        {
          assert items[..i + 1][..i] == items[..i];
          var o := ItemOutcomeOf(items[i]);
          if o.Throws? {
            IncomingLastWins(items, []);
            return None;
          } else if o.Entry? {
            m := Put(m, o.pkg, o.name);
          }
          i := i + 1;
        }
        assert items[..i] == items;
        return Some(m);
    }

    /**
     * setBlockedApps: a message that throws changes nothing; otherwise every
     * incoming package is upserted blocked with its old limit, and every
     * other blocked row is upserted unblocked.
     */
    method SetBlockedApps(root: JsonRoot) returns (ok: bool)
      requires dao.Valid()
      modifies dao
      ensures dao.Valid()
      ensures ok <==> IncomingOfRoot(root).Some?
      ensures !ok ==> dao.rows == old(dao.rows)
      ensures ok ==> forall q :: FindPackage(dao.rows, q) == Merged(old(dao.rows), IncomingOfRoot(root).value, q)
    {
      var parsed := ParseIncoming(root);
      if parsed.None? {
        return false;
      }
      var incoming := parsed.value;
      if root.JsonArray? {
        IncomingLastWins(root.items, []);
      }
      var existing := dao.GetAll();
      assert AfterIncoming(dao.rows, existing, incoming, 0);
      UpsertIncoming(existing, incoming);
      AfterIncomingUnblock(dao.rows, existing, incoming);
      UnblockOthers(existing, incoming);
      UnblockDone(dao.rows, existing, incoming);
      return true;
    }

    /** The first loop of setBlockedApps: each incoming package upserted blocked, with its old limit. */
    method UpsertIncoming(existing: seq<BlockedApp>, incoming: Entries)
      requires dao.Valid() && AfterIncoming(dao.rows, existing, incoming, 0)
      modifies dao
      ensures dao.Valid() && AfterIncoming(dao.rows, existing, incoming, |incoming|)
    {
      var d := dao;
      var i := 0;
      while i < |incoming|
        invariant 0 <= i <= |incoming|
        invariant d.Valid()
        invariant AfterIncoming(d.rows, existing, incoming, i)
      {
        ghost var before := d.rows;
        d.Upsert(IncomingRow(existing, incoming[i].0, incoming[i].1));
        IncomingStep(before, existing, incoming, i);
        i := i + 1;
      }
    }

    /** The second loop of setBlockedApps: every other blocked row upserted unblocked. */
    method UnblockOthers(existing: seq<BlockedApp>, incoming: Entries)
      requires dao.Valid() && AfterUnblock(dao.rows, existing, incoming, 0)
      modifies dao
      ensures dao.Valid() && AfterUnblock(dao.rows, existing, incoming, |existing|)
    {
      var j := 0;
      while j < |existing|
        invariant 0 <= j <= |existing|
        invariant dao.Valid()
        invariant AfterUnblock(dao.rows, existing, incoming, j)
      {
        var app := existing[j];
        if !HasKey(incoming, app.packageName) && app.isBlocked {
          UnblockStep(dao.rows, existing, incoming, j);
          dao.Upsert(app.(isBlocked := false));
        } else {
          UnblockSkip(dao.rows, existing, incoming, j);
        }
        j := j + 1;
      }
    }

    /** toggleAppBlock: the given name and flag, the old limit (0 for a new package); other packages untouched. */
    method ToggleAppBlock(packageName: string, appName: string, isBlocked: bool)
      requires dao.Valid()
      modifies dao
      ensures dao.Valid()
      ensures FindPackage(dao.rows, packageName) ==
                Some(BlockedApp(packageName, appName, isBlocked,
                                if FindPackage(old(dao.rows), packageName).Some?
                                then FindPackage(old(dao.rows), packageName).value.dailyLimitMinutes else 0))
      ensures forall q :: q != packageName ==> FindPackage(dao.rows, q) == FindPackage(old(dao.rows), q)
    {
      var existing := dao.GetByPackageName(packageName);
      var app := BlockedApp(packageName, appName, isBlocked, if existing.Some? then existing.value.dailyLimitMinutes else 0);
      ghost var before := dao.rows;
      dao.Upsert(app);
      forall q {
        UpsertLookup(before, app, q);
      }
    }

    /**
     * getDashboardSummary over the daily stats: week sums, the last day as
     * today, the goal as a 0..100 percentage of 300 minutes, and one
     * streak day per 120 week minutes, never negative.
     */
    method GetDashboardSummary(weekly: seq<Option<DailyStat>>) returns (s: DashboardSummary)
      ensures s.weekMinutes == SumMinutes(weekly) && s.attemptsWeek == SumAttempts(weekly)
      ensures s.todayMinutes == Today(weekly).minutes && s.attemptsToday == Today(weekly).attempts
      ensures s.blockedAppsCount == |dao.GetBlockedApps()|
      ensures 0 <= s.goalProgressPct <= 100
      ensures s.goalProgressPct == Clamp(TruncDiv(s.weekMinutes, 3), 0, 100)
      ensures s.currentStreakDays == Max(TruncDiv(s.weekMinutes, 120), 0)
    {
      var weekMinutes, weekAttempts, todayMinutes, todayAttempts := 0, 0, 0, 0;
      var i := 0;
      while i < |weekly|
        invariant 0 <= i <= |weekly|
        invariant weekMinutes == SumMinutes(weekly[..i]) && weekAttempts == SumAttempts(weekly[..i])
        invariant i < |weekly| ==> todayMinutes == 0 && todayAttempts == 0
        invariant i == |weekly| ==> todayMinutes == Today(weekly).minutes && todayAttempts == Today(weekly).attempts
      {
        assert weekly[..i + 1][..i] == weekly[..i];
        if weekly[i].Some? {
          var entry := weekly[i].value;
          weekMinutes := weekMinutes + entry.minutes;
          weekAttempts := weekAttempts + entry.attempts;
          if i == |weekly| - 1 {
            todayMinutes := entry.minutes;
            todayAttempts := entry.attempts;
          }
        }
        i := i + 1;
      }
      assert weekly[..i] == weekly;
      var blockedCount := dao.GetBlockedCount();
      var goal := Clamp(TruncDiv(weekMinutes, 3), 0, 100);
      var streak := Max(TruncDiv(weekMinutes, 120), 0);
      s := DashboardSummary(todayMinutes, weekMinutes, todayAttempts, weekAttempts, blockedCount, goal, streak);
    }

    /** The while loop over the events: a count per blocked package that has at least one foreground event. */
    static method CountForeground(events: seq<UsageEvent>, blocked: set<string>) returns (counts: map<string, int>)
      ensures forall p :: p in counts <==> p in blocked && CountAttempts(events, p) > 0
      ensures forall p :: p in counts ==> counts[p] == CountAttempts(events, p)
    {
      counts := map[];
      var i := 0;
      while i < |events|
        invariant 0 <= i <= |events|
        invariant forall p :: p in counts <==> p in blocked && CountAttempts(events[..i], p) > 0
        invariant forall p :: p in counts ==> counts[p] == CountAttempts(events[..i], p)
      {
        assert events[..i + 1][..i] == events[..i];
        var e := events[i];
        if e.moveToForeground && e.packageName in blocked {
          counts := counts[e.packageName := (if e.packageName in counts then counts[e.packageName] else 0) + 1];
        }
        i := i + 1;
      }
      assert events[..i] == events;
    }

    /**
     * getTopBlockedApps: the blocked rows with their attempt counts, in
     * stable descending order of week attempts, cut to limit clamped to
     * 1..20, each named by its row (the package name when none is found).
     */
    method GetTopBlockedApps(limit: int, todayEvents: seq<UsageEvent>, weekEvents: seq<UsageEvent>) returns (r: seq<TopApp>)
      ensures var blocked := dao.GetBlockedApps();
              |r| == Min(Clamp(limit, 1, 20), |blocked|)
      ensures forall i :: 0 <= i < |r| ==>
                r[i].attemptsToday == CountAttempts(todayEvents, r[i].packageName)
                && r[i].attemptsWeek == CountAttempts(weekEvents, r[i].packageName)
      ensures forall i :: 0 <= i < |r| ==>
                FindPackage(dao.GetBlockedApps(), r[i].packageName).Some?
                && r[i].appName == FindPackage(dao.GetBlockedApps(), r[i].packageName).value.appName
      ensures forall i, j :: 0 <= i < j < |r| ==> r[i].attemptsWeek >= r[j].attemptsWeek
      ensures var ranked := Ranking(EventCounts(dao.GetBlockedApps(), todayEvents, weekEvents), Clamp(limit, 1, 20));
              |r| == |ranked| && forall k :: 0 <= k < |r| ==> r[k] == TopAppOf(dao.GetBlockedApps(), ranked[k])
    {
      var blockedApps := dao.GetBlockedApps();
      var blockedPackages := set i | 0 <= i < |blockedApps| :: blockedApps[i].packageName;
      var cappedLimit := Clamp(limit, 1, 20);
      var today: map<string, int> := map[];
      var week: map<string, int> := map[];
      if blockedPackages != {} {
        today := CountForeground(todayEvents, blockedPackages);
        week := CountForeground(weekEvents, blockedPackages);
      }
      assert blockedPackages == {} ==> today == map[] && week == map[];
      var rows := CountedRows(blockedApps, today, week);
      CountedRowsCounted(blockedApps, blockedPackages, today, week, todayEvents, weekEvents);
      CountedRowsAreEventCounts(blockedApps, blockedPackages, today, week, todayEvents, weekEvents);
      var ranked := Ranking(rows, cappedLimit);
      r := NameRanked(blockedApps, ranked);
      NamedRankingFacts(blockedApps, rows, cappedLimit, r, todayEvents, weekEvents);
    }

    /** The forEach that pushes one map per ranked row. */
    static method NameRanked(apps: seq<BlockedApp>, ranked: seq<Counted>) returns (r: seq<TopApp>)
      ensures |r| == |ranked|
      ensures forall k :: 0 <= k < |r| ==> r[k] == TopAppOf(apps, ranked[k])
    {
      r := [];
      var i := 0;
      while i < |ranked|
        invariant 0 <= i <= |ranked| && |r| == i
        invariant forall k :: 0 <= k < i ==> r[k] == TopAppOf(apps, ranked[k])
      {
        r := r + [TopAppOf(apps, ranked[i])];
        i := i + 1;
      }
    }
  }

  /** One output map: the counts of a ranked row, named by its blocked row or else by its package. */
  function TopAppOf(apps: seq<BlockedApp>, c: Counted): (t: TopApp)
    ensures t.packageName == c.packageName && t.attemptsToday == c.today && t.attemptsWeek == c.week
    ensures HasPackage(apps, c.packageName) ==> t.appName == FindPackage(apps, c.packageName).value.appName
    ensures !HasPackage(apps, c.packageName) ==> t.appName == c.packageName
  {
    var found := FindPackage(apps, c.packageName);
    TopApp(c.packageName, if found.Some? then found.value.appName else c.packageName, c.today, c.week)
  }

  /** The named ranking of counted rows carries each package's counts and row name, in descending week order. */
  lemma NamedRankingFacts(apps: seq<BlockedApp>, rows: seq<Counted>, n: int, r: seq<TopApp>,
                          todayEvents: seq<UsageEvent>, weekEvents: seq<UsageEvent>)
    requires CountedFrom(rows, apps, todayEvents, weekEvents)
    requires |r| == |Ranking(rows, n)|
    requires forall k :: 0 <= k < |r| ==> r[k] == TopAppOf(apps, Ranking(rows, n)[k])
    ensures forall i :: 0 <= i < |r| ==>
              r[i].attemptsToday == CountAttempts(todayEvents, r[i].packageName)
              && r[i].attemptsWeek == CountAttempts(weekEvents, r[i].packageName)
    ensures forall i :: 0 <= i < |r| ==>
              FindPackage(apps, r[i].packageName).Some?
              && r[i].appName == FindPackage(apps, r[i].packageName).value.appName
    ensures forall i, j :: 0 <= i < j < |r| ==> r[i].attemptsWeek >= r[j].attemptsWeek
  {
    var ranked := Ranking(rows, n);
    RankingSorted(rows, n);
    forall k | 0 <= k < |r|
      ensures ranked[k] in rows
    {
    }
    forall a, b | 0 <= a < b < |r|
      ensures r[a].attemptsWeek >= r[b].attemptsWeek
    {
      assert ByWeekDescending()(ranked[a], ranked[b]);
    }
  }

  /** Every counted row belongs to a blocked app and carries that package's event counts. */
  ghost predicate CountedFrom(rows: seq<Counted>, apps: seq<BlockedApp>, todayEvents: seq<UsageEvent>, weekEvents: seq<UsageEvent>)
  {
    forall x :: x in rows ==>
      HasPackage(apps, x.packageName)
      && x.today == CountAttempts(todayEvents, x.packageName)
      && x.week == CountAttempts(weekEvents, x.packageName)
  }

  lemma CountedRowsCounted(apps: seq<BlockedApp>, blocked: set<string>, today: map<string, int>, week: map<string, int>,
                           todayEvents: seq<UsageEvent>, weekEvents: seq<UsageEvent>)
    requires blocked == set i | 0 <= i < |apps| :: apps[i].packageName
    requires forall p :: p in today <==> p in blocked && CountAttempts(todayEvents, p) > 0
    requires forall p :: p in today ==> today[p] == CountAttempts(todayEvents, p)
    requires forall p :: p in week <==> p in blocked && CountAttempts(weekEvents, p) > 0
    requires forall p :: p in week ==> week[p] == CountAttempts(weekEvents, p)
    ensures CountedFrom(CountedRows(apps, today, week), apps, todayEvents, weekEvents)
  {
    var rows := CountedRows(apps, today, week);
    forall x | x in rows
      ensures HasPackage(apps, x.packageName)
      ensures x.today == CountAttempts(todayEvents, x.packageName)
      ensures x.week == CountAttempts(weekEvents, x.packageName)
    {
      var n :| 0 <= n < |rows| && rows[n] == x;
      assert apps[n].packageName in blocked;
    }
  }

  /** What package `q` holds after the first `i` incoming upserts. */
  ghost function IncomingStage(existing: seq<BlockedApp>, incoming: Entries, i: int, q: string): Option<BlockedApp>
    requires 0 <= i <= |incoming|
  {
    if HasKey(incoming[..i], q) then Some(IncomingRow(existing, q, Get(incoming, q).value))
    else FindPackage(existing, q)
  }

  /** After the first `i` incoming upserts. */
  ghost predicate AfterIncoming(rows: seq<BlockedApp>, existing: seq<BlockedApp>, incoming: Entries, i: int)
    requires 0 <= i <= |incoming|
  {
    UniquePackages(existing) && UniqueKeys(incoming)
    && forall q :: FindPackage(rows, q) == IncomingStage(existing, incoming, i, q)
  }

  lemma IncomingStep(rows: seq<BlockedApp>, existing: seq<BlockedApp>, incoming: Entries, i: int)
    requires 0 <= i < |incoming| && UniquePackages(rows) && AfterIncoming(rows, existing, incoming, i)
    ensures AfterIncoming(Upserted(rows, IncomingRow(existing, incoming[i].0, incoming[i].1)), existing, incoming, i + 1)
  {
    var app := IncomingRow(existing, incoming[i].0, incoming[i].1);
    forall q
      ensures FindPackage(Upserted(rows, app), q) == IncomingStage(existing, incoming, i + 1, q)
    {
      IncomingStepAt(rows, existing, incoming, i, q);
    }
  }

  lemma IncomingStepAt(rows: seq<BlockedApp>, existing: seq<BlockedApp>, incoming: Entries, i: int, q: string)
    requires 0 <= i < |incoming| && UniquePackages(rows) && UniqueKeys(incoming)
    requires FindPackage(rows, q) == IncomingStage(existing, incoming, i, q)
    ensures FindPackage(Upserted(rows, IncomingRow(existing, incoming[i].0, incoming[i].1)), q)
            == IncomingStage(existing, incoming, i + 1, q)
  {
    var (k, v) := incoming[i];
    UpsertLookup(rows, IncomingRow(existing, k, v), q);
    HasKeySnoc(incoming, i, q);
    if q == k {
      GetAt(incoming, i);
    }
  }

  /** The first `i + 1` entries hold `q` iff the first `i` do or entry `i` is `q`'s. */
  lemma HasKeySnoc(m: Entries, i: int, q: string)
    requires 0 <= i < |m|
    ensures HasKey(m[..i + 1], q) <==> HasKey(m[..i], q) || m[i].0 == q
  {
    if m[i].0 == q {
      assert m[..i + 1][i] == m[i];
    }
    if HasKey(m[..i + 1], q) && m[i].0 != q {
      var k :| 0 <= k < i + 1 && m[..i + 1][k].0 == q;
      assert m[..i][k] == m[k];
    }
    if HasKey(m[..i], q) {
      var k :| 0 <= k < i && m[..i][k].0 == q;
      assert m[..i + 1][k] == m[k];
    }
  }

  /** What package `q` holds after all incoming upserts and the unblocking of the first `j` existing rows. */
  ghost function UnblockStage(existing: seq<BlockedApp>, incoming: Entries, j: int, q: string): Option<BlockedApp>
    requires 0 <= j <= |existing|
  {
    if HasKey(incoming, q) then Some(IncomingRow(existing, q, Get(incoming, q).value))
    else if HasPackage(existing[..j], q) then Some(FindPackage(existing, q).value.(isBlocked := false))
    else FindPackage(existing, q)
  }

  ghost predicate AfterUnblock(rows: seq<BlockedApp>, existing: seq<BlockedApp>, incoming: Entries, j: int)
    requires 0 <= j <= |existing|
  {
    UniquePackages(existing) && UniqueKeys(incoming)
    && forall q :: FindPackage(rows, q) == UnblockStage(existing, incoming, j, q)
  }

  lemma AfterIncomingUnblock(rows: seq<BlockedApp>, existing: seq<BlockedApp>, incoming: Entries)
    requires AfterIncoming(rows, existing, incoming, |incoming|)
    ensures AfterUnblock(rows, existing, incoming, 0)
  {
    assert incoming[..|incoming|] == incoming;
  }

  lemma UnblockStep(rows: seq<BlockedApp>, existing: seq<BlockedApp>, incoming: Entries, j: int)
    requires 0 <= j < |existing| && UniquePackages(rows) && AfterUnblock(rows, existing, incoming, j)
    requires !HasKey(incoming, existing[j].packageName)
    ensures AfterUnblock(Upserted(rows, existing[j].(isBlocked := false)), existing, incoming, j + 1)
  {
    var app := existing[j];
    FindPackageUnique(existing, app);
    assert existing[..j + 1] == existing[..j] + [app];
    forall q
      ensures FindPackage(Upserted(rows, app.(isBlocked := false)), q) == UnblockStage(existing, incoming, j + 1, q)
    {
      UnblockStepAt(rows, existing, incoming, j, q);
    }
  }

  lemma UnblockStepAt(rows: seq<BlockedApp>, existing: seq<BlockedApp>, incoming: Entries, j: int, q: string)
    requires 0 <= j < |existing| && UniquePackages(rows) && UniquePackages(existing)
    requires FindPackage(rows, q) == UnblockStage(existing, incoming, j, q)
    requires !HasKey(incoming, existing[j].packageName)
    ensures FindPackage(Upserted(rows, existing[j].(isBlocked := false)), q) == UnblockStage(existing, incoming, j + 1, q)
  {
    var app := existing[j];
    UpsertLookup(rows, app.(isBlocked := false), q);
    HasPackageSnoc(existing, j, q);
    if q == app.packageName {
      FindPackageUnique(existing, app);
    }
  }

  /** The first `j + 1` rows hold `q` iff the first `j` do or row `j` is `q`'s. */
  lemma HasPackageSnoc(rows: seq<BlockedApp>, j: int, q: string)
    requires 0 <= j < |rows|
    ensures HasPackage(rows[..j + 1], q) <==> HasPackage(rows[..j], q) || rows[j].packageName == q
  {
    if rows[j].packageName == q {
      assert rows[..j + 1][j] == rows[j];
    }
    if HasPackage(rows[..j + 1], q) && rows[j].packageName != q {
      var k :| 0 <= k < j + 1 && rows[..j + 1][k].packageName == q;
      assert rows[..j][k] == rows[k];
    }
    if HasPackage(rows[..j], q) {
      var k :| 0 <= k < j && rows[..j][k].packageName == q;
      assert rows[..j + 1][k] == rows[k];
    }
  }

  lemma UnblockSkip(rows: seq<BlockedApp>, existing: seq<BlockedApp>, incoming: Entries, j: int)
    requires 0 <= j < |existing| && AfterUnblock(rows, existing, incoming, j)
    requires HasKey(incoming, existing[j].packageName) || !existing[j].isBlocked
    ensures AfterUnblock(rows, existing, incoming, j + 1)
  {
    var app := existing[j];
    FindPackageUnique(existing, app);
    assert existing[..j + 1] == existing[..j] + [app];
    if !HasKey(incoming, app.packageName) {
      assert !HasPackage(existing[..j], app.packageName);
      assert app.(isBlocked := false) == app;
    }
    forall q | !HasKey(incoming, q) && q != app.packageName
      ensures HasPackage(existing[..j + 1], q) <==> HasPackage(existing[..j], q)
    {
    }
  }

  lemma UnblockDone(rows: seq<BlockedApp>, existing: seq<BlockedApp>, incoming: Entries)
    requires AfterUnblock(rows, existing, incoming, |existing|)
    ensures forall q :: FindPackage(rows, q) == Merged(existing, incoming, q)
  {
    assert existing[..|existing|] == existing;
  }

  /** The key of the i-th entry reads back its value. */
  lemma GetAt(m: Entries, i: int)
    requires UniqueKeys(m) && 0 <= i < |m|
    ensures Get(m, m[i].0) == Some(m[i].1)
    ensures HasKey(m[..i + 1], m[i].0)
  {
    GetAtRec(m, i);
    assert m[..i + 1][i] == m[i];
  }

  lemma {:induction false} GetAtRec(m: Entries, i: int)
    requires UniqueKeys(m) && 0 <= i < |m|
    ensures Get(m, m[i].0) == Some(m[i].1)
    decreases i
  {
    if i > 0 {
      GetAtRec(m[1..], i - 1);
      assert m[1..][i - 1] == m[i];
    }
  }
}
