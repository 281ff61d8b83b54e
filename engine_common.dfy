/**
 * What the zenbl and zenox ZenEngine objects share: reading the local clock
 * in their own weekday numbering, parsing a schedule's day list, the
 * remaining-seconds figure of getStatus and calculateEndTime.  The two
 * engines have the same code for each of these.
 *
 * The clock is the one of the alarm manager: epoch milliseconds with no
 * time-zone offset and no daylight-saving shift, day `t / DAY_MS`.
 */
module EngineCommon {
  import opened Common
  import opened ZentoxAlarm

  /** Calendar.HOUR_OF_DAY of an instant. */
  function HourOf(now: int): (h: int)
    ensures 0 <= h <= 23
  {
    (now % DAY_MS) / HOUR_MS
  }

  /** Calendar.MINUTE of an instant. */
  function MinuteOf(now: int): (m: int)
    ensures 0 <= m <= 59
  {
    (now % HOUR_MS) / MINUTE_MS
  }

  /** The hour and minute read off the clock place the instant inside that minute of its day. */
  lemma MinuteOfDayOf(now: int)
    ensures (HourOf(now) * 60 + MinuteOf(now)) * MINUTE_MS <= now % DAY_MS < (HourOf(now) * 60 + MinuteOf(now) + 1) * MINUTE_MS
  {
    var q, r := now / DAY_MS, now % DAY_MS;
    assert now == (q * 24) * HOUR_MS + r;
    HourModShift(r, q * 24);
    var h, rr := r / HOUR_MS, r % HOUR_MS;
    assert r == h * HOUR_MS + rr;
    assert rr == (rr / MINUTE_MS) * MINUTE_MS + rr % MINUTE_MS;
  }

  lemma HourModShift(r: int, k: int)
    ensures (k * HOUR_MS + r) % HOUR_MS == r % HOUR_MS
  {
    var a := k * HOUR_MS + r;
    assert a == (a / HOUR_MS) * HOUR_MS + a % HOUR_MS;
    assert r == (r / HOUR_MS) * HOUR_MS + r % HOUR_MS;
    var d := a / HOUR_MS - k - r / HOUR_MS;
    assert d * HOUR_MS == r % HOUR_MS - a % HOUR_MS;
    assert d == 0;
  }

  /**
   * The engines' numbering 1 = Monday .. 7 = Sunday from Calendar's
   * 1 = Sunday .. 7 = Saturday: Sunday becomes 7, every other day moves down one.
   */
  function EngineDay(calendarDay: int): (d: int)
    requires 1 <= calendarDay <= 7
    ensures 1 <= d <= 7
    ensures d % 7 + 1 == calendarDay
  {
    if calendarDay == 1 then 7 else calendarDay - 1
  }

  /** The engine day number of an instant. */
  function TodayOf(now: int): (d: int)
    ensures 1 <= d <= 7
  {
    EngineDay(Weekday(now / DAY_MS))
  }

  /** The Monday-first numbering advances by one a day and wraps from Sunday (7) to Monday (1). */
  lemma TodayAdvances(now: int)
    ensures TodayOf(now + DAY_MS) == TodayOf(now) % 7 + 1
  {
    assert (now + DAY_MS) / DAY_MS == now / DAY_MS + 1;
  }

  // ---------------------------------------------------------------------
  // Day lists
  // ---------------------------------------------------------------------

  /** mapNotNull { it.trim().toIntOrNull() }: every piece that reads as an Int, in order. */
  function ParsedInts(pieces: seq<string>): (r: seq<int>)
    ensures |r| <= |pieces|
  {
    if |pieces| == 0 then []
    else
      var v := ParseInt(Trim(pieces[0]));
      (if v.Some? then [v.value] else []) + ParsedInts(pieces[1..])
  }

  /** A number is in the list exactly when some piece, trimmed, reads as it. */
  lemma {:induction false} ParsedIntsMembers(pieces: seq<string>, d: int)
    ensures d in ParsedInts(pieces) <==> exists k :: 0 <= k < |pieces| && ParseInt(Trim(pieces[k])) == Some(d)
  {
    if |pieces| > 0 {
      ParsedIntsMembers(pieces[1..], d);
      if exists k :: 0 <= k < |pieces| && ParseInt(Trim(pieces[k])) == Some(d) {
        var k :| 0 <= k < |pieces| && ParseInt(Trim(pieces[k])) == Some(d);
        if k > 0 {
          assert pieces[1..][k - 1] == pieces[k];
        }
      }
      if d in ParsedInts(pieces[1..]) {
        var k :| 0 <= k < |pieces[1..]| && ParseInt(Trim(pieces[1..][k])) == Some(d);
        assert pieces[k + 1] == pieces[1..][k];
      }
    }
  }

  /** The day numbers of a schedule's daysOfWeek string, split on ','. */
  function DayNumbers(daysOfWeek: string): seq<int>
  {
    ParsedInts(Split(daysOfWeek, ','))
  }

  // ---------------------------------------------------------------------
  // State kept outside the engine object
  // ---------------------------------------------------------------------

  /**
   * The engine's SharedPreferences file: is_zen_mode_active, zen_end_time,
   * schedule_name, is_fortress_mode and blocked_packages, each absent until
   * first written.
   */
  datatype EnginePrefs = EnginePrefs(
    active: Option<bool>, endTime: Option<int>, scheduleName: Option<string>,
    fortress: Option<bool>, blockedPackages: Option<set<string>>)

  /** The four session keys written together, as activateZen and stopZen write them. */
  function WithSession(p: EnginePrefs, active: bool, endTime: int, name: string, fortress: bool): EnginePrefs
  {
    p.(active := Some(active), endTime := Some(endTime), scheduleName := Some(name), fortress := Some(fortress))
  }

  /**
   * What the engine does outside its own fields, in order: the foreground
   * service it starts or stops, the end-of-session sound, the block list
   * it syncs to prefs, the session state it persists.
   */
  datatype Effect =
    | ForegroundStarted(endTime: int, name: string)
    | ForegroundStopped
    | EndAudioPlayed
    | BlockListSynced(packages: set<string>)
    | StatePersisted(active: bool)

  /** List.toSet(). */
  function AsSet(xs: seq<string>): (r: set<string>)
    ensures forall x :: x in r <==> x in xs
  {
    set x | x in xs
  }

  /** prefs.getX(key, default): the stored value, or the default when the key is absent. */
  function GetOrElse<T>(o: Option<T>, d: T): (r: T)
    ensures o.Some? ==> r == o.value
    ensures o.None? ==> r == d
  {
    if o.Some? then o.value else d
  }

  // ---------------------------------------------------------------------
  // getStatus and calculateEndTime
  // ---------------------------------------------------------------------

  /** The map getStatus returns. */
  datatype EngineStatus = EngineStatus(isActive: bool, remainingSeconds: int, scheduleName: string, isFortress: bool)

  /**
   * remainingSeconds: the whole seconds left of an active session with an
   * end time, never negative; 0 for anything else.
   */
  function RemainingSeconds(isActive: bool, endTimeMs: int, now: int): (r: int)
    ensures r >= 0
    ensures !(isActive && endTimeMs > 0) ==> r == 0
    ensures endTimeMs <= now ==> r == 0
    ensures isActive && endTimeMs > 0 && endTimeMs > now ==> r * 1000 <= endTimeMs - now < (r + 1) * 1000
  {
    if isActive && endTimeMs > 0 then Max(0, TruncDiv(endTimeMs - now, 1000)) else 0
  }

  /** The local midnight that starts the day of `now`. */
  function DayStart(now: int): int
  {
    now / DAY_MS * DAY_MS
  }

  /**
   * calculateEndTime: today's date at endHour:endMinute:00.000, moved one
   * day on when that is before now (Calendar's lenient fields let an hour
   * or minute out of range roll into the neighbouring day or hour).
   */
  function CalculateEndTime(endHour: int, endMinute: int, now: int): (t: int)
    ensures 0 <= endHour <= 23 && 0 <= endMinute <= 59 ==>
              now <= t < now + DAY_MS && t % DAY_MS == endHour * HOUR_MS + endMinute * MINUTE_MS
  {
    var end := DayStart(now) + endHour * HOUR_MS + endMinute * MINUTE_MS;
    if end < now then end + DAY_MS else end
  }

  /**
   * The end time is the one instant in [now, now + one day) that falls at
   * the end hour and minute.
   */
  lemma {:induction false} CalculateEndTimeUnique(endHour: int, endMinute: int, now: int, t: int)
    requires 0 <= endHour <= 23 && 0 <= endMinute <= 59
    requires now <= t < now + DAY_MS && t % DAY_MS == endHour * HOUR_MS + endMinute * MINUTE_MS
    ensures t == CalculateEndTime(endHour, endMinute, now)
  {
    var r := CalculateEndTime(endHour, endMinute, now);
    var tod := endHour * HOUR_MS + endMinute * MINUTE_MS;
    assert t == t / DAY_MS * DAY_MS + tod;
    assert r == r / DAY_MS * DAY_MS + tod;
  }
}
