/**
 * ZentoxAlarmManager: when a schedule should next fire and how long the
 * session it starts lasts.
 *
 * Time is an integer count of milliseconds since the epoch, read on a clock
 * with no time-zone offset and no daylight-saving shifts.  The calendar day
 * of an instant is `t / DAY_MS` (day 0 is Thursday 1 January 1970) and its
 * Calendar.DAY_OF_WEEK is numbered 1 = Sunday .. 7 = Saturday.
 */
module ZentoxAlarm {
  import opened Common
  import opened AppDatabase

  const MINUTE_MS: int := 60_000
  const HOUR_MS: int := 3_600_000
  const DAY_MS: int := 86_400_000
  const MINUTES_PER_DAY: int := 24 * 60

  // ---------------------------------------------------------------------
  // parseTime and parseDaysOfWeek
  // ---------------------------------------------------------------------

  /** parts.getOrNull(i)?.toIntOrNull() ?: 0 */
  function PartOrZero(parts: seq<string>, i: nat): int
  {
    if i < |parts| && ParseInt(parts[i]).Some? then ParseInt(parts[i]).value else 0
  }

  /** parseTime: "H:M" read leniently; a missing or non-numeric part is 0; hour clamped to 0..23, minute to 0..59. */
  function ParseTime(time: string): (hm: (int, int))
    ensures 0 <= hm.0 <= 23 && 0 <= hm.1 <= 59
  {
    var parts := Split(time, ':');
    (Clamp(PartOrZero(parts, 0), 0, 23), Clamp(PartOrZero(parts, 1), 0, 59))
  }

  /** A well-formed "HH:MM" reads back as the hour and minute it spells. */
  lemma ParseTimeOfPadded(h: int, m: int)
    requires 0 <= h <= 23 && 0 <= m <= 59
    ensures ParseTime(Pad2(h) + ":" + Pad2(m)) == (h, m)
  {
    var s := Pad2(h) + ":" + Pad2(m);
    assert ':' !in Pad2(h) && ':' !in Pad2(m);
    assert IndexOf(s, ':') == 2 by {
      assert s[2] == ':';
      assert s[..2] == Pad2(h);
    }
    assert s[..2] == Pad2(h);
    assert s[3..] == Pad2(m);
    assert Split(s, ':') == [Pad2(h), Pad2(m)];
    Pad2RoundTrip(h);
    Pad2RoundTrip(m);
  }

  /** A time with no ':' is an hour alone: the minute is 0. */
  lemma ParseTimeWithoutColon(time: string)
    requires ':' !in time
    ensures ParseTime(time).1 == 0
    ensures ParseInt(time).Some? ==> ParseTime(time).0 == Clamp(ParseInt(time).value, 0, 23)
  {
    assert Split(time, ':') == [time];
  }

  /** The day a comma-separated piece names, if it is a trimmed integer within 1..7. */
  predicate NamesDay(piece: string, d: int)
  {
    ParseInt(Trim(piece)) == Some(d) && 1 <= d <= 7
  }

  /** mapNotNull { it.trim().toIntOrNull() }.filter { it in 1..7 }.toSet() */
  function DaysIn(pieces: seq<string>): (days: set<int>)
    ensures forall d :: d in days ==> 1 <= d <= 7
  {
    if |pieces| == 0 then {}
    else
      var v := ParseInt(Trim(pieces[0]));
      (if v.Some? && 1 <= v.value <= 7 then {v.value} else {}) + DaysIn(pieces[1..])
  }

  /** A day is kept exactly when some piece names it. */
  lemma {:induction false} DaysInNamed(pieces: seq<string>, d: int)
    ensures d in DaysIn(pieces) <==> exists k :: 0 <= k < |pieces| && NamesDay(pieces[k], d)
  {
    if |pieces| > 0 {
      DaysInNamed(pieces[1..], d);
      if exists k :: 0 <= k < |pieces| && NamesDay(pieces[k], d) {
        var k :| 0 <= k < |pieces| && NamesDay(pieces[k], d);
        if k > 0 {
          assert pieces[1..][k - 1] == pieces[k];
        }
      }
      if d in DaysIn(pieces[1..]) {
        var k :| 0 <= k < |pieces[1..]| && NamesDay(pieces[1..][k], d);
        assert pieces[k + 1] == pieces[1..][k];
      }
    }
  }

  /** parseDaysOfWeek: split on ',', trim, keep the integers in 1..7, as a set. */
  function ParseDaysOfWeek(daysOfWeek: string): (days: set<int>)
    ensures forall d :: d in days ==> 1 <= d <= 7
  {
    DaysIn(Split(daysOfWeek, ','))
  }

  // ---------------------------------------------------------------------
  // computeDurationMillis
  // ---------------------------------------------------------------------

  function MinuteOfDay(hm: (int, int)): int
  {
    hm.0 * 60 + hm.1
  }

  /**
   * computeDurationMillis: the minutes from start to end, wrapping past
   * midnight when the end is earlier; a zero difference counts as 1 minute.
   */
  function ComputeDurationMillis(s: ZenSchedule): (ms: int)
    ensures MINUTE_MS <= ms <= 1439 * MINUTE_MS
    ensures ms % MINUTE_MS == 0
  {
    DurationMinutes(MinuteOfDay(ParseTime(s.startTime)), MinuteOfDay(ParseTime(s.endTime))) * MINUTE_MS
  }

  /** The whole minutes of computeDurationMillis, for start and end minutes of the day. */
  function DurationMinutes(startMins: int, endMins: int): (d: int)
    requires 0 <= startMins < MINUTES_PER_DAY && 0 <= endMins < MINUTES_PER_DAY
    ensures 1 <= d <= 1439
  {
    var diffMins := if endMins >= startMins then endMins - startMins else (MINUTES_PER_DAY - startMins) + endMins;
    if diffMins <= 0 then 1 else diffMins
  }

  /**
   * The session that starts at the schedule's start time and lasts
   * computeDurationMillis ends at the schedule's end time of day, unless
   * start and end are the same minute, in which case it lasts one minute.
   */
  lemma DurationReachesEnd(s: ZenSchedule)
    ensures var st := MinuteOfDay(ParseTime(s.startTime));
            var en := MinuteOfDay(ParseTime(s.endTime));
            (st != en ==> (st + ComputeDurationMillis(s) / MINUTE_MS) % MINUTES_PER_DAY == en)
            && (st == en ==> ComputeDurationMillis(s) == MINUTE_MS)
            && (en > st ==> ComputeDurationMillis(s) == (en - st) * MINUTE_MS)
  {
    var st := MinuteOfDay(ParseTime(s.startTime));
    var en := MinuteOfDay(ParseTime(s.endTime));
    var d := DurationMinutes(st, en);
    DurationMinutesReachEnd(st, en);
    MinutesToMillis(d);
  }

  lemma DurationMinutesReachEnd(st: int, en: int)
    requires 0 <= st < MINUTES_PER_DAY && 0 <= en < MINUTES_PER_DAY
    ensures st != en ==> (st + DurationMinutes(st, en)) % MINUTES_PER_DAY == en
    ensures st == en ==> DurationMinutes(st, en) == 1
    ensures en > st ==> DurationMinutes(st, en) == en - st
  {
    if en < st {
      assert st + DurationMinutes(st, en) == MINUTES_PER_DAY + en;
    }
  }

  lemma MinutesToMillis(d: int)
    ensures (d * MINUTE_MS) / MINUTE_MS == d
  {
  }

  // ---------------------------------------------------------------------
  // computeNextTriggerAt
  // ---------------------------------------------------------------------

  /** Calendar.DAY_OF_WEEK of a day index: day 0 was a Thursday (5). */
  function Weekday(day: int): (w: int)
    ensures 1 <= w <= 7
  {
    (day + 4) % 7 + 1
  }

  /** Milliseconds into the day of hour:minute:00.000. */
  function TimeOfDay(hm: (int, int)): (tod: int)
    requires 0 <= hm.0 <= 23 && 0 <= hm.1 <= 59
    ensures 0 <= tod < DAY_MS
  {
    hm.0 * HOUR_MS + hm.1 * MINUTE_MS
  }

  /** The base calendar advanced by `offset` days and set to the time of day. */
  function Candidate(now: int, offset: int, tod: int): int
  {
    (now / DAY_MS + offset) * DAY_MS + tod
  }

  predicate ValidDay(allowed: set<int>, day: int)
  {
    allowed == {} || Weekday(day) in allowed
  }

  /** The candidate at `offset` is on an allowed day and after now. */
  predicate GoodOffset(now: int, tod: int, allowed: set<int>, offset: int)
  {
    ValidDay(allowed, now / DAY_MS + offset) && Candidate(now, offset, tod) > now
  }

  /** The first offset in `from`..7 whose candidate is on an allowed day and after now. */
  function FirstOffset(now: int, tod: int, allowed: set<int>, from: nat): (o: Option<nat>)
    ensures o.Some? ==> from <= o.value <= 7 && GoodOffset(now, tod, allowed, o.value)
    ensures forall k :: from <= k <= 7 && (o.None? || k < o.value) ==> !GoodOffset(now, tod, allowed, k)
    decreases 8 - from
  {
    if from > 7 then None
    else if GoodOffset(now, tod, allowed, from) then Some(from)
    else FirstOffset(now, tod, allowed, from + 1)
  }

  /** The first good candidate, else tomorrow at that time of day. */
  function NextCandidate(now: int, tod: int, allowed: set<int>): int
  {
    var o := FirstOffset(now, tod, allowed, 0);
    if o.Some? then Candidate(now, o.value, tod) else Candidate(now, 1, tod)
  }

  /** The specification of computeNextTriggerAt: the next candidate at the schedule's start time and weekdays. */
  function NextTriggerAt(s: ZenSchedule, now: int): int
  {
    NextCandidate(now, TimeOfDay(ParseTime(s.startTime)), ParseDaysOfWeek(s.daysOfWeek))
  }

  /**
   * computeNextTriggerAt: tries the candidates for offsets 0..7 in turn,
   * returning the first on an allowed weekday that lies after now.
   */
  method ComputeNextTriggerAt(s: ZenSchedule, now: int) returns (t: int)
    ensures t == NextTriggerAt(s, now)
    ensures t > now
  {
    var hm := ParseTime(s.startTime);
    var allowed := ParseDaysOfWeek(s.daysOfWeek);
    var tod := TimeOfDay(hm);
    NextTriggerFacts(s, now);
    var offset := 0;
    while offset <= 7
      invariant 0 <= offset <= 8
      invariant FirstOffset(now, tod, allowed, 0) == FirstOffset(now, tod, allowed, offset)
    {
      var candidate := Candidate(now, offset, tod);
      var validDay := allowed == {} || Weekday(now / DAY_MS + offset) in allowed;
      if validDay && candidate > now {
        return candidate;
      }
      offset := offset + 1;
    }
    t := Candidate(now, 1, tod);
  }

  /** A candidate for a day at or after tomorrow is always after now. */
  lemma LaterDayIsAfterNow(now: int, k: int, tod: int)
    requires k >= 1 && 0 <= tod
    ensures Candidate(now, k, tod) > now
  {
    var day := now / DAY_MS;
    assert now < (day + 1) * DAY_MS;
    assert (day + k) * DAY_MS >= (day + 1) * DAY_MS;
  }

  /** How many days after `day` (1..7) the next day with weekday `w` comes. */
  function DaysUntilWeekday(day: int, w: int): (k: int)
    requires 1 <= w <= 7
    ensures 1 <= k <= 7 && Weekday(day + k) == w
  {
    var r := (day + 4) % 7;
    var q := (day + 4) / 7;
    assert day + 4 == 7 * q + r;
    var k := if w - 1 > r then w - 1 - r else w - 1 - r + 7;
    var e := if w - 1 > r then 0 else 1;
    assert day + k + 4 == 7 * (q + e) + (w - 1);
    k
  }

  /** The smallest allowed day number in `from`..7, if any. */
  function FirstAllowedDay(allowed: set<int>, from: int): (d: Option<int>)
    requires 1 <= from
    ensures d.Some? ==> d.value in allowed && 1 <= d.value <= 7
    ensures d.None? ==> forall x :: from <= x <= 7 ==> x !in allowed
    decreases 8 - from
  {
    if from > 7 then None
    else if from in allowed then Some(from)
    else FirstAllowedDay(allowed, from + 1)
  }

  /** The scan over 0..7 always finds an offset: the fallback after the loop is never reached. */
  lemma {:induction false} ScanAlwaysFinds(now: int, tod: int, allowed: set<int>)
    requires 0 <= tod < DAY_MS
    requires forall d :: d in allowed ==> 1 <= d <= 7
    ensures FirstOffset(now, tod, allowed, 0).Some?
  {
    var day := now / DAY_MS;
    var k: int;
    var first := FirstAllowedDay(allowed, 1);
    if first.None? {
      assert allowed == {};
      k := 1;
    } else {
      k := DaysUntilWeekday(day, first.value);
    }
    LaterDayIsAfterNow(now, k, tod);
    assert ValidDay(allowed, day + k);
  }

  /** An instant after now with the right time of day, before the candidate at offset `o`, is the candidate of an earlier offset. */
  lemma BetweenIsEarlierCandidate(now: int, tod: int, o: int, u: int)
    requires 0 <= tod < DAY_MS
    requires now < u < Candidate(now, o, tod) && u % DAY_MS == tod
    ensures 0 <= u / DAY_MS - now / DAY_MS < o
    ensures Candidate(now, u / DAY_MS - now / DAY_MS, tod) == u
  {
    var day := now / DAY_MS;
    var ud := u / DAY_MS;
    assert u == ud * DAY_MS + tod;
    assert day * DAY_MS <= now;
  }

  /**
   * What computeNextTriggerAt promises: a time after now, at the schedule's
   * hour:minute:00.000, on an allowed weekday (any day when none is
   * allowed), and no earlier instant after now has both.
   */
  lemma NextTriggerFacts(s: ZenSchedule, now: int)
    ensures var t := NextTriggerAt(s, now);
            var tod := TimeOfDay(ParseTime(s.startTime));
            var allowed := ParseDaysOfWeek(s.daysOfWeek);
            t > now && t % DAY_MS == tod && ValidDay(allowed, t / DAY_MS)
            && (forall u :: now < u < t && u % DAY_MS == tod ==> !ValidDay(allowed, u / DAY_MS))
  {
    NextCandidateFacts(now, TimeOfDay(ParseTime(s.startTime)), ParseDaysOfWeek(s.daysOfWeek));
  }

  /** The next candidate is the earliest instant after now at that time of day on an allowed day. */
  lemma NextCandidateFacts(now: int, tod: int, allowed: set<int>)
    requires 0 <= tod < DAY_MS
    requires forall d :: d in allowed ==> 1 <= d <= 7
    ensures var t := NextCandidate(now, tod, allowed);
            t > now && t % DAY_MS == tod && ValidDay(allowed, t / DAY_MS)
            && (forall u :: now < u < t && u % DAY_MS == tod ==> !ValidDay(allowed, u / DAY_MS))
  {
    var day := now / DAY_MS;
    ScanAlwaysFinds(now, tod, allowed);
    var o := FirstOffset(now, tod, allowed, 0).value;
    var t := Candidate(now, o, tod);
    assert t == NextCandidate(now, tod, allowed);
    DayDecomposition(day + o, tod);
    forall u | now < u < t && u % DAY_MS == tod
      ensures !ValidDay(allowed, u / DAY_MS)
    {
      BetweenIsEarlierCandidate(now, tod, o, u);
      assert !GoodOffset(now, tod, allowed, u / DAY_MS - day);
    }
  }

  /** Splitting day * DAY_MS + tod back into the day and the time of day. */
  lemma DayDecomposition(day: int, tod: int)
    requires 0 <= tod < DAY_MS
    ensures (day * DAY_MS + tod) / DAY_MS == day
    ensures (day * DAY_MS + tod) % DAY_MS == tod
  {
  }
}
