/**
 * The Zen session status of the zentox/zenox engines and its persistence in
 * the "zentox_state" shared-preferences file (keys "active", "trigger",
 * "end_time").  The store keeps an in-memory status and, once it has an
 * application context, mirrors every status into the preferences and decodes
 * the preferences on every read.
 */
module ZentoxState {
  import opened Common

  /** ZenStatus: INACTIVE, or ACTIVE with the trigger that started it and its end time. */
  datatype ZenStatus = Inactive | Active(triggerType: string, endTimeEpochMillis: int)

  const UNKNOWN_TRIGGER: string := "UNKNOWN"

  /**
   * The three preference keys as they sit on disk: a key that was never
   * written or was removed is None.
   */
  datatype StoredPrefs = StoredPrefs(active: Option<bool>, trigger: Option<string>, endTime: Option<int>)

  const EmptyPrefs: StoredPrefs := StoredPrefs(None, None, None)

  /** What persistStatus leaves in the preference file after writing `s`. */
  function Persist(p: StoredPrefs, s: ZenStatus): (q: StoredPrefs)
    ensures q.active == Some(s.Active?)
    ensures s.Inactive? ==> q.trigger == None && q.endTime == None
    ensures s.Active? ==> q.trigger == Some(s.triggerType) && q.endTime == Some(s.endTimeEpochMillis)
  {
    match s
    case Inactive => StoredPrefs(Some(false), None, None)
    case Active(t, e) => StoredPrefs(Some(true), Some(t), Some(e))
  }

  /** getBoolean / getString / getLong with the defaults used by readPersistedStatus. */
  function ActiveFlag(p: StoredPrefs): bool
  {
    if p.active.Some? then p.active.value else false
  }

  function TriggerOrUnknown(p: StoredPrefs): (t: string)
    ensures !IsBlank(t)
    ensures p.trigger.Some? && !IsBlank(p.trigger.value) ==> t == p.trigger.value
    ensures p.trigger.None? || IsBlank(p.trigger.value) ==> t == UNKNOWN_TRIGGER
  {
    var raw := if p.trigger.Some? then p.trigger.value else UNKNOWN_TRIGGER;
    assert !IsWhitespace(UNKNOWN_TRIGGER[0]);
    if IsBlank(raw) then UNKNOWN_TRIGGER else raw
  }

  function EndOrZero(p: StoredPrefs): int
  {
    if p.endTime.Some? then p.endTime.value else 0
  }

  /**
   * readPersistedStatus (with a context): INACTIVE unless the active flag is
   * set and the end time is still in the future; a missing or blank trigger
   * reads as "UNKNOWN".
   */
  function Decode(p: StoredPrefs, now: int): (s: ZenStatus)
    ensures s.Active? <==> ActiveFlag(p) && EndOrZero(p) > now
    ensures s.Active? ==> s.endTimeEpochMillis == EndOrZero(p) && s.endTimeEpochMillis > now
    ensures s.Active? ==> s.triggerType == TriggerOrUnknown(p) && !IsBlank(s.triggerType)
  {
    if !ActiveFlag(p) then Inactive
    else if EndOrZero(p) <= now then Inactive
    else Active(TriggerOrUnknown(p), EndOrZero(p))
  }

  /** Round trip: an ACTIVE status with a non-blank trigger reads back unchanged until its end time. */
  lemma PersistDecodeActive(p: StoredPrefs, t: string, e: int, now: int)
    requires !IsBlank(t) && now < e
    ensures Decode(Persist(p, Active(t, e)), now) == Active(t, e)
  {
  }

  /** Writing INACTIVE always reads back as INACTIVE, whatever was stored before. */
  lemma PersistDecodeInactive(p: StoredPrefs, now: int)
    ensures Decode(Persist(p, Inactive), now) == Inactive
  {
  }

  /** A stored ACTIVE record whose end time has been reached reads as INACTIVE. */
  lemma ExpiredDecodesInactive(p: StoredPrefs, now: int)
    requires EndOrZero(p) <= now
    ensures Decode(p, now) == Inactive
  {
  }

  /** A blank trigger written by setStatus comes back as "UNKNOWN", with the same end time. */
  lemma PersistDecodeBlankTrigger(p: StoredPrefs, t: string, e: int, now: int)
    requires IsBlank(t) && now < e
    ensures Decode(Persist(p, Active(t, e)), now) == Active(UNKNOWN_TRIGGER, e)
  {
  }

  /** The ZentoxState singleton: the in-memory status, the optional context and the preference file. */
  class StateStore {
    var status: ZenStatus
    var hasContext: bool
    var prefs: StoredPrefs

    /** The object before initialize: INACTIVE in memory, no context; `disk` is what the file already holds. */
    constructor (disk: StoredPrefs)
      ensures status == Inactive && !hasContext && prefs == disk
    {
      status := Inactive;
      hasContext := false;
      prefs := disk;
    }

    /** What getStatus answers at time `now`. */
    function Observed(now: int): ZenStatus
      reads this
    {
      if hasContext then Decode(prefs, now) else status
    }

    /** initialize: remember the context and adopt the persisted status. */
    method Initialize(now: int)
      modifies this
      ensures hasContext && prefs == old(prefs)
      ensures status == Decode(prefs, now)
    {
      hasContext := true;
      status := Decode(prefs, now);
    }

    /** getStatus: with a context, the persisted decoding replaces the in-memory value; without one, the in-memory value. */
    method GetStatus(now: int) returns (s: ZenStatus)
      modifies this
      ensures s == old(Observed(now))
      ensures hasContext == old(hasContext) && prefs == old(prefs)
      ensures old(hasContext) ==> status == Decode(prefs, now)
      ensures !old(hasContext) ==> status == old(status) && s == status
    {
      if hasContext {
        s := Decode(prefs, now);
        status := s;
      } else {
        s := status;
      }
    }

    /** setStatus: store in memory and, with a context, persist. */
    method SetStatus(s: ZenStatus)
      modifies this
      ensures status == s && hasContext == old(hasContext)
      ensures hasContext ==> prefs == Persist(old(prefs), s)
      ensures !hasContext ==> prefs == old(prefs)
    {
      status := s;
      if hasContext {
        prefs := Persist(prefs, s);
      }
    }
  }
}
