/**
 * The zenox blocker (com/zenox/ZenAccessibilityService.kt).  Compared with
 * the zenbl one it normalises package names (a ":process" suffix is cut),
 * debounces the removal of its overlay by 1.2 s, keeps the overlay through
 * the launcher events that follow its own HOME press, builds the overlay on
 * the main thread, retries a refused attach once after 150 ms, and runs at
 * most one fade-out at a time (isRemovingOverlay).
 *
 * As for zenbl, the overlay bookkeeping is specified by pure transitions on
 * an `Overlays` value and the class's methods are proved to compute them.
 * The preferences are the zenox engine's `prefs` field ("ZenoxBlockedApps");
 * the home package the package manager resolves is an input, None when
 * there is none or the query throws.
 */
module ZenoxBlocker {
  import opened Common
  import opened EngineCommon
  import opened OverlayCommon
  import ZenoxEngine

  const ZEN_ACTIVE_KEY: string := "is_zen_mode_active"
  const BLOCKED_PACKAGES_KEY: string := "blocked_packages"
  const REMOVE_OVERLAY_DELAY_MS: int := 1200
  const OVERLAY_ADD_RETRY_DELAY_MS: int := 150
  const HOME_TRANSITION_GRACE_MS: int := 1200

  // ---------------------------------------------------------------------------
  // Package names
  // ---------------------------------------------------------------------------

  /**
   * normalizePackageName: trims, then cuts at the first ':' unless the
   * colon is the first character.  What is left holds no colon, except a
   * name that starts with one and is kept whole.
   */
  function NormalizePackageName(raw: string): (r: string)
    ensures ':' in r ==> r[0] == ':'
    ensures |r| <= |raw|
    ensures r != [] ==> !IsWhitespace(r[0])
  {
    var s := Trim(raw);
    TrimIsSlice(raw);
    var colon := IndexOf(s, ':');
    if colon > 0 then s[..colon] else s
  }

  predicate EndsInWhitespace(s: string)
  {
    s != [] && IsWhitespace(s[|s| - 1])
  }

  /** A string that starts with no whitespace trims to its trimEnd(). */
  lemma TrimOfUnpadded(r: string)
    requires r != [] && !IsWhitespace(r[0])
    ensures Trim(r) == TrimEnd(r)
  {
  }

  /**
   * Normalising twice gives the same name exactly when the first result does
   * not end in whitespace.  That can only happen when whitespace stands just
   * before the colon, which Android package names never contain.
   */
  lemma NormalizeIdempotentIff(raw: string)
    ensures NormalizePackageName(NormalizePackageName(raw)) == NormalizePackageName(raw)
            <==> !EndsInWhitespace(NormalizePackageName(raw))
  {
    var s := Trim(raw);
    TrimIsSlice(raw);
    var colon := IndexOf(s, ':');
    var r := NormalizePackageName(raw);
    if colon > 0 {
      assert r == s[..colon] && ':' !in r;
      TrimOfUnpadded(r);
      var e := TrimEnd(r);
      TrimEndSpec(r);
      assert ':' !in e by {
        assert e == r[..|e|];
      }
      assert IndexOf(Trim(r), ':') == -1;
      assert NormalizePackageName(r) == e;
      if EndsInWhitespace(r) {
        assert |e| < |r|;
      } else {
        assert e == r;
      }
    } else {
      TrimIdempotent(raw);
      assert r == s && Trim(r) == r;
    }
  }

  /** Without whitespace anywhere, normalising is idempotent. */
  lemma NormalizeIdempotent(raw: string)
    requires forall i :: 0 <= i < |raw| ==> !IsWhitespace(raw[i])
    ensures NormalizePackageName(NormalizePackageName(raw)) == NormalizePackageName(raw)
  {
    NormalizeIdempotentIff(raw);
  }

  /** The name "a :x" shows the whitespace case: it normalises to "a ", which normalises to "a". */
  lemma NormalizeNotIdempotent()
    ensures NormalizePackageName("a :x") == "a "
    ensures NormalizePackageName("a ") == "a"
  {
    assert TrimStart("a :x") == "a :x";
    assert TrimEnd("a :x") == "a :x";
    assert IndexOf("a :x", ':') == 2;
    assert "a :x"[..2] == "a ";
    assert TrimStart("a ") == "a ";
    assert TrimEnd("a ") == TrimEnd("a") == "a";
    assert IndexOf("a", ':') == -1;
  }

  /** The blocked set as checkAndBlock compares it: every stored name normalised. */
  function NormalizedSet(stored: set<string>): (r: set<string>)
    ensures forall x :: x in stored ==> NormalizePackageName(x) in r
    ensures forall y :: y in r ==> exists x :: x in stored && NormalizePackageName(x) == y
  {
    set x | x in stored :: NormalizePackageName(x)
  }

  predicate ZenActive(prefs: EnginePrefs)
  {
    GetOrElse(prefs.active, false)
  }

  /** A package is blocked when some stored name normalises to it. */
  predicate IsBlocked(prefs: EnginePrefs, pkg: string)
  {
    pkg in NormalizedSet(GetOrElse(prefs.blockedPackages, {}))
  }

  /** isHomePackage: the resolved home package, normalised, is the event's package. */
  predicate IsHomePackage(home: Option<string>, pkg: string)
  {
    home.Some? && NormalizePackageName(home.value) == pkg
  }

  // ---------------------------------------------------------------------------
  // Overlay bookkeeping
  // ---------------------------------------------------------------------------

  /**
   * The overlay state: overlayView, the views on the screen, the next view
   * number, the views built with an emergency exit, the view whose fade-out
   * is running (isRemovingOverlay is `removing.Some?`), the due time of the
   * debounced removal (removeOverlayRunnable), suppressRemoveUntilMs, the
   * posted blockApp tasks and attach retries not yet run, and the effects.
   */
  datatype Overlays = Overlays(
    overlayView: Option<nat>, attached: set<nat>, nextView: nat, exitViews: set<nat>,
    removing: Option<nat>, pendingRemoval: Option<int>, suppressRemoveUntil: int,
    blockTasks: nat, retries: nat, effects: seq<ServiceEffect>)

  /**
   * Views are numbered as created, and the screen holds exactly the current
   * overlay and the one being faded out: at most two windows, none leaked.
   */
  ghost predicate Consistent(s: Overlays)
  {
    && (forall v :: v in s.attached ==> v < s.nextView)
    && (forall v :: v in s.exitViews ==> v < s.nextView)
    && (forall v :: v in s.attached <==> s.overlayView == Some(v) || s.removing == Some(v))
    && (s.overlayView.Some? && s.removing.Some? ==> s.overlayView != s.removing)
  }

  /** cancelRemoveOverlayPending. */
  function CancelPending(s: Overlays): (r: Overlays)
    ensures r.pendingRemoval.None?
  {
    s.(pendingRemoval := None)
  }

  /**
   * setupOverlay: a new view becomes overlayView; when the window manager
   * refuses it, overlayView is cleared again and nothing is on the screen.
   */
  function WithOverlay(s: Overlays, prefs: EnginePrefs, attachOk: bool): (r: Overlays)
    ensures r.nextView == s.nextView + 1
    ensures r.overlayView == (if attachOk then Some(s.nextView) else None)
    ensures r.attached == (if attachOk then s.attached + {s.nextView} else s.attached)
    ensures r.removing == s.removing && r.pendingRemoval == s.pendingRemoval
  {
    var v := s.nextView;
    var content := ContentOf(GetOrElse(prefs.scheduleName, ""), GetOrElse(prefs.fortress, false));
    s.(overlayView := if attachOk then Some(v) else None, nextView := v + 1,
       exitViews := if content.emergencyExit then s.exitViews + {v} else s.exitViews,
       attached := if attachOk then s.attached + {v} else s.attached,
       effects := s.effects + [if attachOk then OverlayAttached(v, content) else AttachFailed(v)])
  }

  /**
   * removeOverlayGracefully: nothing while a fade-out runs or without an
   * overlay; otherwise the overlay moves to the fade-out.
   */
  function Removed(s: Overlays): (r: Overlays)
    ensures s.removing.Some? ==> r == s
    ensures s.removing.None? && s.overlayView.None? ==> r == CancelPending(s)
    ensures s.removing.None? && s.overlayView.Some? ==>
              r.overlayView.None? && r.removing == s.overlayView && r.pendingRemoval.None?
    ensures r.attached == s.attached && r.effects == s.effects
  {
    if s.removing.Some? then s
    else
      var c := CancelPending(s);
      if c.overlayView.None? then c
      else c.(overlayView := None, removing := c.overlayView)
  }

  /**
   * checkAndBlock.  Inactive: only the pending removal is cancelled.  A
   * blocked package: the pending removal is cancelled, the audio plays and
   * the overlay work is posted.  Any other package: the overlay stays, with
   * nothing scheduled, when it exists and the package is the launcher or the
   * grace period after HOME still runs; otherwise a removal is scheduled
   * 1.2 s ahead, replacing any earlier one.
   */
  function Checked(s: Overlays, prefs: EnginePrefs, pkg: string, now: int, home: Option<string>): (r: Overlays)
    ensures !ZenActive(prefs) ==> r == CancelPending(s)
    ensures ZenActive(prefs) && IsBlocked(prefs, pkg) ==>
              r == CancelPending(s).(effects := s.effects + [AudioPlayed], blockTasks := s.blockTasks + 1)
    ensures (ZenActive(prefs) && !IsBlocked(prefs, pkg) && s.overlayView.Some?
             && (IsHomePackage(home, pkg) || now < s.suppressRemoveUntil)) ==> r == s
    ensures (ZenActive(prefs) && !IsBlocked(prefs, pkg)
             && !(s.overlayView.Some? && (IsHomePackage(home, pkg) || now < s.suppressRemoveUntil))) ==>
              r == s.(pendingRemoval := Some(now + REMOVE_OVERLAY_DELAY_MS))
  {
    if !ZenActive(prefs) then CancelPending(s)
    else if IsBlocked(prefs, pkg) then
      var c := CancelPending(s);
      c.(effects := c.effects + [AudioPlayed], blockTasks := c.blockTasks + 1)
    else if s.overlayView.Some? && (IsHomePackage(home, pkg) || now < s.suppressRemoveUntil) then s
    else s.(pendingRemoval := Some(now + REMOVE_OVERLAY_DELAY_MS))
  }

  /**
   * The main-thread part of blockApp: opens the 1.2 s grace period, builds
   * the overlay only when there is none and none is fading out, posts one
   * retry when the attach is refused, and presses HOME in every case.
   */
  function BlockTaskRun(s: Overlays, prefs: EnginePrefs, now: int, attachOk: bool): (r: Overlays)
    requires s.blockTasks > 0
    ensures r.suppressRemoveUntil == now + HOME_TRANSITION_GRACE_MS
    ensures r.blockTasks == s.blockTasks - 1
    ensures |r.effects| > |s.effects| && r.effects[|r.effects| - 1] == HomePressed
    ensures s.overlayView.Some? || s.removing.Some? ==> r.nextView == s.nextView && r.retries == s.retries
    ensures s.overlayView.None? && s.removing.None? ==>
              r.nextView == s.nextView + 1 && r.retries == s.retries + (if attachOk then 0 else 1)
  {
    var t := s.(blockTasks := s.blockTasks - 1, suppressRemoveUntil := now + HOME_TRANSITION_GRACE_MS);
    if t.overlayView.Some? || t.removing.Some? then
      t.(effects := t.effects + [HomePressed])
    else
      var u := WithOverlay(t, prefs, attachOk);
      var w := if attachOk then u else u.(retries := u.retries + 1);
      w.(effects := w.effects + [HomePressed])
  }

  /** The retry, 150 ms later: builds the overlay again only if there still is none; it never retries again. */
  function RetryRun(s: Overlays, prefs: EnginePrefs, attachOk: bool): (r: Overlays)
    requires s.retries > 0
    ensures r.retries == s.retries - 1
    ensures s.overlayView.Some? ==> r == s.(retries := s.retries - 1)
  {
    var t := s.(retries := s.retries - 1);
    if t.overlayView.None? then WithOverlay(t, prefs, attachOk) else t
  }

  /** The debounced removal fires. */
  function PendingRemovalRun(s: Overlays): (r: Overlays)
    requires s.pendingRemoval.Some?
    ensures r.pendingRemoval.None?
  {
    Removed(s.(pendingRemoval := None))
  }

  /** The fade-out ends (or could not start): the view leaves the screen and the flag drops. */
  function RemovalTaskRun(s: Overlays): (r: Overlays)
    requires s.removing.Some?
    ensures r.removing.None? && r.attached == s.attached - {s.removing.value}
  {
    var v := s.removing.value;
    s.(removing := None, attached := s.attached - {v}, effects := s.effects + [OverlayRemoved(v)])
  }

  /**
   * onSharedPreferenceChanged.  The Zen flag: on, re-check the last package;
   * off, take the overlay down.  The block list: re-check the last package
   * while Zen is on and a package was seen.  Either cancels the pending
   * removal first; other keys change nothing.
   */
  function PrefChanged(s: Overlays, prefs: EnginePrefs, key: Option<string>, last: string,
                       now: int, home: Option<string>): (r: Overlays)
    ensures key != Some(ZEN_ACTIVE_KEY) && key != Some(BLOCKED_PACKAGES_KEY) ==> r == s
    ensures key == Some(BLOCKED_PACKAGES_KEY) && !(ZenActive(prefs) && last != "") ==> r == CancelPending(s)
  {
    if key == Some(ZEN_ACTIVE_KEY) then
      if ZenActive(prefs) then Checked(CancelPending(s), prefs, last, now, home)
      else Removed(CancelPending(s))
    else if key == Some(BLOCKED_PACKAGES_KEY) then
      var c := CancelPending(s);
      if ZenActive(prefs) && last != "" then Checked(c, prefs, last, now, home) else c
    else s
  }

  // ---------------------------------------------------------------------------
  // Properties of the transitions
  // ---------------------------------------------------------------------------

  lemma ConsistentChecked(s: Overlays, prefs: EnginePrefs, pkg: string, now: int, home: Option<string>)
    requires Consistent(s)
    ensures Consistent(Checked(s, prefs, pkg, now, home))
  {
  }

  lemma ConsistentRemoved(s: Overlays)
    requires Consistent(s)
    ensures Consistent(Removed(s))
  {
  }

  lemma ConsistentPrefChanged(s: Overlays, prefs: EnginePrefs, key: Option<string>, last: string,
                              now: int, home: Option<string>)
    requires Consistent(s)
    ensures Consistent(PrefChanged(s, prefs, key, last, now, home))
  {
    ConsistentChecked(CancelPending(s), prefs, last, now, home);
    ConsistentRemoved(CancelPending(s));
  }

  /** A new overlay is only built when there is none and none fades out, so the screen never holds a third window. */
  lemma ConsistentBlockTaskRun(s: Overlays, prefs: EnginePrefs, now: int, attachOk: bool)
    requires Consistent(s) && s.blockTasks > 0
    ensures Consistent(BlockTaskRun(s, prefs, now, attachOk))
  {
  }

  /**
   * The retry does not look at isRemovingOverlay: it may build an overlay
   * while another fades out, which the invariant allows (two windows).
   */
  lemma ConsistentRetryRun(s: Overlays, prefs: EnginePrefs, attachOk: bool)
    requires Consistent(s) && s.retries > 0
    ensures Consistent(RetryRun(s, prefs, attachOk))
  {
  }

  lemma ConsistentRemovalTaskRun(s: Overlays)
    requires Consistent(s) && s.removing.Some?
    ensures Consistent(RemovalTaskRun(s))
    ensures s.removing.value in s.attached
  {
  }

  lemma ConsistentPendingRemovalRun(s: Overlays)
    requires Consistent(s) && s.pendingRemoval.Some?
    ensures Consistent(PendingRemovalRun(s))
  {
    ConsistentRemoved(s.(pendingRemoval := None));
  }

  /**
   * The debounce: within the grace period after HOME, or for the launcher,
   * a non-blocked window leaves an existing overlay alone; and whatever
   * removal was pending, a later non-blocked window leaves exactly one,
   * due 1.2 s after it.
   */
  lemma DebounceReplaces(s: Overlays, prefs: EnginePrefs, pkg: string, now: int, home: Option<string>)
    requires ZenActive(prefs) && !IsBlocked(prefs, pkg)
    requires s.overlayView.None? || (!IsHomePackage(home, pkg) && now >= s.suppressRemoveUntil)
    ensures Checked(s, prefs, pkg, now, home).pendingRemoval == Some(now + REMOVE_OVERLAY_DELAY_MS)
    ensures Checked(s, prefs, pkg, now, home).overlayView == s.overlayView
  {
  }

  /**
   * After a blocked window while no overlay exists and none fades out, the
   * main-thread task builds one, and if the window manager refuses it the
   * single retry builds one more; the retry posts no further retry.
   */
  lemma BlockThenRetry(s: Overlays, prefs: EnginePrefs, now: int, ok: bool)
    requires s.blockTasks > 0 && s.overlayView.None? && s.removing.None?
    ensures var t := BlockTaskRun(s, prefs, now, false);
            && t.overlayView.None? && t.retries == s.retries + 1
            && RetryRun(t, prefs, ok).overlayView == (if ok then Some(s.nextView + 1) else None)
            && RetryRun(t, prefs, ok).retries == s.retries
  {
  }

  // ---------------------------------------------------------------------------
  // The service
  // ---------------------------------------------------------------------------

  class Blocker {
    var lastActivePackage: string
    var overlayView: Option<nat>
    var attached: set<nat>
    var nextView: nat
    var exitViews: set<nat>
    var removing: Option<nat>
    var pendingRemoval: Option<int>
    var suppressRemoveUntilMs: int
    var blockTasks: nat
    var retries: nat
    var effects: seq<ServiceEffect>
    /** Overlays whose ten-second hold timer is running. */
    var holding: set<nat>
    /** Relaunches posted by a completed hold, oldest first. */
    var relaunches: seq<string>
    const engine: ZenoxEngine.Engine

    function Snapshot(): Overlays
      reads this
    {
      Overlays(overlayView, attached, nextView, exitViews, removing, pendingRemoval, suppressRemoveUntilMs,
               blockTasks, retries, effects)
    }

    ghost predicate Valid()
      reads this
    {
      Consistent(Snapshot()) && holding <= exitViews
    }

    constructor (engine: ZenoxEngine.Engine)
      ensures Valid()
      ensures Snapshot() == Overlays(None, {}, 0, {}, None, None, 0, 0, 0, [])
      ensures lastActivePackage == "" && holding == {} && relaunches == [] && this.engine == engine
    {
      lastActivePackage := "";
      overlayView, attached, nextView, exitViews := None, {}, 0, {};
      removing, pendingRemoval, suppressRemoveUntilMs := None, None, 0;
      blockTasks, retries, effects := 0, 0, [];
      holding, relaunches := {}, [];
      this.engine := engine;
    }

    /**
     * onAccessibilityEvent: a window change with a package records the
     * trimmed, normalised name and checks it; an event without a package is
     * ignored.
     */
    method OnAccessibilityEvent(eventType: int, packageName: Option<string>, now: int, home: Option<string>)
      requires Valid()
      modifies this
      ensures Valid()
      ensures eventType != TYPE_WINDOW_STATE_CHANGED || packageName.None? ==>
                Snapshot() == old(Snapshot()) && lastActivePackage == old(lastActivePackage)
      ensures eventType == TYPE_WINDOW_STATE_CHANGED && packageName.Some? ==>
                lastActivePackage == NormalizePackageName(Trim(packageName.value))
                && Snapshot() == Checked(old(Snapshot()), engine.prefs, lastActivePackage, now, home)
      ensures holding == old(holding) && relaunches == old(relaunches)
    {
      if eventType == TYPE_WINDOW_STATE_CHANGED {
        if packageName.None? {
          return;
        }
        var raw := Trim(packageName.value);
        var pkg := NormalizePackageName(raw);
        lastActivePackage := pkg;
        CheckAndBlock(pkg, now, home);
      }
    }

    method CheckAndBlock(pkg: string, now: int, home: Option<string>)
      requires Valid()
      modifies this
      ensures Valid()
      ensures Snapshot() == Checked(old(Snapshot()), engine.prefs, pkg, now, home)
      ensures lastActivePackage == old(lastActivePackage) && holding == old(holding) && relaunches == old(relaunches)
    {
      ConsistentChecked(Snapshot(), engine.prefs, pkg, now, home);
      var isZenActive := GetOrElse(engine.prefs.active, false);
      if !isZenActive {
        pendingRemoval := None;
        return;
      }
      var blockedPackages := GetOrElse(engine.prefs.blockedPackages, {});
      var normalizedBlocked := set b | b in blockedPackages :: NormalizePackageName(b);
      var isBlocked := pkg in normalizedBlocked;
      if isBlocked {
        pendingRemoval := None;
        effects := effects + [AudioPlayed];
        blockTasks := blockTasks + 1;
      } else {
        var isHome := home.Some? && NormalizePackageName(home.value) == pkg;
        if overlayView.Some? && (isHome || now < suppressRemoveUntilMs) {
          return;
        }
        pendingRemoval := Some(now + REMOVE_OVERLAY_DELAY_MS);
      }
    }

    method OnSharedPreferenceChanged(key: Option<string>, now: int, home: Option<string>)
      requires Valid()
      modifies this
      ensures Valid()
      ensures Snapshot() == PrefChanged(old(Snapshot()), engine.prefs, key, lastActivePackage, now, home)
      ensures lastActivePackage == old(lastActivePackage) && holding == old(holding) && relaunches == old(relaunches)
    {
      if key == Some(ZEN_ACTIVE_KEY) {
        var isActive := GetOrElse(engine.prefs.active, false);
        pendingRemoval := None;
        if isActive {
          CheckAndBlock(lastActivePackage, now, home);
        } else {
          RemoveOverlayGracefully();
        }
      } else if key == Some(BLOCKED_PACKAGES_KEY) {
        pendingRemoval := None;
        if GetOrElse(engine.prefs.active, false) && lastActivePackage != "" {
          CheckAndBlock(lastActivePackage, now, home);
        }
      }
    }

    /** The main-thread task blockApp posted. */
    method RunBlockTask(now: int, attachOk: bool)
      requires Valid() && blockTasks > 0
      modifies this
      ensures Valid()
      ensures Snapshot() == BlockTaskRun(old(Snapshot()), engine.prefs, now, attachOk)
      ensures lastActivePackage == old(lastActivePackage) && holding == old(holding) && relaunches == old(relaunches)
    {
      ConsistentBlockTaskRun(Snapshot(), engine.prefs, now, attachOk);
      blockTasks := blockTasks - 1;
      suppressRemoveUntilMs := now + HOME_TRANSITION_GRACE_MS;
      if overlayView.Some? || removing.Some? {
        effects := effects + [HomePressed];
        return;
      }
      var added := SetupOverlay(attachOk);
      if !added {
        retries := retries + 1;
      }
      effects := effects + [HomePressed];
    }

    /** The retry posted 150 ms after a refused attach. */
    method RunRetry(attachOk: bool)
      requires Valid() && retries > 0
      modifies this
      ensures Valid()
      ensures Snapshot() == RetryRun(old(Snapshot()), engine.prefs, attachOk)
      ensures lastActivePackage == old(lastActivePackage) && holding == old(holding) && relaunches == old(relaunches)
    {
      ConsistentRetryRun(Snapshot(), engine.prefs, attachOk);
      retries := retries - 1;
      if overlayView.None? {
        var _ := SetupOverlay(attachOk);
      }
    }

    /** setupOverlay: true when the window manager took the view. */
    method SetupOverlay(attachOk: bool) returns (added: bool)
      requires overlayView.None?
      modifies this
      ensures added == attachOk
      ensures Snapshot() == WithOverlay(old(Snapshot()), engine.prefs, attachOk)
      ensures lastActivePackage == old(lastActivePackage) && holding == old(holding) && relaunches == old(relaunches)
    {
      var v := nextView;
      nextView := nextView + 1;
      overlayView := Some(v);
      var scheduleName := GetOrElse(engine.prefs.scheduleName, "");
      var isFortress := GetOrElse(engine.prefs.fortress, false);
      var content := ContentOf(scheduleName, isFortress);
      if !isFortress {
        exitViews := exitViews + {v};
      }
      if attachOk {
        attached := attached + {v};
        effects := effects + [OverlayAttached(v, content)];
        return true;
      }
      effects := effects + [AttachFailed(v)];
      overlayView := None;
      return false;
    }

    /** The debounced removal fires. */
    method RunPendingRemoval()
      requires Valid() && pendingRemoval.Some?
      modifies this
      ensures Valid()
      ensures Snapshot() == PendingRemovalRun(old(Snapshot()))
      ensures lastActivePackage == old(lastActivePackage) && holding == old(holding) && relaunches == old(relaunches)
    {
      pendingRemoval := None;
      RemoveOverlayGracefully();
    }

    method RemoveOverlayGracefully()
      requires Valid()
      modifies this
      ensures Valid()
      ensures Snapshot() == Removed(old(Snapshot()))
      ensures lastActivePackage == old(lastActivePackage) && holding == old(holding) && relaunches == old(relaunches)
    {
      ConsistentRemoved(Snapshot());
      if removing.Some? {
        return;
      }
      pendingRemoval := None;
      if overlayView.None? {
        return;
      }
      var viewToRemove := overlayView.value;
      overlayView := None;
      removing := Some(viewToRemove);
    }

    /** The fade-out ends, or the animator could not start: the view is removed and the flag cleared. */
    method RunRemovalTask()
      requires Valid() && removing.Some?
      modifies this
      ensures Valid()
      ensures Snapshot() == RemovalTaskRun(old(Snapshot()))
      ensures old(removing.value in attached)
      ensures lastActivePackage == old(lastActivePackage) && holding == old(holding) && relaunches == old(relaunches)
    {
      ConsistentRemovalTaskRun(Snapshot());
      var viewToRemove := removing.value;
      attached := attached - {viewToRemove};
      effects := effects + [OverlayRemoved(viewToRemove)];
      removing := None;
    }

    /** ACTION_DOWN on the exit button of an overlay on the screen starts the ten-second timer. */
    method HoldDown(v: nat)
      requires Valid() && v in attached && v in exitViews
      modifies this
      ensures Valid()
      ensures holding == old(holding) + {v}
      ensures Snapshot() == old(Snapshot()).(effects := old(effects) + [HoldStarted(v)])
      ensures lastActivePackage == old(lastActivePackage) && relaunches == old(relaunches)
    {
      holding := holding + {v};
      effects := effects + [HoldStarted(v)];
    }

    /** onTick: the bar width and the whole seconds left. */
    method HoldTick(v: nat, millisLeft: int)
      requires Valid() && v in holding && 0 <= millisLeft <= HOLD_MILLIS
      modifies this
      ensures Valid()
      ensures Snapshot() == old(Snapshot()).(effects := old(effects) + [HoldProgress(v, HoldProgressPx(millisLeft), SecondsLeft(millisLeft))])
      ensures holding == old(holding) && lastActivePackage == old(lastActivePackage) && relaunches == old(relaunches)
    {
      effects := effects + [HoldProgress(v, HoldProgressPx(millisLeft), SecondsLeft(millisLeft))];
    }

    /** ACTION_UP or ACTION_CANCEL: the timer is cancelled and the bar reset. */
    method HoldRelease(v: nat)
      requires Valid() && v in exitViews
      modifies this
      ensures Valid()
      ensures holding == old(holding) - {v}
      ensures Snapshot() == old(Snapshot()).(effects := old(effects) + [HoldReset(v)])
      ensures lastActivePackage == old(lastActivePackage) && relaunches == old(relaunches)
    {
      holding := holding - {v};
      effects := effects + [HoldReset(v)];
    }

    /**
     * onFinish: clears the Zen flag, stops the zenox engine's session and
     * posts the relaunch of the last package 300 ms ahead.
     */
    method HoldFinish(v: nat)
      requires Valid() && v in holding
      modifies this, engine
      ensures Valid()
      ensures holding == old(holding) - {v}
      ensures Snapshot() == old(Snapshot()).(effects := old(effects) + [Unlocked(v)])
      ensures lastActivePackage == old(lastActivePackage) && relaunches == old(relaunches) + [lastActivePackage]
      ensures !engine.isActive && engine.prefs == WithSession(old(engine.prefs), false, 0, "", false)
      ensures !ZenActive(engine.prefs)
      ensures engine.effects == old(engine.effects) + [EndAudioPlayed, StatePersisted(false), ForegroundStopped]
      ensures engine.endTimeMs == 0 && engine.scheduleName == "" && !engine.isFortress
      ensures engine.isInitialized == old(engine.isInitialized) && engine.checkersPosted == old(engine.checkersPosted)
    {
      holding := holding - {v};
      effects := effects + [Unlocked(v)];
      engine.prefs := engine.prefs.(active := Some(false));
      engine.StopZen();
      relaunches := relaunches + [lastActivePackage];
    }

    /** The posted relaunch: starts the package when it has a launch intent. */
    method RunRelaunch(launchable: bool)
      requires Valid() && relaunches != []
      modifies this
      ensures Valid()
      ensures relaunches == old(relaunches[1..])
      ensures Snapshot() == old(Snapshot()).(effects := old(effects) + (if launchable then [AppRelaunched(old(relaunches)[0])] else []))
      ensures holding == old(holding) && lastActivePackage == old(lastActivePackage)
    {
      var appToRelaunch := relaunches[0];
      relaunches := relaunches[1..];
      if launchable {
        effects := effects + [AppRelaunched(appToRelaunch)];
      }
    }
  }
}
