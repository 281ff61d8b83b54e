/**
 * The second-generation zenbl blocker (com/zenbl/ZenAccessibilityService.kt).
 * It reads the session and the block list from the "ZenBlockedApps"
 * preferences the zenbl ZenEngine writes, keeps at most one overlay of its
 * own (overlayView), and takes it down with an 800 ms fade when the user
 * reaches a package that is not blocked or the session ends.  Outside
 * fortress mode the overlay carries an emergency exit: holding it for ten
 * seconds ends the session and relaunches the last package.
 *
 * The overlay bookkeeping is specified by pure transitions on an
 * `Overlays` value; the class's methods follow the source step by step and
 * are proved to compute those transitions.  The preferences are the
 * engine's `prefs` field, which this service only reads, except when the
 * hold completes.
 */
module ZenblBlocker {
  import opened Common
  import opened EngineCommon
  import opened OverlayCommon
  import ZenblEngine

  const ZEN_ACTIVE_KEY: string := "is_zen_mode_active"

  /**
   * The overlay state: the view the service considers its overlay, the
   * views the window manager holds, the next view number, the views built
   * with an emergency exit, the fade-out tasks posted to the main thread
   * (oldest first) and the outside effects.
   */
  datatype Overlays = Overlays(
    overlayView: Option<nat>, attached: set<nat>, nextView: nat,
    exitViews: set<nat>, removals: seq<nat>, effects: seq<ServiceEffect>)

  /**
   * Views are numbered as created; the current overlay has no fade-out
   * pending; and every view on the screen is either the current overlay or
   * has a fade-out coming, so no overlay window is ever left behind.
   */
  ghost predicate Consistent(s: Overlays)
  {
    && (forall v :: v in s.attached ==> v < s.nextView)
    && (forall v :: v in s.exitViews ==> v < s.nextView)
    && (forall i :: 0 <= i < |s.removals| ==> s.removals[i] < s.nextView)
    && (s.overlayView.Some? ==> s.overlayView.value < s.nextView && s.overlayView.value !in s.removals)
    && (forall v :: v in s.attached ==> s.overlayView == Some(v) || v in s.removals)
  }

  predicate ZenActive(prefs: EnginePrefs)
  {
    GetOrElse(prefs.active, false)
  }

  predicate IsBlocked(prefs: EnginePrefs, pkg: string)
  {
    pkg in GetOrElse(prefs.blockedPackages, {})
  }

  /**
   * setupOverlay: the new view becomes overlayView before the attach is
   * tried, and stays so when the window manager refuses it.
   */
  function WithOverlay(s: Overlays, prefs: EnginePrefs, attachOk: bool): (r: Overlays)
    ensures r.overlayView == Some(s.nextView) && r.nextView == s.nextView + 1
    ensures r.attached == (if attachOk then s.attached + {s.nextView} else s.attached)
    ensures !GetOrElse(prefs.fortress, false) ==> s.nextView in r.exitViews
    ensures r.removals == s.removals
  {
    var v := s.nextView;
    var content := ContentOf(GetOrElse(prefs.scheduleName, ""), GetOrElse(prefs.fortress, false));
    s.(overlayView := Some(v), nextView := v + 1,
       exitViews := if content.emergencyExit then s.exitViews + {v} else s.exitViews,
       attached := if attachOk then s.attached + {v} else s.attached,
       effects := s.effects + [if attachOk then OverlayAttached(v, content) else AttachFailed(v)])
  }

  /** blockApp: nothing while an overlay is recorded; otherwise audio, the overlay, then HOME. */
  function Blocked(s: Overlays, prefs: EnginePrefs, attachOk: bool): (r: Overlays)
    ensures r.overlayView.Some?
    ensures s.overlayView.Some? ==> r == s
  {
    if s.overlayView.Some? then s
    else
      var t := WithOverlay(s.(effects := s.effects + [AudioPlayed]), prefs, attachOk);
      t.(effects := t.effects + [HomePressed])
  }

  /** removeOverlayGracefully: clears overlayView at once and posts the fade-out of that view. */
  function Removed(s: Overlays): (r: Overlays)
    ensures r.overlayView.None?
    ensures s.overlayView.None? ==> r == s
    ensures s.overlayView.Some? ==> r.removals == s.removals + [s.overlayView.value]
    ensures r.attached == s.attached && r.effects == s.effects
  {
    match s.overlayView
    case None => s
    case Some(v) => s.(overlayView := None, removals := s.removals + [v])
  }

  /**
   * checkAndBlock: no action while Zen is inactive; a blocked package gets
   * the overlay, any other package takes it down.
   */
  function Checked(s: Overlays, prefs: EnginePrefs, pkg: string, attachOk: bool): (r: Overlays)
    ensures !ZenActive(prefs) ==> r == s
    ensures ZenActive(prefs) && IsBlocked(prefs, pkg) ==> r.overlayView.Some?
    ensures ZenActive(prefs) && !IsBlocked(prefs, pkg) ==> r.overlayView.None?
  {
    if !ZenActive(prefs) then s
    else if IsBlocked(prefs, pkg) then Blocked(s, prefs, attachOk)
    else Removed(s)
  }

  /**
   * onSharedPreferenceChanged: only the Zen flag matters; switched on, it
   * re-checks the last package, switched off, it takes the overlay down.
   */
  function PrefChanged(s: Overlays, prefs: EnginePrefs, key: Option<string>, last: string, attachOk: bool): (r: Overlays)
    ensures key != Some(ZEN_ACTIVE_KEY) ==> r == s
    ensures key == Some(ZEN_ACTIVE_KEY) && !ZenActive(prefs) ==> r.overlayView.None?
  {
    if key != Some(ZEN_ACTIVE_KEY) then s
    else if ZenActive(prefs) then Checked(s, prefs, last, attachOk)
    else Removed(s)
  }

  /**
   * The fade-out task at position i: the view leaves the task list and the
   * screen; a view that never made it to the screen makes removeView throw,
   * which is swallowed.
   */
  function RemovalRun(s: Overlays, i: nat): (r: Overlays)
    requires i < |s.removals|
    ensures r.attached == s.attached - {s.removals[i]}
    ensures |r.removals| == |s.removals| - 1
  {
    var v := s.removals[i];
    var t := s.(removals := s.removals[..i] + s.removals[i + 1..]);
    if v in s.attached then t.(attached := s.attached - {v}, effects := s.effects + [OverlayRemoved(v)])
    else t
  }

  // ---------------------------------------------------------------------------
  // Properties of the transitions
  // ---------------------------------------------------------------------------

  /** Each transition keeps the overlay state consistent: no overlay window is ever leaked. */
  lemma ConsistentBlocked(s: Overlays, prefs: EnginePrefs, attachOk: bool)
    requires Consistent(s)
    ensures Consistent(Blocked(s, prefs, attachOk))
  {
  }

  lemma ConsistentRemoved(s: Overlays)
    requires Consistent(s)
    ensures Consistent(Removed(s))
  {
  }

  lemma ConsistentChecked(s: Overlays, prefs: EnginePrefs, pkg: string, attachOk: bool)
    requires Consistent(s)
    ensures Consistent(Checked(s, prefs, pkg, attachOk))
    ensures Consistent(PrefChanged(s, prefs, Some(ZEN_ACTIVE_KEY), pkg, attachOk))
  {
    ConsistentBlocked(s, prefs, attachOk);
    ConsistentRemoved(s);
  }

  lemma ConsistentRemovalRun(s: Overlays, i: nat)
    requires Consistent(s) && i < |s.removals|
    ensures Consistent(RemovalRun(s, i))
  {
    var r := RemovalRun(s, i);
    var v := s.removals[i];
    var rest := s.removals[..i] + s.removals[i + 1..];
    assert r.removals == rest;
    forall x | x in rest
      ensures x in s.removals
    {
      var j :| 0 <= j < |rest| && rest[j] == x;
      if j < i {
        assert x == s.removals[j];
      } else {
        assert x == s.removals[j + 1];
      }
    }
    forall x | x in r.attached
      ensures r.overlayView == Some(x) || x in rest
    {
      assert x != v;
      if x in s.removals {
        var j :| 0 <= j < |s.removals| && s.removals[j] == x;
        assert j != i;
        if j < i {
          assert rest[j] == x;
        } else {
          assert rest[j - 1] == x;
        }
      }
    }
  }

  /**
   * blockApp's order: audio, then the attach (or its failure), then HOME;
   * HOME is pressed even when the attach failed.
   */
  lemma BlockOrder(s: Overlays, prefs: EnginePrefs, attachOk: bool)
    requires s.overlayView.None?
    ensures var content := ContentOf(GetOrElse(prefs.scheduleName, ""), GetOrElse(prefs.fortress, false));
            Blocked(s, prefs, attachOk).effects
              == s.effects + [AudioPlayed, if attachOk then OverlayAttached(s.nextView, content) else AttachFailed(s.nextView),
                              HomePressed]
  {
  }

  /**
   * A failed attach leaves overlayView set although nothing is on the
   * screen, so every later blocked event does nothing at all (no overlay,
   * no HOME) until a removal clears overlayView; after that the next
   * blocked event builds an overlay again.
   */
  lemma FailedAttachSticks(s: Overlays, prefs: EnginePrefs, later: EnginePrefs, pkg: string, attachOk: bool)
    requires Consistent(s) && s.overlayView.None?
    ensures var t := Blocked(s, prefs, false);
            && t.overlayView == Some(s.nextView) && s.nextView !in t.attached
            && (Checked(t, later, pkg, attachOk) == t <==> (ZenActive(later) ==> IsBlocked(later, pkg)))
  {
    var t := Blocked(s, prefs, false);
    if ZenActive(later) && !IsBlocked(later, pkg) {
      assert Checked(t, later, pkg, attachOk).overlayView.None?;
    }
  }

  lemma FailedAttachClears(s: Overlays, prefs: EnginePrefs, later: EnginePrefs)
    requires s.overlayView.None?
    ensures var u := Removed(Blocked(s, prefs, false));
            u.overlayView.None? && Blocked(u, later, true).attached == u.attached + {u.nextView}
  {
  }

  // ---------------------------------------------------------------------------
  // The service
  // ---------------------------------------------------------------------------

  class Blocker {
    var lastActivePackage: string
    var overlayView: Option<nat>
    var attached: set<nat>
    var nextView: nat
    var exitViews: set<nat>
    var removals: seq<nat>
    var effects: seq<ServiceEffect>
    /** Overlays whose ten-second hold timer is running. */
    var holding: set<nat>
    /** Relaunches posted by a completed hold, oldest first. */
    var relaunches: seq<string>
    const engine: ZenblEngine.Engine

    function Snapshot(): Overlays
      reads this
    {
      Overlays(overlayView, attached, nextView, exitViews, removals, effects)
    }

    ghost predicate Valid()
      reads this
    {
      Consistent(Snapshot()) && holding <= exitViews
    }

    constructor (engine: ZenblEngine.Engine)
      ensures Valid()
      ensures Snapshot() == Overlays(None, {}, 0, {}, [], [])
      ensures lastActivePackage == "" && holding == {} && relaunches == [] && this.engine == engine
    {
      lastActivePackage := "";
      overlayView, attached, nextView, exitViews, removals, effects := None, {}, 0, {}, [], [];
      holding, relaunches := {}, [];
      this.engine := engine;
    }

    /** onAccessibilityEvent: a window change records its package ("unknown" if none) and checks it. */
    method OnAccessibilityEvent(eventType: int, packageName: Option<string>, attachOk: bool)
      requires Valid()
      modifies this
      ensures Valid()
      ensures eventType != TYPE_WINDOW_STATE_CHANGED ==>
                Snapshot() == old(Snapshot()) && lastActivePackage == old(lastActivePackage)
      ensures eventType == TYPE_WINDOW_STATE_CHANGED ==>
                lastActivePackage == GetOrElse(packageName, UNKNOWN_PACKAGE)
                && Snapshot() == Checked(old(Snapshot()), engine.prefs, lastActivePackage, attachOk)
      ensures holding == old(holding) && relaunches == old(relaunches)
    {
      if eventType == TYPE_WINDOW_STATE_CHANGED {
        var pkg := GetOrElse(packageName, UNKNOWN_PACKAGE);
        lastActivePackage := pkg;
        CheckAndBlock(pkg, attachOk);
      }
    }

    method CheckAndBlock(pkg: string, attachOk: bool)
      requires Valid()
      modifies this
      ensures Valid()
      ensures Snapshot() == Checked(old(Snapshot()), engine.prefs, pkg, attachOk)
      ensures lastActivePackage == old(lastActivePackage) && holding == old(holding) && relaunches == old(relaunches)
    {
      var isZenActive := GetOrElse(engine.prefs.active, false);
      if !isZenActive {
        return;
      }
      var blockedPackages := GetOrElse(engine.prefs.blockedPackages, {});
      if pkg in blockedPackages {
        BlockApp(attachOk);
      } else {
        RemoveOverlayGracefully();
      }
    }

    method OnSharedPreferenceChanged(key: Option<string>, attachOk: bool)
      requires Valid()
      modifies this
      ensures Valid()
      ensures Snapshot() == PrefChanged(old(Snapshot()), engine.prefs, key, lastActivePackage, attachOk)
      ensures lastActivePackage == old(lastActivePackage) && holding == old(holding) && relaunches == old(relaunches)
    {
      if key == Some(ZEN_ACTIVE_KEY) {
        var isActive := GetOrElse(engine.prefs.active, false);
        if isActive {
          CheckAndBlock(lastActivePackage, attachOk);
        } else {
          RemoveOverlayGracefully();
        }
      }
    }

    method BlockApp(attachOk: bool)
      requires Valid()
      modifies this
      ensures Valid()
      ensures Snapshot() == Blocked(old(Snapshot()), engine.prefs, attachOk)
      ensures lastActivePackage == old(lastActivePackage) && holding == old(holding) && relaunches == old(relaunches)
    {
      ConsistentBlocked(Snapshot(), engine.prefs, attachOk);
      if overlayView.Some? {
        return;
      }
      effects := effects + [AudioPlayed];
      SetupOverlay(attachOk);
      effects := effects + [HomePressed];
    }

    method SetupOverlay(attachOk: bool)
      requires overlayView.None?
      modifies this
      ensures Snapshot() == WithOverlay(old(Snapshot()), engine.prefs, attachOk)
      ensures lastActivePackage == old(lastActivePackage) && holding == old(holding) && relaunches == old(relaunches)
    {
      var v := nextView;
      nextView := nextView + 1;
      overlayView := Some(v);
      var scheduleName := GetOrElse(engine.prefs.scheduleName, "");
      var isFortress := GetOrElse(engine.prefs.fortress, false);
      var content := ContentOf(scheduleName, isFortress);
      if !isFortress {
        exitViews := exitViews + {v};
      }
      if attachOk {
        attached := attached + {v};
        effects := effects + [OverlayAttached(v, content)];
      } else {
        effects := effects + [AttachFailed(v)];
      }
    }

    method RemoveOverlayGracefully()
      requires Valid()
      modifies this
      ensures Valid()
      ensures Snapshot() == Removed(old(Snapshot()))
      ensures lastActivePackage == old(lastActivePackage) && holding == old(holding) && relaunches == old(relaunches)
    {
      ConsistentRemoved(Snapshot());
      if overlayView.None? {
        return;
      }
      var viewToRemove := overlayView.value;
      overlayView := None;
      removals := removals + [viewToRemove];
    }

    /** The fade-out task of removals[i] reaches its end and removes the view. */
    method RunRemoval(i: nat)
      requires Valid() && i < |removals|
      modifies this
      ensures Valid()
      ensures Snapshot() == RemovalRun(old(Snapshot()), i)
      ensures lastActivePackage == old(lastActivePackage) && holding == old(holding) && relaunches == old(relaunches)
    {
      ConsistentRemovalRun(Snapshot(), i);
      var viewToRemove := removals[i];
      removals := removals[..i] + removals[i + 1..];
      if viewToRemove in attached {
        attached := attached - {viewToRemove};
        effects := effects + [OverlayRemoved(viewToRemove)];
      }
    }

    /** ACTION_DOWN on the exit button of an overlay on the screen starts the ten-second timer. */
    method HoldDown(v: nat)
      requires Valid() && v in attached && v in exitViews
      modifies this
      ensures Valid()
      ensures holding == old(holding) + {v}
      ensures Snapshot() == old(Snapshot()).(effects := old(effects) + [HoldStarted(v)])
      ensures lastActivePackage == old(lastActivePackage) && relaunches == old(relaunches)
    {
      holding := holding + {v};
      effects := effects + [HoldStarted(v)];
    }

    /** onTick: the bar width and the whole seconds left. */
    method HoldTick(v: nat, millisLeft: int)
      requires Valid() && v in holding && 0 <= millisLeft <= HOLD_MILLIS
      modifies this
      ensures Valid()
      ensures Snapshot() == old(Snapshot()).(effects := old(effects) + [HoldProgress(v, HoldProgressPx(millisLeft), SecondsLeft(millisLeft))])
      ensures 0 <= effects[|effects| - 1].widthPx <= HOLD_BAR_PX
      ensures holding == old(holding) && lastActivePackage == old(lastActivePackage) && relaunches == old(relaunches)
    {
      effects := effects + [HoldProgress(v, HoldProgressPx(millisLeft), SecondsLeft(millisLeft))];
    }

    /** ACTION_UP or ACTION_CANCEL: the timer is cancelled and the bar reset. */
    method HoldRelease(v: nat)
      requires Valid() && v in exitViews
      modifies this
      ensures Valid()
      ensures holding == old(holding) - {v}
      ensures Snapshot() == old(Snapshot()).(effects := old(effects) + [HoldReset(v)])
      ensures lastActivePackage == old(lastActivePackage) && relaunches == old(relaunches)
    {
      holding := holding - {v};
      effects := effects + [HoldReset(v)];
    }

    /**
     * onFinish: clears the Zen flag in the preferences, stops the zenbl
     * engine's session and posts the relaunch of the last package 300 ms
     * ahead.  The overlay itself is left to the preference listener.
     */
    method HoldFinish(v: nat)
      requires Valid() && v in holding
      modifies this, engine
      ensures Valid()
      ensures holding == old(holding) - {v}
      ensures Snapshot() == old(Snapshot()).(effects := old(effects) + [Unlocked(v)])
      ensures lastActivePackage == old(lastActivePackage) && relaunches == old(relaunches) + [lastActivePackage]
      ensures !engine.isActive && engine.prefs == WithSession(old(engine.prefs), false, 0, "", false)
      ensures !ZenActive(engine.prefs)
      ensures engine.effects == old(engine.effects) + [EndAudioPlayed, StatePersisted(false), ForegroundStopped]
      ensures engine.endTimeMs == 0 && engine.scheduleName == "" && !engine.isFortress
      ensures engine.checkersPosted == old(engine.checkersPosted) && engine.pendingSyncs == old(engine.pendingSyncs)
    {
      holding := holding - {v};
      effects := effects + [Unlocked(v)];
      engine.prefs := engine.prefs.(active := Some(false));
      engine.StopZen();
      relaunches := relaunches + [lastActivePackage];
    }

    /** The posted relaunch: starts the package when it has a launch intent. */
    method RunRelaunch(launchable: bool)
      requires Valid() && relaunches != []
      modifies this
      ensures Valid()
      ensures relaunches == old(relaunches[1..])
      ensures Snapshot() == old(Snapshot()).(effects := old(effects) + (if launchable then [AppRelaunched(old(relaunches)[0])] else []))
      ensures holding == old(holding) && lastActivePackage == old(lastActivePackage)
    {
      var appToRelaunch := relaunches[0];
      relaunches := relaunches[1..];
      if launchable {
        effects := effects + [AppRelaunched(appToRelaunch)];
      }
    }
  }
}
