/**
 * ZenoxOverlayService: the foreground service that puts the Zenox block
 * screen over a blocked app.  It shows the app's name, how often it was
 * opened today and the time saved today, and offers an emergency break of
 * a chosen length behind a five-second press-and-hold.
 *
 * The window manager, the package manager, the usage-stats query and the
 * main-thread handler are outside the model: what they answer is a
 * parameter (a `bool` for "did not throw", an `Option` for "answered"),
 * each task the handler runs and each callback of the hold animator is a
 * method of its own, and what the service does to the outside world is
 * appended to `effects`.
 */
module OverlayService {
  import opened Common
  import Sorting
  import ZenoxBridge

  const EMERGENCY_HOLD_MS: int := 5000
  /** The shortest hold animation, however far an earlier press got. */
  const MIN_HOLD_ANIMATION_MS: int := 120
  /** The "Hold 5s" hint fades in one second into a press. */
  const HOLD_HINT_DELAY_MS: int := 1000
  /** The hold counts as complete from this progress on. */
  const BREAK_THRESHOLD: real := 0.999

  /** The emergency-break lengths offered, in milliseconds, with their labels. */
  const BREAK_OPTIONS: seq<(int, string)> :=
    [(30_000, "30s"), (60_000, "1m"), (120_000, "2m"), (180_000, "3m"), (300_000, "5m")]
  /** The label shown for a length that is not among the options. */
  const FALLBACK_LABEL: string := "5m"
  const HOLD_HINT_PREFIX: string := "Hold 5s to unlock for "

  const ACTION_SHOW: string := "com.zenox.engine.action.OVERLAY_SHOW"
  const ACTION_HIDE: string := "com.zenox.engine.action.OVERLAY_HIDE"
  const DEFAULT_APP_NAME: string := "This app"
  /** The hint the "Take 3 deep breaths instead" action shows. */
  const BREATH_HINT: string := "Inhale 4s - Hold 4s - Exhale 6s"

  // ---------------------------------------------------------------------
  // What the block screen shows
  // ---------------------------------------------------------------------

  predicate IsBreakOption(durationMillis: int)
  {
    exists i :: 0 <= i < |BREAK_OPTIONS| && BREAK_OPTIONS[i].0 == durationMillis
  }

  /** The label of a break length: the option's own label, "5m" for any other length. */
  function BreakLabel(durationMillis: int): (text: string)
    ensures forall i :: 0 <= i < |BREAK_OPTIONS| && BREAK_OPTIONS[i].0 == durationMillis ==>
              text == BREAK_OPTIONS[i].1
    ensures !IsBreakOption(durationMillis) ==> text == FALLBACK_LABEL
  {
    match Sorting.FirstIndex(BREAK_OPTIONS, (o: (int, string)) => o.0 == durationMillis)
    case Some(i) => BREAK_OPTIONS[i].1
    case None => FALLBACK_LABEL
  }

  /**
   * The name on the block screen: "This app" for a missing or blank
   * package; otherwise the app's trimmed label, or the package itself when
   * the label is blank or the lookup threw (`appLabel` is None).
   */
  function ResolveAppDisplayName(packageName: Option<string>, appLabel: Option<string>): (name: string)
    ensures !IsBlank(name)
    ensures (packageName.None? || IsBlank(packageName.value)) ==> name == DEFAULT_APP_NAME
    ensures packageName.Some? && !IsBlank(packageName.value) ==>
              name == packageName.value || (appLabel.Some? && name == Trim(appLabel.value))
    ensures (packageName.Some? && !IsBlank(packageName.value) && appLabel.Some? && !IsBlank(appLabel.value)) ==>
              name == Trim(appLabel.value)
    ensures (packageName.Some? && !IsBlank(packageName.value) && (appLabel.None? || IsBlank(appLabel.value))) ==>
              name == packageName.value
  {
    if packageName.None? || IsBlank(packageName.value) then
      assert !IsWhitespace(DEFAULT_APP_NAME[0]);
      DEFAULT_APP_NAME
    else if appLabel.None? then
      packageName.value
    else
      BlankIffTrimEmpty(appLabel.value);
      TrimIdempotent(appLabel.value);
      BlankIffTrimEmpty(Trim(appLabel.value));
      if !IsBlank(Trim(appLabel.value)) then Trim(appLabel.value) else packageName.value
  }

  /**
   * countBlockedAttemptsToday: the package's move-to-foreground events
   * since midnight.  `events` is None when the usage-stats service is
   * missing or the query throws; that and a missing or blank package give 0.
   */
  method CountBlockedAttemptsToday(packageName: Option<string>, events: Option<seq<ZenoxBridge.UsageEvent>>)
    returns (attempts: nat)
    ensures (packageName.None? || IsBlank(packageName.value) || events.None?) ==> attempts == 0
    ensures (packageName.Some? && !IsBlank(packageName.value) && events.Some?) ==>
              attempts == ZenoxBridge.CountAttempts(events.value, packageName.value)
  {
    if packageName.None? || IsBlank(packageName.value) || events.None? {
      return 0;
    }
    var evs, pkg := events.value, packageName.value;
    attempts := 0;
    var i := 0;
    while i < |evs|
      invariant 0 <= i <= |evs|
      invariant attempts == ZenoxBridge.CountAttempts(evs[..i], pkg)
    {
      assert evs[..i + 1][..i] == evs[..i];
      if evs[i].packageName == pkg && evs[i].moveToForeground {
        attempts := attempts + 1;
      }
      i := i + 1;
    }
    assert evs[..|evs|] == evs;
  }

  /** "attempt" for exactly one, "attempts" for every other count. */
  function AttemptsNoun(count: int): (noun: string)
    ensures noun == "attempt" <==> count == 1
    ensures noun == "attempt" || noun == "attempts"
  {
    if count == 1 then "attempt" else "attempts"
  }

  /** The texts of a block screen. */
  datatype OverlayCard = OverlayCard(appName: string, attempts: nat, attemptsNoun: string, savedToday: string, hint: string)

  // ---------------------------------------------------------------------
  // The press-and-hold animation
  // ---------------------------------------------------------------------

  /** Float.toLong(): truncation toward zero. */
  function TruncToLong(x: real): (n: int)
    ensures x >= 0.0 ==> n as real <= x < (n + 1) as real
    ensures x < 0.0 ==> (n - 1) as real < x <= n as real
  {
    if x >= 0.0 then x.Floor else -((-x).Floor)
  }

  /**
   * The length of a hold animation started at progress `start`: the
   * remaining share of five seconds, cut to whole milliseconds, and never
   * under 120 ms.
   */
  function HoldDurationMs(start: real): (ms: int)
    ensures ms >= MIN_HOLD_ANIMATION_MS
    ensures 0.0 <= start <= 1.0 ==> ms <= EMERGENCY_HOLD_MS
    ensures start == 0.0 ==> ms == EMERGENCY_HOLD_MS
    ensures (0.0 <= start <= 1.0 && ms > MIN_HOLD_ANIMATION_MS) ==>
              ms as real <= (1.0 - start) * (EMERGENCY_HOLD_MS as real) < (ms + 1) as real
  {
    Max(TruncToLong((1.0 - start) * (EMERGENCY_HOLD_MS as real)), MIN_HOLD_ANIMATION_MS)
  }

  /** A press that resumes further along never animates for longer. */
  lemma HoldDurationMonotone(p: real, q: real)
    requires p <= q
    ensures HoldDurationMs(q) <= HoldDurationMs(p)
  {
    var x, y := (1.0 - q) * (EMERGENCY_HOLD_MS as real), (1.0 - p) * (EMERGENCY_HOLD_MS as real);
    assert x <= y;
    if x >= 0.0 {
      assert x.Floor <= y.Floor;
    } else if y < 0.0 {
      assert (-y).Floor <= (-x).Floor;
    }
  }

  /** A running or finished hold animation, from `from` to 1. */
  datatype Animator = Animator(from: real, durationMs: int, running: bool)

  // ---------------------------------------------------------------------
  // The service
  // ---------------------------------------------------------------------

  /** What the service does outside its fields, oldest first. */
  datatype OverlayEffect =
    | ViewAttached(view: nat, card: OverlayCard)
    | AttachFailed(view: nat)
    | ViewRemoved(view: nat)
    | SelfStopped
    | HintText(text: string)
    | HintShown
    | HintHidden
    | HoldFill(progress: real)
    | BreakRequested(durationMillis: int)
    | IntentSent(action: string)

  class Service {
    var overlayView: Option<nat>
    var nextView: nat
    /** The companion's overlayVisible flag. */
    var overlayVisible: bool
    var selectedBreakMillis: int
    var holdProgress: real
    var holdAnimator: Option<Animator>
    /** Hint tasks queued on the main thread; every press posts one. */
    var hintQueued: nat
    /** The task of the latest press is among them (showHoldHintRunnable still queued). */
    var latestHintQueued: bool
    /** Emergency-break tasks queued on the main thread. */
    var breakQueued: nat
    var effects: seq<OverlayEffect>

    /**
     * The companion flag says exactly whether a view is attached, the
     * chosen break is always one of the options, and the hold progress
     * stays within [0, 1].
     */
    ghost predicate Valid()
      reads this
    {
      && (overlayVisible <==> overlayView.Some?)
      && (overlayView.Some? ==> overlayView.value < nextView)
      && IsBreakOption(selectedBreakMillis)
      && 0.0 <= holdProgress <= 1.0
      && (holdAnimator.Some? ==>
            && 0.0 <= holdAnimator.value.from <= holdProgress
            && holdAnimator.value.durationMs == HoldDurationMs(holdAnimator.value.from))
      && (latestHintQueued ==> hintQueued >= 1)
    }

    /** The attached view, the visible flag and the view counter are as before. */
    twostate predicate ScreenKept()
      reads this
    {
      overlayView == old(overlayView) && overlayVisible == old(overlayVisible) && nextView == old(nextView)
    }

    /** The hold progress and the hold animator are as before. */
    twostate predicate HoldKept()
      reads this
    {
      holdProgress == old(holdProgress) && holdAnimator == old(holdAnimator)
    }

    /** The queued hint tasks are as before. */
    twostate predicate HintKept()
      reads this
    {
      hintQueued == old(hintQueued) && latestHintQueued == old(latestHintQueued)
    }

    /** The chosen break length and the queued break tasks are as before. */
    twostate predicate BreakKept()
      reads this
    {
      selectedBreakMillis == old(selectedBreakMillis) && breakQueued == old(breakQueued)
    }

    /**
     * The state showOverlay leaves, from the state before it: only the
     * view fields and `effects` may change, as the three cases say.
     */
    twostate predicate Shown(packageName: Option<string>, windowManagerOk: bool, attachOk: bool,
                             appLabel: Option<string>, events: Option<seq<ZenoxBridge.UsageEvent>>, savedMinutes: int)
      reads this
    {
      && (old(overlayView).Some? ==>
            overlayView == old(overlayView) && overlayVisible && effects == old(effects) && nextView == old(nextView))
      && (old(overlayView).None? && !windowManagerOk ==>
            overlayView == None && overlayVisible == old(overlayVisible) && effects == old(effects) && nextView == old(nextView))
      && (old(overlayView).None? && windowManagerOk ==> nextView == old(nextView) + 1)
      && (old(overlayView).None? && windowManagerOk && attachOk ==>
            overlayView == Some(old(nextView)) && overlayVisible
            && |effects| == |old(effects)| + 1 && effects[..|old(effects)|] == old(effects)
            && effects[|old(effects)|].ViewAttached? && effects[|old(effects)|].view == old(nextView)
            && effects[|old(effects)|].card.appName == ResolveAppDisplayName(packageName, appLabel)
            && effects[|old(effects)|].card.attempts ==
                 (if packageName.None? || IsBlank(packageName.value) || events.None? then 0
                  else ZenoxBridge.CountAttempts(events.value, packageName.value))
            && effects[|old(effects)|].card.attemptsNoun == AttemptsNoun(effects[|old(effects)|].card.attempts)
            && effects[|old(effects)|].card.savedToday == "Total time saved today: " + Base60Clock(savedMinutes)
            && effects[|old(effects)|].card.hint == HOLD_HINT_PREFIX + BreakLabel(selectedBreakMillis))
      && (old(overlayView).None? && windowManagerOk && !attachOk ==>
            overlayView == None && !overlayVisible
            && effects == old(effects) + [AttachFailed(old(nextView)), SelfStopped])
      && BreakKept() && HoldKept() && HintKept()
    }

    /**
     * The state hideOverlay leaves: no view and the flag down; with a view
     * before, its removal (when removeView did not throw) and stopSelf are
     * recorded.  Nothing else changes.
     */
    twostate predicate Hidden(removeOk: bool)
      reads this
    {
      && overlayView == None && !overlayVisible && nextView == old(nextView)
      && (old(overlayView).None? ==> effects == old(effects))
      && (old(overlayView).Some? ==>
            effects == old(effects) + (if removeOk then [ViewRemoved(old(overlayView).value)] else []) + [SelfStopped])
      && BreakKept() && HoldKept() && HintKept()
    }

    constructor ()
      ensures Valid()
      ensures overlayView == None && nextView == 0 && !overlayVisible
      ensures selectedBreakMillis == BREAK_OPTIONS[0].0 && holdProgress == 0.0 && holdAnimator == None
      ensures hintQueued == 0 && !latestHintQueued && breakQueued == 0 && effects == []
    {
      overlayView, nextView, overlayVisible := None, 0, false;
      selectedBreakMillis := BREAK_OPTIONS[0].0;
      holdProgress, holdAnimator := 0.0, None;
      hintQueued, latestHintQueued, breakQueued := 0, false, 0;
      effects := [];
    }

    /** The companion's isOverlayVisible(): whether a block screen is attached. */
    function IsOverlayVisible(): (visible: bool)
      reads this
      requires Valid()
      ensures visible <==> overlayView.Some?
    {
      overlayVisible
    }

    /** The companion's show(): always asks the service to show; a refused start is swallowed. */
    method RequestShow(startOk: bool)
      requires Valid()
      modifies this
      ensures Valid()
      ensures effects == old(effects) + (if startOk then [IntentSent(ACTION_SHOW)] else [])
      ensures ScreenKept() && HoldKept() && HintKept() && BreakKept()
    {
      if startOk {
        effects := effects + [IntentSent(ACTION_SHOW)];
      }
    }

    /** The companion's hide(): sends nothing at all while no block screen is visible. */
    method RequestHide(startOk: bool)
      requires Valid()
      modifies this
      ensures Valid()
      ensures effects == old(effects) + (if old(overlayVisible) && startOk then [IntentSent(ACTION_HIDE)] else [])
      ensures !old(overlayVisible) ==> effects == old(effects)
      ensures ScreenKept() && HoldKept() && HintKept() && BreakKept()
    {
      if !overlayVisible {
        return;
      }
      if startOk {
        effects := effects + [IntentSent(ACTION_HIDE)];
      }
    }

    /**
     * onStartCommand: ACTION_SHOW shows the block screen for the package
     * extra, ACTION_HIDE hides it, any other intent does nothing.
     */
    method OnStartCommand(action: Option<string>, packageName: Option<string>, windowManagerOk: bool, attachOk: bool,
                          removeOk: bool, appLabel: Option<string>, events: Option<seq<ZenoxBridge.UsageEvent>>,
                          savedMinutes: int)
      requires Valid()
      modifies this
      ensures Valid()
      ensures action == Some(ACTION_SHOW) ==> Shown(packageName, windowManagerOk, attachOk, appLabel, events, savedMinutes)
      ensures action == Some(ACTION_HIDE) ==> Hidden(removeOk)
      ensures action != Some(ACTION_SHOW) && action != Some(ACTION_HIDE) ==>
                effects == old(effects) && ScreenKept() && HoldKept() && HintKept() && BreakKept()
    {
      if action == Some(ACTION_SHOW) {
        ShowOverlay(packageName, windowManagerOk, attachOk, appLabel, events, savedMinutes);
      } else if action == Some(ACTION_HIDE) {
        HideOverlay(removeOk);
      }
    }

    /**
     * showOverlay.  With a view already attached it only raises the
     * visible flag.  Without a window manager it gives up.  Otherwise it
     * builds a new view and attaches it; a refused attach leaves no view,
     * lowers the flag and stops the service.
     */
    method ShowOverlay(packageName: Option<string>, windowManagerOk: bool, attachOk: bool,
                       appLabel: Option<string>, events: Option<seq<ZenoxBridge.UsageEvent>>, savedMinutes: int)
      requires Valid()
      modifies this
      ensures Valid()
      ensures Shown(packageName, windowManagerOk, attachOk, appLabel, events, savedMinutes)
    {
      if overlayView.Some? {
        overlayVisible := true;
        return;
      }
      if !windowManagerOk {
        return;
      }
      var attempts := CountBlockedAttemptsToday(packageName, events);
      var card := OverlayCard(ResolveAppDisplayName(packageName, appLabel), attempts, AttemptsNoun(attempts),
                              "Total time saved today: " + Base60Clock(savedMinutes),
                              HOLD_HINT_PREFIX + BreakLabel(selectedBreakMillis));
      AttachOverlay(card, attachOk);
    }

    /** The addView step of showOverlay for a built card: a new view, kept only when the attach succeeds. */
    method AttachOverlay(card: OverlayCard, attachOk: bool)
      requires Valid() && overlayView.None?
      modifies this
      ensures Valid()
      ensures nextView == old(nextView) + 1
      ensures attachOk ==>
                overlayView == Some(old(nextView)) && overlayVisible && effects == old(effects) + [ViewAttached(old(nextView), card)]
      ensures !attachOk ==>
                overlayView == None && !overlayVisible && effects == old(effects) + [AttachFailed(old(nextView)), SelfStopped]
      ensures BreakKept() && HoldKept() && HintKept()
    {
      var v := nextView;
      nextView := nextView + 1;
      if attachOk {
        overlayView := Some(v);
        overlayVisible := true;
        effects := effects + [ViewAttached(v, card)];
      } else {
        overlayVisible := false;
        effects := effects + [AttachFailed(v), SelfStopped];
      }
    }

    /**
     * hideOverlay: nothing without a view.  Otherwise the view is
     * detached (a throwing removeView is swallowed), the view and the
     * visible flag are cleared whatever happened, and the service stops.
     */
    method HideOverlay(removeOk: bool)
      requires Valid()
      modifies this
      ensures Valid()
      ensures Hidden(removeOk)
    {
      if overlayView.None? {
        return;
      }
      if removeOk {
        effects := effects + [ViewRemoved(overlayView.value)];
      }
      overlayView := None;
      overlayVisible := false;
      effects := effects + [SelfStopped];
    }

    /** onDestroy: drops every queued task, cancels the hold animation, hides the block screen. */
    method OnDestroy(removeOk: bool)
      requires Valid()
      modifies this
      ensures Valid()
      ensures overlayView == None && !overlayVisible && nextView == old(nextView)
      ensures effects == old(effects) + (if old(overlayView).Some? then
                                           (if removeOk then [ViewRemoved(old(overlayView).value)] else []) + [SelfStopped]
                                         else [])
      ensures holdAnimator == None && holdProgress == old(holdProgress)
      ensures hintQueued == 0 && !latestHintQueued
      ensures selectedBreakMillis == old(selectedBreakMillis)
      ensures breakQueued == (if old(holdAnimator).Some? && old(holdAnimator).value.running
                                 && old(holdProgress) >= BREAK_THRESHOLD then 1 else 0)
    {
      hintQueued, latestHintQueued, breakQueued := 0, false, 0;
      CancelHold();
      holdAnimator := None;
      HideOverlay(removeOk);
    }

    /** A press on one of the break options: selects its length and relabels the hint. */
    method SelectDuration(i: nat)
      requires Valid() && i < |BREAK_OPTIONS|
      modifies this
      ensures Valid()
      ensures selectedBreakMillis == BREAK_OPTIONS[i].0
      ensures effects == old(effects) + [HintText(HOLD_HINT_PREFIX + BREAK_OPTIONS[i].1)]
      ensures breakQueued == old(breakQueued) && ScreenKept() && HoldKept() && HintKept()
    {
      selectedBreakMillis := BREAK_OPTIONS[i].0;
      effects := effects + [HintText(HOLD_HINT_PREFIX + BreakLabel(selectedBreakMillis))];
    }

    /**
     * A click on "Take 3 deep breaths instead": the hint shows the
     * breathing rhythm, at once and fully opaque.
     */
    method BreathHint()
      requires Valid()
      modifies this
      ensures Valid()
      ensures effects == old(effects) + [HintText(BREATH_HINT), HintShown]
      ensures ScreenKept() && HoldKept() && HintKept() && BreakKept()
    {
      effects := effects + [HintText(BREATH_HINT), HintShown];
    }

    /**
     * Animator.cancel() on the hold animator: a running animator stops and
     * delivers onAnimationEnd, whose check queues the break when the
     * progress had reached the threshold.
     */
    method CancelHold()
      requires Valid()
      modifies this
      ensures Valid()
      ensures old(holdAnimator).Some? && old(holdAnimator).value.running ==>
                holdAnimator == Some(old(holdAnimator).value.(running := false))
                && breakQueued == old(breakQueued) + (if old(holdProgress) >= BREAK_THRESHOLD then 1 else 0)
      ensures !(old(holdAnimator).Some? && old(holdAnimator).value.running) ==>
                holdAnimator == old(holdAnimator) && breakQueued == old(breakQueued)
      ensures holdProgress == old(holdProgress) && effects == old(effects)
      ensures selectedBreakMillis == old(selectedBreakMillis) && ScreenKept() && HintKept()
    {
      if holdAnimator.Some? && holdAnimator.value.running {
        holdAnimator := Some(holdAnimator.value.(running := false));
        if holdProgress >= BREAK_THRESHOLD {
          breakQueued := breakQueued + 1;
        }
      }
    }

    /**
     * ACTION_DOWN on the hold button: queues the hint and starts a fresh
     * animation from the current progress to 1, after cancelling the one
     * running.
     */
    method HoldDown()
      requires Valid()
      modifies this
      ensures Valid()
      ensures hintQueued == old(hintQueued) + 1 && latestHintQueued
      ensures holdAnimator == Some(Animator(old(holdProgress), HoldDurationMs(old(holdProgress)), true))
      ensures holdProgress == old(holdProgress)
      ensures breakQueued == old(breakQueued) + (if old(holdAnimator).Some? && old(holdAnimator).value.running
                                                    && old(holdProgress) >= BREAK_THRESHOLD then 1 else 0)
      ensures old(holdProgress) < BREAK_THRESHOLD ==> breakQueued == old(breakQueued)
      ensures effects == old(effects) && selectedBreakMillis == old(selectedBreakMillis) && ScreenKept()
    {
      hintQueued := hintQueued + 1;
      latestHintQueued := true;
      CancelHold();
      holdAnimator := Some(Animator(holdProgress, HoldDurationMs(holdProgress), true));
    }

    /** One frame of the running hold animation: the progress becomes the animated value. */
    method HoldFrame(value: real)
      requires Valid() && holdAnimator.Some? && holdAnimator.value.running
      requires holdAnimator.value.from <= value <= 1.0
      modifies this
      ensures Valid()
      ensures holdProgress == value && effects == old(effects) + [HoldFill(value)]
      ensures holdAnimator == old(holdAnimator) && BreakKept() && ScreenKept() && HintKept()
    {
      holdProgress := value;
      effects := effects + [HoldFill(value)];
    }

    /** The hold animation runs its full length: the break is queued only from the threshold on. */
    method HoldAnimationEnd()
      requires Valid() && holdAnimator.Some? && holdAnimator.value.running
      modifies this
      ensures Valid()
      ensures breakQueued == old(breakQueued) + (if holdProgress >= BREAK_THRESHOLD then 1 else 0)
      ensures holdAnimator == Some(old(holdAnimator).value.(running := false))
      ensures holdProgress == old(holdProgress) && effects == old(effects)
      ensures selectedBreakMillis == old(selectedBreakMillis) && ScreenKept() && HintKept()
    {
      CancelHold();
    }

    /**
     * ACTION_UP or ACTION_CANCEL: unqueues the latest press's hint (a hint
     * of an earlier press stays queued), hides the hint, and resets the
     * hold: the cancel still runs the end check, then the progress is 0.
     */
    method HoldRelease()
      requires Valid()
      modifies this
      ensures Valid()
      ensures hintQueued == old(hintQueued) - (if old(latestHintQueued) then 1 else 0) && !latestHintQueued
      ensures holdProgress == 0.0 && holdAnimator == None
      ensures old(holdProgress) < BREAK_THRESHOLD ==> breakQueued == old(breakQueued)
      ensures breakQueued == old(breakQueued) + (if old(holdAnimator).Some? && old(holdAnimator).value.running
                                                    && old(holdProgress) >= BREAK_THRESHOLD then 1 else 0)
      ensures effects == old(effects) + [HintHidden, HoldFill(0.0)]
      ensures selectedBreakMillis == old(selectedBreakMillis) && ScreenKept()
    {
      if latestHintQueued {
        hintQueued := hintQueued - 1;
      }
      latestHintQueued := false;
      effects := effects + [HintHidden];
      CancelHold();
      holdAnimator := None;
      holdProgress := 0.0;
      effects := effects + [HoldFill(0.0)];
    }

    /** A queued hint task runs: the latest press's, or one left over from an earlier press. */
    method RunHint(latest: bool)
      requires Valid() && hintQueued > 0
      requires latest ==> latestHintQueued
      requires !latest ==> hintQueued > (if latestHintQueued then 1 else 0)
      modifies this
      ensures Valid()
      ensures hintQueued == old(hintQueued) - 1
      ensures latestHintQueued == (old(latestHintQueued) && !latest)
      ensures effects == old(effects) + [HintShown]
      ensures ScreenKept() && HoldKept() && BreakKept()
    {
      hintQueued := hintQueued - 1;
      if latest {
        latestHintQueued := false;
      }
      effects := effects + [HintShown];
    }

    /** The queued emergency-break task: asks for a break of the selected length, then hides. */
    method RunBreak(removeOk: bool)
      requires Valid() && breakQueued > 0
      modifies this
      ensures Valid()
      ensures breakQueued == old(breakQueued) - 1
      ensures old(overlayView).Some? ==>
                effects == old(effects) + [BreakRequested(old(selectedBreakMillis))]
                           + (if removeOk then [ViewRemoved(old(overlayView).value)] else []) + [SelfStopped]
      ensures old(overlayView).None? ==> effects == old(effects) + [BreakRequested(old(selectedBreakMillis))]
      ensures IsBreakOption(old(selectedBreakMillis))
      ensures overlayView == None && !overlayVisible && nextView == old(nextView)
      ensures selectedBreakMillis == old(selectedBreakMillis) && HoldKept() && HintKept()
    {
      breakQueued := breakQueued - 1;
      effects := effects + [BreakRequested(selectedBreakMillis)];
      HideOverlay(removeOk);
    }
  }
}
