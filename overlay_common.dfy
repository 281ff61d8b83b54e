/**
 * What the three blocking accessibility services share about their
 * full-screen overlay: the one event type they listen to, the fade-out
 * curve of a removed overlay, what the overlay shows, and the ten-second
 * emergency-exit hold of the two Kotlin services (com/zenbl and com/zenox
 * ZenAccessibilityService.kt carry the same hold code).
 */
module OverlayCommon {
  import opened Common

  /** AccessibilityEvent.TYPE_WINDOW_STATE_CHANGED. */
  const TYPE_WINDOW_STATE_CHANGED: int := 0x20

  /** The package of an event; an event without one is reported as "unknown". */
  const UNKNOWN_PACKAGE: string := "unknown"

  // ---------------------------------------------------------------------------
  // Fade-out ("puff") curve
  // ---------------------------------------------------------------------------

  /** Window alpha at animation progress p: 1 - p. */
  function FadeAlpha(p: real): (a: real)
    ensures 0.0 <= p <= 1.0 ==> 0.0 <= a <= 1.0
    ensures p == 0.0 ==> a == 1.0
    ensures p == 1.0 ==> a == 0.0
  {
    1.0 - p
  }

  /** View scale at animation progress p: 1 + p / 2. */
  function FadeScale(p: real): (s: real)
    ensures 0.0 <= p <= 1.0 ==> 1.0 <= s <= 1.5
    ensures p == 0.0 ==> s == 1.0
    ensures p == 1.0 ==> s == 1.5
  {
    1.0 + p * 0.5
  }

  /** As the animation advances the overlay only fades and only grows, and scale is tied to alpha. */
  lemma FadeMonotone(p: real, q: real)
    requires p <= q
    ensures FadeAlpha(q) <= FadeAlpha(p)
    ensures FadeScale(p) <= FadeScale(q)
    ensures FadeScale(q) == 1.5 - FadeAlpha(q) / 2.0
  {
  }

  // ---------------------------------------------------------------------------
  // Overlay content
  // ---------------------------------------------------------------------------

  /**
   * The variable part of the overlay the Kotlin services build: the
   * "Blocked by: <name>" caption when a schedule name is stored, and the
   * emergency-exit button outside fortress mode.
   */
  datatype OverlayContent = OverlayContent(caption: Option<string>, emergencyExit: bool)

  function ContentOf(scheduleName: string, fortress: bool): (c: OverlayContent)
    ensures c.caption.Some? <==> scheduleName != ""
    ensures c.caption.Some? ==> c.caption.value == "Blocked by: " + scheduleName
    ensures c.emergencyExit <==> !fortress
  {
    OverlayContent(if scheduleName != "" then Some("Blocked by: " + scheduleName) else None, !fortress)
  }

  /**
   * What the Kotlin services do outside their own fields, oldest first.
   * Views are numbered in the order the services create them.
   */
  datatype ServiceEffect =
    | AudioPlayed
    | OverlayAttached(view: nat, content: OverlayContent)
    | AttachFailed(view: nat)
    | HomePressed
    | OverlayRemoved(view: nat)
    | HoldStarted(view: nat)
    | HoldProgress(view: nat, widthPx: int, secondsLeft: int)
    | HoldReset(view: nat)
    | Unlocked(view: nat)
    | AppRelaunched(packageName: string)

  // ---------------------------------------------------------------------------
  // Emergency-exit hold
  // ---------------------------------------------------------------------------

  /** The hold lasts 10 s; the progress bar is 600 px wide; the relaunch waits 300 ms. */
  const HOLD_MILLIS: int := 10000
  const HOLD_BAR_PX: int := 600
  const RELAUNCH_DELAY_MS: int := 300

  /**
   * onTick: the width of the progress fill, elapsed / 10000 * 600 cut
   * toward zero, where elapsed = 10000 - millisLeft.
   */
  function HoldProgressPx(millisLeft: int): (px: int)
    ensures 0 <= millisLeft <= HOLD_MILLIS ==> 0 <= px <= HOLD_BAR_PX
    ensures 0 <= millisLeft <= HOLD_MILLIS ==>
              px * HOLD_MILLIS <= (HOLD_MILLIS - millisLeft) * HOLD_BAR_PX < (px + 1) * HOLD_MILLIS
  {
    TruncDiv((HOLD_MILLIS - millisLeft) * HOLD_BAR_PX, HOLD_MILLIS)
  }

  /** The bar only grows while the timer counts down, and is full when nothing is left. */
  lemma HoldProgressMonotone(before: int, after: int)
    requires 0 <= after <= before <= HOLD_MILLIS
    ensures HoldProgressPx(before) <= HoldProgressPx(after)
    ensures HoldProgressPx(0) == HOLD_BAR_PX && HoldProgressPx(HOLD_MILLIS) == 0
  {
  }

  /** onTick: the whole seconds shown, millisLeft / 1000 + 1, so a partial second counts as one. */
  function SecondsLeft(millisLeft: int): (s: int)
    ensures millisLeft >= 0 ==> (s - 1) * 1000 <= millisLeft < s * 1000
    ensures 0 <= millisLeft < HOLD_MILLIS ==> 1 <= s <= 10
  {
    TruncDiv(millisLeft, 1000) + 1
  }
}
