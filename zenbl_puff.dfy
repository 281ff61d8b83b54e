/**
 * The first-generation zenbl blocker (com/zenbl/ZenAccessibilityService.java,
 * the "puff edition"): on every window change to a package in the stored
 * block list it plays a sound, lays a full-screen overlay over the screen,
 * presses HOME underneath it, and one second later lets the overlay
 * expand and fade for three seconds before it is taken off the screen
 * 3.1 seconds after the fade started.
 *
 * It keeps no record of a session: every matching event adds one more
 * overlay, whether or not an earlier one is still showing.  The window
 * manager, the audio player and the main-thread handler are outside the
 * model; each callback the handler or the animator delivers is a method
 * of its own, and each framework call that can throw is a boolean input.
 */
module PuffService {
  import opened Common
  import opened OverlayCommon
  import opened EngineCommon

  const PUFF_DELAY_MS: int := 1000
  const PUFF_DURATION_MS: int := 3000
  const REMOVAL_DELAY_MS: int := 3100

  /**
   * onAccessibilityEvent's decision: a window-state change whose package
   * ("unknown" when the event has none) is in the stored set, an absent
   * set counting as empty.
   */
  predicate Triggers(eventType: int, packageName: Option<string>, stored: Option<set<string>>)
  {
    eventType == TYPE_WINDOW_STATE_CHANGED && GetOrElse(packageName, UNKNOWN_PACKAGE) in GetOrElse(stored, {})
  }

  /** Other event types never block; a window change blocks exactly the stored packages. */
  lemma TriggersIff(eventType: int, packageName: Option<string>, stored: Option<set<string>>)
    ensures eventType != TYPE_WINDOW_STATE_CHANGED ==> !Triggers(eventType, packageName, stored)
    ensures stored.None? ==> !Triggers(eventType, packageName, stored)
    ensures eventType == TYPE_WINDOW_STATE_CHANGED && packageName.Some? && stored.Some? ==>
              (Triggers(eventType, packageName, stored) <==> packageName.value in stored.value)
    ensures Triggers(eventType, None, stored) <==>
              eventType == TYPE_WINDOW_STATE_CHANGED && stored.Some? && UNKNOWN_PACKAGE in stored.value
  {
  }

  /** What the service does outside its fields, oldest first. */
  datatype PuffEffect =
    | Audio
    | Attached(view: nat)
    | AttachRefused(view: nat)
    | Home
    | PuffStarted(view: nat)
    | PuffNotStarted(view: nat)
    | Frame(view: nat, alpha: real, scale: real)
    | PuffCancelled(view: nat)
    | Removed(view: nat)

  /** The one main-thread task pending for an attached overlay. */
  datatype Pending = PuffAt(due: int) | RemovalAt(due: int)

  /** blockAppSequence's effects for overlay `v`: audio, then the attach, then HOME only if it took. */
  function SequenceEffects(v: nat, attachOk: bool): (r: seq<PuffEffect>)
    ensures 2 <= |r| <= 3 && r[0] == Audio
    ensures Home in r <==> attachOk
    ensures attachOk ==> r[1] == Attached(v) && r[2] == Home
    ensures !attachOk ==> r[1] == AttachRefused(v)
  {
    if attachOk then [Audio, Attached(v), Home] else [Audio, AttachRefused(v)]
  }

  class Blocker {
    /** The number the next overlay view gets. */
    var nextView: nat
    /** Overlays on the screen. */
    var attached: set<nat>
    /** Overlays whose fade animation is running. */
    var animating: set<nat>
    /** The task posted for each attached overlay: its puff start, then its removal. */
    var pending: map<nat, Pending>
    var effects: seq<PuffEffect>

    /** Every overlay on the screen has exactly one task coming, so none is left behind. */
    ghost predicate Valid()
      reads this
    {
      && (forall v :: v in attached ==> v < nextView)
      && (forall v :: v in animating ==> v < nextView)
      && pending.Keys == attached
    }

    constructor ()
      ensures Valid()
      ensures nextView == 0 && attached == {} && animating == {} && pending == map[] && effects == []
    {
      nextView, attached, animating, pending, effects := 0, {}, {}, map[], [];
    }

    /** onAccessibilityEvent: runs blockAppSequence for a triggering event and ignores every other. */
    method OnAccessibilityEvent(eventType: int, packageName: Option<string>, stored: Option<set<string>>,
                                attachOk: bool, now: int)
      requires Valid()
      modifies this
      ensures Valid()
      ensures !Triggers(eventType, packageName, stored) ==>
                nextView == old(nextView) && attached == old(attached) && pending == old(pending) && effects == old(effects)
      ensures Triggers(eventType, packageName, stored) ==>
                nextView == old(nextView) + 1 && effects == old(effects) + SequenceEffects(old(nextView), attachOk)
      ensures Triggers(eventType, packageName, stored) && attachOk ==>
                attached == old(attached) + {old(nextView)}
                && pending == old(pending)[old(nextView) := PuffAt(now + PUFF_DELAY_MS)]
      ensures Triggers(eventType, packageName, stored) && !attachOk ==>
                attached == old(attached) && pending == old(pending)
      ensures animating == old(animating)
    {
      var pkg := GetOrElse(packageName, UNKNOWN_PACKAGE);
      var blocked := GetOrElse(stored, {});
      if eventType == TYPE_WINDOW_STATE_CHANGED && pkg in blocked {
        BlockAppSequence(attachOk, now);
      }
    }

    /**
     * blockAppSequence: a new overlay every time.  An attach the window
     * manager refuses ends the sequence before HOME and before any task is
     * posted; otherwise the puff is posted one second ahead.
     */
    method BlockAppSequence(attachOk: bool, now: int)
      requires Valid()
      modifies this
      ensures Valid()
      ensures nextView == old(nextView) + 1 && old(nextView) !in old(attached)
      ensures effects == old(effects) + SequenceEffects(old(nextView), attachOk)
      ensures attachOk ==> attached == old(attached) + {old(nextView)}
                           && pending == old(pending)[old(nextView) := PuffAt(now + PUFF_DELAY_MS)]
      ensures !attachOk ==> attached == old(attached) && pending == old(pending)
      ensures animating == old(animating)
    {
      var v := nextView;
      nextView := nextView + 1;
      effects := effects + [Audio];
      if !attachOk {
        effects := effects + [AttachRefused(v)];
        return;
      }
      attached := attached + {v};
      effects := effects + [Attached(v), Home];
      pending := pending[v := PuffAt(now + PUFF_DELAY_MS)];
    }

    /**
     * The delayed puff task: starts the three-second fade when the animator
     * can be started, and in every case posts the removal 3.1 s ahead.
     */
    method RunPuff(v: nat, animOk: bool, now: int)
      requires Valid() && v in pending && pending[v].PuffAt?
      modifies this
      ensures Valid()
      ensures pending == old(pending)[v := RemovalAt(now + REMOVAL_DELAY_MS)]
      ensures animating == (if animOk then old(animating) + {v} else old(animating))
      ensures effects == old(effects) + [if animOk then PuffStarted(v) else PuffNotStarted(v)]
      ensures nextView == old(nextView) && attached == old(attached)
    {
      if animOk {
        animating := animating + {v};
        effects := effects + [PuffStarted(v)];
      } else {
        effects := effects + [PuffNotStarted(v)];
      }
      pending := pending[v := RemovalAt(now + REMOVAL_DELAY_MS)];
    }

    /**
     * One animation frame at progress p: applies alpha 1 - p and scale
     * 1 + p / 2, or cancels the animation when the layout update throws.
     * The removal task is not touched either way.
     */
    method OnAnimationFrame(v: nat, p: real, updateOk: bool)
      requires Valid() && v in animating && 0.0 <= p <= 1.0
      modifies this
      ensures Valid()
      ensures updateOk ==> animating == old(animating) && effects == old(effects) + [Frame(v, FadeAlpha(p), FadeScale(p))]
      ensures !updateOk ==> animating == old(animating) - {v} && effects == old(effects) + [PuffCancelled(v)]
      ensures pending == old(pending) && attached == old(attached) && nextView == old(nextView)
      ensures updateOk ==> 0.0 <= effects[|effects| - 1].alpha <= 1.0 && 1.0 <= effects[|effects| - 1].scale <= 1.5
    {
      if updateOk {
        effects := effects + [Frame(v, FadeAlpha(p), FadeScale(p))];
      } else {
        animating := animating - {v};
        effects := effects + [PuffCancelled(v)];
      }
    }

    /** The animator reaches the end of its three seconds. */
    method OnAnimationEnd(v: nat)
      requires Valid() && v in animating
      modifies this
      ensures Valid()
      ensures animating == old(animating) - {v}
      ensures pending == old(pending) && attached == old(attached) && nextView == old(nextView) && effects == old(effects)
    {
      animating := animating - {v};
    }

    /**
     * The delayed removal task.  Its failures are swallowed in the source;
     * here every removal task belongs to an overlay still on the screen,
     * so it always takes the overlay off.
     */
    method RunRemoval(v: nat)
      requires Valid() && v in pending && pending[v].RemovalAt?
      modifies this
      ensures Valid()
      ensures old(v in attached) && attached == old(attached) - {v}
      ensures pending == old(pending) - {v}
      ensures effects == old(effects) + [Removed(v)]
      ensures animating == old(animating) && nextView == old(nextView)
    {
      attached := attached - {v};
      pending := pending - {v};
      effects := effects + [Removed(v)];
    }
  }
}
