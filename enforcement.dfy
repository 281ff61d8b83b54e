/**
 * The enforcement decision of the zenox and zentox accessibility services
 * (ZenoxAccessibilityService.kt and ZentoxAccessibilityService.kt): which
 * foreground packages are blocked, when the running session is enforced,
 * the 700 ms cooldown that keeps the service from redirecting the same app
 * in a loop, and what one accessibility event leads to.
 *
 * The two generations share every step except the block lookup: zenox lets
 * the active focus profile, when it lists any package, decide on its own;
 * zentox only reads the database row.
 */
module Enforcement {
  import opened Common
  import opened ZentoxState
  import opened AppDatabase
  import opened SessionManager

  const COOLDOWN_MILLIS: int := 700
  const SYSTEM_UI_PACKAGE: string := "com.android.systemui"

  // ---------------------------------------------------------------------------
  // EnforcementLoopGuard
  // ---------------------------------------------------------------------------

  /** A rapid repeat: the same package as the last redirect, less than the cooldown after it. */
  predicate RapidRepeat(last: Option<string>, lastAt: int, cooldown: int, pkg: string, now: int)
  {
    last == Some(pkg) && now - lastAt < cooldown
  }

  /** The guard each service owns; it remembers the last package it let through and when. */
  class EnforcementLoopGuard {
    const cooldownMillis: int
    var lastPackageName: Option<string>
    var lastRedirectAt: int

    /** A fresh guard with the default 700 ms cooldown: nothing recorded yet. */
    constructor ()
      ensures cooldownMillis == COOLDOWN_MILLIS
      ensures lastPackageName.None? && lastRedirectAt == 0
    {
      cooldownMillis := COOLDOWN_MILLIS;
      lastPackageName := None;
      lastRedirectAt := 0;
    }

    /**
     * shouldSuppress: true exactly for a rapid repeat, which leaves the guard
     * as it was; any other call records (pkg, now).
     */
    method ShouldSuppress(pkg: string, now: int) returns (suppress: bool)
      modifies this
      ensures suppress <==> RapidRepeat(old(lastPackageName), old(lastRedirectAt), cooldownMillis, pkg, now)
      ensures suppress ==> lastPackageName == old(lastPackageName) && lastRedirectAt == old(lastRedirectAt)
      ensures !suppress ==> lastPackageName == Some(pkg) && lastRedirectAt == now
    {
      var isRapidRepeat := lastPackageName == Some(pkg) && now - lastRedirectAt < cooldownMillis;
      if isRapidRepeat {
        return true;
      }
      lastPackageName := Some(pkg);
      lastRedirectAt := now;
      return false;
    }
  }

  /**
   * After a redirect of `pkg` at `t`, the same package is suppressed exactly
   * during [t, t + 700) (and before t, for a clock that went back); any other
   * package is never suppressed.
   */
  lemma GuardWindow(pkg: string, t: int, other: string, u: int)
    ensures RapidRepeat(Some(pkg), t, COOLDOWN_MILLIS, pkg, u) <==> u < t + 700
    ensures other != pkg ==> !RapidRepeat(Some(pkg), t, COOLDOWN_MILLIS, other, u)
    ensures !RapidRepeat(None, t, COOLDOWN_MILLIS, other, u)
  {
  }

  // ---------------------------------------------------------------------------
  // Block lookup
  // ---------------------------------------------------------------------------

  /**
   * The "active_profile_json" preference of "zenox_profile_sync" as
   * readActiveProfileBlockedPackages meets it: absent, not a JSON object
   * (the parser throws), an object without a "blockedApps" array, or the
   * array with each element already rendered by optString.
   */
  datatype ProfileSource = NoProfile | Unparsable | NoBlockedApps | BlockedApps(items: seq<string>)

  /** The trimmed, non-empty elements of `items`, gathered front to back. */
  function ProfileItems(items: seq<string>): (r: set<string>)
    ensures [] !in r
  {
    if items == [] then {}
    else
      var last := Trim(items[|items| - 1]);
      ProfileItems(items[..|items| - 1]) + (if last != [] then {last} else {})
  }

  /** The profile set of a preference value; empty unless it holds a "blockedApps" array. */
  function ProfileSet(src: ProfileSource): (r: set<string>)
    ensures !src.BlockedApps? ==> r == {}
  {
    if src.BlockedApps? then ProfileItems(src.items) else {}
  }

  /** A package is in the profile set exactly when some element trims to it and is not blank. */
  lemma {:induction false} ProfileItemsMembers(items: seq<string>, p: string)
    ensures p in ProfileItems(items) <==> exists x :: x in items && Contributes(x, p)
  {
    if items != [] {
      var init := items[..|items| - 1];
      var last := items[|items| - 1];
      ProfileItemsSnoc(init, last);
      assert init + [last] == items;
      ProfileItemsMembers(init, p);
      if p in ProfileItems(items) {
        if p in ProfileItems(init) {
          var x :| x in init && Contributes(x, p);
          assert x in items;
        } else {
          assert last in items && Contributes(last, p);
        }
      }
      if x :| x in items && Contributes(x, p) {
        if x != last {
          assert x in init;
        }
      }
    }
  }

  /** Element `x` puts `p` into the profile set. */
  predicate Contributes(x: string, p: string)
  {
    Trim(x) != [] && Trim(x) == p
  }

  /** One more element adds its trimmed form when that is not empty. */
  lemma ProfileItemsSnoc(items: seq<string>, x: string)
    ensures ProfileItems(items + [x]) == ProfileItems(items) + (if Trim(x) != [] then {Trim(x)} else {})
  {
    assert (items + [x])[..|items|] == items;
  }

  /** Every member of the profile set is already trimmed and non-empty. */
  lemma ProfileItemsTrimmed(items: seq<string>, p: string)
    requires p in ProfileItems(items)
    ensures p != [] && Trim(p) == p
  {
    ProfileItemsMembers(items, p);
    var x :| x in items && Contributes(x, p);
    TrimIdempotent(x);
  }

  /** readActiveProfileBlockedPackages: builds the profile set element by element. */
  method ReadActiveProfileBlockedPackages(src: ProfileSource) returns (r: set<string>)
    ensures r == ProfileSet(src)
  {
    if !src.BlockedApps? {
      return {};
    }
    var items := src.items;
    r := {};
    var i := 0;
    while i < |items|
      invariant 0 <= i <= |items|
      invariant r == ProfileItems(items[..i])
    {
      var pkg := Trim(items[i]);
      if pkg != [] {
        r := r + {pkg};
      }
      ProfileItemsSnoc(items[..i], items[i]);
      assert items[..i] + [items[i]] == items[..i + 1];
      i := i + 1;
    }
    assert items[..i] == items;
  }

  /** The database half of isBlocked: a row for the package exists and has isBlocked set. */
  predicate RowBlocked(rows: seq<BlockedApp>, pkg: string)
  {
    var row := FindPackage(rows, pkg);
    row.Some? && row.value.isBlocked
  }

  /** With one row per package, the database says "blocked" exactly when that package's row says so. */
  lemma RowBlockedIff(rows: seq<BlockedApp>, pkg: string)
    requires UniquePackages(rows)
    ensures RowBlocked(rows, pkg) <==> exists x :: x in rows && x.packageName == pkg && x.isBlocked
  {
    if x :| x in rows && x.packageName == pkg && x.isBlocked {
      FindPackageUnique(rows, x);
    }
  }

  /**
   * ZenoxEngine.isBlocked: a non-empty profile set alone decides; otherwise
   * the database row does.  ZentoxEngine.isBlocked is the same with no
   * profile, i.e. the empty set.
   */
  function IsBlocked(profile: set<string>, rows: seq<BlockedApp>, pkg: string): (b: bool)
    ensures profile != {} ==> (b <==> pkg in profile)
    ensures profile == {} ==> (b <==> RowBlocked(rows, pkg))
  {
    if profile != {} then pkg in profile else RowBlocked(rows, pkg)
  }

  // ---------------------------------------------------------------------------
  // shouldEnforce
  // ---------------------------------------------------------------------------

  /**
   * The verdict of shouldEnforce once the package is known to be non-blank:
   * no break, an ACTIVE session still running, and the package blocked.
   */
  predicate Enforced(deadline: int, current: ZenStatus, now: int, blocked: bool)
  {
    !BreakActive(deadline, now) && current.Active? && now < current.endTimeEpochMillis && blocked
  }

  /** What one accessibility event leads to. */
  datatype EventAction =
    | Ignored                  // no package, or a blank one
    | HideOverlay              // not enforced, and the visible overlay is hidden
    | LeaveOverlay             // not enforced, nothing to hide
    | Suppressed               // enforced, but inside the guard's cooldown
    | ShowOverlay(pkg: string) // enforced: the overlay is shown for the package

  /** The hide decision for a package that is not enforced: never for the app itself or the system UI. */
  function NotEnforcedAction(pkg: string, ownPackage: string, overlayVisible: bool): (a: EventAction)
    ensures a == HideOverlay || a == LeaveOverlay
    ensures a == HideOverlay <==> overlayVisible && pkg != ownPackage && pkg != SYSTEM_UI_PACKAGE
  {
    if overlayVisible && pkg != ownPackage && pkg != SYSTEM_UI_PACKAGE then HideOverlay else LeaveOverlay
  }

  /** The service that enforces: its guard, the manager singleton, the DAO and the app's own package. */
  class EnforcementService {
    const guard: EnforcementLoopGuard
    const manager: Manager
    const dao: BlockedAppDao
    const ownPackage: string
    /** zenox consults the focus profile; zentox never does. */
    const usesProfile: bool

    constructor (guard: EnforcementLoopGuard, manager: Manager, dao: BlockedAppDao, ownPackage: string, usesProfile: bool)
      ensures this.guard == guard && this.manager == manager && this.dao == dao
      ensures this.ownPackage == ownPackage && this.usesProfile == usesProfile
    {
      this.guard := guard;
      this.manager := manager;
      this.dao := dao;
      this.ownPackage := ownPackage;
      this.usesProfile := usesProfile;
    }

    /** The profile set this generation uses for a given preference value. */
    ghost function EffectiveProfile(src: ProfileSource): set<string>
    {
      if usesProfile then ProfileSet(src) else {}
    }

    /**
     * shouldEnforce: false for a missing or blank package, during an
     * emergency break (whose expired deadline is cleared on the way), and
     * without an ACTIVE session; an ACTIVE session whose end has been
     * reached is stopped; otherwise the trimmed package's block status.
     */
    method ShouldEnforce(pkg: Option<string>, src: ProfileSource, now: int) returns (b: bool)
      modifies manager, manager.state
      ensures pkg.None? || IsBlank(pkg.value) ==>
                !b && manager.emergencyBreakUntil == old(manager.emergencyBreakUntil)
                && manager.state.status == old(manager.state.status) && manager.state.prefs == old(manager.state.prefs)
      ensures pkg.Some? && !IsBlank(pkg.value) ==>
                var current := old(manager.state.Observed(now));
                var deadline := old(manager.emergencyBreakUntil);
                (b <==> Enforced(deadline, current, now, IsBlocked(EffectiveProfile(src), dao.rows, Trim(pkg.value))))
                && (BreakActive(deadline, now) ==>
                      manager.emergencyBreakUntil == deadline && manager.state.status == old(manager.state.status)
                      && manager.state.prefs == old(manager.state.prefs))
                && (!BreakActive(deadline, now) && current.Active? && now >= current.endTimeEpochMillis ==>
                      manager.state.status == Inactive && manager.emergencyBreakUntil == 0)
                && (!BreakActive(deadline, now) && !(current.Active? && now >= current.endTimeEpochMillis) ==>
                      manager.emergencyBreakUntil == DeadlineAfterCheck(deadline, now) && manager.state.status == current)
      ensures manager.state.hasContext == old(manager.state.hasContext)
      ensures manager.state.prefs == old(manager.state.prefs)
    {
      if pkg.None? || Trim(pkg.value) == [] {
        BlankIffTrimEmpty(if pkg.Some? then pkg.value else []);
        return false;
      }
      BlankIffTrimEmpty(pkg.value);
      var normalized := Trim(pkg.value);
      var onBreak := manager.IsEmergencyBreakActive(now);
      if onBreak {
        return false;
      }
      var status := manager.state.GetStatus(now);
      if !status.Active? {
        return false;
      }
      if now >= status.endTimeEpochMillis {
        manager.StopZen();
        return false;
      }
      var profile := {};
      if usesProfile {
        profile := ReadActiveProfileBlockedPackages(src);
      }
      b := IsBlocked(profile, dao.rows, normalized);
    }

    /**
     * onAccessibilityEvent: a missing or blank package is ignored; a package
     * that is not enforced may hide the overlay; an enforced one is shown
     * unless the guard suppresses it.
     */
    method OnAccessibilityEvent(pkg: Option<string>, src: ProfileSource, overlayVisible: bool, now: int)
      returns (a: EventAction)
      modifies guard, manager, manager.state
      ensures pkg.None? || IsBlank(pkg.value) ==>
                a == Ignored && guard.lastPackageName == old(guard.lastPackageName)
                && guard.lastRedirectAt == old(guard.lastRedirectAt)
                && manager.emergencyBreakUntil == old(manager.emergencyBreakUntil)
                && manager.state.status == old(manager.state.status) && manager.state.prefs == old(manager.state.prefs)
      ensures pkg.Some? && !IsBlank(pkg.value) ==>
                var enforced := Enforced(old(manager.emergencyBreakUntil), old(manager.state.Observed(now)), now,
                                         IsBlocked(EffectiveProfile(src), dao.rows, Trim(pkg.value)));
                (!enforced ==>
                   a == NotEnforcedAction(pkg.value, ownPackage, overlayVisible)
                   && guard.lastPackageName == old(guard.lastPackageName) && guard.lastRedirectAt == old(guard.lastRedirectAt))
                && (enforced && RapidRepeat(old(guard.lastPackageName), old(guard.lastRedirectAt), guard.cooldownMillis, pkg.value, now) ==>
                      a == Suppressed
                      && guard.lastPackageName == old(guard.lastPackageName) && guard.lastRedirectAt == old(guard.lastRedirectAt))
                && (enforced && !RapidRepeat(old(guard.lastPackageName), old(guard.lastRedirectAt), guard.cooldownMillis, pkg.value, now) ==>
                      a == ShowOverlay(pkg.value) && guard.lastPackageName == Some(pkg.value) && guard.lastRedirectAt == now)
      ensures pkg.Some? && !IsBlank(pkg.value) ==>
                var current := old(manager.state.Observed(now));
                var deadline := old(manager.emergencyBreakUntil);
                (BreakActive(deadline, now) ==>
                   manager.emergencyBreakUntil == deadline && manager.state.status == old(manager.state.status))
                && (!BreakActive(deadline, now) && current.Active? && now >= current.endTimeEpochMillis ==>
                      manager.state.status == Inactive && manager.emergencyBreakUntil == 0)
                && (!BreakActive(deadline, now) && !(current.Active? && now >= current.endTimeEpochMillis) ==>
                      manager.emergencyBreakUntil == DeadlineAfterCheck(deadline, now) && manager.state.status == current)
      ensures manager.state.hasContext == old(manager.state.hasContext) && manager.state.prefs == old(manager.state.prefs)
    {
      if pkg.None? || IsBlank(pkg.value) {
        return Ignored;
      }
      var enforce := ShouldEnforce(pkg, src, now);
      if !enforce {
        return NotEnforcedAction(pkg.value, ownPackage, overlayVisible);
      }
      var suppress := guard.ShouldSuppress(pkg.value, now);
      if suppress {
        return Suppressed;
      }
      a := ShowOverlay(pkg.value);
    }
  }
}
