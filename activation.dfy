/**
 * The Android icon activation engine and the lifecycle listener that drives
 * it. Launcher icons are activity-alias components named
 * `<package>.MainActivity<key>`; the main activity itself is
 * `<package>.MainActivity`. A request is recorded in the shared pending-change
 * record, committed when the app is paused (or destroyed), and followed by a
 * scheduled force-close so that the launcher picks up the new alias.
 */
module Activation {
  import opened Options
  import opened Text

  /** The three component states the package manager distinguishes. */
  datatype ComponentState = Default | Enabled | Disabled

  /** `<pkg>.MainActivity`: the main activity, and the prefix of every icon alias. */
  function MainActivityName(pkg: string): string
  {
    pkg + ".MainActivity"
  }

  /** The naming test the engine uses to tell an icon alias from any other activity. */
  predicate IsIconAlias(name: string, pkg: string)
  {
    StartsWith(name, MainActivityName(pkg))
  }

  /** The state the package manager reports for `name`; never set means Default. */
  function StateIn(states: map<string, ComponentState>, name: string): ComponentState
  {
    if name in states then states[name] else Default
  }

  // ---------------------------------------------------------------------------
  // Specification of the component-state transitions
  // ---------------------------------------------------------------------------

  /**
   * The states after the disabling loop of applyIconChange has visited
   * `names` in order: every icon alias other than `target` whose state is not
   * already Disabled is set to Disabled.
   */
  function DisableOtherAliases(states: map<string, ComponentState>, names: seq<string>, pkg: string, target: string)
    : map<string, ComponentState>
    decreases |names|
  {
    if names == [] then states
    else
      var before := DisableOtherAliases(states, names[..|names| - 1], pkg, target);
      var n := names[|names| - 1];
      if IsIconAlias(n, pkg) && n != target && StateIn(before, n) != Disabled
      then before[n := Disabled]
      else before
  }

  /** The states after the disabling loop and the enabling of `target`. */
  function Switched(states: map<string, ComponentState>, names: seq<string>, pkg: string, target: string)
    : map<string, ComponentState>
  {
    DisableOtherAliases(states, names, pkg, target)[target := Enabled]
  }

  /** Some declared component is explicitly Enabled (Default does not count). */
  predicate SomeEnabled(states: map<string, ComponentState>, names: seq<string>)
  {
    exists i :: 0 <= i < |names| && StateIn(states, names[i]) == Enabled
  }

  /**
   * The states after ensureAtLeastOneComponentEnabled: unchanged when some
   * declared component is Enabled; otherwise the main activity is enabled,
   * which fails (and changes nothing) when it is not declared.
   */
  function WithFallback(states: map<string, ComponentState>, names: seq<string>, pkg: string)
    : map<string, ComponentState>
  {
    if SomeEnabled(states, names) then states
    else if MainActivityName(pkg) in names then states[MainActivityName(pkg) := Enabled]
    else states
  }

  /**
   * The component states after applyIconChange, for the pending `icon`, the
   * shared package name `pkg`, and a package manager for package `pmPackage`
   * declaring `names`. An empty icon changes nothing; so does a target that is
   * not declared (or a package that cannot be looked up).
   */
  function Committed(states: map<string, ComponentState>, names: seq<string>, pmPackage: string, pkg: string, icon: string)
    : map<string, ComponentState>
  {
    if icon == "" || pmPackage != pkg || icon !in names then states
    else WithFallback(Switched(states, names, pkg, icon), names, pkg)
  }

  /**
   * The states after the repair loop has visited `names` in order: every
   * declared activity that is not an icon alias and is Disabled is reset to
   * Default.
   */
  function Repaired(states: map<string, ComponentState>, names: seq<string>, pkg: string): map<string, ComponentState>
    decreases |names|
  {
    if names == [] then states
    else
      var before := Repaired(states, names[..|names| - 1], pkg);
      var n := names[|names| - 1];
      if !IsIconAlias(n, pkg) && StateIn(before, n) == Disabled
      then before[n := Default]
      else before
  }

  // ---------------------------------------------------------------------------
  // Properties of the transitions
  // ---------------------------------------------------------------------------

  /** What the disabling loop does to any one component. */
  lemma {:induction false} DisableOtherAliasesAt(states: map<string, ComponentState>, names: seq<string>, pkg: string, target: string, n: string)
    ensures StateIn(DisableOtherAliases(states, names, pkg, target), n)
         == if n in names && IsIconAlias(n, pkg) && n != target then Disabled else StateIn(states, n)
    decreases |names|
  {
    if names != [] {
      var init := names[..|names| - 1];
      assert names == init + [names[|names| - 1]];
      DisableOtherAliasesAt(states, init, pkg, target, n);
    }
  }

  /**
   * The commit's effect on one component: the target becomes Enabled, every
   * other declared icon alias becomes Disabled (also one that was Default),
   * and every other component keeps its state.
   */
  lemma SwitchedAt(states: map<string, ComponentState>, names: seq<string>, pkg: string, target: string, n: string)
    ensures StateIn(Switched(states, names, pkg, target), n)
         == if n == target then Enabled
            else if n in names && IsIconAlias(n, pkg) then Disabled
            else StateIn(states, n)
  {
    DisableOtherAliasesAt(states, names, pkg, target, n);
  }

  /**
   * After a switch to a declared target, the target is the one declared icon
   * alias that is Enabled, so the launcher shows exactly one icon, and some
   * declared component is Enabled, so the app keeps a launcher entry point.
   */
  lemma SwitchedExclusive(states: map<string, ComponentState>, names: seq<string>, pkg: string, target: string)
    requires target in names
    ensures StateIn(Switched(states, names, pkg, target), target) == Enabled
    ensures forall n :: n in names && IsIconAlias(n, pkg) && n != target
              ==> StateIn(Switched(states, names, pkg, target), n) == Disabled
    ensures SomeEnabled(Switched(states, names, pkg, target), names)
  {
    forall n | n in names && IsIconAlias(n, pkg) && n != target
      ensures StateIn(Switched(states, names, pkg, target), n) == Disabled
    {
      SwitchedAt(states, names, pkg, target, n);
    }
    SwitchedAt(states, names, pkg, target, target);
    var i :| 0 <= i < |names| && names[i] == target;
    assert StateIn(Switched(states, names, pkg, target), names[i]) == Enabled;
  }

  /** Scope restriction: a commit never changes a component outside the alias naming convention, other than the target. */
  lemma SwitchedScope(states: map<string, ComponentState>, names: seq<string>, pkg: string, target: string, n: string)
    requires !IsIconAlias(n, pkg) && n != target
    ensures StateIn(Switched(states, names, pkg, target), n) == StateIn(states, n)
  {
    SwitchedAt(states, names, pkg, target, n);
  }

  /**
   * A whole commit, fallback included, never changes a component outside the
   * alias naming convention, other than the target.
   */
  lemma CommittedScope(states: map<string, ComponentState>, names: seq<string>, pmPackage: string, pkg: string, icon: string, n: string)
    requires !IsIconAlias(n, pkg) && n != icon
    ensures StateIn(Committed(states, names, pmPackage, pkg, icon), n) == StateIn(states, n)
  {
    if icon != "" && pmPackage == pkg && icon in names {
      CommitNeedsNoFallback(states, names, pkg, icon);
      SwitchedScope(states, names, pkg, icon, n);
    }
  }

  /** The disabling loop changes nothing once every other alias is Disabled. */
  lemma {:induction false} DisableOtherAliasesNoop(states: map<string, ComponentState>, names: seq<string>, pkg: string, target: string)
    requires forall n :: n in names && IsIconAlias(n, pkg) && n != target ==> StateIn(states, n) == Disabled
    ensures DisableOtherAliases(states, names, pkg, target) == states
    decreases |names|
  {
    if names != [] {
      var init := names[..|names| - 1];
      assert names == init + [names[|names| - 1]];
      DisableOtherAliasesNoop(states, init, pkg, target);
    }
  }

  /** A commit followed by the fallback check: the fallback never fires after a successful switch. */
  lemma CommitNeedsNoFallback(states: map<string, ComponentState>, names: seq<string>, pkg: string, target: string)
    requires target in names
    ensures WithFallback(Switched(states, names, pkg, target), names, pkg) == Switched(states, names, pkg, target)
  {
    SwitchedExclusive(states, names, pkg, target);
  }

  /** Committing the same icon twice leaves the same component states as committing it once. */
  lemma CommittedIdempotent(states: map<string, ComponentState>, names: seq<string>, pmPackage: string, pkg: string, icon: string)
    ensures Committed(Committed(states, names, pmPackage, pkg, icon), names, pmPackage, pkg, icon)
         == Committed(states, names, pmPackage, pkg, icon)
  {
    if icon != "" && pmPackage == pkg && icon in names {
      var once := Switched(states, names, pkg, icon);
      CommitNeedsNoFallback(states, names, pkg, icon);
      SwitchedExclusive(states, names, pkg, icon);
      DisableOtherAliasesNoop(once, names, pkg, icon);
      CommitNeedsNoFallback(once, names, pkg, icon);
      assert once[icon := Enabled] == once;
    }
  }

  /** Abort safety: a commit whose target is not declared leaves every component as it was. */
  lemma CommitAbortsOnMissingTarget(states: map<string, ComponentState>, names: seq<string>, pmPackage: string, pkg: string, icon: string)
    requires icon !in names
    ensures Committed(states, names, pmPackage, pkg, icon) == states
  {
  }

  /**
   * A commit never leaves the app without a launcher entry point: if some
   * declared component was Enabled before, or the commit goes ahead, some
   * declared component is Enabled after.
   */
  lemma CommittedKeepsLauncher(states: map<string, ComponentState>, names: seq<string>, pmPackage: string, pkg: string, icon: string)
    requires SomeEnabled(states, names) || (icon != "" && pmPackage == pkg && icon in names)
    ensures SomeEnabled(Committed(states, names, pmPackage, pkg, icon), names)
  {
    if icon != "" && pmPackage == pkg && icon in names {
      CommitNeedsNoFallback(states, names, pkg, icon);
      SwitchedExclusive(states, names, pkg, icon);
    }
  }

  /** The fallback check leaves an Enabled launcher whenever the main activity is declared. */
  lemma FallbackGuaranteesLauncher(states: map<string, ComponentState>, names: seq<string>, pkg: string)
    requires MainActivityName(pkg) in names
    ensures SomeEnabled(WithFallback(states, names, pkg), names)
    ensures SomeEnabled(states, names) ==> WithFallback(states, names, pkg) == states
  {
    if !SomeEnabled(states, names) {
      var i :| 0 <= i < |names| && names[i] == MainActivityName(pkg);
      assert StateIn(WithFallback(states, names, pkg), names[i]) == Enabled;
    }
  }

  /** What the repair loop does to any one component. */
  lemma {:induction false} RepairedAt(states: map<string, ComponentState>, names: seq<string>, pkg: string, n: string)
    ensures StateIn(Repaired(states, names, pkg), n)
         == if n in names && !IsIconAlias(n, pkg) && StateIn(states, n) == Disabled then Default else StateIn(states, n)
    decreases |names|
  {
    if names != [] {
      var init := names[..|names| - 1];
      assert names == init + [names[|names| - 1]];
      RepairedAt(states, init, pkg, n);
    }
  }

  /**
   * After the repair pass no declared non-alias activity is Disabled, icon
   * aliases are untouched, and no component changes whether it is Enabled
   * (so the repair keeps both the single enabled icon alias and the launcher
   * entry point).
   */
  lemma RepairedEffect(states: map<string, ComponentState>, names: seq<string>, pkg: string, n: string)
    ensures n in names && !IsIconAlias(n, pkg) ==> StateIn(Repaired(states, names, pkg), n) != Disabled
    ensures IsIconAlias(n, pkg) ==> StateIn(Repaired(states, names, pkg), n) == StateIn(states, n)
    ensures StateIn(Repaired(states, names, pkg), n) == Enabled <==> StateIn(states, n) == Enabled
  {
    RepairedAt(states, names, pkg, n);
  }

  /** The repair loop changes nothing when no declared non-alias activity is Disabled. */
  lemma {:induction false} RepairedNoop(states: map<string, ComponentState>, names: seq<string>, pkg: string)
    requires forall n :: n in names && !IsIconAlias(n, pkg) ==> StateIn(states, n) != Disabled
    ensures Repaired(states, names, pkg) == states
    decreases |names|
  {
    if names != [] {
      var init := names[..|names| - 1];
      assert names == init + [names[|names| - 1]];
      RepairedNoop(states, init, pkg);
    }
  }

  /** Running the repair pass twice equals running it once. */
  lemma RepairedIdempotent(states: map<string, ComponentState>, names: seq<string>, pkg: string)
    ensures Repaired(Repaired(states, names, pkg), names, pkg) == Repaired(states, names, pkg)
  {
    forall n | n in names && !IsIconAlias(n, pkg)
      ensures StateIn(Repaired(states, names, pkg), n) != Disabled
    {
      RepairedEffect(states, names, pkg, n);
    }
    RepairedNoop(Repaired(states, names, pkg), names, pkg);
  }

  // ---------------------------------------------------------------------------
  // The package manager (the OS component registry) and the shared record
  // ---------------------------------------------------------------------------

  /**
   * The package manager of one installed package: the activities and
   * activity-aliases its manifest declares (fixed at install time) and the
   * enabled setting the OS has recorded for each component.
   */
  class PackageManager {
    const packageName: string
    const activities: seq<string>
    var states: map<string, ComponentState>

    constructor (packageName: string, activities: seq<string>, states: map<string, ComponentState>)
      ensures this.packageName == packageName && this.activities == activities && this.states == states
    {
      this.packageName := packageName;
      this.activities := activities;
      this.states := states;
    }

    function StateOf(name: string): ComponentState
      reads this
    {
      StateIn(states, name)
    }

    /** getPackageInfo with GET_ACTIVITIES | GET_DISABLED_COMPONENTS; None is NameNotFoundException. */
    method GetPackageInfo(pkg: string) returns (activityNames: Option<seq<string>>)
      ensures activityNames == if pkg == packageName then Some(activities) else None
    {
      activityNames := if pkg == packageName then Some(activities) else None;
    }

    method GetComponentEnabledSetting(name: string) returns (state: ComponentState)
      ensures state == StateOf(name)
    {
      state := StateOf(name);
    }

    /**
     * setComponentEnabledSetting with DONT_KILL_APP; `ok` is false when the
     * component is not declared (the OS throws and nothing changes).
     */
    method SetComponentEnabledSetting(name: string, state: ComponentState) returns (ok: bool)
      modifies this
      ensures ok == (name in activities)
      ensures states == if ok then old(states)[name := state] else old(states)
    {
      ok := name in activities;
      if ok {
        states := states[name := state];
      }
    }
  }

  /** The running activity the lifecycle callbacks receive. */
  class Activity {
    const packageName: string
    const className: string
    const packageManager: PackageManager

    constructor (packageName: string, className: string, packageManager: PackageManager)
      ensures this.packageName == packageName && this.className == className && this.packageManager == packageManager
    {
      this.packageName := packageName;
      this.className := className;
      this.packageManager := packageManager;
    }
  }

  /**
   * The process-wide pending-change record: the package name and package
   * manager captured by the last request, the requested component name,
   * the dirty flag, and the components named for killing.
   */
  class SharedObject {
    var packageName: string
    var classesToKill: seq<string>
    var icon: string
    var pm: PackageManager?
    var shouldChangeIcon: bool

    constructor ()
      ensures packageName == "" && classesToKill == [] && icon == "" && pm == null && !shouldChangeIcon
    {
      packageName := "";
      classesToKill := [];
      icon := "";
      pm := null;
      shouldChangeIcon := false;
    }
  }

  // ---------------------------------------------------------------------------
  // The lifecycle listener
  // ---------------------------------------------------------------------------

  class LifecycleListener {
    const shared: SharedObject
    var currentActivity: Activity?
    /** One entry per force-close posted to the main-thread handler with its 500 ms delay. */
    var scheduledForceCloses: seq<Activity>

    constructor (shared: SharedObject)
      ensures this.shared == shared && currentActivity == null && scheduledForceCloses == []
    {
      this.shared := shared;
      currentActivity := null;
      scheduledForceCloses := [];
    }

    /**
     * The effect of applyIconChange on the shared record and on `pm`, the
     * package manager it held on entry.
     */
    twostate predicate IconChangeApplied(pm: PackageManager?)
      reads shared, pm
    {
      && shared.pm == pm
      && shared.packageName == old(shared.packageName)
      && shared.icon == old(shared.icon)
      && shared.classesToKill == old(shared.classesToKill)
      && shared.shouldChangeIcon == (if old(shared.icon) != "" && pm != null then false else old(shared.shouldChangeIcon))
      && (pm != null ==> pm.states == Committed(old(pm.states), pm.activities, pm.packageName, shared.packageName, shared.icon))
    }

    /** Neither the shared record nor `pm` changed. */
    twostate predicate NothingApplied(pm: PackageManager?)
      reads shared, pm
    {
      && unchanged(shared)
      && (pm != null ==> unchanged(pm))
    }

    /** onPause: commit a pending change and schedule the force-close, both only when a change is pending. */
    method OnPause(activity: Activity)
      modifies this, shared, shared.pm
      ensures currentActivity == activity
      ensures scheduledForceCloses == old(scheduledForceCloses) + (if old(shared.shouldChangeIcon) then [activity] else [])
      ensures old(shared.shouldChangeIcon) ==> IconChangeApplied(old(shared.pm))
      ensures !old(shared.shouldChangeIcon) ==> NothingApplied(old(shared.pm))
    {
      currentActivity := activity;
      if shared.shouldChangeIcon {
        ApplyIconChange(activity);
        scheduledForceCloses := scheduledForceCloses + [activity];
      }
    }

    /** onResume: only the repair pass; a pending change is never applied here. */
    method OnResume(activity: Activity)
      modifies this, activity.packageManager
      ensures currentActivity == activity
      ensures scheduledForceCloses == old(scheduledForceCloses)
      ensures activity.packageManager.states
           == if activity.packageManager.packageName == activity.packageName
              then Repaired(old(activity.packageManager.states), activity.packageManager.activities, activity.packageName)
              else old(activity.packageManager.states)
    {
      currentActivity := activity;
      RepairIncorrectlyDisabledActivities(activity);
    }

    /** onDestroy: commit a pending change without scheduling a force-close; forget the activity if it is the current one. */
    method OnDestroy(activity: Activity)
      modifies this, shared, shared.pm
      ensures currentActivity == if old(currentActivity) == activity then null else old(currentActivity)
      ensures scheduledForceCloses == old(scheduledForceCloses)
      ensures old(shared.shouldChangeIcon) ==> IconChangeApplied(old(shared.pm))
      ensures !old(shared.shouldChangeIcon) ==> NothingApplied(old(shared.pm))
    {
      if shared.shouldChangeIcon {
        ApplyIconChange(activity);
      }
      if currentActivity == activity {
        currentActivity := null;
      }
    }

    /**
     * applyIconChange: with a recorded icon and package manager, abort
     * (clearing the dirty flag) when the target is not declared; otherwise
     * disable every other icon alias, enable the target, clear the dirty flag
     * and run the fallback check.
     */
    method ApplyIconChange(activity: Activity)
      modifies shared, shared.pm
      ensures IconChangeApplied(old(shared.pm))
    {
      var icon := shared.icon;
      if icon == "" {
        return;
      }
      var pm := shared.pm;
      if pm == null {
        return;
      }
      var found := DoesComponentExist(icon);
      if !found {
        shared.shouldChangeIcon := false;
        return;
      }
      var pkg := shared.packageName;
      var info := pm.GetPackageInfo(pkg);
      var names := info.value;
      var i := 0;
      while i < |names|
        invariant 0 <= i <= |names|
        invariant pm.states == DisableOtherAliases(old(pm.states), names[..i], pkg, icon)
        modifies pm
      {
        var name := names[i];
        var state := pm.GetComponentEnabledSetting(name);
        if IsIconAlias(name, pkg) && name != icon && state != Disabled {
          var _ := pm.SetComponentEnabledSetting(name, Disabled);
        }
        assert names[..i + 1] == names[..i] + [name];
        i := i + 1;
      }
      assert names[..i] == names;
      var _ := pm.SetComponentEnabledSetting(icon, Enabled);
      shared.shouldChangeIcon := false;
      EnsureAtLeastOneComponentEnabled(activity);
    }

    /**
     * ensureAtLeastOneComponentEnabled: when no declared component is
     * explicitly Enabled, enable the main activity. The package lookup is
     * outside any try block, so callers must know it succeeds.
     */
    method EnsureAtLeastOneComponentEnabled(context: Activity)
      requires shared.pm != null ==> shared.pm.packageName == shared.packageName
      modifies shared.pm
      ensures shared.pm != null ==> shared.pm.states == WithFallback(old(shared.pm.states), shared.pm.activities, shared.packageName)
    {
      var pm := shared.pm;
      if pm == null {
        return;
      }
      var info := pm.GetPackageInfo(shared.packageName);
      var names := info.value;
      var hasEnabledComponent := false;
      var i := 0;
      while i < |names| && !hasEnabledComponent
        invariant 0 <= i <= |names|
        invariant pm.states == old(pm.states)
        invariant hasEnabledComponent ==> SomeEnabled(pm.states, names)
        invariant !hasEnabledComponent ==> forall j :: 0 <= j < i ==> StateIn(pm.states, names[j]) != Enabled
      {
        var state := pm.GetComponentEnabledSetting(names[i]);
        hasEnabledComponent := state == Enabled;
        i := i + 1;
      }
      assert !hasEnabledComponent ==> !SomeEnabled(pm.states, names);
      if !hasEnabledComponent {
        var _ := pm.SetComponentEnabledSetting(MainActivityName(shared.packageName), Enabled);
      }
    }

    /**
     * repairIncorrectlyDisabledActivities: reset every declared non-alias
     * activity that is Disabled to Default; a failed package lookup is
     * caught and changes nothing.
     */
    method RepairIncorrectlyDisabledActivities(activity: Activity)
      modifies activity.packageManager
      ensures activity.packageManager.states
           == if activity.packageManager.packageName == activity.packageName
              then Repaired(old(activity.packageManager.states), activity.packageManager.activities, activity.packageName)
              else old(activity.packageManager.states)
    {
      var pm := activity.packageManager;
      var pkg := activity.packageName;
      var info := pm.GetPackageInfo(pkg);
      if info.None? {
        return;
      }
      var names := info.value;
      var i := 0;
      while i < |names|
        invariant 0 <= i <= |names|
        invariant pm.states == Repaired(old(pm.states), names[..i], pkg)
      {
        var name := names[i];
        if !IsIconAlias(name, pkg) {
          var state := pm.GetComponentEnabledSetting(name);
          if state == Disabled {
            var _ := pm.SetComponentEnabledSetting(name, Default);
          }
        }
        assert names[..i + 1] == names[..i] + [name];
        i := i + 1;
      }
      assert names[..i] == names;
    }

    /**
     * doesComponentExist: the class name is among the package's declared
     * activities; false without a package manager or when the lookup fails.
     */
    method DoesComponentExist(className: string) returns (found: bool)
      ensures found == (shared.pm != null && shared.pm.packageName == shared.packageName && className in shared.pm.activities)
    {
      var pm := shared.pm;
      if pm == null {
        return false;
      }
      var info := pm.GetPackageInfo(shared.packageName);
      if info.None? {
        return false;
      }
      var names := info.value;
      found := false;
      var i := 0;
      while i < |names| && !found
        invariant 0 <= i <= |names|
        invariant found <==> className in names[..i]
      {
        found := names[i] == className;
        assert names[..i + 1] == names[..i] + [names[i]];
        i := i + 1;
      }
      assert !found ==> names[..i] == names;
    }
  }
}
