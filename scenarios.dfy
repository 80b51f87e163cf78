/**
 * Verified end-to-end scenarios: each method drives the module and the
 * lifecycle listener over one package with the main activity and two icon
 * aliases, `red` and `blue`, as the plugin declares them, and its contract
 * states the resulting component states and force-closes.
 */
module Scenarios {
  import opened Options
  import opened Text
  import opened Activation
  import opened AppIconModule

  const Pkg: string := "com.example"

  lemma PkgHasNoDelimiter()
    ensures !Contains(Pkg, Delimiter)
  {
  }

  /** Switching to `red`: the request is committed when the app is paused, and `red` is reported afterwards. */
  method SwitchToRed() returns (redState: ComponentState, mainState: ComponentState, blueState: ComponentState, kills: nat, reported: Option<string>)
    ensures redState == Enabled && mainState == Disabled && blueState == Disabled
    ensures kills == 1
    ensures reported == Some("red")
  {
    var main := MainActivityName(Pkg);
    var red, blue := main + "red", main + "blue";
    var names := [main, red, blue];
    var pm := new PackageManager(Pkg, names, map[]);
    var activity := new Activity(Pkg, main, pm);
    var shared := new SharedObject();
    var listener := new LifecycleListener(shared);

    var r := SetAppIcon(shared, Some(Pkg), activity, Some("red"));
    assert shared.icon == red && shared.pm == pm && shared.shouldChangeIcon;
    listener.OnPause(activity);

    assert pm.states == Switched(map[], names, Pkg, red) by {
      CommitNeedsNoFallback(map[], names, Pkg, red);
    }
    SwitchedExclusive(map[], names, Pkg, red);
    assert IsIconAlias(blue, Pkg) by {
      assert blue[..|main|] == main;
    }
    assert IsIconAlias(main, Pkg) by {
      assert main[..|main|] == main;
    }
    redState, mainState, blueState := pm.StateOf(red), pm.StateOf(main), pm.StateOf(blue);
    kills := |listener.scheduledForceCloses|;

    PkgHasNoDelimiter();
    MainActivityField(Pkg, "red");
    reported := GetAppIcon(shared.icon, Some(activity.className));
  }

  /**
   * Repeating the current icon, as written: the second request changes
   * neither the icon nor the kill list, but it marks the change pending, so
   * the next pause schedules a second force-close.
   */
  method RepeatCurrentIcon() returns (kills: nat, redState: ComponentState)
    ensures kills == 2
    ensures redState == Enabled
  {
    var main := MainActivityName(Pkg);
    var red, blue := main + "red", main + "blue";
    var names := [main, red, blue];
    var pm := new PackageManager(Pkg, names, map[]);
    var activity := new Activity(Pkg, main, pm);
    var shared := new SharedObject();
    var listener := new LifecycleListener(shared);

    var r := SetAppIcon(shared, Some(Pkg), activity, Some("red"));
    listener.OnPause(activity);
    CommitNeedsNoFallback(map[], names, Pkg, red);
    ghost var afterFirst := pm.states;

    r := SetAppIcon(shared, Some(Pkg), activity, Some("red"));
    assert shared.icon == red && shared.shouldChangeIcon;
    listener.OnPause(activity);
    CommittedIdempotent(map[], names, Pkg, Pkg, red);
    assert pm.states == afterFirst;
    SwitchedExclusive(map[], names, Pkg, red);
    kills := |listener.scheduledForceCloses|;
    redState := pm.StateOf(red);
  }

  /** Repeating the current icon with the intended request: nothing is pending, and no second force-close is scheduled. */
  method RepeatCurrentIconIntended() returns (kills: nat, redState: ComponentState)
    ensures kills == 1
    ensures redState == Enabled
  {
    var main := MainActivityName(Pkg);
    var red, blue := main + "red", main + "blue";
    var names := [main, red, blue];
    var pm := new PackageManager(Pkg, names, map[]);
    var activity := new Activity(Pkg, main, pm);
    var shared := new SharedObject();
    var listener := new LifecycleListener(shared);

    var r := SetAppIconIntended(shared, Some(Pkg), activity, Some("red"));
    listener.OnPause(activity);
    CommitNeedsNoFallback(map[], names, Pkg, red);
    assert !shared.shouldChangeIcon && shared.icon == red;

    r := SetAppIconIntended(shared, Some(Pkg), activity, Some("red"));
    assert !shared.shouldChangeIcon;
    listener.OnPause(activity);
    SwitchedExclusive(map[], names, Pkg, red);
    kills := |listener.scheduledForceCloses|;
    redState := pm.StateOf(red);
  }

  /** Requesting an icon that was never declared: the commit aborts, `red` stays enabled, and the change is no longer pending. */
  method SwitchToUndeclared() returns (redState: ComponentState, pending: bool)
    ensures redState == Enabled
    ensures !pending
  {
    var main := MainActivityName(Pkg);
    var red, blue := main + "red", main + "blue";
    var names := [main, red, blue];
    var pm := new PackageManager(Pkg, names, map[red := Enabled, main := Disabled, blue := Disabled]);
    var activity := new Activity(Pkg, red, pm);
    var shared := new SharedObject();
    var listener := new LifecycleListener(shared);

    var r := SetAppIcon(shared, Some(Pkg), activity, Some("green"));
    assert shared.icon == main + "green";
    assert main + "green" !in names by {
      assert (main + "green")[|main|..] == "green";
      assert red[|main|..] == "red" && blue[|main|..] == "blue";
    }
    listener.OnPause(activity);
    CommitAbortsOnMissingTarget(map[red := Enabled, main := Disabled, blue := Disabled], names, Pkg, Pkg, main + "green");
    redState := pm.StateOf(red);
    pending := shared.shouldChangeIcon;
  }

  /**
   * The repair pass on resume: an unrelated activity left Disabled is reset
   * to Default, while a disabled icon alias keeps its state.
   */
  method RepairOnResume() returns (extraState: ComponentState, blueState: ComponentState)
    ensures extraState == Default
    ensures blueState == Disabled
  {
    var main := MainActivityName(Pkg);
    var red, blue := main + "red", main + "blue";
    var extra := Pkg + ".ExtraFeatureActivity";
    var names := [main, red, blue, extra];
    var states := map[red := Enabled, main := Disabled, blue := Disabled, extra := Disabled];
    var pm := new PackageManager(Pkg, names, states);
    var activity := new Activity(Pkg, red, pm);
    var shared := new SharedObject();
    var listener := new LifecycleListener(shared);

    listener.OnResume(activity);
    assert IsIconAlias(blue, Pkg) by {
      assert blue[..|main|] == main;
    }
    assert !IsIconAlias(extra, Pkg) by {
      assert extra[|Pkg| + 1] == 'E' && main[|Pkg| + 1] == 'M';
    }
    RepairedAt(states, names, Pkg, extra);
    RepairedAt(states, names, Pkg, blue);
    extraState, blueState := pm.StateOf(extra), pm.StateOf(blue);
  }
}
