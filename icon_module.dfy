/**
 * The request surface of the native module: setAppIcon records a pending
 * change in the shared record, and getAppIcon reports the icon name from the
 * recorded component name (or from the running activity's class name).
 */
module AppIconModule {
  import opened Options
  import opened Text
  import opened Activation

  /** The word getAppIcon splits a component name on. */
  const Delimiter: string := "MainActivity"

  /** What setAppIcon hands back to JavaScript: a string, or `false` after an exception. */
  datatype SetAppIconResult = Returned(value: string) | ReturnedFalse

  /** The part of the shared record that setAppIcon rewrites. */
  datatype PendingIcon = PendingIcon(icon: string, classesToKill: seq<string>)

  /** The icon setAppIcon treats as current: the recorded one, or the main activity when none is recorded. */
  function CurrentIcon(icon: string, pkg: string): (r: string)
    ensures r != ""
    ensures icon != "" ==> r == icon
    ensures icon == "" ==> r == MainActivityName(pkg)
  {
    if icon != "" then icon else MainActivityName(pkg)
  }

  /** The component a request names: the main activity for `null`, otherwise the main activity's name followed by the icon name. */
  function RequestedComponent(pkg: string, name: Option<string>): (r: string)
    ensures IsIconAlias(r, pkg)
    ensures |r| >= |MainActivityName(pkg)| && r[|MainActivityName(pkg)|..] == name.GetOr("")
  {
    assert (MainActivityName(pkg) + name.GetOr(""))[..|MainActivityName(pkg)|] == MainActivityName(pkg);
    match name
    case None => MainActivityName(pkg)
    case Some(n) => MainActivityName(pkg) + n
  }

  /**
   * The pending icon and kill list after a request. The effective current
   * icon becomes the requested component in every case; the previous current
   * icon is appended to the kill list unless a named request asks for the
   * current icon, in which case nothing changes.
   */
  function Request(p: PendingIcon, pkg: string, name: Option<string>): (r: PendingIcon)
    ensures CurrentIcon(r.icon, pkg) == RequestedComponent(pkg, name)
    ensures r.classesToKill == p.classesToKill || r.classesToKill == p.classesToKill + [CurrentIcon(p.icon, pkg)]
    ensures r.classesToKill == p.classesToKill <==> name.Some? && RequestedComponent(pkg, name) == CurrentIcon(p.icon, pkg)
    ensures r.classesToKill == p.classesToKill ==> r.icon == p.icon
    ensures r.classesToKill != p.classesToKill ==> r.icon == RequestedComponent(pkg, name)
  {
    var currentIcon := CurrentIcon(p.icon, pkg);
    match name
    case None =>
      PendingIcon(MainActivityName(pkg), p.classesToKill + [currentIcon])
    case Some(n) =>
      var newIcon := MainActivityName(pkg) + n;
      if currentIcon == newIcon then p
      else PendingIcon(newIcon, p.classesToKill + [currentIcon])
  }

  /**
   * setAppIcon. `reactContext` is the package name of the React context
   * (None: no context, so `requireNotNull` throws before anything is
   * written); a null `currentActivity` throws after the package name is
   * written. Both exceptions are caught and `false` is returned. Otherwise
   * the dirty flag is set first, also when the request repeats the current
   * icon.
   */
  method SetAppIcon(shared: SharedObject, reactContext: Option<string>, currentActivity: Activity?, name: Option<string>)
    returns (r: SetAppIconResult)
    modifies shared
    ensures reactContext.None? ==> r == ReturnedFalse && unchanged(shared)
    ensures reactContext.Some? && currentActivity == null ==>
      && r == ReturnedFalse
      && shared.packageName == reactContext.value
      && shared.pm == old(shared.pm) && shared.shouldChangeIcon == old(shared.shouldChangeIcon)
      && shared.icon == old(shared.icon) && shared.classesToKill == old(shared.classesToKill)
    ensures reactContext.Some? && currentActivity != null ==>
      && r == Returned(if name.None? then "DEFAULT" else name.value)
      && shared.packageName == reactContext.value
      && shared.pm == currentActivity.packageManager
      && shared.shouldChangeIcon
      && PendingIcon(shared.icon, shared.classesToKill)
         == Request(PendingIcon(old(shared.icon), old(shared.classesToKill)), reactContext.value, name)
  {
    if reactContext.None? {
      return ReturnedFalse;
    }
    var packageName := reactContext.value;
    shared.packageName := packageName;
    if currentActivity == null {
      return ReturnedFalse;
    }
    shared.pm := currentActivity.packageManager;
    shared.shouldChangeIcon := true;

    if name.None? {
      var currentIcon := if shared.icon != "" then shared.icon else packageName + ".MainActivity";
      shared.classesToKill := shared.classesToKill + [currentIcon];
      shared.icon := packageName + ".MainActivity";
      return Returned("DEFAULT");
    } else {
      var newIcon := packageName + ".MainActivity" + name.value;
      var currentIcon := if shared.icon != "" then shared.icon else packageName + ".MainActivity";
      if currentIcon == newIcon {
        return Returned(name.value);
      }
      shared.classesToKill := shared.classesToKill + [currentIcon];
      shared.icon := newIcon;
      return Returned(name.value);
    }
  }

  /**
   * setAppIcon as the same-icon short-circuit evidently intends: the request
   * is marked pending only when it changes the recorded icon or kill list,
   * so repeating the current icon leaves nothing pending.
   */
  method SetAppIconIntended(shared: SharedObject, reactContext: Option<string>, currentActivity: Activity?, name: Option<string>)
    returns (r: SetAppIconResult)
    modifies shared
    ensures reactContext.None? ==> r == ReturnedFalse && unchanged(shared)
    ensures reactContext.Some? && currentActivity == null ==>
      && r == ReturnedFalse
      && shared.packageName == reactContext.value
      && shared.pm == old(shared.pm) && shared.shouldChangeIcon == old(shared.shouldChangeIcon)
      && shared.icon == old(shared.icon) && shared.classesToKill == old(shared.classesToKill)
    ensures reactContext.Some? && currentActivity != null ==>
      && r == Returned(if name.None? then "DEFAULT" else name.value)
      && shared.packageName == reactContext.value
      && shared.pm == currentActivity.packageManager
      && PendingIcon(shared.icon, shared.classesToKill)
         == Request(PendingIcon(old(shared.icon), old(shared.classesToKill)), reactContext.value, name)
      && shared.shouldChangeIcon == (old(shared.shouldChangeIcon) || shared.classesToKill != old(shared.classesToKill))
    ensures reactContext.Some? && currentActivity != null && name.Some?
            && RequestedComponent(reactContext.value, name) == CurrentIcon(old(shared.icon), reactContext.value) ==>
      && shared.icon == old(shared.icon) && shared.classesToKill == old(shared.classesToKill)
      && shared.shouldChangeIcon == old(shared.shouldChangeIcon)
  {
    if reactContext.None? {
      return ReturnedFalse;
    }
    var packageName := reactContext.value;
    shared.packageName := packageName;
    if currentActivity == null {
      return ReturnedFalse;
    }
    shared.pm := currentActivity.packageManager;

    if name.None? {
      shared.shouldChangeIcon := true;
      var currentIcon := if shared.icon != "" then shared.icon else packageName + ".MainActivity";
      shared.classesToKill := shared.classesToKill + [currentIcon];
      shared.icon := packageName + ".MainActivity";
      return Returned("DEFAULT");
    } else {
      var newIcon := packageName + ".MainActivity" + name.value;
      var currentIcon := if shared.icon != "" then shared.icon else packageName + ".MainActivity";
      if currentIcon == newIcon {
        return Returned(name.value);
      }
      shared.shouldChangeIcon := true;
      shared.classesToKill := shared.classesToKill + [currentIcon];
      shared.icon := newIcon;
      return Returned(name.value);
    }
  }

  /**
   * getAppIcon, given the recorded icon and the running activity's class
   * name (None: no current activity, and `requireNotNull` throws). The name
   * is the piece after the first "MainActivity" in the recorded icon (or in
   * the class name when nothing is recorded), up to a second occurrence;
   * "DEFAULT" when that piece is empty. None also stands for the
   * IndexOutOfBoundsException of a name without "MainActivity".
   */
  function GetAppIcon(icon: string, currentClassName: Option<string>): (r: Option<string>)
    ensures r.None? <==> currentClassName.None? || !Contains(if icon != "" then icon else currentClassName.value, Delimiter)
    ensures r.Some? ==> r.value != "" && (r.value == "DEFAULT" || !Contains(r.value, Delimiter))
  {
    match currentClassName
    case None => None
    case Some(componentClass) =>
      var currentIcon := if icon != "" then icon else componentClass;
      match SplitField1(currentIcon, Delimiter)
      case None => None
      case Some(currentIconName) => Some(if currentIconName == "" then "DEFAULT" else currentIconName)
  }

  /**
   * The naming convention can be read back: when neither the package name nor
   * the icon name contains "MainActivity", splitting `<pkg>.MainActivity<n>`
   * on "MainActivity" gives `n` as its second piece.
   */
  lemma MainActivityField(pkg: string, n: string)
    requires !Contains(pkg, Delimiter) && !Contains(n, Delimiter)
    ensures SplitField1(MainActivityName(pkg) + n, Delimiter) == Some(n)
  {
    var s := MainActivityName(pkg) + n;
    var at := |pkg| + 1;
    assert s == pkg + "." + Delimiter + n;
    assert OccursAt(s, Delimiter, at) by {
      assert s[at..at + |Delimiter|] == Delimiter;
    }
    forall j: nat | j < at
      ensures !OccursAt(s, Delimiter, j)
    {
      if j + |Delimiter| <= |pkg| {
        assert s[j..j + |Delimiter|] == pkg[j..j + |Delimiter|];
        assert !OccursAt(pkg, Delimiter, j);
      } else {
        assert s[|pkg|] == '.';
        var k := |pkg| - j;
        assert 0 <= k < |Delimiter| && Delimiter[k] != '.';
        assert j + |Delimiter| <= |s| ==> s[j..j + |Delimiter|][k] == '.';
      }
    }
    assert IndexOf(s, Delimiter) == Some(at);
    assert s[at + |Delimiter|..] == n;
  }

  /** Round trip: after setAppIcon(n) with a non-empty name, getAppIcon returns n. */
  lemma SetThenGetName(p: PendingIcon, pkg: string, n: string, running: string)
    requires n != "" && !Contains(pkg, Delimiter) && !Contains(n, Delimiter)
    ensures GetAppIcon(Request(p, pkg, Some(n)).icon, Some(running)) == Some(n)
  {
    var r := Request(p, pkg, Some(n));
    assert r.icon == MainActivityName(pkg) + n;
    MainActivityField(pkg, n);
  }

  /** Round trip: after setAppIcon(null), getAppIcon returns "DEFAULT". */
  lemma ResetThenGetDefault(p: PendingIcon, pkg: string, running: string)
    requires !Contains(pkg, Delimiter)
    ensures GetAppIcon(Request(p, pkg, None).icon, Some(running)) == Some("DEFAULT")
  {
    MainActivityField(pkg, "");
    assert MainActivityName(pkg) + "" == MainActivityName(pkg);
  }

  /** Round trip: after setAppIcon("") with an icon already recorded, getAppIcon returns "DEFAULT". */
  lemma EmptyNameThenGetDefault(p: PendingIcon, pkg: string, running: string)
    requires p.icon != "" && !Contains(pkg, Delimiter)
    ensures GetAppIcon(Request(p, pkg, Some("")).icon, Some(running)) == Some("DEFAULT")
  {
    MainActivityField(pkg, "");
    assert MainActivityName(pkg) + "" == MainActivityName(pkg);
  }

  /**
   * With nothing recorded (a fresh process), setAppIcon("") compares the
   * main activity with itself and records nothing, so getAppIcon goes on
   * reporting the alias the app is running from.
   */
  lemma EmptyNameKeepsRunningAlias(p: PendingIcon, pkg: string, k: string)
    requires p.icon == "" && k != "" && !Contains(pkg, Delimiter) && !Contains(k, Delimiter)
    ensures Request(p, pkg, Some("")) == p
    ensures GetAppIcon(Request(p, pkg, Some("")).icon, Some(MainActivityName(pkg) + k)) == Some(k)
  {
    assert MainActivityName(pkg) + "" == MainActivityName(pkg);
    MainActivityField(pkg, k);
  }

  /**
   * Last writer wins: after two requests the pending icon is the one the
   * second names. The one exception is setAppIcon("") twice with nothing
   * recorded: both compare the main activity with itself, so the recorded
   * icon stays empty (its effective value is still the main activity, by the
   * contract of Request).
   */
  lemma LastWriterWins(p: PendingIcon, pkg: string, first: Option<string>, second: Option<string>)
    requires first != Some("") || p.icon != "" || second != Some("")
    ensures Request(Request(p, pkg, first), pkg, second).icon == RequestedComponent(pkg, second)
  {
  }
}
