/**
 * The Android half of the config plugin: resource-safe icon names and the
 * rewrite of the main application's `activity-alias` list, which declares
 * one disabled launcher alias `<pkg>.MainActivity<key>` per icon.
 */
module AndroidManifestPlugin {
  import opened Options
  import opened Text

  // ---------------------------------------------------------------------------
  // getSafeResourceName
  // ---------------------------------------------------------------------------

  /** The characters an Android resource name may use. */
  predicate IsSafeResourceChar(c: char)
  {
    'a' <= c <= 'z' || '0' <= c <= '9' || c == '_'
  }

  predicate IsSafeResourceName(s: string)
  {
    forall i :: 0 <= i < |s| ==> IsSafeResourceChar(s[i])
  }

  /** One character of getSafeResourceName: outside `[a-zA-Z0-9_]` it becomes `_`, then upper case is lowered. */
  function SafeResourceChar(c: char): char
  {
    if 'a' <= c <= 'z' || '0' <= c <= '9' || c == '_' then c
    else if 'A' <= c <= 'Z' then (c as int - 'A' as int + 'a' as int) as char
    else '_'
  }

  /**
   * getSafeResourceName: the name with every character outside
   * `[a-zA-Z0-9_]` replaced by `_`, then lower-cased.
   */
  function GetSafeResourceName(name: string): (r: string)
    ensures |r| == |name|
    ensures IsSafeResourceName(r)
    ensures forall i :: 0 <= i < |name| && IsSafeResourceChar(name[i]) ==> r[i] == name[i]
    ensures forall i :: 0 <= i < |name| && 'A' <= name[i] <= 'Z' ==> r[i] as int == name[i] as int + 32
    ensures forall i :: 0 <= i < |name| && !IsSafeResourceChar(name[i]) && !('A' <= name[i] <= 'Z') ==> r[i] == '_'
  {
    if name == [] then []
    else [SafeResourceChar(name[0])] + GetSafeResourceName(name[1..])
  }

  /** A name that is already safe is its own safe form. */
  lemma {:induction false} SafeNameUnchanged(name: string)
    requires IsSafeResourceName(name)
    ensures GetSafeResourceName(name) == name
  {
    if name != [] {
      SafeNameUnchanged(name[1..]);
    }
  }

  /** getSafeResourceName is idempotent. */
  lemma GetSafeResourceNameIdempotent(name: string)
    ensures GetSafeResourceName(GetSafeResourceName(name)) == GetSafeResourceName(name)
  {
    SafeNameUnchanged(GetSafeResourceName(name));
  }

  // ---------------------------------------------------------------------------
  // The activity-alias list
  // ---------------------------------------------------------------------------

  /** An `intent-filter` element: the `android:name` of each action and each category. */
  datatype IntentFilter = IntentFilter(actions: seq<string>, categories: seq<string>)

  /** An `activity-alias` element: its attributes (`$`) and its intent filters. */
  datatype ActivityAlias = ActivityAlias(attributes: map<string, string>, intentFilters: seq<IntentFilter>)

  const NameAttribute: string := "android:name"

  /** The filter given to every alias when the main activity has none. */
  const LauncherFilter: IntentFilter := IntentFilter(["android.intent.action.MAIN"], ["android.intent.category.LAUNCHER"])

  predicate Named(a: ActivityAlias)
  {
    NameAttribute in a.attributes
  }

  predicate AllNamed(aliases: seq<ActivityAlias>)
  {
    forall i :: 0 <= i < |aliases| ==> Named(aliases[i])
  }

  /** The alias's `android:name`. */
  function AliasName(a: ActivityAlias): string
    requires Named(a)
  {
    a.attributes[NameAttribute]
  }

  /**
   * The prefix every icon alias name starts with, `<pkg>.MainActivity`, as
   * the plugin builds it. The runtime builds the same name on its own
   * (Activation.MainActivityName); NamingConvention.PrefixIsMainActivity
   * states that the two agree.
   */
  function IconNamePrefix(pkg: string): string
  {
    pkg + ".MainActivity"
  }

  /** The alias whose `android:name` starts with `prefix` (the ones removeIconActivityAlias drops). */
  predicate IsGenerated(a: ActivityAlias, prefix: string)
    requires Named(a)
  {
    StartsWith(AliasName(a), prefix)
  }

  /** removeIconActivityAlias: the aliases whose name does not start with the prefix, in their order. */
  function RemoveIconActivityAlias(aliases: seq<ActivityAlias>, prefix: string): (r: seq<ActivityAlias>)
    requires AllNamed(aliases)
    ensures |r| <= |aliases|
    ensures AllNamed(r)
    ensures forall a :: a in r ==> a in aliases && !IsGenerated(a, prefix)
    ensures forall i :: 0 <= i < |aliases| && !IsGenerated(aliases[i], prefix) ==> aliases[i] in r
  {
    if aliases == [] then []
    else
      var rest := RemoveIconActivityAlias(aliases[1..], prefix);
      assert forall i :: 1 <= i < |aliases| ==> aliases[i] == aliases[1..][i - 1];
      if IsGenerated(aliases[0], prefix) then rest else [aliases[0]] + rest
  }

  /** Removal is a filter: it distributes over concatenation, so the kept aliases keep their relative order. */
  lemma {:induction false} RemoveAppend(a: seq<ActivityAlias>, b: seq<ActivityAlias>, prefix: string)
    requires AllNamed(a) && AllNamed(b)
    ensures AllNamed(a + b)
    ensures RemoveIconActivityAlias(a + b, prefix) == RemoveIconActivityAlias(a, prefix) + RemoveIconActivityAlias(b, prefix)
  {
    assert AllNamed(a + b) by {
      forall i | 0 <= i < |a + b|
        ensures Named((a + b)[i])
      {
        if i < |a| {
          assert (a + b)[i] == a[i];
        } else {
          assert (a + b)[i] == b[i - |a|];
        }
      }
    }
    if a != [] {
      assert (a + b)[1..] == a[1..] + b;
      assert AllNamed(a[1..]) by {
        forall i | 0 <= i < |a[1..]|
          ensures Named(a[1..][i])
        {
          assert a[1..][i] == a[i + 1];
        }
      }
      RemoveAppend(a[1..], b, prefix);
    } else {
      assert a + b == b;
    }
  }

  /** Removal leaves a list without generated aliases as it is. */
  lemma {:induction false} RemoveNoneGenerated(aliases: seq<ActivityAlias>, prefix: string)
    requires AllNamed(aliases)
    requires forall i :: 0 <= i < |aliases| ==> !IsGenerated(aliases[i], prefix)
    ensures RemoveIconActivityAlias(aliases, prefix) == aliases
  {
    if aliases != [] {
      assert forall i :: 0 <= i < |aliases[1..]| ==> aliases[1..][i] == aliases[i + 1];
      RemoveNoneGenerated(aliases[1..], prefix);
    }
  }

  /** Removal drops a list made only of generated aliases entirely. */
  lemma {:induction false} RemoveAllGenerated(aliases: seq<ActivityAlias>, prefix: string)
    requires AllNamed(aliases)
    requires forall i :: 0 <= i < |aliases| ==> IsGenerated(aliases[i], prefix)
    ensures RemoveIconActivityAlias(aliases, prefix) == []
  {
    if aliases != [] {
      assert forall i :: 0 <= i < |aliases[1..]| ==> aliases[1..][i] == aliases[i + 1];
      RemoveAllGenerated(aliases[1..], prefix);
    }
  }

  /**
   * The alias addIconActivityAlias builds for one icon key: named
   * prefix+key, disabled, exported, aimed at `.MainActivity`, with the
   * mipmap resources of the key's safe name, and with the main activity's
   * intent filters (`mainFilters`, None when it has no `intent-filter`) or
   * the MAIN/LAUNCHER filter when there are none. An empty list of filters
   * is kept as it is, since an empty array is not falsy.
   */
  function IconActivityAlias(prefix: string, iconKey: string, mainFilters: Option<seq<IntentFilter>>): (a: ActivityAlias)
    ensures Named(a) && IsGenerated(a, prefix)
  {
    var safeIconKey := GetSafeResourceName(iconKey);
    ActivityAlias(
      map[
        NameAttribute := prefix + iconKey,
        "android:enabled" := "false",
        "android:exported" := "true",
        "android:icon" := "@mipmap/" + safeIconKey,
        "android:targetActivity" := ".MainActivity",
        "android:roundIcon" := "@mipmap/" + safeIconKey + "_round"
      ],
      mainFilters.GetOr([LauncherFilter]))
  }

  /** The aliases addIconActivityAlias appends, one per key in key order. */
  function IconAliases(prefix: string, iconKeys: seq<string>, mainFilters: Option<seq<IntentFilter>>): (r: seq<ActivityAlias>)
    ensures |r| == |iconKeys| && AllNamed(r)
    ensures forall j :: 0 <= j < |iconKeys| ==> r[j] == IconActivityAlias(prefix, iconKeys[j], mainFilters)
  {
    seq(|iconKeys|, j requires 0 <= j < |iconKeys| => IconActivityAlias(prefix, iconKeys[j], mainFilters))
  }

  /** addIconActivityAlias: the given aliases, kept in place, followed by one new alias per icon key. */
  function AddIconActivityAlias(aliases: seq<ActivityAlias>, prefix: string, iconKeys: seq<string>, mainFilters: Option<seq<IntentFilter>>)
    : seq<ActivityAlias>
  {
    aliases + IconAliases(prefix, iconKeys, mainFilters)
  }

  /** addIconActivityAlias keeps the given aliases in place and in order, and appends the alias of each key in key order. */
  lemma AddIconActivityAliasLayout(aliases: seq<ActivityAlias>, prefix: string, iconKeys: seq<string>, mainFilters: Option<seq<IntentFilter>>)
    ensures var r := AddIconActivityAlias(aliases, prefix, iconKeys, mainFilters);
      && |r| == |aliases| + |iconKeys|
      && r[..|aliases|] == aliases
      && forall j :: 0 <= j < |iconKeys| ==> r[|aliases| + j] == IconActivityAlias(prefix, iconKeys[j], mainFilters)
  {
    var r := AddIconActivityAlias(aliases, prefix, iconKeys, mainFilters);
    var added := IconAliases(prefix, iconKeys, mainFilters);
    assert forall j :: 0 <= j < |iconKeys| ==> r[|aliases| + j] == added[j];
  }

  /**
   * The rewrite of `mainApplication["activity-alias"]` (None when the
   * element has no aliases): drop the generated aliases, then append the
   * new ones.
   */
  function RewriteActivityAliases(current: Option<seq<ActivityAlias>>, pkg: string, iconKeys: seq<string>, mainFilters: Option<seq<IntentFilter>>)
    : seq<ActivityAlias>
    requires AllNamed(current.GetOr([]))
  {
    var prefix := IconNamePrefix(pkg);
    AddIconActivityAlias(RemoveIconActivityAlias(current.GetOr([]), prefix), prefix, iconKeys, mainFilters)
  }

  /** Every appended alias: disabled, exported, aimed at `.MainActivity`, with the key's mipmap resources and the main activity's filters. */
  lemma IconActivityAliasAttributes(prefix: string, iconKey: string, mainFilters: Option<seq<IntentFilter>>)
    ensures var a := IconActivityAlias(prefix, iconKey, mainFilters);
      var safe := GetSafeResourceName(iconKey);
      && AliasName(a) == prefix + iconKey
      && a.attributes["android:enabled"] == "false"
      && a.attributes["android:exported"] == "true"
      && a.attributes["android:targetActivity"] == ".MainActivity"
      && a.attributes["android:icon"] == "@mipmap/" + safe
      && a.attributes["android:roundIcon"] == "@mipmap/" + safe + "_round"
      && a.intentFilters == (if mainFilters.Some? then mainFilters.value else [LauncherFilter])
  {
  }

  /**
   * The shape of the rewritten list: the aliases not carrying the prefix, in
   * their original order, then exactly the aliases IconAliases builds: one
   * per icon key, in key order (each as IconActivityAliasAttributes describes).
   */
  lemma RewriteShape(current: Option<seq<ActivityAlias>>, pkg: string, iconKeys: seq<string>, mainFilters: Option<seq<IntentFilter>>)
    requires AllNamed(current.GetOr([]))
    ensures var r := RewriteActivityAliases(current, pkg, iconKeys, mainFilters);
      var kept := RemoveIconActivityAlias(current.GetOr([]), IconNamePrefix(pkg));
      && |r| == |kept| + |iconKeys|
      && r[..|kept|] == kept
      && r[|kept|..] == IconAliases(IconNamePrefix(pkg), iconKeys, mainFilters)
  {
    var prefix := IconNamePrefix(pkg);
    var kept := RemoveIconActivityAlias(current.GetOr([]), prefix);
    var added := IconAliases(prefix, iconKeys, mainFilters);
    assert RewriteActivityAliases(current, pkg, iconKeys, mainFilters) == kept + added;
  }

  /** An alias of the rewritten list carries the prefix exactly when it is one of the appended ones. */
  lemma RewriteMarksGenerated(current: Option<seq<ActivityAlias>>, pkg: string, iconKeys: seq<string>, mainFilters: Option<seq<IntentFilter>>)
    requires AllNamed(current.GetOr([]))
    ensures var r := RewriteActivityAliases(current, pkg, iconKeys, mainFilters);
      var kept := RemoveIconActivityAlias(current.GetOr([]), IconNamePrefix(pkg));
      && AllNamed(r)
      && forall i :: 0 <= i < |r| ==> (IsGenerated(r[i], IconNamePrefix(pkg)) <==> |kept| <= i)
  {
    var prefix := IconNamePrefix(pkg);
    var kept := RemoveIconActivityAlias(current.GetOr([]), prefix);
    AppendedMarksGenerated(kept, prefix, iconKeys, mainFilters);
  }

  /** In `kept` followed by the new aliases, an alias carries the prefix exactly when it is one of the new ones. */
  lemma AppendedMarksGenerated(kept: seq<ActivityAlias>, prefix: string, iconKeys: seq<string>, mainFilters: Option<seq<IntentFilter>>)
    requires AllNamed(kept) && forall a :: a in kept ==> !IsGenerated(a, prefix)
    ensures var r := AddIconActivityAlias(kept, prefix, iconKeys, mainFilters);
      && AllNamed(r)
      && forall i :: 0 <= i < |r| ==> (IsGenerated(r[i], prefix) <==> |kept| <= i)
  {
    var r := AddIconActivityAlias(kept, prefix, iconKeys, mainFilters);
    forall i | 0 <= i < |r|
      ensures Named(r[i]) && (IsGenerated(r[i], prefix) <==> |kept| <= i)
    {
      if i < |kept| {
        assert r[i] == r[..|kept|][i] == kept[i];
        assert kept[i] in kept;
      } else {
        assert r[|kept| + (i - |kept|)] == IconActivityAlias(prefix, iconKeys[i - |kept|], mainFilters);
      }
    }
  }

  /**
   * The rewrite touches only the plugin's own aliases: every alias of the
   * old list without the prefix is still there, and every alias of the new
   * list without the prefix was there before.
   */
  lemma RewriteKeepsForeignAliases(current: Option<seq<ActivityAlias>>, pkg: string, iconKeys: seq<string>, mainFilters: Option<seq<IntentFilter>>)
    requires AllNamed(current.GetOr([]))
    ensures var r := RewriteActivityAliases(current, pkg, iconKeys, mainFilters);
      var before := current.GetOr([]);
      && AllNamed(r)
      && (forall i :: 0 <= i < |before| && !IsGenerated(before[i], IconNamePrefix(pkg)) ==> before[i] in r)
      && (forall i :: 0 <= i < |r| && !IsGenerated(r[i], IconNamePrefix(pkg)) ==> r[i] in before)
  {
    var prefix := IconNamePrefix(pkg);
    var r := RewriteActivityAliases(current, pkg, iconKeys, mainFilters);
    var kept := RemoveIconActivityAlias(current.GetOr([]), prefix);
    RewriteShape(current, pkg, iconKeys, mainFilters);
    RewriteMarksGenerated(current, pkg, iconKeys, mainFilters);
    forall i | 0 <= i < |r| && !IsGenerated(r[i], prefix)
      ensures r[i] in current.GetOr([])
    {
      assert r[i] == r[..|kept|][i];
      assert r[i] in kept;
    }
    forall a | a in kept
      ensures a in r
    {
      var i :| 0 <= i < |kept| && kept[i] == a;
      assert r[..|kept|][i] == a;
    }
  }

  /** Rewriting twice gives the same list as rewriting once. */
  lemma RewriteIdempotent(current: Option<seq<ActivityAlias>>, pkg: string, iconKeys: seq<string>, mainFilters: Option<seq<IntentFilter>>)
    requires AllNamed(current.GetOr([]))
    ensures AllNamed(RewriteActivityAliases(current, pkg, iconKeys, mainFilters))
    ensures var once := RewriteActivityAliases(current, pkg, iconKeys, mainFilters);
      RewriteActivityAliases(Some(once), pkg, iconKeys, mainFilters) == once
  {
    var prefix := IconNamePrefix(pkg);
    var kept := RemoveIconActivityAlias(current.GetOr([]), prefix);
    var added := IconAliases(prefix, iconKeys, mainFilters);
    var once := kept + added;
    assert RewriteActivityAliases(current, pkg, iconKeys, mainFilters) == once;
    forall i | 0 <= i < |kept|
      ensures !IsGenerated(kept[i], prefix)
    {
      assert kept[i] in kept;
    }
    RemoveNoneGenerated(kept, prefix);
    RemoveAllGenerated(added, prefix);
    RemoveAppend(kept, added, prefix);
    assert RemoveIconActivityAlias(once, prefix) == kept;
  }

  /**
   * The `<application>` element of the manifest, of which the rewrite
   * touches only the `activity-alias` list.
   */
  class MainApplication {
    var activityAliases: Option<seq<ActivityAlias>>

    constructor (activityAliases: Option<seq<ActivityAlias>>)
      ensures this.activityAliases == activityAliases
    {
      this.activityAliases := activityAliases;
    }

    /**
     * The body of withIconAndroidManifest: read the alias list (empty when
     * absent), drop the generated aliases, append the new ones and store the
     * list back.
     */
    method WithIconActivityAliases(pkg: string, iconKeys: seq<string>, mainFilters: Option<seq<IntentFilter>>)
      requires AllNamed(activityAliases.GetOr([]))
      modifies this
      ensures activityAliases == Some(RewriteActivityAliases(old(activityAliases), pkg, iconKeys, mainFilters))
    {
      var iconNamePrefix := IconNamePrefix(pkg);
      var aliases := activityAliases.GetOr([]);
      aliases := RemoveIconActivityAlias(aliases, iconNamePrefix);
      aliases := AddIconActivityAlias(aliases, iconNamePrefix, iconKeys, mainFilters);
      activityAliases := Some(aliases);
    }
  }

  // ---------------------------------------------------------------------------
  // Recognising generated resource files
  // ---------------------------------------------------------------------------

  /**
   * The square and round launcher images the Android image step writes for
   * an icon key, `fileNameSquare` and `fileNameRound` at
   * withDynamicIcon.ts:270 and :292.
   */
  function IconResourceFiles(iconKey: string): seq<string>
  {
    var safe := GetSafeResourceName(iconKey);
    [safe + ".png", safe + "_round.png"]
  }

  /** The `isPluginGenerated` test of the clean-up: the file starts with a key's square or round image name. */
  predicate IsPluginGenerated(file: string, iconKeys: seq<string>)
  {
    exists k :: k in iconKeys && (StartsWith(file, GetSafeResourceName(k) + ".png") || StartsWith(file, GetSafeResourceName(k) + "_round.png"))
  }

  /** The name test recognises exactly the files whose name starts with the name of a file written for some key. */
  lemma IsPluginGeneratedIff(file: string, iconKeys: seq<string>)
    ensures IsPluginGenerated(file, iconKeys) <==>
      exists k :: k in iconKeys && exists f :: f in IconResourceFiles(k) && StartsWith(file, f)
  {
  }

  /**
   * The whole test of the clean-up loop: a file is deleted when it is not
   * one of the app's own launcher images (`ic_launcher.*`,
   * `ic_launcher_round.*`) and the plugin generated it.
   */
  predicate RemovedByCleanUp(file: string, iconKeys: seq<string>)
  {
    && !StartsWith(file, "ic_launcher.")
    && !StartsWith(file, "ic_launcher_round.")
    && IsPluginGenerated(file, iconKeys)
  }

  /** `ic_launcher` is already a safe resource name. */
  lemma LauncherNameSafe()
    ensures GetSafeResourceName("ic_launcher") == "ic_launcher"
  {
    var launcher := "ic_launcher";
    assert IsSafeResourceName(launcher) by {
      forall i | 0 <= i < |launcher|
        ensures IsSafeResourceChar(launcher[i])
      {
        assert launcher[i] in "abcdefghijklmnopqrstuvwxyz_";
      }
    }
    SafeNameUnchanged(launcher);
  }

  /**
   * The launcher guard wins over the name test: an icon key whose safe name
   * is `ic_launcher` writes `ic_launcher.png`, which the name test
   * recognises but the clean-up keeps.
   */
  lemma LauncherImageKept(iconKeys: seq<string>, k: string)
    requires k in iconKeys && GetSafeResourceName(k) == "ic_launcher"
    ensures "ic_launcher.png" in IconResourceFiles(k)
    ensures IsPluginGenerated("ic_launcher.png", iconKeys)
    ensures !RemovedByCleanUp("ic_launcher.png", iconKeys)
  {
    var file := GetSafeResourceName(k) + ".png";
    assert file == "ic_launcher.png";
    assert StartsWith(file, GetSafeResourceName(k) + ".png");
    assert StartsWith(file, "ic_launcher.") by {
      assert file[..|"ic_launcher."|] == "ic_launcher.";
    }
  }


  /** Every image written for a key is recognised as generated by the clean-up of a later run with that key. */
  lemma GeneratedFilesRecognised(iconKeys: seq<string>, k: string, file: string)
    requires k in iconKeys && file in IconResourceFiles(k)
    ensures IsPluginGenerated(file, iconKeys)
  {
    var safe := GetSafeResourceName(k);
    assert StartsWith(safe + ".png", safe + ".png");
    assert StartsWith(safe + "_round.png", safe + "_round.png");
  }
}
