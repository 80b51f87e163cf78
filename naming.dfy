/**
 * The naming convention that ties the build-time plugin to the runtime: the
 * aliases the plugin declares are exactly the components the runtime treats
 * as icon aliases, setAppIcon(k) targets the alias declared for key k, and
 * getAppIcon reads k back from its name.
 */
module NamingConvention {
  import opened Options
  import opened Text
  import opened Activation
  import opened AppIconModule
  import opened AndroidManifestPlugin

  /**
   * The build-time plugin and the runtime each spell out `<pkg>.MainActivity`
   * on their own; the two spellings agree, which is what lets every lemma
   * below move between the two halves.
   */
  lemma PrefixIsMainActivity(pkg: string)
    ensures IconNamePrefix(pkg) == MainActivityName(pkg)
  {
  }

  /**
   * The rewrite drops an alias exactly when the runtime would treat it as an
   * icon alias, and the alias declared for key k is the component
   * setAppIcon(k) names.
   */
  lemma GeneratedAliasMatchesRequest(pkg: string, k: string, mainFilters: Option<seq<IntentFilter>>)
    ensures var a := IconActivityAlias(IconNamePrefix(pkg), k, mainFilters);
      && AliasName(a) == RequestedComponent(pkg, Some(k))
      && IsIconAlias(AliasName(a), pkg)
    ensures forall a :: Named(a) ==> (IsGenerated(a, IconNamePrefix(pkg)) <==> IsIconAlias(AliasName(a), pkg))
  {
  }

  /**
   * getAppIcon reads the key back from the name of the alias the plugin
   * declared for it, whether that name is the recorded icon or the running
   * activity's class name.
   */
  lemma GeneratedAliasReadsBack(pkg: string, k: string, mainFilters: Option<seq<IntentFilter>>, running: string)
    requires k != "" && !Contains(pkg, Delimiter) && !Contains(k, Delimiter)
    ensures var name := AliasName(IconActivityAlias(IconNamePrefix(pkg), k, mainFilters));
      && GetAppIcon(name, Some(running)) == Some(k)
      && GetAppIcon("", Some(name)) == Some(k)
  {
    MainActivityField(pkg, k);
  }

  /**
   * After the runtime switches to the alias declared for key `keys[j]`, the
   * aliases of every other key are Disabled and that one is Enabled, given
   * that the keys are distinct and all declared.
   */
  lemma SwitchToGeneratedAlias(states: map<string, ComponentState>, names: seq<string>, pkg: string,
                               keys: seq<string>, mainFilters: Option<seq<IntentFilter>>, j: nat)
    requires j < |keys| && forall a, b :: 0 <= a < b < |keys| ==> keys[a] != keys[b]
    requires forall i :: 0 <= i < |keys| ==> MainActivityName(pkg) + keys[i] in names
    ensures var target := RequestedComponent(pkg, Some(keys[j]));
      && StateIn(Switched(states, names, pkg, target), target) == Enabled
      && forall i :: 0 <= i < |keys| && i != j ==>
           StateIn(Switched(states, names, pkg, target), MainActivityName(pkg) + keys[i]) == Disabled
  {
    var target := RequestedComponent(pkg, Some(keys[j]));
    SwitchedExclusive(states, names, pkg, target);
    forall i | 0 <= i < |keys| && i != j
      ensures StateIn(Switched(states, names, pkg, target), MainActivityName(pkg) + keys[i]) == Disabled
    {
      var n := MainActivityName(pkg) + keys[i];
      assert IsIconAlias(n, pkg) by {
        assert n[..|MainActivityName(pkg)|] == MainActivityName(pkg);
      }
      assert keys[i] != keys[j] by {
        if i < j {
          assert keys[i] != keys[j];
        } else {
          assert keys[j] != keys[i];
        }
      }
      SamePrefixIff(MainActivityName(pkg), keys[i], keys[j]);
    }
  }
}
