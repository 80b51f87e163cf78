# expo-dynamic-app-icon in Dafny

A Dafny model of the core of expo-dynamic-app-icon, a React Native (Expo)
module that lets an app change its launcher icon at run time. The model
proves properties of that core.

On Android, every alternative icon is an `activity-alias` component named
`<package>.MainActivity<key>`, declared disabled in the manifest. The
runtime swaps icons by enabling one alias and disabling the others. The
model covers three parts:

- **`Activation`** (`activation.dfy`) models the lifecycle listener:
  - the process-wide pending-change record `SharedObject`;
  - the listener's `onPause` / `onResume` / `onDestroy` callbacks;
  - the private steps they drive: the icon switch, the "at least one launcher
    enabled" fallback, the repair of wrongly disabled activities, and the
    existence check.

  The OS package manager is a class with the package's declared components
  and their enabled states. A component that was never set is in its
  manifest default state. Each force-close the listener posts is recorded
  in `scheduledForceCloses`. The state after a commit is given by
  specification functions: `Switched`, `WithFallback`, `Committed` and
  `Repaired`. The methods are proved against them, and the lemmas state
  what those functions guarantee.
- **`AppIconModule`** (`icon_module.dfy`) models the JavaScript-facing
  functions:
  - `setAppIcon` records a request in the shared record;
  - `getAppIcon` reads the icon name back, from the piece of the component
    name after `"MainActivity"`.

  The lemmas prove the round trip between the two, and that the last
  request wins.
- **The config plugin** models the build-time transforms that fix the
  naming convention:
  - `IconConfig` (`plugin_config.dfy`): resolving the icon set and the iOS
    icon dimensions.
  - `AndroidManifestPlugin` (`plugin_android.dfy`): resource-safe names and
    the rewrite of the manifest's alias list.
  - `IosPlistPlugin` (`plugin_ios.dfy`): icon file names and the
    `CFBundleIcons` dictionaries of Info.plist.
  - `GeneratedTypes` (`plugin_types.dfy`): the `IconName` union type.

  `NamingConvention` (`naming.dfy`) proves that the plugin's aliases are
  exactly what the runtime treats as icon aliases, and that `getAppIcon`
  reads the key back from an alias name. In `Scenarios` (`scenarios.dfy`),
  verified scenarios drive the objects end to end: a switch, a repeated
  request, an undeclared target, and the repair pass.

Shared helpers live in `text.dfy`:
- `Options` holds the `Option` type, used for Kotlin `null` and TypeScript
  `undefined`.
- `Text` holds prefix tests, substring search, Kotlin's `split(...)[1]`,
  and decimal printing.

Where the code departs from what it evidently means to do, or behaves in
a way that is easy to miss, the model follows the code:

- **Repeated requests.** `setAppIcon` sets the dirty flag before the
  same-icon short-circuit. A request for the icon that is already current
  therefore still marks a change pending, and the next pause schedules a
  force-close. The same-icon return at `ExpoDynamicAppIconModule.kt:35-37`
  is evidently meant to make such a request a no-op, but the flag is set
  at line 16, before that return. See Findings.
- **Kotlin's `split("MainActivity")[1]`.** It is the piece between the
  first and the second occurrence of `MainActivity`, not the whole rest of
  the name. When the name has no occurrence at all, it throws
  (`IndexOutOfBoundsException`).
- **`setAppIcon("")` in a fresh process.** With nothing recorded, it
  compares the main activity with itself and records nothing, although the
  change is marked pending. `getAppIcon` then goes on reporting the alias
  the app runs from (`EmptyNameKeepsRunningAlias`). On the next pause,
  `applyIconChange` returns at once because the icon is empty, and it keeps
  the flag set (listener line 63). `onPause` still schedules a force-close
  (listener lines 28-33), although nothing changed (`OnPause`,
  `ApplyIconChange`).
- **Empty iOS source.** An icon whose iOS source is the empty string
  contributes nothing to Info.plist, because `!icon.ios` holds for `""`.
- **Empty intent-filter list.** If the main activity has an empty
  `intent-filter` list, the generated aliases get that empty list. An empty
  array is not falsy, so the MAIN/LAUNCHER default is used only when the
  list is absent.

## Model

| member | source | states |
|---|---|---|
| Text.SplitField1 | android/src/main/java/expo/modules/dynamicappicon/ExpoDynamicAppIconModule.kt:53 | `split(d)[1]` fails exactly when `d` does not occur; otherwise it contains no `d` |
| Text.SplitField1Position | android/src/main/java/expo/modules/dynamicappicon/ExpoDynamicAppIconModule.kt:53 | when `d` occurs, `split(d)[1]` is the text right after its first occurrence, running to the end of the name or to the next occurrence |
| Text.NatToStringInjective | plugin/src/withDynamicIcon.ts:541 | distinct list positions give distinct object keys |
| Activation.DisableOtherAliasesAt | android/src/main/java/expo/modules/dynamicappicon/ExpoDynamicAppIconReactActivityLifecycleListener.kt:85-103 | after the disabling loop a component is Disabled exactly when it is a declared icon alias other than the target (or already was); every other state is unchanged |
| Activation.SwitchedAt | android/src/main/java/expo/modules/dynamicappicon/ExpoDynamicAppIconReactActivityLifecycleListener.kt:85-110 | state of every component after the switch: target Enabled, other declared aliases Disabled, the rest unchanged |
| Activation.SwitchedExclusive | android/src/main/java/expo/modules/dynamicappicon/ExpoDynamicAppIconReactActivityLifecycleListener.kt:83-110 | with a declared target: the target is Enabled, every other declared `<pkg>.MainActivity*` component is Disabled (also those that were Default), so exactly one alias is enabled and a launcher exists |
| Activation.SwitchedScope | android/src/main/java/expo/modules/dynamicappicon/ExpoDynamicAppIconReactActivityLifecycleListener.kt:90-103 | a component outside the alias prefix, other than the target, keeps its state |
| Activation.DisableOtherAliasesNoop | android/src/main/java/expo/modules/dynamicappicon/ExpoDynamicAppIconReactActivityLifecycleListener.kt:92-95 | when the other aliases are already Disabled the loop writes nothing |
| Activation.CommitNeedsNoFallback | android/src/main/java/expo/modules/dynamicappicon/ExpoDynamicAppIconReactActivityLifecycleListener.kt:118-139 | after a successful switch the fallback finds an enabled component and does nothing |
| Activation.CommittedIdempotent | android/src/main/java/expo/modules/dynamicappicon/ExpoDynamicAppIconReactActivityLifecycleListener.kt:62-120 | committing the same pending icon twice equals committing it once |
| Activation.CommittedScope | android/src/main/java/expo/modules/dynamicappicon/ExpoDynamicAppIconReactActivityLifecycleListener.kt:62-121 | a commit leaves every component outside the alias prefix, other than the target, in its state |
| Activation.CommitAbortsOnMissingTarget | android/src/main/java/expo/modules/dynamicappicon/ExpoDynamicAppIconReactActivityLifecycleListener.kt:67-70 | an undeclared target changes no component state |
| Activation.CommittedKeepsLauncher | android/src/main/java/expo/modules/dynamicappicon/ExpoDynamicAppIconReactActivityLifecycleListener.kt:62-153 | a commit never leaves the app without an enabled launcher component when it had one, or when the switch succeeds |
| Activation.FallbackGuaranteesLauncher | android/src/main/java/expo/modules/dynamicappicon/ExpoDynamicAppIconReactActivityLifecycleListener.kt:131-147 | the fallback is a no-op when some component is explicitly Enabled (Default does not count), and otherwise leaves one Enabled, given the main activity is declared |
| Activation.RepairedAt | android/src/main/java/expo/modules/dynamicappicon/ExpoDynamicAppIconReactActivityLifecycleListener.kt:172-190 | pointwise effect of the repair pass: declared non-alias Disabled components become Default, everything else is unchanged |
| Activation.RepairedEffect | android/src/main/java/expo/modules/dynamicappicon/ExpoDynamicAppIconReactActivityLifecycleListener.kt:172-189 | after repair no declared non-alias component is Disabled; aliases keep their state; Enabled is preserved both ways |
| Activation.RepairedNoop | android/src/main/java/expo/modules/dynamicappicon/ExpoDynamicAppIconReactActivityLifecycleListener.kt:176-181 | repair changes nothing when no non-alias component is Disabled |
| Activation.RepairedIdempotent | android/src/main/java/expo/modules/dynamicappicon/ExpoDynamicAppIconReactActivityLifecycleListener.kt:159-194 | repairing twice equals repairing once |
| Activation.PackageManager.GetPackageInfo | android/src/main/java/expo/modules/dynamicappicon/ExpoDynamicAppIconReactActivityLifecycleListener.kt:74-79 | the declared components of the package, or a failure for another package name |
| Activation.PackageManager.GetComponentEnabledSetting | android/src/main/java/expo/modules/dynamicappicon/ExpoDynamicAppIconReactActivityLifecycleListener.kt:87 | the recorded state, Default when never set |
| Activation.PackageManager.SetComponentEnabledSetting | android/src/main/java/expo/modules/dynamicappicon/ExpoDynamicAppIconReactActivityLifecycleListener.kt:96-100 | sets the state of a declared component; an undeclared one fails and changes nothing |
| Activation.SharedObject.constructor | android/src/main/java/expo/modules/dynamicappicon/ExpoDynamicAppIconReactActivityLifecycleListener.kt:12-18 | the record's initial values |
| Activation.LifecycleListener.OnPause | android/src/main/java/expo/modules/dynamicappicon/ExpoDynamicAppIconReactActivityLifecycleListener.kt:24-35 | records the activity; a force-close is scheduled iff a change was pending on entry (also when the commit aborts), and then the commit is applied; otherwise nothing changes |
| Activation.LifecycleListener.OnResume | android/src/main/java/expo/modules/dynamicappicon/ExpoDynamicAppIconReactActivityLifecycleListener.kt:37-41 | only the repair pass runs; no change is applied and no force-close is scheduled |
| Activation.LifecycleListener.OnDestroy | android/src/main/java/expo/modules/dynamicappicon/ExpoDynamicAppIconReactActivityLifecycleListener.kt:43-50 | applies a pending change without scheduling a force-close; forgets the activity only if it is the current one |
| Activation.LifecycleListener.ApplyIconChange | android/src/main/java/expo/modules/dynamicappicon/ExpoDynamicAppIconReactActivityLifecycleListener.kt:62-121 | with an empty icon or no package manager nothing changes and the flag is kept; otherwise the flag is cleared and the states become `Committed` (abort on undeclared target, else switch plus fallback) |
| Activation.LifecycleListener.EnsureAtLeastOneComponentEnabled | android/src/main/java/expo/modules/dynamicappicon/ExpoDynamicAppIconReactActivityLifecycleListener.kt:123-153 | the states become `WithFallback` of the old ones |
| Activation.LifecycleListener.RepairIncorrectlyDisabledActivities | android/src/main/java/expo/modules/dynamicappicon/ExpoDynamicAppIconReactActivityLifecycleListener.kt:159-194 | the activity's package manager states become `Repaired` of the old ones (unchanged when the package lookup fails) |
| Activation.LifecycleListener.DoesComponentExist | android/src/main/java/expo/modules/dynamicappicon/ExpoDynamicAppIconReactActivityLifecycleListener.kt:197-212 | true iff there is a package manager, the lookup succeeds and the class name is declared |
| AppIconModule.Request | android/src/main/java/expo/modules/dynamicappicon/ExpoDynamicAppIconModule.kt:18-42 | the effective icon becomes the requested component; the kill list is unchanged iff a named request repeats the current icon, and otherwise grows by exactly the old current icon at the end |
| AppIconModule.SetAppIcon | android/src/main/java/expo/modules/dynamicappicon/ExpoDynamicAppIconModule.kt:12-47 | without a context returns false and changes nothing; without an activity returns false after recording the package name; otherwise records package name and package manager, always sets the dirty flag, applies `Request`, returns the name or "DEFAULT" |
| AppIconModule.SetAppIconIntended | android/src/main/java/expo/modules/dynamicappicon/ExpoDynamicAppIconModule.kt:16-37 | as SetAppIcon, but a request for the current icon leaves icon, kill list and dirty flag unchanged |
| AppIconModule.GetAppIcon | android/src/main/java/expo/modules/dynamicappicon/ExpoDynamicAppIconModule.kt:49-56 | fails iff there is no activity or the chosen name has no "MainActivity"; otherwise a non-empty name without "MainActivity", or "DEFAULT" |
| AppIconModule.MainActivityField | android/src/main/java/expo/modules/dynamicappicon/ExpoDynamicAppIconModule.kt:30-53 | splitting `<pkg>.MainActivity<n>` on "MainActivity" gives `n` |
| AppIconModule.SetThenGetName | android/src/main/java/expo/modules/dynamicappicon/ExpoDynamicAppIconModule.kt:30-55 | after setAppIcon(n), n non-empty, getAppIcon returns n |
| AppIconModule.ResetThenGetDefault | android/src/main/java/expo/modules/dynamicappicon/ExpoDynamicAppIconModule.kt:18-55 | after setAppIcon(null) getAppIcon returns "DEFAULT" |
| AppIconModule.EmptyNameThenGetDefault | android/src/main/java/expo/modules/dynamicappicon/ExpoDynamicAppIconModule.kt:30-55 | after setAppIcon("") with an icon recorded, getAppIcon returns "DEFAULT" |
| AppIconModule.EmptyNameKeepsRunningAlias | android/src/main/java/expo/modules/dynamicappicon/ExpoDynamicAppIconModule.kt:31-55 | with nothing recorded, setAppIcon("") records nothing and getAppIcon reports the running alias |
| AppIconModule.LastWriterWins | android/src/main/java/expo/modules/dynamicappicon/ExpoDynamicAppIconModule.kt:25-40 | after two requests the recorded icon is the one the second names, except when a fresh process gets `setAppIcon("")` and then `setAppIcon("")` again: the recorded icon then stays empty (the one case its requires excludes; see EmptyNameKeepsRunningAlias) |
| AppIconModule.CurrentIcon | android/src/main/java/expo/modules/dynamicappicon/ExpoDynamicAppIconModule.kt:20-33 | the icon the module treats as current is never empty: the recorded icon when there is one, else `<pkg>.MainActivity` |
| AppIconModule.RequestedComponent | android/src/main/java/expo/modules/dynamicappicon/ExpoDynamicAppIconModule.kt:20-30 | the component a request names is an icon alias of the package, and the part after `<pkg>.MainActivity` is the requested name (empty for `null`) |
| IconConfig.ResolveIcons | plugin/src/withDynamicIcon.ts:536-549 | no properties give no icons; an icon map is used as is; a list gives one icon per image, keyed by its position in decimal, keys distinct, carrying that image |
| IconConfig.ImageListIcons | plugin/src/withDynamicIcon.ts:539-543 | entry i of the list form is keyed by the decimal form of i and carries only the image |
| IconConfig.ImageListKeysDistinct | plugin/src/withDynamicIcon.ts:540-542 | the list form yields distinct keys |
| IconConfig.ResolveIconsImageListHasNoSources | plugin/src/withDynamicIcon.ts:536-549 | as written, the list form yields icons with neither an iOS nor an Android source |
| IconConfig.ImageListIconsIntended | plugin/src/withDynamicIcon.ts:539-543 | corrected list form: each image is both the iOS and the Android source of its entry |
| IconConfig.ResolveIconsIntendedHasSources | plugin/src/withDynamicIcon.ts:536-549 | corrected: every listed image is the iOS and Android source of exactly one icon, keyed by position, keys distinct |
| IconConfig.Complete | plugin/src/withDynamicIcon.ts:561-566 | width and height default to size times scale, target to null; scale and size are kept |
| IconConfig.ResolveDimensions | plugin/src/withDynamicIcon.ts:559-566 | every resolved dimension is untargeted or has a supported target |
| IconConfig.ResolveDimensionsSelects | plugin/src/withDynamicIcon.ts:559-566 | resolution yields exactly the completed forms of the dimensions that are untargeted or have a supported target |
| IconConfig.ResolveDimensionsAppend | plugin/src/withDynamicIcon.ts:559-566 | resolution preserves order (distributes over concatenation) |
| IconConfig.ResolveIconDimensions | plugin/src/withDynamicIcon.ts:552-566 | without tablet support the 120 and 180 pixel untargeted icons; with it also the 152 and 167 pixel iPad icons, in that order |
| AndroidManifestPlugin.GetSafeResourceName | plugin/src/withDynamicIcon.ts:112-114 | same length, only `[a-z0-9_]`, safe characters kept, upper case lowered, everything else `_` |
| AndroidManifestPlugin.SafeNameUnchanged | plugin/src/withDynamicIcon.ts:112-114 | a safe name is its own safe form |
| AndroidManifestPlugin.GetSafeResourceNameIdempotent | plugin/src/withDynamicIcon.ts:112-114 | getSafeResourceName is idempotent |
| AndroidManifestPlugin.RemoveIconActivityAlias | plugin/src/withDynamicIcon.ts:163-170 | keeps exactly the aliases whose name does not start with the prefix |
| AndroidManifestPlugin.RemoveAppend | plugin/src/withDynamicIcon.ts:163-170 | removal distributes over concatenation, so kept aliases keep their order |
| AndroidManifestPlugin.RemoveNoneGenerated | plugin/src/withDynamicIcon.ts:163-170 | a list without prefixed aliases is kept as is |
| AndroidManifestPlugin.RemoveAllGenerated | plugin/src/withDynamicIcon.ts:163-170 | a list of prefixed aliases is dropped entirely |
| AndroidManifestPlugin.IconActivityAlias | plugin/src/withDynamicIcon.ts:127-158 | the alias built for a key is named and carries the prefix |
| AndroidManifestPlugin.IconActivityAliasAttributes | plugin/src/withDynamicIcon.ts:132-157 | each appended alias is named prefix+key, disabled, exported, aimed at `.MainActivity`, with `@mipmap/<safe key>` and `@mipmap/<safe key>_round`, and the main activity's filters or MAIN/LAUNCHER |
| AndroidManifestPlugin.AddIconActivityAliasLayout | plugin/src/withDynamicIcon.ts:124-161 | the given aliases stay first and in place, followed by one icon alias per key, in key order |
| AndroidManifestPlugin.IconAliases | plugin/src/withDynamicIcon.ts:127-159 | one alias per key, in key order |
| AndroidManifestPlugin.RewriteShape | plugin/src/withDynamicIcon.ts:163-175 | rewritten list = the non-prefixed aliases in original order, then `IconAliases`: one alias per key, in key order |
| AndroidManifestPlugin.RewriteMarksGenerated | plugin/src/withDynamicIcon.ts:163-175 | every entry of the rewritten list is named, and an entry carries the prefix iff it was appended |
| AndroidManifestPlugin.RewriteKeepsForeignAliases | plugin/src/withDynamicIcon.ts:172-175 | an alias without the prefix is in the rewritten list iff it was in the old one |
| AndroidManifestPlugin.RewriteIdempotent | plugin/src/withDynamicIcon.ts:172-175 | rewriting twice equals rewriting once |
| AndroidManifestPlugin.MainApplication.WithIconActivityAliases | plugin/src/withDynamicIcon.ts:172-175 | the element's alias list becomes the rewrite of the old one (absent treated as empty) |
| AndroidManifestPlugin.IsPluginGeneratedIff | plugin/src/withDynamicIcon.ts:210-214 | a file counts as plugin-generated iff its name starts with an image name written for one of the keys |
| AndroidManifestPlugin.LauncherImageKept | plugin/src/withDynamicIcon.ts:206-214 | a key whose safe name is `ic_launcher` writes `ic_launcher.png`, which the clean-up recognises as generated and still keeps |
| AndroidManifestPlugin.GeneratedFilesRecognised | plugin/src/withDynamicIcon.ts:210-214 | every image written for a key is recognised as plugin-generated by the clean-up |
| IosPlistPlugin.TargetSuffix | plugin/src/withDynamicIcon.ts:576 | the suffix is empty exactly for untargeted dimensions |
| IosPlistPlugin.GetIconName | plugin/src/withDynamicIcon.ts:570-572 | the icon name starts with `<name>-Icon-` |
| IosPlistPlugin.IconNameSizeIff | plugin/src/withDynamicIcon.ts:570-572 | for one icon, two dimensions give the same icon name iff they have the same size |
| IosPlistPlugin.GetIconFileName | plugin/src/withDynamicIcon.ts:575-578 | the file name is the icon name, `@`, then ends in `.png` |
| IosPlistPlugin.IconFileNameInjective | plugin/src/withDynamicIcon.ts:570-578 | for one icon, equal file names mean equal size, scale and target |
| IosPlistPlugin.LastWithTarget | plugin/src/withDynamicIcon.ts:437-443 | the dimension whose entry survives is one with the target, and there is none iff no dimension has it |
| IosPlistPlugin.PlistItemContents | plugin/src/withDynamicIcon.ts:428-435 | the plist item has exactly `CFBundleIconFiles`, holding the one icon name, and `UIPrerenderedIcon`, the prerendered flag; two dimensions give the same item iff they have the same size |
| IosPlistPlugin.WithIconEntryEffect | plugin/src/withDynamicIcon.ts:426-443 | one icon's step sets its key iff the icon has an iOS source and some dimension has the target, to the item of the last such dimension; other keys are unchanged |
| IosPlistPlugin.AltIcons | plugin/src/withDynamicIcon.ts:424-445 | a target no dimension has gets no icons |
| IosPlistPlugin.AltIconsDomain | plugin/src/withDynamicIcon.ts:424-445 | a key is listed for a target iff some dimension has that target and some icon with that key has an iOS source |
| IosPlistPlugin.AltIconsEntry | plugin/src/withDynamicIcon.ts:426-443 | with distinct keys, the entry of an icon names its file for the last dimension of that target and its prerendered flag |
| IosPlistPlugin.CollectAltIcons | plugin/src/withDynamicIcon.ts:415-445 | the nested loop builds `altIcons` and `altIconsByTarget` (an iPad entry only once something is added) as `AltIcons` states |
| IosPlistPlugin.BundleIcons | plugin/src/withDynamicIcon.ts:447-463 | the new dictionary holds the alternate icons and the primary icon; an existing dictionary keeps its other keys, anything else is replaced by one with only those two keys |
| IosPlistPlugin.InfoPlistAfter | plugin/src/withDynamicIcon.ts:465-473 | `CFBundleIcons` is present, no key is lost, and the only keys added are `CFBundleIcons` and `CFBundleIcons~ipad` |
| IosPlistPlugin.InfoPlist.ApplyToPlist | plugin/src/withDynamicIcon.ts:447-463 | a missing or non-dictionary entry is replaced by an empty dictionary, then alternate icons and primary icon are set; no other key changes |
| IosPlistPlugin.InfoPlist.WithIconInfoPlist | plugin/src/withDynamicIcon.ts:414-476 | Info.plist becomes `InfoPlistAfter` of the old one |
| IosPlistPlugin.InfoPlistShape | plugin/src/withDynamicIcon.ts:447-473 | `CFBundleIcons` gets the untargeted icons and the primary icon and keeps its other keys; no key other than the two icon keys changes |
| IosPlistPlugin.IpadWrittenIff | plugin/src/withDynamicIcon.ts:466-473 | `CFBundleIcons~ipad` is written, with its icons and the primary icon, iff some icon has an iOS source and some dimension targets the iPad; otherwise it is untouched |
| IosPlistPlugin.ImageListGivesNoAlternateIcons | plugin/src/withDynamicIcon.ts:427-442 | as written, the list form of the properties yields no alternate icon for any target |
| IosPlistPlugin.ImageListIntendedGivesAlternateIcons | plugin/src/withDynamicIcon.ts:427-442 | corrected, every non-empty listed image becomes the alternate icon keyed by its position |
| GeneratedTypes.JoinQuoted | plugin/src/withDynamicIcon.ts:96 | the join is empty iff there are no names, and otherwise starts with a quote |
| GeneratedTypes.IconNameUnion | plugin/src/withDynamicIcon.ts:96 | the union is `string` exactly when there are no keys |
| GeneratedTypes.QuotedListRoundTrip | plugin/src/withDynamicIcon.ts:96 | the quoted, ` \| `-joined list reads back as its names |
| GeneratedTypes.UnionRoundTrip | plugin/src/withDynamicIcon.ts:95-98 | the union reads back as exactly the configured keys, in order, when no key holds a double quote |
| GeneratedTypes.IconNameDeclaration | plugin/src/withDynamicIcon.ts:98 | the declaration starts with `IconName: ` and, when no key holds a double quote, the rest reads back as exactly the configured keys |
| NamingConvention.PrefixIsMainActivity | plugin/src/withDynamicIcon.ts:121 | the plugin's prefix is the runtime's main activity name |
| NamingConvention.GeneratedAliasMatchesRequest | plugin/src/withDynamicIcon.ts:137 | the alias declared for key k is the component setAppIcon(k) names and is an icon alias at run time; the rewrite drops exactly the runtime's icon aliases |
| NamingConvention.GeneratedAliasReadsBack | plugin/src/withDynamicIcon.ts:137 | getAppIcon reads k back from the name of the alias declared for k |
| NamingConvention.SwitchToGeneratedAlias | android/src/main/java/expo/modules/dynamicappicon/ExpoDynamicAppIconReactActivityLifecycleListener.kt:83-110 | switching to the alias of one key disables the aliases of every other key and enables that one |
| Scenarios.SwitchToRed | android/src/main/java/expo/modules/dynamicappicon/ExpoDynamicAppIconReactActivityLifecycleListener.kt:24-35 | setAppIcon("red") then a pause: red Enabled, main and blue Disabled, one force-close, getAppIcon reports "red" |
| Scenarios.RepeatCurrentIcon | android/src/main/java/expo/modules/dynamicappicon/ExpoDynamicAppIconModule.kt:16-37 | as written, a repeated request for the current icon schedules a second force-close |
| Scenarios.RepeatCurrentIconIntended | android/src/main/java/expo/modules/dynamicappicon/ExpoDynamicAppIconModule.kt:35-37 | corrected, a repeated request schedules nothing |
| Scenarios.SwitchToUndeclared | android/src/main/java/expo/modules/dynamicappicon/ExpoDynamicAppIconReactActivityLifecycleListener.kt:67-70 | an undeclared target leaves red Enabled and clears the pending flag |
| Scenarios.RepairOnResume | android/src/main/java/expo/modules/dynamicappicon/ExpoDynamicAppIconReactActivityLifecycleListener.kt:159-194 | on resume an unrelated Disabled activity is reset to Default while a Disabled alias is untouched |

## Left out

- `forceCloseApp`, `Handler.postDelayed` and the 500 ms delay: a force-close is one entry in `scheduledForceCloses`. `finishAffinity`, `killProcess` and process death are not modelled.
- `Log` calls are not modelled.
- Package manager exceptions: only the two failures the model can name are kept, a lookup for another package name and a write to an undeclared component. Other OS failures, such as a rejected write, are not modelled.
- A package whose `activities` array is null is modelled as one with no declared components.
- Activation.LifecycleListener.EnsureAtLeastOneComponentEnabled: requires that the package lookup succeeds. Its `getPackageInfo` call is outside any `try`, and its only caller reaches it just after the existence check used the same lookup.
- The Expo module and config-plugin plumbing is replaced by parameters:
  - `requireNotNull` for the React context becomes an `Option` holding the package name.
  - `requireNotNull` for the current activity becomes a nullable `Activity`, or an `Option` holding its class name.
  - `withAndroidManifest`, `withInfoPlist`, `withDangerousMod`, `getMainApplicationOrThrow` and `getMainActivityOrThrow` are replaced by the element they yield. The main activity gives only its intent filters.
- Strings are sequences of characters, not UTF-16 code units. The only transform where this differs is the safe resource name (next line).
- AndroidManifestPlugin.GetSafeResourceName: replaces each character that is not `[a-zA-Z0-9_]` by one `_`. The source's regular expression has no `u` flag, so it replaces each UTF-16 code unit: a character outside the Basic Multilingual Plane becomes `__` there and `_` here.
- AppIconModule.SetAppIconIntended: compares with the recorded icon only. After a process restart the record is empty, so a request for the alias already enabled still marks a change pending and schedules a restart.
- AndroidManifestPlugin.RemovedByCleanUp: models only the name test of the clean-up at `withDynamicIcon.ts:206-214`, including the guard that keeps `ic_launcher.*` and `ic_launcher_round.*`. A key whose safe name is `ic_launcher` therefore writes an image that the clean-up never removes (LauncherImageKept).
- Intent filters keep only the `android:name` of their actions and categories. `data` elements and other attributes are dropped.
- AndroidManifestPlugin.RemoveIconActivityAlias: requires every existing alias to have an `android:name`. For an alias without one, the source throws a TypeError.
- Property-list values hold strings, booleans, integers, arrays and dictionaries. Dates and data blobs are not modelled.
- The only dimension target is the iPad, the one target the source defines. The loop over `altIconsByTarget` therefore has a single entry.
- The composition in `withDynamicIcon` is not modelled as one function. Each step it chains is modelled:
  - resolving icons and dimensions;
  - the types union;
  - the Info.plist step;
  - the manifest rewrite.
- File I/O is not modelled:
  - the type-file rewrite of `withGenerateTypes` (the regular-expression replacement and the file read and write);
  - image generation (`generateImageAsync`);
  - the Android and iOS folder clean-up and writes.

  Of these, only the file names and the `isPluginGenerated` name test are modelled.
- The Xcode project mutation in `withIconXcodeProject` is not modelled. It is a wrapper over `pbxFile` and `IOSConfig.XcodeUtils`, whose code is not part of this model.
- IosPlistPlugin.IconFileNameInjective: is proved for one icon name only. Across names it does not hold, since a key may itself contain `-Icon-`.

## Findings

| source | as written | input that shows it | evidently intended | confidence | as-written member | corrected member |
|---|---|---|---|---|---|---|
| plugin/src/withDynamicIcon.ts:539-543 | the list form maps each image path to `{ image: path }`, a property no later step reads | properties `["./a.png"]`: Info.plist gets no alternate icon; the manifest still gets an alias `<pkg>.MainActivity0` pointing at `@mipmap/0`, which is never generated | each image is the iOS and Android source of its entry (`{ ios: path, android: path }`) | medium, not executed | IconConfig.ResolveIconsImageListHasNoSources | IconConfig.ResolveIconsIntendedHasSources |
| android/src/main/java/expo/modules/dynamicappicon/ExpoDynamicAppIconModule.kt:16 | the dirty flag is set before the same-icon short-circuit at lines 35-37 | `red` active and recorded, `setAppIcon("red")`, app paused: a second force-close is scheduled although nothing changes | a request for the current icon leaves nothing pending and schedules no restart | medium, not executed | Scenarios.RepeatCurrentIcon | AppIconModule.SetAppIconIntended |
