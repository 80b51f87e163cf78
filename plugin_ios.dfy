/**
 * The iOS half of the config plugin: the icon file names and the
 * `CFBundleIcons` dictionaries of Info.plist, which list one alternate icon
 * per icon key that has an iOS source.
 */
module IosPlistPlugin {
  import opened Options
  import opened Text
  import opened IconConfig

  // ---------------------------------------------------------------------------
  // File names
  // ---------------------------------------------------------------------------

  /** getIconName: `<name>-Icon-<size>x<size>`, the name Info.plist refers to. */
  function GetIconName(name: string, d: Dimension): (r: string)
    ensures StartsWith(r, name + "-Icon-")
  {
    var r := name + "-Icon-" + NatToString(d.size) + "x" + NatToString(d.size);
    assert r == (name + "-Icon-") + (NatToString(d.size) + "x" + NatToString(d.size));
    r
  }

  /**
   * For one icon, the name Info.plist refers to is determined by the size
   * alone: the 2x and 3x images (and the iPad ones) of one size share it,
   * and different sizes get different names.
   */
  lemma IconNameSizeIff(name: string, d1: Dimension, d2: Dimension)
    ensures GetIconName(name, d1) == GetIconName(name, d2) <==> d1.size == d2.size
  {
    var p := name + "-Icon-";
    var s1, s2 := NatToString(d1.size), NatToString(d2.size);
    assert GetIconName(name, d1) == p + (s1 + ("x" + s1));
    assert GetIconName(name, d2) == p + (s2 + ("x" + s2));
    if GetIconName(name, d1) == GetIconName(name, d2) {
      CancelPrefix(p, s1 + ("x" + s1), s2 + ("x" + s2));
      DigitPrefixUnique(s1, "x" + s1, s2, "x" + s2);
      NatToStringInjective(d1.size, d2.size);
    }
  }

  /** `~<target>` for a targeted dimension, nothing otherwise. */
  function TargetSuffix(t: Option<Target>): (r: string)
    ensures r == "" <==> t.None?
  {
    if t.Some? then "~" + TargetName(t.value) else ""
  }

  /** getIconFileName: `<icon name>@<scale>x[~<target>].png`, the file each image is written to. */
  function GetIconFileName(name: string, d: Dimension): (r: string)
    ensures StartsWith(r, GetIconName(name, d) + "@")
    ensures |r| >= 4 && r[|r| - 4..] == ".png"
  {
    var r := GetIconName(name, d) + "@" + NatToString(d.scale) + "x" + TargetSuffix(d.target) + ".png";
    assert r == (GetIconName(name, d) + "@") + (NatToString(d.scale) + "x" + TargetSuffix(d.target) + ".png");
    r
  }

  /**
   * For one icon, distinct dimensions that differ in size, scale or target
   * get distinct file names, so no image overwrites another. (Width and
   * height do not enter the name.)
   */
  lemma IconFileNameInjective(name: string, d1: Dimension, d2: Dimension)
    requires GetIconFileName(name, d1) == GetIconFileName(name, d2)
    ensures d1.size == d2.size && d1.scale == d2.scale && d1.target == d2.target
  {
    var p := name + "-Icon-";
    var s1, s2 := NatToString(d1.size), NatToString(d2.size);
    var c1, c2 := NatToString(d1.scale), NatToString(d2.scale);
    var y1, y2 := "x" + TargetSuffix(d1.target) + ".png", "x" + TargetSuffix(d2.target) + ".png";
    var x1, x2 := ("x" + s1 + "@") + (c1 + y1), ("x" + s2 + "@") + (c2 + y2);
    FileNameParts(name, d1);
    FileNameParts(name, d2);
    CancelPrefix(p, s1 + x1, s2 + x2);
    DigitPrefixUnique(s1, x1, s2, x2);
    NatToStringInjective(d1.size, d2.size);
    CancelPrefix("x" + s1 + "@", c1 + y1, c2 + y2);
    DigitPrefixUnique(c1, y1, c2, y2);
    NatToStringInjective(d1.scale, d2.scale);
    assert y1 == y2;
    assert |TargetSuffix(d1.target)| == |TargetSuffix(d2.target)|;
    if d1.target.Some? && d2.target.Some? {
      assert d1.target.value == IPad && d2.target.value == IPad;
    }
  }

  /** The file name split at the places where the size and the scale begin. */
  lemma FileNameParts(name: string, d: Dimension)
    ensures GetIconFileName(name, d) ==
      (name + "-Icon-") + (NatToString(d.size) + (("x" + NatToString(d.size) + "@") + (NatToString(d.scale) + ("x" + TargetSuffix(d.target) + ".png"))))
  {
  }

  // ---------------------------------------------------------------------------
  // Info.plist
  // ---------------------------------------------------------------------------

  /** A property-list value. */
  datatype PlistValue =
    | PString(s: string)
    | PBool(b: bool)
    | PInteger(n: int)
    | PArray(items: seq<PlistValue>)
    | PDict(entries: map<string, PlistValue>)

  /**
   * The alternate-icon entry for one icon and dimension: a dictionary with
   * exactly two keys, the one-element list of the icon's name for the
   * dimension and the prerendered flag.
   */
  function PlistItem(key: string, icon: IconProps, d: Dimension): PlistValue
  {
    PDict(map[
      "CFBundleIconFiles" := PArray([PString(GetIconName(key, d))]),
      "UIPrerenderedIcon" := PBool(icon.prerendered)])
  }

  /**
   * The entry holds the icon's name for the dimension and the prerendered
   * flag and nothing else, so it does not depend on the scale or the target:
   * two dimensions of one size give the same entry.
   */
  lemma PlistItemContents(key: string, icon: IconProps, d: Dimension, d': Dimension)
    ensures var r := PlistItem(key, icon, d);
      && r.PDict? && r.entries.Keys == {"CFBundleIconFiles", "UIPrerenderedIcon"}
      && r.entries["CFBundleIconFiles"] == PArray([PString(GetIconName(key, d))])
      && r.entries["UIPrerenderedIcon"] == PBool(icon.prerendered)
    ensures PlistItem(key, icon, d) == PlistItem(key, icon, d') <==> d.size == d'.size
  {
    IconNameSizeIff(key, d, d');
    if PlistItem(key, icon, d) == PlistItem(key, icon, d') {
      assert PlistItem(key, icon, d).entries["CFBundleIconFiles"] == PlistItem(key, icon, d').entries["CFBundleIconFiles"];
    }
  }

  /** `CFBundlePrimaryIcon`, written into every dictionary the step touches. */
  const PrimaryIcon: PlistValue := PDict(map["CFBundleIconFiles" := PArray([PString("AppIcon")])])

  /** The `if (!icon.ios) return` guard: an absent or empty iOS source contributes nothing. */
  predicate HasIosSource(icon: IconProps)
  {
    icon.ios.Some? && icon.ios.value != ""
  }

  /** The last dimension whose target is `t` (None: untargeted), the one whose entry survives the loop. */
  function LastWithTarget(dims: seq<Dimension>, t: Option<Target>): (r: Option<Dimension>)
    ensures r.Some? ==> r.value in dims && r.value.target == t
    ensures r.None? <==> forall i :: 0 <= i < |dims| ==> dims[i].target != t
  {
    if dims == [] then None
    else if dims[|dims| - 1].target == t then Some(dims[|dims| - 1])
    else
      var r := LastWithTarget(dims[..|dims| - 1], t);
      assert forall i :: 0 <= i < |dims| - 1 ==> dims[..|dims| - 1][i] == dims[i];
      r
  }

  /** What the loop over the dimensions does, for one icon, to the dictionary of target `t`. */
  function WithIconEntry(m: map<string, PlistValue>, key: string, icon: IconProps, dims: seq<Dimension>, t: Option<Target>)
    : map<string, PlistValue>
  {
    var last := LastWithTarget(dims, t);
    if HasIosSource(icon) && last.Some? then m[key := PlistItem(key, icon, last.value)] else m
  }

  /**
   * One icon's pass over the dimensions changes at most its own key: the key
   * is set, to the entry of the last dimension with target `t`, exactly when
   * the icon has an iOS source and some dimension has that target.
   */
  lemma WithIconEntryEffect(m: map<string, PlistValue>, key: string, icon: IconProps, dims: seq<Dimension>, t: Option<Target>)
    ensures var r := WithIconEntry(m, key, icon, dims, t);
      && (forall k :: k != key ==> (k in r <==> k in m) && (k in m ==> r[k] == m[k]))
      && (key in r <==> key in m || (HasIosSource(icon) && LastWithTarget(dims, t).Some?))
      && (HasIosSource(icon) && LastWithTarget(dims, t).Some? ==>
            key in r && r[key] == PlistItem(key, icon, LastWithTarget(dims, t).value))
  {
  }

  /** The alternate icons the Info.plist step collects for target `t` (None: `altIcons`; Some: `altIconsByTarget[t]`). */
  function AltIcons(icons: IconSet, dims: seq<Dimension>, t: Option<Target>): (r: map<string, PlistValue>)
    ensures LastWithTarget(dims, t).None? ==> r == map[]
  {
    if icons == [] then map[]
    else
      var n := |icons| - 1;
      WithIconEntry(AltIcons(icons[..n], dims, t), icons[n].0, icons[n].1, dims, t)
  }

  /** `altIconsByTarget`: an entry for the iPad exists once one icon has been added to it. */
  function ByTarget(m: map<string, PlistValue>): map<Target, map<string, PlistValue>>
  {
    if m == map[] then map[] else map[IPad := m]
  }

  /**
   * The keys of the collected dictionary for `t` are exactly the keys of
   * icons with an iOS source, provided some dimension has target `t`; the
   * dictionary is empty otherwise.
   */
  lemma {:induction false} AltIconsDomain(icons: IconSet, dims: seq<Dimension>, t: Option<Target>, k: string)
    ensures k in AltIcons(icons, dims, t) <==>
      LastWithTarget(dims, t).Some? && exists i :: 0 <= i < |icons| && icons[i].0 == k && HasIosSource(icons[i].1)
  {
    if icons != [] {
      var n := |icons| - 1;
      AltIconsDomain(icons[..n], dims, t, k);
      assert forall i :: 0 <= i < n ==> icons[..n][i] == icons[i];
      if k in AltIcons(icons, dims, t) && k !in AltIcons(icons[..n], dims, t) {
        assert icons[n].0 == k && HasIosSource(icons[n].1);
      }
    }
  }

  /** With distinct keys, an icon with an iOS source is listed under its key with the entry of the last dimension for `t`. */
  lemma {:induction false} AltIconsEntry(icons: IconSet, dims: seq<Dimension>, t: Option<Target>, i: nat)
    requires DistinctKeys(icons) && i < |icons| && HasIosSource(icons[i].1) && LastWithTarget(dims, t).Some?
    ensures icons[i].0 in AltIcons(icons, dims, t)
    ensures AltIcons(icons, dims, t)[icons[i].0] == PlistItem(icons[i].0, icons[i].1, LastWithTarget(dims, t).value)
  {
    var n := |icons| - 1;
    if i < n {
      assert DistinctKeys(icons[..n]) by {
        assert forall a :: 0 <= a < n ==> icons[..n][a] == icons[a];
      }
      AltIconsEntry(icons[..n], dims, t, i);
      assert icons[n].0 != icons[i].0;
    }
  }

  /** One more dimension either sets the icon's entry to that dimension's item or leaves the dictionary as it was. */
  lemma WithIconEntryStep(m: map<string, PlistValue>, key: string, icon: IconProps, dims: seq<Dimension>, j: nat, t: Option<Target>)
    requires j < |dims|
    ensures WithIconEntry(m, key, icon, dims[..j + 1], t) ==
      if HasIosSource(icon) && dims[j].target == t then m[key := PlistItem(key, icon, dims[j])]
      else WithIconEntry(m, key, icon, dims[..j], t)
  {
    assert dims[..j + 1][..j] == dims[..j];
    assert dims[..j + 1][j] == dims[j];
  }

  /** The untargeted half of one pass of the inner loop: `altIcons[key] = plistItem` for an untargeted dimension. */
  lemma UntargetedStep(alt: map<string, PlistValue>, base0: map<string, PlistValue>, key: string, icon: IconProps, dims: seq<Dimension>, j: nat)
    requires j < |dims|
    requires alt == WithIconEntry(base0, key, icon, dims[..j], None)
    ensures (if HasIosSource(icon) && dims[j].target.None? then alt[key := PlistItem(key, icon, dims[j])] else alt)
      == WithIconEntry(base0, key, icon, dims[..j + 1], None)
  {
    WithIconEntryStep(base0, key, icon, dims, j, None);
    if HasIosSource(icon) && dims[j].target.None? {
      assert alt[key := PlistItem(key, icon, dims[j])] == base0[key := PlistItem(key, icon, dims[j])];
    }
  }

  /** The targeted half: `altIconsByTarget[target] = altIconsByTarget[target] || {}`, then `[key] = plistItem`. */
  lemma TargetedStep(byTarget: map<Target, map<string, PlistValue>>, base1: map<string, PlistValue>, key: string, icon: IconProps, dims: seq<Dimension>, j: nat)
    requires j < |dims|
    requires byTarget == ByTarget(WithIconEntry(base1, key, icon, dims[..j], Some(IPad)))
    ensures (if HasIosSource(icon) && dims[j].target.Some? then
        var target := dims[j].target.value;
        var forTarget := if target in byTarget then byTarget[target] else map[];
        byTarget[target := forTarget[key := PlistItem(key, icon, dims[j])]]
      else byTarget)
      == ByTarget(WithIconEntry(base1, key, icon, dims[..j + 1], Some(IPad)))
  {
    WithIconEntryStep(base1, key, icon, dims, j, Some(IPad));
    if HasIosSource(icon) && dims[j].target.Some? {
      var item := PlistItem(key, icon, dims[j]);
      var w := WithIconEntry(base1, key, icon, dims[..j], Some(IPad));
      var forTarget := if IPad in byTarget then byTarget[IPad] else map[];
      assert dims[j].target.value == IPad;
      assert forTarget == w by {
        if w == map[] {
          assert byTarget == map[];
        } else {
          assert byTarget == map[IPad := w];
        }
      }
      assert forTarget[key := item] == base1[key := item];
      assert key in base1[key := item];
      assert byTarget[IPad := forTarget[key := item]] == map[IPad := base1[key := item]];
    }
  }

  /** Collects the alternate icons: the body of withIconInfoPlist up to the writes. */
  method CollectAltIcons(icons: IconSet, dims: seq<Dimension>)
    returns (altIcons: map<string, PlistValue>, altIconsByTarget: map<Target, map<string, PlistValue>>)
    ensures altIcons == AltIcons(icons, dims, None)
    ensures altIconsByTarget == ByTarget(AltIcons(icons, dims, Some(IPad)))
  {
    altIcons := map[];
    altIconsByTarget := map[];
    var i := 0;
    while i < |icons|
      invariant 0 <= i <= |icons|
      invariant altIcons == AltIcons(icons[..i], dims, None)
      invariant altIconsByTarget == ByTarget(AltIcons(icons[..i], dims, Some(IPad)))
    {
      var (key, icon) := icons[i];
      ghost var base0 := AltIcons(icons[..i], dims, None);
      ghost var base1 := AltIcons(icons[..i], dims, Some(IPad));
      var j := 0;
      while j < |dims|
        invariant 0 <= j <= |dims|
        invariant altIcons == WithIconEntry(base0, key, icon, dims[..j], None)
        invariant altIconsByTarget == ByTarget(WithIconEntry(base1, key, icon, dims[..j], Some(IPad)))
      {
        var dimension := dims[j];
        UntargetedStep(altIcons, base0, key, icon, dims, j);
        TargetedStep(altIconsByTarget, base1, key, icon, dims, j);
        if HasIosSource(icon) {
          var plistItem := PlistItem(key, icon, dimension);
          if dimension.target.Some? {
            var target := dimension.target.value;
            var forTarget := if target in altIconsByTarget then altIconsByTarget[target] else map[];
            altIconsByTarget := altIconsByTarget[target := forTarget[key := plistItem]];
          } else {
            altIcons := altIcons[key := plistItem];
          }
        }
        j := j + 1;
      }
      assert dims[..j] == dims;
      assert icons[..i + 1][..i] == icons[..i];
      i := i + 1;
    }
    assert icons[..i] == icons;
  }

  /** A dictionary entry of Info.plist after applyToPlist: the old dictionary (or a new one) with both icon entries set. */
  function BundleIcons(entries: map<string, PlistValue>, key: string, icons: map<string, PlistValue>): (r: PlistValue)
    ensures r.PDict? && "CFBundleAlternateIcons" in r.entries && "CFBundlePrimaryIcon" in r.entries
    ensures r.entries["CFBundleAlternateIcons"] == PDict(icons) && r.entries["CFBundlePrimaryIcon"] == PrimaryIcon
    ensures key in entries && entries[key].PDict? ==>
      forall k :: k in entries[key].entries && k != "CFBundleAlternateIcons" && k != "CFBundlePrimaryIcon" ==>
        k in r.entries && r.entries[k] == entries[key].entries[k]
    ensures !(key in entries && entries[key].PDict?) ==> r.entries.Keys == {"CFBundleAlternateIcons", "CFBundlePrimaryIcon"}
  {
    var base := if key in entries && entries[key].PDict? then entries[key].entries else map[];
    PDict(base["CFBundleAlternateIcons" := PDict(icons)]["CFBundlePrimaryIcon" := PrimaryIcon])
  }

  /** Info.plist after withIconInfoPlist: `CFBundleIcons` always, `CFBundleIcons~ipad` only when it has icons. */
  function InfoPlistAfter(entries: map<string, PlistValue>, icons: IconSet, dims: seq<Dimension>): (r: map<string, PlistValue>)
    ensures "CFBundleIcons" in r
    ensures forall k :: k in entries ==> k in r
    ensures forall k :: k in r ==> k in entries || k == "CFBundleIcons" || k == "CFBundleIcons~ipad"
  {
    var phone := entries["CFBundleIcons" := BundleIcons(entries, "CFBundleIcons", AltIcons(icons, dims, None))];
    var ipad := AltIcons(icons, dims, Some(IPad));
    if ipad != map[] then phone["CFBundleIcons~ipad" := BundleIcons(phone, "CFBundleIcons~ipad", ipad)] else phone
  }

  /** The Info.plist dictionary (`config.modResults`). */
  class InfoPlist {
    var entries: map<string, PlistValue>

    constructor (entries: map<string, PlistValue>)
      ensures this.entries == entries
    {
      this.entries := entries;
    }

    /**
     * applyToPlist: a missing entry, or one that is not a dictionary, is
     * replaced by an empty dictionary; then its alternate icons and its
     * primary icon are set.
     */
    method ApplyToPlist(key: string, icons: map<string, PlistValue>)
      modifies this
      ensures entries == old(entries)[key := BundleIcons(old(entries), key, icons)]
    {
      if !(key in entries && entries[key].PDict?) {
        entries := entries[key := PDict(map[])];
      }
      entries := entries[key := PDict(entries[key].entries["CFBundleAlternateIcons" := PDict(icons)])];
      entries := entries[key := PDict(entries[key].entries["CFBundlePrimaryIcon" := PrimaryIcon])];
    }

    /**
     * withIconInfoPlist. The loop over `altIconsByTarget` has a single
     * target to visit, the iPad.
     */
    method WithIconInfoPlist(icons: IconSet, dims: seq<Dimension>)
      modifies this
      ensures entries == InfoPlistAfter(old(entries), icons, dims)
    {
      var altIcons, altIconsByTarget := CollectAltIcons(icons, dims);
      ApplyToPlist("CFBundleIcons", altIcons);
      if IPad in altIconsByTarget && |altIconsByTarget[IPad]| > 0 {
        ApplyToPlist("CFBundleIcons~ipad", altIconsByTarget[IPad]);
      }
    }
  }

  /**
   * What the Info.plist step writes: `CFBundleIcons` holds the untargeted
   * alternate icons and the primary icon, keeping its other keys;
   * `CFBundleIcons~ipad` is written only when some icon has an iOS source
   * and some dimension targets the iPad; nothing else changes.
   */
  lemma InfoPlistShape(entries: map<string, PlistValue>, icons: IconSet, dims: seq<Dimension>)
    ensures var r := InfoPlistAfter(entries, icons, dims);
      && "CFBundleIcons" in r && r["CFBundleIcons"].PDict?
      && r["CFBundleIcons"].entries["CFBundleAlternateIcons"] == PDict(AltIcons(icons, dims, None))
      && r["CFBundleIcons"].entries["CFBundlePrimaryIcon"] == PrimaryIcon
      && (forall k :: k != "CFBundleAlternateIcons" && k != "CFBundlePrimaryIcon" && "CFBundleIcons" in entries && entries["CFBundleIcons"].PDict? && k in entries["CFBundleIcons"].entries
            ==> k in r["CFBundleIcons"].entries && r["CFBundleIcons"].entries[k] == entries["CFBundleIcons"].entries[k])
      && (forall k :: k != "CFBundleIcons" && k != "CFBundleIcons~ipad" ==> (k in r <==> k in entries) && (k in entries ==> r[k] == entries[k]))
  {
  }

  /** The iPad dictionary is written exactly when some icon has an iOS source and some dimension targets the iPad. */
  lemma IpadWrittenIff(entries: map<string, PlistValue>, icons: IconSet, dims: seq<Dimension>)
    ensures var r := InfoPlistAfter(entries, icons, dims);
      var written := (exists i :: 0 <= i < |icons| && HasIosSource(icons[i].1)) && (exists j :: 0 <= j < |dims| && dims[j].target == Some(IPad));
      && (written ==>
            && "CFBundleIcons~ipad" in r && r["CFBundleIcons~ipad"].PDict?
            && "CFBundleAlternateIcons" in r["CFBundleIcons~ipad"].entries
            && r["CFBundleIcons~ipad"].entries["CFBundleAlternateIcons"] == PDict(AltIcons(icons, dims, Some(IPad)))
            && "CFBundlePrimaryIcon" in r["CFBundleIcons~ipad"].entries
            && r["CFBundleIcons~ipad"].entries["CFBundlePrimaryIcon"] == PrimaryIcon)
      && (!written ==>
            && ("CFBundleIcons~ipad" in r <==> "CFBundleIcons~ipad" in entries)
            && ("CFBundleIcons~ipad" in entries ==> r["CFBundleIcons~ipad"] == entries["CFBundleIcons~ipad"]))
  {
    var ipad := AltIcons(icons, dims, Some(IPad));
    if exists i :: 0 <= i < |icons| && HasIosSource(icons[i].1) {
      var i :| 0 <= i < |icons| && HasIosSource(icons[i].1);
      AltIconsDomain(icons, dims, Some(IPad), icons[i].0);
      if LastWithTarget(dims, Some(IPad)).Some? {
        assert icons[i].0 in ipad;
      }
    } else if ipad != map[] {
      var k :| k in ipad;
      AltIconsDomain(icons, dims, Some(IPad), k);
    }
  }

  /**
   * As written, an icon set given as a list of image paths yields no
   * alternate icon, for any target.
   */
  lemma ImageListGivesNoAlternateIcons(images: seq<string>, dims: seq<Dimension>, t: Option<Target>)
    ensures AltIcons(ResolveIcons(ImageList(images)), dims, t) == map[]
  {
    var icons := ResolveIcons(ImageList(images));
    ResolveIconsImageListHasNoSources(images);
    if AltIcons(icons, dims, t) != map[] {
      var k :| k in AltIcons(icons, dims, t);
      AltIconsDomain(icons, dims, t, k);
    }
  }

  /**
   * With the corrected reading, every non-empty listed image becomes an
   * alternate icon keyed by its position, provided there is an untargeted
   * dimension.
   */
  lemma ImageListIntendedGivesAlternateIcons(images: seq<string>, dims: seq<Dimension>, i: nat)
    requires i < |images| && images[i] != "" && LastWithTarget(dims, None).Some?
    ensures NatToString(i) in AltIcons(ResolveIconsIntended(ImageList(images)), dims, None)
    ensures AltIcons(ResolveIconsIntended(ImageList(images)), dims, None)[NatToString(i)]
      == PlistItem(NatToString(i), IconProps(Some(images[i]), Some(images[i]), false, None), LastWithTarget(dims, None).value)
  {
    var icons := ResolveIconsIntended(ImageList(images));
    ResolveIconsIntendedHasSources(images);
    AltIconsEntry(icons, dims, None, i);
  }
}
