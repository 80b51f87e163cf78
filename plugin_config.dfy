/**
 * The configuration the build-time plugin works from: the icon set resolved
 * from the plugin's properties and the iOS icon dimensions resolved from the
 * app configuration.
 */
module IconConfig {
  import opened Options
  import opened Text

  /**
   * One icon of the set (`IconSetProps`): its iOS and Android image sources
   * and whether the iOS icon is prerendered (`!!prerendered`). `image` is the
   * property the string-list form of the properties produces; no later step
   * reads it.
   */
  datatype IconProps = IconProps(ios: Option<string>, android: Option<string>, prerendered: bool, image: Option<string>)

  /** An icon set, `Record<string, IconSetProps>`, as its entries in `Object.entries` order. */
  type IconSet = seq<(string, IconProps)>

  /** `Object.keys(icons)`. */
  function Keys(icons: IconSet): (r: seq<string>)
    ensures |r| == |icons| && forall i :: 0 <= i < |icons| ==> r[i] == icons[i].0
  {
    seq(|icons|, i requires 0 <= i < |icons| => icons[i].0)
  }

  /** The keys of an object are distinct. */
  predicate DistinctKeys(icons: IconSet)
  {
    forall i, j :: 0 <= i < j < |icons| ==> icons[i].0 != icons[j].0
  }

  /** The plugin's properties: absent, a list of image paths, or an icon set. */
  datatype PluginProps = NoProps | ImageList(images: seq<string>) | IconMap(icons: IconSet)

  /**
   * The `reduce` over a list of image paths: entry `i` is keyed by the
   * decimal form of `i` and carries only `image`. Integer-like keys are
   * enumerated in ascending order, which is list order.
   */
  function ImageListIcons(images: seq<string>): (r: IconSet)
    ensures |r| == |images|
    ensures forall i :: 0 <= i < |r| ==> r[i] == (NatToString(i), IconProps(None, None, false, Some(images[i])))
  {
    if images == [] then []
    else
      var n := |images| - 1;
      ImageListIcons(images[..n]) + [(NatToString(n), IconProps(None, None, false, Some(images[n])))]
  }

  /** The string-list form yields distinct keys. */
  lemma ImageListKeysDistinct(images: seq<string>)
    ensures DistinctKeys(ImageListIcons(images))
  {
    var r := ImageListIcons(images);
    forall i, j | 0 <= i < j < |r|
      ensures r[i].0 != r[j].0
    {
      if r[i].0 == r[j].0 {
        NatToStringInjective(i, j);
      }
    }
  }

  /**
   * resolveIcons, as written: no icons without properties, an icon set passed
   * through unchanged, and for a list of image paths one icon per path, keyed
   * by its position, with distinct keys.
   */
  function ResolveIcons(props: PluginProps): (r: IconSet)
    ensures props.NoProps? ==> r == []
    ensures props.IconMap? ==> r == props.icons
    ensures props.ImageList? ==>
      && |r| == |props.images| && DistinctKeys(r)
      && forall i :: 0 <= i < |r| ==> r[i].0 == NatToString(i) && r[i].1.image == Some(props.images[i])
  {
    match props
    case NoProps => []
    case ImageList(images) =>
      ImageListKeysDistinct(images);
      ImageListIcons(images)
    case IconMap(icons) => icons
  }

  /**
   * As written, an icon set given as a list of image paths carries no iOS and
   * no Android source, so no later step finds an image for any of its icons.
   */
  lemma ResolveIconsImageListHasNoSources(images: seq<string>)
    ensures |ResolveIcons(ImageList(images))| == |images|
    ensures forall i :: 0 <= i < |images| ==> ResolveIcons(ImageList(images))[i].1.ios.None? && ResolveIcons(ImageList(images))[i].1.android.None?
  {
  }

  /** The evidently intended reading of a list of image paths: each image serves as both the iOS and the Android source. */
  function ImageListIconsIntended(images: seq<string>): (r: IconSet)
    ensures |r| == |images|
    ensures forall i :: 0 <= i < |r| ==> r[i] == (NatToString(i), IconProps(Some(images[i]), Some(images[i]), false, None))
  {
    if images == [] then []
    else
      var n := |images| - 1;
      ImageListIconsIntended(images[..n]) + [(NatToString(n), IconProps(Some(images[n]), Some(images[n]), false, None))]
  }

  /** resolveIcons with the list form corrected. */
  function ResolveIconsIntended(props: PluginProps): IconSet
  {
    match props
    case NoProps => []
    case ImageList(images) => ImageListIconsIntended(images)
    case IconMap(icons) => icons
  }

  /** With the correction, every listed image is the iOS and Android source of exactly one icon, keyed by its position. */
  lemma ResolveIconsIntendedHasSources(images: seq<string>)
    ensures |ResolveIconsIntended(ImageList(images))| == |images|
    ensures forall i :: 0 <= i < |images| ==>
      var e := ResolveIconsIntended(ImageList(images))[i];
      e.0 == NatToString(i) && e.1.ios == Some(images[i]) && e.1.android == Some(images[i])
    ensures DistinctKeys(ResolveIconsIntended(ImageList(images)))
  {
    var r := ResolveIconsIntended(ImageList(images));
    forall i, j | 0 <= i < j < |r|
      ensures r[i].0 != r[j].0
    {
      if r[i].0 == r[j].0 {
        NatToStringInjective(i, j);
      }
    }
  }

  // ---------------------------------------------------------------------------
  // iOS icon dimensions
  // ---------------------------------------------------------------------------

  /** The special targets a dimension can have (`null | "ipad"`). */
  datatype Target = IPad

  function TargetName(t: Target): string
  {
    match t
    case IPad => "ipad"
  }

  /** `IconDimensions`: width, height and target may be omitted. */
  datatype IconDimensions = IconDimensions(scale: nat, size: nat, width: Option<nat>, height: Option<nat>, target: Option<Target>)

  /** `Required<IconDimensions>`: every field present, the target possibly null. */
  datatype Dimension = Dimension(scale: nat, size: nat, width: nat, height: nat, target: Option<Target>)

  /** IOS_ICON_DIMENSIONS: 60-point icons at 2x and 3x, and the same for iPad with explicit pixel sizes. */
  const IosIconDimensions: seq<IconDimensions> := [
    IconDimensions(2, 60, None, None, None),
    IconDimensions(3, 60, None, None, None),
    IconDimensions(2, 60, Some(152), Some(152), Some(IPad)),
    IconDimensions(3, 60, Some(167), Some(167), Some(IPad))
  ]

  /** The filter of resolveIconDimensions: untargeted, or a target the app supports. */
  predicate Selected(d: IconDimensions, targets: seq<Target>)
  {
    d.target.None? || d.target.value in targets
  }

  /** The map of resolveIconDimensions: omitted width and height default to size times scale, an omitted target to null. */
  function Complete(d: IconDimensions): (r: Dimension)
    ensures r.scale == d.scale && r.size == d.size && r.target == d.target
    ensures r.width == (if d.width.Some? then d.width.value else d.size * d.scale)
    ensures r.height == (if d.height.Some? then d.height.value else d.size * d.scale)
  {
    Dimension(d.scale, d.size, d.width.GetOr(d.size * d.scale), d.height.GetOr(d.size * d.scale), d.target)
  }

  /**
   * `dims.filter(Selected).map(Complete)`: never longer than its input, and
   * every dimension it yields has a target the app supports or none
   * (ResolveDimensionsSelects states the full selection).
   */
  function ResolveDimensions(dims: seq<IconDimensions>, targets: seq<Target>): (r: seq<Dimension>)
    ensures |r| <= |dims|
    ensures forall i :: 0 <= i < |r| ==> r[i].target.None? || r[i].target.value in targets
  {
    if dims == [] then []
    else
      var n := |dims| - 1;
      ResolveDimensions(dims[..n], targets) + (if Selected(dims[n], targets) then [Complete(dims[n])] else [])
  }

  /**
   * Resolution yields exactly the completed forms of the selected dimensions:
   * nothing with a target the app does not support, and nothing left out.
   */
  lemma {:induction false} ResolveDimensionsSelects(dims: seq<IconDimensions>, targets: seq<Target>)
    ensures forall d :: d in ResolveDimensions(dims, targets) ==> d.target.None? || d.target.value in targets
    ensures forall d :: d in ResolveDimensions(dims, targets) ==>
      exists i :: 0 <= i < |dims| && Selected(dims[i], targets) && Complete(dims[i]) == d
    ensures forall i :: 0 <= i < |dims| && Selected(dims[i], targets) ==> Complete(dims[i]) in ResolveDimensions(dims, targets)
  {
    if dims != [] {
      var n := |dims| - 1;
      ResolveDimensionsSelects(dims[..n], targets);
      assert forall i :: 0 <= i < n ==> dims[..n][i] == dims[i];
    }
  }

  /** Resolution keeps the order of the dimensions it selects. */
  lemma {:induction false} ResolveDimensionsAppend(a: seq<IconDimensions>, b: seq<IconDimensions>, targets: seq<Target>)
    ensures ResolveDimensions(a + b, targets) == ResolveDimensions(a, targets) + ResolveDimensions(b, targets)
    decreases |b|
  {
    if b == [] {
      assert a + b == a;
    } else {
      var n := |b| - 1;
      assert (a + b)[..|a| + n] == a + b[..n];
      assert (a + b)[|a| + n] == b[n];
      ResolveDimensionsAppend(a, b[..n], targets);
    }
  }

  lemma ResolveDimensionsSingleton(d: IconDimensions, targets: seq<Target>)
    ensures ResolveDimensions([d], targets) == if Selected(d, targets) then [Complete(d)] else []
  {
    assert [d][..0] == [];
  }

  /**
   * resolveIconDimensions: the two untargeted dimensions, followed by the two
   * iPad ones only when the app supports tablets.
   */
  function ResolveIconDimensions(supportsTablet: bool): (r: seq<Dimension>)
    ensures !supportsTablet ==> r == [Dimension(2, 60, 120, 120, None), Dimension(3, 60, 180, 180, None)]
    ensures supportsTablet ==> r == [
      Dimension(2, 60, 120, 120, None), Dimension(3, 60, 180, 180, None),
      Dimension(2, 60, 152, 152, Some(IPad)), Dimension(3, 60, 167, 167, Some(IPad))]
  {
    var targets := if supportsTablet then [IPad] else [];
    var d := IosIconDimensions;
    assert d == [d[0]] + [d[1]] + [d[2]] + [d[3]];
    ResolveDimensionsAppend([d[0]] + [d[1]] + [d[2]], [d[3]], targets);
    ResolveDimensionsAppend([d[0]] + [d[1]], [d[2]], targets);
    ResolveDimensionsAppend([d[0]], [d[1]], targets);
    ResolveDimensionsSingleton(d[0], targets);
    ResolveDimensionsSingleton(d[1], targets);
    ResolveDimensionsSingleton(d[2], targets);
    ResolveDimensionsSingleton(d[3], targets);
    ResolveDimensions(IosIconDimensions, targets)
  }
}
