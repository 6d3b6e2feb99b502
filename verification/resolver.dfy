/** Reading a package's asset configuration: the reserved `octris/assets`
    entry of Composer's `extra` section, its `target` (root package) or
    `source` (dependency) sub-key, and the scalar-or-map normalisation. */
module Resolver {
  import opened PhpValues

  /** Reserved key of the `extra` section. */
  const NsExtra: string := "octris/assets"
  /** Namespace a single scalar setting is filed under. */
  const NsAssets: string := "assets"
  /** Sub-key read from the root package. */
  const Target: string := "target"
  /** Sub-key read from an installed dependency. */
  const Source: string := "source"

  /** `isset($extra[NS_EXTRA]) && isset($extra[NS_EXTRA][role])`, and the
      value when both hold. A non-array `octris/assets` entry has no `role`
      offset, and a null value counts as absent. */
  function Setting(extra: PhpArray, role: string): (r: Option<Value>)
    ensures r.Some? ==> !r.value.Null?
    ensures r.Some? <==>
      IsSet(extra, NsExtra) && Lookup(extra, NsExtra).value.Arr?
      && IsSet(Lookup(extra, NsExtra).value.entries, role)
    ensures r.Some? ==> Lookup(Lookup(extra, NsExtra).value.entries, role) == r
  {
    match Lookup(extra, NsExtra)
    case Some(Arr(config)) =>
      (match Lookup(config, role)
       case Some(v) => if v.Null? then None else Some(v)
       case None => None)
    case _ => None
  }

  /** The scalar-or-map rule: an array is taken as it is, any other value
      becomes the one-entry map `[ NS_ASSETS => value ]`. */
  function NamespaceMap(v: Value): (r: PhpArray)
    ensures v.Arr? ==> r == v.entries
    ensures !v.Arr? ==> |r| == 1 && Lookup(r, NsAssets) == Some(v)
    ensures !v.Arr? && !v.Null? ==> forall ns :: IsSet(r, ns) <==> ns == NsAssets
  {
    if v.Arr? then v.entries else [(NsAssets, v)]
  }

  /** The root package's target map, as the constructor resolves it. */
  function ResolveTarget(extra: PhpArray): (r: PhpArray)
    ensures Setting(extra, Target).None? ==> r == []
    ensures Setting(extra, Target).None? ==> forall ns :: !IsSet(r, ns)
    ensures Setting(extra, Target).Some? && Setting(extra, Target).value.Arr? ==>
      r == Setting(extra, Target).value.entries
    ensures Setting(extra, Target).Some? && !Setting(extra, Target).value.Arr? ==>
      |r| == 1 && Lookup(r, NsAssets) == Setting(extra, Target)
      && forall ns :: IsSet(r, ns) <==> ns == NsAssets
  {
    match Setting(extra, Target)
    case None => []
    case Some(v) => NamespaceMap(v)
  }

  /** A dependency's source map; `None` when it declares no `source` and
      `install` therefore does nothing. */
  function ResolveSource(extra: PhpArray): (r: Option<PhpArray>)
    ensures r.None? <==> Setting(extra, Source).None?
    ensures Setting(extra, Source).Some? && Setting(extra, Source).value.Arr? ==>
      r == Some(Setting(extra, Source).value.entries)
    ensures Setting(extra, Source).Some? && !Setting(extra, Source).value.Arr? ==>
      r == Some([(NsAssets, Setting(extra, Source).value)])
  {
    match Setting(extra, Source)
    case None => None
    case Some(v) => Some(NamespaceMap(v))
  }

  /** Resolution keeps PHP's key uniqueness: a key-unique configured array
      yields a key-unique map, and the scalar case has one key. */
  lemma ResolvedMapsHaveUniqueKeys(extra: PhpArray, role: string)
    requires Setting(extra, role).Some?
    requires Setting(extra, role).value.Arr? ==> UniqueKeys(Setting(extra, role).value.entries)
    ensures UniqueKeys(NamespaceMap(Setting(extra, role).value))
  {
  }

  /** Only the reserved entry matters: two `extra` sections that agree on
      `octris/assets` resolve to the same target and source maps, whatever
      else they hold. */
  lemma ResolutionReadsOnlyReservedKey(extra1: PhpArray, extra2: PhpArray)
    requires Lookup(extra1, NsExtra) == Lookup(extra2, NsExtra)
    ensures ResolveTarget(extra1) == ResolveTarget(extra2)
    ensures ResolveSource(extra1) == ResolveSource(extra2)
  {
  }

  /** The `extra` section of a package that configures only `role`. */
  function Configured(role: string, v: Value): PhpArray {
    [(NsExtra, Arr([(role, v)]))]
  }

  /** Whatever non-null value a package configures under `role` is read back
      unchanged; a null value reads as not configured. */
  lemma ConfiguredSettingIsRead(role: string, v: Value)
    ensures Setting(Configured(role, v), role) == if v.Null? then None else Some(v)
  {
  }
}
