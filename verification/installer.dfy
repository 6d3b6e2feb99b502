/** The assets installer: it resolves the root package's target map once,
    and for every installed dependency resolves and filters its source map,
    reporting each dropped entry on Composer's IO channel. */
module Assets {
  import opened PhpValues
  import opened Resolver
  import opened LogFormat
  import opened SourceFilter
  import opened Host

  class Installer {
    /** Composer's IO channel. */
    const io: IO
    /** Namespace -> target directory map of the root package. */
    var assetsDirs: PhpArray
    /** Directory of the root package's composer.json; resolved by the
        caller and not read by any operation modelled here. */
    const rootPath: string

    /** Resolves the root package's `target` setting; without one the target
        map stays empty. */
    constructor (extra: PhpArray, rootPath: string, io: IO)
      ensures this.io == io && this.rootPath == rootPath
      ensures assetsDirs == ResolveTarget(extra)
      ensures Setting(extra, Target).None? ==> assetsDirs == []
      ensures io.lines == old(io.lines)
    {
      this.io := io;
      this.rootPath := rootPath;
      assetsDirs := [];
      var target := Setting(extra, Target);
      if target.Some? {
        assetsDirs := NamespaceMap(target.value);
      }
    }

    /** Writes `message` framed by its level's tag; an unknown level writes
        nothing. */
    method Log(level: int, message: string)
      modifies io
      ensures io.lines == old(io.lines) + LinesOf(Tagged(level, message))
      ensures |io.lines| == |old(io.lines)| + (if level in {LogInfo, LogWarning, LogError} then 1 else 0)
    {
      if level == LogInfo {
        io.Write(["<info>" + message + "</info>"]);
      } else if level == LogWarning {
        io.Write(["<warning>" + message + "</warning>"]);
      } else if level == LogError {
        io.Write(["<error>" + message + "</error>"]);
      }
    }

    /** The filter callback for one entry `$ns => $dir`: checks that the
        namespace is set in the target map and only then that the directory
        exists, logging a warning for the first check that fails. */
    method Accept(ns: string, dir: Value, packageName: string, packagePath: string, fs: FileSystem)
      returns (keep: bool)
      modifies io, fs
      ensures keep <==> Rejection(assetsDirs, fs.dirs, packagePath, (ns, dir)).None?
      ensures io.lines == old(io.lines)
        + WarningLines(packageName, Warnings(assetsDirs, fs.dirs, packagePath, [(ns, dir)]))
      ensures fs.probes == old(fs.probes) + Probes(assetsDirs, packagePath, [(ns, dir)])
    {
      FilterSingle(assetsDirs, fs.dirs, packagePath, (ns, dir));
      keep := IsSet(assetsDirs, ns);
      if !keep {
        WarningLinesSingle(packageName, NamespaceNotDefined(ns));
        Log(LogWarning, Message(packageName, NamespaceNotDefined(ns)));
      } else {
        keep := fs.IsDir(packagePath + "/" + ToPhpString(dir));
        if !keep {
          WarningLinesSingle(packageName, AssetDirMissing(dir));
          Log(LogWarning, Message(packageName, AssetDirMissing(dir)));
        }
      }
    }

    /** The `array_filter` pass: keeps the entries whose namespace is set in
        the target map and whose directory exists under `packagePath`, in
        order, and logs one warning for every other entry. */
    method FilterSourceDirs(sourceDirs: PhpArray, packageName: string, packagePath: string, fs: FileSystem)
      returns (kept: PhpArray)
      modifies io, fs
      ensures kept == Kept(assetsDirs, fs.dirs, packagePath, sourceDirs)
      ensures io.lines == old(io.lines)
        + WarningLines(packageName, Warnings(assetsDirs, fs.dirs, packagePath, sourceDirs))
      ensures fs.probes == old(fs.probes) + Probes(assetsDirs, packagePath, sourceDirs)
    {
      kept := [];
      var i := 0;
      while i < |sourceDirs|
        invariant 0 <= i <= |sourceDirs|
        invariant kept == Kept(assetsDirs, fs.dirs, packagePath, sourceDirs[..i])
        invariant io.lines == old(io.lines)
          + WarningLines(packageName, Warnings(assetsDirs, fs.dirs, packagePath, sourceDirs[..i]))
        invariant fs.probes == old(fs.probes) + Probes(assetsDirs, packagePath, sourceDirs[..i])
      {
        var (ns, dir) := sourceDirs[i];
        ghost var done := sourceDirs[..i];
        PrefixExtend(sourceDirs, i);
        FilterStep(assetsDirs, fs.dirs, packagePath, packageName, done, (ns, dir));
        AppendAssoc(old(io.lines), WarningLines(packageName, Warnings(assetsDirs, fs.dirs, packagePath, done)),
          WarningLines(packageName, Warnings(assetsDirs, fs.dirs, packagePath, [(ns, dir)])));
        AppendAssoc(old(fs.probes), Probes(assetsDirs, packagePath, done), Probes(assetsDirs, packagePath, [(ns, dir)]));
        var keep := Accept(ns, dir, packageName, packagePath, fs);
        if keep {
          kept := kept + [(ns, dir)];
        }
        i := i + 1;
      }
      assert sourceDirs[..i] == sourceDirs;
    }

    /** `install`: for a dependency that declares a `source` setting, resolves
        its source map and filters it against the target map; the result is
        what the link loop iterates over. The target map is never changed and
        the installer itself is returned. */
    method Install(extra: PhpArray, packageName: string, packagePath: string, fs: FileSystem)
      returns (self: Installer, linked: PhpArray)
      modifies io, fs
      ensures self == this && unchanged(this)
      ensures ResolveSource(extra).None? ==>
        linked == [] && io.lines == old(io.lines) && fs.probes == old(fs.probes)
      ensures ResolveSource(extra).Some? ==>
        && linked == Kept(assetsDirs, fs.dirs, packagePath, ResolveSource(extra).value)
        && io.lines == old(io.lines)
           + WarningLines(packageName, Warnings(assetsDirs, fs.dirs, packagePath, ResolveSource(extra).value))
        && fs.probes == old(fs.probes) + Probes(assetsDirs, packagePath, ResolveSource(extra).value)
        && |io.lines| - |old(io.lines)| == |ResolveSource(extra).value| - |linked|
    {
      linked := [];
      var source := Setting(extra, Source);
      if source.Some? {
        var sourceDirs := NamespaceMap(source.value);
        linked := FilterSourceDirs(sourceDirs, packageName, packagePath, fs);
        KeptPlusWarnings(assetsDirs, fs.dirs, packagePath, sourceDirs);
        WarningLinesReadBack(packageName, Warnings(assetsDirs, fs.dirs, packagePath, sourceDirs));
      }
      self := this;
    }
  }
}
