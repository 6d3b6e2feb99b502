/** The `array_filter` pass of `install` as specification functions: which
    source entries survive, which warnings the dropped ones produce, and
    which paths the directory test is asked about. */
module SourceFilter {
  import opened PhpValues
  import opened LogFormat

  /** Why a source entry is dropped. */
  datatype Warning =
    | NamespaceNotDefined(ns: string)
    | AssetDirMissing(dir: Value)

  /** `$package_path . '/' . $dir`: the package path, a slash, and the
      directory converted to a string. */
  function DirPath(packagePath: string, dir: Value): string {
    packagePath + "/" + ToPhpString(dir)
  }

  /** The filter callback's verdict on one entry: `None` keeps it. The
      namespace test comes first and, when it fails, decides alone. */
  function Rejection(target: PhpArray, dirs: set<string>, packagePath: string, e: (string, Value)): (r: Option<Warning>)
    ensures r.None? <==> IsSet(target, e.0) && DirPath(packagePath, e.1) in dirs
    ensures r == Some(NamespaceNotDefined(e.0)) <==> !IsSet(target, e.0)
    ensures r == Some(AssetDirMissing(e.1)) <==> IsSet(target, e.0) && DirPath(packagePath, e.1) !in dirs
  {
    if !IsSet(target, e.0) then Some(NamespaceNotDefined(e.0))
    else if DirPath(packagePath, e.1) !in dirs then Some(AssetDirMissing(e.1))
    else None
  }

  /** The entries `array_filter` keeps, in their original order. */
  function Kept(target: PhpArray, dirs: set<string>, packagePath: string, src: PhpArray): (r: PhpArray)
    ensures |r| <= |src|
  {
    if src == [] then [] else
      var head := if Rejection(target, dirs, packagePath, src[0]).None? then [src[0]] else [];
      head + Kept(target, dirs, packagePath, src[1..])
  }

  /** The warnings the pass logs, in order: one per dropped entry. */
  function Warnings(target: PhpArray, dirs: set<string>, packagePath: string, src: PhpArray): (r: seq<Warning>)
    ensures |r| <= |src|
  {
    if src == [] then [] else
      var head := match Rejection(target, dirs, packagePath, src[0])
        case None => []
        case Some(w) => [w];
      head + Warnings(target, dirs, packagePath, src[1..])
  }

  /** The paths `is_dir` is called on, in order: only entries whose namespace
      is defined reach the directory test. */
  function Probes(target: PhpArray, packagePath: string, src: PhpArray): (r: seq<string>)
    ensures |r| <= |src|
  {
    if src == [] then [] else
      var head := if IsSet(target, src[0].0) then [DirPath(packagePath, src[0].1)] else [];
      head + Probes(target, packagePath, src[1..])
  }

  /** The text after the package-name prefix of a warning. */
  function Detail(w: Warning): string {
    match w
    case NamespaceNotDefined(ns) => ": namespace not defined in root package \"" + ns + "\"."
    case AssetDirMissing(dir) => ": asset directory does not exist \"" + ToPhpString(dir) + "\"."
  }

  /** A warning's message as the callback evidently means to format it: the
      package name, then the detail. */
  function Message(packageName: string, w: Warning): (r: string)
    ensures |packageName| <= |r| && r[..|packageName|] == packageName
    ensures r[|packageName|..] == Detail(w)
  {
    packageName + Detail(w)
  }

  /** A warning's message as the callback formats it: `$package_name` is not
      among the closure's captured variables, reads as null, and `%s` turns
      null into the empty string. */
  function MessageAsWritten(w: Warning): (r: string)
    ensures r == Detail(w)
  {
    ToPhpString(Null) + Detail(w)
  }

  /** A directory's path is the package path, a slash and the directory as
      a string; so two directories give the same path exactly when they
      convert to the same string. */
  lemma DirPathParts(packagePath: string, dir1: Value, dir2: Value)
    ensures var p := DirPath(packagePath, dir1);
      && |packagePath| < |p| && p[..|packagePath|] == packagePath && p[|packagePath|] == '/'
      && p[|packagePath| + 1..] == ToPhpString(dir1)
    ensures DirPath(packagePath, dir1) == DirPath(packagePath, dir2) <==> ToPhpString(dir1) == ToPhpString(dir2)
  {
  }

  /** The as-written message never names the package, whatever its name. */
  lemma MessageAsWrittenOmitsName(packageName: string, w: Warning)
    requires packageName != ""
    ensures MessageAsWritten(w) != Message(packageName, w)
    ensures MessageAsWritten(w) == Message("", w)
  {
  }

  /** The lines the pass writes to the IO channel for its warnings. */
  function WarningLines(packageName: string, ws: seq<Warning>): seq<string> {
    if ws == [] then []
    else LinesOf(Tagged(LogWarning, Message(packageName, ws[0]))) + WarningLines(packageName, ws[1..])
  }

  lemma {:induction false} KeptAppend(target: PhpArray, dirs: set<string>, packagePath: string, a: PhpArray, b: PhpArray)
    ensures Kept(target, dirs, packagePath, a + b)
      == Kept(target, dirs, packagePath, a) + Kept(target, dirs, packagePath, b)
  {
    if a == [] {
      assert a + b == b;
    } else {
      assert (a + b)[1..] == a[1..] + b;
      KeptAppend(target, dirs, packagePath, a[1..], b);
      var head := if Rejection(target, dirs, packagePath, a[0]).None? then [a[0]] else [];
      AppendAssoc(head, Kept(target, dirs, packagePath, a[1..]), Kept(target, dirs, packagePath, b));
    }
  }

  lemma {:induction false} WarningsAppend(target: PhpArray, dirs: set<string>, packagePath: string, a: PhpArray, b: PhpArray)
    ensures Warnings(target, dirs, packagePath, a + b)
      == Warnings(target, dirs, packagePath, a) + Warnings(target, dirs, packagePath, b)
  {
    if a == [] {
      assert a + b == b;
    } else {
      assert (a + b)[1..] == a[1..] + b;
      WarningsAppend(target, dirs, packagePath, a[1..], b);
      var head := match Rejection(target, dirs, packagePath, a[0])
        case None => []
        case Some(w) => [w];
      AppendAssoc(head, Warnings(target, dirs, packagePath, a[1..]), Warnings(target, dirs, packagePath, b));
    }
  }

  lemma {:induction false} ProbesAppend(target: PhpArray, packagePath: string, a: PhpArray, b: PhpArray)
    ensures Probes(target, packagePath, a + b)
      == Probes(target, packagePath, a) + Probes(target, packagePath, b)
  {
    if a == [] {
      assert a + b == b;
    } else {
      assert (a + b)[1..] == a[1..] + b;
      ProbesAppend(target, packagePath, a[1..], b);
      var head := if IsSet(target, a[0].0) then [DirPath(packagePath, a[0].1)] else [];
      AppendAssoc(head, Probes(target, packagePath, a[1..]), Probes(target, packagePath, b));
    }
  }

  /** The pass is a left-to-right scan: its result, its warnings and its
      directory tests for a concatenation are those of the parts, in order. */
  lemma FilterAppend(target: PhpArray, dirs: set<string>, packagePath: string, a: PhpArray, b: PhpArray)
    ensures Kept(target, dirs, packagePath, a + b)
      == Kept(target, dirs, packagePath, a) + Kept(target, dirs, packagePath, b)
    ensures Warnings(target, dirs, packagePath, a + b)
      == Warnings(target, dirs, packagePath, a) + Warnings(target, dirs, packagePath, b)
    ensures Probes(target, packagePath, a + b)
      == Probes(target, packagePath, a) + Probes(target, packagePath, b)
  {
    KeptAppend(target, dirs, packagePath, a, b);
    WarningsAppend(target, dirs, packagePath, a, b);
    ProbesAppend(target, packagePath, a, b);
  }

  /** The pass over a single entry: kept alone, or dropped with its one
      warning; its directory is tested only if its namespace is set. */
  lemma FilterSingle(target: PhpArray, dirs: set<string>, packagePath: string, e: (string, Value))
    ensures Kept(target, dirs, packagePath, [e])
      == if Rejection(target, dirs, packagePath, e).None? then [e] else []
    ensures Warnings(target, dirs, packagePath, [e])
      == if Rejection(target, dirs, packagePath, e).None? then [] else [Rejection(target, dirs, packagePath, e).value]
    ensures Probes(target, packagePath, [e])
      == if IsSet(target, e.0) then [DirPath(packagePath, e.1)] else []
  {
  }

  /** Warning lines for consecutive runs of warnings are consecutive. */
  lemma {:induction false} WarningLinesAppend(packageName: string, a: seq<Warning>, b: seq<Warning>)
    ensures WarningLines(packageName, a + b) == WarningLines(packageName, a) + WarningLines(packageName, b)
  {
    if a == [] {
      assert a + b == b;
    } else {
      assert (a + b)[1..] == a[1..] + b;
      WarningLinesAppend(packageName, a[1..], b);
      AppendAssoc(LinesOf(Tagged(LogWarning, Message(packageName, a[0]))),
        WarningLines(packageName, a[1..]), WarningLines(packageName, b));
    }
  }

  /** A single warning becomes the one line `log` writes for it. */
  lemma WarningLinesSingle(packageName: string, w: Warning)
    ensures WarningLines(packageName, [w]) == LinesOf(Tagged(LogWarning, Message(packageName, w)))
  {
  }

  /** One step of the pass: what handling entry `e` after the entries
      `done` adds to the result, to the log and to the directory tests. */
  lemma FilterStep(target: PhpArray, dirs: set<string>, packagePath: string, packageName: string,
                   done: PhpArray, e: (string, Value))
    ensures Kept(target, dirs, packagePath, done + [e])
      == Kept(target, dirs, packagePath, done) + if Rejection(target, dirs, packagePath, e).None? then [e] else []
    ensures WarningLines(packageName, Warnings(target, dirs, packagePath, done + [e]))
      == WarningLines(packageName, Warnings(target, dirs, packagePath, done))
         + WarningLines(packageName, Warnings(target, dirs, packagePath, [e]))
    ensures Probes(target, packagePath, done + [e])
      == Probes(target, packagePath, done) + Probes(target, packagePath, [e])
  {
    FilterAppend(target, dirs, packagePath, done, [e]);
    FilterSingle(target, dirs, packagePath, e);
    WarningLinesAppend(packageName, Warnings(target, dirs, packagePath, done),
      Warnings(target, dirs, packagePath, [e]));
  }

  /** An entry survives exactly when it is in the source map, its namespace
      is set in the target map and its directory exists. */
  lemma {:induction false} KeptMembers(target: PhpArray, dirs: set<string>, packagePath: string, src: PhpArray)
    ensures forall e :: e in Kept(target, dirs, packagePath, src) <==>
      e in src && IsSet(target, e.0) && DirPath(packagePath, e.1) in dirs
  {
    if src != [] {
      KeptMembers(target, dirs, packagePath, src[1..]);
      assert src == [src[0]] + src[1..];
    }
  }

  /** Each entry is either kept or produces exactly one warning. */
  lemma {:induction false} KeptPlusWarnings(target: PhpArray, dirs: set<string>, packagePath: string, src: PhpArray)
    ensures |Kept(target, dirs, packagePath, src)| + |Warnings(target, dirs, packagePath, src)| == |src|
  {
    if src != [] {
      KeptPlusWarnings(target, dirs, packagePath, src[1..]);
    }
  }

  /** Every warning is the verdict on some entry of the source map, and every
      dropped entry's verdict is among the warnings. */
  lemma {:induction false} WarningsExplained(target: PhpArray, dirs: set<string>, packagePath: string, src: PhpArray)
    ensures forall w :: w in Warnings(target, dirs, packagePath, src) <==>
      exists e :: e in src && Rejection(target, dirs, packagePath, e) == Some(w)
  {
    if src != [] {
      WarningsExplained(target, dirs, packagePath, src[1..]);
      assert src == [src[0]] + src[1..];
    }
  }

  /** `is_dir` is asked about an entry's path only when its namespace is set
      in the target map: the namespace test short-circuits the directory test. */
  lemma {:induction false} ProbesExplained(target: PhpArray, packagePath: string, src: PhpArray)
    ensures |Probes(target, packagePath, src)| <= |src|
    ensures forall p :: p in Probes(target, packagePath, src) <==>
      exists e :: e in src && IsSet(target, e.0) && DirPath(packagePath, e.1) == p
  {
    if src != [] {
      ProbesExplained(target, packagePath, src[1..]);
      assert src == [src[0]] + src[1..];
    }
  }

  /** The result is a sub-map of the source map: still key-unique, and each
      kept namespace maps to the directory the source map gives it. */
  lemma {:induction false} KeptIsSubMap(target: PhpArray, dirs: set<string>, packagePath: string, src: PhpArray)
    requires UniqueKeys(src)
    ensures UniqueKeys(Kept(target, dirs, packagePath, src))
    ensures forall e :: e in Kept(target, dirs, packagePath, src) ==> Lookup(src, e.0) == Some(e.1)
  {
    KeptMembers(target, dirs, packagePath, src);
    forall e | e in Kept(target, dirs, packagePath, src)
      ensures Lookup(src, e.0) == Some(e.1)
    {
      LookupFindsMember(src, e);
    }
    if src != [] {
      assert UniqueKeys(src[1..]) by {
        forall i, j | 0 <= i < j < |src[1..]| ensures src[1..][i].0 != src[1..][j].0 {
          assert src[1..][i] == src[i + 1] && src[1..][j] == src[j + 1];
        }
      }
      KeptIsSubMap(target, dirs, packagePath, src[1..]);
      var rest := Kept(target, dirs, packagePath, src[1..]);
      KeptMembers(target, dirs, packagePath, src[1..]);
      if Rejection(target, dirs, packagePath, src[0]).None? {
        assert Kept(target, dirs, packagePath, src) == [src[0]] + rest;
        forall k | 0 <= k < |rest| ensures rest[k].0 != src[0].0 {
          assert rest[k] in src[1..];
          var m :| 0 <= m < |src[1..]| && src[1..][m] == rest[k];
          assert src[m + 1] == rest[k];
        }
      }
    }
  }

  /** With no namespace of the source map set in the target map (in
      particular with an empty target map), nothing is kept, no directory is
      tested and every entry gives a "namespace not defined" warning. */
  lemma {:induction false} NothingDefinedDropsAll(target: PhpArray, dirs: set<string>, packagePath: string, src: PhpArray)
    requires forall e :: e in src ==> !IsSet(target, e.0)
    ensures Kept(target, dirs, packagePath, src) == []
    ensures Probes(target, packagePath, src) == []
    ensures |Warnings(target, dirs, packagePath, src)| == |src|
    ensures forall w :: w in Warnings(target, dirs, packagePath, src) ==> w.NamespaceNotDefined?
  {
    if src != [] {
      assert src[0] in src;
      assert forall e :: e in src[1..] ==> e in src;
      NothingDefinedDropsAll(target, dirs, packagePath, src[1..]);
    }
  }

  /** Each warning becomes exactly one warning-level line, which reads back as
      that warning's message. */
  lemma {:induction false} WarningLinesReadBack(packageName: string, ws: seq<Warning>)
    ensures |WarningLines(packageName, ws)| == |ws|
    ensures forall i :: 0 <= i < |ws| ==>
      Untag(WarningLines(packageName, ws)[i]) == Some((LogWarning, Message(packageName, ws[i])))
  {
    if ws != [] {
      WarningLinesReadBack(packageName, ws[1..]);
      TaggedRoundTrip(LogWarning, Message(packageName, ws[0]));
      var lines := WarningLines(packageName, ws);
      forall i | 0 < i < |ws|
        ensures Untag(lines[i]) == Some((LogWarning, Message(packageName, ws[i])))
      {
        assert lines[i] == WarningLines(packageName, ws[1..])[i - 1];
        assert ws[1..][i - 1] == ws[i];
      }
    }
  }

  /** A dependency declaring a namespace the root package never defined: the
      entry is dropped with a warning and its directory is not even tested,
      while a valid sibling entry is kept. */
  lemma UndeclaredNamespaceScenario()
    ensures Kept([("js", Str("public/vendor"))], {"/deps/acme-widgets/dist", "/deps/acme-widgets/styles"},
                 "/deps/acme-widgets", [("css", Str("styles")), ("js", Str("dist"))])
      == [("js", Str("dist"))]
    ensures Warnings([("js", Str("public/vendor"))], {"/deps/acme-widgets/dist", "/deps/acme-widgets/styles"},
                     "/deps/acme-widgets", [("css", Str("styles")), ("js", Str("dist"))])
      == [NamespaceNotDefined("css")]
    ensures Probes([("js", Str("public/vendor"))], "/deps/acme-widgets", [("css", Str("styles")), ("js", Str("dist"))])
      == ["/deps/acme-widgets/dist"]
  {
    var src := [("css", Str("styles")), ("js", Str("dist"))];
    assert src == [src[0]] + [src[1]];
    var target := [("js", Str("public/vendor"))];
    assert !IsSet(target, "css");
    assert IsSet(target, "js");
    assert DirPath("/deps/acme-widgets", Str("dist")) == "/deps/acme-widgets/dist";
    FilterAppend(target, {"/deps/acme-widgets/dist", "/deps/acme-widgets/styles"}, "/deps/acme-widgets", [src[0]], [src[1]]);
  }
}
