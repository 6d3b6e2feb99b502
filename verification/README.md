# octris/assets installer: namespace resolution and source filtering

The `octris/assets` Composer plugin links the asset directories of installed
packages into directories of the root project, grouped by *namespace*. A
package declares its asset configuration in the `extra` section of its
`composer.json` under the reserved key `octris/assets`:

- the root package declares `target`, the namespace-to-directory map that
  receives the links;
- a dependency declares `source`, the map from namespaces to asset
  directories inside its own tree.

Either setting may be a single value instead of a map. A single value is
filed under the default namespace `assets`.

This project models the part of `libs/Installer.php` that has logic:

- **Target-map resolution** (constructor). The root package's `target`
  setting becomes the installer's `assets_dirs`. PHP `isset` semantics apply:
  a missing key, a null value, or a non-array `octris/assets` entry all
  count as "not configured", and the map then stays empty. An array is used
  as it is: same keys, same values, same order.
- **Source-map resolution** (`install`). The same scalar-or-map rule is
  applied to a dependency's `source` setting. Without a `source` setting,
  `install` does nothing.
- **Source-map filtering** (`install`, the `array_filter` call). An entry
  `ns => dir` is kept only if two checks pass:
  - `ns` is set in the target map;
  - `package_path/dir` is an existing directory.

  The namespace check runs first. When it fails, the directory is never
  examined. Each dropped entry logs exactly one warning, and kept entries
  keep their keys and relative order.
- **`log`**. Levels 1, 2 and 3 write one line `<info>m</info>`,
  `<warning>m</warning>` or `<error>m</error>` to Composer's IO channel.
  Any other level writes nothing.

Layout:

- `php_values.dfy` (module `PhpValues`): decoded JSON values, ordered PHP
  arrays, lookup, `isset`, and PHP's string conversion.
- `resolver.dfy` (module `Resolver`): the `isset` chain, the scalar-or-map
  rule, and target/source resolution.
- `log_format.dfy` (module `LogFormat`): log levels, tag framing, and a
  reader that recovers level and message from a line.
- `source_filter.dfy` (module `SourceFilter`): the filter as specification
  functions (`Kept`, `Warnings`, `Probes`, `WarningLines`) and their
  properties.
- `host.dfy` (module `Host`): two collaborators.
  - `IO` is Composer's output channel: an append-only sequence of lines.
  - `FileSystem` is the `is_dir` test: a fixed set of existing directories,
    plus a record of every path the test is asked about.
- `installer.dfy` (module `Assets`): the `Installer` class, holding the
  fields `io`, `assetsDirs` and `rootPath`. It has the constructor and the
  methods `Log`, `Accept` (the filter callback), `FilterSourceDirs` (the
  `array_filter` pass, a loop proved against `Kept`, `Warnings` and `Probes`)
  and `Install`.

Two features of the code shape the model:

- A configured map is used unchanged, non-string entries included
  (`libs/Installer.php:82-84`, `libs/Installer.php:103-105`). The model keeps
  every entry. PHP's own string conversion applies when a non-string
  directory is put into a path.
- The code has no link creation, update diffing, unlinking or cleanup. The
  link loop (`libs/Installer.php:117-121`) is empty.

## Model

| member | source | states |
|---|---|---|
| `PhpValues.Lookup` | libs/Installer.php:108 | A lookup that finds a value finds an entry of the array under that key. A lookup that finds nothing means no entry has that key. |
| `PhpValues.LookupFindsMember` | libs/Installer.php:108 | In a key-unique PHP array, looking up an entry's key returns that entry's value. |
| `PhpValues.IsSetIff` | libs/Installer.php:108 | `isset($a[$k])` (`IsSet`, also used at lines 81 and 98): in a key-unique array it holds exactly when some entry has key `k` and a non-null value. |
| `PhpValues.Digits` | libs/Installer.php:110 | The decimal numeral of a natural number is canonical (digits only, no leading zero) and reads back as that number. |
| `PhpValues.ToPhpString` | libs/Installer.php:110-111 | PHP's string conversion in `.` and `%s`: an integer gives its canonical decimal numeral, which reads back as the integer, with a `-` before a negative one. A string is unchanged. Null and false give the empty string, true gives `1`, and an array gives `Array`. |
| `Resolver.Setting` | libs/Installer.php:81 | A setting is present exactly when `octris/assets` is set and is an array and the role key is set in it (`isset`: present and not null). The value returned is never null. |
| `Resolver.NamespaceMap` | libs/Installer.php:82-84 | The scalar-or-map rule: an array is taken unchanged. Any other value gives a one-entry map that holds it under `assets`. When that value is not null, `assets` is the map's only defined namespace. |
| `Resolver.ResolveTarget` | libs/Installer.php:78-85 | No `target` setting gives the empty map, where no namespace is defined. An array setting gives that array unchanged. A scalar setting gives a one-entry map whose only defined namespace is `assets` and whose value is the scalar. |
| `Resolver.ResolveSource` | libs/Installer.php:98-105 | No source map exactly when there is no `source` setting (so `install` does nothing). An array is used as it is. A scalar becomes `[assets => value]`. |
| `Resolver.ResolvedMapsHaveUniqueKeys` | libs/Installer.php:82-84 | Resolution keeps PHP's key uniqueness. |
| `Resolver.ResolutionReadsOnlyReservedKey` | libs/Installer.php:79-84 | Two `extra` sections that agree on `octris/assets` resolve to the same target and source maps. |
| `Resolver.ConfiguredSettingIsRead` | libs/Installer.php:98 | A package that configures a non-null value under a role has that value read back unchanged. A null value reads as not configured. |
| `LogFormat.FramePairs` | libs/Installer.php:134-143 | The `switch` has tags exactly for levels 1, 2 and 3 (`Frame`). Each closing tag is its opening tag with a slash after the `<`. |
| `LogFormat.Tagged` | libs/Installer.php:132-145 | `log` produces a line exactly for levels 1, 2 and 3 (`LOG_INFO`, `LOG_WARNING`, `LOG_ERROR`, lines 31-33). |
| `LogFormat.TaggedRoundTrip` | libs/Installer.php:134-143 | Every line `log` writes reads back as its level and message. |
| `LogFormat.UntagRoundTrip` | libs/Installer.php:134-143 | Every line that reads back as a level and a message is exactly the line `log` writes for them. |
| `LogFormat.TaggedInjective` | libs/Installer.php:134-143 | Different (level, message) pairs never produce the same line. |
| `SourceFilter.DirPathParts` | libs/Installer.php:110 | The path tested (`DirPath`) is the package path, a slash, and the directory as a string. Two directories give the same path exactly when their string forms agree. |
| `SourceFilter.Rejection` | libs/Installer.php:108-114 | An entry is kept exactly when its namespace is set in the target map and its directory exists. An undefined namespace yields a "namespace not defined" verdict whatever the directory. A defined namespace with a missing directory yields "asset directory does not exist". |
| `SourceFilter.Kept` | libs/Installer.php:107-115 | The specification of the `array_filter` result: never longer than the source map. Which entries survive is stated by `KeptMembers`, and their order by `FilterAppend`. |
| `SourceFilter.Warnings` | libs/Installer.php:108-112 | The warnings the pass logs: at most one per source entry. `KeptPlusWarnings` makes that exactly one per dropped entry. |
| `SourceFilter.Probes` | libs/Installer.php:108-110 | The paths `is_dir` is asked about: no more than there are source entries. `ProbesExplained` says which paths they are. |
| `SourceFilter.MessageAsWritten` | libs/Installer.php:109-111 | The message as the code formats it is only the detail text. The `%s` meant for the package name contributes nothing. |
| `SourceFilter.Message` | libs/Installer.php:109-111 | A warning message starts with the package name, followed by the warning's detail text. |
| `SourceFilter.MessageAsWrittenOmitsName` | libs/Installer.php:107-111 | The message as the closure formats it equals the message for an empty package name, and differs from the intended message for every non-empty name. |
| `SourceFilter.FilterAppend` | libs/Installer.php:107-115 | The filter is a left-to-right scan. On a concatenation, the kept entries, the warnings and the directory tests are those of each part, in order. |
| `SourceFilter.FilterSingle` | libs/Installer.php:108-114 | One entry is either kept alone or dropped with its single warning. Its directory is tested only when its namespace is set. |
| `SourceFilter.FilterStep` | libs/Installer.php:107-115 | Handling one more entry extends the result, the warning lines and the directory tests by that entry's contribution. |
| `SourceFilter.KeptMembers` | libs/Installer.php:107-115 | An entry is in the filtered map exactly when it is in the source map, its namespace is set in the target map, and `package_path/dir` is an existing directory. |
| `SourceFilter.KeptPlusWarnings` | libs/Installer.php:108-114 | Kept entries plus warnings equal the size of the source map: every dropped entry gives exactly one warning, and kept entries give none. |
| `SourceFilter.WarningsExplained` | libs/Installer.php:108-112 | A warning is logged exactly when some source entry's verdict is that warning. |
| `SourceFilter.ProbesExplained` | libs/Installer.php:108-110 | `is_dir` is called on a path exactly when some entry with a defined namespace has that path. It is called no more times than there are entries. |
| `SourceFilter.KeptIsSubMap` | libs/Installer.php:107-115 | For a key-unique source map, the filtered map is key-unique, and each kept namespace maps to the directory the source map gives it. |
| `SourceFilter.NothingDefinedDropsAll` | libs/Installer.php:108-109 | When no source namespace is set in the target map (for example, the target map is empty), nothing is kept and no directory is tested. Every entry gives one "namespace not defined" warning. |
| `SourceFilter.WarningLinesReadBack` | libs/Installer.php:109-111 | Each warning becomes exactly one line, at warning level, that reads back as its message. |
| `SourceFilter.UndeclaredNamespaceScenario` | libs/Installer.php:108-114 | Target `{js}`, source `{css: styles, js: dist}`: only `js` is kept. One warning names `css`. Only `dist` is tested, even though `styles` exists. |
| `Host.IO.Write` | libs/Installer.php:136 | Writing appends the given lines, in order, to the channel. |
| `Host.FileSystem.IsDir` | libs/Installer.php:110 | The answer is membership in the set of existing directories. The asked path is recorded. |
| `Assets.Installer.constructor` | libs/Installer.php:73-85 | The target map is the resolved `target` setting; it is empty without one. Nothing is written to the IO channel. |
| `Assets.Installer.Log` | libs/Installer.php:132-145 | Appends `Tagged(level, message)`: one line for levels 1-3 and none for any other level. |
| `Assets.Installer.Accept` | libs/Installer.php:107-114 | The callback returns the keep verdict. It logs the entry's one warning, in the corrected text `Message`, when the entry is dropped. It calls `is_dir` only after the namespace check passes. |
| `Assets.Installer.FilterSourceDirs` | libs/Installer.php:107-115 | The loop returns exactly `Kept` of the source map. It appends exactly the warning lines of `Warnings` to the channel and makes exactly the directory tests `Probes`. |
| `Assets.Installer.Install` | libs/Installer.php:93-127 | Returns the installer itself and leaves the target map unchanged. Without a `source` setting it writes nothing and tests no directory. Otherwise it returns the filtered source map and logs its warnings, and the number of lines written equals the size of the source map minus the size of the filtered map. |

## Left out

- `libs/InstallerPlugin.php` is not part of this model. It only registers
  Composer event handlers. It calls `installPackage`, `updatePackage`,
  `uninstall` and `cleanup`, none of which exist in `libs/Installer.php`.
- Link creation, update diffing, unlinking and cleanup are not modelled. The
  link loop at `libs/Installer.php:117-121` is empty. `Install` returns the
  filtered map that this loop iterates over.
- The root path (`realpath(dirname(Composer\Factory::getComposerFile()))`,
  line 76) is a filesystem call. It is a constructor parameter here, and no
  modelled operation reads it.
- Composer's `getPackage`/`getExtra`, `getInstallPath` and `getName` are not
  modelled. Their results are parameters: the decoded `extra` array, the
  package path and the package name.
- `is_dir` is not modelled as real filesystem access. It is membership in a
  fixed set of existing directory paths, and the filesystem does not change
  during `install`.
- The `var_dump` debug output (lines 87 and 123) is left out. It goes to
  standard output, not to the IO channel. Line 87 also reads the undefined
  variable `$target_dir`.
- Integer array keys are not modelled; every key is a string. PHP turns
  numeric-string keys into integers, and JSON lists have integer keys. Both
  the target map and the source map go through the same conversion, so
  `isset($this->assets_dirs[$ns])` behaves the same.
- Floating-point JSON values are not modelled. Their string conversion is
  not modelled either.
- Integers are unbounded in `Value.Int`. PHP integers are 64-bit, and
  `json_decode` reads an integer literal beyond `PHP_INT_MAX` as a float.
  The string conversion of such a float is not modelled, so for such a
  directory value the model's `is_dir` path and warning text differ from
  the code's.
- PHP notices are not modelled, nor any error handler that turns them into
  exceptions. `MessageAsWritten` reads the undefined `$package_name` (see
  Findings) as null, which is PHP's default. A handler that throws on
  notices would already abort the constructor at line 87, which reads the
  undefined `$target_dir`. With such a handler no installer is built at all.
- Assets.Installer.Accept: logs the corrected warning text
  `Message(packageName, w)`, which starts with the package name. The code
  as written logs `MessageAsWritten(w)` (see Findings).
- Assets.Installer.FilterSourceDirs: its log contract uses the corrected
  warning text through `Accept`, not the text the code writes.
- Assets.Installer.Install: its log contract uses the corrected warning text
  through `FilterSourceDirs`, not the text the code writes.
- Assets.Installer.Log: the level is an integer. PHP's loose `switch`
  comparison would also match values such as the string `"1"` or `true` to a
  level; the model does not.

## Findings

| source | as written | input that shows it | evidently intended | confidence | as-written member | corrected member |
|---|---|---|---|---|---|---|
| libs/Installer.php:107-111 | The filter closure captures only `$package_path`, but both warnings format `$package_name`. So the prefix is an undefined variable, read as null, and the message starts with `: ` instead of the package name. | Any source entry whose namespace is not in the target map, for example `css` with target `{js}`. | Each warning starts with the dependency's name. | medium, not executed | `SourceFilter.MessageAsWrittenOmitsName` | `SourceFilter.Message` |
