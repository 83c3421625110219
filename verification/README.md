# prefer, modelled in Dafny

This project models the core of `prefer`, a Node.js library that finds, loads and parses
configuration files and exposes them as a queryable tree. The model covers:

- **Util**: the prototype-pollution guard (`checkPrototypePollution`), the dotted-key query
  (`queryNestedKey`) and the module-reference split inside `resolveModule`.
- **Configurator**: `get` and `set` over one owned configuration tree, with their provenance state.
- **Builder**: `deepMerge`, the environment source (`EnvSource`), the error mapping of `FileSource`,
  the layered `build` fold and the typed accessors of `TypedConfig`.
- **FormatterDefaults** and **LoaderDefaults**: the extension matcher, the file-name pattern, and the two
  default provider tables.
- **Loader**: the base loader's option merge, its `updated` dispatch and its defaults.
- **FileLoader**: option defaults, prefix and exact discovery across search paths, reading, the
  formatter suggestion, `load` and the change handler. All of this runs over an abstract file system.
- **Pathing**: the ordered list of standard configuration directories, with the platform, working
  directory, script path, home directory and environment as parameters.
- **Prefer**: provider selection (`getEntity`), formatting a loaded text into a configurator, argument
  normalisation and the `load` pipeline, and the reactions to loader events.

Configuration values are an immutable `Value` datatype. JavaScript `undefined` is `Option.None`.
Errors are values of one `Error` datatype whose `Message` gives the source's text (see "## Left out"
for the read and type errors Node words differently). Node's `path`
functions are modelled as plain POSIX string functions in module `Posix`. JavaScript string
operations are modelled over `seq<char>` in module `Strings`.

The pipeline in `Prefer.Load` takes the loader and the parser as parameters:

- the behaviour of the loader module chosen for an identifier;
- the parse function of the formatter module chosen.

So it covers every loader and formatter, including the base loader (`Loader.BaseBehaviour`) and
the file loader (`FileLoader.FileBehaviour`).

Where the code and its surrounding descriptions differ, the model follows the code:

- `FileLoader.formatterSuggested`, for a base name without a dot, calls `find(identifier, true)`.
  That call rejects when nothing matches, so the suggestion fails with the not-found error. The
  `files.length > 0 ? … : false` fallback is never reached with `false`.
- On a Unix-like platform `getConfigPaths` pushes the home directory before the XDG config home,
  although its comment lists them the other way round.
- The orchestrator subscribes only to the loader's `updated` event. An `updateFailed` event from a
  watched file therefore produces no orchestrator event.

## Model

| member | source | states |
|---|---|---|
| Util.CheckPrototypePollution | src/util.ts:145-152 | fails exactly for `__proto__`, `prototype` and `constructor`, and the error names the rejected key |
| Util.ForbiddenOnlyExactly | src/util.ts:146-147 | the guard is an exact-word test: a forbidden word with anything before or after it passes |
| Util.FirstForbidden | src/configurator.ts:99-102 | the reported segment is forbidden and is one of the segments; there is none exactly when no segment is forbidden |
| Util.QueryNestedKey | src/util.ts:197-204 | an absent or empty key yields the whole object; any other key is walked as the rows below state |
| Util.WalkFromUndefined | src/util.ts:212-215 | once the walk reaches undefined it stays undefined, whatever segments remain |
| Util.WalkFollowsLookup | src/util.ts:210-218 | along a path of mappings the walk finds exactly the value the reference path lookup finds |
| Util.WalkMissingSegment | src/util.ts:210-218 | when the mapping reached so far lacks the next segment, the query yields undefined |
| Util.WalkStopsAtNull | src/util.ts:212-215 | the walk stops at the first null on the path and returns null, ignoring the remaining segments |
| Util.StripDotsPrefix | src/util.ts:205-208 | any number of leading dots is removed entirely |
| Util.QueryIgnoresLeadingDots | src/util.ts:205-210 | querying `"...k"` is querying `"k"` |
| Util.QueryDoesNotCheckPollution | src/util.ts:197-219 | the query itself reads a `__proto__` key like any other |
| Util.ResolveModuleName | src/util.ts:35-44 | splits at the last separator: module part, separator and attribute give back the identifier, and the attribute holds no separator; without a separator the identifier is the module |
| Util.Child | src/util.ts:213-216 | one property read: a mapping's own key, an array element or a one-character string at a canonical index, the `length` of an array or string, and undefined on null, booleans and numbers |
| Configurator.Get | src/configurator.ts:97-112 | no key or an empty key returns the context; a forbidden segment fails naming the first one, before any lookup; otherwise an undefined query fails with the missing-key error naming the key, and a defined query is returned as it is |
| Configurator.NormaliseSetCall | src/configurator.ts:141-164 | a string first argument is the key and the second the value; a mapping or array is a whole new context; anything else sets nothing |
| Configurator.SetIn | src/configurator.ts:175-200 | the walk reports the first forbidden segment; a forbidden first segment leaves the mapping untouched; keys other than the first segment keep their values |
| Configurator.Set | src/configurator.ts:166-202 | the state is kept; without a key a defined value replaces the context; a forbidden first segment changes nothing; with a key the result is the value or the first forbidden segment's error, and other top-level keys are untouched |
| Configurator.SetInStoresValue | src/configurator.ts:178-199 | after a write with no forbidden segment, the path leads to the written value |
| Configurator.SetInCreatesMappings | src/configurator.ts:182-191 | every proper prefix of the written path leads to a mapping afterwards |
| Configurator.SetInKeepsSiblings | src/configurator.ts:183-191 | a value on a path that leaves the written path keeps its place: existing mappings keep their other keys |
| Configurator.SetThenGet | src/configurator.ts:97-202 | round trip: after `set(k, v)` on a mapping context, `get(k)` yields `v` for a key with no forbidden segment and no leading dot |
| Configurator.LeadingDotWriteIsNotReadBack | src/configurator.ts:175 | `set(".name", v)` writes under an empty first segment, which `get(".name")` never reads because the query strips leading dots; the read fails with the missing-key error |
| Builder.MergeFields | src/builder.ts:43-65 | keys are the union; base-only keys keep their values; override values win unless both sides are plain mappings, which merge into a mapping |
| Builder.ForbiddenMet | src/builder.ts:45-61 | the forbidden keys the merge meets: every forbidden key of the override and of every pair of mappings it recurses into, and nothing that is not forbidden; none is met exactly when the override has no forbidden key and no recursive merge meets one |
| Builder.DeepMerge | src/builder.ts:39-68 | fails exactly when a forbidden key is met in the override at any level it recurses into, naming one such key; otherwise yields the merged tree |
| Builder.MergeEmptyOverride | src/builder.ts:43-45 | merging an empty override returns the base |
| Builder.MergeIntoEmpty | src/builder.ts:45-64 | merging into an empty base succeeds exactly when the override's top-level keys are all allowed, and then copies the override |
| Builder.MergeFieldsSelf | src/builder.ts:50-61 | merging a tree with itself gives the tree back |
| Builder.OverrideLeafWins | src/builder.ts:62-64 | a non-mapping value of the override is found at its path in the merge, whatever the base holds there |
| Builder.BaseValueSurvives | src/builder.ts:43-65 | a base value survives when the override's mappings along its path run out of the next key |
| Builder.SetNested | src/builder.ts:178-198 | fails exactly when a part is forbidden, naming the first one; otherwise the string is stored at the path and every other top-level key keeps its value |
| Builder.SetNestedKeepsSiblings | src/builder.ts:185-197 | a value reachable through mappings along a path that leaves the written path stays where it was, so existing mappings are written into, not replaced |
| Builder.SetNestedSideBySide | src/builder.ts:144-148 | two writes sharing a first part end up side by side under it, as in the documented `MYAPP__DATABASE__HOST` / `MYAPP__DATABASE__PORT` example |
| Builder.SetNestedKeepsStringTree | src/builder.ts:185-197 | writing a string into a tree of strings and mappings keeps it one |
| Builder.EnvLoadBuildsStringTree | src/builder.ts:160-176 | an environment source yields only strings and mappings |
| Builder.EnvLoad | src/builder.ts:160-176 | the source fails exactly when some admitted variable's lower-cased path holds a forbidden part, and only with a pollution error |
| Builder.EnvIgnoresUnadmitted | src/builder.ts:164-166 | a variable without the upper-cased prefix and separator, or without a value, changes nothing |
| Builder.EnvLastWriteWins | src/builder.ts:163-173 | the last admitted variable for a path sets it to its string value |
| Builder.EnvKeepsEarlierValue | src/builder.ts:163-173 | a later variable whose path leaves an earlier value's path keeps that value |
| Builder.EnvForbiddenPartFails | src/builder.ts:185-187 | an admitted variable whose lower-cased path holds a forbidden part makes the whole source fail |
| Builder.FileSourceLoad | src/builder.ts:99-124 | a loaded file gives its tree; a failure gives `{}` for an optional file and passes the error on for a required one |
| Builder.LoadSource | src/builder.ts:84-124 | a memory source yields its tree; a file source fails exactly when its load failed and it is required; an environment source fails exactly when an admitted variable's path is polluted |
| Builder.Build | src/builder.ts:391-400 | a successful build means every source loaded; when every source loads, the build can fail only with a pollution error |
| Builder.BuildAppend | src/builder.ts:391-400 | appending a source merges its output over everything built so far |
| Builder.BuildLaterSourceWins | src/builder.ts:394-397 | a later source's non-mapping value is what the build holds at that path |
| Builder.BuildFailedFile | src/builder.ts:118-123 | an optional file that fails leaves the build unchanged; a required one fails it |
| Builder.ParseBoolean | src/builder.ts:277-281 | a case-insensitive `true` or `1` means true, and `false` or `0` means false |
| Builder.GetPartsFollowsLookup | src/builder.ts:230-243 | along a path of mappings without forbidden parts, `get` returns exactly the value the reference lookup finds |
| Builder.GetPartsMissingSegment | src/builder.ts:230-243 | when the mappings along the path run out of the next part, `get` returns undefined |
| Builder.GetPartsPollution | src/builder.ts:234-236 | a forbidden part that the read reaches rejects it, naming that part |
| Builder.ReadStoredValue | src/builder.ts:230-291 | for a stored value: `get` returns it; `getString` returns a string, else the default; `getBoolean` returns a boolean or a recognised spelling, else the default; `has` is true, even for a stored null |
| Builder.ReadMissingPath | src/builder.ts:230-291 | for a missing path: `get` is undefined, `getString` and `getBoolean` give their defaults, and `has` is false |
| Builder.ReadForbiddenSegment | src/builder.ts:230-291 | a reached forbidden part makes `get`, `getString`, `getBoolean` and `has` all reject with the same pollution error |
| Builder.AllAgreesWithGet | src/builder.ts:296-298 | every top-level entry of `all()` is what `get` reads under its plain key |
| Builder.TypedGetThroughNull | src/builder.ts:234-238 | reading through null yields undefined; the segment right after the null is still checked for pollution before the null test, and only the segments after that one go unchecked |
| Strings.SplitJoin | src/configurator.ts:175 | joining the pieces of `split` with the separator gives back the key, so splitting loses nothing |
| Strings.SplitPiecesAvoidSeparator | src/configurator.ts:175 | no piece of a split contains the separator |
| Strings.ToLower | src/builder.ts:169 | the lower-cased name has the same length and maps each ASCII capital to its small letter |
| Strings.NonEmptyMembers | src/pathing.ts:72 | `filter(Boolean)` keeps exactly the non-empty entries |
| Strings.NonEmptyAppend | src/pathing.ts:72 | filtering commutes with concatenation, so each group keeps its place |
| FormatterDefaults.EnsureDot | src/formatters/defaults.ts:14-16 | the result starts with a dot; a dotted value is kept, any other gets one prepended |
| FormatterDefaults.EnsureDotIdempotent | src/formatters/defaults.ts:14-16 | adding the dot twice is adding it once |
| FormatterDefaults.Provides | src/formatters/defaults.ts:21-33 | one answer per candidate, in order, each saying whether the type matches it |
| FormatterDefaults.MatchesCharacterised | src/formatters/defaults.ts:22-31 | a dot-free type matches a candidate exactly when the candidate is the type, the type with a dot, or a path whose extension is the type |
| FormatterDefaults.MatchesBareName | src/formatters/defaults.ts:22-31 | a bare candidate (no dot, no slash) matches a dot-free type exactly when it equals it |
| FormatterDefaults.JsonClaimsJsonFiles | src/formatters/defaults.ts:22-31 | `json` claims every plain `stem.json`, `.json` and `json` |
| FormatterDefaults.JsonDoesNotClaimJson5 | src/formatters/defaults.ts:22-31 | `json` does not claim the bare type `json5` |
| FormatterDefaults.OtherExtensionNotClaimed | src/formatters/defaults.ts:22-31 | a plain file name whose extension differs from a dot-free type is not claimed by it |
| FormatterDefaults.DefaultFormatters | src/formatters/defaults.ts:38-67 | one provider per table row, in order, with the row's module and the row type's matcher |
| FormatterDefaults.TypeIndex | src/formatters/defaults.ts:38-67 | the first table row registered for a type, and none exactly when no row has that type |
| FormatterDefaults.TableTypesHaveNoDot | src/formatters/defaults.ts:40-64 | no registered type contains a dot |
| FormatterDefaults.DefaultClaimsForBareName | src/formatters/defaults.ts:38-67 | for a bare candidate, a default provider claims it exactly when its row's type is that candidate |
| FormatterDefaults.RegistryAliases | src/formatters/defaults.ts:43-66 | `yml` and `yaml` share a module, as do `json5` and `jsonc`; `json` does not share with `json5`; there is no `toml` row |
| LoaderDefaults.UnitsIsShape | src/loaders/defaults.ts:9 | the pattern's repeated group accepts exactly the non-empty strings of permitted characters and `/` with no `//` and no trailing `/` |
| LoaderDefaults.FileNameRejectsEmptyAndTrailingSlash | src/loaders/defaults.ts:9 | the pattern rejects the empty string and anything ending in `/` |
| LoaderDefaults.FileNameRejectsExcluded | src/loaders/defaults.ts:9 | the pattern rejects any string holding one of `? * ; { } \` |
| LoaderDefaults.FileNameShape | src/loaders/defaults.ts:9 | an accepted name is a run of units after the `file://` prefix if it has one, and as a whole otherwise |
| LoaderDefaults.PermittedNamesMatch | src/loaders/defaults.ts:9 | a name of permitted characters is accepted alone and as the absolute path of a `file://` URL |
| LoaderDefaults.LoaderProvides | src/loaders/defaults.ts:14-18 | one test per candidate, in order, each the pattern's verdict |
| LoaderDefaults.DefaultLoaders | src/loaders/defaults.ts:23-28 | the file loader alone, claiming by the file-name pattern |
| Loader.UpdateOptions | src/loaders/loader.ts:35-37 | keys are the union; new values win; unmentioned old values stay |
| Loader.UpdateOptionsIdempotent | src/loaders/loader.ts:35-37 | applying the same options twice is applying them once |
| Loader.ConstructedOptions | src/loaders/loader.ts:26-30 | a new loader holds exactly the options it was given |
| Loader.UpdatedEvents | src/loaders/loader.ts:42-48 | one event: `updateFailed` with the error exactly when there is an error, else `updated` with the result |
| Loader.BaseBehaviour | src/loaders/loader.ts:54-76 | the base loader requires a formatter, suggests none, and fails every load |
| FileLoader.ConstructFiles | src/loaders/file_loader.ts:24-33 | a supplied `files` object replaces the defaults wholesale; without one the loader watches and searches the standard paths |
| FileLoader.StartingWith | src/loaders/file_loader.ts:67-69 | keeps exactly the entries starting with the name, and no more entries than there were |
| FileLoader.StartingWithAppend | src/loaders/file_loader.ts:67-69 | the filter keeps listing order and multiplicity: it distributes over concatenation and keeps a single entry exactly when it starts with the name |
| FileLoader.FindByPrefix | src/loaders/file_loader.ts:61-74 | a readable directory's listing filtered by the name, in listing order; an unreadable directory gives none |
| FileLoader.DirectoryMatches | src/loaders/file_loader.ts:103-111 | the directory's prefix matches, in the order `findByPrefix` gives them, each joined to the absolute directory |
| FileLoader.FindPrefix | src/loaders/file_loader.ts:123-139 | succeeds exactly when some non-empty match exists, returning all of them in search order; otherwise, and always for no search paths, fails with the not-found error naming the name |
| FileLoader.FirstExistingSpec | src/loaders/file_loader.ts:123-136 | the chosen probe exists and no earlier probe does; there is none exactly when no probe exists |
| FileLoader.FindExact | src/loaders/file_loader.ts:90-143 | a hit is an existing probe with no existing probe before it; with an absolute working directory there is a hit exactly when some probe exists; otherwise the not-found error |
| FileLoader.Get | src/loaders/file_loader.ts:153-166 | succeeds exactly for a readable file, with the path as source and the file's text as content |
| FileLoader.ExtensionOf | src/loaders/file_loader.ts:55 | the extension without its dot holds no dot |
| FileLoader.FormatterSuggested | src/loaders/file_loader.ts:38-56 | no identifier suggests nothing; a base name with a dot suggests the text after its last dot; otherwise the first prefix match's extension, failing when there is no match |
| FileLoader.Resolved | src/loaders/file_loader.ts:204-214 | a base name without a dot resolves to the first prefix match; one with a dot to the exact match |
| FileLoader.Load | src/loaders/file_loader.ts:199-226 | reads the resolved file, watching it exactly when `watch` is set; discovery and read failures pass through |
| FileLoader.ChangeHandler | src/loaders/file_loader.ts:171-178 | re-emits the notification first, then `updated` with the re-read file or `updateFailed` with the read error |
| FileLoader.FileBehaviour | src/loaders/file_loader.ts:38-226 | the file loader requires a formatter and answers suggestion and load as above |
| FileLoader.PrefixMatchesAppend | src/loaders/file_loader.ts:98-128 | matches are grouped by search path: an earlier directory's all come first |
| FileLoader.PrefixMatchMembers | src/loaders/file_loader.ts:99-128 | a match is exactly a readable directory's entry starting with the name, joined to that directory's absolute path |
| FileLoader.UnreadableDirectoryIgnored | src/loaders/file_loader.ts:65-73 | a directory that cannot be listed contributes nothing and disturbs nothing |
| FileLoader.FirstExistingAppend | src/loaders/file_loader.ts:123-136 | lower-priority search paths never change an existing hit |
| FileLoader.FindExactIgnoresLater | src/loaders/file_loader.ts:123-136 | exact mode ignores every match after the first |
| FileLoader.SuggestionAgreesWithExtname | src/loaders/file_loader.ts:45-51 | for an ordinary file name the suggestion is `path.extname` without its dot |
| FileLoader.DotFileSuggestion | src/loaders/file_loader.ts:45-51 | a dot file `.ext` suggests `ext` although `path.extname` gives nothing for it |
| FileLoader.DefaultLoaderWatches | src/loaders/file_loader.ts:24-33 | a loader built without a `files` option watches every file it loads |
| Pathing.XdgConfigHome | src/pathing.ts:35 | a set `XDG_CONFIG_HOME`, else `home/.config` |
| Pathing.XdgConfigDirs | src/pathing.ts:52-53 | the colon-separated entries of `XDG_CONFIG_DIRS` (default `/etc/xdg`), none of them empty |
| Pathing.Leading | src/pathing.ts:10-28 | starts with `.`; a working directory named `bin` puts its parent second; the parent of a script inside a `bin` directory is always listed; nothing other than `.`, the working directory's bin parent and the script's bin parent appears |
| Pathing.ScriptBinParentListed | src/pathing.ts:19-28 | the parent of a script living in a `bin` directory is one of the standard configuration paths on every platform |
| Pathing.UserDirs | src/pathing.ts:40-48 | the platform's user directories, none of them empty |
| Pathing.SystemDirs | src/pathing.ts:57-64 | the platform's system directories, none of them empty |
| Pathing.GetConfigPaths | src/pathing.ts:6-73 | the list starts with `.` and holds no empty entry |
| Pathing.XdgConfigDirsDefault | src/pathing.ts:52-53 | without a usable `XDG_CONFIG_DIRS` the XDG system directories are `/etc/xdg` alone |
| Pathing.XdgConfigHomeNonEmpty | src/pathing.ts:35 | the XDG config home always survives the final filter |
| Pathing.UnixLayout | src/pathing.ts:30-72 | on a Unix-like platform only the leading entries and the home directory can be filtered out; every later group is kept whole, in push order |
| Pathing.UnixHomeThenXdgHome | src/pathing.ts:30-37 | the home directory (when non-empty) comes right after the leading entries and right before the XDG config home |
| Pathing.UnixTail | src/pathing.ts:50-70 | the list ends with the XDG system directories, the platform's system directories, then `/etc` and `/usr/local/etc` |
| Pathing.UnixXdgDefaults | src/pathing.ts:34-54 | without the XDG variables a Unix-like list holds `home/.config` and `/etc/xdg` |
| Pathing.WindowsEntries | src/pathing.ts:30-72 | on Windows an entry is a non-empty leading entry, the home directory, or a set `APPDATA`, `LOCALAPPDATA` or `ProgramData`, and nothing else |
| Pathing.WindowsDirMembers | src/pathing.ts:40-64 | on Windows the user and system groups hold exactly the set variables' values |
| Pathing.CwdBinParentSecond | src/pathing.ts:10-16 | a working directory named `bin` puts its parent right after `.` |
| Pathing.LeadingDistinct | src/pathing.ts:19-28 | with an absolute working directory the leading entries are pairwise distinct: the script's bin parent is skipped when already listed |
| Pathing.EtcHomeListedTwice | src/pathing.ts:24-70 | that skip is the only de-duplication: a home of `/etc` on a Unix-like platform lists `/etc` twice |
| Pathing.NonEmptySingle | src/pathing.ts:72 | a single entry survives the filter exactly when it is non-empty |
| Prefer.FilterBy | src/index.ts:47-54 | a truthy suggestion is the filter, else a truthy identifier, else the no-identifier error |
| Prefer.FirstClaiming | src/index.ts:56-67 | the first provider whose answers include `true`; none exactly when no provider claims |
| Prefer.GetEntity | src/index.ts:37-72 | no filter gives the no-identifier error; no claimant gives the not-found error; otherwise the module of the first claimant |
| Prefer.Format | src/index.ts:94-111 | the parsed context with the source and content as state; the `updated` event is emitted exactly for an update; a parse failure passes through |
| Prefer.React | src/index.ts:186-190 | an `updated` loader event becomes a configurator update, or an error event when parsing fails or there is no result; other loader events produce nothing |
| Prefer.Normalised | src/index.ts:140-164 | options given alone are used as is; a non-empty identifier argument overrides the options' identifier; an empty one leaves the options (or `{}`) as given; the given loaders and formatters are kept either way |
| Prefer.Normalise | src/index.ts:140-171 | fails with the no-identifier error exactly when the normalised identifier is falsy; otherwise fills in the default loaders and formatters |
| Prefer.Load | src/index.ts:135-197 | a missing identifier fails before anything else; the returned promise never emits events itself |
| Prefer.SuggestionOverridesIdentifier | src/index.ts:47-54 | with a suggestion the identifier plays no part in which provider is chosen |
| Prefer.FirstMatchWins | src/index.ts:56-67 | a claiming provider in front is chosen whatever follows; a non-claiming one can be dropped |
| Prefer.DefaultFormatterFor | src/index.ts:56-67 | with the default formatters, a bare suggestion chooses the first table row of that type, or fails naming the identifier when there is none |
| Prefer.ReactionsAppend | src/index.ts:186-190 | loader events are handled one by one, in order |
| Prefer.FormatterRequiredFirst | src/index.ts:174-179 | a loader that needs no formatter stops the pipeline with the formatter error, no events and no listener |
| Prefer.LoadSuccess | src/index.ts:173-194 | a success is the chosen loader's text parsed by the formatter chosen from its suggestion, with source and content as state, and a listener is registered |
| Prefer.LoadSucceeds | src/index.ts:173-194 | when the loader is found, needs a formatter, suggests one that is found, loads, and the text parses, the load resolves to the parsed tree with source and content as state, and the formatter listens |
| Prefer.NoLoaderFound | src/index.ts:173-174 | when no loader claims the identifier, the load fails naming it, with no events and no listener |
| Prefer.BaseLoaderNeverLoads | src/index.ts:173-194 | with the base loader every load fails, with the not-implemented error once a formatter was found |
| Prefer.FileLoaderSource | src/index.ts:192-193 | with the file loader, a loaded configuration's source is the file that discovery resolved, and its content that file's text |
| Prefer.ListenerOutlivesFailedLoad | src/index.ts:180-192 | the update listener is registered before the first load, so a failed load still rejects with the loader's error while later loader updates reach the chosen formatter |
| Prefer.FileChangeSeenByPrefer | src/index.ts:186-190 | a watched file's change becomes an update when the re-read parses, an error when it does not, and nothing when the re-read fails |

## Left out

- File-system access, `fs.watch`, `process.env`, `process.argv`, `process.cwd()` and `os` become
  parameters: a `FileSystem` value, an environment map, a platform and strings.
- Concurrency: `Promise.allSettled` is modelled as per-directory results combined in search-path order.
- The event emitter: events are returned as sequences in emission order, and the listener as the
  chosen formatter module.
- Callbacks and promises: every operation returns its outcome once, and `adaptToCallback` is not
  modelled.
- `resolveModule`'s `require` and the constructors it calls are not modelled; only the split of the
  module reference is. The concrete formatters' parsers (JSON, YAML, XML, INI, JSON5) are not part of
  this model, and `Prefer.Load` takes the parser as a parameter.
- `cloneDeep` is the identity on immutable values.
- `TypedConfig.getNumber` is not modelled, because it relies on floating-point `parseFloat`.
- `toConfigurator` and `buildConfigurator` are not modelled; they are wrappers around what is.
  `MemorySource`'s shallow copy is the identity on immutable values.
- Strings.ToLower: only ASCII letters change case, unlike JavaScript's full Unicode case mapping.
- Strings.ToUpper: likewise ASCII-only, so an `EnvSource` prefix such as `straße` is not upper-cased
  to `STRASSE` as JavaScript would.
- Errors.Message: every failed read is worded as Node's ENOENT message. A path that exists but cannot
  be read (a directory, a permission failure) rejects with Node's other texts (EISDIR, EACCES).
- Posix.Join: `path.join` and `path.resolve` do not normalise `.` and `..` segments or repeated
  slashes in this model.
- Configurator.Set: an array met as an intermediate on the path is replaced by a fresh mapping.
  The source keeps the array and writes a property on it.
- Configurator.Set: a context that is not a mapping fails with `NotAnObject`. For a string, number or
  boolean context the source also rejects, with that message, and so it does for a null context and
  a one-segment key. For a null context and a key of two or more segments the source reads
  `node[item]` first and rejects with Node's "Cannot read properties of null" text instead. For an
  array context the source writes the property onto the array, which the model does not.
- Configurator.Set: writing an undefined value removes the key, which reads the same as the source's
  property holding `undefined`.
- Configurator.NormaliseSetCall: a callback is indistinguishable from no argument. The source's
  error for a callback passed as the value after a key is not modelled.
- Builder.DeepMerge: when the override holds several forbidden keys, the model names one of them.
  The source names the first in enumeration order.
- Util.QueryNestedKey: inherited members (`toString`, `hasOwnProperty`, the methods of arrays,
  strings and numbers) read as undefined, because values carry no functions. JavaScript finds them on
  the prototype chain.
- Configurator.Get: for the same reason `get("toString")` fails with the missing-key error, where the
  source resolves a deep copy of the inherited function.
- Builder.TypedGet: inherited members read as undefined, as for `queryNestedKey`.
- Builder.Has: `has("toString")` is false in the model and true in the source, as the inherited
  member is defined there.
- FileLoader.ConstructFiles: a `files` key that is present but `undefined` is treated as absent.
- Pathing.GetConfigPaths: `pathing.get()` returns a copy of a list computed once, when the module
  loads. The model computes the list from its parameters.
- Util.Child: the `length` of a string and its indices count Unicode scalar values, whereas
  JavaScript counts UTF-16 code units. They differ outside the Basic Multilingual Plane: on `"😀"` the
  source reads `length` 2 and index `1` as a lone surrogate, the model reads 1 and undefined. Lone
  surrogates cannot be represented at all. `Strings.Split` with an empty separator differs the same way.
- Builder.Build: a file source is assumed to yield a mapping. The source returns whatever the
  formatter parsed, unchecked (src/builder.ts:117), and `deepMerge` then runs `Object.keys` on it
  (src/builder.ts:45): a parsed `null` throws a TypeError outside the source's `try`, so even an
  optional file fails the build with an error other than pollution; an array or string merges its
  index keys; a number or boolean merges nothing. The promise that only pollution can fail a build
  whose sources all load holds under that assumption only.
- Prefer.Normalise: the source writes the identifier and the default registries back into the
  caller's own options object (src/index.ts:163, 170-171), so an options object reused for a second
  `load` carries the first identifier and the default tables. The model returns a fresh `Settled`
  and leaves the caller's options as they were.
- Prefer.Normalise: a call `load(options, callback)` is caught by the `isFunction` branch
  (src/index.ts:145-149), which uses the options object itself as the identifier, although the
  comment at src/index.ts:155-156 lists that shape. `LoadCall` has no such shape.
- Builder.FileSourceLoad: the rewriting of an absolute identifier into its basename plus a single
  search path is not modelled. A file source is given by the outcome of its load.
- `Formatter.parse` errors and the orchestrator's `error` event are modelled as error values.
