# go-plugger in Dafny

A model of the plugin registry of go-plugger (`github.com/thediveo/go-plugger`).
Plugins register themselves into named groups. Each registration carries a
spec: an optional explicit group and name, and a list of symbols. A symbol is
a function, a pointer, another value, or a NamedSymbol that wraps a value
under an explicit name. Client code then queries a group:

- `Plugins` lists the group's plugins.
- `Func` finds the values exported under an exact name.
- `PluginsFunc` finds the same values together with the plugin that owns each.
- `FuncPrefix` finds the functions whose names start with a prefix.

The model has six modules:

- `Wrappers` holds `Option` and `Result`.
- `Paths` cuts slash-separated and dot-separated names into pieces and joins
  them back. The cutting follows Go's `strings.Split`, and `Base` gives the
  last slash-separated piece, as `filepath.Base` does for a name without a
  trailing slash.
- `Symbols` has the tagged `Symbol` variant. It derives the lookup name of each
  symbol:
  - a NamedSymbol uses its explicit name;
  - a function uses its runtime name with the package path stripped;
  - a pointer uses the name of the type it points to;
  - any other value is skipped.

  It also builds a plugin's symbol map. `SymbolTable` is the specification;
  `BuildSymbolMap` is the loop, proved equal to that specification.
- `Identity` derives a plugin's identity from the location of the code that
  registers it. The directory holding the file names the plugin, the
  directory above it names the group, and an explicit group and name take
  precedence.
- `Plugger` has the plugin records, the group views with their lookups, the
  registration function `Registered`, and the `Registry` class. The class's
  `Register` method mutates the group map and is proved against `Registered`.
- `PluggerScenarios` replays each scenario of the package's test suite on the
  model and proves its outcome.

A refusal is what Go reports by panicking. In the model it is a `Failure`
value naming its cause, and the registry is left unchanged. The caller lookup
(`runtime.Caller`) is not modelled; its two results, the file path and the
`ok` flag, are parameters of the model instead.

## Model

| member | source | states |
|---|---|---|
| Paths.AfterFirst | plugger_test.go:187-188 | The result is a suffix of the input. It is the whole input when the separator does not occur, and strictly shorter when it does. |
| Paths.AfterFirstCut | plugger_test.go:187-188 | Cutting `a + sep + b` at its first separator, where `a` has none, gives exactly `b`. This is the second half of `strings.SplitN(_, ".", 2)`. |
| Paths.Base | plugger_test.go:187 | The last piece of a slash-separated name never contains a slash. |
| Paths.BaseJoin | plugger_test.go:187 | The base of slash-free pieces joined with slashes is the last piece. |
| Paths.JoinSplit | plugger_test.go:54-83 | No piece of a split location contains the separator, and joining the pieces gives the location back. |
| Paths.SplitJoin | plugger_test.go:54-83 | Splitting undoes joining for pieces free of the separator. |
| Symbols.StripPackage | plugger_test.go:187-188 | A function's stripped name never contains a slash. |
| Symbols.StripQualified | plugger_test.go:184-190 | The runtime name `path/pkg.Ident` strips to `Ident` whenever the package name has no dot. The path itself may contain dots, as `github.com` does. |
| Symbols.SymbolName | plugger_test.go:99-108 | A function's lookup name contains no slash. A value that is neither a function, a pointer nor a NamedSymbol always gets the empty name, which keeps it out of the symbol map. |
| Symbols.SymbolValue | plugger_test.go:209-226 | The stored value is either the symbol itself or, for a NamedSymbol, the value it wraps. `NamedStoredUnwrapped` and `PointerStoredAsItself` say which of the two is stored. |
| Symbols.SymbolTable | plugger_test.go:139-160 | A built symbol map never has the empty name as a key. A refusal always names a non-empty symbol name. |
| Symbols.BuildSymbolMap | plugger_test.go:139-160 | The loop that fills the map gives the specification's result for every list, stopping at the first duplicate name. |
| Symbols.FailureSticks | plugger_test.go:139-160 | Once a prefix of the symbol list is refused, the whole list is refused for the same name. |
| Symbols.SymbolTableSucceeds | plugger_test.go:139-160 | The symbol map is built if and only if no two symbols resolve to the same non-empty name. When it is refused, two distinct symbols carry the reported name. |
| Symbols.SymbolTableKeys | plugger_test.go:99-137 | The keys of a built map are exactly the non-empty names of the declared symbols. |
| Symbols.SymbolTableValues | plugger_test.go:193-226 | Every named symbol is stored under its name, with its NamedSymbol wrapper removed. |
| Symbols.NamedStoredUnwrapped | plugger_test.go:209-226 | In a built map, a NamedSymbol with a non-empty name is stored under that name, and the stored value is the symbol it wraps, not the wrapper. |
| Symbols.PointerStoredAsItself | plugger_test.go:193-206 | In a built map, a pointer symbol is stored under its element type's name as the pointer itself. |
| Identity.NonEmpty | plugger_test.go:62-67 | The result has no empty piece and is no longer than the input. A piece occurs in it exactly when it is a non-empty piece of the input. A list without empty pieces is returned unchanged. So `/plug.go` has no usable directory. |
| Identity.NonEmptyAppend | plugger_test.go:62-67 | Dropping empty pieces from two lists joined together gives the two results joined together. So the kept pieces keep their order. |
| Identity.DirSegments | plugger_test.go:54-83 | The usable directory levels of a location are non-empty. There are fewer of them than slash-separated pieces: the file name never counts. `DirSegmentsJoin` gives their value. |
| Identity.DirSegmentsJoin | plugger_test.go:54-83 | For a location written as slash-free directories followed by a file name, the usable directory levels are exactly the non-empty directories, in order. |
| Identity.DirSegmentsUnderPrefix | plugger_test.go:77-92 | For `<prefix>/<g>/<n>/<file>` with non-empty `g` and `n`, the directory levels are those of the prefix followed by `g` and `n`. This holds for any prefix, including the empty first piece of an absolute path. |
| Identity.ResolveIdentity | plugger_test.go:44-92 | An explicit non-empty group and name are used as given. Otherwise: without caller data the result is `NoCallerInfo`; with caller data it succeeds exactly when the location has at least two directory levels, and only the empty fields are filled from the location. A resolved identity is never empty. |
| Identity.ResolveFromPath | plugger_test.go:54-92 | For a location made of directories and a file name, derivation succeeds if and only if at least two non-empty directories remain. The identity is then (group from the second to last, name from the last). |
| Identity.ResolveUnderPrefix | plugger_test.go:77-92 | Without an explicit identity, a plugin registered from `<prefix>/<g>/<n>/<file>` with non-empty `g` and `n` becomes plugin `n` of group `g`, whatever the prefix. |
| Identity.ExplicitIgnoresLocation | plugger_test.go:99-106 | With an explicit group and name, the caller data cannot change the outcome. |
| Plugger.PrefixFuncsMembers | plugger_test.go:162-191 | Prefix matching within one plugin yields exactly the unwrapped function values whose stripped name starts with the prefix. |
| Plugger.PrefixFuncsSound | plugger_test.go:180-190 | Every value prefix matching yields within one plugin is the unwrapped value of one of its matching declared symbols. |
| Plugger.PrefixFuncsComplete | plugger_test.go:180-190 | The unwrapped value of every matching declared symbol is among the plugin's prefix matches. |
| Plugger.PrefixFuncsAreFunctions | plugger_test.go:180-190 | Everything prefix matching yields is a function whose stripped name has the prefix. |
| Plugger.PluginGroup.FuncPrefix | plugger_test.go:180-190 | Everything prefix lookup returns is a function whose stripped runtime name starts with the prefix. `FuncPrefixMembers` shows it returns all of them. `FuncPrefixAppend` fixes the order across plugins, and `PrefixFuncsAppend` with `PrefixFuncsOne` fixes it within a plugin, so together they give its exact value and count. |
| Plugger.PrefixFuncs | plugger_test.go:180-190 | One plugin's prefix matches are never more than its declared symbols. `PrefixFuncsMembers` states which values they are, and `PrefixFuncsAppend` with `PrefixFuncsOne` gives their order and number. |
| Plugger.PrefixFuncsAppend | plugger_test.go:180-190 | The matches of two symbol lists declared one after the other are the first list's matches followed by the second's. |
| Plugger.PrefixFuncsOne | plugger_test.go:180-190 | A single declared symbol contributes its unwrapped value exactly once when it matches and nothing otherwise. With `PrefixFuncsAppend` this fixes each plugin's matches in declaration order, one per matching symbol, which is the count behind `HaveLen(2)`. |
| Plugger.FuncPrefixMembers | plugger_test.go:180-190 | `FuncPrefix` over a group yields exactly the values of the matching declared symbols of all its plugins. |
| Plugger.FuncPrefixAppend | plugger_test.go:162-183 | Appending a plugin to a group appends its own prefix matches after all earlier ones. |
| Plugger.PluginGroup.Func | plugger_test.go:121-137 | It yields no more values than the group has plugins. A value is in the result exactly when some plugin of the group stores it under the name. That each plugin adds at most one value, after the earlier ones, is `FuncAppend`. |
| Plugger.PluginGroup.PluginsFunc | plugger_test.go:203-204 | It yields no more records than the group has plugins. `PluginsFuncAppend` shows each plugin adds at most one, and `PluginsFuncRecords` says what the records hold. |
| Plugger.PluginsFuncRecords | plugger_test.go:193-226 | Each record pairs a plugin of the group with the value that plugin stores under the name. Every plugin that has the name contributes its record. |
| Plugger.FuncIsPluginsFuncValues | plugger_test.go:203-206 | `Func` is exactly the value part of `PluginsFunc`, position by position. |
| Plugger.PluginsFuncAppend | plugger_test.go:193-206 | A newly appended plugin's record comes after all earlier records. |
| Plugger.FuncAppend | plugger_test.go:121-137 | A newly appended plugin's value comes after all earlier values: lookup order is registration order. |
| Plugger.GroupOf | plugger_test.go:90-92 | In a valid registry, a group's view is non-empty when the group exists. Every plugin in it is well formed and filed under that group, and no plugin name occurs twice. |
| Plugger.UnknownGroupIsEmpty | plugger_test.go:90-92 | Every query on a group nobody registered into yields nothing. |
| Plugger.PluginGroup.Plugins | plugger_test.go:90-92 | A plain accessor without a contract of its own. What its list holds is stated by `RegisterAppends` after a registration, by `GroupOf` in a valid registry and by `UnknownGroupIsEmpty` for an unknown group. |
| Plugger.Registered | plugger_test.go:84-92 | A successful registration never removes anything. Every existing group stays, and its earlier plugins remain a prefix of its new list. Which registrations succeed is `RegisterSucceeds`; what is appended is `RegisterAppends`. |
| Plugger.FindPlugin | plugger_test.go:84-89 | The scan reports a plugin name as taken if and only if some plugin of the group carries it. |
| Plugger.RegisterSucceeds | plugger_test.go:44-160 | Each refusal is reported with its cause: identity, then duplicate symbol, then duplicate plugin. Registration succeeds exactly when none of them applies. |
| Plugger.RegisterAppends | plugger_test.go:77-92 | A successful registration appends one plugin, with the resolved identity and the declared symbols, to its group and creates the group if needed. Every other group is unchanged. |
| Plugger.RegisterPreservesValid | plugger_test.go:84-92 | Registration keeps the registry invariant: every plugin is well formed and filed under its group, and no group holds a plugin name twice. |
| Plugger.LookupFindsDeclared | plugger_test.go:107-118 | In a valid registry, a plugin stores a name exactly when it declared a symbol resolving to that non-empty name. Looking up that name finds the symbol's value with its plugin. |
| Plugger.Registry.constructor | plugger_test.go:36-37 | A fresh registry is valid and has no groups. |
| Plugger.Registry.New | plugger_test.go:90-92 | The view of a group nobody registered into is empty. In a valid registry, the view of a group that was registered into is non-empty, and no plugin name occurs twice in a view. |
| Plugger.Registry.Register | plugger_test.go:44-92 | On success the group map becomes the registered state. On any refusal the registry is left exactly as it was and the cause is returned. The invariant is kept either way. |
| PluggerScenarios.PluggerFunctionName | plugger_test.go:184-190 | A function of package plugger is looked up under its bare identifier. |
| PluggerScenarios.NoCallerData | plugger_test.go:44-52 | Without caller data, a spec with an empty identity is refused with `NoCallerInfo`, whatever the location. |
| PluggerScenarios.ArcaneCallerData | plugger_test.go:54-75 | `plug.go`, `/plug.go` and `foo/plug.go` are refused as locations with too few directory levels. |
| PluggerScenarios.CorrectCallerData | plugger_test.go:77-92 | `plugins/foo/plug.go` registers plugin `foo` in group `plugins`. The same registration again is refused as a duplicate plugin, and the group keeps its one plugin. |
| PluggerScenarios.RegistryClient | plugger_test.go:77-93 | The same scenario through the `Registry` object: the first `Register` succeeds, the second is refused, and the view shows the single plugin `foo`. |
| PluggerScenarios.NonFunctionSymbolIgnored | plugger_test.go:99-108 | A plain value as a symbol does not stop registration, and the plugin's symbol map is empty. |
| PluggerScenarios.UnnamedSymbolIgnored | plugger_test.go:110-118 | A NamedSymbol with an empty name registers, but no name finds it. |
| PluggerScenarios.NamedSymbolsAcrossPlugins | plugger_test.go:121-137 | Two plugins each exporting `Foo` both register. `Func("Foo")` yields both values, in registration order. |
| PluggerScenarios.DuplicateSymbolsRefused | plugger_test.go:139-160 | Within one spec, a name given twice is refused, and so is one function listed twice. |
| PluggerScenarios.PrefixedRegistrations | plugger_test.go:162-181 | The plugins exporting `PrefixFoo`, `PrefixBar` and `Foo` all register, one after another. |
| PluggerScenarios.PrefixedFunctions | plugger_test.go:180-190 | `FuncPrefix("Prefix")` over those three plugins yields exactly the `PrefixFoo` and `PrefixBar` functions, in that order. |
| PluggerScenarios.PointerSymbol | plugger_test.go:193-206 | A bare pointer to a `Loo` registers under the name `Loo`. `PluginsFunc("Loo")` yields it once, with its plugin. |
| PluggerScenarios.NamedInterfaceSymbol | plugger_test.go:209-226 | An interface value named `Ioo` registers under that name. `PluginsFunc("Ioo")` yields it once, with its plugin. |

## Left out

- The Go implementation file of the registry (plugger.go) is not part of this model. The rules come from the test suite, whose scenarios are each proved above. The tests do not settle three choices, which the model makes as follows:
  - A registration is checked in the order identity, then duplicate symbol, then duplicate plugin. A spec failing several checks reports the first.
  - `FuncPrefix` scans each plugin's declared symbols and matches functions by their stripped runtime name.
  - A spec giving only one of group and name still needs a location with two directory levels.
- Caller lookup through `runtime.Caller` is not modelled. Its results, the file path and the `ok` flag, are parameters instead.
- Reflection is not modelled (plugger_test.go:187-188). A function is represented by its runtime-qualified name, and a pointer by the name of the type it points to.
- Calling a registered value is out of scope, because it is program behaviour outside the registry. This covers the interface assertion and the call to `Goo` (plugger_test.go:205-206, 225-226).
- Locking and concurrent registration are not modelled; each call runs whole.
- Ginkgo's test harness is left out, and so is the saving and restoring of the global group map (plugger_test.go:29-42). The `Registry` constructor stands for the empty map each test starts from.
- The test at plugger_test.go:95-97 has an empty body. Its intent, a duplicate plugin name being refused, is covered by `CorrectCallerData` and `RegisterSucceeds`.
- The tests of other packages that only use the registry are left out. One of them expects the name `zoo` for the `zooplug` plugin (internal/staticplugintesting/package_test.go:55).
- A panic becomes a returned `Failure`. Go's recovery from the panic is not modelled.
- Plugger.Registry.New: it returns a snapshot of the group. In Go it is a pointer to the live group, which also sees later registrations; that aliasing is not modelled.
- Paths.Base: it gives everything after the last slash. It does not reproduce what `filepath.Base` does for an empty name or a trailing slash, nor other separators (Windows).
- Symbols.StripPackage: a name without a dot keeps its whole last piece. `strings.SplitN(_, ".", 2)[1]` in the test would panic there, but Go's runtime names always contain a dot.
- Symbols.SymbolValue: only one level of NamedSymbol is unwrapped. A NamedSymbol inside another one stays wrapped.
- Plugger.PluginGroup.FuncPrefix: it matches each declared function on its stripped runtime name. That is the name the test compares (plugger_test.go:187-190), not an explicit NamedSymbol name.
- Identity.ResolveIdentity: when the spec names only one of group and name, the location still has to provide two directory levels, and it fills the empty field. The tests never exercise that case.
- Result ordering is only what appending in registration order gives. No other ordering promise is modelled.
