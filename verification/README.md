# Bundle registry model

A Dafny model of `BundleManager`, the bundle registry of the Aptana Studio scripting plug-in.
The registry does four things:

- It keeps two indices of loaded bundles. One maps a bundle directory to every bundle added there. The other maps a display name to a `BundleEntry` that merges same-named bundles.
- It answers queries over them: lookups, sorted names, and the scope queries for commands, menus and snippets.
- It keeps a list of element-change listeners and dispatches added, deleted and modified events to them.
- It discovers bundle directories and bundle scripts on disk and hands them to the scripting engine, each with its load path.

Modules:

- `Wrappers`: `Option` and `Result`. A `Result` error is a `NullPointerException` the source would throw.
- `Ordering`: the string order of `String.compareTo` and the sorting done by `Arrays.sort`.
- `Elements`: elements, bundles and `BundleEntry` as values.
- `Files`: an abstract filesystem. It maps a path to a node that is a directory, a regular file or something else, is readable or not, and lists its children. It also has path arithmetic: child, name, parent and lower-casing.
- `Discovery`: `isValidBundleDirectory`, `getBundleDirectories`, `getScriptsFromDirectory`, `getBundleScripts`, `getBundleLoadPaths` and the bundle directory `loadScript(File)` derives.
- `Scope`: `getBundleScopeFromPath` and the root-override rule of `getInstance`.
- `Registry`: the two indices as maps, `addBundle` on them, the lookups, and the specification of the scope queries.
- `Notify`: the listener list and the callbacks each fire method makes.
- `Manager`: the class `BundleManager`, with the indices, listener list and roots as fields.
  - The scripting engine is a foreign call. The class records each call in `effects`: `RunScript(path, loadPaths)`, and `ClearMetadata(bundle)` from `unloadScript`.
  - The listeners' callbacks are recorded in `deliveries`.
  - The filesystem and `ScriptingEngine.getBuiltinsLoadPath()` are constructor parameters.

Java `null` for the lazily created maps and lists is modelled as the empty map or sequence. This is observably the same everywhere except in `unloadScript`. The class's methods `LoadScript`, `UnloadScript` and `GetBundleScripts` follow the corrected behaviour of the three rows under "## Findings"; the as-written behaviour is modelled beside them (see "## Left out").
`matches(scopes)` and `IModelFilter.include` are function-valued parameters.
Script paths are absolute strings joined with `/`.

## Model

| member | source | states |
|---|---|---|
| Ordering.LexLessTransitive | plugins/com.aptana.scripting/src/com/aptana/scripting/model/BundleManager.java:683-689 | the name order used to sort is transitive |
| Ordering.LexLessTotal | plugins/com.aptana.scripting/src/com/aptana/scripting/model/BundleManager.java:683-689 | two different names are always ordered one way or the other |
| Ordering.LexLessAsymmetric | plugins/com.aptana.scripting/src/com/aptana/scripting/model/BundleManager.java:683-689 | no two names sort before each other |
| Ordering.SortedSet | plugins/com.aptana.scripting/src/com/aptana/scripting/model/BundleManager.java:411-415 | the sorted key array is strictly increasing, holds exactly the keys and has one slot per key |
| Ordering.StrictlySortedUnique | plugins/com.aptana.scripting/src/com/aptana/scripting/model/BundleManager.java:411-415 | a set of names has only one strictly sorted arrangement, so the sorted key array is determined by the keys |
| Ordering.InsertSorted | plugins/com.aptana.scripting/src/com/aptana/scripting/model/BundleManager.java:683-689 | inserting a name into a sorted list keeps it sorted |
| Ordering.InsertPermutes | plugins/com.aptana.scripting/src/com/aptana/scripting/model/BundleManager.java:683-689 | inserting adds exactly the one name |
| Ordering.SortNamesSorts | plugins/com.aptana.scripting/src/com/aptana/scripting/model/BundleManager.java:683-689 | sorting script names yields a sorted permutation of them |
| Elements.EntryAugments | plugins/com.aptana.scripting/src/com/aptana/scripting/model/BundleManager.java:158-171 | after `BundleEntry.addBundle`, the entry's elements of each kind are the old ones followed by the new bundle's |
| Files.ChildPathsElements | plugins/com.aptana.scripting/src/com/aptana/scripting/model/BundleManager.java:293-299 | a listing yields one child path per name, in listing order |
| Files.LastSeparator | plugins/com.aptana.scripting/src/com/aptana/scripting/model/BundleManager.java:1005 | locates the separator that `getParentFile` splits at: nothing after it is a separator |
| Files.Parent | plugins/com.aptana.scripting/src/com/aptana/scripting/model/BundleManager.java:899-903 | `getParentFile` yields a strictly shorter path, or none; what it yields for a child path is stated by `Files.ChildNameAndParent` |
| Files.ChildNameAndParent | plugins/com.aptana.scripting/src/com/aptana/scripting/model/BundleManager.java:899-903 | a child path's name is the child's name and its parent is the directory |
| Files.Lower | plugins/com.aptana.scripting/src/com/aptana/scripting/model/BundleManager.java:679 | lower-casing keeps length and maps each character |
| Discovery.IsValidBundleDirectory | plugins/com.aptana.scripting/src/com/aptana/scripting/model/BundleManager.java:785-822 | true exactly when the path is an existing, readable directory |
| Discovery.VisibleSubdirectoriesContents | plugins/com.aptana.scripting/src/com/aptana/scripting/model/BundleManager.java:293-299 | the filter keeps exactly the children that are directories and whose name does not start with `.` |
| Discovery.BundleDirectoriesContents | plugins/com.aptana.scripting/src/com/aptana/scripting/model/BundleManager.java:287-303 | nothing for a null, missing, non-directory or unreadable root; otherwise a child path is listed exactly when the child is a visible directory |
| Discovery.ScriptNamesContents | plugins/com.aptana.scripting/src/com/aptana/scripting/model/BundleManager.java:675-681 | the filter keeps exactly the regular files whose lower-cased name ends in `.rb` |
| Discovery.ScriptsFromDirectoryContents | plugins/com.aptana.scripting/src/com/aptana/scripting/model/BundleManager.java:669-693 | for a readable directory, the scripts are the child paths of a name-sorted list holding exactly its script files |
| Discovery.ScriptsFromDirectoryAsWritten | plugins/com.aptana.scripting/src/com/aptana/scripting/model/BundleManager.java:673-689 | fails exactly on a readable, existing non-directory; any other result equals the corrected listing |
| Discovery.CommandsFileCrashesDiscovery | plugins/com.aptana.scripting/src/com/aptana/scripting/model/BundleManager.java:673-689 | a readable regular file named `commands` makes the listing fail, where the corrected listing is empty |
| Discovery.BundleScriptsOrder | plugins/com.aptana.scripting/src/com/aptana/scripting/model/BundleManager.java:462-490 | nothing for an invalid directory; otherwise `bundle.rb` first when it exists, then the `commands` scripts, then the `snippets` scripts |
| Discovery.LoadPaths | plugins/com.aptana.scripting/src/com/aptana/scripting/model/BundleManager.java:371-379 | exactly two load paths: the built-in path, then the bundle's `lib` directory |
| Discovery.ScriptIsChild | plugins/com.aptana.scripting/src/com/aptana/scripting/model/BundleManager.java:675-681 | every script listed from a directory is a direct child of it |
| Discovery.BundleDirectoryOfDiscoveredScript | plugins/com.aptana.scripting/src/com/aptana/scripting/model/BundleManager.java:891-904 | loading a discovered script on its own gives it the bundle directory it was discovered in |
| Discovery.SuffixTestMisplacesCommandScript | plugins/com.aptana.scripting/src/com/aptana/scripting/model/BundleManager.java:897-903 | `/b/commands/mybundle.rb` gets `/b/commands` as its bundle as written, `/b` as intended |
| Scope.ScopeFromPath | plugins/com.aptana.scripting/src/com/aptana/scripting/model/BundleManager.java:438-455 | application when the application root is a prefix (even if the user root also is); user when only the user root is; project otherwise, null included |
| Scope.EffectiveRoot | plugins/com.aptana.scripting/src/com/aptana/scripting/model/BundleManager.java:86-95 | a non-null, non-empty argument replaces the root; otherwise it stays |
| Registry.AddToPathIndex | plugins/com.aptana.scripting/src/com/aptana/scripting/model/BundleManager.java:126-148 | the path's list grows by the bundle at its end, created if absent; other paths unchanged |
| Registry.AddToNameIndex | plugins/com.aptana.scripting/src/com/aptana/scripting/model/BundleManager.java:151-171 | the name's entry gets the bundle appended, created if absent; other names unchanged; entries stay filed under their own name |
| Registry.CurrentBundle | plugins/com.aptana.scripting/src/com/aptana/scripting/model/BundleManager.java:329-363 | none for a null path, an unknown path or an empty list; otherwise the last bundle added there |
| Registry.CurrentAfterAdd | plugins/com.aptana.scripting/src/com/aptana/scripting/model/BundleManager.java:122-148 | after adding a bundle, looking up its path gives it, and every other path answers as before |
| Registry.EntryByName | plugins/com.aptana.scripting/src/com/aptana/scripting/model/BundleManager.java:311-321 | the entry filed under the name, and none exactly when there is no such entry |
| Registry.EntryAfterAdd | plugins/com.aptana.scripting/src/com/aptana/scripting/model/BundleManager.java:150-171 | after `addBundle` the entry for the bundle's display name exists, is named after it and ends in the bundle; other names' entries are unchanged |
| Registry.BundleElements | plugins/com.aptana.scripting/src/com/aptana/scripting/model/BundleManager.java:266-279 | the merged elements of one kind of the named entry, and empty for an unknown name; the menus and snippets getters at 387-400 and 498-511 are the same |
| Registry.ElementsAfterAdd | plugins/com.aptana.scripting/src/com/aptana/scripting/model/BundleManager.java:158-171 | adding a bundle appends its elements to its name's elements and leaves every other name's elements alone |
| Registry.SelectedOfIsSubsequence | plugins/com.aptana.scripting/src/com/aptana/scripting/model/BundleManager.java:586-595 | the selection is a subsequence of its input and holds exactly the elements that match and pass the filter |
| Registry.ElementsFromScopesCharacterized | plugins/com.aptana.scripting/src/com/aptana/scripting/model/BundleManager.java:580-599 | empty for null or empty scopes; otherwise exactly the matching, filter-passing elements of the `getCommands` concatenation, in its order |
| Notify.RemoveFirstSplits | plugins/com.aptana.scripting/src/com/aptana/scripting/model/BundleManager.java:975-981 | removal keeps the listeners before the first registration of the removed one, then all those after it |
| Notify.RemoveFirstAbsent | plugins/com.aptana.scripting/src/com/aptana/scripting/model/BundleManager.java:975-981 | removing an unregistered listener changes nothing |
| Notify.RemoveFirstRemovesOne | plugins/com.aptana.scripting/src/com/aptana/scripting/model/BundleManager.java:975-981 | removal drops exactly one registration of a registered listener and changes nothing otherwise |
| Notify.AddedDeliveries | plugins/com.aptana.scripting/src/com/aptana/scripting/model/BundleManager.java:195-204 | one `elementAdded` per registration, in list order |
| Notify.DeletedDeliveries | plugins/com.aptana.scripting/src/com/aptana/scripting/model/BundleManager.java:211-220 | one `elementDeleted` per registration, in list order |
| Notify.DeleteThenAddPairs | plugins/com.aptana.scripting/src/com/aptana/scripting/model/BundleManager.java:238-245 | the i-th listener gets `elementDeleted` then `elementAdded`, before the next listener gets anything |
| Notify.ModifiedDeliveries | plugins/com.aptana.scripting/src/com/aptana/scripting/model/BundleManager.java:227-248 | no calls for a bundle element without an owning bundle; otherwise two per registration |
| Notify.AddedReachesEachRegistration | plugins/com.aptana.scripting/src/com/aptana/scripting/model/BundleManager.java:195-204 | a listener registered k times gets k added callbacks, and only added callbacks are made |
| Manager.ScriptRunsContents | plugins/com.aptana.scripting/src/com/aptana/scripting/model/BundleManager.java:918-933 | the engine runs exactly the readable scripts, each with the given load paths; an unreadable one never reaches it |
| Manager.RunsCarryTheirBundleLoadPaths | plugins/com.aptana.scripting/src/com/aptana/scripting/model/BundleManager.java:842-855 | every script run while loading bundles was discovered in one of them and carries that bundle's load paths |
| Manager.UnloadTargets | plugins/com.aptana.scripting/src/com/aptana/scripting/model/BundleManager.java:1003-1013 | a descriptor clears every bundle registered at its directory; any other script clears nothing |
| Manager.UnloadTargetsAsWritten | plugins/com.aptana.scripting/src/com/aptana/scripting/model/BundleManager.java:1003-1013 | fails exactly when a path ending in `bundle.rb` is unloaded before any bundle was added |
| Manager.UnloadBeforeAnyBundleFails | plugins/com.aptana.scripting/src/com/aptana/scripting/model/BundleManager.java:1007 | unloading `/b/bundle.rb` before any bundle exists fails as written and clears nothing as intended |
| Manager.UnloadAgreesOnceIndexed | plugins/com.aptana.scripting/src/com/aptana/scripting/model/BundleManager.java:1003-1013 | once the path index exists, the source and the corrected unload agree wherever the two descriptor tests agree |
| Manager.UnloadTargetsAtDirectory | plugins/com.aptana.scripting/src/com/aptana/scripting/model/BundleManager.java:1005-1012 | every bundle cleared by unloading a descriptor was registered at the descriptor's own directory (the path index files each bundle under its own path, as `addBundle` does at 126-141) |
| Manager.ClearAll | plugins/com.aptana.scripting/src/com/aptana/scripting/model/BundleManager.java:1009-1012 | one metadata clearing per bundle, in list order |
| Manager.SelectFrom | plugins/com.aptana.scripting/src/com/aptana/scripting/model/BundleManager.java:588-594 | the inner loop of a scope query yields the selection of the entry's elements |
| Manager.LeastName | plugins/com.aptana.scripting/src/com/aptana/scripting/model/BundleManager.java:413-415 | finds the name that sorts before every other one |
| Manager.BundleManager.constructor | plugins/com.aptana.scripting/src/com/aptana/scripting/model/BundleManager.java:60-95 | starts with empty indices, no listeners and no recorded calls, and each root overridden by a non-empty argument |
| Manager.BundleManager.ConfigureRoots | plugins/com.aptana.scripting/src/com/aptana/scripting/model/BundleManager.java:86-95 | a later `getInstance` replaces a root only with a non-empty argument |
| Manager.BundleManager.AddBundle | plugins/com.aptana.scripting/src/com/aptana/scripting/model/BundleManager.java:122-173 | null changes nothing; otherwise both indices are updated as `AddToPathIndex` and `AddToNameIndex` say, and their invariants are kept |
| Manager.BundleManager.GetBundleNames | plugins/com.aptana.scripting/src/com/aptana/scripting/model/BundleManager.java:407-419 | exactly the entry names, strictly sorted, each once; empty when there are no entries |
| Manager.BundleManager.ConcatenateEntries | plugins/com.aptana.scripting/src/com/aptana/scripting/model/BundleManager.java:528-531 | the loop of `getCommands` concatenates the named entries' elements in order |
| Manager.BundleManager.GetCommands | plugins/com.aptana.scripting/src/com/aptana/scripting/model/BundleManager.java:518-537 | the commands of every entry, entries in sorted name order |
| Manager.BundleManager.SelectFromEntries | plugins/com.aptana.scripting/src/com/aptana/scripting/model/BundleManager.java:586-595 | the outer loop of a scope query yields the selection of the concatenated entries |
| Manager.BundleManager.GetElementsFromScopes | plugins/com.aptana.scripting/src/com/aptana/scripting/model/BundleManager.java:580-599 | the scope query result is the specified `ElementsFromScopes`; the same code serves 642-661 and 736-755 |
| Manager.BundleManager.AddElementChangeListener | plugins/com.aptana.scripting/src/com/aptana/scripting/model/BundleManager.java:180-188 | the listener is appended, duplicates allowed |
| Manager.BundleManager.RemoveElementChangeListener | plugins/com.aptana.scripting/src/com/aptana/scripting/model/BundleManager.java:975-981 | the first registration of the listener is removed, if any |
| Manager.BundleManager.FireElementAddedEvent | plugins/com.aptana.scripting/src/com/aptana/scripting/model/BundleManager.java:195-204 | the callbacks made are exactly `AddedDeliveries` of the current list |
| Manager.BundleManager.FireElementDeletedEvent | plugins/com.aptana.scripting/src/com/aptana/scripting/model/BundleManager.java:211-220 | the callbacks made are exactly `DeletedDeliveries` of the current list |
| Manager.BundleManager.FireElementModifiedEvent | plugins/com.aptana.scripting/src/com/aptana/scripting/model/BundleManager.java:227-248 | the callbacks made are exactly `ModifiedDeliveries` of the current list |
| Manager.BundleManager.GetBundleScripts | plugins/com.aptana.scripting/src/com/aptana/scripting/model/BundleManager.java:462-490 | the list built is the discovery order of `BundleScripts` |
| Manager.BundleManager.LoadScriptWithPaths | plugins/com.aptana.scripting/src/com/aptana/scripting/model/BundleManager.java:918-933 | a readable script is run once with the given load paths; an unreadable one is skipped |
| Manager.BundleManager.LoadScript | plugins/com.aptana.scripting/src/com/aptana/scripting/model/BundleManager.java:891-911 | fails exactly when the script has no bundle directory; otherwise the script is run with that directory's load paths |
| Manager.BundleManager.LoadBundle | plugins/com.aptana.scripting/src/com/aptana/scripting/model/BundleManager.java:842-855 | every discovered script, in discovery order, each with the bundle's one load-path list |
| Manager.BundleManager.LoadBundlesIn | plugins/com.aptana.scripting/src/com/aptana/scripting/model/BundleManager.java:831-834 | `loadBundle` on each directory in turn |
| Manager.BundleManager.LoadBundlesFrom | plugins/com.aptana.scripting/src/com/aptana/scripting/model/BundleManager.java:829-834 | `loadBundle` on every bundle directory under the root, in listing order |
| Manager.BundleManager.LoadApplicationBundles | plugins/com.aptana.scripting/src/com/aptana/scripting/model/BundleManager.java:827-835 | every bundle under the application root is loaded |
| Manager.BundleManager.LoadUserBundles | plugins/com.aptana.scripting/src/com/aptana/scripting/model/BundleManager.java:938-946 | every bundle under the user root is loaded |
| Manager.BundleManager.LoadProjectBundles | plugins/com.aptana.scripting/src/com/aptana/scripting/model/BundleManager.java:873-884 | every bundle under each project root is loaded, project by project |
| Manager.BundleManager.LoadBundles | plugins/com.aptana.scripting/src/com/aptana/scripting/model/BundleManager.java:860-868 | application bundles, then user bundles, then project bundles |
| Manager.BundleManager.UnloadScript | plugins/com.aptana.scripting/src/com/aptana/scripting/model/BundleManager.java:996-1021 | the metadata of exactly the `UnloadTargets` bundles is cleared, in order |
| Manager.BundleManager.ReloadScript | plugins/com.aptana.scripting/src/com/aptana/scripting/model/BundleManager.java:964-968 | the unload clearings come first, then the load of the script |

## Left out

- Singleton construction and the default roots. These come from `FileLocator`, `Platform.getOS` and the `user.home` property. The constructor takes the defaults as parameters and applies only the rule that a non-empty argument overrides a root.
- `getApplicationBundlesPath` and `getUserBundlesPath` are plain reads of the class's root fields.
- The single-scope and filter-less overloads of the scope queries (545-571, 607-633, 701-727). They only wrap their argument and forward to the modelled query.
- `getBundleScopeFromPath(File)` takes `getAbsolutePath` of a `File`, and `getBundleFromPath(File)` uses the `File` itself as the key. The model works on path strings and does no path normalisation: `File` equality is string equality.
- Scripting engine: `ScriptingEngine.runScript` is recorded as a `RunScript` effect. What the script does when run is not modelled. In particular, bundles and elements registering themselves with the manager is not modelled; `addBundle` is a separate operation.
- `BundleElement.clearMetadata` is recorded as a `ClearMetadata` effect. The bundles held in the indices are not changed by it.
- The project roots from `ResourcesPlugin.getWorkspace()` are a parameter of `LoadProjectBundles`.
- `logError` only prints a message, so neither it nor the messages built for it are modelled.
- `reset` has an empty body, and the non-descriptor branch of `unloadScript` is empty. Both are modelled as doing nothing.
- Ordering.LexLess: compares `char` values. Java compares UTF-16 code units, so the two orders differ only for names containing characters outside the Basic Multilingual Plane.
- Files.Lower: lower-cases ASCII letters only. `toLowerCase` also maps non-ASCII letters and depends on the default locale.
- I/O failures of `listFiles` on a readable directory are not modelled, and neither are concurrency and `File` objects of relative paths.
- Discovery.BundleDirectoryOfDiscoveredScript: excludes a `commands` or `snippets` script that is itself named `bundle.rb`, because the intended descriptor test takes it for a descriptor too.
- Manager.BundleManager.LoadScript: implements the intended descriptor test of the first "## Findings" row (a file named exactly `bundle.rb`). The source's suffix test is `Discovery.BundleDirectoryOfScriptAsWritten`, and `Discovery.SuffixTestMisplacesCommandScript` shows the two differ: as written, `/b/commands/mybundle.rb` runs with `/b/commands/lib` on its load path.
- Manager.BundleManager.UnloadScript: implements the intended unload of the first two "## Findings" rows: the exact-name descriptor test, and no failure before the first `addBundle`. The source's behaviour, including its `NullPointerException`, is `Manager.UnloadTargetsAsWritten`.
- Manager.BundleManager.GetBundleScripts: uses the intended listing of the third "## Findings" row, so a readable regular file named `commands` or `snippets` contributes nothing. In the source the listing throws; that behaviour is `Discovery.ScriptsFromDirectoryAsWritten`.
- Manager.BundleManager.LoadBundle: uses the corrected listing of `Manager.BundleManager.GetBundleScripts`. Where a bundle holds a readable regular file named `commands` or `snippets`, the source throws inside `getScriptsFromDirectory` before running any script; the model runs the descriptor and the other scripts.
- Manager.BundleManager.LoadBundlesIn: inherits that corrected listing. Where one bundle's listing throws in the source, the rest of the loop is abandoned; the model goes on with the remaining directories.
- Manager.BundleManager.LoadBundlesFrom: inherits the corrected listing, so it goes on past a bundle whose listing throws in the source.
- Manager.BundleManager.LoadApplicationBundles: inherits the corrected listing; the source's loop at 831-834 stops at a bundle whose listing throws.
- Manager.BundleManager.LoadUserBundles: inherits the corrected listing; the source's loop at 942-945 stops at a bundle whose listing throws.
- Manager.BundleManager.LoadProjectBundles: inherits the corrected listing; the source's loops at 875-883 stop at a bundle whose listing throws.
- Manager.BundleManager.LoadBundles: inherits the corrected listing. In the source the whole rebuild stops at the first such bundle, skipping the later user and project phases; the model runs all three phases to the end.
- Manager.BundleManager.ReloadScript: inherits the corrected unload of `Manager.BundleManager.UnloadScript` and the corrected descriptor test of `Manager.BundleManager.LoadScript`. Before any `addBundle`, the source throws at 1007 on a path ending in `bundle.rb` and never loads the script; the model clears nothing and loads it.
- `BundleEntry`'s code is outside the modelled core; its getters are assumed to concatenate the elements of its bundles in the order they were added (`Elements.Flatten`). `Elements.EntryAugments` and `Registry.ElementsAfterAdd` rest on that assumption.
- A `Bundle` is a value fixed when `AddBundle` is called. In the source both indices hold a reference to the same `BundleElement`. Elements that a script adds to the bundle later therefore appear in `getBundleCommands`, `getCommands` and the scope queries, and the model does not capture this sharing.
- Listener callbacks and `ScriptingEngine.runScript` are assumed to return normally. In the source an exception from one of them ends the fire loop (199-202, 240-245) or the rest of `loadBundle` and `loadBundles` (850-853, 865-867). The `deliveries` and `effects` traces always run to the end.

## Findings

| source | as written | input that shows it | evidently intended | confidence | as-written member | corrected member |
|---|---|---|---|---|---|---|
| plugins/com.aptana.scripting/src/com/aptana/scripting/model/BundleManager.java:897, 1003 | a script counts as the bundle descriptor when its path merely ends in `bundle.rb` | the command script `/b/commands/mybundle.rb` is loaded with `/b/commands` as its bundle directory, so its load path names `/b/commands/lib` | a descriptor is a file named exactly `bundle.rb`; other scripts take the grandparent directory | not executed | Discovery.SuffixTestMisplacesCommandScript | Discovery.BundleDirectoryOfDiscoveredScript |
| plugins/com.aptana.scripting/src/com/aptana/scripting/model/BundleManager.java:1007 | `unloadScript` dereferences the path index, which is only created by the first `addBundle` | unloading `/b/bundle.rb` before any bundle was added throws `NullPointerException` | with no bundles there is nothing to clear | not executed | Manager.UnloadBeforeAnyBundleFails | Manager.UnloadTargets |
| plugins/com.aptana.scripting/src/com/aptana/scripting/model/BundleManager.java:673-689 | `getScriptsFromDirectory` checks only existence and readability before listing, then sorts the listing | a bundle holding a readable regular file `commands`: `listFiles` returns null and `Arrays.sort` throws | a path that is not a directory holds no scripts | not executed | Discovery.CommandsFileCrashesDiscovery | Discovery.ScriptsFromDirectoryContents |
