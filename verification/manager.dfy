/** The bundle registry object: its two indices, its listener list, its
    configured roots, and the loader that drives the scripting engine. The
    engine and the listeners are foreign code; what the registry asks of
    them is recorded in `effects` and `deliveries`. */
module Manager {

  import opened Wrappers
  import opened Ordering
  import opened Elements
  import opened Files
  import opened Discovery
  import opened Scope
  import opened Registry
  import opened Notify

  /** What the loader asks of code outside the registry: the scripting
      engine running a script, or a bundle clearing its metadata. */
  datatype Effect =
    | RunScript(path: string, loadPaths: seq<string>)
    | ClearMetadata(bundle: Bundle)

  /** `loadScript(script, loadPaths)` for each script in turn: the readable
      ones are run, in order, all with the same load paths; the others are
      skipped. */
  function ScriptRuns(fs: FileSystem, scripts: seq<string>, loadPaths: seq<string>): seq<Effect>
  {
    if scripts == [] then []
    else (if CanRead(fs, scripts[0]) then [RunScript(scripts[0], loadPaths)] else []) + ScriptRuns(fs, scripts[1..], loadPaths)
  }

  /** What the engine is asked to run for a list of scripts: exactly the
      readable ones, each with the given load paths. */
  lemma {:induction false} ScriptRunsContents(fs: FileSystem, scripts: seq<string>, loadPaths: seq<string>)
    ensures forall x :: x in ScriptRuns(fs, scripts, loadPaths) ==>
      x.RunScript? && x.loadPaths == loadPaths && x.path in scripts && CanRead(fs, x.path)
    ensures forall s :: s in scripts && CanRead(fs, s) ==> RunScript(s, loadPaths) in ScriptRuns(fs, scripts, loadPaths)
  {
    if scripts != [] {
      ScriptRunsContents(fs, scripts[1..], loadPaths);
      assert forall s :: s in scripts ==> s == scripts[0] || s in scripts[1..];
    }
  }

  lemma {:induction false} ScriptRunsAppend(fs: FileSystem, scripts: seq<string>, s: string, loadPaths: seq<string>)
    ensures ScriptRuns(fs, scripts + [s], loadPaths)
      == ScriptRuns(fs, scripts, loadPaths) + ScriptRuns(fs, [s], loadPaths)
  {
    if scripts != [] {
      assert (scripts + [s])[1..] == scripts[1..] + [s];
      ScriptRunsAppend(fs, scripts[1..], s, loadPaths);
    }
  }

  /** `f` applied to each of `xs` in turn, the results concatenated. */
  function FlatMap<T>(xs: seq<string>, f: string -> seq<T>): seq<T>
  {
    if xs == [] then [] else f(xs[0]) + FlatMap(xs[1..], f)
  }

  lemma {:induction false} FlatMapAppend<T>(xs: seq<string>, x: string, f: string -> seq<T>)
    ensures FlatMap(xs + [x], f) == FlatMap(xs, f) + f(x)
  {
    if xs == [] {
      assert [] + [x] == [x];
    } else {
      assert (xs + [x])[1..] == xs[1..] + [x];
      FlatMapAppend(xs[1..], x, f);
    }
  }

  /** One more element of `xs`: its part follows those of the earlier ones. */
  lemma FlatMapStep<T>(xs: seq<string>, i: nat, f: string -> seq<T>, start: seq<T>, before: seq<T>, after: seq<T>)
    requires i < |xs|
    requires before == start + FlatMap(xs[..i], f)
    requires after == before + f(xs[i])
    ensures after == start + FlatMap(xs[..i + 1], f)
  {
    assert xs[..i + 1] == xs[..i] + [xs[i]];
    FlatMapAppend(xs[..i], xs[i], f);
  }

  /** `loadBundle(dir)`: the bundle's scripts in discovery order, all with the
      bundle's load paths. */
  function BundleRuns(fs: FileSystem, builtins: string, dir: string): seq<Effect>
  {
    ScriptRuns(fs, BundleScripts(fs, dir), LoadPaths(builtins, dir))
  }

  function BundleRunsOf(fs: FileSystem, builtins: string): string -> seq<Effect>
  {
    dir => BundleRuns(fs, builtins, dir)
  }

  /** `loadBundle` on each directory in turn. */
  function DirectoryRuns(fs: FileSystem, builtins: string, dirs: seq<string>): seq<Effect>
  {
    FlatMap(dirs, BundleRunsOf(fs, builtins))
  }

  /** Every script run while loading several bundles was discovered in one
      of them and carries exactly that bundle's load paths; an unreadable
      script is never run. */
  lemma {:induction false} RunsCarryTheirBundleLoadPaths(fs: FileSystem, builtins: string, dirs: seq<string>, x: Effect)
    requires x in DirectoryRuns(fs, builtins, dirs)
    ensures x.RunScript? && CanRead(fs, x.path)
    ensures exists d :: d in dirs && x.path in BundleScripts(fs, d) && x.loadPaths == LoadPaths(builtins, d)
  {
    ScriptRunsContents(fs, BundleScripts(fs, dirs[0]), LoadPaths(builtins, dirs[0]));
    if x in BundleRuns(fs, builtins, dirs[0]) {
      assert dirs[0] in dirs;
    } else {
      RunsCarryTheirBundleLoadPaths(fs, builtins, dirs[1..], x);
      var d :| d in dirs[1..] && x.path in BundleScripts(fs, d) && x.loadPaths == LoadPaths(builtins, d);
      assert d in dirs;
    }
  }

  /** `loadApplicationBundles`, `loadUserBundles` and one project's part of
      `loadProjectBundles`: every bundle directory under the root. */
  function RootRuns(fs: FileSystem, builtins: string, root: string): seq<Effect>
  {
    DirectoryRuns(fs, builtins, BundleDirectories(fs, Some(root)))
  }

  function RootRunsOf(fs: FileSystem, builtins: string): string -> seq<Effect>
  {
    root => RootRuns(fs, builtins, root)
  }

  /** `loadProjectBundles`: every project root in turn. */
  function ProjectRuns(fs: FileSystem, builtins: string, projectRoots: seq<string>): seq<Effect>
  {
    FlatMap(projectRoots, RootRunsOf(fs, builtins))
  }

  /** The bundles whose metadata `unloadScript` clears, as intended: every
      bundle registered at the directory of a descriptor script, and none
      for any other script. */
  function UnloadTargets(index: PathIndex, script: string): (r: seq<Bundle>)
    ensures !IsDescriptor(script) ==> r == []
    ensures IsDescriptor(script) && Parent(script).Some? ==> r == PathList(index, Parent(script).value)
  {
    if IsDescriptor(script) && Parent(script).Some? then PathList(index, Parent(script).value) else []
  }

  /** `unloadScript` as written: a path merely ending in `bundle.rb` counts
      as a descriptor, and the path index is dereferenced even when no
      bundle was ever added (`None` stands for the null map). */
  function UnloadTargetsAsWritten(index: Option<PathIndex>, script: string): (r: Result<seq<Bundle>>)
    ensures r.Err? <==> IsDescriptorAsWritten(script) && index.None?
  {
    if IsDescriptorAsWritten(script) then
      if index.None? then Err(NullPointer)
      else Ok(if Parent(script).Some? then PathList(index.value, Parent(script).value) else [])
    else Ok([])
  }

  /** Every bundle cleared by unloading a descriptor was registered at the
      descriptor's own directory. */
  lemma UnloadTargetsAtDirectory(index: PathIndex, script: string)
    requires PathsConsistent(index)
    ensures forall b :: b in UnloadTargets(index, script) ==> Parent(script) == Some(b.path)
  {
    forall b | b in UnloadTargets(index, script)
      ensures Parent(script) == Some(b.path)
    {
      var p := Parent(script).value;
      var i :| 0 <= i < |index[p]| && index[p][i] == b;
    }
  }

  /** Unloading a descriptor before any bundle was added fails in the source,
      where the intended behaviour clears nothing. */
  lemma UnloadBeforeAnyBundleFails()
    ensures UnloadTargetsAsWritten(None, "/b/bundle.rb") == Err(NullPointer)
    ensures UnloadTargets(map[], "/b/bundle.rb") == []
  {
    assert "/b/bundle.rb"[|"/b/bundle.rb"| - 9..] == BundleFile;
  }

  /** Once a bundle has been added, the source agrees with the intended
      behaviour on every script the two descriptor tests agree on. */
  lemma UnloadAgreesOnceIndexed(index: PathIndex, script: string)
    requires IsDescriptorAsWritten(script) == IsDescriptor(script)
    ensures UnloadTargetsAsWritten(Some(index), script) == Ok(UnloadTargets(index, script))
  {
  }

  function ClearAll(bundles: seq<Bundle>): (r: seq<Effect>)
    ensures |r| == |bundles|
    ensures forall i :: 0 <= i < |bundles| ==> r[i] == ClearMetadata(bundles[i])
  {
    if bundles == [] then [] else [ClearMetadata(bundles[0])] + ClearAll(bundles[1..])
  }

  /** The inner loop of the scope queries: the selected elements of one
      entry, in order. */
  method SelectFrom(elements: seq<Element>, scopes: seq<string>,
                    matches: (Element, seq<string>) -> bool, filter: Option<Element -> bool>)
    returns (selected: seq<Element>)
    ensures selected == SelectedOf(elements, scopes, matches, filter)
  {
    selected := [];
    var j := 0;
    while j < |elements|
      invariant 0 <= j <= |elements|
      invariant selected == SelectedOf(elements[..j], scopes, matches, filter)
    {
      SelectedOfAppend(elements[..j], [elements[j]], scopes, matches, filter);
      assert elements[..j + 1] == elements[..j] + [elements[j]];
      if matches(elements[j], scopes) && (filter.None? || filter.value(elements[j])) {
        selected := selected + [elements[j]];
      }
      j := j + 1;
    }
    assert elements[..|elements|] == elements;
  }

  /** Every bundle in the path index is filed under its own path. */
  ghost predicate PathsConsistent(index: PathIndex)
  {
    forall p, i :: p in index && 0 <= i < |index[p]| ==> index[p][i].path == p
  }

  /** The least name of a non-empty set. */
  method LeastName(names: set<string>) returns (m: string)
    requires names != {}
    ensures IsLeast(m, names)
  {
    m :| m in names;
    var todo := names - {m};
    while todo != {}
      invariant todo <= names && m in names && m !in todo
      invariant forall x :: x in names && x !in todo && x != m ==> LexLess(m, x)
      decreases todo
    {
      var x :| x in todo;
      LexLessTotal(m, x);
      if LexLess(x, m) {
        forall y | y in names && y !in todo && y != m
          ensures LexLess(x, y)
        {
          LexLessTransitive(x, m, y);
        }
        m := x;
      }
      todo := todo - {x};
    }
  }

  class BundleManager {
    var applicationBundlesPath: string
    var userBundlesPath: string
    var bundlesByPath: PathIndex
    var entriesByName: NameIndex
    var elementListeners: seq<Listener>
    /** Every listener callback made so far, in order. */
    var deliveries: seq<Delivery>
    /** Every script run and metadata clearing requested so far, in order. */
    var effects: seq<Effect>
    /** The filesystem the loader reads. */
    const fs: FileSystem
    /** `ScriptingEngine.getBuiltinsLoadPath()`. */
    const builtinsLoadPath: string

    ghost predicate Valid()
      reads this
    {
      EntriesNamed(entriesByName) && PathsConsistent(bundlesByPath)
    }

    /** `getInstance(applicationBundlesPath, userBundlesPath)` on first use:
        the default roots, each replaced by a non-empty override. */
    constructor (applicationDefault: string, userDefault: string,
                 applicationOverride: Option<string>, userOverride: Option<string>,
                 fs: FileSystem, builtinsLoadPath: string)
      ensures Valid()
      ensures applicationBundlesPath == EffectiveRoot(applicationDefault, applicationOverride)
      ensures userBundlesPath == EffectiveRoot(userDefault, userOverride)
      ensures bundlesByPath == map[] && entriesByName == map[]
      ensures elementListeners == [] && deliveries == [] && effects == []
      ensures this.fs == fs && this.builtinsLoadPath == builtinsLoadPath
    {
      applicationBundlesPath := EffectiveRoot(applicationDefault, applicationOverride);
      userBundlesPath := EffectiveRoot(userDefault, userOverride);
      bundlesByPath := map[];
      entriesByName := map[];
      elementListeners := [];
      deliveries := [];
      effects := [];
      this.fs := fs;
      this.builtinsLoadPath := builtinsLoadPath;
    }

    /** A later `getInstance(applicationBundlesPath, userBundlesPath)`: only
        non-empty overrides change the roots. */
    method ConfigureRoots(applicationOverride: Option<string>, userOverride: Option<string>)
      modifies this`applicationBundlesPath, this`userBundlesPath
      ensures applicationBundlesPath == EffectiveRoot(old(applicationBundlesPath), applicationOverride)
      ensures userBundlesPath == EffectiveRoot(old(userBundlesPath), userOverride)
    {
      applicationBundlesPath := EffectiveRoot(applicationBundlesPath, applicationOverride);
      userBundlesPath := EffectiveRoot(userBundlesPath, userOverride);
    }

    /** `addBundle`: a null bundle changes nothing; otherwise the bundle is
        appended at its path and to the entry for its display name. */
    method AddBundle(bundle: Option<Bundle>)
      requires Valid()
      modifies this`bundlesByPath, this`entriesByName
      ensures Valid()
      ensures bundle.None? ==> bundlesByPath == old(bundlesByPath) && entriesByName == old(entriesByName)
      ensures bundle.Some? ==> bundlesByPath == AddToPathIndex(old(bundlesByPath), bundle.value)
      ensures bundle.Some? ==> entriesByName == AddToNameIndex(old(entriesByName), bundle.value)
    {
      if bundle.Some? {
        var b := bundle.value;
        if b.path !in bundlesByPath {
          assert PathList(bundlesByPath, b.path) + [b] == [b];
          bundlesByPath := bundlesByPath[b.path := [b]];
        } else {
          bundlesByPath := bundlesByPath[b.path := bundlesByPath[b.path] + [b]];
        }
        if b.displayName !in entriesByName {
          entriesByName := entriesByName[b.displayName := AddToEntry(BundleEntry(b.displayName, []), b)];
        } else {
          entriesByName := entriesByName[b.displayName := AddToEntry(entriesByName[b.displayName], b)];
        }
      }
    }

    function GetBundleFromPath(path: Option<string>): Option<Bundle>
      reads this
    {
      CurrentBundle(bundlesByPath, path)
    }

    function GetBundleEntry(name: string): Option<BundleEntry>
      reads this
    {
      EntryByName(entriesByName, name)
    }

    function GetBundleElements(name: string, kind: ElementKind): seq<Element>
      reads this
    {
      BundleElements(entriesByName, name, kind)
    }

    function GetBundleScopeFromPath(path: Option<string>): BundleScope
      reads this
    {
      ScopeFromPath(applicationBundlesPath, userBundlesPath, path)
    }

    /** `getBundleNames`: the names of all entries, sorted, each once. */
    method GetBundleNames() returns (names: seq<string>)
      ensures names == BundleNames(entriesByName)
      ensures StrictlySorted(names)
      ensures forall n :: n in names <==> n in entriesByName
    {
      names := [];
      var rest := entriesByName.Keys;
      while rest != {}
        invariant forall n :: n in entriesByName <==> n in names || n in rest
        invariant forall n :: n in names ==> n !in rest
        invariant StrictlySorted(names)
        invariant forall i, n :: 0 <= i < |names| && n in rest ==> LexLess(names[i], n)
        decreases rest
      {
        var m := LeastName(rest);
        names := names + [m];
        rest := rest - {m};
      }
      StrictlySortedUnique(names, BundleNames(entriesByName));
    }

    /** The loop of `getCommands`: the entries named by `order`, their
        elements concatenated. */
    method ConcatenateEntries(order: seq<string>, kind: ElementKind) returns (elements: seq<Element>)
      ensures elements == Concatenated(entriesByName, order, kind)
    {
      elements := [];
      var i := 0;
      while i < |order|
        invariant 0 <= i <= |order|
        invariant elements == Concatenated(entriesByName, order[..i], kind)
      {
        ConcatenatedAppend(entriesByName, order[..i], order[i], kind);
        assert order[..i + 1] == order[..i] + [order[i]];
        elements := elements + BundleElements(entriesByName, order[i], kind);
        i := i + 1;
      }
      assert order[..|order|] == order;
    }

    /** `getCommands`: the commands of every entry, in name order. */
    method GetCommands() returns (commands: seq<Element>)
      ensures commands == AllElements(entriesByName, Command)
    {
      var names := GetBundleNames();
      commands := ConcatenateEntries(names, Command);
    }

    /** The loop of the scope queries: the entries named by `order`, each
        entry's selected elements in turn. */
    method SelectFromEntries(order: seq<string>, kind: ElementKind, scopes: seq<string>,
                             matches: (Element, seq<string>) -> bool, filter: Option<Element -> bool>)
      returns (result: seq<Element>)
      ensures result == SelectedOf(Concatenated(entriesByName, order, kind), scopes, matches, filter)
    {
      result := [];
      var i := 0;
      while i < |order|
        invariant 0 <= i <= |order|
        invariant result == SelectedOf(Concatenated(entriesByName, order[..i], kind), scopes, matches, filter)
      {
        var selected := SelectFrom(BundleElements(entriesByName, order[i], kind), scopes, matches, filter);
        SelectedConcatenatedStep(entriesByName, order, i, kind, scopes, matches, filter);
        result := result + selected;
        i := i + 1;
      }
      assert order[..|order|] == order;
    }

    /** `getCommandsFromScopes`, `getMenusFromScopes` and
        `getSnippetsFromScopes`, one traversal for the three kinds. */
    method GetElementsFromScopes(kind: ElementKind, scopes: Option<seq<string>>,
                                 matches: (Element, seq<string>) -> bool, filter: Option<Element -> bool>)
      returns (result: seq<Element>)
      ensures result == ElementsFromScopes(entriesByName, kind, scopes, matches, filter)
    {
      result := [];
      if scopes.Some? && |scopes.value| > 0 {
        var names := GetBundleNames();
        result := SelectFromEntries(names, kind, scopes.value, matches, filter);
      }
    }

    /** `addElementChangeListener`: appended, duplicates allowed. */
    method AddElementChangeListener(listener: Listener)
      modifies this`elementListeners
      ensures elementListeners == old(elementListeners) + [listener]
    {
      elementListeners := elementListeners + [listener];
    }

    /** `removeElementChangeListener`: the first registration goes; nothing
        happens for a listener that is not registered. */
    method RemoveElementChangeListener(listener: Listener)
      modifies this`elementListeners
      ensures elementListeners == RemoveFirst(old(elementListeners), listener)
    {
      elementListeners := RemoveFirst(elementListeners, listener);
    }

    /** `fireElementAddedEvent`. */
    method FireElementAddedEvent(element: Element)
      modifies this`deliveries
      ensures deliveries == old(deliveries) + AddedDeliveries(elementListeners, element)
    {
      var i := 0;
      while i < |elementListeners|
        invariant 0 <= i <= |elementListeners|
        invariant deliveries == old(deliveries) + AddedDeliveries(elementListeners[..i], element)
      {
        assert AddedDeliveries(elementListeners[..i + 1], element)
          == AddedDeliveries(elementListeners[..i], element) + [Added(elementListeners[i], element)];
        deliveries := deliveries + [Added(elementListeners[i], element)];
        i := i + 1;
      }
      assert elementListeners[..|elementListeners|] == elementListeners;
    }

    /** `fireElementDeletedEvent`. */
    method FireElementDeletedEvent(element: Element)
      modifies this`deliveries
      ensures deliveries == old(deliveries) + DeletedDeliveries(elementListeners, element)
    {
      var i := 0;
      while i < |elementListeners|
        invariant 0 <= i <= |elementListeners|
        invariant deliveries == old(deliveries) + DeletedDeliveries(elementListeners[..i], element)
      {
        assert DeletedDeliveries(elementListeners[..i + 1], element)
          == DeletedDeliveries(elementListeners[..i], element) + [Deleted(elementListeners[i], element)];
        deliveries := deliveries + [Deleted(elementListeners[i], element)];
        i := i + 1;
      }
      assert elementListeners[..|elementListeners|] == elementListeners;
    }

    /** `fireElementModifiedEvent`: suppressed for a detached bundle element,
        otherwise deleted-then-added to each listener in turn. */
    method FireElementModifiedEvent(element: Element)
      modifies this`deliveries
      ensures deliveries == old(deliveries) + ModifiedDeliveries(elementListeners, element)
    {
      var sendEvent := true;
      if element.isBundleElement {
        sendEvent := element.owningBundle.Some?;
      }
      if sendEvent {
        var i := 0;
        while i < |elementListeners|
          invariant 0 <= i <= |elementListeners|
          invariant deliveries == old(deliveries) + DeleteThenAdd(elementListeners[..i], element)
        {
          var l := elementListeners[i];
          assert elementListeners[..i + 1] == elementListeners[..i] + [l];
          DeleteThenAddAppend(elementListeners[..i], l, element);
          deliveries := deliveries + [Deleted(l, element), Added(l, element)];
          i := i + 1;
        }
        assert elementListeners[..|elementListeners|] == elementListeners;
      }
    }

    /** `loadScript(script, loadPaths)`: the engine runs a readable script;
        an unreadable one is skipped and nothing else changes. */
    method LoadScriptWithPaths(script: string, loadPaths: seq<string>)
      modifies this`effects
      ensures effects == old(effects) + ScriptRuns(fs, [script], loadPaths)
    {
      if CanRead(fs, script) {
        effects := effects + [RunScript(script, loadPaths)];
      }
    }

    /** `loadScript(script)`: the load paths of the script's bundle directory;
        `ok` is false where the source fails on a missing parent directory. */
    method LoadScript(script: string) returns (ok: bool)
      modifies this`effects
      ensures ok <==> BundleDirectoryOfScript(script).Some?
      ensures ok ==>
        effects == old(effects) + ScriptRuns(fs, [script], LoadPaths(builtinsLoadPath, BundleDirectoryOfScript(script).value))
      ensures !ok ==> effects == old(effects)
    {
      var dir := BundleDirectoryOfScript(script);
      ok := dir.Some?;
      if ok {
        LoadScriptWithPaths(script, LoadPaths(builtinsLoadPath, dir.value));
      }
    }

    /** `getBundleScripts`: the list built up for a valid bundle directory. */
    method GetBundleScripts(dir: string) returns (scripts: seq<string>)
      ensures scripts == BundleScripts(fs, dir)
    {
      scripts := [];
      if IsValidBundleDirectory(fs, dir) {
        var bundleFile := Child(dir, BundleFile);
        if Exists(fs, bundleFile) {
          scripts := scripts + [bundleFile];
        }
        scripts := scripts + ScriptsFromDirectory(fs, Child(dir, CommandsDirectory));
        scripts := scripts + ScriptsFromDirectory(fs, Child(dir, SnippetsDirectory));
      }
    }

    /** `loadBundle`: each discovered script in order, with one load-path
        list computed for the bundle. */
    method LoadBundle(dir: string)
      modifies this`effects
      ensures effects == old(effects) + BundleRuns(fs, builtinsLoadPath, dir)
    {
      var scripts := GetBundleScripts(dir);
      if |scripts| > 0 {
        var loadPaths := LoadPaths(builtinsLoadPath, dir);
        var i := 0;
        while i < |scripts|
          invariant 0 <= i <= |scripts|
          invariant effects == old(effects) + ScriptRuns(fs, scripts[..i], loadPaths)
        {
          ScriptRunsAppend(fs, scripts[..i], scripts[i], loadPaths);
          assert scripts[..i + 1] == scripts[..i] + [scripts[i]];
          LoadScriptWithPaths(scripts[i], loadPaths);
          i := i + 1;
        }
        assert scripts[..|scripts|] == scripts;
      }
    }

    /** Every bundle directory under `root`, in listing order. */
    method LoadBundlesFrom(root: string)
      modifies this`effects
      ensures effects == old(effects) + RootRuns(fs, builtinsLoadPath, root)
    {
      LoadBundlesIn(BundleDirectories(fs, Some(root)));
    }

    /** `loadBundle` on each of `dirs` in turn. */
    method LoadBundlesIn(dirs: seq<string>)
      modifies this`effects
      ensures effects == old(effects) + DirectoryRuns(fs, builtinsLoadPath, dirs)
    {
      var i := 0;
      while i < |dirs|
        invariant 0 <= i <= |dirs|
        invariant effects == old(effects) + DirectoryRuns(fs, builtinsLoadPath, dirs[..i])
      {
        ghost var before := effects;
        LoadBundle(dirs[i]);
        FlatMapStep(dirs, i, BundleRunsOf(fs, builtinsLoadPath), old(effects), before, effects);
        i := i + 1;
      }
      assert dirs[..|dirs|] == dirs;
    }

    /** `loadApplicationBundles`. */
    method LoadApplicationBundles()
      modifies this`effects
      ensures effects == old(effects) + RootRuns(fs, builtinsLoadPath, applicationBundlesPath)
    {
      LoadBundlesFrom(applicationBundlesPath);
    }

    /** `loadUserBundles`. */
    method LoadUserBundles()
      modifies this`effects
      ensures effects == old(effects) + RootRuns(fs, builtinsLoadPath, userBundlesPath)
    {
      LoadBundlesFrom(userBundlesPath);
    }

    /** `loadProjectBundles`, for the project roots the workspace lists. */
    method LoadProjectBundles(projectRoots: seq<string>)
      modifies this`effects
      ensures effects == old(effects) + ProjectRuns(fs, builtinsLoadPath, projectRoots)
    {
      var i := 0;
      while i < |projectRoots|
        invariant 0 <= i <= |projectRoots|
        invariant effects == old(effects) + ProjectRuns(fs, builtinsLoadPath, projectRoots[..i])
      {
        ghost var before := effects;
        LoadBundlesFrom(projectRoots[i]);
        FlatMapStep(projectRoots, i, RootRunsOf(fs, builtinsLoadPath), old(effects), before, effects);
        i := i + 1;
      }
      assert projectRoots[..|projectRoots|] == projectRoots;
    }

    /** `loadBundles`: `reset` does nothing, then application, user and
        project bundles, in that order. */
    method LoadBundles(projectRoots: seq<string>)
      modifies this`effects
      ensures effects == old(effects)
        + RootRuns(fs, builtinsLoadPath, applicationBundlesPath)
        + RootRuns(fs, builtinsLoadPath, userBundlesPath)
        + ProjectRuns(fs, builtinsLoadPath, projectRoots)
    {
      LoadApplicationBundles();
      LoadUserBundles();
      LoadProjectBundles(projectRoots);
    }

    /** `unloadScript`: for a descriptor, every bundle registered at its
        directory clears its metadata; any other script is left alone. */
    method UnloadScript(script: string)
      modifies this`effects
      ensures effects == old(effects) + ClearAll(UnloadTargets(bundlesByPath, script))
    {
      if IsDescriptor(script) {
        var dir := Parent(script);
        if dir.Some? && dir.value in bundlesByPath {
          var bundles := bundlesByPath[dir.value];
          var i := 0;
          while i < |bundles|
            invariant 0 <= i <= |bundles|
            invariant effects == old(effects) + ClearAll(bundles[..i])
          {
            assert ClearAll(bundles[..i + 1]) == ClearAll(bundles[..i]) + [ClearMetadata(bundles[i])];
            effects := effects + [ClearMetadata(bundles[i])];
            i := i + 1;
          }
          assert bundles[..|bundles|] == bundles;
        }
      }
    }

    /** `reloadScript`: unload, then load. */
    method ReloadScript(script: string) returns (ok: bool)
      modifies this`effects
      ensures ok <==> BundleDirectoryOfScript(script).Some?
      ensures ok ==>
        effects == old(effects) + ClearAll(UnloadTargets(bundlesByPath, script))
          + ScriptRuns(fs, [script], LoadPaths(builtinsLoadPath, BundleDirectoryOfScript(script).value))
      ensures !ok ==> effects == old(effects) + ClearAll(UnloadTargets(bundlesByPath, script))
    {
      UnloadScript(script);
      ok := LoadScript(script);
    }
  }
}
