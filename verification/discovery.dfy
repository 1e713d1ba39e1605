/** Discovery of bundle directories and bundle scripts, the load path handed
    to the scripting engine, and the bundle directory a script belongs to. */
module Discovery {

  import opened Wrappers
  import opened Files
  import opened Ordering

  const BundleFile: string := "bundle.rb"
  const RubyExtension: string := ".rb"
  const LibDirectory: string := "lib"
  const CommandsDirectory: string := "commands"
  const SnippetsDirectory: string := "snippets"

  /** A directory name starting with `.` is hidden and never a bundle. */
  predicate IsHidden(name: string)
  {
    |name| > 0 && name[0] == '.'
  }

  /** `isValidBundleDirectory`: true exactly when the directory exists, is a
      directory and can be read (the log message on failure is not modelled). */
  predicate IsValidBundleDirectory(fs: FileSystem, dir: string)
    ensures IsValidBundleDirectory(fs, dir) <==> IsDirectory(fs, dir) && CanRead(fs, dir)
  {
    if Exists(fs, dir) then
      if IsDirectory(fs, dir) then CanRead(fs, dir) else false
    else false
  }

  /** The names among `names` that are visible sub-directories of `dir`, in
      listing order. */
  function VisibleSubdirectories(fs: FileSystem, dir: string, names: seq<string>): seq<string>
  {
    if names == [] then []
    else
      var rest := VisibleSubdirectories(fs, dir, names[1..]);
      if IsDirectory(fs, Child(dir, names[0])) && !IsHidden(names[0]) then [names[0]] + rest else rest
  }

  lemma {:induction false} VisibleSubdirectoriesContents(fs: FileSystem, dir: string, names: seq<string>)
    ensures forall c :: c in VisibleSubdirectories(fs, dir, names) <==>
      c in names && IsDirectory(fs, Child(dir, c)) && !IsHidden(c)
  {
    if names != [] {
      VisibleSubdirectoriesContents(fs, dir, names[1..]);
      assert forall c :: c in names <==> c == names[0] || c in names[1..];
    }
  }

  /** `getBundleDirectories`: the visible sub-directories of `root` in listing
      order; nothing for a null, missing, non-directory or unreadable root. */
  function BundleDirectories(fs: FileSystem, root: Option<string>): seq<string>
  {
    if root.Some? && IsDirectory(fs, root.value) && CanRead(fs, root.value) then
      ChildPaths(root.value, VisibleSubdirectories(fs, root.value, fs[root.value].children))
    else []
  }

  /** The bundle directories of a root are exactly its visible
      sub-directories; a null, missing, non-directory or unreadable root has
      none. */
  lemma BundleDirectoriesContents(fs: FileSystem, root: Option<string>)
    ensures root.None? || !IsDirectory(fs, root.value) || !CanRead(fs, root.value) ==> BundleDirectories(fs, root) == []
    ensures root.Some? && IsDirectory(fs, root.value) && CanRead(fs, root.value) ==>
      forall c :: Child(root.value, c) in BundleDirectories(fs, root) <==>
        c in fs[root.value].children && IsDirectory(fs, Child(root.value, c)) && !IsHidden(c)
    ensures root.Some? && IsDirectory(fs, root.value) && CanRead(fs, root.value) ==>
      exists names ::
        && BundleDirectories(fs, root) == ChildPaths(root.value, names)
        && (forall c :: c in names <==> c in fs[root.value].children && IsDirectory(fs, Child(root.value, c)) && !IsHidden(c))
  {
    if root.Some? && IsDirectory(fs, root.value) && CanRead(fs, root.value) {
      var names := VisibleSubdirectories(fs, root.value, fs[root.value].children);
      VisibleSubdirectoriesContents(fs, root.value, fs[root.value].children);
      var r := ChildPaths(root.value, names);
      assert BundleDirectories(fs, root) == r;
      ChildPathsElements(root.value, names);
      forall c ensures Child(root.value, c) in r <==> c in names {
        if Child(root.value, c) in r {
          var i :| 0 <= i < |r| && r[i] == Child(root.value, c);
          assert Child(root.value, names[i]) == Child(root.value, c);
          assert names[i] == Child(root.value, c)[|root.value| + 1..];
        }
        if c in names {
          var i :| 0 <= i < |names| && names[i] == c;
          assert r[i] == Child(root.value, c);
        }
      }
    }
  }

  /** A regular file whose lower-cased name ends in `.rb`. */
  predicate IsScriptFile(fs: FileSystem, dir: string, name: string)
  {
    IsFile(fs, Child(dir, name)) && EndsWith(Lower(name), RubyExtension)
  }

  /** The names among `names` that are script files in `dir`, in listing order. */
  function ScriptNames(fs: FileSystem, dir: string, names: seq<string>): seq<string>
  {
    if names == [] then []
    else
      var rest := ScriptNames(fs, dir, names[1..]);
      if IsScriptFile(fs, dir, names[0]) then [names[0]] + rest else rest
  }

  lemma {:induction false} ScriptNamesContents(fs: FileSystem, dir: string, names: seq<string>)
    ensures forall c :: c in ScriptNames(fs, dir, names) <==> c in names && IsScriptFile(fs, dir, c)
  {
    if names != [] {
      ScriptNamesContents(fs, dir, names[1..]);
      assert forall c :: c in names <==> c == names[0] || c in names[1..];
    }
  }

  /** `getScriptsFromDirectory`, as the source evidently intends it: the
      script files of a readable directory sorted by name, and nothing for
      anything else. */
  function ScriptsFromDirectory(fs: FileSystem, dir: string): seq<string>
  {
    if Exists(fs, dir) && CanRead(fs, dir) && IsDirectory(fs, dir) then
      ChildPaths(dir, SortNames(ScriptNames(fs, dir, fs[dir].children)))
    else []
  }

  /** The names of the scripts `ScriptsFromDirectory` returns are sorted,
      are script files of `dir`, and are every script file `dir` lists. */
  lemma ScriptsFromDirectoryContents(fs: FileSystem, dir: string)
    requires IsDirectory(fs, dir) && CanRead(fs, dir)
    ensures exists names ::
      && ScriptsFromDirectory(fs, dir) == ChildPaths(dir, names)
      && Sorted(names)
      && (forall c :: c in names <==> c in fs[dir].children && IsScriptFile(fs, dir, c))
  {
    var names := SortNames(ScriptNames(fs, dir, fs[dir].children));
    SortNamesSorts(ScriptNames(fs, dir, fs[dir].children));
    ScriptNamesContents(fs, dir, fs[dir].children);
    assert forall c :: c in names <==> c in multiset(names);
    assert forall c :: c in ScriptNames(fs, dir, fs[dir].children) <==> c in multiset(ScriptNames(fs, dir, fs[dir].children));
  }

  /** `getScriptsFromDirectory` as written: `listFiles` on a readable path
      that is not a directory yields null, which `Arrays.sort` dereferences. */
  function ScriptsFromDirectoryAsWritten(fs: FileSystem, dir: string): (r: Result<seq<string>>)
    ensures r.Ok? ==> r.value == ScriptsFromDirectory(fs, dir)
    ensures r.Err? <==> Exists(fs, dir) && CanRead(fs, dir) && !IsDirectory(fs, dir)
  {
    if Exists(fs, dir) && CanRead(fs, dir) then
      if IsDirectory(fs, dir) then Ok(ChildPaths(dir, SortNames(ScriptNames(fs, dir, fs[dir].children))))
      else Err(NullPointer)
    else Ok([])
  }

  /** A bundle holding a readable regular file named `commands` makes the
      source's script discovery fail, where the corrected version ignores it. */
  lemma CommandsFileCrashesDiscovery()
    ensures var fs := map[
        "/b" := Node(Directory, true, ["commands"]),
        "/b/commands" := Node(RegularFile, true, [])];
      ScriptsFromDirectoryAsWritten(fs, Child("/b", CommandsDirectory)) == Err(NullPointer)
      && ScriptsFromDirectory(fs, Child("/b", CommandsDirectory)) == []
  {
    assert Child("/b", CommandsDirectory) == "/b/commands";
  }

  /** The descriptor script of `dir`, when something exists at its path. */
  function DescriptorScript(fs: FileSystem, dir: string): seq<string>
  {
    var bundleFile := Child(dir, BundleFile);
    if Exists(fs, bundleFile) then [bundleFile] else []
  }

  /** `getBundleScripts`: for a valid bundle directory, the descriptor first,
      then the scripts of `commands`, then those of `snippets`. */
  function BundleScripts(fs: FileSystem, dir: string): seq<string>
  {
    if IsValidBundleDirectory(fs, dir) then
      DescriptorScript(fs, dir)
        + ScriptsFromDirectory(fs, Child(dir, CommandsDirectory))
        + ScriptsFromDirectory(fs, Child(dir, SnippetsDirectory))
    else []
  }

  /** Discovery order: nothing for an invalid directory; otherwise the
      descriptor first when it exists, every `commands` script before every
      `snippets` script, each group sorted by name. */
  lemma BundleScriptsOrder(fs: FileSystem, dir: string)
    ensures !IsValidBundleDirectory(fs, dir) ==> BundleScripts(fs, dir) == []
    ensures IsValidBundleDirectory(fs, dir) && Exists(fs, Child(dir, BundleFile)) ==>
      |BundleScripts(fs, dir)| > 0 && BundleScripts(fs, dir)[0] == Child(dir, BundleFile)
    ensures IsValidBundleDirectory(fs, dir) ==>
      var commands := ScriptsFromDirectory(fs, Child(dir, CommandsDirectory));
      var snippets := ScriptsFromDirectory(fs, Child(dir, SnippetsDirectory));
      var d := |DescriptorScript(fs, dir)|;
      && d <= 1
      && BundleScripts(fs, dir)[d..d + |commands|] == commands
      && BundleScripts(fs, dir)[d + |commands|..] == snippets
  {
  }

  /** `getBundleLoadPaths`: the engine's built-in library path, then the
      bundle's `lib` directory. */
  function LoadPaths(builtins: string, dir: string): (r: seq<string>)
    ensures |r| == 2 && r[0] == builtins && r[1] == Child(dir, LibDirectory)
  {
    [builtins, Child(dir, LibDirectory)]
  }

  /** The descriptor test of `loadScript(File)` and `unloadScript` as written:
      any path ending in `bundle.rb`. */
  predicate IsDescriptorAsWritten(script: string)
  {
    EndsWith(script, BundleFile)
  }

  /** The descriptor test as intended: the file is named `bundle.rb`. */
  predicate IsDescriptor(script: string)
  {
    Name(script) == BundleFile
  }

  function Grandparent(script: string): Option<string>
  {
    var p := Parent(script);
    if p.Some? then Parent(p.value) else None
  }

  /** The directory `loadScript(File)` takes as the script's bundle, as
      written; `None` where the source dereferences a null parent. */
  function BundleDirectoryOfScriptAsWritten(script: string): Option<string>
  {
    if IsDescriptorAsWritten(script) then Parent(script) else Grandparent(script)
  }

  /** The directory `loadScript(File)` takes as the script's bundle: the
      parent of a descriptor, the grandparent of any other script. */
  function BundleDirectoryOfScript(script: string): Option<string>
  {
    if IsDescriptor(script) then Parent(script) else Grandparent(script)
  }

  /** A script found in `sub` is a direct child of `sub`. */
  lemma ScriptIsChild(fs: FileSystem, sub: string, script: string)
    requires WellFormed(fs) && sub != []
    requires script in ScriptsFromDirectory(fs, sub)
    ensures Parent(script) == Some(sub)
  {
    var names := SortNames(ScriptNames(fs, sub, fs[sub].children));
    SortNamesSorts(ScriptNames(fs, sub, fs[sub].children));
    ScriptNamesContents(fs, sub, fs[sub].children);
    ChildPathsElements(sub, names);
    var i :| 0 <= i < |names| && Child(sub, names[i]) == script;
    assert names[i] in multiset(names);
    assert names[i] in ScriptNames(fs, sub, fs[sub].children);
    ChildNameAndParent(sub, names[i]);
  }

  /** Loading one script on its own gives it the same bundle directory as
      loading its whole bundle does (unless a `commands` or `snippets`
      script is itself named `bundle.rb`). */
  lemma BundleDirectoryOfDiscoveredScript(fs: FileSystem, dir: string, script: string)
    requires WellFormed(fs) && dir != []
    requires script in BundleScripts(fs, dir)
    requires script == Child(dir, BundleFile) || Name(script) != BundleFile
    ensures BundleDirectoryOfScript(script) == Some(dir)
  {
    var commands := Child(dir, CommandsDirectory);
    var snippets := Child(dir, SnippetsDirectory);
    ChildNameAndParent(dir, BundleFile);
    ChildNameAndParent(dir, CommandsDirectory);
    ChildNameAndParent(dir, SnippetsDirectory);
    if script != Child(dir, BundleFile) {
      var sub := if script in ScriptsFromDirectory(fs, commands) then commands else snippets;
      ScriptIsChild(fs, sub, script);
      assert Parent(script) == Some(sub) && Parent(sub) == Some(dir);
      assert Grandparent(script) == Some(dir);
    }
  }

  /** A command script whose name merely ends in `bundle.rb` is taken for a
      descriptor by the source, which then loads it with the `commands`
      directory as its bundle. */
  lemma SuffixTestMisplacesCommandScript()
    ensures BundleDirectoryOfScriptAsWritten("/b/commands/mybundle.rb") == Some("/b/commands")
    ensures BundleDirectoryOfScript("/b/commands/mybundle.rb") == Some("/b")
  {
    var p := "/b/commands/mybundle.rb";
    assert Child("/b", "commands") == "/b/commands";
    assert p == Child("/b/commands", "mybundle.rb");
    ChildNameAndParent(Child("/b", "commands"), "mybundle.rb");
    ChildNameAndParent("/b", "commands");
    assert p[|p| - 9..] == BundleFile;
  }
}
