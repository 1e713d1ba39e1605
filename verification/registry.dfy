/** The two indices of the bundle registry as values, the lookups over them,
    and the specification of the queries that traverse them. */
module Registry {

  import opened Wrappers
  import opened Elements
  import opened Ordering

  /** `_bundlesByPath`: every bundle ever added at a path, oldest first. */
  type PathIndex = map<string, seq<Bundle>>

  /** `_entriesByName`: one merged entry per display name. */
  type NameIndex = map<string, BundleEntry>

  function PathList(index: PathIndex, path: string): seq<Bundle>
  {
    if path in index then index[path] else []
  }

  /** The path half of `addBundle`: the bundle is appended to the list at its
      path, which is created when absent; no other path changes. */
  function AddToPathIndex(index: PathIndex, b: Bundle): (r: PathIndex)
    ensures r.Keys == index.Keys + {b.path}
    ensures r[b.path] == PathList(index, b.path) + [b]
    ensures forall p :: p in index && p != b.path ==> r[p] == index[p]
  {
    index[b.path := PathList(index, b.path) + [b]]
  }

  /** The name half of `addBundle`: the bundle joins the entry for its display
      name, which is created when absent; no other name changes. */
  function AddToNameIndex(names: NameIndex, b: Bundle): (r: NameIndex)
    requires EntriesNamed(names)
    ensures r.Keys == names.Keys + {b.displayName}
    ensures r[b.displayName].name == b.displayName
    ensures r[b.displayName].bundles ==
      (if b.displayName in names then names[b.displayName].bundles else []) + [b]
    ensures forall n :: n in names && n != b.displayName ==> r[n] == names[n]
    ensures EntriesNamed(r)
  {
    var entry := if b.displayName in names then names[b.displayName] else BundleEntry(b.displayName, []);
    names[b.displayName := AddToEntry(entry, b)]
  }

  /** Each entry is filed under its own name. */
  ghost predicate EntriesNamed(names: NameIndex)
  {
    forall n :: n in names ==> names[n].name == n
  }

  /** `getBundleFromPath`: the most recently added bundle at the path; none
      for a null path, an unknown path, or an empty list. */
  function CurrentBundle(index: PathIndex, path: Option<string>): (r: Option<Bundle>)
    ensures r.None? <==> path.None? || path.value !in index || index[path.value] == []
    ensures r.Some? ==> r.value == index[path.value][|index[path.value]| - 1]
  {
    if path.Some? && path.value in index && |index[path.value]| > 0 then
      Some(index[path.value][|index[path.value]| - 1])
    else None
  }

  /** After `addBundle(b)` the bundle is current at its path, and every other
      path answers as before. */
  lemma CurrentAfterAdd(index: PathIndex, b: Bundle, path: string)
    ensures CurrentBundle(AddToPathIndex(index, b), Some(b.path)) == Some(b)
    ensures path != b.path ==> CurrentBundle(AddToPathIndex(index, b), Some(path)) == CurrentBundle(index, Some(path))
  {
    var r := AddToPathIndex(index, b);
    assert r[b.path][|r[b.path]| - 1] == b;
  }

  /** `getBundleEntry`: the entry filed under `name`, or none. */
  function EntryByName(names: NameIndex, name: string): (r: Option<BundleEntry>)
    ensures r.Some? <==> name in names
    ensures r.Some? ==> r.value == names[name]
  {
    if name in names then Some(names[name]) else None
  }

  /** After `addBundle(b)` the entry for `b`'s display name exists, is named
      after it and ends in `b`; every other name's entry is as before. */
  lemma EntryAfterAdd(names: NameIndex, b: Bundle, other: string)
    requires EntriesNamed(names)
    ensures var e := EntryByName(AddToNameIndex(names, b), b.displayName);
      e.Some? && e.value.name == b.displayName && |e.value.bundles| > 0 && e.value.bundles[|e.value.bundles| - 1] == b
    ensures other != b.displayName ==> EntryByName(AddToNameIndex(names, b), other) == EntryByName(names, other)
  {
  }

  /** `getBundleCommands`, `getBundleMenus`, `getBundleSnippets`: the merged
      elements of one kind under `name`; empty for an unknown name. */
  function BundleElements(names: NameIndex, name: string, kind: ElementKind): (r: seq<Element>)
    ensures name !in names ==> r == []
    ensures name in names ==> r == EntryElements(names[name], kind)
  {
    if name in names then EntryElements(names[name], kind) else []
  }

  /** Adding a bundle augments its name's elements with the bundle's own, at
      the end, and leaves every other name's elements alone: same-named
      bundles from different scopes stay visible side by side. */
  lemma ElementsAfterAdd(names: NameIndex, b: Bundle, kind: ElementKind, other: string)
    requires EntriesNamed(names)
    ensures BundleElements(AddToNameIndex(names, b), b.displayName, kind)
      == BundleElements(names, b.displayName, kind) + ElementsOf(b, kind)
    ensures other != b.displayName ==>
      BundleElements(AddToNameIndex(names, b), other, kind) == BundleElements(names, other, kind)
  {
    var entry := if b.displayName in names then names[b.displayName] else BundleEntry(b.displayName, []);
    EntryAugments(entry, b, kind);
  }

  /** The elements of one kind of the named entries, concatenated in the
      order of `order`. */
  function Concatenated(names: NameIndex, order: seq<string>, kind: ElementKind): seq<Element>
  {
    if order == [] then [] else BundleElements(names, order[0], kind) + Concatenated(names, order[1..], kind)
  }

  lemma {:induction false} ConcatenatedAppend(names: NameIndex, order: seq<string>, name: string, kind: ElementKind)
    ensures Concatenated(names, order + [name], kind) == Concatenated(names, order, kind) + BundleElements(names, name, kind)
  {
    if order == [] {
      assert [] + [name] == [name];
    } else {
      assert (order + [name])[1..] == order[1..] + [name];
      ConcatenatedAppend(names, order[1..], name, kind);
    }
  }

  /** `getBundleNames`: every name in the index, sorted, each once. */
  ghost function BundleNames(names: NameIndex): seq<string>
  {
    SortedSet(names.Keys)
  }

  /** `getCommands` (and its menu and snippet analogues): the elements of
      every entry, entries in name order, each entry in its own order. */
  ghost function AllElements(names: NameIndex, kind: ElementKind): seq<Element>
  {
    Concatenated(names, BundleNames(names), kind)
  }

  /** The test of the scope queries: the element matches the scopes and the
      filter, when there is one, includes it. */
  predicate Selected(e: Element, scopes: seq<string>, matches: (Element, seq<string>) -> bool,
                     filter: Option<Element -> bool>)
  {
    matches(e, scopes) && (filter.None? || filter.value(e))
  }

  function SelectedOf(s: seq<Element>, scopes: seq<string>, matches: (Element, seq<string>) -> bool,
                      filter: Option<Element -> bool>): seq<Element>
  {
    if s == [] then []
    else (if Selected(s[0], scopes, matches, filter) then [s[0]] else []) + SelectedOf(s[1..], scopes, matches, filter)
  }

  lemma {:induction false} SelectedOfAppend(a: seq<Element>, b: seq<Element>, scopes: seq<string>,
                                            matches: (Element, seq<string>) -> bool, filter: Option<Element -> bool>)
    ensures SelectedOf(a + b, scopes, matches, filter) == SelectedOf(a, scopes, matches, filter) + SelectedOf(b, scopes, matches, filter)
  {
    if a == [] {
      assert a + b == b;
    } else {
      assert (a + b)[0] == a[0] && (a + b)[1..] == a[1..] + b;
      SelectedOfAppend(a[1..], b, scopes, matches, filter);
    }
  }

  /** Selecting over one more entry appends that entry's selected elements. */
  lemma SelectedConcatenatedStep(names: NameIndex, order: seq<string>, i: nat, kind: ElementKind, scopes: seq<string>,
                                 matches: (Element, seq<string>) -> bool, filter: Option<Element -> bool>)
    requires i < |order|
    ensures SelectedOf(Concatenated(names, order[..i + 1], kind), scopes, matches, filter)
      == SelectedOf(Concatenated(names, order[..i], kind), scopes, matches, filter)
       + SelectedOf(BundleElements(names, order[i], kind), scopes, matches, filter)
  {
    assert order[..i + 1] == order[..i] + [order[i]];
    ConcatenatedAppend(names, order[..i], order[i], kind);
    SelectedOfAppend(Concatenated(names, order[..i], kind), BundleElements(names, order[i], kind), scopes, matches, filter);
  }

  /** `get{Commands,Menus,Snippets}FromScopes`: nothing for null or empty
      scopes; otherwise the selected elements of `AllElements`, in its order. */
  ghost function ElementsFromScopes(names: NameIndex, kind: ElementKind, scopes: Option<seq<string>>,
                                    matches: (Element, seq<string>) -> bool, filter: Option<Element -> bool>): seq<Element>
  {
    if scopes.None? || |scopes.value| == 0 then []
    else SelectedOf(AllElements(names, kind), scopes.value, matches, filter)
  }

  /** `a` can be obtained from `b` by deleting elements. */
  predicate IsSubsequence<T(==)>(a: seq<T>, b: seq<T>)
    decreases |b|
  {
    if a == [] then true
    else if b == [] then false
    else if a[0] == b[0] then IsSubsequence(a[1..], b[1..])
    else IsSubsequence(a, b[1..])
  }

  lemma {:induction false} SelectedOfIsSubsequence(s: seq<Element>, scopes: seq<string>,
                                                   matches: (Element, seq<string>) -> bool, filter: Option<Element -> bool>)
    ensures IsSubsequence(SelectedOf(s, scopes, matches, filter), s)
    ensures forall e :: e in SelectedOf(s, scopes, matches, filter) <==> e in s && Selected(e, scopes, matches, filter)
  {
    if s != [] {
      var rest := SelectedOf(s[1..], scopes, matches, filter);
      SelectedOfIsSubsequence(s[1..], scopes, matches, filter);
      assert s == [s[0]] + s[1..];
      if Selected(s[0], scopes, matches, filter) {
        assert SelectedOf(s, scopes, matches, filter) == [s[0]] + rest;
        assert ([s[0]] + rest)[1..] == rest;
      } else {
        assert SelectedOf(s, scopes, matches, filter) == rest;
        assert rest != [] ==> rest[0] != s[0] by {
          if rest != [] { assert rest[0] in rest; }
        }
      }
    }
  }

  /** The scope queries return exactly the selected elements of the matching
      kind, in name-then-entry order, so their result is a subsequence of
      `getCommands` (or its menu and snippet analogues); null or empty scopes
      give nothing. */
  lemma ElementsFromScopesCharacterized(names: NameIndex, kind: ElementKind, scopes: Option<seq<string>>,
                                        matches: (Element, seq<string>) -> bool, filter: Option<Element -> bool>)
    ensures scopes.None? || scopes.value == [] ==> ElementsFromScopes(names, kind, scopes, matches, filter) == []
    ensures IsSubsequence(ElementsFromScopes(names, kind, scopes, matches, filter), AllElements(names, kind))
    ensures scopes.Some? && scopes.value != [] ==>
      forall e :: e in ElementsFromScopes(names, kind, scopes, matches, filter) <==>
        e in AllElements(names, kind) && Selected(e, scopes.value, matches, filter)
  {
    if scopes.Some? && scopes.value != [] {
      SelectedOfIsSubsequence(AllElements(names, kind), scopes.value, matches, filter);
    }
  }
}
