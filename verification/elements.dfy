/** The values the registry stores: bundle elements (commands, menus and
    snippets), bundles, and the name-keyed entries that merge bundles. */
module Elements {

  import opened Wrappers

  /** The three kinds of element a bundle contributes. */
  datatype ElementKind = Command | Menu | Snippet

  /** A command, menu or snippet. `isBundleElement` says whether the element
      is an `AbstractBundleElement` (one that belongs to a bundle), and
      `owningBundle` holds the path of its owning bundle, `None` once it has
      been detached. `scopeSelector` is what `matches(scopes)` inspects. */
  datatype Element = Element(
    kind: ElementKind,
    name: string,
    scopeSelector: string,
    isBundleElement: bool,
    owningBundle: Option<string>)

  /** A loaded bundle: its directory path, display name and the elements its
      scripts contributed, in contribution order. */
  datatype Bundle = Bundle(
    path: string,
    displayName: string,
    commands: seq<Element>,
    menus: seq<Element>,
    snippets: seq<Element>)

  /** The elements of one kind that `b` contributes. */
  function ElementsOf(b: Bundle, kind: ElementKind): seq<Element>
  {
    match kind
    case Command => b.commands
    case Menu => b.menus
    case Snippet => b.snippets
  }

  /** All bundles sharing one display name, in the order they were added. */
  datatype BundleEntry = BundleEntry(name: string, bundles: seq<Bundle>)

  /** The entry's elements of one kind: those of its bundles, concatenated in
      entry order. */
  function Flatten(bundles: seq<Bundle>, kind: ElementKind): seq<Element>
  {
    if bundles == [] then [] else ElementsOf(bundles[0], kind) + Flatten(bundles[1..], kind)
  }

  function EntryElements(e: BundleEntry, kind: ElementKind): seq<Element>
  {
    Flatten(e.bundles, kind)
  }

  /** `BundleEntry.addBundle`: the bundle joins the end of the entry. */
  function AddToEntry(e: BundleEntry, b: Bundle): BundleEntry
  {
    e.(bundles := e.bundles + [b])
  }

  lemma {:induction false} FlattenAppend(bundles: seq<Bundle>, b: Bundle, kind: ElementKind)
    ensures Flatten(bundles + [b], kind) == Flatten(bundles, kind) + ElementsOf(b, kind)
  {
    if bundles == [] {
      assert [] + [b] == [b];
    } else {
      assert (bundles + [b])[1..] == bundles[1..] + [b];
      FlattenAppend(bundles[1..], b, kind);
    }
  }

  /** Merging is an augmentation: after a bundle joins an entry, the entry's
      elements of each kind are the old ones followed by the new bundle's. */
  lemma EntryAugments(e: BundleEntry, b: Bundle, kind: ElementKind)
    ensures EntryElements(AddToEntry(e, b), kind) == EntryElements(e, kind) + ElementsOf(b, kind)
  {
    FlattenAppend(e.bundles, b, kind);
  }
}
