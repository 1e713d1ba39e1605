/** Classification of a path into the scope its bundle belongs to, and the
    rule by which configured roots override the current ones. */
module Scope {

  import opened Wrappers

  datatype BundleScope = Application | User | Project

  /** `getBundleScopeFromPath`: a plain prefix test against the application
      root first, then the user root; everything else, null included, is a
      project path. */
  function ScopeFromPath(applicationRoot: string, userRoot: string, path: Option<string>): (r: BundleScope)
    ensures r == Application <==> path.Some? && applicationRoot <= path.value
    ensures r == User <==> path.Some? && !(applicationRoot <= path.value) && userRoot <= path.value
    ensures r == Project <==> path.None? || (!(applicationRoot <= path.value) && !(userRoot <= path.value))
  {
    if path.None? then Project
    else if applicationRoot <= path.value then Application
    else if userRoot <= path.value then User
    else Project
  }

  /** `getInstance(applicationBundlesPath, userBundlesPath)`: a non-null,
      non-empty argument replaces the configured root; otherwise the root
      stays as it was. */
  function EffectiveRoot(current: string, override: Option<string>): (r: string)
    ensures override.Some? && |override.value| > 0 ==> r == override.value
    ensures override.None? || override.value == [] ==> r == current
  {
    if override.Some? && |override.value| > 0 then override.value else current
  }
}
