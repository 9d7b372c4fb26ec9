/** Absolute paths, as a sequence of path components below the file-system root. */
module Paths {

  datatype AbsolutePath = AbsolutePath(components: seq<string>)

  /**
   * The stand-in for the string literal `""` used as an absolute path. It has no components, so in this
   * encoding it is equal to the root path `/`.
   */
  const EmptyPath: AbsolutePath := AbsolutePath([])

  /** `AbsolutePath.appending(component:)`: one more component at the end, the others untouched. */
  function Appending(p: AbsolutePath, component: string): (r: AbsolutePath)
    ensures |r.components| == |p.components| + 1
    ensures r.components[..|p.components|] == p.components
    ensures r.components[|p.components|] == component
  {
    AbsolutePath(p.components + [component])
  }
}
