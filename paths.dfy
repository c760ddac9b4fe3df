/** File system paths as sequences of components. */
module Paths {

  /** A path as its components: `a/b/c` is `["a", "b", "c"]`. */
  type Path = seq<string>

  /**
   * Appends one component, the way `os.path.join` does: joining the empty
   * string adds a separator but no component.
   */
  function Join(p: Path, c: string): Path
  {
    if c == "" then p else p + [c]
  }

  /** The directory holding `p` (`os.path.dirname`). */
  function Parent(p: Path): Path
    requires p != []
  {
    p[..|p| - 1]
  }
}
