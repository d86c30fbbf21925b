/** Absolute locations in a file tree without directory symlinks, and how path texts lead to them. */
module Places {
  import opened Text

  /** A place under the filesystem root, as names from the root down. */
  type Place = seq<string>

  /** One component of a path walk; the parent of the root is the root. */
  function Step(at: Place, component: string): Place {
    if component == "" || component == "." then at
    else if component == ".." then if at == [] then [] else at[..|at| - 1]
    else at + [component]
  }

  function Walk(at: Place, components: seq<string>): Place
    decreases |components|
  {
    if components == [] then at else Walk(Step(at, components[0]), components[1..])
  }

  /** Where a path text leads from the directory `from`. */
  function Locate(from: Place, path: string): Place {
    Walk(if path != "" && path[0] == '/' then [] else from, Split(path, '/'))
  }

  function Parent(p: Place): Place {
    if p == [] then [] else p[..|p| - 1]
  }

  lemma {:induction false} WalkAppend(at: Place, x: seq<string>, y: seq<string>)
    ensures Walk(at, x + y) == Walk(Walk(at, x), y)
    decreases |x|
  {
    if x == [] {
      assert x + y == y;
    } else {
      assert (x + y)[1..] == x[1..] + y;
      WalkAppend(Step(at, x[0]), x[1..], y);
    }
  }
}
