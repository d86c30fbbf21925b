/** Containment and distinctness of linter targets (riglib/config.py). */
module LinterPaths {
  import opened Text
  import opened Places
  import opened ConfigTree
  import Regex

  predicate IsGitDir(name: string) {
    Regex.Lower(name) == ".git"
  }

  /** Every casing of the name is caught, and no other name. */
  lemma GitInAnyCase(name: string)
    ensures IsGitDir(name) <==>
      |name| == 4 && name[0] == '.' && name[1] in "gG" && name[2] in "iI" && name[3] in "tT"
  {
    var low := Regex.Lower(name);
    if |name| == 4 {
      assert low == [low[0], low[1], low[2], low[3]];
    }
  }

  /** `inner` is `root` or lies below it. */
  predicate Under(root: Place, inner: Place) {
    root <= inner
  }

  /** Every place the walk visits lies under the root and outside any `.git` below it. */
  ghost predicate StaysInside(root: Place, components: seq<string>) {
    forall i :: 0 <= i <= |components| ==>
      var at := Walk(root, components[..i]);
      Under(root, at) && forall k :: |root| <= k < |at| ==> !IsGitDir(at[k])
  }

  // ---- the program ----

  /** `PurePosixPath(rel).parts` of a relative path: empty and `.` components vanish. */
  function Parts(components: seq<string>): seq<string> {
    if components == [] then []
    else if components[0] == "" || components[0] == "." then Parts(components[1..])
    else [components[0]] + Parts(components[1..])
  }

  /** What `PureWindowsPath` takes for a drive: a letter and a colon before Python 3.12, any character and a colon since. */
  datatype Drives = Letters | AnyCharacter

  predicate IsLetter(c: char) {
    'a' <= c <= 'z' || 'A' <= c <= 'Z'
  }

  predicate HasDrive(d: Drives, rel: string) {
    |rel| >= 2 && rel[1] == ':' && (d.AnyCharacter? || IsLetter(rel[0]))
  }

  /** `linter_path_escapes_repo`. */
  predicate EscapesRepo(d: Drives, rel: string) {
    if rel == "" then true
    else if '\\' in rel then true
    else if rel[0] == '/' then true
    else if HasDrive(d, rel) then true
    else
      var parts := Parts(Split(rel, '/'));
      ".." in parts || (exists p :: p in parts && IsGitDir(p)) || parts == []
  }

  /** `PurePosixPath(rel).as_posix()`. */
  function AsPosix(rel: string): string {
    var parts := Parts(Split(rel, '/'));
    if parts == [] then "." else Join(parts, '/')
  }

  // ---- the items of a linters block ----

  const ITEM_KEYS := {"tool", "role", "path", "content", "source", "enabled"}

  /** An entry of `linters.items`. */
  datatype Item = Item(name: string, spec: Tree) {
    predicate Has(key: string) {
      spec.Mapping? && key in spec.entries && spec.entries[key] != Scalar(Null)
    }

    /** The text under `key`, empty unless it is a text. */
    function Text(key: string): string {
      if Has(key) && spec.entries[key].Scalar? && spec.entries[key].atom.Str? then spec.entries[key].atom.s else ""
    }

    function Path(): string {
      Text("path")
    }

    predicate Enabled() {
      !(Has("enabled") && spec.entries["enabled"] == Scalar(Bool(false)))
    }

    predicate GoodRole() {
      Has("role") ==> Text("role") == "linter" || Text("role") == "formatter"
    }

    predicate GoodEnabled()
      requires spec.Mapping?
    {
      "enabled" in spec.entries ==> spec.entries["enabled"].Scalar? && spec.entries["enabled"].atom.Bool?
    }
  }

  // ---- containment ----

  lemma {:induction false} PartsAppend(x: seq<string>, y: seq<string>)
    ensures Parts(x + y) == Parts(x) + Parts(y)
  {
    if x == [] {
      assert x + y == y;
    } else {
      assert (x + y)[1..] == x[1..] + y;
      PartsAppend(x[1..], y);
    }
  }

  /** Without `..`, walking appends the visible components and nothing else. */
  lemma {:induction false} WalkDown(root: Place, components: seq<string>)
    requires ".." !in Parts(components)
    ensures Walk(root, components) == root + Parts(components)
    decreases |components|
  {
    if components != [] {
      var c, rest := components[0], components[1..];
      assert c == "" || c == "." || Parts(components) == [c] + Parts(rest);
      assert ".." !in Parts(rest) by {
        assert forall p :: p in Parts(rest) ==> p in Parts(components);
      }
      WalkDown(Step(root, c), rest);
      if c != "" && c != "." {
        assert c in Parts(components);
        assert root + [c] + Parts(rest) == root + ([c] + Parts(rest));
      }
    }
  }

  lemma InsideAt(root: Place, components: seq<string>, i: nat)
    requires i <= |components| && ".." !in Parts(components)
    requires forall p :: p in Parts(components) ==> !IsGitDir(p)
    ensures var at := Walk(root, components[..i]);
      Under(root, at) && forall k :: |root| <= k < |at| ==> !IsGitDir(at[k])
  {
    var x, y := components[..i], components[i..];
    assert components == x + y;
    PartsAppend(x, y);
    assert forall p :: p in Parts(x) ==> p in Parts(components);
    WalkDown(root, x);
    assert forall k :: |root| <= k < |root + Parts(x)| ==> (root + Parts(x))[k] in Parts(x);
  }

  /**
   * An accepted path never leaves the repository, never enters a `.git`, and ends strictly below the
   * root; wherever the repository is.
   */
  lemma AcceptedStaysInside(d: Drives, root: Place, rel: string)
    requires !EscapesRepo(d, rel)
    ensures StaysInside(root, Split(rel, '/'))
    ensures Locate(root, rel) == root + Parts(Split(rel, '/')) && |root| < |Locate(root, rel)|
  {
    var components := Split(rel, '/');
    forall i | 0 <= i <= |components|
      ensures var at := Walk(root, components[..i]);
        Under(root, at) && forall k :: |root| <= k < |at| ==> !IsGitDir(at[k])
    {
      InsideAt(root, components, i);
    }
    WalkDown(root, components);
  }

  lemma {:induction false} PartsMembers(components: seq<string>, p: string)
    ensures p in Parts(components) <==> p in components && p != "" && p != "."
  {
    if components != [] {
      PartsMembers(components[1..], p);
      assert p in components <==> p == components[0] || p in components[1..];
    }
  }

  /** Without a `..` to turn the walk back, a path is refused only for a reason one can point at. */
  lemma RefusedForAReason(d: Drives, root: Place, rel: string)
    requires EscapesRepo(d, rel) && ".." !in Split(rel, '/')
    ensures rel == "" || '\\' in rel || rel[0] == '/' || HasDrive(d, rel)
      || Locate(root, rel) == root
      || exists k :: |root| <= k < |Locate(root, rel)| && IsGitDir(Locate(root, rel)[k])
  {
    var components := Split(rel, '/');
    var parts := Parts(components);
    PartsMembers(components, "..");
    if rel != "" && rel[0] != '/' {
      WalkDown(root, components);
      if p :| p in parts && IsGitDir(p) {
        var k :| 0 <= k < |parts| && parts[k] == p;
        assert Locate(root, rel)[|root| + k] == p;
      }
    }
  }

  // ---- distinct targets ----

  lemma {:induction false} PartsFree(components: seq<string>)
    requires Free(components, '/')
    ensures Free(Parts(components), '/')
  {
    forall p | p in Parts(components) ensures '/' !in p {
      PartsMembers(components, p);
    }
  }

  /** The normalized text tells locations apart: equal texts are equal places. */
  lemma PosixIsPlace(d: Drives, root: Place, x: string, y: string)
    requires !EscapesRepo(d, x) && !EscapesRepo(d, y)
    ensures AsPosix(x) == AsPosix(y) <==> Locate(root, x) == Locate(root, y)
  {
    AcceptedStaysInside(d, root, x);
    AcceptedStaysInside(d, root, y);
    var p, q := Parts(Split(x, '/')), Parts(Split(y, '/'));
    SplitIsFree(x, '/');
    SplitIsFree(y, '/');
    PartsFree(Split(x, '/'));
    PartsFree(Split(y, '/'));
    if AsPosix(x) == AsPosix(y) {
      JoinInjective(p, q, '/');
    }
    assert (root + p)[|root|..] == p && (root + q)[|root|..] == q;
  }

  predicate Padded(s: string) {
    Strip(s) != s
  }

  /** The item is acceptable by itself. */
  predicate GoodItem(d: Drives, i: Item) {
    && i.spec.Mapping? && i.spec.entries.Keys <= ITEM_KEYS
    && i.Text("tool") != "" && i.Path() != ""
    && i.Has("content") != i.Has("source")
    && (if i.Has("content") then i.Text("content") != "" else SafeSource(d, i.Text("source")))
    && !Padded(i.Path()) && !EscapesRepo(d, i.Path())
    && i.GoodRole() && i.GoodEnabled()
  }

  predicate SafeSource(d: Drives, s: string) {
    s != "" && !Padded(s) && !EscapesRepo(d, s)
  }

  /** Two enabled items provision the same place. */
  ghost predicate Collide(root: Place, x: Item, y: Item) {
    x.Enabled() && y.Enabled() && Locate(root, x.Path()) == Locate(root, y.Path())
  }

  ghost predicate GoodTargets(d: Drives, root: Place, items: seq<Item>) {
    && (forall i :: 0 <= i < |items| ==> GoodItem(d, items[i]))
    && forall i, j :: 0 <= i < j < |items| ==> !Collide(root, items[i], items[j])
  }

  /** The same, in the terms of the program. */
  predicate Clash(x: Item, y: Item) {
    x.Enabled() && y.Enabled() && AsPosix(x.Path()) == AsPosix(y.Path())
  }

  ghost predicate ClashesWithNone(items: seq<Item>, j: nat)
    requires j < |items|
  {
    forall i :: 0 <= i < j ==> !Clash(items[i], items[j])
  }

  ghost predicate GoodFirst(d: Drives, items: seq<Item>, n: nat)
    requires n <= |items|
  {
    forall j :: 0 <= j < n ==> GoodItem(d, items[j]) && ClashesWithNone(items, j)
  }

  /** `seen` holds the normalized targets of the enabled items among the first `n`. */
  ghost predicate SeenFirst(seen: map<string, string>, items: seq<Item>, n: nat)
    requires n <= |items|
  {
    && (forall k :: 0 <= k < n && items[k].Enabled() ==> AsPosix(items[k].Path()) in seen)
    && forall p :: p in seen ==> exists k :: 0 <= k < n && items[k].Enabled() && AsPosix(items[k].Path()) == p
  }

  lemma SeenOne(seen: map<string, string>, items: seq<Item>, n: nat)
    requires n < |items| && SeenFirst(seen, items, n) && items[n].Enabled()
    ensures SeenFirst(seen[AsPosix(items[n].Path()) := items[n].name], items, n + 1)
  {
  }

  lemma SeenNone(seen: map<string, string>, items: seq<Item>, n: nat)
    requires n < |items| && SeenFirst(seen, items, n) && !items[n].Enabled()
    ensures SeenFirst(seen, items, n + 1)
  {
  }

  lemma ExtendGood(d: Drives, seen: map<string, string>, items: seq<Item>, n: nat)
    requires n < |items| && SeenFirst(seen, items, n) && GoodFirst(d, items, n) && GoodItem(d, items[n])
    requires items[n].Enabled() ==> AsPosix(items[n].Path()) !in seen
    ensures GoodFirst(d, items, n + 1)
  {
    NewTarget(seen, items, n);
    forall j | 0 <= j < n + 1 ensures GoodItem(d, items[j]) && ClashesWithNone(items, j) {
      assert j < n || j == n;
    }
  }

  lemma NewTarget(seen: map<string, string>, items: seq<Item>, n: nat)
    requires n < |items| && SeenFirst(seen, items, n)
    requires items[n].Enabled() ==> AsPosix(items[n].Path()) !in seen
    ensures ClashesWithNone(items, n)
  {
    forall k | 0 <= k < n ensures !Clash(items[k], items[n]) {
      var p := AsPosix(items[k].Path());
      assert items[k].Enabled() ==> p in seen;
    }
  }

  lemma ClashIsCollision(d: Drives, root: Place, items: seq<Item>)
    ensures GoodFirst(d, items, |items|) <==> GoodTargets(d, root, items)
  {
    if forall i :: 0 <= i < |items| ==> GoodItem(d, items[i]) {
      forall i, j | 0 <= i < j < |items| ensures Clash(items[i], items[j]) <==> Collide(root, items[i], items[j]) {
        PosixIsPlace(d, root, items[i].Path(), items[j].Path());
      }
      assert GoodTargets(d, root, items) <==> forall i, j :: 0 <= i < j < |items| ==> !Clash(items[i], items[j]);
    }
  }

  /** The checks of one item, in the order of the source. */
  method CheckItem(d: Drives, item: Item) returns (ok: bool)
    ensures ok <==> GoodItem(d, item)
  {
    if !item.spec.Mapping? {
      return false;
    }
    if exists key :: key in item.spec.entries && key !in ITEM_KEYS {
      return false;
    }
    if item.Text("tool") == "" || item.Text("path") == "" {
      return false;
    }
    if item.Has("content") == item.Has("source") {
      return false;
    }
    var desired := if item.Has("content") then item.Text("content") else item.Text("source");
    if desired == "" {
      return false;
    }
    if item.Has("source") && (desired != Strip(desired) || EscapesRepo(d, desired)) {
      return false;
    }
    var rel := item.Path();
    if rel != Strip(rel) || EscapesRepo(d, rel) {
      return false;
    }
    if item.Has("role") && item.Text("role") != "linter" && item.Text("role") != "formatter" {
      return false;
    }
    return item.GoodEnabled();
  }

  /**
   * The items of `_validate_linters`, one by one with `seen_paths`: accepted exactly when every item is
   * acceptable and all enabled ones are pairwise different places.
   */
  method ValidateItems(d: Drives, items: seq<Item>, ghost root: Place) returns (ok: bool)
    ensures ok <==> GoodTargets(d, root, items)
  {
    ClashIsCollision(d, root, items);
    var seen: map<string, string> := map[];
    for n := 0 to |items|
      invariant SeenFirst(seen, items, n) && GoodFirst(d, items, n)
    {
      var item := items[n];
      var good := CheckItem(d, item);
      if !good {
        return false;
      }
      if item.Enabled() {
        var norm := AsPosix(item.Path());
        if norm in seen {
          var k :| 0 <= k < n && items[k].Enabled() && AsPosix(items[k].Path()) == norm;
          assert Clash(items[k], items[n]) && !ClashesWithNone(items, n);
          return false;
        }
        ExtendGood(d, seen, items, n);
        SeenOne(seen, items, n);
        seen := seen[norm := item.name];
      } else {
        ExtendGood(d, seen, items, n);
        SeenNone(seen, items, n);
      }
    }
    return true;
  }
}
