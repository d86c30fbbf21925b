/** Configuration trees, dotted paths, deep merge and targeted edits (riglib/config.py). */
module ConfigTree {
  import opened Text

  datatype Atom = Null | Bool(b: bool) | Int(n: int) | Float(text: string) | Str(s: string)

  datatype Tree =
    | Mapping(entries: map<string, Tree>)
    | Listing(items: seq<Tree>)
    | Scalar(atom: Atom)

  type Entries = map<string, Tree>

  // ---- dotted paths ----

  function StripAll(parts: seq<string>): (r: seq<string>)
    ensures |r| == |parts| && forall i :: 0 <= i < |r| ==> r[i] == Strip(parts[i])
  {
    seq(|parts|, i requires 0 <= i < |parts| => Strip(parts[i]))
  }

  /** `split_path`; `None` stands for the ConfigError. */
  function SplitPath(dotted: string): Option<seq<string>> {
    var parts := StripAll(Split(dotted, '.'));
    if Strip(dotted) == "" || "" in parts then None else Some(parts)
  }

  /** A list of path segments as `split_path` yields them. */
  predicate Segments(parts: seq<string>) {
    parts != [] && forall p :: p in parts ==> p != "" && Trimmed(p) && '.' !in p
  }

  lemma SplitPathSegments(dotted: string)
    ensures SplitPath(dotted).Some? ==> Segments(SplitPath(dotted).value)
  {
    if SplitPath(dotted).Some? {
      var raw, parts := Split(dotted, '.'), SplitPath(dotted).value;
      SplitIsFree(dotted, '.');
      forall p | p in parts ensures p != "" && Trimmed(p) && '.' !in p {
        var i :| 0 <= i < |parts| && parts[i] == p;
        StripSurrounds(raw[i]);
        assert raw[i] in raw;
        StripWithin(raw[i], '.');
      }
    }
  }

  lemma StripWithin(s: string, c: char)
    requires c !in s
    ensures c !in Strip(s)
  {
    var t := Strip(s);
    var lo := SkipSpaces(s, 0);
    forall i | 0 <= i < |t| ensures t[i] != c {
      assert t[i] == s[lo + i];
    }
  }

  /** The canonical form of an accepted path is accepted and means the same segments. */
  lemma CanonicalPath(dotted: string)
    requires SplitPath(dotted).Some?
    ensures SplitPath(Join(SplitPath(dotted).value, '.')) == SplitPath(dotted)
  {
    SplitPathSegments(dotted);
    SplitPathOfJoin(SplitPath(dotted).value);
  }

  lemma SplitPathOfJoin(parts: seq<string>)
    requires Segments(parts)
    ensures SplitPath(Join(parts, '.')) == Some(parts)
  {
    SplitJoin(parts, '.');
    forall i | 0 <= i < |parts| ensures Strip(parts[i]) == parts[i] {
      assert parts[i] in parts;
      StripTrimmed(parts[i]);
    }
    assert StripAll(parts) == parts;
    JoinVisible(parts);
  }

  lemma JoinVisible(parts: seq<string>)
    requires Segments(parts)
    ensures Strip(Join(parts, '.')) != ""
  {
    var s := Join(parts, '.');
    assert parts[0] in parts;
    assert s[0] == parts[0][0] && !IsSpace(s[0]);
    var lo := SkipSpaces(s, 0);
    assert lo == 0;
    var hi := TrimSpaces(s, lo, |s|);
    assert hi != 0;
  }

  // ---- lookups ----

  function Lookup(t: Entries, path: seq<string>): Option<Tree>
    requires path != []
    decreases |path|
  {
    if path[0] !in t then None
    else if |path| == 1 then Some(t[path[0]])
    else if t[path[0]].Mapping? then Lookup(t[path[0]].entries, path[1..])
    else None
  }

  /** Something other than a mapping stands on the way to `path`. */
  predicate Breaks(t: Entries, path: seq<string>)
    requires path != []
    decreases |path|
  {
    |path| > 1 && path[0] in t && (!t[path[0]].Mapping? || Breaks(t[path[0]].entries, path[1..]))
  }

  /** `get_path`: walk the segments; `None` stands for the ConfigError. */
  method GetPath(data: Entries, dotted: string) returns (r: Option<Tree>)
    ensures r == if SplitPath(dotted).Some? then Lookup(data, SplitPath(dotted).value) else None
  {
    var split := SplitPath(dotted);
    if split == None {
      return None;
    }
    SplitPathSegments(dotted);
    var parts := split.value;
    var node := Mapping(data);
    for i := 0 to |parts|
      invariant i < |parts| ==> Lookup(data, parts) == if node.Mapping? then Lookup(node.entries, parts[i..]) else None
      invariant i == |parts| ==> Lookup(data, parts) == Some(node)
    {
      if !node.Mapping? || parts[i] !in node.entries {
        return None;
      }
      assert parts[i..][1..] == parts[i + 1..];
      node := node.entries[parts[i]];
    }
    return Some(node);
  }

  // ---- deep merge ----

  function MergeAt(b: Entries, o: Entries, k: string): Tree
    requires k in b || k in o
    decreases Mapping(o), 0
  {
    if k !in o then b[k]
    else if k in b && b[k].Mapping? && o[k].Mapping? then Mapping(Merge(b[k].entries, o[k].entries))
    else o[k]
  }

  /** Recursive merge; `o` wins, and anything but a pair of mappings is replaced wholesale. */
  function Merge(b: Entries, o: Entries): Entries
    decreases Mapping(o), 1
  {
    map k | k in b.Keys + o.Keys :: MergeAt(b, o, k)
  }

  /** `_deep_merge`: fills a copy of `base` one key of `over` at a time. */
  method DeepMerge(base: Entries, over: Entries) returns (out: Entries)
    ensures out == Merge(base, over)
    decreases Mapping(over)
  {
    out := base;
    var todo := over.Keys;
    while todo != {}
      invariant todo <= over.Keys && out.Keys == base.Keys + (over.Keys - todo)
      invariant forall k :: k in out ==> out[k] == if k in todo then base[k] else MergeAt(base, over, k)
      decreases todo
    {
      var k :| k in todo;
      if k in out && out[k].Mapping? && over[k].Mapping? {
        var merged := DeepMerge(out[k].entries, over[k].entries);
        out := out[k := Mapping(merged)];
      } else {
        out := out[k := over[k]];
      }
      todo := todo - {k};
    }
    assert out == Merge(base, over);
  }

  /**
   * Every lookup in a merge: the over-layer decides where it declares the path or breaks a mapping
   * above it, two mappings merge, and the base decides everything else.
   */
  lemma {:induction false} MergeLookup(b: Entries, o: Entries, path: seq<string>)
    requires path != []
    ensures Lookup(Merge(b, o), path) ==
      match Lookup(o, path)
      case None => if Breaks(o, path) then None else Lookup(b, path)
      case Some(t) =>
        if t.Mapping? && Lookup(b, path).Some? && Lookup(b, path).value.Mapping?
        then Some(Mapping(Merge(Lookup(b, path).value.entries, t.entries)))
        else Some(t)
    decreases |path|
  {
    var k, m := path[0], Merge(b, o);
    if k in b || k in o {
      assert m[k] == MergeAt(b, o, k);
    }
    if |path| > 1 && k in o && o[k].Mapping? {
      var rest := path[1..];
      if k in b && b[k].Mapping? {
        MergeLookup(b[k].entries, o[k].entries, rest);
      } else {
        assert m[k] == o[k];
      }
    }
  }

  lemma MergeEmpty(t: Entries)
    ensures Merge(t, map[]) == t && Merge(map[], t) == t
  {
  }

  lemma {:induction false} MergeIdempotent(t: Entries)
    ensures Merge(t, t) == t
    decreases Mapping(t)
  {
    forall k | k in t ensures MergeAt(t, t, k) == t[k] {
      if t[k].Mapping? {
        MergeIdempotent(t[k].entries);
      }
    }
  }

  /** Applying the last layer again changes nothing. */
  lemma {:induction false} MergeAgain(b: Entries, o: Entries)
    ensures Merge(Merge(b, o), o) == Merge(b, o)
    decreases Mapping(o)
  {
    forall k | k in b || k in o ensures MergeAt(Merge(b, o), o, k) == MergeAt(b, o, k) {
      if k in o && o[k].Mapping? {
        if k in b && b[k].Mapping? {
          MergeAgain(b[k].entries, o[k].entries);
        } else {
          MergeIdempotent(o[k].entries);
        }
      }
      MergeAgainAt(b, o, k);
    }
    SameMerge(Merge(b, o), o, b, o);
  }

  /** One key of the last layer, applied again. */
  lemma MergeAgainAt(b: Entries, o: Entries, k: string)
    requires k in b || k in o
    requires k in o && o[k].Mapping? ==>
      if k in b && b[k].Mapping? then
        Merge(Merge(b[k].entries, o[k].entries), o[k].entries) == Merge(b[k].entries, o[k].entries)
      else Merge(o[k].entries, o[k].entries) == o[k].entries
    ensures MergeAt(Merge(b, o), o, k) == MergeAt(b, o, k)
  {
    assert Merge(b, o)[k] == MergeAt(b, o, k);
  }

  /** Two merges with the same keys are equal exactly when they agree key by key. */
  lemma SameMerge(a: Entries, b: Entries, c: Entries, d: Entries)
    requires a.Keys + b.Keys == c.Keys + d.Keys
    ensures Merge(a, b) == Merge(c, d) <==> forall k :: k in a || k in b ==> MergeAt(a, b, k) == MergeAt(c, d, k)
  {
    forall k | k in a || k in b ensures k in Merge(a, b) && k in Merge(c, d) && (c.Keys + d.Keys) >= {k} {
      assert k in c.Keys + d.Keys;
    }
    if Merge(a, b) == Merge(c, d) {
      forall k | k in a || k in b ensures MergeAt(a, b, k) == MergeAt(c, d, k) {
        assert Merge(a, b)[k] == Merge(c, d)[k];
      }
    }
  }

  // ---- when may layers be grouped differently? ----

  /** Every path of `a` is declared by `c` again, or cut off by it. */
  predicate Covers(a: Entries, c: Entries)
    decreases Mapping(a)
  {
    forall k :: k in a ==> k in c && (a[k].Mapping? && c[k].Mapping? ==> Covers(a[k].entries, c[k].entries))
  }

  /** Wherever `b` replaces a mapping of `a` by something else and `c` by a mapping again, `c` declares all that `a` did. */
  predicate Groupable(a: Entries, b: Entries, c: Entries)
    decreases Mapping(b), 1
  {
    forall k :: k in b ==> GroupableAt(a, b, c, k)
  }

  predicate GroupableAt(a: Entries, b: Entries, c: Entries, k: string)
    decreases Mapping(b), 0
  {
    k in a && k in b && k in c && a[k].Mapping? && c[k].Mapping? ==>
      if b[k].Mapping? then Groupable(a[k].entries, b[k].entries, c[k].entries) else Covers(a[k].entries, c[k].entries)
  }

  /** A layer wins entirely exactly when it covers what is below it. */
  lemma {:induction false} CoveringWins(a: Entries, c: Entries)
    ensures Merge(a, c) == c <==> Covers(a, c)
    decreases Mapping(a)
  {
    forall k | k in a && k in c && a[k].Mapping? && c[k].Mapping?
      ensures MergeAt(a, c, k) == c[k] <==> Covers(a[k].entries, c[k].entries)
    {
      CoveringWins(a[k].entries, c[k].entries);
    }
    if Merge(a, c) == c {
      forall k | k in a ensures k in c && MergeAt(a, c, k) == c[k] {
        assert k in Merge(a, c) && Merge(a, c)[k] == MergeAt(a, c, k);
      }
    }
    if Covers(a, c) {
      forall k | k in Merge(a, c) ensures k in c && MergeAt(a, c, k) == c[k] {
      }
    }
  }

  /** The two groupings at one key. */
  lemma GroupedAt(a: Entries, b: Entries, c: Entries, k: string)
    requires k in a || k in b || k in c
    ensures
      var left, right := MergeAt(Merge(a, b), c, k), MergeAt(a, Merge(b, c), k);
      if k in a && k in b && k in c && a[k].Mapping? && c[k].Mapping? then
        if b[k].Mapping? then
          && left == Mapping(Merge(Merge(a[k].entries, b[k].entries), c[k].entries))
          && right == Mapping(Merge(a[k].entries, Merge(b[k].entries, c[k].entries)))
        else left == c[k] && right == Mapping(Merge(a[k].entries, c[k].entries))
      else left == right
  {
    assert k in a || k in b ==> Merge(a, b)[k] == MergeAt(a, b, k);
    assert k in b || k in c ==> Merge(b, c)[k] == MergeAt(b, c, k);
  }

  /** Merging is associative exactly on groupable layers. */
  lemma {:induction false} GroupingIsExact(a: Entries, b: Entries, c: Entries)
    ensures Merge(Merge(a, b), c) == Merge(a, Merge(b, c)) <==> Groupable(a, b, c)
    decreases Mapping(b)
  {
    forall k | k in a || k in b || k in c
      ensures MergeAt(Merge(a, b), c, k) == MergeAt(a, Merge(b, c), k) <==> GroupableAt(a, b, c, k)
    {
      GroupedAt(a, b, c, k);
      if k in a && k in b && k in c && a[k].Mapping? && c[k].Mapping? {
        if b[k].Mapping? {
          GroupingIsExact(a[k].entries, b[k].entries, c[k].entries);
        } else {
          CoveringWins(a[k].entries, c[k].entries);
        }
      }
    }
    SameMerge(Merge(a, b), c, a, Merge(b, c));
  }

  /** Layers must be folded left to right: merging is not associative across a broken mapping. */
  lemma MergeIsNotAssociative(k: string, x: string, y: string, v: Tree, w: Tree, s: Atom)
    requires x != y
    ensures var a, b, c := map[k := Mapping(map[x := v])], map[k := Scalar(s)], map[k := Mapping(map[y := w])];
      Merge(Merge(a, b), c) != Merge(a, Merge(b, c))
  {
    var a: Entries := map[k := Mapping(map[x := v])];
    var b: Entries := map[k := Scalar(s)];
    var c: Entries := map[k := Mapping(map[y := w])];
    assert MergeAt(a, b, k) == Scalar(s) && Merge(a, b) == b;
    assert MergeAt(b, c, k) == c[k] && Merge(b, c) == c;
    var inner := Merge(map[x := v], map[y := w]);
    assert x in inner;
    assert Merge(a, c)[k] == MergeAt(a, c, k) == Mapping(inner);
    assert x !in c[k].entries;
  }

  // ---- set_path ----

  /** Set `parts` to `v`, creating mappings on the way; `None` stands for the ConfigError. */
  function Put(t: Entries, parts: seq<string>, v: Tree): Option<Entries>
    requires parts != []
    decreases |parts|
  {
    var k := parts[0];
    if |parts| == 1 then Some(t[k := v])
    else if k in t && !t[k].Mapping? then None
    else
      match Put(if k in t then t[k].entries else map[], parts[1..], v)
      case None => None
      case Some(inner) => Some(t[k := Mapping(inner)])
  }

  function OnePath(parts: seq<string>, v: Tree): Entries
    requires parts != []
    decreases |parts|
  {
    if |parts| == 1 then map[parts[0] := v] else map[parts[0] := Mapping(OnePath(parts[1..], v))]
  }

  lemma {:induction false} PutFails(t: Entries, parts: seq<string>, v: Tree)
    requires parts != []
    ensures Put(t, parts, v).None? <==> Breaks(t, parts)
    decreases |parts|
  {
    if |parts| > 1 {
      var k := parts[0];
      if k !in t {
        PutFails(map[], parts[1..], v);
      } else if t[k].Mapping? {
        PutFails(t[k].entries, parts[1..], v);
      }
    }
  }

  lemma MergeOneKey(t: Entries, k: string, x: Tree)
    ensures Merge(t, map[k := x]) ==
      t[k := if k in t && t[k].Mapping? && x.Mapping? then Mapping(Merge(t[k].entries, x.entries)) else x]
  {
    var o: Entries := map[k := x];
    forall j | j in t && j != k ensures MergeAt(t, o, j) == t[j] {
      assert j !in o;
    }
  }

  /** A successful edit with a value is the merge with the one-path tree. */
  lemma {:induction false} PutIsMerge(t: Entries, parts: seq<string>, v: Tree)
    requires parts != [] && Put(t, parts, v).Some? && !v.Mapping?
    ensures Put(t, parts, v).value == Merge(t, OnePath(parts, v))
    decreases |parts|
  {
    if |parts| == 1 {
      MergeOneKey(t, parts[0], v);
    } else {
      var inner: Entries := if parts[0] in t then t[parts[0]].entries else map[];
      PutIsMerge(inner, parts[1..], v);
      MergeEmpty(OnePath(parts[1..], v));
      MergeOneKey(t, parts[0], Mapping(OnePath(parts[1..], v)));
    }
  }

  lemma {:induction false} PutReads(t: Entries, parts: seq<string>, v: Tree)
    requires parts != [] && Put(t, parts, v).Some?
    ensures Lookup(Put(t, parts, v).value, parts) == Some(v)
    decreases |parts|
  {
    if |parts| > 1 {
      PutReads(if parts[0] in t then t[parts[0]].entries else map[], parts[1..], v);
    }
  }

  /** An edit is local: paths that are neither a prefix nor an extension of the edited one keep their value. */
  lemma {:induction false} PutIsLocal(t: Entries, parts: seq<string>, v: Tree, q: seq<string>)
    requires parts != [] && q != [] && Put(t, parts, v).Some? && !(parts <= q) && !(q <= parts)
    ensures Lookup(Put(t, parts, v).value, q) == Lookup(t, q)
    decreases |parts|
  {
    if parts[0] == q[0] {
      assert |parts| > 1 && |q| > 1;
      var inner: Entries := if parts[0] in t then t[parts[0]].entries else map[];
      assert parts == [parts[0]] + parts[1..] && q == [q[0]] + q[1..];
      PutIsLocal(inner, parts[1..], v, q[1..]);
    }
  }

  /** Below a declared path the lookup goes on in the value found there. */
  lemma {:induction false} LookupBelow(t: Entries, path: seq<string>, rest: seq<string>)
    requires path != [] && rest != []
    ensures Lookup(t, path + rest) == match Lookup(t, path)
      case None => None
      case Some(x) => if x.Mapping? then Lookup(x.entries, rest) else None
    decreases |path|
  {
    assert (path + rest)[1..] == path[1..] + rest;
    if |path| == 1 {
      assert path[1..] + rest == rest;
    } else if path[0] in t && t[path[0]].Mapping? {
      LookupBelow(t[path[0]].entries, path[1..], rest);
    }
  }

  /** Configurations that read the same at every path are the same. */
  lemma LookupsDecide(a: Entries, b: Entries)
    requires forall path: seq<string> | path != [] :: Lookup(a, path) == Lookup(b, path)
    ensures a == b
  {
    forall k ensures k in a <==> k in b
      ensures k in a ==> a[k] == b[k]
    {
      assert Lookup(a, [k]) == Lookup(b, [k]);
    }
  }

  /** `q` is neither a prefix of `parts` nor an extension of it. */
  predicate Beside(parts: seq<string>, q: seq<string>) {
    !(parts <= q) && !(q <= parts)
  }

  /** Both read `v` at `parts`, and they read the same at all paths beside it. */
  ghost predicate SameBeside(a: Entries, b: Entries, parts: seq<string>, v: Tree)
    requires parts != []
  {
    && Lookup(a, parts) == Lookup(b, parts) == Some(v)
    && forall q: seq<string> | q != [] && Beside(parts, q) :: Lookup(a, q) == Lookup(b, q)
  }

  lemma {:induction false} AbovePath(t: Entries, path: seq<string>, v: Tree, n: nat)
    requires path != [] && Lookup(t, path) == Some(v) && 0 < n < |path|
    ensures Lookup(t, path[..n]).Some? && Lookup(t, path[..n]).value.Mapping?
  {
    LookupBelow(t, path[..n], path[n..]);
    assert path[..n] + path[n..] == path;
  }

  lemma SameAtOrBelow(a: Entries, b: Entries, parts: seq<string>, v: Tree, q: seq<string>)
    requires parts != [] && q != [] && SameBeside(a, b, parts, v) && !(q <= parts && q != parts)
    ensures Lookup(a, q) == Lookup(b, q)
  {
    if parts <= q && q != parts {
      assert q == parts + q[|parts|..];
      LookupBelow(a, parts, q[|parts|..]);
      LookupBelow(b, parts, q[|parts|..]);
    }
  }

  lemma {:induction false} SameAbove(a: Entries, b: Entries, parts: seq<string>, v: Tree, n: nat)
    requires parts != [] && SameBeside(a, b, parts, v) && 0 < n <= |parts|
    ensures Lookup(a, parts[..n]) == Lookup(b, parts[..n])
    decreases |parts| - n, 1
  {
    assert parts[..|parts|] == parts;
    if n < |parts| {
      var p := parts[..n];
      AbovePath(a, parts, v, n);
      AbovePath(b, parts, v, n);
      var x, y := Lookup(a, p).value.entries, Lookup(b, p).value.entries;
      forall r: seq<string> | r != [] ensures Lookup(x, r) == Lookup(y, r) {
        SameInside(a, b, parts, v, n, r);
        LookupBelow(a, p, r);
        LookupBelow(b, p, r);
      }
      LookupsDecide(x, y);
    }
  }

  /** Inside the mapping above the edited path. */
  lemma {:induction false} SameInside(a: Entries, b: Entries, parts: seq<string>, v: Tree, n: nat, r: seq<string>)
    requires parts != [] && SameBeside(a, b, parts, v) && 0 < n < |parts| && r != []
    ensures Lookup(a, parts[..n] + r) == Lookup(b, parts[..n] + r)
    decreases |parts| - n, 0
  {
    var q := parts[..n] + r;
    if q <= parts && q != parts {
      assert q == parts[..|q|];
      SameAbove(a, b, parts, v, |q|);
    } else {
      SameAtOrBelow(a, b, parts, v, q);
    }
  }

  /** What is read at one path and beside it leaves no freedom. */
  lemma SameBesideIsSame(a: Entries, b: Entries, parts: seq<string>, v: Tree)
    requires parts != [] && SameBeside(a, b, parts, v)
    ensures a == b
  {
    forall q: seq<string> | q != [] ensures Lookup(a, q) == Lookup(b, q) {
      if q <= parts && q != parts {
        assert q == parts[..|q|];
        SameAbove(a, b, parts, v, |q|);
      } else {
        SameAtOrBelow(a, b, parts, v, q);
      }
    }
    LookupsDecide(a, b);
  }

  // ---- the in-place walk ----

  /** The mapping at `path`, the root for the empty path. */
  function NodeAt(t: Entries, path: seq<string>): Option<Entries>
    decreases |path|
  {
    if path == [] then Some(t)
    else if path[0] in t && t[path[0]].Mapping? then NodeAt(t[path[0]].entries, path[1..])
    else None
  }

  /** Replace the entries of the mapping at `path`. */
  function ReplaceAt(t: Entries, path: seq<string>, node: Entries): Entries
    requires NodeAt(t, path).Some?
    decreases |path|
  {
    if path == [] then node
    else t[path[0] := Mapping(ReplaceAt(t[path[0]].entries, path[1..], node))]
  }

  lemma {:induction false} ReplaceReads(t: Entries, path: seq<string>, node: Entries)
    requires NodeAt(t, path).Some?
    ensures NodeAt(ReplaceAt(t, path, node), path) == Some(node)
    decreases |path|
  {
    if path != [] {
      ReplaceReads(t[path[0]].entries, path[1..], node);
    }
  }

  lemma {:induction false} NodeAtExtend(t: Entries, path: seq<string>, k: string)
    requires NodeAt(t, path).Some?
    ensures NodeAt(t, path + [k]) == var node := NodeAt(t, path).value;
      if k in node && node[k].Mapping? then Some(node[k].entries) else None
    decreases |path|
  {
    if path == [] {
      assert path + [k] == [k];
      assert [k][1..] == [];
    } else {
      assert (path + [k])[1..] == path[1..] + [k];
      NodeAtExtend(t[path[0]].entries, path[1..], k);
    }
  }

  /** Putting below an existing mapping is putting into that mapping. */
  lemma {:induction false} PutBelow(t: Entries, path: seq<string>, rest: seq<string>, v: Tree)
    requires NodeAt(t, path).Some? && rest != []
    ensures var node := NodeAt(t, path).value;
      && Put(t, path + rest, v).Some? == Put(node, rest, v).Some?
      && (Put(node, rest, v).Some? ==> Put(t, path + rest, v).value == ReplaceAt(t, path, Put(node, rest, v).value))
    decreases |path|
  {
    if path == [] {
      assert path + rest == rest;
    } else {
      assert (path + rest)[1..] == path[1..] + rest;
      PutBelow(t[path[0]].entries, path[1..], rest, v);
    }
  }

  lemma {:induction false} ReplaceTwice(t: Entries, path: seq<string>, x: Entries, y: Entries)
    requires NodeAt(t, path).Some?
    ensures NodeAt(ReplaceAt(t, path, x), path).Some?
    ensures ReplaceAt(ReplaceAt(t, path, x), path, y) == ReplaceAt(t, path, y)
    decreases |path|
  {
    if path != [] {
      ReplaceTwice(t[path[0]].entries, path[1..], x, y);
    }
  }

  /** Creating the empty mapping that the next step needs does not change where the edit ends. */
  lemma CreateOnTheWay(t: Entries, path: seq<string>, k: string, rest: seq<string>, v: Tree)
    requires NodeAt(t, path).Some? && k !in NodeAt(t, path).value && rest != []
    ensures var made := ReplaceAt(t, path, NodeAt(t, path).value[k := Mapping(map[])]);
      Put(made, path + ([k] + rest), v) == Put(t, path + ([k] + rest), v)
  {
    var node := NodeAt(t, path).value;
    var created := node[k := Mapping(map[])];
    var made := ReplaceAt(t, path, created);
    ReplaceReads(t, path, created);
    PutBelow(made, path, [k] + rest, v);
    PutBelow(t, path, [k] + rest, v);
    assert ([k] + rest)[1..] == rest;
    assert Put(created, [k] + rest, v).Some? == Put(node, [k] + rest, v).Some?;
    if Put(node, [k] + rest, v).Some? {
      var done := Put(node, [k] + rest, v).value;
      assert Put(created, [k] + rest, v).value == done;
      ReplaceTwice(t, path, created, done);
    }
  }

  /** The walk has reached the mapping at `parts[..i]`; whatever it created so far is an empty mapping there. */
  ghost predicate Walking(was: Entries, now: Entries, parts: seq<string>, i: nat, v: Tree)
    requires i < |parts|
  {
    && NodeAt(now, parts[..i]).Some?
    && Put(now, parts, v) == Put(was, parts, v)
    && (now == was || NodeAt(now, parts[..i]).value == map[])
  }

  lemma WalkInto(was: Entries, now: Entries, parts: seq<string>, i: nat, v: Tree)
    requires i + 1 < |parts| && Walking(was, now, parts, i, v)
    requires var node := NodeAt(now, parts[..i]).value; parts[i] in node && node[parts[i]].Mapping?
    ensures Walking(was, now, parts, i + 1, v)
  {
    assert parts[..i + 1] == parts[..i] + [parts[i]];
    NodeAtExtend(now, parts[..i], parts[i]);
  }

  lemma WalkCreate(was: Entries, now: Entries, parts: seq<string>, i: nat, v: Tree)
    requires i + 1 < |parts| && Walking(was, now, parts, i, v) && parts[i] !in NodeAt(now, parts[..i]).value
    ensures Walking(was, ReplaceAt(now, parts[..i], NodeAt(now, parts[..i]).value[parts[i] := Mapping(map[])]), parts, i + 1, v)
  {
    var created := NodeAt(now, parts[..i]).value[parts[i] := Mapping(map[])];
    assert parts == parts[..i] + ([parts[i]] + parts[i + 1..]);
    CreateOnTheWay(now, parts[..i], parts[i], parts[i + 1..], v);
    ReplaceReads(now, parts[..i], created);
    assert parts[..i + 1] == parts[..i] + [parts[i]];
    NodeAtExtend(ReplaceAt(now, parts[..i], created), parts[..i], parts[i]);
  }

  lemma WalkBlocked(was: Entries, now: Entries, parts: seq<string>, i: nat, v: Tree)
    requires i + 1 < |parts| && Walking(was, now, parts, i, v)
    requires var node := NodeAt(now, parts[..i]).value; parts[i] in node && !node[parts[i]].Mapping?
    ensures now == was && Breaks(was, parts)
  {
    var rest := [parts[i]] + parts[i + 1..];
    assert parts == parts[..i] + rest;
    PutBelow(now, parts[..i], rest, v);
    PutFails(was, parts, v);
  }

  lemma WalkEnd(was: Entries, now: Entries, parts: seq<string>, v: Tree)
    requires parts != [] && Walking(was, now, parts, |parts| - 1, v)
    ensures var path, node := parts[..|parts| - 1], NodeAt(now, parts[..|parts| - 1]).value;
      Put(was, parts, v) == Some(ReplaceAt(now, path, node[parts[|parts| - 1] := v]))
    ensures !Breaks(was, parts)
  {
    assert parts == parts[..|parts| - 1] + [parts[|parts| - 1]];
    PutBelow(now, parts[..|parts| - 1], [parts[|parts| - 1]], v);
    PutFails(was, parts, v);
  }

  class ConfigDocument {
    var data: Entries

    constructor (data: Entries)
      ensures this.data == data
    {
      this.data := data;
    }

    /** `set_path`: false stands for the ConfigError, and then nothing has changed. */
    method SetPath(dotted: string, value: Tree) returns (ok: bool)
      modifies this
      ensures ok <==> SplitPath(dotted).Some? && !Breaks(old(data), SplitPath(dotted).value)
      ensures ok ==> Put(old(data), SplitPath(dotted).value, value) == Some(data)
      ensures !ok ==> data == old(data)
    {
      var split := SplitPath(dotted);
      if split == None {
        return false;
      }
      SplitPathSegments(dotted);
      var parts, i := split.value, 0;
      while i < |parts| - 1
        invariant 0 <= i <= |parts| - 1 && Walking(old(data), data, parts, i, value)
      {
        var seg, node := parts[i], NodeAt(data, parts[..i]).value;
        if seg !in node {
          WalkCreate(old(data), data, parts, i, value);
          data := ReplaceAt(data, parts[..i], node[seg := Mapping(map[])]);
        } else if !node[seg].Mapping? {
          WalkBlocked(old(data), data, parts, i, value);
          return false;
        } else {
          WalkInto(old(data), data, parts, i, value);
        }
        i := i + 1;
      }
      WalkEnd(old(data), data, parts, value);
      data := ReplaceAt(data, parts[..i], NodeAt(data, parts[..i]).value[parts[i] := value]);
      return true;
    }
  }
}
