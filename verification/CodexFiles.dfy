/** Snapshot and restore of an executable behind a chain of symlinks (riglib/codex_update.py). */
module CodexFiles {
  import opened Text
  import opened Places

  type Bytes = string

  datatype Entry = File(bytes: Bytes) | Link(target: string)

  type Tree = map<Place, Entry>

  /** One recorded link: where it is and the text it holds. */
  datatype Hop = Hop(link: Place, target: string)

  type Chain = seq<Hop>

  /** A relative target is read from the directory of its link. */
  function Follow(link: Place, target: string): Place {
    Locate(Parent(link), target)
  }

  /** Names that a path can spell as they are. */
  predicate Plain(names: seq<string>) {
    forall n :: n in names ==> n != "" && n != "." && n != ".." && '/' !in n
  }

  lemma {:induction false} WalkPlain(at: Place, names: seq<string>)
    requires Plain(names)
    ensures Walk(at, names) == at + names
    decreases |names|
  {
    if names == [] {
      assert at + names == at;
    } else {
      assert names[0] in names && forall n :: n in names[1..] ==> n in names;
      WalkPlain(at + [names[0]], names[1..]);
      assert at + names == (at + [names[0]]) + names[1..];
    }
  }

  /** `n` steps to the parent directory. */
  function Ups(n: nat): seq<string> {
    if n == 0 then [] else [".."] + Ups(n - 1)
  }

  lemma {:induction false} WalkUps(at: Place, n: nat)
    ensures Walk(at, Ups(n)) == at[..if n <= |at| then |at| - n else 0]
  {
    if n > 0 {
      WalkUps(Step(at, ".."), n - 1);
    }
  }

  lemma UpsFree(n: nat)
    ensures forall p :: p in Ups(n) ==> p == ".."
  {
  }

  /**
   * Where a link leads: a relative target from the directory of the link, past the root at most to the
   * root, and an absolute target from the root whatever the link.
   */
  lemma FollowMeans(dir: Place, name: string, n: nat, names: seq<string>)
    requires Plain(names) && Ups(n) + names != []
    ensures Follow(dir + [name], Join(Ups(n) + names, '/')) == dir[..if n <= |dir| then |dir| - n else 0] + names
    ensures Follow(dir + [name], "/" + Join(Ups(n) + names, '/')) == names
  {
    var parts := Ups(n) + names;
    UpsFree(n);
    assert Free(parts, '/');
    SplitJoin(parts, '/');
    assert parts[0] in parts;
    RelativeStart(parts);
    assert Parent(dir + [name]) == dir;
    WalkUps(dir, n);
    WalkAppend(dir, Ups(n), names);
    WalkPlain(dir[..if n <= |dir| then |dir| - n else 0], names);
    SplitAtSeparator("", Join(parts, '/'), '/');
    assert "" + ['/'] + Join(parts, '/') == "/" + Join(parts, '/');
    AbsoluteWalk(parts);
    WalkUps([], n);
    WalkAppend([], Ups(n), names);
    WalkPlain([], names);
    assert [] + names == names;
  }

  lemma RelativeStart(parts: seq<string>)
    requires parts != [] && parts[0] != "" && Free(parts, '/')
    ensures Join(parts, '/') != "" && Join(parts, '/')[0] != '/'
  {
    assert parts[0] in parts && parts[0][0] in parts[0];
  }

  lemma AbsoluteWalk(parts: seq<string>)
    ensures Walk([], [""] + parts) == Walk([], parts)
  {
    assert ([""] + parts)[1..] == parts;
  }

  // ---- chains ----

  /** Each hop's target is the next hop's link, the last one's is `end`. */
  predicate Linked(start: Place, chain: Chain, end: Place)
    decreases |chain|
  {
    if chain == [] then start == end
    else chain[0].link == start && Linked(Follow(start, chain[0].target), chain[1..], end)
  }

  predicate IsLink(t: Tree, p: Place) {
    p in t && t[p].Link?
  }

  /** The links that the tree really holds from `start`, up to the first place that is no link. */
  predicate IsChain(t: Tree, start: Place, chain: Chain, end: Place)
    decreases |chain|
  {
    if chain == [] then start == end && !IsLink(t, start)
    else
      && IsLink(t, start) && chain[0] == Hop(start, t[start].target)
      && IsChain(t, Follow(start, t[start].target), chain[1..], end)
  }

  lemma {:induction false} ChainUnique(t: Tree, start: Place, x: Chain, a: Place, y: Chain, b: Place)
    requires IsChain(t, start, x, a) && IsChain(t, start, y, b)
    ensures x == y && a == b
    decreases |x|
  {
    if x != [] && y != [] {
      ChainUnique(t, Follow(start, x[0].target), x[1..], a, y[1..], b);
      assert x == [x[0]] + x[1..] && y == [y[0]] + y[1..];
    }
  }

  lemma {:induction false} ChainSuffix(t: Tree, start: Place, chain: Chain, end: Place, i: nat)
    requires IsChain(t, start, chain, end) && i < |chain|
    ensures IsChain(t, chain[i].link, chain[i..], end)
    decreases |chain|
  {
    if i > 0 {
      ChainSuffix(t, Follow(start, chain[0].target), chain[1..], end, i - 1);
      assert chain[1..][i - 1..] == chain[i..];
    }
  }

  predicate DistinctLinks(chain: Chain) {
    forall i, j :: 0 <= i < j < |chain| ==> chain[i].link != chain[j].link
  }

  predicate OnChain(chain: Chain, p: Place) {
    exists i :: 0 <= i < |chain| && chain[i].link == p
  }

  /** A chain that ends visits no link twice, and its end is none of its links. */
  lemma ChainDistinct(t: Tree, start: Place, chain: Chain, end: Place)
    requires IsChain(t, start, chain, end)
    ensures DistinctLinks(chain) && !OnChain(chain, end) && Linked(start, chain, end)
  {
    forall i, j | 0 <= i < j < |chain| ensures chain[i].link != chain[j].link {
      if chain[i].link == chain[j].link {
        ChainSuffix(t, start, chain, end, i);
        ChainSuffix(t, start, chain, end, j);
        ChainUnique(t, chain[i].link, chain[i..], end, chain[j..], end);
        assert false;
      }
    }
    ChainEnd(t, start, chain, end);
    forall i | 0 <= i < |chain| ensures chain[i].link != end {
      ChainSuffix(t, start, chain, end, i);
    }
  }

  lemma {:induction false} ChainEnd(t: Tree, start: Place, chain: Chain, end: Place)
    requires IsChain(t, start, chain, end)
    ensures Linked(start, chain, end) && !IsLink(t, end)
    decreases |chain|
  {
    if chain != [] {
      ChainEnd(t, Follow(start, chain[0].target), chain[1..], end);
    }
  }

  /** What running the path executes: the file at the end of its links. */
  ghost function ContentAt(t: Tree, p: Place): Option<Bytes> {
    if exists chain, end :: IsChain(t, p, chain, end) && end in t then
      var chain, end :| IsChain(t, p, chain, end) && end in t;
      if t[end].File? then Some(t[end].bytes) else None
    else None
  }

  lemma ContentIs(t: Tree, p: Place, chain: Chain, end: Place)
    requires IsChain(t, p, chain, end) && end in t
    ensures t[end].File? && ContentAt(t, p) == Some(t[end].bytes)
  {
    ChainEnd(t, p, chain, end);
    forall c, e | IsChain(t, p, c, e) ensures e == end {
      ChainUnique(t, p, c, e, chain, end);
    }
  }

  lemma NothingThere(t: Tree, p: Place, chain: Chain, end: Place)
    requires IsChain(t, p, chain, end) && end !in t
    ensures ContentAt(t, p) == None
  {
    if c, e :| IsChain(t, p, c, e) && e in t {
      ChainUnique(t, p, chain, end, c, e);
    }
  }

  /** The first hops from `start` are `hops`, and they lead to `at`. */
  predicate Walked(t: Tree, start: Place, hops: Chain, at: Place)
    decreases |hops|
  {
    if hops == [] then start == at
    else
      && IsLink(t, start) && hops[0] == Hop(start, t[start].target)
      && Walked(t, Follow(start, t[start].target), hops[1..], at)
  }

  lemma {:induction false} WalkOn(t: Tree, start: Place, hops: Chain, at: Place)
    requires Walked(t, start, hops, at) && IsLink(t, at)
    ensures Walked(t, start, hops + [Hop(at, t[at].target)], Follow(at, t[at].target))
    decreases |hops|
  {
    if hops == [] {
      assert [Hop(at, t[at].target)][1..] == [];
    } else {
      assert (hops + [Hop(at, t[at].target)])[1..] == hops[1..] + [Hop(at, t[at].target)];
      WalkOn(t, Follow(start, t[start].target), hops[1..], at);
    }
  }

  lemma {:induction false} WalkEnds(t: Tree, start: Place, hops: Chain, at: Place)
    requires Walked(t, start, hops, at) && !IsLink(t, at)
    ensures IsChain(t, start, hops, at)
    decreases |hops|
  {
    if hops != [] {
      WalkEnds(t, Follow(start, t[start].target), hops[1..], at);
    }
  }

  lemma {:induction false} WalkIsPrefix(t: Tree, start: Place, hops: Chain, at: Place, chain: Chain, end: Place)
    requires Walked(t, start, hops, at) && IsChain(t, start, chain, end)
    ensures |hops| <= |chain| && hops == chain[..|hops|] && IsChain(t, at, chain[|hops|..], end)
    decreases |hops|
  {
    if hops == [] {
      assert chain[0..] == chain;
    } else {
      WalkIsPrefix(t, Follow(start, t[start].target), hops[1..], at, chain[1..], end);
      assert hops == [hops[0]] + hops[1..];
      assert chain[1..][|hops| - 1..] == chain[|hops|..];
      assert chain[..|hops|] == [chain[0]] + chain[1..][..|hops| - 1];
    }
  }

  /** A walk that comes back to one of its links never ends. */
  lemma LoopHasNoChain(t: Tree, start: Place, hops: Chain, at: Place, chain: Chain, end: Place)
    requires Walked(t, start, hops, at) && IsLink(t, at) && OnChain(hops, at)
    ensures !IsChain(t, start, chain, end)
  {
    var i :| 0 <= i < |hops| && hops[i].link == at;
    if IsChain(t, start, chain, end) {
      WalkIsPrefix(t, start, hops, at, chain, end);
      assert chain[i] == hops[i] && chain[|hops|..][0] == chain[|hops|];
      ChainDistinct(t, start, chain, end);
      assert false;
    }
  }

  // ---- what restoring does to a tree ----

  /** The recorded links put back, last one first. */
  function Relink(t: Tree, chain: Chain): Tree {
    if chain == [] then t else Relink(t, chain[1..])[chain[0].link := Link(chain[0].target)]
  }

  function Restored(t: Tree, chain: Chain, resolved: Place, good: Bytes): Tree {
    Relink(t[resolved := File(good)], chain)
  }

  lemma {:induction false} RelinkKeeps(t: Tree, chain: Chain, p: Place)
    requires !OnChain(chain, p)
    ensures p in Relink(t, chain) <==> p in t
    ensures p in t ==> Relink(t, chain)[p] == t[p]
    decreases |chain|
  {
    if chain != [] {
      forall i | 0 <= i < |chain[1..]| ensures chain[1..][i].link != p {
        assert chain[1..][i] == chain[i + 1];
      }
      assert chain[0].link != p;
      RelinkKeeps(t, chain[1..], p);
    }
  }

  /** The tree holds the recorded links. */
  predicate Holds(t: Tree, chain: Chain) {
    forall i :: 0 <= i < |chain| ==> chain[i].link in t && t[chain[i].link] == Link(chain[i].target)
  }

  lemma ChainHeld(t: Tree, start: Place, chain: Chain, end: Place)
    requires IsChain(t, start, chain, end)
    ensures Holds(t, chain)
  {
    forall i | 0 <= i < |chain| ensures chain[i].link in t && t[chain[i].link] == Link(chain[i].target) {
      ChainSuffix(t, start, chain, end, i);
    }
  }

  lemma {:induction false} HeldIsChain(u: Tree, start: Place, chain: Chain, end: Place)
    requires Linked(start, chain, end) && Holds(u, chain)
    requires !IsLink(u, end)
    ensures IsChain(u, start, chain, end)
    decreases |chain|
  {
    if chain != [] {
      assert chain[0].link in u;
      forall i | 0 <= i < |chain[1..]| ensures chain[1..][i].link in u && u[chain[1..][i].link] == Link(chain[1..][i].target) {
        assert chain[i + 1] == chain[1..][i];
      }
      HeldIsChain(u, Follow(start, chain[0].target), chain[1..], end);
    }
  }

  lemma {:induction false} RelinkHolds(t: Tree, chain: Chain)
    requires DistinctLinks(chain)
    ensures Holds(Relink(t, chain), chain)
    decreases |chain|
  {
    if chain != [] {
      var rest := chain[1..];
      assert DistinctLinks(rest);
      RelinkHolds(t, rest);
      forall i | 1 <= i < |chain|
        ensures chain[i].link in Relink(t, chain) && Relink(t, chain)[chain[i].link] == Link(chain[i].target)
      {
        assert rest[i - 1] == chain[i];
      }
    }
  }

  /** Whatever the tree was, the restored links lead from the path to the restored file. */
  lemma RelinkLeads(t: Tree, start: Place, chain: Chain, end: Place)
    requires Linked(start, chain, end) && DistinctLinks(chain) && !OnChain(chain, end) && !IsLink(t, end)
    ensures IsChain(Relink(t, chain), start, chain, end)
  {
    RelinkHolds(t, chain);
    RelinkKeeps(t, chain, end);
    HeldIsChain(Relink(t, chain), start, chain, end);
  }

  /**
   * Restoring is total repair: whatever the updater left behind, the whole chain is back, running the
   * path executes the saved bytes, and no other place has changed.
   */
  lemma RestoredRuns(t: Tree, start: Place, chain: Chain, resolved: Place, good: Bytes)
    requires Linked(start, chain, resolved) && DistinctLinks(chain) && !OnChain(chain, resolved)
    ensures var r := Restored(t, chain, resolved, good);
      && IsChain(r, start, chain, resolved) && ContentAt(r, start) == Some(good)
      && forall p :: p != resolved && !OnChain(chain, p) ==> (p in r <==> p in t) && (p in t ==> r[p] == t[p])
  {
    var u, r := t[resolved := File(good)], Restored(t, chain, resolved, good);
    RelinkLeads(u, start, chain, resolved);
    RelinkKeeps(u, chain, resolved);
    ContentIs(r, start, chain, resolved);
    forall p | p != resolved && !OnChain(chain, p) ensures (p in r <==> p in t) && (p in t ==> r[p] == t[p]) {
      RelinkKeeps(u, chain, p);
    }
  }

  lemma {:induction false} LinkedSuffix(start: Place, chain: Chain, end: Place, k: nat)
    requires Linked(start, chain, end) && k < |chain|
    ensures Linked(chain[k].link, chain[k..], end)
    decreases |chain|
  {
    if k > 0 {
      LinkedSuffix(Follow(start, chain[0].target), chain[1..], end, k - 1);
      assert chain[1..][k - 1..] == chain[k..];
    }
  }

  /** The file and the links from hop `k` on are in place. */
  predicate InPlace(t: Tree, chain: Chain, resolved: Place, good: Bytes, k: nat) {
    && resolved in t && t[resolved] == File(good)
    && forall i :: k <= i < |chain| ==> chain[i].link in t && t[chain[i].link] == Link(chain[i].target)
  }

  /** Whatever else the tree holds, the links that are in place already lead to the good bytes. */
  lemma PartlyRestoredRuns(t: Tree, start: Place, chain: Chain, resolved: Place, good: Bytes, k: nat)
    requires Linked(start, chain, resolved) && InPlace(t, chain, resolved, good, k)
    ensures forall i :: k <= i < |chain| ==> ContentAt(t, chain[i].link) == Some(good)
  {
    forall i | k <= i < |chain| ensures ContentAt(t, chain[i].link) == Some(good) {
      LinkedSuffix(start, chain, resolved, i);
      assert forall j :: 0 <= j < |chain[i..]| ==> chain[i..][j] == chain[i + j];
      HeldIsChain(t, chain[i].link, chain[i..], resolved);
      ContentIs(t, chain[i].link, chain[i..], resolved);
    }
  }

  /** A link to itself runs nothing. */
  lemma SelfLinkDangles(t: Tree, p: Place, target: string)
    requires p in t && t[p] == Link(target) && Follow(p, target) == p
    ensures ContentAt(t, p) == None
  {
    forall chain, end ensures !IsChain(t, p, chain, end) {
      NoChainFromSelfLink(t, p, target, chain, end);
    }
  }

  lemma {:induction false} NoChainFromSelfLink(t: Tree, p: Place, target: string, chain: Chain, end: Place)
    requires p in t && t[p] == Link(target) && Follow(p, target) == p
    ensures !IsChain(t, p, chain, end)
    decreases |chain|
  {
    if chain != [] {
      NoChainFromSelfLink(t, p, target, chain[1..], end);
    }
  }
}
