/** The total order Python uses on strings and on tuples of strings, and stable sorting by a key. */
module Ordering {

  /** Lexicographic order by code point. */
  predicate StringLe(a: string, b: string) {
    a == "" || (b != "" && (a[0] < b[0] || (a[0] == b[0] && StringLe(a[1..], b[1..]))))
  }

  /** `a` has the smaller character where the two first differ. */
  ghost predicate Smaller(a: string, b: string) {
    exists k :: SmallerAt(a, b, k)
  }

  ghost predicate SmallerAt(a: string, b: string, k: int) {
    0 <= k < |a| && k < |b| && a[..k] == b[..k] && a[k] < b[k]
  }

  /** The order is decided by the first differing character; without one the shorter string comes first. */
  lemma {:induction false} StringLeMeans(a: string, b: string)
    ensures StringLe(a, b) <==> a <= b || Smaller(a, b)
  {
    if a != "" && b != "" {
      if a[0] == b[0] {
        StringLeMeans(a[1..], b[1..]);
        SmallerBehind(a, b);
        assert a == [a[0]] + a[1..] && b == [b[0]] + b[1..];
      } else {
        SmallerAtOnce(a, b);
      }
    }
  }

  lemma SmallerAtOnce(a: string, b: string)
    requires a != "" && b != "" && a[0] != b[0]
    ensures !(a <= b) && (Smaller(a, b) <==> a[0] < b[0])
  {
    assert a[0] < b[0] ==> SmallerAt(a, b, 0);
    forall k | k > 0 ensures !SmallerAt(a, b, k) {
      if k < |a| && k < |b| {
        assert a[..k][0] == a[0] && b[..k][0] == b[0];
      }
    }
  }

  lemma SmallerBehind(a: string, b: string)
    requires a != "" && b != "" && a[0] == b[0]
    ensures Smaller(a, b) <==> Smaller(a[1..], b[1..])
  {
    if k :| SmallerAt(a, b, k) {
      assert k > 0;
      assert a[1..][..k - 1] == a[..k][1..] && b[1..][..k - 1] == b[..k][1..];
      assert SmallerAt(a[1..], b[1..], k - 1);
    }
    if k :| SmallerAt(a[1..], b[1..], k) {
      assert a[..k + 1] == [a[0]] + a[1..][..k] && b[..k + 1] == [b[0]] + b[1..][..k];
      assert SmallerAt(a, b, k + 1);
    }
  }

  lemma {:induction false} StringLeTotal(a: string, b: string)
    ensures StringLe(a, b) || StringLe(b, a)
  {
    if a != "" && b != "" && a[0] == b[0] {
      StringLeTotal(a[1..], b[1..]);
    }
  }

  lemma {:induction false} StringLeAntisymmetric(a: string, b: string)
    requires StringLe(a, b) && StringLe(b, a)
    ensures a == b
  {
    if a != "" && b != "" {
      StringLeAntisymmetric(a[1..], b[1..]);
      assert a == [a[0]] + a[1..] && b == [b[0]] + b[1..];
    }
  }

  lemma {:induction false} StringLeTransitive(a: string, b: string, c: string)
    requires StringLe(a, b) && StringLe(b, c)
    ensures StringLe(a, c)
  {
    if a != "" && b != "" && c != "" && a[0] == b[0] == c[0] {
      StringLeTransitive(a[1..], b[1..], c[1..]);
    }
  }

  /** A sort key: a tuple of strings, compared left to right. */
  type Key = seq<string>

  predicate KeyLe(a: Key, b: Key) {
    a == [] || (b != [] && (if a[0] == b[0] then KeyLe(a[1..], b[1..]) else StringLe(a[0], b[0])))
  }

  lemma {:induction false} KeyLeTotal(a: Key, b: Key)
    ensures KeyLe(a, b) || KeyLe(b, a)
  {
    if a != [] && b != [] {
      if a[0] == b[0] {
        KeyLeTotal(a[1..], b[1..]);
      } else {
        StringLeTotal(a[0], b[0]);
      }
    }
  }

  lemma {:induction false} KeyLeAntisymmetric(a: Key, b: Key)
    requires KeyLe(a, b) && KeyLe(b, a)
    ensures a == b
  {
    if a != [] && b != [] {
      if a[0] == b[0] {
        KeyLeAntisymmetric(a[1..], b[1..]);
        assert a == [a[0]] + a[1..] && b == [b[0]] + b[1..];
      } else {
        StringLeAntisymmetric(a[0], b[0]);
      }
    }
  }

  lemma {:induction false} KeyLeTransitive(a: Key, b: Key, c: Key)
    requires KeyLe(a, b) && KeyLe(b, c)
    ensures KeyLe(a, c)
  {
    if a != [] && b != [] && c != [] {
      if a[0] == b[0] == c[0] {
        KeyLeTransitive(a[1..], b[1..], c[1..]);
      } else if a[0] != b[0] && b[0] != c[0] {
        StringLeTransitive(a[0], b[0], c[0]);
        if a[0] == c[0] {
          StringLeAntisymmetric(a[0], b[0]);
        }
      }
    }
  }

  ghost predicate SortedBy<T(!new)>(key: T -> Key, xs: seq<T>) {
    forall i, j :: 0 <= i < j < |xs| ==> KeyLe(key(xs[i]), key(xs[j]))
  }

  /** Insert after every element whose key is not greater, as a stable sort does. */
  function Insert<T>(key: T -> Key, xs: seq<T>, x: T): seq<T> {
    if xs != [] && KeyLe(key(xs[0]), key(x)) then [xs[0]] + Insert(key, xs[1..], x)
    else [x] + xs
  }

  /** Python's stable `sorted(xs, key=key)`. */
  function Sort<T>(key: T -> Key, xs: seq<T>): (r: seq<T>)
    ensures |xs| == 0 ==> r == []
  {
    if xs == [] then [] else Insert(key, Sort(key, xs[..|xs| - 1]), xs[|xs| - 1])
  }

  lemma {:induction false} InsertAdds<T>(key: T -> Key, xs: seq<T>, x: T)
    ensures multiset(Insert(key, xs, x)) == multiset(xs) + multiset{x}
  {
    if xs != [] && KeyLe(key(xs[0]), key(x)) {
      InsertAdds(key, xs[1..], x);
      assert xs == [xs[0]] + xs[1..];
    }
  }

  ghost predicate AtMost<T(!new)>(key: T -> Key, k: Key, xs: seq<T>) {
    forall i :: 0 <= i < |xs| ==> KeyLe(k, key(xs[i]))
  }

  lemma {:induction false} InsertAtMost<T(!new)>(key: T -> Key, k: Key, xs: seq<T>, x: T)
    requires AtMost(key, k, xs) && KeyLe(k, key(x))
    ensures AtMost(key, k, Insert(key, xs, x))
  {
    if xs != [] && KeyLe(key(xs[0]), key(x)) {
      InsertAtMost(key, k, xs[1..], x);
    }
  }

  lemma SortedCons<T(!new)>(key: T -> Key, x: T, xs: seq<T>)
    requires SortedBy(key, xs) && AtMost(key, key(x), xs)
    ensures SortedBy(key, [x] + xs)
  {
  }

  lemma {:induction false} InsertSorted<T(!new)>(key: T -> Key, xs: seq<T>, x: T)
    requires SortedBy(key, xs)
    ensures SortedBy(key, Insert(key, xs, x))
  {
    if xs != [] && KeyLe(key(xs[0]), key(x)) {
      InsertSorted(key, xs[1..], x);
      InsertAtMost(key, key(xs[0]), xs[1..], x);
      SortedCons(key, xs[0], Insert(key, xs[1..], x));
    } else {
      if xs != [] {
        KeyLeTotal(key(x), key(xs[0]));
        forall i | 0 < i < |xs| ensures KeyLe(key(x), key(xs[i])) {
          KeyLeTransitive(key(x), key(xs[0]), key(xs[i]));
        }
      }
      SortedCons(key, x, xs);
    }
  }

  lemma {:induction false} SortSorts<T(!new)>(key: T -> Key, xs: seq<T>)
    ensures SortedBy(key, Sort(key, xs)) && multiset(Sort(key, xs)) == multiset(xs)
    ensures |Sort(key, xs)| == |xs|
  {
    if xs != [] {
      var front, x := xs[..|xs| - 1], xs[|xs| - 1];
      SortSorts(key, front);
      InsertSorted(key, Sort(key, front), x);
      InsertAdds(key, Sort(key, front), x);
      assert xs == front + [x];
    }
    assert |multiset(Sort(key, xs))| == |multiset(xs)|;
  }

  /** Keys tell the elements of `xs` apart. */
  ghost predicate Separates<T(!new)>(key: T -> Key, xs: seq<T>) {
    forall x, y :: x in xs && y in xs && key(x) == key(y) ==> x == y
  }

  lemma HeadIsLeast<T(!new)>(key: T -> Key, a: seq<T>, b: seq<T>)
    requires SortedBy(key, a) && multiset(a) == multiset(b) && a != [] && b != []
    ensures KeyLe(key(a[0]), key(b[0])) && b[0] in a
  {
    assert b[0] in multiset(b);
    var j :| 0 <= j < |a| && a[j] == b[0];
    KeyLeTotal(key(a[0]), key(a[0]));
  }

  lemma TailMultiset<T>(a: seq<T>)
    requires a != []
    ensures multiset(a[1..]) == multiset(a) - multiset{a[0]}
  {
    assert a == [a[0]] + a[1..];
  }

  /** With telling keys there is only one sorted arrangement of a multiset. */
  lemma {:induction false} SortedUnique<T(!new)>(key: T -> Key, a: seq<T>, b: seq<T>)
    requires SortedBy(key, a) && SortedBy(key, b) && multiset(a) == multiset(b)
    requires Separates(key, a)
    ensures a == b
  {
    assert |multiset(a)| == |multiset(b)|;
    if a != [] {
      HeadIsLeast(key, a, b);
      HeadIsLeast(key, b, a);
      KeyLeAntisymmetric(key(a[0]), key(b[0]));
      TailMultiset(a);
      TailMultiset(b);
      SortedUnique(key, a[1..], b[1..]);
      assert a == [a[0]] + a[1..] && b == [b[0]] + b[1..];
    }
  }

  /** Sorting forgets the input order, and nothing else. */
  lemma SortForgetsOrder<T(!new)>(key: T -> Key, a: seq<T>, b: seq<T>)
    requires Separates(key, a)
    ensures Sort(key, a) == Sort(key, b) <==> multiset(a) == multiset(b)
  {
    SortSorts(key, a);
    SortSorts(key, b);
    if multiset(a) == multiset(b) {
      var s := Sort(key, a);
      forall x | x in s ensures x in a {
        assert x in multiset(s);
      }
      SortedUnique(key, Sort(key, a), Sort(key, b));
    }
  }

  // ---- stability ----

  /** The elements with key `k`, in order. */
  function WithKey<T>(key: T -> Key, xs: seq<T>, k: Key): seq<T> {
    if xs == [] then [] else (if key(xs[0]) == k then [xs[0]] else []) + WithKey(key, xs[1..], k)
  }

  lemma {:induction false} WithKeyAppend<T>(key: T -> Key, xs: seq<T>, ys: seq<T>, k: Key)
    ensures WithKey(key, xs + ys, k) == WithKey(key, xs, k) + WithKey(key, ys, k)
  {
    if xs == [] {
      assert xs + ys == ys;
    } else {
      var head := if key(xs[0]) == k then [xs[0]] else [];
      WithKeyAppend(key, xs[1..], ys, k);
      assert (xs + ys)[0] == xs[0] && (xs + ys)[1..] == xs[1..] + ys;
      Associate(head, WithKey(key, xs[1..], k), WithKey(key, ys, k));
    }
  }

  lemma Associate<T>(x: seq<T>, y: seq<T>, z: seq<T>)
    ensures (x + y) + z == x + (y + z)
  {
  }

  lemma {:induction false} NoneWithKey<T>(key: T -> Key, xs: seq<T>, k: Key)
    requires forall x :: x in xs ==> key(x) != k
    ensures WithKey(key, xs, k) == []
  {
    if xs != [] {
      NoneWithKey(key, xs[1..], k);
    }
  }

  lemma WithKeyOne<T>(key: T -> Key, x: T, k: Key)
    ensures WithKey(key, [x], k) == if key(x) == k then [x] else []
  {
    assert WithKey(key, [x][1..], k) == [];
  }

  lemma {:induction false} InsertIsStable<T(!new)>(key: T -> Key, xs: seq<T>, x: T, k: Key)
    requires SortedBy(key, xs)
    ensures WithKey(key, Insert(key, xs, x), k) == WithKey(key, xs, k) + WithKey(key, [x], k)
  {
    WithKeyOne(key, x, k);
    if xs != [] && KeyLe(key(xs[0]), key(x)) {
      InsertIsStable(key, xs[1..], x, k);
      assert ([xs[0]] + Insert(key, xs[1..], x))[1..] == Insert(key, xs[1..], x);
    } else {
      WithKeyAppend(key, [x], xs, k);
      if key(x) == k && xs != [] {
        forall y | y in xs ensures key(y) != k {
          var i :| 0 <= i < |xs| && xs[i] == y;
          KeyLeTotal(key(xs[0]), key(xs[0]));
        }
        NoneWithKey(key, xs, k);
      }
    }
  }

  /** Elements with equal keys keep their order. */
  lemma {:induction false} SortIsStable<T(!new)>(key: T -> Key, xs: seq<T>, k: Key)
    ensures WithKey(key, Sort(key, xs), k) == WithKey(key, xs, k)
  {
    if xs != [] {
      var front, last := xs[..|xs| - 1], xs[|xs| - 1];
      SortIsStable(key, front, k);
      SortSorts(key, front);
      InsertIsStable(key, Sort(key, front), last, k);
      WithKeyAppend(key, front, [last], k);
      assert xs == front + [last];
    }
  }

  /** Two different elements with one key, in front of the rest: their order shows. */
  lemma SortShowsOrder<T(!new)>(key: T -> Key, x: T, y: T, rest: seq<T>)
    requires key(x) == key(y) && x != y
    ensures Sort(key, [x, y] + rest) != Sort(key, [y, x] + rest)
  {
    LeadsWithKey(key, x, y, rest);
    LeadsWithKey(key, y, x, rest);
    SortIsStable(key, [x, y] + rest, key(x));
    SortIsStable(key, [y, x] + rest, key(x));
  }

  lemma LeadsWithKey<T>(key: T -> Key, x: T, y: T, rest: seq<T>)
    ensures WithKey(key, [x, y] + rest, key(x)) != [] && WithKey(key, [x, y] + rest, key(x))[0] == x
  {
    assert ([x, y] + rest)[0] == x;
  }
}
