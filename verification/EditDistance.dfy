/** Edit distance and the nearest-name suggestion (riglib/errors.py). */
module EditDistance {
  import opened Text
  import opened Ordering

  /** One edit of a whole string, at a position of the string it is applied to. */
  datatype Edit =
    | Insert(at: nat, c: char)
    | Delete(at: nat)
    | Replace(at: nat, c: char)

  function Apply(e: Edit, s: string): Option<string> {
    match e
    case Insert(at, c) => if at <= |s| then Some(s[..at] + [c] + s[at..]) else None
    case Delete(at) => if at < |s| then Some(s[..at] + s[at + 1..]) else None
    case Replace(at, c) => if at < |s| then Some(s[at := c]) else None
  }

  /** Apply a script left to right. */
  function Run(script: seq<Edit>, s: string): Option<string> {
    if script == [] then Some(s)
    else
      match Apply(script[0], s)
      case None => None
      case Some(t) => Run(script[1..], t)
  }

  ghost predicate Turns(script: seq<Edit>, a: string, b: string) {
    Run(script, a) == Some(b)
  }

  /** `d` is the length of a shortest script turning `a` into `b`. */
  ghost predicate IsShortest(d: int, a: string, b: string) {
    && (exists script :: Turns(script, a, b) && |script| == d)
    && forall script :: Turns(script, a, b) ==> d <= |script|
  }

  function Min3(x: int, y: int, z: int): int {
    if x <= y && x <= z then x else if y <= z then y else z
  }

  function Front(s: string): string
    requires s != ""
  {
    s[..|s| - 1]
  }

  function Last(s: string): char
    requires s != ""
  {
    s[|s| - 1]
  }

  function Differ(x: char, y: char): nat {
    if x != y then 1 else 0
  }

  /** The textbook recurrence on last characters. */
  function Dist(a: string, b: string): nat
    decreases |a| + |b|
  {
    if a == "" then |b|
    else if b == "" then |a|
    else Min3(Dist(Front(a), b) + 1, Dist(a, Front(b)) + 1, Dist(Front(a), Front(b)) + Differ(Last(a), Last(b)))
  }

  // ---- the recurrence is a metric ----

  lemma {:induction false} DistZero(a: string, b: string)
    ensures Dist(a, b) == 0 <==> a == b
    decreases |a| + |b|
  {
    if a != "" && b != "" {
      DistZero(Front(a), Front(b));
      assert a == Front(a) + [Last(a)] && b == Front(b) + [Last(b)];
    }
  }

  lemma {:induction false} DistSymmetric(a: string, b: string)
    ensures Dist(a, b) == Dist(b, a)
    decreases |a| + |b|
  {
    if a != "" && b != "" {
      DistSymmetric(Front(a), b);
      DistSymmetric(a, Front(b));
      DistSymmetric(Front(a), Front(b));
    }
  }

  lemma {:induction false} DistLengths(a: string, b: string)
    ensures |a| <= |b| + Dist(a, b) && |b| <= |a| + Dist(a, b) && Dist(a, b) <= |a| + |b|
    decreases |a| + |b|
  {
    if a != "" && b != "" {
      DistLengths(Front(a), b);
      DistLengths(a, Front(b));
      DistLengths(Front(a), Front(b));
    }
  }

  lemma {:induction false} DistTriangle(a: string, b: string, c: string)
    ensures Dist(a, c) <= Dist(a, b) + Dist(b, c)
    decreases |a| + |b| + |c|
  {
    if a == "" || c == "" {
      DistLengths(a, b);
      DistLengths(b, c);
    } else if b == "" {
      DistLengths(a, c);
    } else {
      var p, q, r := Front(a), Front(b), Front(c);
      DistTriangle(p, b, c);
      DistTriangle(a, b, r);
      DistTriangle(a, q, c);
      DistTriangle(a, q, r);
      DistTriangle(p, q, c);
      DistTriangle(p, q, r);
      TriangleCorner(
        Corner(Dist(a, b), Dist(p, b), Dist(a, q), Dist(p, q), Differ(Last(a), Last(b))),
        Corner(Dist(b, c), Dist(q, c), Dist(b, r), Dist(q, r), Differ(Last(b), Last(c))),
        Corner(Dist(a, c), Dist(p, c), Dist(a, r), Dist(p, r), Differ(Last(a), Last(c))));
    }
  }

  /** One cell of the recurrence with its three neighbours and the cost of the diagonal. */
  datatype Corner = Corner(here: int, above: int, before: int, diagonal: int, cost: int)

  predicate IsCell(k: Corner) {
    k.here == Min3(k.above + 1, k.before + 1, k.diagonal + k.cost)
  }

  /** The triangle inequality at one corner follows from the smaller ones. */
  lemma TriangleCorner(ab: Corner, bc: Corner, ac: Corner)
    requires IsCell(ab) && IsCell(bc) && IsCell(ac) && ac.cost <= ab.cost + bc.cost
    requires ac.above <= ab.above + bc.here && ac.before <= ab.here + bc.before
    requires ac.here <= ab.before + bc.above && ac.before <= ab.before + bc.diagonal
    requires ac.above <= ab.diagonal + bc.above && ac.diagonal <= ab.diagonal + bc.diagonal
    requires ab.cost >= 0 && bc.cost >= 0
    ensures ac.here <= ab.here + bc.here
  {
  }

  // ---- and it is the shortest script ----

  /** A script that rewrites `s` rewrites `s + [x]` the same way and keeps the `x`. */
  lemma {:induction false} RunKeepsSuffix(script: seq<Edit>, s: string, x: char)
    requires Run(script, s).Some?
    ensures Run(script, s + [x]) == Some(Run(script, s).value + [x])
  {
    if script != [] {
      var t := Apply(script[0], s).value;
      assert Apply(script[0], s + [x]).value == t + [x];
      RunKeepsSuffix(script[1..], t, x);
    }
  }

  lemma {:induction false} RunAppend(p: seq<Edit>, q: seq<Edit>, s: string)
    requires Run(p, s).Some?
    ensures Run(p + q, s) == Run(q, Run(p, s).value)
  {
    if p == [] {
      assert p + q == q;
    } else {
      assert (p + q)[1..] == p[1..] + q;
      RunAppend(p[1..], q, Apply(p[0], s).value);
    }
  }

  lemma RunThen(p: seq<Edit>, e: Edit, s: string)
    requires Run(p, s).Some?
    ensures Run(p + [e], s) == Apply(e, Run(p, s).value)
  {
    RunAppend(p, [e], s);
    var t := Run(p, s).value;
    assert [e][1..] == [];
  }

  /** A script of length `Dist(a, b)` that turns `a` into `b`. */
  lemma {:induction false} ShortestScript(a: string, b: string) returns (script: seq<Edit>)
    ensures Turns(script, a, b) && |script| == Dist(a, b)
    decreases |a| + |b|
  {
    if a == "" && b == "" {
      script := [];
    } else if b == "" || (a != "" && Dist(a, b) == Dist(Front(a), b) + 1) {
      var rest := ShortestScript(Front(a), b);
      script := [Delete(|a| - 1)] + rest;
      assert Apply(script[0], a).value == Front(a) && script[1..] == rest;
    } else if a == "" || Dist(a, b) == Dist(a, Front(b)) + 1 {
      var rest := ShortestScript(a, Front(b));
      script := rest + [Insert(|b| - 1, Last(b))];
      RunThen(rest, Insert(|b| - 1, Last(b)), a);
      assert Front(b)[..|b| - 1] + [Last(b)] + Front(b)[|b| - 1..] == b;
    } else {
      script := ShortestScript(Front(a), Front(b));
      RunKeepsSuffix(script, Front(a), Last(a));
      assert Front(a) + [Last(a)] == a && Front(b) + [Last(b)] == b;
      if Last(a) != Last(b) {
        RunThen(script, Replace(|b| - 1, Last(b)), a);
        assert (Front(b) + [Last(a)])[|b| - 1 := Last(b)] == b;
        script := script + [Replace(|b| - 1, Last(b))];
      }
    }
  }

  /** Appending the same character to both sides never raises the distance. */
  lemma DistAppend(a: string, b: string, x: char)
    ensures Dist(a + [x], b + [x]) <= Dist(a, b)
  {
    assert Front(a + [x]) == a && Front(b + [x]) == b;
  }

  lemma {:induction false} DistCommonSuffix(a: string, b: string, t: string)
    ensures Dist(a + t, b + t) <= Dist(a, b)
    decreases |t|
  {
    if t == "" {
      assert a + t == a && b + t == b;
    } else {
      DistCommonSuffix(a, b, Front(t));
      DistAppend(a + Front(t), b + Front(t), Last(t));
      LastApart(a, t);
      LastApart(b, t);
    }
  }

  lemma LastApart(a: string, t: string)
    requires t != ""
    ensures a + t == a + Front(t) + [Last(t)]
  {
    assert t == Front(t) + [Last(t)];
  }

  lemma DistLastInserted(p: string, c: char)
    ensures Dist(p, p + [c]) <= 1
  {
    DistZero(p, p);
    assert Front(p + [c]) == p;
  }

  lemma DistLastReplaced(p: string, x: char, y: char)
    ensures Dist(p + [x], p + [y]) <= 1
  {
    DistZero(p, p);
    assert Front(p + [x]) == p && Front(p + [y]) == p;
  }

  lemma InsertMovesOne(p: string, c: char, q: string)
    ensures Dist(p + q, p + [c] + q) <= 1 && Dist(p + [c] + q, p + q) <= 1
  {
    DistLastInserted(p, c);
    DistCommonSuffix(p, p + [c], q);
    DistSymmetric(p + q, p + [c] + q);
  }

  lemma ReplaceMovesOne(p: string, x: char, y: char, q: string)
    ensures Dist(p + [x] + q, p + [y] + q) <= 1
  {
    DistLastReplaced(p, x, y);
    DistCommonSuffix(p + [x], p + [y], q);
  }

  lemma AroundIndex(s: string, at: nat, c: char)
    requires at < |s|
    ensures s == s[..at] + [s[at]] + s[at + 1..]
    ensures s[at := c] == s[..at] + [c] + s[at + 1..]
  {
  }

  /** One edit, wherever it lands, moves a string by at most one. */
  lemma ApplyMovesOne(e: Edit, s: string)
    requires Apply(e, s).Some?
    ensures Dist(s, Apply(e, s).value) <= 1
  {
    match e
    case Insert(at, c) =>
      InsertMovesOne(s[..at], c, s[at..]);
      assert s == s[..at] + s[at..];
    case Delete(at) =>
      InsertMovesOne(s[..at], s[at], s[at + 1..]);
      AroundIndex(s, at, s[at]);
    case Replace(at, c) =>
      ReplaceMovesOne(s[..at], s[at], c, s[at + 1..]);
      AroundIndex(s, at, c);
  }

  lemma {:induction false} NoShorterScript(script: seq<Edit>, a: string, b: string)
    requires Turns(script, a, b)
    ensures Dist(a, b) <= |script|
    decreases |script|
  {
    if script == [] {
      DistZero(a, b);
    } else {
      var t := Apply(script[0], a).value;
      ApplyMovesOne(script[0], a);
      NoShorterScript(script[1..], t, b);
      DistTriangle(a, t, b);
    }
  }

  lemma DistIsShortest(a: string, b: string)
    ensures IsShortest(Dist(a, b), a, b)
  {
    var _ := ShortestScript(a, b);
    forall script | Turns(script, a, b) ensures Dist(a, b) <= |script| {
      NoShorterScript(script, a, b);
    }
  }

  /** Shortest scripts between strings form a metric, whatever computed the numbers. */
  lemma ShortestIsMetric(a: string, b: string, c: string, ab: int, ba: int, bc: int, ac: int)
    requires IsShortest(ab, a, b) && IsShortest(ba, b, a) && IsShortest(bc, b, c) && IsShortest(ac, a, c)
    ensures 0 <= ab && (ab == 0 <==> a == b)
    ensures ab == ba
    ensures ac <= ab + bc
  {
    ShortestUnique(ab, a, b);
    ShortestUnique(ba, b, a);
    ShortestUnique(bc, b, c);
    ShortestUnique(ac, a, c);
    DistZero(a, b);
    DistSymmetric(a, b);
    DistTriangle(a, b, c);
  }

  lemma ShortestUnique(d: int, a: string, b: string)
    requires IsShortest(d, a, b)
    ensures d == Dist(a, b)
  {
    DistIsShortest(a, b);
    var best := ShortestScript(a, b);
    assert Turns(best, a, b);
  }

  // ---- the two-row loop ----

  /** `row` holds the distances from the first `i` characters of `a` to the prefixes of `b`. */
  ghost predicate IsRow(row: seq<int>, a: string, i: nat, b: string)
    requires i <= |a|
  {
    |row| <= |b| + 1 && forall j :: 0 <= j < |row| ==> row[j] == Dist(a[..i], b[..j])
  }

  lemma ExtendRow(prev: seq<int>, cur: seq<int>, a: string, i: nat, b: string, j: nat)
    requires 1 <= i <= |a| && 1 <= j <= |b| && |prev| == |b| + 1 && |cur| == j
    requires IsRow(prev, a, i - 1, b) && IsRow(cur, a, i, b)
    ensures IsRow(cur + [Min3(prev[j] + 1, cur[j - 1] + 1, prev[j - 1] + Differ(a[i - 1], b[j - 1]))], a, i, b)
  {
    assert Front(a[..i]) == a[..i - 1] && Front(b[..j]) == b[..j - 1];
    assert prev[j] == Dist(a[..i - 1], b[..j]);
    assert prev[j - 1] == Dist(a[..i - 1], b[..j - 1]);
    assert cur[j - 1] == Dist(a[..i], b[..j - 1]);
  }

  lemma FirstRow(row: seq<int>, a: string, b: string)
    requires |row| == |b| + 1 && forall j :: 0 <= j < |row| ==> row[j] == j
    ensures IsRow(row, a, 0, b)
  {
  }

  lemma FirstCell(a: string, i: nat, b: string)
    requires i <= |a|
    ensures IsRow([i], a, i, b)
  {
  }

  lemma LastCell(row: seq<int>, a: string, b: string)
    requires |row| == |b| + 1 && IsRow(row, a, |a|, b)
    ensures row[|row| - 1] >= 0 && IsShortest(row[|row| - 1], a, b)
  {
    assert a[..|a|] == a && b[..|b|] == b;
    DistIsShortest(a, b);
  }

  lemma TrivialDistances(a: string, b: string)
    ensures a == b ==> IsShortest(0, a, b)
    ensures a == "" ==> IsShortest(|b|, a, b)
    ensures b == "" ==> IsShortest(|a|, a, b)
  {
    DistIsShortest(a, b);
    DistZero(a, b);
  }

  method Levenshtein(a: string, b: string) returns (d: nat)
    ensures IsShortest(d, a, b)
  {
    TrivialDistances(a, b);
    if a == b {
      return 0;
    }
    if a == "" {
      return |b|;
    }
    if b == "" {
      return |a|;
    }
    var prev := seq(|b| + 1, j => j);
    FirstRow(prev, a, b);
    for i := 1 to |a| + 1
      invariant |prev| == |b| + 1 && IsRow(prev, a, i - 1, b)
    {
      var ca := a[i - 1];
      var cur := [i];
      FirstCell(a, i, b);
      for j := 1 to |b| + 1
        invariant |cur| == j && IsRow(cur, a, i, b)
      {
        var cb := b[j - 1];
        ExtendRow(prev, cur, a, i, b, j);
        cur := cur + [Min3(prev[j] + 1, cur[j - 1] + 1, prev[j - 1] + Differ(ca, cb))];
      }
      prev := cur;
    }
    LastCell(prev, a, b);
    return prev[|prev| - 1];
  }

  // ---- the suggestion ----

  function Max(x: int, y: int): int {
    if x >= y then x else y
  }

  /** `min(3, max(1, round(0.4 * n)))`; two fifths of an integer is never halfway between integers. */
  function Threshold(n: nat): (t: nat)
    ensures 1 <= t <= 3
  {
    var r := (4 * n + 5) / 10;
    if r <= 1 then 1 else if r >= 3 then 3 else r
  }

  /** The rounding inside `Threshold` is to the nearest integer, and there is only one. */
  lemma ThresholdRounds(n: nat, r: int)
    ensures r == (4 * n + 5) / 10 <==> -5 < 10 * r - 4 * n < 5
  {
    var q := (4 * n + 5) / 10;
    assert 10 * q - 4 * n != 5;
    if -5 < 10 * r - 4 * n < 5 {
      assert 10 * (r - q) < 10 && 10 * (q - r) < 10;
    }
  }

  /** `best` is the least candidate by distance, ties broken by name. */
  ghost predicate IsNearest(bad: string, best: string, candidates: set<string>) {
    && best in candidates
    && forall c :: c in candidates ==>
      Dist(bad, best) < Dist(bad, c) || (Dist(bad, best) == Dist(bad, c) && StringLe(best, c))
  }

  lemma NearestUnique(bad: string, x: string, y: string, candidates: set<string>)
    requires IsNearest(bad, x, candidates) && IsNearest(bad, y, candidates)
    ensures x == y
  {
    StringLeAntisymmetric(x, y);
  }

  function Tolerance(bad: string, c: string): nat {
    Threshold(Max(|bad|, |c|))
  }

  function WithinTolerance(bad: string, best: string): Option<string> {
    if Dist(bad, best) <= Tolerance(bad, best) then Some(best) else None
  }

  /** What a suggestion for `bad` has to be. */
  ghost predicate IsSuggestion(bad: string, candidates: set<string>, r: Option<string>) {
    if candidates == {} then r == None
    else exists best :: (IsNearest(bad, best, candidates) && r == WithinTolerance(bad, best))
  }

  /** The candidates are visited in an arbitrary order, as Python visits a set. */
  method DidYouMean(bad: string, candidates: set<string>) returns (r: Option<string>)
    ensures IsSuggestion(bad, candidates, r)
  {
    if candidates == {} {
      return None;
    }
    var best :| best in candidates;
    var dist := Levenshtein(bad, best);
    ShortestUnique(dist, bad, best);
    var rest := candidates - {best};
    StringLeTotal(best, best);
    while rest != {}
      invariant rest <= candidates && best in candidates && dist == Dist(bad, best)
      invariant IsNearest(bad, best, candidates - rest)
      decreases rest
    {
      var c :| c in rest;
      var d := Levenshtein(bad, c);
      ShortestUnique(d, bad, c);
      StringLeTotal(best, c);
      StringLeTotal(c, c);
      if d < dist || (d == dist && StringLe(c, best)) {
        forall x | x in candidates - rest && Dist(bad, x) == d ensures StringLe(c, x) {
          StringLeTransitive(c, best, x);
        }
        best, dist := c, d;
      }
      rest := rest - {c};
    }
    assert candidates - rest == candidates;
    var threshold := Threshold(if |bad| >= |best| then |bad| else |best|);
    return if dist <= threshold then Some(best) else None;
  }

  /** The suggestion does not depend on the visiting order. */
  lemma SuggestionUnique(bad: string, candidates: set<string>, r: Option<string>, s: Option<string>)
    requires IsSuggestion(bad, candidates, r) && IsSuggestion(bad, candidates, s)
    ensures r == s
  {
    if candidates != {} {
      var x :| IsNearest(bad, x, candidates) && r == WithinTolerance(bad, x);
      var y :| IsNearest(bad, y, candidates) && s == WithinTolerance(bad, y);
      NearestUnique(bad, x, y, candidates);
    }
  }

  /**
   * Silence means that nothing is close, except for longer names: the threshold comes from the
   * chosen candidate alone, and a longer name would have been granted a larger one.
   */
  lemma SilenceIsJustified(bad: string, candidates: set<string>, best: string, c: string)
    requires IsSuggestion(bad, candidates, None) && IsNearest(bad, best, candidates) && c in candidates
    ensures Dist(bad, c) <= Tolerance(bad, c) ==> Max(|bad|, |best|) < Max(|bad|, |c|)
  {
    SuggestionUnique(bad, candidates, None, WithinTolerance(bad, best));
  }

  // ---- when does silence mean that nothing is close? ----

  /** `bad` never goes without a suggestion while some candidate is within its own tolerance. */
  ghost predicate SilenceIsHonest(bad: string) {
    forall candidates, c ::
      IsSuggestion(bad, candidates, None) && c in candidates ==> Dist(bad, c) > Tolerance(bad, c)
  }

  /** Exactly the names of at most one or at least seven characters are treated fairly. */
  lemma SilenceIsExact(bad: string)
    ensures SilenceIsHonest(bad) <==> |bad| <= 1 || |bad| >= 7
  {
    if |bad| <= 1 || |bad| >= 7 {
      forall candidates, c | IsSuggestion(bad, candidates, None) && c in candidates
        ensures Dist(bad, c) > Tolerance(bad, c)
      {
        SilenceHolds(bad, candidates, c);
      }
    } else {
      var tail := seq(Threshold(|bad|) + 1, _ => 'x');
      SilenceCanHideACloseName(bad, tail);
      assert bad + tail in {bad[..|bad| - |tail|], bad + tail};
    }
  }

  lemma SilenceHolds(bad: string, candidates: set<string>, c: string)
    requires (|bad| <= 1 || |bad| >= 7) && IsSuggestion(bad, candidates, None) && c in candidates
    ensures Dist(bad, c) > Tolerance(bad, c)
  {
    var best :| IsNearest(bad, best, candidates) && WithinTolerance(bad, best) == None;
    assert Dist(bad, best) <= Dist(bad, c);
    DistLengths(bad, c);
  }

  /**
   * The failing family: for every name of two to six characters, a candidate as far away as the
   * tolerance of the short candidate does not allow, but that of the long one does. "p" hides
   * "pqrxy" from someone who typed "pqr".
   */
  lemma SilenceCanHideACloseName(bad: string, tail: string)
    requires 2 <= |bad| <= 6 && |tail| == Threshold(|bad|) + 1
    ensures |tail| <= |bad|
    ensures IsSuggestion(bad, {bad[..|bad| - |tail|], bad + tail}, None)
    ensures Dist(bad, bad + tail) <= Tolerance(bad, bad + tail)
  {
    var n := |bad| - |tail|;
    assert bad == bad[..n] + bad[n..];
    NearAndFar(bad[..n], bad[n..], tail);
  }

  lemma NearAndFar(near: string, cut: string, tail: string)
    requires |cut| == |tail| == Threshold(|near + cut|) + 1 && Threshold(|near + cut + tail|) >= |tail|
    ensures IsSuggestion(near + cut, {near, near + cut + tail}, None)
    ensures Dist(near + cut, near + cut + tail) <= Tolerance(near + cut, near + cut + tail)
  {
    var bad, far := near + cut, near + cut + tail;
    DistToPrefix(near, cut);
    DistToPrefix(bad, tail);
    DistSymmetric(bad, near);
    PrefixIsLess(near, cut + tail);
    assert far == near + (cut + tail);
    StringLeTotal(near, near);
    NearerOfTwo(bad, near, far);
  }

  lemma NearerOfTwo(bad: string, near: string, far: string)
    requires Dist(bad, near) <= Dist(bad, far) && StringLe(near, near) && StringLe(near, far)
    requires Dist(bad, near) > Tolerance(bad, near)
    ensures IsSuggestion(bad, {near, far}, None)
  {
    assert IsNearest(bad, near, {near, far});
  }

  lemma {:induction false} DistToPrefix(s: string, t: string)
    ensures Dist(s, s + t) == |t|
    decreases |t|
  {
    DistLengths(s, s + t);
    if t == "" {
      assert s + t == s;
      DistZero(s, s);
    } else {
      DistToPrefix(s, Front(t));
      DistLastInserted(s + Front(t), Last(t));
      DistTriangle(s, s + Front(t), s + t);
      assert s + Front(t) + [Last(t)] == s + t;
    }
  }

  lemma {:induction false} PrefixIsLess(s: string, t: string)
    ensures StringLe(s, s + t)
    decreases |s|
  {
    if s != "" {
      PrefixIsLess(s[1..], t);
      assert (s + t)[1..] == s[1..] + t;
    }
  }
}
