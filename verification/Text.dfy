/** Options and operations on strings that the other modules share. */
module Text {

  datatype Option<+T> = None | Some(value: T)

  /** Python's `str.split(sep)` for a one-character separator. */
  function Split(s: string, sep: char): (parts: seq<string>)
    ensures |parts| >= 1
  {
    if s == "" then [""]
    else
      var rest := Split(s[1..], sep);
      if s[0] == sep then [""] + rest
      else [[s[0]] + rest[0]] + rest[1..]
  }

  /** Python's `sep.join(parts)`. */
  function Join(parts: seq<string>, sep: char): string {
    if parts == [] then ""
    else if |parts| == 1 then parts[0]
    else parts[0] + [sep] + Join(parts[1..], sep)
  }

  ghost predicate Free(parts: seq<string>, sep: char) {
    forall p :: p in parts ==> sep !in p
  }

  lemma {:induction false} SplitIsFree(s: string, sep: char)
    ensures Free(Split(s, sep), sep)
  {
    if s != "" {
      SplitIsFree(s[1..], sep);
    }
  }

  lemma {:induction false} JoinSplit(s: string, sep: char)
    ensures Join(Split(s, sep), sep) == s
  {
    if s != "" {
      JoinSplit(s[1..], sep);
      var rest := Split(s[1..], sep);
      if s[0] == sep {
        assert ([""] + rest)[1..] == rest;
      } else {
        var glued := [[s[0]] + rest[0]] + rest[1..];
        assert glued[1..] == rest[1..];
        if |rest| > 1 {
          assert Join(glued, sep) == [s[0]] + (rest[0] + [sep] + Join(rest[1..], sep));
        }
      }
    }
  }

  lemma {:induction false} SplitJoin(parts: seq<string>, sep: char)
    requires parts != [] && Free(parts, sep)
    ensures Split(Join(parts, sep), sep) == parts
  {
    if |parts| == 1 {
      SplitPlain(parts[0], sep);
    } else {
      assert Free(parts[1..], sep);
      SplitJoin(parts[1..], sep);
      SplitAtSeparator(parts[0], Join(parts[1..], sep), sep);
    }
  }

  lemma {:induction false} SplitPlain(s: string, sep: char)
    requires sep !in s
    ensures Split(s, sep) == [s]
  {
    if s != "" {
      assert s[0] in s && sep !in s[1..];
      SplitPlain(s[1..], sep);
      assert s == [s[0]] + s[1..];
    }
  }

  lemma {:induction false} SplitAtSeparator(p: string, rest: string, sep: char)
    requires sep !in p
    ensures Split(p + [sep] + rest, sep) == [p] + Split(rest, sep)
  {
    var s := p + [sep] + rest;
    if p == "" {
      assert s[1..] == rest;
    } else {
      assert p[0] in p && sep !in p[1..];
      assert s[0] == p[0] && s[1..] == p[1..] + [sep] + rest;
      SplitAtSeparator(p[1..], rest, sep);
      assert p == [p[0]] + p[1..];
      assert ([p[1..]] + Split(rest, sep))[1..] == Split(rest, sep);
    }
  }

  /** Two separator-free part lists that join to the same string are the same list. */
  lemma JoinInjective(a: seq<string>, b: seq<string>, sep: char)
    requires a != [] && b != [] && Free(a, sep) && Free(b, sep)
    requires Join(a, sep) == Join(b, sep)
    ensures a == b
  {
    SplitJoin(a, sep);
    SplitJoin(b, sep);
  }

  /** The whitespace that `str.strip()` and the regex class `\s` remove, within ASCII. */
  predicate IsSpace(c: char) {
    '\t' <= c <= '\r' || 28 as char <= c <= ' '
  }

  /** The first position at or after `i` that holds no whitespace. */
  function SkipSpaces(s: string, i: nat): (n: nat)
    requires i <= |s|
    ensures i <= n <= |s| && (n == |s| || !IsSpace(s[n]))
    ensures forall k :: i <= k < n ==> IsSpace(s[k])
    decreases |s| - i
  {
    if i < |s| && IsSpace(s[i]) then SkipSpaces(s, i + 1) else i
  }

  /** The last position in `[lo, hi]` that is not preceded by whitespace. */
  function TrimSpaces(s: string, lo: nat, hi: nat): (n: nat)
    requires lo <= hi <= |s|
    ensures lo <= n <= hi && (n == lo || !IsSpace(s[n - 1]))
    ensures forall k :: n <= k < hi ==> IsSpace(s[k])
  {
    if lo < hi && IsSpace(s[hi - 1]) then TrimSpaces(s, lo, hi - 1) else hi
  }

  /** Python's `str.strip()`. */
  function Strip(s: string): string {
    var lo := SkipSpaces(s, 0);
    s[lo..TrimSpaces(s, lo, |s|)]
  }

  /** Something is left exactly when some character is no whitespace. */
  lemma StripBlank(s: string)
    ensures Strip(s) == "" <==> forall i :: 0 <= i < |s| ==> IsSpace(s[i])
  {
    var lo := SkipSpaces(s, 0);
    var hi := TrimSpaces(s, lo, |s|);
    if lo < |s| {
      assert !IsSpace(s[lo]) && lo < hi;
      assert s[lo..hi][0] == s[lo];
    }
  }

  predicate AllSpace(s: string) {
    forall i :: 0 <= i < |s| ==> IsSpace(s[i])
  }

  /** A string that neither starts nor ends with whitespace. */
  predicate Trimmed(s: string) {
    s == "" || (!IsSpace(s[0]) && !IsSpace(s[|s| - 1]))
  }

  /** `s` is `core` between runs of whitespace. */
  ghost predicate Surrounds(s: string, core: string) {
    exists left, right :: SurroundedBy(s, left, core, right)
  }

  ghost predicate SurroundedBy(s: string, left: string, core: string, right: string) {
    AllSpace(left) && AllSpace(right) && s == left + core + right
  }

  /** `Strip` removes exactly the surrounding whitespace: it is the one trimmed core of its input. */
  lemma StripCore(s: string, core: string)
    requires Surrounds(s, core) && Trimmed(core) && core != ""
    ensures Strip(s) == core
  {
    var left, right :| SurroundedBy(s, left, core, right);
    var lo := SkipSpaces(s, 0);
    assert s[|left|] == core[0];
    assert forall i :: 0 <= i < |left| ==> s[i] == left[i];
    assert lo == |left|;
    var hi := TrimSpaces(s, lo, |s|);
    assert s[|left| + |core| - 1] == core[|core| - 1];
    assert forall i :: |left| + |core| <= i < |s| ==> s[i] == right[i - |left| - |core|];
    assert hi == |left| + |core|;
  }

  lemma StripSurrounds(s: string)
    ensures Surrounds(s, Strip(s)) && Trimmed(Strip(s))
  {
    var lo := SkipSpaces(s, 0);
    var hi := TrimSpaces(s, lo, |s|);
    CutAround(s, lo, hi);
    assert SurroundedBy(s, s[..lo], Strip(s), s[hi..]);
  }

  lemma CutAround(s: string, lo: nat, hi: nat)
    requires lo <= hi <= |s|
    requires (forall k :: 0 <= k < lo ==> IsSpace(s[k])) && forall k :: hi <= k < |s| ==> IsSpace(s[k])
    ensures SurroundedBy(s, s[..lo], s[lo..hi], s[hi..])
  {
    assert s == s[..lo] + s[lo..hi] + s[hi..];
  }

  lemma StripTrimmed(s: string)
    requires Trimmed(s)
    ensures Strip(s) == s
  {
    if s != "" {
      assert SurroundedBy(s, "", s, "");
      StripCore(s, s);
    }
  }
}
