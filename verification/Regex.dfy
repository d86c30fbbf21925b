/** The part of Python's `re` that the version gate uses, with IGNORECASE over ASCII text. */
module Regex {

  function LowerChar(c: char): char {
    if 'A' <= c <= 'Z' then (c as int + 32) as char else c
  }

  function Lower(s: string): (r: string)
    ensures |r| == |s| && forall i :: 0 <= i < |s| ==> r[i] == LowerChar(s[i])
  {
    seq(|s|, i requires 0 <= i < |s| => LowerChar(s[i]))
  }

  /** Classes and words are given in lower case. */
  datatype Re =
    | One(cs: set<char>)
    | Words(ws: seq<string>)
    | Cat(first: Re, second: Re)
    | Alt(left: Re, right: Re)
    | Opt(body: Re)
    | Star(item: Re)

  function Plus(re: Re): Re {
    Cat(re, Star(re))
  }

  /** `re` matches all of `s`, in one way or another. */
  ghost predicate Matches(re: Re, s: string)
    decreases re, |s|
  {
    match re
    case One(cs) => |s| == 1 && LowerChar(s[0]) in cs
    case Words(ws) => Lower(s) in ws
    case Cat(a, b) => exists k :: 0 <= k <= |s| && Matches(a, s[..k]) && Matches(b, s[k..])
    case Alt(a, b) => Matches(a, s) || Matches(b, s)
    case Opt(a) => s == "" || Matches(a, s)
    case Star(a) => s == "" || exists k :: 1 <= k <= |s| && Matches(a, s[..k]) && Matches(re, s[k..])
  }

  lemma CatMatches(a: Re, b: Re, x: string, y: string)
    requires Matches(a, x) && Matches(b, y)
    ensures Matches(Cat(a, b), x + y)
  {
    assert (x + y)[..|x|] == x && (x + y)[|x|..] == y;
  }

  lemma CatSplits(a: Re, b: Re, s: string) returns (x: string, y: string)
    requires Matches(Cat(a, b), s)
    ensures Matches(a, x) && Matches(b, y) && s == x + y
  {
    var k :| 0 <= k <= |s| && Matches(a, s[..k]) && Matches(b, s[k..]);
    x, y := s[..k], s[k..];
  }

  lemma StarMatches(a: Re, x: string, y: string)
    requires Matches(a, x) && x != "" && Matches(Star(a), y)
    ensures Matches(Star(a), x + y)
  {
    assert (x + y)[..|x|] == x && (x + y)[|x|..] == y;
  }

  lemma StarSplits(a: Re, s: string) returns (x: string, y: string)
    requires Matches(Star(a), s) && s != ""
    ensures Matches(a, x) && x != "" && Matches(Star(a), y) && s == x + y
  {
    var k :| 1 <= k <= |s| && Matches(a, s[..k]) && Matches(Star(a), s[k..]);
    x, y := s[..k], s[k..];
  }

  ghost predicate AllIn(s: string, cs: set<char>) {
    forall i :: 0 <= i < |s| ==> LowerChar(s[i]) in cs
  }

  lemma {:induction false} StarOfClass(cs: set<char>, s: string)
    ensures Matches(Star(One(cs)), s) <==> AllIn(s, cs)
    decreases |s|
  {
    if s != "" {
      StarOfClass(cs, s[1..]);
      if AllIn(s, cs) {
        StarMatches(One(cs), s[..1], s[1..]);
        assert s == s[..1] + s[1..];
      }
      if Matches(Star(One(cs)), s) {
        var x, y := StarSplits(One(cs), s);
        assert y == s[1..] && x[0] == s[0];
      }
    }
  }

  lemma PlusOfClass(cs: set<char>, s: string)
    ensures Matches(Plus(One(cs)), s) <==> s != "" && AllIn(s, cs)
  {
    if Matches(Plus(One(cs)), s) {
      var x, y := CatSplits(One(cs), Star(One(cs)), s);
      StarOfClass(cs, y);
    }
    if s != "" && AllIn(s, cs) {
      StarOfClass(cs, s[1..]);
      CatMatches(One(cs), Star(One(cs)), s[..1], s[1..]);
      assert s == s[..1] + s[1..];
    }
  }
}
