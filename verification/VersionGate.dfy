/** The gate `textual_too_old` (riglib/doctor.py) and what it has to mean; `VersionAgreement` proves that it does. */
module VersionGate {
  import opened Text
  import opened Regex
  import opened Pep440

  // ---- the program ----

  const FLOOR: seq<nat> := [0, 66]

  /** Python refuses to convert longer digit strings to integers. */
  const MAX_INT_DIGITS: nat := 4300

  const SEP := Opt(One({'.', '-', '_'}))
  const DIGIT_CLASS := set c: char | '0' <= c <= '9'
  const ALNUM_CLASS := set c: char | '0' <= c <= '9' || 'a' <= c <= 'z'

  function MarkerRe(ws: seq<string>): Re {
    Cat(SEP, Cat(Words(ws), Cat(SEP, Star(One(DIGIT_CLASS)))))
  }

  const PRE_RE_WORDS := ["alpha", "beta", "preview", "rc", "a", "b", "c", "pre"]
  const PRE_RE := MarkerRe(PRE_RE_WORDS)
  const DEV_RE := MarkerRe(["dev"])
  const IMPLICIT_RE := Cat(One({'-'}), Plus(One(DIGIT_CLASS)))
  const POST_RE := Alt(MarkerRe(["post", "rev", "r"]), IMPLICIT_RE)
  const LABEL_RE := Plus(One(ALNUM_CLASS))
  const MORE_RE := Cat(One({'.', '-', '_'}), LABEL_RE)
  const LOCAL_RE := Cat(One({'+'}), Cat(LABEL_RE, Star(MORE_RE)))

  /** The named groups of a full match of the suffix pattern. */
  datatype Groups = Groups(pre: string, post: string, dev: string, local: string)

  ghost predicate IsFullMatch(s: string, g: Groups) {
    && s == g.pre + (g.post + (g.dev + g.local))
    && Matches(Opt(PRE_RE), g.pre)
    && Matches(Opt(POST_RE), g.post)
    && Matches(Opt(DEV_RE), g.dev)
    && Matches(Opt(LOCAL_RE), g.local)
  }

  /** `fullmatch`: nothing is assumed about which of several possible splits is reported. */
  ghost function FullMatch(s: string): Option<Groups> {
    if exists g :: IsFullMatch(s, g) then
      var g :| IsFullMatch(s, g);
      Some(g)
    else None
  }

  function DigitsEnd(s: string, i: nat): (n: nat)
    requires i <= |s|
    ensures i <= n <= |s| && (n == |s| || !Digit(s[n]))
    ensures forall k :: i <= k < n ==> Digit(s[k])
    decreases |s| - i
  {
    if i < |s| && Digit(s[i]) then DigitsEnd(s, i + 1) else i
  }

  /** The length of the greedy match of `[0-9]+(?:\.[0-9]+)*` at the start of `s`. */
  function ReleaseLength(s: string): (n: nat)
    ensures n <= |s|
  {
    var d := DigitsEnd(s, 0);
    if 0 < d && d + 1 < |s| && s[d] == '.' && Digit(s[d + 1]) then d + 1 + ReleaseLength(s[d + 1..])
    else d
  }

  /** `int(s)`; `None` stands for the ValueError. */
  function ParseInt(s: string): Option<nat> {
    if Number(s) && |s| <= MAX_INT_DIGITS then Some(Value(s)) else None
  }

  function ParseInts(parts: seq<string>): Option<seq<nat>> {
    if parts == [] then Some([])
    else
      match (ParseInt(parts[0]), ParseInts(parts[1..]))
      case (Some(n), Some(ns)) => Some([n] + ns)
      case _ => None
  }

  function Zeros(n: nat): seq<nat> {
    if n == 0 then [] else [0] + Zeros(n - 1)
  }

  function Pad(x: seq<nat>, n: nat): seq<nat> {
    if |x| < n then x + Zeros(n - |x|) else x
  }

  /** Python's `x < y` on tuples of integers. */
  predicate TupleLess(x: seq<nat>, y: seq<nat>) {
    y != [] && (x == [] || x[0] < y[0] || (x[0] == y[0] && TupleLess(x[1..], y[1..])))
  }

  ghost predicate SuffixTooOld(g: Groups) {
    g.pre != "" || (g.dev != "" && g.post == "")
  }

  ghost predicate ReleaseTooOld(version: seq<nat>, g: Groups) {
    var n := if |version| > |FLOOR| then |version| else |FLOOR|;
    if Pad(version, n) != Pad(FLOOR, n) then TupleLess(Pad(version, n), Pad(FLOOR, n))
    else SuffixTooOld(g)
  }

  /** `release` is the matched release segment, `suffix` what follows it, `above` the verdict of the epoch. */
  ghost predicate SegmentsTooOld(above: bool, release: string, suffix: string) {
    var version := ParseInts(Split(release, '.'));
    var groups := FullMatch(suffix);
    version.None? || groups.None? || (!above && ReleaseTooOld(version.value, groups.value))
  }

  ghost predicate RemainderTooOld(above: bool, raw: string) {
    var n := ReleaseLength(raw);
    n == 0 || SegmentsTooOld(above, raw[..n], raw[n..])
  }

  ghost predicate EpochTooOld(epoch: string, remainder: string) {
    var n := ParseInt(epoch);
    n.None? || RemainderTooOld(n.value > 0, remainder)
  }

  ghost predicate UnprefixedTooOld(raw: string) {
    var e := DigitsEnd(raw, 0);
    if 0 < e < |raw| && raw[e] == '!' then EpochTooOld(raw[..e], raw[e + 1..])
    else RemainderTooOld(false, raw)
  }

  function DropV(raw: string): string {
    if raw != "" && (raw[0] == 'v' || raw[0] == 'V') then raw[1..] else raw
  }

  predicate Ascii(s: string) {
    forall i :: 0 <= i < |s| ==> s[i] < 128 as char
  }

  /** `metadata` is `None` when the distribution's version cannot be read. */
  ghost predicate TextualTooOld(metadata: Option<string>)
    requires metadata.Some? ==> Ascii(metadata.value)
  {
    metadata.None? || UnprefixedTooOld(DropV(Strip(metadata.value)))
  }

  // ---- the specification ----

  function FloorVersion(): Version {
    Version("", None, ["0", "66"], None, None, None, None)
  }

  /** The order key of `FloorVersion`, see `FloorKey`. */
  const FLOOR_KEY := Key(0, Trim(FLOOR), Final, NoPost, NoDev, NoLocal)

  /** The order against `FLOOR_KEY`; `AtFloorIsOrder` shows that it is the order against `FloorVersion`. */
  predicate AtFloor(v: Version)
    requires v.Valid()
  {
    Compare(v.OrderKey(), FLOOR_KEY) >= 0
  }

  /** Every number the gate converts is short enough for Python. */
  predicate Convertible(v: Version) {
    (v.epoch.Some? ==> |v.epoch.value| <= MAX_INT_DIGITS) && forall p :: p in v.release ==> |p| <= MAX_INT_DIGITS
  }

  ghost predicate Spells(raw: string, v: Version) {
    v.Valid() && Surrounds(raw, v.Text())
  }

  /** `raw` spells a version that is at least 0.66 in the PEP 440 order, with numbers that Python converts. */
  ghost predicate Acceptable(raw: string, v: Version) {
    Spells(raw, v) && Convertible(v) && FloorVersion().Valid() && AtLeast(v, FloorVersion())
  }

  // ---- suffix pieces: the patterns and the spellings describe the same texts ----

  ghost predicate SameWords(x: seq<string>, y: seq<string>) {
    forall w :: w in x <==> w in y
  }

  lemma SepMatches(s: string)
    ensures Matches(SEP, s) <==> Separator(s)
  {
    assert Matches(SEP, s) <==> s == "" || Matches(One({'.', '-', '_'}), s);
  }

  lemma DigitsMatch(s: string)
    ensures Matches(Star(One(DIGIT_CLASS)), s) <==> Digits(s)
  {
    StarOfClass(DIGIT_CLASS, s);
    assert forall i :: 0 <= i < |s| ==> (LowerChar(s[i]) in DIGIT_CLASS <==> Digit(s[i]));
  }

  lemma NumberMatches(s: string)
    ensures Matches(Plus(One(DIGIT_CLASS)), s) <==> Number(s)
  {
    PlusOfClass(DIGIT_CLASS, s);
    assert forall i :: 0 <= i < |s| ==> (LowerChar(s[i]) in DIGIT_CLASS <==> Digit(s[i]));
  }

  lemma LabelMatches(s: string)
    ensures Matches(LABEL_RE, s) <==> Label(s)
  {
    PlusOfClass(ALNUM_CLASS, s);
    assert forall i :: 0 <= i < |s| ==> (LowerChar(s[i]) in ALNUM_CLASS <==> Alnum(s[i]));
  }

  lemma MarkerMatches(m: Marker, ws: seq<string>, words: seq<string>)
    requires SameWords(ws, words) && m.Valid(words)
    ensures Matches(MarkerRe(ws), m.Text())
  {
    SepMatches(m.lead);
    SepMatches(m.gap);
    DigitsMatch(m.number);
    var digits := Star(One(DIGIT_CLASS));
    CatMatches(SEP, digits, m.gap, m.number);
    CatMatches(Words(ws), Cat(SEP, digits), m.word, m.gap + m.number);
    CatMatches(SEP, Cat(Words(ws), Cat(SEP, digits)), m.lead, m.word + (m.gap + m.number));
  }

  lemma MarkerOf(s: string, ws: seq<string>, words: seq<string>) returns (m: Marker)
    requires SameWords(ws, words) && Matches(MarkerRe(ws), s)
    ensures m.Valid(words) && m.Text() == s
  {
    var digits := Star(One(DIGIT_CLASS));
    var lead, rest := CatSplits(SEP, Cat(Words(ws), Cat(SEP, digits)), s);
    var word, end := CatSplits(Words(ws), Cat(SEP, digits), rest);
    var gap, number := CatSplits(SEP, digits, end);
    SepMatches(lead);
    SepMatches(gap);
    DigitsMatch(number);
    m := Marker(lead, word, gap, number);
  }

  lemma PostMatches(p: Post)
    requires p.Valid()
    ensures Matches(POST_RE, p.Text())
  {
    match p
    case Spelled(m) =>
      MarkerMatches(m, ["post", "rev", "r"], POST_WORDS);
    case Implicit(n) =>
      NumberMatches(n);
      assert Matches(One({'-'}), "-");
      CatMatches(One({'-'}), Plus(One(DIGIT_CLASS)), "-", n);
  }

  lemma PostOfText(s: string) returns (p: Post)
    requires Matches(POST_RE, s)
    ensures p.Valid() && p.Text() == s
  {
    if Matches(MarkerRe(["post", "rev", "r"]), s) {
      var m := MarkerOf(s, ["post", "rev", "r"], POST_WORDS);
      p := Spelled(m);
    } else {
      var dash, n := CatSplits(One({'-'}), Plus(One(DIGIT_CLASS)), s);
      NumberMatches(n);
      assert dash == "-";
      p := Implicit(n);
    }
  }

  lemma {:induction false} TailMatches(t: Tail)
    requires t.Valid()
    ensures Matches(Star(MORE_RE), t.Text())
  {
    if t.More? {
      TailMatches(t.rest);
      LabelMatches(t.text);
      assert Matches(One({'.', '-', '_'}), [t.sep]);
      CatMatches(One({'.', '-', '_'}), LABEL_RE, [t.sep], t.text);
      StarMatches(MORE_RE, [t.sep] + t.text, t.rest.Text());
    }
  }

  lemma {:induction false} TailOf(s: string) returns (t: Tail)
    requires Matches(Star(MORE_RE), s)
    ensures t.Valid() && t.Text() == s
    decreases |s|
  {
    if s == "" {
      t := End;
    } else {
      var x, y := StarSplits(MORE_RE, s);
      var sep, text := CatSplits(One({'.', '-', '_'}), LABEL_RE, x);
      LabelMatches(text);
      var rest := TailOf(y);
      t := More(sep[0], text, rest);
      assert sep == [sep[0]];
    }
  }

  lemma LocalMatches(l: Local)
    requires l.Valid()
    ensures Matches(LOCAL_RE, l.Text())
  {
    LabelMatches(l.first);
    TailMatches(l.rest);
    CatMatches(LABEL_RE, Star(MORE_RE), l.first, l.rest.Text());
    assert Matches(One({'+'}), "+");
    CatMatches(One({'+'}), Cat(LABEL_RE, Star(MORE_RE)), "+", l.first + l.rest.Text());
  }

  lemma LocalOfText(s: string) returns (l: Local)
    requires Matches(LOCAL_RE, s)
    ensures l.Valid() && l.Text() == s
  {
    var plus, x := CatSplits(One({'+'}), Cat(LABEL_RE, Star(MORE_RE)), s);
    var first, y := CatSplits(LABEL_RE, Star(MORE_RE), x);
    LabelMatches(first);
    var rest := TailOf(y);
    assert plus == "+";
    l := Local(first, rest);
  }
}
