/** The gate answers False exactly for the well-formed versions at or above the floor. */
module VersionAgreement {
  import opened Text
  import opened Regex
  import opened Pep440
  import opened VersionGate

  // ---- what a suffix starts with tells its kind ----

  datatype Kind = PreKind | PostKind | DevKind | PlainKind

  /** The leading piece of a suffix, read from its first letters alone. */
  function Head(s: string): Kind {
    var i := if s != "" && SeparatorChar(s[0]) then 1 else 0;
    if i >= |s| then PlainKind
    else ByLetters(LowerChar(s[i]), if i + 1 < |s| then LowerChar(s[i + 1]) else ' ')
  }

  /** The piece that begins with the letters `c` and `d`. */
  function ByLetters(c: char, d: char): Kind {
    if c == 'a' || c == 'b' || c == 'c' then PreKind
    else if c == 'd' then DevKind
    else if c == 'p' then if d == 'r' then PreKind else PostKind
    else if c == 'r' then if d == 'c' then PreKind else PostKind
    else if Digit(c) then PostKind
    else PlainKind
  }

  function KindOf(v: Version): Kind {
    if v.pre.Some? then PreKind else if v.post.Some? then PostKind else if v.dev.Some? then DevKind else PlainKind
  }

  /** The release segment cannot reach into `s`, nor can an epoch end there. */
  predicate StopsRelease(s: string) {
    s == "" || (!Digit(s[0]) && s[0] != '!' && (s[0] == '.' ==> |s| == 1 || !Digit(s[1])))
  }

  predicate LowerLetter(c: char) {
    'a' <= c <= 'z'
  }

  /** The first letters behind the separator of a marker are those of its word. */
  lemma MarkerHead(m: Marker, rest: string)
    requires Separator(m.lead) && m.word != "" && LowerLetter(LowerChar(m.word[0]))
    ensures var s := m.Text() + rest;
      && StopsRelease(s)
      && var i := if SeparatorChar(s[0]) then 1 else 0;
      && i == |m.lead| && s[i..] == m.word + (m.gap + m.number + rest)
  {
    var s := m.Text() + rest;
    assert s == m.lead + (m.word + (m.gap + m.number + rest));
    assert s[|m.lead|] == m.word[0];
    assert s[|m.lead|..] == m.word + (m.gap + m.number + rest);
  }

  /** What follows the first letter of the word. */
  function Second(m: Marker, rest: string): char
    requires m.word != ""
  {
    var tail := m.gap + m.number + rest;
    if |m.word| > 1 then LowerChar(m.word[1]) else if tail != "" then LowerChar(tail[0]) else ' '
  }

  lemma WordHead(m: Marker, rest: string)
    requires Separator(m.lead) && m.word != "" && LowerLetter(LowerChar(m.word[0]))
    ensures Head(m.Text() + rest) == ByLetters(LowerChar(m.word[0]), Second(m, rest))
    ensures StopsRelease(m.Text() + rest) && m.Text() != ""
  {
    MarkerHead(m, rest);
    var s, i := m.Text() + rest, |m.lead|;
    assert s[i] == s[i..][0];
    assert i + 1 < |s| ==> s[i + 1] == s[i..][1];
  }

  /** A word is told from its first letter, or from the first two. */
  lemma LongWord(m: Marker, c: char, d: char)
    requires |m.word| >= 2 && Lower(m.word)[..2] == [c, d]
    ensures LowerChar(m.word[0]) == c && LowerChar(m.word[1]) == d
  {
    assert Lower(m.word)[..2][0] == c && Lower(m.word)[..2][1] == d;
  }

  lemma PreHead(m: Marker, rest: string)
    requires m.Valid(PRE_WORDS)
    ensures Head(m.Text() + rest) == PreKind && StopsRelease(m.Text() + rest) && m.Text() != ""
  {
    var w := Lower(m.word);
    assert w == "a" || w == "b" || w == "c" || w == "rc" || w == "alpha" || w == "beta" || w == "pre" || w == "preview";
    assert w[0] == LowerChar(m.word[0]);
    if |w| > 1 {
      LongWord(m, w[0], w[1]);
    }
    WordHead(m, rest);
  }

  lemma DevHead(m: Marker, rest: string)
    requires m.Valid(DEV_WORDS)
    ensures Head(m.Text() + rest) == DevKind && StopsRelease(m.Text() + rest) && m.Text() != ""
    ensures LowerChar((m.Text() + rest)[0]) != 'c'
  {
    assert Lower(m.word) == "dev";
    LongWord(m, 'd', 'e');
    WordHead(m, rest);
  }

  /** No `c` follows directly, so that a post-release `r` is not read as `rc`. */
  predicate NoC(s: string) {
    s == "" || LowerChar(s[0]) != 'c'
  }

  lemma NoCBehind(m: Marker, rest: string)
    requires Separator(m.gap) && Digits(m.number) && NoC(rest)
    ensures NoC(m.gap + m.number + rest)
  {
    if m.gap == "" && m.number == "" {
      assert m.gap + m.number + rest == rest;
    }
  }

  lemma SpelledPostHead(m: Marker, rest: string)
    requires m.Valid(POST_WORDS) && NoC(rest)
    ensures Head(m.Text() + rest) == PostKind && StopsRelease(m.Text() + rest) && m.Text() != ""
  {
    var w := Lower(m.word);
    assert w == "post" || w == "rev" || w == "r";
    if w == "post" {
      LongWord(m, 'p', 'o');
    } else if w == "rev" {
      LongWord(m, 'r', 'e');
    } else {
      assert |m.word| == 1 && LowerChar(m.word[0]) == w[0] == 'r';
      NoCBehind(m, rest);
    }
    WordHead(m, rest);
  }

  lemma PostHead(p: Post, rest: string)
    requires p.Valid() && NoC(rest)
    ensures Head(p.Text() + rest) == PostKind && StopsRelease(p.Text() + rest) && p.Text() != ""
  {
    match p
    case Implicit(n) =>
      assert (p.Text() + rest)[1] == n[0];
    case Spelled(m) =>
      SpelledPostHead(m, rest);
  }

  lemma LocalHead(l: Local)
    ensures Head(l.Text()) == PlainKind && StopsRelease(l.Text()) && NoC(l.Text()) && l.Text() != ""
  {
    assert l.Text()[0] == '+';
  }

  /** However a suffix is split into pieces, its first letters decide which piece leads. */
  lemma SuffixHead(v: Version)
    requires v.Valid()
    ensures Head(v.Suffix()) == KindOf(v) && StopsRelease(v.Suffix())
    ensures v.PreText() == "" <==> v.pre.None?
    ensures v.PostText() == "" <==> v.post.None?
    ensures v.DevText() == "" <==> v.dev.None?
  {
    var l := v.LocalText();
    var d := v.DevText() + l;
    var p := v.PostText() + d;
    if v.local.Some? {
      LocalHead(v.local.value);
    }
    if v.dev.Some? {
      DevHead(v.dev.value, l);
    } else {
      assert d == l;
    }
    if v.post.Some? {
      PostHead(v.post.value, d);
    } else {
      assert p == d;
    }
    if v.pre.Some? {
      PreHead(v.pre.value, p);
    } else {
      assert v.Suffix() == p;
    }
  }

  // ---- groups of a match are spellings, and spellings are groups ----

  ghost predicate SamePieces(v: Version, g: Groups) {
    v.PreText() == g.pre && v.PostText() == g.post && v.DevText() == g.dev && v.LocalText() == g.local
  }

  lemma GroupsOf(v: Version)
    requires v.Valid()
    ensures exists g :: IsFullMatch(v.Suffix(), g)
  {
    if v.pre.Some? {
      MarkerMatches(v.pre.value, PRE_RE_WORDS, PRE_WORDS);
    }
    if v.post.Some? {
      PostMatches(v.post.value);
    }
    if v.dev.Some? {
      MarkerMatches(v.dev.value, ["dev"], DEV_WORDS);
    }
    if v.local.Some? {
      LocalMatches(v.local.value);
    }
    assert IsFullMatch(v.Suffix(), Groups(v.PreText(), v.PostText(), v.DevText(), v.LocalText()));
  }

  function MarkerText(m: Option<Marker>): string {
    if m.Some? then m.value.Text() else ""
  }

  lemma MarkerGroup(s: string, ws: seq<string>, words: seq<string>) returns (m: Option<Marker>)
    requires SameWords(ws, words) && Matches(Opt(MarkerRe(ws)), s)
    ensures (m.Some? ==> m.value.Valid(words)) && MarkerText(m) == s
  {
    m := None;
    if s != "" {
      var n := MarkerOf(s, ws, words);
      m := Some(n);
    }
  }

  lemma PostGroup(s: string) returns (p: Option<Post>)
    requires Matches(Opt(POST_RE), s)
    ensures (p.Some? ==> p.value.Valid()) && s == if p.Some? then p.value.Text() else ""
  {
    p := None;
    if s != "" {
      var q := PostOfText(s);
      p := Some(q);
    }
  }

  lemma LocalGroup(s: string) returns (l: Option<Local>)
    requires Matches(Opt(LOCAL_RE), s)
    ensures (l.Some? ==> l.value.Valid()) && s == if l.Some? then l.value.Text() else ""
  {
    l := None;
    if s != "" {
      var k := LocalOfText(s);
      l := Some(k);
    }
  }

  lemma VersionOf(epoch: Option<string>, release: seq<string>, s: string, g: Groups) returns (v: Version)
    requires (epoch.Some? ==> Number(epoch.value)) && release != [] && Numbers(release)
    requires IsFullMatch(s, g)
    ensures v.Valid() && SamePieces(v, g) && v.Suffix() == s
    ensures v.v == "" && v.epoch == epoch && v.release == release
  {
    var pre := MarkerGroup(g.pre, PRE_RE_WORDS, PRE_WORDS);
    var post := PostGroup(g.post);
    var dev := MarkerGroup(g.dev, ["dev"], DEV_WORDS);
    var local := LocalGroup(g.local);
    v := Version("", epoch, release, pre, post, dev, local);
  }

  /** Whatever split the matcher reports, its verdict is the one the spelling deserves. */
  lemma SuffixVerdict(v: Version, g: Groups)
    requires v.Valid() && IsFullMatch(v.Suffix(), g)
    ensures SuffixTooOld(g) <==> KindOf(v) == PreKind || KindOf(v) == DevKind
  {
    var w := VersionOf(v.epoch, v.release, v.Suffix(), g);
    SuffixHead(v);
    SuffixHead(w);
  }

  // ---- releases ----

  lemma {:induction false} TrimZeros(n: nat)
    ensures Trim(Zeros(n)) == []
  {
    if n > 0 {
      TrimZeros(n - 1);
      assert Zeros(n)[1..] == Zeros(n - 1);
    }
  }

  lemma {:induction false} TrimPadded(x: seq<nat>, n: nat)
    ensures Trim(x + Zeros(n)) == Trim(x)
  {
    if x == [] {
      TrimZeros(n);
      assert x + Zeros(n) == Zeros(n);
    } else {
      TrimPadded(x[1..], n);
      assert (x + Zeros(n))[1..] == x[1..] + Zeros(n);
    }
  }

  lemma {:induction false} TrimKeepsOrder(x: seq<nat>, y: seq<nat>)
    requires |x| == |y|
    ensures TupleLess(x, y) <==> CompareSeq(Trim(x), Trim(y)) < 0
    ensures x == y <==> CompareSeq(Trim(x), Trim(y)) == 0
  {
    if x != [] {
      TrimKeepsOrder(x[1..], y[1..]);
      assert x == [x[0]] + x[1..] && y == [y[0]] + y[1..];
      TrimHead(x);
      TrimHead(y);
    }
  }

  lemma TrimHead(x: seq<nat>)
    requires x != []
    ensures Trim(x) == [] ==> x[0] == 0 && Trim(x[1..]) == []
    ensures Trim(x) != [] ==> Trim(x)[0] == x[0] && Trim(x)[1..] == Trim(x[1..])
  {
  }

  lemma {:induction false} ZerosLength(n: nat)
    ensures |Zeros(n)| == n
  {
    if n > 0 {
      ZerosLength(n - 1);
    }
  }

  lemma PadTrim(x: seq<nat>, n: nat)
    requires |x| <= n
    ensures |Pad(x, n)| == n && Trim(Pad(x, n)) == Trim(x)
  {
    ZerosLength(n - |x|);
    TrimPadded(x, n - |x|);
  }

  /** The padded tuple comparison of the program is the zero-padded order of PEP 440. */
  lemma PaddedOrder(x: seq<nat>, y: seq<nat>, n: nat)
    requires |x| <= n && |y| <= n
    ensures TupleLess(Pad(x, n), Pad(y, n)) <==> CompareSeq(Trim(x), Trim(y)) < 0
    ensures Pad(x, n) == Pad(y, n) <==> CompareSeq(Trim(x), Trim(y)) == 0
  {
    PadTrim(x, n);
    PadTrim(y, n);
    TrimKeepsOrder(Pad(x, n), Pad(y, n));
  }

  /** The constant the order is compared with is the key of "0.66". */
  lemma FloorKey()
    ensures FloorVersion().Valid()
    ensures FloorVersion().OrderKey() == FLOOR_KEY
    ensures FloorVersion().Text() == "0.66"
  {
    var parts := ["0", "66"];
    assert Number("0") && Number("66");
    assert "66"[..1] == "6" && "6"[..0] == "" && "0"[..0] == "";
    assert Value("6") == 6 && Value("66") == 66 && Value("0") == 0;
    assert parts[1..] == ["66"] && ["66"][1..] == [];
    assert Values(["66"]) == [66];
    assert Values(parts) == [0, 66];
  }

  lemma AtFloorIsOrder(v: Version)
    requires v.Valid()
    ensures FloorVersion().Valid() && (AtLeast(v, FloorVersion()) <==> AtFloor(v))
  {
    FloorKey();
  }

  lemma AcceptableIs(raw: string, v: Version)
    ensures Acceptable(raw, v) <==> Spells(raw, v) && Convertible(v) && AtFloor(v)
  {
    if Spells(raw, v) {
      AtFloorIsOrder(v);
    }
  }

  function EpochValue(v: Version): nat
    requires v.Valid()
  {
    if v.epoch.Some? then Value(v.epoch.value) else 0
  }

  lemma AtFloorMeans(v: Version)
    requires v.Valid()
    ensures AtFloor(v) <==>
      var c := CompareSeq(Trim(Values(v.release)), Trim(FLOOR));
      EpochValue(v) > 0 || c > 0 || (c == 0 && (KindOf(v) == PostKind || KindOf(v) == PlainKind))
  {
  }

  /** After the release is converted: the verdict is the order. */
  lemma ReleaseVerdict(v: Version, g: Groups)
    requires v.Valid() && IsFullMatch(v.Suffix(), g)
    ensures (EpochValue(v) == 0 && ReleaseTooOld(Values(v.release), g)) <==> !AtFloor(v)
  {
    var x := Values(v.release);
    PaddedOrder(x, FLOOR, if |x| > |FLOOR| then |x| else |FLOOR|);
    AtFloorMeans(v);
    SuffixVerdict(v, g);
  }

  // ---- reading the prefix ----

  lemma DigitsEndAt(s: string, n: nat)
    requires n <= |s| && Digits(s[..n]) && (n == |s| || !Digit(s[n]))
    ensures DigitsEnd(s, 0) == n
  {
    assert forall k :: 0 <= k < n ==> Digit(s[..n][k]);
  }

  /** One dotted step of the greedy release match. */
  lemma ReleaseStep(p: string, rest: string)
    requires Number(p) && rest != "" && Digit(rest[0])
    ensures ReleaseLength(p + "." + rest) == |p| + 1 + ReleaseLength(rest)
  {
    var s := p + "." + rest;
    assert s[..|p|] == p && s[|p| + 1..] == rest;
    DigitsEndAt(s, |p|);
  }

  lemma ReleaseStop(p: string, suffix: string)
    requires Number(p) && StopsRelease(suffix)
    ensures ReleaseLength(p + suffix) == |p|
  {
    assert (p + suffix)[..|p|] == p && (p + suffix)[|p|..] == suffix;
    DigitsEndAt(p + suffix, |p|);
  }

  lemma {:induction false} ReleaseLengthOfJoin(parts: seq<string>, suffix: string)
    requires parts != [] && Numbers(parts) && StopsRelease(suffix)
    ensures ReleaseLength(Join(parts, '.') + suffix) == |Join(parts, '.')|
  {
    assert parts[0] in parts;
    if |parts| == 1 {
      ReleaseStop(parts[0], suffix);
    } else {
      var rest := Join(parts[1..], '.');
      ReleaseStart(parts[1..]);
      ReleaseLengthOfJoin(parts[1..], suffix);
      ReleaseStep(parts[0], rest + suffix);
      Grouped(parts[0], rest, suffix);
    }
  }

  lemma Grouped(first: string, rest: string, suffix: string)
    ensures (first + ['.'] + rest) + suffix == first + "." + (rest + suffix)
  {
  }

  lemma {:induction false} NumbersFreeOfDots(parts: seq<string>)
    requires Numbers(parts)
    ensures Free(parts, '.')
  {
    forall p | p in parts ensures '.' !in p {
      assert Number(p);
    }
  }

  lemma {:induction false} ReleaseIsNumbers(s: string)
    requires ReleaseLength(s) > 0
    ensures Numbers(Split(s[..ReleaseLength(s)], '.'))
    decreases |s|
  {
    var d, n := DigitsEnd(s, 0), ReleaseLength(s);
    assert Number(s[..d]);
    if d + 1 < |s| && s[d] == '.' && Digit(s[d + 1]) {
      var t := s[d + 1..];
      ReleaseIsNumbers(t);
      assert s[..n] == s[..d] + ['.'] + t[..ReleaseLength(t)];
      SplitAtSeparator(s[..d], t[..ReleaseLength(t)], '.');
    } else {
      SplitPlain(s[..d], '.');
    }
  }

  lemma {:induction false} ParseIntsOf(parts: seq<string>)
    requires Numbers(parts)
    ensures ParseInts(parts).Some? <==> forall p :: p in parts ==> |p| <= MAX_INT_DIGITS
    ensures ParseInts(parts).Some? ==> ParseInts(parts).value == Values(parts)
  {
    if parts != [] {
      assert parts[0] in parts;
      assert parts == [parts[0]] + parts[1..];
      ParseIntsOf(parts[1..]);
    }
  }

  // ---- no whitespace in a version ----

  predicate Solid(s: string) {
    forall i :: 0 <= i < |s| ==> !IsSpace(s[i])
  }

  predicate Letters(w: string) {
    forall i :: 0 <= i < |w| ==> LowerLetter(w[i])
  }

  lemma PreWordLetters(w: string)
    requires w in PRE_WORDS
    ensures Letters(w)
  {
    assert w == "a" || w == "b" || w == "c" || w == "rc" || w == "alpha" || w == "beta" || w == "pre" || w == "preview";
  }

  lemma OtherWordLetters(w: string)
    requires w in POST_WORDS || w in DEV_WORDS
    ensures Letters(w)
  {
    assert w == "post" || w == "rev" || w == "r" || w == "dev";
  }

  lemma MarkerSolid(m: Marker)
    requires Separator(m.lead) && Letters(Lower(m.word)) && Separator(m.gap) && Digits(m.number)
    ensures Solid(m.Text())
  {
    var w := Lower(m.word);
    assert forall i :: 0 <= i < |m.word| ==> w[i] == LowerChar(m.word[i]) && LowerLetter(w[i]);
    assert Solid(m.word);
    SolidCat(m.gap, m.number);
    SolidCat(m.word, m.gap + m.number);
    SolidCat(m.lead, m.word + (m.gap + m.number));
  }

  lemma {:induction false} TailSolid(t: Tail)
    requires t.Valid()
    ensures Solid(t.Text())
  {
    if t.More? {
      TailSolid(t.rest);
    }
  }

  lemma {:induction false} JoinSolid(parts: seq<string>)
    requires Numbers(parts)
    ensures Solid(Join(parts, '.'))
  {
    if parts != [] {
      assert parts[0] in parts;
      if |parts| > 1 {
        JoinSolid(parts[1..]);
      }
    }
  }

  lemma PreSolid(v: Version)
    requires v.Valid()
    ensures Solid(v.PreText())
  {
    if v.pre.Some? {
      PreWordLetters(Lower(v.pre.value.word));
      MarkerSolid(v.pre.value);
    }
  }

  lemma DevSolid(v: Version)
    requires v.Valid()
    ensures Solid(v.DevText())
  {
    if v.dev.Some? {
      OtherWordLetters(Lower(v.dev.value.word));
      MarkerSolid(v.dev.value);
    }
  }

  lemma LocalSolid(v: Version)
    requires v.Valid()
    ensures Solid(v.LocalText())
  {
    if v.local.Some? {
      TailSolid(v.local.value.rest);
    }
  }

  lemma PostSolid(v: Version)
    requires v.Valid()
    ensures Solid(v.PostText())
  {
    if v.post.Some? && v.post.value.Spelled? {
      OtherWordLetters(Lower(v.post.value.marker.word));
      MarkerSolid(v.post.value.marker);
    }
  }

  lemma SolidCat(x: string, y: string)
    requires Solid(x) && Solid(y)
    ensures Solid(x + y)
  {
  }

  lemma SuffixSolid(v: Version)
    requires v.Valid()
    ensures Solid(v.Suffix())
  {
    PreSolid(v);
    PostSolid(v);
    DevSolid(v);
    LocalSolid(v);
    SolidCat(v.DevText(), v.LocalText());
    SolidCat(v.PostText(), v.DevText() + v.LocalText());
    SolidCat(v.PreText(), v.PostText() + (v.DevText() + v.LocalText()));
  }

  lemma VersionSolid(v: Version)
    requires v.Valid()
    ensures Solid(v.Text()) && v.Text() != ""
  {
    SuffixSolid(v);
    JoinSolid(v.release);
    assert Solid(v.EpochText());
    assert v.release[0] in v.release;
    assert Join(v.release, '.') != "";
  }

  // ---- the two directions ----

  /** The text behind the optional `v`. */
  function Unprefixed(v: Version): string {
    v.EpochText() + (Join(v.release, '.') + v.Suffix())
  }

  lemma SplitRemainder(release: seq<string>, suffix: string)
    requires release != [] && Numbers(release) && StopsRelease(suffix)
    ensures var raw := Join(release, '.') + suffix;
      var n := ReleaseLength(raw);
      n > 0 && raw[..n] == Join(release, '.') && raw[n..] == suffix
  {
    var r := Join(release, '.');
    ReleaseLengthOfJoin(release, suffix);
    assert (r + suffix)[..|r|] == r && (r + suffix)[|r|..] == suffix;
    ReleaseStart(release);
  }

  predicate ShortNumbers(parts: seq<string>) {
    forall p :: p in parts ==> |p| <= MAX_INT_DIGITS
  }

  lemma ReadSegments(above: bool, v: Version)
    requires v.Valid() && above == (EpochValue(v) > 0)
    ensures !SegmentsTooOld(above, Join(v.release, '.'), v.Suffix()) <==> ShortNumbers(v.release) && AtFloor(v)
  {
    NumbersFreeOfDots(v.release);
    SplitJoin(v.release, '.');
    ParseIntsOf(v.release);
    GroupsOf(v);
    ReleaseVerdict(v, FullMatch(v.Suffix()).value);
  }

  lemma ReadRemainder(above: bool, v: Version)
    requires v.Valid() && above == (EpochValue(v) > 0)
    ensures !RemainderTooOld(above, Join(v.release, '.') + v.Suffix()) <==> ShortNumbers(v.release) && AtFloor(v)
  {
    SuffixHead(v);
    SplitRemainder(v.release, v.Suffix());
    ReadSegments(above, v);
  }

  lemma ReleaseStart(parts: seq<string>)
    requires parts != [] && Numbers(parts)
    ensures var r := Join(parts, '.');
      && r != "" && Digit(r[0])
      && r[..|parts[0]|] == parts[0] && (|r| > |parts[0]| ==> r[|parts[0]|] == '.')
      && |parts[0]| <= |r|
  {
    assert parts[0] in parts;
  }

  lemma ReadEpoch(e: string, body: string)
    requires Number(e)
    ensures UnprefixedTooOld(e + "!" + body) <==> EpochTooOld(e, body)
  {
    var raw := e + "!" + body;
    assert raw[..|e|] == e && raw[|e| + 1..] == body;
    DigitsEndAt(raw, |e|);
  }

  lemma NoEpoch(release: seq<string>, suffix: string)
    requires release != [] && Numbers(release) && StopsRelease(suffix)
    ensures var raw := Join(release, '.') + suffix;
      var e := DigitsEnd(raw, 0);
      !(0 < e < |raw| && raw[e] == '!')
  {
    var r := Join(release, '.');
    var raw, n := r + suffix, |release[0]|;
    ReleaseStart(release);
    assert release[0] in release;
    assert raw[..n] == r[..n];
    DigitsEndAt(raw, n);
  }

  /** Reading the text of a version decides it as the order does. */
  lemma ReadVersion(v: Version)
    requires v.Valid()
    ensures !UnprefixedTooOld(Unprefixed(v)) <==> Convertible(v) && AtFloor(v)
  {
    var body := Join(v.release, '.') + v.Suffix();
    if v.epoch.Some? {
      ReadWithEpoch(v, v.epoch.value, body);
      EpochVerdict(v, v.epoch.value, body);
    } else {
      ReadPlain(v, body);
      PlainVerdict(v, body);
    }
  }

  lemma ReadWithEpoch(v: Version, e: string, body: string)
    requires v.Valid() && v.epoch == Some(e) && body == Join(v.release, '.') + v.Suffix()
    ensures UnprefixedTooOld(Unprefixed(v)) <==> EpochTooOld(e, body)
  {
    assert Unprefixed(v) == e + "!" + body;
    ReadEpoch(e, body);
  }

  lemma EpochVerdict(v: Version, e: string, body: string)
    requires v.Valid() && v.epoch == Some(e) && body == Join(v.release, '.') + v.Suffix()
    ensures !EpochTooOld(e, body) <==> Convertible(v) && AtFloor(v)
  {
    ReadRemainder(EpochValue(v) > 0, v);
    EpochIsRead(e, body);
    EpochConvertible(v, e);
  }

  lemma EpochIsRead(e: string, body: string)
    requires Number(e)
    ensures EpochTooOld(e, body) <==> |e| > MAX_INT_DIGITS || RemainderTooOld(Value(e) > 0, body)
  {
  }

  lemma EpochConvertible(v: Version, e: string)
    requires v.epoch == Some(e)
    ensures Convertible(v) <==> |e| <= MAX_INT_DIGITS && ShortNumbers(v.release)
  {
  }

  lemma PlainVerdict(v: Version, body: string)
    requires v.Valid() && v.epoch.None? && body == Join(v.release, '.') + v.Suffix()
    ensures !RemainderTooOld(false, body) <==> Convertible(v) && AtFloor(v)
  {
    ReadRemainder(false, v);
  }

  lemma ReadPlain(v: Version, body: string)
    requires v.Valid() && v.epoch.None? && body == Join(v.release, '.') + v.Suffix()
    ensures Unprefixed(v) == body && (UnprefixedTooOld(body) <==> RemainderTooOld(false, body))
  {
    SuffixHead(v);
    NoEpoch(v.release, v.Suffix());
    assert Unprefixed(v) == body;
  }

  lemma UnprefixedStart(v: Version)
    requires v.Valid()
    ensures var t := Unprefixed(v); t != "" && Digit(t[0])
  {
    ReleaseStart(v.release);
    if v.epoch.Some? {
      assert Unprefixed(v)[0] == v.epoch.value[0];
    }
  }

  lemma SpelledIsRead(raw: string, v: Version)
    requires Spells(raw, v)
    ensures DropV(Strip(raw)) == Unprefixed(v)
  {
    VersionSolid(v);
    StripCore(raw, v.Text());
    UnprefixedStart(v);
    DropsPrefix(v.v, Unprefixed(v));
  }

  lemma DropsPrefix(p: string, t: string)
    requires (p == "" || p == "v" || p == "V") && t != "" && Digit(t[0])
    ensures DropV(p + t) == t
  {
    assert p == "" ==> p + t == t;
  }

  lemma ReleaseRejoins(raw: string, release: string, suffix: string)
    requires ReleaseLength(raw) > 0 && release == raw[..ReleaseLength(raw)] && suffix == raw[ReleaseLength(raw)..]
    ensures Numbers(Split(release, '.')) && Join(Split(release, '.'), '.') == release && release + suffix == raw
  {
    ReleaseIsNumbers(raw);
    JoinSplit(release, '.');
  }

  lemma ReadBackSegments(above: bool, release: string, suffix: string, epoch: Option<string>) returns (v: Version)
    requires !SegmentsTooOld(above, release, suffix) && (epoch.Some? ==> Number(epoch.value))
    requires Numbers(Split(release, '.')) && Join(Split(release, '.'), '.') == release
    ensures v.Valid() && v.v == "" && v.epoch == epoch && Join(v.release, '.') + v.Suffix() == release + suffix
  {
    v := VersionOf(epoch, Split(release, '.'), suffix, FullMatch(suffix).value);
  }

  lemma ReadBackRemainder(above: bool, raw: string, epoch: Option<string>) returns (v: Version)
    requires !RemainderTooOld(above, raw) && (epoch.Some? ==> Number(epoch.value))
    ensures v.Valid() && v.v == "" && v.epoch == epoch && Join(v.release, '.') + v.Suffix() == raw
  {
    var release, suffix := raw[..ReleaseLength(raw)], raw[ReleaseLength(raw)..];
    ReleaseRejoins(raw, release, suffix);
    v := ReadBackSegments(above, release, suffix, epoch);
  }

  lemma ReadBackEpoch(epoch: string, body: string) returns (v: Version)
    requires Number(epoch) && !EpochTooOld(epoch, body)
    ensures v.Valid() && Unprefixed(v) == epoch + "!" + body && v.v == ""
  {
    v := ReadBackRemainder(Value(epoch) > 0, body, Some(epoch));
  }

  /** A text the gate lets through is a version. */
  lemma ReadBack(raw: string) returns (v: Version)
    requires !UnprefixedTooOld(raw)
    ensures v.Valid() && Unprefixed(v) == raw && v.v == ""
  {
    var e := DigitsEnd(raw, 0);
    if 0 < e < |raw| && raw[e] == '!' {
      v := ReadBackEpoch(raw[..e], raw[e + 1..]);
      BangSplits(raw, e);
    } else {
      v := ReadBackRemainder(false, raw, None);
      NothingBefore(v);
    }
  }

  lemma BangSplits(raw: string, e: nat)
    requires e < |raw| && raw[e] == '!'
    ensures raw == raw[..e] + "!" + raw[e + 1..]
  {
  }

  lemma NothingBefore(v: Version)
    requires v.epoch.None?
    ensures Unprefixed(v) == Join(v.release, '.') + v.Suffix()
  {
  }

  lemma Respell(raw: string, v: Version) returns (w: Version)
    requires v.Valid() && v.v == "" && DropV(Strip(raw)) == Unprefixed(v)
    ensures Spells(raw, w) && Unprefixed(w) == Unprefixed(v)
  {
    var s := Strip(raw);
    StripSurrounds(raw);
    if s == Unprefixed(v) {
      w := v;
      assert w.Text() == s;
    } else {
      w := v.(v := [s[0]]);
      assert w.Text() == [s[0]] + s[1..];
      assert s == [s[0]] + s[1..];
    }
  }

  /**
   * For every text: the gate answers False exactly when the text spells a PEP 440 version at or
   * above the floor in the PEP 440 order (and Python can convert its epoch and release numbers).
   */
  lemma GateAgrees(raw: string)
    requires Ascii(raw)
    ensures !TextualTooOld(Some(raw)) <==> exists v :: Acceptable(raw, v)
  {
    if !TextualTooOld(Some(raw)) {
      var v := ReadBack(DropV(Strip(raw)));
      var w := Respell(raw, v);
      ReadVersion(w);
      AcceptableIs(raw, w);
    }
    if v :| Acceptable(raw, v) {
      AcceptableIs(raw, v);
      SpelledIsRead(raw, v);
      ReadVersion(v);
    }
  }

  /** Two spellings of one text are verdict-equivalent: no spelling is below the floor if another is above. */
  lemma SpellingsAgree(raw: string, v: Version, w: Version)
    requires Spells(raw, v) && Spells(raw, w)
    ensures Convertible(v) && AtFloor(v) <==> Convertible(w) && AtFloor(w)
  {
    SpelledIsRead(raw, v);
    SpelledIsRead(raw, w);
    ReadVersion(v);
    ReadVersion(w);
  }
}
