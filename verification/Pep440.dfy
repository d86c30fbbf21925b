/**
 * Version identifiers as PEP 440 defines them: the spellings of Appendix B and the order of
 * "Summary of permitted suffixes and relative ordering". Nothing here knows about the gate.
 */
module Pep440 {
  import opened Text
  import opened Regex

  predicate Digit(c: char) {
    '0' <= c <= '9'
  }

  predicate Alnum(c: char) {
    Digit(c) || 'a' <= c <= 'z' || 'A' <= c <= 'Z'
  }

  predicate SeparatorChar(c: char) {
    c == '.' || c == '-' || c == '_'
  }

  predicate Separator(s: string) {
    s == "" || (|s| == 1 && SeparatorChar(s[0]))
  }

  predicate Digits(s: string) {
    forall i :: 0 <= i < |s| ==> Digit(s[i])
  }

  /** A decimal number, leading zeros allowed. */
  predicate Number(s: string) {
    s != "" && Digits(s)
  }

  predicate Label(s: string) {
    s != "" && forall i :: 0 <= i < |s| ==> Alnum(s[i])
  }

  function Value(digits: string): nat
    requires Digits(digits)
  {
    if digits == "" then 0
    else 10 * Value(digits[..|digits| - 1]) + (digits[|digits| - 1] as int - '0' as int)
  }

  // ---- spellings ----

  const PRE_WORDS := ["a", "b", "c", "rc", "alpha", "beta", "pre", "preview"]
  const POST_WORDS := ["post", "rev", "r"]
  const DEV_WORDS := ["dev"]

  /** A separated word with an optional number: `.rc1`, `dev`, `_POST-2`. */
  datatype Marker = Marker(lead: string, word: string, gap: string, number: string) {
    predicate Valid(words: seq<string>) {
      Separator(lead) && Lower(word) in words && Separator(gap) && Digits(number)
    }

    function Text(): string {
      lead + (word + (gap + number))
    }
  }

  datatype Post = Spelled(marker: Marker) | Implicit(number: string) {
    predicate Valid() {
      match this
      case Spelled(m) => m.Valid(POST_WORDS)
      case Implicit(n) => Number(n)
    }

    function Text(): string {
      match this
      case Spelled(m) => m.Text()
      case Implicit(n) => "-" + n
    }
  }

  /** The labels of a local version after the first, each behind its separator. */
  datatype Tail = End | More(sep: char, text: string, rest: Tail) {
    predicate Valid() {
      match this
      case End => true
      case More(sep, text, rest) => SeparatorChar(sep) && Label(text) && rest.Valid()
    }

    function Text(): string {
      match this
      case End => ""
      case More(sep, text, rest) => ([sep] + text) + rest.Text()
    }

    function Labels(): seq<string> {
      match this
      case End => []
      case More(_, text, rest) => [text] + rest.Labels()
    }
  }

  datatype Local = Local(first: string, rest: Tail) {
    predicate Valid() {
      Label(first) && rest.Valid()
    }

    function Text(): string {
      "+" + (first + rest.Text())
    }

    function Labels(): seq<string> {
      [first] + rest.Labels()
    }
  }

  predicate Numbers(parts: seq<string>) {
    forall p :: p in parts ==> Number(p)
  }

  datatype Version = Version(
    v: string,
    epoch: Option<string>,
    release: seq<string>,
    pre: Option<Marker>,
    post: Option<Post>,
    dev: Option<Marker>,
    local: Option<Local>)
  {
    predicate Valid() {
      && (v == "" || v == "v" || v == "V")
      && (epoch.Some? ==> Number(epoch.value))
      && release != [] && Numbers(release)
      && (pre.Some? ==> pre.value.Valid(PRE_WORDS))
      && (post.Some? ==> post.value.Valid())
      && (dev.Some? ==> dev.value.Valid(DEV_WORDS))
      && (local.Some? ==> local.value.Valid())
    }

    function EpochText(): string {
      if epoch.Some? then epoch.value + "!" else ""
    }

    function PreText(): string {
      if pre.Some? then pre.value.Text() else ""
    }

    function PostText(): string {
      if post.Some? then post.value.Text() else ""
    }

    function DevText(): string {
      if dev.Some? then dev.value.Text() else ""
    }

    function LocalText(): string {
      if local.Some? then local.value.Text() else ""
    }

    function Suffix(): string {
      PreText() + (PostText() + (DevText() + LocalText()))
    }

    function Text(): string {
      v + (EpochText() + (Join(release, '.') + Suffix()))
    }

    function OrderKey(): Key
      requires Valid()
    {
      Key(
        if epoch.Some? then Value(epoch.value) else 0,
        Trim(Values(release)),
        if pre.Some? then PreOf(Letter(pre.value.word), Value(pre.value.number))
        else if post.None? && dev.Some? then BeforePre
        else Final,
        if post.None? then NoPost
        else PostOf(if post.value.Spelled? then Value(post.value.marker.number) else Value(post.value.number)),
        if dev.Some? then DevOf(Value(dev.value.number)) else NoDev,
        if local.Some? then LocalOf(Parts(local.value.Labels())) else NoLocal)
    }
  }

  function Values(parts: seq<string>): (r: seq<nat>)
    requires Numbers(parts)
    ensures |r| == |parts|
  {
    if parts == [] then []
    else
      assert parts[0] in parts;
      [Value(parts[0])] + Values(parts[1..])
  }

  /** Appendix B: `alpha` is `a`, `beta` is `b`, and `c`, `pre`, `preview` are `rc`. */
  function Letter(word: string): string {
    var w := Lower(word);
    if w == "a" || w == "alpha" then "a" else if w == "b" || w == "beta" then "b" else "rc"
  }

  function Parts(labels: seq<string>): seq<Part> {
    if labels == [] then []
    else [if Digits(labels[0]) then Numeric(Value(labels[0])) else Alpha(Lower(labels[0]))] + Parts(labels[1..])
  }

  // ---- the order ----

  datatype PreKey = BeforePre | PreOf(letter: string, n: nat) | Final
  datatype PostKey = NoPost | PostOf(n: nat)
  datatype DevKey = DevOf(n: nat) | NoDev
  datatype Part = Alpha(s: string) | Numeric(n: nat)
  datatype LocalKey = NoLocal | LocalOf(parts: seq<Part>)
  datatype Key = Key(epoch: nat, release: seq<nat>, pre: PreKey, post: PostKey, dev: DevKey, local: LocalKey)

  /** Releases compare as if padded with zeros, so trailing zeros carry nothing. */
  function Trim(release: seq<nat>): seq<nat> {
    if release == [] then []
    else
      var rest := Trim(release[1..]);
      if rest == [] && release[0] == 0 then [] else [release[0]] + rest
  }

  function Sign(x: int, y: int): int {
    if x < y then -1 else if x > y then 1 else 0
  }

  function Then(c: int, d: int): int {
    if c != 0 then c else d
  }

  function CompareSeq(x: seq<nat>, y: seq<nat>): int {
    if x == [] || y == [] then Sign(|x|, |y|)
    else Then(Sign(x[0], y[0]), CompareSeq(x[1..], y[1..]))
  }

  function CompareString(x: string, y: string): int {
    if x == "" || y == "" then Sign(|x|, |y|)
    else Then(Sign(x[0] as int, y[0] as int), CompareString(x[1..], y[1..]))
  }

  function PreRank(k: PreKey): int {
    match k
    case BeforePre => 0
    case PreOf(letter, _) => if letter == "a" then 1 else if letter == "b" then 2 else 3
    case Final => 4
  }

  function ComparePre(x: PreKey, y: PreKey): int {
    Then(Sign(PreRank(x), PreRank(y)), if x.PreOf? && y.PreOf? then Sign(x.n, y.n) else 0)
  }

  function ComparePost(x: PostKey, y: PostKey): int {
    match (x, y)
    case (NoPost, NoPost) => 0
    case (NoPost, _) => -1
    case (_, NoPost) => 1
    case (PostOf(m), PostOf(n)) => Sign(m, n)
  }

  function CompareDev(x: DevKey, y: DevKey): int {
    match (x, y)
    case (NoDev, NoDev) => 0
    case (NoDev, _) => 1
    case (_, NoDev) => -1
    case (DevOf(m), DevOf(n)) => Sign(m, n)
  }

  function ComparePart(x: Part, y: Part): int {
    match (x, y)
    case (Alpha(s), Alpha(t)) => CompareString(s, t)
    case (Alpha(_), Numeric(_)) => -1
    case (Numeric(_), Alpha(_)) => 1
    case (Numeric(m), Numeric(n)) => Sign(m, n)
  }

  function CompareParts(x: seq<Part>, y: seq<Part>): int {
    if x == [] || y == [] then Sign(|x|, |y|)
    else Then(ComparePart(x[0], y[0]), CompareParts(x[1..], y[1..]))
  }

  function CompareLocal(x: LocalKey, y: LocalKey): int {
    match (x, y)
    case (NoLocal, NoLocal) => 0
    case (NoLocal, _) => -1
    case (_, NoLocal) => 1
    case (LocalOf(p), LocalOf(q)) => CompareParts(p, q)
  }

  /** Negative, zero or positive as `x` precedes, equals or follows `y`. */
  function Compare(x: Key, y: Key): int {
    Then(Sign(x.epoch, y.epoch),
      Then(CompareSeq(x.release, y.release),
        Then(ComparePre(x.pre, y.pre),
          Then(ComparePost(x.post, y.post),
            Then(CompareDev(x.dev, y.dev), CompareLocal(x.local, y.local))))))
  }

  predicate AtLeast(x: Version, y: Version)
    requires x.Valid() && y.Valid()
  {
    Compare(x.OrderKey(), y.OrderKey()) >= 0
  }
}
