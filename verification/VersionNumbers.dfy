/** The gate on versions made of numbers: a reading of its verdict that names no part of the gate. */
module VersionNumbers {
  import opened Text
  import opened Regex
  import opened Pep440
  import opened VersionGate
  import opened VersionAgreement

  // ---- printed numbers ----

  function DigitOf(n: nat): char
    requires n < 10
  {
    "0123456789"[n]
  }

  /** The decimal notation of a number, its most significant digit first. */
  function Decimal(n: nat): string {
    if n < 10 then [DigitOf(n)] else Decimal(n / 10) + [DigitOf(n % 10)]
  }

  function Repeated(c: char, count: nat): string {
    if count == 0 then "" else [c] + Repeated(c, count - 1)
  }

  lemma DigitIsDigit(n: nat)
    requires n < 10
    ensures Digit(DigitOf(n)) && DigitOf(n) as int - '0' as int == n
  {
  }

  /** Reading a printed number gives the number back. */
  lemma {:induction false} ValueOfDecimal(n: nat)
    ensures Number(Decimal(n)) && Value(Decimal(n)) == n
    decreases n
  {
    DigitIsDigit(n % 10);
    if n < 10 {
      assert [DigitOf(n)][..0] == "";
    } else {
      var front := Decimal(n / 10);
      ValueOfDecimal(n / 10);
      assert Decimal(n)[..|Decimal(n)| - 1] == front;
    }
  }

  /** Leading zeros change nothing. */
  lemma {:induction false} LeadingZeros(zeros: nat, digits: string)
    requires Digits(digits)
    ensures Digits(Repeated('0', zeros) + digits) && Value(Repeated('0', zeros) + digits) == Value(digits)
    decreases zeros
  {
    if zeros == 0 {
      assert "" + digits == digits;
    } else {
      var rest := Repeated('0', zeros - 1) + digits;
      LeadingZeros(zeros - 1, digits);
      OneZero(rest);
      assert Repeated('0', zeros) + digits == ['0'] + rest;
    }
  }

  lemma {:induction false} OneZero(digits: string)
    requires Digits(digits)
    ensures Digits(['0'] + digits) && Value(['0'] + digits) == Value(digits)
    decreases |digits|
  {
    if digits == "" {
      assert ['0'] + digits == ['0'] && ['0'][..0] == "";
    } else {
      var front := digits[..|digits| - 1];
      OneZero(front);
      assert (['0'] + digits)[..|digits|] == ['0'] + front;
    }
  }

  // ---- versions made of numbers ----

  /** A number with the zeros written in front of it. */
  datatype Num = Num(zeros: nat, n: nat) {
    function Text(): string {
      Repeated('0', zeros) + Decimal(n)
    }
  }

  /** How a version may end: a candidate `rc1`, `a1` or `b1`, a post-release `.post1`, a development release `.dev1`. */
  datatype Ending = Plain | Candidate(word: string, k: Num) | PostRelease(k: Num) | Development(k: Num) {
    predicate Valid() {
      Candidate? ==> word == "a" || word == "b" || word == "rc"
    }

    function Text(): string {
      match this
      case Plain => ""
      case Candidate(word, k) => word + k.Text()
      case PostRelease(k) => ".post" + k.Text()
      case Development(k) => ".dev" + k.Text()
    }

    /** Is it before the release that it belongs to? */
    predicate Before() {
      Candidate? || Development?
    }
  }

  function Texts(nums: seq<Num>): (r: seq<string>)
    ensures |r| == |nums| && forall i :: 0 <= i < |r| ==> r[i] == nums[i].Text()
  {
    seq(|nums|, i requires 0 <= i < |nums| => nums[i].Text())
  }

  function VersionText(epoch: Option<Num>, release: seq<Num>, ending: Ending): string {
    (if epoch.Some? then epoch.value.Text() + "!" else "") + (Join(Texts(release), '.') + ending.Text())
  }

  /** `0` or `0.b...` with `b` below 66. */
  predicate BelowFloor(release: seq<Num>)
    requires release != []
  {
    release[0].n == 0 && (|release| == 1 || release[1].n < 66)
  }

  /** `0.66`, `0.66.0`, `0.66.0.0` and so on. */
  predicate OnFloor(release: seq<Num>)
    requires release != []
  {
    release[0].n == 0 && |release| > 1 && release[1].n == 66 && forall i :: 2 <= i < |release| ==> release[i].n == 0
  }

  /** Python converts the number. */
  predicate Short(k: Num) {
    |k.Text()| <= MAX_INT_DIGITS
  }

  predicate AllShort(epoch: Option<Num>, release: seq<Num>) {
    (epoch.Some? ==> Short(epoch.value)) && forall i :: 0 <= i < |release| ==> Short(release[i])
  }

  // ---- the text is that of a version ----

  lemma NumIsNumber(k: Num)
    ensures Number(k.Text()) && Value(k.Text()) == k.n
  {
    ValueOfDecimal(k.n);
    LeadingZeros(k.zeros, Decimal(k.n));
  }

  function VersionFor(epoch: Option<Num>, release: seq<Num>, ending: Ending): Version {
    Version(
      "",
      if epoch.Some? then Some(epoch.value.Text()) else None,
      Texts(release),
      if ending.Candidate? then Some(Marker("", ending.word, "", ending.k.Text())) else None,
      if ending.PostRelease? then Some(Spelled(Marker(".", "post", "", ending.k.Text()))) else None,
      if ending.Development? then Some(Marker(".", "dev", "", ending.k.Text())) else None,
      None)
  }

  lemma TextsAreNumbers(nums: seq<Num>)
    ensures Numbers(Texts(nums))
  {
    forall p | p in Texts(nums) ensures Number(p) {
      var i :| 0 <= i < |nums| && Texts(nums)[i] == p;
      NumIsNumber(nums[i]);
    }
  }

  lemma LowerWords()
    ensures Lower("a") == "a" && Lower("b") == "b" && Lower("rc") == "rc" && Lower("post") == "post" && Lower("dev") == "dev"
  {
  }

  lemma VersionForIsValid(epoch: Option<Num>, release: seq<Num>, ending: Ending)
    requires release != [] && ending.Valid()
    ensures VersionFor(epoch, release, ending).Valid()
  {
    TextsAreNumbers(release);
    LowerWords();
    if epoch.Some? {
      NumIsNumber(epoch.value);
    }
    if !ending.Plain? {
      NumIsNumber(ending.k);
    }
  }

  lemma MarkerText(lead: string, word: string, number: string)
    ensures Marker(lead, word, "", number).Text() == (lead + word) + number
  {
    assert "" + number == number;
  }

  /** A suffix of one piece. */
  lemma Alone(v: Version, x: string)
    requires v.LocalText() == ""
    requires || (v.PreText() == x && v.PostText() == "" && v.DevText() == "")
             || (v.PreText() == "" && v.PostText() == x && v.DevText() == "")
             || (v.PreText() == "" && v.PostText() == "" && v.DevText() == x)
    ensures v.Suffix() == x
  {
  }

  lemma EndingText(epoch: Option<Num>, release: seq<Num>, ending: Ending)
    ensures VersionFor(epoch, release, ending).Suffix() == ending.Text()
  {
    var lead, word := LeadOf(ending), WordOf(ending);
    if !ending.Plain? {
      MarkerText(lead, word, ending.k.Text());
      EndingPieces(ending);
    }
    Alone(VersionFor(epoch, release, ending), ending.Text());
  }

  function LeadOf(ending: Ending): string {
    if ending.PostRelease? || ending.Development? then "." else ""
  }

  function WordOf(ending: Ending): string {
    match ending
    case Plain => ""
    case Candidate(word, _) => word
    case PostRelease(_) => "post"
    case Development(_) => "dev"
  }

  lemma EndingPieces(ending: Ending)
    requires !ending.Plain?
    ensures ending.Text() == (LeadOf(ending) + WordOf(ending)) + ending.k.Text()
  {
    assert "." + "post" == ".post" && "." + "dev" == ".dev";
    assert ending.Candidate? ==> "" + ending.word == ending.word;
  }

  lemma VersionForText(epoch: Option<Num>, release: seq<Num>, ending: Ending)
    ensures VersionFor(epoch, release, ending).Text() == VersionText(epoch, release, ending)
  {
    EndingText(epoch, release, ending);
  }

  // ---- its numbers, and where they lie ----

  lemma {:induction false} ValuesOfTexts(nums: seq<Num>)
    ensures Numbers(Texts(nums)) && |Values(Texts(nums))| == |nums|
    ensures forall i :: 0 <= i < |nums| ==> Values(Texts(nums))[i] == nums[i].n
  {
    TextsAreNumbers(nums);
    if nums != [] {
      NumIsNumber(nums[0]);
      assert Texts(nums)[1..] == Texts(nums[1..]);
      ValuesOfTexts(nums[1..]);
    }
  }

  lemma {:induction false} TrimsToNothing(x: seq<nat>)
    ensures Trim(x) == [] <==> forall i :: 0 <= i < |x| ==> x[i] == 0
  {
    if x != [] {
      TrimsToNothing(x[1..]);
      assert forall i :: 1 <= i < |x| ==> x[i] == x[1..][i - 1];
    }
  }

  lemma AfterTheFirst(y: seq<nat>)
    requires y != []
    ensures CompareSeq(Trim(y), [66]) < 0 <==> y[0] < 66
    ensures CompareSeq(Trim(y), [66]) == 0 <==> y[0] == 66 && forall i :: 1 <= i < |y| ==> y[i] == 0
  {
    TrimHead(y);
    TrimsToNothing(y[1..]);
    assert forall i :: 1 <= i < |y| ==> y[i] == y[1..][i - 1];
    assert [66][1..] == [];
  }

  /** Where a release lies with respect to 0.66. */
  lemma FloorByNumbers(x: seq<nat>)
    requires x != []
    ensures CompareSeq(Trim(x), Trim(FLOOR)) < 0 <==> x[0] == 0 && (|x| == 1 || x[1] < 66)
    ensures CompareSeq(Trim(x), Trim(FLOOR)) == 0 <==>
      x[0] == 0 && |x| > 1 && x[1] == 66 && forall i :: 2 <= i < |x| ==> x[i] == 0
  {
    var rest := x[1..];
    TrimmedFloor();
    TrimHead(x);
    assert Trim(x) != [] ==> CompareSeq(Trim(x), [0, 66]) == Then(Sign(x[0], 0), CompareSeq(Trim(rest), [66]));
    if |x| > 1 {
      AfterTheFirst(rest);
      assert forall i :: 2 <= i < |x| ==> x[i] == rest[i - 1];
    } else {
      assert rest == [] && CompareSeq([], [66]) == -1;
    }
  }

  lemma TrimmedFloor()
    ensures Trim(FLOOR) == [0, 66] && Trim(FLOOR)[1..] == [66]
  {
    assert FLOOR[1..] == [66] && [66][1..] == [];
    assert Trim([66]) == [66];
  }

  // ---- only ASCII characters occur ----

  lemma AsciiCat(x: string, y: string)
    requires Ascii(x) && Ascii(y)
    ensures Ascii(x + y)
  {
  }

  lemma NumIsAscii(k: Num)
    ensures Ascii(k.Text())
  {
    NumIsNumber(k);
  }

  lemma {:induction false} JoinIsAscii(parts: seq<string>)
    requires Numbers(parts)
    ensures Ascii(Join(parts, '.'))
  {
    if parts != [] {
      assert parts[0] in parts;
      JoinIsAscii(parts[1..]);
    }
  }

  lemma TextIsAscii(epoch: Option<Num>, release: seq<Num>, ending: Ending)
    requires ending.Valid()
    ensures Ascii(VersionText(epoch, release, ending))
  {
    if epoch.Some? {
      NumIsAscii(epoch.value);
    }
    if !ending.Plain? {
      NumIsAscii(ending.k);
    }
    TextsAreNumbers(release);
    JoinIsAscii(Texts(release));
    AsciiCat(Join(Texts(release), '.'), ending.Text());
  }

  // ---- the verdict ----

  /**
   * The gate on every version made of numbers, zeros in front of them included: it is too old exactly when
   * Python cannot convert one of its numbers, or its epoch is zero and the release is below 0.66 or a
   * candidate or development release of 0.66 itself.
   */
  lemma GateOnNumbers(epoch: Option<Num>, release: seq<Num>, ending: Ending)
    requires release != [] && ending.Valid()
    ensures Ascii(VersionText(epoch, release, ending))
    ensures TextualTooOld(Some(VersionText(epoch, release, ending))) <==>
      !AllShort(epoch, release)
      || ((epoch.Some? ==> epoch.value.n == 0) && (BelowFloor(release) || (OnFloor(release) && ending.Before())))
  {
    var v := VersionFor(epoch, release, ending);
    VersionForIsValid(epoch, release, ending);
    VersionForText(epoch, release, ending);
    TextIsAscii(epoch, release, ending);
    TextDecides(v);
    ShortMeans(epoch, release, ending);
    NumbersDecide(epoch, release, ending);
  }

  lemma TextDecides(v: Version)
    requires v.Valid() && Ascii(v.Text())
    ensures TextualTooOld(Some(v.Text())) <==> !(Convertible(v) && AtFloor(v))
  {
    assert SurroundedBy(v.Text(), "", v.Text(), "");
    SpelledIsRead(v.Text(), v);
    ReadVersion(v);
  }

  lemma ShortMeans(epoch: Option<Num>, release: seq<Num>, ending: Ending)
    ensures Convertible(VersionFor(epoch, release, ending)) <==> AllShort(epoch, release)
  {
    var parts := Texts(release);
    assert (forall p :: p in parts ==> |p| <= MAX_INT_DIGITS) <==> forall i :: 0 <= i < |release| ==> Short(release[i]) by {
      assert forall i :: 0 <= i < |release| ==> parts[i] in parts && parts[i] == release[i].Text();
    }
  }

  lemma NumbersDecide(epoch: Option<Num>, release: seq<Num>, ending: Ending)
    requires release != [] && VersionFor(epoch, release, ending).Valid()
    ensures !AtFloor(VersionFor(epoch, release, ending)) <==>
      (epoch.Some? ==> epoch.value.n == 0) && (BelowFloor(release) || (OnFloor(release) && ending.Before()))
  {
    var v := VersionFor(epoch, release, ending);
    ValuesOfTexts(release);
    ReleaseByNumbers(release, Values(v.release));
    AtFloorMeans(v);
    EpochOf(epoch, release, ending);
    EndingOf(epoch, release, ending);
  }

  lemma ReleaseByNumbers(release: seq<Num>, x: seq<nat>)
    requires release != [] && |x| == |release| && forall i :: 0 <= i < |x| ==> x[i] == release[i].n
    ensures CompareSeq(Trim(x), Trim(FLOOR)) < 0 <==> BelowFloor(release)
    ensures CompareSeq(Trim(x), Trim(FLOOR)) == 0 <==> OnFloor(release)
  {
    FloorByNumbers(x);
  }

  lemma EpochOf(epoch: Option<Num>, release: seq<Num>, ending: Ending)
    requires VersionFor(epoch, release, ending).Valid()
    ensures EpochValue(VersionFor(epoch, release, ending)) == if epoch.Some? then epoch.value.n else 0
  {
    if epoch.Some? {
      NumIsNumber(epoch.value);
    }
  }

  lemma EndingOf(epoch: Option<Num>, release: seq<Num>, ending: Ending)
    ensures ending.Before() <==>
      KindOf(VersionFor(epoch, release, ending)) == PreKind || KindOf(VersionFor(epoch, release, ending)) == DevKind
  {
  }

  /** Without epoch, zeros in front or ending: `a.b` is too old exactly when `a` is 0 and `b` below 66. */
  lemma GateOnTwoNumbers(a: nat, b: nat)
    requires |Decimal(a)| <= MAX_INT_DIGITS && |Decimal(b)| <= MAX_INT_DIGITS
    ensures Ascii(Decimal(a) + "." + Decimal(b))
    ensures TextualTooOld(Some(Decimal(a) + "." + Decimal(b))) <==> a == 0 && b < 66
  {
    var release := [Num(0, a), Num(0, b)];
    GateOnNumbers(None, release, Plain);
    TwoNumbers(a, b);
    TwoDecide(release);
  }

  lemma TwoDecide(release: seq<Num>)
    requires |release| == 2 && Short(release[0]) && Short(release[1])
    ensures AllShort(None, release)
    ensures BelowFloor(release) <==> release[0].n == 0 && release[1].n < 66
  {
  }

  lemma TwoNumbers(a: nat, b: nat)
    ensures VersionText(None, [Num(0, a), Num(0, b)], Plain) == Decimal(a) + "." + Decimal(b)
    ensures Num(0, a).Text() == Decimal(a) && Num(0, b).Text() == Decimal(b)
  {
    var parts := Texts([Num(0, a), Num(0, b)]);
    assert parts[1..] == [parts[1]];
    assert parts[0] == "" + Decimal(a) == Decimal(a) && parts[1] == "" + Decimal(b) == Decimal(b);
    assert Join(parts, '.') == Decimal(a) + ['.'] + Decimal(b);
  }
}
