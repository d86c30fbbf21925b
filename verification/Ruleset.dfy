/** The managed branch ruleset and its order-independent normal form (riglib/github_ruleset.py). */
module Ruleset {
  import opened Text
  import opened Ordering

  function OrElse<T>(o: Option<T>, default: T): T {
    if o.Some? then o.value else default
  }

  // ---- bodies; `foreign` holds fields that rig does not manage ----

  type Foreign = map<string, string>

  datatype Check = Check(context: Option<string>, foreign: Foreign)

  datatype Params = Params(
    reviewCount: Option<int>,
    dismissStale: Option<bool>,
    codeOwner: Option<bool>,
    lastPush: Option<bool>,
    threads: Option<bool>,
    checks: seq<Check>,
    strict: Option<bool>,
    foreign: Foreign)

  const NO_PARAMS := Params(None, None, None, None, None, [], None, map[])

  datatype Rule = Rule(kind: Option<string>, params: Params, foreign: Foreign) {
    function Type(): string {
      OrElse(kind, "")
    }
  }

  /** The fields of a bypass actor as printed. */
  datatype Actor = Actor(actorType: Option<string>, actorId: Option<string>, mode: Option<string>, foreign: Foreign)

  datatype Body = Body(
    enforcement: Option<string>,
    refInclude: seq<string>,
    refExclude: seq<string>,
    actors: seq<Actor>,
    rules: seq<Rule>,
    foreign: Foreign)

  // ---- building the desired body ----

  datatype Options = Options(
    requirePullRequest: Option<bool>,
    requiredReviews: Option<int>,
    dismissStaleReviews: Option<bool>,
    conversationResolution: Option<bool>,
    blockForcePush: Option<bool>,
    restrictDeletion: Option<bool>,
    requireLinearHistory: Option<bool>,
    requireSignatures: Option<bool>,
    requiredStatusChecks: seq<string>,
    adminBypass: Option<bool>)

  function PullRequestRule(o: Options): Rule {
    Rule(Some("pull_request"),
      Params(Some(OrElse(o.requiredReviews, 0)), Some(OrElse(o.dismissStaleReviews, true)), Some(false), Some(false),
        Some(OrElse(o.conversationResolution, true)), [], None, map[]),
      map[])
  }

  function PlainRule(kind: string): Rule {
    Rule(Some(kind), NO_PARAMS, map[])
  }

  function ChecksRule(contexts: seq<string>): Rule {
    Rule(Some("required_status_checks"),
      NO_PARAMS.(checks := seq(|contexts|, i requires 0 <= i < |contexts| => Check(Some(contexts[i]), map[])), strict := Some(false)),
      map[])
  }

  function Knob(on: bool, r: Rule): seq<Rule> {
    if on then [r] else []
  }

  function DesiredRules(o: Options): seq<Rule> {
    Knob(OrElse(o.requirePullRequest, true), PullRequestRule(o))
    + Knob(OrElse(o.blockForcePush, true), PlainRule("non_fast_forward"))
    + Knob(OrElse(o.restrictDeletion, true), PlainRule("deletion"))
    + Knob(OrElse(o.requireLinearHistory, false), PlainRule("required_linear_history"))
    + Knob(OrElse(o.requireSignatures, false), PlainRule("required_signatures"))
    + Knob(o.requiredStatusChecks != [], ChecksRule(o.requiredStatusChecks))
  }

  /** The knobs in force, by the type of the rule that each stands for; no knob stands for `update`. */
  predicate Wanted(o: Options, kind: string) {
    || (kind == "pull_request" && OrElse(o.requirePullRequest, true))
    || (kind == "non_fast_forward" && OrElse(o.blockForcePush, true))
    || (kind == "deletion" && OrElse(o.restrictDeletion, true))
    || (kind == "required_linear_history" && OrElse(o.requireLinearHistory, false))
    || (kind == "required_signatures" && OrElse(o.requireSignatures, false))
    || (kind == "required_status_checks" && o.requiredStatusChecks != [])
  }

  /** The parameters of a rule are those the options ask for, under their names. */
  predicate Parameterized(o: Options, r: Rule) {
    && (r.Type() == "pull_request" ==>
          r.params.reviewCount == Some(OrElse(o.requiredReviews, 0))
          && r.params.dismissStale == Some(OrElse(o.dismissStaleReviews, true))
          && r.params.threads == Some(OrElse(o.conversationResolution, true))
          && r.params.codeOwner == r.params.lastPush == Some(false))
    && (r.Type() == "required_status_checks" ==>
          Contexts(r.params.checks) == o.requiredStatusChecks && r.params.strict == Some(false))
    && (r.Type() != "pull_request" && r.Type() != "required_status_checks" ==> r.params == NO_PARAMS)
  }

  /** One rule for each knob in force, and no other. */
  ghost predicate MeetsOptions(o: Options, rules: seq<Rule>) {
    && DistinctTypes(rules)
    && (forall r :: r in rules ==> Wanted(o, r.Type()) && Parameterized(o, r))
    && forall kind :: Wanted(o, kind) ==> exists r :: r in rules && r.Type() == kind
  }

  lemma DesiredRulesMeetOptions(o: Options)
    ensures MeetsOptions(o, DesiredRules(o))
  {
    DesiredRulesAreSafe(o);
    forall r | r in DesiredRules(o) ensures Wanted(o, r.Type()) && Parameterized(o, r) {
      DesiredRuleIsWanted(o, r);
    }
    forall kind | Wanted(o, kind) ensures exists r :: r in DesiredRules(o) && r.Type() == kind {
      WantedIsDesired(o, kind);
    }
  }

  lemma DesiredRuleIsWanted(o: Options, r: Rule)
    requires r in DesiredRules(o)
    ensures Wanted(o, r.Type()) && Parameterized(o, r)
  {
    if r == PullRequestRule(o) && OrElse(o.requirePullRequest, true) {
    } else if r == ChecksRule(o.requiredStatusChecks) && o.requiredStatusChecks != [] {
      ChecksAreWanted(o);
    } else {
      assert r in DesiredPlain(o);
      PlainRuleIsWanted(o, r);
    }
  }

  lemma ChecksAreWanted(o: Options)
    ensures Parameterized(o, ChecksRule(o.requiredStatusChecks))
  {
    assert Contexts(ChecksRule(o.requiredStatusChecks).params.checks) == o.requiredStatusChecks;
  }

  function DesiredPlain(o: Options): seq<Rule> {
    Knob(OrElse(o.blockForcePush, true), PlainRule("non_fast_forward"))
    + Knob(OrElse(o.restrictDeletion, true), PlainRule("deletion"))
    + Knob(OrElse(o.requireLinearHistory, false), PlainRule("required_linear_history"))
    + Knob(OrElse(o.requireSignatures, false), PlainRule("required_signatures"))
  }

  lemma PlainRuleIsWanted(o: Options, r: Rule)
    requires r in DesiredPlain(o)
    ensures Wanted(o, r.Type()) && Parameterized(o, r)
  {
  }

  lemma WantedIsDesired(o: Options, kind: string)
    requires Wanted(o, kind)
    ensures exists r :: r in DesiredRules(o) && r.Type() == kind
  {
    var r := if kind == "pull_request" then PullRequestRule(o)
      else if kind == "required_status_checks" then ChecksRule(o.requiredStatusChecks)
      else PlainRule(kind);
    assert r in DesiredRules(o) && r.Type() == kind;
  }

  /** `build_ruleset_rules`: one branch per knob. */
  method BuildRulesetRules(o: Options) returns (rules: seq<Rule>)
    ensures MeetsOptions(o, rules) && rules == DesiredRules(o)
  {
    DesiredRulesMeetOptions(o);
    rules := [];
    if OrElse(o.requirePullRequest, true) {
      rules := rules + [PullRequestRule(o)];
    }
    ghost var built := Knob(OrElse(o.requirePullRequest, true), PullRequestRule(o));
    assert rules == built;
    if OrElse(o.blockForcePush, true) {
      rules := rules + [PlainRule("non_fast_forward")];
    }
    built := built + Knob(OrElse(o.blockForcePush, true), PlainRule("non_fast_forward"));
    assert rules == built;
    if OrElse(o.restrictDeletion, true) {
      rules := rules + [PlainRule("deletion")];
    }
    built := built + Knob(OrElse(o.restrictDeletion, true), PlainRule("deletion"));
    assert rules == built;
    if OrElse(o.requireLinearHistory, false) {
      rules := rules + [PlainRule("required_linear_history")];
    }
    built := built + Knob(OrElse(o.requireLinearHistory, false), PlainRule("required_linear_history"));
    assert rules == built;
    if OrElse(o.requireSignatures, false) {
      rules := rules + [PlainRule("required_signatures")];
    }
    built := built + Knob(OrElse(o.requireSignatures, false), PlainRule("required_signatures"));
    assert rules == built;
    if o.requiredStatusChecks != [] {
      rules := rules + [ChecksRule(o.requiredStatusChecks)];
    }
    built := built + Knob(o.requiredStatusChecks != [], ChecksRule(o.requiredStatusChecks));
    assert rules == built;
  }

  /** The types of the rules, each at most once, are among `kinds`. */
  ghost predicate Within(rules: seq<Rule>, kinds: set<string>) {
    DistinctTypes(rules) && forall r :: r in rules ==> r.Type() in kinds
  }

  lemma WithinKnob(rules: seq<Rule>, kinds: set<string>, on: bool, r: Rule)
    requires Within(rules, kinds) && r.Type() !in kinds
    ensures Within(rules + Knob(on, r), kinds + {r.Type()})
  {
  }

  /** No options make the desired rules repeat a type or lock the branch with an `update` rule. */
  lemma DesiredRulesAreSafe(o: Options)
    ensures DistinctTypes(DesiredRules(o)) && forall r :: r in DesiredRules(o) ==> r.Type() != "update"
  {
    var k1, k2, k3 := "pull_request", "non_fast_forward", "deletion";
    var k4, k5, k6 := "required_linear_history", "required_signatures", "required_status_checks";
    var r1 := Knob(OrElse(o.requirePullRequest, true), PullRequestRule(o));
    WithinKnob([], {}, OrElse(o.requirePullRequest, true), PullRequestRule(o));
    assert [] + r1 == r1;
    WithinKnob(r1, {k1}, OrElse(o.blockForcePush, true), PlainRule(k2));
    var r2 := r1 + Knob(OrElse(o.blockForcePush, true), PlainRule(k2));
    WithinKnob(r2, {k1} + {k2}, OrElse(o.restrictDeletion, true), PlainRule(k3));
    var r3 := r2 + Knob(OrElse(o.restrictDeletion, true), PlainRule(k3));
    WithinKnob(r3, {k1} + {k2} + {k3}, OrElse(o.requireLinearHistory, false), PlainRule(k4));
    var r4 := r3 + Knob(OrElse(o.requireLinearHistory, false), PlainRule(k4));
    WithinKnob(r4, {k1} + {k2} + {k3} + {k4}, OrElse(o.requireSignatures, false), PlainRule(k5));
    var r5 := r4 + Knob(OrElse(o.requireSignatures, false), PlainRule(k5));
    WithinKnob(r5, {k1} + {k2} + {k3} + {k4} + {k5}, o.requiredStatusChecks != [], ChecksRule(o.requiredStatusChecks));
    assert "update" !in {k1} + {k2} + {k3} + {k4} + {k5} + {k6};
  }

  const ADMIN := Actor(Some("RepositoryRole"), Some("5"), Some("always"), map[])

  /** The built-in repository role with the id 5, which may always bypass. */
  predicate IsAdmin(a: Actor) {
    a.actorType == Some("RepositoryRole") && a.actorId == Some("5") && a.mode == Some("always") && a.foreign == map[]
  }

  /** `build_ruleset_body`. */
  method BuildRulesetBody(o: Options) returns (body: Body)
    ensures MeetsOptions(o, body.rules) && body.rules == DesiredRules(o)
    ensures body.enforcement == Some("active") && body.refInclude == ["~DEFAULT_BRANCH"] && body.refExclude == []
    ensures if OrElse(o.adminBypass, true) then |body.actors| == 1 && IsAdmin(body.actors[0]) else body.actors == []
  {
    var rules := BuildRulesetRules(o);
    body := Body(Some("active"), ["~DEFAULT_BRANCH"], [], if OrElse(o.adminBypass, true) then [ADMIN] else [], rules, map[]);
  }

  ghost predicate DistinctTypes(rules: seq<Rule>) {
    forall i, j :: 0 <= i < j < |rules| ==> rules[i].Type() != rules[j].Type()
  }

  // ---- the normal form ----

  datatype NormRule =
    | NormChecks(contexts: seq<string>, strict: bool)
    | NormPullRequest(reviewCount: int, dismissStale: bool, codeOwner: bool, lastPush: bool, threads: bool)
    | NormPlain(kind: string)

  datatype NormBody = NormBody(
    enforcement: string,
    refInclude: seq<string>,
    refExclude: seq<string>,
    rules: seq<NormRule>,
    actors: seq<Key>)

  function StringKey(s: string): Key {
    [s]
  }

  function SortStrings(xs: seq<string>): seq<string> {
    Sort(StringKey, xs)
  }

  function Contexts(checks: seq<Check>): (r: seq<string>)
    ensures |r| == |checks| && forall i :: 0 <= i < |r| ==> r[i] == OrElse(checks[i].context, "")
  {
    seq(|checks|, i requires 0 <= i < |checks| => OrElse(checks[i].context, ""))
  }

  function Normal(r: Rule): NormRule {
    var p := r.params;
    if r.Type() == "required_status_checks" then NormChecks(SortStrings(Contexts(p.checks)), OrElse(p.strict, false))
    else if r.Type() == "pull_request" then
      NormPullRequest(OrElse(p.reviewCount, 0), OrElse(p.dismissStale, false), OrElse(p.codeOwner, false),
        OrElse(p.lastPush, false), OrElse(p.threads, false))
    else NormPlain(r.Type())
  }

  function NormType(n: NormRule): string {
    match n
    case NormChecks(_, _) => "required_status_checks"
    case NormPullRequest(_, _, _, _, _) => "pull_request"
    case NormPlain(kind) => kind
  }

  function RuleKey(r: Rule): Key {
    [r.Type()]
  }

  function NormKey(n: NormRule): Key {
    [NormType(n)]
  }

  function NormalAll(rules: seq<Rule>): (r: seq<NormRule>)
    ensures |r| == |rules| && forall i :: 0 <= i < |r| ==> r[i] == Normal(rules[i])
  {
    seq(|rules|, i requires 0 <= i < |rules| => Normal(rules[i]))
  }

  function ActorKey(a: Actor): Key {
    [OrElse(a.actorType, ""), OrElse(a.actorId, ""), OrElse(a.mode, "")]
  }

  function ActorKeys(actors: seq<Actor>): (r: seq<Key>)
    ensures |r| == |actors| && forall i :: 0 <= i < |r| ==> r[i] == ActorKey(actors[i])
  {
    seq(|actors|, i requires 0 <= i < |actors| => ActorKey(actors[i]))
  }

  function Itself(k: Key): Key {
    k
  }

  function Normalize(b: Body): NormBody {
    NormBody(OrElse(b.enforcement, ""), SortStrings(b.refInclude), SortStrings(b.refExclude),
      NormalRules(b.rules), Sort(Itself, ActorKeys(b.actors)))
  }

  /** `normalize_ruleset`: the rules in type order, one at a time. */
  method NormalizeRuleset(b: Body) returns (n: NormBody)
    ensures n == Normalize(b)
  {
    var sorted := Sort(RuleKey, b.rules);
    var rules: seq<NormRule> := [];
    for i := 0 to |sorted|
      invariant rules == NormalAll(sorted[..i])
    {
      rules := rules + [Normal(sorted[i])];
    }
    assert sorted[..|sorted|] == sorted;
    n := NormBody(OrElse(b.enforcement, ""), SortStrings(b.refInclude), SortStrings(b.refExclude), rules,
      Sort(Itself, ActorKeys(b.actors)));
  }

  // ---- what the normal form keeps ----

  /** The managed parameters of two rules of one type agree; contexts as a bag. */
  predicate SameManaged(x: Rule, y: Rule) {
    var p, q := x.params, y.params;
    if x.Type() == "required_status_checks" then
      multiset(Contexts(p.checks)) == multiset(Contexts(q.checks)) && OrElse(p.strict, false) == OrElse(q.strict, false)
    else if x.Type() == "pull_request" then
      && OrElse(p.reviewCount, 0) == OrElse(q.reviewCount, 0)
      && OrElse(p.dismissStale, false) == OrElse(q.dismissStale, false)
      && OrElse(p.codeOwner, false) == OrElse(q.codeOwner, false)
      && OrElse(p.lastPush, false) == OrElse(q.lastPush, false)
      && OrElse(p.threads, false) == OrElse(q.threads, false)
    else true
  }

  /** Each rule of `x` has a counterpart of its type with the same managed parameters in `y`. */
  ghost predicate CoveredBy(x: seq<Rule>, y: seq<Rule>) {
    forall r :: r in x ==> exists s :: s in y && s.Type() == r.Type() && SameManaged(r, s)
  }

  /** The two bodies agree on everything rig manages, in whatever order and with whatever foreign fields. */
  ghost predicate InSync(x: Body, y: Body) {
    && OrElse(x.enforcement, "") == OrElse(y.enforcement, "")
    && multiset(x.refInclude) == multiset(y.refInclude)
    && multiset(x.refExclude) == multiset(y.refExclude)
    && multiset(ActorKeys(x.actors)) == multiset(ActorKeys(y.actors))
    && CoveredBy(x.rules, y.rules) && CoveredBy(y.rules, x.rules)
  }

  /** What is managed of an actor: its type, its id and its bypass mode. */
  lemma ActorKeyDecides(a: Actor, b: Actor)
    ensures ActorKey(a) == ActorKey(b) <==>
      OrElse(a.actorType, "") == OrElse(b.actorType, "") && OrElse(a.actorId, "") == OrElse(b.actorId, "")
      && OrElse(a.mode, "") == OrElse(b.mode, "")
  {
    var x, y := ActorKey(a), ActorKey(b);
    assert x == y <==> x[0] == y[0] && x[1] == y[1] && x[2] == y[2];
  }

  lemma NormalDecides(x: Rule, y: Rule)
    ensures Normal(x) == Normal(y) <==> x.Type() == y.Type() && SameManaged(x, y)
    ensures NormType(Normal(x)) == x.Type()
  {
    SortForgetsOrder(StringKey, Contexts(x.params.checks), Contexts(y.params.checks));
  }

  lemma {:induction false} InsertNormal(rules: seq<Rule>, r: Rule)
    ensures NormalAll(Insert(RuleKey, rules, r)) == Insert(NormKey, NormalAll(rules), Normal(r))
  {
    NormalDecides(r, r);
    if rules != [] {
      NormalDecides(rules[0], rules[0]);
      assert NormalAll(rules)[1..] == NormalAll(rules[1..]);
      InsertNormal(rules[1..], r);
    }
  }

  /** Normalizing after sorting is sorting after normalizing. */
  lemma {:induction false} SortNormal(rules: seq<Rule>)
    ensures NormalAll(Sort(RuleKey, rules)) == Sort(NormKey, NormalAll(rules))
  {
    if rules != [] {
      var front := rules[..|rules| - 1];
      SortNormal(front);
      InsertNormal(Sort(RuleKey, front), rules[|rules| - 1]);
      assert NormalAll(rules)[..|rules| - 1] == NormalAll(front);
    }
  }

  lemma NormalSeparates(rules: seq<Rule>)
    requires DistinctTypes(rules)
    ensures Separates(NormKey, NormalAll(rules))
    ensures forall i, j :: 0 <= i < j < |rules| ==> NormalAll(rules)[i] != NormalAll(rules)[j]
  {
    var n := NormalAll(rules);
    forall i, j | 0 <= i < |n| && 0 <= j < |n| && NormKey(n[i]) == NormKey(n[j]) ensures i == j {
      NormalDecides(rules[i], rules[j]);
      NormalDecides(rules[j], rules[j]);
    }
  }

  /** Lists without repetitions are the same bag when they have the same members. */
  lemma {:induction false} SameMembersSameBag<T>(x: seq<T>, y: seq<T>)
    requires forall i, j :: 0 <= i < j < |x| ==> x[i] != x[j]
    requires forall i, j :: 0 <= i < j < |y| ==> y[i] != y[j]
    ensures multiset(x) == multiset(y) <==> forall e :: e in x <==> e in y
  {
    CountOne(x);
    CountOne(y);
    if multiset(x) == multiset(y) {
      forall e ensures e in x <==> e in y {
        assert e in multiset(x) <==> e in x;
        assert e in multiset(y) <==> e in y;
      }
    }
  }

  lemma {:induction false} CountOne<T>(x: seq<T>)
    requires forall i, j :: 0 <= i < j < |x| ==> x[i] != x[j]
    ensures forall e :: multiset(x)[e] == if e in x then 1 else 0
  {
    if x != [] {
      CountOne(x[1..]);
      assert x == [x[0]] + x[1..];
    }
  }

  lemma RulesDecide(x: seq<Rule>, y: seq<Rule>)
    requires DistinctTypes(x) && DistinctTypes(y)
    ensures NormalAll(Sort(RuleKey, x)) == NormalAll(Sort(RuleKey, y)) <==> CoveredBy(x, y) && CoveredBy(y, x)
  {
    var nx, ny := NormalAll(x), NormalAll(y);
    SortNormal(x);
    SortNormal(y);
    NormalSeparates(x);
    NormalSeparates(y);
    SortForgetsOrder(NormKey, nx, ny);
    SameMembersSameBag(nx, ny);
    MembersDecide(x, y);
    MembersDecide(y, x);
  }

  lemma MembersDecide(x: seq<Rule>, y: seq<Rule>)
    ensures CoveredBy(x, y) <==> forall e :: e in NormalAll(x) ==> e in NormalAll(y)
  {
    if CoveredBy(x, y) {
      forall e | e in NormalAll(x) ensures e in NormalAll(y) {
        var i :| 0 <= i < |x| && Normal(x[i]) == e;
        MemberCovers(x[i], y);
      }
    }
    if forall e :: e in NormalAll(x) ==> e in NormalAll(y) {
      forall r | r in x ensures exists s :: s in y && s.Type() == r.Type() && SameManaged(r, s) {
        var i :| 0 <= i < |x| && x[i] == r;
        assert NormalAll(x)[i] == Normal(r);
        MemberCovers(r, y);
      }
    }
  }

  lemma MemberCovers(r: Rule, y: seq<Rule>)
    ensures Normal(r) in NormalAll(y) <==> exists s :: s in y && s.Type() == r.Type() && SameManaged(r, s)
  {
    if s :| s in y && s.Type() == r.Type() && SameManaged(r, s) {
      NormalDecides(r, s);
      var j :| 0 <= j < |y| && y[j] == s;
      assert NormalAll(y)[j] == Normal(r);
    }
    if Normal(r) in NormalAll(y) {
      var j :| 0 <= j < |y| && NormalAll(y)[j] == Normal(r);
      NormalDecides(r, y[j]);
      assert y[j] in y;
    }
  }

  /**
   * For bodies with distinct rule types, normal forms are equal exactly when everything rig manages
   * agrees: reorderings and foreign fields never read as drift, any managed difference always does.
   */
  lemma NormalFormDecides(x: Body, y: Body)
    requires DistinctTypes(x.rules) && DistinctTypes(y.rules)
    ensures Normalize(x) == Normalize(y) <==> InSync(x, y)
  {
    SortForgetsOrder(StringKey, x.refInclude, y.refInclude);
    SortForgetsOrder(StringKey, x.refExclude, y.refExclude);
    SortForgetsOrder(Itself, ActorKeys(x.actors), ActorKeys(y.actors));
    RulesDecide(x.rules, y.rules);
  }

  // ---- exactly when does the order of rules not matter? ----

  /** Rules of one type do not differ in what rig manages. */
  ghost predicate TypesAgree(rules: seq<Rule>) {
    forall r, s :: r in rules && s in rules && r.Type() == s.Type() ==> SameManaged(r, s)
  }

  function NormalRules(rules: seq<Rule>): seq<NormRule> {
    NormalAll(Sort(RuleKey, rules))
  }

  /** The normal form forgets the order of a list of rules exactly when its types agree. */
  lemma OrderIsForgotten(x: seq<Rule>)
    ensures (forall y :: multiset(y) == multiset(x) ==> NormalRules(y) == NormalRules(x)) <==> TypesAgree(x)
  {
    if TypesAgree(x) {
      forall y | multiset(y) == multiset(x) ensures NormalRules(y) == NormalRules(x) {
        AgreeingOrder(x, y);
      }
    } else {
      var r, s :| r in x && s in x && r.Type() == s.Type() && !SameManaged(r, s);
      NormalDecides(r, s);
      NormalDecides(r, r);
      DisagreeingOrder(x, r, s, Without(x, r, s));
    }
  }

  lemma DisagreeingOrder(x: seq<Rule>, r: Rule, s: Rule, rest: seq<Rule>)
    requires r.Type() == s.Type() && Normal(r) != Normal(s)
    requires multiset(rest) + multiset{r} + multiset{s} == multiset(x)
    ensures exists y :: multiset(y) == multiset(x) && NormalRules(y) != NormalRules(x)
  {
    RepeatedTypeShowsOrder(r, s, rest);
    var y, z := [r, s] + rest, [s, r] + rest;
    assert multiset(y) == multiset(x) && multiset(z) == multiset(x);
  }

  lemma AgreeingOrder(x: seq<Rule>, y: seq<Rule>)
    requires TypesAgree(x) && multiset(y) == multiset(x)
    ensures NormalRules(y) == NormalRules(x)
  {
    SortNormal(x);
    SortNormal(y);
    NormalBag(x, y);
    var n := NormalAll(x);
    forall a, b | a in n && b in n && NormKey(a) == NormKey(b) ensures a == b {
      var i :| 0 <= i < |n| && n[i] == a;
      var j :| 0 <= j < |n| && n[j] == b;
      NormalDecides(x[i], x[j]);
      NormalDecides(x[j], x[j]);
      assert x[i] in x && x[j] in x;
    }
    SortForgetsOrder(NormKey, NormalAll(x), NormalAll(y));
  }

  lemma {:induction false} NormalBag(x: seq<Rule>, y: seq<Rule>)
    requires multiset(x) == multiset(y)
    ensures multiset(NormalAll(x)) == multiset(NormalAll(y))
    decreases |x|
  {
    if x == [] {
      assert y == [] by {
        assert |multiset(y)| == |y|;
      }
    } else {
      assert x[0] in multiset(y);
      var j :| 0 <= j < |y| && y[j] == x[0];
      var x1, y1 := x[..0] + x[1..], y[..j] + y[j + 1..];
      SameBagLess(x, y, j, x1, y1);
      NormalBag(x1, y1);
      NormalTakeOut(x, 0);
      NormalTakeOut(y, j);
    }
  }

  lemma SameBagLess<T>(x: seq<T>, y: seq<T>, j: nat, x1: seq<T>, y1: seq<T>)
    requires multiset(x) == multiset(y) && x != [] && j < |y| && x[0] == y[j]
    requires x1 == x[..0] + x[1..] && y1 == y[..j] + y[j + 1..]
    ensures multiset(x1) == multiset(y1)
  {
    TakeOut(x, 0);
    TakeOut(y, j);
    Cancel(multiset(x1), multiset(y1), y[j]);
  }

  lemma Cancel<T>(a: multiset<T>, b: multiset<T>, e: T)
    requires a + multiset{e} == b + multiset{e}
    ensures a == b
  {
    assert a == (a + multiset{e}) - multiset{e};
    assert b == (b + multiset{e}) - multiset{e};
  }

  lemma TakeOut<T>(x: seq<T>, j: nat)
    requires j < |x|
    ensures multiset(x) == multiset(x[..j] + x[j + 1..]) + multiset{x[j]}
  {
    assert x == x[..j] + [x[j]] + x[j + 1..];
  }

  lemma NormalTakeOut(x: seq<Rule>, j: nat)
    requires j < |x|
    ensures multiset(NormalAll(x)) == multiset(NormalAll(x[..j] + x[j + 1..])) + multiset{Normal(x[j])}
  {
    TakeOut(NormalAll(x), j);
    assert NormalAll(x)[..j] + NormalAll(x)[j + 1..] == NormalAll(x[..j] + x[j + 1..]);
  }

  lemma NormalAppend(x: seq<Rule>, y: seq<Rule>)
    ensures NormalAll(x + y) == NormalAll(x) + NormalAll(y)
  {
  }

  /** The rules that are left when `r` and `s` are taken out. */
  ghost function Without(x: seq<Rule>, r: Rule, s: Rule): (rest: seq<Rule>)
    requires r in x && s in x && r != s
    ensures multiset(rest) + multiset{r} + multiset{s} == multiset(x)
  {
    Minus(Minus(x, r), s)
  }

  ghost function Minus(x: seq<Rule>, r: Rule): (rest: seq<Rule>)
    requires r in x
    ensures multiset(rest) + multiset{r} == multiset(x)
    ensures forall s :: s in x && s != r ==> s in rest
  {
    var i :| 0 <= i < |x| && x[i] == r;
    TakeOut(x, i);
    assert forall s :: s in x && s != r ==> s in multiset(x[..i] + x[i + 1..]);
    x[..i] + x[i + 1..]
  }

  /** Two rules of one type with different managed parameters show their order, whatever other rules there are. */
  lemma RepeatedTypeShowsOrder(r: Rule, s: Rule, rest: seq<Rule>)
    requires r.Type() == s.Type() && Normal(r) != Normal(s)
    ensures NormalRules([r, s] + rest) != NormalRules([s, r] + rest)
  {
    NormalDecides(r, r);
    NormalDecides(s, s);
    SortShowsOrder(NormKey, Normal(r), Normal(s), NormalAll(rest));
    NormalPair(r, s, rest);
    NormalPair(s, r, rest);
  }

  lemma NormalPair(r: Rule, s: Rule, rest: seq<Rule>)
    ensures NormalRules([r, s] + rest) == Sort(NormKey, [Normal(r), Normal(s)] + NormalAll(rest))
  {
    SortNormal([r, s] + rest);
    NormalAppend([r, s], rest);
    assert NormalAll([r, s]) == [Normal(r), Normal(s)];
  }
}
