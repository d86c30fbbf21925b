/** Which plans a fingerprint tells apart (riglib/config_web_plan.py). */
module PlanFingerprints {
  import opened Text
  import opened ApplyJobs

  const BAR := '|'

  /** The first three fields of the key. */
  function Head(a: Action): string {
    a.kind + [BAR] + a.category + [BAR] + a.item
  }

  function Tail(a: Action): string {
    a.descriptor + [BAR] + a.target
  }

  predicate OccursAt(s: string, part: string, p: nat) {
    p + |part| <= |s| && s[p..p + |part|] == part
  }

  predicate Occurs(s: string, part: string) {
    exists p: nat :: p <= |s| && OccursAt(s, part, p)
  }

  /** The key can be taken apart in one way only. */
  predicate Unambiguous(a: Action) {
    && BAR !in a.kind && BAR !in a.category && BAR !in a.item
    && !Occurs(Tail(a), [BAR] + a.descriptor + [BAR])
  }

  lemma KeyIsHeadTail(a: Action)
    ensures a.Key() == Head(a) + [BAR] + Tail(a)
  {
    assert "|" == [BAR];
  }

  // ---- bars are counted ----

  lemma HeadBars(a: Action)
    ensures multiset(Head(a))[BAR] >= 2
    ensures multiset(Head(a))[BAR] == 2 <==> BAR !in a.kind && BAR !in a.category && BAR !in a.item
  {
    BarsOf(a.kind);
    BarsOf(a.category);
    BarsOf(a.item);
  }

  lemma BarsOf(s: string)
    ensures multiset(s)[BAR] == 0 <==> BAR !in s
  {
  }

  /** Fields without bars are determined by the head. */
  lemma HeadFields(a: Action, b: Action)
    requires Head(a) == Head(b) && BAR !in a.kind && BAR !in a.category && BAR !in a.item
    ensures a.kind == b.kind && a.category == b.category && a.item == b.item
  {
    HeadBars(a);
    HeadBars(b);
    SplitHead(a);
    SplitHead(b);
  }

  lemma SplitHead(a: Action)
    requires BAR !in a.kind && BAR !in a.category && BAR !in a.item
    ensures Split(Head(a), BAR) == [a.kind, a.category, a.item]
  {
    SplitAtSeparator(a.kind, a.category + [BAR] + a.item, BAR);
    SplitAtSeparator(a.category, a.item, BAR);
    SplitPlain(a.item, BAR);
    assert Head(a) == a.kind + [BAR] + (a.category + [BAR] + a.item);
  }

  // ---- one action ----

  lemma SamePayload(a: Action, b: Action)
    requires Unambiguous(a) && PayloadOf(a) == PayloadOf(b)
    ensures a == b
  {
    KeyIsHeadTail(a);
    KeyIsHeadTail(b);
    HeadBars(a);
    HeadBars(b);
    var h, g := Head(a), Head(b);
    var s := a.Key();
    if |g| < |h| {
      ShorterHead(h, g, Tail(a), Tail(b));
      assert false;
    } else if |g| > |h| {
      LongerHead(a, b);
      assert false;
    } else {
      assert h == s[..|h|] == g;
      assert Tail(a) == s[|h| + 1..] == Tail(b);
      HeadFields(a, b);
      assert a.target == Tail(a)[|a.descriptor| + 1..] == b.target;
    }
  }

  /** A shorter head would leave a bar too many to the longer one. */
  lemma ShorterHead(h: string, g: string, t: string, u: string)
    requires h + [BAR] + t == g + [BAR] + u && |g| < |h|
    ensures multiset(h)[BAR] > multiset(g)[BAR]
  {
    var s := h + [BAR] + t;
    assert h[..|g|] == s[..|g|] == g && h[|g|] == s[|g|] == BAR;
    assert h == g + [BAR] + h[|g| + 1..];
  }

  /** A longer head means that the descriptor occurs once more. */
  lemma LongerHead(a: Action, b: Action)
    requires Head(a) + [BAR] + Tail(a) == Head(b) + [BAR] + Tail(b) && a.descriptor == b.descriptor && |Head(b)| > |Head(a)|
    ensures Occurs(Tail(a), [BAR] + a.descriptor + [BAR])
  {
    var h, g := Head(a), Head(b);
    var s, part := h + [BAR] + Tail(a), [BAR] + a.descriptor + [BAR];
    var p := |g| - |h| - 1;
    assert Tail(a) == s[|h| + 1..];
    assert s[|g|..] == [BAR] + Tail(b) == part + b.target;
    assert Tail(a)[p..] == s[|g|..];
    assert OccursAt(Tail(a), part, p);
  }

  /**
   * Another action with the payload of an ambiguous one: a bar of the first three fields, or a repeated
   * descriptor, is a second place to cut the key. A hook with target "t||u" and an empty descriptor has
   * the key of one with "||t" more at the end of its item and target "u".
   */
  lemma Twin(a: Action) returns (b: Action)
    requires !Unambiguous(a)
    ensures b != a && PayloadOf(b) == PayloadOf(a)
  {
    if BAR in a.kind {
      b := KindTwin(a);
    } else if BAR in a.category {
      b := CategoryTwin(a);
    } else if BAR in a.item {
      b := ItemTwin(a);
    } else {
      b := RepeatedDescriptor(a);
    }
  }

  lemma KindTwin(a: Action) returns (b: Action)
    requires BAR in a.kind
    ensures b != a && PayloadOf(b) == PayloadOf(a)
  {
    var i := BarIn(a.kind);
    b := a.(kind := a.kind[..i], category := a.kind[i + 1..] + [BAR] + a.category);
    Regroup(a.kind[..i], a.kind[i + 1..], a.category);
    assert Head(a) == Head(b);
    KeyIsHeadTail(a);
    KeyIsHeadTail(b);
  }

  lemma CategoryTwin(a: Action) returns (b: Action)
    requires BAR in a.category
    ensures b != a && PayloadOf(b) == PayloadOf(a)
  {
    var i := BarIn(a.category);
    b := a.(kind := a.kind + [BAR] + a.category[..i], category := a.category[i + 1..]);
    Regroup(a.kind, a.category[..i], a.category[i + 1..]);
    assert Head(a) == Head(b);
    KeyIsHeadTail(a);
    KeyIsHeadTail(b);
  }

  lemma ItemTwin(a: Action) returns (b: Action)
    requires BAR in a.item
    ensures b != a && PayloadOf(b) == PayloadOf(a)
  {
    var i := BarIn(a.item);
    b := a.(category := a.category + [BAR] + a.item[..i], item := a.item[i + 1..]);
    Regroup(a.category, a.item[..i], a.item[i + 1..]);
    HeadFromKind(a);
    HeadFromKind(b);
    KeyIsHeadTail(a);
    KeyIsHeadTail(b);
  }

  lemma HeadFromKind(a: Action)
    ensures Head(a) == a.kind + [BAR] + (a.category + [BAR] + a.item)
  {
  }

  lemma BarIn(s: string) returns (i: nat)
    requires BAR in s
    ensures i < |s| && s == s[..i] + [BAR] + s[i + 1..]
  {
    i :| i < |s| && s[i] == BAR;
  }

  lemma Regroup(x: string, y: string, z: string)
    ensures (x + [BAR] + y) + [BAR] + z == x + [BAR] + (y + [BAR] + z)
  {
  }

  lemma RepeatedDescriptor(a: Action) returns (b: Action)
    requires Occurs(Tail(a), [BAR] + a.descriptor + [BAR])
    ensures b != a && PayloadOf(b) == PayloadOf(a)
  {
    var t, part := Tail(a), [BAR] + a.descriptor + [BAR];
    var p: nat :| p <= |t| && OccursAt(t, part, p);
    var before, after := t[..p], t[p + |part|..];
    b := a.(item := a.item + [BAR] + before, target := after);
    LongerItem(a, before);
    assert t == before + part + after;
    CutAgain(Head(a), before, a.descriptor, after);
    KeyIsHeadTail(a);
    KeyIsHeadTail(b);
  }

  lemma LongerItem(a: Action, more: string)
    ensures Head(a.(item := a.item + [BAR] + more)) == Head(a) + [BAR] + more
  {
  }

  lemma CutAgain(head: string, before: string, descriptor: string, after: string)
    ensures (head + [BAR] + before) + [BAR] + (descriptor + [BAR] + after)
      == head + [BAR] + (before + ([BAR] + descriptor + [BAR]) + after)
  {
  }

  /** An action is determined by what the fingerprint digests of it exactly when its key is unambiguous. */
  lemma PayloadIsExact(a: Action)
    ensures (forall b :: PayloadOf(b) == PayloadOf(a) ==> b == a) <==> Unambiguous(a)
  {
    if Unambiguous(a) {
      forall b | PayloadOf(b) == PayloadOf(a) ensures b == a {
        SamePayload(a, b);
      }
    } else {
      var b := Twin(a);
    }
  }

  // ---- whole plans ----

  predicate AllUnambiguous(actions: seq<Action>) {
    forall a :: a in actions ==> Unambiguous(a)
  }

  lemma SamePayloads(x: seq<Action>, y: seq<Action>)
    requires AllUnambiguous(x) && Payloads(x) == Payloads(y)
    ensures x == y
  {
    assert |x| == |Payloads(x)| == |y|;
    forall i | 0 <= i < |x| ensures x[i] == y[i] {
      assert PayloadOf(x[i]) == Payloads(x)[i] == PayloadOf(y[i]);
      SamePayload(x[i], y[i]);
    }
  }

  /** Plans with the same payloads have the same keys. */
  lemma SameKeys(x: seq<Action>, y: seq<Action>)
    requires Payloads(x) == Payloads(y)
    ensures |x| == |y| && forall i :: 0 <= i < |x| ==> x[i].Key() == y[i].Key()
  {
    assert |x| == |Payloads(x)| == |y|;
    forall i | 0 <= i < |x| ensures x[i].Key() == y[i].Key() {
      assert Payloads(x)[i] == Payloads(y)[i];
    }
  }

  /** A different plan with the same fingerprint; its keys are the same, hence as unique. */
  lemma TwinPlan(x: Plan) returns (y: Plan)
    requires !AllUnambiguous(x.actions)
    ensures y.actions != x.actions && FingerprintPlan(y) == FingerprintPlan(x)
  {
    var i :| 0 <= i < |x.actions| && !Unambiguous(x.actions[i]);
    var b := Twin(x.actions[i]);
    y := x.(actions := x.actions[i := b]);
    assert y.actions[i] == b;
    assert Payloads(y.actions) == Payloads(x.actions);
  }

  /** Among plans with unique keys, the fingerprint of a plan is its own exactly when its actions are unambiguous. */
  lemma FingerprintIsExact(x: Plan)
    requires UniqueKeys(x.actions)
    ensures (forall y: Plan :: UniqueKeys(y.actions) && FingerprintPlan(y) == FingerprintPlan(x) ==> y == x) <==> AllUnambiguous(x.actions)
  {
    if AllUnambiguous(x.actions) {
      forall y | FingerprintPlan(y) == FingerprintPlan(x) ensures y == x {
        SamePayloads(x.actions, y.actions);
      }
    } else {
      var y := TwinPlan(x);
      SameKeys(x.actions, y.actions);
    }
  }

  // ---- what an accepted start runs ----

  /** An accepted start runs exactly the previewed actions minus the skipped ones, if their keys are unambiguous. */
  lemma AcceptedRunsTheActions(s: Store, id: Id, r: Request, previewed: Plan)
    requires Inv(s) && Enabled(s, Start(id, r)) && r.expected == FingerprintPlan(previewed)
    requires Check(Busy(s).Some?, r) == Accepted && AllUnambiguous(previewed.actions)
    ensures var j := Next(s, Start(id, r)).objects[id];
      j.plan == previewed && InPlanOrder(previewed.actions, r.skip, j.run)
  {
    SamePayloads(previewed.actions, r.plan.actions);
    SelectedInPlanOrder(previewed.actions, r.skip);
  }

  /** With an ambiguous key, some start with the fingerprint of the preview is accepted and runs other actions. */
  lemma AmbiguousPreviewMisleads(s: Store, id: Id, previewed: Plan, scope: string)
    requires Inv(s) && id !in s.objects && Busy(s).None?
    requires UniqueKeys(previewed.actions) && !AllUnambiguous(previewed.actions)
    ensures exists r ::
      Enabled(s, Start(id, r)) && r.expected == FingerprintPlan(previewed) && r.skip == {}
      && Check(Busy(s).Some?, r) == Accepted && Next(s, Start(id, r)).objects[id].run != previewed.actions
  {
    var y := TwinPlan(previewed);
    SameKeys(previewed.actions, y.actions);
    var r := Request(scope, y, true, FingerprintPlan(previewed), {});
    NothingSkipped(y.actions);
    assert Check(false, r) == Accepted;
    assert Next(s, Start(id, r)).objects[id].run == y.actions;
  }

  lemma {:induction false} NothingSkipped(actions: seq<Action>)
    ensures Selected(actions, {}) == actions
  {
    if actions != [] {
      NothingSkipped(actions[1..]);
    }
  }
}
