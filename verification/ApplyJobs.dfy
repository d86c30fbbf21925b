/** The apply-job store of the configuration console (riglib/config_web_plan.py). */
module ApplyJobs {
  import opened Text

  type Id = string

  // ---- plans, keys and fingerprints ----

  /** `options` is the canonical JSON of the action's options without its descriptor. */
  datatype Action = Action(
    kind: string,
    category: string,
    item: string,
    descriptor: string,
    target: string,
    source: string,
    options: string)
  {
    function Key(): string {
      kind + "|" + category + "|" + item + "|" + descriptor + "|" + target
    }
  }

  datatype Plan = Plan(actions: seq<Action>, onConflict: string)

  /** What the digest of a plan is computed from; distinct payloads have distinct digests. */
  datatype Payload = Payload(key: string, source: string, descriptor: string, options: string)
  datatype Fingerprint = Fingerprint(onConflict: string, payloads: seq<Payload>)

  function PayloadOf(a: Action): Payload {
    Payload(a.Key(), a.source, a.descriptor, a.options)
  }

  function Payloads(actions: seq<Action>): (r: seq<Payload>)
    ensures |r| == |actions| && forall i :: 0 <= i < |r| ==> r[i] == PayloadOf(actions[i])
  {
    seq(|actions|, i requires 0 <= i < |actions| => PayloadOf(actions[i]))
  }

  function FingerprintPlan(p: Plan): Fingerprint {
    Fingerprint(p.onConflict, Payloads(p.actions))
  }

  function Keys(actions: seq<Action>): set<string> {
    set a | a in actions :: a.Key()
  }

  ghost predicate UniqueKeys(actions: seq<Action>) {
    forall i, j :: 0 <= i < j < |actions| ==> actions[i].Key() != actions[j].Key()
  }

  /** `_assert_unique_action_keys`: false stands for the PlanIntegrityError. */
  method KeysAreUnique(actions: seq<Action>) returns (ok: bool)
    ensures ok <==> UniqueKeys(actions)
  {
    var seen: set<string> := {};
    for i := 0 to |actions|
      invariant UniqueKeys(actions[..i])
      invariant seen == Keys(actions[..i])
    {
      var key := actions[i].Key();
      if key in seen {
        var j :| 0 <= j < i && actions[j].Key() == key;
        return false;
      }
      seen := seen + {key};
      assert actions[..i + 1] == actions[..i] + [actions[i]];
    }
    assert actions[..|actions|] == actions;
    return true;
  }

  /** The actions whose key is not skipped, in plan order. */
  function Selected(actions: seq<Action>, skip: set<string>): seq<Action> {
    if actions == [] then []
    else
      var rest := Selected(actions[1..], skip);
      if actions[0].Key() in skip then rest else [actions[0]] + rest
  }

  // ---- jobs ----

  datatype Status = Queued | Running | Created | Updated | Skipped | BackedUp | Error

  predicate IsResult(s: Status) {
    s != Queued && s != Running
  }

  datatype Progress = Progress(status: Status, detail: string)

  const SKIPPED_BY_USER := Progress(Skipped, "skipped by user")

  type Rows = map<string, Progress>

  /** One row per planned action, found by its key. */
  function InitialRows(actions: seq<Action>, skip: set<string>): Rows {
    map key | key in Keys(actions) :: if key in skip then SKIPPED_BY_USER else Progress(Queued, "")
  }

  function SetRow(rows: Rows, key: string, p: Progress): Rows {
    if key in rows then rows[key := p] else rows
  }

  function SetStatus(rows: Rows, key: string, status: Status): Rows {
    if key in rows then rows[key := rows[key].(status := status)] else rows
  }

  datatype Phase = Working | Closing | Finished

  /** A job object with the state of its background thread. */
  datatype Job = Job(
    scope: string,
    plan: Plan,
    skip: set<string>,
    run: seq<Action>,
    rows: Rows,
    results: seq<Status>,
    inFlight: bool,
    phase: Phase,
    error: Option<string>,
    done: bool)

  function NewJob(scope: string, plan: Plan, skip: set<string>): Job {
    Job(scope, plan, skip, Selected(plan.actions, skip), InitialRows(plan.actions, skip), [], false, Working, None, false)
  }

  // ---- the store ----

  const MAX_RETAINED: nat := 20

  /** `objects` are all job objects ever created; `_jobs` retains those in `retained`. */
  datatype Store = Store(objects: map<Id, Job>, retained: set<Id>, order: seq<Id>, active: Option<Id>)

  const EMPTY := Store(map[], {}, [], None)

  /** Drop the oldest ids down to capacity, stopping before `busy`. */
  function Evict(order: seq<Id>, busy: Option<Id>): seq<Id> {
    if |order| > MAX_RETAINED && busy != Some(order[0]) then Evict(order[1..], busy) else order
  }

  function Members(order: seq<Id>): set<Id> {
    set id | id in order
  }

  function Busy(s: Store): Option<Id> {
    if s.active.Some? && s.active.value in s.objects && !s.objects[s.active.value].done then s.active else None
  }

  /** A request: the freshly built plan with whether any config layer is declared, and the browser's echo. */
  datatype Request = Request(scope: string, plan: Plan, declared: bool, expected: Fingerprint, skip: set<string>)

  datatype Outcome = BusyError | NoConfigError | IntegrityError | StaleError | Accepted

  /** The checks of `start`, in order. */
  ghost function Check(busy: bool, r: Request): Outcome {
    if busy then BusyError
    else if !r.declared then NoConfigError
    else if !UniqueKeys(r.plan.actions) then IntegrityError
    else if FingerprintPlan(r.plan) != r.expected then StaleError
    else if !(r.skip <= Keys(r.plan.actions)) then StaleError
    else Accepted
  }

  datatype Step =
    | Start(id: Id, request: Request)
    | OnStart(id: Id)
    | OnProgress(id: Id, status: Status, detail: string)
    | Report(id: Id, message: string)
    | Crash(id: Id, message: string)
    | Finish(id: Id)
    | Poll(id: Id)

  /** The background thread of a job does what `run_plan` and `_run` do, in their order. */
  predicate ThreadStep(step: Step) {
    !step.Start? && !step.Poll?
  }

  predicate ThreadEnabled(j: Job, step: Step)
    requires ThreadStep(step)
  {
    match step
    case OnStart(_) => j.phase == Working && !j.inFlight && |j.results| < |j.run|
    case OnProgress(_, status, _) => j.phase == Working && j.inFlight && |j.results| < |j.run| && IsResult(status)
    case Report(_, _) => j.phase == Working && !j.inFlight && |j.results| == |j.run|
    case Crash(_, _) => j.phase == Working
    case Finish(_) => j.phase == Closing
  }

  /** Job ids are fresh. */
  predicate Enabled(s: Store, step: Step) {
    if step.Start? then step.id !in s.objects
    else if step.Poll? then true
    else step.id in s.objects && ThreadEnabled(s.objects[step.id], step)
  }

  function Begin(j: Job): Job
    requires |j.results| < |j.run|
  {
    j.(rows := SetStatus(j.rows, j.run[|j.results|].Key(), Running), inFlight := true)
  }

  function Record(j: Job, status: Status, detail: string): Job
    requires |j.results| < |j.run|
  {
    j.(rows := SetRow(j.rows, j.run[|j.results|].Key(), Progress(status, detail)),
       results := j.results + [status], inFlight := false)
  }

  function Close(j: Job, message: string): Job {
    j.(error := if Error in j.results then Some(message) else j.error, phase := Closing)
  }

  function ThreadNext(j: Job, step: Step): Job
    requires ThreadStep(step) && ThreadEnabled(j, step)
  {
    match step
    case OnStart(_) => Begin(j)
    case OnProgress(_, status, detail) => Record(j, status, detail)
    case Report(_, message) => Close(j, message)
    case Crash(_, message) => j.(error := Some(message), phase := Closing)
    case Finish(_) => j.(done := true, phase := Finished)
  }

  ghost function StartNext(s: Store, id: Id, r: Request): Store {
    if Check(Busy(s).Some?, r) != Accepted then s
    else
      var order := Evict(s.order + [id], Some(id));
      Store(s.objects[id := NewJob(r.scope, r.plan, r.skip)], Members(order), order, Some(id))
  }

  ghost function Next(s: Store, step: Step): Store
    requires Enabled(s, step)
  {
    if step.Start? then StartNext(s, step.id, step.request)
    else if step.Poll? then s
    else s.(objects := s.objects[step.id := ThreadNext(s.objects[step.id], step)])
  }

  ghost predicate IsRun(s: Store, steps: seq<Step>)
    decreases |steps|
  {
    steps == [] || (Enabled(s, steps[0]) && IsRun(Next(s, steps[0]), steps[1..]))
  }

  ghost function After(s: Store, steps: seq<Step>): Store
    requires IsRun(s, steps)
    decreases |steps|
  {
    if steps == [] then s else After(Next(s, steps[0]), steps[1..])
  }

  // ---- invariants ----

  ghost predicate Distinct(order: seq<Id>) {
    forall i, j :: 0 <= i < j < |order| ==> order[i] != order[j]
  }

  /** The statuses of the selected rows follow the position of the thread. */
  ghost predicate RowsFollow(j: Job) {
    && |j.results| <= |j.run|
    && (forall i :: 0 <= i < |j.run| ==> j.run[i].Key() in j.rows)
    && (forall i :: 0 <= i < |j.results| ==> IsResult(j.results[i]) && j.rows[j.run[i].Key()].status == j.results[i])
    && (j.inFlight ==> |j.results| < |j.run| && j.rows[j.run[|j.results|].Key()].status == Running)
    && (forall i :: |j.results| <= i < |j.run| && (i > |j.results| || !j.inFlight) ==> j.rows[j.run[i].Key()] == Progress(Queued, ""))
  }

  ghost predicate JobInv(j: Job) {
    && UniqueKeys(j.plan.actions) && j.skip <= Keys(j.plan.actions)
    && j.run == Selected(j.plan.actions, j.skip)
    && j.rows.Keys == Keys(j.plan.actions)
    && (forall k :: k in j.skip ==> j.rows[k] == SKIPPED_BY_USER)
    && RowsFollow(j)
    && (j.done <==> j.phase == Finished)
    && (j.phase == Working ==> j.error.None?)
    && (j.phase != Working && j.error.None? ==> |j.results| == |j.run| && Error !in j.results)
  }

  ghost predicate Inv(s: Store) {
    && Distinct(s.order) && Members(s.order) == s.retained && s.retained <= s.objects.Keys
    && |s.order| <= MAX_RETAINED
    && (forall id :: id in s.objects ==> JobInv(s.objects[id]))
    && (forall id :: id in s.objects && !s.objects[id].done ==> s.active == Some(id) && id in s.retained)
  }

  lemma {:induction false} SelectedFacts(actions: seq<Action>, skip: set<string>)
    requires UniqueKeys(actions)
    ensures UniqueKeys(Selected(actions, skip))
    ensures forall a :: a in Selected(actions, skip) <==> a in actions && a.Key() !in skip
  {
    if actions != [] {
      SelectedFacts(actions[1..], skip);
      assert actions == [actions[0]] + actions[1..];
      forall a | a in actions[1..] ensures a.Key() != actions[0].Key() {
        var i :| 0 <= i < |actions[1..]| && actions[1..][i] == a;
        assert actions[i + 1] == a;
      }
    }
  }

  // ---- plan order ----

  /** `ps` are the positions of the actions whose key is not skipped, in ascending order. */
  ghost predicate Picks(actions: seq<Action>, skip: set<string>, ps: seq<nat>) {
    && (forall i, j :: 0 <= i < j < |ps| ==> ps[i] < ps[j])
    && (forall k: nat :: k in ps <==> k < |actions| && actions[k].Key() !in skip)
  }

  ghost predicate At(actions: seq<Action>, ps: seq<nat>, run: seq<Action>) {
    |run| == |ps| && forall i :: 0 <= i < |run| ==> ps[i] < |actions| && run[i] == actions[ps[i]]
  }

  /** `run` are the actions whose key is not skipped, each once and in the order of the plan. */
  ghost predicate InPlanOrder(actions: seq<Action>, skip: set<string>, run: seq<Action>) {
    exists ps: seq<nat> :: Picks(actions, skip, ps) && At(actions, ps, run)
  }

  /** What is digested of `run` is what is digested of the unskipped actions, in the order of the plan. */
  ghost predicate PayloadsInPlanOrder(actions: seq<Action>, skip: set<string>, run: seq<Action>) {
    exists ps: seq<nat> :: Picks(actions, skip, ps) && PayloadsAt(actions, ps, run)
  }

  ghost predicate PayloadsAt(actions: seq<Action>, ps: seq<nat>, run: seq<Action>) {
    |run| == |ps| && forall i :: 0 <= i < |run| ==> ps[i] < |actions| && PayloadOf(run[i]) == PayloadOf(actions[ps[i]])
  }

  function Shifted(ps: seq<nat>): (r: seq<nat>)
    ensures |r| == |ps| && forall i :: 0 <= i < |r| ==> r[i] == ps[i] + 1
  {
    seq(|ps|, i requires 0 <= i < |ps| => ps[i] + 1)
  }

  lemma ShiftedHas(ps: seq<nat>, k: nat)
    ensures k in Shifted(ps) <==> k > 0 && k - 1 in ps
  {
    if k > 0 && k - 1 in ps {
      var i :| 0 <= i < |ps| && ps[i] == k - 1;
      assert Shifted(ps)[i] == k;
    }
  }

  lemma PicksCons(actions: seq<Action>, skip: set<string>, ps: seq<nat>)
    requires actions != [] && Picks(actions[1..], skip, ps)
    ensures Picks(actions, skip, PositionsCons(actions, skip, ps))
  {
    var qs := PositionsCons(actions, skip, ps);
    forall k: nat ensures k in qs <==> k < |actions| && actions[k].Key() !in skip {
      ShiftedHas(ps, k);
    }
  }

  /** The positions in a plan, from those in its tail. */
  function PositionsCons(actions: seq<Action>, skip: set<string>, ps: seq<nat>): seq<nat>
    requires actions != []
  {
    (if actions[0].Key() in skip then [] else [0]) + Shifted(ps)
  }

  lemma AtCons(actions: seq<Action>, skip: set<string>, ps: seq<nat>, run: seq<Action>)
    requires actions != [] && At(actions[1..], ps, run)
    ensures At(actions, PositionsCons(actions, skip, ps), (if actions[0].Key() in skip then [] else [actions[0]]) + run)
  {
    assert forall i :: 0 <= i < |run| ==> actions[1..][ps[i]] == actions[ps[i] + 1];
  }

  lemma {:induction false} PositionsOf(actions: seq<Action>, skip: set<string>) returns (ps: seq<nat>)
    ensures Picks(actions, skip, ps) && At(actions, ps, Selected(actions, skip))
  {
    ps := [];
    if actions != [] {
      var rest := PositionsOf(actions[1..], skip);
      PicksCons(actions, skip, rest);
      AtCons(actions, skip, rest, Selected(actions[1..], skip));
      ps := PositionsCons(actions, skip, rest);
      SelectedCons(actions, skip);
    }
  }

  lemma SelectedCons(actions: seq<Action>, skip: set<string>)
    requires actions != []
    ensures Selected(actions, skip) == (if actions[0].Key() in skip then [] else [actions[0]]) + Selected(actions[1..], skip)
  {
  }

  /** The selected actions run in plan order. */
  lemma SelectedInPlanOrder(actions: seq<Action>, skip: set<string>)
    ensures InPlanOrder(actions, skip, Selected(actions, skip))
  {
    var ps := PositionsOf(actions, skip);
  }

  /** There is one list of positions, hence one run. */
  lemma PlanOrderIsUnique(actions: seq<Action>, skip: set<string>, run: seq<Action>)
    ensures InPlanOrder(actions, skip, run) <==> run == Selected(actions, skip)
  {
    SelectedInPlanOrder(actions, skip);
    if InPlanOrder(actions, skip, run) {
      var ps: seq<nat> :| Picks(actions, skip, ps) && At(actions, ps, run);
      var qs := PositionsOf(actions, skip);
      assert forall k: nat :: k in ps <==> k in qs;
      AscendingUnique(ps, qs);
    }
  }

  lemma {:induction false} AscendingUnique(ps: seq<nat>, qs: seq<nat>)
    requires forall i, j :: 0 <= i < j < |ps| ==> ps[i] < ps[j]
    requires forall i, j :: 0 <= i < j < |qs| ==> qs[i] < qs[j]
    requires forall k: nat :: k in ps <==> k in qs
    ensures ps == qs
  {
    if qs != [] {
      assert qs[0] in qs;
    }
    if ps != [] {
      assert ps[0] in qs && qs[0] in ps;
      assert ps[0] == qs[0];
      forall k: nat ensures k in ps[1..] <==> k in qs[1..] {
        TailHas(ps, k);
        TailHas(qs, k);
      }
      AscendingUnique(ps[1..], qs[1..]);
      assert ps == [ps[0]] + ps[1..] && qs == [qs[0]] + qs[1..];
    }
  }

  lemma TailHas(ps: seq<nat>, k: nat)
    requires ps != [] && forall i, j :: 0 <= i < j < |ps| ==> ps[i] < ps[j]
    ensures k in ps[1..] <==> k in ps && k != ps[0]
  {
    assert ps == [ps[0]] + ps[1..];
    if k in ps[1..] {
      var i :| 0 <= i < |ps[1..]| && ps[1..][i] == k;
      assert ps[i + 1] == k;
    }
  }

  lemma NewJobInv(scope: string, plan: Plan, skip: set<string>)
    requires UniqueKeys(plan.actions) && skip <= Keys(plan.actions)
    ensures JobInv(NewJob(scope, plan, skip))
  {
    SelectedFacts(plan.actions, skip);
    var j := NewJob(scope, plan, skip);
    forall i | 0 <= i < |j.run| ensures j.run[i].Key() in j.rows && j.run[i].Key() !in skip {
      assert j.run[i] in j.run;
    }
  }

  /** Changing the row at the thread's position touches no other selected row and no skipped one. */
  lemma RowIsAlone(j: Job, p: Progress)
    requires JobInv(j) && |j.results| < |j.run|
    ensures var key := j.run[|j.results|].Key();
      && key in j.rows && key !in j.skip
      && forall i :: 0 <= i < |j.run| && i != |j.results| ==> j.run[i].Key() != key
  {
    SelectedFacts(j.plan.actions, j.skip);
    assert j.run[|j.results|] in j.run;
  }

  lemma BeginInv(j: Job)
    requires JobInv(j) && |j.results| < |j.run| && j.phase == Working && !j.inFlight
    ensures JobInv(Begin(j))
  {
    RowIsAlone(j, Progress(Running, ""));
  }

  lemma RecordInv(j: Job, status: Status, detail: string)
    requires JobInv(j) && |j.results| < |j.run| && j.phase == Working && j.inFlight && IsResult(status)
    ensures JobInv(Record(j, status, detail))
  {
    RowIsAlone(j, Progress(status, detail));
  }

  lemma {:induction false} EvictFacts(order: seq<Id>)
    requires Distinct(order) && order != []
    ensures var kept := Evict(order, Some(order[|order| - 1]));
      && kept != [] && |kept| <= |order| && kept == order[|order| - |kept|..]
      && |kept| <= MAX_RETAINED && (|order| <= MAX_RETAINED ==> kept == order)
  {
    if |order| > MAX_RETAINED {
      EvictFacts(order[1..]);
    }
  }

  lemma MembersAppended(order: seq<Id>, id: Id)
    ensures Members(order + [id]) == Members(order) + {id}
  {
    assert forall x :: x in Members(order + [id]) <==> x in order || x == id;
  }

  /** Appending a fresh id and evicting keeps the order duplicate-free, bounded and ending in that id. */
  lemma EvictAppended(order: seq<Id>, id: Id)
    requires Distinct(order) && id !in order
    ensures var kept := Evict(order + [id], Some(id));
      && Distinct(kept) && |kept| <= MAX_RETAINED && id in kept
      && forall x :: x in kept ==> x in order || x == id
  {
    EvictFacts(order + [id]);
    var kept := Evict(order + [id], Some(id));
    assert kept[|kept| - 1] == id;
  }

  lemma StartInv(s: Store, id: Id, r: Request)
    requires Inv(s) && id !in s.objects
    ensures Inv(StartNext(s, id, r))
  {
    if Check(Busy(s).Some?, r) == Accepted {
      NewJobInv(r.scope, r.plan, r.skip);
      assert forall x :: x in s.order <==> x in Members(s.order);
      EvictAppended(s.order, id);
      var t := StartNext(s, id, r);
      assert forall x :: x in t.order <==> x in Members(t.order);
      assert forall x :: x in s.objects ==> s.objects[x].done;
    }
  }

  lemma ReplaceInv(s: Store, id: Id, j: Job)
    requires Inv(s) && id in s.objects && JobInv(j) && !s.objects[id].done
    ensures Inv(s.(objects := s.objects[id := j]))
  {
  }

  lemma ThreadStepInv(j: Job, step: Step)
    requires JobInv(j) && ThreadStep(step) && ThreadEnabled(j, step)
    ensures JobInv(ThreadNext(j, step)) && !j.done
  {
    if step.OnStart? {
      BeginInv(j);
    } else if step.OnProgress? {
      RecordInv(j, step.status, step.detail);
    }
  }

  lemma StepInv(s: Store, step: Step)
    requires Inv(s) && Enabled(s, step)
    ensures Inv(Next(s, step))
  {
    if step.Start? {
      StartInv(s, step.id, step.request);
    } else if ThreadStep(step) {
      var j := s.objects[step.id];
      ThreadStepInv(j, step);
      ReplaceInv(s, step.id, ThreadNext(j, step));
    }
  }

  /** Every interleaving of starts, threads and polls keeps the invariant. */
  lemma {:induction false} RunInv(s: Store, steps: seq<Step>)
    requires Inv(s) && IsRun(s, steps)
    ensures Inv(After(s, steps))
    decreases |steps|
  {
    if steps != [] {
      StepInv(s, steps[0]);
      RunInv(Next(s, steps[0]), steps[1..]);
    }
  }

  /** At most one job ever created is unfinished, it is never evicted, and retention is bounded and exact. */
  lemma StoreSafety(steps: seq<Step>, x: Id, y: Id)
    requires IsRun(EMPTY, steps)
    ensures var s := After(EMPTY, steps);
      && (x in s.objects && y in s.objects && !s.objects[x].done && !s.objects[y].done ==> x == y)
      && (x in s.objects && !s.objects[x].done ==> x in s.retained)
      && Distinct(s.order) && Members(s.order) == s.retained && |s.retained| <= MAX_RETAINED
  {
    RunInv(EMPTY, steps);
    var s := After(EMPTY, steps);
    MembersCount(s.order);
  }

  lemma {:induction false} MembersCount(order: seq<Id>)
    ensures |Members(order)| <= |order|
  {
    if order != [] {
      MembersCount(order[1..]);
      assert order == [order[0]] + order[1..];
      assert Members(order) == Members(order[1..]) + {order[0]};
    }
  }

  // ---- rows only move forward ----

  /** Queued, then running, then a result; a result is final. */
  predicate Forward(p: Progress, q: Progress) {
    p == q || (p.status == Queued && q.status == Running) || (p.status == Running && IsResult(q.status))
  }

  lemma StepMovesForward(s: Store, step: Step, id: Id, key: string)
    requires Inv(s) && Enabled(s, step) && id in s.objects && key in s.objects[id].rows
    ensures var t := Next(s, step);
      id in t.objects && key in t.objects[id].rows && t.objects[id].plan == s.objects[id].plan && t.objects[id].skip == s.objects[id].skip
      && Forward(s.objects[id].rows[key], t.objects[id].rows[key])
  {
    if ThreadStep(step) && step.id == id {
      ThreadMovesForward(s.objects[id], step, key);
    } else if !step.Poll? {
      assert step.id == id ==> !step.Start?;
      assert Next(s, step).objects[id] == s.objects[id];
    }
  }

  /** A thread step leaves the plan and the skipped keys alone, and moves a row forward at most. */
  lemma ThreadMovesForward(j: Job, step: Step, key: string)
    requires JobInv(j) && ThreadStep(step) && ThreadEnabled(j, step) && key in j.rows
    ensures var k := ThreadNext(j, step);
      k.plan == j.plan && k.skip == j.skip && key in k.rows && Forward(j.rows[key], k.rows[key])
  {
    if step.OnStart? || step.OnProgress? {
      RowIsAlone(j, Progress(Running, ""));
    }
  }

  /** Once a row shows a result, or was skipped by the user, no later step of any thread changes it. */
  lemma {:induction false} ResultIsFinal(s: Store, steps: seq<Step>, id: Id, key: string)
    requires Inv(s) && IsRun(s, steps) && id in s.objects && key in s.objects[id].rows
    requires IsResult(s.objects[id].rows[key].status)
    ensures var t := After(s, steps);
      id in t.objects && key in t.objects[id].rows && t.objects[id].rows[key] == s.objects[id].rows[key]
    decreases |steps|
  {
    if steps != [] {
      StepMovesForward(s, steps[0], id, key);
      StepInv(s, steps[0]);
      ResultIsFinal(Next(s, steps[0]), steps[1..], id, key);
    }
  }

  /** In a job that is done without an error every selected row has a non-error result, every other row is skipped. */
  lemma DoneMeansApplied(steps: seq<Step>, id: Id, a: Action)
    requires IsRun(EMPTY, steps)
    requires id in After(EMPTY, steps).objects
    requires var j := After(EMPTY, steps).objects[id]; j.done && j.error.None? && a in j.plan.actions
    ensures var j := After(EMPTY, steps).objects[id];
      && a.Key() in j.rows
      && (a.Key() in j.skip ==> j.rows[a.Key()] == SKIPPED_BY_USER)
      && (a.Key() !in j.skip ==> IsResult(j.rows[a.Key()].status) && j.rows[a.Key()].status != Error)
      && InPlanOrder(j.plan.actions, j.skip, j.run) && |j.results| == |j.run|
  {
    RunInv(EMPTY, steps);
    DoneJob(After(EMPTY, steps).objects[id], a);
  }

  lemma DoneJob(j: Job, a: Action)
    requires JobInv(j) && j.done && j.error.None? && a in j.plan.actions
    ensures a.Key() in j.rows
    ensures a.Key() in j.skip ==> j.rows[a.Key()] == SKIPPED_BY_USER
    ensures a.Key() !in j.skip ==> IsResult(j.rows[a.Key()].status) && j.rows[a.Key()].status != Error
    ensures InPlanOrder(j.plan.actions, j.skip, j.run) && |j.results| == |j.run|
  {
    SelectedInPlanOrder(j.plan.actions, j.skip);
    assert a.Key() in Keys(j.plan.actions);
    if a.Key() !in j.skip {
      RowApplied(j, a);
    }
  }

  lemma RowApplied(j: Job, a: Action)
    requires JobInv(j) && j.done && j.error.None? && a in j.plan.actions && a.Key() !in j.skip
    ensures a.Key() in j.rows && IsResult(j.rows[a.Key()].status) && j.rows[a.Key()].status != Error
  {
    SelectedFacts(j.plan.actions, j.skip);
    var i :| 0 <= i < |j.run| && j.run[i] == a;
    assert j.results[i] in j.results;
  }

  // ---- what a start decides ----

  /**
   * A start changes the store exactly when every job is done, some configuration is declared, no two actions
   * share a key, the echoed fingerprint is that of the plan, and every skipped key is one of the plan. It
   * then queues a job, the only one that is not done.
   */
  lemma StartDecides(s: Store, id: Id, r: Request)
    requires Inv(s) && id !in s.objects
    ensures var t := Next(s, Start(id, r));
      if (forall x :: x in s.objects ==> s.objects[x].done) && r.declared && UniqueKeys(r.plan.actions)
        && r.expected == FingerprintPlan(r.plan) && (forall k :: k in r.skip ==> exists a :: a in r.plan.actions && a.Key() == k)
      then t.objects.Keys == s.objects.Keys + {id} && !t.objects[id].done && t.active == Some(id) && id in t.retained
      else t == s
  {
    StartInv(s, id, r);
    assert Busy(s).None? <==> forall x :: x in s.objects ==> s.objects[x].done;
    assert r.skip <= Keys(r.plan.actions) <==> forall k :: k in r.skip ==> exists a :: a in r.plan.actions && a.Key() == k;
  }

  // ---- what was previewed is what runs ----

  lemma {:induction false} SelectedPayloads(x: seq<Action>, y: seq<Action>, skip: set<string>)
    requires Payloads(x) == Payloads(y)
    ensures Payloads(Selected(x, skip)) == Payloads(Selected(y, skip))
  {
    assert |Payloads(x)| == |Payloads(y)|;
    if x != [] {
      assert PayloadOf(x[0]) == Payloads(x)[0] == Payloads(y)[0] == PayloadOf(y[0]);
      forall i | 0 <= i < |x| - 1 ensures PayloadOf(x[1..][i]) == PayloadOf(y[1..][i]) {
        assert Payloads(x)[i + 1] == Payloads(y)[i + 1];
      }
      assert Payloads(x[1..]) == Payloads(y[1..]);
      SelectedPayloads(x[1..], y[1..], skip);
      assert Payloads(Selected(x, skip)) == (if x[0].Key() in skip then [] else [PayloadOf(x[0])]) + Payloads(Selected(x[1..], skip));
      assert Payloads(Selected(y, skip)) == (if y[0].Key() in skip then [] else [PayloadOf(y[0])]) + Payloads(Selected(y[1..], skip));
    }
  }

  lemma PlanOrderOfPayloads(actions: seq<Action>, skip: set<string>, run: seq<Action>)
    requires Payloads(run) == Payloads(Selected(actions, skip))
    ensures PayloadsInPlanOrder(actions, skip, run)
  {
    var ps := PositionsOf(actions, skip);
    var selected := Selected(actions, skip);
    assert |run| == |Payloads(run)| == |selected|;
    forall i | 0 <= i < |run| ensures PayloadOf(run[i]) == PayloadOf(actions[ps[i]]) {
      assert Payloads(run)[i] == PayloadOf(selected[i]);
    }
    assert PayloadsAt(actions, ps, run);
  }

  /**
   * An accepted request runs the plan whose fingerprint the browser echoed: the same conflict policy,
   * and the same keys, sources and options in the same order, without the skipped keys and nothing else.
   */
  lemma AcceptedRunsThePreview(s: Store, id: Id, r: Request, previewed: Plan)
    requires Inv(s) && Enabled(s, Start(id, r)) && r.expected == FingerprintPlan(previewed)
    requires Check(Busy(s).Some?, r) == Accepted
    ensures var j := Next(s, Start(id, r)).objects[id];
      && j.plan.onConflict == previewed.onConflict
      && PayloadsInPlanOrder(previewed.actions, r.skip, j.run)
      && (forall k :: k in r.skip ==> k in Keys(previewed.actions))
  {
    var x, y := r.plan.actions, previewed.actions;
    assert Payloads(x) == Payloads(y);
    SelectedPayloads(x, y, r.skip);
    PlanOrderOfPayloads(y, r.skip, Selected(x, r.skip));
    forall k | k in r.skip ensures k in Keys(y) {
      var i :| 0 <= i < |x| && x[i].Key() == k;
      assert Payloads(x)[i] == Payloads(y)[i];
      assert y[i].Key() == k && y[i] in y;
    }
  }
}
