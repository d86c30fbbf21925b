/** The background thread of an apply job, as steps of the transition system (riglib/config_web_plan.py). */
module ApplyThreads {
  import opened Text
  import opened ApplyJobs

  const BROKE_OFF := "the run broke off"
  const FAILED := "actions failed"

  /** The rows after a runner that may have broken off. */
  ghost predicate RunnerLeft(was: Rows, now: Rows, run: seq<Action>, results: seq<Progress>, started: bool) {
    if started && |results| < |run| then Interrupted(was, now, run, results) else Reported(was, now, run, results)
  }

  /** From `was` to `now` the first actions of the run got their results and nothing else changed. */
  ghost predicate Reported(was: Rows, now: Rows, run: seq<Action>, results: seq<Progress>) {
    && |results| <= |run| && now.Keys == was.Keys
    && (forall i :: 0 <= i < |results| ==> run[i].Key() in now && now[run[i].Key()] == results[i])
    && forall key :: key in now && now[key] != was[key] ==> exists i :: 0 <= i < |results| && run[i].Key() == key
  }

  /** One more action was started. */
  ghost predicate Interrupted(was: Rows, now: Rows, run: seq<Action>, results: seq<Progress>) {
    |results| < |run| && exists reported ::
      Reported(was, reported, run, results) && now == SetStatus(reported, run[|results|].Key(), Running)
  }

  lemma InterruptedNext(was: Rows, reported: Rows, run: seq<Action>, results: seq<Progress>)
    requires |results| < |run| && Reported(was, reported, run, results)
    ensures Interrupted(was, SetStatus(reported, run[|results|].Key(), Running), run, results)
  {
  }

  predicate NoError(results: seq<Progress>) {
    forall p :: p in results ==> p.status != Error
  }

  lemma NoErrorStep(results: seq<Progress>, i: nat)
    requires i < |results|
    ensures NoError(results[..i + 1]) <==> NoError(results[..i]) && results[i].status != Error
  {
    assert results[..i + 1] == results[..i] + [results[i]];
  }

  /** A run that finished without an error leaves every selected row with its own non-error result. */
  lemma CleanRunApplied(was: Rows, now: Rows, plan: seq<Action>, skip: set<string>, results: seq<Progress>, a: Action)
    requires UniqueKeys(plan) && was == InitialRows(plan, skip) && a in plan
    requires Reported(was, now, Selected(plan, skip), results) && |results| == |Selected(plan, skip)|
    requires NoError(results) && forall p :: p in results ==> IsResult(p.status)
    ensures a.Key() in now
    ensures a.Key() in skip ==> now[a.Key()] == SKIPPED_BY_USER
    ensures a.Key() !in skip ==> IsResult(now[a.Key()].status) && now[a.Key()].status != Error
  {
    SelectedFacts(plan, skip);
    var run := Selected(plan, skip);
    if a.Key() !in skip {
      RowIsResult(was, now, run, results, a);
    } else {
      forall b | b in run ensures b.Key() != a.Key() {
      }
      RowIsKept(was, now, run, results, a.Key());
      assert was[a.Key()] == SKIPPED_BY_USER;
    }
  }

  lemma RowIsResult(was: Rows, now: Rows, run: seq<Action>, results: seq<Progress>, a: Action)
    requires Reported(was, now, run, results) && |results| == |run| && a in run
    ensures a.Key() in now && now[a.Key()] in results
  {
    var i :| 0 <= i < |run| && run[i] == a;
    assert now[a.Key()] == results[i];
  }

  lemma RowIsKept(was: Rows, now: Rows, run: seq<Action>, results: seq<Progress>, key: string)
    requires Reported(was, now, run, results) && key in was && forall b :: b in run ==> b.Key() != key
    ensures key in now && now[key] == was[key]
  {
  }

  lemma ReportedStep(was: Rows, now: Rows, run: seq<Action>, results: seq<Progress>, i: nat)
    requires UniqueKeys(run) && i < |results| <= |run| && run[i].Key() in now && Reported(was, now, run, results[..i])
    ensures
      var next := SetRow(SetStatus(now, run[i].Key(), Running), run[i].Key(), results[i]);
      Reported(was, next, run, results[..i + 1])
  {
    var key := run[i].Key();
    var next := SetRow(SetStatus(now, key, Running), key, results[i]);
    assert next == now[key := results[i]];
    ReportedOneMore(was, now, run, results, i);
  }

  lemma ReportedOneMore(was: Rows, now: Rows, run: seq<Action>, results: seq<Progress>, i: nat)
    requires UniqueKeys(run) && i < |results| <= |run| && run[i].Key() in now && Reported(was, now, run, results[..i])
    ensures Reported(was, now[run[i].Key() := results[i]], run, results[..i + 1])
  {
    var key := run[i].Key();
    var next := now[key := results[i]];
    forall k | k in next && next[k] != was[k] ensures exists j :: 0 <= j < i + 1 && run[j].Key() == k {
      if k != key {
        assert now[k] != was[k];
      }
    }
  }

  // ---- the steps of a thread ----

  ghost predicate IsThreadRun(j: Job, steps: seq<Step>)
    decreases |steps|
  {
    steps == [] ||
    (ThreadStep(steps[0]) && ThreadEnabled(j, steps[0]) && IsThreadRun(ThreadNext(j, steps[0]), steps[1..]))
  }

  ghost function ThreadAfter(j: Job, steps: seq<Step>): Job
    requires IsThreadRun(j, steps)
    decreases |steps|
  {
    if steps == [] then j else ThreadAfter(ThreadNext(j, steps[0]), steps[1..])
  }

  lemma {:induction false} ThreadAppend(j: Job, steps: seq<Step>, more: seq<Step>)
    requires IsThreadRun(j, steps) && IsThreadRun(ThreadAfter(j, steps), more)
    ensures IsThreadRun(j, steps + more) && ThreadAfter(j, steps + more) == ThreadAfter(ThreadAfter(j, steps), more)
    decreases |steps|
  {
    if steps == [] {
      assert steps + more == more;
    } else {
      ThreadAppend(ThreadNext(j, steps[0]), steps[1..], more);
      assert (steps + more)[0] == steps[0] && (steps + more)[1..] == steps[1..] + more;
    }
  }

  lemma ThreadOne(j: Job, step: Step)
    requires ThreadStep(step) && ThreadEnabled(j, step)
    ensures IsThreadRun(j, [step]) && ThreadAfter(j, [step]) == ThreadNext(j, step)
  {
    assert [step][1..] == [];
  }

  lemma ThreadTwo(j: Job, x: Step, y: Step)
    requires ThreadStep(x) && ThreadEnabled(j, x) && ThreadStep(y) && ThreadEnabled(ThreadNext(j, x), y)
    ensures IsThreadRun(j, [x, y]) && ThreadAfter(j, [x, y]) == ThreadNext(ThreadNext(j, x), y)
  {
    ThreadOne(j, x);
    ThreadOne(ThreadNext(j, x), y);
    ThreadAppend(j, [x], [y]);
    assert [x] + [y] == [x, y];
  }

  // ---- what the thread body does ----

  /** The job was just created. */
  predicate Unstarted(j: Job) {
    j.phase == Working && j.results == [] && !j.inFlight
  }

  predicate AllResults(results: seq<Progress>) {
    forall p :: p in results ==> IsResult(p.status)
  }

  function Statuses(results: seq<Progress>): (r: seq<Status>)
    ensures |r| == |results| && forall i :: 0 <= i < |r| ==> r[i] == results[i].status
  {
    seq(|results|, i requires 0 <= i < |results| => results[i].status)
  }

  /** One start and one result for each action. */
  function ReportSteps(id: Id, results: seq<Progress>): seq<Step> {
    if results == [] then []
    else
      var last := results[|results| - 1];
      ReportSteps(id, results[..|results| - 1]) + [OnStart(id), OnProgress(id, last.status, last.detail)]
  }

  /** The end of a thread that crashed or finished. */
  function CloseSteps(id: Id, crashed: bool): seq<Step> {
    [if crashed then Crash(id, BROKE_OFF) else Report(id, FAILED), Finish(id)]
  }

  function RunSteps(id: Id, j: Job, results: seq<Progress>, crashed: bool, started: bool): seq<Step> {
    ReportSteps(id, results)
    + (if started && |results| < |j.run| then [OnStart(id)] else [])
    + CloseSteps(id, crashed)
  }

  lemma RunIsUnique(j: Job)
    requires JobInv(j)
    ensures UniqueKeys(j.run) && forall i :: 0 <= i < |j.run| ==> j.run[i].Key() in j.rows
  {
    SelectedFacts(j.plan.actions, j.skip);
  }

  /** Reported results determine the rows. */
  lemma ReportedUnique(was: Rows, x: Rows, y: Rows, run: seq<Action>, results: seq<Progress>)
    requires Reported(was, x, run, results) && Reported(was, y, run, results)
    ensures x == y
  {
    forall key | key in was ensures x[key] == y[key] {
      if i :| 0 <= i < |results| && run[i].Key() == key {
        assert x[key] == results[i] == y[key];
      }
    }
  }

  /** One action from its start to its result. */
  lemma ReportOne(k: Job, id: Id, p: Progress)
    requires k.phase == Working && !k.inFlight && |k.results| < |k.run| && IsResult(p.status)
    ensures var steps := [OnStart(id), OnProgress(id, p.status, p.detail)];
      && IsThreadRun(k, steps)
      && var key := k.run[|k.results|].Key();
      ThreadAfter(k, steps) == k.(rows := SetRow(SetStatus(k.rows, key, Running), key, p), results := k.results + [p.status])
  {
    ThreadTwo(k, OnStart(id), OnProgress(id, p.status, p.detail));
  }

  /** The job after its first results. */
  lemma {:induction false} Reporting(j: Job, id: Id, results: seq<Progress>) returns (k: Job)
    requires JobInv(j) && Unstarted(j) && |results| <= |j.run| && AllResults(results)
    ensures IsThreadRun(j, ReportSteps(id, results)) && k == ThreadAfter(j, ReportSteps(id, results))
    ensures k == j.(rows := k.rows, results := Statuses(results))
    ensures Reported(j.rows, k.rows, j.run, results)
    decreases |results|
  {
    k := j;
    if results != [] {
      var n := |results| - 1;
      var last := results[n];
      assert last in results;
      k := Reporting(j, id, results[..n]);
      ReportLast(j, id, ReportSteps(id, results[..n]), k, results[..n], last);
      StatusesAppend(results);
      FrontLast(results);
      k := ThreadAfter(j, ReportSteps(id, results));
    }
  }

  /** The job `k` after the earlier steps, one action on. */
  lemma ReportLast(j: Job, id: Id, earlier: seq<Step>, k: Job, front: seq<Progress>, last: Progress)
    requires JobInv(j) && Unstarted(j) && |front| < |j.run| && IsResult(last.status)
    requires IsThreadRun(j, earlier) && k == ThreadAfter(j, earlier)
    requires k == j.(rows := k.rows, results := Statuses(front)) && Reported(j.rows, k.rows, j.run, front)
    ensures var steps := earlier + [OnStart(id), OnProgress(id, last.status, last.detail)];
      && IsThreadRun(j, steps)
      && var m := ThreadAfter(j, steps);
      m == j.(rows := m.rows, results := Statuses(front) + [last.status]) && Reported(j.rows, m.rows, j.run, front + [last])
  {
    ReportOne(k, id, last);
    ThreadAppend(j, earlier, [OnStart(id), OnProgress(id, last.status, last.detail)]);
    RowsOneMore(j, k.rows, front, last);
  }

  lemma FrontLast<T>(xs: seq<T>)
    requires xs != []
    ensures xs == xs[..|xs| - 1] + [xs[|xs| - 1]]
  {
  }

  lemma RowsOneMore(j: Job, rows: Rows, front: seq<Progress>, last: Progress)
    requires JobInv(j) && |front| < |j.run| && Reported(j.rows, rows, j.run, front)
    ensures var key := j.run[|front|].Key();
      Reported(j.rows, SetRow(SetStatus(rows, key, Running), key, last), j.run, front + [last])
  {
    var results := front + [last];
    RunIsUnique(j);
    assert results[..|front|] == front && results[..|front| + 1] == results;
    ReportedStep(j.rows, rows, j.run, results, |front|);
  }

  lemma StatusesAppend(results: seq<Progress>)
    requires results != []
    ensures Statuses(results) == Statuses(results[..|results| - 1]) + [results[|results| - 1].status]
  {
  }

  /** The whole body, ending with the rows that the runner left. */
  lemma ThreadRuns(j: Job, id: Id, results: seq<Progress>, crashed: bool, started: bool, rows: Rows)
    requires JobInv(j) && Unstarted(j) && |results| <= |j.run| && AllResults(results)
    requires !crashed ==> |results| == |j.run|
    requires RunnerLeft(j.rows, rows, j.run, results, started)
    ensures IsThreadRun(j, RunSteps(id, j, results, crashed, started))
    ensures var k := ThreadAfter(j, RunSteps(id, j, results, crashed, started));
      && k.rows == rows && k.done && k.scope == j.scope && k.plan == j.plan
      && k.error == if crashed then Some(BROKE_OFF) else if NoError(results) then None else Some(FAILED)
  {
    var k := Reporting(j, id, results);
    var reports := ReportSteps(id, results);
    if started && |results| < |j.run| {
      var reported :| Reported(j.rows, reported, j.run, results) && rows == SetStatus(reported, j.run[|results|].Key(), Running);
      ReportedUnique(j.rows, reported, k.rows, j.run, results);
      ThreadOne(k, OnStart(id));
      ThreadAppend(j, reports, [OnStart(id)]);
      Closing(j, reports + [OnStart(id)], id, crashed);
    } else {
      ReportedUnique(j.rows, rows, k.rows, j.run, results);
      assert reports + [] == reports;
      Closing(j, reports, id, crashed);
    }
    ErrorIn(results);
  }

  lemma ErrorIn(results: seq<Progress>)
    ensures NoError(results) <==> Error !in Statuses(results)
  {
    forall i | 0 <= i < |results| ensures results[i] in results && Statuses(results)[i] in Statuses(results) {
    }
  }

  lemma Closing(j: Job, steps: seq<Step>, id: Id, crashed: bool)
    requires IsThreadRun(j, steps)
    requires var k := ThreadAfter(j, steps);
      k.phase == Working && k.error == None && (!crashed ==> !k.inFlight && |k.results| == |k.run|)
    ensures IsThreadRun(j, steps + CloseSteps(id, crashed))
    ensures var k := ThreadAfter(j, steps);
      ThreadAfter(j, steps + CloseSteps(id, crashed)) == k.(
        phase := Finished,
        done := true,
        error := if crashed then Some(BROKE_OFF) else if Error in k.results then Some(FAILED) else None)
  {
    var k := ThreadAfter(j, steps);
    ThreadTwo(k, if crashed then Crash(id, BROKE_OFF) else Report(id, FAILED), Finish(id));
    ThreadAppend(j, steps, CloseSteps(id, crashed));
  }

  // ---- inside the store ----

  ghost predicate AllFor(steps: seq<Step>, id: Id) {
    forall step :: step in steps ==> ThreadStep(step) && step.id == id
  }

  /** A run of one thread is a run of the store that changes that job only. */
  lemma {:induction false} ThreadRunsAlone(s: Store, id: Id, steps: seq<Step>)
    requires id in s.objects && IsThreadRun(s.objects[id], steps) && AllFor(steps, id)
    ensures IsRun(s, steps) && After(s, steps) == s.(objects := s.objects[id := ThreadAfter(s.objects[id], steps)])
    decreases |steps|
  {
    if steps == [] {
      assert s.objects[id := s.objects[id]] == s.objects;
    } else {
      assert steps[0] in steps && forall step :: step in steps[1..] ==> step in steps;
      var t := Next(s, steps[0]);
      ThreadRunsAlone(t, id, steps[1..]);
      var last := ThreadAfter(s.objects[id], steps);
      assert t.objects[id := last] == s.objects[id := last];
    }
  }

  lemma {:induction false} ReportStepsFor(id: Id, results: seq<Progress>)
    ensures AllFor(ReportSteps(id, results), id)
  {
    if results != [] {
      ReportStepsFor(id, results[..|results| - 1]);
    }
  }

  lemma RunStepsFor(id: Id, j: Job, results: seq<Progress>, crashed: bool, started: bool)
    ensures AllFor(RunSteps(id, j, results, crashed, started), id)
  {
    ReportStepsFor(id, results);
  }
}
