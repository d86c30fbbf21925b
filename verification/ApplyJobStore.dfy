/** The mutable objects behind `ApplyJobs`: the store, its jobs and the thread body (riglib/config_web_plan.py). */
module ApplyJobStoreObjects {
  import opened Text
  import opened ApplyJobs
  import opened ApplyThreads

  class ApplyJob {
    const id: Id
    const scope: string
    const fingerprint: Fingerprint
    var rows: Rows
    var done: bool
    var error: Option<string>

    constructor (id: Id, scope: string, fingerprint: Fingerprint, rows: Rows)
      ensures this.id == id && this.scope == scope && this.fingerprint == fingerprint
      ensures this.rows == rows && !done && error == None
    {
      this.id, this.scope, this.fingerprint := id, scope, fingerprint;
      this.rows, done, error := rows, false, None;
    }

    /** The object shows what a poll can see of the job `j` of the transition system. */
    ghost predicate Shows(j: Job)
      reads this
    {
      scope == j.scope && fingerprint == FingerprintPlan(j.plan) && rows == j.rows && done == j.done && error == j.error
    }

    method OnStart(a: Action)
      modifies this`rows
      ensures rows == SetStatus(old(rows), a.Key(), Running)
    {
      if a.Key() in rows {
        rows := rows[a.Key() := rows[a.Key()].(status := Running)];
      }
    }

    method OnProgress(a: Action, status: Status, detail: string)
      modifies this`rows
      ensures rows == SetRow(old(rows), a.Key(), Progress(status, detail))
    {
      if a.Key() in rows {
        rows := rows[a.Key() := Progress(status, detail)];
      }
    }

    /** The runner reports every result, and errors are counted. */
    method ReportAll(run: seq<Action>, results: seq<Progress>) returns (failures: nat)
      requires UniqueKeys(run) && |results| <= |run|
      requires forall i :: 0 <= i < |run| ==> run[i].Key() in rows
      modifies this`rows
      ensures Reported(old(rows), rows, run, results)
      ensures failures == 0 <==> NoError(results)
    {
      failures := 0;
      for i := 0 to |results|
        invariant Reported(old(rows), rows, run, results[..i])
        invariant failures == 0 <==> NoError(results[..i])
      {
        ReportedStep(old(rows), rows, run, results, i);
        OnStart(run[i]);
        OnProgress(run[i], results[i].status, results[i].detail);
        failures := failures + if results[i].status == Error then 1 else 0;
        NoErrorStep(results, i);
      }
      assert results[..|results|] == results;
    }

    /**
     * `run_plan` with the callbacks of the job. What the runner does is given: `results` are the results
     * it reports, one per action in order; one that breaks off may have `started` the next action.
     */
    method RunPlan(run: seq<Action>, results: seq<Progress>, started: bool) returns (failures: nat)
      requires UniqueKeys(run) && |results| <= |run|
      requires forall i :: 0 <= i < |run| ==> run[i].Key() in rows
      modifies this`rows
      ensures RunnerLeft(old(rows), rows, run, results, started)
      ensures failures == 0 <==> NoError(results)
    {
      failures := ReportAll(run, results);
      if started && |results| < |run| {
        InterruptedNext(old(rows), rows, run, results);
        OnStart(run[|results|]);
      }
    }

    /** The thread body; `crashed` tells whether the runner raised. */
    method Body(run: seq<Action>, results: seq<Progress>, crashed: bool, started: bool)
      requires !done && error == None && UniqueKeys(run) && |results| <= |run|
      requires forall i :: 0 <= i < |run| ==> run[i].Key() in rows
      modifies this
      ensures done && RunnerLeft(old(rows), rows, run, results, started)
      ensures error == if crashed then Some(BROKE_OFF) else if NoError(results) then None else Some(FAILED)
    {
      var failures := RunPlan(run, results, started);
      if crashed {
        error := Some(BROKE_OFF);
      } else if failures > 0 {
        error := Some(FAILED);
      }
      done := true;
    }

    /** The body is a run of the thread's steps: from an object that shows `j` to one that shows `j` after them. */
    method Run(run: seq<Action>, results: seq<Progress>, crashed: bool, started: bool, ghost j: Job)
      requires Shows(j) && JobInv(j) && Unstarted(j) && run == j.run
      requires |results| <= |run| && (!crashed ==> |results| == |run|) && AllResults(results)
      modifies this
      ensures done && RunnerLeft(old(rows), rows, run, results, started)
      ensures error == None <==> !crashed && NoError(results)
      ensures IsThreadRun(j, RunSteps(id, j, results, crashed, started))
      ensures Shows(ThreadAfter(j, RunSteps(id, j, results, crashed, started)))
    {
      RunIsUnique(j);
      Body(run, results, crashed, started);
      ThreadRuns(j, id, results, crashed, started, rows);
    }
  }

  class ApplyJobStore {
    var jobs: map<Id, ApplyJob>
    var jobOrder: seq<Id>
    var activeJobId: Option<Id>

    constructor ()
      ensures jobs == map[] && jobOrder == [] && activeJobId == None
    {
      jobs, jobOrder, activeJobId := map[], [], None;
    }

    ghost predicate Valid()
      reads this
    {
      Distinct(jobOrder) && Members(jobOrder) == jobs.Keys
    }

    /** The store holds the state `s` of the transition system, as far as retained. */
    ghost predicate Represents(s: Store)
      reads this, jobs.Values
    {
      && jobOrder == s.order && jobs.Keys == s.retained && activeJobId == s.active
      && forall id :: id in jobs ==> id in s.objects && jobs[id].id == id && jobs[id].Shows(s.objects[id])
    }

    /** The id of the job in flight, if any. */
    ghost function InFlight(): Option<Id>
      reads this, jobs.Values
    {
      if activeJobId.Some? && activeJobId.value in jobs && !jobs[activeJobId.value].done then activeJobId else None
    }

    method EvictIfOverCapacity()
      requires Valid()
      modifies this`jobs, this`jobOrder
      ensures Valid() && jobOrder == Evict(old(jobOrder), old(InFlight()))
      ensures forall id :: id in jobs ==> id in old(jobs) && jobs[id] == old(jobs)[id]
    {
      ghost var busy := InFlight();
      while |jobOrder| > MAX_RETAINED
        invariant Valid()
        invariant Evict(jobOrder, busy) == Evict(old(jobOrder), busy)
        invariant forall id :: id in jobs ==> id in old(jobs) && jobs[id] == old(jobs)[id]
        invariant busy.Some? && busy.value in jobOrder ==> InFlight() == busy
        invariant busy.None? ==> InFlight() == None
        invariant busy.Some? ==> busy.value in jobOrder
        decreases |jobOrder|
      {
        var oldest := jobOrder[0];
        assert oldest in Members(jobOrder);
        if Some(oldest) == activeJobId && !jobs[oldest].done {
          break;
        }
        assert jobOrder == [oldest] + jobOrder[1..];
        assert Members(jobOrder[1..]) == Members(jobOrder) - {oldest};
        jobOrder := jobOrder[1..];
        jobs := jobs - {oldest};
      }
    }

    /** The checks of `start`. */
    method Admit(request: Request) returns (outcome: Outcome)
      ensures outcome == Check(InFlight().Some?, request)
    {
      if activeJobId.Some? && activeJobId.value in jobs && !jobs[activeJobId.value].done {
        return BusyError;
      }
      if !request.declared {
        return NoConfigError;
      }
      var unique := KeysAreUnique(request.plan.actions);
      if !unique {
        return IntegrityError;
      }
      if FingerprintPlan(request.plan) != request.expected {
        return StaleError;
      }
      var unknownSkips := request.skip - Keys(request.plan.actions);
      assert forall key :: key in request.skip ==> key in Keys(request.plan.actions) || key in unknownSkips;
      return if unknownSkips != {} then StaleError else Accepted;
    }

    /** The new job becomes the active one, and the oldest jobs make room. */
    method Enqueue(id: Id, job: ApplyJob)
      requires Valid() && id !in jobs && !job.done
      modifies this
      ensures Valid()
      ensures activeJobId == Some(id) && jobOrder == Evict(old(jobOrder) + [id], Some(id))
      ensures id in jobs && jobs[id] == job
      ensures forall x :: x in jobs && x != id ==> x in old(jobs) && jobs[x] == old(jobs)[x]
    {
      assert id !in Members(jobOrder);
      EvictAppended(jobOrder, id);
      jobs := jobs[id := job];
      jobOrder := jobOrder + [id];
      activeJobId := Some(id);
      MembersAppended(old(jobOrder), id);
      EvictIfOverCapacity();
      assert id in Members(jobOrder);
    }

    /**
     * `start`, up to the launch of the thread; `id` is the fresh uuid. It is the start step of the
     * transition system: from a store that represents `s` to one that represents its successor.
     */
    method Start(id: Id, request: Request, ghost s: Store) returns (outcome: Outcome, job: ApplyJob?, run: seq<Action>)
      requires Inv(s) && Represents(s) && Enabled(s, Step.Start(id, request))
      modifies this
      ensures Valid() && Represents(Next(s, Step.Start(id, request)))
      ensures outcome == Check(Busy(s).Some?, request)
      ensures outcome != Accepted ==> job == null && jobs == old(jobs) && jobOrder == old(jobOrder) && activeJobId == old(activeJobId)
      ensures outcome == Accepted ==> job != null && fresh(job) && id in jobs && jobs[id] == job
      ensures outcome == Accepted ==> run == Selected(request.plan.actions, request.skip)
      ensures outcome == Accepted ==> InPlanOrder(request.plan.actions, request.skip, run)
    {
      job, run := null, [];
      assert InFlight() == Busy(s);
      outcome := Admit(request);
      if outcome == Accepted {
        job, run := Launch(id, request, s);
        SelectedInPlanOrder(request.plan.actions, request.skip);
      }
    }

    /** The second half of `start`, for an accepted request. */
    method Launch(id: Id, request: Request, ghost s: Store) returns (job: ApplyJob, run: seq<Action>)
      requires Inv(s) && Represents(s) && Enabled(s, Step.Start(id, request))
      requires Check(Busy(s).Some?, request) == Accepted
      modifies this
      ensures Valid() && Represents(Next(s, Step.Start(id, request)))
      ensures fresh(job) && id in jobs && jobs[id] == job
      ensures run == Selected(request.plan.actions, request.skip)
    {
      run := Selected(request.plan.actions, request.skip);
      job := new ApplyJob(id, request.scope, FingerprintPlan(request.plan), InitialRows(request.plan.actions, request.skip));
      Enqueue(id, job);
    }

    /** The background thread of a started job: seen through the store, a run of the transition system. */
    method RunJob(id: Id, run: seq<Action>, results: seq<Progress>, crashed: bool, started: bool, ghost s: Store)
      requires Represents(s) && id in jobs && JobInv(s.objects[id]) && Unstarted(s.objects[id]) && run == s.objects[id].run
      requires |results| <= |run| && (!crashed ==> |results| == |run|) && AllResults(results)
      modifies jobs[id]
      ensures var steps := RunSteps(id, s.objects[id], results, crashed, started);
        IsRun(s, steps) && Represents(After(s, steps))
    {
      ghost var j := s.objects[id];
      ghost var steps := RunSteps(id, j, results, crashed, started);
      assert forall x :: x in jobs && x != id ==> jobs[x] != jobs[id];
      jobs[id].Run(run, results, crashed, started, j);
      assert Represents(s.(objects := s.objects[id := ThreadAfter(j, steps)]));
      RunStepsFor(id, j, results, crashed, started);
      ThreadRunsAlone(s, id, steps);
    }

    /** `get`: lock-free. */
    method Get(id: Id) returns (job: ApplyJob?)
      ensures if id in jobs then job == jobs[id] else job == null
      ensures forall s: Store :: Represents(s) ==> (job != null <==> id in s.retained)
      ensures forall s: Store :: Represents(s) && job != null ==> job.Shows(s.objects[id])
    {
      job := if id in jobs then jobs[id] else null;
    }
  }
}
