/** The guarded update with rollback (riglib/codex_update.py). Commands are arbitrary, and so is what they do to the files. */
module CodexUpdate {
  import opened Text
  import opened Places
  import opened CodexFiles

  const EXIT_CODEX_UPDATE: int := 8
  const EXIT_NOT_FOUND: int := 127

  datatype CommandResult = CommandResult(returncode: int, output: string, timedOut: bool)

  datatype ProbeName = VersionProbe | HelpProbe | CompletionProbe

  const PROBE_STEPS := [VersionProbe, HelpProbe, CompletionProbe]

  /** The command ended in time with exit code 0, and printed some character that is no whitespace. */
  predicate Answered(r: CommandResult) {
    !r.timedOut && r.returncode == 0 && exists i :: 0 <= i < |r.output| && !IsSpace(r.output[i])
  }

  datatype Status = Updated | RolledBack | Failed

  datatype UpdateResult = UpdateResult(status: Status, exitCode: int)

  const FAILED := UpdateResult(Failed, EXIT_CODEX_UPDATE)

  /** What happened, in order. A probe notes the bytes that the path executed and what the command answered; a timeout has no exit code. */
  datatype Event =
    | Probed(step: ProbeName, ran: Option<Bytes>, answer: CommandResult)
    | BackedUp(bytes: Bytes)
    | BackupFailed
    | UpdaterRan(exit: Option<int>)
    | Restoring(ok: bool)

  type Log = seq<Event>

  // ---- what may happen, and what it means ----

  /** The probe `step` of `bytes`, answered well or not. */
  predicate IsProbe(e: Event, step: ProbeName, bytes: Option<Bytes>, well: bool) {
    e.Probed? && e.step == step && e.ran == bytes && Answered(e.answer) == well
  }

  /** A probe session on `bytes`: it stops at the first failure. */
  ghost predicate IsProbing(log: Log, bytes: Option<Bytes>, ok: bool) {
    && 1 <= |log| <= 3 && (ok ==> |log| == 3)
    && forall i :: 0 <= i < |log| ==> IsProbe(log[i], PROBE_STEPS[i], bytes, ok || i < |log| - 1)
  }

  /** A restore and, if it succeeded, a probe session on the saved bytes. */
  ghost predicate IsRollback(log: Log, good: Bytes, exitCode: int, r: UpdateResult) {
    && log != [] && log[0].Restoring?
    && if log[0].ok
       then IsProbing(log[1..], Some(good), r.status == RolledBack) && (r == FAILED || r == UpdateResult(RolledBack, exitCode))
       else |log| == 1 && r == FAILED
  }

  /** A probe session on the candidate and, if it failed, a rollback. */
  ghost predicate IsTrial(log: Log, candidate: Option<Bytes>, n: nat, good: Bytes, r: UpdateResult) {
    && n <= |log| && IsProbing(log[..n], candidate, r.status == Updated)
    && if r.status == Updated then n == |log| && r.exitCode == 0 else IsRollback(log[n..], good, EXIT_CODEX_UPDATE, r)
  }

  ghost predicate IsUpdate(log: Log, good: Bytes, r: UpdateResult) {
    log != [] && log[0].UpdaterRan? && Judged(log[0].exit, log[1..], good, r)
  }

  /** What follows the update command: a trial if it succeeded, else a rollback. */
  ghost predicate Judged(exit: Option<int>, log: Log, good: Bytes, r: UpdateResult) {
    if exit == Some(0) then exists candidate, n :: IsTrial(log, candidate, n, good, r)
    else IsRollback(log, good, if exit == Some(127) then EXIT_NOT_FOUND else EXIT_CODEX_UPDATE, r)
  }

  /** A whole run on a path that executes `bytes`. */
  ghost predicate IsSafeUpdate(log: Log, bytes: Option<Bytes>, r: UpdateResult) {
    || (IsProbing(log, bytes, false) && r == FAILED)
    || (|log| >= 4 && IsProbing(log[..3], bytes, true)
        && ((log[3] == BackupFailed && |log| == 4 && r == FAILED)
            || (log[3].BackedUp? && bytes == Some(log[3].bytes) && IsUpdate(log[4..], log[3].bytes, r))))
  }

  /** Three commands ran on these bytes, and each of them answered well. */
  predicate Healthy(log: Log, bytes: Option<Bytes>) {
    AllAnswered(log, [VersionProbe, HelpProbe, CompletionProbe], bytes)
  }

  predicate AllAnswered(log: Log, steps: seq<ProbeName>, bytes: Option<Bytes>) {
    |log| == |steps| && forall i :: 0 <= i < |log| ==> IsProbe(log[i], steps[i], bytes, true)
  }

  predicate NoUpdate(log: Log) {
    forall e :: e in log ==> !e.UpdaterRan?
  }

  /** The last events are a healthy probe session on these bytes. */
  predicate EndsHealthy(log: Log, bytes: Option<Bytes>) {
    |log| >= 3 && Healthy(log[|log| - 3..], bytes)
  }

  /** The updater runs at most once, and only right after a healthy probe and a completed backup of the probed bytes. */
  ghost predicate Guarded(log: Log) {
    forall i :: 0 <= i < |log| && log[i].UpdaterRan? ==>
      i == 4 && log[3].BackedUp? && Healthy(log[..3], Some(log[3].bytes))
  }

  /** A session is healthy exactly when all three commands answered well; otherwise the last one that ran is the first that did not. */
  lemma ProbingVerdict(log: Log, bytes: Option<Bytes>, ok: bool)
    requires IsProbing(log, bytes, ok)
    ensures ok <==> Healthy(log, bytes)
    ensures !ok ==> !Answered(log[|log| - 1].answer) && forall i :: 0 <= i < |log| - 1 ==> Answered(log[i].answer)
  {
  }

  lemma ProbingRestoresNothing(log: Log, bytes: Option<Bytes>, ok: bool)
    requires IsProbing(log, bytes, ok)
    ensures Restoring(false) !in log
  {
  }

  lemma RestoringLater(log: Log, k: nat)
    requires k <= |log| && Restoring(false) in log && Restoring(false) !in log[..k]
    ensures Restoring(false) in log[k..]
  {
    assert log == log[..k] + log[k..];
  }

  lemma Reassociate(x: Log, y: Log, z: Log)
    ensures (x + y) + z == x + (y + z)
  {
  }

  lemma EndsWithin(log: Log, k: nat, bytes: Option<Bytes>)
    requires k <= |log| && EndsHealthy(log[k..], bytes)
    ensures EndsHealthy(log, bytes)
  {
    assert log[k..][|log[k..]| - 3..] == log[|log| - 3..];
  }

  lemma RollbackMeans(log: Log, good: Bytes, exitCode: int, r: UpdateResult)
    requires IsRollback(log, good, exitCode, r)
    ensures NoUpdate(log)
    ensures r.status == RolledBack ==> EndsHealthy(log, Some(good))
  {
    assert forall i :: 1 <= i < |log| ==> log[i] == log[1..][i - 1];
    if r.status == RolledBack {
      ProbingVerdict(log[1..], Some(good), true);
      assert log[1..] == log[|log| - 3..];
    }
  }

  lemma NoUpdateJoin(log: Log, n: nat)
    requires n <= |log| && NoUpdate(log[..n]) && NoUpdate(log[n..])
    ensures NoUpdate(log)
  {
    assert log == log[..n] + log[n..];
  }

  lemma ProbingIsNoUpdate(log: Log, bytes: Option<Bytes>, ok: bool)
    requires IsProbing(log, bytes, ok)
    ensures NoUpdate(log)
  {
  }

  lemma TrialMeans(log: Log, candidate: Option<Bytes>, n: nat, good: Bytes, r: UpdateResult)
    requires IsTrial(log, candidate, n, good, r)
    ensures NoUpdate(log)
    ensures r.status == RolledBack ==> EndsHealthy(log, Some(good))
    ensures r.status == Updated ==> EndsHealthy(log, candidate)
  {
    ProbingIsNoUpdate(log[..n], candidate, r.status == Updated);
    if r.status == Updated {
      ProbingVerdict(log[..n], candidate, true);
      assert log[..n] == log == log[|log| - 3..];
    } else {
      RollbackMeans(log[n..], good, EXIT_CODEX_UPDATE, r);
      NoUpdateJoin(log, n);
      if r.status == RolledBack {
        EndsWithin(log, n, Some(good));
      }
    }
  }

  lemma UpdateMeans(log: Log, good: Bytes, r: UpdateResult)
    requires IsUpdate(log, good, r)
    ensures NoUpdate(log[1..])
    ensures r.status == Updated <==> r.exitCode == 0
    ensures r.status == RolledBack ==> EndsHealthy(log, Some(good))
    ensures r.status == Updated ==> exists candidate :: EndsHealthy(log, candidate)
  {
    if log[0].exit == Some(0) {
      var candidate, n :| IsTrial(log[1..], candidate, n, good, r);
      UpdateTried(log, candidate, n, good, r);
    } else {
      RollbackMeans(log[1..], good, if log[0].exit == Some(127) then EXIT_NOT_FOUND else EXIT_CODEX_UPDATE, r);
      if r.status == RolledBack {
        EndsWithin(log, 1, Some(good));
      }
    }
  }

  lemma UpdateTried(log: Log, candidate: Option<Bytes>, n: nat, good: Bytes, r: UpdateResult)
    requires log != [] && IsTrial(log[1..], candidate, n, good, r)
    ensures NoUpdate(log[1..])
    ensures r.status == Updated <==> r.exitCode == 0
    ensures r.status == RolledBack ==> EndsHealthy(log, Some(good))
    ensures r.status == Updated ==> EndsHealthy(log, candidate)
  {
    TrialMeans(log[1..], candidate, n, good, r);
    if r.status == Updated {
      EndsWithin(log, 1, candidate);
    } else if r.status == RolledBack {
      EndsWithin(log, 1, Some(good));
    }
  }

  /**
   * In every run the updater is guarded, exit code 0 means "updated", "updated" means that the last
   * probes all passed, and "rolled back" that they passed on the bytes that ran before.
   */
  lemma RunMeans(log: Log, bytes: Option<Bytes>, r: UpdateResult)
    requires IsSafeUpdate(log, bytes, r)
    ensures Guarded(log)
    ensures r.status == Updated <==> r.exitCode == 0
    ensures r.status == Updated ==> exists candidate :: EndsHealthy(log, candidate)
    ensures r.status == RolledBack ==> EndsHealthy(log, bytes)
    ensures NoUpdate(log) ==> r == FAILED
  {
    if !(IsProbing(log, bytes, false) && r == FAILED) {
      ProbingVerdict(log[..3], bytes, true);
      if log[3].BackedUp? {
        UpdateMeans(log[4..], log[3].bytes, r);
        UpdaterAtFour(log, log[3].bytes);
        if candidate :| EndsHealthy(log[4..], candidate) {
          EndsWithin(log, 4, candidate);
        }
        if r.status == RolledBack {
          EndsWithin(log, 4, bytes);
        }
      }
    }
  }

  /** Two probe sessions at the start of one log are the same session. */
  lemma ProbingIsForced(log: Log, a: Option<Bytes>, m: nat, ok: bool, b: Option<Bytes>, n: nat, well: bool)
    requires m <= n <= |log| && IsProbing(log[..m], a, ok) && IsProbing(log[..n], b, well)
    ensures m == n && ok == well
  {
    assert log[..m][m - 1] == log[m - 1] == log[..n][m - 1];
  }

  lemma RollbackIsForced(log: Log, good: Bytes, exitCode: int, r: UpdateResult, q: UpdateResult)
    requires IsRollback(log, good, exitCode, r) && IsRollback(log, good, exitCode, q)
    ensures r == q
  {
    if log[0].ok {
      var seen := log[1..];
      assert seen[..|seen|] == seen;
      ProbingIsForced(seen, Some(good), |seen|, r.status == RolledBack, Some(good), |seen|, q.status == RolledBack);
    }
  }

  lemma RestoringFirst(log: Log, good: Bytes, exitCode: int, r: UpdateResult)
    requires IsRollback(log, good, exitCode, r)
    ensures Restoring(false) in log ==> !log[0].ok
    ensures r.status != Updated
  {
    if log[0].ok {
      ProbingRestoresNothing(log[1..], Some(good), r.status == RolledBack);
      assert log == [log[0]] + log[1..];
    }
  }

  lemma TrialPassed(probing: Log, bytes: Option<Bytes>, good: Bytes)
    requires IsProbing(probing, bytes, true)
    ensures exists candidate, n :: IsTrial(probing, candidate, n, good, UpdateResult(Updated, 0))
    ensures EndsHealthy(probing, bytes)
  {
    ProbingVerdict(probing, bytes, true);
    assert probing[0..] == probing == probing[..|probing|];
    assert IsTrial(probing, bytes, |probing|, good, UpdateResult(Updated, 0));
  }

  lemma TrialFailed(probing: Log, bytes: Option<Bytes>, rest: Log, good: Bytes, r: UpdateResult)
    requires IsProbing(probing, bytes, false) && IsRollback(rest, good, EXIT_CODEX_UPDATE, r)
    ensures exists candidate, n :: IsTrial(probing + rest, candidate, n, good, r)
    ensures r.status != Updated
    ensures Restoring(false) in probing + rest ==> !rest[0].ok
  {
    var log := probing + rest;
    ProbingRestoresNothing(probing, bytes, false);
    RestoringFirst(rest, good, EXIT_CODEX_UPDATE, r);
    assert log[..|probing|] == probing && log[|probing|..] == rest;
    assert IsTrial(log, bytes, |probing|, good, r);
  }

  lemma TrialIsForced(log: Log, a: Option<Bytes>, m: nat, b: Option<Bytes>, n: nat, good: Bytes, r: UpdateResult, q: UpdateResult)
    requires IsTrial(log, a, m, good, r) && IsTrial(log, b, n, good, q)
    ensures r == q
  {
    if m <= n {
      ProbingIsForced(log, a, m, r.status == Updated, b, n, q.status == Updated);
    } else {
      ProbingIsForced(log, b, n, q.status == Updated, a, m, r.status == Updated);
    }
    if r.status != Updated {
      RollbackIsForced(log[n..], good, EXIT_CODEX_UPDATE, r, q);
    }
  }

  lemma UpdateIsForced(log: Log, good: Bytes, r: UpdateResult, q: UpdateResult)
    requires IsUpdate(log, good, r) && IsUpdate(log, good, q)
    ensures r == q
  {
    if log[0].exit == Some(0) {
      var a, m :| IsTrial(log[1..], a, m, good, r);
      var b, n :| IsTrial(log[1..], b, n, good, q);
      TrialIsForced(log[1..], a, m, b, n, good, r, q);
    } else {
      RollbackIsForced(log[1..], good, if log[0].exit == Some(127) then EXIT_NOT_FOUND else EXIT_CODEX_UPDATE, r, q);
    }
  }

  /** What happened leaves no choice of the outcome. */
  lemma OutcomeIsForced(log: Log, bytes: Option<Bytes>, r: UpdateResult, q: UpdateResult)
    requires IsSafeUpdate(log, bytes, r) && IsSafeUpdate(log, bytes, q)
    ensures r == q
  {
    if |log| >= 4 && log[3].BackedUp? {
      UpdateIsForced(log[4..], log[3].bytes, r, q);
    }
  }

  lemma RestoredThen(ok: bool, rest: Log, good: Bytes, exitCode: int, r: UpdateResult)
    requires !ok ==> rest == [] && r == FAILED
    requires ok ==> IsProbing(rest, Some(good), r.status == RolledBack)
    requires ok ==> r == FAILED || r == UpdateResult(RolledBack, exitCode)
    ensures IsRollback([Restoring(ok)] + rest, good, exitCode, r)
  {
    assert ([Restoring(ok)] + rest)[1..] == rest;
  }

  lemma UpdateRan(exit: Option<int>, rest: Log, good: Bytes, r: UpdateResult)
    requires Judged(exit, rest, good, r)
    ensures IsUpdate([UpdaterRan(exit)] + rest, good, r)
    ensures forall bytes :: EndsHealthy(rest, bytes) ==> EndsHealthy([UpdaterRan(exit)] + rest, bytes)
  {
    var log := [UpdaterRan(exit)] + rest;
    assert log[1..] == rest;
    forall bytes | EndsHealthy(rest, bytes) ensures EndsHealthy(log, bytes) {
      EndsWithin(log, 1, bytes);
    }
  }

  lemma UpdaterAtFour(log: Log, good: Bytes)
    requires |log| >= 5 && Healthy(log[..3], Some(good)) && log[3] == BackedUp(good) && log[4].UpdaterRan?
    requires NoUpdate(log[4..][1..])
    ensures Guarded(log) && !NoUpdate(log)
  {
    forall i | 0 <= i < |log| ensures log[i].UpdaterRan? ==> i == 4 {
      if i < 3 {
        assert log[i] == log[..3][i];
      } else if i > 4 {
        assert log[i] == log[4..][1..][i - 5];
      }
    }
    assert log[4] in log;
  }

  datatype Snapshot = Snapshot(codexPath: Place, resolved: Place, backup: Place, chain: Chain)

  /** The snapshot describes a path that a tree with these links ran from. */
  predicate Consistent(s: Snapshot) {
    Linked(s.codexPath, s.chain, s.resolved) && DistinctLinks(s.chain) && !OnChain(s.chain, s.resolved)
  }

  /** `.<name>.rig-codex-rollback-<pid>` and `.<name>.rig-codex-rollback-link-<pid>`. */
  function TempFile(p: Place, pid: string): Place {
    if p == [] then [".rig-codex-rollback-" + pid] else Parent(p) + ["." + p[|p| - 1] + ".rig-codex-rollback-" + pid]
  }

  function TempLink(p: Place, pid: string): Place {
    if p == [] then [".rig-codex-rollback-link-" + pid] else Parent(p) + ["." + p[|p| - 1] + ".rig-codex-rollback-link-" + pid]
  }

  /** `p` is one of the places that restoring writes to, temporary names included. */
  predicate Touched(s: Snapshot, pid: string, p: Place) {
    p == s.resolved || p == TempFile(s.resolved, pid)
    || exists i :: 0 <= i < |s.chain| && (p == s.chain[i].link || p == TempLink(s.chain[i].link, pid))
  }

  /** The temporary names of the links from hop `k` on. */
  function LinkTemps(chain: Chain, pid: string, k: nat): set<Place> {
    set i | k <= i < |chain| :: TempLink(chain[i].link, pid)
  }

  function Temps(s: Snapshot, pid: string): set<Place> {
    {TempFile(s.resolved, pid)} + LinkTemps(s.chain, pid, 0)
  }

  /** The temporary names are no places of the chain, and the backup is none of the places that restoring writes to. */
  predicate Apart(s: Snapshot, pid: string) {
    && (forall p :: p in Temps(s, pid) ==> p != s.resolved && !OnChain(s.chain, p))
    && !Touched(s, pid, s.backup)
  }

  /** Leftovers of an earlier run do no harm, unless the temporary name of the binary is a link. */
  predicate Fresh(t: Tree, s: Snapshot, pid: string) {
    Apart(s, pid) && !IsLink(t, TempFile(s.resolved, pid))
  }

  ghost predicate SameAt(t: Tree, u: Tree, p: Place) {
    (p in t <==> p in u) && (p in t ==> t[p] == u[p])
  }

  /** `p` is the link of hop `k` or a later one, or its temporary name. */
  predicate HopFrom(s: Snapshot, pid: string, k: int, p: Place) {
    exists i :: 0 <= i < |s.chain| && k <= i && (p == s.chain[i].link || p == TempLink(s.chain[i].link, pid))
  }

  /** From `t` to `u` only the hops from `k` on have changed. */
  ghost predicate OnlyFrom(t: Tree, u: Tree, s: Snapshot, pid: string, k: int) {
    forall p :: HopFrom(s, pid, k, p) || SameAt(t, u, p)
  }

  /** From `t` to `u` only places that restoring writes to have changed. */
  ghost predicate OnlyTouched(t: Tree, u: Tree, s: Snapshot, pid: string) {
    forall p :: Touched(s, pid, p) || SameAt(t, u, p)
  }

  /** Outside `writes` the two trees agree. */
  ghost predicate SameElsewhere(t: Tree, u: Tree, writes: set<Place>) {
    t - writes == u - writes
  }

  class Machine {
    const pid: string
    var files: Tree
    ghost var log: Log
    ghost var faults: nat

    constructor (pid: string, files: Tree)
      ensures this.pid == pid && this.files == files && log == [] && faults == 0
    {
      this.pid, this.files, log, faults := pid, files, [], 0;
    }

    // ---- single file operations; each may fail, which counts as a fault ----

    method MakeParents() returns (ok: bool)
      modifies this`faults
      ensures faults >= old(faults) && (!ok ==> faults > old(faults))
    {
      ok := *;
      faults := if ok then faults else faults + 1;
    }

    /**
     * `shutil.copy2`: a failed copy may leave a partial file. Onto a link it writes through to the place
     * where the link leads.
     */
    method Copy(src: Place, dst: Place) returns (ok: bool)
      requires src != dst
      modifies this`files, this`faults
      ensures ok ==> src in old(files) && old(files)[src].File?
      ensures ok && !IsLink(old(files), dst) ==> files == old(files)[dst := old(files)[src]]
      ensures ok && IsLink(old(files), dst) ==> dst in files && files[dst] == old(files)[dst]
      ensures !IsLink(old(files), dst) ==> files - {dst} == old(files) - {dst} && !IsLink(files, dst)
      ensures faults >= old(faults)
      ensures !ok && !IsLink(old(files), dst) ==> faults > old(faults) || src !in old(files) || old(files)[src].Link?
    {
      if src !in files || files[src].Link? {
        return false;
      }
      var chain, end := ReadSymlinkChain(dst);
      if IsLink(files, dst) {
        if chain == None || end == src {
          return false;
        }
        ChainEnd(files, dst, chain.value, end);
      } else {
        end := dst;
      }
      ok := *;
      if ok {
        files := files[end := files[src]];
      } else {
        faults := faults + 1;
        var partial: Option<Bytes> := *;
        files := if partial.Some? then files[end := File(partial.value)] else files;
      }
    }

    /** `os.replace`. */
    method Replace(src: Place, dst: Place) returns (ok: bool)
      requires src != dst
      modifies this`files, this`faults
      ensures ok ==> src in old(files) && files == (old(files) - {src})[dst := old(files)[src]]
      ensures !ok ==> files == old(files)
      ensures faults >= old(faults) && (!ok ==> faults > old(faults) || src !in old(files))
    {
      ok := *;
      if src !in files {
        ok := false;
      } else if ok {
        files := (files - {src})[dst := files[src]];
      } else {
        faults := faults + 1;
      }
    }

    /** `os.symlink`. */
    method Symlink(link: Place, target: string) returns (ok: bool)
      modifies this`files, this`faults
      ensures ok ==> link !in old(files) && files == old(files)[link := Link(target)]
      ensures !ok ==> files == old(files)
      ensures faults >= old(faults) && (!ok ==> faults > old(faults) || link in old(files))
    {
      ok := *;
      if link in files {
        ok := false;
      } else if ok {
        files := files[link := Link(target)];
      } else {
        faults := faults + 1;
      }
    }

    /** `unlink` that tolerates a missing file. */
    method Unlink(p: Place) returns (ok: bool)
      modifies this`files, this`faults
      ensures ok ==> files == old(files) - {p}
      ensures !ok ==> files == old(files) && p in files
      ensures faults >= old(faults) && (!ok ==> faults > old(faults))
    {
      if p !in files {
        return true;
      }
      ok := *;
      if ok {
        files := files - {p};
      } else {
        faults := faults + 1;
      }
    }

    // ---- restoring ----

    /** With a leftover link under the temporary name, it is that link that takes the target's place. */
    method RestoreBinaryAtPath(backup: Place, target: Place) returns (ok: bool)
      requires var tmp := TempFile(target, pid); tmp != target && tmp != backup
      modifies this`files, this`faults
      ensures ok ==> backup in old(files) && old(files)[backup].File?
      ensures ok && !IsLink(old(files), TempFile(target, pid)) ==>
        files == (old(files) - {TempFile(target, pid)})[target := old(files)[backup]]
      ensures ok && IsLink(old(files), TempFile(target, pid)) ==>
        target in files && files[target] == old(files)[TempFile(target, pid)]
      ensures !IsLink(old(files), TempFile(target, pid)) ==>
        SameElsewhere(files, old(files), {target, TempFile(target, pid)})
      ensures faults >= old(faults)
      ensures !ok && !IsLink(old(files), TempFile(target, pid)) ==>
        faults > old(faults) || backup !in old(files) || old(files)[backup].Link?
    {
      var tmp := TempFile(target, pid);
      ok := Copy(backup, tmp);
      assert !IsLink(old(files), tmp) ==> files - {target, tmp} == (files - {tmp}) - {target} == old(files) - {target, tmp};
      if ok {
        ok := Replace(tmp, target);
      }
      var removed := Unlink(tmp);
      ok := ok && removed;
    }

    /** A leftover link that leads to the target ends up as a link to itself. */
    lemma LeftoverLinkBreaks(before: Tree, after: Tree, target: Place)
      requires var tmp := TempFile(target, pid);
        IsLink(before, tmp) && Follow(tmp, before[tmp].target) == target && target in after && after[target] == before[tmp]
      requires target != []
      ensures ContentAt(after, target) == None
    {
      assert Parent(TempFile(target, pid)) == Parent(target);
      SelfLinkDangles(after, target, after[target].target);
    }

    method ReplaceSymlink(link: Place, target: string) returns (ok: bool)
      requires TempLink(link, pid) != link
      modifies this`files, this`faults
      ensures ok ==> files == (old(files) - {TempLink(link, pid)})[link := Link(target)]
      ensures SameElsewhere(files, old(files), {link, TempLink(link, pid)})
      ensures faults >= old(faults) && (!ok ==> faults > old(faults))
    {
      var tmp := TempLink(link, pid);
      ok := MakeParents();
      if ok && tmp in files {
        ok := Unlink(tmp);
      }
      if ok {
        ok := Symlink(tmp, target);
      }
      if ok {
        ok := Replace(tmp, link);
      }
      var removed := Unlink(tmp);
      ok := ok && removed;
    }

    /**
     * The reversed loop of `_restore_symlink_target`. Wherever it breaks off, the links from some hop on
     * lead to the good bytes, and the hops before the one it was working on are untouched.
     */
    method RestoreLinks(s: Snapshot, ghost good: Bytes) returns (ok: bool, ghost first: nat)
      requires Consistent(s) && Apart(s, pid) && s.resolved in files && files[s.resolved] == File(good)
      modifies this`files, this`faults
      ensures ok ==> first == 0 && files == Relink(old(files) - LinkTemps(s.chain, pid, 0), s.chain)
      ensures first <= |s.chain| && OnlyFrom(old(files), files, s, pid, first - 1)
      ensures forall i :: first <= i < |s.chain| ==> ContentAt(files, s.chain[i].link) == Some(good)
      ensures faults >= old(faults) && (!ok ==> faults > old(faults))
    {
      var k := |s.chain|;
      assert old(files) - LinkTemps(s.chain, pid, k) == old(files);
      while k > 0
        invariant 0 <= k <= |s.chain|
        invariant files == Relink(old(files) - LinkTemps(s.chain, pid, k), s.chain[k..])
        invariant InPlace(files, s.chain, s.resolved, good, k) && OnlyFrom(old(files), files, s, pid, k)
        invariant faults >= old(faults)
      {
        k := k - 1;
        ghost var before := files;
        TempsApart(s, k);
        ok := ReplaceSymlink(s.chain[k].link, s.chain[k].target);
        HopTouches(old(files), before, files, s, k);
        HopKeeps(before, files, s, good, k);
        if !ok {
          PartlyRestoredRuns(files, s.codexPath, s.chain, s.resolved, good, k + 1);
          return false, k + 1;
        }
        RelinkTempStep(s, old(files), k);
      }
      assert s.chain[0..] == s.chain;
      PartlyRestoredRuns(files, s.codexPath, s.chain, s.resolved, good, 0);
      return true, 0;
    }

    /**
     * `restore_snapshot`; false stands for the returned error text. However it ends, the links from hop
     * `first` on run the saved bytes, and the links before the hop it was working on are as they were.
     */
    method RestoreSnapshot(s: Snapshot) returns (ok: bool, ghost first: nat)
      requires Consistent(s) && Fresh(files, s, pid)
      modifies this`files, this`faults
      ensures ok ==> s.backup in old(files) && old(files)[s.backup].File?
      ensures ok ==> files == Restored(old(files) - Temps(s, pid), s.chain, s.resolved, old(files)[s.backup].bytes)
      ensures OnlyTouched(old(files), files, s, pid)
      ensures first <= |s.chain| && (ok ==> first == 0)
      ensures first < |s.chain| ==> s.backup in old(files) && old(files)[s.backup].File?
      ensures forall i :: first <= i < |s.chain| ==> ContentAt(files, s.chain[i].link) == Some(old(files)[s.backup].bytes)
      ensures forall i :: 0 <= i < first - 1 ==> SameAt(old(files), files, s.chain[i].link)
      ensures faults >= old(faults) && (!ok ==> faults > old(faults) || s.backup !in old(files) || old(files)[s.backup].Link?)
    {
      first := |s.chain|;
      ok := MakeParents();
      if !ok {
        return;
      }
      assert TempFile(s.resolved, pid) in Temps(s, pid);
      ok := RestoreBinaryAtPath(s.backup, s.resolved);
      BinaryTouches(old(files), files, s);
      BinaryKeepsLinks(old(files), files, s);
      if ok {
        ghost var mid := files;
        TempsRemoved(s, old(files), old(files)[s.backup]);
        ok, first := RestoreLinks(s, old(files)[s.backup].bytes);
        LinksTouch(old(files), mid, files, s, first - 1);
        EarlierLinksKept(mid, files, s, first);
      }
    }

    /** The hop that was worked on leaves the file and the later links in place, and comes into place itself if it went well. */
    lemma HopKeeps(t: Tree, u: Tree, s: Snapshot, good: Bytes, k: nat)
      requires Consistent(s) && Apart(s, pid) && k < |s.chain| && InPlace(t, s.chain, s.resolved, good, k + 1)
      requires SameElsewhere(u, t, {s.chain[k].link, TempLink(s.chain[k].link, pid)})
      ensures InPlace(u, s.chain, s.resolved, good, k + 1)
      ensures s.chain[k].link in u && u[s.chain[k].link] == Link(s.chain[k].target) ==> InPlace(u, s.chain, s.resolved, good, k)
    {
      var link, tmp := s.chain[k].link, TempLink(s.chain[k].link, pid);
      ElsewhereAgrees(u, t, link, tmp);
      assert tmp in Temps(s, pid) && OnChain(s.chain, link);
      forall i | k + 1 <= i < |s.chain| ensures s.chain[i].link in u && u[s.chain[i].link] == Link(s.chain[i].target) {
        assert s.chain[i].link != link && OnChain(s.chain, s.chain[i].link);
      }
    }

    lemma BinaryKeepsLinks(t: Tree, u: Tree, s: Snapshot)
      requires Consistent(s) && Apart(s, pid)
      requires SameElsewhere(u, t, {s.resolved, TempFile(s.resolved, pid)})
      ensures forall i :: 0 <= i < |s.chain| ==> SameAt(t, u, s.chain[i].link)
    {
      ElsewhereAgrees(u, t, s.resolved, TempFile(s.resolved, pid));
      forall i | 0 <= i < |s.chain| ensures SameAt(t, u, s.chain[i].link) {
        assert OnChain(s.chain, s.chain[i].link) && TempFile(s.resolved, pid) in Temps(s, pid);
      }
    }

    lemma EarlierLinksKept(t: Tree, u: Tree, s: Snapshot, first: nat)
      requires Consistent(s) && Apart(s, pid) && first <= |s.chain| && OnlyFrom(t, u, s, pid, first - 1)
      ensures forall i :: 0 <= i < first - 1 ==> SameAt(t, u, s.chain[i].link)
    {
      forall i | 0 <= i < first - 1 ensures SameAt(t, u, s.chain[i].link) {
        var p := s.chain[i].link;
        assert OnChain(s.chain, p);
        forall j | first - 1 <= j < |s.chain| ensures p != s.chain[j].link && p != TempLink(s.chain[j].link, pid) {
          assert TempLink(s.chain[j].link, pid) in Temps(s, pid);
        }
      }
    }

    lemma LinksTouch(t: Tree, u: Tree, w: Tree, s: Snapshot, k: int)
      requires OnlyTouched(t, u, s, pid) && OnlyFrom(u, w, s, pid, k)
      ensures OnlyTouched(t, w, s, pid)
    {
      forall p ensures Touched(s, pid, p) || SameAt(t, w, p) {
        if HopFrom(s, pid, k, p) {
          var i :| 0 <= i < |s.chain| && k <= i && (p == s.chain[i].link || p == TempLink(s.chain[i].link, pid));
          assert Touched(s, pid, p);
        } else {
          assert SameAt(u, w, p);
          assert Touched(s, pid, p) || SameAt(t, u, p);
        }
      }
    }

    lemma RelinkStep(t: Tree, chain: Chain, k: nat)
      requires k < |chain|
      ensures Relink(t, chain[k..]) == Relink(t, chain[k + 1..])[chain[k].link := Link(chain[k].target)]
    {
      assert chain[k..][1..] == chain[k + 1..];
    }

    /** Hop `k` comes back and its temporary name goes. */
    lemma RelinkTempStep(s: Snapshot, t: Tree, k: nat)
      requires Apart(s, pid) && k < |s.chain|
      ensures
        var later := Relink(t - LinkTemps(s.chain, pid, k + 1), s.chain[k + 1..]);
        Relink(t - LinkTemps(s.chain, pid, k), s.chain[k..])
        == (later - {TempLink(s.chain[k].link, pid)})[s.chain[k].link := Link(s.chain[k].target)]
    {
      var tmp, rest := TempLink(s.chain[k].link, pid), LinkTemps(s.chain, pid, k + 1);
      TempsApart(s, k);
      assert LinkTemps(s.chain, pid, k) == rest + {tmp};
      assert t - (rest + {tmp}) == (t - rest) - {tmp};
      RelinkWithout(t - rest, s.chain[k + 1..], tmp);
      RelinkStep((t - rest) - {tmp}, s.chain, k);
    }

    lemma {:induction false} RelinkWithout(t: Tree, chain: Chain, tmp: Place)
      requires !OnChain(chain, tmp)
      ensures Relink(t - {tmp}, chain) == Relink(t, chain) - {tmp}
      decreases |chain|
    {
      if chain != [] {
        forall i | 0 <= i < |chain[1..]| ensures chain[1..][i].link != tmp {
          assert chain[1..][i] == chain[i + 1];
        }
        assert chain[0].link != tmp;
        RelinkWithout(t, chain[1..], tmp);
      }
    }

    lemma TempsRemoved(s: Snapshot, t: Tree, node: Entry)
      requires Apart(s, pid)
      ensures (t - {TempFile(s.resolved, pid)})[s.resolved := node] - LinkTemps(s.chain, pid, 0)
        == (t - Temps(s, pid))[s.resolved := node]
    {
      assert s.resolved !in Temps(s, pid);
    }

    lemma BinaryTouches(t: Tree, u: Tree, s: Snapshot)
      requires SameElsewhere(u, t, {s.resolved, TempFile(s.resolved, pid)})
      ensures OnlyTouched(t, u, s, pid)
    {
      ElsewhereAgrees(u, t, s.resolved, TempFile(s.resolved, pid));
    }

    lemma HopTouches(t: Tree, u: Tree, w: Tree, s: Snapshot, k: nat)
      requires k < |s.chain| && OnlyFrom(t, u, s, pid, k + 1)
      requires SameElsewhere(w, u, {s.chain[k].link, TempLink(s.chain[k].link, pid)})
      ensures OnlyFrom(t, w, s, pid, k)
    {
      ElsewhereAgrees(w, u, s.chain[k].link, TempLink(s.chain[k].link, pid));
      forall p ensures HopFrom(s, pid, k, p) || SameAt(t, w, p) {
        if !HopFrom(s, pid, k, p) {
          assert p != s.chain[k].link && p != TempLink(s.chain[k].link, pid);
          assert !HopFrom(s, pid, k + 1, p);
          assert SameAt(t, u, p) && SameAt(u, w, p);
        }
      }
    }

    // ---- the update ----

    /** Run one probe of the executable; whatever it answers, it leaves the files alone. */
    method RunProbe(path: Place, step: ProbeName) returns (r: CommandResult)
      modifies this`log
      ensures log == old(log) + [Probed(step, ContentAt(files, path), r)]
    {
      r := *;
      log := log + [Probed(step, ContentAt(files, path), r)];
    }

    /** `probe_codex`: stops at the first probe that fails. `seen` is what it adds to the log. */
    method ProbeCodex(path: Place) returns (ok: bool, ghost seen: Log)
      modifies this`log
      ensures log == old(log) + seen && IsProbing(seen, ContentAt(files, path), ok)
      ensures ok <==> Healthy(seen, ContentAt(files, path))
    {
      ghost var bytes := ContentAt(files, path);
      seen := [];
      for i := 0 to |PROBE_STEPS|
        invariant log == old(log) + seen && |seen| == i
        invariant forall k :: 0 <= k < i ==> IsProbe(seen[k], PROBE_STEPS[k], bytes, true)
      {
        var res := RunProbe(path, PROBE_STEPS[i]);
        seen := seen + [Probed(PROBE_STEPS[i], bytes, res)];
        StripBlank(res.output);
        if res.timedOut || res.returncode != 0 || Strip(res.output) == "" {
          return false, seen;
        }
      }
      return true, seen;
    }

    /** `_read_symlink_chain`; `None` stands for the loop error. */
    method ReadSymlinkChain(path: Place) returns (chain: Option<Chain>, end: Place)
      ensures chain.Some? ==> IsChain(files, path, chain.value, end)
      ensures chain.None? ==> forall c, e :: !IsChain(files, path, c, e)
    {
      var hops: Chain := [];
      var current := path;
      var seen: set<Place> := {};
      while IsLink(files, current)
        invariant Walked(files, path, hops, current)
        invariant seen <= files.Keys && forall p :: p in seen <==> OnChain(hops, p)
        decreases files.Keys - seen
      {
        if current in seen {
          forall c, e ensures !IsChain(files, path, c, e) {
            LoopHasNoChain(files, path, hops, current, c, e);
          }
          return None, current;
        }
        seen := seen + {current};
        var target := files[current].target;
        WalkOn(files, path, hops, current);
        OnChainAppend(hops, Hop(current, target));
        hops := hops + [Hop(current, target)];
        current := Follow(current, target);
      }
      WalkEnds(files, path, hops, current);
      return Some(hops), current;
    }

    lemma OnChainAppend(chain: Chain, hop: Hop)
      ensures forall p :: OnChain(chain + [hop], p) <==> OnChain(chain, p) || p == hop.link
    {
      forall p ensures OnChain(chain + [hop], p) <==> OnChain(chain, p) || p == hop.link {
        var longer := chain + [hop];
        assert longer[|chain|] == hop;
        if OnChain(chain, p) {
          var i :| 0 <= i < |chain| && chain[i].link == p;
          assert longer[i].link == p;
        }
      }
    }

    /** `snapshot_current_codex`; `None` stands for the OSError. */
    method SnapshotCurrentCodex(path: Place, backup: Place) returns (s: Option<Snapshot>)
      requires backup !in files && path != backup
      modifies this
      ensures files - {backup} == old(files)
      ensures s == None ==> log == old(log) + [BackupFailed]
      ensures faults >= old(faults) && (s == None ==> faults > old(faults) || ContentAt(old(files), path).None?)
      ensures s.Some? ==>
        && s.value.codexPath == path && s.value.backup == backup
        && IsChain(old(files), path, s.value.chain, s.value.resolved) && Consistent(s.value)
        && ContentAt(old(files), path).Some?
        && backup in files && files[backup] == File(ContentAt(old(files), path).value)
        && log == old(log) + [BackedUp(ContentAt(old(files), path).value)]
    {
      var strict, resolved := ReadSymlinkChain(path);
      if strict == None || resolved !in files {
        if strict.Some? {
          NothingThere(files, path, strict.value, resolved);
        }
        log := log + [BackupFailed];
        return None;
      }
      ContentIs(files, path, strict.value, resolved);
      ghost var bytes := files[resolved].bytes;
      var made := MakeParents();
      if !made {
        log := log + [BackupFailed];
        return None;
      }
      var copied := Copy(resolved, backup);
      if !copied {
        log := log + [BackupFailed];
        return None;
      }
      BackupIsAside(old(files), path, strict.value, resolved, backup);
      var chain, end := ReadSymlinkChain(path);
      assert IsChain(files, path, strict.value, resolved) && chain.Some?;
      ChainUnique(files, path, strict.value, resolved, chain.value, end);
      ChainDistinct(files, path, chain.value, end);
      log := log + [BackedUp(bytes)];
      return Some(Snapshot(path, resolved, backup, chain.value));
    }

    /** A file in an unused place does not alter the chain. */
    lemma BackupIsAside(t: Tree, path: Place, chain: Chain, end: Place, backup: Place)
      requires IsChain(t, path, chain, end) && backup !in t && end in t && t[end].File?
      ensures IsChain(t[backup := t[end]], path, chain, end)
    {
      ChainDistinct(t, path, chain, end);
      ChainHeld(t, path, chain, end);
      HeldIsChain(t[backup := t[end]], path, chain, end);
    }

    /**
     * The update command: arbitrary, except that it leaves the backup and the temporary names alone.
     */
    method RunUpdater(s: Snapshot) returns (r: CommandResult)
      requires Fresh(files, s, pid)
      modifies this
      ensures log == old(log) + [UpdaterRan(if r.timedOut then None else Some(r.returncode))] && Fresh(files, s, pid)
      ensures faults == old(faults) && (s.backup in files <==> s.backup in old(files))
      ensures s.backup in files ==> files[s.backup] == old(files)[s.backup]
    {
      r := *;
      var after: Tree :| Fresh(after, s, pid) && (s.backup in after <==> s.backup in files)
        && (s.backup in after ==> after[s.backup] == files[s.backup]);
      files := after;
      log := log + [UpdaterRan(if r.timedOut then None else Some(r.returncode))];
    }

    /** `_rollback_result`: the outcome after a restore attempt; `code` is what the caller would exit with. */
    method RollbackResult(s: Snapshot, restored: bool, code: int) returns (r: UpdateResult, ghost seen: Log)
      modifies this`log
      ensures log == old(log) + seen
      ensures !restored ==> seen == [] && r == FAILED
      ensures restored ==> IsProbing(seen, ContentAt(files, s.codexPath), r.status == RolledBack)
      ensures restored ==> r == FAILED || r == UpdateResult(RolledBack, code)
    {
      if !restored {
        return FAILED, [];
      }
      var ok: bool;
      ok, seen := ProbeCodex(s.codexPath);
      r := if ok then UpdateResult(RolledBack, code) else FAILED;
    }

    /** The saved bytes run again and the recorded links are back. */
    ghost predicate IsBack(t: Tree, s: Snapshot, good: Bytes) {
      ContentAt(t, s.codexPath) == Some(good) && Holds(t, s.chain)
    }

    /** Restore and judge, as after each kind of failed update. */
    method Rollback(s: Snapshot, ghost good: Bytes, code: int) returns (r: UpdateResult, ghost seen: Log)
      requires Consistent(s) && Fresh(files, s, pid)
      requires s.backup in files && files[s.backup] == File(good)
      modifies this
      ensures log == old(log) + seen && IsRollback(seen, good, code, r)
      ensures seen[0].Restoring? && (seen[0].ok ==> IsBack(files, s, good))
      ensures faults >= old(faults) && (!seen[0].ok ==> faults > old(faults))
    {
      ghost var before := files;
      ghost var first: nat;
      var restored: bool;
      restored, first := RestoreSnapshot(s);
      log := log + [Restoring(restored)];
      if restored {
        RestoredRuns(before - Temps(s, pid), s.codexPath, s.chain, s.resolved, good);
        ChainHeld(files, s.codexPath, s.chain, s.resolved);
      }
      ghost var rest: Log;
      r, rest := RollbackResult(s, restored, code);
      Reassociate(old(log), [Restoring(restored)], rest);
      RestoredThen(restored, rest, good, code, r);
      seen := [Restoring(restored)] + rest;
    }

    /** From the update command on. */
    method UpdateOrRollBack(s: Snapshot, ghost good: Bytes) returns (r: UpdateResult, ghost seen: Log)
      requires Consistent(s) && Fresh(files, s, pid)
      requires s.backup in files && files[s.backup] == File(good)
      modifies this
      ensures log == old(log) + seen && IsUpdate(seen, good, r)
      ensures r.status == Updated ==> EndsHealthy(seen, ContentAt(files, s.codexPath))
      ensures r.status == RolledBack ==> IsBack(files, s, good)
      ensures faults >= old(faults) && (Restoring(false) in seen ==> faults > old(faults))
    {
      var update := RunUpdater(s);
      ghost var exit := if update.timedOut then None else Some(update.returncode);
      ghost var rest: Log;
      r, rest := Judge(s, update, good);
      Reassociate(old(log), [UpdaterRan(exit)], rest);
      seen := [UpdaterRan(exit)] + rest;
      UpdateRan(exit, rest, good, r);
    }

    /** What follows the update command, by its result. */
    method Judge(s: Snapshot, update: CommandResult, ghost good: Bytes) returns (r: UpdateResult, ghost rest: Log)
      requires Consistent(s) && Fresh(files, s, pid)
      requires s.backup in files && files[s.backup] == File(good)
      modifies this
      ensures log == old(log) + rest && Judged(if update.timedOut then None else Some(update.returncode), rest, good, r)
      ensures r.status == Updated ==> EndsHealthy(rest, ContentAt(files, s.codexPath))
      ensures r.status == RolledBack ==> IsBack(files, s, good)
      ensures faults >= old(faults) && (Restoring(false) in rest ==> faults > old(faults))
    {
      if update.timedOut {
        r, rest := Rollback(s, good, EXIT_CODEX_UPDATE);
      } else if update.returncode != 0 {
        r, rest := Rollback(s, good, if update.returncode == 127 then EXIT_NOT_FOUND else EXIT_CODEX_UPDATE);
      } else {
        r, rest := TryCandidate(s, good);
      }
    }

    /** Judge the candidate after an update command that succeeded. */
    method TryCandidate(s: Snapshot, ghost good: Bytes) returns (r: UpdateResult, ghost seen: Log)
      requires Consistent(s) && Fresh(files, s, pid)
      requires s.backup in files && files[s.backup] == File(good)
      modifies this
      ensures log == old(log) + seen && exists candidate, n :: IsTrial(seen, candidate, n, good, r)
      ensures r.status == Updated ==> EndsHealthy(seen, ContentAt(files, s.codexPath))
      ensures r.status == RolledBack ==> IsBack(files, s, good)
      ensures faults >= old(faults) && (Restoring(false) in seen ==> faults > old(faults))
    {
      ghost var bytes := ContentAt(files, s.codexPath);
      var candidate: bool;
      ghost var probing: Log;
      candidate, probing := ProbeCodex(s.codexPath);
      if candidate {
        r, seen := UpdateResult(Updated, 0), probing;
        TrialPassed(probing, bytes, good);
        ProbingRestoresNothing(probing, bytes, true);
        return;
      }
      ghost var rest: Log;
      r, rest := Rollback(s, good, EXIT_CODEX_UPDATE);
      Reassociate(old(log), probing, rest);
      seen := probing + rest;
      TrialFailed(probing, bytes, rest, good, r);
    }

    /** After a rollback: the bytes that ran before are back behind the very links that led to them. */
    ghost predicate RolledBackTo(before: Tree, path: Place)
      reads this
    {
      && ContentAt(before, path).Some?
      && ContentAt(files, path) == ContentAt(before, path)
      && (forall chain, end :: IsChain(before, path, chain, end) ==> Holds(files, chain))
    }

    /**
     * `safe_update` of a found executable. `backup` is the unused name chosen for the saved copy; the
     * temporary names of the rollback are unused as well.
     */
    method SafeUpdate(path: Place, backup: Place) returns (r: UpdateResult)
      requires log == [] && backup !in files && path != backup
      requires forall chain, end :: IsChain(files, path, chain, end) ==> Fresh(files, Snapshot(path, end, backup, chain), pid)
      modifies this
      ensures IsSafeUpdate(log, ContentAt(old(files), path), r)
      ensures r.status == Updated ==> EndsHealthy(log, ContentAt(files, path))
      ensures r.status == RolledBack ==> RolledBackTo(old(files), path)
      ensures NoUpdate(log) ==> files - {backup} == old(files)
      ensures |log| == 4 && log[3] == BackupFailed && ContentAt(old(files), path).Some? ==> faults > old(faults)
      ensures Restoring(false) in log ==> faults > old(faults)
    {
      ghost var bytes := ContentAt(files, path);
      var healthy: bool;
      ghost var probing: Log;
      healthy, probing := ProbeCodex(path);
      assert log == probing;
      ProbingRestoresNothing(probing, bytes, healthy);
      if !healthy {
        return FAILED;
      }
      var snapshot := SnapshotCurrentCodex(path, backup);
      assert log[..3] == probing;
      if snapshot == None {
        return FAILED;
      }
      var s := snapshot.value;
      ghost var good := bytes.value;
      ghost var saved := log;
      FreshAside(old(files), files, s);
      ghost var rest: Log;
      r, rest := UpdateOrRollBack(s, good);
      assert log[..3] == saved[..3] && log[3] == saved[3] && log[4..] == rest;
      assert log[4] in log && log[..4] == saved == probing + [BackedUp(good)];
      if Restoring(false) in log {
        RestoringLater(log, 4);
      }
      if r.status == Updated {
        EndsWithin(log, 4, ContentAt(files, path));
      }
      forall chain, end | IsChain(old(files), path, chain, end) ensures chain == s.chain {
        ChainUnique(old(files), path, chain, end, s.chain, s.resolved);
      }
    }

    /** Adding the backup uses none of the temporary names. */
    lemma FreshAside(t: Tree, u: Tree, s: Snapshot)
      requires Fresh(t, s, pid) && u - {s.backup} == t
      ensures Fresh(u, s, pid)
    {
      assert forall p :: p in u && p != s.backup ==> p in u - {s.backup};
    }

    lemma ElsewhereAgrees(t: Tree, u: Tree, a: Place, b: Place)
      requires SameElsewhere(t, u, {a, b})
      ensures forall p :: p != a && p != b ==> (p in t <==> p in u) && (p in t ==> t[p] == u[p])
    {
      forall p | p != a && p != b ensures (p in t <==> p in u) && (p in t ==> t[p] == u[p]) {
        assert p in t <==> p in t - {a, b};
        assert p in u <==> p in u - {a, b};
        assert p in t ==> t[p] == (t - {a, b})[p];
        assert p in u ==> u[p] == (u - {a, b})[p];
      }
    }

    /** The temporary link name of hop `k` is none of the recorded links. */
    lemma TempsApart(s: Snapshot, k: nat)
      requires Apart(s, pid) && k < |s.chain|
      ensures TempLink(s.chain[k].link, pid) != s.chain[k].link
      ensures !OnChain(s.chain[k + 1..], TempLink(s.chain[k].link, pid))
    {
      var tmp, rest := TempLink(s.chain[k].link, pid), s.chain[k + 1..];
      assert tmp in Temps(s, pid) && OnChain(s.chain, s.chain[k].link);
      forall i | 0 <= i < |rest| ensures rest[i].link != tmp {
        assert rest[i] == s.chain[i + k + 1];
      }
    }
  }
}
