/** Bulk configuration changes over registered repositories (riglib/fleet_config.py, riglib/fleet.py). */
module Fleet {
  import opened Text
  import opened Ordering
  import opened ConfigLoad
  import opened ConfigEdit

  datatype Repo = Repo(id: string, name: string, path: string)

  /** `key=lambda repo: (repo.path, repo.id)`. */
  function RepoKey(r: Repo): Key {
    [r.path, r.id]
  }

  function Ordered(repos: seq<Repo>): seq<Repo> {
    Sort(RepoKey, repos)
  }

  datatype FleetResult = FleetResult(repo: Repo, exitCode: int) {
    predicate Ok() {
      exitCode == 0
    }
  }

  datatype FleetReport = FleetReport(selected: seq<Repo>, results: seq<FleetResult>) {
    predicate Ok() {
      forall r :: r in results ==> r.Ok()
    }
  }

  datatype GlobalReport = GlobalReport(preview: FleetReport, write: Option<FleetResult>, reconcile: Option<FleetReport>) {
    predicate Ok() {
      preview.Ok() && (write.Some? ==> write.value.Ok()) && (reconcile.Some? ==> reconcile.value.Ok())
    }
  }

  // ---- commands ----

  /** `rig config set ...` in one repository; a batch either sets per repository or previews the global layer. */
  datatype Command =
    | ConfigSet(commit: bool, isGlobal: bool, noApply: bool)
    | Apply

  /** The command line writes the edited layer exactly with one of these flags. */
  predicate Writes(c: Command) {
    c.ConfigSet? && (c.commit || c.noApply)
  }

  predicate WritesGlobal(c: Command) {
    Writes(c) && c.isGlobal
  }

  /** The command brings the machine in line with the configuration. */
  predicate Reconciles(c: Command) {
    c.Apply? || c.commit
  }

  function OwnerFor(c: Command): Owner
    requires c.ConfigSet?
  {
    if c.isGlobal then GLOBAL else REPO
  }

  /** The setting that a fleet run distributes. */
  datatype Setting = Setting(dotted: string, raw: string)

  ghost predicate Accepts(env: Env, texts: Texts, owner: Owner, s: Setting) {
    CliAccepts(env, texts, owner, s.dotted, s.raw)
  }

  /** What a command does to the configuration files; exit code 0 means that it did what it is for. */
  ghost predicate Effect(env: Env, c: Command, s: Setting, before: Texts, after: Texts, ok: bool) {
    && (!Writes(c) ==> after == before)
    && (c.ConfigSet? ==> after - {Target(env, OwnerFor(c))} == before - {Target(env, OwnerFor(c))})
    && (c.ConfigSet? && ok ==> Accepts(env, before, OwnerFor(c), s))
    && (Writes(c) && ok ==> after == Rewritten(env, before, OwnerFor(c), CliEdit(env, before, OwnerFor(c), s.dotted, s.raw).value))
  }

  /** Two repositories of one machine: they differ at most in their own file and in what their plans have to meet. */
  ghost predicate SameMachine(x: Env, y: Env) {
    && x.globalPath == y.globalPath && x.parse == y.parse && x.render == y.render && x.validate == y.validate
    && x.isOption == y.isOption && x.globalOnly == y.globalOnly
    && x.coerceOption == y.coerceOption && x.coerceScalar == y.coerceScalar
  }

  lemma SameOnOneMachine(x: Env, y: Env, texts: Texts, s: Setting)
    requires SameMachine(x, y)
    ensures CliEdit(x, texts, GLOBAL, s.dotted, s.raw) == CliEdit(y, texts, GLOBAL, s.dotted, s.raw)
  {
  }

  /**
   * What the preflight is for: when two repositories accepted the setting, the global file that one of
   * them writes passes the gates of the other as it is on disk.
   */
  lemma PreflightCarriesOver(anchor: Env, other: Env, before: Texts, s: Setting)
    ensures SameMachine(anchor, other) && Faithful(other) && Accepts(anchor, before, GLOBAL, s) && Accepts(other, before, GLOBAL, s) ==>
      Gates(other, Rewritten(anchor, before, GLOBAL, CliEdit(anchor, before, GLOBAL, s.dotted, s.raw).value), map[], GLOBAL, true)
  {
    if SameMachine(anchor, other) && Faithful(other) && Accepts(anchor, before, GLOBAL, s) && Accepts(other, before, GLOBAL, s) {
      SameOnOneMachine(anchor, other, before, s);
      DiskIsMemory(other, before, GLOBAL, CliEdit(other, before, GLOBAL, s.dotted, s.raw).value, true);
    }
  }

  /** A command for another layer leaves the global file alone. */
  lemma EffectElsewhere(env: Env, c: Command, s: Setting, before: Texts, after: Texts, ok: bool)
    requires DistinctPaths(env) && Effect(env, c, s, before, after, ok) && !WritesGlobal(c)
    ensures TextAt(after, env.globalPath) == TextAt(before, env.globalPath)
  {
    if Writes(c) {
      assert env.globalPath in after <==> env.globalPath in after - {env.repoPath};
      assert env.globalPath in before <==> env.globalPath in before - {env.repoPath};
      assert env.globalPath in after ==> after[env.globalPath] == (after - {env.repoPath})[env.globalPath];
      assert env.globalPath in before ==> before[env.globalPath] == (before - {env.repoPath})[env.globalPath];
    }
  }

  function TextAt(texts: Texts, p: Path): Option<string> {
    if p in texts then Some(texts[p]) else None
  }

  const PREVIEW_GLOBAL := ConfigSet(false, true, false)
  const WRITE_GLOBAL := ConfigSet(false, true, true)

  /** The exit code of a worker whose result was lost to an exception. */
  const LOST := 1

  /** How a global change ends: without a thread pool, by an exception of the writing command, or with a report. */
  datatype Ending = NoPool | WriteRaised(preview: FleetReport) | Reported(report: GlobalReport)

  /** A command that ran for the repository at `index` of the ordered selection, and its exit code. */
  datatype Event = Ran(index: nat, command: Command, exitCode: int)

  /** Every repository of the selection ran the command exactly once, in some order, with the reported exit code. */
  ghost predicate IsBatch(events: seq<Event>, command: Command, results: seq<FleetResult>) {
    && |events| == |results|
    && (forall k :: 0 <= k < |events| ==> IsReported(events[k], command, results))
    && (forall j, k :: 0 <= j < k < |events| ==> events[j].index != events[k].index)
  }

  predicate IsReported(e: Event, command: Command, results: seq<FleetResult>) {
    e.index < |results| && e.command == command && e.exitCode == results[e.index].exitCode
  }

  /** Result `i` belongs to repository `i`. */
  ghost predicate Aligned(results: seq<FleetResult>, ordered: seq<Repo>) {
    |results| == |ordered| && forall i :: 0 <= i < |ordered| ==> results[i].repo == ordered[i]
  }

  /**
   * The log of a global change: previews everywhere, then at most one write and only after every
   * preview succeeded, then reconciliation everywhere and only after the write succeeded.
   */
  ghost predicate IsGlobalRun(log: seq<Event>, n: nat, ending: Ending) {
    match ending
    case NoPool => log == []
    case WriteRaised(preview) =>
      |log| == n + 1 && Previewed(log, n, preview) && preview.Ok() && log[n] == Ran(0, WRITE_GLOBAL, LOST)
    case Reported(report) =>
      && Previewed(log, n, report.preview)
      && match report.write
         case None => |log| == n && report.reconcile == None
         case Some(w) =>
           && report.preview.Ok() && |log| > n && log[n] == Ran(0, WRITE_GLOBAL, w.exitCode)
           && match report.reconcile
              case None => |log| == n + 1
              case Some(r) => w.Ok() && |r.results| == n && IsBatch(log[n + 1..], Apply, r.results)
  }

  ghost predicate Previewed(log: seq<Event>, n: nat, preview: FleetReport) {
    |log| >= n == |preview.results| && IsBatch(log[..n], PREVIEW_GLOBAL, preview.results)
  }

  /** The pieces of a log that got as far as the write. */
  lemma RunOf(previews: seq<Event>, e: Event, rest: seq<Event>, n: nat, ending: Ending)
    requires !ending.NoPool? && |previews| == n && Previewed(previews, n, PreviewOf(ending)) && PreviewOf(ending).Ok()
    requires ending.WriteRaised? ==> e == Ran(0, WRITE_GLOBAL, LOST) && rest == []
    requires ending.Reported? ==> ending.report.write.Some? && e == Ran(0, WRITE_GLOBAL, ending.report.write.value.exitCode)
    requires ending.Reported? && ending.report.reconcile.None? ==> rest == []
    requires ending.Reported? && ending.report.reconcile.Some? ==>
      ending.report.write.value.Ok() && |ending.report.reconcile.value.results| == n
      && IsBatch(rest, Apply, ending.report.reconcile.value.results)
    ensures IsGlobalRun(previews + [e] + rest, n, ending) && IsGlobalRun(previews + ([e] + rest), n, ending)
    ensures rest == [] ==> IsGlobalRun(previews + [e], n, ending)
  {
    var log := previews + [e] + rest;
    assert log == previews + ([e] + rest);
    assert log[..n] == previews == previews[..n] && log[n] == e && log[n + 1..] == rest;
    assert rest == [] ==> previews + [e] == log;
  }

  function PreviewOf(ending: Ending): FleetReport
    requires !ending.NoPool?
  {
    if ending.WriteRaised? then ending.preview else ending.report.preview
  }

  /** The indices below `n`. */
  function Below(n: nat): (s: set<nat>)
    ensures forall i: nat :: i in s <==> i < n
    ensures |s| == n
  {
    if n == 0 then {} else Below(n - 1) + {n - 1}
  }

  /** Futures of the indices in `pending` have not completed. */
  ghost predicate PoolRunning(ordered: seq<Repo>, command: Command, pending: set<nat>, byIndex: map<nat, FleetResult>, events: seq<Event>) {
    && byIndex.Keys == Below(|ordered|) - pending && pending <= Below(|ordered|)
    && |events| + |pending| == |ordered|
    && (forall i :: i in byIndex ==> byIndex[i].repo == ordered[i])
    && (forall k :: 0 <= k < |events| ==>
      events[k].index in byIndex && events[k] == Ran(events[k].index, command, byIndex[events[k].index].exitCode))
    && (forall j, k :: 0 <= j < k < |events| ==> events[j].index != events[k].index)
  }

  lemma PoolStep(
    ordered: seq<Repo>, command: Command, pending: set<nat>, byIndex: map<nat, FleetResult>, events: seq<Event>, index: nat, r: FleetResult)
    requires PoolRunning(ordered, command, pending, byIndex, events)
    requires index in pending && r.repo == ordered[index]
    ensures PoolRunning(ordered, command, pending - {index}, byIndex[index := r], events + [Ran(index, command, r.exitCode)])
  {
  }

  function Collected(n: nat, byIndex: map<nat, FleetResult>): (results: seq<FleetResult>)
    requires forall i: nat :: i < n ==> i in byIndex
    ensures |results| == n && forall i :: 0 <= i < n ==> results[i] == byIndex[i]
  {
    seq(n, i requires 0 <= i < n && i in byIndex => byIndex[i])
  }

  lemma PoolDone(ordered: seq<Repo>, command: Command, byIndex: map<nat, FleetResult>, events: seq<Event>)
    requires PoolRunning(ordered, command, {}, byIndex, events)
    ensures forall i: nat :: i < |ordered| ==> i in byIndex
    ensures Aligned(Collected(|ordered|, byIndex), ordered)
    ensures IsBatch(events, command, Collected(|ordered|, byIndex))
  {
    assert byIndex.Keys == Below(|ordered|);
  }

  /**
   * The configuration files of the machine. `envOf` is what a `rig` process sees in a repository; all of
   * them share the global file.
   */
  class World {
    const envOf: Repo -> Env
    const globalPath: Path
    const setting: Setting
    var texts: Texts
    ghost var log: seq<Event>

    constructor (envOf: Repo -> Env, globalPath: Path, setting: Setting, texts: Texts)
      ensures this.envOf == envOf && this.globalPath == globalPath && this.setting == setting
      ensures this.texts == texts && log == []
    {
      this.envOf, this.globalPath, this.setting, this.texts, log := envOf, globalPath, setting, texts, [];
    }

    ghost predicate Known(repo: Repo) {
      envOf(repo).globalPath == globalPath && DistinctPaths(envOf(repo))
    }

    ghost function GlobalText(): Option<string>
      reads this
    {
      TextAt(texts, globalPath)
    }

    /** `rig config set` as a process that runs to its end. */
    method RunToEnd(env: Env, c: Command) returns (ok: bool)
      requires c.ConfigSet?
      modifies this`texts
      ensures Effect(env, c, setting, old(texts), texts, ok)
    {
      var files := new ConfigFiles(env, texts);
      var outcome, restored := files.ConfigSet(OwnerFor(c), setting.dotted, setting.raw, Writes(c));
      texts := files.texts;
      ok := outcome == Success || outcome == Preview;
    }

    /** The same, unless it is killed on the way, when a command that writes may have left anything in its target. */
    method RunConfigSet(env: Env, c: Command) returns (exitCode: int)
      requires c.ConfigSet?
      modifies this`texts
      ensures Effect(env, c, setting, old(texts), texts, exitCode == 0)
    {
      var ok := RunToEnd(env, c);
      exitCode := *;
      var killed := *;
      if killed || !ok {
        exitCode := if exitCode == 0 then 124 else exitCode;
      }
      if killed && Writes(c) {
        var left: Option<string> := *;
        ghost var ended := texts;
        var target := Target(env, OwnerFor(c));
        texts := if left.Some? then texts[target := left.value] else texts - {target};
        assert texts - {target} == ended - {target};
      }
    }

    /** One worker; `None` stands for an exception that is neither a timeout nor an OSError. */
    method RunCommand(index: nat, repo: Repo, command: Command) returns (r: Option<FleetResult>)
      requires Known(repo)
      modifies this
      ensures r.Some? ==> r.value.repo == repo
      ensures log == old(log) + [Ran(index, command, if r.Some? then r.value.exitCode else LOST)]
      ensures Effect(envOf(repo), command, setting, old(texts), texts, r.Some? && r.value.Ok())
      ensures !WritesGlobal(command) ==> GlobalText() == old(GlobalText())
    {
      var code: int;
      if command.ConfigSet? {
        code := RunConfigSet(envOf(repo), command);
        ghost var done := code == 0;
        if !WritesGlobal(command) {
          EffectElsewhere(envOf(repo), command, setting, old(texts), texts, done);
        }
      } else {
        code := *;
      }
      var lost := *;
      r := if lost then None else Some(FleetResult(repo, code));
      log := log + [Ran(index, command, if lost then LOST else code)];
    }

    /** The thread pool with `as_completed`: the futures finish in an arbitrary order. */
    method RunAll(ordered: seq<Repo>, command: Command) returns (results: seq<FleetResult>)
      requires forall repo :: repo in ordered ==> Known(repo)
      modifies this
      ensures Aligned(results, ordered)
      ensures |log| == |old(log)| + |ordered| && log[..|old(log)|] == old(log)
      ensures IsBatch(log[|old(log)|..], command, results)
      ensures !Writes(command) ==> texts == old(texts)
      ensures !Writes(command) && command.ConfigSet? ==>
        forall i :: 0 <= i < |ordered| && results[i].Ok() ==> Accepts(envOf(ordered[i]), texts, OwnerFor(command), setting)
      ensures !WritesGlobal(command) ==> GlobalText() == old(GlobalText())
    {
      var n := |ordered|;
      var byIndex: map<nat, FleetResult> := map[];
      var pending := Below(n);
      ghost var events: seq<Event> := [];
      while pending != {}
        invariant PoolRunning(ordered, command, pending, byIndex, events)
        invariant log == old(log) + events
        invariant !Writes(command) ==> texts == old(texts)
        invariant !Writes(command) && command.ConfigSet? ==>
          forall i :: i in byIndex && byIndex[i].Ok() ==> Accepts(envOf(ordered[i]), texts, OwnerFor(command), setting)
        invariant !WritesGlobal(command) ==> GlobalText() == old(GlobalText())
        decreases pending
      {
        var index :| index in pending;
        assert ordered[index] in ordered;
        var done := RunCommand(index, ordered[index], command);
        var r := if done.Some? then done.value else FleetResult(ordered[index], LOST);
        PoolStep(ordered, command, pending, byIndex, events, index, r);
        byIndex := byIndex[index := r];
        pending := pending - {index};
        events := events + [Ran(index, command, r.exitCode)];
      }
      PoolDone(ordered, command, byIndex, events);
      results := Collected(n, byIndex);
      assert log[|old(log)|..] == events;
    }

    /** The files are as before, or every selected repository accepted the setting and only the global file was written. */
    ghost predicate WrittenIfAccepted(before: Texts, ordered: seq<Repo>, ending: Ending)
      reads this
    {
      if ending.NoPool? || (ending.Reported? && ending.report.write.None?) then texts == before
      else
        && ordered != []
        && (forall i :: 0 <= i < |ordered| ==> Accepts(envOf(ordered[i]), before, GLOBAL, setting))
        && texts - {globalPath} == before - {globalPath}
        && (ending.Reported? && ending.report.write.value.Ok() ==>
             texts == Rewritten(envOf(ordered[0]), before, GLOBAL,
               CliEdit(envOf(ordered[0]), before, GLOBAL, setting.dotted, setting.raw).value))
    }

    /** `execute` with the operation "apply", after the write. */
    method Reconcile(ordered: seq<Repo>) returns (applied: FleetReport, ghost seen: seq<Event>)
      requires forall repo :: repo in ordered ==> Known(repo)
      modifies this
      ensures log == old(log) + seen && texts == old(texts)
      ensures Aligned(applied.results, ordered) && IsBatch(seen, Apply, applied.results)
    {
      var results := RunAll(ordered, Apply);
      applied := FleetReport(ordered, results);
      seen := log[|old(log)|..];
      assert log == log[..|old(log)|] + seen;
    }

    /** After a successful write every selected repository of the machine passes its gates. */
    lemma EveryRepositoryPasses(before: Texts, ordered: seq<Repo>, ending: Ending, i: nat)
      requires i < |ordered|
      ensures
        WrittenIfAccepted(before, ordered, ending)
        && ending.Reported? && ending.report.write.Some? && ending.report.write.value.Ok()
        && SameMachine(envOf(ordered[0]), envOf(ordered[i])) && Faithful(envOf(ordered[i])) ==>
          Gates(envOf(ordered[i]), texts, map[], GLOBAL, true)
    {
      PreflightCarriesOver(envOf(ordered[0]), envOf(ordered[i]), before, setting);
    }

    /** The writing command and what follows it. */
    method WriteOnce(ordered: seq<Repo>, preview: FleetReport) returns (ending: Ending)
      requires forall repo :: repo in ordered ==> Known(repo)
      requires ordered != [] && |log| == |ordered| && Previewed(log, |ordered|, preview) && preview.Ok()
      requires forall i :: 0 <= i < |ordered| ==> Accepts(envOf(ordered[i]), texts, GLOBAL, setting)
      modifies this
      ensures IsGlobalRun(log, |ordered|, ending) && WrittenIfAccepted(old(texts), ordered, ending)
      ensures ending.WriteRaised? || (ending.Reported? && ending.report.write.Some?)
      ensures ending.Reported? ==> ending.report.preview == preview
      ensures ending.Reported? && ending.report.write.value.Ok() ==>
        ending.report.reconcile.Some? && Aligned(ending.report.reconcile.value.results, ordered)
    {
      assert ordered[0] in ordered;
      var write := RunCommand(0, ordered[0], WRITE_GLOBAL);
      ghost var e := Ran(0, WRITE_GLOBAL, if write.Some? then write.value.exitCode else LOST);
      ghost var rest: seq<Event> := [];
      if write == None {
        ending := WriteRaised(preview);
      } else if !write.value.Ok() {
        ending := Reported(GlobalReport(preview, write, None));
      } else {
        var applied: FleetReport;
        applied, rest := Reconcile(ordered);
        ending := Reported(GlobalReport(preview, write, Some(applied)));
      }
      RunOf(old(log), e, rest, |ordered|, ending);
      assert rest == [] ==> log == old(log) + [e] + rest;
    }

    /** `execute_global_config`. */
    method ExecuteGlobalConfig(repos: seq<Repo>, commit: bool, jobs: int) returns (ending: Ending)
      requires log == [] && forall repo :: repo in repos ==> Known(repo)
      modifies this
      ensures ending.NoPool? <==> jobs < 1 && repos != []
      ensures IsGlobalRun(log, |repos|, ending) && WrittenIfAccepted(old(texts), Ordered(repos), ending)
      ensures ending.WriteRaised? ==> commit
      ensures ending.Reported? ==>
        Aligned(ending.report.preview.results, Ordered(repos))
        && (ending.report.write.Some? <==> commit && repos != [] && ending.report.preview.Ok())
      ensures ending.Reported? && ending.report.write.Some? && ending.report.write.value.Ok() ==>
        ending.report.reconcile.Some? && Aligned(ending.report.reconcile.value.results, Ordered(repos))
    {
      OrderedMembers(repos);
      var ordered := Ordered(repos);
      var previewResults := [];
      if ordered != [] {
        if jobs < 1 {
          return NoPool;
        }
        previewResults := RunAll(ordered, PREVIEW_GLOBAL);
      }
      var preview := FleetReport(ordered, previewResults);
      assert log[0..] == log && log[..|ordered|] == log;
      if !commit || !preview.Ok() || ordered == [] {
        return Reported(GlobalReport(preview, None, None));
      }
      ending := WriteOnce(ordered, preview);
    }

    /** `execute_repo_config`: one change per repository; the global layer stays as it is. */
    method ExecuteRepoConfig(repos: seq<Repo>, commit: bool, jobs: int) returns (report: Option<FleetReport>)
      requires log == [] && forall repo :: repo in repos ==> Known(repo)
      modifies this
      ensures report.None? <==> jobs < 1
      ensures GlobalText() == old(GlobalText()) && (!commit ==> texts == old(texts))
      ensures report.Some? ==> Aligned(report.value.results, Ordered(repos))
      ensures report.Some? ==> IsBatch(log, ConfigSet(commit, false, false), report.value.results)
    {
      if jobs < 1 {
        return None;
      }
      OrderedMembers(repos);
      var ordered := Ordered(repos);
      if ordered == [] {
        return Some(FleetReport([], []));
      }
      var results := RunAll(ordered, ConfigSet(commit, false, false));
      assert log[0..] == log;
      return Some(FleetReport(ordered, results));
    }
  }

  lemma OrderedMembers(repos: seq<Repo>)
    ensures |Ordered(repos)| == |repos| && forall r :: r in Ordered(repos) ==> r in repos
  {
    SortSorts(RepoKey, repos);
    forall r | r in Ordered(repos) ensures r in repos {
      assert r in multiset(Ordered(repos));
      assert r in multiset(repos);
    }
  }

  // ---- what the logs say ----

  /** A batch leaves no repository out. */
  lemma BatchCoversAll(events: seq<Event>, command: Command, results: seq<FleetResult>, i: nat)
    requires IsBatch(events, command, results) && i < |results|
    ensures Ran(i, command, results[i].exitCode) in events
  {
    var n := |results|;
    var seen := Indices(events, n);
    IndicesCount(events, command, results, n);
    SubsetOfSameSize(seen, Below(n));
    IndicesMember(events, n, i);
    var k: nat :| k < n && events[k].index == i;
    assert IsReported(events[k], command, results);
    assert events[k] == Ran(i, command, results[i].exitCode);
  }

  /** The repositories of the first `m` events. */
  function Indices(events: seq<Event>, m: nat): set<nat>
    requires m <= |events|
  {
    if m == 0 then {} else Indices(events, m - 1) + {events[m - 1].index}
  }

  lemma {:induction false} IndicesMember(events: seq<Event>, m: nat, i: nat)
    requires m <= |events|
    ensures i in Indices(events, m) <==> exists k: nat :: k < m && events[k].index == i
  {
    if m > 0 {
      IndicesMember(events, m - 1, i);
    }
  }

  lemma {:induction false} IndicesCount(events: seq<Event>, command: Command, results: seq<FleetResult>, m: nat)
    requires IsBatch(events, command, results) && m <= |events|
    ensures |Indices(events, m)| == m && Indices(events, m) <= Below(|results|)
  {
    if m > 0 {
      IndicesCount(events, command, results, m - 1);
      assert IsReported(events[m - 1], command, results);
      IndicesMember(events, m - 1, events[m - 1].index);
    }
  }

  lemma SubsetOfSameSize(x: set<nat>, y: set<nat>)
    requires x <= y && |x| == |y|
    ensures x == y
  {
    assert y == x + (y - x);
  }

  /** The commands of a global change by position. */
  lemma CommandAt(log: seq<Event>, n: nat, ending: Ending, i: nat)
    requires IsGlobalRun(log, n, ending) && i < |log|
    ensures log[i].command == if i < n then PREVIEW_GLOBAL else if i == n then WRITE_GLOBAL else Apply
  {
    var preview := PreviewOf(ending);
    if i < n {
      assert log[..n][i] == log[i];
      assert IsReported(log[..n][i], PREVIEW_GLOBAL, preview.results);
    } else if i > n {
      var r := ending.report.reconcile.value;
      assert log[n + 1..][i - n - 1] == log[i];
      assert IsReported(log[n + 1..][i - n - 1], Apply, r.results);
    }
  }

  /** In every global change at most one command writes the global layer, and every repository's preview succeeded before. */
  lemma WrittenAtMostOnce(log: seq<Event>, n: nat, ending: Ending, i: nat)
    requires IsGlobalRun(log, n, ending) && i < |log| && WritesGlobal(log[i].command)
    ensures i == n && forall r: nat :: r < n ==> Ran(r, PREVIEW_GLOBAL, 0) in log[..i]
  {
    CommandAt(log, n, ending, i);
    var preview := PreviewOf(ending);
    forall r: nat | r < n ensures Ran(r, PREVIEW_GLOBAL, 0) in log[..n] {
      BatchCoversAll(log[..n], PREVIEW_GLOBAL, preview.results, r);
      assert preview.results[r].Ok();
    }
  }

  /** A repository is reconciled only after the one write, which reconciles nothing, succeeded, and then every repository is. */
  lemma ReconciledAfterWrite(log: seq<Event>, n: nat, ending: Ending, i: nat)
    requires IsGlobalRun(log, n, ending) && i < |log| && Reconciles(log[i].command)
    ensures i > n && WritesGlobal(log[n].command) && !Reconciles(log[n].command) && log[n].index == log[n].exitCode == 0
    ensures ending.Reported? && ending.report.reconcile.Some? && |ending.report.reconcile.value.results| == n
    ensures forall r: nat :: r < n ==> Ran(r, Apply, ending.report.reconcile.value.results[r].exitCode) in log[n + 1..]
  {
    CommandAt(log, n, ending, i);
    forall r: nat | r < n ensures Ran(r, Apply, ending.report.reconcile.value.results[r].exitCode) in log[n + 1..] {
      BatchCoversAll(log[n + 1..], Apply, ending.report.reconcile.value.results, r);
    }
  }

  /** The results are listed by path, and those of one path by id. */
  lemma ResultsAscend(results: seq<FleetResult>, repos: seq<Repo>, i: nat, j: nat)
    requires Aligned(results, Ordered(repos)) && i < j < |results|
    ensures var x, y := results[i].repo, results[j].repo;
      if x.path == y.path then x.id <= y.id || Smaller(x.id, y.id) else x.path <= y.path || Smaller(x.path, y.path)
  {
    SortSorts(RepoKey, repos);
    var x, y := results[i].repo, results[j].repo;
    assert KeyLe(RepoKey(x), RepoKey(y));
    KeyOfTwo(x.path, x.id, y.path, y.id);
    StringLeMeans(x.path, y.path);
    StringLeMeans(x.id, y.id);
  }

  lemma KeyOfTwo(p: string, a: string, q: string, b: string)
    ensures KeyLe([p, a], [q, b]) <==> if p == q then StringLe(a, b) else StringLe(p, q)
  {
    var x, y := [p, a], [q, b];
    assert x[1..] == [a] && y[1..] == [b];
    KeyOfOne(a, b);
  }

  lemma KeyOfOne(a: string, b: string)
    ensures KeyLe([a], [b]) <==> StringLe(a, b)
  {
    var x, y := [a], [b];
    assert x[1..] == [] && y[1..] == [];
    assert KeyLe(x, y) <==> if x[0] == y[0] then KeyLe(x[1..], y[1..]) else StringLe(x[0], y[0]);
    StringLeTotal(a, b);
  }

  /** The order of the results does not depend on the order in which the registry lists the repositories. */
  lemma OrderIsCanonical(a: seq<Repo>, b: seq<Repo>)
    requires multiset(a) == multiset(b)
    requires forall x, y :: x in a && y in a && x.path == y.path && x.id == y.id ==> x == y
    ensures Ordered(a) == Ordered(b)
  {
    assert Separates(RepoKey, a);
    SortForgetsOrder(RepoKey, a, b);
  }
}
