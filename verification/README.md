# Verified models of rig

rig provisions repositories from a declarative configuration. These Dafny modules model the parts of
rig whose correctness is not visible from a single function body, and prove what each part is for:

| modules | what they model |
|---|---|
| `EditDistance` | the two-row edit distance and the "did you mean" suggestion |
| `Pep440`, `Regex`, `VersionGate`, `VersionAgreement`, `VersionNumbers` | PEP 440 spellings and order, the hand-written gate on the installed `textual` version, their agreement, and the verdict on versions written from numbers |
| `JsonSchema`, `ConfigSchema`, `SchemaPointers`, `PointerNames` | draft-07 validation, the compiler from the `Leaf`/`Block` registry to JSON Schema, pointers into its output |
| `CodexFiles`, `CodexUpdate`, `Places` | a file system with symlinks, the snapshot and rollback of the guarded Codex update |
| `ApplyJobs`, `ApplyThreads`, `ApplyJobStoreObjects`, `PlanFingerprints` | the apply-job protocol as a transition system, the mutable store, job and thread body that run it, and what a plan's fingerprint tells apart |
| `ConfigTree`, `ConfigLoad`, `ConfigEdit` | dotted paths and merging, the two-layer cascade with provenance, the two transactional edits |
| `LinterPaths` | repository-relative linter targets |
| `Fleet` | preflight everywhere, write once, reconcile everywhere |
| `Ruleset` | the managed branch ruleset and its normal form |
| `AuthGate` | the notify-then-poll login gate with per-run deduplication |
| `Text`, `Ordering` | splitting, joining and stripping text; stable sorting by a key |

Code that updates state (the job store, the files on disk, the configuration document, the gate's set of
kinds) is modelled by classes and loops that are proved against specification functions; the main results
are lemmas about those specifications. Everything outside rig (commands, clocks, other processes, the
updater, file writes that stop half-way) is an arbitrary choice, so each result holds for every behaviour
of the outside world.

Four promises hold only in part; each has its exact boundary, as an equivalence, and failing families:

- `did_you_mean` may stay silent although a candidate is within its own tolerance, because the tolerance
  is that of the nearest candidate only. For a typed name this can happen exactly when it has two to six
  characters (`SilenceIsExact`, `SilenceCanHideACloseName`).
- A fingerprint digests action keys whose fields are joined by bars without escaping. It stands for one plan
  exactly when every key can be cut in one way only (`FingerprintIsExact`); otherwise an apply that is
  accepted may run other actions than the previewed ones (`AmbiguousPreviewMisleads`).
- A schema pointer copies names without the escaping of RFC 6901. It resolves to the node it is meant for
  exactly when its names are free of `/`, `~0` and `~1` (`NamesResolveExactly`, `UnescapedNameDangles`);
  `RawPropertiesDecide` and `ScopeBlockDangles` show what raw `properties` keywords and a block named `scope`
  do to it.
- The ruleset's normal form forgets the order of rules exactly when rules of one type agree
  (`OrderIsForgotten`); the desired rules have distinct types (`DesiredRulesMeetOptions`).

Merging is not associative, and nothing promises that it is: the loader folds at most two layers from the
left. `GroupingIsExact` tells which layers may be grouped either way.

## Model

| member | source | states |
|---|---|---|
| EditDistance.Levenshtein | riglib/errors.py:146-160 | the two-row loop returns the length of a shortest script of insertions, deletions and substitutions: some script attains it and none is shorter |
| EditDistance.ShortestScript | riglib/errors.py:146-160 | a script of the computed length turns one string into the other |
| EditDistance.NoShorterScript | riglib/errors.py:146-160 | no script that turns one string into the other is shorter than the computed length |
| EditDistance.ShortestIsMetric | riglib/errors.py:146-160 | the distance is zero exactly for equal strings, symmetric and satisfies the triangle inequality |
| EditDistance.ThresholdRounds | riglib/errors.py:163-177 | the integer tolerance is the value of `round(0.4 * n)`, which never meets a half |
| EditDistance.DidYouMean | riglib/errors.py:163-177 | the suggestion is the nearest candidate, ties by text, or nothing when that one is beyond its tolerance |
| Ordering.StringLeMeans | riglib/errors.py:163-177 | the order that breaks ties is decided by the first differing character, and a prefix comes first |
| EditDistance.SuggestionUnique | riglib/errors.py:163-177 | the suggestion depends on the set of candidates alone, not on an iteration order |
| EditDistance.SilenceIsExact | riglib/errors.py:163-177 | for a typed name, silence means that no candidate is within its own tolerance, whatever the candidates, exactly when the name has at most one or at least seven characters |
| EditDistance.SilenceIsJustified | riglib/errors.py:163-177 | without a suggestion, a candidate within its own tolerance makes a longer pair than the nearest one |
| EditDistance.SilenceCanHideACloseName | riglib/errors.py:163-177 | the failing family: for every name of two to six characters, two candidates of which one is within its own tolerance and none is suggested |
| VersionAgreement.GateAgrees | riglib/doctor.py:256-355 | an ASCII version text passes the gate exactly when it spells, within surrounding whitespace, a PEP 440 version that is at least 0.66 in the full PEP 440 order and whose numbers Python converts; malformed text never passes |
| VersionAgreement.SpellingsAgree | riglib/doctor.py:256-355 | however a text is read as a version, the verdict is the same |
| VersionAgreement.SuffixHead | riglib/doctor.py:145-167 | the start of a suffix decides whether it is a pre-release, a development release, a post-release or plain |
| VersionAgreement.SuffixVerdict | riglib/doctor.py:335-352 | whatever groups the matcher picks for a suffix, the verdict is that of a pre-release or a development release of the version |
| VersionAgreement.ReleaseVerdict | riglib/doctor.py:323-355 | comparing padded releases and looking at the suffix decides the order against the floor |
| VersionAgreement.PaddedOrder | riglib/doctor.py:330-345 | comparing releases padded with zeros is comparing them without trailing zeros, as PEP 440 does |
| VersionAgreement.AtFloorIsOrder | riglib/doctor.py:136 | comparing with the key of the floor is comparing with the version `0.66` |
| VersionAgreement.ReadVersion | riglib/doctor.py:256-355 | a spelled version passes exactly when its numbers convert and it is at or above the floor |
| VersionAgreement.ReadBack | riglib/doctor.py:256-355 | every text that passes is the spelling of a valid version |
| VersionNumbers.ValueOfDecimal | riglib/doctor.py:318 | the number read from the decimal notation of `n`, most significant digit first, is `n` |
| VersionNumbers.GateOnNumbers | riglib/doctor.py:256-355 | the verdict on every version written from numbers, with leading zeros, an epoch and a candidate, post-release or development ending: too old exactly when a number is too long to convert, or the epoch is absent or zero and the numbers are below 0.66 or, for a candidate or a development release, equal to it |
| VersionNumbers.GateOnTwoNumbers | riglib/doctor.py:256-355 | `a.b` is too old exactly when `a` is 0 and `b` is below 66 |
| VersionGate.MarkerOf | riglib/doctor.py:145-167 | what the pre and dev patterns match is exactly a PEP 440 marker |
| VersionGate.PostOfText | riglib/doctor.py:145-167 | what the post pattern matches is exactly a PEP 440 post-release |
| VersionGate.LocalOfText | riglib/doctor.py:145-167 | what the local pattern matches is exactly a PEP 440 local label |
| ConfigSchema.ToNode | riglib/config_schema.py:181-211 | filling the node one child at a time, in any order, yields the compiled block |
| ConfigSchema.LeafNodeMeans | riglib/config_schema.py:108-134 | the compiled leaf accepts a document exactly when the fields of the leaf do |
| ConfigSchema.BlockNodeMeans | riglib/config_schema.py:181-211 | the compiled block accepts a document exactly when the descriptors read directly do, for every tree and document |
| SchemaPointers.JsonSchemaDocument | riglib/config_schema.py:1218-1242 | the accumulated document is the compiled registry with the marked `mode`, be it a block or a leaf, the tolerated `scope` and the fixed keywords |
| SchemaPointers.DocumentMeans | riglib/config_schema.py:1218-1242 | the emitted document accepts exactly the mappings whose keys are registered and accepted by their descriptor, or a string `scope` |
| SchemaPointers.SchemaPointerFor | riglib/config_schema.py:1245-1281 | the loop over the segments returns the pointer of the deepest registered node |
| SchemaPointers.NamesAreRead | riglib/config_schema.py:1245-1281 | splitting and unescaping a pointer, by section 4 of RFC 6901, gives back the names it was made of exactly when every name is free of `/`, `~0` and `~1` |
| SchemaPointers.StrictNames | riglib/config_schema.py:1245-1281 | for a reader that also enforces the syntax of section 3 of RFC 6901, those are exactly the names without `/` and `~` |
| PointerNames.NamesResolveExactly | riglib/config_schema.py:1245-1281 | pointers made of a list of names resolve to the node they are meant for, in every registry without raw `properties` and `scope` entries that has these names, exactly when all of them are free of `/`, `~0` and `~1` |
| SchemaPointers.PointerResolves | riglib/config_schema.py:1245-1281 | a pointer exists exactly for a registered top name, and where it can carry its names it resolves to the node of the deepest registered segment |
| SchemaPointers.UnescapedNameDangles | riglib/config_schema.py:1245-1281 | in every registry, the pointer to a top-level leaf whose name it cannot carry resolves to nothing, unless what is read for the name is a top-level name as well |
| SchemaPointers.RawPropertiesDecide | riglib/config_schema.py:204-211 | once the walk enters a block with a raw `properties` keyword, however deep, the rest of the pointer is looked up in the raw value, and resolves to nothing when that is an object without the next name |
| SchemaPointers.ScopeBlockDangles | riglib/config_schema.py:1229-1232 | every pointer into a block named `scope` resolves to nothing |
| SchemaPointers.BlockChildKeys | riglib/config_schema.py:1284-1305 | the loop over the segments returns the keys of the block there, or nothing |
| SchemaPointers.KeysOfPath | riglib/config_schema.py:1284-1305 | a path of any depth has keys exactly when its names lead from a registered block to block after block, through nested blocks or the items of open maps, and they are those of the last one |
| SchemaPointers.ChildKeysAreProperties | riglib/config_schema.py:1284-1305 | for block paths of any names, the keys are exactly the property names of the emitted node there |
| SchemaPointers.OwnKeysAreProperties | riglib/config_schema.py:175-211 | the keys of a block are the property names of its own node exactly when no raw keyword says otherwise |
| SchemaPointers.HiddenBlockHasNoProperties | riglib/config_schema.py:1293-1304 | a nested block behind an open map of the same name without an item has keys, while the emitted node has no properties |
| SchemaPointers.ScopeBlockHasNoProperties | riglib/config_schema.py:1229-1232 | a block named `scope` has no published properties |
| CodexFiles.ChainUnique | riglib/codex_update.py:339-353 | a path has at most one chain of links and one end |
| CodexFiles.FollowMeans | riglib/codex_update.py:339-353 | a link with a relative target leads on from its own directory, each `..` one directory up and past the root to the root, and one with an absolute target from the root |
| CodexFiles.LoopHasNoChain | riglib/codex_update.py:339-353 | meeting a link twice means that the path leads nowhere |
| CodexFiles.RestoredRuns | riglib/codex_update.py:226-236 | whatever the files were, after a restore the recorded chain leads from the path to the saved bytes and nothing off the chain differs |
| CodexFiles.PartlyRestoredRuns | riglib/codex_update.py:329-336 | whatever else the tree holds, with the file and the links from some hop on in place, these links lead to the saved bytes |
| CodexUpdate.Machine.ReadSymlinkChain | riglib/codex_update.py:339-353 | returns the chain of links from the path, and fails exactly when there is none |
| CodexUpdate.Machine.SnapshotCurrentCodex | riglib/codex_update.py:198-223 | a snapshot records the chain, and its backup holds the bytes the path runs; nothing else changes |
| CodexUpdate.Machine.RestoreBinaryAtPath | riglib/codex_update.py:356-365 | success replaces the target by the backup and leaves no temporary, not even one left over by an earlier run; failure touches the target and its temporary only; a leftover link under the temporary name takes the target's place instead |
| CodexUpdate.Machine.LeftoverLinkBreaks | riglib/codex_update.py:356-365 | if that leftover link leads to the target, the target ends up as a link to itself and runs nothing |
| CodexUpdate.Machine.ReplaceSymlink | riglib/codex_update.py:368-382 | success makes the link point at its target and leaves no temporary; failure touches the link and its temporary only |
| CodexUpdate.Machine.RestoreLinks | riglib/codex_update.py:329-336 | the reversed loop relinks the whole recorded chain and leaves no temporary; wherever it breaks off, the links from some hop on lead to the saved bytes and the hops before the one it was working on are untouched |
| CodexUpdate.Machine.RestoreSnapshot | riglib/codex_update.py:226-236 | a successful restore is exactly the restored tree without temporaries; a failed one touched only the chain, the binary and their temporaries, the links from some hop on run the saved bytes and those before the hop it was working on are as they were; it fails only because a file operation failed or the backup is gone |
| CodexUpdate.Machine.ProbeCodex | riglib/codex_update.py:103-121 | runs the version, help and completion probes in order on the bytes the path runs and stops at the first failure; healthy exactly when three commands ran and each ended in time, with exit code 0, and printed some character that is no whitespace |
| CodexUpdate.ProbingVerdict | riglib/codex_update.py:103-121 | in every log, a session is healthy exactly when all three commands answered so; otherwise the last command that ran is the first that did not |
| CodexUpdate.Machine.RollbackResult | riglib/codex_update.py:239-278 | never "updated"; "rolled back" exactly after a restore and three passed probes, with the exit code of the failed update |
| CodexUpdate.RunMeans | riglib/codex_update.py:123-195 | in every run the updater runs at most once, after a healthy session and a completed backup of the probed bytes; exit code 0 exactly with "updated"; "updated" ends with three commands that answered well, "rolled back" with three that answered well on the bytes that ran before |
| CodexUpdate.OutcomeIsForced | riglib/codex_update.py:123-195 | what happened (probe answers, backup, exit code of the updater, restore) leaves one possible outcome and exit code |
| CodexUpdate.Machine.SafeUpdate | riglib/codex_update.py:123-195 | every run follows the protocol that `RunMeans` describes, with that outcome; "updated" means that the three commands answered well on the final bytes; "rolled back" means that the whole chain and its bytes are back; without a run of the updater only the backup was added; a backup or a restore fails only because a file operation failed |
| ApplyJobs.KeysAreUnique | riglib/config_web_plan.py:254-263 | succeeds exactly when no two actions share a key |
| ApplyJobs.StepInv | riglib/config_web_plan.py:407-519 | every start, thread step and poll keeps the store's invariant |
| ApplyJobs.RunInv | riglib/config_web_plan.py:407-519 | every interleaving keeps the store's invariant |
| ApplyJobs.StoreSafety | riglib/config_web_plan.py:407-483 | in every run at most one job ever created is unfinished, it is retained, the order lists the retained jobs once each, and at most 20 are retained |
| ApplyJobs.EvictAppended | riglib/config_web_plan.py:407-413 | eviction after a start keeps the new job, adds none and meets the bound |
| ApplyJobs.StepMovesForward | riglib/config_web_plan.py:485-496 | a row only moves from queued over running to a result, and a skipped row never moves |
| ApplyJobs.ResultIsFinal | riglib/config_web_plan.py:485-519 | a row with a result never changes again in any continuation |
| ApplyJobs.DoneMeansApplied | riglib/config_web_plan.py:496-519 | done without an error means that the unskipped actions ran in plan order, every selected row has a non-error result and every skipped row is untouched |
| ApplyJobs.PlanOrderIsUnique | riglib/config_web_plan.py:460 | the selected actions are those at the strictly ascending positions of all unskipped keys in the plan, and nothing else is |
| ApplyJobs.StartDecides | riglib/config_web_plan.py:415-483 | a start queues a job exactly when every job is done, a configuration is declared, keys are unique, the echoed fingerprint is that of the plan and every skipped key is one of it; any other start changes nothing |
| ApplyJobs.AcceptedRunsThePreview | riglib/config_web_plan.py:431-483 | for every plan, an accepted start runs, at strictly ascending positions of the previewed plan and at all whose key is not skipped, actions that agree with the previewed ones there in everything that is digested, and skips only previewed keys |
| PlanFingerprints.FingerprintIsExact | riglib/config_web_plan.py:187-226 | among plans with unique keys, only the plan itself has its fingerprint exactly when the keys of its actions can be cut into fields in one way only |
| PlanFingerprints.PayloadIsExact | riglib/config_web_plan.py:187-226 | the same for one action: kind, category and item hold no bar, and the descriptor between bars does not occur again behind them |
| PlanFingerprints.AcceptedRunsTheActions | riglib/config_web_plan.py:431-483 | if the previewed keys are unambiguous, an accepted start runs the previewed plan: at strictly ascending positions, exactly the actions whose key is not skipped |
| PlanFingerprints.AmbiguousPreviewMisleads | riglib/config_web_plan.py:431-483 | for every preview with an ambiguous key, some start with its fingerprint is accepted and runs other actions |
| ApplyJobStoreObjects.ApplyJob.Body | riglib/config_web_plan.py:496-514 | whatever the runner reports and wherever it breaks off, the reported rows get their results, no other row but a started one changes, the job finishes, and it has an error exactly when the runner crashed or a result is an error |
| ApplyJobStoreObjects.ApplyJob.Run | riglib/config_web_plan.py:485-514 | the body is a run of the thread steps of the transition system: the object shows the job before and after them |
| ApplyJobStoreObjects.ApplyJobStore.RunJob | riglib/config_web_plan.py:485-519 | seen through the store, the background thread of a started job is a run of the transition system from the state that the store represents |
| ApplyThreads.CleanRunApplied | riglib/config_web_plan.py:485-514 | after a run without an error every selected row has its own non-error result and every skipped row is untouched |
| ApplyJobStoreObjects.ApplyJobStore.EvictIfOverCapacity | riglib/config_web_plan.py:407-413 | the loop drops the oldest jobs that the specification drops and no object changes |
| ApplyJobStoreObjects.ApplyJobStore.Start | riglib/config_web_plan.py:415-519 | the start step of the transition system: a store that represents a state comes to represent its successor, with the outcome that the checks give; an accepted start returns the unskipped actions in plan order; a refused one changes nothing |
| ApplyJobStoreObjects.ApplyJobStore.Get | riglib/config_web_plan.py:521-522 | a poll finds exactly the retained jobs and shows their rows, error and end |
| ConfigTree.CanonicalPath | riglib/config.py:255-272 | the segments of a path, joined again, are read as the same path |
| ConfigTree.GetPath | riglib/config.py:275-290 | the loop over the segments is the lookup, and an unreadable path is absent |
| ConfigTree.DeepMerge | riglib/config.py:381-389 | updating a copy key by key yields the recursive merge |
| ConfigTree.MergeLookup | riglib/config.py:381-389 | a lookup in a merged tree is decided by the over-layer wherever it declares the path or breaks a mapping above it, and by the base otherwise |
| ConfigTree.MergeEmpty | riglib/config.py:381-389 | the empty layer is a two-sided identity |
| ConfigTree.MergeIdempotent | riglib/config.py:381-389 | merging a tree with itself changes nothing |
| ConfigTree.MergeAgain | riglib/config.py:381-389 | applying the last layer again changes nothing |
| ConfigTree.GroupingIsExact | riglib/config.py:381-389 | three layers may be grouped either way exactly when, wherever the middle one replaces a mapping of the first and the last one a mapping again, the last declares all that the first did |
| ConfigTree.CoveringWins | riglib/config.py:381-389 | merging a layer over another yields just that layer exactly when it declares again, or cuts off, every path below |
| ConfigTree.MergeIsNotAssociative | riglib/config.py:381-389 | the witness: mapping, scalar, mapping |
| ConfigTree.PutFails | riglib/config.py:293-310 | setting a path fails exactly when a proper prefix of it is a non-mapping |
| ConfigTree.PutIsMerge | riglib/config.py:293-310 | setting a path to a value that is not a mapping is merging the one-path tree |
| ConfigTree.PutReads | riglib/config.py:275-310 | the value set is the value read |
| ConfigTree.PutIsLocal | riglib/config.py:293-310 | every path that is neither a prefix nor an extension reads as before |
| ConfigTree.SameBesideIsSame | riglib/config.py:293-310 | the value at one path and the lookups beside it leave no freedom: what an edit is said to keep and to set determines the whole tree |
| ConfigTree.ConfigDocument.SetPath | riglib/config.py:293-310 | the walk in place either sets the path or leaves the tree unchanged, and fails exactly on an unreadable or blocked path |
| ConfigLoad.Cascade.MergeLayer | riglib/config.py:489-508 | reads one present layer and folds it over the earlier ones, or fails with that layer's error |
| ConfigLoad.Cascade.Load | riglib/config.py:463-541 | what the two files say decides: every lookup outside `scope` is that of the repository (or `--config`) file where it declares the path or breaks a mapping above it, and that of the global file otherwise, with a file that is left out or absent saying nothing; a top-level key is attributed to the repository file exactly when that declares it, else to the global one; the files read are listed in order; the errors and their order; the result is also the validated left fold of the layers |
| ConfigLoad.FilesDecide | riglib/config.py:463-541 | the reading by files and the fold of the layers have the same one result, for every request |
| ConfigLoad.LoadIsUnique | riglib/config.py:463-541 | that specification has exactly one result |
| ConfigLoad.KeyIsResponsible | riglib/config.py:487-541 | the attributed layer declares the key, no later one does, and the layers up to it already give the final value |
| ConfigLoad.SourceIsResponsible | riglib/config.py:446-460 | the reported source of a dotted key is the responsible layer, and the primary path exactly for an undeclared key |
| ConfigLoad.SourceOfFiles | riglib/config.py:446-460 | the file named for a setting is the repository file where that declares the first segment of the key, else the global file where that does, else the fallback |
| ConfigEdit.DiskIsMemory | riglib/cli.py:2884-2977 | with a faithful serializer, the gates say the same of a written layer and of the same layer overridden in memory |
| ConfigEdit.CliEditDecides | riglib/cli.py:2839-2911 | the command line takes an edit to its gates exactly when the path is readable, outside `scope` and not global-only without `--global`, the value can be coerced, an edited repository layer exists, the file can be read and has nothing but mappings above the path, and the file with that one path set is valid; that file is unique |
| ConfigEdit.GatesMean | riglib/cli.py:2912-2926 | the gates let a layer pass exactly when the two files with it in place load and can be planned, and a global layer is valid alone and, where it pins a source, can be planned alone |
| ConfigEdit.WebRefinesCli | riglib/config_web.py:335-418 | with the repository layer included, the console accepts exactly the edits of registered keys that the command line, with all its guards, accepts for the layer owning the key, and both write the same layer |
| ConfigEdit.ScopePathIsCategory | riglib/cli.py:2879-2882 | the textual test for `scope` is a test of the first segment |
| ConfigEdit.GlobalTabIgnoresTheRepo | riglib/config_web.py:447-468 | without the repository layer, the console accepts a global key exactly when it is registered and the command line accepts it with `--global` in a repository without that layer |
| ConfigEdit.ConfigFiles.Rollback | riglib/config_web.py:384-388 | a restore that succeeds puts the original text back, or removes the file that was not there |
| ConfigEdit.ConfigFiles.ApplyEdit | riglib/config_web.py:301-418 | looks the key up in the registry and edits the layer that owns it; success means accepted, and that the owning file now reads the coerced value at the path, reads as before at every path beside it, and has lost `scope`; a rejection means not accepted and every file as before; on any failure, even a half-finished write, a restore that succeeds puts every file back; the other layer is never touched; an I/O error, also of the restore, needs a failed file operation |
| ConfigEdit.ConfigFiles.ConfigSet | riglib/cli.py:2839-2977 | success means committed, accepted, and, with a faithful serializer, that the file of the layer now reads the coerced value at the path, reads as before at every path beside it, and has lost `scope`; a rejection means not accepted; without commit no file changes; a failed write that is restored changes no file; an I/O error needs a failed file operation |
| ConfigEdit.ConfigFiles.HandleEdit | riglib/config_web.py:1084-1141 | the global tab refuses a repository-owned key and touches the global file at most; a success, on either tab, is an edit the command line accepts, with the same final file, which reads the coerced value at the path and reads as before beside it, without `scope`; a rejection of a registered key is one it does not accept |
| LinterPaths.AcceptedStaysInside | riglib/config.py:1676-1716 | whichever drives the Python version knows, an accepted path, walked component by component from any root, never leaves the root, passes through no `.git` and ends strictly below |
| LinterPaths.RefusedForAReason | riglib/config.py:1676-1716 | a refused path without `..` is empty, absolute, has a drive or a backslash, is the root itself or passes through a `.git` |
| LinterPaths.GitInAnyCase | riglib/config.py:1676-1716 | the git directory is recognized in every casing, and no other name is |
| LinterPaths.PosixIsPlace | riglib/config.py:1859-1871 | accepted paths have the same normal text exactly when they lead to the same place |
| LinterPaths.ValidateItems | riglib/config.py:1786-1871 | the loop accepts exactly when every item is in order and enabled items lead to pairwise different places |
| Fleet.World.RunAll | riglib/fleet.py:131-189 | for every completion order each repository runs the command once, and result `i` belongs to repository `i` and carries the exit code of its command |
| Fleet.World.RunConfigSet | riglib/fleet_config.py:83-130 | `config set` in a repository does what the command line does, also when it is killed: a preview changes no file, and exit code 0 means accepted and, for a writing command, exactly the edited layer on disk |
| Fleet.World.ExecuteGlobalConfig | riglib/fleet_config.py:185-255 | every log is: preview everywhere; at most one write, only with commit and only after every preview succeeded; reconcile everywhere, only after the write succeeded. The files are as before, or every selected repository had accepted the setting on them and only the global file was written; also when the writing command raises |
| Fleet.World.EveryRepositoryPasses | riglib/fleet_config.py:185-255 | what the preflight is for: after a successful write, the files on disk pass the gates of every selected repository that differs from the writing one in its own file and its plan only |
| Fleet.World.ExecuteRepoConfig | riglib/fleet_config.py:133-182 | each repository runs its command once, results are aligned, the global file is never written, and without commit no file is |
| Fleet.BatchCoversAll | riglib/fleet.py:131-189 | a batch runs the command in every repository |
| Fleet.WrittenAtMostOnce | riglib/fleet_config.py:185-255 | a writing command has one position in the log, after a preview with exit code 0 in every repository |
| Fleet.ReconciledAfterWrite | riglib/fleet_config.py:185-255 | a command that reconciles comes after the one write, which has exit code 0 and itself reconciles nothing, and then every repository is reconciled |
| Fleet.OrderIsCanonical | riglib/fleet.py:131-189 | the order of results depends only on which repositories were selected |
| Fleet.ResultsAscend | riglib/fleet.py:131-189 | results are listed by path and, for one path, by id: the smaller character decides where two texts first differ, and a prefix comes first |
| Ruleset.DesiredRulesMeetOptions | riglib/github_ruleset.py:120-167 | a rule type is present exactly when its knob is on, at most once, with the parameters that the options name |
| Ruleset.BuildRulesetRules | riglib/github_ruleset.py:120-167 | the branches yield a list of which that holds |
| Ruleset.DesiredRulesAreSafe | riglib/github_ruleset.py:120-167 | no options yield two rules of one type or an `update` rule |
| Ruleset.BuildRulesetBody | riglib/github_ruleset.py:170-195 | the body is active on the default branch only, with the repository role 5 as the one actor that may always bypass exactly when that is enabled, and its rules are those the options ask for, each once |
| Ruleset.NormalizeRuleset | riglib/github_ruleset.py:198-266 | the loop yields the normal form |
| Ruleset.NormalDecides | riglib/github_ruleset.py:198-266 | two rules normalize alike exactly when type and managed parameters agree, contexts in any order |
| Ruleset.ActorKeyDecides | riglib/github_ruleset.py:198-266 | two actors normalize alike exactly when type, id and bypass mode agree |
| Ruleset.NormalFormDecides | riglib/github_ruleset.py:198-283 | for distinct rule types, normal forms are equal exactly when everything managed agrees, whatever the order and the foreign fields |
| Ruleset.OrderIsForgotten | riglib/github_ruleset.py:198-266 | the normal form of a list of rules is the same for every order of it exactly when rules of one type agree in what is managed |
| Ruleset.RepeatedTypeShowsOrder | riglib/github_ruleset.py:198-266 | the witness: two different rules of one type show their order, whatever other rules there are |
| AuthGate.Rounds | riglib/github_auth.py:237-268 | the least number of poll intervals that fills the budget |
| AuthGate.RememberedExactly | riglib/github_auth.py:47-57 | the remembered kinds are exactly those whose waiting timed out with no reset after it |
| AuthGate.Gate.Poll | riglib/github_auth.py:262-268 | ends for every budget; its log is rounds of a failing probe and a sleep, then a success or a failure and the giving up; at most the budget of requested sleep and one probe more than the rounds; a timeout means that the whole budget passed |
| AuthGate.PollLogMeans | riglib/github_auth.py:262-268 | polling ends well exactly when one of its probes succeeded, probes once more than it sleeps, and never sleeps longer than an interval at a time |
| AuthGate.Gate.WaitFor | riglib/github_auth.py:237-268 | a kind that timed out before costs nothing; otherwise one notice exactly with a budget, then polling |
| AuthGate.WaitedOutOnce | riglib/github_auth.py:40-57 | in the log of any sequence of calls, a kind that was waited out causes no notice, sleep or second timeout before the next reset |
| AuthGate.Gate.EnsureGhAuth | riglib/github_auth.py:175-207 | ok exactly when a probe succeeded, and then that probe was the last event; a login that is there has no side effect |
| AuthGate.Gate.EnsureBrowserAuth | riglib/github_auth.py:210-234 | the same for the browser, a present session without side effects included, and without a missing-tool outcome |
| AuthGate.Gate.Run | riglib/github_auth.py:40-57 | for each kind whose login does not appear in the run, at most one budget of sleep is requested, and none before its timeout, however many actions ask |

## Left out

- SchemaPointers.PointerResolves: stated where the pointer can carry its names (exactly those, see `NamesResolveExactly`) and neither a raw `properties` keyword nor a block named `scope` is on the way; a single pointer outside these cases may still resolve, by accident.
- SchemaPointers.ChildKeysAreProperties: stated where no raw `properties` keyword, no block named `scope` and no open map of the same name hides the block; each of these has its own lemma.
- ConfigEdit.WebRefinesCli: a registered key is taken to be written canonically and not to belong to `scope`, as the registry does.
- ConfigEdit.ConfigFiles.ConfigSet: the removal of a parent directory that a failed write created is not modelled, nor is the reconciliation that follows a committed write.
- CodexUpdate.Machine.RestoreSnapshot: with a leftover symlink under the temporary name of the binary nothing is promised, because nothing can be (`LeftoverLinkBreaks`).
- Fleet.World.RunConfigSet: `rig apply` and the reconciliation after `--commit` are taken to leave the configuration files alone; a command's exit code is arbitrary where it does not follow from what the command did.
- Ruleset.BuildRulesetRules: only well-typed options; the shape of a foreign body is fixed, and actor fields are modelled by their printed text.
- LinterPaths.ValidateItems: the `linters` block around the items (its flags, rules and bundles) is not modelled.
- LinterPaths.RefusedForAReason: a path with `..` is refused even where it would lead back inside.
- Version texts with non-ASCII characters, because case-insensitive matching admits some of them; finding the version text in the installed metadata.
- Case-insensitive `.git` and stripping cover ASCII text only.
- Floats and `coerce_scalar`; YAML parsing and printing (a faithful round trip is assumed), digests and identifiers (assumed injective and fresh).
- JSON Schema keywords that the registry does not emit; a raw keyword of a block is interpreted only when it is one of those modelled in `JsonSchema`.
- Validators of single configuration blocks, coercion of option values, plan building and the catalog: arbitrary functions and parameters.
- Directory symlinks, file modes and ownership; the updater is assumed to leave the backup alone and to put no symlink at a temporary name, and probes to leave files alone.
- The lock of the job store: each critical section is one step. Polls that read a job half-way through a section see the states between steps.
- The wording of messages, and the version text that a probe reports.
- HTTP serving, rendering, argument parsing, subprocess and signal handling; infinite budgets and intervals in the login gate.
