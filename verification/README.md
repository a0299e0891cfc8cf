# Verification of the launcher lock, the release checks and the evaluation harness

This project models six parts of the repository in Dafny and proves what each of them is for.
`dafny verify dfyconfig.toml` checks everything.

* **Single-instance lock** (`SingleInstanceProtocol.dfy`, `SingleInstanceRecovery.dfy`, `SingleInstanceLauncher.dfy`).
  Any number of launchers share one lock file and one guard file. The protocol is a state machine with one program
  counter per launcher and one step per file access; any launcher can crash at any step, pids are reused, and a `stat`
  may repeat an old version. The launcher is the imperative code itself, one method per file access, run against a
  world in which the other launchers move between any two of its own accesses. Every method of the launcher is tied to
  the protocol by a trace: the world is always the protocol run of what has happened so far.
* **Gmail query compiler** (`GmailQuery.dfy`, `GmailQueryCompiler.dfy`). Tokens, queries, a printer and a meaning; the
  imperative parser with its shared index and its list of conjunctions is proved against them.
* **Fault harness, fault adapter and simulated provider** (`FaultProfiles.dfy`, `FaultAdapters.dfy`,
  `StatefulProvider.dfy`). The stateful classes with their dictionaries; closed forms over whole runs.
* **Benchmark decisions** (`BenchmarkSelection.dfy`, `BenchmarkStatistics.dfy`, `BenchmarkSchedule.dfy`,
  `BenchmarkObserver.dfy`, `ProcessTree.dfy`). Pareto selection, percentile, Wilson interval, rotation schedule,
  in-flight observer, and the walk over the process tree.
* **Material extraction** (`FenceScanner.dfy`, `ExportMaterials.dfy`). The line scanner for code fences and the
  section bounds, for the bounded form of fences in section 4.5 of the CommonMark specification that the code reads.
* **Release manifest** (`ReleasePaths.dfy`, `ReleaseManifest.dfy`, `InstallationVerifier.dfy`,
  `ReleaseRoundTrip.dfy`). Generator and verifier are modelled separately, as they are written, and then together.

`Prelude.dfy` holds `Option` and `Result`, which stand for `None` and for raised exceptions; `Sorting.dfy` is `sorted`.

## Assumptions

* Lock: a process token names one incarnation, `process_identity` is exact, a dead incarnation never returns, and an
  unreleased lease is bound or released by its owner only.
* Harness: rule ids of a profile are distinct and ordinals and caps are positive, as the profile loader enforces.
* Release: the digest yields 64 lower-case hexadecimal digits, and no two different contents among the files of the
  two compared trees share a digest.
* Statistics: real numbers are exact, and the square root is the non-negative real whose square is the radicand.
* Schedule: a shuffle returns a permutation of the configurations.

## What the code does that its reader may not expect

* A launcher can be kept from acquiring for ever, and the condition is exact. In every reachable world some schedule
  leads to a lease for a launcher that does not exist yet, unless the lock is unusable and nobody is about to write
  it, or it is a dead incarnation's record that either has a bad process id or pipe name or stands under a guard that
  nobody holds (`NewcomerAcquiresExactlyUnlessStuck`; of any launcher, `AcquirableExactlyUnlessStuck`). So, once every
  launcher has stopped, recovery takes no lock at all, or a trusted record and no guard (`RecoversExactly`). A lock
  that was created and not written, because its launcher died or its write failed, is never replaced
  (`UnwrittenLockIsWedged`, `WedgedForEver`). A guard that is left behind, because its launcher died or failed to
  unlink it, blocks exactly while the lock names a dead incarnation (`LostGuardIsOrphaned`); with no lock it does not
  keep the next launcher out. In no case does a second launcher acquire beside a running one.
* A fault record says `effect_applied` is false although the provider was changed exactly when an outcome that needs
  the delegate's value runs it late and the write succeeds (`EffectFlagTruthful`, with such a profile in
  `EffectFlagCanLie`). `delegate_called` always says whether the write took effect (`DelegateFlagTracksEffect`), but
  about the call itself it is wrong exactly when such an outcome runs the delegate late and the write fails: the
  provider has logged a call that the record denies (`DelegateFlagTruthful`, with such a profile in
  `DelegateFlagCanLie`).
* The walk over the process tree ends exactly for roots that are not their own ancestors (`EndsUnlessOwnAncestor`); a
  process recorded as its own parent is not such a root, and the walk from it never ends (`SelfParentNeverEnds`).
* The generator lists files that the verifier never accepts: paths with a backslash or of more than 512 characters,
  more than 10 000 files, and root files named like those of the uninstaller (`BundleIsAccepted`, with two such
  bundles in `SomeBundlesAreRefused`).
* The trailing-token error of the query compiler cannot be raised (`CompileGmailQuery`).

## Model

| member | source | states |
|---|---|---|
| SingleInstanceProtocol.StepKeepsInv | launcher/acquire_single_instance.py:100-154 | every file access, spawn and crash of any launcher keeps: lock contents are genuine, each launcher's position is justified by the lock and the process table, and no two launchers are past the point of exclusion |
| SingleInstanceProtocol.RunKeepsInv | launcher/acquire_single_instance.py:100-234 | the same over every interleaving of any length |
| SingleInstanceProtocol.AdvanceMoves | launcher/acquire_single_instance.py:100-234 | each access changes only what a launcher in that position is entitled to change |
| SingleInstanceProtocol.AtMostOneLease | launcher/acquire_single_instance.py:100-154 | in every reachable state at most one running process holds an unreleased lease, and the lock file names it |
| SingleInstanceProtocol.UnlinkSparesTheLiving | launcher/acquire_single_instance.py:206-234 | whatever step takes the lock away is its running owner's release, or removes the record of a dead incarnation, although check and unlink are separate steps |
| SingleInstanceProtocol.OthersCannotTakeALease | launcher/acquire_single_instance.py:45-64 | no schedule of other launchers, crashes and new processes changes the lock or the state of a leaseholder, also while it binds or releases |
| SingleInstanceProtocol.TriesAreBounded | launcher/acquire_single_instance.py:100 | in every reachable state an acquisition has made at most the attempts it was allowed |
| SingleInstanceProtocol.DeferralIsTrustworthy | launcher/acquire_single_instance.py:108-129 | a launcher gives way only to a running process of its own user, and is given that user's pipe |
| SingleInstanceProtocol.WedgedForEver | launcher/acquire_single_instance.py:183-190 | an empty or malformed lock that nobody is still writing is never changed, and nobody ever acquires |
| SingleInstanceProtocol.OrphanedForEver | launcher/acquire_single_instance.py:214-219 | a guard that nobody holds any more keeps a dead incarnation's lock in place and every launcher out for ever |
| SingleInstanceRecovery.AcquirableExactlyUnlessStuck | launcher/acquire_single_instance.py:100-234 | in every reachable world, with any launchers running anywhere, a schedule that ends in an acquired lease exists if and only if the world is not stuck: no unusable lock without a writer, and no dead incarnation's record that is untrusted or under a guard nobody holds |
| SingleInstanceRecovery.NewcomerAcquiresExactlyUnlessStuck | launcher/acquire_single_instance.py:100-234 | in every reachable world, a launcher that does not exist yet can come to hold a lease, by some schedule, if and only if the world is not stuck |
| SingleInstanceRecovery.StepKeepsSettled | launcher/acquire_single_instance.py:100-234 | every access keeps: a running owner of the lock holds its lease, and nobody has got past reading an untrusted record |
| SingleInstanceRecovery.RecoversExactly | launcher/acquire_single_instance.py:100-234 | once every launcher has stopped, wherever each stood, a schedule that ends in an acquired lease exists if and only if there is no lock, or the lock is a trusted record and there is no guard |
| SingleInstanceRecovery.DistrustedForEver | launcher/acquire_single_instance.py:113-121 | a dead incarnation's record with a bad process id or pipe name is never changed, and nobody ever acquires |
| SingleInstanceRecovery.UnwrittenLockIsWedged | launcher/acquire_single_instance.py:140-145 | a launcher that dies before it writes the lock it created, or whose write fails, leaves a lock that refuses for ever |
| SingleInstanceRecovery.LostGuardIsOrphaned | launcher/acquire_single_instance.py:220-234 | a guard left by a death inside the guarded block, or by a failing unlink of the guard, orphans the lock if and only if the lock then names a dead incarnation |
| SingleInstanceLauncher.Launcher.AcquireSingleInstance | launcher/acquire_single_instance.py:67-154 | at most `max_attempts` tries in any environment; the outcome matches the state reached; an acquired lease makes this launcher the sole holder; undisturbed, the outcome and the lock left behind are determined for every lock and guard found: acquire if absent, or stale, unguarded and two attempts allowed; the untrusted or user-mismatch error; the live owner's endpoint; or the conflict error |
| SingleInstanceLauncher.Launcher.TryOnce | launcher/acquire_single_instance.py:100-153 | one pass of the loop: the position it ends in for every outcome, and undisturbed the outcome and the lock for every lock found |
| SingleInstanceLauncher.Launcher.ContestExisting | launcher/acquire_single_instance.py:103-137 | what an existing lock leads to: undisturbed, untrusted, user mismatch, the owner's endpoint or another attempt, exactly as the lock says, and the lock is removed exactly if it is stale and unguarded |
| SingleInstanceLauncher.Launcher.ReadExistingLock | launcher/acquire_single_instance.py:175-191 | missing, unusable, or found with the version seen before the read; undisturbed, exactly as the lock is |
| SingleInstanceLauncher.Launcher.RemoveStaleLock | launcher/acquire_single_instance.py:206-234 | undisturbed: under another's guard nothing changes; otherwise the lock is removed exactly if it is the one judged and its owner does not run, and the guard is dropped |
| SingleInstanceLauncher.Launcher.RemoveIfUnchanged | launcher/acquire_single_instance.py:220-231 | undisturbed: a changed lock and one whose owner runs stay in place, the judged stale one is removed, and an unusable one raises |
| SingleInstanceLauncher.Launcher.DropGuard | launcher/acquire_single_instance.py:232-234 | the guard is dropped and what was raised goes on, or the unlink fails, the guard stays and its error replaces what was raised |
| SingleInstanceLauncher.Launcher.RereadExistingLock | launcher/acquire_single_instance.py:221-229 | undisturbed, the lock counts as unchanged exactly if version, process id and token are those that were judged |
| SingleInstanceLauncher.Launcher.LeaseIsMine | launcher/acquire_single_instance.py:146-153 | from an initial world, a launcher in possession of a lease is its sole holder |
| SingleInstanceLauncher.Launcher.BindServiceInstance | launcher/acquire_single_instance.py:45-50 | refused without a lease; with one, only its own failing access prevents that the lock holds the record with the service id, and the lease is kept |
| SingleInstanceLauncher.Launcher.ReplaceLock | launcher/acquire_single_instance.py:157-172 | the replace puts the owner's own record in place or leaves the lock as it was, in spite of the shared temporary file |
| SingleInstanceLauncher.Launcher.ReleaseLease | launcher/acquire_single_instance.py:52-64 | whatever others do in between, a release reads and unlinks its own lock; only its own failing access prevents it |
| GmailQuery.AcceptsExactlyTheGrammar | evaluation/harness/gmail_query.py:21-55 | the parser returns a query if and only if the query is in the grammar and prints to the given tokens: balanced groups, no empty branch or group, an empty top level allowed |
| GmailQuery.PrintingIsInjective | evaluation/harness/gmail_query.py:21-55 | the grammar is unambiguous |
| GmailQuery.ParseSound | evaluation/harness/gmail_query.py:21-50 | what the parser returns is well formed and prints to exactly the tokens it consumed |
| GmailQuery.ItemParses | evaluation/harness/gmail_query.py:34-41 | a printed item at any nesting depth is read back, whatever follows |
| GmailQuery.DebraceKeepsMeaning | evaluation/harness/gmail_query.py:35-40 | a brace group means what the parenthesised `OR` of its items means, at any depth and for every resource |
| GmailQuery.BracesAreSugar | evaluation/harness/gmail_query.py:33-50 | every query has a brace-free query of the grammar with the same satisfying resources |
| GmailQueryCompiler.CompileGmailQuery | evaluation/harness/gmail_query.py:13-55 | succeeds if and only if the tokens print some query; the predicate returned equals that query's meaning on every resource; the trailing-token error never occurs |
| GmailQueryCompiler.Compiler.Expression | evaluation/harness/gmail_query.py:21-50 | agrees with the parser error for error, also on how an expression ends, and its predicate decides what the parsed branches mean |
| GmailQueryCompiler.Compiler.Conjunctions | evaluation/harness/gmail_query.py:23-41 | the loop consumes exactly what the parser consumes and collects one closure per item: a group per branch, or, inside braces, a group per item |
| GmailQueryCompiler.Compiler.ItemPredicate | evaluation/harness/gmail_query.py:34-38 | one term or group: consumes what the parser consumes, and its predicate decides the item |
| GmailQueryCompiler.Compiler.CompileTerm | evaluation/harness/gmail_query.py:58-62 | a term with an unusable atom raises; otherwise its predicate is the atom's, negated by a leading minus |
| GmailQueryCompiler.MirrorsMeaning | evaluation/harness/gmail_query.py:48-50 | the nested `any`/`all` over the collected closures is the meaning of the branches, in any-mode too |
| FaultProfiles.FaultHarness.Observe | evaluation/harness/fault_profiles.py:249-288 | the loop over the rules: new counters, active set and directive |
| FaultProfiles.FiresInOneBurst | evaluation/harness/fault_profiles.py:252-288 | over every run, whether a rule answers an observation, and with which directive, is a closed form of the rule's own events: first at its ordinal-th counted match, then with an until-checkpoint at every counted match until that checkpoint is reached or the cap is spent |
| FaultProfiles.BurstIsContiguous | evaluation/harness/fault_profiles.py:252-288 | between two answers of a rule with an ordinal every counted match is answered and the until-checkpoint is not reached |
| FaultProfiles.NumbersAreConsecutive | evaluation/harness/fault_profiles.py:270-287 | a rule's answers are numbered 1, 2, 3, … and never exceed the cap |
| FaultProfiles.RulesAreIndependent | evaluation/harness/fault_profiles.py:252-288 | if no two rules can match the same observation, each rule answers as in a harness of its own |
| FaultProfiles.OtherCasesChangeNothing | evaluation/harness/fault_profiles.py:250-251 | observations of other cases get no answer, and deleting them changes no other answer |
| FaultProfiles.OtherCasesLeaveNoTrace | evaluation/harness/fault_profiles.py:250-251 | nor do they change any counter |
| FaultProfiles.ObserveReacts | evaluation/harness/fault_profiles.py:252-288 | one observation changes each rule's counters as that rule alone would, given whether an earlier rule hid it |
| FaultProfiles.RunReacts | evaluation/harness/fault_profiles.py:249-288 | after any number of observations the harness remembers of each rule what the rule by itself would |
| FaultProfiles.AnswerIsLater | evaluation/harness/fault_profiles.py:307-316 | a directive comes from a rule that matches the observation |
| FaultAdapters.FaultApplyingAdapter.InvokeWrite | evaluation/harness/fault_adapters.py:78-174 | directive, delegate before, during or instead of the fault, reply or error, and the record appended whichever way the call ends |
| FaultAdapters.FaultApplyingAdapter.Write | evaluation/harness/fault_adapters.py:218-253 | the adapter's write: boundary, invocation, and injected errors turned into injected results |
| FaultAdapters.FaultApplyingAdapter.FindBoundary | evaluation/harness/fault_adapters.py:392-398 | the boundary of the first rule naming the connector and operation, or the default when none does |
| FaultAdapters.AdapterRunIsAProviderRun | evaluation/harness/fault_adapters.py:218-253 | over every run, the provider is in the state that the delegated calls alone produce |
| FaultAdapters.EffectsAreDelegatedSuccesses | evaluation/harness/fault_adapters.py:95-174 | over every run, each call runs the provider at most once, provider calls are the delegated calls, and effect counts are the delegated calls that succeeded |
| FaultAdapters.EffectFlagTruthful | evaluation/harness/fault_adapters.py:158-174 | `effect_applied` of a new record is truthful if and only if the outcome does not delegate late with a write that succeeds |
| FaultAdapters.DelegateFlagTruthful | evaluation/harness/fault_adapters.py:129-174 | `delegate_called` of a new record says whether the provider logged a call, if and only if the outcome does not delegate late with a write that fails |
| FaultAdapters.DelegateFlagTracksEffect | evaluation/harness/fault_adapters.py:158-174 | `delegate_called` of every new record says exactly whether the provider's effect count rose |
| FaultAdapters.DelegateFlagCanLie | evaluation/harness/fault_adapters.py:129-137 | a valid profile with one output mutation of `tasks_update_task`: the first update, of a missing task, is logged by the provider and denied by its record |
| FaultAdapters.EffectFlagCanLie | evaluation/harness/fault_adapters.py:129-137 | a valid profile with one output mutation of `tasks_create_task`: the first write is counted by the provider and denied by its record |
| FaultAdapters.LostCreateIsRecoverable | evaluation/harness/stateful_provider.py:113-140 | after a lost-response create with a fresh fingerprint, the recovery search returns exactly the created item if the effect was applied first and the create succeeded, and nothing otherwise |
| FaultAdapters.AppendedIsTheOnlyHit | evaluation/harness/stateful_provider.py:133-139 | a fingerprint new to the store is found in the new resource only |
| StatefulProvider.Provider.Load | evaluation/harness/stateful_provider.py:28-43 | all initial resources in order under distinct keys, or an error exactly if one lacks its parent or repeats a key |
| StatefulProvider.Provider.ExecuteWrite | evaluation/harness/stateful_provider.py:77-93 | call log, dispatch, effect count and result |
| StatefulProvider.Provider.CreateResource | evaluation/harness/stateful_provider.py:237-257 | id supplied or numbered, parent required, existing target refused, new item stored |
| StatefulProvider.Provider.UpdateResource | evaluation/harness/stateful_provider.py:259-276 | target found or error, payload overlaid, version raised by one |
| StatefulProvider.Provider.ExecuteRead | evaluation/harness/stateful_provider.py:45-75 | reads change only the read log; get-style tools and the recovery search answer from the store |
| StatefulProvider.Provider.SearchItems | evaluation/harness/stateful_provider.py:113-140 | argument errors, and the views of the stored items of that type and parent that contain the fingerprint |
| StatefulProvider.RunIsExplained | evaluation/harness/stateful_provider.py:237-276 | after every run of writes each key holds what the initial resources and the successful writes to it say: presence, version as start plus updates, and each payload field as last set |
| StatefulProvider.RunCounts | evaluation/harness/stateful_provider.py:77-93 | after every run the store has grown by its creates, and effect counts are the successful writes tool by tool |
| StatefulProvider.LaterGetShowsTheWrites | evaluation/harness/stateful_provider.py:68-75 | after every run of writes a get finds exactly the initial and the created keys, and shows each payload field as the last successful write to that key set it, or else as it was initially |
| StatefulProvider.DecimalParses | evaluation/harness/stateful_provider.py:274 | `int(str(n))` is n, so a version written by an update can be raised again |
| BenchmarkSelection.ParetoKeepsTheFastest | scripts/benchmark_gmail_metadata_hydration.py:1185-1205 | among any valid rows some row is undominated, and the fastest undominated p95 is the fastest valid p95 |
| BenchmarkSelection.EligibleExactly | scripts/benchmark_gmail_metadata_hydration.py:1185-1207 | a row is eligible if and only if it is valid, undominated and within the tie range of the fastest valid row |
| BenchmarkSelection.OneOrTwoFinalists | scripts/benchmark_gmail_metadata_hydration.py:1205-1216 | with a valid row one or two finalists come back, two whenever two rows are eligible |
| BenchmarkSelection.FinalistsAreSound | scripts/benchmark_gmail_metadata_hydration.py:1176-1216 | every finalist is a valid undominated row within the tie range, and no eligible row left out has a smaller key |
| BenchmarkSelection.FinalistsAreOrdered | scripts/benchmark_gmail_metadata_hydration.py:1208-1216 | of two finalists the one with the smaller key comes first |
| BenchmarkSelection.SomeRowIsEligible | scripts/benchmark_gmail_metadata_hydration.py:1205-1207 | some row is always eligible |
| BenchmarkSelection.SelectFinalists | scripts/benchmark_gmail_metadata_hydration.py:1175-1216 | the loops return the ids of the specified finalists in order |
| BenchmarkSelection.ParetoRows | scripts/benchmark_gmail_metadata_hydration.py:1185-1204 | the nested loop collects exactly the undominated rows, with missing or zero cost counted as infinite |
| BenchmarkStatistics.PercentileIgnoresOrder | scripts/benchmark_gmail_metadata_hydration.py:988-997 | the percentile of a permutation of the samples is the same |
| BenchmarkStatistics.PercentileWithinSamples | scripts/benchmark_gmail_metadata_hydration.py:988-997 | the percentile lies between any bounds of the samples |
| BenchmarkStatistics.PercentileMonotoneInQuantile | scripts/benchmark_gmail_metadata_hydration.py:992-997 | it never falls as the quantile rises |
| BenchmarkStatistics.PercentileMonotoneInSamples | scripts/benchmark_gmail_metadata_hydration.py:991-997 | it never falls when samples are raised |
| BenchmarkStatistics.WilsonEnclosesProportion | scripts/benchmark_gmail_metadata_hydration.py:1004-1018 | 0 ≤ lower ≤ failures/total ≤ upper ≤ 1, the clamps change nothing, and the special cases at 0 and total agree with the formula |
| BenchmarkSchedule.BalancedBlocks | scripts/benchmark_gmail_metadata_hydration.py:635-642 | as many blocks as asked for, each the rotation of its cycle's shuffle by its offset in the cycle |
| BenchmarkSchedule.EveryBlockIsAPermutation | scripts/benchmark_gmail_metadata_hydration.py:639-641 | blocks are numbered 1, 2, 3, … and each runs every configuration once |
| BenchmarkSchedule.EveryPositionIsFair | scripts/benchmark_gmail_metadata_hydration.py:637-641 | over any whole number of cycles every configuration stands in every position equally often |
| BenchmarkSchedule.ColumnTurns | scripts/benchmark_gmail_metadata_hydration.py:641 | over one cycle each position reads a permutation of the configurations |
| BenchmarkObserver.TrialObserver.OnHttpStarted | scripts/benchmark_gmail_metadata_hydration.py:167-182 | the fields follow the events: number, thread entry, in-flight count, peak and row |
| BenchmarkObserver.TrialObserver.OnHttpFinished | scripts/benchmark_gmail_metadata_hydration.py:184-219 | the same for a finish, with or without a start of its thread |
| BenchmarkObserver.TrialObserver.Begin | scripts/benchmark_gmail_metadata_hydration.py:153-165 | a trial begins with no events |
| BenchmarkObserver.TrialObserver.Report | scripts/benchmark_gmail_metadata_hydration.py:252-264 | the report is valid if and only if every thread alternated starts and finishes and left nothing open; then the peak is the true peak concurrency and the rows are those of the starts with their own results |
| BenchmarkObserver.ValidExactlyWhenComplete | scripts/benchmark_gmail_metadata_hydration.py:254-258 | for every interleaving of events, the validity flag says exactly that |
| BenchmarkObserver.EveryStartIsFinishedOnce | scripts/benchmark_gmail_metadata_hydration.py:184-219 | in a valid report each start has exactly one finish of its thread before that thread's next event, and its row holds that finish's result |
| BenchmarkObserver.AlternatingRun | scripts/benchmark_gmail_metadata_hydration.py:167-219 | while threads alternate, open threads, in-flight count, peak and rows are what the events say |
| BenchmarkObserver.TrustedRun | scripts/benchmark_gmail_metadata_hydration.py:184-219 | without an orphan row, finishes make up for all starts only if no thread started twice in a row |
| ProcessTree.WindowsDescendants | scripts/benchmark_gmail_metadata_hydration.py:543-551 | for a root that is not its own ancestor the loop ends and returns each strict descendant once and nothing else |
| ProcessTree.EndsUnlessOwnAncestor | scripts/benchmark_gmail_metadata_hydration.py:543-551 | the loop ends if and only if the root is not its own ancestor |
| ProcessTree.SelfParentNeverEnds | scripts/benchmark_gmail_metadata_hydration.py:543-550 | a snapshot with one process that is its own parent: the frontier is never empty |
| ProcessTree.ExpandKeepsInv | scripts/benchmark_gmail_metadata_hydration.py:545-549 | a round finds only new descendants and never repeats one |
| ProcessTree.ExpandMakesProgress | scripts/benchmark_gmail_metadata_hydration.py:545-549 | a round leaves fewer processes to expand, although there is no visited set |
| ProcessTree.KeepsCircling | scripts/benchmark_gmail_metadata_hydration.py:545-549 | for a root that is its own ancestor the frontier is never empty |
| ProcessTree.ChildrenAreExact | scripts/benchmark_gmail_metadata_hydration.py:547 | the comprehension finds exactly the processes with that parent |
| FenceScanner.OutsideFenceLines | evaluation/export_materials.py:36-60 | the loop computes the specified scan |
| FenceScanner.ScanAcceptsExactlyBlocks | evaluation/export_materials.py:36-60 | a text is accepted if and only if it is a sequence of plain lines and closed fenced blocks, and exactly its plain lines are reported, with their positions |
| FenceScanner.ScanErrorsAreExact | evaluation/export_materials.py:53-59 | the two errors occur exactly if, after whole blocks, a refused info string or a fence that is never closed comes next |
| FenceScanner.ScanJoins | evaluation/export_materials.py:36-60 | scanning accepted text followed by more text is the two scans joined, the second with shifted positions |
| FenceScanner.FencedBlockAddsNothing | evaluation/export_materials.py:45-49 | a fenced block reports no line and only shifts what follows |
| ExportMaterials.LeadIsExact | evaluation/export_materials.py:50-55 | a line opens a fence, is refused or is text exactly as the opening pattern, with its greedy run, and the info string say |
| ExportMaterials.ClosingIsExact | evaluation/export_materials.py:47 | a line closes a fence exactly if the closing pattern matches the whole line |
| ExportMaterials.StripTrims | evaluation/export_materials.py:65 | stripping removes exactly the white space at both ends |
| ExportMaterials.SectionBounds | evaluation/export_materials.py:63-78 | the bounds or the error specified by the lines outside fences |
| ExportMaterials.BoundsAreExact | evaluation/export_materials.py:63-78 | bounds are returned if and only if they are the positions of the only heading of each kind outside fences, in order, with no section or label between them |
| ExportMaterials.ExtractMaterials | evaluation/export_materials.py:81-90 | address check first, then bounds, then the stripped body between them, or the error for an empty one |
| ExportMaterials.ExtractIgnoresWhatFollows | evaluation/export_materials.py:81-90 | text appended to an extractable text changes nothing, except for exactly these errors: an address not approved, a fence the scanner stops at, or one of the two headings again |
| ExportMaterials.ExtractEndsAtTheQuestions | evaluation/export_materials.py:81-90 | an extraction equals the extraction of the text up to its question heading |
| ExportMaterials.WorkspaceExport | evaluation/export_materials.py:10-11 | with the workspace's two headings: the exported body is the text between lines that strip to them, and depends on nothing after the second, whatever fixed text it is put after |
| ExportMaterials.FencedBlocksAreInvisible | evaluation/export_materials.py:63-78 | whatever a fenced block says, the bounds and errors are those of the text without it, shifted past the block |
| ReleaseManifest.IterReleaseFiles | release/generate_release_manifest.py:192-203 | a symbolic link is refused; otherwise the listed files, each once, in the order of their paths |
| ReleaseManifest.ManifestEntry | release/generate_release_manifest.py:206-215 | hashing chunk by chunk describes the whole content |
| ReleaseManifest.GenerateReleaseManifest | release/generate_release_manifest.py:125-165 | links and an empty bundle are refused; otherwise the result lists every listed file once, sorted and truly described, and passes the manifest's own checks |
| ReleaseManifest.GoodEntry | release/generate_release_manifest.py:38-50 | entries made from a bundle pass the entry's own checks |
| ReleaseManifest.EntriesAreManifest | release/generate_release_manifest.py:90-94 | the list made from the walk passes the sorting and uniqueness checks |
| ReleaseManifest.ManifestIsUnique | release/generate_release_manifest.py:192-203 | a bundle has one manifest, in whatever order the file system yields its files |
| ReleasePaths.PartsOfJoin | release/generate_release_manifest.py:199 | the parts of a path's text are the path again, so a text names one file |
| ReleasePaths.SortedExactlyIfAscending | launcher/verify_installation.py:221 | a list equals its sorted form if and only if it ascends |
| InstallationVerifier.ResolveManifestChild | launcher/verify_installation.py:226-247 | unsafe texts are refused, a link at any level is tampering, otherwise the path |
| InstallationVerifier.VerifyFiles | launcher/verify_installation.py:186-223 | all entries accepted and in order, or the error of the first bad entry, or of the order |
| InstallationVerifier.RejectUnlistedInstalledFiles | launcher/verify_installation.py:250-276 | passes if and only if the manifest lists exactly the files that count and the installer's files are complete or absent; returns the latter sorted |
| InstallationVerifier.VerifyInstalledFiles | launcher/verify_installation.py:171-276 | the file checks together pass exactly for the accepted trees, with the code of the first check that fails otherwise |
| ReleaseRoundTrip.AcceptsExactlyTheBundle | launcher/verify_installation.py:186-276 | against the manifest of a bundle the file checks pass if and only if the tree holds the bundle's listed files unchanged and no other file that counts, with the installer's files complete or absent, and the manifest stays within the verifier's limits |
| ReleaseRoundTrip.BundleIsAccepted | release/generate_release_manifest.py:125-165 | the bundle itself passes if and only if it stays within the limits and has no file named like one of the installer's |
| ReleaseRoundTrip.ReleaseBundleIsAccepted | launcher/verify_installation.py:39 | with the product's own names: everything but the two self-authenticating files is listed, and a bundle passes if and only if it is within the limits and has no file named `unins000.dat` or `unins000.exe` in any case |
| ReleaseRoundTrip.OneFileBundle | launcher/verify_installation.py:226-235 | a bundle of one file is listed whatever its name, and accepted if and only if its path is allowed and it is not named like one of the installer's |
| ReleaseRoundTrip.SomeBundlesAreRefused | launcher/verify_installation.py:230-267 | a file with a backslash in its name, and one named like the installer's, have manifests that pass the generator's checks and are not accepted |
| ReleaseRoundTrip.EntryAcceptedExactly | launcher/verify_installation.py:192-219 | a generated entry is accepted if and only if its path is allowed and its file is there with the same content |
| ReleaseRoundTrip.ListsExactly | launcher/verify_installation.py:253-271 | comparing sets of path texts compares the files themselves |

## Left out

- Windows calls, pipes, ports, subprocesses, permissions and real file I/O: the abstract file and process state stands
  for them. A write is one step that either happens or raises; a partly written lock is not modelled beyond the empty
  one.
- Lock: the user hash and the endpoint are given by the user; JSON, the set of lock fields and the size limit are the
  one case of a malformed lock; a lock that is not UTF-8, at which `read_text` raises a `UnicodeDecodeError` that
  escapes instead of becoming the untrusted error, is not; failure to identify the launcher's own process is not
  modelled.
- Gmail query: the regular expression that makes the tokens, and what a term matches (`_term` beyond its minus sign),
  are given: which atoms are usable and which resources they match are parameters.
- Fault harness: loading and validating profiles and cases, and `FaultHarness.invoke`, whose decision the adapter
  repeats.
- FaultAdapters.FaultApplyingAdapter.InvokeWrite: writes only; the reads, the MCP and LLM wrappers call the same
  `invoke`. Callbacks are given or missing, and do not raise. Mutating and reordering the value of a successful write
  is reduced to which of the source's errors or results appears; the payload of an outcome holds texts.
- StatefulProvider.Provider.ExecuteRead: serves the get-style tools and the recovery search; the list, attachment and
  free/busy tools, which the source serves too, count as unsupported.
- Provider: custom result factories and copies made against aliasing. Payloads given as something other than mappings,
  version texts with blanks, underscores or a float, and `str` of versions that are not texts or numbers are not
  modelled.
- Benchmark: bootstrap, charts, CSV, resource sampling, batch rows, phases and message counts of the observer; running
  the servers. The report's thread identifiers are as unique as the runtime makes them.
- BenchmarkStatistics.WilsonEnclosesProportion: in exact arithmetic; rounding of floating point is not modelled.
- BenchmarkSchedule.BalancedBlocks: the seeded shuffle is a parameter; the properties hold for every shuffle.
- Material extraction: splitting a text into lines, the pattern for addresses (a predicate on lines, since it cannot
  match across one), the fixed text an export begins with (a parameter), relocation of links, and reading and writing
  files.
- Release: prompt, connector and profile checks, JSON and its 4 MiB limit, Ed25519 signatures and Authenticode, the
  other fields of the manifest, `OSError` while reading, and file systems that fold case.
- ReleaseManifest.GenerateReleaseManifest: ends with the list of files; writing the manifest file is not modelled.
