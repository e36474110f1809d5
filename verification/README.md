# ArchTitan verification project

Dafny models of the parts of ArchTitan whose correctness is hardest to see from one function at a time, with machine-checked
proofs about them. `dafny verify dfyconfig.toml` checks everything.

**Workload orchestrator (Titan Hardware Manager v3).** `Types`, `StateMachine`, `Pressure`, `Monotonicity`,
`OwnershipGraph`, `WorkloadManager`, `Protection`, `Enforcement`, `Reclaim`, `DaemonSteps` and `Daemon` model the daemon as the
step system it is. A `World` is everything a tick reads from outside: the process snapshot, classification results, workspace
flags, activities, pressure, clock and what `/proc` shows at each later look. All of it is arbitrary and may change from tick to
tick, and from look to look within a tick. Kernel actions are a log of effects, each signal carrying what the sender saw.
`Daemon.Loop` keeps one invariant across ownership graph, registry, policy, enforcement and reclaim; a ghost record of every
workload's inputs links the phase of each workload to a run of the state machine, so that theorems about runs become facts
about the daemon: every kill is justified by a recorded quiet stretch. `Guarantees` says what each kind of workload may expect
in every run.

**SHA-256 (ArchTitan Guard).** `Fips180` is FIPS 180-4 written from the standard; `ArchtitanGuard` is the streaming
implementation over arrays, proved to compute it for every message and every chunking; `FipsConstants` derives the constants of
the standard from the primes, `FipsExample` follows its example; `GuardFiles` adds the read loop and the verify-or-restore check.

**Ad blocker (Titan Browser).** `Regex` is a small regular-expression grammar with its meaning; `FilterPatterns` proves that the
translation from filter patterns preserves meaning; `AdBlocker` is the rule store with its declarative verdict.

**Event framing (workspace monitor).** `WorkspaceMonitor` proves the line splitter independent of how reads cut the stream;
`MonitorAnswers` is the text search for visible workspaces.

**Accents (TitanFetch).** `HueCircle` and `Accents` prove the counting bound on collected hues and what the include scan finds;
`AccentIncludes` and `AccentLimit` say when its two limits hold. `ColorTokens` is the decoding of colour tokens, `AccentLines`
the reading of lines made of them.

**Telemetry.** `Json` is an RFC 8259 parser over bytes, `JsonPrinter` and `Numerals` the printed form, `TelemetryPublisher` the
snapshot writer. Parsing what is written yields the snapshot, `TelemetryKeys` key by key.

`Text` and `Sequences` hold functions several modules share.

## Where the code and its intentions differ

The models follow the code. The differences, each with the member that proves it where it is a theorem:

- Severity is not monotone in pressure when a tick is both executing and visible: IDLE tests execution first, the deeper states
  test visibility first (`Monotonicity.MilderUnderMorePressure`, exact condition in `Monotonicity.OrderLastsUnlessSplit`).
- Losing the PSI source can lower the pressure level (`Pressure.ValidityMatters`).
- Cold start sorts by parent pid and is right only if parents come first, which pid wrap-around breaks
  (`Ownership.WrapAroundLosesChild`, exact condition in `Ownership.CorrectForAllMarksIffParentsFirst`).
- The re-check before a reclaim sees the snapshot of the first check (`Reclaiming.RecheckOnlySeesTheGuard`).
- Hysteresis counts down only in BACKGROUND_EXECUTING (`StateMachine.WindowOnlyCountsDown`), so it does not expire while IDLE
  (`StateMachine.QuietKeepsWindow`).
- The `||` prefix asks for no label boundary in pattern rules, and a single leading `|` is a separator
  (`FilterPatterns.TranslationPreservesMeaning`, `FilterPatterns.NoLabelBoundary`); options have no effect on domain rules
  (`AdBlocking.DomainRulesIgnoreOptions`) and are matched literally in exceptions (`AdBlocking.ExceptionExemptsMatches`).
- The accent list can exceed its limit of ten (`AccentLimit.FourteenAreCollected`, exact condition for a line in
  `AccentLimit.LineKeepsLimitIffOneHue`), and the depth limit can lose includes (`AccentIncludes.EighthFileIsLost`,
  `AccentIncludes.ShortRouteIsLost`; enough: `AccentIncludes.ShallowVisitsAll`; needed: `AccentIncludes.BeyondTheLimitIsMissed`;
  exact where no file is included along two chains: `AccentIncludes.TreeVisitsAllIffShallow`).
- The retry of observed workloads tests `tick_count`, which stays 0 unless a tick limit is given, so it then happens every tick
  and not every tenth (`Daemon.Daemon.Loop`, witness in `DaemonSteps.PromotedAtSecondTick`).
- A restored file is reported as restored without looking at the result of closing it, and a failed read ends the read loops
  like the end of the file; a backup that is the file itself is emptied before it is read
  (`GuardFiles.LostFlushIsReportedAsSuccess`, exact conditions in `GuardFiles.RestoredIffFlushed` and
  `GuardFiles.AcceptedIffRead`).
- Ownership outlives workloads: a process spared when its workload is reclaimed keeps its owner, so it is never filed, observed
  or signalled again while it lives (`DaemonSteps.OwnershipLastsOneTick`, for whole runs `Daemon.Daemon.Loop`).
- The publishing interval holds back no snapshot with a new timestamp, because the timestamp is part of the text it compares
  (`TelemetryPublishing.SameTextSameSnapshot`, `TelemetryPublishing.TelemetryPublisher.Publish`).

## Model

| member | source | states |
|---|---|---|
| `ArchtitanGuard.Sha256Ctx.constructor` | subsystems/archtitan-guard/main.c:209-213 | A new context stands for the empty message: its words are the initial hash value of section 5.3.3. |
| `ArchtitanGuard.Sha256Ctx.Transform` | subsystems/archtitan-guard/main.c:189-207 | The in-place schedule array and the rotating registers compute the section 6.2.2 compression of FIPS 180-4 for every chaining state and every block; the buffer is untouched. |
| `ArchtitanGuard.Sha256Ctx.ExpandSchedule` | subsystems/archtitan-guard/main.c:190-197 | All 64 schedule words equal the recurrence W_t of section 6.2.2. |
| `ArchtitanGuard.Sha256Ctx.MixRounds` | subsystems/archtitan-guard/main.c:198-204 | Sixty-four rotations of the eight locals are the sixty-four rounds of step 3 of section 6.2.2. |
| `ArchtitanGuard.Sha256Ctx.Update` | subsystems/archtitan-guard/main.c:215-224 | Whatever was absorbed before, the context then stands for that message followed by the given bytes, so splitting a message across calls does not matter. |
| `ArchtitanGuard.Sha256Ctx.AbsorbByte` | subsystems/archtitan-guard/main.c:217-222 | One byte either waits in the buffer or completes a block that is folded in, the bit counter wrapping at 2^64. |
| `ArchtitanGuard.Sha256Ctx.Final` | subsystems/archtitan-guard/main.c:226-249 | The digest is SHA-256 of everything absorbed, for every length; the specification is written from FIPS 180-4 alone. |
| `ArchtitanGuard.Sha256Ctx.PadAndFold` | subsystems/archtitan-guard/main.c:227-238 | Both finalizer cases leave the state that hashing the whole padded message gives. |
| `ArchtitanGuard.Sha256Ctx.MarkEnd` | subsystems/archtitan-guard/main.c:227-234 | Marker and zeros: with room for the length the state is unchanged, otherwise one extra block is folded and the buffer restarts with zeros. |
| `ArchtitanGuard.Sha256Ctx.PutLength` | subsystems/archtitan-guard/main.c:235-237 | The last eight buffer bytes hold the bit counter, most significant byte first. |
| `ArchtitanGuard.Sha256Ctx.WriteDigest` | subsystems/archtitan-guard/main.c:239-248 | The column-wise loop writes the eight words in order, each most significant byte first. |
| `ArchtitanGuard.MacrosAreFipsFunctions` | subsystems/archtitan-guard/main.c:163-169 | The shift-and-or macros are the rotations of section 4.1.2. |
| `ArchtitanGuard.TableIsFips` | subsystems/archtitan-guard/main.c:178-187 | The constant table is the K sequence of section 4.2.2, entry by entry. |
| `ArchtitanGuard.LengthWraps` | subsystems/archtitan-guard/main.c:220-237 | The 64-bit counter encodes the same eight bytes as the exact bit length even after it wrapped. |
| `ArchtitanGuard.LengthBytesAreBigEndian` | subsystems/archtitan-guard/main.c:236-237 | The eight shifted and truncated bytes are the big-endian encoding. |
| `ArchtitanGuard.AbsorbFullBlock` | subsystems/archtitan-guard/main.c:218-222 | Completing a block keeps the relation between context and message. |
| `Fips180.PadEndsInOneBlock` | subsystems/archtitan-guard/main.c:227-238 | With at most 55 bytes left, padding a message appends exactly the one block the finalizer builds. |
| `Fips180.PadEndsInTwoBlocks` | subsystems/archtitan-guard/main.c:229-238 | With 56 to 63 bytes left, padding appends exactly the two blocks the finalizer builds. |
| `Fips180.PadIsInjective` | subsystems/archtitan-guard/main.c:226-238 | Padding never maps two messages under 2^61 bytes to the same blocks (section 5.1.1). |
| `Fips180.PackUnpack` | subsystems/archtitan-guard/main.c:191-194 | Packing four bytes and unpacking the word gives the bytes back. |
| `Fips180.UnpackPack` | subsystems/archtitan-guard/main.c:239-248 | Unpacking a word and packing its bytes gives the word back. |
| `Fips180.BigEndianDecodes` | subsystems/archtitan-guard/main.c:235-237 | The length field decodes to the length, for every length that fits. |
| `FipsConstants.InitialValueIsRoots` | subsystems/archtitan-guard/main.c:211-212 | The eight initial words are the first 32 bits of the fractional parts of the square roots of the first eight primes (section 5.3.3). |
| `FipsConstants.RoundConstantsAreRoots` | subsystems/archtitan-guard/main.c:178-187 | The 64 round constants are the first 32 bits of the fractional parts of the cube roots of the first 64 primes (section 4.2.2). |
| `FipsConstants.PrimesInOrder` | subsystems/archtitan-guard/main.c:178-187 | These are the primes: from each to the next no number between them is one. |
| `FipsConstants.SievedIsPrime` | subsystems/archtitan-guard/main.c:178-187 | Below 324 the sieve by the primes up to 17 is exact. |
| `FipsExample.ExampleDigest` | subsystems/archtitan-guard/main.c:189-249 | The digest of the message abc is the one the standard gives (FIPS 180-2, appendix B.1), so the specification is the function it names. |
| `GuardFiles.HashFile` | subsystems/archtitan-guard/main.c:251-269 | For every file content, every splitting into reads and every point at which a read may fail, the text is the hexadecimal SHA-256 of what was read; the loop does not tell a failed read from the end. |
| `GuardFiles.HexEqual` | subsystems/archtitan-guard/main.c:271-278 | True exactly when the strings are equal up to letter case. |
| `GuardFiles.HexIsInjective` | subsystems/archtitan-guard/main.c:264-267 | Equal hexadecimal text means equal digests. |
| `GuardFiles.FileStore.VerifyFileChecksum` | subsystems/archtitan-guard/main.c:280-313 | Success and the resulting files for every outcome of reads, writes and the close that nobody checks: a file that looks intact is left alone, otherwise a backup that looks intact is copied over it, and only that file changes. When reads, writes and flush are complete: success if and only if the file or its backup was intact, if and only if the file is intact afterwards, and a missing or tampered file with an intact backup is the backup afterwards. A backup that is the file itself is emptied before it is read. |
| `GuardFiles.FileStore.CopyInto` | subsystems/archtitan-guard/main.c:286-297 | The file is emptied first; the copy loop leaves what was then read, accepted and flushed; it reports failure exactly when opening failed or a write was not accepted in full. |
| `GuardFiles.SuccessMeansIntact` | subsystems/archtitan-guard/main.c:280-313 | When no read fails and the copy is flushed to its end, success means the file has the expected checksum. |
| `GuardFiles.TamperedFileIsRestored` | subsystems/archtitan-guard/main.c:280-313 | With complete input and output: an intact file stays, a missing or tampered one becomes the backup if that is intact, and otherwise the check fails and changes nothing. |
| `GuardFiles.RestoredIffFlushed` | subsystems/archtitan-guard/main.c:285-307 | Exactly when a reported restoration is one: the file is the backup iff they are different files (or the backup is empty) and the copy was read and flushed to its end, and it has the checksum iff its digest is that of the backup. |
| `GuardFiles.AcceptedIffRead` | subsystems/archtitan-guard/main.c:282-284 | A file accepted as it is has the checksum iff the digest of the whole is that of the part that was read. |
| `GuardFiles.LostFlushIsReportedAsSuccess` | subsystems/archtitan-guard/main.c:293-306 | Every non-empty backup is a failing input: with nothing flushed on close, success is reported for an empty file, wrong unless the backup collides with the empty message. |
| `Ownership.ParentsFirstIsCorrect` | titan-hwm-v3/workload/ownership_graph.cpp:199-265 | If parents precede their children, one pass files every process under its topmost marked ancestor-or-self, and under none exactly when there is none. |
| `Ownership.SortingPutsParentsFirst` | titan-hwm-v3/workload/ownership_graph.cpp:199-201 | Sorting by parent pid puts parents first for every tie order, as long as every process has a larger pid than its parent. |
| `Ownership.CorrectForAllMarksIffParentsFirst` | titan-hwm-v3/workload/ownership_graph.cpp:199-265 | For a given order the pass is right for every marking if and only if parents come first. |
| `Ownership.SortingIsCorrectIffPidsGrow` | titan-hwm-v3/workload/ownership_graph.cpp:199-265 | The same told from the scan: sorting by parent pid is right for every marking if and only if each process with a scanned child has a larger pid than its own parent. |
| `Ownership.WrapAroundLosesChild` | titan-hwm-v3/workload/ownership_graph.cpp:199-265 | Concrete scan after pid wrap-around: sorted by parent pid, yet a child is not filed under its marked parent. |
| `Ownership.ChildBeforeParentIsLost` | titan-hwm-v3/workload/ownership_graph.cpp:199-265 | A child listed before its marked parent is always misfiled. |
| `Ownership.ReverseIndexIsUnique` | titan-hwm-v3/workload/ownership_graph.cpp:131-152 | The forward index determines the reverse index. |
| `Ownership.BucketsCoverPids` | titan-hwm-v3/workload/ownership_graph.cpp:131-152 | Bucket sizes add up to the number of owned pids. |
| `Ownership.DroppingKeepsInverse` | titan-hwm-v3/workload/ownership_graph.cpp:144-152 | Dropping a pid, and its bucket once empty, keeps the two indexes inverse. |
| `Ownership.AddingKeepsInverse` | titan-hwm-v3/workload/ownership_graph.cpp:131-142 | Adding a pid keeps the two indexes inverse. |
| `Ownership.OwnershipGraph.constructor` | titan-hwm-v3/workload/ownership_graph.cpp:112-116 | An empty graph owns nothing and its indexes agree. |
| `Ownership.OwnershipGraph.Assign` | titan-hwm-v3/workload/ownership_graph.cpp:131-142 | The pid is owned by the given workload, every other owner is unchanged, the indexes stay exact inverses without empty buckets. |
| `Ownership.OwnershipGraph.Remove` | titan-hwm-v3/workload/ownership_graph.cpp:144-152 | The pid has no owner, every other owner is unchanged, the indexes stay exact inverses. |
| `Ownership.OwnershipGraph.Bootstrap` | titan-hwm-v3/workload/ownership_graph.cpp:199-265 | New ids are exactly the range taken from the counter; stub pid lists partition the owned pids without repetition; every owned pid is in the workload of the root the pass files it under, which is the right one whenever parents come first. Every workload was last used now and has the type its root suggests, by directory before name. |
| `Ownership.InheritingFiles` | titan-hwm-v3/workload/ownership_graph.cpp:220-233 | Joining the parent's workload keeps the partition and the filing by root. |
| `Ownership.FoundingFiles` | titan-hwm-v3/workload/ownership_graph.cpp:207-251 | Founding a workload keeps the partition and the filing by root. |
| `Ownership.MemberKeepsStub` | titan-hwm-v3/workload/ownership_graph.cpp:220-233 | A further member changes neither kind nor age of a workload. |
| `Registry.WorkloadManager.Add` | titan-hwm-v3/workload/workload_manager.cpp:14-19 | Registers under the id; the id list stays duplicate-free, in insertion order, and lists exactly the keys. |
| `Registry.WorkloadManager.Remove` | titan-hwm-v3/workload/workload_manager.cpp:21-26 | Removes the id and keeps the order of the rest. |
| `Registry.WorkloadManager.PruneDead` | titan-hwm-v3/workload/workload_manager.cpp:46-60 | Removes exactly the terminated workloads; the others keep their order and value. |
| `Registry.WorkloadManager.CollectDead` | titan-hwm-v3/workload/workload_manager.cpp:47-54 | The collected ids are exactly those of terminated workloads. |
| `Registry.WorkloadManager.PruneDeadPids` | titan-hwm-v3/workload/workload_manager.cpp:62-72 | Keeps exactly the live member pids, in order; an unknown id changes nothing. |
| `Registry.WorkloadManager.Tick` | titan-hwm-v3/workload/workload_manager.cpp:83-210 | Changes only the phase of the one workload, to the phase the state machine prescribes for these inputs. |
| `Registry.WorkloadManager.Advance` | titan-hwm-v3/workload/workload_manager.cpp:86-209 | The switch agrees with the state machine in every state and for every input. |
| `Sequences.RetainTwice` | titan-hwm-v3/workload/workload_manager.cpp:46-60 | Repeated filtering of the id list is one filtering. |
| `StateMachine.ReclaimNeedsHistory` | titan-hwm-v3/policy/policy_engine.cpp:115-125 | In every run, a RECLAIM decision is preceded by an unbroken hidden, non-executing stretch up to now that contains a soft-due tick and, strictly later, a hard-due tick; and the workload is neither AI-owned nor guarded. |
| `StateMachine.DecayedStatesHaveHistory` | titan-hwm-v3/workload/workload_manager.cpp:155-206 | AGING and RECLAIMABLE are only ever reached through such stretches. |
| `StateMachine.DecayedTransitions` | titan-hwm-v3/workload/workload_manager.cpp:155-206 | The only ways into the decayed states, and the only ways to stay there. |
| `StateMachine.DecayIsExact` | titan-hwm-v3/workload/workload_manager.cpp:83-210 | Under cold ticks every unprotected, unobserved phase becomes RECLAIMABLE after exactly its decay distance (at most three plus the open window), never earlier, and stays so. |
| `StateMachine.ColdTickDescends` | titan-hwm-v3/workload/workload_manager.cpp:105-209 | Each cold tick lowers the decay distance by exactly one until it is zero. |
| `StateMachine.WindowStaysInRange` | titan-hwm-v3/workload/workload_manager.cpp:117-153 | In every run the hysteresis counter stays between zero and the configured value. |
| `StateMachine.WindowOnlyCountsDown` | titan-hwm-v3/workload/workload_manager.cpp:132-153 | Until reset or used up, an open window shrinks by exactly the number of hidden BACKGROUND_EXECUTING ticks. |
| `StateMachine.OpenWindowShields` | titan-hwm-v3/policy/policy_engine.cpp:63-71 | While the window is open, nothing harsher than KEEP_BACKGROUND is decided for workloads other than services and VMs. |
| `StateMachine.LeavingShields` | titan-hwm-v3/workload/workload_manager.cpp:117-153 | From a visible ACTIVE workload with a closed window, leaving shields every continuation that neither resets the window nor counts it down: nothing harsher than KEEP_BACKGROUND, services and VMs excepted. |
| `StateMachine.QuietKeepsWindow` | titan-hwm-v3/workload/workload_manager.cpp:155-206 | The window does not expire while the workload is quiet in IDLE, AGING or RECLAIMABLE, for any number of ticks, pressure and age. |
| `StateMachine.QuietIsNeverDowngraded` | titan-hwm-v3/policy/policy_engine.cpp:67-71 | So such a workload is never throttled, frozen or reclaimed while it stays quiet, services and VMs excepted. |
| `StateMachine.ObservedStretchIsHarmless` | titan-hwm-v3/workload/workload_manager.cpp:93-103 | In every run that ends in observed ticks, whatever came before: not decayed, no decision beyond KEEP_BACKGROUND, and the window frozen. |
| `Guarantees.HeadlessIsNeverStopped` | titan-hwm-v3/policy/policy_engine.cpp:27-50 | In every run a service or VM is never frozen or reclaimed; it is throttled if and only if it is unprotected, unguarded, unobserved, hidden, not executing and the pressure is CRITICAL. |
| `Guarantees.ExecutingIsKept` | titan-hwm-v3/policy/policy_engine.cpp:51-58 | In every run an executing workload gets nothing harsher than KEEP_BACKGROUND, and KEEP_FULL when it is also shown, managed and no service or VM. |
| `Guarantees.ShownIsKept` | titan-hwm-v3/policy/policy_engine.cpp:60-66 | In every run a workload on a focused or visible workspace gets nothing harsher than KEEP_BACKGROUND. |
| `Guarantees.NoPressureNoHarm` | titan-hwm-v3/policy/policy_engine.cpp:94-113 | A run under NORMAL pressure throughout never decays and never ends in anything harsher than KEEP_BACKGROUND. |
| `Guarantees.StreamingBrowserIsSpared` | titan-hwm-v3/policy/policy_engine.cpp:73-92 | A latency-sensitive browser root is never reclaimed; when nothing else speaks for it, it is frozen exactly at CRITICAL and throttled exactly at HIGH. |
| `Guarantees.OrdinaryDecisions` | titan-hwm-v3/policy/policy_engine.cpp:94-129 | For every other workload: when exactly it is reclaimed, frozen and throttled, told from state, pressure, ownership by an AI and what speaks for it. |
| `Guarantees.FullResourcesAreExact` | titan-hwm-v3/policy/policy_engine.cpp:17-64 | Exactly when a workload gets KEEP_FULL. |
| `Guarantees.DecisionsAreWarranted` | titan-hwm-v3/policy/policy_engine.cpp:10-129 | Over whole runs: a RECLAIM ends the quiet stretch reclaiming needs and spares AI workloads; a FREEZE that sends signals comes to quiet, unguarded, ordinary workloads only, under pressure or in place of a RECLAIM. |
| `Guarantees.ReclaimedIsOld` | titan-hwm-v3/workload/workload_manager.cpp:164-191 | In milliseconds: at the end of a stretch that allows reclaiming, the last use of the workload is at least 60000 times the hard age limit ago, the clock not running backwards. |
| `Guarantees.TransitionsAreExact` | titan-hwm-v3/workload/workload_manager.cpp:105-209 | Exactly when a managed workload gets into each of the states, from whichever it was in; the age limits are the only condition beside presence, execution and pressure. |
| `Guarantees.WindowIsExact` | titan-hwm-v3/workload/workload_manager.cpp:117-153 | What one tick does to the hysteresis window, state by state. |
| `Guarantees.UnmanagedTransitions` | titan-hwm-v3/workload/workload_manager.cpp:83-104 | Protected workloads stay ACTIVE, observed ones follow presence and execution alone; their window is untouched. |
| `Types.AgeInMilliseconds` | titan-hwm-v3/core/types.hpp:259-262 | A positive age limit of m minutes is reached exactly when 60000 m milliseconds have passed since the last use. |
| `Pressure.PressureIsMonotone` | titan-hwm-v3/resources/pressure_level.cpp:124-145 | For fixed PSI validity, more memory in use and longer stalls never lower the level. |
| `Pressure.LevelsFromReadings` | titan-hwm-v3/resources/pressure_level.cpp:124-145 | Exactly when each level is reached, told from kilobytes and stall averages. |
| `Pressure.ValidityMatters` | titan-hwm-v3/resources/pressure_level.cpp:124-145 | Exactly when losing the PSI source does not lower the level. |
| `Monotonicity.MoreStressIsNeverMilder` | titan-hwm-v3/workload/workload_manager.cpp:83-210 | Two runs that differ in memory readings only, with no tick both executing and shown: at every tick the more stressed run gets a decision at least as severe. Composes readings, level, state machine and policy. |
| `Monotonicity.MorePressureIsNeverMilder` | titan-hwm-v3/policy/policy_engine.cpp:10-129 | The same for pointwise ordered pressure, under the weaker condition that no earlier tick splits the runs. |
| `Monotonicity.OrderSurvivesTick` | titan-hwm-v3/workload/workload_manager.cpp:105-209 | One tick keeps the decay order of two runs if and only if it does not split them. |
| `Monotonicity.OrderLastsUnlessSplit` | titan-hwm-v3/workload/workload_manager.cpp:155-206 | The exact condition for good: decisions stay ordered under every calm continuation if and only if the tick does not split the runs. |
| `Monotonicity.RunsStayOrderedIffNeverSplit` | titan-hwm-v3/workload/workload_manager.cpp:83-210 | The same for whole runs: after two ordered runs that have not split before their last tick, decisions stay ordered under every calm continuation if and only if the last tick did not split them. |
| `Monotonicity.SplitIsFatal` | titan-hwm-v3/workload/workload_manager.cpp:155-206 | After a split there is a calm continuation that freezes the less stressed run while the more stressed one is kept. |
| `Monotonicity.MilderUnderMorePressure` | titan-hwm-v3/workload/workload_manager.cpp:155-190 | Concrete three-tick runs in which more pressure gives the milder decision. |
| `Monotonicity.DecisionsFollowOrder` | titan-hwm-v3/policy/policy_engine.cpp:10-129 | A run at least as decayed under at least as much pressure never gets the milder decision. |
| `Protection.StripDeletedUndoesSuffix` | titan-hwm-v3/core/protected_registry.cpp:54-58 | Stripping undoes the suffix of a replaced executable. |
| `Protection.VerdictsFromLink` | titan-hwm-v3/core/protected_registry.cpp:49-156 | For an executable replaced since, both verdicts are told from the path it was started from. |
| `Protection.VerdictsFromPath` | titan-hwm-v3/core/protected_registry.cpp:64-156 | Otherwise from the path of the link: shielded exactly when registered or under a protected prefix, a browser exactly when under a browser prefix. |
| `Protection.ProtectedRegistry.IsProtected` | titan-hwm-v3/core/protected_registry.cpp:94-119 | The verdict depends on the explicit set and the executable path only: it is the same for every comm string. |
| `Protection.ProtectedRegistry.IsProtectedAny` | titan-hwm-v3/core/protected_registry.cpp:121-131 | True exactly when some listed pid is shielded. |
| `Protection.ProtectedRegistry.IsCollateralProtected` | titan-hwm-v3/core/protected_registry.cpp:136-147 | The browser verdict depends on the executable path only. |
| `Protection.ProtectedRegistry.IsCollateralProtectedAny` | titan-hwm-v3/core/protected_registry.cpp:149-156 | True exactly when some listed pid is shielded or a browser. |
| `Protection.ProtectedRegistry.BootstrapFromSystemd` | titan-hwm-v3/core/protected_registry.cpp:178-223 | Exactly the scanned pids above 1 with a protected name or a protected path join the explicit set. |
| `Enforcement.EnforcedIsContained` | titan-hwm-v3/enforcement/enforcement_plane.cpp:66-134 | Whatever the decision: effects reach members or slices only, no kill is sent, and no shielded pid is stopped. |
| `Enforcement.OnlyFreezeStops` | titan-hwm-v3/enforcement/enforcement_plane.cpp:66-134 | SIGSTOP is sent only for FREEZE of a workload that is neither hard-blocked nor rooted in a browser. |
| `Enforcement.EnforcedIsCarried` | titan-hwm-v3/enforcement/enforcement_plane.cpp:66-134 | Effect by effect, for every decision: a process is moved if and only if it is a living member, to the slice of the decision (active, background, background, frozen; active under the hard block); FREEZE sends SIGSTOP to exactly the living unshielded members, browser roots excepted, and before anything else; waking, scores, weights and the freezer exactly as the decision says; RECLAIM does nothing. |
| `Enforcement.KeepWakes` | titan-hwm-v3/enforcement/enforcement_plane.cpp:77-90 | KEEP decisions send SIGCONT to every stopped member. |
| `Enforcement.KillsSpareTheDomain` | titan-hwm-v3/policy/reclaim_engine.cpp:189-221 | A kill round signals exactly the members that are neither shielded nor browsers. |
| `Enforcement.EnforcementPlane.Apply` | titan-hwm-v3/enforcement/enforcement_plane.cpp:66-134 | The kernel log grows by exactly the effects of the decision. Told from the log alone: who is stopped, woken, moved and rescored, where to and by how much, stops first; false exactly when the hard block fired. |
| `Enforcement.EnforcementPlane.SignalTree` | titan-hwm-v3/enforcement/enforcement_plane.cpp:20-42 | SIGSTOP to exactly the unshielded existing pids, in order. |
| `Enforcement.EnforcementPlane.SigcontIfStopped` | titan-hwm-v3/enforcement/enforcement_plane.cpp:47-57 | SIGCONT to exactly the stopped pids, in order. |
| `Enforcement.EnforcementPlane.MoveToSlice` | titan-hwm-v3/enforcement/cgroup_controller.cpp:150-163 | Moves exactly the existing pids, in order. |
| `Enforcement.EnforcementPlane.SetOomScore` | titan-hwm-v3/enforcement/cgroup_controller.cpp:190-199 | Rescores every listed pid, in order. |
| `Reclaiming.ReclaimedIsHarmless` | titan-hwm-v3/policy/reclaim_engine.cpp:226-293 | An attempt sends only TERM and KILL, on behalf of its workload, to members outside the protected domain as seen at the moment of sending. |
| `Reclaiming.MayReclaimIfNothingForbids` | titan-hwm-v3/policy/reclaim_engine.cpp:73-106 | The four checks, as loops over members and workloads, pass if and only if no member is shielded or executing, no running workload is rooted inside, and the last use is far enough back in milliseconds. |
| `Reclaiming.FocusInMilliseconds` | titan-hwm-v3/policy/reclaim_engine.cpp:62-106 | The focus guard in whole seconds, told in milliseconds, for limits of any sign. |
| `Reclaiming.ReclaimedKillsDue` | titan-hwm-v3/policy/reclaim_engine.cpp:267-293 | Of one attempt, effect by effect: SIGTERM goes to a process if and only if nothing forbids the reclaim and it is a member neither shielded nor a browser at the first stage, SIGKILL likewise at the second, and nothing else is sent. |
| `Reclaiming.KillsInOrder` | titan-hwm-v3/policy/reclaim_engine.cpp:281-293 | Every member is asked before any member is killed. |
| `Reclaiming.RecheckOnlySeesTheGuard` | titan-hwm-v3/policy/reclaim_engine.cpp:271-279 | The re-check after the grace period uses the snapshot of the first check, so only a change in what is shielded can still stop the attempt. |
| `Reclaiming.ReclaimEngine.Reclaim` | titan-hwm-v3/policy/reclaim_engine.cpp:226-293 | Succeeds if and only if nothing forbids the reclaim at either check. Then the log grows by SIGTERM for exactly the members that may be asked at the first stage and SIGKILL for exactly those that may be killed at the second, all of the former first; otherwise nothing is sent. Notifications stay spaced. |
| `Reclaiming.ReclaimEngine.CheckAll` | titan-hwm-v3/policy/reclaim_engine.cpp:73-106 | True exactly when none of the four conditions forbids the reclaim. |
| `Reclaiming.ReclaimEngine.KillTree` | titan-hwm-v3/policy/reclaim_engine.cpp:189-221 | The log grows by exactly one kill round. |
| `Reclaiming.ReclaimEngine.Notify` | titan-hwm-v3/policy/reclaim_engine.cpp:122-169 | A notification is shown exactly when enabled, possible and the interval in milliseconds is over; shown ones are at least the interval apart, and the first one is never withheld. |
| `Daemon.Daemon.Loop` | titan-hwm-v3/daemon/daemon.cpp:831-1186 | For every sequence of worlds: between ticks, every listed pid is owned by the workload listing it, ids are distinct and issued, a workload is observed iff its type is NEUTRAL and then not decayed, at most 128 are observed, none is terminated, every phase is the run of its recorded inputs, no shielded pid was stopped or killed and no browser killed. Every kill was sent at the end of an unbroken quiet stretch in the record of its workload and, when the clock does not run backwards, at least 60000 ms times the hard age limit after its last use; no SIGSTOP, SIGTERM or SIGKILL was ever sent for a service, a VM, or a workload recorded as executing, shown or guarded at that tick. A process that stays in the snapshots keeps its owner; when that workload is no longer registered it never is again, and nothing is ever sent to the process. Also the exact tick count and which ticks retry observed workloads: without a tick limit all of them, with one every tenth. |
| `Daemon.Daemon.Round` | titan-hwm-v3/daemon/daemon.cpp:831-838 | One round: the counter moves only under a tick limit, and exceeding it ends the loop before anything else happens. |
| `Daemon.Daemon.Tick` | titan-hwm-v3/daemon/daemon.cpp:838-1186 | One tick keeps all of this and says what it does, stage by stage. Filing: new workloads are fresh, rooted at unowned unprotected processes and labelled by classification; every classified process gets one; unclassified roots of users are left out only when 128 are observed; old workloads are relabelled exactly as reviewing their root prescribes. Enforcement: sent is exactly what the decisions for the live workloads call for, and exactly the reclaimed end. Cleanup leaves exactly the workloads with a live member. Kills come no earlier than the hard age limit in milliseconds; no member of an observed workload was signalled, moved or rescored; a dry run sends nothing. |
| `Daemon.Daemon.Act` | titan-hwm-v3/daemon/daemon.cpp:1047-1186 | Enforcement and cleanup keep the invariant and the labels, send exactly what is due, and date every signal of this tick at the end of its record. |
| `DaemonSteps.PromotedAtSecondTick` | titan-hwm-v3/daemon/daemon.cpp:890-919 | A process that gains a classification after its first tick is promoted at the second tick without a tick limit and not at the second tick with one. |
| `DaemonSteps.ReviewOne` | titan-hwm-v3/daemon/daemon.cpp:872-927 | Looking at one process reviews exactly the workloads rooted at it. |
| `Daemon.Daemon.ColdStart` | titan-hwm-v3/daemon/daemon.cpp:697-702 | Registers exactly the discovered workloads, partitioned and filed by root, last used now and typed by their roots, with the daemon invariant established. |
| `Daemon.Daemon.constructor` | titan-hwm-v3/daemon/daemon.cpp:691-697 | The empty daemon satisfies the invariant. |
| `Daemon.Daemon.ClassifyAll` | titan-hwm-v3/daemon/daemon.cpp:856-1011 | Looking at every process in any order keeps the invariant and the cap on observed workloads, loses, re-phases or terminates no workload, relabels the earlier ones exactly as reviewing their roots prescribes, and founds exactly the workloads of classified unowned processes and, while there is room, of observable ones. |
| `Daemon.Daemon.LookAt` | titan-hwm-v3/daemon/daemon.cpp:856-1010 | One process more has been looked at; the count is that of the observed workloads. |
| `Daemon.Daemon.FileOne` | titan-hwm-v3/daemon/daemon.cpp:872-1010 | The registry afterwards is exactly what filing that one process prescribes; protected processes change nothing. |
| `Daemon.Daemon.Revisit` | titan-hwm-v3/daemon/daemon.cpp:881-927 | Relabels the workload rooted at the process exactly when a retry is due or its command line has drifted. |
| `Daemon.Daemon.Create` | titan-hwm-v3/daemon/daemon.cpp:959-1009 | The new workload takes the next id and ownership of exactly its root. |
| `Daemon.Daemon.EnforceAll` | titan-hwm-v3/daemon/daemon.cpp:1047-1127 | Every live workload is ticked exactly once; only phases change; new effects reach only pids of workloads under management. |
| `Daemon.Daemon.Visit` | titan-hwm-v3/daemon/daemon.cpp:1055-1126 | One round of the loop keeps everything stage (f) has established for the workloads visited so far. |
| `Daemon.Daemon.EnforceOne` | titan-hwm-v3/daemon/daemon.cpp:1055-1126 | One workload is stepped as specified, its record grows by exactly this input, the invariant is restored. |
| `Daemon.Daemon.StepOne` | titan-hwm-v3/daemon/daemon.cpp:1059-1126 | State transition, evaluation and action are exactly those of the components for this world. |
| `Daemon.Daemon.ActOn` | titan-hwm-v3/daemon/daemon.cpp:1075-1126 | Observed workloads and dry runs act not at all; RECLAIM goes to the reclaim engine and terminates on success; other decisions are enforced. |
| `Daemon.Daemon.CleanUp` | titan-hwm-v3/daemon/daemon.cpp:1130-1186 | Leaves exactly the workloads that are not terminated and have a live member, listing live pids only; ownership forgets exactly the pids that vanished. |
| `Daemon.Daemon.PruneAllPids` | titan-hwm-v3/daemon/daemon.cpp:1153-1160 | Every workload keeps exactly its live pids. |
| `Daemon.Daemon.Evict` | titan-hwm-v3/daemon/daemon.cpp:1168-1186 | Removes exactly the workloads without a live member. |
| `Daemon.Daemon.ForgetDead` | titan-hwm-v3/daemon/daemon.cpp:1141-1149 | Ownership loses exactly the dead pids. |
| `DaemonSteps.NoSharedPids` | titan-hwm-v3/daemon/daemon.cpp:872-1011 | No two registered workloads share a pid. |
| `DaemonSteps.JustifiedIsQuiet` | titan-hwm-v3/daemon/daemon.cpp:1068-1118 | Signals justified by the records went to no service, no VM and nothing recorded as executing, shown or guarded. |
| `DaemonSteps.InputIsRead` | titan-hwm-v3/daemon/daemon.cpp:1055-1069 | What a workload is judged by: the flags of its workspace, hidden when unknown; executing when a member executes, completed when none is known. |
| `DaemonSteps.KillsAreLate` | titan-hwm-v3/daemon/daemon.cpp:1068-1118 | In every record, a kill comes at least the hard age limit in milliseconds after the last use. |
| `DaemonSteps.KillsOfTickAreLate` | titan-hwm-v3/daemon/daemon.cpp:1068-1118 | The same for the kills of one tick, told from the clock and the registry. |
| `DaemonSteps.TickKeepsTime` | titan-hwm-v3/daemon/daemon.cpp:1055-1069 | Records stay in order of time when the clock does not run backwards. |
| `DaemonSteps.LabelsAfterReview` | titan-hwm-v3/daemon/daemon.cpp:881-927 | Exactly what a review does to the labels, told from the process and its classification. |
| `DaemonSteps.NewIsFounded` | titan-hwm-v3/daemon/daemon.cpp:959-1009 | A new workload is fresh, last used now and labelled by its classification. |
| `DaemonSteps.StepSendsDue` | titan-hwm-v3/daemon/daemon.cpp:1059-1126 | A step sends exactly the effects its decision calls for, told from the recorded inputs. |
| `DaemonSteps.OneMoreCarriedOut` | titan-hwm-v3/daemon/daemon.cpp:1055-1127 | So the log of the stage stays exactly what is due for the workloads visited. |
| `DaemonSteps.SurvivorsAreExact` | titan-hwm-v3/daemon/daemon.cpp:1130-1186 | A workload survives exactly when it is not terminated and a member above pid 1 is there and no zombie; it lists its live members in order. |
| `DaemonSteps.WindowsInRange` | titan-hwm-v3/daemon/daemon.cpp:1068-1069 | In every reachable daemon state the hysteresis counters are in range. |
| `DaemonSteps.SteppedTouchesOnlyMembers` | titan-hwm-v3/daemon/daemon.cpp:1055-1126 | A step changes only the phase, reaches members only, sends nothing for an observed workload, and harms no protected process. |
| `DaemonSteps.SteppedKeepsRecord` | titan-hwm-v3/daemon/daemon.cpp:1068-1118 | A step keeps phase and record in agreement, and any kill it sends is justified by the quiet stretch that ends with this very tick. |
| `DaemonSteps.ConsistentAfterStep` | titan-hwm-v3/daemon/daemon.cpp:1055-1127 | A step keeps the cross-component invariant. |
| `DaemonSteps.ConsistentAfterCreate` | titan-hwm-v3/daemon/daemon.cpp:959-1009 | Creating a workload keeps it. |
| `DaemonSteps.ConsistentAfterRelabel` | titan-hwm-v3/daemon/daemon.cpp:900-924 | Relabelling keeps it and never makes a managed workload observed. |
| `DaemonSteps.ConsistentAfterShrink` | titan-hwm-v3/daemon/daemon.cpp:1130-1186 | Cleanup keeps it: ownership forgets a pid only once no workload lists it. |
| `DaemonSteps.SurvivorsStayOwned` | titan-hwm-v3/daemon/daemon.cpp:1140-1186 | Every pid still listed after cleanup is live and still owned. |
| `DaemonSteps.TickIsContained` | titan-hwm-v3/daemon/daemon.cpp:1047-1186 | What is observed after a tick was observed when enforcement ran, so nothing sent reached it. |
| `DaemonSteps.OwnershipLastsOneTick` | titan-hwm-v3/daemon/daemon.cpp:879-1186 | Filing keeps owners and issues new ids only, enforcement reaches members of registered workloads only, and cleanup forgets vanished processes only: so a living process whose workload is gone stays out of reach. |
| `DaemonSteps.OrphanIsUnlisted` | titan-hwm-v3/daemon/daemon.cpp:879-883 | No workload lists a process whose owner is not registered. |
| `FilterPatterns.TranslationPreservesMeaning` | titan-browser-source/src/adblocker.cpp:351-385 | For every pattern and every one-line URL: the emitted regex text, parsed and searched, hits iff the filter matches. Covers stars, carets, escapes, the double-bar prefix (scheme, slash-free run, glob: no label boundary) and a single leading bar (a separator). |
| `FilterPatterns.FiltersIgnoreCase` | titan-browser-source/src/adblocker.cpp:382-384 | Whether a filter matches depends neither on its case nor on that of the URL. |
| `FilterPatterns.SeparatorsAreExact` | titan-browser-source/src/adblocker.cpp:366-367 | The caret stands for exactly six separators. |
| `FilterPatterns.RegexTextParses` | titan-browser-source/src/adblocker.cpp:351-385 | The emitted text always parses, to the intended expression. |
| `FilterPatterns.ItemsMeanGlob` | titan-browser-source/src/adblocker.cpp:362-377 | The translated body matches a stretch exactly when the pattern read as a glob does. |
| `FilterPatterns.BuildRegex` | titan-browser-source/src/adblocker.cpp:351-385 | The emitted text for every pattern. |
| `FilterPatterns.Escape` | titan-browser-source/src/adblocker.cpp:362-377 | The loop emits the pieces of all characters in order. |
| `FilterPatterns.AnchoredHitIsGlob` | titan-browser-source/src/adblocker.cpp:379-380 | A hit of the anchored form is a scheme, a slash-free run and a glob match. |
| `FilterPatterns.AnchoredGlobIsHit` | titan-browser-source/src/adblocker.cpp:379-380 | And conversely. |
| `FilterPatterns.NoLabelBoundary` | titan-browser-source/src/adblocker.cpp:379-380 | For every name and every slash-free text in front of it, the double-bar filter for the name hits: no label boundary is asked for. |
| `FilterPatterns.OtherHostIsHit` | titan-browser-source/src/adblocker.cpp:351-385 | Concrete: the filter for ads.com/x hits badads.com/x. |
| `AdBlocking.DomainRuleBlocksExactly` | titan-browser-source/src/adblocker.cpp:334-342 | Adding a domain rule newly blocks exactly the hosts equal to the domain or ending in a dot and the domain. |
| `AdBlocking.DomainRuleParses` | titan-browser-source/src/adblocker.cpp:309-342 | A domain free of `$`, `*` and `/` is filed as a suffix rule in lower case. |
| `AdBlocking.DomainRulesIgnoreOptions` | titan-browser-source/src/adblocker.cpp:322-342 | Options behind a domain rule, third-party included, change nothing. |
| `AdBlocking.PatternRuleBlocksMatches` | titan-browser-source/src/adblocker.cpp:344-348 | A pattern rule newly blocks exactly the URLs its filter matches, on third-party requests only if it says so. |
| `AdBlocking.ExceptionExemptsMatches` | titan-browser-source/src/adblocker.cpp:314-320 | An exception newly exempts exactly the URLs its text matches, options read as part of the pattern. |
| `AdBlocking.RulesAreMonotone` | titan-browser-source/src/adblocker.cpp:295-306 | No rule but an exception ever unblocks a request, and an exception never newly blocks one. |
| `AdBlocking.VerdictFromLines` | titan-browser-source/src/adblocker.cpp:295-492 | The whole blocker, from the text of any list of filter lines to the verdict on any request: stopped if and only if no bypass applies, some line blocks it and no exception line exempts it; on the video sites exactly two hosts are stopped. |
| `AdBlocking.ListsFromLines` | titan-browser-source/src/adblocker.cpp:295-348 | The lists built from the lines block and exempt exactly what some line blocks or exempts, whatever the order. |
| `AdBlocking.BaseDomainIsLastTwo` | titan-browser-source/src/adblocker.cpp:393-399 | The base domain is made of the last two labels. |
| `AdBlocking.SameBaseDomain` | titan-browser-source/src/adblocker.cpp:393-399 | Two hosts of at least two labels have equal base domains if and only if their last two labels agree. |
| `AdBlocking.LabelsRejoin` | titan-browser-source/src/adblocker.cpp:396 | A host is its labels joined by dots, and no label contains a dot. |
| `AdBlocking.ThirdPartyIsExact` | titan-browser-source/src/adblocker.cpp:405-414 | A request is a third party exactly when the last two labels differ; never when the page has no host. |
| `AdBlocking.OptionsAreBehindLastDollar` | titan-browser-source/src/adblocker.cpp:322-329 | Options are what stands behind the last dollar sign, in lower case. |
| `AdBlocking.SuffixesAreCuts` | titan-browser-source/src/adblocker.cpp:416-425 | The suffixes after dots are exactly what the host walk visits. |
| `AdBlocking.NoExactDomainRules` | titan-browser-source/src/adblocker.cpp:309-348 | Parsing never produces an exact-domain rule. |
| `AdBlocking.AdBlocker.AddRule` | titan-browser-source/src/adblocker.cpp:295-306 | The rule goes to exactly the list of its kind. |
| `AdBlocking.AdBlocker.SuffixWalk` | titan-browser-source/src/adblocker.cpp:417-425 | Finds a match iff the host or a suffix right behind a dot is listed. |
| `AdBlocking.AdBlocker.IsBlocked` | titan-browser-source/src/adblocker.cpp:402-438 | The loops decide exactly the declarative verdict. |
| `AdBlocking.AdBlocker.InterceptRequest` | titan-browser-source/src/adblocker.cpp:441-492 | Stops exactly the requests the rules, exceptions and bypasses say; the counters count requests and stops. |
| `WorkspaceMonitoring.WorkspaceMonitor.ListenOnce` | titan-hwm-v3/ipc/workspace_monitor.cpp:173-209 | For every splitting into reads, the lines handled are exactly the non-empty newline-terminated segments of the stream, in order, and the buffer ends as the unterminated tail; without NUL bytes the stream is the joined bytes, so the splitting does not matter. |
| `WorkspaceMonitoring.WorkspaceMonitor.SplitLines` | titan-hwm-v3/ipc/workspace_monitor.cpp:202-208 | The inner loop handles the complete lines of the buffer and leaves its tail. |
| `WorkspaceMonitoring.WorkspaceMonitor.HandleEvent` | titan-hwm-v3/ipc/workspace_monitor.cpp:224-266 | The topology becomes what the line prescribes; malformed lines change nothing. |
| `WorkspaceMonitoring.WorkspaceMonitor.RefreshVisibility` | titan-hwm-v3/ipc/workspace_monitor.cpp:299-330 | Afterwards exactly the focused workspaces and those found in the answer are visible; focus is untouched; without an answer nothing changes. |
| `WorkspaceMonitoring.WorkspaceMonitor.MarkShown` | titan-hwm-v3/ipc/workspace_monitor.cpp:317-330 | The search loop marks exactly the workspaces the text search finds. |
| `MonitorAnswers.AnswerIsRead` | titan-hwm-v3/ipc/workspace_monitor.cpp:317-330 | From an answer made of monitors whose other members do not contain the key, the search gets every active workspace id, negative ones included, in order, and nothing else. |
| `MonitorAnswers.MonitorIsRead` | titan-hwm-v3/ipc/workspace_monitor.cpp:320-329 | One step of the search reads one such monitor and goes on right behind its number. |
| `WorkspaceMonitoring.CutAnywhere` | titan-hwm-v3/ipc/workspace_monitor.cpp:200-208 | Cutting a stream anywhere changes neither its lines nor its tail when the tail is carried over. |
| `WorkspaceMonitoring.SegmentsRejoin` | titan-hwm-v3/ipc/workspace_monitor.cpp:202-208 | Segments and tail are the stream cut at its newlines: joined again they give the stream, and none contains a newline. |
| `WorkspaceMonitoring.StreamIsWhole` | titan-hwm-v3/ipc/workspace_monitor.cpp:199-200 | Without NUL bytes the reads lose nothing. |
| `WorkspaceMonitoring.FocusStaysUnique` | titan-hwm-v3/ipc/workspace_monitor.cpp:231-245 | In every run at most one workspace is focused, and it is the one reported. |
| `WorkspaceMonitoring.SwitchFocuses` | titan-hwm-v3/ipc/workspace_monitor.cpp:231-245 | A switch takes effect whatever came before. |
| `WorkspaceMonitoring.SwitchIsExact` | titan-hwm-v3/ipc/workspace_monitor.cpp:231-245 | What a switch changes: the new workspace is focused, the old one no longer is, nothing else. |
| `WorkspaceMonitoring.WindowIsShown` | titan-hwm-v3/ipc/workspace_monitor.cpp:248-265 | The class in front of the first comma and the title behind it become those of the focused workspace, nothing else changes. |
| `WorkspaceMonitoring.OtherLinesChangeNothing` | titan-hwm-v3/ipc/workspace_monitor.cpp:224-266 | Lines of any other form change nothing. |
| `Text.StoIReadsNumbers` | titan-hwm-v3/ipc/workspace_monitor.cpp:232-233 | Digits with or without a minus sign that fit an int are read as their value, whatever follows them. |
| `Text.FoldingIsExact` | titan-browser-source/src/adblocker.cpp:383 | Folding maps each of the 26 capitals to its small letter and changes nothing else. |
| `Accents.CollectionIsSound` | titanfetch-src/sysinfo.cpp:368-423 | For every configuration and include tree: at most 14 colours, no two within 25 degrees, all interesting, each named in a visited file the main file leads to; below ten, every accent of every visited file is represented. |
| `HueCircle.AtMostFourteen` | titanfetch-src/sysinfo.cpp:346-354 | At most 14 hues fit on the circle 25 degrees apart. |
| `AccentLimit.FourteenAreCollected` | titanfetch-src/sysinfo.cpp:297-421 | The bound is met: a configuration whose only line is a border line with fourteen rgba tokens, decoded as the scanner decodes them, collects fourteen colours, although the size guard says ten. |
| `ColorTokens.TokenRoundTrip` | titanfetch-src/sysinfo.cpp:297-333 | Every colour of four bytes is what the scanner reads from its token rgba(rrggbbaa), whatever the bytes. |
| `ColorTokens.HueTokenIsAccent` | titanfetch-src/sysinfo.cpp:297-346 | For every hue from 0 to 359 there is a token whose colour has exactly that hue and counts as an accent. |
| `ColorTokens.RgbTokenIsOpaque` | titanfetch-src/sysinfo.cpp:326-331 | The spelling rgb(...) gives an opaque colour, whatever stands behind the three channels. |
| `ColorTokens.AccentsByChannels` | titanfetch-src/sysinfo.cpp:335-346 | Exactly which colours count as accents, told from the channels. |
| `ColorTokens.SeventyFiveDegrees` | titanfetch-src/sysinfo.cpp:317-322 | Concrete: the token for 75 degrees is rgba(b4f000ff). |
| `AccentLines.BorderLineIsRead` | titanfetch-src/sysinfo.cpp:392-409 | A border line with any number of such tokens is read as a colour line with exactly these words; no other rule of the scanner skips it. |
| `AccentLines.HueTokenNamesAccent` | titanfetch-src/sysinfo.cpp:410-419 | The cleaning of words leaves such a token as it is, and the token names an accent of its hue. |
| `AccentLines.SourceLineIsRead` | titanfetch-src/sysinfo.cpp:381-390 | An include line names the path behind its key, quoted or not. |
| `AccentLines.PathsResolve` | titanfetch-src/sysinfo.cpp:383-387 | Where a path leads: below the home directory, to itself, or below the configuration directory. |
| `AccentLines.LuaComesFirst` | titanfetch-src/sysinfo.cpp:434-442 | The Lua configuration is read when there is one, the older format otherwise. |
| `AccentLines.ColorLinesOfferWords` | titanfetch-src/sysinfo.cpp:395-409 | Every colour line offers the words behind its first equals sign, or all of them without one. |
| `AccentLines.OtherLinesOfferNothing` | titanfetch-src/sysinfo.cpp:392-402 | Comments, lines about other colours and lines without a colour key offer nothing. |
| `AccentLimit.LineKeepsLimitIffOneHue` | titanfetch-src/sysinfo.cpp:378-421 | Exactly when ten is the limit: a line keeps every spaced list shorter than ten within ten iff all accents it names share the hue of the first one. |
| `AccentLimit.TenIsTheLimit` | titanfetch-src/sysinfo.cpp:378-421 | Hence a configuration whose colour lines each name one hue collects at most ten. |
| `HueCircle.LimitHoldsIffOneHue` | titanfetch-src/sysinfo.cpp:346-354 | The same on colours: for the converse, nine colours away from the two unlike ones overflow. |
| `HueCircle.OneHueGrowsByOne` | titanfetch-src/sysinfo.cpp:417-419 | Offers close to the first of them never add more than one colour, whatever the list. |
| `HueCircle.NineAwayWorks` | titanfetch-src/sysinfo.cpp:346-354 | Away from any two unlike hues there is room for nine more, spaced among themselves. |
| `HueCircle.OneHueIsNotPairwise` | titanfetch-src/sysinfo.cpp:346-354 | Being close to the first is less than being pairwise close. |
| `Accents.FourteenIsReached` | titanfetch-src/sysinfo.cpp:378-421 | Fourteen words with hues 25 degrees apart are all taken by one line. |
| `Accents.SpreadTokensAreTaken` | titanfetch-src/sysinfo.cpp:408-421 | Every word of a line whose hues keep their distance is taken. |
| `AccentIncludes.ShallowVisitsAll` | titanfetch-src/sysinfo.cpp:371-390 | When no chain of includes without repetition is longer than the depth limit allows, the scan visits exactly the files the main file leads to, or fills the list. |
| `AccentIncludes.BeyondTheLimitIsMissed` | titanfetch-src/sysinfo.cpp:371-390 | A file that lies beyond the limit on all its chains is never visited. |
| `AccentIncludes.VisitedIsNear` | titanfetch-src/sysinfo.cpp:371-390 | Every visited file ends a chain without repetition within the limit. |
| `AccentIncludes.TreeVisitsAllIffShallow` | titanfetch-src/sysinfo.cpp:371-390 | Where no file is included along two chains that is exact: visiting everything implies that no chain is too long, and conversely up to a full list. |
| `AccentIncludes.EighthFileIsLost` | titanfetch-src/sysinfo.cpp:371-390 | Concrete: of eight readable files in a row the last one is never visited; the accent it names is missing although nothing else was collected. |
| `AccentIncludes.ShortRouteIsLost` | titanfetch-src/sysinfo.cpp:371-390 | Concrete: the same happens to a file two includes away from the main file when a longer chain gets to the file before it first. |
| `AccentIncludes.OrderDecides` | titanfetch-src/sysinfo.cpp:371-390 | With the two lines of that main file exchanged the accent is collected. |
| `Accents.NoIncludeIsMissed` | titanfetch-src/sysinfo.cpp:371-390 | The step behind these: while the list is not full, the visited files are those the main file leads to iff the depth guard turned no include away for good. |
| `Accents.OpeningKeepsRoutes` | titanfetch-src/sysinfo.cpp:371-390 | Every visited file keeps a chain of visited files, none twice, as long as its depth says. |
| `Accents.ChainIsVisited` | titanfetch-src/sysinfo.cpp:371-390 | Then every chain of includes from the main file is followed to its end. |
| `Accents.ShownIsSpaced` | titanfetch-src/sysinfo.cpp:434-459 | The final list has at most five colours, no two alike, collected ones first; fewer than five only when every fallback resembles one of them. |
| `Accents.AccentReader.ScanHyprFile` | titanfetch-src/sysinfo.cpp:368-423 | The recursive scan with its shared list and visited set computes the specified scan, for every depth and state. |
| `Accents.AccentReader.TakeAccents` | titanfetch-src/sysinfo.cpp:408-421 | The token loop offers every word in order. |
| `Accents.AccentReader.IsDuplicateHue` | titanfetch-src/sysinfo.cpp:346-354 | True exactly when some listed hue is closer than 25 degrees on the circle. |
| `Accents.AccentReader.ReadHyprlandAccents` | titanfetch-src/sysinfo.cpp:434-459 | Padding and truncation of the scan of the authoritative file. |
| `TelemetryPublishing.TelemetryPublisher.Publish` | titan-hwm-v3/ipc/telemetry_publisher.cpp:148-178 | Exactly when a write is due: the snapshot says something else than the last one recorded, or the interval is over; with another timestamp it always is. A reader finds the last recorded complete payload unless a rename fails; a failed write changes nothing. |
| `TelemetryPublishing.SameTextSameSnapshot` | titan-hwm-v3/ipc/telemetry_publisher.cpp:58-139 | Two snapshots print alike iff they say the same, so never with different timestamps. |
| `TelemetryPublishing.MebibytesAreWhole` | titan-hwm-v3/ipc/telemetry_publisher.cpp:104 | Memory is reported in whole mebibytes, the rest dropped. |
| `TelemetryKeys.PressureFirstFields` | titan-hwm-v3/ipc/telemetry_publisher.cpp:64-71 | A reader that looks up a key of the pressure object finds the field of that name, for the first five keys. |
| `TelemetryKeys.PressureLastFields` | titan-hwm-v3/ipc/telemetry_publisher.cpp:64-71 | The same for the last one. |
| `TelemetryKeys.CpuFirstFields` | titan-hwm-v3/ipc/telemetry_publisher.cpp:72-82 | The same for the cpu object, its first five keys. |
| `TelemetryKeys.CpuLastFields` | titan-hwm-v3/ipc/telemetry_publisher.cpp:72-82 | The same for the other four. |
| `TelemetryKeys.ProcessesFields` | titan-hwm-v3/ipc/telemetry_publisher.cpp:88-94 | The same for the processes object. |
| `TelemetryKeys.UnmanagedFields` | titan-hwm-v3/ipc/telemetry_publisher.cpp:100-106 | The same for an unmanaged process. |
| `TelemetryKeys.WorkloadFirstFields` | titan-hwm-v3/ipc/telemetry_publisher.cpp:124-135 | The same for a workload, its first five keys. |
| `TelemetryKeys.WorkloadLastFields` | titan-hwm-v3/ipc/telemetry_publisher.cpp:124-135 | The same for the other five. |
| `TelemetryKeys.SnapshotStampFields` | titan-hwm-v3/ipc/telemetry_publisher.cpp:60-62 | The same for version and time stamp of the snapshot. |
| `TelemetryKeys.SnapshotPressureFields` | titan-hwm-v3/ipc/telemetry_publisher.cpp:63-71 | The same for uptime and pressure. |
| `TelemetryKeys.SnapshotCpuFields` | titan-hwm-v3/ipc/telemetry_publisher.cpp:72-83 | The same for cpu and governor. |
| `TelemetryKeys.SnapshotCountFields` | titan-hwm-v3/ipc/telemetry_publisher.cpp:84-85 | The same for the counts of workloads. |
| `TelemetryKeys.SnapshotProcessFields` | titan-hwm-v3/ipc/telemetry_publisher.cpp:86-94 | The same for classified and observed workloads and the processes. |
| `TelemetryKeys.SnapshotListFields` | titan-hwm-v3/ipc/telemetry_publisher.cpp:96-137 | The same for the lists and the last action. |
| `TelemetryPublishing.SerializeSnapshot` | titan-hwm-v3/ipc/telemetry_publisher.cpp:58-139 | The text, read by an RFC 8259 parser, yields exactly the value of the snapshot: every key, number and byte string, whatever the strings contain. |
| `TelemetryPublishing.Esc` | titan-hwm-v3/ipc/telemetry_publisher.cpp:26-47 | The loop computes the escaping of every byte string. |
| `TelemetryPublishing.WriteTopUnmanaged` | titan-hwm-v3/ipc/telemetry_publisher.cpp:96-110 | The comma-separated loop prints exactly the array. |
| `TelemetryPublishing.WriteWorkloads` | titan-hwm-v3/ipc/telemetry_publisher.cpp:121-137 | The comma-separated loop prints exactly the array. |
| `TelemetryPublishing.WriteLastAction` | titan-hwm-v3/ipc/telemetry_publisher.cpp:112-119 | An object when there is an action, null otherwise. |
| `JsonPrinter.EscapeRoundTrip` | titan-hwm-v3/ipc/telemetry_publisher.cpp:26-47 | Scanning an escaped string by section 7 of RFC 8259 gives back every byte string and stops exactly at its closing quote. |
| `JsonPrinter.EscapedIsClean` | titan-hwm-v3/ipc/telemetry_publisher.cpp:26-47 | The output has no control byte, and no quote in it closes it: read from the start, every part of it is an unfinished string. |
| `JsonPrinter.PrintRoundTrip` | titan-hwm-v3/ipc/telemetry_publisher.cpp:58-139 | Every value survives being printed and parsed. |
| `JsonPrinter.ValueRoundTrip` | titan-hwm-v3/ipc/telemetry_publisher.cpp:58-139 | The parser stops exactly at the end of the printed value, whatever closes or continues its container. |
| `Numerals.NatTextReads` | titan-hwm-v3/ipc/telemetry_publisher.cpp:62-63 | Printed digits read back as the number, without needless zeros. |
| `Numerals.IntTextIsNumber` | titan-hwm-v3/ipc/telemetry_publisher.cpp:62-63 | Printed integers are JSON numbers. |
| `Numerals.FixedTextIsNumber` | titan-hwm-v3/ipc/telemetry_publisher.cpp:50-54 | Two-decimal numerals are JSON numbers. |

## Left out

- Ids are unbounded naturals; the 32-bit wrap of `next_workload_id` is not modelled.
- Classification scores, directory markers, command-name lists and the activity detector are arbitrary inputs; so are the
  protected and browser tables.
- Percentages and PSI averages are exact reals; rounding of floats is not modelled.
- `/proc`, cgroup files, pidfds, sockets, sleeps and process spawning appear as inputs or as logged effects; whether an effect
  succeeds is not modelled. A pid is stopped, in the model, when the parse of its stat line says so. SIGCONT carries no
  protection claim.
- Startup and shutdown thaw sweeps, the governor, telemetry inventory lists and the decision log of the daemon.
- Reaping of notification children.
- Per-workload claims about shared slice settings: the last writer in a tick wins.
- `created_at`, `confidence`, `is_building` and `last_executing`, which no modelled decision reads.
- In the regular-expression grammar: constructs the blocker never emits. Case folding is ASCII. Regex literals match UTF-16
  units, one character each.
- `resourceType` of a request, which the verdict ignores; splitting list files into lines.
- GuardFiles.FileStore.VerifyFileChecksum: does not promise that success means the expected checksum, because the code does
  not: the exact conditions are above. File permissions of a restored file are not modelled.
- Accent colours: the theorems about all configurations hold for every decoding of tokens into colours with the toolkit's
  range; `ColorTokens` is the decoding of the scanner, used in the concrete configurations. The toolkit's conversion to hue,
  saturation and value is written in exact integers. A file is the list of pieces `fgets` returns, already decoded.
- AccentLimit.TenIsTheLimit: one direction only; a line of several hues exceeds the limit after some lists
  (`AccentLimit.LineKeepsLimitIffOneHue`), and which list it meets depends on the lines before it.
- AccentIncludes.ShallowVisitsAll: one direction only; where a file is included along several chains, which of them comes first
  decides (`AccentIncludes.ShortRouteIsLost`, `AccentIncludes.OrderDecides`).
- Workspace events: callbacks, and running the command whose answer is searched.
- Telemetry numbers that are not finite; the snapshot's numbers are given rounded to hundredths. Strings are bytes: that they are
  well-formed UTF-8, as RFC 8259 wants of the whole text, is up to the caller.
- Hotzones, Spotlight, settings back ends, themes and user interface.
