# Patchi: verified models of its state-keeping protocols

Patchi keeps its state in JSON files and a few in-memory managers. This project
models the protocols around that state, and the algorithms that read it, in
Dafny 4.11, and proves what they guarantee. `dafny verify dfyconfig.toml` checks
everything.

Every module stands for one part of the program:

| module | part of the program |
|---|---|
| `TaskQueue`, `QueueProtocol`, `QueuePicker` | the task queue: its operations on the file, any number of processes running them at once (with the two unlocked writers and processes dying), and picking and draining by priority |
| `Snapshot` | snapshots and rollback on a file system, with crashes between and inside file operations |
| `AtomicReplace` | the retrying replace of one file by another |
| `Memory` | concurrent writers of a memory file, in one process and in many |
| `BlastRadius` | the import graph, the affected-files worklist, and the ranking of the fifty largest |
| `EnvFile` | the `.env` text file as a map |
| `ScanBus`, `BusProtocol`, `QueueRunner` | sharding, the finding bus, and the parallel runner |
| `Spawn` | the tap-to-spawn gate over traces of taps, completions and passing time |
| `ReadmeSplice` | rewriting the generated README section and its `--check` |
| `Coverage`, `HealthScore`, `Rounding` | the coverage index and the health score |
| `Config` | dotted-path settings |
| `Common` (`Sorting`, `Texts`) | list filtering, the stable sort, string occurrences |

Operations that change state are methods of a class with the source's fields,
proved against a function of the old state. Concurrency is a step system: a state
value, a set of events, `Enabled` and `Step`, with `Runs`/`After` for whole runs;
the theorems quantify over every run. A sequential method and its protocol are
connected by lemmas that a whole operation running alone has the method's effect
(`QueueProtocol.WholeOperation`, `Memory.WholeOperation`).

Where the code does not keep what one might expect of it, the condition is exact
or a run shows the failure:

- Concurrent queue operations come down to the replay of them in commit order, or
  to any order at all, exactly when all of them take the file lock
  (`QueueProtocol.LinearizableIffAllLocked`): two overlapping `clear`s, or
  `clear_all`s, both claim one waiting item. An unlocked `clear` overlapping a
  `mark_done` also puts a finished item back to ACTIVE
  (`QueueProtocol.UnlockedClearIsNotLinearizable`). The depth limit and "never
  WAITING again" survive the unlocked writers.
- The lock of the memory module is per process: a set of threads never loses an
  update exactly when they are threads of one process
  (`Memory.NothingLostIffOneProcess`).
- A restore never shows a torn tracked file exactly when no tracked path is the
  `.rollback_tmp` name of a tracked file with content
  (`Snapshot.NeverTornIffTmpDisjoint`).
- A write to `.env` is read back, in any file, exactly when the value has no line
  break and no quote character, of either kind, at an end - provided the key has
  no line break and no white space in front and no indented line of the file
  shadows it; otherwise only a value that is read anyway is read back
  (`EnvFile.WriteReadIff`). The writer looks at bare lines and the reader at
  stripped ones, so an indented line is read for ever
  (`EnvFile.IndentedLineShadows`).
- The `.env` file behaves as a map on a set of keys exactly when all are readable,
  none of them starts with another one and `=`, and no line of the file shadows one
  (`EnvFile.MapIffKeysApart`).
- Regenerating the README section makes the next `--check` succeed exactly when
  the rendering does not contain the END marker; else it stays stale for ever
  (`ReadmeSplice.RegenerateThenCheck`).
- `atomic_replace` with `retries == 0` returns normally and replaces nothing. On
  Windows a target that existed is missing for a time, or for good if the call
  raises, exactly when the unlink of a reached attempt was granted.
- `set_value` raises exactly when an existing value on the way is not an object
  (`Config.SetPathSucceedsIff`).
- The docstring of `_compute_security` speaks of injection, crypto and
  authorization deductions and of -25 for every secret; the code has no such
  deductions and caps secrets at 60. The model follows the code.

Assumptions: truncated uuids and tmp names are fresh; the clock does not go back,
and its ISO strings order like its readings; `extra` does not override an item's
core fields; in the queue model one `_write` (tmp file plus rename) is one step,
and renames are POSIX renames; JSON encoding is faithful; texts are decoded with
newlines normalised; paths are normalised; floats are reals.

## Model

| member | source | states |
|---|---|---|
| TaskQueue.QueueFile.EnqueueTask | patchi/core/queue.py:125-167 | refuses at 50 waiting items and leaves the file alone, else appends one item, field by field as the source builds it, with the task and priority as given |
| TaskQueue.QueueFile.UpdateItem | patchi/core/queue.py:244-254 | the scan updates the first item with the id and writes, or writes nothing and answers False |
| TaskQueue.QueueFile.SetPaused | patchi/core/queue.py:260-275 | pause sets the flag, resume clears it, and neither changes an item |
| TaskQueue.QueueFile.SkipActiveItem | patchi/core/queue.py:282-294 | skips the first ACTIVE item, or writes nothing |
| TaskQueue.QueueFile.ClearWaiting | patchi/core/queue.py:297-307 | keeps exactly the items not WAITING, in order, and the paused flag, and counts the rest |
| TaskQueue.QueueFile.ClearEverything | patchi/core/queue.py:310-317 | empties the list whatever is on it, keeps the paused flag and counts the items |
| TaskQueue.EnqueueAppends | patchi/core/queue.py:138-167 | every field of the item an enqueue appends, and that nothing else changes |
| TaskQueue.WholeQueueEffects | patchi/core/queue.py:260-317 | what pause, resume, clear, clear_all and an idle skip_active do to the flag, to the list and to the file |
| TaskQueue.EffectBoundsDepth | patchi/core/queue.py:143-147 | no operation takes the depth over the limit; enqueue is refused exactly when the queue is full; clear leaves depth 0 and reports what it removed |
| TaskQueue.UpdateTouchesOne | patchi/core/queue.py:198-254 | which item a mark changes, which of its fields, and that nothing else changes |
| TaskQueue.SkipIsMarkSkipped | patchi/core/queue.py:282-294 | skip_active is mark_skipped on the first active item |
| TaskQueue.ClearUndoesEnqueue | patchi/core/queue.py:297-307 | a clear makes a preceding enqueue as if it had not been |
| QueueProtocol.DepthNeverExceeded | patchi/core/queue.py:138-167 | in every run of any number of processes, unlocked clears and dying processes included, the stored queue never holds more than 50 waiting items |
| QueueProtocol.NeverWaitingAgain | patchi/core/queue.py:198-254 | in every such run an id once stored as active, done, failed or skipped is never WAITING in any later file |
| QueueProtocol.FileStaysOrdered | patchi/core/queue.py:149-166 | in every such run ids stay unique and items stay in creation order |
| QueueProtocol.StepKeepsInv | patchi/core/queue.py:297-317 | the invariant over the file and all in-flight snapshots is kept by every step |
| QueueProtocol.LockIsReleased | patchi/core/queue.py:36-68 | however an operation ends, the process dying included, its lock is free and nothing else is affected |
| QueueProtocol.EffectSound | patchi/core/queue.py:138-167 | an operation computed from a sound, possibly stale, snapshot writes a sound queue; unlocked ones write no waiting id |
| QueueProtocol.LockedRunsUndisturbed | patchi/core/queue.py:36-68 | under the lock no write falls between an operation's read and its write |
| QueueProtocol.UndisturbedRunsLinearizable | patchi/core/queue.py:138-167 | if no write falls in between, the file is the replay of the operations in commit order and every reply is that replay's |
| QueueProtocol.LockedRunsLinearizable | patchi/core/queue.py:36-68 | with locked operations only, every run is the replay in lock order, ids grow append-only, and each enqueued item is there exactly once |
| QueueProtocol.WholeOperation | patchi/core/queue.py:244-254 | an operation running alone has exactly its effect and releases the lock |
| QueueProtocol.LinearizableIffAllLocked | patchi/core/queue.py:282-317 | for any set of operations: all their concurrent runs are the replay in commit order, or in any order at all, if and only if every operation of the set takes the lock |
| QueueProtocol.UnlockedClearIsNotLinearizable | patchi/core/queue.py:297-307 | the file-level example: an unlocked clear reverts a finished item, a file that neither serial order gives |
| QueuePicker.SortedHeadIsFirstMaximal | patchi/core/queue.py:347-360 | the head of the sort by (-priority, created) is the first item of maximal priority when the list is in creation order |
| QueuePicker.PickIsFirstByKey | patchi/core/queue.py:347-360 | in any list the pick has the highest priority, is the oldest of those, and stands first among equals; none exactly if paused or nothing waits |
| QueuePicker.PickInEveryReachableState | patchi/core/queue.py:347-360 | so it is in every run of the shared queue, with any steps of other processes between the read of the flag and the read of the list; and the pick was never retired before |
| QueuePicker.ActivateRemoves | patchi/core/queue.py:198-206 | marking the picked item active removes exactly it from the waiting list |
| QueuePicker.ServedIsSorted | patchi/core/queue.py:347-360 | repeated picking serves the sorted waiting list |
| QueuePicker.DrainServesAll | patchi/core/queue.py:347-360 | draining takes exactly depth rounds and serves each waiting item once, by descending priority and then insertion order |
| QueuePicker.EnqueuedAreServedInOrder | patchi/core/queue.py:125-167 | tasks enqueued on an empty queue, the first fifty, are served each once, by descending priority as passed to enqueue and then in enqueue order |
| QueuePicker.PauseStopsPicking | patchi/core/queue.py:260-275 | nothing is picked between pause and resume, and resuming brings the same pick back |
| Sorting.SortAscending | patchi/core/queue.py:359 | the sort is ordered |
| Sorting.SortStable | patchi/web/api_legacy.py:2163 | the sort is stable |
| Sorting.SortTail | patchi/core/queue.py:359-360 | what follows the head of the sorted list is the sorted rest |
| Snapshot.Workspace.Create | patchi/core/snapshot.py:57-85 | the record holds, for exactly the given paths, the text or absence at that moment; only the new record is written |
| Snapshot.Workspace.Restore | patchi/core/snapshot.py:91-118 | performs exactly the record's file operations and lists its paths, or raises and changes nothing for an unknown id |
| Snapshot.RestoreEffect | patchi/core/snapshot.py:104-116 | a finished restore gives every tracked path its snapshot text or absence and leaves all other paths but the tmp names alone |
| Snapshot.CrashIsWithin | patchi/core/snapshot.py:104-116 | at every crash point, also inside a tmp write, tracked paths hold old or snapshot text and untracked ones are unchanged |
| Snapshot.RestoreIsCrashRecoverable | patchi/core/snapshot.py:91-118 | after any number of crashes and restarts nothing tracked is torn, and a restore run to its end gives the disk of an uninterrupted one |
| Snapshot.NeverTornIffTmpDisjoint | patchi/core/snapshot.py:113-115 | no crash shows a torn tracked file if and only if no tracked path is a tmp name in use |
| Snapshot.ClashTears | patchi/core/snapshot.py:113-115 | the disk and crash that tear a clashing path |
| Snapshot.LifoUndo | patchi/core/snapshot.py:57-118 | restoring the snapshots of any list of patches in reverse returns every file to its original text or absence; only tmp names may be gone and only snapshot records are new |
| AtomicReplace.Replacement.AtomicReplace | patchi/core/atomic.py:18-35 | through every partial failure the new content is whole at source or destination; on POSIX the destination is always old or new; exactly when it returns normally and exactly when the target goes missing, on either platform; what normal return and raising mean; exactly how long it sleeps, and the bound |
| Memory.MemoryFile.Write | patchi/core/memory.py:51-62 | the file holds the new value, no tmp file remains, nothing else changes |
| Memory.MemoryFile.SaveScanResult | patchi/core/memory.py:240-245 | the scanner's entry is replaced and all others are kept, a missing file counting as empty; or the file is torn, and the call raises and writes nothing |
| Memory.WholeOperation | patchi/core/memory.py:65-72 | an update running alone writes the mutated value |
| Memory.StepKeepsInv | patchi/core/memory.py:51-62 | tmp files stay private and complete before they are renamed, at every step of every thread |
| Memory.AlwaysOneCompleteValue | patchi/core/memory.py:51-62 | in every interleaving across processes, failures and kills included, the file is the initial one or the complete value of the last renamer, never torn |
| Memory.LockIsReleased | patchi/core/memory.py:51-72 | however an operation ends, its lock is free and nothing else is affected |
| Memory.OneProcessLosesNothing | patchi/core/memory.py:65-72 | within one process the file is the replay of all updates in lock order, and each scanner has its last saved result; an unreadable file stays so until an overwrite |
| Memory.TwoProcessesLoseAnUpdate | patchi/core/memory.py:33-36 | a run of two processes that loses an update |
| Memory.NothingLostIffOneProcess | patchi/core/memory.py:33-36 | a set of threads never loses an update, whatever its schedule and failures, if and only if they belong to one process |
| BlastRadius.ImportGraph.AddEdge | patchi/core/brain/import_graph.py:106-111 | adds this edge to all three fields consistently and no other |
| BlastRadius.ImportGraph.Populate | patchi/web/api_legacy.py:2123-2126 | the graph's edges are exactly the listed imports |
| BlastRadius.AffectedFiles | patchi/web/api_legacy.py:2134-2144 | on every graph the worklist ends with exactly the other files that import the start directly or indirectly, for any set order |
| BlastRadius.ClosedIsComplete | patchi/web/api_legacy.py:2139-2140 | not expanding through the start file loses nothing |
| BlastRadius.MoreImportsMoreRisk | patchi/web/api_legacy.py:2146-2152 | adding imports never shrinks an affected set or lowers its risk |
| BlastRadius.AffectedTotals | patchi/web/api_legacy.py:2154-2161 | an affected file's total is no larger, and is equal exactly inside an import cycle |
| BlastRadius.CycleTotalsEqual | patchi/web/api_legacy.py:2154-2161 | files of one import cycle have equal totals |
| BlastRadius.TopFiftyRanks | patchi/web/api_legacy.py:2163-2164 | the returned entries are correct, distinct, in stable descending order, and no dropped file beats one of them |
| BlastRadius.ImportGraph.BlastRadii | patchi/web/api_legacy.py:2128-2164 | the endpoint answers with that ranking, or with no data exactly when there are no nodes; each entry counts the direct importers and all affected files, and is CRITICAL above 10, HIGH above 3, MEDIUM above 0, else LOW |
| EnvFile.EnvFile.ReadKey | patchi/web/api_legacy.py:1885-1893 | the first line that assigns the key, stripped and unquoted |
| EnvFile.EnvFile.WriteKey | patchi/web/api_legacy.py:1896-1908 | the key's old lines go and its new line comes last; a .gitignore, if there is one, names the file afterwards and loses nothing but white space at its end |
| EnvFile.EnvFile.RemoveKey | patchi/web/api_legacy.py:1911-1916 | the key's lines go; a missing file stays missing |
| EnvFile.SplitJoin | patchi/web/api_legacy.py:1899-1902 | written lines split back into the same lines; no lines come back as one blank line |
| EnvFile.SplitAtBreak | patchi/web/api_legacy.py:1889-1899 | lines end at each of the breaks splitlines knows, a carriage return and newline being one |
| EnvFile.UnquoteInvertsIffPlain | patchi/web/api_legacy.py:1892 | unquoting inverts quoting exactly on values without quotes at their ends |
| EnvFile.HandWrittenLine | patchi/web/api_legacy.py:1889-1893 | a line written by hand - indented, padded, the value bare or in either kind of quotes - is read as its value |
| EnvFile.KeyPrefix | patchi/web/api_legacy.py:1891 | for any keys and values, exactly when a written line is taken for another key's; never if neither key has an '=' |
| EnvFile.FileIsMap | patchi/web/api_legacy.py:1885-1916 | after any writes and removes, of values without line breaks and end quotes and of keys that are readable and apart, in a file that does not shadow the key: a key reads as its last value since its last removal, else empty, else what was there before; and it gets no second line |
| EnvFile.MapIffKeysApart | patchi/web/api_legacy.py:1885-1916 | a file behaves as a map on a set of keys if and only if the keys are readable and apart and no line shadows one |
| EnvFile.ReadNoBreaks | patchi/web/api_legacy.py:1885-1893 | no value read from any file has a line break |
| EnvFile.WriteReadIff | patchi/web/api_legacy.py:1896-1902 | for every file, key and value, exactly when a write is read back |
| EnvFile.PlainValuesSurviveIff | patchi/web/api_legacy.py:1896-1902 | every value without line breaks and end quotes is read back if and only if the key is readable and unshadowed |
| EnvFile.IndentedLineShadows | patchi/web/api_legacy.py:1890-1891 | the file in which no write of a key is ever read |
| EnvFile.WriteReadIffPlain | patchi/web/api_legacy.py:1896-1902 | on readable, unshadowed keys that are apart, after any operations, a write is read back if and only if the value has no line break and no end quote |
| ScanBus.Shards | patchi/core/scan_bus.py:54-62 | shard k holds, in order, the files whose digest is k modulo the number of shards, and together they hold each file once |
| ScanBus.FindingBus.Publish | patchi/core/scan_bus.py:77-80 | queues the finding last and counts it |
| ScanBus.FindingBus.Drain | patchi/core/scan_bus.py:82-89 | returns everything queued, in order, and leaves the queue empty |
| BusProtocol.StepConserves | patchi/core/scan_bus.py:77-89 | every step of a publisher or drainer conserves the findings |
| BusProtocol.FindingsConserved | patchi/core/scan_bus.py:77-94 | in every interleaving findings put are those drained, in put order, plus those queued, and count is the puts minus the publishers between their two steps |
| BusProtocol.FreshBusConserves | patchi/core/scan_bus.py:71-94 | from a fresh bus on nothing put is lost or handed out twice, and count is exact just when no publisher is between its steps |
| BusProtocol.WholePublish | patchi/core/scan_bus.py:77-80 | a publish running alone queues the finding last and counts it |
| BusProtocol.WholeDrain | patchi/core/scan_bus.py:82-89 | a drain running alone returns everything queued, in order |
| QueueRunner.RunCollectsEverything | patchi/core/scan_bus.py:128-154 | when run returns, under any schedule, each class has one result and one on_done call, the agent's own or a FAILED one with its error, and the bus gained exactly all findings that the runs that did not raise returned |
| QueueRunner.EveryStepCounts | patchi/core/scan_bus.py:131-147 | every step reduces what is left by one |
| QueueRunner.NeverStuck | patchi/core/scan_bus.py:131-147 | until run returns some step is possible |
| QueueRunner.RunAlwaysReturns | patchi/core/scan_bus.py:128-147 | every schedule that cannot go on has returned, after the same number of steps each time, and none is longer |
| QueueRunner.PoolBoundsRunning | patchi/core/scan_bus.py:128-131 | at no moment of any run do more agents run than the pool has workers |
| Spawn.SpawnManager.TrySpawn | patchi/web/spawn.py:67-101 | answers as the specification says; expired ants go, and otherwise a refusal changes nothing and a spawn adds its ant and its tap only |
| Spawn.SpawnManager.ExpireAnts | patchi/web/spawn.py:119-122 | exactly the expired ants are deleted |
| Spawn.SpawnManager.MarkDone | patchi/web/spawn.py:61-63 | only this ant's flag changes; an unknown id changes nothing |
| Spawn.SpawnManager.ActiveCount | patchi/web/spawn.py:103-105 | counts the ants collected one after the other; between the numbers live at its end and at its begin; expiring first does not change the count |
| Spawn.CapsAlwaysHold | patchi/web/spawn.py:90-96 | over every trace, at every moment, at most 5 ants are live and at most 3 on one node |
| Spawn.TapOutcome | patchi/web/spawn.py:67-101 | over every trace the whole answer of a tap: which refusal or a spawn, from the last set_active, the restriction, the spawns before and the ants that are live |
| Spawn.OtherEvents | patchi/web/spawn.py:56-122 | completions, queries and set_active do to the gate what the methods do, and nothing else |
| Spawn.AntsAreSpawns | patchi/web/spawn.py:98-100 | over every trace each ant is one of the recorded spawns, with its node and time |
| Spawn.SpawnRateLimited | patchi/web/spawn.py:124-126 | over every trace spawns on a node are 10 s apart, so a closed window of w seconds has at most floor(w/10)+1 |
| Spawn.RefusalsAreJustified | patchi/web/spawn.py:87-96 | a capacity, busy or cooldown refusal happens only with exactly its cause, although the ants are looked at one after the other |
| Spawn.RefusalChangesNothing | patchi/web/spawn.py:79-96 | a refusal leaves live ants and taps as they are |
| Spawn.AcceptanceAddsOneAnt | patchi/web/spawn.py:98-101 | a spawn adds one live ant and one tap, and blocks the node for 10 s |
| ReadmeSplice.Find | tools/gates/generate_arch_diagrams.py:161 | the first occurrence, or -1 if there is none |
| ReadmeSplice.MarkersMean | tools/gates/generate_arch_diagrams.py:161-164 | the markers count as there exactly if the first END is not before the first BEGIN |
| ReadmeSplice.Readme.Run | tools/gates/generate_arch_diagrams.py:160-182 | exit status and new text in write and check mode |
| ReadmeSplice.NothingBefore | tools/gates/generate_arch_diagrams.py:161-167 | no marker arises before the section, not even across its border |
| ReadmeSplice.EndInside | tools/gates/generate_arch_diagrams.py:166 | an END marker inside the new section is one of the rendering's |
| ReadmeSplice.RegenerateThenCheck | tools/gates/generate_arch_diagrams.py:160-179 | regenerating is idempotent and satisfies the check if and only if the rendering lacks END; the section becomes BEGIN, newline, rendering and END, and the text around it is preserved |
| Coverage.CandidateIsTest | patchi/core/health.py:353-380 | every candidate name is itself classified as a test |
| Coverage.SourceMeans | patchi/core/health.py:350-358 | which files are sources: no test directory on the path and no test pattern in the name, in any case |
| Coverage.StemMeans | patchi/core/health.py:375 | the stem is the name up to its last dot, unless that comes first or last |
| Coverage.CoveredMeans | patchi/core/health.py:366-382 | a file is covered exactly by one of the four test names with one of the nine extensions, beside it or in one of the four test directories |
| Coverage.CoverageMeans | patchi/core/health.py:384-387 | the figure is covered sources per source, in percent to the nearest tenth |
| Coverage.IndexAgrees | patchi/core/health.py:365-382 | the index lookup says covered exactly when direct probing does |
| Coverage.BuildIndex | patchi/core/health.py:345-360 | the first pass indexes exactly the sources and the test names of each directory |
| Coverage.ComputeCoveragePct | patchi/core/health.py:321-387 | the two passes give the directly defined percentage, in 0..100 |
| HealthScore.ComputeSecurity | patchi/core/health.py:163-240 | the loops compute the capped deductions |
| HealthScore.SumDeductions | patchi/core/health.py:225-234 | the per-severity totals over all agents |
| HealthScore.SecurityMonotone | patchi/core/health.py:163-240 | more problems never raise the security score |
| HealthScore.MoreProblemsNeverHelp | patchi/core/health.py:114-123 | more problems of any kind never raise the total or improve the grade, through caps, weights and rounding |
| HealthScore.OneMoreFinding | patchi/core/health.py:225-234 | adding any finding to any agent is such a change |
| HealthScore.TotalInRange | patchi/core/health.py:122 | the total is in 0..100 and the outer clamp is idle when coverage is |
| HealthScore.PerfectIffAllPerfect | patchi/core/health.py:77-83 | the weights are 35, 25, 20, 10 and 10 percent, and the weighted score is 100 exactly when every component is |
| HealthScore.ComponentWorth | patchi/core/health.py:114-120 | what a change of one component alone is worth |
| HealthScore.TotalAndGrade | patchi/core/health.py:122-123 | the total is the integer nearest to the weighted sum, half to even, and the grades begin at 90, 70, 50 and 30 |
| HealthScore.SecurityScore | patchi/core/health.py:163-240 | the security score from the numbers of secrets, routes, cycles, missing tools and findings |
| HealthScore.OtherScores | patchi/core/health.py:260-312 | the dead code, dependency and contract scores from their counts |
| HealthScore.MarginalCosts | patchi/core/health.py:180-187 | what each further secret, route or cycle deducts up to its cap |
| Rounding.RoundMonotone | patchi/core/health.py:122 | rounding half to even keeps order |
| Config.SplitInverts | patchi/core/config.py:214 | a dotted key and its parts determine each other |
| Config.ConfigFile.SetValue | patchi/core/config.py:209-219 | the key reads back and incomparable keys read as before, or, exactly if an existing value on the way is not an object, it raises and saves nothing |
| Config.ConfigFile.InitProject | patchi/core/config.py:158-167 | existing values win over the defaults |
| Config.SetPathSucceedsIff | patchi/core/config.py:216-218 | the walk succeeds exactly when nothing but objects is on the way |
| Config.SetGet | patchi/core/config.py:214-218 | the path reads back the value |
| Config.SetFrame | patchi/core/config.py:214-218 | paths not comparable with it are unchanged |
| Config.SetSet | patchi/core/config.py:214-218 | of two sets at one path the last counts |
| Config.SetValueIsLens | patchi/core/config.py:191-219 | all lens laws hold of what load returns, and a later init_project changes nothing |

## Left out

- Config.SetPath: the walk over nested dictionaries is modelled on values; updating them in place, and sharing of a nested dictionary between two keys, are not captured.
- QueueRunner.RunCollectsEverything: `run` is a step system, not a method, because its loop interleaves with its workers; an `on_done` that raises is not modelled.
- Memory.AlwaysOneCompleteValue: for POSIX renames; `AtomicReplace` says exactly when a Windows reader can find the target missing.
- Snapshot.Workspace.Create: records are kept apart from the files, so writing the record itself (tmp file and replace) is not broken into steps, and reading a file is one step.
- Coverage.Lower: folds ASCII letters only.
- The fixed name queue.tmp, which an unlocked clear and a locked writer share: below the one-step `_write` of the queue model.
- save_patch, save_failed and save_issue, whose reads are outside the lock, are not modelled.
- list_items, stats, is_near_limit, get_item, list_all, get_by_patch_id, compute_diff: read-only views that would add easy members.
- The contract component re-keys retired flow ids first; the re-keyed list is an input of the model.
- The rendering of the diagrams, the file walk of the coverage index and MD5 are inputs.
- Web routes, WebSockets, terminal output, argument parsing, subprocesses, AI and network calls.
