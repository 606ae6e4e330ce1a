# HydraForge: a verified model of its runtime core

HydraForge is a C++ runtime for agents. This project models the parts of it whose correctness rests
on more than one function at a time, and proves what they promise.

- **Session tree.** A session is an append-only file of records and three in-memory indexes (nodes,
  children, branches). `SessionLog` has the operations and the run invariants, `SessionFile` the file
  as text with torn writes, `SessionCodec` the JSON lines it holds, `SessionContext` ancestor walks,
  compaction and migration, `SessionCompaction` runs that compact, `SessionBranches` the shape of a
  branch, `SessionManager` the object itself, `SessionLoad` what loading any file leaves in it,
  `SessionContent` what each operation stores, `SessionLocks` its two mutexes, `SessionRaces` the fields
  they protect, and `SessionIds` the identifiers.
- **Event pipeline.** Bus callbacks, a flush thread and a client share a buffer and a file under two
  locks. `EventBatches` has the data they move, `EventPipeline` the interleaved steps, `EventProgress`
  what they can always get done, `EventOrder` the order of the file, `EventRotation` what rotating at
  the wrong moment costs, `RotatingFile` the rotated files, `EventQuery` reading and the pre-filtered
  query, and `EventLines` the JSON lines it meets.
- **Hooks.** `GlobMatcher` is the backtracking matcher, `HookChain` the registry and the
  priority-ordered chain, `HookText` the texts and warnings it passes on, `HookTies` what equal
  priorities do (`Permutations` has the list facts).
- **Self-mutation.** `Genomes` is the version store, `HarnessMutation` the gates and the
  persist-before-apply update, `DataFreshness` the judgement on recorded data, `EvolutionSession` the
  loop that chains mutations.
- **Contexts and encodings.** `JsonPaths` and `LayeredContext` are the five-layer context addressed by
  dotted paths, `TrajectoryEncoding` the string that the trajectory hash is computed from.
- **JSON.** `JsonValues` has values and their one-line text, `JsonText` that text member by member,
  `JsonReader` the reader and the round trip, `JsonTears` what a torn text does to the one after it.
  `Options` and `Sequences` are shared helpers.

Imperative code is modelled by classes and loops and tied to functions on values by its `ensures`;
the results are lemmas about those functions. `dafny verify dfyconfig.toml` checks everything.

## Main results

1. Replaying the session file after any run of operations rebuilds the indexes exactly, and a file of JSON
   lines cut at any character of the last write replays to the state before or after it
   (`SessionLog.ReplayRebuilds`, `SessionFile.CrashIsAtomic`, `SessionCodec.JsonLinesAreSound`). With
   compactions anywhere in the run, nodes and children still replay exactly, and branches but for main
   (`SessionCompaction.ReplayThroughCompactions`). A record appended to a cut file is lost exactly if the cut
   left part of a line without its newline; and if only that newline was missing, the complete record before
   it, which loads had read, vanishes as well (`SessionCodec.AppendAfterCut`, `ReadRecordVanishes`). What each
   operation stores is what its caller gave, in the indexes and on the line; loading any file at all indexes the
   first line of each node and the last of each branch (`SessionContent.AppendStoresText`,
   `SessionLoad.FirstLineCounts`, `LastLineCounts`).
2. Through a run each branch keeps at most one childless node exactly when every rename meets a current
   branch without one, and then every scan finds the same leaf in any hash-map order
   (`SessionLog.RunKeepsOneLeafIff`, `ScansAgree`). In every reached session a branch is a set of disjoint
   chains, and compaction leaves it one leaf exactly when at most one of its nodes has its parent off the
   branch (`SessionBranches.BranchesAreChains`, `CompactKeepsOneLeafIff`).
3. No reachable lock state is deadlocked, and every run ends (`SessionLocks.NoDeadlock`, `RunsEnd`). In no
   schedule do two threads touch a field at once, one writing it, exactly if no thread names a session where another
   switches, forks or migrates, and none reads the session's id, loads or names where another opens or migrates
   (`SessionRaces.RaceFreeIff`).
4. With rotation taken as part of the write, in every interleaving the pipeline conserves events, writes whole
   batches, and on `stop` has drained the bus and written everything emitted before that exactly once
   (`EventPipeline.StopHasDrained`). The flush thread alone can always catch up with what was emitted, and `stop`,
   once called, can always come to its end (`EventProgress`). The file is in push order exactly while no thread
   begins a batch when the other holds an earlier one, and so as long as nobody calls `flush_sync`
   (`EventOrder.PushOrderIffNoOvertaking`, `WithoutSyncPushOrder`). With rotation in two steps the flush thread can
   lose a batch: exactly when it tests the file during a rotation, which takes a `flush_sync` that rotates
   (`EventRotation.NothingLostIffNeverTested`, `NoSyncNoLoss`).
5. The two writers' rotated files are a whole-line suffix of what was written, each cut at the size
   limit; they keep the same files unless told to keep none (`RotatingFile`).
6. The query's substring test is safe on every line the writer can print exactly for globs whose literal
   part prints as itself, up to backslashes at its end; any other glob loses an event that a read returns
   (`EventLines.TestIsSafeIff`, `UnsafeQueryLoses`). What is returned has the topic asked for and lies in the time
   window (`EventQuery.QueryReturnsMatches`, `TopicMatchesIff`).
7. The glob loop is right for every pattern exactly when the name has no `'*'` (`GlobMatcher.TrustedNames`);
   each hook is given the last edit made before it (`HookText.TextIsLastEdit`); and whatever the hooks do, their
   outcome is the same in every possible order exactly when the priorities of the matching ones all differ
   (`HookTies.OneOutcomeIffDistinct`).
8. A mutation succeeds exactly when admissible, changes nothing otherwise, each error having one exact reason, and
   persists what it applies except an empty prompt; a fork inherits exactly what it leaves unset; in any store a walk
   answers the line of parents if there is one; data is stale for good exactly when it is Confounded and of another
   name, older, or stored off the version's line; an accepted mutation makes all older data so exactly when the new
   prompt is neither empty nor what the parent has stored; the session's live prompt always mirrors its last
   committed version, whatever the genome directory held before.
9. Reading after a write through `at` is determined for every pair of paths; the trajectory string can be
   read back, metadata values and all, exactly when no id or type has a separator byte.

## Where the code and its comments differ

The model follows the code.

- `load_jsonl` says it skips a last line without newline (src/core/session_manager.cpp:203); it keeps one that
  parses.
- `compact` says that appending falls back on reloading (src/core/session_manager.cpp:486); only `fork` reloads.
- The manager's comment says that the write lock protects every public operation and that no locks nest
  (src/core/session_manager.h:115, src/core/session_manager.h:122-123). Reading, switching and loading do not take
  it, the index lock is taken inside it, and naming a session reads the current branch without the index lock
  (src/core/session_manager.cpp:613).
- `flush_sync` says it waits for a batch the flush thread has taken (src/core/event_log.cpp:144-146,
  src/core/session_writer.cpp:112-113); it does not until that thread holds the file lock.
- The readiness gate says the reward must be above 0 (include/agenticdsl/evolution/transition_guard.h:71); 0 passes.
- The genome store is described as having unlimited lineage (src/core/genome/registry_filesystem.cpp:3); commits
  stop at 10000 ancestors.
- Writing the system layer through `at` is said to throw (include/agenticdsl/types/layered_context.h:36); on a path
  that exists it does not.

## Model

| member | source | states |
|---|---|---|
| GlobMatcher.GlobMatch | src/core/agent_hook_registry.cpp:31-52 | the loop with one remembered star terminates and answers the recursive meaning of `*` and `?` for every name without `*` |
| GlobMatcher.TrustedNames | src/core/agent_hook_registry.cpp:35-52 | the literal-first order of tests gives the recursive meaning for all patterns if and only if the name has no `*` |
| GlobMatcher.MatchesIff | src/core/agent_hook_registry.cpp:31-52 | a pattern means: the name can be cut into one part for each of its characters, any text for `*`, one character for `?`, the same one for any other |
| GlobMatcher.LaterPlacement | src/core/agent_hook_registry.cpp:42-44 | a literal run may be placed as early as possible after a star: remembering only the last star loses no match |
| GlobMatcher.Retrying | src/core/agent_hook_registry.cpp:42-44 | advancing the retry point keeps what remains to be matched |
| HookChain.Registry.RegisterPreHook | src/core/agent_hook_registry.cpp:70-77 | a registration is added unless the hook is empty |
| HookChain.Registry.RegisterPostHook | src/core/agent_hook_registry.cpp:79-86 | the same for post-hooks |
| HookChain.Registry.ApplyPreHooks | src/core/agent_hook_registry.cpp:88-134 | the result is the chain run in some order that is a descending-priority arrangement of exactly the matching registrations |
| HookChain.Registry.ApplyPostHooks | src/core/agent_hook_registry.cpp:136-174 | the same for the post-hook chain; unmodified output is not reported |
| HookChain.FirstStopDecides | src/core/agent_hook_registry.cpp:110-133 | the chain denies if and only if some hook denies or fails closed on the text edited by those before it, and the first such hook's answer is the result |
| HookChain.LaterHooksCannotUndoDeny | src/core/agent_hook_registry.cpp:113-116 | hooks run after a denial change neither the answer nor the warnings |
| HookChain.LowerHookCannotUndoDeny | src/core/agent_hook_registry.cpp:103-116 | registering a hook of lower priority cannot change a denied outcome |
| HookChain.EveryPostHookRuns | src/core/agent_hook_registry.cpp:155-173 | each post-hook sees the text as rewritten by those before it, all run under either policy, and each failure is reported in order |
| HookText.TextPassedOn | src/core/agent_hook_registry.cpp:117-121 | an edit under `input` is what the next hook is given; without one it is given the same text |
| HookText.TextIsLastEdit | src/core/agent_hook_registry.cpp:110-121 | each pre-hook is given the last edit made before it, or the original text if there was none |
| HookText.OneHookChain | src/core/agent_hook_registry.cpp:110-133 | what one hook does to the outcome, by its answer and its policy |
| HookText.WarningsAreThrown | src/core/agent_hook_registry.cpp:122-131 | the warnings grow by one for each hook that threw before the chain stopped, in order |
| HookText.TakesPartIff | src/core/agent_hook_registry.cpp:95-101 | a registration takes part if and only if its glob matches the agent's name |
| HookText.PostTextPassedOn | src/core/agent_hook_registry.cpp:157-164 | each post-hook is given the last rewrite |
| HookText.PostCallerGets | src/core/agent_hook_registry.cpp:155-173 | the caller gets the last rewrite if there was one, no text otherwise, and the warnings |
| HookChain.OrderIndependence | src/core/agent_hook_registry.cpp:92-133 | with no ties between different hooks, outcome and warnings are the same for every registration order and map order |
| HookTies.OneOutcomeIffDistinct | src/core/agent_hook_registry.cpp:103-106 | given the priorities of the matching hooks, all hooks with them have one outcome in every possible order if and only if the priorities are pairwise distinct |
| HookTies.TiesCanDiverge | src/core/agent_hook_registry.cpp:103-106 | at any two equal priorities, wherever in the chain, two hooks can be put that give two outcomes |
| HookChain.Collect | src/core/agent_hook_registry.cpp:95-101 | walking the map in any order collects exactly the matching registrations |
| HookChain.SortByPriority | src/core/agent_hook_registry.cpp:103-106 | a descending permutation |
| SessionIds.ToHex | src/core/session_manager.cpp:36-46 | the digit loop produces the hexadecimal numeral |
| SessionIds.HexRoundTrip | src/core/session_manager.cpp:36-46 | the numeral reads back as the number |
| SessionIds.HexDigits | src/core/session_manager.cpp:36-46 | the digits are 0 to 9 and lower-case a to f, without leading zeros |
| SessionIds.NodeIdsDiffer | src/core/session_manager.cpp:180-185 | different counters give different node ids |
| SessionIds.KindsDiffer | src/core/session_manager.cpp:180-190 | node and branch ids have their prefixes, and so no node id is a branch id |
| SessionLog.ReplayRebuilds | src/core/session_manager.cpp:113-253 | after any run of append, fork, switch and rename on a fresh or freshly migrated session, loading the log into a new manager gives the same nodes, children and branches |
| SessionLog.RunKeepsInv | src/core/session_manager.cpp:113-178 | ids stay unused ahead of the counter, parents and branches stay known, children stay exact, through any run |
| SessionLog.RunKeepsOneLeaf | src/core/session_manager.cpp:360-394 | while every rename so far met a current branch without a leaf, every branch has at most one childless node |
| SessionLog.RunKeepsOneLeafIff | src/core/session_manager.cpp:360-394 | all states of a run up to any point have at most one leaf on each branch if and only if each rename in it met a current branch without a leaf |
| SessionLog.RenameKeepsOneLeafIff | src/core/session_manager.cpp:604-630 | a rename keeps one leaf on each branch if and only if the current branch has none, as asking for its leaf tells |
| SessionLog.ScansAgree | src/core/session_manager.cpp:292-311 | in such a run the scan that keeps the first hit and the scan that keeps the last one find the same leaf |
| SessionLog.MigratedInv | src/core/session_manager.cpp:554-595 | a migrated session meets the run invariant and its log is the chain followed by main's meta line |
| SessionLoad.FirstLineCounts | src/core/session_manager.cpp:220-244 | loading any file on any indexes: of the node lines with one id the first counts, its node indexed below its parent |
| SessionLoad.NodesAreFirstLines | src/core/session_manager.cpp:220-244 | and nothing else becomes a node |
| SessionLoad.ChildrenAreFirstLines | src/core/session_manager.cpp:228-230 | or a child |
| SessionLoad.LastLineCounts | src/core/session_manager.cpp:207-217 | of the lines that describe a branch the last counts |
| SessionLoad.OtherBranches | src/core/session_manager.cpp:231-243 | a branch no line describes stays as it was, or gets a placeholder named like it, stamped when the first counted node on it is read |
| SessionLoad.OpenedForks | src/core/session_manager.cpp:318-329 | a manager just opened on a file can fork a node if and only if the file has a line for it |
| SessionContent.AppendStoresText | src/core/session_manager.cpp:360-394 | the text is stored under `message` in a node of the current branch with which the context then ends, and reads back from its line |
| SessionContent.RenameStoresName | src/core/session_manager.cpp:604-630 | the name is stored in a parentless node of the current branch, and reads back from its line |
| SessionContent.ForkStoresBranch | src/core/session_manager.cpp:314-349 | the new branch is current and has the name, node and time given, in the index and on its line |
| SessionContent.FirstOnForkHangsBelow | src/core/session_manager.cpp:369-383 | the first message on a fork hangs below the node it was forked from |
| SessionContent.SwitchThenAppend | src/core/session_manager.cpp:351-394 | after a switch messages go onto that branch, below a leaf of it if there is one |
| SessionContent.NodeLineHolds | src/core/session_manager.h:53-59 | the line of a node holds its four fields under their keys |
| SessionContent.BranchLineHolds | src/core/session_manager.h:80-87 | the line of a branch says so and holds its four fields |
| SessionContent.MissingNodeKeys | src/core/session_manager.cpp:219-224 | a node line that lacks a key reads as if it had the default |
| SessionContent.MissingBranchKeys | src/core/session_manager.cpp:207-213 | the same for a branch line |
| SessionFile.ReadsBack | src/core/session_manager.cpp:193-253 | the text of a log parses back to the log |
| SessionFile.TornWrite | src/core/session_manager.cpp:202-251 | a write cut short is invisible until its whole record is there, newline or not |
| SessionFile.CrashIsAtomic | src/core/session_manager.cpp:121-152 | cut at any character of an operation's write, the file replays to the state just before or just after that operation |
| SessionCodec.JsonLinesAreSound | src/core/session_manager.h:53-88 | every record, of either kind and with any JSON content, prints as one line that loading parses back to it, and no shorter piece of that line parses: what the results about the file ask for |
| SessionCodec.KeysInOrder | src/core/session_manager.h:53-88 | the keys of a printed record in the order they are printed, the branch id first |
| SessionCodec.JoinedLinesDoNotParse | src/core/session_manager.cpp:206-212 | a line cut anywhere after its start, a whole one without its newline included, never parses joined with the next |
| SessionCodec.AppendAfterCut | src/core/session_manager.cpp:125-134 | what loads read of a file appended to after a cut, for every place of the cut: all of it if the cut is at the start of a line, neither the cut record nor the appended one if it is inside the line or before its newline |
| SessionCodec.NextIsLostIff | src/core/session_manager.cpp:125-134 | the appended record is lost if and only if part of a line was left without its newline |
| SessionCodec.ReadRecordVanishes | src/core/session_manager.cpp:202-212 | a complete record whose newline alone is missing is read, and is gone after the next append |
| JsonReader.PrintReads | src/core/event_log.cpp:198-218 | a printed JSON value reads back as itself, whatever delimiter follows it |
| JsonText.ObjectText | src/core/event_log.cpp:198-218 | an object prints as its members between braces, keys once each and ascending, separated by commas, without spaces |
| JsonText.ArrayText | src/core/event_log.cpp:198-218 | an array prints as its items between brackets, in order |
| JsonTears.BrokenObject | src/core/session_manager.cpp:206-212 | a proper piece of a printed object, followed by a JSON text that begins with a brace, a quote and a lower-case letter as every line of the file does, is no JSON text |
| SessionContext.WalkIsAncestry | src/core/session_manager.cpp:490-508 | on every index, cycles and dangling parents included, the walk is a duplicate-free parent-linked path that stops only where it must |
| SessionContext.AncestryIsUnique | src/core/session_manager.cpp:490-508 | there is only one such path, so these properties determine the result |
| SessionContext.CompactKeepsLongestSuffix | src/core/session_manager.cpp:402-508 | after compaction the context is the longest suffix of the earlier one that lies on the active branch |
| SessionContext.CompactReloads | src/core/session_manager.cpp:412-487 | the compacted file reloads, for every order of the map walk, to the kept nodes and children and the same entry of the active branch |
| SessionContext.NodesReload | src/core/session_manager.cpp:231-243 | node lines alone load to the nodes and a placeholder for their branch |
| SessionContext.CompactBranchesAgree | src/core/session_manager.cpp:479-484 | the branch maps after compaction and after reloading are equal if and only if the active branch is main |
| SessionContext.CompactCanMakeTwoLeaves | src/core/session_manager.cpp:370-383 | a run without renames after which compaction leaves main with two childless nodes |
| SessionCompaction.ReplayThroughCompactions | src/core/session_manager.cpp:402-487 | through any run of appends, forks, switches, renames and compactions a reload has the same nodes and children and the branches with main; it is the same altogether if and only if main is still in memory |
| SessionCompaction.MainIsThereIff | src/core/session_manager.cpp:479-484 | main is still in memory if and only if every compaction met it as the current branch |
| SessionBranches.BranchesAreChains | src/core/session_manager.cpp:360-394 | in every reached session no node has two children on its own branch, and a branch has one end if and only if it has one beginning |
| SessionBranches.CompactKeepsOneLeafIff | src/core/session_manager.cpp:402-487 | after compacting a reached session there is at most one leaf on each branch if and only if at most one node of the active branch has its parent off the branch |
| SessionContext.MigrationKeepsMessages | src/core/session_manager.cpp:570-583 | the context at main's leaf of a migrated session is exactly the legacy messages in order |
| SessionLoad.MigrationKeepsDocument | src/core/session_manager.cpp:556-593 | of a document with a list of messages that list is the context at main's leaf; of any other only main's line is written |
| SessionManager.SessionManager.constructor | src/core/session_manager.cpp:63-111 | opening puts only main in the indexes, whatever the file holds |
| SessionManager.SessionManager.LoadJsonl | src/core/session_manager.cpp:193-253 | the line loop loads the records the file parses to, on top of the indexes as they are |
| SessionManager.SessionManager.FlushAppend | src/core/session_manager.cpp:113-178 | one line is appended, the node indexed, and an empty branch falls back to main |
| SessionManager.SessionManager.Fork | src/core/session_manager.cpp:314-349 | an unknown or empty node is refused; otherwise the new branch is recorded, current, and on file |
| SessionManager.ReloadIsNoOp | src/core/session_manager.cpp:320-325 | the reload inside fork changes nothing in a reachable session, compacted or not |
| SessionManager.SessionManager.SwitchBranch | src/core/session_manager.cpp:351-358 | only a known branch becomes current |
| SessionManager.SessionManager.AppendToBranch | src/core/session_manager.cpp:360-394 | the new node hangs below some leaf of the current branch, else below the fork point |
| SessionManager.SessionManager.RenameSession | src/core/session_manager.cpp:604-630 | a rename appends a parentless meta node and leaves children alone |
| SessionManager.SessionManager.GetBranchLeaf | src/core/session_manager.cpp:510-521 | a leaf of the branch if there is one |
| SessionManager.SessionManager.BuildContextEntries | src/core/session_manager.cpp:490-508 | the loop terminates on every index and returns the ancestry, root first |
| SessionManager.SessionManager.Compact | src/core/session_manager.cpp:402-487 | the session is compacted: file and indexes keep exactly the active branch's nodes and its meta line |
| SessionManager.SessionManager.MigrateLegacyJson | src/core/session_manager.cpp:532-596 | an unreadable document changes nothing; otherwise the session becomes the migrated one |
| SessionManager.MigrateLegacyScript | tools/migrate_session_json.py:68-138 | the script writes the chain of the messages and main's meta line, and fails on a document that is no object |
| SessionManager.MigrationsAgree | tools/migrate_session_json.py:68-138 | given the same time stamp the script and the manager write the same records, or both fail, if and only if the document cannot be read or is an object |
| SessionLocks.CallOrdered | src/core/session_manager.cpp:585-593 | every operation takes the write lock only with empty hands and gives back what it takes |
| SessionRaces.RaceFreeIff | src/core/session_manager.cpp:604-614 | for any threads, no interleaving has two of them about to touch one field, one to write it, if and only if no two make conflicting calls: naming beside switching, forking or migrating; reading the session's id, loading, a reloading fork or naming beside opening or migrating |
| SessionRaces.ConflictRaces | src/core/session_manager.cpp:351-358 | a schedule that reaches the race, for every such pair of calls |
| SessionRaces.CallWrites | src/core/session_manager.cpp:113-178 | which calls change the indexes and which take the write lock |
| SessionLocks.NoDeadlock | src/core/session_manager.cpp:113-178 | any number of threads running any calls: every reachable state is finished or some thread can move |
| SessionLocks.RunsEnd | src/core/session_manager.cpp:402-487 | every schedule is bounded by the lock actions to do, and a run is finished exactly when it has done them all |
| SessionLocks.ReversedOrderDeadlocks | src/core/session_manager.cpp:585-587 | one thread taking the locks the other way round can deadlock |
| EventBatches.TakenIsWrittenOrHeld | src/core/event_log.cpp:134-156 | with nothing dropped, each event taken from the buffer is in the file or in a thread's hand |
| EventPipeline.NothingLostWhileOpen | src/core/event_log.cpp:165-196 | in every interleaving with the file open, each event pushed is written, in flight or buffered, as often as it was pushed (with rotation as part of the write) |
| EventPipeline.BatchesAreContiguous | src/core/event_log.cpp:187-194 | batches are cut in push order and each is written whole, uninterrupted and at most once |
| EventPipeline.StopWritesEverything | src/core/event_log.cpp:108-132 | when `stop` closes the file, everything taken is written exactly once, and that covers all that was delivered before the drain (with rotation as part of the write) |
| EventPipeline.RunArrives | src/core/event_log.cpp:158-170 | in every run what was emitted is what was pushed, then what is on the bus, in order |
| EventPipeline.DrainWaitsForTheBus | src/core/event_log.cpp:117-121 | when `stop` finds the bus drained, everything emitted so far has been pushed |
| EventPipeline.StopWritesAllEmitted | src/core/event_log.cpp:108-132 | when `stop` closes the file, everything emitted before the drain is in it exactly once, and nothing that was not emitted |
| EventPipeline.StopHasDrained | src/core/event_log.cpp:117-122 | `stop` never closes the file without that drain |
| EventProgress.FlushThreadCatchesUp | src/core/event_log.cpp:172-196 | before `stop` the flush thread alone can bring everything emitted into the file |
| EventProgress.StopCanFinish | src/core/event_log.cpp:108-132 | once called, `stop` can come to its end from every reachable state |
| EventPipeline.StopFindsTheLockFree | src/core/session_writer.cpp:92-100 | nobody holds the file lock when `stop` closes the file |
| EventPipeline.ClosedFileIsFinal | src/core/event_log.cpp:108-109 | after `stop` no step changes the file |
| EventPipeline.SyncLeavesOnlyTheFlushersBatch | src/core/event_log.cpp:134-156 | when `flush_sync` returns, what had been pushed when it took the buffer is its batch and those before it, each of them whole in the file or in the flush thread's hand, and all are in the file if and only if that hand holds none of them |
| EventPipeline.SyncCoversWhatWasPushed | src/core/event_log.cpp:134-156 | and each event pushed before is in the file or that hand as often as it was pushed |
| EventPipeline.SyncMayReturnEarly | src/core/event_log.cpp:186-187 | such a batch can exist: the call returns and an event pushed before it is not in the file |
| EventPipeline.BatchesCanOvertake | src/core/event_log.cpp:185-187 | two batches can be written in the opposite order |
| EventOrder.InOrderIffNoOvertaking | src/core/event_log.cpp:165-196 | in every run, batches are begun in order, none before an earlier one that has events, if and only if no thread begins a batch while the other has an earlier one with events in hand |
| EventOrder.StepInOrderIff | src/core/event_log.cpp:134-156 | a step keeps that order if and only if it does not overtake, and no step restores it |
| EventOrder.PushOrderIffNoOvertaking | src/core/event_log.cpp:165-196 | without overtaking the file is a prefix of what was pushed at every moment; with the lock free and all events different, only without it |
| EventOrder.WithoutSyncPushOrder | src/core/event_log.cpp:108-132 | in a run without `flush_sync` the file is always a prefix of what was pushed, and when `stop` closes it, it is exactly what was taken |
| EventPipeline.SessionStopLeavesTheBuffer | src/core/session_writer.cpp:92-100 | the session writer's `stop` loses exactly what is in the buffer |
| EventPipeline.SessionStopCanLose | src/core/session_writer.cpp:92-100 | an event delivered before the call can be lost |
| EventPipeline.SessionStopLeavesTheBus | src/core/session_writer.cpp:92-100 | of what was emitted, exactly the buffer and the bus are missing from the file |
| EventPipeline.SessionStopNeverDrains | src/core/session_writer.cpp:92-100 | the session writer never waits for the bus |
| EventRotation.NothingLostIffNeverTested | src/core/event_log.cpp:186-237 | with closing and reopening as separate steps, nothing is lost while the log is open if and only if the flush thread never tests the file during a rotation with events in hand; such a run is, rotations left out, one of the runs above |
| EventRotation.OnlyTestedBatchesAreLost | src/core/event_log.cpp:186-237 | in every run each event pushed is written, in hand, buffered, or in a batch so tested, as often as it was pushed |
| EventRotation.StopWritesWhatIsNotLost | src/core/event_log.cpp:108-132 | when `stop` closes the file, it and the batches so tested hold everything that was taken |
| EventRotation.LossNeedsSync | src/core/event_log.cpp:134-156 | only a rotation inside a `flush_sync` that is not the one of `stop` can cost a batch |
| EventRotation.NoSyncNoLoss | src/core/event_log.cpp:165-196 | a run without `flush_sync` loses nothing, whatever rotates when |
| EventRotation.RotationCanLose | src/core/event_log.cpp:220-237 | a reachable state in which an event was so lost, the writer open and running |
| RotatingFile.HistoryIsWhole | src/core/event_log.cpp:149-154 | cutting into files loses, repeats, splits and moves no line |
| RotatingFile.BytesAreCounted | src/core/event_log.cpp:149-153 | the tracked size is the length of the text, newlines included |
| RotatingFile.FilesRespectTheLimit | src/core/event_log.cpp:220-237 | the current file is below the limit between writes; every rotated file reached it with its last line |
| RotatingFile.ExcessIsLessThanALine | src/core/event_log.cpp:220-237 | a rotated file exceeds the limit by less than one line |
| RotatingFile.DiskIsASuffix | src/core/event_log.cpp:225-236 | the files on disk, oldest first, are a whole-line suffix of everything written |
| RotatingFile.NothingLostIffFewRotations | src/core/event_log.cpp:225-236 | everything is still on disk if and only if no more files were rotated than are kept |
| RotatingFile.WritersAgree | src/core/session_writer.cpp:204-215 | after the same writes both writers keep the same files if and only if at least one is kept or none was rotated |
| RotatingFile.Writer.Write | src/core/event_log.cpp:149-154 | after every write the disk holds the newest files of the history and the tracked size is the current file's |
| RotatingFile.Writer.RotateEventLog | src/core/event_log.cpp:220-237 | the downward renaming loop shifts every file by one and drops the oldest |
| RotatingFile.Writer.RotateSession | src/core/session_writer.cpp:197-219 | removing, shifting and renaming has the same effect, but always keeps one file |
| EventQuery.Query | src/core/event_log.cpp:311-352 | the loop returns the first matches, at least one even for a count of 0 |
| EventQuery.TopicMatchesIff | src/core/event_log.cpp:288-294 | without a star only the glob itself matches; with the first star after the start, just the topics that begin with what stands before it; an empty glob or a star in front matches all |
| EventQuery.QueryReturnsMatches | src/core/event_log.cpp:311-352 | every event a query returns is on a line, in the window, and of such a topic |
| EventQuery.Read | src/core/event_log.cpp:239-269 | all events of the log in order |
| EventQuery.ReadWindow | src/core/event_log.cpp:271-284 | those in the time window |
| EventQuery.ReadKeepsOrder | src/core/event_log.cpp:239-269 | reading gives one event for each line that can be read, in order |
| EventQuery.FilterKeepsOrder | src/core/event_log.cpp:271-284 | filtering keeps the order and passes over just what is of another topic or outside the window, ends included |
| EventQuery.QueryIsFilteredRead | src/core/event_log.cpp:323-328 | an unlimited query equals reading and filtering if and only if the substring test drops no matching line |
| EventLines.LineIs | src/core/event_log.cpp:198-218 | the printed line of every event holds its escaped topic, between quotes, right after the topic key |
| EventLines.TestIsSafeIff | src/core/event_log.cpp:299-307 | the test finds every matching topic on every line the writer can print if and only if the glob's literal part consists of characters that section 7 of RFC 8259 leaves alone, then only backslashes |
| EventLines.UnsafeLiteral | src/core/event_log.cpp:303-306 | for every other glob the test passes over the printed line of every event with an empty payload whose topic is that literal part |
| EventLines.UnsafeQueryLoses | src/core/event_log.cpp:311-352 | and a query loses that event although a read finds it |
| EventLines.ParseEntryIs | src/core/event_log.cpp:239-269 | reading a printed line gives the event back, or skips the line just when its error code is neither a number nor a boolean |
| EventLines.LineHolds | src/core/event_log.cpp:198-218 | a printed line holds each field of the entry under its key and no others, the session only if there is one |
| EventLines.OtherVersions | src/core/event_log.cpp:251 | a line of another version is skipped |
| EventLines.NotAskedFor | src/core/event_log.cpp:250-263 | reading asks only for version, topic, time and payload |
| EventLines.QueryOfEntries | src/core/event_log.cpp:311-352 | on the log of any events a query with a safe glob gives the first matches of a read |
| JsonPaths.Navigate | include/agenticdsl/types/layered_context.h:116-149 | the walk is refused just on a read-only slot with an empty or missing path; otherwise the reference sits at that path of the completed tree, and storing through it stores there |
| JsonPaths.DottedRoundTrip | include/agenticdsl/types/layered_context.h:127-148 | every list of dot-free segments not ending in an empty one has a path |
| JsonPaths.TrailingDot | include/agenticdsl/types/layered_context.h:129-147 | a dot at the end is ignored if and only if the path is not empty and did not end in one |
| JsonPaths.CreateChangesIffMissing | include/agenticdsl/types/layered_context.h:134-144 | creating a path changes the tree if and only if it was missing |
| JsonPaths.ReadAfterPut | include/agenticdsl/types/layered_context.h:151-173 | what every path reads after a write to any other |
| LayeredContext.WriteThenRead | include/agenticdsl/types/layered_context.h:193-219 | a written value is read back if and only if there was a place or it was there already |
| LayeredContext.WriteIsLocal | include/agenticdsl/types/layered_context.h:193-219 | paths neither above nor below the written one are unchanged, in all layers, and the others read as they should |
| LayeredContext.LayersByName | include/agenticdsl/types/layered_context.h:99-107 | a name without a dot reads its layer, and replaces it unless it is the system one |
| LayeredContext.SystemIsProtected | include/agenticdsl/types/layered_context.h:116-149 | a write changes the system layer only on a path below it that is there |
| LayeredContext.WriteLands | include/agenticdsl/types/layered_context.h:193-205 | on such a path it lands, and on any path of the other four layers |
| LayeredContext.AtAloneChangesIffMissing | include/agenticdsl/types/layered_context.h:116-149 | `at` alone changes the context if and only if the path was missing, and never the system layer |
| LayeredContext.AtAloneIsHardlyVisible | include/agenticdsl/types/layered_context.h:134-144 | and only shorter paths read differently afterwards |
| LayeredContext.DumpLoadRoundTrip | include/agenticdsl/types/layered_context.h:242-274 | load undoes dump; a document loads if and only if it is an object with the five keys; dump undoes load if and only if it has no others |
| LayeredContext.DumpHolds | include/agenticdsl/types/layered_context.h:242-250 | a dump holds each layer under the name that reads it |
| LayeredContext.LoadFailsAtFirst | include/agenticdsl/types/layered_context.h:255-267 | a document that does not load is no object, or the error names the first key it lacks |
| LayeredContext.RecordOnlyGrows | include/agenticdsl/types/layered_context.h:276-289 | through any run of setters that spares its key, the message record is what was appended, in order |
| LayeredContext.ChangeWrites | include/agenticdsl/types/layered_context.h:276-289 | what each setter stores under its key, and that every other key and layer stays |
| LayeredContext.Context.Refer | include/agenticdsl/types/layered_context.h:193-205 | the object's `at` completes the path, and assigning through the reference is the specified write |
| LayeredContext.Context.Assign | include/agenticdsl/types/layered_context.h:193-205 | assignment through `at` |
| LayeredContext.Context.AppendOriginal | include/agenticdsl/types/layered_context.h:276-281 | a record that is no list is replaced first; a meta layer that takes no keys is an error and stays as it is |
| LayeredContext.Context.SetWorkingView | include/agenticdsl/types/layered_context.h:283-285 | the view key of the working layer is set, or an error changes nothing |
| LayeredContext.Context.SetMeta | include/agenticdsl/types/layered_context.h:287-289 | the same for a metadata key |
| TrajectoryEncoding.Buffer | include/agenticdsl/ir/trajectory_ir.h:105-133 | the three loops build the specified string |
| TrajectoryEncoding.EncodeIs | include/agenticdsl/ir/trajectory_ir.h:105-133 | the string written out: the fields of nodes, edges and steps in their order, and which separator stands where |
| TrajectoryEncoding.DecodableIffClean | include/agenticdsl/ir/trajectory_ir.h:105-133 | decoding the string gives the IR back, metadata values included, if and only if no id or type has a separator byte |
| TrajectoryEncoding.EncodeIsInjective | include/agenticdsl/ir/trajectory_ir.h:105-133 | two IRs with the same string, and no separator byte in their ids and types, are the same, metadata values included |
| TrajectoryEncoding.PrintIsClean | include/agenticdsl/ir/trajectory_ir.h:105-133 | printed metadata never has a separator byte, by section 7 of RFC 8259 |
| TrajectoryEncoding.SeparatorInAnIdCollides | include/agenticdsl/ir/trajectory_ir.h:108-112 | a unit separator in any node id always gives a second IR with the same string |
| Genomes.LoadIff | src/core/genome/registry_filesystem.cpp:271-325 | loading gives what is stored and fails only on a missing key, disk trouble or too long a lineage |
| Genomes.LoadAnswers | src/core/genome/registry_filesystem.cpp:271-325 | the result or error of every load: missing, unreadable, too deep |
| Genomes.LoadRefuses | src/core/genome/registry_filesystem.cpp:271-325 | in any store, a genome of another version or mode is refused |
| Genomes.CommitKeeps | src/core/genome/registry_filesystem.cpp:327-399 | a failed commit stores nothing; a successful one adds one version larger than all before, and parents stay earlier versions of the same name |
| Genomes.CommitAnswers | src/core/genome/registry_filesystem.cpp:327-399 | the error of every commit, in the order of its checks, or the version: one more than the largest there is |
| Genomes.ForkIff | src/core/genome/registry_filesystem.cpp:401-416 | a fork succeeds if and only if the parent is stored with at most 10000 generations and the disk obeys; the child carries the merged spec under the parent |
| Genomes.ForkInherits | src/core/genome/registry_filesystem.cpp:401-416 | field by field, what the mutation leaves unset is the parent's and what it sets is the mutation's |
| Genomes.ForkAnswers | src/core/genome/registry_filesystem.cpp:401-416 | the error of every fork, in the order of its checks |
| Genomes.LineageIffShallow | src/core/genome/registry_filesystem.cpp:154-200 | in a well-formed store only the depth cap stops the lineage check |
| Genomes.WalkAncestors | src/core/genome/registry_filesystem.cpp:456-528 | the loop terminates on every store and answers the recursive walk, with its errors |
| Genomes.WalkIsAncestors | src/core/genome/registry_filesystem.cpp:456-528 | in a well-formed store the walk is the list of ancestors |
| Genomes.WalkIsLine | src/core/genome/registry_filesystem.cpp:456-528 | in any store, cycles and all, a walk answers the one line of parents if there is one, and else whether the start or something above it is missing |
| Genomes.Registry.NextVersion | src/core/genome/registry_filesystem.cpp:338-350 | one more than the largest version there is |
| Genomes.Registry.Commit | src/core/genome/registry_filesystem.cpp:327-399 | the object's commit has the specified result and store |
| Genomes.Registry.Fork | src/core/genome/registry_filesystem.cpp:401-416 | the object's fork has the specified result and store |
| HarnessMutation.Agent.ApplyHarnessMutation | src/evolution/harness_rsi.cpp:86-250 | gates in order, persistence, then in-place edits: result and all four pieces of state are as specified |
| HarnessMutation.Agent.CheckGates | src/evolution/harness_rsi.cpp:93-173 | the loops answer the first gate that refuses |
| HarnessMutation.FailureChangesNothing | src/evolution/harness_rsi.cpp:86-250 | on every error prompt, tools, registry and store are unchanged |
| HarnessMutation.SucceedsIffAdmissible | src/evolution/harness_rsi.cpp:93-231 | success if and only if all gate conditions hold, the parent can be forked and a tool is left to store |
| HarnessMutation.WhyItFails | src/evolution/harness_rsi.cpp:93-217 | the exact reason of each error, over gates and fork |
| HarnessMutation.RegisteredAfter | src/evolution/harness_rsi.cpp:242-243 | a removed tool is registered no more, every other as before |
| HarnessMutation.ReceiptTells | src/evolution/harness_rsi.cpp:174-249 | the receipt names additions, removals, the delta, the version, and prompt and tools as they were |
| HarnessMutation.FailedConditionsAre | include/agenticdsl/evolution/transition_guard.h:57-88 | each readiness condition that fails is named, and no other |
| HarnessMutation.PersistedIsLive | src/evolution/harness_rsi.cpp:180-236 | the one new version is a child of the parent with its budget, routing and capture mode, the live tools, and the live prompt if and only if that is not empty or the parent's is |
| HarnessMutation.ToolsAreRemovedThenAdded | src/evolution/harness_rsi.cpp:101-110 | because adds and removes are disjoint, the tools are the old ones without one occurrence per removal, then the additions |
| HarnessMutation.RemoveFromCount | src/evolution/harness_rsi.cpp:242-246 | every tool loses as many occurrences as there are removals of it, as far as they last |
| HarnessMutation.UndoRestores | src/evolution/harness_rsi.cpp:252-258 | undo restores prompt and tools, and everything if and only if there is no store and no removed tool was registered |
| HarnessMutation.Agent.UndoAppliedMutation | src/evolution/harness_rsi.cpp:252-258 | prompt and tools go back to the snapshots |
| DataFreshness.JudgeDataFreshness | src/evolution/version_pair_diff.cpp:41-90 | the search loops answer the judgement on the walk |
| DataFreshness.AttributedIffFresh | src/evolution/version_pair_diff.cpp:41-90 | Attributed if and only if the data version is the current one or an ancestor with the same harness on every version between, else Confounded |
| DataFreshness.JudgeAnywhere | src/evolution/version_pair_diff.cpp:41-90 | in any store: Insufficient if and only if the version under judgement has no line of parents, otherwise by name, line and harness |
| DataFreshness.JudgeStep | src/evolution/version_pair_diff.cpp:79-89 | data is good for a child if and only if it is good for the parent and the harness did not change |
| DataFreshness.StaleForeverIff | src/evolution/version_pair_diff.cpp:41-90 | in every later store and for every descendant the judgement is Confounded if and only if it is so now and the data is of another name, older, or stored and no descendant of the version |
| DataFreshness.OnLineBecomesFresh | src/evolution/version_pair_diff.cpp:74-77 | any other data is Attributed, under its own version, in some later store |
| DataFreshness.StaysStale | src/evolution/version_pair_diff.cpp:79-86 | data off the version's line once Confounded stays so for every descendant, however the store grows |
| DataFreshness.AcceptedDeltaStalesIff | src/evolution/harness_rsi.cpp:180-236 | an accepted mutation makes all older data of the name stale under the new version if and only if the new prompt is not empty and differs from the parent's stored harness |
| DataFreshness.AcceptedDeltaStales | src/evolution/version_pair_diff.cpp:79-86 | and then for everything that will ever descend from it |
| EvolutionSession.Session.constructor | examples/pdk_chat_demo_evolution/evolution_session.cpp:265-290 | the seed commit, on whatever versions the directory already holds, sets both version fields, or none if it fails |
| EvolutionSession.SeedStores | examples/pdk_chat_demo_evolution/evolution_session.cpp:277-290 | the seed is stored under `default`, without parent, with the seed prompt and the tools given, and nothing else changes |
| EvolutionSession.Session.Mutate | examples/pdk_chat_demo_evolution/evolution_session.cpp:337-398 | prompt and version follow the mutation only on success |
| EvolutionSession.Session.Reload | examples/pdk_chat_demo_evolution/evolution_session.cpp:400-432 | the rerun is skipped or uses the loaded harness |
| EvolutionSession.Session.Run | examples/pdk_chat_demo_evolution/evolution_session.cpp:144-149 | over any contexts the final state is as specified, and each rerun used exactly the live prompt of that moment |
| EvolutionSession.MutationStep | examples/pdk_chat_demo_evolution/evolution_session.cpp:362-375 | a context is accepted if and only if it is ready, there are tools, the disk obeys and the lineage has room; the mirror holds either way |
| EvolutionSession.SessionMirrors | examples/pdk_chat_demo_evolution/evolution_session.cpp:265-290 | after a successful seed on any well-formed store and any contexts, the prompt is the stored harness of the last version, versions never decrease, the prompt is the seed and the accepted deltas in order, and earlier versions are untouched |
| EvolutionSession.ReloadIsLive | examples/pdk_chat_demo_evolution/evolution_session.cpp:400-424 | phase 4 reloads exactly the live prompt |
| EvolutionSession.RunIsLoadable | examples/pdk_chat_demo_evolution/evolution_session.cpp:410-412 | a lineage the session builds can always be loaded |
| EvolutionSession.AcceptedContextStales | src/evolution/version_pair_diff.cpp:79-86 | once a context was accepted, everything recorded before it is stale for the rest of the run |

## Left out

- Files are sequences of records or characters: file descriptors, `fsync`, rename and copy failures, backups and
  directory creation are not modelled. A genome commit that fails on disk is.
- The session log is run by one thread. `append_to_branch` gives up the index lock between choosing the parent and
  writing (src/core/session_manager.cpp:360-392), so two threads appending at once can give a branch two leaves.
- The results on leaves and chains follow runs up to a compaction and say what that compaction does; what is
  appended after it is followed for replay only.
- JSON is read as it is printed by the C++ program: white space and escapes that no text prints are refused, and a
  number is any run of digits, signs, points and exponents. A line of the session file whose fields have the wrong
  type is skipped, where the source lets the error out of the load. The migration script prints a space after each
  comma and colon, so the text of its files is not modelled; their records are.
- An event whose payload is no object but has an error code or a latency: printing it throws.
- The bus pointer, the atomic id counters and the pointers into the node index that `find_node` hands out:
  `SessionRaces` covers the fields that the two mutexes are there for.
- A manager opened twice, or opened on a file that already has nodes and then appended to: the id counters are not
  reseeded, so ids can repeat there.
- More than 2^64 - 1 ids in one session, and files of 2^64 bytes or more: the counters wrap.
- More than one client thread, and a file that cannot be opened again when it is rotated. `EventPipeline` and
  `EventOrder` take rotation as part of the write that triggers it; `EventRotation` says what is lost otherwise.
- The session writer's topic whitelist and `topic_to_type`: a fixed table.
- Hooks are functions of the agent's name and the text: hooks with state or side effects, and registration while a
  chain runs, are not modelled.
- Text is compared char by char; UTF-8 validity, and the error that printing invalid text raises, are not modelled.
- What the scratch value of `at` on an unknown layer holds between calls, and references kept across other changes.
- Weights in `TrajectoryIR::hash` stand as printed, so weights that print alike are alike; the hash function itself
  is not modelled.
- Genome names with `@` or `/`, signatures and half-written version directories; the walk's optional end version.
- `VersionPairDiff::compare`, the transition matrix and rewards: they build a value from their inputs.
- Chat turns, traces, comparison and distillation in the evolution session, and bus events everywhere.
- The agent's prompt, tool list and tool registry are one object here, and are separate references in the source.
