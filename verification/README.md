# Verification of the worker

This project models the hard logic of the Go worker (`worker/`) and proves what it guarantees. The worker takes
agent sessions from a server, prepares a git working copy, supervises an agent engine (Codex, Claude Code or Pi) and
reports what is left. `dafny verify dfyconfig.toml` checks the whole project.

| file | what it models |
|---|---|
| `WorkingCopy.dfy`, `Sessions.dfy`, `History.dfy`, `Payloads.dfy`, `WholeSession.dfy` | the reusable working copy of an issue: preparing, capturing and inspecting it, and whole runs of sessions with an arbitrary agent in between; the payload checks in front of it; one session from raw payload to report |
| `StorageId.dfy` | processes racing to create one storage id, each able to fail or crash at every call |
| `RpcMultiplexer.dfy`, `TurnReader.dfy` | the Codex app-server connection: the pending table under a concurrent reader, the bounded notification queue, and the loop that waits for the answer of a turn |
| `Supervision.dfy`, `EngineRefs.dfy` | the supervisor racing cancellation, engine exit, a stop timeout and changing artifact files; the references that adapters publish meanwhile |
| `SkillPaths.dfy`, `SkillBundles.dfy`, `SkillTree.dfy`, `Paths.dfy`, `Ordering.dfy` | skill bundles: path cleaning, duplicates, order, digest, and the written tree |
| `Names.dfy`, `Layout.dfy` | names derived from ids and artifacts, and the directories made of them |
| `EngineDiagnostics.dfy` | engine diagnostics and capabilities published together under two locks |
| `EngineEnvironment.dfy` | the environment filter of engine processes and probes |
| `ImportMapping.dfy` | the greedy choice of column mappings |
| `Screenshots.dfy` | screenshot evidence, its enrichment and its readiness |
| `Text.dfy`, `Collections.dfy` | strings as Go's library treats them, and facts about collections |

Git is a fixed parent relation over commit ids together with the answers of single commands. Branches, HEAD, the
worktree, the metadata file and the set of present commits may be changed by the agent without limit, and every
command and file operation may fail. Concurrent code is a state machine whose enabled steps may come in any order;
the regions that the source runs under a lock also appear as methods of a class, proved against the same functions
as the steps of the machine. Where the source walks a Go map, the loop takes the keys in any order.

Only one thing is assumed about the server, from `server/README.md:256`: the sessions of one issue are serialized,
their branch is stable, and a session expects the last head that was reported clean (`Sessions.Serialized`). Of git it
is assumed that `merge-base --is-ancestor` answers yes only when the ancestor relation holds (`Sessions.Sound`). The
hash of skill files is an arbitrary function; where digests are compared it is injective and its output holds no NUL.

## Where the code does less than one might expect

Each of these is proved, most of them with the exact condition.

- A report can be clean without any commit to hold HEAD against: when no head is expected and preparing fails on the
  repository cache or on the parent directory, before any reason or base commit is recorded. Every other clean report
  is anchored (`Sessions.UnanchoredExactlyAfterEarlyFailure`).
- A creation that failed can be tried again if and only if it left the disk as it was, or a working copy that is
  already there and can be reused; where nothing was recorded, if and only if neither the branch nor anything at the
  worktree path stayed behind (`Sessions.FailedCreationCanBeRetriedExactly`). Two failures leave the branch behind: a
  `git worktree add` that is interrupted or fails after it created the branch, and a failed metadata write
  (`Sessions.TwoFailuresStrandTheBranch`). After them no number of later sessions opens the working copy or changes the
  disk (`Sessions.FailedCreationStrandsTheBranch`).
- A session that completes by source capture attaches every test artifact it finds, of whatever run. Only completing
  from artifacts compares the run ids (`Supervision.CapturedSession`, `Supervision.NilErrorMeansAttachedExactly`).
- Racing processes agree on the storage id if and only if neither the sync nor the close of the file can fail
  (`StorageId.WorkersAgreeExactly`). A failure there removes a file that another process may already have read.
- A request registered after the failing reader swapped the pending table is never answered; it waits for its own
  context (`RpcMultiplexer.StoppedReaderHasAnsweredExactly`).
- The path part of an id differs from that of every other safe id if and only if the id is safe itself
  (`Names.PartsSeparateExactly`).
- A session suffix is not lower-cased, so the suffixed branch is not always a semantic branch again
  (`Names.SuffixedBranch`).
- A cleaned skill path can keep white space at an end (`./ a`), and only then does normalizing it again change it
  (`SkillPaths.AcceptedPathIsFixedExactly`).
- The skill digest does not cover the executable bit (`SkillBundles.DigestIdentifiesExactly`).
- Normalized skill bundles cannot be written when a bundle is called `manifest.json` or a file of a bundle is a
  directory of another one; normalizing does not refuse either (`SkillTree.MaterializesExactly`).
- Granted environment keys that are spellings of one key make the result depend on map order
  (`EngineEnvironment.OrderDoesNotMatterExactly`).
- The builder looks at whole granted keys, while the environment is set by what stands in front of the first equals
  sign. The comment at worker/agent_engine_process.go:134-136 promises a denylist that no grant gets around; it holds
  if and only if that front part of every granted key is allowed too (`EngineEnvironment.DenylistHoldsExactly`), and
  a grant of `GH_TOKEN=x` gets around it (`EngineEnvironment.DenylistIsPassedBy`). For the same reason a key can be set
  twice or out of order; the exact conditions are `EngineEnvironment.KeysAreDistinctExactly` and
  `EngineEnvironment.KeysAscendExactly`.
- Capabilities configured as JSON `null` decode into a nil map, on which requiring the working copy capability is
  fatal: it succeeds exactly for an object or nothing at all (`EngineDiagnostics.RequiredExactly`), so the worker only
  ever runs with an object. The diagnostic state by itself would keep its pair consistent for an object or null, and
  for nothing else (`EngineDiagnostics.SnapshotsMatchExactly`).
- Screenshot readiness is judged after enrichment, which forgets unreadable paths that only the image list gives
  (`Screenshots.EnrichingForgetsExactly`).

## Model

| member | source | states |
|---|---|---|
| `Payloads.ParseIsIdempotent` | worker/main.go:1334-1429 | an accepted payload satisfies every restriction on issue working copies that the rest of the worker relies on, and parsing it again returns it unchanged |
| `Payloads.WorkingCopyAcceptedExactly` | worker/main.go:1334-1429 | an issue working copy payload is accepted if and only if its trimmed form meets every restriction, its engine is known and its skills are accepted |
| `History.AncestorTransitive` | worker/working_copy.go:422-428 | ancestry over the commit graph composes along parent walks |
| `History.OidFoldIsEquality` | worker/working_copy.go:422 | comparing two full commit ids without case is comparing them |
| `WorkingCopy.WorkerHost.ResolveWorkerBaseRef` | worker/main.go:2282-2298 | the loop over candidate references finds the first one that resolves, in the order the source lists them, or none |
| `WorkingCopy.WorkerHost.InitializeIssueWorkingCopy` | worker/working_copy.go:250-277 | the step-by-step creation, with a failure possible at every command, has exactly the specified effect on branches, worktree and metadata and the specified reason; an interrupted `git worktree add` leaves the new branch and anything at the path |
| `WorkingCopy.WorkerHost.ReuseIssueWorkingCopy` | worker/working_copy.go:279-314 | reusing succeeds if and only if no command fails, the worktree is on the assigned branch with a head, the metadata is of this storage and branch and has a base, and the head is the expected one; success returns that base, every failure has the specified reason, and nothing changes |
| `WorkingCopy.WorkerHost.PrepareAgentSessionWorkspace` | worker/working_copy.go:228-248 | preparing chooses between creating, reusing and refusing as specified and leaves the specified disk, whatever fails or is interrupted |
| `WorkingCopy.WorkerHost.CaptureAgentSessionSource` | worker/main.go:2300-2342 | staging, unstaging the scratch directory, committing or adopting the agent's own commit leave the specified disk and source |
| `WorkingCopy.WorkerHost.InspectIssueWorkingCopy` | worker/working_copy.go:369-443 | the early-return sequence that fills the report equals the closed form that the verdict lemmas are about |
| `WorkingCopy.FirstResolvedIsPresent` | worker/main.go:2282-2298 | the commit found for a base reference resolves to itself |
| `Sessions.InspectVerdict` | worker/working_copy.go:369-443 | clean, dirty and recovery are decided exactly by the checks and the uncommitted changes; recovery always comes with a reason; every other report names the tip of the assigned branch |
| `Sessions.CleanHeadsFormAChain` | worker/working_copy.go:369-443 | over any serialized run with arbitrary agents and failures, each head reported clean descends from every earlier one |
| `Sessions.CleanReportNamesTheBranchTip` | worker/working_copy.go:403-443 | in such a run every clean report is about the assigned branch, names its tip and leaves nothing uncommitted |
| `Sessions.PrepareRecordsBase` | worker/working_copy.go:250-314 | preparing keeps the recorded base below the expected head, or records the starting commit as base |
| `Sessions.CleanHeadsDescendFromRecordedBase` | worker/working_copy.go:250-314 | when only the worker writes the metadata and clean reports are anchored, the reported base is an ancestor of that and of every later clean head |
| `Sessions.UnanchoredExactlyAfterEarlyFailure` | worker/working_copy.go:417-428 | a clean report can lack an anchor if and only if no head was expected and preparing failed on the repository cache or the parent directory; it can then name any commit |
| `Sessions.DepartureIsReported` | worker/working_copy.go:411-428 | after a successful preparation, leaving the branch or the history of the anchor, in whatever spelling or by whatever revision name it is given, is always reported as recovery with a reason |
| `Sessions.PreparedWorkingCopy` | worker/working_copy.go:228-314 | what a successful preparation guarantees: the assigned branch, matching metadata with a base, the expected head on reuse, and a fresh branch at the starting commit with all others untouched on creation |
| `Sessions.SuccessIsCleanAndSourceIsHead` | worker/agent_engine.go:241-265 | a session ends without an error only with a clean report; its source commit is then empty or the reported head, when nobody else changes the disk between capture and inspection |
| `Sessions.UndisturbedSessionSucceedsExactly` | worker/agent_engine.go:241-265 | a session in which nothing fails succeeds if and only if the agent left no unstaged change outside the workdir and nothing in the scratch directory |
| `Sessions.StrandedCannotBeOpened` | worker/working_copy.go:228-314 | without metadata, and with no free branch for a missing worktree, no session can open the working copy, and trying leaves the disk as it is |
| `Sessions.OpenableExactly` | worker/working_copy.go:228-314 | whatever the disk looks like, some session on the branch can open the working copy if and only if it can be created (path and branch free, a well-formed name, a commit to start from) or reused |
| `Sessions.FailedCreationStrandsTheBranch` | worker/working_copy.go:228-314 | after a failed creation that changed anything, where no metadata was recorded, any number of sessions on that branch fail to open the working copy and leave the disk as it is, whatever their payloads and whatever fails then |
| `Sessions.FailedCreationCanBeRetriedExactly` | worker/working_copy.go:228-314 | after a creation that failed where one was possible, some session can open the working copy if and only if nothing was changed or what is there can be reused; without metadata, if and only if neither the branch nor anything at the path is left |
| `Sessions.TwoFailuresStrandTheBranch` | worker/working_copy.go:267-276 | the two failures that strand a new branch: a `git worktree add` interrupted after it created the branch, and a failed metadata write; whatever either leaves at the path, no session can open the working copy after it |
| `WholeSession.SuccessIsCompletion` | worker/agent_engine.go:92-124 | in every interleaving, a session without test automation that ends without an error ended by completing the source capture, and the artifacts that go out with it are those found at that step |
| `WholeSession.SilentSuccessIsClean` | worker/main.go:1334-1429 | from any raw payload that is accepted as an issue working copy session: ending without an error, in any interleaving, means that it did not complete from artifacts and that the report is clean; when nobody else changes the disk before the inspection, the source commit is empty or the reported head |
| `Sessions.CleanRunsExist` | worker/working_copy.go:228-443 | the assumptions about runs can be met: for every commit there is a run whose first session creates the working copy there and whose second one reuses it, both clean and anchored |
| `StorageId.EncodeRoundTrip` | worker/working_copy.go:71-75 | decoding the generated characters gives the random buffer back, so different buffers give different ids (section 5 of RFC 4648, without padding) |
| `StorageId.GeneratedIdIsReadBack` | worker/working_copy.go:103-137 | every generated id, written with its newline, is accepted and returned by the reader |
| `StorageId.StateDirectory.ReadWorkerStorageID` | worker/working_copy.go:103-120 | what is returned is the trimmed text of a regular file and a valid id, and such a file is always read when nothing fails |
| `StorageId.StateDirectory.EnsureWorkerStorageID` | worker/working_copy.go:59-101 | alone, a process returns the id in the file or the one it leaves there, and says exactly when the file stays, appears or is removed |
| `StorageId.WorkersAgreeOnStorageId` | worker/working_copy.go:59-120 | any number of processes, failing and crashing anywhere, never return two different ids, at whatever times, while no sync or close fails |
| `StorageId.ReturnedStays` | worker/working_copy.go:59-120 | a returned id is never taken back in the rest of a run |
| `StorageId.LateFailureBreaksAgreement` | worker/working_copy.go:83-101 | one failed sync, or one failed close, and nothing else going wrong, lets two processes return the ids of any two buffers |
| `StorageId.WorkersAgreeExactly` | worker/working_copy.go:59-120 | over all runs with the failures a policy allows, all ids ever returned are one if and only if neither sync nor close may fail |
| `RpcMultiplexer.RequestIDsUniqueExactly` | worker/main.go:1702-1710 | request ids of one connection are unique if and only if there are at most 2^64 requests |
| `RpcMultiplexer.AtMostOneMessageAndItsOwn` | worker/main.go:1702-1819 | in every interleaving a response channel is sent at most one message, it carries the id of its request, the requester receives that one, and no delivery blocks |
| `RpcMultiplexer.StoppedReaderHasAnsweredExactly` | worker/main.go:1742-1819 | once the reader has stopped, a request that was not withdrawn has a message if and only if it was registered before the pending table was swapped |
| `RpcMultiplexer.UndrainedReaderStaysBehind` | worker/main.go:1742-1793 | while nobody drains the queue, no interleaving lets the reader pass more notifications than fit |
| `RpcMultiplexer.UndrainedReaderReachesExactly` | worker/main.go:1690-1793 | the line at a position gets through an undrained queue if and only if at most 128 notifications precede it, 127 for a notification |
| `RpcMultiplexer.CodexAppServerClient.BeginRequest` | worker/main.go:1702-1716 | registering under the lock increments the wrapping id and adds one empty channel under it |
| `RpcMultiplexer.CodexAppServerClient.RemovePending` | worker/main.go:1805-1809 | withdrawing removes that registration and nothing else |
| `RpcMultiplexer.CodexAppServerClient.ResolveResponse` | worker/main.go:1795-1803 | a response reaches exactly the channel registered under its id, which is withdrawn; an unknown id changes nothing |
| `RpcMultiplexer.CodexAppServerClient.FailPending` | worker/main.go:1811-1819 | every registered channel gets exactly one error with its id, in whatever order the map is walked; the other channels are untouched |
| `RpcMultiplexer.CodexAppServerClient.HandleItem` | worker/main.go:1745-1786 | one decoded line is skipped, queued or delivered, and only a notification that does not fit is refused |
| `RpcMultiplexer.CodexAppServerClient.FinishReading` | worker/main.go:1787-1793 | at the end every request still registered fails once and keeps no other message |
| `RpcMultiplexer.CodexAppServerClient.ReadLoop` | worker/main.go:1742-1793 | undrained, the reader stops at the first notification beyond 128, or answers every request with its first response or an error and closes |
| `TurnReader.Waiter.HandleCodexNotification` | worker/main.go:1897-1962 | buffers and log follow the stream; done exactly for terminal notifications of this turn, with their verdict |
| `TurnReader.Waiter.WaitCodexTurnMessage` | worker/main.go:1860-1895 | the loop returns what the declarative fold over the readable notifications says, or the reason it ran out of them |
| `TurnReader.FoldAnswersExactly` | worker/main.go:1860-1962 | the answer is m exactly when the first terminal notification of the turn completes it and m is the last non-blank agent message before it |
| `TurnReader.OtherTurnsDoNotMatter` | worker/main.go:3516-3521 | deleting the notifications of other turns changes neither the outcome nor the log |
| `TurnReader.BufferIsDeltasSinceCompletion` | worker/main.go:1914-1929 | the buffer of an item is the concatenation of its deltas since its last completion |
| `TurnReader.FoldEndsOnce` | worker/main.go:1860-1895 | nothing after the first terminal notification changes the outcome |
| `EngineRefs.MergeIsRightBiasedMonoid` | worker/agent_engine.go:222-239 | merging references is associative, has the empty value as identity on both sides and keeps every non-empty later value |
| `EngineRefs.CoveringValueDecides` | worker/agent_engine.go:131-152 | a final value that covers the published ones decides the merged references, whatever was published before |
| `EngineRefs.Refs.UpdateInRun` | worker/agent_engine.go:131-152 | publishing a value that covers the previous one keeps the run cumulative and the shared references their merge |
| `EngineRefs.ClaudeExecute` | worker/agent_engine_claude.go:85-121 | the event loop publishes cumulative values, returns their last one, and ends at the first terminal event, a cancellation or the end of output |
| `EngineRefs.PiExecute` | worker/agent_engine_pi.go:34-118 | the same for Pi, whose run reference is published before any event |
| `EngineRefs.CodexExecute` | worker/main.go:1457-1516 | Codex publishes after a non-blank thread and again after a non-blank turn, cumulatively, and its references are those two |
| `Supervision.ReadyMeansAttachable` | worker/main.go:1520-1649 | artifacts are judged ready exactly when one of the matching run can be attached, which only test automation with a run id allows |
| `Supervision.StepKeepsCompletionInv` | worker/agent_engine.go:92-210 | every step of engine, supervisor, context and files keeps the completion invariant |
| `Supervision.SupervisorLoopNeverReturnsSilently` | worker/agent_engine.go:131-210 | for test automation with a run id the supervisor never returns neither completed nor an error |
| `Supervision.NilErrorMeansAttachedExactly` | worker/agent_engine.go:92-124 | in every interleaving a nil error means that an artifact of this run goes out with the result, if and only if the payload is test automation with a run id |
| `Supervision.CapturedSession` | worker/main.go:1651-1670 | without test automation, completing by source capture can attach any artifacts at all, of whatever run, and end without an error |
| `Supervision.WorkingCopyNeverCompletesFromArtifacts` | worker/main.go:1382-1401 | an accepted issue working copy payload never reaches completion from artifacts, in any interleaving; its artifacts are never judged ready |
| `Supervision.ReceivedResultDecidesReferences` | worker/agent_engine.go:131-220 | every path that receives the adapter's result ends with the same references, whatever was published when |
| `Names.SafePathPartIsSafe` | worker/main.go:3802-3821 | the part is one to eighty safe characters with no dot or dash at either end |
| `Names.SafePathPartFixesExactly` | worker/main.go:3802-3821 | an id is kept as it is if and only if it has that form |
| `Names.SafePathPartIsIdempotent` | worker/main.go:3802-3821 | taking the part of a part changes nothing |
| `Names.PartsSeparateExactly` | worker/main.go:3802-3821 | the part of an id differs from the parts of all other safe ids if and only if the id is safe |
| `Names.UnsafeIdsCollide` | worker/main.go:3802-3821 | the unsafe id that shares the part of a given safe one: the same with a leading slash |
| `Names.NormalizeBranchSlugIsSlug` | worker/main.go:2787-2797 | a slug is dash-separated runs of lower-case letters and digits, at most 48 long, or empty |
| `Names.NormalizeBranchSlugFixesExactly` | worker/main.go:2787-2797 | slugs are exactly the fixed points of the normalizer |
| `Names.SemanticBranchIsKept` | worker/main.go:2760-2785 | a semantic branch asked for whole or by type and slug is what comes out |
| `Names.SemanticBranchFixesItsOutput` | worker/main.go:2760-2785 | an accepted artifact gives a semantic branch, and giving that branch again, beside any type and slug, changes nothing |
| `Names.FindShortStableID` | worker/main.go:3035-3050 | the backward search finds the last long field and returns at most eight characters |
| `Names.MinimumNeverDecides` | worker/main.go:3024-3028 | the minimum length of a shortened slug never fires, for any session id |
| `Names.SuffixedBranch` | worker/main.go:3019-3033 | for every session the suffixed branch keeps its type and a slug of at most 48, and is semantic again if and only if the suffix is written like a slug |
| `Names.SuffixSeparatesSessions` | worker/main.go:3019-3033 | suffixes of one length give one branch only when they agree up to trailing dashes |
| `Layout.AssignedPathsAgreeExactly` | worker/working_copy.go:158-175 | worktrees, artifact directories and metadata files coincide exactly when the path parts do, for safe ids when the ids do |
| `Layout.AssignedAreasAreDisjoint` | worker/working_copy.go:158-175 | no path is below a worktree and an artifact directory, no worktree lies inside another, and metadata lies in neither |
| `Layout.AssignedArtifactDirAccepts` | worker/working_copy.go:177-199 | the assigned artifact directory passes its own lexical check for exactly the targets below it |
| `Layout.AssignedArtifactDirAcceptsItsFiles` | worker/working_copy.go:158-199 | below a cleaned work root, the assigned artifact directory and every cleaned path below it pass the check |
| `Layout.AcceptedTargetsSeparateSessions` | worker/working_copy.go:177-199 | sessions with safe ids that both accept one target are the same session |
| `Paths.CleanTellsClimbing` | worker/main.go:3355 | cleaning a relative path leaves plain names, as many as the walk ends deep, exactly when the walk never leaves its start; otherwise a leading ".." |
| `Paths.WithinMeansBelow` | worker/main.go:3459-3473 | for cleaned absolute paths the containment check accepts exactly the root and what is below it |
| `SkillPaths.AcceptedPathsExactly` | worker/main.go:3341-3365 | accepted are exactly the usable paths that end strictly below their start without ever leaving it, so the segment check never rejects one |
| `SkillPaths.AcceptedPathIsPlain` | worker/main.go:3341-3365 | an accepted path splits into non-empty components, none of them "." or "..", joins back to itself and holds no NUL |
| `SkillPaths.AcceptedPathIsFixedExactly` | worker/main.go:3341-3365 | an accepted path normalizes to itself if and only if it has no white space at its ends |
| `SkillBundles.NormalizeBundleFiles` | worker/main.go:3295-3323 | the loop over files, with its map of seen paths, stops at the first error in the specified order |
| `SkillBundles.NormalizePayloadSkillBundles` | worker/main.go:3263-3339 | the loop over bundles, with its map of directories, gives the specified bundles or the first error |
| `SkillBundles.FilesAcceptedExactly` | worker/main.go:3295-3323 | the files of a bundle are accepted if and only if each is acceptable by itself and no two share a cleaned path |
| `SkillBundles.OrderOfFilesDoesNotMatter` | worker/main.go:3295-3328 | permuting the supplied files changes neither whether they are accepted nor anything that is kept |
| `SkillBundles.PreimageIsDecodable` | worker/main.go:3404-3413 | the digest input can be read back into its paths and hashes |
| `SkillBundles.DigestIdentifiesExactly` | worker/main.go:3404-3413 | with a hash that never collides, digests are equal exactly when paths and contents are |
| `SkillBundles.NormalizedIsWellFormed` | worker/main.go:3263-3339 | accepted bundles have distinct safe directories, sorted plain paths and the digest of their files |
| `Ordering.AscendingIsUnique` | worker/main.go:3325-3327 | with distinct keys there is one ascending order, so the sorting algorithm does not matter |
| `SkillTree.MaterializePayloadSkillBundles` | worker/main.go:3170-3261 | writing goes through every operation of the specification: the containment checks never reject |
| `SkillTree.TargetsAreDistinct` | worker/main.go:3201-3221 | the targets of different files, of one bundle or of two, are different |
| `SkillTree.RunExactly` | worker/main.go:3201-3240 | in whatever order, a list of writes succeeds exactly when no file stands where a directory is needed |
| `SkillTree.MaterializesExactly` | worker/main.go:3170-3261 | normalized bundles can be written in full if and only if none is called like the manifest and no file is a directory of another in its bundle |
| `SkillTree.MaterializedContents` | worker/main.go:3170-3261 | what is written is exactly every file with its content, and the manifest |
| `EngineDiagnostics.ReconcileAgentEngineCapabilities` | worker/agent_engine_diagnostics.go:164-188 | whatever order the engines are taken in, exactly the enabled engines diagnosed as unusable are switched off; null stays null, and the nil map is never assigned to |
| `EngineDiagnostics.ApplyAgentEngineAllowlist` | worker/agent_engine_diagnostics.go:190-217 | whatever the order, exactly the switched-off engines are reported as disabled, except those whose executable is missing or unresolvable |
| `EngineDiagnostics.ReconcileOnlySwitchesEnginesOff` | worker/agent_engine_diagnostics.go:164-188 | reconciling switches nothing on, keeps the members and leaves every key that is no engine unchanged |
| `EngineDiagnostics.EngineOfferedExactly` | worker/agent_engine_diagnostics.go:164-217 | after a refresh an engine is offered if and only if it is configured and was not diagnosed as unusable |
| `EngineDiagnostics.RequiredExactly` | worker/working_copy.go:139-152 | requiring the working copy capability succeeds exactly for a missing document or an object, switches it on and leaves every other capability as it was |
| `EngineDiagnostics.RequiringAgainChangesNothing` | worker/working_copy.go:139-152 | the working copy capability is on in everything published, and requiring it again changes nothing |
| `EngineDiagnostics.StepKeepsInv` | worker/agent_engine_diagnostics.go:113-151 | every step of refreshes and snapshots under the two locks keeps the invariant |
| `EngineDiagnostics.StateShowsLastRefresh` | worker/agent_engine_diagnostics.go:113-126 | outside the two stores of a refresh the state shows the last applied refresh and nothing of earlier ones |
| `EngineDiagnostics.SnapshotWasPublished` | worker/agent_engine_diagnostics.go:144-151 | every snapshot is what one refresh published, whatever interleaves with it |
| `EngineDiagnostics.SnapshotsMatchExactly` | worker/agent_engine_diagnostics.go:99-188 | in every interleaving a snapshot's capabilities are the reconciliation of the configuration with its own diagnostics, if and only if the configuration is a JSON object or null |
| `EngineDiagnostics.AgentEngineDiagnosticState.Refresh` | worker/agent_engine_diagnostics.go:113-126 | one refresh replaces the published pair by that of its diagnosis |
| `EngineDiagnostics.AgentEngineDiagnosticState.WorkerInput` | worker/main.go:3919-3940 | diagnostics are never sent without the capabilities reconciled with them |
| `EngineDiagnostics.AgentEngineDiagnosticState.EffectiveCapabilities` | worker/main.go:3942-3954 | the capabilities a session is checked against are the published ones, with the working copy capability on |
| `EngineEnvironment.BuildAgentEngineEnvForEngine` | worker/agent_engine_process.go:137-162 | the two filter loops and the rendering give the specified entries, for whatever order the grants are walked in |
| `EngineEnvironment.EnvironmentIsExactly` | worker/agent_engine_process.go:134-162 | without two spellings of one key, the environment is exactly the allowed grants and the last inherited entry of every other allowed key |
| `EngineEnvironment.OrderDoesNotMatterExactly` | worker/agent_engine_process.go:146-151 | the result is the same for every order of the grants if and only if no two allowed keys are spellings of one |
| `EngineEnvironment.SpellingsDiffer` | worker/agent_engine_process.go:150 | entries of two spellings of one key always differ, whatever their values |
| `EngineEnvironment.KeysAreDistinctExactly` | worker/agent_engine_process.go:137-162 | every key is set once, for every order of the grants, if and only if no two spellings among grants and surviving inherited entries set one key |
| `EngineEnvironment.KeysAscendExactly` | worker/agent_engine_process.go:152-162 | the keys that are set ascend strictly, for every order of the grants, if and only if they are ordered like the spellings they are filed under |
| `EngineEnvironment.DenylistHoldsExactly` | worker/agent_engine_process.go:134-162 | no entry sets a denied key, for any order of the grants, if and only if the part of every granted key in front of its first equals sign is allowed |
| `EngineEnvironment.DenylistIsPassedBy` | worker/agent_engine_process.go:233-250 | a grant of `GH_TOKEN=x` puts a denied key into every Codex environment |
| `EngineEnvironment.OutputIsCanonical` | worker/agent_engine_process.go:137-162 | in particular, grants without equals signs give distinct ascending keys, none of them denied |
| `EngineEnvironment.EqualsSignsDuplicate` | worker/agent_engine_process.go:146-151 | an instance of the condition on distinct keys: a grant `p=q` beside a grant `p` sets `p` twice |
| `EngineEnvironment.FilteringIsIdempotent` | worker/agent_engine_process.go:137-162 | without grants, filtering an environment again changes nothing |
| `EngineEnvironment.BuildAgentEngineProbeEnv` | worker/agent_engine_diagnostics.go:587-629 | the probe loop keeps exactly the permitted entries of the filtered environment |
| `EngineEnvironment.VersionProbeIsContained` | worker/agent_engine_diagnostics.go:587-629 | the version probe sees exactly what the authentication probe sees of the keys that serve no authentication |
| `ImportMapping.ImportMappingHeaderIndex` | worker/main.go:3623-3634 | the search finds the first header with the key of the source, or none |
| `ImportMapping.SelectImportMappings` | worker/main.go:3586-3618 | the loop with its two seen-maps keeps what the greedy specification keeps |
| `ImportMapping.CandidateExactly` | worker/main.go:3590-3613 | a suggestion is possible exactly when it names an allowed field and, by position or by header, an existing column |
| `ImportMapping.KeptAtPositions` | worker/main.go:3586-3618 | what is kept are the completed suggestions at increasing positions, no two of them clashing |
| `ImportMapping.KeepIsGreedyChoice` | worker/main.go:3586-3618 | a suggestion is kept if and only if it is possible and clashes with nothing kept before it |
| `ImportMapping.GreedyChoiceIsUnique` | worker/main.go:3586-3618 | only one choice of positions has that property |
| `ImportMapping.KeptMappingsAreOneToOne` | worker/main.go:3572-3663 | columns and fields are each used once, confidence lies in (0, 1], and there are at most as many mappings as columns and as the eleven fields |
| `ImportMapping.KeepIsIdempotent` | worker/main.go:3572-3621 | choosing among the kept mappings keeps them all unchanged |
| `Screenshots.DedupeStrings` | worker/main.go:2746-2758 | the loop with its seen-map equals the specified deduplication |
| `Screenshots.DedupeKeepsEachOnce` | worker/main.go:2746-2758 | every trimmed, non-blank value occurs exactly once |
| `Screenshots.LocalPathsAre` | worker/main.go:2652-2694 | the local paths of an item are exactly those its path members mention at any depth and its image list refers to |
| `Screenshots.PendingScreenshotPaths` | worker/main.go:2636-2650 | the loop collects exactly the local paths of all items that cannot be read when their item is judged |
| `Screenshots.EnrichTestResultEvidence` | worker/main.go:2577-2606 | the loop rebuilds the image list from embedded images and readable paths, or leaves the item alone |
| `Screenshots.EnrichTestResultArtifactEvidence` | worker/main.go:2569-2575 | enriching in place changes every item, and only by its own enrichment with the files of its own moment |
| `Screenshots.RebuiltExactly` | worker/main.go:2577-2606 | the list is rebuilt exactly when there is a local path and an embedded or readable image |
| `Screenshots.ItemReadyExactly` | worker/main.go:2569-2659 | an enriched item is ready exactly when every mentioned path is readable and, unless its image list was rebuilt, every path of that list |
| `Screenshots.EnrichingForgetsExactly` | worker/main.go:2577-2622 | enriching hides exactly the unreadable paths that only a rebuilt image list gave, and never makes a ready item pending |
| `Screenshots.ArtifactReadyExactly` | worker/main.go:2516-2650 | an artifact is ready exactly when every item is, with files that may change from item to item and between enriching and judging |

## Left out

- HTTP client, heartbeats, task logs (but for the output of finished commands), token files, flags, clocks and process control: not part of this model.
- The server's own bookkeeping: assumed as stated above.
- JSON decoding: the model starts from decoded values, and an undecodable value is a case of its own.
- SHA-256 and the detection of image types: an arbitrary function and an arbitrary predicate.
- Strings are sequences of code points. Lengths in bytes are those of the source wherever the string is ASCII, as path parts and slugs are before they are cut; a session id with other characters is cut by characters here.
- Letter case is that of ASCII letters and of the code points outside ASCII whose other case is an ASCII letter; the case of other letters is kept.
- Dry-run and detached sessions: they skip the working copy protocol.
- `WorkingCopy.WorkerHost.PrepareAgentSessionWorkspace`: the repository cache, the project directory and the session artifacts are single steps that succeed or fail, and writing the metadata, which the source does through a temporary file and a rename, is one atomic step.
- `WorkingCopy.WorkerHost.CaptureAgentSessionSource`: the branch rename from a semantic branch artifact does not apply to issue working copies; the answers about commits the agent made itself are inputs.
- An inspection sees one disk, although the source runs four git commands in a row; changes between those commands are not modelled.
- Git's own state beyond branches, HEAD, worktree and commits: a tag named like the branch, for which `symbolic-ref --short` prints `heads/<branch>` and `Sessions.UndisturbedSessionSucceedsExactly` does not apply; lock files of a killed git; a worktree that is still registered while its directory is gone, which makes `worktree add` one of the interrupted answers.
- Git hooks, replace references, grafts, submodules and ignored files: not part of this model.
- Symbolic links: `Layout` covers the lexical part of the artifact check, and `SkillTree` a tree without links on a case-sensitive file system that limits neither the length of names nor that of paths.
- `StorageId.WorkersAgreeExactly`: writing the id line is one atomic step, and a failed write leaves nothing of it visible.
- `Supervision`: timers fire at any moment. When the stop timeout fires, the references are those of that moment. `screenshotsReady` is what `Screenshots.ScreenshotsReady` says of the enriched items.
- `Supervision.ReceivedResultDecidesReferences`: says nothing about runs in which the supervisor gives up waiting.
- `EngineRefs.ClaudeExecute`, `EngineRefs.PiExecute`: only the references and the terminal conditions of the event loops.
- `ImportMapping`: confidence is a real number, so rounding and values that are not numbers are not modelled; format, file name, reasons and warnings are text clean-up.
- `EngineDiagnostics.SnapshotsMatchExactly`: the set of goroutines is fixed for a run, of any size.
- The user interface, the API wrappers and the small status tables would only add easy members.
