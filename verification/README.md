# The trusted state store, modelled and proved

This project models `internal/trustedstate`: one append-only journal, two protocols that share its
sequence numbers and request ids (`Mutate` for version 1 objects, `NativeBatch` for native resources and
jobs), and everything the store derives from the journal: the objects, the resources, the two-stage memory
pipeline with its leases, the merged memory tree with its pages and its window search, the migration
aliases and the bundled skill packages.

## How it is built

Every request goes through *normalize, look up the request id, evaluate, append, apply*. Evaluation and
application are pure functions of a `State` value (`Engine`); the clock and the random tokens are
arguments, and on replay both come from the record. `TrustedStore.Store` is the object of the source with
its fields, the file it appends to and the poisoned flag; its methods are proved to take exactly the steps
that `Engine` and `Replay` specify.

A *run* (`History.IsHistory`) is a journal each of whose records is what the live store appends in the state
reached before it: any interleaving of the two protocols, any clock readings, also going backwards, and any
tokens. Theorems about runs quantify over all of them. Operations that read under the lock and commit
afterwards are two steps, and any other steps may lie between; only the theorems about bundled packages ask
that none does, and say so.

Loops of the source are methods with invariants (`NormalizeNative`, `Evaluation.Evaluate` with the selection, path and
alias loops it calls, `ScanJournal`, the two window scans, the page loops, the retention and skill loops), each proved
against a specification function. Maps are iterated by picking an arbitrary remaining key, so a result that
is proved equal to a function does not depend on the iteration order.

| file | what it holds |
|---|---|
| `Types`, `Text` | the entities, the uninterpreted outside world (`Codec`), byte order, sorting, paths |
| `Normalization`, `Selection`, `MemoryTree`, `Aliases` | the four checks and computations inside a step |
| `Engine`, `Evaluation`, `History` | evaluation (as functions, and with the loops of the source), application, runs |
| `Counting`, `Registers`, `RequestIds` | what every step keeps, what a key holds, when a write is accepted, what an id decides |
| `Replay`, `Framing`, `Durability`, `Store` | the journal bytes, reopening, crashes, the stateful object |
| `JobSteps`, `Leases`, `Inputs`, `Consolidation`, `Acceptance` | the job protocol |
| `Requests`, `Publishing`, `Retention`, `Retries` | the read-then-commit wrappers |
| `Windows`, `MemoryView`, `Listed`, `Search`, `Found` | window search, listing, searching, cursors |
| `Freezing`, `Bundles`, `Ensuring`, `Corners` | migration, bundled packages, two concrete runs that show a limit |

Operations are specified twice. The functions of `Engine`, `Search`, `Bundles` and the like follow the source; the
theorems of `Acceptance`, `Found`, `Listed`, `Ensuring`, `Publishing` and `RequestIds`, and those at the end of `Selection`,
`Retention`, `Registers` and `Freezing`, say when an operation succeeds and what its caller sees from the journal, the
stored resources and the request alone.

## Two places where the code does less than it seems to promise

* `memory.phase2.begin` accepts a store without any eligible stage 1 output. The stored selection is then
  an empty map, which comes back from JSON as nil, and `reflect.DeepEqual` tells the two apart. Such a begin
  makes the journal unreadable for `Open`, and its transaction can never be committed. `Replay.ReplayRefinesRun`
  proves that this is the only obstacle: a run can be reopened if and only if no begin in it selected nothing,
  and `Replay.ReopensIffInputs` says the same of the state before each begin, where a caller can look.
  `Corners.EmptyConsolidationCannotReopen` is a run of five requests that ends this way.
* A stage 1 job may be enqueued under the id `global`. Its commit with artifacts lists two jobs with that
  id, and the still leased one is stored last. `Leases.CommitReleases` proves that a stage 1 commit gives
  the lease back if and only if the job has another id or carries no artifacts;
  `Corners.LeaseSurvivesCommit` is a run of three requests in which it does not.

## The assumed laws

The theorems hold for every `Codec` that satisfies the laws each of them names:

- `Replay.Faithful`: the journal encoding has no newline, is at least as long as its request, and decodes to a JSON copy
  for every record that a run can contain (`Replay.HistoryEncodable`).
- `Retries.Injective`, for the hash and for the JSON of an argument list; `Retries.DigestInjective`, for the digest of
  normalized requests.
- `Retries.SmallRequestsFit`: a request of at most two plain resources in known domains is below the size bound, and a
  hash has 64 digits. `Corners.SmallFits` adds the same for the journal entry of such a request.
- `Freezing.AliasRoundTrip` and `Bundles.ManifestRoundTrips`: reading back what was written.
- `Leases.FreshTokens`: the random source never repeats a lease token.

No theorem assumes both that a hash or digest is injective and that it has 64 digits, which no function satisfies. Strings stand
for byte sequences: lengths are byte lengths and the order is byte order. Texts in requests are valid Unicode, so a JSON
copy keeps them. Names that the engine compares with fixed strings are enumerations; `Normalization.OperationsAreTexts`
shows that each well-formed operation text is read as exactly one of them.

## Model

| member | source | states |
|---|---|---|
| Normalization.NormalizeNative | internal/trustedstate/native.go:149-225 | the validation loop, the hashing and the two sorts return the normal form of a well-formed request and refuse every other one |
| Normalization.CheckFiles | internal/trustedstate/native.go:185-206 | one pass over a package accepts exactly the packages with valid distinct paths, a SKILL.md and sizes within bounds |
| Normalization.CheckChanges | internal/trustedstate/native.go:178-216 | the loop with its `seen` set and running total accepts exactly the valid, distinct changes whose total is within bounds |
| Normalization.NormalizeIdempotent | internal/trustedstate/native.go:211-233 | normalizing a normal form that still fits changes nothing, which replay relies on |
| Normalization.NormalizeIgnoresOrder | internal/trustedstate/native.go:227-233 | two requests that differ only in the order of their changes have the same normal form and digest |
| Types.NativeKeyInjective | internal/trustedstate/native.go:120-143 | on valid domains the one-string map key determines domain and key |
| Normalization.OperationsAreTexts | internal/trustedstate/native.go:147-152 | every well-formed operation text is the text of exactly one operation of the model |
| Engine.JobOperationIff | internal/trustedstate/native.go:511-513 | an operation is a job operation exactly when its text has one of the three job prefixes |
| Selection.SelectStage1 | internal/trustedstate/native.go:261-309 | collecting in any map order, sorting, truncating and looking up revisions gives the selection defined by rank |
| Selection.SelectionIsTopK | internal/trustedstate/native.go:287-301 | exactly min(limit, n) jobs are selected, all for limit 0, and everyone left out ranks below everyone selected under the four-key order |
| Selection.SelectionEmpty | internal/trustedstate/native.go:261-309 | the selection is empty exactly when no job is eligible, whatever the limit |
| Selection.SelectionHolds | internal/trustedstate/native.go:261-309 | read off the stored jobs and resources: the selection holds both halves of the output of finished stage 1 jobs, each at its stored revision, and at most `limit` jobs unless the limit is 0 |
| Selection.SelectionIsBest | internal/trustedstate/native.go:287-301 | a finished job is left out only of a full selection, and everyone selected was used more often by the stored usage, or as often and last used later (an unused job counts from its watermark in milliseconds, truncated), or has the later watermark, or the larger id |
| Selection.StandingExists | internal/trustedstate/native_jobs.go:98-106 | every job has exactly one stored usage count and one second at which it was last relevant |
| MemoryTree.CheckMemoryPaths | internal/trustedstate/native_memory.go:489-529 | the path loops accept exactly the batches that leave a tree with no duplicate path and no file used as a directory |
| MemoryTree.HasPublishedAncestor | internal/trustedstate/native_memory.go:516-527 | cutting at the last slash finds a published directory of a path if and only if there is one |
| Aliases.ValidateLegacyAlias | internal/trustedstate/native_migration.go:34-71 | the nested loops return the refusal of the first offending alias, or none |
| Evaluation.CheckRevisions | internal/trustedstate/native.go:328-342 | the loop returns the refusal of the first change with a wrong or exhausted revision or nothing to delete |
| Evaluation.CheckStage1Artifacts | internal/trustedstate/native.go:422-432 | the loop accepts exactly both halves of the job's output, or nothing for a job without output |
| Evaluation.CheckConsolidationArtifacts | internal/trustedstate/native.go:490-502 | the loop accepts exactly changes to the two artifacts, both present |
| Evaluation.RunPhase2Begin | internal/trustedstate/native.go:448-485 | the branch that selects inputs by the selection loops has the specified verdict |
| Evaluation.RunPhase2Commit | internal/trustedstate/native.go:486-505 | the branch that compares the stored selection with a fresh one has the specified verdict |
| Evaluation.BuildReceipt | internal/trustedstate/native.go:515-534 | the last loops build the resources and stamp the finished jobs with the new generation |
| Evaluation.Evaluate | internal/trustedstate/native.go:319-535 | the checks and loops in the source's order return what the pure evaluation specifies |
| History.HistoryOk | internal/trustedstate/native.go:319-558 | every reachable state keeps revisions in range, well-formed jobs, disjoint request tables and a collision-free merged tree |
| Counting.RevisionCountsChanges | internal/trustedstate/native.go:328-342 | a resource's revision is the number of committed changes to it, across deletion and rebirth |
| Counting.ObjectRevisionCountsChanges | internal/trustedstate/store.go:184-215 | a version 1 object's revision is the number of committed mutations of it |
| Counting.OneChangePerRevision | internal/trustedstate/native.go:328-342 | of two committed changes to one resource the later one expects a strictly larger revision |
| Counting.BatchIsAtomic | internal/trustedstate/native.go:515-558 | a batch takes effect on all of its resources or on none and touches no other |
| Registers.ResourceIsLastChange | internal/trustedstate/native.go:515-543 | in every reachable state a resource is what the last committed change to it published |
| Registers.ObjectIsLastMutation | internal/trustedstate/store.go:206-215 | in every reachable state a version 1 object is what the last accepted mutation of it put there |
| Registers.MutationAcceptedIff | internal/trustedstate/store.go:184-208 | a journalled mutation was accepted if and only if its object was not frozen, it expected the number of mutations so far, and a deletion found something to delete |
| Registers.BatchAcceptedIff | internal/trustedstate/native.go:319-350 | a journalled batch without job command and alias was committed if and only if every change expected the number of changes so far, every tombstone found a live resource, and the tree stays free of collisions |
| Registers.TreeCheckIff | internal/trustedstate/native_memory.go:489-529 | the path check accepts exactly the changes after which no two live memory resources have the same path, or one a path below the other, under the four literal path rules |
| Registers.BatchReason | internal/trustedstate/native.go:328-350 | the recorded reason of a batch is that of its first bad change (conflict, exhausted, nothing to delete), then the tree, then none |
| Registers.MutationReply | internal/trustedstate/store.go:184-208 | the whole reply to a journalled mutation: the count before it, the reason in the order frozen, conflict, nothing to delete, exhausted, and the object as it is or becomes |
| Counting.GenerationCountsBumps | internal/trustedstate/native.go:526-550 | the memory generation is the number of committed records that change memory or clear it |
| Counting.GenerationNeverDrifts | internal/trustedstate/native.go:551-553 | the generation in a job receipt is the one that holds after it, so the poisoning branch is unreachable |
| Counting.SequenceCountsRecords | internal/trustedstate/native.go:593-602 | the sequence number is the number of journal records |
| Counting.RecordsAreRemembered | internal/trustedstate/native.go:556-557 | every record stays retrievable under its request id for ever |
| Counting.RequestIdsAreUnique | internal/trustedstate/native.go:577-588 | no two journal records, of either protocol, share a request id |
| Counting.ReceiptIs | internal/trustedstate/native.go:515-535 | a journalled receipt carries its own position, the resource each change leaves or none, and for a command the number of records that bumped the generation |
| RequestIds.MutateCallIs | internal/trustedstate/store.go:216-233 | the exact reply to a mutation whose id a record has: malformed, used by the other protocol, the first result for the same arguments, refused for others |
| RequestIds.NewMutateCall | internal/trustedstate/store.go:216-241 | a mutation with a new id is refused exactly when it is malformed, and journalled under the next sequence number otherwise |
| RequestIds.BatchCallIs | internal/trustedstate/native.go:577-590 | the exact reply to a normalized request whose id a record has: used by the other protocol, the first receipt for the same normal form or the same operation and intent, refused otherwise |
| RequestIds.NewBatchCall | internal/trustedstate/native.go:591-604 | a request with a new id is evaluated, and its normal form is journalled with the result |
| Replay.SameEvaluation | internal/trustedstate/native.go:384-396 | evaluating again with the persisted receipt needs no randomness and gives the same result |
| Replay.ReplayStep | internal/trustedstate/native.go:662-698 | replaying the persisted form of a step gives the live state, or fails exactly when the step began an empty consolidation |
| Replay.EmptyBeginIff | internal/trustedstate/native.go:448-485 | a committed begin selects nothing exactly when no stage 1 job is eligible |
| Replay.HistoryEncodable | internal/trustedstate/native.go:593-602 | every record of a run is one whose names have a single reading, as the encoding law asks |
| Replay.ReplayRefinesRun | internal/trustedstate/store.go:109-153 | reopening the entries of any run rebuilds its objects, resources, jobs, receipts, generation and sequence, if and only if no begin selected nothing |
| Replay.ReopensIffInputs | internal/trustedstate/store.go:109-153 | a run can be reopened if and only if every committed begin met a store with an eligible stage 1 job |
| Replay.AcceptedIsHistory | internal/trustedstate/store.go:109-153 | whatever entries `Open` accepts are the journal of a run and the reopened state is the state of that run |
| Framing.ScanJournal | internal/trustedstate/native.go:700-714 | the scanner with this split function delivers the same lines and error however the reads are chunked |
| Framing.FramingRoundTrip | internal/trustedstate/native.go:640-661 | splitting newline-terminated lines within the limit returns exactly those lines |
| Framing.TornTailIsError | internal/trustedstate/native.go:707-713 | a non-empty unterminated tail is an error, never a record and never dropped |
| Framing.NothingIsDropped | internal/trustedstate/native.go:700-714 | a file that is accepted is byte for byte the framing of the lines delivered |
| Durability.ReopenExact | internal/trustedstate/store.go:109-164 | the bytes a run wrote reopen to the state of that run, if and only if no begin selected nothing |
| Durability.CrashIsAtomic | internal/trustedstate/store.go:68-70 | when any prefix of an entry reached the disk, reopening gives the state before, the state after, or a refusal, and says which for which prefix |
| Durability.ReopensIffWhole | internal/trustedstate/store.go:109-153 | after a crash in the middle of an append the file reopens if and only if none of the entry is there, or all of it and it is not a begin without inputs |
| Durability.OneEntryPerRequest | internal/trustedstate/native.go:577-603 | a call of either protocol that is answered has exactly one journal entry, however often it was made |
| Durability.RetryFindsReceipt | internal/trustedstate/store.go:225-233 | repeating a recorded call of either protocol at any later time returns the recorded receipt |
| Durability.EvaluatedAgain | internal/trustedstate/native.go:589-592 | a call that was evaluated once is evaluated again in the same state at any other time, if the random source works |
| Durability.CrashThenRetry | internal/trustedstate/store.go:68-70 | crash in the middle of an append, reopen, any other calls, then the same call: it gets the first receipt if its entry survived, is evaluated if not, and once answered has exactly one entry; for both protocols |
| TrustedStore.Store.constructor | internal/trustedstate/store.go:101-108 | a new store is empty and not poisoned |
| TrustedStore.Store.AppendRecord | internal/trustedstate/native.go:640-661 | an oversize entry changes nothing; otherwise the reached bytes are appended and any fault poisons the store |
| TrustedStore.Store.ApplyObjectRecord | internal/trustedstate/store.go:209-215 | updates objects, requests and sequence as specified |
| TrustedStore.Store.ApplyNativeRecord | internal/trustedstate/native.go:536-558 | the two loops and the counters produce the specified state, and poison exactly on a drifting generation |
| TrustedStore.Store.Mutate | internal/trustedstate/store.go:216-241 | answers, journals and publishes as specified; on a fault nothing is published and the store refuses further work; fields and file stay those of a run |
| TrustedStore.Store.NativeBatch | internal/trustedstate/native.go:567-604 | answers, journals and publishes a native batch as specified; on a fault nothing is published; publishing never poisons the store |
| TrustedStore.Store.ReplayObjectEntry | internal/trustedstate/store.go:132-149 | re-evaluates one version 1 entry and applies it only if it agrees |
| TrustedStore.Store.ReplayNativeEntry | internal/trustedstate/native.go:662-698 | re-evaluates one version 2 entry and applies it only if it agrees |
| TrustedStore.Store.Open | internal/trustedstate/store.go:101-164 | accepts exactly the files that the specification accepts, with the specified state, and gives back a valid store for a file that a reopenable run wrote |
| TrustedStore.ReopenAndRetry | internal/trustedstate/store.go:68-70 | the same on the stateful store: for every fault, reopening its file succeeds exactly when the entry is absent or whole, and repeating the call leaves a valid store with exactly one entry for it |
| TrustedStore.Store.NativeRead | internal/trustedstate/native.go:621-639 | returns the current resource, or tells a poisoned store, an invalid key, a missing key and an expired revision apart |
| JobSteps.EnqueueStep | internal/trustedstate/native.go:356-371 | a committed enqueue creates a job, requeues it for a new input, or leaves it untouched, and never meets a leased one |
| JobSteps.ClaimStep | internal/trustedstate/native.go:372-402 | a committed claim met a waiting or expired job and changes only that job: new token, new expiry, current generation, the transaction kept |
| JobSteps.Stage1Step | internal/trustedstate/native.go:418-447 | a committed stage 1 commit had a valid lease and both artifacts or none, finishes its job and sends the consolidation job back to the queue |
| JobSteps.BeginStep | internal/trustedstate/native.go:448-485 | a committed begin stores fresh tokens, the limit and the selection of that moment |
| JobSteps.Phase2Step | internal/trustedstate/native.go:486-505 | a committed consolidation passed every freshness check and finishes its job at the next generation |
| Leases.LedgerIsRight | internal/trustedstate/native.go:311-317 | the lease of every job in every reachable state is the one that the journal's grants, renewals and releases imply |
| Leases.GrantsExclude | internal/trustedstate/native.go:372-417 | between a grant or renewal and the next grant of a job there is a release, or the time of the next grant is at or past the expiry |
| Leases.AuthorisedIsCovered | internal/trustedstate/native.go:403-447 | every committed heartbeat, fail and commit carries the token of the latest unreleased grant and is in time |
| Leases.SupersededTokenIsDead | internal/trustedstate/native.go:311-317 | with fresh tokens, a token that a later grant or release superseded authorises nothing again, on any job |
| Leases.AuthorisedIff | internal/trustedstate/native.go:403-417 | a journalled heartbeat or fail was committed if and only if it has no changes, a heartbeat asks for time, and the journal before it makes its token that of the unreleased grant, in time |
| Leases.ClaimIff | internal/trustedstate/native.go:372-402 | a journalled claim was committed if and only if it has no changes, asks for time, names the job's kind or none, and the job exists and waits, or the lease that the journal implies has run out |
| Leases.CommitReleases | internal/trustedstate/native.go:433-447 | a stage 1 commit gives the lease back if and only if the job is not named `global` or carries no artifacts |
| Acceptance.ConsolidationIff | internal/trustedstate/native.go:486-505 | a journalled consolidation was committed if and only if the ledger makes its token that of the unreleased grant, in time; its transaction is that of a begin with no begin, consolidation or clear since; nothing bumped the generation since the grant; the selection at the begin was not empty and equals the present one; and its changes are the two artifacts, expect the right revisions and leave the tree valid. Otherwise it says which reason is recorded |
| Acceptance.OpenBegin | internal/trustedstate/native.go:448-505 | after a begin with no begin, consolidation or clear since, the consolidation job still holds its transaction, its limit and its selection |
| Acceptance.OutputIff | internal/trustedstate/native.go:418-447 | a journalled stage 1 commit was committed if and only if the ledger makes its token that of the unreleased grant of a stage 1 job, in time, and its changes are the two halves, or nothing, expect the right revisions and leave the tree valid; and why it is refused otherwise |
| Acceptance.BeginIff | internal/trustedstate/native.go:448-485 | a journalled begin was committed if and only if it has no changes, asks for time and names the consolidation job, which exists and waits, or whose lease has run out; and why it is refused otherwise |
| Acceptance.EnqueueIff | internal/trustedstate/native.go:356-371 | a journalled enqueue was committed if and only if it has no changes, asks for a stage 1 job, names an input, and a job of that id, if any, is a stage 1 job that nobody holds; `job_conflict` otherwise |
| Acceptance.ClaimReason | internal/trustedstate/native.go:372-402 | the recorded reason of a claim: `job_conflict` for a bad command or a finished job, `lease_unavailable` while the ledger has an unexpired lease, else none |
| Acceptance.LeaseReason | internal/trustedstate/native.go:403-417 | a heartbeat or fail that was not committed was refused with `lease_lost` |
| Acceptance.GrantHandsOut | internal/trustedstate/native.go:384-396 | a live grant hands out the first token of the random source as lease token, and a begin the second as transaction; it fails only for want of one |
| Inputs.InputIsLastEnqueued | internal/trustedstate/native.go:356-371 | in every reachable state a stage 1 job carries the version of the last enqueue of its id, and the watermark of the enqueue that introduced it |
| Inputs.NoLostInput | internal/trustedstate/native.go:356-371 | a stage 1 job that is done was committed after its input was given, and no newer input came since |
| Consolidation.ConsolidationIsFresh | internal/trustedstate/native.go:486-505 | a committed consolidation carries the last begin's transaction; since the last grant nothing changed memory; its non-empty inputs are those selected at the begin; both artifacts advance by one revision together |
| Consolidation.NoLostConsolidation | internal/trustedstate/native.go:418-447 | while the consolidation job is done, no stage 1 output and no clear was committed since the grant of the last consolidation |
| Consolidation.OutputFacts | internal/trustedstate/native.go:433-447 | an output creates the consolidation job, sends it from `succeeded` or `failed` back to the queue, or leaves it as it is, in the same commit |
| Requests.DeletionChanges | internal/trustedstate/native_jobs.go:138-149 | the deletion loop yields exactly one tombstone for every live memory resource that the predicate selects |
| Requests.MemoryDeleteTransaction | internal/trustedstate/native_jobs.go:138-158 | the request holds those tombstones and a receipt that counts them, or is refused when there are too many |
| Requests.MemoryClearRequest | internal/trustedstate/native_jobs.go:216-218 | a clear dooms every memory resource, and is an exported request |
| Requests.MaintenanceDoomsPairs | internal/trustedstate/native_jobs.go:203-217 | retention, for any picked jobs, and clear doom both halves of a job's output or neither |
| Retention.PickRetained | internal/trustedstate/native_jobs.go:164-202 | picks min(limit, n) of the n stale jobs, and no job left out is older than a picked one |
| Retention.PickIsLongestUnused | internal/trustedstate/native_jobs.go:169-202 | read off the stored jobs, usage and watermarks: every picked job is finished and was last relevant before the cutoff; one that is left out meets `limit` picked jobs that were all last relevant no later than it, ties by the smaller id |
| Retention.MemoryRetainStage1 | internal/trustedstate/native_jobs.go:160-214 | refuses a bad policy; else picks the longest unused jobs of one state and sends, from a later one, the tombstones of what is left of their output and nothing else |
| Retention.UsedOutputStays | internal/trustedstate/native_jobs.go:185-213 | no job that was relevant at or after the cutoff loses a half of its output |
| Publishing.RequestPublishes | internal/trustedstate/native.go:515-543 | a committed request publishes the hashed form of the changes its caller wrote, and nothing else |
| Publishing.OutputIsPublished | internal/trustedstate/native_jobs.go:51-76 | a committed stage 1 commit leaves the two texts it was given as the two halves, or no half that it saw when it was given none, and touches nothing else |
| Publishing.ConsolidationIsPublished | internal/trustedstate/native_jobs.go:88-96 | a committed consolidation leaves the two texts it was given as the two artifacts and touches nothing else |
| Publishing.TransactionHolds | internal/trustedstate/native_jobs.go:138-158 | a maintenance transaction is refused exactly when 1024 or more live resources are selected; else it holds one tombstone for each and a receipt with their number |
| Publishing.DeletionTakesEffect | internal/trustedstate/native_jobs.go:138-158 | a committed retention or clear leaves a tombstone of every resource it had selected and touches nothing else but its receipt |
| Publishing.ClearSelectsAll | internal/trustedstate/native_jobs.go:216-218 | a clear selects every live memory resource |
| Requests.PairLiveness | internal/trustedstate/native_jobs.go:51-76 | over every interleaving of the exported operations the two halves of a job's output are both live or both not |
| Requests.ArtifactsNeverInconsistent | internal/trustedstate/native_jobs.go:58-62 | so the error `inconsistent stage1 artifacts` is never returned |
| Retries.Stage1CommitRetry | internal/trustedstate/native_jobs.go:51-76 | a stage 1 commit with a receipt is answered with it, whatever state the retry reads |
| Retries.Stage1CommitOtherArguments | internal/trustedstate/native.go:580-587 | the same request id with any other argument is refused |
| Retries.Phase2CommitRetry | internal/trustedstate/native_jobs.go:88-96 | a consolidation with a receipt is answered with it, although its two revisions are read at two moments and have changed |
| Retries.Phase2CommitOtherArguments | internal/trustedstate/native.go:580-587 | a consolidation's request id with any other argument is refused |
| Windows.MinimalIff | internal/trustedstate/native_memory.go:444-449 | a range is inclusion-minimal exactly when it ends at the shortest end of its start and the next start ends later |
| Windows.BackwardScan | internal/trustedstate/native_memory.go:411-425 | the backward pass over the arrays computes the shortest end for every start |
| Windows.ForwardScan | internal/trustedstate/native_memory.go:426-442 | the forward pass appends the candidates, and dropping by adjacency leaves the matches of the specification |
| Windows.KeptAreMatches | internal/trustedstate/native_memory.go:444-449 | looking only at the next window rejects exactly the windows that are not minimal |
| Windows.MatchesAreExact | internal/trustedstate/native_memory.go:400-449 | the emitted windows are exactly the ranges that match the mode, in order of their first line and each once |
| MemoryView.MemorySnapshot | internal/trustedstate/native_memory.go:114-135 | the snapshot maps every visible path to its content; a collision-free tree never fails, and the only failure is an ambiguous path |
| MemoryView.NeverAmbiguous | internal/trustedstate/native_memory.go:126-128 | in every reachable state each visible resource shows its own content at its path |
| Listed.SnapshotIs | internal/trustedstate/native_memory.go:81-135 | in every reachable state the snapshot has exactly the live memory resources with UTF-8 content, each at the literal path of its domain |
| MemoryView.CursorExpires | internal/trustedstate/native_memory.go:157-177 | a cursor is good while no record was appended and the query is the same; the first record or another query makes it expire |
| MemoryView.EntryTypeAgrees | internal/trustedstate/native_memory.go:213-224 | the entry type computed from any one file is the type of the entry, so the visiting order does not matter |
| MemoryView.MemoryList | internal/trustedstate/native_memory.go:184-252 | the reply is the specified page of the snapshot or the specified refusal, in every case |
| MemoryView.FillListPage | internal/trustedstate/native_memory.go:237-250 | the page loop stops where the size and count bounds say, and fills in the rows in between |
| MemoryView.ListingIsLossless | internal/trustedstate/native_memory.go:229-251 | following the cursors of the page function ends and yields every entry once and in order |
| MemoryView.ListEverything | internal/trustedstate/native_memory.go:184-252 | a client that repeats the request with each cursor, on an unchanged store, ends with every entry of its snapshot once and in order |
| Listed.ListingIsExact | internal/trustedstate/native_memory.go:184-252 | a listing succeeds exactly for a path, a positive bound and a scope with something to list; it then has one row, in order, for the file asked for, or for each file or directory directly below the scope that is or leads to a file without dot parts, with the right type |
| Listed.ListPageIsFull | internal/trustedstate/native_memory.go:229-251 | a page starts where its cursor says, holds at most 2000 rows and 32 KiB of paths, stops only at a bound or the end, and has a cursor to the next row unless it holds the last |
| Search.CheckQueries | internal/trustedstate/native_memory.go:345-356 | the loop returns the refusal of the first query that is too large or empty |
| Search.MemorySearch | internal/trustedstate/native_memory.go:324-485 | the reply is the specified page of the matches of all files in scope or the specified refusal, in every case |
| Search.StreamFile | internal/trustedstate/native_memory.go:444-479 | the emission loop over one file continues the page or stops with the specified reply |
| Search.SearchIsLossless | internal/trustedstate/native_memory.go:444-483 | following the cursors of the page function ends and yields every match once and in order, if and only if no match is larger than a page |
| Search.SearchEverything | internal/trustedstate/native_memory.go:324-485 | a client that repeats the request with each cursor, on an unchanged store, ends with every match once and in order, or with the refusal of an oversized match |
| Found.SearchIsExact | internal/trustedstate/native_memory.go:324-485 | a search succeeds exactly when its scope, bounds and queries are right, a given scope holds a file and no match exceeds a page; it then returns, by path and line, exactly one match for every matching line or inclusion-minimal range of a visible file in scope, with the number of its first line, the lines around it clipped to the file, and in request order the trimmed queries that occur in it |
| Found.ReportIsUnique | internal/trustedstate/native_memory.go:461-476 | the line, the content and the queries of a match are determined by the file, the request and the range |
| Found.LinesAre | internal/trustedstate/native_memory.go:383-390 | the lines of a file are its content split at newlines, without a last empty line and without carriage returns at the ends |
| Found.SearchPageIsFull | internal/trustedstate/native_memory.go:450-483 | a page starts where its cursor says, holds at most 200 matches and 32 KiB of content, stops only at a bound or the end, and has a cursor to the next match unless it holds the last |
| Freezing.AliasesAlwaysHold | internal/trustedstate/native_migration.go:34-71 | in every reachable state every alias is live and names a live object at the recorded revision and hash |
| Freezing.FrozenForever | internal/trustedstate/store.go:190-193 | a frozen object stays frozen and never changes again |
| Freezing.LaterMutationsRefused | internal/trustedstate/store.go:184-208 | every later mutation of it is journalled as read-only and has no effect |
| Freezing.MigrationAcceptedIff | internal/trustedstate/native_migration.go:34-71 | a journalled batch without job command was committed if and only if each alias in it names a live object at its revision and hash and comes with a target that publishes its content, the changes expect the right revisions and the tree stays valid |
| Freezing.MemoryImportIsPublished | internal/trustedstate/native_migration.go:19-33 | a committed memory import leaves the object's text as a new note, freezes the object and touches nothing else but the alias |
| Freezing.SkillImportIsPublished | internal/trustedstate/native_skills.go:340-355 | a committed skill import leaves an enabled package of the given authority with the object's text as its one file, and freezes the object |
| Freezing.MemoryImportIff | internal/trustedstate/native_migration.go:19-33 | an import is built exactly for a valid file name and a live object at the given revision; sent to the same store it is committed exactly when note and alias were never written and the tree stays valid |
| Freezing.SkillImportIff | internal/trustedstate/native_skills.go:340-355 | the same for a skill, whose package must be valid |
| Freezing.ImportMemoryRetry | internal/trustedstate/native_migration.go:19-33 | repeating a committed import at any time builds the same request and returns the first receipt |
| Freezing.ImportSkillRetry | internal/trustedstate/native_skills.go:340-355 | repeating a committed skill import at any time builds the same request and returns the first receipt |
| Freezing.ImportsArePublic | internal/trustedstate/native_migration.go:19-33 | both imports leave the stage 1 domain alone, as the pair theorem asks of exported operations |
| Bundles.NativeFilesEqual | internal/trustedstate/native_skills.go:242-256 | sorting both lists and comparing pairwise decides equality of the packages |
| Bundles.FilesEqualIff | internal/trustedstate/native_skills.go:242-256 | two packages are equal exactly when they have the same paths with the same contents, in any order |
| Bundles.CheckDesired | internal/trustedstate/native_skills.go:161-171 | the loop accepts exactly the desired sets without duplicates whose packages are all valid |
| Bundles.CollectPackages | internal/trustedstate/native_skills.go:205-224 | the loop with the growing managed set yields the steps that the desired packages need, or the first refusal |
| Bundles.CollectDrops | internal/trustedstate/native_skills.go:225-234 | the loop yields a tombstone for every dropped package, or the first refusal |
| Bundles.SkillBundledEnsure | internal/trustedstate/native_skills.go:154-240 | the call, with its intent computed from all arguments, comes to the recorded receipt, the specified refusal or the specified request |
| Ensuring.EnsureSendsIff | internal/trustedstate/native_skills.go:154-240 | a call with a new id is sent if and only if the desired set is valid, the manifest is absent or readable with logical ids, no desired package has a revision without being managed, every live desired package and every dropped one is there with a package of this authority |
| Ensuring.EnsureRefusals | internal/trustedstate/native_skills.go:161-234 | which refusal every other call gets: the invalid set, the manifest, the first blocked package in the order of the ids, then a dropped package that is not there or not of this authority |
| Ensuring.EnsureSent | internal/trustedstate/native_skills.go:200-240 | the request holds one write for each desired package that is not there with its files, also over a tombstone, at the stored revision and with the stored enabled flag or the caller's, one tombstone for each dropped package, and the manifest with both lists in order |
| Bundles.EnsureIsPublic | internal/trustedstate/native_skills.go:200-239 | the request leaves the stage 1 domain alone, as the pair theorem asks of exported operations |
| Bundles.EnsureReconciles | internal/trustedstate/native_skills.go:154-240 | with no commit in between, a committed call leaves every desired package live with its files and the user's enabled flag, tombstones the dropped ones, changes nothing else and records the desired set |
| Bundles.ManagedGrows | internal/trustedstate/native_skills.go:223-239 | the manifest lists exactly the desired packages and the managed set only grows |
| Bundles.SecondEnsureChangesOnlyTheManifest | internal/trustedstate/native_skills.go:205-239 | a second call leaves everything but the manifest as it was, and rewrites the manifest with the same content |
| Bundles.EnsureRetry | internal/trustedstate/native_skills.go:290-300 | once a call has a receipt, the same arguments get it back whatever is installed by then, and any other arguments under its id are refused |
| Corners.EmptyConsolidationCannotReopen | internal/trustedstate/native.go:448-485 | a concrete run whose entries all fit ends in a begin without inputs, and its journal is refused |
| Corners.LeaseSurvivesCommit | internal/trustedstate/native.go:433-447 | in a concrete run the artifact commit of a stage 1 job named `global` leaves its lease in place |

## Left out

- Inside the core: JSON bytes, base64, SHA-256, the file name and Markdown rules, RFC 3339 text, Unicode case mapping and UTF-8 validity are functions of `Codec` and `Viewer` with the stated laws; times are integers in nanoseconds.
- Requests with invalid UTF-8 in a text field, which a JSON copy would alter.
- The texts of the errors that malformed requests get: there is one refusal `Malformed`.
- 64-bit wrap-around of the generation, the sequence number and a job's revision, which are natural numbers; the explicit `revision_exhausted` guard is modelled.
- The 64-bit flag words of the search are sets of query numbers, and the shifts that build them are set membership; preparing a line or a query is uninterpreted.
- The match modes that `MemorySearch` refuses as malformed (an unknown type, a line count where none belongs) cannot be written in the model.
- `sort.Slice` and `sort.Strings` are an insertion sort written as a function; only its result matters.
- Bundles.SkillBundledEnsure: works on a state value and ends with the request; submitting it is the step of `TrustedStore.Store.NativeBatch`.
- Requests.PairLiveness: is about the exported operations that build their requests; a caller of the primitive `NativeBatch` can write one half of a pair.
- The poisoned check at the head of the read operations other than `NativeRead`; the version 1 `Read` and `List`.
- The cutoff of `MemoryRetainStage1` is a parameter: its clock and 64-bit duration arithmetic are not modelled.
- `MemoryRecordUsage`, `MemoryNote`, `MemoryRead`, `MemoryProjection`, `NativeJobRead` and the single-package wrappers `SkillPackageReplace`, `SkillPackageSetEnabled`, `SkillPackageDelete`, `SkillPackageList`, `SkillPackageRead`: straight-line requests or reads over the modelled engine.
- File permissions, file locking, directory sync and `Close`, which are assumptions about the environment.
- The HTTP and MCP layers, deployment, the executor, the tool gateway and the launchers of the coding tools, which do not touch the state machine.
