# Memline, modelled and proved

Memline keeps an agent's long-term memories: a store of texts that supersede and expire, a table of
suspicions about them, a daemon that other processes reach through a socket, a SQLite mailbox and a durable
queue, and a pipeline that compiles memories into reviewed wiki articles. This project models the stateful
parts of it in Dafny and proves what they promise, over every input, every run or every interleaving.

Run `dafny verify dfyconfig.toml` to check everything.

## How the model is laid out

Operations that change state are classes whose methods do what the code does, statement by statement; each
method is proved equal to a function on values, and the theorems are about those functions and about runs of
them. Where several processes or threads meet, a transition system takes one SQL statement, one lock action
or one file access per step, and records history (who claimed what, what was produced, how many crashes) in
extra state components that no step reads.

| files | subject |
|---|---|
| `Supersession`, `PairStore`, `Lifecycle`, `Staleness`, `LifecycleInvariants`, `LifecycleEffects`, `LifecycleRuns`, `MergeOutcome`, `HarvestLimit` | memory lifecycle: the `superseded_by` graph, time to live, suspicion pairs, dispositions |
| `Bridge`, `BridgeProtocol`, `ClientLoop` | the mailbox between sandboxed clients and the daemon |
| `EventQueue`, `EventProtocol`, `AlertsProtocol` | the persistent queue of asynchronous adds and its alerts file |
| `Gate` | the shared/exclusive gate over the store with the LLM slots nested in it |
| `ReviewReport`, `ReviewContract`, `MergedReport`, `ReviewMerge`, `MergedVerdicts`, `MergedContract`, `ReviewAgreement`, `ReviewSplit`, `ReviewConservation` | review reports: validation, merging, and the agreement of the two |
| `Adjudication`, `FindingIds`, `AdjudicationGate`, `PublicationGate` | the agent's rulings on every finding, and the publication gate |
| `Batch`, `BatchLaws`, `PlanContents` | the batch planner |
| `Draft`, `Citations`, `Packets`, `PacketTexts`, `Accounts` | citations and blocks of a draft, the two resolvers, claim packets, the evidence account |
| `Page`, `LedgerParser`, `LedgerText`, `Timestamps` | generated regions of a page, the ledger chunk parser, timestamps compared as texts |
| `Strings`, `Sequences`, `Sorting` | text order, white space, concatenation, `sorted` on texts |

Conventions: an error the code raises is an outcome value; a JSON field that may be missing or of the wrong
type is a datatype that keeps those cases apart; SHA-256 is an injective constructor; uuids are row positions
or keys not used before; the clock is a parameter that never runs backwards.

## What the proofs found out

* `delete_guard` fails open: a hard delete leaves a dangling pointer exactly when the guard's scan raised on a
  memory that supersedes others and is not superseded itself (`LifecycleInvariants.DeletedKeepsGraph`).
* `harvest_expired` asks the store for a limited number of expired memories, stamped ones included. A due memory
  is certain to be stamped, whatever the store returns, if and only if no more than `limit` memories are expired
  (`HarvestLimit.StampedExactly`); beyond that it can be missed time and again (`HarvestLimit.MissedAgain`), and
  a harvest may do nothing at all (`LifecycleRuns.HarvestMayStarve`). A second harvest is idle exactly when the
  first scan covered it.
* `stale merge` rewrites the text before it invalidates. It stops half-way, with the text rewritten, exactly when
  it passes its checks, the invalidation would be refused as things stand before the merge, and the rewrite is not
  idle (`MergeOutcome.MergeExactly`); `MergeOutcome.MergeHalfDone` is an input. Confirm and ttl are all or nothing.
* The merged validator asks every pass for a scope reason, the single-pass validator does not. That is the
  only way the two can disagree about a merge of valid passes (`ReviewAgreement.ProducerAgrees`).
* `merge_reviews` computes `scope_clean` from the new passes only: merging in two steps equals merging at once
  except there, and the exact condition is stated (`ReviewSplit.SplittingIsHarmless`).
* `refresh_alerts` reads under the queue's lock and writes outside it, and other processes refresh too. With
  nothing pending the file is right as soon as the last write came from the refresh that was the last to begin
  (`AlertsProtocol.AlertsAgree`), so a refresh that runs alone repairs it. Otherwise it can stay wrong: a run
  from nothing is given (`AlertsProtocol.AlertsCanLag`), and the exact condition is on what the last writer's
  two queries saw (`AlertsProtocol.AlertsExact`).
* Writing a region twice is writing it once if and only if the body holds no end marker; if it does, every
  further write makes the page longer (`Page.SecondWriteExact`). On a page that had no region yet there must also
  be no stray begin marker, from which the second write would swallow the text (`Page.AppendThenWrite`).
* The incremental planner compares a full cursor with stamps cut to the second, so a memory touched after the
  cursor in the same second is not read again (`Timestamps.CursorSkipsItsSecond`).
* The citation pattern lets a source name run over line breaks, so a citation can contain a blank line. The
  draft check reads the draft whole and the review bundle block by block, and they read the same citations
  exactly when there is no such citation (`Draft.BlocksKeepCitations`). It splits them both ways: the draft check
  counts its source as cited and the bundle does not (`Accounts.UncitedSplit`), and a citation behind its blank
  line is read in a block and not in the whole draft, so there the bundle counts a memory as cited and the draft
  check does not (`Draft.HiddenCitation`, `Accounts.HiddenSplit`). The two lists of uncited evidence agree for
  every bundle of distinct memories if and only if there is none (`Accounts.UncitedAgreeExactly`).
* The two citation resolvers disagree on a ref exactly when it abbreviates a single memory that the bundle
  lists more than once (`Citations.ResolversAgreeExactly`).
* The expiry flag's key joins text and deadline with `@@`. A deadline can share its key with a shorter one
  exactly when it begins with `@` or contains `@@` (`LifecycleRuns.SaltExact`). Deadlines printed from a number
  of days never do (`LifecycleRuns.PrintedNeverSplits`), but `set_ttl` stores an `expires_at` as it is given, and
  the daemon passes it on unchecked. Then a memory can expire without a review flag
  (`LifecycleRuns.SharedFlagSkipped`).
* A review that is clean by its own account is published without rulings only if it recorded no omission at all,
  not even a note (`PublicationGate.CleanReviewStillAsks`).
* Reviving a memory undoes its invalidation except that its protection is not given back and the pairs stay closed
  (`LifecycleEffects.ReviveUndoesInvalidate`).
* A ceiling of zero makes the batch planner raise, a negative one makes it return an empty plan
  (`Batch.PlanBatches`).
* The comment in `select_since` speaks of everything an incremental run must re-read; the code re-reads what
  `BatchLaws.SelectedExactly` says, with the cut stamps above.

## Model

| member | source | states |
|---|---|---|
| Supersession.CheckNoCycleExact | src/memline/staleness.py:301-329 | the bounded frontier search returns normally only if the target is unreachable from the superseders at any distance, reports a cycle only if the target is reached, and gives up only on a chain longer than the limit |
| Supersession.AssertNoCycle | src/memline/staleness.py:301-329 | the nested frontier loops compute that search |
| Supersession.RepointKeepsAcyclic | src/memline/staleness.py:347-372 | superseding a memory by memories that cannot reach it keeps the graph acyclic |
| Supersession.FewerPointersKeepAcyclic | src/memline/staleness.py:409-437 | dropping pointers keeps the graph acyclic |
| Supersession.ResolveHeadExact | src/memline/staleness.py:455-488 | `resolve_head` returns each active memory with a payload within 100 hops exactly once, and nothing else |
| Supersession.ResolveHeadFindsAHead | src/memline/staleness.py:455-488 | when everything reachable is within 100 hops it returns all heads, and on a sound graph there is one |
| Supersession.ChainEnds | src/memline/staleness.py:455-488 | on an acyclic graph without dangling pointers every chain ends in a head |
| Supersession.ResolveHead | src/memline/staleness.py:455-488 | the visited/frontier loop terminates and computes that result |
| PairStore.Store.RecordJudgment | src/memline/staleness.py:909-959 | a judgment is inserted once per key, open exactly when its verdict opens its kind at or above the floor, else cached |
| PairStore.RecordedOk | src/memline/staleness.py:824-842 | recording keeps keys unique and every row cached exactly when its verdict does not open it, and removes or reopens nothing |
| PairStore.Store.JudgedEither | src/memline/staleness.py:971-988 | exactly the candidates already judged against the probe in either direction for the text version at hand |
| PairStore.Store.HasJudgment | src/memline/staleness.py:961-969 | true exactly when a row with the key exists |
| PairStore.Store.Dispose | src/memline/staleness.py:1032-1050 | the new table after disposing one pair, open pairs only |
| PairStore.Store.Reopen | src/memline/staleness.py:1052-1068 | the new table after reopening a confirmed, merged or ttl pair |
| PairStore.Store.CloseForOld | src/memline/staleness.py:1070-1088 | exactly the open pairs of a target, of one kind or of all, are closed |
| PairStore.ClosedForDeletedOk | src/memline/staleness.py:1090-1109 | closing the pairs of a deleted memory keeps the table sound and every closed pair closed |
| PairStore.UpdateLeavesPresentText | src/memline/staleness.py:1111-1121 | after an update every open pair on the memory was judged on its present text, the others are expired for good, nothing else is touched, and repeating it closes nothing |
| PairStore.ReopenUndoesDispose | src/memline/cli/_support.py:799-810 | disposing and reopening an open pair leaves no trace |
| PairStore.EvidenceIsEverOpened | src/memline/staleness.py:1123-1166 | the evidence query selects exactly the displacement rows of the text version that were ever opened |
| PairStore.EvidenceMembers | src/memline/staleness.py:1123-1166 | the ordered evidence holds every such row and nothing else |
| PairStore.EvidenceNewestFirst | src/memline/staleness.py:1123-1166 | the evidence is ordered newest first without repetition |
| PairStore.FullRun | src/memline/staleness.py:1123-1166 | the run of dismissals covers the list exactly when all rows are dismissed; the distinct-new-id test follows from unique keys |
| PairStore.RunExactly | src/memline/staleness.py:1123-1166 | on any table the run ends at the first row that was not dismissed or repeats a new id |
| PairStore.EligibleExactly | src/memline/staleness.py:1123-1166 | protection eligibility holds exactly when there are three such rows and the latest three are all dismissed |
| PairStore.Store.ConsecutiveDismissedEvidence | src/memline/staleness.py:1123-1166 | the scan of the rows computes that eligibility and its evidence |
| Staleness.Invalidate | src/memline/staleness.py:332-406 | the method's effect on both stores is the specified step, errors and cascade included |
| Staleness.SetTtl | src/memline/staleness.py:1181-1246 | the method's effect on both stores is the specified step for clear, expire-now and a deadline |
| Staleness.HarvestExpired | src/memline/staleness.py:1249-1309 | the loop's effect on both stores is the specified fold over the scan |
| Staleness.Delete | src/memline/ops.py:106-130 | a guarded delete: superseded or superseding memories are expired instead, and their pairs closed |
| Staleness.Update | src/memline/ops.py:80-103 | an update rewrites the text, drops protection and expires pairs of other texts |
| Staleness.SetDisplacementProtection | src/memline/staleness.py:178-236 | the checks in order, each with its error, and the patched payload |
| LifecycleInvariants.ProtectedExactly | src/memline/staleness.py:178-236 | protection is set exactly on a live memory, for a reason of 1 to 500 characters, at most 90 days, an agent and a session, when the latest three suspicions on this text are dismissed; else nothing changes |
| Staleness.StaleConfirm | src/memline/cli/stale.py:31-79 | the composite confirm, with rollback, over both stores |
| Staleness.StaleTtl | src/memline/cli/stale.py:82-107 | the composite ttl disposition, with rollback, over both stores |
| Staleness.StaleMerge | src/memline/cli/stale.py:221-272 | the composite merge, with rollback, over both stores |
| LifecycleInvariants.InvalidatedKeepsGraph | src/memline/staleness.py:332-406 | invalidation keeps the graph acyclic and free of dangling pointers |
| LifecycleInvariants.DeletedKeepsGraph | src/memline/staleness.py:1312-1332 | a hard delete keeps the graph sound unless the guard's scan failed on an unsuperseded superseder, and only then |
| LifecycleInvariants.ApplyKeepsGraph | src/memline/staleness.py:301-383 | every operation keeps the graph sound, given that a delete's scan succeeds |
| LifecycleInvariants.ApplyKeepsTable | src/memline/staleness.py:868-1166 | every operation, composite ones included, keeps pair keys unique, rows in place and final decisions final |
| LifecycleEffects.TtlSetExactly | src/memline/staleness.py:1181-1246 | mode by mode, at every time: cleared, the memory is in the pool unless superseded; expired now, it is out from this moment on and never due; with a deadline, it is out and due from the deadline on; everything else stays, and only its open expiry flags are closed |
| LifecycleEffects.DeletedExactly | src/memline/ops.py:106-130 | a memory that is superseded or supersedes another is kept, out of the pool from this moment on and never due; any other is gone; nothing else changes |
| LifecycleEffects.DeletedPairsExactly | src/memline/staleness.py:1090-1109 | afterwards no open pair mentions the memory at either end, and no other pair has changed |
| LifecycleEffects.ConfirmedNecessity | src/memline/cli/stale.py:43-73 | a confirmed necessity pair takes its memory out of the pool from this moment on, never to be asked about, and changes nothing else but its expiry flags |
| LifecycleEffects.ConfirmedExactly | src/memline/cli/stale.py:31-79 | a pair can be confirmed exactly when it is open, not about correctness, the actor may, and the follow-up can be done |
| LifecycleEffects.ConfirmedExpiry | src/memline/cli/stale.py:43-73 | confirming an expiry flag settles the flag and nothing else |
| LifecycleEffects.PairTtlExactly | src/memline/cli/stale.py:82-107 | a deadline can be set through exactly the open necessity pairs and expiry flags of memories that are there |
| LifecycleEffects.DismissedExactly | src/memline/cli/stale.py:110-123 | a dismissal needs an open pair and the right to it, and changes only the pair |
| LifecycleEffects.HarvestedExactly | src/memline/staleness.py:1249-1309 | the harvest of one memory: what is due is stamped without moving in or out of the pool, its open pairs are closed and at most one flag, on its text and deadline, is added; anything else is left alone |
| LifecycleEffects.InvalidatedExactly | src/memline/staleness.py:332-406 | an invalidated memory has just the named successors, is out of the pool at every time and unprotected; text and expiry stay, all open pairs on it are closed; a refusal changes nothing |
| LifecycleEffects.SelfRefused | src/memline/staleness.py:347-352 | a memory never supersedes itself, whatever else is named |
| LifecycleEffects.DedupedOrder | src/memline/staleness.py:347-350 | successors keep the order in which they were first named |
| LifecycleEffects.RevivedExactly | src/memline/staleness.py:409-437 | a revived memory has no successors and is in the pool unless its expiry keeps it out; everything else stays |
| LifecycleEffects.ReviveUndoesInvalidate | src/memline/staleness.py:332-437 | revive after invalidate gives the store back, less the protection |
| LifecycleEffects.UpdatedExactly | src/memline/ops.py:80-103 | an update sets the text, drops protection exactly when the text is new, keeps its place in the pool, and closes exactly the open pairs judged on other texts |
| LifecycleEffects.GrantedExactly | src/memline/staleness.py:178-236 | a granted protection runs to the end asked for and changes nothing else |
| LifecycleEffects.UnprotectedExactly | src/memline/staleness.py:260-297 | clearing protection leaves none, changes nothing else, and is idempotent |
| LifecycleEffects.RecordedExactly | src/memline/staleness.py:824-959 | per kind, which verdicts at which confidence open a suspicion; a key is recorded once |
| LifecycleRuns.RollbackRestores | src/memline/cli/_support.py:799-810 | when the follow-up raises without changing anything, dispose and reopen restore the world exactly |
| LifecycleRuns.ConfirmAllOrNothing | src/memline/cli/stale.py:43-73 | confirm raises and changes nothing, or leaves its pair confirmed and not relabelled by the cascade |
| LifecycleRuns.ConfirmedDisplacement | src/memline/cli/stale.py:43-73 | a confirmed displacement supersedes the old memory by exactly the new one, obsoletes every other open pair on it, and touches nothing else |
| LifecycleRuns.PairTtlAllOrNothing | src/memline/cli/stale.py:82-107 | ttl raises and changes nothing, or sets the deadline and leaves no open expiry flag |
| LifecycleRuns.MergeAllOrNothing | src/memline/cli/stale.py:221-272 | merge changes nothing, or leaves only the rewritten text, or completes with the older memory superseded by the newer |
| MergeOutcome.MergeExactly | src/memline/cli/stale.py:221-272 | a merge goes through exactly when it passes its checks and the invalidation would be accepted beforehand; it stops half-way, with exactly the rewrite done, exactly when that would be refused and the rewrite is not idle |
| MergeOutcome.UpdateIdle | src/memline/ops.py:80-103 | a rewrite is idle exactly when the text is the one that was there and every open pair on the memory was judged on it |
| MergeOutcome.SameError | src/memline/staleness.py:301-372 | invalidation answers the same on graphs with the same memories and successors |
| MergeOutcome.MergeOfSuperseded | src/memline/cli/stale.py:255-262 | every pair whose older memory is superseded already stops half-way on a new text |
| MergeOutcome.MergeHalfDone | src/memline/cli/stale.py:255-262 | such a world |
| LifecycleRuns.TtlSetKeepsFlags | src/memline/staleness.py:1181-1246 | any set_ttl leaves no open expiry flag of the memory, and open flags elsewhere stay justified |
| LifecycleRuns.ApplyKeepsFlags | src/memline/staleness.py:1249-1309 | an open expiry flag always belongs to an expired, stamped (or gone) memory |
| LifecycleRuns.RunTable | src/memline/staleness.py:868-1166 | over any run rows are never removed and final decisions never change |
| LifecycleRuns.RunSafe | src/memline/staleness.py:301-383 | over every run with successful guard scans: sound graph, sound table, justified flags |
| LifecycleRuns.RunFromNothing | src/memline/staleness.py:301-383 | in particular over every run that starts with nothing stored |
| LifecycleRuns.NeverReasked | src/memline/staleness.py:1249-1309 | once an expiry is stamped no later harvest raises a flag until somebody renews the deadline |
| LifecycleRuns.HarvestKeepsPool | src/memline/staleness.py:1249-1309 | a harvest never changes which memories default search may return, at any time |
| LifecycleRuns.SecondHarvestIdle | src/memline/staleness.py:1249-1309 | a second harvest does nothing exactly when everything due in its scan was in the first |
| LifecycleRuns.CompleteHarvestIsFinal | src/memline/staleness.py:1249-1309 | after a scan below its limit a second harvest at the same time does nothing |
| LifecycleRuns.HarvestMayStarve | src/memline/staleness.py:1255-1276 | `limit` stamped memories can fill a scan, which then harvests nothing |
| HarvestLimit.ScannedExactly | src/memline/staleness.py:1255-1276 | every answer of the store holds a due memory if and only if at most `limit` memories are expired, stamped ones counted |
| HarvestLimit.StampedExactly | src/memline/staleness.py:1249-1309 | so a due memory is stamped whatever the store returns if and only if at most `limit` are expired |
| HarvestLimit.MissedAgain | src/memline/staleness.py:1255-1276 | beyond that some answer misses it and leaves it due among as many expired ones |
| LifecycleRuns.HarvestRaisesFlag | src/memline/staleness.py:1249-1309 | a due memory in the scan is stamped and has its flag row; one outside the scan is untouched |
| LifecycleRuns.SaltExact | src/memline/staleness.py:1288-1307 | a deadline shares a salted text with a shorter one exactly when it begins with `@` or contains `@@` |
| LifecycleRuns.SaltInjective | src/memline/staleness.py:1288-1307 | among deadlines that do not, equal salted texts mean equal text and deadline |
| LifecycleRuns.PrintedNeverSplits | src/memline/staleness.py:1216-1218 | a deadline printed from a moment does not |
| LifecycleRuns.FlagAddedExactly | src/memline/staleness.py:1284-1307 | harvesting a due memory adds a flag row exactly when no row has its key yet |
| LifecycleRuns.SharedFlagSkipped | src/memline/staleness.py:1181-1307 | a memory rewritten and given a deadline that salt to the text of an earlier flag expires without a flag |
| LifecycleRuns.OneFlagPerDeadline | src/memline/staleness.py:1249-1309 | over a whole run at most one flag row per memory, text and deadline |
| Bridge.Queue.SelectQueued | src/memline/bridge.py:221-246 | the claim query returns an oldest claimable request, and none only if there is none |
| Bridge.Queue.ClaimSelected | src/memline/bridge.py:221-246 | the conditional update wins exactly on a queued row |
| Bridge.Queue.CancelIfQueued | src/memline/bridge.py:202-217 | a cancel succeeds exactly on a queued row and ends it as an error |
| Bridge.RecoveredAnswers | src/memline/bridge.py:258-273 | after a restart whoever asks about a request that was in processing reads that its outcome is unknown, everybody else reads what he would have read, and recovering again changes nothing |
| Bridge.PurgedKeeps | src/memline/bridge.py:275-284 | a row stays, unchanged, exactly when its answer is unread and it is unfinished or finished since the cutoff; an earlier cutoff then takes nothing more |
| Bridge.EnqueuedExactly | src/memline/bridge.py:165-178 | a request enters behind those that wait, stamped with its time, and changes no other |
| Bridge.NextExactly | src/memline/bridge.py:221-246 | only queued requests of this protocol version are handed out, the oldest first |
| Bridge.ClaimedExactly | src/memline/bridge.py:221-246 | a claim moves one queued request to processing and changes no other |
| Bridge.CompletedAnswers | src/memline/bridge.py:248-256 | the handler's response is what the client reads, and decides between done and failed |
| Bridge.CancelledAnswers | src/memline/bridge.py:202-217 | a request withdrawn while queued answers with the reason; any other is left alone |
| BridgeProtocol.StepKeepsInv | src/memline/bridge.py:299-335 | every client, worker and daemon step keeps the protocol invariant |
| BridgeProtocol.RunLater | src/memline/bridge.py:202-284 | over any run requests only move forward and finished rows never change |
| BridgeProtocol.StepEdge | src/memline/bridge.py:202-284 | every step moves a request along an edge of the protocol or not at all: unsent to queued, queued to processing or, cancelled, to error, processing to done or error, finished to deleted |
| BridgeProtocol.MailboxSafe | src/memline/bridge.py:202-284 | over every interleaving, crash and restart requests move along those edges only, and each is claimed at most once, on the payload that was sent |
| BridgeProtocol.CancelledNeverRuns | src/memline/bridge.py:202-217 | a request reported as cancelled has not run and never will |
| BridgeProtocol.OwnAnswerOnly | src/memline/bridge.py:299-335 | a client only receives what its own request produced, or the restart notice for its own claimed request |
| BridgeProtocol.ProcessingIsHandled | src/memline/daemon.py:464-563 | while the daemon is up every processing request is being handled by exactly one worker |
| BridgeProtocol.FirstSentFirst | src/memline/bridge.py:221-246 | over any run a worker never picks up a request while one that was sent earlier waits |
| ClientLoop.LastStepDecides | src/memline/bridge.py:299-335 | over any run, where a client stands follows from its own last step and what it saw then: the clock, the response, the heartbeat or the queue |
| ClientLoop.LoopKeepsTime | src/memline/bridge.py:315-335 | a client times out only once its timeout has passed since it sent, withdraws early only right after a look that found the heartbeat stale or not ready, and asks for its response only right after a look before the deadline |
| ClientLoop.UnavailableForReason | src/memline/bridge.py:315-335 | a client reports the daemon unavailable only after its deadline, or after withdrawing an unclaimed request from a daemon that looked dead; it knows exactly whether the request was withdrawn |
| ClientLoop.AdmittedFresh | src/memline/bridge.py:307-312 | a request is sent only after a look that found a fresh heartbeat |
| ClientLoop.WaitingMoves | src/memline/bridge.py:315-335 | a waiting client can do the one thing it stands before, and nothing else |
| ClientLoop.ReturnedIsGone | src/memline/bridge.py:317-324 | once a client has returned its response the mailbox never holds the request again |
| EventQueue.Queue.ClaimNext | src/memline/queue.py:72-90 | claims an oldest queued event and counts the attempt; none only if nothing is queued |
| EventQueue.Queue.Fail | src/memline/queue.py:100-112 | requeues below three remembered attempts, else fails; no status guard |
| EventQueue.Queue.Purge | src/memline/queue.py:114-132 | exactly old done and acknowledged failed rows go, and the count is their number |
| EventQueue.Queue.ReadAlerts | src/memline/queue.py:221-233 | the two queries describe the unacknowledged failures: their number, the latest time, an error of that time |
| EventQueue.Queue.EventRetry | src/memline/ops.py:319-322 | retry resets exactly a failed event and the file then agrees with the table |
| EventQueue.Queue.EventAck | src/memline/ops.py:325-328 | acknowledges one or all failures and the file then agrees with the table |
| EventQueue.Queue.StartUp | src/memline/daemon.py:498-506 | recovery, purge and refresh in this order |
| EventQueue.EnqueuedExactly | src/memline/queue.py:56-70 | an event enters behind those that wait, with no attempt, and changes no other |
| EventQueue.ClaimedExactly | src/memline/queue.py:72-90 | a claim counts one attempt and changes no other event |
| EventQueue.CompletedExactly | src/memline/queue.py:92-98 | a result is kept, earlier errors forgotten |
| EventQueue.FailedExactly | src/memline/queue.py:100-112 | an error is kept; the event is queued again until the third remembered attempt has failed |
| EventQueue.PurgedExactly | src/memline/queue.py:114-132 | exactly the events settled before the cutoff go |
| EventQueue.RecoveredExactly | src/memline/queue.py:134-142 | exactly the events in processing go back to the queue, attempts counted |
| EventQueue.RetriedExactly | src/memline/queue.py:190-201 | exactly a failed event starts afresh |
| EventQueue.AcknowledgedExactly | src/memline/queue.py:203-219 | without an id no failure is left unacknowledged, with one all but that one are; nothing else about an event changes |
| EventProtocol.StepKeepsInv | src/memline/queue.py:72-142 | every step keeps ownership, attempt bounds, results and the record of accepted work |
| EventProtocol.AcceptedWorkIsKept | src/memline/queue.py:72-142 | accepted work is in the table or was deleted as settled; attempts are at most three plus crashes; acknowledged means failed |
| EventProtocol.OnlySettledDeleted | src/memline/queue.py:114-132 | no step deletes a queued, processing or unacknowledged failed event |
| EventProtocol.SuccessIsFinal | src/memline/queue.py:92-98 | an event succeeds at most once and keeps that result until purged |
| AlertsProtocol.AlertsAgree | src/memline/queue.py:221-247 | with no refresh pending the file describes the table, whatever overlapped before, if the last write came from the refresh that was the last to begin |
| AlertsProtocol.LoneRefreshRepairs | src/memline/queue.py:221-247 | from any reachable state the next refresh that runs alone puts the file right |
| AlertsProtocol.AlertsExact | src/memline/queue.py:221-247 | with distinct time stamps the file is right, at any moment, if and only if the failures the last writer counted are the failures there are and the error it read is that of the newest |
| AlertsProtocol.AlertsCanLag | src/memline/queue.py:221-247 | from an empty store a run leads to a wrong file with nothing pending, by two overlapping refreshes |
| EventProtocol.WorkShrinks | src/memline/daemon.py:275-303 | every claim, outcome and refresh step lowers the remaining work |
| EventProtocol.QueueDrains | src/memline/daemon.py:391-398 | without new events, retries or crashes the queue drains in a bounded number of steps and stops only when empty of work |
| Gate.RwGate.TryAcquireShared | src/memline/daemon.py:86-90 | one pass of the wait loop of a shared holder |
| Gate.RwGate.TryAcquireExclusive | src/memline/daemon.py:98-102 | one pass of the wait loop of an exclusive holder |
| Gate.RwGate.ReleaseShared | src/memline/daemon.py:92-96 | the last shared holder wakes the waiters |
| Gate.ActKeepsInv | src/memline/daemon.py:234-249 | every lock, wait, slot and handler step keeps the gate's invariant |
| Gate.GateSafe | src/memline/daemon.py:81-113 | over every schedule an exclusive holder is alone, slots are never exceeded, and no wake-up is lost |
| Gate.SomeThreadMoves | src/memline/daemon.py:285-295 | while a request is unfinished some thread can move |
| Gate.NeverDeadlocked | src/memline/daemon.py:360-377 | gate and slots cannot deadlock for any number of threads and at least one slot |
| Gate.GateDrains | src/memline/daemon.py:234-249 | without new requests every schedule ends within n(2n+10) steps, and only with every request answered |
| ReviewReport.ValidateReviewReport | src/memline/wiki/review_report.py:86-174 | the single-pass validator, loop by loop; it reports nothing exactly for well-formed reports |
| ReviewReport.ReviewExact | src/memline/wiki/review_report.py:86-174 | no finding if and only if hashes match, every expected claim is reviewed once and well, scope and verdicts are known, omissions are well formed |
| ReviewReport.OmissionReviewsExact | src/memline/wiki/review_report.py:36-83 | the omission check accepts exactly well-formed records with quotes found in the article |
| ReviewReport.ClaimsExact | src/memline/wiki/review_report.py:103-129 | no claim finding if and only if every item is good and ids are distinct |
| ReviewContract.ValidExactly | src/memline/wiki/review_report.py:86-138 | the single-pass contract told from report, packets and article: the right article and bundle, every claim answered once with a reason and evidence from its packet, scope and overall verdict, sound omissions quoted from the article |
| ReviewContract.CleanExactly | src/memline/wiki/review_report.py:140-174 | the reviewer's own verdict is clean exactly when all that holds and every answer is supported, every omission a note, the scope kept and the verdict pass |
| MergedReport.ValidateMergedReviewReport | src/memline/wiki/review_report.py:177-360 | the merged validator, loop by loop; it reports nothing exactly for well-merged reports |
| MergedReport.MergedExact | src/memline/wiki/review_report.py:177-360 | no finding if and only if passes, counts, per-claim findings, verdicts, per-pass records and scope reviews are consistent |
| MergedReport.ItemsExact | src/memline/wiki/review_report.py:228-259 | findings inside a claim are accepted exactly when each is good and comes from a different pass |
| MergedReport.StrictestMeaning | src/memline/wiki/review_report.py:264-267 | the merged verdict is the strictest among the findings |
| MergedVerdicts.ValidatedVerdict | src/memline/wiki/review_report.py:264-267 | verdict by verdict, without ranks: an accepted merged claim carries the gravest word among its findings |
| MergedContract.MergedValidExactly | src/memline/wiki/review_report.py:177-360 | the merged contract told from the report and the packets: findings from distinct passes, flags and counts that agree with them, a valid record and scope review of each pass in order |
| ReviewMerge.MergeReviews | src/memline/wiki/review_report.py:401-514 | the merge loops, with the hashes taken from the bundle |
| ReviewMerge.FoldHits | src/memline/wiki/review_report.py:429-450 | a claim reviewed once in a pass is stepped exactly once |
| ReviewMerge.SteppedGood | src/memline/wiki/review_report.py:429-450 | one more pass keeps a claim's count, distinct passes and strictest verdict |
| MergedVerdicts.MergedOverall | src/memline/wiki/review_report.py:472-474 | the merge rejects exactly when a pass or the prior report does, asks for revision exactly when one does and none rejects, and passes exactly when all do |
| MergedVerdicts.MergedVerdict | src/memline/wiki/review_report.py:429-450 | for any passes, valid or not, each claim carries the gravest word said of it: contradicted, else superseded material misused, else partially supported, else unverifiable, else what was there |
| MergedVerdicts.AggregateTells | src/memline/wiki/review_report.py:488-511 | the aggregate is valid only if every pass is, names exactly the passes that are not, and is clean and in scope only if every new pass is |
| MergedVerdicts.LegacyScopesExactly | src/memline/wiki/review_report.py:458-465 | a prior report without scope reviews gets one for each pass, in scope exactly if its aggregate was |
| MergedVerdicts.MergeKeepsProvenance | src/memline/wiki/review_report.py:477-514 | the merge counts all passes, is about this article and bundle, and keeps the provenance of each pass in order |
| ReviewAgreement.ProducerAgrees | src/memline/wiki/review_report.py:177-514 | for valid passes, with or without a valid prior merge, the merge has no findings if and only if every pass explained its scope verdict |
| ReviewAgreement.FlaggedCounted | src/memline/wiki/review_report.py:274-286 | counting flagged claims over the sorted list is counting them in the dictionary |
| ReviewSplit.SplittingIsHarmless | src/memline/wiki/review_report.py:401-514 | merging later equals merging at once except `scope_clean`, with the exact condition for full equality |
| ReviewSplit.ReadBack | src/memline/wiki/review_report.py:416-418 | a merged claim list read as a prior report gives the same claims |
| ReviewConservation.EachFindingOnce | src/memline/wiki/adjudication.py:38-128 | for valid, explained passes and a valid prior report no two listed findings share an id, a claim finding is listed exactly once if its pass raised it or the prior report held it and else not at all, and omissions and scope findings are the prior ones and those of every pass in order |
| ReviewConservation.RaisedExactly | src/memline/wiki/review_report.py:441-449 | what a pass raises is what its reviewer wrote, field by field |
| ReviewConservation.ClaimFindingsKept | src/memline/wiki/adjudication.py:43-73 | without the explanations still: a claim finding is listed exactly when its pass raised it or the prior report held it |
| ReviewConservation.PriorFindingShown | src/memline/wiki/adjudication.py:43-73 | what the prior report held is what its own list shows |
| ReviewConservation.OmissionsKept | src/memline/wiki/adjudication.py:75-91 | the omissions listed are those of the prior report and of every pass, in order, none dropped or repeated |
| ReviewConservation.ScopeFindingsKept | src/memline/wiki/adjudication.py:93-117 | every pass that found the article out of scope is listed once, after the prior report's |
| Adjudication.CollectReviewFindings | src/memline/wiki/adjudication.py:38-128 | the nested loops collect claim, omission and scope findings in order |
| Adjudication.ValidateAdjudication | src/memline/wiki/adjudication.py:150-233 | the ruling loop with its early exits computes the specified outcome |
| AdjudicationGate.FindingIdsDistinct | src/memline/wiki/adjudication.py:38-128 | in a valid report no two findings share an id, as texts |
| AdjudicationGate.AdjudicationExact | src/memline/wiki/adjudication.py:150-233 | clean if and only if schema and hashes are right and every finding has exactly one well-formed non-blocking ruling and nothing else has one |
| AdjudicationGate.TemplateCompletes | src/memline/wiki/adjudication.py:131-147 | the template is pending while there is something to rule on, and ruling each row non-material makes it clean |
| AdjudicationGate.GateExact | src/memline/wiki/review_report.py:363-393 | an artifact is clean if and only if the report is valid, the deterministic check is clean and every finding is settled |
| PublicationGate.AskedExactly | src/memline/wiki/adjudication.py:38-128 | the list put to the agent, single or merged, legacy scope included: exactly the claims not found supported (or the findings kept), every omission, every scope verdict but in scope, each with its id and all its fields |
| PublicationGate.AdjudicationValidExactly | src/memline/wiki/adjudication.py:174-223 | valid exactly when schema and hashes are right and every asked finding has one ruling, with a reason, whose category is one of the six blocking ones for a blocking decision and non-material for a non-blocking one, and nothing else has one |
| PublicationGate.UnresolvedCounted | src/memline/wiki/adjudication.py:213-233 | a valid adjudication counts its blocking rulings and is clean exactly when every ruling is non-blocking and non-material |
| PublicationGate.PublishedExactly | src/memline/wiki/review_report.py:363-393 | the whole gate without its lists: contract, deterministic check, and nothing doubted or everything cleared |
| PublicationGate.PublishedUnruled | src/memline/wiki/review_report.py:363-393 | without rulings a single-pass report is published exactly when every claim of the bundle was found supported, no omission was recorded and the article is in scope |
| PublicationGate.MergedPublishedUnruled | src/memline/wiki/review_report.py:363-393 | a merged report exactly when every merged verdict is supported, no pass recorded an omission, and every pass or the older aggregate is in scope |
| PublicationGate.CleanReviewStillAsks | src/memline/wiki/review_report.py:363-393 | a review clean by its own account is published without rulings exactly when it lists no omission |
| FindingIds.LastPart | src/memline/wiki/adjudication.py:51-80 | the last colon-separated part of an id and what precedes it are determined |
| FindingIds.IntTexts | src/memline/wiki/adjudication.py:51-80 | any two pass numbers are told apart by their text |
| Batch.PlanBatches | src/memline/wiki/batch.py:109-180 | the planner's loops and flushes compute the specified plan; a ceiling of zero raises, a negative one plans nothing |
| Batch.GroupBySession | src/memline/wiki/batch.py:58-74 | the grouping loop over the sorted memories |
| Batch.OrderUnique | src/memline/wiki/batch.py:64-67 | memories with distinct ids have one sorted order |
| Batch.SpanMeaning | src/memline/wiki/batch.py:53-55 | a span is the earliest and latest day among the members |
| BatchLaws.GroupingKeeps | src/memline/wiki/batch.py:58-74 | grouping loses and doubles nothing |
| BatchLaws.SessionsInOrder | src/memline/wiki/batch.py:122 | the sort of the sessions finds them in order already |
| BatchLaws.PlanIds | src/memline/wiki/batch.py:109-180 | as a sequence of ids the plan is session after session in order, then the ledger |
| BatchLaws.PlanPartitions | src/memline/wiki/batch.py:109-180 | with distinct ids every memory lies in exactly one batch |
| BatchLaws.PlanWithinCeiling | src/memline/wiki/batch.py:109-180 | no batch is empty or exceeds the ceiling |
| BatchLaws.PartsRejoin | src/memline/wiki/batch.py:144-157 | the parts of a session are numbered, told their count, and rejoin to the session in order |
| BatchLaws.OversizedStaysTogether | src/memline/wiki/batch.py:144-157 | those parts stand one after the other in the plan |
| BatchLaws.SessionOrderKept | src/memline/wiki/batch.py:122-166 | every session is opened once, in the order of first memories |
| BatchLaws.PlanPacksFull | src/memline/wiki/batch.py:163-166 | two neighbouring packs of small sessions together exceed the ceiling |
| BatchLaws.PlanIgnoresRowOrder | src/memline/wiki/batch.py:64-67 | with distinct ids the plan is the same for every order of the rows |
| BatchLaws.PlanIgnoresSetOrder | src/memline/wiki/batch.py:102-106 | and for every iteration order of the set of moved sessions |
| BatchLaws.PlanIgnoresOrder | src/memline/wiki/batch.py:58-106 | both together: any order of the rows and any order of the moved sessions give the same plan |
| BatchLaws.SelectedExactly | src/memline/wiki/batch.py:85-106 | an incremental run reads again exactly the sessions in which something changed, whole, and changed ledger memories |
| PlanContents.PlanReads | src/memline/wiki/batch.py:109-180 | every batch is, in all its fields, whole sessions (one that reaches the threshold alone), a numbered part of a session above the ceiling, or a stretch of the ledger |
| PlanContents.LedgerExactly | src/memline/wiki/batch.py:68-73 | the ledger is what was imported in bulk or has no session |
| PlanContents.SessionExactly | src/memline/wiki/batch.py:68-74 | a session of the plan has a name and holds exactly the other memories with that name |
| PlanContents.OrderIsChronological | src/memline/wiki/batch.py:64-67 | memories are ordered by the second of their creation, then by id |
| PlanContents.RecentIsChronological | src/memline/wiki/batch.py:77-103 | a memory changed since the cursor exactly when one of its stamps lies in a later second |
| PlanContents.DaysAreChronological | src/memline/wiki/batch.py:49-55 | the ends of a span are calendar days, compared as days |
| Draft.MatchExact | src/memline/wiki/page.py:41 | a text begins with a citation exactly when it is `^[`, a ref of the pattern, `]` and anything |
| Draft.RefForms | src/memline/wiki/page.py:41 | the two alternatives of the pattern: a memory id of at least eight hexadecimal digits or dashes, or a source name without `]` |
| Draft.FindBlocks | src/memline/wiki/review.py:95-102 | the blocks are the non-blank matches of the block pattern, each standing in the draft at its offset |
| Draft.BlocksKeepCitations | src/memline/wiki/review.py:95-106 | reading the blocks gives the citations of the whole draft if and only if no citation contains a blank line |
| Draft.BrokenCitation | src/memline/wiki/verify.py:154 | a citation with a blank line inside is counted in the whole draft and lies in no block |
| Draft.BrokenDraft | src/memline/wiki/verify.py:154 | such a draft |
| Draft.HiddenCitation | src/memline/wiki/review.py:95-106 | a citation behind the blank line of a broken one is read in a block and not in the whole draft |
| Citations.ResolversAgreeExactly | src/memline/wiki/verify.py:106-118 | the two independent resolvers settle a ref the same way if and only if it does not abbreviate a single memory that is listed more than once |
| Citations.ResolversAgree | src/memline/wiki/verify.py:106-118 | with distinct memory ids they always do |
| Citations.ResolversSplit | src/memline/wiki/review.py:75-94 | a bundle that lists one memory twice: they disagree on every abbreviation of it |
| Citations.AbbreviatesExactly | src/memline/wiki/review.py:80-83 | a ref abbreviates a memory exactly when the memory's ref continues it |
| Packets.BuildPackets | src/memline/wiki/review.py:139-169 | the loops over blocks and groups compute the packets and passages that `PacketTexts.BlockRead` tells from the draft; every packet is numbered and resolves its citations |
| Packets.CitationGroups | src/memline/wiki/review.py:105-113 | citations with only white space between them form one group |
| Packets.TokenizedExact | src/memline/wiki/review.py:105-106 | the tokens of a block spell its text and their citations are those the pattern finds |
| Packets.EveryCitationPacked | src/memline/wiki/review.py:139-161 | every citation of the draft lands in exactly one packet, in draft order, if and only if none contains a blank line |
| PacketTexts.BlockRead | src/memline/wiki/review.py:139-169 | each block is, from its start, a row of claims and citation groups and a tail: packet after packet, the text is the stripped draft between the end of the previous group and its own, which holds no citation, the citations are the group with only white space between, the line is where the group stands; the tail holds no citation and is listed, with its line and text, if and only if it is prose |
| PacketTexts.AllBlocksRead | src/memline/wiki/review.py:139-169 | the blocks account for all packets and passages |
| PacketTexts.NothingOverlooked | src/memline/wiki/review.py:95-169 | every letter of the draft that is not white space stands in the text of a packet, in a citation of one, or in the text of a passage, or else in headings or a fence without citations |
| PacketTexts.PlainExactly | src/memline/wiki/review.py:116-121 | a text is prose exactly when it does not begin with a fence and some line of it, stripped, is neither empty nor a heading |
| Accounts.UncitedAgree | src/memline/wiki/review.py:171 | the bundle's uncited evidence, from the blocks, is the verifier's uncited material, from the whole draft, if no citation contains a blank line or abbreviates a repeated memory |
| Accounts.UncitedAgreeExactly | src/memline/wiki/review.py:171 | they agree for every bundle of distinct memories if and only if no citation of the draft contains a blank line |
| Accounts.UncitedSplit | src/memline/wiki/review.py:171 | a citation with a blank line inside: the verifier counts its source as cited, the bundle lists it as uncited |
| Accounts.HiddenSplit | src/memline/wiki/verify.py:225-242 | the other way round: a memory cited behind the blank line counts as cited in the bundle and as uncited in the draft check |
| Accounts.AccountsExact | src/memline/wiki/verify.py:166-233 | the evidence account is clean exactly when cited and declared-unused refs partition the bundle's evidence |
| Timestamps.TextOrderIsChronological | src/memline/staleness.py:117-128 | comparing the printed UTC texts is comparing the moments, although a zero fraction is left out |
| Timestamps.CutOrderIsChronological | src/memline/wiki/batch.py:77-82 | texts cut to the second compare like the seconds |
| Timestamps.CursorSkipsItsSecond | src/memline/wiki/batch.py:82-103 | a memory counts as touched since the cursor exactly when it was touched in a later second |
| Page.File.WriteRegion | src/memline/wiki/page.py:77-101 | a missing file stays missing, and the result tells whether the text changed |
| Page.RegionReadsBack | src/memline/wiki/page.py:77-101 | everything outside the first region is kept, and the region found afterwards is the one written, with the stripped body, if and only if the body holds no end marker |
| Page.SecondWriteExact | src/memline/wiki/page.py:77-101 | writing the same body again reports no change if and only if it holds no end marker; otherwise every further write makes the page longer |
| Page.AppendThenWrite | src/memline/wiki/page.py:93-101 | the append path changes only trailing newlines, and a second write is idle if and only if there was no stray begin marker and the body holds no end marker |
| Page.RegionsCommute | src/memline/wiki/page.py:73-101 | writes to two disjoint regions commute |
| Page.IndexAndRelatedCommute | src/memline/wiki/page.py:52-55 | in particular those to the index and the related region |
| LedgerParser.ParseFile | src/memline/migrations/ingest_ledger.py:73-169 | in both modes the chunks are increasing disjoint ranges holding exactly the body lines, with the right text and heading path |
| LedgerParser.EveryLineAccounted | src/memline/migrations/ingest_ledger.py:98-169 | every non-blank line is consumed as a heading or lies in a chunk, never both |
| LedgerParser.LineGivesHeading | src/memline/migrations/ingest_ledger.py:112-119 | a heading no later one has closed is in force with its title |
| LedgerParser.HeadingHasLine | src/memline/migrations/ingest_ledger.py:112-119 | every heading in force comes from such a line |
| LedgerParser.ChunkHeadings | src/memline/migrations/ingest_ledger.py:80-81 | a chunk's heading path lists the headings in force at its start by strictly increasing level |
| LedgerText.JoinReadsBack | src/memline/migrations/ingest_ledger.py:87 | joined lines, cut at the line breaks, give the lines back |
| LedgerText.ChunkSaysItsLines | src/memline/migrations/ingest_ledger.py:83-165 | the body of a chunk is the text of its lines, told apart by line breaks, less the white space at either end; in line mode its one line as it stands |
| LedgerText.ChunkShape | src/memline/migrations/ingest_ledger.py:135-170 | in ledger mode a bullet runs over blank and indented lines to the first that is neither; any other chunk is an unbroken run of prose, from its first line to its last |
| LedgerText.HeadingReadsBack | src/memline/migrations/ingest_ledger.py:112-119 | a heading of any level, title and indentation is read back |

## Left out

- Sockets, signals, process spawning, PID files, the vector store server, LLM endpoints: outside the model.
- Embeddings, search ranking and judge answers: arbitrary inputs (any verdict, any confidence, any scan order).
- SQLite: each statement is one atomic step on the table; write failures that the code swallows are not modelled.
- Best-effort history rows and audit manifests: they never feed back into the modelled state.
- Staleness.SetDisplacementProtection: takes the end of the protection as a parameter beside the number of days; the stored reason, agent and session are not read again and not kept.
- Concurrent runs of lifecycle operations: `invalidate` runs under the shared side of the gate, so the graph invariants hold for operations executed one after the other; each operation is one step.
- `delete --all`, which skips the guard, and the memories of other users.
- Fairness of the gate: the code promises none to an exclusive waiter. Spurious wake-ups only repeat a test.
- Semaphore and condition variable internals: taken as their documentation defines them.
- Staleness.Invalidate: models the payload fields that supersession, expiry and protection use; other metadata is carried along unseen.
- Confidence values are reals: rounding of floating point is not modelled.
- Bridge.Queue.Enqueue: takes the request id as a parameter; a repeated id leaves the table alone where SQLite would raise.
- EventQueue.Queue.Enqueue: requires a fresh event id, as a uuid is.
- BridgeProtocol.OwnAnswerOnly: says what a client receives, not that it receives something; a deadline can always pass first.
- Counts by verdict and severity in validation results, `claims_reviewed` and provenance contents: diagnostics the gate does not read.
- JSON lists or objects where a word or a ref is expected: Python raises when it hashes them; here they count as values outside the closed set.
- ReviewMerge.MergeReviews: claim ids that are not texts and prior reports whose lists are of the wrong type are read as absent; neither passes validation.
- ReviewAgreement.ProducerAgrees: bundle claim ids are not empty, as the bundle compiler numbers them.
- Batch ids `b000`, `b001`, …: the position in the plan.
- Packets.BuildPackets: reads the draft as a text; packet fields besides number, line, text and citations (ids are the numbers) and the evidence texts are not modelled.
- Accounts.AccountsExact: covers the evidence account of `verify`; leak patterns, number tracing, section checks and the walk through the claims sidecar are not modelled.
- Timestamps.TextOrderIsChronological: covers the texts the program prints (UTC, `isoformat`); a hand-written timestamp in another layout is outside it. Leap seconds do not occur.
- LedgerParser.ParseFile: starts from the list of lines; reading and splitting the file, chunk hashes and manifest entries are not modelled.
- Prompt rendering, guidance text, page front matter, navigation, related-page ranking, session statistics, migrations other than the ledger parser, and the JavaScript plugins: only easy members.
