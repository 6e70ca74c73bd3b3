# Verified model of the Golem agent runtime

A Dafny model of the parts of the repository that coordinate work: the AgentTeams task protocol of the plugin, the
splitting loop and its native twin, the shared-memory sister bus, and the gated retry ladder with the history
compaction, stream receiver and sanitizer around it. `dafny verify dfyconfig.toml` checks everything.

How the files fit together:

- **Task protocol.** `TeamState` holds the record and the pure task rules, `TeamProtocol` one transition per section
  that runs under the team lock, with dispatch tickets and handoffs for work in flight between two sections of one
  operation. `TeamRules` says what each section is for without naming its branches: when it takes effect, and what it
  then does and answers; `TeamParking` does so for the scheduler's sections and the attempts it parks, and
  `TeamEnding` for the end of a team or a process. `TeamInvariants` classifies what any transition may do to one task
  and proves the invariants; `TeamSafety` lifts them to whole runs; `TeamLateRollback` is a run that breaks the one
  hypothesis used there;
  `TeamTakeovers` says when a reservation is stuck and when a cancellation is undone; `TeamProgress` shows that the
  graph drains. `TeamStore` is the mutable record: one method per locked section, each proved to be its transition.
  `TaskDepths` and `Mailbox` are the dependency-depth search and the mailbox files; `PromiseLock` is the promise-chain
  locks and `LockScripts` the order in which the operations take them.
- **Splitting.** `SplitLoop` (harness/loop.ts) and `NativeArena` (cpp-harness) share the counting of `TreeBounds`;
  `SplitRules` and `ArenaRules` say when each operation is accepted and what it leaves; `SplitLoopLimits` and
  `NativeArenaLimits` build, with the composition of runs in `Runs`, runs that reach the bounds.
- **Sister bus.** `SisterBus` models the slots of the shared segment store by store, beside the in-process map.
- **Brain host.** `RetryLadder`, `RepeatLoop`, `Compaction`, `Sanitizer`, `SseStream` (dsh-lite-cpp). `RetryRuns`
  describes a whole gated call by its hooks alone; `SanitizerPieces` says what texts are made of and which pieces are
  kept; `CompactionRules` says what compaction measures, cuts and writes.
- `Wrappers`, `TextLines` and `Decimals` are shared helpers.

State that the source updates in place is a class whose methods are proved equal to a transition function; the
properties are lemmas about those functions over every input, every reachable state or every run. A row that says
"performs exactly the step" rests on the rows that say what the step is for.

## What turned out not to hold

Each of these is a lemma; the code is modelled as it is.

- *Completed tasks are immutable* holds exactly when no failed delivery is rolled back after its task completed: the
  rollback guard compares only the attempt id, which a completed task keeps (`CompletedFrozenExactly`,
  `RunFrozenExactly`). `LateRollbackBreaksSafety` is a run that loses a completed task and gives it back to a removed
  member; `LateRollbackHarms` says exactly when such a rollback breaks the two safety properties.
- A reassignment whose second phase is lost leaves the task reserved until the member it was meant for is removed, and
  until nothing else (`StrandedExactly`, `StrandedUntilReleased`); for a captain takeover that is for good.
  `TakeoverIsLost` is a run of three sections that gets there.
- A task cancelled between the two phases of a captain takeover is claimed by the second phase all the same, and in no
  other way (`CancellationUndoneExactly`, with the run `CancellationIsUndone`).
- A re-split queues its children again although a lock file of an earlier claim survives. A child is queued, listed and
  unclaimable exactly when its parent was split over it after its claim (`SplitStrandsExactly`,
  `StrandedExactlyByResplit`); `ChildIsLost` is such a run.
- The native per-tree budget, named as the most agents a tree may cost, limits each split, not the tree. The sum the
  arena keeps stays within it exactly when every split's own estimate still fits (`TreeBudgetIsPerSplit`), and the
  nodes of every tree stay within it exactly when 1 + a + ab + abc does, a, b, c the widest splits the caps allow
  (`TreeBudgetHoldsExactly`); at the shipped caps a tree of 329 nodes passes the budget of 64
  (`DefaultTreeBudgetFails`). The counters are exact exactly when only fresh dot-free roots are enqueued
  (`CountsExactIffFreshRoots`).
- The saturating estimator decides exactly for every count of children, but not for every `long`: for a negative
  breadth at an odd exponent it does so only under the condition of `VerdictExactly`
  (`NegativeBreadthIsOverEveryCap` is an input).
- "No torn slot is ever visible" holds for free slots only. A crash during an update in place leaves the old or the new
  entry at every point exactly when at most one of task id, writer, visibility, clock and value changes and, if it is
  the value, the slot's bytes under the new length already are one of the two values (`UpdateIsWholeExactly`); the
  ordinary update of a value tears (`OrdinaryUpdateTears`). A crash during an eviction has already lost slot 0
  (`CrashWhileEvicting`). `entryCount` is one too high after a crash that cleared an evicted slot or had counted a
  claimed one, and right after any other (`CrashOvercounts`).
- "Cross-partition triples never match" holds for NUL-free triples that fit their fields. A triple that fits reads what
  was published under another exactly when both are stored alike (`ForeignReadExactly`), and a plain one of this kind
  exists exactly when the published triple does not fit or holds NULs, and only NULs follow a NUL in its stored bytes
  (`ForeignNameExactly`): session "a" reads what "a" with a NUL after it published (`TrailingNulLeaks`), and the first
  63 bytes of a longer session id read what it published (`OversizeSessionLeaks`). What is published is read back
  exactly when its triple fits (`ReadBackExactly`). The two buses also name the keys of a listing differently
  (`ListingsNameKeysDifferently`).
- A stopped lineage is not re-run only within a call: each later call still spawns once, exactly when the payload can
  be bound, the gate approves it and the sandbox runs it (`StoppedLineageRunsExactly`). The branch that refuses a
  fourth nudge is never taken (`NudgeIsNeverRefused`).
- The compaction marker is written in the user's name. It becomes the "last user message" that the next compaction
  protects, in place of the user's own, exactly when turns must be dropped and all of them come after that message
  (`LastUserStaysLastExactly`, `MarkerTakesOver`; `QuestionLosesItsGuard` is a history of three messages). The only
  caller, an executive turn, appends the user's input first and never meets this case (`TurnsKeepTheGuard`).
- On an HTTP error the stream buffer is the whole body exactly when the body has no newline
  (`ErrorBodyIsKeptExactly`).

## Model

| member | source | states |
|---|---|---|
| TeamState.UnsatisfiedMeaning | plugin/src/state.ts:96-103 | the dependency check returns exactly the named tasks that are unknown or not completed |
| TeamRules.TransitionExactly | plugin/src/state.ts:105-126 | a status may stay, go one stage on, be cancelled before its end, or fail while open, and nothing else |
| TeamRules.ClaimExactly | plugin/src/tools.ts:667-716 | a claim changes a task iff the task is pending, unreserved and its dependencies completed, and the caller may claim it for somebody who is free: a member for itself, an unassigned task or its own; the captain for an active member it names or the assignee |
| TeamRules.ClaimTakes | plugin/src/tools.ts:715-730 | such a claim puts just that task into work for that owner under a fresh capability, which the reply hands over |
| TeamRules.ClaimAgain | plugin/src/tools.ts:690-701 | a claim of open work changes nothing and is told what is held iff it is for the very owner |
| TeamRules.UpdateExactly | plugin/src/tools.ts:769-820 | an update is accepted iff the captain updates a task of its own or of nobody, or the active owner presents the capability in force, and the status is allowed or, on a finished task, nothing new is said; then exactly the given status and output stand in task and reply |
| TeamRules.CaptainSparesMembers | plugin/src/tools.ts:772-776 | no update of the captain ever changes a task that a member owns |
| TeamRules.AddExactly | plugin/src/tools.ts:325-378 | a member is added iff the captain asks, the trimmed name is new and no reserved or empty one, there is room, and the child starts; it is then last on the roster and idle |
| TeamRules.RemoveExactly | plugin/src/tools.ts:427-444 | removal takes effect iff the captain asks and the member is there; nobody else changes |
| TeamRules.RemoveFrees | plugin/src/tools.ts:430-443 | exactly the removed member's unfinished tasks go back to the pool without owner or capability, and are listed in order |
| TeamRules.RetireExactly | plugin/src/tools.ts:1062-1076 | retiring everybody frees exactly the unfinished tasks of those who were there and leaves nobody active |
| TeamRules.CreateExactly | plugin/src/tools.ts:493-515 | a task is created iff the captain asks, every dependency exists and the assignee, if named, is there; it is pending, next in number, without attempt |
| TeamRules.ReassignExactly | plugin/src/tools.ts:566-593 | phase one begins iff the captain asks, the task is neither completed nor reserved, and the target is the captain or an active member who is free |
| TeamRules.CommitExactly | plugin/src/tools.ts:605-621 | phase two, while its reservation stands, ends it, and takes the task into work iff it is for the captain and the old owner rests |
| TeamParking.DispatchExactly | plugin/src/scheduler.ts:191-232 | a kick of an available member hands out exactly the task that is due: its own open one unless parked, else the oldest waiting for it, else the oldest for anybody |
| TeamParking.DispatchOfNothing | plugin/src/scheduler.ts:210-216 | with nothing due a kick only sets the member to idle |
| TeamParking.RejectExactly | plugin/src/scheduler.ts:246-260 | a failed delivery returns the task that still holds its capability to where it was taken from |
| TeamParking.EdgeExactly | plugin/src/scheduler.ts:279-294 | an idle edge parks the capability in force of the member's open task, any other edge leaves none parked; presence is what the edge says |
| TeamParking.IdleWorkStays | plugin/src/scheduler.ts:197-209 | after an idle edge over an open task a kick of that member leaves every task as it was |
| TeamParking.LookupExactly | plugin/src/scheduler.ts:265-277 | a session without a place in the team loses its parked attempt; one with a place keeps it |
| TeamParking.ParkedOrigin | plugin/src/scheduler.ts:265-295 | in every run a capability is parked iff some idle edge found it in force and nothing since cleared it |
| TeamEnding.OverExactly | plugin/src/tools.ts:1088-1096 | in every run a team is over iff its captain archived it |
| TeamEnding.OverForever | plugin/src/tools.ts:1088-1096 | from then on members and tasks stay what they were, whatever still arrives |
| TeamEnding.OverStays | plugin/src/tools.ts:125-150 | and every tool is refused because the team is gone |
| TeamEnding.RestartExactly | plugin/src/scheduler.ts:114-120 | a restart keeps the record, and no delivery or reassignment begun before it can still be finished |
| TeamInvariants.StepMove | plugin/src/tools.ts:427-804 | every transition does one of a fixed list of things to each task: keep, begin an attempt, revoke, hand off, open, progress or undo, with who may cause it |
| TeamInvariants.StepBase | plugin/src/tools.ts:325-1096 | every transition keeps the invariant: numbering and backward dependencies, task shapes, one open task per member, ticket and handoff tokens, roster |
| TeamInvariants.StepOneOpen | plugin/src/tools.ts:711-715 | no transition gives a member a second open task, over claim, dispatch, recovery, rollback and reassignment |
| TeamInvariants.StepMembers | plugin/src/tools.ts:427-444 | members keep their place, id and name, and `removed` is absorbing |
| TeamInvariants.TokenBack | plugin/src/state.ts:129-145 | a task holds a capability after a transition only if it held it before or it was issued there |
| TeamInvariants.HandoffBack | plugin/src/state.ts:151-163 | a task is in a handoff after a transition only if it was before or the handoff was opened there |
| TeamSafety.CompletedFrozenExactly | plugin/src/scheduler.ts:246-260 | one transition leaves all completed tasks unchanged if and only if it is not the rollback of a delivery whose task is already completed |
| TeamSafety.LateRollbackHarms | plugin/src/scheduler.ts:250-255 | such a rollback breaks "nothing held by the departed" iff the previous assignee has left, and dependency safety iff work was built on the task |
| TeamSafety.RunFrozenExactly | plugin/src/tools.ts:785-797 | over a whole run completed tasks never change iff no rollback is late |
| TeamSafety.CompletedForever | plugin/src/tools.ts:785-797 | in a clean run a completed task keeps every field for ever |
| TeamSafety.DependencySafety | plugin/src/tools.ts:702-707 | in a clean run, a task a member has claimed, worked, completed or failed has all its dependencies completed, and they stay exactly as they were |
| TeamSafety.OneOpenTaskPerMember | plugin/src/tools.ts:175-179 | in every reachable state no member other than the captain owns two open tasks, and each open one carries a capability |
| TeamSafety.NoWorkHeldByDeparted | plugin/src/tools.ts:427-444 | a removed member stays removed, and in a clean run whatever still names it is completed, whichever rollback or phase two lands later |
| TeamSafety.DependenciesGoDown | plugin/src/tools.ts:493-515 | in every reachable state a dependency chain steps to strictly older tasks, so the graph has no cycle |
| TeamSafety.CapabilityOrigin | plugin/src/state.ts:129-145 | a capability in force was issued by one section to its present holder and has been in force in every state since |
| TeamSafety.RetiredForever | plugin/src/state.ts:129-163 | a capability once replaced or revoked never comes back |
| TeamSafety.AttemptCountsIssues | plugin/src/state.ts:142-145 | the attempt number equals the number of capabilities ever issued for the task |
| TeamSafety.NewestCapabilityAdvances | plugin/src/tools.ts:777-804 | a member's update that moves a task presented the capability last issued for it, to that member, not revoked or rolled back since |
| TeamSafety.PhaseOne | plugin/src/tools.ts:569-593 | phase one leaves the task pending, without capability, reserved for the target under a fresh handoff |
| TeamSafety.CommitNeedsHandoff | plugin/src/tools.ts:605-621 | phase two takes effect iff its own handoff still stands on the task |
| TeamSafety.HandoffsAreLinear | plugin/src/tools.ts:569-621 | when phase two commits, every state since its phase one had the same owner, attempt number, handoff and no capability |
| TeamTakeovers.StrandedExactly | plugin/src/tools.ts:427-444 | one section ends a reservation whose second phase is lost iff it removes the member it was made for, alone or by retiring everybody |
| TeamTakeovers.StrandedUntilReleased | plugin/src/tools.ts:566-621 | over any run such a reservation stands iff no section so far removed that member; one made for the captain stands for good |
| TeamTakeovers.TakeoverIsLost | plugin/src/tools.ts:566-593 | a concrete run: a task is opened, its takeover begun, the process restarted, and the task is stuck |
| TeamTakeovers.CancellationUndoneExactly | plugin/src/tools.ts:605-621 | a cancelled task goes straight into work again iff a quiesced second phase of a captain takeover still finds its handoff standing |
| TeamTakeovers.CancellationIsUndone | plugin/src/tools.ts:605-621 | a concrete run: the captain cancels between the phases, and the second phase claims the task |
| TeamLateRollback.LateRollbackBreaksSafety | plugin/src/scheduler.ts:244-260 | a concrete ten-step run: a completed task becomes pending again, held by a removed member, with a dependent already in work |
| TeamProgress.OldestIsReady | plugin/src/scheduler.ts:83-89 | when all unfinished work waits, the oldest unfinished task is ready |
| TeamProgress.ReadyTaskExists | plugin/src/scheduler.ts:83-89 | the scheduler finds a task iff some task is unfinished, and the one it finds is pending with all dependencies completed |
| TeamProgress.RoundCompletesOne | plugin/src/scheduler.ts:191-232 | one dispatch, start and completion by the member finishes exactly one more task |
| TeamProgress.DrainsInExactlyThatManyRounds | plugin/src/scheduler.ts:83-89 | n rounds finish the graph iff n is at least the number of unfinished tasks |
| TeamProgress.SomebodyIsWilling | plugin/src/scheduler.ts:83-89 | with unfinished tasks assigned to anybody who is there or to nobody, the scheduler has a task for some member iff some task is unfinished |
| TeamProgress.TeamDrainsInExactlyThatManyRounds | plugin/src/scheduler.ts:191-232 | rounds taken by members in any order finish one task each, and the graph iff there were as many rounds as unfinished tasks |
| TeamProgress.TurnsCanBeTaken | plugin/src/scheduler.ts:142-152 | such an order always exists, up to the end |
| TeamProgress.ParkedAttemptStays | plugin/src/scheduler.ts:197-209 | only reassignment, removal of the owner or the failure of its own delivery takes a parked capability away |
| TeamStore.IsTeamState | plugin/src/state.ts:671-704 | the reader's loops accept a record iff ids and keys are non-empty, unique and none is the captain's |
| TeamStore.WrittenRecordsAreReadable | plugin/src/state.ts:671-704 | every record the invariant allows is accepted by the reader |
| TeamStore.TeamRecord.ActivateTaskAttempt | plugin/src/state.ts:129-139 | issues the next token and claims the task with it |
| TeamStore.TeamRecord.BeginTaskAttempt | plugin/src/state.ts:142-145 | the same, with the attempt number one higher |
| TeamStore.TeamRecord.InvalidateTaskAttempt | plugin/src/state.ts:151-163 | returns the task to pending without capability, under a fresh handoff id |
| TeamStore.TeamRecord.AddMember | plugin/src/tools.ts:325-378 | performs exactly the add-member transition on the trimmed name, refusals in order, up to a failed selection or spawn |
| TeamStore.TeamRecord.RequeueTasksOf | plugin/src/tools.ts:427-444 | the loop requeues exactly the named member's unfinished tasks and lists them |
| TeamStore.TeamRecord.RemoveMember | plugin/src/tools.ts:427-444 | performs exactly the removal transition |
| TeamStore.TeamRecord.RetireAll | plugin/src/tools.ts:1062-1076 | the loop retires every member and requeues their work, as the transition says |
| TeamStore.TeamRecord.Archive | plugin/src/tools.ts:1088-1096 | ends the team |
| TeamStore.TeamRecord.CreateTask | plugin/src/tools.ts:493-515 | performs exactly the create-task transition |
| TeamStore.TeamRecord.ReassignBegin | plugin/src/tools.ts:566-593 | performs exactly phase one on the trimmed assignee |
| TeamStore.TeamRecord.ReassignCommit | plugin/src/tools.ts:605-621 | performs exactly phase two |
| TeamStore.TeamRecord.ClaimTask | plugin/src/tools.ts:667-730 | performs exactly the claim transition, refusals in order; what it takes is TeamRules.ClaimExactly |
| TeamStore.TeamRecord.Identify | plugin/src/tools.ts:119-123 | finds the captain or the member that is still there |
| TeamStore.TeamRecord.UpdateTask | plugin/src/tools.ts:769-818 | performs exactly the update transition, refusals in order; what it accepts is TeamRules.UpdateExactly |
| TeamStore.TeamRecord.Dispatch | plugin/src/scheduler.ts:191-232 | performs exactly the dispatch transition |
| TeamStore.TeamRecord.DispatchRejected | plugin/src/scheduler.ts:246-260 | performs exactly the rollback transition |
| TeamStore.TeamRecord.MemberLookup | plugin/src/scheduler.ts:265-277 | before the lock: a session without a place in the team loses its parked attempt, and nothing else changes |
| TeamStore.TeamRecord.MemberActivity | plugin/src/scheduler.ts:279-294 | under the lock: performs exactly the idle or running edge; what it parks is TeamParking.EdgeExactly |
| TeamStore.TeamRecord.Restart | plugin/src/scheduler.ts:114-120 | a cold process keeps the record and loses parked attempts, tickets and handoffs |
| TaskDepths.DepthIsLongestPath | plugin/src/state.ts:859-882 | the recursive definition of a task's depth is the length of its longest dependency chain |
| TaskDepths.Traversal.DepthOf | plugin/src/state.ts:863-879 | the memoised search terminates on every graph and, without cycles, stores and returns the reference depth |
| TaskDepths.Traversal.DeepestOf | plugin/src/state.ts:870-875 | the loop over dependencies finds the maximum of their depths, in any order |
| TaskDepths.TaskDepthsById | plugin/src/state.ts:859-882 | every task gets a depth, the exact longest path when there is no cycle, whatever the iteration order |
| PromiseLock.SettledMeaning | plugin/src/state.ts:38-49 | a tail promise settles exactly when its call is over, and then every earlier call for the lock is |
| PromiseLock.BeginsInTurn | plugin/src/state.ts:38-49 | a waiting call may begin iff every earlier call for the lock is over |
| PromiseLock.ExclusiveAndInOrder | plugin/src/scheduler.ts:126-139 | for any interleaving calls for one lock begin in order of arrival, one at a time, also for the queue that deletes its table entry |
| PromiseLock.EntriesExactly | plugin/src/scheduler.ts:126-139 | after any interleaving a member queue has a table entry iff somebody waits for it or is inside; the other locks keep theirs from the first call on |
| LockScripts.ScriptsAreOrdered | plugin/src/tools.ts:258-264 | every operation takes its locks in the order member queue, captain, team, retired index and gives all of them back |
| LockScripts.OperationsNeverDeadlock | plugin/src/tools.ts:258-1096 | however any operations interleave, while one is unfinished some operation can take its next step |
| PromiseLock.LockTable.Enter | plugin/src/state.ts:38-49 | a call queues behind the present tail and becomes the new one |
| PromiseLock.LockTable.Resume | plugin/src/state.ts:38-49 | when a call resumes nobody else is inside its lock and all earlier callers are done |
| PromiseLock.LockTable.Leave | plugin/src/scheduler.ts:126-139 | leaving ends the call; a member queue drops its entry only when it is still its own tail |
| TextLines.JoinSplit | plugin/src/state.ts:441-452 | joining the lines of a text gives back the text |
| TextLines.SplitJoin | plugin/src/state.ts:441-452 | splitting joined lines gives back the lines |
| Mailbox.AppendAdds | plugin/src/state.ts:346-364 | an append adds one message at the end, also after a missing final newline, and nothing else changes |
| Mailbox.MutateMaps | plugin/src/state.ts:424-453 | a rewrite changes the selected messages and keeps every other line byte for byte |
| Mailbox.MutateNobody | plugin/src/state.ts:424-453 | a rewrite that selects nobody leaves the text identical |
| Mailbox.LogIsAppendOnly | plugin/src/state.ts:346-501 | over any run from any file, the records are the old ones followed by the appended ones in order, malformed lines unchanged |
| Mailbox.MessagesPersist | plugin/src/state.ts:456-501 | the k-th message stays the k-th, with its content and any readAt and deliveredAt |
| Mailbox.AcknowledgedIsNeverUnread | plugin/src/state.ts:486-501 | an acknowledged message is never unread again, at any time in any continuation |
| Mailbox.LeaseHides | plugin/src/state.ts:411-482 | a leased message is unread iff not read and the lease is 60 seconds old; a release shows it again |
| Mailbox.MarksExactly | plugin/src/state.ts:456-501 | a claim, release or acknowledgement sets exactly its marks on the selected messages, keeping earlier read and delivery times, and no other message changes |
| Mailbox.ReadsLineByLine | plugin/src/state.ts:375-408 | each line adds the message it says, without its byte order mark, unless it is blank or says none |
| Mailbox.AppendKeepsBytes | plugin/src/state.ts:346-364 | an append keeps every byte and adds the printed line between at most one newline and a final one |
| Mailbox.DamagedExactly | plugin/src/state.ts:375-408 | the reported lines are the ones that are neither blank nor messages, by number, rising |
| Mailbox.MailboxFile.AppendMessage | plugin/src/state.ts:346-364 | writes exactly the appended text |
| Mailbox.MailboxFile.ReadMessages | plugin/src/state.ts:375-408 | returns the messages in order and the numbers of the malformed lines |
| Mailbox.MailboxFile.MutateMessages | plugin/src/state.ts:424-453 | the line loop writes exactly the rewritten text |
| Mailbox.MailboxFile.ClaimDelivery | plugin/src/state.ts:456-467 | leases the selected messages |
| Mailbox.MailboxFile.ReleaseDelivery | plugin/src/state.ts:470-480 | drops their leases |
| Mailbox.MailboxFile.AcknowledgeMessages | plugin/src/state.ts:486-501 | marks them delivered and read, keeping earlier times |
| SplitLoop.StepKeeps | harness/loop.ts:204-852 | every step keeps depth <= resplit_count <= 3, tree positions within the budget, no work without a finished claim, and distinct split records |
| SplitLoop.DepthBoundedByCount | harness/loop.ts:809-851 | in every run depth is the length of the lineage and depth <= resplit_count <= 3 |
| SplitLoop.TasksAreBounded | harness/loop.ts:822-839 | a run within a budget creates at most 1 + a + ab + abc task ids, a, b, c the widest splits at depths 1, 2, 3 |
| SplitLoop.SplitsAreBounded | harness/loop.ts:809-851 | the ledger of any run records at most 3 + 2a + ab successful splits |
| SplitLoop.SplittingStops | harness/loop.ts:778-851 | no run makes more successful splits than that, 643 at the default budget, although re-splits overwrite children |
| SplitLoop.DefaultBudgetBounds | harness/loop.ts:457-458 | at budget 64 at most 1 + 64 + 512 + 2048 ids ever exist |
| SplitLoopLimits.BoundsAreReached | harness/loop.ts:809-851 | for every budget some run within it has exactly the most task ids and makes exactly the most splits |
| SplitLoopLimits.DefaultBoundsAreReached | harness/loop.ts:457-458 | at budget 64 some run reaches 2625 ids and 643 splits |
| SplitLoop.LedgerCountsSplits | harness/loop.ts:844-850 | the ledger has exactly one split line per successful split |
| SplitLoop.ClaimedAtMostOnce | harness/loop.ts:236-261 | under any interleaving an id is claimed successfully at most once |
| SplitLoop.LosersLearnTheWinner | harness/loop.ts:236-249 | the lock file of an id is created once; a later claimant is told the winner's name iff the winner has written it, and else finds the file unreadable |
| SplitLoop.ClaimBelongsToLockWinner | harness/loop.ts:236-261 | a claim that succeeds belongs to the owner whose create won the lock |
| SplitLoop.SplitStrandsExactly | harness/loop.ts:828-839 | a split leaves its child queued, listed and unclaimable iff the child's claim was over before |
| SplitLoop.StrandedExactlyByResplit | harness/loop.ts:236-261 | in every run a child is so stranded iff its parent was split over it after the child's claim |
| SplitLoop.ChildIsLost | harness/loop.ts:828-839 | a concrete run: claim and split the root, claim its child, split the root again |
| SplitRules.ClaimExactly | harness/loop.ts:236-261 | a claim succeeds iff its claimant won and stamped the lock and the task is still queued; then just the task is claimed and its marker gone |
| SplitRules.ReportExactly | harness/loop.ts:341-358 | a report is accepted iff the task is claimed and the result at most 2000 characters; then the task is done, with one line |
| SplitRules.VerifyExactly | harness/loop.ts:422-453 | a verdict is accepted iff the task is done, a reason is given, the reviewer is another model than the worker, and the worker is the one assigned; the task is then verified iff it passed, else failed |
| SplitRules.SplitExactly | harness/loop.ts:778-852 | each refusal of a split, and its success, holds iff its own condition does and no earlier one; a split leaves exactly its children, queued one deeper with one re-split more, and its parent done |
| SplitRules.HomogeneousMeaning | harness/loop.ts:786-805 | worker models are refused iff some but not all of several children are given one, or all that must differ are the same |
| SplitRules.QueueListsWaiting | harness/loop.ts:204-261 | in every run the queue markers are exactly those of the queued tasks |
| SplitRules.VerifiedWasPassed | harness/loop.ts:422-453 | in every run a task is verified iff a fair verdict passed it and its parent was not split over it since |
| SplitLoop.HarnessFiles.CreateLock | harness/loop.ts:236-244 | the exclusive create succeeds iff nobody has the lock file |
| SplitLoop.HarnessFiles.StampLock | harness/loop.ts:245-249 | the winner writes its name, and whoever tries to claim the task from then on is refused in that name and changes nothing |
| SplitLoop.HarnessFiles.FinishClaim | harness/loop.ts:250-261 | the rest of a claim, as the step says |
| SplitLoop.HarnessFiles.Report | harness/loop.ts:341-358 | performs exactly the report step |
| SplitLoop.HarnessFiles.Verify | harness/loop.ts:422-453 | performs exactly the verify step, refusals in order |
| SplitLoop.HarnessFiles.SplitOnce | harness/loop.ts:778-852 | performs exactly the split step, guards in order and children enqueued one by one |
| SplitLoop.HarnessFiles.UsableModels | harness/loop.ts:791-793 | the filter keeps the worker models that are not blank, in order |
| TreeBounds.WidestIsWidest | harness/loop.ts:822-825 | a split fits the budget iff it is no wider than the computed width |
| TreeBounds.DefaultWidths | harness/loop.ts:458 | the widths 64, 8 and 4 at budget 64 |
| TreeBounds.TreeSizeExact | harness/loop.ts:828-839 | ids named by their place under splits of widths a, b, c number exactly 1 + a + ab + abc |
| NativeArena.EstimatePreCallChecked | cpp-harness/include/harness.hpp:376-383 | for every long breadth the loop never leaves its 128-bit accumulator and returns cap + 1 iff a partial power passes LONG_MAX, else the power's low 64 bits |
| NativeArena.CheckedIsEstimate | cpp-harness/include/harness.hpp:376-383 | for a count of children that is the true power, or cap + 1 when it does not fit a long |
| NativeArena.EstimateDecides | cpp-harness/include/harness.hpp:376-383 | saturation never changes a verdict and exact values are exact |
| NativeArena.VerdictExactly | cpp-harness/include/harness.hpp:376-383 | for any breadth the comparison with the cap is that of the true power iff the breadth is not negative, the exponent even, or no partial power saturates and the cast result is in range or within the cap |
| NativeArena.NegativeBreadthIsOverEveryCap | cpp-harness/include/harness.hpp:376-383 | breadth -2^32 at exponent 3 is told to be over every cap although its power is below |
| NativeArena.AllowedExactly | cpp-harness/src/middleware.cpp:334-410 | the split gate allows iff spiral, hetero, breadth, budget, daily, once and atomic conditions all hold of the true breadth^depth |
| ArenaRules.GateExactly | cpp-harness/src/middleware.cpp:323-410 | each code is answered iff its own objection holds and none before it in the gate's order, all of the true power; a warning iff the power is over the warning mark |
| ArenaRules.ScreenExactly | cpp-harness/src/middleware.cpp:569-598 | every criterion is either the job at its place among those that may run, with the model of its position, or the denial at its place among the others |
| ArenaRules.DealtInTurn | cpp-harness/src/middleware.cpp:573-578 | models are dealt in turn, round and round; without any, the default one |
| ArenaRules.SplitExactly | cpp-harness/src/middleware.cpp:544-647 | which code a split is answered, and what it leaves: nothing, a stopped lineage, just the denials, or also the committed parent with exactly its children and cost |
| ArenaRules.EnqueueExactly | cpp-harness/src/middleware.cpp:531-542 | a new id is queued at the depth of its dots with no re-split counted; a known one changes nothing |
| ArenaRules.ReportExactly | cpp-harness/src/middleware.cpp:649-681 | a report with an artifact on a node that failed less than twice is judged: proposed with a line, or one failure more; any other changes nothing |
| ArenaRules.TwoFailuresLock | cpp-harness/src/middleware.cpp:655-666 | in every run a node answers MaxRounds iff two reports on it failed before, counting those it came with |
| NativeArena.CountsExactIffFreshRoots | cpp-harness/src/middleware.cpp:531-630 | resplitCount == depth + (1 if already split) on every node iff only fresh dot-free roots were enqueued |
| NativeArena.ParentsSplitOnce | cpp-harness/src/middleware.cpp:379-383 | no run splits a parent twice |
| NativeArena.NodesAreBounded | cpp-harness/src/middleware.cpp:544-647 | below a root there are never more nodes than 1 + a + ab + abc, a, b, c the widest splits that breadth cap, tree budget and daily cap allow |
| NativeArena.DefaultCapsBound | cpp-harness/include/harness.hpp:96-98 | at the shipped caps at most 329 |
| NativeArena.SplitAddsItsJobs | cpp-harness/src/middleware.cpp:616-633 | an allowed split adds a new node for each screened criterion, with its model, and childrenOf lists just them in order |
| NativeArena.TreeBudgetIsPerSplit | cpp-harness/src/middleware.cpp:602-615 | a split keeps the sum of estimates within the tree budget iff it is denied or its own estimate still fits |
| NativeArena.SplitGrowsTree | cpp-harness/src/middleware.cpp:616-633 | an allowed split grows its tree by exactly its screened criteria |
| NativeArenaLimits.BoundIsReached | cpp-harness/src/middleware.cpp:531-647 | for all caps some run from fresh roots has exactly the most nodes |
| NativeArenaLimits.TreeBudgetHoldsExactly | cpp-harness/include/harness.hpp:95-96 | every tree of every run stays within the per-tree budget iff the most nodes the caps allow do |
| NativeArenaLimits.DefaultTreeBudgetFails | cpp-harness/include/harness.hpp:93-98 | at the shipped caps some tree has 329 nodes under a budget of 64 |
| NativeArena.TaskArena.EnqueueTask | cpp-harness/src/middleware.cpp:531-542 | performs exactly the enqueue step |
| NativeArena.TaskArena.SplitTask | cpp-harness/src/middleware.cpp:544-647 | performs exactly the split step |
| NativeArena.TaskArena.ScreenCriteria | cpp-harness/src/middleware.cpp:569-595 | the loop keeps the criteria that may run, each with the model of its own position, and logs a denial for each other |
| NativeArena.TaskArena.CommitChildren | cpp-harness/src/middleware.cpp:620-633 | the loop adds the children and appends them to the parent's list |
| NativeArena.TaskArena.ReportTask | cpp-harness/src/middleware.cpp:649-681 | performs exactly the report step |
| SisterBus.FieldEqIsPad | cpp-harness/src/sister_shm.cpp:63-70 | a field equals a string iff the string is shorter than the field and copying it would produce the field |
| SisterBus.ShortTextSurvives | cpp-harness/src/sister_shm.cpp:36-45 | a short NUL-free string survives copy and read back |
| SisterBus.PublishThenRead | cpp-harness/src/sister_shm.cpp:151-203 | any publish into any segment answers for exactly the triples stored like its own unless an earlier slot does, loses slot 0 when it evicts, and changes no other answer |
| SisterBus.ShownExactly | cpp-harness/src/sister_shm.cpp:36-56 | an entry reads back with each text up to its first NUL and one byte less than its storage, its value whole, the host's time, and "host" for a missing writer |
| SisterBus.SeqNoCountsPublishes | cpp-harness/src/sister_shm.cpp:151-203 | the sequence number counts the publishes whose value is at most 65536 bytes; the others change nothing |
| SisterBus.OnePerTripleKeptExactly | cpp-harness/src/sister_shm.cpp:157-186 | one live slot per triple is kept iff the triple fits its fields or nothing else holds its cut form |
| SisterBus.ReadBackExactly | cpp-harness/src/sister_shm.cpp:151-222 | a published entry is read back under its own triple iff the triple fits |
| SisterBus.ForeignReadExactly | cpp-harness/src/sister_shm.cpp:58-74 | a triple nobody answered for reads a new entry iff it fits its fields and is stored like the entry's own triple |
| SisterBus.ForeignNameExactly | cpp-harness/src/sister_shm.cpp:36-45 | another NUL-free triple that fits is stored alike iff the published one does not fit or holds NULs, and only NULs follow a NUL in its stored bytes |
| SisterBus.TrailingNulLeaks | cpp-harness/src/sister_shm.cpp:63-70 | session "a" reads what session "a" followed by a NUL published |
| SisterBus.OversizeSessionLeaks | cpp-harness/src/sister_shm.cpp:36-39 | an oversize session id answers reads in the partition named by its first 63 bytes |
| SisterBus.CrashInFreeSlotIsInvisible | cpp-harness/src/sister_shm.cpp:177-196 | a crash before the commit of a claimed free slot changes no read, for any segment contents |
| SisterBus.CrashWhileEvicting | cpp-harness/src/sister_shm.cpp:172-196 | a crash during an eviction loses slot 0's entry and only that |
| SisterBus.CrashWhileUpdating | cpp-harness/src/sister_shm.cpp:187-196 | a crash during an update shows the new fields up to the store reached and the old ones after |
| SisterBus.UpdateIsWholeExactly | cpp-harness/src/sister_shm.cpp:187-196 | every crash point of an update shows the old or the new entry iff at most one of its five parts changes and, if it is the value, the bytes under the new length are the old or the new value |
| SisterBus.OrdinaryUpdateTears | cpp-harness/src/sister_shm.cpp:245-249 | a second publish of a new value at a later time, cut off after the clock, shows an entry never published |
| SisterBus.EntryCountIsLive | cpp-harness/src/sister_shm.cpp:185 | entryCount equals the number of live slots through every completed publish |
| SisterBus.CrashOvercounts | cpp-harness/src/sister_shm.cpp:185-196 | after a crash before the commit it is one too high iff a claimed slot had been counted or an evicted one cleared, and right after a crashed update |
| SisterBus.BusesAgreeExactly | cpp-harness/src/middleware.cpp:246-296 | after any run both buses answer every read alike iff at most 64 triples were published |
| SisterBus.RunReadsExactly | cpp-harness/src/sister_shm.cpp:157-177 | after any run the segment answers like the in-process bus for exactly the triples that have a seat, where each new triple takes the next seat or, once 64 are taken, the first |
| SisterBus.RunListsWhatItReads | cpp-harness/src/sister_shm.cpp:224-239 | in every run a namespace lists a key iff a read of it succeeds, with the same entry |
| SisterBus.ListingsNameKeysDifferently | cpp-harness/src/middleware.cpp:270-280 | the in-process listing agrees with its reads under composite keys and never uses the bare key |
| SisterBus.ShmBus.FromField | cpp-harness/src/sister_shm.cpp:41-45 | the loop returns the bytes before the first NUL |
| SisterBus.ShmBus.FieldHolds | cpp-harness/src/sister_shm.cpp:63-70 | the padding loop decides field equality |
| SisterBus.ShmBus.ReadEntry | cpp-harness/src/sister_shm.cpp:205-222 | the slot loop returns the entry of the first match |
| SisterBus.ShmBus.Choose | cpp-harness/src/sister_shm.cpp:157-177 | the scan picks the match, else the first free slot, else slot 0 |
| SisterBus.ShmBus.PublishEntry | cpp-harness/src/sister_shm.cpp:151-203 | the stores, in order, produce exactly the specified segment, passing through exactly the crash states |
| SisterBus.ShmBus.ListEntries | cpp-harness/src/sister_shm.cpp:224-239 | the loop collects the namespace, first slot of a key winning |
| RetryLadder.RunSpends | dsh-lite-cpp/src/brain.cpp:200-429 | a call spawns at most one time more than the retry rounds it consumes, and keeps nudgeDepth <= rounds <= 3 |
| RetryLadder.FullScopeGetsTwoRetries | dsh-lite-cpp/src/nudge.cpp:43-63 | a planner that never narrows gets two retries and a failed verification then stops the lineage |
| RetryLadder.SpawnsAreGated | dsh-lite-cpp/src/brain.cpp:200-269 | every spawned argv follows the approval of a payload and, with a binder, was bound from that very payload |
| RetryLadder.VerdictsAreEarned | dsh-lite-cpp/src/brain.cpp:273-357 | verified means the last run exited 0 in time and a declared postcondition passed on it; a verify-failed stop means one of the two failed |
| RetryLadder.SpawnsAreBounded | dsh-lite-cpp/src/brain.cpp:151-429 | over any turns and calls a task id is run at most calls + 3 times and nudgeDepth stays at most 3 |
| RetryLadder.NudgeIsNeverRefused | dsh-lite-cpp/src/brain.cpp:360-372 | the refusal of a fourth nudge cannot happen |
| RetryLadder.RetriesAreNotLaundered | dsh-lite-cpp/src/nudge.cpp:36-41 | user turns give no retry back and reopen nothing |
| RetryLadder.StoppedLineageRunsExactly | dsh-lite-cpp/src/brain.cpp:200-359 | a call on a stopped lineage leaves it as it was and spawns once iff the payload is bound, approved and run, else not at all |
| RetryRuns.PayloadsFollow | dsh-lite-cpp/src/brain.cpp:374-428 | the first payload gated is the one given; each further one is re-solicitation's answer to the failure before when it was asked and gave one, else the planner's, else the same again |
| RetryRuns.RunsExactly | dsh-lite-cpp/src/brain.cpp:177-430 | a call makes attempts up to the first that passes, is not run, or may not be retried; counters, disposition, spawns, actions and ledger lines are what these attempts come to |
| RetryLadder.Lineage.Retried | dsh-lite-cpp/src/nudge.cpp:43-63 | recordRetry, updating the counters in place |
| RetryLadder.Lineage.Nudged | dsh-lite-cpp/src/nudge.cpp:16-34 | recordNudge, refusing when stopped or at depth 3 |
| RetryLadder.TurnRenewsNudges | dsh-lite-cpp/src/nudge.cpp:16-41 | after a user turn n nudges in a row succeed iff n is at most three and the lineage is not stopped, and retries are judged as before |
| RetryLadder.Lineage.UserTurned | dsh-lite-cpp/src/nudge.cpp:36-41 | a caller gets three nudges again unless the lineage is stopped; rounds, the stop and every retry verdict stay |
| RetryLadder.Lineage.RunTask | dsh-lite-cpp/src/brain.cpp:177-430 | the while loop terminates and computes exactly the specified state and report; which these are is RetryRuns.RunsExactly |
| RetryLadder.Lineage.GateAndSpawn | dsh-lite-cpp/src/brain.cpp:221-322 | gate, spawn and verification of one attempt |
| RetryLadder.Lineage.AfterFailure | dsh-lite-cpp/src/brain.cpp:324-428 | retry verdict, nudge and choice of the next payload; which one it is, RetryRuns.PayloadsFollow |
| RepeatLoop.IsRepeatLoop | dsh-lite-cpp/src/nudge.cpp:65-93 | true iff some trimmed non-empty line comes k times in a row, blank lines ignored |
| RepeatLoop.SolidExactly | dsh-lite-cpp/src/nudge.cpp:70-80 | the lines compared are all lines up to their trailing carriage returns and spaces, without those that are empty then |
| Sanitizer.SanitizeBytes | dsh-lite-cpp/src/sanitizer.cpp:21-115 | the buffer pass computes the recursive specification for every input |
| Sanitizer.SanitizedIsSafe | dsh-lite-cpp/src/sanitizer.cpp:21-115 | the result is printable ASCII, TAB, LF and CR, at most 4096 long, and sanitizing again changes nothing |
| Sanitizer.UnchangedExactly | dsh-lite-cpp/src/sanitizer.cpp:32-49 | input is returned unchanged iff it is clean and within the limit |
| Sanitizer.CsiIsErased | dsh-lite-cpp/src/sanitizer.cpp:55-59 | a CSI sequence between two texts vanishes |
| Sanitizer.StringIsErased | dsh-lite-cpp/src/sanitizer.cpp:60-88 | so does a control string, terminated by BEL or ESC backslash |
| Sanitizer.UnterminatedSwallowsTheRest | dsh-lite-cpp/src/sanitizer.cpp:53-88 | a sequence that runs past the end takes the rest with it |
| SanitizerPieces.PlainIsLeft | dsh-lite-cpp/src/sanitizer.cpp:32-104 | of a text made of plain characters, dropped bytes and escape sequences of any kind (CSI, control strings, charset selections, two-byte escapes), just the plain characters are left |
| SanitizerPieces.SanitizeExactly | dsh-lite-cpp/src/sanitizer.cpp:21-115 | every text is made of such pieces and at most one unfinished one; its plain characters are the result, or beyond 4096 their first 2048 and last 1024 with the note between |
| Sanitizer.SkipEscape | dsh-lite-cpp/src/sanitizer.cpp:51-99 | the index after an escape, never past the end |
| Compaction.SurvivorsStay | dsh-lite-cpp/src/compaction.cpp:48-137 | every kept turn is found at a computed place; system, final and last user message unchanged |
| Compaction.PositionsIncrease | dsh-lite-cpp/src/compaction.cpp:106-120 | kept turns keep their order |
| Compaction.OnlySurvivorsAndTheMarker | dsh-lite-cpp/src/compaction.cpp:106-135 | everything else in the result is one marker at the first dropped turn's place |
| Compaction.FitsOrNothingLeft | dsh-lite-cpp/src/compaction.cpp:94-136 | for thresholds of 512 and more the result fits, marker included, or nothing prunable is left, with no needless drop |
| Compaction.MarkerFits | dsh-lite-cpp/src/compaction.cpp:97-104 | every marker message fits the 256 characters reserved for it |
| Compaction.UnchangedIsHonest | dsh-lite-cpp/src/compaction.cpp:48-51 | under budget nothing happens, and false is returned only for an unchanged history |
| CompactionRules.SizeExactly | dsh-lite-cpp/src/compaction.cpp:41-46 | the size is the length of all roles and contents and four per message |
| CompactionRules.GuardedExactly | dsh-lite-cpp/src/compaction.cpp:53-66 | guarded are exactly a first system message, the final message and the user's last; each is in the result unchanged |
| CompactionRules.ShortenExactly | dsh-lite-cpp/src/compaction.cpp:77-93 | a turn cut short has the first head and the last tail characters of its clean text with the note between |
| CompactionRules.TargetExactly | dsh-lite-cpp/src/compaction.cpp:102-104 | the target leaves room for 256 characters, or half of a smaller budget |
| CompactionRules.MarkerExactly | dsh-lite-cpp/src/compaction.cpp:121-133 | the marker is a user message with the number of dropped turns and the budget, its dash erased |
| CompactionRules.ToldExactly | dsh-lite-cpp/src/compaction.cpp:48-137 | the host is told of a change iff a turn was dropped or one came out different |
| Compaction.LastUserStaysLastExactly | dsh-lite-cpp/src/compaction.cpp:121-135 | the last user message is still the user's own iff no turn must be dropped or one before it may be |
| Compaction.MarkerTakesOver | dsh-lite-cpp/src/compaction.cpp:53-66 | in the other case the marker is protected from then on and the user's message no longer |
| Compaction.QuestionLosesItsGuard | dsh-lite-cpp/src/compaction.cpp:48-137 | a concrete history of three messages for which that happens |
| Compaction.TurnsKeepTheGuard | dsh-lite-cpp/src/brain.cpp:151-163 | a history that an executive turn compacts never meets that case |
| Compaction.TurnKeepsInput | dsh-lite-cpp/src/brain.cpp:151-163 | the input of an executive turn is the last message after compaction, unchanged, and still the last user message |
| Compaction.History.Measure | dsh-lite-cpp/src/compaction.cpp:41-46 | the loop sums role, content and framing |
| Compaction.History.FindGuards | dsh-lite-cpp/src/compaction.cpp:53-66 | which turns are protected |
| Compaction.History.ShortenTurns | dsh-lite-cpp/src/compaction.cpp:77-93 | the loop cleans and cuts exactly the unprotected turns and says whether it changed any |
| Compaction.History.DropTurns | dsh-lite-cpp/src/compaction.cpp:110-120 | erasing at shifting indices drops the oldest prunable turns until the target is met |
| Compaction.History.CompactTurns | dsh-lite-cpp/src/compaction.cpp:48-137 | the in-place edits compute exactly the specified history and flag |
| SseStream.ChunksDoNotMatter | dsh-lite-cpp/src/llm_client.cpp:202-235 | content, usage and counts equal a one-shot fold over the lines of the whole stream plus the flush |
| SseStream.SameBytesSameResult | dsh-lite-cpp/src/llm_client.cpp:202-235 | two ways of cutting the same bytes agree |
| SseStream.TotalsAreOfFrames | dsh-lite-cpp/src/llm_client.cpp:164-235 | however a stream is cut, the content is that of its frames in order, the counts are those of the frames with content and with reasoning, the usage that of the last frame with one |
| SseStream.DataLineExactly | dsh-lite-cpp/src/llm_client.cpp:225-232 | a finished line carries data iff it is "data:" and that data, up to spaces before and carriage returns and spaces after |
| SseStream.FinalNewlineIsOptional | dsh-lite-cpp/src/llm_client.cpp:339-343 | with JSON's padding rule the untrimmed flush gives what a final newline would |
| SseStream.ErrorBodyIsKeptExactly | dsh-lite-cpp/src/llm_client.cpp:313-319 | the buffer holds the whole body iff the body has no newline |
| SseStream.SseReceiver.HandleChunk | dsh-lite-cpp/src/llm_client.cpp:202-235 | the find-and-erase loop handles exactly the finished lines |
| SseStream.SseReceiver.HandleRawLine | dsh-lite-cpp/src/llm_client.cpp:225-232 | trims, recognises data lines and strips leading spaces |
| SseStream.SseReceiver.HandleFrame | dsh-lite-cpp/src/llm_client.cpp:166-201 | adds one frame to the totals; what they are then is SseStream.TotalsAreOfFrames |
| SseStream.SseReceiver.Finish | dsh-lite-cpp/src/llm_client.cpp:339-343 | flushes an unterminated data line |

## Left out

- Time stamps, subjects, descriptions, prompts, models and roles of tasks and members: no guard reads them. Time is a
  parameter of the mailbox and the bus.
- UUIDs are tokens from a counter and task ids `t<n>` are n; the normalising key function of names is a parameter.
- What a delivery, a quiescence wait, a member's availability or a spawned child answers is a free input; the calls
  themselves, events, prompts, web routes and snapshots are not part of this model.
- Member queues do not restrict dispatch in `TeamProtocol`, so it has more runs than the plugin; `PromiseLock` treats
  the queues separately. Re-reading unread mail before claiming it is not tied to the protocol steps.
- Team creation beyond the fresh record, the retired-member index, archives and the message tools.
- TeamStore.IsTeamState: the loops over members and tasks only; the checks before them, of JSON types, the record id,
  the captain id and the sequence number, are left out.
- `LockScripts` lists an operation's locks and how often it may take them, not what ends it early; a section that fails
  gives its lock back like any other.
- JSON, regular expressions, Unicode folding and trimming, and the model-id normalisation are parameters with the laws
  the lemmas name; a JSON value of the wrong type inside a stream frame, which would throw, is not modelled.
- SplitLoop.HarnessFiles.FinishClaim: loading, checking and saving the task file are one step, so another process that
  rewrites the file in between is not modelled; report, verify and split are one step likewise.
- `SplitLoop`: a power above 2^53 is exact where `Math.pow` rounds; the daemon-backed twin, cost and criterion fields are
  left out.
- `SplitLoop` and `NativeArena` follow one configuration per run; concurrent writers of one arena are serialised by its
  mutex. Ids with dots are modelled only as segment lists.
- `NativeArena`: caps are not negative; the soft-warning ratio is its truncated product, `checkSpawn`, the ledger's text
  and the validation of result vectors (a free outcome) are left out.
- `SisterBus`: the version fields, the semaphore, attach checks and `ENOTRECOVERABLE` are left out; each store is
  atomic and a crash falls between stores.
- `RetryLadder`: feedback texts and workspace cleanup are left out; hooks answer as functions of the iteration; the map
  from task ids to lineages is modelled on values, each lineage as an object.
- `SseStream`: liveness times and chunk counts depend on the cuts by design and are left out.
- Result vectors, routing, judge thresholds, the payload gate's rules, postconditions, atomicity heuristics, sandbox,
  git, daemons, benchmarks and demos: foreign effects, or members that would only add easy cases.
