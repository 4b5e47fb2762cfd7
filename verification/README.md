# OpenSlock protocols, verified

OpenSlock is a workspace server in which people and agents share channels and tasks, and a daemon per
machine that runs the agents. This project models its concurrent protocols and its two text scanners in
Dafny 4.11 and proves what they keep, for every input, every run and every interleaving of the modelled
steps. `dafny verify dfyconfig.toml` checks everything.

- **Daemon scheduler** (`Slots`). A counting semaphore per agent with a FIFO queue and a set of running
  keys. A waiter that a release wakes counts its slot only later; the step relation therefore handles a
  wake only after the microtasks of the previous event have drained. `DrainIsExactlyNeeded` shows that
  first come, first served needs exactly this; the slot bound alone needs less, and `CapacityIsExact`
  states over all histories, drained or not, what it needs.
- **Numbers** (`Log`, `Allocation`). Message and task numbers, allocated under advisory locks with an
  arbitrary hash, refine the atomic append of the in-memory store.
- **Messages, cursors, sends** (`Freshness`, `Store`, `SendProtocol`). The in-memory store as a class, the
  services on it, and the freshness preflight when other calls interleave.
- **Tasks** (`TaskRules`, `TaskProtocol`, `TaskLaws`). Claim, release, status change and assignment as
  separate database statements that interleave freely, and what each does when it runs alone.
- **Scanners** (`Tokens`, `Mentions`). Search tokens with the stored index, and mentions with the browser's
  completion menu. Texts are sequences of UTF-16 code units (`Text`).
- **Delivery** (`Hub`, `Wake`). Round robin, pending requests, and the fan-out of a message.
- **Timed workers and names** (`BoundedScan`, `Reminders`, `Sweeper`, `FreshNames`).

State that the program updates in place is held by classes (`SlotScheduler`, `MemoryStore`, `DaemonHub`,
`ReminderStore`, `OrphanSweeper`); their methods are proved against functions on values. Interleavings are
state machines over values: `Enabled` says which step may happen, `Next` what it does, `Runs` and `Exec`
run a sequence of steps, and the invariants carry the results to every reachable state.

Where the code and its comments differ, the model follows the code. Expectations that do not hold come with
a concrete run and the exact condition under which they hold: the slot bound without the drain assumption
(`Slots.UndrainedOvershoot`, `Slots.CapacityIsExact`); de-duplication by joined keys, which needs a task id
with a colon to fail, and the server's thread and channel ids are uuids (`Slots.ColonCollision`,
`Slots.DeduplicationIsExact`, `Slots.SharedKeyNeedsColon`); a claim that reports a conflict with nobody or
writes a stale status (`TaskProtocol.ConflictWithNobody`, `TaskProtocol.ClaimRefinesDecision`,
`TaskProtocol.ClaimOverwritesStatus`, `TaskProtocol.ClaimStatusMayBeStale`); reading past the end
(`SendProtocol.ReadingAheadMissesAll`, `SendProtocol.HeldAfterReadingAhead`); one-character phrases
(`Tokens.SingleCjkInsideRunIsMissed`, `Tokens.SingleCjkQuery`); a cancelled reminder that fires
(`Reminders.LateCancelStillFires`, `Reminders.FiresAreLawful`); a cancel or snooze that a running tick overwrites
(`Reminders.CancelBetweenWritesIsLost`, `Reminders.SnoozeDuringTickIsLost`, `Reminders.OwnerActSurvives`);
and an orphan that a full batch hides (`Sweeper.HiddenForeverExactly`).

## Model

| member | source | states |
|---|---|---|
| Slots.SchedulerSafety | daemon/src/serve.ts:55-73 | Over every run: an agent's held slots plus woken but uncounted waiters never exceed the maximum; if anyone waits they equal it (no lost wakeup); started, woken and queued jobs together are the accepted ones in order (first come, first served) |
| Slots.StartsInOrder | daemon/src/serve.ts:59-73 | Over every run what an agent started, then woke, then queues is exactly the sequence of its wakes that were not dropped |
| Slots.RunningIsExact | daemon/src/serve.ts:146-156 | Over every run the running keys are exactly the keys of the jobs that hold, were woken or wait; no key and no job is live twice |
| Slots.ClampNeverActs | daemon/src/serve.ts:69-73 | Over every run a finishing job owns a counted slot, so neither the clamp at 0 nor the default of 1 changes the result |
| Slots.DrainIsExactlyNeeded | daemon/src/serve.ts:59-68 | In every state that satisfies the invariant a fresh key's wake keeps first come, first served, and with it the whole invariant of the agent, if and only if no woken waiter is still uncounted |
| Slots.StepKeepsBounds | daemon/src/serve.ts:59-73 | From any state within the slot bound, a step keeps capacity and no lost wakeup for all agents if and only if it is no accepted wake or the wake finds room: no waiter uncounted, or a slot left over when all are counted |
| Slots.CapacityIsExact | daemon/src/serve.ts:59-73 | The exact condition of the slot bound: over any history, drained or not, capacity and no lost wakeup hold at every moment if and only if every accepted wake finds room |
| Slots.UndrainedOvershoot | daemon/src/serve.ts:59-73 | Without that assumption the bound fails: a concrete history ends with two holders where one is allowed |
| Slots.QuietRunIsBounded | daemon/src/serve.ts:62-73 | Without new wakes an agent takes only boundedly many more steps and accepts nothing |
| Slots.NothingStarves | daemon/src/serve.ts:62-73 | When an agent has nothing held and nobody woken, every wake it ever accepted has started, in order |
| Slots.KeyInjective | daemon/src/serve.ts:148-149 | Joined keys of colon-free handles determine the handle and the task |
| Slots.KeysCollideExactly | daemon/src/serve.ts:148-149 | Some tasks of two different agents share a key if and only if one handle followed by a colon starts the other |
| Slots.SharedKeyNeedsColon | daemon/src/serve.ts:148-149 | Whatever the handles, two jobs with one key have a colon in one of the task ids; the server's ids, which are uuids, have none |
| Slots.DropsExactlyLiveTasks | daemon/src/serve.ts:148-153 | A wake is dropped if and only if the same task of the same agent is live, when task ids have no colon, or when no live agent's handle can be confused with its own |
| Slots.TasksDoNotBlockEachOther | daemon/src/serve.ts:146-156 | With colon-free ids a wake for another thread or channel of an agent is never dropped for a live one: both are live afterwards |
| Slots.DeduplicationIsExact | daemon/src/serve.ts:148-153 | For a set of agents and arbitrary task ids: in every state exactly the wakes of live tasks are dropped, if and only if no handle of the set followed by a colon starts another one |
| Slots.ColonCollision | daemon/src/serve.ts:148-153 | With a colon in a task id, one agent's wake can swallow another agent's |
| Slots.SlotScheduler.constructor | daemon/src/serve.ts:55-58 | The three empty collections represent the initial state |
| Slots.SlotScheduler.AcquireSlot | daemon/src/serve.ts:59-66 | Up to its await: counts a slot when one is free, otherwise appends to the queue and changes no count |
| Slots.SlotScheduler.ReleaseSlot | daemon/src/serve.ts:69-73 | Decrements with the clamp and shifts exactly the first waiter |
| Slots.SlotScheduler.OnAgentStart | daemon/src/serve.ts:146-156 | A start that names a thread is for that thread whatever its channel, any other one for its channel; it is skipped exactly when that key is running, with colon-free ids exactly when that very task is live, and otherwise the task is live afterwards |
| Slots.SlotScheduler.Accept | daemon/src/serve.ts:154-156 | Adds the key and leaves the three collections in step with the accepting transition |
| Slots.SlotScheduler.ResumeWaiter | daemon/src/serve.ts:62-67 | The continuation after the await performs the counting step and keeps the invariant |
| Slots.SlotScheduler.FinishRun | daemon/src/serve.ts:220-223 | Removes exactly the job's key, gives the slot back, takes the head off the queue, and keeps the invariant |
| Log.ReplayCounts | server/src/repo/memory/store.ts:152-177 | A log built by atomic appends numbers each counter 1..N without gap, and its maximum is the count |
| Log.NumberIsRank | server/src/repo/memory/store.ts:152-177 | A row's number is its rank among the rows of its channel or workspace |
| Log.SameNumberSameRow | server/src/repo/memory/store.ts:152-177 | In such a log one counter never uses a number twice |
| Allocation.StepRefinesAppend | server/src/repo/pg/repos.ts:93-126 | In every interleaving of lock, read, insert, commit and abort, and for any hash, a commit is exactly the atomic append of the in-memory store and every other step leaves the log alone |
| Allocation.NumbersAreContiguous | server/src/repo/pg/repos.ts:93-111 | In every run a channel's (or workspace's) committed numbers are 1..N in commit order |
| Allocation.NumbersAreRanks | server/src/repo/pg/repos.ts:93-111 | In every run and for any hash, the number of a committed row is its rank among the committed rows of its channel or workspace |
| Allocation.WaitsExactlyForItsLock | server/src/repo/pg/repos.ts:96 | A transaction waits if and only if one is under way whose channel id, or "task:" and workspace, hashes alike |
| Allocation.ReturnedNumbersAreUnique | server/src/repo/pg/repos.ts:557-582 | Two committed transactions on one counter returned different numbers |
| Allocation.SomeoneCanMove | server/src/repo/pg/repos.ts:93-111 | No deadlock: while a transaction is open, some open transaction can take its next step other than aborting |
| Tokens.CjkTokens | server/src/domain/search-tokenize.ts:12-27 | The scanning loop yields the tokens of the lower-cased text |
| Tokens.RunEnd | server/src/domain/search-tokenize.ts:10-16 | One match of the pattern is the maximal run of one class |
| Tokens.PushTokens | server/src/domain/search-tokenize.ts:17-25 | A word run is pushed whole, a CJK run as its pairs |
| Tokens.PushGrams | server/src/domain/search-tokenize.ts:20-24 | The inner loop pushes every overlapping pair, or the single unit |
| Tokens.TokenIffWindow | server/src/domain/search-tokenize.ts:10-27 | A text is a token if and only if it is a maximal word, an adjacent CJK pair, or a CJK unit without CJK neighbour |
| Tokens.TokensOfRun | server/src/domain/search-tokenize.ts:16-24 | A word is one token, separators none, a CJK run its overlapping pairs in order, or its only unit |
| Tokens.TokenAlphabet | server/src/domain/search-tokenize.ts:9-10 | The alphabet of the pattern by code units |
| Tokens.MatchIffWindows | server/src/domain/search-tokenize.ts:34-39 | A query matches if and only if it has a unit that is no separator and each of its words, pairs and isolated units stands as one in the document |
| Tokens.ConcatLawIsExact | server/src/domain/search-tokenize.ts:12-27 | Tokens distribute over concatenation if and only if the cut falls on a class boundary, a separator or an end |
| Tokens.WordOrderIsIrrelevant | server/src/domain/search-tokenize.ts:4-6 | Matching depends only on which words a query contains, not on order or repetition |
| Tokens.PhraseIsFound | server/src/domain/search-tokenize.ts:20-39 | An all-CJK query of two or more units matches every document that contains it contiguously |
| Tokens.BoundedQueryIsFound | server/src/domain/search-tokenize.ts:34-39 | Any query with a token that occurs between boundaries matches |
| Tokens.SingleCjkQuery | server/src/domain/search-tokenize.ts:20-39 | A one-unit CJK query matches if and only if the unit occurs without CJK neighbours |
| Tokens.SingleCjkInsideRunIsMissed | server/src/domain/search-tokenize.ts:20-39 | So a one-unit query is missed inside a longer run, and the length bound of the phrase law is needed |
| Tokens.SelfMatch | server/src/domain/search-tokenize.ts:34-39 | A document matches itself if and only if it has a unit that is not a separator |
| Tokens.RunIsRebuilt | server/src/domain/search-tokenize.ts:22-24 | A CJK run of length n >= 2 yields n - 1 pairs from which it is rebuilt |
| Tokens.IndexAgreesWithDirect | server/src/repo/pg/repos.ts:167-184 | For a query with a token, containment in the stored de-duplicated tokens selects exactly the messages that direct matching selects |
| Mentions.ParseMentions | server/src/domain/mention.ts:9-20 | The loop yields the distinct mentions in order of first occurrence |
| Mentions.HandleEnd | server/src/domain/mention.ts:6-12 | A match extends over the longest run of handle units |
| Mentions.HandleAlphabet | server/src/domain/mention.ts:6 | The alphabet of handles by code units |
| Mentions.SpaceAlphabet | web/src/mentions.ts:27-33 | The white space before an at sign by code units; none of it belongs to a handle |
| Mentions.MentionIffSpan | server/src/domain/mention.ts:6-13 | A handle is mentioned if and only if an at sign stands right before an occurrence of it that no handle unit continues |
| Mentions.ConcatLawIsExact | server/src/domain/mention.ts:6-20 | Mentions distribute over concatenation if and only if no mention is cut in two |
| Mentions.QualifiesUnique | web/src/mentions.ts:21-36 | At most one position qualifies as the start of the token at the cursor |
| Mentions.FindMentionQuery | web/src/mentions.ts:21-36 | Returns the qualifying position with the text up to the cursor, and nothing if and only if no position qualifies |
| Mentions.FoundSpanIsReplaced | web/src/mentions.ts:48-58 | What the menu found is the span that is replaced; the rest of the text is kept |
| Mentions.AppliedMention | web/src/mentions.ts:48-58 | The at sign, the handle and a space replace the text between the positions, the rest is kept, and the cursor stands right after the space |
| Mentions.ClampedPositions | web/src/mentions.ts:54-55 | Positions outside the text count from its end or stop at its ends |
| Mentions.InsertedMentionIsParsed | web/src/mentions.ts:48-58 | For any positions, the server parses the edited text to the distinct mentions of before, the inserted handle and after, and the menu is closed at the new cursor |
| TaskRules.ReclaimRestoresStatus | server/src/domain/task-ops.ts:51-57 | A released and reclaimed task has the status a claim would have given it at once |
| TaskRules.StatusRoundTrip | server/src/domain/task-ops.ts:20-22 | Exactly the five names are statuses, and each stands for its own |
| TaskLaws.WritesWereAskedFor | server/src/services/task.service.ts:199-281 | In every interleaving every write carries out the request that its operation began with: by that actor, to that assignee, to the status of that name |
| TaskLaws.WhoGetsPastTheRead | server/src/domain/task-ops.ts:30-57 | In any state a status update passes its check exactly for one of the five names from a human or the assignee, a release for the assignee, an assignment of a claimable task that is unowned or by a human or the assignee |
| TaskLaws.ClaimAlone | server/src/repo/pg/repos.ts:497-537 | A claim alone: a free task goes to the claimant and starts, otherwise nothing changes and the true reason is told |
| TaskLaws.UnclaimAlone | server/src/services/task.service.ts:229-245 | A release alone succeeds exactly for the assignee, and takes the task back from in progress to do |
| TaskLaws.UpdateStatusAlone | server/src/services/task.service.ts:251-281 | A status update alone succeeds exactly for one of the five names, from a human or the assignee, and stores that status |
| TaskLaws.AssignAlone | server/src/services/task.service.ts:199-223 | An assignment alone succeeds exactly for a claimable unfinished task that is unowned, or when a human or its assignee asks |
| TaskLaws.CompleteIsRun | server/src/services/task.service.ts:199-281 | Operations that run alone are runs of the protocol |
| TaskProtocol.WritesFindWhatTheyChecked | server/src/services/task.service.ts:229-281 | In every interleaving: a claim finds nobody assigned, a release finds its own actor, a status change finds the assignee it read, which for a non-human is the actor itself |
| TaskProtocol.AssigneeIsOwner | server/src/repo/pg/repos.ts:497-635 | The stored assignee is always the outcome of the writes so far |
| TaskProtocol.SuccessesAreWrites | server/src/services/task.service.ts:85-110 | Operations that report success and writes of the history correspond one to one |
| TaskProtocol.OwnershipIsConserved | server/src/repo/pg/repos.ts:497-619 | Claims plus assignments of unowned tasks equal releases plus one while the task is held; so claims never exceed 1 + releases |
| TaskProtocol.ClaimantKeepsTask | server/src/repo/pg/repos.ts:511-520 | A claimant stays the assignee until its own release or somebody's assignment |
| TaskProtocol.ClaimRefinesDecision | server/src/repo/pg/repos.ts:497-537 | In every interleaving the database claim gives the pure decision's verdict on the row at that instant, if and only if the second select does not find the task released again |
| TaskProtocol.StatusIsHistory | server/src/repo/pg/repos.ts:497-635 | The stored status is always the one that the last write left |
| TaskProtocol.ClaimStatusMayBeStale | server/src/repo/pg/repos.ts:499-535 | In every run a claim writes and reports the status computed from the row at its select; it is the decision's on the row at the write if and only if the statuses at select and write start alike, for which it suffices that nobody wrote the task in between |
| TaskProtocol.StatusesComeFromReads | server/src/domain/task-ops.ts:51-57 | In every run a release takes in progress back to do and keeps other statuses, an assignment starts a task to do, keeps other statuses and never begins from a done one: as the row was when read |
| TaskProtocol.RaceHasOneWinner | server/src/domain/claim.ts:37-50 | While nobody releases or assigns the task, at most one claim wins and every other is told the truth about the holder |
| TaskProtocol.ConflictWithNobody | server/src/repo/pg/repos.ts:522-533 | A concrete run in which a claim reports a conflict although nobody holds the task |
| TaskProtocol.ClaimOverwritesStatus | server/src/repo/pg/repos.ts:509-521 | A concrete run in which a claim overwrites a status that a human has just set |
| Freshness.IsContiguous | server/src/domain/seq.ts:18-23 | Comparing neighbours decides whether the numbers run on from the first without gap or repetition |
| Freshness.FindGaps | server/src/domain/seq.ts:29-40 | Exactly the absent numbers of the interval, ascending |
| Freshness.HeldExactlyWhenUnseen | server/src/domain/freshness.ts:34-53 | Negative numbers are refused; otherwise held exactly when not forced and something is unseen, with the exact window |
| Store.LatestIsMax | server/src/repo/memory/store.ts:173-177 | The latest number of a channel is the maximum of its counter in the log |
| Store.AppendIsLogAppend | server/src/repo/memory/store.ts:152-171 | Appending a message is the atomic append of the numbered log and keeps it one that appends build |
| Store.AppendStores | server/src/repo/memory/store.ts:152-171 | The whole effect of an append: the message as given, next number, new id, last; one row for each distinct mention in order; nothing else |
| Store.AppendKeepsIds | server/src/repo/memory/store.ts:145-150 | A new message has an id that no stored message has, and ids stay distinct |
| Store.MakeIdInjective | server/src/repo/memory/store.ts:145-150 | Padded ids of different numbers differ |
| Store.ListingIsWindow | server/src/repo/memory/store.ts:340-355 | The listing after any cursor, even past the end, is exactly the messages numbered cursor + 1 .. latest in order, and its length is the unread count |
| Store.ListingIsLimited | server/src/repo/memory/store.ts:340-355 | For any messages: the channel's messages after the cursor, ordered by number, cut to the limit, where zero is no limit |
| Store.SortSorts | server/src/repo/memory/store.ts:353 | The sort orders any messages and loses none |
| Store.HoldIsTheListing | server/src/domain/freshness.ts:34-53 | The decision passes exactly on an empty listing and otherwise names the size and both ends of the listing |
| Store.HeldSendOnlyDrafts | server/src/services/message.service.ts:82-104 | A held send writes no message and one draft with the text, moves no cursor, and reports exactly the unseen listing |
| Store.SendOutcome | server/src/services/message.service.ts:74-116 | Refused exactly without channel or text, or in an archived channel; held exactly when not forced and something is unlisted; otherwise sent as the agent's message, with its cursor moved |
| Store.SendKeepsIds | server/src/repo/memory/store.ts:145-150 | Sending keeps the ids of messages and drafts distinct |
| Store.ReadToTheEnd | server/src/services/read-state.service.ts:25-59 | After a human or an agent has marked a channel read up to its latest number the unread listing is empty |
| Store.ResendAfterReading | server/src/services/message.service.ts:82-116 | Reading to the end of the reported window and sending again succeeds with the next number |
| Store.OwnMessageNeverHolds | server/src/services/message.service.ts:106-115 | After a sent message the author's next send is not held by it |
| Store.CreatorPassesPreflight | server/src/services/task.service.ts:121-137 | After creating a task its creator's claim preflight passes |
| Store.ReadingAheadSilencesTheHold | server/src/services/read-state.service.ts:31-44 | Because reading is not clamped, the preflight passes if and only if the latest number is within what was read or seen, even past the end |
| Store.ReconnectFindsNoGap | server/src/domain/seq.ts:25-40 | A listing from a cursor contains every number up to the latest |
| Store.MemoryStore.constructor | server/src/repo/memory/store.ts:114-135 | The empty store; its log is one that appends build |
| Store.MemoryStore.AppendMessage | server/src/repo/memory/store.ts:152-171 | The whole new state: the numbered message, one row per distinct mention, nothing else; the log stays well numbered |
| Store.MemoryStore.CreateDraft | server/src/repo/memory/store.ts:358-370 | One new draft with a fresh number |
| Store.MemoryStore.AdvanceSeen | server/src/repo/memory/store.ts:494-504 | The cursor becomes the larger of old and new |
| Store.MemoryStore.AdvanceRead | server/src/repo/memory/store.ts:512-522 | The cursor becomes the larger of old and new |
| Store.MemoryStore.MarkReadUpTo | server/src/services/read-state.service.ts:25-46 | Refuses exactly negative targets; otherwise the member's read cursor, and for an agent also its seen cursor, becomes the larger of old and target, and every other cursor stays |
| Store.MemoryStore.Unread | server/src/services/read-state.service.ts:49-59 | The unread count is the length of the listing after the read cursor |
| Store.MemoryStore.SendAsAgent | server/src/services/message.service.ts:74-116 | The service's statements, run alone, have exactly the effect and result of the send specification |
| Store.MemoryStore.CreateTask | server/src/repo/memory/store.ts:415-434 | The new number is larger than every number of the workspace and one more than some number, or 1; the id is new |
| Store.MemoryStore.ClaimTask | server/src/repo/memory/store.ts:385-398 | Claims exactly a free task that is not the system's, starting it, and otherwise tells whether it is one's own, another's or not claimable |
| Store.MemoryStore.UnclaimTask | server/src/repo/memory/store.ts:436-451 | Succeeds if and only if the actor is the assignee |
| Store.MemoryStore.UpdateTaskStatus | server/src/repo/memory/store.ts:453-470 | Succeeds if and only if the assignee is the expected one |
| Store.MemoryStore.AssignTask | server/src/repo/memory/store.ts:472-481 | Refuses exactly system and done tasks |
| SendProtocol.StalenessIsBounded | server/src/services/message.service.ts:82-115 | In every interleaving an unforced sent message with number q missed only messages appended between its read and its append, at most q - 1 - latest of them, and none when nothing was appended |
| SendProtocol.PassedClaimIsFresh | server/src/services/task.service.ts:64-83 | When a claim's preflight passed, every message above the agent's cursor was appended after the latest number was read |
| SendProtocol.HeldWindowIsReal | server/src/services/message.service.ts:90-104 | A held send names exactly the rows that were unseen when it read |
| SendProtocol.HeldExactlyWhenBehind | server/src/services/message.service.ts:82-104 | In every run an unforced send or a claim is held if and only if the latest number it read exceeds the cursor it read, and is told the unseen numbers |
| SendProtocol.UninterruptedClaim | server/src/services/task.service.ts:66-83 | A claim's preflight with nothing in between reads cursor and latest number as they are, is held if and only if something is unseen, and changes nothing |
| SendProtocol.HeldAfterReadingAhead | server/src/services/read-state.service.ts:31-44 | In every run: after an agent marked a channel read up to any number, a later unforced send works with a cursor at least that high and is held if and only if the latest number it reads exceeds that cursor |
| SendProtocol.ReadingAheadMissesAll | server/src/services/read-state.service.ts:31-44 | For every n a run in which an agent reads an empty channel up to n and its later unforced send goes out unaware of n new messages |
| SendProtocol.UninterruptedSend | server/src/services/message.service.ts:74-116 | With nothing in between, the separate statements end in the same cursors, numbers, drafts and result as the one-step send |
| Hub.RoundRobinIsFair | server/src/realtime/daemon-hub.ts:89-97 | From any starting cursor, connection k of n receives calls / n of the dispatches, and one more exactly when it is among the first calls % n in turn |
| Hub.PickPosition | server/src/realtime/daemon-hub.ts:89-97 | Dispatches visit the connections cyclically from wherever the cursor stands |
| Hub.ReqIdInjective | server/src/realtime/daemon-hub.ts:108 | Request ids are distinct |
| Hub.RequestsAreConserved | server/src/realtime/daemon-hub.ts:103-128 | Over every run: issued = pending + resolved + timed out + offline; nothing settles twice or while pending; the next id is unused |
| Hub.FirstAnswerDecides | server/src/realtime/daemon-hub.ts:103-128 | In every run a request for an offline machine fails at once; any other one is pending until the first response or timeout for it, which settles it for good as what it is |
| Hub.LateAnswersAreIgnored | server/src/realtime/daemon-hub.ts:122-127 | A response or timeout for a settled or unknown id changes nothing |
| Hub.DaemonHub.constructor | server/src/realtime/daemon-hub.ts:53-57 | An empty hub with an empty book of requests |
| Hub.DaemonHub.Register | server/src/realtime/daemon-hub.ts:60-63 | Appends the connection to its workspace |
| Hub.DaemonHub.Unregister | server/src/realtime/daemon-hub.ts:64-69 | Removes exactly the connections with that id, and the workspace with its last one |
| Hub.DaemonHub.DispatchToMachine | server/src/realtime/daemon-hub.ts:82-87 | Delivers once, on the first connection of the machine, if and only if there is one |
| Hub.DaemonHub.DispatchAny | server/src/realtime/daemon-hub.ts:90-97 | Delivers once, on the connection under the cursor, and advances the cursor, if and only if there is a connection |
| Hub.DaemonHub.Request | server/src/realtime/daemon-hub.ts:103-119 | Numbers every request, sends it on the first connection of the machine, and refuses exactly offline machines |
| Hub.DaemonHub.ResolveRequest | server/src/realtime/daemon-hub.ts:122-128 | Settles exactly a pending request |
| Hub.DaemonHub.TimeOut | server/src/realtime/daemon-hub.ts:112-115 | An armed timer finds its request pending and settles it |
| Wake.TargetsAreExact | server/src/services/wake.service.ts:62-79 | Each target once; exactly the mentioned known agents and, for a human author, the channel's agents, without the author and those who muted the thread; the reason is a mention if and only if mentioned |
| Wake.TargetsInOrder | server/src/services/wake.service.ts:67-79 | The targets as a sequence: first the mentioned agents as first mentioned, then for a human's message the other agents of the channel as listed |
| Wake.AgentsDoNotBroadcast | server/src/services/wake.service.ts:68-72 | A message of an agent wakes nobody it does not mention |
| Wake.SendWake | server/src/services/wake.service.ts:161-178 | Delivers on the first connection of the agent's machine, or round robin when it has none, if and only if there is such a connection |
| Wake.OnMessage | server/src/services/wake.service.ts:62-95 | Wakes, in order, exactly the targets whose machine is connected (any connection if they have none), each by one start that carries its reason, text and thread, on a connection of its own machine |
| BoundedScan.Scan | server/src/repo/pg/reminder.repo.ts:126-147 | Whatever rows each limited query returns: min(limit, total) distinct rows, all matching |
| BoundedScan.TotalIsUnionSize | server/src/repo/pg/repos.ts:637-653 | The total over the workspaces is the number of matching rows |
| BoundedScan.ScanAnswers | server/src/repo/pg/reminder.repo.ts:126-147 | Taken together the limited queries answer as one limited query over all workspaces |
| BoundedScan.ScanIsCompleteExactly | server/src/repo/pg/repos.ts:637-653 | A scan finds every matching row if and only if they all fit into one batch |
| Reminders.FiresAreLawful | server/src/services/reminder-worker.ts:57-88 | Over every run, with owners acting between any two calls of a tick: armed rows have a time, whatever fires was due, a done reminder never fires, and a cancelled one fires exactly when it was cancelled after the scan |
| Reminders.ArmedFiresWhenDue | server/src/services/reminder-worker.ts:48-88 | In every run a scheduled or snoozed reminder that no tick is at waits unchanged while its owner does nothing, and a complete scan at its time or later finds it and the tick fires it exactly once |
| Reminders.SnoozedFiresWhenDue | server/src/services/reminder.service.ts:57-66 | A snooze of a reminder that no tick is at, whatever its status, arms it for just that time, and it fires then |
| Reminders.ScheduledFiresWhenDue | server/src/services/reminder.service.ts:34-51 | A new reminder is armed for its time and fires then |
| Reminders.FireRecordsTheScan | server/src/services/reminder-worker.ts:57-69 | In every run a firing was scanned as scheduled or snoozed for a time up to the tick's, and records that time and the row's present status |
| Reminders.OnlyTheOwnerActs | server/src/repo/pg/reminder.repo.ts:81-101 | Acts of anybody but the owner change nothing; the owner's change exactly status, time or cron as asked |
| Reminders.OnceFiresOncePerSnooze | server/src/services/reminder.service.ts:57-101 | Between ticks a once reminder's firings, plus one while it is armed, never exceed one plus its snoozes |
| Reminders.LateCancelStillFires | server/src/services/reminder-worker.ts:48-88 | A concrete run in which a reminder cancelled during a tick fires and is scheduled again |
| Reminders.CancelBetweenWritesIsLost | server/src/services/reminder-worker.ts:68-88 | A concrete run in which a cancel between the firing event and the row's write is lost |
| Reminders.SnoozeDuringTickIsLost | server/src/services/reminder-worker.ts:48-88 | A concrete run in which a once reminder snoozed during its tick ends done, with no next time |
| Reminders.OwnerActSurvives | server/src/services/reminder.service.ts:57-101 | In every run a cancel or snooze outlives the running tick if and only if the tick has neither to fire nor to write that reminder any more; otherwise the row ends done or scheduled |
| Reminders.TickRemovesFound | server/src/services/reminder-worker.ts:48-55 | Given a cron that moves on, a tick makes exactly the found reminders no longer due |
| Reminders.TicksDrain | server/src/services/reminder-worker.ts:48-55 | k ticks at a fixed time leave max(0, due - k * batch) reminders due |
| Reminders.DrainedAfterCeiling | server/src/services/reminder-worker.ts:48-55 | Nothing is due after k ticks if and only if k is at least ceil(due / batch) |
| Reminders.UninterruptedTick | server/src/services/reminder-worker.ts:48-88 | Scanning, firing and marking one by one without interruption ends in the state of the one-step tick |
| Reminders.ReminderStore.constructor | server/src/repo/memory/reminder.repo.ts:19-23 | The empty repository |
| Reminders.ReminderStore.Create | server/src/repo/memory/reminder.repo.ts:26-43 | A fresh id and a scheduled row |
| Reminders.ReminderStore.UpdateRow | server/src/repo/memory/reminder.repo.ts:56-71 | Refuses exactly missing rows and foreign owners; absent fields stay |
| Reminders.DueFromDatabase | server/src/repo/pg/reminder.repo.ts:126-147 | The database's scan, one limited query for each workspace, returns min(batch, due) distinct due reminders of all workspaces: what a tick expects |
| Reminders.ReminderStore.DueAcrossWorkspaces | server/src/repo/memory/reminder.repo.ts:81-87 | Distinct due reminders, as many as the limit allows; with room for all, exactly the scheduled and snoozed ones with a time up to now |
| Reminders.ReminderStore.MarkFired | server/src/repo/memory/reminder.repo.ts:89-94 | Changes the time and status of one row, or nothing |
| Reminders.ReminderStore.FireOne | server/src/services/reminder-worker.ts:57-88 | One firing event, and the row re-armed or done |
| Reminders.ReminderStore.RunTick | server/src/services/reminder-worker.ts:48-88 | With room for all exactly the scheduled and snoozed reminders with a time up to now, each, fire once; they are re-armed for the cron's next time or done; the others stay |
| Sweeper.EscalationIsBounded | server/src/services/orphan-sweeper.ts:57-83 | Over every sequence of ticks a task is triaged at most once and flagged at most once, flagged only after its triage: at once if that failed, else after the waiting time |
| Sweeper.SweepSees | server/src/services/orphan-sweeper.ts:65-81 | A tick records every orphan it sees, keeps first sightings and flags, and flags those that have waited long enough |
| Sweeper.TickForTask | server/src/services/orphan-sweeper.ts:66-81 | What a tick does for a task it finds: triage at first sight with its outcome, a flag at once if that failed, a flag when overdue, and nothing else |
| Sweeper.ActedCountsTasks | server/src/services/orphan-sweeper.ts:65-82 | The reported number is the number of tasks for which the tick did something |
| Sweeper.FlaggedExactly | server/src/services/orphan-sweeper.ts:57-83 | Over every sequence of ticks a task is flagged if and only if its triage failed at the first sighting or some later tick found it at least the waiting time after that |
| Sweeper.RecordedExactly | server/src/services/orphan-sweeper.ts:65-74 | Over every sequence of ticks a task is on record if and only if some tick's scan found it |
| Sweeper.OrphansReachAHuman | server/src/services/orphan-sweeper.ts:57-83 | Over every sequence of ticks, whatever lies between: a task found again at least the waiting time after it was first found has been flagged to a human, exactly once |
| Sweeper.HiddenForeverExactly | server/src/repo/pg/repos.ts:637-653 | While the stale orphans stay the same, one of them can stay unrecorded through any number of ticks if and only if they do not all fit into a batch |
| Sweeper.OrphanSweeper.constructor | server/src/services/orphan-sweeper.ts:39-43 | Nothing recorded, nothing done |
| Sweeper.OrphanSweeper.Visit | server/src/services/orphan-sweeper.ts:66-81 | One orphan: the record, the actions and whether it counts |
| Sweeper.OrphanSweeper.RunTick | server/src/services/orphan-sweeper.ts:57-83 | The loop performs the sweep, reports how many orphans it acted on, and keeps the invariant |
| FreshNames.HandleShape | server/src/http/services-context.ts:441-448 | A derived handle has 2 to 31 letters, digits and single dashes, no leading dash, and a trailing one only at length 31 |
| FreshNames.HandleIsDashedWords | server/src/http/services-context.ts:441-448 | A derived handle is the words of the name joined by single dashes, cut at 31 characters, or "agent" when that leaves less than two |
| FreshNames.WordsKeepLetters | server/src/http/services-context.ts:444 | The words contain every letter and digit of the lower-cased name, in order |
| FreshNames.SlugAlphabet | server/src/http/services-context.ts:444 | The characters of a word by code |
| FreshNames.SlugifyIsIdempotent | server/src/http/services-context.ts:441-448 | Deriving a handle from a handle changes nothing if and only if it does not end in a dash |
| FreshNames.UniqueHandle | server/src/http/services-context.ts:451-458 | The base or the first free candidate; failure if and only if the base and all 998 candidates are taken |
| FreshNames.FailureNeedsManyHandles | server/src/http/services-context.ts:451-458 | Failure needs at least 998 taken handles, 999 unless the base was cut |
| FreshNames.CandidatesSize | server/src/http/services-context.ts:453-455 | Numbered candidates are pairwise different |
| FreshNames.FreshSlug | server/src/repo/pg/repos.ts:310-316 | The loop stops within #taken + 1 tries at an unused slug, and every earlier candidate was taken |
| FreshNames.DatabaseSlug | server/src/repo/pg/repos.ts:308-316 | The base (or the stamped one for an empty name), or base-k for the first k >= 2 that is free, within #taken + 1 tries |
| FreshNames.MemorySlug | server/src/repo/memory/store.ts:739-742 | The base (or ch-counter for an empty name), or base-k for the first free k after the counter, within #taken + 1 tries |

In the table `#taken` is the number of taken names, and "run" means any sequence of enabled steps from the
empty initial state.

## Left out

- Slots.SchedulerSafety: assumes that microtasks drain between two wake messages; only NothingStarves needs `MAX_PARALLEL >= 1`. A negative setting of it, the run of an agent, its activity reports and the reconnect backoff are not modelled.
- Allocation.StepRefinesAppend: models one database with one lock table; the insert becomes visible at commit, and a failed transaction is an abort.
- Tokens.CjkTokens: takes text that is already lower-cased; Unicode lower-casing is not modelled.
- Tokens.IndexAgreesWithDirect: the substring fallback for queries without tokens, the order of the results and their limits (50 in the database, none in memory) are not modelled.
- TaskProtocol.ClaimRefinesDecision: starts at the repository call; the preflight of a claim is in SendProtocol. A row update and its commit are one step, and so are the existence check and the update of release and status change, because tasks are never deleted.
- TaskProtocol.WritesFindWhatTheyChecked: says nothing about permission at the write of an assignment and does not make status changes linearizable, because assignment has no compare-and-set and a claim writes a status it read earlier.
- Store.MemoryStore.AppendMessage: cursors and tasks are keyed by tuples instead of joined strings, and ids are never empty; fields that no rule reads (message type, time stamps, the anchor message, parent and creator of a task) are dropped. Rows seeded under ids of their own are not modelled.
- Store.ListingIsWindow: a limit of zero means no limit, as in the in-memory store; the database treats it as an empty page.
- SendProtocol.StalenessIsBounded: an append is one step, which Allocation.StepRefinesAppend justifies.
- Wake.OnMessage: the lists of agents, channel members and muted handles are parameters; the text of a triage request, the direct wake of one handle and the second wake of direct messages are left out.
- Hub.DaemonHub.Request: the timer is an explicit step (`TimeOut`), and the answer's payload is not carried.
- Reminders.FiresAreLawful: cron is an arbitrary function, assumed to move strictly forward only for draining; a row change and its history event by an owner are one step; ticks do not overlap and do not fail.
- Sweeper.EscalationIsBounded: speaks of the in-memory record of one process; ticks do not overlap and do not fail.
- FreshNames.DatabaseSlug: the taken slugs do not change during the loop; two concurrent creations are left to the database's unique constraint. How the base is cleaned from the channel's name is not modelled.
- FreshNames.UniqueHandle: promises no bound of 31 characters, because the suffix may take the handle to 33.
- HTTP routes, WebSocket plumbing, the command-line client and all Vue components: input, output and presentation.
- Authentication, password and token hashing, OAuth: foreign cryptography and network calls.
- The daemon's file-system work and process spawning.
- Row-level security and migrations: rows carry a workspace key, the policy engine is not modelled.
- Reactions, saved messages, action cards, member roles, member filtering of the completion menu, batch creation of tasks: one-branch or repeated facts.
