# Durable protocols of a messaging agent backend

A Dafny model of the small durable protocols inside a messaging-agent backend, with proofs of
what they keep over every run. One database transaction is one atomic step, the clock never
goes back, fresh ids are fresh values, and the model provider, the compiler, the browser, the
bank and the messaging provider are arbitrary functions.

Where the source updates rows and fields, a class does the same in place and every method is
tied to a function on values; the laws are proved about those functions and about whole runs.
Where several processes interleave between transactions, the steps of one process are the
actions of a state machine, an action that is not enabled changes nothing, and a run is any
sequence of actions.

| files | what they hold |
|---|---|
| `ToolJournal`, `ToolJournalProtocol` | the tool-call journal: claims by insert or compare-and-swap, heartbeats, takeover, finish, replay, write-back |
| `FinancialLedger`, `FinancialSync` | bank sync: pages, restarts, one writing transaction |
| `FinancialOverlap`, `FinancialRepair` | runs of overlapping syncs, and exactly which of them leave the one-pass ledger |
| `MemoryGraph`, `MemoryStore`, `MemoryEffects`, `MemoryHistory`, `MemoryRetrieval` | the memory graph, its updates and what they do row by row, its history, and the bounded retrieval |
| `FollowUps`, `FollowUpProtocol`, `FollowUpScheduling` | scheduled follow-ups racing with user messages, and who may schedule them |
| `BuildLoop` | the build and repair loop of the app builder |
| `Delivery`, `OrderedSending`, `DeliverySender` | delivery status, the ordered resumable sender |
| `RateLimiter`, `RateLimitRules` | the sliding-window limiter, refined to its full log, and what that comes to |
| `SplitExpenses`, `SplitRules`, `SplitSeeding` | the record store of generated apps, what its checks accept, and its seeding |
| `CanonicalMigration`, `MigrationRoundTrip` | the migration that merges conversations, and its downgrade |
| `Delimiters` | the delimiter checker, equal to a grammar |
| `Waitlist` | joining and ranking |

Some natural statements are false of the code. For each of these an input that breaks it and the
exact condition under which it holds are proved next to what does hold:

- with a call under way, the tool can be started again exactly when the lease of the row has run
  out (`ToolJournalProtocol.ToolMayRunAgainExactly`), so a tool can run twice when its first run
  outlasts its lease (`ToolJournalProtocol.ToolMayRunTwiceAfterExpiry`);
- a run of overlapping syncs, late commits and skips included, leaves the one-pass ledger whatever
  the pages say exactly when some commit starts the log and every commit of pages that ended short
  is followed by one that starts no later than where it ended
  (`FinancialRepair.LedgerIsRightExactly`, and with the next sync `LedgerRefinesTheLog`), so a late
  sync that moves the cursor back under a third one leaves it wrong
  (`FinancialRepair.LateOverlapCanEndWrong`);
- one sync over several pages leaves the ledger that one sync per page leaves exactly when, for
  each transaction, the last record accepted with all account lists says what the last one
  accepted with its own page's list says, or what is stored already, and no withdrawal between the
  two is undone (`FinancialLedger.BatchingMattersExactly`); a transaction can go missing
  (`BatchingCanMatter`) or stay on its old account (`BatchingCanMoveATransaction`), and a late
  account list can also do no harm (`LateListCanBeHarmless`);
- a supersede replaces the fact it names exactly when no active fact says the new one yet
  (`MemoryHistory.SupersedeRetiresExactly`);
- the graph expansion stays off the user node, for every table, exactly when none of the first
  three seeds has the user as its object (`MemoryRetrieval.UserNodeIsAvoidedExactly`): only the
  subject of a seed is blanked when it is the user, so a friend of the user pulls in unrelated
  facts about the user (`MemoryRetrieval.FriendOfTheUser`);
- a reply can still be stored after a newer user message exactly when the message finds the row
  failed or completed while a worker is past its check
  (`FollowUpProtocol.MessageStopsTheReplyExactly`), which takes a stale lock taken over
  (`NoReplyAfterNewerMessage`, `TakeoverCanReplyAfterMessage`);
- a completed follow-up is final exactly when no worker is still active on it
  (`FollowUpProtocol.CompletedIsFinalExactly`); after a takeover one may be, and fail it
  (`TakeoverCanFailACompletedRow`);
- the order of delivery reports decides the status exactly when a send success and a failure
  are both reported and neither delivery nor reading is (`Delivery.OrderMattersExactly`);
- a bubble is never handed over again exactly when its row is known delivered or read and no run
  is between the check of that row and its request (`OrderedSending.NeverSentAgainExactly`); until
  then it can be sent twice, under one key, by overlapping runs
  (`OverlappingRunsMaySendTwice`) or by a later run after a crash (`CrashedRunIsRepeated`);
- a downgraded conversation gets its own provider ids back exactly when its channel is the
  preferred one of its user (`MigrationRoundTrip.ProviderIdsRestoredExactly`), it comes back whole
  exactly when it also is its user's earliest and last updated one
  (`ConversationReturnsExactly`), and a message returns to its own conversation exactly when that
  is its user's earliest (`MessageReturnsExactly`).

## Model

| member | source | states |
|---|---|---|
| ToolJournal.ToolCallTable.Read | src/benji_api/agents/tools.py:221-257 | the read replays a terminal row, refuses a reused identity, and offers a takeover only of a lease that is absent or over |
| ToolJournal.ToolCallTable.Insert | src/benji_api/agents/tools.py:231-252 | only one executor inserts the row, which holds every reader of the call off for thirty seconds from its time; the loser sees it unchanged |
| ToolJournal.ToolCallTable.Claim | src/benji_api/agents/tools.py:257-276 | the takeover wins only while the row is running with the lease exactly as read; a winner owns the row, counts one attempt and holds readers off for thirty seconds, a loser changes nothing |
| ToolJournal.ToolCallTable.Renew | src/benji_api/agents/tools.py:326-343 | only the current claimant of a running row can extend the lease, and then every reader of the call waits until thirty seconds after the stamp and may take over from then on; a terminal row stays as it is |
| ToolJournal.ToolCallTable.Finish | src/benji_api/agents/tools.py:283-315 | the claimant stores its result and releases the lease; anyone else replays or is told it was displaced |
| ToolJournal.ToolCallTable.Reconcile | src/benji_api/agents/service.py:486-524 | the agent wake writes output and status back only onto the same call |
| ToolJournalProtocol.StepKeepsInv | src/benji_api/agents/tools.py:210-343 | every step of every executor keeps the protocol invariant |
| ToolJournalProtocol.RunKeepsInv | src/benji_api/agents/tools.py:210-343 | the invariant holds after every interleaving |
| ToolJournalProtocol.TerminalRowNeverChanges | src/benji_api/agents/tools.py:304-315 | once terminal, no interleaving changes the row, later write-backs included |
| ToolJournalProtocol.JournalAgreement | src/benji_api/agents/tools.py:254-315 | any two executors that ever return for the call return the same stored pair for the same request |
| ToolJournalProtocol.LeaseNeverGoesBack | src/benji_api/agents/tools.py:256-276 | while unfinished the lease never decreases, and each claim or renewal moves it strictly forward |
| ToolJournalProtocol.TakeoverIsFenced | src/benji_api/agents/tools.py:257-276 | a successful takeover means no claim or renewal since its read and a lease that was over |
| ToolJournalProtocol.OnlyTheClaimantStores | src/benji_api/agents/tools.py:304-315 | only the current claimant's finish makes the row terminal, with its own result |
| ToolJournalProtocol.AttemptsCountClaims | src/benji_api/agents/tools.py:231-274 | attempts equals successful claims equals tool starts, and at most one result is stored |
| ToolJournalProtocol.DisplacedStaysDisplaced | src/benji_api/agents/tools.py:304-307 | an executor that lost its claim never owns the row again |
| ToolJournalProtocol.ToolRunsOnceWithoutExpiry | src/benji_api/agents/tools.py:158-208 | when no lease expires, the tool is started exactly once for a row |
| ToolJournalProtocol.HeartbeatsKeepTheCall | src/benji_api/agents/tools.py:158-208 | while the clock stays within thirty seconds of the last committed claim or heartbeat the tool is started at most once, with nothing assumed about leases |
| ToolJournalProtocol.HeartbeatBeats | src/benji_api/agents/tools.py:326-343 | a heartbeat comes no earlier than ten seconds after the last; the owner's holds readers off for thirty seconds, another's ends its heartbeats |
| ToolJournalProtocol.UndisturbedCallReturns | src/benji_api/agents/tools.py:210-315 | a call left alone runs its tool once, stores and returns its outcome, and whoever asks for the same call later is given the same |
| ToolJournalProtocol.LookDecides | src/benji_api/agents/tools.py:221-257 | what an executor does next, for every row it can find |
| ToolJournalProtocol.FinishDecides | src/benji_api/agents/tools.py:283-315 | how a call ends for its executor, for every row it can find |
| ToolJournalProtocol.ToolMayRunAgainExactly | src/benji_api/agents/tools.py:256-276 | with a running row, and before time passes, some continuation starts the tool again if and only if the lease is over |
| ToolJournalProtocol.ToolMayRunTwiceAfterExpiry | src/benji_api/agents/tools.py:256-276 | a run in which that happens |
| FinancialLedger.FoldEffect | src/benji_api/services/finance.py:372-398 | the ledger holds for each transaction what the writes of the page log make of it |
| FinancialLedger.LedgerHoldsTheLastRecord | src/benji_api/services/finance.py:515-573 | the ledger says of a transaction what the last complete record of it on an account its page lists says, field by field, marked as removed exactly when a later withdrawal names it |
| FinancialLedger.LedgerKeepsTheRest | src/benji_api/services/finance.py:387-398 | without such a record it keeps what it had, only marked when a withdrawal names it |
| FinancialLedger.ReplayAbsorbed | src/benji_api/services/finance.py:372-398 | applying a stretch of pages and then a longer one that contains it equals the longer one alone |
| FinancialLedger.BatchIsFold | src/benji_api/services/finance.py:371-398 | with consistent account lists, how the log is cut into syncs does not matter |
| FinancialLedger.BatchingMattersExactly | src/benji_api/services/finance.py:371-398 | one sync over the pages and one sync per page leave the same ledger, from any ledger, if and only if every transaction settles alike under both sets of account lists |
| FinancialLedger.BatchingKeepsTheTransactions | src/benji_api/services/finance.py:371-398 | both store the same transactions, from any ledger, exactly when none that the ledger lacks is accepted only thanks to another page's list |
| FinancialLedger.BatchingCanMatter | src/benji_api/services/finance.py:527-530 | a log for which grouping decides whether a transaction is stored |
| FinancialLedger.BatchingCanMoveATransaction | src/benji_api/services/finance.py:527-530 | a log for which grouping decides only on which account a transaction is stored |
| FinancialLedger.LateListCanBeHarmless | src/benji_api/services/finance.py:527-530 | a log with a late account list for which grouping makes no difference |
| FinancialSync.LoadOnce | src/benji_api/services/finance.py:447-457 | one attempt collects consecutive pages from the cursor until the provider says it is done, or fails |
| FinancialSync.LoadTransactionPages | src/benji_api/services/finance.py:437-465 | a mutation restarts from the original cursor, at most three times; other errors pass through |
| FinancialSync.LoadUnbroken | src/benji_api/services/finance.py:443-465 | the pages applied come from one unbroken attempt and are one stretch of the log |
| FinancialSync.LoadTriesThrice | src/benji_api/services/finance.py:443-465 | which of the three attempts counts |
| FinancialSync.CollectAccounts | src/benji_api/services/finance.py:468-512 | the last listing of each account wins |
| FinancialSync.Connection.UpsertAccounts | src/benji_api/services/finance.py:468-512 | every listed account has the fields of its last listing within their widths, a missing name or type keeping the stored one; the other accounts are kept |
| FinancialSync.Connection.UpsertAccount | src/benji_api/services/finance.py:482-511 | each field of the account says what its listing says, cut at its width; a missing name or type keeps the stored one |
| FinancialSync.AccountsSettle | src/benji_api/services/finance.py:488-511 | syncing the same listings again changes no account, and no account loses the name it has |
| FinancialSync.Connection.UpsertTransaction | src/benji_api/services/finance.py:515-573 | a complete record on a listed account is stored with its account, date, amount, name, pending flag and other fields, not removed; any other record changes nothing, and no other transaction changes |
| FinancialSync.Connection.Commit | src/benji_api/services/finance.py:367-421 | one transaction applies all pages and the cursor, and every stored transaction keeps a stored account |
| FinancialSync.Connection.Sync | src/benji_api/services/finance.py:332-434 | a failed sync leaves ledger, accounts and cursor alone; a ledger that was the fold of the log up to its cursor still is |
| FinancialOverlap.CommitCatchesUp | src/benji_api/services/finance.py:356-421 | committing a stretch that starts at or before the cursor keeps the ledger able to catch up to the one-pass ledger |
| FinancialOverlap.RunCatchesUp | src/benji_api/services/finance.py:332-434 | that holds after every run of overlapping syncs and failures that never skips ahead |
| FinancialOverlap.RefinesWhileNothingSkips | src/benji_api/services/finance.py:332-434 | so after such a run the next sync that gets as far as any before leaves exactly the one-pass ledger |
| FinancialOverlap.SerialSyncsFollowTheLog | src/benji_api/services/finance.py:332-434 | syncs that do not overlap keep the ledger equal to the fold of the log up to the stored cursor, which never goes back |
| FinancialRepair.CommitsAreRightExactly | src/benji_api/services/finance.py:356-401 | any list of commits whatever leaves the one-pass ledger for every consistently listed log if and only if it is caught up: some commit starts the log, and each that ended short is followed by one starting no later than where it ended |
| FinancialRepair.LedgerIsRightExactly | src/benji_api/services/finance.py:332-434 | for every run of overlapping syncs, failures and late commits: with whatever pages, the ledger is the one-pass ledger up to the furthest commit if and only if the commits of the run are caught up |
| FinancialRepair.LedgerRefinesTheLog | src/benji_api/services/finance.py:332-434 | for every such run, the next sync that gets as far as any before leaves the one-pass ledger if and only if the commits with that sync are caught up |
| FinancialRepair.NeverSkippingIsCaught | src/benji_api/services/finance.py:332-434 | every run whose commits never start beyond the stored cursor is caught up by its next sync |
| FinancialRepair.LateOverlapCanEndWrong | src/benji_api/services/finance.py:356-401 | a run of three syncs that ends with the cursor at the furthest commit and a wrong ledger |
| FinancialRepair.LateOverlapIsRepairedExactly | src/benji_api/services/finance.py:356-401 | the instance of three syncs: the third starts no later than where the late one ended, or that one carried nothing |
| MemoryStore.Store.ResolveEntity | src/benji_api/memory/service.py:797-824 | the one entity of that user, type and key is found and learns an alias, or is created |
| MemoryStore.Store.AddEvidence | src/benji_api/memory/service.py:827-849 | at most one evidence row per fact and episode |
| MemoryStore.Store.FindExisting | src/benji_api/memory/service.py:691-699 | the named fact only if it is the user's and still relevant |
| MemoryStore.Store.InsertFact | src/benji_api/memory/service.py:760-794 | the new fact, and for a supersede the retirement of the old one with its end date |
| MemoryStore.Store.Record | src/benji_api/memory/service.py:718-794 | add and supersede strengthen an active duplicate instead of inserting |
| MemoryStore.Store.ApplyOperation | src/benji_api/memory/service.py:680-794 | one operation does what its specification says and keeps the graph invariant |
| MemoryStore.Store.PersistConsolidation | src/benji_api/memory/service.py:632-677 | a job is stored once, with its episode and all its operations, and the invariant holds |
| MemoryStore.Store.ForgetMemories | src/benji_api/memory/service.py:381-434 | facts, evidence and orphaned entities go, tainted episodes are hidden, and the count is exact |
| MemoryEffects.ExistingIsOwnAndCurrent | src/benji_api/memory/service.py:691-699 | exactly which fact an operation can name: the user's own, active or not yet superseded at the time, and not run out |
| MemoryEffects.ReinforcingStrengthens | src/benji_api/memory/service.py:700-716 | reinforcing raises confidence and importance to the larger of stored and given and adds one evidence row quoting the right message; nothing else changes, and without such a fact nothing does |
| MemoryEffects.ConfirmingStrengthens | src/benji_api/memory/service.py:748-758 | saying again what an active fact says does the same to it, quoting the user's message |
| MemoryEffects.InsertingAddsOneFact | src/benji_api/memory/service.py:760-794 | otherwise exactly one fact is added, with every field as said and its evidence; only the superseded fact changes, to end when the new one starts or the conversation took place |
| MemoryEffects.ResolvingFindsOrCreates | src/benji_api/memory/service.py:797-824 | the one entity under user, type and key, with the name as an alias unless known, or a new one; no other entity changes |
| MemoryEffects.NoTwoAlike | src/benji_api/memory/service.py:718-824 | no two active facts say the same, and no two entities share user, type and key |
| MemoryEffects.PersistingAddsOneEpisode | src/benji_api/memory/service.py:632-677 | exactly when a consolidation is stored, and the one episode it adds |
| MemoryEffects.PersistingIsOneTurn | src/benji_api/memory/service.py:632-677 | its operations are applied to the rest of the graph in the turn of the job and that episode |
| MemoryEffects.ForgettingFacts | src/benji_api/memory/service.py:386-433 | exactly the chosen facts of the user go, and links to them are cleared |
| MemoryEffects.ForgettingEvidence | src/benji_api/memory/service.py:401-419 | exactly their evidence goes |
| MemoryEffects.ForgettingEpisodes | src/benji_api/memory/service.py:401-419 | exactly the episodes that witnessed one of them are blanked, and no other changes |
| MemoryEffects.ForgettingEntities | src/benji_api/memory/service.py:419-433 | exactly the user's entities that no remaining fact mentions go, and only when something was forgotten |
| MemoryGraph.AppliedKeepsInv | src/benji_api/memory/service.py:680-794 | every operation keeps uniqueness, live references, evidence and supersession, and only lets rows evolve |
| MemoryGraph.ForgottenKeepsInv | src/benji_api/memory/service.py:401-434 | forgetting keeps them too |
| MemoryHistory.GraphInvariant | src/benji_api/memory/service.py:632-849 | over every history: one active fact per user, subject, predicate and object, one entity per key, no dangling reference, no unreferenced entity, evidence for every fact |
| MemoryHistory.RunAges | src/benji_api/memory/service.py:700-785 | confidence and importance never decrease, superseded stays superseded, deleted ids never return, hidden stays hidden |
| MemoryHistory.ForgettingIsFinal | src/benji_api/memory/service.py:401-419 | after a forget no retrievable episode was evidence for a forgotten fact, whatever follows |
| MemoryHistory.ForgettingIsContained | src/benji_api/memory/service.py:386-433 | other users and other facts are untouched |
| MemoryHistory.RepersistingChangesNothing | src/benji_api/memory/service.py:643-648 | persisting a job again, at any later time, changes nothing |
| MemoryHistory.ChainHasNoGap | src/benji_api/memory/service.py:778-785 | following replacements always reaches newer facts, ends, and leaves no validity gap |
| MemoryHistory.SupersedeRetires | src/benji_api/memory/service.py:778-785 | without a duplicate the old fact is retired, and the new one starts where it ends unless backdated |
| MemoryHistory.SupersedeRetiresExactly | src/benji_api/memory/service.py:748-785 | a supersede replaces the fact it names if and only if no active fact says the new one yet |
| MemoryHistory.SupersedeOnlyConfirms | src/benji_api/memory/service.py:748-758 | with a duplicate nothing is retired and nothing added |
| MemoryHistory.RecordedIsKnown | src/benji_api/memory/service.py:718-794 | afterwards exactly one active fact says so, with evidence from this episode |
| MemoryRetrieval.RankedRanks | src/benji_api/memory/service.py:237-241 | ranking sorts by falling score and keeps the elements |
| MemoryRetrieval.RankedIsStable | src/benji_api/memory/service.py:237-241 | what scores alike keeps its order |
| MemoryRetrieval.ExpandGraph | src/benji_api/memory/service.py:852-898 | the seeds stay in front, every addition touches a node that one of the first three seeds opens, the limit holds, and with room left every neighbour is in |
| MemoryRetrieval.UserNodeIsAvoidedExactly | src/benji_api/memory/service.py:987-996 | for every table the additions share a node other than the user with a first seed, if and only if no first seed has the user as its object |
| MemoryRetrieval.FriendOfTheUser | src/benji_api/memory/service.py:862-867 | a seed about a friend of the user pulls in an unrelated fact about the user |
| MemoryRetrieval.SelectFacts | src/benji_api/memory/service.py:232-265 | the best relevant facts form the prefix, ids are distinct, and when facts do not fill the limit every relevant candidate is in |
| MemoryRetrieval.BestEpisodes | src/benji_api/memory/service.py:302-310 | the best relevant episodes, in order |
| MemoryRetrieval.Retrieve | src/benji_api/memory/service.py:176-311 | facts and episodes together never exceed the limit, every fact is a relevant candidate or touches a node opened by a first seed, which is not the user unless a first seed has the user as its object |
| FollowUps.FollowUpTable.Claim | src/benji_api/services/agent_followups.py:114-154 | the earliest row that has attempts left and is due, or was locked for two minutes, is claimed and no other changes; none only when there is none |
| FollowUps.FollowUpTable.Complete | src/benji_api/services/agent_followups.py:198-208 | a cancelled row stays cancelled |
| FollowUps.FollowUpTable.Cancel | src/benji_api/services/agent_followups.py:211-222 | a completed row stays completed |
| FollowUps.FollowUpTable.Retry | src/benji_api/services/agent_followups.py:225-237 | failed with a bounded delay unless cancelled |
| FollowUps.FollowUpTable.CancelPending | src/benji_api/agents/followups.py:12-36 | exactly the live cancellable rows of the conversation are cancelled, and counted |
| FollowUps.FollowUpTable.Schedule | src/benji_api/agents/followups.py:39-77 | a row is added exactly when it may be: enabled, below the depth, and none yet of that source run; its delay is within bounds |
| FollowUps.BackoffIsBounded | src/benji_api/services/agent_followups.py:232-236 | two seconds to five minutes, never less after more attempts |
| FollowUps.BackoffDoubles | src/benji_api/services/agent_followups.py:232-232 | two seconds, doubling with each further attempt up to five minutes |
| FollowUpProtocol.ScheduledWaits | src/benji_api/agents/followups.py:39-77 | over every run, a scheduled follow-up is never claimed before its delay has passed |
| FollowUpProtocol.FailedWaits | src/benji_api/services/agent_followups.py:225-237 | and one that failed never before its backoff has, whatever other workers do |
| FollowUpProtocol.DispatchCompletes | src/benji_api/services/agent_followups.py:20-111 | an undisturbed dispatch stores the turn and completes the row |
| FollowUpProtocol.DispatchDeliversAgain | src/benji_api/services/agent_followups.py:20-111 | one that finds the turn stored delivers that one |
| FollowUpProtocol.DispatchCancels | src/benji_api/services/agent_followups.py:156-175 | one that finds the user opted out or a newer message, or delivery off, cancels the row and stores nothing |
| FollowUpProtocol.DispatchFails | src/benji_api/services/agent_followups.py:225-237 | a failing one puts the row back with its backoff and lets go of the conversation |
| FollowUpProtocol.CompletedMeansReplied | src/benji_api/services/agent_followups.py:198-208 | a row is completed only once the turn is stored |
| FollowUpProtocol.CancelledNeverReplies | src/benji_api/agents/service.py:482-485 | for a cancelled row no turn is ever stored any more |
| FollowUpProtocol.MessagesCancel | src/benji_api/agents/followups.py:12-36 | what a message changes: it counts as newer exactly when it is, and cancels a live row it may cancel |
| FollowUpProtocol.CancelledIsForever | src/benji_api/services/agent_followups.py:198-237 | cancelled is absorbing under all steps of all workers |
| FollowUpProtocol.AttemptsAreBounded | src/benji_api/services/agent_followups.py:136-154 | attempts never exceed the maximum and never decrease |
| FollowUpScheduling.RunKeepsInv | src/benji_api/agents/followups.py:39-77 | over any wakes, claims, messages and whatever policy follow-up wakes are given: one follow-up per run at most, and no chain deeper than the maximum |
| FollowUpScheduling.BreedsExactly | src/benji_api/agents/service.py:640-654 | some history lets a follow-up's run schedule one if and only if its wake passes the permission and a depth below the maximum, so either guard is enough alone |
| FollowUpScheduling.FollowUpsDoNotBreed | src/benji_api/agents/service.py:238-241 | with what the code passes, every stored follow-up of every history comes from a user turn and has depth one |
| FollowUpProtocol.ReplyStoredOnce | src/benji_api/agents/service.py:271-284 | the turn is stored at most once |
| FollowUpProtocol.ReplyIsStillPossibleExactly | src/benji_api/agents/service.py:482-485 | with a newer user message stored, some continuation stores a turn if and only if the row is not cancelled and a worker is past its check |
| FollowUpProtocol.MessageStopsTheReplyExactly | src/benji_api/agents/followups.py:12-36 | a message lets a turn follow it if and only if it finds the row failed or completed with a worker past its check |
| FollowUpProtocol.NoReplyAfterNewerMessage | src/benji_api/agents/service.py:482-485 | so with no takeover before the message, a turn not stored before it is never stored after it |
| FollowUpProtocol.TakeoverCanReplyAfterMessage | src/benji_api/services/agent_followups.py:131-134 | a takeover can break that |
| FollowUpProtocol.CompletedIsFinalExactly | src/benji_api/services/agent_followups.py:198-237 | a completed follow-up stays completed in every continuation if and only if no worker is active on it, which every run without a takeover ensures |
| FollowUpProtocol.TakeoverCanFailACompletedRow | src/benji_api/services/agent_followups.py:225-237 | a run in which a taken-over worker puts a completed row back to failed |
| BuildLoop.DedupedKeepsEach | src/benji_api/app_builder/pipeline.py:468-474 | every distinct issue once |
| BuildLoop.DedupedKeepsOrder | src/benji_api/app_builder/pipeline.py:468-474 | in order of first appearance |
| BuildLoop.SourceGates | src/benji_api/app_builder/pipeline.py:151-181 | a candidate is rejected with the policy's issues when one blocks or the source compiles, with policy and compiler issues when compiling fails |
| BuildLoop.BrowserGates | src/benji_api/app_builder/pipeline.py:169-221 | a clean compiled candidate is rejected with the issues of its browser run, then with those of a review that is due, and accepted only otherwise |
| BuildLoop.NoBrowserGates | src/benji_api/app_builder/pipeline.py:210-221 | without a runner it is accepted unless a run is required |
| BuildLoop.PackingRefuses | src/benji_api/app_builder/pipeline.py:351-460 | a package is refused under the first code that applies, otherwise it is the source, the bundle with the rendered HTML, and whether the run was ready |
| BuildLoop.DiagnosticsAreTheFirstThirty | src/benji_api/app_builder/pipeline.py:517-522 | a clean start gets the earliest thirty distinct issues of all candidates |
| BuildLoop.FingerprintIsPresent | src/benji_api/app_builder/pipeline.py:477-485 | a candidate has a fingerprint exactly when it has an acceptance issue |
| BuildLoop.MarksAdd | src/benji_api/app_builder/pipeline.py:477-485 | which counts each of them once |
| BuildLoop.BlankMeans | src/benji_api/app_builder/pipeline.py:371-371 | exactly the characters that count as blank |
| BuildLoop.WidthIsLeast | src/benji_api/app_builder/pipeline.py:380-380 | a character is counted with the fewest bytes that hold it |
| BuildLoop.Repeated | src/benji_api/app_builder/pipeline.py:222-230 | an acceptance fingerprint counts as repeated exactly when an earlier candidate had it |
| BuildLoop.AppBuildPipeline.Consider | src/benji_api/app_builder/pipeline.py:151-221 | one candidate is rejected with what the gates said, or ends the build as its verdict and packaging say; a packaged one has no policy issue, its own compiled bundle, a ready smoke run when required, a clean visual review when one was due, and HTML that is not blank and within its bound in bytes |
| BuildLoop.AppBuildPipeline.Build | src/benji_api/app_builder/pipeline.py:129-388 | for all oracles: each recorded rejection is what the gates said of that candidate, each request is the right one for it and each later candidate its answer; the build ends given up at its budget or at a repetition after a clean start, without an answer, or with what judging and packaging the last candidate says |
| BuildLoop.BuildIsDetermined | src/benji_api/app_builder/pipeline.py:129-388 | that leaves no freedom: the oracles determine the candidates, rejections, requests, reviews and the result |
| BuildLoop.ReviewsAreBounded | src/benji_api/app_builder/pipeline.py:163-199 | the visual reviews made never exceed their budget, the last candidate's included |
| BuildLoop.RepairsOnlyNewFailures | src/benji_api/app_builder/pipeline.py:222-281 | a local repair is asked only for a candidate the gates rejected, with what they said, and never for acceptance failures an earlier candidate was rejected for; a clean start happens once, after a repeat |
| Delivery.FinalStatus | src/benji_api/services/channels.py:135-162 | the status after any sequence of webhook and sender writes, in closed form |
| Delivery.WebhookWrites | src/benji_api/services/channels.py:133-162 | what each event does to every field of the row |
| Delivery.SenderWrites | src/benji_api/agents/channel_delivery.py:272-301 | what the sender's success and failure do to it |
| Delivery.Confluent | src/benji_api/services/channels.py:135-162 | with a delivered or read report, every order and repetition of the same reports ends alike |
| Delivery.OrderMattersExactly | src/benji_api/services/channels.py:135-162 | exactly when the order decides |
| Delivery.TimesStick | src/benji_api/services/channels.py:136-146 | the first time reported for a stage is kept |
| Delivery.RunsAreBacked | src/benji_api/services/channels.py:135-150 | sent, delivered and read are backed by their timestamps |
| Delivery.KeysDiffer | src/benji_api/agents/channel_delivery.py:162-163 | different bubbles of a turn have different delivery keys |
| DeliverySender.MessageDelivery.AdvanceStatus | src/benji_api/services/channels.py:153-162 | the status only moves up |
| DeliverySender.MessageDelivery.ApplyLifecycleEvent | src/benji_api/services/channels.py:133-150 | a webhook writes the row as specified and never lowers an arrived one |
| DeliverySender.MessageDelivery.MarkOutboundFailed | src/benji_api/agents/channel_delivery.py:272-283 | an arrived delivery is not failed |
| DeliverySender.MessageDelivery.MarkOutboundSent | src/benji_api/agents/channel_delivery.py:286-301 | at least sent afterwards, never lowered |
| DeliverySender.DeliveryTable.CreateOutboundDelivery | src/benji_api/agents/channel_delivery.py:115-146 | the one row of the key, created when missing |
| DeliverySender.DeliveryTable.DeliverReplies | src/benji_api/agents/channel_delivery.py:149-194 | a pass that does not raise leaves every bubble handled |
| DeliverySender.BubbleWrites | src/benji_api/agents/channel_delivery.py:115-194 | one bubble leaves its row, created when missing, sent or failed as the provider answered if it was waiting, and touches no other |
| DeliverySender.PassSendsTheRemaining | src/benji_api/agents/channel_delivery.py:162-194 | a pass sends exactly the bubbles still to be sent, in order, up to the first refusal, and raises exactly then |
| DeliverySender.RerunSendsNothing | src/benji_api/agents/channel_delivery.py:171-172 | a rerun after a complete pass sends and changes nothing |
| OrderedSending.RunKeepsInv | src/benji_api/agents/channel_delivery.py:115-194 | the invariant holds over all crashes, failures, reruns and webhooks |
| OrderedSending.BubblesGoOutInOrder | src/benji_api/agents/channel_delivery.py:162-194 | a bubble is handed over only after every earlier one was requested and accepted |
| OrderedSending.OneKeyPerBubble | src/benji_api/agents/channel_delivery.py:163-185 | all requests of a bubble use one key, different bubbles different ones |
| OrderedSending.OneRowPerKey | src/benji_api/agents/channel_delivery.py:115-146 | one delivery row per key |
| OrderedSending.DoneMeansAllAccepted | src/benji_api/agents/channel_delivery.py:162-194 | a finished run left every bubble accepted |
| OrderedSending.ArrivedIsNeverSentAgain | src/benji_api/agents/channel_delivery.py:248-258 | no send ever starts again for a bubble that has arrived |
| OrderedSending.NeverSentAgainExactly | src/benji_api/agents/channel_delivery.py:162-194 | from any state of any run, no continuation requests the bubble again if and only if its row has arrived and no run is between its check and its request |
| OrderedSending.OverlappingRunsMaySendTwice | src/benji_api/agents/channel_delivery.py:164-185 | two overlapping runs that both request a bubble |
| OrderedSending.CrashedRunIsRepeated | src/benji_api/agents/channel_delivery.py:164-185 | one run that dies after its request, and a bubble that is requested again |
| RateLimiter.AuthEligibilityRateLimiter.Prune | src/benji_api/services/auth_rate_limit.py:58-62 | the deque stays the unpruned suffix of the admitted times |
| RateLimiter.AuthEligibilityRateLimiter.Check | src/benji_api/services/auth_rate_limit.py:48-67 | the decision equals counting over the full log for all three rules, a rejection consumes no quota, the wait is exact |
| RateLimiter.NoWindowOverflows | src/benji_api/services/auth_rate_limit.py:40-67 | no window of a rule's length, wherever it ends, ever holds more than the limit |
| RateLimiter.RetryAfterIsExact | src/benji_api/services/auth_rate_limit.py:63-65 | the least whole number of seconds, at least one, after which the rule admits again |
| RateLimiter.PrunedIsTheWindow | src/benji_api/services/auth_rate_limit.py:59-63 | a pruned deque's length is the count over the full log |
| RateLimiter.ScopesAreSeparate | src/benji_api/services/auth_rate_limit.py:52-56 | rules and subjects never share a deque |
| RateLimitRules.AllowedMeans | src/benji_api/services/auth_rate_limit.py:33-67 | allowed exactly when the client had fewer admitted checks than its limits in the last minute and hour and the identifier fewer than its own in the last hour |
| SplitExpenses.CollectUniqueTexts | src/benji_api/services/generated_app_specs.py:888-905 | cleaned names without repetitions up to case, or refused |
| SplitRules.UniqueTextsMean | src/benji_api/services/generated_app_specs.py:888-905 | names are accepted exactly when each is a text of 1 to 80 characters once cleaned; each is there up to case, once only |
| SplitRules.UniqueTextsKeepOrder | src/benji_api/services/generated_app_specs.py:888-905 | in order of first appearance |
| SplitRules.ParticipantMeans | src/benji_api/services/generated_app_specs.py:234-238 | a participant has a name and nothing else, in split mode only |
| SplitRules.ExpenseMeans | src/benji_api/services/generated_app_specs.py:241-271 | exactly which expenses are accepted in either mode, and every field that is stored |
| SplitRules.ModulesMean | src/benji_api/services/generated_app_specs.py:681-705 | exactly which module a record goes to, with and without a module id |
| SplitRules.SplitMeans | src/benji_api/services/generated_apps.py:815-830 | in which modules expenses need participants |
| SplitRules.ValidatorsMean | src/benji_api/services/generated_app_specs.py:708-720 | which validator applies to a record |
| SplitExpenses.CheckedMeans | src/benji_api/services/generated_apps.py:772-831 | what a passed check has established |
| SplitRules.CheckedExactly | src/benji_api/services/generated_apps.py:772-831 | a record passes exactly when its module is found, its validator accepts it, its name is free and its people are participants |
| SplitRules.ChangesMean | src/benji_api/services/generated_apps.py:457-610 | exactly when a create, update or delete is refused, and otherwise the whole store after it |
| SplitExpenses.RunKeepsInv | src/benji_api/services/generated_apps.py:457-623 | after any creates, updates and deletes every split expense's people are participants of its module and names are unique up to case |
| SplitExpenses.DeletableExactly | src/benji_api/services/generated_apps.py:598-623 | a participant is deletable exactly when the invariant survives its removal |
| SplitExpenses.RecordStore.Create | src/benji_api/services/generated_apps.py:457-490 | a checked record is stored, otherwise nothing changes |
| SplitExpenses.RecordStore.Update | src/benji_api/services/generated_apps.py:526-560 | merged, checked, and no rename of a referenced participant |
| SplitExpenses.RecordStore.Delete | src/benji_api/services/generated_apps.py:592-610 | no delete of a referenced participant |
| SplitSeeding.CreateRecords | src/benji_api/services/generated_apps.py:242-262 | the app gets one record per seed and the invariant, or nothing |
| SplitSeeding.SeedingSucceedsExactly | src/benji_api/services/generated_apps.py:242-262 | seeding succeeds exactly when the bag of seeds is acceptable |
| SplitSeeding.OrderOfSeedsIsIrrelevant | src/benji_api/services/generated_apps.py:243-243 | the order of the seeds never matters, expenses may come first |
| CanonicalMigration.Earliest | migrations/versions/20260809_0005_canonical_conversations.py:166-167 | the earliest conversation by time, then id |
| CanonicalMigration.Database.PlanChannels | migrations/versions/20260809_0005_canonical_conversations.py:157-191 | one survivor per user with the latest update, one channel per old conversation |
| CanonicalMigration.Database.MoveMessages | migrations/versions/20260809_0005_canonical_conversations.py:193-241 | messages move, outbound ids and statuses become deliveries |
| CanonicalMigration.Database.MergeConversations | migrations/versions/20260809_0005_canonical_conversations.py:242-255 | runs and channels are repointed, the others deleted, nothing lost |
| CanonicalMigration.Database.Upgrade | migrations/versions/20260809_0005_canonical_conversations.py:157-262 | the whole data part, table by table |
| MigrationRoundTrip.ConversationColumns | migrations/versions/20260809_0005_canonical_conversations.py:163-177 | which conversations are left, and each of their columns |
| MigrationRoundTrip.ChannelColumns | migrations/versions/20260809_0005_canonical_conversations.py:174-191 | each column of the channel of an old conversation |
| MigrationRoundTrip.MessageColumns | migrations/versions/20260809_0005_canonical_conversations.py:193-241 | each column of every message after the upgrade, by its direction |
| MigrationRoundTrip.DeliveryColumns | migrations/versions/20260809_0005_canonical_conversations.py:207-241 | exactly which message has a delivery, and each of its columns |
| MigrationRoundTrip.OneConversationPerUser | migrations/versions/20260809_0005_canonical_conversations.py:165-177 | each user keeps exactly one conversation, the earliest |
| MigrationRoundTrip.ChannelsAreTheOldConversations | migrations/versions/20260809_0005_canonical_conversations.py:174-191 | channels are in bijection with old conversations |
| MigrationRoundTrip.NothingDangles | migrations/versions/20260809_0005_canonical_conversations.py:193-257 | no message or run is lost, and each message's conversation is its channel's |
| MigrationRoundTrip.OneDeliveryPerOutbound | migrations/versions/20260809_0005_canonical_conversations.py:207-241 | exactly one delivery per outbound message, with its old ids |
| MigrationRoundTrip.NewConstraintsHold | migrations/versions/20260809_0005_canonical_conversations.py:35-92 | the new unique constraints are met |
| MigrationRoundTrip.Downgrade | migrations/versions/20260809_0005_canonical_conversations.py:343-392 | each conversation gets its preferred channel's ids, each message its delivery's; it fails only for a conversation without a channel |
| MigrationRoundTrip.DowngradedConversation | migrations/versions/20260809_0005_canonical_conversations.py:350-368 | the provider columns come from a Linq channel if there is any, of those the oldest, of those the smallest id |
| MigrationRoundTrip.DowngradedColumns | migrations/versions/20260809_0005_canonical_conversations.py:370-392 | each column of every message after the downgrade, from its delivery or by its direction |
| MigrationRoundTrip.MessagesRoundTrip | migrations/versions/20260809_0005_canonical_conversations.py:370-392 | external ids, times and allowed outbound statuses come back |
| MigrationRoundTrip.ProviderIdsRestoredExactly | migrations/versions/20260809_0005_canonical_conversations.py:350-368 | exactly when a conversation gets its own ids back |
| MigrationRoundTrip.ConversationReturnsExactly | migrations/versions/20260809_0005_canonical_conversations.py:350-368 | a conversation comes back with all fields but the status if and only if it is its user's earliest, its channel is the preferred one and it was updated last |
| MigrationRoundTrip.ConversationsRoundTrip | migrations/versions/20260809_0005_canonical_conversations.py:350-368 | so with one conversation per user all of them do |
| MigrationRoundTrip.MessageReturnsExactly | migrations/versions/20260809_0005_canonical_conversations.py:370-392 | a message returns to its own conversation, with all it can have back, if and only if that conversation is its user's earliest |
| MigrationRoundTrip.MessagesReturn | migrations/versions/20260809_0005_canonical_conversations.py:370-392 | so with one conversation per user every message does |
| Delimiters.BalancedIsDerivable | src/benji_api/app_builder/policy.py:215-239 | the checker accepts exactly the texts of the grammar |
| Delimiters.DerivationIsUnique | src/benji_api/app_builder/policy.py:215-239 | a text has at most one derivation |
| Delimiters.ScannedIsCompletable | src/benji_api/app_builder/policy.py:232-236 | a text can be completed exactly when no bracket was mismatched |
| Delimiters.BalancedDelimiterIssues | src/benji_api/app_builder/policy.py:215-239 | no issue exactly for the grammar; each of the two complaints exactly when it applies |
| Waitlist.InsertKeepsValid | src/benji_api/services/waitlist.py:58-66 | inserts keep the unique and referral constraints |
| Waitlist.ChainsGoBack | src/benji_api/services/waitlist.py:46-62 | referral links are acyclic |
| Waitlist.CountsAddUp | src/benji_api/services/waitlist.py:117-125 | referral counts sum to the number of referred entries |
| Waitlist.PositionsArePermutation | src/benji_api/services/waitlist.py:126-145 | positions are a permutation of 1..n |
| Waitlist.PositionCounts | src/benji_api/services/waitlist.py:130-141 | a position is one more than the number of entries ranked before |
| Waitlist.ReferrerNeverFallsBack | src/benji_api/services/waitlist.py:117-145 | a join never costs its referrer a place |
| Waitlist.OthersMoveBackAtMost | src/benji_api/services/waitlist.py:117-145 | exactly how far anyone else moves back |
| Waitlist.LaterJoinIsLast | src/benji_api/services/waitlist.py:130-141 | a later join is last and costs others at most one place |
| Waitlist.WaitlistTable.Join | src/benji_api/services/waitlist.py:27-80 | one entry per email whatever other sessions insert, at most five attempts, and an exact result |
| Waitlist.ReferrerOwnsTheCode | src/benji_api/services/waitlist.py:46-62 | a join is credited to the one entry that owns the code, and to nobody without one |

## Left out

- The polling and heartbeat loops of the tool-call journal as program loops: other executors act between their transactions, so their steps are actions of the state machine; sleeps are left out.
- Tool argument checks and the tools themselves: a tool call is an arbitrary outcome or a crash. Stored rows always hold a well-formed output.
- FinancialSync.Connection.RemoveTransaction: the removal is a flag, its timestamp is not modelled; amounts and dates are exact numbers and the remaining fields one opaque text.
- FinancialSync.LoadOnce: the provider always returns the next cursor, cursors are positions in its log, and past the end it serves an empty page.
- FinancialRepair.LedgerIsRightExactly: speaks about logs whose every transaction is accepted with its own page's account list; for others `FinancialLedger.BatchingMattersExactly` says when cutting them into syncs matters.
- Other connections of the same provider: transactions are looked up by provider id alone in the source.
- Embeddings, sensitivity, kind and metadata of facts, verified tool results and the job queue of the memory worker; canonical keys are given with each mention.
- MemoryRetrieval.Retrieve: scores and relevance floors are arbitrary functions, and the rows the SQL queries return are parameters.
- MemoryHistory.SupersedeRetires: the end date of the old fact is stated through the start of the new one.
- FollowUps.FollowUpTable.Claim: rows skipped because another worker has them locked are not offered; with none locked the earliest is taken.
- Typing indicators, pacing delays, channel lookup details and opt-out changes other than opting out.
- BuildLoop.AppBuildPipeline.Build: the deadline is a failing stage, metrics and log lines are left out, the order of files and the digests of the artifact are left out.
- BuildLoop.Repeated: a fingerprint is a bag of marks instead of a sorted tuple of them; the scope of an issue is an arbitrary function.
- DeliverySender.MessageDelivery.ApplyLifecycleEvent: which row a webhook addresses is given; the payload of the row is left out.
- OrderedSending.BubblesGoOutInOrder: the provider reports sent, delivered and read only for bubbles it accepted, and keys of other turns are different.
- Native reactions, which use the same rows and are sent once.
- RateLimiter.AuthEligibilityRateLimiter.Check: times are real numbers and subjects are digests already; the clock does not go back.
- SplitExpenses.RecordStore.Update: of the legacy templates only the expense splitter, which can edit nothing; access rules and versions are left out.
- Rewriting of group handles in seeds before they are checked.
- CanonicalMigration.Database.Upgrade: schema changes are modelled by the columns they empty; ids are numbers whose order is the text order of UUIDs.
- MigrationRoundTrip.Downgrade: when several deliveries belong to one message, any one of them may be the one that counts.
- Waitlist.WaitlistTable.Join: emails and codes are normalised already, the marketing fields are left out, and an entry is never deleted.
- Model, search, mail and bank clients, encryption, token handling, prompts, schemas and HTTP routing.
