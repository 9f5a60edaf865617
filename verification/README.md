# Task service: verified model

The service keeps teams, tasks and an audit trail in MySQL and caches task lists in Redis. This project models the
parts whose correctness is not visible in any one function, and proves what they guarantee together:

- **Keys** (`Decimal`, `KeyCodec`): cache keys as real text, printed and read back over all 64-bit integers.
- **Cache protocol** (`Redis`, `CacheCommands`, `Protocol*`): list, create and update requests cut at every round trip
  and interleaved at will, with failing Redis commands, requests that stop, and a running clock. The theorems say what a
  cached list can be, classify every stale one, and give the condition under which none is.
- **Serial service** (`TaskStore`, `TeamStore`, `Repositories`, `Cache`, `ServiceSpec`, `Services`, `SerialRefinement`):
  repositories, cache and services as classes changed in place, proved equal to specification functions, and the cached
  service proved to refine the one without a cache (`StatusAll`: except for the status "all"). `ProtocolSerial` ties the two views: the events of one request, run
  without interruption, are the whole call.
- **Audit trail** (`Text`, `AuditDiff`, `AuditRuns`, `ConcurrentUpdates`): the partial update as a patch that replays and
  rewinds, over whole runs, and exactly when this survives concurrent updates.
- **Analytics** (`Relational`, `TeamStats`, `TopCreators`): two queries evaluated join by join and proved to mean what
  their reports are for.
- **Membership** (`Membership`): team creation and invitations, interleaved.

Every method of a class states its result and its whole new state through a function of the old state; the properties
are proved about those functions. `CallAnswers` says what each call answers and stores in the words of the request and
the tables alone, every error included. Clocks, user lookups, mail and every failure of the outside world are inputs.

Assumptions. Every run starts from an empty keyspace. The cache lifetime is a positive whole number of seconds
(`config.yaml:21`; the list gets it with SET and the key set with EXPIRE). Clocks do not run backwards. EXEC is atomic. A task list survives JSON unchanged. Teams that
reach the cache have positive identifiers (`internal/transport/http/handlers.go:169-173`,
`migrations/000001_init.up.sql:14`) and list requests never ask for the status "all"
(`internal/transport/http/handlers.go:174-182`). A Redis command that fails has no effect; one that took effect although it
was reported failed is the successful command of the model, since the service only logs the error of a SET or an
invalidation.

What the code does that its comments and README do not say:

- `README.md:51` promises invalidation on changes. `StaleClassified` lists the four ways in which a list outlives a commit,
  `EveryCauseOccurs` gives a run for each, and `EntryCoherent` the condition on the one list that rules them all out.
- `internal/cache/cache.go:67-68` promises that a registered list can be invalidated. `TrackedExactly` says exactly which
  lists stay registered and `SurvivesExactly` exactly which ones an invalidation leaves behind: those stored between the
  two round trips of an earlier one.
- A filter without a status and a filter for the status "all" print the same key. `KeyCollision` says exactly when two
  filters do, and `AllPoisons` what that costs a caller who gets past the handler's check.
- `TaskService.Update` reads the row outside the transaction that writes it. `CommitPatches` says exactly when the audit
  trail is still a patch, and `LostUpdate` gives a run in which it is not.
- `TaskService.Create` answers with zero times and `TaskService.Update` with the old time of change, not the stored ones;
  `UpdateIdempotent` and `ReplayFromCreation` are stated accordingly.

## Model

| member | source | states |
|---|---|---|
| Decimal.FormatParse | internal/cache/cache.go:112-116 | reading a printed integer gives it back, over the whole signed 64-bit range |
| Decimal.FormatInjective | internal/cache/cache.go:42-45 | different integers print differently |
| Decimal.ParseIntMeans | internal/cache/cache.go:112-115 | the texts read as a number: digits with at most one sign, within 64 bits |
| Decimal.Spelled | internal/service/task.go:153 | numbers print in base ten, most significant digit first |
| KeyCodec.IndexOf | internal/cache/cache.go:108-111 | the first colon, or none |
| KeyCodec.KeySpelling | internal/cache/cache.go:35-46 | the list key read from left to right, with "all" for what the filter leaves open |
| KeyCodec.SetKeySpelling | internal/cache/cache.go:48-50 | the set key read from left to right |
| KeyCodec.KeyCollision | internal/cache/cache.go:35-46 | two filters share a key if and only if they agree in team, assignee, limit, offset and status, up to an absent status against "all"; status text may hold colons |
| KeyCodec.KeyInjective | internal/cache/cache.go:35-46 | keys identify filters whose status is not "all" |
| KeyCodec.AllCollides | internal/cache/cache.go:36-39 | the colliding pair the previous condition shuts out |
| KeyCodec.KeySpacesDisjoint | internal/cache/cache.go:35-50 | no list key is ever a team's set key |
| KeyCodec.SetKeyInjective | internal/cache/cache.go:48-50 | different teams have different key sets |
| KeyCodec.TeamRoundTrip | internal/cache/cache.go:102-117 | the team is read back from every list key and every set key |
| KeyCodec.TeamReadFromAnyText | internal/cache/cache.go:102-117 | on arbitrary text a team is reported if and only if the text spells it before its first colon |
| Text.TrimSpaceEnds | internal/service/task.go:128 | trimmed text has no white space at its ends, and exactly trimmed text is left alone |
| Text.TrimSpaceCuts | internal/service/task.go:44 | only white space is removed, and only at the ends |
| Text.TrimSpaceUnique | internal/service/task.go:128 | there is exactly one way to cut white space from both ends, and this is it |
| Text.BlankTrims | internal/service/task.go:129-131 | nothing is left exactly of white space |
| Text.SpaceCharacters | internal/service/task.go:44 | the characters that count as white space, one by one |
| CacheCommands.SetTasksWrites | internal/cache/cache.go:69-83 | storing a list changes two cells: the list, and the team's live key set grown by its name, both with a full new lifetime |
| CacheCommands.SetTasksUntracked | internal/cache/cache.go:74-80 | a name without a positive team is stored and no key set is touched |
| CacheCommands.SetThenGet | internal/cache/cache.go:52-83 | a stored list is read back until its lifetime is over and is a miss from then on |
| CacheCommands.SetTasksSorted | internal/cache/cache.go:74-80 | after it, lists and key sets still sit under names of their own kind and a key set names lists of its team only |
| CacheCommands.CollectsOwnKeys | internal/cache/cache.go:87-91 | SMEMBERS of a team's key set cannot fail with a type error and returns names of that team only |
| CacheCommands.DeleteKeysLeaves | internal/cache/cache.go:92-98 | the deletion removes the collected names and the key set, nothing else |
| Cache.RedisCache.constructor | internal/cache/cache.go:31-33 | attaches to whatever keyspace the server holds |
| Cache.RedisCache.GetTasks | internal/cache/cache.go:52-65 | rows if and only if a list is stored under the key and has not expired, and then those rows; a miss if and only if nothing lives there; an error reads as neither |
| Cache.RedisCache.Exec | internal/cache/cache.go:81 | the queued commands take effect in order, all of them or none |
| Cache.RedisCache.SetTasks | internal/cache/cache.go:69-83 | the queue built command by command has the effect that SetTasksWrites describes |
| Cache.RedisCache.InvalidateTeam | internal/cache/cache.go:86-99 | collect then delete; a failure of either round trip changes nothing |
| ProtocolSerial.ListIsSteps | internal/service/task.go:74-95 | GET, SELECT and SET run in a row have the answer and the keyspace of the whole List |
| ProtocolSerial.InvalidateIsSteps | internal/cache/cache.go:86-99 | SMEMBERS and DEL run in a row are the whole InvalidateTeam, failures included |
| ProtocolSerial.CreateIsSteps | internal/service/task.go:40-70 | commit and invalidation run in a row are the whole Create |
| ProtocolSerial.UpdateIsSteps | internal/service/task.go:109-175 | snapshot, commit and invalidation run in a row are the whole writing Update |
| ProtocolInvariant.SetKeepsTracked | internal/cache/cache.go:77-80 | storing one list keeps every other live list of every team tracked for as long as it lives |
| ProtocolInvariant.CollectSees | internal/cache/cache.go:88 | SMEMBERS returns every live list of the team that no earlier invalidation dropped |
| ProtocolInvariant.Survivors | internal/cache/cache.go:92-98 | a live list of the team that survives the DEL was stored after the SMEMBERS or dropped before it |
| ProtocolInvariant.DeleteOtherTeam | internal/cache/cache.go:92-98 | invalidating one team leaves the tracking of every other team intact |
| ProtocolInvariant.InvStep | internal/service/task.go:74-95 | each of the thirteen events keeps tracking, collection and the explanation of every missed commit |
| ProtocolInvariant.InvHolds | internal/service/task.go:74-95 | the invariant holds at the end of every interleaved run |
| ProtocolTheorems.Provenance | internal/service/task.go:74-95 | in every interleaving, a list handed out is the exact answer to its filter in some state of the run, holds only rows of the team, status and assignee asked for, and if cached was stored less than one lifetime before it was served |
| ProtocolTheorems.LifetimeClears | internal/cache/cache.go:76 | when one lifetime passes with nothing stored, no list is served from the cache |
| ProtocolTheorems.AnswerChangesByCommit | internal/service/task.go:64-68 | between two states of a run the answer to a filter changes only by a commit to its team |
| ProtocolTheorems.StaleClassified | internal/cache/cache.go:86-99 | a stale list missed a commit of its team, and each commit it missed is still to be invalidated, failed to be, was straddled by the request that stored the list, or came after the list was dropped from its key set |
| ProtocolTheorems.CauseDisturbs | internal/service/task.go:80-93 | each of those causes means an unfinished invalidation or an overlap of a read-to-set window with a commit-to-delete window |
| ProtocolTheorems.EntryCoherent | internal/service/task.go:80-93 | a cached list is the current answer when every commit it missed has been invalidated and it overlaps no invalidation of its team, whatever happened to other lists or to earlier versions of it |
| ProtocolTheorems.Heals | internal/service/task.go:80-93 | only lists stored less than one lifetime ago matter: older overlaps and failed invalidations leave no trace |
| ProtocolTheorems.Coherence | internal/service/task.go:80-93 | hence, with every writer of the team finished and no overlap at all, every cached list of the team is the current answer, however the writers overlapped each other |
| ProtocolTracking.UntracksHolds | internal/cache/cache.go:77-80 | over every run, a live list that an invalidation dropped is in no key set, whatever is stored afterwards |
| ProtocolTracking.TrackedExactly | internal/cache/cache.go:67-83 | a live list is in its team's key set if and only if it was not stored between the two round trips of an invalidation; the set then outlives it, and names lists of this team only |
| ProtocolTracking.StraightThrough | internal/cache/cache.go:86-99 | SMEMBERS and DEL in a row can always proceed and delete what is tracked, the key set and nothing else |
| ProtocolTracking.SurvivesExactly | internal/cache/cache.go:86-99 | a live list of the team survives such an invalidation if and only if an earlier one dropped it; lists of other teams always do |
| ProtocolTracking.TrackedUnlessInside | internal/cache/cache.go:69-83 | hence, if no list of the team was stored inside an invalidation, every live list is in its key set |
| ProtocolTracking.InvalidationExact | internal/cache/cache.go:86-99 | and an invalidation removes every live list of its team and none of another's |
| ProtocolWitnesses.EveryCauseOccurs | internal/cache/cache.go:86-99 | for each cause there is a run ending with a list that is stale for that cause alone |
| ProtocolWitnesses.CommitAfterFill | internal/service/task.go:199-203 | the run in which a stored list waits for an invalidation that is still to come or has failed |
| ProtocolWitnesses.FillAcross | internal/service/task.go:87-91 | the run in which old rows are stored after the invalidation |
| ProtocolWitnesses.SetInside | internal/cache/cache.go:88-97 | the run in which a list is stored between SMEMBERS and DEL, so that it stays while its key set goes |
| ProtocolWitnesses.DropThenMiss | internal/cache/cache.go:88-97 | the run in which a list stored between SMEMBERS and DEL is lost to the next invalidation |
| TaskStore.WhereMeans | internal/repository/task_repo.go:49-60 | a condition list that says what the filter says selects what the filter selects |
| TaskStore.AllRowsMeans | internal/repository/task_repo.go:48-68 | the selection holds exactly the rows of the team, status and assignee asked for, in strictly descending identifier order |
| TaskStore.SelectionUnique | internal/repository/task_repo.go:60 | order and contents determine a selection |
| TaskStore.PagesTile | internal/repository/task_repo.go:60-61 | the pages from any offset on concatenate to the rest of the selection: no gap, no repeat |
| TaskStore.WalkLength | internal/repository/task_repo.go:60-61 | the walk ends after exactly as many pages as the rows left need |
| TaskStore.InsertTaskKeeps | internal/repository/task_repo.go:22-31 | a new task gets a fresh identifier and leaves the audit log alone |
| TaskStore.InsertTaskFrame | internal/repository/task_repo.go:22-31 | a new task changes no list of another team |
| TaskStore.UpdateRowKeeps | internal/repository/task_repo.go:78-81 | an update keeps identity, team, creator and creation time, and every other row |
| TaskStore.UpdateRowFrame | internal/repository/task_repo.go:78-81 | an update changes no list of another team |
| TaskStore.InsertAllKeeps | internal/repository/task_repo.go:86-94 | the audit rows are appended in order with fresh identifiers and the time of the transaction |
| TaskStore.UpdateWithHistoryAtomic | internal/repository/task_repo.go:71-96 | at every failure point of every history length both tables are unchanged, and without one both are written |
| TaskStore.HistoryMeans | internal/repository/task_repo.go:98-107 | the history holds exactly the audit rows of the task, each once, no row before a newer one |
| TaskStore.HistoryIsReversedLog | internal/repository/task_repo.go:98-107 | ordering by time and identifier descending is the write order reversed, even with equal times |
| TeamStore.CreateWithOwnerAtomic | internal/repository/team_repo.go:25-46 | a fresh team together with its owner, or neither, and which of the two |
| Repositories.TaskRepo.Create | internal/repository/task_repo.go:22-31 | inserts under the next identifier, or changes nothing |
| Repositories.TaskRepo.GetByID | internal/repository/task_repo.go:33-45 | the row, not-found, or a database error |
| Repositories.TaskRepo.List | internal/repository/task_repo.go:48-68 | the conditions collected step by step give the page of the filter, whose rows have the team, status and assignee asked for |
| Repositories.TaskRepo.History | internal/repository/task_repo.go:98-107 | the rows collected one by one are exactly the audit rows of the task, each once, no row before a newer one |
| Repositories.TaskRepo.Begin | internal/repository/task_repo.go:72-75 | remembers the tables to return to |
| Repositories.TaskRepo.Rollback | internal/repository/task_repo.go:76 | restores the tables of an open transaction but not its identifier counter, and does nothing after a commit |
| Repositories.TaskRepo.Commit | internal/repository/task_repo.go:95 | closes the transaction and leaves the tables as written |
| Repositories.TaskRepo.UpdateWithHistory | internal/repository/task_repo.go:71-96 | the transaction run statement by statement, with its loop of inserts, is the all-or-nothing update |
| Repositories.TeamRepo.GetMember | internal/repository/team_repo.go:62-74 | the membership row, not-found, or a database error |
| Repositories.TeamRepo.AddMember | internal/repository/team_repo.go:76-87 | adds the row, or reports a conflict and changes nothing |
| Repositories.TeamRepo.Rollback | internal/repository/team_repo.go:94-97 | restores the tables but not the identifier counter |
| Repositories.TeamRepo.InsertTeamAndOwner | internal/repository/team_repo.go:27-44 | the callback: which rows are in place at each way out |
| Repositories.TeamRepo.CreateWithOwner | internal/repository/team_repo.go:25-46 | begin, callback, rollback or commit together are the all-or-nothing creation |
| Services.NormalizeFilter | internal/service/task.go:205-215 | 20 rows without a limit, 100 when more are asked for, otherwise the limit; no negative offset |
| Services.TaskService.RequireMember | internal/service/task.go:188-197 | a missing membership is "forbidden", other errors pass through |
| Services.TaskService.Invalidate | internal/service/task.go:199-203 | a failed invalidation is swallowed |
| Services.TaskService.Create | internal/service/task.go:40-70 | tables, answer and keyspace after the call, every error case included |
| Services.TaskService.List | internal/service/task.go:74-95 | answer and keyspace after the call; failures of the cache never reach the caller |
| Services.TaskService.Update | internal/service/task.go:109-175 | tables, answer and keyspace after the call; nothing is written or invalidated when nothing changed |
| Services.TaskService.History | internal/service/task.go:177-186 | the audit trail, behind the membership check |
| Services.TeamService.Create | internal/service/team.go:23-33 | a trimmed, non-empty name and the all-or-nothing creation |
| Services.TeamService.Invite | internal/service/team.go:49-90 | the order of the guards, their errors, and a membership that stays when the mail fails |
| CallAnswers.CreateAnswer | internal/service/task.go:40-66 | when a creation succeeds, and exactly when each error comes |
| CallAnswers.CreateStored | internal/service/task.go:44-69 | the created task field by field from the request, "todo" without a status; what is stored, and the team invalidated |
| CallAnswers.UpdateAnswer | internal/service/task.go:109-172 | when an update succeeds, at every failure point of its transaction, and exactly when each error comes |
| CallAnswers.UpdateStored | internal/service/task.go:109-175 | the answered row has each column as requested, unset before assign, and the rest unchanged; the stored row and audit rows spelled out; nothing written or invalidated when nothing changed |
| CallAnswers.ListAnswer | internal/service/task.go:74-95 | when a list is answered, exactly when each error comes, and that the answer is the page, 20 rows unless a limit is given, of exactly the rows of the team, status and assignee asked for |
| CallAnswers.CachedListAnswer | internal/service/task.go:74-95 | the same of the service with a cache, hit or miss |
| CallAnswers.RunListAnswer | internal/service/task.go:74-95 | hence of every list answered in every clean run of the cached service |
| CallAnswers.HistoryAnswer | internal/service/task.go:177-186 | when a history is answered, exactly when each error comes, and that the answer is the history of the task asked for |
| CallAnswers.HistoryReplays | internal/service/task.go:177-186 | in every run, the answer to a history request, read backwards, replays the row as created into the row of that moment and rewinds it |
| CallAnswers.InviteAnswer | internal/service/team.go:49-90 | the roster changes only when an owner or admin invites somebody new, by that member with the role given or "member"; exactly when each error comes |
| CallAnswers.CreateTeamAnswer | internal/service/team.go:23-33 | when a team is created, and that it is stored under its trimmed name with its creator as owner |
| SerialRefinement.HitCorrect | internal/service/task.go:80-85 | in a right cache a hit is the current answer |
| SerialRefinement.FillKeeps | internal/service/task.go:87-93 | storing the current answer keeps the cache right |
| SerialRefinement.WriteKeeps | internal/service/task.go:199-203 | a write to one team followed by its invalidation keeps the cache right |
| SerialRefinement.CachedStepRefines | internal/service/task.go:40-203 | one call of any kind: the tables and the answer of the service without a cache, where a hit answers as if the database were up, and a cache that is still right |
| SerialRefinement.CachedRunRefines | internal/service/task.go:40-203 | over every serial run with any failures but those of invalidation and any passage of time, tables and answers are those of the service without a cache, except that a hit is answered while the database is down |
| SerialRefinement.CachedRunEquals | internal/service/task.go:40-203 | with the database answering the lists, tables and answers are equal, one by one |
| SerialRefinement.OutsidersRefused | internal/service/task.go:188-197 | whatever the cache holds, a caller outside the team is refused and changes nothing |
| StatusAll.ServedToBoth | internal/cache/cache.go:35-46 | rows stored for one filter are served to any filter that prints the same key |
| StatusAll.AllPoisons | internal/cache/cache.go:36-39 | a stored list for the status "all" empties the unfiltered list of the same page, and the other way round its rows are served to "all"; right if and only if the unfiltered page is empty |
| AuditDiff.ComputeEdit | internal/service/task.go:118-165 | comparing field by field and collecting rows gives the requested row and one audit row per changed column |
| AuditDiff.DiffExact | internal/service/task.go:118-165 | at most one audit row per column, in column order, exactly for the columns that changed, each with differing old and new text |
| AuditDiff.DiffInvertible | internal/service/task.go:118-165 | the audit rows applied forwards give the stored row and backwards the snapshot |
| AuditDiff.DiffIdempotent | internal/service/task.go:128-165 | the request applied to its own result changes nothing and writes no audit row |
| AuditDiff.NoChangeNoHistory | internal/service/task.go:167-169 | no audit rows if and only if the row is unchanged |
| AuditDiff.AssigneeTextsAgree | internal/service/task.go:151-165 | comparing stored texts is comparing assignees: the empty text is nobody |
| AuditDiff.RewindUndoesReplay | internal/service/task.go:120-126 | rewinding a chained log undoes replaying it |
| AuditDiff.FieldChains | internal/service/task.go:120-126 | consecutive audit rows of one column chain: new value of one, old value of the next |
| AuditDiff.FirstOfField | internal/service/task.go:120-126 | the first audit row of a column starts from the row it is replayed over |
| AuditRuns.UpdateStores | internal/service/task.go:170-174 | what a writing update leaves in both tables, and its answer |
| AuditRuns.UpdateLeaves | internal/service/task.go:109-172 | every other outcome leaves both tables alone |
| AuditRuns.UpdateIdempotent | internal/service/task.go:109-175 | the repeated update returns the stored row, writes nothing and leaves every keyspace alone |
| AuditRuns.CreationRow | internal/service/task.go:55-70 | a created task is stored as asked under a new identifier with an empty log |
| AuditRuns.RunGrows | internal/service/task.go:109-175 | over every run the log only grows and no row changes identity, team, creator or creation time |
| AuditRuns.RunPatches | internal/service/task.go:118-170 | between any two points of any run the audit rows of a task are a chained patch from one row to the other |
| AuditRuns.RunTimed | internal/repository/task_repo.go:102-104 | over every run the times and identifiers of the audit log ascend |
| AuditRuns.ReplayFromCreation | internal/service/task.go:177-186 | for every task created in a run, History is its whole log newest first; replayed it gives the current row, rewound the created one |
| AuditRuns.RunRowsOk | internal/service/task.go:44-54 | in every state of every run titles are trimmed and non-empty and statuses valid |
| AuditRuns.RunCountsDone | internal/service/task.go:142-149 | a task counts as done since a cutoff if and only if some update since then moved it from another status to done |
| ConcurrentUpdates.StaleEditPatches | internal/service/task.go:110-118 | the audit rows of an edit of an outdated snapshot are a patch of the current row if and only if that row still has the snapshot's content |
| ConcurrentUpdates.CommitPatches | internal/service/task.go:110-172 | the same for every commit of every interleaved run |
| ConcurrentUpdates.LostUpdate | internal/service/task.go:110-172 | a run in which another update came in between and the commit leaves an audit trail that is not a patch |
| Relational.LeftJoinRows | internal/repository/analytics_repo.go:33-38 | a left join holds exactly the matching pairs, and a NULL pair for each row without a match |
| Relational.LeftJoinTotal | internal/repository/analytics_repo.go:33-38 | no left row is lost |
| Relational.Pad | internal/repository/analytics_repo.go:33-38 | a row without a partner appears once with NULL, any other once for each partner |
| Relational.DistinctValues | internal/repository/analytics_repo.go:30-31 | distinct counting skips NULL |
| TeamStats.TeamNamesDetermined | internal/repository/analytics_repo.go:39 | grouping by the extra name column splits no team |
| TeamStats.GroupsOfRows | internal/repository/analytics_repo.go:39-40 | each group of the joined rows once, in ascending order, and no other |
| TeamStats.MembersCounted | internal/repository/analytics_repo.go:30 | the distinct user column of a team's fan-out is its set of members |
| TeamStats.DoneCounted | internal/repository/analytics_repo.go:31 | the distinct task column of a team's fan-out is its set of tasks with a qualifying audit row |
| TeamStats.QueryMeans | internal/repository/analytics_repo.go:26-40 | exactly one row per team, empty teams included, in ascending order, with both counts right whatever the multiplicities of the join |
| TeamStats.MemberCountIsRows | internal/repository/analytics_repo.go:30 | member_count is the number of membership rows |
| TeamStats.DoneStatisticsAgree | internal/repository/analytics_repo.go:31-38 | after every run, done_last_7_days is the number of the team's tasks that some update in the window moved from another status to done, in the run or as the log had it before |
| TopCreators.JoinTeamsOne | internal/repository/analytics_repo.go:64-66 | by the keys a task joins one team row and one user row |
| TopCreators.NamesDetermined | internal/repository/analytics_repo.go:68 | grouping by the extra name columns splits no group |
| TopCreators.CountExact | internal/repository/analytics_repo.go:59 | the group's count is the number of tasks of that user in that team and window |
| TopCreators.GroupsMean | internal/repository/analytics_repo.go:60-68 | one group per creator of a team in the window, with exact count, by team, falling count and rising user |
| TopCreators.NumberCounts | internal/repository/analytics_repo.go:60-63 | the row number is one more than the number of users of the team placed before |
| TopCreators.QueryMeans | internal/repository/analytics_repo.go:51-71 | a row is returned if and only if its user is a creator with fewer than three creators of the team ahead, by count then user, with exact count and rank, ordered by team and rank |
| TopCreators.RankedByCount | internal/repository/analytics_repo.go:60-63 | at most three rows a team; of two, the first ranked has the larger count, or as many and the smaller user, and the other way round |
| TopCreators.RanksFilled | internal/repository/analytics_repo.go:70 | a team with n creators has a row for every rank up to the smaller of 3 and n |
| TopCreators.OmittedAreBehind | internal/repository/analytics_repo.go:70 | every creator left out is strictly behind every one returned |
| TopCreators.OmittedMadeFewer | internal/repository/analytics_repo.go:60-70 | a creator left out made fewer tasks than every creator returned, or as many with a larger identifier |
| Membership.InviteIsCheckThenAdd | internal/service/team.go:49-90 | the two halves of an invitation run in a row are the whole Invite |
| Membership.InvHolds | internal/service/team.go:49-90 | roster, owners, chains and open invitations stay consistent in every interleaving |
| Membership.OwnerAndChains | internal/service/team.go:49-90 | each team has exactly one member with role "owner", its creator, and every member is reached from the creator by a chain of accepted invitations whose senders have role "owner" or "admin" |
| Membership.RolesNeverChange | internal/repository/team_repo.go:76-87 | no later event of any run changes or removes a membership or a team |

## Left out

- HTTP transport, JSON, error-to-status mapping and metrics: no state of their own; the handler is used only for what it lets through.
- Mail circuit breaker and rate limiter: they live in libraries; a mail here succeeds or fails arbitrarily.
- Registration, passwords, tokens and address normalisation: the invitee lookup is a parameter, so lower-casing and trimming of the address are not modelled.
- Configuration, migrations, connection pools, start-up and shutdown: environment.
- SQL text, collations and column truncation: statements are modelled by their meaning over typed rows.
- Characters against UTF-8 bytes: text is a sequence of characters; the key functions only look for ASCII.
- Foreign keys of the write statements: a violated one is one of the arbitrary statement failures.
- A COMMIT or INSERT that took effect although it was reported failed: the serial service treats it as rolled back. In the protocol it is a writer that committed and goes no further.
- Identifiers burnt by a failed INSERT INTO tasks or teams: the counter moves only with the statement.
- Redis evicting keys under memory pressure: keys disappear only by expiry and deletion. In the protocol and the serial run this matters, since evicting a key set but not its lists would hide them from the next invalidation.
- Context cancellation: covered as failing round trips and requests that stop.
- IntegrityIssues (tasks whose assignee is not in the team) and ListByUser (the teams of a user): not modelled.
- task_comments: no code uses it.
- The windows INTERVAL 7 DAY and INTERVAL 1 MONTH: cutoffs are parameters, so calendar arithmetic is not modelled.
- The order in which one request's membership check and its first cache access interleave with others: the protocol starts after the check, which touches neither the cache nor the task tables.
- Failing SELECTs and transactions in the protocol: such a request stops there, which is a run already covered.
- Two reads of Invite (inviter's role, then invitee): one event in `Membership`, as the second reads no table an event changes.
- AuditRuns.ReplayFromCreation: up to the time of last change, which the audit trail does not record.
