# A verified model of the subscription page's core

The service keeps its own `users` and `user_inbounds` tables and pushes them to a 3x-ui panel through an
outbox (`sync_jobs`), renders subscriptions from panel-provided links and admin-editable templates, imports
those templates from disk without overwriting what an admin edited, and caches panel answers, apps and
templates. This project models that behaviour in Dafny and proves what it promises, or exactly when it does.

`dafny verify dfyconfig.toml` checks everything.

## How the pieces fit

**The outbox.** `Jobs` is the job table with its SQL statements, `Users` the local tables, `Panel` the remote side and
the HTTP client, `Worker` the background loop, `Handlers` the admin actions (`HandlerRuns` says what it is for one to
run, `Bulk` what a bulk action visits). Each is a class whose methods follow the Go code loop by loop. `Outbox` is a
transition system over all of them: handler statements, worker statements, the clock, lost responses, refused marks
and crashes interleave step by step. What the classes do is tied to it by their contracts: `Worker.Tick` is a
`TickRun`, a handler that goes through is the `Ran` of its script (and one that refuses changes neither tables nor
jobs), a bulk action a sequence of such runs, and the Retry button one `RetryFailed` step. So what is proved of all
runs holds of the code:

- `Ledger`: no job is lost, attempts and dispatches are bounded, failures are spaced by the backoff, a crash
  forgets at most one outcome. These hold in every reachable state, with any panel behaviour.
- `Convergence`: panel, unfinished jobs and local tables always add up, so an empty queue means the panel   equals the
  tables, user by user and field by field (`MirrorsIff`). `Scripts` shows which admin actions keep that, and for which
  it fails.
- `Overlaps`: handlers of one user whose statements mix; `Overtaking`: jobs of one client that land out of turn;
  `Interruptions`: a process that dies inside a handler, and what the above means for runs. Each says exactly when the
  panel stays on course all the same.
- `OnTheWay`: moving a user from some inbounds to others never leaves the client with none, at any moment of any run
  in which requests reach the panel in turn.
- `Drain`: once the network answers, ceil(n / 20) Ticks finish n due jobs.

**Templates and links.** `Importer` is the provenance protocol between `templates` and `import_manifest`. `Base64`,
`ShareLink`, `Proxies`, `YamlTree`, `Yaml`, `Groups`, `Injection` and `Inject` go from an `ss://` link to the YAML
document a client downloads; `LinkParts` and `Queries` say exactly what the parser's helpers accept and read, and
`ProxyFields` what a reader finds in the definitions, key by key and one level down. `Yaml` works on heap nodes
changed in place, with a ghost shape that says which node sits where; `Groups` and `Injection` say on values what
injection does and what it leaves alone.

**Caches and pictures.** `TtlCache`, `AppCatalog` and `TmplCache` are the caches, each with other callers
interfering between its steps. `QrCode` paints pixels and rectangles from a bitmap.

## What the convergence proof rests on

The code does not give convergence for every run. These are the conditions, stated as hypotheses of the lemmas;
where a condition belongs to one action, a lemma shows the action is sound if and only if it holds.

- A job reaches the panel only while no older job of the same client is unfinished (`InOrder`); jobs of different
  clients overtake each other freely. Nothing in the code ensures it: a job that waits for its retry lets newer ones
  pass. For updates `OvertakingIff` says exactly what that costs, and `OvertakingKeepsAgreeIff` says it of the running
  system: nothing iff a newer update of the client is still queued, or the newest one overtaken pushes the same fields.
  `EditIsUndoneIff` is a run in which an edit is undone on the panel although every job ends successful,
  `MovedClientIsDropped` one in which a client that is moved to another inbound is dropped on the way.
- Editing a user keeps the username, unless the user has no inbound (`OverwriteIsSoundIff`): UpdateClient is
  addressed by the new email, internal/xui/client.go:214.
- Traffic is not reset for a disabled user with an inbound (`ResetIsSoundIff`, and `BulkIsOrderlyIff` for a list of
  users): the panel re-enables the client, internal/xui/client.go:249.
- The process may die anywhere, a handler's statements included, as long as the statements carried out by then are
  sound by themselves. `CrashKeepsAgreeIff` shows this is the exact condition. For creating a user and for resetting
  an enabled one that is everywhere; reconciling inbounds, before the first statement or after the last; editing,
  before the write, after the first update, or if nothing that is pushed changes; deleting, before the job or after
  the row is gone (`CrashInCreate`, `CrashInSetInboundsIff`, `CrashInOverwriteIff`, `CrashInResetIff`,
  `CrashInDeleteIff`). docs/ARCHITECTURE.md:307 says a missed enqueue is always visible; the code leaves no row for
  one (`MissedEnqueueHasNoRow`), and `CrashBeforeEnqueueLeavesNoTrace` is a run in which nothing shows it. The model
  follows the code.
- Admin handlers do not overlap each other; the worker overlaps them freely. Handlers of one user that do overlap make
  up one script, and its run keeps the panel on course exactly when that script is sound (`RanKeepsAgreeIff`). For edits
  that is when the last update enqueued carries what the row ends up with (`OverlappingEditsIff`); for reconciliations
  of inbounds, when the last job about each inbound agrees with the table (`OverlappingReconcilesIff`), so two that
  enqueue in the opposite order of their writes do harm iff the second takes back something the first did
  (`CrossedReconcilesIff`). A toggle that read its user before an edit landed pushes the old fields back, unless the
  edit changed none of those (`StaleToggleIff`, `StaleToggleIsPushedIff`); a reconciliation that did creates the
  client with the old ones, unless there was a client for the edit to reach (`StaleReconcileIff`).
- The panel drops a client on its last detach, internal/xui/client.go:231.
- The panel does not serve a request after the service has given up on it: what a request does to the panel, it does
  by the time the dispatch ends, answered or not.

The panel ignores `uuid` (docs/CONFIGURATION.md:133) and `method` is never sent
(internal/sync/worker.go:179), so neither is among the compared fields.

## What the caches promise, and what they do not

- An invalidation of the panel cache forgets what is on record. It does not reach an upstream call under way, nor a
  result the single flight has but has not handed out. `InvalidateReachesChecksIff` and
  `InvalidateReachesCallersIff` give the exact conditions, `InvalidateMissesAFetch` and `InvalidateMissesAnAnswer` two
  runs from the start in which a caller that arrives after the invalidation gets what was fetched before it.
- The app catalog compares a row count and a newest stamp. A stamp is drawn before its write commits, so two writers
  may commit in the other order, and then an update can go unnoticed (`OppositeCommitsAreMissed`). It cannot if every
  write's stamp is above the newest one loaded (`StampsAboveAreSeen`); `UpdateIsMissedIff` is exact for one update.
  The class takes stamps in any order and keeps track of that condition (`above`): under it no answer is older than
  the table at the call, and stamps that commit in order are a case of it (`inOrder`).
- Two template rows can share a cache key if a protocol holds '|' (`SameCacheKeyIff`). Get answers from the
  right row where no row with the same key ever had a stamp that the wanted row had (`Apart`), so always if no protocol
  holds '|' (`PlainProtocolsAreApart`); otherwise the answer may be the parse of the other row.
- The importer needs no order of stamps: an admin's write is told from the importer's unless it carries the very
  stamp the manifest holds for its key (`PutKeepsProvenanceIff`).

## Model

| member | source | states |
|---|---|---|
| Jobs.SelectedIsLowestDue | internal/sync/sync.go:111-113 | the claimed batch is the limit lowest due ids, ascending; it is short only when no due row is left out |
| Jobs.Store.ClaimBatch | internal/sync/sync.go:102-134 | returns exactly that batch, marks those rows in_progress and no others |
| Jobs.Store.Enqueue | internal/sync/sync.go:83-97 | appends one pending row under a fresh id above all others |
| Jobs.Store.Run | internal/sync/sync.go:137-166 | runs a mark or the reap on exactly the rows its WHERE clause hits, and reports whether there was one |
| Jobs.StatementsByColumn | internal/sync/sync.go:137-210 | what each of the statements makes of a row, column by column |
| Jobs.Store.RetryJob | internal/sync/sync.go:171-186 | succeeds iff a failed job has the id, and then makes it pending and due |
| Jobs.Store.Prune | internal/sync/sync.go:284-289 | leaves exactly the rows that are not old successes, in order |
| Jobs.PrunedKeepsTheRest | internal/sync/sync.go:284-289 | what "not an old success" means row by row |
| Jobs.PrunedAre | internal/sync/sync.go:284-289 | a prune leaves exactly the rows that have not succeeded, or have since the cutoff |
| Jobs.Store.RollupStatusForUser | internal/sync/sync.go:217-257 | the loop equals its specification on any table: newest job per inbound, error over syncing over synced |
| Jobs.RollupIs | internal/sync/sync.go:217-257 | over the newest row of each of the user's inbounds: an error iff one failed, syncing iff none did and one is unfinished, none iff the user has no job |
| Jobs.SyncedMeansEveryLatestSucceeded | internal/sync/sync.go:217-257 | "synced" iff the user has a job and the newest job of every inbound succeeded |
| Jobs.PruneOnlyWorsens | internal/sync/sync.go:284-289 | a prune never hides an error and never turns "syncing" into "synced" or "none" |
| Jobs.PruneKeepsRollupIff | internal/sync/sync.go:284-289 | a prune may change the rollup; exactly when it does not |
| Panel.ServeTwice | internal/xui/client.go:205-267 | repeating a request changes nothing more on the panel |
| Panel.StepTwice | internal/sync/worker.go:146-177 | dispatching a job twice leaves the panel as after once and is accepted again, an assign with a lost response included |
| Panel.StepCarries | internal/sync/worker.go:146-195 | what each job does to the panel, field by field: an update, or an assign that creates the client, puts each of the payload's six values into the field of its name; no job touches another client |
| Panel.AcceptsIff | internal/sync/worker.go:146-165 | the panel turns a job down iff its operation is unknown or it updates a client that is not there |
| Panel.PlayHeadAgain | internal/sync/worker.go:99-140 | replaying the head of a queue that already took effect leads to the same client |
| Panel.XuiClient.Request | internal/xui/client.go:89-165 | only transient failures are retried, at most maxAttempts times; the request takes effect once or not at all; the error is the one the attempts determine |
| Panel.XuiClient.GetClient | internal/xui/client.go:291-303 | changes nothing; without error it tells whether the client exists |
| Panel.XuiClient.RequestIgnoringNotFound | internal/xui/client.go:237-272 | a missing client counts as success, and nil means the end state holds |
| Users.Store.Create | internal/users/users.go:82-109 | a fresh user without inbounds, field by field as asked, with drawn credentials and the default cipher where none were given; NameTaken, with nothing changed, iff the username or the sub id is in use |
| Users.Store.Update | internal/users/users.go:121-133 | takes each of the form's fields and keeps credentials and the enabled flag; NameTaken iff another user has the name or the sub id, NoSuchUser if there is no such user |
| Users.Store.Overwrite | internal/users/users.go:137-162 | overwrites one row and no other |
| Users.Store.Delete | internal/users/users.go:168-174 | removes the user with all assignments and nothing else |
| Users.Store.Inbounds | internal/users/users.go:239-257 | the user's rows, each once, in inbound order |
| Users.Store.SetInbounds | internal/users/users.go:271-322 | afterwards the user has exactly the wanted inbounds; new rows carry the inbounds as asked, tag and protocol included, and only unwanted rows of this user go; added and removed are the two differences, each id once; fails, changing nothing, iff the form repeats a missing inbound or the foreign key refuses an insert for an unknown user |
| Users.DesiredIs | internal/admin/handlers_users.go:37-49 | what the panel should hold for a user: nothing without inbounds, else the pushed fields and the inbound set |
| Users.PayloadCarriesUser | internal/admin/handlers_users.go:37-49 | a payload says of a user what the row says, in nine fields |
| Users.DesiredElsewhere | internal/admin/handlers_users.go:37-49 | changing one user changes no other email's desired client |
| Outbox.TickReaches | internal/sync/worker.go:87-106 | a Tick is a run of the transition system |
| Outbox.TickCutoffs | internal/sync/worker.go:87-106 | a Tick puts back what was claimed more than 300 seconds ago and nothing claimed since, and deletes what succeeded more than 7 days ago and no other row |
| Outbox.RecordByColumn | internal/sync/worker.go:108-140 | a recorded outcome finishes the row, or fails it at its last attempt, or puts it off by attempts squared seconds, at most 60; no other row changes |
| Outbox.ServedDispatchCarries | internal/sync/worker.go:146-195 | a served dispatch does to the panel what its job says, field by field |
| Ledger.KeptByStep | internal/sync/sync.go:83-289 | every step of anyone keeps the invariant between rows and history |
| Ledger.KeptByRun | internal/sync/worker.go:87-140 | so does every run |
| Ledger.NoJobLost | internal/sync/sync.go:83-186 | a row stays in the table exactly once with unchanged user, inbound, op and payload, or was pruned after a dispatch that returned nil |
| Ledger.EveryReachableRow | internal/sync/worker.go:108-140 | success only after a nil dispatch; attempts <= maxAttempts + retries; failed implies attempts >= maxAttempts; no second claim without a requeue |
| Ledger.AtMostMaxAttemptsDispatches | internal/sync/worker.go:122-139 | without Retry, crash or refused mark no job, pruned ones included, is dispatched more than maxAttempts times |
| Ledger.RetryBuysOneFailure | internal/sync/sync.go:171-186 | one Retry buys exactly one more recorded failure |
| Ledger.FailuresAreSpaced | internal/sync/worker.go:132-137 | first and last failure of a finally failed job are at least the sum of its backoffs apart |
| Ledger.DefaultWaitIs140Seconds | internal/sync/worker.go:24-28 | that sum is 140 seconds at the default 8 attempts, and the 60 second cap starts only at attempt 8 |
| Ledger.AtMostOneOutcomeForgotten | internal/sync/worker.go:99-140 | a crash or a refused mark forgets the outcome of at most one job, nothing else forgets any |
| Ledger.AckedByItsDispatch | internal/sync/worker.go:108-120 | whenever a run adds an acknowledgement to a job, the run contains a dispatch of that very job, as enqueued, that the panel accepted and that returned nil |
| Ledger.SuccessHasItsDispatch | internal/sync/worker.go:108-120 | so every row marked success, and every pruned id, had such a dispatch |
| Convergence.AgreeKeptByStep | internal/sync/worker.go:146-177 | every orderly step keeps: panel plus unfinished jobs in id order plus the running handler equals the local tables |
| Convergence.AgreeKeptByRun | internal/sync/worker.go:87-140 | so does every orderly run, harmless crashes and lost responses included |
| Convergence.CrashKeepsAgreeIff | internal/admin/handlers_users.go:51-64 | a crash anywhere, inside a handler too, keeps that iff the statements carried out by then are sound by themselves |
| Convergence.AgreeWhenBusy | internal/admin/handlers_users.go:51-64 | in the middle of a handler, the unfinished jobs and the ones it will still enqueue lead the panel to what the tables will ask for |
| Convergence.QuietPanelMirrorsTables | internal/sync/worker.go:87-106 | after an orderly run with every job successful the panel is exactly the local view, every user's six fields and inbounds included |
| Convergence.MirrorsIff | internal/sync/worker.go:179-190 | the panel mirrors the tables iff each user with an inbound has a client with the row's six values and its inbounds under the username, and there is no other client |
| Convergence.OldestJobIsAccepted | internal/sync/worker.go:146-165 | the panel never turns down a client's oldest unfinished job |
| Scripts.SetInboundsIsSound | internal/admin/handlers_users.go:794-811 | the delta's jobs take the client from the old inbound set to the new one |
| Scripts.NeverBareOnTheWay | internal/admin/handlers_users.go:801-811 | no prefix of the delta leaves the client without inbounds iff it ends with one |
| Scripts.UnassignFirstDropsTheClient | internal/admin/handlers_users.go:801-811 | the other order would drop the client |
| Scripts.OverwriteIsSoundIff | internal/admin/handlers_users.go:51-64 | an edit reaches the panel iff the username stays or there is no inbound |
| Scripts.ResetIsSoundIff | internal/admin/handlers_users.go:688-720 | a reset keeps panel and tables equal iff the user is enabled or has no inbound |
| Scripts.DeleteIsSound | internal/admin/handlers_users.go:604-653 | one delete job, enqueued before the row goes, removes the client |
| Scripts.CreateIsSound | internal/admin/handlers_users.go:353-385 | creating a user asks nothing of the panel |
| Scripts.CrashInCreate | internal/admin/handlers_users.go:353-385 | creating a user may be cut short anywhere |
| Scripts.CrashInSetInboundsIff | internal/admin/handlers_users.go:794-811 | reconciling inbounds may be cut short only before its first statement or after its last |
| Scripts.CrashInOverwriteIff | internal/admin/handlers_users.go:51-64 | an edit may be cut short before its write, after its first update, or when nothing pushed changes, and nowhere else |
| Scripts.CrashInResetIff | internal/admin/handlers_users.go:688-720 | a reset of an enabled user, or one without inbounds, may be cut short anywhere, any other only before its first job |
| Scripts.CrashInDeleteIff | internal/admin/handlers_users.go:604-653 | a deletion may be cut short only before its job or after the row is gone |
| Overlaps.OverlappingEditsIff | internal/admin/handlers_users.go:655-686 | however edits of one user are mixed, the panel follows iff the last update enqueued carries what the row ends up with |
| Overlaps.StaleToggleIff | internal/admin/handlers_users.go:655-686 | a toggle that read its user before an edit landed is harmless iff the edit changed nothing that is pushed |
| Overlaps.OverlappingReconcilesIff | internal/admin/handlers_users.go:794-811 | however reconciliations of one user are mixed, the panel follows iff the last job about each inbound, or its old state if there is none, agrees with what the table ends up with |
| Overlaps.CrossedReconcilesIff | internal/admin/handlers_users.go:794-811 | two whose jobs cross are harmless iff the second takes back nothing the first did |
| Overlaps.StaleReconcileIff | internal/admin/handlers_users.go:756-811 | one that read its user before an edit landed is harmless iff there was a client, it adds nothing, or the edit changed nothing that is pushed |
| Overtaking.OvertakingIff | internal/sync/worker.go:132-139 | an update done ahead of any number of older ones leaves the queue leading to the same client iff a newer update is queued or the newest one overtaken pushes the same |
| Overtaking.OvertakingKeepsAgreeIff | internal/sync/worker.go:108-140 | in the running system a job dispatched and marked out of turn keeps panel, jobs and tables on course iff the same holds |
| Overtaking.EditIsUndoneIff | internal/sync/worker.go:122-139 | a run from any quiet state: of two edits the first one's request is lost and retried after the second; every job ends successful, and the panel equals the tables iff both edits push the same |
| Overtaking.MovedClientIsDropped | internal/admin/handlers_users.go:801-811 | a run from any quiet state: the assign of a move is lost, the unassign drops the client, and only the retry brings it back |
| Interruptions.StaleToggleIsPushedIff | internal/admin/handlers_users.go:655-686 | in any run of it the panel and its unfinished jobs lead to the row iff the same holds |
| Interruptions.RanKeepsAgreeIff | internal/admin/handlers_users.go:51-64 | a run of any script of handler statements, overlapping ones included, leaves panel, jobs and tables on course iff the script is sound |
| Interruptions.EveryScriptRuns | internal/admin/handlers_users.go:51-64 | and every script has such a run |
| Interruptions.MissedEnqueueHasNoRow | internal/admin/handlers_users.go:794-811 | after a crash inside a handler the table holds exactly the jobs enqueued before it; every job has its row iff none was missed |
| Interruptions.DeathKeepsAgreeIff | internal/admin/handlers_users.go:794-811 | a handler that dies after n statements keeps panel and tables on course iff its first n statements are sound |
| Interruptions.AnyStatementMayBeTheLast | internal/admin/handlers_users.go:794-811 | for every script and every n there is such a run |
| Interruptions.CrashBeforeEnqueueLeavesNoTrace | internal/admin/handlers_users.go:794-811 | one such run: tables and panel apart with an empty job table |
| Convergence.HeadAppliedKept | internal/sync/worker.go:108-140 | if served requests come in turn, every step keeps: a job the panel accepted and the table has not recorded is its client's oldest unfinished one, and has taken effect |
| OnTheWay.PartDoneKeptByRun | internal/admin/handlers_users.go:801-811 | through any run in which requests reach the panel in turn, crashes anywhere included, the client on the panel is what some first part of the handler's jobs makes of it |
| OnTheWay.NeverBareInAnyRun | internal/admin/handlers_users.go:801-811 | so in any such run reconciling from some inbounds to others never leaves the client without any, whatever retries, losses, refused marks and crashes it has, between the reconciliation's own statements too |
| Drain.TickDrains | internal/sync/worker.go:87-106 | a Tick with all dispatches successful finishes min(batch, n) of n ready jobs |
| Drain.PromptTickDrains | internal/sync/worker.go:87-140 | if the network answers, the dispatches do succeed, so the Tick finishes that many |
| Drain.TicksDrainTheOutbox | internal/sync/worker.go:87-106 | n ready jobs are all done after k such Ticks iff k times the batch size reaches n, and then the panel equals the tables |
| Worker.Worker.Tick | internal/sync/worker.go:87-106 | one run in the order reap, claim, dispatch and mark each, prune, with the real cutoffs; if every request is answered, every dispatch comes out as the panel alone decides |
| Worker.Worker.Process | internal/sync/worker.go:108-140 | one dispatch and the mark its outcome calls for |
| Worker.Worker.Dispatch | internal/sync/worker.go:146-190 | the panel is as before, or as the job says field by field; nil only if it accepted; an answered dispatch fails only if the panel turns it down |
| Worker.Worker.DoAssign | internal/sync/worker.go:168-177 | attaches or adds, whichever the client's existence calls for, and succeeds when answered |
| Handlers.Server.HandleSetInbounds | internal/admin/handlers_users.go:747-814 | NotFound, BadGateway when the panel's inbounds cannot be listed, error or redirect, by exact conditions; afterwards the live wanted inbounds, with the delta's jobs enqueued assigns first |
| Handlers.Server.HandleCreate | internal/admin/handlers_users.go:353-385 | an enabled user without inbounds and no job, its missing credentials and cipher filled in, or a conflict, iff the username or the sub id is in use |
| Handlers.Server.HandleUpdate | internal/admin/handlers_users.go:536-602 | the row with the form's fields, and one update job an inbound; orderly when the username stays; a conflict iff another user has the name or sub id |
| Handlers.Server.HandleToggle | internal/admin/handlers_users.go:655-686 | flips enabled and enqueues one update an inbound; NotFound, with nothing changed, iff the user is unknown |
| Handlers.Server.HandleRegenerate | internal/admin/handlers_users.go:722-745 | stores the new credentials and enqueues one update an inbound; NotFound, with nothing changed, iff the user is unknown |
| Handlers.Server.HandleResetTraffic | internal/admin/handlers_users.go:688-720 | one reset job an inbound, no local change |
| Handlers.Server.HandleDelete | internal/admin/handlers_users.go:604-653 | the delete job, if there is an inbound, then the rows |
| Handlers.Server.BulkApply | internal/admin/handlers_users.go:816-861 | the run of the action's own statements on one user, or nothing, refused iff the user or the action is unknown |
| Bulk.KnownActionsAre | internal/admin/handlers_users.go:816-861 | the four actions by name |
| Handlers.Server.HandleUsersBulk | internal/admin/handlers_users.go:863-883 | such a run for every listed user in order; on course iff a reset lists only enabled users or users without inbounds |
| Handlers.Server.HandleSyncRetry | internal/admin/handlers_users.go:924-938 | one RetryFailed step of the system, and a redirect whether or not a failed job has the id |
| Bulk.BulkDoesWhatItSays | internal/admin/handlers_users.go:816-861 | in the tables every listed user gets exactly what the action says, nobody else changes, repeats included |
| Bulk.BulkEnqueues | internal/admin/handlers_users.go:816-861 | every listed user that exists gets a job of the action's kind for each inbound, carrying the row as the action sets it, field by field, and nobody else gets one |
| Bulk.BulkIsOrderlyIff | internal/admin/handlers_users.go:816-861 | which bulk actions keep panel and tables on course: all but a reset that lists a disabled user with an inbound |
| HandlerRuns.RanEnqueues | internal/admin/handlers_users.go:51-64 | a handler adds exactly its jobs, in order and under ascending ids, and touches no other row |
| HandlerRuns.AssignsComeFirst | internal/admin/handlers_users.go:801-811 | of a reconciliation every assign has a lower id than every unassign, each carries the user's row, and the tables hold the new set |
| HandlerRuns.OverwriteEnqueues | internal/admin/handlers_users.go:51-64 | an edit leaves the new row and one update per inbound that carries it field by field |
| HandlerRuns.ResetEnqueues | internal/admin/handlers_users.go:688-720 | a reset leaves the tables alone and enqueues one reset per inbound |
| HandlerRuns.DeleteEnqueues | internal/admin/handlers_users.go:604-653 | a deletion leaves no row of the user and one deletion job, iff it had an inbound |
| Importer.Upsert | internal/importer/importer.go:293-337 | one file changes one key, by the provenance rule, and no other |
| Importer.PruneOrphaned | internal/importer/importer.go:346-376 | in any visiting order, each vanished file's untouched row goes and its stamp always goes |
| Importer.Tables.ImportFormat | internal/importer/importer.go:378-417 | the whole loop: fails iff a non-directory entry ending in .tmpl cannot be read, and then changes nothing; every p.tmpl or p.yaml.tmpl whose profile had no row gets one holding such a file; a step of the provenance system, which keeps ownership readable |
| Importer.ContentsAreFiles | internal/importer/importer.go:396-404 | what goes to a profile is what its files p.yaml.tmpl and p.tmpl hold, the latter unless p ends in .yaml |
| Importer.NewFilesGetRows | internal/importer/importer.go:293-337 | a file for a profile without a row leaves a row and a stamp for it |
| Importer.OtherEntriesChangeNothing | internal/importer/importer.go:396-399 | a directory, or an entry without the ending, changes nothing |
| Importer.Tables.Put | internal/templatestore/templatestore.go:118-128 | an admin's step of that system; ownership stays readable iff its stamp is not the one the manifest holds for the key |
| Importer.Tables.Delete | internal/templatestore/templatestore.go:131-137 | an admin's step of that system, which always keeps ownership readable |
| Importer.OwnedIffStampsAgree | internal/importer/importer.go:293-376 | over any interleaving, a row is the importer's iff its manifest stamp equals its updated_at |
| Importer.PutKeepsProvenanceIff | internal/templatestore/templatestore.go:118-128 | the one admin's write that passes for the importer's is the one with the manifest's own stamp |
| Importer.DeleteHandsTheKeyBack | internal/importer/importer.go:280-305 | after an admin's delete the next import with a file for the key owns it again |
| Importer.ImportLeavesOthersAlone | internal/importer/importer.go:293-376 | no import changes, deletes or takes over a row of an admin or of unknown origin |
| Importer.ImportedRowsEqualFiles | internal/importer/importer.go:312-376 | after an import every row it owns holds its file (one of them, should two share the key), and none exists for a removed file |
| Importer.ImportedRowsHoldFiles | internal/importer/importer.go:312-376 | said in file names: a row of the importer's holds a file for its profile |
| Importer.ImportedRowsTakeTheirFile | internal/importer/importer.go:293-337 | a row that is the importer's, or missing, takes the one version its files agree on |
| Importer.ReimportIdempotentIff | internal/importer/importer.go:378-417 | importing the same disk again changes nothing iff no owned key has two files that differ |
| Importer.SameProfileIff | internal/importer/importer.go:400-409 | two files share a key iff they are p.tmpl and p.yaml.tmpl |
| TtlCache.TtlCache.Read | internal/xui/cache.go:62-79 | the freshness check, on values and on cached failures |
| TtlCache.TtlCache.Record | internal/xui/cache.go:94-105 | what a fetch leaves, value or error |
| TtlCache.TtlCache.Invalidate | internal/xui/cache.go:121-129 | forgets both |
| TtlCache.CacheTheorem | internal/xui/cache.go:62-117 | fetches never overlap and each starts at least ttl after the newest outcome on record; a check serves that outcome, younger than ttl; the single flight hands everyone what one fetch came to, younger than ttl when the leader got it or got the moment it came in |
| TtlCache.NothingRecordedDuringAFetch | internal/xui/cache.go:80-117 | while a fetch runs nothing but its own end, or an invalidation, changes what is on record |
| TtlCache.InvalidateReachesChecksIff | internal/xui/cache.go:62-129 | from an invalidation to the next, whatever happens, checks serve only what was fetched since iff no fetch was under way (or ttl is not positive) |
| TtlCache.InvalidateReachesCallersIff | internal/xui/cache.go:80-129 | and the single flight hands out only what was fetched since iff no fetch was under way and no result was waiting to be handed out |
| TtlCache.InvalidateMissesAFetch | internal/xui/cache.go:94-129 | a run from the start: a fetch under way at the invalidation is served to the next caller |
| TtlCache.InvalidateMissesAnAnswer | internal/xui/cache.go:80-129 | a run from the start: a result not yet handed out goes to a caller that came after the invalidation |
| AppCatalog.FingerprintDecides | internal/apps/apps.go:51-72 | two tables with the same count, one with no stamp above m and, up to m, only rows of the other, are equal |
| AppCatalog.NeitherCountNorMaximumDecides | internal/apps/apps.go:51-72 | either half of the fingerprint alone misses a change |
| AppCatalog.StampsAboveAreSeen | internal/apps/apps.go:51-72 | in whatever order stamps are drawn, writes stamped above the newest one loaded cannot change the table unseen |
| AppCatalog.UpdateIsMissedIff | internal/apps/apps.go:200-226 | one update goes unseen iff its stamp is not above the newest one loaded and that one survives it |
| AppCatalog.InsertsAndDeletesAreSeen | internal/apps/apps.go:51-72 | one insert or one delete never does |
| AppCatalog.OppositeCommitsAreMissed | internal/apps/apps.go:200-226 | a run in which two writers commit in the opposite order of their stamps and an update is not seen |
| AppCatalog.Catalog.ReloadIfNeeded | internal/apps/apps.go:51-103 | whatever others write or reload between its queries, the cache ends no older than the table at the call, if writes were stamped above what it knew |
| AppCatalog.Catalog.List | internal/apps/apps.go:107-122 | exactly the visible apps of some version, each once and by ascending sort order, in the order they were loaded in; under that condition of a version current at or after the call |
| AppCatalog.VisibleOfShows | internal/apps/apps.go:107-122 | the loop keeps the visible apps and no other, in order |
| AppCatalog.ShownOnceAndSorted | internal/apps/apps.go:107-122 | so of a table's rows each visible app is shown once, sorted |
| AppCatalog.Catalog.ListAll | internal/apps/apps.go:146-157 | likewise all its apps |
| AppCatalog.Catalog.Create | internal/apps/apps.go:174-197 | a new id, no other row changed |
| AppCatalog.Catalog.Update | internal/apps/apps.go:200-226 | that row replaced, no other changed, or not found |
| AppCatalog.Catalog.Delete | internal/apps/apps.go:229-242 | that row gone, no other changed |
| TmplCache.Cache.Get | internal/generator/tmplcache/tmplcache.go:55-104 | the parse of the profile's row as of some moment of the call, or of the default row, or an error, where rows are Apart; elsewhere NoTemplate still means there is neither, and any other answer is the parse of a row with the same cache key |
| TmplCache.Cache.Resolve | internal/generator/tmplcache/tmplcache.go:55-79 | the parse of the row just read if rows are Apart, otherwise of one with its cache key and stamp |
| TmplCache.Cache.AnswerIs | internal/generator/tmplcache/tmplcache.go:55-104 | the content of the profile's row is parsed under format/profile\|protocol, or else the default profile's under format/default\|protocol |
| TmplCache.SameCacheKeyIff | internal/generator/tmplcache/tmplcache.go:55-79 | exactly which distinct rows share a cache key |
| TmplCache.PlainProtocolsKeepKeysApart | internal/generator/tmplcache/tmplcache.go:55-79 | none do when protocols hold no '\|' |
| TmplCache.PlainProtocolsAreApart | internal/generator/tmplcache/tmplcache.go:55-79 | so then every row is apart from all others |
| Base64.DecodeInverts | internal/generator/tmplctx/sharelink.go:208-215 | each of the four variants (sections 3.2, 4 and 5 of RFC 4648) decodes what it encodes |
| Base64.DigitsAreTheAlphabet | internal/generator/tmplctx/sharelink.go:208-215 | the digits are the two alphabets of RFC 4648 |
| Base64.ValueIsThePlace | internal/generator/tmplctx/sharelink.go:208-215 | a character is read as its place in the alphabet, and no other character is |
| Base64.TestVectors | internal/generator/tmplctx/sharelink.go:208-215 | test vectors of section 10 of RFC 4648 |
| Base64.DecodesIff | internal/generator/tmplctx/sharelink.go:208-215 | exactly which texts a variant decodes |
| Base64.BreaksMeanNothing | internal/generator/tmplctx/sharelink.go:208-215 | line breaks may stand anywhere |
| Base64.VariantsAgree | internal/generator/tmplctx/sharelink.go:208-215 | on any input, variants that accept it agree on the bytes |
| Base64.DecodeBase64Any | internal/generator/tmplctx/sharelink.go:208-215 | the first variant that accepts |
| Base64.DecodeAnyInverts | internal/generator/tmplctx/sharelink.go:208-215 | it inverts every encoder on every byte string, whichever variant is tried first |
| ShareLink.ParseShadowsocks | internal/generator/tmplctx/sharelink.go:133-204 | the parser loop by loop, error cases included |
| ShareLink.ParseShareLink | internal/generator/tmplctx/sharelink.go:17-35 | what stands before the first "://", in any case, picks the parser; none without it, and any other scheme is refused by name |
| ShareLink.Sip002RoundTrip | internal/generator/tmplctx/sharelink.go:133-204 | SIP002 links in any variant parse back to the same fields, with any query text |
| ShareLink.LegacyRoundTrip | internal/generator/tmplctx/sharelink.go:133-204 | so do legacy links, any password |
| ShareLink.PlainRoundTrip | internal/generator/tmplctx/sharelink.go:133-204 | so do percent-encoded ones: never mistaken for base64 |
| Queries.ParseQueryFailsIff | internal/generator/tmplctx/sharelink.go:171-176 | a query is refused as a whole iff it has a ';' or a bad escape anywhere |
| Queries.ParseQueryStep | internal/generator/tmplctx/sharelink.go:171-176 | a first parameter, with a value or without, goes before the same key further on; empty segments mean nothing |
| Queries.PrintedParamsReturn | internal/generator/tmplctx/sharelink.go:171-176 | printed parameters are read back |
| Queries.FirstValuesAre | internal/generator/tmplctx/sharelink.go:171-176 | that is, each key with its first value and no other key |
| Queries.Sip002ParamsReturn | internal/generator/tmplctx/sharelink.go:133-204 | SIP002 links come back with their printed parameters |
| Queries.PlainParamsReturn | internal/generator/tmplctx/sharelink.go:133-204 | so do percent-encoded ones |
| Queries.BadQueryVoidsAll | internal/generator/tmplctx/sharelink.go:171-176 | a ';' or a bad escape leaves no parameter, and the link parses all the same |
| LinkParts.UnescapeFailsIff | internal/generator/tmplctx/sharelink.go:137-157 | unescaping fails iff some '%' is not followed by two hexadecimal digits |
| LinkParts.UnescapeByte | internal/generator/tmplctx/sharelink.go:137-157 | an escape is the byte its digits say, in either case |
| LinkParts.UnescapeOne | internal/generator/tmplctx/sharelink.go:137-157 | any other character is itself, '+' a space |
| LinkParts.LowercaseIs | internal/generator/tmplctx/sharelink.go:17-35 | which letters the scheme's comparison changes |
| LinkParts.SplitHostPortIff | internal/generator/tmplctx/sharelink.go:183-186 | exactly which addresses split, and where |
| LinkParts.CredentialsAre | internal/generator/tmplctx/sharelink.go:147-169 | user info in each of its forms, and the errors of a link without '@' |
| LinkParts.AssembledIs | internal/generator/tmplctx/sharelink.go:178-202 | which error a malformed method, address or port gets, and the fields otherwise |
| LinkParts.RemarkIs | internal/generator/tmplctx/sharelink.go:136-145 | the remark is the fragment unescaped, or as it stands |
| LinkParts.PrefixIs | internal/generator/tmplctx/sharelink.go:133-135 | "ss://" is taken off in small letters only |
| Text.AtoiIff | internal/generator/tmplctx/sharelink.go:187-190 | exactly which texts are a port, and which number each is |
| Text.HexDigitIs | internal/qrcode/qrcode.go:46-61 | hexadecimal digits in either case |
| YamlTree.WithPairKeepsOthers | internal/generator/yamlgen/inject.go:338-346 | setting a key moves and changes no other pair |
| YamlTree.GetAfterSet | internal/generator/yamlgen/inject.go:325-346 | a key set is found, first among equals |
| YamlTree.DeletedIffUnique | internal/generator/yamlgen/inject.go:350-359 | a deleted key is gone iff it did not occur twice |
| Yaml.MapGet | internal/generator/yamlgen/inject.go:324-334 | finds the first pair's value node, or none in a non-mapping |
| Yaml.MapSet | internal/generator/yamlgen/inject.go:338-346 | replaces the first pair's value or appends a pair, in place |
| Yaml.MapDelete | internal/generator/yamlgen/inject.go:350-359 | removes the first pair in place and returns its value node |
| Proxies.BuildProxyNode | internal/generator/yamlgen/inject.go:162-277 | the nodes of a client's definition, or none for an unknown protocol |
| Proxies.FieldsAreTheProtocols | internal/generator/yamlgen/inject.go:162-277 | a reader finds under each key exactly what the protocol's field table says |
| Proxies.NoKeyTwice | internal/generator/yamlgen/inject.go:162-277 | no key occurs twice, whatever the client's fields |
| ProxyFields.VlessDefinition | internal/generator/yamlgen/inject.go:162-222 | key by key what a vless definition holds, by text, tag and quoting, reality-opts and transport options one level down included, and what it lacks |
| ProxyFields.VmessDefinition | internal/generator/yamlgen/inject.go:162-236 | the same for vmess |
| ProxyFields.TrojanDefinition | internal/generator/yamlgen/inject.go:162-246 | the same for trojan |
| ProxyFields.ShadowsocksDefinition | internal/generator/yamlgen/inject.go:162-253 | the same for shadowsocks |
| ProxyFields.LinkBecomesItsProxy | internal/generator/yamlgen/inject.go:248-253 | an ss:// link in any form, encoding and query ends up as a definition with the account's own values |
| Groups.TwoPassesArePassing | internal/generator/yamlgen/inject.go:84-98 | the two filter passes leave exactly the names that pass both patterns, in order |
| Groups.PassingIs | internal/generator/yamlgen/inject.go:84-98 | name by name, in the order the names come in |
| Groups.ChoicesAre | internal/generator/yamlgen/inject.go:134-158 | which option decides what: the last pair of each name |
| Groups.GoodGroupIff | internal/generator/yamlgen/inject.go:75-98 | what a group must be like, in its own keys |
| Groups.GroupKeepsTheRest | internal/generator/yamlgen/inject.go:75-122 | every other pair of a group stays as and where it was; the options are gone iff they were not there twice |
| Groups.GroupGainsPassingNames | internal/generator/yamlgen/inject.go:84-121 | the hand-written list stays in front; behind it come passing names only: all in order, a permutation, or one |
| Groups.OptedOutKeepsItsList | internal/generator/yamlgen/inject.go:80-82 | include-proxies false leaves the list alone |
| Injection.InjectableIff | internal/generator/yamlgen/inject.go:21-58 | injection succeeds iff protocols are known, group blocks and patterns make sense and no provider chains dialers |
| Injection.InjectableRootIff | internal/generator/yamlgen/inject.go:21-58 | said in the document's own keys |
| Injection.InjectionKeepsTheRest | internal/generator/yamlgen/inject.go:21-58 | every other root pair stays; one proxy per client in order; groups keep number, order and everything but their own injection |
| Injection.AddedNamesAreProxies | internal/generator/yamlgen/inject.go:24-45 | every name a group gains is the name of a proxy in the document |
| Inject.ParseRemnawaveGroupOpts | internal/generator/yamlgen/inject.go:134-158 | fails iff the block is no mapping or an option does not decode; otherwise the last pair of each key wins |
| Inject.FilterNames | internal/generator/yamlgen/inject.go:124-132 | the matching, or the other, names in order |
| Inject.Shuffle | internal/generator/yamlgen/inject.go:106-108 | in place, always a permutation |
| Inject.InjectGroup | internal/generator/yamlgen/inject.go:75-122 | the nodes end up as the value-level injection of the group, and it fails exactly when that is undefined |
| Inject.InjectClash | internal/generator/yamlgen/inject.go:21-58 | the same for the whole document, changing only nodes of the document |
| QrCode.ColorRoundTrip | internal/qrcode/qrcode.go:46-61 | RRGGBB is read back channel by channel, with or without '#' |
| QrCode.ColorIs | internal/qrcode/qrcode.go:46-61 | each channel is its two digits, in either case, with or without '#' |
| QrCode.NoColorIff | internal/qrcode/qrcode.go:46-61 | exactly which texts are refused |
| QrCode.GeneratePNG | internal/qrcode/qrcode.go:64-116 | a pixel is foreground iff the module under it exists and is set; errors by exact conditions |
| QrCode.PictureFillsSize | internal/qrcode/qrcode.go:79-90 | Size - moduleCount < actual size <= Size whenever moduleCount <= Size |
| QrCode.PixelsAreTheMost | internal/qrcode/qrcode.go:79-83 | a module takes as many pixels as fit, and one if none does |
| QrCode.SquareStaysInside | internal/qrcode/qrcode.go:92-109 | for a square bitmap and margin >= 0 no write misses the image |
| QrCode.GenerateSVG | internal/qrcode/qrcode.go:121-156 | exactly one unit rectangle per set module, shifted by the margin |
| QrCode.SamePicture | internal/qrcode/qrcode.go:64-156 | PNG and SVG show the same picture |

## Left out

- SQLite, HTTP, JSON and logging: a table is a sequence or map, a statement or transaction is atomic, error texts
  are dropped and "record not found" is an error constructor instead of a message fragment.
- Store writes that fail: only a refused mark is modelled (`RecordLost`); other statements succeed.
- Time: clock readings are inputs; in the outbox and `TtlCache` they never decrease.
- The worker's invalidate callback and the pause between Ticks.
- Convergence after reordered retries of one client, after a rename, after a reset of a disabled user, or after a
  crash or an overlap that the conditions above exclude: the code does not provide it, and the lemmas say exactly
  where it ends.
- Listing and paging of users and jobs, form parsing, host overrides, assignments to client types, config
  validation, pages, sessions, the rate limiter: one-pass code that would add only easy members.
- vless, trojan and vmess links, and net/url beyond what ss:// needs.
- importApplications and importThemes; the theme cache, which compares two different counts and reloads every time
  a theme has an HTML file (internal/theme/theme.go:130), so it promises no agreement.
- YAML parsing and printing, comments and anchors: injection never writes those fields. An alias keeps its target
  outside the shape, so what an alias stands for is not modelled.
- Regular expressions, the decoding of a node as a boolean and random choices: parameters or nondeterminism.
- QR encoding, PNG compression and SVG formatting.
- TmplCache.Cache.Get: where rows are not Apart it does not say which of the rows that share a cache key the answer is
  the parse of, because that depends on what was asked for before.
- Importer.ReimportIdempotentIff: not promised for every disk, because two files that map to one key and differ
  alternate between imports.
- ShareLink.Sip002RoundTrip: the host holds none of '@', '#', '?', '[' and ']', and there is no '/' before the query,
  which the parser takes for part of the port.
- ShareLink.ParseShareLink: for a vless, trojan or vmess link it says only which parser takes it, because those
  parsers are left out.
- Inject.InjectClash: after an error nothing is said about the nodes it had already changed, because the caller
  drops the document.
