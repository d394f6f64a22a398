# BriefRelay: proofs about a server whose requests interleave

BriefRelay is a client portal in one Go binary with SQLite behind it. All writes go through one
connection, so a transaction is one atomic step; but a request reads first, through other connections,
and commits later, and in between anything else may happen. Uploads reach the disk before their
transaction, purges delete a blob before its row, workers hold jobs between two transactions, and the
process may stop anywhere. These Dafny modules model that server and prove what it keeps.

`dafny verify dfyconfig.toml` checks everything.

## How it is built

- `Basics` and `Timestamps`: numbers as text, the Gregorian calendar, and the RFC 3339 text (with
  trailing zeros of the fraction dropped) that every deadline is compared by.
- `JobTable`, `Jobs`, `Workers`, `Exclusion`, `Dedupe`, `DedupeKeys`: the job queue. `JobTable` has the SQL statements as
  functions, the class `Jobs.Queue` runs them, and `Workers` lets any number of workers, crashes and
  stale locks interleave.
- `Domain`, `Schema`, `Server`, `Served`: states, tables, and transactions, as functions and in the handlers' form, and
  what each request does from its form to its transaction.
- `Requests`: the server as steps (`Read`, `Commit`, `Upload`, `Clean`, `PurgeBlob`, `Restart` and so
  on). `Run(Start(clock), steps)` is a reachable state; the theorems are about every list of steps.
- `Identity`, `Approval`, `Progress`, `Races`, `Effects`, `Signoffs`, `Notices`, `Announcements`, `Mailbox`, `Handoff`, `Folders`, `Guards`,
  `Closing`, `Readiness`: version numbers, decisions, racing requests, sign-offs, mail, what closing promises, and
  when a project stops being ready.
- `FileTables`, `FileLife`, `LogoSwap`, `Storage`, `Backup`, `WalkOrder`, `Restore`: files on disk and in the
  tables, and backups.
- `Clients`: organizations, their users and permanent deletion, with its own small state machine.
- `Limiter`, `Money`, `Like`, `Import`: self-contained algorithms.

## What the code does not give

Where the source or its documentation says more than the code does, the model follows the code.

- Deadlines hold up to one second, not exactly: text order is not time order inside a second
  (`Timestamps.TextOrder` is the exact rule, `Timestamps.WholeSecondSortsLast` the reversal).
- `Options.DedupeKey` promises a no-op "forever" (`internal/jobs/jobs.go:47`). It is one exactly until a `Cleanup`
  takes the row, 30 days after its finish (`Dedupe.NoOpExactly`, and `Dedupe.NotForever` for a run). Recurring work
  and mail are still not repeated, for other reasons, which are proved.
- Two workers hold one job exactly when a claim takes a row whose worker is still running (`Exclusion.LostExactly`,
  and `Exclusion.SlowHandlerShares` for a run); the first one's finish then unlocks the row under the second.
- A closed project is read-only, and signed off once per closing, while requests run one at a time
  (`Closing.ClosedIsReadOnly`). Otherwise requests that read before the closing can still change it: exactly those
  whose guard holds (`Closing.ClosedExactly`, `Closing.FurtherSignoffExactly`). `Closing.DoubleSignoff`
  holds in every state where a sign-off can start.
- A sign-off can be recorded of a project that is no longer ready (`Closing.SignedWhenNotReady`), for the checklist is
  read before the transaction. What a commit in between must do to a ready project for that, exactly: add a required
  deliverable, require one that is neither waived nor approved, un-require or delete the only required one, add a
  version to a required one that no waiver covers, or delete the project (`Readiness.UnreadyExactly`). Without one the
  record is of a ready project (`Readiness.SignedWhenReady`), as it always is while requests run one at a time.
- `settingsSave` marks the logo named by the settings cache. Two overlapping saves leave a live file that
  nothing holds (`LogoSwap.LogoLeaks` is a run); `LogoSwap.SwapExact` and `LogoSwap.HeldThroughoutExactly` say exactly when.
- `backup.Write` is documented as safe while the app runs. A file that vanishes after its directory was
  listed makes `addFile` fail with "not exist", which `Write` swallows: the archive ends there, with no error
  (`internal/backup/backup.go:51`). `Backup.BackupCanMissLiveFile` is a run in which a live file is missing,
  `WalkOrder.StoppedExactly` says exactly when a walk is cut short, `WalkOrder.CompleteExactly` exactly when an archive
  is complete, and `Restore.RestoredExactly` what it restores.
- `parseMoney` reads "-0.50" as 50 cents and "1.-5" as 95, and a whole part whose cents do not fit an int64 wraps
  around; `Money.FaithfulExactly` says which accepted texts are read as what they denote. (The table refuses a
  negative amount, `internal/db/migrations/0002_domain.sql:128`.)
- Two submissions of one brief can share a mail key, so the second may not be mailed
  (`Mailbox.IntakeKeysRepeat`).

## Model

| member | source | states |
|---|---|---|
| Timestamps.TextOrder | internal/db/db.go:122 | stored timestamps sort by time except, exactly, when both lie in one second and the earlier fraction is a prefix of the later |
| Timestamps.EarlierSecondSortsFirst | internal/db/db.go:122 | an instant in an earlier whole second always sorts first |
| Timestamps.WithinASecond | internal/jobs/jobs.go:130-131 | a comparison of stored deadlines is right up to one second, in both directions |
| Timestamps.WholeSecondSortsLast | internal/db/db.go:122 | the slack is real: a whole second sorts after every later instant of that second |
| Timestamps.ParseTimeOfTime | internal/db/db.go:122-124 | reading a stored timestamp gives back the instant that was stored, to the nanosecond |
| Timestamps.TimeInjective | internal/db/db.go:122 | two instants are stored as the same text only if they are equal |
| JobTable.SelectedExists | internal/jobs/jobs.go:130-141 | the claim finds a row exactly when one is ready, so "no rows" means nothing is due |
| JobTable.SelectedUnique | internal/jobs/jobs.go:130 | ORDER BY run_at, id leaves no choice: the claimed row is determined |
| JobTable.SelectedFirst | internal/jobs/jobs.go:130 | no ready job sorts before the claimed one, is due in an earlier second, or has its instant and a lower id |
| JobTable.ReadyMeans | internal/jobs/jobs.go:130-131 | a job is ready when it is unfinished, due, and unlocked or locked longer ago than the stale limit; as times up to one second, both ways |
| JobTable.KnownInstants | internal/jobs/jobs.go:110 | the origins of buckets and of Unix time, and the day, hour and second, as texts that denote them |
| JobTable.WholeBucket | internal/jobs/jobs.go:110 | buckets of whole-second intervals begin on whole seconds |
| Jobs.Backoff | internal/jobs/jobs.go:176-182 | the loop computes the smaller of 30 s times 4 to the attempt minus one and 6 h, within int64 |
| Jobs.BackoffFormula | internal/jobs/jobs.go:175-182 | the recursive schedule used by the table is the documented closed formula |
| Jobs.Queue.Enqueue | internal/jobs/jobs.go:55-73 | defaults for run time and attempts, then an insert that a taken key turns into nothing |
| Jobs.Queue.Schedule | internal/jobs/jobs.go:104-120 | one insert per registered kind, keyed by the bucket of the clock at its turn |
| Jobs.Queue.ClaimNext | internal/jobs/jobs.go:128-144 | locks the job that is due first and counts the attempt, or finds none that has been due for a second and is free, and changes nothing |
| Jobs.Queue.RunOne | internal/jobs/jobs.go:123-164 | claim of the job that is due first, handler and finish in order; not worked means nothing was ready |
| Jobs.Queue.Drain | internal/jobs/jobs.go:87-95 | the inner loop of Run ends, with no claim lost and nothing enqueued, and then nothing is ready |
| Jobs.WorkFalls | internal/jobs/jobs.go:151-163 | each job run strictly lowers the attempts left over all unfinished rows |
| Jobs.RunsAgainExactly | internal/jobs/jobs.go:151-163 | after its finish a job is ready again exactly when it failed with attempts left and the backoff is over as text compares it, so less than a second early |
| Jobs.RunOneIsARun | internal/jobs/jobs.go:123-164 | one undisturbed RunOne is a run of the interleaved workers: claim, handler, finish |
| Workers.AttemptsBounded | internal/jobs/jobs.go:129-163 | over all runs attempts never exceed max_attempts plus the stale-lock reclaims of that job |
| Workers.DoneForever | internal/jobs/jobs.go:151-163 | done_at once set is never cleared while the row exists, even by a late worker |
| Workers.MutualExclusion | internal/jobs/jobs.go:128-137 | if every finish commits within StaleLock less a second of its claim, no two workers hold one job |
| Workers.NeverEarly | internal/jobs/jobs.go:130-131 | no job is claimed a second or more before its run_at |
| Workers.ClaimsFirst | internal/jobs/jobs.go:128-141 | among any workers a claim takes the job due first, and it takes one whenever one has been due, and free or stale, for a second |
| Workers.CrashLosesNothing | internal/jobs/jobs.go:128-137 | after a crash the row keeps its lock and count, and once the lock is stale a claim takes a job again |
| Workers.StaleFinishClearsLock | internal/jobs/jobs.go:151-163 | a worker whose lock was reclaimed unlocks the row the second worker is still running, whatever its own outcome |
| Exclusion.LostExactly | internal/jobs/jobs.go:129-138 | a step makes two workers hold one job exactly when it is a free worker's claim of a row still being run, whose lock is older than the stale limit |
| Exclusion.ExclusiveExactly | internal/jobs/jobs.go:123-164 | over any run no job ever has two workers exactly when no claim takes a row still being run |
| Exclusion.SlowHandlerShares | internal/jobs/jobs.go:128-163 | a run from the empty table, for every stale limit, ends with two workers on one job and the first one's finish unlocking the second one's row |
| Dedupe.OneJobPerKey | internal/db/migrations/0001_foundation.sql:68 | in every reachable state a dedupe key names one job at most |
| Dedupe.RowStaysExactly | internal/jobs/jobs.go:197-201 | a row is there after any steps exactly when no Cleanup among them found it finished for more than 30 days |
| Dedupe.NoOpExactly | internal/jobs/jobs.go:47-73 | a second enqueue under a key is a no-op exactly until a Cleanup takes the first one's row; the first enqueue after that inserts a job |
| Dedupe.StaysThirtyDays | internal/jobs/jobs.go:197-201 | that is 30 days less a second from the finish at least, with a clock that does not go back |
| Dedupe.PurgedLate | internal/jobs/jobs.go:197-201 | a row that went was finished, for 30 days less a second: an unfinished job keeps its key for ever |
| Dedupe.NotForever | internal/jobs/jobs.go:47 | a run in which a second enqueue under a key inserts a job |
| Workers.CleanupKeeps | internal/jobs/jobs.go:198-201 | Cleanup never deletes the row of a bucket less than a day old |
| Workers.RecurringOnce | internal/jobs/jobs.go:104-120 | over runs with restarts and cleanups recurring work is enqueued exactly once for each bucket ticked |
| DedupeKeys.EveryKeyInjective | internal/jobs/jobs.go:111 | a schedule key names one kind and one bucket |
| DedupeKeys.MailKeyInjective | internal/web/notify.go:65 | a mail key names one kind, record and user, even when the record holds colons |
| DedupeKeys.KeyFamiliesDisjoint | internal/web/notify.go:65 | schedule, notification and invitation keys never meet |
| Domain.ForwardOnly | internal/domain/domain.go:34-80 | every permitted move goes strictly forward, so no state is entered twice |
| Domain.EveryMove | internal/domain/domain.go:34-47 | the eight moves of a version with the roles that may make them, and no others |
| Domain.EveryStatusChange | internal/domain/domain.go:49-80 | the four status changes of an invoice, and after which newest states a draft may follow, with or without a reason |
| Served.LetThroughExactly | internal/web/authz.go:123-159 | the read lets each of the 18 kinds of request through exactly when its record is there, its project open (or closed, for reopening and deleting), and its state the one the rules name |
| Served.DropServed | internal/web/export.go:265-281 | deleting a closed project, or any with its client, leaves nothing of it and everything of every other |
| Served.DropDeliverableServed | internal/web/deliverables.go:186-209 | a deliverable of an open project goes exactly while all its versions are drafts |
| Served.VersionServed | internal/web/deliverables.go:346-407 | a draft under the next number, with the uploaded file, comes exactly into an open project after nothing, a revision request, a withdrawal, or an approval with a reason |
| Served.ShareServed | internal/web/deliverables.go:416-457 | sharing moves exactly a draft of an open project, and announces it |
| Served.WithdrawServed | internal/web/deliverables.go:416-457 | withdrawing moves exactly a draft or shared version of an open project, and announces it |
| Served.AnswerServed | internal/web/portal.go:364-425 | an approval or a revision request of a shared version moves it, records the decision and announces it; anything else changes nothing |
| Served.DropVersionServed | internal/web/deliverables.go:467-485 | exactly a draft of an open project goes, and its file is deleted as of now |
| Served.SignServed | internal/web/portal.go:580-612 | a sign-off with the checklist is recorded, announced, and closes the project exactly when that is open and ready |
| Served.ChangeInvoiceServed | internal/web/invoices.go:116-152 | a document replaces the one before exactly on draft and sent invoices of an open project |
| Served.MoveInvoiceServed | internal/web/invoices.go:163-199 | an invoice makes exactly the four changes, and sending it is announced |
| Served.RevisionRound | internal/web/portal.go:364-425 | from every reachable state with a shared version a client's revision request is recorded and the next draft follows without a reason |
| Served.WholeProject | internal/web/portal.go:580-612 | a run from the empty database through a revision, a second version, its approval and the sign-off, with exactly those rows and notices |
| Served.LostRequest | internal/web/deliverables.go:407-412 | a request dropped, given up or cut off by a restart after its read changes nothing any more |
| Identity.DistinctRun | internal/db/db.go:127-133 | rows come only under ids drawn by one request, so no commit overwrites a row of another |
| Approval.CreateVersionSound | internal/web/deliverables.go:379-407 | a new draft gets the next number only when everything before it is final, and keeps the record sound |
| Approval.DeleteDraftSound | internal/web/deliverables.go:473-485 | deleting a draft leaves no gap and never meets the foreign key of decisions |
| Approval.DeleteDeliverableSound | internal/web/deliverables.go:192-209 | so does deleting a deliverable whose versions are all drafts |
| Approval.DeleteProjectSound | internal/web/export.go:265-281 | deleting a project never meets a foreign key of the approval tables |
| Approval.VersionNumbers | internal/web/deliverables.go:379-435 | in every reachable state the numbers of a deliverable are exactly 1..n, each once, and all but the newest are final |
| Approval.DecisionsMatch | internal/web/portal.go:397-420 | an answered version has exactly one decision, of its own type, and any other version none |
| Approval.DeletesNeverBreakKeys | internal/db/migrations/0002_domain.sql:114-121 | no pending delete of drafts, deliverables or projects can fail on a foreign key |
| Progress.TransactForward | internal/web/deliverables.go:426-435 | no transaction moves a version or invoice back or out of a final state, or changes anything else of a version |
| Signoffs.StepPermanent | internal/web/deliverables.go:186-206 | no step touches a final version or its decision while the project exists |
| Signoffs.FinalForever | internal/web/deliverables.go:466-485 | a final version is found unchanged in its project after any further steps, until the project is deleted |
| Signoffs.SnapshotsTrue | internal/web/portal.go:580-612 | every recorded snapshot has rows, all approved or waived, and each approval it lists is approved with its decision in every later state |
| Handoff.LoadHandoff | internal/web/portal.go:165-178 | the loop marks each row and is ready exactly when there are rows and all are satisfied |
| Handoff.DefinitionsAgree | internal/web/home.go:131-135 | the overview lists a project exactly when the sign-off guard of an active project lets it through, in every reachable state |
| Handoff.SameNewest | internal/web/home.go:88 | the join on max(number) and ORDER BY number DESC LIMIT 1 find the same, single version |
| Handoff.WaiverShown | internal/web/portal.go:159 | the newest waiver's text is empty exactly when there is no waiver, since reasons are not |
| Handoff.RowShowsNewest | internal/web/portal.go:157-163 | a line shows the number and state of the version above all others of its deliverable |
| Handoff.RowShowsWaiver | internal/web/portal.go:159 | and the reason of the waiver given in a later second than the others |
| Folders.TransactApart | internal/web/authz.go:145-159 | a request changes nothing recorded about any project but its own |
| Guards.ChangesExactly | internal/web/deliverables.go:379-485 | the commit of a request changes what is recorded about its project exactly when that request's guard holds of the project as it then is |
| Closing.ClosedIsReadOnly | internal/web/authz.go:136-143 | one request at a time, everything about a closed project stays until it is reopened or deleted |
| Closing.ClosedExactly | internal/web/authz.go:136-143 | under any interleaving a closed project stays as it is until reopened or deleted exactly when no request that read before, about it, has its guard satisfied |
| Closing.FurtherSignoffExactly | internal/web/portal.go:597-603 | a step records a further sign-off of a closed project exactly when it commits one that had read before |
| Closing.DoubleSignoff | internal/web/portal.go:597-603 | two sign-offs that read before either commits are both recorded for one closing |
| Closing.SignedWhenNotReady | internal/web/portal.go:580-603 | a sign-off is recorded although its project stopped being ready after the checklist was read |
| Readiness.ReadyIs | internal/web/home.go:131-135 | in every reachable state being ready and open is the overview's condition, and being ready is what the checklist computes, in any row order |
| Readiness.UnreadyExactly | internal/web/deliverables.go:101-407 | in every reachable state a step makes a ready project unready exactly when it commits a request about it that adds a required deliverable, requires an unsatisfied one, un-requires or deletes the only required one, adds a version after an approval no waiver covers, or deletes the project |
| Readiness.ReadyThroughoutExactly | internal/web/portal.go:157-178 | over any steps a ready project stays ready throughout exactly when none of them is such a commit |
| Readiness.SignNeedsReady | internal/web/portal.go:580-595 | a sign-off is let through exactly when its project is open and ready then |
| Readiness.SignedWhenReady | internal/web/portal.go:580-603 | from its read to its commit a sign-off's project is ready throughout exactly when no such commit comes between, and then what is recorded is of a ready project |
| Readiness.SerialSignoffsReady | internal/web/portal.go:580-603 | with requests one at a time every recorded sign-off is of a project that was open and ready, and is ready still |
| Closing.SomeProjectCanSign | internal/web/portal.go:580-595 | a run from the empty database reaches a project that can be signed off |
| Notices.NoticesNeverRepeat | internal/web/deliverables.go:426-449 | no version is announced shared or withdrawn twice, no invoice sent twice, over any run |
| Notices.FreshNotice | internal/web/invoices.go:174-199 | the transaction that announces an event is the one that makes it impossible to announce again |
| Announcements.AnnouncedAtOnce | internal/web/deliverables.go:426-457 | a step adds a notice exactly for what it makes happen: a version shared or withdrawn, a decision, a sign-off, an invoice sent |
| Announcements.AnnouncedExactly | internal/web/notify.go:43-70 | over any run a notice was given exactly when its event happened at some time, once, and what the tables still show has its notice |
| Mailbox.Outbox.Notify | internal/web/notify.go:45-70 | everyone but the actor is told, and a mail is offered to those who want mail; a missing user is an error |
| Mailbox.EachTakenOnce | internal/web/notify.go:64-67 | after notify every offered key has its job, and none was taken twice |
| Mailbox.AtMostOneMail | internal/web/notify.go:43-44 | at most one mail job per event, record and user over any run, whatever happens to the jobs table in between |
| Mailbox.IntakeKeysRepeat | internal/web/portal.go:515-541 | two submissions share a mail key exactly when the first submitted an existing draft and the second followed directly |
| FileTables.TransactFiles | internal/web/deliverables.go:302-306 | every transaction keeps files that are held live and held once, and adds at most the upload's row |
| FileLife.FilesDo | cmd/briefrelay/main.go:279-286 | every step, crashes included, keeps the invariant on rows, blobs, uploads, purges and the logo cache |
| FileLife.HeldFilesAreWhole | internal/web/deliverables.go:302-306 | in every reachable state a held file has a live row and its blob on disk, and one holder |
| FileLife.PurgeNeverFails | cmd/briefrelay/main.go:279-286 | the purge's row delete never meets a foreign key |
| LogoSwap.SwapExact | internal/web/settings.go:140-154 | a logo swap leaves every live file held exactly when the cached logo was the database's or there was none |
| LogoSwap.HeldThroughoutExactly | internal/web/settings.go:140-154 | over any run every live file is held throughout exactly when no save replaced a logo other than the one it saw |
| LogoSwap.LiveExactlyWhenHeld | internal/web/settings.go:139-170 | with settings saved one at a time deleted_at is NULL exactly when some row holds the file |
| LogoSwap.OverlappingSavesLeak | internal/web/settings.go:140-154 | two overlapping saves always leave the first one's logo live and unheld |
| LogoSwap.LogoLeaks | internal/web/settings.go:140-154 | a run from the empty database in which that happens |
| Storage.Local.Save | internal/storage/storage.go:41-78 | an upload appears whole under its key or not at all, whenever the process dies |
| Storage.Local.Delete | internal/storage/storage.go:87-96 | deleting a key of 32 hex digits removes the object, and an absent object is no error |
| Storage.Local.CleanTemp | internal/storage/storage.go:109-120 | exactly the temporary files older than the given age go |
| Backup.ProtectedDo | cmd/briefrelay/main.go:266 | a blob live at some time survives every step until seven days less a second later |
| Backup.PurgeTakes | cmd/briefrelay/main.go:262-288 | from a second after those seven days on a deleted file can be chosen, and then its blob and its row go and no other row |
| Backup.VisitApart | internal/backup/backup.go:38-50 | each stored object comes up in the walk once |
| Backup.ArchivedOrWaiting | internal/backup/backup.go:38-50 | at any point of the walk within that time each live blob is archived or still waiting, never both |
| WalkOrder.VisitInOrder | internal/backup/backup.go:38-50 | what the walk archived sorts before everything it still has to visit |
| WalkOrder.CompleteExactly | internal/backup/backup.go:26-58 | a backup of the running server is complete exactly when no listed file had vanished at its turn, or the first that had sorts after every live blob |
| WalkOrder.StoppedExactly | internal/backup/backup.go:38-53 | a walk that has ended was cut short exactly when some step took a blob that the walk had listed and not yet visited |
| WalkOrder.ListingExists | internal/backup/backup.go:38-50 | every directory the walk comes to has a sorted listing, so the walk can always go on |
| Backup.NeverStops | internal/backup/backup.go:38-50 | a walk during which no blob is removed never stops early, whatever else the server does |
| Backup.VanishedFileCutsBackup | internal/backup/backup.go:49-53 | whenever a listed blob is purged before its turn, every live blob behind it is missing and no error is reported |
| Backup.UploadsReached | internal/web/invoices.go:94-106 | the state of the counterexample is reached by a run of the server |
| Backup.BackupCanMissLiveFile | internal/backup/backup.go:51 | a concrete run of the walk there ends with a live file missing from the archive |
| Restore.DataDir.Restore | internal/backup/backup.go:78-124 | a restore is refused for a name, a file that is there, or a missing database exactly when the first bad entry is of that kind; else it makes exactly the regular entries, and no file outside the directory; it never overwrites one |
| Restore.GoodNameExactly | internal/backup/backup.go:96-99 | the name check lets through exactly "app.db" and names below "files/" without two dots in a row |
| Restore.AllowedStaysInside | internal/backup/backup.go:96-101 | walked part by part such a name is relative and never leaves the directory |
| Restore.UnpackObjects | internal/backup/backup.go:83-118 | an archive as Write makes it unpacks to the snapshot and exactly its objects |
| Restore.RestoredExactly | internal/backup/backup.go:26-124 | however its walk ended, a backup restores, and every live row has its object exactly when no listed file had vanished or the first that had sorts after every live blob |
| Races.SecondClickLoses | internal/web/deliverables.go:426-435 | of all requests that share, withdraw, answer or delete a version from one state one commits; every other is refused, however late |
| Races.InvoiceMovesOnce | internal/web/invoices.go:174-184 | an invoice is sent, paid or canceled once; the same change later is refused |
| Effects.DraftDeleteUndoesCreate | internal/web/deliverables.go:473-485 | deleting a draft undoes its creation, number included; only its upload remains, as a deleted row |
| Effects.DeliverableDeleteUndoesCreate | internal/web/deliverables.go:192-209 | deleting a deliverable without versions undoes its creation |
| Effects.DeliverableGoesExactly | internal/web/deliverables.go:186-209 | a deliverable can be deleted exactly while every version is a draft; then what names it is gone, its files are deleted, and every other row is as it was |
| Server.Database.VersionCreate | internal/web/deliverables.go:379-407 | the statements of versionCreate have the effect of the transaction, rolled back on refusal |
| Server.Database.PortalSignoff | internal/web/portal.go:597-603 | the sign-off is recorded, and the project closed if it was open; nobody checks which |
| Server.Database.InvoiceEdit | internal/web/invoices.go:128-152 | only draft and sent invoices change; a new document replaces and marks the old one |
| Server.Database.ProjectDelete | internal/web/export.go:265-281 | deleteProjects marks the files, deletes the decisions, then the project with all below it, and no decision is left to object |
| Server.Database.CleanupFiles | cmd/briefrelay/main.go:262-288 | undisturbed, the purge deletes blob and row of files deleted for seven days, right to a second, all of them unless the batch was full, and never fails |
| Server.Database.Select | cmd/briefrelay/main.go:266-278 | the batch is of rows deleted for seven days, right to a second, at most 500, each once, and all of them when it is not full |
| Clients.Store.ClientDelete | internal/web/export.go:318-349 | the statements and the loop over users delete the organization or roll back on a foreign key |
| Clients.ClientRowsInside | internal/web/authz.go:106-114 | every row that names a client user lies under the projects of that user's organization |
| Clients.ClientDeleteIsClosed | internal/web/export.go:307-349 | deleting an organization never fails on a key, leaves no dangling reference, and changes nothing of another organization |
| Clients.SeesExactly | internal/web/authz.go:106-114 | in every reachable state a client user reads and writes exactly the projects of its contact's organization, and none once the contact is removed |
| Clients.ArchivedFirst | internal/web/export.go:307-349 | an organization goes only by a delete that was read while it was archived |
| Clients.OrganizationStory | internal/web/export.go:307-349 | a run in which a contact joins, signs off and is removed, and the archived organization goes with all that was its own |
| Limiter.IpLimiter.Allow | internal/web/limiter.go:39-49 | one call finds or makes the bucket, stamps it, and takes a token if there is one |
| Limiter.IpLimiter.Evict | internal/web/limiter.go:28-32 | the loop forgets exactly the addresses idle for more than ten minutes |
| Limiter.ForgettingIsInvisible | internal/web/limiter.go:23-49 | every answer is that of a limiter that never forgets, for all calls and evictions |
| Limiter.InvisibleExactly | internal/web/limiter.go:23-37 | and that holds exactly when the burst is at most ten minutes of the rate |
| Limiter.ServerLimits | internal/web/server.go:83 | both limiters of the server satisfy the condition |
| Limiter.WindowBound | internal/web/limiter.go:23-49 | an address gets at most burst + rate * T calls through in any window T |
| Money.ParseMoney | internal/web/invoices.go:24-42 | the loop form of parseMoney computes its specification, errors included |
| Money.ParsedExactly | internal/web/invoices.go:24-42 | for every text, whether it is accepted and the cents it gives, in terms of the cut, the whole without commas and the fraction |
| Money.TrimExactly | internal/web/invoices.go:25 | trimming takes away the white space at both ends and nothing else |
| Money.FaithfulExactly | internal/web/invoices.go:24-42 | an accepted text is read as the decimal number it denotes exactly when its fraction has no sign, a minus leaves nothing to negate, and the cents fit an int64 |
| Money.AmountRoundTrip | internal/web/server.go:73 | what the edit form prints parses to the same cents exactly for the amounts an int64 holds |
| Money.DigitsReadExactly | internal/web/invoices.go:24-42 | digits with commas and at most two decimals give a hundred times their value exactly when that fits |
| Money.WrapsAround | internal/web/invoices.go:41 | above that a whole part in range gives a wrapped amount |
| Money.MinusIsLost | internal/web/invoices.go:33-36 | a minus before a whole part of zero is lost |
| Money.MinusFifty | internal/web/invoices.go:33-36 | "-0.50" is read as 50 cents |
| Money.SignedFraction | internal/web/invoices.go:30-41 | a sign in the fraction is read as a number of its own, so "1.-5" is 95 cents and "0.+5" is 5 |
| Like.SearchIsContainment | internal/web/clients.go:78-80 | an escaped search matches exactly the texts that contain the query, up to ASCII case |
| Like.EscapedMatches | internal/web/clients.go:108-110 | an escaped text matches itself letter by letter and has no wildcards |
| Import.Directory.Import | internal/web/export.go:103-157 | the loop adds or finds each row's organization and contact; any bad line refuses the whole file |
| Import.AcceptedExactly | internal/web/export.go:103-157 | a file is accepted exactly when it has at most 5000 lines, each with a name of 1 to 200 characters and no bad e-mail |
| Import.EveryLineIsThere | internal/web/export.go:103-157 | afterwards every line's organization is there, up to ASCII case, and its contact in one of that name |
| Import.ImportOnlyAdds | internal/web/export.go:69-70 | nothing is overwritten, and the counts are what was added |
| Import.ImportTwice | internal/web/export.go:69-70 | importing an imported file again adds nothing |

## Left out

- Reads: a request's read is one atomic step. In the source the authorization, the record and the checklist
  are separate queries, so a request may also combine answers from slightly different moments.
- Clocks: `Requests` has one clock that does not go back; `Workers` takes the times of claims and cleanups
  as parameters, and assumes a clock that does not go back only for `Workers.RecurringOnce`.
- Ids: random ids are numbers that are never drawn twice, and their text in a key is their decimal text. Job ids are
  never reused, although SQLite may reuse the highest deleted one; a worker that outlives the 30 days could then
  finish a row that is not its own.
- Workers.AttemptsBounded: relies on job ids never being reused, as do `Workers.DoneForever` and `Dedupe.NoOpExactly`.
- Uploads: here an upload reaches the disk before its request reads, as in `settingsSave`; the other handlers authorize
  and read first, then store the upload, then open the transaction. No step but a
  backup looks at a blob before its row exists.
- Commit errors count as not committed; I/O errors other than a missing file, and out-of-disk, do not occur.
- Form validation, but for the reason of a waiver (its length) and of a new version.
- Columns that decide nothing (titles, notes, links, amounts of an invoice row) and job payloads; comments,
  milestones and the brief appear only where a property needs them.
- Timestamps: years 0000 to 9999, and `ParseTime` for texts that end in Z, which is all that `Time` writes.
- `Requests`: notices of comments and clarifications, which take a new id each; `invoice.sent` is a notice even for
  an internal invoice, for which `Mailbox` then has no recipients.
- Seed data, the demo reset and migrations; the routing, forms, templates, permission matrix, sessions and passwords.
- Restore: names are compared as written; a hand-made archive with "files//x" beside "files/x" is not covered.
- Restore.DataDir.Restore: does not model directories or a failure to create one.
- Backup.ArchivedOrWaiting: says nothing of walks that end more than seven days less a second after the snapshot.
- Backup: a directory is listed at one moment, and the `tmp` directory, which the walk skips, is not modelled.
- Storage.Local.Save: does not model the hash and the media type, nor a failing disk.
- Limiter: the mutex, and `golang.org/x/time/rate` itself, which is a bucket of real numbers that starts full.
- Limiter.WindowBound: assumes the refill condition, which is the exact one for evictions to be invisible.
- Money: names no currency; `strings.TrimSpace` is modelled on characters.
- Like: NUL characters, and SQLite's pattern length limit.
- Import: reading CSV itself and Unicode lower-casing of e-mails; lengths are counted in characters, not bytes; the
  spreadsheet escaping of the export, so no round trip through it is claimed.
- Requests: deleting an organization is one transaction in the source; here its projects go one after the other, by
  `DropProject` requests that need not find them closed, which allows more interleavings.
- Clients: staff see every project; in the source only owners do, and staff the projects they are members of.
- Clients: sessions, memberships and notifications, which cascade with their user, and the columns
  `created_by`, `files.uploaded_by` and `deliverable_versions.shared_by`, since only staff create, upload and share. The archived flag is read before the delete and not again, as in the source.
- Handoff: the row order (`sort_order, created_at`) is any order, and the LIMIT 10 of the overview is not modelled.
- The audit log, search pages, exports as zip, health counts and notification pages.
