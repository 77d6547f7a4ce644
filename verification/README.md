# TruBudget: proofs about the blockchain supervisor, backups, migration, export, redaction and provisioning

This project models the parts of TruBudget in which a mistake would be hard to see by reading one function, and proves
what they keep and where they fall short. `dafny verify dfyconfig.toml` checks everything.

| file | what it models |
|---|---|
| `Supervisor.dfy` | the process that runs the MultiChain daemon, restarts it, and stops it for backups and restores: an interleaved state machine, and a class whose methods are its steps |
| `DirectoryHash.dfy` | the recursive directory digest, as the algorithm and as a function of the tree |
| `Backup.dfy` | writing a backup's metadata, admitting an archive, moving it into place |
| `Migration.dfy`, `Difference.dfy` | copying streams to another chain, reading every copy back, and the structural difference the check rests on |
| `ExcelExport.dfy` | the streamed export into six sheets |
| `Redaction.dfy` | which history events a user sees and what is deleted from them in place |
| `Provisioning.dfy`, `ProvisioningRequests.dfy`, `TemplateOrder.dfy` | the find-or-create driver that can be cut off anywhere and started again; the requests a template calls for and their guards; which templates can be carried out |
| `QueryString.dfy`, `SearchBar.dfy`, `Paging.dfy`, `Inheritance.dfy` | the regular expressions on URLs, the search bar's two conversions, paging, copying properties between heap objects |
| `Prelude.dfy` | options, results, concatenation |

How the outside world enters. A daemon may exit at any time; a request to a server or a chain may fail at any time and
then has no effect; the clock, the network and the file system's order of entries are parameters or free choices (`*`).
SHA-256 is an arbitrary function: where a theorem needs it, it assumes a fixed output length and no collision among the
texts hashed for the two trees at hand, nothing more.

## What the proofs show about the code

* **One daemon at a time.** In every run in which a maintenance request is admitted only while no other one is in
  progress, no restart is pending, and the daemon has been started (or is about to be), there is never more than one
  daemon or pending restart and nothing writes the chain directory while a request works on it. The guard is exact: a
  request admitted without it has a continuation that breaks this (`Supervisor.AdmissionIff`). The code does not check
  the guard (blockchain/src/index.js:272, 367, 447).
* **A backup is accepted** by a node exactly when the directory could be hashed as it was taken, organisation and major
  version agree, and the packed configuration holds the node's password. When hashing fails the backup is sent all the
  same, with the word `undefined` for a hash, and is never accepted.
* **A restored directory** equals the saved one exactly when nothing at its top level is hidden: `*` in a shell pattern
  does not match a leading dot (blockchain/src/shell.js:57-60). If there is no chain directory yet, the archive is
  accepted and then thrown away.
* **Equal digests** mean, as long as no two of the texts hashed collide, that two directories hold the same files and
  directories in the same order, at every depth: ignored and special entries and all names aside, and up to a file that
  has the digest of a directory (`DirectoryHash.EqualDigestsIff`).
* **Migration** checks every copy, but for an item stored out of line the check compares nothing: what the node returns
  for a transaction output has no `data` property, and the difference of `undefined` and anything is empty. What is
  published for such an item is an empty object (migration/src/rpc.ts:82) - provided the destination's node accepts one,
  which the source does not show - and the copy passes (`Migration.LargeItemLost`, `Migration.MigrationLosesItem`); the
  fetched `itemToMigrate` is never published. A completed stream is faithful exactly when none of its items is of that
  kind. Also, a stream is listed key by key, so an item with several keys is copied several times and one without a key
  not at all (`Migration.CopiedOnceIff`), and a stream comes out in its own order exactly when each item carries one key
  and the items stand in the order of the keys (`Migration.OrderKeptIff`); migration/README.md:48 says that data remains
  untouched.
* **The export**, when it succeeds, has written the whole tree, and its six sheets determine it. Wherever it ends, every
  row's parent stands in its sheet. A subproject's budgets are written by an asynchronous callback that nobody awaits
  (excel-export-service/src/excel.ts:184), so after one of their rows has thrown the later ones are still written,
  before the unhandled rejection ends the whole service (excel-export-service/src/index.ts:121-124). What an export that
  fails leaves behind is a start of the rows exactly if no budget row was written after one that threw - provided that
  no two rows are the same; if two are, this is still enough (`ExcelExport.WriteXLSX`,
  `ExcelExport.SurvivorsAreStartIff`, `ExcelExport.LateExample`). A budget row throws if its entry is null
  (excel-export-service/src/excel.ts:188 reads `projectedBudget.value`) or if the writer does; the source shows no API
  that answers with such an entry.
* **Redaction** in place would make one user's request visible in the next user's answer if both were given the same
  event object: whoever lacks the right to see permissions removes them for everybody after
  (`Redaction.ViewUnchangedIff`). Nothing in api/src calls `onlyAllowedData` at present. No order of users ever shows
  anyone more than the fresh event would, and a user who is not entitled cannot tell who looked before. More groups and
  grants never hide anything from a user who is root already or does not become it. Becoming root hides nothing exactly
  if the list of all intents, which is all that root gets, has every intent the user was granted before
  (`Redaction.BecomingRootIff`). The list in the code (api/src/authz/intents.ts:167-229) forgets `network.declineNode`,
  a global intent (api/src/authz/intents.ts:85): who was granted it sees less as root.
* **Provisioning** never creates a sibling name twice, and nothing it did is ever undone, however often it is cut off
  and started again; this holds from any state of the server. If every project there that has a template's name was made
  by runs of the driver, each cut off anywhere, then a run that no request fails completes exactly if the template is in
  order (`TemplateOrder.InOrder`): whatever is named before an item must be closed by the time that item is to be, and
  closed parents must have only closed children. This holds for repeated names as well, the item lists of equally named
  subprojects counting as one. For differently named siblings it means that closed items come first; with repeated names
  even ordered subprojects can disturb each other (`Provisioning.RepeatedNameIsRefused`). The "testing update" requests
  for projects and subprojects are never sent: `project.status` and `subproject.status` are always undefined, the status
  being under `data` (provisioning/src/index.js:191, 249).
* **Cleaning a query** equals filtering its parameters exactly when no parameter is disturbed, that is, holds a second
  `=` in the wrong place or a value that merely starts with `undefined`, as `a=b=` and `a=undefinedly` are. As the path
  is part of the first parameter's name, an empty first parameter takes the path with it. A parameter with the value
  `undefined` leaves its ampersand, so its place is not clean: `a=undefined&b=2` becomes `&b=2`
  (`QueryString.CleanedText`, `QueryString.TwoParameters`).

## Model

| member | source | states |
|---|---|---|
| Supervisor.Daemons.SpawnProcess | blockchain/src/index.js:126-128 | a spawn gives a fresh process, remembers it and sets isRunning, whatever was running before |
| Supervisor.Daemons.InitMultichain | blockchain/src/index.js:161-207 | start-up is exactly the state machine's Init step: a daemon if AUTOSTART is set, otherwise isRunning cleared |
| Supervisor.Daemons.OnClose | blockchain/src/index.js:129-144 | a close event clears isRunning and arms a restart exactly if AUTOSTART is set at that moment |
| Supervisor.Daemons.OnRestartTimer | blockchain/src/index.js:142-146 | the timer spawns without looking at AUTOSTART again |
| Supervisor.Daemons.BeginMaintenance | blockchain/src/index.js:258-273 | a request clears AUTOSTART and captures the current process as the one to kill; it throws if there is none; admitted under the guard it keeps the program safe |
| Supervisor.Daemons.PollStop | blockchain/src/index.js:258-267 | each round kills the captured process, or leaves the loop once isRunning is false |
| Supervisor.Daemons.HashForBackup | blockchain/src/index.js:274 | the backup's work on the directory produces a backup of what the directory held |
| Supervisor.Daemons.InstallArchive | blockchain/src/index.js:449 | the restore's work leaves exactly the visible entries of the archive, in their order |
| Supervisor.Daemons.ImportWallet | blockchain/src/index.js:367-384 | the wallet restore changes the directory only between stop and respawn |
| Supervisor.Daemons.FinishMaintenance | blockchain/src/index.js:282-294 | every request ends in a respawn followed by AUTOSTART set again; a backup adds one archive of what it hashed and of the directory as it is then, other requests none |
| Supervisor.Daemons.PackAndRespawn | blockchain/src/index.js:274-294 | hashing, packing and respawning in one: exactly one archive more, of the directory as it was found and as it is with its metadata |
| Supervisor.Daemons.AbandonMaintenance | blockchain/src/index.js:297-300 | a request that throws reports the error and switches nothing on again |
| Supervisor.Daemons.DaemonExits | blockchain/src/index.js:129 | a process may end at any time; its close event comes later |
| Supervisor.Daemons.DaemonWrites | blockchain/src/index.js:126-128 | a running daemon may write to the chain directory at any time, with any outcome; under the guard on requests this harms nothing |
| Supervisor.KeepsValid | blockchain/src/index.js:126-148 | every step of the program, from a valid state and with the guard on requests, ends in a valid state, and valid states are safe |
| Supervisor.StepKeepsInv | blockchain/src/index.js:126-148 | every guarded step - close, timer, exit, write, each await point of a request - keeps the invariant |
| Supervisor.Safety | blockchain/src/index.js:126-207 | in every state of every guarded run: daemons plus pending restarts at most 1 and exactly 1 when AUTOSTART is set, isRunning true exactly when a process has not been closed, no daemon while a request works, every archive sent is a backup of the directory it hashed |
| Supervisor.AdmissionIff | blockchain/src/index.js:269-294 | admitting a request is harmless in all runs that follow if and only if no request is in progress, no restart pending and start-up done or certain to start |
| Supervisor.OverlapIsUnsafe | blockchain/src/index.js:258-294 | two overlapping requests can end with a daemon running while one of them works on the directory |
| Supervisor.PendingIsUnsafe | blockchain/src/index.js:136-146 | a restart pending when a request clears AUTOSTART still fires and spawns while the request works |
| Supervisor.EarlyIsUnsafe | blockchain/src/index.js:161-168 | a request before start-up with AUTOSTART off switches it on and start-up spawns a second daemon |
| Supervisor.PendingArises | blockchain/src/index.js:129-146 | from start-up, a daemon that starts, exits and is reported leaves a restart pending |
| Supervisor.OverlapArises | blockchain/src/index.js:258-294 | from start-up, a request of any kind can be in progress, with no restart pending, when the next one comes |
| Supervisor.EarlyArises | blockchain/src/index.js:161-168 | with AUTOSTART off every request before start-up is an early one, with AUTOSTART on none is |
| Supervisor.DirectoryUndisturbed | blockchain/src/index.js:272-294 | from the end of the stop loop to the respawn no daemon is alive and only the request's own work changes the directory |
| Supervisor.StopsTheRunningDaemon | blockchain/src/index.js:258-267 | the process captured at the call is the one that is running, and it has been sent a kill |
| Supervisor.FailureLeavesStopped | blockchain/src/index.js:297-300 | after a failed request nothing runs, nothing is pending, and no step but another request can happen |
| Supervisor.OnlyFinishSends | blockchain/src/index.js:274-296 | an archive is sent when a backup finishes, exactly one, and at no other step |
| Supervisor.ReadyWaits | blockchain/src/index.js:274-300 | after its work on the directory nothing happens but that the request finishes or fails |
| Supervisor.FinishedRequest | blockchain/src/index.js:269-296 | from any state a guarded run reaches: between the work of a request and its end the directory stays as the work left it; then one daemon runs, a backup has sent one archive of the directory before and after its work, and a chain restore has installed what is visible of the archive |
| Supervisor.SentBackupsAccepted | blockchain/src/index.js:412-489 | an archive sent in any guarded run is accepted by the node that sent it exactly if the directory was readable and its multichain.conf holds the node's password |
| DirectoryHash.Run | blockchain/src/sha256.js:21-69 | the traversal computes the digest function of the tree, and fails exactly if something not ignored cannot be read |
| DirectoryHash.Iterator | blockchain/src/sha256.js:27-51 | a file contributes the hash of its content, a directory its digest, an ignored or special entry nothing, and an unreadable one fails |
| DirectoryHash.Done | blockchain/src/sha256.js:53-67 | feeding the hash object child by child hashes the concatenation of the digests that are not null |
| DirectoryHash.IgnoredDoNotCount | blockchain/src/sha256.js:30-32 | removing every ignored entry at any depth changes neither what is hashed nor whether it can be read |
| DirectoryHash.DigestIgnoresIgnored | blockchain/src/sha256.js:74-76 | directories that differ only in ignored entries have equal digests |
| DirectoryHash.FlattenInjective | blockchain/src/sha256.js:60-64 | a concatenation of digests determines the digests |
| DirectoryHash.EqualDigestsAgree | blockchain/src/sha256.js:53-67 | without collisions among the texts hashed, digests are equal if and only if the trees agree recursively in child order and contents |
| DirectoryHash.AgreeingTreesHashAlike | blockchain/src/sha256.js:41-47 | agreement implies equal digests for any hash function |
| DirectoryHash.AgreeIsEquality | blockchain/src/sha256.js:41-67 | agreement is equality when no file of either tree spells out a directory of the other |
| DirectoryHash.FileCanPassForDirectory | blockchain/src/sha256.js:41-67 | for every directory there is a different entry, a file, with the same digest |
| DirectoryHash.EqualDigestsIff | blockchain/src/sha256.js:21-69 | for readable directories without collisions: equal digests if and only if, once ignored and special entries are dropped, there are files of equal content and directories of equal contents at the same places - if no file spells out a directory, and otherwise up to that |
| DirectoryHash.CountedFilters | blockchain/src/sha256.js:30-51 | which entries count: the files and directories that are not ignored, in their order |
| DirectoryHash.DigestIs | blockchain/src/sha256.js:36-67 | the digest of a directory is the hash of the joined hashes of file contents and digests of directories |
| DirectoryHash.ReadableIff | blockchain/src/sha256.js:21-51 | a digest fails if and only if an unreadable entry is reached without passing an ignored one |
| Backup.Disk.CreateMetadataFile | blockchain/src/shell.js:9-30 | the metadata file is written with the given chain name and time, the hash of the state before or the word undefined, and nothing else is changed |
| Backup.Disk.Admit | blockchain/src/index.js:427-488 | an archive is accepted if and only if its multichain.conf holds the node's password, its metadata names no other organisation and a version that is the same up to the first dot, and its digest is the recorded one; when it is refused as not permitted, as not valid or for want of metadata |
| Backup.Disk.MoveBackup | blockchain/src/shell.js:50-63 | the visible entries are installed and the old visible ones saved; nothing is installed without a chain directory |
| Backup.Disk.CreateCurrentChainBackupDir | blockchain/src/shell.js:38-44 | the directory for the old chain is empty afterwards |
| Backup.WithoutIgnoredName | blockchain/src/shell.js:21-29 | taking an entry of an ignored name out of a directory changes no digest |
| Backup.DigestSurvivesMetadata | blockchain/src/shell.js:9-36 | the digest survives adding the metadata file, packing, extracting and deleting it |
| Backup.BackupAcceptedIff | blockchain/src/index.js:427-447 | exactly which backups a node accepts, in terms of the text of the packed configuration, the organisations and the versions up to the first dot |
| Backup.AcceptedArchiveAgrees | blockchain/src/shell.js:32-36 | an accepted archive holds the same files and directories as the directory whose hash it carries |
| Backup.PermitsIff | blockchain/src/index.js:434-443 | what is permitted: the password in the configuration's text, no other organisation, the same major version; metadata without an organisation is not refused for that |
| Backup.SameMajorIff | blockchain/src/index.js:441-443 | versions are compared up to their first dot |
| Backup.LookupFirst | blockchain/src/index.js:413-428 | a path names the first entry of that name |
| Backup.GlobbedPicks | blockchain/src/shell.js:57-60 | a star pattern selects exactly the entries whose names do not start with a dot, in order |
| Backup.RestoreRoundTrip | blockchain/src/shell.js:50-63 | restoring gives the directory back if and only if it has no hidden entry at its top |
| Difference.Transform | migration/src/assert.ts:5-17 | the property loop computes the difference function |
| Difference.EmptyDiffIff | migration/src/assert.ts:104-110 | the difference is empty if and only if every top-level property of the object is deep-equal in the base |
| Difference.MergeRepairs | migration/src/assert.ts:5-17 | deep-merging the difference onto the base makes the object embed at every depth |
| Difference.DiffAtPaths | migration/src/assert.ts:5-17 | at every path: the difference has something there if and only if the object has and the base does not have the same, and at its leaves it has what the object has |
| Migration.GetAllStreamItems | migration/src/helper/migrationHelper.ts:49-60 | what is listed: one block per key in the order of the keys, each the items with that key in the order of the stream |
| Migration.ListingIsBlocks | migration/src/helper/migrationHelper.ts:54-58 | the blocks, each picked by increasing indices into the stream, exactly those of the items that carry the key |
| Migration.Destination.CreateStreamIfNotExists | migration/src/migrate.ts:52-70 | no stream's items change, and unless a call fails the stream is there afterwards |
| Migration.AssertStreamItem | migration/src/assert.ts:71-126 | unless a call fails, it passes exactly if both items are found and the comparison has nothing to complain about |
| Migration.MoveItem | migration/src/migrate.ts:84-114 | one item is published under the listed keys with the listed json, or nothing changes; and when that can happen |
| Migration.MigrateStream | migration/src/migrate.ts:72-151 | at every exit the stream gained copies of the first listed items in order, and nothing else changed; unless a call fails it stops early only at an item that cannot be moved |
| Migration.CheckStream | migration/src/migrate.ts:186-211 | the loop checks every copy of the stream against the item it was made from |
| Migration.MoveStream | migration/src/migrate.ts:168-211 | one round creates, copies and checks one stream and leaves all others alone |
| Migration.Migrate | migration/src/migrate.ts:153-218 | on every exit some number of streams is complete and checked, the next one partly copied, all others and blacklisted ones untouched; on success all are complete, each is faithful exactly if it lists no large item, and one with a single key, or ordered by its keys, is copied place by place; it fails only if a call failed, an item cannot be moved, or a copy does not pass the check |
| Prelude.FilterPicks | migration/src/migrate.ts:163-166 | what filtering a list gives, here and elsewhere: the elements at exactly the places where the property holds, from left to right |
| Migration.InterestFilters | migration/src/migrate.ts:160-166 | the streams moved are those not blacklisted, in the order listed |
| Migration.MoveStreams | migration/src/migrate.ts:168-212 | the outer loop: the number of complete streams at every exit, and the stream that stopped it |
| Migration.OutcomeNext | migration/src/migrate.ts:168-212 | later streams and publications undo nothing of what was checked before |
| Migration.CopyIsFound | migration/src/migrate.ts:107-111 | a copy is found again under the transaction id recorded for it |
| Migration.InlineCheckedIff | migration/src/assert.ts:88-110 | for an inline item exactly when the check passes, and that it then vouches for the copy |
| Migration.TextItemFails | migration/src/assert.ts:104-110 | an item whose data is a text does not survive the check, as only its json property is copied |
| Migration.LargeItemLost | migration/src/assert.ts:88-110 | for an item stored out of line the check passes although the copy is empty |
| Migration.MigrationLosesItem | migration/src/migrate.ts:85-100 | a migration of one large item, run from beginning to end: it succeeds unless a call fails, and the item is lost |
| Migration.StreamFaithfulIff | migration/src/migrate.ts:82-114 | a completed stream is faithful if and only if no listed item was stored out of line |
| Migration.DoneInPlace | migration/src/migrate.ts:82-114 | a completed stream that has a single key, or is ordered by its keys, has index by index the keys and json properties of the source items |
| Migration.OrderKeptIff | migration/src/helper/migrationHelper.ts:49-60 | a stream is listed, and so copied, in its own order if and only if every item carries exactly one key and the items stand in the order of the keys |
| Migration.ListingCount | migration/src/helper/migrationHelper.ts:54-59 | an item is listed once for each of its keys |
| Migration.CopiedOnceIff | migration/src/helper/migrationHelper.ts:49-60 | a stream is copied item for item if and only if every item carries exactly one key |
| ExcelExport.Workbook.Commit | excel-export-service/src/excel.ts:149-155 | a row goes to the end of its own sheet and no other sheet changes |
| ExcelExport.Workbook.WriteWorkflowitems | excel-export-service/src/excel.ts:198-240 | the innermost loops commit the rows of the items and their documents in order, or the first of them |
| ExcelExport.Workbook.AddEachRow | excel-export-service/src/excel.ts:184-195 | the rows of a subproject's budgets: which ones threw, that exactly the others were written, in order, and whether one was written after one that threw |
| ExcelExport.Workbook.WriteSubproject | excel-export-service/src/excel.ts:170-240 | a budget row that threw ends the export before any other row is written |
| ExcelExport.Workbook.WriteSubprojects | excel-export-service/src/excel.ts:169-241 | the rows of all subprojects, or a torn piece of them |
| ExcelExport.Workbook.WriteXLSX | excel-export-service/src/excel.ts:144-247 | on success the log is all rows of the tree and the sheets read back give the tree; it fails only if something threw, and then the log is a start of the rows or such a start and the surviving budget rows of one subproject; it is a plain start of the rows, if these are different, exactly if none of the budget rows was written after one that threw |
| ExcelExport.NarrowSheets | excel-export-service/src/excel.ts:173-238 | restricting all six sheets to one parent id gives the sheets of the rows of that parent |
| ExcelExport.SheetsRebuildTree | excel-export-service/src/excel.ts:147-242 | joining the sheets by their parent-id columns gives back the tree, for distinct sibling ids |
| ExcelExport.CommitsSupported | excel-export-service/src/excel.ts:147-241 | every row is committed after the row its parent columns speak of |
| ExcelExport.CommitsHold | excel-export-service/src/excel.ts:147-241 | the rows written are exactly those of the parts of the tree, each with the ids and names of what is above it in its columns |
| ExcelExport.CommitsDepthFirst | excel-export-service/src/excel.ts:147-241 | rows are written depth first: budgets right behind what they belong to, documents behind their workflowitem |
| ExcelExport.SheetsHold | excel-export-service/src/excel.ts:147-241 | each of the six sheets holds exactly the rows of its kind |
| ExcelExport.SurvivorsAreStartIff | excel-export-service/src/excel.ts:184-195 | of different rows those that did not throw are a start if and only if none was written after one that threw |
| ExcelExport.TornIsStart | excel-export-service/src/excel.ts:169-195 | what a failed export leaves is a start of all rows if and only if what is left of the torn budgets is a start of these |
| ExcelExport.TornIsStartIff | excel-export-service/src/excel.ts:169-195 | for different rows: a start of all rows if and only if no budget row was written after one that threw |
| ExcelExport.LateExample | excel-export-service/src/excel.ts:184-195 | a project whose subproject has two budgets, of which the first throws: the second is written, and the log is no start of the rows |
| ExcelExport.TornEarlier | excel-export-service/src/excel.ts:147-241 | what is said of the end of an export holds at every commit before; no commit is late if the end is not |
| ExcelExport.EveryCommitClosed | excel-export-service/src/excel.ts:147-241 | at every commit each row's parent stands in its sheet, with the same name and currency, and each sheet is a prefix of the complete one - the subprojects' budgets too, unless one of them was written after one that threw, and then they are a part of theirs |
| Redaction.RedactEvent | api/src/authz/history.ts:49-103 | the object itself is changed, and to what |
| Redaction.OnlyAllowedData | api/src/authz/history.ts:29-47 | the same object or null, and what is left of it |
| Redaction.ShowHistory | api/src/authz/history.ts:29-47 | a whole history with shared and repeated objects |
| Redaction.ShowToAll | api/src/authz/history.ts:29-103 | the heap after several users in turn |
| Redaction.TouchTwice | api/src/authz/history.ts:49-103 | the same user a second time changes nothing |
| Redaction.TouchAllIs | api/src/authz/history.ts:49-103 | the outcome for an event depends only on whether some user wipes and some user strips it |
| Redaction.OrderIrrelevant | api/src/authz/history.ts:29-103 | any order and repetition of the same users ends in the same state |
| Redaction.LaterViewsShrink | api/src/authz/history.ts:29-103 | no later view holds more than the user's view of the fresh event, and visibility itself does not change |
| Redaction.SharedViewsDiffer | api/src/authz/history.ts:59-75 | an entitled user's view suffers if and only if an earlier user stripped the event |
| Redaction.ViewUnchangedIff | api/src/authz/history.ts:29-103 | others who looked before change a user's view if and only if one of them stripped permissions from an event that had some and that the user is entitled to |
| Redaction.NonInterference | api/src/authz/history.ts:29-103 | two histories look alike to a user if and only if they differ in nothing the user may learn |
| Redaction.NonInterferenceInTurn | api/src/authz/history.ts:29-103 | what a user may not learn from fresh events they do not learn from events others have looked at |
| Redaction.ShowInTurn | api/src/authz/history.ts:29-103 | a history of shared objects shown to one user after others: for an event the user is not entitled to, exactly the fresh view |
| Redaction.PermissionsHiddenIff | api/src/authz/history.ts:50-60 | permissions set at creation are hidden exactly from those without the matching listPermissions |
| Redaction.UnknownVersionHidesData | api/src/authz/history.ts:61-65 | of an unsupported version the view is independent of all data |
| Redaction.WhoSees | api/src/authz/history.ts:6-47 | for every intent who sees its events: changes of permissions, assignments and updates, and creations, level by level |
| Redaction.WhatIsSeen | api/src/authz/history.ts:49-103 | which data of a visible event is shown, and to whom the permissions set at the creation of a project, subproject or workflowitem are |
| Redaction.HasIntersectionIff | api/src/authz/index.ts:10-13 | true if and only if the lists share an element |
| Redaction.AllowedIff | api/src/authz/index.ts:19-30 | who has an intent: root if it is in the list of all, others if one of their identities is granted it |
| Redaction.AllowedIntentsGrow | api/src/authz/index.ts:19-30 | more groups and grants never take an intent away; becoming root does not either if the list of all intents has what was granted before |
| Redaction.ViewsGrow | api/src/authz/history.ts:29-103 | more intents never hide an event or a field |
| Redaction.GrantsNeverHide | api/src/authz/index.ts:19-30 | from groups and grants to the view: adding never hides, becoming root included if the list of all intents has what was granted before |
| Redaction.BecomingRootIff | api/src/authz/index.ts:19-30 | becoming root hides nothing of any event if and only if the list of all intents has every intent granted before |
| Redaction.RootMissesDeclineNode | api/src/authz/intents.ts:167-229 | an instance, a global intent that is missing from the list of all intents: who has it sees such events, root does not |
| Provisioning.Api.CloseWorkflowitem | api/src/service/domain/workflow/workflowitem_close.ts:64-125 | an open item is closed only if all items before it are; a closed one is accepted as it is |
| Provisioning.Api.CloseSubproject | api/src/service/domain/workflow/subproject_close.ts:44-93 | an open subproject is closed only if all its workflowitems are; a closed one is accepted as it is |
| Provisioning.Api.CloseProject | api/src/service/domain/workflow/project_close.ts:36-77 | an open project is closed only if all its subprojects are; a closed one is accepted as it is |
| Provisioning.ProvisionWorkflowitem | provisioning/src/index.js:87-167 | carries out a start of the requests for the item, all of them if it completes; it stops only at a failed request or a refused close |
| Provisioning.ProvisionWorkflowitems | provisioning/src/index.js:201-206 | the same for the item list |
| Provisioning.ProvisionSubproject | provisioning/src/index.js:169-219 | the same for a subproject, with the swallowed error |
| Provisioning.ProvisionSubprojects | provisioning/src/index.js:255-258 | the same for the list of subprojects |
| Provisioning.ProvisionFromData | provisioning/src/index.js:221-273 | the same for a project; where it is new, a run that no request fails completes exactly for templates in order, repeated names included |
| Provisioning.ProvisionAgain | provisioning/src/index.js:221-273 | any number of runs over any templates, each cut off anywhere: no name twice, from any state; and where every project of a template's name is on the way to it, a run that no request fails completes exactly for a template in order, a close is refused only for one that is not, and what a complete run achieved stays |
| Provisioning.TemplateRunTracks | provisioning/src/index.js:221-273 | one run keeps every project that is on the way to its template on it, cut off or not |
| Provisioning.TemplateRunKeepsFinished | provisioning/src/index.js:221-273 | a finished template stays finished under every further run |
| Provisioning.TemplateRunKeepsDistinct | provisioning/src/index.js:224-236 | a run creates no display name twice among siblings |
| Provisioning.RepeatedNameIsRefused | provisioning/src/index.js:171-178 | the driver, run over two ordered subprojects of one name, cannot complete |
| ProvisioningRequests.HoldsStays | provisioning/src/index.js:93-165 | no request removes, renames or reopens what another one asked for |
| ProvisioningRequests.HoldingIsNoOp | provisioning/src/index.js:99-133 | finding or closing what is there or closed already changes nothing and is never refused |
| ProvisioningRequests.Rerun | provisioning/src/index.js:221-273 | a run over any start of the requests after a run over another start leads to where the longer one leads alone |
| ProvisioningRequests.RunTracks | provisioning/src/index.js:221-273 | from any point of the way a run completes only for clean templates and is refused only for others |
| TemplateOrder.ItemsStatus | provisioning/src/index.js:149-165 | an item is closed on the server exactly if some entry of its name asks for it |
| TemplateOrder.ItemsCleanIff | provisioning/src/index.js:149-165 | a list of items is carried out without a refusal if and only if it is in order |
| TemplateOrder.StateAfter | provisioning/src/index.js:169-219 | what a first run makes of each subproject: the item lists of its name one after the other, closed if ever asked for |
| TemplateOrder.CleanIff | provisioning/src/index.js:221-273 | none of the requests a template calls for is refused on a new project if and only if the template is in order |
| TemplateOrder.InOrderIsOrdered | provisioning/src/index.js:149-165 | between differently named siblings, in order means closed items first and closed parents with closed children |
| TemplateOrder.FinishedIsTemplate | provisioning/src/index.js:255-263 | for differently named siblings a complete run leaves exactly the template on the server |
| QueryString.FirstScan | frontend/src/api.js:550 | what the first replacement makes of any sequence of pieces |
| QueryString.SecondScan | frontend/src/api.js:551 | what the second replacement makes of pieces that are not disturbed |
| QueryString.SecondScanTakes | frontend/src/api.js:551 | the second replacement takes an equals sign from every piece in which an undefined value starts |
| QueryString.DropLastKeeps | frontend/src/api.js:552 | the third replacement loses no parameter |
| QueryString.CleanedIs | frontend/src/api.js:548-553 | without disturbed parameters the three replacements filter, in order |
| QueryString.CleanedText | frontend/src/api.js:548-553 | the exact text that is left of a query without disturbed parameters: empty values go with their ampersand, undefined ones leave it, and one ampersand at the end goes |
| QueryString.CleanedTextIsKept | frontend/src/api.js:548-553 | with no parameter missing, disturbed or undefined the text is that of the parameters with a value, joined again |
| QueryString.TwoParameters | frontend/src/api.js:548-553 | an empty parameter at the end leaves nothing, an undefined one in front leaves its ampersand |
| QueryString.MatchIff | frontend/src/api.js:550-551 | what the two patterns match at a place: a name without = and &, an equals sign, and an ampersand, the word undefined or the end |
| QueryString.KeptFilters | frontend/src/api.js:548-553 | which parameters should stay: those whose value is neither empty nor undefined, in order |
| QueryString.CleanedTakes | frontend/src/api.js:548-553 | for every URL the replacements take an equals sign from every parameter they hit |
| QueryString.CleaningIsFilteringIff | frontend/src/api.js:548-553 | for every URL: cleaning is filtering if and only if no parameter is disturbed |
| QueryString.DisturbedExamples | frontend/src/api.js:550-551 | two parameters that are disturbed: a value that starts with undefined, and a second equals sign at the end |
| QueryString.DisturbedInFront | frontend/src/api.js:548-553 | a query that starts with a disturbed parameter is not filtered, whatever follows |
| QueryString.DisturbedIff | frontend/src/api.js:551 | with one equals sign per parameter only a value that merely starts with undefined is disturbed |
| QueryString.PathSurvivesIff | frontend/src/api.js:548-553 | the path survives if and only if the first parameter does |
| QueryString.EmptyFirstLosesPath | frontend/src/api.js:550 | an empty first parameter takes the path with it |
| SearchBar.QueryRoundTrip | frontend/src/helper.js:183-192 | a query survives the way to the search bar and back, for all strings |
| SearchBar.SearchBarRoundTripIff | frontend/src/helper.js:183-192 | a search bar text survives if and only if it has no '=', no '&' and no two spaces in a row |
| SearchBar.CollapseResult | frontend/src/helper.js:187 | collapsing leaves no two ampersands in a row, no new characters, and the same first one |
| SearchBar.CollapsePicks | frontend/src/helper.js:187 | what is kept: every character but an ampersand behind an ampersand |
| Paging.List | api/src/notification_list.ts:441-487 | which notifications of the sorted list a request gets, and exactly when it is refused |
| Paging.SortIsStable | api/src/notification_list.ts:515-521 | ordered by time, and in the old order among notifications of one time |
| Paging.StableSortPermutes | api/src/notification_list.ts:465 | the sorted list is a permutation |
| Paging.StableSortUnique | api/src/notification_list.ts:515-521 | ordering by time stably has one outcome, so the pages of separate requests fit together |
| Paging.PagesCover | api/src/notification_list.ts:467-471 | pages at offsets 0, L, 2L, ... put together are the list, without gap or overlap |
| Paging.LastOnes | api/src/notification_list.ts:467-471 | offset -n selects the last min(n, length) notifications, and a limit the first ones of these |
| Paging.WithoutLimit | api/src/notification_list.ts:467-471 | without a limit a request selects everything from the offset on |
| Paging.AtFilters | api/src/notification_list.ts:515-521 | what stability is about: the notifications of one time in their old order |
| Inheritance.DeepCopy | api/src/lib/deepcopy.ts:1-4 | the copy consists of new objects only and has the value a JSON round trip gives |
| Inheritance.InheritDefinedProperties | api/src/lib/inheritDefinedProperties.ts:4-11 | the target's values afterwards, property by property in the order visited, also from a source that holds the target below one of its properties; from any other source the order does not matter; and the values live in the target's old part of the heap and in new objects |
| Inheritance.InheritFromAll | api/src/lib/inheritDefinedProperties.ts:4-11 | the target's values after any sequence of sources, and that it shares no object below it with any of them |
| Inheritance.FilledReads | api/src/lib/inheritDefinedProperties.ts:6-10 | a source that holds the target has, at each moment, the value of a tree with the target's current value in it |
| Inheritance.StepsInherit | api/src/lib/inheritDefinedProperties.ts:6-10 | a source that does not hold the target gives its own values, whatever has been copied before |
| Inheritance.HeldTargetExample | api/src/lib/inheritDefinedProperties.ts:6-10 | with a source that holds the target the outcome depends on the order of the properties |
| Inheritance.EmptyReads | api/src/lib/emptyChecks.ts:1-5 | emptiness is a matter of the value, not of the object |
| Inheritance.LastValueWins | api/src/lib/inheritDefinedProperties.ts:6-10 | each property is a copy of the last non-empty value given, or unchanged |
| Inheritance.RepeatingIsNoOp | api/src/lib/inheritDefinedProperties.ts:4-11 | a second call with the same source leaves the target's values as the first one left them |
| Inheritance.ClonedTwice | api/src/lib/deepcopy.ts:1-4 | a copy of a copy is the copy, so chains of inheritance lose nothing further |
| Inheritance.ClonedIff | api/src/lib/deepcopy.ts:1-4 | a copy is the same value if and only if nothing in it is undefined; arrays stay arrays, and only undefined properties of objects go |
| Inheritance.GivesNothingIff | api/src/lib/inheritDefinedProperties.ts:6-10 | exactly null, undefined, empty objects and arrays and properties not asked for are not inherited |

## Left out

- Supervisor.Daemons.ImportWallet: what the wallet import and the new configuration file put into the chain directory is an arbitrary new content, because it comes from an uploaded archive and shell commands.
- Supervisor.Daemons.PollStop: kill only marks the process as signalled; whether and when the daemon exits is up to the daemon, so leaving the loop is possible but not promised.
- Supervisor.Safety: a failed spawn, and an exception that ends the whole supervisor, are not steps of the model.
- Backup.BackupAcceptedIff: YAML is assumed to load what the template wrote as text; a digest or version that YAML reads as a number is not covered.
- Backup.Disk.MoveBackup: the copies succeed; shell commands that fail half-way are not modelled.
- DirectoryHash.Run: children are hashed one after the other; the original starts them all and keeps the order of results. The ignore rule is a predicate on the last component of a path; the case folding of the ignore package is not modelled.
- Migration.Migrate: custom movers and verifiers, the kind of a stream, and the limits of the listing calls; `assertChainEquals` is not part of this model.
- Difference.Transform: arrays are objects with indices for keys; inherited properties such as `length` and cyclic objects are not modelled.
- ExcelExport.Workbook.WriteXLSX: formatting, translations, dates, numbers and the workbook's own metadata; cells are opaque. That the end of the service after an unhandled rejection also ends other requests is not modelled.
- Redaction.RedactEvent: an event without a data object, for which the deletion throws, and two events that share one data object.
- Provisioning.ProvisionAgain: a request that fails has no effect (no time-outs after the fact), an answer 409 is not given, there is one client, and it is shown everything it created; different templates name different projects.
- Paging.List: parsing the two numbers; the collection of metadata per notification, which may fail the whole request.
- Paging.StableSortUnique: the sort is any stable one, and dates are integers.
- Inheritance.InheritDefinedProperties: values are trees of plain objects, arrays and primitives; dates, cyclic objects and a target that is its own source are not covered.
- SHA-256, tar, the shell, Kubernetes, MultiChain itself, HTTP handlers, authentication and validation schemas.
- The domain and cache layer of the API, except the close guards, and the user interface.
