# Treckrr verification

Dafny models of the parts of Treckrr that move data and money, with proofs of what they
promise: draining a server before a restore, the leases between processes, the backup
scheduler, retention and key rotation, the S3 mirror, connection-string rewriting, the bank
import, pricing, and the calendar feed. `dafny verify dfyconfig.toml` checks everything
(Dafny 4.11).

## How it is built

* **Protocols are state machines.** `RestoreAdmission` has one program counter per goroutine
  and one atomic flag, lock or registry operation per step; `ApplicationLease` puts any
  number of such servers and offline recoveries on one database; `Scheduler` runs the ticks
  of several processes over a durable row; `WorkLease` interleaves calls for the work lease.
  In each, a `StepKeepsInv` lemma is lifted to all runs by `RunKeepsInv`, and the named
  results are read off the invariant. `AdmissionOutcome` says what the server admits after a
  restore, a shutdown and a lost lease.
* **State that changes in place is a class or an array.** The backup directory
  (`BackupDir.Dir`), the bucket (`Bucket.Bucket`, in which others act before every request,
  with a trace of who changed what), `status.json`, the limited writer, the booking entry, and
  the list of transactions that is renumbered in place.
* **Loops are methods proved against functions**, and the lemmas are about the functions:
  connection strings, MT940, camt, `icsLine`, `money`, the rate breakdown.
* **Failures are inputs.** A file operation takes a `Fault` (it works, it fails, it takes
  effect and still reports an error). A bucket has a `World`, which says for every request how
  it goes and what others do before it. A rotation takes a `FileRun` for every dump, with the
  points at which the process may stop. So each failing run below is a call with named inputs.

## Assumptions

* Encryption is an ideal cipher (`Archive`), SHA-256 in hex an injective function
  (`BankHashes.Ideal`); `pg_restore --list` is a predicate on dumps. `ArchiveBudget` shows the
  byte layout of the sealed file for any sound AEAD.
* Cron is the next occurrence handed to a tick. Times are integers; the clock does not run
  backwards between scheduler steps. Names with local time stamps are read by a function
  parameter (`Ranking.Stamp`).
* PostgreSQL's advisory locks behave as section 13.3.5 of its documentation says: counted per
  session, dropped with the session. A process that has lost its session and does not yet
  know it is outside the guarantees, as the comment in internal/db/maintenance.go disclaims.
* A tick holds the scheduler lease until it ends.
* Nobody else makes objects with this installation's mark or changes one. That nobody deletes
  one either is assumed only where a bucket is said to be steady (`Bucket.Rely`); what holds
  without it is stated as well. Another installation with another namespace keeps to both by
  running this code (`S3Namespace.InstallationsShareABucket`).
* `shopspring/decimal` is not part of the repository; `Round` is half away from zero and
  `Div` rounds to sixteen places in the same way, and `NewFromString` removes the point and
  reads an integer.

## Where the code differs from its promise

Each item names the input or run that shows it and the result with the exact condition.

* A result recorded with a stamp taken before the run (`RunScheduled`) can set the retry clock
  and the last success back (`Scheduler.StaleFailureShortensBackoff`,
  `Scheduler.StaleSuccessRepeatsOccurrence`); exactly when: `BackoffExactlyWhenFresh`,
  `ScheduleExactlyWhenFresh`.
* A failing `runVolume` can leave fewer dumps, namely when it fails to record its status after
  pruning (`Retention.LostStatusShrinks`, `FailedRunKeepsDumpsExactlyUnless`).
* A dump whose replacing rename reports an error after taking effect is reported as skipped
  although it is already re-encrypted (`KeyRotation.SkippedButRotated`); exactly when:
  `RotateFile`, `RotateKey`. It still opens to the same dump.
* Re-encrypting a dump in the old format adds a salt of 16 bytes, so one that just fits the
  memory budget can no longer be read under it (`KeyRotation.RotationOutgrowsBudget`,
  `ReadableAfterRotation`).
* The comment at internal/backup/backup.go:999 says that repair only ever replaces a bad copy.
  A good copy is deleted, and can be lost, when a request of its verification goes unanswered
  (`S3Mirror.GoodCopyIsLost`); exactly when: `S3Mirror.VerifyMirroredCopy`.
* The ownership check and the removal of an S3 object are two requests. If others delete the
  object and use its key between them, the removal deletes a foreign object
  (`S3Mirror.RepairDeletesForeign`, `S3Mirror.PruneDeletesForeign`); exactly then:
  `S3Mirror.AllowedIsGentle`, `S3Mirror.StruckIsGentleExactly`.
* A verification of a stored copy makes two requests. If others delete the object between
  them and put the same bytes under its key, a success is recorded although no good owned copy
  ever was there (`S3Mirror.ForeignBytesPass`); exactly when: `S3Mirror.AnsweredAtOnceExactly`.
* Removing `password` from a URI without a user part and path can uncover an `@`
  (`DatabaseUri.RemovedSlashUncoversUser`, `RemovePasswordPreserves`), and the cleaned string
  can state a password again (`ConnectionEnv.UncoveredTextStatesPassword`). A keyword string
  whose first remaining key begins like a URI is read as one
  (`ConnectionEnv.KeywordReadAsUriStatesPassword`). Exactly when:
  `ConnectionEnv.CleanedStatesNoPassword`; the text so read may also state none
  (`ConnectionEnv.UncoveredTextStatesNothing`). A rehearsal's string is never misread
  (`ConnectionEnv.RehearsalEnvironment`).
* With a minimum above the increment that is no multiple of it, recalculating a fresh booking
  can raise its hours again (`Booking.RecalculationRaisesHours`, `FreshBookingsAreStable`).
* A percentage of zero leaves a rate off the step, and a quotient rounded up to a tie in its
  sixteenth place is lifted to the next step (`RateList.TieIsLifted`); exactly when:
  `RateList.UpliftIsNearest`.

Three functions do not do what their callers expect on inputs these callers never give them:

* `icsLine` does not return on 74 continuation bytes in a row
  (`Calendar.ContinuationsNeverFold`); text from PostgreSQL is valid UTF-8, which has none
  (`Calendar.ValidTextFolds`).
* Adding a surcharge of more than four decimals to a snapshot can differ by a cent from the
  breakdown (`Pricing.SurchargePathsDiffer`); the column `amount_per_h` is `NUMERIC(12,4)`
  (internal/db/migrations/0077_fuel_adjustments.sql:9), and up to four decimals they agree.
* `withDatabase` loses a name with `&`; rehearsals pass `postgres` and scratch names only
  (internal/backup/rehearse.go:101, 196, 300).

## Model

| member | source | states |
|---|---|---|
| RestoreAdmission.StepKeepsInv | internal/server/backup_resources.go:25-218 | every atomic step of requests, background work, tasks, shutdown, fail-closed and restore keeps the invariant: mutex and activity lock match the program counters, one owner of the maintenance flag, the drain covers every task that may still run (when traffic reopens: AdmissionOutcome) |
| RestoreAdmission.RunKeepsInv | internal/server/backup_resources.go:25-218 | the invariant holds after every interleaving |
| RestoreAdmission.RestoreRunsAlone | internal/server/backup_resources.go:162-218 | from the return of the finish callback until it runs: no registered task, no Background body or request, no second restore, maintenance shown |
| RestoreAdmission.RestoringEntry | internal/server/backup_resources.go:162-218 | in every run the only way into that state is a granted lease upgrade by a restore that has drained all tasks and holds the activity lock alone |
| RestoreAdmission.LossIsPermanent | internal/server/server.go:147-170 | a lost lease is never forgotten, and shows in the maintenance flag except while a store that sets it again is still to come |
| RestoreAdmission.RestoreIsReachable | internal/server/backup_resources.go:162-218 | a lone request does get through to the restore |
| AdmissionOutcome.UnreconciledStaysClosed | internal/server/backup_resources.go:208-217 | after a restore that was not reconciled, in every continuation of every run: maintenance stays shown, no request, Background body or task is admitted, and no further restore begins |
| AdmissionOutcome.ReconciledReopens | internal/server/backup_resources.go:208-217 | after a reconciled one its thread alone ends maintenance and gives back the lock, with nothing else changed; with a lost lease maintenance stays |
| AdmissionOutcome.UnreconciledLeaves | internal/server/backup_resources.go:208-217 | after one that was not it gives back the lock and nothing else |
| AdmissionOutcome.GivingUpReopens | internal/server/backup_resources.go:175-207 | a restore that gives up while draining, waiting for the lock, holding it, or when the lease is refused reopens in the same way |
| AdmissionOutcome.AloneIsRun | internal/server/backup_resources.go:162-218 | what a thread does alone is a run |
| AdmissionOutcome.OpenAdmits | internal/server/server.go:172-198 | a process that is open lets a request or Background body through to its work |
| AdmissionOutcome.OpenRegisters | internal/server/backup_resources.go:40-78 | and registers a task, which then runs outside the mutex |
| AdmissionOutcome.FailingCloses | internal/server/backup_resources.go:150-157 | failing closed, left alone, marks the lease as lost and shows maintenance |
| AdmissionOutcome.ShutdownSetsFlag | internal/server/backup_resources.go:102-109 | a shutdown, left alone, sets its flag and frees the mutex |
| AdmissionOutcome.ShutdownEndsRegistration | internal/server/backup_resources.go:40-110 | once a shutdown has set its flag, no task is registered in any continuation of any run |
| AdmissionOutcome.LostLeaseAdmitsNobody | internal/server/backup_resources.go:25-198 | once the lease is lost, no request, Background body, task or restore passes its check of it in any continuation of any run |
| ApplicationLease.NextKeepsInv | internal/db/maintenance.go:38-90 | start, upgrade, release, loss, crash and stop keep the locks of all sessions compatible and every restoring process with a live session exclusive |
| ApplicationLease.RunKeepsInv | internal/db/maintenance.go:38-188 | the same over every run of any number of processes |
| ApplicationLease.ExclusiveIsExclusive | internal/db/maintenance.go:48-90 | a session holding the lock exclusively is the only one holding it at all |
| ApplicationLease.RestoreIsIsolated | internal/db/maintenance.go:72-90 | while a process restores on a live session, no other process with a live session serves or restores, and nothing else runs in it |
| ApplicationLease.OverlapNeedsLostSession | internal/db/maintenance.go:72-188 | two restores overlap only if one of them has lost its session |
| ApplicationLease.LeaseIsGivenBack | internal/db/maintenance.go:72-90 | where no effect of a call goes unnoticed, a serving process with a live session holds the lock once shared, and once exclusively exactly while it restores |
| LeaseMonitor.Monitor | internal/db/maintenance.go:116-155 | the lease is reported lost at the first tick at which it counts as lost, and never before or while the process stops |
| LeaseMonitor.LostExactlyAfterSilence | internal/db/maintenance.go:103-155 | a session not known to be closed is given up exactly after the allowed number of failures with no answer between them; ticks during a restore do not count |
| LeaseMonitor.LostSessionIsReported | internal/db/maintenance.go:103-155 | a session lost from some tick on is reported, at the latest with the last allowed failure after it, unless the process is stopping |
| LeaseWatch.OverlapIsReported | internal/db/maintenance.go:72-155 | a process that serves beside one holding the lease exclusively has lost its session, and until the loss is reported has had fewer failing ticks since than are allowed |
| LeaseWatch.RestoreIsUnwatched | internal/db/maintenance.go:111-135 | for a restore there is no such bound: while it keeps the session's mutex no loss is reported |
| Scheduler.StepKeepsInv | internal/backup/backup.go:1410-1551 | every step of a tick, crash, restart or manual result keeps the scheduler invariant |
| Scheduler.RunKeepsInv | internal/backup/backup.go:1410-1551 | the invariant over all runs |
| Scheduler.ScheduledStartsAreApart | internal/backup/backup.go:1429-1496 | two starts of a destination without a success in between are more than the backoff apart, unless a failure with an older stamp was recorded |
| Scheduler.BackoffExactlyWhenFresh | internal/backup/scheduler.go:115-197 | that condition is exact |
| Scheduler.StaleFailureShortensBackoff | internal/backup/backup.go:805-824 | a reachable run in which a stale failure shortens the backoff |
| Scheduler.AttemptsAreAccounted | internal/backup/backup.go:1530-1551 | before the next start every attempt has a result or was counted as interrupted |
| Scheduler.NoRunBesideSettling | internal/backup/backup.go:1410-1451 | a marker that is settled never belongs to a scheduled run in progress |
| Scheduler.StartsAnswerTheSchedule | internal/backup/backup.go:62-82 | the occurrence a start answers lies after the last scheduled success and no later than the start, unless an older success stamp was recorded in between |
| Scheduler.OccurrencesIncrease | internal/backup/backup.go:1410-1488 | with success stamps in order, two scheduled successes answer different occurrences, the later one the later occurrence |
| Scheduler.SuccessesNeverOutnumberOccurrences | internal/backup/backup.go:1410-1551 | so over any run there are no more scheduled successes than occurrences of the schedule |
| Scheduler.ScheduleExactlyWhenFresh | internal/backup/scheduler.go:61-168 | exactly when no older success stamp was recorded since |
| Scheduler.StaleSuccessRepeatsOccurrence | internal/backup/backup.go:805-824 | a reachable run in which the same occurrence is answered twice |
| Scheduler.DecisionIsExact | internal/backup/backup.go:1441-1470 | for either destination, with the marker written: the run starts and is logged if and only if the schedule is on, its next occurrence is no later than now, and now is after the loaded retry time; otherwise the tick goes on |
| Scheduler.FailedMarkerHoldsBack | internal/backup/backup.go:1464-1470 | an error while the marker is written skips the run and holds the destination back for one backoff |
| Scheduler.ResultIsRecorded | internal/backup/backup.go:1473-1488 | what a result leaves in the row and in the process, for every outcome of the write |
| Scheduler.WholeTick | internal/backup/backup.go:1410-1488 | a whole tick from any reachable state with the lease free, left alone: exactly the interrupted attempts are settled, exactly the due destinations run, the volume first, with their results recorded and a failure held back, and the lease is given back |
| Scheduler.SeedsFillGaps | internal/backup/scheduler.go:61-113 | loading fills in a last success from the legacy status exactly where none was recorded, and changes nothing else |
| Scheduler.DueTickStarts | internal/backup/backup.go:1410-1488 | a due tick of either destination with no marker left, left alone, starts the run |
| Scheduler.TickEnds | internal/backup/backup.go:1458-1488 | the result of a running backup is recorded with the tick's time, the bucket's turn follows the volume's exactly if it is due, and the lease is given back |
| BackupDir.StagingIsNoDump | internal/backup/backup.go:846-848 | a staging name is never listed |
| BackupDir.Dir.WriteFileAtomic | internal/backup/backup.go:2019-2044 | whatever fails and wherever the process stops: the old content or all of the new, no other file changed, at most a temporary file left; and exactly when which |
| BackupDir.Dir.Rename | internal/backup/durability.go:11-20 | an atomic rename that may report an error after taking effect |
| BackupDir.Dir.Glob | internal/backup/backup.go:1286-1290 | every dump once |
| Archive.CreateVerifiedDump | internal/backup/backup.go:713-757 | a dump comes out exactly if it is restorable and sealing works, and it passes the drill |
| Ranking.SortedNewestFirst | internal/backup/backup.go:517-534 | the listing is in the order of the comparison, without repetition |
| Ranking.OrderedByStamps | internal/backup/backup.go:517-534 | in such a list one entry precedes another exactly if the time in its name is later, whatever their modification times; without a time in the name the modification time stands for it, and equal times are decided by the name |
| Ranking.FirstDifferenceDecides | internal/backup/backup.go:532 | names are compared at their first difference |
| Ranking.NewerIsStrictTotal | internal/backup/backup.go:520-534 | the order is strict and total on different names |
| Retention.List | internal/backup/backup.go:1286-1301 | every dump whose file information can be read, once, newest first |
| Retention.Prune | internal/backup/backup.go:1033-1052 | removes exactly the dumps with keep listed newer ones that are a day old and can be removed |
| Retention.EvictionIsCovered | internal/backup/backup.go:1028-1052 | under any failures an evicted dump is a day old and at least keep newer dumps remain stored |
| Retention.NewestSurvive | internal/backup/backup.go:1028-1052 | the newest keep dumps survive, even if some could not be listed |
| Retention.EvictedByStamps | internal/backup/backup.go:1033-1052 | with a time of its own in every name, a dump that can be removed goes exactly if at least keep listed ones have later times in their names and it was last modified a day ago |
| Retention.LatestStampSurvives | internal/backup/backup.go:1033-1052 | for every assignment of modification times, a dump stays when fewer than keep others have a time in the name that is not earlier, or none |
| Retention.NewestIsFirst | internal/backup/backup.go:894-897 | the first of the listing is the one listed dump that no other ranks ahead of |
| Retention.NewestHasLatestStamp | internal/backup/backup.go:520-534 | no listed dump has a later time in its name than that one |
| Retention.RunVolume | internal/backup/backup.go:827-877 | what each ending of the run leaves of the dumps and of the status |
| Retention.NothingUnverifiedIsListed | internal/backup/backup.go:833-858 | every dump is afterwards what it was, or the new one, which passed the drill |
| Retention.FailedRunKeepsDumpsExactlyUnless | internal/backup/backup.go:827-877 | a failing run loses a dump if and only if it fails by not recording its status after pruning |
| Retention.LostStatusShrinks | internal/backup/backup.go:859-863 | such a run, with the times in the names |
| Retention.RecordedSuccessIsStored | internal/backup/backup.go:859-877 | a promoting run leaves a drilled dump if it prunes within a day of writing it |
| KeyRotation.RotateFile | internal/backup/rotate.go:56-100 | exactly when one dump is replaced, reported as rotated, and where the process stops; it is skipped although replaced exactly if all works up to a rename that takes effect and reports an error |
| KeyRotation.RotateKey | internal/backup/rotate.go:36-104 | every dump is preserved; each is reported exactly once; which are replaced, which rotated and which skipped although replaced, for any faults; it fails when some were skipped and none rotated |
| KeyRotation.SkippedButRotated | internal/backup/rotate.go:90-95 | a dump reported as skipped that only opens under the new key |
| KeyRotation.ReadableAfterRotation | internal/backup/rotate.go:19-29 | a replaced dump is read under the memory budget exactly if its size, plus a salt for the old format, is within it |
| KeyRotation.RotationOutgrowsBudget | internal/backup/rotate.go:19-29 | a dump that can be read before the rotation and not after it |
| KeyRotation.SafeTransitive | internal/backup/rotate.go:36-104 | several interrupted runs together still preserve every dump |
| KeyRotation.ResumeRotation | internal/backup/rotate.go:19-104 | an undisturbed rerun after any first run converges for the dumps within the budget, and a further run rotates nothing |
| ArchiveBudget.LimitedWriter.Write | internal/backup/resources.go:126-139 | a write over budget is rejected whole; written plus remaining never changes |
| ArchiveBudget.Dump | internal/backup/backup.go:636-659 | a dump comes through exactly if it was taken whole and leaves room for header and tag |
| ArchiveBudget.ReadWholeOrRefused | internal/backup/resources.go:103-112 | a file is read whole or refused, never cut off |
| ArchiveBudget.SealedFileOpens | internal/backup/backup.go:541-596 | both file formats open to what was sealed, and a dump that fits the budget makes a file that can be read back |
| Bucket.GentleIsWithinRely | internal/backup/backup.go:1692-1725 | overwriting nothing and deleting only one's own stays within what others rely on |
| Bucket.Bucket.Put | internal/backup/backup.go:1780-1796 | the conditional upload never replaces an object, whatever it reports |
| S3Mirror.Collect | internal/backup/backup.go:1900-1926 | one namespace's valid names, once each, covered and foreign keys left out, refused over the cap |
| S3Mirror.S3List | internal/backup/backup.go:1880-1929 | an ordered listing in which owned dumps that stay appear with their own times, legacy namespace included; with nobody else at work it shows exactly the dumps of both namespaces |
| S3Mirror.ObjectOwned | internal/backup/backup.go:1698-1719 | answers exactly whether the object carries the mark when the request arrives |
| S3Mirror.VerifyS3Object | internal/backup/backup.go:1804-1849 | whatever others do, it passes exactly if the object asked about was owned and of the right size and the bytes then read are the given ones; where own objects stay they are those of an owned object; differing means they are not; it is unanswered exactly when a request for a good copy fails |
| S3Mirror.AnsweredAtOnceExactly | internal/backup/backup.go:1810-1849 | the two answers are true of one moment exactly unless the key was reused between them and the object asked about did not hold the bytes itself |
| S3Mirror.ForeignBytesPass | internal/backup/backup.go:975-984 | a run in which a verification passes although no good owned copy was ever there |
| S3Mirror.PruneS3 | internal/backup/backup.go:1727-1776 | whatever others do, it removes a key only directly after an answer that showed it to be owned; in a steady bucket each removed object is owned, a day old, and at least keep owned objects ranked newer are stored; the newest keep owned ones stay, whatever fails; the counters bracket the changes; when nothing fails exactly the dispensable ones are removed, even if others act before each removal |
| S3Mirror.StruckIsGentleExactly | internal/backup/backup.go:1753-1769 | such a removal is safe exactly if nobody put a foreign object under the key since the check |
| S3Mirror.PruneDeletesForeign | internal/backup/backup.go:1753-1769 | for any dispensable dump, the run in which retention deletes a foreign object |
| S3Mirror.OlderOfTwoIsExpendable | internal/backup/backup.go:1746-1770 | a bucket with a dispensable dump |
| S3Mirror.ExpendableByStamps | internal/backup/backup.go:1746-1764 | with a time of its own in every name, an owned dump is dispensable exactly if it is old enough and at least keep owned ones have later times in their names |
| S3Mirror.LatestStampSurvives | internal/backup/backup.go:1746-1770 | for every assignment of modification times, such a pruning leaves an owned dump when fewer than keep others have a time in the name that is not earlier, or none |
| S3Mirror.ExpendableInList | internal/backup/backup.go:1746-1764 | an owned dump is dispensable by its rank exactly if it is old enough and enough owned ones are listed before it |
| S3Mirror.EvictionIsCovered | internal/backup/backup.go:1746-1770 | the step that shows it, from the keepers counted so far |
| S3Mirror.LegacyAddsNothingOwned | internal/backup/backup.go:1898-1926 | the legacy namespace cannot give an owned dump a wrong time |
| S3Mirror.UploadVerified | internal/backup/backup.go:1653-1669 | adds at most one marked object; success means that the verification had its two answers, about one owned object where own objects stay; undisturbed it succeeds exactly then |
| S3Mirror.RepairS3Mirror | internal/backup/backup.go:1004-1023 | whatever others do, it removes the key only directly after an answer that showed it to be owned; in a steady bucket exactly when an owned copy is deleted and exactly when none is left; undisturbed it succeeds exactly on an owned object |
| S3Mirror.RepairDeletesForeign | internal/backup/backup.go:1004-1023 | the run in which it deletes a foreign object |
| S3Mirror.VerifyMirroredCopy | internal/backup/backup.go:975-992 | a copy that holds exactly the local bytes is deleted if and only if a request of its verification goes unanswered and the repair clears its key, and lost if and only if the repair loses it |
| S3Mirror.GoodCopyIsLost | internal/backup/backup.go:985-1022 | the run in which a good copy is deleted and the upload after it fails |
| S3Mirror.Locate | internal/backup/backup.go:897-923 | when a dump of its own making is due, an answer showed that the name of the newest was not this installation's; with nobody else at work it tells exactly whether the name is in no listing, owned, or held by others |
| S3Mirror.RunS3Mirror | internal/backup/backup.go:881-972 | every change is allowed; a success, returned or recorded, is about the one listed local dump that no other ranks ahead of, with its bytes, or about a fresh one, made only if nothing is listed or an answer showed the name of the newest not to be owned, and a verification had its two answers about it, an owned one where own objects stay; with nothing in the way it succeeds, a fresh one is made exactly if nothing is listed or the name is held by others, the bucket then holds that dump under its key exactly unless the good copy was there before and is dispensable, and nothing dispensable is left |
| S3Mirror.AllowedIsGentle | internal/backup/backup.go:881-1023 | a change overwrites nothing and deletes only owned objects if and only if no removed key was reused after its check; in a steady bucket always |
| S3Namespace.NormalizeS3Prefix | internal/config/config.go:313-329 | accepts exactly the well-formed namespaces, described character by character |
| S3Namespace.KeysAreApart | internal/config/config.go:311-329 | different namespaces never share a dump's key |
| S3Namespace.InstallationsShareABucket | internal/backup/backup.go:1690-1696 | what one installation does, while its own objects stay, is within what another relies on |
| S3Namespace.NobodyTouchesOthers | internal/backup/backup.go:1690-1776 | over any history of any number of installations and nobody else, each doing only what it may do whatever others do, no request overwrites anything or touches an object of another one |
| S3Namespace.OwnedObjectsStay | internal/backup/backup.go:1690-1776 | so for each of them the bucket is steady |
| WorkLease.StepKeepsInv | internal/backup/resources.go:32-90 | every step keeps: semaphore count equals leases being taken, held or given back; active leases own the database lock |
| WorkLease.RunKeepsInv | internal/backup/resources.go:32-90 | the same over every run |
| WorkLease.AtMostOneActive | internal/backup/resources.go:32-90 | one active lease per process, and one per database unless a session was lost |
| WorkLease.OccupancyIsExact | internal/backup/resources.go:39-57 | the semaphore is occupied exactly by those leases |
| WorkLease.NestedReleasesKeepLease | internal/backup/resources.go:36-59 | from the grant to its own release an active lease stays active and grants nested calls at once, whatever nested calls and nested releases happen in any number and order |
| WorkLease.NestedReleaseDoesNothing | internal/backup/resources.go:36-38 | the release function of a nested call changes nothing for the rest of the run |
| WorkLease.ReleasedForGood | internal/backup/resources.go:49-59 | a released lease grants nothing for the rest of the run, and releasing again changes nothing |
| WorkLease.ReleaseFreesBoth | internal/backup/resources.go:52-58 | a full release lets the next caller in |
| KeywordDsn.StripDsnPassword | internal/backup/connection.go:161-223 | accepts exactly the readable strings; returns the last password and the other assignments joined |
| KeywordDsn.StripKeepsOtherSettings | internal/backup/connection.go:155-223 | re-reading the result gives the original assignments, byte for byte, without password |
| KeywordDsn.StripIsIdempotent | internal/backup/connection.go:161-223 | a second pass finds no password and changes nothing |
| KeywordDsn.QuotedPasswordIsReturned | internal/backup/connection.go:180-214 | any password written quoted is returned decoded |
| DatabaseUri.ParseDatabaseUri | internal/backup/connection.go:90-136 | the scanning loops compute the grammar's reading |
| DatabaseUri.PrintUri | internal/backup/connection.go:138-153 | the printer computes the grammar's text |
| DatabaseUri.PrintParsed | internal/backup/connection.go:90-153 | a parsed URI prints as the original, less a separator that nothing follows |
| DatabaseUri.Reprint | internal/backup/connection.go:90-153 | a printed URI re-reads as itself exactly if it has a user part or shows none |
| DatabaseUri.RemovePasswordPreserves | internal/backup/connection.go:21-46 | removing the password keeps user, hosts, path and the other parameters exactly unless there is no user part and no path and the first `@` or `/` in what remains is an `@` |
| DatabaseUri.RemovedSlashUncoversUser | internal/backup/connection.go:21-46 | a URI for which it does not |
| DatabaseUri.WithDatabase | internal/backup/rehearse.go:303-321 | an unreadable URI is returned unchanged, any other is redirected |
| DatabaseUri.RedirectTargets | internal/backup/rehearse.go:303-321 | the result re-reads with the new path and one database alias, exactly for names without an ampersand |
| ConnectionEnv.DbUrlEnv | internal/backup/connection.go:14-70 | the environment gets exactly one password, the stated one or else the inherited one |
| ConnectionEnv.UserPasswordIsReturned | internal/backup/connection.go:26-37 | the password of the user part, percent-encoded in whatever way, is returned decoded, unless a parameter states another |
| ConnectionEnv.ParameterPasswordIsReturned | internal/backup/connection.go:38-45 | so is that of the last password parameter, which goes before the user part |
| ConnectionEnv.CleanedStatesNoPassword | internal/backup/connection.go:14-70 | for every readable string the cleaned one is readable and states no password if and only if it is not misread, or the text it is misread as has nothing behind a `:` in front of its `@`, can be read and has no password parameter; a keyword string is taken for a URI exactly if misread |
| ConnectionEnv.RehearsalEnvironment | internal/backup/rehearse.go:101-105 | the environment of a rehearsal, for every readable URI: the password of the original, and a string without password that reads as the scratch database on the same hosts, refused exactly if the original is |
| ConnectionEnv.UncoveredTextStatesPassword | internal/backup/connection.go:21-46 | a misread URI, whose cleaned form states a password |
| ConnectionEnv.UncoveredTextStatesNothing | internal/backup/connection.go:21-46 | a misread URI, whose cleaned form states none |
| ConnectionEnv.KeywordReadAsUriStatesPassword | internal/backup/connection.go:14-20 | a misread keyword string, whose cleaned form states a password |
| BankHashes.InputsAreApart | internal/bankimport/bankimport.go:33-57 | tuple, bank-reference and duplicate inputs of the hash never coincide |
| BankHashes.TupleSaysAll | internal/bankimport/bankimport.go:33-36 | for dates as they are formatted, two tuples are equal if and only if date, amount and the joined trimmed reference and name are |
| BankHashes.RemarkSaysBoth | internal/bankimport/bankimport.go:34 | and then reference and name agree each, unless a reference holds the separator |
| BankHashes.SameHashExactly | internal/bankimport/bankimport.go:33-57 | for any two imports, the numbered hash of one credit is that of another exactly if both have the same bank reference, or neither has one and date, amount and text agree, and as many of the kind precede them |
| BankHashes.DisambiguateDuplicateHashes | internal/bankimport/bankimport.go:47-57 | renumbers the list in place as specified, and changes nothing but hashes |
| BankHashes.NumberedDistinct | internal/bankimport/bankimport.go:39-57 | all hashes are pairwise different, first occurrences keep theirs |
| BankHashes.NumberedExactly | internal/bankimport/bankimport.go:47-57 | the resulting set depends only on the multiset of transactions |
| BankHashes.ReimportAddsTheRest | internal/bankimport/bankimport.go:39-46 | importing transactions and then any list that contains them, in any order, books exactly the additional ones |
| Camt.SplitBatch | internal/bankimport/bankimport.go:345-374 | one credit per detail with the detail's amount, or none when a detail has no amount |
| Camt.CreditsCarry | internal/bankimport/bankimport.go:253-374 | which texts, name, IBAN, date and amount a credit carries |
| Camt.BatchKeysAreApart | internal/bankimport/bankimport.go:361-368 | details of batches are known by the same reference exactly if they have the same place in batches of one reference |
| Camt.ParseCamt | internal/bankimport/bankimport.go:271-343 | the credits of all entries in order, renumbered; an error when there are none |
| Camt.EntryConserves | internal/bankimport/bankimport.go:276-311 | each entry contributes exactly its amount or nothing, and when it contributes |
| Camt.MessageConserves | internal/bankimport/bankimport.go:271-343 | the total over a message is that of its booked entries |
| Camt.NoCollisions | internal/bankimport/bankimport.go:325-341 | the hashes of one message are pairwise different |
| Camt.ContainingMessageAddsTheRest | internal/bankimport/bankimport.go:271-343 | importing a message and then one that contains its entries books exactly the additional transactions |
| Mt940.Parse86Fields | internal/bankimport/bankimport.go:386-417 | the loop over fields computes remittance, payer name and IBAN |
| Mt940.FieldsAreRead | internal/bankimport/bankimport.go:386-417 | on a text written from fields: the reference joins ?20 to ?29 and ?60 to ?63 without keyword, the name ?32 and ?33, the IBAN is the last ?31, and no other code counts |
| Mt940.WrittenStatementIsRead | internal/bankimport/bankimport.go:378-452 | a statement line written from its parts, with or without entry date and funds code, is a credit of exactly its amount if and only if its mark is C and the amount is not zero |
| Mt940.ParseMT940 | internal/bankimport/bankimport.go:422-474 | one transaction per accepted statement line, in order, with the last narrative of its block |
| Mt940.StatementsConcatenate | internal/bankimport/bankimport.go:422-474 | a file appended to another is read as each of them alone, unless what it begins with is read into the last open statement of the first |
| Mt940.ClosedFilesAreApart | internal/bankimport/bankimport.go:422-474 | so it is whenever nothing precedes it or it begins with a closing tag |
| Mt940.NarrativeStaysExactly | internal/bankimport/bankimport.go:453-463 | without an `:86:` line before its first closing tag, it changes the narrative of a statement exactly if the `:86:` text is still open and its first line goes on with it |
| Mt940.StatementConserves | internal/bankimport/bankimport.go:422-474 | the total of a statement is that of its accepted lines |
| Mt940.NoCollisions | internal/bankimport/bankimport.go:430-474 | the hashes of one statement are pairwise different |
| Mt940.ContainingFileAddsTheRest | internal/bankimport/bankimport.go:422-474 | importing a file and then one that contains it, with lines before and after that are read apart from it, books exactly the additional transactions |
| Mt940.TakenForTheSameExactly | internal/bankimport/bankimport.go:271-474 | for any two files, camt or MT940: a credit of one gets the hash of a credit of the other exactly if they have the same bank reference, or none and the same date, amount and text, and as many of the kind precede them |
| Amounts.Money | internal/pdf/invoice.go:33-56 | the digit loop groups by three from the right |
| Amounts.ParseAmount | internal/bankimport/bankimport.go:66-110 | whatever is accepted is below the bound and whole in cents |
| Amounts.InCents | internal/bankimport/bankimport.go:106-110 | an accepted amount is exactly its cents |
| Amounts.WrittenParses | internal/bankimport/bankimport.go:81-110 | every amount below the bound is read back exactly, German or en-US |
| Calendar.IcsLine | internal/server/calendar.go:26-42 | returns exactly on lines without 74 continuation bytes in a row, otherwise its state repeats; the pieces join to the line, fit, and start code points |
| Calendar.ContinuationsNeverFold | internal/server/calendar.go:26-42 | a line on which it does not return |
| Calendar.UnfoldReturnsLine | internal/server/calendar.go:26-42 | unfolding gives the line back (section 3.1 of RFC 5545) |
| Calendar.WrittenIsShort | internal/server/calendar.go:26-42 | no physical line has more than 75 octets |
| Calendar.ValidTextFolds | internal/server/calendar.go:31-33 | on valid UTF-8 the loop ends |
| Calendar.EncodedIsUtf8 | internal/server/calendar.go:31-33 | valid UTF-8 is what encoding any sequence of code points gives (section 3 of RFC 3629) |
| Calendar.Utf8IsEncoded | internal/server/calendar.go:31-33 | and nothing else is |
| Calendar.PiecesAreValid | internal/server/calendar.go:26-42 | every piece of valid UTF-8 is valid UTF-8 |
| Calendar.EscapeReads | internal/server/calendar.go:21-24 | unescaping returns the text with line breaks normalized, and no line break is left |
| BillingRule.BilledExactlyUnless | internal/models/models.go:211-221 | the billed hours are the least multiple not below the hours, with the exact exception |
| BillingRule.ExactForAllHours | internal/models/models.go:213-216 | exact for all hours if and only if the increment is at most 2e16 units |
| BillingRule.BilledIsLeastMultiple | internal/server/billing_rule.go:39-51 | so it is exact for every rule that can be stored, then raised to the minimum |
| BillingRule.BilledMonotone | internal/models/models.go:213-221 | more hours are never billed less |
| BillingRule.IdempotentExactly | internal/models/models.go:213-221 | billing again changes nothing, for all hours that can be booked, exactly if one of the two is off, the minimum is a multiple of the increment, or it is below the increment |
| Pricing.NewAdjustedRateBreakdown | internal/calc/calc.go:62-81 | the loop computes rounded components, their sum, and the rounded rate |
| Pricing.OrderDoesNotMatter | internal/calc/calc.go:73-77 | the price does not depend on the order of machines |
| Pricing.CostNearExact | internal/calc/calc.go:34-100 | the cost is within half a cent, and half a cent per hour and component, of the exact product |
| Pricing.SnapshotMatchesBreakdown | internal/server/entries.go:2110-2121 | adding a surcharge of at most four decimals to the snapshot gives the breakdown's rate |
| Pricing.SnapshotMatchesExactly | internal/server/entries.go:2110-2121 | for more decimals, exactly when rounding to four places does not change the cents |
| Pricing.SurchargePathsDiffer | internal/calc/calc.go:64-79 | a surcharge of seven decimals, which the column cannot hold, for which the two rates differ |
| Booking.Entry.ApplyEffectiveFuelAdjustment | internal/server/entries.go:2110-2121 | the whole new state of the entry |
| Booking.Entry.ApplyPriceTerm | internal/server/price_terms.go:28-47 | the whole new state of the entry |
| Booking.DiscountIsNearest | internal/models/price_term.go:30-36 | the discounted rate is whole in cents, within half a cent of the rate less the percentage, and with what is taken off it gives the rate |
| Booking.Entry.ApplyBillingRule | internal/server/billing_rule.go:17-36 | the whole new state, and whether hours changed |
| Booking.QuickRow | internal/server/entries.go:1996-2003 | a quick-entry row gets the hours, rate, cost and snapshots the recalculation computes |
| Booking.FreshBookingsAreStable | internal/store/recalc.go:161-182 | recalculating a fresh booking changes nothing, for all hours, exactly if the rule is idempotent for all hours that can be booked |
| Booking.RecalculationRaisesHours | internal/store/recalc.go:172-176 | a quarter of an hour under a rule that is not: billed as 0.75 h and recalculated to a whole hour |
| Booking.EffectivePriceTerm | internal/models/price_term.go:38-53 | a covering term no other is later than, or none if none covers the day |
| Booking.OneTermApplies | internal/models/price_term.go:38-53 | which term that is does not depend on the order of the list |
| RateList.UpliftIsNearest | internal/server/base_import.go:514-524 | within half a step of the exact rate, exactly unless a tie is lifted; a multiple of the step exactly unless the percentage is zero and the rate is none |
| RateList.OfferedSteps | internal/server/base_import.go:514-515 | every step the form offers is one for which this is stated |
| RateList.TieIsLifted | internal/server/base_import.go:514-524 | an accepted percentage whose result is more than half a step away |
| RateList.TextRoundTrip | internal/server/base_import.go:475-485 | every exported text is read back, and none is read as a formula |

## Left out

- Concurrency is modelled as state machines over values, one atomic step at a time, not as
  classes: methods of a class run to the end and cannot interleave. What this does not show
  is how a lock is implemented.
- HTTP handlers, templates, SQL, migrations, PDF layout and the regular-expression, XML, CSV
  and cron libraries: plumbing, or not part of the repository. The pattern of a `:61:` line is
  written out by hand in `Mt940.Match61`.
- `pgx` validates a URI before the parser here sees it; the model accepts what the parser
  accepts.
- In ApplicationLease a lost session is an event that can happen at any time, noticed or not, so
  its safety results hold however late the notice comes; LeaseWatch says how late that can be,
  in ticks of the monitor, which are not related to a clock.
- The scheduler of a service without a database, and a lease lost in the middle of a tick.
- Rehearsals, restore lists, email and the audit chain.
- ParseCSV: its columns are found by header names, which would add easy members.
- diffRateList and the numbers of a rate list: bookkeeping without a deeper property.
- Time zones, daylight saving and the parsing of dates: parameters of the model.
- Letters beyond ASCII are not upper-cased in IBANs and bank words; lengths are counted in
  characters where the source counts bytes, which decides nothing there.
- S3Mirror.RunS3Mirror: that it succeeds is promised when no request fails, nobody else acts
  and nothing stands in the way (`S3Mirror.Ready`); otherwise only what it may do.
- Scheduler.SuccessesNeverOutnumberOccurrences: takes the occurrences handed to the ticks as
  given; that the cron library returns the next one of its schedule is not part of this model.
- Mt940.StatementsConcatenate: an `:86:` line of the second file that repeats the narrative it
  replaces is left open.
- RestoreAdmission.RestoreIsReachable: shows that the restore can be reached, not that it
  always is.
