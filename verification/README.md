# Veritra: proofs about its protocols and formats

Veritra is an end-to-end encrypted messenger: a Go server, a Rust cryptography
core, a Flutter application with native runners, and a load tool. This project
models the parts whose correctness does not show from reading one function, and
proves what the code and its documentation promise about them. Nothing here
executes the original program.

Each component is a model in the source's own form (objects with fields become
classes, loops stay loops, pure code becomes functions) and, beside it, proofs
over every input, every run or every interleaving.

* **Crash-safe restore** (`RestoreDisk`, `RestoreSafety`, `RestoreHost`,
  `RestoreTheorems`, `RestoreConditions`). The disk keeps, per file, what was
  durable at the last directory sync and the operations since. A process can be
  killed between any two steps; a power loss keeps any subset of the unsynced
  operations. The restore command and the recovery are methods that take only
  allowed steps, so the run-level results hold for them.
* **Exclusion** (`RestoreLocks`, `LockProgress`). Any number of server, maintenance, password
  reset and restore processes for any databases in one directory, interleaved
  lock by lock, with kills at every point.
* **Backup and staging** (`BackupStaging`, `BackupContents`). What a published
  backup holds, what staging accepts, and that the two fit.
* **Write budget** (`Admission`, `AdmissionProofs`, `AdmissionOveruse`,
  `AdmissionBound`, `AdmissionAnswers`). Two token buckets per account in a bounded table, with
  reservations settled later. Balances and times are reals.
* **Request rate limiter** (`RateLimiter`, `RateLimiterProofs`). One-minute
  windows per address in a bounded table, with a shared overflow window. Times
  are integers.
* **Recovery key display** (`Numerals`, `RecoveryCodec`, `RecoveryTyping`). The base-32 codec on
  16-bit words.
* **History transfer** (`HistoryFormat`, `HistoryBundle`, `HistoryHandoff`,
  `HistoryTransfer`, `HistoryBinding`). The bundle header, the sealed bundle, the
  handoff's plaintext, and the sealed and signed handoff. Nothing is assumed
  about forgery: where a result needs that a cipher opens nothing under inputs
  it was not sealed with, the ciphertext for which it does is named as a stray.
* **Group membership** (`DeviceIdentity`, `MlsGroup`, `MlsRuns`,
  `MlsMembership`). The rules the Rust wrapper puts around MLS groups. The MLS library is a roster, an epoch and
  a pending commit, with the rules of sections 12.2 and 12.3 of RFC 9420; the
  server accepts one commit per epoch, from anyone and with any content.
* **Safety number** (`SafetyNumber`). The transcript that the number is
  computed from.
* **Load accounting** (`LoadAccounting`, `LoadProofs`, `LoadOutcomes`). The load
  tool's recorder and delivery tracker, interleaved at every critical section.
* **Background wakes on iOS** (`WakeJournal`, `WakeHistory`, `WakeCoordinator`,
  `WakeProofs`, `WakeRuns`). The durable journal, whose saves may fail before or after they take effect,
  and the coordinator that holds the system's completion callbacks.
* **Message transliteration** (`Braces`, `Transliteration`, `SerbianReading`,
  `IcuMessage`, `IcuSpace`, `IcuProofs`, `IcuTranslator`). Serbian Cyrillic to
  Latin inside ICU messages.

Some promises turned out to hold only under a condition. For each there is a
concrete run or input that breaks the promise, and a theorem over all of them
with the exact condition:

* The restored database is never live beside an original `-wal` or `-shm`. A
  power loss in the middle of a rollback breaks this
  (`RestoreTheorems.BesideAfterPowerLoss`). A power loss can break it exactly
  when, at the last directory sync or since, the database was renamed in and the
  original renamed back (`RestoreConditions.MeetExactly`); no run meets them
  otherwise (`RestoreConditions.NeverBeside`), and once the journal is gone the
  live files are one whole instance (`RestoreSafety.AllOrNothing`).
* A settled restore stays settled. A power loss can undo a kept one
  (`RestoreConditions.UndoneAfterPowerLoss`, a run of an instance with a
  `-wal`): exactly when the journal's last synced version, or one written since,
  said "activating" (`RestoreConditions.FlipsExactly`).
* A restore keeps everyone out of what it renames. It does for commands of its
  own database; a blob directory shared with another database can be renamed
  under a command that has it open, because the blob lock is given back first
  (`RestoreLocks.MovesUnderExactly`, with the run in
  `RestoreLocks.ReachMovesUnder`).
* A published backup can be restored. Publishing does not validate the database,
  so this fails for one with a foreign key that points nowhere
  (`BackupStaging.PublishedCanBeRefused`), and in general exactly for databases
  that validation rejects (`BackupStaging.PublishedIsAcceptable`).
* Evicting an idle account is invisible. A caller keeps it so by settling within
  the reservation (`AdmissionProofs.EvictionIsUnobservable`). A settlement beyond
  it can make it visible (`AdmissionOveruse.OveruseIsObservable`), and
  `AdmissionOveruse.OveruseExactly` says for every settlement of every size
  whether it does; that finer condition compares the bucket with the one of a
  table that never evicts, which only the proof can see.
* No sixty seconds admit more than twice a limit. For credentials and enrollments
  this always holds and is reached. For the other limits it holds while no live
  window of the host is evicted (`RateLimiterProofs.GeneralAtMostTwice`), and
  without that there is no bound at all (`RateLimiterProofs.EvictionForgets`).
* A settle of the load tool that forces nothing leaves no delivery uncounted.
  It can when it was cancelled (`LoadProofs.CancelledIsNotEnough`) or when an
  earlier settle gave the send up (`LoadProofs.QuietIsNotEnough`);
  `LoadProofs.SettledExactly` is the exact condition.
* Every opening brace of an accepted message opens an argument. A name can
  swallow one (`IcuProofs.StrayBrace`); the braces balance exactly when no name,
  and no type of a plural or select, holds one (`IcuProofs.BalancedExactly`).

## Model

| member | source | states |
|---|---|---|
| RestoreSafety.AllOrNothing | server/cmd/messenger-server/backup_restore.go:686-761 | after any run of restores, recoveries, kills and power losses, once the journal is gone the live database, -wal, -shm and blobs are the whole original or the whole restored instance |
| RestoreSafety.OriginalsKept | server/cmd/messenger-server/backup_restore.go:706-742 | at every point of every run each original is at exactly one of its live and .pre-restore paths, is never overwritten and never in staging |
| RestoreSafety.StepKeeps | server/cmd/messenger-server/backup_restore.go:793-893 | every allowed step keeps the invariant over all outcomes a power loss could leave |
| RestoreSafety.RunKeeps | server/cmd/messenger-server/backup_restore.go:8-10 | the invariant holds after every legal run |
| RestoreTheorems.SettledAsTheJournalSaid | server/cmd/messenger-server/backup_restore.go:968-1005 | removing the journal leaves the restored instance exactly when it said "activated" and the original one exactly when it said "activating" |
| RestoreTheorems.OutcomeIsFinal | server/cmd/messenger-server/backup_restore.go:759-762 | once the journal's removal is synced, no later step or power loss changes which instance is live, as long as no new restore starts |
| RestoreTheorems.KeptRestoreCanBeUndone | server/cmd/messenger-server/backup_restore.go:755-762 | every restore that was activated durably and recorded without a sync can lose that record: a power loss brings the "activating" journal back |
| RestoreConditions.UndoneAfterPowerLoss | server/cmd/messenger-server/backup_restore.go:755-762 | a concrete run, step by step from an untouched instance: the restore is kept and its journal gone, power is lost, and the next recovery puts the original back |
| RestoreConditions.MeetExactly | server/cmd/messenger-server/backup_restore.go:805-881 | after any run, a power loss can leave the restored database live beside an original companion exactly when at the last directory sync or since the one was renamed in and the other renamed back |
| RestoreConditions.NeverBeside | server/cmd/messenger-server/backup_restore.go:852-881 | no state of any run has them live together unless power was lost at such a moment |
| RestoreConditions.RecoveryCanFinish | server/cmd/messenger-server/backup_restore.go:793-893 | from every reachable state with an "activating" journal a rollback leads to the whole original instance and no journal |
| RestoreConditions.FlipsExactly | server/cmd/messenger-server/backup_restore.go:968-1005 | once the journal is gone, the live instance can still change without a new restore exactly when the restored one is live and the journal could come back as "activating" |
| RestoreConditions.PutBack | server/cmd/messenger-server/backup_restore.go:805-881 | withdrawing what is live and putting the original back leaves the item original and every other item alone |
| RestoreTheorems.BesideAfterPowerLoss | server/cmd/messenger-server/backup_restore.go:874-892 | a legal run with a power loss after which the restored database is live beside the original -wal, the journal still there |
| RestoreHost.Host.Restore | server/cmd/messenger-server/backup_restore.go:576-773 | refuses beside a journal without touching the disk; success leaves no journal and the restored instance, checked, in every outcome; without faults it succeeds, the journal gone durably and no scratch copy left; after one fault it either succeeds or has undone what it did: before the journal nothing has changed, from the journal to the check everything is back, the journal gone durably and no scratch copy left, and after the check the restored instance is live under its journal; a kill is never answered with anything else |
| RestoreHost.Host.Undo | server/cmd/messenger-server/backup_restore.go:743-754 | a failed activation is rolled back: without further faults everything is back, the journal is gone durably, and no scratch copy is left |
| RestoreHost.Host.Finish | server/cmd/messenger-server/backup_restore.go:755-773 | a checked restore is recorded and its journal removed; an error leaves the restored instance live under the journal |
| RestoreHost.Host.Recover | server/cmd/messenger-server/backup_restore.go:919-1005 | settles a journal from any reachable disk: "activating" ends with everything back, "activated" with everything swapped, durably; without faults it succeeds and leaves no scratch copy; without a journal it changes nothing |
| RestoreHost.Host.LosePowerAndRecover | server/cmd/messenger-server/backup_restore.go:919-1005 | whatever a power loss leaves at any point, the recovery at the next start ends with exactly one whole instance, the one the surviving journal named; without faults it succeeds |
| RestoreHost.Host.GiveUp | server/cmd/messenger-server/backup_restore.go:743-754 | a failed restore never reports success, and leaves the original when no journal is left |
| RestoreHost.Host.Activate | server/cmd/messenger-server/backup_restore.go:706-742 | from everything back and a durable journal to everything swapped in all outcomes |
| RestoreHost.Host.PreserveAll | server/cmd/messenger-server/backup_restore.go:707-724 | no covered file is live in any outcome, and staged copies are kept |
| RestoreHost.Host.PreserveMoves | server/cmd/messenger-server/backup_restore.go:707-721 | every listed original leaves its live path |
| RestoreHost.Host.PreserveFiles | server/cmd/messenger-server/backup_restore.go:707-716 | the database and both companions leave their live paths, the blobs are untouched |
| RestoreHost.Host.PreserveCompanions | server/cmd/messenger-server/backup_restore.go:712-716 | every listed companion leaves its live path, nothing else moves |
| RestoreHost.Host.Preserve | server/cmd/messenger-server/backup_restore.go:707-711 | one original leaves its live path and nothing else moves |
| RestoreHost.Host.SwapAll | server/cmd/messenger-server/backup_restore.go:725-740 | the restored copies are live in all outcomes and the companions hold nothing original |
| RestoreHost.Host.SwapIn | server/cmd/messenger-server/backup_restore.go:725-732 | a staged copy becomes live and nothing else moves |
| RestoreHost.Host.Validate | server/cmd/messenger-server/backup_restore.go:736-740 | opening the restored database leaves at most restored companions, and the restore is checked exactly when this succeeds |
| RestoreHost.Host.Check | server/cmd/messenger-server/backup_restore.go:736-740 | only the checks make a restore checked, and a failure of theirs is reported |
| RestoreHost.Host.SyncParents | server/cmd/messenger-server/backup_restore.go:698-705 | changes no file, narrows the outcomes, and makes everything durable when it succeeds |
| RestoreHost.Host.RollBack | server/cmd/messenger-server/backup_restore.go:793-893 | from any reachable disk under an "activating" journal, success means that no step failed and everything is back in all outcomes |
| RestoreHost.Host.RollBackDatabase | server/cmd/messenger-server/backup_restore.go:852-876 | the database is back and unlisted companions are gone |
| RestoreHost.Host.RollBackCompanions | server/cmd/messenger-server/backup_restore.go:877-881 | the listed companions are back, after the database |
| RestoreHost.Host.RollBackBlobs | server/cmd/messenger-server/backup_restore.go:882-891 | the blob directory is back, and nothing else changes |
| RestoreHost.Host.PutBack | server/cmd/messenger-server/backup_restore.go:822-835 | the original is live again and every other file is as before |
| RestoreHost.Host.Withdraw | server/cmd/messenger-server/backup_restore.go:805-821 | nothing is left at the live path and the preserved original stays |
| RestoreHost.Host.WriteJournalSynced | server/cmd/messenger-server/backup_restore.go:567-574 | the journal is durable on success, and otherwise old or new |
| RestoreHost.Host.DropJournal | server/cmd/messenger-server/backup_restore.go:759-761 | the journal goes, and every outcome of the files stays |
| RestoreHost.Host.Stage | server/cmd/messenger-server/backup_restore.go:395-532 | staged copies exist and the live files are as before |
| RestoreLocks.NoWriterDuringRestore | server/cmd/messenger-server/instance_lock.go:126-142 | in every interleaving, no command has a database open while a restore journal for it exists |
| RestoreLocks.RecoveryActsAlone | server/cmd/messenger-server/backup_restore.go:919-964 | recovery never settles a journal beside a running restore, another recovery, or a command with the database open |
| RestoreLocks.JournalChangesHands | server/cmd/messenger-server/backup_restore.go:588-623 | a restore never overwrites a journal, and only its own restore or a recovery of its database removes it |
| RestoreLocks.StepKeeps | server/cmd/messenger-server/main.go:83-107 | every step of every process, and every kill, keeps lock ownership and what each position in a command implies |
| RestoreLocks.OneOwner | server/cmd/messenger-server/offline_lock.go:26-43 | two processes never act on the journal at once |
| RestoreLocks.StepLocks | server/cmd/messenger-server/restore_lock.go:14-40 | every lock has at most one holder and is held by the process that took it |
| RestoreLocks.OneHolderPerGeneration | server/cmd/messenger-server/instance_lock.go:160-194 | two processes with the lock of one blob directory hold it in different generations of the directory |
| RestoreLocks.OneWriterPerStore | server/cmd/messenger-server/instance_lock.go:68-110 | while nobody renames a blob directory, at most one writer uses it, whichever databases share it |
| RestoreLocks.MovesUnderExactly | server/cmd/messenger-server/instance_lock.go:151-160 | a restore can rename a blob directory that a command has open exactly when that command is of another database |
| RestoreLocks.ReachMovesUnder | server/cmd/messenger-server/backup_restore.go:588-623 | the run in which it does |
| LockProgress.AloneGetsThrough | server/cmd/messenger-server/instance_lock.go:68-142 | after any run and any kills, a command started when no other runs, with no journal or one of its own database, can take every lock, settle that journal and get through |
| LockProgress.StepIsEnabled | server/cmd/messenger-server/restore_lock.go:14-40 | on its own, a command is never stuck on a lock it holds itself |
| BackupStaging.Publish | server/cmd/messenger-server/backup_restore.go:267-320 | publishes exactly the database and its referenced blobs with a manifest describing them, and fails exactly when no such backup exists, an unlistable database included |
| BackupStaging.Stage | server/cmd/messenger-server/backup_restore.go:395-532 | succeeds exactly on an acceptable backup and then copies the database and every referenced blob byte for byte |
| BackupStaging.StageBlobs | server/cmd/messenger-server/backup_restore.go:499-515 | succeeds exactly when every reference is matched, and copies exactly the referenced keys |
| BackupStaging.StageBlob | server/cmd/messenger-server/backup_restore.go:499-514 | succeeds exactly when the manifest, the file and the reference agree |
| BackupStaging.IndexManifest | server/cmd/messenger-server/backup_restore.go:491-498 | refuses exactly the invalid keys and keeps the last entry of each key |
| BackupStaging.PublishedIsAcceptable | server/internal/storage/sqlite.go:230-258 | an unmodified published backup passes staging exactly when its database passes the quick check, has the four required tables, named one by one, and no dangling foreign key |
| BackupStaging.PublishedCanBeRefused | server/cmd/messenger-server/backup_restore.go:267-320 | a database with every table, a listed blob and one dangling foreign key is published, and its backup refused for that alone |
| BackupStaging.BackUpAndStage | server/cmd/messenger-server/backup_restore.go:395-532 | backing up and staging succeeds exactly for a database that validates and has a backup, and gives back that database and its blobs byte for byte |
| BackupStaging.StagedIsWhatWasBackedUp | server/cmd/messenger-server/backup_restore.go:469-515 | staging an unmodified backup reproduces the database and every referenced blob |
| BackupStaging.ManifestIsExact | server/cmd/messenger-server/backup_restore.go:469-515 | an accepted manifest lists exactly the distinct references, each once |
| BackupContents.AcceptedIsSound | server/cmd/messenger-server/backup_restore.go:465-515 | every accepted backup has a manifest of this format, within the size limit and with plain names, a sound database with the recorded hash and migrations and, under every key that database refers to, a file of the recorded size and hash |
| BackupContents.ChangedBlobIsRefused | server/cmd/messenger-server/backup_restore.go:499-515 | one referenced file whose size or hash is not the recorded one makes staging refuse |
| BackupContents.FoldsExactly | server/cmd/messenger-server/backup_restore.go:470-472 | two hashes count as equal exactly when they differ in letter case only |
| BackupContents.JoinedExactly | server/cmd/messenger-server/backup_restore.go:477-479 | two lists of migrations compare as equal exactly when they are, except that no migration and one with an empty name look alike |
| BackupContents.KeysAreBases | server/cmd/messenger-server/backup_restore.go:492-496 | a key is accepted exactly when it is its own last path element, not empty and no dot name |
| Admission.Budget.ReserveLocked | server/internal/admission/admission.go:140-178 | the new state and answer are those of the specification on the old state |
| Admission.Budget.SettleTicket | server/internal/admission/admission.go:183-198 | only the first settlement of a ticket changes its bucket, by what was not used |
| Admission.Budget.EvictLocked | server/internal/admission/admission.go:204-217 | samples up to 64 entries, refills them and drops the first idle full one |
| Admission.Budget.BucketFor | server/internal/admission/admission.go:145-156 | the account's entry, a new one, or the overflow bucket when nothing can go |
| Admission.RefillTwice | server/internal/admission/admission.go:117-123 | refilling on the way makes no difference |
| Admission.CreditRefill | server/internal/admission/admission.go:183-198 | refunding and refilling commute |
| AdmissionProofs.EvictionIsUnobservable | server/internal/admission/admission.go:140-217 | with settlements within their reservations, an answer from an account's own entry is that of a table that never evicts, wait included |
| AdmissionProofs.BoundedAndReachable | server/internal/admission/admission.go:140-217 | the table never exceeds its bound and every unsettled ticket's bucket stays reachable |
| AdmissionOveruse.OveruseIsObservable | server/internal/admission/admission.go:183-217 | a run with a settlement beyond its reservation after which the two tables answer differently |
| AdmissionOveruse.OveruseExactly | server/internal/admission/admission.go:183-217 | after any run within reservations, one more settlement of any size makes some request answer differently from the table that never evicts exactly when it charges more than reserved and the balances, grown over different spans, do not both stay beyond the cap |
| AdmissionOveruse.ObservableExactly | server/internal/admission/admission.go:140-178 | two tables answer every request of an account alike, wait included, exactly when they hold the same balances for it |
| AdmissionProofs.RunAgrees | server/internal/admission/admission.go:117-127 | after every such run each entry, refilled, equals the never-evicting table's |
| AdmissionBound.ChargesAreBounded | server/internal/admission/admission.go:117-198 | at every admission the total charged to an owner is at most a full window plus the refill since it was first charged, for deliveries and bytes, across evictions and any settlements |
| AdmissionAnswers.RefusedExactly | server/internal/admission/admission.go:140-198 | after any run within reservations, a request answered from its own entry is refused exactly when, since some moment, what was charged and what is asked exceed a full window, what was returned and the refill, for deliveries or bytes |
| AdmissionAnswers.AskAgain | server/internal/admission/admission.go:160-178 | the wait of a refusal is right: asked again after it, with nothing in between, a request within the caps is admitted from whichever bucket; from its own entry it is admitted no earlier once the wait exceeds a second, and never when it is beyond a cap |
| AdmissionAnswers.RefusalWaits | server/internal/admission/admission.go:160-178 | a refusal waits for the longer of the two shortfalls and at least a second |
| AdmissionAnswers.NewAccountIsAdmitted | server/internal/admission/admission.go:140-178 | an account that gets a new entry is admitted exactly when it asks within both caps |
| AdmissionAnswers.RoomExactly | server/internal/admission/admission.go:145-150 | a new account gets an entry of its own exactly when there is room, or one of the first sixty-four entries looked at has its whole window back and no ticket out |
| AdmissionAnswers.SweepDrops | server/internal/admission/admission.go:204-217 | an eviction drops the first such entry among those it looks at, and none when there is none |
| AdmissionAnswers.AskShared | server/internal/admission/admission.go:145-156 | an account without an entry gets a full one or the overflow bucket as it has refilled |
| AdmissionAnswers.RunPosted | server/internal/admission/admission.go:117-198 | after every such run the balances are a full window changed, entry by entry and cut off at the cap, by what the requests and answers say |
| RateLimiter.AddressTable.EvictOneLocked | server/internal/app/app.go:1493-1524 | the table and the answer are those of the specified walk |
| RateLimiter.AddressTable.BucketLocked | server/internal/app/app.go:1281-1303 | the key's window for this minute, a new one, or the overflow window |
| RateLimiter.AddressTable.HandleRequest | server/internal/app/app.go:1305-1351 | counts a request in its window and judges it by every limit |
| RateLimiter.AddressTable.SettleLocked | server/internal/app/app.go:1398-1434 | a late charge counts and is judged as a request without a session, which is what GeneralAtMostTwice bounds |
| RateLimiter.AddressTable.CleanupLocked | server/internal/app/app.go:1257-1276 | removes exactly the expired windows |
| RateLimiterProofs.EvictsByTheRule | server/internal/app/app.go:1484-1524 | on a full table the first expired of 32 sampled windows goes, else the least used without credential use, else none |
| RateLimiterProofs.BucketMoves | server/internal/app/app.go:1281-1303 | a window with credential use stays until its minute has ended, and so does every window that is not evicted |
| RateLimiterProofs.AtMostTwice | server/internal/app/app.go:1281-1351 | no sixty seconds admit more than twice the credential or enrollment limit (or the general one, if less) from one host's own windows, nor from the overflow window for all hosts, whatever else happens |
| RateLimiterProofs.GeneralAtMostTwice | server/internal/app/app.go:1305-1434 | the same for requests without a session, late charges included, and for signed-in ones: always from the overflow window, and from a host's own windows while none is evicted alive |
| RateLimiterProofs.EvictionForgets | server/internal/app/app.go:1484-1524 | for any number, a run in which two hosts evict each other and one is admitted that often in one instant |
| RateLimiterProofs.TwiceIsReached | server/internal/app/app.go:1281-1351 | for all limits and each of the four counts, a run that reaches the bound of AtMostTwice or GeneralAtMostTwice |
| RateLimiterProofs.JudgedExactly | server/internal/app/app.go:1305-1434 | after any run, a request or late charge is admitted whenever its window has counted fewer requests than every limit it counts in, and only then as long as no live window of its stream was evicted |
| RateLimiterProofs.TableIsBounded | server/internal/app/app.go:1281-1303 | the table never exceeds its bound |
| RecoveryCodec.Encode | crypto/rust/src/recovery.rs:98-121 | the display is the unique 52-symbol base-32 numeral of entropy and check followed by four zero bits; other lengths are refused; the 16-bit buffer loses nothing |
| RecoveryCodec.Decode | crypto/rust/src/recovery.rs:137-184 | returns an entropy exactly when the text normalises to that entropy's display |
| RecoveryCodec.DisplayIsInjective | crypto/rust/src/recovery.rs:98-121 | two entropies never share a display |
| RecoveryCodec.DisplayReads | crypto/rust/src/recovery.rs:137-184 | a display reads as its own entropy and no other |
| RecoveryCodec.CrockfordIsLawful | crypto/rust/src/recovery.rs:123-135 | every letter of the alphabet reads as itself, with any two-byte check |
| RecoveryTyping.NormalisesExactly | crypto/rust/src/recovery.rs:122-160 | a typed text normalises to a display exactly when, without dashes and spaces, each character is the display's letter in either case, or O for zero, or I or L for one |
| RecoveryTyping.ReadsExactly | crypto/rust/src/recovery.rs:122-134 | a character reads as exactly the letters it may stand for, so U and anything else reads as none |
| RecoveryCodec.OnlyReading | crypto/rust/src/recovery.rs:168-184 | after the loop a text reads as an entropy exactly when the padding is zero and the bytes are that entropy and its check |
| RecoveryCodec.ShlExact | crypto/rust/src/recovery.rs:104-111 | a shift that fits the word drops no bit |
| HistoryFormat.HeaderExact | crypto/rust/src/history.rs:233-261 | a header is read exactly from its own encoding, with any bytes after it, and from nothing else |
| HistoryFormat.LpExact | crypto/rust/src/history.rs:212-217 | a length-prefixed field is read exactly from its encoding within the limit |
| HistoryFormat.HeaderLength | crypto/rust/src/history.rs:39-41 | no valid header reaches the size limit |
| HistoryFormat.Reader.HeaderPart | crypto/rust/src/history.rs:315-354 | reads a header off the input or refuses, as the format says |
| HistoryFormat.Reader.LengthPrefixed | crypto/rust/src/history.rs:733-739 | takes a prefixed field within the limit |
| HistoryFormat.Reader.Take | crypto/rust/src/history.rs:704-715 | takes exactly the bytes asked for, or fails without moving |
| HistoryBundle.OpensExactly | crypto/rust/src/history.rs:356-429 | a ciphertext opens to a header and payload exactly when it is, byte for byte, their sealing and is what was expected |
| HistoryBundle.OpensWhatWasSealed | crypto/rust/src/history.rs:267-313 | sealing then opening gives back every valid header and every payload within the cap |
| HistoryBundle.SealsExactly | crypto/rust/src/history.rs:196-239 | a bundle is sealed exactly for ids of 1 to 128 bytes, counters and a version that are not zero, and a payload at least eight bytes below the cap |
| HistoryBundle.SealedWhateverOpens | crypto/rust/src/history.rs:356-429 | whatever opens is the sealing of what it opened to |
| HistoryBundle.SealedFits | crypto/rust/src/history.rs:361-368 | no sealed bundle exceeds what opening accepts |
| HistoryBundle.OpensSealed | crypto/rust/src/history.rs:299-311 | the chunks of any frame open to that frame |
| HistoryBundle.SealsOpened | crypto/rust/src/history.rs:388-408 | chunks that open are the sealing of the frame they opened to, of the announced length |
| HistoryBundle.PaddingHolds | crypto/rust/src/history.rs:219-231 | the padded size holds the framed payload with less than a bucket to spare |
| HistoryBundle.Seal | crypto/rust/src/history.rs:267-313 | the loop gives the specified bundle, or refuses as specified |
| HistoryBundle.Open | crypto/rust/src/history.rs:356-429 | the reader and the chunk loop give the specified result |
| HistoryBinding.BundleIsWhole | crypto/rust/src/history.rs:356-429 | a bundle put together from chunks of any bundles, in any order and under any header, opens only if every chunk is at the place and under the header hash it was sealed with, or one of them strays |
| HistoryBinding.HeaderIsBound | crypto/rust/src/history.rs:263-311 | the chunks of one bundle do not open under a header with another hash, unless the first of them strays |
| HistoryBinding.ContextIsInjective | crypto/rust/src/history.rs:263-266 | two headers give a chunk the same context exactly when their hashes are equal |
| HistoryHandoff.HandoffExact | crypto/rust/src/history.rs:498-583 | a handoff is read exactly from its own encoding under the same link; short names are the exact condition |
| HistoryHandoff.EncodedIsRead | crypto/rust/src/history.rs:445-583 | what was encoded is read back as it was under every context that sealing accepts; for other contexts exactly when no name is too long |
| HistoryHandoff.GuardIsNeeded | crypto/rust/src/history.rs:445-456 | the private encoder alone takes a context the reader refuses, so the context check before it is needed |
| HistoryHandoff.DecodesEncoded | crypto/rust/src/history.rs:498-537 | decoding undoes encoding |
| HistoryHandoff.EncodesDecoded | crypto/rust/src/history.rs:539-583 | what decodes is the encoding of its result |
| HistoryTransfer.HandoffOpensExactly | crypto/rust/src/history.rs:585-690 | some bytes open to a payload exactly when they are byte for byte a sealing of it by the source device, to this device's key, under the same context and link key |
| HistoryTransfer.OpensSealedHandoff | crypto/rust/src/history.rs:593-690 | opening undoes sealing |
| HistoryTransfer.SealedIfOpened | crypto/rust/src/history.rs:640-690 | whatever opens was sealed by the context's source |
| HistoryTransfer.SealsExactly | crypto/rust/src/history.rs:593-638 | sealing succeeds exactly for the context's own signer, a valid context and an allowed payload; the size limits never refuse one |
| HistoryTransfer.AadIsInjective | crypto/rust/src/history.rs:445-474 | two contexts have the same associated data exactly when every field is the same |
| HistoryTransfer.EnvelopeExact | crypto/rust/src/history.rs:626-662 | an envelope is read exactly from its own bytes |
| HistoryTransfer.BuildContextAad | crypto/rust/src/history.rs:445-474 | the loop gives the associated data that AadIsInjective is about, or the refusal |
| HistoryTransfer.Open | crypto/rust/src/history.rs:640-690 | the reader object and the checks in their order give the result that HandoffOpensExactly characterises |
| HistoryBinding.HandoffIsBound | crypto/rust/src/history.rs:593-690 | a sealed handoff opens only with the secret, the link key and the whole context it was sealed for, unless its box strays |
| HistoryBinding.HandoffIsGiven | crypto/rust/src/history.rs:445-512 | a handoff is sealed exactly by the context's source, for names of 1 to 128 bytes, an origin of 1 to 2048, two different devices with different keys, a bundle of a possible size, a snapshot, and a recovery id that is its key's |
| HistoryBinding.BundleCanBeHandedOver | crypto/rust/src/history.rs:267-313 | every sealed bundle can be handed over, under every valid context and blob id |
| HistoryBinding.SignedIsInjective | crypto/rust/src/history.rs:585-591 | what is signed determines the transcript and both parts of the ciphertext |
| HistoryBinding.InfoIsInjective | crypto/rust/src/history.rs:607-612 | the key schedule's input determines the link key and the transcript |
| DeviceIdentity.IdentityExact | crypto/rust/src/mls.rs:1031-1072 | bytes decode to an identity exactly when they are its encoding |
| MlsGroup.SameIdentitySameBytes | crypto/rust/src/mls.rs:1134-1141 | comparing identities is comparing the credential bytes |
| MlsGroup.DeviceExactly | crypto/rust/src/mls.rs:1134-1141 | a leaf is a device's exactly when its credential is Basic and is the encoding of that device's identity |
| MlsGroup.EnsureAddedIdentitiesUnique | crypto/rust/src/mls.rs:1175-1186 | succeeds exactly when every addition is well formed, new, and named once |
| MlsGroup.Store.StageMembershipCommit | crypto/rust/src/mls.rs:302-377 | stages the checked commit without merging it, or changes nothing |
| MlsGroup.Store.StageSelfUpdate | crypto/rust/src/mls.rs:390-436 | stages a commit that changes no member, or changes nothing |
| MlsGroup.Store.AddMember | crypto/rust/src/mls.rs:263-297 | the immediate add: one checked device, merged at once, or nothing changes |
| MlsGroup.Store.InspectedCommit | crypto/rust/src/mls.rs:1082-1131 | the loops over additions and updates refuse exactly what the inspection refuses |
| MlsGroup.Store.InspectedWelcome | crypto/rust/src/mls.rs:720-740 | looking at the members one by one, in any order, gives the inspection's answer |
| MlsGroup.Store.CheckedRemoves | crypto/rust/src/mls.rs:579-595 | collects every leaf of every removed identity, or the first failure |
| MlsGroup.Store.ClearPendingCommit | crypto/rust/src/mls.rs:439-446 | drops the staged commit and nothing else |
| MlsGroup.Store.MergePendingCommit | crypto/rust/src/mls.rs:456-463 | moves to the staged roster and the next epoch |
| MlsGroup.Store.ProcessCommit | crypto/rust/src/mls.rs:501-574 | merges only what passes inspection, and drops a group this device was removed from |
| MlsGroup.Store.JoinGroup | crypto/rust/src/mls.rs:617-687 | stores an inspected group, or changes nothing |
| MlsMembership.StagesExactly | crypto/rust/src/mls.rs:302-377 | staging succeeds exactly when it is asked for something, no commit is pending, the library can build it, every key package is valid and of the asked identity, every removed device is another member, and every added one is new; the commit then removes every leaf of every named device and no other, adds the asked devices in order, and changes nothing else |
| MlsMembership.MembersAfter | crypto/rust/src/mls.rs:456-463 | after the merge the members are exactly those not removed and those added, who stays keeps the leaf, and the epoch moves by one |
| MlsMembership.TakenExactly | crypto/rust/src/mls.rs:501-574 | a member's commit is taken and merged exactly when it holds only adds, removes and refreshes, every added device is well formed and new, and every refreshed leaf keeps its device |
| MlsMembership.JoinsExactly | crypto/rust/src/mls.rs:617-687 | a Welcome is taken exactly when the device holds no active group, the members are distinct devices, its own leaf carries its identity and the sender is another member |
| MlsMembership.AddedCanJoin | crypto/rust/src/mls.rs:302-377 | every device a staged commit adds has a leaf of its own in the group it leads to, and its Welcome is taken |
| MlsMembership.RemovesAre | crypto/rust/src/mls.rs:579-595 | the leaves collected for a removal are all leaves of all named devices and no other |
| MlsRuns.SameRosterAtTheSameEpoch | crypto/rust/include/veritra_crypto.h:272-282 | in every run, devices at the same epoch hold the same roster |
| MlsRuns.IdentitiesAreDistinct | crypto/rust/src/mls.rs:1082-1131 | in every run, a stored group has well-formed identities, each at one leaf, and the device's own at its own leaf |
| MlsRuns.LeavesKeepTheirIdentity | crypto/rust/src/mls.rs:1109-1130 | no leaf that stays changes identity from one epoch to the next |
| MlsRuns.OnlyAcceptedCommitsMoveAGroup | crypto/rust/src/mls.rs:298-301 | a group moves one epoch at a time and only by that epoch's accepted commit |
| MlsRuns.StagedCommitIsTaken | crypto/rust/src/mls.rs:302-339 | what a sender staged, every device at that epoch accepts |
| MlsRuns.StagedIsFit | crypto/rust/src/mls.rs:302-339 | a commit that passes the staging checks passes the receivers' inspection |
| MlsRuns.AddedNowKeeps | crypto/rust/src/mls.rs:263-297 | the immediate add keeps identities distinct and every leaf as it was, and receivers would accept it |
| MlsRuns.InspectedApplies | crypto/rust/src/mls.rs:1082-1131 | a commit that passes inspection leaves distinct identities and changes no leaf it keeps |
| MlsRuns.WelcomeNeverMovesAnActiveGroup | crypto/rust/src/mls.rs:1155-1160 | no Welcome, whatever it holds, replaces a group the device is in |
| MlsRuns.EarlyMergeForks | crypto/rust/src/mls.rs:298-301 | merging a staged commit when another wins gives a different roster as soon as they add different devices |
| SafetyNumber.TranscriptIsInjective | crypto/rust/src/mls.rs:924-948 | two inputs share a transcript exactly when the group is the same and the members are the same set, in any order |
| SafetyNumber.RefusedForRepetition | crypto/rust/src/mls.rs:936-941 | a list is refused for its members exactly when one occurs twice, or there are too many to count |
| SafetyNumber.GivenExactly | crypto/rust/src/mls.rs:924-978 | there is a transcript exactly when the group and every member's entry fit their length prefix, no member occurs twice, and the members can be counted |
| SafetyNumber.SortFindsRepeats | crypto/rust/src/mls.rs:936-939 | neighbours in the sorted list are equal exactly when some entry is repeated |
| SafetyNumber.EntryIsInjective | crypto/rust/src/mls.rs:928-935 | an entry determines its credential and key |
| SafetyNumber.BuildTranscript | crypto/rust/src/mls.rs:924-948 | the loop gives the specified transcript or refusal |
| LoadAccounting.Recorder.EndOp | server/cmd/veritra-load/stats.go:150-174 | a live handle gets its one sample, an ended one nothing |
| LoadAccounting.Recorder.AnyPending | server/cmd/veritra-load/stats.go:192-198 | reports exactly whether a live handle began before the cutoff |
| LoadAccounting.Recorder.Settle | server/cmd/veritra-load/stats.go:187-225 | one round: done, waiting on, cancelled, or everything late forced |
| LoadAccounting.Tracker.StartSend | server/cmd/veritra-load/delivery.go:45-56 | registers a send that expects someone |
| LoadAccounting.Tracker.SentSend | server/cmd/veritra-load/delivery.go:61-86 | opens exactly the expected deliveries and ends the early ones, in some order |
| LoadAccounting.Tracker.ObserveEvent | server/cmd/veritra-load/delivery.go:91-116 | only the first sighting of an awaited delivery ends it |
| LoadAccounting.Tracker.ExpireSends | server/cmd/veritra-load/delivery.go:121-134 | ends exactly the deliveries of acknowledged sends before the cutoff, and forgets those sends |
| LoadAccounting.Tracker.DrainSends | server/cmd/veritra-load/delivery.go:154-164 | ends what is left and empties the table |
| LoadProofs.ExactlyOneSample | server/cmd/veritra-load/delivery.go:45-164 | in every interleaving an expected delivery of an acknowledged send has one sample or is live, never both; a failed or unanswered send has none |
| LoadProofs.LetGoIsCounted | server/cmd/veritra-load/delivery.go:12-20 | once the tracker has let a send go, every delivery of it has exactly one sample |
| LoadProofs.DrainCountsEverything | server/cmd/veritra-load/delivery.go:154-164 | after the drain every delivery of an acknowledged send is counted or about to be |
| LoadProofs.SettledExactly | server/cmd/veritra-load/stats.go:187-204 | when a settle finds nothing live, a delivery from before the cutoff is missing exactly when an earlier settle gave its send up and it has not been registered since |
| LoadProofs.SettledIsCounted | server/cmd/veritra-load/workload.go:716-758 | if no settle forced anything, a settle that finds nothing live leaves nothing uncounted |
| LoadProofs.ZeroMeansQuiet | server/cmd/veritra-load/stats.go:187-225 | a settle that returns zero found nothing live or was cancelled |
| LoadProofs.CancelledIsNotEnough | server/cmd/veritra-load/stats.go:208-225 | a run in which a cancelled settle returns zero with a delivery uncounted |
| LoadProofs.QuietIsNotEnough | server/cmd/veritra-load/stats.go:187-204 | a run in which a settle after a forced one finds nothing live with a delivery uncounted |
| LoadProofs.StepKeeps | server/cmd/veritra-load/delivery.go:58-164 | every step keeps the accounting invariant |
| LoadOutcomes.FateIsRecorded | server/cmd/veritra-load/delivery.go:45-164 | in every interleaving a delivery's sample has the result read off the events alone (good if its client saw it while awaited or early, missed if a sweep passed its start first, unfinished if the drain came first), and it is live exactly while none of these has happened, as long as no settle gave it up |
| LoadOutcomes.SampleSaysWhy | server/cmd/veritra-load/delivery.go:118-164 | every sample of a delivery is that result or, after a settle that gave up on its send, unfinished |
| WakeJournal.WakeFile.MarkWake | mobile/ios/Runner/AppDelegate.swift:308-313 | the new pending generation, or none, with the stored state of every storage fault |
| WakeJournal.WakeFile.AcknowledgeWake | mobile/ios/Runner/AppDelegate.swift:314-318 | clears exactly the pending generation named |
| WakeJournal.WakeFile.ClaimNoticeOnce | mobile/ios/Runner/AppDelegate.swift:321-331 | claims a notice unless it was claimed within the hour or the journal is full |
| WakeJournal.WakeFile.BindProfile | mobile/ios/Runner/AppDelegate.swift:332-336 | binds a profile; unbinding clears what is pending |
| WakeJournal.WakeStaysPending | mobile/ios/Runner/AppDelegate.swift:308-318 | across restarts and storage faults a pending wake stays pending until its own or a later generation is acknowledged or the profile is unbound |
| WakeJournal.NoticeIsNotRepeated | mobile/ios/Runner/AppDelegate.swift:319-331 | a notice is not shown again within the hour, whatever else happens |
| WakeHistory.PendingExactly | mobile/ios/Runner/AppDelegate.swift:308-318 | after any operations the counter is the number of saved marks, and what is pending is the generation of the one mark that no later mark, acknowledgement of it or unbinding has ended |
| WakeHistory.AnswersExactly | mobile/ios/Runner/AppDelegate.swift:308-318 | a mark answers with its own new generation, and an acknowledgement says yes exactly to the generation that stands, each only when the save was clean |
| WakeHistory.NoticeRefusedForCause | mobile/ios/Runner/AppDelegate.swift:319-331 | on storage that works a notice is suppressed only if it was recorded within the hour, and refused only after a later clock or with the most notices kept |
| WakeCoordinator.Coordinator.ReceiveWake | mobile/ios/Runner/AppDelegate.swift:440-454 | marks the wake and answers, holds or refuses its callback |
| WakeCoordinator.Coordinator.StartNextRun | mobile/ios/Runner/AppDelegate.swift:455-463 | starts a run with the pending generation and the oldest deadline, or none |
| WakeCoordinator.Coordinator.RunAnswered | mobile/ios/Runner/AppDelegate.swift:464-486 | acknowledges a durable reply and finishes the callbacks up to its generation |
| WakeCoordinator.Coordinator.TimerRuns | mobile/ios/Runner/AppDelegate.swift:445-449 | an overdue run is cancelled and the callback finishes |
| WakeCoordinator.Coordinator.CancelRun | mobile/ios/Runner/AppDelegate.swift:487-493 | the run is revoked and its callbacks fail |
| WakeCoordinator.Coordinator.UnregisterProfile | mobile/ios/Runner/AppDelegate.swift:494-498 | every waiting callback fails and the profile is unbound |
| WakeProofs.CalledExactlyOnce | mobile/ios/Runner/AppDelegate.swift:347-358 | in every run a callback is waiting or called, once in all, and called by the time its timer has run |
| WakeProofs.SuccessIsForEarlierWakes | mobile/ios/Runner/AppDelegate.swift:464-486 | a run reports success only for wakes already marked when it started |
| WakeProofs.PendingOutlivesOlderRuns | mobile/ios/Runner/AppDelegate.swift:440-498 | a wake marked during a run stays pending until a run of its own or a later generation is answered or the profile is unbound |
| WakeProofs.StepConserves | mobile/ios/Runner/AppDelegate.swift:440-498 | a step adds only the callback it receives and loses none |
| WakeRuns.CallHasCause | mobile/ios/Runner/AppDelegate.swift:440-498 | every callback was told success only on a good and timely reply of the run that served it, whose wake is then no longer pending; no data also with a screen attached; and failure only if it could not be held, its run was ended or answered badly, its timer ran, or the profile was unbound |
| WakeRuns.RunEndsInTime | mobile/ios/Runner/AppDelegate.swift:455-463 | a run's deadline is no later than that of any callback it serves |
| WakeRuns.RevokedForever | mobile/ios/Runner/AppDelegate.swift:464-493 | a permit that was given out and is not active never is again, and its replies change nothing |
| WakeRuns.NeverLeftIdle | mobile/ios/Runner/AppDelegate.swift:455-463 | after a retry, a timer or an install a run is active whenever one can be; an install binds the profile unless another is bound |
| WakeRuns.RunsAreStopped | mobile/ios/Runner/AppDelegate.swift:487-498 | no run is active once a screen is attached or the profile is unbound, and none is overdue once a waiting callback's timer has run |
| WakeRuns.ReplyEndsRun | mobile/ios/Runner/AppDelegate.swift:464-486 | a run's reply ends it and exactly the callbacks up to its generation |
| WakeRuns.RunIsForTheProfile | mobile/ios/Runner/AppDelegate.swift:455-460 | a run is for the bound profile, with no screen attached |
| WakeRuns.HeldExactly | mobile/ios/Runner/AppDelegate.swift:440-454 | a wake waits exactly when it was marked, no screen is attached, the engine is there and there is time, unless a deadline is too near for a run |
| Transliteration.WriteText | scripts/l10n-sr-latn.py:66-75 | the loop gives the letter-by-letter transliteration |
| Transliteration.TextIsIdempotent | scripts/l10n-sr-latn.py:66-75 | a second pass over a text changes nothing |
| Transliteration.SerbianIsSane | scripts/l10n-sr-latn.py:35-43 | no Latin spelling holds a letter that would be spelled again, or a brace |
| SerbianReading.ReadsBackExactly | scripts/l10n-sr-latn.py:35-75 | a text without Latin letters is read back letter by letter from its Latin form exactly when it never has л, н or д before ј or ж where that looks like a double letter |
| SerbianReading.CapitalsStayCapitals | scripts/l10n-sr-latn.py:49-64 | a text in capitals, no double letter of which stands alone, gives a text without small letters |
| SerbianReading.OnlyTheFirstIsCapital | scripts/l10n-sr-latn.py:49-64 | a capital double letter before a small letter, alone, or last after a small letter has a small second Latin letter |
| IcuSpace.HoldsCasesExactly | scripts/l10n-sr-latn.py:122-124 | an argument holds cases exactly when its type is a keyword with nothing but white space around it |
| IcuProofs.StructureIsKept | scripts/l10n-sr-latn.py:78-145 | the transliteration of an accepted message is accepted, with the same arguments, heads and case keys and only the texts changed |
| IcuProofs.SecondPassChangesNothing | scripts/l10n-sr-latn.py:78-86 | transliterating twice is transliterating once |
| IcuProofs.AcceptedExactly | scripts/l10n-sr-latn.py:89-165 | a message is accepted as some parts exactly when it is their text and each part is well formed: names and types without commas and closing braces, typed arguments closed where their depth first returns to zero, keys and ends as the grammar says |
| IcuProofs.SerbianKeepsStructure | scripts/l10n-sr-latn.py:35-86 | with the program's own tables: accepted again with the same parts, a second pass changes nothing, and the braces are the same |
| IcuProofs.BracesAreKept | scripts/l10n-sr-latn.py:78-145 | the output holds the input's braces in the same order |
| IcuProofs.BalancedExactly | scripts/l10n-sr-latn.py:78-86 | an accepted message's braces balance exactly when no name, and no type of a plural or select, holds an opening brace |
| IcuProofs.StrayBrace | scripts/l10n-sr-latn.py:78-86 | an accepted message whose braces do not balance |
| IcuTranslator.TransliterateMessage | scripts/l10n-sr-latn.py:78-86 | the recursive loops accept and write exactly what the grammar says |
| IcuTranslator.WriteMessage | scripts/l10n-sr-latn.py:89-112 | text and arguments up to the end or the closing brace, or a refusal |
| IcuTranslator.WriteArgument | scripts/l10n-sr-latn.py:115-145 | an argument copied, or its cases transliterated, or a refusal |
| IcuTranslator.WriteCases | scripts/l10n-sr-latn.py:127-145 | the cases in order, keys unchanged, up to the argument's end |
| IcuTranslator.FindAny | scripts/l10n-sr-latn.py:148-153 | the first of the characters, or a refusal when there is none |
| IcuTranslator.MatchingClose | scripts/l10n-sr-latn.py:156-165 | the first closing brace at which the depth counted from the start returns to zero, or a refusal when there is none |
| Braces.ClosedAt | scripts/l10n-sr-latn.py:156-165 | between an opening brace and the one that closes it, something stays open |
| IcuTranslator.CopyArgument | scripts/l10n-sr-latn.py:122-126 | a typed argument is copied up to the brace that closes it, or refused |

## Left out

- Cryptographic primitives and the MLS library's internals: hashes are arbitrary functions, authenticated encryption opens exactly what it sealed, and the library's further refusals are parameters.
- The server's one-commit-per-epoch rule and its delivery of Welcomes only for accepted epochs: assumptions of the group model, because the storage code behind them is not part of this model.
- Journals of versions other than the current ones, path cleaning and path containment checks of a journal, free-space checks and SQLite's behaviour.
- Letter case beyond ASCII in a recorded hash: a hash prints in hexadecimal digits, whose letters have no other case.
- Sync errors that the restore ignores on purpose after it has finished: the model lets such a sync happen or not.
- Commands that open a database without writer locks (doctor, backup, scheduled backups) are not processes of the exclusion model.
- Two databases with one data directory, or one database with two: each database of the exclusion model has a data directory of its own.
- The order in which a Go map is walked is a parameter; nothing depends on it but which entry is sampled first.
- Clock values that go back between two lock acquisitions: the budget and limiter results are for times that do not decrease.
- Rounding of floating-point balances and nanosecond durations in the budget.
- The limiter's account table: it is the address table with only the general count, and its refusals are the same comparison.
- A signed-in request whose token no route looks up is charged after it was served; the general bound counts it only if that charge fits, and its own bound is the signed-in one.
- Uploads before a send, latencies and percentiles of the load tool, and arrivals whose send registers with the recorder only after a settle has returned.
- The digits of the safety number, message encryption and decryption, key package bookkeeping, and runs that mix in the immediate add and self-update calls, which the application does not use; the immediate add is proved for one step.
- HistoryTransfer.HandoffOpensExactly: a signature is a function of key and message, so a second valid signature of the same message by the same key is not modelled.
- HistoryHandoff.HandoffExact: reads through functions on the unread bytes rather than through the reader object, because the reader's own methods are already proved for the header.
- Notification display, method-channel argument checks, and the wake journal's JSON and size limits: a state that cannot be loaded is a storage fault.
- WakeCoordinator.Coordinator.ReceiveWake: the coordinator holds the journal as a value, because the journal's file is proved on its own.
- A wake process that the system ends: its callbacks are gone with it; the journal results hold across such ends.
- Reading and writing the translation files as JSON, and error texts of the transliterator.
