# FireSync, verified

A Dafny model of the parts of FireSync that a user's passwords depend on, with
proofs. `dafny verify dfyconfig.toml` checks all of it.

FireSync keeps a local vault of logins in step with the `passwords` collection
of a Mozilla account. The model covers

* the two-way sync protocol between any number of vaults and one Sync Storage
  server (`records`, `reconcile`, `server`, `protocol`, `agreement`, `clobber`,
  `edits`, `reset`, `convergence`, `instances`, `engine`), and the two ends of its
  transport: the batched upload (`chunking`, `batch`, `upload`) and the paged
  download (`paging`);
* the encrypted vault with its key handling and its cache, each call of which may
  be broken off at any of its writes (`plainvault`, `sealedstore`, `vault`), and
  the same vault with its calls split at their awaits (`vaultawaits`);
* the hosted sign-in coordinator (`signin`);
* the native bridge: call correlation (`bridgeclient`), framing (`framing`),
  and the DER reader (`bytes`, `der`, `dervalues`);
* deciding which page a login belongs to (`psl`, `matching`).

Code that updates state in place is modelled by classes and loops, each proved
equal to a specification function; the properties are lemmas about those
functions and about every run of the state machines built from them.

## How the sync model is cut

A pass of one client is the sequence of steps info, `meta/global`, read, plan,
apply, post, mark, save: one step per `await` that touches the network or the
vault. Between any two of them the user may edit the vault, any other client, any
other device, a deletion of the collection or a change of the engine's syncID may
come in, and the pass may throw, be torn down, be refused with 412, or lose the
reply to a post that the server committed. Timestamps are integers: the server's
hundredths of a second, which are ten milliseconds each in an authority time.
Encryption is the identity on content, except that an object may be unreadable to
a client.

The models carry some history that the code does not have, and never act on it:
`seen`, the newest version of each object that a client was ever sent, in the
protocol; `redeemed`, the codes sent to the token endpoint, in the sign-in;
`outcomes`, the settled calls, in the bridge.

`Engine.CollectionSync` is the code's own form of a pass, one collection's worth
of `SyncEngine`; `Engine.PassIsProtocolSteps` ties it to the protocol's steps.

Two hypotheses are stated wherever they are used, in the predicate
`Protocol.Sound`, because the code relies on them without checking:

* a post that carries no precondition, which happens when the mark is null,
  meets an empty collection;
* a record whose accepted upload is being marked still has the content that was
  sent, unless the server has a later version of it.

`Agreement.MarkKeepsInvExactly` and `Clobber.UnconditionalPostAgreesExactly` say
what exactly goes wrong without them, and when nothing does.

## What the proofs found

These are places where the code does less than its comments say or a caller may
expect. Each has a concrete instance or an exact condition among the lemmas.

* An edit inside a pass keeps its place in the queue of uploads, except in two
  windows. Between planning and applying it is overwritten exactly when its record
  is among the winners (`InPassEdits.OverwrittenExactly`). Between planning and
  marking it is marked clean without having been sent exactly when its record was
  uploaded and accepted and its content changed (`InPassEdits.ForgottenExactly`,
  `Instances.EditInsideAPassIsLost`).
* A post without a precondition replaces or passes over nothing unread exactly
  when there is nothing on the server (`Clobber.PostClobbersNothingExactly`). Its
  pass ends with its author in agreement below the new mark exactly when each
  object that it did not overwrite cannot be read, is one whose record is dirty,
  or is a tombstone of a record not held, and what it wrote is still what it holds
  (`Clobber.UnconditionalPostAgreesExactly`). Two vaults that sync for the first
  time at once can reach a post that does harm (`Instances.FirstPostsRace`).
* Every mark comes from a full read, or from a post to no collection, under the
  syncID saved beside it, exactly when no pass that holds a mark finds the engine
  newly undeclared or newly declared
  (`EngineReset.ResetIsNotLostExactly`): one that does keeps the mark and forgets
  the syncID (`EngineReset.UndeclaredEngineKeepsTheMark`).
* Clean records of which the server holds no readable version stay in the vaults
  and are never uploaded again, and that is what convergence exactly depends on
  (`Convergence.ConvergesExactlyWithoutOrphans`). A deletion of the collection
  leaves such records (`Instances.WipeLeavesAnOrphan`), and so does an object
  overwritten by one that a client cannot decrypt.
* The comment at `src/sync15/storage.ts:400-403` promises that a failing chunk
  discards the batch. A lost reply to the committing chunk is a failure after
  which the whole batch is there (`BatchUpload.PostRecordsBatched`).
* A server that announces a record limit below one is sent an empty request
  first (`Chunking.EmptyChunkExactly`).
* `touchPassword` keeps the vault's own authority time, but for a login that has
  neither a change time nor a creation time the authority that other clients
  compute does move (`Records.UseKeepsAuthority`).
* A call of the vault that throws because storage rejected a write leaves memory
  out of step with storage in two cases, and no other: the cache is ahead of the
  blob, or the session's key was replaced and the cache is still there
  (`SealedStore.BrokenIsFitExactly`).
* A lock closes the vault exactly when no read, write, unlock or change of
  protection had got past it before (`VaultAwaits.LockClosesExactly`): a read that
  has its key fills the cache after the lock, and every later read is answered
  (`VaultAwaits.LockDuringRead`); a change of passphrase that has read the contents
  puts a key into the session and fills the cache
  (`VaultAwaits.LockDuringProtection`).
* The comment at `src/vault/store.ts:184-186` promises that an interrupted change
  of protection leaves no half of the vault unreadable, and it does not
  (`SealedStore.BrokenKeepsBlobs`). But one that is broken off after the session
  took the new key leaves that key there (`SealedStore.ForeignExactly`), and the
  next write that gets through is sealed with it and takes the blobs apart, in no
  other state (`SealedStore.ApartExactly`). After a torn-down worker that takes
  saving an account or the sync state (`SealedStore.SaveAccountAfterCut`); after a
  rejected write the cache still answers, and any edit does it
  (`SealedStore.AddAfterRejectedChange`).
* A push of the frame decoder that meets an oversized frame throws away the
  messages it had already taken out in that call (`Framing.MessageDecoder.Push`).
* A four-byte DER length with its top bit set turns negative. At -6 `parse` reads
  the same header without end, below that it steps back, above it still advances
  (`Der.ReaderAdvancesExactly`, `Der.ParseCanStand`). Stepping back can go round in
  circles (`Der.ParseCanStepInCircles`), and a loop goes on for ever exactly when
  its cursor recurs (`Der.LoopsForEverExactly`). `parse` also accepts a last child
  that runs past its parent, and takes the first octet of a longer identifier for
  all of it (`Der.ParsedIsDerExactly`).
* Object identifiers whose second arc is 40 or more are misread
  (`DerValues.OidRoundTripExactly`).
* The public-suffix loop stops at the longest rule even when a shorter exception
  matches (`PublicSuffix.LongerRuleHidesException`), and a one-label exception
  makes a result that is not its own registrable domain
  (`PublicSuffix.FixedPointExactly`).
* A comment at `src/match/uri.ts:88` says that an IP literal has no registrable
  domain; `registrableDomain` answers the address itself. The model follows the
  code.
* With a domain in two groups, equivalence is one-sided
  (`Matching.OverlapIsOneSided`).

## Model

| member | source | states |
|---|---|---|
| `Records.EditShows` | src/vault/store.ts:357-431 | in terms of the logins shown: an update replaces the password and the two times and keeps every other field, adding and patching show the given login, a fill changes last use and adds one to the count, a deletion no longer shows the id, and no other login changes |
| `Records.EditContendsWith` | src/vault/store.ts:357-431 | the authority an edit will contend with, which for a new password is the time of the change and for a deletion the time of deletion, and the version it was made on |
| `Records.AuthorityIsTheFirstTime` | src/sync15/engines/passwords.ts:145-152 | the authority is the first of change, creation and last use that there is, or zero |
| `Records.UseKeepsAuthority` | src/sync15/engines/passwords.ts:145-157 | a fill keeps the conflict authority exactly when the login carries a change time or a creation time |
| `Records.UploadRoundTrip` | src/sync15/engine.ts:350-356 | what an upload puts on the server is decoded by any client to the same record, clean, at the server's timestamp, and with the authority time that its own timestamps or, for a tombstone, the server's time give |
| `Records.EditIsLocal` | src/vault/store.ts:357-431 | an edit touches one record, marks it for upload, and keeps null data and `deleted` together |
| `Reconciliation.ConflictGoesToTheHigherRank` | src/sync15/reconcile.ts:68-76 | a conflict stays local exactly when the local (authority time, deleted) pair is strictly larger |
| `Reconciliation.Reconcile` | src/sync15/reconcile.ts:85-143 | the two loops produce the four lists that follow from the per-id decisions, in order |
| `Reconciliation.PlanFollowsDecisions` | src/sync15/reconcile.ts:101-140 | an id is applied, uploaded or ignored exactly when its decision, made from the two versions alone, says so |
| `Reconciliation.ReconcileGuarantees` | src/sync15/reconcile.ts:101-140 | nothing is both applied and uploaded; every dirty record is uploaded or beaten by an applied version; clean records are not uploaded; unknown tombstones are not applied |
| `Reconciliation.ConflictsAreReported` | src/sync15/reconcile.ts:123-133 | the reported conflicts are the ids that changed on both sides, each with the resolution its rank demands |
| `Reconciliation.EachIdIsListedOnce` | src/sync15/reconcile.ts:101-140 | no id occurs twice among the applied or among the uploaded |
| `Reconciliation.ApplyingThePlanIsMerge` | src/vault/store.ts:442-450 | overwriting the vault with the applied list, record by record, is the per-id merge |
| `Agreement.AgreementBelowTheMark` | src/sync15/engine.ts:303-386 | in every sound run, with edits at any point of a pass and whatever fails or is cut off, each readable object at or below a client's mark is there dirty, or clean with equal content and timestamp, or a tombstone it does not hold |
| `Agreement.RefusedPostReadsEverything` | src/sync15/engine.ts:373-380 | a 412 changes neither server nor records, and the next pass fetches every readable object |
| `Clobber.PostClobbersNothingExactly` | src/sync15/engine.ts:358-369 | in every sound run, the author of a committing post has read the current version of all it replaces or covers with its new mark, exactly when the post carries a precondition or the collection is empty |
| `Clobber.NoClobber` | src/sync15/engine.ts:358-369 | so has the author of every committing post of a sound run, with a precondition or without |
| `Clobber.UnconditionalPostAgreesExactly` | src/sync15/engine.ts:358-369 | in every sound run, the pass of a post without a precondition ends with its author in agreement below the new mark exactly when all that it did not overwrite is unreadable, held dirty, or a tombstone of an id not held, and what it wrote is still held |
| `Clobber.UnconditionalPostReadsOrOverwritesExactly` | src/sync15/engine.ts:363-366 | such a post leaves everything on the server read or written by its author exactly when it overwrites all that is there |
| `Instances.FirstPostsRace` | src/sync15/engine.ts:363-366 | a reachable run of two first passes in which the later post has read nothing of what is there: it replaces the other login, or passes over it for good |
| `Agreement.EditKeepsInv` | src/vault/store.ts:357-431 | a local edit keeps the invariant at any point of a pass |
| `InPassEdits.DirtyIsClearedExactly` | src/sync15/engine.ts:302-386 | a record that is owed an upload stays so through every step of its client, except exactly when it is applied as a winner or marked as accepted |
| `InPassEdits.OverwrittenExactly` | src/sync15/engine.ts:328-343 | an edit between planning and applying is overwritten exactly when its record is among the winners |
| `InPassEdits.ForgottenExactly` | src/sync15/engine.ts:348-369 | any edits before and after the post: a record is marked clean without its content having been sent exactly when it was carried, accepted, and changed |
| `Instances.EditInsideAPassIsLost` | src/sync15/engine.ts:328-369 | a run, sound up to its mark, in which an edit ends up clean and different from the server |
| `Agreement.PurgeKeepsInv` | src/sync15/reconcile.ts:151-159 | purging what `expiredTombstones` selects keeps the invariant, at any point of a pass |
| `Protocol.PurgeDropsOldTombstones` | src/sync15/reconcile.ts:151-159 | exactly the clean tombstones older than the limit are dropped, and every login shown stays |
| `Agreement.PlanKeepsInv` | src/sync15/engine.ts:328-330 | after planning, everything below the pull's timestamp is dealt with or among the winners |
| `Agreement.PullFetchesWhatIsNew` | src/sync15/engine.ts:304-326 | a pull fetches every readable object written after the mark, and nothing else |
| `Agreement.ApplyKeepsInv` | src/vault/store.ts:442-450 | after applying, everything below the pull's timestamp is dealt with, and nothing below the old mark is undone, whatever was edited meanwhile |
| `Agreement.AcceptedKeepsInv` | src/sync15/engine.ts:363-368 | an accepted post keeps the invariant up to the new mark |
| `Agreement.LostReplyKeepsInv` | src/sync15/engine.ts:373-382 | a post that committed although its reply was lost keeps the invariant |
| `Protocol.ThrowSavesTheStart` | src/sync15/engine.ts:287-386 | wherever a pass throws after `meta/global`, also after an accepted post, the mark it started from and the syncID it found are saved |
| `Agreement.MarkKeepsInvExactly` | src/vault/store.ts:453-465 | clearing the dirty flags of accepted records keeps the invariant exactly when none of them differs from the version that is still the server's |
| `Agreement.RunKeepsInv` | src/sync15/engine.ts:275-387 | every sound run keeps the invariant of server and clients |
| `EngineReset.ResetIsNotLostExactly` | src/sync15/engine.ts:287-306 | over every run, each mark saved or in use came from reading the whole collection, or from a post to no collection, under the syncID beside it, with no other syncID saved since, exactly when no pass that holds a mark finds the engine newly undeclared or newly declared |
| `EngineReset.ResetIsNotLost` | src/sync15/meta.ts:58-67 | so it is in every run in which the engine stays declared |
| `EngineReset.NewSyncIdDropsTheMark` | src/sync15/engine.ts:287-292 | the pass after a declaration starts without a mark exactly when the syncID is another than the one saved |
| `EngineReset.NullMarkReadsEverything` | src/sync15/engine.ts:303-368 | a null mark becomes a mark by a pull of every readable object, or by a post after which the collection holds nothing but what was posted and what that pull had read |
| `EngineReset.UndeclaredEngineKeepsTheMark` | src/sync15/meta.ts:63-65 | a quiet pass that finds the engine undeclared makes any later syncID acceptable without a full read |
| `Convergence.UndisturbedPassSucceeds` | src/sync15/engine.ts:275-387 | from any idle state an undisturbed pass meets no 412 and succeeds |
| `Convergence.TwoPassesSettle` | src/sync15/engine.ts:275-387 | two successful passes of every client, interleaved in any way, leave every client clean with a mark that covers the server |
| `Convergence.Convergence` | src/sync15/engine.ts:275-387 | if nothing shown was lost by the server, two successful passes of every client make all vaults and the server show the same logins |
| `Convergence.ConvergesExactlyWithoutOrphans` | src/sync15/engine.ts:275-387 | from any reachable state between passes, two such passes converge if and only if no vault shows a record of which the server holds no readable version and that is dirty nowhere |
| `Instances.WipeLeavesAnOrphan` | src/sync15/engine.ts:304-306 | add, sync, delete the collection: a reachable state between passes from which no continuation without edits, other devices or resets converges |
| `Convergence.EventualAgreement` | src/sync15/engine.ts:275-387 | while nobody deletes the collection and every object can be decrypted, every sound history converges after two successful passes of each client |
| `Convergence.ThirdPassMovesNothing` | src/sync15/engine.ts:304-348 | from then on no pass ever has anything to apply or upload, and server and shown logins stay as they are |
| `Engine.CollectionSync.SyncCollection` | src/sync15/engine.ts:275-387 | for all replies of the storage client, records, mark and syncID end as the protocol's steps say, the upload goes out under the timestamp just read, and the result counts the applied, stored, doubly changed and unreadable ids and has an error exactly after a 412 or a rejected record |
| `Engine.CollectionSync.MergeAndPush` | src/sync15/engine.ts:327-386 | the half from reconcile on: what is applied, sent, marked, kept of the mark and reported on success, 412, rejections and errors |
| `Engine.CollectionSync.Push` | src/sync15/engine.ts:347-385 | the upload alone: what is sent and marked, where the mark ends, what is counted and which error is reported or thrown |
| `Engine.CollectionSync.ApplyRemote` | src/vault/store.ts:442-450 | the loop overwrites the records by id, in order |
| `Engine.CollectionSync.MarkAllSynced` | src/vault/store.ts:453-465 | the loop clears the dirty flag of the accepted records that are still there, and of no other |
| `Engine.DecodeObjects` | src/sync15/engine.ts:317-324 | the loop keeps the readable objects in order and counts the unreadable ids |
| `Engine.ListsAreCounted` | src/sync15/engine.ts:327-345 | the plan's lists are as long as there are ids to apply and ids changed on both sides |
| `Engine.PullIsMadeExactly` | src/sync15/engine.ts:304-315 | the collection is read exactly when it changed since the mark, or there is a collection and no mark |
| `Engine.DecodeListByIds` | src/sync15/engine.ts:317-324 | decoding a listing of distinct ids is decoding the collection by id |
| `Engine.PassIsProtocolSteps` | src/sync15/engine.ts:275-387 | fed with a conforming server's answers, the method's outcome is that of the protocol's steps, and it reports success exactly when the protocol's pass ends well |
| `Engine.ThrownPullIsProtocolSteps` | src/sync15/engine.ts:310-315 | a pull that throws is the protocol's throw: the starting mark is kept and nothing was sent |
| `Engine.ThrownPushIsProtocolSteps` | src/sync15/engine.ts:373-382 | a push that throws is the protocol's throw or its lost reply: the merge is kept, nothing is marked, the starting mark is saved |
| `Chunking.Chunks` | src/sync15/storage.ts:415-428 | the loop computes the greedy split |
| `Chunking.ChunksAreLegalAndFewest` | src/sync15/storage.ts:412-428 | with a record limit of at least one the chunks keep the order, are non-empty, respect both limits but for single oversized records, and no split under the same limits has fewer |
| `Chunking.EmptyChunkExactly` | src/sync15/storage.ts:419-424 | an empty request is sent exactly when the record limit is below one |
| `BatchUpload.PostRecordsBatched` | src/sync15/storage.ts:405-459 | whatever others write or delete in between: success exactly when every request was delivered and met its precondition and its batch, and then the collection is one atomic conditional write of all accepted records; on failure nothing of it shows, except that a lost commit reply leaves all of it |
| `BatchUpload.OneRequest` | src/sync15/storage.ts:435-456 | one turn of the loop grows the batch invisibly, commits it, or fails as a whole |
| `BatchUpload.ChunkedWriteIsOneWrite` | src/sync15/storage.ts:405-459 | what a successful upload writes does not depend on the chunking |
| `Upload.ChunkedWriteIsThePost` | src/sync15/engine.ts:350-366 | for the list that the engine hands over, what the chunks put on the server is what the protocol's post puts there |
| `Upload.CommittedIsThePostStep` | src/sync15/storage.ts:405-459 | a batched upload that commits leaves the server that the protocol's post step leaves, or its lost post when the reply is lost |
| `Upload.ReportedIsSent` | src/sync15/engine.ts:367-368 | the ids reported as stored are those the protocol marks |
| `Upload.ReportedIsRejected` | src/sync15/engine.ts:370-372 | the ids reported as failed are those sent and rejected, and there is one exactly when the protocol's pass ends badly |
| `Paging.GetAllRecords` | src/sync15/storage.ts:331-355 | on a stable snapshot the whole list exactly up to 500 pages, otherwise an error, within 501 requests |
| `Paging.CutIsComplete` | src/sync15/storage.ts:344-351 | pages of a fixed limit are the whole collection in order |
| `Paging.CutIsShortExactly` | src/sync15/storage.ts:344-351 | with a fixed page limit, so many pages suffice exactly up to that many times the limit |
| `PlainVault.TombstonesAreExact` | src/vault/store.ts:357-474 | in every run of operations `deleted` holds exactly when the data is null, and every record is filed under its id |
| `PlainVault.LockedMeansClosed` | src/vault/store.ts:170-173 | with operations one at a time, between `lock` and the next use of the right passphrase nothing can be read or written |
| `PlainVault.OpensExactly` | src/vault/store.ts:150-237 | the operations that open or end a locked vault are those with the right passphrase and the reset, and no other changes its protection |
| `PlainVault.WeakStretchingIsRefused` | src/vault/crypto.ts:82-84 | a vault is not put behind a passphrase exactly when that would be stretched by fewer than 100000 rounds |
| `PlainVault.ProtectionKeepsData` | src/vault/store.ts:188-229 | changing protection, locking, unlocking and restarts never change contents, tokens or sync state |
| `VaultStorage.VaultStore.constructor` | src/vault/store.ts:95-99 | a new store over empty areas is no vault |
| `SealedStore.StepRefines` | src/vault/store.ts:101-474 | every call that is not broken off is, from fit memory, the plain vault's operation with the same error, and leaves memory fit |
| `SealedStore.FourWritesSuffice` | src/vault/store.ts:188-308 | no call breaks off when four writes go through and the key store keeps its key |
| `SealedStore.RunRefines` | src/vault/store.ts:101-474 | a run of calls none of which is broken off is a run of the plain vault |
| `SealedStore.ApartExactly` | src/vault/store.ts:256-323 | whatever is in memory and wherever the call is broken off, the blobs stay under one key that can be had again, except exactly when the call gets as far as a write while the session holds another key |
| `SealedStore.RunApartExactly` | src/vault/store.ts:101-474 | the same over whole runs of calls broken off anywhere |
| `SealedStore.BrokenKeepsBlobs` | src/vault/store.ts:182-229 | a call broken off at any write leaves every durable blob as it was, but for saved tokens without their second write and a reset under way |
| `SealedStore.ForeignExactly` | src/vault/store.ts:188-228 | a key that is not the blobs' comes into the session exactly by a change of passphrase broken off after its second write |
| `SealedStore.BrokenIsFitExactly` | src/vault/store.ts:188-474 | after a broken call memory is in step with storage, except exactly when the worker lives on and an edit was rejected that changed something, or a change of protection had replaced the session's key |
| `SealedStore.ForeignReads` | src/vault/store.ts:267-318 | under such a key the cache is answered from, and nothing sealed can be read |
| `SealedStore.CacheWithoutSession` | src/vault/store.ts:267-282 | with a cache and no session, which a rejected change to the device key leaves, reads are answered and an edit changes the cache and throws |
| `SealedStore.RecoverExactly` | src/vault/store.ts:150-163 | blobs under one key open with their passphrase and no other, whatever is in memory, as exactly what they hold |
| `SealedStore.RecoverAfterBreak` | src/vault/store.ts:150-229 | after any broken call but a reset or the saving of an account, the old passphrase recovers exactly the same vault |
| `SealedStore.SaveAccountAfterCut` | src/vault/store.ts:211-227 | a change of passphrase torn down before its last write, and an account saved then: the call throws and the blobs are under two keys |
| `SealedStore.AddAfterRejectedChange` | src/vault/store.ts:211-228 | the same change with its last write rejected: reads are still answered, and the next edit succeeds and puts the blobs under two keys |
| `VaultStorage.VaultStore.Create` | src/vault/store.ts:117-142 | computes the specified step, which unbroken is creating the plain vault, with both errors |
| `VaultStorage.VaultStore.Unlock` | src/vault/store.ts:150-163 | computes the specified step, which unbroken opens exactly for the right passphrase, whatever key the session holds |
| `VaultStorage.VaultStore.Lock` | src/vault/store.ts:170-173 | computes the specified step, which unbroken closes a passphrase vault and is a no-op on a device vault |
| `VaultStorage.VaultStore.Reset` | src/vault/store.ts:232-237 | computes the specified step: after its first write no blob is left, and finished neither session nor device key |
| `VaultStorage.VaultStore.GetOrCreateDeviceKey` | src/vault/device-key.ts:124-139 | yields the stored key, creating one only when there is none, and throws exactly when the new one is not there when read back |
| `VaultStorage.VaultStore.RequireKey` | src/vault/store.ts:256-263 | yields the session's key, which is the one all blobs are under unless it is foreign, and otherwise says why not |
| `VaultStorage.VaultStore.ReadContents` | src/vault/store.ts:267-276 | from fit memory a read of the plain vault; under a foreign key the cache, if there is one, and otherwise WrongPassphrase |
| `VaultStorage.VaultStore.WriteContents` | src/vault/store.ts:278-282 | from fit memory a write that goes through is a write of the plain vault, and after a rejected one cache and blob agree exactly when nothing changed; from any memory the blobs are taken apart exactly by a write under a foreign key |
| `VaultStorage.VaultStore.ReadTokens` | src/vault/store.ts:284-288 | reads the plain vault's tokens or says why not |
| `VaultStorage.VaultStore.WriteTokens` | src/vault/store.ts:300-308 | stores the tokens and clears the stored sync error, in two writes; the blobs are no longer under one key exactly when the first goes through under a foreign key |
| `VaultStorage.VaultStore.ClearTokens` | src/vault/store.ts:310-312 | unbroken, removes the plain vault's tokens and nothing else |
| `VaultStorage.VaultStore.ReadSyncState` | src/vault/store.ts:314-318 | reads the plain vault's sync state or says why not |
| `VaultStorage.VaultStore.WriteSyncState` | src/vault/store.ts:320-323 | replaces the sync state and nothing else; it takes the blobs apart exactly when it goes through under a foreign key |
| `VaultStorage.VaultStore.EditRecord` | src/vault/store.ts:358-431 | add, update, patch, touch and delete compute the specified step from any memory, the cached object being changed in place before the write; unbroken and from fit memory they are the plain vault's edits, with the same errors; `Records.EditShows` says what they store |
| `VaultStorage.VaultStore.GetPassword` | src/vault/store.ts:334-338 | from fit memory the plain vault's login of an id that is held and not deleted; under a foreign key the cache's, if there is a cache |
| `SealedStore.ShownIsLive` | src/vault/store.ts:334-338 | what it answers with is the login shown for the id |
| `VaultStorage.VaultStore.ApplyRemote` | src/vault/store.ts:442-450 | the loop overwrites the cached records in order and writes them, from any memory and broken off or not; otherwise it refines the plain vault's operation |
| `VaultStorage.VaultStore.MarkRecordsSynced` | src/vault/store.ts:453-465 | the same for clearing the flags of the named records |
| `VaultStorage.VaultStore.PurgeRecords` | src/vault/store.ts:468-474 | the same for dropping the named records; an empty list needs no key |
| `VaultStorage.VaultStore.SetProtection` | src/vault/store.ts:188-229 | torn down or rejected at any of its writes it leaves the durable blobs as they were, all under the old key; finished from fit memory they are all under the new one with the same contents, tokens and sync state |
| `VaultAwaits.StaysClosedExactly` | src/vault/store.ts:150-282 | with reads, writes, locks, unlocks and changes of protection resuming at their awaits in any order, no read is ever answered and nothing is written without the passphrase exactly when the vault has one, the session has no key, nothing is cached, and no call got past the lock |
| `VaultAwaits.LockClosesExactly` | src/vault/store.ts:170-173 | a lock achieves that exactly when the vault has a passphrase and no read, write, unlock or change of protection had got past it before |
| `VaultAwaits.StoppedWorkerClosesExactly` | src/vault/store.ts:92-93 | after the worker is torn down it holds exactly when the vault has a passphrase and the session no key |
| `VaultAwaits.StoppedBrowserClosesExactly` | src/vault/store.ts:13-15 | after the browser is stopped it holds exactly when the vault has a passphrase |
| `VaultAwaits.UnlockOpens` | src/vault/store.ts:150-163 | the passphrase puts its key into the session and empties the cache; a device vault has nothing to unlock |
| `VaultAwaits.RefusedReads` | src/vault/store.ts:256-276 | a read is refused as locked when the session has no key, and as a wrong passphrase when its key does not open the blob |
| `VaultAwaits.ProtectionMovesTheVault` | src/vault/store.ts:188-229 | a change of protection that nothing comes between puts a device vault under the new key with the contents found in the cache or else in storage |
| `VaultAwaits.LockDuringRead` | src/vault/store.ts:267-276 | seven steps after which a locked vault answers its reads from the cache |
| `VaultAwaits.LockDuringProtection` | src/vault/store.ts:195-228 | a lock during a change of passphrase that has read the contents: the session ends with a key, the cache filled, and a read is answered |
| `SignIn.AtMostOneRedemption` | src/background/signin.ts:221-312 | in every interleaving of navigations, `begin`, `cancel`, closed tabs, restarts and worker deaths at any await, a flow's code is redeemed at most once |
| `SignIn.FirstReportRedeems` | src/background/signin.ts:232-312 | the first report of the code redeems it once, however old the flow is and whether the exchange and the saving of the account succeed or not, and stores exactly that outcome with its time and trail |
| `SignIn.ElsewhereEndsExactlyOldFlows` | src/background/signin.ts:232-283 | a page that is not the redirect ends the flow as failed exactly when the flow is older than an hour and the page is in its tab or names its state; otherwise the flow stays as it was, but for its trail |
| `SignIn.TheWayLeadsToTheCode` | src/background/signin.ts:232-312 | within the hour any number of pages before the redirect leave the code to be redeemed, once |
| `SignIn.WrongRedirectFails` | src/background/signin.ts:250-261 | a redirect with an error or with another flow's code ends the flow as failed and redeems nothing |
| `SignIn.TrailKeepsTheLatest` | src/background/signin.ts:244-248 | the trail ends with the latest step, repeats none in a row, and holds at most twelve |
| `SignIn.BeginStartsAFlow` | src/background/signin.ts:177-186 | `begin` forgets the last outcome and stores a flow with a fresh state and an empty trail |
| `SignIn.CancelEndsTheFlow` | src/background/signin.ts:202-206 | `cancel` ends a pending flow as cancelled, and does nothing without one |
| `SignIn.ClosingItsTabEndsTheFlow` | src/background/signin.ts:315-324 | closing the tab of the flow cancels it, and closing any other changes nothing |
| `SignIn.FlowSurvivesTheWorker` | src/background/signin.ts:96-118 | whatever the worker was doing when it died, a flow that was stored is still redeemed by the next report |
| `SignIn.RestartForgetsTheFlow` | src/background/signin.ts:96-118 | after a restart of the browser the flow is gone, reports change nothing, and the last outcome stays |
| `SignIn.LateReportsDoNothing` | src/background/signin.ts:233-235 | reports of a flow that is gone change nothing |
| `SignIn.DuplicateReportsRedeemOnce` | src/background/signin.ts:221-312 | however many reports are queued, the code is redeemed exactly once and the winner's result stays |
| `Bridge.BridgeClient.Issue` | src/bridge/client.ts:171-201 | a call takes the next id, gets its own timer, and is settled at once when the post fails |
| `Bridge.BridgeClient.OnMessage` | src/bridge/client.ts:154-161 | a reply settles the call it names, if pending, and clears its timer |
| `Bridge.BridgeClient.OnTimer` | src/bridge/client.ts:186-189 | a timer settles its own call |
| `Bridge.BridgeClient.Teardown` | src/bridge/client.ts:163-169 | the loop rejects every pending call once and clears its timer |
| `Bridge.BridgeClient.Close` | src/bridge/client.ts:119-123 | a disconnect drops the port and tears down |
| `Bridge.ExactlyOnceSettlement` | src/bridge/client.ts:119-201 | in every run an issued call is pending with a live timer or was settled exactly once, and is never settled again |
| `Bridge.ReplyReachesItsCallOnly` | src/bridge/client.ts:154-161 | a reply, late or not, changes nothing about any other call |
| `Bridge.CallWaitsOrIsRejected` | src/bridge/client.ts:171-201 | a posted call waits with the others as they were; one that cannot be posted is rejected at once and leaves no timer |
| `Bridge.TimerRejectsItsCallOnly` | src/bridge/client.ts:186-189 | a timer that fires rejects its own call as timed out and touches no other |
| `Bridge.ClosingRejectsWhatIsPending` | src/bridge/client.ts:163-169 | a disconnect rejects exactly the pending calls, with its reason |
| `Bridge.NothingPendingAfterTeardown` | src/bridge/client.ts:163-169 | after a disconnect nothing is pending, no timer is left, and every issued call was settled |
| `Framing.HeaderRoundTrip` | bridge/host.mjs:34-37 | the little-endian header reads back as the length |
| `Framing.LengthIsLittleEndian` | bridge/host.mjs:50-56 | the header is read with the least significant byte first |
| `Framing.MessageDecoder.Push` | bridge/host.mjs:50-68 | the loop takes out the whole messages, keeps the rest, and terminates; a refused length keeps the offending frame and loses the messages of this call |
| `Framing.DrainContinues` | bridge/host.mjs:50-68 | pushing one chunk and then another is pushing them joined |
| `Framing.AnySplitDeliversTheSame` | bridge/host.mjs:50-68 | however a stream is cut, the pushes deliver its messages and leave its rest, and throw exactly when the whole stream does |
| `Framing.DecodeInvertsEncode` | bridge/host.mjs:33-68 | decoding the encoded stream yields the messages in order and leaves exactly the unread tail |
| `Framing.SplitStreamRoundTrip` | bridge/host.mjs:33-68 | the same for every way of splitting the encoded stream |
| `Framing.CapIsExact` | bridge/host.mjs:48-59 | an encoded message is decoded exactly when it is within the cap |
| `Der.ReadTlv` | bridge/lib/der.mjs:19-47 | the loop reads the length as a 32-bit integer; every error as in the code |
| `Der.ParseTree` | bridge/lib/der.mjs:50-65 | the recursive loop computes the specified tree or error, and terminates |
| `Der.IdentifierShowsShape` | bridge/lib/der.mjs:54-55 | bit 6 of the identifier octet, as X.690 8.1.2 composes it of class, form and number, tells a constructed encoding |
| `Der.ParseInvertsEncode` | bridge/lib/der.mjs:50-65 | for every tree with lengths below 2^31 in the definite form of X.690 8.1.2, 8.1.3 and 10.1, `parse` gives back the tree and its exact end, whatever surrounds it |
| `Der.NegativeLengthExactly` | bridge/lib/der.mjs:27-33 | a length turns negative exactly for a four-byte field with its top bit set |
| `Der.ReaderAdvancesExactly` | bridge/lib/der.mjs:27-36 | a header ends where it starts exactly for the four-byte length 0xFFFFFFFA, and before exactly for a wrapped length below that |
| `Der.ParsedIsLaidOut` | bridge/lib/der.mjs:50-65 | every node starts with its tag and ends inside the buffer, children run end to end, and the loop is held up only at a header of those two kinds, and says which |
| `Der.LoopsForEverExactly` | bridge/lib/der.mjs:57-62 | the child loop, as long as its children parse, goes on for ever exactly when its cursor recurs, which shows within as many turns as there are bytes |
| `Der.LoopTurns` | bridge/lib/der.mjs:57-62 | each turn goes on where the child ended, anywhere in the buffer |
| `Der.ParseCanStand` | bridge/lib/der.mjs:57-62 | eight bytes on which the child loop reads the same header for ever |
| `Der.ParseCanStepInCircles` | bridge/lib/der.mjs:57-62 | ten bytes on which it steps back and reads two headers in turn for ever |
| `Der.ParsedIsDerExactly` | bridge/lib/der.mjs:50-65 | what `parse` accepts is the DER encoding of a tree exactly when all identifiers are of one octet, all lengths in shortest form, and children end where their parent does |
| `DerValues.DecodeOid` | bridge/lib/der.mjs:68-80 | the loop collects the completed arcs |
| `DerValues.OidRoundTripExactly` | bridge/lib/der.mjs:68-80 | it inverts X.690 8.19 exactly when the second arc is below 40 |
| `DerValues.DecodeInteger` | bridge/lib/der.mjs:83-88 | up to six octets are read as a big-endian number, longer values are refused |
| `DerValues.IntegerRoundTripExactly` | bridge/lib/der.mjs:83-88 | for values that are not negative it inverts X.690 8.3 exactly below 2^47 |
| `DerValues.Unpad` | bridge/lib/der.mjs:103-115 | it returns the message that was padded as in section 6.3 of RFC 5652 and refuses every buffer that is no such padding |
| `DerValues.PaddingIsUnambiguous` | bridge/lib/der.mjs:103-115 | no buffer is the padding of two messages |
| `PublicSuffix.RegistrableDomain` | src/match/psl.ts:98-124 | the loop computes the specified scan, with the null and address cases |
| `PublicSuffix.LoopIsPublishedExactly` | src/match/psl.ts:98-124 | for any tables the loop gives the answer of the algorithm at publicsuffix.org exactly when no rule longer than the longest matching exception matches and a one-label host is no exception |
| `PublicSuffix.LoopIsPublished` | src/match/psl.ts:106-123 | it always does when no rule extends an exception and exceptions have two labels |
| `PublicSuffix.NamesAreLooped` | src/match/psl.ts:98-136 | so it is for every host without a colon that has a character other than a digit or not four labels |
| `PublicSuffix.QuadIsAddressExactly` | src/match/psl.ts:131-134 | four decimal numbers are an address, and their own registrable domain, exactly when each is below 256 |
| `PublicSuffix.ThreeDigitsExactly` | src/match/psl.ts:132-133 | a number of an address has at most three digits, leading zeros included, and is below 256 |
| `PublicSuffix.ColonIsAddress` | src/match/psl.ts:135 | a name with a colon is an address |
| `PublicSuffix.LongerRuleHidesException` | src/match/psl.ts:107-120 | a table and a host on which the two differ |
| `PublicSuffix.ResultIsAnEnding` | src/match/psl.ts:94-124 | the result is a label suffix of the host |
| `PublicSuffix.NullIsPublicSuffixExactly` | src/match/psl.ts:80-92 | null and `isPublicSuffix` agree, but for a one-label host that is an exception |
| `PublicSuffix.FixedPointExactly` | src/match/psl.ts:98-124 | a result is its own registrable domain, except exactly for hosts whose last label is an exception and of which the tables know no longer ending |
| `PublicSuffix.FixedPoint` | src/match/psl.ts:98-124 | with no one-label exceptions in the table it is so for every host |
| `PublicSuffix.ResultIsNoPublicSuffix` | src/match/psl.ts:79-124 | no login is filed under a public suffix |
| `Matching.BuildIndex` | src/match/equivalent-domains.ts:28-31 | the load-time loops map each domain to the last group that lists it |
| `Matching.EquivalentDomains` | src/match/equivalent-domains.ts:34-40 | the loops collect the domain, the extras, and everything grouped with one of them |
| `Matching.MayOffer` | src/match/uri.ts:29-96 | the case analysis decides the specified relation for the never, exact, host and domain strategies; exact compares the hostnames as they are written, host and domain the normalised ones |
| `Matching.EquivalenceExactly` | src/match/equivalent-domains.ts:34-40 | without extras, domains are equivalent in the usual sense exactly when each group used sends its members back to itself |
| `Matching.DisjointIsConsistent` | src/match/equivalent-domains.ts:11-31 | disjoint groups are such a table |
| `Matching.OverlapIsOneSided` | src/match/equivalent-domains.ts:27-31 | two overlapping groups that make the relation one-sided |
| `Matching.StrategiesAreNested` | src/match/uri.ts:61-94 | exact implies host, and host implies domain |
| `Matching.NoDowngrade` | src/match/uri.ts:98-105 | no strategy offers a login saved over https on a page that came over http |
| `Matching.SameHostMatchesExactly` | src/match/uri.ts:65-105 | on one host `host` and `domain` match exactly when that is not so, the upgrade from http included |
| `Matching.DomainMatchesExactly` | src/match/uri.ts:85-94 | without tables, `domain` matches exactly hosts of one registrable domain, and hosts without one only with themselves |
| `Matching.ExactForgivesASlash` | src/match/uri.ts:62-63 | `exact` asks for the same URL up to one trailing slash |
| `Matching.TrailingDot` | src/match/psl.ts:127-129 | a trailing dot in a hostname is the same host, but not the same URL |
| `Matching.DomainIsAPreorder` | src/match/uri.ts:85-105 | the domain strategy is reflexive and transitive on (scheme, host), and symmetric at equal scheme |

## Left out

- Reconciliation.Reconcile: the `resolve` option is not modelled; nothing under `src` passes one.
- Agreement.AgreementBelowTheMark: runs in which an unconditional post meets a filled collection, or a changed record is marked as sent, are excluded by `Protocol.Sound`; the lemmas named above show why.
- Convergence.Convergence: requires clients whose passes succeed; nothing is claimed about how soon a busy server lets one succeed.
- Engine.CollectionSync.SyncCollection: one collection, of logins; `addresses` and `creditcards` differ in the authority time only.
- BatchUpload.PostRecordsBatched: the server of the model hands out a batch id and a timestamp as the API says; servers that omit them are not modelled.
- Upload.CommittedIsThePostStep: the server's verdict on a record does not depend on the request it comes in.
- Paging.GetAllRecords: other clients rewriting earlier pages during the download, and an empty string as an offset, are not modelled.
- PlainVault.LockedMeansClosed: operations run one at a time here; `VaultAwaits.StaysClosedExactly` is about their interleaving.
- VaultStorage.VaultStore.ReadContents: methods of the class do not interleave; `VaultAwaits` splits reads, writes, locks, unlocks and changes of protection at their awaits, for the contents only. Reads of storage do not fail.
- VaultStorage.VaultStore.SetProtection: `setMany` is one atomic write, as `chrome.storage` has it.
- VaultStorage.VaultStore.EditRecord: callers that keep and change the cached object itself are not modelled: records are values here.
- VaultStorage.VaultStore.GetOrCreateDeviceKey: a key store that rejects, rather than silently not keeping the key, is not modelled.
- SignIn.AtMostOneRedemption: which of two competing results is stored, and failing storage, are not claimed about; fresh `state` values are distinct.
- Der.ParseTree: at a child that ends before it starts the model stops with an error of its own, where the code goes on: `Der.LoopsForEverExactly` says when for ever, within one loop whose children parse; reading before the buffer's first byte and recursion into an enclosing node are not followed. The content of a node with a negative length is not modelled.
- DerValues.DecodeOid: arcs above 2^53, where the code's numbers lose precision, are exact here.
- Framing.MessageDecoder.Push: bodies are bytes; a body that is not JSON makes the code throw after the frame was taken out.
- PublicSuffix.RegistrableDomain: `normalizeHost` has been applied, and a host is its list of labels; the shipped tables are parameters.
- Matching.MayOffer: URLs arrive parsed into scheme, hostname and rest, an address without its brackets; the `startsWith` and `regex` strategies and `matchScore` are left out, because they imply nothing about host or scheme.
- HTTP, Hawk signing, the token server, backoff and clock offsets: plumbing around the requests of the model.
- AES-GCM, PBKDF2, the sync record encryption and NSS key unwrapping: sealing opens exactly with the same key and slot; Unicode normalisation of passphrases is not modelled.
- Errors other than those named by the model's datatypes carry their message only where the code stores it.
- `validatePasswordRecord`, the menu of the popup, autofill, the update checker, preferences, password generation, the loopback listener and the keychain: easy members or presentation.
