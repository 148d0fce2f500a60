/**
 * What `VaultStore` computes, as functions on its whole state: sealed blobs in
 * durable storage, the key of an unlocked vault in session storage, the device
 * key, and a decrypted copy in memory.
 *
 * Any call may be broken off at any of its writes to storage: the worker is torn
 * down there, or that write is rejected and the call throws. Sealing is
 * abstract: a blob opens exactly with the key and the slot it was sealed with.
 */
module SealedStore {
  import opened Wrappers
  import opened Records
  import opened Reconciliation
  import opened Protocol
  import opened PlainVault

  datatype Key = DeviceKey(serial: nat) | Derived(passphrase: string, salt: nat, iterations: nat)

  datatype Slot = VaultSlot | TokensSlot | VerifierSlot

  datatype Sealed<T> = Sealed(key: Key, slot: Slot, value: T)

  function Unseal<T>(key: Key, blob: Sealed<T>, slot: Slot): Result<T, VaultError> {
    if blob.key == key && blob.slot == slot then Ok(blob.value) else Err(WrongPassphrase)
  }

  datatype Kdf = Kdf(salt: nat, iterations: nat)

  /** `kdf` is present exactly in passphrase mode. */
  datatype Meta = Meta(kdf: Option<Kdf>)

  /** `chrome.storage.local`. */
  datatype LocalArea = LocalArea(
    meta: Option<Meta>,
    verifier: Option<Sealed<()>>,
    vault: Option<Sealed<Contents>>,
    sync: Option<Sealed<SyncState>>,
    tokens: Option<Sealed<Tokens>>)

  const EMPTY_AREA := LocalArea(None, None, None, None, None)

  datatype Store = Store(
    local: LocalArea,
    session: Option<Key>,
    deviceKey: Option<Key>,
    cached: Option<Contents>)

  const EMPTY_STORE := Store(EMPTY_AREA, None, None, None)

  /**
   * What surrounds one call: how many of its writes go through, whether the next
   * one finds the worker torn down or is rejected, whether the key store keeps a
   * new device key, and the fresh values drawn.
   */
  datatype Env = Env(writes: nat, dies: bool, keeps: bool, serial: nat, salt: nat)

  datatype Outcome = Done | Failed(error: VaultError) | TornDown

  /** The call is broken off at a write. */
  function BreakOff(s: Store, env: Env): (Store, Outcome) {
    if env.dies then (s.(cached := None), TornDown) else (s, Failed(StorageFailed))
  }

  predicate Broke(out: Outcome) {
    out == TornDown || out == Failed(StorageFailed) || out == Failed(KeyNotKept)
  }

  // -------------------------------------------------------------- key handling

  /** A vault behind the device key has one. */
  predicate KeyHeld(s: Store) {
    && (s.deviceKey.Some? ==> s.deviceKey.value.DeviceKey?)
    && (s.local.meta.Some? && s.local.meta.value.kdf.None? ==> s.deviceKey.Some?)
  }

  /** `getOrCreateDeviceKey`. */
  function GetOrCreateDeviceKey(s: Store, env: Env): (Store, Result<Key, VaultError>) {
    if s.deviceKey.Some? then (s, Ok(s.deviceKey.value))
    else if env.keeps then (s.(deviceKey := Some(DeviceKey(env.serial))), Ok(DeviceKey(env.serial)))
    else (s, Err(KeyNotKept))
  }

  /** `requireKey`. */
  function RequireKey(s: Store): Result<Key, VaultError>
    requires KeyHeld(s)
  {
    if s.local.meta.None? then Err(NoVaultYet)
    else if s.local.meta.value.kdf.None? then Ok(s.deviceKey.value)
    else if s.session.None? then Err(VaultLocked)
    else Ok(s.session.value)
  }

  // ---------------------------------------------------------- reads and writes

  function OpenBlob<T>(key: Key, blob: Option<Sealed<T>>, slot: Slot, otherwise: T): Result<T, VaultError> {
    if blob.None? then Ok(otherwise) else Unseal(key, blob.value, slot)
  }

  function ReadContents(s: Store): (Store, Result<Contents, VaultError>)
    requires KeyHeld(s)
  {
    if s.cached.Some? then (s, Ok(s.cached.value))
    else if RequireKey(s).Err? then (s, Err(RequireKey(s).error))
    else
      var contents := OpenBlob(RequireKey(s).value, s.local.vault, VaultSlot, map[]);
      (if contents.Ok? then s.(cached := Some(contents.value)) else s, contents)
  }

  function ReadTokens(s: Store): Result<Option<Tokens>, VaultError>
    requires KeyHeld(s)
  {
    if RequireKey(s).Err? then Err(RequireKey(s).error)
    else if s.local.tokens.None? then Ok(None)
    else
      var tokens := Unseal(RequireKey(s).value, s.local.tokens.value, TokensSlot);
      if tokens.Ok? then Ok(Some(tokens.value)) else Err(tokens.error)
  }

  function ReadSyncState(s: Store): Result<SyncState, VaultError>
    requires KeyHeld(s)
  {
    if RequireKey(s).Err? then Err(RequireKey(s).error)
    else OpenBlob(RequireKey(s).value, s.local.sync, VaultSlot, EMPTY_SYNC_STATE)
  }

  /** The cache takes the new contents before storage does. */
  function WriteContents(s: Store, contents: Contents, env: Env): (Store, Outcome)
    requires KeyHeld(s)
  {
    if RequireKey(s).Err? then (s, Failed(RequireKey(s).error))
    else if env.writes == 0 then BreakOff(s.(cached := Some(contents)), env)
    else
      (s.(local := s.local.(vault := Some(Sealed(RequireKey(s).value, VaultSlot, contents))),
          cached := Some(contents)), Done)
  }

  function WriteSyncState(s: Store, sync: SyncState, env: Env): (Store, Outcome)
    requires KeyHeld(s)
  {
    if RequireKey(s).Err? then (s, Failed(RequireKey(s).error))
    else if env.writes == 0 then BreakOff(s, env)
    else (s.(local := s.local.(sync := Some(Sealed(RequireKey(s).value, VaultSlot, sync)))), Done)
  }

  /** Two writes, the second only to clear a stored error. */
  function WriteTokens(s: Store, tokens: Tokens, env: Env): (Store, Outcome)
    requires KeyHeld(s)
  {
    if RequireKey(s).Err? then (s, Failed(RequireKey(s).error))
    else if env.writes == 0 then BreakOff(s, env)
    else
      var s1 := s.(local := s.local.(tokens := Some(Sealed(RequireKey(s).value, TokensSlot, tokens))));
      var sync := ReadSyncState(s1);
      if sync.Err? then (s1, Failed(sync.error))
      else if sync.value.lastSyncError.None? then (s1, Done)
      else WriteSyncState(s1, sync.value.(lastSyncError := None), env.(writes := env.writes - 1))
  }

  predicate ChangesContents(op: Op) {
    op.EditOp? || op.ApplyRemoteOp? || op.MarkSyncedOp? || op.PurgeOp?
  }

  /** The contents an operation writes: none when it returns first, or why it throws. */
  function Changed(op: Op, contents: Contents): Result<Option<Contents>, VaultError>
    requires ChangesContents(op)
  {
    match op
    case EditOp(id, edit) =>
      if EditFails(contents, id, edit) then Err(NoSuchPassword)
      else if EditSkips(contents, id, edit) then Ok(None)
      else Ok(Some(ApplyEdit(contents, id, edit)))
    case ApplyRemoteOp(records) => Ok(Some(PutAllRecords(contents, records)))
    case MarkSyncedOp(ids, modified) => Ok(Some(MarkSynced(contents, IdsOf(ids), modified)))
    case PurgeOp(purged) => Ok(Some(Purge(contents, IdsOf(purged))))
  }

  /** Read, change the object that is now cached, and write it. */
  function ChangeContents(s: Store, op: Op, env: Env): (Store, Outcome)
    requires KeyHeld(s) && ChangesContents(op)
  {
    var (s1, contents) := ReadContents(s);
    if op.PurgeOp? && op.purged == [] then (s, Done)
    else if contents.Err? then (s1, Failed(contents.error))
    else
      var changed := Changed(op, contents.value);
      if changed.Err? then (s1, Failed(changed.error))
      else if changed.value.None? then (s1, Done)
      else WriteContents(s1.(cached := changed.value), changed.value.value, env)
  }

  // ----------------------------------------------------------------- lifecycle

  /** What `setMany` puts into storage for a vault under one key. */
  function SealAll(area: LocalArea, key: Key, meta: Meta, contents: Contents, sync: SyncState): LocalArea {
    area.(meta := Some(meta), verifier := Some(Sealed(key, VerifierSlot, ())),
          vault := Some(Sealed(key, VaultSlot, contents)), sync := Some(Sealed(key, VaultSlot, sync)))
  }

  function Create(s: Store, passphrase: string, iterations: nat, env: Env): (Store, Outcome) {
    if s.local.meta.Some? then (s, Failed(AlreadyExists))
    else if passphrase != "" then
      var key := Derived(passphrase, env.salt, iterations);
      if iterations < MIN_ITERATIONS then (s, Failed(TooFewIterations))
      else if env.writes == 0 then BreakOff(s, env)
      else if env.writes == 1 then BreakOff(s.(session := Some(key)), env)
      else
        (s.(local := SealAll(s.local, key, Meta(Some(Kdf(env.salt, iterations))), map[], EMPTY_SYNC_STATE),
            session := Some(key), cached := Some(map[])), Done)
    else
      var (s1, key) := GetOrCreateDeviceKey(s, env);
      if key.Err? then (s1, Failed(key.error))
      else if env.writes == 0 then BreakOff(s1, env)
      else (s1.(local := SealAll(s.local, key.value, Meta(None), map[], EMPTY_SYNC_STATE), cached := Some(map[])), Done)
  }

  function Unlock(s: Store, attempt: string, env: Env): (Store, Outcome) {
    if s.local.meta.None? then (s, Failed(NoVaultYet))
    else if s.local.meta.value.kdf.None? then (s, Failed(NotByPassphrase))
    else if s.local.verifier.None? then (s, Failed(VerifierMissing))
    else
      var kdf := s.local.meta.value.kdf.value;
      var key := Derived(attempt, kdf.salt, kdf.iterations);
      if kdf.iterations < MIN_ITERATIONS then (s, Failed(TooFewIterations))
      else if Unseal(key, s.local.verifier.value, VerifierSlot).Err? then (s, Failed(WrongPassphrase))
      else if env.writes == 0 then BreakOff(s, env)
      else (s.(session := Some(key), cached := None), Done)
  }

  function Lock(s: Store, env: Env): (Store, Outcome) {
    if env.writes == 0 then BreakOff(s.(cached := None), env)
    else (s.(cached := None, session := None), Done)
  }

  function Reset(s: Store, env: Env): (Store, Outcome) {
    if env.writes == 0 then BreakOff(s.(cached := None), env)
    else if env.writes == 1 then BreakOff(s.(cached := None, local := EMPTY_AREA), env)
    else if env.writes == 2 then BreakOff(s.(cached := None, local := EMPTY_AREA, session := None), env)
    else (EMPTY_STORE, Done)
  }

  // ------------------------------------------------------ change of protection

  /** The current passphrase, where there is one; `unlock` takes one write. */
  function Admit(s: Store, current: string, env: Env): (Store, Outcome, Env) {
    if s.local.meta.None? then (s, Failed(NoVaultYet), env)
    else if s.local.meta.value.kdf.None? then (s, Done, env)
    else if current == "" then (s, Failed(CurrentRequired), env)
    else
      var (s1, out) := Unlock(s, current, env);
      (s1, out, if env.writes == 0 then env else env.(writes := env.writes - 1))
  }

  /** The three reads, the first failure of which is the call's. */
  function ReadAll(s: Store): (Store, Result<(Contents, Option<Tokens>, SyncState), VaultError>)
    requires KeyHeld(s)
  {
    var (s1, contents) := ReadContents(s);
    if contents.Err? then (s1, Err(contents.error))
    else if ReadTokens(s1).Err? then (s1, Err(ReadTokens(s1).error))
    else if ReadSyncState(s1).Err? then (s1, Err(ReadSyncState(s1).error))
    else (s1, Ok((contents.value, ReadTokens(s1).value, ReadSyncState(s1).value)))
  }

  /** The new key, in memory. */
  function NextKey(s: Store, next: string, iterations: nat, env: Env): (Store, Result<Key, VaultError>) {
    if next == "" then GetOrCreateDeviceKey(s, env)
    else if iterations < MIN_ITERATIONS then (s, Err(TooFewIterations))
    else (s, Ok(Derived(next, env.salt, iterations)))
  }

  function MetaOf(key: Key): Meta {
    if key.DeviceKey? then Meta(None) else Meta(Some(Kdf(key.salt, key.iterations)))
  }

  /** The writes: the session, then the tokens if there are none, then all blobs at once. */
  function Reseal(s: Store, key: Key, contents: Contents, tokens: Option<Tokens>, sync: SyncState, env: Env)
    : (Store, Outcome)
  {
    var s1 := s.(session := if key.DeviceKey? then None else Some(key));
    var area := SealAll(s.local, key, MetaOf(key), contents, sync);
    if env.writes == 0 then BreakOff(s, env)
    else if env.writes == 1 then BreakOff(s1, env)
    else if tokens.None? then
      var s2 := s1.(local := s1.local.(tokens := None));
      if env.writes == 2 then BreakOff(s2, env)
      else (s2.(local := area.(tokens := None), cached := Some(contents)), Done)
    else
      (s1.(local := area.(tokens := Some(Sealed(key, TokensSlot, tokens.value))), cached := Some(contents)), Done)
  }

  function SetProtection(s: Store, next: string, iterations: nat, current: string, env: Env): (Store, Outcome)
    requires KeyHeld(s)
  {
    var (s1, admitted, left) := Admit(s, current, env);
    if admitted != Done then (s1, admitted)
    else
      var (s2, held) := ReadAll(s1);
      if held.Err? then (s2, Failed(held.error))
      else
        var (s3, key) := NextKey(s2, next, iterations, left);
        if key.Err? then (s3, Failed(key.error))
        else Reseal(s3, key.value, held.value.0, held.value.1, held.value.2, left)
  }

  /** One call, or one end of the worker or of the browser. */
  function Do(s: Store, op: Op, env: Env): (Store, Outcome)
    requires KeyHeld(s)
  {
    match op
    case Create(passphrase, iterations) => Create(s, passphrase, iterations, env)
    case Lock => Lock(s, env)
    case Unlock(attempt) => Unlock(s, attempt, env)
    case SetProtection(next, iterations, current) => SetProtection(s, next, iterations, current, env)
    case WriteTokens(tokens) => WriteTokens(s, tokens, env)
    case ClearTokens =>
      if env.writes == 0 then BreakOff(s, env) else (s.(local := s.local.(tokens := None)), Done)
    case WriteSync(sync) => WriteSyncState(s, sync, env)
    case Reset => Reset(s, env)
    case WorkerDies => (s.(cached := None), Done)
    case BrowserRestarts => (s.(cached := None, session := None), Done)
    case _ => ChangeContents(s, op, env)
  }

  function RunCalls(s: Store, calls: seq<(Op, Env)>): Store
    requires KeyHeld(s)
    decreases |calls|
  {
    if calls == [] then s
    else
      DoKeepsKeyHeld(s, calls[0].0, calls[0].1);
      RunCalls(Do(s, calls[0].0, calls[0].1).0, calls[1..])
  }

  lemma SetProtectionKeepsKeyHeld(s: Store, next: string, iterations: nat, current: string, env: Env)
    requires KeyHeld(s)
    ensures KeyHeld(SetProtection(s, next, iterations, current, env).0)
  {
  }

  lemma DoKeepsKeyHeld(s: Store, op: Op, env: Env)
    requires KeyHeld(s)
    ensures KeyHeld(Do(s, op, env).0)
  {
    hide SetProtection, Changed;
    if op.SetProtection? { SetProtectionKeepsKeyHeld(s, op.next, op.nextIterations, op.current, env); }
  }

  // --------------------------------------------------------- the durable state

  function KeyOf(area: LocalArea): Key
    requires area.verifier.Some?
  {
    area.verifier.value.key
  }

  predicate SealedUnder(key: Key, area: LocalArea) {
    && area.verifier == Some(Sealed(key, VerifierSlot, ()))
    && area.vault.Some? && area.vault.value.key == key && area.vault.value.slot == VaultSlot
    && area.sync.Some? && area.sync.value.key == key && area.sync.value.slot == VaultSlot
    && (area.tokens.Some? ==> area.tokens.value.key == key && area.tokens.value.slot == TokensSlot)
  }

  /** The key is the one that `meta` says opens the vault. */
  predicate KeyMatchesMeta(key: Key, meta: Meta, deviceKey: Option<Key>) {
    match meta.kdf
    case None => key.DeviceKey? && deviceKey == Some(key)
    case Some(kdf) =>
      && key.Derived? && key.passphrase != ""
      && key.salt == kdf.salt && key.iterations == kdf.iterations && kdf.iterations >= MIN_ITERATIONS
  }

  /** Every blob is under one key, and that key can be had again. */
  predicate DurableOk(s: Store) {
    && (s.deviceKey.Some? ==> s.deviceKey.value.DeviceKey?)
    && (if s.local.meta.None? then s.local == EMPTY_AREA
        else s.local.verifier.Some? && SealedUnder(KeyOf(s.local), s.local)
             && KeyMatchesMeta(KeyOf(s.local), s.local.meta.value, s.deviceKey))
  }

  /** What the durable state holds; `open` is whether the session has its key. */
  function Stored(s: Store): Vault
    requires DurableOk(s)
  {
    var area := s.local;
    if area.meta.None? then NoVault
    else
      Vault(if area.meta.value.kdf.None? then ByDevice
            else ByPassphrase(KeyOf(area).passphrase, s.session == Some(KeyOf(area))),
            area.vault.value.value,
            if area.tokens.Some? then Some(area.tokens.value.value) else None,
            area.sync.value.value)
  }

  /** What is cached is what is stored, and in passphrase mode is backed by its key in the session. */
  predicate Fit(s: Store) {
    && DurableOk(s)
    && (s.cached.Some? ==>
          && s.local.meta.Some?
          && s.cached.value == s.local.vault.value.value
          && (s.local.meta.value.kdf.Some? ==> s.session == Some(KeyOf(s.local))))
  }

  /** The session holds a key, and it is not the one the blobs are under. */
  predicate Foreign(s: Store) {
    && s.local.meta.Some? && s.local.meta.value.kdf.Some? && s.local.verifier.Some?
    && s.session.Some? && s.session.value != KeyOf(s.local)
  }

  // ------------------------------------------------------------ the refinement

  predicate UsesKey(op: Op) {
    ChangesContents(op) || op.WriteTokens? || op.WriteSync?
  }

  /** A call that is not broken off does what the plain vault does, from fit memory to fit memory. */
  predicate Refines(s: Store, op: Op, s': Store, out: Outcome) {
    Fit(s) && (Foreign(s) ==> !UsesKey(op)) && !Broke(out) ==>
      && Fit(s')
      && (Stored(s'), if out.Failed? then Some(out.error) else None) == Perform(Stored(s), op)
      && (Foreign(s') ==> Foreign(s))
  }

  /** The login that is shown for an id. */
  function Shown(contents: Contents, id: Id): Option<Login> {
    if id in contents && !contents[id].deleted then contents[id].data else None
  }

  lemma ShownIsLive(contents: Contents, id: Id)
    ensures Shown(contents, id) == Get(LiveRecords(contents), id)
  {
  }

  /** An open vault reads as what is stored; another says why not. */
  lemma ReadContentsFit(s: Store)
    requires KeyHeld(s) && Fit(s) && !Foreign(s)
    ensures var (s1, contents) := ReadContents(s);
            && contents == Read(Stored(s))
            && s1 == (if contents.Ok? then s.(cached := Some(contents.value)) else s)
            && Fit(s1) && Stored(s1) == Stored(s) && !Foreign(s1)
            && (RequireKey(s) == if Readable(Stored(s)) then Ok(KeyOf(s.local)) else Err(Closed(Stored(s))))
  {
  }

  lemma WriteContentsFit(s: Store, before: Contents, contents: Contents, env: Env)
    requires KeyHeld(s) && Fit(s.(cached := Some(before))) && !Foreign(s)
    ensures var (s1, out) := WriteContents(s, contents, env);
            Broke(out) || (out == Done && Fit(s1) && !Foreign(s1) && Stored(s1) == Stored(s).(contents := contents))
  {
  }

  lemma ChangedIsPerformed(v: Vault, op: Op)
    requires Readable(v) && ChangesContents(op) && !(op.PurgeOp? && op.purged == [])
    ensures Perform(v, op) == match Changed(op, v.contents)
                              case Err(error) => (v, Some(error))
                              case Ok(changed) => (if changed.Some? then v.(contents := changed.value) else v, None)
  {
  }

  lemma ChangeRefines(s: Store, op: Op, env: Env)
    requires KeyHeld(s) && ChangesContents(op)
    ensures Refines(s, op, ChangeContents(s, op, env).0, ChangeContents(s, op, env).1)
  {
    hide Changed, ReadContents, WriteContents, RequireKey, Stored, Perform;
    var (s', out) := ChangeContents(s, op, env);
    if Fit(s) && !Foreign(s) && !Broke(out) {
      ReadContentsFit(s);
      if op.PurgeOp? && op.purged == [] {
        NothingPurged(s, op);
      } else if Readable(Stored(s)) {
        ChangedIsPerformed(Stored(s), op);
        var (s1, contents) := ReadContents(s);
        var changed := Changed(op, contents.value);
        if changed.Ok? && changed.value.Some? {
          CacheIsNotStored(s1, changed.value);
          assert s1.(cached := changed.value).(cached := Some(contents.value)) == s1;
          WriteContentsFit(s1.(cached := changed.value), contents.value, changed.value.value, env);
        }
      } else {
        ClosedThrows(s, op);
      }
    }
  }

  lemma CacheIsNotStored(s: Store, cached: Option<Contents>)
    requires DurableOk(s)
    ensures DurableOk(s.(cached := cached)) && Stored(s.(cached := cached)) == Stored(s)
    ensures Foreign(s.(cached := cached)) == Foreign(s)
  {
  }

  lemma NothingPurged(s: Store, op: Op)
    requires DurableOk(s) && op.PurgeOp? && op.purged == []
    ensures Perform(Stored(s), op) == (Stored(s), None)
  {
  }

  lemma ClosedThrows(s: Store, op: Op)
    requires DurableOk(s) && UsesKey(op) && !Readable(Stored(s)) && !(op.PurgeOp? && op.purged == [])
    ensures Perform(Stored(s), op) == (Stored(s), Some(Closed(Stored(s))))
  {
  }

  lemma AdmitFit(s: Store, next: string, iterations: nat, current: string, env: Env)
    requires KeyHeld(s) && Fit(s)
    ensures var (s1, out, left) := Admit(s, current, env);
            && (out == Done ==>
                  && KeyHeld(s1) && Fit(s1) && !Foreign(s1) && Readable(Stored(s1))
                  && Stored(s1) == Opened(Stored(s)) && s1.local == s.local && s1.deviceKey == s.deviceKey
                  && (Stored(s).protection.ByPassphrase? ==>
                        current != "" && current == Stored(s).protection.passphrase))
            && (out != Done && !Broke(out) ==>
                  && s1 == s && out.Failed?
                  && Perform(Stored(s), PlainVault.SetProtection(next, iterations, current))
                     == (Stored(s), Some(out.error)))
  {
  }

  lemma ReadAllFit(s: Store)
    requires KeyHeld(s) && Fit(s) && !Foreign(s) && Readable(Stored(s))
    ensures var v := Stored(s);
            ReadAll(s) == (s.(cached := Some(v.contents)), Ok((v.contents, v.tokens, v.sync)))
  {
  }

  /** The key can protect the vault: the device's, or one derived from a passphrase as the code insists. */
  predicate CanProtect(s: Store, key: Key) {
    if key.DeviceKey? then s.deviceKey == Some(key) else key.passphrase != "" && key.iterations >= MIN_ITERATIONS
  }

  lemma ResealFit(s: Store, key: Key, contents: Contents, tokens: Option<Tokens>, sync: SyncState, env: Env)
    requires DurableOk(s) && s.local.meta.Some?
    requires CanProtect(s, key)
    ensures var (s', out) := Reseal(s, key, contents, tokens, sync, env);
            Broke(out)
            || (&& out == Done && Fit(s') && !Foreign(s')
                && Stored(s') == Vault(if key.DeviceKey? then ByDevice else ByPassphrase(key.passphrase, true),
                                       contents, tokens, sync))
  {
  }

  lemma SetProtectionRefines(s: Store, next: string, iterations: nat, current: string, env: Env)
    requires KeyHeld(s)
    ensures var (s', out) := SetProtection(s, next, iterations, current, env);
            Refines(s, PlainVault.SetProtection(next, iterations, current), s', out)
  {
    hide Admit, ReadAll, Reseal;
    if Fit(s) {
      AdmitFit(s, next, iterations, current, env);
      var (s1, admitted, left) := Admit(s, current, env);
      if admitted == Done {
        ReadAllFit(s1);
        var (s2, held) := ReadAll(s1);
        var (s3, key) := NextKey(s2, next, iterations, left);
        if key.Ok? {
          ResealFit(s3, key.value, held.value.0, held.value.1, held.value.2, left);
        }
      }
    }
  }

  lemma StepRefines(s: Store, op: Op, env: Env)
    requires KeyHeld(s)
    ensures Refines(s, op, Do(s, op, env).0, Do(s, op, env).1)
  {
    hide ChangeContents, SetProtection, ApplyEdit, PutAllRecords, MarkSynced, Purge, IdsOf, EditFails, Refines;
    if ChangesContents(op) {
      ChangeRefines(s, op, env);
    } else if op.SetProtection? {
      SetProtectionRefines(s, op.next, op.nextIterations, op.current, env);
    } else {
      OtherRefines(s, op, env);
    }
  }

  lemma OtherRefines(s: Store, op: Op, env: Env)
    requires KeyHeld(s) && !ChangesContents(op) && !op.SetProtection?
    ensures Refines(s, op, Do(s, op, env).0, Do(s, op, env).1)
  {
    hide ChangeContents, SetProtection, ApplyEdit, PutAllRecords, MarkSynced, Purge, IdsOf, EditFails, Create,
         WriteTokens, Refines;
    match op
    case Create(passphrase, iterations) => CreateRefines(s, passphrase, iterations, env);
    case WriteTokens(tokens) => WriteTokensRefines(s, tokens, env);
    case _ => PlainRefines(s, op, env);
  }

  lemma CreateRefines(s: Store, passphrase: string, iterations: nat, env: Env)
    requires KeyHeld(s)
    ensures var (s', out) := Create(s, passphrase, iterations, env);
            Refines(s, PlainVault.Create(passphrase, iterations), s', out)
  {
    hide ApplyEdit, PutAllRecords, MarkSynced, Purge, IdsOf, EditFails;
  }

  lemma WriteTokensRefines(s: Store, tokens: Tokens, env: Env)
    requires KeyHeld(s)
    ensures Refines(s, PlainVault.WriteTokens(tokens), WriteTokens(s, tokens, env).0, WriteTokens(s, tokens, env).1)
  {
    hide ApplyEdit, PutAllRecords, MarkSynced, Purge, IdsOf, EditFails;
  }

  lemma PlainRefines(s: Store, op: Op, env: Env)
    requires KeyHeld(s) && !ChangesContents(op) && !op.SetProtection? && !op.Create? && !op.WriteTokens?
    ensures Refines(s, op, Do(s, op, env).0, Do(s, op, env).1)
  {
    hide ChangeContents, SetProtection, ApplyEdit, PutAllRecords, MarkSynced, Purge, IdsOf, EditFails, Create,
         WriteTokens;
  }

  /** Four writes are enough for any call. */
  lemma FourWritesSuffice(s: Store, op: Op, env: Env)
    requires KeyHeld(s) && env.writes >= 4 && env.keeps
    ensures !Broke(Do(s, op, env).1)
  {
  }

  lemma ChangedThrowsOnce(op: Op, contents: Result<Contents, VaultError>)
    requires ChangesContents(op)
    ensures contents.Ok? && Changed(op, contents.value).Err? ==> Changed(op, contents.value).error == NoSuchPassword
  {
  }

  /** No call of the run is broken off. */
  predicate Unbroken(s: Store, calls: seq<(Op, Env)>)
    requires KeyHeld(s)
    decreases |calls|
  {
    calls == []
    || (DoKeepsKeyHeld(s, calls[0].0, calls[0].1);
        !Broke(Do(s, calls[0].0, calls[0].1).1) && Unbroken(Do(s, calls[0].0, calls[0].1).0, calls[1..]))
  }

  function OpsOf(calls: seq<(Op, Env)>): (ops: seq<Op>)
    ensures |ops| == |calls|
    ensures forall i :: 0 <= i < |calls| ==> ops[i] == calls[i].0
  {
    seq(|calls|, i requires 0 <= i < |calls| => calls[i].0)
  }

  /** A run of calls none of which is broken off is a run of the plain vault. */
  lemma {:induction false} RunRefines(s: Store, calls: seq<(Op, Env)>)
    requires KeyHeld(s) && Fit(s) && !Foreign(s) && Unbroken(s, calls)
    ensures Fit(RunCalls(s, calls)) && !Foreign(RunCalls(s, calls))
    ensures Stored(RunCalls(s, calls)) == RunOps(Stored(s), OpsOf(calls))
    decreases |calls|
  {
    hide Do, Perform, Fit, Foreign, Stored, KeyHeld, Broke;
    if calls != [] {
      var (op, env) := calls[0];
      DoKeepsKeyHeld(s, op, env);
      StepRefines(s, op, env);
      RunRefines(Do(s, op, env).0, calls[1..]);
      assert OpsOf(calls)[1..] == OpsOf(calls[1..]);
    }
  }

  // ------------------------------------------------------- blobs under one key

  /** The call gets as far as a write under the key in use. */
  predicate WritesUnderKey(s: Store, op: Op, env: Env) {
    && env.writes > 0
    && (op.WriteTokens? || op.WriteSync?
        || (&& ChangesContents(op) && s.cached.Some? && !(op.PurgeOp? && op.purged == [])
            && Changed(op, s.cached.value).Ok? && Changed(op, s.cached.value).value.Some?))
  }

  lemma ChangeApartExactly(s: Store, op: Op, env: Env)
    requires KeyHeld(s) && DurableOk(s) && ChangesContents(op)
    ensures DurableOk(ChangeContents(s, op, env).0) <==> !(Foreign(s) && WritesUnderKey(s, op, env))
  {
    hide Changed;
  }

  lemma AdmitKeepsLocal(s: Store, current: string, env: Env)
    ensures Admit(s, current, env).0.local == s.local && Admit(s, current, env).0.deviceKey == s.deviceKey
    ensures Admit(s, current, env).1 == Done ==> s.local.meta.Some? && !Foreign(Admit(s, current, env).0)
  {
  }

  lemma ReadAllKeepsLocal(s: Store)
    requires KeyHeld(s)
    ensures ReadAll(s).0 == s.(cached := ReadAll(s).0.cached)
    ensures ReadAll(s).1.Ok? ==> (ReadAll(s).1.value.1.None? <==> s.local.tokens.None?)
  {
  }

  lemma ResealKeepsDurable(s: Store, key: Key, contents: Contents, tokens: Option<Tokens>, sync: SyncState, env: Env)
    requires DurableOk(s) && s.local.meta.Some? && (tokens.None? <==> s.local.tokens.None?)
    requires CanProtect(s, key)
    ensures var (s', out) := Reseal(s, key, contents, tokens, sync, env);
            && DurableOk(s')
            && (Broke(out) ==> s'.local == s.local)
  {
  }

  lemma SetProtectionKeepsDurable(s: Store, next: string, iterations: nat, current: string, env: Env)
    requires KeyHeld(s) && DurableOk(s)
    ensures var (s', out) := SetProtection(s, next, iterations, current, env);
            && DurableOk(s')
            && (Broke(out) ==> s'.local == s.local)
  {
    hide Admit, ReadAll, Reseal, Foreign;
    AdmitKeepsLocal(s, current, env);
    var (s1, admitted, left) := Admit(s, current, env);
    if admitted == Done {
      ReadAllKeepsLocal(s1);
      var (s2, held) := ReadAll(s1);
      var (s3, key) := NextKey(s2, next, iterations, left);
      if held.Ok? && key.Ok? {
        ResealKeepsDurable(s3, key.value, held.value.0, held.value.1, held.value.2, left);
      }
    }
  }

  lemma OtherApartExactly(s: Store, op: Op, env: Env)
    requires KeyHeld(s) && DurableOk(s) && !ChangesContents(op) && !op.SetProtection?
    ensures DurableOk(Do(s, op, env).0) <==> !(Foreign(s) && WritesUnderKey(s, op, env))
  {
    hide ChangeContents, SetProtection, Changed;
  }

  /**
   * Whatever is in memory, and wherever the call is broken off: a call leaves the
   * blobs under one key that can be had again, except exactly when it gets as far
   * as a write while the session holds a foreign key.
   */
  lemma ApartExactly(s: Store, op: Op, env: Env)
    requires KeyHeld(s) && DurableOk(s)
    ensures DurableOk(Do(s, op, env).0) <==> !(Foreign(s) && WritesUnderKey(s, op, env))
  {
    hide ChangeContents, SetProtection, Changed, DurableOk, Foreign;
    if ChangesContents(op) {
      ChangeApartExactly(s, op, env);
    } else if op.SetProtection? {
      SetProtectionKeepsDurable(s, op.next, op.nextIterations, op.current, env);
    } else {
      OtherApartExactly(s, op, env);
    }
  }

  /** Every state of the run has its blobs under one key. */
  predicate AlwaysDurable(s: Store, calls: seq<(Op, Env)>)
    requires KeyHeld(s)
    decreases |calls|
  {
    && DurableOk(s)
    && (calls == []
        || (DoKeepsKeyHeld(s, calls[0].0, calls[0].1); AlwaysDurable(Do(s, calls[0].0, calls[0].1).0, calls[1..])))
  }

  /** No call of the run gets as far as a write under a foreign key. */
  predicate NeverForeign(s: Store, calls: seq<(Op, Env)>)
    requires KeyHeld(s)
    decreases |calls|
  {
    calls == []
    || (DoKeepsKeyHeld(s, calls[0].0, calls[0].1);
        && !(Foreign(s) && WritesUnderKey(s, calls[0].0, calls[0].1))
        && NeverForeign(Do(s, calls[0].0, calls[0].1).0, calls[1..]))
  }

  /** Over whole runs, with calls broken off anywhere. */
  lemma {:induction false} RunApartExactly(s: Store, calls: seq<(Op, Env)>)
    requires KeyHeld(s) && DurableOk(s)
    ensures AlwaysDurable(s, calls) <==> NeverForeign(s, calls)
    decreases |calls|
  {
    hide Do, KeyHeld, DurableOk, Foreign, WritesUnderKey;
    if calls != [] {
      var (op, env) := calls[0];
      DoKeepsKeyHeld(s, op, env);
      ApartExactly(s, op, env);
      if DurableOk(Do(s, op, env).0) {
        RunApartExactly(Do(s, op, env).0, calls[1..]);
      }
    }
  }

  // ------------------------------------------------- what a broken call leaves

  /**
   * A call that is broken off has left the durable blobs alone, whatever is in
   * memory; only an account may already be saved with the old error beside it, or
   * a vault that was to be reset be gone.
   */
  lemma BrokenKeepsBlobs(s: Store, op: Op, env: Env)
    requires KeyHeld(s) && DurableOk(s) && (Foreign(s) ==> !WritesUnderKey(s, op, env))
    requires Broke(Do(s, op, env).1)
    ensures Do(s, op, env).0.local == if op.Reset? && env.writes > 0 then EMPTY_AREA
                                      else if op.WriteTokens? && env.writes > 0
                                      then s.local.(tokens := Some(Sealed(KeyOf(s.local), TokensSlot, op.tokens)))
                                      else s.local
    ensures Do(s, op, env).1 == TornDown ==> Do(s, op, env).0.cached.None?
  {
    hide SetProtection, Changed;
    if op.SetProtection? {
      SetProtectionKeepsDurable(s, op.next, op.nextIterations, op.current, env);
      BrokenChangeOfProtection(s, op.next, op.nextIterations, op.current, env);
    }
  }

  /** The change had replaced the session's key by one that is not that of the blobs. */
  predicate SessionReplaced(s: Store, next: string, iterations: nat, env: Env, out: Outcome)
  {
    && s.local.meta.Some? && s.local.meta.value.kdf.Some? && s.local.verifier.Some?
    && env.writes >= 2 && out != Failed(KeyNotKept)
    && (next == "" || Derived(next, env.salt, iterations) != KeyOf(s.local))
  }

  /** A passphrase that was right is the key's, and its key is then in the session. */
  lemma AdmitIs(s: Store, current: string, env: Env)
    requires DurableOk(s)
    ensures var (s1, out, left) := Admit(s, current, env);
            && (out == Done ==>
                  && s.local.meta.Some?
                  && (if s.local.meta.value.kdf.None? then s1 == s && left == env
                      else s1 == s.(session := Some(KeyOf(s.local)), cached := None)
                           && env.writes > 0 && left == env.(writes := env.writes - 1)))
            && (Broke(out) ==> env.writes == 0 && (s1, out) == BreakOff(s, env))
  {
  }

  lemma ReadAllIs(s: Store)
    requires KeyHeld(s)
    ensures ReadAll(s).0 == s.(cached := ReadAll(s).0.cached)
    ensures ReadAll(s).1.Ok? ==> ReadAll(s).0.cached == Some(ReadAll(s).1.value.0)
    ensures ReadAll(s).1.Err? ==> !Broke(Failed(ReadAll(s).1.error))
    ensures Fit(s) && !Foreign(s) ==> Fit(ReadAll(s).0)
  {
    if Fit(s) && !Foreign(s) { ReadContentsFit(s); }
  }

  /** Broken off, the writes leave the session's key replaced or not. */
  lemma BrokenReseal(s: Store, key: Key, contents: Contents, tokens: Option<Tokens>, sync: SyncState, env: Env)
    requires DurableOk(s) && (tokens.None? <==> s.local.tokens.None?)
    requires Broke(Reseal(s, key, contents, tokens, sync, env).1)
    ensures var (s', out) := Reseal(s, key, contents, tokens, sync, env);
            && out == (if env.dies then TornDown else Failed(StorageFailed))
            && s' == s.(session := if env.writes == 0 then s.session else if key.DeviceKey? then None else Some(key),
                        cached := if env.dies then None else s.cached)
  {
  }

  /** What a change of protection leaves in memory when it is broken off. */
  lemma BrokenChangeOfProtection(s: Store, next: string, iterations: nat, current: string, env: Env)
    requires KeyHeld(s) && DurableOk(s) && Broke(SetProtection(s, next, iterations, current, env).1)
    ensures var (s', out) := SetProtection(s, next, iterations, current, env);
            && (out == TornDown ==> s'.cached.None?)
            && (Fit(s) ==> (Fit(s') <==> out == TornDown || !SessionReplaced(s, next, iterations, env, out)))
            && (!Foreign(s) ==> (Foreign(s') <==> next != "" && SessionReplaced(s, next, iterations, env, out)))
  {
    hide Admit, ReadAll, Reseal;
    AdmitIs(s, current, env);
    var (s1, admitted, left) := Admit(s, current, env);
    if admitted == Done {
      ReadAllIs(s1);
      ReadAllKeepsLocal(s1);
      var (s2, held) := ReadAll(s1);
      var (s3, key) := NextKey(s2, next, iterations, left);
      if held.Ok? && key.Ok? {
        BrokenReseal(s3, key.value, held.value.0, held.value.1, held.value.2, left);
      }
    }
  }

  /** A foreign key comes into the session exactly by a change of passphrase broken off after its second write. */
  lemma ForeignExactly(s: Store, op: Op, env: Env)
    requires KeyHeld(s) && DurableOk(s) && !Foreign(s)
    ensures var (s', out) := Do(s, op, env);
            Foreign(s') <==>
              && op.SetProtection? && op.next != "" && Broke(out)
              && SessionReplaced(s, op.next, op.nextIterations, env, out)
  {
    hide SetProtection, Changed;
    if op.SetProtection? {
      if Broke(SetProtection(s, op.next, op.nextIterations, op.current, env).1) {
        BrokenChangeOfProtection(s, op.next, op.nextIterations, op.current, env);
      } else {
        UnbrokenIsNotForeign(s, op.next, op.nextIterations, op.current, env);
      }
    }
  }

  lemma UnbrokenIsNotForeign(s: Store, next: string, iterations: nat, current: string, env: Env)
    requires KeyHeld(s) && DurableOk(s) && !Foreign(s)
    requires !Broke(SetProtection(s, next, iterations, current, env).1)
    ensures !Foreign(SetProtection(s, next, iterations, current, env).0)
  {
    hide Admit, ReadAll;
    AdmitKeepsLocal(s, current, env);
    AdmitThrowsEarly(s, current, env);
    var (s1, admitted, left) := Admit(s, current, env);
    if admitted == Done {
      ReadAllKeepsLocal(s1);
    }
  }

  lemma AdmitThrowsEarly(s: Store, current: string, env: Env)
    ensures Admit(s, current, env).1.Failed? ==> Admit(s, current, env).0 == s
  {
  }

  /**
   * After a call that is broken off memory is fit, except exactly when the worker
   * lives on and the cache is ahead of the blob, or beside a session whose key
   * was replaced.
   */
  lemma BrokenIsFitExactly(s: Store, op: Op, env: Env)
    requires KeyHeld(s) && Fit(s) && (Foreign(s) ==> !UsesKey(op)) && Broke(Do(s, op, env).1)
    ensures var (s', out) := Do(s, op, env);
            (Fit(s') <==>
              || out == TornDown
              || (if ChangesContents(op) then
                    Stored(s).Vault? && Changed(op, Stored(s).contents) == Ok(Some(Stored(s).contents))
                  else !(op.SetProtection? && SessionReplaced(s, op.next, op.nextIterations, env, out))))
  {
    hide SetProtection, ChangeContents, Changed;
    if op.SetProtection? {
      BrokenChangeOfProtection(s, op.next, op.nextIterations, op.current, env);
    } else if ChangesContents(op) {
      BrokenChange(s, op, env);
    }
  }

  lemma BrokenChange(s: Store, op: Op, env: Env)
    requires KeyHeld(s) && Fit(s) && !Foreign(s) && ChangesContents(op) && Broke(ChangeContents(s, op, env).1)
    ensures var (s', out) := ChangeContents(s, op, env);
            && Stored(s).Vault? && Changed(op, Stored(s).contents).Ok? && Changed(op, Stored(s).contents).value.Some?
            && s' == s.(cached := if out == TornDown then None else Changed(op, Stored(s).contents).value)
            && (Fit(s') <==> out == TornDown || Changed(op, Stored(s).contents).value == Some(Stored(s).contents))
  {
    hide ReadContents;
    ReadContentsFit(s);
    ChangedThrowsOnce(op, ReadContents(s).1);
  }

  /** With a foreign key in the session the cache is answered from, and nothing sealed can be read. */
  lemma ForeignReads(s: Store)
    requires KeyHeld(s) && DurableOk(s) && Foreign(s)
    ensures ReadContents(s) == (s, if s.cached.Some? then Ok(s.cached.value) else Err(WrongPassphrase))
    ensures ReadTokens(s) == if s.local.tokens.None? then Ok(None) else Err(WrongPassphrase)
    ensures ReadSyncState(s) == Err(WrongPassphrase)
  {
  }

  /** Whatever is in memory, blobs under one key open with its passphrase and no other, as what they hold. */
  lemma RecoverExactly(s: Store, attempt: string, env: Env)
    requires DurableOk(s) && Stored(s).Vault? && Stored(s).protection.ByPassphrase? && env.writes > 0
    ensures var (s', out) := Unlock(s, attempt, env);
            && (out == Done <==> attempt == Stored(s).protection.passphrase)
            && (out == Done ==> Fit(s') && !Foreign(s') && Stored(s') == Opened(Stored(s)))
            && (out != Done ==> s' == s && out == Failed(WrongPassphrase))
  {
  }

  /** So no call that is broken off, short of a reset, costs anything that was stored. */
  lemma RecoverAfterBreak(s: Store, op: Op, env: Env, again: Env)
    requires KeyHeld(s) && DurableOk(s) && (Foreign(s) ==> !WritesUnderKey(s, op, env))
    requires Broke(Do(s, op, env).1) && !op.Reset? && !op.WriteTokens?
    requires Stored(s).Vault? && Stored(s).protection.ByPassphrase? && again.writes > 0
    ensures var (s', out) := Unlock(Do(s, op, env).0, Stored(s).protection.passphrase, again);
            out == Done && Fit(s') && !Foreign(s') && Stored(s') == Opened(Stored(s))
  {
    hide Do, Unlock, WritesUnderKey;
    ApartExactly(s, op, env);
    BrokenKeepsBlobs(s, op, env);
    RecoverExactly(Do(s, op, env).0, Stored(s).protection.passphrase, again);
  }

  // ------------------------------------------------------ two changes gone wrong

  const FINE := Env(9, false, true, 0, 1)
  const CUT := Env(2, true, true, 0, 2)
  const REJECTED := Env(2, false, true, 0, 2)

  const OLD_VAULT := Do(EMPTY_STORE, PlainVault.Create("old", MIN_ITERATIONS), FINE).0
  const CHANGE := PlainVault.SetProtection("new", MIN_ITERATIONS, "old")

  /**
   * An account that is saved after a change of passphrase was cut off after its
   * second write: the call throws, and leaves the tokens under the new key beside
   * blobs under the old one.
   */
  lemma SaveAccountAfterCut(tokens: Tokens)
    ensures var (cut, out) := Do(OLD_VAULT, CHANGE, CUT);
            var (saved, outcome) := WriteTokens(cut, tokens, FINE);
            out == TornDown && DurableOk(cut) && outcome == Failed(WrongPassphrase) && !DurableOk(saved)
  {
  }

  /**
   * A login that is added after the last write of that change was rejected: the
   * cache still answers, and the call succeeds and leaves the logins under the new
   * key beside a verifier of the old one.
   */
  lemma AddAfterRejectedChange(id: Id, login: Login)
    ensures var (s, out) := Do(OLD_VAULT, CHANGE, REJECTED);
            var (added, outcome) := Do(s, EditOp(id, Add(login)), FINE);
            && out == Failed(StorageFailed) && DurableOk(s) && ReadContents(s).1 == Ok(map[])
            && outcome == Done && !DurableOk(added)
  {
  }

  /**
   * After a rejected change to the device key the session is empty and the cache
   * is not: reads are answered, and an edit changes the cache and throws.
   */
  lemma CacheWithoutSession(s: Store, op: Op, env: Env)
    requires KeyHeld(s) && s.local.meta.Some? && s.local.meta.value.kdf.Some? && s.session.None? && s.cached.Some?
    requires ChangesContents(op) && !(op.PurgeOp? && op.purged == [])
    ensures ReadContents(s) == (s, Ok(s.cached.value))
    ensures var changed := Changed(op, s.cached.value);
            changed.Ok? && changed.value.Some? ==>
              ChangeContents(s, op, env) == (s.(cached := changed.value), Failed(VaultLocked))
  {
    hide Changed;
  }
}
