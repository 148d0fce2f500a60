/**
 * `VaultStore`, statement by statement: every method computes the step that
 * SealedStore specifies, from whatever state and broken off at whichever of its
 * writes, and an unbroken one from fit memory is the plain vault's operation.
 */
module VaultStorage {
  import opened Wrappers
  import opened Records
  import opened Reconciliation
  import opened Protocol
  import opened PlainVault
  import opened SealedStore

  lemma NoneMarked(contents: Contents, ids: seq<Id>, modified: int)
    ensures MarkSynced(contents, IdsOf(ids[..0]), modified) == contents
  {
  }

  lemma OneMoreMarked(contents: Contents, ids: seq<Id>, i: nat, modified: int)
    requires i < |ids|
    ensures var marked := MarkSynced(contents, IdsOf(ids[..i]), modified);
            (MarkSynced(contents, IdsOf(ids[..i + 1]), modified)
             == if ids[i] in marked then marked[ids[i] := marked[ids[i]].(dirty := false, syncedAt := Some(modified))]
                else marked)
  {
    assert IdsOf(ids[..i + 1]) == IdsOf(ids[..i]) + {ids[i]};
  }

  class VaultStore {
    var local: LocalArea
    var session: Option<Key>
    var deviceKey: Option<Key>
    var cachedContents: Option<Contents>

    function View(): Store
      reads this
    {
      Store(local, session, deviceKey, cachedContents)
    }

    constructor ()
      ensures View() == EMPTY_STORE && Fit(View()) && Stored(View()) == NoVault
    {
      local, session, deviceKey, cachedContents := EMPTY_AREA, None, None, None;
    }

    /** The next write of a call does not go through. */
    method BreakOff(env: Env) returns (out: Outcome)
      modifies this`cachedContents
      ensures (View(), out) == SealedStore.BreakOff(old(View()), env)
    {
      if env.dies {
        cachedContents := None;
        return TornDown;
      }
      out := Failed(StorageFailed);
    }

    // ------------------------------------------------------------ key handling

    /** `getOrCreateDeviceKey`: the key it yields is the one the key store holds from then on. */
    method GetOrCreateDeviceKey(env: Env) returns (key: Result<Key, VaultError>)
      modifies this`deviceKey
      ensures (View(), key) == SealedStore.GetOrCreateDeviceKey(old(View()), env)
      ensures key.Ok? ==> deviceKey == Some(key.value) && (old(deviceKey).Some? ==> deviceKey == old(deviceKey))
      ensures key.Err? ==> key.error == KeyNotKept && deviceKey == old(deviceKey) == None
    {
      if deviceKey.Some? {
        return Ok(deviceKey.value);
      }
      if env.keeps {
        deviceKey := Some(DeviceKey(env.serial));
      }
      var confirmed := deviceKey;
      if confirmed.None? {
        return Err(KeyNotKept);
      }
      key := Ok(confirmed.value);
    }

    method RequireKey() returns (key: Result<Key, VaultError>)
      requires KeyHeld(View())
      ensures key == SealedStore.RequireKey(View())
      ensures DurableOk(View()) ==>
                key == if Foreign(View()) then Ok(session.value)
                       else if Readable(Stored(View())) then Ok(KeyOf(local)) else Err(Closed(Stored(View())))
    {
      if local.meta.None? {
        return Err(NoVaultYet);
      }
      if local.meta.value.kdf.None? {
        return Ok(deviceKey.value);
      }
      if session.None? {
        return Err(VaultLocked);
      }
      return Ok(session.value);
    }

    // --------------------------------------------------------------- lifecycle

    method Create(passphrase: string, iterations: nat, env: Env) returns (out: Outcome)
      requires KeyHeld(View())
      modifies this
      ensures KeyHeld(View()) && (View(), out) == Do(old(View()), PlainVault.Create(passphrase, iterations), env)
      ensures Refines(old(View()), PlainVault.Create(passphrase, iterations), View(), out)
    {
      StepRefines(View(), PlainVault.Create(passphrase, iterations), env);
      DoKeepsKeyHeld(View(), PlainVault.Create(passphrase, iterations), env);
      hide Refines, Stored, Fit;
      if local.meta.Some? {
        return Failed(AlreadyExists);
      }
      var key: Key;
      var meta: Meta;
      var left := env.writes;
      if passphrase != "" {
        if iterations < MIN_ITERATIONS {
          return Failed(TooFewIterations);
        }
        key := Derived(passphrase, env.salt, iterations);
        meta := Meta(Some(Kdf(env.salt, iterations)));
        if left == 0 {
          out := BreakOff(env);
          return;
        }
        left := left - 1;
        session := Some(key);
      } else {
        var got := GetOrCreateDeviceKey(env);
        if got.Err? {
          return Failed(got.error);
        }
        key := got.value;
        meta := Meta(None);
      }
      if left == 0 {
        out := BreakOff(env);
        return;
      }
      local := local.(meta := Some(meta),
                      verifier := Some(Sealed(key, VerifierSlot, ())),
                      vault := Some(Sealed(key, VaultSlot, map[])),
                      sync := Some(Sealed(key, VaultSlot, EMPTY_SYNC_STATE)));
      cachedContents := Some(map[]);
      out := Done;
    }

    /** Opens exactly for the right passphrase, whatever key the session still holds. */
    method Unlock(passphrase: string, env: Env) returns (out: Outcome)
      requires KeyHeld(View())
      modifies this`session, this`cachedContents
      ensures KeyHeld(View()) && (View(), out) == Do(old(View()), PlainVault.Unlock(passphrase), env)
      ensures Refines(old(View()), PlainVault.Unlock(passphrase), View(), out)
    {
      StepRefines(View(), PlainVault.Unlock(passphrase), env);
      hide Refines, Stored, Fit;
      if local.meta.None? {
        return Failed(NoVaultYet);
      }
      if local.meta.value.kdf.None? {
        return Failed(NotByPassphrase);
      }
      if local.verifier.None? {
        return Failed(VerifierMissing);
      }
      var kdf := local.meta.value.kdf.value;
      if kdf.iterations < MIN_ITERATIONS {
        return Failed(TooFewIterations);
      }
      var key := Derived(passphrase, kdf.salt, kdf.iterations);
      var verified := Unseal(key, local.verifier.value, VerifierSlot);
      if verified.Err? {
        return Failed(WrongPassphrase);
      }
      if env.writes == 0 {
        out := BreakOff(env);
        return;
      }
      session := Some(key);
      cachedContents := None;
      out := Done;
    }

    method Lock(env: Env) returns (out: Outcome)
      requires KeyHeld(View())
      modifies this`session, this`cachedContents
      ensures KeyHeld(View()) && (View(), out) == Do(old(View()), PlainVault.Lock, env)
      ensures Refines(old(View()), PlainVault.Lock, View(), out)
    {
      StepRefines(View(), PlainVault.Lock, env);
      hide Refines, Stored, Fit;
      cachedContents := None;
      if env.writes == 0 {
        out := BreakOff(env);
        return;
      }
      session := None;
      out := Done;
    }

    method Reset(env: Env) returns (out: Outcome)
      requires KeyHeld(View())
      modifies this
      ensures KeyHeld(View()) && (View(), out) == Do(old(View()), PlainVault.Reset, env)
      ensures Refines(old(View()), PlainVault.Reset, View(), out)
      ensures out == Done ==> View() == EMPTY_STORE
      ensures env.writes > 0 ==> local == EMPTY_AREA
    {
      cachedContents := None;
      if env.writes == 0 {
        out := BreakOff(env);
        return;
      }
      local := EMPTY_AREA;
      if env.writes == 1 {
        out := BreakOff(env);
        return;
      }
      session := None;
      if env.writes == 2 {
        out := BreakOff(env);
        return;
      }
      deviceKey := None;
      out := Done;
    }

    // ----------------------------------------------------------- reads and writes

    /** A cache answers first; without one, what the key at hand opens. */
    method ReadContents() returns (contents: Result<Contents, VaultError>)
      requires KeyHeld(View())
      modifies this`cachedContents
      ensures KeyHeld(View()) && (View(), contents) == SealedStore.ReadContents(old(View()))
      ensures old(Fit(View())) && !old(Foreign(View())) ==>
                Fit(View()) && Stored(View()) == old(Stored(View())) && contents == Read(Stored(View()))
      ensures old(DurableOk(View())) && old(Foreign(View())) ==>
                View() == old(View())
                && contents == if cachedContents.Some? then Ok(cachedContents.value) else Err(WrongPassphrase)
    {
      if Fit(View()) && !Foreign(View()) { ReadContentsFit(View()); }
      if DurableOk(View()) && Foreign(View()) { ForeignReads(View()); }
      hide Stored, Fit;
      if cachedContents.Some? {
        return Ok(cachedContents.value);
      }
      var key := RequireKey();
      if key.Err? {
        return Err(key.error);
      }
      if local.vault.Some? {
        var plain := Unseal(key.value, local.vault.value, VaultSlot);
        if plain.Err? {
          return Err(plain.error);
        }
        cachedContents := Some(plain.value);
      } else {
        cachedContents := Some(map[]);
      }
      contents := Ok(cachedContents.value);
    }

    /**
     * The cache takes the new contents before storage does, so a write that is
     * rejected leaves the cache ahead of the blob: they agree afterwards exactly
     * when it changed nothing. The blobs are taken apart exactly by a write under
     * a foreign key.
     */
    method WriteContents(contents: Contents, env: Env) returns (out: Outcome)
      requires KeyHeld(View())
      modifies this`local, this`cachedContents
      ensures KeyHeld(View()) && (View(), out) == SealedStore.WriteContents(old(View()), contents, env)
      ensures old(Fit(View())) && !old(Foreign(View())) && out == Done ==>
                && Fit(View()) && old(Stored(View())).Vault?
                && Stored(View()) == old(Stored(View())).(contents := contents)
      ensures old(Fit(View())) && !old(Foreign(View())) && out == Failed(StorageFailed) ==>
                && local == old(local) && old(Stored(View())).Vault?
                && (Fit(View()) <==> contents == old(Stored(View())).contents)
      ensures old(DurableOk(View())) ==> (DurableOk(View()) <==> !(old(Foreign(View())) && env.writes > 0))
    {
      var key := RequireKey();
      if key.Err? {
        return Failed(key.error);
      }
      cachedContents := Some(contents);
      if env.writes == 0 {
        out := BreakOff(env);
        return;
      }
      local := local.(vault := Some(Sealed(key.value, VaultSlot, contents)));
      out := Done;
    }

    method ReadTokens() returns (tokens: Result<Option<Tokens>, VaultError>)
      requires KeyHeld(View())
      ensures tokens == SealedStore.ReadTokens(View())
      ensures DurableOk(View()) ==>
                tokens == if Foreign(View()) then (if local.tokens.None? then Ok(None) else Err(WrongPassphrase))
                          else if Readable(Stored(View())) then Ok(Stored(View()).tokens)
                          else Err(Closed(Stored(View())))
    {
      var key := RequireKey();
      if key.Err? {
        return Err(key.error);
      }
      if local.tokens.None? {
        return Ok(None);
      }
      var plain := Unseal(key.value, local.tokens.value, TokensSlot);
      if plain.Err? {
        return Err(plain.error);
      }
      tokens := Ok(Some(plain.value));
    }

    /** Two writes, the second to clear a stored error; under a foreign key it throws after the first. */
    method WriteTokens(tokens: Tokens, env: Env) returns (out: Outcome)
      requires KeyHeld(View())
      modifies this`local, this`cachedContents
      ensures KeyHeld(View()) && (View(), out) == Do(old(View()), PlainVault.WriteTokens(tokens), env)
      ensures Refines(old(View()), PlainVault.WriteTokens(tokens), View(), out)
      ensures old(DurableOk(View())) ==> (DurableOk(View()) <==> !(old(Foreign(View())) && env.writes > 0))
    {
      StepRefines(View(), PlainVault.WriteTokens(tokens), env);
      DoKeepsKeyHeld(View(), PlainVault.WriteTokens(tokens), env);
      if DurableOk(View()) { ApartExactly(View(), PlainVault.WriteTokens(tokens), env); }
      hide Refines, Stored, Fit, DurableOk, Foreign;
      var key := RequireKey();
      if key.Err? {
        return Failed(key.error);
      }
      if env.writes == 0 {
        out := BreakOff(env);
        return;
      }
      local := local.(tokens := Some(Sealed(key.value, TokensSlot, tokens)));
      var sync := ReadSyncState();
      if sync.Err? {
        return Failed(sync.error);
      }
      out := Done;
      if sync.value.lastSyncError.Some? {
        out := WriteSyncState(sync.value.(lastSyncError := None), env.(writes := env.writes - 1));
      }
    }

    method ClearTokens(env: Env) returns (out: Outcome)
      requires KeyHeld(View())
      modifies this`local, this`cachedContents
      ensures KeyHeld(View()) && (View(), out) == Do(old(View()), PlainVault.ClearTokens, env)
      ensures Refines(old(View()), PlainVault.ClearTokens, View(), out)
    {
      StepRefines(View(), PlainVault.ClearTokens, env);
      hide Refines, Stored, Fit;
      if env.writes == 0 {
        out := BreakOff(env);
        return;
      }
      local := local.(tokens := None);
      out := Done;
    }

    method ReadSyncState() returns (sync: Result<SyncState, VaultError>)
      requires KeyHeld(View())
      ensures sync == SealedStore.ReadSyncState(View())
      ensures DurableOk(View()) ==>
                sync == if Foreign(View()) then Err(WrongPassphrase)
                        else if Readable(Stored(View())) then Ok(Stored(View()).sync) else Err(Closed(Stored(View())))
    {
      var key := RequireKey();
      if key.Err? {
        return Err(key.error);
      }
      if local.sync.None? {
        return Ok(EMPTY_SYNC_STATE);
      }
      sync := Unseal(key.value, local.sync.value, VaultSlot);
    }

    /** A silent write under a foreign key, too, takes the blobs apart, and exactly then. */
    method WriteSyncState(sync: SyncState, env: Env) returns (out: Outcome)
      requires KeyHeld(View())
      modifies this`local, this`cachedContents
      ensures KeyHeld(View()) && (View(), out) == Do(old(View()), WriteSync(sync), env)
      ensures Refines(old(View()), WriteSync(sync), View(), out)
      ensures old(DurableOk(View())) ==> (DurableOk(View()) <==> !(old(Foreign(View())) && env.writes > 0))
    {
      StepRefines(View(), WriteSync(sync), env);
      if DurableOk(View()) { ApartExactly(View(), WriteSync(sync), env); }
      hide Refines, Stored, Fit;
      var key := RequireKey();
      if key.Err? {
        return Failed(key.error);
      }
      if env.writes == 0 {
        out := BreakOff(env);
        return;
      }
      local := local.(sync := Some(Sealed(key.value, VaultSlot, sync)));
      out := Done;
    }

    // ------------------------------------------------------------------- records

    /** `addPassword`, `updatePassword`, `patchPassword`, `touchPassword` and `deletePassword`. */
    method EditRecord(id: Id, edit: Edit, env: Env) returns (out: Outcome)
      requires KeyHeld(View())
      modifies this`local, this`cachedContents
      ensures KeyHeld(View()) && (View(), out) == Do(old(View()), EditOp(id, edit), env)
      ensures Refines(old(View()), EditOp(id, edit), View(), out)
    {
      StepRefines(View(), EditOp(id, edit), env);
      hide Refines, Stored, Fit, DurableOk, Foreign;
      var read := ReadContents();
      if read.Err? {
        return Failed(read.error);
      }
      var contents := read.value;
      match edit {
        case Add(login) =>
          contents := contents[id := LocalRecord(id, Some(login), false, PasswordAuthorityTime(login), None, true)];
        case Update(password, now) =>
          if id !in contents || contents[id].data.None? {
            return Failed(NoSuchPassword);
          }
          var updated := ChangePassword(contents[id].data.value, password, now);
          contents := contents[id := contents[id].(data := Some(updated),
                                                   authorityTime := PasswordAuthorityTime(updated), dirty := true)];
        case Patch(patched) =>
          if id !in contents || contents[id].data.None? {
            return Failed(NoSuchPassword);
          }
          contents := contents[id := contents[id].(data := Some(patched),
                                                   authorityTime := PasswordAuthorityTime(patched), dirty := true)];
        case Touch(at) =>
          if id !in contents || contents[id].data.None? {
            return Done;
          }
          contents := contents[id := contents[id].(data := Some(MarkPasswordUsed(contents[id].data.value, at)),
                                                   dirty := true)];
        case Delete(deletedAt) =>
          if id !in contents {
            return Done;
          }
          contents := contents[id := LocalRecord(id, None, true, deletedAt, contents[id].syncedAt, true)];
      }
      cachedContents := Some(contents);
      out := WriteContents(contents, env);
    }

    method GetPassword(id: Id) returns (login: Result<Option<Login>, VaultError>)
      requires KeyHeld(View())
      modifies this`cachedContents
      ensures old(Fit(View())) && !old(Foreign(View())) ==>
                && Fit(View()) && Stored(View()) == old(Stored(View()))
                && login == if Readable(Stored(View())) then Ok(Shown(Stored(View()).contents, id))
                            else Err(Closed(Stored(View())))
      ensures old(DurableOk(View())) && old(Foreign(View())) ==>
                && View() == old(View())
                && login == if cachedContents.Some? then Ok(Shown(cachedContents.value, id)) else Err(WrongPassphrase)
    {
      var read := ReadContents();
      if read.Err? {
        return Err(read.error);
      }
      if id in read.value && !read.value[id].deleted {
        return Ok(read.value[id].data);
      }
      login := Ok(None);
    }

    method ApplyRemote(records: seq<LocalRecord>, env: Env) returns (out: Outcome)
      requires KeyHeld(View())
      modifies this`local, this`cachedContents
      ensures KeyHeld(View()) && (View(), out) == Do(old(View()), ApplyRemoteOp(records), env)
      ensures Refines(old(View()), ApplyRemoteOp(records), View(), out)
    {
      StepRefines(View(), ApplyRemoteOp(records), env);
      hide Refines, Stored, Fit, DurableOk, Foreign;
      var read := ReadContents();
      if read.Err? {
        return Failed(read.error);
      }
      var contents := read.value;
      ghost var s1 := View();
      for i := 0 to |records|
        invariant contents == PutAllRecords(read.value, records[..i])
        invariant View() == s1.(cached := Some(contents))
      {
        assert records[..i + 1][..i] == records[..i];
        contents := contents[records[i].id := records[i]];
        cachedContents := Some(contents);
      }
      assert records[..|records|] == records;
      out := WriteContents(contents, env);
    }

    method MarkRecordsSynced(ids: seq<Id>, modified: int, env: Env) returns (out: Outcome)
      requires KeyHeld(View())
      modifies this`local, this`cachedContents
      ensures KeyHeld(View()) && (View(), out) == Do(old(View()), MarkSyncedOp(ids, modified), env)
      ensures Refines(old(View()), MarkSyncedOp(ids, modified), View(), out)
    {
      StepRefines(View(), MarkSyncedOp(ids, modified), env);
      hide Refines, Stored, Fit, DurableOk, Foreign, SealedStore.ReadContents, SealedStore.WriteContents,
           MarkSynced, IdsOf, SealedStore.RequireKey, KeyHeld;
      var read := ReadContents();
      if read.Err? {
        return Failed(read.error);
      }
      var contents := read.value;
      ghost var s1 := View();
      NoneMarked(read.value, ids, modified);
      for i := 0 to |ids|
        invariant contents == MarkSynced(read.value, IdsOf(ids[..i]), modified)
        invariant View() == s1.(cached := Some(contents))
      {
        OneMoreMarked(read.value, ids, i, modified);
        if ids[i] in contents {
          contents := contents[ids[i] := contents[ids[i]].(dirty := false, syncedAt := Some(modified))];
          cachedContents := Some(contents);
        }
      }
      assert ids[..|ids|] == ids;
      out := WriteContents(contents, env);
    }

    method PurgeRecords(ids: seq<Id>, env: Env) returns (out: Outcome)
      requires KeyHeld(View())
      modifies this`local, this`cachedContents
      ensures KeyHeld(View()) && (View(), out) == Do(old(View()), PurgeOp(ids), env)
      ensures Refines(old(View()), PurgeOp(ids), View(), out)
    {
      StepRefines(View(), PurgeOp(ids), env);
      hide Refines, Stored, Fit, DurableOk, Foreign;
      if |ids| == 0 {
        return Done;
      }
      var read := ReadContents();
      if read.Err? {
        return Failed(read.error);
      }
      var contents := read.value;
      ghost var s1 := View();
      for i := 0 to |ids|
        invariant contents == Purge(read.value, IdsOf(ids[..i]))
        invariant View() == s1.(cached := Some(contents))
      {
        assert IdsOf(ids[..i + 1]) == IdsOf(ids[..i]) + {ids[i]};
        contents := contents - {ids[i]};
        cachedContents := Some(contents);
      }
      assert ids[..|ids|] == ids;
      out := WriteContents(contents, env);
    }

    // ------------------------------------------------------- change of protection

    /** The current passphrase, where there is one. */
    method Admit(current: string, env: Env) returns (out: Outcome, left: Env)
      requires KeyHeld(View())
      modifies this`session, this`cachedContents
      ensures KeyHeld(View()) && (View(), out, left) == SealedStore.Admit(old(View()), current, env)
    {
      hide Refines, Stored, Fit, SealedStore.ChangeContents, SealedStore.WriteTokens, SealedStore.SetProtection;
      left := env;
      if local.meta.None? {
        return Failed(NoVaultYet), left;
      }
      out := Done;
      if local.meta.value.kdf.Some? {
        if current == "" {
          return Failed(CurrentRequired), left;
        }
        out := Unlock(current, env);
        if env.writes > 0 {
          left := env.(writes := env.writes - 1);
        }
      }
    }

    /** The three reads, which the code starts together. */
    method ReadAll() returns (held: Result<(Contents, Option<Tokens>, SyncState), VaultError>)
      requires KeyHeld(View())
      modifies this`cachedContents
      ensures KeyHeld(View()) && (View(), held) == SealedStore.ReadAll(old(View()))
    {
      hide Stored, Fit, SealedStore.ReadContents, SealedStore.ReadTokens, SealedStore.ReadSyncState;
      var contents := ReadContents();
      var tokens := ReadTokens();
      var sync := ReadSyncState();
      if contents.Err? {
        return Err(contents.error);
      }
      if tokens.Err? {
        return Err(tokens.error);
      }
      if sync.Err? {
        return Err(sync.error);
      }
      held := Ok((contents.value, tokens.value, sync.value));
    }

    /**
     * `setProtection`. Wherever it is broken off the durable blobs are all under
     * the old key; unbroken, from fit memory, it is the plain vault's change.
     */
    method SetProtection(next: string, iterations: nat, current: string, env: Env) returns (out: Outcome)
      requires KeyHeld(View())
      modifies this
      ensures KeyHeld(View())
      ensures (View(), out) == Do(old(View()), PlainVault.SetProtection(next, iterations, current), env)
      ensures Refines(old(View()), PlainVault.SetProtection(next, iterations, current), View(), out)
      ensures old(DurableOk(View())) ==> DurableOk(View()) && (Broke(out) ==> local == old(local))
    {
      ghost var op := PlainVault.SetProtection(next, iterations, current);
      StepRefines(View(), op, env);
      DoKeepsKeyHeld(View(), op, env);
      if DurableOk(View()) { SetProtectionKeepsDurable(View(), next, iterations, current, env); }
      hide Refines, Stored, Fit, DurableOk, Foreign, KeyHeld, SealedStore.Admit, SealedStore.ReadAll,
           SealedStore.Reseal;
      var left;
      out, left := Admit(current, env);
      if out != Done {
        return;
      }
      var held := ReadAll();
      if held.Err? {
        return Failed(held.error);
      }
      var key: Key;
      if next != "" {
        if iterations < MIN_ITERATIONS {
          return Failed(TooFewIterations);
        }
        key := Derived(next, env.salt, iterations);
      } else {
        var got := GetOrCreateDeviceKey(left);
        if got.Err? {
          return Failed(got.error);
        }
        key := got.value;
      }
      out := Reseal(key, held.value.0, held.value.1, held.value.2, left);
    }

    /** The writes of a change of protection. */
    method Reseal(key: Key, contents: Contents, tokens: Option<Tokens>, sync: SyncState, env: Env)
      returns (out: Outcome)
      modifies this`local, this`session, this`cachedContents
      ensures (View(), out) == SealedStore.Reseal(old(View()), key, contents, tokens, sync, env)
    {
      var left := env.writes;
      if left == 0 {
        out := BreakOff(env);
        return;
      }
      left := left - 1;
      session := if key.DeviceKey? then None else Some(key);
      var values := local.(meta := Some(MetaOf(key)),
                           verifier := Some(Sealed(key, VerifierSlot, ())),
                           vault := Some(Sealed(key, VaultSlot, contents)),
                           sync := Some(Sealed(key, VaultSlot, sync)));
      if tokens.Some? {
        values := values.(tokens := Some(Sealed(key, TokensSlot, tokens.value)));
      } else {
        if left == 0 {
          out := BreakOff(env);
          return;
        }
        left := left - 1;
        local := local.(tokens := None);
        values := values.(tokens := None);
      }
      if left == 0 {
        out := BreakOff(env);
        return;
      }
      local := values;
      cachedContents := Some(contents);
      out := Done;
    }
  }
}
