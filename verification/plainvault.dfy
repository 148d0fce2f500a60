/**
 * The vault as its user sees it: one plain map of records with tokens and sync
 * state beside it, behind a device key or a passphrase. The class in the module
 * VaultStorage, with its sealed blobs, keys and cache, refines this.
 */
module PlainVault {
  import opened Wrappers
  import opened Records
  import opened Reconciliation
  import opened Protocol

  type Contents = map<Id, LocalRecord>

  datatype Tokens = Tokens(uid: string, refreshToken: string, kSync: string)

  datatype SyncState = SyncState(
    lastSyncAt: Option<int>,
    lastSyncError: Option<string>,
    marks: map<string, Option<int>>)

  const EMPTY_SYNC_STATE := SyncState(None, None, map[])

  datatype VaultError =
    | NoVaultYet | AlreadyExists | VaultLocked | WrongPassphrase | NotByPassphrase
    | CurrentRequired | TooFewIterations | NoSuchPassword | StorageFailed | KeyNotKept | VerifierMissing

  /** What opens the vault. `open` tells whether the session has the passphrase's key. */
  datatype Protection = ByDevice | ByPassphrase(passphrase: string, open: bool)

  datatype Vault = NoVault | Vault(protection: Protection, contents: Contents, tokens: Option<Tokens>, sync: SyncState)

  const MIN_ITERATIONS := 100_000

  datatype Op =
    | Create(passphrase: string, iterations: nat)
    | Lock
    | Unlock(attempt: string)
    | SetProtection(next: string, nextIterations: nat, current: string)
    | EditOp(id: Id, edit: Edit)
    | ApplyRemoteOp(records: seq<LocalRecord>)
    | MarkSyncedOp(ids: seq<Id>, modified: int)
    | PurgeOp(purged: seq<Id>)
    | WriteTokens(tokens: Tokens)
    | ClearTokens
    | WriteSync(sync: SyncState)
    | Reset
    | WorkerDies
    | BrowserRestarts

  predicate Readable(v: Vault) {
    v.Vault? && (v.protection.ByDevice? || v.protection.open)
  }

  /** Why a vault cannot be read. */
  function Closed(v: Vault): VaultError {
    if v.NoVault? then NoVaultYet else VaultLocked
  }

  function ProtectBy(passphrase: string): Protection {
    if passphrase == "" then ByDevice else ByPassphrase(passphrase, true)
  }

  /** The same vault with its passphrase given. */
  function Opened(v: Vault): Vault {
    if v.Vault? && v.protection.ByPassphrase? then v.(protection := v.protection.(open := true)) else v
  }

  function PutAllRecords(contents: Contents, records: seq<LocalRecord>): Contents {
    if records == [] then contents
    else PutAllRecords(contents, records[..|records| - 1])[records[|records| - 1].id := records[|records| - 1]]
  }

  function IdsOf(ids: seq<Id>): set<Id> {
    set id | id in ids
  }

  /** Whether an edit throws: the two that name a password that is not there. */
  predicate EditFails(contents: Contents, id: Id, edit: Edit) {
    (edit.Update? || edit.Patch?) && !(id in contents && contents[id].data.Some?)
  }

  /** Whether an edit returns without writing: the two that skip a password that is not there. */
  predicate EditSkips(contents: Contents, id: Id, edit: Edit) {
    (edit.Touch? && !(id in contents && contents[id].data.Some?)) || (edit.Delete? && id !in contents)
  }

  /** One operation on the plain vault, with the error it throws, if any. */
  function Perform(v: Vault, op: Op): (Vault, Option<VaultError>) {
    match op
    case Create(passphrase, iterations) =>
      if v.Vault? then (v, Some(AlreadyExists))
      else if passphrase != "" && iterations < MIN_ITERATIONS then (v, Some(TooFewIterations))
      else (Vault(ProtectBy(passphrase), map[], None, EMPTY_SYNC_STATE), None)
    case Lock =>
      (if v.Vault? && v.protection.ByPassphrase? then v.(protection := v.protection.(open := false)) else v, None)
    case Unlock(attempt) =>
      if v.NoVault? then (v, Some(NoVaultYet))
      else if v.protection.ByDevice? then (v, Some(NotByPassphrase))
      else if attempt != v.protection.passphrase then (v, Some(WrongPassphrase))
      else (v.(protection := v.protection.(open := true)), None)
    case SetProtection(next, iterations, current) =>
      if v.NoVault? then (v, Some(NoVaultYet))
      else if v.protection.ByPassphrase? && current == "" then (v, Some(CurrentRequired))
      else if v.protection.ByPassphrase? && current != v.protection.passphrase then (v, Some(WrongPassphrase))
      else if next != "" && iterations < MIN_ITERATIONS then
        (if v.protection.ByPassphrase? then v.(protection := v.protection.(open := true)) else v,
         Some(TooFewIterations))
      else (v.(protection := ProtectBy(next)), None)
    case EditOp(id, edit) =>
      if !Readable(v) then (v, Some(Closed(v)))
      else if EditFails(v.contents, id, edit) then (v, Some(NoSuchPassword))
      else (v.(contents := ApplyEdit(v.contents, id, edit)), None)
    case ApplyRemoteOp(records) =>
      if !Readable(v) then (v, Some(Closed(v))) else (v.(contents := PutAllRecords(v.contents, records)), None)
    case MarkSyncedOp(ids, modified) =>
      if !Readable(v) then (v, Some(Closed(v)))
      else (v.(contents := MarkSynced(v.contents, IdsOf(ids), modified)), None)
    case PurgeOp(purged) =>
      if purged == [] then (v, None)
      else if !Readable(v) then (v, Some(Closed(v)))
      else (v.(contents := Purge(v.contents, IdsOf(purged))), None)
    case WriteTokens(tokens) =>
      if !Readable(v) then (v, Some(Closed(v)))
      else (v.(tokens := Some(tokens), sync := v.sync.(lastSyncError := None)), None)
    case ClearTokens => (if v.Vault? then v.(tokens := None) else v, None)
    case WriteSync(sync) =>
      if !Readable(v) then (v, Some(Closed(v))) else (v.(sync := sync), None)
    case Reset => (NoVault, None)
    case WorkerDies => (v, None)
    case BrowserRestarts =>
      (if v.Vault? && v.protection.ByPassphrase? then v.(protection := v.protection.(open := false)) else v, None)
  }

  /** Reading: everything, or the reason why not. */
  function Read(v: Vault): Result<Contents, VaultError> {
    if Readable(v) then Ok(v.contents) else Err(Closed(v))
  }

  function RunOps(v: Vault, ops: seq<Op>): Vault
    decreases |ops|
  {
    if ops == [] then v else RunOps(Perform(v, ops[0]).0, ops[1..])
  }

  /** A passphrase is refused exactly when it is to be stretched by fewer than a hundred thousand rounds. */
  lemma WeakStretchingIsRefused(passphrase: string, iterations: nat, v: Vault, current: string)
    ensures Perform(NoVault, Create(passphrase, iterations)).1 == Some(TooFewIterations)
       <==> passphrase != "" && iterations < 100000
    ensures v.Vault? && v.protection.ByDevice? ==>
              (Perform(v, SetProtection(passphrase, iterations, current)).1 == Some(TooFewIterations)
               <==> passphrase != "" && iterations < 100000)
  {
  }

  // --------------------------------------------------------------- invariants

  /** Each record is filed under its own id, and `deleted` holds exactly when the data is null. */
  predicate Tidy(contents: Contents) {
    forall id :: id in contents ==> contents[id].id == id && WellFormed(contents[id])
  }

  lemma {:induction false} PutKeepsTidy(contents: Contents, records: seq<LocalRecord>)
    requires Tidy(contents) && forall r :: r in records ==> WellFormed(r)
    ensures Tidy(PutAllRecords(contents, records))
  {
    if records != [] {
      PutKeepsTidy(contents, records[..|records| - 1]);
    }
  }

  /** In every run of operations from nothing, `deleted` holds exactly when the data is null. */
  lemma {:induction false} TombstonesAreExact(v: Vault, ops: seq<Op>)
    requires v.Vault? ==> Tidy(v.contents)
    requires forall op :: op in ops && op.ApplyRemoteOp? ==> forall r :: r in op.records ==> WellFormed(r)
    ensures RunOps(v, ops).Vault? ==> Tidy(RunOps(v, ops).contents)
    decreases |ops|
  {
    if ops != [] {
      var op, v' := ops[0], Perform(v, ops[0]).0;
      assert op in ops;
      if v.Vault? {
        match op
        case ApplyRemoteOp(records) => PutKeepsTidy(v.contents, records);
        case EditOp(id, edit) => EditIsLocal(v.contents, id, edit);
        case _ =>
      }
      assert v'.Vault? ==> Tidy(v'.contents);
      TombstonesAreExact(v', ops[1..]);
    }
  }

  /** The operations that can open a locked vault: the right passphrase, or giving the vault up. */
  predicate Opens(v: Vault, op: Op)
    requires v.Vault? && v.protection.ByPassphrase?
  {
    match op
    case Unlock(attempt) => attempt == v.protection.passphrase
    case SetProtection(_, _, current) => current != "" && current == v.protection.passphrase
    case Reset => true
    case _ => false
  }

  /** One of them opens a locked vault, or ends it; no other operation touches its lock. */
  lemma OpensExactly(v: Vault, op: Op)
    requires v.Vault? && v.protection.ByPassphrase? && !v.protection.open
    ensures Opens(v, op) <==> !(Perform(v, op).0.Vault? && Perform(v, op).0.protection == v.protection)
    ensures Opens(v, op) && !op.Reset? ==> Read(Perform(v, op).0) == Ok(v.contents)
  {
  }

  /**
   * Between `lock` and the next use of the passphrase nothing can be read and
   * no record, token or mark can be written, whatever else is called.
   */
  lemma {:induction false} LockedMeansClosed(v: Vault, ops: seq<Op>)
    requires v.Vault? && v.protection.ByPassphrase? && !v.protection.open
    requires forall op :: op in ops ==> !Opens(v, op)
    ensures var after := RunOps(v, ops);
            && Read(after) == Err(VaultLocked)
            && after.Vault? && after.contents == v.contents && after.sync == v.sync && after.protection == v.protection
            && (after.tokens.Some? ==> after.tokens == v.tokens)
    decreases |ops|
  {
    if ops != [] {
      assert ops[0] in ops;
      var v' := Perform(v, ops[0]).0;
      assert v'.protection == v.protection;
      forall op | op in ops[1..] ensures !Opens(v', op) {
        assert op in ops;
      }
      LockedMeansClosed(v', ops[1..]);
    }
  }

  /** Moving between the protections, in any order, never changes what is stored. */
  lemma {:induction false} ProtectionKeepsData(v: Vault, ops: seq<Op>)
    requires v.Vault?
    requires forall op :: op in ops ==>
               op.SetProtection? || op.Lock? || op.Unlock? || op.WorkerDies? || op.BrowserRestarts?
    ensures var after := RunOps(v, ops);
            after.Vault? && after.contents == v.contents && after.tokens == v.tokens && after.sync == v.sync
    decreases |ops|
  {
    if ops != [] {
      assert ops[0] in ops;
      ProtectionKeepsData(Perform(v, ops[0]).0, ops[1..]);
    }
  }
}
