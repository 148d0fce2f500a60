/**
 * The records that travel between a vault and the `passwords` collection.
 *
 * Server timestamps are integers counting hundredths of a second (the server
 * sends seconds with two decimals); authority timestamps are milliseconds.
 * Encryption is the identity on content, except that a stored object may be
 * unreadable for this client.
 */
module Records {
  import opened Wrappers

  datatype Id = Id(guid: string)

  const MILLIS_PER_TICK := 10

  datatype Login = Login(
    hostname: string,
    username: string,
    password: string,
    timeCreated: Option<int>,
    timePasswordChanged: Option<int>,
    timeLastUsed: Option<int>,
    timesUsed: Option<int>)

  /** A record as the vault holds it; `data` is None for a tombstone. */
  datatype LocalRecord = LocalRecord(
    id: Id,
    data: Option<Login>,
    deleted: bool,
    authorityTime: int,
    syncedAt: Option<int>,
    dirty: bool)

  /** A record as read, decrypted, from the server. */
  datatype RemoteRecord = RemoteRecord(
    id: Id,
    data: Option<Login>,
    deleted: bool,
    modified: int,
    authorityTime: int)

  /** The content of a stored object, as far as this client can tell. */
  datatype Payload = Live(login: Login) | Tombstone | Unreadable

  /** A Basic Storage Object on the server. */
  datatype Bso = Bso(payload: Payload, modified: int)

  function Get<K, V>(m: map<K, V>, k: K): Option<V> {
    if k in m then Some(m[k]) else None
  }

  // ------------------------------------------------------- conflict authority

  function OrElse(value: Option<int>, otherwise: int): int {
    if value.Some? then value.value else otherwise
  }

  function PasswordAuthorityTime(login: Login): int {
    OrElse(login.timePasswordChanged, OrElse(login.timeCreated, OrElse(login.timeLastUsed, 0)))
  }

  /** A new password value moves the conflict authority forward. */
  function ChangePassword(login: Login, password: string, now: int): (changed: Login)
    ensures PasswordAuthorityTime(changed) == now
  {
    login.(password := password, timePasswordChanged := Some(now), timeLastUsed := Some(now))
  }

  /** A fill bumps the usage counters only. */
  function MarkPasswordUsed(login: Login, now: int): (used: Login)
  {
    login.(timeLastUsed := Some(now), timesUsed := Some(OrElse(login.timesUsed, 0) + 1))
  }

  /** The first of the three times that there is, or zero. */
  lemma AuthorityIsTheFirstTime(login: Login)
    ensures login.timePasswordChanged.Some? ==> Some(PasswordAuthorityTime(login)) == login.timePasswordChanged
    ensures login.timePasswordChanged.None? && login.timeCreated.Some? ==>
              Some(PasswordAuthorityTime(login)) == login.timeCreated
    ensures login.timePasswordChanged.None? && login.timeCreated.None? && login.timeLastUsed.Some? ==>
              Some(PasswordAuthorityTime(login)) == login.timeLastUsed
    ensures login.timePasswordChanged == login.timeCreated == login.timeLastUsed == None ==>
              PasswordAuthorityTime(login) == 0
  {
  }

  /**
   * A fill keeps the conflict authority exactly when the login carries one of
   * the two timestamps that rank before the time of last use; a login without
   * either gets the time of the fill as its authority.
   */
  lemma UseKeepsAuthority(login: Login, now: int)
    requires now != PasswordAuthorityTime(login)
    ensures PasswordAuthorityTime(MarkPasswordUsed(login, now)) == PasswordAuthorityTime(login)
       <==> login.timePasswordChanged.Some? || login.timeCreated.Some?
  {
  }

  // ------------------------------------------------------------ wire exchange

  /** Decrypt and classify one stored object; None when it must be skipped. */
  function Decode(id: Id, bso: Bso): Option<RemoteRecord> {
    match bso.payload
    case Unreadable => None
    case Tombstone => Some(RemoteRecord(id, None, true, bso.modified, bso.modified * MILLIS_PER_TICK))
    case Live(login) => Some(RemoteRecord(id, Some(login), false, bso.modified, PasswordAuthorityTime(login)))
  }

  /** What an upload of a local record puts on the server. */
  function Encode(record: LocalRecord): Payload {
    if record.deleted || record.data.None? then Tombstone else Live(record.data.value)
  }

  /** The vault's copy of a version the server won. */
  function FromRemote(remote: RemoteRecord): LocalRecord {
    LocalRecord(remote.id, remote.data, remote.deleted, remote.authorityTime, Some(remote.modified), false)
  }

  /** `deleted` holds exactly when there is no data. */
  predicate WellFormed(record: LocalRecord) {
    record.deleted <==> record.data.None?
  }

  /**
   * An upload read back by any client is the record that was uploaded, clean.
   * Its authority time becomes what the reader computes: for a login that of its
   * timestamps, for a tombstone the server's time.
   */
  lemma UploadRoundTrip(record: LocalRecord, modified: int)
    requires WellFormed(record)
    ensures Decode(record.id, Bso(Encode(record), modified)).Some?
    ensures var back := FromRemote(Decode(record.id, Bso(Encode(record), modified)).value);
            var authority := if record.deleted then modified * 10
                             else PasswordAuthorityTime(record.data.value);
            back == record.(authorityTime := authority, syncedAt := Some(modified), dirty := false)
  {
  }

  // ---------------------------------------------------------------- live view

  /** The logins a vault shows. */
  function LiveRecords(records: map<Id, LocalRecord>): map<Id, Login> {
    map id | id in records && !records[id].deleted && records[id].data.Some? :: records[id].data.value
  }

  /** The logins a collection holds, as far as this client can read them. */
  function LiveObjects(objects: map<Id, Bso>): map<Id, Login> {
    map id | id in objects && objects[id].payload.Live? :: objects[id].payload.login
  }

  // -------------------------------------------------------------- local edits

  /** What the user, or a fill, can do to one record of the vault. */
  datatype Edit =
    | Add(login: Login)
    | Update(password: string, now: int)
    | Patch(patched: Login)
    | Touch(at: int)
    | Delete(deletedAt: int)

  /** The records after an edit; an edit of a missing or deleted record changes nothing. */
  function ApplyEdit(records: map<Id, LocalRecord>, id: Id, edit: Edit): map<Id, LocalRecord> {
    match edit
    case Add(login) =>
      records[id := LocalRecord(id, Some(login), false, PasswordAuthorityTime(login), None, true)]
    case Update(password, now) =>
      if id in records && records[id].data.Some? then
        var updated := ChangePassword(records[id].data.value, password, now);
        records[id := records[id].(data := Some(updated), authorityTime := PasswordAuthorityTime(updated),
                                   dirty := true)]
      else records
    case Patch(patched) =>
      if id in records && records[id].data.Some? then
        records[id := records[id].(data := Some(patched), authorityTime := PasswordAuthorityTime(patched),
                                   dirty := true)]
      else records
    case Touch(at) =>
      if id in records && records[id].data.Some? then
        records[id := records[id].(data := Some(MarkPasswordUsed(records[id].data.value, at)), dirty := true)]
      else records
    case Delete(deletedAt) =>
      if id in records then
        records[id := LocalRecord(id, None, true, deletedAt, records[id].syncedAt, true)]
      else records
  }

  /** An edit touches one record, leaves it marked for upload, and keeps every record well formed. */
  lemma EditIsLocal(records: map<Id, LocalRecord>, id: Id, edit: Edit)
    requires forall k :: k in records ==> WellFormed(records[k])
    ensures var after := ApplyEdit(records, id, edit);
            && (forall k :: k in after ==> WellFormed(after[k]))
            && (forall k :: k in after && k != id ==> k in records && after[k] == records[k])
            && (forall k :: k in records ==> k in after)
            && (after == records || (id in after && after[id].dirty))
  {
  }

  /**
   * What a vault shows after an edit. A login that is not shown can be added, and
   * the other edits of it show nothing new.
   */
  lemma EditShows(records: map<Id, LocalRecord>, id: Id, edit: Edit)
    requires forall k :: k in records ==> WellFormed(records[k])
    ensures var before, after := LiveRecords(records), LiveRecords(ApplyEdit(records, id, edit));
            match edit
            case Add(login) => after == before[id := login]
            case Update(password, now) =>
              if id !in before then after == before
              else
                var login := before[id];
                after == before[id := Login(login.hostname, login.username, password, login.timeCreated, Some(now),
                                            Some(now), login.timesUsed)]
            case Patch(patched) => after == if id in before then before[id := patched] else before
            case Touch(at) =>
              if id !in before then after == before
              else
                var login := before[id];
                var times := if login.timesUsed.Some? then login.timesUsed.value + 1 else 1;
                after == before[id := Login(login.hostname, login.username, login.password, login.timeCreated,
                                            login.timePasswordChanged, Some(at), Some(times))]
            case Delete(_) => after == before - {id}
  {
  }

  /** What an edit leaves beside the login: the authority it will contend with, and the version it was made on. */
  lemma EditContendsWith(records: map<Id, LocalRecord>, id: Id, edit: Edit)
    requires id in ApplyEdit(records, id, edit) && ApplyEdit(records, id, edit) != records
    ensures var after := ApplyEdit(records, id, edit)[id];
            && after.dirty
            && (match edit
                case Add(login) => after.authorityTime == PasswordAuthorityTime(login)
                case Update(_, now) => after.authorityTime == now
                case Patch(patched) => after.authorityTime == PasswordAuthorityTime(patched)
                case Touch(_) => id in records && after.authorityTime == records[id].authorityTime
                case Delete(at) => after.authorityTime == at && after.deleted)
            && (if edit.Add? then after.syncedAt.None? else id in records && after.syncedAt == records[id].syncedAt)
  {
  }
}
