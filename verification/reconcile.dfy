/** Two-way reconciliation of a vault against the records a pull returned. */
module Reconciliation {
  import opened Wrappers
  import opened Records

  datatype Resolution = KeepLocal | TakeRemote

  datatype Conflict = Conflict(id: Id, resolution: Resolution)

  datatype Plan = Plan(
    applyLocally: seq<RemoteRecord>,
    uploadRemotely: seq<LocalRecord>,
    conflicts: seq<Conflict>,
    ignoredTombstones: seq<Id>)

  function DefaultResolve(local: LocalRecord, remote: RemoteRecord): Resolution {
    if local.authorityTime != remote.authorityTime then
      if local.authorityTime > remote.authorityTime then KeepLocal else TakeRemote
    else if local.deleted != remote.deleted then
      if local.deleted then KeepLocal else TakeRemote
    else TakeRemote
  }

  // ---------------------------------------------------- per-id specification

  /** The (authority, deleted) pairs, compared lexicographically. */
  predicate Outranks(authority: int, deleted: bool, authority': int, deleted': bool) {
    authority > authority' || (authority == authority' && deleted && !deleted')
  }

  datatype Decision = Apply | Upload | Leave | IgnoreTombstone

  /** What must happen to one id, given both sides; independent of any list. */
  function Decide(local: Option<LocalRecord>, remote: Option<RemoteRecord>): Decision {
    match (local, remote)
    case (None, None) => Leave
    case (Some(l), None) => if l.dirty then Upload else Leave
    case (None, Some(r)) => if r.deleted then IgnoreTombstone else Apply
    case (Some(l), Some(r)) =>
      if l.dirty then
        if Outranks(l.authorityTime, l.deleted, r.authorityTime, r.deleted) then Upload else Apply
      else if l.syncedAt.None? || r.modified > l.syncedAt.value then Apply
      else Leave
  }

  lemma ConflictGoesToTheHigherRank(local: LocalRecord, remote: RemoteRecord)
    ensures DefaultResolve(local, remote) == KeepLocal
       <==> Outranks(local.authorityTime, local.deleted, remote.authorityTime, remote.deleted)
  {
  }

  /** The vault after the winners were applied. */
  function Merge(records: map<Id, LocalRecord>, remote: map<Id, RemoteRecord>): map<Id, LocalRecord> {
    map id | id in records.Keys + remote.Keys
             && (id in records || Decide(None, Get(remote, id)) == Apply) ::
      if Decide(Get(records, id), Get(remote, id)) == Apply && id in remote then FromRemote(remote[id])
      else if id in records then records[id]
      else FromRemote(remote[id])
  }

  /** The records to upload. */
  function Uploads(records: map<Id, LocalRecord>, remote: map<Id, RemoteRecord>): map<Id, LocalRecord> {
    map id | id in records && Decide(Some(records[id]), Get(remote, id)) == Upload :: records[id]
  }

  /** The remote versions that win. */
  function Applies(records: map<Id, LocalRecord>, remote: map<Id, RemoteRecord>): map<Id, RemoteRecord> {
    map id | id in remote && Decide(Get(records, id), Some(remote[id])) == Apply :: remote[id]
  }

  /** `applyRemote`, by id. */
  function Overwritten(records: map<Id, LocalRecord>, applied: map<Id, RemoteRecord>): map<Id, LocalRecord> {
    records + map id | id in applied :: FromRemote(applied[id])
  }

  /** Planning and applying at once is the merge. */
  lemma MergeIsOverwritten(records: map<Id, LocalRecord>, remote: map<Id, RemoteRecord>)
    ensures Overwritten(records, Applies(records, remote)) == Merge(records, remote)
  {
  }

  // ------------------------------------------------------- list specification

  predicate UniqueLocal(local: seq<LocalRecord>) {
    forall i, j :: 0 <= i < j < |local| ==> local[i].id != local[j].id
  }

  predicate UniqueRemote(remote: seq<RemoteRecord>) {
    forall i, j :: 0 <= i < j < |remote| ==> remote[i].id != remote[j].id
  }

  /** `new Map(local.map(...))`: the last record of an id wins. */
  function IndexLocal(local: seq<LocalRecord>): map<Id, LocalRecord> {
    if local == [] then map[]
    else IndexLocal(local[..|local| - 1])[local[|local| - 1].id := local[|local| - 1]]
  }

  function IndexRemote(remote: seq<RemoteRecord>): map<Id, RemoteRecord> {
    if remote == [] then map[]
    else IndexRemote(remote[..|remote| - 1])[remote[|remote| - 1].id := remote[|remote| - 1]]
  }

  function ApplyList(byId: map<Id, LocalRecord>, remote: seq<RemoteRecord>): seq<RemoteRecord> {
    if remote == [] then []
    else
      var last := remote[|remote| - 1];
      var before := ApplyList(byId, remote[..|remote| - 1]);
      if Decide(Get(byId, last.id), Some(last)) == Apply then before + [last] else before
  }

  function ConflictUploads(byId: map<Id, LocalRecord>, remote: seq<RemoteRecord>): seq<LocalRecord> {
    if remote == [] then []
    else
      var last := remote[|remote| - 1];
      var before := ConflictUploads(byId, remote[..|remote| - 1]);
      if last.id in byId && Decide(Get(byId, last.id), Some(last)) == Upload then before + [byId[last.id]] else before
  }

  function PlainUploads(local: seq<LocalRecord>, remoteIds: set<Id>): seq<LocalRecord> {
    if local == [] then []
    else
      var last := local[|local| - 1];
      var before := PlainUploads(local[..|local| - 1], remoteIds);
      if last.dirty && last.id !in remoteIds then before + [last] else before
  }

  function ConflictList(byId: map<Id, LocalRecord>, remote: seq<RemoteRecord>): seq<Conflict> {
    if remote == [] then []
    else
      var last := remote[|remote| - 1];
      var before := ConflictList(byId, remote[..|remote| - 1]);
      if last.id in byId && byId[last.id].dirty then
        before + [Conflict(last.id, if Decide(Get(byId, last.id), Some(last)) == Upload then KeepLocal else TakeRemote)]
      else before
  }

  function IgnoredList(byId: map<Id, LocalRecord>, remote: seq<RemoteRecord>): seq<Id> {
    if remote == [] then []
    else
      var last := remote[|remote| - 1];
      var before := IgnoredList(byId, remote[..|remote| - 1]);
      if last.id !in byId && last.deleted then before + [last.id] else before
  }

  /** The two loops of the source. */
  method Reconcile(local: seq<LocalRecord>, remote: seq<RemoteRecord>) returns (plan: Plan)
    ensures plan.applyLocally == ApplyList(IndexLocal(local), remote)
    ensures plan.uploadRemotely
        == ConflictUploads(IndexLocal(local), remote) + PlainUploads(local, IndexRemote(remote).Keys)
    ensures plan.conflicts == ConflictList(IndexLocal(local), remote)
    ensures plan.ignoredTombstones == IgnoredList(IndexLocal(local), remote)
  {
    var localById := IndexLocal(local);
    var remoteById := IndexRemote(remote);
    var applyLocally, uploadRemotely, conflicts, ignoredTombstones := [], [], [], [];
    for i := 0 to |remote|
      invariant applyLocally == ApplyList(localById, remote[..i])
      invariant uploadRemotely == ConflictUploads(localById, remote[..i])
      invariant conflicts == ConflictList(localById, remote[..i])
      invariant ignoredTombstones == IgnoredList(localById, remote[..i])
    {
      var remoteRecord := remote[i];
      assert remote[..i + 1][..i] == remote[..i];
      if remoteRecord.id !in localById {
        if remoteRecord.deleted {
          ignoredTombstones := ignoredTombstones + [remoteRecord.id];
        } else {
          applyLocally := applyLocally + [remoteRecord];
        }
      } else {
        var localRecord := localById[remoteRecord.id];
        if !localRecord.dirty {
          if localRecord.syncedAt.None? || remoteRecord.modified > localRecord.syncedAt.value {
            applyLocally := applyLocally + [remoteRecord];
          }
        } else {
          var resolution := DefaultResolve(localRecord, remoteRecord);
          conflicts := conflicts + [Conflict(remoteRecord.id, resolution)];
          if resolution == KeepLocal {
            uploadRemotely := uploadRemotely + [localRecord];
          } else {
            applyLocally := applyLocally + [remoteRecord];
          }
        }
      }
    }
    assert remote[..|remote|] == remote;
    ghost var conflictUploads := uploadRemotely;
    for i := 0 to |local|
      invariant uploadRemotely == conflictUploads + PlainUploads(local[..i], remoteById.Keys)
    {
      assert local[..i + 1][..i] == local[..i];
      if local[i].dirty && local[i].id !in remoteById {
        uploadRemotely := uploadRemotely + [local[i]];
      }
    }
    assert local[..|local|] == local;
    plan := Plan(applyLocally, uploadRemotely, conflicts, ignoredTombstones);
  }

  // --------------------------------------------------------------- properties

  lemma {:induction false} IndexLocalAt(local: seq<LocalRecord>, i: nat)
    requires UniqueLocal(local) && i < |local|
    ensures local[i].id in IndexLocal(local) && IndexLocal(local)[local[i].id] == local[i]
  {
    if i < |local| - 1 {
      IndexLocalAt(local[..|local| - 1], i);
    }
  }

  lemma {:induction false} IndexLocalOnly(local: seq<LocalRecord>, id: Id)
    requires id in IndexLocal(local)
    ensures exists i :: 0 <= i < |local| && local[i].id == id && IndexLocal(local)[id] == local[i]
  {
    var n := |local| - 1;
    if local[n].id != id {
      IndexLocalOnly(local[..n], id);
      var i :| 0 <= i < n && local[..n][i].id == id && IndexLocal(local[..n])[id] == local[..n][i];
      assert local[i].id == id;
    }
  }

  lemma {:induction false} IndexRemoteAt(remote: seq<RemoteRecord>, i: nat)
    requires UniqueRemote(remote) && i < |remote|
    ensures remote[i].id in IndexRemote(remote) && IndexRemote(remote)[remote[i].id] == remote[i]
  {
    if i < |remote| - 1 {
      IndexRemoteAt(remote[..|remote| - 1], i);
    }
  }

  lemma {:induction false} IndexRemoteOnly(remote: seq<RemoteRecord>, id: Id)
    requires id in IndexRemote(remote)
    ensures exists i :: 0 <= i < |remote| && remote[i].id == id && IndexRemote(remote)[id] == remote[i]
  {
    var n := |remote| - 1;
    if remote[n].id != id {
      IndexRemoteOnly(remote[..n], id);
      var i :| 0 <= i < n && remote[..n][i].id == id && IndexRemote(remote[..n])[id] == remote[..n][i];
      assert remote[i].id == id;
    }
  }

  lemma {:induction false} InApplyList(byId: map<Id, LocalRecord>, remote: seq<RemoteRecord>, r: RemoteRecord)
    ensures r in ApplyList(byId, remote) <==> r in remote && Decide(Get(byId, r.id), Some(r)) == Apply
  {
    if remote != [] {
      InApplyList(byId, remote[..|remote| - 1], r);
      assert remote == remote[..|remote| - 1] + [remote[|remote| - 1]];
    }
  }

  lemma {:induction false} InConflictUploads(byId: map<Id, LocalRecord>, remote: seq<RemoteRecord>, l: LocalRecord)
    ensures l in ConflictUploads(byId, remote)
       <==> exists r :: r in remote && r.id in byId && byId[r.id] == l && Decide(Some(l), Some(r)) == Upload
  {
    if remote != [] {
      InConflictUploads(byId, remote[..|remote| - 1], l);
      assert remote == remote[..|remote| - 1] + [remote[|remote| - 1]];
    }
  }

  lemma {:induction false} InPlainUploads(local: seq<LocalRecord>, remoteIds: set<Id>, l: LocalRecord)
    ensures l in PlainUploads(local, remoteIds) <==> l in local && l.dirty && l.id !in remoteIds
  {
    if local != [] {
      InPlainUploads(local[..|local| - 1], remoteIds, l);
      assert local == local[..|local| - 1] + [local[|local| - 1]];
    }
  }

  lemma {:induction false} InIgnoredList(byId: map<Id, LocalRecord>, remote: seq<RemoteRecord>, id: Id)
    ensures id in IgnoredList(byId, remote) <==> id !in byId && exists r :: r in remote && r.id == id && r.deleted
  {
    if remote != [] {
      InIgnoredList(byId, remote[..|remote| - 1], id);
      assert remote == remote[..|remote| - 1] + [remote[|remote| - 1]];
    }
  }

  /** The conflicts are the ids changed on both sides, each decided by rank. */
  lemma {:induction false} ConflictsAreReported(byId: map<Id, LocalRecord>, remote: seq<RemoteRecord>, c: Conflict)
    ensures c in ConflictList(byId, remote)
       <==> c.id in byId && byId[c.id].dirty
            && exists r :: r in remote && r.id == c.id
                 && (c.resolution == KeepLocal <==> Outranks(byId[c.id].authorityTime, byId[c.id].deleted,
                                                             r.authorityTime, r.deleted))
  {
    if remote != [] {
      ConflictsAreReported(byId, remote[..|remote| - 1], c);
      assert remote == remote[..|remote| - 1] + [remote[|remote| - 1]];
    }
  }

  /** The uploads of the plan, as one list. */
  function UploadList(local: seq<LocalRecord>, remote: seq<RemoteRecord>): seq<LocalRecord> {
    ConflictUploads(IndexLocal(local), remote) + PlainUploads(local, IndexRemote(remote).Keys)
  }

  /**
   * The lists of the plan realise the per-id decisions: an id is applied,
   * uploaded or ignored exactly when its decision says so.
   */
  lemma PlanFollowsDecisions(local: seq<LocalRecord>, remote: seq<RemoteRecord>)
    requires UniqueLocal(local) && UniqueRemote(remote)
    ensures var byId, remoteById := IndexLocal(local), IndexRemote(remote);
            && (forall r :: r in ApplyList(byId, remote)
                  <==> r.id in remoteById && remoteById[r.id] == r && Decide(Get(byId, r.id), Some(r)) == Apply)
            && (forall l :: l in UploadList(local, remote)
                  <==> l.id in byId && byId[l.id] == l && Decide(Some(l), Get(remoteById, l.id)) == Upload)
            && (forall id :: id in IgnoredList(byId, remote)
                  <==> Decide(Get(byId, id), Get(remoteById, id)) == IgnoreTombstone)
  {
    var byId, remoteById := IndexLocal(local), IndexRemote(remote);
    forall r ensures r in remote <==> r.id in remoteById && remoteById[r.id] == r {
      if r in remote { var i :| 0 <= i < |remote| && remote[i] == r; IndexRemoteAt(remote, i); }
      if r.id in remoteById { IndexRemoteOnly(remote, r.id); }
    }
    forall l ensures l in local <==> l.id in byId && byId[l.id] == l {
      if l in local { var i :| 0 <= i < |local| && local[i] == l; IndexLocalAt(local, i); }
      if l.id in byId { IndexLocalOnly(local, l.id); }
    }
    forall r { InApplyList(byId, remote, r); }
    forall l ensures l in UploadList(local, remote)
                <==> l.id in byId && byId[l.id] == l && Decide(Some(l), Get(remoteById, l.id)) == Upload {
      UploadFollowsDecision(local, remote, l);
    }
    forall id ensures id in IgnoredList(byId, remote)
                <==> Decide(Get(byId, id), Get(remoteById, id)) == IgnoreTombstone {
      InIgnoredList(byId, remote, id);
      if id in remoteById { IndexRemoteOnly(remote, id); }
    }
  }

  lemma UploadFollowsDecision(local: seq<LocalRecord>, remote: seq<RemoteRecord>, l: LocalRecord)
    requires UniqueLocal(local) && UniqueRemote(remote)
    ensures l in UploadList(local, remote)
       <==> l.id in IndexLocal(local) && IndexLocal(local)[l.id] == l
            && Decide(Some(l), Get(IndexRemote(remote), l.id)) == Upload
  {
    var byId, remoteById := IndexLocal(local), IndexRemote(remote);
    InConflictUploads(byId, remote, l);
    InPlainUploads(local, remoteById.Keys, l);
    if l in ConflictUploads(byId, remote) {
      var r :| r in remote && r.id in byId && byId[r.id] == l && Decide(Some(l), Some(r)) == Upload;
      IndexLocalOnly(local, r.id);
      var i :| 0 <= i < |remote| && remote[i] == r;
      IndexRemoteAt(remote, i);
    } else if l in PlainUploads(local, remoteById.Keys) {
      var i :| 0 <= i < |local| && local[i] == l;
      IndexLocalAt(local, i);
    }
    if l.id in byId && byId[l.id] == l {
      IndexLocalOnly(local, l.id);
      if l.id in remoteById { IndexRemoteOnly(remote, l.id); }
    }
  }

  /**
   * The guarantees of the merge: nothing is both applied and uploaded, every
   * dirty record is uploaded or replaced by a winning remote version, no clean
   * record is uploaded, and no tombstone is applied to a vault that lacks it.
   */
  lemma ReconcileGuarantees(local: seq<LocalRecord>, remote: seq<RemoteRecord>)
    requires UniqueLocal(local) && UniqueRemote(remote)
    ensures var applied, uploaded := ApplyList(IndexLocal(local), remote), UploadList(local, remote);
            && (forall r, l :: r in applied && l in uploaded ==> r.id != l.id)
            && (forall l :: l in local && l.dirty && l !in uploaded ==>
                  exists r :: r in applied && r.id == l.id
                    && !Outranks(l.authorityTime, l.deleted, r.authorityTime, r.deleted))
            && (forall l :: l in uploaded ==> l in local && l.dirty)
            && (forall r :: r in applied && r.deleted ==> r.id in IndexLocal(local))
  {
    PlanFollowsDecisions(local, remote);
    var byId, remoteById := IndexLocal(local), IndexRemote(remote);
    var applied, uploaded := ApplyList(byId, remote), UploadList(local, remote);
    forall l | l in local && l.dirty && l !in uploaded
      ensures exists r :: r in applied && r.id == l.id
                && !Outranks(l.authorityTime, l.deleted, r.authorityTime, r.deleted)
    {
      var i :| 0 <= i < |local| && local[i] == l;
      IndexLocalAt(local, i);
      assert l.id in remoteById;
      IndexRemoteOnly(remote, l.id);
      assert remoteById[l.id] in applied;
    }
    forall l | l in uploaded ensures l in local && l.dirty {
      IndexLocalOnly(local, l.id);
    }
  }

  lemma {:induction false} ConflictUploadsUnique(byId: map<Id, LocalRecord>, remote: seq<RemoteRecord>)
    requires UniqueRemote(remote) && forall id :: id in byId ==> byId[id].id == id
    ensures UniqueLocal(ConflictUploads(byId, remote))
  {
    if remote != [] {
      var n := |remote| - 1;
      ConflictUploadsUnique(byId, remote[..n]);
      forall l | l in ConflictUploads(byId, remote[..n]) ensures l.id != remote[n].id {
        ConflictUploadIsRemote(byId, remote[..n], l);
        var i :| 0 <= i < n && remote[..n][i].id == l.id;
        assert remote[i].id == l.id;
      }
    }
  }

  lemma ConflictUploadIsRemote(byId: map<Id, LocalRecord>, remote: seq<RemoteRecord>, l: LocalRecord)
    requires l in ConflictUploads(byId, remote) && forall id :: id in byId ==> byId[id].id == id
    ensures exists i :: 0 <= i < |remote| && remote[i].id == l.id
  {
  }

  lemma {:induction false} PlainUploadsUnique(local: seq<LocalRecord>, remoteIds: set<Id>)
    requires UniqueLocal(local)
    ensures UniqueLocal(PlainUploads(local, remoteIds))
  {
    if local != [] {
      var n := |local| - 1;
      PlainUploadsUnique(local[..n], remoteIds);
      forall l | l in PlainUploads(local[..n], remoteIds) ensures l.id != local[n].id {
        InPlainUploads(local[..n], remoteIds, l);
        var i :| 0 <= i < n && local[..n][i] == l;
        assert local[i] == l;
      }
    }
  }

  /** No id is listed twice, among the applied or among the uploaded. */
  lemma EachIdIsListedOnce(local: seq<LocalRecord>, remote: seq<RemoteRecord>)
    requires UniqueLocal(local) && UniqueRemote(remote)
    ensures UniqueRemote(ApplyList(IndexLocal(local), remote)) && UniqueLocal(UploadList(local, remote))
  {
    var byId, remoteById := IndexLocal(local), IndexRemote(remote);
    ApplyListUnique(byId, remote);
    forall id | id in byId ensures byId[id].id == id { IndexLocalOnly(local, id); }
    ConflictUploadsUnique(byId, remote);
    PlainUploadsUnique(local, remoteById.Keys);
    forall l, k | l in ConflictUploads(byId, remote) && k in PlainUploads(local, remoteById.Keys) ensures l.id != k.id {
      InPlainUploads(local, remoteById.Keys, k);
      ConflictUploadIsRemote(byId, remote, l);
      var i :| 0 <= i < |remote| && remote[i].id == l.id;
      IndexRemoteAt(remote, i);
    }
  }

  /** `applyRemote`: overwrite the records by id, in order. */
  function Overwrite(records: map<Id, LocalRecord>, remote: seq<RemoteRecord>): map<Id, LocalRecord> {
    if remote == [] then records
    else Overwrite(records, remote[..|remote| - 1])[remote[|remote| - 1].id := FromRemote(remote[|remote| - 1])]
  }

  lemma {:induction false} OverwriteAt(records: map<Id, LocalRecord>, remote: seq<RemoteRecord>, id: Id)
    requires UniqueRemote(remote)
    ensures var after := Overwrite(records, remote);
            && (forall r :: r in remote && r.id == id ==> id in after && after[id] == FromRemote(r))
            && ((forall r :: r in remote ==> r.id != id) ==> Get(after, id) == Get(records, id))
  {
    if remote != [] {
      var n := |remote| - 1;
      OverwriteAt(records, remote[..n], id);
      assert remote == remote[..n] + [remote[n]];
      forall r | r in remote && r.id == id ensures r in remote[..n] || r == remote[n] {}
    }
  }

  lemma {:induction false} ApplyListUnique(byId: map<Id, LocalRecord>, remote: seq<RemoteRecord>)
    requires UniqueRemote(remote)
    ensures UniqueRemote(ApplyList(byId, remote))
  {
    if remote != [] {
      var n := |remote| - 1;
      ApplyListUnique(byId, remote[..n]);
      forall r | r in ApplyList(byId, remote[..n]) ensures r.id != remote[n].id {
        InApplyList(byId, remote[..n], r);
      }
    }
  }

  /** Applying the plan's list to the vault is the per-id merge. */
  lemma ApplyingThePlanIsMerge(local: seq<LocalRecord>, remote: seq<RemoteRecord>)
    requires UniqueLocal(local) && UniqueRemote(remote)
    ensures Overwrite(IndexLocal(local), ApplyList(IndexLocal(local), remote))
         == Merge(IndexLocal(local), IndexRemote(remote))
  {
    var byId, remoteById := IndexLocal(local), IndexRemote(remote);
    var applied := ApplyList(byId, remote);
    ApplyListUnique(byId, remote);
    PlanFollowsDecisions(local, remote);
    forall id ensures Get(Overwrite(byId, applied), id) == Get(Merge(byId, remoteById), id) {
      OverwriteAt(byId, applied, id);
      if id in remoteById { IndexRemoteOnly(remote, id); }
      if id in remoteById && Decide(Get(byId, id), Some(remoteById[id])) == Apply {
        assert remoteById[id] in applied;
      } else {
        assert forall r :: r in applied ==> r.id != id;
      }
    }
    MapsEqual(Overwrite(byId, applied), Merge(byId, remoteById));
  }

  lemma MapsEqual<K, V>(a: map<K, V>, b: map<K, V>)
    requires forall k :: Get(a, k) == Get(b, k)
    ensures a == b
  {
    forall k ensures k in a <==> k in b {
      assert Get(a, k) == Get(b, k);
    }
    forall k | k in a ensures a[k] == b[k] {
      assert Get(a, k) == Get(b, k);
    }
  }

  // ---------------------------------------------------------- tombstone expiry

  /** `expiredTombstones`, one record at a time. */
  predicate Expired(record: LocalRecord, now: int, maxAge: int) {
    record.deleted && !record.dirty && now - record.authorityTime > maxAge
  }

  function ExpiredIds(records: map<Id, LocalRecord>, now: int, maxAge: int): set<Id> {
    set id | id in records && Expired(records[id], now, maxAge)
  }
}
