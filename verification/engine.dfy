/**
 * `SyncEngine.syncCollection`, statement by statement, against the functions
 * the protocol's steps are made of. The replies of the storage client are
 * inputs; what is sent to it is an output.
 */
module Engine {
  import opened Wrappers
  import opened Records
  import opened Reconciliation
  import opened SyncServer
  import opened Protocol

  /** One object as it comes over the wire. */
  datatype StoredObject = StoredObject(id: Id, bso: Bso)

  datatype PullReply =
    | Page(objects: seq<StoredObject>, lastModified: Option<int>)
    | PullFailed(pullError: string)

  datatype PushReply =
    | Uploaded(success: seq<Id>, failed: set<Id>, modified: Option<int>)
    | Refused
    | PushFailed(pushError: string)

  /** A call of `postRecordsBatched`. */
  datatype PushRequest = PushRequest(objects: seq<(Id, Payload)>, unmodifiedSince: Option<int>)

  datatype EngineError = ChangedMidSync | RecordsRejected(count: nat)

  datatype EngineResult = EngineResult(pulled: nat, pushed: nat, conflicts: nat, skipped: nat,
                                       error: Option<EngineError>)

  function DecodeList(objects: seq<StoredObject>): seq<RemoteRecord> {
    if objects == [] then []
    else
      var last := objects[|objects| - 1];
      var before := DecodeList(objects[..|objects| - 1]);
      match Decode(last.id, last.bso)
      case None => before
      case Some(r) => before + [r]
  }

  function Objects(objects: seq<StoredObject>): map<Id, Bso> {
    if objects == [] then map[]
    else Objects(objects[..|objects| - 1])[objects[|objects| - 1].id := objects[|objects| - 1].bso]
  }

  predicate UniqueObjects(objects: seq<StoredObject>) {
    forall i, j :: 0 <= i < j < |objects| ==> objects[i].id != objects[j].id
  }

  function EncodeList(records: seq<LocalRecord>): (objects: seq<(Id, Payload)>)
    ensures |objects| == |records|
    ensures forall i :: 0 <= i < |records| ==> objects[i] == (records[i].id, Encode(records[i]))
  {
    if records == [] then []
    else EncodeList(records[..|records| - 1]) + [(records[|records| - 1].id, Encode(records[|records| - 1]))]
  }

  /** The vault's list of a collection: each record once. */
  predicate Lists(local: seq<LocalRecord>, records: map<Id, LocalRecord>) {
    UniqueLocal(local) && IndexLocal(local) == records
  }

  lemma {:induction false} InDecodeList(objects: seq<StoredObject>, r: RemoteRecord)
    requires r in DecodeList(objects)
    ensures exists i :: 0 <= i < |objects| && Decode(objects[i].id, objects[i].bso) == Some(r) && r.id == objects[i].id
  {
    var n := |objects| - 1;
    if Decode(objects[n].id, objects[n].bso) != Some(r) {
      InDecodeList(objects[..n], r);
      var i :| 0 <= i < n && Decode(objects[..n][i].id, objects[..n][i].bso) == Some(r) && r.id == objects[..n][i].id;
      assert objects[i] == objects[..n][i];
    }
  }

  predicate Listed(objects: seq<StoredObject>, id: Id) {
    exists i :: 0 <= i < |objects| && objects[i].id == id
  }

  lemma {:induction false} ObjectsAreListed(objects: seq<StoredObject>, id: Id)
    ensures id in Objects(objects) <==> Listed(objects, id)
  {
    if objects != [] {
      var n := |objects| - 1;
      ObjectsAreListed(objects[..n], id);
      if id in Objects(objects[..n]) {
        var i :| 0 <= i < n && objects[..n][i].id == id;
        assert objects[i].id == id;
      }
      if Listed(objects, id) {
        var i :| 0 <= i < |objects| && objects[i].id == id;
        if i < n { assert objects[..n][i].id == id; }
      }
    }
  }

  lemma LastIsNew(objects: seq<StoredObject>)
    requires UniqueObjects(objects) && objects != []
    ensures UniqueObjects(objects[..|objects| - 1])
    ensures objects[|objects| - 1].id !in Objects(objects[..|objects| - 1])
    ensures forall r :: r in DecodeList(objects[..|objects| - 1]) ==> r.id != objects[|objects| - 1].id
  {
    var n := |objects| - 1;
    ObjectsAreListed(objects[..n], objects[n].id);
    forall i | 0 <= i < n ensures objects[..n][i].id != objects[n].id {
      assert objects[i].id != objects[n].id;
    }
    forall r | r in DecodeList(objects[..n]) ensures r.id != objects[n].id {
      InDecodeList(objects[..n], r);
    }
  }

  lemma DecodeAllPut(objects: map<Id, Bso>, id: Id, bso: Bso)
    requires id !in objects
    ensures DecodeAll(objects[id := bso])
         == match Decode(id, bso) { case None => DecodeAll(objects) case Some(r) => DecodeAll(objects)[id := r] }
  {
  }

  lemma IndexRemoteAppend(remote: seq<RemoteRecord>, r: RemoteRecord)
    requires UniqueRemote(remote) && forall q :: q in remote ==> q.id != r.id
    ensures UniqueRemote(remote + [r]) && IndexRemote(remote + [r]) == IndexRemote(remote)[r.id := r]
  {
  }

  /** Decoding a listing one by one is decoding the collection by id. */
  lemma {:induction false} DecodeListByIds(objects: seq<StoredObject>)
    requires UniqueObjects(objects)
    ensures UniqueRemote(DecodeList(objects))
    ensures IndexRemote(DecodeList(objects)) == DecodeAll(Objects(objects))
  {
    if objects != [] {
      var before, last := objects[..|objects| - 1], objects[|objects| - 1];
      LastIsNew(objects);
      DecodeListByIds(before);
      DecodeAllPut(Objects(before), last.id, last.bso);
      match Decode(last.id, last.bso)
      case Some(r) => IndexRemoteAppend(DecodeList(before), r);
      case None =>
    }
  }

  // ------------------------------------------------- what a pass has to leave

  function IdSet(ids: seq<Id>): set<Id> {
    set id | id in ids
  }

  /** What a pass over a collection leaves behind, and what it sent. */
  datatype PassResult = PassResult(
    records: map<Id, LocalRecord>,
    lastModified: Option<int>,
    thrown: bool,
    water: Option<int>,
    upload: map<Id, LocalRecord>)

  /** The composition of the protocol's steps, for given replies. */
  function PassOutcome(records: map<Id, LocalRecord>, start: Option<int>, info: Option<int>, pull: PullReply,
                       push: PushReply): PassResult {
    if ServerHasChanges(info, start) then
      match pull
      case PullFailed(_) => PassResult(records, start, true, start, map[])
      case Page(objects, lastModified) =>
        Pushed(records, start, DecodeAll(Objects(objects)), if lastModified.Some? then lastModified else start, push)
    else
      Pushed(records, start, map[], start, push)
  }

  function Pushed(records: map<Id, LocalRecord>, start: Option<int>, fetched: map<Id, RemoteRecord>, water: Option<int>,
                  push: PushReply): PassResult
  {
    var merged, upload := Merge(records, fetched), Uploads(records, fetched);
    if upload == map[] then PassResult(merged, water, false, water, upload)
    else
      match push
      case PushFailed(_) => PassResult(merged, start, true, water, upload)
      case Refused => PassResult(merged, None, false, water, upload)
      case Uploaded(success, _, modified) =>
        PassResult(MarkSynced(merged, IdSet(success), OrElse(modified, 0)),
                   if modified.Some? then modified else water, false, water, upload)
  }

  /** The ids with a local edit that the pull, too, has a version of. */
  function ChangedOnBothSides(records: map<Id, LocalRecord>, fetched: map<Id, RemoteRecord>): set<Id> {
    set id | id in fetched && id in records && records[id].dirty
  }

  /** The objects of a listing that cannot be decrypted. */
  function UnreadableIds(objects: seq<StoredObject>): set<Id> {
    set i | 0 <= i < |objects| && objects[i].bso.payload.Unreadable? :: objects[i].id
  }

  /** What a pass says of itself: the applied, the stored, the doubly changed and the unreadable, each counted by id. */
  predicate Counts(result: EngineResult, records: map<Id, LocalRecord>, fetched: map<Id, RemoteRecord>, skipped: nat,
                   push: PushReply)
  {
    && result.pulled == |Applies(records, fetched)|
    && result.conflicts == |ChangedOnBothSides(records, fetched)|
    && result.skipped == skipped
    && result.pushed == if Uploads(records, fetched) != map[] && push.Uploaded? then |push.success| else 0
  }

  /** Whether it says that it succeeded: nothing was to be sent, or everything was taken. */
  predicate Reports(error: Option<EngineError>, upload: map<Id, LocalRecord>, push: PushReply) {
    && (error.None? <==> upload == map[] || (push.Uploaded? && push.failed == {}))
    && (error == Some(ChangedMidSync) <==> upload != map[] && push.Refused?)
    && (error.Some? && error.value.RecordsRejected? ==> push.Uploaded? && error.value.count == |push.failed|)
  }

  /** What was fetched, as far as it can be read, and how much of it cannot. */
  function FetchedFor(info: Option<int>, start: Option<int>, pull: PullReply): map<Id, RemoteRecord> {
    if ServerHasChanges(info, start) && pull.Page? then DecodeAll(Objects(pull.objects)) else map[]
  }

  function Unread(info: Option<int>, start: Option<int>, pull: PullReply): nat {
    if ServerHasChanges(info, start) && pull.Page? then |UnreadableIds(pull.objects)| else 0
  }

  /** The collection is read, and a failing read thrown, exactly when it changed since the mark or there is none. */
  lemma PullIsMadeExactly(records: map<Id, LocalRecord>, start: Option<int>, info: Option<int>, message: string,
                          page: PullReply)
    ensures PassOutcome(records, start, info, PullFailed(message), Refused).thrown
       <==> info.Some? && (start.None? || start.value < info.value)
    ensures info.Some? && info == start ==>
              PassOutcome(records, start, info, page, Refused) == PassOutcome(records, start, None, page, Refused)
  {
  }

  /** The list carries each upload once or more, and nothing else. */
  predicate Carries(objects: seq<(Id, Payload)>, upload: map<Id, LocalRecord>) {
    && (forall i :: 0 <= i < |objects| ==> objects[i].0 in upload && objects[i].1 == Encode(upload[objects[i].0]))
    && (forall id :: id in upload ==> exists i :: 0 <= i < |objects| && objects[i].0 == id)
  }

  /** Of the objects of a listing, the unreadable are those that were not decoded. */
  lemma {:induction false} DecodedAreTheOthers(objects: seq<StoredObject>)
    ensures UniqueObjects(objects) ==> |DecodeList(objects)| + |UnreadableIds(objects)| == |objects|
  {
    if objects != [] && UniqueObjects(objects) {
      var before, last := objects[..|objects| - 1], objects[|objects| - 1];
      DecodedAreTheOthers(before);
      var unread := UnreadableIds(before);
      forall id | id in unread ensures id != last.id {
        var i :| 0 <= i < |before| && before[i].bso.payload.Unreadable? && before[i].id == id;
        assert objects[i].id != last.id;
      }
      forall i | 0 <= i < |before| ensures objects[i] == before[i] {}
      if last.bso.payload.Unreadable? {
        assert UnreadableIds(objects) == unread + {last.id};
      } else {
        assert UnreadableIds(objects) == unread;
      }
    }
  }

  method DecodeObjects(objects: seq<StoredObject>) returns (remote: seq<RemoteRecord>, skipped: nat)
    ensures remote == DecodeList(objects)
    ensures skipped + |remote| == |objects|
    ensures UniqueObjects(objects) ==> skipped == |UnreadableIds(objects)|
  {
    DecodedAreTheOthers(objects);
    remote, skipped := [], 0;
    for i := 0 to |objects|
      invariant remote == DecodeList(objects[..i])
      invariant skipped + |remote| == i
    {
      assert objects[..i + 1][..i] == objects[..i];
      var decoded := Decode(objects[i].id, objects[i].bso);
      if decoded.None? {
        skipped := skipped + 1;
      } else {
        remote := remote + [decoded.value];
      }
    }
    assert objects[..|objects|] == objects;
  }

  /** The state of one collection across passes: the vault's records, the mark, the engine's syncID. */
  class CollectionSync {
    var records: map<Id, LocalRecord>
    var lastModified: Option<int>
    var syncId: Option<string>

    constructor ()
      ensures records == map[] && lastModified.None? && syncId.None?
    {
      records, lastModified, syncId := map[], None, None;
    }

    /** `VaultStore.applyRemote` with clean records. */
    method ApplyRemote(remote: seq<RemoteRecord>)
      modifies this`records
      ensures records == Overwrite(old(records), remote)
    {
      for i := 0 to |remote|
        invariant records == Overwrite(old(records), remote[..i])
      {
        assert remote[..i + 1][..i] == remote[..i];
        records := records[remote[i].id := FromRemote(remote[i])];
      }
      assert remote[..|remote|] == remote;
    }

    /** `VaultStore.markSynced`. */
    method MarkAllSynced(ids: seq<Id>, modified: int)
      modifies this`records
      ensures records == MarkSynced(old(records), IdSet(ids), modified)
    {
      for i := 0 to |ids|
        invariant records == MarkSynced(old(records), IdSet(ids[..i]), modified)
      {
        assert IdSet(ids[..i + 1]) == IdSet(ids[..i]) + {ids[i]};
        if ids[i] in records {
          records := records[ids[i] := records[ids[i]].(dirty := false, syncedAt := Some(modified))];
        }
      }
      assert ids[..|ids|] == ids;
    }

    /**
     * One pass over the collection. Whatever the storage client answers, the
     * mark, the syncID and the records end up as the protocol's steps say, and
     * the upload carries the merge's losers under the timestamp just read.
     */
    method SyncCollection(remoteSyncId: Option<string>, info: Option<int>, local: seq<LocalRecord>,
                          pull: PullReply, push: PushReply)
      returns (result: Result<EngineResult, string>, request: Option<PushRequest>)
      requires Lists(local, records)
      requires pull.Page? ==> UniqueObjects(pull.objects)
      modifies this
      ensures syncId == remoteSyncId
      ensures var out := PassOutcome(old(records), StartMark(old(lastModified), old(syncId), remoteSyncId), info,
                                     pull, push);
              && records == out.records
              && lastModified == out.lastModified
              && (result.Err? <==> out.thrown)
              && (request.Some? <==> out.upload != map[])
              && (request.Some? ==>
                    request.value.unmodifiedSince == out.water && Carries(request.value.objects, out.upload))
      ensures result.Err? ==>
                if ServerHasChanges(info, StartMark(old(lastModified), old(syncId), remoteSyncId)) && pull.PullFailed?
                then result.error == pull.pullError
                else push.PushFailed? && result.error == push.pushError
      ensures result.Ok? ==>
                var start := StartMark(old(lastModified), old(syncId), remoteSyncId);
                var fetched := FetchedFor(info, start, pull);
                && Counts(result.value, old(records), fetched, Unread(info, start, pull), push)
                && Reports(result.value.error, Uploads(old(records), fetched), push)
    {
      if EngineWasReset(remoteSyncId, syncId) {
        lastModified := None;
      }
      syncId := remoteSyncId;
      var skipped := 0;
      var remote: seq<RemoteRecord> := [];
      var highWaterMark := lastModified;
      if ServerHasChanges(info, lastModified) {
        if pull.PullFailed? {
          return Err(pull.pullError), None;
        }
        if pull.lastModified.Some? {
          highWaterMark := pull.lastModified;
        }
        remote, skipped := DecodeObjects(pull.objects);
        DecodeListByIds(pull.objects);
      }
      result, request := MergeAndPush(local, remote, skipped, highWaterMark, push);
    }

    /** The second half of the pass: reconcile, apply, upload, move the mark. */
    method MergeAndPush(local: seq<LocalRecord>, remote: seq<RemoteRecord>, skipped: nat, water: Option<int>,
                        push: PushReply)
      returns (result: Result<EngineResult, string>, request: Option<PushRequest>)
      requires Lists(local, records) && UniqueRemote(remote)
      modifies this`records, this`lastModified
      ensures var out := Pushed(old(records), old(lastModified), IndexRemote(remote), water, push);
              && records == out.records
              && lastModified == out.lastModified
              && (result.Err? <==> out.thrown)
              && (request.Some? <==> out.upload != map[])
              && (request.Some? ==>
                    request.value.unmodifiedSince == water && Carries(request.value.objects, out.upload))
      ensures result.Err? ==> push.PushFailed? && result.error == push.pushError
      ensures result.Ok? ==>
                && Counts(result.value, old(records), IndexRemote(remote), skipped, push)
                && Reports(result.value.error, Uploads(old(records), IndexRemote(remote)), push)
    {
      hide Merge, Uploads, Carries, ApplyList, Applies, ChangedOnBothSides, MarkSynced, IdSet, Reports;
      ListsAreCounted(local, remote);
      var plan := Reconcile(local, remote);
      ghost var upload := Uploads(records, IndexRemote(remote));
      UploadsHaveTheirIds(local, remote);
      ApplyingThePlanIsMerge(local, remote);
      var pulled := |plan.applyLocally|;
      if pulled > 0 {
        ApplyRemote(plan.applyLocally);
      }
      var pushed, error, thrown;
      pushed, error, thrown, request := Push(plan.uploadRemotely, water, push, upload);
      if thrown.Some? {
        return Err(thrown.value), request;
      }
      result := Ok(EngineResult(pulled, pushed, |plan.conflicts|, skipped, error));
    }

    /** The upload, if there is one: what is sent, marked and kept of the mark, and what is said of it. */
    method Push(list: seq<LocalRecord>, water: Option<int>, push: PushReply, ghost upload: map<Id, LocalRecord>)
      returns (pushed: nat, error: Option<EngineError>, thrown: Option<string>, request: Option<PushRequest>)
      requires forall id :: id in upload ==> upload[id].id == id
      requires forall l :: l in list <==> l.id in upload && upload[l.id] == l
      modifies this`records, this`lastModified
      ensures request.Some? <==> upload != map[]
      ensures request.Some? ==> request.value.unmodifiedSince == water && Carries(request.value.objects, upload)
      ensures thrown == if upload != map[] && push.PushFailed? then Some(push.pushError) else None
      ensures records == if upload != map[] && push.Uploaded?
                         then MarkSynced(old(records), IdSet(push.success), OrElse(push.modified, 0)) else old(records)
      ensures lastModified == if upload == map[] then water
                              else match push
                                   case PushFailed(_) => old(lastModified)
                                   case Refused => None
                                   case Uploaded(_, _, modified) => if modified.Some? then modified else water
      ensures pushed == if upload != map[] && push.Uploaded? then |push.success| else 0
      ensures thrown.None? ==> Reports(error, upload, push)
    {
      hide Carries, EncodeList, MarkSynced, IdSet;
      request, thrown := None, None;
      pushed, error := 0, None;
      var highWaterMark := water;
      NoUploads(list, upload);
      if |list| > 0 {
        request := Some(PushRequest(EncodeList(list), water));
        RequestCarriesUploads(list, upload);
        match push
        case PushFailed(message) =>
          thrown := Some(message);
          return;
        case Refused =>
          lastModified := None;
          error := Some(ChangedMidSync);
          return;
        case Uploaded(success, failed, modified) =>
          pushed := |success|;
          if modified.Some? {
            highWaterMark := modified;
          }
          MarkAllSynced(success, OrElse(modified, 0));
          if failed != {} {
            error := Some(RecordsRejected(|failed|));
          }
      }
      lastModified := highWaterMark;
    }
  }

  /** Each decision of the plan is listed once, so the lists are as long as the decisions are many. */
  lemma ListsAreCounted(local: seq<LocalRecord>, remote: seq<RemoteRecord>)
    requires UniqueLocal(local) && UniqueRemote(remote)
    ensures var byId := IndexLocal(local);
            && |ApplyList(byId, remote)| == |Applies(byId, IndexRemote(remote))|
            && |ConflictList(byId, remote)| == |ChangedOnBothSides(byId, IndexRemote(remote))|
  {
    AppliedAreCounted(IndexLocal(local), remote);
    ConflictsAreCounted(IndexLocal(local), remote);
  }

  lemma LastRemoteIsNew(remote: seq<RemoteRecord>)
    requires UniqueRemote(remote) && remote != []
    ensures UniqueRemote(remote[..|remote| - 1])
    ensures remote[|remote| - 1].id !in IndexRemote(remote[..|remote| - 1])
  {
    var n := |remote| - 1;
    forall i | 0 <= i < n ensures remote[..n][i].id != remote[n].id {
      assert remote[i].id != remote[n].id;
    }
    if remote[n].id in IndexRemote(remote[..n]) {
      IndexRemoteOnly(remote[..n], remote[n].id);
    }
  }

  lemma AppliesPut(byId: map<Id, LocalRecord>, fetched: map<Id, RemoteRecord>, r: RemoteRecord)
    requires r.id !in fetched
    ensures var applied := Applies(byId, fetched);
            (Applies(byId, fetched[r.id := r])
             == if Decide(Get(byId, r.id), Some(r)) == Apply then applied[r.id := r] else applied)
    ensures r.id !in Applies(byId, fetched)
  {
    hide Decide;
  }

  lemma {:induction false} AppliedAreCounted(byId: map<Id, LocalRecord>, remote: seq<RemoteRecord>)
    requires UniqueRemote(remote)
    ensures |ApplyList(byId, remote)| == |Applies(byId, IndexRemote(remote))|
  {
    if remote == [] {
      assert Applies(byId, map[]) == map[];
    } else {
      var before, last := remote[..|remote| - 1], remote[|remote| - 1];
      LastRemoteIsNew(remote);
      AppliedAreCounted(byId, before);
      hide Applies, Decide, Get;
      AppliesPut(byId, IndexRemote(before), last);
    }
  }

  lemma {:induction false} ConflictsAreCounted(byId: map<Id, LocalRecord>, remote: seq<RemoteRecord>)
    requires UniqueRemote(remote)
    ensures |ConflictList(byId, remote)| == |ChangedOnBothSides(byId, IndexRemote(remote))|
  {
    if remote == [] {
      assert ChangedOnBothSides(byId, map[]) == {};
    } else {
      var before, last := remote[..|remote| - 1], remote[|remote| - 1];
      LastRemoteIsNew(remote);
      ConflictsAreCounted(byId, before);
      var changed := ChangedOnBothSides(byId, IndexRemote(before));
      if last.id in byId && byId[last.id].dirty {
        assert ChangedOnBothSides(byId, IndexRemote(remote)) == changed + {last.id};
      } else {
        assert ChangedOnBothSides(byId, IndexRemote(remote)) == changed;
      }
    }
  }

  lemma NoUploads(list: seq<LocalRecord>, upload: map<Id, LocalRecord>)
    requires forall id :: id in upload ==> upload[id].id == id
    requires forall l :: l in list <==> l.id in upload && upload[l.id] == l
    ensures list == [] <==> upload == map[]
  {
    if upload != map[] {
      var id :| id in upload;
      assert upload[id] in list;
    }
    if list != [] {
      assert list[0] in list;
    }
  }

  lemma UploadsHaveTheirIds(local: seq<LocalRecord>, remote: seq<RemoteRecord>)
    requires UniqueLocal(local) && UniqueRemote(remote)
    ensures var upload := Uploads(IndexLocal(local), IndexRemote(remote));
            && (forall id :: id in upload ==> upload[id].id == id)
            && (forall l :: l in UploadList(local, remote) <==> l.id in upload && upload[l.id] == l)
  {
    PlanFollowsDecisions(local, remote);
    forall id | id in IndexLocal(local) ensures IndexLocal(local)[id].id == id {
      IndexLocalOnly(local, id);
    }
  }

  lemma RequestCarriesUploads(list: seq<LocalRecord>, upload: map<Id, LocalRecord>)
    requires forall id :: id in upload ==> upload[id].id == id
    requires forall l :: l in list <==> l.id in upload && upload[l.id] == l
    ensures Carries(EncodeList(list), upload)
  {
  }

  // ------------------------------------------------ the same pass, as protocol steps

  /** Info, `meta/global`, read, plan and apply. */
  function UpToApplied(cl: Client, atInfo: Server, atMeta: Server, atRead: Server): Client {
    var begun := ClientAfter(ClientAfter(cl, atInfo, InfoStep(0)), atMeta, MetaStep(0));
    var planned := ClientAfter(ClientAfter(begun, atRead, ReadStep(0)), atRead, PlanStep(0));
    ClientAfter(planned, atRead, ApplyStep(0))
  }

  /** The protocol's steps for one pass whose post, if any, is answered, before its end is saved. */
  function StepToEnd(cl: Client, atInfo: Server, atMeta: Server, atRead: Server, atPost: Server,
                     at: int, rejected: set<Id>): Client {
    var posted := ClientAfter(UpToApplied(cl, atInfo, atMeta, atRead), atPost, PostStep(0, at, rejected));
    ClientAfter(posted, atPost, MarkStep(0))
  }

  function StepThrough(cl: Client, atInfo: Server, atMeta: Server, atRead: Server, atPost: Server,
                       at: int, rejected: set<Id>): Client {
    ClientAfter(StepToEnd(cl, atInfo, atMeta, atRead, atPost, at, rejected), atPost, SaveStep(0))
  }

  /** What a server that rejects these ids answers to an upload. */
  function Answered(sv: Server, water: Option<int>, upload: map<Id, LocalRecord>, at: int, rejected: set<Id>,
                    success: seq<Id>): PushReply {
    if Unmodified(sv, water) then Uploaded(success, upload.Keys * rejected, Some(at)) else Refused
  }

  /** What the objects of a page make the reply to the pull. */
  predicate IsPage(objects: seq<StoredObject>, cl: Client, atMeta: Server, atRead: Server) {
    Objects(objects) == ReadNewer(atRead, StartMark(cl.mark, cl.syncId, atMeta.syncId))
  }

  function FetchedBy(objects: seq<StoredObject>, cl: Client, atInfo: Server, atMeta: Server): map<Id, RemoteRecord> {
    if ServerHasChanges(atInfo.lastModified, StartMark(cl.mark, cl.syncId, atMeta.syncId))
    then DecodeAll(Objects(objects))
    else map[]
  }

  function WaterBy(cl: Client, atInfo: Server, atMeta: Server, atRead: Server): Option<int> {
    var start := StartMark(cl.mark, cl.syncId, atMeta.syncId);
    if ServerHasChanges(atInfo.lastModified, start) && atRead.lastModified.Some? then atRead.lastModified else start
  }

  /** The merge was applied, and what remains is to post, or nothing. */
  predicate AppliedAs(after: Client, records: map<Id, LocalRecord>, start: Option<int>,
                      fetched: map<Id, RemoteRecord>, water: Option<int>, syncId: Option<string>)
  {
    var upload := Uploads(records, fetched);
    && after.records == Merge(records, fetched)
    && (if upload == map[] then after.pass.Finished? && after.pass.mark == water && after.pass.ok
        else
          && after.pass.Merged? && after.pass.mark == start && after.pass.water == water
          && after.pass.upload == upload)
    && after.pass.syncId == syncId
  }

  lemma FetchedIs(cl: Client, atInfo: Server, atMeta: Server, atRead: Server, objects: seq<StoredObject>)
    requires cl.pass.Idle? && IsPage(objects, cl, atMeta, atRead)
    ensures var begun := ClientAfter(ClientAfter(cl, atInfo, InfoStep(0)), atMeta, MetaStep(0));
            var fetched := ClientAfter(begun, atRead, ReadStep(0));
            && fetched.records == cl.records && fetched.pass.Fetched?
            && fetched.pass.mark == StartMark(cl.mark, cl.syncId, atMeta.syncId) && fetched.pass.syncId == atMeta.syncId
            && fetched.pass.remote == FetchedBy(objects, cl, atInfo, atMeta)
            && fetched.pass.water == WaterBy(cl, atInfo, atMeta, atRead)
  {
  }

  lemma PlanAndApply(cl: Client, sv: Server)
    requires cl.pass.Fetched?
    ensures AppliedAs(ClientAfter(ClientAfter(cl, sv, PlanStep(0)), sv, ApplyStep(0)),
                      cl.records, cl.pass.mark, cl.pass.remote, cl.pass.water, cl.pass.syncId)
  {
    hide Merge, Overwritten, Applies, Uploads;
    MergeIsOverwritten(cl.records, cl.pass.remote);
  }

  lemma AppliedIsMerged(cl: Client, atInfo: Server, atMeta: Server, atRead: Server, objects: seq<StoredObject>)
    requires cl.pass.Idle? && IsPage(objects, cl, atMeta, atRead)
    ensures AppliedAs(UpToApplied(cl, atInfo, atMeta, atRead), cl.records,
                      StartMark(cl.mark, cl.syncId, atMeta.syncId),
                      FetchedBy(objects, cl, atInfo, atMeta), WaterBy(cl, atInfo, atMeta, atRead), atMeta.syncId)
  {
    var begun := ClientAfter(ClientAfter(cl, atInfo, InfoStep(0)), atMeta, MetaStep(0));
    FetchedIs(cl, atInfo, atMeta, atRead, objects);
    hide AppliedAs, ClientAfter, FetchedBy, WaterBy, StartMark;
    PlanAndApply(ClientAfter(begun, atRead, ReadStep(0)), atRead);
  }

  lemma OutcomeOfPage(cl: Client, atInfo: Server, atMeta: Server, atRead: Server, objects: seq<StoredObject>,
                      push: PushReply)
    ensures var start := StartMark(cl.mark, cl.syncId, atMeta.syncId);
            PassOutcome(cl.records, start, atInfo.lastModified, Page(objects, atRead.lastModified), push)
              == Pushed(cl.records, start, FetchedBy(objects, cl, atInfo, atMeta),
                        WaterBy(cl, atInfo, atMeta, atRead), push)
  {
  }

  lemma PostAnswered(applied: Client, records: map<Id, LocalRecord>, start: Option<int>, fetched: map<Id, RemoteRecord>,
                     water: Option<int>, syncId: Option<string>, sv: Server, at: int, rejected: set<Id>,
                     success: seq<Id>)
    requires AppliedAs(applied, records, start, fetched, water, syncId) && at > sv.clock
    requires IdSet(success) == Uploads(records, fetched).Keys - rejected
    ensures var push := Answered(sv, water, Uploads(records, fetched), at, rejected, success);
            var out := Pushed(records, start, fetched, water, push);
            var marked := ClientAfter(ClientAfter(applied, sv, PostStep(0, at, rejected)), sv, MarkStep(0));
            var after := ClientAfter(marked, sv, SaveStep(0));
            && after.pass.Idle? && after.records == out.records && after.mark == out.lastModified
            && after.syncId == syncId && !out.thrown
            && marked.pass.Finished?
            && forall error :: Reports(error, out.upload, push) ==> (marked.pass.ok <==> error.None?)
  {
    hide Merge, MarkSynced, Uploads;
    if applied.pass.Merged? && Unmodified(sv, water) {
      assert Without(applied.pass.upload, rejected).Keys == IdSet(success);
    }
  }

  lemma PostThrown(applied: Client, records: map<Id, LocalRecord>, start: Option<int>, fetched: map<Id, RemoteRecord>,
                   water: Option<int>, syncId: Option<string>, sv: Server, step: Step, message: string)
    requires AppliedAs(applied, records, start, fetched, water, syncId) && Uploads(records, fetched) != map[]
    requires step.ThrowStep? || (step.PostLostStep? && step.at > sv.clock && Unmodified(sv, water))
    ensures var out := Pushed(records, start, fetched, water, PushFailed(message));
            var after := ClientAfter(ClientAfter(applied, sv, step), sv, SaveStep(0));
            && out.thrown && after.pass.Idle? && after.records == out.records
            && after.mark == out.lastModified == start && after.syncId == syncId
            && (step.PostLostStep? ==>
                  ServerAfter(applied, sv, step) == Write(sv, Puts(out.upload, step.rejected), step.at))
  {
    hide Merge, Uploads, Write, Puts;
  }

  /**
   * Fed with a conforming server's answers, however the server changed between
   * the requests, `syncCollection` does to the records, the mark and the syncID
   * what the protocol's steps do, and says that it succeeded exactly when the
   * protocol's pass did.
   */
  lemma PassIsProtocolSteps(cl: Client, atInfo: Server, atMeta: Server, atRead: Server, atPost: Server,
                            at: int, rejected: set<Id>, objects: seq<StoredObject>, success: seq<Id>)
    requires cl.pass.Idle? && at > atPost.clock && IsPage(objects, cl, atMeta, atRead)
    requires IdSet(success) == Uploads(cl.records, FetchedBy(objects, cl, atInfo, atMeta)).Keys - rejected
    ensures var start := StartMark(cl.mark, cl.syncId, atMeta.syncId);
            var push := Answered(atPost, WaterBy(cl, atInfo, atMeta, atRead),
                                 Uploads(cl.records, FetchedBy(objects, cl, atInfo, atMeta)), at, rejected, success);
            var out := PassOutcome(cl.records, start, atInfo.lastModified, Page(objects, atRead.lastModified), push);
            var after := StepThrough(cl, atInfo, atMeta, atRead, atPost, at, rejected);
            && after.pass.Idle?
            && after.records == out.records
            && after.mark == out.lastModified
            && after.syncId == atMeta.syncId
            && !out.thrown
            && var end := StepToEnd(cl, atInfo, atMeta, atRead, atPost, at, rejected).pass;
               && end.Finished?
               && forall error :: Reports(error, out.upload, push) ==> (end.ok <==> error.None?)
  {
    AppliedIsMerged(cl, atInfo, atMeta, atRead, objects);
    var start, water := StartMark(cl.mark, cl.syncId, atMeta.syncId), WaterBy(cl, atInfo, atMeta, atRead);
    var upload := Uploads(cl.records, FetchedBy(objects, cl, atInfo, atMeta));
    OutcomeOfPage(cl, atInfo, atMeta, atRead, objects, Answered(atPost, water, upload, at, rejected, success));
    hide Answered, Reports, AppliedAs, ClientAfter, FetchedBy, WaterBy, StartMark, PassOutcome, Pushed, Unmodified,
        UpToApplied;
    PostAnswered(UpToApplied(cl, atInfo, atMeta, atRead), cl.records, start, FetchedBy(objects, cl, atInfo, atMeta),
                 water, atMeta.syncId, atPost, at, rejected, success);
  }

  /** A pull that throws: the steps are read and thrown, and the mark the pass started from is saved. */
  lemma ThrownPullIsProtocolSteps(cl: Client, atInfo: Server, atMeta: Server, message: string, push: PushReply)
    requires cl.pass.Idle?
    requires ServerHasChanges(atInfo.lastModified, StartMark(cl.mark, cl.syncId, atMeta.syncId))
    ensures var start := StartMark(cl.mark, cl.syncId, atMeta.syncId);
            var out := PassOutcome(cl.records, start, atInfo.lastModified, PullFailed(message), push);
            var begun := ClientAfter(ClientAfter(cl, atInfo, InfoStep(0)), atMeta, MetaStep(0));
            var after := ClientAfter(ClientAfter(begun, atMeta, ThrowStep(0)), atMeta, SaveStep(0));
            && out.thrown && out.upload == map[]
            && after.pass.Idle? && after.records == out.records == cl.records
            && after.mark == out.lastModified && after.syncId == atMeta.syncId
  {
  }

  /**
   * A push that throws, whether the request was lost or the reply to a post that
   * the server committed: the merge is kept, nothing is marked, and the mark the
   * pass started from is saved.
   */
  lemma ThrownPushIsProtocolSteps(cl: Client, atInfo: Server, atMeta: Server, atRead: Server, atPost: Server,
                                  at: int, rejected: set<Id>, objects: seq<StoredObject>, message: string,
                                  committed: bool)
    requires cl.pass.Idle? && IsPage(objects, cl, atMeta, atRead)
    requires Uploads(cl.records, FetchedBy(objects, cl, atInfo, atMeta)) != map[]
    requires committed ==> at > atPost.clock && Unmodified(atPost, WaterBy(cl, atInfo, atMeta, atRead))
    ensures var start := StartMark(cl.mark, cl.syncId, atMeta.syncId);
            var out := PassOutcome(cl.records, start, atInfo.lastModified, Page(objects, atRead.lastModified),
                                   PushFailed(message));
            var applied := UpToApplied(cl, atInfo, atMeta, atRead);
            var step := if committed then PostLostStep(0, at, rejected) else ThrowStep(0);
            var after := ClientAfter(ClientAfter(applied, atPost, step), atPost, SaveStep(0));
            && out.thrown
            && after.pass.Idle? && after.records == out.records
            && after.mark == out.lastModified == start && after.syncId == atMeta.syncId
            && (committed ==> ServerAfter(applied, atPost, step) == Write(atPost, Puts(out.upload, rejected), at))
  {
    AppliedIsMerged(cl, atInfo, atMeta, atRead, objects);
    OutcomeOfPage(cl, atInfo, atMeta, atRead, objects, PushFailed(message));
    hide AppliedAs, ClientAfter, ServerAfter, FetchedBy, WaterBy, StartMark, PassOutcome, Pushed, Unmodified,
        UpToApplied;
    PostThrown(UpToApplied(cl, atInfo, atMeta, atRead), cl.records, StartMark(cl.mark, cl.syncId, atMeta.syncId),
               FetchedBy(objects, cl, atInfo, atMeta), WaterBy(cl, atInfo, atMeta, atRead), atMeta.syncId, atPost,
               if committed then PostLostStep(0, at, rejected) else ThrowStep(0), message);
  }
}
