/**
 * Where the batched upload meets the sync protocol: the chunked, staged write of
 * what the engine hands over is the protocol's one post.
 */
module Upload {
  import opened Wrappers
  import opened Records
  import opened SyncServer
  import opened Protocol
  import opened Chunking
  import opened BatchUpload
  import Engine

  /** The objects the engine hands over, with their sizes. */
  predicate Bears(bsos: seq<Outgoing>, objects: seq<(Id, Payload)>) {
    |bsos| == |objects| && forall i :: 0 <= i < |bsos| ==> (bsos[i].id, bsos[i].payload) == objects[i]
  }

  /** Every object of the list holds the upload of its id. */
  predicate Holds(bsos: seq<Outgoing>, upload: map<Id, LocalRecord>) {
    forall i :: 0 <= i < |bsos| ==> bsos[i].id in upload && bsos[i].payload == Encode(upload[bsos[i].id])
  }

  lemma {:induction false} PutAllHolds(bsos: seq<Outgoing>, upload: map<Id, LocalRecord>)
    requires Holds(bsos, upload)
    ensures forall id :: id in PutAll(bsos) ==> id in upload && PutAll(bsos)[id] == Encode(upload[id])
    ensures forall i :: 0 <= i < |bsos| ==> bsos[i].id in PutAll(bsos)
  {
    if bsos != [] {
      var n := |bsos| - 1;
      PutAllHolds(bsos[..n], upload);
      forall i | 0 <= i < n ensures bsos[i].id in PutAll(bsos) {
        assert bsos[..n][i] == bsos[i];
      }
    }
  }

  /** A list that carries an upload, once or more each, puts exactly the upload. */
  lemma PutAllCarries(bsos: seq<Outgoing>, objects: seq<(Id, Payload)>, upload: map<Id, LocalRecord>)
    requires Bears(bsos, objects) && Engine.Carries(objects, upload)
    ensures PutAll(bsos) == map id | id in upload :: Encode(upload[id])
  {
    forall i | 0 <= i < |bsos| ensures bsos[i].id in upload && bsos[i].payload == Encode(upload[bsos[i].id]) {
      assert (bsos[i].id, bsos[i].payload) == objects[i];
    }
    PutAllHolds(bsos, upload);
    forall id | id in upload ensures id in PutAll(bsos) {
      var i :| 0 <= i < |objects| && objects[i].0 == id;
      assert bsos[i].id == id;
    }
  }

  /** What a batched upload leaves on the server is what the protocol's post puts there. */
  lemma ChunkedWriteIsThePost(bsos: seq<Outgoing>, objects: seq<(Id, Payload)>, upload: map<Id, LocalRecord>,
                              limits: Limits, weather: nat -> Weather, rejected: set<Id>)
    requires Bears(bsos, objects) && Engine.Carries(objects, upload)
    requires forall i: nat :: weather(i).rejected == rejected
    ensures var chunks := Split([], bsos, limits);
            PutAll(AcceptedSoFar(chunks, weather, |chunks|)) == Puts(upload, rejected)
  {
    ChunkedWriteIsOneWrite(bsos, limits, weather, rejected);
    PutAllCarries(bsos, objects, upload);
  }

  /**
   * An upload that is reported to have been committed is the protocol's post
   * step at that time, and one of which the reply was lost is its lost post.
   */
  lemma CommittedIsThePostStep(cl: Client, others: Server, after: Server, bsos: seq<Outgoing>,
                               objects: seq<(Id, Payload)>, limits: Limits, weather: nat -> Weather,
                               rejected: set<Id>, at: int)
    requires cl.pass.Merged? && Bears(bsos, objects) && Engine.Carries(objects, cl.pass.upload)
    requires forall i: nat :: weather(i).rejected == rejected
    requires var chunks := Split([], bsos, limits);
             Committed(others, after, PutAll(AcceptedSoFar(chunks, weather, |chunks|)), cl.pass.water, at)
    ensures after == ServerAfter(cl, others, PostStep(0, at, rejected))
    ensures after == ServerAfter(cl, others, PostLostStep(0, at, rejected))
    ensures ClientAfter(cl, others, PostStep(0, at, rejected)) == Accepted(cl, at, rejected)
    ensures ClientAfter(cl, others, PostLostStep(0, at, rejected)) == Throw(cl)
  {
    hide Split, AcceptedSoFar, PutAll, Puts, Write, Accepted, Throw, Bears, Engine.Carries;
    ChunkedWriteIsThePost(bsos, objects, cl.pass.upload, limits, weather, rejected);
  }

  /** The ids reported as stored are the ids the protocol's step marks. */
  lemma ReportedIsSent(cl: Client, bsos: seq<Outgoing>, objects: seq<(Id, Payload)>, limits: Limits,
                       weather: nat -> Weather, rejected: set<Id>, at: int)
    requires cl.pass.Merged? && Bears(bsos, objects) && Engine.Carries(objects, cl.pass.upload)
    requires forall i: nat :: weather(i).rejected == rejected
    ensures var chunks := Split([], bsos, limits);
            (set id | id in Ids(AcceptedSoFar(chunks, weather, |chunks|))) == Accepted(cl, at, rejected).pass.sent.Keys
  {
    var chunks := Split([], bsos, limits);
    var stored := AcceptedSoFar(chunks, weather, |chunks|);
    ChunkedWriteIsThePost(bsos, objects, cl.pass.upload, limits, weather, rejected);
    PutAllKeys(stored);
    assert Puts(cl.pass.upload, rejected).Keys == Accepted(cl, at, rejected).pass.sent.Keys;
  }

  /** The ids reported as failed are those that were sent and rejected, so there is one exactly when the pass failed. */
  lemma ReportedIsRejected(cl: Client, bsos: seq<Outgoing>, objects: seq<(Id, Payload)>, limits: Limits,
                           weather: nat -> Weather, rejected: set<Id>, at: int)
    requires cl.pass.Merged? && Bears(bsos, objects) && Engine.Carries(objects, cl.pass.upload)
    requires forall i: nat :: weather(i).rejected == rejected
    ensures var chunks := Split([], bsos, limits);
            var failed := RefusedSoFar(chunks, weather, |chunks|);
            && (forall id :: id in failed <==> id in cl.pass.upload && id in rejected)
            && (failed != [] <==> Accepted(cl, at, rejected).pass.rejected)
  {
    hide Split, Refuse, RefusedSoFar, PutAll, Engine.Carries, Bears;
    var chunks := Split([], bsos, limits);
    var failed := RefusedSoFar(chunks, weather, |chunks|);
    RefusedByChunks(chunks, weather, rejected, |chunks|);
    assert chunks[..|chunks|] == chunks;
    SplitFlattens([], bsos, limits);
    assert [] + bsos == bsos;
    PutAllCarries(bsos, objects, cl.pass.upload);
    forall id ensures id in failed <==> id in cl.pass.upload && id in rejected {
      RefusedIds(bsos, rejected, id);
    }
    if failed != [] { assert failed[0] in cl.pass.upload.Keys * rejected; }
    if id :| id in cl.pass.upload.Keys * rejected { assert id in failed; }
  }

  lemma {:induction false} PutAllKeys(bsos: seq<Outgoing>)
    ensures (set id | id in Ids(bsos)) == PutAll(bsos).Keys
  {
    if bsos != [] {
      var n := |bsos| - 1;
      PutAllKeys(bsos[..n]);
      assert bsos == bsos[..n] + [bsos[n]];
      IdsConcat(bsos[..n], [bsos[n]]);
      assert Ids([bsos[n]]) == [bsos[n].id];
    }
  }
}
