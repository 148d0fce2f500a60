/**
 * The batch protocol of `postRecordsBatched` against a server that stages a
 * batch until it is committed (the batch parameters of POST in the Sync Storage
 * API v1.5), with other writers and a failing network between the requests.
 */
module BatchUpload {
  import opened Wrappers
  import opened Records
  import opened SyncServer
  import opened Chunking

  datatype BatchParam = NoBatch | Open | Append(batch: nat)

  datatype Query = Query(batch: BatchParam, commit: bool)

  datatype PostResponse = PostResponse(success: seq<Id>, failed: seq<Id>, batch: Option<nat>, modified: Option<int>)

  datatype PostError = PreconditionFailed | UnknownBatch | NetworkDown

  datatype Node = Node(collection: Server, staged: map<nat, seq<Outgoing>>, nextBatch: nat)

  /** The accepted records, and the ids in general, of one request. */
  function Accept(body: seq<Outgoing>, rejected: set<Id>): seq<Outgoing> {
    if body == [] then []
    else
      var last := body[|body| - 1];
      Accept(body[..|body| - 1], rejected) + if last.id in rejected then [] else [last]
  }

  function Refuse(body: seq<Outgoing>, rejected: set<Id>): seq<Id> {
    if body == [] then []
    else
      var last := body[|body| - 1];
      Refuse(body[..|body| - 1], rejected) + if last.id in rejected then [last.id] else []
  }

  function Ids(body: seq<Outgoing>): (ids: seq<Id>)
    ensures |ids| == |body|
    ensures forall i :: 0 <= i < |body| ==> ids[i] == body[i].id
  {
    seq(|body|, i requires 0 <= i < |body| => body[i].id)
  }

  function PutAll(body: seq<Outgoing>): map<Id, Payload> {
    if body == [] then map[]
    else PutAll(body[..|body| - 1])[body[|body| - 1].id := body[|body| - 1].payload]
  }

  /** The server's handling of one POST, `delay` hundredths after its last timestamp. */
  function Handle(node: Node, query: Query, body: seq<Outgoing>, since: Option<int>, rejected: set<Id>, delay: nat)
    : (Node, Result<PostResponse, PostError>)
  {
    var accepted, refused := Accept(body, rejected), Refuse(body, rejected);
    var at := node.collection.clock + 1 + delay;
    if !Unmodified(node.collection, since) then (node, Err(PreconditionFailed))
    else
      match query.batch
      case Append(batch) =>
        if batch !in node.staged then (node, Err(UnknownBatch))
        else
          var all := node.staged[batch] + accepted;
          if query.commit then
            (Node(Write(node.collection, PutAll(all), at), node.staged - {batch}, node.nextBatch),
             Ok(PostResponse(Ids(accepted), refused, None, Some(at))))
          else
            (node.(staged := node.staged[batch := all]), Ok(PostResponse(Ids(accepted), refused, Some(batch), None)))
      case Open =>
        if query.commit then
          (node.(collection := Write(node.collection, PutAll(accepted), at)),
           Ok(PostResponse(Ids(accepted), refused, None, Some(at))))
        else
          (Node(node.collection, node.staged[node.nextBatch := accepted], node.nextBatch + 1),
           Ok(PostResponse(Ids(accepted), refused, Some(node.nextBatch), None)))
      case NoBatch =>
        (node.(collection := Write(node.collection, PutAll(accepted), at)),
         Ok(PostResponse(Ids(accepted), refused, None, Some(at))))
  }

  datatype Fate = Delivered | RequestLost | ReplyLost

  /** What another device may do to the collection. */
  datatype Activity = Writes(puts: map<Id, Payload>) | Deletes

  /**
   * What surrounds one request: what others do before it, whether the server has
   * dropped its staged batches, the network, the server's verdicts.
   */
  datatype Weather = Weather(others: seq<Activity>, dropped: bool, fate: Fate, rejected: set<Id>, delay: nat)

  function OthersAct(collection: Server, others: seq<Activity>): Server {
    if others == [] then collection
    else
      var before := OthersAct(collection, others[..|others| - 1]);
      match others[|others| - 1]
      case Writes(puts) => Write(before, puts, before.clock + 1)
      case Deletes => Wipe(before)
  }

  /** Whatever the others do is activity at the server. */
  lemma {:induction false} OthersAdvance(collection: Server, others: seq<Activity>)
    requires ServerInv(collection)
    ensures Advances(collection, OthersAct(collection, others))
  {
    if others != [] {
      var before := OthersAct(collection, others[..|others| - 1]);
      OthersAdvance(collection, others[..|others| - 1]);
      match others[|others| - 1]
      case Writes(puts) => WriteAdvances(before, puts, before.clock + 1);
      case Deletes =>
    }
  }

  /** Batches that are still staged have ids of their own, a new one gets another, and a committed one is gone. */
  lemma NewBatchIsItsOwn(node: Node, query: Query, body: seq<Outgoing>, since: Option<int>, rejected: set<Id>,
                         delay: nat)
    requires forall batch :: batch in node.staged ==> batch < node.nextBatch
    ensures var (after, answer) := Handle(node, query, body, since, rejected, delay);
            && (forall batch :: batch in after.staged ==> batch < after.nextBatch)
            && (answer.Ok? && query.batch.Open? && answer.value.batch.Some? ==>
                  answer.value.batch.value !in node.staged && answer.value.batch.value in after.staged)
            && (answer.Ok? && query.batch.Append? && query.commit ==> query.batch.batch !in after.staged)
  {
  }

  /** The collection as the others alone would have left it before request `n`. */
  function OthersOnly(collection: Server, weather: nat -> Weather, n: nat): Server {
    if n == 0 then collection
    else OthersAct(OthersOnly(collection, weather, n - 1), weather(n - 1).others)
  }

  function AcceptedSoFar(chunks: seq<seq<Outgoing>>, weather: nat -> Weather, n: nat): seq<Outgoing>
    requires n <= |chunks|
  {
    if n == 0 then []
    else AcceptedSoFar(chunks, weather, n - 1) + Accept(chunks[n - 1], weather(n - 1).rejected)
  }

  function RefusedSoFar(chunks: seq<seq<Outgoing>>, weather: nat -> Weather, n: nat): seq<Id>
    requires n <= |chunks|
  {
    if n == 0 then []
    else RefusedSoFar(chunks, weather, n - 1) + Refuse(chunks[n - 1], weather(n - 1).rejected)
  }

  /** The node as a request finds it. */
  function Found(pre: Node, weather: Weather): Node {
    Node(OthersAct(pre.collection, weather.others), if weather.dropped then map[] else pre.staged, pre.nextBatch)
  }

  /** One request and its reply, or the lack of either. */
  predicate Exchange(pre: Node, post: Node, query: Query, body: seq<Outgoing>, since: Option<int>, weather: Weather,
                     reply: Result<PostResponse, PostError>)
  {
    var before := Found(pre, weather);
    var (after, answer) := Handle(before, query, body, since, weather.rejected, weather.delay);
    match weather.fate
    case RequestLost => post == before && reply == Err(NetworkDown)
    case ReplyLost => post == after && reply == Err(NetworkDown)
    case Delivered => post == after && reply == answer
  }

  /** The storage node, reached through an unreliable network. */
  class StorageNode {
    var state: Node

    constructor (collection: Server)
      ensures state == Node(collection, map[], 0)
    {
      state := Node(collection, map[], 0);
    }

    method Post(query: Query, body: seq<Outgoing>, since: Option<int>, weather: Weather)
      returns (reply: Result<PostResponse, PostError>)
      modifies this
      ensures Exchange(old(state), state, query, body, since, weather, reply)
    {
      var before := Found(state, weather);
      var (after, answer) := Handle(before, query, body, since, weather.rejected, weather.delay);
      state := if weather.fate == RequestLost then before else after;
      reply := if weather.fate == Delivered then answer else Err(NetworkDown);
    }
  }

  datatype UploadOutcome = UploadOutcome(success: seq<Id>, failed: seq<Id>, modified: Option<int>)

  /** One atomic conditional write of everything accepted. */
  predicate Committed(before: Server, after: Server, puts: map<Id, Payload>, since: Option<int>, at: int) {
    at > before.clock && Unmodified(before, since) && after == Write(before, puts, at)
  }

  /** The first `n` requests were all delivered, and found the collection unmodified and their batch still there. */
  predicate Arrived(before: Server, weather: nat -> Weather, n: nat, since: Option<int>) {
    forall i: nat :: i < n ==> ArrivedAt(before, weather, i, since)
  }

  predicate ArrivedAt(before: Server, weather: nat -> Weather, i: nat, since: Option<int>) {
    weather(i).fate == Delivered && Welcome(before, weather, i, since)
  }

  predicate Welcome(before: Server, weather: nat -> Weather, i: nat, since: Option<int>) {
    Unmodified(OthersOnly(before, weather, i + 1), since) && (i > 0 ==> !weather(i).dropped)
  }

  /** The one failure after which the upload did happen. */
  predicate CommitReplyLost(before: Server, weather: nat -> Weather, n: nat, since: Option<int>) {
    n > 0 && Arrived(before, weather, n - 1, since)
    && weather(n - 1).fate == ReplyLost && Welcome(before, weather, n - 1, since)
  }

  /** After one of the requests the collection is what the others alone made of it. */
  predicate NothingSent(before: Server, after: Server, weather: nat -> Weather, n: nat) {
    exists k: nat :: 0 < k <= n && after == OthersOnly(before, weather, k)
  }

  /** The whole upload was committed, and only the reply that says so was lost. */
  ghost predicate EverythingSent(before: Server, after: Server, chunks: seq<seq<Outgoing>>, weather: nat -> Weather,
                                 since: Option<int>) {
    var n := |chunks|;
    exists at: int :: Committed(OthersOnly(before, weather, n), after, PutAll(AcceptedSoFar(chunks, weather, n)),
                                since, at)
  }

  /** What a failed upload leaves. */
  ghost predicate AllOrNothing(before: Server, after: Server, chunks: seq<seq<Outgoing>>, weather: nat -> Weather,
                               since: Option<int>, error: PostError)
  {
    if CommitReplyLost(before, weather, |chunks|, since)
    then error == NetworkDown && EverythingSent(before, after, chunks, weather, since)
    else NothingSent(before, after, weather, |chunks|)
  }

  /** The batch holds what was accepted in the first `i` requests, and nothing of it shows yet. */
  predicate Staged(node: Node, c0: Server, chunks: seq<seq<Outgoing>>, weather: nat -> Weather, batch: Option<nat>,
                   i: nat)
    requires i <= |chunks|
  {
    && node.collection == OthersOnly(c0, weather, i)
    && (i == 0 <==> batch.None?)
    && (batch.Some? ==> batch.value in node.staged && node.staged[batch.value] == AcceptedSoFar(chunks, weather, i))
  }

  function QueryFor(batch: Option<nat>, last: bool): Query {
    Query(if batch.None? then Open else Append(batch.value), last)
  }

  /** An answer that continues a batch holding `all` in the end, or commits it. */
  predicate Continues(others: Server, after: Node, answer: Result<PostResponse, PostError>, all: seq<Outgoing>,
                      last: bool, since: Option<int>)
  {
    if !Unmodified(others, since) then answer == Err(PreconditionFailed) && after.collection == others
    else if last then
      && answer.Ok? && answer.value.modified.Some?
      && Committed(others, after.collection, PutAll(all), since, answer.value.modified.value)
    else
      && answer.Ok? && answer.value.modified.None? && answer.value.batch.Some?
      && after.collection == others
      && answer.value.batch.value in after.staged && after.staged[answer.value.batch.value] == all
  }

  lemma RequestHandled(before: Node, batch: Option<nat>, held: seq<Outgoing>, body: seq<Outgoing>, last: bool,
                       since: Option<int>, rejected: set<Id>, delay: nat)
    requires if batch.Some? then batch.value in before.staged && before.staged[batch.value] == held else held == []
    ensures var (after, answer) := Handle(before, QueryFor(batch, last), body, since, rejected, delay);
            && Continues(before.collection, after, answer, held + Accept(body, rejected), last, since)
            && (answer.Ok? ==>
                  && answer.value.success == Ids(Accept(body, rejected))
                  && answer.value.failed == Refuse(body, rejected))
  {
    if batch.None? { assert held + Accept(body, rejected) == Accept(body, rejected); }
  }

  /** One turn of the loop: the batch grows, is committed, or the upload has failed as a whole. */
  lemma OneRequest(c0: Server, chunks: seq<seq<Outgoing>>, weather: nat -> Weather, since: Option<int>,
                   batch: Option<nat>,
                   i: nat, pre: Node, post: Node, reply: Result<PostResponse, PostError>)
    requires i < |chunks| && Staged(pre, c0, chunks, weather, batch, i) && Arrived(c0, weather, i, since)
    requires Exchange(pre, post, QueryFor(batch, i == |chunks| - 1), chunks[i], since, weather(i), reply)
    ensures reply.Err? ==>
              && !Arrived(c0, weather, |chunks|, since)
              && AllOrNothing(c0, post.collection, chunks, weather, since, reply.error)
    ensures reply.Ok? ==>
              && Arrived(c0, weather, i + 1, since)
              && Unmodified(OthersOnly(c0, weather, i + 1), since)
              && Continues(OthersOnly(c0, weather, i + 1), post, reply, AcceptedSoFar(chunks, weather, i + 1),
                           i == |chunks| - 1, since)
              && reply.value.success == Ids(Accept(chunks[i], weather(i).rejected))
              && reply.value.failed == Refuse(chunks[i], weather(i).rejected)
  {
    var others, last := OthersOnly(c0, weather, i + 1), i == |chunks| - 1;
    var before := Found(pre, weather(i));
    var held := AcceptedSoFar(chunks, weather, i);
    if i == 0 || !weather(i).dropped {
      RequestHandled(before, batch, held, chunks[i], last, since, weather(i).rejected, weather(i).delay);
    }
    var (after, answer) := Handle(before, QueryFor(batch, last), chunks[i], since, weather(i).rejected,
                                  weather(i).delay);
    assert AcceptedSoFar(chunks, weather, i + 1) == held + Accept(chunks[i], weather(i).rejected);
    if reply.Err? {
      assert !ArrivedAt(c0, weather, i, since);
      if CommitReplyLost(c0, weather, |chunks|, since) {
        assert last;
        assert Committed(others, post.collection, PutAll(AcceptedSoFar(chunks, weather, |chunks|)), since,
                         answer.value.modified.value);
      } else {
        assert post.collection == others;
      }
    } else {
      assert ArrivedAt(c0, weather, i, since);
    }
  }

  /**
   * The chunk loop. It succeeds exactly when every request was delivered and
   * met its precondition and its batch, and then the whole upload is one atomic
   * conditional write on top of what the others did. On an error the collection
   * is what the others made of it, except that a lost reply to the committing
   * request leaves the whole write. Never a part of it.
   */
  method PostRecordsBatched(node: StorageNode, bsos: seq<Outgoing>, since: Option<int>, limits: Limits,
                            weather: nat -> Weather)
    returns (result: Result<UploadOutcome, PostError>)
    modifies node
    ensures var chunks := Split([], bsos, limits);
            var n := |chunks|;
            var c0 := old(node.state.collection);
            && (bsos == [] ==> result == Ok(UploadOutcome([], [], None)) && node.state == old(node.state))
            && (bsos != [] && result.Ok? ==>
                  && result.value.success == Ids(AcceptedSoFar(chunks, weather, n))
                  && result.value.failed == RefusedSoFar(chunks, weather, n)
                  && result.value.modified.Some?
                  && Committed(OthersOnly(c0, weather, n), node.state.collection,
                               PutAll(AcceptedSoFar(chunks, weather, n)), since, result.value.modified.value))
            && (bsos != [] ==> (result.Ok? <==> Arrived(c0, weather, n, since)))
            && (bsos != [] && result.Err? ==>
                  AllOrNothing(c0, node.state.collection, chunks, weather, since, result.error))
  {
    hide Handle, Found, OthersAct, Exchange, Accept, Refuse, PutAll, Write;
    if |bsos| == 0 {
      return Ok(UploadOutcome([], [], None));
    }
    var chunks := Chunks(bsos, limits);
    SplitFlattens([], bsos, limits);
    ghost var c0 := node.state.collection;
    var success: seq<Id> := [];
    var failed: seq<Id> := [];
    var batchId: Option<nat> := None;
    var modified: Option<int> := None;
    assert |chunks| > 0;
    for i := 0 to |chunks|
      invariant success == Ids(AcceptedSoFar(chunks, weather, i))
      invariant failed == RefusedSoFar(chunks, weather, i)
      invariant Arrived(c0, weather, i, since)
      invariant i < |chunks| ==> Staged(node.state, c0, chunks, weather, batchId, i)
      invariant i == |chunks| ==>
        && modified.Some?
        && Committed(OthersOnly(c0, weather, i), node.state.collection, PutAll(AcceptedSoFar(chunks, weather, i)),
                     since, modified.value)
    {
      var isFirst, isLast := i == 0, i == |chunks| - 1;
      var query := Query(if isFirst then Open else if batchId.Some? then Append(batchId.value) else NoBatch, isLast);
      ghost var pre := node.state;
      var reply := node.Post(query, chunks[i], since, weather(i));
      OneRequest(c0, chunks, weather, since, batchId, i, pre, node.state, reply);
      if reply.Err? {
        return Err(reply.error);
      }
      var response := reply.value;
      IdsConcat(AcceptedSoFar(chunks, weather, i), Accept(chunks[i], weather(i).rejected));
      success := success + response.success;
      failed := failed + response.failed;
      if response.batch.Some? {
        batchId := response.batch;
      }
      if response.modified.Some? {
        modified := response.modified;
      }
    }
    result := Ok(UploadOutcome(success, failed, modified));
  }

  lemma IdsConcat(a: seq<Outgoing>, b: seq<Outgoing>)
    ensures Ids(a + b) == Ids(a) + Ids(b)
  {
  }

  // ------------------------------------------------ the write, whatever the chunks

  /** What was accepted out of a list, as a map, is the list's map minus the refused ids. */
  lemma {:induction false} AcceptedMap(body: seq<Outgoing>, rejected: set<Id>)
    ensures PutAll(Accept(body, rejected)) == map id | id in PutAll(body) && id !in rejected :: PutAll(body)[id]
  {
    if body != [] {
      var n := |body| - 1;
      AcceptedMap(body[..n], rejected);
      var before, last := Accept(body[..n], rejected), body[n];
      if last.id !in rejected {
        assert (before + [last])[..|before|] == before;
      } else {
        assert before + [] == before;
      }
    }
  }

  /** What was refused out of a list, too, goes by its ids. */
  lemma {:induction false} RefusedIds(body: seq<Outgoing>, rejected: set<Id>, id: Id)
    ensures id in Refuse(body, rejected) <==> id in rejected && id in PutAll(body)
  {
    if body != [] {
      RefusedIds(body[..|body| - 1], rejected, id);
    }
  }

  lemma {:induction false} RefuseAppend(a: seq<Outgoing>, b: seq<Outgoing>, rejected: set<Id>)
    ensures Refuse(a + b, rejected) == Refuse(a, rejected) + Refuse(b, rejected)
  {
    if b == [] {
      assert a + b == a;
    } else {
      assert (a + b)[..|a + b| - 1] == a + b[..|b| - 1];
      RefuseAppend(a, b[..|b| - 1], rejected);
    }
  }

  lemma {:induction false} RefusedByChunks(chunks: seq<seq<Outgoing>>, weather: nat -> Weather, rejected: set<Id>,
                                           n: nat)
    requires n <= |chunks| && forall i: nat :: weather(i).rejected == rejected
    ensures RefusedSoFar(chunks, weather, n) == Refuse(Flatten(chunks[..n]), rejected)
  {
    if n > 0 {
      RefusedByChunks(chunks, weather, rejected, n - 1);
      assert chunks[..n] == chunks[..n - 1] + [chunks[n - 1]];
      FlattenAppend(chunks[..n - 1], chunks[n - 1]);
      RefuseAppend(Flatten(chunks[..n - 1]), chunks[n - 1], rejected);
    }
  }

  lemma {:induction false} AcceptAppend(a: seq<Outgoing>, b: seq<Outgoing>, rejected: set<Id>)
    ensures Accept(a + b, rejected) == Accept(a, rejected) + Accept(b, rejected)
  {
    if b == [] {
      assert a + b == a;
    } else {
      assert (a + b)[..|a + b| - 1] == a + b[..|b| - 1];
      AcceptAppend(a, b[..|b| - 1], rejected);
    }
  }

  lemma {:induction false} FlattenAppend(chunks: seq<seq<Outgoing>>, last: seq<Outgoing>)
    ensures Flatten(chunks + [last]) == Flatten(chunks) + last
  {
    if chunks == [] {
      assert [last][1..] == [];
      assert chunks + [last] == [last];
    } else {
      assert (chunks + [last])[1..] == chunks[1..] + [last];
      FlattenAppend(chunks[1..], last);
    }
  }

  /** When the server judges by id, chunking does not show in what is accepted. */
  lemma {:induction false} AcceptedByChunks(chunks: seq<seq<Outgoing>>, weather: nat -> Weather, rejected: set<Id>,
                                            n: nat)
    requires n <= |chunks| && forall i: nat :: weather(i).rejected == rejected
    ensures AcceptedSoFar(chunks, weather, n) == Accept(Flatten(chunks[..n]), rejected)
  {
    if n > 0 {
      AcceptedByChunks(chunks, weather, rejected, n - 1);
      assert chunks[..n] == chunks[..n - 1] + [chunks[n - 1]];
      FlattenAppend(chunks[..n - 1], chunks[n - 1]);
      AcceptAppend(Flatten(chunks[..n - 1]), chunks[n - 1], rejected);
    }
  }

  /**
   * The refinement: against a server whose verdict on a record does not depend
   * on the request it came in, what a successful upload writes is independent
   * of the chunking.
   */
  lemma ChunkedWriteIsOneWrite(bsos: seq<Outgoing>, limits: Limits, weather: nat -> Weather, rejected: set<Id>)
    requires forall i: nat :: weather(i).rejected == rejected
    ensures var chunks := Split([], bsos, limits);
            PutAll(AcceptedSoFar(chunks, weather, |chunks|))
              == map id | id in PutAll(bsos) && id !in rejected :: PutAll(bsos)[id]
  {
    var chunks := Split([], bsos, limits);
    AcceptedByChunks(chunks, weather, rejected, |chunks|);
    assert chunks[..|chunks|] == chunks;
    SplitFlattens([], bsos, limits);
    assert [] + bsos == bsos;
    AcceptedMap(bsos, rejected);
  }
}
