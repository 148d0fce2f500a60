/**
 * Which posts replace or pass over a version their author had not read. Under a
 * precondition none does; a post without one depends on what the server holds.
 */
module Clobber {
  import opened Wrappers
  import opened Records
  import opened Reconciliation
  import opened SyncServer
  import opened Protocol
  import opened Agreement

  /** A pass that was told the collection is absent, and so will post without a precondition. */
  predicate Blind(pass: Pass) {
    match pass
    case Informed(info) => info.None?
    case Begun(info, mark, _) => info.None? && mark.None?
    case Fetched(_, _, water, _) => water.None?
    case Planned(_, _, water, _, _) => water.None?
    case Merged(_, _, water, _) => water.None?
    case _ => false
  }

  predicate NothingSeen(cl: Client, sv: Server) {
    forall id :: id in sv.objects ==> !WasSeen(cl.seen, id, sv.objects[id])
  }

  predicate SeenUpTo(seen: map<Id, int>, id: Id, modified: int) {
    id in seen && modified <= seen[id]
  }

  /** What a pass holds of the server was sent to this client, or learned to be written by it. */
  predicate PassTraced(cl: Client) {
    match cl.pass
    case Fetched(_, _, _, remote) => forall id :: id in remote ==> SeenUpTo(cl.seen, id, remote[id].modified)
    case Planned(_, _, _, apply, _) => forall id :: id in apply ==> SeenUpTo(cl.seen, id, apply[id].modified)
    case Posted(_, _, newMark, sent, _) => forall id :: id in sent ==> SeenUpTo(cl.seen, id, newMark)
    case _ => true
  }

  predicate RecordsTraced(cl: Client) {
    forall id :: id in cl.records && !cl.records[id].dirty ==>
      cl.records[id].syncedAt.Some? && SeenUpTo(cl.seen, id, cl.records[id].syncedAt.value)
  }

  /** Where a clean record's version comes from: it was seen. */
  predicate Traced(cl: Client) {
    RecordsTraced(cl) && PassTraced(cl)
  }

  /**
   * Versions are seen after they were handed out, no object is older than what was
   * seen of it, and a blind pass has seen none of what is there.
   */
  predicate HistoryInv(cl: Client, sv: Server) {
    && (forall id :: id in cl.seen ==> cl.seen[id] <= sv.clock)
    && (forall id :: id in cl.seen && id in sv.objects ==> cl.seen[id] <= sv.objects[id].modified)
    && (Blind(cl.pass) ==> NothingSeen(cl, sv))
  }

  predicate AllHistory(s: State) {
    && ServerInv(s.server)
    && forall c :: 0 <= c < |s.clients| ==>
      HistoryInv(s.clients[c], s.server) && Traced(s.clients[c])
  }

  lemma OthersKeepHistory(cl: Client, sv: Server, sv': Server)
    requires HistoryInv(cl, sv) && Advances(sv, sv')
    ensures HistoryInv(cl, sv')
  {
  }

  lemma PullKeepsHistory(cl: Client, sv: Server)
    requires ServerInv(sv) && HistoryInv(cl, sv) && cl.pass.Begun?
    ensures HistoryInv(Pull(cl, sv), sv)
  {
  }

  lemma AcceptedKeepsHistory(cl: Client, sv: Server, at: int, rejected: set<Id>)
    requires ServerInv(sv) && HistoryInv(cl, sv) && cl.pass.Merged? && at > sv.clock
    ensures HistoryInv(Accepted(cl, at, rejected), Write(sv, Puts(cl.pass.upload, rejected), at))
  {
  }

  lemma PostKeepsHistory(cl: Client, sv: Server, step: Step)
    requires ServerInv(sv) && HistoryInv(cl, sv) && (step.PostStep? || step.PostLostStep?)
    ensures HistoryInv(ClientAfter(cl, sv, step), ServerAfter(cl, sv, step))
  {
    hide Pull, ApplyEdit, Overwritten, Accepted, Write, Puts, ServerInv;
    if cl.pass.Merged? && step.at > sv.clock && Unmodified(sv, cl.pass.water) {
      AcceptedKeepsHistory(cl, sv, step.at, step.rejected);
      WriteAdvances(sv, Puts(cl.pass.upload, step.rejected), step.at);
      OthersKeepHistory(cl, sv, ServerAfter(cl, sv, step));
    }
  }

  lemma SilentStepKeepsHistory(cl: Client, sv: Server, step: Step)
    requires ServerInv(sv) && HistoryInv(cl, sv) && !step.ReadStep? && !step.PostStep? && !step.PostLostStep?
    ensures HistoryInv(ClientAfter(cl, sv, step), sv) && ServerAfter(cl, sv, step) == sv
  {
    hide Pull, Accepted, ApplyEdit, Overwritten, Applies, Uploads, MarkSynced, Purge;
  }

  lemma PullKeepsTraced(cl: Client, sv: Server)
    requires HistoryInv(cl, sv) && Traced(cl) && cl.pass.Begun?
    ensures Traced(Pull(cl, sv))
  {
    hide ReadNewer, SeenAll, DecodeAll;
    var after := Pull(cl, sv);
    SeenGrows(cl, sv);
    FetchedWasSeen(cl, sv);
  }

  lemma SeenGrows(cl: Client, sv: Server)
    requires HistoryInv(cl, sv) && cl.pass.Begun?
    ensures forall id, modified :: SeenUpTo(cl.seen, id, modified) ==> SeenUpTo(Pull(cl, sv).seen, id, modified)
  {
  }

  lemma FetchedWasSeen(cl: Client, sv: Server)
    requires cl.pass.Begun?
    ensures PassTraced(Pull(cl, sv))
  {
  }

  lemma ActorKeepsTraced(cl: Client, sv: Server, step: Step)
    requires HistoryInv(cl, sv) && Traced(cl)
    ensures Traced(ClientAfter(cl, sv, step))
  {
    hide Pull, HistoryInv;
    if step.ReadStep? {
      if cl.pass.Begun? { PullKeepsTraced(cl, sv); }
    } else if step.PostStep? {
      PostKeepsTraced(cl, sv, step);
    } else {
      SilentStepKeepsTraced(cl, sv, step);
    }
  }

  lemma PostKeepsTraced(cl: Client, sv: Server, step: Step)
    requires HistoryInv(cl, sv) && Traced(cl) && step.PostStep?
    ensures Traced(ClientAfter(cl, sv, step))
  {
  }

  lemma SilentStepKeepsTraced(cl: Client, sv: Server, step: Step)
    requires Traced(cl) && !step.ReadStep? && !step.PostStep?
    ensures Traced(ClientAfter(cl, sv, step))
  {
    hide Pull, Accepted;
  }

  lemma ActorKeepsHistory(cl: Client, sv: Server, step: Step)
    requires ServerInv(sv) && HistoryInv(cl, sv)
    ensures HistoryInv(ClientAfter(cl, sv, step), ServerAfter(cl, sv, step))
  {
    hide HistoryInv;
    if step.PostStep? || step.PostLostStep? {
      PostKeepsHistory(cl, sv, step);
    } else if !step.ReadStep? {
      SilentStepKeepsHistory(cl, sv, step);
    } else if cl.pass.Begun? {
      PullKeepsHistory(cl, sv);
    }
  }

  lemma {:induction false} RunKeepsHistory(s: State, steps: seq<Step>)
    requires AllHistory(s)
    ensures AllHistory(Run(s, steps))
    decreases |steps|
  {
    if steps != [] {
      var step, s' := steps[0], Next(s, steps[0]);
      if ClientOf(step).Some? && ClientOf(step).value < |s.clients| {
        var a := ClientOf(step).value;
        ServerAfterAdvances(s.clients[a], s.server, step);
        ActorKeepsHistory(s.clients[a], s.server, step);
        ActorKeepsTraced(s.clients[a], s.server, step);
      } else {
        assert Advances(s.server, s'.server);
      }
      forall c | 0 <= c < |s'.clients| ensures HistoryInv(s'.clients[c], s'.server) && Traced(s'.clients[c]) {
        if ClientOf(step) != Some(c) { OthersKeepHistory(s.clients[c], s.server, s'.server); }
      }
      RunKeepsHistory(s', steps[1..]);
    }
  }

  /** The client's next post, at this time, is accepted by the server. */
  predicate Commits(s: State, c: nat, at: int) {
    && c < |s.clients| && s.clients[c].pass.Merged? && at > s.server.clock
    && Unmodified(s.server, s.clients[c].pass.water)
  }

  /** The author has read the current version of everything on the server. */
  predicate ReadAll(s: State, c: nat)
    requires c < |s.clients|
  {
    forall id :: id in s.server.objects ==> WasSeen(s.clients[c].seen, id, s.server.objects[id])
  }

  /**
   * In every sound run, a post that commits replaces no version, and covers none
   * with its new mark, that its author had not read: exactly when it carries a
   * precondition or the collection is empty.
   */
  lemma PostClobbersNothingExactly(s: State, steps: seq<Step>, c: nat, at: int)
    requires Init(s) && SoundRun(s, steps) && Commits(Run(s, steps), c, at)
    ensures ReadAll(Run(s, steps), c)
       <==> Run(s, steps).clients[c].pass.water.Some? || Run(s, steps).server.objects == map[]
  {
    RunKeepsInv(s, steps);
    RunKeepsHistory(s, steps);
    var t := Run(s, steps);
    var cl := t.clients[c];
    assert ClientInv(cl, t.server) && HistoryInv(cl, t.server);
    if cl.pass.water.Some? {
      forall id | id in t.server.objects ensures WasSeen(cl.seen, id, t.server.objects[id]) {
        assert Below(t.server.objects[id], cl.pass.water);
      }
    } else if t.server.objects != map[] {
      var id :| id in t.server.objects;
      assert !WasSeen(cl.seen, id, t.server.objects[id]);
    }
  }

  /** No clobber: in every sound run each committing post has read what it replaces and what its mark will cover. */
  lemma NoClobber(s: State, steps: seq<Step>, c: nat, at: int, rejected: set<Id>)
    requires Init(s) && SoundRun(s, steps) && Commits(Run(s, steps), c, at)
    requires Sound(Run(s, steps), PostStep(c, at, rejected))
    ensures ReadAll(Run(s, steps), c)
  {
    PostClobbersNothingExactly(s, steps, c, at);
  }

  /**
   * A post without a precondition leaves everything on the server read by its
   * author, or written by it, exactly when it overwrites everything that is there.
   */
  lemma UnconditionalPostReadsOrOverwritesExactly(s: State, steps: seq<Step>, c: nat, at: int, rejected: set<Id>)
    requires Init(s) && SoundRun(s, steps) && Commits(Run(s, steps), c, at)
    requires Run(s, steps).clients[c].pass.water.None?
    ensures var t := Run(s, steps);
            var t' := Next(t, PostStep(c, at, rejected));
            ReadAll(t', c) <==> t.server.objects.Keys <= t.clients[c].pass.upload.Keys - rejected
  {
    RunKeepsHistory(s, steps);
    var t := Run(s, steps);
    var cl, sv := t.clients[c], t.server;
    assert HistoryInv(cl, sv);
    CommitIs(t, c, at, rejected);
    hide Next, Accepted, Write, Puts;
    if sv.objects.Keys <= cl.pass.upload.Keys - rejected {
      Overwrites(cl, sv, at, rejected);
    } else {
      var id :| id in sv.objects && id !in cl.pass.upload.Keys - rejected;
      PassedOver(cl, sv, at, rejected, id);
    }
  }

  lemma CommitIs(s: State, c: nat, at: int, rejected: set<Id>)
    requires Commits(s, c, at)
    ensures var s' := Next(s, PostStep(c, at, rejected));
            && c < |s'.clients|
            && s'.clients[c] == Accepted(s.clients[c], at, rejected)
            && s'.server == Write(s.server, Puts(s.clients[c].pass.upload, rejected), at)
  {
  }

  lemma Overwrites(cl: Client, sv: Server, at: int, rejected: set<Id>)
    requires cl.pass.Merged? && sv.objects.Keys <= cl.pass.upload.Keys - rejected
    ensures var after, sv' := Accepted(cl, at, rejected), Write(sv, Puts(cl.pass.upload, rejected), at);
            forall id :: id in sv'.objects ==> WasSeen(after.seen, id, sv'.objects[id])
  {
  }

  lemma PassedOver(cl: Client, sv: Server, at: int, rejected: set<Id>, id: Id)
    requires cl.pass.Merged?
    requires id in sv.objects && id !in cl.pass.upload.Keys - rejected && !WasSeen(cl.seen, id, sv.objects[id])
    ensures var after, sv' := Accepted(cl, at, rejected), Write(sv, Puts(cl.pass.upload, rejected), at);
            id in sv'.objects && !WasSeen(after.seen, id, sv'.objects[id])
  {
  }

  // ----------------------------------- when an unconditional post does no harm

  /** The vault agrees with the server at and below its saved mark. */
  predicate AgreesBelowItsMark(cl: Client, sv: Server) {
    forall id :: id in sv.objects && Below(sv.objects[id], cl.mark) ==> Agrees(cl.records, id, sv.objects[id])
  }

  /**
   * What the post passes over need not have been read: it cannot be, or the vault
   * owes an upload of it, or it deletes what the vault does not have.
   */
  predicate NeedNotBeRead(cl: Client, sv: Server, rejected: set<Id>)
    requires cl.pass.Merged?
  {
    forall id :: id in sv.objects && id !in cl.pass.upload.Keys - rejected ==>
      || !Readable(sv.objects[id])
      || (if id in cl.records then cl.records[id].dirty else sv.objects[id].payload.Tombstone?)
  }

  /** What the server accepts of the upload still is what the vault holds. */
  predicate UploadIsHeld(cl: Client, rejected: set<Id>)
    requires cl.pass.Merged?
  {
    forall id :: id in cl.pass.upload && id !in rejected ==>
      id in cl.records && Encode(cl.records[id]) == Encode(cl.pass.upload[id])
  }

  /** The rest of a pass from its post on. */
  function RestOfPass(c: nat, at: int, rejected: set<Id>): seq<Step> {
    [PostStep(c, at, rejected), MarkStep(c), SaveStep(c)]
  }

  /** The acting client at the end of a pass whose post is accepted. */
  function Ended(cl: Client, at: int, rejected: set<Id>): Client
    requires cl.pass.Merged?
  {
    var marked := MarkAccepted(Accepted(cl, at, rejected));
    marked.(mark := marked.pass.mark, syncId := marked.pass.syncId, pass := Idle)
  }

  lemma RestOfPassEnds(s: State, c: nat, at: int, rejected: set<Id>)
    requires Commits(s, c, at)
    ensures var s' := Run(s, RestOfPass(c, at, rejected));
            && c < |s'.clients|
            && s'.clients[c] == Ended(s.clients[c], at, rejected)
            && s'.server == Write(s.server, Puts(s.clients[c].pass.upload, rejected), at)
  {
    hide Write, Accepted, MarkAccepted, Puts, Unmodified;
    CommitIs(s, c, at, rejected);
    var s1 := Next(s, PostStep(c, at, rejected));
    var s2 := Next(s1, MarkStep(c));
    var s3 := Next(s2, SaveStep(c));
    assert s1.clients[c].pass.Posted? by { PostedIs(s.clients[c], at, rejected); }
    assert s2.clients[c] == MarkAccepted(s1.clients[c]) && s2.server == s1.server;
    MarkedIs(s1.clients[c]);
    var rest := RestOfPass(c, at, rejected);
    assert rest[1..] == [MarkStep(c), SaveStep(c)] && rest[1..][1..] == [SaveStep(c)];
    assert Run(s2, [SaveStep(c)]) == s3;
    assert Run(s1, rest[1..]) == Run(s2, [SaveStep(c)]);
  }

  lemma PostedIs(cl: Client, at: int, rejected: set<Id>)
    requires cl.pass.Merged?
    ensures Accepted(cl, at, rejected).pass.Posted?
  {
  }

  lemma MarkedIs(cl: Client)
    requires cl.pass.Posted?
    ensures MarkAccepted(cl).pass.Finished?
  {
  }

  /** A version that was passed over without being seen is not the one a clean record holds. */
  lemma UnseenDisagrees(cl: Client, sv: Server, id: Id)
    requires RecordsTraced(cl) && HistoryInv(cl, sv)
    requires id in sv.objects && !WasSeen(cl.seen, id, sv.objects[id])
    ensures Agrees(cl.records, id, sv.objects[id])
       <==> !Readable(sv.objects[id])
            || (if id in cl.records then cl.records[id].dirty else sv.objects[id].payload.Tombstone?)
  {
  }

  lemma PassedOverAgreesExactly(cl: Client, sv: Server, at: int, rejected: set<Id>, id: Id)
    requires cl.pass.Merged? && id in sv.objects && id !in cl.pass.upload.Keys - rejected
    ensures var after, sv' := Ended(cl, at, rejected), Write(sv, Puts(cl.pass.upload, rejected), at);
            && id in sv'.objects && sv'.objects[id] == sv.objects[id]
            && (Agrees(after.records, id, sv'.objects[id]) <==> Agrees(cl.records, id, sv.objects[id]))
  {
  }

  lemma AcceptedAgreesExactly(cl: Client, sv: Server, at: int, rejected: set<Id>, id: Id)
    requires cl.pass.Merged? && Owed(cl.records, cl.pass.upload) && RecordsConfirmed(cl.records, sv)
    requires id in cl.pass.upload.Keys - rejected
    ensures var after, sv' := Ended(cl, at, rejected), Write(sv, Puts(cl.pass.upload, rejected), at);
            && id in sv'.objects
            && (Agrees(after.records, id, sv'.objects[id])
                <==> id in cl.records && Encode(cl.records[id]) == Encode(cl.pass.upload[id]))
  {
    hide Accepted, Write, Puts, MarkAccepted;
    PutIs(cl, sv, at, rejected, id);
    assert Confirmed(cl.records[id], id, sv);
  }

  lemma PutIs(cl: Client, sv: Server, at: int, rejected: set<Id>, id: Id)
    requires cl.pass.Merged? && id in cl.pass.upload.Keys - rejected && id in cl.records
    ensures var after, sv' := Ended(cl, at, rejected), Write(sv, Puts(cl.pass.upload, rejected), at);
            && id in sv'.objects && sv'.objects[id] == Bso(Encode(cl.pass.upload[id]), at)
            && id in after.records && after.records[id] == cl.records[id].(dirty := false, syncedAt := Some(at))
  {
  }

  /** The mark of the ended pass covers everything on the server. */
  lemma MarkCoversAll(cl: Client, sv: Server, at: int, rejected: set<Id>)
    requires cl.pass.Merged? && ServerInv(sv) && at > sv.clock
    ensures var sv' := Write(sv, Puts(cl.pass.upload, rejected), at);
            && sv'.objects.Keys == sv.objects.Keys + (cl.pass.upload.Keys - rejected)
            && forall id :: id in sv'.objects ==> Below(sv'.objects[id], Ended(cl, at, rejected).mark)
  {
  }

  /**
   * The pass of a post without a precondition ends with its author in agreement
   * below the new mark exactly when everything on the server that it did not
   * overwrite need not have been read, and what it wrote is still what it holds.
   */
  lemma UnconditionalPostAgreesExactly(s: State, steps: seq<Step>, c: nat, at: int, rejected: set<Id>)
    requires Init(s) && SoundRun(s, steps) && Commits(Run(s, steps), c, at)
    requires Run(s, steps).clients[c].pass.water.None?
    ensures var t := Run(s, steps);
            var t' := Run(t, RestOfPass(c, at, rejected));
            && c < |t'.clients|
            && (AgreesBelowItsMark(t'.clients[c], t'.server)
                <==> NeedNotBeRead(t.clients[c], t.server, rejected) && UploadIsHeld(t.clients[c], rejected))
  {
    RunKeepsInv(s, steps);
    RunKeepsHistory(s, steps);
    var t := Run(s, steps);
    var cl, sv := t.clients[c], t.server;
    assert ClientInv(cl, sv) && HistoryInv(cl, sv) && Traced(cl);
    RestOfPassEnds(t, c, at, rejected);
    EndedAgreesExactly(cl, sv, at, rejected);
  }

  lemma EndedAgreesExactly(cl: Client, sv: Server, at: int, rejected: set<Id>)
    requires cl.pass.Merged? && cl.pass.water.None? && at > sv.clock
    requires ServerInv(sv) && ClientInv(cl, sv) && HistoryInv(cl, sv) && Traced(cl)
    ensures AgreesBelowItsMark(Ended(cl, at, rejected), Write(sv, Puts(cl.pass.upload, rejected), at))
       <==> NeedNotBeRead(cl, sv, rejected) && UploadIsHeld(cl, rejected)
  {
    hide Agrees, Accepted, MarkAccepted, Write, Puts, Ended, Below, Readable, ServerInv, RecordsConfirmed;
    var after, sv' := Ended(cl, at, rejected), Write(sv, Puts(cl.pass.upload, rejected), at);
    MarkCoversAll(cl, sv, at, rejected);
    forall id | id in sv.objects && id !in cl.pass.upload.Keys - rejected
      ensures sv'.objects[id] == sv.objects[id]
      ensures Agrees(after.records, id, sv'.objects[id])
         <==> !Readable(sv.objects[id])
              || (if id in cl.records then cl.records[id].dirty else sv.objects[id].payload.Tombstone?)
    {
      PassedOverAgreesExactly(cl, sv, at, rejected, id);
      UnseenDisagrees(cl, sv, id);
    }
    forall id | id in cl.pass.upload.Keys - rejected
      ensures Agrees(after.records, id, sv'.objects[id])
         <==> id in cl.records && Encode(cl.records[id]) == Encode(cl.pass.upload[id])
    {
      AcceptedAgreesExactly(cl, sv, at, rejected, id);
    }
  }
}
