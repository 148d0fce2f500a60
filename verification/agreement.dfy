/**
 * Safety of the protocol over every sound run: a vault agrees with the server at
 * and below its high-water mark, and has read everything there.
 */
module Agreement {
  import opened Wrappers
  import opened Records
  import opened Reconciliation
  import opened SyncServer
  import opened Protocol

  predicate Readable(bso: Bso) {
    !bso.payload.Unreadable?
  }

  /** The record holds exactly what the object holds. */
  predicate SameContent(record: LocalRecord, payload: Payload) {
    if record.deleted then payload.Tombstone? else record.data.Some? && payload == Live(record.data.value)
  }

  /**
   * What a vault may hold for one server object it has dealt with: a record
   * with local edits, an identical clean record confirmed at the object's own
   * timestamp, or nothing when the object is a tombstone.
   */
  predicate Agrees(records: map<Id, LocalRecord>, id: Id, bso: Bso) {
    !Readable(bso)
    || (if id in records then
          records[id].dirty || (SameContent(records[id], bso.payload) && records[id].syncedAt == Some(bso.modified))
        else bso.payload.Tombstone?)
  }

  predicate Below(bso: Bso, mark: Option<int>) {
    mark.Some? && bso.modified <= mark.value
  }

  predicate WasSeen(seen: map<Id, int>, id: Id, bso: Bso) {
    id in seen && seen[id] == bso.modified
  }

  /** Everything at or below the mark has been read and dealt with. */
  predicate AgreesBelow(cl: Client, mark: Option<int>, sv: Server) {
    forall id :: id in sv.objects && Below(sv.objects[id], mark) ==>
      Agrees(cl.records, id, sv.objects[id]) && WasSeen(cl.seen, id, sv.objects[id])
  }

  predicate MarkBounded(mark: Option<int>, sv: Server) {
    mark.Some? ==> mark.value <= sv.clock
  }

  /** A clean record was confirmed at a version the object has had, and has it still or has a later one. */
  predicate Confirmed(record: LocalRecord, id: Id, sv: Server) {
    && WellFormed(record)
    && record.id == id
    && (!record.dirty ==>
          && record.syncedAt.Some?
          && record.syncedAt.value <= sv.clock
          && (id in sv.objects ==>
                && record.syncedAt.value <= sv.objects[id].modified
                && (record.syncedAt.value == sv.objects[id].modified ==> SameContent(record, sv.objects[id].payload))))
  }

  predicate RecordsConfirmed(records: map<Id, LocalRecord>, sv: Server) {
    forall id :: id in records ==> Confirmed(records[id], id, sv)
  }

  /** A fetched record is the object's version of then, or of now. */
  predicate FetchedFrom(r: RemoteRecord, id: Id, mark: Option<int>, water: Option<int>, sv: Server) {
    && r.id == id
    && (r.deleted <==> r.data.None?)
    && r.modified <= sv.clock
    && (id in sv.objects ==>
          && r.modified <= sv.objects[id].modified
          && (Below(sv.objects[id], mark) || Below(sv.objects[id], water) ==> r.modified == sv.objects[id].modified)
          && (r.modified == sv.objects[id].modified ==> Decode(id, sv.objects[id]) == Some(r)))
  }

  /** Below the pull's timestamp every object was dealt with before, or is among the fetched. */
  predicate PullCovers(cl: Client, water: Option<int>, remote: map<Id, RemoteRecord>, sv: Server) {
    forall id :: id in sv.objects && Below(sv.objects[id], water) ==>
      && WasSeen(cl.seen, id, sv.objects[id])
      && (Agrees(cl.records, id, sv.objects[id]) || (id in remote && remote[id].modified == sv.objects[id].modified))
  }

  /** What is about to be uploaded is well formed, and the vault still owes an upload of each of these ids. */
  predicate Owed(records: map<Id, LocalRecord>, upload: map<Id, LocalRecord>) {
    forall id :: id in upload ==> id in records && records[id].dirty && WellFormed(upload[id])
  }

  /** An accepted upload is on the server, or something later is. */
  predicate AcceptedAt(sent: LocalRecord, id: Id, at: int, sv: Server) {
    id in sv.objects ==>
      && at <= sv.objects[id].modified
      && (at == sv.objects[id].modified ==> sv.objects[id].payload == Encode(sent))
  }

  predicate PassInv(cl: Client, sv: Server) {
    match cl.pass
    case Idle => true
    case Informed(_) => true
    case Begun(_, mark, _) => mark == cl.mark || mark.None?
    case Fetched(mark, _, water, remote) =>
      && (mark == cl.mark || mark.None?)
      && MarkBounded(water, sv)
      && (forall id :: id in remote ==> FetchedFrom(remote[id], id, cl.mark, water, sv))
      && PullCovers(cl, water, remote, sv)
    case Planned(mark, _, water, apply, upload) =>
      && (mark == cl.mark || mark.None?)
      && MarkBounded(water, sv)
      && (forall id :: id in apply ==> FetchedFrom(apply[id], id, cl.mark, water, sv))
      && PullCovers(cl, water, apply, sv)
      && Owed(cl.records, upload)
      && apply.Keys !! upload.Keys
    case Merged(mark, _, water, upload) =>
      && (mark == cl.mark || mark.None?)
      && MarkBounded(water, sv)
      && AgreesBelow(cl, water, sv)
      && Owed(cl.records, upload)
    case Posted(mark, _, newMark, sent, _) =>
      && (mark == cl.mark || mark.None?)
      && newMark <= sv.clock
      && (cl.mark.Some? ==> cl.mark.value < newMark)
      && Owed(cl.records, sent)
      && (forall id :: id in sent ==> AcceptedAt(sent[id], id, newMark, sv))
      && (forall id :: id in sv.objects && sv.objects[id].modified <= newMark ==>
            && WasSeen(cl.seen, id, sv.objects[id])
            && (id in sent || Agrees(cl.records, id, sv.objects[id])))
    case Finished(mark, _, _) =>
      && MarkBounded(mark, sv)
      && AgreesBelow(cl, mark, sv)
  }

  predicate ClientInv(cl: Client, sv: Server) {
    && RecordsConfirmed(cl.records, sv)
    && MarkBounded(cl.mark, sv)
    && AgreesBelow(cl, cl.mark, sv)
    && PassInv(cl, sv)
  }

  predicate Inv(s: State) {
    && ServerInv(s.server)
    && forall c :: 0 <= c < |s.clients| ==> ClientInv(s.clients[c], s.server)
  }

  // ------------------------------------------------- steps taken by somebody else

  lemma OthersKeepConfirmed(records: map<Id, LocalRecord>, sv: Server, sv': Server)
    requires ServerInv(sv) && RecordsConfirmed(records, sv) && Advances(sv, sv')
    ensures RecordsConfirmed(records, sv')
  {
  }

  /** Whatever happens at the server, a client's invariant survives it. */
  lemma OthersKeepClientInv(cl: Client, sv: Server, sv': Server)
    requires ServerInv(sv) && ClientInv(cl, sv) && Advances(sv, sv')
    ensures ClientInv(cl, sv')
  {
    hide Confirmed, Agrees, WellFormed;
    OthersKeepConfirmed(cl.records, sv, sv');
    match cl.pass
    case Fetched(_, _, water, remote) =>
      forall id | id in remote ensures FetchedFrom(remote[id], id, cl.mark, water, sv') {
        assert FetchedFrom(remote[id], id, cl.mark, water, sv);
      }
    case Planned(_, _, water, apply, _) =>
      forall id | id in apply ensures FetchedFrom(apply[id], id, cl.mark, water, sv') {
        assert FetchedFrom(apply[id], id, cl.mark, water, sv);
      }
    case Posted(_, _, newMark, sent, _) =>
      forall id | id in sent ensures AcceptedAt(sent[id], id, newMark, sv') {
        assert AcceptedAt(sent[id], id, newMark, sv);
      }
    case _ =>
  }

  // --------------------------------------------------- steps of the client itself

  lemma EditKeepsConfirmed(records: map<Id, LocalRecord>, sv: Server, id: Id, edit: Edit)
    requires RecordsConfirmed(records, sv)
    ensures RecordsConfirmed(ApplyEdit(records, id, edit), sv)
  {
  }

  /** What an edit leaves is held by the vault still, and is dirty where it was or differs. */
  lemma EditLeavesDirty(records: map<Id, LocalRecord>, id: Id, edit: Edit)
    requires forall k :: k in records ==> WellFormed(records[k])
    ensures var after := ApplyEdit(records, id, edit);
            && (forall k :: k in records ==> k in after && (after[k] == records[k] || after[k].dirty))
            && (forall k :: k in after && k !in records ==> after[k].dirty)
  {
  }

  /** A local edit keeps the invariant at any point of a pass. */
  lemma EditKeepsInv(cl: Client, sv: Server, id: Id, edit: Edit)
    requires ClientInv(cl, sv)
    ensures ClientInv(cl.(records := ApplyEdit(cl.records, id, edit)), sv)
  {
    hide ApplyEdit, ServerInv, FetchedFrom, AcceptedAt;
    forall k | k in cl.records ensures WellFormed(cl.records[k]) { assert Confirmed(cl.records[k], k, sv); }
    EditKeepsConfirmed(cl.records, sv, id, edit);
    EditLeavesDirty(cl.records, id, edit);
    forall k, bso | Agrees(cl.records, k, bso) ensures Agrees(ApplyEdit(cl.records, id, edit), k, bso) {}
  }

  lemma PurgeKeepsInv(cl: Client, sv: Server, now: int, maxAge: int)
    requires ClientInv(cl, sv)
    ensures ClientInv(cl.(records := Purge(cl.records, ExpiredIds(cl.records, now, maxAge))), sv)
  {
  }

  lemma PullKeepsInv(cl: Client, sv: Server)
    requires ServerInv(sv) && ClientInv(cl, sv) && cl.pass.Begun?
    ensures ClientInv(Pull(cl, sv), sv)
  {
    var p := cl.pass;
    if ServerHasChanges(p.info, p.mark) {
      var after := Pull(cl, sv);
      var water, remote := after.pass.water, after.pass.remote;
      forall id | id in remote ensures FetchedFrom(remote[id], id, cl.mark, water, sv) {}
      forall id | id in sv.objects && Below(sv.objects[id], p.mark)
        ensures WasSeen(after.seen, id, sv.objects[id]) && Agrees(cl.records, id, sv.objects[id])
      {
        assert WasSeen(cl.seen, id, sv.objects[id]);
      }
      assert PullCovers(after, water, remote, sv);
    }
  }

  /** A pull fetches what was written after the mark, all of it that can be read, and nothing else. */
  lemma PullFetchesWhatIsNew(cl: Client, sv: Server, id: Id)
    requires ServerInv(sv) && ClientInv(cl, sv) && cl.pass.Begun? && cl.pass.info == sv.lastModified
    ensures id in Pull(cl, sv).pass.remote
       <==> id in sv.objects && Readable(sv.objects[id])
            && (cl.pass.mark.Some? ==> cl.pass.mark.value < sv.objects[id].modified)
  {
  }

  lemma PlanKeepsInv(cl: Client, sv: Server)
    requires ServerInv(sv) && ClientInv(cl, sv) && cl.pass.Fetched?
    ensures ClientInv(PlanMerge(cl), sv)
  {
  }

  /** Applying a winner below one of the marks deals with its object; leaving the others alone keeps them dealt with. */
  lemma ApplyDealsWith(cl: Client, sv: Server, id: Id)
    requires ServerInv(sv) && ClientInv(cl, sv) && cl.pass.Planned?
    requires id in sv.objects && (Below(sv.objects[id], cl.pass.water) || Below(sv.objects[id], cl.mark))
    ensures Agrees(Overwritten(cl.records, cl.pass.apply), id, sv.objects[id])
  {
  }

  lemma ApplyKeepsConfirmed(cl: Client, sv: Server)
    requires ServerInv(sv) && ClientInv(cl, sv) && cl.pass.Planned?
    ensures RecordsConfirmed(Overwritten(cl.records, cl.pass.apply), sv)
  {
  }

  lemma ApplyKeepsInv(cl: Client, sv: Server)
    requires ServerInv(sv) && ClientInv(cl, sv) && cl.pass.Planned?
    ensures ClientInv(ApplyPlan(cl), sv)
  {
    var after := ApplyPlan(cl);
    ApplyKeepsConfirmed(cl, sv);
    forall id | id in sv.objects && (Below(sv.objects[id], cl.pass.water) || Below(sv.objects[id], cl.mark))
      ensures Agrees(after.records, id, sv.objects[id])
    {
      ApplyDealsWith(cl, sv, id);
    }
  }

  /** Everything a post leaves alone had been read and dealt with. */
  predicate KnowsTheRest(cl: Client, sv: Server, rejected: set<Id>)
    requires cl.pass.Merged?
  {
    forall id :: id in sv.objects && id !in cl.pass.upload.Keys - rejected ==>
      Agrees(cl.records, id, sv.objects[id]) && WasSeen(cl.seen, id, sv.objects[id])
  }

  lemma AcceptedKeepsInv(cl: Client, sv: Server, at: int, rejected: set<Id>)
    requires ServerInv(sv) && ClientInv(cl, sv) && cl.pass.Merged? && at > sv.clock
    requires KnowsTheRest(cl, sv, rejected)
    ensures ClientInv(Accepted(cl, at, rejected), Write(sv, Puts(cl.pass.upload, rejected), at))
  {
    var sv' := Write(sv, Puts(cl.pass.upload, rejected), at);
    WriteAdvances(sv, Puts(cl.pass.upload, rejected), at);
    OthersKeepClientInv(cl, sv, sv');
    var after := Accepted(cl, at, rejected);
    var sent := after.pass.sent;
    assert sent.Keys == cl.pass.upload.Keys - rejected;
    forall id | id in sent ensures AcceptedAt(sent[id], id, at, sv') {}
    forall id | id in sv'.objects
      ensures WasSeen(after.seen, id, sv'.objects[id]) && (id in sent || Agrees(after.records, id, sv'.objects[id]))
    {
    }
  }

  lemma ThrowKeepsInv(cl: Client, sv: Server)
    requires ClientInv(cl, sv)
    ensures ClientInv(Throw(cl), sv)
  {
  }

  lemma LostReplyKeepsInv(cl: Client, sv: Server, at: int, rejected: set<Id>)
    requires ServerInv(sv) && ClientInv(cl, sv) && cl.pass.Merged? && at > sv.clock
    ensures ClientInv(Throw(cl), Write(sv, Puts(cl.pass.upload, rejected), at))
  {
  }

  /**
   * Clearing the dirty flags keeps the invariant exactly when no accepted record
   * holds something else than the version of it that is still the server's.
   */
  lemma MarkKeepsInvExactly(cl: Client, sv: Server)
    requires ServerInv(sv) && ClientInv(cl, sv) && cl.pass.Posted?
    ensures ClientInv(MarkAccepted(cl), sv) <==> SentIsHeld(cl, sv)
  {
  }

  lemma MarkKeepsInv(cl: Client, sv: Server)
    requires ServerInv(sv) && ClientInv(cl, sv) && cl.pass.Posted? && SentIsHeld(cl, sv)
    ensures ClientInv(MarkAccepted(cl), sv)
  {
  }

  /** The acting client keeps its invariant, against the server its step leaves. */
  lemma ActorKeepsInv(cl: Client, sv: Server, step: Step)
    requires ServerInv(sv) && ClientInv(cl, sv)
    requires (step.PostStep? || step.PostLostStep?) && cl.pass.Merged? && cl.pass.water.None? ==> sv.objects == map[]
    requires step.MarkStep? && cl.pass.Posted? ==> SentIsHeld(cl, sv)
    ensures ClientInv(ClientAfter(cl, sv, step), ServerAfter(cl, sv, step))
  {
    match step
    case EditStep(_, id, edit) => EditKeepsInv(cl, sv, id, edit);
    case PurgeStep(_, now, maxAge) => PurgeKeepsInv(cl, sv, now, maxAge);
    case ReadStep(_) => if cl.pass.Begun? { PullKeepsInv(cl, sv); }
    case PlanStep(_) => if cl.pass.Fetched? { PlanKeepsInv(cl, sv); }
    case ApplyStep(_) => if cl.pass.Planned? { ApplyKeepsInv(cl, sv); }
    case PostStep(_, at, rejected) =>
      if cl.pass.Merged? && at > sv.clock && Unmodified(sv, cl.pass.water) {
        forall id | id in sv.objects ensures Below(sv.objects[id], cl.pass.water) {}
        AcceptedKeepsInv(cl, sv, at, rejected);
      }
    case PostLostStep(_, at, rejected) =>
      if cl.pass.Merged? && at > sv.clock && Unmodified(sv, cl.pass.water) {
        LostReplyKeepsInv(cl, sv, at, rejected);
      }
    case MarkStep(_) => if cl.pass.Posted? { MarkKeepsInv(cl, sv); }
    case ThrowStep(_) => ThrowKeepsInv(cl, sv);
    case _ =>
  }

  lemma ServerAfterAdvances(cl: Client, sv: Server, step: Step)
    requires ServerInv(sv)
    ensures Advances(sv, ServerAfter(cl, sv, step))
  {
  }

  lemma StepKeepsInv(s: State, step: Step)
    requires Inv(s) && Sound(s, step)
    ensures Inv(Next(s, step))
  {
    var s' := Next(s, step);
    if ClientOf(step).Some? && ClientOf(step).value < |s.clients| {
      var a := ClientOf(step).value;
      ServerAfterAdvances(s.clients[a], s.server, step);
      ActorKeepsInv(s.clients[a], s.server, step);
    } else {
      assert Advances(s.server, s'.server);
    }
    forall c | 0 <= c < |s'.clients| ensures ClientInv(s'.clients[c], s'.server) {
      if ClientOf(step) != Some(c) { OthersKeepClientInv(s.clients[c], s.server, s'.server); }
    }
  }

  lemma {:induction false} RunKeepsInv(s: State, steps: seq<Step>)
    requires Inv(s) && SoundRun(s, steps)
    ensures Inv(Run(s, steps))
    decreases |steps|
  {
    if steps != [] {
      StepKeepsInv(s, steps[0]);
      RunKeepsInv(Next(s, steps[0]), steps[1..]);
    }
  }

  // -------------------------------------------------------------- the theorems

  /**
   * In every run, whatever fails and wherever it is cut off, each readable
   * object at or below a client's mark is at that client dirty, or clean with
   * equal content and equal timestamp, or a tombstone it does not hold.
   */
  lemma AgreementBelowTheMark(s: State, steps: seq<Step>, c: nat, id: Id)
    requires Init(s) && SoundRun(s, steps) && c < |Run(s, steps).clients|
    requires id in Run(s, steps).server.objects
    requires Below(Run(s, steps).server.objects[id], Run(s, steps).clients[c].mark)
    ensures Agrees(Run(s, steps).clients[c].records, id, Run(s, steps).server.objects[id])
  {
    RunKeepsInv(s, steps);
    assert ClientInv(Run(s, steps).clients[c], Run(s, steps).server);
  }

  /**
   * A refused post (412) leaves server and records as they were, and from its
   * saved state the next pass fetches every readable object of the collection.
   */
  lemma RefusedPostReadsEverything(cl: Client, sv: Server, sv1: Server, sv2: Server, sv3: Server, at: int,
                                   rejected: set<Id>)
    requires cl.pass.Merged? && at > sv.clock && !Unmodified(sv, cl.pass.water)
    requires ServerInv(sv3) && sv1.lastModified.Some?
    ensures var refused := ClientAfter(cl, sv, PostStep(0, at, rejected));
            var saved := ClientAfter(refused, sv, SaveStep(0));
            var begun := ClientAfter(ClientAfter(saved, sv1, InfoStep(0)), sv2, MetaStep(0));
            var fetched := ClientAfter(begun, sv3, ReadStep(0));
            && ServerAfter(cl, sv, PostStep(0, at, rejected)) == sv
            && saved.records == cl.records && saved.mark.None?
            && fetched.pass.Fetched? && fetched.pass.remote == DecodeAll(sv3.objects)
  {
  }
}
