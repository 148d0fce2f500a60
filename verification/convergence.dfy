/**
 * Once edits stop, two successful passes of every client make all vaults and
 * the server hold the same live records, and a third pass moves nothing.
 */
module Convergence {
  import opened Wrappers
  import opened Records
  import opened Reconciliation
  import opened SyncServer
  import opened Protocol
  import opened Agreement

  /** Passes, failures, crashes and purges; no edits, no other devices. */
  predicate Quiet(step: Step) {
    !step.EditStep? && !step.ForeignStep? && !step.WipeStep? && !step.DeclareStep?
  }

  predicate QuietRun(s: State, steps: seq<Step>)
  {
    SoundRun(s, steps) && forall i :: 0 <= i < |steps| ==> Quiet(steps[i])
  }

  // ------------------------------------------------------- successful passes

  /** How far a client is with one successful pass, begun inside the run. */
  datatype Stage = Waiting | Passing | Done

  function Track(cl: Client, step: Step, c: nat, stage: Stage): Stage {
    if stage == Done || ClientOf(step) != Some(c) then stage
    else if step.InfoStep? && cl.pass.Idle? then Passing
    else if step.SaveStep? && cl.pass.Finished? && stage == Passing then (if cl.pass.ok then Done else Waiting)
    else if step.DieStep? then Waiting
    else if step.ThrowStep? && cl.pass.Informed? then Waiting
    else stage
  }

  function StageAfter(s: State, steps: seq<Step>, c: nat, stage: Stage): Stage
    decreases |steps|
  {
    if steps == [] then stage
    else
      var next := if c < |s.clients| then Track(s.clients[c], steps[0], c, stage) else stage;
      StageAfter(Next(s, steps[0]), steps[1..], c, next)
  }

  /** In this run every client completes a pass with no 412 and no rejected record. */
  predicate EveryClientPasses(s: State, steps: seq<Step>) {
    forall c :: 0 <= c < |s.clients| ==> StageAfter(s, steps, c, Waiting) == Done
  }

  /** The steps of one pass; those that do not apply change nothing. */
  function PassSteps(c: nat, at: int): seq<Step> {
    [InfoStep(c), MetaStep(c), ReadStep(c), PlanStep(c), ApplyStep(c), PostStep(c, at, {}), MarkStep(c), SaveStep(c)]
  }

  /** What is about to be posted needs no soundness hypothesis, and meets no 412. */
  predicate ReadyToPost(cl: Client, sv: Server) {
    if cl.pass.Merged? then
      && Unmodified(sv, cl.pass.water)
      && (cl.pass.water.None? ==> sv.objects == map[])
      && (forall id :: id in cl.pass.upload ==> id in cl.records && cl.records[id] == cl.pass.upload[id])
    else cl.pass.Finished? && cl.pass.ok
  }

  /** The state in which a client's pass has been read, planned and applied, undisturbed. */
  lemma UndisturbedPass(cl: Client, sv: Server, c: nat)
    requires ServerInv(sv) && cl.pass.Idle?
    ensures var begun := ClientAfter(ClientAfter(cl, sv, InfoStep(c)), sv, MetaStep(c));
            var planned := ClientAfter(ClientAfter(begun, sv, ReadStep(c)), sv, PlanStep(c));
            ReadyToPost(ClientAfter(planned, sv, ApplyStep(c)), sv)
  {
    hide SeenAll, DecodeAll, ReadNewer, Decide;
    var begun := ClientAfter(ClientAfter(cl, sv, InfoStep(c)), sv, MetaStep(c));
    var fetched := ClientAfter(begun, sv, ReadStep(c));
    assert fetched.pass.Fetched? && fetched.records == cl.records;
    var planned := ClientAfter(fetched, sv, PlanStep(c));
    UploadsAreHeld(cl.records, fetched.pass.remote);
  }

  lemma UploadsAreHeld(records: map<Id, LocalRecord>, remote: map<Id, RemoteRecord>)
    ensures forall id :: id in Uploads(records, remote) ==>
              id in Overwritten(records, Applies(records, remote))
              && Overwritten(records, Applies(records, remote))[id] == Uploads(records, remote)[id]
  {
  }

  /**
   * The hypothesis can always be met: from any idle state an undisturbed pass
   * is sound, meets no 412, and succeeds.
   */
  lemma UndisturbedPassSucceeds(s: State, c: nat)
    requires ServerInv(s.server) && c < |s.clients| && s.clients[c].pass.Idle?
    ensures SoundRun(s, PassSteps(c, s.server.clock + 1))
    ensures StageAfter(s, PassSteps(c, s.server.clock + 1), c, Waiting) == Done
  {
    var at := s.server.clock + 1;
    UndisturbedPass(s.clients[c], s.server, c);
    var s1 := Next(s, InfoStep(c));
    var s2 := Next(s1, MetaStep(c));
    var s3 := Next(s2, ReadStep(c));
    var s4 := Next(s3, PlanStep(c));
    var s5 := Next(s4, ApplyStep(c));
    var rest := [PostStep(c, at, {}), MarkStep(c), SaveStep(c)];
    OwnStep(s, InfoStep(c), c);
    OwnStep(s1, MetaStep(c), c);
    OwnStep(s2, ReadStep(c), c);
    OwnStep(s3, PlanStep(c), c);
    OwnStep(s4, ApplyStep(c), c);
    hide Next, ClientAfter, ReadyToPost, SoundRun, StageAfter;
    FromTheMergeOnSucceeds(s5, c, at);
    UnfoldFive(s, c, rest);
    assert PassSteps(c, at)
        == [InfoStep(c)] + ([MetaStep(c)] + ([ReadStep(c)] + ([PlanStep(c)] + ([ApplyStep(c)] + rest))));
  }

  predicate BeforePost(step: Step) {
    step.InfoStep? || step.MetaStep? || step.ReadStep? || step.PlanStep? || step.ApplyStep?
  }

  lemma OwnStep(s: State, step: Step, c: nat)
    requires c < |s.clients| && ClientOf(step) == Some(c) && BeforePost(step)
    ensures Next(s, step).server == s.server && c < |Next(s, step).clients|
    ensures Next(s, step).clients[c] == ClientAfter(s.clients[c], s.server, step)
  {
  }

  lemma NextKeepsCount(s: State, step: Step)
    ensures |Next(s, step).clients| == |s.clients|
  {
  }

  lemma UnfoldFive(s: State, c: nat, rest: seq<Step>)
    requires c < |s.clients| && s.clients[c].pass.Idle?
    ensures var steps := [InfoStep(c)] + ([MetaStep(c)] + ([ReadStep(c)] + ([PlanStep(c)] + ([ApplyStep(c)] + rest))));
            var s3 := Next(Next(Next(s, InfoStep(c)), MetaStep(c)), ReadStep(c));
            var s5 := Next(Next(s3, PlanStep(c)), ApplyStep(c));
            && (SoundRun(s, steps) <==> SoundRun(s5, rest))
            && StageAfter(s, steps, c, Waiting) == StageAfter(s5, rest, c, Passing)
  {
    var s1 := Next(s, InfoStep(c));
    var s2 := Next(s1, MetaStep(c));
    var s3 := Next(s2, ReadStep(c));
    var s4 := Next(s3, PlanStep(c));
    var rest4 := [ApplyStep(c)] + rest;
    var rest3 := [PlanStep(c)] + rest4;
    var rest2 := [ReadStep(c)] + rest3;
    hide Next, SoundRun, StageAfter, ClientAfter;
    NextKeepsCount(s, InfoStep(c));
    NextKeepsCount(s1, MetaStep(c));
    NextKeepsCount(s2, ReadStep(c));
    NextKeepsCount(s3, PlanStep(c));
    Unfold(s4, ApplyStep(c), rest, c, Passing);
    Unfold(s3, PlanStep(c), rest4, c, Passing);
    Unfold(s2, ReadStep(c), rest3, c, Passing);
    Unfold(s1, MetaStep(c), rest2, c, Passing);
    Unfold(s, InfoStep(c), [MetaStep(c)] + rest2, c, Waiting);
  }

  lemma FromTheMergeOnSucceeds(s: State, c: nat, at: int)
    requires c < |s.clients| && at > s.server.clock && ReadyToPost(s.clients[c], s.server)
    ensures SoundRun(s, [PostStep(c, at, {}), MarkStep(c), SaveStep(c)])
    ensures StageAfter(s, [PostStep(c, at, {}), MarkStep(c), SaveStep(c)], c, Passing) == Done
  {
    var s1 := Next(s, PostStep(c, at, {}));
    var s2 := Next(s1, MarkStep(c));
    PostThenMark(s, c, at);
    assert ([SaveStep(c)] + [])[1..] == [] && SoundRun(s2, [SaveStep(c)] + []);
    hide SoundPost, SentIsHeld, ReadyToPost, ClientAfter, ServerAfter;
    Unfold(s2, SaveStep(c), [], c, Passing);
    Unfold(s1, MarkStep(c), [SaveStep(c)] + [], c, Passing);
    Unfold(s, PostStep(c, at, {}), [MarkStep(c)] + ([SaveStep(c)] + []), c, Passing);
    assert [PostStep(c, at, {}), MarkStep(c), SaveStep(c)]
        == [PostStep(c, at, {})] + ([MarkStep(c)] + ([SaveStep(c)] + []));
  }

  lemma PostThenMark(s: State, c: nat, at: int)
    requires c < |s.clients| && at > s.server.clock && ReadyToPost(s.clients[c], s.server)
    ensures var s1 := Next(s, PostStep(c, at, {}));
            var s2 := Next(s1, MarkStep(c));
            && Sound(s, PostStep(c, at, {})) && Sound(s1, MarkStep(c)) && Sound(s2, SaveStep(c))
            && |s1.clients| == |s.clients| && |s2.clients| == |s.clients|
            && s2.clients[c].pass.Finished? && s2.clients[c].pass.ok
  {
  }

  lemma Unfold(s: State, step: Step, rest: seq<Step>, c: nat, stage: Stage)
    requires c < |s.clients|
    ensures SoundRun(s, [step] + rest) <==> Sound(s, step) && SoundRun(Next(s, step), rest)
    ensures StageAfter(s, [step] + rest, c, stage)
        == StageAfter(Next(s, step), rest, c, Track(s.clients[c], step, c, stage))
  {
  }

  // --------------------------------------------------------------- the claims

  predicate Converged(s: State) {
    forall c :: 0 <= c < |s.clients| ==> LiveRecords(s.clients[c].records) == LiveObjects(s.server.objects)
  }

  predicate DirtySomewhere(s: State, id: Id) {
    exists c :: 0 <= c < |s.clients| && id in s.clients[c].records && s.clients[c].records[id].dirty
  }

  predicate OnServer(sv: Server, id: Id) {
    id in sv.objects && Readable(sv.objects[id])
  }

  predicate Backed(s: State, id: Id) {
    OnServer(s.server, id) || DirtySomewhere(s, id)
  }

  /** No vault shows a record that the server lost and that nobody would upload again. */
  predicate NoOrphans(s: State) {
    forall c, id :: 0 <= c < |s.clients| && id in LiveRecords(s.clients[c].records) ==> Backed(s, id)
  }

  /** What a pass in flight holds from the server is still there. */
  predicate InFlightKept(cl: Client, sv: Server) {
    match cl.pass
    case Fetched(_, _, _, remote) => forall id :: id in remote ==> OnServer(sv, id)
    case Planned(_, _, _, apply, _) => forall id :: id in apply ==> OnServer(sv, id)
    case Posted(_, _, _, sent, _) => forall id :: id in sent ==> OnServer(sv, id)
    case _ => true
  }

  predicate AllIdle(s: State) {
    forall c :: 0 <= c < |s.clients| ==> s.clients[c].pass.Idle?
  }

  predicate AllKept(s: State) {
    forall c :: 0 <= c < |s.clients| ==> InFlightKept(s.clients[c], s.server)
  }

  // ------------------------------------------------- nothing live gets orphaned

  lemma QuietServerKeeps(s: State, step: Step, id: Id)
    requires Quiet(step) && OnServer(s.server, id)
    ensures OnServer(Next(s, step).server, id)
  {
  }

  lemma ActorKeepsInFlight(cl: Client, sv: Server, step: Step)
    requires Quiet(step) && InFlightKept(cl, sv)
    ensures InFlightKept(ClientAfter(cl, sv, step), ServerAfter(cl, sv, step))
  {
    hide SeenAll, Overwritten, Uploads, MarkSynced, Purge;
  }

  lemma StepKeepsInFlight(s: State, step: Step, c: nat)
    requires Quiet(step) && AllKept(s) && c < |s.clients|
    ensures c < |Next(s, step).clients| && InFlightKept(Next(s, step).clients[c], Next(s, step).server)
  {
    assert InFlightKept(s.clients[c], s.server);
    if ClientOf(step) == Some(c) {
      ActorKeepsInFlight(s.clients[c], s.server, step);
    } else {
      hide ClientAfter, ServerAfter;
      forall id | OnServer(s.server, id) ensures OnServer(Next(s, step).server, id) { QuietServerKeeps(s, step, id); }
    }
  }

  /** A client's own step leaves each of its dirty records dirty, or backed by the server. */
  lemma DirtyStaysBacked(s: State, step: Step, c: nat, id: Id)
    requires Inv(s) && Sound(s, step) && Quiet(step) && AllKept(s) && c < |s.clients|
    requires id in s.clients[c].records && s.clients[c].records[id].dirty
    ensures Backed(Next(s, step), id)
  {
    var cl, cl' := s.clients[c], Next(s, step).clients[c];
    assert InFlightKept(cl, s.server);
    if id in cl'.records && cl'.records[id].dirty {
    } else {
      assert OnServer(s.server, id);
      QuietServerKeeps(s, step, id);
    }
  }

  /** What a vault shows after a quiet step it showed before, or was about to apply. */
  lemma LiveComesFromSomewhere(s: State, step: Step, c: nat, id: Id)
    requires Quiet(step) && c < |s.clients|
    requires id in LiveRecords(Next(s, step).clients[c].records)
    ensures id in LiveRecords(s.clients[c].records)
         || (s.clients[c].pass.Planned? && id in s.clients[c].pass.apply)
  {
  }

  lemma StepKeepsNoOrphans(s: State, step: Step)
    requires Inv(s) && Sound(s, step) && Quiet(step) && AllKept(s) && NoOrphans(s)
    ensures NoOrphans(Next(s, step))
  {
    var s' := Next(s, step);
    forall c, id | 0 <= c < |s'.clients| && id in LiveRecords(s'.clients[c].records) ensures Backed(s', id) {
      LiveComesFromSomewhere(s, step, c, id);
      assert InFlightKept(s.clients[c], s.server);
      assert Backed(s, id);
      if OnServer(s.server, id) {
        QuietServerKeeps(s, step, id);
      } else {
        var d :| 0 <= d < |s.clients| && id in s.clients[d].records && s.clients[d].records[id].dirty;
        DirtyStaysBacked(s, step, d, id);
      }
    }
  }

  // ------------------------------------------------- the first pass cleans up

  predicate AllSynced(records: map<Id, LocalRecord>) {
    forall id :: id in records ==> !records[id].dirty
  }

  predicate Clean(cl: Client) {
    && AllSynced(cl.records)
    && (cl.pass.Planned? ==> cl.pass.upload == map[])
    && !cl.pass.Merged? && !cl.pass.Posted?
  }

  /** With no edits since the pass began, everything dirty is carried by it. */
  predicate AllCarried(cl: Client) {
    match cl.pass
    case Planned(_, _, _, apply, upload) =>
      forall id :: id in cl.records && cl.records[id].dirty ==> id in upload || id in apply
    case Merged(_, _, _, upload) => forall id :: id in cl.records && cl.records[id].dirty ==> id in upload
    case Posted(_, _, _, sent, rejected) =>
      !rejected ==> forall id :: id in cl.records && cl.records[id].dirty ==> id in sent
    case Finished(_, _, ok) => ok ==> AllSynced(cl.records)
    case _ => true
  }

  predicate CleaningInv(cl: Client, stage: Stage) {
    (stage == Passing ==> AllCarried(cl)) && (stage == Done ==> Clean(cl))
  }

  lemma PlanCleans(cl: Client, stage: Stage)
    requires cl.pass.Fetched? && CleaningInv(cl, stage)
    ensures CleaningInv(PlanMerge(cl), stage)
  {
  }

  lemma PostCleans(cl: Client, at: int, rejected: set<Id>, stage: Stage)
    requires cl.pass.Merged? && CleaningInv(cl, stage)
    ensures CleaningInv(Accepted(cl, at, rejected), stage)
  {
    forall id | id in cl.pass.upload && id in rejected ensures cl.pass.upload.Keys * rejected != {} {
      assert id in cl.pass.upload.Keys * rejected;
    }
  }

  lemma ActorCleans(cl: Client, sv: Server, step: Step, c: nat, stage: Stage)
    requires Quiet(step) && ClientOf(step) == Some(c) && CleaningInv(cl, stage)
    ensures CleaningInv(ClientAfter(cl, sv, step), Track(cl, step, c, stage))
  {
    hide SeenAll, DecodeAll, ReadNewer, PlanMerge, Accepted;
    if step.PlanStep? && cl.pass.Fetched? {
      PlanCleans(cl, stage);
    } else if step.PostStep? && cl.pass.Merged? {
      PostCleans(cl, step.at, step.rejected, stage);
    }
  }

  lemma StepCleans(s: State, step: Step, c: nat, stage: Stage)
    requires Quiet(step) && c < |s.clients| && CleaningInv(s.clients[c], stage)
    ensures c < |Next(s, step).clients|
    ensures CleaningInv(Next(s, step).clients[c], Track(s.clients[c], step, c, stage))
  {
    hide CleaningInv, ClientAfter, ServerAfter;
    if ClientOf(step) == Some(c) {
      ActorCleans(s.clients[c], s.server, step, c, stage);
    }
  }

  lemma {:induction false} RunCleans(s: State, steps: seq<Step>, c: nat, stage: Stage)
    requires QuietRun(s, steps) && c < |s.clients| && CleaningInv(s.clients[c], stage)
    ensures |Run(s, steps).clients| == |s.clients|
    ensures StageAfter(s, steps, c, stage) == Done ==> Clean(Run(s, steps).clients[c])
    decreases |steps|
  {
    if steps != [] {
      StepCleans(s, steps[0], c, stage);
      RunCleans(Next(s, steps[0]), steps[1..], c, Track(s.clients[c], steps[0], c, stage));
    }
  }

  // --------------------------------------- the second pass reads a still server

  predicate AllClean(s: State) {
    forall c :: 0 <= c < |s.clients| ==> Clean(s.clients[c])
  }

  /** The mark covers the whole collection. */
  predicate Covers(mark: Option<int>, sv: Server) {
    sv.lastModified.Some? ==> mark.Some? && sv.lastModified.value <= mark.value
  }

  /** A pass begun since the server came to rest. */
  predicate FreshPass(cl: Client, sv: Server) {
    match cl.pass
    case Idle => false
    case Informed(info) => info == sv.lastModified
    case Begun(info, _, syncId) => info == sv.lastModified && syncId == sv.syncId
    case Fetched(_, syncId, water, _) => Covers(water, sv) && syncId == sv.syncId
    case Planned(_, syncId, water, _, _) => Covers(water, sv) && syncId == sv.syncId
    case Finished(mark, syncId, ok) => ok ==> Covers(mark, sv) && syncId == sv.syncId
    case _ => false
  }

  /** A client that has nothing left to do, and whose next pass will find nothing to do. */
  predicate Settled(cl: Client, sv: Server) {
    && Clean(cl)
    && Covers(cl.mark, sv)
    && cl.syncId == sv.syncId
    && match cl.pass
       case Idle => true
       case Informed(info) => info == sv.lastModified
       case Begun(info, mark, syncId) => info == sv.lastModified && mark == cl.mark && syncId == sv.syncId
       case Fetched(mark, syncId, water, remote) =>
         mark == cl.mark && Covers(water, sv) && syncId == sv.syncId && remote == map[]
       case Planned(mark, syncId, water, apply, _) =>
         mark == cl.mark && Covers(water, sv) && syncId == sv.syncId && apply == map[]
       case Finished(mark, syncId, _) => Covers(mark, sv) && syncId == sv.syncId
       case _ => false
  }

  lemma CleanServerIsStill(s: State, step: Step)
    requires Quiet(step) && AllClean(s)
    ensures Next(s, step).server == s.server
  {
  }

  lemma StepKeepsClean(s: State, step: Step, c: nat)
    requires Quiet(step) && AllClean(s) && c < |s.clients|
    ensures c < |Next(s, step).clients| && Clean(Next(s, step).clients[c])
  {
    assert Clean(s.clients[c]);
    StepCleans(s, step, c, Done);
  }

  predicate StageInv(cl: Client, sv: Server, stage: Stage) {
    (stage == Passing ==> FreshPass(cl, sv)) && (stage == Done ==> Settled(cl, sv))
  }

  lemma PlanOfNothing(records: map<Id, LocalRecord>)
    ensures Applies(records, map[]) == map[] && Overwritten(records, map[]) == records
  {
  }

  lemma ActorSettles(cl: Client, sv: Server, step: Step, c: nat, stage: Stage)
    requires ClientInv(cl, sv) && ServerInv(sv) && Quiet(step) && ClientOf(step) == Some(c) && Clean(cl)
    requires StageInv(cl, sv, stage) && Clean(ClientAfter(cl, sv, step))
    ensures StageInv(ClientAfter(cl, sv, step), sv, Track(cl, step, c, stage))
  {
    hide Clean, RecordsConfirmed, AgreesBelow, PullCovers, FetchedFrom, Uploads, SeenAll;
    PlanOfNothing(cl.records);
    NotPosting(cl);
  }

  lemma NotPosting(cl: Client)
    requires Clean(cl)
    ensures !cl.pass.Merged? && !cl.pass.Posted? && (cl.pass.Planned? ==> cl.pass.upload == map[])
  {
  }

  lemma StepSettles(s: State, step: Step, c: nat, stage: Stage)
    requires Inv(s) && Quiet(step) && AllClean(s) && c < |s.clients|
    requires StageInv(s.clients[c], s.server, stage)
    ensures c < |Next(s, step).clients|
    ensures StageInv(Next(s, step).clients[c], s.server, Track(s.clients[c], step, c, stage))
  {
    assert Clean(s.clients[c]) && ClientInv(s.clients[c], s.server);
    StepKeepsClean(s, step, c);
    hide StageInv, Clean, ClientInv, ClientAfter, ServerAfter;
    if ClientOf(step) == Some(c) {
      ActorSettles(s.clients[c], s.server, step, c, stage);
    }
  }

  lemma {:induction false} RunSettles(s: State, steps: seq<Step>, c: nat, stage: Stage)
    requires Inv(s) && QuietRun(s, steps) && AllClean(s) && c < |s.clients|
    requires StageInv(s.clients[c], s.server, stage)
    ensures Run(s, steps).server == s.server && |Run(s, steps).clients| == |s.clients|
    ensures AllClean(Run(s, steps))
    ensures StageInv(Run(s, steps).clients[c], s.server, StageAfter(s, steps, c, stage))
    decreases |steps|
  {
    if steps != [] {
      var s' := Next(s, steps[0]);
      CleanServerIsStill(s, steps[0]);
      StepSettles(s, steps[0], c, stage);
      StepKeepsInv(s, steps[0]);
      forall d | 0 <= d < |s.clients| ensures Clean(s'.clients[d]) { StepKeepsClean(s, steps[0], d); }
      RunSettles(s', steps[1..], c, Track(s.clients[c], steps[0], c, stage));
    }
  }

  lemma {:induction false} RunKeepsNoOrphans(s: State, steps: seq<Step>)
    requires Inv(s) && QuietRun(s, steps) && AllKept(s) && NoOrphans(s)
    ensures AllKept(Run(s, steps)) && NoOrphans(Run(s, steps))
    decreases |steps|
  {
    if steps != [] {
      var s' := Next(s, steps[0]);
      StepKeepsNoOrphans(s, steps[0]);
      StepKeepsInv(s, steps[0]);
      forall c | 0 <= c < |s'.clients| ensures InFlightKept(s'.clients[c], s'.server) {
        StepKeepsInFlight(s, steps[0], c);
      }
      RunKeepsNoOrphans(s', steps[1..]);
    }
  }

  // --------------------------------------------------------- the main theorem

  /** Below a covering mark a clean vault and the server agree, both ways. */
  lemma SettledVaultMatches(s: State, c: nat)
    requires Inv(s) && AllClean(s) && NoOrphans(s) && c < |s.clients| && Covers(s.clients[c].mark, s.server)
    ensures LiveRecords(s.clients[c].records) == LiveObjects(s.server.objects)
  {
    var cl, sv := s.clients[c], s.server;
    assert ClientInv(cl, sv) && Clean(cl);
    forall id | id in sv.objects ensures Agrees(cl.records, id, sv.objects[id]) {
      assert Below(sv.objects[id], cl.mark);
    }
    forall id | id in LiveRecords(cl.records) ensures OnServer(sv, id) {
      assert Backed(s, id);
      forall d | 0 <= d < |s.clients| ensures !(id in s.clients[d].records && s.clients[d].records[id].dirty) {
        assert Clean(s.clients[d]);
      }
    }
    forall id ensures Get(LiveRecords(cl.records), id) == Get(LiveObjects(sv.objects), id) {
      if id in cl.records { assert Confirmed(cl.records[id], id, sv); }
    }
    MapsEqual(LiveRecords(cl.records), LiveObjects(sv.objects));
  }

  predicate AllSettled(s: State) {
    forall c :: 0 <= c < |s.clients| ==> Settled(s.clients[c], s.server)
  }

  /** The two rounds leave every client settled, with server and records at rest. */
  lemma TwoPassesSettle(s: State, first: seq<Step>, second: seq<Step>)
    requires Inv(s)
    requires QuietRun(s, first) && EveryClientPasses(s, first)
    requires QuietRun(Run(s, first), second) && EveryClientPasses(Run(s, first), second)
    ensures var t := Run(Run(s, first), second);
            Inv(t) && AllClean(t) && AllSettled(t) && |t.clients| == |s.clients|
  {
    var u := Run(s, first);
    RunKeepsInv(s, first);
    RunKeepsInv(u, second);
    if |s.clients| == 0 {
      NoClients(s, first);
      NoClients(u, second);
    } else {
      RunCleans(s, first, 0, Waiting);
      forall c | 0 <= c < |u.clients| ensures Clean(u.clients[c]) { RunCleans(s, first, c, Waiting); }
      RunSettles(u, second, 0, Waiting);
      forall c | 0 <= c < |u.clients| ensures Settled(Run(u, second).clients[c], Run(u, second).server) {
        RunSettles(u, second, c, Waiting);
      }
    }
  }

  lemma {:induction false} NoClients(s: State, steps: seq<Step>)
    requires |s.clients| == 0
    ensures |Run(s, steps).clients| == 0
    decreases |steps|
  {
    if steps != [] { NoClients(Next(s, steps[0]), steps[1..]); }
  }

  /**
   * Convergence, from any state the protocol reaches, with passes in flight: if
   * nothing a vault shows was lost by the server, two successful passes of
   * every client, interleaved in any way with each other, with failures and
   * with purges, make every vault and the server show the same logins.
   */
  lemma Convergence(s: State, first: seq<Step>, second: seq<Step>)
    requires Inv(s) && AllKept(s) && NoOrphans(s)
    requires QuietRun(s, first) && EveryClientPasses(s, first)
    requires QuietRun(Run(s, first), second) && EveryClientPasses(Run(s, first), second)
    ensures Converged(Run(Run(s, first), second))
  {
    var u := Run(s, first);
    var t := Run(u, second);
    TwoPassesSettle(s, first, second);
    RunKeepsInv(s, first);
    RunKeepsNoOrphans(s, first);
    RunKeepsNoOrphans(u, second);
    forall c | 0 <= c < |t.clients|
      ensures LiveRecords(t.clients[c].records) == LiveObjects(t.server.objects)
    {
      assert Settled(t.clients[c], t.server);
      SettledVaultMatches(t, c);
    }
  }

  // ------------------------------------------------------- the exact condition

  /** Client `c` shows a clean record that no server and no upload will bring back. */
  predicate Orphaned(s: State, c: nat, id: Id) {
    && c < |s.clients|
    && id in LiveRecords(s.clients[c].records)
    && !Backed(s, id)
    && forall d :: 0 <= d < |s.clients| ==> !Carries(s.clients[d].pass, id)
  }

  predicate Carries(pass: Pass, id: Id) {
    match pass
    case Fetched(_, _, _, remote) => id in remote
    case Planned(_, _, _, apply, upload) => id in apply || id in upload
    case Merged(_, _, _, upload) => id in upload
    case _ => false
  }

  /** The client neither holds the id dirty nor is about to move it. */
  predicate Inert(cl: Client, id: Id) {
    !Carries(cl.pass, id) && !(id in cl.records && cl.records[id].dirty)
  }

  lemma ActorStaysInert(cl: Client, sv: Server, step: Step, id: Id)
    requires ClientInv(cl, sv) && Quiet(step) && Inert(cl, id) && !OnServer(sv, id)
    ensures Inert(ClientAfter(cl, sv, step), id) && !OnServer(ServerAfter(cl, sv, step), id)
  {
  }

  lemma ActorKeepsShowing(cl: Client, sv: Server, step: Step, id: Id)
    requires ClientInv(cl, sv) && Quiet(step) && Inert(cl, id) && id in LiveRecords(cl.records)
    ensures id in LiveRecords(ClientAfter(cl, sv, step).records)
  {
  }

  lemma StepKeepsOrphan(s: State, step: Step, c: nat, id: Id)
    requires Inv(s) && Quiet(step) && Orphaned(s, c, id)
    ensures Orphaned(Next(s, step), c, id)
  {
    var s' := Next(s, step);
    forall d | 0 <= d < |s.clients| ensures Inert(s.clients[d], id) && ClientInv(s.clients[d], s.server) {}
    if ClientOf(step).Some? && ClientOf(step).value < |s.clients| {
      var a := ClientOf(step).value;
      ActorStaysInert(s.clients[a], s.server, step, id);
      if a == c { ActorKeepsShowing(s.clients[a], s.server, step, id); }
    }
    forall d | 0 <= d < |s'.clients| ensures Inert(s'.clients[d], id) {}
  }

  lemma {:induction false} RunKeepsOrphan(s: State, steps: seq<Step>, c: nat, id: Id)
    requires Inv(s) && QuietRun(s, steps) && Orphaned(s, c, id)
    ensures Orphaned(Run(s, steps), c, id)
    decreases |steps|
  {
    if steps != [] {
      StepKeepsOrphan(s, steps[0], c, id);
      StepKeepsInv(s, steps[0]);
      RunKeepsOrphan(Next(s, steps[0]), steps[1..], c, id);
    }
  }

  /**
   * From any reachable state between passes, two successful passes of every
   * client converge if and only if no vault shows a record that the server
   * lost, or can no longer serve in readable form, and that is dirty nowhere.
   */
  lemma ConvergesExactlyWithoutOrphans(s0: State, history: seq<Step>, first: seq<Step>, second: seq<Step>)
    requires Init(s0) && SoundRun(s0, history) && AllIdle(Run(s0, history))
    requires QuietRun(Run(s0, history), first) && EveryClientPasses(Run(s0, history), first)
    requires QuietRun(Run(Run(s0, history), first), second) && EveryClientPasses(Run(Run(s0, history), first), second)
    ensures Converged(Run(Run(Run(s0, history), first), second)) <==> NoOrphans(Run(s0, history))
  {
    var s := Run(s0, history);
    RunKeepsInv(s0, history);
    if NoOrphans(s) {
      Convergence(s, first, second);
    } else {
      var c, id :| 0 <= c < |s.clients| && id in LiveRecords(s.clients[c].records) && !Backed(s, id);
      assert Orphaned(s, c, id);
      RunKeepsInv(s, first);
      RunKeepsOrphan(s, first, c, id);
      RunKeepsOrphan(Run(s, first), second, c, id);
      var t := Run(Run(s, first), second);
      assert !OnServer(t.server, id);
      assert id !in LiveObjects(t.server.objects);
    }
  }

  /** Nobody ever deletes the collection, and every object can be decrypted. */
  predicate Benign(step: Step) {
    !step.WipeStep? && (step.ForeignStep? ==> forall id :: id in step.puts ==> !step.puts[id].Unreadable?)
  }

  /** What the vaults show stays backed by the server, also in flight. */
  predicate Supported(s: State) {
    && AllKept(s)
    && NoOrphans(s)
    && forall id :: id in s.server.objects ==> Readable(s.server.objects[id])
  }

  lemma StepKeepsSupported(s: State, step: Step)
    requires Inv(s) && Sound(s, step) && Benign(step) && Supported(s)
    ensures Supported(Next(s, step))
  {
    var s' := Next(s, step);
    if Quiet(step) {
      StepKeepsNoOrphans(s, step);
      forall c | 0 <= c < |s'.clients| ensures InFlightKept(s'.clients[c], s'.server) {
        StepKeepsInFlight(s, step, c);
      }
    } else if step.EditStep? {
      EditKeepsSupported(s, step);
    } else {
      forall id | OnServer(s.server, id) ensures OnServer(s'.server, id) {}
      forall c | 0 <= c < |s'.clients| ensures InFlightKept(s'.clients[c], s'.server) {
        assert InFlightKept(s.clients[c], s.server);
      }
      forall c, id | 0 <= c < |s'.clients| && id in LiveRecords(s'.clients[c].records) ensures Backed(s', id) {
        assert Backed(s, id);
        if !OnServer(s.server, id) {
          var d :| 0 <= d < |s.clients| && id in s.clients[d].records && s.clients[d].records[id].dirty;
          assert s'.clients[d] == s.clients[d];
        }
      }
    }
  }

  lemma EditKeepsSupported(s: State, step: Step)
    requires Inv(s) && Sound(s, step) && step.EditStep? && Supported(s)
    ensures Supported(Next(s, step))
  {
    var s' := Next(s, step);
    if step.c < |s.clients| {
      assert ClientInv(s.clients[step.c], s.server);
      var records, records' := s.clients[step.c].records, s'.clients[step.c].records;
      forall id | id in records ensures WellFormed(records[id]) { assert Confirmed(records[id], id, s.server); }
      EditIsLocal(records, step.id, step.edit);
      forall c | 0 <= c < |s'.clients| ensures InFlightKept(s'.clients[c], s'.server) {
        assert InFlightKept(s.clients[c], s.server);
      }
      forall c, id | 0 <= c < |s'.clients| && id in LiveRecords(s'.clients[c].records) ensures Backed(s', id) {
        EditKeepsBacked(s, step, c, id);
      }
    }
  }

  lemma EditKeepsBacked(s: State, step: Step, c: nat, id: Id)
    requires Inv(s) && step.EditStep? && step.c < |s.clients| && c < |s.clients| && NoOrphans(s)
    requires forall k :: k in s.clients[step.c].records ==> WellFormed(s.clients[step.c].records[k])
    requires id in LiveRecords(Next(s, step).clients[c].records)
    ensures Backed(Next(s, step), id)
  {
    var s' := Next(s, step);
    var records' := s'.clients[step.c].records;
    EditIsLocal(s.clients[step.c].records, step.id, step.edit);
    if id in records' && records'[id].dirty {
    } else if id in LiveRecords(s.clients[c].records) {
      assert Backed(s, id);
      if !OnServer(s.server, id) {
        var d :| 0 <= d < |s.clients| && id in s.clients[d].records && s.clients[d].records[id].dirty;
        assert id in s'.clients[d].records && s'.clients[d].records[id].dirty;
      }
    }
  }

  lemma {:induction false} RunKeepsSupported(s: State, steps: seq<Step>)
    requires Inv(s) && SoundRun(s, steps) && Supported(s) && forall i :: 0 <= i < |steps| ==> Benign(steps[i])
    ensures Supported(Run(s, steps))
    decreases |steps|
  {
    if steps != [] {
      StepKeepsSupported(s, steps[0]);
      StepKeepsInv(s, steps[0]);
      RunKeepsSupported(Next(s, steps[0]), steps[1..]);
    }
  }

  /**
   * The headline: as long as nobody deletes the collection and every object can
   * be decrypted, every sound history of edits, other devices' writes, failures
   * and half-finished passes converges after two successful passes of each client.
   */
  lemma EventualAgreement(s0: State, history: seq<Step>, first: seq<Step>, second: seq<Step>)
    requires Init(s0) && SoundRun(s0, history)
    requires forall id :: id in s0.server.objects ==> Readable(s0.server.objects[id])
    requires forall i :: 0 <= i < |history| ==> Benign(history[i])
    requires QuietRun(Run(s0, history), first) && EveryClientPasses(Run(s0, history), first)
    requires QuietRun(Run(Run(s0, history), first), second) && EveryClientPasses(Run(Run(s0, history), first), second)
    ensures Converged(Run(Run(Run(s0, history), first), second))
  {
    RunKeepsInv(s0, history);
    RunKeepsSupported(s0, history);
    Convergence(Run(s0, history), first, second);
  }

  // ------------------------------------------------------------ the third pass

  /** Whatever pass this client is in applies nothing and uploads nothing. */
  predicate NothingToMove(cl: Client) {
    && !cl.pass.Merged? && !cl.pass.Posted?
    && (cl.pass.Fetched? ==>
          && (forall id :: id in cl.pass.remote ==> Decide(Get(cl.records, id), Some(cl.pass.remote[id])) != Apply)
          && Uploads(cl.records, cl.pass.remote) == map[])
    && (cl.pass.Planned? ==> cl.pass.apply == map[] && cl.pass.upload == map[])
  }

  /**
   * After the two rounds every further pass pulls nothing and pushes nothing:
   * in every continuation the server does not change, no client ever has
   * anything to move, and what the vaults show stays what it was.
   */
  lemma {:induction false} ThirdPassMovesNothing(s: State, steps: seq<Step>, c: nat)
    requires Inv(s) && QuietRun(s, steps) && AllSettled(s) && c < |s.clients|
    ensures Run(s, steps).server == s.server && |Run(s, steps).clients| == |s.clients|
    ensures NothingToMove(Run(s, steps).clients[c])
    ensures LiveRecords(Run(s, steps).clients[c].records) == LiveRecords(s.clients[c].records)
    decreases |steps|
  {
    assert Settled(s.clients[c], s.server);
    if steps != [] {
      var s' := Next(s, steps[0]);
      forall d | 0 <= d < |s.clients| ensures Clean(s.clients[d]) { assert Settled(s.clients[d], s.server); }
      CleanServerIsStill(s, steps[0]);
      StepKeepsInv(s, steps[0]);
      forall d | 0 <= d < |s'.clients| ensures Settled(s'.clients[d], s'.server) {
        assert Settled(s.clients[d], s.server);
        StepSettles(s, steps[0], d, Done);
      }
      SettledStepKeepsLive(s, steps[0], c);
      ThirdPassMovesNothing(s', steps[1..], c);
    }
  }

  lemma SettledStepKeepsLive(s: State, step: Step, c: nat)
    requires Inv(s) && Quiet(step) && c < |s.clients| && Settled(s.clients[c], s.server)
    ensures LiveRecords(Next(s, step).clients[c].records) == LiveRecords(s.clients[c].records)
  {
    hide ClientInv, Overwritten, ServerAfter, SeenAll;
    PlanOfNothing(s.clients[c].records);
  }
}
