/** What a changed syncID does to the high-water mark: when an engine reset is noticed, and when it is lost. */
module EngineReset {
  import opened Wrappers
  import opened Records
  import opened Reconciliation
  import opened SyncServer
  import opened Protocol

  /**
   * The step in which a mark comes out of nothing: under `syncId` and with no
   * mark, a pass reads the whole collection, or has a post accepted after it was
   * told that there is no collection.
   */
  predicate Originates(s: State, step: Step, c: nat, syncId: Option<string>) {
    c < |s.clients|
    && var pass := s.clients[c].pass;
       if step == ReadStep(c) then pass.Begun? && pass.info.Some? && pass.mark.None? && pass.syncId == syncId
       else
         step.PostStep? && step.c == c && pass.Merged? && pass.water.None? && pass.syncId == syncId
         && step.at > s.server.clock
  }

  /** The step saves a pass that ran under another syncID. */
  predicate SavesOther(s: State, step: Step, c: nat, syncId: Option<string>) {
    c < |s.clients| && step == SaveStep(c) && s.clients[c].pass.Finished? && s.clients[c].pass.syncId != syncId
  }

  /** In this run a mark came out of nothing under `syncId`, and no other syncID was saved since. */
  predicate Originated(s: State, steps: seq<Step>, c: nat, syncId: Option<string>)
    decreases |steps|
  {
    steps != []
    && var before, last := steps[..|steps| - 1], steps[|steps| - 1];
       || Originates(Run(s, before), last, c, syncId)
       || (Originated(s, before, c, syncId) && !SavesOther(Run(s, before), last, c, syncId))
  }

  /** The client has a mark beside this syncID: saved, or in the hands of its pass. */
  predicate HasMarkUnder(cl: Client, syncId: Option<string>) {
    || (cl.mark.Some? && cl.syncId == syncId)
    || match cl.pass
       case Begun(_, mark, under) => mark.Some? && under == syncId
       case Fetched(mark, under, water, _) => (mark.Some? || water.Some?) && under == syncId
       case Planned(mark, under, water, _, _) => (mark.Some? || water.Some?) && under == syncId
       case Merged(mark, under, water, _) => (mark.Some? || water.Some?) && under == syncId
       case Posted(_, under, _, _, _) => under == syncId
       case Finished(mark, under, _) => mark.Some? && under == syncId
       case _ => false
  }

  /** Every mark a client has after this run came out of nothing under the syncID beside it. */
  ghost predicate AllOriginated(s: State, steps: seq<Step>, c: nat) {
    c < |Run(s, steps).clients| ==>
      forall syncId :: HasMarkUnder(Run(s, steps).clients[c], syncId) ==> Originated(s, steps, c, syncId)
  }

  /** So it is in every state of the run. */
  ghost predicate AlwaysOriginated(s: State, steps: seq<Step>, c: nat) {
    forall n: nat :: n <= |steps| ==> AllOriginated(s, steps[..n], c)
  }

  /**
   * The client holds a mark, and its pass finds the engine declared where it was
   * not when that mark was saved, or the other way round.
   */
  predicate Flips(s: State, step: Step, c: nat) {
    && c < |s.clients|
    && step == MetaStep(c) && s.clients[c].pass.Informed?
    && s.clients[c].mark.Some?
    && (s.server.syncId.None? <==> s.clients[c].syncId.Some?)
  }

  predicate NeverFlips(s: State, steps: seq<Step>, c: nat) {
    forall n: nat :: n < |steps| ==> !Flips(Run(s, steps[..n]), steps[n], c)
  }

  lemma RunOneMore(s: State, steps: seq<Step>, n: nat)
    requires n < |steps|
    ensures Run(s, steps[..n + 1]) == Next(Run(s, steps[..n]), steps[n])
    ensures steps[..n + 1][..n] == steps[..n]
  {
    assert steps[..n + 1] == steps[..n] + [steps[n]];
    RunAppend(s, steps[..n], [steps[n]]);
  }

  // ------------------------------------------------------- where marks come from

  /** Short of a flip, a mark that a step leaves is new, or was there and was not saved over. */
  lemma MarksComeFrom(s: State, step: Step, c: nat, syncId: Option<string>)
    requires c < |s.clients| && !Flips(s, step, c)
    requires HasMarkUnder(Next(s, step).clients[c], syncId)
    ensures Originates(s, step, c, syncId)
         || (HasMarkUnder(s.clients[c], syncId) && !SavesOther(s, step, c, syncId))
  {
    hide ServerAfter, SeenAll, ReadNewer, DecodeAll, Overwritten, Applies, Uploads, ApplyEdit, Purge, MarkSynced;
  }

  lemma {:induction false} UnflippedOriginate(s: State, steps: seq<Step>, c: nat, n: nat)
    requires n <= |steps| && (forall d :: 0 <= d < |s.clients| ==> s.clients[d] == NEW_CLIENT)
    requires NeverFlips(s, steps, c)
    ensures AllOriginated(s, steps[..n], c)
  {
    hide Next, Originates, SavesOther, HasMarkUnder, Flips;
    if n == 0 {
      NewHasNoMark();
    } else {
      UnflippedOriginate(s, steps, c, n - 1);
      RunOneMore(s, steps, n - 1);
      var t, last := Run(s, steps[..n - 1]), steps[n - 1];
      ClientsStay(t, last);
      if c < |t.clients| {
        forall syncId | HasMarkUnder(Next(t, last).clients[c], syncId) ensures Originated(s, steps[..n], c, syncId) {
          MarksComeFrom(t, last, c, syncId);
        }
      }
    }
  }

  lemma NewHasNoMark()
    ensures forall syncId :: !HasMarkUnder(NEW_CLIENT, syncId)
  {
  }

  lemma ClientsStay(s: State, step: Step)
    ensures |Next(s, step).clients| == |s.clients|
  {
  }

  // -------------------------------------------------------------- what a flip does

  /** A pass that has a mark saved and none in hand saw two declared syncIDs. */
  predicate SawReset(cl: Client) {
    cl.mark.Some? ==>
      match cl.pass
      case Begun(_, mark, syncId) => mark.None? ==> syncId.Some? && cl.syncId.Some?
      case Fetched(_, syncId, water, _) => water.None? ==> syncId.Some? && cl.syncId.Some?
      case Planned(_, syncId, water, _, _) => water.None? ==> syncId.Some? && cl.syncId.Some?
      case Merged(_, syncId, water, _) => water.None? ==> syncId.Some? && cl.syncId.Some?
      case _ => true
  }

  lemma StepKeepsSawReset(s: State, step: Step, c: nat)
    requires c < |s.clients| && SawReset(s.clients[c])
    ensures SawReset(Next(s, step).clients[c])
  {
    hide ServerAfter, SeenAll, ReadNewer, DecodeAll, Overwritten, Applies, Uploads, ApplyEdit, Purge, MarkSynced;
  }

  /** Beside a saved mark, what came out of nothing did so under its syncID, or in a reset between two declared ones. */
  predicate Anchored(cl: Client, syncId: Option<string>) {
    cl.mark.Some? ==> syncId == cl.syncId || (syncId.Some? && cl.syncId.Some?)
  }

  lemma StepKeepsAnchored(s: State, step: Step, c: nat, syncId: Option<string>)
    requires c < |s.clients| && SawReset(s.clients[c])
    requires Originates(s, step, c, syncId) || (Anchored(s.clients[c], syncId) && !SavesOther(s, step, c, syncId))
    ensures Anchored(Next(s, step).clients[c], syncId)
  {
    hide ServerAfter, SeenAll, ReadNewer, DecodeAll, Overwritten, Applies, Uploads, ApplyEdit, Purge, MarkSynced;
  }

  lemma {:induction false} OriginsAreAnchored(s: State, steps: seq<Step>, c: nat, n: nat)
    requires n <= |steps| && (forall d :: 0 <= d < |s.clients| ==> s.clients[d] == NEW_CLIENT)
    ensures var t := Run(s, steps[..n]);
            c < |t.clients| ==>
              && SawReset(t.clients[c])
              && forall syncId :: Originated(s, steps[..n], c, syncId) ==> Anchored(t.clients[c], syncId)
  {
    hide Next, Originates, SavesOther;
    if n > 0 {
      OriginsAreAnchored(s, steps, c, n - 1);
      RunOneMore(s, steps, n - 1);
      var t, last := Run(s, steps[..n - 1]), steps[n - 1];
      ClientsStay(t, last);
      if c < |t.clients| {
        StepKeepsSawReset(t, last, c);
        forall syncId | Originated(s, steps[..n], c, syncId) ensures Anchored(Next(t, last).clients[c], syncId) {
          StepKeepsAnchored(t, last, c, syncId);
        }
      }
    }
  }

  /** After a flip the pass has a mark under a syncID under which none came out of nothing. */
  lemma FlipBorrows(s: State, steps: seq<Step>, c: nat, n: nat)
    requires n < |steps| && (forall d :: 0 <= d < |s.clients| ==> s.clients[d] == NEW_CLIENT)
    requires Flips(Run(s, steps[..n]), steps[n], c)
    ensures !AllOriginated(s, steps[..n + 1], c)
  {
    OriginsAreAnchored(s, steps, c, n);
    RunOneMore(s, steps, n);
    var t := Run(s, steps[..n]);
    var syncId := t.server.syncId;
    assert HasMarkUnder(Next(t, steps[n]).clients[c], syncId);
    assert !Anchored(t.clients[c], syncId);
  }

  // -------------------------------------------------------------- the theorems

  /**
   * Over every run, whatever fails or is cut off: each mark a client saves or
   * works with came out of nothing under the syncID beside it and has been saved
   * under no other since, so that a reset is noticed by the next pass, exactly
   * when no pass that holds a mark finds the engine newly undeclared or newly
   * declared.
   */
  lemma ResetIsNotLostExactly(s: State, steps: seq<Step>, c: nat)
    requires Init(s)
    ensures AlwaysOriginated(s, steps, c) <==> NeverFlips(s, steps, c)
  {
    hide AllOriginated, Flips, Run;
    if NeverFlips(s, steps, c) {
      forall n: nat | n <= |steps| ensures AllOriginated(s, steps[..n], c) {
        UnflippedOriginate(s, steps, c, n);
      }
    } else {
      var n: nat :| n < |steps| && Flips(Run(s, steps[..n]), steps[n], c);
      FlipBorrows(s, steps, c, n);
    }
  }

  /** Every pass that reads `meta/global` finds the engine declared. */
  predicate DeclaredRun(s: State, steps: seq<Step>) {
    forall n: nat :: n < |steps| && steps[n].MetaStep? ==> Run(s, steps[..n]).server.syncId.Some?
  }

  /** Whoever has a mark has a syncID. */
  predicate KnowsSyncId(cl: Client) {
    && (cl.mark.Some? ==> cl.syncId.Some?)
    && (cl.pass.Idle? || cl.pass.Informed? || cl.pass.syncId.Some?)
  }

  lemma DeclaredStepKeeps(s: State, step: Step, c: nat)
    requires c < |s.clients| && KnowsSyncId(s.clients[c]) && (step.MetaStep? ==> s.server.syncId.Some?)
    ensures KnowsSyncId(Next(s, step).clients[c])
  {
    hide ServerAfter, SeenAll, ReadNewer, DecodeAll, Overwritten, Applies, Uploads, ApplyEdit, Purge, MarkSynced;
  }

  lemma {:induction false} DeclaredRunKeeps(s: State, steps: seq<Step>, c: nat, n: nat)
    requires n <= |steps| && DeclaredRun(s, steps)
    requires forall d :: 0 <= d < |s.clients| ==> s.clients[d] == NEW_CLIENT
    ensures c < |Run(s, steps[..n]).clients| ==> KnowsSyncId(Run(s, steps[..n]).clients[c])
  {
    hide Next;
    if n > 0 {
      DeclaredRunKeeps(s, steps, c, n - 1);
      RunOneMore(s, steps, n - 1);
      var t := Run(s, steps[..n - 1]);
      ClientsStay(t, steps[n - 1]);
      if c < |t.clients| {
        DeclaredStepKeeps(t, steps[n - 1], c);
      }
    }
  }

  /**
   * While the engine stays declared, no reset is lost, in any run: a saved mark
   * is always that of a full read, or of a post to no collection, under the
   * saved syncID.
   */
  lemma ResetIsNotLost(s: State, steps: seq<Step>, c: nat)
    requires Init(s) && DeclaredRun(s, steps)
    ensures AlwaysOriginated(s, steps, c)
  {
    forall n: nat | n < |steps| ensures !Flips(Run(s, steps[..n]), steps[n], c) {
      DeclaredRunKeeps(s, steps, c, n);
    }
    ResetIsNotLostExactly(s, steps, c);
  }

  /** The pass after a declaration starts without a mark exactly when the syncID is another than the one saved. */
  lemma NewSyncIdDropsTheMark(s: State, c: nat, syncId: string)
    requires c < |s.clients| && s.clients[c].pass.Idle? && s.clients[c].mark.Some? && s.clients[c].syncId.Some?
    ensures var t := Next(Next(Next(s, DeclareStep(Some(syncId))), InfoStep(c)), MetaStep(c));
            && c < |t.clients| && t.clients[c].pass.Begun? && t.clients[c].pass.syncId == Some(syncId)
            && (t.clients[c].pass.mark.None? <==> s.clients[c].syncId.value != syncId)
            && (t.clients[c].pass.mark.Some? ==> t.clients[c].pass.mark == s.clients[c].mark)
  {
  }

  // ------------------------------------------------------------ leaving null

  /** Everything on the server is what the pass put there, or what it had fetched unchanged. */
  predicate AllKnown(after: Server, puts: map<Id, Payload>, atRead: Server) {
    forall id :: id in after.objects ==>
      id in puts || (id in atRead.objects && atRead.objects[id] == after.objects[id])
  }

  /**
   * How a null mark becomes a mark: by a pull of every readable object; or by a
   * post, and then the collection holds nothing but what was posted and what
   * that pull had read, if there was one.
   */
  lemma NullMarkReadsEverything(cl: Client, atRead: Server, atPost: Server, at: int, rejected: set<Id>)
    requires ServerInv(atRead) && cl.pass.Begun? && cl.pass.mark.None?
    requires Advances(atRead, atPost) && at > atPost.clock
    ensures var fetched := Pull(cl, atRead);
            var applied := ApplyPlan(PlanMerge(fetched));
            && (fetched.pass.water.Some? ==>
                  && fetched.pass.remote == DecodeAll(atRead.objects)
                  && (forall id :: id in atRead.objects ==> atRead.objects[id].modified <= fetched.pass.water.value))
            && (applied.pass.Finished? ==> applied.pass.mark == fetched.pass.water)
            && (applied.pass.Merged? && Unmodified(atPost, applied.pass.water)
                && (applied.pass.water.None? ==> atPost.objects == map[]) ==>
                  AllKnown(Write(atPost, Puts(applied.pass.upload, rejected), at),
                           Puts(applied.pass.upload, rejected), atRead))
  {
  }

  /**
   * A reset that is lost. A pass without changes finds the engine undeclared and
   * saves a null syncID next to the old mark; whatever syncID the engine comes
   * back with, the next pass starts from that mark.
   */
  lemma UndeclaredEngineKeepsTheMark(cl: Client, sv: Server, syncId: string)
    requires cl.pass.Idle? && cl.mark.Some? && sv.syncId.None?
    requires !ServerHasChanges(sv.lastModified, cl.mark)
    requires forall id :: id in cl.records ==> !cl.records[id].dirty
    ensures var begun := ClientAfter(ClientAfter(cl, sv, InfoStep(0)), sv, MetaStep(0));
            var planned := ClientAfter(ClientAfter(begun, sv, ReadStep(0)), sv, PlanStep(0));
            var saved := ClientAfter(ClientAfter(planned, sv, ApplyStep(0)), sv, SaveStep(0));
            var later := ClientAfter(ClientAfter(saved, sv, InfoStep(0)), sv.(syncId := Some(syncId)), MetaStep(0));
            && saved.mark == cl.mark && saved.syncId.None?
            && later.pass.Begun? && later.pass.syncId == Some(syncId) && later.pass.mark == cl.mark
  {
    hide Overwritten, Applies, SeenAll, DecodeAll;
    assert Uploads(cl.records, map[]) == map[];
  }
}
