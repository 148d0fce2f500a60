/** When a local edit that lands inside a pass is lost. */
module InPassEdits {
  import opened Wrappers
  import opened Records
  import opened Reconciliation
  import opened SyncServer
  import opened Protocol
  import opened Agreement

  /**
   * A record that the vault owes an upload stays so through every step of its
   * client, at any point of a pass, with two exceptions: it is among the winners
   * being applied, or among the accepted being marked.
   */
  lemma DirtyIsClearedExactly(cl: Client, sv: Server, step: Step, id: Id)
    requires ClientInv(cl, sv) && id in cl.records && cl.records[id].dirty
    ensures var after := ClientAfter(cl, sv, step).records;
            ((id in after && after[id].dirty)
             <==> (step.ApplyStep? && cl.pass.Planned? ==> id !in cl.pass.apply)
                  && (step.MarkStep? && cl.pass.Posted? ==> id !in cl.pass.sent))
  {
    hide SeenAll, ReadNewer, DecodeAll, Applies, Uploads, PassInv;
    if step.EditStep? {
      forall k | k in cl.records ensures WellFormed(cl.records[k]) { assert Confirmed(cl.records[k], k, sv); }
      EditLeavesDirty(cl.records, step.id, step.edit);
    }
  }

  /** Local edits, one after the other. */
  function ApplyEdits(records: map<Id, LocalRecord>, edits: seq<(Id, Edit)>): map<Id, LocalRecord>
    decreases |edits|
  {
    if edits == [] then records else ApplyEdits(ApplyEdit(records, edits[0].0, edits[0].1), edits[1..])
  }

  /** They take no record away, and what was dirty stays dirty. */
  lemma {:induction false} EditsKeepDirty(records: map<Id, LocalRecord>, edits: seq<(Id, Edit)>)
    requires forall k :: k in records ==> WellFormed(records[k])
    ensures forall k :: k in records ==>
              k in ApplyEdits(records, edits) && (records[k].dirty ==> ApplyEdits(records, edits)[k].dirty)
    decreases |edits|
  {
    if edits != [] {
      EditIsLocal(records, edits[0].0, edits[0].1);
      EditLeavesDirty(records, edits[0].0, edits[0].1);
      EditsKeepDirty(ApplyEdit(records, edits[0].0, edits[0].1), edits[1..]);
    }
  }

  /** Between planning and applying, an edit is overwritten exactly when its record is among the winners. */
  lemma OverwrittenExactly(cl: Client, edits: seq<(Id, Edit)>, id: Id)
    requires cl.pass.Planned?
    requires id in ApplyEdits(cl.records, edits) && ApplyEdits(cl.records, edits)[id].dirty
    ensures var edited := cl.(records := ApplyEdits(cl.records, edits));
            ApplyPlan(edited).records[id] != edited.records[id] <==> id in cl.pass.apply
  {
  }

  /** The vault held a record dirty and holds it clean, and the version it holds is not what the server was sent. */
  predicate Forgotten(held: map<Id, LocalRecord>, after: map<Id, LocalRecord>, puts: map<Id, Payload>, id: Id) {
    && id in held && held[id].dirty
    && id in after && !after[id].dirty
    && !(id in puts && puts[id] == Encode(after[id]))
  }

  /**
   * Between applying and marking, with edits before the post and after it: an
   * edited record is marked clean without having been sent exactly when its
   * upload was carried and accepted, and the edits changed its content.
   */
  lemma ForgottenExactly(cl: Client, sv: Server, at: int, rejected: set<Id>,
                         before: seq<(Id, Edit)>, later: seq<(Id, Edit)>, id: Id)
    requires ClientInv(cl, sv) && cl.pass.Merged?
    ensures var posted := Accepted(cl.(records := ApplyEdits(cl.records, before)), at, rejected);
            var held := ApplyEdits(posted.records, later);
            var after := MarkAccepted(posted.(records := held)).records;
            var upload := cl.pass.upload;
            (Forgotten(held, after, Puts(upload, rejected), id)
             <==> id in upload && id !in rejected && id in held && Encode(held[id]) != Encode(upload[id]))
  {
    forall k | k in cl.records ensures WellFormed(cl.records[k]) { assert Confirmed(cl.records[k], k, sv); }
    EditsKeepWellFormed(cl.records, before);
    EditsKeepDirty(cl.records, before);
    EditsKeepDirty(ApplyEdits(cl.records, before), later);
  }

  lemma {:induction false} EditsKeepWellFormed(records: map<Id, LocalRecord>, edits: seq<(Id, Edit)>)
    requires forall k :: k in records ==> WellFormed(records[k])
    ensures forall k :: k in ApplyEdits(records, edits) ==> WellFormed(ApplyEdits(records, edits)[k])
    decreases |edits|
  {
    if edits != [] {
      EditIsLocal(records, edits[0].0, edits[0].1);
      EditsKeepWellFormed(ApplyEdit(records, edits[0].0, edits[0].1), edits[1..]);
    }
  }
}
