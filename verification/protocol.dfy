/**
 * The two-way sync protocol: any number of vaults and one server, with every
 * `await` of a pass as a step boundary.
 *
 * A pass of a client reads the collection's timestamp, reads `meta/global`,
 * pulls, plans against the vault's records, applies the winners to the vault,
 * posts the losers' counterparts, marks the vault, and saves the sync state. A
 * step that is not possible in a state changes nothing. Between any
 * two steps of one client every other client, and any other device, may act.
 */
module Protocol {
  import opened Wrappers
  import opened Records
  import opened Reconciliation
  import opened SyncServer

  datatype Pass =
    | Idle
    | Informed(info: Option<int>)
    | Begun(info: Option<int>, mark: Option<int>, syncId: Option<string>)
    | Fetched(mark: Option<int>, syncId: Option<string>, water: Option<int>, remote: map<Id, RemoteRecord>)
    | Planned(mark: Option<int>, syncId: Option<string>, water: Option<int>,
              apply: map<Id, RemoteRecord>, upload: map<Id, LocalRecord>)
    | Merged(mark: Option<int>, syncId: Option<string>, water: Option<int>, upload: map<Id, LocalRecord>)
    | Posted(mark: Option<int>, syncId: Option<string>, newMark: int, sent: map<Id, LocalRecord>, rejected: bool)
    | Finished(mark: Option<int>, syncId: Option<string>, ok: bool)

  /**
   * One vault. `records`, `mark` and `syncId` are durable; `pass` is the memory
   * of a pass in progress. `seen` is history: the newest version of each object
   * this client was ever sent, or learned to have written.
   */
  datatype Client = Client(
    records: map<Id, LocalRecord>,
    mark: Option<int>,
    syncId: Option<string>,
    seen: map<Id, int>,
    pass: Pass)

  datatype State = State(clients: seq<Client>, server: Server)

  datatype Step =
    | EditStep(c: nat, id: Id, edit: Edit)
    | PurgeStep(c: nat, now: int, maxAge: int)
    | InfoStep(c: nat)
    | MetaStep(c: nat)
    | ReadStep(c: nat)
    | PlanStep(c: nat)
    | ApplyStep(c: nat)
    | PostStep(c: nat, at: int, rejected: set<Id>)
    | PostLostStep(c: nat, at: int, rejected: set<Id>)
    | MarkStep(c: nat)
    | SaveStep(c: nat)
    | ThrowStep(c: nat)
    | DieStep(c: nat)
    | ForeignStep(puts: map<Id, Payload>, at: int)
    | WipeStep
    | DeclareStep(syncId: Option<string>)

  // ------------------------------------------------- what one client computes

  /** `engineWasReset`. */
  predicate EngineWasReset(remote: Option<string>, cached: Option<string>) {
    remote.Some? && cached.Some? && remote != cached
  }

  /** The mark a pass starts from. */
  function StartMark(mark: Option<int>, cached: Option<string>, remote: Option<string>): Option<int> {
    if EngineWasReset(remote, cached) then None else mark
  }

  predicate ServerHasChanges(info: Option<int>, mark: Option<int>) {
    info.Some? && (mark.None? || info.value > mark.value)
  }

  /** The readable objects of a pull. */
  function DecodeAll(objects: map<Id, Bso>): map<Id, RemoteRecord> {
    map id | id in objects && Decode(id, objects[id]).Some? :: Decode(id, objects[id]).value
  }

  function SeenAll(objects: map<Id, Bso>): map<Id, int> {
    map id | id in objects :: objects[id].modified
  }

  /** What a batch of uploads, minus the ids the server rejects, puts on the server. */
  function Puts(upload: map<Id, LocalRecord>, rejected: set<Id>): map<Id, Payload> {
    map id | id in upload && id !in rejected :: Encode(upload[id])
  }

  /** Clear the dirty flag of accepted records. */
  function MarkSynced(records: map<Id, LocalRecord>, ids: set<Id>, modified: int): map<Id, LocalRecord> {
    map id | id in records ::
      if id in ids then records[id].(dirty := false, syncedAt := Some(modified)) else records[id]
  }

  function Purge(records: map<Id, LocalRecord>, ids: set<Id>): map<Id, LocalRecord> {
    map id | id in records && id !in ids :: records[id]
  }

  function Pull(cl: Client, sv: Server): Client
    requires cl.pass.Begun?
  {
    var p := cl.pass;
    if ServerHasChanges(p.info, p.mark) then
      var objects := ReadNewer(sv, p.mark);
      var water := if sv.lastModified.Some? then sv.lastModified else p.mark;
      cl.(seen := cl.seen + SeenAll(objects), pass := Fetched(p.mark, p.syncId, water, DecodeAll(objects)))
    else
      cl.(pass := Fetched(p.mark, p.syncId, p.mark, map[]))
  }

  /** `localRecords` and `reconcile`. */
  function PlanMerge(cl: Client): Client
    requires cl.pass.Fetched?
  {
    var p := cl.pass;
    cl.(pass := Planned(p.mark, p.syncId, p.water, Applies(cl.records, p.remote), Uploads(cl.records, p.remote)))
  }

  /** `applyRemote`; a pass with nothing to push is over. */
  function ApplyPlan(cl: Client): Client
    requires cl.pass.Planned?
  {
    var p := cl.pass;
    cl.(records := Overwritten(cl.records, p.apply),
        pass := if p.upload == map[] then Finished(p.water, p.syncId, true)
                else Merged(p.mark, p.syncId, p.water, p.upload))
  }

  /** What the server accepts of an upload. */
  function Without(upload: map<Id, LocalRecord>, rejected: set<Id>): map<Id, LocalRecord> {
    map id | id in upload && id !in rejected :: upload[id]
  }

  /** The reply to a post that the server accepted at `at`. */
  function Accepted(cl: Client, at: int, rejected: set<Id>): Client
    requires cl.pass.Merged?
  {
    var p := cl.pass;
    var sent := Without(p.upload, rejected);
    cl.(seen := cl.seen + map id | id in sent :: at,
        pass := Posted(p.mark, p.syncId, at, sent, p.upload.Keys * rejected != {}))
  }

  function MarkAccepted(cl: Client): Client
    requires cl.pass.Posted?
  {
    var p := cl.pass;
    cl.(records := MarkSynced(cl.records, p.sent.Keys, p.newMark),
        pass := Finished(Some(p.newMark), p.syncId, !p.rejected))
  }

  /**
   * An error thrown inside the pass. Before `meta/global` was read nothing is
   * kept; after it, the mark the pass started from and the syncID are saved.
   */
  function Throw(cl: Client): Client {
    match cl.pass
    case Informed(_) => cl.(pass := Idle)
    case Begun(_, mark, syncId) => cl.(pass := Finished(mark, syncId, false))
    case Fetched(mark, syncId, _, _) => cl.(pass := Finished(mark, syncId, false))
    case Planned(mark, syncId, _, _, _) => cl.(pass := Finished(mark, syncId, false))
    case Merged(mark, syncId, _, _) => cl.(pass := Finished(mark, syncId, false))
    case Posted(mark, syncId, _, _, _) => cl.(pass := Finished(mark, syncId, false))
    case _ => cl
  }

  // -------------------------------------------------------------------- steps

  function ClientOf(step: Step): Option<nat> {
    match step
    case ForeignStep(_, _) => None
    case WipeStep => None
    case DeclareStep(_) => None
    case EditStep(c, _, _) => Some(c)
    case PurgeStep(c, _, _) => Some(c)
    case InfoStep(c) => Some(c)
    case MetaStep(c) => Some(c)
    case ReadStep(c) => Some(c)
    case PlanStep(c) => Some(c)
    case ApplyStep(c) => Some(c)
    case PostStep(c, _, _) => Some(c)
    case PostLostStep(c, _, _) => Some(c)
    case MarkStep(c) => Some(c)
    case SaveStep(c) => Some(c)
    case ThrowStep(c) => Some(c)
    case DieStep(c) => Some(c)
  }

  /** The acting client after its step. */
  function ClientAfter(cl: Client, sv: Server, step: Step): Client {
    match step
    case EditStep(_, id, edit) => cl.(records := ApplyEdit(cl.records, id, edit))
    case PurgeStep(_, now, maxAge) =>
      cl.(records := Purge(cl.records, ExpiredIds(cl.records, now, maxAge)))
    case InfoStep(_) => if cl.pass.Idle? then cl.(pass := Informed(sv.lastModified)) else cl
    case MetaStep(_) =>
      if cl.pass.Informed? then
        cl.(pass := Begun(cl.pass.info, StartMark(cl.mark, cl.syncId, sv.syncId), sv.syncId))
      else cl
    case ReadStep(_) => if cl.pass.Begun? then Pull(cl, sv) else cl
    case PlanStep(_) => if cl.pass.Fetched? then PlanMerge(cl) else cl
    case ApplyStep(_) => if cl.pass.Planned? then ApplyPlan(cl) else cl
    case PostStep(_, at, rejected) =>
      if cl.pass.Merged? && at > sv.clock then
        if Unmodified(sv, cl.pass.water) then Accepted(cl, at, rejected)
        else cl.(pass := Finished(None, cl.pass.syncId, false))
      else cl
    case PostLostStep(_, at, rejected) =>
      if cl.pass.Merged? && at > sv.clock && Unmodified(sv, cl.pass.water) then Throw(cl) else cl
    case MarkStep(_) => if cl.pass.Posted? then MarkAccepted(cl) else cl
    case SaveStep(_) =>
      if cl.pass.Finished? then cl.(mark := cl.pass.mark, syncId := cl.pass.syncId, pass := Idle) else cl
    case ThrowStep(_) => Throw(cl)
    case DieStep(_) => cl.(pass := Idle)
    case _ => cl
  }

  /** A purge drops the clean tombstones whose deletion is older than `maxAge`, and shows what was shown. */
  lemma PurgeDropsOldTombstones(cl: Client, sv: Server, c: nat, now: int, maxAge: int)
    requires forall id :: id in cl.records ==> WellFormed(cl.records[id])
    ensures var records, kept := cl.records, ClientAfter(cl, sv, PurgeStep(c, now, maxAge)).records;
            && (forall id :: id in kept <==>
                  id in records
                  && (records[id].data.Some? || records[id].dirty || now <= records[id].authorityTime + maxAge))
            && (forall id :: id in kept ==> kept[id] == records[id])
            && LiveRecords(kept) == LiveRecords(records)
  {
  }

  /** What is saved of a pass that throws here. */
  function SavedAfterThrow(cl: Client, sv: Server): Client {
    ClientAfter(ClientAfter(cl, sv, ThrowStep(0)), sv, SaveStep(0))
  }

  /** The pass is under way, and has this mark and this syncID from its start. */
  predicate UnderWay(pass: Pass, mark: Option<int>, syncId: Option<string>) {
    (pass.Begun? || pass.Fetched? || pass.Planned? || pass.Merged? || pass.Posted?)
    && pass.mark == mark && pass.syncId == syncId
  }

  lemma StageKeepsTheStart(cl: Client, sv: Server, step: Step, mark: Option<int>, syncId: Option<string>)
    requires cl.pass.Finished? || UnderWay(cl.pass, mark, syncId)
    requires step.ReadStep? || step.PlanStep? || step.ApplyStep? || step.PostStep?
    ensures var after := ClientAfter(cl, sv, step);
            after.pass.Finished? || UnderWay(after.pass, mark, syncId)
  {
    hide Overwritten, Applies, Uploads, ReadNewer, SeenAll, DecodeAll, Without;
  }

  /**
   * Wherever a pass throws after `meta/global`, also after a post that was
   * accepted, it saves the mark it started from and the syncID it found.
   */
  lemma ThrowSavesTheStart(cl: Client, atRead: Server, atPost: Server, at: int, rejected: set<Id>)
    requires cl.pass.Begun?
    ensures var fetched := ClientAfter(cl, atRead, ReadStep(0));
            var planned := ClientAfter(fetched, atRead, PlanStep(0));
            var applied := ClientAfter(planned, atRead, ApplyStep(0));
            var posted := ClientAfter(applied, atPost, PostStep(0, at, rejected));
            forall stage :: stage in [cl, fetched, planned, applied, posted] && !stage.pass.Finished? ==>
              SavedAfterThrow(stage, atPost) == stage.(mark := cl.pass.mark, syncId := cl.pass.syncId, pass := Idle)
  {
    var fetched := ClientAfter(cl, atRead, ReadStep(0));
    var planned := ClientAfter(fetched, atRead, PlanStep(0));
    var applied := ClientAfter(planned, atRead, ApplyStep(0));
    var posted := ClientAfter(applied, atPost, PostStep(0, at, rejected));
    var mark, syncId := cl.pass.mark, cl.pass.syncId;
    StageKeepsTheStart(cl, atRead, ReadStep(0), mark, syncId);
    StageKeepsTheStart(fetched, atRead, PlanStep(0), mark, syncId);
    StageKeepsTheStart(planned, atRead, ApplyStep(0), mark, syncId);
    StageKeepsTheStart(applied, atPost, PostStep(0, at, rejected), mark, syncId);
    hide ClientAfter;
    forall stage | stage in [cl, fetched, planned, applied, posted] && !stage.pass.Finished?
      ensures SavedAfterThrow(stage, atPost) == stage.(mark := mark, syncId := syncId, pass := Idle)
    {
      ThrowSaves(stage, atPost, mark, syncId);
    }
  }

  lemma ThrowSaves(cl: Client, sv: Server, mark: Option<int>, syncId: Option<string>)
    requires UnderWay(cl.pass, mark, syncId)
    ensures SavedAfterThrow(cl, sv) == cl.(mark := mark, syncId := syncId, pass := Idle)
  {
  }

  /** The server after a step taken by a client. */
  function ServerAfter(cl: Client, sv: Server, step: Step): Server {
    if (step.PostStep? || step.PostLostStep?) && cl.pass.Merged? && step.at > sv.clock
       && Unmodified(sv, cl.pass.water)
    then Write(sv, Puts(cl.pass.upload, step.rejected), step.at)
    else sv
  }

  function Next(s: State, step: Step): State {
    match step
    case ForeignStep(puts, at) =>
      if at > s.server.clock then s.(server := Write(s.server, puts, at)) else s
    case WipeStep => s.(server := Wipe(s.server))
    case DeclareStep(syncId) => s.(server := s.server.(syncId := syncId))
    case _ =>
      var c := ClientOf(step).value;
      if c < |s.clients| then
        State(s.clients[c := ClientAfter(s.clients[c], s.server, step)],
              ServerAfter(s.clients[c], s.server, step))
      else s
  }

  function Run(s: State, steps: seq<Step>): State
    decreases |steps|
  {
    if steps == [] then s else Run(Next(s, steps[0]), steps[1..])
  }

  lemma {:induction false} RunAppend(s: State, a: seq<Step>, b: seq<Step>)
    ensures Run(s, a + b) == Run(Run(s, a), b)
    decreases |a|
  {
    if a == [] {
      assert a + b == b;
    } else {
      assert (a + b)[1..] == a[1..] + b;
      RunAppend(Next(s, a[0]), a[1..], b);
    }
  }

  /**
   * The two places where the code relies on its surroundings. A post that
   * carries no precondition (the mark is null) meets an empty collection; and a
   * record whose upload is being marked as accepted still is what was sent,
   * unless the server has moved on from that version.
   */
  predicate Sound(s: State, step: Step) {
    match step
    case PostStep(c, _, _) => SoundPost(s, c)
    case PostLostStep(c, _, _) => SoundPost(s, c)
    case MarkStep(c) => c < |s.clients| && s.clients[c].pass.Posted? ==> SentIsHeld(s.clients[c], s.server)
    case _ => true
  }

  predicate SoundPost(s: State, c: nat) {
    c < |s.clients| && s.clients[c].pass.Merged? && s.clients[c].pass.water.None? ==> s.server.objects == map[]
  }

  predicate SentIsHeld(cl: Client, sv: Server)
    requires cl.pass.Posted?
  {
    forall id :: id in cl.pass.sent && id in cl.records
                 && id in sv.objects && sv.objects[id].modified == cl.pass.newMark ==>
      Encode(cl.records[id]) == Encode(cl.pass.sent[id])
  }

  predicate SoundRun(s: State, steps: seq<Step>)
    decreases |steps|
  {
    steps == [] || (Sound(s, steps[0]) && SoundRun(Next(s, steps[0]), steps[1..]))
  }

  const NEW_CLIENT := Client(map[], None, None, map[], Idle)

  /** Fresh vaults, and a collection that other devices may have filled. */
  predicate Init(s: State) {
    ServerInv(s.server) && forall c :: 0 <= c < |s.clients| ==> s.clients[c] == NEW_CLIENT
  }
}
