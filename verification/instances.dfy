/** Concrete runs of the protocol in which something is lost. */
module Instances {
  import opened Wrappers
  import opened Records
  import opened Reconciliation
  import opened SyncServer
  import opened Protocol
  import opened Agreement
  import opened Clobber
  import opened Convergence

  /** The states a run goes through. */
  ghost predicate Passes(states: seq<State>, steps: seq<Step>) {
    && |states| == |steps| + 1
    && forall i :: 0 <= i < |steps| ==> Next(states[i], steps[i]) == states[i + 1]
  }

  lemma {:induction false} PassesIsRun(states: seq<State>, steps: seq<Step>, n: nat)
    requires Passes(states, steps) && n <= |steps|
    ensures Run(states[0], steps[..n]) == states[n]
    ensures (forall i :: 0 <= i < n ==> Sound(states[i], steps[i])) ==> SoundRun(states[0], steps[..n])
    decreases n
  {
    if n > 0 {
      assert steps[..n][1..] == steps[1..][..n - 1];
      assert forall i :: 0 <= i < |steps[1..]| ==> Next(states[1..][i], steps[1..][i]) == states[1..][i + 1];
      PassesIsRun(states[1..], steps[1..], n - 1);
    }
  }

  lemma {:induction false} SoundAppend(s: State, a: seq<Step>, b: seq<Step>)
    ensures SoundRun(s, a + b) <==> SoundRun(s, a) && SoundRun(Run(s, a), b)
    decreases |a|
  {
    if a == [] {
      assert a + b == b;
    } else {
      assert (a + b)[1..] == a[1..] + b;
      SoundAppend(Next(s, a[0]), a[1..], b);
    }
  }

  lemma RunOne(s: State, step: Step)
    ensures Run(s, [step]) == Next(s, step) && (SoundRun(s, [step]) <==> Sound(s, step))
  {
  }

  /** The steps whose soundness is no question. */
  predicate Plain(step: Step) {
    !step.PostStep? && !step.PostLostStep? && !step.MarkStep?
  }

  /** One client's step, in a state written out. */
  lemma StepOf(s: State, step: Step, c: nat)
    requires ClientOf(step) == Some(c) && c < |s.clients|
    ensures Next(s, step) == State(s.clients[c := ClientAfter(s.clients[c], s.server, step)],
                                   ServerAfter(s.clients[c], s.server, step))
    ensures !step.PostStep? && !step.PostLostStep? ==> ServerAfter(s.clients[c], s.server, step) == s.server
    ensures Plain(step) ==> Sound(s, step)
  {
  }

  const ABSENT := Server(map[], None, 0, None)
  const INFORMED := Informed(None)
  const BEGUN := Begun(None, None, None)
  const FETCHED := Fetched(None, None, None, map[])

  function Owes(r: LocalRecord): map<Id, LocalRecord> {
    map[r.id := r]
  }

  /** A new vault with one record, in a first pass over the absent collection. */
  function Owing(r: LocalRecord, pass: Pass): Client {
    Client(Owes(r), None, None, map[], pass)
  }

  function PlannedWith(r: LocalRecord): Pass {
    Planned(None, None, None, map[], Owes(r))
  }

  function MergedWith(r: LocalRecord): Pass {
    Merged(None, None, None, Owes(r))
  }

  /** The record of a login that was just added. */
  function Added(id: Id, login: Login): LocalRecord {
    LocalRecord(id, Some(login), false, PasswordAuthorityTime(login), None, true)
  }

  lemma FirstPass(r: LocalRecord, c: nat)
    requires r.dirty
    ensures ClientAfter(Owing(r, Idle), ABSENT, InfoStep(c)) == Owing(r, INFORMED)
    ensures ClientAfter(Owing(r, INFORMED), ABSENT, MetaStep(c)) == Owing(r, BEGUN)
    ensures ClientAfter(Owing(r, BEGUN), ABSENT, ReadStep(c)) == Owing(r, FETCHED)
    ensures ClientAfter(Owing(r, FETCHED), ABSENT, PlanStep(c)) == Owing(r, PlannedWith(r))
    ensures ClientAfter(Owing(r, PlannedWith(r)), ABSENT, ApplyStep(c)) == Owing(r, MergedWith(r))
  {
    PlanOfNothing(Owes(r));
    assert Uploads(Owes(r), map[]) == Owes(r);
    assert r.id in Owes(r);
  }

  /** After the post at `at`. */
  function PostedBy(r: LocalRecord, at: int): Client {
    Client(Owes(r), None, None, map[r.id := at], Posted(None, None, at, Owes(r), false))
  }

  lemma FirstPost(r: LocalRecord, sv: Server, c: nat, at: int)
    requires at > sv.clock
    ensures ClientAfter(Owing(r, MergedWith(r)), sv, PostStep(c, at, {})) == PostedBy(r, at)
    ensures ServerAfter(Owing(r, MergedWith(r)), sv, PostStep(c, at, {})) == Write(sv, map[r.id := Encode(r)], at)
  {
    assert Without(Owes(r), {}) == Owes(r);
    assert Owes(r).Keys * {} == {};
    assert Puts(Owes(r), {}) == map[r.id := Encode(r)];
    assert map[] + map[r.id := at] == map[r.id := at];
  }

  function Only(id: Id, payload: Payload, at: int): Server {
    Server(map[id := Bso(payload, at)], Some(at), at, None)
  }

  lemma FirstWrite(id: Id, payload: Payload, at: int)
    ensures Write(ABSENT, map[id := payload], at) == Only(id, payload, at)
  {
  }

  /** A vault that holds one record, clean, and is idle at a mark. */
  function Synced(r: LocalRecord, at: int, pass: Pass, mark: Option<int>): Client {
    Client(Owes(r.(dirty := false, syncedAt := Some(at))), mark, None, map[r.id := at], pass)
  }

  lemma MarkAndSave(r: LocalRecord, held: LocalRecord, sv: Server, c: nat, at: int)
    requires held.id == r.id
    ensures var marked := Synced(held, at, Finished(Some(at), None, true), None);
            && ClientAfter(PostedBy(r, at).(records := Owes(held)), sv, MarkStep(c)) == marked
            && ClientAfter(marked, sv, SaveStep(c)) == Synced(held, at, Idle, Some(at))
  {
  }

  const ID := Id("a")
  const LOGIN := Login("https://site.example", "ada", "old", None, Some(1), None, None)
  const CHANGED := ChangePassword(LOGIN, "new", 7)

  /** Client `c` is clean on an object below its mark, and differs from it. */
  predicate Disagrees(s: State, c: nat, id: Id) {
    && c < |s.clients|
    && id in s.server.objects
    && Below(s.server.objects[id], s.clients[c].mark)
    && !Agrees(s.clients[c].records, id, s.server.objects[id])
  }

  // --------------------------------------------------------- an edit inside a pass

  /** A pass up to its post. */
  function ToMerged(c: nat): seq<Step> {
    [InfoStep(c), MetaStep(c), ReadStep(c), PlanStep(c), ApplyStep(c)]
  }

  function With(s: State, c: nat, cl: Client): State
    requires c < |s.clients|
  {
    s.(clients := s.clients[c := cl])
  }

  lemma PassUntilMerged(s: State, c: nat, r: LocalRecord)
    requires c < |s.clients| && s.server == ABSENT && s.clients[c] == Owing(r, Idle) && r.dirty
    ensures SoundRun(s, ToMerged(c)) && Run(s, ToMerged(c)) == With(s, c, Owing(r, MergedWith(r)))
  {
    FirstPass(r, c);
    var s1, s2, s3 := With(s, c, Owing(r, INFORMED)), With(s, c, Owing(r, BEGUN)), With(s, c, Owing(r, FETCHED));
    var s4, s5 := With(s, c, Owing(r, PlannedWith(r))), With(s, c, Owing(r, MergedWith(r)));
    hide Next, Sound, ClientAfter, ServerAfter, Owing, PlannedWith, MergedWith;
    StepOf(s, InfoStep(c), c);
    StepOf(s1, MetaStep(c), c);
    StepOf(s2, ReadStep(c), c);
    StepOf(s3, PlanStep(c), c);
    StepOf(s4, ApplyStep(c), c);
    var states := [s, s1, s2, s3, s4, s5];
    assert Next(s, InfoStep(c)) == s1 && Next(s1, MetaStep(c)) == s2 && Next(s2, ReadStep(c)) == s3;
    assert Next(s3, PlanStep(c)) == s4 && Next(s4, ApplyStep(c)) == s5;
    PassesIsRun(states, ToMerged(c), 5);
    assert ToMerged(c)[..5] == ToMerged(c);
  }

  const LONE_START := State([NEW_CLIENT], ABSENT)

  const UNTIL_POSTED := [EditStep(0, ID, Add(LOGIN))] + (ToMerged(0) + [PostStep(0, 5, {})])

  /** A first pass up to its post. */
  lemma LonePass()
    ensures SoundRun(LONE_START, UNTIL_POSTED)
    ensures Run(LONE_START, UNTIL_POSTED) == State([PostedBy(Added(ID, LOGIN), 5)], Only(ID, Live(LOGIN), 5))
  {
    var r, add, post := Added(ID, LOGIN), EditStep(0, ID, Add(LOGIN)), PostStep(0, 5, {});
    var s1, s2 := State([Owing(r, Idle)], ABSENT), State([Owing(r, MergedWith(r))], ABSENT);
    FirstAdd(ID, LOGIN, 0);
    FirstPost(r, ABSENT, 0, 5);
    FirstWrite(ID, Live(LOGIN), 5);
    assert Sound(s2, post);
    hide Next, Sound, SoundRun, Run, ClientAfter, ServerAfter, PostedBy, Only, Added, Owing, MergedWith;
    StepOf(LONE_START, add, 0);
    StepOf(s2, post, 0);
    RunOne(LONE_START, add);
    RunOne(s2, post);
    PassUntilMerged(s1, 0, r) by { assert s1.clients[0] == Owing(r, Idle); AddedIsDirty(ID, LOGIN); }
    RunAppend(LONE_START, [add], ToMerged(0) + [post]);
    RunAppend(s1, ToMerged(0), [post]);
    SoundAppend(LONE_START, [add], ToMerged(0) + [post]);
    SoundAppend(s1, ToMerged(0), [post]);
    assert [NEW_CLIENT][0 := Owing(r, Idle)] == [Owing(r, Idle)];
    assert With(s1, 0, Owing(r, MergedWith(r))).clients == s2.clients;
    assert s2.clients[0 := PostedBy(r, 5)] == [PostedBy(r, 5)];
  }

  lemma AddedIsDirty(id: Id, login: Login)
    ensures Added(id, login).dirty && Added(id, login).id == id && Encode(Added(id, login)) == Live(login)
  {
  }

  lemma FirstAdd(id: Id, login: Login, c: nat)
    ensures ClientAfter(NEW_CLIENT, ABSENT, EditStep(c, id, Add(login))) == Owing(Added(id, login), Idle)
  {
  }

  const EDIT_MARK_SAVE := [EditStep(0, ID, Update("new", 7)), MarkStep(0), SaveStep(0)]

  lemma ChangedIsNotSent(held: LocalRecord, posted: Client, sv: Server)
    requires held == Added(ID, LOGIN).(data := Some(CHANGED), authorityTime := 7)
    requires posted == PostedBy(Added(ID, LOGIN), 5) && sv == Only(ID, Live(LOGIN), 5)
    ensures !Sound(State([posted.(records := Owes(held))], sv), MarkStep(0))
    ensures Disagrees(State([Synced(held, 5, Idle, Some(5))], sv), 0, ID)
  {
  }

  /**
   * An edit between the post and the mark: the pass sends what it planned, then
   * clears the dirty flag of the newer edit. The run is sound up to that step,
   * and ends with a clean record that differs from the server's.
   */
  lemma EditInsideAPassIsLost()
    ensures Init(LONE_START) && SoundRun(LONE_START, UNTIL_POSTED)
    ensures var edited := Next(Run(LONE_START, UNTIL_POSTED), EDIT_MARK_SAVE[0]);
            !Sound(edited, EDIT_MARK_SAVE[1])
    ensures Disagrees(Run(Run(LONE_START, UNTIL_POSTED), EDIT_MARK_SAVE), 0, ID)
  {
    var r := Added(ID, LOGIN);
    var held, posted, sv := r.(data := Some(CHANGED), authorityTime := 7), PostedBy(r, 5), Only(ID, Live(LOGIN), 5);
    LonePass();
    ChangedIsNotSent(held, posted, sv);
    assert ApplyEdit(Owes(r), ID, Update("new", 7)) == Owes(held);
    assert ClientAfter(posted, sv, EDIT_MARK_SAVE[0]) == posted.(records := Owes(held));
    hide Run, Next, Sound, SoundRun, ClientAfter, ServerAfter, PostedBy, Added, Only, Owes, Disagrees;
    StepOf(State([posted], sv), EDIT_MARK_SAVE[0], 0);
    assert [posted][0 := posted.(records := Owes(held))] == [posted.(records := Owes(held))];
    EditMarkSave(r, held, sv);
  }

  lemma EditMarkSave(r: LocalRecord, held: LocalRecord, sv: Server)
    requires held.id == r.id == ID
    requires var edited := PostedBy(r, 5).(records := Owes(held));
             Next(State([PostedBy(r, 5)], sv), EDIT_MARK_SAVE[0]) == State([edited], sv)
    ensures Run(State([PostedBy(r, 5)], sv), EDIT_MARK_SAVE) == State([Synced(held, 5, Idle, Some(5))], sv)
  {
    MarkAndSave(r, held, sv, 0, 5);
    var edited := PostedBy(r, 5).(records := Owes(held));
    var marked := Synced(held, 5, Finished(Some(5), None, true), None);
    var saved := Synced(held, 5, Idle, Some(5));
    hide Next, ClientAfter, ServerAfter, PostedBy, Synced;
    StepOf(State([edited], sv), EDIT_MARK_SAVE[1], 0);
    StepOf(State([marked], sv), EDIT_MARK_SAVE[2], 0);
    assert [edited][0 := marked] == [marked] && [marked][0 := saved] == [saved];
    PassesIsRun([State([PostedBy(r, 5)], sv), State([edited], sv), State([marked], sv), State([saved], sv)],
                EDIT_MARK_SAVE, 3);
    assert EDIT_MARK_SAVE[..3] == EDIT_MARK_SAVE;
  }

  // ------------------------------------------------- the collection is deleted

  const MARK_SAVE_WIPE := [MarkStep(0), SaveStep(0), WipeStep]

  lemma AfterTheWipe()
    ensures var r := Added(ID, LOGIN);
            var posted := State([PostedBy(r, 5)], Only(ID, Live(LOGIN), 5));
            && Run(posted, MARK_SAVE_WIPE)
                 == State([Synced(r, 5, Idle, Some(5))], Server(map[], None, 5, None))
            && SoundRun(posted, MARK_SAVE_WIPE)
  {
    var r, sv := Added(ID, LOGIN), Only(ID, Live(LOGIN), 5);
    MarkAndSave(r, r, sv, 0, 5);
    var marked := Synced(r, 5, Finished(Some(5), None, true), None);
    var s := [State([PostedBy(r, 5)], sv), State([marked], sv), State([Synced(r, 5, Idle, Some(5))], sv),
              State([Synced(r, 5, Idle, Some(5))], Server(map[], None, 5, None))];
    assert PostedBy(r, 5).(records := Owes(r)) == PostedBy(r, 5);
    assert Next(s[0], MARK_SAVE_WIPE[0]) == s[1] && Sound(s[0], MARK_SAVE_WIPE[0]);
    assert Next(s[1], MARK_SAVE_WIPE[1]) == s[2] && Sound(s[1], MARK_SAVE_WIPE[1]);
    assert Next(s[2], MARK_SAVE_WIPE[2]) == s[3] && Sound(s[2], MARK_SAVE_WIPE[2]);
    PassesIsRun(s, MARK_SAVE_WIPE, 3);
    assert MARK_SAVE_WIPE[..3] == MARK_SAVE_WIPE;
  }

  /**
   * One vault adds a login, syncs, and somebody deletes the collection: between
   * passes, an orphan is left, and no continuation without edits, other devices
   * or resets ever converges.
   */
  lemma WipeLeavesAnOrphan(later: seq<Step>)
    ensures var s := Run(LONE_START, UNTIL_POSTED + MARK_SAVE_WIPE);
            && Init(LONE_START) && SoundRun(LONE_START, UNTIL_POSTED + MARK_SAVE_WIPE)
            && AllIdle(s) && !NoOrphans(s)
            && (QuietRun(s, later) ==> !Converged(Run(s, later)))
  {
    LonePass();
    AfterTheWipe();
    RunAppend(LONE_START, UNTIL_POSTED, MARK_SAVE_WIPE);
    SoundAppend(LONE_START, UNTIL_POSTED, MARK_SAVE_WIPE);
    var s := Run(LONE_START, UNTIL_POSTED + MARK_SAVE_WIPE);
    RunKeepsInv(LONE_START, UNTIL_POSTED + MARK_SAVE_WIPE);
    WipedVaultIsOrphaned(s);
    hide Orphaned, Inv, QuietRun;
    if QuietRun(s, later) {
      RunKeepsOrphan(s, later, 0, ID);
      OrphanedIsNotConverged(Run(s, later), 0, ID);
    }
  }

  lemma WipedVaultIsOrphaned(s: State)
    requires s == State([Synced(Added(ID, LOGIN), 5, Idle, Some(5))], Server(map[], None, 5, None))
    ensures AllIdle(s) && !NoOrphans(s) && Orphaned(s, 0, ID)
  {
    assert ID in LiveRecords(s.clients[0].records);
    assert !Backed(s, ID);
  }

  lemma OrphanedIsNotConverged(s: State, c: nat, id: Id)
    requires Orphaned(s, c, id)
    ensures !Converged(s)
  {
  }

  // ------------------------------------------------------ two first passes at once

  const PAIR_START := State([NEW_CLIENT, NEW_CLIENT], ABSENT)
  const OTHER_LOGIN := LOGIN.(username := "bob")

  /** Both vaults add a login and go through a pass up to its post; then the second one posts. */
  function RacingSteps(a: Id, b: Id): seq<Step> {
    [EditStep(0, a, Add(LOGIN))] + ([EditStep(1, b, Add(OTHER_LOGIN))]
      + (ToMerged(0) + (ToMerged(1) + [PostStep(1, 5, {})])))
  }

  /** Both vaults with a login each, and their passes where they are. */
  function Pair(a: Id, b: Id, first: Pass, second: Pass): State {
    State([Owing(Added(a, LOGIN), first), Owing(Added(b, OTHER_LOGIN), second)], ABSENT)
  }

  lemma BothAdd(a: Id, b: Id)
    ensures var add, add' := EditStep(0, a, Add(LOGIN)), EditStep(1, b, Add(OTHER_LOGIN));
            && Run(Run(PAIR_START, [add]), [add']) == Pair(a, b, Idle, Idle)
            && SoundRun(PAIR_START, [add]) && SoundRun(Run(PAIR_START, [add]), [add'])
  {
  }

  lemma BothPull(a: Id, b: Id)
    ensures var r, q := MergedWith(Added(a, LOGIN)), MergedWith(Added(b, OTHER_LOGIN));
            && Run(Pair(a, b, Idle, Idle), ToMerged(0)) == Pair(a, b, r, Idle)
            && Run(Pair(a, b, r, Idle), ToMerged(1)) == Pair(a, b, r, q)
            && SoundRun(Pair(a, b, Idle, Idle), ToMerged(0)) && SoundRun(Pair(a, b, r, Idle), ToMerged(1))
  {
    var r, q := Added(a, LOGIN), Added(b, OTHER_LOGIN);
    AddedIsDirty(a, LOGIN);
    AddedIsDirty(b, OTHER_LOGIN);
    hide Next, Sound, SoundRun, Run, Added, Owing, MergedWith, ToMerged;
    PassUntilMerged(Pair(a, b, Idle, Idle), 0, r);
    PassUntilMerged(Pair(a, b, MergedWith(r), Idle), 1, q);
  }

  lemma SecondPosts(a: Id, b: Id)
    ensures var r, q := Added(a, LOGIN), Added(b, OTHER_LOGIN);
            var s := Pair(a, b, MergedWith(r), MergedWith(q));
            && Run(s, [PostStep(1, 5, {})])
               == State([Owing(r, MergedWith(r)), PostedBy(q, 5)], Only(b, Live(OTHER_LOGIN), 5))
            && SoundRun(s, [PostStep(1, 5, {})])
  {
    var r, q, post := Added(a, LOGIN), Added(b, OTHER_LOGIN), PostStep(1, 5, {});
    var s := Pair(a, b, MergedWith(r), MergedWith(q));
    FirstPost(q, ABSENT, 1, 5);
    FirstWrite(b, Live(OTHER_LOGIN), 5);
    AddedIsDirty(b, OTHER_LOGIN);
    assert Sound(s, post);
    hide Next, Sound, SoundRun, Run, ClientAfter, ServerAfter, PostedBy, Only, Added, Owing, MergedWith;
    StepOf(s, post, 1);
    RunOne(s, post);
    assert s.clients[1 := PostedBy(q, 5)] == [Owing(r, MergedWith(r)), PostedBy(q, 5)];
  }

  lemma BothPassesStart(a: Id, b: Id)
    ensures SoundRun(PAIR_START, RacingSteps(a, b))
    ensures var r, q := Added(a, LOGIN), Added(b, OTHER_LOGIN);
            Run(PAIR_START, RacingSteps(a, b))
              == State([Owing(r, MergedWith(r)), PostedBy(q, 5)], Only(b, Live(OTHER_LOGIN), 5))
  {
    hide Run, SoundRun, Added, Owing, PostedBy, MergedWith, Only, ToMerged, Pair;
    BothAdd(a, b);
    BothPull(a, b);
    SecondPosts(a, b);
    JoinFive(PAIR_START, [EditStep(0, a, Add(LOGIN))], [EditStep(1, b, Add(OTHER_LOGIN))],
             ToMerged(0), ToMerged(1), [PostStep(1, 5, {})]);
  }

  lemma JoinFive(s: State, a: seq<Step>, b: seq<Step>, c: seq<Step>, d: seq<Step>, e: seq<Step>)
    ensures Run(s, a + (b + (c + (d + e)))) == Run(Run(Run(Run(Run(s, a), b), c), d), e)
    ensures SoundRun(s, a) && SoundRun(Run(s, a), b) && SoundRun(Run(Run(s, a), b), c)
            && SoundRun(Run(Run(Run(s, a), b), c), d) && SoundRun(Run(Run(Run(Run(s, a), b), c), d), e)
            ==> SoundRun(s, a + (b + (c + (d + e))))
  {
    hide Run, SoundRun;
    RunAppend(s, a, b + (c + (d + e)));
    RunAppend(Run(s, a), b, c + (d + e));
    RunAppend(Run(Run(s, a), b), c, d + e);
    RunAppend(Run(Run(Run(s, a), b), c), d, e);
    SoundAppend(s, a, b + (c + (d + e)));
    SoundAppend(Run(s, a), b, c + (d + e));
    SoundAppend(Run(Run(s, a), b), c, d + e);
    SoundAppend(Run(Run(Run(s, a), b), c), d, e);
  }

  /**
   * A reachable post without a precondition that goes wrong. The first vault
   * posts after the second one: it has not read what is there. With different
   * ids its new mark passes over the other login, which it will never read; with
   * equal ids its post replaces the other login.
   */
  lemma FirstPostsRace(a: Id, b: Id)
    ensures Init(PAIR_START) && SoundRun(PAIR_START, RacingSteps(a, b))
    ensures var s := Run(PAIR_START, RacingSteps(a, b));
            var t := Next(s, PostStep(0, 6, {}));
            && Commits(s, 0, 6) && !Sound(s, PostStep(0, 6, {})) && !ReadAll(s, 0)
            && a in t.server.objects && t.server.objects[a].payload == Live(LOGIN)
            && (a != b ==> Disagrees(Run(t, [MarkStep(0), SaveStep(0)]), 0, b))
  {
    BothPassesStart(a, b);
    var r, q := Added(a, LOGIN), Added(b, OTHER_LOGIN);
    var sv := Only(b, Live(OTHER_LOGIN), 5);
    var s := State([Owing(r, MergedWith(r)), PostedBy(q, 5)], sv);
    var t := State([PostedBy(r, 6), PostedBy(q, 5)], Write(sv, map[a := Live(LOGIN)], 6));
    FirstPost(r, sv, 0, 6);
    StepOf(s, PostStep(0, 6, {}), 0);
    assert !WasSeen(s.clients[0].seen, b, sv.objects[b]);
    hide Next, Run;
    AfterTheRace(r, q, t);
  }

  lemma AfterTheRace(r: LocalRecord, q: LocalRecord, t: State)
    requires r == Added(r.id, LOGIN) && q == Added(q.id, OTHER_LOGIN)
    requires t == State([PostedBy(r, 6), PostedBy(q, 5)],
                        Write(Only(q.id, Live(OTHER_LOGIN), 5), map[r.id := Live(LOGIN)], 6))
    ensures r.id != q.id ==> Disagrees(Run(t, [MarkStep(0), SaveStep(0)]), 0, q.id)
  {
  }
}
