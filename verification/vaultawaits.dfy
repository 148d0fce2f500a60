/**
 * A vault whose reads, writes, unlocks and changes of protection are split at
 * their awaits, with `lock` running in between, as the idle and auto-lock
 * listeners run it.
 *
 * `meta` is the key that the vault's metadata and verifier stand for, `sealed`
 * the key its contents are sealed with, `session` the key that session storage
 * holds. `answers` is history: what the reads returned.
 */
module VaultAwaits {
  import opened Wrappers
  import opened PlainVault

  datatype Key = Device | Passphrase(id: nat)

  /** Where a call stands: the await it will resume from. */
  datatype Call =
    | ReadAtKey
    | ReadAtBlob(key: Key)
    | ReadAtCache(key: Key, blob: Contents, blobKey: Key)
    | WriteAtKey(contents: Contents)
    | WriteAtCache(contents: Contents, key: Key)
    | WriteAtStore(contents: Contents, key: Key)
    | LockAtSession
    | UnlockAtSession(key: Key)
    | UnlockAtCache
    | ProtectAtUnlock(key: Key, next: Key)
    | ProtectAtUnlocked(next: Key)
    | ProtectAtKey(next: Key)
    | ProtectAtBlob(key: Key, next: Key)
    | ProtectAtCache(key: Key, blob: Contents, blobKey: Key, next: Key)
    | ProtectAtSession(kept: Contents, next: Key)
    | ProtectAtStore(kept: Contents, next: Key)
    | ProtectAtEnd(kept: Contents)
    | Returned

  datatype State = State(
    meta: Key,
    stored: Contents,
    sealed: Key,
    session: Option<Key>,
    cached: Option<Contents>,
    calls: seq<Call>,
    answers: seq<Result<Contents, VaultError>>)

  datatype Step =
    | CallRead
    | CallWrite(contents: Contents)
    | CallLock
    | CallUnlock  // with the right passphrase
    | CallProtect(next: Key)  // with the right current passphrase, where there is one
    | Resume(i: nat)
    | WorkerStops
    | BrowserStops

  function Answer(s: State, answer: Result<Contents, VaultError>): State {
    s.(answers := s.answers + [answer])
  }

  function At(s: State, i: nat, call: Call): State
    requires i < |s.calls|
  {
    s.(calls := s.calls[i := call])
  }

  /** `requireKey`. */
  function KeyNow(s: State): Option<Key> {
    if s.meta.Device? then Some(Device) else s.session
  }

  /** What a call does when its await resolves, up to its next one. */
  function Resumed(s: State, i: nat): State
    requires i < |s.calls|
  {
    match s.calls[i]
    case ReadAtKey =>
      if KeyNow(s).Some? then At(s, i, ReadAtBlob(KeyNow(s).value)) else Answer(At(s, i, Returned), Err(VaultLocked))
    case ReadAtBlob(key) => At(s, i, ReadAtCache(key, s.stored, s.sealed))
    case ReadAtCache(key, blob, blobKey) =>
      if key == blobKey then Answer(At(s, i, Returned), Ok(blob)).(cached := Some(blob))
      else Answer(At(s, i, Returned), Err(WrongPassphrase))
    case WriteAtKey(contents) =>
      At(s, i, if KeyNow(s).Some? then WriteAtCache(contents, KeyNow(s).value) else Returned)
    case WriteAtCache(contents, key) => At(s, i, WriteAtStore(contents, key)).(cached := Some(contents))
    case WriteAtStore(contents, key) => At(s, i, Returned).(stored := contents, sealed := key)
    case LockAtSession => At(s, i, Returned).(session := None)
    case UnlockAtSession(key) => At(s, i, UnlockAtCache).(session := Some(key))
    case UnlockAtCache => At(s, i, Returned).(cached := None)
    case ProtectAtUnlock(key, next) => At(s, i, ProtectAtUnlocked(next)).(session := Some(key))
    case ProtectAtUnlocked(next) => At(s, i, ProtectAtKey(next)).(cached := None)
    case ProtectAtKey(next) =>
      if KeyNow(s).None? then At(s, i, Returned)
      else if s.cached.Some? then At(s, i, ProtectAtSession(s.cached.value, next))
      else At(s, i, ProtectAtBlob(KeyNow(s).value, next))
    case ProtectAtBlob(key, next) => At(s, i, ProtectAtCache(key, s.stored, s.sealed, next))
    case ProtectAtCache(key, blob, blobKey, next) =>
      if key == blobKey then At(s, i, ProtectAtSession(blob, next)).(cached := Some(blob)) else At(s, i, Returned)
    case ProtectAtSession(kept, next) =>
      At(s, i, ProtectAtStore(kept, next)).(session := if next.Device? then None else Some(next))
    case ProtectAtStore(kept, next) => At(s, i, ProtectAtEnd(kept)).(meta := next, stored := kept, sealed := next)
    case ProtectAtEnd(kept) => At(s, i, Returned).(cached := Some(kept))
    case Returned => s
  }

  function Next(s: State, step: Step): State {
    match step
    case CallRead =>
      if s.cached.Some? then Answer(s, Ok(s.cached.value)) else s.(calls := s.calls + [ReadAtKey])
    case CallWrite(contents) => s.(calls := s.calls + [WriteAtKey(contents)])
    case CallLock => s.(cached := None, calls := s.calls + [LockAtSession])
    case CallUnlock => if s.meta.Device? then s else s.(calls := s.calls + [UnlockAtSession(s.meta)])
    case CallProtect(next) =>
      s.(calls := s.calls + [if s.meta.Device? then ProtectAtKey(next) else ProtectAtUnlock(s.meta, next)])
    case Resume(i) => if i < |s.calls| then Resumed(s, i) else s
    case WorkerStops => s.(cached := None, calls := [])
    case BrowserStops => s.(cached := None, calls := [], session := None)
  }

  function Run(s: State, steps: seq<Step>): State
    decreases |steps|
  {
    if steps == [] then s else Run(Next(s, steps[0]), steps[1..])
  }

  // ------------------------------------------------------------ staying closed

  /**
   * The call got past the lock: it holds a key that opens what it has in hand,
   * is about to write something, or is about to put a key into the session.
   */
  predicate PastTheLock(call: Call, s: State) {
    match call
    case ReadAtBlob(key) => key == s.sealed
    case ReadAtCache(key, _, blobKey) => key == blobKey
    case WriteAtCache(_, _) => true
    case WriteAtStore(contents, key) => contents != s.stored || key != s.sealed
    case UnlockAtSession(_) => true
    case ProtectAtUnlock(_, _) => true
    case ProtectAtBlob(key, _) => key == s.sealed
    case ProtectAtCache(key, _, blobKey, _) => key == blobKey
    case ProtectAtSession(_, _) => true
    case ProtectAtStore(_, _) => true
    case ProtectAtEnd(_) => true
    case _ => false
  }

  predicate NonePast(s: State) {
    forall i :: 0 <= i < |s.calls| ==> !PastTheLock(s.calls[i], s)
  }

  /** A passphrase is needed, no key is in the session, nothing is cached, and no call got past the lock. */
  predicate Sealed(s: State) {
    s.meta.Passphrase? && s.session.None? && s.cached.None? && NonePast(s)
  }

  /** The passphrase is not given again. */
  predicate NoPassphrase(steps: seq<Step>) {
    forall i :: 0 <= i < |steps| ==> !steps[i].CallUnlock? && !steps[i].CallProtect?
  }

  /** Since `s`, every read was refused and nothing was written. */
  predicate KeptClosed(s: State, t: State) {
    && s.answers <= t.answers
    && (forall k :: |s.answers| <= k < |t.answers| ==> t.answers[k].Err?)
    && t.stored == s.stored && t.sealed == s.sealed
  }

  /** Whatever is called and whenever it resumes, short of the passphrase, the vault keeps closed. */
  ghost predicate StaysClosed(s: State) {
    forall steps :: NoPassphrase(steps) ==> KeptClosed(s, Run(s, steps))
  }

  lemma StepKeepsSealed(s: State, step: Step)
    requires Sealed(s) && !step.CallUnlock? && !step.CallProtect?
    ensures Sealed(Next(s, step)) && KeptClosed(s, Next(s, step))
  {
  }

  lemma {:induction false} SealedKeepsClosed(s: State, steps: seq<Step>)
    requires Sealed(s) && NoPassphrase(steps)
    ensures Sealed(Run(s, steps)) && KeptClosed(s, Run(s, steps))
    decreases |steps|
  {
    if steps != [] {
      StepKeepsSealed(s, steps[0]);
      SealedKeepsClosed(Next(s, steps[0]), steps[1..]);
    }
  }

  /** A step that keeps closed what it changes can be put before a run that does not. */
  lemma Then(s: State, step: Step, later: seq<Step>) returns (steps: seq<Step>)
    requires NoPassphrase(later) && !step.CallUnlock? && !step.CallProtect?
    requires Next(s, step).answers == s.answers
    requires Next(s, step).stored == s.stored && Next(s, step).sealed == s.sealed
    requires !KeptClosed(Next(s, step), Run(Next(s, step), later))
    ensures NoPassphrase(steps) && !KeptClosed(s, Run(s, steps))
  {
    steps := [step] + later;
    assert steps[1..] == later;
  }

  lemma At1(s: State, step: Step)
    ensures Run(s, [step]) == Next(s, step)
  {
  }

  /** What is cached is answered. */
  lemma CachedAnswers(s: State) returns (steps: seq<Step>)
    requires s.cached.Some?
    ensures NoPassphrase(steps) && !KeptClosed(s, Run(s, steps))
  {
    steps := [CallRead];
    At1(s, CallRead);
    assert Run(s, steps).answers[|s.answers|] == Ok(s.cached.value);
  }

  /** With any key at hand something can be written. */
  lemma KeyWrites(s: State) returns (steps: seq<Step>)
    requires KeyNow(s).Some? && s.cached.None?
    ensures NoPassphrase(steps) && !KeptClosed(s, Run(s, steps))
  {
    var i := |s.calls|;
    var s1 := Next(s, CallWrite(map[]));
    var s2 := Next(s1, Resume(i));
    var s3 := Next(s2, Resume(i));
    assert s2.calls[i] == WriteAtCache(map[], KeyNow(s).value);
    steps := CachedAnswers(s3);
    steps := Then(s2, Resume(i), steps);
    steps := Then(s1, Resume(i), steps);
    steps := Then(s, CallWrite(map[]), steps);
  }

  lemma OpenAnswers(s: State) returns (steps: seq<Step>)
    requires s.cached.Some? || KeyNow(s).Some?
    ensures NoPassphrase(steps) && !KeptClosed(s, Run(s, steps))
  {
    if s.cached.Some? { steps := CachedAnswers(s); } else { steps := KeyWrites(s); }
  }

  /** Once the contents are in hand, a change of protection stores them and answers from them. */
  lemma ProtectAnswers(s: State, i: nat) returns (steps: seq<Step>)
    requires i < |s.calls| && s.calls[i].ProtectAtEnd?
    ensures NoPassphrase(steps) && !KeptClosed(s, Run(s, steps))
  {
    steps := CachedAnswers(Next(s, Resume(i)));
    steps := Then(s, Resume(i), steps);
  }

  lemma StoringAnswers(s: State, i: nat) returns (steps: seq<Step>)
    requires i < |s.calls| && s.calls[i].ProtectAtStore?
    ensures NoPassphrase(steps) && !KeptClosed(s, Run(s, steps))
  {
    var kept := s.calls[i].kept;
    var s1 := Next(s, Resume(i));
    var s2 := Next(s1, Resume(i));
    var s3 := Next(s2, CallRead);
    steps := [Resume(i), Resume(i), CallRead];
    assert steps[1..] == [Resume(i), CallRead] && steps[1..][1..] == [CallRead];
    At1(s2, CallRead);
    assert Run(s1, steps[1..]) == Run(s2, [CallRead]);
    assert Run(s, steps) == s3 && s3.answers[|s.answers|] == Ok(kept);
  }

  /** A call that got past the lock answers, writes, caches, or puts a key where it can be used. */
  lemma PastAnswers(s: State, i: nat) returns (steps: seq<Step>)
    requires i < |s.calls| && PastTheLock(s.calls[i], s)
    ensures NoPassphrase(steps) && !KeptClosed(s, Run(s, steps))
  {
    var call, t := s.calls[i], Next(s, Resume(i));
    if call.ReadAtCache? || call.WriteAtStore? {
      steps := [Resume(i)];
      At1(s, Resume(i));
      assert call.ReadAtCache? ==> t.answers[|s.answers|] == Ok(call.blob);
    } else if call.ReadAtBlob? {
      steps := [Resume(i)];
      At1(t, Resume(i));
      assert Run(t, steps).answers[|s.answers|] == Ok(s.stored);
      steps := Then(s, Resume(i), steps);
    } else if call.ProtectAtEnd? {
      steps := ProtectAnswers(s, i);
    } else if call.ProtectAtStore? {
      steps := StoringAnswers(s, i);
    } else if call.ProtectAtSession? {
      steps := StoringAnswers(t, i);
      steps := Then(s, Resume(i), steps);
    } else if call.ProtectAtBlob? {
      steps := CachedAnswers(Next(t, Resume(i)));
      steps := Then(t, Resume(i), steps);
      steps := Then(s, Resume(i), steps);
    } else {
      steps := OpenAnswers(t);
      steps := Then(s, Resume(i), steps);
    }
  }

  /** A vault stays closed exactly when it is sealed: the session's key alone does not decide. */
  lemma StaysClosedExactly(s: State)
    ensures StaysClosed(s) <==> Sealed(s)
  {
    if Sealed(s) {
      forall steps | NoPassphrase(steps) ensures KeptClosed(s, Run(s, steps)) { SealedKeepsClosed(s, steps); }
    } else {
      var steps;
      if s.cached.Some? || KeyNow(s).Some? {
        steps := OpenAnswers(s);
      } else {
        var i :| 0 <= i < |s.calls| && PastTheLock(s.calls[i], s);
        steps := PastAnswers(s, i);
      }
      assert NoPassphrase(steps) && !KeptClosed(s, Run(s, steps));
    }
  }

  /** `lock` from its call to its end, nothing else happening meanwhile. */
  function Locked(s: State): State {
    Resumed(Next(s, CallLock), |s.calls|)
  }

  /**
   * A lock closes the vault exactly when a passphrase protects it and no read,
   * write, unlock or change of protection had got past it before.
   */
  lemma LockClosesExactly(s: State)
    ensures StaysClosed(Locked(s)) <==> s.meta.Passphrase? && NonePast(s)
  {
    StaysClosedExactly(Locked(s));
    var t := Locked(s);
    forall i | 0 <= i < |s.calls|
      ensures t.calls[i] == s.calls[i] && (PastTheLock(t.calls[i], t) <==> PastTheLock(s.calls[i], s))
    {
    }
    assert t.calls[|s.calls|] == Returned;
  }

  /** A worker that is torn down leaves no call and no cache, so the protection and the session decide again. */
  lemma StoppedWorkerClosesExactly(s: State)
    ensures StaysClosed(Next(s, WorkerStops)) <==> s.meta.Passphrase? && s.session.None?
  {
    StaysClosedExactly(Next(s, WorkerStops));
  }

  /** With the browser the session goes too, so that only the protection decides. */
  lemma StoppedBrowserClosesExactly(s: State)
    ensures StaysClosed(Next(s, BrowserStops)) <==> s.meta.Passphrase?
  {
    StaysClosedExactly(Next(s, BrowserStops));
  }

  lemma RunTwo(s: State, first: Step, second: Step)
    ensures Run(s, [first, second]) == Next(Next(s, first), second)
  {
    hide Next;
    assert [first, second][1..] == [second];
    At1(Next(s, first), second);
  }

  lemma RunThree(s: State, first: Step, second: Step, third: Step)
    ensures Run(s, [first, second, third]) == Next(Next(Next(s, first), second), third)
  {
    hide Next;
    assert [first, second, third][1..] == [second, third];
    RunTwo(Next(s, first), second, third);
  }

  /** The last of the calls goes on to its next await. */
  lemma LastGoesOn(s: State, before: seq<Call>, call: Call, next: Call)
    requires s.calls == before + [call]
    ensures At(s, |before|, next) == s.(calls := before + [next])
  {
  }

  /** The passphrase opens the vault again: its key is in the session, and what is cached is read anew. */
  lemma UnlockOpens(s: State)
    ensures var i := |s.calls|;
            var t := Run(s, [CallUnlock, Resume(i), Resume(i)]);
            if s.meta.Device? then Next(s, CallUnlock) == s
            else t == s.(session := Some(s.meta), cached := None, calls := s.calls + [Returned])
  {
    hide Run, At;
    var i := |s.calls|;
    RunThree(s, CallUnlock, Resume(i), Resume(i));
    if s.meta.Passphrase? {
      LastGoesOn(s.(calls := s.calls + [UnlockAtSession(s.meta)]), s.calls, UnlockAtSession(s.meta), UnlockAtCache);
      var s2 := s.(session := Some(s.meta), calls := s.calls + [UnlockAtCache]);
      assert Next(Next(s, CallUnlock), Resume(i)) == s2;
      LastGoesOn(s2, s.calls, UnlockAtCache, Returned);
    }
  }

  /** Why a read is refused: the session has no key, or one that does not open the blob. */
  lemma RefusedReads(s: State)
    requires s.meta.Passphrase? && s.cached.None? && s.session != Some(s.sealed)
    ensures var i := |s.calls|;
            var asked := Next(Next(s, CallRead), Resume(i));
            if s.session.None? then asked == Answer(s.(calls := s.calls + [Returned]), Err(VaultLocked))
            else Next(Next(asked, Resume(i)), Resume(i))
                   == Answer(s.(calls := s.calls + [Returned]), Err(WrongPassphrase))
  {
    hide At;
    var s1 := s.(calls := s.calls + [ReadAtKey]);
    if s.session.None? {
      LastGoesOn(s1, s.calls, ReadAtKey, Returned);
    } else {
      var key := s.session.value;
      LastGoesOn(s1, s.calls, ReadAtKey, ReadAtBlob(key));
      var s2 := s.(calls := s.calls + [ReadAtBlob(key)]);
      LastGoesOn(s2, s.calls, ReadAtBlob(key), ReadAtCache(key, s.stored, s.sealed));
      var s3 := s.(calls := s.calls + [ReadAtCache(key, s.stored, s.sealed)]);
      LastGoesOn(s3, s.calls, ReadAtCache(key, s.stored, s.sealed), Returned);
    }
  }

  /** The state when a change of protection has its contents in hand and its key derived. */
  function InHand(s: State, kept: Contents, next: Key): State {
    s.(cached := Some(kept), calls := s.calls + [ProtectAtSession(kept, next)])
  }

  lemma ProtectionReads(s: State, next: Key)
    requires s.meta.Device? && s.sealed == Device
    ensures var i := |s.calls|;
            var asked := Next(Next(s, CallProtect(next)), Resume(i));
            (if s.cached.Some? then asked == InHand(s, s.cached.value, next)
             else Next(Next(asked, Resume(i)), Resume(i)) == InHand(s, s.stored, next))
  {
    hide At;
    var s1 := s.(calls := s.calls + [ProtectAtKey(next)]);
    assert Next(s, CallProtect(next)) == s1;
    if s.cached.Some? {
      LastGoesOn(s1, s.calls, ProtectAtKey(next), ProtectAtSession(s.cached.value, next));
    } else {
      LastGoesOn(s1, s.calls, ProtectAtKey(next), ProtectAtBlob(Device, next));
      var s2 := s.(calls := s.calls + [ProtectAtBlob(Device, next)]);
      LastGoesOn(s2, s.calls, ProtectAtBlob(Device, next), ProtectAtCache(Device, s.stored, Device, next));
      var s3 := s.(calls := s.calls + [ProtectAtCache(Device, s.stored, Device, next)]);
      LastGoesOn(s3, s.calls, ProtectAtCache(Device, s.stored, Device, next), ProtectAtSession(s.stored, next));
    }
  }

  lemma ProtectionWrites(s: State, kept: Contents, next: Key)
    ensures var i := |s.calls|;
            Next(Next(Next(InHand(s, kept, next), Resume(i)), Resume(i)), Resume(i))
              == s.(meta := next, stored := kept, sealed := next, session := if next.Device? then None else Some(next),
                    cached := Some(kept), calls := s.calls + [Returned])
  {
    hide At;
    var s1 := InHand(s, kept, next);
    LastGoesOn(s1, s.calls, ProtectAtSession(kept, next), ProtectAtStore(kept, next));
    var s2 := s1.(session := if next.Device? then None else Some(next),
                  calls := s.calls + [ProtectAtStore(kept, next)]);
    LastGoesOn(s2, s.calls, ProtectAtStore(kept, next), ProtectAtEnd(kept));
    var s3 := s2.(meta := next, stored := kept, sealed := next, calls := s.calls + [ProtectAtEnd(kept)]);
    LastGoesOn(s3, s.calls, ProtectAtEnd(kept), Returned);
  }

  /** A device vault's change of protection: asking, reading where nothing is cached, and writing. */
  function WholeChange(s: State, next: Key): seq<Step> {
    var i := |s.calls|;
    [CallProtect(next), Resume(i)] + (if s.cached.Some? then [] else [Resume(i), Resume(i)])
    + [Resume(i), Resume(i), Resume(i)]
  }

  /**
   * When nothing comes between, it puts the vault under the new key, with the
   * contents that it found in the cache or else in storage.
   */
  lemma ProtectionMovesTheVault(s: State, next: Key)
    requires s.meta.Device? && s.sealed == Device
    ensures var kept := if s.cached.Some? then s.cached.value else s.stored;
            Run(s, WholeChange(s, next))
              == s.(meta := next, stored := kept, sealed := next, session := if next.Device? then None else Some(next),
                    cached := Some(kept), calls := s.calls + [Returned])
  {
    hide Run, Next;
    var i, kept := |s.calls|, if s.cached.Some? then s.cached.value else s.stored;
    var ask, writes := [CallProtect(next), Resume(i)], [Resume(i), Resume(i), Resume(i)];
    var read: seq<Step> := if s.cached.Some? then [] else [Resume(i), Resume(i)];
    ProtectionReads(s, next);
    ProtectionWrites(s, kept, next);
    RunTwo(s, CallProtect(next), Resume(i));
    RunTwo(Run(s, ask), Resume(i), Resume(i));
    RunThree(InHand(s, kept, next), Resume(i), Resume(i), Resume(i));
    RunSplits(s, ask + read, writes);
    RunSplits(s, ask, read);
    NothingRuns(Run(s, ask));
  }

  lemma NothingRuns(s: State)
    ensures Run(s, []) == s
  {
  }

  // ---------------------------------------------------------- locks undone

  const OLD := Passphrase(1)
  const NEW := Passphrase(2)
  const OPEN_VAULT := State(OLD, map[], OLD, Some(OLD), None, [], [])

  const LOCK_DURING_READ := [CallRead, Resume(0), CallLock, Resume(1), Resume(0), Resume(0), CallRead]

  /**
   * The read has its key when the lock comes, and fills the cache when the lock
   * is done: the vault has no key in the session, and answers every later read.
   */
  lemma LockDuringRead()
    ensures var t := Run(OPEN_VAULT, LOCK_DURING_READ);
            t.session.None? && t.cached == Some(map[]) && t.answers == [Ok(map[]), Ok(map[])]
  {
  }

  /** Up to the old key being back; up to the new one being derived; and the lock with the rest of the change. */
  const PASSPHRASE_GIVEN := [CallProtect(NEW), Resume(0), Resume(0)]
  const CONTENTS_READ := [Resume(0), Resume(0), Resume(0)]
  const LOCK_DURING_PROTECTION := [CallLock, Resume(1), Resume(0), Resume(0), Resume(0), CallRead]

  lemma {:induction false} RunSplits(s: State, before: seq<Step>, later: seq<Step>)
    ensures Run(s, before + later) == Run(Run(s, before), later)
    decreases |before|
  {
    if before == [] {
      assert before + later == later;
    } else {
      assert (before + later)[1..] == before[1..] + later;
      RunSplits(Next(s, before[0]), before[1..], later);
    }
  }

  lemma PassphraseGiven()
    ensures Run(OPEN_VAULT, PASSPHRASE_GIVEN) == OPEN_VAULT.(calls := [ProtectAtKey(NEW)])
  {
    var s1 := Next(OPEN_VAULT, CallProtect(NEW));
    assert s1.calls == [ProtectAtUnlock(OLD, NEW)];
    assert PASSPHRASE_GIVEN[1..] == [Resume(0), Resume(0)];
    assert Run(OPEN_VAULT, PASSPHRASE_GIVEN) == Run(s1, [Resume(0), Resume(0)]);
  }

  lemma ContentsRead()
    ensures Run(OPEN_VAULT.(calls := [ProtectAtKey(NEW)]), CONTENTS_READ)
         == OPEN_VAULT.(cached := Some(map[]), calls := [ProtectAtSession(map[], NEW)])
  {
  }

  lemma LockUndone()
    ensures var t := Run(OPEN_VAULT.(cached := Some(map[]), calls := [ProtectAtSession(map[], NEW)]),
                         LOCK_DURING_PROTECTION);
            t.meta == NEW && t.session == Some(NEW) && t.cached == Some(map[]) && t.answers == [Ok(map[])]
  {
  }

  /** The change of passphrase has read the contents when the lock comes, and undoes it. */
  lemma LockDuringProtection()
    ensures var t := Run(OPEN_VAULT, PASSPHRASE_GIVEN + CONTENTS_READ + LOCK_DURING_PROTECTION);
            t.meta == NEW && t.session == Some(NEW) && t.cached == Some(map[]) && t.answers == [Ok(map[])]
  {
    hide Run, Next;
    RunSplits(OPEN_VAULT, PASSPHRASE_GIVEN + CONTENTS_READ, LOCK_DURING_PROTECTION);
    RunSplits(OPEN_VAULT, PASSPHRASE_GIVEN, CONTENTS_READ);
    PassphraseGiven();
    ContentsRead();
    LockUndone();
  }
}
