/**
 * One collection of the Sync Storage API v1.5, as its clients see it
 * ("Concurrency and Conflict Management"): every write gets a timestamp larger
 * than any before it, a read reports the time of the last write, and a write
 * under `X-If-Unmodified-Since` is refused when the collection changed later.
 */
module SyncServer {
  import opened Wrappers
  import opened Records

  /**
   * `lastModified` is None while the collection does not exist. `clock` bounds
   * every timestamp handed out, also by a collection deleted since.
   * `syncId` is the engine's entry in `meta/global`, None when undeclared.
   */
  datatype Server = Server(
    objects: map<Id, Bso>,
    lastModified: Option<int>,
    clock: int,
    syncId: Option<string>)

  predicate ServerInv(sv: Server) {
    && (sv.lastModified.Some? ==> sv.lastModified.value <= sv.clock)
    && (forall id :: id in sv.objects ==> sv.lastModified.Some? && sv.objects[id].modified <= sv.lastModified.value)
  }

  /** The objects modified strictly after `newer`; all of them when it is None. */
  function ReadNewer(sv: Server, newer: Option<int>): map<Id, Bso> {
    map id | id in sv.objects && (newer.Some? ==> sv.objects[id].modified > newer.value) :: sv.objects[id]
  }

  /** The precondition of a write. */
  predicate Unmodified(sv: Server, since: Option<int>) {
    since.Some? && sv.lastModified.Some? ==> sv.lastModified.value <= since.value
  }

  /** All of `puts` at one timestamp. */
  function Write(sv: Server, puts: map<Id, Payload>, now: int): Server {
    sv.(objects := map id | id in sv.objects.Keys + puts.Keys ::
                     if id in puts then Bso(puts[id], now) else sv.objects[id],
        lastModified := Some(now),
        clock := now)
  }

  /** Delete the collection. */
  function Wipe(sv: Server): Server {
    sv.(objects := map[], lastModified := None)
  }

  /**
   * What any activity at the server can look like to a client that is not
   * looking: objects stay as they were, disappear, or carry a newer timestamp
   * than anything handed out before.
   */
  predicate Advances(sv: Server, sv': Server) {
    && ServerInv(sv')
    && sv.clock <= sv'.clock
    && (forall id :: id in sv'.objects ==>
          (id in sv.objects && sv.objects[id] == sv'.objects[id]) || sv'.objects[id].modified > sv.clock)
  }

  lemma WriteAdvances(sv: Server, puts: map<Id, Payload>, now: int)
    requires ServerInv(sv) && now > sv.clock
    ensures Advances(sv, Write(sv, puts, now))
  {
  }
}
