/**
 * `BridgeClient`: calls to the native host, correlated by id, each with a timer
 * of its own. `outcomes` is history: how each promise was settled, in order.
 */
module Bridge {
  import opened Wrappers

  datatype Reply = Resolved(result: string) | Rejected(error: string)

  type Log = seq<(nat, Reply)>

  /** `pending` names the timer of each call; a timer's callback knows its call. */
  datatype Client = Client(
    connected: bool,
    nextId: nat,
    pending: map<nat, nat>,
    timers: map<nat, nat>,
    nextTimer: nat,
    outcomes: Log)

  const START := Client(false, 1, map[], map[], 0, [])
  const TIMED_OUT := "timed out"
  const UNREACHABLE := "could not reach the bridge"

  datatype Event =
    | Call(hostStarts: bool, posts: bool)
    | Message(id: nat, reply: Reply)
    | TimerFires(timer: nat)
    | Closes(reason: string)

  // ------------------------------------------------------------ what events do

  function Issued(s: Client): Client {
    Client(true, s.nextId + 1, s.pending[s.nextId := s.nextTimer], s.timers[s.nextTimer := s.nextId],
           s.nextTimer + 1, s.outcomes)
  }

  /** Clear the timer, forget the call, settle its promise. */
  function Settled(s: Client, id: nat, reply: Reply): Client
    requires id in s.pending
  {
    s.(timers := s.timers - {s.pending[id]}, pending := s.pending - {id}, outcomes := s.outcomes + [(id, reply)])
  }

  /** The rejections of a teardown, in the order of the calls. */
  function Rejections(pending: map<nat, nat>, n: nat, error: string): Log {
    if n == 0 then []
    else Rejections(pending, n - 1, error) + if n - 1 in pending then [(n - 1, Rejected(error))] else []
  }

  function TornDown(s: Client, error: string): Client {
    s.(timers := s.timers - s.pending.Values, pending := map[],
       outcomes := s.outcomes + Rejections(s.pending, s.nextId, error))
  }

  function Next(s: Client, event: Event): Client {
    match event
    case Call(hostStarts, posts) =>
      if !s.connected && !hostStarts then s
      else if posts then Issued(s)
      else Settled(Issued(s), s.nextId, Rejected(UNREACHABLE))
    case Message(id, reply) => if id in s.pending then Settled(s, id, reply) else s
    case TimerFires(timer) =>
      if timer in s.timers then
        s.(timers := s.timers - {timer}, pending := s.pending - {s.timers[timer]},
           outcomes := s.outcomes + [(s.timers[timer], Rejected(TIMED_OUT))])
      else s
    case Closes(reason) => TornDown(s.(connected := false), reason)
  }

  function Run(s: Client, events: seq<Event>): Client
    decreases |events|
  {
    if events == [] then s else Run(Next(s, events[0]), events[1..])
  }

  // ------------------------------------------------------------------ the class

  class BridgeClient {
    var connected: bool
    var nextId: nat
    var pending: map<nat, nat>
    var timers: map<nat, nat>
    var nextTimer: nat
    ghost var outcomes: Log

    ghost function View(): Client
      reads this
    {
      Client(connected, nextId, pending, timers, nextTimer, outcomes)
    }

    constructor ()
      ensures View() == START
    {
      connected, nextId, pending, timers, nextTimer, outcomes := false, 1, map[], map[], 0, [];
    }

    /** `call`: connect if need be, take an id, start a timer, post. */
    method Issue(hostStarts: bool, posts: bool) returns (id: Option<nat>)
      modifies this
      ensures View() == Next(old(View()), Call(hostStarts, posts))
      ensures id == if old(connected) || hostStarts then Some(old(nextId)) else None
    {
      if !connected {
        if !hostStarts {
          return None;
        }
        connected := true;
      }
      var callId := nextId;
      nextId := nextId + 1;
      var timer := nextTimer;
      nextTimer := nextTimer + 1;
      timers := timers[timer := callId];
      pending := pending[callId := timer];
      if !posts {
        timers := timers - {timer};
        pending := pending - {callId};
        outcomes := outcomes + [(callId, Rejected(UNREACHABLE))];
      }
      id := Some(callId);
    }

    method OnMessage(id: nat, reply: Reply)
      modifies this`pending, this`timers, this`outcomes
      ensures View() == Next(old(View()), Message(id, reply))
    {
      if id !in pending {
        return;
      }
      timers := timers - {pending[id]};
      pending := pending - {id};
      outcomes := outcomes + [(id, reply)];
    }

    method OnTimer(timer: nat)
      requires timer in timers
      modifies this`pending, this`timers, this`outcomes
      ensures View() == Next(old(View()), TimerFires(timer))
    {
      var id := timers[timer];
      timers := timers - {timer};
      pending := pending - {id};
      outcomes := outcomes + [(id, Rejected(TIMED_OUT))];
    }

    method Teardown(error: string)
      requires forall id :: id in pending ==> id < nextId
      modifies this`pending, this`timers, this`outcomes
      ensures View() == TornDown(old(View()), error)
    {
      ghost var cleared: set<nat> := {};
      for id := 0 to nextId
        invariant pending == old(pending)
        invariant cleared == set k | k in pending && k < id :: pending[k]
        invariant timers == old(timers) - cleared
        invariant outcomes == old(outcomes) + Rejections(pending, id, error)
      {
        if id in pending {
          timers := timers - {pending[id]};
          outcomes := outcomes + [(id, Rejected(error))];
          cleared := cleared + {pending[id]};
        }
      }
      assert cleared == pending.Values;
      pending := map[];
    }

    /** `disconnect`, and the port's own disconnect listener. */
    method Close(reason: string)
      requires forall id :: id in pending ==> id < nextId
      modifies this
      ensures View() == Next(old(View()), Closes(reason))
    {
      connected := false;
      Teardown(reason);
    }
  }

  // ---------------------------------------------------------------- exactly once

  ghost predicate SettledIn(log: Log, id: nat) {
    exists i :: 0 <= i < |log| && log[i].0 == id
  }

  predicate EachOnce(log: Log) {
    forall i, j :: 0 <= i < j < |log| ==> log[i].0 != log[j].0
  }

  /** Calls and timers are paired; every issued call is pending or settled, once, and never both. */
  ghost predicate Inv(s: Client) {
    && s.nextId >= 1
    && (forall id :: id in s.pending ==>
          1 <= id < s.nextId && s.pending[id] in s.timers && s.timers[s.pending[id]] == id)
    && (forall t :: t in s.timers ==> t < s.nextTimer && s.timers[t] in s.pending && s.pending[s.timers[t]] == t)
    && (forall i :: 0 <= i < |s.outcomes| ==> 1 <= s.outcomes[i].0 < s.nextId && s.outcomes[i].0 !in s.pending)
    && EachOnce(s.outcomes)
    && (forall id :: 1 <= id < s.nextId && id !in s.pending ==> SettledIn(s.outcomes, id))
  }

  lemma SettledGrows(before: Log, after: Log)
    requires before <= after
    ensures forall id :: SettledIn(before, id) ==> SettledIn(after, id)
  {
  }

  lemma SettlingKeepsInv(s: Client, id: nat, reply: Reply)
    requires Inv(s) && id in s.pending
    ensures Inv(Settled(s, id, reply))
  {
    var s' := Settled(s, id, reply);
    SettledGrows(s.outcomes, s'.outcomes);
    assert s'.outcomes[|s.outcomes|].0 == id;
  }

  lemma {:induction false} RejectionsSettleAll(pending: map<nat, nat>, n: nat, error: string)
    ensures EachOnce(Rejections(pending, n, error))
    ensures forall i :: 0 <= i < |Rejections(pending, n, error)| ==>
              Rejections(pending, n, error)[i].0 in pending && Rejections(pending, n, error)[i].0 < n
    ensures forall id :: id in pending && id < n ==> SettledIn(Rejections(pending, n, error), id)
  {
    if n > 0 {
      RejectionsSettleAll(pending, n - 1, error);
      var before, after := Rejections(pending, n - 1, error), Rejections(pending, n, error);
      SettledGrows(before, after);
      if n - 1 in pending { assert after[|before|].0 == n - 1; }
    }
  }

  lemma TeardownKeepsInv(s: Client, error: string)
    requires Inv(s)
    ensures Inv(TornDown(s, error)) && TornDown(s, error).pending == map[] && TornDown(s, error).timers == map[]
  {
    var s' := TornDown(s, error);
    var log := Rejections(s.pending, s.nextId, error);
    RejectionsSettleAll(s.pending, s.nextId, error);
    SettledGrows(s.outcomes, s'.outcomes);
    forall id | id in s.pending ensures SettledIn(s'.outcomes, id) {
      var i :| 0 <= i < |log| && log[i].0 == id;
      assert s'.outcomes[|s.outcomes| + i].0 == id;
    }
    forall t | t in s.timers ensures t in s.pending.Values {
      assert s.pending[s.timers[t]] == t;
    }
  }

  lemma StepKeepsInv(s: Client, event: Event)
    requires Inv(s)
    ensures Inv(Next(s, event)) && s.outcomes <= Next(s, event).outcomes
  {
    match event
    case Call(hostStarts, posts) =>
      if s.connected || hostStarts {
        assert Inv(Issued(s));
        if !posts { SettlingKeepsInv(Issued(s), s.nextId, Rejected(UNREACHABLE)); }
      }
    case Message(id, reply) => if id in s.pending { SettlingKeepsInv(s, id, reply); }
    case TimerFires(timer) =>
      if timer in s.timers {
        SettlingKeepsInv(s, s.timers[timer], Rejected(TIMED_OUT));
        assert Next(s, event) == Settled(s, s.timers[timer], Rejected(TIMED_OUT));
      }
    case Closes(reason) => TeardownKeepsInv(s.(connected := false), reason);
  }

  lemma {:induction false} RunKeepsInv(s: Client, events: seq<Event>)
    requires Inv(s)
    ensures Inv(Run(s, events)) && s.outcomes <= Run(s, events).outcomes
    decreases |events|
  {
    if events != [] {
      StepKeepsInv(s, events[0]);
      RunKeepsInv(Next(s, events[0]), events[1..]);
    }
  }

  /**
   * In every run of calls, replies, timeouts, failed posts and disconnects each
   * issued call is either pending, with a live timer of its own, or was settled
   * exactly once; and nothing that happens later settles it again.
   */
  lemma ExactlyOnceSettlement(events: seq<Event>, later: seq<Event>, id: nat)
    requires 1 <= id < Run(START, events).nextId
    ensures var s := Run(START, events);
            && (id in s.pending <==> !SettledIn(s.outcomes, id))
            && (id in s.pending ==> s.pending[id] in s.timers && s.timers[s.pending[id]] == id)
            && EachOnce(Run(s, later).outcomes) && s.outcomes <= Run(s, later).outcomes
            && (id !in s.pending ==> id !in Run(s, later).pending)
  {
    RunKeepsInv(START, events);
    var s := Run(START, events);
    RunKeepsInv(s, later);
    if id !in s.pending {
      SettledGrows(s.outcomes, Run(s, later).outcomes);
    }
  }

  /** A reply can settle the call it names, and changes nothing about any other. */
  lemma ReplyReachesItsCallOnly(events: seq<Event>, id: nat, reply: Reply)
    ensures var s := Run(START, events);
            var t := Next(s, Message(id, reply));
            && (forall other :: other != id ==> (other in t.pending <==> other in s.pending))
            && (forall other :: other != id && other in s.pending ==>
                  t.pending[other] == s.pending[other] && t.pending[other] in t.timers)
            && (if id in s.pending then t.outcomes == s.outcomes + [(id, reply)] else t == s)
  {
    RunKeepsInv(START, events);
  }

  /** Once the port is gone nothing is pending and no timer is left. */
  lemma NothingPendingAfterTeardown(events: seq<Event>, reason: string)
    ensures var t := Next(Run(START, events), Closes(reason));
            && t.pending == map[] && t.timers == map[] && !t.connected
            && forall id :: 1 <= id < t.nextId ==> SettledIn(t.outcomes, id)
  {
    RunKeepsInv(START, events);
    TeardownKeepsInv(Run(START, events).(connected := false), reason);
  }

  /** A call that gets out waits, with a timer of its own; one that cannot be posted is rejected at once. */
  lemma CallWaitsOrIsRejected(events: seq<Event>, hostStarts: bool, posts: bool)
    ensures var s := Run(START, events);
            var t := Next(s, Call(hostStarts, posts));
            if !s.connected && !hostStarts then t == s
            else
              && t.connected && t.nextId == s.nextId + 1
              && (forall other :: other in s.pending ==> other in t.pending && t.pending[other] == s.pending[other])
              && (forall other :: other in t.pending ==> other in s.pending || other == s.nextId)
              && (if posts then s.nextId in t.pending && t.outcomes == s.outcomes
                  else t.pending == s.pending && t.timers == s.timers
                       && t.outcomes == s.outcomes + [(s.nextId, Rejected(UNREACHABLE))])
  {
    RunKeepsInv(START, events);
  }

  /** A call whose timer fires is rejected as timed out, and no other call notices. */
  lemma TimerRejectsItsCallOnly(events: seq<Event>, id: nat)
    requires id in Run(START, events).pending
    ensures var s := Run(START, events);
            var t := Next(s, TimerFires(s.pending[id]));
            && t.pending == s.pending - {id} && t.timers == s.timers - {s.pending[id]}
            && t.outcomes == s.outcomes + [(id, Rejected(TIMED_OUT))]
  {
    RunKeepsInv(START, events);
  }

  /** When the port closes, each pending call is rejected for that reason, and nothing else is settled. */
  lemma ClosingRejectsWhatIsPending(events: seq<Event>, reason: string)
    ensures var s := Run(START, events);
            var t := Next(s, Closes(reason));
            && s.outcomes <= t.outcomes
            && forall id :: id in s.pending <==> (id, Rejected(reason)) in t.outcomes[|s.outcomes|..]
    ensures var s := Run(START, events);
            forall settled :: settled in Next(s, Closes(reason)).outcomes[|s.outcomes|..] ==>
              settled.0 in s.pending && settled.1 == Rejected(reason)
  {
    RunKeepsInv(START, events);
    var s := Run(START, events);
    forall settled ensures settled in Rejections(s.pending, s.nextId, reason)
                      <==> settled.0 in s.pending && settled.0 < s.nextId && settled.1 == Rejected(reason) {
      RejectionsAre(s.pending, s.nextId, reason, settled);
    }
    assert Next(s, Closes(reason)).outcomes[|s.outcomes|..] == Rejections(s.pending, s.nextId, reason);
  }

  lemma {:induction false} RejectionsAre(pending: map<nat, nat>, n: nat, error: string, settled: (nat, Reply))
    ensures settled in Rejections(pending, n, error)
       <==> settled.0 in pending && settled.0 < n && settled.1 == Rejected(error)
  {
    if n > 0 {
      RejectionsAre(pending, n - 1, error, settled);
    }
  }
}
