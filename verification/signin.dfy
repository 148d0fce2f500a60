/**
 * The hosted sign-in coordinator: session and local storage survive a worker,
 * the promise chain and every call in progress die with it. Each `await` ends a
 * step, so navigations, `begin`, `cancel` and `onTabClosed` interleave freely.
 */
module SignIn {
  import opened Wrappers

  /** Flows are named by their unguessable `state`; a fresh one is never reused. */
  type FlowState = nat

  const TRAIL_LIMIT := 12
  const SIGNIN_MAX_AGE_MS := 60 * 60_000

  /** What `parseRedirect` makes of a URL. */
  datatype Redirect = Elsewhere | ErrorRedirect | CodeRedirect(state: FlowState)

  /** `step` is the redacted URL; `mentions` the states whose text the URL contains. */
  datatype Url = Url(step: string, mentions: set<FlowState>, redirect: Redirect)

  datatype Nav = Nav(tab: nat, url: Option<Url>)

  datatype Pending = Pending(state: FlowState, tab: Option<nat>, trail: seq<string>, startedAt: int)

  datatype Status = Complete | Failed | Cancelled

  datatype Outcome = Outcome(status: Status, at: int, trail: seq<string>)

  /** Where the handler at the head of the promise chain stands. */
  datatype Handler =
    | Reading(nav: Nav)
    | Trailing(nav: Nav, pending: Pending)
    | Matching(nav: Nav, pending: Pending)
    | Claiming(nav: Nav, pending: Pending)
    | Redeeming(nav: Nav, pending: Pending)
    | Saving(pending: Pending)
    | ClosingTab(pending: Pending)
    | Removing(outcome: Outcome)
    | Recording(outcome: Outcome)

  /** A `begin`, `cancel` or `onTabClosed` in progress. */
  datatype Call =
    | BeginClear
    | BeginStart
    | BeginStore(pending: Pending)
    | CancelRead
    | TabClosedRead(tab: nat)
    | FinishRemove(outcome: Outcome)
    | FinishRecord(outcome: Outcome)
    | Returned

  datatype State = State(
    pending: Option<Pending>,
    result: Option<Outcome>,
    queue: seq<Nav>,
    running: Option<Handler>,
    calls: seq<Call>,
    issued: nat,
    redeemed: seq<FlowState>)

  datatype Step =
    | Navigate(nav: Nav)
    | Begin
    | Cancel
    | TabClosed(closed: nat)
    | HandlerStep(now: int, exchanges: bool, saves: bool)
    | CallStep(i: nat, at: int, tabId: Option<nat>)
    | WorkerDies
    | BrowserRestarts

  // ------------------------------------------------------------------ handlers

  function LastTwelve(trail: seq<string>): seq<string> {
    if |trail| > TRAIL_LIMIT then trail[|trail| - TRAIL_LIMIT..] else trail
  }

  predicate LooksLikeOurRedirect(url: Url, pending: Pending) {
    pending.state in url.mentions
  }

  /** The handler ignores navigations in other tabs that do not carry the state. */
  predicate Ignores(nav: Nav, pending: Pending)
    requires nav.url.Some?
  {
    pending.tab.Some? && nav.tab != pending.tab.value && !LooksLikeOurRedirect(nav.url.value, pending)
  }

  function Trailed(url: Url, pending: Pending): Pending {
    pending.(trail := LastTwelve(pending.trail + [url.step]))
  }

  /** After reading the pending flow. */
  function AfterRead(s: State, nav: Nav): State {
    if nav.url.None? || s.pending.None? then s.(running := None)
    else
      var pending := s.pending.value;
      var url := nav.url.value;
      if Ignores(nav, pending) then s.(running := None)
      else if pending.trail == [] || pending.trail[|pending.trail| - 1] != url.step then
        s.(running := Some(Trailing(nav, Trailed(url, pending))))
      else s.(running := Some(Matching(nav, pending)))
  }

  function AfterMatch(s: State, nav: Nav, pending: Pending, now: int): State
  {
    var redirect := if nav.url.Some? then nav.url.value.redirect else Elsewhere;
    match redirect
    case CodeRedirect(state) =>
      if state == pending.state then s.(running := Some(Claiming(nav, pending)))
      else s.(running := Some(Removing(Outcome(Failed, now, pending.trail))))
    case ErrorRedirect => s.(running := Some(Removing(Outcome(Failed, now, pending.trail))))
    case Elsewhere =>
      if now - pending.startedAt > SIGNIN_MAX_AGE_MS then
        s.(running := Some(Removing(Outcome(Failed, now, pending.trail))))
      else s.(running := None)
  }

  function RunHandler(s: State, now: int, exchanges: bool, saves: bool): State {
    match s.running
    case None => if s.queue == [] then s else s.(running := Some(Reading(s.queue[0])), queue := s.queue[1..])
    case Some(handler) =>
      match handler
      case Reading(nav) => AfterRead(s, nav)
      case Trailing(nav, pending) => s.(pending := Some(pending), running := Some(Matching(nav, pending)))
      case Matching(nav, pending) => AfterMatch(s, nav, pending, now)
      case Claiming(nav, pending) => s.(pending := None, running := Some(Redeeming(nav, pending)))
      case Redeeming(nav, pending) =>
        s.(redeemed := s.redeemed + [pending.state],
           running := Some(if exchanges then Saving(pending) else Removing(Outcome(Failed, now, pending.trail))))
      case Saving(pending) =>
        s.(running := Some(if saves then ClosingTab(pending) else Removing(Outcome(Failed, now, pending.trail))))
      case ClosingTab(pending) => s.(running := Some(Removing(Outcome(Complete, now, pending.trail))))
      case Removing(outcome) => s.(pending := None, running := Some(Recording(outcome)))
      case Recording(outcome) => s.(result := Some(outcome), running := None)
  }

  function RunCall(s: State, i: nat, at: int, tabId: Option<nat>): State
    requires i < |s.calls|
  {
    match s.calls[i]
    case BeginClear => s.(result := None, calls := s.calls[i := BeginStart])
    case BeginStart => s.(issued := s.issued + 1, calls := s.calls[i := BeginStore(Pending(s.issued, tabId, [], at))])
    case BeginStore(pending) => s.(pending := Some(pending), calls := s.calls[i := Returned])
    case CancelRead =>
      s.(calls := s.calls[i := if s.pending.Some? then FinishRemove(Outcome(Cancelled, at, s.pending.value.trail))
                          else Returned])
    case TabClosedRead(tab) =>
      s.(calls := s.calls[i := if s.pending.Some? && s.pending.value.tab == Some(tab)
                               then FinishRemove(Outcome(Cancelled, at, s.pending.value.trail)) else Returned])
    case FinishRemove(outcome) => s.(pending := None, calls := s.calls[i := FinishRecord(outcome)])
    case FinishRecord(outcome) => s.(result := Some(outcome), calls := s.calls[i := Returned])
    case Returned => s
  }

  function Next(s: State, step: Step): State {
    match step
    case Navigate(nav) => s.(queue := s.queue + [nav])
    case Begin => s.(calls := s.calls + [BeginClear])
    case Cancel => s.(calls := s.calls + [CancelRead])
    case TabClosed(closed) => s.(calls := s.calls + [TabClosedRead(closed)])
    case HandlerStep(now, exchanges, saves) => RunHandler(s, now, exchanges, saves)
    case CallStep(i, at, tabId) => if i < |s.calls| then RunCall(s, i, at, tabId) else s
    case WorkerDies => s.(queue := [], running := None, calls := [])
    case BrowserRestarts => s.(queue := [], running := None, calls := [], pending := None)
  }

  function Run(s: State, steps: seq<Step>): State
    decreases |steps|
  {
    if steps == [] then s else Run(Next(s, steps[0]), steps[1..])
  }

  const FRESH := State(None, None, [], None, [], 0, [])

  // --------------------------------------------------------- at most once

  predicate NoDuplicates<T(==)>(xs: seq<T>) {
    forall i, j :: 0 <= i < j < |xs| ==> xs[i] != xs[j]
  }

  /** The flow a running handler has in its hands. */
  function Held(running: Option<Handler>): Option<FlowState> {
    match running
    case None => None
    case Some(handler) =>
      match handler
      case Trailing(_, pending) => Some(pending.state)
      case Matching(_, pending) => Some(pending.state)
      case Claiming(_, pending) => Some(pending.state)
      case Redeeming(_, pending) => Some(pending.state)
      case _ => None
  }

  predicate AboutToStore(s: State, i: int, state: FlowState) {
    0 <= i < |s.calls| && s.calls[i].BeginStore? && s.calls[i].pending.state == state
  }

  /** Not redeemed yet, and issued. */
  predicate Unspent(s: State, state: FlowState) {
    state < s.issued && state !in s.redeemed
  }

  ghost predicate Inv(s: State) {
    && NoDuplicates(s.redeemed)
    && (forall state :: state in s.redeemed ==> state < s.issued)
    && (s.pending.Some? ==> Unspent(s, s.pending.value.state))
    && (Held(s.running).Some? ==> Unspent(s, Held(s.running).value))
    && (s.running.Some? && s.running.value.Redeeming? && s.pending.Some? ==>
          s.pending.value.state != s.running.value.pending.state)
    // A flow still to be stored by its `begin` is nowhere else yet.
    && (forall i, state :: AboutToStore(s, i, state) ==>
          && Unspent(s, state)
          && (s.pending.Some? ==> s.pending.value.state != state)
          && Held(s.running) != Some(state))
    && (forall i, j, state :: AboutToStore(s, i, state) && AboutToStore(s, j, state) ==> i == j)
  }

  lemma HandlerKeepsInv(s: State, now: int, exchanges: bool, saves: bool)
    requires Inv(s)
    ensures Inv(RunHandler(s, now, exchanges, saves))
  {
    hide Ignores, LooksLikeOurRedirect, LastTwelve;
    if s.running.Some? && s.running.value.Redeeming? {
      RedeemingKeepsInv(s, now, exchanges, saves);
    } else {
      var s' := RunHandler(s, now, exchanges, saves);
      assert s'.redeemed == s.redeemed && s'.issued == s.issued;
      assert forall i, state :: AboutToStore(s', i, state) <==> AboutToStore(s, i, state);
    }
  }

  /** The one step that sends a code: it is not among the sent, and is nowhere else afterwards. */
  lemma RedeemingKeepsInv(s: State, now: int, exchanges: bool, saves: bool)
    requires Inv(s) && s.running.Some? && s.running.value.Redeeming?
    ensures Inv(RunHandler(s, now, exchanges, saves))
  {
    var s' := RunHandler(s, now, exchanges, saves);
    assert forall i, state :: AboutToStore(s', i, state) <==> AboutToStore(s, i, state);
  }

  lemma CallKeepsInv(s: State, i: nat, at: int, tabId: Option<nat>)
    requires Inv(s) && i < |s.calls|
    ensures Inv(RunCall(s, i, at, tabId))
  {
    var s' := RunCall(s, i, at, tabId);
    forall j, state | AboutToStore(s', j, state)
      ensures AboutToStore(s, j, state) || (j == i && s.calls[i].BeginStart? && state == s.issued) {}
    if s.calls[i].BeginStore? {
      assert AboutToStore(s, i, s.calls[i].pending.state);
      assert forall state :: !AboutToStore(s', i, state);
    }
  }

  lemma StepKeepsInv(s: State, step: Step)
    requires Inv(s)
    ensures Inv(Next(s, step))
  {
    match step {
      case HandlerStep(now, exchanges, saves) => HandlerKeepsInv(s, now, exchanges, saves);
      case CallStep(i, at, tabId) => if i < |s.calls| { CallKeepsInv(s, i, at, tabId); }
      case _ =>
        var s' := Next(s, step);
        assert forall i, state :: AboutToStore(s', i, state) ==> AboutToStore(s, i, state);
    }
  }

  lemma {:induction false} RunKeepsInv(s: State, steps: seq<Step>)
    requires Inv(s)
    ensures Inv(Run(s, steps))
    decreases |steps|
  {
    if steps != [] {
      StepKeepsInv(s, steps[0]);
      RunKeepsInv(Next(s, steps[0]), steps[1..]);
    }
  }

  /**
   * In every interleaving of duplicate navigations, `begin`, `cancel`, closed
   * tabs and deaths of the worker at any await, the authorization code of a
   * flow is redeemed at most once.
   */
  lemma AtMostOneRedemption(steps: seq<Step>)
    ensures var sent := Run(FRESH, steps).redeemed;
            forall i, j :: 0 <= i < j < |sent| ==> sent[i] != sent[j]
  {
    RunKeepsInv(FRESH, steps);
  }

  // ------------------------------------------------------- and at least once

  /** A navigation that carries the code of this flow. */
  predicate CarriesCode(nav: Nav, pending: Pending) {
    && nav.url.Some?
    && nav.url.value.redirect == CodeRedirect(pending.state)
    && LooksLikeOurRedirect(nav.url.value, pending)
  }

  function Handle(s: State, n: nat, now: int, exchanges: bool, saves: bool): State
    decreases n
  {
    if n == 0 then s else Handle(RunHandler(s, now, exchanges, saves), n - 1, now, exchanges, saves)
  }

  lemma {:induction false} HandleMore(s: State, n: nat, m: nat, now: int, exchanges: bool, saves: bool)
    ensures Handle(s, n + m, now, exchanges, saves)
        == Handle(Handle(s, n, now, exchanges, saves), m, now, exchanges, saves)
    decreases n
  {
    if n > 0 {
      HandleMore(RunHandler(s, now, exchanges, saves), n - 1, m, now, exchanges, saves);
    }
  }

  /** The trail with one more step, unless it repeats the last one: the latest twelve. */
  function Longer(trail: seq<string>, step: string): seq<string> {
    if trail != [] && trail[|trail| - 1] == step then trail else LastTwelve(trail + [step])
  }

  lemma TrailKeepsTheLatest(trail: seq<string>, step: string)
    requires |trail| <= 12
    ensures var longer := Longer(trail, step);
            && 0 < |longer| <= 12 && longer[|longer| - 1] == step
            && (longer == trail || longer == trail + [step] || (|trail| == 12 && longer == trail[1..] + [step]))
            && (longer == trail ==> trail[|trail| - 1] == step)
  {
  }

  /** What the report of the code leaves behind. */
  function Redeemed(pending: Pending, code: Nav, now: int, exchanges: bool, saves: bool): Outcome
    requires code.url.Some?
  {
    Outcome(if exchanges && saves then Complete else Failed, now, Longer(pending.trail, code.url.value.step))
  }

  predicate AtRest(s: State) {
    s.running.None? && s.calls == []
  }

  /** The navigation is in the tab of the flow, or names its state; a flow without a tab goes by any. */
  predicate Concerns(nav: Nav, pending: Pending) {
    nav.url.Some?
    && (pending.tab.None? || pending.tab == Some(nav.tab) || pending.state in nav.url.value.mentions)
  }

  /** Up to the question whether the URL is the redirect. */
  lemma HandledUpToMatching(s: State, now: int, exchanges: bool, saves: bool)
    requires AtRest(s) && s.pending.Some? && s.queue != [] && Concerns(s.queue[0], s.pending.value)
    ensures var nav, pending := s.queue[0], s.pending.value;
            var trailed := pending.(trail := Longer(pending.trail, nav.url.value.step));
            var t := s.(queue := s.queue[1..], pending := Some(trailed), running := Some(Matching(nav, trailed)));
            Handle(s, 2, now, exchanges, saves) == t || Handle(s, 3, now, exchanges, saves) == t
  {
    var s1 := RunHandler(s, now, exchanges, saves);
    var s2 := RunHandler(s1, now, exchanges, saves);
    HandleMore(s, 1, 1, now, exchanges, saves);
    HandleMore(s, 2, 1, now, exchanges, saves);
    assert Handle(s, 1, now, exchanges, saves) == s1;
    assert Handle(s1, 1, now, exchanges, saves) == s2;
    assert Handle(s2, 1, now, exchanges, saves) == RunHandler(s2, now, exchanges, saves);
  }

  /**
   * The code is redeemed by the first report, however old the flow is: once, also
   * when the exchange fails, and also when it succeeds and saving the account fails.
   */
  lemma FirstReportRedeems(s: State, now: int, exchanges: bool, saves: bool)
    requires AtRest(s) && s.pending.Some? && s.queue != [] && CarriesCode(s.queue[0], s.pending.value)
    ensures exists n: nat :: n <= 10
              && var t := Handle(s, n, now, exchanges, saves);
                 && AtRest(t) && t.queue == s.queue[1..] && t.pending.None? && t.issued == s.issued
                 && t.redeemed == s.redeemed + [s.pending.value.state]
                 && t.result == Some(Redeemed(s.pending.value, s.queue[0], now, exchanges, saves))
  {
    hide Handle, RunHandler, Longer;
    var nav, pending := s.queue[0], s.pending.value;
    HandledUpToMatching(s, now, exchanges, saves);
    var trailed := pending.(trail := Longer(pending.trail, nav.url.value.step));
    var t := s.(queue := s.queue[1..], pending := Some(trailed), running := Some(Matching(nav, trailed)));
    var k: nat :| k <= 3 && Handle(s, k, now, exchanges, saves) == t;
    CodeIsClaimed(t, now, exchanges, saves);
    var claimed := t.(pending := None, running := Some(Redeeming(nav, trailed)));
    var rest: nat := if !exchanges then 3 else if saves then 5 else 4;
    AfterTheExchange(claimed, now, exchanges, saves);
    HandleMore(s, k, 2, now, exchanges, saves);
    HandleMore(s, k + 2, rest, now, exchanges, saves);
    var end := claimed.(redeemed := s.redeemed + [pending.state], running := None,
                        result := Some(Redeemed(pending, nav, now, exchanges, saves)));
    assert Handle(s, k + 2 + rest, now, exchanges, saves) == end;
  }

  /** The flow is taken out of storage before its code is sent. */
  lemma CodeIsClaimed(s: State, now: int, exchanges: bool, saves: bool)
    requires s.running.Some? && s.running.value.Matching?
    requires var nav, pending := s.running.value.nav, s.running.value.pending;
             nav.url.Some? && nav.url.value.redirect == CodeRedirect(pending.state)
    ensures Handle(s, 2, now, exchanges, saves)
         == s.(pending := None, running := Some(Redeeming(s.running.value.nav, s.running.value.pending)))
  {
    var s1 := RunHandler(s, now, exchanges, saves);
    assert Handle(s1, 1, now, exchanges, saves) == RunHandler(s1, now, exchanges, saves);
  }

  lemma AfterTheExchange(s: State, now: int, exchanges: bool, saves: bool)
    requires s.running.Some? && s.running.value.Redeeming? && s.pending.None?
    ensures var t := Handle(s, if !exchanges then 3 else if saves then 5 else 4, now, exchanges, saves);
            && t == s.(redeemed := s.redeemed + [s.running.value.pending.state],
                       result := Some(Outcome(if exchanges && saves then Complete else Failed, now,
                                              s.running.value.pending.trail)),
                       running := None)
  {
    var s1 := RunHandler(s, now, exchanges, saves);
    var s2 := RunHandler(s1, now, exchanges, saves);
    var s3 := RunHandler(s2, now, exchanges, saves);
    assert Handle(s1, 2, now, exchanges, saves) == s3;
    assert Handle(s, 3, now, exchanges, saves) == s3;
    if exchanges {
      var s4 := RunHandler(s3, now, exchanges, saves);
      HandleMore(s, 3, if saves then 2 else 1, now, exchanges, saves);
      assert Handle(s3, 1, now, exchanges, saves) == s4;
      assert Handle(s3, 2, now, exchanges, saves) == RunHandler(s4, now, exchanges, saves);
    }
  }

  /** Every further report of a flow that is gone does nothing. */
  lemma {:induction false} LateReportsDoNothing(s: State, now: int, exchanges: bool, saves: bool)
    requires AtRest(s) && s.pending.None?
    ensures exists n: nat :: Handle(s, n, now, exchanges, saves) == s.(queue := [])
    decreases |s.queue|
  {
    if s.queue == [] {
      assert Handle(s, 0, now, exchanges, saves) == s.(queue := []);
    } else {
      var s1 := RunHandler(s, now, exchanges, saves);
      var s2 := RunHandler(s1, now, exchanges, saves);
      assert s2 == s.(queue := s.queue[1..]);
      LateReportsDoNothing(s2, now, exchanges, saves);
      var n: nat :| Handle(s2, n, now, exchanges, saves) == s2.(queue := []);
      HandleMore(s1, 1, n, now, exchanges, saves);
      HandleMore(s, 1, 1 + n, now, exchanges, saves);
      assert Handle(s, 2 + n, now, exchanges, saves) == s.(queue := []);
    }
  }

  /**
   * A code that arrives while its flow is pending is redeemed exactly once,
   * however many times the redirect is reported and however long the sign-in
   * took, provided nothing interferes until the reports are handled.
   */
  lemma DuplicateReportsRedeemOnce(s: State, now: int, exchanges: bool, saves: bool)
    requires AtRest(s) && s.pending.Some? && s.queue != [] && CarriesCode(s.queue[0], s.pending.value)
    requires forall i :: 0 <= i < |s.queue| ==> CarriesCode(s.queue[i], s.pending.value)
    ensures exists n: nat ::
              var t := Handle(s, n, now, exchanges, saves);
              t.queue == [] && AtRest(t) && t.redeemed == s.redeemed + [s.pending.value.state] && t.pending.None?
              && t.result == Some(Redeemed(s.pending.value, s.queue[0], now, exchanges, saves))
  {
    FirstReportRedeems(s, now, exchanges, saves);
    var n: nat :| n <= 10
              && var t := Handle(s, n, now, exchanges, saves);
                 && AtRest(t) && t.queue == s.queue[1..] && t.pending.None? && t.issued == s.issued
                 && t.redeemed == s.redeemed + [s.pending.value.state]
                 && t.result == Some(Redeemed(s.pending.value, s.queue[0], now, exchanges, saves));
    var t := Handle(s, n, now, exchanges, saves);
    LateReportsDoNothing(t, now, exchanges, saves);
    var m: nat :| Handle(t, m, now, exchanges, saves) == t.(queue := []);
    HandleMore(s, n, m, now, exchanges, saves);
    assert Handle(s, n + m, now, exchanges, saves) == t.(queue := []);
  }

  // ------------------------------------- navigations that do not carry the code

  const AN_HOUR := 3_600_000

  /** The flow is over: removed, and its outcome stored. */
  lemma Finishes(s: State, outcome: Outcome, now: int, exchanges: bool, saves: bool)
    requires s.running == Some(Removing(outcome))
    ensures Handle(s, 2, now, exchanges, saves) == s.(pending := None, result := Some(outcome), running := None)
  {
    var s1 := RunHandler(s, now, exchanges, saves);
    assert Handle(s1, 1, now, exchanges, saves) == RunHandler(s1, now, exchanges, saves);
  }

  /**
   * A page that is not the redirect ends the flow exactly when it concerns it and
   * the flow is older than an hour; a younger flow stays as it is, but for its
   * trail, and another tab's page leaves it altogether.
   */
  lemma ElsewhereEndsExactlyOldFlows(s: State, now: int, exchanges: bool, saves: bool)
    requires AtRest(s) && s.pending.Some? && s.queue != []
    requires s.queue[0].url.Some? ==> s.queue[0].url.value.redirect == Elsewhere
    ensures var nav, pending := s.queue[0], s.pending.value;
            var rest := s.(queue := s.queue[1..]);
            var trail := if Concerns(nav, pending) then Longer(pending.trail, nav.url.value.step) else pending.trail;
            exists n: nat ::
              Handle(s, n, now, exchanges, saves)
                == if Concerns(nav, pending) && now - pending.startedAt > AN_HOUR
                   then rest.(pending := None, result := Some(Outcome(Failed, now, trail)))
                   else rest.(pending := Some(pending.(trail := trail)))
  {
    hide Longer;
    var nav, pending := s.queue[0], s.pending.value;
    var rest := s.(queue := s.queue[1..]);
    if Concerns(nav, pending) {
      HandledUpToMatching(s, now, exchanges, saves);
      var trailed := pending.(trail := Longer(pending.trail, nav.url.value.step));
      var t := rest.(pending := Some(trailed), running := Some(Matching(nav, trailed)));
      var k: nat :| k <= 3 && Handle(s, k, now, exchanges, saves) == t;
      var t1 := RunHandler(t, now, exchanges, saves);
      assert Handle(t, 1, now, exchanges, saves) == t1;
      HandleMore(s, k, 1, now, exchanges, saves);
      if now - pending.startedAt > AN_HOUR {
        Finishes(t1, Outcome(Failed, now, trailed.trail), now, exchanges, saves);
        HandleMore(s, k + 1, 2, now, exchanges, saves);
      }
    } else {
      var s1 := RunHandler(s, now, exchanges, saves);
      assert RunHandler(s1, now, exchanges, saves) == rest.(pending := Some(pending));
      HandleMore(s, 1, 1, now, exchanges, saves);
      assert Handle(s, 1, now, exchanges, saves) == s1;
      assert Handle(s1, 1, now, exchanges, saves) == rest.(pending := Some(pending));
    }
  }

  /** A redirect with an error, or with the code of another flow, ends the flow it concerns as failed. */
  lemma WrongRedirectFails(s: State, now: int, exchanges: bool, saves: bool)
    requires AtRest(s) && s.pending.Some? && s.queue != [] && Concerns(s.queue[0], s.pending.value)
    requires s.queue[0].url.value.redirect != Elsewhere
    requires s.queue[0].url.value.redirect != CodeRedirect(s.pending.value.state)
    ensures var trail := Longer(s.pending.value.trail, s.queue[0].url.value.step);
            exists n: nat ::
              Handle(s, n, now, exchanges, saves)
                == s.(queue := s.queue[1..], pending := None, result := Some(Outcome(Failed, now, trail)))
  {
    hide Longer;
    var nav, pending := s.queue[0], s.pending.value;
    HandledUpToMatching(s, now, exchanges, saves);
    var trailed := pending.(trail := Longer(pending.trail, nav.url.value.step));
    var t := s.(queue := s.queue[1..], pending := Some(trailed), running := Some(Matching(nav, trailed)));
    var k: nat :| k <= 3 && Handle(s, k, now, exchanges, saves) == t;
    var t1 := RunHandler(t, now, exchanges, saves);
    assert Handle(t, 1, now, exchanges, saves) == t1;
    HandleMore(s, k, 1, now, exchanges, saves);
    Finishes(t1, Outcome(Failed, now, trailed.trail), now, exchanges, saves);
    HandleMore(s, k + 1, 2, now, exchanges, saves);
  }

  /** The pages of a sign-in before its redirect. */
  predicate OnTheWay(navs: seq<Nav>) {
    forall nav :: nav in navs && nav.url.Some? ==> nav.url.value.redirect == Elsewhere
  }

  /** However many pages come first, within the hour the code that ends them is redeemed, once. */
  lemma {:induction false} TheWayLeadsToTheCode(s: State, way: seq<Nav>, code: Nav, now: int, exchanges: bool,
                                                saves: bool)
    requires AtRest(s) && s.pending.Some? && s.queue == way + [code]
    requires OnTheWay(way) && CarriesCode(code, s.pending.value) && now - s.pending.value.startedAt <= AN_HOUR
    ensures exists n: nat ::
              var t := Handle(s, n, now, exchanges, saves);
              && AtRest(t) && t.queue == [] && t.pending.None?
              && t.redeemed == s.redeemed + [s.pending.value.state]
              && t.result.Some? && t.result.value.status == (if exchanges && saves then Complete else Failed)
    decreases |way|
  {
    if way == [] {
      assert s.queue[0] == code && s.queue[1..] == [];
      FirstReportRedeems(s, now, exchanges, saves);
    } else {
      assert s.queue[0] == way[0] && s.queue[1..] == way[1..] + [code] && way[0] in way;
      ElsewhereEndsExactlyOldFlows(s, now, exchanges, saves);
      var pending := s.pending.value;
      var trail := if Concerns(way[0], pending) then Longer(pending.trail, way[0].url.value.step) else pending.trail;
      var s1 := s.(queue := way[1..] + [code], pending := Some(pending.(trail := trail)));
      var n: nat :| Handle(s, n, now, exchanges, saves) == s1;
      TheWayLeadsToTheCode(s1, way[1..], code, now, exchanges, saves);
      var m: nat :| var t := Handle(s1, m, now, exchanges, saves);
                    && AtRest(t) && t.queue == [] && t.pending.None?
                    && t.redeemed == s1.redeemed + [s1.pending.value.state]
                    && t.result.Some? && t.result.value.status == (if exchanges && saves then Complete else Failed);
      HandleMore(s, n, m, now, exchanges, saves);
    }
  }

  // ------------------------------------------------- begin, cancel, closed tabs

  /** The call at `i` runs to its end, nothing happening meanwhile. */
  function CallToEnd(s: State, i: nat, at: int, tabId: Option<nat>): State
    requires i < |s.calls|
  {
    RunCall(RunCall(RunCall(s, i, at, tabId), i, at, tabId), i, at, tabId)
  }

  /** `begin` forgets the last outcome and leaves a flow of its own, with a state never used before. */
  lemma BeginStartsAFlow(s: State, at: int, tabId: Option<nat>)
    ensures CallToEnd(Next(s, Begin), |s.calls|, at, tabId)
         == s.(result := None, issued := s.issued + 1, pending := Some(Pending(s.issued, tabId, [], at)),
               calls := s.calls + [Returned])
  {
  }

  /** `cancel` ends a pending flow, and does nothing without one. */
  lemma CancelEndsTheFlow(s: State, at: int)
    ensures CallToEnd(Next(s, Cancel), |s.calls|, at, None)
         == var ended := s.(calls := s.calls + [Returned]);
            if s.pending.None? then ended
            else ended.(pending := None, result := Some(Outcome(Cancelled, at, s.pending.value.trail)))
  {
  }

  /** Closing the tab of the flow cancels it, and closing any other does not. */
  lemma ClosingItsTabEndsTheFlow(s: State, closed: nat, at: int)
    ensures CallToEnd(Next(s, TabClosed(closed)), |s.calls|, at, None)
         == var ended := s.(calls := s.calls + [Returned]);
            if s.pending.Some? && s.pending.value.tab == Some(closed)
            then ended.(pending := None, result := Some(Outcome(Cancelled, at, s.pending.value.trail)))
            else ended
  {
  }

  // ------------------------------------------------------------ what storage keeps

  /** Whatever the worker was doing when it died: the flow is still there, and the code reported next is redeemed. */
  lemma FlowSurvivesTheWorker(s: State, code: Nav, now: int, exchanges: bool, saves: bool)
    requires s.pending.Some? && CarriesCode(code, s.pending.value)
    ensures var woken := Next(Next(s, WorkerDies), Navigate(code));
            exists n: nat ::
              var t := Handle(woken, n, now, exchanges, saves);
              && AtRest(t) && t.queue == [] && t.pending.None?
              && t.redeemed == s.redeemed + [s.pending.value.state]
              && t.result == Some(Redeemed(s.pending.value, code, now, exchanges, saves))
  {
    var woken := Next(Next(s, WorkerDies), Navigate(code));
    assert woken.queue == [code] && woken.queue[1..] == [];
    FirstReportRedeems(woken, now, exchanges, saves);
  }

  /** With the browser the flow is gone: whatever is reported next changes nothing, and the last outcome stays. */
  lemma RestartForgetsTheFlow(s: State, nav: Nav, now: int, exchanges: bool, saves: bool)
    ensures var started := Next(s, BrowserRestarts);
            && started.pending.None? && started.result == s.result && started.redeemed == s.redeemed
            && exists n: nat :: Handle(Next(started, Navigate(nav)), n, now, exchanges, saves) == started
  {
    var started := Next(s, BrowserRestarts);
    LateReportsDoNothing(Next(started, Navigate(nav)), now, exchanges, saves);
    assert Next(started, Navigate(nav)).(queue := []) == started;
  }
}
