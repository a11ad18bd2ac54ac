/** The coordinator's connection handlers (internal/coordinator/server.go, routing.go): the drain
    registry, the routing table and the presence bracket, for every interleaving of handlers. */
module Server {
  import opened Basics
  import Presence

  type ConnId = nat

  /** How far one handler has come. ServeHTTP: counted in the WaitGroup, accepted, then tracked or
      turned away. serveConn: established, routed, and the deferred calls in reverse. release is
      the registry delete and then the Done. */
  datatype Phase =
    | Counted
    | Accepted
    | Rejected
    | Tracked
    | Established
    | Routed
    | Unrouted
    | LossNoted
    | Unregistered
    | Finished

  datatype Handler = Handler(device: string, phase: Phase)

  datatype State = State(
    handlers: map<ConnId, Handler>,
    wg: int,
    registry: set<ConnId>,
    draining: bool,
    snapshot: Option<set<ConnId>>,
    waited: bool,
    routes: map<string, set<ConnId>>,
    presence: Presence.State)

  datatype Event =
    | Begin(c: ConnId, device: string)
    | Accept(c: ConnId, ok: bool)
    | Track(c: ConnId)
    | Establish(c: ConnId)
    | AddRoute(c: ConnId)
    | HeartbeatOn(c: ConnId)
    | RemoveRoute(c: ConnId)
    | NoteLoss(c: ConnId)
    | Unregister(c: ConnId)
    | Done(c: ConnId)
    | Tick(elapsed: nat)
    | LeaseFires(lease: Presence.LeaseId)
    | Drain
    | TakeSnapshot
    | WaitReturns

  function Initial(presence: Presence.State): State {
    State(map[], 0, {}, false, None, false, map[], presence)
  }

  predicate At(s: State, c: ConnId, phase: Phase) {
    c in s.handlers && s.handlers[c].phase == phase
  }

  function Move(s: State, c: ConnId, phase: Phase): State
    requires c in s.handlers
  {
    s.(handlers := s.handlers[c := s.handlers[c].(phase := phase)])
  }

  function RouteTargets(routes: map<string, set<ConnId>>, device: string): set<ConnId> {
    if device in routes then routes[device] else {}
  }

  function WithRoute(routes: map<string, set<ConnId>>, device: string, c: ConnId): map<string, set<ConnId>> {
    routes[device := RouteTargets(routes, device) + {c}]
  }

  /** An emptied entry is deleted, so a device is in the table exactly while it has a route. */
  function WithoutRoute(routes: map<string, set<ConnId>>, device: string, c: ConnId): map<string, set<ConnId>> {
    if device !in routes then routes
    else if routes[device] - {c} == {} then routes - {device}
    else routes[device := routes[device] - {c}]
  }

  function Step(s: State, e: Event): State {
    match e
    case Begin(c, device) =>
      if c in s.handlers then s
      else s.(handlers := s.handlers[c := Handler(device, Counted)], wg := s.wg + 1)
    case Accept(c, ok) =>
      if !At(s, c, Counted) then s
      else if ok then Move(s, c, Accepted) else Move(s, c, Finished).(wg := s.wg - 1)
    case Track(c) =>
      if !At(s, c, Accepted) then s
      else if s.draining then Move(s, c, Rejected)
      else Move(s, c, Tracked).(registry := s.registry + {c})
    case Establish(c) =>
      if !At(s, c, Tracked) then s
      else Move(s, c, Established).(presence := Presence.ConnectionEstablished(s.presence, s.handlers[c].device))
    case AddRoute(c) =>
      if !At(s, c, Established) then s
      else Move(s, c, Routed).(routes := WithRoute(s.routes, s.handlers[c].device, c))
    case HeartbeatOn(c) =>
      if !At(s, c, Routed) then s
      else s.(presence := Presence.ObserveHeartbeat(s.presence, s.handlers[c].device))
    case RemoveRoute(c) =>
      if !At(s, c, Routed) then s
      else Move(s, c, Unrouted).(routes := WithoutRoute(s.routes, s.handlers[c].device, c))
    case NoteLoss(c) =>
      if !At(s, c, Unrouted) then s
      else Move(s, c, LossNoted).(presence := Presence.ConnectionLost(s.presence, s.handlers[c].device))
    case Unregister(c) =>
      if !At(s, c, LossNoted) && !At(s, c, Rejected) then s
      else Move(s, c, Unregistered).(registry := s.registry - {c})
    case Done(c) =>
      if !At(s, c, Unregistered) then s else Move(s, c, Finished).(wg := s.wg - 1)
    case Tick(d) => s.(presence := Presence.Step(s.presence, Presence.Tick(d)))
    case LeaseFires(id) => s.(presence := Presence.Expire(s.presence, id))
    case Drain => s.(draining := true)
    case TakeSnapshot => if s.draining && s.snapshot.None? then s.(snapshot := Some(s.registry)) else s
    case WaitReturns => if s.snapshot.Some? && s.wg == 0 then s.(waited := true) else s
  }

  function Run(s: State, es: seq<Event>): State {
    if es == [] then s else Step(Run(s, es[..|es| - 1]), es[|es| - 1])
  }

  // ---------------------------------------------------------------------------
  // Which handlers count for what
  // ---------------------------------------------------------------------------

  predicate OwesDone(p: Phase) {
    !p.Finished?
  }

  predicate InRegistry(p: Phase) {
    p.Tracked? || p.Established? || p.Routed? || p.Unrouted? || p.LossNoted?
  }

  predicate HoldsPresence(p: Phase) {
    p.Established? || p.Routed? || p.Unrouted?
  }

  function Owing(s: State): set<ConnId> {
    set c | c in s.handlers && OwesDone(s.handlers[c].phase)
  }

  function Listed(s: State): set<ConnId> {
    set c | c in s.handlers && InRegistry(s.handlers[c].phase)
  }

  function Holding(s: State, d: string): set<ConnId> {
    set c | c in s.handlers && s.handlers[c].device == d && HoldsPresence(s.handlers[c].phase)
  }

  function OnRoute(s: State, d: string): set<ConnId> {
    set c | c in s.handlers && s.handlers[c].device == d && s.handlers[c].phase.Routed?
  }

  function With(xs: set<ConnId>, c: ConnId, member: bool): set<ConnId> {
    if member then xs + {c} else xs - {c}
  }

  /** Moving one handler changes each of these sets by that handler at most. */
  lemma MoveSets(s: State, c: ConnId, p: Phase, d: string)
    requires c in s.handlers
    ensures var s' := Move(s, c, p);
      && Owing(s') == With(Owing(s), c, OwesDone(p))
      && Listed(s') == With(Listed(s), c, InRegistry(p))
      && Holding(s', d) == With(Holding(s, d), c, s.handlers[c].device == d && HoldsPresence(p))
      && OnRoute(s', d) == With(OnRoute(s, d), c, s.handlers[c].device == d && p.Routed?)
  {
  }

  // ---------------------------------------------------------------------------
  // The drain registry
  // ---------------------------------------------------------------------------

  ghost predicate DrainInv(s: State) {
    && s.wg == |Owing(s)|
    && s.registry == Listed(s)
    && (s.snapshot.Some? ==> s.draining && s.registry <= s.snapshot.value)
    && (s.waited ==> s.draining && s.registry == {})
  }

  /** What a handler's move must do for the books to stay right: settle its Done when it
      finishes, and enter the registry only while nobody drains. */
  ghost predicate BooksMove(s: State, s': State, c: ConnId, p: Phase) {
    && c in s.handlers && OwesDone(s.handlers[c].phase)
    && s'.handlers == Move(s, c, p).handlers
    && s'.draining == s.draining && s'.snapshot == s.snapshot && s'.waited == s.waited
    && s'.wg == (if OwesDone(p) then s.wg else s.wg - 1)
    && s'.registry == With(s.registry, c, InRegistry(p))
    && (InRegistry(p) ==> c in s.registry || !s.draining)
  }

  lemma MoveKeepsDrain(s: State, s': State, c: ConnId, p: Phase)
    requires DrainInv(s) && BooksMove(s, s', c, p)
    ensures DrainInv(s')
  {
    MoveSets(s, c, p, "");
    assert Owing(s') == Owing(Move(s, c, p)) && Listed(s') == Listed(Move(s, c, p));
    assert c in Owing(s) && Owing(s) + {c} == Owing(s);
  }

  predicate Moves(e: Event) {
    || e.Accept? || e.Track? || e.Establish? || e.AddRoute? || e.RemoveRoute?
    || e.NoteLoss? || e.Unregister? || e.Done?
  }

  lemma BeginKeepsDrain(s: State, c: ConnId, device: string)
    requires DrainInv(s) && c !in s.handlers
    ensures DrainInv(Step(s, Begin(c, device)))
  {
    var s' := Step(s, Begin(c, device));
    assert Owing(s') == Owing(s) + {c} && Listed(s') == Listed(s);
  }

  lemma StaysWith(xs: set<ConnId>, c: ConnId, member: bool)
    requires c in xs <==> member
    ensures With(xs, c, member) == xs
  {
  }

  /** The bracket's moves touch neither the count nor the registry. */
  lemma BracketMovesBooks(s: State, e: Event)
    requires s.registry == Listed(s) && (e.Establish? || e.AddRoute? || e.RemoveRoute? || e.NoteLoss?)
    requires Step(s, e) != s
    ensures BooksMove(s, Step(s, e), e.c, Step(s, e).handlers[e.c].phase)
  {
    StaysWith(s.registry, e.c, true);
  }

  lemma RegistryMovesBooks(s: State, e: Event)
    requires s.registry == Listed(s) && (e.Accept? || e.Track? || e.Unregister? || e.Done?)
    requires Step(s, e) != s
    ensures BooksMove(s, Step(s, e), e.c, Step(s, e).handlers[e.c].phase)
  {
    var p := Step(s, e).handlers[e.c].phase;
    if e.c !in s.registry && !InRegistry(p) {
      StaysWith(s.registry, e.c, false);
    }
  }

  lemma MovingStepKeepsDrain(s: State, e: Event)
    requires DrainInv(s) && Moves(e)
    ensures DrainInv(Step(s, e))
  {
    var s' := Step(s, e);
    if s' != s {
      if e.Establish? || e.AddRoute? || e.RemoveRoute? || e.NoteLoss? {
        BracketMovesBooks(s, e);
      } else {
        RegistryMovesBooks(s, e);
      }
      MoveKeepsDrain(s, s', e.c, s'.handlers[e.c].phase);
    }
  }

  lemma StepKeepsDrain(s: State, e: Event)
    requires DrainInv(s)
    ensures DrainInv(Step(s, e))
  {
    var s' := Step(s, e);
    if e.Begin? {
      if e.c !in s.handlers { BeginKeepsDrain(s, e.c, e.device); }
    } else if Moves(e) {
      MovingStepKeepsDrain(s, e);
    } else {
      assert Owing(s') == Owing(s) && Listed(s') == Listed(s);
      if e.WaitReturns? && s.wg == 0 {
        assert Listed(s) <= Owing(s) == {};
      }
    }
  }

  lemma {:induction false} RunKeepsDrain(s: State, es: seq<Event>)
    requires DrainInv(s)
    ensures DrainInv(Run(s, es))
  {
    if es != [] {
      RunKeepsDrain(s, es[..|es| - 1]);
      StepKeepsDrain(Run(s, es[..|es| - 1]), es[|es| - 1]);
    }
  }

  /** In every run: the WaitGroup counts exactly the handlers that still owe their Done, so each Add
      has one Done to come and no more; every registered connection is among them; once a drain
      has begun nothing enters the registry, so shutdown's snapshot covers every registered
      handler from then on; and a completed wait means, for good, that the registry is empty. */
  lemma DrainRegistryIsExact(presence: Presence.State, es: seq<Event>)
    ensures var s := Run(Initial(presence), es);
      && s.wg == |Owing(s)|
      && s.registry <= Owing(s)
      && (s.snapshot.Some? ==> s.registry <= s.snapshot.value)
      && (s.waited ==> s.registry == {})
  {
    assert Owing(Initial(presence)) == {} && Listed(Initial(presence)) == {};
    RunKeepsDrain(Initial(presence), es);
    assert Listed(Run(Initial(presence), es)) <= Owing(Run(Initial(presence), es));
  }

  lemma DrainStepShrinks(s: State, e: Event)
    requires s.draining
    ensures Step(s, e).draining && Step(s, e).registry <= s.registry
  {
  }

  /** A drain that has begun is never entered: whatever follows, the registry only shrinks. */
  lemma {:induction false} NothingEntersADrain(s: State, es: seq<Event>)
    requires s.draining
    ensures Run(s, es).draining && Run(s, es).registry <= s.registry
  {
    if es != [] {
      NothingEntersADrain(s, es[..|es| - 1]);
      DrainStepShrinks(Run(s, es[..|es| - 1]), es[|es| - 1]);
    }
  }

  // ---------------------------------------------------------------------------
  // A drain completes
  // ---------------------------------------------------------------------------

  /** What a handler does next, whatever the others do. */
  function NextOf(c: ConnId, phase: Phase): Event {
    match phase
    case Counted => Accept(c, true)
    case Accepted => Track(c)
    case Tracked => Establish(c)
    case Established => AddRoute(c)
    case Routed => RemoveRoute(c)
    case Unrouted => NoteLoss(c)
    case LossNoted => Unregister(c)
    case Rejected => Unregister(c)
    case Unregistered => Done(c)
    case Finished => Done(c)
  }

  function StepsToGo(phase: Phase): nat {
    match phase
    case Counted => 8
    case Accepted => 7
    case Tracked => 6
    case Established => 5
    case Routed => 4
    case Unrouted => 3
    case LossNoted => 2
    case Rejected => 2
    case Unregistered => 1
    case Finished => 0
  }

  function NextPhase(draining: bool, phase: Phase): Phase {
    match phase
    case Counted => Accepted
    case Accepted => if draining then Rejected else Tracked
    case Tracked => Established
    case Established => Routed
    case Routed => Unrouted
    case Unrouted => LossNoted
    case LossNoted => Unregistered
    case Rejected => Unregistered
    case Unregistered => Finished
    case Finished => Finished
  }

  /** The course of ServeHTTP and its deferred calls. */
  predicate Follows(draining: bool, p: Phase, q: Phase) {
    OwesDone(p) && (q == NextPhase(draining, p) || (p.Counted? && q.Finished?))
  }

  /** A handler keeps its device and its course: it is tracked only if nobody drains, turned away only if
      somebody does, and every deferred call comes in its turn. */
  lemma HandlersKeepTheirCourse(s: State, e: Event, c: ConnId)
    requires c in s.handlers
    ensures var h, h' := s.handlers[c], Step(s, e).handlers;
      c in h' && h'[c].device == h.device && (h'[c] == h || Follows(s.draining, h.phase, h'[c].phase))
  {
    if Moves(e) && Step(s, e) != s {
      var q := OneHandlerMoves(s, e);
    }
  }

  lemma OneHandlerMoves(s: State, e: Event) returns (q: Phase)
    requires Moves(e) && Step(s, e) != s
    ensures e.c in s.handlers && Follows(s.draining, s.handlers[e.c].phase, q)
    ensures Step(s, e).handlers == s.handlers[e.c := s.handlers[e.c].(phase := q)]
  {
    q := Step(s, e).handlers[e.c].phase;
  }

  lemma NextMoves(s: State, c: ConnId)
    requires c in s.handlers && OwesDone(s.handlers[c].phase)
    ensures var h := s.handlers[c];
      Step(s, NextOf(c, h.phase)).handlers == s.handlers[c := h.(phase := NextPhase(s.draining, h.phase))]
  {
  }

  lemma {:induction false} RunConcat(s: State, es: seq<Event>, fs: seq<Event>)
    ensures Run(s, es + fs) == Run(Run(s, es), fs)
  {
    if fs == [] {
      assert es + fs == es;
    } else {
      assert (es + fs)[..|es + fs| - 1] == es + fs[..|fs| - 1];
      RunConcat(s, es, fs[..|fs| - 1]);
    }
  }

  /** A handler finishes by itself, within eight steps, whatever state the server is in. */
  lemma {:induction false} HandlerFinishes(s: State, c: ConnId) returns (es: seq<Event>)
    requires c in s.handlers
    ensures |es| <= StepsToGo(s.handlers[c].phase)
    ensures Owing(Run(s, es)) == Owing(s) - {c}
    decreases StepsToGo(s.handlers[c].phase)
  {
    if !OwesDone(s.handlers[c].phase) {
      return [];
    }
    var e := NextOf(c, s.handlers[c].phase);
    NextMoves(s, c);
    var rest := HandlerFinishes(Step(s, e), c);
    es := [e] + rest;
    RunConcat(s, [e], rest);
    assert Run(s, [e]) == Step(s, e);
  }

  lemma {:induction false} AllFinish(s: State) returns (es: seq<Event>)
    ensures Owing(Run(s, es)) == {}
    decreases |Owing(s)|
  {
    if Owing(s) == {} {
      return [];
    }
    var c :| c in Owing(s);
    var first := HandlerFinishes(s, c);
    var rest := AllFinish(Run(s, first));
    es := first + rest;
    RunConcat(s, first, rest);
  }

  /** From every state all handlers can finish, by their own steps. */
  lemma DrainCompletes(s: State, es: seq<Event>) returns (rest: seq<Event>)
    ensures Owing(Run(s, es + rest)) == {}
  {
    rest := AllFinish(Run(s, es));
    RunConcat(s, es, rest);
  }

  /** Shutdown waits for the handlers and for nothing else: in every reachable state its snapshot is the
      registry, and the wait after it returns if and only if every handler has finished. */
  lemma WaitReturnsExactlyWhenAllFinished(presence: Presence.State, es: seq<Event>)
    ensures var s := Run(Initial(presence), es);
      s.snapshot.None? && !s.waited ==>
        var s' := Step(Step(s, Drain), TakeSnapshot);
        s'.draining && s'.snapshot == Some(s.registry) && (Step(s', WaitReturns).waited <==> Owing(s) == {})
  {
    assert Owing(Initial(presence)) == {} && Listed(Initial(presence)) == {};
    RunKeepsDrain(Initial(presence), es);
    var s := Run(Initial(presence), es);
    assert Owing(Step(Step(s, Drain), TakeSnapshot)) == Owing(s);
  }

  // ---------------------------------------------------------------------------
  // The tracker under the handlers
  // ---------------------------------------------------------------------------

  /** What the tracker is told at a step. */
  function Reports(s: State, e: Event): seq<Presence.Event> {
    match e
    case Establish(c) => if At(s, c, Tracked) then [Presence.Established(s.handlers[c].device)] else []
    case HeartbeatOn(c) => if At(s, c, Routed) then [Presence.Heartbeat(s.handlers[c].device)] else []
    case NoteLoss(c) => if At(s, c, Unrouted) then [Presence.Lost(s.handlers[c].device)] else []
    case Tick(d) => [Presence.Tick(d)]
    case LeaseFires(id) => [Presence.LeaseFires(id)]
    case _ => []
  }

  function AllReports(s: State, es: seq<Event>): seq<Presence.Event> {
    if es == [] then []
    else AllReports(s, es[..|es| - 1]) + Reports(Run(s, es[..|es| - 1]), es[|es| - 1])
  }

  /** Under every interleaving of handlers the tracker runs as its own model says, on what it is told: all that
      holds of its runs holds here. */
  lemma {:induction false} TrackerRunsOnReports(s: State, es: seq<Event>)
    ensures Run(s, es).presence == Presence.Run(s.presence, AllReports(s, es))
  {
    if es != [] {
      var init := es[..|es| - 1];
      TrackerRunsOnReports(s, init);
      StepReports(Run(s, init), es[|es| - 1]);
      AfterReports(s.presence, AllReports(s, init), Reports(Run(s, init), es[|es| - 1]));
    }
  }

  lemma StepReports(s: State, e: Event)
    ensures |Reports(s, e)| <= 1
    ensures Step(s, e).presence ==
      if Reports(s, e) == [] then s.presence else Presence.Step(s.presence, Reports(s, e)[0])
  {
  }

  lemma AfterReports(p: Presence.State, past: seq<Presence.Event>, told: seq<Presence.Event>)
    requires |told| <= 1
    ensures Presence.Run(p, past + told) ==
      if told == [] then Presence.Run(p, past) else Presence.Step(Presence.Run(p, past), told[0])
  {
    if told == [] {
      assert past + told == past;
    } else {
      assert (past + told)[..|past|] == past;
    }
  }

  // ---------------------------------------------------------------------------
  // Routing and presence
  // ---------------------------------------------------------------------------

  function ConnsOf(s: State, d: string): nat {
    Presence.DeviceOf(s.presence, d).conns
  }

  ghost predicate DeviceInv(s: State, d: string) {
    && RouteTargets(s.routes, d) == OnRoute(s, d)
    && (d in s.routes ==> s.routes[d] != {})
    && ConnsOf(s, d) == |Holding(s, d)|
    && (Presence.DeviceOf(s.presence, d).online ==> ConnsOf(s, d) >= 1)
  }

  ghost predicate AgreeInv(s: State) {
    !s.presence.closed && forall d: string :: DeviceInv(s, d)
  }

  lemma BeginKeepsAgreement(s: State, c: ConnId, device: string, d: string)
    requires c !in s.handlers && DeviceInv(s, d)
    ensures DeviceInv(Step(s, Begin(c, device)), d)
  {
    var s' := Step(s, Begin(c, device));
    assert OnRoute(s', d) == OnRoute(s, d) && Holding(s', d) == Holding(s, d);
  }

  function One(b: bool): nat {
    if b then 1 else 0
  }

  /** A device's connection count moves by the handler that moved, and by nothing else. */
  lemma HoldingAfterMove(s: State, s': State, c: ConnId, p: Phase, d: string)
    requires c in s.handlers && s'.handlers == Move(s, c, p).handlers
    ensures s.handlers[c].device != d ==> |Holding(s', d)| == |Holding(s, d)|
    ensures s.handlers[c].device == d ==>
      |Holding(s', d)| == |Holding(s, d)| + One(HoldsPresence(p)) - One(HoldsPresence(s.handlers[c].phase))
    ensures s.handlers[c].device == d && HoldsPresence(s.handlers[c].phase) ==> |Holding(s, d)| >= 1
  {
    MoveSets(s, c, p, d);
    assert Holding(s', d) == Holding(Move(s, c, p), d);
    if c in Holding(s, d) {
      assert Holding(s, d) + {c} == Holding(s, d) && |Holding(s, d) - {c}| == |Holding(s, d)| - 1;
    } else {
      assert Holding(s, d) - {c} == Holding(s, d);
    }
  }

  lemma OnRouteAfterMove(s: State, s': State, c: ConnId, p: Phase, d: string)
    requires c in s.handlers && s'.handlers == Move(s, c, p).handlers
    ensures s.handlers[c].device != d || (!p.Routed? && !s.handlers[c].phase.Routed?) ==>
      OnRoute(s', d) == OnRoute(s, d)
    ensures s.handlers[c].device == d ==> OnRoute(s', d) == With(OnRoute(s, d), c, p.Routed?)
  {
    MoveSets(s, c, p, d);
    assert OnRoute(s', d) == OnRoute(Move(s, c, p), d);
    if c !in OnRoute(s, d) {
      assert OnRoute(s, d) - {c} == OnRoute(s, d);
    }
  }

  /** The table after addRoute and removeRoute: one device's targets change, and no entry is empty. */
  lemma RoutesAfter(routes: map<string, set<ConnId>>, device: string, c: ConnId, d: string)
    requires d in routes ==> routes[d] != {}
    ensures var added, removed := WithRoute(routes, device, c), WithoutRoute(routes, device, c);
      && RouteTargets(added, d) == (if d == device then RouteTargets(routes, d) + {c} else RouteTargets(routes, d))
      && RouteTargets(removed, d) == (if d == device then RouteTargets(routes, d) - {c} else RouteTargets(routes, d))
      && (d in added ==> added[d] != {}) && (d in removed ==> removed[d] != {})
  {
  }

  lemma RouteStepKeepsAgreement(s: State, e: Event, d: string)
    requires DeviceInv(s, d)
    requires (e.AddRoute? && At(s, e.c, Established)) || (e.RemoveRoute? && At(s, e.c, Routed))
    ensures DeviceInv(Step(s, e), d)
  {
    var p := if e.AddRoute? then Routed else Unrouted;
    HoldingAfterMove(s, Step(s, e), e.c, p, d);
    OnRouteAfterMove(s, Step(s, e), e.c, p, d);
    RoutesAfter(s.routes, s.handlers[e.c].device, e.c, d);
  }

  lemma BracketStepKeepsAgreement(s: State, e: Event, d: string)
    requires !s.presence.closed && DeviceInv(s, d)
    requires (e.Establish? && At(s, e.c, Tracked)) || (e.NoteLoss? && At(s, e.c, Unrouted))
    ensures DeviceInv(Step(s, e), d)
  {
    var p := if e.Establish? then Established else LossNoted;
    HoldingAfterMove(s, Step(s, e), e.c, p, d);
    OnRouteAfterMove(s, Step(s, e), e.c, p, d);
  }

  /** Before the bracket opens and after it closes, a handler's moves concern no device. */
  lemma OuterMoveKeepsAgreement(s: State, s': State, c: ConnId, p: Phase, d: string)
    requires DeviceInv(s, d) && c in s.handlers && s'.handlers == Move(s, c, p).handlers
    requires !HoldsPresence(s.handlers[c].phase) && !HoldsPresence(p)
    requires s'.routes == s.routes && s'.presence == s.presence
    ensures DeviceInv(s', d)
  {
    HoldingAfterMove(s, s', c, p, d);
    OnRouteAfterMove(s, s', c, p, d);
  }

  lemma MoveKeepsAgreement(s: State, e: Event, d: string)
    requires !s.presence.closed && DeviceInv(s, d) && Moves(e) && Step(s, e) != s
    ensures DeviceInv(Step(s, e), d)
  {
    match e
    case AddRoute(_) => RouteStepKeepsAgreement(s, e, d);
    case RemoveRoute(_) => RouteStepKeepsAgreement(s, e, d);
    case Establish(_) => BracketStepKeepsAgreement(s, e, d);
    case NoteLoss(_) => BracketStepKeepsAgreement(s, e, d);
    case Accept(c, ok) => OuterMoveKeepsAgreement(s, Step(s, e), c, if ok then Accepted else Finished, d);
    case Track(c) => OuterMoveKeepsAgreement(s, Step(s, e), c, if s.draining then Rejected else Tracked, d);
    case Unregister(c) => OuterMoveKeepsAgreement(s, Step(s, e), c, Unregistered, d);
    case Done(c) => OuterMoveKeepsAgreement(s, Step(s, e), c, Finished, d);
  }

  lemma OtherStepKeepsAgreement(s: State, e: Event, d: string)
    requires !s.presence.closed && DeviceInv(s, d) && !Moves(e) && !e.Begin?
    ensures DeviceInv(Step(s, e), d)
  {
    var s' := Step(s, e);
    assert OnRoute(s', d) == OnRoute(s, d) && Holding(s', d) == Holding(s, d);
    if e.HeartbeatOn? && At(s, e.c, Routed) && s.handlers[e.c].device == d {
      assert e.c in Holding(s, d);
    }
  }

  lemma StepKeepsAgreement(s: State, e: Event)
    requires AgreeInv(s)
    ensures AgreeInv(Step(s, e))
  {
    forall d: string ensures DeviceInv(Step(s, e), d) {
      assert DeviceInv(s, d);
      if e.Begin? {
        if e.c !in s.handlers { BeginKeepsAgreement(s, e.c, e.device, d); }
      } else if Moves(e) {
        if Step(s, e) != s { MoveKeepsAgreement(s, e, d); }
      } else {
        OtherStepKeepsAgreement(s, e, d);
      }
    }
  }

  lemma {:induction false} RunKeepsAgreement(s: State, es: seq<Event>)
    requires AgreeInv(s)
    ensures AgreeInv(Run(s, es))
  {
    if es != [] {
      RunKeepsAgreement(s, es[..|es| - 1]);
      StepKeepsAgreement(Run(s, es[..|es| - 1]), es[|es| - 1]);
    }
  }

  lemma InitialAgrees(presence: Presence.State)
    requires Presence.Fresh(presence)
    ensures AgreeInv(Initial(presence))
  {
    forall d: string ensures DeviceInv(Initial(presence), d) {
      assert OnRoute(Initial(presence), d) == {} && Holding(Initial(presence), d) == {};
    }
  }

  /** For every interleaving of overlapping handlers, heartbeats on live connections and late lease
      fires: a device never has more live routes than refcounted connections, being online implies
      a connection, and a device with no connection left is offline and has no route. */
  lemma RoutesAndPresenceAgree(presence: Presence.State, es: seq<Event>, d: string)
    requires Presence.Fresh(presence)
    ensures var s := Run(Initial(presence), es);
      && RouteTargets(s.routes, d) == (set c | c in s.handlers && s.handlers[c] == Handler(d, Routed))
      && |RouteTargets(s.routes, d)| <= ConnsOf(s, d)
      && (Presence.DeviceOf(s.presence, d).online ==> ConnsOf(s, d) >= 1)
      && (ConnsOf(s, d) == 0 ==> !Presence.DeviceOf(s.presence, d).online && d !in s.routes)
  {
    InitialAgrees(presence);
    RunKeepsAgreement(Initial(presence), es);
    var s := Run(Initial(presence), es);
    assert DeviceInv(s, d);
    assert OnRoute(s, d) <= Holding(s, d);
    assert Holding(s, d) == OnRoute(s, d) + (Holding(s, d) - OnRoute(s, d));
  }

  /** Teardown order at work: the loss that takes a device offline finds its routes gone already. */
  lemma OfflineVerdictFindsNoRoute(presence: Presence.State, es: seq<Event>, c: ConnId)
    requires Presence.Fresh(presence) && At(Run(Initial(presence), es), c, Unrouted)
    requires var s := Run(Initial(presence), es);
      var d := s.handlers[c].device;
      && Presence.DeviceOf(s.presence, d).online
      && !Presence.DeviceOf(Step(s, NoteLoss(c)).presence, d).online
    ensures var s := Run(Initial(presence), es);
      s.handlers[c].device !in s.routes
  {
    var s := Run(Initial(presence), es);
    var d := s.handlers[c].device;
    InitialAgrees(presence);
    RunKeepsAgreement(Initial(presence), es);
    assert DeviceInv(s, d);
    var others := Holding(s, d) - {c};
    assert c in Holding(s, d) && |others| == |Holding(s, d)| - 1;
    assert ConnsOf(s, d) == 1;
    assert OnRoute(s, d) <= others == {};
  }

  // ---------------------------------------------------------------------------
  // The server's own fields
  // ---------------------------------------------------------------------------

  class Registry {
    var conns: set<ConnId>
    var draining: bool
    var wg: int
    var routes: map<string, set<ConnId>>
    ghost var state: State

    /** The fields are those of the interleaved model, with its books in order. */
    ghost predicate Valid()
      reads this
    {
      && conns == state.registry && draining == state.draining && wg == state.wg && routes == state.routes
      && DrainInv(state)
    }

    constructor (ghost presence: Presence.State)
      ensures Valid() && state == Initial(presence)
    {
      conns, draining, wg, routes := {}, false, 0, map[];
      state := Initial(presence);
      new;
      assert Owing(state) == {} && Listed(state) == {};
    }

    /** The WaitGroup Add of ServeHTTP, before the upgrade. */
    method Begin(c: ConnId, device: string)
      requires Valid() && c !in state.handlers
      modifies this`wg, this`state
      ensures Valid() && state == Step(old(state), Event.Begin(c, device))
    {
      StepKeepsDrain(state, Event.Begin(c, device));
      state := Step(state, Event.Begin(c, device));
      wg := wg + 1;
    }

    /** Registers an accepted connection, or turns it away once draining. */
    method Track(c: ConnId) returns (ok: bool)
      requires Valid() && At(state, c, Accepted)
      modifies this`conns, this`state
      ensures Valid() && state == Step(old(state), Event.Track(c))
      ensures ok == !draining && At(state, c, if ok then Tracked else Rejected)
    {
      StepKeepsDrain(state, Event.Track(c));
      state := Step(state, Event.Track(c));
      if draining { return false; }
      conns := conns + {c};
      ok := true;
    }

    /** The registry entry and the Done go together, tracked or not. */
    method Release(c: ConnId)
      requires Valid() && (At(state, c, LossNoted) || At(state, c, Rejected))
      modifies this`conns, this`wg, this`state
      ensures Valid() && state == Step(Step(old(state), Unregister(c)), Done(c))
      ensures c !in conns && At(state, c, Finished)
    {
      StepKeepsDrain(state, Unregister(c));
      StepKeepsDrain(Step(state, Unregister(c)), Done(c));
      state := Step(Step(state, Unregister(c)), Done(c));
      conns := conns - {c};
      wg := wg - 1;
    }

    /** shutdown up to its snapshot: refuse first, then list. */
    method BeginShutdown() returns (live: set<ConnId>)
      requires Valid() && state.snapshot.None?
      modifies this`draining, this`state
      ensures Valid() && state == Step(Step(old(state), Drain), TakeSnapshot)
      ensures draining && state.snapshot == Some(live) && live == conns <= Owing(state)
    {
      StepKeepsDrain(state, Drain);
      StepKeepsDrain(Step(state, Drain), TakeSnapshot);
      state := Step(Step(state, Drain), TakeSnapshot);
      draining := true;
      live := conns;
      assert Listed(state) <= Owing(state);
    }

    method AddRoute(device: string, c: ConnId)
      requires Valid() && At(state, c, Established) && state.handlers[c].device == device
      modifies this`routes, this`state
      ensures Valid() && state == Step(old(state), Event.AddRoute(c)) && c in routes[device]
    {
      StepKeepsDrain(state, Event.AddRoute(c));
      state := Step(state, Event.AddRoute(c));
      if device !in routes {
        routes := routes[device := {}];
      }
      routes := routes[device := routes[device] + {c}];
    }

    /** Takes the handler's route off, and the device's entry with the last one. */
    method RemoveRoute(device: string, c: ConnId)
      requires Valid() && At(state, c, Routed) && state.handlers[c].device == device
      modifies this`routes, this`state
      ensures Valid() && state == Step(old(state), Event.RemoveRoute(c))
      ensures device in routes ==> routes[device] != {} && c !in routes[device]
    {
      StepKeepsDrain(state, Event.RemoveRoute(c));
      state := Step(state, Event.RemoveRoute(c));
      if device !in routes { return; }
      routes := routes[device := routes[device] - {c}];
      if routes[device] == {} {
        routes := routes - {device};
      }
    }
  }
}
