/** The connection state machine and its subscriptions (internal/control/state.go): one gate for
    transitions, and per subscriber an unbounded queue drained by a pump into a bounded channel. */
module Connection {
  import opened Basics
  import opened Envelopes
  import opened ConnStates

  datatype Change = Change(from: ConnState, to: ConnState, reason: string, at: Instant)

  const BUFFER: nat := 16

  type SubId = nat

  /** Where a pump goroutine stands: about to take the queue, pushing what it took, waiting for a
      signal, or returned (which closes the consumer's channel). */
  datatype Pump = Grab | Pushing | Waiting | Returned

  /** The once-guarded close, and which side won it. */
  datatype Done = Running | ByConsumer | ByMachine

  /** One subscription. It joined when `start` changes had happened and has been handed the changes
      up to `upto`; they sit, oldest first, in consumed, buffer, taken and pend. */
  datatype Sub = Sub(
    start: nat,
    upto: nat,
    consumed: seq<Change>,
    buffer: seq<Change>,
    taken: seq<Change>,
    pend: seq<Change>,
    sig: bool,
    pump: Pump,
    done: Done)

  /** Transition's fan-out under m.mu: subscribers still to be served, and the one whose queue was
      extended but whose signal is not sent yet. */
  datatype FanOut = FanOut(change: Change, todo: set<SubId>, signalling: Option<SubId>)

  datatype State = State(
    cur: ConnState,
    closed: bool,
    path: seq<Change>,
    fan: Option<FanOut>,
    active: set<SubId>,
    leaving: set<SubId>,
    flushing: set<SubId>,
    subs: map<SubId, Sub>)

  datatype Event =
    | Transition(to: ConnState, reason: string, at: Instant)
    | FanAppend(id: SubId)
    | FanSignal
    | FanEnd
    | Subscribe(id: SubId)
    | Unsubscribe(id: SubId)
    | FinishUnsubscribe(id: SubId)
    | CloseMachine
    | FinishFlush(id: SubId)
    | PumpGrab(id: SubId)
    | PumpPush(id: SubId)
    | PumpWait(id: SubId)
    | PumpSignalled(id: SubId)
    | PumpSeesDone(id: SubId)
    | Consume(id: SubId)

  const INITIAL: State := State(Disconnected, false, [], None, {}, {}, {}, map[])

  // ---------------------------------------------------------------------------
  // Steps of one subscription
  // ---------------------------------------------------------------------------

  function SubStep(sub: Sub, e: Event): Sub {
    match e
    case PumpGrab(_) =>
      if sub.pump.Grab? then sub.(taken := sub.pend, pend := [], pump := Pushing) else sub
    case PumpPush(_) =>
      if sub.pump.Pushing? && sub.taken != [] && |sub.buffer| < BUFFER
      then sub.(buffer := sub.buffer + [sub.taken[0]], taken := sub.taken[1..]) else sub
    case PumpWait(_) => if sub.pump.Pushing? && sub.taken == [] then sub.(pump := Waiting) else sub
    case PumpSignalled(_) =>
      if sub.pump.Waiting? && sub.sig then sub.(sig := false, pump := Grab) else sub
    case PumpSeesDone(_) =>
      // While pushing, a machine close keeps pushing; while waiting, it looks at the queue again.
      if sub.done.ByConsumer? && (sub.pump.Waiting? || (sub.pump.Pushing? && sub.taken != []))
      then sub.(pump := Returned)
      else if sub.done.ByMachine? && sub.pump.Waiting?
      then sub.(pump := if sub.pend == [] then Returned else Grab)
      else sub
    case Consume(_) =>
      if sub.buffer != [] then sub.(consumed := sub.consumed + [sub.buffer[0]], buffer := sub.buffer[1..]) else sub
    case _ => sub
  }

  function NewSub(joinedAt: nat, closed: bool): Sub {
    Sub(joinedAt, joinedAt, [], [], [], [], false, if closed then Returned else Grab,
        if closed then ByMachine else Running)
  }

  // ---------------------------------------------------------------------------
  // Steps of the machine
  // ---------------------------------------------------------------------------

  function WithSub(s: State, id: SubId, sub: Sub): State {
    s.(subs := s.subs[id := sub])
  }

  /** An illegal edge panics before anything changes; here it is a step that changes nothing. */
  function Step(s: State, e: Event): State {
    match e
    case Transition(to, reason, at) =>
      if s.fan.None? && !s.closed && Legal(s.cur, to) then
        var ch := Change(s.cur, to, reason, at);
        s.(cur := to, path := s.path + [ch], fan := Some(FanOut(ch, s.active, None)))
      else s
    case FanAppend(id) =>
      if s.fan.Some? && s.fan.value.signalling.None? && id in s.fan.value.todo && id in s.subs then
        var f := s.fan.value;
        WithSub(s, id, s.subs[id].(pend := s.subs[id].pend + [f.change], upto := s.subs[id].upto + 1))
          .(fan := Some(FanOut(f.change, f.todo - {id}, Some(id))))
      else s
    case FanSignal =>
      if s.fan.Some? && s.fan.value.signalling.Some? && s.fan.value.signalling.value in s.subs then
        var id := s.fan.value.signalling.value;
        WithSub(s, id, s.subs[id].(sig := true)).(fan := Some(s.fan.value.(signalling := None)))
      else s
    case FanEnd =>
      if s.fan.Some? && s.fan.value.todo == {} && s.fan.value.signalling.None? then s.(fan := None) else s
    case Subscribe(id) =>
      if s.fan.None? && id !in s.subs then
        WithSub(s, id, NewSub(|s.path|, s.closed)).(active := if s.closed then s.active else s.active + {id})
      else s
    case Unsubscribe(id) =>
      if s.fan.None? && id in s.active
      then s.(active := s.active - {id}, leaving := s.leaving + {id}) else s
    case FinishUnsubscribe(id) =>
      if id in s.leaving && id in s.subs
      then WithSub(s, id, s.subs[id].(done := ByConsumer)).(leaving := s.leaving - {id}) else s
    case CloseMachine =>
      if s.fan.None? && !s.closed then s.(closed := true, flushing := s.active, active := {}) else s
    case FinishFlush(id) =>
      if id in s.flushing && id in s.subs
      then WithSub(s, id, s.subs[id].(done := ByMachine)).(flushing := s.flushing - {id}) else s
    case PumpGrab(id) => if id in s.subs then WithSub(s, id, SubStep(s.subs[id], e)) else s
    case PumpPush(id) => if id in s.subs then WithSub(s, id, SubStep(s.subs[id], e)) else s
    case PumpWait(id) => if id in s.subs then WithSub(s, id, SubStep(s.subs[id], e)) else s
    case PumpSignalled(id) => if id in s.subs then WithSub(s, id, SubStep(s.subs[id], e)) else s
    case PumpSeesDone(id) => if id in s.subs then WithSub(s, id, SubStep(s.subs[id], e)) else s
    case Consume(id) => if id in s.subs then WithSub(s, id, SubStep(s.subs[id], e)) else s
  }

  function Run(es: seq<Event>): State {
    if es == [] then INITIAL else Step(Run(es[..|es| - 1]), es[|es| - 1])
  }

  // ---------------------------------------------------------------------------
  // Invariants
  // ---------------------------------------------------------------------------

  function EndsAt(path: seq<Change>): ConnState {
    if path == [] then Disconnected else path[|path| - 1].to
  }

  /** Every change is a legal edge and starts where the one before it ended. */
  ghost predicate LegalPath(path: seq<Change>) {
    forall i | 0 <= i < |path| :: Legal(path[i].from, path[i].to) && path[i].from == EndsAt(path[..i])
  }

  /** Everything handed to the subscription, oldest first, wherever it sits. */
  function Story(sub: Sub): seq<Change> {
    sub.consumed + sub.buffer + sub.taken + sub.pend
  }

  ghost predicate StoryOk(path: seq<Change>, sub: Sub) {
    sub.start <= sub.upto <= |path| && Story(sub) == path[sub.start..sub.upto]
  }

  ghost predicate PumpOk(sub: Sub) {
    && |sub.buffer| <= BUFFER
    && (!sub.pump.Pushing? && !sub.pump.Returned? ==> sub.taken == [])
    && (sub.pump.Returned? ==> !sub.done.Running?)
    && (sub.pump.Returned? && sub.done.ByMachine? ==> sub.taken == [] && sub.pend == [])
  }

  /** How the machine holds a subscription at one moment. */
  datatype Standing = Standing(active: bool, todo: bool, signalling: bool, leaving: bool, flushing: bool)

  function StandingOf(s: State, id: SubId): Standing {
    Standing(id in s.active, s.fan.Some? && id in s.fan.value.todo,
             s.fan.Some? && s.fan.value.signalling == Some(id), id in s.leaving, id in s.flushing)
  }

  /** An active subscriber lags the path by the change being fanned out to it, and by nothing else;
      one that the machine closed missed nothing; a pump that is not about to look at its queue has a
      signal waiting, or about to be sent, whenever the queue holds something. */
  ghost predicate HeldOk(total: nat, closed: bool, h: Standing, sub: Sub) {
    && (h.active ==> sub.upto == if h.todo then total - 1 else total)
    && (h.flushing || sub.done.ByMachine? ==> closed && sub.upto == total)
    && (h.active || h.leaving || h.flushing ==> sub.done.Running?)
    && ((sub.pump.Waiting? || sub.pump.Pushing?) && sub.pend != [] ==> sub.sig || h.signalling)
  }

  ghost predicate Membership(s: State) {
    && s.active !! s.leaving && s.active !! s.flushing && s.leaving !! s.flushing
    && s.active + s.leaving + s.flushing <= s.subs.Keys
    && (s.closed ==> s.active == {} && s.fan.None?)
    && (s.fan.Some? ==>
          && s.fan.value.todo <= s.active && s.path != [] && s.path[|s.path| - 1] == s.fan.value.change
          && (s.fan.value.signalling.Some? ==>
                s.fan.value.signalling.value in s.active && s.fan.value.signalling.value !in s.fan.value.todo))
  }

  ghost predicate Stories(s: State) {
    forall id | id in s.subs :: StoryOk(s.path, s.subs[id])
  }

  ghost predicate Held(s: State) {
    forall id | id in s.subs ::
      PumpOk(s.subs[id]) && HeldOk(|s.path|, s.closed, StandingOf(s, id), s.subs[id])
  }

  ghost predicate Inv(s: State) {
    LegalPath(s.path) && s.cur == EndsAt(s.path) && Membership(s) && Stories(s) && Held(s)
  }

  // ---------------------------------------------------------------------------
  // What each step keeps
  // ---------------------------------------------------------------------------

  predicate OfPump(e: Event) {
    e.PumpGrab? || e.PumpPush? || e.PumpWait? || e.PumpSignalled? || e.PumpSeesDone? || e.Consume?
  }

  lemma LongerPathIsLegal(path: seq<Change>, ch: Change)
    requires LegalPath(path) && Legal(ch.from, ch.to) && ch.from == EndsAt(path)
    ensures LegalPath(path + [ch]) && EndsAt(path + [ch]) == ch.to
  {
    var longer := path + [ch];
    assert longer[..|path|] == path;
    forall i | 0 <= i < |longer| ensures Legal(longer[i].from, longer[i].to) && longer[i].from == EndsAt(longer[..i]) {
      if i < |path| {
        assert longer[i] == path[i] && longer[..i] == path[..i];
      }
    }
  }

  /** Only a legal transition writes the machine's state or its history. */
  lemma StepOnPath(s: State, e: Event)
    ensures var s' := Step(s, e);
      || (s'.path == s.path && s'.cur == s.cur)
      || (e.Transition? && Legal(s.cur, e.to) && s'.cur == e.to &&
          s'.path == s.path + [Change(s.cur, e.to, e.reason, e.at)])
  {
  }

  lemma StepKeepsPath(s: State, e: Event)
    requires LegalPath(s.path) && s.cur == EndsAt(s.path)
    ensures LegalPath(Step(s, e).path) && Step(s, e).cur == EndsAt(Step(s, e).path)
    ensures s.path <= Step(s, e).path
  {
    StepOnPath(s, e);
    if e.Transition? && Legal(s.cur, e.to) {
      LongerPathIsLegal(s.path, Change(s.cur, e.to, e.reason, e.at));
    }
  }

  lemma StepKeepsMembership(s: State, e: Event)
    requires Membership(s)
    ensures Membership(Step(s, e))
  {
  }

  lemma MoveHead(a: seq<Change>, b: seq<Change>, c: seq<Change>)
    requires b != []
    ensures a + [b[0]] + b[1..] + c == a + b + c
  {
    assert b == [b[0]] + b[1..];
  }

  lemma MoveInner(a: seq<Change>, b: seq<Change>, c: seq<Change>, d: seq<Change>)
    requires c != []
    ensures a + (b + [c[0]]) + c[1..] + d == a + b + c + d
  {
    assert c == [c[0]] + c[1..];
  }

  /** Moving a change along never drops or reorders one. */
  lemma PumpKeepsStory(path: seq<Change>, sub: Sub, e: Event)
    requires StoryOk(path, sub) && PumpOk(sub)
    ensures StoryOk(path, SubStep(sub, e))
  {
    var sub' := SubStep(sub, e);
    assert Story(sub') == Story(sub) by {
      if e.PumpPush? && sub' != sub {
        MoveInner(sub.consumed, sub.buffer, sub.taken, sub.pend);
      } else if e.Consume? && sub' != sub {
        MoveHead(sub.consumed, sub.buffer, sub.taken);
      }
    }
  }

  /** A fanned-out change goes to the end of the subscriber's story. */
  lemma AppendKeepsStory(path: seq<Change>, sub: Sub)
    requires StoryOk(path, sub) && sub.upto == |path| - 1
    ensures StoryOk(path, sub.(pend := sub.pend + [path[|path| - 1]], upto := sub.upto + 1))
  {
    var ch := path[|path| - 1];
    assert path[sub.start..|path|] == path[sub.start..|path| - 1] + [ch];
    assert Story(sub.(pend := sub.pend + [ch], upto := sub.upto + 1)) == Story(sub) + [ch];
  }

  lemma LongerPathKeepsStory(path: seq<Change>, path': seq<Change>, sub: Sub)
    requires StoryOk(path, sub) && path <= path'
    ensures StoryOk(path', sub)
  {
    assert path'[sub.start..sub.upto] == path[sub.start..sub.upto];
  }

  /** Everything a step can do to a subscription that exists already. */
  ghost predicate Moved(sub: Sub, sub': Sub, e: Event, last: Option<Change>) {
    || sub' == sub
    || (OfPump(e) && sub' == SubStep(sub, e))
    || (last.Some? && sub' == sub.(pend := sub.pend + [last.value], upto := sub.upto + 1))
    || sub' == sub.(sig := true)
    || sub' == sub.(done := ByConsumer)
    || sub' == sub.(done := ByMachine)
  }

  function FannedTo(s: State, id: SubId): Option<Change> {
    if s.fan.Some? && id in s.fan.value.todo then Some(s.fan.value.change) else None
  }

  lemma SubMoves(s: State, e: Event, id: SubId)
    requires id in s.subs
    ensures id in Step(s, e).subs && Moved(s.subs[id], Step(s, e).subs[id], e, FannedTo(s, id))
  {
  }

  lemma MovedKeepsStory(path: seq<Change>, path': seq<Change>, sub: Sub, sub': Sub, e: Event, last: Option<Change>)
    requires StoryOk(path, sub) && PumpOk(sub) && path <= path' && Moved(sub, sub', e, last)
    requires last.Some? ==> path != [] && last.value == path[|path| - 1] && sub.upto == |path| - 1
    ensures StoryOk(path', sub')
  {
    if OfPump(e) && sub' == SubStep(sub, e) {
      PumpKeepsStory(path, sub, e);
    } else if last.Some? && sub'.upto == sub.upto + 1 {
      AppendKeepsStory(path, sub);
    } else {
      assert Story(sub') == Story(sub);
    }
    LongerPathKeepsStory(path, path', sub');
  }

  lemma NewStory(s: State, e: Event, id: SubId)
    requires id !in s.subs && id in Step(s, e).subs
    ensures StoryOk(Step(s, e).path, Step(s, e).subs[id])
  {
    var s' := Step(s, e);
    assert s'.subs[id] == NewSub(|s'.path|, s'.closed);
    assert Story(s'.subs[id]) == [];
  }

  lemma StepKeepsStories(s: State, e: Event)
    requires Inv(s)
    ensures Stories(Step(s, e))
  {
    var s' := Step(s, e);
    StepKeepsPath(s, e);
    forall id | id in s'.subs ensures StoryOk(s'.path, s'.subs[id]) {
      if id in s.subs {
        StoryAfterStep(s, e, id);
      } else {
        NewStory(s, e, id);
      }
    }
  }

  lemma StoryAfterStep(s: State, e: Event, id: SubId)
    requires Membership(s) && id in s.subs && s.path <= Step(s, e).path
    requires StoryOk(s.path, s.subs[id]) && PumpOk(s.subs[id])
    requires HeldOk(|s.path|, s.closed, StandingOf(s, id), s.subs[id])
    ensures id in Step(s, e).subs && StoryOk(Step(s, e).path, Step(s, e).subs[id])
  {
    SubMoves(s, e, id);
    MovedKeepsStory(s.path, Step(s, e).path, s.subs[id], Step(s, e).subs[id], e, FannedTo(s, id));
  }

  lemma PumpKeepsHeld(total: nat, closed: bool, h: Standing, sub: Sub, e: Event)
    requires PumpOk(sub) && HeldOk(total, closed, h, sub)
    ensures PumpOk(SubStep(sub, e)) && HeldOk(total, closed, h, SubStep(sub, e))
  {
  }

  ghost predicate HeldIn(s: State, id: SubId) {
    && id in s.subs
    && PumpOk(s.subs[id]) && HeldOk(|s.path|, s.closed, StandingOf(s, id), s.subs[id])
  }

  lemma FanKeepsHeld(s: State, e: Event, id: SubId)
    requires Membership(s) && HeldIn(s, id) && (e.Transition? || e.FanAppend? || e.FanSignal? || e.FanEnd?)
    ensures HeldIn(Step(s, e), id)
  {
  }

  lemma MembershipKeepsHeld(s: State, e: Event, id: SubId)
    requires Membership(s) && HeldIn(s, id)
    requires !OfPump(e) && !e.Transition? && !e.FanAppend? && !e.FanSignal? && !e.FanEnd?
    ensures HeldIn(Step(s, e), id)
  {
  }

  lemma HeldAfterStep(s: State, e: Event, id: SubId)
    requires Membership(s) && HeldIn(s, id)
    ensures HeldIn(Step(s, e), id)
  {
    if OfPump(e) {
      assert StandingOf(Step(s, e), id) == StandingOf(s, id);
      PumpKeepsHeld(|s.path|, s.closed, StandingOf(s, id), s.subs[id], e);
    } else if e.Transition? || e.FanAppend? || e.FanSignal? || e.FanEnd? {
      FanKeepsHeld(s, e, id);
    } else {
      MembershipKeepsHeld(s, e, id);
    }
  }

  lemma StepKeepsHeld(s: State, e: Event)
    requires Membership(s) && Held(s)
    ensures Held(Step(s, e))
  {
    var s' := Step(s, e);
    forall id | id in s'.subs
      ensures PumpOk(s'.subs[id]) && HeldOk(|s'.path|, s'.closed, StandingOf(s', id), s'.subs[id])
    {
      if id in s.subs {
        HeldAfterStep(s, e, id);
      }
    }
  }

  lemma StepKeepsInv(s: State, e: Event)
    requires Inv(s)
    ensures Inv(Step(s, e))
  {
    StepKeepsPath(s, e);
    StepKeepsMembership(s, e);
    StepKeepsStories(s, e);
    StepKeepsHeld(s, e);
  }

  lemma {:induction false} RunKeepsInv(es: seq<Event>)
    ensures Inv(Run(es))
  {
    if es != [] {
      RunKeepsInv(es[..|es| - 1]);
      StepKeepsInv(Run(es[..|es| - 1]), es[|es| - 1]);
    }
  }

  // ---------------------------------------------------------------------------
  // Subscribers cannot miss a change
  // ---------------------------------------------------------------------------

  /** In every run, what a subscription has been handed is exactly the machine's changes since it
      joined, in order and without a gap; they form a connected legal path; and outside a fan-out
      an active subscription is fully up to date. */
  lemma NothingDroppedOrReordered(es: seq<Event>, id: SubId)
    requires id in Run(es).subs
    ensures var s := Run(es);
      var sub := s.subs[id];
      && sub.start <= sub.upto <= |s.path|
      && sub.consumed + sub.buffer + sub.taken + sub.pend == s.path[sub.start..sub.upto]
      && (id in s.active && s.fan.None? ==> sub.upto == |s.path|)
      && LegalPath(s.path) && s.cur == EndsAt(s.path)
  {
    RunKeepsInv(es);
    assert HeldIn(Run(es), id);
    assert StoryOk(Run(es).path, Run(es).subs[id]);
  }

  /** A stream ended by the machine's close ends complete: everything since Subscribe was pushed. */
  lemma MachineCloseFlushesEverything(es: seq<Event>, id: SubId)
    requires id in Run(es).subs && Run(es).subs[id].pump.Returned? && Run(es).subs[id].done.ByMachine?
    ensures var s := Run(es);
      var sub := s.subs[id];
      s.closed && sub.start <= |s.path| && sub.consumed + sub.buffer == s.path[sub.start..]
  {
    RunKeepsInv(es);
    var s := Run(es);
    assert HeldIn(s, id);
    CompleteWhenDrained(s.path, s.subs[id]);
  }

  lemma CompleteWhenDrained(path: seq<Change>, sub: Sub)
    requires StoryOk(path, sub) && sub.taken == [] && sub.pend == [] && sub.upto == |path|
    ensures sub.consumed + sub.buffer == path[sub.start..]
  {
    assert Story(sub) == sub.consumed + sub.buffer;
  }

  lemma SeenIsAPrefix(path: seq<Change>, sub: Sub)
    requires StoryOk(path, sub)
    ensures sub.consumed + sub.buffer <= path[sub.start..]
  {
    var seen, rest := sub.consumed + sub.buffer, sub.taken + sub.pend;
    assert Story(sub) == seen + rest;
    assert path[sub.start..] == path[sub.start..sub.upto] + path[sub.upto..];
  }

  /** Whoever closes, and whenever, the consumer has seen a prefix of the changes since it joined. */
  lemma ConsumerSeesAPrefix(es: seq<Event>, id: SubId)
    requires id in Run(es).subs
    ensures var s := Run(es);
      var sub := s.subs[id];
      sub.start <= |s.path| && sub.consumed + sub.buffer <= s.path[sub.start..]
  {
    RunKeepsInv(es);
    SeenIsAPrefix(Run(es).path, Run(es).subs[id]);
  }

  /** No lost signal: a pump parked on its signal while its queue holds something is woken, or is
      about to be by the fan-out that filled the queue. */
  lemma PumpIsWoken(es: seq<Event>, id: SubId)
    requires id in Run(es).subs && Run(es).subs[id].pump.Waiting? && Run(es).subs[id].pend != []
    ensures Run(es).subs[id].sig || (Run(es).fan.Some? && Run(es).fan.value.signalling == Some(id))
  {
    RunKeepsInv(es);
    assert HeldIn(Run(es), id);
  }

  // ---------------------------------------------------------------------------
  // The pump delivers everything
  // ---------------------------------------------------------------------------

  /** What a subscription does by itself: its pump, and a consumer that keeps receiving. */
  predicate Own(e: Event, id: SubId) {
    e == PumpGrab(id) || e == PumpPush(id) || e == PumpWait(id) || e == PumpSignalled(id)
    || e == PumpSeesDone(id) || e == Consume(id)
  }

  function PumpRank(sub: Sub): nat {
    match sub.pump
    case Returned => 0
    case Grab => if sub.pend == [] then 5 else 11
    case Pushing => if sub.pend == [] then 4 else 13
    case Waiting => if sub.pend == [] then 3 else 12
  }

  function StepsLeft(sub: Sub): nat {
    3 * |sub.pend| + 2 * |sub.taken| + |sub.buffer| + (if sub.sig then 4 else 0) + PumpRank(sub)
  }

  lemma OwnStepsCountDown(sub: Sub, e: Event, id: SubId)
    requires Own(e, id) && SubStep(sub, e) != sub
    ensures StepsLeft(SubStep(sub, e)) < StepsLeft(sub)
  {
  }

  ghost predicate OwnRun(s: State, id: SubId, es: seq<Event>) {
    es == [] ||
    (OwnRun(s, id, es[..|es| - 1]) && Own(es[|es| - 1], id)
     && Step(After(s, es[..|es| - 1]), es[|es| - 1]) != After(s, es[..|es| - 1]))
  }

  function After(s: State, es: seq<Event>): State {
    if es == [] then s else Step(After(s, es[..|es| - 1]), es[|es| - 1])
  }

  lemma OwnStepIsSubStep(s: State, e: Event, id: SubId)
    requires id in s.subs && Own(e, id)
    ensures Step(s, e) == WithSub(s, id, SubStep(s.subs[id], e))
    ensures Step(s, e) != s ==> SubStep(s.subs[id], e) != s.subs[id]
  {
    if SubStep(s.subs[id], e) == s.subs[id] {
      assert s.subs[id := s.subs[id]] == s.subs;
    }
  }

  lemma OneOwnStep(s: State, e: Event, id: SubId)
    requires id in s.subs && Own(e, id) && Step(s, e) != s
    ensures id in Step(s, e).subs && StepsLeft(Step(s, e).subs[id]) < StepsLeft(s.subs[id])
  {
    OwnStepIsSubStep(s, e, id);
    OwnStepsCountDown(s.subs[id], e, id);
  }

  lemma {:induction false} OwnRunsEnd(s: State, id: SubId, es: seq<Event>)
    requires Inv(s) && id in s.subs && OwnRun(s, id, es)
    ensures Inv(After(s, es)) && id in After(s, es).subs
    ensures StepsLeft(After(s, es).subs[id]) + |es| <= StepsLeft(s.subs[id])
  {
    if es != [] {
      var mid := After(s, es[..|es| - 1]);
      OwnRunsEnd(s, id, es[..|es| - 1]);
      StepKeepsInv(mid, es[|es| - 1]);
      OneOwnStep(mid, es[|es| - 1], id);
    }
  }

  ghost predicate AtRest(sub: Sub, id: SubId) {
    forall e | Own(e, id) :: SubStep(sub, e) == sub
  }

  lemma RestIsEmpty(sub: Sub, id: SubId)
    requires PumpOk(sub) && AtRest(sub, id)
    ensures sub.buffer == []
    ensures sub.pump.Returned? || (sub.pump.Waiting? && !sub.sig && sub.done.Running? && sub.taken == [])
  {
    assert SubStep(sub, Consume(id)) == sub && SubStep(sub, PumpGrab(id)) == sub && SubStep(sub, PumpPush(id)) == sub
      && SubStep(sub, PumpWait(id)) == sub && SubStep(sub, PumpSignalled(id)) == sub
      && SubStep(sub, PumpSeesDone(id)) == sub;
    ReceivingMoves(sub, id);
  }

  lemma ReceivingMoves(sub: Sub, id: SubId)
    ensures sub.buffer != [] ==> |SubStep(sub, Consume(id)).buffer| < |sub.buffer|
    ensures sub.buffer == [] && sub.pump.Pushing? && sub.taken != [] ==>
      |SubStep(sub, PumpPush(id)).taken| < |sub.taken|
  {
  }

  /** From every reachable state a subscription's own steps end, after no more than StepsLeft of them. Where they
      have ended outside a fan-out, a subscription that nobody closed has consumed every change since it
      joined, and so has one that the machine's close ended. */
  lemma PumpDeliversEverything(before: seq<Event>, id: SubId, own: seq<Event>)
    requires id in Run(before).subs && OwnRun(Run(before), id, own)
    ensures |own| <= StepsLeft(Run(before).subs[id])
    ensures var s' := After(Run(before), own);
      && id in s'.subs
      && (AtRest(s'.subs[id], id) && s'.fan.None? ==>
            (id in s'.active || s'.subs[id].done.ByMachine? ==>
               s'.subs[id].start <= |s'.path| && s'.subs[id].consumed == s'.path[s'.subs[id].start..]))
  {
    RunKeepsInv(before);
    OwnRunsEnd(Run(before), id, own);
    var s' := After(Run(before), own);
    if AtRest(s'.subs[id], id) && s'.fan.None? && (id in s'.active || s'.subs[id].done.ByMachine?) {
      assert HeldIn(s', id) && StoryOk(s'.path, s'.subs[id]);
      RestIsEmpty(s'.subs[id], id);
      CompleteWhenDrained(s'.path, s'.subs[id]);
      assert s'.subs[id].consumed + [] == s'.subs[id].consumed;
    }
  }

  // ---------------------------------------------------------------------------
  // The life of a subscription
  // ---------------------------------------------------------------------------

  lemma RunOneMore(es: seq<Event>, e: Event)
    ensures Run(es + [e]) == Step(Run(es), e)
  {
    assert (es + [e])[..|es|] == es;
  }

  /** Subscribed when n changes had happened, and still so. */
  predicate Member(s: State, id: SubId, n: nat) {
    !s.closed && id in s.active && id in s.subs && s.subs[id].start == n && s.subs[id].done.Running?
  }

  lemma MemberStays(s: State, e: Event, id: SubId, n: nat)
    requires Membership(s) && Member(s, id, n) && e != Unsubscribe(id) && !e.CloseMachine?
    ensures Member(Step(s, e), id, n)
  {
    SubMoves(s, e, id);
  }

  lemma MemberOneMore(es: seq<Event>, e: Event, id: SubId, n: nat)
    requires Member(Run(es), id, n) && e != Unsubscribe(id) && !e.CloseMachine?
    ensures Member(Run(es + [e]), id, n)
  {
    RunKeepsInv(es);
    RunOneMore(es, e);
    MemberStays(Run(es), e, id, n);
  }

  lemma {:induction false} MemberWhile(es: seq<Event>, during: seq<Event>, id: SubId, n: nat)
    requires Member(Run(es), id, n)
    requires forall e | e in during :: e != Unsubscribe(id) && !e.CloseMachine?
    ensures Member(Run(es + during), id, n)
  {
    if during == [] {
      assert es + during == es;
    } else {
      var init, e := during[..|during| - 1], during[|during| - 1];
      assert e in during && forall x | x in init :: x in during;
      MemberWhile(es, init, id, n);
      assert es + during == es + init + [e];
      MemberOneMore(es + init, e, id, n);
    }
  }

  lemma Joins(before: seq<Event>, id: SubId)
    requires Run(before).fan.None? && id !in Run(before).subs && !Run(before).closed
    ensures Member(Run(before + [Subscribe(id)]), id, |Run(before).path|)
  {
    RunOneMore(before, Subscribe(id));
  }

  /** Subscribing to a closed machine gives a closed, empty channel. */
  lemma SubscribeAfterClose(before: seq<Event>, id: SubId)
    requires Run(before).fan.None? && id !in Run(before).subs && Run(before).closed
    ensures var s := Run(before + [Subscribe(id)]);
      && id in s.subs && id !in s.active
      && s.subs[id].pump.Returned? && Story(s.subs[id]) == []
  {
    RunOneMore(before, Subscribe(id));
    RunKeepsInv(before);
  }

  /** Being ended by the machine's close, or so ended. */
  predicate Flushed(s: State, id: SubId, n: nat, path: seq<Change>) {
    && s.closed && s.path == path && id in s.subs && s.subs[id].start == n
    && id !in s.leaving && (id in s.flushing || s.subs[id].done.ByMachine?)
  }

  lemma FlushedStays(s: State, e: Event, id: SubId, n: nat, path: seq<Change>)
    requires Membership(s) && Flushed(s, id, n, path)
    ensures Flushed(Step(s, e), id, n, path)
  {
    SubMoves(s, e, id);
  }

  lemma FlushedOneMore(es: seq<Event>, e: Event, id: SubId, n: nat, path: seq<Change>)
    requires Flushed(Run(es), id, n, path)
    ensures Flushed(Run(es + [e]), id, n, path)
  {
    RunKeepsInv(es);
    RunOneMore(es, e);
    FlushedStays(Run(es), e, id, n, path);
  }

  lemma {:induction false} FlushedWhile(es: seq<Event>, rest: seq<Event>, id: SubId, n: nat, path: seq<Change>)
    requires Flushed(Run(es), id, n, path)
    ensures Flushed(Run(es + rest), id, n, path)
  {
    if rest == [] {
      assert es + rest == es;
    } else {
      var init := rest[..|rest| - 1];
      FlushedWhile(es, init, id, n, path);
      assert es + rest == es + init + [rest[|rest| - 1]];
      FlushedOneMore(es + init, rest[|rest| - 1], id, n, path);
    }
  }

  /** From the moment it subscribes to the machine's close, a consumer gets every change and nothing else,
      whatever happens around it: once its stream has been flushed and it has read on to the end, its
      channel is closed and it holds exactly the changes in between. */
  lemma SubscriberGetsEveryChange(before: seq<Event>, id: SubId, during: seq<Event>, rest: seq<Event>)
    requires Run(before).fan.None? && id !in Run(before).subs && !Run(before).closed
    requires forall e | e in during :: e != Unsubscribe(id) && !e.CloseMachine?
    requires Run(before + [Subscribe(id)] + during).fan.None?
    ensures var at := Run(before + [Subscribe(id)] + during);
      var s := Run(before + [Subscribe(id)] + during + [CloseMachine] + rest);
      && |Run(before).path| <= |at.path| && id in s.subs
      && (id !in s.flushing && AtRest(s.subs[id], id) ==>
            s.subs[id].pump.Returned? && s.subs[id].consumed == at.path[|Run(before).path|..])
  {
    var subscribed := before + [Subscribe(id)] + during;
    var at := Run(subscribed);
    Joins(before, id);
    MemberWhile(before + [Subscribe(id)], during, id, |Run(before).path|);
    RunKeepsInv(subscribed);
    assert StoryOk(at.path, at.subs[id]);
    RunOneMore(subscribed, CloseMachine);
    FlushedWhile(subscribed + [CloseMachine], rest, id, |Run(before).path|, at.path);
    var s := Run(subscribed + [CloseMachine] + rest);
    RunKeepsInv(subscribed + [CloseMachine] + rest);
    if id !in s.flushing && AtRest(s.subs[id], id) {
      assert HeldIn(s, id) && StoryOk(s.path, s.subs[id]);
      RestIsEmpty(s.subs[id], id);
      CompleteWhenDrained(s.path, s.subs[id]);
      assert s.subs[id].consumed + [] == s.subs[id].consumed;
    }
  }

  /** Leaving, or gone, having been handed the changes from n up to upto. */
  predicate Left(s: State, id: SubId, n: nat, upto: nat) {
    && id in s.subs && s.subs[id].start == n && s.subs[id].upto == upto
    && id !in s.active && id !in s.flushing && (id in s.leaving || s.subs[id].done.ByConsumer?)
  }

  lemma LeftStays(s: State, e: Event, id: SubId, n: nat, upto: nat)
    requires Membership(s) && Left(s, id, n, upto)
    ensures Left(Step(s, e), id, n, upto) && s.path <= Step(s, e).path
  {
    SubMoves(s, e, id);
  }

  lemma LeftOneMore(es: seq<Event>, e: Event, id: SubId, n: nat, upto: nat)
    requires Left(Run(es), id, n, upto)
    ensures Left(Run(es + [e]), id, n, upto) && Run(es).path <= Run(es + [e]).path
  {
    RunKeepsInv(es);
    RunOneMore(es, e);
    LeftStays(Run(es), e, id, n, upto);
  }

  lemma {:induction false} LeftWhile(es: seq<Event>, rest: seq<Event>, id: SubId, n: nat, upto: nat)
    requires Left(Run(es), id, n, upto)
    ensures Left(Run(es + rest), id, n, upto) && Run(es).path <= Run(es + rest).path
  {
    if rest == [] {
      assert es + rest == es;
    } else {
      var init := rest[..|rest| - 1];
      LeftWhile(es, init, id, n, upto);
      assert es + rest == es + init + [rest[|rest| - 1]];
      LeftOneMore(es + init, rest[|rest| - 1], id, n, upto);
    }
  }

  lemma Leaves(before: seq<Event>, id: SubId)
    requires Run(before).fan.None? && id in Run(before).active
    ensures var at, s := Run(before), Run(before + [Unsubscribe(id)]);
      && id in at.subs && at.subs[id].start <= |at.path| && s.path == at.path
      && Left(s, id, at.subs[id].start, |at.path|)
  {
    RunKeepsInv(before);
    assert HeldIn(Run(before), id) && StoryOk(Run(before).path, Run(before).subs[id]);
    RunOneMore(before, Unsubscribe(id));
  }

  lemma SeenUpTo(path: seq<Change>, path': seq<Change>, sub: Sub)
    requires StoryOk(path', sub) && path <= path' && sub.upto == |path|
    ensures sub.consumed + sub.buffer <= path[sub.start..]
  {
    assert Story(sub) == sub.consumed + sub.buffer + (sub.taken + sub.pend);
    assert path'[sub.start..|path|] == path[sub.start..];
  }

  lemma EndedReturns(es: seq<Event>, id: SubId)
    requires id in Run(es).subs
    ensures StoryOk(Run(es).path, Run(es).subs[id])
    ensures !Run(es).subs[id].done.Running? && AtRest(Run(es).subs[id], id) ==> Run(es).subs[id].pump.Returned?
  {
    RunKeepsInv(es);
    assert HeldIn(Run(es), id);
    if AtRest(Run(es).subs[id], id) {
      RestIsEmpty(Run(es).subs[id], id);
    }
  }

  /** After a consumer's own close it is handed nothing more, whatever follows: it has a prefix of the changes
      up to then, and once the close is through and it has read on to the end, its channel is closed. */
  lemma UnsubscribedGetsNothingMore(before: seq<Event>, id: SubId, rest: seq<Event>)
    requires Run(before).fan.None? && id in Run(before).active
    ensures var at, s := Run(before), Run(before + [Unsubscribe(id)] + rest);
      && id in at.subs && id in s.subs && at.subs[id].start <= |at.path|
      && s.subs[id].consumed + s.subs[id].buffer <= at.path[at.subs[id].start..]
      && (id !in s.leaving && AtRest(s.subs[id], id) ==> s.subs[id].pump.Returned?)
  {
    var at, left := Run(before), before + [Unsubscribe(id)];
    Leaves(before, id);
    LeftWhile(left, rest, id, at.subs[id].start, |at.path|);
    EndedReturns(left + rest, id);
    SeenUpTo(at.path, Run(left + rest).path, Run(left + rest).subs[id]);
  }

  // ---------------------------------------------------------------------------
  // An undisturbed transition
  // ---------------------------------------------------------------------------

  /** One subscriber after another gets the change appended and its signal sent. */
  function Serve(s: State, ids: seq<SubId>): State {
    if ids == [] then s
    else Step(Step(Serve(s, ids[..|ids| - 1]), FanAppend(ids[|ids| - 1])), FanSignal)
  }

  function Handed(sub: Sub, ch: Change): Sub {
    sub.(pend := sub.pend + [ch], upto := sub.upto + 1, sig := true)
  }

  function HandedTo(subs: map<SubId, Sub>, ids: set<SubId>, ch: Change): map<SubId, Sub> {
    map id | id in subs :: if id in ids then Handed(subs[id], ch) else subs[id]
  }

  function Elements(ids: seq<SubId>): set<SubId> {
    set id | id in ids
  }

  ghost predicate Distinct(ids: seq<SubId>) {
    forall i, j | 0 <= i < j < |ids| :: ids[i] != ids[j]
  }

  lemma ServeOneMore(s: State, ch: Change, todo: set<SubId>, served: set<SubId>, id: SubId, mid: State)
    requires s.fan == Some(FanOut(ch, todo, None)) && todo <= s.subs.Keys
    requires id in todo && id !in served
    requires mid == s.(subs := HandedTo(s.subs, served, ch), fan := Some(FanOut(ch, todo - served, None)))
    ensures Step(Step(mid, FanAppend(id)), FanSignal) ==
      s.(subs := HandedTo(s.subs, served + {id}, ch), fan := Some(FanOut(ch, todo - (served + {id}), None)))
  {
    assert mid.subs[id] == s.subs[id];
    assert HandedTo(s.subs, served + {id}, ch) == HandedTo(s.subs, served, ch)[id := Handed(s.subs[id], ch)];
    assert (todo - served) - {id} == todo - (served + {id});
  }

  lemma {:induction false} ServeReaches(s: State, ch: Change, todo: set<SubId>, ids: seq<SubId>)
    requires s.fan == Some(FanOut(ch, todo, None)) && todo <= s.subs.Keys
    requires Distinct(ids) && Elements(ids) <= todo
    ensures Serve(s, ids) ==
      s.(subs := HandedTo(s.subs, Elements(ids), ch), fan := Some(FanOut(ch, todo - Elements(ids), None)))
  {
    if ids == [] {
      assert HandedTo(s.subs, {}, ch) == s.subs;
      assert todo - Elements(ids) == todo && Elements(ids) == {};
    } else {
      var init, last := ids[..|ids| - 1], ids[|ids| - 1];
      assert ids == init + [last] && Elements(ids) == Elements(init) + {last};
      ServeReaches(s, ch, todo, init);
      ServeOneMore(s, ch, todo, Elements(init), last, Serve(s, init));
    }
  }

  /** In whatever order the fan-out visits them, a legal transition hands the change to every active
      subscription, once, last and signalled, and to nobody else. */
  lemma TransitionReachesEverySubscriber(s: State, to: ConnState, reason: string, at: Instant, ids: seq<SubId>)
    requires s.fan.None? && !s.closed && Legal(s.cur, to) && s.active <= s.subs.Keys
    requires Distinct(ids) && Elements(ids) == s.active
    ensures var ch := Change(s.cur, to, reason, at);
      Step(Serve(Step(s, Transition(to, reason, at)), ids), FanEnd) ==
      s.(cur := to, path := s.path + [ch], subs := HandedTo(s.subs, s.active, ch))
  {
    var ch := Change(s.cur, to, reason, at);
    var begun := Step(s, Transition(to, reason, at));
    ServeReaches(begun, ch, s.active, ids);
    assert s.active - s.active == {};
  }

  // ---------------------------------------------------------------------------
  // The machine object
  // ---------------------------------------------------------------------------

  datatype Outcome = Changed | NoOp | RefusedClosed | Panicked

  class Subscription {
    var pend: seq<Change>
    var sig: bool

    constructor ()
      ensures pend == [] && !sig
    {
      pend, sig := [], false;
    }

    method Enqueue(ch: Change)
      modifies this
      ensures pend == old(pend) + [ch] && sig
    {
      pend := pend + [ch];
      if !sig {
        sig := true;
      }
    }
  }

  class Machine {
    var cur: ConnState
    var closed: bool
    var subs: set<Subscription>

    constructor ()
      ensures cur == Disconnected && !closed && subs == {}
    {
      cur, closed, subs := Disconnected, false, {};
    }

    /** Every current subscriber gets the change appended, exactly once and last; nobody else is
        touched. A closed machine refuses, a same-state call is a no-op, an illegal edge panics. */
    method Transition(to: ConnState, reason: string, now: Instant) returns (outcome: Outcome)
      modifies this`cur, subs
      ensures outcome ==
        if closed then RefusedClosed else if old(cur) == to then NoOp
        else if Legal(old(cur), to) then Changed else Panicked
      ensures outcome == Changed ==>
        cur == to && forall s | s in subs :: s.pend == old(s.pend) + [Change(old(cur), to, reason, now)] && s.sig
      ensures outcome != Changed ==>
        cur == old(cur) && forall s | s in subs :: s.pend == old(s.pend) && s.sig == old(s.sig)
    {
      if closed { return RefusedClosed; }
      if cur == to { return NoOp; }
      if !Legal(cur, to) { return Panicked; }
      var ch := Change(cur, to, reason, now);
      cur := to;
      var todo := subs;
      while todo != {}
        invariant todo <= subs && cur == to
        invariant forall s | s in todo :: s.pend == old(s.pend)
        invariant forall s | s in subs - todo :: s.pend == old(s.pend) + [ch] && s.sig
        decreases todo
      {
        var s :| s in todo;
        s.Enqueue(ch);
        todo := todo - {s};
      }
      outcome := Changed;
    }

    method Subscribe() returns (s: Subscription)
      modifies this`subs
      ensures fresh(s) && s.pend == [] && !s.sig
      ensures subs == if closed then old(subs) else old(subs) + {s}
    {
      s := new Subscription();
      if !closed {
        subs := subs + {s};
      }
    }

    method Close() returns (finished: set<Subscription>)
      modifies this`closed, this`subs
      ensures closed && (old(closed) ==> finished == {} && subs == old(subs))
      ensures !old(closed) ==> finished == old(subs) && subs == {}
    {
      finished := {};
      if !closed {
        closed, finished, subs := true, subs, {};
      }
    }
  }
}
