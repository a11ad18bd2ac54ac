/** The client's supervisor loop (internal/control/client.go) together with the watchdog of its current
    session: two parties that move one connection machine, where an illegal move panics. */
module Supervisor {
  import opened Envelopes
  import opened ConnStates
  import Watchdog

  /** The read loop of the session: reading, inside SendFailed with a verdict of its own, or over. */
  datatype Reader = Reading | Failing(task: nat) | Ended

  /** Where run() stands: about to attempt, dialing, in the handshake, in serve, in backoffWait, or
      returned. */
  datatype Phase = Idle | Dialing | Shaking | Serving(reader: Reader) | Waiting | Exited

  /** What the loop has been through: a session that came up, or a wait and the index it was drawn with. */
  datatype Mark = Up | Wait(index: nat)

  /** `session` is the watchdog of the latest session and holds the machine both parties move;
      `panicked` is an illegal move of the supervisor's; `attempt` is the loop's counter. */
  datatype State = State(phase: Phase, session: Watchdog.State, panicked: bool, attempt: nat, marks: seq<Mark>)

  datatype Event =
    | Attempt
    | DialFails
    | DialSucceeds
    | HandshakeFails
    | HandshakeSucceeds
    | Session(e: Watchdog.Event)
    | ReadFails
    | ReadEnds
    | Teardown
    | ServeReturns
    | WaitOver
    | Quit

  /** No session yet: a retired watchdog, nothing claimed, the machine disconnected. */
  function Start(now: Instant, interval: nat): State {
    State(Idle, Watchdog.Start(now, interval).(stopped := true, mach := Disconnected), false, 0, [])
  }

  /** mach.Transition as the supervisor calls it: refused once closed, nothing for the same state, a
      panic for an illegal edge. */
  function Transition(s: State, to: ConnState, phase: Phase): State {
    if s.session.closed || s.session.mach == to then s.(phase := phase)
    else if !Legal(s.session.mach, to) then s.(panicked := true, phase := Exited)
    else s.(session := s.session.(mach := to), phase := phase)
  }

  /** The three transitions whose refusal ends the loop. */
  function Proceed(s: State, to: ConnState, phase: Phase): State {
    if s.session.closed then s.(phase := Exited) else Transition(s, to, phase)
  }

  /** backoffWait: the delay is drawn with the counter as it stands. */
  function Waited(s: State): State {
    if s.phase.Waiting? then s.(marks := s.marks + [Wait(s.attempt)]) else s
  }

  /** What may happen to the session by itself, its lingering goroutines included. Frames come from the
      read loop only; Stop and the machine are the supervisor's. */
  predicate OfSession(s: State, e: Watchdog.Event) {
    && !e.OwnerStops? && !e.SupervisorMoves?
    && (e.Activity? ==> s.phase == Serving(Reading))
  }

  function Step(s: State, e: Event): State {
    if s.panicked then s
    else match e
    case Attempt => if s.phase.Idle? then Proceed(s, Connecting, Dialing) else s
    case DialFails => if s.phase.Dialing? then Waited(Transition(s, Disconnected, Waiting)) else s
    case DialSucceeds => if s.phase.Dialing? then Proceed(s, Handshaking, Shaking) else s
    case HandshakeFails => if s.phase.Shaking? then Waited(Transition(s, Disconnected, Waiting)) else s
    case HandshakeSucceeds =>
      if !s.phase.Shaking? then s
      else
        var online := Proceed(s, Online, Serving(Reading));
        if online.phase.Exited? then online
        else online.(session := Watchdog.Start(s.session.now, s.session.interval),
                     attempt := 0, marks := s.marks + [Up])
    case Session(e) => if OfSession(s, e) then s.(session := Watchdog.Step(s.session, e)) else s
    case ReadFails =>
      if s.phase != Serving(Reading) then s
      else if s.session.stopped then s.(phase := Serving(Ended))
      else s.(phase := Serving(Failing(s.session.nextTask)), session := Watchdog.Step(s.session, Watchdog.SendFailed))
    case ReadEnds =>
      if s.phase.Serving? && s.phase.reader.Failing? && s.phase.reader.task !in s.session.tasks
      then s.(phase := Serving(Ended)) else s
    case Teardown =>
      if s.phase.Serving? && (s.session.mach.Degraded? || s.session.mach.Disconnected?)
      then s.(session := Watchdog.Step(s.session, Watchdog.OwnerStops)) else s
    case ServeReturns =>
      if s.phase == Serving(Ended)
      then Waited(s.(phase := Waiting, session := Watchdog.Step(s.session, Watchdog.OwnerStops))) else s
    case WaitOver => if s.phase.Waiting? then s.(phase := Idle, attempt := s.attempt + 1) else s
    case Quit => s.(phase := Exited)
  }

  function Run(start: State, es: seq<Event>): State {
    if es == [] then start else Step(Run(start, es[..|es| - 1]), es[|es| - 1])
  }

  // ---------------------------------------------------------------------------
  // Invariant
  // ---------------------------------------------------------------------------

  /** A retired watchdog with no verdict in flight has left the machine disconnected (or closed). */
  ghost predicate Settled(wd: Watchdog.State) {
    && (!wd.stopped ==> wd.tasks == map[])
    && (wd.stopped && !wd.closed && Watchdog.NoClaim(wd) ==> wd.mach == Disconnected)
  }

  ghost predicate Between(wd: Watchdog.State, mach: ConnState) {
    wd.stopped && Watchdog.NoClaim(wd) && wd.mach == mach
  }

  ghost predicate PhaseOk(s: State) {
    match s.phase
    case Idle => s.session.stopped && Settled(s.session)
    case Waiting => s.session.stopped && Settled(s.session)
    case Dialing => Between(s.session, Connecting)
    case Shaking => Between(s.session, Handshaking)
    case Serving(reader) => Settled(s.session) && (!reader.Reading? ==> s.session.stopped)
    case Exited => true
  }

  ghost predicate Inv(s: State) {
    Watchdog.Inv(s.session) && (!s.panicked ==> PhaseOk(s))
  }

  lemma ContinueKeepsSettled(wd: Watchdog.State, i: nat)
    requires Watchdog.Inv(wd) && Settled(wd) && i in wd.tasks
    ensures Settled(Watchdog.Step(wd, Watchdog.Continue(i)))
  {
    var wd' := Watchdog.Step(wd, Watchdog.Continue(i));
    assert Watchdog.ClaimOk(wd, wd.tasks[i]);
    assert wd.stopped;
    if wd.tasks[i].SilenceVerdict? && !wd.closed {
      assert i in wd'.tasks && Watchdog.Claimed(wd'.tasks[i]);
    } else if wd.tasks[i].Stopping? && !Watchdog.NoClaim(wd) {
      var j :| j in wd.tasks && Watchdog.Claimed(wd.tasks[j]);
      assert j in wd'.tasks && Watchdog.Claimed(wd'.tasks[j]);
    }
  }

  lemma ClaimKeepsSettled(wd: Watchdog.State, e: Watchdog.Event)
    requires Watchdog.Inv(wd) && Settled(wd) && (e.SendFailed? || e.DeadlineFires?)
    ensures Settled(Watchdog.Step(wd, e))
  {
    var wd' := Watchdog.Step(wd, e);
    if wd' != wd {
      assert !wd.stopped && wd.mach == Online;
      assert wd.nextTask in wd'.tasks && Watchdog.Claimed(wd'.tasks[wd.nextTask]);
    }
  }

  /** Whatever the session's goroutines do, a verdict carried out leaves the machine disconnected. */
  lemma SessionKeepsSettled(wd: Watchdog.State, e: Watchdog.Event)
    requires Watchdog.Inv(wd) && Settled(wd) && !e.OwnerStops? && !e.SupervisorMoves?
    ensures Settled(Watchdog.Step(wd, e)) && (wd.stopped ==> Watchdog.Step(wd, e).stopped)
  {
    if e.Continue? {
      if e.task in wd.tasks { ContinueKeepsSettled(wd, e.task); }
    } else if e.SendFailed? || e.DeadlineFires? {
      ClaimKeepsSettled(wd, e);
    }
  }

  /** A retired watchdog without a claim has nothing left that could move the machine. */
  lemma RetiredStaysAside(wd: Watchdog.State, e: Watchdog.Event, mach: ConnState)
    requires Between(wd, mach) && !e.OwnerStops? && !e.SupervisorMoves?
    ensures Between(Watchdog.Step(wd, e), mach)
  {
    if e.Continue? && e.task in wd.tasks {
      assert wd.tasks[e.task].Stopping?;
    }
  }

  lemma SessionStepKeepsInv(s: State, e: Watchdog.Event)
    requires Inv(s) && !s.panicked && OfSession(s, e)
    ensures Inv(s.(session := Watchdog.Step(s.session, e)))
  {
    Watchdog.StepKeepsInv(s.session, e);
    match s.phase
    case Idle => SessionKeepsSettled(s.session, e);
    case Waiting => SessionKeepsSettled(s.session, e);
    case Serving(_) => SessionKeepsSettled(s.session, e);
    case Dialing => RetiredStaysAside(s.session, e, Connecting);
    case Shaking => RetiredStaysAside(s.session, e, Handshaking);
    case Exited =>
  }

  /** The supervisor's own moves are legal between sessions. */
  lemma MoveKeepsInv(s: State, to: ConnState, phase: Phase)
    requires Watchdog.Inv(s.session) && !s.panicked && !s.session.closed
    requires s.session.stopped && Watchdog.NoClaim(s.session) && Legal(s.session.mach, to)
    ensures var s' := Transition(s, to, phase);
      && !s'.panicked && s'.phase == phase && s'.session == s.session.(mach := to) && Watchdog.Inv(s'.session)
  {
    Watchdog.StepKeepsInv(s.session, Watchdog.SupervisorMoves(to));
  }

  /** A claimed verdict still holds the machine where the session had it. */
  lemma ClaimHoldsTheMachine(wd: Watchdog.State)
    requires Watchdog.Inv(wd) && !Watchdog.NoClaim(wd)
    ensures wd.mach == Online || wd.mach == Degraded
  {
    var i :| i in wd.tasks && Watchdog.Claimed(wd.tasks[i]);
    assert Watchdog.ClaimOk(wd, wd.tasks[i]);
  }

  lemma AttemptKeepsInv(s: State)
    requires Inv(s) && !s.panicked && s.phase.Idle?
    ensures Inv(Step(s, Attempt))
    ensures Step(s, Attempt).panicked <==> !s.session.closed && !Watchdog.NoClaim(s.session)
  {
    if !s.session.closed {
      if Watchdog.NoClaim(s.session) {
        MoveKeepsInv(s, Connecting, Dialing);
      } else {
        ClaimHoldsTheMachine(s.session);
      }
    }
  }

  lemma DialKeepsInv(s: State, e: Event)
    requires Inv(s) && !s.panicked && (e.DialFails? || e.DialSucceeds? || e.HandshakeFails? || e.HandshakeSucceeds?)
    ensures Inv(Step(s, e)) && !Step(s, e).panicked
  {
    if Step(s, e) != s && !s.session.closed {
      match e
      case DialFails => MoveKeepsInv(s, Disconnected, Waiting);
      case DialSucceeds => MoveKeepsInv(s, Handshaking, Shaking);
      case HandshakeFails => MoveKeepsInv(s, Disconnected, Waiting);
      case HandshakeSucceeds => MoveKeepsInv(s, Online, Serving(Reading));
    }
  }

  lemma ServeKeepsInv(s: State, e: Event)
    requires Inv(s) && !s.panicked && (e.ReadFails? || e.ReadEnds? || e.Teardown? || e.ServeReturns?)
    ensures Inv(Step(s, e)) && !Step(s, e).panicked
  {
    if e.ReadFails? && s.phase == Serving(Reading) && !s.session.stopped {
      Watchdog.StepKeepsInv(s.session, Watchdog.SendFailed);
      SessionKeepsSettled(s.session, Watchdog.SendFailed);
    }
    // Stop finds the watchdog retired already.
    assert e.Teardown? && Step(s, e) != s ==> s.session.stopped;
    assert s.session.stopped ==> Watchdog.Step(s.session, Watchdog.OwnerStops) == s.session;
  }

  lemma StepKeepsInv(s: State, e: Event)
    requires Inv(s)
    ensures Inv(Step(s, e))
    ensures !s.panicked && Step(s, e).panicked ==>
      e.Attempt? && s.phase.Idle? && !s.session.closed && !Watchdog.NoClaim(s.session)
  {
    if !s.panicked {
      match e
      case Attempt => if s.phase.Idle? { AttemptKeepsInv(s); }
      case Session(x) => if OfSession(s, x) { SessionStepKeepsInv(s, x); }
      case ReadFails => ServeKeepsInv(s, e);
      case ReadEnds => ServeKeepsInv(s, e);
      case Teardown => ServeKeepsInv(s, e);
      case ServeReturns => ServeKeepsInv(s, e);
      case WaitOver =>
      case Quit =>
      case DialFails => DialKeepsInv(s, e);
      case DialSucceeds => DialKeepsInv(s, e);
      case HandshakeFails => DialKeepsInv(s, e);
      case HandshakeSucceeds => DialKeepsInv(s, e);
    }
  }

  lemma {:induction false} RunKeepsInv(now: Instant, interval: nat, es: seq<Event>)
    ensures Inv(Run(Start(now, interval), es))
  {
    if es != [] {
      RunKeepsInv(now, interval, es[..|es| - 1]);
      StepKeepsInv(Run(Start(now, interval), es[..|es| - 1]), es[|es| - 1]);
    }
  }

  // ---------------------------------------------------------------------------
  // The index of each wait
  // ---------------------------------------------------------------------------

  /** Mark i is a wait that was drawn with the number of waits between it and the last session before it
      (or the start). */
  ghost predicate CountsSinceUp(marks: seq<Mark>, i: nat) {
    && i < |marks| && marks[i].Wait?
    && var w := marks[i].index;
       && w <= i && (w == i || marks[i - w - 1].Up?)
       && forall j | i - w <= j < i :: marks[j].Wait?
  }

  /** The last n marks are waits, and no more. */
  ghost predicate WaitsAtEnd(marks: seq<Mark>, n: nat) {
    && n <= |marks| && (n == |marks| || marks[|marks| - n - 1].Up?)
    && forall j | |marks| - n <= j < |marks| :: marks[j].Wait?
  }

  ghost predicate Counted(s: State) {
    && (forall i: nat | i < |s.marks| && s.marks[i].Wait? :: CountsSinceUp(s.marks, i))
    && (!s.phase.Exited? ==> WaitsAtEnd(s.marks, if s.phase.Waiting? then s.attempt + 1 else s.attempt))
  }

  lemma OneMoreWait(marks: seq<Mark>, n: nat)
    requires WaitsAtEnd(marks, n) && forall i: nat | i < |marks| && marks[i].Wait? :: CountsSinceUp(marks, i)
    ensures var more := marks + [Wait(n)];
      WaitsAtEnd(more, n + 1) && forall i: nat | i < |more| && more[i].Wait? :: CountsSinceUp(more, i)
  {
    var more := marks + [Wait(n)];
    forall i: nat | i < |more| && more[i].Wait? ensures CountsSinceUp(more, i) {
      if i < |marks| { assert CountsSinceUp(marks, i); }
    }
  }

  lemma OneMoreSession(marks: seq<Mark>)
    requires forall i: nat | i < |marks| && marks[i].Wait? :: CountsSinceUp(marks, i)
    ensures var more := marks + [Up];
      WaitsAtEnd(more, 0) && forall i: nat | i < |more| && more[i].Wait? :: CountsSinceUp(more, i)
  {
    var more := marks + [Up];
    forall i: nat | i < |more| && more[i].Wait? ensures CountsSinceUp(more, i) {
      assert CountsSinceUp(marks, i);
    }
  }

  /** What a step does to the counter and its marks. */
  lemma StepOnMarks(s: State, e: Event)
    ensures var s' := Step(s, e);
      || (s'.marks == s.marks && s'.attempt == s.attempt &&
          (s'.phase.Exited? || (s'.phase.Waiting? <==> s.phase.Waiting?)))
      || (s.phase.Waiting? && s'.phase.Idle? && s'.marks == s.marks && s'.attempt == s.attempt + 1)
      || (!s.phase.Waiting? && !s.phase.Exited? && s'.phase.Waiting? &&
          s'.marks == s.marks + [Wait(s.attempt)] && s'.attempt == s.attempt)
      || (s'.phase.Serving? && s'.marks == s.marks + [Up] && s'.attempt == 0)
    ensures s.phase.Exited? ==> Step(s, e).phase.Exited?
  {
  }

  lemma StepKeepsCounted(s: State, e: Event)
    requires Counted(s)
    ensures Counted(Step(s, e))
  {
    StepOnMarks(s, e);
    OneMoreSession(s.marks);
    if !s.phase.Waiting? && !s.phase.Exited? {
      OneMoreWait(s.marks, s.attempt);
    }
  }

  /** In every run of supervisor and session, each wait is drawn with the number of waits since the last
      session that came up: the first one after a session with index 0, the next with 1, and so on. */
  lemma {:induction false} WaitsCountSinceLastOnline(now: Instant, interval: nat, es: seq<Event>)
    ensures Counted(Run(Start(now, interval), es))
  {
    if es != [] {
      WaitsCountSinceLastOnline(now, interval, es[..|es| - 1]);
      StepKeepsCounted(Run(Start(now, interval), es[..|es| - 1]), es[|es| - 1]);
    }
  }

  // ---------------------------------------------------------------------------
  // When the supervisor panics
  // ---------------------------------------------------------------------------

  /** In every run the watchdog never takes an illegal edge, and an attempt on an open machine panics if
      and only if a verdict of the session before it is claimed and not carried out yet. */
  lemma AttemptPanicsExactlyDuringAVerdict(now: Instant, interval: nat, es: seq<Event>)
    requires var s := Run(Start(now, interval), es);
      !s.panicked && s.phase.Idle? && !s.session.closed
    ensures var s := Run(Start(now, interval), es);
      && !s.session.panicked
      && (Step(s, Attempt).panicked <==> !Watchdog.NoClaim(s.session))
      && (s.session.mach == Disconnected <==> Watchdog.NoClaim(s.session))
  {
    RunKeepsInv(now, interval, es);
    var s := Run(Start(now, interval), es);
    AttemptKeepsInv(s);
    if !Watchdog.NoClaim(s.session) {
      ClaimHoldsTheMachine(s.session);
    }
  }

  /** No verdict of an earlier session outlives the wait after it. */
  ghost predicate VerdictsBeforeAttempts(start: State, es: seq<Event>) {
    forall i | 0 <= i < |es| && es[i].Attempt? :: Watchdog.NoClaim(Run(start, es[..i]).session)
  }

  /** When every attempt finds the verdicts before it carried out, no move of either party is illegal, in
      any run of dials, handshakes, frames, failures, silences, teardowns and closes. */
  lemma {:induction false} NoIllegalMove(now: Instant, interval: nat, es: seq<Event>)
    requires VerdictsBeforeAttempts(Start(now, interval), es)
    ensures var s := Run(Start(now, interval), es);
      !s.panicked && !s.session.panicked
  {
    RunKeepsInv(now, interval, es);
    if es != [] {
      var init := es[..|es| - 1];
      forall i | 0 <= i < |init| && init[i].Attempt?
        ensures Watchdog.NoClaim(Run(Start(now, interval), init[..i]).session)
      {
        assert init[..i] == es[..i];
      }
      NoIllegalMove(now, interval, init);
      RunKeepsInv(now, interval, init);
      StepKeepsInv(Run(Start(now, interval), init), es[|es| - 1]);
    }
  }

  lemma RunOneMore(start: State, es: seq<Event>, e: Event)
    ensures Run(start, es + [e]) == Step(Run(start, es), e)
  {
    assert (es + [e])[..|es|] == es;
  }

  // ---------------------------------------------------------------------------
  // The loop always comes back
  // ---------------------------------------------------------------------------

  lemma {:induction false} RunCons(s: State, e: Event, es: seq<Event>)
    ensures Run(s, [e] + es) == Run(Step(s, e), es)
  {
    if es == [] {
      assert [e] + es == [e] && [e][..0] == [];
    } else {
      assert ([e] + es)[..|es|] == [e] + es[..|es| - 1];
      RunCons(s, e, es[..|es| - 1]);
    }
  }

  lemma {:induction false} RunConcat(s: State, es: seq<Event>, fs: seq<Event>)
    ensures Run(s, es + fs) == Run(Run(s, es), fs)
    decreases |es|
  {
    if es == [] {
      assert es + fs == fs;
    } else {
      RunCons(s, es[0], es[1..]);
      RunCons(s, es[0], es[1..] + fs);
      assert [es[0]] + es[1..] == es && [es[0]] + (es[1..] + fs) == es + fs;
      RunConcat(Step(s, es[0]), es[1..], fs);
    }
  }

  ghost predicate Live(s: State) {
    Inv(s) && !s.panicked && !s.session.closed && !s.phase.Exited?
  }

  /** The session's goroutines may have moved on; the loop is where it was. */
  ghost predicate SessionMovedOn(s: State, s': State) {
    s'.phase == s.phase && s'.attempt == s.attempt && s'.marks == s.marks
    && (s.session.stopped ==> s'.session.stopped)
  }

  lemma TaskFinishes(s: State, i: nat) returns (es: seq<Event>)
    requires Live(s) && i in s.session.tasks
    ensures var s' := Run(s, es);
      Live(s') && SessionMovedOn(s, s') && s'.session.tasks == s.session.tasks - {i}
    decreases match s.session.tasks[i] case SilenceVerdict => 3 case Stopping => 1 case _ => 2
  {
    var e := Session(Watchdog.Continue(i));
    StepKeepsInv(s, e);
    Watchdog.TaskMoves(s.session, i);
    if s.session.tasks[i].Stopping? {
      es := [e];
      RunCons(s, e, []);
      assert [e] + [] == [e];
    } else {
      var rest := TaskFinishes(Step(s, e), i);
      es := [e] + rest;
      RunCons(s, e, rest);
    }
  }

  lemma ClaimsSettle(s: State) returns (es: seq<Event>)
    requires Live(s)
    ensures var s' := Run(s, es);
      Live(s') && SessionMovedOn(s, s') && Watchdog.NoClaim(s'.session)
  {
    if Watchdog.NoClaim(s.session) {
      return [];
    }
    var i :| i in s.session.tasks && Watchdog.Claimed(s.session.tasks[i]);
    es := TaskFinishes(s, i);
  }

  ghost predicate Serves(s: State) {
    s.phase == Serving(Reading) && s.session.mach == Online && !s.session.stopped && !s.session.closed
  }

  lemma AttemptSucceeds(s: State) returns (es: seq<Event>)
    requires Live(s) && (s.phase.Idle? || s.phase.Dialing? || s.phase.Shaking?)
    ensures Serves(Run(s, es)) && Run(s, es).attempt == 0 && Run(s, es).marks == s.marks + [Up]
    decreases match s.phase case Idle => 3 case Dialing => 2 case _ => 1
  {
    if s.phase.Shaking? {
      es := [HandshakeSucceeds];
      DialKeepsInv(s, HandshakeSucceeds);
      RunCons(s, HandshakeSucceeds, []);
      assert es + [] == es;
    } else if s.phase.Dialing? {
      DialKeepsInv(s, DialSucceeds);
      var rest := AttemptSucceeds(Step(s, DialSucceeds));
      es := [DialSucceeds] + rest;
      RunCons(s, DialSucceeds, rest);
    } else {
      var settle := ClaimsSettle(s);
      var mid := Run(s, settle);
      AttemptKeepsInv(mid);
      var rest := AttemptSucceeds(Step(mid, Attempt));
      es := settle + ([Attempt] + rest);
      RunConcat(s, settle, [Attempt] + rest);
      RunCons(mid, Attempt, rest);
    }
  }

  lemma SessionEnds(s: State) returns (es: seq<Event>)
    requires Live(s) && s.phase.Serving? && s.session.stopped
    ensures var s' := Run(s, es);
      Live(s') && s'.phase.Waiting? && s'.attempt == s.attempt && s'.marks == s.marks + [Wait(s.attempt)]
    decreases match s.phase.reader case Reading => 3 case Failing(_) => 2 case Ended => 1
  {
    match s.phase.reader
    case Reading =>
      ServeKeepsInv(s, ReadFails);
      var rest := SessionEnds(Step(s, ReadFails));
      es := [ReadFails] + rest;
      RunCons(s, ReadFails, rest);
    case Failing(task) =>
      var finish: seq<Event> := [];
      if task in s.session.tasks { finish := TaskFinishes(s, task); }
      var mid := Run(s, finish);
      ServeKeepsInv(mid, ReadEnds);
      var rest := SessionEnds(Step(mid, ReadEnds));
      es := finish + ([ReadEnds] + rest);
      RunConcat(s, finish, [ReadEnds] + rest);
      RunCons(mid, ReadEnds, rest);
    case Ended =>
      ServeKeepsInv(s, ServeReturns);
      es := [ServeReturns];
      RunCons(s, ServeReturns, []);
      assert es + [] == es;
  }

  lemma WaitEnds(s: State) returns (es: seq<Event>)
    requires Live(s) && s.phase.Waiting?
    ensures Serves(Run(s, es)) && Run(s, es).attempt == 0 && Run(s, es).marks == s.marks + [Up]
  {
    StepKeepsInv(s, WaitOver);
    var rest := AttemptSucceeds(Step(s, WaitOver));
    es := [WaitOver] + rest;
    RunCons(s, WaitOver, rest);
  }

  /** However a session ends, an open loop gets back to a served one: from every reachable state some
      continuation ends in a session that is up. A session that is down waits once on the way. */
  lemma LoopComesBack(now: Instant, interval: nat, es: seq<Event>) returns (more: seq<Event>)
    requires var s := Run(Start(now, interval), es);
      !s.panicked && !s.session.closed && !s.phase.Exited?
    ensures var s, s' := Run(Start(now, interval), es), Run(Start(now, interval), es + more);
      && Serves(s')
      && (Serves(s) || s'.attempt == 0)
      && s'.marks == s.marks
           + (if Serves(s) then [] else if s.phase.Serving? then [Wait(s.attempt)] + [Up] else [Up])
  {
    var s := Run(Start(now, interval), es);
    RunKeepsInv(now, interval, es);
    if Serves(s) {
      more := [];
    } else if s.phase.Serving? {
      var down := SessionEnds(s);
      var up := WaitEnds(Run(s, down));
      more := down + up;
      RunConcat(s, down, up);
    } else if s.phase.Waiting? {
      more := WaitEnds(s);
    } else {
      more := AttemptSucceeds(s);
    }
    RunConcat(Start(now, interval), es, more);
  }

  /** An attempt that fails, at the dial or in the handshake, leaves a disconnected machine and one wait, in every
      run. */
  lemma FailedAttemptWaits(now: Instant, interval: nat, es: seq<Event>, e: Event)
    requires var s := Run(Start(now, interval), es);
      !s.panicked && !s.session.closed
      && ((s.phase.Dialing? && e.DialFails?) || (s.phase.Shaking? && e.HandshakeFails?))
    ensures var s, s' := Run(Start(now, interval), es), Step(Run(Start(now, interval), es), e);
      !s'.panicked && s'.phase.Waiting? && s'.session.mach == Disconnected
      && s'.attempt == s.attempt && s'.marks == s.marks + [Wait(s.attempt)]
  {
    RunKeepsInv(now, interval, es);
    DialKeepsInv(Run(Start(now, interval), es), e);
  }

  /** Once the machine is closed neither party moves it, whatever follows; and a loop told to quit does not
      attempt, wait or serve again. */
  lemma {:induction false} ClosedOrQuitIsFinal(s: State, es: seq<Event>)
    ensures s.session.closed ==>
      Run(s, es).session.closed && Run(s, es).session.mach == s.session.mach
    ensures !s.panicked ==>
      Run(Step(s, Quit), es).phase.Exited? && Run(Step(s, Quit), es).marks == s.marks
  {
    if es != [] {
      ClosedOrQuitIsFinal(s, es[..|es| - 1]);
      if s.session.closed { ClosedStep(Run(s, es[..|es| - 1]), es[|es| - 1]); }
      StepOnMarks(Run(Step(s, Quit), es[..|es| - 1]), es[|es| - 1]);
    }
  }

  lemma ClosedStep(s: State, e: Event)
    requires s.session.closed
    ensures Step(s, e).session.closed && Step(s, e).session.mach == s.session.mach
  {
    if e.Session? { Watchdog.ClosedStep(s.session, e.e); }
    Watchdog.ClosedStep(s.session, Watchdog.SendFailed);
    Watchdog.ClosedStep(s.session, Watchdog.OwnerStops);
  }

  function Connected(now: Instant, interval: nat): State {
    State(Serving(Reading), Watchdog.Start(now, interval), false, 0, [Up])
  }

  lemma ConnectedIsReached(now: Instant, interval: nat)
    ensures Run(Start(now, interval), [Attempt] + [DialSucceeds] + [HandshakeSucceeds]) == Connected(now, interval)
  {
    var start := Start(now, interval);
    assert [Attempt] == [] + [Attempt];
    RunOneMore(start, [], Attempt);
    RunOneMore(start, [Attempt], DialSucceeds);
    RunOneMore(start, [Attempt] + [DialSucceeds], HandshakeSucceeds);
  }

  /** A session falls silent for one interval, and between the deadline's claim and its transition the
      read fails, serve returns and the wait ends. */
  function Untimely(interval: nat): seq<Event> {
    [Attempt] + [DialSucceeds] + [HandshakeSucceeds]
    + [Session(Watchdog.Tick(interval))] + [Session(Watchdog.DeadlineFires(1))]
    + [ReadFails] + [ServeReturns] + [WaitOver]
  }

  /** Then the next attempt panics: the machine is still online. */
  lemma UntimelyAttemptPanics(now: Instant, interval: nat)
    ensures var s := Run(Start(now, interval), Untimely(interval));
      s.phase.Idle? && s.session.mach == Online && Step(s, Attempt).panicked
  {
    var start := Start(now, interval);
    var up := [Attempt] + [DialSucceeds] + [HandshakeSucceeds];
    var silent := up + [Session(Watchdog.Tick(interval))] + [Session(Watchdog.DeadlineFires(1))];
    ConnectedIsReached(now, interval);
    RunOneMore(start, up, Session(Watchdog.Tick(interval)));
    RunOneMore(start, up + [Session(Watchdog.Tick(interval))], Session(Watchdog.DeadlineFires(1)));
    RunOneMore(start, silent, ReadFails);
    RunOneMore(start, silent + [ReadFails], ServeReturns);
    RunOneMore(start, silent + [ReadFails] + [ServeReturns], WaitOver);
  }
}
