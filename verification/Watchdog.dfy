/** The session watchdog (internal/control/heartbeat.go): rotating silence deadlines, transport
    failures and stops, every critical section of every goroutine one step. */
module Watchdog {
  import opened Basics
  import opened Envelopes
  import opened ConnStates

  /** What a goroutine that left a critical section still has to do: a transport-failure verdict, a
      silence verdict, its second half, or the closing Stop. */
  datatype Task = FailVerdict | SilenceVerdict | TearDown | Stopping

  predicate Claimed(t: Task) {
    !t.Stopping?
  }

  /** `armed` remembers when each generation's deadline was armed, for every generation ever: a
      fire of a superseded one may arrive arbitrarily late. `taken` are the edges this watchdog
      drove the machine along; `silenceClaim` and `failureClaim` which verdict was claimed, if any;
      `panicked` would be an illegal edge. */
  datatype State = State(
    now: Instant,
    interval: nat,
    gen: nat,
    stopped: bool,
    armed: map<nat, Instant>,
    lastFrame: Instant,
    silenceClaim: Option<Instant>,
    failureClaim: bool,
    tasks: map<nat, Task>,
    nextTask: nat,
    mach: ConnState,
    closed: bool,
    taken: seq<(ConnState, ConnState)>,
    panicked: bool)

  datatype Event =
    | Tick(elapsed: nat)
    | Activity
    | SendFailed
    | DeadlineFires(gen: nat)
    | Continue(task: nat)
    | OwnerStops
    | MachineCloses
    | SupervisorMoves(to: ConnState)

  /** StartWatchdog on an online machine: connect time counts as the last sign of life. */
  function Start(now: Instant, interval: nat): State {
    State.State(now, interval, 1, false, map[1 := now], now, None, false, map[], 0, Online, false, [], false)
  }

  function Drive(s: State, to: ConnState): State {
    if s.closed || s.mach == to then s
    else if !Legal(s.mach, to) then s.(panicked := true)
    else s.(mach := to, taken := s.taken + [(s.mach, to)])
  }

  function Spawn(s: State, t: Task): State {
    s.(tasks := s.tasks[s.nextTask := t], nextTask := s.nextTask + 1)
  }

  predicate NoClaim(s: State) {
    forall i | i in s.tasks :: !Claimed(s.tasks[i])
  }

  function Step(s: State, e: Event): State {
    match e
    case Tick(d) => s.(now := s.now + d)
    case Activity =>
      if s.stopped then s
      else s.(gen := s.gen + 1, armed := s.armed[s.gen + 1 := s.now], lastFrame := s.now)
    case SendFailed => if s.stopped then s else Spawn(s.(stopped := true, failureClaim := true), FailVerdict)
    case DeadlineFires(g) =>
      if g !in s.armed || s.now < s.armed[g] + s.interval then s
      else if s.stopped || g != s.gen then s
      else if s.mach != Online then Spawn(s, Stopping)
      else Spawn(s.(stopped := true, silenceClaim := Some(s.now)), SilenceVerdict)
    case Continue(i) => if i in s.tasks then ContinueTask(s, i) else s
    case OwnerStops => s.(stopped := true)
    case MachineCloses => s.(closed := true)
    case SupervisorMoves(to) =>
      // The rely: the supervisor moves the machine only once the watchdog is retired and no
      // verdict is in flight.
      if s.stopped && NoClaim(s) && !s.closed && Legal(s.mach, to) then s.(mach := to) else s
  }

  function ContinueTask(s: State, i: nat): State
    requires i in s.tasks
  {
    match s.tasks[i]
    case FailVerdict => Drive(s, Disconnected).(tasks := s.tasks[i := Stopping])
    case SilenceVerdict =>
      if s.closed then s.(tasks := s.tasks[i := Stopping])
      else Drive(s, Degraded).(tasks := s.tasks[i := TearDown])
    case TearDown => Drive(s, Disconnected).(tasks := s.tasks[i := Stopping])
    case Stopping => s.(stopped := true, tasks := s.tasks - {i})
  }

  function Run(s: State, es: seq<Event>): State {
    if es == [] then s else Step(Run(s, es[..|es| - 1]), es[|es| - 1])
  }

  // ---------------------------------------------------------------------------
  // One verdict, on legal edges
  // ---------------------------------------------------------------------------

  const DIRECT: seq<(ConnState, ConnState)> := [(Online, Disconnected)]
  const DIAGNOSED: seq<(ConnState, ConnState)> := [(Online, Degraded)]
  const TORN_DOWN: seq<(ConnState, ConnState)> := [(Online, Degraded), (Degraded, Disconnected)]

  /** Where the machine and the edges taken must stand for a claimed verdict to continue. */
  ghost predicate ClaimOk(s: State, t: Task) {
    match t
    case FailVerdict => s.mach == Online && s.taken == [] && s.failureClaim && s.silenceClaim.None?
    case SilenceVerdict => s.mach == Online && s.taken == [] && s.silenceClaim.Some? && !s.failureClaim
    case TearDown => s.mach == Degraded && s.taken == DIAGNOSED && s.silenceClaim.Some? && !s.failureClaim
    case Stopping => true
  }

  /** What a verdict has done once nobody carries one any more. A closed machine refuses what is left. */
  ghost predicate CarriedOut(s: State) {
    if s.silenceClaim.Some? then
      !s.failureClaim && (s.taken == TORN_DOWN || (s.closed && (s.taken == [] || s.taken == DIAGNOSED)))
    else if s.failureClaim then s.taken == DIRECT || (s.closed && s.taken == [])
    else s.taken == []
  }

  ghost predicate Deadlines(s: State) {
    && s.gen in s.armed && s.armed[s.gen] == s.lastFrame
    && (forall g | g in s.armed :: g <= s.gen)
    && (s.silenceClaim.Some? ==> s.stopped && s.silenceClaim.value >= s.lastFrame + s.interval)
  }

  ghost predicate Inv(s: State) {
    && !s.panicked
    && Deadlines(s)
    && (forall i | i in s.tasks :: i < s.nextTask && ClaimOk(s, s.tasks[i]))
    && (forall i, j | i in s.tasks && j in s.tasks && Claimed(s.tasks[i]) && Claimed(s.tasks[j]) :: i == j)
    && (!s.stopped ==> NoClaim(s) && s.mach == Online && s.taken == [] && s.silenceClaim.None? && !s.failureClaim)
    && (NoClaim(s) ==> CarriedOut(s))
  }

  /** What the claimed verdict's next move does to the machine. */
  lemma VerdictMoves(s: State, i: nat)
    requires Inv(s) && i in s.tasks && Claimed(s.tasks[i])
    ensures var s' := ContinueTask(s, i);
      && !s'.panicked
      && (s'.tasks[i].TearDown? || s'.tasks[i].Stopping?) && ClaimOk(s', s'.tasks[i])
      && (s'.tasks[i].Stopping? ==> CarriedOut(s'))
  {
    assert ClaimOk(s, s.tasks[i]);
    assert [] + [(Online, Disconnected)] == DIRECT;
    assert DIAGNOSED + [(Degraded, Disconnected)] == TORN_DOWN;
  }

  lemma ContinueKeepsInv(s: State, i: nat)
    requires Inv(s) && i in s.tasks
    ensures Inv(ContinueTask(s, i))
  {
    var s' := ContinueTask(s, i);
    if Claimed(s.tasks[i]) {
      VerdictMoves(s, i);
      assert forall j | j in s.tasks && j != i :: s.tasks[j].Stopping?;
      assert s'.tasks == s.tasks[i := s'.tasks[i]];
    } else {
      RetiringKeepsInv(s, i);
    }
  }

  lemma RetiringKeepsInv(s: State, i: nat)
    requires Inv(s) && i in s.tasks && s.tasks[i].Stopping?
    ensures Inv(ContinueTask(s, i))
  {
    assert forall j | j in s.tasks && Claimed(s.tasks[j]) :: j in ContinueTask(s, i).tasks;
  }

  lemma ClaimingKeepsInv(s: State, e: Event)
    requires Inv(s) && (e.SendFailed? || e.DeadlineFires?)
    ensures Inv(Step(s, e))
  {
    var s' := Step(s, e);
    if s' != s {
      assert s'.tasks == s.tasks[s.nextTask := s'.tasks[s.nextTask]];
      assert s.mach == Online && NoClaim(s);
      assert s.nextTask in s'.tasks && Claimed(s'.tasks[s.nextTask]);
    }
  }

  lemma StepKeepsInv(s: State, e: Event)
    requires Inv(s)
    ensures Inv(Step(s, e))
  {
    if e.Continue? {
      if e.task in s.tasks { ContinueKeepsInv(s, e.task); }
    } else if e.SendFailed? || e.DeadlineFires? {
      ClaimingKeepsInv(s, e);
    }
  }

  lemma {:induction false} RunKeepsInv(s: State, es: seq<Event>)
    requires Inv(s)
    ensures Inv(Run(s, es))
  {
    if es != [] {
      RunKeepsInv(s, es[..|es| - 1]);
      StepKeepsInv(Run(s, es[..|es| - 1]), es[|es| - 1]);
    }
  }

  /** For every interleaving of frames, transport failures, current and stale deadline fires, stops
      and a machine close, the watchdog drives the machine along exactly one of: nothing, the
      direct edge, or diagnosis then teardown (of which the second half is missing only while it
      is still to come or when the machine closed in between). It never takes an illegal edge. */
  lemma ExactlyOneVerdict(now: Instant, interval: nat, es: seq<Event>)
    ensures var s := Run(Start(now, interval), es);
      && !s.panicked
      && (s.taken == [] || s.taken == DIRECT || s.taken == DIAGNOSED || s.taken == TORN_DOWN)
      && (s.taken == DIAGNOSED && !s.closed ==> exists i :: i in s.tasks && s.tasks[i].TearDown?)
  {
    RunKeepsInv(Start(now, interval), es);
    var s := Run(Start(now, interval), es);
    if !NoClaim(s) {
      var i :| i in s.tasks && Claimed(s.tasks[i]);
      assert ClaimOk(s, s.tasks[i]);
    }
  }

  /** Which edges a verdict takes, in every run: with no claim in flight on an open machine, a silence claim
      has taken exactly online to degraded to disconnected, a failure claim exactly online to
      disconnected, there was never both, and without a claim nothing was taken. */
  lemma VerdictTakesItsEdges(now: Instant, interval: nat, es: seq<Event>)
    requires var s := Run(Start(now, interval), es);
      NoClaim(s) && !s.closed
    ensures var s := Run(Start(now, interval), es);
      && (s.silenceClaim.Some? ==> s.taken == TORN_DOWN && !s.failureClaim)
      && (s.failureClaim ==> s.taken == DIRECT)
      && (s.silenceClaim.None? && !s.failureClaim ==> s.taken == [])
  {
    RunKeepsInv(Start(now, interval), es);
  }

  /** A silence claim diagnoses first and tears down next; a failure claim tears down at once. */
  lemma ClaimIsCarriedOut(s: State, i: nat)
    requires Inv(s) && i in s.tasks && Claimed(s.tasks[i]) && !s.closed
    ensures s.tasks[i].SilenceVerdict? ==>
      Step(s, Continue(i)).taken == DIAGNOSED && Step(Step(s, Continue(i)), Continue(i)).taken == TORN_DOWN
    ensures s.tasks[i].FailVerdict? ==> Step(s, Continue(i)).taken == DIRECT
    ensures s.tasks[i].TearDown? ==> Step(s, Continue(i)).taken == TORN_DOWN
  {
    VerdictMoves(s, i);
    StepKeepsInv(s, Continue(i));
    var s' := Step(s, Continue(i));
    assert [] + [(Online, Degraded)] == DIAGNOSED;
    assert [] + [(Online, Disconnected)] == DIRECT;
    assert DIAGNOSED + [(Degraded, Disconnected)] == TORN_DOWN;
  }

  /** When a running watchdog declares its peer dead, in every run: a fire claims if and only if it is of the
      current deadline and an interval has passed since the last frame; a send failure claims at once. */
  lemma DeathIsDeclared(now: Instant, interval: nat, es: seq<Event>, d: nat, g: nat)
    ensures var s := Run(Start(now, interval), es);
      !s.stopped ==>
        var later := Step(s, Tick(d));
        && later.now == s.now + d && !later.stopped
        && (if g == s.gen && s.now + d >= s.lastFrame + s.interval then
              Claims(later, Step(later, DeadlineFires(g)), SilenceVerdict, Some(s.now + d), false)
            else Step(later, DeadlineFires(g)) == later)
        && Claims(s, Step(s, SendFailed), FailVerdict, None, true)
  {
    RunKeepsInv(Start(now, interval), es);
  }

  /** The claimant's next task is new, and its claim is recorded. */
  predicate Claims(s: State, s': State, t: Task, silence: Option<Instant>, failure: bool) {
    s'.stopped && s'.silenceClaim == silence && s'.failureClaim == failure
    && s.nextTask !in s.tasks && s'.tasks == s.tasks[s.nextTask := t] && s'.closed == s.closed
  }

  predicate SameClaims(s: State, s': State) {
    s'.stopped && s'.silenceClaim == s.silenceClaim && s'.failureClaim == s.failureClaim
    && s'.gen == s.gen && s'.lastFrame == s.lastFrame
  }

  lemma StoppedStep(s: State, e: Event)
    requires s.stopped
    ensures SameClaims(s, Step(s, e))
  {
    if e.Continue? && e.task in s.tasks {
      assert SameClaims(s, Drive(s, Degraded)) && SameClaims(s, Drive(s, Disconnected));
    }
  }

  /** Stopping is for good: nothing is claimed or recorded afterwards. */
  lemma {:induction false} StoppedForGood(s: State, es: seq<Event>)
    ensures SameClaims(s, Run(Step(s, OwnerStops), es))
  {
    if es != [] {
      StoppedForGood(s, es[..|es| - 1]);
      StoppedStep(Run(Step(s, OwnerStops), es[..|es| - 1]), es[|es| - 1]);
    }
  }

  lemma ClosedStep(s: State, e: Event)
    requires s.closed
    ensures var s' := Step(s, e); s'.closed && s'.mach == s.mach && s'.taken == s.taken
  {
  }

  /** A closed machine is driven nowhere. */
  lemma {:induction false} ClosedStaysPut(s: State, es: seq<Event>)
    ensures var s' := Run(Step(s, MachineCloses), es);
      s'.closed && s'.mach == s.mach && s'.taken == s.taken
  {
    if es != [] {
      ClosedStaysPut(s, es[..|es| - 1]);
      ClosedStep(Run(Step(s, MachineCloses), es[..|es| - 1]), es[|es| - 1]);
    }
  }

  lemma TaskMoves(s: State, i: nat)
    requires i in s.tasks
    ensures var s' := Step(s, Continue(i));
      match s.tasks[i]
      case Stopping => s'.stopped && s'.tasks == s.tasks - {i}
      case SilenceVerdict => s'.tasks == s.tasks[i := if s.closed then Stopping else TearDown]
      case _ => s'.tasks == s.tasks[i := Stopping]
  {
  }

  function Moves(s: State, i: nat, n: nat): State
    decreases n
  {
    if n == 0 then s else Moves(Step(s, Continue(i)), i, n - 1)
  }

  /** Whatever a goroutine has still to do, no more than three of its moves finish it, the last of them with
      the watchdog stopped. */
  lemma EveryTaskEnds(s: State, i: nat) returns (n: nat)
    requires i in s.tasks
    ensures 1 <= n <= match s.tasks[i] case SilenceVerdict => 3 case Stopping => 1 case _ => 2
    ensures Moves(s, i, n).stopped && Moves(s, i, n).tasks == s.tasks - {i}
    decreases match s.tasks[i] case SilenceVerdict => 3 case Stopping => 1 case _ => 2
  {
    TaskMoves(s, i);
    if s.tasks[i].Stopping? {
      n := 1;
      assert Moves(Step(s, Continue(i)), i, 0) == Step(s, Continue(i));
    } else {
      var rest := EveryTaskEnds(Step(s, Continue(i)), i);
      n := rest + 1;
    }
  }

  /** A degraded verdict means silence: when it was claimed, no frame had been recorded for at least
      the dead-peer interval, and none has moved the record since. */
  lemma DegradedMeansSilence(now: Instant, interval: nat, es: seq<Event>)
    requires (Online, Degraded) in Run(Start(now, interval), es).taken
    ensures var s := Run(Start(now, interval), es);
      s.silenceClaim.Some? && s.lastFrame + s.interval <= s.silenceClaim.value
  {
    RunKeepsInv(Start(now, interval), es);
    var s := Run(Start(now, interval), es);
    if !NoClaim(s) {
      var i :| i in s.tasks && Claimed(s.tasks[i]);
      assert ClaimOk(s, s.tasks[i]);
    }
  }

  lemma RecordMovesOnActivityOnly(s: State, e: Event)
    ensures Step(s, e).lastFrame == if e.Activity? && !s.stopped then s.now else s.lastFrame
  {
    if e.Continue? && e.task in s.tasks {
      assert Drive(s, Degraded).lastFrame == s.lastFrame == Drive(s, Disconnected).lastFrame;
    }
  }

  /** The recorded sign of life is the latest frame that found the watchdog running. */
  lemma {:induction false} LastFrameIsLatest(s: State, es: seq<Event>, n: nat)
    requires n < |es| && es[n] == Activity && !Run(s, es[..n]).stopped
    requires forall m | n < m < |es| :: es[m] != Activity || Run(s, es[..m]).stopped
    ensures Run(s, es).lastFrame == Run(s, es[..n]).now
    decreases |es|
  {
    var init := es[..|es| - 1];
    RecordMovesOnActivityOnly(Run(s, init), es[|es| - 1]);
    if n < |init| {
      assert init[..n] == es[..n];
      assert forall m | n < m < |init| :: init[..m] == es[..m] && init[m] == es[m];
      LastFrameIsLatest(s, init, n);
    }
  }

  // ---------------------------------------------------------------------------
  // The watchdog object's critical sections
  // ---------------------------------------------------------------------------

  /** The same state at a later clock reading. */
  function Later(s: State, now: Instant): State
    requires now >= s.now
  {
    Step(s, Tick(now - s.now))
  }

  class Dog {
    const interval: nat
    var gen: nat
    var stopped: bool
    var deadline: Option<Instant>
    ghost var state: State

    /** The fields are those of a reachable state of the interleaved model; while running, the armed
        timer is the current generation's, one interval after the last frame. */
    ghost predicate Valid()
      reads this
    {
      && Inv(state) && interval == state.interval && gen == state.gen && stopped == state.stopped
      && (!stopped ==> deadline == Some(state.lastFrame + interval))
    }

    constructor (interval: nat, now: Instant)
      ensures Valid() && this.interval == interval && state == Start(now, interval)
    {
      this.interval := interval;
      stopped, state := false, Start(now, interval);
      gen, deadline := 1, Some(now + interval);
    }

    method ArmDeadlineLocked(now: Instant)
      requires now >= state.now
      requires Inv(state) && interval == state.interval && gen == state.gen && !stopped && !state.stopped
      modifies this
      ensures Valid() && !stopped && state == Step(Later(old(state), now), Event.Activity)
    {
      StepKeepsInv(state, Tick(now - state.now));
      StepKeepsInv(Later(state, now), Event.Activity);
      gen := gen + 1;
      deadline := Some(now + interval);
      state := Step(Later(state, now), Event.Activity);
    }

    /** A frame rotates a running watchdog's deadline and leaves a stopped one alone. */
    method Activity(now: Instant)
      requires Valid() && now >= state.now
      modifies this
      ensures Valid() && state == Step(Later(old(state), now), Event.Activity)
    {
      if stopped {
        StepKeepsInv(state, Tick(now - state.now));
        state := Later(state, now);
        return;
      }
      ArmDeadlineLocked(now);
    }

    /** SendFailed up to the end of its critical section: exactly one caller ever claims. */
    method ClaimFailure() returns (claimed: bool)
      requires Valid()
      modifies this`stopped, this`state
      ensures Valid() && stopped && claimed == !old(stopped)
      ensures state == Step(old(state), SendFailed)
    {
      StepKeepsInv(state, SendFailed);
      state := Step(state, SendFailed);
      if stopped { return false; }
      stopped := true;
      claimed := true;
    }

    /** watchDead up to the end of its critical section, for a fired deadline of generation g. A claim
        means the current deadline ran out: one interval without a frame. */
    method ClaimSilence(g: nat, mach: ConnState, ghost now: Instant) returns (claimed: bool)
      requires Valid() && mach == state.mach && now >= state.now
      requires g in state.armed && now >= state.armed[g] + interval
      modifies this`stopped, this`state
      ensures Valid() && state == Step(Later(old(state), now), DeadlineFires(g))
      ensures claimed == (!old(stopped) && g == gen && mach == Online)
      ensures claimed ==> stopped && state.now >= state.lastFrame + interval && state.silenceClaim == Some(now)
    {
      StepKeepsInv(state, Tick(now - state.now));
      StepKeepsInv(Later(state, now), DeadlineFires(g));
      state := Step(Later(state, now), DeadlineFires(g));
      if stopped || g != gen { return false; }
      if mach != Online { return false; }
      stopped := true;
      claimed := true;
    }

    method Stop()
      requires Valid()
      modifies this`stopped, this`deadline, this`state
      ensures Valid() && stopped && deadline == None && state == Step(old(state), OwnerStops)
    {
      StepKeepsInv(state, OwnerStops);
      state := Step(state, OwnerStops);
      stopped, deadline := true, None;
    }
  }

  /** The beat loop's catch-up: the next slot is the first one of the fixed grid after now, so a
      late iteration never shifts the schedule. */
  method NextSlot(next: Instant, now: Instant, period: int) returns (slot: Instant, skipped: nat)
    requires period > 0
    ensures slot == next + skipped * period
    ensures slot > now && (skipped == 0 || slot - period <= now)
  {
    slot, skipped := next, 0;
    while slot <= now
      invariant slot == next + skipped * period
      invariant skipped == 0 || slot - period <= now
      decreases now - slot
    {
      slot, skipped := slot + period, skipped + 1;
    }
  }
}
