/** The presence tracker (internal/coordinator/presence/tracker.go): refcounted connections and
    liveness leases whose timers may fire late, stale or never. */
module Presence {
  import opened Basics
  import opened Envelopes

  /** `lease` is the deadline of the armed timer; `gen` counts observations. */
  datatype Device = Device(conns: nat, online: bool, lastSeen: Instant, gen: nat, lease: Option<Instant>)

  datatype LeaseId = LeaseId(device: string, gen: nat)

  /** `armed` remembers every lease ever armed and when: its watcher may still deliver its fire. */
  datatype State = State(
    now: Instant,
    ttl: nat,
    devices: map<string, Device>,
    armed: map<LeaseId, Instant>,
    closed: bool)

  datatype Event =
    | Tick(elapsed: nat)
    | Heartbeat(device: string)
    | Established(device: string)
    | Lost(device: string)
    | LeaseFires(lease: LeaseId)
    | SetClosed
    | EndLeases

  const UNSEEN: Device := Device(0, false, 0, 0, None)

  function DeviceOf(s: State, d: string): Device {
    if d in s.devices then s.devices[d] else UNSEEN
  }

  /** markAliveLocked, after the caller adjusted the connection count. */
  function MarkAlive(s: State, d: string, conns: nat): State {
    var gen := DeviceOf(s, d).gen + 1;
    s.(devices := s.devices[d := Device(conns, true, s.now, gen, Some(s.now + s.ttl))],
       armed := s.armed[LeaseId(d, gen) := s.now])
  }

  function MarkOffline(s: State, d: string, conns: nat, seenAt: Instant): State {
    s.(devices := s.devices[d := Device(conns, false, seenAt, DeviceOf(s, d).gen, None)])
  }

  function ObserveHeartbeat(s: State, d: string): State {
    if s.closed then s else MarkAlive(s, d, DeviceOf(s, d).conns)
  }

  function ConnectionEstablished(s: State, d: string): State {
    if s.closed then s else MarkAlive(s, d, DeviceOf(s, d).conns + 1)
  }

  function ConnectionLost(s: State, d: string): State {
    var dev := DeviceOf(s, d);
    if s.closed || dev.conns == 0 then s
    else if dev.conns > 1 || !dev.online then s.(devices := s.devices[d := dev.(conns := dev.conns - 1)])
    else MarkOffline(s, d, 0, s.now)
  }

  /** expire, for a lease whose timer may have fired: not before its deadline. */
  function Expire(s: State, id: LeaseId): State {
    if id !in s.armed || s.now < s.armed[id] + s.ttl then s
    else
      var dev := DeviceOf(s, id.device);
      if s.closed || !dev.online || dev.gen != id.gen then s
      else MarkOffline(s, id.device, dev.conns, dev.lastSeen)
  }

  function Step(s: State, e: Event): State {
    match e
    case Tick(d) => s.(now := s.now + d)
    case Heartbeat(d) => ObserveHeartbeat(s, d)
    case Established(d) => ConnectionEstablished(s, d)
    case Lost(d) => ConnectionLost(s, d)
    case LeaseFires(id) => Expire(s, id)
    case SetClosed => s.(closed := true)
    case EndLeases =>
      if s.closed then s.(devices := map d | d in s.devices :: s.devices[d].(lease := None)) else s
  }

  function Run(s: State, es: seq<Event>): State {
    if es == [] then s else Step(Run(s, es[..|es| - 1]), es[|es| - 1])
  }

  /** Restart semantics: whatever was persisted, everyone is offline and nothing is armed. */
  ghost predicate Fresh(s: State) {
    && !s.closed && s.armed == map[]
    && forall d | d in s.devices :: s.devices[d] == UNSEEN.(lastSeen := s.devices[d].lastSeen)
  }

  // ---------------------------------------------------------------------------
  // Leases
  // ---------------------------------------------------------------------------

  ghost predicate LeaseOk(s: State, d: string) {
    var dev := DeviceOf(s, d);
    && (dev.online <==> dev.lease.Some?)
    && (dev.online ==>
          && dev.lease.value == dev.lastSeen + s.ttl
          && LeaseId(d, dev.gen) in s.armed && s.armed[LeaseId(d, dev.gen)] == dev.lastSeen)
  }

  ghost predicate Inv(s: State) {
    && (forall id | id in s.armed :: 1 <= id.gen <= DeviceOf(s, id.device).gen)
    && (!s.closed ==> forall d: string :: LeaseOk(s, d))
  }

  lemma StepKeepsInv(s: State, e: Event)
    requires Inv(s)
    ensures Inv(Step(s, e))
  {
    var s' := Step(s, e);
    assert forall d: string :: DeviceOf(s, d).gen <= DeviceOf(s', d).gen;
    if !s'.closed {
      forall d: string ensures LeaseOk(s', d) {
        assert LeaseOk(s, d);
      }
    }
  }

  lemma {:induction false} RunKeepsInv(s: State, es: seq<Event>)
    requires Inv(s)
    ensures Inv(Run(s, es))
  {
    if es != [] {
      RunKeepsInv(s, es[..|es| - 1]);
      StepKeepsInv(Run(s, es[..|es| - 1]), es[|es| - 1]);
    }
  }

  /** While the tracker is open, in every run, a device is online exactly when it holds a live lease,
      and that lease is due one TTL after the last observation. */
  lemma {:induction false} OnlineExactlyWithLease(s: State, es: seq<Event>, d: string)
    requires Fresh(s) && !Run(s, es).closed
    ensures var dev := DeviceOf(Run(s, es), d);
      && (dev.online <==> dev.lease.Some?)
      && (dev.online ==> dev.lease == Some(dev.lastSeen + Run(s, es).ttl))
  {
    RunKeepsInv(s, es);
    assert LeaseOk(Run(s, es), d);
  }

  /** An observation of life for d: a heartbeat or a connection, while the tracker is open. */
  ghost predicate Observes(s: State, es: seq<Event>, n: nat, d: string) {
    n < |es| && (es[n] == Heartbeat(d) || es[n] == Established(d)) && !Run(s, es[..n]).closed
  }

  lemma StepMovesForward(s: State, e: Event, d: string)
    ensures DeviceOf(s, d).gen <= DeviceOf(Step(s, e), d).gen
    ensures s.now <= Step(s, e).now && Step(s, e).ttl == s.ttl
  {
  }

  lemma {:induction false} GenGrows(s: State, es: seq<Event>, n: nat, d: string)
    requires n <= |es|
    ensures DeviceOf(Run(s, es[..n]), d).gen <= DeviceOf(Run(s, es), d).gen
    decreases |es|
  {
    if n == |es| {
      assert es[..n] == es;
    } else {
      var init := es[..|es| - 1];
      assert init[..n] == es[..n];
      GenGrows(s, init, n, d);
      StepMovesForward(Run(s, init), es[|es| - 1], d);
    }
  }

  /** A stale fire changes nothing, however late it comes: once a newer observation of the device
      has been made, the fire of any lease armed before it is a no-op in every later state. */
  lemma StaleFireIsHarmless(s: State, es: seq<Event>, n: nat, id: LeaseId)
    requires Fresh(s) && Observes(s, es, n, id.device)
    requires id.gen <= DeviceOf(Run(s, es[..n]), id.device).gen
    ensures Step(Run(s, es), LeaseFires(id)) == Run(s, es)
  {
    assert es[..n + 1][..n] == es[..n];
    assert Run(s, es[..n + 1]) == Step(Run(s, es[..n]), es[n]);
    GenGrows(s, es, n + 1, id.device);
  }

  lemma {:induction false} TtlIsFixed(s: State, es: seq<Event>)
    ensures Run(s, es).ttl == s.ttl
  {
    if es != [] {
      TtlIsFixed(s, es[..|es| - 1]);
      StepMovesForward(Run(s, es[..|es| - 1]), es[|es| - 1], "");
    }
  }

  /** While a device is online, its last-seen time is the time of its latest observation. */
  lemma {:induction false} OnlineSinceLatestObservation(s: State, es: seq<Event>, d: string) returns (n: nat)
    requires Fresh(s) && DeviceOf(Run(s, es), d).online
    ensures Observes(s, es, n, d) && DeviceOf(Run(s, es), d).lastSeen == Run(s, es[..n]).now
    ensures forall m | n < m < |es| :: !Observes(s, es, m, d)
    decreases |es|
  {
    assert es != [];
    var init, last := es[..|es| - 1], es[|es| - 1];
    if Observes(s, es, |es| - 1, d) {
      n := |es| - 1;
    } else {
      n := OnlineSinceLatestObservation(s, init, d);
      assert init[..n] == es[..n];
      forall m | n < m < |es| ensures !Observes(s, es, m, d) {
        if m < |init| {
          assert init[..m] == es[..m] && !Observes(s, init, m, d);
        }
      }
    }
  }

  /** A lease fire takes a device offline only after a full TTL of silence: from the latest
      observation to now at least one TTL has passed with no observation in between. It leaves
      last-seen at that observation, keeps the connection count, and touches no other device. */
  lemma ExpiryMeansSilence(s: State, es: seq<Event>, id: LeaseId) returns (n: nat)
    requires Fresh(s) && Step(Run(s, es), LeaseFires(id)) != Run(s, es)
    ensures Observes(s, es, n, id.device)
    ensures forall m | n < m < |es| :: !Observes(s, es, m, id.device)
    ensures Run(s, es[..n]).now + s.ttl <= Run(s, es).now
    ensures var dev := DeviceOf(Run(s, es), id.device);
      Step(Run(s, es), LeaseFires(id)) == Run(s, es).(devices := Run(s, es).devices[id.device :=
        Device(dev.conns, false, Run(s, es[..n]).now, dev.gen, None)])
  {
    RunKeepsInv(s, es);
    TtlIsFixed(s, es);
    assert LeaseOk(Run(s, es), id.device);
    n := OnlineSinceLatestObservation(s, es, id.device);
  }

  // ---------------------------------------------------------------------------
  // When a device is online
  // ---------------------------------------------------------------------------

  /** An observation puts its device online at once: last seen now, with a lease due one TTL from now, and a
      connection more if it was one. No other device is touched. */
  lemma ObservationPutsOnline(s: State, d: string)
    requires !s.closed
    ensures var dev, dev' := DeviceOf(s, d), DeviceOf(Step(s, Heartbeat(d)), d);
      dev'.online && dev'.lastSeen == s.now && dev'.lease == Some(s.now + s.ttl) && dev'.conns == dev.conns
    ensures var dev, dev' := DeviceOf(s, d), DeviceOf(Step(s, Established(d)), d);
      dev'.online && dev'.lastSeen == s.now && dev'.lease == Some(s.now + s.ttl) && dev'.conns == dev.conns + 1
    ensures forall x: string | x != d ::
      DeviceOf(Step(s, Heartbeat(d)), x) == DeviceOf(s, x) == DeviceOf(Step(s, Established(d)), x)
  {
  }

  /** A loss takes its device offline exactly when it was the last connection of an online device, and then
      the loss is the last time it was seen; otherwise it takes a connection off, if there is one, and
      leaves the facts alone. */
  lemma LastLossIsLastSeen(s: State, d: string)
    requires !s.closed
    ensures var dev, dev' := DeviceOf(s, d), DeviceOf(Step(s, Lost(d)), d);
      && dev'.conns == (if dev.conns == 0 then 0 else dev.conns - 1)
      && (dev.online && dev.conns == 1 ==> !dev'.online && dev'.lastSeen == s.now && dev'.lease == None)
      && (!(dev.online && dev.conns == 1) ==> dev' == dev.(conns := dev'.conns))
  {
  }

  /** In every run, the fire of a live lease that has come due takes its device offline and leaves last-seen
      at the observation. */
  lemma DueLeaseTakesOffline(s: State, es: seq<Event>, d: string)
    requires Fresh(s) && !Run(s, es).closed && DeviceOf(Run(s, es), d).online
    requires Run(s, es).now >= DeviceOf(Run(s, es), d).lastSeen + Run(s, es).ttl
    ensures var dev := DeviceOf(Run(s, es), d);
      DeviceOf(Step(Run(s, es), LeaseFires(LeaseId(d, dev.gen))), d) == dev.(online := false, lease := None)
  {
    RunKeepsInv(s, es);
    assert LeaseOk(Run(s, es), d);
  }

  /** The two ways down: the loss of the last connection, and a full TTL since the latest observation coming
      to its lease's attention. */
  predicate TakesDown(s: State, e: Event, d: string) {
    !s.closed &&
    ((e == Lost(d) && DeviceOf(s, d).conns == 1) ||
     (e == LeaseFires(LeaseId(d, DeviceOf(s, d).gen)) && s.now >= DeviceOf(s, d).lastSeen + s.ttl))
  }

  predicate Spared(s: State, es: seq<Event>, m: nat, d: string)
    requires m < |es|
  {
    !TakesDown(Run(s, es[..m]), es[m], d)
  }

  /** Observed at event n and not taken down since. */
  ghost predicate UpSince(s: State, es: seq<Event>, n: nat, d: string) {
    Observes(s, es, n, d) && forall m | n < m < |es| :: Spared(s, es, m, d)
  }

  lemma StepOnOnline(s: State, e: Event, d: string)
    requires Inv(s)
    ensures !s.closed && (e == Heartbeat(d) || e == Established(d)) ==> DeviceOf(Step(s, e), d).online
    ensures s.closed || (e != Heartbeat(d) && e != Established(d)) ==>
      (DeviceOf(Step(s, e), d).online <==> DeviceOf(s, d).online && !TakesDown(s, e, d))
  {
    assert !s.closed ==> LeaseOk(s, d);
  }

  lemma UpOneMore(s: State, es: seq<Event>, n: nat, d: string)
    requires es != [] && n < |es| - 1
    ensures UpSince(s, es, n, d) <==>
      UpSince(s, es[..|es| - 1], n, d) && !TakesDown(Run(s, es[..|es| - 1]), es[|es| - 1], d)
  {
    var init := es[..|es| - 1];
    assert init[..n] == es[..n];
    forall m | n < m < |init| ensures Spared(s, es, m, d) <==> Spared(s, init, m, d) {
      assert init[..m] == es[..m];
    }
    assert Spared(s, es, |init|, d) <==> !TakesDown(Run(s, init), es[|init|], d);
  }

  ghost predicate Up(s: State, es: seq<Event>, d: string) {
    exists n: nat :: UpSince(s, es, n, d)
  }

  lemma UpRecurs(s: State, es: seq<Event>, d: string)
    requires es != []
    ensures var init := es[..|es| - 1];
      Up(s, es, d) <==>
        Observes(s, es, |es| - 1, d) || (Up(s, init, d) && !TakesDown(Run(s, init), es[|es| - 1], d))
  {
    var init := es[..|es| - 1];
    if Observes(s, es, |es| - 1, d) {
      assert UpSince(s, es, |es| - 1, d);
    }
    if n: nat :| UpSince(s, init, n, d) && !TakesDown(Run(s, init), es[|es| - 1], d) {
      UpOneMore(s, es, n, d);
    }
    if n: nat :| UpSince(s, es, n, d) && n != |es| - 1 {
      UpOneMore(s, es, n, d);
    }
  }

  /** In every run a device is online if and only if it was observed at some event and neither lost its last
      connection nor ran out of its lease since. */
  lemma {:induction false} OnlineExactlySinceObserved(s: State, es: seq<Event>, d: string)
    requires Fresh(s)
    ensures DeviceOf(Run(s, es), d).online <==> Up(s, es, d)
  {
    if es != [] {
      var init := es[..|es| - 1];
      OnlineExactlySinceObserved(s, init, d);
      RunKeepsInv(s, init);
      StepOnOnline(Run(s, init), es[|es| - 1], d);
      UpRecurs(s, es, d);
    }
  }

  function Elapsed(es: seq<Event>): nat {
    if es == [] then 0
    else Elapsed(es[..|es| - 1]) + if es[|es| - 1].Tick? then es[|es| - 1].elapsed else 0
  }

  /** No step but the clock's own moves it, and those add up. */
  lemma {:induction false} ClockAddsUp(s: State, es: seq<Event>)
    ensures Run(s, es).now == s.now + Elapsed(es)
  {
    if es != [] { ClockAddsUp(s, es[..|es| - 1]); }
  }

  /** A closed tracker is frozen: whatever still arrives, a device keeps what was known of it, and loses its
      lease exactly when Close comes to end them. */
  lemma {:induction false} CloseFreezes(s: State, es: seq<Event>, d: string)
    ensures var s', dev := Run(Step(s, SetClosed), es), DeviceOf(s, d);
      s'.closed && DeviceOf(s', d) == dev.(lease := if EndLeases in es then None else dev.lease)
  {
    if es != [] {
      CloseFreezes(s, es[..|es| - 1], d);
      assert es == es[..|es| - 1] + [es[|es| - 1]];
    }
  }

  // ---------------------------------------------------------------------------
  // The tracker object
  // ---------------------------------------------------------------------------

  class Tracker {
    const ttl: nat
    var now: Instant
    var devices: map<string, Device>
    var armed: map<LeaseId, Instant>
    var closed: bool

    ghost function Abs(): State
      reads this
    {
      State(now, ttl, devices, armed, closed)
    }

    /** Liveness rows load as facts about the past; nobody loads online. */
    constructor (ttl: nat, now: Instant, lastSeen: map<string, Instant>)
      ensures this.ttl == ttl && this.now == now && Fresh(Abs())
      ensures devices.Keys == lastSeen.Keys
      ensures forall d | d in lastSeen :: devices[d].lastSeen == lastSeen[d]
    {
      this.ttl, this.now, closed := ttl, now, false;
      devices := map d | d in lastSeen :: Device(0, false, lastSeen[d], 0, None);
      armed := map[];
    }

    method MarkAliveLocked(d: string, conns: nat)
      modifies this`devices, this`armed
      ensures Abs() == MarkAlive(old(Abs()), d, conns)
    {
      var dev := if d in devices then devices[d] else UNSEEN;
      dev := dev.(conns := conns, lastSeen := now, gen := dev.gen + 1);
      dev := dev.(lease := None); // endLeaseLocked, before the fresh timer
      dev := dev.(lease := Some(now + ttl));
      armed := armed[LeaseId(d, dev.gen) := now];
      if !dev.online {
        dev := dev.(online := true);
      }
      devices := devices[d := dev];
    }

    method NoteHeartbeat(d: string)
      modifies this`devices, this`armed
      ensures Abs() == ObserveHeartbeat(old(Abs()), d)
    {
      if closed { return; }
      MarkAliveLocked(d, if d in devices then devices[d].conns else 0);
    }

    method NoteEstablished(d: string)
      modifies this`devices, this`armed
      ensures Abs() == ConnectionEstablished(old(Abs()), d)
    {
      if closed { return; }
      MarkAliveLocked(d, 1 + if d in devices then devices[d].conns else 0);
    }

    method NoteLost(d: string)
      modifies this`devices
      ensures Abs() == ConnectionLost(old(Abs()), d)
    {
      if closed || d !in devices || devices[d].conns == 0 { return; }
      var dev := devices[d].(conns := devices[d].conns - 1);
      devices := devices[d := dev];
      if dev.conns > 0 || !dev.online { return; }
      devices := devices[d := dev.(online := false, lastSeen := now, lease := None)];
    }

    method NoteExpiry(id: LeaseId)
      requires id in armed && now >= armed[id] + ttl
      modifies this`devices
      ensures Abs() == Expire(old(Abs()), id)
    {
      if closed || id.device !in devices { return; }
      var dev := devices[id.device];
      if !dev.online || dev.gen != id.gen { return; }
      devices := devices[id.device := dev.(online := false, lease := None)];
    }
  }
}
