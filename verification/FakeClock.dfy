/** The fake clock (internal/clock/fake.go): an ordered waiter list compacted in place, and timers
    whose state changes under the same lock. */
module FakeClock {
  import opened Basics
  import opened Envelopes

  type TimerId = nat

  datatype TimerState = Stopped | Pending | Fired

  /** One outstanding wait. `arm` numbers every arming there ever was; `owner` is the timer it
      belongs to, if any. */
  datatype Waiter = Waiter(at: Instant, owner: Option<TimerId>, arm: nat)

  /** `arming` is each timer's latest arming; `fired` and `cancelled` record what became of each arming
      that is no longer waiting. */
  datatype State = State(
    now: Instant,
    waiters: seq<Waiter>,
    timers: map<TimerId, TimerState>,
    nextTimer: nat,
    nextArm: nat,
    arming: map<TimerId, nat>,
    fired: set<nat>,
    cancelled: set<nat>)

  datatype Event =
    | NewTimer(delay: int)
    | Stop(timer: TimerId)
    | Reset(timer: TimerId, after: int)
    | After(wait: int)
    | Until(deadline: Instant)
    | Advance(elapsed: int)

  function Start(now: Instant): State {
    State(now, [], map[], 0, 0, map[], {}, {})
  }

  // ---------------------------------------------------------------------------
  // The list operations
  // ---------------------------------------------------------------------------

  /** The waiters not yet due, in their order. */
  function Kept(ws: seq<Waiter>, now: Instant): seq<Waiter> {
    if ws == [] then []
    else Kept(ws[..|ws| - 1], now) + if ws[|ws| - 1].at > now then [ws[|ws| - 1]] else []
  }

  /** The waiters due, in their order. */
  function Due(ws: seq<Waiter>, now: Instant): seq<Waiter> {
    if ws == [] then []
    else Due(ws[..|ws| - 1], now) + if ws[|ws| - 1].at > now then [] else [ws[|ws| - 1]]
  }

  function DueArms(ws: seq<Waiter>, now: Instant): set<nat> {
    set w | w in ws && w.at <= now :: w.arm
  }

  predicate OwnsDue(ws: seq<Waiter>, now: Instant, t: TimerId) {
    exists w | w in ws :: w.owner == Some(t) && w.at <= now
  }

  function Claim(timers: map<TimerId, TimerState>, ws: seq<Waiter>, now: Instant): map<TimerId, TimerState> {
    map t | t in timers :: if OwnsDue(ws, now, t) then Fired else timers[t]
  }

  /** Where removeWaiter's scan stops: the first waiter of t, or the end. */
  function IndexOf(ws: seq<Waiter>, t: TimerId): (i: nat)
    ensures i <= |ws| && (i < |ws| ==> ws[i].owner == Some(t))
    ensures forall j | 0 <= j < i :: ws[j].owner != Some(t)
  {
    if ws == [] then 0
    else if ws[0].owner == Some(t) then 0
    else
      var i := IndexOf(ws[1..], t);
      assert forall j | 1 <= j < i + 1 :: ws[j] == ws[1..][j - 1];
      i + 1
  }

  function Without(ws: seq<Waiter>, i: nat): seq<Waiter>
    requires i <= |ws|
  {
    if i < |ws| then ws[..i] + ws[i + 1..] else ws
  }

  // ---------------------------------------------------------------------------
  // The operations
  // ---------------------------------------------------------------------------

  /** Arms one wait: at once when the delay is not positive, in the list otherwise. */
  function Arm(s: State, at: Instant, owner: Option<TimerId>): State {
    var numbered := s.(nextArm := s.nextArm + 1,
                       arming := if owner.Some? then s.arming[owner.value := s.nextArm] else s.arming);
    if at <= s.now then
      numbered.(fired := s.fired + {s.nextArm}, timers := WithState(s.timers, owner, Fired))
    else
      numbered.(waiters := s.waiters + [Waiter(at, owner, s.nextArm)], timers := WithState(s.timers, owner, Pending))
  }

  function WithState(timers: map<TimerId, TimerState>, owner: Option<TimerId>, st: TimerState)
    : map<TimerId, TimerState>
  {
    if owner.Some? then timers[owner.value := st] else timers
  }

  /** Takes a pending timer's waiter off the list; its arming will never fire. */
  function Cancel(s: State, t: TimerId): State
    requires t in s.timers
  {
    var i := IndexOf(s.waiters, t);
    s.(waiters := Without(s.waiters, i), timers := s.timers[t := Stopped],
       cancelled := if i < |s.waiters| then s.cancelled + {s.waiters[i].arm} else s.cancelled)
  }

  function Freed(s: State, t: TimerId): State {
    if t in s.timers && s.timers[t].Pending? then Cancel(s, t) else s
  }

  function AdvanceTo(s: State, now: Instant): State {
    s.(now := now, waiters := Kept(s.waiters, now), timers := Claim(s.timers, s.waiters, now),
       fired := s.fired + DueArms(s.waiters, now))
  }

  function Step(s: State, e: Event): State {
    match e
    case NewTimer(d) => Arm(s.(nextTimer := s.nextTimer + 1), s.now + d, Some(s.nextTimer))
    case Stop(t) => Freed(s, t)
    case Reset(t, d) => if t in s.timers then Arm(Freed(s, t), s.now + d, Some(t)) else s
    case After(d) => Arm(s, s.now + d, None)
    case Until(at) => Arm(s, at, None)
    case Advance(d) => AdvanceTo(s, s.now + d)
  }

  function Run(s: State, es: seq<Event>): State {
    if es == [] then s else Step(Run(s, es[..|es| - 1]), es[|es| - 1])
  }

  // ---------------------------------------------------------------------------
  // Invariant
  // ---------------------------------------------------------------------------

  ghost predicate Increasing(ws: seq<Waiter>) {
    forall i, j | 0 <= i < j < |ws| :: ws[i].arm < ws[j].arm
  }

  /** Waiters wait for the future, in the order they were armed, and have neither fired nor been
      cancelled. */
  ghost predicate WaitersOk(s: State) {
    && Increasing(s.waiters)
    && (forall w | w in s.waiters :: w.at > s.now && Unsettled(s, w.arm))
  }

  ghost predicate Unsettled(s: State, arm: nat) {
    arm < s.nextArm && arm !in s.fired && arm !in s.cancelled
  }

  ghost predicate OwnersOk(s: State) {
    OwnersPending(s.waiters, s.timers, s.arming) && PendingWait(s.waiters, s.timers)
  }

  /** A waiter's owner is pending, and the waiter is its latest arming. */
  ghost predicate OwnersPending(ws: seq<Waiter>, timers: map<TimerId, TimerState>, arming: map<TimerId, nat>) {
    forall w | w in ws && w.owner.Some? ::
      && w.owner.value in timers && timers[w.owner.value].Pending?
      && w.owner.value in arming && arming[w.owner.value] == w.arm
  }

  ghost predicate PendingWait(ws: seq<Waiter>, timers: map<TimerId, TimerState>) {
    forall t | t in timers && timers[t].Pending? :: HasWaiter(ws, t)
  }

  ghost predicate HasWaiter(ws: seq<Waiter>, t: TimerId) {
    exists w :: w in ws && w.owner == Some(t)
  }

  ghost predicate RecordOk(s: State) {
    && (forall a | a in s.fired :: a < s.nextArm && a !in s.cancelled)
    && (forall a | a in s.cancelled :: a < s.nextArm)
    && (forall t | t in s.timers :: t < s.nextTimer)
  }

  ghost predicate Inv(s: State) {
    WaitersOk(s) && OwnersOk(s) && RecordOk(s)
  }

  lemma {:induction false} KeptIsExact(ws: seq<Waiter>, now: Instant)
    ensures forall w :: w in Kept(ws, now) <==> w in ws && w.at > now
    ensures Increasing(ws) ==> Increasing(Kept(ws, now))
  {
    if ws != [] {
      var init, last := ws[..|ws| - 1], ws[|ws| - 1];
      KeptIsExact(init, now);
      assert ws == init + [last];
      if Increasing(ws) {
        assert forall w | w in init :: w.arm < last.arm;
      }
    }
  }

  /** An advance splits the list: nothing is lost, duplicated, or on both sides. */
  lemma {:induction false} AdvanceSplitsTheList(ws: seq<Waiter>, now: Instant)
    ensures multiset(ws) == multiset(Kept(ws, now)) + multiset(Due(ws, now))
    ensures forall w | w in Due(ws, now) :: w.at <= now
    ensures forall w | w in Kept(ws, now) :: w.at > now
  {
    if ws != [] {
      var init, last := ws[..|ws| - 1], ws[|ws| - 1];
      AdvanceSplitsTheList(init, now);
      assert ws == init + [last];
      FilterOneMore(init, last, now);
    }
  }

  lemma ClaimOneMore(timers: map<TimerId, TimerState>, ws: seq<Waiter>, w: Waiter, now: Instant)
    ensures var claimed, more := Claim(timers, ws, now), Claim(timers, ws + [w], now);
      more ==
      if w.at <= now && w.owner.Some? && w.owner.value in timers then claimed[w.owner.value := Fired] else claimed
  {
    assert forall x :: x in ws + [w] <==> x in ws || x == w;
    forall t: TimerId
      ensures OwnsDue(ws + [w], now, t) <==> OwnsDue(ws, now, t) || (w.owner == Some(t) && w.at <= now)
    {
      if OwnsDue(ws, now, t) {
        var x :| x in ws && x.owner == Some(t) && x.at <= now;
        assert x in ws + [w];
      }
    }
  }

  lemma FilterOneMore(ws: seq<Waiter>, w: Waiter, now: Instant)
    ensures Kept(ws + [w], now) == Kept(ws, now) + if w.at > now then [w] else []
    ensures Due(ws + [w], now) == Due(ws, now) + if w.at > now then [] else [w]
    ensures DueArms(ws + [w], now) == DueArms(ws, now) + if w.at > now then {} else {w.arm}
  {
    assert (ws + [w])[..|ws|] == ws;
  }

  lemma OwnsNothingElse(ws: seq<Waiter>, timers: map<TimerId, TimerState>, arming: map<TimerId, nat>,
                        now: Instant, w: Waiter)
    requires Increasing(ws) && OwnersPending(ws, timers, arming) && w in ws && w.owner.Some? && w.at > now
    ensures !OwnsDue(ws, now, w.owner.value)
  {
    SameArmSameWaiter(ws);
  }

  lemma AdvanceKeepsOwners(ws: seq<Waiter>, timers: map<TimerId, TimerState>, arming: map<TimerId, nat>, now: Instant)
    requires Increasing(ws) && OwnersPending(ws, timers, arming) && PendingWait(ws, timers)
    ensures var ws', timers' := Kept(ws, now), Claim(timers, ws, now);
      OwnersPending(ws', timers', arming) && PendingWait(ws', timers')
  {
    KeptIsExact(ws, now);
    var ws', timers' := Kept(ws, now), Claim(timers, ws, now);
    forall w | w in ws' && w.owner.Some? ensures w.owner.value in timers' && timers'[w.owner.value].Pending? {
      OwnsNothingElse(ws, timers, arming, now, w);
    }
    forall t | t in timers' && timers'[t].Pending? ensures HasWaiter(ws', t) {
      assert HasWaiter(ws, t);
      var w :| w in ws && w.owner == Some(t);
      assert w in ws';
    }
  }

  lemma AdvanceKeepsWaiters(s: State, now: Instant)
    requires WaitersOk(s) && RecordOk(s)
    ensures WaitersOk(AdvanceTo(s, now)) && RecordOk(AdvanceTo(s, now))
  {
    KeptIsExact(s.waiters, now);
    SameArmSameWaiter(s.waiters);
    var s' := AdvanceTo(s, now);
    forall a | a in s'.fired ensures a < s'.nextArm && a !in s'.cancelled {
      if a !in s.fired {
        var w :| w in s.waiters && w.at <= now && w.arm == a;
        assert Unsettled(s, w.arm);
      }
    }
    forall w | w in s'.waiters ensures w.at > s'.now && Unsettled(s', w.arm) {
      assert Unsettled(s, w.arm);
    }
  }

  lemma AdvanceKeepsInv(s: State, now: Instant)
    requires Inv(s)
    ensures Inv(AdvanceTo(s, now))
  {
    AdvanceKeepsWaiters(s, now);
    AdvanceKeepsOwners(s.waiters, s.timers, s.arming, now);
  }

  lemma SameArmSameWaiter(ws: seq<Waiter>)
    requires Increasing(ws)
    ensures forall x, y | x in ws && y in ws && x.arm == y.arm :: x == y
  {
  }

  ghost predicate MayArm(s: State, owner: Option<TimerId>) {
    owner.Some? ==> owner.value < s.nextTimer && (owner.value in s.timers ==> !s.timers[owner.value].Pending?)
  }

  lemma FireKeepsInv(s: State, at: Instant, owner: Option<TimerId>)
    requires Inv(s) && MayArm(s, owner) && at <= s.now
    ensures Inv(Arm(s, at, owner))
  {
    var s' := Arm(s, at, owner);
    forall w | w in s'.waiters ensures w.at > s'.now && Unsettled(s', w.arm) {
      assert Unsettled(s, w.arm);
    }
  }

  lemma ArmKeepsInv(s: State, at: Instant, owner: Option<TimerId>)
    requires Inv(s) && MayArm(s, owner)
    ensures Inv(Arm(s, at, owner))
  {
    if at > s.now {
      var w := Waiter(at, owner, s.nextArm);
      ListingKeepsWaiters(s, w);
      ListingKeepsOwners(s, w);
    } else {
      FireKeepsInv(s, at, owner);
    }
  }

  lemma ListingKeepsWaiters(s: State, w: Waiter)
    requires Inv(s) && MayArm(s, w.owner) && w.at > s.now && w.arm == s.nextArm
    ensures WaitersOk(Arm(s, w.at, w.owner)) && RecordOk(Arm(s, w.at, w.owner))
  {
    var s' := Arm(s, w.at, w.owner);
    forall x | x in s'.waiters ensures x.at > s'.now && Unsettled(s', x.arm) {
      if x in s.waiters { assert Unsettled(s, x.arm); }
    }
    assert forall x | x in s.waiters :: Unsettled(s, x.arm);
  }

  lemma ListingKeepsOwners(s: State, w: Waiter)
    requires OwnersOk(s) && MayArm(s, w.owner) && w.at > s.now && w.arm == s.nextArm
    ensures OwnersOk(Arm(s, w.at, w.owner))
  {
    var s' := Arm(s, w.at, w.owner);
    assert forall x :: x in s'.waiters <==> x in s.waiters || x == w;
    forall t | t in s'.timers && s'.timers[t].Pending? ensures HasWaiter(s'.waiters, t) {
      if w.owner != Some(t) {
        assert HasWaiter(s.waiters, t);
        var x :| x in s.waiters && x.owner == Some(t);
        assert x in s'.waiters;
      } else {
        assert w in s'.waiters;
      }
    }
  }

  /** A pending timer's waiter is found. */
  lemma PendingIsFound(s: State, t: TimerId)
    requires OwnersOk(s) && t in s.timers && s.timers[t].Pending?
    ensures IndexOf(s.waiters, t) < |s.waiters|
  {
    assert HasWaiter(s.waiters, t);
    var w :| w in s.waiters && w.owner == Some(t);
    var j :| 0 <= j < |s.waiters| && s.waiters[j] == w;
  }

  lemma RemainingWaiters(s: State, s': State, gone: Waiter)
    requires WaitersOk(s) && gone in s.waiters && Increasing(s'.waiters)
    requires forall w | w in s'.waiters :: w in s.waiters && w.arm != gone.arm
    requires s'.now == s.now && s'.nextArm == s.nextArm && s'.fired == s.fired
    requires s'.cancelled == s.cancelled + {gone.arm}
    ensures WaitersOk(s')
  {
    forall w | w in s'.waiters ensures w.at > s'.now && Unsettled(s', w.arm) {
      assert Unsettled(s, w.arm);
    }
  }

  lemma OthersHaveOtherArms(ws: seq<Waiter>, i: nat)
    requires Increasing(ws) && i < |ws|
    ensures Increasing(Without(ws, i))
    ensures forall w | w in Without(ws, i) :: w in ws && w.arm != ws[i].arm
  {
    WithoutIsIncreasing(ws, i);
    WithoutIsExact(ws, i);
    SameArmSameWaiter(ws);
  }

  lemma CancelKeepsRecord(s: State, t: TimerId)
    requires WaitersOk(s) && RecordOk(s) && t in s.timers && IndexOf(s.waiters, t) < |s.waiters|
    ensures RecordOk(Cancel(s, t))
  {
    var gone := s.waiters[IndexOf(s.waiters, t)];
    assert gone in s.waiters && Unsettled(s, gone.arm);
  }

  lemma CancelKeepsWaiters(s: State, t: TimerId)
    requires WaitersOk(s) && t in s.timers && IndexOf(s.waiters, t) < |s.waiters|
    ensures WaitersOk(Cancel(s, t))
  {
    var i := IndexOf(s.waiters, t);
    OthersHaveOtherArms(s.waiters, i);
    RemainingWaiters(s, Cancel(s, t), s.waiters[i]);
  }

  lemma CancelKeepsOwners(s: State, t: TimerId)
    requires Increasing(s.waiters) && OwnersOk(s) && t in s.timers && IndexOf(s.waiters, t) < |s.waiters|
    ensures OwnersOk(Cancel(s, t))
  {
    var i := IndexOf(s.waiters, t);
    OthersHaveOtherArms(s.waiters, i);
    WithoutIsExact(s.waiters, i);
    assert s.waiters[i] in s.waiters;
    var s' := Cancel(s, t);
    forall u | u in s'.timers && s'.timers[u].Pending? ensures HasWaiter(s'.waiters, u) {
      assert HasWaiter(s.waiters, u);
      var x :| x in s.waiters && x.owner == Some(u);
      assert x in s'.waiters;
    }
  }

  lemma CancelKeepsInv(s: State, t: TimerId)
    requires Inv(s) && t in s.timers && s.timers[t].Pending?
    ensures Inv(Cancel(s, t))
    ensures IndexOf(s.waiters, t) < |s.waiters|
  {
    PendingIsFound(s, t);
    CancelKeepsWaiters(s, t);
    CancelKeepsRecord(s, t);
    CancelKeepsOwners(s, t);
  }

  lemma WithoutIsIncreasing(ws: seq<Waiter>, i: nat)
    requires Increasing(ws) && i < |ws|
    ensures Increasing(Without(ws, i))
  {
    var rest := Without(ws, i);
    forall a, b | 0 <= a < b < |rest| ensures rest[a].arm < rest[b].arm {
      assert rest[a] == ws[if a < i then a else a + 1];
      assert rest[b] == ws[if b < i then b else b + 1];
    }
  }

  lemma WithoutIsExact(ws: seq<Waiter>, i: nat)
    requires Increasing(ws) && i < |ws|
    ensures forall w :: w in Without(ws, i) <==> w in ws && w != ws[i]
  {
    assert ws == ws[..i] + [ws[i]] + ws[i + 1..];
    assert forall w | w in ws[..i] :: w.arm < ws[i].arm;
    assert forall w | w in ws[i + 1..] :: ws[i].arm < w.arm;
  }

  lemma FreedKeepsInv(s: State, t: TimerId)
    requires Inv(s)
    ensures Inv(Freed(s, t)) && Freed(s, t).now == s.now
    ensures t in s.timers ==> MayArm(Freed(s, t), Some(t))
  {
    if t in s.timers && s.timers[t].Pending? {
      CancelKeepsInv(s, t);
    }
  }

  lemma ArmsTo(s: State, at: Instant, owner: Option<TimerId>, s': State)
    requires Inv(s) && MayArm(s, owner) && s' == Arm(s, at, owner)
    ensures Inv(s')
  {
    ArmKeepsInv(s, at, owner);
  }

  lemma ResetKeepsInv(s: State, t: TimerId, d: int)
    requires Inv(s) && t in s.timers
    ensures Inv(Step(s, Reset(t, d)))
  {
    FreedKeepsInv(s, t);
    ArmsTo(Freed(s, t), s.now + d, Some(t), Step(s, Reset(t, d)));
  }

  lemma NumberingKeepsInv(s: State, numbered: State)
    requires Inv(s) && numbered == s.(nextTimer := s.nextTimer + 1)
    ensures Inv(numbered) && MayArm(numbered, Some(s.nextTimer))
  {
    forall w | w in numbered.waiters ensures w.at > numbered.now && Unsettled(numbered, w.arm) {
      assert Unsettled(s, w.arm);
    }
  }

  lemma NewTimerKeepsInv(s: State, d: int)
    requires Inv(s)
    ensures Inv(Step(s, NewTimer(d)))
  {
    var numbered := s.(nextTimer := s.nextTimer + 1);
    NumberingKeepsInv(s, numbered);
    ArmsTo(numbered, s.now + d, Some(s.nextTimer), Step(s, NewTimer(d)));
  }

  lemma StepKeepsInv(s: State, e: Event)
    requires Inv(s)
    ensures Inv(Step(s, e))
  {
    match e
    case NewTimer(d) => NewTimerKeepsInv(s, d);
    case Stop(t) => FreedKeepsInv(s, t);
    case Reset(t, d) => if t in s.timers { ResetKeepsInv(s, t, d); }
    case After(d) => ArmKeepsInv(s, s.now + d, None);
    case Until(at) => ArmKeepsInv(s, at, None);
    case Advance(d) => AdvanceKeepsInv(s, s.now + d);
  }

  lemma {:induction false} RunKeepsInv(s: State, es: seq<Event>)
    requires Inv(s)
    ensures Inv(Run(s, es))
  {
    if es != [] {
      RunKeepsInv(s, es[..|es| - 1]);
      StepKeepsInv(Run(s, es[..|es| - 1]), es[|es| - 1]);
    }
  }

  ghost predicate WaitsAt(s: State, t: TimerId, i: nat) {
    i < |s.waiters| && s.waiters[i].owner == Some(t)
  }

  lemma WaiterIsUnique(s: State, t: TimerId, i: nat, j: nat)
    requires Inv(s) && WaitsAt(s, t, i) && WaitsAt(s, t, j)
    ensures i == j
  {
    assert s.waiters[i] in s.waiters && s.waiters[j] in s.waiters;
    assert s.waiters[i].arm == s.waiters[j].arm;
    if i < j {
      assert false;
    } else if j < i {
      assert false;
    }
  }

  lemma PendingMeansWaiting(s: State, t: TimerId)
    requires Inv(s) && t in s.timers
    ensures s.timers[t].Pending? <==> exists i: nat :: WaitsAt(s, t, i)
  {
    if s.timers[t].Pending? {
      assert HasWaiter(s.waiters, t);
      var w :| w in s.waiters && w.owner == Some(t);
      var i :| 0 <= i < |s.waiters| && s.waiters[i] == w;
      assert WaitsAt(s, t, i);
    }
  }

  /** In every reachable state: a timer is pending exactly when one waiter, and only one, has it as
      owner; and every waiter's deadline is strictly in the future. */
  lemma PendingMeansExactlyOneWaiter(now: Instant, es: seq<Event>, t: TimerId)
    requires t in Run(Start(now), es).timers
    ensures var s := Run(Start(now), es);
      && (s.timers[t].Pending? <==> exists i: nat :: WaitsAt(s, t, i))
      && (forall i: nat, j: nat | WaitsAt(s, t, i) && WaitsAt(s, t, j) :: i == j)
      && (forall w | w in s.waiters :: w.at > s.now)
  {
    RunKeepsInv(Start(now), es);
    var s := Run(Start(now), es);
    PendingMeansWaiting(s, t);
    forall i: nat, j: nat | WaitsAt(s, t, i) && WaitsAt(s, t, j) ensures i == j {
      WaiterIsUnique(s, t, i, j);
    }
  }

  lemma {:induction false} CancelledStays(s: State, es: seq<Event>, arm: nat)
    requires arm in s.cancelled
    ensures arm in Run(s, es).cancelled
  {
    if es != [] {
      CancelledStays(s, es[..|es| - 1], arm);
      StepKeepsCancelled(Run(s, es[..|es| - 1]), es[|es| - 1], arm);
    }
  }

  lemma StepKeepsCancelled(s: State, e: Event, arm: nat)
    requires arm in s.cancelled
    ensures arm in Step(s, e).cancelled
  {
  }

  /** A Stop that reports true took a waiter off the list whose arming never fires, whatever follows. */
  lemma StoppedArmingNeverFires(now: Instant, es: seq<Event>, t: TimerId, later: seq<Event>) returns (arm: nat)
    requires var s := Run(Start(now), es);
      t in s.timers && s.timers[t].Pending?
    ensures exists w :: w in Run(Start(now), es).waiters && w.owner == Some(t) && w.arm == arm
    ensures arm !in Run(Step(Run(Start(now), es), Stop(t)), later).fired
  {
    var s := Run(Start(now), es);
    RunKeepsInv(Start(now), es);
    CancelKeepsInv(s, t);
    var w := s.waiters[IndexOf(s.waiters, t)];
    assert w in s.waiters;
    arm := w.arm;
    CancelledStays(Step(s, Stop(t)), later, arm);
    StepKeepsInv(s, Stop(t));
    RunKeepsInv(Step(s, Stop(t)), later);
  }

  // ---------------------------------------------------------------------------
  // When an arming fires
  // ---------------------------------------------------------------------------

  /** The four ways to wait: until when, and for which timer if any. */
  datatype Wait = Wait(at: Instant, owner: Option<TimerId>)

  function WaitOf(s: State, e: Event): Option<Wait> {
    match e
    case NewTimer(d) => Some(Wait(s.now + d, Some(s.nextTimer)))
    case Reset(t, d) => if t in s.timers then Some(Wait(s.now + d, Some(t))) else None
    case After(d) => Some(Wait(s.now + d, None))
    case Until(at) => Some(Wait(at, None))
    case _ => None
  }

  predicate Touches(e: Event, owner: Option<TimerId>) {
    owner.Some? && (e == Stop(owner.value) || (e.Reset? && e.timer == owner.value))
  }

  /** Either the clock has reached the deadline and the wait has fired, or neither. */
  ghost predicate FiredOrWaiting(s: State, w: Waiter, reached: bool) {
    if reached then w.arm in s.fired else w in s.waiters && w.at > s.now && w.arm !in s.fired
  }

  lemma ArmingWaits(s: State, at: Instant, owner: Option<TimerId>)
    requires Inv(s) && MayArm(s, owner)
    ensures FiredOrWaiting(Arm(s, at, owner), Waiter(at, owner, s.nextArm), s.now >= at)
  {
  }

  lemma WaitBegins(s: State, e: Event, w: Wait)
    requires Inv(s) && WaitOf(s, e) == Some(w)
    ensures var s' := Step(s, e);
      && FiredOrWaiting(s', Waiter(w.at, w.owner, s.nextArm), s'.now >= w.at)
      && (w.owner.Some? ==> w.owner.value < s'.nextTimer)
  {
    match e
    case NewTimer(d) =>
      var numbered := s.(nextTimer := s.nextTimer + 1);
      NumberingKeepsInv(s, numbered);
      ArmingWaits(numbered, w.at, w.owner);
    case Reset(t, d) =>
      FreedKeepsInv(s, t);
      ArmingWaits(Freed(s, t), w.at, w.owner);
    case After(d) => ArmingWaits(s, w.at, w.owner);
    case Until(at) => ArmingWaits(s, w.at, w.owner);
  }

  lemma OthersStayListed(s: State, t: TimerId, w: Waiter)
    requires Increasing(s.waiters) && w in s.waiters && w.owner != Some(t)
    ensures w in Freed(s, t).waiters
  {
    var i := IndexOf(s.waiters, t);
    if i < |s.waiters| {
      WithoutIsExact(s.waiters, i);
    }
  }

  lemma FiredStays(s: State, e: Event, arm: nat)
    requires arm in s.fired
    ensures arm in Step(s, e).fired
  {
  }

  lemma AdvanceSettles(s: State, d: int, w: Waiter)
    requires w in s.waiters
    ensures var s' := Step(s, Event.Advance(d));
      if s'.now >= w.at then w.arm in s'.fired else w in s'.waiters
  {
    KeptIsExact(s.waiters, s.now + d);
  }

  lemma OthersStay(s: State, e: Event, w: Waiter)
    requires Increasing(s.waiters) && w in s.waiters && !Touches(e, w.owner) && !e.Advance?
    requires w.owner.Some? ==> w.owner.value < s.nextTimer
    ensures w in Step(s, e).waiters && Step(s, e).now == s.now
  {
    match e
    case Stop(t) => OthersStayListed(s, t, w);
    case Reset(t, d) => OthersStayListed(s, t, w);
    case NewTimer(d) =>
    case After(d) =>
    case Until(at) =>
  }

  lemma ListedWaits(s: State, w: Waiter)
    requires Inv(s) && w in s.waiters
    ensures w.at > s.now && w.arm !in s.fired
  {
    assert Unsettled(s, w.arm);
  }

  lemma WaitGoesOn(s: State, e: Event, w: Waiter)
    requires Inv(s) && w in s.waiters && !Touches(e, w.owner)
    requires w.owner.Some? ==> w.owner.value < s.nextTimer
    ensures FiredOrWaiting(Step(s, e), w, Step(s, e).now >= w.at)
  {
    StepKeepsInv(s, e);
    if e.Advance? {
      AdvanceSettles(s, e.elapsed, w);
    } else {
      OthersStay(s, e, w);
    }
    if w in Step(s, e).waiters {
      ListedWaits(Step(s, e), w);
    }
  }

  /** The clock stood at the deadline or past it at some point. */
  ghost predicate Reached(s: State, es: seq<Event>, at: Instant) {
    exists n: nat :: n <= |es| && Run(s, es[..n]).now >= at
  }

  lemma ReachedRecurs(s: State, es: seq<Event>, at: Instant)
    requires es != []
    ensures Reached(s, es, at) <==> Reached(s, es[..|es| - 1], at) || Run(s, es).now >= at
  {
    var init := es[..|es| - 1];
    assert es[..|es|] == es;
    if n: nat :| n <= |init| && Run(s, init[..n]).now >= at {
      assert init[..n] == es[..n];
    }
    if n: nat :| n <= |es| && Run(s, es[..n]).now >= at && n < |es| {
      assert init[..n] == es[..n];
    }
  }

  lemma NumbersOnlyGrow(s: State, e: Event)
    ensures s.nextTimer <= Step(s, e).nextTimer
  {
  }

  lemma {:induction false} WaitFires(s: State, es: seq<Event>, w: Waiter)
    requires Inv(s) && FiredOrWaiting(s, w, s.now >= w.at) && (w.owner.Some? ==> w.owner.value < s.nextTimer)
    requires forall e | e in es :: !Touches(e, w.owner)
    ensures FiredOrWaiting(Run(s, es), w, Reached(s, es, w.at))
    ensures s.nextTimer <= Run(s, es).nextTimer
  {
    if es == [] {
      assert es[..0] == es;
      assert Reached(s, es, w.at) <==> s.now >= w.at by {
        if s.now >= w.at { assert Run(s, es[..0]).now >= w.at; }
      }
    } else {
      var init, e := es[..|es| - 1], es[|es| - 1];
      WaitFires(s, init, w);
      RunKeepsInv(s, init);
      ReachedRecurs(s, es, w.at);
      NumbersOnlyGrow(Run(s, init), e);
      if Reached(s, init, w.at) {
        FiredStays(Run(s, init), e, w.arm);
      } else {
        WaitGoesOn(Run(s, init), e, w);
      }
    }
  }

  function Elapsed(es: seq<Event>): int {
    if es == [] then 0
    else Elapsed(es[..|es| - 1]) + if es[|es| - 1].Advance? then es[|es| - 1].elapsed else 0
  }

  /** Only Advance moves the clock, and the advances add up. */
  lemma {:induction false} ClockAddsUp(s: State, es: seq<Event>)
    ensures Run(s, es).now == s.now + Elapsed(es)
  {
    if es != [] { ClockAddsUp(s, es[..|es| - 1]); }
  }

  /** In every run, a wait begun by NewTimer, Reset, After or Until fires exactly when the clock reaches its
      deadline, which is its delay after the moment it began (or the instant given), as long as nobody stops
      or resets its timer. */
  lemma FiresExactlyAtItsDeadline(now: Instant, before: seq<Event>, e: Event, w: Wait, es: seq<Event>)
    requires WaitOf(Run(Start(now), before), e) == Some(w)
    requires forall f | f in es :: !Touches(f, w.owner)
    ensures var s := Run(Start(now), before);
      s.nextArm in Run(Step(s, e), es).fired <==> Reached(Step(s, e), es, w.at)
  {
    var s := Run(Start(now), before);
    RunKeepsInv(Start(now), before);
    WaitBegins(s, e, w);
    StepKeepsInv(s, e);
    WaitFires(Step(s, e), es, Waiter(w.at, w.owner, s.nextArm));
  }

  // ---------------------------------------------------------------------------
  // The clock object
  // ---------------------------------------------------------------------------

  /** After i of the waiters: the survivors among them fill the first `kept` slots, the rest of the
      list is untouched. */
  ghost predicate Slid(all: seq<Waiter>, ws: seq<Waiter>, kept: nat, i: nat, now: Instant) {
    && kept <= i <= |ws| == |all|
    && ws[..kept] == Kept(all[..i], now)
    && ws[i..] == all[i..]
  }

  ghost predicate Claimed(
    before: map<TimerId, TimerState>, seen: seq<Waiter>, now: Instant,
    timers: map<TimerId, TimerState>, due: seq<Waiter>, arms: set<nat>)
  {
    timers == Claim(before, seen, now) && due == Due(seen, now) && arms == DueArms(seen, now)
  }

  lemma SlideOne(all: seq<Waiter>, ws: seq<Waiter>, kept: nat, i: nat, now: Instant)
    requires Slid(all, ws, kept, i, now) && i < |ws|
    ensures ws[i] == all[i] && all[..i + 1] == all[..i] + [ws[i]]
    ensures if ws[i].at > now then Slid(all, ws[kept := ws[i]], kept + 1, i + 1, now)
            else Slid(all, ws, kept, i + 1, now)
  {
    var w := ws[i];
    assert w == ws[i..][0] == all[i];
    assert all[..i + 1] == all[..i] + [w];
    FilterOneMore(all[..i], w, now);
    assert ws[i + 1..] == ws[i..][1..] == all[i..][1..] == all[i + 1..];
    if w.at > now {
      var ws' := ws[kept := w];
      assert ws'[..kept + 1] == ws[..kept] + [w];
      assert ws'[i + 1..] == ws[i + 1..];
    }
  }

  lemma ClaimOne(
    before: map<TimerId, TimerState>, seen: seq<Waiter>, w: Waiter, now: Instant,
    timers: map<TimerId, TimerState>, due: seq<Waiter>, arms: set<nat>)
    requires Claimed(before, seen, now, timers, due, arms)
    ensures w.at > now ==> Claimed(before, seen + [w], now, timers, due, arms)
    ensures w.at <= now ==>
      Claimed(before, seen + [w], now,
        if w.owner.Some? && w.owner.value in timers then timers[w.owner.value := Fired] else timers,
        due + [w], arms + {w.arm})
  {
    FilterOneMore(seen, w, now);
    ClaimOneMore(before, seen, w, now);
  }

  class Fake {
    var now: Instant
    var waiters: seq<Waiter>
    var timers: map<TimerId, TimerState>
    var nextTimer: nat
    var nextArm: nat
    ghost var arming: map<TimerId, nat>
    ghost var fired: set<nat>
    ghost var cancelled: set<nat>

    ghost function Abs(): State
      reads this
    {
      State(now, waiters, timers, nextTimer, nextArm, arming, fired, cancelled)
    }

    constructor (start: Instant)
      ensures Abs() == Start(start)
    {
      now, waiters, timers := start, [], map[];
      nextTimer, nextArm, arming, fired, cancelled := 0, 0, map[], {}, {};
    }

    method NewTimer(d: int) returns (t: TimerId)
      modifies this
      ensures Abs() == Step(old(Abs()), Event.NewTimer(d)) && t == old(nextTimer)
    {
      t := nextTimer;
      nextTimer := nextTimer + 1;
      if d <= 0 {
        timers := timers[t := Fired];
        fired := fired + {nextArm};
      } else {
        timers := timers[t := Pending];
        waiters := waiters + [Waiter(now + d, Some(t), nextArm)];
      }
      arming := arming[t := nextArm];
      nextArm := nextArm + 1;
    }

    method After(d: int)
      modifies this`waiters, this`nextArm, this`fired
      ensures Abs() == Step(old(Abs()), Event.After(d))
    {
      if d <= 0 {
        fired := fired + {nextArm};
      } else {
        waiters := waiters + [Waiter(now + d, None, nextArm)];
      }
      nextArm := nextArm + 1;
    }

    method Until(deadline: Instant)
      modifies this`waiters, this`nextArm, this`fired
      ensures Abs() == Step(old(Abs()), Event.Until(deadline))
    {
      if !(deadline > now) {
        fired := fired + {nextArm};
      } else {
        waiters := waiters + [Waiter(deadline, None, nextArm)];
      }
      nextArm := nextArm + 1;
    }

    /** Takes the outstanding waiter of t off the list, the rest keeping their order. */
    method RemoveWaiter(t: TimerId)
      modifies this`waiters, this`cancelled
      ensures var i := IndexOf(old(waiters), t);
        && waiters == Without(old(waiters), i)
        && cancelled == if i < |old(waiters)| then old(cancelled) + {old(waiters)[i].arm} else old(cancelled)
    {
      var i := 0;
      while i < |waiters|
        invariant 0 <= i <= |waiters| && waiters == old(waiters) && cancelled == old(cancelled)
        invariant forall j | 0 <= j < i :: waiters[j].owner != Some(t)
      {
        if waiters[i].owner == Some(t) {
          assert i == IndexOf(waiters, t);
          cancelled := cancelled + {waiters[i].arm};
          waiters := waiters[..i] + waiters[i + 1..];
          return;
        }
        i := i + 1;
      }
    }

    method Stop(t: TimerId) returns (stopped: bool)
      requires t in timers
      modifies this
      ensures Abs() == Step(old(Abs()), Event.Stop(t)) && stopped == old(timers)[t].Pending?
    {
      if !timers[t].Pending? { return false; }
      timers := timers[t := Stopped];
      RemoveWaiter(t);
      stopped := true;
    }

    method Reset(t: TimerId, d: int) returns (wasPending: bool)
      requires t in timers
      modifies this
      ensures Abs() == Step(old(Abs()), Event.Reset(t, d)) && wasPending == old(timers)[t].Pending?
    {
      ghost var freed := Freed(Abs(), t);
      wasPending := timers[t].Pending?;
      if wasPending {
        RemoveWaiter(t);
      }
      assert waiters == freed.waiters && cancelled == freed.cancelled;
      assert timers[t := Fired] == freed.timers[t := Fired] && timers[t := Pending] == freed.timers[t := Pending];
      if d <= 0 {
        timers := timers[t := Fired];
        fired := fired + {nextArm};
      } else {
        timers := timers[t := Pending];
        waiters := waiters + [Waiter(now + d, Some(t), nextArm)];
      }
      arming := arming[t := nextArm];
      nextArm := nextArm + 1;
      assert Abs() == Arm(freed, freed.now + d, Some(t));
    }

    /** In-place compaction: survivors slide to the front of the same list, in order; due waiters are
        claimed on the way. */
    method Compact() returns (due: seq<Waiter>, ghost arms: set<nat>)
      modifies this`waiters, this`timers
      ensures waiters == Kept(old(waiters), now)
      ensures Claimed(old(timers), old(waiters), now, timers, due, arms)
    {
      due, arms := [], {};
      var kept, i := 0, 0;
      ghost var all := waiters;
      while i < |waiters|
        invariant i <= |waiters|
        invariant Slid(all, waiters, kept, i, now)
        invariant Claimed(old(timers), all[..i], now, timers, due, arms)
      {
        var w := waiters[i];
        SlideOne(all, waiters, kept, i, now);
        ClaimOne(old(timers), all[..i], w, now, timers, due, arms);
        if w.at > now {
          waiters := waiters[kept := w];
          kept := kept + 1;
        } else {
          if w.owner.Some? && w.owner.value in timers {
            timers := timers[w.owner.value := Fired];
          }
          due := due + [w];
          arms := arms + {w.arm};
        }
        i := i + 1;
      }
      assert all[..i] == all;
      waiters := waiters[..kept];
    }

    /** Moves the clock, claims what is due, and hands it back for delivery outside the lock. */
    method Advance(d: int) returns (due: seq<Waiter>)
      modifies this`now, this`waiters, this`timers, this`fired
      ensures Abs() == Step(old(Abs()), Event.Advance(d))
      ensures due == Due(old(waiters), now)
    {
      ghost var before := Abs();
      now := now + d;
      ghost var arms;
      due, arms := Compact();
      fired := fired + arms;
      assert Abs() == AdvanceTo(before, now);
    }
  }
}
