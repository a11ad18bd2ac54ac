/** TTL expiry in the offline queue: one watcher goroutine, one timer, a one-slot wake channel and
    the mutex, interleaved with enqueues and acknowledgements (queue.go's watch, sweep,
    rearmLocked and nudge). */
module ExpiryWatcher {
  import opened Basics
  import opened Envelopes

  type RowId = nat

  /** The timer object q.timer points at: its identity, the instant it is armed for, and whether a
      fire sits unread in its channel. */
  datatype Timer = Timer(id: nat, due: Option<Instant>, fired: bool)

  /** rearmLocked in three steps: the SELECT MIN, the arming, the nudge. `Inserted` is an enqueue
      between its commit and its rearmLocked call. */
  datatype Rearm = Inserted | Selected(earliest: Option<Instant>) | Nudging

  /** q.mu: free, or held by an enqueue, or held by the sweep's closing rearm. */
  datatype Lock = Free | Enqueuer(at: Rearm) | Sweeper(at: Rearm)

  /** The watcher: at the top of its loop, parked on a timer snapshot, or inside a sweep. */
  datatype Watcher =
    | Top
    | Parked(snapshot: Option<nat>)
    | SweepStart
    | Deleting(due: set<RowId>)
    | WantsLock
    | Rearming

  datatype State = State(
    now: Instant,
    ttl: nat,
    rows: map<RowId, Instant>,
    nextRow: nat,
    timer: Option<Timer>,
    nextTimer: nat,
    wake: bool,
    lock: Lock,
    watcher: Watcher,
    closed: bool)

  /** `keepStale` is the one thing the two clocks do differently: whether a Reset leaves an unread
      fire in the channel. */
  datatype Event =
    | Tick(elapsed: nat)
    | EnqueueCommit
    | AckRemoves(gone: set<RowId>)
    | Select(earliest: Option<Instant>)
    | Arm(keepStale: bool)
    | Nudge
    | TimerFires
    | Snapshot
    | Wake
    | ReceiveFire
    | StaleFire
    | Collect
    | Delete(row: RowId)
    | TakeLock
    | Close

  function Initial(now: Instant, ttl: nat, rows: map<RowId, Instant>, nextRow: nat): State {
    State(now, ttl, rows, nextRow, None, 0, false, Free, SweepStart, false)
  }

  /** What SELECT MIN(enqueued_at) answers. */
  predicate MinIs(rows: map<RowId, Instant>, earliest: Option<Instant>) {
    match earliest
    case None => rows == map[]
    case Some(x) => x in rows.Values && forall r | r in rows :: x <= rows[r]
  }

  function TimerId(s: State): Option<nat> {
    match s.timer
    case None => None
    case Some(t) => Some(t.id)
  }

  function HeldAt(lock: Lock, at: Rearm): Lock
    requires !lock.Free?
  {
    if lock.Enqueuer? then Enqueuer(at) else Sweeper(at)
  }

  /** The arming half of rearmLocked: disarm when nothing is retained, create a timer when there
      was none, reset the one there is otherwise. An overdue deadline fires at once. */
  function Armed(s: State, earliest: Option<Instant>, keepStale: bool): State {
    match earliest
    case None => s.(timer := None)
    case Some(at) =>
      var due := if at + s.ttl < s.now then s.now else at + s.ttl;
      if s.timer.None? then
        s.(timer := Some(Timer(s.nextTimer, Some(due), false)), nextTimer := s.nextTimer + 1)
      else
        s.(timer := Some(Timer(s.timer.value.id, Some(due), s.timer.value.fired && keepStale)))
  }

  /** One atomic step; an event that is not enabled changes nothing. */
  function Step(s: State, e: Event): State {
    match e
    case Tick(d) => s.(now := s.now + d)
    case EnqueueCommit =>
      if s.lock.Free? && !s.closed then
        s.(rows := s.rows[s.nextRow := s.now], nextRow := s.nextRow + 1, lock := Enqueuer(Inserted))
      else s
    case AckRemoves(gone) => if s.lock.Free? && !s.closed then s.(rows := s.rows - gone) else s
    case Select(earliest) =>
      if !s.lock.Free? && s.lock.at.Inserted? && MinIs(s.rows, earliest)
      then s.(lock := HeldAt(s.lock, Selected(earliest))) else s
    case Arm(keepStale) =>
      if !s.lock.Free? && s.lock.at.Selected?
      then Armed(s, s.lock.at.earliest, keepStale).(lock := HeldAt(s.lock, Nudging)) else s
    case Nudge =>
      if !s.lock.Free? && s.lock.at.Nudging? then
        s.(wake := true, lock := Free, watcher := if s.lock.Sweeper? then Top else s.watcher)
      else s
    case TimerFires =>
      if s.timer.Some? && s.timer.value.due.Some? && s.timer.value.due.value <= s.now
      then s.(timer := Some(Timer(s.timer.value.id, None, true))) else s
    case Snapshot =>
      if s.watcher.Top? && s.lock.Free? then s.(watcher := Parked(TimerId(s))) else s
    case Wake => if s.watcher.Parked? && s.wake then s.(wake := false, watcher := Top) else s
    case ReceiveFire =>
      if s.watcher.Parked? && s.timer.Some? && s.watcher.snapshot == TimerId(s) && s.timer.value.fired
      then s.(timer := Some(s.timer.value.(fired := false)), watcher := SweepStart) else s
    case StaleFire =>
      if s.watcher.Parked? && s.watcher.snapshot.Some? && s.watcher.snapshot != TimerId(s)
      then s.(watcher := SweepStart) else s
    case Collect =>
      if s.watcher.SweepStart?
      then s.(watcher := Deleting(set r | r in s.rows && s.rows[r] <= s.now - s.ttl)) else s
    case Delete(r) =>
      if s.watcher.Deleting? && r in s.watcher.due
      then s.(rows := s.rows - {r}, watcher := Deleting(s.watcher.due - {r})) else s
    case TakeLock =>
      if s.watcher == Deleting({}) then s.(watcher := WantsLock)
      else if s.watcher.WantsLock? && s.lock.Free? then s.(watcher := Rearming, lock := Sweeper(Inserted))
      else s
    case Close => if s.lock.Free? then s.(closed := true, timer := None) else s
  }

  function Run(s: State, es: seq<Event>): State {
    if es == [] then s else Step(Run(s, es[..|es| - 1]), es[|es| - 1])
  }

  // ---------------------------------------------------------------------------
  // No lost wake-up
  // ---------------------------------------------------------------------------

  /** The timer will not sleep past any row's deadline: a fire is pending, or it is armed no later
      than the earliest deadline, or for an instant that has already come. */
  ghost predicate TimerCovers(s: State) {
    && s.timer.Some?
    && (s.timer.value.fired ||
        (s.timer.value.due.Some? &&
         (s.timer.value.due.value <= s.now ||
          forall r | r in s.rows :: s.timer.value.due.value <= s.rows[r] + s.ttl)))
  }

  predicate Sweeping(s: State) {
    !s.watcher.Top? && !s.watcher.Parked?
  }

  predicate EnqueueWillRearm(s: State) {
    s.lock.Enqueuer? && !s.lock.at.Nudging?
  }

  /** Retained rows always have something on its way that will look at them. */
  ghost predicate ExpiryCovered(s: State) {
    s.rows != map[] && !s.closed ==>
      TimerCovers(s) || Sweeping(s) || EnqueueWillRearm(s)
  }

  /** A watcher parked on the wrong timer has a wake token waiting, or one about to be sent. */
  ghost predicate ParkedIsCurrent(s: State) {
    s.watcher.Parked? && s.watcher.snapshot != TimerId(s) && !s.closed ==>
      s.wake || (s.lock.Enqueuer? && s.lock.at.Nudging?)
  }

  ghost predicate LockConsistent(s: State) {
    && (s.lock.Sweeper? <==> s.watcher.Rearming?)
    && (!s.lock.Free? && s.lock.at.Selected? ==>
          match s.lock.at.earliest
          case None => s.rows == map[]
          case Some(x) => forall r | r in s.rows :: x <= s.rows[r])
    && (s.lock == Sweeper(Nudging) && s.rows != map[] && !s.closed ==> TimerCovers(s))
  }

  ghost predicate Fresh(s: State) {
    && (forall r | r in s.rows :: r < s.nextRow)
    && (s.timer.Some? ==> s.timer.value.id < s.nextTimer)
    && (s.watcher.Parked? && s.watcher.snapshot.Some? ==> s.watcher.snapshot.value < s.nextTimer)
  }

  ghost predicate Inv(s: State) {
    Fresh(s) && LockConsistent(s) && ExpiryCovered(s) && ParkedIsCurrent(s)
  }

  lemma LockStepKeepsInv(s: State, e: Event)
    requires Inv(s) && (e.Select? || e.Arm? || e.Nudge? || e.TakeLock? || e.EnqueueCommit?)
    ensures Inv(Step(s, e))
  {
  }

  lemma StepKeepsInv(s: State, e: Event)
    requires Inv(s)
    ensures Inv(Step(s, e))
  {
    if e.Select? || e.Arm? || e.Nudge? || e.TakeLock? || e.EnqueueCommit? {
      LockStepKeepsInv(s, e);
    }
  }

  lemma {:induction false} RunKeepsInv(s: State, es: seq<Event>)
    requires Inv(s)
    ensures Inv(Run(s, es))
  {
    if es != [] {
      RunKeepsInv(s, es[..|es| - 1]);
      StepKeepsInv(Run(s, es[..|es| - 1]), es[|es| - 1]);
    }
  }

  /** A queue over any stored rows starts inside its startup sweep. In every interleaving from
      there, retained rows are covered by the timer, a sweep in progress or an enqueue about to
      re-arm; and a parked watcher whose timer snapshot is stale has a wake token coming. */
  lemma NoLostWakeUp(now: Instant, ttl: nat, rows: map<RowId, Instant>, nextRow: nat, es: seq<Event>)
    requires forall r | r in rows :: r < nextRow
    ensures var s := Run(Initial(now, ttl, rows, nextRow), es);
      ExpiryCovered(s) && ParkedIsCurrent(s)
  {
    RunKeepsInv(Initial(now, ttl, rows, nextRow), es);
  }

  // ---------------------------------------------------------------------------
  // Expiry is never stuck
  // ---------------------------------------------------------------------------

  predicate Overdue(s: State, r: RowId) {
    r in s.rows && s.rows[r] + s.ttl <= s.now
  }

  /** The steps the queue takes by itself: no time passes, nobody enqueues or acknowledges. */
  predicate Internal(e: Event) {
    !e.Tick? && !e.EnqueueCommit? && !e.AckRemoves? && !e.Close?
  }

  /** More internal steps than this cannot pass before the overdue row r is deleted: what the lock
      holder, a token and the timer still have to do, and where the watcher stands. Only a sweep that
      collected without r is followed by another one. */
  function Rank(s: State, r: RowId): nat {
    LockRank(s.lock) + (if s.wake then 2 else 0) + (if s.timer.Some? && s.timer.value.due.Some? then 1 else 0)
    + WatcherRank(s, r)
  }

  function LockRank(lock: Lock): nat {
    match lock
    case Free => 0
    case Enqueuer(Inserted) => 6
    case Enqueuer(Selected(_)) => 5
    case Enqueuer(Nudging) => 3
    case Sweeper(Inserted) => 6
    case Sweeper(Selected(_)) => 5
    case Sweeper(Nudging) => 3
  }

  function WatcherRank(s: State, r: RowId): nat {
    var n := |s.rows|;
    match s.watcher
    case Deleting(due) => if r in due then |due| else n + 12 + |due|
    case WantsLock => n + 11
    case Rearming => n + 4
    case Top => n + 3
    case Parked(_) => n + 2
    case SweepStart => n + 1
  }

  lemma {:induction false} MinExists(rows: map<RowId, Instant>) returns (earliest: Option<Instant>)
    ensures MinIs(rows, earliest)
    decreases rows.Keys
  {
    if rows == map[] {
      return None;
    }
    var r :| r in rows;
    var rest := rows - {r};
    assert rest.Keys < rows.Keys;
    var least := MinExists(rest);
    assert rows[r] in rows.Values;
    assert forall q | q in rows :: q == r || q in rest;
    if least.None? || rows[r] < least.value {
      earliest := Some(rows[r]);
    } else {
      earliest := least;
      assert least.value in rows.Values;
    }
  }

  /** Some internal step is enabled: nobody waits for an event that never comes. */
  ghost predicate Moves(s: State, e: Event) {
    Internal(e) && Step(s, e) != s
  }

  lemma LockHolderMoves(s: State) returns (e: Event)
    requires !s.lock.Free?
    ensures Moves(s, e)
  {
    match s.lock.at
    case Inserted => var earliest := MinExists(s.rows); e := Select(earliest);
    case Selected(_) => e := Arm(false);
    case Nudging => e := Nudge;
  }

  lemma SweepMoves(s: State) returns (e: Event)
    requires Inv(s) && s.lock.Free? && Sweeping(s)
    ensures Moves(s, e)
  {
    match s.watcher
    case SweepStart => e := Collect;
    case WantsLock => e := TakeLock;
    case Deleting(due) =>
      if due == {} {
        e := TakeLock;
      } else {
        var x :| x in due;
        e := Delete(x);
        assert x !in due - {x};
      }
  }

  /** The watcher outside a sweep: a waiting token first, then its timer, which covers the row. */
  lemma WatcherMoves(s: State, r: RowId) returns (e: Event)
    requires Inv(s) && !s.closed && Overdue(s, r) && s.lock.Free? && !Sweeping(s)
    ensures Moves(s, e)
  {
    assert TimerCovers(s);
    if s.watcher.Top? {
      e := Snapshot;
    } else if s.wake {
      e := Wake;
    } else if s.timer.value.fired {
      e := ReceiveFire;
    } else {
      e := TimerFires;
    }
  }

  /** With an overdue row in the table, the queue is never at rest. */
  lemma NeverAtRest(s: State, r: RowId) returns (e: Event)
    requires Inv(s) && !s.closed && Overdue(s, r)
    ensures Moves(s, e)
  {
    if !s.lock.Free? {
      e := LockHolderMoves(s);
    } else if Sweeping(s) {
      e := SweepMoves(s);
    } else {
      e := WatcherMoves(s, r);
    }
  }

  // ---------------------------------------------------------------------------
  // Whatever moves, the row comes closer to its deletion
  // ---------------------------------------------------------------------------

  ghost predicate Closer(s: State, s': State, r: RowId) {
    !s'.closed && (r !in s'.rows || (Overdue(s', r) && Rank(s', r) < Rank(s, r)))
  }

  lemma LockMoveIsCloser(s: State, e: Event, r: RowId)
    requires Inv(s) && !s.closed && Overdue(s, r) && Moves(s, e) && (e.Select? || e.Arm? || e.Nudge?)
    ensures Closer(s, Step(s, e), r)
  {
  }

  lemma TimerMoveIsCloser(s: State, e: Event, r: RowId)
    requires Inv(s) && !s.closed && Overdue(s, r) && Moves(s, e)
    requires e.TimerFires? || e.Snapshot? || e.Wake? || e.ReceiveFire? || e.StaleFire? || e.TakeLock?
    ensures Closer(s, Step(s, e), r)
  {
  }

  lemma SubsetSize(small: set<RowId>, big: set<RowId>)
    requires small <= big
    ensures |small| <= |big|
  {
    assert big == small + (big - small);
  }

  lemma CollectIsCloser(s: State, r: RowId)
    requires !s.closed && Overdue(s, r) && s.watcher.SweepStart?
    ensures Closer(s, Step(s, Collect), r)
  {
    SubsetSize((set x | x in s.rows && s.rows[x] <= s.now - s.ttl), s.rows.Keys);
    assert |s.rows.Keys| == |s.rows|;
  }

  lemma DeleteIsCloser(s: State, r: RowId, x: RowId)
    requires !s.closed && Overdue(s, r) && s.watcher.Deleting? && x in s.watcher.due
    ensures Closer(s, Step(s, Delete(x)), r)
  {
    var s' := Step(s, Delete(x));
    assert |s.watcher.due - {x}| == |s.watcher.due| - 1;
    SubsetSize(s'.rows.Keys, s.rows.Keys);
    assert |s.rows.Keys| == |s.rows| && |s'.rows.Keys| == |s'.rows|;
  }

  lemma EveryMoveIsCloser(s: State, e: Event, r: RowId)
    requires Inv(s) && !s.closed && Overdue(s, r) && Moves(s, e)
    ensures Closer(s, Step(s, e), r)
  {
    if e.Select? || e.Arm? || e.Nudge? {
      LockMoveIsCloser(s, e, r);
    } else if e.Collect? {
      CollectIsCloser(s, r);
    } else if e.Delete? {
      DeleteIsCloser(s, r, e.row);
    } else {
      TimerMoveIsCloser(s, e, r);
    }
  }

  /** A run of the queue's own steps, each of them doing something. */
  ghost predicate OwnRun(s: State, es: seq<Event>) {
    forall i | 0 <= i < |es| :: Moves(Run(s, es[..i]), es[i])
  }

  lemma OwnPrefix(s: State, es: seq<Event>)
    requires es != [] && OwnRun(s, es)
    ensures OwnRun(s, es[..|es| - 1]) && Moves(Run(s, es[..|es| - 1]), es[|es| - 1])
  {
    var init := es[..|es| - 1];
    forall i | 0 <= i < |init| ensures Moves(Run(s, init[..i]), init[i]) {
      assert init[..i] == es[..i];
    }
  }

  lemma OwnStepsBringNoRow(s: State, e: Event, r: RowId)
    requires Internal(e) && r !in s.rows
    ensures r !in Step(s, e).rows
  {
  }

  lemma {:induction false} OwnRunComesCloser(s: State, r: RowId, es: seq<Event>)
    requires Inv(s) && !s.closed && Overdue(s, r) && OwnRun(s, es)
    ensures var s' := Run(s, es);
      r !in s'.rows || (Inv(s') && !s'.closed && Overdue(s', r) && Rank(s', r) + |es| <= Rank(s, r))
  {
    if es != [] {
      var init, e := es[..|es| - 1], es[|es| - 1];
      OwnPrefix(s, es);
      OwnRunComesCloser(s, r, init);
      var mid := Run(s, init);
      if r in mid.rows {
        EveryMoveIsCloser(mid, e, r);
        StepKeepsInv(mid, e);
      } else {
        OwnStepsBringNoRow(mid, e, r);
      }
    }
  }

  /** From every reachable open state, whatever internal steps happen and in whatever order, an overdue
      row is gone after Rank of them; and until it is gone, some internal step can happen. */
  lemma OverdueRowIsDeleted(s: State, r: RowId, es: seq<Event>) returns (next: Event)
    requires Inv(s) && !s.closed && Overdue(s, r) && OwnRun(s, es)
    ensures |es| > Rank(s, r) ==> r !in Run(s, es).rows
    ensures r in Run(s, es).rows ==> Moves(Run(s, es), next)
  {
    OwnRunComesCloser(s, r, es);
    next := Collect;
    if r in Run(s, es).rows {
      next := NeverAtRest(Run(s, es), r);
    }
  }

  // ---------------------------------------------------------------------------
  // The queue comes to rest
  // ---------------------------------------------------------------------------

  predicate IsDue(s: State) {
    s.timer.Some? && s.timer.value.due.Some? && s.timer.value.due.value <= s.now
  }

  predicate HasFire(s: State) {
    s.timer.Some? && s.timer.value.fired
  }

  predicate IsStale(s: State) {
    s.watcher.Parked? && s.watcher.snapshot.Some? && s.watcher.snapshot != TimerId(s)
  }

  /** The sweep under way will find an overdue row left when it re-arms. */
  ghost predicate LeavesOverdue(s: State) {
    match s.watcher
    case Deleting(due) => exists r :: Overdue(s, r) && r !in due
    case WantsLock => exists r :: Overdue(s, r)
    case Rearming =>
      (match s.lock
       case Sweeper(Inserted) => exists r :: Overdue(s, r)
       case Sweeper(Selected(earliest)) => earliest.Some? && earliest.value + s.ttl <= s.now
       case _ => false)
    case _ => false
  }

  function One(b: bool): nat {
    if b then 1 else 0
  }

  /** How many more sweeps the present moment can still start: for an unread fire, a timer that is due, a
      stale snapshot, an enqueue about to re-arm (which may bring about the latter two), and a sweep that
      leaves something overdue. */
  ghost function SweepsToCome(s: State): nat {
    One(HasFire(s)) + One(IsDue(s)) + One(IsStale(s)) + One(LeavesOverdue(s))
    + (if s.lock.Enqueuer? && !s.lock.at.Nudging? then 2 else 0)
  }

  /** Steps left in the sweep or the loop turn under way. */
  function StepsInTurn(s: State): nat {
    LockRank(s.lock) + (if s.wake then 2 else 0) + One(IsDue(s)) +
    match s.watcher
    case SweepStart => |s.rows| + 15
    case Deleting(due) => |due| + 14
    case WantsLock => 13
    case Rearming => 5
    case Top => 3
    case Parked(_) => 2
  }

  ghost function RestRank(s: State): nat {
    SweepsToCome(s) * (|s.rows| + 20) + StepsInTurn(s)
  }

  /** A step either starts one of the sweeps to come, or goes on with the turn under way. */
  ghost predicate Winds(s: State, s': State) {
    && |s'.rows| <= |s.rows|
    && ((SweepsToCome(s') < SweepsToCome(s) && StepsInTurn(s') < StepsInTurn(s) + |s.rows| + 20)
        || (SweepsToCome(s') <= SweepsToCome(s) && StepsInTurn(s') < StepsInTurn(s)))
  }

  lemma LessIsLess(a: nat, b: nat, m: nat, n: nat)
    requires a <= b && m <= n
    ensures a * m <= b * n
  {
    assert b * n == b * m + b * (n - m);
    assert b * m == a * m + (b - a) * m;
  }

  lemma WindsDown(s: State, s': State)
    requires Winds(s, s')
    ensures RestRank(s') < RestRank(s)
  {
    var n, n' := |s.rows| + 20, |s'.rows| + 20;
    if SweepsToCome(s') < SweepsToCome(s) {
      LessIsLess(SweepsToCome(s'), SweepsToCome(s) - 1, n', n);
      assert SweepsToCome(s) * n == (SweepsToCome(s) - 1) * n + n;
    } else {
      LessIsLess(SweepsToCome(s'), SweepsToCome(s), n', n);
    }
  }

  lemma SelectWinds(s: State, earliest: Option<Instant>)
    requires Inv(s) && Moves(s, Select(earliest))
    ensures Winds(s, Step(s, Select(earliest)))
  {
    if earliest.Some? && earliest.value + s.ttl <= s.now {
      var r :| r in s.rows && s.rows[r] == earliest.value;
      assert Overdue(s, r);
    }
  }

  lemma ArmWinds(s: State, keepStale: bool)
    requires Inv(s) && !s.closed && Moves(s, Arm(keepStale))
    ensures Winds(s, Step(s, Arm(keepStale)))
  {
  }

  lemma NudgeWinds(s: State)
    requires Inv(s) && Moves(s, Nudge)
    ensures Winds(s, Step(s, Nudge))
  {
    SameOverdue(s, Step(s, Nudge));
  }

  lemma SameOverdue(s: State, s': State)
    requires s'.rows == s.rows && s'.ttl == s.ttl && s'.now == s.now
    ensures forall r :: Overdue(s', r) <==> Overdue(s, r)
  {
  }

  lemma LoopWinds(s: State, e: Event)
    requires Inv(s) && Moves(s, e)
    requires e.TimerFires? || e.Snapshot? || e.Wake? || e.ReceiveFire? || e.StaleFire?
    ensures Winds(s, Step(s, e))
  {
    SameOverdue(s, Step(s, e));
  }

  lemma TakeLockWinds(s: State)
    requires Inv(s) && Moves(s, TakeLock)
    ensures Winds(s, Step(s, TakeLock))
  {
    SameOverdue(s, Step(s, TakeLock));
  }

  lemma CollectWinds(s: State)
    requires Moves(s, Collect)
    ensures Winds(s, Step(s, Collect))
  {
    var s' := Step(s, Collect);
    SubsetSize(s'.watcher.due, s.rows.Keys);
    assert |s.rows.Keys| == |s.rows|;
    assert forall r | Overdue(s', r) :: r in s'.watcher.due;
  }

  lemma DeleteShrinks(s: State, x: RowId)
    requires Moves(s, Delete(x))
    ensures var s' := Step(s, Delete(x));
      |s'.rows| <= |s.rows| && StepsInTurn(s') < StepsInTurn(s)
  {
    var s' := Step(s, Delete(x));
    assert |s.watcher.due - {x}| == |s.watcher.due| - 1;
    SubsetSize(s'.rows.Keys, s.rows.Keys);
    assert |s.rows.Keys| == |s.rows| && |s'.rows.Keys| == |s'.rows|;
  }

  lemma DeleteLeavesNoMore(s: State, x: RowId)
    requires Moves(s, Delete(x))
    ensures LeavesOverdue(Step(s, Delete(x))) ==> LeavesOverdue(s)
  {
    var s' := Step(s, Delete(x));
    if LeavesOverdue(s') {
      var r :| Overdue(s', r) && r !in s'.watcher.due;
      assert Overdue(s, r) && r !in s.watcher.due;
    }
  }

  lemma DeleteWinds(s: State, x: RowId)
    requires Moves(s, Delete(x))
    ensures Winds(s, Step(s, Delete(x)))
  {
    DeleteShrinks(s, x);
    DeleteLeavesNoMore(s, x);
  }

  lemma EveryMoveWindsDown(s: State, e: Event)
    requires Inv(s) && !s.closed && Moves(s, e)
    ensures RestRank(Step(s, e)) < RestRank(s)
  {
    match e
    case Select(earliest) => SelectWinds(s, earliest); WindsDown(s, Step(s, e));
    case Arm(keepStale) => ArmWinds(s, keepStale); WindsDown(s, Step(s, e));
    case Nudge => NudgeWinds(s); WindsDown(s, Step(s, e));
    case Collect => CollectWinds(s); WindsDown(s, Step(s, e));
    case Delete(x) => DeleteWinds(s, x); WindsDown(s, Step(s, e));
    case TakeLock => TakeLockWinds(s); WindsDown(s, Step(s, e));
    case TimerFires => LoopWinds(s, e); WindsDown(s, Step(s, e));
    case Snapshot => LoopWinds(s, e); WindsDown(s, Step(s, e));
    case Wake => LoopWinds(s, e); WindsDown(s, Step(s, e));
    case ReceiveFire => LoopWinds(s, e); WindsDown(s, Step(s, e));
    case StaleFire => LoopWinds(s, e); WindsDown(s, Step(s, e));
  }

  lemma OwnStepsStayOpen(s: State, e: Event)
    requires Internal(e)
    ensures Step(s, e).closed == s.closed
  {
  }

  /** From every reachable open state, at any moment, the queue's own steps come to rest: no run of them, in
      any order, is longer than RestRank. No timer armed too early keeps it spinning. */
  lemma {:induction false} OwnStepsComeToRest(s: State, es: seq<Event>)
    requires Inv(s) && !s.closed && OwnRun(s, es)
    ensures Inv(Run(s, es)) && !Run(s, es).closed
    ensures RestRank(Run(s, es)) + |es| <= RestRank(s)
  {
    if es != [] {
      var init, e := es[..|es| - 1], es[|es| - 1];
      OwnPrefix(s, es);
      OwnStepsComeToRest(s, init);
      EveryMoveWindsDown(Run(s, init), e);
      StepKeepsInv(Run(s, init), e);
      OwnStepsStayOpen(Run(s, init), e);
    }
  }

  // ---------------------------------------------------------------------------
  // Nothing is deleted early
  // ---------------------------------------------------------------------------

  /** Whatever the sweep still means to delete is overdue, if it is there at all. */
  ghost predicate DueIsOverdue(s: State) {
    && Fresh(s)
    && (s.watcher.Deleting? ==> forall r | r in s.watcher.due :: r < s.nextRow && (r in s.rows ==> Overdue(s, r)))
  }

  lemma StepKeepsDueOverdue(s: State, e: Event)
    requires Inv(s) && DueIsOverdue(s)
    ensures DueIsOverdue(Step(s, e))
  {
    StepKeepsInv(s, e);
  }

  lemma {:induction false} RunKeepsDueOverdue(s: State, es: seq<Event>)
    requires Inv(s) && DueIsOverdue(s)
    ensures Inv(Run(s, es)) && DueIsOverdue(Run(s, es))
  {
    RunKeepsInv(s, es);
    if es != [] {
      RunKeepsDueOverdue(s, es[..|es| - 1]);
      StepKeepsDueOverdue(Run(s, es[..|es| - 1]), es[|es| - 1]);
    }
  }

  /** In every run, only an acknowledgement or a sweep takes a row out, and a sweep only once its TTL has
      passed. */
  lemma RowsLeaveByAckOrOverdue(now: Instant, ttl: nat, rows: map<RowId, Instant>, nextRow: nat,
                                es: seq<Event>, e: Event, r: RowId)
    requires forall r | r in rows :: r < nextRow
    requires var s := Run(Initial(now, ttl, rows, nextRow), es);
      r in s.rows && r !in Step(s, e).rows
    ensures var s := Run(Initial(now, ttl, rows, nextRow), es);
      (e.AckRemoves? && r in e.gone) || (e == Delete(r) && s.rows[r] + s.ttl <= s.now)
  {
    RunKeepsDueOverdue(Initial(now, ttl, rows, nextRow), es);
  }

  // ---------------------------------------------------------------------------
  // What is in the table
  // ---------------------------------------------------------------------------

  predicate Commits(s: State, e: Event, r: RowId) {
    e == EnqueueCommit && s.lock.Free? && !s.closed && r == s.nextRow
  }

  predicate Removes(s: State, e: Event, r: RowId) {
    (e.AckRemoves? && r in e.gone && s.lock.Free? && !s.closed)
    || (e == Delete(r) && s.watcher.Deleting? && r in s.watcher.due)
  }

  /** Enqueued at time t by event n - 1, or there at the start if n is 0, and not removed since. */
  ghost predicate HeldSince(s: State, es: seq<Event>, n: nat, r: RowId, t: Instant) {
    && n <= |es|
    && (if n == 0 then r in s.rows && s.rows[r] == t
        else Commits(Run(s, es[..n - 1]), es[n - 1], r) && Run(s, es[..n - 1]).now == t)
    && forall m | n <= m < |es| :: KeptBy(s, es, m, r)
  }

  predicate KeptBy(s: State, es: seq<Event>, m: nat, r: RowId)
    requires m < |es|
  {
    !Removes(Run(s, es[..m]), es[m], r)
  }

  ghost predicate Held(s: State, es: seq<Event>, r: RowId, t: Instant) {
    exists n :: HeldSince(s, es, n, r, t)
  }

  predicate HasRow(s: State, r: RowId, t: Instant) {
    r in s.rows && s.rows[r] == t
  }

  lemma RowStep(s: State, e: Event, r: RowId, t: Instant)
    requires Fresh(s)
    ensures HasRow(Step(s, e), r, t) <==>
      (Commits(s, e, r) && t == s.now) || (HasRow(s, r, t) && !Removes(s, e, r))
  {
  }

  lemma HeldOneMore(s: State, es: seq<Event>, n: nat, r: RowId, t: Instant)
    requires n < |es|
    ensures HeldSince(s, es, n, r, t) <==>
      HeldSince(s, es[..|es| - 1], n, r, t) && KeptBy(s, es, |es| - 1, r)
  {
    var init := es[..|es| - 1];
    assert n > 0 ==> init[..n - 1] == es[..n - 1];
    forall m | n <= m < |init| ensures KeptBy(s, es, m, r) <==> KeptBy(s, init, m, r) {
      assert init[..m] == es[..m];
    }
  }

  lemma HeldRecurs(s: State, es: seq<Event>, r: RowId, t: Instant)
    requires es != []
    ensures var mid, e := Run(s, es[..|es| - 1]), es[|es| - 1];
      Held(s, es, r, t) <==>
        (Commits(mid, e, r) && t == mid.now) || (Held(s, es[..|es| - 1], r, t) && !Removes(mid, e, r))
  {
    var init := es[..|es| - 1];
    if Commits(Run(s, init), es[|init|], r) && t == Run(s, init).now {
      assert HeldSince(s, es, |es|, r, t);
    }
    if n: nat :| HeldSince(s, init, n, r, t) && KeptBy(s, es, |init|, r) {
      HeldOneMore(s, es, n, r, t);
    }
    if n: nat :| HeldSince(s, es, n, r, t) && n != |es| {
      HeldOneMore(s, es, n, r, t);
    }
  }

  /** In every run the table holds exactly the rows that were there at the start or enqueued since, each with
      the time of its enqueue, less those that were acknowledged or swept. */
  lemma {:induction false} TableIsExact(s: State, es: seq<Event>, r: RowId, t: Instant)
    requires Inv(s)
    ensures HasRow(Run(s, es), r, t) <==> Held(s, es, r, t)
  {
    if es == [] {
      assert HasRow(s, r, t) ==> HeldSince(s, es, 0, r, t);
    } else {
      var init := es[..|es| - 1];
      TableIsExact(s, init, r, t);
      RunKeepsInv(s, init);
      RowStep(Run(s, init), es[|es| - 1], r, t);
      HeldRecurs(s, es, r, t);
    }
  }

  function Elapsed(es: seq<Event>): nat {
    if es == [] then 0
    else Elapsed(es[..|es| - 1]) + if es[|es| - 1].Tick? then es[|es| - 1].elapsed else 0
  }

  /** The clock is moved by its own ticks only. */
  lemma {:induction false} ClockAddsUp(s: State, es: seq<Event>)
    ensures Run(s, es).now == s.now + Elapsed(es) && Run(s, es).ttl == s.ttl
  {
    if es != [] { ClockAddsUp(s, es[..|es| - 1]); }
  }

  ghost predicate AtRest(s: State) {
    forall e :: !Moves(s, e)
  }

  lemma OwnStepSparesTheYoung(s: State, e: Event)
    requires DueIsOverdue(s) && Internal(e)
    ensures var s' := Step(s, e);
      s'.now == s.now && s'.ttl == s.ttl
      && (forall r | r in s'.rows :: r in s.rows && s'.rows[r] == s.rows[r])
      && (forall r | r in s.rows :: r in s'.rows || Overdue(s, r))
  {
  }

  lemma {:induction false} OwnRunSparesTheYoung(s: State, es: seq<Event>)
    requires Inv(s) && DueIsOverdue(s) && OwnRun(s, es)
    ensures var s' := Run(s, es);
      s'.now == s.now && s'.ttl == s.ttl
      && (forall r | r in s'.rows :: r in s.rows && s'.rows[r] == s.rows[r])
      && (forall r | r in s.rows :: r in s'.rows || Overdue(s, r))
  {
    if es != [] {
      var init := es[..|es| - 1];
      OwnPrefix(s, es);
      OwnRunSparesTheYoung(s, init);
      RunKeepsDueOverdue(s, init);
      OwnStepSparesTheYoung(Run(s, init), es[|es| - 1]);
    }
  }

  /** From every reachable open state, where the queue's own steps have come to rest they have deleted exactly
      the overdue rows: none too many, and none is left. */
  lemma RestLeavesExactlyTheYoung(now: Instant, ttl: nat, rows: map<RowId, Instant>, nextRow: nat,
                                  before: seq<Event>, own: seq<Event>)
    requires forall r | r in rows :: r < nextRow
    requires var s := Run(Initial(now, ttl, rows, nextRow), before);
      !s.closed && OwnRun(s, own) && AtRest(Run(s, own))
    ensures var s := Run(Initial(now, ttl, rows, nextRow), before);
      Run(s, own).rows == map r | r in s.rows && s.rows[r] + s.ttl > s.now :: s.rows[r]
  {
    var s := Run(Initial(now, ttl, rows, nextRow), before);
    RunKeepsDueOverdue(Initial(now, ttl, rows, nextRow), before);
    var s' := Run(s, own);
    OwnRunSparesTheYoung(s, own);
    OwnStepsComeToRest(s, own);
    forall r | r in s'.rows ensures !Overdue(s', r) {
      if Overdue(s', r) {
        var e := NeverAtRest(s', r);
      }
    }
    assert forall r | r in s'.rows :: s'.rows[r] + s.ttl > s.now;
    assert forall r | r in s.rows && s.rows[r] + s.ttl > s.now :: r in s'.rows;
  }

  lemma {:induction false} ClosedTakesNothingIn(s: State, es: seq<Event>)
    requires s.closed
    ensures Run(s, es).closed && Run(s, es).rows.Keys <= s.rows.Keys && Run(s, es).nextRow == s.nextRow
  {
    if es != [] {
      ClosedTakesNothingIn(s, es[..|es| - 1]);
    }
  }

  /** A close that gets the lock stops the timer, and nothing is enqueued from then on. */
  lemma CloseIsFinal(s: State, es: seq<Event>)
    ensures s.lock.Free? ==>
      var s' := Step(s, Close);
      s'.timer == None && s'.rows == s.rows && Run(s', es).closed && Run(s', es).rows.Keys <= s.rows.Keys
  {
    if s.lock.Free? { ClosedTakesNothingIn(Step(s, Close), es); }
  }

  // ---------------------------------------------------------------------------
  // The timer fields of the queue
  // ---------------------------------------------------------------------------

  class SweepTimer {
    const ttl: nat
    var timer: Option<Timer>
    var created: nat
    var wake: bool

    constructor (ttl: nat)
      ensures this.ttl == ttl && timer == None && created == 0 && !wake
    {
      this.ttl, timer, created, wake := ttl, None, 0, false;
    }

    /** A full one-slot channel swallows the second signal. */
    method Nudge()
      modifies this`wake
      ensures wake
    {
      if !wake {
        wake := true;
      }
    }

    /** rearmLocked as one call, against the arming step and the nudge step of the interleaved
        model, for any surrounding state with these timer fields. */
    method RearmLocked(earliest: Option<Instant>, now: Instant, keepStale: bool, ghost s: State)
      requires s.ttl == ttl && s.now == now && s.timer == timer && s.nextTimer == created
      modifies this`timer, this`created, this`wake
      ensures timer == Armed(s, earliest, keepStale).timer
      ensures created == Armed(s, earliest, keepStale).nextTimer
      ensures wake
      ensures earliest.None? ==> timer == None && created == old(created)
      ensures earliest.Some? ==> timer.Some?
      ensures earliest.Some? ==>
        timer.value.due == Some(if earliest.value + ttl < now then now else earliest.value + ttl)
      ensures earliest.Some? && old(timer).None? ==>
        timer.value.id == old(created) && !timer.value.fired && created == old(created) + 1
      ensures earliest.Some? && old(timer).Some? ==>
        timer.value.id == old(timer).value.id && timer.value.fired == (old(timer).value.fired && keepStale)
        && created == old(created)
    {
      if earliest.None? {
        timer := None;
        Nudge();
        return;
      }
      var delay := earliest.value + ttl - now;
      if delay < 0 {
        delay := 0;
      }
      if timer.None? {
        timer := Some(Timer(created, Some(now + delay), false));
        created := created + 1;
      } else {
        timer := Some(timer.value.(due := Some(now + delay), fired := timer.value.fired && keepStale));
      }
      Nudge();
    }
  }
}
