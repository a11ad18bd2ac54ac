/** Concurrent appends to the history (internal/history/history.go): one append reads the clock, inserts,
    and sweeps in three more statements, and the steps of different appends interleave. */
module HistoryRaces {
  import opened Envelopes
  import opened StoredTime
  import History

  type Entry = History.Entry

  type WriterId = nat

  /** How far one append, or one opening of the store, has come. `Stamped` has read the clock for its row
      and not inserted it yet; `Counted` remembers the total its SELECT COUNT saw above the cap, from
      which its DELETE computes how many rows to take. */
  datatype Phase = Idle | Stamped(entry: Entry) | Inserted | Expired | Counted(total: nat)

  /** `log` lists every row ever added, in the order of the inserts. */
  datatype State = State(kept: seq<Entry>, log: seq<Entry>, clock: Instant, writers: map<WriterId, Phase>)

  /** `Begin` is the clock reading of an append, and the clock never goes back; then one statement each.
      `Open` starts a sweep without an insert, `Abandon` is a crash. */
  datatype Event =
    | Begin(w: WriterId, entry: Entry)
    | Insert(w: WriterId)
    | Open(w: WriterId)
    | Expire(w: WriterId, cutoff: Instant)
    | Count(w: WriterId)
    | Evict(w: WriterId)
    | Abandon(w: WriterId)

  /** What a run starts from: the cap, the rows a previous process left, and the clock. */
  datatype World = World(maxRows: nat, stored: seq<Entry>, start: Instant)

  function PhaseOf(s: State, w: WriterId): Phase {
    if w in s.writers then s.writers[w] else Idle
  }

  function Moved(s: State, w: WriterId, phase: Phase): State {
    s.(writers := s.writers[w := phase])
  }

  function Step(world: World, s: State, e: Event): State {
    match e
    case Begin(w, entry) =>
      if PhaseOf(s, w).Idle? && entry.stored >= s.clock
      then Moved(s, w, Stamped(entry)).(clock := entry.stored) else s
    case Insert(w) =>
      if !PhaseOf(s, w).Stamped? then s
      else if History.Holds(s.kept, PhaseOf(s, w).entry.message.id) then Moved(s, w, Inserted)
      else Moved(s, w, Inserted).(kept := s.kept + [PhaseOf(s, w).entry], log := s.log + [PhaseOf(s, w).entry])
    case Open(w) => if PhaseOf(s, w).Idle? then Moved(s, w, Inserted) else s
    case Expire(w, cutoff) =>
      if PhaseOf(s, w).Inserted? then Moved(s, w, Expired).(kept := History.Younger(s.kept, cutoff)) else s
    case Count(w) =>
      if !PhaseOf(s, w).Expired? then s
      else if |s.kept| <= world.maxRows then Moved(s, w, Idle)
      else Moved(s, w, Counted(|s.kept|))
    case Evict(w) =>
      if PhaseOf(s, w).Counted?
      then Moved(s, w, Idle).(kept := History.DropOldest(s.kept, PhaseOf(s, w).total - world.maxRows)) else s
    case Abandon(w) => Moved(s, w, Idle)
  }

  function Run(world: World, es: seq<Event>): State {
    if es == [] then State(world.stored, world.stored, world.start, map[])
    else Step(world, Run(world, es[..|es| - 1]), es[|es| - 1])
  }

  function Size(world: World, es: seq<Event>, n: nat): nat
    requires n <= |es|
  {
    |Run(world, es[..n]).kept|
  }

  // ---------------------------------------------------------------------------
  // The statements on the table of texts
  // ---------------------------------------------------------------------------

  /** What the statement does to the rows as they are stored. */
  function Statement(layout: History.Layout, world: World, rows: seq<History.Row>, phase: Phase, e: Event)
    : seq<History.Row>
  {
    if e.Insert? && phase.Stamped? then History.Insert(rows, History.RowOf(layout, phase.entry))
    else if e.Expire? && phase.Inserted? then History.Unexpired(layout, rows, layout.text(e.cutoff))
    else if e.Evict? && phase.Counted? then History.DropOldest(rows, phase.total - world.maxRows)
    else rows
  }

  lemma InsertOnText(layout: History.Layout, kept: seq<Entry>, e: Entry)
    ensures History.Insert(History.Rows(layout, kept), History.RowOf(layout, e))
         == History.Rows(layout, if History.Holds(kept, e.message.id) then kept else kept + [e])
  {
    History.KnownIsHeld(layout, kept, e.message.id);
    History.RowsOneMore(layout, kept, e);
  }

  lemma KeptAfter(world: World, s: State, e: Event)
    ensures var phase := PhaseOf(s, e.w);
      Step(world, s, e).kept ==
        if e.Insert? && phase.Stamped? then
          if History.Holds(s.kept, phase.entry.message.id) then s.kept else s.kept + [phase.entry]
        else if e.Expire? && phase.Inserted? then History.Younger(s.kept, e.cutoff)
        else if e.Evict? && phase.Counted? then History.DropOldest(s.kept, phase.total - world.maxRows)
        else s.kept
  {
  }

  /** Each statement does to the stored texts what the model does to the entries. */
  lemma StatementsOnText(layout: History.Layout, world: World, s: State, e: Event)
    requires History.Faithful(layout) && History.Dated(s.kept) && (e.Expire? ==> e.cutoff < END)
    ensures Statement(layout, world, History.Rows(layout, s.kept), PhaseOf(s, e.w), e)
         == History.Rows(layout, Step(world, s, e).kept)
  {
    var phase := PhaseOf(s, e.w);
    KeptAfter(world, s, e);
    if e.Insert? && phase.Stamped? {
      InsertOnText(layout, s.kept, phase.entry);
    } else if e.Expire? && phase.Inserted? {
      History.UnexpiredIsYounger(layout, s.kept, e.cutoff);
    } else if e.Evict? && phase.Counted? {
      History.RowsDropOldest(layout, s.kept, phase.total - world.maxRows);
    }
  }

  // ---------------------------------------------------------------------------
  // Rows in, rows out
  // ---------------------------------------------------------------------------

  predicate Deletes(e: Event) {
    e.Expire? || e.Evict?
  }

  /** Rows deleted by events lo..hi-1. */
  function Removed(world: World, es: seq<Event>, lo: nat, hi: nat): int
    requires hi <= |es|
    decreases hi
  {
    if hi <= lo then 0
    else
      var gone := if Deletes(es[hi - 1]) then Size(world, es, hi - 1) - Size(world, es, hi) else 0;
      Removed(world, es, lo, hi - 1) + gone
  }

  /** Rows added by events lo..hi-1. */
  function Added(world: World, es: seq<Event>, lo: nat, hi: nat): int
    requires hi <= |es|
    decreases hi
  {
    if hi <= lo then 0
    else
      var more := if es[hi - 1].Insert? then Size(world, es, hi) - Size(world, es, hi - 1) else 0;
      Added(world, es, lo, hi - 1) + more
  }

  lemma RunOneMore(world: World, es: seq<Event>, n: nat)
    requires n < |es|
    ensures Run(world, es[..n + 1]) == Step(world, Run(world, es[..n]), es[n])
  {
    assert es[..n + 1][..n] == es[..n];
  }

  lemma OtherStatementsKeepTheRows(world: World, s: State, e: Event)
    requires !Deletes(e) && !e.Insert?
    ensures Step(world, s, e).kept == s.kept
  {
  }

  lemma {:induction false} RowsBalance(world: World, es: seq<Event>, lo: nat, hi: nat)
    requires lo <= hi <= |es|
    ensures Size(world, es, hi) == Size(world, es, lo) + Added(world, es, lo, hi) - Removed(world, es, lo, hi)
    decreases hi
  {
    if lo < hi {
      RowsBalance(world, es, lo, hi - 1);
      OneMoreStatement(world, es, lo, hi - 1);
    }
  }

  lemma OneMoreStatement(world: World, es: seq<Event>, lo: nat, n: nat)
    requires lo <= n < |es|
    ensures Added(world, es, lo, n + 1) - Removed(world, es, lo, n + 1)
         == Added(world, es, lo, n) - Removed(world, es, lo, n) + Size(world, es, n + 1) - Size(world, es, n)
  {
    RunOneMore(world, es, n);
    if !Deletes(es[n]) && !es[n].Insert? {
      OtherStatementsKeepTheRows(world, Run(world, es[..n]), es[n]);
    }
  }

  // ---------------------------------------------------------------------------
  // When a size delete leaves fewer rows than the cap
  // ---------------------------------------------------------------------------

  /** Event c is the count that writer w holds when event n comes, and has held since. */
  ghost predicate CountedAt(world: World, es: seq<Event>, w: WriterId, c: nat, n: nat) {
    && c < n <= |es| && es[c] == Count(w)
    && forall j | c < j <= n :: PhaseOf(Run(world, es[..j]), w) == Counted(Size(world, es, c))
  }

  /** Only its own count above the cap brings a writer to the brink of a delete. */
  lemma StepOnPhase(world: World, s: State, e: Event, w: WriterId)
    requires PhaseOf(Step(world, s, e), w).Counted?
    ensures PhaseOf(Step(world, s, e), w) == PhaseOf(s, w) ||
      (e == Count(w) && PhaseOf(Step(world, s, e), w) == Counted(|s.kept|) && |s.kept| > world.maxRows)
  {
  }

  /** A writer about to delete got its total from one count of its own. */
  lemma {:induction false} HoldsACount(world: World, es: seq<Event>, w: WriterId, n: nat) returns (c: nat)
    requires n <= |es| && PhaseOf(Run(world, es[..n]), w).Counted?
    ensures CountedAt(world, es, w, c, n)
    decreases n
  {
    assert n > 0;
    RunOneMore(world, es, n - 1);
    StepOnPhase(world, Run(world, es[..n - 1]), es[n - 1], w);
    if PhaseOf(Run(world, es[..n]), w) == PhaseOf(Run(world, es[..n - 1]), w) {
      c := HoldsACount(world, es, w, n - 1);
      HeldOnceMore(world, es, w, c, n - 1);
    } else {
      c := n - 1;
      JustCounted(world, es, w, c);
    }
  }

  lemma JustCounted(world: World, es: seq<Event>, w: WriterId, c: nat)
    requires c < |es| && es[c] == Count(w)
    requires PhaseOf(Run(world, es[..c + 1]), w) == Counted(Size(world, es, c))
    ensures CountedAt(world, es, w, c, c + 1)
  {
  }

  lemma HeldOnceMore(world: World, es: seq<Event>, w: WriterId, c: nat, n: nat)
    requires n < |es| && CountedAt(world, es, w, c, n)
    requires PhaseOf(Run(world, es[..n + 1]), w) == PhaseOf(Run(world, es[..n]), w)
    ensures CountedAt(world, es, w, c, n + 1)
  {
  }

  lemma CountsAboveTheCap(world: World, es: seq<Event>, w: WriterId, c: nat, n: nat)
    requires CountedAt(world, es, w, c, n)
    ensures Size(world, es, c) > world.maxRows && Size(world, es, c + 1) == Size(world, es, c)
  {
    RunOneMore(world, es, c);
    assert PhaseOf(Run(world, es[..c + 1]), w) == Counted(Size(world, es, c));
    AboveTheCap(world, es, w, c + 1);
  }

  lemma {:induction false} AboveTheCap(world: World, es: seq<Event>, w: WriterId, n: nat)
    requires n <= |es| && PhaseOf(Run(world, es[..n]), w).Counted?
    ensures PhaseOf(Run(world, es[..n]), w).total > world.maxRows
    decreases n
  {
    assert n > 0;
    RunOneMore(world, es, n - 1);
    StepOnPhase(world, Run(world, es[..n - 1]), es[n - 1], w);
    if PhaseOf(Run(world, es[..n]), w) == PhaseOf(Run(world, es[..n - 1]), w) {
      AboveTheCap(world, es, w, n - 1);
    }
  }

  /** In every run, a size delete is preceded by its writer's own count; it leaves fewer rows than the
      cap if and only if, between the two, other statements deleted more rows than they added, and
      exactly the cap if and only if they deleted as many as they added. */
  lemma UndershootsExactlyWhenOthersDeletedMore(world: World, es: seq<Event>, w: WriterId, n: nat) returns (c: nat)
    requires world.maxRows > 0
    requires n < |es| && es[n] == Evict(w) && PhaseOf(Run(world, es[..n]), w).Counted?
    ensures CountedAt(world, es, w, c, n)
    ensures Size(world, es, n + 1) < world.maxRows <==> Removed(world, es, c + 1, n) > Added(world, es, c + 1, n)
    ensures Size(world, es, n + 1) == world.maxRows <==> Removed(world, es, c + 1, n) == Added(world, es, c + 1, n)
  {
    c := HoldsACount(world, es, w, n);
    assert PhaseOf(Run(world, es[..n]), w) == Counted(Size(world, es, c));
    CountsAboveTheCap(world, es, w, c, n);
    RowsBalance(world, es, c + 1, n);
    RunOneMore(world, es, n);
  }

  // ---------------------------------------------------------------------------
  // Appends that do not overlap
  // ---------------------------------------------------------------------------

  predicate Starts(e: Event) {
    e.Begin? || e.Open?
  }

  ghost predicate OthersIdle(s: State, w: WriterId) {
    forall v | v != w :: PhaseOf(s, v).Idle?
  }

  /** A caller that lets every append, and every opening, finish before the next begins. */
  ghost predicate OneAtATime(world: World, es: seq<Event>) {
    forall i | 0 <= i < |es| && Starts(es[i]) :: OthersIdle(Run(world, es[..i]), es[i].w)
  }

  /** At most one writer is under way, and a count it holds is the size of the table. */
  ghost predicate Current(s: State) {
    && (forall v, w | v in s.writers && w in s.writers && !s.writers[v].Idle? && !s.writers[w].Idle? :: v == w)
    && (forall w | w in s.writers && s.writers[w].Counted? :: s.writers[w].total == |s.kept|)
  }

  /** A writer other than the one that moves finds the table as it was, unless it is idle. */
  lemma OthersFindTheTableUnchanged(world: World, s: State, e: Event, w: WriterId)
    requires Current(s) && (Starts(e) ==> OthersIdle(s, e.w)) && w != e.w && !PhaseOf(s, w).Idle?
    ensures Step(world, s, e).kept == s.kept && Step(world, s, e).log == s.log
    ensures !Starts(e) && PhaseOf(Step(world, s, e), w) == PhaseOf(s, w)
  {
    assert e.w in s.writers && !s.writers[e.w].Idle? ==> w == e.w;
  }

  lemma StepKeepsCurrent(world: World, s: State, e: Event)
    requires Current(s) && (Starts(e) ==> OthersIdle(s, e.w))
    ensures Current(Step(world, s, e))
  {
    var s' := Step(world, s, e);
    forall v, w | v in s'.writers && w in s'.writers && !s'.writers[v].Idle? && !s'.writers[w].Idle?
      ensures v == w
    {
      if Starts(e) {
        assert v != e.w ==> PhaseOf(s, v).Idle?;
        assert w != e.w ==> PhaseOf(s, w).Idle?;
      }
    }
    forall w | w in s'.writers && s'.writers[w].Counted? ensures s'.writers[w].total == |s'.kept| {
      if w != e.w {
        OthersFindTheTableUnchanged(world, s, e, w);
      } else {
        StepOnPhase(world, s, e, w);
      }
    }
  }

  lemma SerialPrefix(world: World, es: seq<Event>)
    requires es != [] && OneAtATime(world, es)
    ensures OneAtATime(world, es[..|es| - 1])
    ensures Starts(es[|es| - 1]) ==> OthersIdle(Run(world, es[..|es| - 1]), es[|es| - 1].w)
  {
    var init := es[..|es| - 1];
    forall i | 0 <= i < |init| && Starts(init[i]) ensures OthersIdle(Run(world, init[..i]), init[i].w) {
      assert init[..i] == es[..i];
    }
  }

  lemma {:induction false} RunIsCurrent(world: World, es: seq<Event>)
    requires OneAtATime(world, es)
    ensures Current(Run(world, es))
  {
    if es != [] {
      var init := es[..|es| - 1];
      SerialPrefix(world, es);
      RunIsCurrent(world, init);
      StepKeepsCurrent(world, Run(world, init), es[|es| - 1]);
    }
  }

  /** Appends that do not overlap keep the cap exactly: every size delete leaves the table full. */
  lemma SerialAppendsKeepTheCap(world: World, es: seq<Event>, w: WriterId)
    requires OneAtATime(world, es) && PhaseOf(Run(world, es), w).Counted?
    ensures |Step(world, Run(world, es), Evict(w)).kept| == world.maxRows
  {
    RunIsCurrent(world, es);
    assert es[..|es|] == es;
    AboveTheCap(world, es, w, |es|);
    EvictsToTheCap(world, Run(world, es), w);
  }

  lemma EvictsToTheCap(world: World, s: State, w: WriterId)
    requires PhaseOf(s, w) == Counted(|s.kept|) && |s.kept| > world.maxRows
    ensures |Step(world, s, Evict(w)).kept| == world.maxRows
  {
  }

  function SweepAlone(world: World, s: State, w: WriterId, cutoff: Instant): State {
    Step(world, Step(world, Step(world, s, Expire(w, cutoff)), Count(w)), Evict(w))
  }

  lemma SweepIsRetention(world: World, s: State, w: WriterId, ttl: int, now: Instant)
    requires PhaseOf(s, w).Inserted?
    ensures var s' := SweepAlone(world, s, w, now - ttl);
      && s'.kept == History.Newest(History.Limits(ttl, world.maxRows), s.kept, now)
      && s'.log == s.log && s'.clock == s.clock && PhaseOf(s', w).Idle?
  {
  }

  /** An append, or an opening, that nothing interrupts is the store's serial step, from any state the others
      left: the insert, then both bounds. */
  lemma UninterruptedIsTheSerialStep(world: World, s: State, w: WriterId, e: Entry, ttl: int, now: Instant)
    requires PhaseOf(s, w).Idle? && e.stored >= s.clock
    ensures var s' := SweepAlone(world, Step(world, Step(world, s, Begin(w, e)), Insert(w)), w, now - ttl);
      var serial := History.Swept(History.Limits(ttl, world.maxRows),
                                  History.Inserted(History.Ideal(s.kept, s.log, s.clock, s.clock), e), now);
      s'.kept == serial.kept && s'.log == serial.inserted && PhaseOf(s', w).Idle?
    ensures var s' := SweepAlone(world, Step(world, s, Open(w)), w, now - ttl);
      s'.kept == History.Newest(History.Limits(ttl, world.maxRows), s.kept, now) && s'.log == s.log
  {
    SweepIsRetention(world, Step(world, Step(world, s, Begin(w, e)), Insert(w)), w, ttl, now);
    SweepIsRetention(world, Step(world, s, Open(w)), w, ttl, now);
  }

  // ---------------------------------------------------------------------------
  // Appends that do
  // ---------------------------------------------------------------------------

  /** Two appends, step by step, in lockstep. */
  function Overlapping(a: Entry, b: Entry, cutoff: Instant): seq<Event> {
    [Begin(0, a), Begin(1, b), Insert(0), Insert(1), Expire(0, cutoff), Expire(1, cutoff),
     Count(0), Count(1), Evict(0), Evict(1)]
  }

  ghost predicate BothNew(world: World, a: Entry, b: Entry) {
    && world.start <= a.stored <= b.stored
    && !History.Holds(world.stored, a.message.id) && !History.Holds(world.stored + [a], b.message.id)
  }

  /** Two new rows, stamped in order, and nothing old enough to expire. */
  ghost predicate BothFit(world: World, a: Entry, b: Entry, cutoff: Instant) {
    && BothNew(world, a, b)
    && History.Younger(world.stored + [a] + [b], cutoff) == world.stored + [a] + [b]
  }

  /** Where a run of two writers stands. */
  ghost predicate Two(s: State, kept: seq<Entry>, log: seq<Entry>, clock: Instant, x: Phase, y: Phase) {
    s.kept == kept && s.log == log && s.clock == clock && PhaseOf(s, 0) == x && PhaseOf(s, 1) == y
  }

  lemma BothBegin(world: World, es: seq<Event>, a: Entry, b: Entry)
    requires |es| >= 2 && es[0] == Begin(0, a) && es[1] == Begin(1, b) && world.start <= a.stored <= b.stored
    ensures Two(Run(world, es[..2]), world.stored, world.stored, b.stored, Stamped(a), Stamped(b))
  {
    assert es[..0] == [];
    RunOneMore(world, es, 0);
    RunOneMore(world, es, 1);
  }

  lemma InsertsFirst(world: World, s: State, kept: seq<Entry>, log: seq<Entry>, clock: Instant, a: Entry, y: Phase)
    requires Two(s, kept, log, clock, Stamped(a), y) && !History.Holds(kept, a.message.id)
    ensures Two(Step(world, s, Insert(0)), kept + [a], log + [a], clock, Inserted, y)
  {
  }

  lemma InsertsSecond(world: World, s: State, kept: seq<Entry>, log: seq<Entry>, clock: Instant, x: Phase, b: Entry)
    requires Two(s, kept, log, clock, x, Stamped(b)) && !History.Holds(kept, b.message.id)
    ensures Two(Step(world, s, Insert(1)), kept + [b], log + [b], clock, x, Inserted)
  {
  }

  lemma BothInsert(world: World, es: seq<Event>, a: Entry, b: Entry)
    requires BothNew(world, a, b)
    requires |es| >= 4 && es[0] == Begin(0, a) && es[1] == Begin(1, b) && es[2] == Insert(0) && es[3] == Insert(1)
    ensures var rows := world.stored + [a] + [b];
      Two(Run(world, es[..4]), rows, rows, b.stored, Inserted, Inserted)
  {
    var rows := world.stored;
    BothBegin(world, es, a, b);
    RunOneMore(world, es, 2);
    InsertsFirst(world, Run(world, es[..2]), rows, rows, b.stored, a, Stamped(b));
    RunOneMore(world, es, 3);
    InsertsSecond(world, Run(world, es[..3]), rows + [a], rows + [a], b.stored, Inserted, b);
  }

  lemma BothExpire(world: World, a: Entry, b: Entry, cutoff: Instant)
    requires BothFit(world, a, b, cutoff)
    ensures var rows := world.stored + [a] + [b];
      Two(Run(world, Overlapping(a, b, cutoff)[..6]), rows, rows, b.stored, Expired, Expired)
  {
    var es := Overlapping(a, b, cutoff);
    BothInsert(world, es, a, b);
    RunOneMore(world, es, 4);
    RunOneMore(world, es, 5);
  }

  lemma BothCount(world: World, a: Entry, b: Entry, cutoff: Instant)
    requires BothFit(world, a, b, cutoff) && |world.stored| + 2 > world.maxRows
    ensures var rows, n := world.stored + [a] + [b], |world.stored| + 2;
      Two(Run(world, Overlapping(a, b, cutoff)[..8]), rows, rows, b.stored, Counted(n), Counted(n))
  {
    var es := Overlapping(a, b, cutoff);
    BothExpire(world, a, b, cutoff);
    RunOneMore(world, es, 6);
    RunOneMore(world, es, 7);
  }

  lemma TwoEvict(world: World, s: State, kept: seq<Entry>, log: seq<Entry>, clock: Instant, n: nat)
    requires Two(s, kept, log, clock, Counted(n), Counted(n))
    ensures Step(world, Step(world, s, Evict(0)), Evict(1)).kept
         == History.DropOldest(History.DropOldest(kept, n - world.maxRows), n - world.maxRows)
  {
  }

  lemma BothEvict(world: World, a: Entry, b: Entry, cutoff: Instant)
    requires BothFit(world, a, b, cutoff) && |world.stored| + 2 > world.maxRows
    ensures var excess := |world.stored| + 2 - world.maxRows;
      Run(world, Overlapping(a, b, cutoff)).kept
      == History.DropOldest(History.DropOldest(world.stored + [a] + [b], excess), excess)
  {
    var es, rows := Overlapping(a, b, cutoff), world.stored + [a] + [b];
    BothCount(world, a, b, cutoff);
    EvictTwice(world, es, rows, rows, b.stored, |world.stored| + 2, |world.stored| + 2 - world.maxRows);
  }

  lemma EvictTwice(world: World, es: seq<Event>, kept: seq<Entry>, log: seq<Entry>, clock: Instant, n: nat, excess: int)
    requires excess == n - world.maxRows
    requires |es| >= 2 && es[|es| - 2] == Evict(0) && es[|es| - 1] == Evict(1)
    requires Two(Run(world, es[..|es| - 2]), kept, log, clock, Counted(n), Counted(n))
    ensures Run(world, es).kept == History.DropOldest(History.DropOldest(kept, excess), excess)
  {
    TwoEvict(world, Run(world, es[..|es| - 2]), kept, log, clock, n);
    LastTwo(world, es);
  }

  lemma LastTwo(world: World, es: seq<Event>)
    requires |es| >= 2
    ensures var n := |es| - 2;
      Run(world, es) == Step(world, Step(world, Run(world, es[..n]), es[n]), es[n + 1])
  {
    RunOneMore(world, es, |es| - 2);
    assert es[..|es| - 1] == es[..|es| - 2 + 1];
  }

  /** Overlapping appends evict twice: on a table that was full they leave it two rows short of the cap
      (or empty), although nothing expired and both deletes took exactly what they set out to take
      when the cap is two or more. */
  lemma OverlappingAppendsUndershoot(world: World, a: Entry, b: Entry, cutoff: Instant)
    requires BothFit(world, a, b, cutoff) && 0 < world.maxRows == |world.stored|
    ensures |Run(world, Overlapping(a, b, cutoff)).kept| == if world.maxRows < 2 then 0 else world.maxRows - 2
  {
    BothEvict(world, a, b, cutoff);
  }

  /** The smallest case, from an empty table with room for one: two messages appended by overlapping
      calls, both well within their TTL, leave nothing. */
  lemma TwoAppendsCanLeaveNothing(a: Entry, b: Entry, cutoff: Instant)
    requires a.message.id != b.message.id && cutoff < a.stored <= b.stored
    ensures Run(World(1, [], a.stored), Overlapping(a, b, cutoff)).kept == []
  {
    History.YoungerOneMore([], a, cutoff);
    History.YoungerOneMore([] + [a], b, cutoff);
    BothEvict(World(1, [], a.stored), a, b, cutoff);
  }

  // ---------------------------------------------------------------------------
  // Which insertions the table holds
  // ---------------------------------------------------------------------------

  /** a is b with some rows left out. */
  ghost predicate Within(a: seq<Entry>, b: seq<Entry>) {
    a == [] || (b != [] &&
      (Within(a, b[..|b| - 1]) || (a[|a| - 1] == b[|b| - 1] && Within(a[..|a| - 1], b[..|b| - 1]))))
  }

  lemma WithinItself(a: seq<Entry>)
    ensures Within(a, a)
  {
    if a != [] { WithinItself(a[..|a| - 1]); }
  }

  lemma WithinOneMore(a: seq<Entry>, b: seq<Entry>, e: Entry)
    requires Within(a, b)
    ensures Within(a, b + [e]) && Within(a + [e], b + [e])
  {
    assert (a + [e])[..|a|] == a && (b + [e])[..|b|] == b;
  }

  lemma LastLeftOut(a: seq<Entry>, b: seq<Entry>)
    requires b != [] && Within(a, b[..|b| - 1])
    ensures Within(a, b) && Within(a + [], b) && Within(a + [b[|b| - 1]], b)
  {
    WithinOneMore(a, b[..|b| - 1], b[|b| - 1]);
    assert b == b[..|b| - 1] + [b[|b| - 1]] && a + [] == a;
  }

  lemma {:induction false} YoungerStaysWithin(a: seq<Entry>, b: seq<Entry>, cutoff: Instant)
    requires Within(a, b)
    ensures Within(History.Younger(a, cutoff), b)
    decreases |b|
  {
    if a != [] {
      var init := b[..|b| - 1];
      if Within(a, init) {
        YoungerStaysWithin(a, init, cutoff);
        LastLeftOut(History.Younger(a, cutoff), b);
      } else {
        YoungerStaysWithin(a[..|a| - 1], init, cutoff);
        LastLeftOut(History.Younger(a[..|a| - 1], cutoff), b);
      }
    }
  }

  lemma {:induction false} SuffixStaysWithin(a: seq<Entry>, b: seq<Entry>, k: nat)
    requires Within(a, b) && k <= |a|
    ensures Within(a[k..], b)
    decreases |b|
  {
    if k < |a| {
      var init := b[..|b| - 1];
      if Within(a, init) {
        SuffixStaysWithin(a, init, k);
      } else {
        SuffixStaysWithin(a[..|a| - 1], init, k);
        WithinOneMore(a[..|a| - 1][k..], init, b[|b| - 1]);
        assert b == init + [b[|b| - 1]] && a[k..] == a[..|a| - 1][k..] + [a[|a| - 1]];
      }
    }
  }

  lemma {:induction false} YoungerKeepsIds(es: seq<Entry>, cutoff: Instant)
    requires History.DistinctIds(es)
    ensures History.DistinctIds(History.Younger(es, cutoff))
  {
    if es != [] {
      var init, last := es[..|es| - 1], es[|es| - 1];
      YoungerKeepsIds(init, cutoff);
      YoungerHoldsLess(init, cutoff, last.message.id);
      var live := History.Younger(init, cutoff);
      assert (live + [last])[..|live|] == live && live + [] == live;
    }
  }

  lemma YoungerHoldsLess(es: seq<Entry>, cutoff: Instant, id: string)
    requires !History.Holds(es, id)
    ensures !History.Holds(History.Younger(es, cutoff), id)
  {
    History.YoungerMembers(es, cutoff);
    var live := History.Younger(es, cutoff);
    forall i | 0 <= i < |live| ensures live[i].message.id != id {
      assert live[i] in es;
      var j :| 0 <= j < |es| && es[j] == live[i];
    }
  }

  lemma DropIsSuffix(rows: seq<Entry>, n: int) returns (k: nat)
    ensures k <= |rows| && History.DropOldest(rows, n) == rows[k..]
  {
    k := if n <= 0 then 0 else if n >= |rows| then |rows| else n;
  }

  lemma StepStaysWithin(world: World, s: State, e: Event)
    requires Within(s.kept, s.log) && History.DistinctIds(s.kept)
    ensures var s' := Step(world, s, e);
      Within(s'.kept, s'.log) && History.DistinctIds(s'.kept)
  {
    var phase := PhaseOf(s, e.w);
    if e.Insert? && phase.Stamped? {
      WithinOneMore(s.kept, s.log, phase.entry);
      assert (s.kept + [phase.entry])[..|s.kept|] == s.kept;
    } else if e.Expire? && phase.Inserted? {
      YoungerStaysWithin(s.kept, s.log, e.cutoff);
      YoungerKeepsIds(s.kept, e.cutoff);
    } else if e.Evict? && phase.Counted? {
      var k := DropIsSuffix(s.kept, phase.total - world.maxRows);
      SuffixStaysWithin(s.kept, s.log, k);
      History.SuffixKeepsIds(s.kept, k);
    }
  }

  /** In every interleaving the table is the insertions with some left out, in insertion order, and no
      message ID is in it twice. */
  lemma {:induction false} TableIsWithinTheInsertions(world: World, es: seq<Event>)
    requires History.DistinctIds(world.stored)
    ensures var s := Run(world, es);
      Within(s.kept, s.log) && History.DistinctIds(s.kept)
  {
    if es == [] {
      WithinItself(world.stored);
    } else {
      TableIsWithinTheInsertions(world, es[..|es| - 1]);
      StepStaysWithin(world, Run(world, es[..|es| - 1]), es[|es| - 1]);
    }
  }

  lemma SuffixOfSuffix(a: seq<Entry>, b: seq<Entry>, c: seq<Entry>)
    requires |a| <= |b| && History.IsSuffix(b, c)
    ensures History.IsSuffix(a, c) <==> History.IsSuffix(a, b)
  {
    assert |b| <= |c| && c[|c| - |a|..] == b[|b| - |a|..];
  }

  lemma AscendingSuffix(a: seq<Entry>, b: seq<Entry>)
    requires History.IsSuffix(a, b) && History.NeverBackwards(b)
    ensures History.NeverBackwards(a)
  {
    var k := |b| - |a|;
    assert forall i | 0 <= i < |a| :: a[i] == b[k + i];
  }

  lemma {:induction false} YoungerIsShorter(es: seq<Entry>, cutoff: Instant)
    ensures |History.Younger(es, cutoff)| <= |es|
  {
    if es != [] { YoungerIsShorter(es[..|es| - 1], cutoff); }
  }

  lemma ExpireKeepsASuffix(kept: seq<Entry>, log: seq<Entry>, cutoff: Instant)
    requires History.IsSuffix(kept, log) && History.NeverBackwards(log)
    ensures History.IsSuffix(History.Younger(kept, cutoff), log)
  {
    AscendingSuffix(kept, log);
    History.AscendingKeepsSuffixes(kept, cutoff);
    YoungerIsShorter(kept, cutoff);
    SuffixOfSuffix(History.Younger(kept, cutoff), kept, log);
  }

  lemma InsertKeepsASuffix(kept: seq<Entry>, log: seq<Entry>, e: Entry)
    requires History.IsSuffix(kept, log)
    ensures History.IsSuffix(kept + [e], log + [e])
  {
    assert (log + [e])[|log| - |kept|..] == kept + [e];
  }

  lemma StepKeepsASuffix(world: World, s: State, e: Event)
    requires History.IsSuffix(s.kept, s.log) && History.NeverBackwards(s.log)
    ensures History.IsSuffix(Step(world, s, e).kept, Step(world, s, e).log)
  {
    var phase := PhaseOf(s, e.w);
    if e.Insert? && phase.Stamped? {
      InsertKeepsASuffix(s.kept, s.log, phase.entry);
    } else if e.Expire? && phase.Inserted? {
      ExpireKeepsASuffix(s.kept, s.log, e.cutoff);
    } else if e.Evict? && phase.Counted? {
      var k := DropIsSuffix(s.kept, phase.total - world.maxRows);
      assert History.IsSuffix(s.kept[k..], s.kept);
      SuffixOfSuffix(s.kept[k..], s.kept, s.log);
    }
  }

  lemma LogGrows(world: World, s: State, e: Event)
    ensures s.log <= Step(world, s, e).log
  {
  }

  /** While rows are stored in the order of their inserts, every interleaving keeps the table a run of
      the latest insertions. */
  lemma {:induction false} AscendingInsertsKeepASuffix(world: World, es: seq<Event>)
    requires History.NeverBackwards(Run(world, es).log)
    ensures History.IsSuffix(Run(world, es).kept, Run(world, es).log)
  {
    if es == [] {
      assert world.stored[0..] == world.stored;
    } else {
      var s := Run(world, es[..|es| - 1]);
      LogGrows(world, s, es[|es| - 1]);
      assert forall i | 0 <= i < |s.log| :: Run(world, es).log[i] == s.log[i];
      AscendingInsertsKeepASuffix(world, es[..|es| - 1]);
      StepKeepsASuffix(world, s, es[|es| - 1]);
    }
  }

  lemma {:induction false} DistinctEntries(es: seq<Entry>)
    requires History.DistinctIds(es)
    ensures forall x, y | 0 <= x < y < |es| :: es[x] != es[y]
  {
    if es != [] {
      var init, last := es[..|es| - 1], es[|es| - 1];
      DistinctEntries(init);
      forall x | 0 <= x < |init| ensures es[x] != last {
        assert init[x].message.id != last.message.id;
      }
    }
  }

  ghost predicate SuffixUnderEveryExpiry(kept: seq<Entry>, log: seq<Entry>) {
    forall cutoff: Instant :: History.IsSuffix(History.Younger(kept, cutoff), log)
  }

  /** In every interleaving, a table that is a run of the latest insertions stays one under every expiry
      if and only if the stored times of its rows ascend in insertion order. */
  lemma ExpiryKeepsTheRunExactlyInOrder(world: World, es: seq<Event>)
    requires History.DistinctIds(world.stored)
    requires History.IsSuffix(Run(world, es).kept, Run(world, es).log)
    ensures SuffixUnderEveryExpiry(Run(world, es).kept, Run(world, es).log)
       <==> History.NeverBackwards(Run(world, es).kept)
  {
    var s := Run(world, es);
    TableIsWithinTheInsertions(world, es);
    DistinctEntries(s.kept);
    History.ExpiryKeepsARunExactlyInOrder(s.kept);
    forall cutoff: Instant
      ensures History.IsSuffix(History.Younger(s.kept, cutoff), s.log)
         <==> History.IsSuffix(History.Younger(s.kept, cutoff), s.kept)
    {
      YoungerIsShorter(s.kept, cutoff);
      SuffixOfSuffix(History.Younger(s.kept, cutoff), s.kept, s.log);
    }
  }

  // ---------------------------------------------------------------------------
  // Stamps and inserts out of order
  // ---------------------------------------------------------------------------

  /** All rows are stored in order and no later than the clock; a row about to be inserted is the latest. */
  ghost predicate InStep(s: State) {
    && History.NeverBackwards(s.log) && (forall e | e in s.log :: e.stored <= s.clock)
    && (forall w | w in s.writers && s.writers[w].Stamped? :: Follows(s, s.writers[w].entry))
  }

  ghost predicate Follows(s: State, entry: Entry) {
    entry.stored <= s.clock && forall e | e in s.log :: e.stored <= entry.stored
  }

  lemma OneMoreInOrder(log: seq<Entry>, e: Entry)
    requires History.NeverBackwards(log) && forall x | x in log :: x.stored <= e.stored
    ensures History.NeverBackwards(log + [e])
  {
    forall i | 0 <= i < |log| ensures log[i].stored <= e.stored {
      assert log[i] in log;
    }
  }

  lemma InsertKeepsInStep(s: State, w: WriterId, entry: Entry, s': State)
    requires InStep(s) && Follows(s, entry) && s'.clock == s.clock && s'.log == s.log + [entry]
    requires forall v | v in s'.writers :: !s'.writers[v].Stamped?
    ensures InStep(s')
  {
    OneMoreInOrder(s.log, entry);
  }

  /** Where the log stays as it is: only the clock may have moved, or one writer's stamp been taken. */
  lemma SameLogKeepsInStep(s: State, s': State)
    requires InStep(s) && s'.log == s.log && s'.clock >= s.clock
    requires forall v | v in s'.writers && s'.writers[v].Stamped? ::
      (v in s.writers && s.writers[v] == s'.writers[v]) || s'.writers[v].entry.stored == s'.clock
    ensures InStep(s')
  {
    forall v | v in s'.writers && s'.writers[v].Stamped? ensures Follows(s', s'.writers[v].entry) {
      if v in s.writers && s.writers[v] == s'.writers[v] {
        assert Follows(s, s.writers[v].entry);
      }
    }
  }

  lemma OthersAreIdle(s: State, w: WriterId)
    requires Current(s) && !PhaseOf(s, w).Idle?
    ensures OthersIdle(s, w)
  {
  }

  lemma StepKeepsInStep(world: World, s: State, e: Event)
    requires Current(s) && InStep(s)
    ensures InStep(Step(world, s, e))
  {
    var s', phase := Step(world, s, e), PhaseOf(s, e.w);
    if e.Insert? && phase.Stamped? && s'.log != s.log {
      assert Follows(s, phase.entry);
      OthersAreIdle(s, e.w);
      assert forall v | v in s'.writers && v != e.w :: PhaseOf(s, v) == s'.writers[v];
      InsertKeepsInStep(s, e.w, phase.entry, s');
    } else {
      SameLogKeepsInStep(s, s');
    }
  }

  ghost predicate StoredInStep(world: World) {
    History.NeverBackwards(world.stored) && forall e | e in world.stored :: e.stored <= world.start
  }

  lemma {:induction false} SerialRunIsInStep(world: World, es: seq<Event>)
    requires StoredInStep(world) && OneAtATime(world, es)
    ensures Current(Run(world, es)) && InStep(Run(world, es))
  {
    RunIsCurrent(world, es);
    if es != [] {
      var init := es[..|es| - 1];
      SerialPrefix(world, es);
      SerialRunIsInStep(world, init);
      StepKeepsInStep(world, Run(world, init), es[|es| - 1]);
    }
  }

  /** Appends that do not overlap store in order, and so keep the table a run of the latest insertions. */
  lemma SerialAppendsKeepARun(world: World, es: seq<Event>)
    requires StoredInStep(world) && OneAtATime(world, es)
    ensures var s := Run(world, es);
      History.NeverBackwards(s.log) && History.IsSuffix(s.kept, s.log)
  {
    SerialRunIsInStep(world, es);
    AscendingInsertsKeepASuffix(world, es);
  }

  /** Appends that overlap need not, although the clock never goes back: the first to read it inserts
      last, and expires first. */
  function Overtaken(a: Entry, b: Entry): seq<Event> {
    [Begin(0, a), Begin(1, b), Insert(1), Insert(0), Expire(0, a.stored)]
  }

  lemma OvertakenInserts(a: Entry, b: Entry)
    requires a.stored < b.stored && a.message.id != b.message.id
    ensures Two(Run(World(2, [], a.stored), Overtaken(a, b)[..4]), [b] + [a], [b] + [a], b.stored, Inserted, Inserted)
  {
    var world, es := World(2, [], a.stored), Overtaken(a, b);
    BothBegin(world, es, a, b);
    RunOneMore(world, es, 2);
    InsertsSecond(world, Run(world, es[..2]), [], [], b.stored, Stamped(a), b);
    assert [] + [b] == [b];
    RunOneMore(world, es, 3);
    InsertsFirst(world, Run(world, es[..3]), [b], [b], b.stored, a, Inserted);
  }

  lemma OlderExpiresFirst(a: Entry, b: Entry)
    requires a.stored < b.stored
    ensures History.Younger([b] + [a], a.stored) == [b]
  {
    History.YoungerOneMore([], b, a.stored);
    History.YoungerOneMore([b], a, a.stored);
    assert [] + [b] == [b];
  }

  lemma OvertakenAppendLeavesAHole(a: Entry, b: Entry)
    requires a.stored < b.stored && a.message.id != b.message.id
    ensures var s := Run(World(2, [], a.stored), Overtaken(a, b));
      s.log == [b, a] && s.kept == [b] && !History.IsSuffix(s.kept, s.log)
  {
    var es := Overtaken(a, b);
    OvertakenInserts(a, b);
    RunOneMore(World(2, [], a.stored), es, 4);
    OlderExpiresFirst(a, b);
    assert es[..5] == es;
    assert [b] + [a] == [b, a] && [b, a][1..] == [a];
    assert [b][0] != [a][0];
  }
}
