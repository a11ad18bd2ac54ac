/** The control socket's subscriber (internal/ctlsocket/server.go): a bounded queue that drops what
    does not fit and counts it, and a pump woken through a one-slot channel. */
module CtlSocket {

  type Line = string

  /** What goes over the socket: an event, or the report of a number of dropped ones. */
  datatype Output = Event(line: Line) | Gap(dropped: nat)

  /** One take: the events it carried, and those that were dropped since the take before. */
  datatype Taken = Taken(batch: seq<Line>, lost: seq<Line>)

  datatype Pump =
    | Parked                          // waiting for the wake signal or the end
    | Woken                           // signal received, about to take
    | Writing(rest: seq<Output>)      // delivering a batch line by line
    | Exited

  /** `unsignalled` counts publishers between filing their event and nudging the pump. `stream`,
      `lost`, `takes` and `written` are history: every event filed, the dropped ones not reported yet,
      every take, and everything the peer was sent. */
  datatype State = State(
    queue: seq<Line>,
    dropped: nat,
    notify: bool,
    unsignalled: nat,
    closed: bool,
    pump: Pump,
    stream: seq<Line>,
    lost: seq<Line>,
    takes: seq<Taken>,
    written: seq<Output>)

  datatype Step =
    | File(line: Line)
    | Nudge
    | Wake
    | Take
    | Write
    | WriteFails
    | Close
    | SeeClosed

  const START: State := State([], 0, false, 0, false, Parked, [], [], [], [])

  /** subscriber.take: the batch, headed by a report of the drops if there were any. */
  function Rendered(batch: seq<Line>, gap: nat): seq<Output> {
    (if gap > 0 then [Gap(gap)] else []) + Events(batch)
  }

  function Events(batch: seq<Line>): seq<Output> {
    if batch == [] then [] else Events(batch[..|batch| - 1]) + [Event(batch[|batch| - 1])]
  }

  function Next(cap: nat, s: State, step: Step): State {
    match step
    case File(line) =>
      if |s.queue| >= cap then
        s.(dropped := s.dropped + 1, lost := s.lost + [line], stream := s.stream + [line],
           unsignalled := s.unsignalled + 1)
      else
        s.(queue := s.queue + [line], stream := s.stream + [line], unsignalled := s.unsignalled + 1)
    case Nudge => if s.unsignalled > 0 then s.(unsignalled := s.unsignalled - 1, notify := true) else s
    case Wake => if s.pump.Parked? && s.notify then s.(notify := false, pump := Woken) else s
    case Take =>
      if s.pump.Woken? then
        s.(pump := Writing(Rendered(s.queue, s.dropped)), takes := s.takes + [Taken(s.queue, s.lost)],
           queue := [], dropped := 0, lost := [])
      else s
    case Write =>
      if !s.pump.Writing? then s
      else if s.pump.rest == [] then
        s.(pump := if s.queue == [] && s.closed then Exited else Parked)
      else s.(written := s.written + [s.pump.rest[0]], pump := Writing(s.pump.rest[1..]))
    case WriteFails => if s.pump.Writing? && s.pump.rest != [] then s.(pump := Exited, closed := true) else s
    case Close => s.(closed := true)
    case SeeClosed => if s.pump.Parked? && s.closed then s.(pump := Exited) else s
  }

  function Run(cap: nat, steps: seq<Step>): State {
    if steps == [] then START else Next(cap, Run(cap, steps[..|steps| - 1]), steps[|steps| - 1])
  }

  // ---------------------------------------------------------------------------
  // Accounting
  // ---------------------------------------------------------------------------

  /** Every take's events followed by the run dropped after them, take after take. */
  function Spliced(takes: seq<Taken>): seq<Line> {
    if takes == [] then []
    else Spliced(takes[..|takes| - 1]) + (takes[|takes| - 1].batch + takes[|takes| - 1].lost)
  }

  /** What the takes put on the wire. */
  function Sent(takes: seq<Taken>): seq<Output> {
    if takes == [] then []
    else Sent(takes[..|takes| - 1]) + Rendered(takes[|takes| - 1].batch, |takes[|takes| - 1].lost|)
  }

  ghost predicate Full(cap: nat, batch: seq<Line>, lost: seq<Line>) {
    |batch| <= cap && (lost != [] ==> |batch| == cap)
  }

  ghost predicate Accounted(cap: nat, s: State) {
    && s.stream == Spliced(s.takes) + (s.queue + s.lost)
    && s.dropped == |s.lost| && Full(cap, s.queue, s.lost)
    && (forall i | 0 <= i < |s.takes| :: Full(cap, s.takes[i].batch, s.takes[i].lost))
  }

  /** Owing anything, the pump has been or will be signalled, or is on its way to take. */
  ghost predicate Signalled(s: State) {
    s.queue != [] || s.dropped > 0 ==> s.notify || s.unsignalled > 0 || s.pump.Woken?
  }

  ghost predicate Delivered(s: State) {
    match s.pump
    case Writing(rest) => s.written + rest == Sent(s.takes)
    case Parked => s.written == Sent(s.takes)
    case Woken => s.written == Sent(s.takes)
    case Exited => s.written <= Sent(s.takes) && s.closed
  }

  ghost predicate Inv(cap: nat, s: State) {
    Accounted(cap, s) && Signalled(s) && Delivered(s)
  }

  lemma TakeOne(takes: seq<Taken>, t: Taken)
    ensures Spliced(takes + [t]) == Spliced(takes) + (t.batch + t.lost)
    ensures Sent(takes + [t]) == Sent(takes) + Rendered(t.batch, |t.lost|)
  {
    assert (takes + [t])[..|takes|] == takes;
  }

  lemma LostGrows(before: seq<Line>, queue: seq<Line>, lost: seq<Line>, line: Line)
    ensures before + (queue + lost) + [line] == before + (queue + (lost + [line]))
  {
  }

  lemma QueueGrows(before: seq<Line>, queue: seq<Line>, line: Line)
    ensures before + (queue + []) + [line] == before + (queue + [line] + [])
  {
  }

  lemma NothingLeft(all: seq<Line>)
    ensures all == all + ([] + [])
  {
  }

  lemma FileKeepsInv(cap: nat, s: State, line: Line)
    requires Inv(cap, s)
    ensures Inv(cap, Next(cap, s, File(line)))
  {
    if |s.queue| >= cap {
      LostGrows(Spliced(s.takes), s.queue, s.lost, line);
    } else {
      assert s.lost == [];
      QueueGrows(Spliced(s.takes), s.queue, line);
    }
  }

  lemma AccountsTake(cap: nat, s: State, s': State)
    requires Accounted(cap, s)
    requires s'.takes == s.takes + [Taken(s.queue, s.lost)] && s'.stream == s.stream
    requires s'.queue == [] && s'.lost == [] && s'.dropped == 0
    ensures Accounted(cap, s')
  {
    TakeOne(s.takes, Taken(s.queue, s.lost));
    NothingLeft(s.stream);
  }

  lemma TakeKeepsInv(cap: nat, s: State)
    requires Inv(cap, s) && s.pump.Woken?
    ensures Inv(cap, Next(cap, s, Take))
  {
    TakeOne(s.takes, Taken(s.queue, s.lost));
    AccountsTake(cap, s, Next(cap, s, Take));
  }

  lemma TakenWith(cap: nat, s: State, batch: seq<Output>) returns (s': State)
    requires Inv(cap, s) && s.pump.Woken? && batch == Rendered(s.queue, s.dropped)
    ensures s' == Next(cap, s, Take) && Inv(cap, s')
    ensures s'.pump == Writing(batch) && s'.queue == [] && s'.dropped == 0 && s'.notify == s.notify
  {
    TakeKeepsInv(cap, s);
    s' := Next(cap, s, Take);
  }

  lemma WriteKeepsInv(cap: nat, s: State)
    requires Inv(cap, s) && s.pump.Writing?
    ensures Delivered(Next(cap, s, Write)) && Delivered(Next(cap, s, WriteFails))
  {
    var rest := s.pump.rest;
    if rest != [] {
      assert s.written + [rest[0]] + rest[1..] == s.written + rest;
      assert s.written <= s.written + rest;
    } else {
      assert s.written + rest == s.written;
      assert s.written <= s.written;
    }
  }

  lemma StepKeepsInv(cap: nat, s: State, step: Step)
    requires Inv(cap, s)
    ensures Inv(cap, Next(cap, s, step))
  {
    match step
    case File(line) => FileKeepsInv(cap, s, line);
    case Nudge =>
    case Wake =>
    case Take => if s.pump.Woken? { TakeKeepsInv(cap, s); }
    case Write => if s.pump.Writing? { WriteKeepsInv(cap, s); }
    case WriteFails => if s.pump.Writing? { WriteKeepsInv(cap, s); }
    case Close =>
    case SeeClosed => assert s.written <= s.written;
  }

  lemma {:induction false} RunKeepsInv(cap: nat, steps: seq<Step>)
    ensures Inv(cap, Run(cap, steps))
  {
    if steps != [] {
      RunKeepsInv(cap, steps[..|steps| - 1]);
      StepKeepsInv(cap, Run(cap, steps[..|steps| - 1]), steps[|steps| - 1]);
    }
  }

  // ---------------------------------------------------------------------------
  // The laws
  // ---------------------------------------------------------------------------

  /** For any interleaving of publishers, takes, writes and shutdowns: the published stream is, take by
      take, the events delivered followed by the run dropped behind them; a batch with a dropped run
      was a full queue; and the queue never outgrows its capacity. */
  lemma StreamIsAccountedFor(cap: nat, steps: seq<Step>)
    ensures var s := Run(cap, steps);
      && s.stream == Spliced(s.takes) + (s.queue + s.lost)
      && |s.queue| <= cap && s.dropped == |s.lost|
      && (forall i | 0 <= i < |s.takes| :: Full(cap, s.takes[i].batch, s.takes[i].lost))
  {
    RunKeepsInv(cap, steps);
  }

  /** What the peer was sent is a prefix of the rendered takes, all of it while the pump is parked. */
  lemma PeerSeesAPrefix(cap: nat, steps: seq<Step>)
    ensures var s := Run(cap, steps);
      && s.written <= Sent(s.takes)
      && (s.pump.Parked? || s.pump.Woken? ==> s.written == Sent(s.takes))
  {
    RunKeepsInv(cap, steps);
    var s := Run(cap, steps);
    if s.pump.Writing? {
      assert Sent(s.takes)[..|s.written|] == s.written;
    } else if !s.pump.Exited? {
      assert s.written[..|s.written|] == s.written;
    }
  }

  /** No lost wake-up: events or drops not taken yet leave a token in the channel, a publisher about to
      put one there, or a pump about to take. */
  lemma {:induction false} NothingIsStranded(cap: nat, steps: seq<Step>)
    ensures var s := Run(cap, steps);
      s.queue != [] || s.dropped > 0 ==> s.notify || s.unsignalled > 0 || s.pump.Woken?
  {
    RunKeepsInv(cap, steps);
  }

  // ---------------------------------------------------------------------------
  // The pump delivers everything
  // ---------------------------------------------------------------------------

  /** Steps that need nobody to publish, close or fail. */
  predicate Own(step: Step) {
    step.Nudge? || step.Wake? || step.Take? || step.Write? || step.SeeClosed?
  }

  function One(b: bool): nat {
    if b then 1 else 0
  }

  function StepsLeft(s: State): nat {
    5 * s.unsignalled + 4 * One(s.notify) + |s.queue| + One(s.dropped > 0) +
    match s.pump
    case Parked => 1
    case Woken => 4
    case Writing(rest) => 2 + |rest|
    case Exited => 0
  }

  lemma {:induction false} EventsLength(batch: seq<Line>)
    ensures |Events(batch)| == |batch|
  {
    if batch != [] { EventsLength(batch[..|batch| - 1]); }
  }

  lemma OwnStepsCountDown(cap: nat, s: State, step: Step)
    requires Own(step) && Next(cap, s, step) != s
    ensures StepsLeft(Next(cap, s, step)) < StepsLeft(s)
  {
    EventsLength(s.queue);
  }

  ghost predicate OwnRun(cap: nat, s: State, steps: seq<Step>) {
    steps == [] ||
    (OwnRun(cap, s, steps[..|steps| - 1]) && Own(steps[|steps| - 1])
     && Next(cap, After(cap, s, steps[..|steps| - 1]), steps[|steps| - 1]) != After(cap, s, steps[..|steps| - 1]))
  }

  function After(cap: nat, s: State, steps: seq<Step>): State {
    if steps == [] then s else Next(cap, After(cap, s, steps[..|steps| - 1]), steps[|steps| - 1])
  }

  lemma {:induction false} OwnRunsEnd(cap: nat, s: State, steps: seq<Step>)
    requires Inv(cap, s) && OwnRun(cap, s, steps)
    ensures Inv(cap, After(cap, s, steps))
    ensures StepsLeft(After(cap, s, steps)) + |steps| <= StepsLeft(s)
  {
    if steps != [] {
      OwnRunsEnd(cap, s, steps[..|steps| - 1]);
      StepKeepsInv(cap, After(cap, s, steps[..|steps| - 1]), steps[|steps| - 1]);
      OwnStepsCountDown(cap, After(cap, s, steps[..|steps| - 1]), steps[|steps| - 1]);
    }
  }

  ghost predicate AtRest(cap: nat, s: State) {
    forall step | Own(step) :: Next(cap, s, step) == s
  }

  /** From every reachable state the pump's own steps end, after no more than StepsLeft of them. Where they have
      ended with the subscription still open, nothing is queued or unreported, and the peer was sent
      everything: all of the published stream, batch by batch with its gaps. Where it is closed, the pump has
      exited. */
  lemma PumpDeliversEverything(cap: nat, before: seq<Step>, own: seq<Step>)
    requires OwnRun(cap, Run(cap, before), own)
    ensures var s, s' := Run(cap, before), After(cap, Run(cap, before), own);
      && |own| <= StepsLeft(s)
      && (AtRest(cap, s') && !s'.closed ==>
            s'.queue == [] && s'.dropped == 0 && s'.written == Sent(s'.takes) && s'.stream == Spliced(s'.takes))
      && (AtRest(cap, s') && s'.closed ==> s'.pump.Exited?)
  {
    RunKeepsInv(cap, before);
    OwnRunsEnd(cap, Run(cap, before), own);
    var s' := After(cap, Run(cap, before), own);
    if AtRest(cap, s') {
      assert Next(cap, s', Nudge) == s' && Next(cap, s', Wake) == s' && Next(cap, s', Take) == s'
        && Next(cap, s', Write) == s' && Next(cap, s', SeeClosed) == s';
      RestIsParked(cap, s');
      NothingLeft(Spliced(s'.takes));
    }
  }

  lemma ExitedStep(cap: nat, s: State, step: Step)
    requires s.pump.Exited? && s.closed
    ensures Next(cap, s, step).pump.Exited? && Next(cap, s, step).closed && Next(cap, s, step).written == s.written
  {
  }

  lemma {:induction false} ExitedWritesNothing(cap: nat, steps: seq<Step>, rest: seq<Step>)
    requires Run(cap, steps).pump.Exited? && Run(cap, steps).closed
    ensures var s, s' := Run(cap, steps), Run(cap, steps + rest);
      s'.pump.Exited? && s'.closed && s'.written == s.written
  {
    if rest == [] {
      assert steps + rest == steps;
    } else {
      ExitedWritesNothing(cap, steps, rest[..|rest| - 1]);
      assert steps + rest == steps + rest[..|rest| - 1] + [rest[|rest| - 1]];
      RunOneMore(cap, steps + rest[..|rest| - 1], rest[|rest| - 1]);
      ExitedStep(cap, Run(cap, steps + rest[..|rest| - 1]), rest[|rest| - 1]);
    }
  }

  /** A close stays, and a write that fails ends the stream there: nothing more reaches the peer. */
  lemma EndsAreFinal(cap: nat, before: seq<Step>, rest: seq<Step>)
    ensures Run(cap, before + [Close]).closed
    ensures Run(cap, before).pump.Writing? && Run(cap, before).pump.rest != [] ==>
      var s' := Run(cap, before + [WriteFails] + rest);
      s'.pump.Exited? && s'.closed && s'.written == Run(cap, before).written
  {
    RunOneMore(cap, before, Close);
    RunOneMore(cap, before, WriteFails);
    if Run(cap, before).pump.Writing? && Run(cap, before).pump.rest != [] {
      ExitedWritesNothing(cap, before + [WriteFails], rest);
    }
  }

  lemma RestIsParked(cap: nat, s: State)
    requires Inv(cap, s)
    requires Next(cap, s, Nudge) == s && Next(cap, s, Wake) == s && Next(cap, s, Take) == s && Next(cap, s, Write) == s
    requires Next(cap, s, SeeClosed) == s
    ensures if s.closed then s.pump.Exited? else s.pump.Parked? && !s.notify && s.unsignalled == 0
  {
    WritingMoves(cap, s);
  }

  lemma WritingMoves(cap: nat, s: State)
    ensures s.pump.Writing? && s.pump.rest != [] ==> |Next(cap, s, Write).written| == |s.written| + 1
  {
  }

  // ---------------------------------------------------------------------------
  // Counting at the peer
  // ---------------------------------------------------------------------------

  function LinesIn(out: seq<Output>): seq<Line> {
    if out == [] then []
    else LinesIn(out[..|out| - 1]) + if out[|out| - 1].Event? then [out[|out| - 1].line] else []
  }

  function GapsIn(out: seq<Output>): nat {
    if out == [] then 0
    else GapsIn(out[..|out| - 1]) + if out[|out| - 1].Gap? then out[|out| - 1].dropped else 0
  }

  function Batches(takes: seq<Taken>): seq<Line> {
    if takes == [] then [] else Batches(takes[..|takes| - 1]) + takes[|takes| - 1].batch
  }

  lemma {:induction false} CountsAppend(a: seq<Output>, b: seq<Output>)
    ensures LinesIn(a + b) == LinesIn(a) + LinesIn(b)
    ensures GapsIn(a + b) == GapsIn(a) + GapsIn(b)
  {
    if b == [] {
      assert a + b == a;
    } else {
      CountsAppend(a, b[..|b| - 1]);
      assert (a + b)[..|a + b| - 1] == a + b[..|b| - 1];
    }
  }

  lemma {:induction false} EventsAreLines(batch: seq<Line>)
    ensures LinesIn(Events(batch)) == batch && GapsIn(Events(batch)) == 0
  {
    if batch != [] {
      var init, last := batch[..|batch| - 1], batch[|batch| - 1];
      EventsAreLines(init);
      CountsAppend(Events(init), [Event(last)]);
      assert [Event(last)][..0] == [];
      assert LinesIn([Event(last)]) == [last];
    }
  }

  lemma RenderedCounts(batch: seq<Line>, gap: nat)
    ensures LinesIn(Rendered(batch, gap)) == batch && GapsIn(Rendered(batch, gap)) == gap
  {
    EventsAreLines(batch);
    var head := if gap > 0 then [Gap(gap)] else [];
    CountsAppend(head, Events(batch));
    assert [Gap(gap)][..0] == [];
    assert LinesIn(head) == [] && GapsIn(head) == gap;
  }

  lemma {:induction false} SentCounts(takes: seq<Taken>)
    ensures LinesIn(Sent(takes)) == Batches(takes)
    ensures |Spliced(takes)| == |LinesIn(Sent(takes))| + GapsIn(Sent(takes))
  {
    if takes != [] {
      var init, last := takes[..|takes| - 1], takes[|takes| - 1];
      SentCounts(init);
      RenderedCounts(last.batch, |last.lost|);
      CountsAppend(Sent(init), Rendered(last.batch, |last.lost|));
    }
  }

  /** A peer that adds the gaps it was told to the events it received misses nothing: with the pump
      parked, that sum and what is still queued or dropped make up everything published. */
  lemma PeerCanCount(cap: nat, steps: seq<Step>)
    requires Run(cap, steps).pump.Parked?
    ensures var s := Run(cap, steps);
      && |s.stream| == |LinesIn(s.written)| + GapsIn(s.written) + |s.queue| + s.dropped
      && LinesIn(s.written) == Batches(s.takes)
  {
    RunKeepsInv(cap, steps);
    SentCounts(Run(cap, steps).takes);
  }

  /** The report heads its batch although the dropped events are newer than the batch: with room for
      one event, publishing two sends "one dropped" and then the first. */
  lemma ReportComesEarly(first: Line, second: Line)
    ensures Run(1, [File(first), File(second), Nudge, Wake]) == TwoPublished(first, second)
    ensures var s := Next(1, TwoPublished(first, second), Take);
      && s.stream == [first, second] && s.takes == [Taken([first], [second])]
      && s.pump == Writing([Gap(1), Event(first)])
  {
    TwoPublishedIsReached(first, second);
    RenderedPair(first);
  }

  lemma TwoPublishedIsReached(first: Line, second: Line)
    ensures Run(1, [File(first), File(second), Nudge, Wake]) == TwoPublished(first, second)
  {
    var two := [File(first), File(second)];
    assert [File(first)] == [] + [File(first)] && two == [File(first)] + [File(second)];
    RunOneMore(1, [], File(first));
    RunOneMore(1, [File(first)], File(second));
    RunOneMore(1, two, Nudge);
    RunOneMore(1, two + [Nudge], Wake);
    FirstFits(first, second);
    assert [File(first), File(second), Nudge, Wake] == two + [Nudge] + [Wake];
  }

  lemma FirstFits(first: Line, second: Line)
    ensures Next(1, Next(1, Next(1, Next(1, START, File(first)), File(second)), Nudge), Wake)
         == TwoPublished(first, second)
  {
    var one := Next(1, START, File(first));
    assert one == START.(queue := [first], stream := [first], unsignalled := 1);
    assert [first] + [second] == [first, second];
  }

  function TwoPublished(first: Line, second: Line): State {
    State([first], 1, false, 1, false, Woken, [first, second], [second], [], [])
  }

  lemma RunOneMore(cap: nat, steps: seq<Step>, step: Step)
    ensures Run(cap, steps + [step]) == Next(cap, Run(cap, steps), step)
  {
    assert (steps + [step])[..|steps|] == steps;
  }

  lemma RenderedPair(first: Line)
    ensures Rendered([first], 1) == [Gap(1), Event(first)]
  {
    assert [first][..0] == [];
    assert Events([first]) == [Event(first)];
  }

  // ---------------------------------------------------------------------------
  // The subscriber object
  // ---------------------------------------------------------------------------

  /** The batch, and the report in front of it if there is something to report. */
  method WithReport(queue: seq<Line>, dropped: nat) returns (batch: seq<Output>)
    ensures batch == Rendered(queue, dropped)
  {
    batch := Events(queue);
    if dropped > 0 {
      batch := [Gap(dropped)] + batch;
    }
  }

  class Subscriber {
    const queueCap: nat
    var queue: seq<Line>
    var dropped: nat
    var notify: bool
    ghost var state: State

    ghost predicate Valid()
      reads this
    {
      && queue == state.queue && dropped == state.dropped && notify == state.notify
      && Inv(queueCap, state)
    }

    constructor (queueCap: nat)
      ensures Valid() && this.queueCap == queueCap && state == START
    {
      this.queueCap := queueCap;
      queue, dropped, notify, state := [], 0, false, START;
    }

    /** Files the event or counts the drop, then nudges on both paths. */
    method Enqueue(line: Line)
      requires Valid()
      modifies this
      ensures Valid()
      ensures state == Next(queueCap, Next(queueCap, old(state), File(line)), Nudge)
    {
      FileKeepsInv(queueCap, state, line);
      StepKeepsInv(queueCap, Next(queueCap, state, File(line)), Nudge);
      if |queue| >= queueCap {
        dropped := dropped + 1;
      } else {
        queue := queue + [line];
      }
      state := Next(queueCap, state, File(line));
      notify := true;
      state := Next(queueCap, state, Nudge);
    }

    /** Empties the queue and the drop counter into one batch, the report heading it. */
    method TakeBatch() returns (batch: seq<Output>)
      requires Valid() && state.pump.Woken?
      modifies this
      ensures Valid()
      ensures state == Next(queueCap, old(state), Take) && state.pump == Writing(batch)
    {
      batch := WithReport(queue, dropped);
      queue, dropped := [], 0;
      state := TakenWith(queueCap, state, batch);
    }
  }
}
