/** The client's outbox and its drain (internal/outbox/outbox.go, cmd/walkie/app.go): held messages
    leave the table only after the transport took them, one at a time, oldest first. */
module Outbox {
  import opened Basics

  datatype Held = Held(id: string, body: string)

  /** A drain in progress: what is left of the snapshot it took, and whether its first message was
      already accepted by the transport but not removed yet. */
  datatype Drain = Drain(rest: seq<Held>, accepted: bool)

  /** `composed` lists every message ever held; `sent` the frames that reached the wire, each as its
      index in `composed`; `removed` counts the rows deleted. */
  datatype State = State(
    table: seq<Held>,
    drain: Option<Drain>,
    composed: seq<Held>,
    removed: nat,
    sent: seq<nat>)

  datatype Event =
    | Compose(message: Held)
    | BeginDrain
    | SendAccepted
    | SendFailed(reached: bool)     // the frame may have gone out all the same
    | RemoveDone
    | RemoveFailed(deleted: bool)   // so may the delete
    | EndDrain
    | Crash

  const START: State := State([], None, [], 0, [])

  predicate Holds(table: seq<Held>, id: string) {
    exists i :: 0 <= i < |table| && table[i].id == id
  }

  /** INSERT under the unique message ID; no ID, or one already held, is refused. */
  function Enqueue(table: seq<Held>, m: Held): Option<seq<Held>> {
    if m.id == "" || Holds(table, m.id) then None else Some(table + [m])
  }

  /** DELETE by message ID. */
  function Remove(table: seq<Held>, id: string): (rest: seq<Held>)
    ensures |rest| <= |table|
  {
    if table == [] then []
    else (if table[0].id == id then [] else [table[0]]) + Remove(table[1..], id)
  }

  /** The index in `composed` of the message with this ID that is still held. */
  function IndexOf(s: State, id: string): nat {
    s.removed + PositionOf(s.table, id)
  }

  function PositionOf(table: seq<Held>, id: string): (i: nat)
    ensures i <= |table| && (i < |table| ==> table[i].id == id)
  {
    if table == [] || table[0].id == id then 0 else 1 + PositionOf(table[1..], id)
  }

  predicate ReadyToSend(s: State) {
    s.drain.Some? && !s.drain.value.accepted && s.drain.value.rest != []
  }

  predicate ReadyToRemove(s: State) {
    s.drain.Some? && s.drain.value.accepted && s.drain.value.rest != []
  }

  function Head(s: State): Held
    requires ReadyToSend(s) || ReadyToRemove(s)
  {
    s.drain.value.rest[0]
  }

  function Transmit(s: State): State
    requires ReadyToSend(s)
  {
    s.(sent := s.sent + [IndexOf(s, Head(s).id)])
  }

  function Delete(s: State): State
    requires ReadyToRemove(s)
  {
    var table := Remove(s.table, Head(s).id);
    s.(table := table, removed := s.removed + |s.table| - |table|)
  }

  function Step(s: State, e: Event): State {
    match e
    case Compose(m) =>
      var table := Enqueue(s.table, m);
      if table.None? then s else s.(table := table.value, composed := s.composed + [m])
    case BeginDrain => if s.drain.None? then s.(drain := Some(Drain(s.table, false))) else s
    case SendAccepted =>
      if ReadyToSend(s) then Transmit(s).(drain := Some(Drain(s.drain.value.rest, true))) else s
    case SendFailed(reached) =>
      if ReadyToSend(s) then (if reached then Transmit(s) else s).(drain := None) else s
    case RemoveDone =>
      if ReadyToRemove(s) then Delete(s).(drain := Some(Drain(s.drain.value.rest[1..], false))) else s
    case RemoveFailed(deleted) =>
      if ReadyToRemove(s) then (if deleted then Delete(s) else s).(drain := None) else s
    case EndDrain => if s.drain.Some? && s.drain.value.rest == [] then s.(drain := None) else s
    case Crash => s.(drain := None)
  }

  function Run(es: seq<Event>): State {
    if es == [] then START else Step(Run(es[..|es| - 1]), es[|es| - 1])
  }

  // ---------------------------------------------------------------------------
  // Invariant
  // ---------------------------------------------------------------------------

  ghost predicate DistinctIds(table: seq<Held>) {
    forall i, j | 0 <= i < j < |table| :: table[i].id != table[j].id
  }

  /** The table is what was composed and not removed, in composition order. */
  ghost predicate TableOk(s: State) {
    s.removed <= |s.composed| && s.table == s.composed[s.removed..] && DistinctIds(s.table)
  }

  /** A drain works on a snapshot whose remainder is the oldest part of the table. */
  ghost predicate DrainOk(s: State) {
    s.drain.Some? ==> |s.drain.value.rest| <= |s.table| && s.drain.value.rest == s.table[..|s.drain.value.rest|]
  }

  /** Frames went out from the first composed on, each the same as or the one after its predecessor. */
  ghost predicate Climbs(sent: seq<nat>) {
    && (sent != [] ==> sent[0] == 0)
    && (forall i | 0 < i < |sent| :: sent[i] == sent[i - 1] || sent[i] == sent[i - 1] + 1)
  }

  /** How many messages have been sent at least once. */
  function Reached(sent: seq<nat>): nat {
    if sent == [] then 0 else sent[|sent| - 1] + 1
  }

  /** All removed messages were sent, and beyond them at most the head; once accepted, the head. */
  ghost predicate SentOk(s: State) {
    && Climbs(s.sent) && s.removed <= Reached(s.sent) <= s.removed + 1 && Reached(s.sent) <= |s.composed|
    && (s.drain.Some? && s.drain.value.accepted ==> s.drain.value.rest != [] && Reached(s.sent) == s.removed + 1)
  }

  ghost predicate Inv(s: State) {
    TableOk(s) && DrainOk(s) && SentOk(s)
  }

  lemma {:induction false} RemoveUnknown(table: seq<Held>, id: string)
    requires forall i | 0 <= i < |table| :: table[i].id != id
    ensures Remove(table, id) == table
  {
    if table != [] {
      RemoveUnknown(table[1..], id);
    }
  }

  lemma RemoveHead(table: seq<Held>)
    requires table != [] && DistinctIds(table)
    ensures Remove(table, table[0].id) == table[1..] && PositionOf(table, table[0].id) == 0
  {
    RemoveUnknown(table[1..], table[0].id);
  }

  lemma TransmitKeeps(s: State)
    requires Inv(s) && ReadyToSend(s)
    ensures Climbs(Transmit(s).sent) && Reached(Transmit(s).sent) == s.removed + 1
  {
    assert Head(s) == s.table[0];
    RemoveHead(s.table);
    var sent := Transmit(s).sent;
    assert sent == s.sent + [s.removed];
  }

  lemma DeleteKeeps(s: State)
    requires Inv(s) && ReadyToRemove(s)
    ensures var s' := Delete(s);
      s'.table == s.table[1..] && s'.removed == s.removed + 1 && TableOk(s')
  {
    assert Head(s) == s.table[0];
    RemoveHead(s.table);
    assert s.composed[s.removed..][1..] == s.composed[s.removed + 1..];
  }

  lemma ComposeKeepsInv(s: State, m: Held)
    requires Inv(s)
    ensures Inv(Step(s, Compose(m)))
  {
    if Enqueue(s.table, m).Some? {
      assert (s.composed + [m])[s.removed..] == s.table + [m];
      if s.drain.Some? {
        var n := |s.drain.value.rest|;
        assert (s.table + [m])[..n] == s.table[..n];
      }
    }
  }

  lemma SendKeepsInv(s: State, e: Event)
    requires Inv(s) && (e.SendAccepted? || e.SendFailed?)
    ensures Inv(Step(s, e))
  {
    if ReadyToSend(s) {
      TransmitKeeps(s);
      assert |s.table| == |s.composed| - s.removed;
    }
  }

  lemma RemoveKeepsInv(s: State, e: Event)
    requires Inv(s) && (e.RemoveDone? || e.RemoveFailed?)
    ensures Inv(Step(s, e))
  {
    if ReadyToRemove(s) {
      DeleteKeeps(s);
      var rest := s.drain.value.rest;
      assert rest[1..] == s.table[1..][..|rest| - 1];
    }
  }

  lemma StepKeepsInv(s: State, e: Event)
    requires Inv(s)
    ensures Inv(Step(s, e))
  {
    match e
    case Compose(m) => ComposeKeepsInv(s, m);
    case BeginDrain => assert s.table == s.table[..|s.table|];
    case SendAccepted => SendKeepsInv(s, e);
    case SendFailed(_) => SendKeepsInv(s, e);
    case RemoveDone => RemoveKeepsInv(s, e);
    case RemoveFailed(_) => RemoveKeepsInv(s, e);
    case EndDrain =>
    case Crash =>
  }

  lemma {:induction false} RunKeepsInv(es: seq<Event>)
    ensures Inv(Run(es))
  {
    if es != [] {
      RunKeepsInv(es[..|es| - 1]);
      StepKeepsInv(Run(es[..|es| - 1]), es[|es| - 1]);
    }
  }

  // ---------------------------------------------------------------------------
  // The guarantees
  // ---------------------------------------------------------------------------

  lemma {:induction false} ClimbCovers(sent: seq<nat>, i: nat)
    requires Climbs(sent) && i < Reached(sent)
    ensures i in sent
  {
    var init := sent[..|sent| - 1];
    if i < sent[|sent| - 1] {
      assert Reached(init) >= sent[|sent| - 1];
      ClimbCovers(init, i);
    }
  }

  /** Nothing is removed unsent, and nothing composed is lost: each message was sent or is still in
      the table, in every run of drains, failures of unknown outcome and crashes. */
  lemma NothingIsRemovedUnsent(es: seq<Event>, i: nat)
    requires i < |Run(es).composed|
    ensures var s := Run(es);
      && s.removed <= |s.composed| && s.table == s.composed[s.removed..]
      && (i < s.removed ==> i in s.sent)
  {
    RunKeepsInv(es);
    if i < Run(es).removed {
      ClimbCovers(Run(es).sent, i);
    }
  }

  /** First occurrences, in order. */
  function Firsts(sent: seq<nat>): seq<nat> {
    if sent == [] then []
    else
      var init, last := sent[..|sent| - 1], sent[|sent| - 1];
      Firsts(init) + if last in init then [] else [last]
  }

  function UpTo(n: nat): seq<nat> {
    if n == 0 then [] else UpTo(n - 1) + [n - 1]
  }

  lemma {:induction false} ClimbFirsts(sent: seq<nat>)
    requires Climbs(sent)
    ensures Firsts(sent) == UpTo(Reached(sent))
    ensures forall x | x in sent :: x < Reached(sent)
  {
    if sent != [] {
      var init, last := sent[..|sent| - 1], sent[|sent| - 1];
      ClimbFirsts(init);
      assert sent == init + [last];
      if init != [] {
        assert init[|init| - 1] in init;
        assert last == init[|init| - 1] || last == init[|init| - 1] + 1;
      }
    }
  }

  /** Keeping first occurrences, frames went out in composition order without a hole; and only the
      message at the head of the table can have been sent and still be there to be sent again. */
  lemma DrainsKeepCompositionOrder(es: seq<Event>)
    ensures var s := Run(es);
      && Firsts(s.sent) == UpTo(Reached(s.sent))
      && Climbs(s.sent)
      && (forall x | x in s.sent && x >= s.removed :: x == s.removed)
  {
    RunKeepsInv(es);
    ClimbFirsts(Run(es).sent);
  }

  // ---------------------------------------------------------------------------
  // The drain loop
  // ---------------------------------------------------------------------------

  /** What one round of the loop met. */
  datatype Outcome = Done | NotSent(reached: bool) | NotRemoved(deleted: bool)

  /** The frames of a round that stopped the drain. */
  function LastFrame(o: Outcome): nat {
    if o == NotSent(false) then 0 else 1
  }

  function LastRow(o: Outcome): nat {
    if o == NotRemoved(true) then 1 else 0
  }

  /** n consecutive messages from `first` on. */
  function From(first: nat, n: nat): seq<nat> {
    if n == 0 then [] else From(first, n - 1) + [first + n - 1]
  }

  /** The events of one round. */
  function Round(s: State, o: Outcome): State {
    match o
    case Done => Step(Step(s, SendAccepted), RemoveDone)
    case NotSent(reached) => Step(s, SendFailed(reached))
    case NotRemoved(deleted) => Step(Step(s, SendAccepted), RemoveFailed(deleted))
  }

  /** A drain alone with its table: nothing was composed since the snapshot. */
  ghost predicate Alone(s: State) {
    s.drain == Some(Drain(s.table, false))
  }

  lemma AcceptedIs(s: State)
    requires Inv(s) && Alone(s) && s.table != []
    ensures var s' := Step(s, SendAccepted);
      Inv(s') && s' == s.(sent := s.sent + [s.removed], drain := Some(Drain(s.table, true)))
  {
    SendKeepsInv(s, SendAccepted);
    RemoveHead(s.table);
  }

  lemma NotSentIs(s: State, reached: bool)
    requires Inv(s) && Alone(s) && s.table != []
    ensures var s' := Step(s, SendFailed(reached));
      Inv(s') && s' == s.(sent := s.sent + (if reached then [s.removed] else []), drain := None)
  {
    SendKeepsInv(s, SendFailed(reached));
    RemoveHead(s.table);
    assert s.sent + [] == s.sent;
  }

  lemma RemovedIs(s: State)
    requires Inv(s) && s.drain == Some(Drain(s.table, true)) && s.table != []
    ensures Inv(Step(s, RemoveDone)) && Inv(Step(s, RemoveFailed(true))) && Inv(Step(s, RemoveFailed(false)))
    ensures Step(s, RemoveDone)
         == s.(table := s.table[1..], removed := s.removed + 1, drain := Some(Drain(s.table[1..], false)))
    ensures Step(s, RemoveFailed(true)) == s.(table := s.table[1..], removed := s.removed + 1, drain := None)
    ensures Step(s, RemoveFailed(false)) == s.(drain := None)
  {
    RemoveKeepsInv(s, RemoveDone);
    RemoveKeepsInv(s, RemoveFailed(true));
    RemoveKeepsInv(s, RemoveFailed(false));
    DeleteKeeps(s);
  }

  /** What the drain did so far: rounds completed, each sending and removing the oldest. */
  ghost predicate Progress(start: State, s: State, rounds: nat) {
    && Inv(s) && rounds <= |start.table|
    && s.table == start.table[rounds..] && s.removed == start.removed + rounds
    && s.sent == start.sent + From(start.removed, rounds)
  }

  /** How a drain may end: after `rounds` complete rounds and, unless the table is empty, one that
      failed. */
  ghost predicate Ended(start: State, s: State, outcomes: seq<Outcome>, rounds: nat) {
    && Inv(s) && s.drain.None? && rounds <= |start.table| <= |outcomes|
    && (forall i | 0 <= i < rounds :: outcomes[i].Done?)
    && if rounds == |start.table| then
         s.table == [] && s.sent == start.sent + From(start.removed, rounds)
       else
         && !outcomes[rounds].Done? && s.table == start.table[rounds + LastRow(outcomes[rounds])..]
         && s.sent == start.sent + From(start.removed, rounds + LastFrame(outcomes[rounds]))
  }

  lemma DoneRound(start: State, s: State, rounds: nat)
    requires Progress(start, s, rounds) && Alone(s) && rounds < |start.table|
    ensures var s' := Round(s, Done);
      Progress(start, s', rounds + 1) && Alone(s') && s'.table == Remove(s.table, start.table[rounds].id)
  {
    AcceptedIs(s);
    RemovedIs(Step(s, SendAccepted));
    RemoveHead(s.table);
    assert s.table[1..] == start.table[rounds + 1..];
    assert start.sent + From(start.removed, rounds) + [s.removed] == start.sent + From(start.removed, rounds + 1);
  }

  lemma BeginIs(start: State)
    requires Inv(start) && start.drain.None?
    ensures Progress(start, Step(start, BeginDrain), 0) && Alone(Step(start, BeginDrain))
  {
    StepKeepsInv(start, BeginDrain);
    assert start.sent + [] == start.sent;
  }

  lemma EndIs(start: State, s: State, outcomes: seq<Outcome>)
    requires Progress(start, s, |start.table|) && Alone(s) && |start.table| <= |outcomes|
    requires forall i | 0 <= i < |start.table| :: outcomes[i].Done?
    ensures var s' := Step(s, EndDrain);
      Ended(start, s', outcomes, |start.table|) && s'.table == s.table
  {
    StepKeepsInv(s, EndDrain);
  }

  lemma OneMoreFrame(start: State, s: State, rounds: nat)
    requires Progress(start, s, rounds)
    ensures s.sent + [s.removed] == start.sent + From(start.removed, rounds + 1)
  {
  }

  lemma NotSentRound(start: State, s: State, outcomes: seq<Outcome>, rounds: nat)
    requires Progress(start, s, rounds) && Alone(s) && rounds < |start.table| <= |outcomes|
    requires outcomes[rounds].NotSent? && forall i | 0 <= i < rounds :: outcomes[i].Done?
    ensures var s' := Round(s, outcomes[rounds]);
      Ended(start, s', outcomes, rounds) && s'.table == s.table
  {
    NotSentIs(s, outcomes[rounds].reached);
    OneMoreFrame(start, s, rounds);
    assert s.sent + [] == s.sent;
  }

  lemma NotRemovedRound(start: State, s: State, outcomes: seq<Outcome>, rounds: nat)
    requires Progress(start, s, rounds) && Alone(s) && rounds < |start.table| <= |outcomes|
    requires outcomes[rounds].NotRemoved? && forall i | 0 <= i < rounds :: outcomes[i].Done?
    ensures var s' := Round(s, outcomes[rounds]);
      && Ended(start, s', outcomes, rounds)
      && s'.table == if outcomes[rounds].deleted then Remove(s.table, start.table[rounds].id) else s.table
  {
    AcceptedIs(s);
    RemovedIs(Step(s, SendAccepted));
    OneMoreFrame(start, s, rounds);
    RemoveHead(s.table);
    assert s.table[1..] == start.table[rounds + 1..];
  }

  // ---------------------------------------------------------------------------
  // What gets in, and how it gets out
  // ---------------------------------------------------------------------------

  /** In every run a message is taken in, and last, exactly when it has an ID that none of the messages
      composed and not removed has; a refused one leaves no trace. */
  lemma HeldExactlyWhenNew(es: seq<Event>, m: Held)
    ensures var s, s' := Run(es), Run(es + [Compose(m)]);
      && s.removed <= |s.composed|
      && var isNew := m.id != "" && forall i | s.removed <= i < |s.composed| :: s.composed[i].id != m.id;
         && s'.composed == (if isNew then s.composed + [m] else s.composed)
         && s'.table == (if isNew then s.table + [m] else s.table)
  {
    RunKeepsInv(es);
    assert (es + [Compose(m)])[..|es|] == es;
    HoldsIsHeld(Run(es).table, Run(es).composed, Run(es).removed, m.id);
  }

  lemma HoldsIsHeld(table: seq<Held>, composed: seq<Held>, removed: nat, id: string)
    requires removed <= |composed| && table == composed[removed..]
    ensures Holds(table, id) <==> exists i :: removed <= i < |composed| && composed[i].id == id
  {
    if i :| 0 <= i < |table| && table[i].id == id {
      assert composed[i + removed].id == id;
    }
    if i :| removed <= i < |composed| && composed[i].id == id {
      assert table[i - removed].id == id;
    }
  }

  /** One drain at a time, and it ends at the end of its snapshot, at a failure, or with the process. */
  lemma OneDrainAtATime(s: State, e: Event)
    ensures s.drain.Some? && e.BeginDrain? ==> Step(s, e) == s
    ensures s.drain.Some? && Step(s, e).drain.None? ==>
      s.drain.value.rest == [] || e.SendFailed? || e.RemoveFailed? || e.Crash?
    ensures s.drain.None? && Step(s, e).drain.Some? ==> Step(s, e) == s.(drain := Some(Drain(s.table, false)))
  {
  }

  function Rounds(s: State, n: nat): State {
    if n == 0 then s else Round(Rounds(s, n - 1), Done)
  }

  ghost predicate UnderWay(start: State, s: State, rounds: nat) {
    Progress(start, s, rounds) && Alone(s)
  }

  lemma OneMoreRound(start: State, s: State, rounds: nat)
    requires UnderWay(start, s, rounds) && rounds < |start.table|
    ensures UnderWay(start, Round(s, Done), rounds + 1)
  {
    DoneRound(start, s, rounds);
  }

  lemma {:induction false} RoundsGoOn(start: State, s: State, n: nat)
    requires UnderWay(start, s, 0) && n <= |start.table|
    ensures UnderWay(start, Rounds(s, n), n)
  {
    if n > 0 {
      RoundsGoOn(start, s, n - 1);
      OneMoreRound(start, Rounds(s, n - 1), n - 1);
    }
  }

  lemma DrainEmpties(up: State)
    requires Inv(up) && up.drain.None?
    ensures var s' := Step(Rounds(Step(up, BeginDrain), |up.table|), EndDrain);
      && Inv(s') && s'.table == [] && s'.drain.None? && s'.composed == up.composed
      && s'.sent == up.sent + From(up.removed, |up.table|)
  {
    BeginIs(up);
    RoundsGoOn(up, Step(up, BeginDrain), |up.table|);
    RoundsCompose(Step(up, BeginDrain), |up.table|);
    StepKeepsInv(Rounds(Step(up, BeginDrain), |up.table|), EndDrain);
  }

  lemma EmptyMeansSent(s: State)
    requires Inv(s) && s.table == []
    ensures s.removed == |s.composed| && forall i: nat | i < |s.composed| :: i in s.sent
  {
    forall i: nat | i < |s.composed| ensures i in s.sent {
      ClimbCovers(s.sent, i);
    }
  }

  /** Whatever happened, crashes in mid-drain included, a drain after a restart that meets no failure sends every
      message still held once, oldest first, and leaves the outbox empty: all that was ever composed has
      been sent. */
  lemma UndisturbedDrainEmpties(es: seq<Event>)
    ensures var s, up := Run(es), Step(Run(es), Crash);
      var s' := Step(Rounds(Step(up, BeginDrain), |s.table|), EndDrain);
      && s'.table == [] && s'.drain.None? && s'.composed == s.composed && s'.removed == |s.composed|
      && s'.sent == s.sent + From(s.removed, |s.table|)
      && (forall i: nat | i < |s.composed| :: i in s'.sent)
  {
    RunKeepsInv(es);
    var up := Step(Run(es), Crash);
    StepKeepsInv(Run(es), Crash);
    DrainEmpties(up);
    EmptyMeansSent(Step(Rounds(Step(up, BeginDrain), |up.table|), EndDrain));
  }

  lemma {:induction false} RoundsCompose(s: State, n: nat)
    ensures Rounds(s, n).composed == s.composed
  {
    if n > 0 { RoundsCompose(s, n - 1); }
  }

  class Client {
    var table: seq<Held>
    var draining: bool
    ghost var state: State

    ghost predicate Valid()
      reads this
    {
      table == state.table && draining == state.drain.Some? && Inv(state)
    }

    constructor (stored: seq<Held>)
      requires DistinctIds(stored)
      ensures Valid() && table == stored && !draining
    {
      table, draining := stored, false;
      state := State(stored, None, stored, 0, []);
    }

    /** Holds the message; false for a missing or already held ID, which changes nothing. */
    method Hold(m: Held) returns (ok: bool)
      requires Valid()
      modifies this
      ensures Valid() && state == Step(old(state), Compose(m))
      ensures ok <==> m.id != "" && !Holds(old(table), m.id)
      ensures table == if ok then old(table) + [m] else old(table)
    {
      ComposeKeepsInv(state, m);
      ok := m.id != "" && !Holds(table, m.id);
      if ok { table := table + [m]; }
      state := Step(state, Compose(m));
    }

    /** One round: transmit the oldest and, once the transport took it, remove it. */
    method SendAndRemove(head: Held, outcome: Outcome,
                         ghost start: State, ghost outcomes: seq<Outcome>, ghost rounds: nat)
      returns (ok: bool)
      requires Progress(start, state, rounds) && Alone(state) && table == state.table
      requires rounds < |start.table| <= |outcomes| && head == start.table[rounds] && outcome == outcomes[rounds]
      requires forall i | 0 <= i < rounds :: outcomes[i].Done?
      modifies this`table, this`state
      ensures table == state.table && ok == outcome.Done?
      ensures if ok then Progress(start, state, rounds + 1) && Alone(state) else Ended(start, state, outcomes, rounds)
    {
      ghost var before := state;
      state := Round(before, outcome);
      if outcome.NotSent? {
        NotSentRound(start, before, outcomes, rounds);
        return false;
      }
      if outcome.NotRemoved? {
        NotRemovedRound(start, before, outcomes, rounds);
        if outcome.deleted {
          table := Remove(table, head.id);
        }
        return false;
      }
      DoneRound(start, before, rounds);
      table := Remove(table, head.id);
      ok := true;
    }

    /** Sends and removes from the oldest on until something fails. `outcomes` is what the transport
        and the store will do, round by round; a drain already running makes this a no-op. */
    method DrainOutbox(outcomes: seq<Outcome>) returns (rounds: nat)
      requires Valid() && |outcomes| >= |table|
      modifies this
      ensures Valid() && draining == old(draining)
      ensures if old(draining) then state == old(state) else Ended(old(state), state, outcomes, rounds)
    {
      rounds := 0;
      if draining { return; }
      draining := true;
      ghost var start := state;
      BeginIs(start);
      state := Step(state, BeginDrain);
      var pending := table;
      while rounds < |pending|
        invariant pending == start.table && table == state.table && draining
        invariant Progress(start, state, rounds) && Alone(state)
        invariant forall i | 0 <= i < rounds :: outcomes[i].Done?
      {
        var ok := SendAndRemove(pending[rounds], outcomes[rounds], start, outcomes, rounds);
        if !ok {
          draining := false;
          return;
        }
        rounds := rounds + 1;
      }
      EndIs(start, state, outcomes);
      state := Step(state, EndDrain);
      draining := false;
    }
  }
}
