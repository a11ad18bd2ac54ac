/** The unlocked TTL sweep of the offline queue: a SELECT that collects, then one DELETE per
    collected key, with enqueues and acknowledgements free to run in between. */
module Sweep {
  import opened Basics
  import opened Envelopes
  import opened Queue

  /** `issued` records every row ever accepted, by key; `due` is what the running sweep collected
      under `cutoff` and has not deleted yet; `expired` records what sweeps really removed, with
      the cutoff in force when it was collected. */
  datatype State = State(
    tables: Tables,
    issued: map<Key, Row>,
    due: map<Key, Row>,
    cutoff: Instant,
    expired: map<Key, Instant>)

  datatype Event =
    | Enqueued(to: string, row: Row)
    | Acked(device: string, acknowledged: Uint64)
    | Collected(before: Instant)
    | Deleted(key: Key)
    | Restarted

  const INITIAL: State := State(EMPTY, map[], map[], 0, map[])

  function Step(s: State, maxSize: nat, e: Event): State {
    match e
    case Enqueued(r, row) =>
      var outcome := EnqueueOutcome(s.tables, maxSize, r);
      s.(tables := EnqueueTx(s.tables, maxSize, r, row),
         issued := if outcome.Accepted? then s.issued[Key(r, outcome.position) := row] else s.issued)
    case Acked(r, q) => s.(tables := AckTx(s.tables, r, q))
    case Collected(before) =>
      s.(due := map k | k in s.tables.inbox && s.tables.inbox[k].enqueuedAt <= before :: s.tables.inbox[k],
         cutoff := before)
    case Deleted(k) =>
      if k !in s.due then s
      else s.(tables := EvictTx(s.tables, k), due := s.due - {k},
              expired := if k in s.tables.inbox then s.expired[k := s.cutoff] else s.expired)
    case Restarted => s.(due := map[])
  }

  function Run(maxSize: nat, es: seq<Event>): State {
    if es == [] then INITIAL else Step(Run(maxSize, es[..|es| - 1]), maxSize, es[|es| - 1])
  }

  /** The issued record is the tables' past: positions 1..next-1 of each recipient, exactly. */
  ghost predicate IssuedExactly(s: State) {
    && Sound(s.tables)
    && (forall r: string, p: nat :: Key(r, p) in s.issued <==> 1 <= p < CursorOf(s.tables, r).next)
    && (forall k | k in s.tables.inbox :: k in s.issued && s.issued[k] == s.tables.inbox[k])
  }

  /** What the sweep holds is still true of whatever sits under the same key now. */
  ghost predicate DueIsHonest(s: State) {
    && (forall k | k in s.due :: k in s.issued && s.due[k] == s.issued[k] && s.due[k].enqueuedAt <= s.cutoff)
    && (forall k | k in s.expired ::
          k in s.issued && k !in s.tables.inbox && s.issued[k].enqueuedAt <= s.expired[k])
  }

  ghost predicate Inv(s: State) {
    IssuedExactly(s) && DueIsHonest(s)
  }

  lemma EnqueueKeepsIssued(s: State, maxSize: nat, r: string, row: Row)
    requires Inv(s)
    ensures IssuedExactly(Step(s, maxSize, Enqueued(r, row)))
  {
    EnqueueKeepsSound(s.tables, maxSize, r, row);
    var s' := Step(s, maxSize, Enqueued(r, row));
    if EnqueueOutcome(s.tables, maxSize, r).Accepted? {
      var n := CursorOf(s.tables, r).next;
      assert CursorOf(s'.tables, r).next == n + 1;
      assert forall d: string | d != r :: CursorOf(s'.tables, d) == CursorOf(s.tables, d);
      forall d: string, p: nat
        ensures Key(d, p) in s'.issued <==> 1 <= p < CursorOf(s'.tables, d).next
      {
        assert Key(d, p) in s.issued <==> 1 <= p < CursorOf(s.tables, d).next;
      }
    }
  }

  /** A fresh position was never issued, so no collected or expired key is touched. */
  lemma EnqueueKeepsInv(s: State, maxSize: nat, r: string, row: Row)
    requires Inv(s)
    ensures Inv(Step(s, maxSize, Enqueued(r, row)))
  {
    EnqueueKeepsIssued(s, maxSize, r, row);
    assert Key(r, CursorOf(s.tables, r).next) !in s.issued;
  }

  lemma RemovalKeepsInv(s: State, maxSize: nat, e: Event)
    requires Inv(s) && (e.Acked? || e.Deleted?)
    ensures Inv(Step(s, maxSize, e))
  {
    var s' := Step(s, maxSize, e);
    assert forall d: string :: CursorOf(s'.tables, d).next == CursorOf(s.tables, d).next;
    if e.Acked? {
      AckKeepsSound(s.tables, e.device, e.acknowledged);
    } else {
      EvictKeepsSound(s.tables, e.key);
    }
  }

  lemma StepKeepsInv(s: State, maxSize: nat, e: Event)
    requires Inv(s)
    ensures Inv(Step(s, maxSize, e))
  {
    match e
    case Enqueued(r, row) => EnqueueKeepsInv(s, maxSize, r, row);
    case Acked(_, _) => RemovalKeepsInv(s, maxSize, e);
    case Deleted(_) => RemovalKeepsInv(s, maxSize, e);
    case Collected(_) =>
    case Restarted =>
  }

  lemma {:induction false} RunKeepsInv(maxSize: nat, es: seq<Event>)
    ensures Inv(Run(maxSize, es))
  {
    if es != [] {
      RunKeepsInv(maxSize, es[..|es| - 1]);
      StepKeepsInv(Run(maxSize, es[..|es| - 1]), maxSize, es[|es| - 1]);
    }
  }

  /** The last collection before event n happened at event c, under this cutoff. */
  ghost predicate LastCollect(es: seq<Event>, c: nat, n: nat) {
    && c < n <= |es| && es[c].Collected?
    && forall j | c < j < n :: !es[j].Collected? && !es[j].Restarted?
  }

  /** Every interleaving: a sweep's DELETE removes a row only if the same row was in the table,
      already past the TTL, when that sweep's SELECT ran. Enqueues in between cannot put a fresh
      message under a collected key. */
  lemma SweepRemovesOnlyCollectedRows(maxSize: nat, es: seq<Event>, k: Key)
    requires k in Run(maxSize, es).tables.inbox
    requires k !in Step(Run(maxSize, es), maxSize, Deleted(k)).tables.inbox
    ensures exists c: nat ::
      && LastCollect(es, c, |es|)
      && k in Run(maxSize, es[..c]).tables.inbox
      && Run(maxSize, es[..c]).tables.inbox[k] == Run(maxSize, es).tables.inbox[k]
      && Run(maxSize, es[..c]).tables.inbox[k].enqueuedAt <= es[c].before
  {
    RunKeepsInv(maxSize, es);
    var c := DueWasCollected(maxSize, es, k);
    assert LastCollect(es, c, |es|);
  }

  lemma {:induction false} DueWasCollected(maxSize: nat, es: seq<Event>, k: Key) returns (c: nat)
    requires k in Run(maxSize, es).due
    ensures LastCollect(es, c, |es|)
    ensures k in Run(maxSize, es[..c]).tables.inbox
    ensures Run(maxSize, es[..c]).tables.inbox[k] == Run(maxSize, es).due[k]
    ensures Run(maxSize, es).due[k].enqueuedAt <= es[c].before
    decreases |es|
  {
    assert es != [];
    var init, last := es[..|es| - 1], es[|es| - 1];
    if last.Collected? {
      c := |es| - 1;
    } else {
      c := DueWasCollected(maxSize, init, k);
      assert init[..c] == es[..c];
      assert forall j | c < j < |init| :: es[j] == init[j];
    }
  }

  // ---------------------------------------------------------------------------
  // A completed sweep misses nothing
  // ---------------------------------------------------------------------------

  predicate AckedAmong(mid: seq<Event>, k: Key) {
    exists i :: 0 <= i < |mid| && AcksKey(mid[i], k)
  }

  predicate AcksKey(e: Event, k: Key) {
    e.Acked? && k.recipient == e.device && k.position <= Int64(e.acknowledged)
  }

  /** Where a row that was there at a collection under `cutoff` stands. */
  predicate Fate(s: State, k: Key, row: Row, cutoff: Instant, acked: bool) {
    && k in s.issued && s.issued[k] == row
    && (k in s.due ==> row.enqueuedAt <= cutoff)
    && (k in s.tables.inbox <==> !acked && (row.enqueuedAt > cutoff || k in s.due))
  }

  lemma FateStep(s: State, maxSize: nat, e: Event, k: Key, row: Row, cutoff: Instant, acked: bool)
    requires Inv(s) && Fate(s, k, row, cutoff, acked) && !e.Collected? && !e.Restarted?
    ensures Fate(Step(s, maxSize, e), k, row, cutoff, acked || AcksKey(e, k))
  {
    assert e.Enqueued? ==> Key(e.to, CursorOf(s.tables, e.to).next) !in s.issued;
  }

  lemma RunOneMore(maxSize: nat, es: seq<Event>, e: Event)
    ensures Run(maxSize, es + [e]) == Step(Run(maxSize, es), maxSize, e)
  {
    assert (es + [e])[..|es|] == es;
  }

  lemma {:induction false} FateWhile(maxSize: nat, before: seq<Event>, cutoff: Instant, mid: seq<Event>, k: Key)
    requires k in Run(maxSize, before).tables.inbox
    requires forall e | e in mid :: !e.Collected? && !e.Restarted?
    ensures var row := Run(maxSize, before).tables.inbox[k];
      Fate(Run(maxSize, before + [Collected(cutoff)] + mid), k, row, cutoff, AckedAmong(mid, k))
  {
    var row := Run(maxSize, before).tables.inbox[k];
    if mid == [] {
      RunKeepsInv(maxSize, before);
      RunOneMore(maxSize, before, Collected(cutoff));
      assert before + [Collected(cutoff)] + mid == before + [Collected(cutoff)];
    } else {
      var init, e := mid[..|mid| - 1], mid[|mid| - 1];
      assert e in mid && forall x | x in init :: x in mid;
      FateWhile(maxSize, before, cutoff, init, k);
      var past := before + [Collected(cutoff)] + init;
      assert before + [Collected(cutoff)] + mid == past + [e];
      RunKeepsInv(maxSize, past);
      RunOneMore(maxSize, past, e);
      FateStep(Run(maxSize, past), maxSize, e, k, row, cutoff, AckedAmong(init, k));
      AckedOneMore(mid, k);
    }
  }

  lemma AckedOneMore(mid: seq<Event>, k: Key)
    requires mid != []
    ensures AckedAmong(mid, k) <==> AckedAmong(mid[..|mid| - 1], k) || AcksKey(mid[|mid| - 1], k)
  {
    var init := mid[..|mid| - 1];
    if i :| 0 <= i < |init| && AcksKey(init[i], k) {
      assert AcksKey(mid[i], k);
    }
    if i :| 0 <= i < |mid| && AcksKey(mid[i], k) && i < |init| {
      assert AcksKey(init[i], k);
    }
  }

  /** A sweep that has deleted all it collected, whatever ran in between, has removed of the rows that were
      there exactly those past the cutoff: any other is gone only if it was acknowledged meanwhile. */
  lemma CompletedSweepIsExact(maxSize: nat, before: seq<Event>, cutoff: Instant, mid: seq<Event>, k: Key)
    requires k in Run(maxSize, before).tables.inbox
    requires forall e | e in mid :: !e.Collected? && !e.Restarted?
    requires Run(maxSize, before + [Collected(cutoff)] + mid).due == map[]
    ensures k in Run(maxSize, before + [Collected(cutoff)] + mid).tables.inbox <==>
      Run(maxSize, before).tables.inbox[k].enqueuedAt > cutoff && !AckedAmong(mid, k)
  {
    FateWhile(maxSize, before, cutoff, mid, k);
  }

  /** And it can always be completed: a delete takes its key off the list, and nothing but a new collection
      puts one on. */
  lemma DueOnlyShrinks(s: State, maxSize: nat, e: Event)
    requires !e.Collected?
    ensures Step(s, maxSize, e).due.Keys <= s.due.Keys
    ensures e.Deleted? ==> e.key !in Step(s, maxSize, e).due
  {
  }

  // ---------------------------------------------------------------------------
  // A sweep among enqueues is a history of the queue
  // ---------------------------------------------------------------------------

  /** What a step means to the tables. */
  function Effects(s: State, e: Event): seq<Queue.Event> {
    match e
    case Enqueued(r, row) => [Queue.Enqueue(r, row)]
    case Acked(r, q) => [Queue.Ack(r, q)]
    case Collected(_) => []
    case Deleted(k) => if k in s.due then [Queue.Evict(k)] else []
    case Restarted => [Queue.Restart]
  }

  function History(maxSize: nat, es: seq<Event>): seq<Queue.Event> {
    if es == [] then []
    else History(maxSize, es[..|es| - 1]) + Effects(Run(maxSize, es[..|es| - 1]), es[|es| - 1])
  }

  lemma EffectsAre(maxSize: nat, s: State, e: Event)
    ensures |Effects(s, e)| <= 1
    ensures Step(s, maxSize, e).tables ==
      if Effects(s, e) == [] then s.tables else Queue.Step(s.tables, maxSize, Effects(s, e)[0])
  {
  }

  lemma HistoryOn(maxSize: nat, past: seq<Queue.Event>, more: seq<Queue.Event>)
    requires |more| <= 1
    ensures Queue.Run(maxSize, past + more) ==
      if more == [] then Queue.Run(maxSize, past) else Queue.Step(Queue.Run(maxSize, past), maxSize, more[0])
  {
    if more == [] {
      assert past + more == past;
    } else {
      assert (past + more)[..|past|] == past;
    }
  }

  /** The tables under any interleaving of sweeps are those of a history of whole transactions, so that what
      holds of every such history holds here. */
  lemma {:induction false} TablesFollowAHistory(maxSize: nat, es: seq<Event>)
    ensures Run(maxSize, es).tables == Queue.Run(maxSize, History(maxSize, es))
  {
    if es != [] {
      var init, e := es[..|es| - 1], es[|es| - 1];
      TablesFollowAHistory(maxSize, init);
      EffectsAre(maxSize, Run(maxSize, init), e);
      HistoryOn(maxSize, History(maxSize, init), Effects(Run(maxSize, init), e));
    }
  }
}
