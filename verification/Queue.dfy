/** The offline queue's two tables (internal/coordinator/queue/queue.go) and its
    transactions, each one atomic step; then the append-only log they refine. */
module Queue {
  import opened Basics
  import opened Envelopes
  import opened SealedStorage

  const MAX_INT64: int := TWO_63 - 1

  datatype Row = Row(messageId: string, body: Bytes, enqueuedAt: Instant)
  datatype Key = Key(recipient: string, position: nat)
  datatype Cursor = Cursor(next: nat, acked: int)

  /** queue_inbox and queue_cursor. */
  datatype Tables = Tables(inbox: map<Key, Row>, cursors: map<string, Cursor>)

  datatype Delivery = Delivery(position: nat, envelope: Envelope)

  datatype EnqueueResult = Accepted(position: nat) | CapacityRefused | PositionsExhausted

  const EMPTY: Tables := Tables(map[], map[])

  /** A recipient without a cursor row starts at position 1 with nothing acknowledged. */
  function CursorOf(t: Tables, r: string): Cursor {
    if r in t.cursors then t.cursors[r] else Cursor(1, 0)
  }

  function Retained(t: Tables, r: string): set<Key> {
    set k | k in t.inbox && k.recipient == r
  }

  // ---------------------------------------------------------------------------
  // The transactions
  // ---------------------------------------------------------------------------

  function EnqueueOutcome(t: Tables, maxSize: nat, r: string): EnqueueResult {
    if |Retained(t, r)| >= maxSize then CapacityRefused
    else if CursorOf(t, r).next > MAX_INT64 then PositionsExhausted
    else Accepted(CursorOf(t, r).next)
  }

  /** A refusal rolls the whole transaction back, the cursor row included. */
  function EnqueueTx(t: Tables, maxSize: nat, r: string, row: Row): Tables {
    match EnqueueOutcome(t, maxSize, r)
    case Accepted(p) =>
      Tables(t.inbox[Key(r, p) := row], t.cursors[r := Cursor(p + 1, CursorOf(t, r).acked)])
    case _ => t
  }

  predicate Covers(r: string, q: Uint64, k: Key) {
    k.recipient == r && k.position <= Int64(q)
  }

  function AckTx(t: Tables, r: string, q: Uint64): Tables {
    var c := CursorOf(t, r);
    Tables(
      map k | k in t.inbox && !Covers(r, q, k) :: t.inbox[k],
      t.cursors[r := if c.acked < Int64(q) then c.(acked := Int64(q)) else c])
  }

  function EvictTx(t: Tables, k: Key): Tables {
    t.(inbox := t.inbox - {k})
  }

  /** The rows of `r` at positions lo..hi-1, in position order, unreadable ones skipped. */
  function Scan(codec: Codec, t: Tables, r: string, lo: nat, hi: nat): seq<Delivery>
    decreases hi
  {
    if hi <= lo then []
    else Scan(codec, t, r, lo, hi - 1) + ScanOne(codec, t, r, hi - 1)
  }

  function ScanOne(codec: Codec, t: Tables, r: string, p: nat): seq<Delivery> {
    if Key(r, p) in t.inbox && p < TWO_64 then
      match DeliveryFromStorage(codec, p, t.inbox[Key(r, p)].body)
      case Some(env) => [Delivery(p, env)]
      case None => []
    else []
  }

  /** Resume: everything retained past int64(after). A reported position of 2^63 or more
      turns negative in that conversion, and then everything retained qualifies. */
  function Resume(codec: Codec, t: Tables, r: string, after: Uint64): seq<Delivery> {
    Scan(codec, t, r, FirstAfter(after), CursorOf(t, r).next)
  }

  // ---------------------------------------------------------------------------
  // What every transaction keeps
  // ---------------------------------------------------------------------------

  /** Positions are issued from 1 upward and stay representable. */
  ghost predicate Sound(t: Tables) {
    && (forall k | k in t.inbox :: 1 <= k.position < CursorOf(t, k.recipient).next)
    && (forall r: string :: 1 <= CursorOf(t, r).next <= TWO_63)
  }

  lemma EnqueueKeepsSound(t: Tables, maxSize: nat, r: string, row: Row)
    requires Sound(t)
    ensures Sound(EnqueueTx(t, maxSize, r, row))
  {
    assert forall s :: CursorOf(EnqueueTx(t, maxSize, r, row), s).next >= CursorOf(t, s).next;
  }

  lemma AckKeepsSound(t: Tables, r: string, q: Uint64)
    requires Sound(t)
    ensures Sound(AckTx(t, r, q))
  {
    assert forall s :: CursorOf(AckTx(t, r, q), s).next == CursorOf(t, s).next;
  }

  lemma EvictKeepsSound(t: Tables, k: Key)
    requires Sound(t)
    ensures Sound(EvictTx(t, k))
  {
    assert forall s :: CursorOf(EvictTx(t, k), s) == CursorOf(t, s);
  }

  lemma FewerRowsStaySound(t: Tables, t': Tables)
    requires Sound(t) && t'.inbox.Keys <= t.inbox.Keys && t'.cursors == t.cursors
    ensures Sound(t')
  {
    assert forall s :: CursorOf(t', s) == CursorOf(t, s);
  }

  /** What a scan of positions lo..hi-1 must return: strictly increasing positions, and exactly
      the readable rows of the interval, each with its own envelope. */
  ghost predicate ExactScan(codec: Codec, t: Tables, r: string, lo: nat, hi: nat, out: seq<Delivery>) {
    && (forall i, j | 0 <= i < j < |out| :: out[i].position < out[j].position)
    && (forall i | 0 <= i < |out| :: lo <= out[i].position < hi && IsDeliveryOf(codec, t, r, out[i]))
    && (forall p: nat | lo <= p < hi && Deliverable(codec, t, r, p) :: HasPosition(out, p))
  }

  ghost predicate HasPosition(out: seq<Delivery>, p: nat) {
    exists i :: 0 <= i < |out| && out[i].position == p
  }

  predicate IsDeliveryOf(codec: Codec, t: Tables, r: string, d: Delivery) {
    && d.position < TWO_64
    && Key(r, d.position) in t.inbox
    && DeliveryFromStorage(codec, d.position, t.inbox[Key(r, d.position)].body) == Some(d.envelope)
    && d.envelope.position == d.position
  }

  ghost predicate Deliverable(codec: Codec, t: Tables, r: string, p: nat) {
    Key(r, p) in t.inbox && Readable(codec, t.inbox[Key(r, p)].body)
  }

  lemma ScanOneIsExact(codec: Codec, t: Tables, r: string, p: nat)
    requires p < TWO_64
    ensures !Deliverable(codec, t, r, p) ==> ScanOne(codec, t, r, p) == []
    ensures Deliverable(codec, t, r, p) ==>
      var one := ScanOne(codec, t, r, p);
      |one| == 1 && one[0].position == p && IsDeliveryOf(codec, t, r, one[0])
  {
    if Key(r, p) in t.inbox {
      FrameCarriesPosition(codec, p, t.inbox[Key(r, p)].body);
    }
  }

  lemma {:induction false} ScanIsExact(codec: Codec, t: Tables, r: string, lo: nat, hi: nat)
    requires hi <= TWO_63
    ensures ExactScan(codec, t, r, lo, hi, Scan(codec, t, r, lo, hi))
    decreases hi
  {
    if hi <= lo {
      NothingToScan(codec, t, r, lo, hi, Scan(codec, t, r, lo, hi));
    } else {
      ScanIsExact(codec, t, r, lo, hi - 1);
      ScanUpTo(codec, t, r, lo, hi - 1, hi);
    }
  }

  lemma NothingToScan(codec: Codec, t: Tables, r: string, lo: nat, hi: nat, out: seq<Delivery>)
    requires hi <= lo && out == []
    ensures ExactScan(codec, t, r, lo, hi, out)
  {
  }

  lemma ScanUpTo(codec: Codec, t: Tables, r: string, lo: nat, p: nat, hi: nat)
    requires lo <= p < TWO_63 && hi == p + 1 && ExactScan(codec, t, r, lo, p, Scan(codec, t, r, lo, p))
    ensures ExactScan(codec, t, r, lo, hi, Scan(codec, t, r, lo, hi))
  {
    ScanOneMore(codec, t, r, lo, p, Scan(codec, t, r, lo, p), Scan(codec, t, r, lo, hi));
  }

  lemma ScanOneMore(codec: Codec, t: Tables, r: string, lo: nat, p: nat, head: seq<Delivery>, all: seq<Delivery>)
    requires ExactScan(codec, t, r, lo, p, head) && lo <= p < TWO_63 && all == head + ScanOne(codec, t, r, p)
    ensures ExactScan(codec, t, r, lo, p + 1, all)
  {
    var one := ScanOne(codec, t, r, p);
    ScanOneIsExact(codec, t, r, p);
    if Deliverable(codec, t, r, p) {
      assert one == [one[0]];
      ScanExtends(codec, t, r, lo, p, head, one[0]);
    } else {
      assert head + one == head;
    }
  }

  lemma ScanExtends(codec: Codec, t: Tables, r: string, lo: nat, p: nat, head: seq<Delivery>, d: Delivery)
    requires ExactScan(codec, t, r, lo, p, head) && lo <= p
    requires d.position == p && IsDeliveryOf(codec, t, r, d)
    ensures ExactScan(codec, t, r, lo, p + 1, head + [d])
  {
    var out := head + [d];
    forall q: nat | lo <= q < p + 1 && Deliverable(codec, t, r, q)
      ensures HasPosition(out, q)
    {
      if q < p {
        var i :| 0 <= i < |head| && head[i].position == q;
        assert out[i].position == q;
      } else {
        assert out[|head|].position == q;
      }
    }
  }

  // ---------------------------------------------------------------------------
  // The append-only log the tables refine
  // ---------------------------------------------------------------------------

  /** One committed transaction, or a coordinator restart (which changes no table). */
  datatype Event =
    | Enqueue(to: string, row: Row)
    | Ack(device: string, acknowledged: Uint64)
    | Evict(key: Key)
    | Restart

  function Step(t: Tables, maxSize: nat, e: Event): Tables {
    match e
    case Enqueue(r, row) => EnqueueTx(t, maxSize, r, row)
    case Ack(r, q) => AckTx(t, r, q)
    case Evict(k) => EvictTx(t, k)
    case Restart => t
  }

  function Run(maxSize: nat, es: seq<Event>): Tables {
    if es == [] then EMPTY else Step(Run(maxSize, es[..|es| - 1]), maxSize, es[|es| - 1])
  }

  /** Event i of the history accepted a message for `r` under position `p`. */
  ghost predicate AcceptedAt(maxSize: nat, es: seq<Event>, i: nat, r: string, p: nat) {
    && i < |es| && es[i].Enqueue? && es[i].to == r
    && EnqueueOutcome(Run(maxSize, es[..i]), maxSize, r) == Accepted(p)
  }

  predicate Removes(e: Event, k: Key) {
    match e
    case Ack(r, q) => Covers(r, q, k)
    case Evict(gone) => gone == k
    case _ => false
  }

  /** The log's own account of what is owed, with no table in sight: accepted at event i, and
      neither acknowledged nor expired by any event after it. */
  ghost predicate OwedSince(maxSize: nat, es: seq<Event>, i: nat, k: Key) {
    && AcceptedAt(maxSize, es, i, k.recipient, k.position)
    && forall j | i < j < |es| :: !Removes(es[j], k)
  }

  lemma {:induction false} RunIsSound(maxSize: nat, es: seq<Event>)
    ensures Sound(Run(maxSize, es))
  {
    if es != [] {
      var init, last := es[..|es| - 1], es[|es| - 1];
      RunIsSound(maxSize, init);
      var t := Run(maxSize, init);
      match last
      case Enqueue(r, row) => EnqueueKeepsSound(t, maxSize, r, row);
      case Ack(r, q) => AckKeepsSound(t, r, q);
      case Evict(k) => EvictKeepsSound(t, k);
      case Restart =>
    }
  }

  /** The next position only grows along a history. */
  lemma {:induction false} NextGrows(maxSize: nat, es: seq<Event>, i: nat, r: string)
    requires i <= |es|
    ensures CursorOf(Run(maxSize, es[..i]), r).next <= CursorOf(Run(maxSize, es), r).next
    decreases |es|
  {
    if i == |es| {
      assert es[..i] == es;
    } else {
      var init := es[..|es| - 1];
      assert init[..i] == es[..i];
      NextGrows(maxSize, init, i, r);
    }
  }

  /** An event's acceptance is a fact about its prefix alone. */
  lemma AcceptedInPrefix(maxSize: nat, es: seq<Event>, n: nat, i: nat, r: string, p: nat)
    requires i < n <= |es|
    ensures AcceptedAt(maxSize, es[..n], i, r, p) <==> AcceptedAt(maxSize, es, i, r, p)
  {
    assert es[..n][..i] == es[..i];
  }

  /** Positions are never reused: later acceptances for one recipient get larger positions,
      across acknowledgements, expiries and restarts. */
  lemma PositionsGrow(maxSize: nat, es: seq<Event>, i: nat, j: nat, r: string, p: nat, p': nat)
    requires i < j && AcceptedAt(maxSize, es, i, r, p) && AcceptedAt(maxSize, es, j, r, p')
    ensures p < p'
  {
    var upTo := es[..j];
    assert upTo[..i + 1] == es[..i + 1];
    assert es[..i + 1][..i] == es[..i];
    assert Run(maxSize, es[..i + 1]) == Step(Run(maxSize, es[..i]), maxSize, es[i]);
    NextGrows(maxSize, upTo, i + 1, r);
  }

  ghost predicate Adds(t: Tables, maxSize: nat, e: Event, k: Key) {
    e.Enqueue? && e.to == k.recipient && EnqueueOutcome(t, maxSize, e.to) == Accepted(k.position)
  }

  /** One event's effect on one key. An added key was never in the table before. */
  lemma StepOnKey(t: Tables, maxSize: nat, e: Event, k: Key)
    requires Sound(t)
    ensures Adds(t, maxSize, e, k) ==>
      k !in t.inbox && k in Step(t, maxSize, e).inbox && Step(t, maxSize, e).inbox[k] == e.row
    ensures !Adds(t, maxSize, e, k) ==>
      && (k in Step(t, maxSize, e).inbox <==> k in t.inbox && !Removes(e, k))
      && (k in Step(t, maxSize, e).inbox ==> Step(t, maxSize, e).inbox[k] == t.inbox[k])
  {
  }

  /** Whatever the log says is owed is in the tables, row for row. */
  lemma {:induction false} OwedIsRetained(maxSize: nat, es: seq<Event>, i: nat, k: Key)
    requires OwedSince(maxSize, es, i, k)
    ensures k in Run(maxSize, es).inbox && Run(maxSize, es).inbox[k] == es[i].row
    decreases |es|
  {
    var n := |es| - 1;
    var init := es[..n];
    RunIsSound(maxSize, init);
    StepOnKey(Run(maxSize, init), maxSize, es[n], k);
    if i < n {
      AcceptedInPrefix(maxSize, es, n, i, k.recipient, k.position);
      OwedIsRetained(maxSize, init, i, k);
    }
  }

  lemma StillOwed(maxSize: nat, es: seq<Event>, i: nat, k: Key)
    requires es != [] && OwedSince(maxSize, es[..|es| - 1], i, k) && !Removes(es[|es| - 1], k)
    ensures OwedSince(maxSize, es, i, k)
  {
    var init := es[..|es| - 1];
    AcceptedInPrefix(maxSize, es, |es| - 1, i, k.recipient, k.position);
    assert forall j | i < j < |init| :: es[j] == init[j];
  }

  /** Whatever the tables hold is owed: some event accepted it and none has removed it since. */
  lemma {:induction false} RetainedIsOwed(maxSize: nat, es: seq<Event>, k: Key) returns (i: nat)
    requires k in Run(maxSize, es).inbox
    ensures OwedSince(maxSize, es, i, k)
    decreases |es|
  {
    assert es != [];
    var n := |es| - 1;
    var init := es[..n];
    RunIsSound(maxSize, init);
    StepOnKey(Run(maxSize, init), maxSize, es[n], k);
    if Adds(Run(maxSize, init), maxSize, es[n], k) {
      i := n;
    } else {
      i := RetainedIsOwed(maxSize, init, k);
      StillOwed(maxSize, es, i, k);
    }
  }

  /** The queue refines an append-only log, whatever happened before: Resume returns, in strictly
      increasing position order, exactly the accepted and readable messages past `after` that no
      later acknowledgement covered and no sweep evicted. */
  lemma ResumeRefinesLog(codec: Codec, maxSize: nat, es: seq<Event>, r: string, after: Uint64)
    ensures var out := Resume(codec, Run(maxSize, es), r, after);
      && (forall i, j | 0 <= i < j < |out| :: out[i].position < out[j].position)
      && (forall d | d in out :: exists i: nat ::
            && OwedSince(maxSize, es, i, Key(r, d.position))
            && d.position > Int64(after) && d.position < TWO_64
            && DeliveryFromStorage(codec, d.position, es[i].row.body) == Some(d.envelope))
      && (forall i: nat, p: nat | OwedSince(maxSize, es, i, Key(r, p)) && p > Int64(after)
                                  && Readable(codec, es[i].row.body) :: HasPosition(out, p))
  {
    var t := Run(maxSize, es);
    RunIsSound(maxSize, es);
    var lo, hi := FirstAfter(after), CursorOf(t, r).next;
    var out := Resume(codec, t, r, after);
    ScanIsExact(codec, t, r, lo, hi);
    forall d | d in out
      ensures exists i: nat ::
        && OwedSince(maxSize, es, i, Key(r, d.position))
        && d.position > Int64(after) && d.position < TWO_64
        && DeliveryFromStorage(codec, d.position, es[i].row.body) == Some(d.envelope)
    {
      var i := RetainedIsOwed(maxSize, es, Key(r, d.position));
      OwedIsRetained(maxSize, es, i, Key(r, d.position));
    }
    forall i: nat, p: nat | OwedSince(maxSize, es, i, Key(r, p)) && p > Int64(after)
                            && Readable(codec, es[i].row.body)
      ensures HasPosition(out, p)
    {
      OwedIsRetained(maxSize, es, i, Key(r, p));
      assert Deliverable(codec, t, r, p);
    }
  }

  /** A readable message that is owed is resumed, from its own row. */
  lemma OwedIsResumed(codec: Codec, maxSize: nat, es: seq<Event>, i: nat, k: Key, after: Uint64) returns (n: nat)
    requires OwedSince(maxSize, es, i, k) && Int64(after) < k.position && Readable(codec, es[i].row.body)
    ensures var out := Resume(codec, Run(maxSize, es), k.recipient, after);
      && n < |out| && out[n].position == k.position && k.position < TWO_64
      && DeliveryFromStorage(codec, k.position, es[i].row.body) == Some(out[n].envelope)
  {
    var t := Run(maxSize, es);
    OwedIsRetained(maxSize, es, i, k);
    RunIsSound(maxSize, es);
    ScanIsExact(codec, t, k.recipient, FirstAfter(after), CursorOf(t, k.recipient).next);
    assert Deliverable(codec, t, k.recipient, k.position);
    var out := Resume(codec, t, k.recipient, after);
    n :| 0 <= n < |out| && out[n].position == k.position;
    assert IsDeliveryOf(codec, t, k.recipient, out[n]);
  }

  /** An overshooting acknowledgement hides nothing that comes later: a message accepted as the
      last event is resumed from any point below its position, whatever was acknowledged before. */
  lemma OvershootHidesNothing(codec: Codec, maxSize: nat, es: seq<Event>, r: string, row: Row, after: Uint64, p: nat)
    requires AcceptedAt(maxSize, es + [Enqueue(r, row)], |es|, r, p)
    requires Readable(codec, row.body) && Int64(after) < p
    ensures HasPosition(Resume(codec, Run(maxSize, es + [Enqueue(r, row)]), r, after), p)
  {
    ResumeRefinesLog(codec, maxSize, es + [Enqueue(r, row)], r, after);
    assert OwedSince(maxSize, es + [Enqueue(r, row)], |es|, Key(r, p));
  }

  // ---------------------------------------------------------------------------
  // The size cap
  // ---------------------------------------------------------------------------

  lemma SubsetSize<T>(small: set<T>, big: set<T>)
    requires small <= big
    ensures |small| <= |big|
  {
    assert big == small + (big - small);
  }

  /** No history takes a recipient past the cap. */
  lemma {:induction false} CapHolds(maxSize: nat, es: seq<Event>, r: string)
    ensures |Retained(Run(maxSize, es), r)| <= maxSize
  {
    if es != [] {
      var init, e := es[..|es| - 1], es[|es| - 1];
      var t, t' := Run(maxSize, init), Run(maxSize, es);
      CapHolds(maxSize, init, r);
      if e.Enqueue? && EnqueueOutcome(t, maxSize, e.to).Accepted? {
        var k := Key(e.to, CursorOf(t, e.to).next);
        if e.to == r {
          assert Retained(t', r) == Retained(t, r) + {k};
        } else {
          assert Retained(t', r) == Retained(t, r);
        }
      } else {
        SubsetSize(Retained(t', r), Retained(t, r));
      }
    }
  }

  /** The keys a recipient is owed at the end of a history. */
  ghost predicate AreOwed(maxSize: nat, es: seq<Event>, r: string, owed: set<Key>) {
    forall k :: k in owed <==> k.recipient == r && exists i: nat :: OwedSince(maxSize, es, i, k)
  }

  ghost predicate AcceptedFor(maxSize: nat, es: seq<Event>, i: nat, r: string) {
    exists p: nat :: AcceptedAt(maxSize, es, i, r, p)
  }

  /** How many messages were accepted for r. */
  ghost function AcceptedSoFar(maxSize: nat, es: seq<Event>, r: string): nat {
    if es == [] then 0
    else
      var more := if AcceptedFor(maxSize, es, |es| - 1, r) then 1 else 0;
      AcceptedSoFar(maxSize, es[..|es| - 1], r) + more
  }

  /** Positions are dense: the next one counts the acceptances before it. */
  lemma {:induction false} NextCountsAcceptances(maxSize: nat, es: seq<Event>, r: string)
    ensures CursorOf(Run(maxSize, es), r).next == 1 + AcceptedSoFar(maxSize, es, r)
  {
    if es != [] {
      var init, e := es[..|es| - 1], es[|es| - 1];
      var t := Run(maxSize, init);
      NextCountsAcceptances(maxSize, init, r);
      if e.Enqueue? && e.to == r && EnqueueOutcome(t, maxSize, r).Accepted? {
        assert AcceptedAt(maxSize, es, |es| - 1, r, EnqueueOutcome(t, maxSize, r).position);
      } else {
        assert CursorOf(Step(t, maxSize, e), r).next == CursorOf(t, r).next;
      }
    }
  }

  lemma OwedAreRetained(maxSize: nat, es: seq<Event>, r: string, owed: set<Key>)
    requires AreOwed(maxSize, es, r, owed)
    ensures owed == Retained(Run(maxSize, es), r)
  {
    forall k ensures k in owed <==> k in Retained(Run(maxSize, es), r) {
      if k in owed {
        var i: nat :| OwedSince(maxSize, es, i, k);
        OwedIsRetained(maxSize, es, i, k);
      }
      if k in Retained(Run(maxSize, es), r) {
        var i := RetainedIsOwed(maxSize, es, k);
      }
    }
  }

  /** When a message is accepted, in every history: exactly when its recipient is owed fewer than maxSize, and
      a position is left; and then under the position that counts the acceptances so far. */
  lemma AcceptedExactlyBelowTheCap(maxSize: nat, es: seq<Event>, r: string, row: Row, owed: set<Key>, p: nat)
    ensures AreOwed(maxSize, es, r, owed) ==>
      (AcceptedAt(maxSize, es + [Enqueue(r, row)], |es|, r, p) <==>
        |owed| < maxSize && p == 1 + AcceptedSoFar(maxSize, es, r) <= MAX_INT64)
  {
    if AreOwed(maxSize, es, r, owed) {
      OwedAreRetained(maxSize, es, r, owed);
      NextCountsAcceptances(maxSize, es, r);
      assert (es + [Enqueue(r, row)])[..|es|] == es;
      AdmissionIs(Run(maxSize, es), maxSize, r, row);
    }
  }

  /** The acknowledged position is the highest ever acknowledged, whatever came in between. */
  lemma {:induction false} AckedIsTheHighest(maxSize: nat, es: seq<Event>, r: string)
    ensures var acked := CursorOf(Run(maxSize, es), r).acked;
      && acked >= 0
      && (forall i | 0 <= i < |es| && es[i].Ack? && es[i].device == r :: Int64(es[i].acknowledged) <= acked)
      && (acked > 0 ==> exists i :: 0 <= i < |es| && AcksAt(es, i, r, acked))
  {
    if es != [] {
      var init, e := es[..|es| - 1], es[|es| - 1];
      AckedIsTheHighest(maxSize, init, r);
      var t, t' := Run(maxSize, init), Run(maxSize, es);
      var before, after := CursorOf(t, r).acked, CursorOf(t', r).acked;
      if before > 0 {
        var i :| 0 <= i < |init| && AcksAt(init, i, r, before);
        assert AcksAt(es, i, r, before);
      }
      if e.Ack? && e.device == r && before < Int64(e.acknowledged) {
        assert AcksAt(es, |es| - 1, r, after);
      } else {
        assert after == before;
      }
    }
  }

  ghost predicate AcksAt(es: seq<Event>, i: nat, r: string, position: int) {
    i < |es| && es[i].Ack? && es[i].device == r && Int64(es[i].acknowledged) == position
  }

  // ---------------------------------------------------------------------------
  // PendingCount against Resume
  // ---------------------------------------------------------------------------

  function FirstAfter(after: Uint64): nat {
    if Int64(after) < 0 then 0 else Int64(after) + 1
  }

  lemma {:induction false} ScanAfterAck(codec: Codec, t: Tables, r: string, q: Uint64, lo: nat, hi: nat)
    ensures Scan(codec, AckTx(t, r, q), r, lo, hi) ==
      Scan(codec, t, r, if lo <= Int64(q) then Int64(q) + 1 else lo, hi)
    decreases hi
  {
    if hi > lo {
      ScanAfterAck(codec, t, r, q, lo, hi - 1);
    }
  }

  lemma {:induction false} ScanSameRows(codec: Codec, t: Tables, t': Tables, r: string, lo: nat, hi: nat)
    requires forall k: Key | k.recipient == r :: k in t.inbox <==> k in t'.inbox
    requires forall k: Key | k.recipient == r && k in t.inbox :: t'.inbox[k] == t.inbox[k]
    ensures Scan(codec, t', r, lo, hi) == Scan(codec, t, r, lo, hi)
    decreases hi
  {
    if hi > lo {
      ScanSameRows(codec, t, t', r, lo, hi - 1);
    }
  }

  /** After an acknowledgement a resume from `after` is what a resume from the later of the two would have been
      before, late and repeated acknowledgements included; and other recipients' resumes are what they were. */
  lemma AckThenResume(codec: Codec, t: Tables, r: string, q: Uint64, after: Uint64)
    ensures Resume(codec, AckTx(t, r, q), r, after) ==
      Resume(codec, t, r, if Int64(after) < Int64(q) then q else after)
    ensures forall r' | r' != r :: Resume(codec, AckTx(t, r, q), r', after) == Resume(codec, t, r', after)
  {
    ScanAfterAck(codec, t, r, q, FirstAfter(after), CursorOf(t, r).next);
    forall r' | r' != r ensures Resume(codec, AckTx(t, r, q), r', after) == Resume(codec, t, r', after) {
      ScanSameRows(codec, t, AckTx(t, r, q), r', FirstAfter(after), CursorOf(t, r').next);
    }
  }

  /** A position at or above 2^63 reads as a negative one: an acknowledgement of it deletes nothing and moves no
      cursor, and a resume from it returns all there is. */
  lemma HugePositionsWrap(codec: Codec, maxSize: nat, es: seq<Event>, r: string, q: Uint64)
    requires q >= 0x8000_0000_0000_0000
    ensures var t := Run(maxSize, es);
      && AckTx(t, r, q).inbox == t.inbox && CursorOf(AckTx(t, r, q), r) == CursorOf(t, r)
      && Resume(codec, t, r, q) == Resume(codec, t, r, 0)
  {
    var t := Run(maxSize, es);
    AckedIsTheHighest(maxSize, es, r);
    RunIsSound(maxSize, es);
    AckThenResume(codec, t, r, 0, q);
    ScanSameRows(codec, t, AckTx(t, r, 0), r, 0, CursorOf(t, r).next);
  }

  function Between(t: Tables, r: string, lo: int, hi: int): set<Key> {
    set k | k in t.inbox && k.recipient == r && lo <= k.position < hi
  }

  /** SELECT COUNT(*) ... WHERE recipient = ? AND position > ? */
  function PendingCount(t: Tables, r: string, after: Uint64): nat {
    |set k | k in t.inbox && k.recipient == r && k.position > Int64(after)|
  }

  function Unreadable(codec: Codec, t: Tables, r: string, lo: int, hi: int): set<Key> {
    set k | k in Between(t, r, lo, hi) && k in t.inbox && !Readable(codec, t.inbox[k].body)
  }

  lemma {:induction false} ScanSize(codec: Codec, t: Tables, r: string, lo: nat, hi: nat)
    requires hi <= TWO_63
    ensures |Scan(codec, t, r, lo, hi)| + |Unreadable(codec, t, r, lo, hi)| == |Between(t, r, lo, hi)|
    decreases hi
  {
    if hi <= lo {
      assert Between(t, r, lo, hi) == {} && Unreadable(codec, t, r, lo, hi) == {};
    } else {
      ScanSize(codec, t, r, lo, hi - 1);
      ScanOneIsExact(codec, t, r, hi - 1);
      OneMorePosition(codec, t, r, lo, hi - 1);
    }
  }

  lemma OneMorePosition(codec: Codec, t: Tables, r: string, lo: nat, p: nat)
    requires lo <= p
    ensures |Between(t, r, lo, p + 1)| == |Between(t, r, lo, p)| + if Key(r, p) in t.inbox then 1 else 0
    ensures |Unreadable(codec, t, r, lo, p + 1)| == |Unreadable(codec, t, r, lo, p)| +
      if Key(r, p) in t.inbox && !Readable(codec, t.inbox[Key(r, p)].body) then 1 else 0
  {
    var k := Key(r, p);
    if k in t.inbox {
      assert Between(t, r, lo, p + 1) == Between(t, r, lo, p) + {k};
    } else {
      assert Between(t, r, lo, p + 1) == Between(t, r, lo, p);
    }
    if k in t.inbox && !Readable(codec, t.inbox[k].body) {
      assert Unreadable(codec, t, r, lo, p + 1) == Unreadable(codec, t, r, lo, p) + {k};
    } else {
      assert Unreadable(codec, t, r, lo, p + 1) == Unreadable(codec, t, r, lo, p);
    }
  }

  /** On any sound tables, whoever wrote them: PendingCount never undercounts Resume, and the two agree
      exactly when every pending row is readable. */
  lemma PendingCountOnTables(codec: Codec, t: Tables, r: string, after: Uint64)
    requires Sound(t)
    ensures |Resume(codec, t, r, after)| <= PendingCount(t, r, after)
    ensures |Resume(codec, t, r, after)| == PendingCount(t, r, after) <==>
      forall k | k in t.inbox && k.recipient == r && k.position > Int64(after) :: Readable(codec, t.inbox[k].body)
  {
    var lo, hi := FirstAfter(after), CursorOf(t, r).next;
    ScanSize(codec, t, r, lo, hi);
    assert (set k | k in t.inbox && k.recipient == r && k.position > Int64(after)) == Between(t, r, lo, hi);
    if |Unreadable(codec, t, r, lo, hi)| == 0 {
      assert Unreadable(codec, t, r, lo, hi) == {};
      forall k | k in t.inbox && k.recipient == r && k.position > Int64(after)
        ensures Readable(codec, t.inbox[k].body)
      {
        assert k !in Unreadable(codec, t, r, lo, hi);
      }
    } else {
      var k :| k in Unreadable(codec, t, r, lo, hi);
    }
  }

  /** So in every history. */
  lemma PendingCountAgainstResume(codec: Codec, maxSize: nat, es: seq<Event>, r: string, after: Uint64)
    ensures var t := Run(maxSize, es);
      && |Resume(codec, t, r, after)| <= PendingCount(t, r, after)
      && (|Resume(codec, t, r, after)| == PendingCount(t, r, after) <==>
            forall k | k in t.inbox && k.recipient == r && k.position > Int64(after) ::
              Readable(codec, t.inbox[k].body))
  {
    RunIsSound(maxSize, es);
    PendingCountOnTables(codec, Run(maxSize, es), r, after);
  }

  /** A body this build writes: a marshalled envelope, sealed or not, framed for storage. */
  ghost predicate Framed(codec: Codec, body: Bytes) {
    exists env, verdict :: FramedAs(codec, body, env, verdict)
  }

  ghost predicate FramedAs(codec: Codec, body: Bytes, env: Envelope, verdict: SealVerdict) {
    codec.marshal(env).Some? && SealForStorage(verdict, codec.marshal(env).value) == Some(body)
  }

  lemma FramedIsReadable(codec: Codec, body: Bytes)
    requires RoundTrips(codec) && Framed(codec, body)
    ensures Readable(codec, body)
  {
    var env, verdict :| FramedAs(codec, body, env, verdict);
    FramingRoundTrips(codec, env, verdict, 0);
  }

  /** As long as every row was written by this build, the two agree in every history. */
  lemma PendingCountAgreesWithResume(codec: Codec, maxSize: nat, es: seq<Event>, r: string, after: Uint64)
    requires RoundTrips(codec)
    requires forall i | 0 <= i < |es| && es[i].Enqueue? :: Framed(codec, es[i].row.body)
    ensures |Resume(codec, Run(maxSize, es), r, after)| == PendingCount(Run(maxSize, es), r, after)
  {
    var t := Run(maxSize, es);
    RunIsSound(maxSize, es);
    forall k | k in t.inbox ensures Readable(codec, t.inbox[k].body) {
      var i := RetainedIsOwed(maxSize, es, k);
      OwedIsRetained(maxSize, es, i, k);
      FramedIsReadable(codec, es[i].row.body);
    }
    PendingCountOnTables(codec, t, r, after);
  }

  /** Tables found on disk may hold rows it did not write: under a marker this build does not know, a
      row is counted and never resumed. */
  lemma PendingCountCanExceedResume(codec: Codec, enqueuedAt: Instant)
    ensures var t := Tables(map[Key("bob", 1) := Row("m", [7], enqueuedAt)], map["bob" := Cursor(2, 0)]);
      Sound(t) && PendingCount(t, "bob", 0) == 1 && Resume(codec, t, "bob", 0) == []
  {
    var k := Key("bob", 1);
    var t := Tables(map[k := Row("m", [7], enqueuedAt)], map["bob" := Cursor(2, 0)]);
    assert (set x | x in t.inbox && x.recipient == "bob" && x.position > Int64(0)) == {k};
    assert Scan(codec, t, "bob", 1, 1) == [];
    assert Scan(codec, t, "bob", 1, 2) == Scan(codec, t, "bob", 1, 1) + ScanOne(codec, t, "bob", 1);
  }

  // ---------------------------------------------------------------------------
  // The queue object
  // ---------------------------------------------------------------------------

  datatype EnqueueReply = Queued(position: nat) | AtCapacity | Failed

  function ReplyTo(outcome: EnqueueResult): EnqueueReply {
    match outcome
    case Accepted(p) => Queued(p)
    case CapacityRefused => AtCapacity
    case PositionsExhausted => Failed
  }

  /** What an enqueue that gets as far as its transaction does, row by row: it is refused at capacity exactly
      when the recipient's rows number maxSize or more, queued under the next position exactly when they do
      not and a position is left; and only a queued message changes anything. */
  ghost predicate Admits(
    inbox: map<Key, Row>, cursors: map<string, Cursor>, inbox': map<Key, Row>, cursors': map<string, Cursor>,
    maxSize: nat, recipient: string, row: Row, reply: EnqueueReply)
  {
    var rows := |set k | k in inbox && k.recipient == recipient|;
    var next := if recipient in cursors then cursors[recipient].next else 1;
    var acked := if recipient in cursors then cursors[recipient].acked else 0;
    && (reply == AtCapacity <==> rows >= maxSize)
    && (reply == Queued(next) <==> rows < maxSize && next <= MAX_INT64)
    && (reply == Failed <==> rows < maxSize && next > MAX_INT64)
    && inbox' == (if reply.Queued? then inbox[Key(recipient, next) := row] else inbox)
    && cursors' == (if reply.Queued? then cursors[recipient := Cursor(next + 1, acked)] else cursors)
  }

  lemma AdmissionIs(t: Tables, maxSize: nat, r: string, row: Row)
    ensures var t' := EnqueueTx(t, maxSize, r, row);
      Admits(t.inbox, t.cursors, t'.inbox, t'.cursors, maxSize, r, row, ReplyTo(EnqueueOutcome(t, maxSize, r)))
  {
  }

  class OfflineQueue {
    const codec: Codec
    const ttl: nat
    const maxSize: nat
    var inbox: map<Key, Row>
    var cursors: map<string, Cursor>
    var closed: bool

    ghost function State(): Tables
      reads this
    {
      Tables(inbox, cursors)
    }

    ghost predicate Valid()
      reads this
    {
      Sound(State())
    }

    /** newQueue over whatever the previous process committed, startup sweep included. */
    constructor (codec: Codec, ttl: nat, maxSize: nat, stored: Tables, now: Instant)
      requires Sound(stored)
      ensures Valid() && !closed
      ensures this.codec == codec && this.ttl == ttl && this.maxSize == maxSize
      ensures cursors == stored.cursors && inbox == Unexpired(stored.inbox, now - ttl)
      ensures KeepsTheYoung(stored.inbox, inbox, now - ttl)
    {
      this.codec, this.ttl, this.maxSize, closed := codec, ttl, maxSize, false;
      inbox, cursors := stored.inbox, stored.cursors;
      new;
      Sweep(now);
    }

    /** Marshal and seal outside the lock, then one transaction under it. */
    method Enqueue(recipient: string, env: Envelope, verdict: SealVerdict, now: Instant) returns (reply: EnqueueReply)
      requires Valid()
      modifies this`inbox, this`cursors
      ensures Valid()
      ensures closed || codec.marshal(env).None? || verdict.SealRefused? ==>
        reply == Failed && State() == old(State())
      ensures !closed && codec.marshal(env).Some? && !verdict.SealRefused? ==>
        var row := Row(env.messageId, SealForStorage(verdict, codec.marshal(env).value).value, now);
        && State() == EnqueueTx(old(State()), maxSize, recipient, row)
        && reply == ReplyTo(EnqueueOutcome(old(State()), maxSize, recipient))
        && Admits(old(inbox), old(cursors), inbox, cursors, maxSize, recipient, row, reply)
    {
      var marshalled := codec.marshal(env);
      if marshalled.None? { return Failed; }
      var body := SealForStorage(verdict, marshalled.value);
      if body.None? || closed { return Failed; }
      var cursor := CursorOf(Tables(inbox, cursors), recipient);
      var retained := |Retained(Tables(inbox, cursors), recipient)|;
      AdmissionIs(State(), maxSize, recipient, Row(env.messageId, body.value, now));
      if retained >= maxSize { return AtCapacity; }
      if cursor.next > MAX_INT64 { return Failed; }
      var row := Row(env.messageId, body.value, now);
      EnqueueKeepsSound(State(), maxSize, recipient, row);
      inbox := inbox[Key(recipient, cursor.next) := row];
      cursors := cursors[recipient := Cursor(cursor.next + 1, cursor.acked)];
      assert State() == EnqueueTx(old(State()), maxSize, recipient, row);
      reply := Queued(cursor.next);
    }

    /** The routing layer's way in: only direct messages are queued. */
    method Deliver(recipient: string, env: Envelope, verdict: SealVerdict, now: Instant) returns (reply: EnqueueReply)
      requires Valid()
      modifies this`inbox, this`cursors
      ensures Valid()
      ensures !env.payload.DirectMessage? || closed || codec.marshal(env).None? || verdict.SealRefused? ==>
        reply == Failed && State() == old(State())
      ensures env.payload.DirectMessage? && !closed && codec.marshal(env).Some? && !verdict.SealRefused? ==>
        var row := Row(env.messageId, SealForStorage(verdict, codec.marshal(env).value).value, now);
        && State() == EnqueueTx(old(State()), maxSize, recipient, row)
        && reply == ReplyTo(EnqueueOutcome(old(State()), maxSize, recipient))
        && Admits(old(inbox), old(cursors), inbox, cursors, maxSize, recipient, row, reply)
      ensures forall k | k in inbox && k !in old(inbox) ::
        env.payload.DirectMessage? && FramedAs(codec, inbox[k].body, env, verdict)
    {
      if !env.payload.DirectMessage? { return Failed; }
      reply := Enqueue(recipient, env, verdict, now);
    }

    method Ack(recipient: string, position: Uint64) returns (ok: bool)
      requires Valid()
      modifies this`inbox, this`cursors
      ensures Valid() && ok == !closed
      ensures State() == if closed then old(State()) else AckTx(old(State()), recipient, position)
      ensures !closed ==> forall k :: k in inbox <==>
        k in old(inbox) && !(k.recipient == recipient && k.position <= Int64(position))
      ensures !closed ==> recipient in cursors
      ensures !closed ==>
        var was := if recipient in old(cursors) then old(cursors)[recipient].acked else 0;
        cursors[recipient].acked == if was < Int64(position) then Int64(position) else was
    {
      if closed { return false; }
      AckKeepsSound(State(), recipient, position);
      var cursor := CursorOf(Tables(inbox, cursors), recipient);
      if cursor.acked < Int64(position) {
        cursor := cursor.(acked := Int64(position));
      }
      cursors := cursors[recipient := cursor];
      inbox := map k | k in inbox && !Covers(recipient, position, k) :: inbox[k];
      assert State() == AckTx(old(State()), recipient, position);
      ok := true;
    }

    /** Walks the recipient's rows in position order, skipping the unreadable ones. */
    method ResumeFrom(recipient: string, after: Uint64) returns (out: seq<Delivery>)
      requires Valid()
      ensures out == Resume(codec, State(), recipient, after)
      ensures ExactScan(codec, State(), recipient, FirstAfter(after), CursorOf(State(), recipient).next, out)
    {
      out := [];
      var lo := FirstAfter(after);
      var hi := if recipient in cursors then cursors[recipient].next else 1;
      assert hi == CursorOf(State(), recipient).next <= TWO_63;
      var p := lo;
      while p < hi
        invariant p == lo || lo <= p <= hi
        invariant out == Scan(codec, State(), recipient, lo, p)
      {
        if Key(recipient, p) in inbox && p < TWO_64 {
          var env := DeliveryFromStorage(codec, p, inbox[Key(recipient, p)].body);
          if env.Some? {
            out := out + [Delivery(p, env.value)];
          }
        }
        p := p + 1;
      }
      assert hi <= lo ==> Scan(codec, State(), recipient, lo, hi) == [] == Scan(codec, State(), recipient, lo, p);
      ScanIsExact(codec, State(), recipient, lo, hi);
    }

    /** Collect the rows past the TTL, then delete them one by one. */
    method Sweep(now: Instant)
      requires Valid()
      modifies this`inbox
      ensures Valid() && inbox == Unexpired(old(inbox), now - ttl)
      ensures KeepsTheYoung(old(inbox), inbox, now - ttl)
    {
      var due := set k | k in inbox && inbox[k].enqueuedAt <= now - ttl;
      ghost var all := due;
      while due != {}
        invariant due <= all
        invariant inbox == map k | k in old(inbox) && (k in due || k !in all) :: old(inbox)[k]
        decreases due
      {
        var k :| k in due;
        inbox, due := inbox - {k}, due - {k};
      }
      FewerRowsStaySound(old(State()), State());
    }

    method Close()
      modifies this`closed
      ensures closed
    {
      closed := true;
    }
  }

  /** Row by row: stays as it is exactly when stored after the cutoff. */
  ghost predicate KeepsTheYoung(inbox: map<Key, Row>, inbox': map<Key, Row>, cutoff: Instant) {
    && (forall k :: k in inbox' <==> k in inbox && inbox[k].enqueuedAt > cutoff)
    && (forall k | k in inbox' :: inbox'[k] == inbox[k])
  }

  /** What a completed sweep leaves: the rows younger than the cutoff. */
  function Unexpired(inbox: map<Key, Row>, cutoff: Instant): map<Key, Row> {
    map k | k in inbox && inbox[k].enqueuedAt > cutoff :: inbox[k]
  }
}
