/** The resume protocol end to end: the queue with its sweep, the coordinator's hello and ack
    handlers, and any number of client processes of one device that connect, read, acknowledge,
    lose frames, crash and start again. */
module AckProtocol {
  import opened Basics
  import opened Envelopes
  import opened SealedStorage
  import opened Queue
  import Sweep

  /** What does not change during a run: the codec, the size cap and the device whose mail it is. */
  datatype World = World(codec: Codec, maxSize: nat, me: string)

  type ClientId = nat

  /** One connection as the client sees it. `HelloSent` carries the position its Hello reported;
      `Served` holds the frames the coordinator wrote for it, of which `got` have been read. */
  datatype Link =
    | Offline
    | HelloSent(after: Uint64)
    | Served(frames: seq<Delivery>, got: nat)

  /** A client process. `owes` is the frame already applied whose acknowledgement comes next; `heard` and
      `restored` are history: everything this process handed to Hub.Apply, and every position it was told
      to restore. */
  datatype Client = Client(
    acked: Uint64, link: Link, owes: Option<Uint64>, heard: seq<Envelope>, restored: set<Uint64>)

  /** `acks` holds every acknowledgement ever sent: leaving one undelivered models loss,
      delivering one again models duplication and reordering. `processed` are the positions
      handed to Hub.Apply by some process of this device. */
  datatype State = State(
    queue: Sweep.State,
    clients: map<ClientId, Client>,
    acks: set<Uint64>,
    processed: set<nat>)

  datatype Event =
    | QueueStep(e: Sweep.Event)
    | Start(c: ClientId)
    | Restore(c: ClientId, from: ClientId)
    | SendHello(c: ClientId)
    | ServeHello(c: ClientId)
    | Receive(c: ClientId)
    | Acknowledge(c: ClientId)
    | Disconnect(c: ClientId)
    | DeliverAck(a: Uint64)

  const INITIAL: State := State(Sweep.INITIAL, map[], {}, {})

  /** What OnEnvelope hands to Hub.Apply. Presence updates go to the roster instead; they are among the
      payloads the hub knows nothing about. */
  predicate ForHub(env: Envelope) {
    !env.payload.OtherPayload?
  }

  /** Deliver queues direct messages only, so no stored row reads back as anything else. */
  predicate Queueable(w: World, body: Bytes) {
    var frame := DeliveryFromStorage(w.codec, 0, body);
    frame.Some? ==> ForHub(frame.value)
  }

  /** What Deliver writes is queueable: a framed direct message reads back as itself or as a sealed box. */
  lemma DeliveredIsQueueable(w: World, body: Bytes, env: Envelope, verdict: SealVerdict)
    requires RoundTrips(w.codec) && env.payload.DirectMessage? && FramedAs(w.codec, body, env, verdict)
    ensures Queueable(w, body)
  {
    FramingRoundTrips(w.codec, env, verdict, 0);
  }

  /** The queue's own steps: this device's rows come through Deliver, and are acknowledged through
      DeliverAck only. */
  predicate Allowed(w: World, q: Sweep.Event) {
    && !(q.Acked? && q.device == w.me)
    && (q.Enqueued? && q.to == w.me ==> Queueable(w, q.row.body))
  }

  function WithClient(s: State, c: ClientId, client: Client): State {
    s.(clients := s.clients[c := client])
  }

  function Step(w: World, s: State, e: Event): State {
    match e
    case QueueStep(q) =>
      if !Allowed(w, q) then s else s.(queue := Sweep.Step(s.queue, w.maxSize, q))
    case Start(c) => WithClient(s, c, Client(0, Offline, None, [], {}))
    case DeliverAck(a) =>
      if a !in s.acks then s else s.(queue := Sweep.Step(s.queue, w.maxSize, Sweep.Acked(w.me, a)))
    case Restore(c, from) =>
      if c !in s.clients || from !in s.clients then s
      else WithClient(s, c, Restored(s.clients[c], s.clients[from].acked))
    case SendHello(c) =>
      if c in s.clients && s.clients[c].link.Offline? && s.clients[c].owes.None?
      then WithClient(s, c, s.clients[c].(link := HelloSent(s.clients[c].acked))) else s
    case ServeHello(c) =>
      if c in s.clients && s.clients[c].link.HelloSent?
      then WithClient(s, c, s.clients[c].(link :=
        Served(Resume(w.codec, s.queue.tables, w.me, s.clients[c].link.after), 0))) else s
    case Receive(c) => if c in s.clients then ReceiveStep(s, c) else s
    case Acknowledge(c) => if c in s.clients then AcknowledgeStep(s, c) else s
    case Disconnect(c) =>
      if c in s.clients then WithClient(s, c, s.clients[c].(link := Offline)) else s
  }

  /** Client.RestoreAckPosition: only forward. */
  function Restored(me: Client, position: Uint64): Client {
    me.(acked := if position > me.acked then position else me.acked, restored := me.restored + {position})
  }

  /** The read loop hands the next frame to OnEnvelope: Apply first, and for a sealed frame an
      acknowledgement of its outer position afterwards, whatever Apply decided. */
  function ReceiveStep(s: State, c: ClientId): State
    requires c in s.clients
  {
    var me := s.clients[c];
    if me.link.Served? && me.link.got < |me.link.frames| && me.owes.None? then
      var env := me.link.frames[me.link.got].envelope;
      WithClient(s, c, Client(me.acked, me.link.(got := me.link.got + 1),
                              if env.payload.SealedDelivery? then Some(env.position) else None,
                              if ForHub(env) then me.heard + [env] else me.heard, me.restored))
        .(processed := if ForHub(env) then s.processed + {env.position} else s.processed)
    else s
  }

  /** Client.Acknowledge: only forward, recorded locally, then sent. */
  function AcknowledgeStep(s: State, c: ClientId): State
    requires c in s.clients
  {
    var me := s.clients[c];
    if me.owes.None? then s
    else if me.owes.value <= me.acked then WithClient(s, c, me.(owes := None))
    else WithClient(s, c, me.(acked := me.owes.value, owes := None)).(acks := s.acks + {me.owes.value})
  }

  function Run(w: World, es: seq<Event>): State {
    if es == [] then INITIAL else Step(w, Run(w, es[..|es| - 1]), es[|es| - 1])
  }

  // ---------------------------------------------------------------------------
  // The invariant
  // ---------------------------------------------------------------------------

  /** Nothing is lost by deleting position p: it was applied, or it expired, or nobody could
      ever have read it. */
  ghost predicate Settled(w: World, s: State, p: nat) {
    || p in s.processed
    || Key(w.me, p) in s.queue.expired
    || (Key(w.me, p) in s.queue.issued && !Readable(w.codec, s.queue.issued[Key(w.me, p)].body))
  }

  /** An acknowledgement of n would be safe, and n is a position the queue has issued (or zero). */
  ghost predicate SettledUpTo(w: World, s: State, n: nat) {
    && n < CursorOf(s.queue.tables, w.me).next
    && forall p: nat | 1 <= p <= n :: Settled(w, s, p)
  }

  /** Reading the frames in order settles every gap before it reaches a position. */
  ghost predicate FramesInOrder(w: World, s: State, frames: seq<Delivery>) {
    forall i | 0 <= i < |frames| ::
      && frames[i].envelope.position == frames[i].position < CursorOf(s.queue.tables, w.me).next
      && ForHub(frames[i].envelope)
      && forall p: nat | 1 <= p <= frames[i].position :: Settled(w, s, p) || HasPosition(frames[..i + 1], p)
  }

  ghost predicate LinkOk(w: World, s: State, link: Link) {
    match link
    case Offline => true
    case HelloSent(after) => SettledUpTo(w, s, after)
    case Served(frames, got) =>
      && got <= |frames| && FramesInOrder(w, s, frames)
      && forall i | 0 <= i < got :: frames[i].position in s.processed
  }

  ghost predicate ClientOk(w: World, s: State, client: Client) {
    && SettledUpTo(w, s, client.acked)
    && (client.owes.Some? ==> SettledUpTo(w, s, client.owes.value))
    && LinkOk(w, s, client.link)
  }

  /** Rows of this device that left the table left it settled. */
  ghost predicate RemovedAreSettled(w: World, s: State) {
    forall p: nat | Key(w.me, p) in s.queue.issued && Key(w.me, p) !in s.queue.tables.inbox :: Settled(w, s, p)
  }

  ghost predicate QueueableRows(w: World, s: State) {
    forall p: nat | Key(w.me, p) in s.queue.issued :: Queueable(w, s.queue.issued[Key(w.me, p)].body)
  }

  ghost predicate Inv(w: World, s: State) {
    && Sweep.Inv(s.queue)
    && QueueableRows(w, s)
    && RemovedAreSettled(w, s)
    && (forall a | a in s.acks :: SettledUpTo(w, s, a))
    && (forall c | c in s.clients :: ClientOk(w, s, s.clients[c]))
  }

  // ---------------------------------------------------------------------------
  // Settled facts never come undone
  // ---------------------------------------------------------------------------

  ghost predicate Later(w: World, s: State, s': State) {
    && s.processed <= s'.processed
    && s.queue.expired.Keys <= s'.queue.expired.Keys
    && (forall k | k in s.queue.issued :: k in s'.queue.issued && s'.queue.issued[k] == s.queue.issued[k])
    && CursorOf(s.queue.tables, w.me).next <= CursorOf(s'.queue.tables, w.me).next
  }

  lemma SettledStays(w: World, s: State, s': State, n: nat)
    requires Later(w, s, s') && SettledUpTo(w, s, n)
    ensures SettledUpTo(w, s', n)
  {
    forall p: nat | 1 <= p <= n ensures Settled(w, s', p) { assert Settled(w, s, p); }
  }

  lemma FramesStay(w: World, s: State, s': State, frames: seq<Delivery>)
    requires Later(w, s, s') && FramesInOrder(w, s, frames)
    ensures FramesInOrder(w, s', frames)
  {
    forall i | 0 <= i < |frames|
      ensures forall p: nat | 1 <= p <= frames[i].position :: Settled(w, s', p) || HasPosition(frames[..i + 1], p)
    {
      forall p: nat | 1 <= p <= frames[i].position ensures Settled(w, s', p) || HasPosition(frames[..i + 1], p) {
        assert Settled(w, s, p) || HasPosition(frames[..i + 1], p);
      }
    }
  }

  lemma ClientOkStays(w: World, s: State, s': State, client: Client)
    requires Later(w, s, s') && ClientOk(w, s, client)
    ensures ClientOk(w, s', client)
  {
    SettledStays(w, s, s', client.acked);
    if client.owes.Some? { SettledStays(w, s, s', client.owes.value); }
    match client.link
    case HelloSent(after) => SettledStays(w, s, s', after);
    case Served(frames, _) => FramesStay(w, s, s', frames);
    case Offline =>
  }

  lemma EveryoneStays(w: World, s: State, s': State)
    requires Inv(w, s) && Later(w, s, s') && s'.clients == s.clients && s'.acks == s.acks
    ensures forall a | a in s'.acks :: SettledUpTo(w, s', a)
    ensures forall c | c in s'.clients :: ClientOk(w, s', s'.clients[c])
  {
    forall a | a in s'.acks ensures SettledUpTo(w, s', a) { SettledStays(w, s, s', a); }
    forall c | c in s'.clients ensures ClientOk(w, s', s'.clients[c]) { ClientOkStays(w, s, s', s.clients[c]); }
  }

  // ---------------------------------------------------------------------------
  // What each step keeps
  // ---------------------------------------------------------------------------

  lemma QueueStepIsLater(w: World, s: State, q: Sweep.Event)
    requires Inv(w, s)
    ensures Later(w, s, s.(queue := Sweep.Step(s.queue, w.maxSize, q)))
  {
    if q.Enqueued? {
      assert Key(q.to, CursorOf(s.queue.tables, q.to).next) !in s.queue.issued;
    }
  }

  /** The queue's own steps take this device's rows away by expiry only. */
  lemma QueueStepKeepsInv(w: World, s: State, q: Sweep.Event)
    requires Inv(w, s) && Allowed(w, q)
    ensures Inv(w, Step(w, s, QueueStep(q)))
  {
    var s' := Step(w, s, QueueStep(q));
    Sweep.StepKeepsInv(s.queue, w.maxSize, q);
    QueueStepIsLater(w, s, q);
    EveryoneStays(w, s, s');
    forall p: nat | Key(w.me, p) in s'.queue.issued && Key(w.me, p) !in s'.queue.tables.inbox
      ensures Settled(w, s', p)
    {
      if Key(w.me, p) in s.queue.issued && Key(w.me, p) !in s.queue.tables.inbox {
        assert Settled(w, s, p);
      }
    }
  }

  /** Delivering an acknowledgement, for the first time or again, deletes settled rows only. */
  lemma DeliverAckKeepsInv(w: World, s: State, a: Uint64)
    requires Inv(w, s) && a in s.acks
    ensures Inv(w, Step(w, s, DeliverAck(a)))
  {
    var s' := Step(w, s, DeliverAck(a));
    Sweep.StepKeepsInv(s.queue, w.maxSize, Sweep.Acked(w.me, a));
    QueueStepIsLater(w, s, Sweep.Acked(w.me, a));
    EveryoneStays(w, s, s');
    forall p: nat | Key(w.me, p) in s'.queue.issued && Key(w.me, p) !in s'.queue.tables.inbox
      ensures Settled(w, s', p)
    {
      if Key(w.me, p) in s.queue.tables.inbox {
        assert Covers(w.me, a, Key(w.me, p)) && Int64(a) == a;
        assert Settled(w, s, p);
      } else {
        assert Settled(w, s, p);
      }
    }
  }

  /** The frames of a resume leave no unsettled gap: what lies between two frames was settled
      before, and what lies below the reported position was settled by the client. */
  lemma ResumeIsInOrder(w: World, s: State, after: Uint64)
    requires Inv(w, s) && SettledUpTo(w, s, after)
    ensures FramesInOrder(w, s, Resume(w.codec, s.queue.tables, w.me, after))
  {
    var t := s.queue.tables;
    var frames := Resume(w.codec, t, w.me, after);
    ScanIsExact(w.codec, t, w.me, FirstAfter(after), CursorOf(t, w.me).next);
    forall i | 0 <= i < |frames|
      ensures frames[i].envelope.position == frames[i].position < CursorOf(t, w.me).next
      ensures ForHub(frames[i].envelope)
      ensures forall p: nat | 1 <= p <= frames[i].position :: Settled(w, s, p) || HasPosition(frames[..i + 1], p)
    {
      assert IsDeliveryOf(w.codec, t, w.me, frames[i]);
      FramePayload(w, t.inbox[Key(w.me, frames[i].position)].body, frames[i].position);
      forall p: nat | 1 <= p <= frames[i].position ensures Settled(w, s, p) || HasPosition(frames[..i + 1], p) {
        GapIsSettled(w, s, after, i, p);
      }
    }
  }

  /** The position stamped on a frame does not change what it carries. */
  lemma FramePayload(w: World, body: Bytes, position: Uint64)
    requires Queueable(w, body) && DeliveryFromStorage(w.codec, position, body).Some?
    ensures ForHub(DeliveryFromStorage(w.codec, position, body).value)
  {
  }

  lemma GapIsSettled(w: World, s: State, after: Uint64, i: nat, p: nat)
    requires Inv(w, s) && SettledUpTo(w, s, after)
    requires i < |Resume(w.codec, s.queue.tables, w.me, after)|
    requires 1 <= p <= Resume(w.codec, s.queue.tables, w.me, after)[i].position
    ensures Settled(w, s, p) || HasPosition(Resume(w.codec, s.queue.tables, w.me, after)[..i + 1], p)
  {
    var t := s.queue.tables;
    var frames := Resume(w.codec, t, w.me, after);
    ScanIsExact(w.codec, t, w.me, FirstAfter(after), CursorOf(t, w.me).next);
    assert Int64(after) == after;
    if p > after && !Settled(w, s, p) {
      assert Key(w.me, p) in s.queue.issued;
      assert Deliverable(w.codec, t, w.me, p);
      var j :| 0 <= j < |frames| && frames[j].position == p;
      assert j <= i;
      assert frames[..i + 1][j].position == p;
    }
  }

  /** A step that touches one client only, and sends at most a settled acknowledgement. */
  lemma OneClientKeepsInv(w: World, s: State, c: ClientId, client: Client, sent: set<Uint64>)
    requires Inv(w, s) && ClientOk(w, s, client)
    requires forall a | a in sent :: SettledUpTo(w, s, a)
    ensures Inv(w, WithClient(s, c, client).(acks := s.acks + sent))
  {
    var s' := WithClient(s, c, client).(acks := s.acks + sent);
    forall a | a in s'.acks ensures SettledUpTo(w, s', a) { SettledStays(w, s, s', a); }
    forall d | d in s'.clients ensures ClientOk(w, s', s'.clients[d]) { ClientOkStays(w, s, s', s'.clients[d]); }
    forall p: nat | Key(w.me, p) in s'.queue.issued && Key(w.me, p) !in s'.queue.tables.inbox
      ensures Settled(w, s', p)
    {
      assert Settled(w, s, p);
    }
  }

  lemma ProcessingKeepsInv(w: World, s: State, p: nat)
    requires Inv(w, s)
    ensures Inv(w, s.(processed := s.processed + {p}))
  {
    var s' := s.(processed := s.processed + {p});
    EveryoneStays(w, s, s');
    forall q: nat | Key(w.me, q) in s'.queue.issued && Key(w.me, q) !in s'.queue.tables.inbox
      ensures Settled(w, s', q)
    {
      assert Settled(w, s, q);
    }
  }

  /** Reading a frame settles its position: everything below it was settled or read before. */
  lemma ReadingSettles(w: World, s: State, frames: seq<Delivery>, got: nat)
    requires FramesInOrder(w, s, frames) && got < |frames|
    requires forall i | 0 <= i <= got :: frames[i].position in s.processed
    ensures SettledUpTo(w, s, frames[got].position)
  {
    var n := frames[got].position;
    forall p: nat | 1 <= p <= n ensures Settled(w, s, p) {
      if HasPosition(frames[..got + 1], p) {
        var j :| 0 <= j < got + 1 && frames[..got + 1][j].position == p;
        assert frames[j].position in s.processed;
      }
    }
  }

  lemma ReceiveKeepsInv(w: World, s: State, c: ClientId)
    requires Inv(w, s) && c in s.clients
    ensures Inv(w, ReceiveStep(s, c))
  {
    var me := s.clients[c];
    var s' := ReceiveStep(s, c);
    if s' != s {
      var frames, got := me.link.frames, me.link.got;
      var n := frames[got].position;
      assert frames[got].envelope.position == n;
      var applied := s.(processed := s.processed + {n});
      ProcessingKeepsInv(w, s, n);
      assert ClientOk(w, applied, me);
      ReadingSettles(w, applied, frames, got);
      OneClientKeepsInv(w, applied, c, s'.clients[c], {});
      assert applied.acks + {} == applied.acks;
    }
  }

  lemma ClientStepKeepsInv(w: World, s: State, e: Event)
    requires Inv(w, s) && !e.QueueStep? && !e.DeliverAck? && !e.Receive?
    ensures Inv(w, Step(w, s, e))
  {
    var s' := Step(w, s, e);
    if s' != s {
      assert s.acks + {} == s.acks;
      match e
      case Start(c) => OneClientKeepsInv(w, s, c, Client(0, Offline, None, [], {}), {});
      case Acknowledge(c) =>
        var sent := if s.clients[c].owes.value <= s.clients[c].acked then {} else {s.clients[c].owes.value};
        OneClientKeepsInv(w, s, c, s'.clients[c], sent);
      case Restore(c, from) =>
        assert ClientOk(w, s, s.clients[from]);
        OneClientKeepsInv(w, s, c, s'.clients[c], {});
      case ServeHello(c) =>
        ResumeIsInOrder(w, s, s.clients[c].link.after);
        OneClientKeepsInv(w, s, c, s'.clients[c], {});
      case SendHello(c) => OneClientKeepsInv(w, s, c, s'.clients[c], {});
      case Disconnect(c) => OneClientKeepsInv(w, s, c, s'.clients[c], {});
    }
  }

  lemma StepKeepsInv(w: World, s: State, e: Event)
    requires Inv(w, s)
    ensures Inv(w, Step(w, s, e))
  {
    match e
    case QueueStep(q) => if Allowed(w, q) { QueueStepKeepsInv(w, s, q); }
    case DeliverAck(a) => if a in s.acks { DeliverAckKeepsInv(w, s, a); }
    case Receive(c) => if c in s.clients { ReceiveKeepsInv(w, s, c); }
    case _ => ClientStepKeepsInv(w, s, e);
  }

  lemma {:induction false} RunKeepsInv(w: World, es: seq<Event>)
    ensures Inv(w, Run(w, es))
  {
    if es != [] {
      RunKeepsInv(w, es[..|es| - 1]);
      StepKeepsInv(w, Run(w, es[..|es| - 1]), es[|es| - 1]);
    }
  }

  // ---------------------------------------------------------------------------
  // Ack safety
  // ---------------------------------------------------------------------------

  /** In every run, an acknowledgement in flight deletes a readable row only if that row's frame
      was already handed to Hub.Apply. */
  lemma AckDeletesOnlyProcessedRows(w: World, es: seq<Event>, a: Uint64, k: Key)
    requires var s := Run(w, es);
      && a in s.acks && k in s.queue.tables.inbox && k.recipient == w.me
      && Readable(w.codec, s.queue.tables.inbox[k].body)
      && k !in Step(w, s, DeliverAck(a)).queue.tables.inbox
    ensures k.position in Run(w, es).processed
  {
    RunKeepsInv(w, es);
    var s := Run(w, es);
    assert SettledUpTo(w, s, a) && Int64(a) == a;
    assert k == Key(w.me, k.position);
    assert Settled(w, s, k.position);
  }

  /** In every run, each position at or below any acknowledgement in flight, or below what any
      client process would report in its next Hello, was applied, or was past the TTL when a
      sweep collected it, or holds a body no build of this codec can read. */
  lemma AcknowledgedIsAccountedFor(w: World, es: seq<Event>, n: Uint64, p: nat)
    requires var s := Run(w, es);
      n in s.acks || exists c :: c in s.clients && s.clients[c].acked == n
    requires 1 <= p <= n
    ensures var s := Run(w, es);
      var k := Key(w.me, p);
      && k in s.queue.issued
      && (|| p in s.processed
          || (k in s.queue.expired && s.queue.issued[k].enqueuedAt <= s.queue.expired[k])
          || !Readable(w.codec, s.queue.issued[k].body))
  {
    RunKeepsInv(w, es);
    var s := Run(w, es);
    if n !in s.acks {
      var c :| c in s.clients && s.clients[c].acked == n;
      assert ClientOk(w, s, s.clients[c]);
    }
    assert SettledUpTo(w, s, n);
    assert Settled(w, s, p);
  }

  // ---------------------------------------------------------------------------
  // At-least-once
  // ---------------------------------------------------------------------------

  /** In every run, whatever was accepted for this device is still in the table, was applied by one of
      its processes, was past the TTL when a sweep collected it, or can be read by nobody. */
  lemma NothingIsLost(w: World, es: seq<Event>, p: nat)
    requires Key(w.me, p) in Run(w, es).queue.issued
    ensures var s := Run(w, es);
      var k := Key(w.me, p);
      || (k in s.queue.tables.inbox && s.queue.tables.inbox[k] == s.queue.issued[k])
      || p in s.processed
      || (k in s.queue.expired && s.queue.issued[k].enqueuedAt <= s.queue.expired[k])
      || !Readable(w.codec, s.queue.issued[k].body)
  {
    RunKeepsInv(w, es);
    if Key(w.me, p) !in Run(w, es).queue.tables.inbox {
      assert Settled(w, Run(w, es), p);
    }
  }

  /** A new process that says hello and reads n frames, acknowledging as it goes. */
  function CatchUp(w: World, s: State, c: ClientId, n: nat): State {
    if n == 0 then Step(w, Step(w, Step(w, s, Start(c)), SendHello(c)), ServeHello(c))
    else Step(w, Step(w, CatchUp(w, s, c, n - 1), Receive(c)), Acknowledge(c))
  }

  function CatchUpEvents(c: ClientId, n: nat): seq<Event> {
    if n == 0 then [Start(c)] + [SendHello(c)] + [ServeHello(c)]
    else CatchUpEvents(c, n - 1) + [Receive(c)] + [Acknowledge(c)]
  }

  lemma RunOneMore(w: World, es: seq<Event>, e: Event)
    ensures Run(w, es + [e]) == Step(w, Run(w, es), e)
  {
    assert (es + [e])[..|es|] == es;
  }

  lemma RunTwoMore(w: World, es: seq<Event>, e: Event, f: Event)
    ensures Run(w, es + [e] + [f]) == Step(w, Step(w, Run(w, es), e), f)
  {
    RunOneMore(w, es, e);
    RunOneMore(w, es + [e], f);
  }

  lemma HelloIsARun(w: World, es: seq<Event>, c: ClientId)
    ensures Run(w, es + CatchUpEvents(c, 0)) == CatchUp(w, Run(w, es), c, 0)
  {
    RunTwoMore(w, es, Start(c), SendHello(c));
    RunOneMore(w, es + [Start(c)] + [SendHello(c)], ServeHello(c));
    Regroup(es, [Start(c)], SendHello(c), ServeHello(c));
  }

  lemma {:induction false} CatchUpIsARun(w: World, es: seq<Event>, c: ClientId, n: nat)
    ensures Run(w, es + CatchUpEvents(c, n)) == CatchUp(w, Run(w, es), c, n)
  {
    if n == 0 {
      HelloIsARun(w, es, c);
    } else {
      CatchUpIsARun(w, es, c, n - 1);
      RunTwoMore(w, es + CatchUpEvents(c, n - 1), Receive(c), Acknowledge(c));
      Regroup(es, CatchUpEvents(c, n - 1), Receive(c), Acknowledge(c));
    }
  }

  lemma Regroup(es: seq<Event>, fs: seq<Event>, e: Event, f: Event)
    ensures es + (fs + [e] + [f]) == es + fs + [e] + [f]
  {
  }

  predicate Sealed(d: Delivery) {
    d.envelope.payload.SealedDelivery?
  }

  /** The position of the last sealed frame, or zero. */
  function LastSealed(frames: seq<Delivery>): nat {
    if frames == [] then 0
    else if Sealed(frames[|frames| - 1]) then frames[|frames| - 1].position
    else LastSealed(frames[..|frames| - 1])
  }

  /** What a resume puts on the wire, as far as reading it goes. */
  ghost predicate Readables(frames: seq<Delivery>) {
    && (forall i | 0 <= i < |frames| :: 1 <= frames[i].position < TWO_63)
    && (forall i | 0 <= i < |frames| :: frames[i].envelope.position == frames[i].position && ForHub(frames[i].envelope))
    && (forall i, j | 0 <= i < j < |frames| :: frames[i].position < frames[j].position)
  }

  lemma {:induction false} LastSealedIsLast(frames: seq<Delivery>)
    requires Readables(frames)
    ensures forall i | 0 <= i < |frames| && Sealed(frames[i]) :: frames[i].position <= LastSealed(frames)
    ensures LastSealed(frames) > 0 ==>
      exists i :: 0 <= i < |frames| && Sealed(frames[i]) && frames[i].position == LastSealed(frames)
  {
    if frames != [] && !Sealed(frames[|frames| - 1]) {
      var init := frames[..|frames| - 1];
      LastSealedIsLast(init);
      if LastSealed(init) > 0 {
        var i :| 0 <= i < |init| && Sealed(init[i]) && init[i].position == LastSealed(init);
        assert frames[i] == init[i];
      }
      assert forall i | 0 <= i < |frames| && Sealed(frames[i]) :: frames[i] == init[i];
    }
  }

  lemma {:induction false} LastSealedIsBelow(frames: seq<Delivery>, n: nat)
    requires Readables(frames) && n < |frames|
    ensures LastSealed(frames[..n]) < frames[n].position
  {
    if n > 0 {
      assert frames[..n][..n - 1] == frames[..n - 1];
      LastSealedIsBelow(frames, n - 1);
    }
  }

  /** Where such a process stands after n frames: connected, owing nothing, all it read applied, and every
      sealed frame acknowledged. */
  ghost predicate CaughtUp(s: State, s': State, c: ClientId, frames: seq<Delivery>, n: nat) {
    && s'.queue == s.queue && n <= |frames| && c in s'.clients
    && s'.clients[c].link == Served(frames, n) && s'.clients[c].owes.None?
    && s'.clients[c].acked == LastSealed(frames[..n])
    && |s'.clients[c].heard| == n
    && forall i | 0 <= i < n :: ReadFrame(s', c, frames[i], i)
  }

  ghost predicate ReadFrame(s: State, c: ClientId, frame: Delivery, i: nat)
    requires c in s.clients && i < |s.clients[c].heard|
  {
    && frame.position in s.processed && s.clients[c].heard[i] == frame.envelope
    && (Sealed(frame) ==> frame.position in s.acks)
  }

  lemma HelloIsServed(w: World, s: State, c: ClientId)
    ensures CaughtUp(s, CatchUp(w, s, c, 0), c, Resume(w.codec, s.queue.tables, w.me, 0), 0)
  {
  }

  lemma ReadOne(w: World, s: State, s': State, c: ClientId, frames: seq<Delivery>, n: nat)
    requires Readables(frames) && CaughtUp(s, s', c, frames, n) && n < |frames|
    ensures CaughtUp(s, Step(w, Step(w, s', Receive(c)), Acknowledge(c)), c, frames, n + 1)
  {
    var read := Step(w, s', Receive(c));
    LastSealedIsBelow(frames, n);
    assert frames[..n + 1][..n] == frames[..n];
    assert read.clients[c].heard == s'.clients[c].heard + [frames[n].envelope];
    var after := Step(w, read, Acknowledge(c));
    forall i | 0 <= i < n + 1 ensures ReadFrame(after, c, frames[i], i) {
      if i < n { assert ReadFrame(s', c, frames[i], i); }
    }
  }

  lemma {:induction false} ReadMany(w: World, s: State, c: ClientId, frames: seq<Delivery>, n: nat)
    requires frames == Resume(w.codec, s.queue.tables, w.me, 0) && Readables(frames) && n <= |frames|
    ensures CaughtUp(s, CatchUp(w, s, c, n), c, frames, n)
  {
    if n == 0 {
      HelloIsServed(w, s, c);
    } else {
      ReadMany(w, s, c, frames, n - 1);
      ReadOne(w, s, CatchUp(w, s, c, n - 1), c, frames, n - 1);
    }
  }

  lemma ResumeIsReadable(w: World, s: State)
    requires Inv(w, s)
    ensures Readables(Resume(w.codec, s.queue.tables, w.me, 0))
    ensures ExactScan(w.codec, s.queue.tables, w.me, FirstAfter(0), CursorOf(s.queue.tables, w.me).next,
                      Resume(w.codec, s.queue.tables, w.me, 0))
  {
    ResumeIsInOrder(w, s, 0);
    ScanIsExact(w.codec, s.queue.tables, w.me, FirstAfter(0), CursorOf(s.queue.tables, w.me).next);
  }

  /** From any reachable state, a fresh process of the device that reads the frames its hello was
      answered with leaves every retained, readable row applied. */
  lemma FreshClientAppliesEverything(w: World, es: seq<Event>, c: ClientId, p: nat)
    requires var t := Run(w, es).queue.tables;
      Key(w.me, p) in t.inbox && Readable(w.codec, t.inbox[Key(w.me, p)].body)
    ensures var n := |Resume(w.codec, Run(w, es).queue.tables, w.me, 0)|;
      p in Run(w, es + CatchUpEvents(c, n)).processed
  {
    RunKeepsInv(w, es);
    CatchUpIsARun(w, es, c, |Resume(w.codec, Run(w, es).queue.tables, w.me, 0)|);
    var i := CatchUpHears(w, Run(w, es), c, p);
  }

  /** Where in its reading such a process was handed the frame of a given row. */
  lemma CatchUpHears(w: World, s: State, c: ClientId, p: nat) returns (i: nat)
    requires Inv(w, s) && Deliverable(w.codec, s.queue.tables, w.me, p)
    ensures var s' := CatchUp(w, s, c, |Resume(w.codec, s.queue.tables, w.me, 0)|);
      && p < TWO_64 && p in s'.processed && c in s'.clients && i < |s'.clients[c].heard|
      && DeliveryFromStorage(w.codec, p, s.queue.tables.inbox[Key(w.me, p)].body) == Some(s'.clients[c].heard[i])
  {
    var frames := Resume(w.codec, s.queue.tables, w.me, 0);
    i := FrameOf(w, s, frames, p);
    ResumeIsReadable(w, s);
    ReadMany(w, s, c, frames, |frames|);
    assert ReadFrame(CatchUp(w, s, c, |frames|), c, frames[i], i);
  }

  lemma FrameOf(w: World, s: State, frames: seq<Delivery>, p: nat) returns (i: nat)
    requires Inv(w, s) && Deliverable(w.codec, s.queue.tables, w.me, p)
    requires frames == Resume(w.codec, s.queue.tables, w.me, 0)
    ensures i < |frames| && frames[i].position == p < TWO_64
    ensures DeliveryFromStorage(w.codec, p, s.queue.tables.inbox[Key(w.me, p)].body) == Some(frames[i].envelope)
  {
    ResumeIsReadable(w, s);
    i :| 0 <= i < |frames| && frames[i].position == p;
    assert IsDeliveryOf(w.codec, s.queue.tables, w.me, frames[i]);
  }

  // ---------------------------------------------------------------------------
  // Reconnecting
  // ---------------------------------------------------------------------------

  /** The positions this process has a reason to acknowledge: those of the sealed frames it applied, and those
      it was told to restore. */
  function Vouched(client: Client): set<Uint64> {
    SealedPositions(client.heard) + client.restored
  }

  function SealedPositions(heard: seq<Envelope>): set<Uint64> {
    set env | env in heard && env.payload.SealedDelivery? :: env.position
  }

  /** `acked` is the highest of them (zero if there is none), but for the one still owed. */
  ghost predicate AckedIsHighest(client: Client) {
    && (client.acked > 0 ==> client.acked in Vouched(client))
    && (client.owes.Some? ==> client.owes.value in Vouched(client))
    && forall n | n in Vouched(client) :: n <= client.acked || client.owes == Some(n)
  }

  ghost predicate AllAckedHighest(s: State) {
    forall c | c in s.clients :: AckedIsHighest(s.clients[c])
  }

  lemma HeardOneMore(heard: seq<Envelope>, env: Envelope)
    ensures SealedPositions(heard + [env])
         == SealedPositions(heard) + if env.payload.SealedDelivery? then {env.position} else {}
  {
    assert forall x :: x in heard + [env] <==> x in heard || x == env;
  }

  lemma ReceivingKeepsHighest(s: State, c: ClientId)
    requires c in s.clients && AckedIsHighest(s.clients[c])
    ensures AckedIsHighest(ReceiveStep(s, c).clients[c])
  {
    var me := s.clients[c];
    if me.link.Served? && me.link.got < |me.link.frames| && me.owes.None? {
      HeardOneMore(me.heard, me.link.frames[me.link.got].envelope);
    }
  }

  lemma StepKeepsHighest(w: World, s: State, e: Event)
    requires AllAckedHighest(s)
    ensures AllAckedHighest(Step(w, s, e))
  {
    if e.Receive? && e.c in s.clients {
      ReceivingKeepsHighest(s, e.c);
    }
  }

  lemma {:induction false} RunKeepsHighest(w: World, es: seq<Event>)
    ensures AllAckedHighest(Run(w, es))
  {
    if es != [] {
      RunKeepsHighest(w, es[..|es| - 1]);
      StepKeepsHighest(w, Run(w, es[..|es| - 1]), es[|es| - 1]);
    }
  }

  /** In every run, a process that owes no acknowledgement stands at exactly the highest position among the
      sealed frames it applied and the positions it was told to restore. */
  lemma AckedIsTheHighestVouchedFor(w: World, es: seq<Event>, c: ClientId)
    requires c in Run(w, es).clients && Run(w, es).clients[c].owes.None?
    ensures var me := Run(w, es).clients[c];
      && (me.acked > 0 ==> me.acked in Vouched(me))
      && forall n | n in Vouched(me) :: n <= me.acked
  {
    RunKeepsHighest(w, es);
    assert AckedIsHighest(Run(w, es).clients[c]);
  }

  /** What a step means to the queue. */
  function Effects(w: World, s: State, e: Event): seq<Sweep.Event> {
    match e
    case QueueStep(q) => if Allowed(w, q) then [q] else []
    case DeliverAck(a) => if a in s.acks then [Sweep.Acked(w.me, a)] else []
    case _ => []
  }

  function QueueHistory(w: World, es: seq<Event>): seq<Sweep.Event> {
    if es == [] then []
    else QueueHistory(w, es[..|es| - 1]) + Effects(w, Run(w, es[..|es| - 1]), es[|es| - 1])
  }

  lemma QueueStepIs(w: World, s: State, e: Event)
    ensures |Effects(w, s, e)| <= 1
    ensures Step(w, s, e).queue ==
      if Effects(w, s, e) == [] then s.queue else Sweep.Step(s.queue, w.maxSize, Effects(w, s, e)[0])
  {
  }

  /** The queue under the protocol runs as its own model does, on its own steps and the delivered acks: what holds
      of every queue, with sweeps in between, holds here. */
  lemma {:induction false} QueueFollowsItsModel(w: World, es: seq<Event>)
    ensures Run(w, es).queue == Sweep.Run(w.maxSize, QueueHistory(w, es))
  {
    if es != [] {
      var init, e := es[..|es| - 1], es[|es| - 1];
      QueueFollowsItsModel(w, init);
      QueueStepIs(w, Run(w, init), e);
      QueueRunOn(w, QueueHistory(w, init), Effects(w, Run(w, init), e));
    }
  }

  lemma QueueRunOn(w: World, past: seq<Sweep.Event>, more: seq<Sweep.Event>)
    requires |more| <= 1
    ensures Sweep.Run(w.maxSize, past + more) ==
      if more == [] then Sweep.Run(w.maxSize, past)
      else Sweep.Step(Sweep.Run(w.maxSize, past), w.maxSize, more[0])
  {
    if more == [] {
      assert past + more == past;
    } else {
      assert (past + more)[..|past|] == past;
    }
  }

  ghost predicate MayReconnect(s: State, c: ClientId) {
    c in s.clients && s.clients[c].link.Offline? && s.clients[c].owes.None?
  }

  /** A process whose connection drops, once it has acknowledged what it applied, may reconnect; and so may a new
      process that restored another's position, standing where that one stood. */
  lemma ReconnectIsOpen(w: World, es: seq<Event>, c: ClientId, from: ClientId)
    requires c in Run(w, es).clients
    ensures MayReconnect(Run(w, es + [Acknowledge(c)] + [Disconnect(c)]), c)
    ensures from in Run(w, es).clients && from != c ==>
      var s' := Run(w, es + [Start(c)] + [Restore(c, from)]);
      MayReconnect(s', c) && s'.clients[c].acked == Run(w, es).clients[from].acked
  {
    RunTwoMore(w, es, Acknowledge(c), Disconnect(c));
    RunTwoMore(w, es, Start(c), Restore(c, from));
  }

  /** In every run, a process that reconnects, however often it did before, is served from where it stands:
      every frame lies above the position it last acknowledged, and every retained, readable row above it
      is among the frames. Nothing is replayed that it acknowledged, and nothing is skipped. */
  lemma ReconnectResumesAfterTheAcked(w: World, es: seq<Event>, c: ClientId)
    requires MayReconnect(Run(w, es), c)
    ensures var s := Run(w, es);
      var s' := Run(w, es + [SendHello(c)] + [ServeHello(c)]);
      && c in s'.clients && s'.clients[c].acked == s.clients[c].acked && s'.queue == s.queue
      && s'.clients[c].link.Served? && s'.clients[c].link.got == 0
      && ServedAfter(w, s, s'.clients[c].link.frames, s.clients[c].acked)
  {
    var s := Run(w, es);
    RunTwoMore(w, es, SendHello(c), ServeHello(c));
    RunKeepsInv(w, es);
    assert ClientOk(w, s, s.clients[c]);
    ResumeIsAfter(w, s, s.clients[c].acked);
  }

  /** Exactly the retained, readable rows above `after`, in order. */
  ghost predicate ServedAfter(w: World, s: State, frames: seq<Delivery>, after: Uint64) {
    && (forall i | 0 <= i < |frames| ::
          frames[i].position > after && IsDeliveryOf(w.codec, s.queue.tables, w.me, frames[i]))
    && (forall i, j | 0 <= i < j < |frames| :: frames[i].position < frames[j].position)
    && (forall p: nat | p > after && Deliverable(w.codec, s.queue.tables, w.me, p) :: HasPosition(frames, p))
  }

  lemma ResumeIsAfter(w: World, s: State, after: Uint64)
    requires Inv(w, s) && SettledUpTo(w, s, after)
    ensures ServedAfter(w, s, Resume(w.codec, s.queue.tables, w.me, after), after)
  {
    ScanIsExact(w.codec, s.queue.tables, w.me, FirstAfter(after), CursorOf(s.queue.tables, w.me).next);
  }

  // ---------------------------------------------------------------------------
  // What catching up leaves in the table
  // ---------------------------------------------------------------------------

  function Delivered(w: World, s: State, acks: seq<Uint64>): State {
    if acks == [] then s else Step(w, Delivered(w, s, acks[..|acks| - 1]), DeliverAck(acks[|acks| - 1]))
  }

  function DeliveryEvents(acks: seq<Uint64>): seq<Event> {
    if acks == [] then [] else DeliveryEvents(acks[..|acks| - 1]) + [DeliverAck(acks[|acks| - 1])]
  }

  lemma {:induction false} DeliveredIsARun(w: World, es: seq<Event>, acks: seq<Uint64>)
    ensures Run(w, es + DeliveryEvents(acks)) == Delivered(w, Run(w, es), acks)
  {
    if acks == [] {
      assert es + [] == es;
    } else {
      var init := acks[..|acks| - 1];
      DeliveredIsARun(w, es, init);
      RunOneMore(w, es + DeliveryEvents(init), DeliverAck(acks[|acks| - 1]));
      assert es + DeliveryEvents(acks) == es + DeliveryEvents(init) + [DeliverAck(acks[|acks| - 1])];
    }
  }

  /** The rows that deliveries up to position `upto` leave. */
  function Above(w: World, inbox: map<Key, Row>, upto: nat): map<Key, Row> {
    map k | k in inbox && !(k.recipient == w.me && k.position <= upto) :: inbox[k]
  }

  function Highest(acks: seq<Uint64>): nat {
    if acks == [] then 0
    else
      var before, last := Highest(acks[..|acks| - 1]), acks[|acks| - 1];
      if last > before then last else before
  }

  lemma DeliverOne(w: World, s: State, a: Uint64)
    requires a in s.acks && a < TWO_63
    ensures var s' := Step(w, s, DeliverAck(a));
      && s'.acks == s.acks
      && s'.queue.tables.inbox == map k | k in s.queue.tables.inbox && !Covers(w.me, a, k) :: s.queue.tables.inbox[k]
  {
  }

  ghost predicate Deliverables(s: State, acks: seq<Uint64>) {
    forall i | 0 <= i < |acks| :: acks[i] in s.acks && acks[i] < TWO_63
  }

  lemma {:induction false} DeliveriesCut(w: World, s: State, acks: seq<Uint64>)
    requires Sound(s.queue.tables) && Deliverables(s, acks)
    ensures var s' := Delivered(w, s, acks);
      s'.acks == s.acks && s'.queue.tables.inbox == Above(w, s.queue.tables.inbox, Highest(acks))
  {
    if acks == [] {
      assert forall k | k in s.queue.tables.inbox :: k.position >= 1;
      assert Above(w, s.queue.tables.inbox, 0) == s.queue.tables.inbox;
    } else {
      var init, last := acks[..|acks| - 1], acks[|acks| - 1];
      DeliveriesCut(w, s, init);
      DeliverOne(w, Delivered(w, s, init), last);
      CutAgain(w, s.queue.tables.inbox, Highest(init), last);
    }
  }

  lemma CutAgain(w: World, inbox: map<Key, Row>, upto: nat, a: Uint64)
    requires a < TWO_63
    ensures var cut := Above(w, inbox, upto);
      (map k | k in cut && !Covers(w.me, a, k) :: cut[k]) == Above(w, inbox, if a > upto then a else upto)
  {
  }

  lemma {:induction false} HighestIs(acks: seq<Uint64>)
    ensures forall i | 0 <= i < |acks| :: acks[i] <= Highest(acks)
    ensures Highest(acks) > 0 ==> Highest(acks) in acks
  {
    if acks != [] {
      var init, last := acks[..|acks| - 1], acks[|acks| - 1];
      HighestIs(init);
      assert acks == init + [last];
    }
  }

  /** The acknowledgements a catch-up sent, delivered in any order and any number of times, the last of
      them at least once. */
  ghost predicate ItsAcks(frames: seq<Delivery>, acks: seq<Uint64>) {
    && (forall j | 0 <= j < |acks| :: SealedAt(frames, acks[j]))
    && (LastSealed(frames) > 0 ==> LastSealed(frames) in acks)
  }

  ghost predicate SealedAt(frames: seq<Delivery>, p: nat) {
    exists i :: 0 <= i < |frames| && Sealed(frames[i]) && frames[i].position == p
  }

  lemma ItsAcksReachTheLast(s: State, s': State, c: ClientId, frames: seq<Delivery>, acks: seq<Uint64>)
    requires Readables(frames) && ItsAcks(frames, acks) && CaughtUp(s, s', c, frames, |frames|)
    ensures Deliverables(s', acks) && Highest(acks) == LastSealed(frames)
  {
    LastSealedIsLast(frames);
    HighestIs(acks);
    forall j | 0 <= j < |acks| ensures acks[j] in s'.acks && acks[j] < TWO_63 && acks[j] <= LastSealed(frames) {
      assert SealedAt(frames, acks[j]);
      var i :| 0 <= i < |frames| && Sealed(frames[i]) && frames[i].position == acks[j];
      assert ReadFrame(s', c, frames[i], i);
    }
    if LastSealed(frames) > 0 {
      var j :| 0 <= j < |acks| && acks[j] == LastSealed(frames);
      assert acks[j] <= Highest(acks);
    }
    if Highest(acks) > 0 {
      var j :| 0 <= j < |acks| && acks[j] == Highest(acks);
      assert acks[j] <= LastSealed(frames);
    }
  }

  /** After any run, a catch-up and the delivery of its acknowledgements leave exactly the rows above the
      last sealed frame: plain rows behind it have been applied, and stay to be sent again. */
  lemma CatchUpLeavesWhatFollowsTheLastSealed(w: World, es: seq<Event>, c: ClientId, acks: seq<Uint64>)
    ensures var before := Run(w, es).queue.tables;
      var frames := Resume(w.codec, before, w.me, 0);
      ItsAcks(frames, acks) ==>
        Run(w, es + CatchUpEvents(c, |frames|) + DeliveryEvents(acks)).queue.tables.inbox
        == Above(w, before.inbox, LastSealed(frames))
  {
    var s := Run(w, es);
    var frames := Resume(w.codec, s.queue.tables, w.me, 0);
    RunKeepsInv(w, es);
    ResumeIsReadable(w, s);
    ReadMany(w, s, c, frames, |frames|);
    CatchUpIsARun(w, es, c, |frames|);
    DeliveredIsARun(w, es + CatchUpEvents(c, |frames|), acks);
    var s' := CatchUp(w, s, c, |frames|);
    if ItsAcks(frames, acks) {
      ItsAcksReachTheLast(s, s', c, frames, acks);
      DeliveriesCut(w, s', acks);
    }
  }

  /** A row whose frame is sealed. */
  predicate SealedRow(w: World, body: Bytes) {
    var frame := DeliveryFromStorage(w.codec, 0, body);
    frame.Some? && frame.value.payload.SealedDelivery?
  }

  lemma SealedFrameOfSealedRow(w: World, body: Bytes, position: Uint64)
    ensures SealedRow(w, body) <==>
      var frame := DeliveryFromStorage(w.codec, position, body);
      frame.Some? && frame.value.payload.SealedDelivery?
  {
  }

  lemma FramesOfRows(w: World, s: State, frames: seq<Delivery>, i: nat)
    requires Inv(w, s) && frames == Resume(w.codec, s.queue.tables, w.me, 0) && i < |frames|
    ensures Key(w.me, frames[i].position) in s.queue.tables.inbox
    ensures Sealed(frames[i]) <==> SealedRow(w, s.queue.tables.inbox[Key(w.me, frames[i].position)].body)
  {
    ResumeIsReadable(w, s);
    assert IsDeliveryOf(w.codec, s.queue.tables, w.me, frames[i]);
    SealedFrameOfSealedRow(w, s.queue.tables.inbox[Key(w.me, frames[i].position)].body, frames[i].position);
  }

  lemma SealedRowIsReached(w: World, s: State, frames: seq<Delivery>, p: nat)
    requires Inv(w, s) && frames == Resume(w.codec, s.queue.tables, w.me, 0)
    requires Key(w.me, p) in s.queue.tables.inbox && SealedRow(w, s.queue.tables.inbox[Key(w.me, p)].body)
    ensures p <= LastSealed(frames)
  {
    ResumeIsReadable(w, s);
    LastSealedIsLast(frames);
    assert Deliverable(w.codec, s.queue.tables, w.me, p);
    var i :| 0 <= i < |frames| && frames[i].position == p;
    FramesOfRows(w, s, frames, i);
  }

  lemma LastSealedIsARow(w: World, s: State, frames: seq<Delivery>)
    requires Inv(w, s) && frames == Resume(w.codec, s.queue.tables, w.me, 0) && LastSealed(frames) > 0
    ensures var k := Key(w.me, LastSealed(frames));
      k in s.queue.tables.inbox && SealedRow(w, s.queue.tables.inbox[k].body)
  {
    ResumeIsReadable(w, s);
    LastSealedIsLast(frames);
    var i :| 0 <= i < |frames| && Sealed(frames[i]) && frames[i].position == LastSealed(frames);
    FramesOfRows(w, s, frames, i);
  }

  lemma LastSealedReaches(w: World, s: State, frames: seq<Delivery>, p: nat)
    requires Inv(w, s) && frames == Resume(w.codec, s.queue.tables, w.me, 0) && Key(w.me, p) in s.queue.tables.inbox
    requires forall k | k in s.queue.tables.inbox && k.recipient == w.me :: k.position <= p
    ensures LastSealed(frames) <= p
    ensures LastSealed(frames) == p <==> SealedRow(w, s.queue.tables.inbox[Key(w.me, p)].body)
  {
    assert 1 <= p;
    if LastSealed(frames) > 0 {
      LastSealedIsARow(w, s, frames);
    }
    if SealedRow(w, s.queue.tables.inbox[Key(w.me, p)].body) {
      SealedRowIsReached(w, s, frames, p);
    }
  }

  ghost predicate IsLastRow(w: World, inbox: map<Key, Row>, p: nat) {
    Key(w.me, p) in inbox && forall k | k in inbox && k.recipient == w.me :: k.position <= p
  }

  /** So the device's table is empty afterwards if and only if its last row was a sealed one. */
  lemma NothingIsLeftExactlyAfterASealedRow(w: World, es: seq<Event>, p: nat)
    ensures var t := Run(w, es).queue.tables;
      var left := Above(w, t.inbox, LastSealed(Resume(w.codec, t, w.me, 0)));
      IsLastRow(w, t.inbox, p) ==>
        ((forall k | k in left :: k.recipient != w.me) <==> SealedRow(w, t.inbox[Key(w.me, p)].body))
  {
    RunKeepsInv(w, es);
    var t := Run(w, es).queue.tables;
    var left := Above(w, t.inbox, LastSealed(Resume(w.codec, t, w.me, 0)));
    if IsLastRow(w, t.inbox, p) {
      LastSealedReaches(w, Run(w, es), Resume(w.codec, t, w.me, 0), p);
      if !SealedRow(w, t.inbox[Key(w.me, p)].body) {
        assert Key(w.me, p) in left;
      }
    }
  }
}
