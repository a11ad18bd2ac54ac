/** The client's ingest path (internal/messagehub/hub.go) and the proof that a message replayed from
    the queue, sealed or plain, is filed exactly as if it had arrived live. */
module Hub {
  import opened Basics
  import opened Envelopes
  import opened SealedStorage
  import opened SealedBox
  import opened MessageLog
  import StoredTime
  import Queue

  function StampOrZero(stamp: Option<Instant>): Instant {
    if stamp.Some? then stamp.value else StoredTime.ZERO_TIME
  }

  /** What applyText builds; `None` is a payload the hub ignores. */
  function TextOf(env: Envelope): Option<Message> {
    match env.payload
    case DirectMessage(recipient, body, sender) =>
      Some(Message(env.messageId, sender, recipient, body, StampOrZero(env.sentAt), StampOrZero(env.receivedAt)))
    case BroadcastMessage(text, origin) =>
      Some(Message(env.messageId, origin, "", text, StampOrZero(env.sentAt), StampOrZero(env.receivedAt)))
    case _ => None
  }

  /** What Apply hands to the log: the text itself, or what a sealed box opened to. A box that does
      not open, or opens to bytes that do not decode, is dropped whole. */
  function MessageOf(prim: Primitives, codec: Codec, identity: Option<Identity>, env: Envelope): Option<Message> {
    if !env.payload.SealedDelivery? then TextOf(env)
    else if identity.None? then None
    else
      match Open(prim, identity.value, env.payload.ciphertext)
      case Opened(plaintext) =>
        (match codec.unmarshal(plaintext)
         case Some(inner) => TextOf(inner)
         case None => None)
      case _ => None
  }

  class Device {
    const prim: Primitives
    const codec: Codec
    const identity: Option<Identity>
    const log: Log

    ghost predicate Valid()
      reads this, log, log.dedup
    {
      log.Valid()
    }

    constructor (prim: Primitives, codec: Codec, identity: Option<Identity>, local: string)
      ensures Valid() && fresh(log) && fresh(log.dedup) && log.filed == []
      ensures this.prim == prim && this.codec == codec && this.identity == identity
    {
      this.prim, this.codec, this.identity := prim, codec, identity;
      log := new Log(local, 0, 0);
    }

    /** The display verdict, and the one message filed when it is positive. */
    method Apply(env: Envelope) returns (msg: Option<Message>, display: bool)
      requires Valid()
      modifies log, log.dedup
      ensures Valid()
      ensures msg == MessageOf(prim, codec, identity, env)
      ensures display == (msg.Some? && msg.value.id !in LastN(Ids(old(log.filed)), log.dedup.capacity))
      ensures log.filed == if display then old(log.filed) + [msg.value] else old(log.filed)
    {
      var inner := env;
      if env.payload.SealedDelivery? {
        if identity.None? { return None, false; }
        var result := Open(prim, identity.value, env.payload.ciphertext);
        if !result.Opened? { return None, false; }
        var decoded := codec.unmarshal(result.plaintext);
        if decoded.None? { return None, false; }
        inner := decoded.value;
      }
      msg := TextOf(inner);
      if msg.None? { return None, false; }
      display := log.Append(msg.value);
    }
  }

  /** What the hub makes of the two kinds of text the routing layer stamps: every field comes from where it
      belongs, a broadcast has no recipient, and anything else is no text. */
  lemma TextsOfStamped(receivedAt: Instant, original: Envelope, routed: Payload)
    ensures var m := TextOf(StampedDelivery(receivedAt, original, routed));
      var sentAt := if original.sentAt.Some? then original.sentAt.value else StoredTime.ZERO_TIME;
      && (routed.DirectMessage? ==>
            m == Some(Message(original.messageId, routed.sender, routed.recipient, routed.body, sentAt, receivedAt)))
      && (routed.BroadcastMessage? ==>
            m == Some(Message(original.messageId, routed.origin, "", routed.text, sentAt, receivedAt)))
      && (m.Some? <==> routed.DirectMessage? || routed.BroadcastMessage?)
  {
  }

  // ---------------------------------------------------------------------------
  // Replay equals live delivery
  // ---------------------------------------------------------------------------

  /** keystoreSealer.Seal: to the pinned key when there is one, verbatim otherwise. */
  function SealVerdictFor(prim: Primitives, pinned: Option<Bytes>, eph: Bytes, nonce: Bytes, marshalled: Bytes)
    : SealVerdict
  {
    match pinned
    case None => Unsealed
    case Some(pub) =>
      match Seal(prim, eph, nonce, pub, marshalled)
      case None => SealRefused
      case Some(box) => Sealed(box)
  }

  /** The stored body of a stamped envelope, `None` when the enqueue is refused. */
  function StoredBody(prim: Primitives, codec: Codec, pinned: Option<Bytes>, eph: Bytes, nonce: Bytes, live: Envelope)
    : Option<Bytes>
  {
    match codec.marshal(live)
    case None => None
    case Some(m) => SealForStorage(SealVerdictFor(prim, pinned, eph, nonce, m), m)
  }

  /** For every stamped message, stored plain or sealed to this device's key, the recipient's Apply
      of the resumed frame yields the message its Apply of the live envelope would have yielded:
      same ID, sender, recipient, body and both timestamps. */
  lemma ReplayEqualsLive(prim: Primitives, codec: Codec, id: Identity, pinned: Option<Bytes>,
                         eph: Bytes, nonce: Bytes, live: Envelope, position: Uint64)
    requires Lawful(prim) && RoundTrips(codec) && |nonce| == NONCE_SIZE
    requires pinned == None || pinned == Some(PublicKey(prim, id))
    requires !live.payload.SealedDelivery?
    requires StoredBody(prim, codec, pinned, eph, nonce, live).Some?
    ensures var frame := DeliveryFromStorage(codec, position, StoredBody(prim, codec, pinned, eph, nonce, live).value);
      && frame.Some?
      && MessageOf(prim, codec, Some(id), frame.value) == MessageOf(prim, codec, Some(id), live) == TextOf(live)
  {
    var m := codec.marshal(live).value;
    var verdict := SealVerdictFor(prim, pinned, eph, nonce, m);
    FramingRoundTrips(codec, live, verdict, position);
    if pinned.Some? {
      OpenInvertsSeal(prim, eph, nonce, id, m);
    }
  }

  /** The same through the whole queue: as long as an accepted message is still owed, the recipient's
      resume carries a frame for it that applies to the message the live envelope would have been. */
  lemma QueueReplayEqualsLive(prim: Primitives, codec: Codec, id: Identity, pinned: Option<Bytes>,
                              eph: Bytes, nonce: Bytes, receivedAt: Instant, original: Envelope, routed: Payload,
                              maxSize: nat, es: seq<Queue.Event>, i: nat, k: Queue.Key, after: Uint64)
    requires Lawful(prim) && RoundTrips(codec) && |nonce| == NONCE_SIZE
    requires pinned == None || pinned == Some(PublicKey(prim, id))
    requires routed.DirectMessage?
    requires Queue.OwedSince(maxSize, es, i, k) && Int64(after) < k.position
    requires Some(es[i].row.body) ==
      StoredBody(prim, codec, pinned, eph, nonce, StampedDelivery(receivedAt, original, routed))
    ensures var out := Queue.Resume(codec, Queue.Run(maxSize, es), k.recipient, after);
      exists n :: 0 <= n < |out| && out[n].position == k.position
        && MessageOf(prim, codec, Some(id), out[n].envelope) ==
             Some(Message(original.messageId, routed.sender, routed.recipient, routed.body,
                          StampOrZero(original.sentAt), receivedAt))
  {
    var live := StampedDelivery(receivedAt, original, routed);
    ReplayEqualsLive(prim, codec, id, pinned, eph, nonce, live, 0);
    var n := Queue.OwedIsResumed(codec, maxSize, es, i, k, after);
    ReplayEqualsLive(prim, codec, id, pinned, eph, nonce, live, k.position);
  }
}
