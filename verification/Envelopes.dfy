/** The control-plane envelope as the queue, the coordinator and the client see it.
    Protobuf itself is a parameter: a pair of functions with a round-trip law. */
module Envelopes {
  import opened Basics

  /** Instants are nanoseconds from the start of year 0, everywhere; `None` is an absent protobuf
      timestamp. */
  type Instant = int

  type Bytes = seq<Byte>

  datatype Payload =
    | DirectMessage(recipient: string, body: string, sender: string)
    | BroadcastMessage(text: string, origin: string)
    | SealedDelivery(ciphertext: Bytes)
    | OtherPayload

  datatype Envelope = Envelope(
    messageId: string,
    sentAt: Option<Instant>,
    receivedAt: Option<Instant>,
    position: Uint64,
    payload: Payload)

  /** proto.Marshal and proto.Unmarshal; either may refuse. */
  datatype Codec = Codec(
    marshal: Envelope -> Option<Bytes>,
    unmarshal: Bytes -> Option<Envelope>)

  /** What protobuf promises: whatever it wrote, it reads back. */
  ghost predicate RoundTrips(codec: Codec) {
    forall e :: codec.marshal(e).Some? ==> codec.unmarshal(codec.marshal(e).value) == Some(e)
  }

  /** routing.go's stampedDelivery: identity and send time carried over, receive time
      stamped once, position left at the live-traffic marker zero. */
  function StampedDelivery(receivedAt: Instant, original: Envelope, routed: Payload): Envelope {
    Envelope(original.messageId, original.sentAt, Some(receivedAt), 0, routed)
  }
}
