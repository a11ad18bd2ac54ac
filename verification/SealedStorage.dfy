/** The at-rest seam of the offline queue (internal/coordinator/queue/sealed.go): one
    marker byte in front of every stored body, and its reversal on resume. */
module SealedStorage {
  import opened Basics
  import opened Envelopes

  const PLAIN_MARKER: Byte := 0x00
  const SEALED_MARKER: Byte := 0x01

  /** What AtRest.Seal answers: a box, the bytes verbatim, or a refusal. */
  datatype SealVerdict = Sealed(box: Bytes) | Unsealed | SealRefused

  function SealForStorage(verdict: SealVerdict, marshalled: Bytes): Option<Bytes> {
    match verdict
    case SealRefused => None
    case Sealed(box) => Some([SEALED_MARKER] + box)
    case Unsealed => Some([PLAIN_MARKER] + marshalled)
  }

  /** deliveryFromStorage: `None` is a row skipped as unreadable. */
  function DeliveryFromStorage(codec: Codec, position: Uint64, body: Bytes): Option<Envelope> {
    if |body| < 1 then None
    else if body[0] == SEALED_MARKER then
      Some(Envelope("", None, None, position, SealedDelivery(body[1..])))
    else if body[0] == PLAIN_MARKER then
      match codec.unmarshal(body[1..])
      case None => None
      case Some(env) => Some(env.(position := position))
    else None
  }

  /** A body the resume can put on the wire. */
  predicate Readable(codec: Codec, body: Bytes) {
    DeliveryFromStorage(codec, 0, body).Some?
  }

  /** Every frame built from storage carries the row's position, and whether a row is readable does not depend
      on where it sits: it is a box, or a plain body that unmarshals. */
  lemma FrameCarriesPosition(codec: Codec, position: Uint64, body: Bytes)
    ensures DeliveryFromStorage(codec, position, body).Some? <==> Readable(codec, body)
    ensures Readable(codec, body) ==>
      DeliveryFromStorage(codec, position, body).value.position == position
    ensures Readable(codec, body) <==>
      body != [] && (body[0] == 0x01 || (body[0] == 0x00 && codec.unmarshal(body[1..]).Some?))
  {
  }

  /** Framing is undone by unframing: a box crosses verbatim, a plain envelope comes back
      whole, and in both cases only the position is new. */
  lemma FramingRoundTrips(codec: Codec, env: Envelope, verdict: SealVerdict, position: Uint64)
    requires RoundTrips(codec) && codec.marshal(env).Some? && !verdict.SealRefused?
    ensures var stored := SealForStorage(verdict, codec.marshal(env).value);
      && stored.Some? && |stored.value| >= 1
      && stored.value[0] == (if verdict.Sealed? then 0x01 else 0x00)
      && DeliveryFromStorage(codec, position, stored.value) ==
        match verdict
        case Sealed(box) => Some(Envelope("", None, None, position, SealedDelivery(box)))
        case Unsealed => Some(env.(position := position))
  {
    var marshalled := codec.marshal(env).value;
    assert ([PLAIN_MARKER] + marshalled)[1..] == marshalled;
    if verdict.Sealed? {
      assert ([SEALED_MARKER] + verdict.box)[1..] == verdict.box;
    }
  }
}
