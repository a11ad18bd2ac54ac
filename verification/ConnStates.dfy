/** The connection states and the law of their transitions (internal/control/state.go). */
module ConnStates {

  datatype ConnState = Disconnected | Connecting | Handshaking | Online | Degraded

  /** legalTransitions, the whole transition law. */
  predicate Legal(from: ConnState, to: ConnState) {
    match from
    case Disconnected => to.Connecting?
    case Connecting => to.Handshaking? || to.Disconnected?
    case Handshaking => to.Online? || to.Disconnected?
    case Online => to.Degraded? || to.Disconnected?
    case Degraded => to.Disconnected?
  }
}
