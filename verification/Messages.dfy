/** The values that travel between the services over NATS. */
module Messages {

  /** A matchmaking ticket id: 128 random bits in hex, so two tickets never coincide. */
  type Ticket = string

  /** A player looking for a match. */
  datatype Candidate = Candidate(ticketId: Ticket, username: string, elo: int)

  /** The two fan-out events a gateway waits for. */
  datatype Event =
    | Assigned(ticketA: Ticket, ticketB: Ticket, room: string, shard: string)
    | Timeout(ticket: Ticket)

  function Mentions(e: Event): set<Ticket> {
    match e
    case Assigned(a, b, _, _) => {a, b}
    case Timeout(t) => {t}
  }
}
