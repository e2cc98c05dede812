/** The status rules every write to a liquidity reservation goes through. */
module ReservationRules {
  import opened SwapTypes
  import opened Wrappers

  /** A transition succeeds from the statuses it names and replays idempotently; otherwise it throws. */
  function Transition(status: Reservation, allowedFrom: set<Reservation>, next: Reservation): Option<Reservation> {
    if status in allowedFrom || status == next then Some(next) else None
  }

  function Commit(status: Reservation): Option<Reservation> {
    Transition(status, {Reserved}, Committed)
  }

  function Release(status: Reservation): Option<Reservation> {
    Transition(status, {Reserved}, Released)
  }

  function RestoreRefund(status: Reservation): Option<Reservation> {
    Transition(status, {Committed, Reserved}, Released)
  }

  function Settle(status: Reservation): Option<Reservation> {
    Transition(status, {Committed, Reserved}, ReservationSettled)
  }
}
