/** The two seats of a BlockJack game and per-seat records. */
module Seats {

  /** A seat number. The callers of the engine only ever register and act as
      seat 1 or seat 2. */
  type Seat = s: int | s == 1 || s == 2 witness 1

  /** The seat that is not `s`. */
  function Other(s: Seat): (t: Seat)
    ensures t != s
  {
    if s == 1 then 2 else 1
  }

  /** A record with one entry per seat, such as the `placed` hash whose keys
      "1" and "2" exist from the initial state on. */
  datatype PerSeat<T> = PerSeat(one: T, two: T) {
    function Get(s: Seat): T {
      if s == 1 then one else two
    }

    function Set(s: Seat, v: T): (r: PerSeat<T>)
      ensures r.Get(s) == v && r.Get(Other(s)) == Get(Other(s))
    {
      if s == 1 then PerSeat(v, two) else PerSeat(one, v)
    }
  }
}
