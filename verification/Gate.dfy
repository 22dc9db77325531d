/** Check first, record later: how far concurrent requests can push a total past its limit. */
module Gate {

  /** What is recorded, and what admitted requests still hold: how much and how many. */
  datatype Load = Load(total: int, held: int, admitted: nat)

  /** Every admitted request holds between 0 and `most`. */
  ghost predicate Fits(a: Load, most: nat) {
    0 <= a.held <= a.admitted * most
  }

  /** One step of a gate with limit `limit` and room for `room` requests at a time: a request is admitted when the total
      leaves room for it, records what it holds, or leaves; or the total falls, or nothing relevant happens. */
  ghost predicate Moves(a: Load, b: Load, limit: int, room: nat) {
    || (exists d :: Admits(a, b, d, limit, room))
    || b.total + b.held == a.total + a.held
    || (b.held <= a.held && b.total <= a.total)
  }

  ghost predicate Admits(a: Load, b: Load, d: int, limit: int, room: nat) {
    a.total + d <= limit && b == Load(a.total, a.held + d, a.admitted + 1) && b.admitted <= room
  }

  /** The total, even with everything still held recorded too, stays within the limit and one less than `room`
      requests. */
  ghost predicate Within(a: Load, limit: int, room: nat, most: nat) {
    a.total + a.held <= limit + (room - 1) * most
  }

  lemma GateStep(a: Load, b: Load, limit: int, room: nat, most: nat)
    requires Fits(a, most) && Within(a, limit, room, most) && Moves(a, b, limit, room)
    ensures Within(b, limit, room, most)
  {
    if d :| Admits(a, b, d, limit, room) {
      assert a.admitted <= room - 1;
      assert a.admitted * most <= (room - 1) * most;
    }
  }
}
