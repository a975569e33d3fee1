/** Machine integers and small result types shared by the models. */
module Base {
  const TWO_64: int := 0x1_0000_0000_0000_0000
  const MAX_UINT64: uint64 := TWO_64 - 1

  /** Go's uint64. Arithmetic that can wrap is written out at the place where it happens. */
  type uint64 = x: int | 0 <= x < TWO_64

  /** Go's byte. */
  type byte = x: int | 0 <= x < 0x100

  /** `x + 1` on a uint64. */
  function Succ64(x: uint64): uint64 {
    if x == MAX_UINT64 then 0 else x + 1
  }

  datatype Option<+T> = None | Some(value: T)

  datatype Result<+T, +E> = Ok(value: T) | Err(error: E)

  /** The state of a session, on either side of the daemon's connection. */
  datatype Status = Running | Idle | Paused | Unresponsive | Ended

  /** `order` lists every member of `ids` once, in whatever order a Go map iteration gives. */
  ghost predicate Enumerates(order: seq<string>, ids: set<string>) {
    && (forall i, j :: 0 <= i < j < |order| ==> order[i] != order[j])
    && (forall c :: c in order <==> c in ids)
  }
}
