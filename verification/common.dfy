/**
 * Shared vocabulary of the snake game model: the grid step, grid cells and
 * the small failure-carrying datatypes used by the other modules.
 */
module Common {

  /** BODY_SIZE: the pixel size of one snake segment and the movement step. */
  const BODY_SIZE: int := 2

  /** A pixel position (x, y); the game stores these as Python tuples. */
  type Cell = (int, int)

  datatype Option<T> = None | Some(value: T)

  datatype Result<T, E> = Success(value: T) | Failure(error: E)

  /** `v` lies on the BODY_SIZE grid that starts at `origin`. */
  predicate OnGrid(v: int, origin: int) {
    (v - origin) % BODY_SIZE == 0
  }

  function Min(a: int, b: int): int {
    if a <= b then a else b
  }
}
