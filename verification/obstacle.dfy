/**
 * Obstacle (the arena border) and Game_Over.border_collision.
 */
module Obstacles {
  import opened Common

  /** The outer border rectangle and the inner playfield drawn as a hole in it. */
  datatype Obstacle = Obstacle(
    outerX: int, outerY: int,
    innerX: int, innerY: int,
    outerOffset: int, innerOffset: int)

  /** The arena the game builds at start-up. */
  const ARENA: Obstacle := Obstacle(128, 55, 126, 52, 0, 1)

  /** Right and bottom edges border_collision still accepts: inner size plus inner offset. */
  function MaxX(o: Obstacle): int { o.innerX + o.innerOffset }
  function MaxY(o: Obstacle): int { o.innerY + o.innerOffset }

  /** The closed rectangle [innerOffset, MaxX] x [innerOffset, MaxY] the head may occupy. */
  predicate InPlay(o: Obstacle, x: int, y: int) {
    o.innerOffset <= x <= MaxX(o) && o.innerOffset <= y <= MaxY(o)
  }

  /**
   * border_collision: the head at (x, y) has left the playfield. The far
   * edges compare with a strict `>`, so they are inside.
   */
  function BorderCollision(o: Obstacle, x: int, y: int): (r: bool)
    ensures r <==> !InPlay(o, x, y)
  {
    x > MaxX(o) || x < o.innerOffset || y > MaxY(o) || y < o.innerOffset
  }

  /**
   * The accepted region reaches one column and one row past the drawn hole
   * (which is innerX wide and innerY tall starting at innerOffset), and ends
   * exactly there.
   */
  lemma FarEdgeInclusive(o: Obstacle)
    requires o.innerX >= 0 && o.innerY >= 0
    ensures !BorderCollision(o, o.innerOffset + o.innerX, o.innerOffset)
    ensures !BorderCollision(o, o.innerOffset, o.innerOffset + o.innerY)
    ensures BorderCollision(o, o.innerOffset + o.innerX + 1, o.innerOffset)
    ensures BorderCollision(o, o.innerOffset, o.innerOffset + o.innerY + 1)
    ensures BorderCollision(o, o.innerOffset - 1, o.innerOffset)
    ensures BorderCollision(o, o.innerOffset, o.innerOffset - 1)
  {
  }

  /** Concrete heads against the start-up arena. */
  lemma ArenaExamples()
    ensures !BorderCollision(ARENA, 125, 10)
    ensures !BorderCollision(ARENA, 127, 53)
    ensures BorderCollision(ARENA, 128, 10)
    ensures BorderCollision(ARENA, 10, 54)
    ensures BorderCollision(ARENA, 0, 10)
    ensures !BorderCollision(ARENA, 60, 30)
  {
  }
}
