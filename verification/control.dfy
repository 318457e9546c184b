/**
 * Snek_Control: the snake head's position and its per-tick movement delta,
 * the four-entry direction table and the reversal guard.
 */
module SnekControl {
  import opened Common

  /** The joystick events that carry a movement (every Joystick_Events value except BTN_PRESS). */
  datatype Direction = Left | Right | Up | Down

  /** Head position (x, y) and current delta (dx, dy). The never-read max_x/max_y are omitted. */
  datatype Control = Control(x: int, y: int, dx: int, dy: int)

  /** The opposite direction of `d`. */
  function Opposite(d: Direction): Direction {
    match d
    case Left => Right
    case Right => Left
    case Up => Down
    case Down => Up
  }

  /** One of the four unit moves {(±BODY_SIZE, 0), (0, ±BODY_SIZE)}. */
  predicate IsDelta(dx: int, dy: int) {
    || (dx == -BODY_SIZE && dy == 0)
    || (dx == BODY_SIZE && dy == 0)
    || (dx == 0 && dy == -BODY_SIZE)
    || (dx == 0 && dy == BODY_SIZE)
  }

  /** vector_dict: the delta each direction asks for. */
  function Vector(d: Direction): (v: (int, int))
    ensures IsDelta(v.0, v.1)
  {
    match d
    case Left => (-BODY_SIZE, 0)
    case Right => (BODY_SIZE, 0)
    case Up => (0, -BODY_SIZE)
    case Down => (0, BODY_SIZE)
  }

  /** The table is one-to-one, covers all four moves, and opposite directions negate each other. */
  lemma VectorTable(d: Direction, e: Direction, dx: int, dy: int)
    ensures Vector(d) == Vector(e) ==> d == e
    ensures Vector(Opposite(d)) == (-Vector(d).0, -Vector(d).1)
    ensures IsDelta(dx, dy) ==> exists f :: Vector(f) == (dx, dy)
  {
    if IsDelta(dx, dy) {
      if dx < 0 {
        assert Vector(Left) == (dx, dy);
      } else if dx > 0 {
        assert Vector(Right) == (dx, dy);
      } else if dy < 0 {
        assert Vector(Up) == (dx, dy);
      } else {
        assert Vector(Down) == (dx, dy);
      }
    }
  }

  /** Snek_Control.__init__: the snake starts at (startX, startY) heading right. */
  function Init(startX: int, startY: int): (c: Control)
    ensures c.x == startX && c.y == startY
    ensures (c.dx, c.dy) == Vector(Right)
  {
    Control(startX, startY, BODY_SIZE, 0)
  }

  /** The request `d` is the exact negation of the current delta. */
  predicate Reverses(c: Control, d: Direction) {
    Vector(d) == (-c.dx, -c.dy)
  }

  /**
   * vector_swap: adopt the requested delta unless it is the exact reverse
   * of the current one; the position never changes.
   */
  function VectorSwap(c: Control, d: Direction): (r: Control)
    ensures r.x == c.x && r.y == c.y
    ensures Reverses(c, d) ==> r == c
    ensures !Reverses(c, d) ==> (r.dx, r.dy) == Vector(d)
  {
    var (a, b) := Vector(d);
    if c.dx + a != 0 || c.dy + b != 0 then c.(dx := a, dy := b) else c
  }

  /** From a unit delta, a swap yields a unit delta and never turns the snake around. */
  lemma SwapKeepsDelta(c: Control, d: Direction)
    requires IsDelta(c.dx, c.dy)
    ensures IsDelta(VectorSwap(c, d).dx, VectorSwap(c, d).dy)
    ensures (VectorSwap(c, d).dx, VectorSwap(c, d).dy) != (-c.dx, -c.dy)
  {
  }

  /** Repeating the same request changes nothing more. */
  lemma SwapIdempotent(c: Control, d: Direction)
    ensures VectorSwap(VectorSwap(c, d), d) == VectorSwap(c, d)
  {
  }

  /** `if event in actions: actions[event]()`: no event leaves the control as it is. */
  function ApplyEvent(c: Control, e: Option<Direction>): (r: Control)
    ensures e.None? ==> r == c
    ensures e.Some? ==> r == VectorSwap(c, e.value)
  {
    match e
    case None => c
    case Some(d) => VectorSwap(c, d)
  }

  /** The control after a whole series of direction requests. */
  function SwapAll(c: Control, ds: seq<Direction>): Control
    decreases |ds|
  {
    if |ds| == 0 then c else SwapAll(VectorSwap(c, ds[0]), ds[1..])
  }

  /**
   * Any series of requests, starting from a unit delta (such as Init's),
   * keeps the delta inside the four-move set and leaves the position alone.
   */
  lemma {:induction false} SwapAllKeepsDelta(c: Control, ds: seq<Direction>)
    requires IsDelta(c.dx, c.dy)
    ensures IsDelta(SwapAll(c, ds).dx, SwapAll(c, ds).dy)
    ensures SwapAll(c, ds).x == c.x && SwapAll(c, ds).y == c.y
    decreases |ds|
  {
    if |ds| > 0 {
      SwapKeepsDelta(c, ds[0]);
      SwapAllKeepsDelta(VectorSwap(c, ds[0]), ds[1..]);
    }
  }

  /** update_pos: the head moves by the current delta; the delta is untouched. */
  function UpdatePos(c: Control): (r: Control)
    ensures r.x - c.x == c.dx && r.y - c.y == c.dy
    ensures r.dx == c.dx && r.dy == c.dy
  {
    c.(x := c.x + c.dx, y := c.y + c.dy)
  }

  /**
   * With a unit delta, a move covers exactly one grid step along one axis,
   * stays on every BODY_SIZE grid the head was on, and is undone by the
   * opposite move.
   */
  lemma MoveIsOneStep(c: Control, ox: int, oy: int)
    requires IsDelta(c.dx, c.dy)
    ensures var r := UpdatePos(c);
      (r.x == c.x || r.y == c.y) &&
      (r.x - c.x) * (r.x - c.x) + (r.y - c.y) * (r.y - c.y) == BODY_SIZE * BODY_SIZE
    ensures OnGrid(c.x, ox) && OnGrid(c.y, oy) ==>
      OnGrid(UpdatePos(c).x, ox) && OnGrid(UpdatePos(c).y, oy)
    ensures UpdatePos(UpdatePos(c).(dx := -c.dx, dy := -c.dy)).x == c.x
    ensures UpdatePos(UpdatePos(c).(dx := -c.dx, dy := -c.dy)).y == c.y
  {
  }
}
