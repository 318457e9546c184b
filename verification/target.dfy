/**
 * Target: the single food cell, its spawn bounds and the randomizer that
 * places it on the BODY_SIZE grid when none exists.
 */
module Targets {
  import opened Common
  import opened Obstacles

  /** random.randrange raises ValueError on an empty range. */
  datatype RandError = EmptyRange

  /** `present` models the field `exists` (a reserved word here). */
  datatype Target = Target(
    present: bool,
    randX: int, randY: int,
    minX: int, maxX: int, minY: int, maxY: int)

  /** Target.__init__: spawn bounds derived from the obstacle, no target yet. */
  function New(o: Obstacle): (t: Target)
    ensures !t.present && t.randX == 0 && t.randY == 0
    ensures t.minX == o.innerOffset + 1 && t.maxX == o.innerX - BODY_SIZE
    ensures t.minY == o.innerOffset + 1 && t.maxY == o.innerY - BODY_SIZE
  {
    Target(false, 0, 0,
           o.innerOffset + 1, o.innerX - BODY_SIZE,
           o.innerOffset + 1, o.innerY - BODY_SIZE)
  }

  /** Number of values randrange(start, stop, BODY_SIZE) chooses from. */
  function Count(start: int, stop: int): int {
    (stop - start + BODY_SIZE - 1) / BODY_SIZE
  }

  /**
   * random.randrange(start, stop, BODY_SIZE), the only step the game uses.
   * The random choice randbelow(n) is the oracle `pick` taken modulo n.
   */
  function RandRange(start: int, stop: int, pick: nat): (r: Result<int, RandError>)
    ensures r.Success? <==> start < stop
    ensures r.Success? ==> start <= r.value < stop && OnGrid(r.value, start)
  {
    var n := Count(start, stop);
    if n <= 0 then Failure(EmptyRange)
    else Success(start + BODY_SIZE * (pick % n))
  }

  /** Every on-grid value of the range is drawn by some pick: the draw is not narrower than randrange's. */
  lemma RandRangeCovers(start: int, stop: int, v: int)
    requires start <= v < stop && OnGrid(v, start)
    ensures exists pick: nat :: RandRange(start, stop, pick) == Success(v)
  {
    var k := (v - start) / BODY_SIZE;
    assert k < Count(start, stop);
    assert RandRange(start, stop, k) == Success(v);
  }

  /** A present target sits on the step grid inside its own spawn bounds. */
  predicate Placed(t: Target) {
    t.present ==>
      && t.minX <= t.randX < t.maxX && OnGrid(t.randX, t.minX)
      && t.minY <= t.randY < t.maxY && OnGrid(t.randY, t.minY)
  }

  /**
   * randomizer: if no target exists, draw both coordinates and mark it
   * present; otherwise change nothing. No check against the snake's cells.
   */
  function Randomizer(t: Target, pickX: nat, pickY: nat): (r: Result<Target, RandError>)
    ensures t.present ==> r == Success(t)
    ensures !t.present ==> (r.Success? <==> t.minX < t.maxX && t.minY < t.maxY)
    ensures r.Success? ==> r.value.present
    ensures r.Success? && (Placed(t) || !t.present) ==> Placed(r.value)
    ensures r.Success? ==> r.value.(present := t.present, randX := t.randX, randY := t.randY) == t
  {
    if t.present then Success(t)
    else
      match RandRange(t.minX, t.maxX, pickX)
      case Failure(e) => Failure(e)
      case Success(x) =>
        match RandRange(t.minY, t.maxY, pickY)
        case Failure(e) => Failure(e)
        case Success(y) => Success(t.(present := true, randX := x, randY := y))
  }

  /** Every on-grid cell of the spawn bounds can be where an absent target appears. */
  lemma RandomizerCovers(t: Target, x: int, y: int)
    requires !t.present
    requires t.minX <= x < t.maxX && OnGrid(x, t.minX)
    requires t.minY <= y < t.maxY && OnGrid(y, t.minY)
    ensures exists px: nat, py: nat :: Randomizer(t, px, py) == Success(t.(present := true, randX := x, randY := y))
  {
    RandRangeCovers(t.minX, t.maxX, x);
    RandRangeCovers(t.minY, t.maxY, y);
    var px: nat :| RandRange(t.minX, t.maxX, px) == Success(x);
    var py: nat :| RandRange(t.minY, t.maxY, py) == Success(y);
    assert Randomizer(t, px, py) == Success(t.(present := true, randX := x, randY := y));
  }

  /**
   * For the start-up arena the target lands in x in [2, 122], y in [2, 48],
   * on even coordinates, well inside the playfield border_collision accepts.
   */
  lemma ArenaTargetInPlay(pickX: nat, pickY: nat)
    ensures Randomizer(New(ARENA), pickX, pickY).Success?
    ensures var t := Randomizer(New(ARENA), pickX, pickY).value;
      && 2 <= t.randX <= 122 && t.randX % 2 == 0
      && 2 <= t.randY <= 48 && t.randY % 2 == 0
      && !BorderCollision(ARENA, t.randX, t.randY)
  {
  }
}
