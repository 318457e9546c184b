/**
 * The body of the game's main loop as one Tick, in the program's order:
 * world_test, joystick input, update_pos, Snek_Body.update,
 * border_collision, randomizer, body_collision. The two collision tests
 * only report: the loop ignores their results and keeps running.
 */
module MainLoop {
  import opened Common
  import opened SnekControl
  import opened SnekBody
  import opened Obstacles
  import opened Targets
  import opened World
  import opened Joystick

  /** Start cell given to Snek_Control at start-up. */
  const START_X: int := 10
  const START_Y: int := 26

  /** Everything the loop mutates, plus the (unchanging) arena. */
  datatype Game = Game(ctrl: Control, body: Body, target: Target, arena: Obstacle)

  /** One iteration's outside inputs: offset joystick readings and the random picks. */
  datatype Input = Input(rawX: int, rawY: int, pickX: nat, pickY: nat)

  /** The state after one iteration and what its two collision tests reported. */
  datatype Step = Step(game: Game, wallHit: bool, selfHit: bool)

  /** The objects the program builds before entering the loop. */
  function Start(): (g: Game)
    ensures g.body.segments == [(g.ctrl.x, g.ctrl.y)] && g.body.length == 5
    ensures !g.target.present && g.arena == ARENA
    ensures g.ctrl == Init(START_X, START_Y) && g.target == Targets.New(ARENA)
  {
    var c := Init(START_X, START_Y);
    Game(c, SnekBody.New((c.x, c.y)), Targets.New(ARENA), ARENA)
  }

  /** What world_test and body_collision need: a head exists and update keeps one. */
  predicate Runnable(g: Game) {
    |g.body.segments| >= 1 && g.body.length >= 1
  }

  /** One iteration of the main loop. A failing randomizer (empty spawn range) ends it. */
  function Tick(g: Game, i: Input): (r: Result<Step, RandError>)
    requires Runnable(g)
    ensures r.Success? ==> var h := r.value.game;
      && Runnable(h) && h.arena == g.arena
      && h.target.present
      && h.body.segments[0] == (h.ctrl.x, h.ctrl.y)
      && h.body.length == g.body.length + (if Eats(g.body, g.target) then 1 else 0)
      && (h.ctrl.x - g.ctrl.x, h.ctrl.y - g.ctrl.y) == (h.ctrl.dx, h.ctrl.dy)
      && (r.value.wallHit <==> !InPlay(g.arena, h.ctrl.x, h.ctrl.y))
      && (r.value.selfHit <==> exists k :: 1 <= k < |h.body.segments| && h.body.segments[k] == h.body.segments[0])
    ensures r.Success? ==> var h := r.value.game; var e := Classify(i.rawX, i.rawY);
      && (e.None? ==> (h.ctrl.dx, h.ctrl.dy) == (g.ctrl.dx, g.ctrl.dy))
      && (e.Some? && Reverses(g.ctrl, e.value) ==> (h.ctrl.dx, h.ctrl.dy) == (g.ctrl.dx, g.ctrl.dy))
      && (e.Some? && !Reverses(g.ctrl, e.value) ==> (h.ctrl.dx, h.ctrl.dy) == Vector(e.value))
    ensures r.Success? ==> var h := r.value.game;
      && h.body.segments[1..] <= g.body.segments
      && (g.target.present && !Eats(g.body, g.target) ==> h.target == g.target)
    ensures r.Failure? <==>
      (!g.target.present || Eats(g.body, g.target)) &&
      !(g.target.minX < g.target.maxX && g.target.minY < g.target.maxY)
  {
    var (b1, t1) := WorldTest(g.body, g.target);
    var c1 := ApplyEvent(g.ctrl, Classify(i.rawX, i.rawY));
    var c2 := UpdatePos(c1);
    var b2 := Update(b1, (c2.x, c2.y));
    var wall := BorderCollision(g.arena, c2.x, c2.y);
    match Randomizer(t1, i.pickX, i.pickY)
    case Failure(e) => Failure(e)
    case Success(t2) => Success(Step(Game(c2, b2, t2, g.arena), wall, BodyCollision(b2)))
  }

  /** The spawn bounds Target.__init__ derives from the arena. */
  predicate BoundsFromArena(t: Target, o: Obstacle) {
    t.(present := false, randX := 0, randY := 0) == Targets.New(o)
  }

  /** A cell on the step grid the target is drawn on. */
  predicate Aligned(c: Cell, t: Target) {
    OnGrid(c.0, t.minX) && OnGrid(c.1, t.minY)
  }

  /** The state invariant the loop keeps from start-up on. */
  predicate Inv(g: Game) {
    && Runnable(g)
    && |g.body.segments| <= g.body.length
    && g.body.segments[0] == (g.ctrl.x, g.ctrl.y)
    && IsDelta(g.ctrl.dx, g.ctrl.dy)
    && BoundsFromArena(g.target, g.arena)
    && g.target.minX < g.target.maxX && g.target.minY < g.target.maxY
    && Placed(g.target)
    && forall k :: 0 <= k < |g.body.segments| ==> Aligned(g.body.segments[k], g.target)
  }

  /** The start-up state satisfies the invariant. */
  lemma StartInv()
    ensures Inv(Start())
  {
  }

  /**
   * Under the invariant a tick never fails and keeps the invariant: the body
   * stays within its length, the head stays in segments[0], the delta stays
   * a unit move, and target and snake stay on one shared grid.
   */
  lemma TickPreservesInv(g: Game, i: Input)
    requires Inv(g)
    ensures Tick(g, i).Success?
    ensures Inv(Tick(g, i).value.game)
  {
    var (b1, t1) := WorldTest(g.body, g.target);
    var c1 := ApplyEvent(g.ctrl, Classify(i.rawX, i.rawY));
    if Classify(i.rawX, i.rawY).Some? {
      SwapKeepsDelta(g.ctrl, Classify(i.rawX, i.rawY).value);
    }
    var c2 := UpdatePos(c1);
    MoveIsOneStep(c1, g.target.minX, g.target.minY);
    var b2 := Update(b1, (c2.x, c2.y));
    var h := Tick(g, i).value.game;
    assert h.body == b2;
    assert h.target.minX == g.target.minX && h.target.minY == g.target.minY;
    forall k | 0 <= k < |b2.segments|
      ensures Aligned(b2.segments[k], h.target)
    {
      if k > 0 {
        assert b2.segments[k] == b2.segments[1..][k - 1];
        assert b2.segments[k] == g.body.segments[k - 1];
      }
    }
  }

  /** In every reachable state the head can land exactly on a present target. */
  lemma HeadShareTargetGrid(g: Game)
    requires Inv(g) && g.target.present
    ensures OnGrid(g.ctrl.x, g.target.randX) && OnGrid(g.ctrl.y, g.target.randY)
  {
  }

  /**
   * The body grows by one cell per tick until it meets its target length,
   * never overshooting; eating adds exactly one to that length.
   */
  lemma TickGrowth(g: Game, i: Input)
    requires Inv(g)
    ensures Tick(g, i).Success?
    ensures var h := Tick(g, i).value.game;
      && h.body.length - g.body.length == (if Eats(g.body, g.target) then 1 else 0)
      && |h.body.segments| == Min(|g.body.segments| + 1, h.body.length)
  {
    TickPreservesInv(g, i);
  }

  /**
   * Direction handling inside a tick: the classified event goes through the
   * reversal guard, so a non-reversing event turns the snake, while a
   * reversing one or a joystick at rest leaves the direction alone.
   */
  lemma TickDirection(g: Game, i: Input)
    requires Inv(g)
    ensures Tick(g, i).Success?
    ensures var h := Tick(g, i).value.game;
      && (Classify(i.rawX, i.rawY).None? ==> (h.ctrl.dx, h.ctrl.dy) == (g.ctrl.dx, g.ctrl.dy))
      && ((Classify(i.rawX, i.rawY).Some? && Reverses(g.ctrl, Classify(i.rawX, i.rawY).value))
          ==> (h.ctrl.dx, h.ctrl.dy) == (g.ctrl.dx, g.ctrl.dy))
      && (h.ctrl.dx, h.ctrl.dy) != (-g.ctrl.dx, -g.ctrl.dy)
      && (forall d :: Classify(i.rawX, i.rawY) == Some(d) && !Reverses(g.ctrl, d) ==> (h.ctrl.dx, h.ctrl.dy) == Vector(d))
  {
    TickPreservesInv(g, i);
  }

  /** Consecutive iterations over a series of inputs; reports are dropped, as the loop drops them. */
  function Run(g: Game, ins: seq<Input>): (r: Result<Game, RandError>)
    requires Runnable(g)
    ensures r.Success? ==> Runnable(r.value) && r.value.arena == g.arena
    ensures r.Success? ==> r.value.body.length >= g.body.length
    ensures r.Success? && |ins| > 0 ==> r.value.target.present
    decreases |ins|
  {
    if |ins| == 0 then Success(g)
    else
      match Tick(g, ins[0])
      case Failure(e) => Failure(e)
      case Success(s) => Run(s.game, ins[1..])
  }

  /**
   * From an invariant state any input series runs without failure, keeps
   * the invariant, and after k ticks the body holds min(start + k, length)
   * cells: full length is reached one cell per tick and never exceeded.
   */
  lemma {:induction false} RunKeepsInv(g: Game, ins: seq<Input>)
    requires Inv(g)
    ensures Run(g, ins).Success?
    ensures Inv(Run(g, ins).value)
    ensures g.body.length <= Run(g, ins).value.body.length <= g.body.length + |ins|
    ensures |Run(g, ins).value.body.segments| ==
            Min(|g.body.segments| + |ins|, Run(g, ins).value.body.length)
    decreases |ins|
  {
    if |ins| > 0 {
      TickGrowth(g, ins[0]);
      TickPreservesInv(g, ins[0]);
      var h := Tick(g, ins[0]).value.game;
      assert Run(g, ins) == Run(h, ins[1..]);
      RunKeepsInv(h, ins[1..]);
      MinStep(|g.body.segments|, |ins| - 1, h.body.length, Run(h, ins[1..]).value.body.length);
    }
  }

  /** One tick's growth composed with the rest of the run's. */
  lemma MinStep(n0: int, m: int, len1: int, lenEnd: int)
    requires len1 <= lenEnd <= len1 + m
    ensures Min(Min(n0 + 1, len1) + m, lenEnd) == Min(n0 + 1 + m, lenEnd)
  {
  }

  /** From start-up, a rest input leaves the snake heading right and moves it one cell. */
  lemma FirstTickExample(px: nat, py: nat)
    ensures Tick(Start(), Input(0, 0, px, py)).Success?
    ensures var s := Tick(Start(), Input(0, 0, px, py)).value;
      && s.game.body.segments == [(12, 26), (10, 26)]
      && !s.wallHit && !s.selfHit && s.game.target.present
  {
  }
}
