/**
 * World.world_test: the referee that detects the snake eating the target.
 */
module World {
  import opened Common
  import opened SnekBody
  import opened Targets

  /** The head cell equals the target cell. The `exists` flag is not consulted. */
  predicate Eats(b: Body, t: Target)
    requires |b.segments| >= 1
  {
    b.segments[0] == (t.randX, t.randY)
  }

  /**
   * world_test: on a hit the target is cleared and the snake's target
   * length grows by exactly one; nothing else changes, and on a miss
   * nothing changes at all.
   */
  function WorldTest(b: Body, t: Target): (r: (Body, Target))
    requires |b.segments| >= 1
    ensures r.0.segments == b.segments && r.0.erased == b.erased
    ensures r.1.(present := t.present) == t
    ensures Eats(b, t) ==> !r.1.present && r.0.length == b.length + 1
    ensures !Eats(b, t) ==> r == (b, t)
  {
    if Eats(b, t) then (b.(length := b.length + 1), t.(present := false)) else (b, t)
  }

  /** The length after world_test counts the hit: it grows iff the head was on the target. */
  lemma WorldTestGrowth(b: Body, t: Target)
    requires |b.segments| >= 1
    ensures WorldTest(b, t).0.length > b.length <==> Eats(b, t)
    ensures WorldTest(b, t).0.length - b.length <= 1
    ensures WorldTest(b, t).1.present ==> t.present
  {
  }

  /** A snake whose head is on the target at (40, 20) eats it. */
  lemma ConsumptionExample()
    ensures var r := WorldTest(Body([(40, 20), (38, 20)], 5, None), Target(true, 40, 20, 2, 124, 2, 50));
      !r.1.present && r.0.length == 6
  {
  }
}
