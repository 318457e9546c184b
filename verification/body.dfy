/**
 * Snek_Body: the snake as a head-first list of cells, a target length, and
 * the last tail cell trimmed away (the fields `a`, `b`, used to erase it).
 */
module SnekBody {
  import opened Common

  /** Snek_Body.__init__ sets the target length to 5. */
  const INITIAL_LENGTH: nat := 5

  /** `erased` is None until the first trim, as `a`/`b` start as None. */
  datatype Body = Body(segments: seq<Cell>, length: nat, erased: Option<Cell>)

  /** Snek_Body.__init__: one segment at the start cell. */
  function New(head: Cell): (b: Body)
    ensures b.segments == [head] && |b.segments| <= b.length
    ensures b.length == INITIAL_LENGTH && b.erased.None?
  {
    Body([head], INITIAL_LENGTH, None)
  }

  /**
   * The trimming loop of update: pop the last cell while the list is longer
   * than `length`, remembering each popped cell. The result keeps the first
   * min(|segs|, length) cells; the remembered cell is the last one popped,
   * which is the one at index `length`.
   */
  function TrimTail(segs: seq<Cell>, length: nat, erased: Option<Cell>): (r: (seq<Cell>, Option<Cell>))
    ensures |r.0| == Min(|segs|, length)
    ensures r.0 == segs[..|r.0|]
    ensures |segs| > length ==> r.1 == Some(segs[length])
    ensures |segs| <= length ==> r.1 == erased
    decreases |segs|
  {
    if |segs| > length then
      TrimTail(segs[..|segs| - 1], length, Some(segs[|segs| - 1]))
    else
      (segs, erased)
  }

  /** update: prepend the new head, then trim the tail down to `length`. */
  function Update(b: Body, head: Cell): (r: Body)
    ensures r.length == b.length
    ensures |r.segments| <= b.length
    ensures b.length >= 1 ==> |r.segments| >= 1 && r.segments[0] == head
    ensures |r.segments| >= 1 ==> r.segments[1..] <= b.segments
    ensures |b.segments| < b.length ==> |r.segments| == |b.segments| + 1
    ensures |b.segments| >= b.length ==> |r.segments| == b.length
    ensures |b.segments| + 1 > b.length ==> r.erased == Some(([head] + b.segments)[b.length])
    ensures |b.segments| + 1 <= b.length ==> r.erased == b.erased
  {
    var (segs, erased) := TrimTail([head] + b.segments, b.length, b.erased);
    Body(segs, b.length, erased)
  }

  /** Python's `x in s` on a list: a front-to-back scan for an equal element. */
  function Contains(s: seq<Cell>, x: Cell): (r: bool)
    ensures r <==> exists i :: 0 <= i < |s| && s[i] == x
    decreases |s|
  {
    if |s| == 0 then false
    else if s[0] == x then true
    else
      assert forall i :: 1 <= i < |s| ==> s[i] == s[1..][i - 1];
      Contains(s[1..], x)
  }

  /** body_collision: the head occurs again somewhere in the rest of the body. */
  function BodyCollision(b: Body): (r: bool)
    requires |b.segments| >= 1
    ensures r <==> exists i :: 1 <= i < |b.segments| && b.segments[i] == b.segments[0]
  {
    var rest := b.segments[1..];
    assert forall i :: 1 <= i < |b.segments| ==> b.segments[i] == rest[i - 1];
    Contains(rest, b.segments[0])
  }

  /**
   * After an update, the snake has bitten itself exactly when the new head
   * lands on one of the old cells the update kept.
   */
  lemma CollisionAfterUpdate(b: Body, head: Cell)
    requires b.length >= 1
    ensures var r := Update(b, head);
      BodyCollision(r) <==> head in b.segments[..|r.segments| - 1]
    ensures head !in b.segments ==> !BodyCollision(Update(b, head))
  {
    var r := Update(b, head);
    var k := |r.segments| - 1;
    assert r.segments[1..] == b.segments[..k];
    assert forall i :: 1 <= i < |r.segments| ==> r.segments[i] == b.segments[..k][i - 1];
    if head in b.segments[..k] {
      var j :| 0 <= j < k && b.segments[..k][j] == head;
      assert r.segments[j + 1] == head;
    }
  }

  /** A head at (60, 30) collides when that cell recurs further down the body, and not otherwise. */
  lemma BodyCollisionExamples()
    ensures BodyCollision(Body([(60, 30), (62, 30), (62, 32), (60, 32), (60, 30)], 5, None))
    ensures !BodyCollision(Body([(60, 30), (62, 30), (62, 32)], 5, None))
    ensures !BodyCollision(Body([(60, 30)], 5, None))
  {
    assert Body([(60, 30), (62, 30), (62, 32), (60, 32), (60, 30)], 5, None).segments[4] == (60, 30);
  }
}
