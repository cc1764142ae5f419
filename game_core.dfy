/**
  `GameCore`: the client's view of one player (`PlayerState`) with its two smoothing
  rules, and the game-wide constants of `GameState`.

  The float constants reduce to integer arithmetic. `(int)(d * 0.5f)` is `d / 2`
  rounded toward zero. `Math.round(p + d * 0.15f)` adds to `p` the integer nearest to
  `d * 0.15f` (ties upward); the float `0.15f` is exactly 10066330 / 2^26, slightly
  more than 0.15, and that value is used here. All values are assumed map-sized
  (well below 2^24), where these float computations are exact.
*/
module GameCore {
  import opened Geometry

  // GameState
  const MOVE_STEP: int := 2
  const ANIMATION_SPEED: int := 150
  const SCREEN_WIDTH: int := 800
  const SCREEN_HEIGHT: int := 600

  /** The float `0.15f` is SPEED_NUM / SPEED_DEN exactly. */
  const SPEED_NUM: int := 10066330
  const SPEED_DEN: int := 0x400_0000

  /** Everything a `PlayerState` holds. */
  datatype PlayerView = PlayerView(
    id: int, position: Point, target: Point, direction: string, spriteIndex: int)

  lemma MulMonotone(a: int, b: int, d: int)
    requires a <= b && d > 0
    ensures a * d <= b * d
  {
    assert b * d - a * d == (b - a) * d;
  }

  lemma DivIs(n: int, d: int, q: int)
    requires d > 0 && q * d <= n < (q + 1) * d
    ensures n / d == q
  {
    var k := n / d;
    assert k * d <= n < k * d + d;
    if k > q {
      MulMonotone(q + 1, k, d);
    } else if k < q {
      MulMonotone(k + 1, q, d);
    }
  }

  /** The pixels one `updateInterpolation` frame moves an axis that is `d` short of its target. */
  function Step(d: int): int {
    (d * SPEED_NUM + SPEED_DEN / 2) / SPEED_DEN
  }

  /** A frame never overshoots, and moves at least one pixel once the gap is four or more. */
  lemma StepBounds(d: int)
    ensures d >= 0 ==> 0 <= Step(d) <= d
    ensures d <= 0 ==> d <= Step(d) <= 0
    ensures d >= 4 ==> Step(d) >= 1
    ensures d <= -4 ==> Step(d) <= -1
    ensures -3 <= d <= 3 ==> Step(d) == 0
  {
    var n := d * SPEED_NUM + SPEED_DEN / 2;
    var q := Step(d);
    assert q * SPEED_DEN <= n < (q + 1) * SPEED_DEN;
    if -3 <= d <= 3 {
      DivIs(n, SPEED_DEN, 0);
    }
  }

  /**
    Where the float constant is replaced by the exact 0.15, the frame moves by
    floor((3d + 10) / 20); the two agree except on negative gaps that are 10 modulo 20.
  */
  lemma StepMatchesExactFraction(d: int)
    requires -1000000 <= d <= 1000000
    requires d >= 0 || d % 20 != 10
    ensures Step(d) == (3 * d + 10) / 20
  {
    var q := (3 * d + 10) / 20;
    var r := (3 * d + 10) % 20;
    var n := d * SPEED_NUM + SPEED_DEN / 2;
    assert 20 * n == SPEED_DEN * (20 * q + r) + 8 * d;
    assert r == 0 ==> d >= 0;
    DivIs(n, SPEED_DEN, q);
  }

  /** A ten-pixel gap upward or leftward: the float constant moves two pixels, exact 0.15 would move one. */
  lemma StepDiffersFromExactFraction()
    ensures Step(-10) == -2 && (3 * -10 + 10) / 20 == -1
  {
    DivIs(-10 * SPEED_NUM + SPEED_DEN / 2, SPEED_DEN, -2);
  }

  /**
    `PlayerState.updateInterpolation`: nothing when at the target; the target itself when
    both gaps are at most one pixel; otherwise one smoothing frame on each axis.
  */
  function Interpolate(pos: Point, target: Point): (r: Point)
    ensures Between(pos.x, r.x, target.x) && Between(pos.y, r.y, target.y)
    ensures Abs(target.x - pos.x) <= 1 && Abs(target.y - pos.y) <= 1 ==> r == target
  {
    if pos == target then pos
    else
      var dx := target.x - pos.x;
      var dy := target.y - pos.y;
      if Abs(dx) <= 1 && Abs(dy) <= 1 then target
      else
        StepBounds(dx);
        StepBounds(dy);
        Point(pos.x + Step(dx), pos.y + Step(dy))
  }

  /**
    The smoothing stalls short of the target exactly when both gaps are at most three
    pixels and one of them is two or three.
  */
  lemma InterpolateStallsIff(pos: Point, target: Point)
    ensures (Interpolate(pos, target) == pos && pos != target) <==>
            (Abs(target.x - pos.x) <= 3 && Abs(target.y - pos.y) <= 3 &&
             (Abs(target.x - pos.x) >= 2 || Abs(target.y - pos.y) >= 2))
  {
    StepBounds(target.x - pos.x);
    StepBounds(target.y - pos.y);
  }

  /** The half-step of `setTargetPosition`: `(int)(d * 0.5f)`. */
  function HalfStep(d: int): int {
    TruncDiv(d, 2)
  }

  /**
    `PlayerState.setTargetPosition`: the target and direction are always stored; only a
    change of direction pulls the position half-way (rounded toward the old position).
  */
  function SetTarget(v: PlayerView, target: Point, newDirection: string): (r: PlayerView)
    ensures r.id == v.id && r.spriteIndex == v.spriteIndex
    ensures r.target == target && r.direction == newDirection
    ensures v.direction == newDirection ==> r.position == v.position
    ensures v.direction != newDirection ==>
              && Between(v.position.x, r.position.x, target.x)
              && Between(v.position.y, r.position.y, target.y)
              && Abs(target.x - r.position.x) == (Abs(target.x - v.position.x) + 1) / 2
              && Abs(target.y - r.position.y) == (Abs(target.y - v.position.y) + 1) / 2
  {
    var p := v.position;
    var pos := if v.direction != newDirection
               then Point(p.x + HalfStep(target.x - p.x), p.y + HalfStep(target.y - p.y))
               else p;
    v.(position := pos, target := target, direction := newDirection)
  }

  /** The visual state of one player on the client. */
  class PlayerState {
    const id: int
    var position: Point
    var targetPosition: Point
    var direction: string
    var spriteIndex: int

    ghost function View(): PlayerView
      reads this
    {
      PlayerView(id, position, targetPosition, direction, spriteIndex)
    }

    /** A player appears at rest on its own position, facing down, on the first frame. */
    constructor (id: int, x: int, y: int)
      ensures View() == PlayerView(id, Point(x, y), Point(x, y), "down", 0)
    {
      this.id := id;
      position := Point(x, y);
      targetPosition := Point(x, y);
      direction := "down";
      spriteIndex := 0;
    }

    method SetTargetPosition(target: Point, newDirection: string)
      modifies this
      ensures View() == SetTarget(old(View()), target, newDirection)
    {
      if direction != newDirection {
        position := Point(position.x + HalfStep(target.x - position.x),
                          position.y + HalfStep(target.y - position.y));
      }
      targetPosition := target;
      direction := newDirection;
    }

    method UpdateInterpolation()
      modifies this
      ensures View() == old(View()).(position := Interpolate(old(position), targetPosition))
    {
      if position != targetPosition {
        var dx := targetPosition.x - position.x;
        var dy := targetPosition.y - position.y;
        position := Point(position.x + Step(dx), position.y + Step(dy));
        if Abs(dx) <= 1 && Abs(dy) <= 1 {
          position := targetPosition;
        }
      }
    }

    method SetPosition(p: Point)
      modifies this
      ensures View() == old(View()).(position := p)
    {
      position := p;
    }

    method SetDirection(d: string)
      modifies this
      ensures View() == old(View()).(direction := d)
    {
      direction := d;
    }

    method SetSpriteIndex(i: int)
      modifies this
      ensures View() == old(View()).(spriteIndex := i)
    {
      spriteIndex := i;
    }
  }
}
