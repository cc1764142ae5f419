/**
  `Camera`: the top-left corner of the viewport in world pixels. `centerOn` aims it at a
  point, clamped to the map; `updateInterpolation` moves the displayed corner a tenth
  of the way per frame and snaps once within a pixel. `(int)(d * 0.1f)` is `d / 10`
  rounded toward zero for map-sized `d`.
*/
module CameraModel {
  import opened Geometry

  /** One axis of `centerOn`: `max(0, min(c - viewport / 2, mapSize - viewport))`. */
  function ClampedTarget(c: int, viewport: int, mapSize: int): (r: int)
    ensures r >= 0
    ensures mapSize >= viewport ==> r <= mapSize - viewport
    ensures 0 <= c - TruncDiv(viewport, 2) <= mapSize - viewport ==> r == c - TruncDiv(viewport, 2)
    ensures mapSize < viewport ==> r == 0
  {
    Max(0, Min(c - TruncDiv(viewport, 2), mapSize - viewport))
  }

  /** One axis of the camera's smoothing: a tenth of the gap, rounded toward zero. */
  function TenthStep(d: int): (s: int)
    ensures d >= 0 ==> 0 <= s <= d
    ensures d <= 0 ==> d <= s <= 0
    ensures Abs(d) >= 10 ==> s != 0
    ensures Abs(d) < 10 ==> s == 0
  {
    TruncDiv(d, 10)
  }

  /** `Camera.updateInterpolation` on the displayed corner `pos`. */
  function CameraStep(pos: Point, target: Point): (r: Point)
    ensures Between(pos.x, r.x, target.x) && Between(pos.y, r.y, target.y)
  {
    if pos == target then pos
    else
      var moved := Point(pos.x + TenthStep(target.x - pos.x), pos.y + TenthStep(target.y - pos.y));
      if Abs(moved.x - target.x) < 2 && Abs(moved.y - target.y) < 2 then target else moved
  }

  /**
    The camera stalls short of its target exactly when both gaps are below ten pixels
    and one of them is two or more: it can stop up to nine pixels away.
  */
  lemma CameraStallsIff(pos: Point, target: Point)
    ensures (CameraStep(pos, target) == pos && pos != target) <==>
            (Abs(target.x - pos.x) < 10 && Abs(target.y - pos.y) < 10 &&
             (Abs(target.x - pos.x) >= 2 || Abs(target.y - pos.y) >= 2))
  {
  }

  /** After a frame, a camera within a pixel of its target on both axes sits on it. */
  lemma CameraSnaps(pos: Point, target: Point)
    ensures var r := CameraStep(pos, target);
            Abs(r.x - target.x) < 2 && Abs(r.y - target.y) < 2 ==> r == target
  {
  }

  /** The two transforms are inverse to each other in both orders. */
  lemma ScreenWorldInverse(c: Camera, p: Point)
    ensures c.ScreenToWorld(c.WorldToScreen(p)) == p
    ensures c.WorldToScreen(c.ScreenToWorld(p)) == p
  {
  }

  class Camera {
    var position: Point
    var targetPosition: Point
    const viewportWidth: int
    const viewportHeight: int
    const mapWidth: int
    const mapHeight: int

    constructor (viewportWidth: int, viewportHeight: int, mapWidth: int, mapHeight: int)
      ensures position == Point(0, 0) && targetPosition == Point(0, 0)
      ensures this.viewportWidth == viewportWidth && this.viewportHeight == viewportHeight
      ensures this.mapWidth == mapWidth && this.mapHeight == mapHeight
    {
      position := Point(0, 0);
      targetPosition := Point(0, 0);
      this.viewportWidth := viewportWidth;
      this.viewportHeight := viewportHeight;
      this.mapWidth := mapWidth;
      this.mapHeight := mapHeight;
    }

    /** Aims the camera at `target`; the displayed position is untouched. */
    method CenterOn(target: Point)
      modifies this
      ensures position == old(position)
      ensures targetPosition == Point(ClampedTarget(target.x, viewportWidth, mapWidth),
                                      ClampedTarget(target.y, viewportHeight, mapHeight))
    {
      var targetX := target.x - TruncDiv(viewportWidth, 2);
      var targetY := target.y - TruncDiv(viewportHeight, 2);
      targetX := Max(0, Min(targetX, mapWidth - viewportWidth));
      targetY := Max(0, Min(targetY, mapHeight - viewportHeight));
      targetPosition := Point(targetX, targetY);
    }

    method UpdateInterpolation()
      modifies this
      ensures targetPosition == old(targetPosition)
      ensures position == CameraStep(old(position), targetPosition)
    {
      if position != targetPosition {
        position := Point(position.x + TruncDiv(targetPosition.x - position.x, 10),
                          position.y + TruncDiv(targetPosition.y - position.y, 10));
        if Abs(position.x - targetPosition.x) < 2 && Abs(position.y - targetPosition.y) < 2 {
          position := targetPosition;
        }
      }
    }

    function ScreenToWorld(screenPos: Point): Point
      reads this
    {
      Point(screenPos.x + position.x, screenPos.y + position.y)
    }

    /** World to screen coordinates; `ScreenToWorld` undoes it. */
    function WorldToScreen(worldPos: Point): (r: Point)
      reads this
      ensures ScreenToWorld(r) == worldPos
    {
      Point(worldPos.x - position.x, worldPos.y - position.y)
    }
  }
}
