/**
  `NPC`: an `Entity` with a type label and a behaviour. `update` runs the behaviour
  and then the entity's interpolation. The wander behaviour draws three numbers from
  `Math.random()`; they are parameters here (`roll`, `drawX`, `drawY`, each in [0, 1)).

  `Entity` and `NPC` are one class here: `NPC` is the only subclass of `Entity`.
*/
module NPCModel {
  import opened Wrappers
  import opened Geometry
  import opened EntityModel

  const TILE: int := 32
  /** Wander starts a move on a draw below 0.02. */
  const WANDER_CHANCE: real := 0.02

  datatype NPCBehavior = STATIONARY | WANDER | FOLLOW_PATH

  /** Everything an `NPC` holds. */
  datatype NpcView = NpcView(
    id: int, position: Point, target: Point, direction: string, spriteIndex: int,
    state: EntityState, npcType: Option<string>, isMovable: bool, behavior: NPCBehavior)

  /** The state `new NPC(id, x, y, npcType, behavior)` creates. */
  function NewNpc(id: int, x: int, y: int, npcType: Option<string>, behavior: NPCBehavior): NpcView {
    NpcView(id, Point(x, y), Point(x, y), "down", 0, IDLE, npcType, behavior != STATIONARY, behavior)
  }

  /** `(int)(Math.random() * 3) - 1`: a tile offset of -1, 0 or 1. */
  function Offset(draw: real): (d: int)
    requires 0.0 <= draw < 1.0
    ensures -1 <= d <= 1
  {
    (draw * 3.0).Floor - 1
  }

  predicate ValidDraw(draw: real) {
    0.0 <= draw < 1.0
  }

  /**
    `NPC.calculateDirection`: a facing for a straight (cardinal) offset; the current
    facing for a zero or diagonal offset.
  */
  function CalculateDirection(dx: int, dy: int, current: string): (r: string)
    ensures ((dx == 0) != (dy == 0)) ==> r in {"top", "down", "left", "right"}
    ensures ((dx == 0) == (dy == 0)) ==> r == current
    ensures dy != 0 && dx == 0 ==> (r == "top" <==> dy < 0)
    ensures dx != 0 && dy == 0 ==> (r == "left" <==> dx < 0)
    ensures dx == 0 && dy > 0 ==> r == "down"
    ensures dx > 0 && dy == 0 ==> r == "right"
  {
    if dx == 0 && dy < 0 then "top"
    else if dx == 0 && dy > 0 then "down"
    else if dx < 0 && dy == 0 then "left"
    else if dx > 0 && dy == 0 then "right"
    else current
  }

  /** `NPC.updateWanderBehavior`. */
  function WanderStep(v: NpcView, roll: real, drawX: real, drawY: real): NpcView
    requires ValidDraw(drawX) && ValidDraw(drawY)
  {
    if v.state == IDLE && roll < WANDER_CHANCE then
      var dx := Offset(drawX);
      var dy := Offset(drawY);
      v.(target := Point(v.position.x + dx * TILE, v.position.y + dy * TILE),
         state := MOVING,
         direction := CalculateDirection(dx, dy, v.direction))
    else v
  }

  /** The behaviour step of `NPC.update`: only WANDER does anything. */
  function BehaviorStep(v: NpcView, roll: real, drawX: real, drawY: real): NpcView
    requires ValidDraw(drawX) && ValidDraw(drawY)
  {
    match v.behavior
    case WANDER => WanderStep(v, roll, drawX, drawY)
    case FOLLOW_PATH => v
    case STATIONARY => v
  }

  /** `Entity.updateInterpolation` applied to a whole NPC. */
  function Interpolated(v: NpcView): NpcView {
    var m := EntityInterpolate(Motion(v.position, v.state), v.target);
    v.(position := m.position, state := m.state)
  }

  /** `NPC.update`: the behaviour step, then interpolation. */
  function UpdateSpec(v: NpcView, roll: real, drawX: real, drawY: real): NpcView
    requires ValidDraw(drawX) && ValidDraw(drawY)
  {
    Interpolated(BehaviorStep(v, roll, drawX, drawY))
  }

  /** A target is picked only by a wandering, idle NPC on a winning roll, one tile away or less. */
  lemma NewTargetOnlyByWander(v: NpcView, roll: real, drawX: real, drawY: real)
    requires ValidDraw(drawX) && ValidDraw(drawY)
    ensures var r := UpdateSpec(v, roll, drawX, drawY);
            r.target != v.target ==>
              && v.behavior == WANDER && v.state == IDLE && roll < WANDER_CHANCE
              && Abs(r.target.x - v.position.x) in {0, TILE}
              && Abs(r.target.y - v.position.y) in {0, TILE}
    ensures v.behavior != WANDER ==>
              UpdateSpec(v, roll, drawX, drawY) == Interpolated(v)
  {
  }

  /**
    A fired wander leaves the NPC MOVING and standing on its new target: the offset is
    0 or a whole tile, so the snap back to IDLE (a gap of at most one pixel) never runs.
  */
  lemma WanderFiresAndStaysMoving(v: NpcView, roll: real, drawX: real, drawY: real)
    requires ValidDraw(drawX) && ValidDraw(drawY)
    requires v.behavior == WANDER && v.state == IDLE && roll < WANDER_CHANCE
    ensures var r := UpdateSpec(v, roll, drawX, drawY);
            && r.state == MOVING && r.position == r.target
            && r.target == Point(v.position.x + Offset(drawX) * TILE, v.position.y + Offset(drawY) * TILE)
  {
    var dx := Offset(drawX);
    var dy := Offset(drawY);
    var b := WanderStep(v, roll, drawX, drawY);
    assert b.target.x - b.position.x == dx * TILE && b.target.y - b.position.y == dy * TILE;
  }

  /** One round of the three random draws. */
  datatype Draws = Draws(roll: real, drawX: real, drawY: real)

  predicate ValidDraws(ds: seq<Draws>) {
    forall i :: 0 <= i < |ds| ==> ValidDraw(ds[i].drawX) && ValidDraw(ds[i].drawY)
  }

  /** `update` called once per round of draws, in order. */
  function UpdateMany(v: NpcView, ds: seq<Draws>): NpcView
    requires ValidDraws(ds)
    decreases |ds|
  {
    if ds == [] then v
    else UpdateMany(UpdateSpec(v, ds[0].roll, ds[0].drawX, ds[0].drawY), ds[1..])
  }

  /** Once a wander has fired, no later update changes the NPC at all: it stays MOVING on its target. */
  lemma {:induction false} WanderFiresOnce(v: NpcView, first: Draws, later: seq<Draws>)
    requires ValidDraw(first.drawX) && ValidDraw(first.drawY) && ValidDraws(later)
    requires v.behavior == WANDER && v.state == IDLE && first.roll < WANDER_CHANCE
    ensures var r := UpdateSpec(v, first.roll, first.drawX, first.drawY);
            UpdateMany(r, later) == r && r.state == MOVING
  {
    WanderFiresAndStaysMoving(v, first.roll, first.drawX, first.drawY);
    var r := UpdateSpec(v, first.roll, first.drawX, first.drawY);
    SettledStays(r, later);
  }

  lemma {:induction false} SettledStays(r: NpcView, ds: seq<Draws>)
    requires ValidDraws(ds) && r.state == MOVING && r.position == r.target
    ensures UpdateMany(r, ds) == r
  {
    if ds != [] {
      assert UpdateSpec(r, ds[0].roll, ds[0].drawX, ds[0].drawY) == r;
      SettledStays(r, ds[1..]);
    }
  }

  class NPC {
    const id: int
    var position: Point
    var targetPosition: Point
    var direction: string
    var spriteIndex: int
    var state: EntityState
    const npcType: Option<string>
    const isMovable: bool
    const behavior: NPCBehavior

    ghost function View(): NpcView
      reads this
    {
      NpcView(id, position, targetPosition, direction, spriteIndex, state, npcType, isMovable, behavior)
    }

    /** A new NPC stands idle on its target, facing down; it is movable unless STATIONARY. */
    constructor (id: int, x: int, y: int, npcType: Option<string>, behavior: NPCBehavior)
      ensures View() == NewNpc(id, x, y, npcType, behavior)
      ensures isMovable <==> behavior != STATIONARY
    {
      this.id := id;
      position := Point(x, y);
      targetPosition := Point(x, y);
      direction := "down";
      spriteIndex := 0;
      state := IDLE;
      this.npcType := npcType;
      this.behavior := behavior;
      isMovable := behavior != STATIONARY;
    }

    method Update(roll: real, drawX: real, drawY: real)
      requires ValidDraw(drawX) && ValidDraw(drawY)
      modifies this
      ensures View() == UpdateSpec(old(View()), roll, drawX, drawY)
    {
      if behavior == WANDER {
        UpdateWanderBehavior(roll, drawX, drawY);
      }
      UpdateInterpolation();
    }

    method UpdateWanderBehavior(roll: real, drawX: real, drawY: real)
      requires ValidDraw(drawX) && ValidDraw(drawY)
      modifies this
      ensures View() == WanderStep(old(View()), roll, drawX, drawY)
    {
      if state == IDLE && roll < WANDER_CHANCE {
        var dx := Offset(drawX);
        var dy := Offset(drawY);
        SetTargetPosition(Point(position.x + dx * TILE, position.y + dy * TILE));
        SetDirection(CalculateDirection(dx, dy, direction));
      }
    }

    method UpdateInterpolation()
      modifies this
      ensures View() == Interpolated(old(View()))
    {
      if position != targetPosition {
        var dx := targetPosition.x - position.x;
        var dy := targetPosition.y - position.y;
        position := Point(position.x + dx, position.y + dy);
        if Abs(dx) <= 1 && Abs(dy) <= 1 {
          position := targetPosition;
          state := IDLE;
        }
      }
    }

    method SetPosition(p: Point)
      modifies this
      ensures View() == old(View()).(position := p)
    {
      position := p;
    }

    /** Setting a target also marks the NPC as MOVING. */
    method SetTargetPosition(target: Point)
      modifies this
      ensures View() == old(View()).(target := target, state := MOVING)
    {
      targetPosition := target;
      state := MOVING;
    }

    method SetDirection(d: string)
      modifies this
      ensures View() == old(View()).(direction := d)
    {
      direction := d;
    }

    method SetSpriteIndex(i: int)
      modifies this
      ensures View() == old(View()).(spriteIndex := i)
    {
      spriteIndex := i;
    }
  }
}
