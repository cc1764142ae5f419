/**
  The server: one `ClientConnection` per player, moving its player tile by tile.

  A connection reads one line per key event: a key token (`W`, `A`, `S`, `D`) or an
  empty line for "no key". A 16 ms timer calls `updateMovement` on every connection;
  a move runs in steps of 2 pixels, 16 steps to a 32-pixel tile. Changing direction
  mid-move first completes the tile, then pauses 200 ms. `handleMovement` is the only
  place where a move is checked: the first 2-pixel step must stay inside the map and
  clear every collider (padded by 2 pixels) with the player's 12x14 foot box.

  The clock is a parameter (`now`, milliseconds); each input line and each timer tick
  runs as one atomic step.
*/
module Server {
  import opened Wrappers
  import opened Geometry
  import opened JavaText
  import opened GameCore
  import NPCModel
  import EntityModel
  import Snapshot

  const MAP_WIDTH: int := 40 * 32
  const MAP_HEIGHT: int := 30 * 32
  const PIXELS_PER_SQM: int := 32
  const DIRECTION_CHANGE_PAUSE_DURATION: int := 200
  const INPUT_BUFFER_DURATION: int := 300
  const MOVE_DELAY: int := 16
  const FIRST_PLAYER_ID: int := 1

  datatype MovementState = IDLE | COMPLETING_SQM | PAUSED | MOVING

  predicate IsKeyToken(s: string) {
    s in {"W", "A", "S", "D"}
  }

  // ---------------------------------------------------------------------------
  // collision

  /** The player's foot box at a position. */
  function FootBox(pos: Point): Rect {
    Rect(pos.x + 10, pos.y + 32, 12, 14)
  }

  /** A collider grown by 2 pixels on every side. */
  function Padded(c: Rect): Rect {
    Rect(c.x - 2, c.y - 2, c.width + 4, c.height + 4)
  }

  predicate HitsCollider(pos: Point, c: Rect) {
    Intersects(FootBox(pos), Padded(c))
  }

  /** `checkCollision`: the foot box overlaps some padded collider. */
  predicate Collides(pos: Point, colliders: seq<Rect>) {
    exists i :: 0 <= i < |colliders| && HitsCollider(pos, colliders[i])
  }

  /** Adding colliders never frees a position; with no colliders nothing collides. */
  lemma CollidesMonotone(pos: Point, a: seq<Rect>, b: seq<Rect>)
    ensures Collides(pos, a) ==> Collides(pos, a + b)
    ensures Collides(pos, a + b) <==> Collides(pos, a) || Collides(pos, b)
    ensures !Collides(pos, [])
  {
    if Collides(pos, a + b) && !Collides(pos, a) {
      var i :| 0 <= i < |a + b| && HitsCollider(pos, (a + b)[i]);
      assert (a + b)[i] == b[i - |a|];
    }
    if Collides(pos, b) {
      var i :| 0 <= i < |b| && HitsCollider(pos, b[i]);
      assert (a + b)[i + |a|] == b[i];
    }
    if Collides(pos, a) {
      var i :| 0 <= i < |a| && HitsCollider(pos, a[i]);
      assert (a + b)[i] == a[i];
    }
  }

  /** A collider hits the player exactly when it reaches into the foot box grown by 2 pixels. */
  lemma HitsColliderIff(pos: Point, c: Rect)
    requires c.width >= 0 && c.height >= 0
    ensures HitsCollider(pos, c) <==>
              && c.x < pos.x + 24 && pos.x + 8 < c.x + c.width
              && c.y < pos.y + 48 && pos.y + 30 < c.y + c.height
  {
  }

  method CheckCollision(pos: Point, colliders: seq<Rect>) returns (hit: bool)
    ensures hit <==> Collides(pos, colliders)
  {
    var playerRect := FootBox(pos);
    var i := 0;
    while i < |colliders|
      invariant 0 <= i <= |colliders|
      invariant forall j :: 0 <= j < i ==> !HitsCollider(pos, colliders[j])
    {
      var c := colliders[i];
      var buffered := Rect(c.x - 2, c.y - 2, c.width + 4, c.height + 4);
      if Intersects(playerRect, buffered) {
        return true;
      }
      i := i + 1;
    }
    return false;
  }

  // ---------------------------------------------------------------------------
  // map attributes

  /**
    `parseIntAttribute`: a missing or blank attribute gives the default; otherwise the
    text (untrimmed) as an integer, or the default when it is not one.
  */
  function ParseIntAttribute(value: Option<string>, default: int): (r: int)
    ensures value.None? ==> r == default
    ensures r != default ==> value.Some? && ParseInt(value.value) == Some(r)
    ensures value.Some? && ParseInt(value.value).Some? ==> r == ParseInt(value.value).value
    ensures value.Some? && ParseInt(value.value).None? ==> r == default
  {
    match value
    case None => default
    case Some(v) =>
      if Trim(v) == [] then BlankIsNoInt(v); default
      else match ParseInt(v)
        case Some(n) => n
        case None => default
  }

  /** Every 32-bit value written with `%d` is read back; a blank-padded one falls back to the default. */
  lemma ParseIntAttributeReads(n: int, default: int, v: string)
    requires IsInt32(n)
    ensures ParseIntAttribute(Some(FormatInt(n)), default) == n
    ensures v != [] && (v[0] == ' ' || v[|v| - 1] == ' ') ==> ParseIntAttribute(Some(v), default) == default
  {
    ParseFormatInt(n);
    FormatIntShape(n);
    var s := FormatInt(n);
    TrimOfTrimmed(s);
    if v != [] && (v[0] == ' ' || v[|v| - 1] == ' ') {
      ParseIntRejectsBlankEnds(v);
    }
  }

  /** The collider one `<object>` of the `colisores` group describes. */
  function ColliderOf(x: Option<string>, y: Option<string>, width: Option<string>, height: Option<string>): (r: Rect)
    ensures x.None? && y.None? && width.None? && height.None? ==> r == Rect(0, 0, 32, 32)
  {
    Rect(ParseIntAttribute(x, 0), ParseIntAttribute(y, 0),
         ParseIntAttribute(width, 32), ParseIntAttribute(height, 32))
  }

  // ---------------------------------------------------------------------------
  // one connection as a value

  /** Everything a `ClientConnection` holds about its player's movement. */
  datatype ConnView = ConnView(
    player: PlayerView,
    pixels: int,
    current: Option<string>,
    next: Option<string>,
    active: Option<string>,
    state: MovementState,
    pauseEnd: int,
    lastInput: int)

  /** The offset of one step for a key token; nothing for other text. */
  function Delta(token: string): Point {
    if token == "W" then Point(0, -MOVE_STEP)
    else if token == "A" then Point(-MOVE_STEP, 0)
    else if token == "S" then Point(0, MOVE_STEP)
    else if token == "D" then Point(MOVE_STEP, 0)
    else Point(0, 0)
  }

  function Plus(p: Point, d: Point): Point {
    Point(p.x + d.x, p.y + d.y)
  }

  /** The bounds test of `handleMovement` on the position after one step. */
  predicate CanMove(newPos: Point, token: string) {
    if token == "W" then newPos.y > 0
    else if token == "A" then newPos.x > 0
    else if token == "S" then newPos.y < MAP_HEIGHT - 50
    else if token == "D" then newPos.x < MAP_WIDTH - 50
    else false
  }

  /** `getDirectionString`. */
  function DirectionString(token: string): (r: string)
    ensures r in {"top", "left", "down", "right"}
  {
    if token == "W" then "top"
    else if token == "A" then "left"
    else if token == "S" then "down"
    else if token == "D" then "right"
    else "down"
  }

  datatype Outcome = Outcome(conn: ConnView, moved: bool)

  /** `handleMovement`: start a move in the token's direction if its first step is free. */
  function HandleMove(c: ConnView, token: string, colliders: seq<Rect>): Outcome {
    var newPos := Plus(c.player.position, Delta(token));
    if CanMove(newPos, token) then
      var stopped := c.(state := IDLE, current := None);
      if !Collides(newPos, colliders) then
        Outcome(stopped.(state := MOVING, current := Some(token), pixels := 0,
                         player := c.player.(direction := DirectionString(token))), true)
      else Outcome(stopped, false)
    else Outcome(c, false)
  }

  /**
    A move starts exactly for a key token whose first step stays in the map and clears
    every collider, and then the player faces the token's direction and nothing else
    changes; a blocked step stops the player where it stands; an out-of-map step (or any
    other text) changes nothing. The position itself never changes here.
  */
  lemma HandleMoveOutcome(c: ConnView, token: string, colliders: seq<Rect>)
    ensures var o := HandleMove(c, token, colliders);
            var newPos := Plus(c.player.position, Delta(token));
            && (o.moved <==> IsKeyToken(token) && CanMove(newPos, token) && !Collides(newPos, colliders))
            && o.conn.player.position == c.player.position
            && (o.moved ==> o.conn == c.(state := MOVING, current := Some(token), pixels := 0,
                                         player := c.player.(direction := DirectionString(token))))
            && (!CanMove(newPos, token) ==> o.conn == c)
            && (!o.moved && CanMove(newPos, token) ==> o.conn == c.(state := IDLE, current := None))
  {
  }

  /** One input line (`run`): an empty line only drops the held key. */
  function Received(c: ConnView, input: string, now: int, colliders: seq<Rect>): ConnView {
    if input == [] then c.(active := None)
    else
      var c1 := c.(lastInput := now, active := Some(input));
      if c.state == COMPLETING_SQM || c.state == PAUSED then
        if Some(input) != c.current then c1.(next := Some(input)) else c1
      else if c.state == MOVING && Some(input) != c.current then
        c1.(state := COMPLETING_SQM, next := Some(input))
      else HandleMove(c1, input, colliders).conn
  }

  /** `moveInDirection`: one step in the current direction. */
  function MoveIn(c: ConnView): ConnView {
    match c.current
    case Some(d) => c.(player := c.player.(position := Plus(c.player.position, Delta(d))))
    case None => c
  }

  /** One timer tick (`updateMovement`); `moved` is its return value. */
  function Tick(c: ConnView, now: int, colliders: seq<Rect>): Outcome {
    match c.state
    case COMPLETING_SQM =>
      if c.pixels >= PIXELS_PER_SQM then
        Outcome(c.(state := PAUSED, pauseEnd := now + DIRECTION_CHANGE_PAUSE_DURATION, pixels := 0), true)
      else Outcome(MoveIn(c).(pixels := c.pixels + MOVE_STEP), true)
    case PAUSED =>
      if now >= c.pauseEnd then
        var c1 := c.(current := None, state := IDLE);
        if c.next.Some? && now - c.lastInput < INPUT_BUFFER_DURATION then
          Outcome(HandleMove(c1, c.next.value, colliders).conn.(next := None), true)
        else Outcome(c1, true)
      else Outcome(c, true)
    case MOVING =>
      var c1 := if c.pixels >= PIXELS_PER_SQM then c.(pixels := 0) else c;
      if c.pixels >= PIXELS_PER_SQM && c.active.None? && now - c.lastInput >= INPUT_BUFFER_DURATION then
        Outcome(c1.(state := IDLE, current := None), true)
      else Outcome(MoveIn(c1).(pixels := c1.pixels + MOVE_STEP), true)
    case IDLE =>
      if c.active.Some? || (c.next.Some? && now - c.lastInput < INPUT_BUFFER_DURATION) then
        Outcome(HandleMove(c, if c.active.Some? then c.active.value else c.next.value, colliders).conn, false)
      else Outcome(c, false)
  }

  /** `isMoving`: what the broadcast reports. */
  predicate IsMoving(c: ConnView) {
    c.state == MOVING || c.state == COMPLETING_SQM
  }

  /**
    What every connection keeps: a moving, completing or pausing player has a key token
    as its direction, an idle one has none, and the pixel counter is an even number of
    pixels into the tile.
  */
  predicate Inv(c: ConnView) {
    && (c.state != IDLE <==> c.current.Some?)
    && (c.current.Some? ==> IsKeyToken(c.current.value))
    && 0 <= c.pixels <= PIXELS_PER_SQM && c.pixels % 2 == 0
  }

  lemma HandleMoveKeepsInv(c: ConnView, token: string, colliders: seq<Rect>)
    requires Inv(c)
    ensures Inv(HandleMove(c, token, colliders).conn)
  {
  }

  lemma ReceiveKeepsInv(c: ConnView, input: string, now: int, colliders: seq<Rect>)
    requires Inv(c)
    ensures Inv(Received(c, input, now, colliders))
  {
    if input != [] {
      HandleMoveKeepsInv(c.(lastInput := now, active := Some(input)), input, colliders);
    }
  }

  lemma TickKeepsInv(c: ConnView, now: int, colliders: seq<Rect>)
    requires Inv(c)
    ensures Inv(Tick(c, now, colliders).conn)
  {
    if c.state == PAUSED && now >= c.pauseEnd && c.next.Some? {
      HandleMoveKeepsInv(c.(current := None, state := IDLE), c.next.value, colliders);
    } else if c.state == IDLE && (c.active.Some? || c.next.Some?) {
      HandleMoveKeepsInv(c, if c.active.Some? then c.active.value else c.next.value, colliders);
    }
  }

  /**
    Only an idle tick reports "nothing moved"; every other tick reports a change, even a
    pause that is still running. A tick only moves a player that was moving or
    completing a tile, and then by one step in its direction.
  */
  lemma TickOutcome(c: ConnView, now: int, colliders: seq<Rect>)
    requires Inv(c)
    ensures var o := Tick(c, now, colliders);
            && (o.moved <==> c.state != IDLE)
            && (o.conn.player.position != c.player.position ==>
                  && IsMoving(c) && c.current.Some?
                  && o.conn.player.position == Plus(c.player.position, Delta(c.current.value)))
  {
    if c.state == PAUSED && now >= c.pauseEnd && c.next.Some? && now - c.lastInput < INPUT_BUFFER_DURATION {
      HandleMoveOutcome(c.(current := None, state := IDLE), c.next.value, colliders);
    } else if c.state == IDLE && (c.active.Some? || c.next.Some?) {
      HandleMoveOutcome(c, if c.active.Some? then c.active.value else c.next.value, colliders);
    }
  }

  /** A moving player stops only on a tile boundary, with no key held for 300 ms. */
  lemma MovingStopsOnTileBoundary(c: ConnView, now: int, colliders: seq<Rect>)
    requires Inv(c) && c.state == MOVING
    ensures Tick(c, now, colliders).conn.state == IDLE <==>
              c.pixels == PIXELS_PER_SQM && c.active.None? && now - c.lastInput >= INPUT_BUFFER_DURATION
  {
  }

  /** `n` ticks at the given times. */
  function Ticks(c: ConnView, times: seq<int>, colliders: seq<Rect>): ConnView
    decreases |times|
  {
    if times == [] then c else Ticks(Tick(c, times[0], colliders).conn, times[1..], colliders)
  }

  function Scale(d: Point, k: int): Point {
    Point(d.x * k, d.y * k)
  }

  /**
    A moving player covers one step per tick whatever the times: from `p` pixels into
    the tile, `k` more ticks (up to the tile's end) move it `k` steps on.
  */
  lemma {:induction false} MovingCoversSteps(c: ConnView, times: seq<int>, colliders: seq<Rect>)
    requires Inv(c) && c.state == MOVING
    requires c.pixels + MOVE_STEP * |times| <= PIXELS_PER_SQM
    ensures var r := Ticks(c, times, colliders);
            && r.state == MOVING && r.current == c.current
            && r.pixels == c.pixels + MOVE_STEP * |times|
            && r.player.position == Plus(c.player.position, Scale(Delta(c.current.value), |times|))
    decreases |times|
  {
    var d := Delta(c.current.value);
    var n := |times|;
    if times != [] {
      var c1 := Tick(c, times[0], colliders).conn;
      assert c1 == MoveIn(c).(pixels := c.pixels + MOVE_STEP);
      MovingCoversSteps(c1, times[1..], colliders);
      assert d.x * n == d.x + d.x * (n - 1) && d.y * n == d.y + d.y * (n - 1);
    } else {
      assert d.x * n == 0 && d.y * n == 0;
    }
  }

  /** A whole tile is sixteen ticks of two pixels. */
  lemma TileIsSixteenTicks(c: ConnView, times: seq<int>, colliders: seq<Rect>)
    requires Inv(c) && c.state == MOVING && c.pixels == 0 && |times| == 16
    ensures var r := Ticks(c, times, colliders);
            && r.pixels == PIXELS_PER_SQM
            && r.player.position == Plus(c.player.position, Scale(Delta(c.current.value), 16))
            && Abs(r.player.position.x - c.player.position.x) + Abs(r.player.position.y - c.player.position.y) == PIXELS_PER_SQM
  {
    MovingCoversSteps(c, times, colliders);
  }

  /** A new connection's state for a spawn point. */
  function NewConn(id: int, x: int, y: int): ConnView {
    ConnView(PlayerView(id, Point(x, y), Point(x, y), "down", 0), 0, None, None, None, IDLE, 0, 0)
  }

  /**
    Only the first step of a tile is checked: a player 4 pixels below the top edge who
    presses W passes the check and, sixteen ticks later, stands 28 pixels above the map.
  */
  lemma TopEdgeIsCrossed(times: seq<int>)
    requires |times| == 16
    ensures var c := Received(NewConn(1, 100, 4), "W", 0, []);
            && c.state == MOVING
            && Ticks(c, times, []).player.position == Point(100, -28)
  {
    var c := Received(NewConn(1, 100, 4), "W", 0, []);
    CollidesMonotone(Point(100, 2), [], []);
    assert c.state == MOVING && c.pixels == 0 && c.current == Some("W");
    MovingCoversSteps(c, times, []);
  }

  /**
    Pressing the key of the current move again goes through `handleMovement`. When the
    next step is free it restarts the pixel count of the tile mid-way, so the player runs
    32 more pixels and ends off the tile grid. When a collider blocks it the player stops
    mid-tile with the count kept, and when it leaves the map nothing but the input time
    and the held key changes.
  */
  lemma SameKeyWhileMoving(c: ConnView, now: int, colliders: seq<Rect>)
    requires Inv(c) && c.state == MOVING && c.current.Some?
    ensures var d := c.current.value;
            var newPos := Plus(c.player.position, Delta(d));
            var r := Received(c, d, now, colliders);
            && r.player.position == c.player.position
            && r.lastInput == now && r.active == Some(d) && r.next == c.next
            && (CanMove(newPos, d) && !Collides(newPos, colliders) ==>
                  r.state == MOVING && r.current == Some(d) && r.pixels == 0)
            && (CanMove(newPos, d) && Collides(newPos, colliders) ==>
                  r.state == IDLE && r.current.None? && r.pixels == c.pixels)
            && (!CanMove(newPos, d) ==> r == c.(lastInput := now, active := Some(d)))
  {
    var d := c.current.value;
    HandleMoveOutcome(c.(lastInput := now, active := Some(d)), d, colliders);
  }

  /** Keys pressed while completing a tile or pausing are only remembered. */
  lemma InputWhileBusyIsBuffered(c: ConnView, input: string, now: int, colliders: seq<Rect>)
    requires c.state == COMPLETING_SQM || c.state == PAUSED
    requires input != []
    ensures var r := Received(c, input, now, colliders);
            && r.state == c.state && r.player == c.player && r.pixels == c.pixels
            && r.active == Some(input) && r.lastInput == now
            && r.next == (if Some(input) != c.current then Some(input) else c.next)
  {
  }

  /** A pause that has not run out changes nothing. */
  lemma PauseHolds(c: ConnView, now: int, colliders: seq<Rect>)
    requires c.state == PAUSED && now < c.pauseEnd
    ensures Tick(c, now, colliders) == Outcome(c, true)
  {
  }

  /** An empty line only lets go of the held key. */
  lemma EmptyLineReleases(c: ConnView, now: int, colliders: seq<Rect>)
    ensures var r := Received(c, [], now, colliders);
            r.active.None? && r.(active := c.active) == c
  {
  }

  /**
    A different key while moving does not turn the player: the tile is finished first,
    with the new key kept for later, and the position and pixel count are untouched.
  */
  lemma TurnWhileMovingCompletes(c: ConnView, input: string, now: int, colliders: seq<Rect>)
    requires c.state == MOVING && input != [] && Some(input) != c.current
    ensures var r := Received(c, input, now, colliders);
            && r.state == COMPLETING_SQM && r.next == Some(input) && r.current == c.current
            && r.player == c.player && r.pixels == c.pixels
            && r.active == Some(input) && r.lastInput == now
  {
  }

  /**
    Completing a tile: below 32 pixels a tick takes one more step in the old direction;
    at 32 the player stops and pauses for 200 ms from this tick, the counter back at 0.
  */
  lemma CompletingTick(c: ConnView, now: int, colliders: seq<Rect>)
    requires Inv(c) && c.state == COMPLETING_SQM
    ensures var r := Tick(c, now, colliders).conn;
            && r.current == c.current && r.next == c.next && r.active == c.active
            && (c.pixels < PIXELS_PER_SQM ==>
                  && r.state == COMPLETING_SQM && r.pixels == c.pixels + MOVE_STEP
                  && r.player.position == Plus(c.player.position, Delta(c.current.value)))
            && (c.pixels >= PIXELS_PER_SQM ==>
                  && r.state == PAUSED && r.pixels == 0
                  && r.pauseEnd == now + DIRECTION_CHANGE_PAUSE_DURATION
                  && r.player == c.player)
  {
  }

  /**
    The end of a pause: the player goes idle, and at once retries the remembered key
    exactly when there is one pressed less than 300 ms ago. The retry is an ordinary
    `handleMovement`: it starts a move only when the first step is free, and the
    remembered key is forgotten either way.
  */
  lemma PauseEnds(c: ConnView, now: int, colliders: seq<Rect>)
    requires Inv(c) && c.state == PAUSED && now >= c.pauseEnd
    ensures var r := Tick(c, now, colliders).conn;
            var retry := c.next.Some? && now - c.lastInput < INPUT_BUFFER_DURATION;
            && r.player.position == c.player.position
            && (!retry ==> r.state == IDLE && r.current.None? && r.next == c.next)
            && (retry ==>
                  var newPos := Plus(c.player.position, Delta(c.next.value));
                  var starts := IsKeyToken(c.next.value) && CanMove(newPos, c.next.value) &&
                                !Collides(newPos, colliders);
                  && r.next.None?
                  && (starts ==> r.state == MOVING && r.current == c.next && r.pixels == 0)
                  && (!starts ==> r.state == IDLE && r.current.None?))
  {
    if c.next.Some? && now - c.lastInput < INPUT_BUFFER_DURATION {
      HandleMoveOutcome(c.(current := None, state := IDLE), c.next.value, colliders);
    }
  }

  lemma {:induction false} TicksAppend(c: ConnView, a: seq<int>, b: seq<int>, colliders: seq<Rect>)
    ensures Ticks(c, a + b, colliders) == Ticks(Ticks(c, a, colliders), b, colliders)
    decreases |a|
  {
    if a != [] {
      assert (a + b)[0] == a[0] && (a + b)[1..] == a[1..] + b;
      TicksAppend(Tick(c, a[0], colliders).conn, a[1..], b, colliders);
    } else {
      assert a + b == b;
    }
  }

  /** A player completing a tile covers one step per tick in its old direction. */
  lemma {:induction false} CompletingCoversSteps(c: ConnView, times: seq<int>, colliders: seq<Rect>)
    requires Inv(c) && c.state == COMPLETING_SQM
    requires c.pixels + MOVE_STEP * |times| <= PIXELS_PER_SQM
    ensures var r := Ticks(c, times, colliders);
            && r.state == COMPLETING_SQM && r.current == c.current && r.next == c.next
            && r.pixels == c.pixels + MOVE_STEP * |times|
            && r.player.position == Plus(c.player.position, Scale(Delta(c.current.value), |times|))
    decreases |times|
  {
    var d := Delta(c.current.value);
    var n := |times|;
    if times != [] {
      var c1 := Tick(c, times[0], colliders).conn;
      assert c1 == MoveIn(c).(pixels := c.pixels + MOVE_STEP);
      CompletingCoversSteps(c1, times[1..], colliders);
      assert d.x * n == d.x + d.x * (n - 1) && d.y * n == d.y + d.y * (n - 1);
    } else {
      assert d.x * n == 0 && d.y * n == 0;
    }
  }

  /** Ticks that all come before the end of a pause change nothing. */
  lemma {:induction false} PauseHoldsThrough(c: ConnView, times: seq<int>, colliders: seq<Rect>)
    requires c.state == PAUSED
    requires forall i | 0 <= i < |times| :: times[i] < c.pauseEnd
    ensures Ticks(c, times, colliders) == c
    decreases |times|
  {
    if times != [] {
      assert Tick(c, times[0], colliders).conn == c;
      PauseHoldsThrough(c, times[1..], colliders);
    }
  }

  /** A tile being completed from `p` pixels ends in a pause after `(32 - p) / 2 + 1` ticks. */
  lemma CompletingEndsInPause(c: ConnView, times: seq<int>, colliders: seq<Rect>)
    requires Inv(c) && c.state == COMPLETING_SQM
    requires |times| == (PIXELS_PER_SQM - c.pixels) / MOVE_STEP + 1
    ensures var r := Ticks(c, times, colliders);
            && r.state == PAUSED && r.current == c.current && r.next == c.next && r.pixels == 0
            && r.pauseEnd == times[|times| - 1] + DIRECTION_CHANGE_PAUSE_DURATION
            && r.player.position ==
                 Plus(c.player.position, Scale(Delta(c.current.value), (PIXELS_PER_SQM - c.pixels) / MOVE_STEP))
  {
    var n := |times| - 1;
    assert c.pixels + MOVE_STEP * n == PIXELS_PER_SQM;
    var steps := times[..n];
    CompletingCoversSteps(c, steps, colliders);
    var c1 := Ticks(c, steps, colliders);
    CompletingTick(c1, times[n], colliders);
    assert times == steps + [times[n]];
    TicksAppend(c, steps, [times[n]], colliders);
    assert Ticks(c, times, colliders) == Tick(c1, times[n], colliders).conn;
  }

  /**
    The cost of a change of direction. A different key while moving makes the player
    finish the tile in the old direction, one step per tick, and then pause: until
    200 ms after the tick that ends the tile no tick moves it or starts the new move.
  */
  lemma TurnCommitsTile(c: ConnView, input: string, now: int, times: seq<int>, later: seq<int>,
                        colliders: seq<Rect>)
    requires Inv(c) && c.state == MOVING && input != [] && Some(input) != c.current
    requires |times| == (PIXELS_PER_SQM - c.pixels) / MOVE_STEP + 1
    requires forall i | 0 <= i < |later| :: later[i] < times[|times| - 1] + DIRECTION_CHANGE_PAUSE_DURATION
    ensures var r := Ticks(Received(c, input, now, colliders), times, colliders);
            && r.state == PAUSED && r.current == c.current && r.next == Some(input) && r.pixels == 0
            && r.pauseEnd == times[|times| - 1] + DIRECTION_CHANGE_PAUSE_DURATION
            && r.player.position ==
                 Plus(c.player.position, Scale(Delta(c.current.value), (PIXELS_PER_SQM - c.pixels) / MOVE_STEP))
            && Ticks(r, later, colliders) == r
  {
    var c0 := Received(c, input, now, colliders);
    TurnWhileMovingCompletes(c, input, now, colliders);
    ReceiveKeepsInv(c, input, now, colliders);
    CompletingEndsInPause(c0, times, colliders);
    PauseHoldsThrough(Ticks(c0, times, colliders), later, colliders);
  }

  // ---------------------------------------------------------------------------
  // the connection object

  /** Where a new player may spawn: `Random.nextInt(mapWidth - 50)` and the like. */
  predicate SpawnPoint(x: int, y: int) {
    0 <= x < MAP_WIDTH - 50 && 0 <= y < MAP_HEIGHT - 50
  }

  class ClientConnection {
    const playerState: PlayerState
    const colliders: seq<Rect>
    var pixelsMovedInCurrentSQM: int
    var currentDirection: Option<string>
    var nextDirection: Option<string>
    var activeInput: Option<string>
    var movementState: MovementState
    var pauseEndTime: int
    var lastInputTime: int

    ghost function View(): ConnView
      reads this, playerState
    {
      ConnView(playerState.View(), pixelsMovedInCurrentSQM, currentDirection, nextDirection,
               activeInput, movementState, pauseEndTime, lastInputTime)
    }

    ghost predicate Valid()
      reads this, playerState
    {
      Inv(View())
    }

    /** A new player stands idle on its spawn point. */
    constructor (playerId: int, spawnX: int, spawnY: int, colliders: seq<Rect>)
      requires SpawnPoint(spawnX, spawnY)
      ensures Valid() && fresh(playerState)
      ensures View() == NewConn(playerId, spawnX, spawnY) && this.colliders == colliders
    {
      playerState := new PlayerState(playerId, spawnX, spawnY);
      this.colliders := colliders;
      pixelsMovedInCurrentSQM := 0;
      currentDirection := None;
      nextDirection := None;
      activeInput := None;
      movementState := IDLE;
      pauseEndTime := 0;
      lastInputTime := 0;
    }

    function GetPlayerId(): int
      reads playerState
    {
      playerState.id
    }

    function IsMovingNow(): (r: bool)
      reads this
      ensures r <==> movementState == MOVING || movementState == COMPLETING_SQM
    {
      movementState == MOVING || movementState == COMPLETING_SQM
    }

    /** The body of the reading loop in `run`, for one line. */
    method Receive(input: string, now: int)
      requires Valid()
      modifies this, playerState
      ensures Valid()
      ensures View() == Received(old(View()), input, now, colliders)
    {
      ReceiveKeepsInv(View(), input, now, colliders);
      if input == [] {
        activeInput := None;
        return;
      }
      lastInputTime := now;
      activeInput := Some(input);
      if movementState == COMPLETING_SQM || movementState == PAUSED {
        if Some(input) != currentDirection {
          nextDirection := Some(input);
        }
        return;
      }
      if movementState == MOVING && Some(input) != currentDirection {
        movementState := COMPLETING_SQM;
        nextDirection := Some(input);
        return;
      }
      var _ := HandleMovement(input);
    }

    method UpdateMovement(now: int) returns (moved: bool)
      requires Valid()
      modifies this, playerState
      ensures Valid()
      ensures Outcome(View(), moved) == Tick(old(View()), now, colliders)
    {
      TickKeepsInv(View(), now, colliders);
      match movementState
      case COMPLETING_SQM =>
        if pixelsMovedInCurrentSQM >= PIXELS_PER_SQM {
          movementState := PAUSED;
          pauseEndTime := now + DIRECTION_CHANGE_PAUSE_DURATION;
          pixelsMovedInCurrentSQM := 0;
          return true;
        }
        MoveInDirection();
        pixelsMovedInCurrentSQM := pixelsMovedInCurrentSQM + MOVE_STEP;
        return true;
      case PAUSED =>
        if now >= pauseEndTime {
          currentDirection := None;
          movementState := IDLE;
          if nextDirection.Some? && now - lastInputTime < INPUT_BUFFER_DURATION {
            var _ := HandleMovement(nextDirection.value);
            nextDirection := None;
          }
        }
        return true;
      case MOVING =>
        if pixelsMovedInCurrentSQM >= PIXELS_PER_SQM {
          pixelsMovedInCurrentSQM := 0;
          if activeInput.None? && now - lastInputTime >= INPUT_BUFFER_DURATION {
            movementState := IDLE;
            currentDirection := None;
            return true;
          }
        }
        MoveInDirection();
        pixelsMovedInCurrentSQM := pixelsMovedInCurrentSQM + MOVE_STEP;
        return true;
      case IDLE =>
        if activeInput.Some? || (nextDirection.Some? && now - lastInputTime < INPUT_BUFFER_DURATION) {
          var _ := HandleMovement(if activeInput.Some? then activeInput.value else nextDirection.value);
        }
        return false;
    }

    method MoveInDirection()
      modifies playerState
      ensures View() == MoveIn(old(View()))
    {
      match currentDirection
      case Some(d) =>
        var pos := playerState.position;
        playerState.SetPosition(Plus(pos, Delta(d)));
      case None =>
    }

    method HandleMovement(token: string) returns (moved: bool)
      modifies this, playerState
      ensures Outcome(View(), moved) == HandleMove(old(View()), token, colliders)
    {
      var pos := playerState.position;
      var newPos := Plus(pos, Delta(token));
      var canMove := CanMove(newPos, token);
      if canMove {
        var collision := CheckCollision(newPos, colliders);
        movementState := IDLE;
        currentDirection := None;
        if !collision {
          movementState := MOVING;
          currentDirection := Some(token);
          pixelsMovedInCurrentSQM := 0;
          playerState.SetDirection(DirectionString(token));
          return true;
        }
      }
      return false;
    }
  }

  // ---------------------------------------------------------------------------
  // the broadcast line

  /** The record `broadcastGameState` writes for a player. */
  function PlayerRecordOf(c: ConnView): (r: Snapshot.Record)
    ensures r.PlayerRecord? && r.id == c.player.id && r.moving == IsMoving(c)
    ensures r.x == c.player.position.x && r.y == c.player.position.y
  {
    Snapshot.PlayerRecord(c.player.id, c.player.position.x, c.player.position.y,
                          c.player.direction, c.player.spriteIndex, IsMoving(c))
  }

  /** The record `broadcastGameState` writes for an NPC; a missing type is written `null`. */
  function NpcRecordOf(n: NPCModel.NpcView): (r: Snapshot.Record)
    ensures r.NpcRecord? && r.id == n.id && (r.moving <==> n.state == EntityModel.MOVING)
    ensures n.npcType.None? ==> r.npcType == "null"
  {
    Snapshot.NpcRecord(n.id, n.position.x, n.position.y, n.direction, n.spriteIndex,
                       n.state == EntityModel.MOVING, Snapshot.TypeText(n.npcType))
  }

  ghost function ClientRecords(cs: seq<ClientConnection>): (rs: seq<Snapshot.Record>)
    reads set c | c in cs, set c | c in cs :: c.playerState
    ensures |rs| == |cs|
  {
    if cs == [] then []
    else ClientRecords(cs[..|cs| - 1]) + [PlayerRecordOf(cs[|cs| - 1].View())]
  }

  ghost function NpcRecords(ns: seq<NPCModel.NPC>): (rs: seq<Snapshot.Record>)
    reads set n | n in ns
    ensures |rs| == |ns|
  {
    if ns == [] then []
    else NpcRecords(ns[..|ns| - 1]) + [NpcRecordOf(ns[|ns| - 1].View())]
  }

  /**
    The line `broadcastGameState` sends: the players in list order, then the NPCs in
    the order the table hands them out.
  */
  method FormatGameState(clients: seq<ClientConnection>, npcs: seq<NPCModel.NPC>) returns (message: string)
    ensures message == Snapshot.Encode(ClientRecords(clients) + NpcRecords(npcs))
  {
    var states := PlayerStates(clients);
    states := AddNpcStates(states, ClientRecords(clients), npcs);
    message := Join(states, ',');
  }

  /** The first loop of `broadcastGameState`: one text per connected player. */
  method PlayerStates(clients: seq<ClientConnection>) returns (states: seq<string>)
    ensures states == Snapshot.Texts(ClientRecords(clients))
  {
    states := [];
    for i := 0 to |clients|
      invariant states == Snapshot.Texts(ClientRecords(clients[..i]))
    {
      var c := clients[i];
      var st := c.playerState;
      var r := Snapshot.PlayerRecord(st.id, st.position.x, st.position.y, st.direction,
                                     st.spriteIndex, c.IsMovingNow());
      assert clients[..i + 1][..i] == clients[..i];
      Snapshot.TextsAppend(ClientRecords(clients[..i]), r);
      states := states + [Snapshot.RecordText(r)];
    }
    assert clients[..|clients|] == clients;
  }

  /** The second loop of `broadcastGameState`: one text per NPC, after the players'. */
  method AddNpcStates(states0: seq<string>, ghost before: seq<Snapshot.Record>, npcs: seq<NPCModel.NPC>)
    returns (states: seq<string>)
    requires states0 == Snapshot.Texts(before)
    ensures states == Snapshot.Texts(before + NpcRecords(npcs))
  {
    states := states0;
    assert before + NpcRecords(npcs[..0]) == before;
    for j := 0 to |npcs|
      invariant states == Snapshot.Texts(before + NpcRecords(npcs[..j]))
    {
      var n := npcs[j];
      var r := Snapshot.NpcRecord(n.id, n.position.x, n.position.y, n.direction, n.spriteIndex,
                                  n.state == EntityModel.MOVING, Snapshot.TypeText(n.npcType));
      assert npcs[..j + 1][..j] == npcs[..j];
      assert before + NpcRecords(npcs[..j + 1]) == (before + NpcRecords(npcs[..j])) + [r];
      Snapshot.TextsAppend(before + NpcRecords(npcs[..j]), r);
      states := states + [Snapshot.RecordText(r)];
    }
    assert npcs[..|npcs|] == npcs;
  }
}
