/**
  The client: the table of players by id, the NPC table, the camera and the key
  state, and the three things that change them.

  `handleServerMessage` walks a broadcast line (see `Snapshot`) and applies every record
  as it is read: a player record goes through `processPlayerState` into a new table, an
  NPC record updates (or creates) the NPC in place. The new player table replaces the
  old one only when the two differ. A number that does not parse throws out of the
  walk, after the records before it have been applied; the table is then not replaced.

  `handleInput` turns the held keys into the token sent to the server; the frame step
  (`updateInterpolation`) smooths every player and NPC and steers the camera to the
  local player. The clock is a parameter (`now`, milliseconds).
*/
module Client {
  import opened Wrappers
  import opened Geometry
  import opened JavaText
  import opened GameCore
  import EntityModel
  import NPCModel
  import NPCRegistry
  import CameraModel
  import Input
  import Snapshot

  /** A direction change sooner than this after the last accepted one is ignored. */
  const DIRECTION_CHANGE_INTERVAL: int := 200

  function GetOrDefault(m: map<int, int>, k: int, default: int): int {
    if k in m then m[k] else default
  }

  /** Java's `(s + 1) % 2`, with the remainder taking the sign of the dividend. */
  function Toggle(s: int): int {
    var t := s + 1;
    t - 2 * TruncDiv(t, 2)
  }

  /** The result of `processPlayerState`: the player's state and the two time tables. */
  datatype Processed = Processed(view: PlayerView, anim: map<int, int>, dirTime: map<int, int>)

  /** The direction-jitter rule: the direction to keep, and the change-time table after it. */
  datatype Facing = Facing(direction: string, dirTime: map<int, int>)

  function Debounced(v: PlayerView, direction: string, dirTime: map<int, int>, now: int): Facing {
    var since := now - GetOrDefault(dirTime, v.id, now);
    if v.direction != direction then
      if since < DIRECTION_CHANGE_INTERVAL then Facing(v.direction, dirTime)
      else Facing(direction, dirTime[v.id := now])
    else Facing(direction, dirTime)
  }

  /** The animation rule: toggle the frame every 150 ms while moving; frame 0 when still. */
  function Animated(v: PlayerView, moving: bool, anim: map<int, int>, now: int): Processed {
    if moving then
      if now - GetOrDefault(anim, v.id, now) >= ANIMATION_SPEED then
        Processed(v.(spriteIndex := Toggle(v.spriteIndex)), anim[v.id := now], map[])
      else Processed(v, anim, map[])
    else Processed(v.(spriteIndex := 0), anim, map[])
  }

  /**
    `processPlayerState` for a record of player `id`, given the views of the players the
    client already knows.
  */
  function ProcessPlayer(known: map<int, PlayerView>, anim: map<int, int>, dirTime: map<int, int>,
                         id: int, x: int, y: int, moving: bool, now: int, direction: string): Processed
  {
    var newPos := Point(x, y);
    if id !in known then
      Processed(PlayerView(id, newPos, newPos, "down", 0), anim[id := now], dirTime[id := now])
    else
      var v := known[id];
      if FartherThan100(v.position, newPos) then
        var a := Animated(SetTarget(v.(position := newPos), newPos, direction), moving, anim, now);
        Processed(a.view, a.anim, dirTime)
      else
        var f := Debounced(v, direction, dirTime, now);
        var a := Animated(SetTarget(v.(direction := f.direction), newPos, f.direction), moving, anim, now);
        Processed(a.view, a.anim, f.dirTime)
  }

  /** A player the client has not seen appears at rest on the reported point. */
  lemma ProcessNewPlayer(known: map<int, PlayerView>, anim: map<int, int>, dirTime: map<int, int>,
                         id: int, x: int, y: int, moving: bool, now: int, direction: string)
    requires id !in known
    ensures var p := ProcessPlayer(known, anim, dirTime, id, x, y, moving, now, direction);
            && p.view == PlayerView(id, Point(x, y), Point(x, y), "down", 0)
            && p.anim == anim[id := now] && p.dirTime == dirTime[id := now]
  {
  }

  /**
    A known player always gets the reported point as its target. A jump of more than 100
    pixels moves it there at once and takes the reported direction; otherwise the
    position stays and a direction change within 200 ms of the last accepted one is
    ignored, keeping the old change time; a later change is taken and its time recorded.
  */
  lemma ProcessKnownPlayer(known: map<int, PlayerView>, anim: map<int, int>, dirTime: map<int, int>,
                           id: int, x: int, y: int, moving: bool, now: int, direction: string)
    requires id in known && known[id].id == id
    ensures var p := ProcessPlayer(known, anim, dirTime, id, x, y, moving, now, direction);
            var v := known[id];
            var since := now - GetOrDefault(dirTime, id, now);
            && p.view.id == id && p.view.target == Point(x, y)
            && (FartherThan100(v.position, Point(x, y)) ==>
                  p.view.position == Point(x, y) && p.view.direction == direction && p.dirTime == dirTime)
            && (!FartherThan100(v.position, Point(x, y)) ==>
                  && p.view.position == v.position
                  && (v.direction == direction ==> p.view.direction == direction && p.dirTime == dirTime)
                  && (v.direction != direction && since < DIRECTION_CHANGE_INTERVAL ==>
                        p.view.direction == v.direction && p.dirTime == dirTime)
                  && (v.direction != direction && since >= DIRECTION_CHANGE_INTERVAL ==>
                        p.view.direction == direction && p.dirTime == dirTime[id := now]))
  {
  }

  /**
    The animation frame of a known player toggles between 0 and 1 only while it moves and
    at least 150 ms after the last toggle, and drops to 0 when it stands still.
  */
  lemma ProcessAnimation(known: map<int, PlayerView>, anim: map<int, int>, dirTime: map<int, int>,
                         id: int, x: int, y: int, moving: bool, now: int, direction: string)
    requires id in known && known[id].id == id && known[id].spriteIndex in {0, 1}
    ensures var p := ProcessPlayer(known, anim, dirTime, id, x, y, moving, now, direction);
            var s := known[id].spriteIndex;
            var due := now - GetOrDefault(anim, id, now) >= ANIMATION_SPEED;
            && p.view.spriteIndex in {0, 1}
            && (!moving ==> p.view.spriteIndex == 0 && p.anim == anim)
            && (moving && due ==> p.view.spriteIndex == 1 - s && p.anim == anim[id := now])
            && (moving && !due ==> p.view.spriteIndex == s && p.anim == anim)
  {
  }

  // ---------------------------------------------------------------------------
  // applying a decoded line

  /** An NPC record applied to the client's NPC: position, facing, frame and state, not the target. */
  function NpcApplied(v: NPCModel.NpcView, x: int, y: int, direction: string, sprite: int, moving: bool): NPCModel.NpcView {
    v.(position := Point(x, y), direction := direction, spriteIndex := sprite,
       state := if moving then EntityModel.MOVING else EntityModel.IDLE)
  }

  /**
    What the walk works on: the views of the players already known (`known`), the new
    player table being filled (`newPlayers`), the two time tables and the NPC table.
  */
  datatype Tables = Tables(
    known: map<int, PlayerView>,
    newPlayers: map<int, PlayerView>,
    anim: map<int, int>,
    dirTime: map<int, int>,
    npcs: map<int, NPCModel.NpcView>)

  function ApplyRecord(t: Tables, r: Snapshot.Record, now: int): Tables {
    if r.PlayerRecord? then PlayerApplied(t, r, now) else t.(npcs := NpcTableApplied(t.npcs, r))
  }

  /** A player record: the known view (if any) and the new table take the processed view. */
  function PlayerApplied(t: Tables, r: Snapshot.Record, now: int): Tables
    requires r.PlayerRecord?
  {
    var p := ProcessPlayer(t.known, t.anim, t.dirTime, r.id, r.x, r.y, r.moving, now, r.direction);
    Tables(if r.id in t.known then t.known[r.id := p.view] else t.known,
           t.newPlayers[r.id := p.view], p.anim, p.dirTime, t.npcs)
  }

  /** An NPC record: the NPC with that id, or a new wandering one, takes the record's fields. */
  function NpcTableApplied(npcs: map<int, NPCModel.NpcView>, r: Snapshot.Record): map<int, NPCModel.NpcView>
    requires r.NpcRecord?
  {
    var base := if r.id in npcs then npcs[r.id] else NPCModel.NewNpc(r.id, r.x, r.y, Some(r.npcType), NPCModel.WANDER);
    npcs[r.id := NpcApplied(base, r.x, r.y, r.direction, r.sprite, r.moving)]
  }

  function ApplyAll(t: Tables, rs: seq<Snapshot.Record>, now: int): Tables
    decreases |rs|
  {
    if rs == [] then t else ApplyAll(ApplyRecord(t, rs[0], now), rs[1..], now)
  }

  /** The client's state as values. */
  datatype ClientView = ClientView(
    players: map<int, PlayerView>,
    anim: map<int, int>,
    dirTime: map<int, int>,
    npcs: map<int, NPCModel.NpcView>)

  /** `handleServerMessage`; `complete` is false when the walk threw on a bad number. */
  datatype Handled = Handled(client: ClientView, complete: bool)

  function HandleMessage(c: ClientView, message: string, now: int): Handled {
    if StartsWith(message, "Jogador") then Handled(c, true)
    else
      var d := Snapshot.DecodeLine(message);
      var t := ApplyAll(Tables(c.players, map[], c.anim, c.dirTime, c.npcs), d.records, now);
      Handled(ClientView(if d.complete then t.newPlayers else t.known, t.anim, t.dirTime, t.npcs), d.complete)
  }

  /** The ids of the player records. */
  function PlayerIds(rs: seq<Snapshot.Record>): set<int> {
    if rs == [] then {}
    else (if rs[0].PlayerRecord? then {rs[0].id} else {}) + PlayerIds(rs[1..])
  }

  predicate LastPlayerRecord(rs: seq<Snapshot.Record>, j: int)
    requires 0 <= j < |rs|
  {
    rs[j].PlayerRecord? &&
    forall k | j < k < |rs| :: !(rs[k].PlayerRecord? && rs[k].id == rs[j].id)
  }

  lemma {:induction false} ApplyAllFreshKeys(t: Tables, rs: seq<Snapshot.Record>, now: int)
    ensures ApplyAll(t, rs, now).newPlayers.Keys == t.newPlayers.Keys + PlayerIds(rs)
    decreases |rs|
  {
    if rs != [] {
      ApplyAllFreshKeys(ApplyRecord(t, rs[0], now), rs[1..], now);
    }
  }

  lemma {:induction false} ApplyAllKeepsUntouched(t: Tables, rs: seq<Snapshot.Record>, now: int, id: int)
    requires id in t.newPlayers
    requires forall k | 0 <= k < |rs| :: !(rs[k].PlayerRecord? && rs[k].id == id)
    ensures id in ApplyAll(t, rs, now).newPlayers && ApplyAll(t, rs, now).newPlayers[id] == t.newPlayers[id]
    decreases |rs|
  {
    if rs != [] {
      assert !(rs[0].PlayerRecord? && rs[0].id == id);
      ApplyAllKeepsUntouched(ApplyRecord(t, rs[0], now), rs[1..], now, id);
    }
  }

  lemma ProcessTargets(known: map<int, PlayerView>, anim: map<int, int>, dirTime: map<int, int>,
                       id: int, x: int, y: int, moving: bool, now: int, direction: string)
    requires forall k | k in known :: known[k].id == k
    ensures var p := ProcessPlayer(known, anim, dirTime, id, x, y, moving, now, direction);
            p.view.id == id && p.view.target == Point(x, y)
  {
  }

  /** After a walk, each player's target is the point of its last record in the line. */
  lemma {:induction false} ApplyAllTargets(t: Tables, rs: seq<Snapshot.Record>, now: int, j: int)
    requires forall k | k in t.known :: t.known[k].id == k
    requires 0 <= j < |rs| && LastPlayerRecord(rs, j)
    ensures var f := ApplyAll(t, rs, now).newPlayers;
            rs[j].id in f && f[rs[j].id].target == Point(rs[j].x, rs[j].y)
    decreases |rs|
  {
    var t1 := ApplyRecord(t, rs[0], now);
    if rs[0].PlayerRecord? {
      ProcessTargets(t.known, t.anim, t.dirTime, rs[0].id, rs[0].x, rs[0].y, rs[0].moving, now, rs[0].direction);
    }
    assert forall k | k in t1.known :: t1.known[k].id == k;
    if j == 0 {
      forall k | 0 <= k < |rs[1..]|
        ensures !(rs[1..][k].PlayerRecord? && rs[1..][k].id == rs[0].id)
      {
        assert rs[1..][k] == rs[k + 1];
      }
      ApplyAllKeepsUntouched(t1, rs[1..], now, rs[0].id);
    } else {
      assert rs[1..][j - 1] == rs[j];
      forall k | j - 1 < k < |rs[1..]|
        ensures !(rs[1..][k].PlayerRecord? && rs[1..][k].id == rs[j].id)
      {
        assert rs[1..][k] == rs[k + 1];
      }
      ApplyAllTargets(t1, rs[1..], now, j - 1);
    }
  }

  /**
    A line the server wrote (well-formed records) is applied in full, and afterwards the
    client knows exactly the players the line lists. The line of no records is the empty
    text; it empties the player table.
  */
  lemma ServerLineInstallsPlayers(c: ClientView, rs: seq<Snapshot.Record>, now: int)
    requires Snapshot.AllWellFormed(rs) && Snapshot.EndsNonEmpty(rs)
    ensures var h := HandleMessage(c, Snapshot.Encode(rs), now);
            && h.complete
            && h.client.players.Keys == PlayerIds(rs)
            && (rs == [] ==> h.client.players == map[])
  {
    Snapshot.RoundTrip(rs);
    Snapshot.EncodeIsNoGreeting(rs);
    ApplyAllFreshKeys(Tables(c.players, map[], c.anim, c.dirTime, c.npcs), rs, now);
  }

  /** Each player the line lists heads for the point of its last record. */
  lemma ServerLineRebuildsPlayers(c: ClientView, rs: seq<Snapshot.Record>, now: int, j: int)
    requires forall k | k in c.players :: c.players[k].id == k
    requires Snapshot.AllWellFormed(rs) && Snapshot.EndsNonEmpty(rs)
    requires 0 <= j < |rs| && LastPlayerRecord(rs, j)
    ensures var h := HandleMessage(c, Snapshot.Encode(rs), now);
            && h.complete
            && h.client.players.Keys == PlayerIds(rs)
            && rs[j].id in h.client.players
            && h.client.players[rs[j].id].target == Point(rs[j].x, rs[j].y)
  {
    ServerLineInstallsPlayers(c, rs, now);
    Snapshot.RoundTrip(rs);
    Snapshot.EncodeIsNoGreeting(rs);
    ApplyAllTargets(Tables(c.players, map[], c.anim, c.dirTime, c.npcs), rs, now, j);
  }

  /**
    The client sets an NPC's position but not its target, so the next frame's
    interpolation puts the NPC back on its old target: the reported position is lost.
  */
  lemma NpcSnapsBackToStaleTarget(v: NPCModel.NpcView, x: int, y: int, direction: string, sprite: int, moving: bool)
    ensures var n := NpcApplied(v, x, y, direction, sprite, moving);
            && n.target == v.target
            && NPCModel.Interpolated(n).position == v.target
  {
  }

  // ---------------------------------------------------------------------------
  // input

  /**
    The token `handleInput` sends for the held keys (slots W, A, S, D): nothing when
    opposite keys are held or no key is held, otherwise the last held key in slot order.
  */
  function InputToken(keys: seq<bool>): string
    requires |keys| == 4
  {
    if Input.OppositeKeys(keys) then ""
    else if keys[3] then "D"
    else if keys[2] then "S"
    else if keys[1] then "A"
    else if keys[0] then "W"
    else ""
  }

  /**
    The token is empty exactly when opposite keys or no keys are held; otherwise it is
    a key token, it names a held key, and no held key ranks above it (D > S > A > W).
  */
  lemma InputTokenChoice(keys: seq<bool>)
    requires |keys| == 4
    ensures var t := InputToken(keys);
            && (t == "" <==> Input.OppositeKeys(keys) || Input.CountTrue(keys) == 0)
            && (t != "" ==> t in {"W", "A", "S", "D"})
            && (t == "W" ==> keys[0] && !keys[1] && !keys[2] && !keys[3])
            && (t == "A" ==> keys[1] && !keys[2] && !keys[3])
            && (t == "S" ==> keys[2] && !keys[3])
            && (t == "D" ==> keys[3])
  {
    if Input.CountTrue(keys) == 0 {
      assert !keys[0] && !keys[1] && !keys[2] && !keys[3];
    }
    if !keys[0] && !keys[1] && !keys[2] && !keys[3] {
      assert forall i :: 0 <= i < |keys| ==> !keys[i];
    }
  }

  /** Without opposite keys, at most two keys are held, one on each axis. */
  lemma InputTokenSingleAxis(keys: seq<bool>)
    requires |keys| == 4 && !Input.OppositeKeys(keys)
    ensures Input.CountTrue(keys) <= 2
  {
    Input.OppositeKeysCount(keys);
  }

  // ---------------------------------------------------------------------------
  // the walk as the client runs it

  datatype Walked = Walked(tables: Tables, complete: bool)

  /** What one pass of the loop body finds at the head of the fields left. */
  datatype Read =
    | Stop(complete: bool)                          // too few fields left, or a number that does not parse
    | Skip                                          // a type other than "P" or "N": seven fields passed over
    | Got(record: Snapshot.Record, width: nat)      // a record taking `width` fields

  function ReadRecord(f: seq<string>): (r: Read)
    ensures r.Skip? ==> |f| >= 7
    ensures r.Got? ==> r.width <= |f| && (r.width == 7 <==> r.record.PlayerRecord?)
    ensures r.Got? ==> r.width == 7 || r.width == 8
  {
    if |f| <= 6 then Stop(true)
    else
      var id := ParseInt(f[1]);
      var x := ParseInt(f[2]);
      var y := ParseInt(f[3]);
      var s := ParseInt(f[5]);
      if id.None? || x.None? || y.None? || s.None? then Stop(false)
      else if f[0] == "P" then
        Got(Snapshot.PlayerRecord(id.value, x.value, y.value, f[4], s.value, ParseBoolean(f[6])), 7)
      else if f[0] == "N" then
        if |f| <= 7 then Stop(true)
        else Got(Snapshot.NpcRecord(id.value, x.value, y.value, f[4], s.value, ParseBoolean(f[6]), f[7]), 8)
      else Skip
  }

  /** The loop of `handleServerMessage` over the fields left, applying each record as it is read. */
  function Walk(t: Tables, f: seq<string>, now: int): Walked
    decreases |f|
  {
    match ReadRecord(f)
    case Stop(complete) => Walked(t, complete)
    case Skip => Walk(t, f[7..], now)
    case Got(r, width) => Walk(ApplyRecord(t, r, now), f[width..], now)
  }

  /** Applying records while reading them is applying the decoded records afterwards. */
  lemma {:induction false} WalkIsApplyDecoded(t: Tables, f: seq<string>, now: int)
    ensures Walk(t, f, now) == Walked(ApplyAll(t, Snapshot.Decode(f).records, now), Snapshot.Decode(f).complete)
    decreases |f|
  {
    match ReadRecord(f)
    case Stop(_) =>
    case Skip =>
      WalkIsApplyDecoded(t, f[7..], now);
    case Got(r, width) =>
      WalkIsApplyDecoded(ApplyRecord(t, r, now), f[width..], now);
      var rest := Snapshot.Decode(f[width..]).records;
      assert ([r] + rest)[0] == r && ([r] + rest)[1..] == rest;
  }

  // ---------------------------------------------------------------------------
  // the client object

  /** One turn of the walk from field `i` on, with the rest of the fields addressed from the start. */
  lemma WalkFrom(t: Tables, f: seq<string>, i: nat, now: int)
    requires i <= |f|
    ensures var next := ReadRecord(f[i..]);
            && (next.Stop? ==> Walk(t, f[i..], now) == Walked(t, next.complete))
            && (next.Skip? ==> i + 7 <= |f| && Walk(t, f[i..], now) == Walk(t, f[i + 7..], now))
            && (next.Got? ==> i + next.width <= |f| &&
                              Walk(t, f[i..], now) == Walk(ApplyRecord(t, next.record, now), f[i + next.width..], now))
  {
    match ReadRecord(f[i..])
    case Stop(_) =>
    case Skip =>
      assert f[i..][7..] == f[i + 7..];
    case Got(r, width) =>
      assert f[i..][width..] == f[i + width..];
  }

  ghost function PlayerSet(m: map<int, PlayerState>): set<PlayerState> {
    set k | k in m :: m[k]
  }

  ghost function NpcSet(m: map<int, NPCModel.NPC>): set<NPCModel.NPC> {
    set k | k in m :: m[k]
  }

  ghost function PlayerViews(m: map<int, PlayerState>): map<int, PlayerView>
    reads PlayerSet(m)
  {
    map k | k in m :: m[k].View()
  }

  ghost function NpcViews(m: map<int, NPCModel.NPC>): map<int, NPCModel.NpcView>
    reads NpcSet(m)
  {
    map k | k in m :: m[k].View()
  }

  /** The objects of `m` are keyed by their ids and show the views in `v`. */
  ghost predicate Shows(m: map<int, PlayerState>, v: map<int, PlayerView>)
    reads PlayerSet(m)
  {
    m.Keys == v.Keys && forall k | k in m :: m[k].id == k && m[k].View() == v[k]
  }

  lemma ShowsViews(m: map<int, PlayerState>, v: map<int, PlayerView>)
    requires Shows(m, v)
    ensures PlayerViews(m) == v
  {
    forall k | k in m
      ensures PlayerViews(m)[k] == v[k]
    {
    }
  }

  lemma ViewsShow(m: map<int, PlayerState>)
    requires PlayersKeyedById(m)
    ensures Shows(m, PlayerViews(m))
  {
  }

  ghost predicate NpcShows(m: map<int, NPCModel.NPC>, v: map<int, NPCModel.NpcView>)
    reads NpcSet(m)
  {
    m.Keys == v.Keys && forall k | k in m :: m[k].id == k && m[k].View() == v[k]
  }

  lemma NpcShowsViews(m: map<int, NPCModel.NPC>, v: map<int, NPCModel.NpcView>)
    requires NpcShows(m, v)
    ensures NpcViews(m) == v
  {
    forall k | k in m
      ensures NpcViews(m)[k] == v[k]
    {
    }
  }

  lemma NpcViewsShow(m: map<int, NPCModel.NPC>)
    requires NPCRegistry.KeyedById(m)
    ensures NpcShows(m, NpcViews(m))
  {
  }

  predicate PlayersKeyedById(m: map<int, PlayerState>) {
    forall k | k in m :: m[k].id == k
  }

  class GameClient {
    var players: map<int, PlayerState>
    var lastPlayerAnimationTimes: map<int, int>
    var lastDirectionChangeTime: map<int, int>
    var playerId: int
    var isMoving: bool
    const npcManager: NPCRegistry.NPCManager
    const camera: CameraModel.Camera
    const input: Input.InputHandler

    ghost predicate Valid()
      reads this, npcManager, input
    {
      PlayersKeyedById(players) && npcManager.Valid() && input.Valid()
    }

    ghost function State(): ClientView
      reads this, PlayerSet(players), npcManager, NpcSet(npcManager.npcs)
    {
      ClientView(PlayerViews(players), lastPlayerAnimationTimes, lastDirectionChangeTime,
                 NpcViews(npcManager.npcs))
    }

    /** The client before it connects: no players, no NPCs, no keys held, a camera at the origin. */
    constructor (viewportWidth: int, viewportHeight: int, mapPixelWidth: int, mapPixelHeight: int)
      ensures Valid() && fresh(npcManager) && fresh(camera) && fresh(input)
      ensures State() == ClientView(map[], map[], map[], map[])
      ensures !isMoving && input.keys[..] == [false, false, false, false]
      ensures camera.position == Point(0, 0) && camera.targetPosition == Point(0, 0)
      ensures camera.viewportWidth == viewportWidth && camera.viewportHeight == viewportHeight
      ensures camera.mapWidth == mapPixelWidth && camera.mapHeight == mapPixelHeight
    {
      players := map[];
      lastPlayerAnimationTimes := map[];
      lastDirectionChangeTime := map[];
      npcManager := new NPCRegistry.NPCManager();
      input := new Input.InputHandler();
      camera := new CameraModel.Camera(viewportWidth, viewportHeight, mapPixelWidth, mapPixelHeight);
      isMoving := false;
      playerId := 0;
    }

    /** The id line the server sends first; a line that is not a number leaves the id unset. */
    method Connect(initialMessage: string) returns (ok: bool)
      modifies this
      ensures ok <==> ParseInt(initialMessage).Some?
      ensures ok ==> playerId == ParseInt(initialMessage).value
      ensures !ok ==> playerId == old(playerId)
      ensures players == old(players) && isMoving == old(isMoving)
      ensures lastPlayerAnimationTimes == old(lastPlayerAnimationTimes)
      ensures lastDirectionChangeTime == old(lastDirectionChangeTime)
    {
      var id := ParseInt(initialMessage);
      ok := id.Some?;
      if ok {
        playerId := id.value;
      }
    }

    method ProcessPlayerState(id: int, x: int, y: int, moving: bool, now: int, direction: string,
                              ghost known: map<int, PlayerView>)
      returns (state: PlayerState)
      requires Shows(players, known)
      modifies this, if id in players then {players[id]} else {}
      ensures players == old(players) && playerId == old(playerId) && isMoving == old(isMoving)
      ensures state.id == id
      ensures id in players ==> state == players[id]
      ensures id !in players ==> fresh(state)
      ensures var p := ProcessPlayer(known, old(lastPlayerAnimationTimes),
                                     old(lastDirectionChangeTime), id, x, y, moving, now, direction);
              && state.View() == p.view
              && lastPlayerAnimationTimes == p.anim && lastDirectionChangeTime == p.dirTime
    {
      if id !in players {
        state := new PlayerState(id, x, y);
        lastPlayerAnimationTimes := lastPlayerAnimationTimes[id := now];
        lastDirectionChangeTime := lastDirectionChangeTime[id := now];
        return;
      }
      state := players[id];
      var newPos := Point(x, y);
      if FartherThan100(state.position, newPos) {
        state.SetPosition(newPos);
        state.SetTargetPosition(newPos, direction);
      } else {
        var since := now - GetOrDefault(lastDirectionChangeTime, id, now);
        var d := direction;
        if state.direction != d {
          if since < DIRECTION_CHANGE_INTERVAL {
            d := state.direction;
          } else {
            lastDirectionChangeTime := lastDirectionChangeTime[id := now];
          }
        }
        state.SetDirection(d);
        state.SetTargetPosition(newPos, d);
      }
      if moving {
        var last := GetOrDefault(lastPlayerAnimationTimes, id, now);
        if now - last >= ANIMATION_SPEED {
          state.SetSpriteIndex(Toggle(state.spriteIndex));
          lastPlayerAnimationTimes := lastPlayerAnimationTimes[id := now];
        }
      } else {
        state.SetSpriteIndex(0);
      }
    }

    /** The walk's view of the tables matches the objects. */
    ghost predicate Mirrors(newPlayers: map<int, PlayerState>, t: Tables)
      reads this, PlayerSet(players), PlayerSet(newPlayers), npcManager, NpcSet(npcManager.npcs)
    {
      PlayersMirror(newPlayers, t) && NpcShows(npcManager.npcs, t.npcs)
    }

    ghost predicate PlayersMirror(newPlayers: map<int, PlayerState>, t: Tables)
      reads this, PlayerSet(players), PlayerSet(newPlayers)
    {
      && Shows(players, t.known) && Shows(newPlayers, t.newPlayers)
      && (forall k | k in newPlayers && k in players :: newPlayers[k] == players[k])
      && lastPlayerAnimationTimes == t.anim && lastDirectionChangeTime == t.dirTime
    }

    method ApplyPlayerRecord(newPlayers: map<int, PlayerState>, r: Snapshot.Record, now: int, ghost t: Tables)
      returns (newPlayers': map<int, PlayerState>)
      requires r.PlayerRecord?
      requires PlayersMirror(newPlayers, t)
      modifies this, if r.id in players then {players[r.id]} else {}
      ensures PlayersMirror(newPlayers', PlayerApplied(t, r, now))
      ensures players == old(players) && playerId == old(playerId) && isMoving == old(isMoving)
    {
      var state := ProcessPlayerState(r.id, r.x, r.y, r.moving, now, r.direction, t.known);
      newPlayers' := newPlayers[r.id := state];
      ghost var p := ProcessPlayer(t.known, t.anim, t.dirTime, r.id, r.x, r.y, r.moving, now, r.direction);
      ghost var known := if r.id in t.known then t.known[r.id := p.view] else t.known;

      forall k | k in players
        ensures players[k].id == k && players[k].View() == known[k]
      {
        if k != r.id && r.id in players {
          assert players[k].id != players[r.id].id;
        }
      }
      forall k | k in newPlayers'
        ensures newPlayers'[k].id == k && newPlayers'[k].View() == t.newPlayers[r.id := p.view][k]
      {
        if k != r.id {
          assert newPlayers[k].id == k;
        }
      }
    }

    /** The fields a server NPC record sets on the NPC object. */
    static method PlaceNpc(npc: NPCModel.NPC, r: Snapshot.Record)
      requires r.NpcRecord?
      modifies npc
      ensures npc.View() == NpcApplied(old(npc.View()), r.x, r.y, r.direction, r.sprite, r.moving)
    {
      npc.SetPosition(Point(r.x, r.y));
      npc.SetDirection(r.direction);
      npc.SetSpriteIndex(r.sprite);
      npc.state := if r.moving then EntityModel.MOVING else EntityModel.IDLE;
    }

    method ApplyNpcRecord(r: Snapshot.Record, ghost t: Tables) returns (npc: NPCModel.NPC)
      requires r.NpcRecord?
      requires npcManager.Valid() && NpcShows(npcManager.npcs, t.npcs)
      modifies npcManager, if r.id in npcManager.npcs then {npcManager.npcs[r.id]} else {}
      ensures npcManager.Valid() && NpcShows(npcManager.npcs, NpcTableApplied(t.npcs, r))
      ensures npcManager.npcs == old(npcManager.npcs)[r.id := npc]
      ensures r.id in old(npcManager.npcs) ==> npc == old(npcManager.npcs)[r.id]
      ensures r.id !in old(npcManager.npcs) ==> fresh(npc)
    {
      ghost var before := npcManager.npcs;
      var npcs := npcManager.GetNPCs();
      if r.id in npcs {
        npc := npcs[r.id];
      } else {
        npc := new NPCModel.NPC(r.id, r.x, r.y, Some(r.npcType), NPCModel.WANDER);
        npcManager.AddNPC(npc);
      }
      ghost var base := npc.View();
      assert base == if r.id in t.npcs then t.npcs[r.id] else NPCModel.NewNpc(r.id, r.x, r.y, Some(r.npcType), NPCModel.WANDER);
      PlaceNpc(npc, r);
      ghost var after := t.npcs[r.id := NpcApplied(base, r.x, r.y, r.direction, r.sprite, r.moving)];
      forall k | k in npcManager.npcs
        ensures npcManager.npcs[k].id == k && npcManager.npcs[k].View() == after[k]
      {
        if k != r.id {
          assert before[k].id == k;
        }
      }
    }

    /** One record of a state line applied to the objects: a player record or an NPC record. */
    method ApplyOne(newPlayers: map<int, PlayerState>, r: Snapshot.Record, now: int, ghost t: Tables)
      returns (newPlayers': map<int, PlayerState>)
      requires npcManager.Valid() && Mirrors(newPlayers, t)
      modifies this, npcManager
      modifies if r.PlayerRecord? && r.id in players then {players[r.id]} else {}
      modifies if r.NpcRecord? && r.id in npcManager.npcs then {npcManager.npcs[r.id]} else {}
      ensures npcManager.Valid() && Mirrors(newPlayers', ApplyRecord(t, r, now))
      ensures players == old(players) && playerId == old(playerId) && isMoving == old(isMoving)
      ensures forall k | k in npcManager.npcs ::
                (k in old(npcManager.npcs) && npcManager.npcs[k] == old(npcManager.npcs)[k]) || fresh(npcManager.npcs[k])
    {
      if r.PlayerRecord? {
        newPlayers' := ApplyPlayerRecord(newPlayers, r, now, t);
      } else {
        newPlayers' := newPlayers;
        var npc := ApplyNpcRecord(r, t);
      }
    }

    /**
      The loop of `handleServerMessage` over the fields of a state line: the records up to
      the end of the line, or up to a number that does not parse (`complete` false), are
      applied in order, and `newPlayers` holds the players they named.
    */
    method WalkFields(entityData: seq<string>, now: int, ghost t0: Tables)
      returns (newPlayers: map<int, PlayerState>, complete: bool)
      requires npcManager.Valid() && t0.newPlayers == map[] && Mirrors(map[], t0)
      modifies this, PlayerSet(players), npcManager, NpcSet(npcManager.npcs)
      ensures npcManager.Valid() && players == old(players) && playerId == old(playerId) && isMoving == old(isMoving)
      ensures var d := Snapshot.Decode(entityData);
              Mirrors(newPlayers, ApplyAll(t0, d.records, now)) && complete == d.complete
    {
      newPlayers := map[];
      ghost var t := t0;
      var i := 0;
      while i < |entityData|
        invariant 0 <= i <= |entityData|
        invariant npcManager.Valid() && players == old(players) && playerId == old(playerId) && isMoving == old(isMoving)
        invariant Mirrors(newPlayers, t)
        invariant Walk(t, entityData[i..], now) == Walk(t0, entityData, now)
        invariant forall k | k in npcManager.npcs ::
                    (k in old(npcManager.npcs) && npcManager.npcs[k] == old(npcManager.npcs)[k]) || fresh(npcManager.npcs[k])
        decreases |entityData| - i
      {
        WalkFrom(t, entityData, i, now);
        match ReadRecord(entityData[i..])
        case Stop(ok) =>
          if !ok {
            WalkIsApplyDecoded(t0, entityData, now);
            return newPlayers, false;
          }
          break;
        case Skip =>
          i := i + 7;
        case Got(r, width) =>
          newPlayers := ApplyOne(newPlayers, r, now, t);
          t := ApplyRecord(t, r, now);
          i := i + width;
      }
      if i == |entityData| {
        WalkFrom(t, entityData, i, now);
      }
      WalkIsApplyDecoded(t0, entityData, now);
      complete := true;
    }

    /**
      `handleServerMessage`: a greeting line is only shown; a state line updates the known
      players and the NPCs record by record, and the player table is replaced by the players
      the line named when that differs from the current table. A number that does not parse
      ends the walk there (`complete` false) with the table not replaced.
    */
    method HandleServerMessage(message: string, now: int) returns (complete: bool, replaced: bool)
      requires Valid()
      modifies this, PlayerSet(players), npcManager, NpcSet(npcManager.npcs)
      ensures Valid()
      ensures var h := HandleMessage(old(State()), message, now);
              State() == h.client && complete == h.complete
      ensures replaced <==> players.Keys != old(players).Keys
      ensures playerId == old(playerId) && isMoving == old(isMoving)
    {
      ghost var c := State();
      if StartsWith(message, "Jogador") {
        assert HandleMessage(c, message, now) == Handled(c, true);
        return true, false;
      }
      var entityData := Split(message, ',');
      ghost var d := Snapshot.Decode(entityData);
      ghost var t := ApplyAll(Tables(c.players, map[], c.anim, c.dirTime, c.npcs), d.records, now);
      ghost var h := ClientView(if d.complete then t.newPlayers else t.known, t.anim, t.dirTime, t.npcs);
      assert HandleMessage(c, message, now) == Handled(h, d.complete);
      ViewsShow(players);
      NpcViewsShow(npcManager.npcs);
      var newPlayers;
      newPlayers, complete := WalkFields(entityData, now, Tables(c.players, map[], c.anim, c.dirTime, c.npcs));
      ShowsViews(players, t.known);
      replaced := false;
      if complete {
        replaced := ReplacePlayers(newPlayers, t);
      }
      NpcShowsViews(npcManager.npcs, t.npcs);
      assert PlayerViews(players) == h.players;
      assert State() == h;
    }

    /** The end of `handleServerMessage`: the table becomes the new one when the two differ. */
    method ReplacePlayers(newPlayers: map<int, PlayerState>, ghost t: Tables) returns (replaced: bool)
      requires PlayersMirror(newPlayers, t)
      modifies this
      ensures PlayersKeyedById(players) && PlayerViews(players) == t.newPlayers
      ensures replaced <==> players.Keys != old(players).Keys
      ensures playerId == old(playerId) && isMoving == old(isMoving)
      ensures lastPlayerAnimationTimes == old(lastPlayerAnimationTimes)
      ensures lastDirectionChangeTime == old(lastDirectionChangeTime)
    {
      ShowsViews(newPlayers, t.newPlayers);
      if players.Keys == newPlayers.Keys {
        assert forall k | k in players :: players[k] == newPlayers[k];
        assert players == newPlayers;
      }
      replaced := false;
      if players != newPlayers {
        players := newPlayers;
        replaced := true;
      }
    }

    /**
      `handleInput`: nothing is sent before the local player appears in the table; after
      that the token sent is the one the held keys choose, and the player counts as moving
      exactly when that token is not empty.
    */
    method HandleInput() returns (sent: Option<string>)
      requires Valid()
      modifies this
      ensures players == old(players) && playerId == old(playerId)
      ensures lastPlayerAnimationTimes == old(lastPlayerAnimationTimes)
      ensures lastDirectionChangeTime == old(lastDirectionChangeTime)
      ensures playerId !in players ==> sent.None? && isMoving == old(isMoving)
      ensures playerId in players ==> sent == Some(InputToken(input.keys[..]))
      ensures playerId in players ==> (isMoving <==> sent.value != "")
    {
      if playerId !in players {
        return None;
      }
      if input.HasOppositeKeysPressed() {
        isMoving := false;
        return Some("");
      }
      var move := "";
      if input.IsKeyPressed(0) {
        move := "W";
        isMoving := true;
      }
      if input.IsKeyPressed(1) {
        move := "A";
        isMoving := true;
      }
      if input.IsKeyPressed(2) {
        move := "S";
        isMoving := true;
      }
      if input.IsKeyPressed(3) {
        move := "D";
        isMoving := true;
      }
      if isMoving && move != "" {
        sent := Some(move);
      } else {
        isMoving := false;
        sent := Some("");
      }
    }

    /**
      `updateInterpolation`: every player and every NPC takes one interpolation step, and
      the camera aims at the local player's new position (clamped to the map) and then
      takes its own step.
    */
    method UpdateInterpolation()
      requires PlayersKeyedById(players) && npcManager.Valid()
      modifies PlayerSet(players), NpcSet(npcManager.npcs), camera
      ensures forall k | k in players :: players[k].View() == InterpolatePlayer(old(players[k].View()))
      ensures forall k | k in npcManager.npcs ::
                npcManager.npcs[k].View() == NPCModel.Interpolated(old(npcManager.npcs[k].View()))
      ensures playerId in players ==>
                camera.targetPosition == CameraTarget(camera, players[playerId].position)
      ensures playerId !in players ==> camera.targetPosition == old(camera.targetPosition)
      ensures camera.position == CameraModel.CameraStep(old(camera.position), camera.targetPosition)
    {
      InterpolatePlayerObjects();
      label PlayersStepped:
      InterpolateNpcsAndCamera();
    }

    /** The rest of `updateInterpolation`: the NPCs' loop, then the camera's own step. */
    method InterpolateNpcsAndCamera()
      requires npcManager.Valid()
      modifies NpcSet(npcManager.npcs), camera
      ensures forall k | k in npcManager.npcs ::
                npcManager.npcs[k].View() == NPCModel.Interpolated(old(npcManager.npcs[k].View()))
      ensures camera.targetPosition == old(camera.targetPosition)
      ensures camera.position == CameraModel.CameraStep(old(camera.position), camera.targetPosition)
    {
      var npcs := npcManager.GetNPCs();
      InterpolateNpcObjects(npcs);
      assert unchanged(camera);
      camera.UpdateInterpolation();
    }

    /** The players' loop of `updateInterpolation`: the camera is aimed at the local player. */
    method InterpolatePlayerObjects()
      requires PlayersKeyedById(players)
      modifies PlayerSet(players), camera
      ensures forall k | k in players :: players[k].View() == InterpolatePlayer(old(players[k].View()))
      ensures playerId in players ==>
                camera.targetPosition == CameraTarget(camera, players[playerId].position)
      ensures playerId !in players ==> camera.targetPosition == old(camera.targetPosition)
      ensures camera.position == old(camera.position)
    {
      var ids := players.Keys;
      while ids != {}
        invariant ids <= players.Keys
        invariant forall k | k in players ::
                    players[k].View() == if k in ids then old(players[k].View()) else InterpolatePlayer(old(players[k].View()))
        invariant camera.position == old(camera.position)
        invariant playerId in players && playerId !in ids ==>
                    camera.targetPosition == CameraTarget(camera, players[playerId].position)
        invariant playerId !in players || playerId in ids ==> camera.targetPosition == old(camera.targetPosition)
        decreases ids
      {
        var k := AnyKey(ids);
        InterpolatePlayerObject(k);
        ids := ids - {k};
      }
    }

    /** One step of that loop: the player under `id` moves and, if it is the local player, is followed. */
    method InterpolatePlayerObject(id: int)
      requires PlayersKeyedById(players) && id in players
      modifies players[id], camera
      ensures players[id].View() == InterpolatePlayer(old(players[id].View()))
      ensures forall k | k in players && k != id :: players[k].View() == old(players[k].View())
      ensures id == playerId ==> camera.targetPosition == CameraTarget(camera, players[id].position)
      ensures id != playerId ==> camera.targetPosition == old(camera.targetPosition)
      ensures camera.position == old(camera.position)
    {
      var player := players[id];
      player.UpdateInterpolation();
      if player.id == playerId {
        camera.CenterOn(player.position);
      }
      forall k | k in players && k != id
        ensures players[k].View() == old(players[k].View())
      {
        assert players[k].id != player.id;
      }
    }

    /** The NPCs' loop of `updateInterpolation`. */
    static method InterpolateNpcObjects(npcs: map<int, NPCModel.NPC>)
      requires NPCRegistry.KeyedById(npcs)
      modifies NpcSet(npcs)
      ensures forall k | k in npcs :: npcs[k].View() == NPCModel.Interpolated(old(npcs[k].View()))
    {
      var ids := npcs.Keys;
      while ids != {}
        invariant ids <= npcs.Keys
        invariant forall k | k in npcs ::
                    npcs[k].View() == if k in ids then old(npcs[k].View()) else NPCModel.Interpolated(old(npcs[k].View()))
        decreases ids
      {
        var k := AnyKey(ids);
        InterpolateNpcObject(npcs, k);
        ids := ids - {k};
      }
    }

    /** One step of that loop. */
    static method InterpolateNpcObject(npcs: map<int, NPCModel.NPC>, id: int)
      requires NPCRegistry.KeyedById(npcs) && id in npcs
      modifies npcs[id]
      ensures npcs[id].View() == NPCModel.Interpolated(old(npcs[id].View()))
      ensures forall k | k in npcs && k != id :: npcs[k].View() == old(npcs[k].View())
    {
      var npc := npcs[id];
      npc.UpdateInterpolation();
      forall k | k in npcs && k != id
        ensures npcs[k].View() == old(npcs[k].View())
      {
        assert npcs[k].id != npc.id;
      }
    }
  }

  /** Some key of a non-empty key set: the order in which a `HashMap` hands out its values is not modelled. */
  method AnyKey(ids: set<int>) returns (k: int)
    requires ids != {}
    ensures k in ids
  {
    SomeKey(ids);
    k :| k in ids;
  }

  lemma SomeKey(ids: set<int>)
    requires ids != {}
    ensures exists k :: k in ids
  {
    if forall k :: k !in ids {
      assert false;
    }
  }

  function InterpolatePlayer(v: PlayerView): PlayerView {
    v.(position := Interpolate(v.position, v.target))
  }

  /** Where `centerOn` aims the camera for a player at `p`. */
  ghost function CameraTarget(c: CameraModel.Camera, p: Point): Point
  {
    Point(CameraModel.ClampedTarget(p.x, c.viewportWidth, c.mapWidth),
          CameraModel.ClampedTarget(p.y, c.viewportHeight, c.mapHeight))
  }
}
