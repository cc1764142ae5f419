# A 2D tile MMO: movement, state lines, smoothing, NPCs and the map view

This project models the core of a small Java multiplayer tile game in Dafny and proves
properties of it. The game has a server and a Swing client.

- **Server** (`Server`): one `ClientConnection` per player runs a four-state movement
  machine: IDLE, MOVING, COMPLETING_SQM and PAUSED. Two events drive it: an input line
  (a key token `W`/`A`/`S`/`D`, or an empty line for "no key") and a 16 ms timer tick.
  `handleMovement` checks the map bounds and `checkCollision` (a 12x14 foot box against
  colliders grown by 2 pixels) on the first 2-pixel step. The server broadcasts a
  comma-separated state line.
- **State line** (`Snapshot`): the server writes one record per player,
  `P,id,x,y,direction,sprite,moving`, then one per NPC,
  `N,id,x,y,direction,sprite,moving,type`. The client splits the line and walks it in
  strides of 7 or 8 fields.
- **Client** (`Client`): `handleServerMessage` rebuilds the player table through
  `processPlayerState`. That function applies the teleport snap, the 200 ms
  direction-jitter rule and the two-frame walk animation. `handleInput` picks the key
  token to send. `updateInterpolation` smooths every player and NPC and steers the
  camera to the local player.
- **Shared state** (`GameCore`, `EntityModel`, `CameraModel`):
  - `PlayerState` with its `0.5f` and `0.15f` smoothing rules, and the game constants;
  - `Entity`'s interpolation;
  - the `Camera`: clamped follow, a tenth-per-frame smoothing, and the world/screen
    transforms.
- **NPCs** (`NPCModel`, `NPCRegistry`, `JsonNpcLoader`):
  - the NPC behaviours, where a wandering NPC's random draws are parameters;
  - the `NPCManager` table by id, with ids issued from 1000;
  - the hand-written JSON reader (`parseJSON`, `parseKeyValuePairs`, `parseObjectArray`,
    `createNPCFromMap`) that loads NPCs from a file.
- **Keys** (`Input`): the four-slot `InputHandler`.
- **Map view** (`TiledMap`):
  - the tileset coordinate table;
  - the little-endian 32-bit tile ids of base64 layers;
  - the collider list;
  - the visible tile range and the `drawImage` calls of a paint;
  - `getColliders` and `getPreferredSize`.
- **Java semantics** (`JavaText`, `Geometry`): the Java library behaviour the code
  relies on, written out. This covers `trim`, `split` (which drops trailing empty
  pieces), `Integer.parseInt`, `%d`, `%b`, `Boolean.parseBoolean`, `toUpperCase`,
  truncating integer division and `Rectangle.intersects`.

State that Java objects update in place is modelled as Dafny classes with the same fields:
`PlayerState`, `Camera`, `NPC`, `NPCManager`, `InputHandler`, `ClientConnection`,
`GameClient` and `TiledMapRenderer`. Each method's postcondition ties the new state to a
pure function of the old state. The lemmas prove what the code promises about those
functions. The float constants reduce to exact integer arithmetic for map-sized values:
- `(int)(d * 0.5f)` and `(int)(d * 0.1f)` are truncating divisions by 2 and 10.
- `Math.round(p + d * 0.15f)` uses the float's exact value, 10066330 / 2^26.
- `movementSpeed = 1.0f` lands an entity exactly on its target.

An exact factor of 0.15 would make the player's smoothing step `p + floor((3d + 10) / 20)`.
The code's float `0.15f` is slightly above 0.15, so the two differ for negative gaps that
are 10 modulo 20. The model follows the code. The lemmas
`StepMatchesExactFraction` and `StepDiffersFromExactFraction` state where they agree
and where they differ.

## Model

| member | source | states |
|---|---|---|
| JavaText.ParseInt | GameServer.java:149 | `Integer.parseInt` accepts an optional sign and at least one digit whose value fits in 32 bits; anything else is the thrown `NumberFormatException` (`None`) |
| JavaText.ParseFormatInt | GameServer.java:79-86 | every 32-bit value written with `%d` parses back to itself |
| JavaText.FormatIntShape | GameServer.java:79-86 | `%d` writes an optional minus sign followed by digits only |
| JavaText.ParseIntRejectsBlankEnds | GameServer.java:145-149 | a blank at either end of the text makes `Integer.parseInt` reject it |
| JavaText.BlankIsNoInt | GameServer.java:145-149 | text that trims to nothing is never accepted by `Integer.parseInt`, so the blank test cannot hide a number |
| JavaText.TrimKeepsVisible | GameServer.java:145 | `trim` of a text holding any character above U+0020 is not empty |
| JavaText.TrimEnds | GameServer.java:145 | `trim` leaves nothing, or text that starts and ends with a character above U+0020 |
| JavaText.TrimOfTrimmed | GameServer.java:145 | text that starts and ends with a visible character is its own trim |
| JavaText.ParseFormatBool | GameClient.java:105 | `Boolean.parseBoolean` of `%b` of a boolean gives it back |
| JavaText.IndexOf | JSONNPCLoader.java:79 | `indexOf` is -1 exactly when the character is absent, and otherwise its first position |
| JavaText.LastIndexOf | JSONNPCLoader.java:80 | `lastIndexOf` is -1 exactly when the character is absent, and otherwise its last position |
| JavaText.RemoveChar | JSONNPCLoader.java:100-101 | `replace("\"", "")` leaves no quote and changes quote-free text not at all |
| JavaText.ToUpperCase | JSONNPCLoader.java:156 | `toUpperCase` maps every character and keeps the length |
| JavaText.SplitAllJoin | GameClient.java:92 | splitting a join of separator-free pieces, with empty pieces kept, gives the pieces back |
| JavaText.SplitJoin | GameClient.java:92 | `split` inverts `String.join` when no piece holds the separator and the last piece is not empty |
| Geometry.IntersectsIffCommonPixel | GameServer.java:172 | `Rectangle.intersects` holds exactly when the two rectangles share a pixel |
| GameCore.PlayerState.constructor | GameCore.java:12-18 | a new player stands on its own position as target, faces down and shows frame 0 |
| GameCore.SetTarget | GameCore.java:20-30 | the target and direction are always stored; only a change of direction pulls the position half-way to the target, rounded toward the old position, never past it |
| GameCore.PlayerState.SetTargetPosition | GameCore.java:20-30 | the new state is `SetTarget` of the old one |
| GameCore.HalfStep | GameCore.java:22-26 | `(int)(d * 0.5f)`: half the gap, rounded toward zero; `SetTarget` states that the pulled position stays between the old position and the target |
| GameCore.StepBounds | GameCore.java:34-43 | a smoothing frame never overshoots, moves at least one pixel for a gap of 4 or more, and none for a gap of 3 or less |
| GameCore.Step | GameCore.java:38-43 | the pixels one smoothing frame moves an axis, `Math.round(d * 0.15f)` with the float's exact value; `StepBounds`, `StepMatchesExactFraction` and `StepDiffersFromExactFraction` state its range and how it compares with an exact 0.15 |
| GameCore.StepMatchesExactFraction | GameCore.java:38-43 | the frame's step is `floor((3d + 10) / 20)` except on negative gaps that are 10 modulo 20 |
| GameCore.StepDiffersFromExactFraction | GameCore.java:38-43 | a gap of -10 steps by -2 with the float `0.15f`, where the exact 0.15 would step by -1 |
| GameCore.Interpolate | GameCore.java:32-51 | one frame stays between the position and the target on each axis, and lands on the target when both gaps are at most one pixel |
| GameCore.InterpolateStallsIff | GameCore.java:38-49 | a frame leaves the player short of its target exactly when both gaps are at most 3 and one of them is 2 or 3 |
| GameCore.PlayerState.UpdateInterpolation | GameCore.java:32-51 | only the position changes, to `Interpolate` of the old position and the unchanged target |
| GameCore.PlayerState.SetPosition | GameCore.java:55 | only the position changes |
| GameCore.PlayerState.SetDirection | GameCore.java:57 | only the direction changes |
| GameCore.PlayerState.SetSpriteIndex | GameCore.java:59 | only the frame changes |
| CameraModel.Camera.constructor | Camera.java:12-19 | a new camera and its target sit at the origin, with the given viewport and map sizes |
| CameraModel.ClampedTarget | Camera.java:21-28 | the aimed corner is never negative, never past `map - viewport` when the map is the larger, is `c - viewport / 2` when that fits, and is 0 when the map is the smaller |
| CameraModel.Camera.CenterOn | Camera.java:21-32 | the target becomes the clamped corner on each axis; the displayed position is untouched |
| CameraModel.TenthStep | Camera.java:37-38 | a tenth of the gap, rounded toward zero, never past the gap, and zero exactly when the gap is under 10 |
| CameraModel.CameraStep | Camera.java:34-46 | a frame stays between the position and the target on each axis |
| CameraModel.Camera.UpdateInterpolation | Camera.java:34-46 | the target is unchanged and the position becomes `CameraStep` of the old one |
| CameraModel.CameraStallsIff | Camera.java:37-44 | the camera stops short exactly when both gaps are below 10 and one of them is 2 or more |
| CameraModel.CameraSnaps | Camera.java:41-44 | after a frame, a camera within one pixel of its target on both axes sits on it |
| CameraModel.Camera.WorldToScreen | Camera.java:52-57 | `screenToWorld` undoes `worldToScreen` |
| CameraModel.ScreenWorldInverse | Camera.java:52-64 | the two transforms are inverse in both orders |
| EntityModel.EntityInterpolate | Entity.java:29-43 | interpolation puts the entity on its target; an entity on its target is unchanged; the state changes only to IDLE, and it is IDLE afterwards exactly when it was IDLE or the entity was off its target by at most one pixel on both axes |
| EntityModel.EntityInterpolateIdempotent | Entity.java:29-43 | a second interpolation right after the first changes nothing |
| NPCModel.NPC.constructor | NPC.java:17-22 | a new NPC stands idle on its target, faces down, and is movable exactly when it is not STATIONARY |
| NPCModel.Offset | NPC.java:42-43 | `(int)(Math.random() * 3) - 1` is -1, 0 or 1 |
| NPCModel.CalculateDirection | NPC.java:59-65 | a straight offset gives its facing (top for negative dy, down for positive dy, left for negative dx, right for positive dx); a zero or diagonal offset keeps the current facing |
| NPCModel.NewTargetOnlyByWander | NPC.java:25-53 | `update` changes the target only for a wandering idle NPC on a roll below 0.02; the new target is at most one tile from the old position on each axis; other behaviours only interpolate |
| NPCModel.WanderStep | NPC.java:40-53 | `updateWanderBehavior`: an idle NPC on a roll below 0.02 takes a target up to one tile away on each axis, turns toward it and starts MOVING; `WanderFiresAndStaysMoving` and `NewTargetOnlyByWander` state it |
| NPCModel.BehaviorStep | NPC.java:25-36 | the behaviour switch of `update`: only WANDER acts; FOLLOW_PATH and STATIONARY leave the NPC as it is (`NewTargetOnlyByWander`) |
| NPCModel.Interpolated | Entity.java:29-43 | `Entity.updateInterpolation` on a whole NPC: position and state as `EntityInterpolate` gives them, everything else kept |
| NPCModel.UpdateSpec | NPC.java:25-38 | `update`: the behaviour step, then interpolation; `WanderFiresAndStaysMoving` and `WanderFiresOnce` state what a fired wander leads to |
| NPCModel.WanderFiresAndStaysMoving | NPC.java:40-53 | a fired wander leaves the NPC MOVING and standing on its new target, `position + 32 * (dx, dy)` |
| NPCModel.WanderFiresOnce | NPC.java:25-53 | after a wander fires, no later update changes the NPC at all |
| NPCModel.NPC.Update | NPC.java:25-38 | the new state is the behaviour step followed by interpolation |
| NPCModel.NPC.UpdateWanderBehavior | NPC.java:40-53 | the new state is the wander step on the given draws |
| NPCModel.NPC.UpdateInterpolation | Entity.java:29-43 | the new state is `Entity.updateInterpolation` of the old one |
| NPCModel.NPC.SetPosition | Entity.java:50 | only the position changes; the target and state are untouched |
| NPCModel.NPC.SetTargetPosition | Entity.java:51-54 | the target is set and the state becomes MOVING; nothing else changes |
| NPCModel.NPC.SetDirection | Entity.java:56 | only the facing changes |
| NPCModel.NPC.SetSpriteIndex | Entity.java:58 | only the frame changes |
| NPCRegistry.NPCManager.constructor | NPCManager.java:15-20 | the table starts empty and the next id is 1000 |
| NPCRegistry.NPCManager.AddNPC | NPCManager.java:39-42 | the NPC is stored under its own id, replacing any NPC with that id; the other entries and the counter are unchanged |
| NPCRegistry.NPCManager.CreateNPC | NPCManager.java:44-48 | a new NPC gets the next id, is stored under it and returned, and the counter goes up by one |
| NPCRegistry.NPCManager.GetNPCs | NPCManager.java:64-66 | the copy holds the same entries as the table |
| NPCRegistry.NPCManager.RemoveNPC | NPCManager.java:68-70 | exactly that id is dropped, if present |
| NPCRegistry.NPCManager.LoadNPCsFromMap | NPCManager.java:31-37 | the NPCs built from the file's usable objects are added in file order |
| NPCRegistry.NPCManager.LoadNPC | NPCManager.java:56-62 | the file's first NPC, if any, is added under its id and returned, a new object showing the first loaded seed; without one the table is unchanged |
| NPCRegistry.AddAllKeys | NPCManager.java:34-36 | after adding a list, an id is present exactly when it was before or some added NPC has it |
| NPCRegistry.AddAllLaterWins | NPCManager.java:34-36 | of two added NPCs with the same id, the later one stays |
| NPCRegistry.AddAllKeyedById | NPCManager.java:39-40 | every key maps to the NPC with that id |
| NPCRegistry.AddAll | NPCManager.java:34-36 | the table after `addNPC` of each loaded NPC in turn; `AddAllKeys`, `AddAllLaterWins` and `AddAllKeyedById` state its keys and values |
| Input.InputHandler.constructor | InputHandler.java:9-13 | both key arrays start with all four keys up |
| Input.KeySlot | InputHandler.java:31-36 | W, A, S and D drive slots 0 to 3, and no other key code drives a slot |
| Input.KeySlotInjective | InputHandler.java:31-36 | different key codes drive different slots |
| Input.KeyUpdate | InputHandler.java:30-38 | the slot update of `updateKey`, always four slots; `KeyUpdateTouchesOneSlot` and `PressThenRelease` state which slot changes |
| Input.KeyUpdateTouchesOneSlot | InputHandler.java:30-36 | a key event sets its own slot and leaves the others; any other key changes nothing |
| Input.PressThenRelease | InputHandler.java:16-25 | pressing and then releasing a key leaves its slot up, and restores the keys when it was up before |
| Input.InputHandler.KeyPressed | InputHandler.java:16-19 | `previousKeys` becomes the old keys, the key's slot goes down, and the callback runs once |
| Input.InputHandler.KeyReleased | InputHandler.java:22-25 | `previousKeys` becomes the old keys, the key's slot goes up, and the callback runs once |
| Input.InputHandler.CopyKeys | InputHandler.java:17 | `previousKeys` becomes a copy of `keys` |
| Input.InputHandler.UpdateKey | InputHandler.java:30-38 | the slot update, with the callback run once for any key |
| Input.CountTrue | InputHandler.java:51-57 | the count is 0 exactly when no key is held and 4 exactly when all are |
| Input.OppositeKeysCount | InputHandler.java:45-48 | opposite keys mean at least two held keys; three held keys always include an opposite pair |
| Input.InputHandler.GetNumberOfKeysPressed | InputHandler.java:51-57 | the loop counts the held keys, a number from 0 to 4 |
| Input.InputHandler.IsKeyPressed | InputHandler.java:40-42 | a held key means at least one key is pressed, and a key that is up means at most three |
| Input.InputHandler.HasOppositeKeysPressed | InputHandler.java:45-48 | opposite keys mean at least two held keys, and three held keys always report opposite keys |
| JsonNpcLoader.FieldOf | JSONNPCLoader.java:102-108 | a value is stored as an integer exactly when `Integer.parseInt` accepts it, and otherwise as its text |
| JsonNpcLoader.PairOf | JSONNPCLoader.java:96-108 | one piece gives a pair only when its trimmed text splits on `:` into exactly two parts; `IntPairRoundTrip`, `StrPairRoundTrip` and `PieceRoundTrip` state what written pairs read back as |
| JsonNpcLoader.KeyValuePairs | JSONNPCLoader.java:94-111 | `parseKeyValuePairs`: the pairs of the comma-separated pieces put over the entries in order; `PutAllKeys` and `PutAllLastWins` state its keys and values |
| JsonNpcLoader.PutAllKeys | JSONNPCLoader.java:94-111 | a key is present after the pairs exactly when it was before or some piece names it |
| JsonNpcLoader.PutAllLastWins | JSONNPCLoader.java:94-111 | a key holds the value of the last piece naming it |
| JsonNpcLoader.IntPairRoundTrip | JSONNPCLoader.java:97-108 | `"key":n` with a 32-bit `n` reads back as that key and integer |
| JsonNpcLoader.StrPairRoundTrip | JSONNPCLoader.java:97-108 | `"key":"text"` with non-numeric text reads back as that key and text |
| JsonNpcLoader.PieceRoundTrip | JSONNPCLoader.java:97-101 | `"key":value` splits on `:` into exactly the quoted key and the value |
| JsonNpcLoader.QuotedRemoval | JSONNPCLoader.java:100-101 | stripping quotes from a quoted quote-free text gives the text |
| JsonNpcLoader.PutPiece | JSONNPCLoader.java:96-110 | one piece puts its pair, if it has one, over the entries so far |
| JsonNpcLoader.ParseKeyValuePairs | JSONNPCLoader.java:94-111 | the loop fills the entries exactly as the pairs of all pieces, in order |
| JsonNpcLoader.ScanStep | JSONNPCLoader.java:120-142 | each character keeps the scan state well formed: the collected text is empty or starts with `{`, and is not empty while inside a group |
| JsonNpcLoader.ScanOutside | JSONNPCLoader.java:139-141 | text outside any group is ignored |
| JsonNpcLoader.ScanInside | JSONNPCLoader.java:139-141 | brace-free text inside a group is collected |
| JsonNpcLoader.ScanGroup | JSONNPCLoader.java:123-136 | a flat group `{body}` adds the entries of its body |
| JsonNpcLoader.ObjectArrayOfGroups | JSONNPCLoader.java:113-145 | comma-separated flat groups give one object per group, in order |
| JsonNpcLoader.ParseObjectArray | JSONNPCLoader.java:113-145 | the character loop computes `ObjectArray` |
| JsonNpcLoader.ObjectArray | JSONNPCLoader.java:113-145 | `parseObjectArray`: the entries of each brace-balanced group, in order; `ScanGroup` and `ObjectArrayOfGroups` state it for flat groups |
| JsonNpcLoader.NotAnObject | JSONNPCLoader.java:68-72 | text that does not start with `{` once trimmed parses to an empty map |
| JsonNpcLoader.NpcListOnlyFromArray | JSONNPCLoader.java:77-85 | a list appears only when `"npcs"` occurs, and holds the groups between the first `[` and the last `]`; with either bracket missing the result is empty |
| JsonNpcLoader.ParseJSON | JSONNPCLoader.java:68-92 | the method computes `ParsedJSON`, with `None` where the code throws |
| JsonNpcLoader.ParsedJSON | JSONNPCLoader.java:68-92 | `parseJSON` as a value, `None` where it throws; `NotAnObject` and `NpcListOnlyFromArray` state its branches |
| JsonNpcLoader.BehaviorNamed | JSONNPCLoader.java:156 | `valueOf` accepts exactly the three constant names |
| JsonNpcLoader.CreateNPCFromMap | JSONNPCLoader.java:148-163 | an NPC is made only from integer id, x and y, an optional text type, and a behaviour naming a constant in any letter case |
| JsonNpcLoader.CreateFromSeedEntries | JSONNPCLoader.java:148-158 | `createNPCFromMap` gives back the NPC whose entries it reads |
| JsonNpcLoader.BehaviorNameReads | JSONNPCLoader.java:156 | a behaviour's own name, upper-cased, names it |
| JsonNpcLoader.SeedsOf | JSONNPCLoader.java:32-40 | unusable objects are dropped, so there are never more NPCs than objects |
| JsonNpcLoader.LoadedSeedsFromObjects | JSONNPCLoader.java:32-40 | every loaded NPC comes from one of the list's objects |
| JsonNpcLoader.SeedsOfAllUsable | JSONNPCLoader.java:32-40 | objects that all describe NPCs give those NPCs, in order |
| JsonNpcLoader.LoadNPCsFromMap | JSONNPCLoader.java:13-46 | one fresh NPC per usable object of the `npcs` list, in order; nothing for a missing file or a parse error |
| JsonNpcLoader.LoadNPC | JSONNPCLoader.java:48-55 | the first loaded NPC, or nothing exactly when none loads |
| JsonNpcLoader.LoadedSeeds | JSONNPCLoader.java:13-46 | the NPCs a file yields: those of the usable objects of its `npcs` list, and none for a missing file, a parse error or a file without the list; `LoadedSeedsFromObjects` and `SeedsOfAllUsable` state it |
| Snapshot.Fields | GameServer.java:79-100 | a player record writes 7 fields starting `P`, an NPC record 8 starting `N` |
| Snapshot.EncodeIsJoinOfFields | GameServer.java:104 | the line is all the records' fields joined by single commas |
| Snapshot.Encode | GameServer.java:72-105 | the broadcast line, each record's text joined by commas; `EncodeIsJoinOfFields` and `RoundTrip` state its fields and how the client reads it |
| Snapshot.Decode | GameClient.java:94-126 | the client's walk over the fields: it stops with fewer than seven fields left (eight for an NPC), gives up at a number that does not parse, and skips seven fields of any other type; `DecodeFieldsThen` and `RoundTrip` state what it reads |
| Snapshot.DecodeLine | GameClient.java:92-126 | the records the client takes from one line: the walk over its `split` on commas |
| Snapshot.FieldsNoComma | GameServer.java:79-100 | a well-formed record's fields hold no comma |
| Snapshot.DecodeHead | GameClient.java:94-126 | the walk reads one well-formed record off the front of the fields |
| Snapshot.DecodeFieldsThen | GameClient.java:94-126 | the walk over well-formed records' fields reads exactly those records, then goes on |
| Snapshot.RoundTrip | GameClient.java:92-126 | the client reads back, in order and complete, every record of a line of well-formed records that does not end in an empty NPC type |
| Snapshot.SplitDropsEmptyLast | GameClient.java:92 | `split` drops an empty last piece |
| Snapshot.DecodeNpcWithoutType | GameClient.java:111 | an NPC record cut to seven fields is a complete walk that reads nothing |
| Snapshot.TrailingEmptyTypeLost | GameClient.java:92-126 | an NPC with an empty type at the end of the line is lost, and the walk still counts as complete |
| Snapshot.EncodeIsNoGreeting | GameClient.java:82-85 | a state line never starts with the greeting the client ignores |
| Server.CollidesMonotone | GameServer.java:164-176 | no colliders means no collision, and a collision with a union is a collision with one part |
| Server.HitsColliderIff | GameServer.java:157-172 | a collider hits exactly when it reaches into the foot box grown by 2 pixels |
| Server.CheckCollision | GameServer.java:156-177 | the loop reports a hit exactly when the foot box overlaps some padded collider |
| Server.ParseIntAttribute | GameServer.java:143-153 | a missing value gives the default; a present value gives what `Integer.parseInt` reads when it accepts the text, and the default when it throws |
| Server.ParseIntAttributeReads | GameServer.java:143-153 | `%d` of a 32-bit value reads back; a value with a blank at either end falls back to the default |
| Server.ColliderOf | GameServer.java:125-130 | an object without attributes is the collider `(0, 0, 32, 32)` |
| Server.DirectionString | GameServer.java:384-392 | the facing is always one of top, left, down and right |
| Server.HandleMoveOutcome | GameServer.java:347-382 | a move starts exactly for a key token whose 2-pixel step stays in bounds and clears every collider, and then sets MOVING, the token, counter 0 and the facing `getDirectionString` gives, changing nothing else; a blocked step stops the player; an out-of-bounds step changes nothing; the position never changes |
| Server.HandleMove | GameServer.java:347-382 | `handleMovement` on the connection's state, with its result; `HandleMoveOutcome` and `HandleMoveKeepsInv` state it |
| Server.MoveIn | GameServer.java:337-345 | `moveInDirection`: one 2-pixel step in the current direction, and none for a text that is not a key token; `CompletingCoversSteps` and `MovingCoversSteps` state the steps it adds up to |
| Server.HandleMoveKeepsInv | GameServer.java:347-382 | `handleMovement` keeps the invariant: a direction exactly when not idle, and an even counter from 0 to 32 |
| Server.ReceiveKeepsInv | GameServer.java:252-275 | an input line keeps the invariant |
| Server.TickKeepsInv | GameServer.java:284-335 | a timer tick keeps the invariant |
| Server.TickOutcome | GameServer.java:284-335 | a tick returns false exactly from IDLE; it moves only a moving or completing player, and then by one 2-pixel step in its direction |
| Server.MovingStopsOnTileBoundary | GameServer.java:310-324 | a moving player stops exactly at a tile boundary with no key held for 300 ms |
| Server.MovingCoversSteps | GameServer.java:310-324 | each tick of a moving player within a tile moves it one step on and adds 2 to the counter |
| Server.TileIsSixteenTicks | GameServer.java:310-324 | sixteen ticks from the start of a tile cover exactly 32 pixels on one axis |
| Server.TopEdgeIsCrossed | GameServer.java:347-367 | only the first step is checked: a player 4 pixels below the top edge who presses W ends 28 pixels above the map |
| Server.SameKeyWhileMoving | GameServer.java:258-275 | pressing the current key again while moving never moves the player. With a free next step it restarts the tile's pixel count. With a collider in the way the player stops mid-tile and keeps the count. With the step off the map only the input time and the held key change |
| Server.InputWhileBusyIsBuffered | GameServer.java:261-267 | while completing or pausing, a key only sets the held key, its time and, if different, the next direction |
| Server.PauseHolds | GameServer.java:297-308 | a pause that has not run out changes nothing and reports true |
| Server.Received | GameServer.java:252-275 | one input line on the connection's state; stated by the lemmas named in the `Receive` row |
| Server.Tick | GameServer.java:284-335 | one timer tick on the connection's state, with `updateMovement`'s result; stated by the lemmas named in the `UpdateMovement` row |
| Server.EmptyLineReleases | GameServer.java:253-256 | an empty line lets go of the held key and changes nothing else |
| Server.TurnWhileMovingCompletes | GameServer.java:258-273 | a different key while MOVING switches to COMPLETING_SQM and keeps the key as the next direction; the player, the direction and the pixel count are untouched |
| Server.CompletingTick | GameServer.java:286-296 | while completing a tile, a tick below 32 pixels takes one more step in the old direction; at 32 the player stands still, the counter returns to 0, and a 200 ms pause starts from this tick |
| Server.PauseEnds | GameServer.java:298-308 | at the end of a pause the player goes idle and retries the remembered key exactly when there is one pressed less than 300 ms ago; the retry starts a move only when its first step is free and then drops the remembered key; without a retry the key stays remembered |
| Server.CompletingCoversSteps | GameServer.java:286-296 | ticks while completing a tile move the player one step each in the old direction |
| Server.CompletingEndsInPause | GameServer.java:286-296 | a tile completed from `p` pixels ends in a pause after `(32 - p) / 2 + 1` ticks, `(32 - p) / 2` steps from where it started |
| Server.PauseHoldsThrough | GameServer.java:298-308 | any number of ticks before the end of a pause change nothing |
| Server.TurnCommitsTile | GameServer.java:258-308 | the cost of a turn: after a different key while moving, the player finishes the tile in the old direction and pauses, and no tick before 200 ms after the tile's end moves it or starts the new move |
| Server.ClientConnection.constructor | GameServer.java:234-241 | a new player stands idle at its spawn point |
| Server.ClientConnection.IsMovingNow | GameServer.java:246 | `isMoving` holds exactly in MOVING and COMPLETING_SQM |
| Server.ClientConnection.Receive | GameServer.java:252-275 | one line moves the connection to `Received` of its old state and keeps the invariant; what `Received` does in each state is stated by `EmptyLineReleases`, `TurnWhileMovingCompletes`, `InputWhileBusyIsBuffered` and `SameKeyWhileMoving` |
| Server.ClientConnection.UpdateMovement | GameServer.java:284-335 | one tick moves the connection to `Tick` of its old state, with its return value, and keeps the invariant; what `Tick` does in each state is stated by `TickOutcome`, `MovingStopsOnTileBoundary`, `CompletingTick`, `PauseHolds` and `PauseEnds` |
| Server.ClientConnection.MoveInDirection | GameServer.java:337-345 | the player moves one step in the current direction |
| Server.ClientConnection.HandleMovement | GameServer.java:347-382 | the new state and the return value are `HandleMove` of the old state |
| Server.PlayerRecordOf | GameServer.java:79-86 | a player's record carries its id and position, and `moving` is `isMoving` |
| Server.NpcRecordOf | GameServer.java:92-100 | an NPC's record carries its id, `moving` is "state is MOVING", and a missing type is written `null` |
| Server.FormatGameState | GameServer.java:72-105 | the line is the encoding of the players' records followed by the NPCs' records |
| Server.PlayerStates | GameServer.java:77-87 | the first loop writes one text per player, in order |
| Server.AddNpcStates | GameServer.java:90-101 | the second loop appends one text per NPC, in order |
| Client.ProcessNewPlayer | GameClient.java:140-143 | an unseen player appears at rest on the reported point, and both of its times are now |
| Client.ProcessKnownPlayer | GameClient.java:144-167 | a known player's target becomes the reported point; a jump over 100 pixels moves it there and takes the new direction; otherwise a direction change within 200 ms of the last accepted one is ignored and a later one is taken with its time recorded |
| Client.ProcessAnimation | GameClient.java:169-177 | the frame toggles between 0 and 1 only while moving and at least 150 ms after the last toggle, and is 0 when still |
| Client.ProcessPlayer | GameClient.java:138-180 | `processPlayerState` on the known views and time tables; `ProcessNewPlayer`, `ProcessKnownPlayer` and `ProcessAnimation` state it |
| Client.ApplyAllFreshKeys | GameClient.java:104-109 | the new table holds exactly the ids of the player records |
| Client.ApplyAllKeepsUntouched | GameClient.java:104-109 | an entry no later record names is kept |
| Client.ApplyAllTargets | GameClient.java:94-126 | each player's target is the point of its last record in the line |
| Client.ApplyAll | GameClient.java:94-126 | the decoded records applied in order; `ApplyAllFreshKeys`, `ApplyAllKeepsUntouched` and `ApplyAllTargets` state it |
| Client.ServerLineInstallsPlayers | GameClient.java:81-136 | a line the server wrote is applied in full, and the client then knows exactly the listed players; the empty line of no records empties the table |
| Client.ServerLineRebuildsPlayers | GameClient.java:81-136 | in a line the server wrote, each listed player heads for the point of its last record |
| Client.HandleMessage | GameClient.java:81-136 | `handleServerMessage` on the client's state: the greeting changes nothing; a complete walk installs the new player table, and a walk cut short by a bad number keeps the known table as updated so far; `ServerLineInstallsPlayers` and `ServerLineRebuildsPlayers` state it for server lines |
| Client.NpcSnapsBackToStaleTarget | GameClient.java:118-121 | an NPC record sets the position but not the target, so the next interpolation puts the NPC back on its old target |
| Client.InputTokenChoice | GameClient.java:183-219 | the token is empty exactly when opposite keys or no keys are held; otherwise it is the highest held key, D over S over A over W |
| Client.InputTokenSingleAxis | GameClient.java:188-211 | without opposite keys, at most two keys are held |
| Client.InputToken | GameClient.java:183-219 | the token `handleInput` sends for the held keys; `InputTokenChoice` states it |
| Client.ReadRecord | GameClient.java:94-112 | one pass of the loop reads 7 fields for a player and 8 for an NPC |
| Client.WalkIsApplyDecoded | GameClient.java:94-126 | applying records while reading them is the same as applying the decoded records afterwards |
| Client.Walk | GameClient.java:94-126 | the loop of `handleServerMessage` as it runs, applying each record as it is read; `WalkIsApplyDecoded` ties it to the decoded line |
| Client.GameClient.constructor | GameClient.java:23-32 | the client starts with no players or NPCs, no keys held and not moving |
| Client.GameClient.Connect | GameClient.java:73 | the player id is the first line read as an integer |
| Client.GameClient.ProcessPlayerState | GameClient.java:138-180 | the returned object has the record's id, is the known object for a known id and a fresh one otherwise, and shows `ProcessPlayer` of the old views and tables |
| Client.GameClient.ApplyPlayerRecord | GameClient.java:104-109 | a player record puts the processed object into the new table |
| Client.GameClient.PlaceNpc | GameClient.java:118-122 | an NPC record sets the position, facing, frame and state, and not the target |
| Client.GameClient.ApplyNpcRecord | GameClient.java:110-124 | the NPC with that id, or a new wandering one that is then added, takes the record's fields |
| Client.GameClient.ApplyOne | GameClient.java:97-125 | one record is applied to the objects as `ApplyRecord` applies it to the views |
| Client.GameClient.WalkFields | GameClient.java:94-126 | the index loop applies the decoded records in order and stops where the walk stops |
| Client.GameClient.HandleServerMessage | GameClient.java:81-136 | the client's new state is `HandleMessage` of the old one; the table is replaced exactly when the ids differ |
| Client.GameClient.ReplacePlayers | GameClient.java:129-135 | the table shows the new views, and is replaced exactly when its ids differ from the new table's |
| Client.GameClient.HandleInput | GameClient.java:183-219 | nothing is sent without a local player; otherwise the token of the held keys is sent, and `isMoving` holds exactly when it is not empty |
| Client.GameClient.UpdateInterpolation | GameClient.java:221-239 | every player and NPC takes one interpolation frame, the camera is aimed at the local player, and then it takes its own frame |
| Client.GameClient.InterpolateNpcsAndCamera | GameClient.java:230-234 | every NPC interpolates, then the camera steps toward its target |
| Client.GameClient.InterpolatePlayerObjects | GameClient.java:222-227 | every player interpolates, and the camera is aimed at the local player |
| Client.GameClient.InterpolatePlayerObject | GameClient.java:223-226 | one player interpolates, and the others are unchanged |
| Client.GameClient.InterpolateNpcObjects | GameClient.java:230-232 | every NPC interpolates |
| Client.GameClient.InterpolateNpcObject | GameClient.java:231 | one NPC interpolates, and the others are unchanged |
| TiledMap.Word | TiledMapRenderer.java:152-155 | the four shifted bytes form an unsigned 32-bit word |
| TiledMap.Signed | TiledMapRenderer.java:152-156 | the word as a Java `int` is a 32-bit value, negative exactly when the top bit is set |
| TiledMap.TileIdAt | TiledMapRenderer.java:151-157 | tile `i` is read from bytes `4i` to `4i + 3`, and is negative exactly when byte `4i + 3` is 0x80 or more |
| TiledMap.DecodeEncode | TiledMapRenderer.java:151-157 | reading a little-endian encoded id gives the id back |
| TiledMap.EncodeDecode | TiledMapRenderer.java:151-157 | encoding the id read from four bytes gives the bytes back |
| TiledMap.LayerRoundTrip | TiledMapRenderer.java:146-157 | a base64 layer holding little-endian ids loads as those ids |
| TiledMap.PlainLayerEmpty | TiledMapRenderer.java:139-158 | a layer that is not base64 stays all zeros |
| TiledMap.LayerTiles | TiledMapRenderer.java:139-158 | a loaded layer holds exactly `width * height` ids; `LayerRoundTrip` and `PlainLayerEmpty` state which |
| TiledMap.FillLayer | TiledMapRenderer.java:151-157 | the byte loop writes each tile whose four bytes exist, and reports success exactly when all of them do |
| TiledMap.TilesetEntry | TiledMapRenderer.java:125-135 | the tile in column `x`, row `y` has id `y * cols + x + 1` and covers that cell |
| TiledMap.TilesetIds | TiledMapRenderer.java:123-135 | the table's ids are exactly 1 to `rows * cols`, each the id of one cell |
| TiledMap.CellIdsDistinct | TiledMapRenderer.java:127 | distinct cells have distinct ids |
| TiledMap.TilesetInsideImage | TiledMapRenderer.java:123-135 | every rectangle of the table lies inside the tileset image |
| TiledMap.TilesetTable | TiledMapRenderer.java:123-135 | the tileset table of `cols` by `rows` tiles; `TilesetEntry`, `TilesetIds` and `TilesetInsideImage` state its keys and rectangles |
| TiledMap.VisibleInMap | TiledMapRenderer.java:195-204 | the visible range never leaves the map |
| TiledMap.VisibleRange | TiledMapRenderer.java:195-205 | the tile range a paint walks; `VisibleInMap`, `VisibleIndexInLayer` and `VisibleCoversView` state its bounds |
| TiledMap.IndexInLayer | TiledMapRenderer.java:210 | the row-major index of a map cell lies in the layer |
| TiledMap.VisibleIndexInLayer | TiledMapRenderer.java:195-210 | every index the paint loop reads lies in a layer of `mapWidth * mapHeight` tiles |
| TiledMap.VisibleCoversView | TiledMapRenderer.java:195-205 | with the camera in the map's quadrant and positive tile sizes, every map tile that overlaps the panel is in the range |
| TiledMap.RowDrawsExactly | TiledMapRenderer.java:209-224 | a row draws exactly its cells with a non-zero id known to the table, each from its table rectangle |
| TiledMap.DrawsFromTable | TiledMapRenderer.java:207-228 | every draw of a paint copies the rectangle of a non-zero id in the table |
| TiledMap.GroupColliders | TiledMapRenderer.java:162-178 | the colliders are exactly the objects of the groups named `colisores` |
| TiledMap.TiledMapRenderer.constructor | TiledMapRenderer.java:46-49 | the collider list and the table start empty, with no camera |
| TiledMap.TiledMapRenderer.SetCamera | TiledMapRenderer.java:26-28 | only the camera changes |
| TiledMap.TiledMapRenderer.LoadTileset | TiledMapRenderer.java:123-135 | a zero tile size throws before any entry; otherwise the table gains one entry per tile of the image |
| TiledMap.TiledMapRenderer.PutTiles | TiledMapRenderer.java:125-135 | the nested loops put the whole tileset table over the old one |
| TiledMap.TiledMapRenderer.PutRow | TiledMapRenderer.java:126-134 | the inner loop puts the tiles of one tileset row |
| TiledMap.TiledMapRenderer.LoadColliders | TiledMapRenderer.java:162-178 | the objects of the `colisores` groups are appended in order |
| TiledMap.TiledMapRenderer.LoadMap | TiledMapRenderer.java:99-184 | the four sizes are set; the table, layers and colliders are loaded in that order; the load completes exactly when nothing throws, and then the layers hold the decoded tiles and the colliders are appended |
| TiledMap.TiledMapRenderer.AllocateLayers | TiledMapRenderer.java:139 | `new int[n][size]` gives `n` distinct fresh arrays of zeros |
| TiledMap.TiledMapRenderer.FillLayers | TiledMapRenderer.java:141-159 | the layers are filled in order, and the loop completes exactly when every base64 layer is long enough |
| TiledMap.TiledMapRenderer.LoadLayer | TiledMapRenderer.java:142-158 | a base64 layer is filled and any other stays zero |
| TiledMap.TiledMapRenderer.PaintTiles | TiledMapRenderer.java:186-229 | nothing is drawn without a camera, whatever the map; otherwise the draws are those of every layer over the visible range, in order |
| TiledMap.TiledMapRenderer.PaintLayer | TiledMapRenderer.java:208-227 | the rows of one layer over the range, in order |
| TiledMap.TiledMapRenderer.PaintRow | TiledMapRenderer.java:209-226 | the shown tiles of one row, from left to right |
| TiledMap.TiledMapRenderer.GetColliders | TiledMapRenderer.java:231-233 | the copy holds the colliders |
| TiledMap.TiledMapRenderer.GetPreferredSize | TiledMapRenderer.java:235-238 | the size is the map's size in pixels |
| TiledMap.PreferredSizeHoldsMap | TiledMapRenderer.java:235-238 | with positive tile sizes, the preferred size holds every map cell |

## Left out

- Sockets, threads and Swing: these are left out.
  - `GameServer.start`, `broadcast`, `sendMessage`, `removeClient` and the reader plumbing;
  - `NetworkManager`;
  - `GameClient.initializeWindow`, `startGameLoop` and `invokeLater`;
  - the `SpriteRenderer` and the actual drawing.
  A paint is modelled as the list of `drawImage` calls it would make, and `handleInput` returns the token it would send.
- Concurrency: the reader thread, the movement timer and the NPC manager's own timer are not modelled. Each input line, tick and update is one atomic step.
- The clock and randomness are parameters: `now`, the spawn point, and the wander roll and offsets.
- XML and library decoding are outside the model; their results arrive as values (`MapData`, `ObjectGroup`, `LayerData`, the NPC file's text). This covers the DOM walks, `GameServer.loadMapColliders`, `TiledMapRenderer.loadColliders`, base64 decoding, `ImageIO` and `readStream`.
- `parseFloatAttribute` is left out (floating point); collider rectangles arrive as integers.
- The order in which a `HashMap` hands out its values is not modelled. The broadcast, the NPC update loop and `updateInterpolation` are stated for any order. Each step touches only its own entry, except that the camera follows the local player.
- Trivial getters (`getMapWidth`, `getPosition`, `getId` and the like) read the model's fields directly and have no members of their own. The same goes for `GameState`'s getters, which are its constants.
- `NPC.updatePathBehavior` is empty in the source. Its behaviour step is the identity (`NPCModel.BehaviorStep`).
- Coordinates, sizes and tile counts are unbounded integers. The 32-bit overflow of `mapWidth * mapHeight`, `i * 4`, `x * tileWidth` and the preferred size is not modelled; only the tile ids are read as 32-bit values.
- TiledMap.TiledMapRenderer.LoadMap: the model does not say what the layers hold after a failed load. Java keeps the partly filled layers; the model states the tiles only for a completed load.
- TiledMap.TiledMapRenderer.PaintTiles: with a camera set, requires non-zero tile sizes and layers of `mapWidth * mapHeight` tiles (`Valid`). Two Java failures are left out. A paint with a camera before any load throws `ArithmeticException` at line 195, because the tile sizes are still 0. A paint after a load that set non-zero sizes and then failed before allocating the layers (line 139) throws `NullPointerException` at the layer loop. The model keeps an empty layer list where Java keeps `null`, so in that second case, and after a first load that failed on a negative map size, it draws nothing instead of throwing.
- TiledMap.TiledMapRenderer.GetPreferredSize: does not model the 32-bit wrap-around of the products, because map sizes are far below it.
- Client.GameClient.Connect: a first line that is not a number throws out of `connectToServer` in Java. The model reports it and leaves the id unset.
- Client.GameClient.HandleServerMessage: a bad number in the line throws out of the listener thread in Java, ending it. The model stops the walk there and does not model the thread's end.
- Client.GameClient.UpdateInterpolation: the renderer's copy of the tables (`updatePlayers`, `updateNPCs`) is left out.
- NPCRegistry.NPCManager.LoadNPCsFromMap: states the table through the loaded NPCs' views, not their object identity beyond freshness.
- The spawn point of a new connection is a parameter. It satisfies `Random.nextInt`'s range (`Server.SpawnPoint`).
- JavaText.ToUpperCase: maps ASCII letters only, in a locale where that is the whole mapping. Java's `toUpperCase` follows Unicode and the default locale: `"ſ"` becomes `S`, `"ß"` becomes `SS`, and under a Turkish locale `i` becomes `İ`. So the behaviour names `CreateNPCFromMap` accepts are exactly the ASCII spellings in any letter case.
- JavaText.ParseInt: accepts ASCII digits only. Java's `Integer.parseInt` also accepts other Unicode decimal digits (`"٣"` is 3), which the model rejects.
- The float constants are integer arithmetic, exact for map-sized values (below 2^24): `0.5f`, `0.1f`, `0.15f` (as 10066330 / 2^26) and `1.0f`.
